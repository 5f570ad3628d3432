/** A failure held for an operator who then starts compensation ends where automatic
    compensation would have gone. */
module HoldOrCompensate {
  import opened SagaTypes
  import opened SagaSpec
  import opened ForwardPath
  import opened SagaInvariant

  /** The same saga with another on_failure strategy frozen on row `i`. */
  function Restrategized(s: Saga, i: nat, hold: bool): Saga
    requires i < |s.rows|
  {
    var row := s.rows[i];
    WithRow(s, i, row.(lab := row.lab.(spec := row.lab.spec.(awaitOperator := hold))))
  }

  /** The compensation walk never looks at the strategy. */
  lemma {:induction false} UnwindIgnoresStrategy(e: Env, s: Saga, q: int, i: nat, hold: bool)
    requires i < |s.rows|
    ensures |Unwind(e, s, q).rows| == |s.rows|
    ensures Unwind(e, Restrategized(s, i, hold), q) == Restrategized(Unwind(e, s, q), i, hold)
    decreases q + 1
  {
    hide HasUndo;
    var s1 := Restrategized(s, i, hold);
    if q < 0 {
      SkipIgnoresStrategy(s, i, hold);
    } else if q >= |s.rows| {
      UnwindIgnoresStrategy(e, s, q - 1, i, hold);
    } else {
      var row := s.rows[q];
      if !NeedsUndo(row) || HasUndo(s.undos, row.span, Compensated) {
        UnwindIgnoresStrategy(e, s, q - 1, i, hold);
      } else if !HasUndo(s.undos, row.span, Compensating) {
        if row.lab.spec.kind == SpawnSagas {
          if e.childrenDone(q) {
            UnwindIgnoresStrategy(e, AddSpawnUndo(s, q), q - 1, i, hold);
            assert AddSpawnUndo(s1, q) == Restrategized(AddSpawnUndo(s, q), i, hold);
          }
        } else {
          ScheduleIgnoresStrategy(e, s, q, i, hold);
        }
      }
    }
  }

  lemma SkipIgnoresStrategy(s: Saga, i: nat, hold: bool)
    requires i < |s.rows|
    ensures ConcludeCompensated(Restrategized(s, i, hold)) == Restrategized(ConcludeCompensated(s), i, hold)
    ensures ConcludeFailed(Restrategized(s, i, hold)) == Restrategized(ConcludeFailed(s), i, hold)
  {
    assert SkipPending(Restrategized(s, i, hold).rows) == Restrategized(ConcludeFailed(s), i, hold).rows;
  }

  lemma ScheduleIgnoresStrategy(e: Env, s: Saga, q: nat, i: nat, hold: bool)
    requires i < |s.rows| && q < |s.rows|
    ensures ScheduleUndo(e, Restrategized(s, i, hold), q) == Restrategized(ScheduleUndo(e, s, q), i, hold)
  {
    if !e.undoBuilds(q) {
      var row := s.rows[q].(status := Failed, error := Some(Err(false, false)));
      var s1 := WithRow(s, q, row).(nextId := s.nextId + 1);
      SkipIgnoresStrategy(s1, i, hold);
      var t := Restrategized(s, i, hold);
      var t1 := WithRow(t, q, t.rows[q].(status := Failed, error := Some(Err(false, false)))).(nextId := s.nextId + 1);
      assert t1 == Restrategized(s1, i, hold);
    }
  }

  lemma {:induction false} UnwindKeepsWindow(e: Env, s: Saga, q: int)
    ensures Unwind(e, s, q).window == s.window
    decreases q + 1
  {
    if q >= |s.rows| {
      UnwindKeepsWindow(e, s, q - 1);
    } else if q >= 0 {
      var row := s.rows[q];
      if !NeedsUndo(row) || HasUndo(s.undos, row.span, Compensated) {
        UnwindKeepsWindow(e, s, q - 1);
      } else if !HasUndo(s.undos, row.span, Compensating) && row.lab.spec.kind == SpawnSagas && e.childrenDone(q) {
        UnwindKeepsWindow(e, AddSpawnUndo(s, q), q - 1);
      }
    }
  }

  /** The saga as held, then compensated by the operator at any later time. */
  function HeldThenStarted(e0: Env, e: Env, s: Saga, i: nat, err: Option<Err>): Saga
    requires i < |s.rows|
  {
    StartCompensation(e, FailStep(e0, Restrategized(s, i, true), i, err), i)
  }

  function Automatic(e: Env, s: Saga, i: nat, err: Option<Err>): Saga
    requires i < |s.rows|
  {
    FailStep(e, Restrategized(s, i, false), i, err)
  }

  /** The failure and the row's recorded details agree on whether the worker crashed. */
  predicate SameVerdict(row: Row, err: Option<Err>) {
    FailedRow(row, err).status == TimedOut || Crashed(FailedRow(row, err).error) == Crashed(err)
  }

  predicate Live(s: Saga) {
    s.status != SagaCompensating && s.status != SagaFailed && s.status != SagaCompensated && s.window == -1
  }

  lemma HoldStart(e0: Env, e: Env, s: Saga, i: nat, err: Option<Err>)
    requires i < |s.rows| && Live(s)
    ensures var held := FailStep(e0, Restrategized(s, i, true), i, err);
      var start := if Dirty(FailedRow(s.rows[i], err)) then i else i - 1;
      && held == WithRow(s, i, FailedRow(Restrategized(s, i, true).rows[i], err)).(status := AwaitingRecovery)
      && HeldThenStarted(e0, e, s, i, err) == if start < 0 then ConcludeFailed(held) else StartUnwind(e, held, start)
  {
  }

  /** Both ways end in the same saga, up to the strategy frozen on the row, exactly when
      the details recorded on the row before the failure do not contradict it. */
  lemma HoldMatchesAutomatic(e0: Env, e: Env, s: Saga, i: nat, err: Option<Err>)
    requires i < |s.rows| && Live(s)
    ensures i < |Automatic(e, s, i, err).rows|
    ensures HeldThenStarted(e0, e, s, i, err) == Restrategized(Automatic(e, s, i, err), i, true)
      <==> SameVerdict(s.rows[i], err)
  {
    hide Unwind, SkipPending;
    var row := FailedRow(s.rows[i], err);
    HoldStart(e0, e, s, i, err);
    var held := FailStep(e0, Restrategized(s, i, true), i, err);
    var auto1 := WithRow(Restrategized(s, i, false), i, FailedRow(Restrategized(s, i, false).rows[i], err));
    var auto0 := if row.status == TimedOut || Crashed(err) then i else i - 1;
    var hold0 := if Dirty(row) then i else i - 1;
    assert auto0 == hold0 <==> SameVerdict(s.rows[i], err);
    if auto0 < 0 {
      SkipIgnoresStrategy(auto1, i, true);
    } else {
      var a := auto1.(status := SagaCompensating, window := auto0);
      UnwindIgnoresStrategy(e, a, auto0, i, true);
      UnwindKeepsWindow(e, a, auto0);
    }
    if hold0 >= 0 { UnwindKeepsWindow(e, held.(status := SagaCompensating, window := hold0), hold0); }
    assert Restrategized(auto1, i, true) == held.(status := auto1.status);
    if auto0 == hold0 && auto0 >= 0 {
      var a := auto1.(status := SagaCompensating, window := auto0);
      assert Restrategized(a, i, true) == held.(status := SagaCompensating, window := hold0);
    }
  }

  /** In a reachable saga the row that fails carries no older details, so holding is
      always as good as compensating at once. */
  lemma HoldIsSafe(r: Rules, e0: Env, e: Env, s: Saga, i: nat, err: Option<Err>)
    requires Inv(r, s) && (s.status == Running || s.status == SagaAwaitingHuman)
    requires i < |s.rows| && Fits(s.status, s.rows[i].status)
    ensures i < |Automatic(e, s, i, err).rows|
    ensures HeldThenStarted(e0, e, s, i, err) == Restrategized(Automatic(e, s, i, err), i, true)
  {
    var outs, ctx := LiveRow(r, s, i);
    HoldMatchesAutomatic(e0, e, s, i, err);
  }
}
