/** When the end of a child saga disturbs the compensation of its parent: the spawn row that
    is resumed is the highest one, wherever the walk stands. Told from the stored rows and
    from what the transaction meets, before it runs. */
module ChildWakeup {
  import opened SagaTypes
  import opened SagaSpec
  import opened Interpreter
  import opened ForwardPath
  import opened ForwardSteps
  import opened Compensation
  import opened Scheduling
  import opened LabelKeys
  import opened SagaInvariant

  predicate IsSpawn(row: Row) { row.lab.spec.kind == SpawnSagas }

  /** The row at which a walk without earlier undos comes to rest: the highest one up to
      `q` that needs an undo, unless that is a spawn whose children have all ended. */
  function Halts(e: Env, rows: seq<Row>, q: int): (r: Option<nat>)
    requires q < |rows|
    ensures r.Some? ==> r.value <= q && NeedsUndo(rows[r.value])
    ensures r.Some? && IsSpawn(rows[r.value]) ==> !e.childrenDone(r.value)
    ensures forall p :: 0 <= p <= q && NeedsUndo(rows[p]) && (r.Some? ==> r.value < p) ==>
      IsSpawn(rows[p]) && e.childrenDone(p)
    decreases q + 1
  {
    if q < 0 then None
    else if NeedsUndo(rows[q]) && !(IsSpawn(rows[q]) && e.childrenDone(q)) then Some(q)
    else Halts(e, rows, q - 1)
  }

  /** A walk from `from` stays at work, and the highest spawn row is not one it has passed
      or waits for, though its children have all ended. */
  predicate Overtakes(e: Env, rows: seq<Row>, from: int)
    requires from < |rows|
  {
    var halt, top := Halts(e, rows, from), HighestSpawn(rows);
    && halt.Some? && (IsSpawn(rows[halt.value]) || e.undoBuilds(halt.value))
    && top.Some? && e.childrenDone(top.value) && (top.value < halt.value || top.value > from)
  }

  /** A failure of row `i` starts such a walk. */
  predicate FailureOvertakes(e: Env, s: Saga, i: nat, err: Option<Err>)
    requires i < |s.rows|
  {
    && !s.rows[i].lab.spec.awaitOperator && WalkFrom(s, i, err) >= 0
    && Overtakes(e, WithRow(s, i, FailedRow(s.rows[i], err)).rows, WalkFrom(s, i, err))
  }

  /** The row to be handed to a worker is refused on the way, and that failure does. */
  predicate LaunchOvertakes(r: Rules, e: Env, s: Saga, i: nat)
    requires i < |s.rows|
  {
    var row := s.rows[i].(status := InProgress);
    match r.resolve(s.ctx, row.lab, row.retries, None)
    case Unresolved(err) => FailureOvertakes(e, WithRow(s, i, row), i, err)
    case Resolved(args) =>
      var s1 := WithRow(s, i, row.(args := args));
      && row.lab.spec.kind == Commit
      && if row.lab.spec.toolCount != 1 then FailureOvertakes(e, s1, i, Some(Err(false, false)))
         else
           && row.lab.spec.hasPolicy && r.gate(row.lab, args, None).Some?
           && FailureOvertakes(e, s1, i, r.gate(row.lab, args, None))
  }

  /** What scheduling comes to breaks down into such a walk. */
  predicate StopOvertakes(r: Rules, e: Env, stop: Stop)
    requires StopIn(stop)
  {
    match stop
    case Finished(_) => false
    case Parked(_, _) => false
    case Launch(s, i) => LaunchOvertakes(r, e, s, i)
    case Faulted(s, i, err) => FailureOvertakes(e, s, i, err)
    case LoopFailed(s, i) => Overtakes(e, s.rows, i)
  }

  /** The end of a child disturbs nothing: in a compensating saga no undo is in flight and
      the spawn row may have left effects, so the walk waits there; in a running one the
      parked join does not break down into a walk that is then overtaken. */
  predicate WakeSafe(r: Rules, e: Env, s: Saga) {
    match s.status
    case SagaCompensating =>
      ResumableSpawn(e, s).Some? ==> !InFlight(s) && Risky(s.rows[ResumableSpawn(e, s).value])
    case Running =>
      (match FindJoin(s.rows)
       case None => true
       case Some(i) => e.native(i).NativeWait? || !StopOvertakes(r, e, Fire(r, e, s, i)))
    case _ => true
  }

  // ---- Where a walk comes to rest

  predicate NoUndosUpTo(s: Saga, q: int) {
    forall p :: 0 <= p <= q && p < |s.rows| ==> forall u <- s.undos :: u.forward != s.rows[p].span
  }

  lemma HasUndoNext(undos: seq<Undo>, u: Undo, forward: nat, st: StepStatus)
    ensures HasUndo(undos + [u], forward, st) <==> HasUndo(undos, forward, st) || (u.forward == forward && u.status == st)
  {
    if HasUndo(undos, forward, st) {
      var v :| v in undos && v.forward == forward && v.status == st;
      assert v in undos + [u];
    }
    assert u in undos + [u];
  }

  lemma SpawnUndoGoesOn(s: Saga, q: nat)
    requires Numbered(s) && q < |s.rows| && NoUndosUpTo(s, q)
    ensures Numbered(AddSpawnUndo(s, q)) && NoUndosUpTo(AddSpawnUndo(s, q), q - 1)
  {
    NumberedSpawnUndo(s, q);
  }

  /** No undo row for row `q` yet. */
  lemma NotUndoneYet(s: Saga, q: nat)
    requires q < |s.rows| && NoUndosUpTo(s, q)
    ensures !HasUndo(s.undos, s.rows[q].span, Compensated) && !HasUndo(s.undos, s.rows[q].span, Compensating)
    ensures NoUndosUpTo(s, q - 1)
  {
  }

  /** How the walk leaves the saga, and which row `x` it has undone on the way. */
  ghost predicate RestsAt(e: Env, s: Saga, s1: Saga, halt: Option<nat>, q: int, x: nat)
    requires x < |s.rows| && (halt.Some? ==> halt.value < |s.rows|)
  {
    && (s1.status == SagaCompensating <==> halt.Some? && (IsSpawn(s.rows[halt.value]) || e.undoBuilds(halt.value)))
    && (s1.status == SagaCompensating ==>
          && s1.rows == s.rows && s1.window == s.window
          && (InFlight(s1) <==> !IsSpawn(s.rows[halt.value]))
          && (HasUndo(s1.undos, s.rows[x].span, Compensated) <==>
                HasUndo(s.undos, s.rows[x].span, Compensated)
                || (halt.value < x <= q && IsSpawn(s.rows[x]) && NeedsUndo(s.rows[x]))))
  }

  /** An undo is sent off, or cannot be built. */
  lemma ScheduleRests(e: Env, s: Saga, q: nat, x: nat)
    requires s.status == SagaCompensating && q < |s.rows| && x < |s.rows| && !IsSpawn(s.rows[q]) && NeedsUndo(s.rows[q])
    ensures RestsAt(e, s, ScheduleUndo(e, s, q), Some(q), q, x)
  {
    HasUndoNext(s.undos, Undo(s.nextId, s.rows[q].span, s.rows[q].seqNo, Compensating, UndoKey(s.nextId)),
                s.rows[x].span, Compensated);
  }

  /** A spawn whose children have ended is undone, and the walk goes on below it. */
  lemma PassesSpawn(e: Env, s: Saga, s1: Saga, halt: Option<nat>, q: nat, x: nat)
    requires Numbered(s) && q < |s.rows| && x < |s.rows| && IsSpawn(s.rows[q]) && NeedsUndo(s.rows[q])
    requires halt.Some? ==> halt.value < q
    requires RestsAt(e, AddSpawnUndo(s, q), s1, halt, q - 1, x)
    ensures RestsAt(e, s, s1, halt, q, x)
  {
    HasUndoNext(s.undos, AddSpawnUndo(s, q).undos[|s.undos|], s.rows[x].span, Compensated);
  }

  lemma {:induction false} UnwindRests(e: Env, s: Saga, q: int, x: nat)
    requires Numbered(s) && s.status == SagaCompensating && !InFlight(s) && q < |s.rows| && x < |s.rows|
    requires NoUndosUpTo(s, q)
    ensures RestsAt(e, s, Unwind(e, s, q), Halts(e, s.rows, q), q, x)
    decreases q + 1
  {
    hide RestsAt, Numbered, NoUndosUpTo;
    if q < 0 {
      ConcludedRests(e, s, q, x);
    } else {
      var row := s.rows[q];
      NotUndoneYet(s, q);
      if !NeedsUndo(row) {
        UnwindRests(e, s, q - 1, x);
        PassesRow(e, s, Unwind(e, s, q - 1), Halts(e, s.rows, q - 1), q, x);
      } else if !IsSpawn(row) {
        ScheduleRests(e, s, q, x);
      } else if e.childrenDone(q) {
        SpawnUndoGoesOn(s, q);
        UnwindRests(e, AddSpawnUndo(s, q), q - 1, x);
        PassesSpawn(e, s, Unwind(e, AddSpawnUndo(s, q), q - 1), Halts(e, s.rows, q - 1), q, x);
      } else {
        WaitsHere(e, s, q, x);
      }
    }
  }

  lemma ConcludedRests(e: Env, s: Saga, q: int, x: nat)
    requires x < |s.rows|
    ensures RestsAt(e, s, ConcludeCompensated(s), None, q, x)
  {
  }

  lemma PassesRow(e: Env, s: Saga, s1: Saga, halt: Option<nat>, q: nat, x: nat)
    requires q < |s.rows| && x < |s.rows| && !NeedsUndo(s.rows[q]) && (halt.Some? ==> halt.value < q)
    requires RestsAt(e, s, s1, halt, q - 1, x)
    ensures RestsAt(e, s, s1, halt, q, x)
  {
  }

  lemma WaitsHere(e: Env, s: Saga, q: nat, x: nat)
    requires s.status == SagaCompensating && !InFlight(s) && q < |s.rows| && x < |s.rows| && IsSpawn(s.rows[q])
    ensures RestsAt(e, s, s, Some(q), q, x)
  {
  }

  /** A walk that begins is overtaken exactly when the rows say so. */
  lemma WalkOvertaken(e: Env, s: Saga, from: int)
    requires Numbered(s) && s.undos == [] && from < |s.rows|
    ensures ResumeSafe(e, StartUnwind(e, s, from)) <==> !Overtakes(e, s.rows, from)
  {
    var s0 := s.(status := SagaCompensating, window := from);
    var s1 := StartUnwind(e, s, from);
    var top := HighestSpawn(s.rows);
    assert Numbered(s0);
    if top.Some? {
      UnwindRests(e, s0, from, top.value);
    } else if |s.rows| > 0 {
      UnwindRests(e, s0, from, 0);
    }
  }

  lemma FailureOvertaken(e: Env, s: Saga, i: nat, err: Option<Err>)
    requires Numbered(s) && s.undos == [] && s.status == Running && i < |s.rows|
    ensures ResumeSafe(e, FailStep(e, s, i, err)) <==> !FailureOvertakes(e, s, i, err)
  {
    var s1 := WithRow(s, i, FailedRow(s.rows[i], err));
    assert Numbered(s1);
    if !s.rows[i].lab.spec.awaitOperator && WalkFrom(s, i, err) >= 0 { WalkOvertaken(e, s1, WalkFrom(s, i, err)); }
  }

  lemma LaunchOvertaken(r: Rules, e: Env, s: Saga, i: nat)
    requires Numbered(s) && s.undos == [] && s.status == Running && i < |s.rows|
    ensures ResumeSafe(e, Dispatch(r, e, s, i, None)) <==> !LaunchOvertakes(r, e, s, i)
  {
    hide FailStep, FailureOvertakes;
    var row := s.rows[i].(status := InProgress);
    match r.resolve(s.ctx, row.lab, row.retries, None)
    case Unresolved(err) =>
      assert Numbered(WithRow(s, i, row));
      FailureOvertaken(e, WithRow(s, i, row), i, err);
    case Resolved(args) =>
      var s1 := WithRow(s, i, row.(args := args));
      assert Numbered(s1);
      FailureOvertaken(e, s1, i, Some(Err(false, false)));
      FailureOvertaken(e, s1, i, r.gate(row.lab, args, None));
  }

  lemma StopOvertaken(r: Rules, e: Env, stop: Stop)
    requires WellStopped(stop) && Numbered(stop.s) && stop.s.undos == []
    ensures ResumeSafe(e, Settle(r, e, stop, None)) <==> !StopOvertakes(r, e, stop)
  {
    match stop
    case Finished(_) =>
    case Parked(_, _) =>
    case Launch(s, i) => LaunchOvertaken(r, e, s, i);
    case Faulted(s, i, err) => FailureOvertaken(e, s, i, err);
    case LoopFailed(s, i) => ExhaustedOvertaken(r, e, s, i);
  }

  lemma ExhaustedOvertaken(r: Rules, e: Env, s: Saga, i: nat)
    requires WellStopped(LoopFailed(s, i)) && Numbered(s) && s.undos == []
    ensures ResumeSafe(e, Settle(r, e, LoopFailed(s, i), None)) <==> !StopOvertakes(r, e, LoopFailed(s, i))
  {
    hide HighestSpawn;
    var row := s.rows[i];
    var s1 := WithRow(s, i, row.(error := if row.error.Some? then row.error else Some(Err(false, false))));
    assert Numbered(s1);
    WalkOvertaken(e, s1, i);
    ErrorsDoNotMatter(e, s.rows, s1.rows, i);
  }

  /** Walks look at labels and statuses only. */
  lemma {:induction false} ErrorsDoNotMatter(e: Env, rows: seq<Row>, rows1: seq<Row>, q: int)
    requires |rows| == |rows1| && q < |rows|
    requires forall i :: 0 <= i < |rows| ==> rows1[i].lab == rows[i].lab && rows1[i].status == rows[i].status
    ensures Halts(e, rows1, q) == Halts(e, rows, q) && HighestSpawn(rows1) == HighestSpawn(rows)
    decreases q + 1
  {
    if q >= 0 { ErrorsDoNotMatter(e, rows, rows1, q - 1); }
  }

  // ---- Before and after the transaction

  /** In a compensating saga: being inside the window is having left effects. */
  lemma WaitsIfRisky(r: Rules, s: Saga, q: nat)
    requires Inv(r, s) && s.status == SagaCompensating && q < |s.rows| && Eligible(s.rows[q].status)
    ensures q <= s.window <==> Risky(s.rows[q])
  {
  }

  /** The condition on the stored state is the one the resume meets inside the transaction. */
  lemma WakeSafeExact(r: Rules, e: Env, s: Saga)
    requires Inv(r, s)
    ensures WakeSafe(r, e, s) <==> ResumeSafe(e, PokeJoin(r, e, s))
  {
    var j := FindJoin(s.rows);
    if j.None? {
      if ResumableSpawn(e, s).Some? { WaitsIfRisky(r, s, ResumableSpawn(e, s).value); }
    } else {
      ActiveIsLive(r, s, j.value);
      if !e.native(j.value).NativeWait? {
        var outs, ctx := LiveRow(r, s, j.value);
        FireStops(r, e, s, j.value);
        GrownNumbered(s, Fire(r, e, s, j.value).s);
        StopOvertaken(r, e, Fire(r, e, s, j.value));
      }
    }
  }

  // ---- Steps the engine runs itself

  /** Every row is a step outside loops, or a body step in some pass. */
  lemma RowIsUnit(r: Rules, s: Saga, j: nat)
    requires Inv(r, s) && j < |s.rows|
    ensures UnitOf(s.rows[j].lab, s.blueprint)
  {
    var bp := s.blueprint;
    forall m | 0 <= m < |bp| && bp[m].Block? ensures WithinMax(s.ctx.loops, bp[m].loop) {
      assert WithinMax(PlanOf(s).loops, PlanOf(s).bp[m].loop);
    }
    UnrollIds(bp, s.ctx.loops);
    assert Labs(s.rows)[j] in Unroll(bp, s.ctx.loops);
  }

  /** Only steps for workers are repeated in loops. */
  lemma NativeOutsideLoops(r: Rules, s: Saga, j: nat)
    requires Inv(r, s) && j < |s.rows| && !WorkerKind(s.rows[j].lab.spec.kind)
    ensures s.rows[j].lab.pass.None?
  {
    RowIsUnit(r, s, j);
    var m :| 0 <= m < |s.blueprint| && UnitAt(s.rows[j].lab, s.blueprint[m]);
    if s.blueprint[m].Block? { assert LoopOk(s.blueprint[m].loop); }
  }

  // ---- A parked join that fails

  /** The join leads to compensation, the children of the highest spawn row have all ended,
      and the first undo on the way down belongs to a completed step after that spawn. */
  ghost predicate JoinOvertakes(e: Env, s: Saga, j: nat)
    requires j < |s.rows|
  {
    var top := HighestSpawn(s.rows);
    && !s.rows[j].lab.spec.awaitOperator && top.Some? && e.childrenDone(top.value)
    && exists p :: LastUndoBefore(s.rows, p, j) && top.value < p && e.undoBuilds(p)
  }

  predicate LastUndoBefore(rows: seq<Row>, p: nat, j: nat)
    requires j <= |rows|
  {
    p < j && NeedsUndo(rows[p]) && forall m :: p < m < j ==> !NeedsUndo(rows[m])
  }

  /** What the walk below a join meets. */
  lemma HaltsBelow(e: Env, rows: seq<Row>, q: int, j: nat)
    requires -1 <= q < j <= |rows|
    requires forall m :: q < m < j ==> !NeedsUndo(rows[m])
    ensures var halt, top := Halts(e, rows, q), HighestSpawn(rows);
      top.Some? && top.value < j && e.childrenDone(top.value) ==>
        ((exists p :: LastUndoBefore(rows, p, j) && top.value < p && e.undoBuilds(p))
         <==> halt.Some? && top.value < halt.value && e.undoBuilds(halt.value))
    decreases q + 1
  {
    if q >= 0 {
      if !NeedsUndo(rows[q]) {
        HaltsBelow(e, rows, q - 1, j);
      } else {
        assert LastUndoBefore(rows, q, j);
      }
    }
  }

  /** A join row has no undo of its own, so it may have any status. */
  lemma JoinRowDoesNotMatter(e: Env, rows: seq<Row>, j: nat, row: Row, q: int)
    requires j < |rows| && -1 <= q <= j && rows[j].lab.spec.kind == JoinSagas && row.lab == rows[j].lab
    ensures HighestSpawn(rows[j := row]) == HighestSpawn(rows)
    ensures Halts(e, rows[j := row], q) == Halts(e, rows, if q == j then q - 1 else q)
    decreases q + 1
  {
    var a, b := HighestSpawn(rows), HighestSpawn(rows[j := row]);
    assert a.Some? ==> rows[j := row][a.value] == rows[a.value];
    assert b.Some? ==> rows[j := row][b.value] == rows[b.value];
    if q >= 0 { JoinRowDoesNotMatter(e, rows, j, row, q - 1); }
  }

  lemma SpawnIsBelow(s: Saga, j: nat)
    requires j < |s.rows| && Poised(s.rows, j) && s.rows[j].lab.spec.kind == JoinSagas
    ensures HighestSpawn(s.rows).Some? ==> HighestSpawn(s.rows).value < j
  {
  }

  lemma JoinFailureOvertakes(e: Env, s: Saga, j: nat, err: Option<Err>)
    requires j < |s.rows| && Poised(s.rows, j) && s.rows[j].lab.spec.kind == JoinSagas
    ensures FailureOvertakes(e, s, j, err) <==> JoinOvertakes(e, s, j)
  {
    hide Halts, HighestSpawn, Poised, LastUndoBefore;
    SpawnIsBelow(s, j);
    HaltsBelow(e, s.rows, j as int - 1, j);
    if WalkFrom(s, j, err) >= 0 {
      JoinRowDoesNotMatter(e, s.rows, j, FailedRow(s.rows[j], err), WalkFrom(s, j, err));
    }
  }

  /** A parked join that fails is overtaken exactly when it leads to compensation, the
      children of the highest spawn row have all ended, and an undo is due in between. */
  lemma JoinOvertakesExact(r: Rules, e: Env, s: Saga, j: nat, err: Option<Err>)
    requires Inv(r, s) && FindJoin(s.rows) == Some(j) && e.native(j) == NativeFailure(err)
    ensures WakeSafe(r, e, s) <==> !JoinOvertakes(e, s, j)
  {
    hide Overtakes, HighestSpawn, LastUndoBefore;
    ActiveIsLive(r, s, j);
    var outs, ctx := LiveRow(r, s, j);
    assert Poised(s.rows, j);
    hide Inv, Working, HoldsAt, Poised, FailureOvertakes, JoinOvertakes;
    assert WithStatus(s, j, InProgress) == s;
    assert Fire(r, e, s, j) == Faulted(s, j, err);
    JoinFailureOvertakes(e, s, j, err);
  }
}
