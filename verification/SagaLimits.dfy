/** Where the handlers do not protect themselves: exactly which deliveries break the
    invariant, and runs in which they do. */
module SagaLimits {
  import opened SagaTypes
  import opened SagaSpec
  import opened ForwardPath
  import opened ForwardSteps
  import opened Compensation
  import opened Scheduling
  import opened SagaInvariant
  import opened ChildWakeup
  import opened SagaRuns
  import opened SagaTheorems

  // ---- STEP_FAILED for a row that is not the live one

  predicate Started(st: StepStatus) { st == InProgress || st == AwaitingHuman }
  predicate Broke(st: StepStatus) { st == Failed || st == TimedOut }

  /** The walk comes to a step whose undo cannot be built, and marks it FAILED. */
  predicate Unbuildable(e: Env, rows: seq<Row>, q: int, j: nat)
    requires q < |rows| && j < |rows|
  {
    Halts(e, rows, q) == Some(j) && !IsSpawn(rows[j]) && !e.undoBuilds(j)
  }

  /** How a walk leaves row `j`, and the saga if it marks that row. */
  predicate LeavesRow(rows: seq<Row>, s1: Saga, marked: bool, j: nat)
    requires j < |rows|
  {
    && |s1.rows| == |rows| && Winding(s1.status)
    && (Started(rows[j].status) && !marked ==> s1.rows[j].status == rows[j].status)
    && (marked ==>
          s1.status == SagaFailed
          && s1.rows == SkipPending(rows[j := rows[j].(status := Failed, error := Some(Err(false, false)))]))
  }

  lemma ScheduleLeavesRow(e: Env, s: Saga, q: nat, j: nat)
    requires s.status == SagaCompensating && q < |s.rows| && j < |s.rows|
    ensures LeavesRow(s.rows, ScheduleUndo(e, s, q), q == j && !e.undoBuilds(j), j)
  {
  }

  lemma StayingLeavesRow(s: Saga, j: nat)
    requires s.status == SagaCompensating && j < |s.rows|
    ensures LeavesRow(s.rows, s, false, j) && LeavesRow(s.rows, ConcludeCompensated(s), false, j)
  {
  }

  /** A walk winds the saga down. It stops a running row only where it cannot build the
      row's undo, and that fails the saga. */
  lemma {:induction false} UnwindMarks(e: Env, s: Saga, q: int, j: nat)
    requires Numbered(s) && s.status == SagaCompensating && NoUndosUpTo(s, q) && q < |s.rows| && j < |s.rows|
    ensures LeavesRow(s.rows, Unwind(e, s, q), Unbuildable(e, s.rows, q, j), j)
    decreases q + 1
  {
    hide LeavesRow, Numbered, NoUndosUpTo;
    StayingLeavesRow(s, j);
    if q >= 0 {
      var row := s.rows[q];
      NotUndoneYet(s, q);
      if !NeedsUndo(row) {
        UnwindMarks(e, s, q - 1, j);
      } else if !IsSpawn(row) {
        ScheduleLeavesRow(e, s, q, j);
      } else if e.childrenDone(q) {
        SpawnUndoGoesOn(s, q);
        UnwindMarks(e, AddSpawnUndo(s, q), q - 1, j);
      }
    }
  }

  lemma StartedBreaksCoupling(s: Saga, i: nat, j: nat)
    requires i < |s.rows| && j < |s.rows| && i != j && Started(s.rows[j].status)
    requires Winding(s.status) || (s.status == AwaitingRecovery && Broke(s.rows[i].status))
    ensures !Coupled(s)
  {
    if s.status == AwaitingRecovery {
      forall a ensures !OnlyOne(s.rows, a, {Failed, TimedOut}) {
      }
    }
  }

  /** The failure of row `i` starts a walk that marks row `j` FAILED, too. */
  predicate MarksToo(e: Env, s: Saga, i: nat, j: nat, err: Option<Err>)
    requires i < |s.rows| && j < |s.rows|
  {
    && !s.rows[i].lab.spec.awaitOperator && WalkFrom(s, i, err) >= 0
    && Unbuildable(e, s.rows[i := FailedRow(s.rows[i], err)], WalkFrom(s, i, err), j)
  }

  lemma FailingAnotherRow(e: Env, s: Saga, i: nat, j: nat, err: Option<Err>)
    requires Numbered(s) && s.undos == [] && i < |s.rows| && j < |s.rows| && i != j && Started(s.rows[j].status)
    requires forall m :: 0 <= m < |s.rows| && m != j ==> !Started(s.rows[m].status)
    ensures Coupled(FailStep(e, s, i, err)) <==> MarksToo(e, s, i, j, err)
  {
    hide NeedsUndo, SkipPending;
    hide Unwind, Unbuildable;
    var s1 := WithRow(s, i, FailedRow(s.rows[i], err));
    var start := WalkFrom(s, i, err);
    if !s.rows[i].lab.spec.awaitOperator && start >= 0 {
      assert Numbered(s1.(status := SagaCompensating, window := start));
      UnwindMarks(e, s1.(status := SagaCompensating, window := start), start, j);
    }
    if !MarksToo(e, s, i, j, err) { StartedBreaksCoupling(FailStep(e, s, i, err), i, j); }
  }

  lemma NamingLiveRow(r: Rules, e: Env, s: Saga, j: nat, err: Option<Err>)
    requires Inv(r, s) && (s.status == Running || s.status == SagaAwaitingHuman)
    requires j < |s.rows| && Fits(s.status, s.rows[j].status)
    ensures Coupled(OnStepFailed(e, s, j, err))
  {
    hide Standing, HoldsAt, Lifo;
    hide FailStep, Coupled;
    var outs, ctx := LiveRow(r, s, j);
    FailStepInv(r, e, s, j, err, outs, ctx);
    InvCoupled(r, FailStep(e, s, j, err));
  }

  /** All rows but the live one are finished or not begun, and nothing was undone. */
  lemma OthersAtRest(r: Rules, s: Saga, j: nat)
    requires Inv(r, s) && (s.status == Running || s.status == SagaAwaitingHuman)
    requires j < |s.rows| && Fits(s.status, s.rows[j].status)
    ensures Numbered(s) && s.undos == [] && Started(s.rows[j].status)
    ensures forall m :: 0 <= m < |s.rows| && m != j ==> Done(s.rows[m].status) || s.rows[m].status == Pending
  {
    var outs, ctx := LiveRow(r, s, j);
  }

  /** A failure report about another row than the live one `j` is not refused; saga and
      rows stay coupled exactly when the report is about the live row, or when the walk it
      starts comes to the live row first and cannot build its undo. */
  lemma FailureMustNameLiveRow(r: Rules, e: Env, s: Saga, i: nat, j: nat, err: Option<Err>)
    requires Inv(r, s) && (s.status == Running || s.status == SagaAwaitingHuman)
    requires i < |s.rows| && j < |s.rows| && Fits(s.status, s.rows[j].status)
    ensures Coupled(OnStepFailed(e, s, i, err)) <==> i == j || MarksToo(e, s, i, j, err)
  {
    hide Inv, FailStep, MarksToo, Coupled;
    if i == j {
      NamingLiveRow(r, e, s, j, err);
    } else {
      OthersAtRest(r, s, j);
      FailingAnotherRow(e, s, i, j, err);
    }
  }

  /** A COMPLETED saga is left by any late STEP_FAILED, whatever row it names. */
  lemma LateFailureLeavesCompleted(r: Rules, e: Env, s: Saga, i: nat, err: Option<Err>)
    requires Inv(r, s) && s.status == SagaCompleted && i < |s.rows|
    ensures OnStepFailed(e, s, i, err).status == AwaitingRecovery || Winding(OnStepFailed(e, s, i, err).status)
  {
    assert Done(s.rows[i].status);
    var s1 := WithRow(s, i, FailedRow(s.rows[i], err)).(status := SagaCompensating, window := WalkFrom(s, i, err));
    if WalkFrom(s, i, err) >= 0 {
      assert Numbered(s1);
      UnwindMarks(e, s1, WalkFrom(s, i, err), i);
    }
  }

  // ---- SAGA_COMPLETED that the engine did not announce

  /** Completion is never refused: it keeps saga and rows coupled exactly when every row has
      finished cleanly or was not begun. */
  lemma CompletionMustBeAnnounced(r: Rules, e: Env, s: Saga)
    requires Inv(r, s)
    ensures Handle(r, e, s, EvSagaCompleted).status == SagaCompleted
    ensures Coupled(Handle(r, e, s, EvSagaCompleted)) <==>
      forall i :: 0 <= i < |s.rows| ==> Done(s.rows[i].status) || s.rows[i].status == Pending
  {
    InvCoupled(r, s);
    var s1 := Handle(r, e, s, EvSagaCompleted);
    assert |s1.rows| == |s.rows|;
    forall i | 0 <= i < |s.rows| && !Done(s.rows[i].status) && s.rows[i].status != Pending
      ensures !Done(s1.rows[i].status)
    {
    }
  }

  /** So a saga at work, held or waiting for an operator is buried by it. */
  lemma CompletionBuriesLiveRow(r: Rules, e: Env, s: Saga)
    requires Inv(r, s) && s.status in {Running, SagaAwaitingHuman, AwaitingRecovery}
    ensures !Coupled(Handle(r, e, s, EvSagaCompleted))
  {
    hide Coupled, Handle;
    CompletionMustBeAnnounced(r, e, s);
    var i: nat, outs, ctx :| LiveAt(r, s, i, outs, ctx);
    assert !Done(s.rows[i].status) && s.rows[i].status != Pending;
  }

  // ---- COMPENSATION_FAILED has no guard

  /** It fails any saga, COMPLETED ones included, and whatever span it names. */
  lemma CompensationFailedFailsAll(s: Saga, span: nat, err: Option<Err>)
    ensures OnCompensationFailed(s, span, err).status == SagaFailed
  {
  }

  /** Saga and rows stay coupled exactly when no row but the one it names is at work. */
  lemma CompensationFailureCoupled(r: Rules, s: Saga, span: nat, err: Option<Err>)
    requires Inv(r, s)
    ensures Coupled(OnCompensationFailed(s, span, err)) <==>
      forall i :: 0 <= i < |s.rows| && Started(s.rows[i].status) ==> s.rows[i].span == span
  {
    hide Inv;
    InvNumbered(r, s);
    var s1 := OnCompensationFailed(s, span, err);
    assert |s1.rows| == |s.rows| && s1.status == SagaFailed && NonePending(s1.rows);
    forall i | 0 <= i < |s.rows|
      ensures Started(s1.rows[i].status) <==> Started(s.rows[i].status) && s.rows[i].span != span
    {
      if FindUndo(s.undos, span).None? && FindRow(s.rows, span).None? { assert s.rows[i].span != span; }
    }
  }

  /** A saga that ended well is left by the first such event, and only by the first. */
  lemma EndedSagaFails(r: Rules, e: Env, s: Saga, span: nat, err: Option<Err>)
    requires s.status == SagaCompleted || s.status == SagaCompensated
    ensures Ingest(r, e, s, EvCompensationFailed(span, err)).status == s.status
      <==> KeyOf(EvCompensationFailed(span, err)) in s.ingested
  {
    CompensationFailedFailsAll(s.(ingested := s.ingested + {KeyOf(EvCompensationFailed(span, err))}), span, err);
  }

  lemma OtherUndoStaysOpen(s: Saga, span: nat, err: Option<Err>)
    requires InFlight(s) && span != s.undos[|s.undos| - 1].span
    ensures !Lifo(OnCompensationFailed(s, span, err))
  {
    var s1 := OnCompensationFailed(s, span, err);
    assert s1.undos[|s1.undos| - 1] == s.undos[|s.undos| - 1];
    assert !NewestIn(s1.undos, Failed, Compensated);
  }

  /** While an undo is in flight, the invariant survives exactly the failures that name it. */
  lemma CompensationFailureMustNameUndo(r: Rules, s: Saga, span: nat, err: Option<Err>)
    requires Inv(r, s) && s.status == SagaCompensating && InFlight(s)
    ensures Inv(r, OnCompensationFailed(s, span, err)) <==> span == s.undos[|s.undos| - 1].span
  {
    if span == s.undos[|s.undos| - 1].span {
      assert FindUndo(s.undos, span) == Some(|s.undos| - 1);
      UndoFailedInv(r, s, span, err);
    } else {
      OtherUndoStaysOpen(s, span, err);
    }
  }

  // ---- A terminal child resumes the spawn behind the cursor's back

  /** The transaction of a child that ended keeps the invariant exactly when the stored
      rows say beforehand that it will not overtake the walk. */
  lemma ChildTerminalExact(r: Rules, e: Env, s: Saga)
    requires Inv(r, s)
    ensures Inv(r, OnChildTerminal(r, e, s)) <==> WakeSafe(r, e, s)
  {
    WakeSafeExact(r, e, s);
    PokeJoinInv(r, e, s);
    ResumeSpawnForward(r, e, PokeJoin(r, e, s));
    ResumeSpawnLifo(e, PokeJoin(r, e, s));
  }

  const PLAIN: Spec := Spec("", Commit, false, false, false, false, None, 1, false)
  const SPAWN: Spec := PLAIN.(id := "spawn", kind := SpawnSagas)
  const BOOK: Spec := PLAIN.(id := "book", declaresUndo := true)
  const JOIN: Spec := PLAIN.(id := "join", kind := JoinSagas)
  const PLAN: seq<Top> := [Exec(SPAWN), Exec(BOOK), Exec(JOIN)]

  const OPEN: Rules := Rules(
    (ctx, n, lab) => WhenTrue, (ctx, l, k) => UntilTrue, (ctx, lab, n, g) => Resolved(EMPTY),
    (lab, args, p) => None, (lab, p) => None)

  const FINE: Payload := Payload(None, EMPTY)
  const WAITING: Env := Env(i => if i == 0 then NativeOutput(FINE) else NativeWait, i => false, i => true)
  const ALL_FAILED: Env := Env(i => NativeFailure(None), i => true, i => true)

  /** The saga starts, and the booking succeeds. */
  function Unlucky(): seq<Action> {
    [Action(WAITING, OpIngest(EvSagaStarted)),
     Action(WAITING, OpIngest(EvStepCompleted(1, FINE)))]
  }

  lemma UnluckyStart()
    ensures var s := Start(PLAN);
      && s.blueprint == PLAN && s.next == 3 && s.active.None? && s.status == SagaPending
      && s.rows == [MintedRow(Label(SPAWN, None), 0, 0), MintedRow(Label(BOOK, None), 1, 1), MintedRow(Label(JOIN, None), 2, 2)]
      && s.undos == [] && s.ingested == {} && s.nextId == 3 && s.commands == map[]
  {
    assert TakeSegment(PLAN, 3) == Segment([], 3, None);
    assert TakeSegment(PLAN, 2).labels == [Label(JOIN, None)];
    assert TakeSegment(PLAN, 1).labels == [Label(BOOK, None), Label(JOIN, None)];
    assert TakeSegment(PLAN, 0).labels == [Label(SPAWN, None), Label(BOOK, None), Label(JOIN, None)];
  }

  /** After the start event the spawn is done and the booking is with a worker. */
  lemma UnluckySpawned()
    ensures var s := Step(OPEN, WAITING, Start(PLAN), OpIngest(EvSagaStarted));
      && s.blueprint == PLAN && s.next == 3 && s.active.None? && s.status == Running
      && |s.rows| == 3 && s.undos == [] && s.window == -1 && s.nextId == 3
      && (forall i :: 0 <= i < 3 ==> s.rows[i].span == i && s.rows[i].seqNo == i && s.rows[i].error.None?)
      && s.rows[0].lab == Label(SPAWN, None) && s.rows[0].status == Completed
      && s.rows[1].lab == Label(BOOK, None) && s.rows[1].status == InProgress
      && s.rows[2].lab == Label(JOIN, None) && s.rows[2].status == Pending
      && s.ingested == {IngestKey(TypeSagaStarted, None)}
  {
    hide ExitLoop, ContinueLoop, TakeSegment;
    UnluckyStart();
    var s0 := Start(PLAN).(ingested := {IngestKey(TypeSagaStarted, None)}, status := Running);
    assert Start(PLAN).ingested + {IngestKey(TypeSagaStarted, None)} == s0.ingested;
    var s1 := FinishRow(s0, 0, FINE);
    assert Go(OPEN, WAITING, s1, 1) == Launch(s1, 1);
    assert After(OPEN, WAITING, s1, 0) == Launch(s1, 1);
    assert Go(OPEN, WAITING, s0, 0) == Launch(s1, 1);
  }

  /** After the booking the join waits for the children. */
  lemma UnluckyParked()
    ensures ParkedAtJoin(Run(OPEN, Start(PLAN), Unlucky()))
  {
    UnluckySpawned();
    var s := Step(OPEN, WAITING, Start(PLAN), OpIngest(EvSagaStarted));
    var key := IngestKey(TypeStepCompleted, Some(1));
    var s1 := FinishRow(s.(ingested := s.ingested + {key}), 1, FINE);
    assert FindRow(s.rows[..2], 1) == Some(1);
    assert FindRow(s.rows, 1) == Some(1);
    assert Go(OPEN, WAITING, s1, 2) == Parked(WithStatus(s1, 2, InProgress), 2);
    assert After(OPEN, WAITING, s1, 1) == Parked(WithStatus(s1, 2, InProgress), 2);
    var t := Unlucky();
    assert t[1..] == [Action(WAITING, OpIngest(EvStepCompleted(1, FINE)))] && t[1..][1..] == [];
    assert t[0] == Action(WAITING, OpIngest(EvSagaStarted));
    assert Run(OPEN, Start(PLAN), t) == Run(OPEN, s, t[1..]);
  }

  lemma {:induction false} RunSplit(r: Rules, s: Saga, a: seq<Action>, b: seq<Action>)
    ensures Run(r, s, a + b) == Run(r, Run(r, s, a), b)
    decreases |a|
  {
    if a == [] {
      assert a + b == b;
    } else {
      assert (a + b)[0] == a[0] && (a + b)[1..] == a[1..] + b;
      RunSplit(r, Step(r, a[0].env, s, a[0].op), a[1..], b);
    }
  }

  /** The undo of the booking is sent off when the join fails. */
  function Compensating1(s: Saga): Saga
    requires |s.rows| == 3
  {
    var s1 := WithRow(s, 2, FailedRow(s.rows[2], None)).(status := SagaCompensating, window := 1);
    ScheduleUndo(ALL_FAILED, s1, 1)
  }

  ghost predicate ParkedAtJoin(s: Saga) {
    && s.status == Running && |s.rows| == 3 && s.undos == []
    && (forall i :: 0 <= i < 3 ==> s.rows[i].span == i && s.rows[i].seqNo == i && s.rows[i].error.None?)
    && s.rows[0].lab == Label(SPAWN, None) && s.rows[0].status == Completed
    && s.rows[1].lab == Label(BOOK, None) && s.rows[1].status == Completed
    && s.rows[2].lab == Label(JOIN, None) && s.rows[2].status == InProgress
  }

  lemma UnluckyPoke(s: Saga)
    requires ParkedAtJoin(s)
    ensures PokeJoin(OPEN, ALL_FAILED, s) == Compensating1(s)
  {
    assert FindJoin(s.rows) == Some(2);
    assert WithStatus(s, 2, InProgress) == s;
    var s1 := WithRow(s, 2, FailedRow(s.rows[2], None)).(status := SagaCompensating, window := 1);
    assert NeedsUndo(s1.rows[1]) && !HasUndo(s1.undos, s1.rows[1].span, Compensated);
    assert Unwind(ALL_FAILED, s1, 1) == ScheduleUndo(ALL_FAILED, s1, 1);
  }

  lemma UnluckyResume(s: Saga)
    requires ParkedAtJoin(s)
    ensures ResumeSpawn(ALL_FAILED, Compensating1(s)) == ConcludeCompensated(AddSpawnUndo(Compensating1(s), 0))
  {
    var s2 := Compensating1(s);
    assert HighestSpawn(s2.rows[..1]) == Some(0);
    assert HighestSpawn(s2.rows[..2]) == Some(0) by { assert s2.rows[..2][..1] == s2.rows[..1]; }
    assert HighestSpawn(s2.rows) == Some(0);
    assert s2.undos == [Undo(s.nextId, 1, 1, Compensating, UndoKey(s.nextId))];
    assert ResumableSpawn(ALL_FAILED, s2) == Some(0);
  }

  ghost predicate Overtaken(s: Saga) {
    && s.status == SagaCompensated
    && |s.undos| == 2 && s.undos[0].seqNo == 1 && s.undos[0].status == Compensating
    && !CompensatedInOrder(s)
  }

  lemma UnluckyEnd(s: Saga)
    requires ParkedAtJoin(s)
    ensures Overtaken(OnChildTerminal(OPEN, ALL_FAILED, s))
  {
    UnluckyPoke(s);
    UnluckyResume(s);
    var s2 := Compensating1(s);
    var s3 := ConcludeCompensated(AddSpawnUndo(s2, 0));
    assert s2.undos == [Undo(s.nextId, 1, 1, Compensating, UndoKey(s.nextId))];
    assert s3.undos[0] == s2.undos[0];
    assert !OnlyNewestOpen(s3.undos);
  }

  lemma OneMoreStep(r: Rules, s: Saga, actions: seq<Action>, last: Action)
    ensures Run(r, s, actions + [last]) == Step(r, last.env, Run(r, s, actions), last.op)
  {
    RunSplit(r, s, actions, [last]);
    assert [last][1..] == [];
  }

  lemma OvertakesAfter(s: Saga, actions: seq<Action>)
    requires ParkedAtJoin(Run(OPEN, s, actions))
    ensures Overtaken(Run(OPEN, s, actions + [Action(ALL_FAILED, OpChildTerminal)]))
  {
    hide Run, OnChildTerminal, Overtaken, ParkedAtJoin;
    OneMoreStep(OPEN, s, actions, Action(ALL_FAILED, OpChildTerminal));
    UnluckyEnd(Run(OPEN, s, actions));
  }

  lemma UnluckyInOrder()
    ensures InOrderRun(OPEN, Start(PLAN), Unlucky())
  {
    assert Unlucky()[1..][1..] == [];
  }

  /** A run in order, and then the end of the last child. */
  ghost predicate OvertakenAfter(actions: seq<Action>) {
    && InOrderRun(OPEN, Start(PLAN), actions)
    && Overtaken(Run(OPEN, Start(PLAN), actions + [Action(ALL_FAILED, OpChildTerminal)]))
  }

  /** All children fail while the join is parked. In the one transaction that fails the
      join, the booking's undo is sent off and then overtaken: the saga is COMPENSATED
      while that undo is still in flight, against the documented LIFO order. */
  lemma OvertakenUndo()
    ensures exists actions: seq<Action> :: OvertakenAfter(actions)
  {
    UnluckyParked();
    UnluckyInOrder();
    OvertakesAfter(Start(PLAN), Unlucky());
    assert OvertakenAfter(Unlucky());
  }
}
