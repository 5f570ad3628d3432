/** The compensation of a parent that waits for the children of a spawn step: which waits
    end when those children end, and which never do. */
module SpawnWakeup {
  import opened SagaTypes
  import opened SagaSpec
  import opened ForwardPath
  import opened Compensation
  import opened SagaInvariant
  import opened ChildWakeup
  import opened SagaRuns
  import opened SagaTheorems
  import opened SagaLimits

  /** The walk has come to spawn row `p` and waits for its children. */
  ghost predicate ParkedAt(s: Saga, p: nat) {
    s.status == SagaCompensating && !InFlight(s) && WaitsAt(s, p)
  }

  /** A row that is waited for has no undo yet. */
  lemma ParkedNotUndone(r: Rules, s: Saga, p: nat)
    requires Inv(r, s) && ParkedAt(s, p)
    ensures !HasUndo(s.undos, s.rows[p].span, Compensated)
  {
    hide Forward, Tallied, Covered;
    InvNumbered(r, s);
    forall u | u in s.undos ensures u.forward != s.rows[p].span {
      assert Placed(s, u);
      var j :| 0 <= j < |s.undos| && s.undos[j] == u;
    }
  }

  lemma ParkedFacts(r: Rules, s: Saga, p: nat)
    requires Inv(r, s) && ParkedAt(s, p)
    ensures !HasUndo(s.undos, s.rows[p].span, Compensated)
    ensures HighestSpawn(s.rows).Some? && p <= HighestSpawn(s.rows).value
    ensures FindJoin(s.rows).None?
  {
    hide Tallied, Lifo, HasUndo, HighestSpawn, FindJoin;
    ParkedNotUndone(r, s, p);
  }

  /** A spawn row that was started later hides the one that waits. */
  lemma HigherSpawnHides(r: Rules, e: Env, s: Saga, p: nat)
    requires Inv(r, s) && ParkedAt(s, p) && WakeSafe(r, e, s) && HighestSpawn(s.rows) != Some(p)
    ensures OnChildTerminal(r, e, s) == s
  {
    hide Forward, Unwind, FindJoin, HighestSpawn;
    ParkedFacts(r, s, p);
    var q := HighestSpawn(s.rows).value;
    if ResumableSpawn(e, s) == Some(q) {
      WaitsIfRisky(r, s, q);
      ParkedAtHighest(s, q);
    }
  }

  lemma HighestSpawnWakes(r: Rules, e: Env, s: Saga, p: nat)
    requires Inv(r, s) && ParkedAt(s, p) && e.childrenDone(p) && HighestSpawn(s.rows) == Some(p)
    ensures |OnChildTerminal(r, e, s).undos| > |s.undos|
  {
    hide Lifo, Unwind, WaitsAt, HasUndo, FindJoin, HighestSpawn;
    ParkedFacts(r, s, p);
    var s1 := AddSpawnUndo(s, p);
    NumberedSpawnUndo(s, p);
    UnwindFrame(e, s1, p - 1);
  }

  /** When the children of the row have all ended, their last wake-up takes the walk on
      exactly when no spawn row was started after the one that waits. */
  lemma ParkedWalkWakes(r: Rules, e: Env, s: Saga, p: nat)
    requires Inv(r, s) && ParkedAt(s, p) && WakeSafe(r, e, s) && e.childrenDone(p)
    ensures OnChildTerminal(r, e, s) != s <==> HighestSpawn(s.rows) == Some(p)
  {
    hide Inv, ParkedAt, WakeSafe, OnChildTerminal, HighestSpawn;
    if HighestSpawn(s.rows) == Some(p) { HighestSpawnWakes(r, e, s, p); } else { HigherSpawnHides(r, e, s, p); }
  }

  // ---- Otherwise nothing ever takes it on

  /** With no undo in flight all undos are finished. */
  lemma ParkedUndosDone(r: Rules, s: Saga, p: nat)
    requires Inv(r, s) && ParkedAt(s, p)
    ensures forall u <- s.undos :: u.status == Compensated
    ensures Quiet(s) && s.status == SagaCompensating
  {
    forall u | u in s.undos ensures u.status == Compensated {
      var j :| 0 <= j < |s.undos| && s.undos[j] == u;
    }
  }

  lemma ParkedIgnores(r: Rules, e: Env, s: Saga, ev: Event)
    requires s.status == SagaCompensating && Quiet(s) && NoticesOk(s) && EventInOrder(s, ev)
    requires forall u <- s.undos :: u.status == Compensated
    ensures Handle(r, e, s, ev) == s
  {
    if ev.EvStepCompensated? || ev.EvCompensationFailed? {
      var f := FindUndo(s.undos, ev.span);
      if f.Some? { assert s.undos[f.value] in s.undos; }
    }
  }

  lemma OverlookedStep(r: Rules, e: Env, s: Saga, p: nat, op: Op)
    requires Inv(r, s) && NoticesOk(s) && ParkedAt(s, p) && HighestSpawn(s.rows) != Some(p) && InOrder(r, e, s, op)
    ensures Step(r, e, s, op) == s.(ingested := Step(r, e, s, op).ingested)
  {
    ParkedUndosDone(r, s, p);
    hide Inv, HighestSpawn, OnChildTerminal, WakeSafe, ParkedAt, Quiet, NoticesOk;
    match op
    case OpIngest(ev) => OverlookedIngest(r, e, s, ev);
    case OpChildTerminal => HigherSpawnHides(r, e, s, p);
    case _ => OverlookedCall(r, e, s, op);
  }

  lemma OverlookedIngest(r: Rules, e: Env, s: Saga, ev: Event)
    requires s.status == SagaCompensating && Quiet(s) && NoticesOk(s)
    requires KeyOf(ev) in s.ingested || EventInOrder(s, ev)
    requires forall u <- s.undos :: u.status == Compensated
    ensures Step(r, e, s, OpIngest(ev)) == s.(ingested := Step(r, e, s, OpIngest(ev)).ingested)
  {
    hide Handle;
    if KeyOf(ev) !in s.ingested { ParkedIgnores(r, e, s.(ingested := s.ingested + {KeyOf(ev)}), ev); }
  }

  /** Operators reach a walk only through an undo that failed. */
  lemma OverlookedCall(r: Rules, e: Env, s: Saga, op: Op)
    requires !op.OpIngest? && !op.OpChildTerminal?
    requires s.status == SagaCompensating && forall u <- s.undos :: u.status == Compensated
    ensures Step(r, e, s, op) == s
  {
    hide Unwind, Trigger, StartUnwind, OnChildTerminal, Handle;
    if op.OpRetryCompensation? {
      var f := FindUndo(s.undos, op.span);
      if f.Some? { assert s.undos[f.value] in s.undos; }
    }
  }

  lemma StillParked(s: Saga, s1: Saga, p: nat)
    requires ParkedAt(s, p) && s1 == s.(ingested := s1.ingested)
    ensures ParkedAt(s1, p)
  {
  }

  /** A walk that waits below a spawn row started later waits for ever: over any run, all
      children ended or not, with any events and operator calls, the saga stays as it is. */
  lemma {:induction false} OverlookedForGood(r: Rules, s: Saga, p: nat, actions: seq<Action>)
    requires Inv(r, s) && NoticesOk(s) && ParkedAt(s, p) && HighestSpawn(s.rows) != Some(p)
    requires InOrderRun(r, s, actions)
    ensures Run(r, s, actions) == s.(ingested := Run(r, s, actions).ingested)
    decreases |actions|
  {
    hide Inv, NoticesOk, ParkedAt, Step, InOrder, HighestSpawn;
    if actions != [] {
      var a := actions[0];
      var s1 := Step(r, a.env, s, a.op);
      StepInv(r, a.env, s, a.op);
      StepNotices(r, a.env, s, a.op);
      OverlookedStep(r, a.env, s, p, a.op);
      StillParked(s, s1, p);
      OverlookedForGood(r, s1, p, actions[1..]);
    }
  }

  // ---- Two spawns

  const LOWER: Spec := PLAIN.(id := "lower", kind := SpawnSagas)
  const UPPER: Spec := PLAIN.(id := "upper", kind := SpawnSagas)
  const PAY: Spec := PLAIN.(id := "pay")
  const TWO_SPAWNS: seq<Top> := [Exec(LOWER), Exec(UPPER), Exec(PAY)]

  /** Spawns succeed at once; the children of the upper one have ended. */
  const UPPER_DONE: Env := Env(i => NativeOutput(FINE), i => i == 1, i => true)

  /** The saga starts, and the payment fails. */
  function TwoSpawnsFail(): seq<Action> {
    [Action(UPPER_DONE, OpIngest(EvSagaStarted)), Action(UPPER_DONE, OpIngest(EvStepFailed(2, None)))]
  }

  lemma TwoSpawnsOpen()
    ensures var s := Start(TWO_SPAWNS);
      && s.blueprint == TWO_SPAWNS && s.next == 3 && s.active.None? && s.status == SagaPending
      && s.rows == [MintedRow(Label(LOWER, None), 0, 0), MintedRow(Label(UPPER, None), 1, 1),
                    MintedRow(Label(PAY, None), 2, 2)]
      && s.undos == [] && s.ingested == {} && s.nextId == 3 && s.window == -1
    ensures WellFormed(TWO_SPAWNS)
  {
    var bp := TWO_SPAWNS;
    assert TakeSegment(bp, 3) == Segment([], 3, None);
    assert TakeSegment(bp, 2).labels == [Label(PAY, None)];
    assert TakeSegment(bp, 1).labels == [Label(UPPER, None), Label(PAY, None)];
    assert TakeSegment(bp, 0).labels == [Label(LOWER, None), Label(UPPER, None), Label(PAY, None)];
    assert StepIds(bp[2..]) == ["pay"] by { assert bp[2..][1..] == []; }
    assert StepIds(bp[1..]) == ["upper", "pay"] by { assert bp[1..][1..] == bp[2..]; }
    assert StepIds(bp) == ["lower", "upper", "pay"];
  }

  /** Both spawns have run, the payment is with its worker. */
  ghost predicate BothSpawned(s: Saga) {
    && s.status == Running && |s.rows| == 3 && s.undos == [] && s.window == -1
    && (forall i :: 0 <= i < 3 ==> s.rows[i].span == i && s.rows[i].seqNo == i && s.rows[i].error.None?)
    && s.rows[0].lab == Label(LOWER, None) && s.rows[0].status == Completed
    && s.rows[1].lab == Label(UPPER, None) && s.rows[1].status == Completed
    && s.rows[2].lab == Label(PAY, None) && s.rows[2].status == InProgress
    && s.ingested == {IngestKey(TypeSagaStarted, None)}
  }

  lemma TwoSpawnsStart()
    ensures BothSpawned(Step(OPEN, UPPER_DONE, Start(TWO_SPAWNS), OpIngest(EvSagaStarted)))
  {
    hide Mint;
    TwoSpawnsOpen();
    var s0 := Start(TWO_SPAWNS).(ingested := {IngestKey(TypeSagaStarted, None)}, status := Running);
    assert Start(TWO_SPAWNS).ingested + {IngestKey(TypeSagaStarted, None)} == s0.ingested;
    var s1 := FinishRow(s0, 0, FINE);
    var s2 := FinishRow(s1, 1, FINE);
    assert Go(OPEN, UPPER_DONE, s2, 2) == Launch(s2, 2);
    assert After(OPEN, UPPER_DONE, s2, 1) == Launch(s2, 2);
    assert Fire(OPEN, UPPER_DONE, s1, 1) == Launch(s2, 2);
    assert Go(OPEN, UPPER_DONE, s1, 1) == Launch(s2, 2);
    assert After(OPEN, UPPER_DONE, s1, 0) == Launch(s2, 2);
    assert Go(OPEN, UPPER_DONE, s0, 0) == Launch(s2, 2);
  }

  /** The upper spawn is undone at once, and the walk waits for the lower one. */
  lemma TwoSpawnsPark(s: Saga)
    requires BothSpawned(s)
    ensures var s1 := Step(OPEN, UPPER_DONE, s, OpIngest(EvStepFailed(2, None)));
      ParkedAt(s1, 0) && HighestSpawn(s1.rows) == Some(1)
  {
    assert FindRow(s.rows, 2) == Some(2);
    var key := IngestKey(TypeStepFailed, Some(2));
    var s0 := WithRow(s.(ingested := s.ingested + {key}), 2, FailedRow(s.rows[2], None))
      .(status := SagaCompensating, window := 1);
    var s1 := AddSpawnUndo(s0, 1);
    assert Unwind(UPPER_DONE, s0, 1) == Unwind(UPPER_DONE, s1, 0);
    assert s1.undos == [Undo(s.nextId, 1, 1, Compensated, SpawnUndoKey(s.rows[1].key))];
    assert Unwind(UPPER_DONE, s1, 0) == s1;
    assert HighestSpawn(s1.rows[..2]) == Some(1);
    assert HighestSpawn(s1.rows) == Some(1);
  }

  /** A run after which the walk waits, and no later run of any kind takes it on. */
  ghost predicate WaitsForEver(actions: seq<Action>) {
    var s := Run(OPEN, Start(TWO_SPAWNS), actions);
    && InOrderRun(OPEN, Start(TWO_SPAWNS), actions) && ParkedAt(s, 0)
    && forall more :: InOrderRun(OPEN, s, more) ==> Run(OPEN, s, more) == s.(ingested := Run(OPEN, s, more).ingested)
  }

  lemma TwoSpawnsInOrder(s: Saga)
    requires BothSpawned(Step(OPEN, UPPER_DONE, s, OpIngest(EvSagaStarted)))
    ensures InOrderRun(OPEN, s, TwoSpawnsFail())
    ensures var s1 := Step(OPEN, UPPER_DONE, s, OpIngest(EvSagaStarted));
      Run(OPEN, s, TwoSpawnsFail()) == Step(OPEN, UPPER_DONE, s1, OpIngest(EvStepFailed(2, None)))
  {
    hide Handle;
    var s1 := Step(OPEN, UPPER_DONE, s, OpIngest(EvSagaStarted));
    assert FindRow(s1.rows, 2) == Some(2);
    var t := TwoSpawnsFail();
    assert t[1..] == [Action(UPPER_DONE, OpIngest(EvStepFailed(2, None)))] && t[1..][1..] == [];
    assert Run(OPEN, s1, t[1..]) == Step(OPEN, UPPER_DONE, s1, OpIngest(EvStepFailed(2, None)));
  }

  /** Two spawns, and compensation that begins when the children of the upper one have
      ended: the wait for the children of the lower one never ends, even when they do. */
  lemma SpawnWakeupLost()
    ensures exists actions :: WaitsForEver(actions)
  {
    hide Run, Step, Start, InOrderRun, ParkedAt, HighestSpawn;
    var s := Start(TWO_SPAWNS);
    var s1 := Step(OPEN, UPPER_DONE, s, OpIngest(EvSagaStarted));
    TwoSpawnsOpen();
    TwoSpawnsStart();
    TwoSpawnsInOrder(s);
    TwoSpawnsPark(s1);
    Reachable(OPEN, TWO_SPAWNS, TwoSpawnsFail());
    var s2 := Run(OPEN, s, TwoSpawnsFail());
    forall more | InOrderRun(OPEN, s2, more)
      ensures Run(OPEN, s2, more) == s2.(ingested := Run(OPEN, s2, more).ingested)
    {
      OverlookedForGood(OPEN, s2, 0, more);
    }
    assert WaitsForEver(TwoSpawnsFail());
  }
}
