/** The inductive invariant of one saga, and its preservation by every event handler and
    operator call. */
module SagaInvariant {
  import opened SagaTypes
  import opened SagaSpec
  import opened Interpreter
  import opened ForwardPath
  import opened ForwardSteps
  import opened Compensation
  import opened Scheduling

  /** `ctx` is the saga's context, with the entry of the retried step put back if an
      operator retry removed it. */
  predicate Repaired(ctx: Context, held: Context, id: string) {
    && ctx.loops == held.loops
    && (forall k <- held.steps :: k in ctx.steps && held.steps[k] == ctx.steps[k])
    && (forall k <- ctx.steps :: k == id || k in held.steps)
  }

  /** Forward execution has come to row `i` and no further, whatever that row's status. */
  ghost predicate HoldsAt(r: Rules, s: Saga, i: nat, outs: seq<Entry>, ctx: Context) {
    && i < |s.rows|
    && Poised(s.rows, i)
    && Repaired(ctx, s.ctx, s.rows[i].lab.spec.id)
    && Standing(r, s.(ctx := ctx), i, outs)
    && Chosen(r, ctx, i, s.rows[i].lab)
  }

  predicate Fits(st: SagaStatus, row: StepStatus) {
    match st
    case Running => row == InProgress
    case SagaAwaitingHuman => row == AwaitingHuman
    case AwaitingRecovery => row == Failed || row == TimedOut
    case _ => false
  }

  ghost predicate LiveAt(r: Rules, s: Saga, i: nat, outs: seq<Entry>, ctx: Context) {
    HoldsAt(r, s, i, outs, ctx) && Fits(s.status, s.rows[i].status)
  }

  predicate NonePending(rows: seq<Row>) {
    forall i :: 0 <= i < |rows| ==> rows[i].status != Pending
  }

  /** The step may have left effects outside: it finished, or nobody knows how far it got. */
  predicate Risky(row: Row) {
    row.status == Completed || row.status == TimedOut || (row.status == Failed && Crashed(row.error))
  }

  /** Nothing risky lies above the compensation window, ... */
  ghost predicate AllInWindow(s: Saga) {
    forall q :: 0 <= q < |s.rows| && Risky(s.rows[q]) ==> q <= s.window
  }

  /** ... and no clean failure inside it. */
  ghost predicate NoCleanFailureIn(s: Saga) {
    forall q :: 0 <= q < |s.rows| && q <= s.window && s.rows[q].status == Failed ==> Crashed(s.rows[q].error)
  }

  predicate Reopenable(s: Saga) {
    s.undos != [] && s.undos[|s.undos| - 1].status == Failed
  }

  // ---- Loops that were given up

  predicate Exhausted(loops: map<string, LoopCtx>, id: string) {
    id in loops && loops[id].status == LoopExhausted
  }

  ghost predicate SomeExhausted(s: Saga) {
    exists j :: 0 <= j < |s.blueprint| && s.blueprint[j].Block? && Exhausted(s.ctx.loops, s.blueprint[j].loop.id)
  }

  /** Once finished, a row can only have been marked FAILED since. */
  predicate Since(row: Row, row1: Row) {
    row1 == row.(status := row1.status, error := row1.error) && (row1.status == row.status || row1.status == Failed)
  }

  /** With the rows as they were when a loop was given up, the interpreter is stuck there,
      in this context. */
  ghost predicate GaveUp(r: Rules, s: Saga, ended: seq<Row>, outs: seq<Entry>) {
    && |ended| == |s.rows|
    && (forall j :: 0 <= j < |ended| ==> Done(ended[j].status) && Since(ended[j], s.rows[j]))
    && Data(outs) == Recorded(ended)
    && Replay(r, s.blueprint, outs) == St(s.ctx, |ended|, [], Trace(ended), Stuck)
  }

  ghost predicate Spent(r: Rules, s: Saga) {
    SomeExhausted(s) ==> exists ended, outs :: GaveUp(r, s, ended, outs)
  }

  /** Rows and loop counters tell the same story. */
  ghost predicate Tallied(r: Rules, s: Saga) {
    WellFormed(s.blueprint) && Unrolled(PlanOf(s)) && Bounded(PlanOf(s)) && Spent(r, s)
  }

  ghost predicate Forward(r: Rules, s: Saga) {
    && Numbered(s) && NoStaleErrors(s.rows) && Tallied(r, s)
    && match s.status
       case SagaPending =>
         (forall i :: 0 <= i < |s.rows| ==> s.rows[i].status == Pending) && Standing(r, s, 0, [])
       case SagaCompleted =>
         Poised(s.rows, |s.rows|) && exists outs :: Standing(r, s, |s.rows|, outs)
       case SagaCompensating => Quiet(s) && AllInWindow(s) && NoCleanFailureIn(s)
       case SagaFailed =>
         Quiet(s) && NonePending(s.rows) && AllInWindow(s) && (Reopenable(s) ==> NoCleanFailureIn(s))
       case SagaCompensated => Quiet(s) && NonePending(s.rows) && AllInWindow(s) && NoCleanFailureIn(s)
       case _ => exists i, outs, ctx :: LiveAt(r, s, i, outs, ctx)
  }

  /** Forward path and compensation together. */
  ghost predicate Inv(r: Rules, s: Saga) {
    Forward(r, s) && Lifo(s)
  }

  lemma InvNumbered(r: Rules, s: Saga)
    requires Inv(r, s)
    ensures Numbered(s)
  {
  }

  /** What a handler may rely on while it works on row `i` of a live saga. */
  ghost predicate Working(r: Rules, s: Saga, i: nat, outs: seq<Entry>, ctx: Context) {
    && Numbered(s) && NoStaleErrors(s.rows) && HoldsAt(r, s, i, outs, ctx)
    && s.undos == [] && s.window == -1
  }

  // ---- Lemmas: settling

  lemma PlanIgnoresSteps(s: Saga, ctx: Context)
    requires ctx.loops == s.ctx.loops
    ensures PlanOf(s.(ctx := ctx)) == PlanOf(s)
  {
  }

  lemma NoneExhausted(p: Plan)
    requires LoopsOk(p)
    ensures forall j :: 0 <= j < |p.bp| && p.bp[j].Block? ==> !Exhausted(p.loops, p.bp[j].loop.id)
  {
    forall j | 0 <= j < |p.bp| && p.bp[j].Block? ensures !Exhausted(p.loops, p.bp[j].loop.id) {
      if j < Behind(p) { assert LoopLeft(p, p.bp[j].loop); }
      else if j >= p.next { assert LoopAt(p, p.bp[j].loop, 1, LoopRunning); }
    }
  }

  /** On the forward path no loop has been given up. */
  lemma LoopsTallied(r: Rules, s: Saga)
    requires WellFormed(s.blueprint) && Unrolled(PlanOf(s)) && LoopsOk(PlanOf(s))
    ensures Tallied(r, s)
  {
    LoopsBounded(PlanOf(s));
    NoneExhausted(PlanOf(s));
  }

  lemma HoldsTallied(r: Rules, s: Saga, i: nat, outs: seq<Entry>, ctx: Context)
    requires HoldsAt(r, s, i, outs, ctx)
    ensures Tallied(r, s)
  {
    PlanIgnoresSteps(s, ctx);
    LoopsTallied(r, s);
  }

  /** Another status, key, payload or error on row `i` does not move the engine. */
  lemma HoldsStill(r: Rules, s: Saga, s1: Saga, i: nat, outs: seq<Entry>, ctx: Context)
    requires HoldsAt(r, s, i, outs, ctx) && |s1.rows| == |s.rows|
    requires s1.rows == s.rows[i := s1.rows[i]] && s1.rows[i].lab == s.rows[i].lab
    requires Repaired(ctx, s1.ctx, s.rows[i].lab.spec.id)
    requires s1.blueprint == s.blueprint && s1.next == s.next && s1.active == s.active
    ensures HoldsAt(r, s1, i, outs, ctx)
  {
    RowKeepsStanding(r, s.(ctx := ctx), s1.(ctx := ctx), i, outs);
  }

  lemma LiveForward(r: Rules, s: Saga, i: nat, outs: seq<Entry>, ctx: Context)
    requires Numbered(s) && NoStaleErrors(s.rows) && LiveAt(r, s, i, outs, ctx)
    requires s.undos == [] && s.window == -1
    ensures Inv(r, s)
  {
    HoldsTallied(r, s, i, outs, ctx);
  }

  /** A walk touches pending rows when it ends, and one more row if its undo cannot be
      built; it never makes a row risky. */
  ghost predicate RowsSettle(s: Saga, s1: Saga) {
    && |s1.rows| == |s.rows| && s1.window == s.window
    && (s1.status != SagaCompensating ==> NonePending(s1.rows))
    && (forall j :: 0 <= j < |s.rows| ==> s1.rows[j] == s.rows[j] || !Risky(s1.rows[j]))
    && (s1.status != SagaFailed ==> forall j :: 0 <= j < |s.rows| ==>
          s1.rows[j] == s.rows[j] || s1.rows[j].status == Skipped)
  }

  lemma {:induction false} UnwindEnds(e: Env, s: Saga, q: int)
    requires s.status == SagaCompensating && !Reopenable(s)
    ensures RowsSettle(s, Unwind(e, s, q)) && !Reopenable(Unwind(e, s, q))
    decreases q + 1
  {
    if q >= |s.rows| {
      UnwindEnds(e, s, q - 1);
    } else if q >= 0 {
      var row := s.rows[q];
      if !NeedsUndo(row) || HasUndo(s.undos, row.span, Compensated) {
        UnwindEnds(e, s, q - 1);
      } else if !HasUndo(s.undos, row.span, Compensating) && row.lab.spec.kind == SpawnSagas && e.childrenDone(q) {
        UnwindEnds(e, AddSpawnUndo(s, q), q - 1);
      }
    }
  }

  lemma SinceKept(s: Saga, s1: Saga, ended: seq<Row>)
    requires ForwardKept(s, s1) && |ended| == |s.rows|
    requires forall j :: 0 <= j < |ended| ==> Done(ended[j].status) && Since(ended[j], s.rows[j])
    ensures forall j :: 0 <= j < |ended| ==> Since(ended[j], s1.rows[j])
  {
    forall j | 0 <= j < |ended| ensures Since(ended[j], s1.rows[j]) {
      assert Since(ended[j], s.rows[j]) && Winds(s.rows[j].status, s1.rows[j].status);
    }
  }

  lemma KeptTallied(r: Rules, s: Saga, s1: Saga)
    requires ForwardKept(s, s1) && Tallied(r, s)
    ensures Tallied(r, s1)
  {
    assert Labs(s1.rows) == Labs(s.rows);
    if SomeExhausted(s1) {
      assert SomeExhausted(s);
      var ended, outs :| GaveUp(r, s, ended, outs);
      SinceKept(s, s1, ended);
      assert GaveUp(r, s1, ended, outs);
    }
  }

  /** A walk keeps the forward part of the invariant. */
  lemma UnwindForward(r: Rules, e: Env, s: Saga, q: int)
    requires Numbered(s) && Tallied(r, s)
    requires Quiet(s) && NoStaleErrors(s.rows) && s.status == SagaCompensating
    requires AllInWindow(s) && NoCleanFailureIn(s) && !Reopenable(s)
    ensures Forward(r, Unwind(e, s, q))
  {
    var s1 := Unwind(e, s, q);
    UnwindFrame(e, s, q);
    UnwindEnds(e, s, q);
    KeptTallied(r, s, s1);
    UnwindClean(e, s, q);
  }

  lemma {:induction false} UnwindClean(e: Env, s: Saga, q: int)
    requires NoStaleErrors(s.rows)
    ensures NoStaleErrors(Unwind(e, s, q).rows)
    decreases q + 1
  {
    if q >= |s.rows| {
      UnwindClean(e, s, q - 1);
    } else if q >= 0 {
      var row := s.rows[q];
      if !NeedsUndo(row) || HasUndo(s.undos, row.span, Compensated) {
        UnwindClean(e, s, q - 1);
      } else if !HasUndo(s.undos, row.span, Compensating) && row.lab.spec.kind == SpawnSagas && e.childrenDone(q) {
        UnwindClean(e, AddSpawnUndo(s, q), q - 1);
      }
    }
  }

  lemma StartUnwindInv(r: Rules, e: Env, s: Saga, from: int)
    requires Numbered(s) && Tallied(r, s)
    requires Quiet(s) && NoStaleErrors(s.rows) && s.undos == [] && 0 <= from < |s.rows|
    requires AllInWindow(s.(window := from)) && NoCleanFailureIn(s.(window := from))
    ensures Inv(r, StartUnwind(e, s, from))
    ensures Winding(StartUnwind(e, s, from).status)
  {
    var s1 := s.(status := SagaCompensating, window := from);
    assert Numbered(s1);
    KeptTallied(r, s, s1);
    UnwindForward(r, e, s1, from);
    UnwindFrame(e, s1, from);
    StartUnwindLifo(e, s, from);
  }

  lemma ConcludeFailedInv(r: Rules, s: Saga)
    requires Numbered(s) && Tallied(r, s)
    requires Quiet(s) && NoStaleErrors(s.rows) && s.undos == [] && s.window == -1 && AllInWindow(s)
    ensures Inv(r, ConcludeFailed(s))
  {
    KeptTallied(r, s, ConcludeFailed(s));
  }

  // ---- Lemmas: failing the row the engine stands at

  lemma FailStepInv(r: Rules, e: Env, s: Saga, i: nat, err: Option<Err>, outs: seq<Entry>, ctx: Context)
    requires Working(r, s, i, outs, ctx) && s.rows[i].error.None?
    ensures Inv(r, FailStep(e, s, i, err))
    ensures FailStep(e, s, i, err).status == AwaitingRecovery || Winding(FailStep(e, s, i, err).status)
  {
    FailStepAnyError(r, e, s, i, err, outs, ctx);
  }

  /** Where the walk begins after a failure of row `i`: at the row if that is dirty. */
  function WalkFrom(s: Saga, i: nat, err: Option<Err>): int
    requires i < |s.rows|
  {
    if FailedRow(s.rows[i], err).status == TimedOut || Crashed(err) then i else i - 1
  }

  /** Marking the failure leaves rows that fit the window that begins there. */
  lemma FailureFitsWindow(s: Saga, i: nat, err: Option<Err>)
    requires Poised(s.rows, i) && i < |s.rows| && (s.rows[i].error.None? || s.rows[i].error == err)
    requires forall j :: 0 <= j < |s.rows| && s.rows[j].status == Pending && j != i ==> s.rows[j].error.None?
    ensures var s1 := WithRow(s, i, FailedRow(s.rows[i], err));
      var s2 := s1.(window := WalkFrom(s, i, err));
      Quiet(s1) && NoStaleErrors(s1.rows) && AllInWindow(s2) && NoCleanFailureIn(s2)
  {
  }

  lemma FailureHeld(r: Rules, s: Saga, i: nat, err: Option<Err>, outs: seq<Entry>, ctx: Context)
    requires Numbered(s) && HoldsAt(r, s, i, outs, ctx) && s.undos == [] && s.window == -1
    requires NoStaleErrors(WithRow(s, i, FailedRow(s.rows[i], err)).rows)
    ensures Inv(r, WithRow(s, i, FailedRow(s.rows[i], err)).(status := AwaitingRecovery))
  {
    var s1 := WithRow(s, i, FailedRow(s.rows[i], err)).(status := AwaitingRecovery);
    HoldsStill(r, s, s1, i, outs, ctx);
    assert Numbered(s1);
    LiveForward(r, s1, i, outs, ctx);
  }

  /** Also when details were recorded on the row just before. */
  lemma FailStepAnyError(r: Rules, e: Env, s: Saga, i: nat, err: Option<Err>, outs: seq<Entry>, ctx: Context)
    requires Numbered(s) && HoldsAt(r, s, i, outs, ctx) && s.undos == [] && s.window == -1
    requires forall j :: 0 <= j < |s.rows| && s.rows[j].status == Pending && j != i ==> s.rows[j].error.None?
    requires s.rows[i].error.None? || s.rows[i].error == err
    ensures Inv(r, FailStep(e, s, i, err))
    ensures FailStep(e, s, i, err).status == AwaitingRecovery || Winding(FailStep(e, s, i, err).status)
  {
    hide Inv, Unwind, Standing, StartUnwind, Tallied, Forward, Lifo;
    var s1 := WithRow(s, i, FailedRow(s.rows[i], err));
    FailureFitsWindow(s, i, err);
    if s1.rows[i].lab.spec.awaitOperator {
      FailureHeld(r, s, i, err, outs, ctx);
    } else {
      HoldsStill(r, s, s1, i, outs, ctx);
      HoldsTallied(r, s1, i, outs, ctx);
      assert Numbered(s1);
      if WalkFrom(s, i, err) < 0 { ConcludeFailedInv(r, s1); } else { StartUnwindInv(r, e, s1, WalkFrom(s, i, err)); }
    }
  }

  // ---- Lemmas: dispatch

  lemma DispatchInv(r: Rules, e: Env, s: Saga, i: nat, guidance: Option<int>, outs: seq<Entry>, ctx: Context)
    requires Working(r, s, i, outs, ctx) && s.status == Running && s.rows[i].error.None?
    ensures Inv(r, Dispatch(r, e, s, i, guidance))
  {
    hide Inv, FailStep, Deliver, Standing;
    var row := s.rows[i].(status := InProgress);
    match r.resolve(s.ctx, row.lab, row.retries, guidance)
    case Unresolved(err) =>
      HoldsStill(r, s, WithRow(s, i, row), i, outs, ctx);
      FailStepInv(r, e, WithRow(s, i, row), i, err, outs, ctx);
    case Resolved(args) =>
      HoldsStill(r, s, WithRow(s, i, row.(args := args)), i, outs, ctx);
      DeliverInv(r, e, WithRow(s, i, row.(args := args)), i, args, outs, ctx);
  }

  lemma DeliverInv(r: Rules, e: Env, s: Saga, i: nat, args: Args, outs: seq<Entry>, ctx: Context)
    requires Working(r, s, i, outs, ctx) && s.status == Running && s.rows[i].status == InProgress
    requires s.rows[i].error.None?
    ensures Inv(r, Deliver(r, e, s, i, args))
  {
    var lab := s.rows[i].lab;
    if lab.spec.kind == Commit && lab.spec.toolCount != 1 {
      FailStepInv(r, e, s, i, Some(Err(false, false)), outs, ctx);
    } else if lab.spec.kind == Commit && lab.spec.hasPolicy && r.gate(lab, args, None).Some? {
      FailStepInv(r, e, s, i, r.gate(lab, args, None), outs, ctx);
    } else if lab.spec.kind == Commit && lab.spec.hitl {
      HoldInv(r, s, i, HeldArgs(args), outs, ctx);
    } else if lab.spec.kind == Commit {
      SendInv(r, s, i, DoCommit(s.rows[i].span, args), outs, ctx);
    } else {
      SendInv(r, s, i, DoStep(s.rows[i].span, args), outs, ctx);
    }
  }

  lemma SendInv(r: Rules, s: Saga, i: nat, c: Command, outs: seq<Entry>, ctx: Context)
    requires Working(r, s, i, outs, ctx) && s.status == Running && s.rows[i].status == InProgress
    ensures Inv(r, Send(s, i, c))
  {
    HoldsStill(r, s, Send(s, i, c), i, outs, ctx);
    LiveForward(r, Send(s, i, c), i, outs, ctx);
  }

  lemma HoldInv(r: Rules, s: Saga, i: nat, held: Held, outs: seq<Entry>, ctx: Context)
    requires Working(r, s, i, outs, ctx) && s.rows[i].error.None?
    ensures Inv(r, Hold(s, i, held))
  {
    var s1 := Hold(s, i, held);
    HoldsStill(r, s, s1, i, outs, ctx);
    assert Numbered(s1);
    LiveForward(r, s1, i, outs, ctx);
  }

  // ---- Lemmas: a scheduling pass and what it settles to

  lemma StandingHolds(r: Rules, s: Saga, i: nat, outs: seq<Entry>)
    requires i < |s.rows| && Poised(s.rows, i) && Standing(r, s, i, outs) && Chosen(r, s.ctx, i, s.rows[i].lab)
    ensures HoldsAt(r, s, i, outs, s.ctx)
  {
    assert s.(ctx := s.ctx) == s;
  }

  lemma SettleInv(r: Rules, e: Env, s: Saga, stop: Stop, guidance: Option<int>, outs: seq<Entry>)
    requires Stopped(s, stop) && StopIn(stop) && Rested(r, stop, outs)
    requires Numbered(s) && s.undos == [] && s.window == -1
    ensures Inv(r, Settle(r, e, stop, guidance))
  {
    var t := stop.s;
    GrownNumbered(s, t);
    match stop
    case Finished(_) => FinishedInv(r, t, outs);
    case LoopFailed(_, i) => LoopFailedInv(r, e, t, i, outs);
    case Launch(_, i) =>
      StandingHolds(r, t, i, outs);
      DispatchInv(r, e, t, i, guidance, outs, t.ctx);
    case Faulted(_, i, err) =>
      StandingHolds(r, t, i, outs);
      FailStepInv(r, e, t, i, err, outs, t.ctx);
    case Parked(_, i) =>
      StandingHolds(r, t, i, outs);
      LiveForward(r, t, i, outs, t.ctx);
  }

  lemma FinishedInv(r: Rules, s: Saga, outs: seq<Entry>)
    requires Numbered(s) && NoStaleErrors(s.rows) && s.status == Running && s.undos == [] && s.window == -1
    requires Poised(s.rows, |s.rows|) && Standing(r, s, |s.rows|, outs)
    ensures Inv(r, Conclude(s))
  {
    var s1 := Conclude(s);
    assert s1.rows == s.rows;
    assert PlanOf(s1) == PlanOf(s);
    LoopsTallied(r, s1);
    assert Standing(r, s1, |s1.rows|, outs);
  }

  lemma LoopFailedInv(r: Rules, e: Env, s: Saga, i: nat, outs: seq<Entry>)
    requires Numbered(s) && NoStaleErrors(s.rows) && s.undos == [] && s.window == -1
    requires i + 1 == |s.rows| && Poised(s.rows, i + 1) && Rested(r, LoopFailed(s, i), outs)
    ensures Inv(r, Settle(r, e, LoopFailed(s, i), None))
  {
    hide Ladder, Covered, LoopsOk, Tail, LatestView, Recorded;
    hide Forward, Inv, Bounded, Unrolled, Unwind, StartUnwind, Replay;
    var row := s.rows[i];
    var s1 := WithRow(s, i, row.(error := if row.error.Some? then row.error else Some(Err(false, false))));
    assert s.rows[..i + 1] == s.rows;
    assert GaveUp(r, s, s.rows, outs);
    assert Tallied(r, s);
    KeptTallied(r, s, s1);
    StartUnwindInv(r, e, s1, i);
  }

  lemma ResumeInv(r: Rules, e: Env, s: Saga, i: nat, p: Payload, outs: seq<Entry>, ctx: Context)
    requires Working(r, s, i, outs, ctx) && (s.status == Running || s.status == SagaAwaitingHuman)
    requires s.rows[i].error.None?
    ensures Inv(r, Resume(r, e, s, i, p))
  {
    var outs1 := FinishInv(r, e, s, i, p, outs, ctx);
    SettleInv(r, e, FinishRow(s, i, p), After(r, e, FinishRow(s, i, p), i), None, outs1);
  }

  /** Finishing row `i` and scheduling on, from the context as it would be unretried. */
  lemma FinishInv(r: Rules, e: Env, s: Saga, i: nat, p: Payload, outs: seq<Entry>, ctx: Context)
    returns (outs1: seq<Entry>)
    requires Working(r, s, i, outs, ctx) && (s.status == Running || s.status == SagaAwaitingHuman)
    requires s.rows[i].error.None?
    ensures var s1 := FinishRow(s, i, p);
      && Numbered(s1) && s1.undos == [] && s1.window == -1
      && Stopped(s1, After(r, e, s1, i)) && LaunchesPending(After(r, e, s1, i))
      && Rested(r, After(r, e, s1, i), outs1)
  {
    var s1 := FinishRow(s, i, p);
    WorkFinished(r, s, i, p, outs, ctx);
    hide Working, Numbered, Through, Stopped, LaunchesPending, Rested, After, FinishRow, Poised, NoStaleErrors;
    AfterStops(r, e, s1, i);
    outs1 := AfterRests(r, e, s1, i, outs + [EntryOf(p)]);
  }

  /** The live row is done, and the interpreter is past it too. */
  lemma WorkFinished(r: Rules, s: Saga, i: nat, p: Payload, outs: seq<Entry>, ctx: Context)
    requires Working(r, s, i, outs, ctx) && (s.status == Running || s.status == SagaAwaitingHuman)
    requires s.rows[i].error.None?
    ensures var s1 := FinishRow(s, i, p);
      && Numbered(s1) && s1.undos == [] && s1.window == -1 && s1.status == Running
      && i < |s1.rows| && Poised(s1.rows, i) && Done(s1.rows[i].status) && NoStaleErrors(s1.rows)
      && Through(r, s1, i, outs + [EntryOf(p)])
  {
    hide Through, Standing;
    WorkFinishedThrough(r, s, i, p, outs, ctx);
    assert Numbered(FinishRow(s, i, p));
  }

  lemma WorkFinishedThrough(r: Rules, s: Saga, i: nat, p: Payload, outs: seq<Entry>, ctx: Context)
    requires i < |s.rows| && HoldsAt(r, s, i, outs, ctx)
    ensures Through(r, FinishRow(s, i, p), i, outs + [EntryOf(p)])
  {
    hide Through, Standing, Poised;
    var s0 := s.(ctx := ctx);
    var id := s.rows[i].lab.spec.id;
    assert SetStep(ctx, id, EntryOf(p)).steps == SetStep(s.ctx, id, EntryOf(p)).steps;
    assert FinishRow(s0, i, p) == FinishRow(s, i, p);
    FinishedThrough(r, s0, i, p, outs);
  }

  lemma NativeOpens(r: Rules, s: Saga, i: nat, outs: seq<Entry>, ctx: Context)
    requires Working(r, s, i, outs, ctx) && s.status == Running && s.rows[i].error.None?
    ensures Working(r, WithStatus(s, i, InProgress), i, outs, ctx)
    ensures Inv(r, WithStatus(s, i, InProgress))
  {
    var s1 := WithStatus(s, i, InProgress);
    HoldsStill(r, s, s1, i, outs, ctx);
    LiveForward(r, s1, i, outs, ctx);
  }

  lemma NativeFinishes(r: Rules, e: Env, s: Saga, i: nat, p: Payload, outs: seq<Entry>, ctx: Context)
    requires Working(r, s, i, outs, ctx) && s.status == Running && s.rows[i].error.None?
    ensures Inv(r, Settle(r, e, After(r, e, FinishRow(s, i, p), i), None))
  {
    var outs1 := FinishInv(r, e, s, i, p, outs, ctx);
    SettleInv(r, e, FinishRow(s, i, p), After(r, e, FinishRow(s, i, p), i), None, outs1);
  }

  lemma NativeFails(r: Rules, e: Env, s: Saga, i: nat, err: Option<Err>, outs: seq<Entry>, ctx: Context)
    requires Working(r, s, i, outs, ctx) && s.status == Running && s.rows[i].error.None?
    ensures Inv(r, FailStep(e, WithStatus(s, i, InProgress), i, err))
  {
    NativeOpens(r, s, i, outs, ctx);
    FailStepInv(r, e, WithStatus(s, i, InProgress), i, err, outs, ctx);
  }

  lemma TriggerCases(r: Rules, e: Env, s: Saga, i: nat, guidance: Option<int>)
    requires i < |s.rows|
    ensures var native := !WorkerKind(s.rows[i].lab.spec.kind);
      && (!native ==> Trigger(r, e, s, i, guidance) == Dispatch(r, e, s, i, guidance))
      && (native && e.native(i).NativeWait? ==> Trigger(r, e, s, i, guidance) == WithStatus(s, i, InProgress))
      && (native && e.native(i).NativeFailure? ==>
            Trigger(r, e, s, i, guidance) == FailStep(e, WithStatus(s, i, InProgress), i, e.native(i).err))
      && (native && e.native(i).NativeOutput? ==>
            Trigger(r, e, s, i, guidance) == Settle(r, e, After(r, e, FinishRow(s, i, e.native(i).p), i), None))
  {
  }

  /** Running row `i` again, or for the first time. */
  lemma TriggerInv(r: Rules, e: Env, s: Saga, i: nat, guidance: Option<int>, outs: seq<Entry>, ctx: Context)
    requires Working(r, s, i, outs, ctx) && s.status == Running && s.rows[i].error.None?
    ensures Inv(r, Trigger(r, e, s, i, guidance))
  {
    TriggerCases(r, e, s, i, guidance);
    if WorkerKind(s.rows[i].lab.spec.kind) {
      DispatchInv(r, e, s, i, guidance, outs, ctx);
    } else {
      match e.native(i)
      case NativeWait => NativeOpens(r, s, i, outs, ctx);
      case NativeFailure(err) => NativeFails(r, e, s, i, err, outs, ctx);
      case NativeOutput(p) => NativeFinishes(r, e, s, i, p, outs, ctx);
    }
  }

  // ---- The live row

  /** In a live saga every row that is running, held or failed is the one row it is at. */
  lemma LiveRow(r: Rules, s: Saga, i: nat) returns (outs: seq<Entry>, ctx: Context)
    requires Inv(r, s) && i < |s.rows| && Fits(s.status, s.rows[i].status)
    ensures Working(r, s, i, outs, ctx)
    ensures !s.status.AwaitingRecovery? ==> s.rows[i].error.None?
  {
    var j, o, c :| LiveAt(r, s, j, o, c);
    assert i == j;
    outs, ctx := o, c;
  }

  /** A running or held row exists only in a live saga. */
  lemma ActiveIsLive(r: Rules, s: Saga, i: nat)
    requires Inv(r, s) && i < |s.rows|
    requires s.rows[i].status == InProgress || s.rows[i].status == AwaitingHuman
    ensures s.status == (if s.rows[i].status == InProgress then Running else SagaAwaitingHuman)
  {
    if s.status in {Running, SagaAwaitingHuman, AwaitingRecovery} {
      var j, o, c :| LiveAt(r, s, j, o, c);
      assert i == j;
    }
  }
}
