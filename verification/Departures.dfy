/** How a row leaves PENDING: what the gate, the parameters, the policy and the children said
    about it in the very transaction in which it was started. */
module Departures {
  import opened SagaTypes
  import opened SagaSpec
  import opened ForwardPath
  import opened ForwardSteps
  import opened Scheduling
  import opened SagaInvariant
  import opened SagaRuns
  import opened SagaTheorems
  import opened Walks
  import opened Outcomes
  import opened Compensation

  /** The arguments of the row are what its parameters resolve to, and a commit has one tool
      and has passed its gate on them. */
  predicate Prepared(r: Rules, ctx: Context, row: Row, guidance: Option<int>) {
    && r.resolve(ctx, row.lab, row.retries, guidance) == Resolved(row.args)
    && (row.lab.spec.kind == Commit ==>
          row.lab.spec.toolCount == 1 && (row.lab.spec.hasPolicy ==> r.gate(row.lab, row.args, None).None?))
  }

  /** This is what kept row `j` from being started. */
  ghost predicate Refused(r: Rules, e: Env, ctx: Context, j: nat, row: Row, err: Option<Err>) {
    || (row.lab.spec.hasWhen && r.when(ctx, j, row.lab) == WhenError(err))
    || (Admits(r, ctx, j, row.lab)
        && if row.lab.spec.kind == SpawnSagas || row.lab.spec.kind == JoinSagas then e.native(j) == NativeFailure(err)
           else match r.resolve(ctx, row.lab, row.retries, None)
             case Unresolved(err1) => err == err1
             case Resolved(args) =>
               && row.lab.spec.kind == Commit
               && if row.lab.spec.toolCount != 1 then err == Some(Err(false, false))
                  else row.lab.spec.hasPolicy && err.Some? && r.gate(row.lab, args, None) == err)
  }

  /** The row says how it failed, and the saga stands where the step's strategy puts it. */
  ghost predicate FailedBy(e: Env, s1: Saga, j: nat, err: Option<Err>)
    requires j < |s1.rows|
  {
    && (s1.rows[j] == Marked(s1.rows[j], err) || (Unbuilt(e, s1, j) && err.Some? && (err.value.timeout || err.value.crash)))
    && (if s1.rows[j].lab.spec.awaitOperator then s1.status == AwaitingRecovery
        else s1.status in {SagaCompensating, SagaCompensated, SagaFailed})
  }

  /** Row `j` was pending, or not there, before the transaction that led to `s1`. */
  ghost predicate Departed(r: Rules, e: Env, s1: Saga, j: nat)
    requires j < |s1.rows|
  {
    var row := s1.rows[j];
    var sp := row.lab.spec;
    match row.status
    case Pending => true
    case Skipped => true
    case Completed => PutOut(e, row, j)
    case InProgress =>
      && Admits(r, s1.ctx, j, row.lab) && s1.status == Running
      && (if sp.kind == Reason || sp.kind == Commit then Prepared(r, s1.ctx, row, None) && !(sp.kind == Commit && sp.hitl)
          else e.native(j) == NativeWait)
    case AwaitingHuman =>
      && Admits(r, s1.ctx, j, row.lab) && s1.status == SagaAwaitingHuman
      && sp.kind == Commit && sp.hitl && Prepared(r, s1.ctx, row, None) && row.held == HeldArgs(row.args)
    case _ =>
      && (row.status == Failed || row.status == TimedOut)
      && exists err :: Refused(r, e, s1.ctx, j, row, err) && FailedBy(e, s1, j, err)
  }

  // ---- One row, after the pass has stopped

  lemma WalkLeavesPending(e: Env, s: Saga, s1: Saga, from: int, j: nat)
    requires WalksDown(e, s, s1, from) && j < |s.rows| && s.rows[j].status == Pending
    ensures j < |s1.rows| && s1.rows[j].status in {Pending, Skipped}
  {
  }

  lemma FailureLeavesPending(e: Env, s: Saga, s1: Saga, i: nat, err: Option<Err>, j: nat)
    requires i < |s.rows| && FailsWith(e, s, s1, i, err) && j < |s.rows| && j != i && s.rows[j].status == Pending
    ensures j < |s1.rows| && s1.rows[j].status in {Pending, Skipped}
  {
    hide WalksDown;
    var s0 := s.(rows := s.rows[i := Marked(s.rows[i], err)]);
    var from := if err.Some? && (err.value.timeout || err.value.crash) then i else i - 1;
    var s2 := s0.(status := SagaCompensating, window := from);
    if !s.rows[i].lab.spec.awaitOperator && from >= 0 { WalkLeavesPending(e, s2, s1, from, j); }
  }

  lemma LaunchLeavesPending(r: Rules, e: Env, s: Saga, s1: Saga, i: nat, guidance: Option<int>, j: nat)
    requires i < |s.rows| && Launches(r, e, s, s1, i, guidance) && j < |s.rows| && j != i && s.rows[j].status == Pending
    ensures j < |s1.rows| && s1.rows[j].status in {Pending, Skipped}
  {
    hide FailsWith;
    var row := s.rows[i];
    match r.resolve(s.ctx, row.lab, row.retries, guidance)
    case Unresolved(err) => FailureLeavesPending(e, s, s1, i, err, j);
    case Resolved(args) =>
      var s0 := s.(rows := s.rows[i := row.(args := args)]);
      var err := if row.lab.spec.toolCount != 1 then Some(Err(false, false)) else r.gate(row.lab, args, None);
      if FailsWith(e, s0, s1, i, err) { FailureLeavesPending(e, s0, s1, i, err, j); }
  }

  /** The row that failed says so. */
  lemma FailureMarks(e: Env, s: Saga, s1: Saga, i: nat, err: Option<Err>)
    requires i < |s.rows| && FailsWith(e, s, s1, i, err)
    ensures |s1.rows| == |s.rows| && s1.ctx == s.ctx
    ensures s1.rows[i] == s.rows[i].(status := s1.rows[i].status, error := s1.rows[i].error)
    ensures s1.rows[i].status in {Failed, TimedOut} && FailedBy(e, s1, i, err)
  {
  }

  lemma LaunchDeparts(r: Rules, e: Env, s: Saga, s1: Saga, i: nat)
    requires i < |s.rows| && Launches(r, e, s, s1, i, None) && s.status == Running
    requires WorkerKind(s.rows[i].lab.spec.kind) && Admits(r, s.ctx, i, s.rows[i].lab)
    ensures i < |s1.rows| && Departed(r, e, s1, i)
  {
    hide FailsWith;
    var row := s.rows[i];
    match r.resolve(s.ctx, row.lab, row.retries, None)
    case Unresolved(err) =>
      FailureMarks(e, s, s1, i, err);
      assert Refused(r, e, s1.ctx, i, s1.rows[i], err);
    case Resolved(args) =>
      var s0 := s.(rows := s.rows[i := row.(args := args)]);
      var err := if row.lab.spec.toolCount != 1 then Some(Err(false, false)) else r.gate(row.lab, args, None);
      if FailsWith(e, s0, s1, i, err) && row.lab.spec.kind == Commit && (row.lab.spec.toolCount != 1 || (row.lab.spec.hasPolicy && err.Some?)) {
        FailureMarks(e, s0, s1, i, err);
        assert Refused(r, e, s1.ctx, i, s1.rows[i], err);
      }
  }

  lemma SettleDeparts(r: Rules, e: Env, s: Saga, stop: Stop, j: nat)
    requires Numbered(s) && Stopped(s, stop) && StopIn(stop) && StopsRightly(r, e, stop) && LaunchesPending(stop)
    requires j < |stop.s.rows| && PassedRightly(e, stop, j)
    ensures j < |Settle(r, e, stop, None).rows| && Departed(r, e, Settle(r, e, stop, None), j)
  {
    hide WalksDown, FailsWith, Launches, FailStep, Dispatch, Poised, Departed;
    GrownNumbered(s, stop.s);
    if Done(stop.s.rows[j].status) && (stop.Finished? || stop.LoopFailed? || stop.i != j) {
      SettleLeavesDone(r, e, s, stop, None, j);
      DoneDeparts(r, e, stop.s, Settle(r, e, stop, None), j);
    } else {
      match stop
      case Finished(t) => PendingDeparts(r, e, Conclude(t), j);
      case Parked(t, i) => if i != j { PendingDeparts(r, e, t, j); } else { ParkedDeparts(r, e, stop); }
      case Launch(t, i) =>
        var s1 := Dispatch(r, e, t, i, None);
        DispatchLaunches(r, e, t, i, None);
        if i == j { LaunchDeparts(r, e, t, s1, i); } else { LaunchLeavesPending(r, e, t, s1, i, None, j); PendingDeparts(r, e, s1, j); }
      case Faulted(t, i, err) =>
        var s1 := FailStep(e, t, i, err);
        FailStepFails(e, t, i, err);
        if i == j { FaultDeparts(r, e, stop, s1); } else { FailureLeavesPending(e, t, s1, i, err, j); PendingDeparts(r, e, s1, j); }
      case LoopFailed(t, i) => BrokenLeavesPending(r, e, t, i, j);
    }
  }

  lemma PendingDeparts(r: Rules, e: Env, s1: Saga, j: nat)
    requires j < |s1.rows| && s1.rows[j].status in {Pending, Skipped}
    ensures Departed(r, e, s1, j)
  {
  }

  lemma DoneDeparts(r: Rules, e: Env, t: Saga, s1: Saga, j: nat)
    requires j < |t.rows| && StaysDone(e, t, s1, j)
    requires t.rows[j].status == Skipped || (t.rows[j].status == Completed && PutOut(e, t.rows[j], j))
    ensures Departed(r, e, s1, j)
  {
  }

  lemma ParkedDeparts(r: Rules, e: Env, stop: Stop)
    requires stop.Parked? && StopIn(stop) && StopsRightly(r, e, stop) && stop.s.status == Running
    ensures Departed(r, e, stop.s, stop.i)
  {
  }

  lemma FaultDeparts(r: Rules, e: Env, stop: Stop, s1: Saga)
    requires stop.Faulted? && StopIn(stop) && StopsRightly(r, e, stop) && FailsWith(e, stop.s, s1, stop.i, stop.err)
    ensures stop.i < |s1.rows| && Departed(r, e, s1, stop.i)
  {
    hide FailsWith;
    FailureMarks(e, stop.s, s1, stop.i, stop.err);
    assert Refused(r, e, s1.ctx, stop.i, s1.rows[stop.i], stop.err);
  }

  lemma BrokenLeavesPending(r: Rules, e: Env, t: Saga, i: nat, j: nat)
    requires Numbered(t) && i < |t.rows| && j < |t.rows| && t.rows[j].status == Pending
    ensures j < |Settle(r, e, LoopFailed(t, i), None).rows| && Departed(r, e, Settle(r, e, LoopFailed(t, i), None), j)
  {
    hide WalksDown;
    var row := t.rows[i];
    var t1 := WithRow(t, i, row.(error := if row.error.Some? then row.error else Some(Err(false, false))));
    var t2 := t1.(status := SagaCompensating, window := i);
    assert Numbered(t2);
    UnwindWalks(e, t2, i);
    WalkLeavesPending(e, t2, Unwind(e, t2, i), i, j);
  }

  // ---- Every transaction

  /** The row was not started before the transaction. */
  predicate Waits(s: Saga, j: nat) { j >= |s.rows| || s.rows[j].status == Pending }

  lemma FailureDeparts(r: Rules, e: Env, s: Saga, i: nat, err: Option<Err>, j: nat)
    requires Numbered(s) && i < |s.rows| && s.rows[i].status !in {Pending, TimedOut}
    requires s.rows[i].error.None? || s.rows[i].error == err
    requires j < |FailStep(e, s, i, err).rows| && Waits(s, j)
    ensures Departed(r, e, FailStep(e, s, i, err), j)
  {
    hide FailsWith, FailStep;
    var s1 := FailStep(e, s, i, err);
    FailStepFails(e, s, i, err);
    FailureMarks(e, s, s1, i, err);
    FailureLeavesPending(e, s, s1, i, err, j);
    PendingDeparts(r, e, s1, j);
  }

  lemma WalkDeparts(r: Rules, e: Env, s: Saga, q: int, j: nat)
    requires Numbered(s) && -1 <= q && j < |Unwind(e, s, q).rows| && Waits(s, j)
    ensures Departed(r, e, Unwind(e, s, q), j)
  {
    hide Unwind, WalksDown;
    UnwindWalks(e, s, q);
    WalkKeepsCount(e, s, Unwind(e, s, q), q);
    WalkLeavesPending(e, s, Unwind(e, s, q), q, j);
    PendingDeparts(r, e, Unwind(e, s, q), j);
  }

  lemma WalkKeepsCount(e: Env, s: Saga, s1: Saga, from: int)
    requires WalksDown(e, s, s1, from)
    ensures |s1.rows| == |s.rows|
  {
  }

  lemma ResumeDeparts(r: Rules, e: Env, s: Saga, i: nat, p: Payload, outs: seq<Entry>, ctx: Context, j: nat)
    requires i < |s.rows| && Working(r, s, i, outs, ctx) && (s.status == Running || s.status == SagaAwaitingHuman)
    requires s.rows[i].error.None? && s.rows[i].status != Pending
    requires j < |Resume(r, e, s, i, p).rows| && Waits(s, j)
    ensures Departed(r, e, Resume(r, e, s, i, p), j)
  {
    hide Departed, Working, After, Settle, FinishRow;
    var s1 := FinishRow(s, i, p);
    var outs1 := FinishInv(r, e, s, i, p, outs, ctx);
    FinishedRow(r, s, i, p, outs, ctx);
    AfterStopsRightly(r, e, s1, i, j);
    SettleKeepsCount(r, e, s1, After(r, e, s1, i));
    SettleDeparts(r, e, s1, After(r, e, s1, i), j);
  }

  lemma FinishedRow(r: Rules, s: Saga, i: nat, p: Payload, outs: seq<Entry>, ctx: Context)
    requires Working(r, s, i, outs, ctx)
    ensures i < |s.rows| && i < |FinishRow(s, i, p).rows| && PendingFrom(FinishRow(s, i, p), i + 1)
    ensures forall j: nat :: Waits(s, j) && s.rows[i].status != Pending ==> i < j
  {
  }

  lemma SettleKeepsCount(r: Rules, e: Env, s: Saga, stop: Stop)
    requires Numbered(s) && Stopped(s, stop) && StopIn(stop) && StopsRightly(r, e, stop)
    ensures |Settle(r, e, stop, None).rows| == |stop.s.rows|
  {
    hide WalksDown, FailsWith, Launches, FailStep, Dispatch, Poised, Unwind;
    GrownNumbered(s, stop.s);
    match stop
    case Finished(t) =>
    case Parked(t, i) =>
    case Launch(t, i) =>
      DispatchLaunches(r, e, t, i, None);
      LaunchKeepsCount(r, e, t, Dispatch(r, e, t, i, None), i);
    case Faulted(t, i, err) =>
      FailStepFails(e, t, i, err);
      FailureMarks(e, t, FailStep(e, t, i, err), i, err);
    case LoopFailed(t, i) =>
      var row := t.rows[i];
      var t1 := WithRow(t, i, row.(error := if row.error.Some? then row.error else Some(Err(false, false))));
      var t2 := t1.(status := SagaCompensating, window := i);
      assert Numbered(t2);
      UnwindWalks(e, t2, i);
      WalkKeepsCount(e, t2, Unwind(e, t2, i), i);
  }

  lemma LaunchKeepsCount(r: Rules, e: Env, s: Saga, s1: Saga, i: nat)
    requires i < |s.rows| && Launches(r, e, s, s1, i, None)
    ensures |s1.rows| == |s.rows|
  {
  }

  lemma LaunchRestDeparts(r: Rules, e: Env, s: Saga, i: nat, guidance: Option<int>, j: nat)
    requires Numbered(s) && i < |s.rows| && s.rows[i].error.None? && s.rows[i].status != Pending
    requires j < |Dispatch(r, e, s, i, guidance).rows| && Waits(s, j)
    ensures Departed(r, e, Dispatch(r, e, s, i, guidance), j)
  {
    hide Dispatch, Launches;
    var s1 := Dispatch(r, e, s, i, guidance);
    DispatchLaunches(r, e, s, i, guidance);
    LaunchCounts(r, e, s, s1, i, guidance);
    LaunchLeavesPending(r, e, s, s1, i, guidance, j);
    PendingDeparts(r, e, s1, j);
  }

  lemma OutputResumes(r: Rules, e: Env, s: Saga, i: nat, p: Payload)
    requires i < |s.rows|
    ensures Settle(r, e, After(r, e, FinishRow(s, i, p), i), None) == Resume(r, e, s, i, p)
  {
  }

  lemma TriggerDeparts(r: Rules, e: Env, s: Saga, i: nat, guidance: Option<int>, outs: seq<Entry>, ctx: Context, j: nat)
    requires i < |s.rows| && Working(r, s, i, outs, ctx) && s.status == Running
    requires s.rows[i].error.None? && s.rows[i].status != Pending
    requires j < |Trigger(r, e, s, i, guidance).rows| && Waits(s, j)
    ensures Departed(r, e, Trigger(r, e, s, i, guidance), j)
  {
    hide Trigger, Dispatch, FailStep, Resume, Standing, Poised, Departed;
    TriggerCases(r, e, s, i, guidance);
    if WorkerKind(s.rows[i].lab.spec.kind) {
      LaunchRestDeparts(r, e, s, i, guidance, j);
    } else {
      var s0 := WithStatus(s, i, InProgress);
      assert Numbered(s0);
      match e.native(i)
      case NativeWait => PendingDeparts(r, e, s0, j);
      case NativeFailure(err) => FailureDeparts(r, e, s0, i, err, j);
      case NativeOutput(p) =>
        OutputResumes(r, e, s, i, p);
        ResumeDeparts(r, e, s, i, p, outs, ctx, j);
    }
  }

  lemma StartedDeparts(r: Rules, e: Env, s: Saga, j: nat)
    requires Inv(r, s) && j < |OnSagaStarted(r, e, s).rows| && Waits(s, j)
    ensures Departed(r, e, OnSagaStarted(r, e, s), j)
  {
    hide Standing, Tallied, Settle, Go, Departed;
    if s.status == SagaPending {
      var s1 := s.(status := Running);
      GoStops(r, e, s1, 0);
      GoStopsRightly(r, e, s1, 0, j);
      SettleKeepsCount(r, e, s1, Go(r, e, s1, 0));
      SettleDeparts(r, e, s1, Go(r, e, s1, 0), j);
    } else {
      PendingDeparts(r, e, s, j);
    }
  }

  lemma CompletedDeparts(r: Rules, e: Env, s: Saga, i: nat, p: Payload, j: nat)
    requires Inv(r, s) && i < |s.rows| && j < |OnStepCompleted(r, e, s, i, p).rows| && Waits(s, j)
    ensures Departed(r, e, OnStepCompleted(r, e, s, i, p), j)
  {
    hide Inv, FailStep, Resume, Departed;
    if s.status != AwaitingRecovery && s.rows[i].status == InProgress {
      ActiveIsLive(r, s, i);
      var outs, ctx := LiveRow(r, s, i);
      var row := s.rows[i];
      var err := r.gate(row.lab, row.args, Some(p));
      var s2 := WithRow(s, i, row.(error := err));
      assert Numbered(s2);
      if r.schema(row.lab, p).Some? { FailureDeparts(r, e, s, i, r.schema(row.lab, p), j); }
      else if row.lab.spec.kind == Reason && row.lab.spec.hasPolicy && err.Some? { FailureDeparts(r, e, s2, i, err, j); }
      else if row.lab.spec.kind == Reason && row.lab.spec.hitl { PendingDeparts(r, e, Hold(s, i, HeldOutput(p)), j); }
      else { ResumeDeparts(r, e, s, i, p, outs, ctx, j); }
    } else {
      PendingDeparts(r, e, s, j);
    }
  }

  lemma ApprovedDeparts(r: Rules, e: Env, s: Saga, i: nat, given: Option<Payload>, j: nat)
    requires Inv(r, s) && i < |s.rows| && j < |OnHumanApproved(r, e, s, i, given).rows| && Waits(s, j)
    ensures Departed(r, e, OnHumanApproved(r, e, s, i, given), j)
  {
    hide Inv, FailStep, Resume, Departed;
    var row := s.rows[i];
    if row.status == AwaitingHuman {
      ActiveIsLive(r, s, i);
      var outs, ctx := LiveRow(r, s, i);
      if row.lab.spec.kind == Commit {
        if row.lab.spec.toolCount != 1 { FailureDeparts(r, e, s, i, Some(Err(false, false)), j); }
        else { PendingDeparts(r, e, OnHumanApproved(r, e, s, i, given), j); }
      } else if given.Some? || row.held.HeldOutput? {
        var p := if given.Some? then given.value else row.held.output;
        if r.schema(row.lab, p).Some? { FailureDeparts(r, e, s, i, r.schema(row.lab, p), j); }
        else { ResumeDeparts(r, e, s, i, p, outs, ctx, j); }
      } else {
        PendingDeparts(r, e, s, j);
      }
    } else {
      PendingDeparts(r, e, s, j);
    }
  }

  lemma HumanRetryDeparts(r: Rules, e: Env, s: Saga, i: nat, guidance: Option<int>, j: nat)
    requires Inv(r, s) && i < |s.rows| && j < |OnHumanRetry(r, e, s, i, guidance).rows| && Waits(s, j)
    ensures Departed(r, e, OnHumanRetry(r, e, s, i, guidance), j)
  {
    hide Inv, Trigger, Departed, Standing;
    if s.rows[i].status == AwaitingHuman && RetryAllowed(s.rows[i]) {
      ActiveIsLive(r, s, i);
      var outs, ctx := LiveRow(r, s, i);
      var s1 := ResetForHumanRetry(s, i);
      HoldsStill(r, s, s1, i, outs, ctx);
      TriggerDeparts(r, e, s1, i, guidance, outs, ctx, j);
    } else {
      PendingDeparts(r, e, s, j);
    }
  }

  lemma FailedDeparts(r: Rules, e: Env, s: Saga, i: nat, err: Option<Err>, j: nat)
    requires Inv(r, s) && i < |s.rows| && !Done(s.rows[i].status) && s.rows[i].status != Pending
    requires j < |OnStepFailed(e, s, i, err).rows| && Waits(s, j)
    ensures Departed(r, e, OnStepFailed(e, s, i, err), j)
  {
    hide FailStep, Departed;
    if s.status in {Running, SagaAwaitingHuman} { LiveHasNoTimedOut(r, s, i); }
    if s.rows[i].status == InProgress || s.rows[i].status == AwaitingHuman {
      ActiveIsLive(r, s, i);
      var outs, ctx := LiveRow(r, s, i);
      FailureDeparts(r, e, s, i, err, j);
    } else {
      PendingDeparts(r, e, s, j);
    }
  }

  lemma RejectedDeparts(r: Rules, e: Env, s: Saga, i: nat, err: Option<Err>, j: nat)
    requires Inv(r, s) && i < |s.rows| && j < |OnHumanRejected(e, s, i, err).rows| && Waits(s, j)
    ensures Departed(r, e, OnHumanRejected(e, s, i, err), j)
  {
    hide FailStep, Departed, Inv;
    if s.rows[i].status == AwaitingHuman {
      ActiveIsLive(r, s, i);
      var outs, ctx := LiveRow(r, s, i);
      FailureDeparts(r, e, s, i, err, j);
    } else {
      PendingDeparts(r, e, s, j);
    }
  }

  lemma UndoReplyDeparts(r: Rules, e: Env, s: Saga, u: nat, j: nat)
    requires Inv(r, s) && u < |s.undos| && j < |OnStepCompensated(e, s, u).rows| && Waits(s, j)
    ensures Departed(r, e, OnStepCompensated(e, s, u), j)
  {
    hide Unwind, Departed;
    if s.undos[u].status == Compensating {
      assert s.undos[u] in s.undos && Placed(s, s.undos[u]);
      var s2 := s.(undos := s.undos[u := s.undos[u].(status := Compensated)]);
      assert Numbered(s2);
      WalkDeparts(r, e, s2, s.undos[u].seqNo - 1, j);
    } else {
      PendingDeparts(r, e, s, j);
    }
  }

  lemma HandleDeparts(r: Rules, e: Env, s: Saga, ev: Event, j: nat)
    requires Inv(r, s) && NoticesOk(s) && EventInOrder(s, ev) && j < |Handle(r, e, s, ev).rows| && Waits(s, j)
    ensures Departed(r, e, Handle(r, e, s, ev), j)
  {
    hide Inv, Departed, FindRow, OnStepCompleted, OnHumanApproved, OnHumanRetry, OnSagaStarted, FailStep, Unwind;
    var row := if ev.EvStepCompleted? || ev.EvStepFailed? || ev.EvHumanApproved? || ev.EvHumanRejected? || ev.EvHumanRetry?
      then FindRow(s.rows, ev.span) else None;
    if Handle(r, e, s, ev) == s || ev.EvCompensationFailed? {
      PendingDeparts(r, e, Handle(r, e, s, ev), j);
    } else {
      match ev
      case EvSagaStarted => StartedDeparts(r, e, s, j);
      case EvStepCompensated(span) => UndoReplyDeparts(r, e, s, FindUndo(s.undos, span).value, j);
      case EvStepCompleted(_, p) => CompletedDeparts(r, e, s, row.value, p, j);
      case EvStepFailed(_, err) => FailedDeparts(r, e, s, row.value, err, j);
      case EvHumanApproved(_, given) => ApprovedDeparts(r, e, s, row.value, given, j);
      case EvHumanRejected(_, err) => RejectedDeparts(r, e, s, row.value, err, j);
      case EvHumanRetry(_, guidance) => HumanRetryDeparts(r, e, s, row.value, guidance, j);
      case _ =>
    }
  }

  lemma RetryStepDeparts(r: Rules, e: Env, s: Saga, i: nat, force: bool, allow: bool, claim: Claim, requeue: bool, j: nat)
    requires Inv(r, s) && i < |s.rows|
    requires j < |RetryStep(r, e, s, i, force, allow, claim, requeue).rows| && Waits(s, j)
    ensures Departed(r, e, RetryStep(r, e, s, i, force, allow, claim, requeue), j)
  {
    hide Inv, Departed, Trigger, Working;
    var s1 := RetryStep(r, e, s, i, force, allow, claim, requeue);
    if s.status == Running && s.rows[i].status == InProgress {
      var outs, ctx := LiveRow(r, s, i);
      ResetStill(r, s, i, outs, ctx);
      assert ResetForRetry(s, i) == ResetForRetry(s, i).(status := Running);
      if s1 == Trigger(r, e, s, i, None) {
        TriggerDeparts(r, e, s, i, None, outs, ctx, j);
      } else if s1 == Trigger(r, e, ResetForRetry(s, i), i, None) {
        TriggerDeparts(r, e, ResetForRetry(s, i), i, None, outs, ctx, j);
      } else {
        PendingDeparts(r, e, s1, j);
      }
    } else {
      PendingDeparts(r, e, s, j);
    }
  }

  lemma RetryForwardDeparts(r: Rules, e: Env, s: Saga, i: nat, force: bool, allow: bool, claim: Claim, j: nat)
    requires Inv(r, s) && i < |s.rows| && j < |RetryForward(r, e, s, i, force, allow, claim).rows| && Waits(s, j)
    ensures Departed(r, e, RetryForward(r, e, s, i, force, allow, claim), j)
  {
    hide Inv, Departed, Trigger, Working;
    var s1 := RetryForward(r, e, s, i, force, allow, claim);
    if s1 != s {
      var outs, ctx := LiveRow(r, s, i);
      ResetStill(r, s, i, outs, ctx);
      TriggerDeparts(r, e, ResetForRetry(s, i).(status := Running), i, None, outs, ctx, j);
    } else {
      PendingDeparts(r, e, s, j);
    }
  }

  lemma StartCompensationDeparts(r: Rules, e: Env, s: Saga, i: nat, j: nat)
    requires Inv(r, s) && i < |s.rows| && j < |StartCompensation(e, s, i).rows| && Waits(s, j)
    ensures Departed(r, e, StartCompensation(e, s, i), j)
  {
    hide Inv, Departed, Unwind;
    InvNumbered(r, s);
    var from: int := if Dirty(s.rows[i]) then i else i as int - 1;
    var s2 := s.(status := SagaCompensating, window := from);
    assert Numbered(s2);
    if HeldForRecovery(s, i) && from >= 0 { WalkDeparts(r, e, s2, from, j); }
    else { PendingDeparts(r, e, StartCompensation(e, s, i), j); }
  }

  lemma PokedDeparts(r: Rules, e: Env, s: Saga, j: nat)
    requires Inv(r, s) && j < |PokeJoin(r, e, s).rows| && Waits(s, j)
    ensures Departed(r, e, PokeJoin(r, e, s), j)
  {
    hide Inv, Departed, Trigger;
    if PokeJoin(r, e, s) == s {
      PendingDeparts(r, e, s, j);
    } else {
      var i := FindJoin(s.rows).value;
      ActiveIsLive(r, s, i);
      var outs, ctx := LiveRow(r, s, i);
      TriggerDeparts(r, e, s, i, None, outs, ctx, j);
    }
  }

  lemma LaunchCounts(r: Rules, e: Env, s: Saga, s1: Saga, i: nat, guidance: Option<int>)
    requires i < |s.rows| && Launches(r, e, s, s1, i, guidance)
    ensures |s1.rows| == |s.rows|
  {
  }

  /** Whatever a transaction starts, it starts rightly: a row that was pending before and is
      not any more was let through by its gate; if it runs, it has its arguments from this
      context and its policy has passed; if it failed, this is because of its gate, its
      parameters, its policy or its children, and the row says so. */
  lemma RowsDepartRightly(r: Rules, e: Env, s: Saga, op: Op, j: nat)
    requires Inv(r, s) && NoticesOk(s) && InOrder(r, e, s, op) && !op.OpChildTerminal?
    requires j < |Step(r, e, s, op).rows| && Waits(s, j)
    ensures Departed(r, e, Step(r, e, s, op), j)
  {
    hide Inv, Departed, Handle, RetryStep, RetryForward, StartCompensation, FindRow, Unwind;
    var s1 := Step(r, e, s, op);
    if s1 == s || op.OpRetryCompensation? {
      PendingDeparts(r, e, s1, j);
    } else {
      match op
      case OpIngest(ev) =>
        var s0 := s.(ingested := s.ingested + {KeyOf(ev)});
        SideIrrelevant(r, s, s0);
        HandleDeparts(r, e, s0, ev, j);
      case OpRetryStep(span, force, allow, claim, requeue) =>
        RetryStepDeparts(r, e, s, FindRow(s.rows, span).value, force, allow, claim, requeue, j);
      case OpRetryForward(span, force, allow, claim) =>
        RetryForwardDeparts(r, e, s, FindRow(s.rows, span).value, force, allow, claim, j);
      case OpStartCompensation(span) => StartCompensationDeparts(r, e, s, FindRow(s.rows, span).value, j);
      case _ =>
    }
  }
}
