/** Whole runs of one saga: every transaction keeps the invariant, and terminal sagas
    stay where they are. */
module SagaRuns {
  import opened SagaTypes
  import opened SagaSpec
  import opened Interpreter
  import opened ForwardPath
  import opened ForwardSteps
  import opened Compensation
  import opened Scheduling
  import opened SagaInvariant
  import opened ChildWakeup

  // ---- In-order delivery

  /** Events the handlers do not guard against themselves. A step failure is about a row
      that was started and not finished cleanly; a failed undo is about the undo in
      flight; completion is announced by the outbox; the end of a child does not overtake
      the compensation of its parent. */
  ghost predicate EventInOrder(s: Saga, ev: Event) {
    match ev
    case EvStepFailed(span, _) =>
      (match FindRow(s.rows, span)
       case None => true
       case Some(i) => s.status == AwaitingRecovery || !(Done(s.rows[i].status) || s.rows[i].status == Pending))
    case EvCompensationFailed(span, _) =>
      (match FindUndo(s.undos, span) case None => false case Some(u) => s.undos[u].status == Compensating)
    case EvSagaCompleted => NoticeCompleted in s.notices
    case _ => true
  }

  ghost predicate InOrder(r: Rules, e: Env, s: Saga, op: Op) {
    match op
    case OpIngest(ev) => KeyOf(ev) in s.ingested || EventInOrder(s, ev)
    case OpChildTerminal => WakeSafe(r, e, s)
    case _ => true
  }

  /** A completion notice is in the outbox only of a completed saga. */
  predicate NoticesOk(s: Saga) {
    NoticeCompleted in s.notices ==> s.status == SagaCompleted
  }

  // ---- Handlers keep the invariant

  lemma SideIrrelevant(r: Rules, s: Saga, s1: Saga)
    requires Inv(r, s) && s1 == s.(ingested := s1.ingested)
    ensures Inv(r, s1)
  {
    KeptTallied(r, s, s1);
    if Winding(s.status) {
      WindingSide(r, s, s1);
    } else if s.status == SagaPending {
      RowKeepsStanding(r, s, s1, 0, []);
    } else if s.status == SagaCompleted {
      var outs :| Standing(r, s, |s.rows|, outs);
      RowKeepsStanding(r, s, s1, |s.rows|, outs);
    } else {
      LiveSide(r, s, s1);
    }
  }

  lemma WindingSide(r: Rules, s: Saga, s1: Saga)
    requires Inv(r, s) && Winding(s.status) && s1 == s.(ingested := s1.ingested)
    ensures Inv(r, s1)
  {
    KeptTallied(r, s, s1);
    assert Numbered(s1);
    LifoSide(s, s1);
  }

  lemma LiveSide(r: Rules, s: Saga, s1: Saga)
    requires Inv(r, s) && s1 == s.(ingested := s1.ingested)
    requires s.status in {Running, SagaAwaitingHuman, AwaitingRecovery}
    ensures Inv(r, s1)
  {
    var i, outs, ctx :| LiveAt(r, s, i, outs, ctx);
    HoldsStill(r, s, s1, i, outs, ctx);
    assert Numbered(s1);
    LiveForward(r, s1, i, outs, ctx);
  }

  lemma LifoSide(s: Saga, s1: Saga)
    requires Lifo(s) && Winding(s.status) && s1 == s.(ingested := s1.ingested)
    ensures Lifo(s1)
  {
    LadderKept(s, s1, Cursor(s));
    if s.status == SagaCompensated { LadderKept(s, s1, 0); }
    if s.status == SagaCompensating && !InFlight(s) {
      var p :| WaitsAt(s, p);
      assert WaitsAt(s1, p);
    }
  }

  lemma StartedInv(r: Rules, e: Env, s: Saga)
    requires Inv(r, s)
    ensures Inv(r, OnSagaStarted(r, e, s))
  {
    hide Go, Tallied, Rested, Stopped, Unrolled, Tail, LoopsOk, LatestView, Settle, Standing;
    if s.status == SagaPending {
      var s1 := s.(status := Running);
      RowKeepsStanding(r, s, s1, 0, []);
      GoStops(r, e, s1, 0);
      var outs := GoRests(r, e, s1, 0, []);
      SettleInv(r, e, s1, Go(r, e, s1, 0), None, outs);
    }
  }

  lemma CompletedInv(r: Rules, e: Env, s: Saga, i: nat, p: Payload)
    requires Inv(r, s) && i < |s.rows|
    ensures Inv(r, OnStepCompleted(r, e, s, i, p))
  {
    hide Standing, Inv, FailStep, Resume;
    if s.status != AwaitingRecovery && s.rows[i].status == InProgress {
      ActiveIsLive(r, s, i);
      var outs, ctx := LiveRow(r, s, i);
      var row := s.rows[i];
      if r.schema(row.lab, p).Some? {
        FailStepInv(r, e, s, i, r.schema(row.lab, p), outs, ctx);
      } else if row.lab.spec.kind == Reason && row.lab.spec.hasPolicy && r.gate(row.lab, row.args, Some(p)).Some? {
        var err := r.gate(row.lab, row.args, Some(p));
        var s1 := WithRow(s, i, row.(error := err));
        HoldsStill(r, s, s1, i, outs, ctx);
        FailStepAnyError(r, e, s1, i, err, outs, ctx);
      } else if row.lab.spec.kind == Reason && row.lab.spec.hitl {
        HoldInv(r, s, i, HeldOutput(p), outs, ctx);
      } else {
        ResumeInv(r, e, s, i, p, outs, ctx);
      }
    }
  }

  lemma FailedInv(r: Rules, e: Env, s: Saga, i: nat, err: Option<Err>)
    requires Inv(r, s) && i < |s.rows| && !Done(s.rows[i].status) && s.rows[i].status != Pending
    ensures Inv(r, OnStepFailed(e, s, i, err))
  {
    if s.status in {Running, SagaAwaitingHuman} { LiveHasNoTimedOut(r, s, i); }
    if s.rows[i].status == InProgress || s.rows[i].status == AwaitingHuman {
      ActiveIsLive(r, s, i);
      var outs, ctx := LiveRow(r, s, i);
      FailStepInv(r, e, s, i, err, outs, ctx);
    }
  }

  /** A running or reviewed saga has no timed-out row. */
  lemma LiveHasNoTimedOut(r: Rules, s: Saga, i: nat)
    requires Inv(r, s) && s.status in {Running, SagaAwaitingHuman} && i < |s.rows|
    ensures s.rows[i].status != TimedOut
  {
    var j, outs, ctx :| LiveAt(r, s, j, outs, ctx);
  }

  lemma ApprovedInv(r: Rules, e: Env, s: Saga, i: nat, override: Option<Payload>)
    requires Inv(r, s) && i < |s.rows|
    ensures Inv(r, OnHumanApproved(r, e, s, i, override))
  {
    hide Inv, Standing;
    var row := s.rows[i];
    if row.status == AwaitingHuman {
      ActiveIsLive(r, s, i);
      var outs, ctx := LiveRow(r, s, i);
      if row.lab.spec.kind == Commit {
        if row.lab.spec.toolCount != 1 {
          FailStepInv(r, e, s, i, Some(Err(false, false)), outs, ctx);
        } else {
          var s1 := WithRow(s, i, row.(status := InProgress, held := NoHold)).(status := Running);
          HoldsStill(r, s, s1, i, outs, ctx);
          SendInv(r, s1, i, DoCommit(row.span, row.args), outs, ctx);
        }
      } else if override.Some? || row.held.HeldOutput? {
        var p := if override.Some? then override.value else row.held.output;
        if r.schema(row.lab, p).Some? {
          FailStepInv(r, e, s, i, r.schema(row.lab, p), outs, ctx);
        } else {
          ResumeInv(r, e, s, i, p, outs, ctx);
        }
      }
    }
  }

  lemma RejectedInv(r: Rules, e: Env, s: Saga, i: nat, err: Option<Err>)
    requires Inv(r, s) && i < |s.rows|
    ensures Inv(r, OnHumanRejected(e, s, i, err))
  {
    if s.rows[i].status == AwaitingHuman {
      ActiveIsLive(r, s, i);
      var outs, ctx := LiveRow(r, s, i);
      FailStepInv(r, e, s, i, err, outs, ctx);
    }
  }

  lemma HumanRetryInv(r: Rules, e: Env, s: Saga, i: nat, guidance: Option<int>)
    requires Inv(r, s) && i < |s.rows|
    ensures Inv(r, OnHumanRetry(r, e, s, i, guidance))
  {
    hide Standing, Inv, Trigger;
    var row := s.rows[i];
    if row.status == AwaitingHuman && RetryAllowed(row) {
      ActiveIsLive(r, s, i);
      var outs, ctx := LiveRow(r, s, i);
      var s1 := ResetForHumanRetry(s, i);
      HoldsStill(r, s, s1, i, outs, ctx);
      TriggerInv(r, e, s1, i, guidance, outs, ctx);
    }
  }

  lemma HandleInv(r: Rules, e: Env, s: Saga, ev: Event)
    requires Inv(r, s) && NoticesOk(s) && EventInOrder(s, ev)
    ensures Inv(r, Handle(r, e, s, ev))
  {
    match ev
    case EvSagaStarted => StartedInv(r, e, s);
    case EvStepCompensated(span) =>
      if FindUndo(s.undos, span).Some? { UndoDoneInv(r, e, s, FindUndo(s.undos, span).value); }
    case EvCompensationFailed(span, err) => UndoFailedInv(r, s, span, err);
    case EvSagaCompleted =>
    case EvSagaCompensated =>
    case EvSagaFailed =>
    case EvStepCompleted(span, p) =>
      if FindRow(s.rows, span).Some? { CompletedInv(r, e, s, FindRow(s.rows, span).value, p); }
    case EvStepFailed(span, err) =>
      if FindRow(s.rows, span).Some? && s.status != AwaitingRecovery {
        FailedInv(r, e, s, FindRow(s.rows, span).value, err);
      }
    case EvHumanApproved(span, override) =>
      if FindRow(s.rows, span).Some? { ApprovedInv(r, e, s, FindRow(s.rows, span).value, override); }
    case EvHumanRejected(span, err) =>
      if FindRow(s.rows, span).Some? { RejectedInv(r, e, s, FindRow(s.rows, span).value, err); }
    case EvHumanRetry(span, guidance) =>
      if FindRow(s.rows, span).Some? { HumanRetryInv(r, e, s, FindRow(s.rows, span).value, guidance); }
  }

  /** The forward part of the invariant, once the newest undo is finished. */
  lemma UndoDoneForward(r: Rules, e: Env, s: Saga, u: nat)
    requires Forward(r, s) && s.status == SagaCompensating && u + 1 == |s.undos|
    ensures var s1 := s.(undos := s.undos[u := s.undos[u].(status := Compensated)]);
      Forward(r, Unwind(e, s1, s.undos[u].seqNo - 1))
  {
    hide Tallied, Unwind, NoStaleErrors;
    var s1 := s.(undos := s.undos[u := s.undos[u].(status := Compensated)]);
    KeptTallied(r, s, s1);
    assert Numbered(s1);
    UnwindForward(r, e, s1, s.undos[u].seqNo - 1);
  }

  lemma UndoDoneInv(r: Rules, e: Env, s: Saga, u: nat)
    requires Inv(r, s) && u < |s.undos|
    ensures Inv(r, OnStepCompensated(e, s, u))
  {
    hide Forward, Unwind;
    InvNumbered(r, s);
    StepCompensatedLifo(e, s, u);
    if s.undos[u].status == Compensating {
      OpenIsNewest(s, u);
      hide Lifo;
      UndoDoneForward(r, e, s, u);
    }
  }

  /** The forward part of the invariant, once one undo is no longer in flight. */
  lemma UndoFailedForward(r: Rules, s: Saga, u: nat)
    requires Forward(r, s) && s.status == SagaCompensating && u + 1 == |s.undos|
    ensures Forward(r, ConcludeFailed(s.(undos := s.undos[u := s.undos[u].(status := Failed)])))
  {
    var s1 := ConcludeFailed(s.(undos := s.undos[u := s.undos[u].(status := Failed)]));
    KeptTallied(r, s, s1);
    assert Numbered(s1);
  }

  lemma UndoFailedInv(r: Rules, s: Saga, span: nat, err: Option<Err>)
    requires Inv(r, s) && EventInOrder(s, EvCompensationFailed(span, err))
    ensures Inv(r, OnCompensationFailed(s, span, err))
  {
    var u := FindUndo(s.undos, span).value;
    CompensationFailedLifo(s, u, span, err);
    OpenIsNewest(s, u);
    UndoFailedForward(r, s, u);
  }

  // ---- Operator calls keep the invariant

  lemma ResetStill(r: Rules, s: Saga, i: nat, outs: seq<Entry>, ctx: Context)
    requires Working(r, s, i, outs, ctx)
    ensures Working(r, ResetForRetry(s, i).(status := Running), i, outs, ctx)
    ensures ResetForRetry(s, i).rows[i].error.None?
  {
    HoldsStill(r, s, ResetForRetry(s, i).(status := Running), i, outs, ctx);
  }

  lemma RetryStepInv(r: Rules, e: Env, s: Saga, i: nat, force: bool, allow: bool, claim: Claim, requeue: bool)
    requires Inv(r, s) && i < |s.rows|
    ensures Inv(r, RetryStep(r, e, s, i, force, allow, claim, requeue))
  {
    hide Inv, Standing;
    if s.status == Running && s.rows[i].status == InProgress {
      var row := s.rows[i];
      var outs, ctx := LiveRow(r, s, i);
      if !WorkerKind(row.lab.spec.kind) {
        TriggerInv(r, e, s, i, None, outs, ctx);
      } else if requeue && row.key in s.commands {
        var s1 := WithRow(s, i, row.(output := None, error := None, held := NoHold))
          .(ingested := s.ingested - ResultKeys(row.span));
        HoldsStill(r, s, s1, i, outs, ctx);
        LiveForward(r, s1, i, outs, ctx);
      } else {
        ResetStill(r, s, i, outs, ctx);
        assert ResetForRetry(s, i) == ResetForRetry(s, i).(status := Running);
        TriggerInv(r, e, ResetForRetry(s, i), i, None, outs, ctx);
      }
    }
  }

  lemma RetryForwardInv(r: Rules, e: Env, s: Saga, i: nat, force: bool, allow: bool, claim: Claim)
    requires Inv(r, s) && i < |s.rows|
    ensures Inv(r, RetryForward(r, e, s, i, force, allow, claim))
  {
    if HeldForRecovery(s, i) {
      var outs, ctx := LiveRow(r, s, i);
      ResetStill(r, s, i, outs, ctx);
      TriggerInv(r, e, ResetForRetry(s, i).(status := Running), i, None, outs, ctx);
    }
  }

  lemma StartCompensationInv(r: Rules, e: Env, s: Saga, i: nat)
    requires Inv(r, s) && i < |s.rows|
    ensures Inv(r, StartCompensation(e, s, i))
  {
    hide Standing, Lifo, Forward, Unwind;
    if HeldForRecovery(s, i) {
      var outs, ctx := LiveRow(r, s, i);
      HoldsTallied(r, s, i, outs, ctx);
      assert Quiet(s);
      var start := if Dirty(s.rows[i]) then i else i - 1;
      if start < 0 { ConcludeFailedInv(r, s); } else { StartUnwindInv(r, e, s, start); }
    }
  }

  /** An undo is in flight again. */
  lemma UndoReopenedForward(r: Rules, s: Saga, s1: Saga)
    requires Forward(r, s) && (s.status == SagaCompensating || (s.status == SagaFailed && Reopenable(s)))
    requires s1 == s.(status := SagaCompensating, undos := s1.undos, ingested := s1.ingested, commands := s1.commands)
    requires |s1.undos| == |s.undos| && forall j :: 0 <= j < |s.undos| ==> s1.undos[j].span == s.undos[j].span
    ensures Forward(r, s1)
  {
    KeptTallied(r, s, s1);
    assert Numbered(s1);
  }

  lemma RetryCompensationInv(r: Rules, e: Env, s: Saga, u: nat, claim: Claim, requeue: bool)
    requires Inv(r, s) && u < |s.undos|
    ensures Inv(r, RetryCompensation(e, s, u, claim, requeue))
  {
    RetryCompensationLifo(e, s, u, claim, requeue);
    var s1 := RetryCompensation(e, s, u, claim, requeue);
    if s1 != s {
      OpenIsNewest(s, u);
      UndoReopenedForward(r, s, s1);
    }
  }

  lemma ChildTerminalInv(r: Rules, e: Env, s: Saga)
    requires Inv(r, s) && WakeSafe(r, e, s)
    ensures Inv(r, OnChildTerminal(r, e, s))
  {
    WakeSafeExact(r, e, s);
    PokeJoinInv(r, e, s);
    ResumeSpawnForward(r, e, PokeJoin(r, e, s));
    ResumeSpawnLifo(e, PokeJoin(r, e, s));
  }

  /** The forward part of the invariant with the undo of a spawn row added. */
  lemma SpawnUndoForward(r: Rules, s: Saga, q: nat)
    requires Forward(r, s) && s.status == SagaCompensating && q < |s.rows|
    ensures var s1 := AddSpawnUndo(s, q);
      && s1.status == SagaCompensating && Numbered(s1) && Tallied(r, s1) && Quiet(s1) && NoStaleErrors(s1.rows)
      && AllInWindow(s1) && NoCleanFailureIn(s1) && !Reopenable(s1)
  {
    hide Tallied;
    NumberedSpawnUndo(s, q);
    KeptTallied(r, s, AddSpawnUndo(s, q));
  }

  lemma ResumeSpawnForward(r: Rules, e: Env, s: Saga)
    requires Inv(r, s)
    ensures Forward(r, ResumeSpawn(e, s))
    ensures s.status == SagaCompensating ==> Quiet(s)
  {
    hide Tallied, Lifo, Unwind, AllInWindow, NoCleanFailureIn, NoStaleErrors, Numbered, AddSpawnUndo;
    hide HighestSpawn, HasUndo;
    if ResumableSpawn(e, s).Some? {
      var q := ResumableSpawn(e, s).value;
      SpawnUndoForward(r, s, q);
      UnwindForward(r, e, AddSpawnUndo(s, q), q as int - 1);
    }
  }

  lemma PokeJoinInv(r: Rules, e: Env, s: Saga)
    requires Inv(r, s)
    ensures Inv(r, PokeJoin(r, e, s))
  {
    var j := FindJoin(s.rows);
    if j.Some? {
      ActiveIsLive(r, s, j.value);
      var outs, ctx := LiveRow(r, s, j.value);
      TriggerInv(r, e, s, j.value, None, outs, ctx);
    }
  }

  /** Every transaction in order keeps the invariant. */
  lemma StepInv(r: Rules, e: Env, s: Saga, op: Op)
    requires Inv(r, s) && NoticesOk(s) && InOrder(r, e, s, op)
    ensures Inv(r, Step(r, e, s, op))
  {
    hide Inv, Handle, RetryStep, RetryForward, StartCompensation, RetryCompensation, OnChildTerminal;
    match op
    case OpIngest(ev) =>
      if KeyOf(ev) !in s.ingested {
        SideIrrelevant(r, s, s.(ingested := s.ingested + {KeyOf(ev)}));
        HandleInv(r, e, s.(ingested := s.ingested + {KeyOf(ev)}), ev);
      }
    case OpRetryStep(span, force, allow, claim, requeue) =>
      if FindRow(s.rows, span).Some? {
        RetryStepInv(r, e, s, FindRow(s.rows, span).value, force, allow, claim, requeue);
      }
    case OpRetryForward(span, force, allow, claim) =>
      if FindRow(s.rows, span).Some? {
        RetryForwardInv(r, e, s, FindRow(s.rows, span).value, force, allow, claim);
      }
    case OpStartCompensation(span) =>
      if FindRow(s.rows, span).Some? { StartCompensationInv(r, e, s, FindRow(s.rows, span).value); }
    case OpRetryCompensation(span, claim, requeue) =>
      if FindUndo(s.undos, span).Some? {
        RetryCompensationInv(r, e, s, FindUndo(s.undos, span).value, claim, requeue);
      }
    case OpChildTerminal => ChildTerminalInv(r, e, s);
  }

  // ---- Completion notices, the frozen blueprint and the context's keys

  /** The end of a saga is announced in the outbox. */
  predicate Announced(s: Saga) {
    && (s.status == SagaCompleted ==> NoticeCompleted in s.notices)
    && (s.status == SagaCompensated ==> NoticeCompensated in s.notices)
    && (s.status == SagaFailed ==> NoticeFailed in s.notices)
  }

  /** The blueprint is frozen; no step entry is removed from the context and no dedup key
      from the ingested ones; an end is announced. */
  ghost predicate Kept(s: Saga, s1: Saga) {
    && s1.blueprint == s.blueprint && s.ctx.steps.Keys <= s1.ctx.steps.Keys && s.ingested <= s1.ingested
    && (Announced(s) ==> Announced(s1))
  }

  /** The dedup keys a transaction may clear so that a retry can be answered again. */
  function Clears(op: Op): set<IngestKey> {
    match op
    case OpRetryStep(span, _, _, _, _) => ResultKeys(span)
    case OpRetryForward(span, _, _, _) => ResultKeys(span)
    case OpRetryCompensation(span, _, _) => UndoResultKeys(span)
    case OpIngest(EvHumanRetry(span, _)) => ResultKeys(span)
    case _ => {}
  }

  function Without(s: Saga, keys: set<IngestKey>): Saga {
    s.(ingested := s.ingested - keys)
  }

  lemma {:induction false} UnwindNotices(e: Env, s: Saga, q: int)
    ensures Unwind(e, s, q).notices <= s.notices + {NoticeCompensated, NoticeFailed}
    ensures Kept(s, Unwind(e, s, q))
    decreases q + 1
  {
    if q >= |s.rows| {
      UnwindNotices(e, s, q - 1);
    } else if q >= 0 {
      var row := s.rows[q];
      if !NeedsUndo(row) || HasUndo(s.undos, row.span, Compensated) {
        UnwindNotices(e, s, q - 1);
      } else if !HasUndo(s.undos, row.span, Compensating) && row.lab.spec.kind == SpawnSagas && e.childrenDone(q) {
        UnwindNotices(e, AddSpawnUndo(s, q), q - 1);
      }
    }
  }

  lemma FailStepNotices(e: Env, s: Saga, i: nat, err: Option<Err>)
    requires i < |s.rows|
    ensures FailStep(e, s, i, err).notices <= s.notices + {NoticeCompensated, NoticeFailed}
    ensures Kept(s, FailStep(e, s, i, err))
  {
    var row := FailedRow(s.rows[i], err);
    var s1 := WithRow(s, i, row);
    var start := if row.status == TimedOut || Crashed(err) then i else i - 1;
    UnwindNotices(e, s1.(status := SagaCompensating, window := start), start);
  }

  lemma DispatchNotices(r: Rules, e: Env, s: Saga, i: nat, guidance: Option<int>)
    requires i < |s.rows|
    ensures Dispatch(r, e, s, i, guidance).notices <= s.notices + {NoticeCompensated, NoticeFailed}
    ensures Kept(s, Dispatch(r, e, s, i, guidance))
  {
    var row := s.rows[i].(status := InProgress);
    match r.resolve(s.ctx, row.lab, row.retries, guidance)
    case Unresolved(err) => FailStepNotices(e, WithRow(s, i, row), i, err);
    case Resolved(args) =>
      var s1 := WithRow(s, i, row.(args := args));
      FailStepNotices(e, s1, i, Some(Err(false, false)));
      FailStepNotices(e, s1, i, r.gate(row.lab, args, None));
  }

  lemma SettleNotices(r: Rules, e: Env, stop: Stop, guidance: Option<int>)
    requires StopIn(stop)
    ensures var s1 := Settle(r, e, stop, guidance);
      && Kept(stop.s, s1)
      && (NoticeCompleted in s1.notices ==> NoticeCompleted in stop.s.notices || s1.status == SagaCompleted)
  {
    match stop
    case Finished(_) =>
    case Parked(_, _) =>
    case Launch(s, i) => DispatchNotices(r, e, s, i, guidance);
    case Faulted(s, i, err) => FailStepNotices(e, s, i, err);
    case LoopFailed(s, i) =>
      var row := s.rows[i];
      var s1 := WithRow(s, i, row.(error := if row.error.Some? then row.error else Some(Err(false, false))));
      UnwindNotices(e, s1.(status := SagaCompensating, window := i), i);
  }

  lemma {:induction false} GoNotices(r: Rules, e: Env, s: Saga, i: nat)
    requires i <= |s.rows|
    ensures Go(r, e, s, i).s.notices == s.notices && Kept(s, Go(r, e, s, i).s)
    decreases Left(s), PassesLeft(s), |s.rows| - i, 2
  {
    if i < |s.rows| {
      if Chosen(r, s.ctx, i, s.rows[i].lab) { FireNotices(r, e, s, i); } else { AfterNotices(r, e, SkipRow(s, i), i); }
    }
  }

  lemma {:induction false} FireNotices(r: Rules, e: Env, s: Saga, i: nat)
    requires i < |s.rows|
    ensures Fire(r, e, s, i).s.notices == s.notices && Kept(s, Fire(r, e, s, i).s)
    decreases Left(s), PassesLeft(s), |s.rows| - i, 1
  {
    if !WorkerKind(s.rows[i].lab.spec.kind) && e.native(i).NativeOutput? {
      AfterNotices(r, e, FinishRow(s, i, e.native(i).p), i);
    }
  }

  lemma BoundaryKept(r: Rules, s: Saga, i: nat)
    requires i < |s.rows|
    ensures Boundary(r, s, i).s.notices == s.notices && Kept(s, Boundary(r, s, i).s)
  {
    BoundaryFrame(r, s, i);
  }

  lemma {:induction false} AfterNotices(r: Rules, e: Env, s: Saga, i: nat)
    requires i < |s.rows|
    ensures After(r, e, s, i).s.notices == s.notices && Kept(s, After(r, e, s, i).s)
    decreases Left(s), PassesLeft(s), |s.rows| - i, 0
  {
    BoundaryKept(r, s, i);
    if Boundary(r, s, i).Crossed? {
      CrossingDescends(r, s, i);
      GoNotices(r, e, Boundary(r, s, i).s, i + 1);
    }
  }

  lemma ResumeNotices(r: Rules, e: Env, s: Saga, i: nat, p: Payload)
    requires i < |s.rows|
    ensures NoticeCompleted !in s.notices ==> NoticesOk(Resume(r, e, s, i, p))
    ensures Kept(s, Resume(r, e, s, i, p))
  {
    AfterNotices(r, e, FinishRow(s, i, p), i);
    SettleNotices(r, e, After(r, e, FinishRow(s, i, p), i), None);
  }

  lemma TriggerNotices(r: Rules, e: Env, s: Saga, i: nat, guidance: Option<int>)
    requires i < |s.rows|
    ensures NoticeCompleted !in s.notices ==> NoticesOk(Trigger(r, e, s, i, guidance))
    ensures Kept(s, Trigger(r, e, s, i, guidance))
  {
    DispatchNotices(r, e, s, i, guidance);
    FireNotices(r, e, s, i);
    SettleNotices(r, e, Fire(r, e, s, i), None);
  }

  lemma HandleRowNotices(r: Rules, e: Env, s: Saga, i: nat, ev: Event)
    requires i < |s.rows|
    ensures NoticeCompleted !in s.notices ==> NoticesOk(HandleRow(r, e, s, i, ev))
    ensures Kept(Without(s, ResultKeys(s.rows[i].span)), HandleRow(r, e, s, i, ev))
    ensures !ev.EvHumanRetry? ==> Kept(s, HandleRow(r, e, s, i, ev))
  {
    hide FailStep, Resume, Trigger, Dispatch;
    var row := s.rows[i];
    match ev
    case EvStepCompleted(_, p) =>
      FailStepNotices(e, s, i, r.schema(row.lab, p));
      var err := r.gate(row.lab, row.args, Some(p));
      FailStepNotices(e, WithRow(s, i, row.(error := err)), i, err);
      ResumeNotices(r, e, s, i, p);
    case EvStepFailed(_, err) => FailStepNotices(e, s, i, err);
    case EvHumanApproved(_, override) =>
      FailStepNotices(e, s, i, Some(Err(false, false)));
      if override.Some? || row.held.HeldOutput? {
        var p := if override.Some? then override.value else row.held.output;
        FailStepNotices(e, s, i, r.schema(row.lab, p));
        ResumeNotices(r, e, s, i, p);
      }
    case EvHumanRejected(_, err) => FailStepNotices(e, s, i, err);
    case EvHumanRetry(_, guidance) => TriggerNotices(r, e, ResetForHumanRetry(s, i), i, guidance);
    case _ =>
  }

  lemma HandleNotices(r: Rules, e: Env, s: Saga, ev: Event)
    ensures NoticeCompleted !in s.notices ==> NoticesOk(Handle(r, e, s, ev))
    ensures Kept(Without(s, Clears(OpIngest(ev))), Handle(r, e, s, ev))
  {
    match ev
    case EvSagaStarted =>
      GoNotices(r, e, s.(status := Running), 0);
      SettleNotices(r, e, Go(r, e, s.(status := Running), 0), None);
    case EvStepCompensated(span) =>
      if FindUndo(s.undos, span).Some? {
        var u := FindUndo(s.undos, span).value;
        UnwindNotices(e, s.(undos := s.undos[u := s.undos[u].(status := Compensated)]), s.undos[u].seqNo - 1);
      }
    case EvCompensationFailed(_, _) =>
    case EvSagaCompleted =>
    case EvSagaCompensated =>
    case EvSagaFailed =>
    case _ =>
      if FindRow(s.rows, ev.span).Some? { HandleRowNotices(r, e, s, FindRow(s.rows, ev.span).value, ev); }
  }

  lemma ResumeSpawnNotices(e: Env, s: Saga)
    ensures NoticesOk(s) ==> NoticesOk(ResumeSpawn(e, s))
    ensures Kept(s, ResumeSpawn(e, s))
  {
    if ResumableSpawn(e, s).Some? {
      var q := ResumableSpawn(e, s).value;
      UnwindNotices(e, AddSpawnUndo(s, q), q as int - 1);
    }
  }

  lemma OperatorSide(r: Rules, e: Env, s: Saga, op: Op)
    requires !op.OpIngest?
    ensures NoticeCompleted !in s.notices ==> NoticesOk(Step(r, e, s, op))
    ensures Step(r, e, s, op).blueprint == s.blueprint
    ensures Announced(s) ==> Announced(Step(r, e, s, op))
    ensures s.ingested - Clears(op) <= Step(r, e, s, op).ingested
    ensures !op.OpRetryStep? && !op.OpRetryForward? ==> Kept(Without(s, Clears(op)), Step(r, e, s, op))
  {
    hide Trigger, Unwind, FindRow, FindJoin;
    match op
    case OpRetryStep(span, _, _, _, _) =>
      if FindRow(s.rows, span).Some? {
        var i := FindRow(s.rows, span).value;
        TriggerNotices(r, e, s, i, None);
        TriggerNotices(r, e, ResetForRetry(s, i), i, None);
      }
    case OpRetryForward(span, _, _, _) =>
      if FindRow(s.rows, span).Some? {
        var i := FindRow(s.rows, span).value;
        TriggerNotices(r, e, ResetForRetry(s, i).(status := Running), i, None);
      }
    case OpStartCompensation(span) =>
      if FindRow(s.rows, span).Some? {
        var i := FindRow(s.rows, span).value;
        var start: int := if Dirty(s.rows[i]) then i else i as int - 1;
        UnwindNotices(e, s.(status := SagaCompensating, window := start), start);
      }
    case OpRetryCompensation(_, _, _) =>
    case OpChildTerminal =>
      var j := FindJoin(s.rows);
      if j.Some? { TriggerNotices(r, e, s, j.value, None); }
      ResumeSpawnNotices(e, PokeJoin(r, e, s));
  }


  lemma StepSide(r: Rules, e: Env, s: Saga, op: Op)
    ensures NoticeCompleted !in s.notices ==> NoticesOk(Step(r, e, s, op))
    ensures Step(r, e, s, op).blueprint == s.blueprint
    ensures Announced(s) ==> Announced(Step(r, e, s, op))
    ensures s.ingested - Clears(op) <= Step(r, e, s, op).ingested
    ensures op.OpIngest? ==> KeyOf(op.ev) in Step(r, e, s, op).ingested
    ensures !op.OpRetryStep? && !op.OpRetryForward? ==> Kept(Without(s, Clears(op)), Step(r, e, s, op))
  {
    if op.OpIngest? {
      hide Handle;
      HandleNotices(r, e, s.(ingested := s.ingested + {KeyOf(op.ev)}), op.ev);
    } else {
      hide Step, NoticesOk, Announced, Kept;
      OperatorSide(r, e, s, op);
    }
  }

  // ---- Terminal sagas

  predicate Settled(s: Saga) {
    s.status == SagaCompleted || s.status == SagaCompensated || s.status == SagaFailed
  }

  lemma RowsOfSettled(r: Rules, s: Saga)
    requires Inv(r, s) && Settled(s)
    ensures Quiet(s) && NonePending(s.rows)
    ensures s.status == SagaCompleted ==> forall i :: 0 <= i < |s.rows| ==> Done(s.rows[i].status)
    ensures forall u <- s.undos :: u.status == Compensated || (s.status == SagaFailed && u.status == Failed)
  {
    forall u | u in s.undos ensures u.status == Compensated || (s.status == SagaFailed && u.status == Failed) {
      var j :| 0 <= j < |s.undos| && s.undos[j] == u;
    }
  }

  /** COMPLETED and COMPENSATED sagas are never left, and FAILED only by a compensation
      retry: any other transaction changes nothing but the set of ingested keys. */
  lemma SettledInert(r: Rules, e: Env, s: Saga, op: Op)
    requires Inv(r, s) && NoticesOk(s) && InOrder(r, e, s, op) && Settled(s)
    requires s.status == SagaFailed ==> !op.OpRetryCompensation?
    ensures Step(r, e, s, op) == s.(ingested := Step(r, e, s, op).ingested)
  {
    hide Inv, Handle, Unwind;
    RowsOfSettled(r, s);
    match op
    case OpIngest(ev) =>
      if KeyOf(ev) !in s.ingested { SettledIgnores(r, e, s.(ingested := s.ingested + {KeyOf(ev)}), ev); }
    case OpRetryCompensation(span, claim, requeue) =>
    case OpChildTerminal => assert FindJoin(s.rows).None?;
    case _ =>
  }

  lemma SettledIgnores(r: Rules, e: Env, s: Saga, ev: Event)
    requires Quiet(s) && NonePending(s.rows) && NoticesOk(s) && EventInOrder(s, ev) && Settled(s)
    requires s.status == SagaCompleted ==> forall i :: 0 <= i < |s.rows| ==> Done(s.rows[i].status)
    requires forall u <- s.undos :: u.status == Compensated || (s.status == SagaFailed && u.status == Failed)
    ensures Handle(r, e, s, ev) == s
  {
    match ev
    case EvStepCompensated(span) =>
      if FindUndo(s.undos, span).Some? { assert s.undos[FindUndo(s.undos, span).value] in s.undos; }
    case _ =>
  }

  lemma StepNotices(r: Rules, e: Env, s: Saga, op: Op)
    requires Inv(r, s) && NoticesOk(s) && InOrder(r, e, s, op)
    ensures NoticesOk(Step(r, e, s, op))
  {
    if NoticeCompleted in s.notices { SettledInert(r, e, s, op); } else { StepSide(r, e, s, op); }
  }
}
