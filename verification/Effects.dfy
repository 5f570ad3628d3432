/** What one transaction does to the row it names, exactly: when a report, an answer or an
    operator's call takes effect, and what comes of it. Everything else leaves the saga alone. */
module Effects {
  import opened SagaTypes
  import opened SagaSpec
  import opened ForwardPath
  import opened Compensation
  import opened Scheduling
  import opened SagaInvariant
  import opened SagaRuns
  import opened HumanRetries
  import opened Walks
  import opened Outcomes
  import opened Departures

  /** The saga with the delivery of an event noted. */
  function Heard(s: Saga, t: EventType, span: nat): Saga {
    s.(ingested := s.ingested + {IngestKey(t, Some(span))})
  }

  predicate New(s: Saga, t: EventType, span: nat) { IngestKey(t, Some(span)) !in s.ingested }

  lemma HeardInv(r: Rules, s: Saga, t: EventType, span: nat)
    requires Inv(r, s)
    ensures Inv(r, Heard(s, t, span)) && Numbered(Heard(s, t, span))
  {
    SideIrrelevant(r, s, Heard(s, t, span));
  }

  lemma HeardTwice(s: Saga, t: EventType, span: nat)
    requires !New(s, t, span)
    ensures Heard(s, t, span) == s
  {
    assert s.ingested + {IngestKey(t, Some(span))} == s.ingested;
  }

  // ---- A worker's reports

  /** A reported output is checked against the schema, that of a reasoning step also against
      its policy; then it is recorded, or held for a human if the step is reviewed. */
  ghost predicate Accepts(r: Rules, e: Env, s: Saga, s1: Saga, i: nat, p: Payload)
    requires i < |s.rows|
  {
    var row := s.rows[i];
    var reason := row.lab.spec.kind == Reason;
    var objection :=
      if r.schema(row.lab, p).Some? then r.schema(row.lab, p)
      else if reason && row.lab.spec.hasPolicy then r.gate(row.lab, row.args, Some(p))
      else None;
    if objection.Some? then FailsWith(e, s, s1, i, objection)
    else if reason && row.lab.spec.hitl then
      s1 == s.(rows := s.rows[i := row.(status := AwaitingHuman, held := HeldOutput(p))], status := SagaAwaitingHuman)
    else Records(e, s, s1, i, p)
  }

  /** STEP_COMPLETED counts exactly for a running row, and once. */
  lemma CompletionExact(r: Rules, e: Env, s: Saga, i: nat, p: Payload)
    requires Inv(r, s) && i < |s.rows|
    ensures var span := s.rows[i].span;
      var s0, s1 := Heard(s, TypeStepCompleted, span), Ingest(r, e, s, EvStepCompleted(span, p));
      if New(s, TypeStepCompleted, span) && s.rows[i].status == InProgress then Accepts(r, e, s0, s1, i, p) else s1 == s0
  {
    hide FailsWith, Records, FailStep, Resume, Inv;
    var s0 := Heard(s, TypeStepCompleted, s.rows[i].span);
    HeardInv(r, s, TypeStepCompleted, s.rows[i].span);
    FindOwnRow(s0, i);
    if !New(s, TypeStepCompleted, s.rows[i].span) {
      HeardTwice(s, TypeStepCompleted, s.rows[i].span);
    } else if s.rows[i].status == InProgress {
      ActiveIsLive(r, s0, i);
      var outs, ctx := LiveRow(r, s0, i);
      CompletionAccepted(r, e, s0, i, p, outs, ctx);
    }
  }

  lemma CompletionAccepted(r: Rules, e: Env, s: Saga, i: nat, p: Payload, outs: seq<Entry>, ctx: Context)
    requires i < |s.rows| && Working(r, s, i, outs, ctx) && s.rows[i].error.None?
    requires s.status == Running && s.rows[i].status == InProgress
    ensures Accepts(r, e, s, OnStepCompleted(r, e, s, i, p), i, p)
  {
    hide FailsWith, Records, FailStep, Resume;
    var row := s.rows[i];
    FailStepFails(e, s, i, r.schema(row.lab, p));
    ResumeRecords(r, e, s, i, p, outs, ctx);
    var err := r.gate(row.lab, row.args, Some(p));
    var s2 := WithRow(s, i, row.(error := err));
    assert Numbered(s2);
    FailStepFails(e, s2, i, err);
    SameFailure(e, s2, s, FailStep(e, s2, i, err), i, err);
  }

  /** STEP_FAILED counts exactly for a running or held row, and once. */
  lemma FailureExact(r: Rules, e: Env, s: Saga, i: nat, err: Option<Err>)
    requires Inv(r, s) && i < |s.rows|
    requires !New(s, TypeStepFailed, s.rows[i].span) || EventInOrder(s, EvStepFailed(s.rows[i].span, err))
    ensures var span := s.rows[i].span;
      var s0, s1 := Heard(s, TypeStepFailed, span), Ingest(r, e, s, EvStepFailed(span, err));
      if New(s, TypeStepFailed, span) && s.rows[i].status in {InProgress, AwaitingHuman} then FailsWith(e, s0, s1, i, err)
      else s1 == s0
  {
    hide FailsWith, FailStep, Inv, Numbered;
    var s0 := Heard(s, TypeStepFailed, s.rows[i].span);
    HeardInv(r, s, TypeStepFailed, s.rows[i].span);
    FindOwnRow(s0, i);
    FindOwnRow(s, i) by { InvNumbered(r, s); }
    if !New(s, TypeStepFailed, s.rows[i].span) {
      HeardTwice(s, TypeStepFailed, s.rows[i].span);
    } else if s.rows[i].status in {InProgress, AwaitingHuman} {
      ActiveIsLive(r, s0, i);
      var outs, ctx := LiveRow(r, s0, i);
      FailStepFails(e, s0, i, err);
    } else if s.status in {Running, SagaAwaitingHuman} {
      LiveHasNoTimedOut(r, s, i);
    } else if s.status in {SagaPending, SagaCompleted} {
      NoFailureBefore(r, s, i);
    }
  }

  /** A saga that is pending or complete has no timed-out row. */
  lemma NoFailureBefore(r: Rules, s: Saga, i: nat)
    requires Inv(r, s) && i < |s.rows| && (s.status == SagaPending || s.status == SagaCompleted)
    ensures s.rows[i].status != TimedOut
  {
  }

  // ---- A human's answers

  /** An approved commit goes out with the arguments it was held with. The output of any
      other held row is the one the human gave, or else the held one; it is checked against
      the schema again and recorded. */
  ghost predicate Approves(r: Rules, e: Env, s: Saga, s1: Saga, i: nat, given: Option<Payload>)
    requires i < |s.rows|
  {
    var row := s.rows[i];
    if row.lab.spec.kind == Commit then
      if row.lab.spec.toolCount != 1 then FailsWith(e, s, s1, i, Some(Err(false, false)))
      else Queues(s.(status := Running), s1, i, row.(status := InProgress, held := NoHold))
    else match given
      case Some(p) => Checked(r, e, s, s1, i, p)
      case None => if row.held.HeldOutput? then Checked(r, e, s, s1, i, row.held.output) else s1 == s
  }

  ghost predicate Checked(r: Rules, e: Env, s: Saga, s1: Saga, i: nat, p: Payload)
    requires i < |s.rows|
  {
    var objection := r.schema(s.rows[i].lab, p);
    if objection.Some? then FailsWith(e, s, s1, i, objection) else Records(e, s, s1, i, p)
  }

  /** HUMAN_APPROVED counts exactly for a held row, and once. */
  lemma ApprovalEffect(r: Rules, e: Env, s: Saga, i: nat, given: Option<Payload>)
    requires Inv(r, s) && i < |s.rows|
    ensures var span := s.rows[i].span;
      var s0, s1 := Heard(s, TypeHumanApproved, span), Ingest(r, e, s, EvHumanApproved(span, given));
      if New(s, TypeHumanApproved, span) && s.rows[i].status == AwaitingHuman then Approves(r, e, s0, s1, i, given)
      else s1 == s0
  {
    hide FailsWith, Records, FailStep, Resume, Inv;
    var s0 := Heard(s, TypeHumanApproved, s.rows[i].span);
    HeardInv(r, s, TypeHumanApproved, s.rows[i].span);
    FindOwnRow(s0, i);
    if !New(s, TypeHumanApproved, s.rows[i].span) {
      HeardTwice(s, TypeHumanApproved, s.rows[i].span);
    } else if s.rows[i].status == AwaitingHuman {
      ActiveIsLive(r, s0, i);
      var outs, ctx := LiveRow(r, s0, i);
      ApprovalTaken(r, e, s0, i, given, outs, ctx);
    }
  }

  lemma ApprovalTaken(r: Rules, e: Env, s: Saga, i: nat, given: Option<Payload>, outs: seq<Entry>, ctx: Context)
    requires i < |s.rows| && Working(r, s, i, outs, ctx) && s.rows[i].error.None?
    requires s.status == SagaAwaitingHuman && s.rows[i].status == AwaitingHuman
    ensures Approves(r, e, s, OnHumanApproved(r, e, s, i, given), i, given)
  {
    hide FailsWith, Records, FailStep, Resume;
    var row := s.rows[i];
    FailStepFails(e, s, i, Some(Err(false, false)));
    if row.lab.spec.kind != Commit && (given.Some? || row.held.HeldOutput?) {
      var p := if given.Some? then given.value else row.held.output;
      FailStepFails(e, s, i, r.schema(row.lab, p));
      ResumeRecords(r, e, s, i, p, outs, ctx);
    }
  }

  /** HUMAN_REJECTED counts exactly for a held row, and once: the row fails. */
  lemma RejectionEffect(r: Rules, e: Env, s: Saga, i: nat, err: Option<Err>)
    requires Inv(r, s) && i < |s.rows|
    ensures var span := s.rows[i].span;
      var s0, s1 := Heard(s, TypeHumanRejected, span), Ingest(r, e, s, EvHumanRejected(span, err));
      if New(s, TypeHumanRejected, span) && s.rows[i].status == AwaitingHuman then FailsWith(e, s0, s1, i, err)
      else s1 == s0
  {
    hide FailsWith, FailStep, Inv;
    var s0 := Heard(s, TypeHumanRejected, s.rows[i].span);
    HeardInv(r, s, TypeHumanRejected, s.rows[i].span);
    FindOwnRow(s0, i);
    if !New(s, TypeHumanRejected, s.rows[i].span) {
      HeardTwice(s, TypeHumanRejected, s.rows[i].span);
    } else if s.rows[i].status == AwaitingHuman {
      ActiveIsLive(r, s0, i);
      var outs, ctx := LiveRow(r, s0, i);
      FailStepFails(e, s0, i, err);
    }
  }

  /** Row `i` is made ready for another try: a new key that nobody has, no output, details or
      hold, and its worker may report again. */
  ghost predicate Renewed(s: Saga, s0: Saga, i: nat, counted: nat)
    requires i < |s.rows|
  {
    var row := s.rows[i];
    s0 == s.(
      rows := s.rows[i := row.(key := RetryKey(row.lab.spec.id, s.nextId), held := NoHold, output := None,
                               error := None, retries := row.retries + counted)],
      nextId := s.nextId + 1, status := Running, ctx := s0.ctx,
      ingested := s.ingested - {IngestKey(TypeStepCompleted, Some(row.span)), IngestKey(TypeStepFailed, Some(row.span))})
  }

  /** A human's retry: counted, in the unchanged context, with the human's guidance. */
  ghost predicate TriesAgain(r: Rules, e: Env, s: Saga, s1: Saga, i: nat, guidance: Option<int>)
    requires i < |s.rows|
  {
    exists s0 :: Renewed(s, s0, i, 1) && s0.ctx == s.ctx && Runs(r, e, s0, s1, i, guidance)
  }

  /** HUMAN_RETRY counts exactly for a held row below its limit, and once. */
  lemma HumanRetryEffect(r: Rules, e: Env, s: Saga, i: nat, guidance: Option<int>)
    requires Inv(r, s) && i < |s.rows|
    ensures var span, row := s.rows[i].span, s.rows[i];
      var s0, s1 := Heard(s, TypeHumanRetry, span), Ingest(r, e, s, EvHumanRetry(span, guidance));
      var limited := row.lab.spec.hitl && row.lab.spec.hitlMax.Some?;
      if New(s, TypeHumanRetry, span) && row.status == AwaitingHuman && (limited ==> row.retries < row.lab.spec.hitlMax.value)
      then TriesAgain(r, e, s0, s1, i, guidance)
      else s1 == s0
  {
    hide TriesAgain, Trigger, Inv, ResetForHumanRetry;
    var s0 := Heard(s, TypeHumanRetry, s.rows[i].span);
    HeardInv(r, s, TypeHumanRetry, s.rows[i].span);
    FindOwnRow(s0, i);
    if !New(s, TypeHumanRetry, s.rows[i].span) {
      HeardTwice(s, TypeHumanRetry, s.rows[i].span);
    } else if s.rows[i].status == AwaitingHuman {
      ActiveIsLive(r, s0, i);
      var outs, ctx := LiveRow(r, s0, i);
      HumanRetryTaken(r, e, s0, i, guidance, outs, ctx);
    }
  }

  lemma HumanRetryTaken(r: Rules, e: Env, s: Saga, i: nat, guidance: Option<int>, outs: seq<Entry>, ctx: Context)
    requires i < |s.rows| && Working(r, s, i, outs, ctx)
    ensures TriesAgain(r, e, s, Trigger(r, e, ResetForHumanRetry(s, i), i, guidance), i, guidance)
  {
    hide Runs, Trigger, Standing, Poised;
    var s2 := ResetForHumanRetry(s, i);
    HoldsStill(r, s, s2, i, outs, ctx);
    assert Numbered(s2);
    TriggerRuns(r, e, s2, i, guidance, outs, ctx);
    assert Renewed(s, s2, i, 1);
  }

  // ---- An operator's calls

  /** An operator's retry: not counted, without the step's old entry in the context. */
  ghost predicate StartsOver(r: Rules, e: Env, s: Saga, s1: Saga, i: nat)
    requires i < |s.rows|
  {
    exists s0 :: Renewed(s, s0, i, 0) && s0.ctx == s.ctx.(steps := s.ctx.steps - {s.rows[i].lab.spec.id})
      && Runs(r, e, s0, s1, i, None)
  }

  /** The worker may have left effects: nobody knows how far it got. */
  predicate Unclear(row: Row) {
    row.status == TimedOut || (row.error.Some? && row.error.value.crash)
  }

  /** A commit is not forced through unless destructive calls are allowed. */
  predicate ForcesCommit(row: Row, force: bool, allow: bool) {
    force && !allow && row.lab.spec.kind == Commit
  }

  lemma ResetStartsOver(r: Rules, e: Env, s: Saga, i: nat, outs: seq<Entry>, ctx: Context)
    requires i < |s.rows| && Working(r, s, i, outs, ctx)
    ensures StartsOver(r, e, s, Trigger(r, e, ResetForRetry(s, i).(status := Running), i, None), i)
  {
    hide Runs, Trigger;
    var s2 := ResetForRetry(s, i).(status := Running);
    ResetStill(r, s, i, outs, ctx);
    TriggerRuns(r, e, s2, i, None, outs, ctx);
    assert Renewed(s, s2, i, 0);
  }

  /** Retry-forward starts the failed row of a held saga over exactly when its effects are
      clear or destructive calls are allowed, no commit is forced without that, and no worker
      still has a claim; it is refused otherwise, and a refusal changes nothing. */
  lemma RetryForwardExact(r: Rules, e: Env, s: Saga, i: nat, force: bool, allow: bool, claim: Claim)
    requires Inv(r, s) && i < |s.rows|
    ensures var row := s.rows[i];
      var s1 := Step(r, e, s, OpRetryForward(row.span, force, allow, claim));
      if s.status == AwaitingRecovery && row.status in {Failed, TimedOut} && (Unclear(row) ==> allow)
         && !ForcesCommit(row, force, allow) && claim == ClaimFree
      then StartsOver(r, e, s, s1, i)
      else s1 == s
  {
    hide StartsOver, Trigger, Inv;
    InvNumbered(r, s);
    FindOwnRow(s, i);
    if HeldForRecovery(s, i) {
      var outs, ctx := LiveRow(r, s, i);
      ResetStartsOver(r, e, s, i, outs, ctx);
    }
  }

  /** The command of the row is queued once more, and its worker may report again. */
  ghost predicate Requeued(s: Saga, s1: Saga, i: nat)
    requires i < |s.rows|
  {
    var row := s.rows[i];
    s1 == s.(rows := s.rows[i := row.(output := None, error := None, held := NoHold)],
             ingested := s.ingested - {IngestKey(TypeStepCompleted, Some(row.span)), IngestKey(TypeStepFailed, Some(row.span))})
  }

  /** Retry-step acts on the running row of a running saga only. A join is looked at again, a
      spawn run again; a worker's step is refused if a commit is forced without leave or a
      worker has a claim, and otherwise its command is queued once more if the outbox still
      has it, or the row is started over. */
  lemma RetryStepExact(r: Rules, e: Env, s: Saga, i: nat, force: bool, allow: bool, claim: Claim, requeue: bool)
    requires Inv(r, s) && i < |s.rows|
    ensures var row := s.rows[i];
      var s1 := Step(r, e, s, OpRetryStep(row.span, force, allow, claim, requeue));
      if s.status != Running || row.status != InProgress then s1 == s
      else if row.lab.spec.kind in {SpawnSagas, JoinSagas} then Runs(r, e, s, s1, i, None)
      else if ForcesCommit(row, force, allow) || claim != ClaimFree then s1 == s
      else if requeue && row.key in s.commands then Requeued(s, s1, i)
      else StartsOver(r, e, s, s1, i)
  {
    hide StartsOver, Trigger, Inv, Runs, ResetForRetry, FindRow, Working;
    InvNumbered(r, s);
    FindOwnRow(s, i);
    if s.status == Running && s.rows[i].status == InProgress {
      var outs, ctx := LiveRow(r, s, i);
      RetryStepRuns(r, e, s, i, outs, ctx);
    }
  }

  lemma RetryStepRuns(r: Rules, e: Env, s: Saga, i: nat, outs: seq<Entry>, ctx: Context)
    requires i < |s.rows| && Working(r, s, i, outs, ctx) && s.status == Running && s.rows[i].status == InProgress
    requires s.rows[i].error.None?
    ensures StartsOver(r, e, s, Trigger(r, e, ResetForRetry(s, i), i, None), i)
    ensures Runs(r, e, s, Trigger(r, e, s, i, None), i, None)
    ensures s.rows[i].lab.spec.kind == JoinSagas && e.native(i).NativeWait? ==> Runs(r, e, s, s, i, None)
  {
    hide Trigger, StartsOver, Standing, Poised;
    ResetStartsOver(r, e, s, i, outs, ctx);
    assert ResetForRetry(s, i) == ResetForRetry(s, i).(status := Running);
    TriggerRuns(r, e, s, i, None, outs, ctx);
  }

  /** Start-compensation acts on the failed row of a held saga only. */
  lemma StartCompensationExact(r: Rules, e: Env, s: Saga, i: nat)
    requires Inv(r, s) && i < |s.rows|
    ensures var row := s.rows[i];
      var s1 := Step(r, e, s, OpStartCompensation(row.span));
      var from := if Unclear(row) then i else i - 1;
      if s.status != AwaitingRecovery || row.status !in {Failed, TimedOut} then s1 == s
      else if from < 0 then Ends(s, s1, SagaFailed, NoticeFailed)
      else WalksDown(e, s.(status := SagaCompensating, window := from), s1, from)
  {
    hide WalksDown, Inv, Unwind;
    InvNumbered(r, s);
    FindOwnRow(s, i);
    var from := if Unclear(s.rows[i]) then i else i - 1;
    var s2 := s.(status := SagaCompensating, window := from);
    assert Numbered(s2);
    if from >= 0 { UnwindWalks(e, s2, from); }
  }

  /** The undo is in flight again, and its worker may report again. */
  ghost predicate Reopened(s: Saga, s1: Saga, k: nat)
    requires k < |s.undos|
  {
    var u := s.undos[k];
    && s1 == s.(status := SagaCompensating, undos := s.undos[k := u.(status := Compensating)], commands := s1.commands,
                ingested := s.ingested - {IngestKey(TypeStepCompensated, Some(u.span)), IngestKey(TypeCompensationFailed, Some(u.span))})
    && u.key in s1.commands
    && (u.key in s.commands ==> s1.commands == s.commands)
    && (u.key !in s.commands ==> s1.commands == s.commands[u.key := DoUndo(u.span, u.forward)])
  }

  lemma FindOwnUndo(s: Saga, k: nat)
    requires Numbered(s) && k < |s.undos|
    ensures FindUndo(s.undos, s.undos[k].span) == Some(k)
  {
    assert FindUndo(s.undos, s.undos[k].span).Some?;
  }

  /** Retry-compensation reopens an undo that is not finished exactly when no worker has a
      claim and its command is still queued or can be built again. */
  lemma RetryCompensationExact(r: Rules, e: Env, s: Saga, k: nat, claim: Claim, requeue: bool)
    requires Inv(r, s) && k < |s.undos|
    ensures var u := s.undos[k];
      var s1 := Step(r, e, s, OpRetryCompensation(u.span, claim, requeue));
      if s.status in {SagaCompensating, SagaFailed} && u.status != Compensated && claim == ClaimFree
         && ((requeue && u.key in s.commands) || (0 <= u.seqNo && e.undoBuilds(u.seqNo)))
      then Reopened(s, s1, k)
      else s1 == s
  {
    hide Forward;
    InvNumbered(r, s);
    FindOwnUndo(s, k);
    assert 0 <= s.undos[k].seqNo && s.undos[k].status in {Compensating, Compensated, Failed} by { UndoKnown(r, s, k); }
  }

  lemma UndoKnown(r: Rules, s: Saga, k: nat)
    requires Inv(r, s) && k < |s.undos|
    ensures Winding(s.status) && 0 <= s.undos[k].seqNo < |s.rows| && s.undos[k].status in {Compensating, Compensated, Failed}
  {
    assert s.undos[k] in s.undos && Placed(s, s.undos[k]);
  }

  // ---- Undos, and children that end

  /** STEP_COMPENSATED counts exactly for an undo in flight: it is done, and the walk goes on
      at the row below. */
  lemma UndoReplyExact(r: Rules, e: Env, s: Saga, k: nat)
    requires Inv(r, s) && k < |s.undos|
    ensures var u := s.undos[k];
      var s0, s1 := Heard(s, TypeStepCompensated, u.span), Ingest(r, e, s, EvStepCompensated(u.span));
      if New(s, TypeStepCompensated, u.span) && u.status == Compensating
      then WalksDown(e, s0.(undos := s.undos[k := u.(status := Compensated)]), s1, u.seqNo - 1)
      else s1 == s0
  {
    hide WalksDown, Inv, Unwind, Numbered, FindUndo;
    var u := s.undos[k];
    InvNumbered(r, s);
    UndoKnown(r, s, k);
    if New(s, TypeStepCompensated, u.span) {
      var s0 := Heard(s, TypeStepCompensated, u.span);
      assert Numbered(s0) && FindUndo(s0.undos, u.span) == Some(k) by { HeardUndo(s, TypeStepCompensated, k); }
      WalkAfterReply(e, s0, k);
    } else {
      HeardTwice(s, TypeStepCompensated, u.span);
    }
  }

  lemma HeardUndo(s: Saga, t: EventType, k: nat)
    requires Numbered(s) && k < |s.undos|
    ensures Numbered(Heard(s, t, s.undos[k].span)) && FindUndo(s.undos, s.undos[k].span) == Some(k)
  {
    FindOwnUndo(s, k);
  }

  lemma WalkAfterReply(e: Env, s: Saga, k: nat)
    requires Numbered(s) && k < |s.undos| && 0 <= s.undos[k].seqNo
    ensures var u := s.undos[k];
      var s1 := s.(undos := s.undos[k := u.(status := Compensated)]);
      WalksDown(e, s1, Unwind(e, s1, u.seqNo - 1), u.seqNo - 1)
  {
    hide WalksDown, Unwind;
    var s1 := s.(undos := s.undos[k := s.undos[k].(status := Compensated)]);
    assert Numbered(s1);
    UnwindWalks(e, s1, s.undos[k].seqNo - 1);
  }

  /** COMPENSATION_FAILED about the undo in flight fails that undo and the saga. */
  lemma UndoFailureExact(r: Rules, e: Env, s: Saga, k: nat, err: Option<Err>)
    requires Inv(r, s) && k < |s.undos| && s.undos[k].status == Compensating
    ensures var u := s.undos[k];
      var s0, s1 := Heard(s, TypeCompensationFailed, u.span), Ingest(r, e, s, EvCompensationFailed(u.span, err));
      if New(s, TypeCompensationFailed, u.span)
      then Ends(s0.(undos := s.undos[k := u.(status := Failed)]), s1, SagaFailed, NoticeFailed)
      else s1 == s0
  {
    hide Inv, Numbered, FindUndo;
    var u := s.undos[k];
    InvNumbered(r, s);
    HeardUndo(s, TypeCompensationFailed, k);
    if !New(s, TypeCompensationFailed, u.span) { HeardTwice(s, TypeCompensationFailed, u.span); }
  }

  ghost predicate StartsRightly(r: Rules, e: Env, s: Saga, s1: Saga) {
    forall j :: 0 <= j < |s1.rows| && Waits(s, j) ==> Departed(r, e, s1, j)
  }

  /** A parked join is run again. */
  ghost predicate Woken(r: Rules, e: Env, s: Saga, s1: Saga) {
    && (forall i :: 0 <= i < |s.rows| && Parks(s, i) ==> Runs(r, e, s, s1, i, None))
    && ((forall i :: 0 <= i < |s.rows| ==> !Parks(s, i)) ==> s1 == s)
  }

  predicate Parks(s: Saga, i: nat)
    requires i < |s.rows|
  {
    s.rows[i].lab.spec.kind == JoinSagas && s.rows[i].status == InProgress
  }

  /** The highest spawn row that was started. */
  ghost predicate TopSpawn(s: Saga, q: nat) {
    && q < |s.rows| && Spawning(s, q) && Started(s.rows[q])
    && forall p :: q < p < |s.rows| && Spawning(s, p) ==> !Started(s.rows[p])
  }

  /** The undo of that spawn can be recorded: its children have ended, and it has none yet. */
  ghost predicate Resumable(e: Env, s: Saga, q: nat) {
    && s.status == SagaCompensating && TopSpawn(s, q) && e.childrenDone(q)
    && forall u <- s.undos :: u.forward == s.rows[q].span ==> u.status != Compensated
  }

  /** The undo of spawn row `q` is recorded, and the walk goes on at the row below. */
  ghost predicate ResumesAt(e: Env, s: Saga, s1: Saga, q: nat)
    requires q < |s.rows|
  {
    var row := s.rows[q];
    var u := Undo(s.nextId, row.span, q, Compensated, SpawnUndoKey(row.key));
    WalksDown(e, s.(undos := s.undos + [u], nextId := s.nextId + 1), s1, q - 1)
  }

  ghost predicate Resumed(e: Env, s: Saga, s1: Saga) {
    && (forall q: nat :: Resumable(e, s, q) ==> ResumesAt(e, s, s1, q))
    && ((forall q: nat :: !Resumable(e, s, q)) ==> s1 == s)
  }

  /** When a child ends, a parked join is looked at again, what that starts is started
      rightly, and then the walk that waits at the highest spawn goes on if all its children
      have ended. */
  lemma ChildEndExact(r: Rules, e: Env, s: Saga)
    requires Inv(r, s)
    ensures exists s0 :: Woken(r, e, s, s0) && StartsRightly(r, e, s, s0) && Resumed(e, s0, Step(r, e, s, OpChildTerminal))
  {
    hide Inv, Runs, ResumesAt, Trigger, Unwind, TopSpawn, PokeJoin, Departed;
    var s0 := PokeJoin(r, e, s);
    forall j | 0 <= j < |s0.rows| && Waits(s, j) ensures Departed(r, e, s0, j) { PokedDeparts(r, e, s, j); }
    PokeJoinInv(r, e, s);
    JoinWoken(r, e, s);
    InvNumbered(r, s0);
    SpawnResumed(e, s0);
  }

  lemma JoinWoken(r: Rules, e: Env, s: Saga)
    requires Inv(r, s)
    ensures Woken(r, e, s, PokeJoin(r, e, s))
  {
    hide Inv, Runs, Trigger;
    var f := FindJoin(s.rows);
    assert f.Some? ==> Parks(s, f.value);
    forall i | 0 <= i < |s.rows| && Parks(s, i) ensures Runs(r, e, s, PokeJoin(r, e, s), i, None) {
      ActiveIsLive(r, s, i);
      var outs, ctx := LiveRow(r, s, i);
      assert f == Some(i) by { ActiveIsAlone(r, s, i, f.value); }
      JoinRuns(r, e, s, i, outs, ctx);
    }
  }

  lemma ActiveIsAlone(r: Rules, s: Saga, i: nat, j: nat)
    requires Inv(r, s) && i < |s.rows| && j < |s.rows| && s.rows[i].status == InProgress && s.rows[j].status == InProgress
    ensures i == j
  {
    ActiveIsLive(r, s, i);
    var outs, ctx := LiveRow(r, s, i);
  }

  lemma JoinRuns(r: Rules, e: Env, s: Saga, i: nat, outs: seq<Entry>, ctx: Context)
    requires i < |s.rows| && Working(r, s, i, outs, ctx) && Parks(s, i) && s.status == Running && s.rows[i].error.None?
    ensures Runs(r, e, s, if e.native(i).NativeWait? then s else Trigger(r, e, s, i, None), i, None)
  {
    hide Trigger, Standing, Poised;
    TriggerRuns(r, e, s, i, None, outs, ctx);
  }

  lemma SpawnResumed(e: Env, s: Saga)
    requires Numbered(s)
    ensures Resumed(e, s, ResumeSpawn(e, s))
  {
    hide WalksDown, Unwind;
    var pick := HighestSpawn(s.rows);
    forall q: nat | TopSpawn(s, q) ensures pick == Some(q) {
      assert s.rows[q].lab.spec.kind == SpawnSagas && Eligible(s.rows[q].status);
    }
    if ResumableSpawn(e, s).Some? {
      var q := pick.value;
      assert TopSpawn(s, q) && Resumable(e, s, q);
      NumberedSpawnUndo(s, q);
      UnwindWalks(e, AddSpawnUndo(s, q), q as int - 1);
    }
  }

  /** SAGA_STARTED counts exactly for a pending saga, and once. */
  lemma StartExact(r: Rules, e: Env, s: Saga)
    requires Inv(r, s)
    ensures var s0 := s.(ingested := s.ingested + {IngestKey(TypeSagaStarted, None)});
      var s1 := Ingest(r, e, s, EvSagaStarted);
      if s.status == SagaPending && IngestKey(TypeSagaStarted, None) !in s.ingested then s1.status != SagaPending
      else s1 == s0
  {
    hide Inv, Go, Settle;
    var s0 := s.(ingested := s.ingested + {IngestKey(TypeSagaStarted, None)});
    assert IngestKey(TypeSagaStarted, None) in s.ingested ==> s0 == s;
    if s.status == SagaPending {
      SideIrrelevant(r, s, s0);
      StartLeavesPending(r, e, s0);
    }
  }

  lemma StartLeavesPending(r: Rules, e: Env, s: Saga)
    requires Inv(r, s) && s.status == SagaPending
    ensures var s1 := s.(status := Running); Settle(r, e, Go(r, e, s1, 0), None).status != SagaPending
  {
    hide Standing, Tallied, Settle, Go;
    var s1 := s.(status := Running);
    GoStops(r, e, s1, 0);
    GoStopsRightly(r, e, s1, 0, 0);
    SettleLeavesPending(r, e, s1, Go(r, e, s1, 0));
  }

  lemma SettleLeavesPending(r: Rules, e: Env, s: Saga, stop: Stop)
    requires Numbered(s) && Stopped(s, stop) && StopIn(stop) && StopsRightly(r, e, stop)
    ensures Settle(r, e, stop, None).status != SagaPending
  {
    hide FailStep, Dispatch, Unwind, FailsWith, WalksDown, Launches, Poised;
    GrownNumbered(s, stop.s);
    match stop
    case Finished(_) =>
    case Parked(_, _) =>
    case Launch(t, i) =>
      DispatchLaunches(r, e, t, i, None);
      LaunchGoesOn(r, e, t, Dispatch(r, e, t, i, None), i);
    case Faulted(t, i, err) =>
      FailStepFails(e, t, i, err);
      FailureMarks(e, t, FailStep(e, t, i, err), i, err);
    case LoopFailed(t, i) =>
      var row := t.rows[i];
      var t1 := WithRow(t, i, row.(error := if row.error.Some? then row.error else Some(Err(false, false))));
      var t2 := t1.(status := SagaCompensating, window := i);
      assert Numbered(t2);
      UnwindWalks(e, t2, i);
      WalkEnds(e, t2, Unwind(e, t2, i), i);
  }

  lemma LaunchGoesOn(r: Rules, e: Env, s: Saga, s1: Saga, i: nat)
    requires i < |s.rows| && Launches(r, e, s, s1, i, None) && s.status == Running
    ensures s1.status != SagaPending
  {
  }

  lemma WalkEnds(e: Env, s: Saga, s1: Saga, from: int)
    requires WalksDown(e, s, s1, from)
    ensures s1.status in {s.status, SagaCompensated, SagaFailed}
  {
  }
}
