/** Runs of the desk in which humans ask for what is documented and do not get it. */
module HumanRuns {
  import opened SagaTypes
  import opened SagaSpec
  import opened ForwardPath
  import opened SagaRuns
  import opened SagaTheorems
  import opened SagaLimits
  import opened HumanRetries
  import opened HumanAnswers
  import opened HumanDesk

  // ---- Building a run call by call

  ghost predicate Leads(bp: seq<Top>, calls: seq<Call>, d: Desk) {
    CallsInOrder(OPEN, Opened(bp), calls) && ServeAll(OPEN, Opened(bp), calls) == d
  }

  lemma {:induction false} ServeOneMore(d: Desk, calls: seq<Call>, call: Call)
    requires CallsInOrder(OPEN, d, calls) && CallInOrder(OPEN, ServeAll(OPEN, d, calls), call)
    ensures CallsInOrder(OPEN, d, calls + [call])
    ensures ServeAll(OPEN, d, calls + [call]) == Serve(OPEN, ServeAll(OPEN, d, calls), call)
    decreases |calls|
  {
    hide Serve, CallInOrder;
    if calls == [] {
      assert [] + [call] == [call] && [call][1..] == [];
    } else {
      assert (calls + [call])[0] == calls[0] && (calls + [call])[1..] == calls[1..] + [call];
      ServeOneMore(Serve(OPEN, d, calls[0]), calls[1..], call);
    }
  }

  lemma LeadsOn(bp: seq<Top>, calls: seq<Call>, d: Desk, call: Call)
    requires Leads(bp, calls, d) && CallInOrder(OPEN, d, call)
    ensures Leads(bp, calls + [call], Serve(OPEN, d, call))
  {
    hide Serve, CallInOrder;
    ServeOneMore(Opened(bp), calls, call);
  }

  function Do(op: Op): Call { CallOp(CALM, op) }

  // ---- Two blueprints of one reviewed step

  function Plan(kind: Kind, limit: nat): seq<Top> {
    [Exec(Spec("it", kind, false, false, true, true, Some(limit), 1, false))]
  }

  /** The one row of such a saga. */
  ghost predicate At(d: Desk, kind: Kind, limit: nat, status: SagaStatus, st: StepStatus, retries: nat) {
    var s := d.saga;
    && s.status == status && s.blueprint == Plan(kind, limit) && |s.rows| == 1
    && s.rows[0].span == 0 && s.rows[0].lab == Label(Plan(kind, limit)[0].spec, None)
    && s.rows[0].status == st && s.rows[0].retries == retries && s.rows[0].error.None?
  }

  lemma PlanOpens(kind: Kind, limit: nat)
    ensures At(Opened(Plan(kind, limit)), kind, limit, SagaPending, Pending, 0)
    ensures Opened(Plan(kind, limit)).saga.ingested == {} && Leads(Plan(kind, limit), [], Opened(Plan(kind, limit)))
  {
    assert TakeSegment(Plan(kind, limit), 1).labels == [];
  }

  /** A reason step goes to its worker, a commit is held at once. */
  lemma PlanStarts(d: Desk, kind: Kind, limit: nat)
    requires At(d, kind, limit, SagaPending, Pending, 0) && d.saga.ingested == {} && WorkerKind(kind)
    ensures var d1 := Serve(OPEN, d, Do(OpIngest(EvSagaStarted)));
      && (kind == Reason ==> At(d1, kind, limit, Running, InProgress, 0))
      && (kind == Commit ==> At(d1, kind, limit, SagaAwaitingHuman, AwaitingHuman, 0))
      && d1 == d.(saga := d1.saga) && d1.saga.ingested == {IngestKey(TypeSagaStarted, None)}
  {
    var s0 := d.saga.(ingested := d.saga.ingested + {IngestKey(TypeSagaStarted, None)}, status := Running);
    assert Go(OPEN, CALM, s0, 0) == Launch(s0, 0);
  }

  /** The worker's draft is held for review. */
  lemma DraftIsHeld(d: Desk, limit: nat, retries: nat)
    requires At(d, Reason, limit, Running, InProgress, retries)
    requires IngestKey(TypeStepCompleted, Some(0)) !in d.saga.ingested
    ensures var d1 := Serve(OPEN, d, Do(OpIngest(EvStepCompleted(0, FINE))));
      && At(d1, Reason, limit, SagaAwaitingHuman, AwaitingHuman, retries)
      && d1 == d.(saga := d1.saga) && d1.saga.ingested == d.saga.ingested + {IngestKey(TypeStepCompleted, Some(0))}
  {
    assert FindRow(d.saga.rows, 0) == Some(0);
  }

  const ASK: Ask := Ask(0, 0)
  const APPROVAL: Event := EvHumanApproved(0, None)
  const RETRY: Event := EvHumanRetry(0, None)

  lemma RetryIsQueued(d: Desk, kind: Kind, limit: nat)
    requires At(d, kind, limit, SagaAwaitingHuman, AwaitingHuman, 0) && 1 <= limit && d.retries == map[]
    ensures Serve(OPEN, d, CallRetry(ASK, None)) == d.(retries := map[ASK := None])
  {
    assert FindRow(d.saga.rows, 0) == Some(0);
  }

  lemma ApprovalIsQueued(d: Desk, kind: Kind, limit: nat)
    requires At(d, kind, limit, SagaAwaitingHuman, AwaitingHuman, 0) && d.decisions == map[]
    ensures Serve(OPEN, d, CallDecision(APPROVAL)) == d.(decisions := map[0 := APPROVAL])
  {
    assert FindRow(d.saga.rows, 0) == Some(0);
  }

  lemma DraftIsRetried(d: Desk, limit: nat)
    requires At(d, Reason, limit, SagaAwaitingHuman, AwaitingHuman, 0) && 1 <= limit && d.retries == map[ASK := None]
    requires KeyOf(RETRY) !in d.saga.ingested
    ensures var d1 := Serve(OPEN, d, Do(OpIngest(RETRY)));
      && At(d1, Reason, limit, Running, InProgress, 1)
      && d1 == d.(saga := d1.saga) && d1.saga.ingested == d.saga.ingested + {KeyOf(RETRY)} - ResultKeys(0)
  {
    assert FindRow(d.saga.rows, 0) == Some(0);
    assert ASK in d.retries;
  }

  /** A reviewed reason step: asked to be retried once while held, and held again. */
  function Drafting(): seq<Call> {
    [] + [Do(OpIngest(EvSagaStarted))] + [Do(OpIngest(EvStepCompleted(0, FINE)))]
    + [CallRetry(ASK, None)] + [Do(OpIngest(RETRY))]
  }

  function DraftingAgain(): seq<Call> { Drafting() + [Do(OpIngest(EvStepCompleted(0, FINE)))] }

  lemma DraftRuns(limit: nat) returns (d: Desk)
    requires 1 <= limit
    ensures Leads(Plan(Reason, limit), Drafting(), d) && At(d, Reason, limit, Running, InProgress, 1)
    ensures KeyOf(RETRY) in d.saga.ingested && IngestKey(TypeStepCompleted, Some(0)) !in d.saga.ingested
  {
    hide Leads, Serve;
    var bp := Plan(Reason, limit);
    var d0 := Opened(bp);
    var d1 := Serve(OPEN, d0, Do(OpIngest(EvSagaStarted)));
    var d2 := Serve(OPEN, d1, Do(OpIngest(EvStepCompleted(0, FINE))));
    var d3 := Serve(OPEN, d2, CallRetry(ASK, None));
    PlanOpens(Reason, limit);
    PlanStarts(d0, Reason, limit);
    DraftIsHeld(d1, limit, 0);
    RetryIsQueued(d2, Reason, limit);
    DraftIsRetried(d3, limit);
    LeadsOn(bp, [], d0, Do(OpIngest(EvSagaStarted)));
    LeadsOn(bp, [] + [Do(OpIngest(EvSagaStarted))], d1, Do(OpIngest(EvStepCompleted(0, FINE))));
    LeadsOn(bp, [] + [Do(OpIngest(EvSagaStarted))] + [Do(OpIngest(EvStepCompleted(0, FINE)))], d2, CallRetry(ASK, None));
    LeadsOn(bp, [] + [Do(OpIngest(EvSagaStarted))] + [Do(OpIngest(EvStepCompleted(0, FINE)))] + [CallRetry(ASK, None)],
            d3, Do(OpIngest(RETRY)));
    d := Serve(OPEN, d3, Do(OpIngest(RETRY)));
  }

  lemma DraftRunsAgain(limit: nat) returns (d: Desk)
    requires 1 <= limit
    ensures Leads(Plan(Reason, limit), DraftingAgain(), d)
    ensures At(d, Reason, limit, SagaAwaitingHuman, AwaitingHuman, 1) && KeyOf(RETRY) in d.saga.ingested
  {
    hide Leads, Serve;
    var d1 := DraftRuns(limit);
    DraftIsHeld(d1, limit, 1);
    LeadsOn(Plan(Reason, limit), Drafting(), d1, Do(OpIngest(EvStepCompleted(0, FINE))));
    d := Serve(OPEN, d1, Do(OpIngest(EvStepCompleted(0, FINE))));
  }

  // ---- A reviewed commit: approved and asked to be retried while it is held

  function Holding(): seq<Call> {
    [] + [Do(OpIngest(EvSagaStarted))] + [CallDecision(APPROVAL)] + [CallRetry(ASK, None)]
  }

  /** The approval is delivered first, so the retry meets a running step. Then the step fails
      and an operator takes it forward again, back to its review. */
  function HoldingAgain(): seq<Call> {
    Holding() + [Do(OpIngest(APPROVAL))] + [Do(OpIngest(RETRY))] + [Do(OpIngest(EvStepFailed(0, None)))]
    + [Do(OpRetryForward(0, false, false, ClaimFree))]
  }

  /** Both answers are queued. */
  predicate Both(d: Desk) { d.decisions == map[0 := APPROVAL] && d.retries == map[ASK := None] }

  lemma HoldingRuns(limit: nat) returns (d: Desk)
    requires 1 <= limit
    ensures Leads(Plan(Commit, limit), Holding(), d) && At(d, Commit, limit, SagaAwaitingHuman, AwaitingHuman, 0)
    ensures Both(d) && d.saga.ingested == {IngestKey(TypeSagaStarted, None)}
  {
    hide Leads, Serve;
    var bp := Plan(Commit, limit);
    var d0 := Opened(bp);
    var d1 := Serve(OPEN, d0, Do(OpIngest(EvSagaStarted)));
    var d2 := Serve(OPEN, d1, CallDecision(APPROVAL));
    PlanOpens(Commit, limit);
    PlanStarts(d0, Commit, limit);
    ApprovalIsQueued(d1, Commit, limit);
    RetryIsQueued(d2, Commit, limit);
    LeadsOn(bp, [], d0, Do(OpIngest(EvSagaStarted)));
    LeadsOn(bp, [] + [Do(OpIngest(EvSagaStarted))], d1, CallDecision(APPROVAL));
    LeadsOn(bp, [] + [Do(OpIngest(EvSagaStarted))] + [CallDecision(APPROVAL)], d2, CallRetry(ASK, None));
    d := Serve(OPEN, d2, CallRetry(ASK, None));
  }

  lemma PaymentIsApproved(d: Desk, limit: nat)
    requires At(d, Commit, limit, SagaAwaitingHuman, AwaitingHuman, 0) && Both(d) && KeyOf(APPROVAL) !in d.saga.ingested
    ensures var d1 := Serve(OPEN, d, Do(OpIngest(APPROVAL)));
      && At(d1, Commit, limit, Running, InProgress, 0)
      && d1 == d.(saga := d1.saga) && d1.saga.ingested == d.saga.ingested + {KeyOf(APPROVAL)}
  {
    assert FindRow(d.saga.rows, 0) == Some(0);
  }

  lemma RetryComesLate(d: Desk, limit: nat)
    requires At(d, Commit, limit, Running, InProgress, 0) && Both(d)
    ensures Serve(OPEN, d, Do(OpIngest(RETRY))).saga == OnlyKeyAdded(d.saga, RETRY)
    ensures Both(Serve(OPEN, d, Do(OpIngest(RETRY))))
  {
    assert FindRow(d.saga.rows, 0) == Some(0);
    assert ASK in d.retries;
    if KeyOf(RETRY) in d.saga.ingested { assert d.saga.ingested + {KeyOf(RETRY)} == d.saga.ingested; }
  }

  lemma PaymentFails(d: Desk, limit: nat)
    requires At(d, Commit, limit, Running, InProgress, 0) && IngestKey(TypeStepFailed, Some(0)) !in d.saga.ingested
    ensures var d1 := Serve(OPEN, d, Do(OpIngest(EvStepFailed(0, None))));
      && At(d1, Commit, limit, AwaitingRecovery, Failed, 0)
      && d1 == d.(saga := d1.saga) && d.saga.ingested <= d1.saga.ingested
    ensures CallInOrder(OPEN, d, Do(OpIngest(EvStepFailed(0, None))))
  {
    assert FindRow(d.saga.rows, 0) == Some(0);
  }

  lemma PaymentIsHeldAgain(d: Desk, limit: nat)
    requires At(d, Commit, limit, AwaitingRecovery, Failed, 0)
    ensures var d1 := Serve(OPEN, d, Do(OpRetryForward(0, false, false, ClaimFree)));
      && At(d1, Commit, limit, SagaAwaitingHuman, AwaitingHuman, 0)
      && d1 == d.(saga := d1.saga) && d1.saga.ingested == d.saga.ingested - ResultKeys(0)
  {
    assert FindRow(d.saga.rows, 0) == Some(0);
  }

  lemma HoldingRunsAgain(limit: nat) returns (d: Desk)
    requires 1 <= limit
    ensures Leads(Plan(Commit, limit), HoldingAgain(), d)
    ensures At(d, Commit, limit, SagaAwaitingHuman, AwaitingHuman, 0) && Both(d)
    ensures KeyOf(APPROVAL) in d.saga.ingested && KeyOf(RETRY) in d.saga.ingested
  {
    hide Leads, Serve;
    var bp := Plan(Commit, limit);
    var d0 := HoldingRuns(limit);
    var d1 := Serve(OPEN, d0, Do(OpIngest(APPROVAL)));
    var d2 := Serve(OPEN, d1, Do(OpIngest(RETRY)));
    var d3 := Serve(OPEN, d2, Do(OpIngest(EvStepFailed(0, None))));
    PaymentIsApproved(d0, limit);
    RetryComesLate(d1, limit);
    PaymentFails(d2, limit);
    PaymentIsHeldAgain(d3, limit);
    var calls := Holding();
    LeadsOn(bp, calls, d0, Do(OpIngest(APPROVAL)));
    calls := calls + [Do(OpIngest(APPROVAL))];
    LeadsOn(bp, calls, d1, Do(OpIngest(RETRY)));
    calls := calls + [Do(OpIngest(RETRY))];
    LeadsOn(bp, calls, d2, Do(OpIngest(EvStepFailed(0, None))));
    calls := calls + [Do(OpIngest(EvStepFailed(0, None)))];
    LeadsOn(bp, calls, d3, Do(OpRetryForward(0, false, false, ClaimFree)));
    d := Serve(OPEN, d3, Do(OpRetryForward(0, false, false, ClaimFree)));
  }

  // ---- What humans are refused

  /** After the run row 0 is held, has used `used` retries of its limit, and every further
      request for one is ignored. */
  ghost predicate RefusedAfter(kind: Kind, limit: nat, used: nat, calls: seq<Call>) {
    exists d :: Leads(Plan(kind, limit), calls, d)
      && At(d, kind, limit, SagaAwaitingHuman, AwaitingHuman, used)
      && forall e, g :: Ingest(OPEN, e, d.saga, EvHumanRetry(0, g)) == d.saga
  }

  /** Documented are `hitl_max_retries` retries, granted while the step is held. With a limit
      of 2 or more the second one is refused; and if a request meets a step that was approved
      in the meantime, even the first one is, should the step come back to its review. */
  lemma RetriesRefused(limit: nat)
    ensures limit >= 2 ==> exists calls :: RefusedAfter(Reason, limit, 1, calls)
    ensures limit >= 1 ==> exists calls :: RefusedAfter(Commit, limit, 0, calls)
  {
    hide Leads;
    if limit >= 2 {
      var d := DraftRunsAgain(limit);
      assert RefusedAfter(Reason, limit, 1, DraftingAgain());
    }
    if limit >= 1 {
      var d := HoldingRunsAgain(limit);
      assert RefusedAfter(Commit, limit, 0, HoldingAgain());
    }
  }

  lemma PlanWellFormed(kind: Kind, limit: nat)
    ensures WellFormed(Plan(kind, limit))
  {
    assert StepIds(Plan(kind, limit)) == ["it"] by { assert Plan(kind, limit)[1..] == []; }
  }

  /** The commit is held for review, with a retry left by its own count, and nothing humans
      can ask for will ever move it. */
  ghost predicate Unapprovable(calls: seq<Call>) {
    exists d :: Leads(Plan(Commit, 1), calls, d)
      && At(d, Commit, 1, SagaAwaitingHuman, AwaitingHuman, 0)
      && !exists more :: MovedBy(OPEN, d, 0, more)
  }

  /** A commit that was approved, failed and was taken forward by an operator is held again,
      but its one decision was spent, and so was its one retry. */
  lemma ApprovalRefused()
    ensures exists calls :: Unapprovable(calls)
  {
    hide ServeAll, CallsInOrder, MovedBy, WellFormed;
    var d := HoldingRunsAgain(1);
    PlanWellFormed(Commit, 1);
    HeldStepAnswerable(OPEN, Plan(Commit, 1), HoldingAgain(), 0);
    assert Unapprovable(HoldingAgain());
  }

  // ---- Which limits can be used up

  lemma {:induction false} DeskSpends(d: Desk, calls: seq<Call>)
    requires RetriesSpent(d.saga)
    ensures RetriesSpent(ServeAll(OPEN, d, calls).saga)
    decreases |calls|
  {
    hide RetriesSpent, Step;
    if calls != [] {
      if calls[0].CallOp? { StepSpends(OPEN, calls[0].env, d.saga, calls[0].op); }
      DeskSpends(Serve(OPEN, d, calls[0]), calls[1..]);
    }
  }

  ghost predicate UsesUp(limit: nat, calls: seq<Call>) {
    exists row <- ServeAll(OPEN, Opened(Plan(Reason, limit)), calls).saga.rows :: row.retries == limit
  }

  /** A limit can be used up exactly when it is 0 or 1. */
  lemma LimitReachable(limit: nat)
    ensures (exists calls :: UsesUp(limit, calls)) <==> limit <= 1
  {
    PlanOpens(Reason, limit);
    if limit >= 2 {
      forall calls ensures !UsesUp(limit, calls) { DeskSpends(Opened(Plan(Reason, limit)), calls); }
    } else if limit == 1 {
      var d := DraftRuns(1);
      assert d.saga.rows[0] in d.saga.rows;
      assert UsesUp(1, Drafting());
    } else {
      var d := Opened(Plan(Reason, 0));
      assert d.saga.rows[0] in ServeAll(OPEN, d, []).saga.rows;
      assert UsesUp(0, []);
    }
  }
}
