/** The desk through which humans answer held steps. A decision, approve or reject alike, is
    queued once per step; a retry once per request; both only while the step is held. What
    is queued reaches the saga some time later, any number of times. */
module HumanDesk {
  import opened SagaTypes
  import opened SagaSpec
  import opened ForwardPath
  import opened SagaInvariant
  import opened ChildWakeup
  import opened SagaRuns
  import opened SagaTheorems
  import opened Outbox
  import opened OutboxRuns
  import opened RowFrames
  import opened HumanRetries
  import opened HumanAnswers

  /** A retry request carries a token of its own. */
  datatype Ask = Ask(span: nat, token: nat)

  /** The saga with the human answers in the outbox: one decision per span, and retries. */
  datatype Desk = Desk(saga: Saga, decisions: map<nat, Event>, retries: map<Ask, Option<int>>)

  predicate IsDecision(ev: Event) { ev.EvHumanApproved? || ev.EvHumanRejected? }

  predicate HeldSpan(s: Saga, span: nat) {
    FindRow(s.rows, span).Some? && s.rows[FindRow(s.rows, span).value].status == AwaitingHuman
  }

  /** The first decision on a held step is queued; a later one finds it queued already. */
  function QueueDecision(d: Desk, ev: Event): Desk
    requires IsDecision(ev)
  {
    if ev.span in d.decisions || !HeldSpan(d.saga, ev.span) then d
    else d.(decisions := d.decisions[ev.span := ev])
  }

  function QueueRetry(d: Desk, ask: Ask, guidance: Option<int>): Desk {
    if ask in d.retries || !HeldSpan(d.saga, ask.span) || !RetryAllowed(d.saga.rows[FindRow(d.saga.rows, ask.span).value])
    then d
    else d.(retries := d.retries[ask := guidance])
  }

  /** Human answers come from the desk, all other events from elsewhere. */
  predicate Queued(d: Desk, ev: Event) {
    match ev
    case EvHumanApproved(span, _) => span in d.decisions && d.decisions[span] == ev
    case EvHumanRejected(span, _) => span in d.decisions && d.decisions[span] == ev
    case EvHumanRetry(span, guidance) => exists ask <- d.retries :: ask.span == span && d.retries[ask] == guidance
    case _ => true
  }

  datatype Call =
    | CallDecision(ev: Event)
    | CallRetry(ask: Ask, guidance: Option<int>)
    | CallOp(env: Env, op: Op)

  /** One transaction at the desk or on the saga. */
  function Serve(r: Rules, d: Desk, call: Call): Desk {
    match call
    case CallDecision(ev) => if IsDecision(ev) then QueueDecision(d, ev) else d
    case CallRetry(ask, guidance) => QueueRetry(d, ask, guidance)
    case CallOp(e, op) =>
      if op.OpIngest? && !Queued(d, op.ev) then d else d.(saga := Step(r, e, d.saga, op))
  }

  function ServeAll(r: Rules, d: Desk, calls: seq<Call>): Desk
    decreases |calls|
  {
    if calls == [] then d else ServeAll(r, Serve(r, d, calls[0]), calls[1..])
  }

  function Opened(bp: seq<Top>): Desk { Desk(Start(bp), map[], map[]) }

  ghost predicate CallInOrder(r: Rules, d: Desk, call: Call) {
    call.CallOp? ==> InOrder(r, call.env, d.saga, call.op)
  }

  ghost predicate CallsInOrder(r: Rules, d: Desk, calls: seq<Call>)
    decreases |calls|
  {
    calls != [] ==> CallInOrder(r, d, calls[0]) && CallsInOrder(r, Serve(r, d, calls[0]), calls[1..])
  }

  // ---- What has been answered was queued

  function Answered(kind: EventType, span: nat): IngestKey { IngestKey(kind, Some(span)) }

  predicate AnswersQueued(d: Desk, span: nat) {
    && (Answered(TypeHumanApproved, span) in d.saga.ingested ==>
          span in d.decisions && d.decisions[span].EvHumanApproved?)
    && (Answered(TypeHumanRejected, span) in d.saga.ingested ==>
          span in d.decisions && d.decisions[span].EvHumanRejected?)
    && (Answered(TypeHumanRetry, span) in d.saga.ingested ==> exists ask <- d.retries :: ask.span == span)
    && (span in d.decisions ==> IsDecision(d.decisions[span]) && d.decisions[span].span == span)
  }

  ghost predicate Tidy(d: Desk) { forall span :: AnswersQueued(d, span) }

  ghost predicate DeskInv(r: Rules, d: Desk) {
    Inv(r, d.saga) && NoticesOk(d.saga) && Outboxed(r, d.saga) && Tidy(d)
  }

  lemma OpTidy(r: Rules, d: Desk, e: Env, op: Op)
    requires Tidy(d) && (op.OpIngest? ==> Queued(d, op.ev))
    ensures Tidy(d.(saga := Step(r, e, d.saga, op)))
  {
    hide Step;
    StepAdds(r, e, d.saga, op);
    forall span ensures AnswersQueued(d.(saga := Step(r, e, d.saga, op)), span) {
      assert AnswersQueued(d, span);
    }
  }

  lemma QueueTidy(d: Desk, call: Call, r: Rules)
    requires Tidy(d) && !call.CallOp?
    ensures Tidy(Serve(r, d, call)) && Serve(r, d, call).saga == d.saga
  {
    forall span ensures AnswersQueued(Serve(r, d, call), span) {
      assert AnswersQueued(d, span);
      if Answered(TypeHumanRetry, span) in d.saga.ingested {
        var ask :| ask in d.retries && ask.span == span;
        assert ask in Serve(r, d, call).retries;
      }
    }
  }

  lemma ServeInv(r: Rules, d: Desk, call: Call)
    requires DeskInv(r, d) && CallInOrder(r, d, call)
    ensures DeskInv(r, Serve(r, d, call))
  {
    hide Inv, NoticesOk, Outboxed, Tidy, InOrder, Step;
    if call.CallOp? {
      if !(call.op.OpIngest? && !Queued(d, call.op.ev)) {
        StepInv(r, call.env, d.saga, call.op);
        StepNotices(r, call.env, d.saga, call.op);
        StepOutboxed(r, call.env, d.saga, call.op);
        OpTidy(r, d, call.env, call.op);
      }
    } else {
      QueueTidy(d, call, r);
    }
  }

  lemma {:induction false} ServeAllInv(r: Rules, d: Desk, calls: seq<Call>)
    requires DeskInv(r, d) && CallsInOrder(r, d, calls)
    ensures DeskInv(r, ServeAll(r, d, calls))
    decreases |calls|
  {
    if calls != [] {
      ServeInv(r, d, calls[0]);
      ServeAllInv(r, Serve(r, d, calls[0]), calls[1..]);
    }
  }

  lemma OpenedInv(r: Rules, bp: seq<Top>)
    requires WellFormed(bp)
    ensures DeskInv(r, Opened(bp))
  {
    StartInv(r, bp);
    StartOutboxed(r, bp);
    StartRows(bp);
    assert forall span :: AnswersQueued(Opened(bp), span);
  }

  /** Over any run of the desk at most one decision is ever taken for a step, approval or
      rejection, and it is the one that was queued first. */
  lemma OneDecision(r: Rules, bp: seq<Top>, calls: seq<Call>, span: nat)
    requires WellFormed(bp) && CallsInOrder(r, Opened(bp), calls)
    ensures var s := ServeAll(r, Opened(bp), calls).saga;
      !(Answered(TypeHumanApproved, span) in s.ingested && Answered(TypeHumanRejected, span) in s.ingested)
  {
    OpenedInv(r, bp);
    ServeAllInv(r, Opened(bp), calls);
    assert AnswersQueued(ServeAll(r, Opened(bp), calls), span);
  }

  // ---- What can still move a held step

  /** No decision was queued for the step, or the queued one was not taken yet. */
  predicate DecisionOpen(d: Desk, j: nat)
    requires j < |d.saga.rows|
  {
    var span := d.saga.rows[j].span;
    span !in d.decisions || KeyOf(d.decisions[span]) !in d.saga.ingested
  }

  predicate RetryOpen(d: Desk, j: nat)
    requires j < |d.saga.rows|
  {
    RetryAllowed(d.saga.rows[j]) && Answered(TypeHumanRetry, d.saga.rows[j].span) !in d.saga.ingested
  }

  /** The saga is as it was, but for dedup keys that were added. */
  predicate Still(s: Saga, s1: Saga) { s1 == s.(ingested := s1.ingested) && s.ingested <= s1.ingested }

  predicate FailureOf(op: Op, span: nat) { op.OpIngest? && op.ev.EvStepFailed? && op.ev.span == span }

  /** While row `j` is held, an answer for another row or one that comes too late, any other
      event and any operator call leave the saga as it is. */
  lemma HeldIgnoresEvent(r: Rules, e: Env, s: Saga, j: nat, ev: Event)
    requires Inv(r, s) && NoticesOk(s) && HeldAt(s, j) && EventInOrder(s, ev)
    requires HumanAnswer(ev) || ev.EvStepFailed? ==> ev.span != s.rows[j].span
    ensures Handle(r, e, s, ev) == s
  {
    ActiveIsLive(r, s, j);
    var outs, ctx := LiveRow(r, s, j);
    if HumanAnswer(ev) || ev.EvStepFailed? || ev.EvStepCompleted? {
      var f := FindRow(s.rows, ev.span);
      if f.Some? && f.value != j { assert Done(s.rows[f.value].status) || s.rows[f.value].status == Pending; }
    }
  }

  /** A saga with a held row waits, and nothing in it is running or undone. */
  lemma HeldWaits(r: Rules, s: Saga, j: nat)
    requires Inv(r, s) && HeldAt(s, j)
    ensures s.status == SagaAwaitingHuman && s.undos == []
    ensures forall i :: 0 <= i < |s.rows| ==> s.rows[i].status != InProgress
  {
    ActiveIsLive(r, s, j);
    var outs, ctx := LiveRow(r, s, j);
  }

  lemma HeldIgnoresOperators(r: Rules, e: Env, s: Saga, j: nat, op: Op)
    requires Inv(r, s) && HeldAt(s, j) && !op.OpIngest?
    ensures Step(r, e, s, op) == s
  {
    hide Inv, Trigger, Unwind, StartUnwind;
    HeldWaits(r, s, j);
    if op.OpChildTerminal? { assert FindJoin(s.rows).None?; }
  }

  /** An answer that comes too late. */
  lemma LateAnswerIgnored(r: Rules, e: Env, d: Desk, j: nat, ev: Event)
    requires DeskInv(r, d) && HeldAt(d.saga, j) && !DecisionOpen(d, j) && !RetryOpen(d, j)
    requires HumanAnswer(ev) && ev.span == d.saga.rows[j].span && Queued(d, ev)
    ensures Still(d.saga, Ingest(r, e, d.saga, ev))
  {
    hide Inv, Outboxed, NoticesOk;
    if ev.EvHumanRetry? { HumanRetryExact(r, e, d.saga, j, ev.guidance); }
  }

  lemma HeldOpIgnored(r: Rules, d: Desk, j: nat, e: Env, op: Op)
    requires DeskInv(r, d) && HeldAt(d.saga, j) && !DecisionOpen(d, j) && !RetryOpen(d, j)
    requires InOrder(r, e, d.saga, op) && (op.OpIngest? ==> Queued(d, op.ev)) && !FailureOf(op, d.saga.rows[j].span)
    ensures Still(d.saga, Step(r, e, d.saga, op))
  {
    hide Inv, Outboxed, NoticesOk, Handle, EventInOrder, Queued, DecisionOpen, RetryOpen;
    if !op.OpIngest? {
      HeldIgnoresOperators(r, e, d.saga, j, op);
    } else if HumanAnswer(op.ev) && op.ev.span == d.saga.rows[j].span {
      LateAnswerIgnored(r, e, d, j, op.ev);
    } else if KeyOf(op.ev) !in d.saga.ingested {
      var s0 := OnlyKeyAdded(d.saga, op.ev);
      SideIrrelevant(r, d.saga, s0);
      SideInOrder(d.saga, s0, op.ev);
      HeldIgnoresEvent(r, e, s0, j, op.ev);
    }
  }

  lemma SideInOrder(s: Saga, s0: Saga, ev: Event)
    requires s0 == s.(ingested := s0.ingested)
    ensures EventInOrder(s0, ev) <==> EventInOrder(s, ev)
    ensures NoticesOk(s0) <==> NoticesOk(s)
  {
  }

  ghost predicate NoFailureOf(calls: seq<Call>, span: nat) {
    forall i :: 0 <= i < |calls| && calls[i].CallOp? ==> !FailureOf(calls[i].op, span)
  }

  /** A held row for which decision and retry are spent stays held over any run in which no
      failure of the row is reported: no human, operator, worker or child moves the saga. */
  lemma {:induction false} HeldForGood(r: Rules, d: Desk, j: nat, calls: seq<Call>)
    requires DeskInv(r, d) && HeldAt(d.saga, j) && !DecisionOpen(d, j) && !RetryOpen(d, j)
    requires CallsInOrder(r, d, calls) && NoFailureOf(calls, d.saga.rows[j].span)
    ensures Still(d.saga, ServeAll(r, d, calls).saga)
    decreases |calls|
  {
    hide DeskInv, Step, InOrder, Queued;
    if calls != [] {
      var d1 := Serve(r, d, calls[0]);
      ServeInv(r, d, calls[0]);
      HeldCallIgnored(r, d, j, calls[0]);
      assert NoFailureOf(calls[1..], d.saga.rows[j].span);
      HeldForGood(r, d1, j, calls[1..]);
    }
  }

  lemma HeldCallIgnored(r: Rules, d: Desk, j: nat, call: Call)
    requires DeskInv(r, d) && HeldAt(d.saga, j) && !DecisionOpen(d, j) && !RetryOpen(d, j)
    requires CallInOrder(r, d, call) && (call.CallOp? ==> !FailureOf(call.op, d.saga.rows[j].span))
    ensures var d1 := Serve(r, d, call);
      Still(d.saga, d1.saga) && !DecisionOpen(d1, j) && !RetryOpen(d1, j)
  {
    hide DeskInv, Step, InOrder, Queued, HeldSpan;
    if call.CallOp? && (call.op.OpIngest? ==> Queued(d, call.op.ev)) { HeldOpIgnored(r, d, j, call.env, call.op); }
  }

  /** Calls humans can make, and the delivery of what they have queued. */
  predicate HumanCalls(calls: seq<Call>) {
    forall i :: 0 <= i < |calls| ==> calls[i].CallOp? ==> calls[i].op.OpIngest? && HumanAnswer(calls[i].op.ev)
  }

  lemma {:induction false} HumanCallsInOrder(r: Rules, d: Desk, calls: seq<Call>)
    requires HumanCalls(calls)
    ensures CallsInOrder(r, d, calls)
    decreases |calls|
  {
    if calls != [] {
      assert HumanCalls(calls[1..]);
      HumanCallsInOrder(r, Serve(r, d, calls[0]), calls[1..]);
    }
  }

  ghost predicate MovedBy(r: Rules, d: Desk, j: nat, calls: seq<Call>)
    requires j < |d.saga.rows|
  {
    var s1 := ServeAll(r, d, calls).saga;
    HumanCalls(calls) && j < |s1.rows| && s1.rows[j] != d.saga.rows[j]
  }

  function Delivery(ev: Event): Call { CallOp(CALM, OpIngest(ev)) }

  lemma DeliveredNow(r: Rules, d: Desk, ev: Event)
    requires Queued(d, ev)
    ensures ServeAll(r, d, [Delivery(ev)]).saga == Ingest(r, CALM, d.saga, ev)
  {
    assert [Delivery(ev)][1..] == [];
  }

  lemma DeliveredNext(r: Rules, d: Desk, call: Call, ev: Event)
    requires Queued(Serve(r, d, call), ev)
    ensures ServeAll(r, d, [call, Delivery(ev)]).saga == Ingest(r, CALM, Serve(r, d, call).saga, ev)
  {
    assert [call, Delivery(ev)][1..] == [Delivery(ev)];
    DeliveredNow(r, Serve(r, d, call), ev);
  }

  lemma RowsRemain(r: Rules, s: Saga, ev: Event)
    ensures |s.rows| <= |Ingest(r, CALM, s, ev).rows|
  {
    var i := IngestKeeps(r, CALM, s, ev);
  }

  /** A queued decision that was not taken yet moves the held row. */
  lemma DecisionMoves(r: Rules, d: Desk, j: nat, ev: Event)
    requires DeskInv(r, d) && HeldAt(d.saga, j) && IsDecision(ev) && ev.span == d.saga.rows[j].span
    requires KeyOf(ev) !in d.saga.ingested
    ensures !HeldAt(Ingest(r, CALM, d.saga, ev), j)
  {
    assert RowOk(r, d.saga.rows[j], d.saga.commands, d.saga.nextId);
    hide Inv, Ingest;
    if ev.EvHumanApproved? {
      ApprovalExact(r, CALM, d.saga, j, ev.override);
    } else {
      RejectionExact(r, CALM, d.saga, j, ev.err);
    }
  }

  /** Delivering `ev` changes row `j`. */
  predicate Changes(r: Rules, d: Desk, j: nat, ev: Event)
    requires j < |d.saga.rows|
  {
    var s1 := Ingest(r, CALM, d.saga, ev);
    j < |s1.rows| && s1.rows[j] != d.saga.rows[j]
  }

  lemma DecisionChanges(r: Rules, d: Desk, j: nat, ev: Event)
    requires DeskInv(r, d) && HeldAt(d.saga, j) && IsDecision(ev) && ev.span == d.saga.rows[j].span
    requires KeyOf(ev) !in d.saga.ingested
    ensures Changes(r, d, j, ev)
  {
    hide DeskInv, Ingest;
    DecisionMoves(r, d, j, ev);
    RowsRemain(r, d.saga, ev);
  }

  lemma RetryChanges(r: Rules, d: Desk, j: nat, g: Option<int>)
    requires DeskInv(r, d) && HeldAt(d.saga, j) && RetryOpen(d, j)
    ensures Changes(r, d, j, EvHumanRetry(d.saga.rows[j].span, g))
  {
    hide Inv, Outboxed, Tidy, Ingest;
    HumanRetryExact(r, CALM, d.saga, j, g);
  }

  /** Moving the row by one delivery, now or after one more call. */
  lemma MovedNow(r: Rules, d: Desk, j: nat, ev: Event)
    requires Queued(d, ev) && HumanAnswer(ev) && HeldAt(d.saga, j) && Changes(r, d, j, ev)
    ensures MovedBy(r, d, j, [Delivery(ev)])
  {
    hide Ingest;
    DeliveredNow(r, d, ev);
  }

  lemma MovedNext(r: Rules, d: Desk, j: nat, call: Call, ev: Event)
    requires !call.CallOp? && Queued(Serve(r, d, call), ev) && HumanAnswer(ev)
    requires Serve(r, d, call).saga == d.saga && HeldAt(d.saga, j) && Changes(r, d, j, ev)
    ensures MovedBy(r, d, j, [call, Delivery(ev)])
  {
    hide Ingest, Serve;
    DeliveredNext(r, d, call, ev);
  }

  lemma DeskFacts(r: Rules, d: Desk, j: nat)
    requires DeskInv(r, d) && HeldAt(d.saga, j)
    ensures AnswersQueued(d, d.saga.rows[j].span) && FindRow(d.saga.rows, d.saga.rows[j].span) == Some(j)
  {
    InvNumbered(r, d.saga);
    FindOwnRow(d.saga, j);
  }

  lemma OpenDecisionMoves(r: Rules, d: Desk, j: nat)
    requires DeskInv(r, d) && HeldAt(d.saga, j) && DecisionOpen(d, j)
    ensures exists calls :: MovedBy(r, d, j, calls)
  {
    hide DeskInv, Changes, MovedBy, FindRow;
    var span := d.saga.rows[j].span;
    DeskFacts(r, d, j);
    if span in d.decisions {
      DecisionChanges(r, d, j, d.decisions[span]);
      MovedNow(r, d, j, d.decisions[span]);
    } else {
      var ev := EvHumanRejected(span, None);
      DecisionChanges(r, d, j, ev);
      MovedNext(r, d, j, CallDecision(ev), ev);
    }
  }

  lemma OpenRetryMoves(r: Rules, d: Desk, j: nat)
    requires DeskInv(r, d) && HeldAt(d.saga, j) && RetryOpen(d, j)
    ensures exists calls :: MovedBy(r, d, j, calls)
  {
    hide DeskInv, Changes, MovedBy, FindRow;
    var span := d.saga.rows[j].span;
    DeskFacts(r, d, j);
    if ask :| ask in d.retries && ask.span == span {
      RetryChanges(r, d, j, d.retries[ask]);
      MovedNow(r, d, j, EvHumanRetry(span, d.retries[ask]));
    } else {
      RetryChanges(r, d, j, None);
      MovedNext(r, d, j, CallRetry(Ask(span, 0), None), EvHumanRetry(span, None));
    }
  }

  /** A held step can still be moved by humans, in whatever they ask and however often it is
      delivered, exactly when no decision was ever taken for it or its one retry is unspent. */
  lemma HeldRowAnswerable(r: Rules, d: Desk, j: nat)
    requires DeskInv(r, d) && HeldAt(d.saga, j)
    ensures (exists calls :: MovedBy(r, d, j, calls)) <==> DecisionOpen(d, j) || RetryOpen(d, j)
  {
    if DecisionOpen(d, j) {
      OpenDecisionMoves(r, d, j);
    } else if RetryOpen(d, j) {
      OpenRetryMoves(r, d, j);
    } else {
      forall calls | HumanCalls(calls) ensures !MovedBy(r, d, j, calls) {
        HumanCallsInOrder(r, d, calls);
        HeldForGood(r, d, j, calls);
      }
    }
  }

  /** The same over runs from the start of a saga. */
  lemma HeldStepAnswerable(r: Rules, bp: seq<Top>, calls: seq<Call>, j: nat)
    requires WellFormed(bp) && CallsInOrder(r, Opened(bp), calls) && HeldAt(ServeAll(r, Opened(bp), calls).saga, j)
    ensures var d := ServeAll(r, Opened(bp), calls);
      (exists more :: MovedBy(r, d, j, more)) <==> DecisionOpen(d, j) || RetryOpen(d, j)
  {
    OpenedInv(r, bp);
    ServeAllInv(r, Opened(bp), calls);
    HeldRowAnswerable(r, ServeAll(r, Opened(bp), calls), j);
  }

  lemma HeldSpanIs(r: Rules, d: Desk, j: nat)
    requires DeskInv(r, d) && j < |d.saga.rows|
    ensures FindRow(d.saga.rows, d.saga.rows[j].span) == Some(j)
  {
    InvNumbered(r, d.saga);
    FindOwnRow(d.saga, j);
  }

  /** A call for a decision is queued exactly when the step is held and none was ever queued
      for it; then it takes effect when it is delivered, as it was given. */
  lemma NewDecisionExact(r: Rules, d: Desk, j: nat, ev: Event)
    requires DeskInv(r, d) && j < |d.saga.rows| && IsDecision(ev) && ev.span == d.saga.rows[j].span
    ensures QueueDecision(d, ev) != d <==> d.saga.rows[j].status == AwaitingHuman && ev.span !in d.decisions
    ensures QueueDecision(d, ev) != d ==>
      var s1 := ServeAll(r, d, [CallDecision(ev), Delivery(ev)]).saga;
      s1 == Ingest(r, CALM, d.saga, ev) && !HeldAt(s1, j)
  {
    hide DeskInv, Ingest, FindRow;
    HeldSpanIs(r, d, j);
    if d.saga.rows[j].status == AwaitingHuman && ev.span !in d.decisions {
      DeskFacts(r, d, j);
      DecisionMoves(r, d, j, ev);
      DeliveredNext(r, d, CallDecision(ev), ev);
    }
  }

  /** A call for a retry is queued exactly when the step is held, below its limit, and the
      request is new; what is delivered carries the guidance that was given. */
  lemma NewRetryExact(r: Rules, d: Desk, j: nat, ask: Ask, guidance: Option<int>)
    requires DeskInv(r, d) && j < |d.saga.rows| && ask.span == d.saga.rows[j].span
    ensures var row := d.saga.rows[j];
      QueueRetry(d, ask, guidance) != d <==>
        && row.status == AwaitingHuman && ask !in d.retries
        && (row.lab.spec.hitl && row.lab.spec.hitlMax.Some? ==> row.retries < row.lab.spec.hitlMax.value)
    ensures QueueRetry(d, ask, guidance) != d ==>
      ServeAll(r, d, [CallRetry(ask, guidance), Delivery(EvHumanRetry(ask.span, guidance))]).saga
        == Ingest(r, CALM, d.saga, EvHumanRetry(ask.span, guidance))
  {
    hide DeskInv, Ingest, FindRow;
    HeldSpanIs(r, d, j);
    if QueueRetry(d, ask, guidance) != d {
      assert ask in QueueRetry(d, ask, guidance).retries && QueueRetry(d, ask, guidance).retries[ask] == guidance;
      DeliveredNext(r, d, CallRetry(ask, guidance), EvHumanRetry(ask.span, guidance));
    }
  }
}
