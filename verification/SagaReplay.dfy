/** Redelivery: removing events whose dedup key was already ingested changes nothing. */
module SagaReplay {
  import opened SagaTypes
  import opened SagaSpec
  import opened SagaRuns

  predicate SameKind(a: Event, b: Event) {
    && (a.EvSagaStarted? <==> b.EvSagaStarted?)
    && (a.EvStepCompleted? <==> b.EvStepCompleted?)
    && (a.EvStepFailed? <==> b.EvStepFailed?)
    && (a.EvStepCompensated? <==> b.EvStepCompensated?)
    && (a.EvCompensationFailed? <==> b.EvCompensationFailed?)
    && (a.EvHumanApproved? <==> b.EvHumanApproved?)
    && (a.EvHumanRejected? <==> b.EvHumanRejected?)
    && (a.EvHumanRetry? <==> b.EvHumanRetry?)
    && (a.EvSagaCompleted? <==> b.EvSagaCompleted?)
    && (a.EvSagaCompensated? <==> b.EvSagaCompensated?)
    && (a.EvSagaFailed? <==> b.EvSagaFailed?)
  }

  /** The events about the saga as a whole. */
  predicate SagaLevel(ev: Event) {
    ev.EvSagaStarted? || ev.EvSagaCompleted? || ev.EvSagaCompensated? || ev.EvSagaFailed?
  }

  /** Two deliveries count as one event exactly when they are of one kind and about one span,
      whatever else they say. */
  lemma SameEventExact(a: Event, b: Event)
    ensures KeyOf(a) == KeyOf(b) <==> SameKind(a, b) && (SagaLevel(a) || a.span == b.span)
  {
  }

  /** A run without the deliveries whose key is in `seen`: keys of the events kept are
      added, and the keys that a retry may clear are taken out again. */
  function Deduplicated(seen: set<IngestKey>, actions: seq<Action>): (kept: seq<Action>)
    ensures |kept| <= |actions|
    decreases |actions|
  {
    if actions == [] then []
    else
      var op := actions[0].op;
      if op.OpIngest? && KeyOf(op.ev) in seen then Deduplicated(seen, actions[1..])
      else
        var own := if op.OpIngest? then {KeyOf(op.ev)} else {};
        [actions[0]] + Deduplicated(seen - Clears(op) + own, actions[1..])
  }

  lemma {:induction false} DuplicatesVanish(r: Rules, s: Saga, seen: set<IngestKey>, actions: seq<Action>)
    requires seen <= s.ingested
    ensures Run(r, s, Deduplicated(seen, actions)) == Run(r, s, actions)
    decreases |actions|
  {
    if actions != [] {
      var a := actions[0];
      if a.op.OpIngest? && KeyOf(a.op.ev) in seen {
        DuplicatesVanish(r, s, seen, actions[1..]);
      } else {
        var own := if a.op.OpIngest? then {KeyOf(a.op.ev)} else {};
        var s1 := Step(r, a.env, s, a.op);
        StepSide(r, a.env, s, a.op);
        DuplicatesVanish(r, s1, seen - Clears(a.op) + own, actions[1..]);
        var rest := Deduplicated(seen - Clears(a.op) + own, actions[1..]);
        assert ([a] + rest)[0] == a && ([a] + rest)[1..] == rest;
      }
    }
  }

  /** Over any run, from any state, duplicate deliveries can be dropped. */
  lemma RedeliveryIsHarmless(r: Rules, s: Saga, actions: seq<Action>)
    ensures Run(r, s, Deduplicated({}, actions)) == Run(r, s, actions)
    ensures Run(r, s, Deduplicated(s.ingested, actions)) == Run(r, s, actions)
  {
    DuplicatesVanish(r, s, {}, actions);
    DuplicatesVanish(r, s, s.ingested, actions);
  }

  /** No retry between two deliveries clears their key. */
  predicate NotCleared(key: IngestKey, actions: seq<Action>) {
    forall i :: 0 <= i < |actions| ==> key !in Clears(actions[i].op)
  }

  lemma {:induction false} KeyStays(r: Rules, s: Saga, key: IngestKey, actions: seq<Action>)
    requires key in s.ingested && NotCleared(key, actions)
    ensures key in Run(r, s, actions).ingested
    decreases |actions|
  {
    if actions != [] {
      StepSide(r, actions[0].env, s, actions[0].op);
      assert key !in Clears(actions[0].op);
      assert NotCleared(key, actions[1..]);
      KeyStays(r, Step(r, actions[0].env, s, actions[0].op), key, actions[1..]);
    }
  }

  /** The second of two deliveries of one event is a no-op, however far apart, whatever
      its payload, unless a retry of that span came in between. */
  lemma SecondDeliveryIgnored(r: Rules, e: Env, e2: Env, s: Saga, ev: Event, between: seq<Action>, ev2: Event)
    requires KeyOf(ev2) == KeyOf(ev) && NotCleared(KeyOf(ev), between)
    ensures var s1 := Run(r, Ingest(r, e, s, ev), between); Ingest(r, e2, s1, ev2) == s1
  {
    StepSide(r, e, s, OpIngest(ev));
    assert Step(r, e, s, OpIngest(ev)) == Ingest(r, e, s, ev);
    KeyStays(r, Ingest(r, e, s, ev), KeyOf(ev), between);
  }

  /** No retry clears the key of HUMAN_RETRY itself, so one span can be retried by a
      human once only, although retries are counted up to `hitl_max_retries`. */
  lemma HumanRetryOnce(r: Rules, e: Env, e2: Env, s: Saga, span: nat, g: Option<int>, g2: Option<int>, between: seq<Action>)
    ensures var s1 := Run(r, Ingest(r, e, s, EvHumanRetry(span, g)), between);
      Ingest(r, e2, s1, EvHumanRetry(span, g2)) == s1
  {
    assert forall i :: 0 <= i < |between| ==> KeyOf(EvHumanRetry(span, g)) !in Clears(between[i].op);
    SecondDeliveryIgnored(r, e, e2, s, EvHumanRetry(span, g), between, EvHumanRetry(span, g2));
  }
}
