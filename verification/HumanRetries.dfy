/** When a human's retry of a held step takes effect: it is taken once per span, so retries
    are spent after the first one, whatever limit the step declares. */
module HumanRetries {
  import opened SagaTypes
  import opened SagaSpec
  import opened ForwardPath
  import opened ForwardSteps
  import opened SagaInvariant
  import opened SagaRuns
  import opened SagaTheorems
  import opened SagaReplay
  import opened SagaLimits
  import opened RowFrames

  // ---- When a retry takes effect

  /** The event leaves nothing but its dedup key. */
  function OnlyKeyAdded(s: Saga, ev: Event): Saga { s.(ingested := s.ingested + {KeyOf(ev)}) }

  predicate RetryTakesEffect(s: Saga, j: nat)
    requires j < |s.rows|
  {
    && s.rows[j].status == AwaitingHuman && RetryAllowed(s.rows[j])
    && KeyOf(EvHumanRetry(s.rows[j].span, None)) !in s.ingested
  }

  /** A retry that is taken counts; one that is not leaves only its key. */
  lemma HandledRetry(r: Rules, e: Env, s: Saga, j: nat, g: Option<int>)
    requires Inv(r, s) && j < |s.rows|
    ensures var s1 := OnHumanRetry(r, e, s, j, g);
      if s.rows[j].status == AwaitingHuman && RetryAllowed(s.rows[j])
      then j < |s1.rows| && s1.rows[j].retries == s.rows[j].retries + 1
      else s1 == s
  {
    if s.rows[j].status == AwaitingHuman && RetryAllowed(s.rows[j]) {
      ActiveIsLive(r, s, j);
      TriggerKeeps(r, e, ResetForHumanRetry(s, j), j, g);
    }
  }

  lemma FindOwnRow(s: Saga, j: nat)
    requires Numbered(s) && j < |s.rows|
    ensures FindRow(s.rows, s.rows[j].span) == Some(j)
  {
    assert FindRow(s.rows, s.rows[j].span).Some?;
  }

  /** A held row is run again, and the retry counted, exactly when it is within its limit
      and no retry of its span was ever ingested before. */
  lemma HumanRetryExact(r: Rules, e: Env, s: Saga, j: nat, g: Option<int>)
    requires Inv(r, s) && j < |s.rows|
    ensures var s1 := Ingest(r, e, s, EvHumanRetry(s.rows[j].span, g));
      && j < |s1.rows|
      && (s1.rows[j].retries == s.rows[j].retries + 1 <==> RetryTakesEffect(s, j))
      && (!RetryTakesEffect(s, j) ==> s1 == OnlyKeyAdded(s, EvHumanRetry(s.rows[j].span, g)))
  {
    hide Inv, OnHumanRetry, RetryAllowed;
    var ev := EvHumanRetry(s.rows[j].span, g);
    if KeyOf(ev) in s.ingested {
      assert s.ingested + {KeyOf(ev)} == s.ingested;
    } else {
      var s1 := s.(ingested := s.ingested + {KeyOf(ev)});
      SideIrrelevant(r, s, s1);
      InvNumbered(r, s);
      FindOwnRow(s1, j);
      HandledRetry(r, e, s1, j, g);
    }
  }

  /** A row counts one retry at most, and then its key is spent. */
  ghost predicate RetriesSpent(s: Saga) {
    forall j :: 0 <= j < |s.rows| ==>
      s.rows[j].retries == 0
      || (s.rows[j].retries == 1 && IngestKey(TypeHumanRetry, Some(s.rows[j].span)) in s.ingested)
  }

  lemma KeysStay(r: Rules, e: Env, s: Saga, op: Op)
    ensures forall span :: IngestKey(TypeHumanRetry, Some(span)) in s.ingested ==>
      IngestKey(TypeHumanRetry, Some(span)) in Step(r, e, s, op).ingested
  {
    StepSide(r, e, s, op);
  }

  lemma HumanRetrySpends(r: Rules, e: Env, s: Saga, span: nat, g: Option<int>)
    requires RetriesSpent(s)
    ensures RetriesSpent(Ingest(r, e, s, EvHumanRetry(span, g)))
  {
    var ev := EvHumanRetry(span, g);
    if KeyOf(ev) !in s.ingested {
      var s0 := s.(ingested := s.ingested + {KeyOf(ev)});
      KeysStay(r, e, s, OpIngest(ev));
      StepSide(r, e, s, OpIngest(ev));
      assert Step(r, e, s, OpIngest(ev)) == Ingest(r, e, s, ev);
      if FindRow(s0.rows, span).Some? {
        var i := FindRow(s0.rows, span).value;
        TriggerKeeps(r, e, ResetForHumanRetry(s0, i), i, g);
      }
    }
  }

  lemma StepSpends(r: Rules, e: Env, s: Saga, op: Op)
    requires RetriesSpent(s)
    ensures RetriesSpent(Step(r, e, s, op))
  {
    if op.OpIngest? && op.ev.EvHumanRetry? {
      HumanRetrySpends(r, e, s, op.ev.span, op.ev.guidance);
    } else {
      var i := StepKeeps(r, e, s, op);
      KeysStay(r, e, s, op);
    }
  }

  lemma {:induction false} RunSpends(r: Rules, s: Saga, actions: seq<Action>)
    requires RetriesSpent(s)
    ensures RetriesSpent(Run(r, s, actions))
    decreases |actions|
  {
    if actions != [] {
      StepSpends(r, actions[0].env, s, actions[0].op);
      RunSpends(r, Step(r, actions[0].env, s, actions[0].op), actions[1..]);
    }
  }

  /** Over any run, in order or not, no step is retried by a human more than once. */
  lemma OneHumanRetry(r: Rules, bp: seq<Top>, actions: seq<Action>)
    ensures forall row <- Run(r, Start(bp), actions).rows :: row.retries <= 1
  {
    StartRows(bp);
    RunSpends(r, Start(bp), actions);
  }

  // Nothing happens outside the saga.
  const CALM: Env := Env(i => NativeWait, i => false, i => true)
}
