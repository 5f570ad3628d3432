/** When an approval or a rejection takes effect: exactly on a held step, and only the first
    of its kind for that step. */
module HumanAnswers {
  import opened SagaTypes
  import opened SagaSpec
  import opened ForwardPath
  import opened ForwardSteps
  import opened Compensation
  import opened Scheduling
  import opened SagaInvariant
  import opened SagaRuns
  import opened SagaTheorems
  import opened SagaReplay
  import opened SagaLimits
  import opened RowFrames
  import opened HumanRetries

  // ---- A row that has left its hold is not held again in the same transaction

  predicate HeldAt(s: Saga, j: nat) { j < |s.rows| && s.rows[j].status == AwaitingHuman }

  lemma {:induction false} UnwindHoldsNone(e: Env, s: Saga, q: int, j: nat)
    ensures HeldAt(Unwind(e, s, q), j) ==> HeldAt(s, j)
    decreases q + 1
  {
    if q >= |s.rows| {
      UnwindHoldsNone(e, s, q - 1, j);
    } else if q >= 0 {
      var row := s.rows[q];
      if !NeedsUndo(row) || HasUndo(s.undos, row.span, Compensated) {
        UnwindHoldsNone(e, s, q - 1, j);
      } else if !HasUndo(s.undos, row.span, Compensating) && row.lab.spec.kind == SpawnSagas && e.childrenDone(q) {
        UnwindHoldsNone(e, AddSpawnUndo(s, q), q - 1, j);
      }
    }
  }

  lemma FailStepHoldsNone(e: Env, s: Saga, i: nat, err: Option<Err>, j: nat)
    requires i < |s.rows|
    ensures HeldAt(FailStep(e, s, i, err), j) ==> i != j && HeldAt(s, j)
  {
    var s1 := WithRow(s, i, FailedRow(s.rows[i], err));
    UnwindHoldsNone(e, s1.(status := SagaCompensating, window := WalkFrom(s, i, err)), WalkFrom(s, i, err), j);
  }

  lemma DispatchHoldsOwn(r: Rules, e: Env, s: Saga, i: nat, guidance: Option<int>, j: nat)
    requires i < |s.rows| && i != j
    ensures HeldAt(Dispatch(r, e, s, i, guidance), j) ==> HeldAt(s, j)
  {
    var row := s.rows[i].(status := InProgress);
    match r.resolve(s.ctx, row.lab, row.retries, guidance)
    case Unresolved(err) => FailStepHoldsNone(e, WithRow(s, i, row), i, err, j);
    case Resolved(args) =>
      var s1 := WithRow(s, i, row.(args := args));
      FailStepHoldsNone(e, s1, i, Some(Err(false, false)), j);
      FailStepHoldsNone(e, s1, i, r.gate(row.lab, args, None), j);
  }

  lemma SettleHoldsNone(r: Rules, e: Env, stop: Stop, j: nat)
    requires StopIn(stop) && (stop.Launch? || stop.Parked? || stop.Faulted? ==> stop.i > j)
    ensures HeldAt(Settle(r, e, stop, None), j) ==> HeldAt(stop.s, j)
  {
    match stop
    case Finished(_) =>
    case Parked(_, _) =>
    case Launch(s, i) => DispatchHoldsOwn(r, e, s, i, None, j);
    case Faulted(s, i, err) => FailStepHoldsNone(e, s, i, err, j);
    case LoopFailed(s, i) =>
      var row := s.rows[i];
      var s1 := WithRow(s, i, row.(error := if row.error.Some? then row.error else Some(Err(false, false))));
      UnwindHoldsNone(e, s1.(status := SagaCompensating, window := i), i, j);
  }

  lemma ResumeReleases(r: Rules, e: Env, s: Saga, i: nat, p: Payload)
    requires i < |s.rows|
    ensures !HeldAt(Resume(r, e, s, i, p), i)
  {
    AfterBeyond(r, e, FinishRow(s, i, p), i, i);
    SettleHoldsNone(r, e, After(r, e, FinishRow(s, i, p), i), i);
  }

  // ---- Exactly when an answer takes effect

  /** The row is held, there is something to approve, and it is the first approval. */
  predicate ApprovalTakesEffect(s: Saga, j: nat, override: Option<Payload>)
    requires j < |s.rows|
  {
    && HeldAt(s, j) && KeyOf(EvHumanApproved(s.rows[j].span, override)) !in s.ingested
    && (s.rows[j].lab.spec.kind == Commit || override.Some? || s.rows[j].held.HeldOutput?)
  }

  predicate RejectionTakesEffect(s: Saga, j: nat)
    requires j < |s.rows|
  {
    HeldAt(s, j) && KeyOf(EvHumanRejected(s.rows[j].span, None)) !in s.ingested
  }

  lemma HandledApproval(r: Rules, e: Env, s: Saga, j: nat, override: Option<Payload>)
    requires j < |s.rows|
    ensures var s1 := OnHumanApproved(r, e, s, j, override); var row := s.rows[j];
      if HeldAt(s, j) && (row.lab.spec.kind == Commit || override.Some? || row.held.HeldOutput?)
      then !HeldAt(s1, j) && (row.lab.spec.kind == Commit && row.lab.spec.toolCount == 1 ==> Sent(s, s1, j))
      else s1 == s
  {
    var row := s.rows[j];
    FailStepHoldsNone(e, s, j, Some(Err(false, false)), j);
    if row.lab.spec.kind != Commit && (override.Some? || row.held.HeldOutput?) {
      var p := if override.Some? then override.value else row.held.output;
      FailStepHoldsNone(e, s, j, r.schema(row.lab, p), j);
      ResumeReleases(r, e, s, j, p);
    }
  }

  /** The held commit goes out: the row runs again, its command is in the outbox. */
  predicate Sent(s: Saga, s1: Saga, j: nat)
    requires j < |s.rows|
  {
    && j < |s1.rows| && s1.rows[j] == s.rows[j].(status := InProgress, held := NoHold)
    && s.rows[j].key in s1.commands
  }

  /** An approval takes a held commit to its worker, and a held output into the saga, exactly
      when it is the first approval of that step; otherwise it leaves only its key. */
  lemma ApprovalExact(r: Rules, e: Env, s: Saga, j: nat, override: Option<Payload>)
    requires Inv(r, s) && j < |s.rows|
    ensures var s1 := Ingest(r, e, s, EvHumanApproved(s.rows[j].span, override));
      && (HeldAt(s, j) && !HeldAt(s1, j) <==> ApprovalTakesEffect(s, j, override))
      && (!ApprovalTakesEffect(s, j, override) ==> s1 == OnlyKeyAdded(s, EvHumanApproved(s.rows[j].span, override)))
      && (ApprovalTakesEffect(s, j, override) && s.rows[j].lab.spec.kind == Commit && s.rows[j].lab.spec.toolCount == 1 ==>
            Sent(s, s1, j))
  {
    hide Inv, OnHumanApproved;
    InvNumbered(r, s);
    var ev := EvHumanApproved(s.rows[j].span, override);
    var s0 := s.(ingested := s.ingested + {KeyOf(ev)});
    assert KeyOf(ev) in s.ingested ==> s.ingested + {KeyOf(ev)} == s.ingested;
    FindOwnRow(s0, j);
    HandledApproval(r, e, s0, j, override);
  }

  /** A rejection fails a held step exactly when it is its first rejection. */
  lemma RejectionExact(r: Rules, e: Env, s: Saga, j: nat, err: Option<Err>)
    requires Inv(r, s) && j < |s.rows|
    ensures var s1 := Ingest(r, e, s, EvHumanRejected(s.rows[j].span, err));
      && (HeldAt(s, j) && !HeldAt(s1, j) <==> RejectionTakesEffect(s, j))
      && (!RejectionTakesEffect(s, j) ==> s1 == OnlyKeyAdded(s, EvHumanRejected(s.rows[j].span, err)))
  {
    hide Inv, FailStep;
    InvNumbered(r, s);
    var ev := EvHumanRejected(s.rows[j].span, err);
    var s0 := s.(ingested := s.ingested + {KeyOf(ev)});
    assert KeyOf(ev) in s.ingested ==> s.ingested + {KeyOf(ev)} == s.ingested;
    FindOwnRow(s0, j);
    FailStepHoldsNone(e, s0, j, err, j);
  }

  // ---- Over runs

  predicate HumanAnswer(ev: Event) { ev.EvHumanApproved? || ev.EvHumanRejected? || ev.EvHumanRetry? }

  lemma AnswersNotCleared(ev: Event, actions: seq<Action>)
    requires HumanAnswer(ev)
    ensures NotCleared(KeyOf(ev), actions)
  {
  }

  /** Over any run each kind of answer has an effect once per step: the later of two is a
      no-op, whatever was retried in between. */
  lemma AnswersCountOnce(r: Rules, s: Saga, actions: seq<Action>, i: nat, j: nat)
    requires i < j < |actions| && actions[i].op.OpIngest? && actions[j].op.OpIngest?
    requires HumanAnswer(actions[i].op.ev) && KeyOf(actions[j].op.ev) == KeyOf(actions[i].op.ev)
    ensures Run(r, s, actions[..j + 1]) == Run(r, s, actions[..j])
  {
    var a, b := actions[i], actions[j];
    assert actions[..j] == actions[..i] + ([a] + actions[i + 1..j]);
    assert ([a] + actions[i + 1..j])[1..] == actions[i + 1..j];
    RunSplit(r, s, actions[..i], [a] + actions[i + 1..j]);
    AnswersNotCleared(a.op.ev, actions[i + 1..j]);
    SecondDeliveryIgnored(r, a.env, b.env, Run(r, s, actions[..i]), a.op.ev, actions[i + 1..j], b.op.ev);
    assert actions[..j + 1] == actions[..j] + [b];
    OneMoreStep(r, s, actions[..j], b);
  }
}
