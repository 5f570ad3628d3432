/** Every transaction keeps the outbox invariant; what that means for whole runs. */
module OutboxRuns {
  import opened SagaTypes
  import opened SagaSpec
  import opened Interpreter
  import opened ForwardPath
  import opened ForwardSteps
  import opened Compensation
  import opened Scheduling
  import opened SagaInvariant
  import opened ChildWakeup
  import opened SagaRuns
  import opened SagaTheorems
  import opened LabelKeys
  import opened Outbox

  lemma RestedDistinct(r: Rules, stop: Stop, outs: seq<Entry>)
    requires Rested(r, stop, outs)
    ensures DistinctKeys(Labs(stop.s.rows))
  {
    if !stop.LoopFailed? { LoopsBounded(PlanOf(stop.s)); }
    RowKeysDistinct(stop.s);
  }

  lemma WorkingDistinct(r: Rules, s: Saga, i: nat, outs: seq<Entry>, ctx: Context)
    requires Working(r, s, i, outs, ctx)
    ensures DistinctKeys(Labs(s.rows)) && QuietBut(s.rows, i)
  {
    HoldsTallied(r, s, i, outs, ctx);
    RowKeysDistinct(s);
  }

  // ---- Handlers

  lemma FinishOutboxed(r: Rules, e: Env, s: Saga, i: nat, p: Payload, outs: seq<Entry>, ctx: Context)
    requires Working(r, s, i, outs, ctx) && (s.status == Running || s.status == SagaAwaitingHuman)
    requires s.rows[i].error.None? && OutboxedBut(r, s, i)
    ensures var s1 := Settle(r, e, After(r, e, FinishRow(s, i, p), i), None);
      Outboxed(r, s1) && Emits(s.commands, s1)
  {
    var s1 := FinishRow(s, i, p);
    var outs1 := FinishInv(r, e, s, i, p, outs, ctx);
    RestedDistinct(r, After(r, e, s1, i), outs1);
    RowChanged(r, s, s1, i);
    SettleOutboxed(r, e, s1, i, After(r, e, s1, i), None);
  }

  lemma TriggerOutboxed(r: Rules, e: Env, s: Saga, i: nat, guidance: Option<int>, outs: seq<Entry>, ctx: Context)
    requires Working(r, s, i, outs, ctx) && s.status == Running && s.rows[i].error.None? && OutboxedBut(r, s, i)
    requires WorkerKind(s.rows[i].lab.spec.kind) ==> s.rows[i].key !in s.commands
    ensures Outboxed(r, Trigger(r, e, s, i, guidance)) && Emits(s.commands, Trigger(r, e, s, i, guidance))
  {
    WorkingDistinct(r, s, i, outs, ctx);
    if WorkerKind(s.rows[i].lab.spec.kind) {
      DispatchOutboxed(r, e, s, i, guidance);
    } else if e.native(i).NativeOutput? {
      FinishOutboxed(r, e, s, i, e.native(i).p, outs, ctx);
    } else {
      var s1 := WithStatus(s, i, InProgress);
      RowChanged(r, s, s1, i);
      assert Numbered(s1);
      if e.native(i).NativeFailure? { FailOutboxed(r, e, s1, i, e.native(i).err); }
    }
  }

  lemma StartedOutboxed(r: Rules, e: Env, s: Saga)
    requires Inv(r, s) && Outboxed(r, s)
    ensures Outboxed(r, OnSagaStarted(r, e, s)) && Emits(s.commands, OnSagaStarted(r, e, s))
  {
    if s.status == SagaPending {
      var s1 := s.(status := Running);
      RowKeepsStanding(r, s, s1, 0, []);
      GoStops(r, e, s1, 0);
      var outs := GoRests(r, e, s1, 0, []);
      RestedDistinct(r, Go(r, e, s1, 0), outs);
      SideKept(r, s, s1);
      assert Numbered(s1);
      SettleOutboxed(r, e, s1, -1, Go(r, e, s1, 0), None);
    }
  }

  /** The row at work, seen apart from the others. */
  lemma Apart(r: Rules, s: Saga, i: nat)
    requires Outboxed(r, s) && i < |s.rows|
    ensures OutboxedBut(r, s, i) && RowOk(r, s.rows[i], s.commands, s.nextId)
  {
    assert RowOk(r, s.rows[i], s.commands, s.nextId);
  }

  lemma CompletedOutboxed(r: Rules, e: Env, s: Saga, i: nat, p: Payload)
    requires Inv(r, s) && Outboxed(r, s) && i < |s.rows|
    ensures Outboxed(r, OnStepCompleted(r, e, s, i, p)) && Emits(s.commands, OnStepCompleted(r, e, s, i, p))
  {
    hide Outboxed, Standing, FailStep, FinishRow, After, Settle, LiveAt;
    hide Inv, HoldsAt;
    if s.status != AwaitingRecovery && s.rows[i].status == InProgress {
      ActiveIsLive(r, s, i);
      var outs, ctx := LiveRow(r, s, i);
      WorkingDistinct(r, s, i, outs, ctx);
      Apart(r, s, i);
      var row := s.rows[i];
      if r.schema(row.lab, p).Some? {
        FailOutboxed(r, e, s, i, r.schema(row.lab, p));
      } else if row.lab.spec.kind == Reason && row.lab.spec.hasPolicy && r.gate(row.lab, row.args, Some(p)).Some? {
        var err := r.gate(row.lab, row.args, Some(p));
        var s1 := WithRow(s, i, row.(error := err));
        RowChanged(r, s, s1, i);
        assert Numbered(s1);
        FailOutboxed(r, e, s1, i, err);
      } else if row.lab.spec.kind == Reason && row.lab.spec.hitl {
        RowChanged(r, s, Hold(s, i, HeldOutput(p)), i);
      } else {
        FinishOutboxed(r, e, s, i, p, outs, ctx);
      }
    }
  }

  lemma FailedOutboxed(r: Rules, e: Env, s: Saga, i: nat, err: Option<Err>)
    requires Inv(r, s) && Outboxed(r, s) && i < |s.rows| && !Done(s.rows[i].status) && s.rows[i].status != Pending
    ensures Outboxed(r, OnStepFailed(e, s, i, err)) && Emits(s.commands, OnStepFailed(e, s, i, err))
  {
    if s.status in {Running, SagaAwaitingHuman} { LiveHasNoTimedOut(r, s, i); }
    if s.rows[i].status == InProgress || s.rows[i].status == AwaitingHuman {
      ActiveIsLive(r, s, i);
      var outs, ctx := LiveRow(r, s, i);
      WorkingDistinct(r, s, i, outs, ctx);
      Apart(r, s, i);
      FailOutboxed(r, e, s, i, err);
    }
  }

  lemma RejectedOutboxed(r: Rules, e: Env, s: Saga, i: nat, err: Option<Err>)
    requires Inv(r, s) && Outboxed(r, s) && i < |s.rows|
    ensures Outboxed(r, OnHumanRejected(e, s, i, err)) && Emits(s.commands, OnHumanRejected(e, s, i, err))
  {
    if s.rows[i].status == AwaitingHuman {
      ActiveIsLive(r, s, i);
      var outs, ctx := LiveRow(r, s, i);
      WorkingDistinct(r, s, i, outs, ctx);
      Apart(r, s, i);
      FailOutboxed(r, e, s, i, err);
    }
  }

  /** Approval releases exactly the command that was held, or finishes the step. */
  lemma ApprovedOutboxed(r: Rules, e: Env, s: Saga, i: nat, override: Option<Payload>)
    requires Inv(r, s) && Outboxed(r, s) && i < |s.rows|
    ensures var s1 := OnHumanApproved(r, e, s, i, override);
      && Outboxed(r, s1)
      && (Emits(s.commands, s1) || Releases(r, s, s1, i))
  {
    hide Inv, Standing, Forward, Lifo, FailStep;
    var row := s.rows[i];
    if row.status == AwaitingHuman {
      ActiveIsLive(r, s, i);
      var outs, ctx := LiveRow(r, s, i);
      WorkingDistinct(r, s, i, outs, ctx);
      Apart(r, s, i);
      if row.lab.spec.kind == Commit {
        var s1 := WithRow(s, i, row.(status := InProgress, held := NoHold)).(status := Running);
        RowChanged(r, s, s1, i);
        assert Labs(s1.rows) == Labs(s.rows);
        SendOutboxed(r, s1, i);
      } else {
        var p := if override.Some? then override.value else row.held.output;
        if r.schema(row.lab, p).Some? {
          FailOutboxed(r, e, s, i, r.schema(row.lab, p));
        } else {
          FinishOutboxed(r, e, s, i, p, outs, ctx);
        }
      }
    }
  }

  /** The one new command of `s1` is the commit that was held for review at row `i`. */
  ghost predicate Releases(r: Rules, s: Saga, s1: Saga, i: nat)
    requires i < |s.rows|
  {
    var row := s.rows[i];
    && row.status == AwaitingHuman && row.held.HeldArgs? && Permitted(r, row.lab, row.held.args)
    && row.key !in s.commands
    && s1.commands == s.commands[row.key := DoCommit(row.span, row.held.args)]
    && s1.rows == s.rows[i := row.(status := InProgress, held := NoHold)]
  }

  lemma HumanRetryOutboxed(r: Rules, e: Env, s: Saga, i: nat, guidance: Option<int>)
    requires Inv(r, s) && Outboxed(r, s) && i < |s.rows|
    ensures Outboxed(r, OnHumanRetry(r, e, s, i, guidance)) && Emits(s.commands, OnHumanRetry(r, e, s, i, guidance))
  {
    hide Inv, Standing;
    var row := s.rows[i];
    if row.status == AwaitingHuman && RetryAllowed(row) {
      ActiveIsLive(r, s, i);
      var outs, ctx := LiveRow(r, s, i);
      var s1 := ResetForHumanRetry(s, i);
      HoldsStill(r, s, s1, i, outs, ctx);
      Apart(r, s, i);
      RowChanged(r, s, s1, i);
      TriggerOutboxed(r, e, s1, i, guidance, outs, ctx);
    }
  }

  // ---- Compensation replies and operator calls

  lemma UndoChanged(r: Rules, s: Saga, s1: Saga, u: nat)
    requires Outboxed(r, s) && u < |s.undos| && s1.rows == s.rows && s1.commands == s.commands && s1.nextId == s.nextId
    requires |s1.undos| == |s.undos| && s1.undos == s.undos[u := s.undos[u].(status := s1.undos[u].status)]
    requires s1.undos[u].status != Compensated ==> s.undos[u].key == UndoKey(s.undos[u].span)
    requires s1.undos[u].status == Compensating ==> s.undos[u].key in s.commands
    ensures Outboxed(r, s1)
  {
    CommandsKept(r, s, s1);
    forall v | v in s1.undos ensures Dispatched(s1.commands, v) {
      var j :| 0 <= j < |s1.undos| && s1.undos[j] == v;
      assert Dispatched(s.commands, s.undos[j]);
    }
  }

  lemma UndoDoneOutboxed(r: Rules, e: Env, s: Saga, u: nat)
    requires Inv(r, s) && Outboxed(r, s) && u < |s.undos|
    ensures Outboxed(r, OnStepCompensated(e, s, u)) && Emits(s.commands, OnStepCompensated(e, s, u))
  {
    if s.undos[u].status == Compensating {
      OpenIsNewest(s, u);
      var s1 := s.(undos := s.undos[u := s.undos[u].(status := Compensated)]);
      UndoChanged(r, s, s1, u);
      assert Numbered(s1);
      UnwindOutboxed(r, e, s1, s.undos[u].seqNo - 1);
    }
  }

  lemma UndoFailedOutboxed(r: Rules, s: Saga, span: nat, err: Option<Err>)
    requires Inv(r, s) && Outboxed(r, s) && EventInOrder(s, EvCompensationFailed(span, err))
    ensures Outboxed(r, OnCompensationFailed(s, span, err)) && Emits(s.commands, OnCompensationFailed(s, span, err))
  {
    var u := FindUndo(s.undos, span).value;
    OpenIsNewest(s, u);
    assert s.undos[u] in s.undos && Dispatched(s.commands, s.undos[u]);
    var s1 := s.(undos := s.undos[u := s.undos[u].(status := Failed)]);
    UndoChanged(r, s, s1, u);
    assert Numbered(s1);
    ConcludeFramed(s1);
    FramedOutboxed(r, s1, ConcludeFailed(s1));
  }

  lemma ResetOutboxed(r: Rules, s: Saga, i: nat, outs: seq<Entry>, ctx: Context)
    requires Working(r, s, i, outs, ctx) && Outboxed(r, s)
    ensures var s1 := ResetForRetry(s, i).(status := Running);
      && Working(r, s1, i, outs, ctx) && OutboxedBut(r, s1, i)
      && s1.rows[i].error.None? && s1.rows[i].key !in s1.commands
  {
    ResetStill(r, s, i, outs, ctx);
    Apart(r, s, i);
    RowChanged(r, s, ResetForRetry(s, i).(status := Running), i);
  }

  lemma RetryStepOutboxed(r: Rules, e: Env, s: Saga, i: nat, force: bool, allow: bool, claim: Claim, requeue: bool)
    requires Inv(r, s) && Outboxed(r, s) && i < |s.rows|
    ensures Outboxed(r, RetryStep(r, e, s, i, force, allow, claim, requeue))
    ensures Emits(s.commands, RetryStep(r, e, s, i, force, allow, claim, requeue))
  {
    hide Inv, Trigger, Outboxed, HoldsAt, Standing;
    if s.status == Running && s.rows[i].status == InProgress {
      var row := s.rows[i];
      var outs, ctx := LiveRow(r, s, i);
      Apart(r, s, i);
      if !WorkerKind(row.lab.spec.kind) {
        TriggerOutboxed(r, e, s, i, None, outs, ctx);
      } else if requeue && row.key in s.commands {
        var s1 := WithRow(s, i, row.(output := None, error := None, held := NoHold))
          .(ingested := s.ingested - ResultKeys(row.span));
        RowChanged(r, s, s1, i);
      } else {
        ResetOutboxed(r, s, i, outs, ctx);
        assert ResetForRetry(s, i) == ResetForRetry(s, i).(status := Running);
        TriggerOutboxed(r, e, ResetForRetry(s, i), i, None, outs, ctx);
      }
    }
  }

  lemma RetryForwardOutboxed(r: Rules, e: Env, s: Saga, i: nat, force: bool, allow: bool, claim: Claim)
    requires Inv(r, s) && Outboxed(r, s) && i < |s.rows|
    ensures Outboxed(r, RetryForward(r, e, s, i, force, allow, claim))
    ensures Emits(s.commands, RetryForward(r, e, s, i, force, allow, claim))
  {
    if HeldForRecovery(s, i) {
      var outs, ctx := LiveRow(r, s, i);
      ResetOutboxed(r, s, i, outs, ctx);
      TriggerOutboxed(r, e, ResetForRetry(s, i).(status := Running), i, None, outs, ctx);
    }
  }

  lemma StartCompensationOutboxed(r: Rules, e: Env, s: Saga, i: nat)
    requires Inv(r, s) && Outboxed(r, s) && i < |s.rows|
    ensures Outboxed(r, StartCompensation(e, s, i)) && Emits(s.commands, StartCompensation(e, s, i))
  {
    hide UndosOk, CommandsOk, RowOk, Standing, LiveAt;
    hide Outboxed, Unwind, Forward, Lifo, Inv;
    if HeldForRecovery(s, i) {
      var outs, ctx := LiveRow(r, s, i);
      assert Quiet(s);
      var start: int := if Dirty(s.rows[i]) then i else i as int - 1;
      if start < 0 {
        ConcludeFramed(s);
        FramedOutboxed(r, s, ConcludeFailed(s));
      } else {
        var s1 := s.(status := SagaCompensating, window := start);
        SideKept(r, s, s1);
        assert Numbered(s1);
        UnwindOutboxed(r, e, s1, start);
      }
    }
  }

  /** Publishing the undo command again under its own key changes nothing if it is there. */
  lemma RepublishOutboxed(r: Rules, s: Saga, u: nat)
    requires Outboxed(r, s) && Numbered(s) && u < |s.undos| && s.undos[u].key == UndoKey(s.undos[u].span)
    ensures var s1 := s.(commands := Publish(s.commands, s.undos[u].key, DoUndo(s.undos[u].span, s.undos[u].forward)));
      Outboxed(r, s1) && Emits(s.commands, s1)
  {
    var key := s.undos[u].key;
    var s1 := s.(commands := Publish(s.commands, key, DoUndo(s.undos[u].span, s.undos[u].forward)));
    assert s.undos[u] in s.undos;
    forall k | k in s1.commands
      ensures k.TextKey? ==> MintedKey(s1.rows, k)
      ensures Justified(r, s1.rows, s1.commands[k])
    {
      if k in s.commands { assert Justified(r, s.rows, s.commands[k]); }
    }
    forall v | v in s1.undos ensures Dispatched(s1.commands, v) {
      assert Dispatched(s.commands, v);
      var j :| 0 <= j < |s.undos| && s.undos[j] == v;
      if v.key == key { assert j == u; }
    }
    forall j | 0 <= j < |s1.rows| ensures RowOk(r, s1.rows[j], s1.commands, s1.nextId) {
      assert RowOk(r, s.rows[j], s.commands, s.nextId);
    }
  }

  lemma RetryCompensationOutboxed(r: Rules, e: Env, s: Saga, u: nat, claim: Claim, requeue: bool)
    requires Inv(r, s) && Outboxed(r, s) && u < |s.undos|
    ensures Outboxed(r, RetryCompensation(e, s, u, claim, requeue))
    ensures Emits(s.commands, RetryCompensation(e, s, u, claim, requeue))
  {
    var s1 := RetryCompensation(e, s, u, claim, requeue);
    if s1 != s {
      OpenIsNewest(s, u);
      assert s.undos[u] in s.undos && Dispatched(s.commands, s.undos[u]);
      var undo := s.undos[u];
      var keys := s.ingested - UndoResultKeys(undo.span);
      var s2 := s.(commands := s1.commands, status := SagaCompensating, ingested := keys);
      RepublishOutboxed(r, s, u);
      var s3 := s.(commands := Publish(s.commands, undo.key, DoUndo(undo.span, undo.forward)));
      SideKept(r, s3, s2);
      assert s1 == s2.(undos := s2.undos[u := undo.(status := Compensating)]);
      UndoChanged(r, s2, s1, u);
    }
  }

  lemma PokeJoinOutboxed(r: Rules, e: Env, s: Saga)
    requires Inv(r, s) && Outboxed(r, s)
    ensures Outboxed(r, PokeJoin(r, e, s)) && Emits(s.commands, PokeJoin(r, e, s))
  {
    var j := FindJoin(s.rows);
    if j.Some? {
      ActiveIsLive(r, s, j.value);
      var outs, ctx := LiveRow(r, s, j.value);
      Apart(r, s, j.value);
      TriggerOutboxed(r, e, s, j.value, None, outs, ctx);
    }
  }

  lemma EmitsTwice(before: map<Key, Command>, s: Saga, s1: Saga)
    requires Emits(before, s) && Emits(s.commands, s1) && ForwardKept(s, s1)
    ensures Emits(before, s1)
  {
    forall k | k in s1.commands ensures k in before || Unreviewed(s1.rows, s1.commands[k]) {
      if k in s.commands && k !in before {
        var c := s.commands[k];
        assert Unreviewed(s.rows, c);
        if c.DoCommit? {
          var i :| 0 <= i < |s.rows| && s.rows[i].span == c.span && !s.rows[i].lab.spec.hitl;
          assert s1.rows[i].span == c.span && !s1.rows[i].lab.spec.hitl;
        }
      }
    }
  }

  lemma ResumeSpawnFramed(e: Env, s: Saga)
    requires Numbered(s) && Quiet(s)
    ensures ResumableSpawn(e, s).Some? ==> Framed(s, ResumeSpawn(e, s))
  {
    if ResumableSpawn(e, s).Some? {
      var q := ResumableSpawn(e, s).value;
      var s1 := AddSpawnUndo(s, q);
      SpawnUndoFramed(s, q);
      UnwindFrame(e, s1, q as int - 1);
      FramedTwice(s, s1, ResumeSpawn(e, s));
    }
  }

  lemma ResumeSpawnOutboxed(r: Rules, e: Env, s: Saga)
    requires Inv(r, s) && Outboxed(r, s)
    ensures Outboxed(r, ResumeSpawn(e, s)) && Emits(s.commands, ResumeSpawn(e, s)) && ForwardKept(s, ResumeSpawn(e, s))
  {
    if ResumableSpawn(e, s).Some? {
      ResumeSpawnForward(r, e, s);
      ResumeSpawnFramed(e, s);
      FramedOutboxed(r, s, ResumeSpawn(e, s));
    }
  }

  lemma ChildTerminalOutboxed(r: Rules, e: Env, s: Saga)
    requires Inv(r, s) && Outboxed(r, s)
    ensures Outboxed(r, OnChildTerminal(r, e, s)) && Emits(s.commands, OnChildTerminal(r, e, s))
  {
    PokeJoinInv(r, e, s);
    PokeJoinOutboxed(r, e, s);
    ResumeSpawnOutboxed(r, e, PokeJoin(r, e, s));
    EmitsTwice(s.commands, PokeJoin(r, e, s), OnChildTerminal(r, e, s));
  }

  // ---- One transaction

  /** The event is an approval of the row holding the commit that is then sent. */
  ghost predicate ReleasedBy(r: Rules, s: Saga, s1: Saga, op: Op) {
    && op.OpIngest? && op.ev.EvHumanApproved? && KeyOf(op.ev) !in s.ingested
    && FindRow(s.rows, op.ev.span).Some?
    && Releases(r, s, s1, FindRow(s.rows, op.ev.span).value)
  }

  lemma HandleOutboxed(r: Rules, e: Env, s: Saga, ev: Event)
    requires Inv(r, s) && NoticesOk(s) && EventInOrder(s, ev) && Outboxed(r, s)
    ensures var s1 := Handle(r, e, s, ev);
      && Outboxed(r, s1)
      && (Emits(s.commands, s1)
          || (ev.EvHumanApproved? && FindRow(s.rows, ev.span).Some? && Releases(r, s, s1, FindRow(s.rows, ev.span).value)))
  {
    hide Outboxed, Inv;
    match ev
    case EvSagaStarted => StartedOutboxed(r, e, s);
    case EvStepCompensated(span) =>
      if FindUndo(s.undos, span).Some? { UndoDoneOutboxed(r, e, s, FindUndo(s.undos, span).value); }
    case EvCompensationFailed(span, err) => UndoFailedOutboxed(r, s, span, err);
    case EvSagaCompleted =>
    case EvSagaCompensated =>
    case EvSagaFailed =>
    case EvStepCompleted(span, p) =>
      if FindRow(s.rows, span).Some? { CompletedOutboxed(r, e, s, FindRow(s.rows, span).value, p); }
    case EvStepFailed(span, err) =>
      if FindRow(s.rows, span).Some? && s.status != AwaitingRecovery {
        FailedOutboxed(r, e, s, FindRow(s.rows, span).value, err);
      }
    case EvHumanApproved(span, override) =>
      if FindRow(s.rows, span).Some? { ApprovedOutboxed(r, e, s, FindRow(s.rows, span).value, override); }
    case EvHumanRejected(span, err) =>
      if FindRow(s.rows, span).Some? { RejectedOutboxed(r, e, s, FindRow(s.rows, span).value, err); }
    case EvHumanRetry(span, guidance) =>
      if FindRow(s.rows, span).Some? { HumanRetryOutboxed(r, e, s, FindRow(s.rows, span).value, guidance); }
  }

  lemma StepOutboxed(r: Rules, e: Env, s: Saga, op: Op)
    requires Inv(r, s) && NoticesOk(s) && InOrder(r, e, s, op) && Outboxed(r, s)
    ensures var s1 := Step(r, e, s, op);
      Outboxed(r, s1) && (Emits(s.commands, s1) || ReleasedBy(r, s, s1, op))
  {
    hide Outboxed, Inv, Handle, RetryStep, RetryForward, StartCompensation, RetryCompensation, OnChildTerminal;
    match op
    case OpIngest(ev) =>
      if KeyOf(ev) !in s.ingested {
        var s1 := s.(ingested := s.ingested + {KeyOf(ev)});
        SideIrrelevant(r, s, s1);
        SideKept(r, s, s1);
        HandleOutboxed(r, e, s1, ev);
      }
    case OpRetryStep(span, force, allow, claim, requeue) =>
      if FindRow(s.rows, span).Some? {
        RetryStepOutboxed(r, e, s, FindRow(s.rows, span).value, force, allow, claim, requeue);
      }
    case OpRetryForward(span, force, allow, claim) =>
      if FindRow(s.rows, span).Some? {
        RetryForwardOutboxed(r, e, s, FindRow(s.rows, span).value, force, allow, claim);
      }
    case OpStartCompensation(span) =>
      if FindRow(s.rows, span).Some? { StartCompensationOutboxed(r, e, s, FindRow(s.rows, span).value); }
    case OpRetryCompensation(span, claim, requeue) =>
      if FindUndo(s.undos, span).Some? {
        RetryCompensationOutboxed(r, e, s, FindUndo(s.undos, span).value, claim, requeue);
      }
    case OpChildTerminal => ChildTerminalOutboxed(r, e, s);
  }

  // ---- Runs

  lemma StartOutboxed(r: Rules, bp: seq<Top>)
    ensures Outboxed(r, Start(bp))
  {
    StartRows(bp);
  }

  lemma {:induction false} RunOutboxed(r: Rules, s: Saga, actions: seq<Action>)
    requires Inv(r, s) && NoticesOk(s) && Outboxed(r, s) && InOrderRun(r, s, actions)
    ensures Outboxed(r, Run(r, s, actions))
    decreases |actions|
  {
    if actions != [] {
      var a := actions[0];
      StepInv(r, a.env, s, a.op);
      StepNotices(r, a.env, s, a.op);
      StepOutboxed(r, a.env, s, a.op);
      RunOutboxed(r, Step(r, a.env, s, a.op), actions[1..]);
    }
  }

  /** Transactional outbox: in every reachable state each worker step in progress and each
      undo in flight has its command queued, under its current key and with its current
      arguments, across key rotation, requeue, review and every retry. */
  lemma InFlightIsQueued(r: Rules, bp: seq<Top>, actions: seq<Action>)
    requires WellFormed(bp) && InOrderRun(r, Start(bp), actions)
    ensures var s := Run(r, Start(bp), actions);
      && (forall i :: 0 <= i < |s.rows| && s.rows[i].status == InProgress && WorkerKind(s.rows[i].lab.spec.kind) ==>
            s.rows[i].key in s.commands && s.commands[s.rows[i].key] == CommandOf(s.rows[i]))
      && (forall u <- s.undos :: u.status == Compensating ==>
            u.key in s.commands && s.commands[u.key] == DoUndo(u.span, u.forward))
  {
    StartInv(r, bp);
    StartOutboxed(r, bp);
    RunOutboxed(r, Start(bp), actions);
    var s := Run(r, Start(bp), actions);
    forall i | 0 <= i < |s.rows| ensures RowOk(r, s.rows[i], s.commands, s.nextId) {
    }
    forall u | u in s.undos ensures Dispatched(s.commands, u) {
    }
  }

  /** A step that waits, or that waits for review of a commit, has no command yet. */
  lemma HeldIsNotQueued(r: Rules, bp: seq<Top>, actions: seq<Action>)
    requires WellFormed(bp) && InOrderRun(r, Start(bp), actions)
    ensures var s := Run(r, Start(bp), actions);
      forall i :: 0 <= i < |s.rows| && Unsent(s.rows[i]) ==> s.rows[i].key !in s.commands
  {
    StartInv(r, bp);
    StartOutboxed(r, bp);
    RunOutboxed(r, Start(bp), actions);
    var s := Run(r, Start(bp), actions);
    forall i | 0 <= i < |s.rows| ensures RowOk(r, s.rows[i], s.commands, s.nextId) {
    }
  }

  /** Every commit command in the outbox belongs to a step whose policy passes on exactly
      the arguments the command carries. */
  lemma CommitsArePermitted(r: Rules, bp: seq<Top>, actions: seq<Action>, k: Key)
    requires WellFormed(bp) && InOrderRun(r, Start(bp), actions)
    requires k in Run(r, Start(bp), actions).commands && Run(r, Start(bp), actions).commands[k].DoCommit?
    ensures var s := Run(r, Start(bp), actions);
      exists i :: 0 <= i < |s.rows| && s.rows[i].span == s.commands[k].span && Permitted(r, s.rows[i].lab, s.commands[k].args)
  {
    StartInv(r, bp);
    StartOutboxed(r, bp);
    RunOutboxed(r, Start(bp), actions);
    var s := Run(r, Start(bp), actions);
    assert Justified(r, s.rows, s.commands[k]);
  }

  /** How command `c` came into the outbox in the transaction `op`, from `s` to `s1`: it is
      for a step without review, or a first approval of its span was ingested while
      exactly its arguments were held for review. */
  ghost predicate ProperlyQueued(r: Rules, s: Saga, s1: Saga, op: Op, c: Command) {
    || Unreviewed(s1.rows, c)
    || (&& ReleasedBy(r, s, s1, op) && c.DoCommit? && op.ev.span == c.span
        && s.rows[FindRow(s.rows, c.span).value].held == HeldArgs(c.args))
  }

  ghost predicate QueuedAt(r: Rules, s: Saga, actions: seq<Action>, n: nat, k: Key, c: Command) {
    && n < |actions|
    && var before := Run(r, s, actions[..n]);
       var after := Step(r, actions[n].env, before, actions[n].op);
       && k !in before.commands && k in after.commands && after.commands[k] == c
       && ProperlyQueued(r, before, after, actions[n].op, c)
  }

  lemma StepQueues(r: Rules, e: Env, s: Saga, op: Op, k: Key)
    requires Inv(r, s) && NoticesOk(s) && InOrder(r, e, s, op) && Outboxed(r, s)
    requires k !in s.commands && k in Step(r, e, s, op).commands
    ensures ProperlyQueued(r, s, Step(r, e, s, op), op, Step(r, e, s, op).commands[k])
  {
    StepOutboxed(r, e, s, op);
  }

  lemma StepKeepsCommands(r: Rules, e: Env, s: Saga, op: Op)
    requires Inv(r, s) && NoticesOk(s) && InOrder(r, e, s, op) && Outboxed(r, s)
    ensures forall k <- s.commands :: k in Step(r, e, s, op).commands && Step(r, e, s, op).commands[k] == s.commands[k]
  {
    StepOutboxed(r, e, s, op);
  }

  lemma {:induction false} RunKeepsCommands(r: Rules, s: Saga, actions: seq<Action>)
    requires Inv(r, s) && NoticesOk(s) && Outboxed(r, s) && InOrderRun(r, s, actions)
    ensures forall k <- s.commands :: k in Run(r, s, actions).commands && Run(r, s, actions).commands[k] == s.commands[k]
    decreases |actions|
  {
    if actions != [] {
      var a := actions[0];
      StepInv(r, a.env, s, a.op);
      StepNotices(r, a.env, s, a.op);
      StepOutboxed(r, a.env, s, a.op);
      StepKeepsCommands(r, a.env, s, a.op);
      RunKeepsCommands(r, Step(r, a.env, s, a.op), actions[1..]);
    }
  }

  lemma QueuedLater(r: Rules, s: Saga, actions: seq<Action>, n: nat, k: Key, c: Command)
    requires actions != [] && QueuedAt(r, Step(r, actions[0].env, s, actions[0].op), actions[1..], n, k, c)
    ensures QueuedAt(r, s, actions, n + 1, k, c)
  {
    assert actions[..n + 1][0] == actions[0] && actions[..n + 1][1..] == actions[1..][..n];
    assert actions[1..][n] == actions[n + 1];
  }

  lemma {:induction false} RunQueues(r: Rules, s: Saga, actions: seq<Action>, k: Key) returns (n: nat)
    requires Inv(r, s) && NoticesOk(s) && Outboxed(r, s) && InOrderRun(r, s, actions)
    requires k !in s.commands && k in Run(r, s, actions).commands
    ensures QueuedAt(r, s, actions, n, k, Run(r, s, actions).commands[k])
    decreases |actions|
  {
    hide Inv, Outboxed, Step, NoticesOk, InOrder;
    var a := actions[0];
    var s1 := Step(r, a.env, s, a.op);
    StepInv(r, a.env, s, a.op);
    StepNotices(r, a.env, s, a.op);
    StepOutboxed(r, a.env, s, a.op);
    if k in s1.commands {
      StepQueues(r, a.env, s, a.op, k);
      RunKeepsCommands(r, s1, actions[1..]);
      assert actions[..0] == [];
      n := 0;
    } else {
      var m := RunQueues(r, s1, actions[1..], k);
      QueuedLater(r, s, actions, m, k, Run(r, s, actions).commands[k]);
      n := m + 1;
    }
  }

  /** Review is never bypassed: every commit command ever queued was, when it was queued,
      for a step without review, or approved while exactly its arguments were held. */
  lemma ReviewedCommitsAsHeld(r: Rules, bp: seq<Top>, actions: seq<Action>, k: Key)
    requires WellFormed(bp) && InOrderRun(r, Start(bp), actions) && k in Run(r, Start(bp), actions).commands
    ensures exists n :: QueuedAt(r, Start(bp), actions, n, k, Run(r, Start(bp), actions).commands[k])
  {
    StartInv(r, bp);
    StartOutboxed(r, bp);
    var n := RunQueues(r, Start(bp), actions, k);
  }

  // ---- Sagas without child sagas

  predicate WorkersOnly(bp: seq<Top>) {
    forall i :: 0 <= i < |bp| && bp[i].Exec? ==> WorkerKind(bp[i].spec.kind)
  }

  lemma NoSpawnRows(r: Rules, s: Saga)
    requires Inv(r, s) && WorkersOnly(s.blueprint)
    ensures forall i :: 0 <= i < |s.rows| ==> WorkerKind(s.rows[i].lab.spec.kind)
  {
    var bp := s.blueprint;
    forall i | 0 <= i < |s.rows| ensures WorkerKind(s.rows[i].lab.spec.kind) {
      RowIsUnit(r, s, i);
      var j :| 0 <= j < |bp| && UnitAt(s.rows[i].lab, bp[j]);
      if bp[j].Block? { assert LoopOk(bp[j].loop); }
    }
  }

  /** For worker-only sagas the terminal-child hypothesis is void: that transaction never
      does anything. */
  lemma WorkersNeverResume(r: Rules, e: Env, s: Saga)
    requires Inv(r, s) && WorkersOnly(s.blueprint)
    ensures InOrder(r, e, s, OpChildTerminal) && OnChildTerminal(r, e, s) == s
  {
    NoSpawnRows(r, s);
    assert FindJoin(s.rows).None?;
    assert HighestSpawn(s.rows).None?;
  }
}
