/** What no transaction touches on the rows it finds, and how it leaves those it adds. */
module RowFrames {
  import opened SagaTypes
  import opened SagaSpec
  import opened ForwardPath
  import opened ForwardSteps
  import opened SagaInvariant
  import opened LabelKeys

  /** Rows keep span, label, key and count of retries; new rows have the key they were
      minted with and no retries; no dedup key is added. */
  ghost predicate RowsKept(s: Saga, s1: Saga) {
    && s.nextId <= s1.nextId && |s.rows| <= |s1.rows| && s1.ingested <= s.ingested
    && (forall j :: 0 <= j < |s.rows| ==> SameIdentity(s.rows[j], s1.rows[j]))
    && (forall j :: |s.rows| <= j < |s1.rows| ==> AsMinted(s1.rows[j]))
  }

  predicate SameIdentity(row: Row, row1: Row) {
    row1.span == row.span && row1.lab == row.lab && row1.key == row.key && row1.retries == row.retries
  }

  predicate AsMinted(row: Row) { row.key == LabelKey(row.lab) && row.retries == 0 }

  lemma {:induction false} UnwindKeeps(e: Env, s: Saga, q: int)
    ensures RowsKept(s, Unwind(e, s, q))
    decreases q + 1
  {
    if q >= |s.rows| {
      UnwindKeeps(e, s, q - 1);
    } else if q >= 0 {
      var row := s.rows[q];
      if !NeedsUndo(row) || HasUndo(s.undos, row.span, Compensated) {
        UnwindKeeps(e, s, q - 1);
      } else if !HasUndo(s.undos, row.span, Compensating) && row.lab.spec.kind == SpawnSagas && e.childrenDone(q) {
        UnwindKeeps(e, AddSpawnUndo(s, q), q - 1);
      }
    }
  }

  lemma FailStepKeeps(e: Env, s: Saga, i: nat, err: Option<Err>)
    requires i < |s.rows|
    ensures RowsKept(s, FailStep(e, s, i, err))
  {
    var s1 := WithRow(s, i, FailedRow(s.rows[i], err));
    UnwindKeeps(e, s1.(status := SagaCompensating, window := WalkFrom(s, i, err)), WalkFrom(s, i, err));
  }

  lemma DispatchKeeps(r: Rules, e: Env, s: Saga, i: nat, guidance: Option<int>)
    requires i < |s.rows|
    ensures RowsKept(s, Dispatch(r, e, s, i, guidance))
  {
    var row := s.rows[i].(status := InProgress);
    match r.resolve(s.ctx, row.lab, row.retries, guidance)
    case Unresolved(err) => FailStepKeeps(e, WithRow(s, i, row), i, err);
    case Resolved(args) =>
      var s1 := WithRow(s, i, row.(args := args));
      FailStepKeeps(e, s1, i, Some(Err(false, false)));
      FailStepKeeps(e, s1, i, r.gate(row.lab, args, None));
  }

  lemma SettleKeeps(r: Rules, e: Env, stop: Stop, guidance: Option<int>)
    requires StopIn(stop)
    ensures RowsKept(stop.s, Settle(r, e, stop, guidance))
  {
    match stop
    case Finished(_) =>
    case Parked(_, _) =>
    case Launch(s, i) => DispatchKeeps(r, e, s, i, guidance);
    case Faulted(s, i, err) => FailStepKeeps(e, s, i, err);
    case LoopFailed(s, i) =>
      var row := s.rows[i];
      var s1 := WithRow(s, i, row.(error := if row.error.Some? then row.error else Some(Err(false, false))));
      UnwindKeeps(e, s1.(status := SagaCompensating, window := i), i);
  }

  lemma {:induction false} GoKeeps(r: Rules, e: Env, s: Saga, i: nat)
    requires i <= |s.rows|
    ensures RowsKept(s, Go(r, e, s, i).s)
    decreases Left(s), PassesLeft(s), |s.rows| - i, 2
  {
    if i < |s.rows| {
      if Chosen(r, s.ctx, i, s.rows[i].lab) { FireKeeps(r, e, s, i); } else { AfterKeeps(r, e, SkipRow(s, i), i); }
    }
  }

  lemma {:induction false} FireKeeps(r: Rules, e: Env, s: Saga, i: nat)
    requires i < |s.rows|
    ensures RowsKept(s, Fire(r, e, s, i).s)
    decreases Left(s), PassesLeft(s), |s.rows| - i, 1
  {
    if !WorkerKind(s.rows[i].lab.spec.kind) && e.native(i).NativeOutput? {
      AfterKeeps(r, e, FinishRow(s, i, e.native(i).p), i);
    }
  }

  lemma BoundaryKeeps(r: Rules, s: Saga, i: nat)
    requires i < |s.rows|
    ensures RowsKept(s, Boundary(r, s, i).s)
  {
    BoundaryFrame(r, s, i);
    var rows1 := Boundary(r, s, i).s.rows;
    forall j | 0 <= j < |s.rows| ensures rows1[j] == s.rows[j] { assert rows1[..|s.rows|][j] == s.rows[j]; }
  }

  lemma KeptTwice(s: Saga, s1: Saga, s2: Saga)
    requires RowsKept(s, s1) && RowsKept(s1, s2)
    ensures RowsKept(s, s2)
  {
    forall j | 0 <= j < |s.rows| ensures SameIdentity(s.rows[j], s2.rows[j]) {
      assert SameIdentity(s.rows[j], s1.rows[j]) && SameIdentity(s1.rows[j], s2.rows[j]);
    }
    forall j | |s.rows| <= j < |s2.rows| ensures AsMinted(s2.rows[j]) {
      if j < |s1.rows| { assert AsMinted(s1.rows[j]) && SameIdentity(s1.rows[j], s2.rows[j]); }
    }
  }

  lemma {:induction false} AfterKeeps(r: Rules, e: Env, s: Saga, i: nat)
    requires i < |s.rows|
    ensures RowsKept(s, After(r, e, s, i).s)
    decreases Left(s), PassesLeft(s), |s.rows| - i, 0
  {
    hide RowsKept;
    BoundaryKeeps(r, s, i);
    if Boundary(r, s, i).Crossed? {
      CrossingDescends(r, s, i);
      GoKeeps(r, e, Boundary(r, s, i).s, i + 1);
      KeptTwice(s, Boundary(r, s, i).s, After(r, e, s, i).s);
    }
  }

  lemma ResumeKeeps(r: Rules, e: Env, s: Saga, i: nat, p: Payload)
    requires i < |s.rows|
    ensures RowsKept(s, Resume(r, e, s, i, p))
  {
    AfterKeeps(r, e, FinishRow(s, i, p), i);
    SettleKeeps(r, e, After(r, e, FinishRow(s, i, p), i), None);
  }

  lemma TriggerKeeps(r: Rules, e: Env, s: Saga, i: nat, guidance: Option<int>)
    requires i < |s.rows|
    ensures RowsKept(s, Trigger(r, e, s, i, guidance))
  {
    DispatchKeeps(r, e, s, i, guidance);
    FireKeeps(r, e, s, i);
    SettleKeeps(r, e, Fire(r, e, s, i), None);
  }

  lemma HandleRowKeeps(r: Rules, e: Env, s: Saga, i: nat, ev: Event)
    requires i < |s.rows| && !ev.EvHumanRetry?
    ensures RowsKept(s, HandleRow(r, e, s, i, ev))
  {
    hide FailStep, Settle, Go, Trigger, Unwind, Resume, StartUnwind, After;
    var row := s.rows[i];
    match ev
    case EvStepCompleted(_, p) =>
      FailStepKeeps(e, s, i, r.schema(row.lab, p));
      var err := r.gate(row.lab, row.args, Some(p));
      FailStepKeeps(e, WithRow(s, i, row.(error := err)), i, err);
      ResumeKeeps(r, e, s, i, p);
    case EvStepFailed(_, err) => FailStepKeeps(e, s, i, err);
    case EvHumanApproved(_, override) =>
      FailStepKeeps(e, s, i, Some(Err(false, false)));
      if override.Some? || row.held.HeldOutput? {
        var p := if override.Some? then override.value else row.held.output;
        FailStepKeeps(e, s, i, r.schema(row.lab, p));
        ResumeKeeps(r, e, s, i, p);
      }
    case EvHumanRejected(_, err) => FailStepKeeps(e, s, i, err);
    case _ =>
  }

  lemma HandleKeeps(r: Rules, e: Env, s: Saga, ev: Event)
    requires !ev.EvHumanRetry?
    ensures RowsKept(s, Handle(r, e, s, ev))
  {
    hide FailStep, Settle, Go, Trigger, Unwind, Resume, StartUnwind, After;
    if ev.EvSagaStarted? {
      GoKeeps(r, e, s.(status := Running), 0);
      SettleKeeps(r, e, Go(r, e, s.(status := Running), 0), None);
    } else if ev.EvStepCompensated? {
      if FindUndo(s.undos, ev.span).Some? {
        var u := FindUndo(s.undos, ev.span).value;
        UnwindKeeps(e, s.(undos := s.undos[u := s.undos[u].(status := Compensated)]), s.undos[u].seqNo - 1);
      }
    } else if ev.EvStepCompleted? || ev.EvStepFailed? || ev.EvHumanApproved? || ev.EvHumanRejected? {
      if FindRow(s.rows, ev.span).Some? { HandleRowKeeps(r, e, s, FindRow(s.rows, ev.span).value, ev); }
    }
  }

  lemma PokeJoinKeeps(r: Rules, e: Env, s: Saga)
    ensures RowsKept(s, PokeJoin(r, e, s))
  {
    var j := FindJoin(s.rows);
    if j.Some? { TriggerKeeps(r, e, s, j.value, None); }
  }

  lemma ResumeSpawnKeeps(e: Env, s: Saga)
    ensures RowsKept(s, ResumeSpawn(e, s))
  {
    if ResumableSpawn(e, s).Some? {
      var q := ResumableSpawn(e, s).value;
      UnwindKeeps(e, AddSpawnUndo(s, q), q as int - 1);
    }
  }

  lemma ChildTerminalKeeps(r: Rules, e: Env, s: Saga)
    ensures RowsKept(s, OnChildTerminal(r, e, s))
  {
    hide RowsKept, PokeJoin, ResumeSpawn;
    PokeJoinKeeps(r, e, s);
    ResumeSpawnKeeps(e, PokeJoin(r, e, s));
    KeptTwice(s, PokeJoin(r, e, s), OnChildTerminal(r, e, s));
  }

  // ---- Rotated keys

  /** All rows keep span and label, and their keys, except that row `i` may have a new
      retry key. */
  ghost predicate KeptBut(s: Saga, s1: Saga, i: int) {
    && s.nextId <= s1.nextId && |s.rows| <= |s1.rows|
    && (forall j :: 0 <= j < |s.rows| ==> s1.rows[j].span == s.rows[j].span && s1.rows[j].lab == s.rows[j].lab)
    && (forall j :: 0 <= j < |s.rows| ==> s1.rows[j].key == s.rows[j].key || (j == i && Rekeyed(s, s1, i)))
    && (forall j :: |s.rows| <= j < |s1.rows| ==> s1.rows[j].key == LabelKey(s1.rows[j].lab))
  }

  predicate Rekeyed(s: Saga, s1: Saga, i: nat)
    requires i < |s1.rows|
  {
    s1.rows[i].key == RetryKey(s1.rows[i].lab.spec.id, s.nextId) && s.nextId < s1.nextId
  }

  ghost predicate RetriesKept(s: Saga, s1: Saga) {
    && |s.rows| <= |s1.rows|
    && (forall j :: 0 <= j < |s.rows| ==> s1.rows[j].span == s.rows[j].span && s1.rows[j].retries == s.rows[j].retries)
    && (forall j :: |s.rows| <= j < |s1.rows| ==> s1.rows[j].retries == 0)
  }

  lemma KeptIs(s: Saga, s1: Saga, i: int)
    requires RowsKept(s, s1)
    ensures KeptBut(s, s1, i) && RetriesKept(s, s1)
  {
    forall j | 0 <= j < |s.rows|
      ensures s1.rows[j].span == s.rows[j].span && s1.rows[j].lab == s.rows[j].lab
      ensures s1.rows[j].key == s.rows[j].key && s1.rows[j].retries == s.rows[j].retries
    {
      assert SameIdentity(s.rows[j], s1.rows[j]);
    }
    forall j | |s.rows| <= j < |s1.rows| ensures s1.rows[j].key == LabelKey(s1.rows[j].lab) && s1.rows[j].retries == 0 {
      assert AsMinted(s1.rows[j]);
    }
  }

  /** First the key of row `i` is rotated, then the row is run. */
  lemma KeptAfterRotation(s: Saga, s0: Saga, s1: Saga, i: nat)
    requires i < |s.rows| && |s0.rows| == |s.rows| && s0.rows == s.rows[i := s0.rows[i]] && RowsKept(s0, s1)
    requires s0.rows[i].span == s.rows[i].span && s0.rows[i].lab == s.rows[i].lab
    requires s0.rows[i].key == RetryKey(s.rows[i].lab.spec.id, s.nextId) && s0.nextId == s.nextId + 1
    ensures KeptBut(s, s1, i)
    ensures s0.rows[i].retries == s.rows[i].retries ==> RetriesKept(s, s1)
  {
    KeptIs(s0, s1, i);
  }

  lemma RetryStepKeeps(r: Rules, e: Env, s: Saga, i: nat, force: bool, allow: bool, claim: Claim, requeue: bool)
    requires i < |s.rows|
    ensures var s1 := RetryStep(r, e, s, i, force, allow, claim, requeue); KeptBut(s, s1, i) && RetriesKept(s, s1)
  {
    hide RowsKept, KeptBut, RetriesKept, Trigger;
    var s1 := RetryStep(r, e, s, i, force, allow, claim, requeue);
    var s0 := ResetForRetry(s, i);
    StaysKept(s, s1, i);
    TriggerKeeps(r, e, s, i, None);
    KeptIs(s, Trigger(r, e, s, i, None), i);
    TriggerKeeps(r, e, s0, i, None);
    KeptAfterRotation(s, s0, Trigger(r, e, s0, i, None), i);
  }

  /** Nothing but status, payloads and things beside the rows changed. */
  lemma StaysKept(s: Saga, s1: Saga, i: int)
    ensures s1.nextId == s.nextId && |s1.rows| == |s.rows|
      && (forall j :: 0 <= j < |s.rows| ==> SameIdentity(s.rows[j], s1.rows[j]))
      ==> KeptBut(s, s1, i) && RetriesKept(s, s1)
  {
    if RowsKept(s, s1) { KeptIs(s, s1, i); }
  }

  lemma RetryForwardKeeps(r: Rules, e: Env, s: Saga, i: nat, force: bool, allow: bool, claim: Claim)
    requires i < |s.rows|
    ensures var s1 := RetryForward(r, e, s, i, force, allow, claim); KeptBut(s, s1, i) && RetriesKept(s, s1)
  {
    hide RowsKept, KeptBut, RetriesKept, Trigger;
    var s0 := ResetForRetry(s, i).(status := Running);
    StaysKept(s, s, i);
    TriggerKeeps(r, e, s0, i, None);
    KeptAfterRotation(s, s0, Trigger(r, e, s0, i, None), i);
  }

  lemma HumanRetryKeeps(r: Rules, e: Env, s: Saga, i: nat, guidance: Option<int>)
    requires i < |s.rows|
    ensures KeptBut(s, OnHumanRetry(r, e, s, i, guidance), i)
  {
    hide RowsKept, KeptBut, RetriesKept, Trigger;
    var s0 := ResetForHumanRetry(s, i);
    StaysKept(s, s, i);
    TriggerKeeps(r, e, s0, i, guidance);
    KeptAfterRotation(s, s0, Trigger(r, e, s0, i, guidance), i);
  }

  lemma StartCompensationKeeps(e: Env, s: Saga, i: nat)
    requires i < |s.rows|
    ensures RowsKept(s, StartCompensation(e, s, i))
  {
    var start: int := if Dirty(s.rows[i]) then i else i as int - 1;
    UnwindKeeps(e, s.(status := SagaCompensating, window := start), start);
  }

  predicate IsHumanRetry(op: Op) { op.OpIngest? && op.ev.EvHumanRetry? }

  lemma IngestKeeps(r: Rules, e: Env, s: Saga, ev: Event) returns (i: int)
    ensures KeptBut(s, Ingest(r, e, s, ev), i)
    ensures !ev.EvHumanRetry? ==> RetriesKept(s, Ingest(r, e, s, ev))
  {
    hide RowsKept, KeptBut, RetriesKept, HandleRow;
    i := -1;
    var s0 := s.(ingested := s.ingested + {KeyOf(ev)});
    StaysKept(s, s, -1);
    if KeyOf(ev) !in s.ingested {
      if ev.EvHumanRetry? {
        i := IngestedRetryKeeps(r, e, s, s0, ev);
      } else {
        HandleKeeps(r, e, s0, ev);
        KeptIs(s0, Handle(r, e, s0, ev), -1);
        KeysBeside(s, s0, Handle(r, e, s0, ev), -1);
      }
    }
  }

  lemma IngestedRetryKeeps(r: Rules, e: Env, s: Saga, s0: Saga, ev: Event) returns (i: int)
    requires ev.EvHumanRetry? && s0 == s.(ingested := s0.ingested)
    ensures KeptBut(s, Handle(r, e, s0, ev), i)
  {
    i := -1;
    StaysKept(s, s0, -1);
    if FindRow(s0.rows, ev.span).Some? {
      i := FindRow(s0.rows, ev.span).value;
      HumanRetryKeeps(r, e, s0, i, ev.guidance);
      KeysBeside(s, s0, Handle(r, e, s0, ev), i);
    }
  }

  lemma KeysBeside(s: Saga, s0: Saga, s1: Saga, i: int)
    requires s0 == s.(ingested := s0.ingested)
    ensures KeptBut(s0, s1, i) ==> KeptBut(s, s1, i)
    ensures RetriesKept(s0, s1) ==> RetriesKept(s, s1)
  {
  }

  /** Every transaction rotates the key of one row at most, and only a human's retry is
      counted. */
  lemma StepKeeps(r: Rules, e: Env, s: Saga, op: Op) returns (i: int)
    ensures KeptBut(s, Step(r, e, s, op), i)
    ensures !IsHumanRetry(op) ==> RetriesKept(s, Step(r, e, s, op))
  {
    hide RowsKept, KeptBut, RetriesKept, Ingest, OnChildTerminal, RetryStep, RetryForward, StartCompensation;
    i := -1;
    StaysKept(s, Step(r, e, s, op), -1);
    match op
    case OpIngest(ev) => i := IngestKeeps(r, e, s, ev);
    case OpRetryStep(span, force, allow, claim, requeue) =>
      if FindRow(s.rows, span).Some? {
        i := FindRow(s.rows, span).value;
        RetryStepKeeps(r, e, s, i, force, allow, claim, requeue);
      }
    case OpRetryForward(span, force, allow, claim) =>
      if FindRow(s.rows, span).Some? {
        i := FindRow(s.rows, span).value;
        RetryForwardKeeps(r, e, s, i, force, allow, claim);
      }
    case OpStartCompensation(span) =>
      if FindRow(s.rows, span).Some? {
        StartCompensationKeeps(e, s, FindRow(s.rows, span).value);
        KeptIs(s, Step(r, e, s, op), -1);
      }
    case OpRetryCompensation(_, _, _) =>
    case OpChildTerminal =>
      ChildTerminalKeeps(r, e, s);
      KeptIs(s, Step(r, e, s, op), -1);
  }

  // ---- Dedup keys

  /** The dedup key a transaction may add. */
  function Adds(op: Op): set<IngestKey> { if op.OpIngest? then {KeyOf(op.ev)} else {} }

  lemma HumanRetryAdds(r: Rules, e: Env, s: Saga, i: nat, guidance: Option<int>)
    requires i < |s.rows|
    ensures OnHumanRetry(r, e, s, i, guidance).ingested <= s.ingested
  {
    TriggerKeeps(r, e, ResetForHumanRetry(s, i), i, guidance);
  }

  lemma IngestAdds(r: Rules, e: Env, s: Saga, ev: Event)
    ensures Ingest(r, e, s, ev).ingested <= s.ingested + {KeyOf(ev)}
  {
    var s0 := s.(ingested := s.ingested + {KeyOf(ev)});
    if ev.EvHumanRetry? {
      var f := FindRow(s0.rows, ev.span);
      if f.Some? { HumanRetryAdds(r, e, s0, f.value, ev.guidance); }
    } else {
      HandleKeeps(r, e, s0, ev);
    }
  }

  lemma RetriesAdd(r: Rules, e: Env, s: Saga, i: nat, force: bool, allow: bool, claim: Claim, requeue: bool)
    requires i < |s.rows|
    ensures RetryStep(r, e, s, i, force, allow, claim, requeue).ingested <= s.ingested
    ensures RetryForward(r, e, s, i, force, allow, claim).ingested <= s.ingested
  {
    TriggerKeeps(r, e, s, i, None);
    TriggerKeeps(r, e, ResetForRetry(s, i), i, None);
    TriggerKeeps(r, e, ResetForRetry(s, i).(status := Running), i, None);
  }

  /** A transaction adds no dedup key but that of the event it ingests. */
  lemma StepAdds(r: Rules, e: Env, s: Saga, op: Op)
    ensures Step(r, e, s, op).ingested <= s.ingested + Adds(op)
  {
    match op
    case OpIngest(ev) => IngestAdds(r, e, s, ev);
    case OpRetryStep(span, force, allow, claim, requeue) =>
      if FindRow(s.rows, span).Some? { RetriesAdd(r, e, s, FindRow(s.rows, span).value, force, allow, claim, requeue); }
    case OpRetryForward(span, force, allow, claim) =>
      if FindRow(s.rows, span).Some? { RetriesAdd(r, e, s, FindRow(s.rows, span).value, force, allow, claim, false); }
    case OpStartCompensation(span) =>
      if FindRow(s.rows, span).Some? { StartCompensationKeeps(e, s, FindRow(s.rows, span).value); }
    case OpRetryCompensation(_, _, _) =>
    case OpChildTerminal => ChildTerminalKeeps(r, e, s);
  }
}
