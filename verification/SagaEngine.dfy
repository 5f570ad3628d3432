/** The engine in the form of its Python code: an object whose handlers lock, update and
    save one saga's rows in place. Each method is proved to compute the transition of SagaSpec. */
module SagaEngine {
  import opened SagaTypes
  import opened SagaSpec
  import opened ForwardPath
  import opened ForwardSteps
  import opened Compensation
  import opened Scheduling
  import opened SagaInvariant
  import opened SagaRuns
  import opened EngineTrack

  function Prepended(labels: seq<Label>, g: Segment): Segment {
    g.(labels := labels + g.labels)
  }

  class Engine {
    const rules: Rules
    const blueprint: seq<Top>
    var status: SagaStatus
    var rows: seq<Row>
    var ctx: Context
    var next: nat
    var active: Option<string>
    var undos: seq<Undo>
    var commands: map<Key, Command>
    var notices: set<Notice>
    var ingested: set<IngestKey>
    var nextId: nat
    ghost var window: int

    ghost function View(): Saga
      reads this
    {
      Saga(blueprint, status, rows, ctx, next, active, undos, commands, notices, ingested, nextId, window)
    }

    ghost predicate Valid()
      reads this
    {
      Inv(rules, View()) && NoticesOk(View())
    }

    // ---- common/loops.py

    /** One pass over a loop body, annotated with loop id and iteration. */
    method MintBody(loop: Loop, iteration: nat) returns (segment: seq<Label>)
      ensures segment == Annotate(loop.body, Some(Pass(loop.id, iteration)))
    {
      segment := [];
      for k := 0 to |loop.body|
        invariant segment == Annotate(loop.body[..k], Some(Pass(loop.id, iteration)))
      {
        segment := segment + [Label(loop.body[k], Some(Pass(loop.id, iteration)))];
      }
      assert loop.body[..|loop.body|] == loop.body;
    }

    /** Plain steps up to the next loop, and that loop's first pass. */
    method TakeNextSegment(from: nat) returns (segment: seq<Label>, nextIndex: nat, activeLoop: Option<string>)
      requires from <= |blueprint|
      ensures Segment(segment, nextIndex, activeLoop) == TakeSegment(blueprint, from)
    {
      segment, nextIndex, activeLoop := [], from, None;
      var index := from;
      while index < |blueprint|
        invariant from <= index <= |blueprint| && nextIndex == index && activeLoop.None?
        invariant TakeSegment(blueprint, from) == Prepended(segment, TakeSegment(blueprint, index))
      {
        match blueprint[index]
        case Block(loop) =>
          var body := MintBody(loop, 1);
          segment := segment + body;
          activeLoop := Some(loop.id);
          nextIndex := index + 1;
          return;
        case Exec(sp) =>
          ghost var rest := TakeSegment(blueprint, index + 1);
          assert segment + ([Label(sp, None)] + rest.labels) == segment + [Label(sp, None)] + rest.labels;
          segment := segment + [Label(sp, None)];
          nextIndex := index + 1;
          index := index + 1;
      }
      assert segment + [] == segment;
    }

    method LoopBodyStepIds(loop: Loop) returns (ids: seq<string>)
      ensures ids == BodyIds(loop.body)
    {
      ids := [];
      for k := 0 to |loop.body|
        invariant ids == BodyIds(loop.body[..k])
      {
        ids := ids + [loop.body[k].id];
      }
      assert loop.body[..|loop.body|] == loop.body;
    }

    method IsLastBodyStep(lab: Label, loop: Loop) returns (last: bool)
      requires loop.body != []
      ensures last == EndsBody(lab, loop)
    {
      var ids := LoopBodyStepIds(loop);
      last := lab.spec.id == ids[|ids| - 1];
    }

    method SetLoopContextStatus(loop: string, iteration: nat, max: nat, st: LoopStatus)
      modifies this`ctx
      ensures ctx == SetLoop(old(ctx), loop, iteration, max, st)
    {
      ctx := ctx.(loops := ctx.loops[loop := LoopCtx(iteration, max, st)]);
    }

    // ---- engine/step_materialize.py

    /** New PENDING rows with consecutive forward_seq and order_index. */
    method MaterializeExecutableSteps(specs: seq<Label>, startForwardSeq: nat, startOrderIndex: nat)
      requires startForwardSeq == |rows| && startOrderIndex == |rows|
      modifies this`rows, this`nextId
      ensures View() == Mint(old(View()), specs)
    {
      var forwardSeq, orderIndex := startForwardSeq, startOrderIndex;
      ghost var rows0, nextId0 := rows, nextId;
      for k := 0 to |specs|
        invariant forwardSeq == startForwardSeq + k && orderIndex == startOrderIndex + k
        invariant nextId == nextId0 + k
        invariant rows == rows0 + MintedRows(specs[..k], |rows0|, nextId0)
      {
        var key := TextKey(KeyText(specs[k].spec.id, specs[k].pass));
        rows := rows + [Row(nextId, forwardSeq, orderIndex, specs[k], Pending, key, EMPTY, None, NoHold, None, 0)];
        nextId := nextId + 1;
        forwardSeq, orderIndex := forwardSeq + 1, orderIndex + 1;
      }
      assert specs[..|specs|] == specs;
    }

    /** A saga as it is started. */
    constructor (r: Rules, bp: seq<Top>)
      ensures rules == r && blueprint == bp && View() == Start(bp)
    {
      rules, blueprint := r, bp;
      status, rows, ctx := SagaPending, [], Context(Shells(bp), LoopShells(bp));
      next, active := 0, None;
      undos, commands, notices, ingested := [], map[], {}, {};
      nextId, window := 0, -1;
      new;
      var segment;
      segment, next, active := TakeNextSegment(0);
      MaterializeExecutableSteps(segment, 0, 0);
    }

    // ---- engine/logic.py: terminal transitions and compensation

    method FinalizeSagaCompensated()
      modifies this`status, this`rows, this`notices
      ensures View() == ConcludeCompensated(old(View()))
    {
      status := SagaCompensated;
      rows := SkipPending(rows);
      notices := notices + {NoticeCompensated};
    }

    method FailSaga()
      modifies this`status, this`rows, this`notices
      ensures View() == ConcludeFailed(old(View()))
    {
      status := SagaFailed;
      rows := SkipPending(rows);
      notices := notices + {NoticeFailed};
    }

    method HandleSagaCompletion()
      modifies this`status, this`rows, this`notices
      ensures View() == Conclude(old(View()))
    {
      if status == SagaCompleted { return; }
      status := SagaCompleted;
      rows := SkipPending(rows);
      notices := notices + {NoticeCompleted};
    }

    /** The outbox ignores a second write under one idempotency key. */
    method EmitCommand(key: Key, command: Command)
      modifies this`commands
      ensures commands == Publish(old(commands), key, command)
    {
      if key !in commands { commands := commands[key := command]; }
    }

    method ScheduleCompensationForForward(e: Env, q: nat)
      requires q < |rows|
      modifies this
      ensures View() == ScheduleUndo(e, old(View()), q)
    {
      var row := rows[q];
      var span := nextId;
      nextId := nextId + 1;
      if !e.undoBuilds(q) {
        rows := rows[q := row.(status := Failed, error := Some(Err(false, false)))];
        FailSaga();
        return;
      }
      undos := undos + [Undo(span, row.span, row.seqNo, Compensating, UndoKey(span))];
      EmitCommand(UndoKey(span), DoUndo(span, row.span));
    }

    /** Await the children of a spawn row, then record its undo and walk on. */
    method CompensateSpawnSagasForward(e: Env, q: nat)
      requires q < |rows| && Numbered(View())
      modifies this
      ensures View() == if e.childrenDone(q) then Unwind(e, AddSpawnUndo(old(View()), q), q - 1) else old(View())
      decreases q + 1, 0
    {
      if !e.childrenDone(q) { return; }
      ghost var s := View();
      undos := undos + [Undo(nextId, rows[q].span, rows[q].seqNo, Compensated, SpawnUndoKey(rows[q].key))];
      nextId := nextId + 1;
      assert View() == AddSpawnUndo(s, q);
      NumberedSpawnUndo(s, q);
      AdvanceLifoCompensation(e, q as int - 1);
    }

    method UndoRowStatusExists(forward: nat, st: StepStatus) returns (found: bool)
      ensures found == HasUndo(undos, forward, st)
    {
      found := exists u <- undos :: u.forward == forward && u.status == st;
    }

    /** Nothing to undo at `seqNo`: no such row, none declared, not eligible, or undone. */
    method PassesOver(seqNo: int) returns (skip: bool)
      requires Numbered(View()) && seqNo >= 0
      ensures skip == (seqNo >= |rows| || !NeedsUndo(rows[seqNo]) || HasUndo(undos, rows[seqNo].span, Compensated))
    {
      var found := FindSeq(rows, seqNo);
      NumberedQueries(View(), seqNo);
      if found.None? { return true; }
      var forward := rows[found.value];
      if !HasCompensation(forward) { return true; }
      if !Eligible(forward.status) { return true; }
      skip := UndoRowStatusExists(forward.span, Compensated);
    }

    /** Walk compensatable forward rows by forward_seq downwards from `fromSeq`. */
    method AdvanceLifoCompensation(e: Env, fromSeq: int)
      requires Numbered(View())
      modifies this
      ensures View() == Unwind(e, old(View()), fromSeq)
      decreases if fromSeq < 0 then 0 else fromSeq + 1, 1
    {
      ghost var s := View();
      var seqNo := fromSeq;
      while seqNo >= 0
        invariant seqNo <= fromSeq && View() == s && Unwind(e, s, seqNo) == Unwind(e, s, fromSeq)
      {
        var skip := PassesOver(seqNo);
        if skip {
          seqNo := seqNo - 1;
          continue;
        }
        var open := UndoRowStatusExists(rows[seqNo].span, Compensating);
        if open { return; }
        if rows[seqNo].lab.spec.kind == SpawnSagas {
          CompensateSpawnSagasForward(e, seqNo);
          return;
        }
        ScheduleCompensationForForward(e, seqNo);
        return;
      }
      FinalizeSagaCompensated();
    }

    method TriggerCompensation(e: Env, forwardSeq: int)
      requires Numbered(View())
      modifies this
      ensures View() == Unwind(e, old(View()).(window := forwardSeq), forwardSeq)
    {
      window := forwardSeq;
      AdvanceLifoCompensation(e, forwardSeq);
    }

    method MarkFailed(i: nat, err: Option<Err>)
      requires i < |rows|
      modifies this`rows
      ensures rows == old(rows)[i := FailedRow(old(rows)[i], err)]
    {
      var step := rows[i];
      if step.status != TimedOut {
        step := step.(status := if err.Some? && err.value.timeout then TimedOut else Failed);
      }
      if step.error.None? { step := step.(error := err); }
      rows := rows[i := step];
    }

    /** Mark the step failed or timed out, then hold, fail the saga or start compensation. */
    method ApplyStepFailureLifecycle(e: Env, i: nat, err: Option<Err>)
      requires i < |rows| && Numbered(View())
      modifies this
      ensures View() == FailStep(e, old(View()), i, err)
    {
      hide Unwind;
      ghost var s := View();
      MarkFailed(i, err);
      SameNumbers(s, View(), i);
      if rows[i].lab.spec.awaitOperator {
        status := AwaitingRecovery;
        return;
      }
      var dirty := rows[i].status == TimedOut || (err.Some? && err.value.crash);
      var startSeq := if dirty then rows[i].seqNo else rows[i].seqNo - 1;
      if startSeq < 0 {
        FailSaga();
        return;
      }
      status := SagaCompensating;
      TriggerCompensation(e, startSeq);
    }

    // ---- engine/loop_control.py

    /** A loop that cannot go on after a clean pass: compensate including that row. */
    method FailSagaAfterSuccessfulBody(e: Env, i: nat, err: Err)
      requires i < |rows| && Numbered(View()) && !err.crash && !err.timeout
      modifies this
      ensures View() == Settle(rules, e, LoopFailed(old(View()), i), None)
    {
      ghost var s := View();
      status := SagaCompensating;
      if rows[i].error.None? { rows := rows[i := rows[i].(error := Some(err))]; }
      assert rows == s.rows[i := s.rows[i].(error := if s.rows[i].error.Some? then s.rows[i].error else Some(err))];
      SameNumbers(s, View(), i);
      TriggerCompensation(e, rows[i].seqNo);
    }

    /** Mint `specs` after the last row and schedule from the first of them. The ghost
        arguments bound what is left to schedule. */
    method MintAndSchedule(e: Env, specs: seq<Label>, ghost left: nat, ghost passes: nat)
      requires Ahead(Mint(View(), specs), |rows|)
      requires var s1 := Mint(View(), specs); Left(s1) < left || (Left(s1) == left && PassesLeft(s1) < passes)
      requires Numbered(View())
      modifies this
      ensures View() == Settle(rules, e, Go(rules, e, Mint(old(View()), specs), |old(rows)|), None)
      decreases left, passes, 0, 0
    {
      NumberedQueries(View(), 0);
      var maxSeq := MaxForwardSeq(rows);
      MaterializeExecutableSteps(specs, maxSeq + 1, maxSeq + 1);
      ScheduleNextForwardStep(e, maxSeq);
    }

    /** Leave the loop: its status, the next segment and the cursor. */
    method LeaveLoop(loop: Loop, iteration: nat) returns (segment: seq<Label>)
      requires next <= |blueprint|
      modifies this`ctx, this`next, this`active
      ensures var s1 := if segment == [] then View() else Mint(View(), segment);
        s1 == SagaSpec.ExitLoop(old(View()), loop.id, iteration, loop.max)
    {
      SetLoopContextStatus(loop.id, iteration, loop.max, LoopExited);
      segment, next, active := TakeNextSegment(next);
      if segment != [] && active.Some? && active.value in ctx.loops {
        SetLoopContextStatus(active.value, 1, ctx.loops[active.value].max, LoopRunning);
      }
    }

    method ExitLoop(e: Env, i: nat, loop: Loop, iteration: nat)
      requires next <= |blueprint| && i + 1 == |rows| && rows[i].seqNo == i && Numbered(View())
      requires var s1 := SagaSpec.ExitLoop(View(), loop.id, iteration, loop.max);
        Ahead(s1, i + 1) && Descends(View(), s1)
      modifies this
      ensures View() ==
        var s1 := SagaSpec.ExitLoop(old(View()), loop.id, iteration, loop.max);
        Settle(rules, e, Go(rules, e, s1, i + 1), None)
      decreases Left(View()), PassesLeft(View()), |rows| - i, 1
    {
      hide Go, Ahead;
      ghost var left, passes := Left(View()), PassesLeft(View());
      var segment := LeaveLoop(loop, iteration);
      if segment == [] {
        ScheduleNextForwardStep(e, rows[i].seqNo);
      } else {
        MintAndSchedule(e, segment, left, passes);
      }
    }

    method ContinueLoop(e: Env, i: nat, loop: Loop, iteration: nat)
      requires i + 1 == |rows| && loop.body != [] && Numbered(View())
      requires var s1 := SagaSpec.ContinueLoop(View(), loop, iteration);
        Ahead(s1, i + 1) && Descends(View(), s1)
      modifies this
      ensures View() ==
        var s1 := SagaSpec.ContinueLoop(old(View()), loop, iteration);
        Settle(rules, e, Go(rules, e, s1, i + 1), None)
      decreases Left(View()), PassesLeft(View()), |rows| - i, 1
    {
      hide Go, Ahead;
      ghost var left, passes := Left(View()), PassesLeft(View());
      SetLoopContextStatus(loop.id, iteration + 1, loop.max, LoopRunning);
      var body := MintBody(loop, iteration + 1);
      MintAndSchedule(e, body, left, passes);
    }

    /** `until` failed to evaluate, or the passes are spent. */
    method ExhaustLoop(e: Env, i: nat, loop: Loop, iteration: nat)
      requires i < |rows| && Numbered(View())
      modifies this
      ensures View() ==
        var s1 := old(View()).(ctx := SetLoop(old(ctx), loop.id, iteration, loop.max, LoopExhausted));
        Settle(rules, e, LoopFailed(s1, i), None)
    {
      SetLoopContextStatus(loop.id, iteration, loop.max, LoopExhausted);
      FailSagaAfterSuccessfulBody(e, i, Err(false, false));
    }

    /** If row `i` ends a loop body, decide on the loop and take over scheduling. */
    method HandlePossibleLoopBoundary(e: Env, i: nat) returns (handled: bool)
      requires i < |rows| && OnTrack(View(), i)
      modifies this
      ensures handled ==> View() == Settle(rules, e, After(rules, e, old(View()), i), None)
      ensures !handled ==> View() == old(View()) && Ahead(View(), i + 1)
      ensures !handled ==> After(rules, e, View(), i) == Go(rules, e, View(), i + 1)
      decreases Left(View()), PassesLeft(View()), |rows| - i, 2
    {
      LastBodyStepIsLastRow(View(), i);
      if i + 1 < |rows| || active.None? { GoOn(rules, e, View(), i); }
      var lab := rows[i].lab;
      if lab.pass.None? { return false; }
      var iteration := lab.pass.value.k;
      var found := FindLoop(blueprint, lab.pass.value.loop);
      if found.None? { return false; }
      var loop := found.value;
      var last := IsLastBodyStep(lab, loop);
      if !last { return false; }
      handled := true;
      var exit := rules.until(ctx, loop.id, iteration);
      if exit.UntilTrue? {
        ExitCrossing(rules, e, View(), i, loop, iteration);
        ExitLoop(e, i, loop, iteration);
      } else if exit.UntilError? || iteration >= loop.max {
        BoundaryBreaks(rules, e, View(), i, loop, iteration);
        ExhaustLoop(e, i, loop, iteration);
      } else {
        ContinueCrossing(rules, e, View(), i, loop, iteration);
        ContinueLoop(e, i, loop, iteration);
      }
    }

    // ---- engine/logic.py: scheduling

    /** SKIPPED by its gate; inside a loop the step's entry is blanked. */
    method MarkStepSkipped(i: nat)
      requires i < |rows|
      modifies this`rows, this`ctx
      ensures View() == SkipRow(old(View()), i)
    {
      var step := rows[i];
      rows := rows[i := step.(status := Skipped)];
      if step.lab.pass.Some? { ctx := ctx.(steps := ctx.steps[step.lab.spec.id := BLANK]); }
    }

    /** Pass over row `i`; this may end a loop body. */
    method PassOver(e: Env, i: nat) returns (handled: bool)
      requires i < |rows| && OnTrack(View(), i)
      modifies this
      ensures handled ==> View() == Settle(rules, e, After(rules, e, SkipRow(old(View()), i), i), None)
      ensures !handled ==> View() == SkipRow(old(View()), i) && Ahead(View(), i + 1)
      ensures !handled ==> Left(View()) == old(Left(View())) && PassesLeft(View()) == old(PassesLeft(View()))
      ensures !handled ==> After(rules, e, View(), i) == Go(rules, e, View(), i + 1)
      decreases Left(View()), PassesLeft(View()), |rows| - i, 3
    {
      SkipOnTrack(View(), i);
      MarkStepSkipped(i);
      handled := HandlePossibleLoopBoundary(e, i);
    }

    /** Row `i` is next: start it, fail it, or pass over it. */
    method ScheduleOrPassOver(e: Env, i: nat) returns (settled: bool)
      requires i < |rows| && Ahead(View(), i)
      modifies this
      ensures settled ==> View() == Settle(rules, e, Go(rules, e, old(View()), i), None)
      ensures !settled ==> Ahead(View(), i + 1) && |rows| == old(|rows|)
      ensures !settled ==> Left(View()) == old(Left(View())) && PassesLeft(View()) == old(PassesLeft(View()))
      ensures !settled ==> Go(rules, e, View(), i + 1) == Go(rules, e, old(View()), i)
      decreases Left(View()), PassesLeft(View()), |rows| - i, 8
    {
      var lab := rows[i].lab;
      if lab.spec.hasWhen {
        var gate := rules.when(ctx, i, lab);
        if gate.WhenError? {
          ApplyStepFailureLifecycle(e, i, gate.err);
          return true;
        }
        if gate.WhenFalse? {
          settled := PassOver(e, i);
          return;
        }
      }
      TriggerStep(e, rows[i].seqNo, false, None);
      settled := true;
    }

    /** Run the next eligible row above `afterSeq`, passing over rows whose gate is false. */
    method ScheduleNextForwardStep(e: Env, afterSeq: int)
      requires -1 <= afterSeq < |rows| && Ahead(View(), (afterSeq + 1) as nat)
      modifies this
      ensures View() == Settle(rules, e, Go(rules, e, old(View()), (afterSeq + 1) as nat), None)
      decreases Left(View()), PassesLeft(View()), |rows| - (afterSeq + 1), 9
    {
      hide Go, Ahead;
      ghost var s, goal := View(), Go(rules, e, View(), (afterSeq + 1) as nat);
      ghost var left, passes := Left(s), PassesLeft(s);
      var n := |rows|;
      var i: nat := afterSeq + 1;
      while i < n
        invariant afterSeq + 1 <= i <= n == |rows| && View() == s && Ahead(s, i)
        invariant Left(s) == left && PassesLeft(s) == passes
        invariant Go(rules, e, s, i) == goal
      {
        var settled := ScheduleOrPassOver(e, i);
        if settled { return; }
        s := View();
        i := i + 1;
      }
      NothingLeft(rules, e, s);
      HandleSagaCompletion();
    }

    method RecordOutput(i: nat, output: Payload)
      requires i < |rows|
      modifies this`rows, this`ctx, this`status
      ensures View() == FinishRow(old(View()), i, output)
    {
      var normalized := if output.data.Some? then output.data.value else EMPTY;
      var step := rows[i].(status := Completed, output := Some(normalized), held := NoHold);
      rows := rows[i := step];
      ctx := ctx.(steps := ctx.steps[step.lab.spec.id := Entry(normalized, output.facts)]);
      if status == SagaAwaitingHuman { status := Running; }
    }

    /** A loop boundary if row `i` ends a pass, the next row otherwise. */
    method AdvanceAfter(e: Env, i: nat)
      requires i < |rows| && OnTrack(View(), i)
      modifies this
      ensures View() == Settle(rules, e, After(rules, e, old(View()), i), None)
      decreases Left(View()), PassesLeft(View()), |rows| - i, 3
    {
      hide Go, After, Ahead;
      ghost var goal := After(rules, e, View(), i);
      var handled := HandlePossibleLoopBoundary(e, i);
      if handled { return; }
      assert goal == Go(rules, e, View(), i + 1);
      ScheduleNextForwardStep(e, rows[i].seqNo);
    }

    /** Record a step's output, then go on after it. */
    method FinalizeStepOutputAndAdvance(e: Env, i: nat, output: Payload)
      requires i < |rows| && OnTrack(View(), i)
      modifies this
      ensures View() == Resume(rules, e, old(View()), i, output)
      decreases Left(View()), PassesLeft(View()), |rows| - i, 4
    {
      FinishOnTrack(View(), i, output);
      RecordOutput(i, output);
      AdvanceAfter(e, i);
    }

    method EnterHitlHold(i: nat, pending: Held)
      requires i < |rows|
      modifies this`rows, this`status
      ensures View() == Hold(old(View()), i, pending)
    {
      rows := rows[i := rows[i].(status := AwaitingHuman, held := pending)];
      status := SagaAwaitingHuman;
    }

    /** Queue DO_STEP or DO_COMMIT; a commit first passes its policy gate and its review. */
    method BuildForwardWorkerCommand(e: Env, i: nat)
      requires i < |rows| && Numbered(View())
      modifies this
      ensures View() == Deliver(rules, e, old(View()), i, old(rows)[i].args)
    {
      var step := rows[i];
      if step.lab.spec.kind != Commit {
        EmitCommand(step.key, DoStep(step.span, step.args));
        return;
      }
      if step.lab.spec.toolCount != 1 {
        ApplyStepFailureLifecycle(e, i, Some(Err(false, false)));
        return;
      }
      if step.lab.spec.hasPolicy {
        var denied := rules.gate(step.lab, step.args, None);
        if denied.Some? {
          ApplyStepFailureLifecycle(e, i, denied);
          return;
        }
      }
      if step.lab.spec.hitl {
        EnterHitlHold(i, HeldArgs(step.args));
        return;
      }
      EmitCommand(step.key, DoCommit(step.span, step.args));
    }

    /** Spawn children or try to complete a join, in the same transaction. */
    method RunNative(e: Env, i: nat)
      requires i < |rows| && OnTrack(View(), i)
      modifies this
      ensures View() == match e.native(i)
        case NativeWait => old(View())
        case NativeFailure(err) => FailStep(e, old(View()), i, err)
        case NativeOutput(p) => Resume(rules, e, old(View()), i, p)
      decreases Left(View()), PassesLeft(View()), |rows| - i, 5
    {
      match e.native(i)
      case NativeWait =>
      case NativeFailure(err) => ApplyStepFailureLifecycle(e, i, err);
      case NativeOutput(p) => FinalizeStepOutputAndAdvance(e, i, p);
    }

    /** Resolve the arguments of a started worker row and hand it over. */
    method DispatchWorker(e: Env, i: nat, guidance: Option<int>)
      requires i < |rows| && Numbered(View()) && rows[i].status == InProgress
      modifies this
      ensures View() == Dispatch(rules, e, old(View()), i, guidance)
    {
      ghost var s := View();
      assert rows[i := rows[i].(status := InProgress)] == rows;
      var resolved := rules.resolve(ctx, rows[i].lab, rows[i].retries, guidance);
      if resolved.Unresolved? {
        ApplyStepFailureLifecycle(e, i, resolved.err);
        return;
      }
      rows := rows[i := rows[i].(args := resolved.args)];
      SameNumbers(s, View(), i);
      BuildForwardWorkerCommand(e, i);
    }

    /** Mark row `i` IN_PROGRESS and run it. */
    method StartStep(e: Env, i: nat, guidance: Option<int>)
      requires i < |rows| && OnTrack(View(), i)
      modifies this
      ensures View() == Trigger(rules, e, old(View()), i, guidance)
      decreases Left(View()), PassesLeft(View()), |rows| - i, 6
    {
      hide Go, Ahead, After;
      MarkedOnTrack(View(), i);
      MarkedFirst(rules, e, View(), i, guidance);
      rows := rows[i := rows[i].(status := InProgress)];
      if WorkerKind(rows[i].lab.spec.kind) {
        DispatchWorker(e, i, guidance);
      } else {
        RunNative(e, i);
      }
    }

    /** Start the row at `forwardSeq`: a worker command, a hold, or engine-native work.
        Unless told otherwise, rows that are finished, running or held are left alone. */
    method TriggerStep(e: Env, forwardSeq: int, allowStarted: bool, guidance: Option<int>)
      requires 0 <= forwardSeq < |rows| && OnTrack(View(), forwardSeq as nat)
      modifies this
      ensures View() ==
        var st := old(rows)[forwardSeq].status;
        if st == Completed || (!allowStarted && (st == InProgress || st == AwaitingHuman)) then old(View())
        else Trigger(rules, e, old(View()), forwardSeq as nat, guidance)
      decreases Left(View()), PassesLeft(View()), |rows| - forwardSeq, 7
    {
      var found := FindSeq(rows, forwardSeq);
      NumberedQueries(View(), forwardSeq);
      if found.None? { return; }
      var st := rows[found.value].status;
      if st == Completed { return; }
      if (st == InProgress || st == AwaitingHuman) && !allowStarted { return; }
      StartStep(e, found.value, guidance);
    }

    // ---- engine/logic.py: event handlers

    method HandleSagaStarted(e: Env)
      requires Valid()
      modifies this
      ensures View() == OnSagaStarted(rules, e, old(View()))
    {
      if status != SagaPending { return; }
      PendingAhead(rules, View());
      RunningAhead(View(), 0);
      status := Running;
      ScheduleNextForwardStep(e, -1);
    }

    method HandleStepCompleted(e: Env, i: nat, output: Payload)
      requires Valid() && i < |rows|
      modifies this
      ensures View() == OnStepCompleted(rules, e, old(View()), i, output)
    {
      if status == AwaitingRecovery || rows[i].status != InProgress { return; }
      ActiveIsLive(rules, View(), i);
      LiveOnTrack(rules, View(), i);
      var lab := rows[i].lab;
      var invalid := rules.schema(lab, output);
      if invalid.Some? {
        ApplyStepFailureLifecycle(e, i, invalid);
        return;
      }
      if lab.spec.kind == Reason && lab.spec.hasPolicy {
        var denied := rules.gate(lab, rows[i].args, Some(output));
        if denied.Some? {
          rows := rows[i := rows[i].(error := denied)];
          ApplyStepFailureLifecycle(e, i, denied);
          return;
        }
      }
      if lab.spec.kind == Reason && lab.spec.hitl {
        EnterHitlHold(i, HeldOutput(output));
        return;
      }
      FinalizeStepOutputAndAdvance(e, i, output);
    }

    /** Release the commit that was held: its command goes out with the reviewed arguments. */
    method ReleaseCommit(e: Env, i: nat)
      requires i < |rows| && Numbered(View()) && rows[i].status == AwaitingHuman && rows[i].lab.spec.kind == Commit
      modifies this
      ensures View() == OnHumanApproved(rules, e, old(View()), i, None)
    {
      var step := rows[i];
      if step.lab.spec.toolCount != 1 {
        ApplyStepFailureLifecycle(e, i, Some(Err(false, false)));
        return;
      }
      if status == SagaAwaitingHuman { status := Running; }
      rows := rows[i := step.(status := InProgress, held := NoHold)];
      EmitCommand(step.key, DoCommit(step.span, step.args));
    }

    method HandleHitlApproved(e: Env, i: nat, override: Option<Payload>)
      requires Valid() && i < |rows|
      modifies this
      ensures View() == OnHumanApproved(rules, e, old(View()), i, override)
    {
      var step := rows[i];
      if step.status != AwaitingHuman { return; }
      if step.lab.spec.kind == Commit {
        ReleaseCommit(e, i);
        return;
      }
      if override.None? && !step.held.HeldOutput? { return; }
      var output := if override.Some? then override.value else step.held.output;
      var invalid := rules.schema(step.lab, output);
      if invalid.Some? {
        ApplyStepFailureLifecycle(e, i, invalid);
        return;
      }
      ActiveIsLive(rules, View(), i);
      LiveOnTrack(rules, View(), i);
      FinalizeStepOutputAndAdvance(e, i, output);
    }

    method HandleHumanRejected(e: Env, i: nat, err: Option<Err>)
      requires Valid() && i < |rows|
      modifies this
      ensures View() == OnHumanRejected(e, old(View()), i, err)
    {
      if rows[i].status != AwaitingHuman { return; }
      ApplyStepFailureLifecycle(e, i, err);
    }

    /** A fresh idempotency key; what the last attempt left is cleared. */
    method RotateStepForRetry(i: nat)
      requires i < |rows|
      modifies this`rows, this`nextId
      ensures nextId == old(nextId) + 1 && rows == old(rows)[i := RotatedRow(old(rows)[i], old(nextId))]
    {
      var step := rows[i];
      rows := rows[i := step.(key := RetryKey(step.lab.spec.id, nextId), held := NoHold, output := None, error := None)];
      nextId := nextId + 1;
    }

    method ClearWorkerResultIngestDedup(span: nat)
      modifies this`ingested
      ensures ingested == old(ingested) - ResultKeys(span)
    {
      ingested := ingested - {IngestKey(TypeStepCompleted, Some(span)), IngestKey(TypeStepFailed, Some(span))};
    }

    method ResetStepForHitlRetry(i: nat)
      requires i < |rows| && (status == SagaAwaitingHuman || status == Running)
      modifies this
      ensures View() == ResetForHumanRetry(old(View()), i)
    {
      RotateStepForRetry(i);
      ClearWorkerResultIngestDedup(rows[i].span);
      rows := rows[i := rows[i].(retries := rows[i].retries + 1)];
      if status == SagaAwaitingHuman { status := Running; }
    }

    method HandleHumanRetry(e: Env, i: nat, guidance: Option<int>)
      requires Valid() && i < |rows|
      modifies this
      ensures View() == OnHumanRetry(rules, e, old(View()), i, guidance)
    {
      if rows[i].status != AwaitingHuman { return; }
      if status != SagaAwaitingHuman && status != Running { return; }
      if !RetryAllowed(rows[i]) { return; }
      ghost var s := View();
      ActiveIsLive(rules, s, i);
      LiveOnTrack(rules, s, i);
      ResetStepForHitlRetry(i);
      TrackKept(s, View(), i);
      TriggerStep(e, rows[i].seqNo, true, guidance);
    }

    method HandleStepFailed(e: Env, i: nat, err: Option<Err>)
      requires Valid() && i < |rows|
      modifies this
      ensures View() == OnStepFailed(e, old(View()), i, err)
    {
      var st := rows[i].status;
      if status == AwaitingRecovery { return; }
      if st == Compensating || st == Compensated || st == Failed { return; }
      if st == TimedOut && (status == SagaCompensating || status == SagaCompensated || status == SagaFailed) { return; }
      ApplyStepFailureLifecycle(e, i, err);
    }

    method HandleCompensationCompleted(e: Env, u: nat)
      requires Valid() && u < |undos|
      modifies this
      ensures View() == OnStepCompensated(e, old(View()), u)
    {
      if undos[u].status != Compensating { return; }
      undos := undos[u := undos[u].(status := Compensated)];
      AdvanceLifoCompensation(e, undos[u].seqNo - 1);
    }

    method HandleCompensationFailed(span: nat, err: Option<Err>)
      modifies this
      ensures View() == OnCompensationFailed(old(View()), span, err)
    {
      var u := FindUndo(undos, span);
      if u.Some? {
        undos := undos[u.value := undos[u.value].(status := Failed)];
      } else {
        var i := FindRow(rows, span);
        if i.Some? { rows := rows[i.value := rows[i.value].(status := Failed, error := err)]; }
      }
      FailSaga();
    }

    /** One ingest transaction: claim the dedup key, then dispatch on the event. */
    method ProcessSagaEvent(e: Env, ev: Event)
      requires Valid()
      modifies this
      ensures View() == Ingest(rules, e, old(View()), ev)
    {
      ghost var s := View();
      var key := KeyOf(ev);
      if key in ingested { return; }
      ingested := ingested + {key};
      SideIrrelevant(rules, s, View());
      DispatchEvent(e, ev);
    }

    method DispatchEvent(e: Env, ev: Event)
      requires Valid()
      modifies this
      ensures View() == Handle(rules, e, old(View()), ev)
    {
      hide Inv, TrackFacts, OnTrack, Ahead, OnStepCompleted, OnHumanApproved, OnHumanRetry;
      match ev
      case EvSagaStarted => HandleSagaStarted(e);
      case EvSagaCompleted => HandleSagaCompletion();
      case EvSagaCompensated =>
      case EvSagaFailed =>
      case EvStepCompensated(span) =>
        var u := FindUndo(undos, span);
        if u.Some? { HandleCompensationCompleted(e, u.value); }
      case EvCompensationFailed(span, err) => HandleCompensationFailed(span, err);
      case EvStepCompleted(span, output) =>
        var i := FindRow(rows, span);
        if i.Some? { HandleStepCompleted(e, i.value, output); }
      case EvStepFailed(span, err) =>
        var i := FindRow(rows, span);
        if i.Some? { HandleStepFailed(e, i.value, err); }
      case EvHumanApproved(span, override) =>
        var i := FindRow(rows, span);
        if i.Some? { HandleHitlApproved(e, i.value, override); }
      case EvHumanRejected(span, err) =>
        var i := FindRow(rows, span);
        if i.Some? { HandleHumanRejected(e, i.value, err); }
      case EvHumanRetry(span, guidance) =>
        var i := FindRow(rows, span);
        if i.Some? { HandleHumanRetry(e, i.value, guidance); }
    }

    // ---- engine/recovery.py

    method ResetStepForWorkerRetry(i: nat)
      requires i < |rows|
      modifies this`rows, this`nextId, this`ctx, this`ingested
      ensures View() == ResetForRetry(old(View()), i)
    {
      RotateStepForRetry(i);
      ctx := ctx.(steps := ctx.steps - {rows[i].lab.spec.id});
      ClearWorkerResultIngestDedup(rows[i].span);
    }

    method RestartStep(e: Env, i: nat)
      requires i < |rows| && OnTrack(View(), i) && rows[i].status != Completed
      modifies this
      ensures View() == Trigger(rules, e, ResetForRetry(old(View()), i), i, None)
    {
      TrackKept(View(), ResetForRetry(View(), i), i);
      ResetStepForWorkerRetry(i);
      TriggerStep(e, rows[i].seqNo, true, None);
    }

    method ExecuteStepRetry(e: Env, i: nat, force: bool, allow: bool, claim: Claim, requeue: bool)
      requires Valid() && i < |rows|
      modifies this
      ensures View() == RetryStep(rules, e, old(View()), i, force, allow, claim, requeue)
    {
      hide Inv, Trigger, TrackFacts, OnTrack;
      ghost var s := View();
      if status != Running || rows[i].status != InProgress { return; }
      LiveOnTrack(rules, s, i);
      var step := rows[i];
      if !WorkerKind(step.lab.spec.kind) {
        if step.lab.spec.kind == JoinSagas && e.native(i).NativeWait? { return; }
        StartStep(e, i, None);
        return;
      }
      if force && step.lab.spec.kind == Commit && !allow { return; }
      if claim == ClaimBusy { return; }
      if requeue && step.key in commands {
        rows := rows[i := step.(output := None, error := None, held := NoHold)];
        ClearWorkerResultIngestDedup(step.span);
        return;
      }
      RestartStep(e, i);
    }

    method ExecuteRetryForward(e: Env, i: nat, force: bool, allow: bool, claim: Claim)
      requires Valid() && i < |rows|
      modifies this
      ensures View() == RetryForward(rules, e, old(View()), i, force, allow, claim)
    {
      hide Inv, Trigger, TrackFacts, OnTrack;
      ghost var s := View();
      if status != AwaitingRecovery { return; }
      var step := rows[i];
      if step.status != Failed && step.status != TimedOut { return; }
      LiveOnTrack(rules, s, i);
      if Dirty(step) && !allow { return; }
      if force && step.lab.spec.kind == Commit && !allow { return; }
      if claim == ClaimBusy { return; }
      status := Running;
      TrackKept(s, View(), i);
      assert ResetForRetry(View(), i) == ResetForRetry(s, i).(status := Running);
      RestartStep(e, i);
    }

    method ExecuteStartCompensation(e: Env, i: nat)
      requires Valid() && i < |rows|
      modifies this
      ensures View() == StartCompensation(e, old(View()), i)
    {
      ghost var s := View();
      if status != AwaitingRecovery { return; }
      if rows[i].status != Failed && rows[i].status != TimedOut { return; }
      var startSeq := if Dirty(rows[i]) then rows[i].seqNo else rows[i].seqNo - 1;
      if startSeq < 0 {
        FailSaga();
        return;
      }
      status := SagaCompensating;
      TriggerCompensation(e, startSeq);
    }

    /** The engine's Python code makes the two checks that raise after the changes; raising
        rolls the transaction back, so they are made first here. */
    method ExecuteCompensationRetry(e: Env, u: nat, claim: Claim, requeue: bool)
      requires Valid() && u < |undos|
      modifies this
      ensures View() == RetryCompensation(e, old(View()), u, claim, requeue)
    {
      hide Inv;
      ghost var s := View();
      if status != SagaCompensating && status != SagaFailed { return; }
      var undo := undos[u];
      if undo.status != Failed && undo.status != InProgress && undo.status != Compensating { return; }
      if claim == ClaimBusy { return; }
      var requeued := requeue && undo.key in commands;
      if !requeued && undo.seqNo >= 0 && !e.undoBuilds(undo.seqNo) { return; }
      status := SagaCompensating;
      undos := undos[u := undo.(status := Compensating)];
      ingested := ingested - UndoResultKeys(undo.span);
      if !requeued { EmitCommand(undo.key, DoUndo(undo.span, undo.forward)); }
    }

    // ---- engine/child_sagas.py

    method MaybeResumeSpawnCompensation(e: Env)
      requires Numbered(View())
      modifies this
      ensures View() == ResumeSpawn(e, old(View()))
    {
      if status != SagaCompensating { return; }
      var q := HighestSpawn(rows);
      if q.None? { return; }
      var already := UndoRowStatusExists(rows[q.value].span, Compensated);
      if already { return; }
      CompensateSpawnSagasForward(e, q.value);
    }

    /** A child saga ended: wake the parked join, and resume a waiting spawn undo. */
    method OnChildSagaTerminal(e: Env)
      requires Valid()
      modifies this
      ensures View() == OnChildTerminal(rules, e, old(View()))
    {
      ghost var s := View();
      PokeJoinInv(rules, e, s);
      var j := FindJoin(rows);
      if j.Some? && !e.native(j.value).NativeWait? {
        ActiveIsLive(rules, s, j.value);
        LiveOnTrack(rules, s, j.value);
        StartStep(e, j.value, None);
      }
      MaybeResumeSpawnCompensation(e);
    }

    // ---- One committed transaction

    /** Whatever comes in: the object moves as the specification says, and stays valid
        unless it was delivered out of order. */
    method Transact(e: Env, op: Op)
      requires Valid()
      modifies this
      ensures View() == Step(rules, e, old(View()), op)
      ensures InOrder(rules, e, old(View()), op) ==> Valid()
    {
      ghost var s := View();
      Perform(e, op);
      if InOrder(rules, e, s, op) {
        StepInv(rules, e, s, op);
        StepNotices(rules, e, s, op);
      }
    }

    method Perform(e: Env, op: Op)
      requires Valid()
      modifies this
      ensures View() == Step(rules, e, old(View()), op)
    {
      match op
      case OpIngest(ev) => ProcessSagaEvent(e, ev);
      case OpRetryStep(span, force, allow, claim, requeue) =>
        var i := FindRow(rows, span);
        if i.Some? { ExecuteStepRetry(e, i.value, force, allow, claim, requeue); }
      case OpRetryForward(span, force, allow, claim) =>
        var i := FindRow(rows, span);
        if i.Some? { ExecuteRetryForward(e, i.value, force, allow, claim); }
      case OpStartCompensation(span) =>
        var i := FindRow(rows, span);
        if i.Some? { ExecuteStartCompensation(e, i.value); }
      case OpRetryCompensation(span, claim, requeue) =>
        var u := FindUndo(undos, span);
        if u.Some? { ExecuteCompensationRetry(e, u.value, claim, requeue); }
      case OpChildTerminal => OnChildSagaTerminal(e);
    }
  }
}
