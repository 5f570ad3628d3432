/** What can become of a row: it fails, its output is recorded, or it goes to its worker.
    Each outcome is told from the payload, the frozen step and the answers of the oracles. */
module Outcomes {
  import opened SagaTypes
  import opened SagaSpec
  import opened ForwardPath
  import opened ForwardSteps
  import opened Scheduling
  import opened SagaInvariant
  import opened Outbox
  import opened Walks

  // ---- Failure

  /** The row has failed with these details. */
  function Marked(row: Row, err: Option<Err>): Row {
    row.(status := if err.Some? && err.value.timeout then TimedOut else Failed, error := err)
  }

  /** Row `i` failed with `err`: held for an operator if its step says so, otherwise undone
      from the row itself after a timeout or a crash, and from the row below if the failure
      was clean. Below the first row nothing is left to undo and the saga has failed. */
  ghost predicate FailsWith(e: Env, s: Saga, s1: Saga, i: nat, err: Option<Err>)
    requires i < |s.rows|
  {
    var s0 := s.(rows := s.rows[i := Marked(s.rows[i], err)]);
    var from := if err.Some? && (err.value.timeout || err.value.crash) then i else i - 1;
    if s.rows[i].lab.spec.awaitOperator then s1 == s0.(status := AwaitingRecovery)
    else if from < 0 then Ends(s0, s1, SagaFailed, NoticeFailed)
    else WalksDown(e, s0.(status := SagaCompensating, window := from), s1, from)
  }

  lemma FailStepFails(e: Env, s: Saga, i: nat, err: Option<Err>)
    requires Numbered(s) && i < |s.rows| && s.rows[i].status != TimedOut
    requires s.rows[i].error.None? || s.rows[i].error == err
    ensures FailsWith(e, s, FailStep(e, s, i, err), i, err)
  {
    hide WalksDown;
    var s0 := s.(rows := s.rows[i := Marked(s.rows[i], err)]);
    assert WithRow(s, i, FailedRow(s.rows[i], err)) == s0;
    var from := if err.Some? && (err.value.timeout || err.value.crash) then i else i - 1;
    var s2 := s0.(status := SagaCompensating, window := from);
    assert Numbered(s2);
    if from >= 0 { UnwindWalks(e, s2, from); }
  }

  // ---- A command for a worker

  /** The row is ready for its worker: its arguments are those the step's parameters resolve
      to in this context, with the guidance of a human's retry. A commit has one tool and has
      passed its gate; a reviewed one is held with these arguments, and everything else is
      queued under the key of the row. */
  ghost predicate Launches(r: Rules, e: Env, s: Saga, s1: Saga, i: nat, guidance: Option<int>)
    requires i < |s.rows|
  {
    var row := s.rows[i];
    match r.resolve(s.ctx, row.lab, row.retries, guidance)
    case Unresolved(err) => FailsWith(e, s, s1, i, err)
    case Resolved(args) =>
      var commit := row.lab.spec.kind == Commit;
      var gate := if commit && row.lab.spec.hasPolicy then r.gate(row.lab, args, None) else None;
      var s0 := s.(rows := s.rows[i := row.(args := args)]);
      if commit && row.lab.spec.toolCount != 1 then FailsWith(e, s0, s1, i, Some(Err(false, false)))
      else if gate.Some? then FailsWith(e, s0, s1, i, gate)
      else if commit && row.lab.spec.hitl then
        s1 == s.(rows := s.rows[i := row.(args := args, status := AwaitingHuman, held := HeldArgs(args))],
                 status := SagaAwaitingHuman)
      else Queues(s, s1, i, row.(args := args, status := InProgress))
  }

  /** Row `i` is now `row`, and its command is in the outbox. */
  ghost predicate Queues(s: Saga, s1: Saga, i: nat, row: Row)
    requires i < |s.rows|
  {
    && s1 == s.(rows := s.rows[i := row], commands := s1.commands)
    && row.key in s1.commands
    && (row.key in s.commands ==> s1.commands == s.commands)
    && (row.key !in s.commands ==> s1.commands == s.commands[row.key := CommandOf(row)])
  }

  lemma DispatchLaunches(r: Rules, e: Env, s: Saga, i: nat, guidance: Option<int>)
    requires Numbered(s) && i < |s.rows| && s.rows[i].error.None?
    ensures Launches(r, e, s, Dispatch(r, e, s, i, guidance), i, guidance)
  {
    hide WalksDown, FailStep;
    var row := s.rows[i];
    match r.resolve(s.ctx, row.lab, row.retries, guidance)
    case Unresolved(err) =>
      var s0 := WithRow(s, i, row.(status := InProgress));
      assert Numbered(s0);
      FailStepFails(e, s0, i, err);
      SameFailure(e, s0, s, FailStep(e, s0, i, err), i, err);
    case Resolved(args) =>
      var s0 := WithRow(s, i, row.(status := InProgress, args := args));
      var s2 := s.(rows := s.rows[i := row.(args := args)]);
      assert Numbered(s0);
      FailStepFails(e, s0, i, Some(Err(false, false)));
      SameFailure(e, s0, s2, FailStep(e, s0, i, Some(Err(false, false))), i, Some(Err(false, false)));
      var gate := r.gate(row.lab, args, None);
      FailStepFails(e, s0, i, gate);
      SameFailure(e, s0, s2, FailStep(e, s0, i, gate), i, gate);
  }

  /** The status and details before a failure do not matter. */
  lemma SameFailure(e: Env, s: Saga, t: Saga, s1: Saga, i: nat, err: Option<Err>)
    requires i < |s.rows| == |t.rows| && FailsWith(e, s, s1, i, err)
    requires t == s.(rows := s.rows[i := s.rows[i].(status := t.rows[i].status, error := t.rows[i].error)])
    ensures FailsWith(e, t, s1, i, err)
  {
    assert t.(rows := t.rows[i := Marked(t.rows[i], err)]) == s.(rows := s.rows[i := Marked(s.rows[i], err)]);
  }

  // ---- An output

  /** The data that came in, the empty object when there is none. */
  function DataOf(p: Payload): Obj {
    match p.data
    case None => EMPTY
    case Some(d) => d
  }

  /** A later row of the same step was passed and has put its entry there. */
  ghost predicate Overwrites(e: Env, s: Saga, j: nat, id: string)
    requires j < |s.rows| && id in s.ctx.steps
  {
    && s.rows[j].lab.spec.id == id
    && match s.rows[j].status
       case Skipped => s.ctx.steps[id] == Entry(EMPTY, EMPTY)
       case Completed =>
         && !WorkerKind(s.rows[j].lab.spec.kind) && e.native(j).NativeOutput?
         && s.ctx.steps[id] == Entry(DataOf(e.native(j).p), e.native(j).p.facts)
       case _ => false
  }

  /** The context tells this entry of the step, or that of a later row. */
  ghost predicate Tells(e: Env, s: Saga, from: nat, id: string, entry: Entry) {
    id in s.ctx.steps && (s.ctx.steps[id] == entry || exists j :: from <= j < |s.rows| && Overwrites(e, s, j, id))
  }

  /** The output of row `i` is final: the row is COMPLETED with the data that came in, and
      the context tells it with its facts. Only when the next step fails at once and the undo
      of this very row cannot be built, the row is marked FAILED. */
  ghost predicate Records(e: Env, s: Saga, s1: Saga, i: nat, p: Payload)
    requires i < |s.rows|
  {
    && i < |s1.rows| && s1.rows[i].lab == s.rows[i].lab && s1.rows[i].span == s.rows[i].span
    && s1.rows[i].output == Some(DataOf(p)) && s1.rows[i].held == NoHold
    && (s1.rows[i].status == Completed || Unbuilt(e, s1, i))
    && Tells(e, s1, i + 1, s.rows[i].lab.spec.id, Entry(DataOf(p), p.facts))
  }

  predicate Unbuilt(e: Env, s1: Saga, i: nat)
    requires i < |s1.rows|
  {
    && s1.rows[i].status == Failed && s1.rows[i].error == Some(Err(false, false))
    && s1.status == SagaFailed && !e.undoBuilds(i) && WorkerKind(s1.rows[i].lab.spec.kind)
  }

  // ---- Where a scheduling pass comes to rest

  /** The gate of the step lets it run. */
  predicate Admits(r: Rules, ctx: Context, i: nat, lab: Label) {
    lab.spec.hasWhen ==> r.when(ctx, i, lab) == WhenTrue
  }

  /** A worker's step is launched when its gate is true; a spawn or join waits when it has to;
      and only an error in the gate, or a spawn or join that failed, faults a row. */
  ghost predicate StopsRightly(r: Rules, e: Env, stop: Stop)
    requires StopIn(stop)
  {
    stop.Finished? || stop.LoopFailed? ||
    (var row := stop.s.rows[stop.i];
     match stop
     case Launch(s, i) => WorkerKind(row.lab.spec.kind) && Admits(r, s.ctx, i, row.lab)
     case Parked(s, i) => Misses(r, e, s.ctx, i, row, NativeWait)
     case Faulted(s, i, err) =>
       || (row.status == Pending && row.lab.spec.hasWhen && r.when(s.ctx, i, row.lab) == WhenError(err))
       || Misses(r, e, s.ctx, i, row, NativeFailure(err)))
  }

  /** A spawn or join was run and met this. */
  predicate Misses(r: Rules, e: Env, ctx: Context, i: nat, row: Row, met: Native) {
    !WorkerKind(row.lab.spec.kind) && row.status == InProgress && Admits(r, ctx, i, row.lab) && e.native(i) == met
  }

  /** A row that was pending has been passed, or is where the pass stopped. */
  ghost predicate PassedRightly(e: Env, stop: Stop, j: nat)
    requires j < |stop.s.rows|
  {
    var row := stop.s.rows[j];
    || row.status == Pending || row.status == Skipped
    || (row.status == Completed && PutOut(e, row, j))
    || (row.status == InProgress && (stop.Parked? || stop.Faulted?) && stop.i == j)
  }

  /** The output of a spawn or join is on its row. */
  predicate PutOut(e: Env, row: Row, j: nat) {
    row.lab.spec.kind in {SpawnSagas, JoinSagas} && e.native(j).NativeOutput? && row.output == Some(DataOf(e.native(j).p))
  }

  predicate PendingFrom(s: Saga, i: nat) {
    forall j :: i <= j < |s.rows| ==> s.rows[j].status == Pending
  }

  lemma {:induction false} GoStopsRightly(r: Rules, e: Env, s: Saga, i: nat, j: nat)
    requires i <= |s.rows| && PendingFrom(s, i)
    ensures StopIn(Go(r, e, s, i)) && StopsRightly(r, e, Go(r, e, s, i))
    ensures i <= j < |Go(r, e, s, i).s.rows| ==> PassedRightly(e, Go(r, e, s, i), j)
    decreases Left(s), PassesLeft(s), |s.rows| - i, 2
  {
    if i < |s.rows| {
      var lab := s.rows[i].lab;
      if !Chosen(r, s.ctx, i, lab) {
        AfterStopsRightly(r, e, SkipRow(s, i), i, j);
        AfterBeyond(r, e, SkipRow(s, i), i, i);
      } else if !Misfires(r, s.ctx, i, lab) {
        FireStopsRightly(r, e, s, i, j);
      }
    }
  }

  lemma {:induction false} FireStopsRightly(r: Rules, e: Env, s: Saga, i: nat, j: nat)
    requires i < |s.rows| && PendingFrom(s, i + 1) && Admits(r, s.ctx, i, s.rows[i].lab)
    ensures StopIn(Fire(r, e, s, i)) && StopsRightly(r, e, Fire(r, e, s, i))
    ensures i < j < |Fire(r, e, s, i).s.rows| ==> PassedRightly(e, Fire(r, e, s, i), j)
    ensures j == i && s.rows[i].status == Pending ==> j < |Fire(r, e, s, i).s.rows| && PassedRightly(e, Fire(r, e, s, i), j)
    decreases Left(s), PassesLeft(s), |s.rows| - i, 1
  {
    if !WorkerKind(s.rows[i].lab.spec.kind) && e.native(i).NativeOutput? {
      AfterStopsRightly(r, e, FinishRow(s, i, e.native(i).p), i, j);
      AfterBeyond(r, e, FinishRow(s, i, e.native(i).p), i, i);
    }
  }

  lemma {:induction false} AfterStopsRightly(r: Rules, e: Env, s: Saga, i: nat, j: nat)
    requires i < |s.rows| && PendingFrom(s, i + 1)
    ensures StopIn(After(r, e, s, i)) && StopsRightly(r, e, After(r, e, s, i))
    ensures i < j < |After(r, e, s, i).s.rows| ==> PassedRightly(e, After(r, e, s, i), j)
    decreases Left(s), PassesLeft(s), |s.rows| - i, 0
  {
    hide Boundary, Left, PassesLeft;
    BoundaryFrame(r, s, i);
    var s1 := Boundary(r, s, i).s;
    assert PendingFrom(s1, i + 1) by {
      forall k | i + 1 <= k < |s1.rows| ensures s1.rows[k].status == Pending {
        if k < |s.rows| { assert s1.rows[..|s.rows|][k] == s.rows[k]; }
      }
    }
    if Boundary(r, s, i).Crossed? {
      CrossingDescends(r, s, i);
      GoStopsRightly(r, e, s1, i + 1, j);
    }
  }

  // ---- What a scheduling pass tells

  lemma {:induction false} GoTells(r: Rules, e: Env, s: Saga, i: nat, id: string)
    requires i <= |s.rows| && id in s.ctx.steps
    ensures Tells(e, Go(r, e, s, i).s, i, id, s.ctx.steps[id])
    decreases Left(s), PassesLeft(s), |s.rows| - i, 2
  {
    if i < |s.rows| {
      if Chosen(r, s.ctx, i, s.rows[i].lab) {
        FireTells(r, e, s, i, id);
      } else {
        AfterTells(r, e, SkipRow(s, i), i, id);
        AfterBeyond(r, e, SkipRow(s, i), i, i);
        TellsOn(e, s, SkipRow(s, i), Go(r, e, s, i).s, i, id);
      }
    }
  }

  lemma {:induction false} FireTells(r: Rules, e: Env, s: Saga, i: nat, id: string)
    requires i < |s.rows| && id in s.ctx.steps
    ensures Tells(e, Fire(r, e, s, i).s, i, id, s.ctx.steps[id])
    decreases Left(s), PassesLeft(s), |s.rows| - i, 1
  {
    if !WorkerKind(s.rows[i].lab.spec.kind) && e.native(i).NativeOutput? {
      var s1 := FinishRow(s, i, e.native(i).p);
      AfterTells(r, e, s1, i, id);
      AfterBeyond(r, e, s1, i, i);
      TellsOn(e, s, s1, Fire(r, e, s, i).s, i, id);
    }
  }

  lemma {:induction false} AfterTells(r: Rules, e: Env, s: Saga, i: nat, id: string)
    requires i < |s.rows| && id in s.ctx.steps
    ensures Tells(e, After(r, e, s, i).s, i + 1, id, s.ctx.steps[id])
    decreases Left(s), PassesLeft(s), |s.rows| - i, 0
  {
    hide Boundary, Left, PassesLeft;
    BoundaryFrame(r, s, i);
    if Boundary(r, s, i).Crossed? {
      CrossingDescends(r, s, i);
      GoTells(r, e, Boundary(r, s, i).s, i + 1, id);
    }
  }

  /** Row `i` was passed; its entry, or a later one, is told in the end. */
  lemma TellsOn(e: Env, s: Saga, s1: Saga, s2: Saga, i: nat, id: string)
    requires id in s.ctx.steps && id in s1.ctx.steps && i < |s1.rows| && i < |s2.rows|
    requires Tells(e, s2, i + 1, id, s1.ctx.steps[id]) && s2.rows[i] == s1.rows[i]
    requires s1.ctx.steps[id] == s.ctx.steps[id] || Overwrites(e, s1, i, id)
    ensures Tells(e, s2, i, id, s.ctx.steps[id])
  {
    if s2.ctx.steps[id] == s1.ctx.steps[id] && s1.ctx.steps[id] != s.ctx.steps[id] {
      assert Overwrites(e, s2, i, id);
    }
  }

  // ---- What is left of finished rows when scheduling has settled

  /** A finished row stays as it is, but details may be recorded where a loop was given up,
      and a worker's row whose undo cannot be built is marked FAILED. */
  ghost predicate StaysDone(e: Env, s: Saga, s1: Saga, j: nat)
    requires j < |s.rows|
  {
    && j < |s1.rows| && s1.rows[j] == s.rows[j].(status := s1.rows[j].status, error := s1.rows[j].error)
    && (s1.rows[j].status == s.rows[j].status || (s.rows[j].status == Completed && Unbuilt(e, s1, j)))
  }

  lemma WalkLeavesDone(e: Env, s: Saga, s1: Saga, from: int, j: nat)
    requires WalksDown(e, s, s1, from) && j < |s.rows| && Done(s.rows[j].status)
    ensures StaysDone(e, s, s1, j) && s1.ctx == s.ctx
  {
  }

  lemma FailureLeavesDone(e: Env, s: Saga, s1: Saga, i: nat, err: Option<Err>, j: nat)
    requires i < |s.rows| && FailsWith(e, s, s1, i, err) && j < |s.rows| && j != i && Done(s.rows[j].status)
    ensures StaysDone(e, s, s1, j) && s1.ctx == s.ctx
  {
    hide WalksDown;
    var s0 := s.(rows := s.rows[i := Marked(s.rows[i], err)]);
    var from := if err.Some? && (err.value.timeout || err.value.crash) then i else i - 1;
    var s2 := s0.(status := SagaCompensating, window := from);
    if !s.rows[i].lab.spec.awaitOperator && from >= 0 { WalkLeavesDone(e, s2, s1, from, j); }
  }

  lemma LaunchLeavesDone(r: Rules, e: Env, s: Saga, s1: Saga, i: nat, guidance: Option<int>, j: nat)
    requires i < |s.rows| && Launches(r, e, s, s1, i, guidance) && j < |s.rows| && j != i && Done(s.rows[j].status)
    ensures StaysDone(e, s, s1, j) && s1.ctx == s.ctx
  {
    hide FailsWith;
    var row := s.rows[i];
    match r.resolve(s.ctx, row.lab, row.retries, guidance)
    case Unresolved(err) => FailureLeavesDone(e, s, s1, i, err, j);
    case Resolved(args) =>
      var s0 := s.(rows := s.rows[i := row.(args := args)]);
      var err := if row.lab.spec.toolCount != 1 then Some(Err(false, false)) else r.gate(row.lab, args, None);
      if FailsWith(e, s0, s1, i, err) { FailureLeavesDone(e, s0, s1, i, err, j); }
  }

  lemma SettleLeavesDone(r: Rules, e: Env, s: Saga, stop: Stop, guidance: Option<int>, j: nat)
    requires Numbered(s) && Stopped(s, stop) && j < |stop.s.rows| && Done(stop.s.rows[j].status)
    requires StopIn(stop) && (stop.Finished? || stop.LoopFailed? || stop.i != j) && StopsRightly(r, e, stop)
    ensures StaysDone(e, stop.s, Settle(r, e, stop, guidance), j) && Settle(r, e, stop, guidance).ctx == stop.s.ctx
  {
    hide WalksDown, FailsWith, Launches, FailStep, Dispatch, Poised;
    GrownNumbered(s, stop.s);
    match stop
    case Finished(_) =>
    case Parked(_, _) =>
    case Launch(t, i) =>
      DispatchLaunches(r, e, t, i, guidance);
      LaunchLeavesDone(r, e, t, Dispatch(r, e, t, i, guidance), i, guidance, j);
    case Faulted(t, i, err) =>
      FailStepFails(e, t, i, err);
      FailureLeavesDone(e, t, FailStep(e, t, i, err), i, err, j);
    case LoopFailed(t, i) =>
      var row := t.rows[i];
      var t1 := WithRow(t, i, row.(error := if row.error.Some? then row.error else Some(Err(false, false))));
      var t2 := t1.(status := SagaCompensating, window := i);
      assert Numbered(t2);
      UnwindWalks(e, t2, i);
      WalkLeavesDone(e, t2, Unwind(e, t2, i), i, j);
  }

  // ---- Recording, and running a row again

  lemma FinishedAt(r: Rules, s: Saga, i: nat, p: Payload, outs: seq<Entry>, ctx: Context)
    requires i < |s.rows| && Working(r, s, i, outs, ctx) && s.rows[i].error.None?
    ensures var s1, id := FinishRow(s, i, p), s.rows[i].lab.spec.id;
      && PendingFrom(s1, i + 1) && Numbered(s1)
      && id in s1.ctx.steps && s1.ctx.steps[id] == Entry(DataOf(p), p.facts)
      && s1.rows[i] == s.rows[i].(status := Completed, output := Some(DataOf(p)), held := NoHold)
      && (s.status == Running || s.status == SagaAwaitingHuman ==> s1.status == Running)
  {
  }

  lemma ResumeRecords(r: Rules, e: Env, s: Saga, i: nat, p: Payload, outs: seq<Entry>, ctx: Context)
    requires i < |s.rows| && Working(r, s, i, outs, ctx) && (s.status == Running || s.status == SagaAwaitingHuman)
    requires s.rows[i].error.None?
    ensures Records(e, s, Resume(r, e, s, i, p), i, p)
  {
    hide Working, After, Settle, Tells, StopsRightly, EntryOf, Rested, LaunchesPending, Numbered, Stopped;
    var s1 := FinishRow(s, i, p);
    var id := s.rows[i].lab.spec.id;
    FinishedAt(r, s, i, p, outs, ctx);
    var outs1 := FinishInv(r, e, s, i, p, outs, ctx);
    AfterStopsRightly(r, e, s1, i, i);
    AfterBeyond(r, e, s1, i, i);
    AfterTells(r, e, s1, i, id);
    var stop := After(r, e, s1, i);
    SettleLeavesDone(r, e, s1, stop, None, i);
    SettleTells(r, e, s1, stop, i + 1, id, s1.ctx.steps[id]);
  }

  lemma SettleTells(r: Rules, e: Env, s: Saga, stop: Stop, from: nat, id: string, entry: Entry)
    requires Numbered(s) && Stopped(s, stop) && StopIn(stop) && StopsRightly(r, e, stop) && LaunchesPending(stop)
    requires Tells(e, stop.s, from, id, entry)
    requires exists k :: 0 <= k < |stop.s.rows| && Done(stop.s.rows[k].status) && (stop.Finished? || stop.LoopFailed? || stop.i != k)
    ensures Tells(e, Settle(r, e, stop, None), from, id, entry)
  {
    hide Settle, Stopped, Numbered;
    var k :| 0 <= k < |stop.s.rows| && Done(stop.s.rows[k].status) && (stop.Finished? || stop.LoopFailed? || stop.i != k);
    SettleLeavesDone(r, e, s, stop, None, k);
    if stop.s.ctx.steps[id] != entry {
      var j :| from <= j < |stop.s.rows| && Overwrites(e, stop.s, j, id);
      SettleLeavesDone(r, e, s, stop, None, j);
      assert Overwrites(e, Settle(r, e, stop, None), j, id);
    }
  }

  /** The row runs: a worker's step is launched, a spawn or join waits, fails or puts out. */
  ghost predicate Runs(r: Rules, e: Env, s: Saga, s1: Saga, i: nat, guidance: Option<int>)
    requires i < |s.rows|
  {
    if s.rows[i].lab.spec.kind in {Reason, Commit} then Launches(r, e, s, s1, i, guidance)
    else match e.native(i)
      case NativeWait => s1 == s.(rows := s.rows[i := s.rows[i].(status := InProgress)])
      case NativeFailure(err) => FailsWith(e, s, s1, i, err)
      case NativeOutput(p) => Records(e, s, s1, i, p)
  }

  lemma TriggerRuns(r: Rules, e: Env, s: Saga, i: nat, guidance: Option<int>, outs: seq<Entry>, ctx: Context)
    requires i < |s.rows| && Working(r, s, i, outs, ctx) && s.status == Running && s.rows[i].error.None?
    ensures Runs(r, e, s, Trigger(r, e, s, i, guidance), i, guidance)
  {
    hide Trigger, Launches, FailsWith, Records, HoldsAt, FailStep;
    TriggerCases(r, e, s, i, guidance);
    if WorkerKind(s.rows[i].lab.spec.kind) {
      DispatchLaunches(r, e, s, i, guidance);
    } else {
      var s0 := WithStatus(s, i, InProgress);
      assert Numbered(s0);
      match e.native(i)
      case NativeWait =>
      case NativeFailure(err) =>
        FailStepFails(e, s0, i, err);
        SameFailure(e, s0, s, FailStep(e, s0, i, err), i, err);
      case NativeOutput(p) => ResumeRecords(r, e, s, i, p, outs, ctx);
    }
  }
}
