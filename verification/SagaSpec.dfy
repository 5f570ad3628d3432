/** The saga state machine as functions on one saga's rows. Every handler of
    engine/logic.py, loop_control.py and recovery.py has its meaning here; the class in
    SagaEngine.dfy runs the same handlers in place. */
module SagaSpec {
  import opened SagaTypes

  /** Everything the engine stores about one saga. `window` is a history variable: the
      `forward_seq` at which the running compensation began. No transition reads it. */
  datatype Saga = Saga(
    blueprint: seq<Top>,
    status: SagaStatus,
    rows: seq<Row>,
    ctx: Context,
    next: nat,
    active: Option<string>,
    undos: seq<Undo>,
    commands: map<Key, Command>,
    notices: set<Notice>,
    ingested: set<IngestKey>,
    nextId: nat,
    window: int)

  // ---- Rows and context

  function WithRow(s: Saga, i: nat, row: Row): Saga
    requires i < |s.rows|
  {
    s.(rows := s.rows[i := row])
  }

  function WithStatus(s: Saga, i: nat, st: StepStatus): Saga
    requires i < |s.rows|
  {
    WithRow(s, i, s.rows[i].(status := st))
  }

  function EntryOf(p: Payload): Entry {
    Entry(if p.data.Some? then p.data.value else EMPTY, p.facts)
  }

  const BLANK: Entry := Entry(EMPTY, EMPTY)

  function SetStep(ctx: Context, id: string, e: Entry): Context {
    ctx.(steps := ctx.steps[id := e])
  }

  function SetLoop(ctx: Context, l: string, k: nat, max: nat, st: LoopStatus): Context {
    ctx.(loops := ctx.loops[l := LoopCtx(k, max, st)])
  }

  function SkipPending(rows: seq<Row>): (r: seq<Row>)
    ensures |r| == |rows|
    ensures forall i :: 0 <= i < |rows| ==>
      r[i] == if rows[i].status == Pending then rows[i].(status := Skipped) else rows[i]
  {
    seq(|rows|, i requires 0 <= i < |rows| =>
      if rows[i].status == Pending then rows[i].(status := Skipped) else rows[i])
  }

  function FindRow(rows: seq<Row>, span: nat): (r: Option<nat>)
    ensures r.Some? ==> r.value < |rows| && rows[r.value].span == span
    ensures r.None? ==> forall i :: 0 <= i < |rows| ==> rows[i].span != span
  {
    if rows == [] then None
    else if rows[|rows| - 1].span == span then Some(|rows| - 1)
    else FindRow(rows[..|rows| - 1], span)
  }

  function FindUndo(undos: seq<Undo>, span: nat): (r: Option<nat>)
    ensures r.Some? ==> r.value < |undos| && undos[r.value].span == span
    ensures r.None? ==> forall i :: 0 <= i < |undos| ==> undos[i].span != span
  {
    if undos == [] then None
    else if undos[|undos| - 1].span == span then Some(|undos| - 1)
    else FindUndo(undos[..|undos| - 1], span)
  }

  // ---- Minting

  function Annotate(body: seq<Spec>, pass: Option<Pass>): (r: seq<Label>)
    ensures |r| == |body| && forall i :: 0 <= i < |body| ==> r[i] == Label(body[i], pass)
  {
    seq(|body|, i requires 0 <= i < |body| => Label(body[i], pass))
  }

  datatype Segment = Segment(labels: seq<Label>, next: nat, active: Option<string>)

  /** Blueprint steps from `from` up to and including the first loop's first pass. */
  function TakeSegment(bp: seq<Top>, from: nat): (g: Segment)
    ensures from <= |bp| ==> from <= g.next <= |bp|
    ensures g.labels == [] && from <= |bp| && (forall i :: 0 <= i < |bp| && bp[i].Block? ==> bp[i].loop.body != [])
      ==> g.next == from == |bp| && g.active.None?
    ensures from < |bp| ==> from < g.next
    ensures from >= |bp| ==> g == Segment([], from, None)
    decreases |bp| - from
  {
    if from >= |bp| then Segment([], from, None)
    else match bp[from]
      case Block(l) => Segment(Annotate(l.body, Some(Pass(l.id, 1))), from + 1, Some(l.id))
      case Exec(sp) =>
        var g := TakeSegment(bp, from + 1);
        g.(labels := [Label(sp, None)] + g.labels)
  }

  function MintedRow(lab: Label, n: int, span: nat): Row {
    Row(span, n, n, lab, Pending, TextKey(KeyText(lab.spec.id, lab.pass)), EMPTY, None, NoHold, None, 0)
  }

  function MintedRows(labels: seq<Label>, start: int, span: nat): (r: seq<Row>)
    ensures |r| == |labels|
    ensures forall i :: 0 <= i < |labels| ==> r[i] == MintedRow(labels[i], start + i, span + i)
  {
    seq(|labels|, i requires 0 <= i < |labels| => MintedRow(labels[i], start + i, span + i))
  }

  /** New rows go after the last one and take the next sequence numbers. */
  function Mint(s: Saga, labels: seq<Label>): Saga {
    s.(rows := s.rows + MintedRows(labels, |s.rows|, s.nextId), nextId := s.nextId + |labels|)
  }

  // ---- Loop control

  function FindLoop(bp: seq<Top>, id: string): (r: Option<Loop>)
    ensures r.Some? ==> r.value.id == id && exists i :: 0 <= i < |bp| && bp[i] == Block(r.value)
    ensures r.None? ==> forall i :: 0 <= i < |bp| && bp[i].Block? ==> bp[i].loop.id != id
  {
    if bp == [] then None
    else if bp[|bp| - 1].Block? && bp[|bp| - 1].loop.id == id then Some(bp[|bp| - 1].loop)
    else
      var r := FindLoop(bp[..|bp| - 1], id);
      assert r.Some? ==> exists i :: 0 <= i < |bp| && bp[i] == Block(r.value) by {
        if r.Some? {
          var i :| 0 <= i < |bp[..|bp| - 1]| && bp[..|bp| - 1][i] == Block(r.value);
          assert bp[i] == Block(r.value);
        }
      }
      assert r.None? ==> forall i :: 0 <= i < |bp| && bp[i].Block? ==> bp[i].loop.id != id by {
        assert forall i :: 0 <= i < |bp| - 1 ==> bp[i] == bp[..|bp| - 1][i];
      }
      r
  }

  function ExitLoop(s: Saga, l: string, k: nat, max: nat): Saga {
    var g := TakeSegment(s.blueprint, s.next);
    var s1 := s.(ctx := SetLoop(s.ctx, l, k, max, LoopExited), next := g.next, active := g.active);
    if g.labels == [] then s1
    else
      var s2 :=
        if g.active.Some? && g.active.value in s1.ctx.loops then
          var a := g.active.value;
          s1.(ctx := SetLoop(s1.ctx, a, 1, s1.ctx.loops[a].max, LoopRunning))
        else s1;
      Mint(s2, g.labels)
  }

  function ContinueLoop(s: Saga, loop: Loop, k: nat): Saga {
    Mint(s.(ctx := SetLoop(s.ctx, loop.id, k + 1, loop.max, LoopRunning)),
         Annotate(loop.body, Some(Pass(loop.id, k + 1))))
  }

  datatype Crossing = Crossed(s: Saga) | Broken(s: Saga)

  /** What happens after row `i` has finished cleanly. Only the last row can end a pass:
      `until` then decides between leaving the loop, minting another pass and, once
      `max_iterations` passes are spent or evaluation fails, giving up. */
  function Boundary(r: Rules, s: Saga, i: nat): Crossing
    requires i < |s.rows|
  {
    var lab := s.rows[i].lab;
    if i + 1 < |s.rows| || lab.pass.None? then Crossed(s)
    else
      var Pass(l, k) := lab.pass.value;
      match FindLoop(s.blueprint, l)
      case None => Crossed(s)
      case Some(loop) =>
        match r.until(s.ctx, l, k)
        case UntilTrue => Crossed(ExitLoop(s, l, k, loop.max))
        case UntilFalse =>
          if k >= loop.max then Broken(s.(ctx := SetLoop(s.ctx, l, k, loop.max, LoopExhausted)))
          else Crossed(ContinueLoop(s, loop, k))
        case UntilError(_) => Broken(s.(ctx := SetLoop(s.ctx, l, k, loop.max, LoopExhausted)))
  }

  // ---- Scheduling

  /** Where one transaction's scheduling comes to rest. */
  datatype Stop =
    | Finished(s: Saga)
    | Launch(s: Saga, i: nat)
    | Parked(s: Saga, i: nat)
    | Faulted(s: Saga, i: nat, err: Option<Err>)
    | LoopFailed(s: Saga, i: nat)

  function Left(s: Saga): nat {
    if s.next <= |s.blueprint| then |s.blueprint| - s.next else 0
  }

  function PassesLeft(s: Saga): nat {
    if s.rows == [] || s.rows[|s.rows| - 1].lab.pass.None? then 0
    else
      var Pass(l, k) := s.rows[|s.rows| - 1].lab.pass.value;
      match FindLoop(s.blueprint, l)
      case None => 0
      case Some(loop) => if k <= loop.max then loop.max - k else 0
  }

  function SkipRow(s: Saga, i: nat): Saga
    requires i < |s.rows|
  {
    var s1 := WithStatus(s, i, Skipped);
    var lab := s.rows[i].lab;
    if lab.pass.Some? then s1.(ctx := SetStep(s1.ctx, lab.spec.id, BLANK)) else s1
  }

  function FinishRow(s: Saga, i: nat, p: Payload): Saga
    requires i < |s.rows|
  {
    var e := EntryOf(p);
    var s1 := WithRow(s, i, s.rows[i].(status := Completed, output := Some(e.data), held := NoHold));
    s1.(ctx := SetStep(s1.ctx, s.rows[i].lab.spec.id, e),
        status := if s.status == SagaAwaitingHuman then Running else s.status)
  }

  predicate StopIn(stop: Stop) {
    !stop.Finished? ==> stop.i < |stop.s.rows|
  }

  /** Schedule the next eligible row from position `i` on. The mutual recursion with
      loop boundaries and engine-native steps ends even if every step of every pass is
      skipped: blueprint entries left, passes left, rows left. */
  function Go(r: Rules, e: Env, s: Saga, i: nat): (stop: Stop)
    requires i <= |s.rows|
    ensures StopIn(stop)
    decreases Left(s), PassesLeft(s), |s.rows| - i, 2
  {
    if i == |s.rows| then Finished(s)
    else
      var lab := s.rows[i].lab;
      if !lab.spec.hasWhen then Fire(r, e, s, i)
      else match r.when(s.ctx, i, lab)
        case WhenTrue => Fire(r, e, s, i)
        case WhenError(err) => Faulted(s, i, err)
        case WhenFalse => After(r, e, SkipRow(s, i), i)
  }

  /** Run row `i`: worker steps wait for a worker, spawn and join run in place. */
  function Fire(r: Rules, e: Env, s: Saga, i: nat): (stop: Stop)
    requires i < |s.rows|
    ensures StopIn(stop)
    decreases Left(s), PassesLeft(s), |s.rows| - i, 1
  {
    if WorkerKind(s.rows[i].lab.spec.kind) then Launch(s, i)
    else match e.native(i)
      case NativeWait => Parked(WithStatus(s, i, InProgress), i)
      case NativeFailure(err) => Faulted(WithStatus(s, i, InProgress), i, err)
      case NativeOutput(p) => After(r, e, FinishRow(s, i, p), i)
  }

  function After(r: Rules, e: Env, s: Saga, i: nat): (stop: Stop)
    requires i < |s.rows|
    ensures StopIn(stop)
    decreases Left(s), PassesLeft(s), |s.rows| - i, 0
  {
    match Boundary(r, s, i)
    case Broken(s1) => LoopFailed(s1, i)
    case Crossed(s1) =>
      assert Left(s1) < Left(s) || (Left(s1) == Left(s) && PassesLeft(s1) <= PassesLeft(s)
        && (PassesLeft(s1) == PassesLeft(s) ==> |s1.rows| == |s.rows|));
      Go(r, e, s1, i + 1)
  }

  // ---- Compensation

  predicate HasCompensation(row: Row) {
    if row.lab.spec.kind == SpawnSagas then true
    else if row.lab.spec.kind == JoinSagas then false
    else row.lab.spec.declaresUndo
  }

  predicate Eligible(st: StepStatus) {
    st == Completed || st == Failed || st == TimedOut || st == InProgress
  }

  predicate NeedsUndo(row: Row) {
    HasCompensation(row) && Eligible(row.status)
  }

  predicate HasUndo(undos: seq<Undo>, forward: nat, st: StepStatus) {
    exists u <- undos :: u.forward == forward && u.status == st
  }

  function ConcludeCompensated(s: Saga): Saga {
    s.(status := SagaCompensated, rows := SkipPending(s.rows), notices := s.notices + {NoticeCompensated})
  }

  function ConcludeFailed(s: Saga): Saga {
    s.(status := SagaFailed, rows := SkipPending(s.rows), notices := s.notices + {NoticeFailed})
  }

  /** A spawn row is undone by the engine itself once its children are terminal. */
  function AddSpawnUndo(s: Saga, q: nat): Saga
    requires q < |s.rows|
  {
    var row := s.rows[q];
    s.(undos := s.undos + [Undo(s.nextId, row.span, row.seqNo, Compensated, SpawnUndoKey(row.key))],
       nextId := s.nextId + 1)
  }

  /** Publishing is a no-op when the key is already in the outbox. */
  function Publish(commands: map<Key, Command>, key: Key, c: Command): map<Key, Command> {
    if key in commands then commands else commands[key := c]
  }

  function ScheduleUndo(e: Env, s: Saga, q: nat): Saga
    requires q < |s.rows|
  {
    var row := s.rows[q];
    var span := s.nextId;
    if !e.undoBuilds(q) then
      ConcludeFailed(WithRow(s, q, row.(status := Failed, error := Some(Err(false, false)))).(nextId := span + 1))
    else
      s.(undos := s.undos + [Undo(span, row.span, row.seqNo, Compensating, UndoKey(span))],
         commands := Publish(s.commands, UndoKey(span), DoUndo(span, row.span)),
         nextId := span + 1)
  }

  /** The compensation cursor: walk forward rows downwards from `q`, and stop at the first
      one that still has work in flight or waits for its children. */
  function Unwind(e: Env, s: Saga, q: int): Saga
    decreases q + 1
  {
    if q < 0 then ConcludeCompensated(s)
    else if q >= |s.rows| then Unwind(e, s, q - 1)  // a gap in forward_seq
    else
      var row := s.rows[q];
      if !NeedsUndo(row) || HasUndo(s.undos, row.span, Compensated) then Unwind(e, s, q - 1)
      else if HasUndo(s.undos, row.span, Compensating) then s
      else if row.lab.spec.kind == SpawnSagas then
        if e.childrenDone(q) then Unwind(e, AddSpawnUndo(s, q), q - 1) else s
      else ScheduleUndo(e, s, q)
  }

  function StartUnwind(e: Env, s: Saga, from: int): Saga {
    Unwind(e, s.(status := SagaCompensating, window := from), from)
  }

  // ---- Step failure

  predicate Crashed(err: Option<Err>) { err.Some? && err.value.crash }

  function FailedRow(row: Row, err: Option<Err>): Row {
    row.(status := if row.status == TimedOut || (err.Some? && err.value.timeout) then TimedOut else Failed,
         error := if row.error.Some? then row.error else err)
  }

  /** A dirty failure (timeout or crash) may have left effects, so the failing row itself
      is undone; a clean one starts just below it. */
  function FailStep(e: Env, s: Saga, i: nat, err: Option<Err>): Saga
    requires i < |s.rows|
  {
    var row := FailedRow(s.rows[i], err);
    var s1 := WithRow(s, i, row);
    if row.lab.spec.awaitOperator then s1.(status := AwaitingRecovery)
    else
      var start := if row.status == TimedOut || Crashed(err) then i else i - 1;
      if start < 0 then ConcludeFailed(s1) else StartUnwind(e, s1, start)
  }

  // ---- Dispatch to workers

  function Hold(s: Saga, i: nat, held: Held): Saga
    requires i < |s.rows|
  {
    WithRow(s, i, s.rows[i].(status := AwaitingHuman, held := held)).(status := SagaAwaitingHuman)
  }

  function Send(s: Saga, i: nat, c: Command): Saga
    requires i < |s.rows|
  {
    s.(commands := Publish(s.commands, s.rows[i].key, c))
  }

  /** The worker command for row `i`, or a hold, or a failure. */
  function Deliver(r: Rules, e: Env, s: Saga, i: nat, args: Args): Saga
    requires i < |s.rows|
  {
    var lab := s.rows[i].lab;
    if lab.spec.kind == Commit then
      if lab.spec.toolCount != 1 then FailStep(e, s, i, Some(Err(false, false)))
      else if lab.spec.hasPolicy && r.gate(lab, args, None).Some? then FailStep(e, s, i, r.gate(lab, args, None))
      else if lab.spec.hitl then Hold(s, i, HeldArgs(args))
      else Send(s, i, DoCommit(s.rows[i].span, args))
    else Send(s, i, DoStep(s.rows[i].span, args))
  }

  function Dispatch(r: Rules, e: Env, s: Saga, i: nat, guidance: Option<int>): Saga
    requires i < |s.rows|
  {
    var row := s.rows[i].(status := InProgress);
    match r.resolve(s.ctx, row.lab, row.retries, guidance)
    case Unresolved(err) => FailStep(e, WithRow(s, i, row), i, err)
    case Resolved(args) => Deliver(r, e, WithRow(s, i, row.(args := args)), i, args)
  }

  function Conclude(s: Saga): Saga {
    if s.status == SagaCompleted then s
    else s.(status := SagaCompleted, rows := SkipPending(s.rows), notices := s.notices + {NoticeCompleted})
  }

  function Settle(r: Rules, e: Env, stop: Stop, guidance: Option<int>): Saga
    requires StopIn(stop)
  {
    match stop
    case Finished(s) => Conclude(s)
    case Launch(s, i) => Dispatch(r, e, s, i, guidance)
    case Parked(s, i) => s
    case Faulted(s, i, err) => FailStep(e, s, i, err)
    case LoopFailed(s, i) =>
      var row := s.rows[i];
      StartUnwind(e, WithRow(s, i, row.(error := if row.error.Some? then row.error else Some(Err(false, false)))), i)
  }

  /** A row's output is final: record it, cross the loop boundary if any, schedule on. */
  function Resume(r: Rules, e: Env, s: Saga, i: nat, p: Payload): Saga
    requires i < |s.rows|
  {
    Settle(r, e, After(r, e, FinishRow(s, i, p), i), None)
  }

  function Trigger(r: Rules, e: Env, s: Saga, i: nat, guidance: Option<int>): Saga
    requires i < |s.rows|
  {
    if WorkerKind(s.rows[i].lab.spec.kind) then Dispatch(r, e, s, i, guidance)
    else Settle(r, e, Fire(r, e, s, i), None)
  }

  // ---- Ingest handlers

  function OnSagaStarted(r: Rules, e: Env, s: Saga): Saga {
    if s.status != SagaPending then s
    else Settle(r, e, Go(r, e, s.(status := Running), 0), None)
  }

  function OnStepCompleted(r: Rules, e: Env, s: Saga, i: nat, p: Payload): Saga
    requires i < |s.rows|
  {
    var row := s.rows[i];
    if s.status == AwaitingRecovery || row.status != InProgress then s
    else if r.schema(row.lab, p).Some? then FailStep(e, s, i, r.schema(row.lab, p))
    else if row.lab.spec.kind == Reason && row.lab.spec.hasPolicy && r.gate(row.lab, row.args, Some(p)).Some? then
      var err := r.gate(row.lab, row.args, Some(p));
      FailStep(e, WithRow(s, i, row.(error := err)), i, err)
    else if row.lab.spec.kind == Reason && row.lab.spec.hitl then Hold(s, i, HeldOutput(p))
    else Resume(r, e, s, i, p)
  }

  function OnHumanApproved(r: Rules, e: Env, s: Saga, i: nat, override: Option<Payload>): Saga
    requires i < |s.rows|
  {
    var row := s.rows[i];
    if row.status != AwaitingHuman then s
    else if row.lab.spec.kind == Commit then
      if row.lab.spec.toolCount != 1 then FailStep(e, s, i, Some(Err(false, false)))
      else
        var s1 := WithRow(s, i, row.(status := InProgress, held := NoHold));
        Send(s1, i, DoCommit(row.span, row.args))
          .(status := if s.status == SagaAwaitingHuman then Running else s.status)
    else if override.None? && !row.held.HeldOutput? then s
    else
      var p := if override.Some? then override.value else row.held.output;
      if r.schema(row.lab, p).Some? then FailStep(e, s, i, r.schema(row.lab, p))
      else Resume(r, e, s, i, p)
  }

  function OnHumanRejected(e: Env, s: Saga, i: nat, err: Option<Err>): Saga
    requires i < |s.rows|
  {
    if s.rows[i].status != AwaitingHuman then s else FailStep(e, s, i, err)
  }

  function ResultKeys(span: nat): set<IngestKey> {
    {IngestKey(TypeStepCompleted, Some(span)), IngestKey(TypeStepFailed, Some(span))}
  }

  function RotatedRow(row: Row, token: nat): Row {
    row.(key := RetryKey(row.lab.spec.id, token), held := NoHold, output := None, error := None)
  }

  predicate RetryAllowed(row: Row) {
    row.lab.spec.hitl && row.lab.spec.hitlMax.Some? ==> row.retries < row.lab.spec.hitlMax.value
  }

  function ResetForHumanRetry(s: Saga, i: nat): Saga
    requires i < |s.rows|
  {
    var row := s.rows[i];
    WithRow(s, i, RotatedRow(row, s.nextId).(retries := row.retries + 1))
      .(nextId := s.nextId + 1, ingested := s.ingested - ResultKeys(row.span), status := Running)
  }

  function OnHumanRetry(r: Rules, e: Env, s: Saga, i: nat, guidance: Option<int>): Saga
    requires i < |s.rows|
  {
    var row := s.rows[i];
    if row.status != AwaitingHuman || (s.status != SagaAwaitingHuman && s.status != Running) || !RetryAllowed(row)
    then s
    else Trigger(r, e, ResetForHumanRetry(s, i), i, guidance)
  }

  function OnStepFailed(e: Env, s: Saga, i: nat, err: Option<Err>): Saga
    requires i < |s.rows|
  {
    var st := s.rows[i].status;
    if s.status == AwaitingRecovery || st == Compensating || st == Compensated || st == Failed then s
    else if st == TimedOut && (s.status == SagaCompensating || s.status == SagaCompensated || s.status == SagaFailed)
    then s
    else FailStep(e, s, i, err)
  }

  function OnStepCompensated(e: Env, s: Saga, u: nat): Saga
    requires u < |s.undos|
  {
    var undo := s.undos[u];
    if undo.status != Compensating then s
    else Unwind(e, s.(undos := s.undos[u := undo.(status := Compensated)]), undo.seqNo - 1)
  }

  /** There is no status guard here: any span, even an unknown one, fails the saga. */
  function OnCompensationFailed(s: Saga, span: nat, err: Option<Err>): Saga {
    match FindUndo(s.undos, span)
    case Some(u) => ConcludeFailed(s.(undos := s.undos[u := s.undos[u].(status := Failed)]))
    case None =>
      match FindRow(s.rows, span)
      case Some(i) => ConcludeFailed(WithRow(s, i, s.rows[i].(status := Failed, error := err)))
      case None => ConcludeFailed(s)
  }

  datatype Event =
    | EvSagaStarted
    | EvStepCompleted(span: nat, payload: Payload)
    | EvStepFailed(span: nat, err: Option<Err>)
    | EvStepCompensated(span: nat)
    | EvCompensationFailed(span: nat, err: Option<Err>)
    | EvHumanApproved(span: nat, override: Option<Payload>)
    | EvHumanRejected(span: nat, err: Option<Err>)
    | EvHumanRetry(span: nat, guidance: Option<int>)
    | EvSagaCompleted
    | EvSagaCompensated
    | EvSagaFailed

  function KeyOf(ev: Event): IngestKey {
    match ev
    case EvSagaStarted => IngestKey(TypeSagaStarted, None)
    case EvStepCompleted(span, _) => IngestKey(TypeStepCompleted, Some(span))
    case EvStepFailed(span, _) => IngestKey(TypeStepFailed, Some(span))
    case EvStepCompensated(span) => IngestKey(TypeStepCompensated, Some(span))
    case EvCompensationFailed(span, _) => IngestKey(TypeCompensationFailed, Some(span))
    case EvHumanApproved(span, _) => IngestKey(TypeHumanApproved, Some(span))
    case EvHumanRejected(span, _) => IngestKey(TypeHumanRejected, Some(span))
    case EvHumanRetry(span, _) => IngestKey(TypeHumanRetry, Some(span))
    case EvSagaCompleted => IngestKey(TypeSagaCompleted, None)
    case EvSagaCompensated => IngestKey(TypeSagaCompensated, None)
    case EvSagaFailed => IngestKey(TypeSagaFailed, None)
  }

  function HandleRow(r: Rules, e: Env, s: Saga, i: nat, ev: Event): Saga
    requires i < |s.rows|
  {
    match ev
    case EvStepCompleted(_, p) => OnStepCompleted(r, e, s, i, p)
    case EvStepFailed(_, err) => OnStepFailed(e, s, i, err)
    case EvHumanApproved(_, override) => OnHumanApproved(r, e, s, i, override)
    case EvHumanRejected(_, err) => OnHumanRejected(e, s, i, err)
    case EvHumanRetry(_, guidance) => OnHumanRetry(r, e, s, i, guidance)
    case _ => s
  }

  function Handle(r: Rules, e: Env, s: Saga, ev: Event): Saga {
    match ev
    case EvSagaStarted => OnSagaStarted(r, e, s)
    case EvStepCompensated(span) =>
      (match FindUndo(s.undos, span) case None => s case Some(u) => OnStepCompensated(e, s, u))
    case EvCompensationFailed(span, err) => OnCompensationFailed(s, span, err)
    case EvSagaCompleted => Conclude(s)
    case EvSagaCompensated => s
    case EvSagaFailed => s
    case _ =>
      match FindRow(s.rows, ev.span) case None => s case Some(i) => HandleRow(r, e, s, i, ev)
  }

  /** One ingest transaction: the dedup key is claimed first, a second delivery is a no-op. */
  function Ingest(r: Rules, e: Env, s: Saga, ev: Event): Saga {
    if KeyOf(ev) in s.ingested then s
    else Handle(r, e, s.(ingested := s.ingested + {KeyOf(ev)}), ev)
  }

  // ---- Operator recovery. A rejected request leaves the saga unchanged.

  /** How the worker's claim and outbox rows answer the operator's request. */
  datatype Claim = ClaimFree | ClaimBusy

  function ResetForRetry(s: Saga, i: nat): Saga
    requires i < |s.rows|
  {
    var row := s.rows[i];
    WithRow(s, i, RotatedRow(row, s.nextId))
      .(nextId := s.nextId + 1, ingested := s.ingested - ResultKeys(row.span),
        ctx := s.ctx.(steps := s.ctx.steps - {row.lab.spec.id}))
  }

  predicate Destructive(row: Row, force: bool, allow: bool) {
    force && row.lab.spec.kind == Commit && !allow
  }

  function RetryStep(r: Rules, e: Env, s: Saga, i: nat, force: bool, allow: bool, claim: Claim, requeue: bool): Saga
    requires i < |s.rows|
  {
    var row := s.rows[i];
    if s.status != Running || row.status != InProgress then s
    else if !WorkerKind(row.lab.spec.kind) then
      if row.lab.spec.kind == JoinSagas && e.native(i).NativeWait? then s else Trigger(r, e, s, i, None)
    else if Destructive(row, force, allow) || claim == ClaimBusy then s
    else if requeue && row.key in s.commands then
      WithRow(s, i, row.(output := None, error := None, held := NoHold))
        .(ingested := s.ingested - ResultKeys(row.span))
    else Trigger(r, e, ResetForRetry(s, i), i, None)
  }

  predicate Dirty(row: Row) {
    row.status == TimedOut || Crashed(row.error)
  }

  predicate HeldForRecovery(s: Saga, i: nat)
    requires i < |s.rows|
  {
    s.status == AwaitingRecovery && (s.rows[i].status == Failed || s.rows[i].status == TimedOut)
  }

  function RetryForward(r: Rules, e: Env, s: Saga, i: nat, force: bool, allow: bool, claim: Claim): Saga
    requires i < |s.rows|
  {
    var row := s.rows[i];
    if !HeldForRecovery(s, i) || (Dirty(row) && !allow) || Destructive(row, force, allow) || claim == ClaimBusy
    then s
    else Trigger(r, e, ResetForRetry(s, i).(status := Running), i, None)
  }

  function StartCompensation(e: Env, s: Saga, i: nat): Saga
    requires i < |s.rows|
  {
    if !HeldForRecovery(s, i) then s
    else
      var start := if Dirty(s.rows[i]) then i else i - 1;
      if start < 0 then ConcludeFailed(s) else StartUnwind(e, s, start)
  }

  function UndoResultKeys(span: nat): set<IngestKey> {
    {IngestKey(TypeStepCompensated, Some(span)), IngestKey(TypeCompensationFailed, Some(span))}
  }

  /** Re-emission goes through Publish under the unchanged key, so it never redelivers. */
  function RetryCompensation(e: Env, s: Saga, u: nat, claim: Claim, requeue: bool): Saga
    requires u < |s.undos|
  {
    var undo := s.undos[u];
    if (s.status != SagaCompensating && s.status != SagaFailed)
      || (undo.status != Failed && undo.status != InProgress && undo.status != Compensating)
      || claim == ClaimBusy
    then s
    else
      var s1 := s.(status := SagaCompensating,
                   undos := s.undos[u := undo.(status := Compensating)],
                   ingested := s.ingested - UndoResultKeys(undo.span));
      if requeue && undo.key in s.commands then s1
      else if undo.seqNo >= 0 && !e.undoBuilds(undo.seqNo) then s
      else s1.(commands := Publish(s.commands, undo.key, DoUndo(undo.span, undo.forward)))
  }

  // ---- A child saga became terminal

  /** The parked join row, if there is one. */
  function FindJoin(rows: seq<Row>): (r: Option<nat>)
    ensures r.Some? ==> r.value < |rows|
    ensures r.Some? ==> rows[r.value].lab.spec.kind == JoinSagas && rows[r.value].status == InProgress
    ensures r.None? ==> forall i :: 0 <= i < |rows| && rows[i].lab.spec.kind == JoinSagas ==>
      rows[i].status != InProgress
  {
    if rows == [] then None
    else if rows[|rows| - 1].lab.spec.kind == JoinSagas && rows[|rows| - 1].status == InProgress
    then Some(|rows| - 1)
    else FindJoin(rows[..|rows| - 1])
  }

  /** The highest spawn row that may have started children. */
  function HighestSpawn(rows: seq<Row>): (r: Option<nat>)
    ensures r.Some? ==> r.value < |rows|
    ensures r.Some? ==> rows[r.value].lab.spec.kind == SpawnSagas && Eligible(rows[r.value].status)
    ensures forall i :: 0 <= i < |rows| && rows[i].lab.spec.kind == SpawnSagas && Eligible(rows[i].status) ==>
      r.Some? && i <= r.value
  {
    if rows == [] then None
    else if rows[|rows| - 1].lab.spec.kind == SpawnSagas && Eligible(rows[|rows| - 1].status)
    then Some(|rows| - 1)
    else HighestSpawn(rows[..|rows| - 1])
  }

  function PokeJoin(r: Rules, e: Env, s: Saga): Saga {
    match FindJoin(s.rows)
    case Some(i) => if e.native(i).NativeWait? then s else Trigger(r, e, s, i, None)
    case None => s
  }

  /** The spawn row whose undo a terminal child would complete. The LIFO cursor is not
      consulted: the highest spawn row is taken, whatever is in flight above it. */
  function ResumableSpawn(e: Env, s: Saga): (r: Option<nat>)
    ensures r.Some? ==> r.value < |s.rows|
  {
    if s.status != SagaCompensating then None
    else match HighestSpawn(s.rows)
      case None => None
      case Some(q) =>
        if HasUndo(s.undos, s.rows[q].span, Compensated) || !e.childrenDone(q) then None else Some(q)
  }

  function ResumeSpawn(e: Env, s: Saga): Saga {
    match ResumableSpawn(e, s)
    case None => s
    case Some(q) => Unwind(e, AddSpawnUndo(s, q), q - 1)
  }

  function OnChildTerminal(r: Rules, e: Env, s: Saga): Saga {
    ResumeSpawn(e, PokeJoin(r, e, s))
  }

  // ---- Runs

  datatype Op =
    | OpIngest(ev: Event)
    | OpRetryStep(span: nat, force: bool, allow: bool, claim: Claim, requeue: bool)
    | OpRetryForward(span: nat, force: bool, allow: bool, claim: Claim)
    | OpStartCompensation(span: nat)
    | OpRetryCompensation(span: nat, claim: Claim, requeue: bool)
    | OpChildTerminal

  /** One committed transaction on the saga. */
  function Step(r: Rules, e: Env, s: Saga, op: Op): Saga {
    match op
    case OpIngest(ev) => Ingest(r, e, s, ev)
    case OpRetryStep(span, force, allow, claim, requeue) =>
      (match FindRow(s.rows, span) case None => s case Some(i) => RetryStep(r, e, s, i, force, allow, claim, requeue))
    case OpRetryForward(span, force, allow, claim) =>
      (match FindRow(s.rows, span) case None => s case Some(i) => RetryForward(r, e, s, i, force, allow, claim))
    case OpStartCompensation(span) =>
      (match FindRow(s.rows, span) case None => s case Some(i) => StartCompensation(e, s, i))
    case OpRetryCompensation(span, claim, requeue) =>
      (match FindUndo(s.undos, span) case None => s case Some(u) => RetryCompensation(e, s, u, claim, requeue))
    case OpChildTerminal => OnChildTerminal(r, e, s)
  }

  datatype Action = Action(env: Env, op: Op)

  function Run(r: Rules, s: Saga, actions: seq<Action>): Saga
    decreases |actions|
  {
    if actions == [] then s
    else Run(r, Step(r, actions[0].env, s, actions[0].op), actions[1..])
  }

  // ---- Saga start (engine/api/saga_start.py)

  function Shells(bp: seq<Top>): map<string, Entry> {
    map id | id in StepIds(bp) :: BLANK
  }

  function LoopShells(bp: seq<Top>): map<string, LoopCtx> {
    if bp == [] then map[]
    else
      var m := LoopShells(bp[1..]);
      match bp[0]
      case Exec(_) => m
      case Block(l) => m[l.id := LoopCtx(1, l.max, LoopRunning)]
  }

  function Start(bp: seq<Top>): Saga {
    var g := TakeSegment(bp, 0);
    Mint(Saga(bp, SagaPending, [], Context(Shells(bp), LoopShells(bp)), g.next, g.active,
              [], map[], {}, {}, 0, -1), g.labels)
  }
}
