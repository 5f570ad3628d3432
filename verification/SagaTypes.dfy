/** Vocabulary of the durable saga engine: statuses, frozen blueprints, step rows,
    saga context, worker commands and the oracles the engine consults. */
module SagaTypes {
  import opened Decimals

  datatype Option<+T> = None | Some(value: T)

  // common/models.py: StepStatus and SagaStatus.
  datatype StepStatus =
    | Pending | InProgress | Completed | Failed | Compensating
    | Compensated | Skipped | TimedOut | AwaitingHuman

  datatype SagaStatus =
    | SagaPending | Running | SagaAwaitingHuman | AwaitingRecovery
    | SagaCompensating | SagaCompleted | SagaFailed | SagaCompensated

  datatype Kind = Reason | Commit | SpawnSagas | JoinSagas

  // JSON objects and resolved arguments are opaque tokens; EMPTY is the object {}.
  type Obj = int
  type Args = int
  const EMPTY: Obj := 0

  /** One executable step of a frozen blueprint. */
  datatype Spec = Spec(
    id: string,
    kind: Kind,
    hasWhen: bool,
    declaresUndo: bool,
    awaitOperator: bool,
    hitl: bool,
    hitlMax: Option<nat>,
    toolCount: nat,
    hasPolicy: bool)

  datatype Loop = Loop(id: string, max: nat, body: seq<Spec>)

  datatype Top = Exec(spec: Spec) | Block(loop: Loop)

  /** The pass a loop-body row belongs to (`loop_id`, `iteration`). */
  datatype Pass = Pass(loop: string, k: nat)

  /** What is minted for one forward row: a step, and its pass when inside a loop. */
  datatype Label = Label(spec: Spec, pass: Option<Pass>)

  /** Idempotency keys. Keys minted with a row are the text after the saga's trace id; the
      random parts of retry and undo keys are fresh ids, which no text repeats, with or
      without a suffix. */
  datatype Key =
    | TextKey(text: string)
    | RetryKey(id: string, token: nat)
    | UndoKey(span: nat)
    | Suffixed(key: Key)

  const SPAWN_UNDO_SUFFIX := ":spawn-compensate"

  /** The undo row of a spawn step has the key of that row, with a suffix. */
  function SpawnUndoKey(key: Key): Key {
    match key
    case TextKey(text) => TextKey(text + SPAWN_UNDO_SUFFIX)
    case _ => Suffixed(key)
  }

  /** A step output envelope: the `data` object may be missing or malformed. */
  datatype Payload = Payload(data: Option<Obj>, facts: Obj)

  /** `context.steps.<id>`. */
  datatype Entry = Entry(data: Obj, facts: Obj)

  datatype LoopStatus = LoopRunning | LoopExited | LoopExhausted
  datatype LoopCtx = LoopCtx(iteration: nat, max: nat, status: LoopStatus)

  datatype Context = Context(steps: map<string, Entry>, loops: map<string, LoopCtx>)

  /** Structured failure details: does the code say SYSTEM_CRASH, do the code or the
      message speak of a timeout. None stands for the empty object. */
  datatype Err = Err(crash: bool, timeout: bool)

  datatype Held = NoHold | HeldOutput(output: Payload) | HeldArgs(args: Args)

  /** A forward row of `saga_step_instances`. */
  datatype Row = Row(
    span: nat,
    seqNo: int,
    order: int,
    lab: Label,
    status: StepStatus,
    key: Key,
    args: Args,
    output: Option<Obj>,
    held: Held,
    error: Option<Err>,
    retries: nat)

  /** A compensation row: `compensates_span_id` is `forward`. */
  datatype Undo = Undo(span: nat, forward: nat, seqNo: int, status: StepStatus, key: Key)

  datatype Command =
    | DoStep(span: nat, args: Args)
    | DoCommit(span: nat, args: Args)
    | DoUndo(span: nat, forward: nat)

  /** Saga-level rows of the engine-events outbox. */
  datatype Notice = NoticeCompleted | NoticeCompensated | NoticeFailed

  datatype EventType =
    | TypeSagaStarted | TypeStepCompleted | TypeStepFailed | TypeStepCompensated
    | TypeCompensationFailed | TypeHumanApproved | TypeHumanRejected | TypeHumanRetry
    | TypeSagaCompleted | TypeSagaCompensated | TypeSagaFailed

  /** `{trace}:{event_type}:{span}`; saga-level events carry no span. */
  datatype IngestKey = IngestKey(kind: EventType, span: Option<nat>)

  datatype WhenResult = WhenTrue | WhenFalse | WhenError(err: Option<Err>)
  datatype UntilResult = UntilTrue | UntilFalse | UntilError(err: Option<Err>)
  datatype Resolved = Resolved(args: Args) | Unresolved(err: Option<Err>)

  /** Pure oracles, fixed for a saga: CEL programs, parameter resolution, policy gates
      and output schemas are frozen at start and read only what they are given.
      `gate` and `schema` answer None when they pass. */
  datatype Rules = Rules(
    when: (Context, nat, Label) -> WhenResult,
    until: (Context, string, nat) -> UntilResult,
    resolve: (Context, Label, nat, Option<int>) -> Resolved,
    gate: (Label, Args, Option<Payload>) -> Option<Err>,
    schema: (Label, Payload) -> Option<Err>)

  /** What a spawn or join row meets when it is run. */
  datatype Native = NativeOutput(p: Payload) | NativeFailure(err: Option<Err>) | NativeWait

  /** Oracles that read other sagas or catalog rows, so they may differ per transaction:
      spawn/join outcome, "all children terminal", and whether the undo command of a
      forward row passes validation. Indexed by `forward_seq`. */
  datatype Env = Env(
    native: nat -> Native,
    childrenDone: nat -> bool,
    undoBuilds: nat -> bool)

  predicate WorkerKind(k: Kind) { k == Reason || k == Commit }

  /** Clean completion. */
  predicate Done(st: StepStatus) { st == Completed || st == Skipped }

  predicate Terminal(st: SagaStatus) {
    st == SagaCompleted || st == SagaFailed || st == SagaCompensated
  }

  // A blueprint as hydration leaves it (common/schemas/saga.py): bodies are non-empty,
  // hold worker steps only, max_iterations is at least 1, and ids are unique.

  function BodyIds(body: seq<Spec>): seq<string> {
    seq(|body|, i requires 0 <= i < |body| => body[i].id)
  }

  function StepIds(bp: seq<Top>): seq<string> {
    if bp == [] then []
    else (match bp[0] case Exec(sp) => [sp.id] case Block(l) => BodyIds(l.body)) + StepIds(bp[1..])
  }

  predicate Distinct<T(==)>(s: seq<T>) {
    forall i, j :: 0 <= i < j < |s| ==> s[i] != s[j]
  }

  /** `forward_idempotency_key` after its trace prefix. */
  function KeyText(id: string, pass: Option<Pass>): string {
    match pass
    case None => id
    case Some(p) => PassText(id, p.loop, p.k)
  }

  function BodyText(id: string, loop: string): string { id + "-" + loop }

  function PassText(id: string, loop: string, k: nat): string { BodyText(id, loop) + ['-'] + Digits(k) }

  predicate LoopOk(l: Loop) {
    && 1 <= l.max
    && l.body != []
    && (forall sp <- l.body :: WorkerKind(sp.kind))
  }

  ghost predicate LoopsWellFormed(bp: seq<Top>) {
    && (forall i :: 0 <= i < |bp| && bp[i].Block? ==> LoopOk(bp[i].loop))
    && (forall i, j :: 0 <= i < j < |bp| && bp[i].Block? && bp[j].Block? ==> bp[i].loop.id != bp[j].loop.id)
  }

  /** What the blueprint schema asks of ids and loops. */
  ghost predicate Accepted(bp: seq<Top>) {
    && LoopsWellFormed(bp) && Distinct(StepIds(bp))
    && (forall i :: 0 <= i < |bp| && bp[i].Block? ==> bp[i].loop.id !in StepIds(bp))
  }

  predicate StepApart(sp: Spec, l: Loop) {
    forall b <- l.body, k :: 1 <= k <= l.max ==> sp.id != PassText(b.id, l.id, k)
  }

  predicate LoopsApart(l: Loop, m: Loop) {
    forall b <- l.body, c <- m.body :: BodyText(b.id, l.id) != BodyText(c.id, m.id)
  }

  /** No step outside a loop is named like a pass of a loop-body step. */
  ghost predicate StepsApart(bp: seq<Top>) {
    forall i, j :: 0 <= i < |bp| && 0 <= j < |bp| && bp[i].Exec? && bp[j].Block? ==> StepApart(bp[i].spec, bp[j].loop)
  }

  /** No two body steps of different loops read alike once the loop id is appended. */
  ghost predicate BodiesApart(bp: seq<Top>) {
    forall i, j :: 0 <= i < j < |bp| && bp[i].Block? && bp[j].Block? ==> LoopsApart(bp[i].loop, bp[j].loop)
  }

  /** No step outside a loop is named like the undo of a spawn step. */
  ghost predicate SpawnsApart(bp: seq<Top>) {
    forall i, j :: 0 <= i < |bp| && 0 <= j < |bp| && bp[i].Exec? && bp[j].Exec? && bp[i].spec.kind == SpawnSagas ==>
      bp[j].spec.id != bp[i].spec.id + SPAWN_UNDO_SUFFIX
  }

  /** What is joined to ids does not make two keys the same. */
  ghost predicate KeysApart(bp: seq<Top>) {
    StepsApart(bp) && BodiesApart(bp) && SpawnsApart(bp)
  }

  ghost predicate WellFormed(bp: seq<Top>) {
    Accepted(bp) && KeysApart(bp)
  }
}
