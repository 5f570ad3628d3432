/** Main results about whole runs of one saga, from its start. */
module SagaTheorems {
  import opened SagaTypes
  import opened SagaSpec
  import opened Interpreter
  import opened ForwardPath
  import opened ForwardSteps
  import opened Compensation
  import opened Scheduling
  import opened SagaInvariant
  import opened SagaRuns
  import opened Walks

  // ---- The start state

  lemma {:induction false} ShellsFresh(bp: seq<Top>, j: nat)
    requires LoopsWellFormed(bp) && j < |bp| && bp[j].Block?
    ensures bp[j].loop.id in LoopShells(bp)
    ensures LoopShells(bp)[bp[j].loop.id] == LoopCtx(1, bp[j].loop.max, LoopRunning)
    decreases |bp|
  {
    if j > 0 {
      assert bp[1..][j - 1] == bp[j];
      ShellsFresh(bp[1..], j - 1);
    }
  }

  lemma StartRows(bp: seq<Top>)
    ensures var s := Start(bp); var g := TakeSegment(bp, 0);
      && PlanOf(s) == Plan(bp, g.labels, g.next, g.active, LoopShells(bp))
      && |s.rows| == |g.labels|
      && (forall i :: 0 <= i < |s.rows| ==> s.rows[i] == MintedRow(g.labels[i], i, i))
  {
    var g := TakeSegment(bp, 0);
    var s0 := Saga(bp, SagaPending, [], Context(Shells(bp), LoopShells(bp)), g.next, g.active, [], map[], {}, {}, 0, -1);
    MintPlan(s0, g.labels);
    assert Labs([]) + g.labels == g.labels;
  }

  lemma StartLoops(bp: seq<Top>)
    requires LoopsWellFormed(bp)
    ensures forall j :: 0 <= j < |bp| && bp[j].Block? ==> LoopAt(PlanOf(Start(bp)), bp[j].loop, 1, LoopRunning)
  {
    StartRows(bp);
    forall j | 0 <= j < |bp| && bp[j].Block?
      ensures LoopAt(PlanOf(Start(bp)), bp[j].loop, 1, LoopRunning)
    {
      ShellsFresh(bp, j);
      assert LoopOk(bp[j].loop);
    }
  }

  lemma StartUnrolled(bp: seq<Top>)
    requires LoopsWellFormed(bp)
    ensures Unrolled(PlanOf(Start(bp)))
  {
    StartRows(bp);
    forall j | 0 <= j < |bp| && bp[j].Block?
      ensures bp[j].loop.id in LoopShells(bp) && LoopShells(bp)[bp[j].loop.id].iteration == 1
      ensures LoopShells(bp)[bp[j].loop.id].status == LoopRunning
    {
      ShellsFresh(bp, j);
    }
    UnrollFresh(bp, 0, LoopShells(bp));
    assert bp[0..] == bp;
  }

  /** The first segment: plain steps up to the first pass of the first loop. */
  lemma SegmentIsPlan(p: Plan, g: Segment)
    requires LoopsWellFormed(p.bp) && Shaped(p.bp, 0, g)
    requires p.labs == g.labels && p.next == g.next && p.active == g.active
    requires forall j :: 0 <= j < |p.bp| && p.bp[j].Block? ==> LoopAt(p, p.bp[j].loop, 1, LoopRunning)
    ensures Tail(p, 0) && LoopsOk(p)
  {
    if p.active.Some? {
      var l := p.bp[p.next - 1].loop;
      assert LoopOk(l) && LoopAt(p, l, 1, LoopRunning);
      assert p.labs[|p.labs| - 1] == Label(l.body[|l.body| - 1], Some(Pass(l.id, 1)));
    }
  }

  lemma StartPlan(bp: seq<Top>)
    requires LoopsWellFormed(bp)
    ensures var p := PlanOf(Start(bp)); Tail(p, 0) && LoopsOk(p) && Unrolled(p)
  {
    StartRows(bp);
    SegmentShape(bp, 0);
    StartLoops(bp);
    StartUnrolled(bp);
    SegmentIsPlan(PlanOf(Start(bp)), TakeSegment(bp, 0));
  }

  /** The plan of a started saga is its first segment. */
  lemma StartPieces(bp: seq<Top>)
    requires LoopsWellFormed(bp)
    ensures var p, g := PlanOf(Start(bp)), TakeSegment(bp, 0);
      p.labs == g.labels && ActivePass(p) == SegmentPass(bp, g) && Rest(p) == bp[g.next..]
  {
    StartPlan(bp);
    StartRows(bp);
    SegmentShape(bp, 0);
    hide TakeSegment, Tail, Unrolled, LoopsWellFormed, LoopShells, Shells;
  }

  lemma StartOnward(r: Rules, bp: seq<Top>, st: St)
    requires LoopsWellFormed(bp)
    ensures Interp(r, bp, st) == Onward(r, PlanOf(Start(bp)), 0, st)
  {
    hide TakeSegment, LoopsWellFormed, Start, PlanOf, Denote, Interp;
    StartPieces(bp);
    SegmentDenotes(r, bp, 0, st);
    var p := PlanOf(Start(bp));
    assert bp[0..] == bp && p.labs[0..] == p.labs;
  }

  lemma StartFollows(r: Rules, bp: seq<Top>)
    requires LoopsWellFormed(bp)
    ensures Follows(r, Start(bp), 0, [])
  {
    var s := Start(bp);
    assert s.rows[..0] == [] && Trace([]) == [];
    forall more: seq<Entry>
      ensures Replay(r, bp, [] + more) == Onward(r, PlanOf(s), 0, St(s.ctx, 0, more, Trace(s.rows[..0]), Going))
    {
      assert [] + more == more;
      StartOnward(r, bp, St(s.ctx, 0, more, [], Going));
    }
  }

  lemma StartInv(r: Rules, bp: seq<Top>)
    requires WellFormed(bp)
    ensures Inv(r, Start(bp)) && NoticesOk(Start(bp))
  {
    StartRows(bp);
    StartPlan(bp);
    StartFollows(r, bp);
    LoopsTallied(r, Start(bp));
    assert Standing(r, Start(bp), 0, []);
  }

  // ---- Runs

  ghost predicate InOrderRun(r: Rules, s: Saga, actions: seq<Action>)
    decreases |actions|
  {
    actions != [] ==>
      && InOrder(r, actions[0].env, s, actions[0].op)
      && InOrderRun(r, Step(r, actions[0].env, s, actions[0].op), actions[1..])
  }

  lemma {:induction false} RunInv(r: Rules, s: Saga, actions: seq<Action>)
    requires Inv(r, s) && NoticesOk(s) && InOrderRun(r, s, actions)
    ensures Inv(r, Run(r, s, actions)) && NoticesOk(Run(r, s, actions))
    decreases |actions|
  {
    if actions != [] {
      StepInv(r, actions[0].env, s, actions[0].op);
      StepNotices(r, actions[0].env, s, actions[0].op);
      RunInv(r, Step(r, actions[0].env, s, actions[0].op), actions[1..]);
    }
  }

  lemma Reachable(r: Rules, bp: seq<Top>, actions: seq<Action>)
    requires WellFormed(bp) && InOrderRun(r, Start(bp), actions)
    ensures Inv(r, Run(r, Start(bp), actions)) && NoticesOk(Run(r, Start(bp), actions))
    ensures Run(r, Start(bp), actions).blueprint == bp
  {
    StartInv(r, bp);
    RunInv(r, Start(bp), actions);
    RunBlueprint(r, Start(bp), actions);
  }

  lemma {:induction false} RunBlueprint(r: Rules, s: Saga, actions: seq<Action>)
    ensures Run(r, s, actions).blueprint == s.blueprint
    decreases |actions|
  {
    if actions != [] {
      StepSide(r, actions[0].env, s, actions[0].op);
      RunBlueprint(r, Step(r, actions[0].env, s, actions[0].op), actions[1..]);
    }
  }

  // ---- Saga and step statuses are coupled

  /** All rows below `a` are finished, all rows above it untouched. */
  predicate OnlyAt(rows: seq<Row>, a: int) {
    && 0 <= a < |rows|
    && (forall j :: 0 <= j < a ==> Done(rows[j].status))
    && (forall j :: a < j < |rows| ==> rows[j].status == Pending)
  }

  predicate OnlyOne(rows: seq<Row>, a: int, among: set<StepStatus>) {
    OnlyAt(rows, a) && rows[a].status in among
  }

  ghost predicate Coupled(s: Saga) {
    match s.status
    case SagaPending => forall i :: 0 <= i < |s.rows| ==> s.rows[i].status == Pending
    case Running => exists a :: OnlyOne(s.rows, a, {InProgress})
    case SagaAwaitingHuman => exists a :: OnlyOne(s.rows, a, {AwaitingHuman})
    case AwaitingRecovery => exists a :: OnlyOne(s.rows, a, {Failed, TimedOut})
    case SagaCompleted => forall i :: 0 <= i < |s.rows| ==> Done(s.rows[i].status)
    case SagaCompensating => Quiet(s)
    case _ => Quiet(s) && NonePending(s.rows)
  }

  lemma InvCoupled(r: Rules, s: Saga)
    requires Inv(r, s)
    ensures Coupled(s)
  {
    if s.status in {Running, SagaAwaitingHuman, AwaitingRecovery} {
      var i: nat, outs, ctx :| LiveAt(r, s, i, outs, ctx);
      assert OnlyOne(s.rows, i, {s.rows[i].status});
      assert s.status == AwaitingRecovery ==> OnlyOne(s.rows, i, {Failed, TimedOut});
    }
  }

  /** In every reachable state saga and step statuses are coupled. */
  lemma StatusesCoupled(r: Rules, bp: seq<Top>, actions: seq<Action>)
    requires WellFormed(bp) && InOrderRun(r, Start(bp), actions)
    ensures Coupled(Run(r, Start(bp), actions))
  {
    Reachable(r, bp, actions);
    InvCoupled(r, Run(r, Start(bp), actions));
  }

  // ---- Forward rows are numbered without gaps

  /** Whatever was minted when, forward rows carry 0..n-1 in order. */
  lemma RowsContiguous(r: Rules, bp: seq<Top>, actions: seq<Action>)
    requires WellFormed(bp) && InOrderRun(r, Start(bp), actions)
    ensures var s := Run(r, Start(bp), actions);
      forall i :: 0 <= i < |s.rows| ==> s.rows[i].seqNo == i && s.rows[i].order == i
  {
    Reachable(r, bp, actions);
  }

  predicate HasSeq(rows: seq<Row>, q: int) {
    exists row <- rows :: row.seqNo == q
  }

  /** Compensation never starts, resumes or continues above the last row, so the walk
      never meets a gap. */
  lemma WalkMeetsNoGap(r: Rules, bp: seq<Top>, actions: seq<Action>)
    requires WellFormed(bp) && InOrderRun(r, Start(bp), actions)
    ensures var s := Run(r, Start(bp), actions);
      && s.window < |s.rows|
      && (forall u <- s.undos :: 0 <= u.seqNo < |s.rows| && s.rows[u.seqNo].span == u.forward)
      && (forall q :: 0 <= q <= s.window ==> HasSeq(s.rows, q))
  {
    Reachable(r, bp, actions);
    var s := Run(r, Start(bp), actions);
    forall u | u in s.undos ensures 0 <= u.seqNo < |s.rows| && s.rows[u.seqNo].span == u.forward {
      assert Placed(s, u);
    }
    forall q | 0 <= q <= s.window ensures HasSeq(s.rows, q) {
      assert s.rows[q] in s.rows;
    }
  }

  // ---- Loops

  /** The forward rows are always what the do-while interpreter has unrolled so far, and
      no loop runs more than `max_iterations` passes. */
  lemma RowsAreUnrolled(r: Rules, bp: seq<Top>, actions: seq<Action>)
    requires WellFormed(bp) && InOrderRun(r, Start(bp), actions)
    ensures var s := Run(r, Start(bp), actions);
      && Labs(s.rows) == Unroll(bp, s.ctx.loops)
      && (forall j :: 0 <= j < |bp| && bp[j].Block? ==>
            bp[j].loop.id in s.ctx.loops && 1 <= s.ctx.loops[bp[j].loop.id].iteration <= bp[j].loop.max)
  {
    Reachable(r, bp, actions);
    var s := Run(r, Start(bp), actions);
    forall j | 0 <= j < |bp| && bp[j].Block?
      ensures bp[j].loop.id in s.ctx.loops && 1 <= s.ctx.loops[bp[j].loop.id].iteration <= bp[j].loop.max
    {
      assert WithinMax(PlanOf(s).loops, PlanOf(s).bp[j].loop);
    }
  }

  lemma WaitingHere(r: Rules, p: Plan, i: nat, st: St)
    requires i < |p.labs| && st.verdict == Going && st.feed == [] && st.pos == i && Chosen(r, st.ctx, i, p.labs[i])
    ensures Onward(r, p, i, st) == st.(verdict := Waiting)
  {
    OnwardStep(r, p, i, st);
    var st1 := st.(verdict := Waiting);
    assert InterpStep(r, p.labs[i], st) == st1;
    StepsStopped(r, p.labs[i + 1..], st1);
    InterpStopped(r, Rest(p), st1);
  }

  lemma OutAtEnd(r: Rules, p: Plan, st: St)
    requires p.active.None? && p.next == |p.bp|
    ensures Onward(r, p, |p.labs|, st) == st
  {
    assert p.labs[|p.labs|..] == [] && Rest(p) == [];
  }

  /** Fed with the recorded outputs, the interpreter goes exactly as far as the engine: it
      waits at the engine's row, in the engine's context up to the entry of that row. */
  ghost predicate InStep(r: Rules, s: Saga, outs: seq<Entry>) {
    if s.status == SagaCompleted then
      Data(outs) == Recorded(s.rows) &&
      Replay(r, s.blueprint, outs) == St(s.ctx, |s.rows|, [], Trace(s.rows), Going)
    else
      exists i, ctx :: WaitsWith(r, s, outs, i, ctx)
  }

  ghost predicate WaitsWith(r: Rules, s: Saga, outs: seq<Entry>, i: nat, ctx: Context) {
    && i < |s.rows|
    && Repaired(ctx, s.ctx, s.rows[i].lab.spec.id)
    && Fits(s.status, s.rows[i].status)
    && Data(outs) == Recorded(s.rows[..i])
    && Replay(r, s.blueprint, outs) == St(ctx, i, [], Trace(s.rows[..i]), Waiting)
  }

  lemma InvInStep(r: Rules, s: Saga) returns (outs: seq<Entry>)
    requires Inv(r, s) && s.status in {Running, SagaAwaitingHuman, AwaitingRecovery, SagaCompleted}
    ensures InStep(r, s, outs)
  {
    if s.status == SagaCompleted {
      var o :| Standing(r, s, |s.rows|, o);
      outs := o;
      assert o + [] == o && s.rows[..|s.rows|] == s.rows;
      OutAtEnd(r, PlanOf(s), St(s.ctx, |s.rows|, [], Trace(s.rows), Going));
    } else {
      var i: nat, o, ctx :| LiveAt(r, s, i, o, ctx);
      outs := o;
      assert o + [] == o;
      var s1 := s.(ctx := ctx);
      WaitingHere(r, PlanOf(s1), i, St(ctx, i, [], Trace(s.rows[..i]), Going));
      assert WaitsWith(r, s, o, i, ctx);
    }
  }

  /** Event-driven execution refines the plain recursive interpreter: in every reachable
      live state the outputs on the rows (with some facts beside them) bring the interpreter
      to the same row and context, and a COMPLETED saga is a complete interpretation with no
      blueprint tail lost. */
  lemma RefinesInterpreter(r: Rules, bp: seq<Top>, actions: seq<Action>)
    requires WellFormed(bp) && InOrderRun(r, Start(bp), actions)
    requires Run(r, Start(bp), actions).status in {Running, SagaAwaitingHuman, AwaitingRecovery, SagaCompleted}
    ensures exists outs: seq<Entry> :: InStep(r, Run(r, Start(bp), actions), outs)
  {
    Reachable(r, bp, actions);
    var outs := InvInStep(r, Run(r, Start(bp), actions));
  }

  /** On the forward path no loop counter says EXHAUSTED. */
  lemma ForwardHasNoneExhausted(r: Rules, s: Saga)
    requires Inv(r, s) && !Winding(s.status)
    ensures !SomeExhausted(s)
  {
    if s.status == SagaCompleted {
      var outs :| Standing(r, s, |s.rows|, outs);
      NoneExhausted(PlanOf(s));
    } else if s.status == SagaPending {
      NoneExhausted(PlanOf(s));
    } else {
      var i, outs, ctx :| LiveAt(r, s, i, outs, ctx);
      PlanIgnoresSteps(s, ctx);
      NoneExhausted(PlanOf(s));
    }
  }

  /** A saga in which a loop was given up is on its way back, and the interpreter, fed with
      what the rows recorded up to there, is stuck at that very point in the same context:
      since then at most some finished row was marked FAILED. */
  lemma GivenUpIsStuck(r: Rules, bp: seq<Top>, actions: seq<Action>)
    requires WellFormed(bp) && InOrderRun(r, Start(bp), actions) && SomeExhausted(Run(r, Start(bp), actions))
    ensures var s := Run(r, Start(bp), actions);
      Winding(s.status) && exists ended, outs :: GaveUp(r, s, ended, outs)
  {
    Reachable(r, bp, actions);
    if !Winding(Run(r, Start(bp), actions).status) { ForwardHasNoneExhausted(r, Run(r, Start(bp), actions)); }
  }

  // ---- Context

  /** The context agrees with the highest finished row of every id. An entry is missing
      only when an operator's retry removed it, and then only that of the row at work. */
  ghost predicate LatestWins(s: Saga) {
    forall id <- StepIds(s.blueprint) ::
      if id in s.ctx.steps then s.ctx.steps[id].data == Latest(s.rows, id)
      else exists i :: OnlyAt(s.rows, i) && s.rows[i].lab.spec.id == id && !Done(s.rows[i].status)
  }

  lemma LiveLatest(r: Rules, s: Saga, i: nat, outs: seq<Entry>, ctx: Context)
    requires LiveAt(r, s, i, outs, ctx)
    ensures LatestWins(s)
  {
    hide Follows, LoopsOk, Unrolled, Tail, Latest;
    forall id | id in StepIds(s.blueprint)
      ensures id in s.ctx.steps ==> s.ctx.steps[id].data == Latest(s.rows, id)
      ensures id !in s.ctx.steps ==> id == s.rows[i].lab.spec.id
    {
      LatestIgnoresOpen(s.rows, i, id);
      assert LatestView(s.(ctx := ctx), i);
    }
    assert OnlyAt(s.rows, i) && !Done(s.rows[i].status);
  }

  lemma InvLatest(r: Rules, s: Saga)
    requires Inv(r, s) && s.status in {Running, SagaAwaitingHuman, AwaitingRecovery, SagaCompleted}
    ensures LatestWins(s)
  {
    if s.status == SagaCompleted {
      var outs :| Standing(r, s, |s.rows|, outs);
      assert s.rows[..|s.rows|] == s.rows;
    } else {
      var i: nat, outs, ctx :| LiveAt(r, s, i, outs, ctx);
      LiveLatest(r, s, i, outs, ctx);
    }
  }

  predicate NoForwardRetry(actions: seq<Action>) {
    forall i :: 0 <= i < |actions| ==> !actions[i].op.OpRetryStep? && !actions[i].op.OpRetryForward?
  }

  lemma {:induction false} RunKeeps(r: Rules, s: Saga, actions: seq<Action>)
    requires NoForwardRetry(actions)
    ensures s.ctx.steps.Keys <= Run(r, s, actions).ctx.steps.Keys
    decreases |actions|
  {
    if actions != [] {
      StepSide(r, actions[0].env, s, actions[0].op);
      assert NoForwardRetry(actions[1..]);
      RunKeeps(r, Step(r, actions[0].env, s, actions[0].op), actions[1..]);
    }
  }

  /** The context is a latest-wins view of the rows, exact for every id when no operator
      has retried a forward step. */
  lemma ContextLatestWins(r: Rules, bp: seq<Top>, actions: seq<Action>)
    requires WellFormed(bp) && InOrderRun(r, Start(bp), actions)
    requires Run(r, Start(bp), actions).status in {Running, SagaAwaitingHuman, AwaitingRecovery, SagaCompleted}
    ensures var s := Run(r, Start(bp), actions);
      && LatestWins(s)
      && (NoForwardRetry(actions) ==>
            forall id <- StepIds(bp) :: id in s.ctx.steps && s.ctx.steps[id].data == Latest(s.rows, id))
  {
    Reachable(r, bp, actions);
    InvLatest(r, Run(r, Start(bp), actions));
    if NoForwardRetry(actions) {
      RunKeeps(r, Start(bp), actions);
      assert forall id <- StepIds(bp) :: id in Start(bp).ctx.steps.Keys;
    }
  }

  /** Rows that have not finished cleanly do not count. */
  lemma {:induction false} LatestIgnoresOpen(rows: seq<Row>, i: nat, id: string)
    requires i <= |rows| && forall j :: i <= j < |rows| ==> !Done(rows[j].status)
    ensures Latest(rows, id) == Latest(rows[..i], id)
    decreases |rows|
  {
    if i < |rows| {
      LatestIgnoresOpen(rows[..|rows| - 1], i, id);
      assert rows[..|rows| - 1][..i] == rows[..i];
    } else {
      assert rows[..i] == rows;
    }
  }

  // ---- Compensation

  /** What LIFO compensation promises of a saga. */
  ghost predicate CompensatedInOrder(s: Saga) {
    && Descending(s.undos)
    && OnlyNewestOpen(s.undos)
    && (forall u <- s.undos :: 0 <= u.seqNo < |s.rows| && u.seqNo <= s.window && ToUndo(s.rows[u.seqNo]))
    && (s.status == SagaCompensated ==>
          && (forall u <- s.undos :: u.status == Compensated)
          && (forall q :: 0 <= q <= s.window && q < |s.rows| && ToUndo(s.rows[q]) ==> Undone(s, q)))
  }

  /** The frozen step can be undone, in whatever pass it ran, and the row was started. */
  predicate ToUndo(row: Row) { Undoable(row.lab.spec) && Started(row) }

  /** Over any run, with compensation retries: undo rows are created strictly downwards,
      only the newest may be open, and COMPENSATED means that exactly the declared and
      eligible rows of the window have their one finished undo row. */
  lemma CompensationIsLifo(r: Rules, bp: seq<Top>, actions: seq<Action>)
    requires WellFormed(bp) && InOrderRun(r, Start(bp), actions)
    ensures CompensatedInOrder(Run(r, Start(bp), actions))
  {
    Reachable(r, bp, actions);
    InvIsLifo(r, Run(r, Start(bp), actions));
  }

  lemma InvIsLifo(r: Rules, s: Saga)
    requires Inv(r, s)
    ensures CompensatedInOrder(s)
  {
    hide Forward, NeedsUndo;
    forall q | 0 <= q < |s.rows| ensures NeedsUndo(s.rows[q]) <==> ToUndo(s.rows[q]) { NeedsIsToUndo(s.rows[q]); }
    forall u | u in s.undos
      ensures 0 <= u.seqNo < |s.rows| && u.seqNo <= s.window && ToUndo(s.rows[u.seqNo])
    {
      assert Placed(s, u);
    }
    if s.status == SagaCompensated { AllFinished(s); }
  }

  lemma NeedsIsToUndo(row: Row)
    ensures NeedsUndo(row) <==> ToUndo(row)
  {
  }

  lemma AllFinished(s: Saga)
    requires Lifo(s) && s.status == SagaCompensated
    ensures forall u <- s.undos :: u.status == Compensated
  {
    forall u | u in s.undos ensures u.status == Compensated {
      var j :| 0 <= j < |s.undos| && s.undos[j] == u;
    }
  }

  /** Row `q` has exactly one undo row, and that one is finished. */
  ghost predicate UndoneOnce(s: Saga, q: int) {
    && 0 <= q < |s.rows|
    && (exists u <- s.undos :: u.forward == s.rows[q].span && u.status == Compensated)
    && (forall u, v :: u in s.undos && v in s.undos && u.forward == s.rows[q].span && v.forward == s.rows[q].span ==> u == v)
  }

  lemma LadderUnique(s: Saga, u: Undo, v: Undo)
    requires Numbered(s) && Ladder(s) && u in s.undos && v in s.undos && u.forward == v.forward
    ensures u == v
  {
    assert Placed(s, u) && Placed(s, v);
    assert u.seqNo == v.seqNo;
    var i :| 0 <= i < |s.undos| && s.undos[i] == u;
    var j :| 0 <= j < |s.undos| && s.undos[j] == v;
    assert i == j;
  }

  /** The frozen step can be undone, and the row completed, timed out or crashed. */
  predicate OwesUndo(row: Row) {
    && Undoable(row.lab.spec)
    && (row.status in {Completed, TimedOut} || (row.status == Failed && row.error.Some? && row.error.value.crash))
  }

  ghost predicate UndoesAllRisk(s: Saga) {
    forall q :: 0 <= q < |s.rows| ==>
      if OwesUndo(s.rows[q]) then UndoneOnce(s, q) else forall u <- s.undos :: u.forward != s.rows[q].span
  }

  lemma UndoneExactly(r: Rules, s: Saga, q: nat)
    requires Inv(r, s) && s.status == SagaCompensated && q < |s.rows|
    ensures if OwesUndo(s.rows[q]) then UndoneOnce(s, q) else forall u <- s.undos :: u.forward != s.rows[q].span
  {
    forall u | u in s.undos ensures u.status == Compensated && (u.forward == s.rows[q].span <==> u.seqNo == q) {
      assert Placed(s, u);
      var j :| 0 <= j < |s.undos| && s.undos[j] == u;
    }
    forall u, v | u in s.undos && v in s.undos && u.forward == v.forward ensures u == v {
      LadderUnique(s, u, v);
    }
    assert OwesUndo(s.rows[q]) ==> Undone(s, q);
  }

  /** Whatever failed, and however often undos were retried: in a COMPENSATED saga the
      forward rows with an undo are exactly those whose frozen step is a spawn or a worker's
      step that declares one, in any pass of a loop or none, and that completed, timed out or
      crashed; each has one finished undo. */
  lemma CompensatedUndoesAllRisk(r: Rules, bp: seq<Top>, actions: seq<Action>)
    requires WellFormed(bp) && InOrderRun(r, Start(bp), actions)
    ensures Run(r, Start(bp), actions).status == SagaCompensated ==> UndoesAllRisk(Run(r, Start(bp), actions))
  {
    Reachable(r, bp, actions);
    var s := Run(r, Start(bp), actions);
    if s.status == SagaCompensated {
      forall q | 0 <= q < |s.rows|
        ensures if OwesUndo(s.rows[q]) then UndoneOnce(s, q) else forall u <- s.undos :: u.forward != s.rows[q].span
      {
        UndoneExactly(r, s, q);
      }
    }
  }

  // ---- Terminal sagas

  predicate NoCompensationRetry(actions: seq<Action>) {
    forall i :: 0 <= i < |actions| ==> !actions[i].op.OpRetryCompensation?
  }

  /** Terminal sagas are absorbing over whole runs; FAILED needs a compensation retry to
      be left. */
  lemma {:induction false} TerminalAbsorbs(r: Rules, s: Saga, actions: seq<Action>)
    requires Inv(r, s) && NoticesOk(s) && InOrderRun(r, s, actions) && Settled(s)
    requires s.status == SagaFailed ==> NoCompensationRetry(actions)
    ensures Run(r, s, actions) == s.(ingested := Run(r, s, actions).ingested)
    decreases |actions|
  {
    if actions != [] {
      var a := actions[0];
      var s1 := Step(r, a.env, s, a.op);
      SettledInert(r, a.env, s, a.op);
      StepInv(r, a.env, s, a.op);
      assert NoCompensationRetry(actions) ==> NoCompensationRetry(actions[1..]);
      TerminalAbsorbs(r, s1, actions[1..]);
    }
  }

  lemma {:induction false} RunAnnounces(r: Rules, s: Saga, actions: seq<Action>)
    requires Announced(s)
    ensures Announced(Run(r, s, actions))
    decreases |actions|
  {
    if actions != [] {
      StepSide(r, actions[0].env, s, actions[0].op);
      RunAnnounces(r, Step(r, actions[0].env, s, actions[0].op), actions[1..]);
    }
  }

  /** Over any run, in order or not, a saga does not end without its notice in the outbox. */
  lemma EndsAreAnnounced(r: Rules, bp: seq<Top>, actions: seq<Action>)
    ensures Announced(Run(r, Start(bp), actions))
  {
    RunAnnounces(r, Start(bp), actions);
  }
}
