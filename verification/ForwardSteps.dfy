/** One row further: skipping, finishing and crossing loop boundaries keep the engine on
    the interpreter's path, so a whole scheduling pass does. */
module ForwardSteps {
  import opened SagaTypes
  import opened SagaSpec
  import opened Interpreter
  import opened ForwardPath

  /** The gate of row `i` sends the step to run, or fails to evaluate. */
  predicate Chosen(r: Rules, ctx: Context, i: nat, lab: Label) {
    lab.spec.hasWhen ==> r.when(ctx, i, lab) != WhenFalse
  }

  lemma OnwardStep(r: Rules, p: Plan, i: nat, st: St)
    requires i < |p.labs|
    ensures Onward(r, p, i, st) == Onward(r, p, i + 1, InterpStep(r, p.labs[i], st))
  {
    assert p.labs[i..][0] == p.labs[i] && p.labs[i..][1..] == p.labs[i + 1..];
  }

  lemma PlanKept(s: Saga, s1: Saga)
    requires |s1.rows| == |s.rows|
    requires forall j :: 0 <= j < |s.rows| ==> s1.rows[j].lab == s.rows[j].lab
    requires s1.ctx.loops == s.ctx.loops && s1.blueprint == s.blueprint && s1.next == s.next && s1.active == s.active
    ensures PlanOf(s1) == PlanOf(s)
  {
    assert Labs(s1.rows) == Labs(s.rows);
  }

  lemma TraceNext(rows: seq<Row>, i: nat, row: Row)
    requires i < |rows|
    ensures Trace(rows[i := row][..i + 1]) == Trace(rows[..i]) + [(row.lab, row.status)]
    ensures rows[i := row][..i + 1] == rows[..i] + [row]
  {
  }

  /** The interpreter's point of view between finishing row `i` and crossing. */
  ghost predicate Passed(r: Rules, s: Saga, i: nat, outs: seq<Entry>)
    requires i < |s.rows|
  {
    forall more: seq<Entry> ::
      Replay(r, s.blueprint, outs + more)
      == Onward(r, PlanOf(s), i + 1, St(s.ctx, i + 1, more, Trace(s.rows[..i + 1]), Going))
  }

  lemma SkipPasses(r: Rules, s: Saga, i: nat, outs: seq<Entry>)
    requires i < |s.rows| && Follows(r, s, i, outs) && !Chosen(r, s.ctx, i, s.rows[i].lab)
    ensures Passed(r, SkipRow(s, i), i, outs) && PlanOf(SkipRow(s, i)) == PlanOf(s)
  {
    var s1 := SkipRow(s, i);
    PlanKept(s, s1);
    TraceNext(s.rows, i, s1.rows[i]);
    forall more: seq<Entry>
      ensures Replay(r, s1.blueprint, outs + more)
        == Onward(r, PlanOf(s1), i + 1, St(s1.ctx, i + 1, more, Trace(s1.rows[..i + 1]), Going))
    {
      OnwardStep(r, PlanOf(s), i, St(s.ctx, i, more, Trace(s.rows[..i]), Going));
    }
  }

  lemma FinishPasses(r: Rules, s: Saga, i: nat, p: Payload, outs: seq<Entry>)
    requires i < |s.rows| && Follows(r, s, i, outs) && Chosen(r, s.ctx, i, s.rows[i].lab)
    ensures Passed(r, FinishRow(s, i, p), i, outs + [EntryOf(p)]) && PlanOf(FinishRow(s, i, p)) == PlanOf(s)
  {
    var s1 := FinishRow(s, i, p);
    var e := EntryOf(p);
    PlanKept(s, s1);
    TraceNext(s.rows, i, s1.rows[i]);
    forall more: seq<Entry>
      ensures Replay(r, s1.blueprint, outs + [e] + more)
        == Onward(r, PlanOf(s1), i + 1, St(s1.ctx, i + 1, more, Trace(s1.rows[..i + 1]), Going))
    {
      assert outs + [e] + more == outs + ([e] + more);
      assert ([e] + more)[0] == e && ([e] + more)[1..] == more;
      OnwardStep(r, PlanOf(s), i, St(s.ctx, i, [e] + more, Trace(s.rows[..i]), Going));
    }
  }

  /** Crossing adds rows and moves cursor and counters; nothing else changes. */
  ghost predicate Extends(s: Saga, s1: Saga) {
    && s1.blueprint == s.blueprint && s1.status == s.status && s1.ctx.steps == s.ctx.steps
    && s1.undos == s.undos && s1.commands == s.commands && s1.notices == s.notices
    && s1.ingested == s.ingested && s1.window == s.window && s1.nextId == s.nextId + (|s1.rows| - |s.rows|)
    && |s.rows| <= |s1.rows| && s1.rows[..|s.rows|] == s.rows
    && (forall j :: |s.rows| <= j < |s1.rows| ==>
          s1.rows[j] == MintedRow(s1.rows[j].lab, j, s.nextId + (j - |s.rows|)))
  }

  lemma MintExtends(s: Saga, labels: seq<Label>)
    ensures Extends(s, Mint(s, labels))
  {
    var s1 := Mint(s, labels);
    assert s1.rows[..|s.rows|] == s.rows;
  }

  lemma CounterExtends(s: Saga, s1: Saga)
    requires s1 == s.(ctx := s1.ctx, next := s1.next, active := s1.active) && s1.ctx.steps == s.ctx.steps
    ensures Extends(s, s1)
  {
    assert s1.rows[..|s.rows|] == s.rows;
  }

  lemma CounterThenMint(s: Saga, s1: Saga, labels: seq<Label>)
    requires s1 == s.(ctx := s1.ctx, next := s1.next, active := s1.active) && s1.ctx.steps == s.ctx.steps
    ensures Extends(s, Mint(s1, labels))
  {
    MintExtends(s1, labels);
  }

  lemma ExitExtends(s: Saga, l: string, k: nat, max: nat)
    ensures Extends(s, ExitLoop(s, l, k, max))
  {
    var g := TakeSegment(s.blueprint, s.next);
    var s1 := s.(ctx := SetLoop(s.ctx, l, k, max, LoopExited), next := g.next, active := g.active);
    if g.labels == [] {
      CounterExtends(s, s1);
    } else if g.active.Some? && g.active.value in s1.ctx.loops {
      var a := g.active.value;
      CounterThenMint(s, s1.(ctx := SetLoop(s1.ctx, a, 1, s1.ctx.loops[a].max, LoopRunning)), g.labels);
    } else {
      CounterThenMint(s, s1, g.labels);
    }
  }

  lemma ContinueExtends(s: Saga, loop: Loop, k: nat)
    ensures Extends(s, ContinueLoop(s, loop, k))
  {
    CounterThenMint(s, s.(ctx := SetLoop(s.ctx, loop.id, k + 1, loop.max, LoopRunning)),
                    Annotate(loop.body, Some(Pass(loop.id, k + 1))));
  }

  /** The four ways to come out of a boundary. */
  lemma BoundaryCases(r: Rules, s: Saga, i: nat) returns (l: string, k: nat, loop: Loop)
    requires i < |s.rows|
    ensures var s1 := Boundary(r, s, i).s;
      || s1 == s
      || s1 == s.(ctx := SetLoop(s.ctx, l, k, loop.max, LoopExhausted))
      || s1 == ExitLoop(s, l, k, loop.max)
      || s1 == ContinueLoop(s, loop, k)
  {
    var lab := s.rows[i].lab;
    l, k, loop := "", 0, Loop("", 0, []);
    if lab.pass.Some? {
      l, k := lab.pass.value.loop, lab.pass.value.k;
      var found := FindLoop(s.blueprint, l);
      if found.Some? { loop := found.value; }
    }
  }

  lemma BoundaryFrame(r: Rules, s: Saga, i: nat)
    requires i < |s.rows|
    ensures Extends(s, Boundary(r, s, i).s)
  {
    var l, k, loop := BoundaryCases(r, s, i);
    CounterExtends(s, s);
    CounterExtends(s, s.(ctx := SetLoop(s.ctx, l, k, loop.max, LoopExhausted)));
    ExitExtends(s, l, k, loop.max);
    ContinueExtends(s, loop, k);
  }

  lemma CrossFollows(r: Rules, s: Saga, i: nat, outs: seq<Entry>)
    requires LoopsWellFormed(s.blueprint) && i < |s.rows|
    requires Tail(PlanOf(s), i) && LoopsOk(PlanOf(s)) && Passed(r, s, i, outs)
    requires Boundary(r, s, i).Crossed?
    ensures var s1 := Boundary(r, s, i).s; i + 1 <= |s1.rows| && Follows(r, s1, i + 1, outs)
  {
    var s1 := Boundary(r, s, i).s;
    BoundaryFrame(r, s, i);
    assert s1.rows[..i + 1] == s.rows[..i + 1];
    forall more: seq<Entry>
      ensures Replay(r, s1.blueprint, outs + more)
        == Onward(r, PlanOf(s1), i + 1, St(s1.ctx, i + 1, more, Trace(s1.rows[..i + 1]), Going))
    {
      CrossDenotes(r, s, i, St(s.ctx, i + 1, more, Trace(s.rows[..i + 1]), Going));
    }
  }

  /** Giving up on a loop is what the interpreter does at this point too. */
  lemma BrokenSticks(r: Rules, s: Saga, i: nat, outs: seq<Entry>)
    requires LoopsWellFormed(s.blueprint) && i < |s.rows|
    requires Tail(PlanOf(s), i) && LoopsOk(PlanOf(s)) && Passed(r, s, i, outs)
    requires Boundary(r, s, i).Broken?
    ensures Replay(r, s.blueprint, outs) == St(Boundary(r, s, i).s.ctx, i + 1, [], Trace(s.rows[..i + 1]), Stuck)
  {
    var p := PlanOf(s);
    var st := St(s.ctx, i + 1, [], Trace(s.rows[..i + 1]), Going);
    BoundaryAt(r, s, i);
    OnwardAtBoundary(r, p, i, st);
    AgainDecides(r, CurrentLoop(p), LastPass(p), st);
    assert outs + [] == outs;
    InterpStopped(r, p.bp[p.next..], Again(r, CurrentLoop(p), LastPass(p), st));
  }

  /** The counters of an exhausted loop still describe the rows. */
  lemma BrokenUnrolled(r: Rules, s: Saga, i: nat)
    requires LoopsWellFormed(s.blueprint) && i < |s.rows|
    requires Tail(PlanOf(s), i) && LoopsOk(PlanOf(s)) && Unrolled(PlanOf(s))
    requires Boundary(r, s, i).Broken?
    ensures var p1 := PlanOf(Boundary(r, s, i).s); Unrolled(p1) && Bounded(p1)
  {
    var p := PlanOf(s);
    BoundaryAt(r, s, i);
    var l := CurrentLoop(p);
    var s1 := Boundary(r, s, i).s;
    var p1 := PlanOf(s1);
    assert p1 == p.(loops := Counted(p.loops, l, LastPass(p), LoopExhausted));
    assert p.loops[l.id] == LoopCtx(LastPass(p), l.max, LoopRunning);
    UnrollCut(p, p.loops);
    UnrollCut(p, p1.loops);
    LoopsBounded(p);
    forall j | 0 <= j < |p1.bp| && p1.bp[j].Block? ensures WithinMax(p1.loops, p1.bp[j].loop) {
      assert WithinMax(p.loops, p.bp[j].loop);
      if p1.bp[j].loop.id == l.id { assert j == p.next - 1; }
    }
  }

  predicate WithinMax(loops: map<string, LoopCtx>, l: Loop) {
    l.id in loops && 1 <= loops[l.id].iteration <= l.max
  }

  /** No loop has begun more than `max_iterations` passes. */
  ghost predicate Bounded(p: Plan) {
    forall j :: 0 <= j < |p.bp| && p.bp[j].Block? ==> WithinMax(p.loops, p.bp[j].loop)
  }

  lemma LoopsBounded(p: Plan)
    requires LoopsOk(p)
    ensures Bounded(p)
  {
    forall j | 0 <= j < |p.bp| && p.bp[j].Block? ensures WithinMax(p.loops, p.bp[j].loop) {
      if j < Behind(p) { assert LoopLeft(p, p.bp[j].loop); }
      else if j >= p.next { assert LoopAt(p, p.bp[j].loop, 1, LoopRunning); }
    }
  }

  // ---- Latest wins

  lemma LatestNext(rows: seq<Row>, row: Row, id: string)
    ensures Latest(rows + [row], id) ==
      if row.lab.spec.id == id && row.status == Completed && row.output.Some? then row.output.value
      else if row.lab.spec.id == id && row.status == Skipped && row.lab.pass.Some? then EMPTY
      else Latest(rows, id)
  {
    assert (rows + [row])[..|rows|] == rows;
  }

  lemma SkipLatest(s: Saga, i: nat)
    requires i < |s.rows| && LatestView(s, i)
    ensures LatestView(SkipRow(s, i), i + 1)
  {
    var s1 := SkipRow(s, i);
    TraceNext(s.rows, i, s1.rows[i]);
    forall id | id in StepIds(s.blueprint)
      ensures id in s1.ctx.steps && s1.ctx.steps[id].data == Latest(s1.rows[..i + 1], id)
    {
      LatestNext(s.rows[..i], s1.rows[i], id);
    }
  }

  lemma FinishLatest(s: Saga, i: nat, p: Payload)
    requires i < |s.rows| && LatestView(s, i)
    ensures LatestView(FinishRow(s, i, p), i + 1)
  {
    var s1 := FinishRow(s, i, p);
    TraceNext(s.rows, i, s1.rows[i]);
    forall id | id in StepIds(s.blueprint)
      ensures id in s1.ctx.steps && s1.ctx.steps[id].data == Latest(s1.rows[..i + 1], id)
    {
      LatestNext(s.rows[..i], s1.rows[i], id);
    }
  }

  lemma CrossLatest(r: Rules, s: Saga, i: nat)
    requires i < |s.rows| && LatestView(s, i + 1)
    ensures var s1 := Boundary(r, s, i).s; i + 1 <= |s1.rows| && LatestView(s1, i + 1)
  {
    BoundaryFrame(r, s, i);
    assert Boundary(r, s, i).s.rows[..i + 1] == s.rows[..i + 1];
  }

  // ---- One row, then a whole pass

  /** Every crossing uses up blueprint entries, passes or rows. */
  lemma CrossingDescends(r: Rules, s: Saga, i: nat)
    requires i < |s.rows| && Boundary(r, s, i).Crossed?
    ensures var s1 := Boundary(r, s, i).s;
      || Left(s1) < Left(s)
      || (Left(s1) == Left(s) && PassesLeft(s1) < PassesLeft(s))
      || (Left(s1) == Left(s) && PassesLeft(s1) == PassesLeft(s) && |s1.rows| == |s.rows|)
  {
  }

  /** Row `i` is finished or skipped, the boundary after it is still to be crossed. */
  ghost predicate Through(r: Rules, s: Saga, i: nat, outs: seq<Entry>) {
    && WellFormed(s.blueprint) && i < |s.rows|
    && Tail(PlanOf(s), i) && LoopsOk(PlanOf(s)) && Unrolled(PlanOf(s))
    && Passed(r, s, i, outs) && LatestView(s, i + 1) && Data(outs) == Recorded(s.rows[..i + 1])
  }

  lemma RecordedNext(rows: seq<Row>, row: Row)
    ensures Recorded(rows + [row]) ==
      Recorded(rows) + if row.status == Completed && row.output.Some? then [row.output.value] else []
  {
    assert (rows + [row])[..|rows|] == rows;
  }

  lemma SkippedThrough(r: Rules, s: Saga, i: nat, outs: seq<Entry>)
    requires i < |s.rows| && Standing(r, s, i, outs) && !Chosen(r, s.ctx, i, s.rows[i].lab)
    ensures Through(r, SkipRow(s, i), i, outs)
  {
    SkipPasses(r, s, i, outs);
    SkipLatest(s, i);
    TraceNext(s.rows, i, SkipRow(s, i).rows[i]);
    RecordedNext(s.rows[..i], SkipRow(s, i).rows[i]);
  }

  lemma FinishedThrough(r: Rules, s: Saga, i: nat, p: Payload, outs: seq<Entry>)
    requires i < |s.rows| && Standing(r, s, i, outs) && Chosen(r, s.ctx, i, s.rows[i].lab)
    ensures Through(r, FinishRow(s, i, p), i, outs + [EntryOf(p)])
  {
    FinishPasses(r, s, i, p, outs);
    FinishLatest(s, i, p);
    TraceNext(s.rows, i, FinishRow(s, i, p).rows[i]);
    RecordedNext(s.rows[..i], FinishRow(s, i, p).rows[i]);
    assert Data(outs + [EntryOf(p)]) == Data(outs) + [EntryOf(p).data];
  }

  lemma CrossStands(r: Rules, s: Saga, i: nat, outs: seq<Entry>)
    requires Through(r, s, i, outs) && Boundary(r, s, i).Crossed?
    ensures i + 1 <= |Boundary(r, s, i).s.rows| && Standing(r, Boundary(r, s, i).s, i + 1, outs)
  {
    CrossKeepsPlan(r, s, i);
    CrossFollows(r, s, i, outs);
    CrossLatest(r, s, i);
    BoundaryFrame(r, s, i);
    assert Boundary(r, s, i).s.rows[..i + 1] == s.rows[..i + 1];
  }

  lemma BrokenRests(r: Rules, s: Saga, i: nat, outs: seq<Entry>)
    requires Through(r, s, i, outs) && Boundary(r, s, i).Broken?
    ensures Rested(r, LoopFailed(Boundary(r, s, i).s, i), outs)
  {
    hide Boundary, Tail, LoopsOk, LatestView;
    BrokenUnrolled(r, s, i);
    BrokenSticks(r, s, i, outs);
    BoundaryFrame(r, s, i);
    assert Boundary(r, s, i).s.rows[..i + 1] == s.rows[..i + 1];
  }

  /** How a scheduling pass that came to rest relates to the interpreter. */
  ghost predicate Rested(r: Rules, stop: Stop, outs: seq<Entry>) {
    match stop
    case Finished(s) => Standing(r, s, |s.rows|, outs)
    case LoopFailed(s, i) =>
      && i < |s.rows| && WellFormed(s.blueprint)
      && Unrolled(PlanOf(s)) && Bounded(PlanOf(s)) && Data(outs) == Recorded(s.rows[..i + 1])
      && Replay(r, s.blueprint, outs) == St(s.ctx, i + 1, [], Trace(s.rows[..i + 1]), Stuck)
    case _ =>
      && stop.i < |stop.s.rows|
      && Standing(r, stop.s, stop.i, outs) && Chosen(r, stop.s.ctx, stop.i, stop.s.rows[stop.i].lab)
  }

  /** What `Go` does with row `i`. */
  lemma GoCases(r: Rules, e: Env, s: Saga, i: nat)
    requires i < |s.rows|
    ensures var lab := s.rows[i].lab;
      && (!Chosen(r, s.ctx, i, lab) ==> Go(r, e, s, i) == After(r, e, SkipRow(s, i), i))
      && (Chosen(r, s.ctx, i, lab) && !Misfires(r, s.ctx, i, lab) ==> Go(r, e, s, i) == Fire(r, e, s, i))
      && (Misfires(r, s.ctx, i, lab) ==> Go(r, e, s, i) == Faulted(s, i, r.when(s.ctx, i, lab).err))
  {
  }

  lemma GoEnds(r: Rules, e: Env, s: Saga)
    ensures Go(r, e, s, |s.rows|) == Finished(s)
  {
  }

  predicate Misfires(r: Rules, ctx: Context, i: nat, lab: Label) {
    lab.spec.hasWhen && r.when(ctx, i, lab).WhenError?
  }

  lemma {:induction false} GoRests(r: Rules, e: Env, s: Saga, i: nat, outs: seq<Entry>) returns (outs1: seq<Entry>)
    requires i <= |s.rows| && Standing(r, s, i, outs)
    ensures Rested(r, Go(r, e, s, i), outs1)
    decreases Left(s), PassesLeft(s), |s.rows| - i, 2
  {
    hide Go, Standing, Fire, After, Boundary, Tail, LoopsOk, Unrolled, Follows, LatestView, Recorded, WellFormed;
    outs1 := outs;
    GoEnds(r, e, s);
    if i < |s.rows| {
      hide Rested;
      GoCases(r, e, s, i);
      if !Chosen(r, s.ctx, i, s.rows[i].lab) {
        SkippedThrough(r, s, i, outs);
        outs1 := AfterRests(r, e, SkipRow(s, i), i, outs);
      } else if Misfires(r, s.ctx, i, s.rows[i].lab) {
        StaysAt(r, s, i, outs, r.when(s.ctx, i, s.rows[i].lab).err);
      } else {
        outs1 := FireRests(r, e, s, i, outs);
      }
    }
  }

  /** A row that is handed over, parked or faulted where the engine stands. */
  lemma StaysAt(r: Rules, s: Saga, i: nat, outs: seq<Entry>, err: Option<Err>)
    requires i < |s.rows| && Standing(r, s, i, outs) && Chosen(r, s.ctx, i, s.rows[i].lab)
    ensures Rested(r, Launch(s, i), outs) && Rested(r, Faulted(s, i, err), outs)
    ensures Rested(r, Parked(WithStatus(s, i, InProgress), i), outs)
    ensures Rested(r, Faulted(WithStatus(s, i, InProgress), i, err), outs)
  {
    StatusKeepsStanding(r, s, i, InProgress, outs);
  }

  lemma {:induction false} FireRests(r: Rules, e: Env, s: Saga, i: nat, outs: seq<Entry>) returns (outs1: seq<Entry>)
    requires i < |s.rows| && Standing(r, s, i, outs) && Chosen(r, s.ctx, i, s.rows[i].lab)
    ensures Rested(r, Fire(r, e, s, i), outs1)
    decreases Left(s), PassesLeft(s), |s.rows| - i, 1
  {
    if !WorkerKind(s.rows[i].lab.spec.kind) && e.native(i).NativeOutput? {
      var p := e.native(i).p;
      FinishedThrough(r, s, i, p, outs);
      outs1 := AfterRests(r, e, FinishRow(s, i, p), i, outs + [EntryOf(p)]);
    } else {
      outs1 := outs;
      StaysAt(r, s, i, outs, if e.native(i).NativeFailure? then e.native(i).err else None);
    }
  }

  lemma {:induction false} AfterRests(r: Rules, e: Env, s: Saga, i: nat, outs: seq<Entry>) returns (outs1: seq<Entry>)
    requires Through(r, s, i, outs)
    ensures Rested(r, After(r, e, s, i), outs1)
    decreases Left(s), PassesLeft(s), |s.rows| - i, 0
  {
    outs1 := outs;
    if Boundary(r, s, i).Crossed? {
      CrossStands(r, s, i, outs);
      CrossingDescends(r, s, i);
      outs1 := GoRests(r, e, Boundary(r, s, i).s, i + 1, outs);
    } else {
      BrokenRests(r, s, i, outs);
    }
  }

  /** Nothing on the forward path depends on the status of the row it stands before. */
  lemma StatusKeepsStanding(r: Rules, s: Saga, i: nat, st: StepStatus, outs: seq<Entry>)
    requires i < |s.rows| && Standing(r, s, i, outs)
    ensures Standing(r, WithStatus(s, i, st), i, outs)
  {
    RowKeepsStanding(r, s, WithStatus(s, i, st), i, outs);
  }

  lemma RowKeepsStanding(r: Rules, s: Saga, s1: Saga, i: nat, outs: seq<Entry>)
    requires i <= |s.rows| && Standing(r, s, i, outs)
    requires |s1.rows| == |s.rows| && s1.rows[..i] == s.rows[..i]
    requires forall j :: 0 <= j < |s.rows| ==> s1.rows[j].lab == s.rows[j].lab
    requires s1.ctx == s.ctx && s1.blueprint == s.blueprint && s1.next == s.next && s1.active == s.active
    ensures Standing(r, s1, i, outs)
  {
    PlanKept(s, s1);
  }
}
