/** What the forward path keeps while rows are skipped, finished and minted: the rows are
    the unrolled blueprint, and the engine is always at a point the interpreter reaches. */
module ForwardPath {
  import opened SagaTypes
  import opened SagaSpec
  import opened Interpreter

  function Labs(rows: seq<Row>): (r: seq<Label>)
    ensures |r| == |rows| && forall i :: 0 <= i < |rows| ==> r[i] == rows[i].lab
  {
    seq(|rows|, i requires 0 <= i < |rows| => rows[i].lab)
  }

  function Trace(rows: seq<Row>): (r: seq<(Label, StepStatus)>)
    ensures |r| == |rows| && forall i :: 0 <= i < |rows| ==> r[i] == (rows[i].lab, rows[i].status)
  {
    seq(|rows|, i requires 0 <= i < |rows| => (rows[i].lab, rows[i].status))
  }

  /** Forward rows carry exactly the sequence numbers 0..n-1 with equal order_index, and
      no two rows of the saga share a span. */
  ghost predicate Numbered(s: Saga) {
    && (forall i :: 0 <= i < |s.rows| ==> s.rows[i].seqNo == i && s.rows[i].order == i)
    && (forall i :: 0 <= i < |s.rows| ==> s.rows[i].span < s.nextId)
    && (forall i, j :: 0 <= i < j < |s.rows| ==> s.rows[i].span != s.rows[j].span)
    && (forall i :: 0 <= i < |s.undos| ==> s.undos[i].span < s.nextId)
    && (forall i, j :: 0 <= i < |s.undos| && 0 <= j < |s.rows| ==> s.undos[i].span != s.rows[j].span)
    && (forall i, j :: 0 <= i < j < |s.undos| ==> s.undos[i].span != s.undos[j].span)
  }

  /** Clean rows below `a`, untouched rows above it. */
  ghost predicate Poised(rows: seq<Row>, a: nat) {
    && a <= |rows|
    && (forall j :: 0 <= j < a ==> Done(rows[j].status))
    && (forall j :: a < j < |rows| ==> rows[j].status == Pending)
  }

  // ---- The plan: labels minted so far, blueprint cursor and loop counters

  datatype Plan = Plan(
    bp: seq<Top>, labs: seq<Label>, next: nat, active: Option<string>, loops: map<string, LoopCtx>)

  function PlanOf(s: Saga): Plan {
    Plan(s.blueprint, Labs(s.rows), s.next, s.active, s.ctx.loops)
  }

  /** The pass number of the label minted last. */
  function LastPass(p: Plan): nat {
    if p.labs != [] && p.labs[|p.labs| - 1].pass.Some? then p.labs[|p.labs| - 1].pass.value.k else 0
  }

  predicate InLoop(p: Plan) {
    && p.active.Some?
    && 1 <= p.next <= |p.bp|
    && p.bp[p.next - 1].Block?
    && p.bp[p.next - 1].loop.id == p.active.value
  }

  function CurrentLoop(p: Plan): Loop
    requires InLoop(p)
  {
    p.bp[p.next - 1].loop
  }

  /** `labs` from `i` on: plain steps, then the end of pass `k` of `loop`. */
  ghost predicate EndsIn(labs: seq<Label>, i: nat, loop: Loop, k: nat) {
    var n := |labs| - |loop.body|;
    && (forall j :: i <= j < |labs| && j < n ==> labs[j].pass.None?)
    && (forall j :: i <= j < |labs| && n <= j ==> labs[j] == Label(loop.body[j - n], Some(Pass(loop.id, k))))
  }

  /** From position `i` on, the labels are the rest of the segment minted last. */
  ghost predicate Tail(p: Plan, i: nat) {
    && i <= |p.labs|
    && (p.active.None? ==> p.next == |p.bp| && forall j :: i <= j < |p.labs| ==> p.labs[j].pass.None?)
    && (p.active.Some? ==>
          && InLoop(p)
          && i < |p.labs|
          && 1 <= LastPass(p) <= CurrentLoop(p).max
          && EndsIn(p.labs, i, CurrentLoop(p), LastPass(p)))
  }

  ghost predicate LoopAt(p: Plan, l: Loop, k: nat, st: LoopStatus) {
    l.id in p.loops && p.loops[l.id] == LoopCtx(k, l.max, st) && 1 <= k <= l.max
  }

  ghost predicate LoopLeft(p: Plan, l: Loop) {
    l.id in p.loops && LoopAt(p, l, p.loops[l.id].iteration, LoopExited)
  }

  /** Blueprint entries that are completely behind the engine. */
  function Behind(p: Plan): nat {
    if p.active.Some? && p.next > 0 then p.next - 1 else p.next
  }

  /** Loops behind have been left, the active one counts the last pass, later ones are
      untouched. */
  ghost predicate LoopsOk(p: Plan) {
    && p.next <= |p.bp|
    && (p.active.Some? ==> InLoop(p) && LoopAt(p, CurrentLoop(p), LastPass(p), LoopRunning))
    && (p.active.None? ==> p.next == |p.bp|)
    && (forall j :: 0 <= j < Behind(p) && p.bp[j].Block? ==> LoopLeft(p, p.bp[j].loop))
    && (forall j :: p.next <= j < |p.bp| && p.bp[j].Block? ==> LoopAt(p, p.bp[j].loop, 1, LoopRunning))
  }

  ghost predicate Unrolled(p: Plan) {
    p.labs == Unroll(p.bp, p.loops)
  }

  function Counted(loops: map<string, LoopCtx>, l: Loop, k: nat, st: LoopStatus): map<string, LoopCtx> {
    loops[l.id := LoopCtx(k, l.max, st)]
  }

  function Continued(p: Plan): Plan
    requires InLoop(p)
  {
    var l := CurrentLoop(p);
    var k := LastPass(p) + 1;
    p.(loops := Counted(p.loops, l, k, LoopRunning), labs := p.labs + Annotate(l.body, Some(Pass(l.id, k))))
  }

  function Exited(p: Plan): Plan
    requires InLoop(p)
  {
    var g := TakeSegment(p.bp, p.next);
    p.(loops := Counted(p.loops, CurrentLoop(p), LastPass(p), LoopExited),
       labs := p.labs + g.labels, next := g.next, active := g.active)
  }

  // ---- Where the interpreter is

  function Denote(r: Rules, todo: seq<Label>, active: Option<(Loop, nat)>, rest: seq<Top>, st: St): St {
    var st1 := InterpSteps(r, todo, st);
    match active
    case None => Interp(r, rest, st1)
    case Some(p) => Interp(r, rest, Again(r, p.0, p.1, st1))
  }

  function ActivePass(p: Plan): Option<(Loop, nat)> {
    if InLoop(p) then Some((CurrentLoop(p), LastPass(p))) else None
  }

  function Rest(p: Plan): seq<Top> {
    if p.next <= |p.bp| then p.bp[p.next..] else []
  }

  /** What is still to be interpreted when the first `i` labels are behind. */
  function Onward(r: Rules, p: Plan, i: nat, st: St): St
    requires i <= |p.labs|
  {
    Denote(r, p.labs[i..], ActivePass(p), Rest(p), st)
  }

  /** The interpreter, fed `outs` and then anything at all, passes through this point. */
  ghost predicate Follows(r: Rules, s: Saga, i: nat, outs: seq<Entry>)
    requires i <= |s.rows|
  {
    forall more: seq<Entry> ::
      Replay(r, s.blueprint, outs + more)
      == Onward(r, PlanOf(s), i, St(s.ctx, i, more, Trace(s.rows[..i]), Going))
  }

  // ---- Latest wins

  /** Output data of the highest row of that id that completed, or that was skipped
      inside a loop; the empty object when there is none. */
  function Latest(rows: seq<Row>, id: string): Obj {
    if rows == [] then EMPTY
    else
      var row := rows[|rows| - 1];
      if row.lab.spec.id == id && row.status == Completed && row.output.Some? then row.output.value
      else if row.lab.spec.id == id && row.status == Skipped && row.lab.pass.Some? then EMPTY
      else Latest(rows[..|rows| - 1], id)
  }

  ghost predicate LatestView(s: Saga, i: nat)
    requires i <= |s.rows|
  {
    forall id <- StepIds(s.blueprint) :: id in s.ctx.steps && s.ctx.steps[id].data == Latest(s.rows[..i], id)
  }

  /** The output data recorded on completed rows, in order. */
  function Recorded(rows: seq<Row>): seq<Obj> {
    if rows == [] then []
    else
      var row := rows[|rows| - 1];
      Recorded(rows[..|rows| - 1]) +
      (if row.status == Completed && row.output.Some? then [row.output.value] else [])
  }

  function Data(outs: seq<Entry>): (r: seq<Obj>)
    ensures |r| == |outs| && forall i :: 0 <= i < |outs| ==> r[i] == outs[i].data
  {
    seq(|outs|, i requires 0 <= i < |outs| => outs[i].data)
  }

  /** The engine stands before row `i`: all rows below are finished, and `outs` are what
      they have put out. */
  ghost predicate Standing(r: Rules, s: Saga, i: nat, outs: seq<Entry>) {
    && WellFormed(s.blueprint)
    && Tail(PlanOf(s), i)
    && LoopsOk(PlanOf(s))
    && Unrolled(PlanOf(s))
    && Follows(r, s, i, outs)
    && Data(outs) == Recorded(s.rows[..i])
    && LatestView(s, i)
  }

  // ---- Lemmas: lists of labels

  lemma {:induction false} StepsAppend(r: Rules, a: seq<Label>, b: seq<Label>, st: St)
    ensures InterpSteps(r, a + b, st) == InterpSteps(r, b, InterpSteps(r, a, st))
    decreases |a|
  {
    if a == [] {
      assert a + b == b;
    } else {
      assert (a + b)[1..] == a[1..] + b && (a + b)[0] == a[0];
      StepsAppend(r, a[1..], b, InterpStep(r, a[0], st));
    }
  }

  lemma {:induction false} StepsStopped(r: Rules, a: seq<Label>, st: St)
    requires st.verdict != Going
    ensures InterpSteps(r, a, st) == st
    decreases |a|
  {
    if a != [] { StepsStopped(r, a[1..], st); }
  }

  function SegmentPass(bp: seq<Top>, g: Segment): Option<(Loop, nat)> {
    if g.active.Some? && 1 <= g.next <= |bp| && bp[g.next - 1].Block? then Some((bp[g.next - 1].loop, 1)) else None
  }

  /** A segment denotes the blueprint it was taken from. */
  lemma {:induction false} SegmentDenotes(r: Rules, bp: seq<Top>, from: nat, st: St)
    requires from <= |bp|
    ensures var g := TakeSegment(bp, from);
      Denote(r, g.labels, SegmentPass(bp, g), bp[g.next..], st) == Interp(r, bp[from..], st)
    decreases |bp| - from
  {
    var g := TakeSegment(bp, from);
    if from == |bp| {
    } else {
      assert bp[from..][0] == bp[from] && bp[from..][1..] == bp[from + 1..];
      match bp[from]
      case Block(l) =>
        if st.verdict != Going { StepsStopped(r, g.labels, st); }
      case Exec(sp) =>
        var st1 := InterpStep(r, Label(sp, None), st);
        SegmentDenotes(r, bp, from + 1, st1);
        assert g.labels[1..] == TakeSegment(bp, from + 1).labels;
        if st.verdict != Going { InterpStopped(r, bp[from + 1..], st); }
    }
  }

  lemma {:induction false} InterpStopped(r: Rules, bp: seq<Top>, st: St)
    requires st.verdict != Going
    ensures Interp(r, bp, st) == st
  {
  }

  /** Plain steps, then one whole first pass of `loop`. */
  ghost predicate SegmentEnd(labs: seq<Label>, loop: Loop) {
    |loop.body| <= |labs| && EndsIn(labs, 0, loop, 1)
  }

  ghost predicate Shaped(bp: seq<Top>, from: nat, g: Segment) {
    && from <= g.next <= |bp|
    && (g.active.None? ==>
          && g.next == |bp|
          && (forall j :: 0 <= j < |g.labels| ==> g.labels[j].pass.None?)
          && (forall j :: from <= j < |bp| ==> bp[j].Exec?))
    && (g.active.Some? ==>
          && from < g.next
          && bp[g.next - 1].Block? && bp[g.next - 1].loop.id == g.active.value
          && (forall j :: from <= j < g.next - 1 ==> bp[j].Exec?)
          && SegmentEnd(g.labels, bp[g.next - 1].loop))
  }

  lemma {:induction false} SegmentShape(bp: seq<Top>, from: nat)
    requires from <= |bp|
    ensures Shaped(bp, from, TakeSegment(bp, from))
    decreases |bp| - from
  {
    if from < |bp| && bp[from].Exec? {
      SegmentShape(bp, from + 1);
      ShapedPrepend(bp, from, TakeSegment(bp, from + 1));
    }
  }

  lemma ShapedPrepend(bp: seq<Top>, from: nat, g: Segment)
    requires from < |bp| && bp[from].Exec? && Shaped(bp, from + 1, g)
    ensures Shaped(bp, from, g.(labels := [Label(bp[from].spec, None)] + g.labels))
  {
    var labs := [Label(bp[from].spec, None)] + g.labels;
    assert forall j :: 1 <= j < |labs| ==> labs[j] == g.labels[j - 1];
  }

  lemma FindCurrent(p: Plan)
    requires LoopsWellFormed(p.bp) && InLoop(p)
    ensures FindLoop(p.bp, p.active.value) == Some(CurrentLoop(p))
  {
    var f := FindLoop(p.bp, p.active.value);
    assert p.bp[p.next - 1].loop.id == p.active.value;
    if f.Some? {
      var i :| 0 <= i < |p.bp| && p.bp[i] == Block(f.value);
      assert i == p.next - 1;
    }
  }

  // ---- Lemmas: crossing a loop boundary

  lemma ContinueKeeps(p: Plan, i: nat)
    requires LoopsWellFormed(p.bp) && Tail(p, i) && i + 1 == |p.labs| && LoopsOk(p) && InLoop(p)
    requires LastPass(p) < CurrentLoop(p).max
    ensures Tail(Continued(p), i + 1) && LoopsOk(Continued(p))
    ensures LastPass(Continued(p)) == LastPass(p) + 1
  {
    var p1 := Continued(p);
    var l := CurrentLoop(p);
    assert LoopOk(l);
    assert p1.labs[|p1.labs| - 1] == Annotate(l.body, Some(Pass(l.id, LastPass(p) + 1)))[|l.body| - 1];
    OthersKept(p, p1, l);
  }

  /** Changing the counter of the active loop leaves all other loops as they were. */
  lemma OthersKept(p: Plan, p1: Plan, l: Loop)
    requires LoopsWellFormed(p.bp) && p.bp == p1.bp && InLoop(p) && l == CurrentLoop(p)
    requires forall id :: id in p.loops && id != l.id ==> id in p1.loops && p1.loops[id] == p.loops[id]
    ensures forall j :: 0 <= j < |p.bp| && p.bp[j].Block? && j != p.next - 1 && LoopLeft(p, p.bp[j].loop) ==>
      LoopLeft(p1, p.bp[j].loop)
    ensures forall j :: 0 <= j < |p.bp| && p.bp[j].Block? && j != p.next - 1 && LoopAt(p, p.bp[j].loop, 1, LoopRunning) ==>
      LoopAt(p1, p.bp[j].loop, 1, LoopRunning)
  {
    forall j | 0 <= j < |p.bp| && p.bp[j].Block? && j != p.next - 1
      ensures p.bp[j].loop.id != l.id
    {
    }
  }

  lemma ExitKeeps(p: Plan, i: nat)
    requires LoopsWellFormed(p.bp) && Tail(p, i) && i + 1 == |p.labs| && LoopsOk(p) && InLoop(p)
    ensures Tail(Exited(p), i + 1) && LoopsOk(Exited(p))
  {
    var p1 := Exited(p);
    var l := CurrentLoop(p);
    var g := TakeSegment(p.bp, p.next);
    SegmentShape(p.bp, p.next);
    OthersKept(p, p1, l);
    assert LoopLeft(p1, l);
    if g.active.Some? {
      var l1 := p.bp[g.next - 1].loop;
      assert LoopOk(l1);
      assert p1.labs[|p1.labs| - 1] == g.labels[|g.labels| - 1];
      assert LoopAt(p, l1, 1, LoopRunning);
    }
  }

  // ---- Lemmas: unrolling

  ghost predicate AllLeft(bp: seq<Top>, loops: map<string, LoopCtx>) {
    forall j :: 0 <= j < |bp| && bp[j].Block? ==>
      bp[j].loop.id in loops && loops[bp[j].loop.id].status == LoopExited
  }

  lemma {:induction false} UnrollSplit(bp: seq<Top>, n: nat, loops: map<string, LoopCtx>)
    requires n <= |bp| && AllLeft(bp[..n], loops)
    ensures Unroll(bp, loops) == Unroll(bp[..n], loops) + Unroll(bp[n..], loops)
    decreases n
  {
    if n == 0 {
      assert bp[0..] == bp;
    } else {
      assert bp[..n][0] == bp[0] && bp[..n][1..] == bp[1..][..n - 1] && bp[1..][n - 1..] == bp[n..];
      var tail := bp[1..][..n - 1];
      assert forall j :: 0 <= j < |tail| ==> tail[j] == bp[..n][j + 1];
      UnrollSplit(bp[1..], n - 1, loops);
      if bp[0].Block? { assert bp[..n][0].Block?; }
    }
  }

  lemma {:induction false} UnrollFrame(bp: seq<Top>, a: map<string, LoopCtx>, b: map<string, LoopCtx>)
    requires forall j :: 0 <= j < |bp| && bp[j].Block? ==>
      bp[j].loop.id in a && bp[j].loop.id in b && a[bp[j].loop.id] == b[bp[j].loop.id]
    ensures Unroll(bp, a) == Unroll(bp, b)
    decreases |bp|
  {
    if bp != [] {
      UnrollFrame(bp[1..], a, b);
      if bp[0].Block? { assert bp[0].loop.id in a; }
    }
  }

  /** Before its loops have counted anything, a blueprint unrolls to its first segment. */
  lemma {:induction false} UnrollFresh(bp: seq<Top>, from: nat, loops: map<string, LoopCtx>)
    requires from <= |bp|
    requires forall j :: from <= j < |bp| && bp[j].Block? ==>
      bp[j].loop.id in loops && loops[bp[j].loop.id].iteration == 1 && loops[bp[j].loop.id].status == LoopRunning
    ensures Unroll(bp[from..], loops) == TakeSegment(bp, from).labels
    decreases |bp| - from
  {
    if from < |bp| {
      assert bp[from..][0] == bp[from] && bp[from..][1..] == bp[from + 1..];
      match bp[from]
      case Block(l) => assert Passes(l, 1) == Passes(l, 0) + Annotate(l.body, Some(Pass(l.id, 1)));
      case Exec(_) => UnrollFresh(bp, from + 1, loops);
    }
  }

  lemma LeftBehind(p: Plan, n: nat)
    requires LoopsOk(p) && n <= Behind(p)
    ensures AllLeft(p.bp[..n], p.loops)
  {
    forall j | 0 <= j < n && p.bp[..n][j].Block?
      ensures p.bp[..n][j].loop.id in p.loops && p.loops[p.bp[..n][j].loop.id].status == LoopExited
    {
      assert LoopLeft(p, p.bp[j].loop);
    }
  }

  function UnrolledBefore(p: Plan): seq<Label>
    requires InLoop(p)
  {
    Unroll(p.bp[..p.next - 1], p.loops)
  }

  /** The unrolling, cut at the active loop. */
  lemma UnrollAtLoop(p: Plan, loops: map<string, LoopCtx>)
    requires LoopsWellFormed(p.bp) && LoopsOk(p) && InLoop(p)
    requires forall id :: id in p.loops && id != CurrentLoop(p).id ==> id in loops && loops[id] == p.loops[id]
    requires CurrentLoop(p).id in loops
    ensures Unroll(p.bp, loops) == UnrolledBefore(p) + Unroll(p.bp[p.next - 1..], loops)
    ensures p.bp[p.next - 1..] == [Block(CurrentLoop(p))] + p.bp[p.next..]
  {
    var n := p.next - 1;
    var before := p.bp[..n];
    LeftBehind(p, n);
    forall j | 0 <= j < |before| && before[j].Block?
      ensures before[j].loop.id in p.loops && before[j].loop.id in loops
      ensures p.loops[before[j].loop.id] == loops[before[j].loop.id]
    {
      assert p.bp[j].loop.id != CurrentLoop(p).id;
    }
    UnrollFrame(before, p.loops, loops);
    UnrollSplit(p.bp, n, loops);
  }

  lemma UnrollHead(l: Loop, rest: seq<Top>, loops: map<string, LoopCtx>)
    requires l.id in loops
    ensures loops[l.id].status != LoopExited ==>
      Unroll([Block(l)] + rest, loops) == Passes(l, loops[l.id].iteration)
    ensures loops[l.id].status == LoopExited ==>
      Unroll([Block(l)] + rest, loops) == Passes(l, loops[l.id].iteration) + Unroll(rest, loops)
  {
    assert ([Block(l)] + rest)[1..] == rest;
  }

  lemma UnrollCut(p: Plan, loops: map<string, LoopCtx>)
    requires LoopsWellFormed(p.bp) && LoopsOk(p) && InLoop(p)
    requires forall id :: id in p.loops && id != CurrentLoop(p).id ==> id in loops && loops[id] == p.loops[id]
    requires CurrentLoop(p).id in loops
    ensures var l := CurrentLoop(p);
      && (loops[l.id].status != LoopExited ==>
            Unroll(p.bp, loops) == UnrolledBefore(p) + Passes(l, loops[l.id].iteration))
      && (loops[l.id].status == LoopExited ==>
            Unroll(p.bp, loops) == UnrolledBefore(p) + (Passes(l, loops[l.id].iteration) + Unroll(p.bp[p.next..], loops)))
  {
    UnrollAtLoop(p, loops);
    UnrollHead(CurrentLoop(p), p.bp[p.next..], loops);
  }

  lemma PassesStep(before: seq<Label>, l: Loop, k: nat)
    ensures before + Passes(l, k) + Annotate(l.body, Some(Pass(l.id, k + 1))) == before + Passes(l, k + 1)
  {
    assert Passes(l, k + 1) == Passes(l, k) + Annotate(l.body, Some(Pass(l.id, k + 1)));
  }

  lemma RunningCut(p: Plan, loops: map<string, LoopCtx>, k: nat)
    requires LoopsWellFormed(p.bp) && LoopsOk(p) && InLoop(p)
    requires loops == Counted(p.loops, CurrentLoop(p), k, LoopRunning)
    ensures Unroll(p.bp, loops) == UnrolledBefore(p) + Passes(CurrentLoop(p), k)
  {
    UnrollCut(p, loops);
  }

  lemma ContinuedIs(p: Plan)
    requires InLoop(p)
    ensures var l, k := CurrentLoop(p), LastPass(p);
      && Continued(p).bp == p.bp
      && Continued(p).loops == Counted(p.loops, l, k + 1, LoopRunning)
      && Continued(p).labs == p.labs + Annotate(l.body, Some(Pass(l.id, k + 1)))
  {
  }

  lemma RunningNow(p: Plan)
    requires LoopsOk(p) && InLoop(p)
    ensures p.loops == Counted(p.loops, CurrentLoop(p), LastPass(p), LoopRunning)
  {
    assert LoopAt(p, CurrentLoop(p), LastPass(p), LoopRunning);
  }

  lemma ContinueUnrolls(p: Plan)
    requires LoopsWellFormed(p.bp) && LoopsOk(p) && InLoop(p) && Unrolled(p)
    ensures Unrolled(Continued(p))
  {
    hide LoopsOk, Unroll, Passes, LoopsWellFormed;
    var l, k := CurrentLoop(p), LastPass(p);
    ContinuedIs(p);
    RunningNow(p);
    RunningCut(p, p.loops, k);
    RunningCut(p, Continued(p).loops, k + 1);
    PassesStep(UnrolledBefore(p), l, k);
  }

  lemma ExitUnrolls(p: Plan)
    requires LoopsWellFormed(p.bp) && LoopsOk(p) && InLoop(p) && Unrolled(p)
    ensures Unrolled(Exited(p))
  {
    UnrollCut(p, p.loops);
    UnrollCut(p, Exited(p).loops);
    LaterLoopsFresh(p, Exited(p).loops);
    UnrollFresh(p.bp, p.next, Exited(p).loops);
    Regroup(UnrolledBefore(p), Passes(CurrentLoop(p), LastPass(p)), TakeSegment(p.bp, p.next).labels);
  }

  lemma Regroup<T>(a: seq<T>, b: seq<T>, c: seq<T>)
    ensures a + b + c == a + (b + c)
  {
  }

  lemma LaterLoopsFresh(p: Plan, loops: map<string, LoopCtx>)
    requires LoopsWellFormed(p.bp) && LoopsOk(p) && InLoop(p)
    requires forall id :: id in p.loops && id != CurrentLoop(p).id ==> id in loops && loops[id] == p.loops[id]
    ensures forall j :: p.next <= j < |p.bp| && p.bp[j].Block? ==>
      p.bp[j].loop.id in loops && loops[p.bp[j].loop.id].iteration == 1 && loops[p.bp[j].loop.id].status == LoopRunning
  {
    forall j | p.next <= j < |p.bp| && p.bp[j].Block?
      ensures p.bp[j].loop.id in loops && loops[p.bp[j].loop.id].iteration == 1
      ensures loops[p.bp[j].loop.id].status == LoopRunning
    {
      assert LoopAt(p, p.bp[j].loop, 1, LoopRunning) && p.bp[j].loop.id != CurrentLoop(p).id;
    }
  }

  // ---- Lemmas: the engine's loop control acts on the plan

  lemma MintPlan(s: Saga, labels: seq<Label>)
    ensures PlanOf(Mint(s, labels)) == PlanOf(s).(labs := Labs(s.rows) + labels)
  {
    var s1 := Mint(s, labels);
    assert |Labs(s1.rows)| == |Labs(s.rows) + labels|;
    forall j | 0 <= j < |s1.rows| ensures Labs(s1.rows)[j] == (Labs(s.rows) + labels)[j] {
      if j >= |s.rows| { assert s1.rows[j] == MintedRows(labels, |s.rows|, s.nextId)[j - |s.rows|]; }
    }
    assert Labs(s1.rows) == Labs(s.rows) + labels;
  }

  lemma ContinuePlan(s: Saga)
    requires InLoop(PlanOf(s))
    ensures var p := PlanOf(s);
      PlanOf(ContinueLoop(s, CurrentLoop(p), LastPass(p))) == Continued(p)
  {
    var p := PlanOf(s);
    var l := CurrentLoop(p);
    var k := LastPass(p);
    MintPlan(s.(ctx := SetLoop(s.ctx, l.id, k + 1, l.max, LoopRunning)), Annotate(l.body, Some(Pass(l.id, k + 1))));
  }

  lemma ExitPlan(s: Saga)
    requires LoopsWellFormed(s.blueprint) && InLoop(PlanOf(s)) && LoopsOk(PlanOf(s))
    ensures var p := PlanOf(s);
      var s1 := ExitLoop(s, p.active.value, LastPass(p), CurrentLoop(p).max);
      PlanOf(s1) == Exited(p) && s1.ctx == SetLoop(s.ctx, p.active.value, LastPass(p), CurrentLoop(p).max, LoopExited)
  {
    var p := PlanOf(s);
    var l := CurrentLoop(p);
    var g := TakeSegment(s.blueprint, s.next);
    SegmentShape(s.blueprint, s.next);
    var ctx1 := SetLoop(s.ctx, l.id, LastPass(p), l.max, LoopExited);
    var s1 := s.(ctx := ctx1, next := g.next, active := g.active);
    if g.active.Some? {
      var l1 := p.bp[g.next - 1].loop;
      assert LoopAt(p, l1, 1, LoopRunning) && l1.id != l.id;
      assert SetLoop(ctx1, l1.id, 1, l1.max, LoopRunning).loops == ctx1.loops;
    }
    if g.labels != [] { MintPlan(s1, g.labels); } else { assert Labs(s.rows) + g.labels == Labs(s.rows); }
  }

  /** At the last row of a live segment the boundary is decided by `until` alone. */
  lemma BoundaryAt(r: Rules, s: Saga, i: nat)
    requires LoopsWellFormed(s.blueprint) && i < |s.rows| && Tail(PlanOf(s), i)
    ensures i + 1 < |s.rows| || PlanOf(s).active.None? ==> Boundary(r, s, i) == Crossed(s)
    ensures i + 1 == |s.rows| && PlanOf(s).active.Some? ==>
      var p := PlanOf(s);
      var l := CurrentLoop(p);
      var k := LastPass(p);
      && s.rows[i].lab.pass == Some(Pass(l.id, k))
      && (Boundary(r, s, i).Broken? ==> Boundary(r, s, i).s == s.(ctx := SetLoop(s.ctx, l.id, k, l.max, LoopExhausted)))
      && Boundary(r, s, i) ==
         match r.until(s.ctx, l.id, k)
         case UntilTrue => Crossed(ExitLoop(s, l.id, k, l.max))
         case UntilFalse =>
           if k >= l.max then Broken(s.(ctx := SetLoop(s.ctx, l.id, k, l.max, LoopExhausted)))
           else Crossed(ContinueLoop(s, l, k))
         case UntilError(_) => Broken(s.(ctx := SetLoop(s.ctx, l.id, k, l.max, LoopExhausted)))
  {
    var p := PlanOf(s);
    assert p.labs[i] == s.rows[i].lab;
    if i + 1 == |s.rows| && p.active.Some? {
      FindCurrent(p);
      assert LoopOk(CurrentLoop(p));
    }
  }

  /** Crossing a boundary keeps the shape of the forward path. */
  lemma CrossKeepsPlan(r: Rules, s: Saga, i: nat)
    requires LoopsWellFormed(s.blueprint) && i < |s.rows|
    requires Tail(PlanOf(s), i) && LoopsOk(PlanOf(s)) && Unrolled(PlanOf(s))
    requires Boundary(r, s, i).Crossed?
    ensures var p1 := PlanOf(Boundary(r, s, i).s);
      Tail(p1, i + 1) && LoopsOk(p1) && Unrolled(p1) && p1.bp == s.blueprint
  {
    var p := PlanOf(s);
    BoundaryAt(r, s, i);
    if i + 1 == |s.rows| && p.active.Some? {
      if r.until(s.ctx, CurrentLoop(p).id, LastPass(p)) == UntilTrue {
        ExitPlan(s);
        ExitKeeps(p, i);
        ExitUnrolls(p);
      } else {
        ContinuePlan(s);
        ContinueKeeps(p, i);
        ContinueUnrolls(p);
      }
    }
  }

  // ---- Lemmas: the interpreter keeps pace

  lemma ExitDenotes(r: Rules, p: Plan, i: nat, st: St)
    requires LoopsWellFormed(p.bp) && Tail(p, i) && i + 1 == |p.labs| && LoopsOk(p) && InLoop(p)
    ensures i + 1 <= |Exited(p).labs|
    ensures Onward(r, Exited(p), i + 1, st) == Interp(r, p.bp[p.next..], st)
  {
    hide TakeSegment, Tail, LoopsOk;
    var p1 := Exited(p);
    var g := TakeSegment(p.bp, p.next);
    SegmentShape(p.bp, p.next);
    assert p1.labs[i + 1..] == g.labels;
    SegmentDenotes(r, p.bp, p.next, st);
    if g.active.Some? { LastPassFirst(p); }
    assert ActivePass(p1) == SegmentPass(p.bp, g);
  }

  lemma ContinueDenotes(r: Rules, p: Plan, i: nat, st: St)
    requires LoopsWellFormed(p.bp) && Tail(p, i) && i + 1 == |p.labs| && LoopsOk(p) && InLoop(p)
    requires LastPass(p) < CurrentLoop(p).max
    ensures i + 1 <= |Continued(p).labs|
    ensures Onward(r, Continued(p), i + 1, st)
      == Interp(r, p.bp[p.next..], InterpPass(r, CurrentLoop(p), LastPass(p) + 1, st))
  {
    ContinueKeeps(p, i);
    var l := CurrentLoop(p);
    assert Continued(p).labs[i + 1..] == Annotate(l.body, Some(Pass(l.id, LastPass(p) + 1)));
  }

  /** Past the last label of a pass, the loop decides. */
  lemma OnwardAtBoundary(r: Rules, p: Plan, i: nat, st: St)
    requires InLoop(p) && i + 1 == |p.labs|
    ensures Onward(r, p, i + 1, st) == Interp(r, p.bp[p.next..], Again(r, CurrentLoop(p), LastPass(p), st))
  {
    assert p.labs[i + 1..] == [];
  }

  lemma AgainDecides(r: Rules, l: Loop, k: nat, st: St)
    requires st.verdict == Going
    ensures r.until(st.ctx, l.id, k) == UntilTrue ==>
      Again(r, l, k, st) == st.(ctx := SetLoop(st.ctx, l.id, k, l.max, LoopExited))
    ensures r.until(st.ctx, l.id, k) == UntilFalse && k < l.max ==>
      Again(r, l, k, st) == InterpPass(r, l, k + 1, st.(ctx := SetLoop(st.ctx, l.id, k + 1, l.max, LoopRunning)))
    ensures r.until(st.ctx, l.id, k) != UntilTrue && (r.until(st.ctx, l.id, k) == UntilFalse ==> k >= l.max) ==>
      Again(r, l, k, st) == st.(ctx := SetLoop(st.ctx, l.id, k, l.max, LoopExhausted), verdict := Stuck)
  {
  }

  lemma ExitOnward(r: Rules, p: Plan, i: nat, st: St)
    requires LoopsWellFormed(p.bp) && Tail(p, i) && i + 1 == |p.labs| && LoopsOk(p) && InLoop(p)
    requires st.verdict == Going && r.until(st.ctx, CurrentLoop(p).id, LastPass(p)) == UntilTrue
    ensures i + 1 <= |Exited(p).labs|
    ensures var l := CurrentLoop(p);
      Onward(r, p, i + 1, st)
      == Onward(r, Exited(p), i + 1, st.(ctx := SetLoop(st.ctx, l.id, LastPass(p), l.max, LoopExited)))
  {
    var l := CurrentLoop(p);
    OnwardAtBoundary(r, p, i, st);
    AgainDecides(r, l, LastPass(p), st);
    ExitDenotes(r, p, i, st.(ctx := SetLoop(st.ctx, l.id, LastPass(p), l.max, LoopExited)));
  }

  lemma ContinueOnward(r: Rules, p: Plan, i: nat, st: St)
    requires LoopsWellFormed(p.bp) && Tail(p, i) && i + 1 == |p.labs| && LoopsOk(p) && InLoop(p)
    requires st.verdict == Going && r.until(st.ctx, CurrentLoop(p).id, LastPass(p)) == UntilFalse
    requires LastPass(p) < CurrentLoop(p).max
    ensures i + 1 <= |Continued(p).labs|
    ensures var l := CurrentLoop(p);
      Onward(r, p, i + 1, st)
      == Onward(r, Continued(p), i + 1, st.(ctx := SetLoop(st.ctx, l.id, LastPass(p) + 1, l.max, LoopRunning)))
  {
    var l := CurrentLoop(p);
    OnwardAtBoundary(r, p, i, st);
    AgainDecides(r, l, LastPass(p), st);
    ContinueDenotes(r, p, i, st.(ctx := SetLoop(st.ctx, l.id, LastPass(p) + 1, l.max, LoopRunning)));
  }

  /** Crossing a boundary is invisible to the interpreter. */
  lemma CrossDenotes(r: Rules, s: Saga, i: nat, st: St)
    requires LoopsWellFormed(s.blueprint) && i < |s.rows|
    requires Tail(PlanOf(s), i) && LoopsOk(PlanOf(s))
    requires st.ctx == s.ctx && st.verdict == Going
    requires Boundary(r, s, i).Crossed?
    ensures var s1 := Boundary(r, s, i).s;
      && i + 1 <= |s1.rows|
      && Onward(r, PlanOf(s), i + 1, st) == Onward(r, PlanOf(s1), i + 1, st.(ctx := s1.ctx))
  {
    BoundaryAt(r, s, i);
    if i + 1 == |s.rows| && PlanOf(s).active.Some? {
      if r.until(s.ctx, CurrentLoop(PlanOf(s)).id, LastPass(PlanOf(s))) == UntilTrue {
        ExitPlan(s);
        ExitOnward(r, PlanOf(s), i, st);
      } else {
        ContinuePlan(s);
        ContinueOnward(r, PlanOf(s), i, st);
      }
    }
  }

  lemma LastPassFirst(p: Plan)
    requires LoopsWellFormed(p.bp) && InLoop(p) && Exited(p).active.Some?
    ensures LastPass(Exited(p)) == 1
  {
    var g := TakeSegment(p.bp, p.next);
    SegmentShape(p.bp, p.next);
    SegmentEndsFirst(p.bp, p.next, g);
    LastIsRight(p.labs, g.labels);
    assert Exited(p).labs == p.labs + g.labels;
  }

  lemma SegmentEndsFirst(bp: seq<Top>, from: nat, g: Segment)
    requires LoopsWellFormed(bp) && Shaped(bp, from, g) && g.active.Some?
    ensures g.labels != [] && g.labels[|g.labels| - 1].pass.Some? && g.labels[|g.labels| - 1].pass.value.k == 1
  {
    assert LoopOk(bp[g.next - 1].loop);
  }

  lemma LastIsRight<T>(a: seq<T>, b: seq<T>)
    requires b != []
    ensures (a + b)[|a + b| - 1] == b[|b| - 1]
  {
  }
}
