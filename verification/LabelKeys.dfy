/** When the idempotency keys minted for forward rows never collide: the keys are plain
    text, joined with hyphens, so it depends on the ids of the blueprint. */
module LabelKeys {
  import opened SagaTypes
  import opened Decimals
  import opened SagaSpec
  import opened Interpreter
  import opened ForwardPath
  import opened ForwardSteps

  function LabelKey(lab: Label): Key { TextKey(KeyText(lab.spec.id, lab.pass)) }

  /** A row has the key it was minted with, or a retry key. */
  predicate OwnKey(row: Row, nextId: nat) {
    row.key == LabelKey(row.lab) || (row.key.RetryKey? && row.key.token < nextId)
  }

  predicate DistinctKeys(labs: seq<Label>) {
    forall i, j :: 0 <= i < j < |labs| ==> LabelKey(labs[i]) != LabelKey(labs[j])
  }

  /** ... and no spawn undo has the key of a row or of another spawn undo. */
  predicate DistinctWithUndos(labs: seq<Label>) {
    && DistinctKeys(labs)
    && (forall i, j :: 0 <= i < |labs| && 0 <= j < |labs| && labs[i].spec.kind == SpawnSagas ==>
          SpawnUndoKey(LabelKey(labs[i])) != LabelKey(labs[j]))
    && (forall i, j :: 0 <= i < j < |labs| && labs[i].spec.kind == SpawnSagas && labs[j].spec.kind == SpawnSagas ==>
          SpawnUndoKey(LabelKey(labs[i])) != SpawnUndoKey(LabelKey(labs[j])))
  }

  /** Same step and same pass. */
  predicate SameUnit(a: Label, b: Label) { a.spec.id == b.spec.id && a.pass == b.pass }

  predicate DistinctUnits(labs: seq<Label>) {
    forall i, j :: 0 <= i < j < |labs| ==> !SameUnit(labs[i], labs[j])
  }

  lemma DistinctParts<T>(a: seq<T>, b: seq<T>)
    requires Distinct(a + b)
    ensures Distinct(a) && Distinct(b)
    ensures forall x <- a :: x !in b
  {
    forall i, j | 0 <= i < j < |a| ensures a[i] != a[j] {
      assert (a + b)[i] == a[i] && (a + b)[j] == a[j];
    }
    forall i, j | 0 <= i < j < |b| ensures b[i] != b[j] {
      assert (a + b)[|a| + i] == b[i] && (a + b)[|a| + j] == b[j];
    }
    forall x | x in a ensures x !in b {
      var i :| 0 <= i < |a| && a[i] == x;
      forall j | 0 <= j < |b| ensures b[j] != x {
        assert (a + b)[i] == a[i] && (a + b)[|a| + j] == b[j];
      }
    }
  }

  // ---- What a blueprint unrolls to

  predicate OfPass(lab: Label, l: Loop, n: nat) {
    lab.spec in l.body && lab.pass.Some? && lab.pass.value.loop == l.id && 1 <= lab.pass.value.k <= n
  }

  /** Labels of pass 1..n of a loop, for ids of its body. */
  ghost predicate OfLoop(labs: seq<Label>, l: Loop, n: nat) {
    forall lab <- labs :: OfPass(lab, l, n)
  }

  lemma {:induction false} PassesOfLoop(l: Loop, n: nat)
    ensures OfLoop(Passes(l, n), l, n)
  {
    if n > 0 {
      PassesOfLoop(l, n - 1);
      var step := Annotate(l.body, Some(Pass(l.id, n)));
      forall lab | lab in Passes(l, n) ensures OfPass(lab, l, n) {
        if lab !in Passes(l, n - 1) { assert lab in step; }
      }
    }
  }

  lemma {:induction false} PassesDistinct(l: Loop, n: nat)
    requires Distinct(BodyIds(l.body))
    ensures DistinctUnits(Passes(l, n))
  {
    if n > 0 {
      PassesDistinct(l, n - 1);
      PassesOfLoop(l, n - 1);
      var before := Passes(l, n - 1);
      var step := Annotate(l.body, Some(Pass(l.id, n)));
      forall i, j | 0 <= i < j < |before + step| ensures !SameUnit((before + step)[i], (before + step)[j]) {
        if i >= |before| {
          assert BodyIds(l.body)[i - |before|] != BodyIds(l.body)[j - |before|];
        } else if j >= |before| {
          assert before[i] in before && OfPass(before[i], l, n - 1);
        }
      }
    }
  }

  /** The label is a step outside loops, or a body step in one of the loop's passes. */
  ghost predicate UnitOf(lab: Label, bp: seq<Top>) {
    exists j :: 0 <= j < |bp| && UnitAt(lab, bp[j])
  }

  predicate UnitAt(lab: Label, top: Top) {
    match top
    case Exec(sp) => lab == Label(sp, None)
    case Block(l) => OfPass(lab, l, l.max)
  }

  ghost predicate FromBlueprint(labs: seq<Label>, bp: seq<Top>) {
    forall lab <- labs :: lab.spec.id in StepIds(bp) && UnitOf(lab, bp)
  }

  lemma {:induction false} UnrollIds(bp: seq<Top>, loops: map<string, LoopCtx>)
    requires AllWithinMax(bp, loops)
    ensures FromBlueprint(Unroll(bp, loops), bp)
    decreases |bp|
  {
    if bp != [] {
      forall j | 0 <= j < |bp[1..]| && bp[1..][j].Block? ensures WithinMax(loops, bp[1..][j].loop) {
        assert WithinMax(loops, bp[j + 1].loop);
      }
      UnrollIds(bp[1..], loops);
      if bp[0].Block? {
        assert WithinMax(loops, bp[0].loop);
        PassesOfLoop(bp[0].loop, loops[bp[0].loop.id].iteration);
      }
      forall lab | lab in Unroll(bp, loops) ensures lab.spec.id in StepIds(bp) && UnitOf(lab, bp) {
        if lab in Unroll(bp[1..], loops) {
          assert UnitOf(lab, bp[1..]);
          var j :| 0 <= j < |bp[1..]| && UnitAt(lab, bp[1..][j]);
          assert UnitAt(lab, bp[j + 1]);
        } else {
          assert UnitAt(lab, bp[0]);
          HeadId(bp, lab.spec);
        }
      }
    }
  }

  ghost predicate AllWithinMax(bp: seq<Top>, loops: map<string, LoopCtx>) {
    forall j :: 0 <= j < |bp| && bp[j].Block? ==> WithinMax(loops, bp[j].loop)
  }

  lemma HeadId(bp: seq<Top>, sp: Spec)
    requires bp != [] && (if bp[0].Exec? then bp[0].spec == sp else sp in bp[0].loop.body)
    ensures sp.id in StepIds(bp)
  {
    match bp[0]
    case Exec(_) => assert StepIds(bp)[0] == sp.id;
    case Block(l) =>
      var k :| 0 <= k < |l.body| && l.body[k] == sp;
      assert BodyIds(l.body)[k] == sp.id;
      assert StepIds(bp)[k] == sp.id;
  }

  /** No step is unrolled twice for one pass. */
  lemma {:induction false} UnrollDistinct(bp: seq<Top>, loops: map<string, LoopCtx>)
    requires Distinct(StepIds(bp)) && AllWithinMax(bp, loops)
    ensures DistinctUnits(Unroll(bp, loops))
    decreases |bp|
  {
    if bp != [] {
      var head := match bp[0] case Exec(sp) => [sp.id] case Block(l) => BodyIds(l.body);
      DistinctParts(head, StepIds(bp[1..]));
      forall j | 0 <= j < |bp[1..]| && bp[1..][j].Block? ensures WithinMax(loops, bp[1..][j].loop) {
        assert WithinMax(loops, bp[j + 1].loop);
      }
      UnrollDistinct(bp[1..], loops);
      UnrollIds(bp[1..], loops);
      match bp[0]
      case Exec(sp) =>
        AppendDistinct([Label(sp, None)], Unroll(bp[1..], loops), head, StepIds(bp[1..]));
      case Block(l) =>
        assert WithinMax(loops, l);
        var n := loops[l.id].iteration;
        PassesDistinct(l, n);
        PassesIn(l, n, head);
        var rest := if loops[l.id].status == LoopExited then Unroll(bp[1..], loops) else [];
        AppendDistinct(Passes(l, n), rest, head, StepIds(bp[1..]));
    }
  }

  lemma PassesIn(l: Loop, n: nat, ids: seq<string>)
    requires ids == BodyIds(l.body)
    ensures forall lab <- Passes(l, n) :: lab.spec.id in ids
  {
    PassesOfLoop(l, n);
    forall lab | lab in Passes(l, n) ensures lab.spec.id in ids {
      var k :| 0 <= k < |l.body| && l.body[k] == lab.spec;
      assert ids[k] == lab.spec.id;
    }
  }

  lemma AppendDistinct(a: seq<Label>, b: seq<Label>, ids: seq<string>, later: seq<string>)
    requires DistinctUnits(a) && DistinctUnits(b)
    requires forall id <- ids :: id !in later
    requires forall lab <- a :: lab.spec.id in ids
    requires forall lab <- b :: lab.spec.id in later
    ensures DistinctUnits(a + b)
  {
    forall i, j | 0 <= i < j < |a + b| ensures !SameUnit((a + b)[i], (a + b)[j]) {
      if i < |a| && j >= |a| { assert a[i] in a && b[j - |a|] in b; }
    }
  }

  // ---- Keys as text

  lemma SuffixCut(a: string, b: string, tail: string)
    ensures a + tail == b + tail ==> a == b
  {
    if a + tail == b + tail {
      assert a == (a + tail)[..|a|];
      assert b == (b + tail)[..|b|];
    }
  }

  /** A step outside loops and a pass of a body step. */
  lemma StepTextDiffers(bp: seq<Top>, i: nat, j: nat, a: Label, b: Label)
    requires StepsApart(bp) && i < |bp| && j < |bp| && bp[i].Exec? && bp[j].Block?
    requires UnitAt(a, bp[i]) && UnitAt(b, bp[j])
    ensures LabelKey(a) != LabelKey(b)
  {
    assert StepApart(bp[i].spec, bp[j].loop);
  }

  /** Passes of the steps of two different loops. */
  lemma BodyTextDiffers(bp: seq<Top>, i: nat, j: nat, a: Label, b: Label)
    requires BodiesApart(bp) && i < j < |bp| && bp[i].Block? && bp[j].Block?
    requires UnitAt(a, bp[i]) && UnitAt(b, bp[j])
    ensures LabelKey(a) != LabelKey(b)
  {
    assert LoopsApart(bp[i].loop, bp[j].loop);
    var p, q := a.pass.value, b.pass.value;
    if LabelKey(a) == LabelKey(b) {
      NumberedNamesDiffer(BodyText(a.spec.id, p.loop), BodyText(b.spec.id, q.loop), '-', p.k, q.k);
    }
  }

  /** Passes of the steps of one loop. */
  lemma OneLoopTellsUnits(l: Loop, a: Label, b: Label)
    requires OfPass(a, l, l.max) && OfPass(b, l, l.max) && LabelKey(a) == LabelKey(b)
    ensures SameUnit(a, b)
  {
    NumberedNamesDiffer(BodyText(a.spec.id, l.id), BodyText(b.spec.id, l.id), '-', a.pass.value.k, b.pass.value.k);
    SuffixCut(a.spec.id, b.spec.id, "-" + l.id);
    assert BodyText(a.spec.id, l.id) == a.spec.id + ("-" + l.id);
    assert BodyText(b.spec.id, l.id) == b.spec.id + ("-" + l.id);
  }

  /** Two units of a blueprint have the same key only if they are one unit. */
  lemma TextTellsUnits(bp: seq<Top>, a: Label, b: Label)
    requires KeysApart(bp) && UnitOf(a, bp) && UnitOf(b, bp) && LabelKey(a) == LabelKey(b)
    ensures SameUnit(a, b)
  {
    var i :| 0 <= i < |bp| && UnitAt(a, bp[i]);
    var j :| 0 <= j < |bp| && UnitAt(b, bp[j]);
    if bp[i].Exec? && bp[j].Block? {
      StepTextDiffers(bp, i, j, a, b);
    } else if bp[i].Block? && bp[j].Exec? {
      StepTextDiffers(bp, j, i, b, a);
    } else if bp[i].Block? {
      if i < j { BodyTextDiffers(bp, i, j, a, b); }
      if j < i { BodyTextDiffers(bp, j, i, b, a); }
      OneLoopTellsUnits(bp[i].loop, a, b);
    }
  }

  /** Under any loop counters within the limits, no two labels share a key. */
  lemma UnrollKeysDistinct(bp: seq<Top>, loops: map<string, LoopCtx>)
    requires WellFormed(bp) && AllWithinMax(bp, loops)
    ensures DistinctKeys(Unroll(bp, loops))
  {
    var labs := Unroll(bp, loops);
    UnrollDistinct(bp, loops);
    UnrollIds(bp, loops);
    forall i, j | 0 <= i < j < |labs| ensures LabelKey(labs[i]) != LabelKey(labs[j]) {
      assert labs[i] in labs && labs[j] in labs;
      if LabelKey(labs[i]) == LabelKey(labs[j]) { TextTellsUnits(bp, labs[i], labs[j]); }
    }
  }

  /** The suffixed text of a spawn step is the text of no step or pass. */
  lemma SpawnTextDiffers(bp: seq<Top>, a: Label, b: Label)
    requires LoopsWellFormed(bp) && SpawnsApart(bp) && UnitOf(a, bp) && UnitOf(b, bp) && a.spec.kind == SpawnSagas
    ensures SpawnUndoKey(LabelKey(a)) != LabelKey(b)
  {
    var i :| 0 <= i < |bp| && UnitAt(a, bp[i]);
    var j :| 0 <= j < |bp| && UnitAt(b, bp[j]);
    assert bp[i].Exec?;
    if b.pass.Some? {
      var text, undo := PassText(b.spec.id, b.pass.value.loop, b.pass.value.k), a.spec.id + SPAWN_UNDO_SUFFIX;
      assert IsDigit(text[|text| - 1]);
      assert undo[|undo| - 1] == 'e';
    }
  }

  lemma SuffixedDiffer(a: Label, b: Label)
    requires LabelKey(a) != LabelKey(b)
    ensures SpawnUndoKey(LabelKey(a)) != SpawnUndoKey(LabelKey(b))
  {
    SuffixCut(KeyText(a.spec.id, a.pass), KeyText(b.spec.id, b.pass), SPAWN_UNDO_SUFFIX);
  }

  lemma UnrollUndosDistinct(bp: seq<Top>, loops: map<string, LoopCtx>)
    requires WellFormed(bp) && AllWithinMax(bp, loops)
    ensures DistinctWithUndos(Unroll(bp, loops))
  {
    var labs := Unroll(bp, loops);
    UnrollKeysDistinct(bp, loops);
    UnrollIds(bp, loops);
    forall i, j | 0 <= i < |labs| && 0 <= j < |labs| && labs[i].spec.kind == SpawnSagas
      ensures SpawnUndoKey(LabelKey(labs[i])) != LabelKey(labs[j])
    {
      assert labs[i] in labs && labs[j] in labs;
      SpawnTextDiffers(bp, labs[i], labs[j]);
    }
    forall i, j | 0 <= i < j < |labs| ensures SpawnUndoKey(LabelKey(labs[i])) != SpawnUndoKey(LabelKey(labs[j])) {
      SuffixedDiffer(labs[i], labs[j]);
    }
  }

  // ---- ... and what happens when ids do run together

  function LastPasses(bp: seq<Top>): map<string, LoopCtx> {
    if bp == [] then map[]
    else
      var m := LastPasses(bp[1..]);
      match bp[0]
      case Exec(_) => m
      case Block(l) => m[l.id := LoopCtx(l.max, l.max, LoopExited)]
  }

  /** Every loop of `bp` has run all its passes and was then left. */
  ghost predicate AllPassed(bp: seq<Top>, loops: map<string, LoopCtx>) {
    forall j :: 0 <= j < |bp| && bp[j].Block? ==>
      bp[j].loop.id in loops && loops[bp[j].loop.id] == LoopCtx(bp[j].loop.max, bp[j].loop.max, LoopExited)
  }

  lemma {:induction false} LastPassesPassed(bp: seq<Top>)
    requires LoopsWellFormed(bp)
    ensures AllPassed(bp, LastPasses(bp)) && AllWithinMax(bp, LastPasses(bp))
    decreases |bp|
  {
    if bp != [] {
      LastPassesPassed(bp[1..]);
      forall j | 0 <= j < |bp| && bp[j].Block?
        ensures bp[j].loop.id in LastPasses(bp)
        ensures LastPasses(bp)[bp[j].loop.id] == LoopCtx(bp[j].loop.max, bp[j].loop.max, LoopExited)
      {
        if j > 0 { assert bp[1..][j - 1] == bp[j]; }
      }
    }
    forall j | 0 <= j < |bp| && bp[j].Block? ensures WithinMax(LastPasses(bp), bp[j].loop) {
      assert LoopOk(bp[j].loop);
    }
  }

  lemma {:induction false} PassesReach(l: Loop, n: nat, lab: Label)
    requires OfPass(lab, l, n)
    ensures lab in Passes(l, n)
  {
    var k := lab.pass.value.k;
    if k == n {
      var i :| 0 <= i < |l.body| && l.body[i] == lab.spec;
      assert Annotate(l.body, Some(Pass(l.id, n)))[i] == lab;
    } else {
      PassesReach(l, n - 1, lab);
    }
  }

  lemma {:induction false} UnrollReaches(bp: seq<Top>, loops: map<string, LoopCtx>, j: nat, lab: Label)
    requires AllPassed(bp, loops) && j < |bp| && UnitAt(lab, bp[j])
    ensures lab in Unroll(bp, loops)
    decreases |bp|
  {
    if j == 0 {
      if bp[0].Block? { PassesReach(bp[0].loop, bp[0].loop.max, lab); }
    } else {
      assert bp[1..][j - 1] == bp[j];
      forall m | 0 <= m < |bp[1..]| && bp[1..][m].Block?
        ensures bp[1..][m].loop.id in loops
        ensures loops[bp[1..][m].loop.id] == LoopCtx(bp[1..][m].loop.max, bp[1..][m].loop.max, LoopExited)
      {
        assert bp[1..][m] == bp[m + 1];
      }
      UnrollReaches(bp[1..], loops, j - 1, lab);
    }
  }

  /** Two different units of the blueprint that read alike collide in the end. */
  lemma AlikeCollide(bp: seq<Top>, i: nat, j: nat, a: Label, b: Label)
    requires LoopsWellFormed(bp) && i < |bp| && j < |bp| && UnitAt(a, bp[i]) && UnitAt(b, bp[j])
    requires a != b && LabelKey(a) == LabelKey(b)
    ensures !DistinctKeys(Unroll(bp, LastPasses(bp)))
  {
    var labs := Unroll(bp, LastPasses(bp));
    LastPassesPassed(bp);
    UnrollReaches(bp, LastPasses(bp), i, a);
    UnrollReaches(bp, LastPasses(bp), j, b);
    var m :| 0 <= m < |labs| && labs[m] == a;
    var n :| 0 <= n < |labs| && labs[n] == b;
    if m < n { assert LabelKey(labs[m]) == LabelKey(labs[n]); } else { assert LabelKey(labs[n]) == LabelKey(labs[m]); }
  }

  lemma StepsMustBeApart(bp: seq<Top>)
    requires LoopsWellFormed(bp) && !StepsApart(bp)
    ensures !DistinctKeys(Unroll(bp, LastPasses(bp)))
  {
    var i, j :| 0 <= i < |bp| && 0 <= j < |bp| && bp[i].Exec? && bp[j].Block? && !StepApart(bp[i].spec, bp[j].loop);
    var l := bp[j].loop;
    var b, k :| b in l.body && 1 <= k <= l.max && bp[i].spec.id == PassText(b.id, l.id, k);
    AlikeCollide(bp, i, j, Label(bp[i].spec, None), Label(b, Some(Pass(l.id, k))));
  }

  lemma BodiesMustBeApart(bp: seq<Top>)
    requires LoopsWellFormed(bp) && !BodiesApart(bp)
    ensures !DistinctKeys(Unroll(bp, LastPasses(bp)))
  {
    var i, j :| 0 <= i < j < |bp| && bp[i].Block? && bp[j].Block? && !LoopsApart(bp[i].loop, bp[j].loop);
    var l, m := bp[i].loop, bp[j].loop;
    assert LoopOk(l) && LoopOk(m);
    var b, c :| b in l.body && c in m.body && BodyText(b.id, l.id) == BodyText(c.id, m.id);
    AlikeCollide(bp, i, j, Label(b, Some(Pass(l.id, 1))), Label(c, Some(Pass(m.id, 1))));
  }

  lemma SpawnsMustBeApart(bp: seq<Top>)
    requires LoopsWellFormed(bp) && !SpawnsApart(bp)
    ensures !DistinctWithUndos(Unroll(bp, LastPasses(bp)))
  {
    var i, j :| 0 <= i < |bp| && 0 <= j < |bp| && bp[i].Exec? && bp[j].Exec? && bp[i].spec.kind == SpawnSagas &&
      bp[j].spec.id == bp[i].spec.id + SPAWN_UNDO_SUFFIX;
    var labs := Unroll(bp, LastPasses(bp));
    LastPassesPassed(bp);
    UnrollReaches(bp, LastPasses(bp), i, Label(bp[i].spec, None));
    UnrollReaches(bp, LastPasses(bp), j, Label(bp[j].spec, None));
    var m :| 0 <= m < |labs| && labs[m] == Label(bp[i].spec, None);
    var n :| 0 <= n < |labs| && labs[n] == Label(bp[j].spec, None);
    assert SpawnUndoKey(LabelKey(labs[m])) == LabelKey(labs[n]);
  }

  /** For a blueprint the schema accepts, the keys of all forward rows and of the undos of
      spawn rows stay distinct however far its loops run, exactly when what is joined to its
      ids keeps apart. */
  lemma KeysDistinctExactly(bp: seq<Top>)
    requires Accepted(bp)
    ensures KeysApart(bp) <==> forall loops :: AllWithinMax(bp, loops) ==> DistinctWithUndos(Unroll(bp, loops))
  {
    if KeysApart(bp) {
      forall loops | AllWithinMax(bp, loops) ensures DistinctWithUndos(Unroll(bp, loops)) {
        UnrollUndosDistinct(bp, loops);
      }
    } else {
      LastPassesPassed(bp);
      if !StepsApart(bp) { StepsMustBeApart(bp); }
      else if !BodiesApart(bp) { BodiesMustBeApart(bp); }
      else { SpawnsMustBeApart(bp); }
    }
  }

  /** The keys of the rows of a saga, by its counters. */
  lemma RowKeysDistinct(s: Saga)
    requires WellFormed(s.blueprint) && Unrolled(PlanOf(s)) && Bounded(PlanOf(s))
    ensures DistinctWithUndos(Labs(s.rows))
  {
    assert AllWithinMax(s.blueprint, s.ctx.loops) by {
      forall j | 0 <= j < |s.blueprint| && s.blueprint[j].Block? ensures WithinMax(s.ctx.loops, s.blueprint[j].loop) {
        assert WithinMax(PlanOf(s).loops, PlanOf(s).bp[j].loop);
      }
    }
    UnrollUndosDistinct(s.blueprint, s.ctx.loops);
  }

  // ---- Blueprints the schema accepts, whose keys collide

  const WORK: Spec := Spec("", Reason, false, false, false, false, None, 1, false)

  /** A step named like the first pass of a loop-body step. */
  const NAMED_LIKE_PASS: seq<Top> :=
    [Exec(WORK.(id := "poll-check-1")), Block(Loop("check", 3, [WORK.(id := "poll")]))]

  /** Two loops whose ids take up the hyphens differently. */
  const NAMED_ALIKE: seq<Top> :=
    [Block(Loop("b-c", 2, [WORK.(id := "a")])), Block(Loop("c", 2, [WORK.(id := "a-b")]))]

  /** The first one collides when the saga starts. */
  lemma StartCollides()
    ensures Accepted(NAMED_LIKE_PASS) && !DistinctKeys(Labs(Start(NAMED_LIKE_PASS).rows))
  {
    var bp := NAMED_LIKE_PASS;
    assert StepIds(bp[1..]) == ["poll"] by { assert bp[1..][1..] == []; }
    assert StepIds(bp) == ["poll-check-1", "poll"];
    var l := bp[1].loop;
    var labs := [Label(bp[0].spec, None), Label(l.body[0], Some(Pass("check", 1)))];
    assert TakeSegment(bp, 1).labels == [labs[1]];
    assert TakeSegment(bp, 0).labels == labs;
    assert Digits(1) == "1";
    assert LabelKey(labs[0]) == LabelKey(labs[1]);
    assert Labs(Start(bp).rows)[0] == labs[0] && Labs(Start(bp).rows)[1] == labs[1];
  }

  /** The second one when the first loop is left. */
  lemma LoopsCollide()
    ensures Accepted(NAMED_ALIKE) && !DistinctKeys(Unroll(NAMED_ALIKE, LastPasses(NAMED_ALIKE)))
  {
    var bp := NAMED_ALIKE;
    assert StepIds(bp[1..]) == ["a-b"] by { assert bp[1..][1..] == []; }
    assert StepIds(bp) == ["a", "a-b"];
    assert BodyText("a", "b-c") == "a-b-c" == BodyText("a-b", "c");
    assert !LoopsApart(bp[0].loop, bp[1].loop);
    BodiesMustBeApart(bp);
  }

  /** A commit named like the undo of a spawn step. */
  const NAMED_LIKE_UNDO: seq<Top> :=
    [Exec(WORK.(id := "s", kind := SpawnSagas)), Exec(WORK.(id := "s:spawn-compensate", kind := Commit))]

  /** It starts and runs, but the undo of its spawn would get the key of its commit. */
  lemma SpawnUndoCollides()
    ensures Accepted(NAMED_LIKE_UNDO)
    ensures var labs := Labs(Start(NAMED_LIKE_UNDO).rows);
      |labs| == 2 && DistinctKeys(labs) && SpawnUndoKey(LabelKey(labs[0])) == LabelKey(labs[1])
  {
    hide Unroll, LoopOk;
    var bp := NAMED_LIKE_UNDO;
    assert StepIds(bp[1..]) == ["s:spawn-compensate"] by { assert bp[1..][1..] == []; }
    assert StepIds(bp) == ["s", "s:spawn-compensate"];
    assert TakeSegment(bp, 2).labels == [];
    assert TakeSegment(bp, 1).labels == [Label(bp[1].spec, None)];
    assert TakeSegment(bp, 0).labels == [Label(bp[0].spec, None), Label(bp[1].spec, None)];
    assert "s" + SPAWN_UNDO_SUFFIX == "s:spawn-compensate";
  }
}
