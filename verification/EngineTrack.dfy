/** Facts about a saga on its forward track that let the engine's queries and id tests be
    read as positions. */
module EngineTrack {
  import opened SagaTypes
  import opened SagaSpec
  import opened Interpreter
  import opened ForwardPath
  import opened ForwardSteps
  import opened Compensation
  import opened Scheduling
  import opened SagaInvariant
  import opened SagaRuns
  import opened LabelKeys

  // ---- Queries

  /** The forward row with this `forward_seq`, if any. */
  function FindSeq(rows: seq<Row>, q: int): (r: Option<nat>)
    ensures r.Some? ==> r.value < |rows| && rows[r.value].seqNo == q
    ensures r.None? ==> forall i :: 0 <= i < |rows| ==> rows[i].seqNo != q
  {
    if rows == [] then None
    else if rows[|rows| - 1].seqNo == q then Some(|rows| - 1)
    else FindSeq(rows[..|rows| - 1], q)
  }

  /** The highest `forward_seq`, -1 when there is no row. */
  function MaxForwardSeq(rows: seq<Row>): (m: int)
    ensures -1 <= m && (forall row <- rows :: row.seqNo <= m)
    ensures m == -1 || exists row <- rows :: row.seqNo == m
  {
    if rows == [] then -1
    else
      var m := MaxForwardSeq(rows[..|rows| - 1]);
      var last := rows[|rows| - 1];
      assert rows == rows[..|rows| - 1] + [last];
      if last.seqNo > m then last.seqNo else m
  }

  lemma NumberedQueries(s: Saga, q: int)
    requires Numbered(s)
    ensures FindSeq(s.rows, q) == if 0 <= q < |s.rows| then Some(q) else None
    ensures MaxForwardSeq(s.rows) == |s.rows| - 1
  {
    var m := MaxForwardSeq(s.rows);
    if s.rows != [] { assert s.rows[|s.rows| - 1] in s.rows; }
    if m != -1 {
      var row :| row in s.rows && row.seqNo == m;
      var i :| 0 <= i < |s.rows| && s.rows[i] == row;
    }
    var f := FindSeq(s.rows, q);
    if 0 <= q < |s.rows| { assert s.rows[q].seqNo == q; }
  }

  // ---- The track

  /** The forward path is intact from row `i` on, and nothing above `i` was touched. The
      comparison with `true` changes nothing in meaning: it keeps the verifier from taking
      the conjunction apart at every call that requires or ensures it. */
  ghost predicate OnTrack(s: Saga, i: nat) {
    TrackFacts(s, i) == true
  }

  ghost predicate TrackFacts(s: Saga, i: nat) {
    && LoopsWellFormed(s.blueprint) && Distinct(StepIds(s.blueprint)) && Numbered(s)
    && Tail(PlanOf(s), i) && LoopsOk(PlanOf(s)) && Unrolled(PlanOf(s))
    && (forall j :: i < j < |s.rows| ==> s.rows[j].status == Pending)
  }

  /** ... and row `i` itself is still to be run (compared with `true` for the same reason). */
  ghost predicate Ahead(s: Saga, i: nat) {
    (OnTrack(s, i) && (i < |s.rows| ==> s.rows[i].status == Pending)) == true
  }

  lemma LiveOnTrack(r: Rules, s: Saga, i: nat)
    requires Inv(r, s) && i < |s.rows| && Fits(s.status, s.rows[i].status)
    ensures OnTrack(s, i)
  {
    var outs, ctx := LiveRow(r, s, i);
    PlanIgnoresSteps(s, ctx);
  }

  lemma PendingAhead(r: Rules, s: Saga)
    requires Inv(r, s) && s.status == SagaPending
    ensures Ahead(s, 0)
  {
  }

  predicate SamePlace(row: Row, row1: Row) {
    row1.lab == row.lab && row1.span == row.span && row1.seqNo == row.seqNo && row1.order == row.order
  }

  /** Only row `i` and things off the forward path differ. */
  ghost predicate SameButRow(s: Saga, s1: Saga, i: nat) {
    && |s1.rows| == |s.rows|
    && (forall j :: 0 <= j < |s.rows| && j != i ==> s1.rows[j] == s.rows[j])
    && (i < |s.rows| ==> SamePlace(s.rows[i], s1.rows[i]))
    && s1.ctx.loops == s.ctx.loops && s1.blueprint == s.blueprint && s1.next == s.next && s1.active == s.active
    && s1.undos == s.undos && s1.nextId >= s.nextId
  }

  lemma SamePlan(s: Saga, s1: Saga, i: nat)
    requires SameButRow(s, s1, i)
    ensures PlanOf(s1) == PlanOf(s) && Left(s1) == Left(s) && PassesLeft(s1) == PassesLeft(s)
  {
    PlanKept(s, s1);
  }

  lemma SameNumbers(s: Saga, s1: Saga, i: nat)
    requires SameButRow(s, s1, i) && Numbered(s)
    ensures Numbered(s1)
  {
    forall j | 0 <= j < |s.rows|
      ensures s1.rows[j].span == s.rows[j].span && s1.rows[j].seqNo == s.rows[j].seqNo && s1.rows[j].order == s.rows[j].order
    {
    }
  }

  lemma TrackKept(s: Saga, s1: Saga, i: nat)
    requires OnTrack(s, i) && SameButRow(s, s1, i)
    ensures OnTrack(s1, i) && Left(s1) == Left(s) && PassesLeft(s1) == PassesLeft(s)
  {
    SamePlan(s, s1, i);
    SameNumbers(s, s1, i);
  }

  /** Past a row that ends no pass the track goes on. */
  lemma TrackNext(s: Saga, i: nat)
    requires OnTrack(s, i) && i < |s.rows| && (i + 1 < |s.rows| || s.active.None?)
    ensures Ahead(s, i + 1)
  {
  }

  // ---- Loop boundaries by step id

  lemma {:induction false} BodyDistinct(bp: seq<Top>, j: nat)
    requires Distinct(StepIds(bp)) && j < |bp| && bp[j].Block?
    ensures Distinct(BodyIds(bp[j].loop.body))
    decreases |bp|
  {
    var head := match bp[0] case Exec(sp) => [sp.id] case Block(l) => BodyIds(l.body);
    DistinctParts(head, StepIds(bp[1..]));
    if j > 0 {
      assert bp[1..][j - 1] == bp[j];
      BodyDistinct(bp[1..], j - 1);
    }
  }

  predicate EndsBody(lab: Label, loop: Loop)
    requires loop.body != []
  {
    lab.spec.id == BodyIds(loop.body)[|loop.body| - 1]
  }

  /** Inside the last pass the last body id appears exactly on the last label. */
  lemma LastBodyStepIsLastLabel(p: Plan, i: nat)
    requires LoopsWellFormed(p.bp) && Distinct(StepIds(p.bp)) && Tail(p, i)
    requires i < |p.labs| && p.active.Some? && p.labs[i].pass.Some?
    ensures var l := CurrentLoop(p);
      LoopOk(l) && p.labs[i].pass.value.loop == l.id && (EndsBody(p.labs[i], l) <==> i + 1 == |p.labs|)
  {
    var l := CurrentLoop(p);
    assert LoopOk(l);
    BodyDistinct(p.bp, p.next - 1);
    var m := i - (|p.labs| - |l.body|);
    assert p.labs[i] == Label(l.body[m], Some(Pass(l.id, LastPass(p))));
    assert BodyIds(l.body)[m] == p.labs[i].spec.id;
    if m < |l.body| - 1 { assert BodyIds(l.body)[m] != BodyIds(l.body)[|l.body| - 1]; }
  }

  /** On track, the last body id appears exactly on the last row. */
  lemma LastBodyStepIsLastRow(s: Saga, i: nat)
    requires OnTrack(s, i) && i < |s.rows|
    ensures s.active.None? ==> s.rows[i].lab.pass.None?
    ensures s.rows[i].lab.pass.Some? ==>
      var loop := FindLoop(s.blueprint, s.rows[i].lab.pass.value.loop);
      loop.Some? && LoopOk(loop.value) && (EndsBody(s.rows[i].lab, loop.value) <==> i + 1 == |s.rows|)
    ensures s.rows[i].lab.pass.None? ==> i + 1 < |s.rows| || s.active.None?
  {
    var p := PlanOf(s);
    assert p.labs[i] == s.rows[i].lab;
    if s.active.Some? {
      FindCurrent(p);
      assert LoopOk(CurrentLoop(p));
      if s.rows[i].lab.pass.Some? { LastBodyStepIsLastLabel(p, i); }
    }
  }

  // ---- Minting

  lemma MintNumbered(s: Saga, labels: seq<Label>)
    requires Numbered(s)
    ensures Numbered(Mint(s, labels))
  {
    var s1 := Mint(s, labels);
    forall j | 0 <= j < |s1.rows|
      ensures s1.rows[j].seqNo == j && s1.rows[j].order == j && s1.rows[j].span < s1.nextId
      ensures j < |s.rows| ==> s1.rows[j] == s.rows[j]
      ensures j >= |s.rows| ==> s1.rows[j].span == s.nextId + (j - |s.rows|) && s1.rows[j].status == Pending
    {
    }
  }

  /** Across a loop boundary the track goes on, with less blueprint, fewer passes or the
      same rows left. */
  lemma TrackCrosses(r: Rules, s: Saga, i: nat)
    requires OnTrack(s, i) && i < |s.rows| && Boundary(r, s, i).Crossed?
    ensures Ahead(Boundary(r, s, i).s, i + 1)
  {
    var s1 := Boundary(r, s, i).s;
    CrossKeepsPlan(r, s, i);
    BoundaryFrame(r, s, i);
    assert Numbered(s1) by { BoundaryNumbered(r, s, i); }
    forall j | i < j < |s1.rows| ensures s1.rows[j].status == Pending {
      if j < |s.rows| { assert s1.rows[..|s.rows|][j] == s.rows[j]; }
    }
  }

  lemma BoundaryNumbered(r: Rules, s: Saga, i: nat)
    requires Numbered(s) && i < |s.rows|
    ensures Numbered(Boundary(r, s, i).s)
  {
    var s1 := Boundary(r, s, i).s;
    BoundaryFrame(r, s, i);
    forall j | 0 <= j < |s1.rows|
      ensures s1.rows[j].seqNo == j && s1.rows[j].order == j && s1.rows[j].span < s1.nextId
      ensures j < |s.rows| ==> s1.rows[j].span == s.rows[j].span
      ensures j >= |s.rows| ==> s1.rows[j].span == s.nextId + (j - |s.rows|)
    {
      if j < |s.rows| { assert s1.rows[..|s.rows|][j] == s.rows[j]; }
    }
  }

  lemma AfterCrossing(r: Rules, e: Env, s: Saga, i: nat)
    requires i < |s.rows| && OnTrack(s, i) && Boundary(r, s, i).Crossed?
    ensures var s1 := Boundary(r, s, i).s;
      Ahead(s1, i + 1) && Descends(s, s1) && After(r, e, s, i) == Go(r, e, s1, i + 1)
  {
    TrackCrosses(r, s, i);
    CrossingDescends(r, s, i);
  }

  predicate EndsPass(s: Saga, i: nat, loop: Loop, k: nat) {
    && i + 1 == |s.rows| && s.rows[i].lab.pass == Some(Pass(loop.id, k))
    && FindLoop(s.blueprint, loop.id) == Some(loop)
  }

  lemma BoundaryExits(r: Rules, s: Saga, i: nat, loop: Loop, k: nat)
    requires EndsPass(s, i, loop, k) && r.until(s.ctx, loop.id, k).UntilTrue?
    ensures Boundary(r, s, i) == Crossed(ExitLoop(s, loop.id, k, loop.max))
  {
  }

  lemma BoundaryContinues(r: Rules, s: Saga, i: nat, loop: Loop, k: nat)
    requires EndsPass(s, i, loop, k) && r.until(s.ctx, loop.id, k).UntilFalse? && k < loop.max
    ensures Boundary(r, s, i) == Crossed(SagaSpec.ContinueLoop(s, loop, k))
  {
  }

  lemma BoundaryBreaks(r: Rules, e: Env, s: Saga, i: nat, loop: Loop, k: nat)
    requires EndsPass(s, i, loop, k)
    requires r.until(s.ctx, loop.id, k).UntilError? || (r.until(s.ctx, loop.id, k).UntilFalse? && k >= loop.max)
    ensures After(r, e, s, i) == LoopFailed(s.(ctx := SetLoop(s.ctx, loop.id, k, loop.max, LoopExhausted)), i)
  {
  }

  /** One pass ended at row `i` and `until` holds: what crossing the boundary means. */
  lemma ExitCrossing(r: Rules, e: Env, s: Saga, i: nat, loop: Loop, k: nat)
    requires OnTrack(s, i) && EndsPass(s, i, loop, k) && r.until(s.ctx, loop.id, k).UntilTrue?
    ensures var s1 := ExitLoop(s, loop.id, k, loop.max);
      After(r, e, s, i) == Go(r, e, s1, i + 1) && Ahead(s1, i + 1) && Descends(s, s1)
  {
    BoundaryExits(r, s, i, loop, k);
    AfterCrossing(r, e, s, i);
  }

  lemma ContinueCrossing(r: Rules, e: Env, s: Saga, i: nat, loop: Loop, k: nat)
    requires OnTrack(s, i) && EndsPass(s, i, loop, k) && r.until(s.ctx, loop.id, k).UntilFalse? && k < loop.max
    ensures var s1 := SagaSpec.ContinueLoop(s, loop, k);
      After(r, e, s, i) == Go(r, e, s1, i + 1) && Ahead(s1, i + 1) && Descends(s, s1)
  {
    BoundaryContinues(r, s, i, loop, k);
    AfterCrossing(r, e, s, i);
  }

  /** Less blueprint, fewer passes, or no new row. */
  ghost predicate Descends(s: Saga, s1: Saga) {
    || Left(s1) < Left(s)
    || (Left(s1) == Left(s) && PassesLeft(s1) < PassesLeft(s))
    || (Left(s1) == Left(s) && PassesLeft(s1) == PassesLeft(s) && |s1.rows| == |s.rows|)
  }

  lemma NothingLeft(r: Rules, e: Env, s: Saga)
    ensures Settle(r, e, Go(r, e, s, |s.rows|), None) == Conclude(s)
  {
  }

  lemma GoOn(r: Rules, e: Env, s: Saga, i: nat)
    requires i < |s.rows| && OnTrack(s, i) && (i + 1 < |s.rows| || s.active.None?)
    ensures After(r, e, s, i) == Go(r, e, s, i + 1) && Ahead(s, i + 1)
  {
    LastBodyStepIsLastRow(s, i);
    TrackNext(s, i);
  }

  lemma SkipOnTrack(s: Saga, i: nat)
    requires i < |s.rows| && OnTrack(s, i)
    ensures OnTrack(SkipRow(s, i), i)
    ensures Left(SkipRow(s, i)) == Left(s) && PassesLeft(SkipRow(s, i)) == PassesLeft(s)
  {
    TrackKept(s, SkipRow(s, i), i);
  }

  lemma FinishOnTrack(s: Saga, i: nat, p: Payload)
    requires i < |s.rows| && OnTrack(s, i)
    ensures OnTrack(FinishRow(s, i, p), i)
    ensures Left(FinishRow(s, i, p)) == Left(s) && PassesLeft(FinishRow(s, i, p)) == PassesLeft(s)
  {
    TrackKept(s, FinishRow(s, i, p), i);
  }

  lemma MarkedOnTrack(s: Saga, i: nat)
    requires i < |s.rows| && OnTrack(s, i)
    ensures var s1 := WithStatus(s, i, InProgress);
      OnTrack(s1, i) && Left(s1) == Left(s) && PassesLeft(s1) == PassesLeft(s)
  {
    TrackKept(s, WithStatus(s, i, InProgress), i);
  }

  /** Marking the row IN_PROGRESS first makes no difference to what running it does. */
  lemma MarkedFirst(r: Rules, e: Env, s: Saga, i: nat, guidance: Option<int>)
    requires i < |s.rows|
    ensures var s1 := WithStatus(s, i, InProgress);
      && Dispatch(r, e, s1, i, guidance) == Dispatch(r, e, s, i, guidance)
      && (forall p :: FinishRow(s1, i, p) == FinishRow(s, i, p))
  {
    var s1 := WithStatus(s, i, InProgress);
    assert WithRow(s1, i, s1.rows[i].(status := InProgress)) == WithRow(s, i, s.rows[i].(status := InProgress));
    match r.resolve(s.ctx, s.rows[i].lab, s.rows[i].retries, guidance)
    case Unresolved(_) =>
    case Resolved(args) =>
      assert WithRow(s1, i, s1.rows[i].(status := InProgress, args := args))
        == WithRow(s, i, s.rows[i].(status := InProgress, args := args));
  }

  lemma RunningAhead(s: Saga, i: nat)
    requires Ahead(s, i)
    ensures Ahead(s.(status := Running), i)
  {
    TrackKept(s, s.(status := Running), i);
  }
}
