/** What one scheduling pass leaves alone, and how it leaves the rows. */
module Scheduling {
  import opened SagaTypes
  import opened SagaSpec
  import opened ForwardPath
  import opened ForwardSteps

  ghost predicate SameSide(s: Saga, s1: Saga) {
    && s1.blueprint == s.blueprint && s1.undos == s.undos && s1.commands == s.commands
    && s1.notices == s.notices && s1.ingested == s.ingested && s1.window == s.window
    && s1.nextId == s.nextId + (|s1.rows| - |s.rows|)
  }

  /** Scheduling touches status, output and held payload of a row, nothing else, and
      never makes a row PENDING again. */
  predicate Advanced(row: Row, row1: Row) {
    && row1 == row.(status := row1.status, output := row1.output, held := row1.held)
    && (row1.status == Pending ==> row.status == Pending)
  }

  ghost predicate RowsGrow(s: Saga, s1: Saga) {
    && |s.rows| <= |s1.rows|
    && (forall j :: 0 <= j < |s.rows| ==> Advanced(s.rows[j], s1.rows[j]))
    && (forall j :: |s.rows| <= j < |s1.rows| ==>
          Advanced(MintedRow(s1.rows[j].lab, j, s.nextId + (j - |s.rows|)), s1.rows[j]))
  }

  /** Failure details are recorded on a row only when it fails or ends an exhausted loop. */
  ghost predicate NoStaleErrors(rows: seq<Row>) {
    forall j :: 0 <= j < |rows| && !Done(rows[j].status) && rows[j].status != Failed && rows[j].status != TimedOut ==>
      rows[j].error.None?
  }

  ghost predicate Grown(s: Saga, s1: Saga) {
    SameSide(s, s1) && RowsGrow(s, s1)
  }

  lemma GrownTwice(s: Saga, s1: Saga, s2: Saga)
    requires Grown(s, s1) && Grown(s1, s2)
    ensures Grown(s, s2)
  {
    forall j | |s.rows| <= j < |s2.rows|
      ensures Advanced(MintedRow(s2.rows[j].lab, j, s.nextId + (j - |s.rows|)), s2.rows[j])
    {
      if j < |s1.rows| { assert Advanced(s1.rows[j], s2.rows[j]); }
    }
    forall j | 0 <= j < |s.rows| ensures Advanced(s.rows[j], s2.rows[j]) {
      assert Advanced(s1.rows[j], s2.rows[j]);
    }
  }

  lemma GrownNumbered(s: Saga, s1: Saga)
    requires Numbered(s) && Grown(s, s1)
    ensures Numbered(s1)
  {
    forall j | 0 <= j < |s1.rows|
      ensures s1.rows[j].seqNo == j && s1.rows[j].order == j && s1.rows[j].span < s1.nextId
      ensures j < |s.rows| ==> s1.rows[j].span == s.rows[j].span
      ensures j >= |s.rows| ==> s1.rows[j].span == s.nextId + (j - |s.rows|)
    {
    }
  }

  lemma GrownClean(s: Saga, s1: Saga)
    requires NoStaleErrors(s.rows) && Grown(s, s1)
    requires forall j :: 0 <= j < |s.rows| && s1.rows[j].status != s.rows[j].status ==>
      Done(s1.rows[j].status) || s.rows[j].error.None?
    ensures NoStaleErrors(s1.rows)
  {
    forall j | 0 <= j < |s1.rows| && !Done(s1.rows[j].status) && s1.rows[j].status != Failed && s1.rows[j].status != TimedOut
      ensures s1.rows[j].error.None?
    {
      if j < |s.rows| { assert Advanced(s.rows[j], s1.rows[j]); }
    }
  }

  lemma BoundaryGrows(r: Rules, s: Saga, i: nat)
    requires i < |s.rows| && Poised(s.rows, i) && Done(s.rows[i].status)
    ensures var s1 := Boundary(r, s, i).s;
      && Grown(s, s1) && Poised(s1.rows, i + 1) && s1.status == s.status
      && (i + 1 < |s1.rows| ==> s1.rows[i + 1].status == Pending)
      && (forall j :: 0 <= j < |s.rows| ==> s1.rows[j] == s.rows[j])
      && (Boundary(r, s, i).Broken? ==> i + 1 == |s1.rows|)
  {
    BoundaryFrame(r, s, i);
    var s1 := Boundary(r, s, i).s;
    forall j | 0 <= j < |s.rows| ensures s1.rows[j] == s.rows[j] {
      assert s1.rows[..|s.rows|][j] == s.rows[j];
    }
  }

  /** How the rows stand when scheduling comes to rest in a running saga. */
  ghost predicate WellStopped(stop: Stop) {
    && stop.s.status == Running
    && match stop
       case Finished(s) => Poised(s.rows, |s.rows|)
       case Parked(s, i) =>
         && i < |s.rows| && Poised(s.rows, i) && s.rows[i].status == InProgress
         && !WorkerKind(s.rows[i].lab.spec.kind)
       case LoopFailed(s, i) => i + 1 == |s.rows| && Poised(s.rows, i + 1)
       case _ => stop.i < |stop.s.rows| && Poised(stop.s.rows, stop.i)
  }

  ghost predicate Stopped(s: Saga, stop: Stop) {
    && WellStopped(stop) && Grown(s, stop.s) && NoStaleErrors(stop.s.rows)
    && (stop.Launch? || stop.Faulted? ==> stop.s.rows[stop.i].error.None?)
  }

  /** Scheduling on hands only untouched rows to a worker. */
  predicate LaunchesPending(stop: Stop)
    requires StopIn(stop)
  {
    stop.Launch? ==> stop.s.rows[stop.i].status == Pending
  }

  lemma RowGrows(s: Saga, s1: Saga, i: nat)
    requires i < |s.rows| == |s1.rows| && NoStaleErrors(s.rows) && SameSide(s, s1)
    requires s1.rows == s.rows[i := s1.rows[i]] && Advanced(s.rows[i], s1.rows[i])
    requires Done(s1.rows[i].status) || s.rows[i].error.None?
    ensures Grown(s, s1) && NoStaleErrors(s1.rows)
  {
  }

  lemma {:induction false} GoStops(r: Rules, e: Env, s: Saga, i: nat)
    requires i <= |s.rows| && s.status == Running && Poised(s.rows, i) && NoStaleErrors(s.rows)
    requires i < |s.rows| ==> s.rows[i].status == Pending
    ensures Stopped(s, Go(r, e, s, i)) && LaunchesPending(Go(r, e, s, i))
    decreases Left(s), PassesLeft(s), |s.rows| - i, 2
  {
    if i < |s.rows| {
      var lab := s.rows[i].lab;
      if Chosen(r, s.ctx, i, lab) {
        if !(lab.spec.hasWhen && r.when(s.ctx, i, lab).WhenError?) { FireStops(r, e, s, i); }
      } else {
        RowGrows(s, SkipRow(s, i), i);
        AfterStops(r, e, SkipRow(s, i), i);
        GrownTwice(s, SkipRow(s, i), Go(r, e, s, i).s);
      }
    }
  }

  lemma {:induction false} FireStops(r: Rules, e: Env, s: Saga, i: nat)
    requires i < |s.rows| && s.status == Running && Poised(s.rows, i) && NoStaleErrors(s.rows) && s.rows[i].error.None?
    ensures Stopped(s, Fire(r, e, s, i))
    ensures s.rows[i].status == Pending || !WorkerKind(s.rows[i].lab.spec.kind) ==> LaunchesPending(Fire(r, e, s, i))
    decreases Left(s), PassesLeft(s), |s.rows| - i, 1
  {
    if !WorkerKind(s.rows[i].lab.spec.kind) {
      RowGrows(s, WithStatus(s, i, InProgress), i);
      if e.native(i).NativeOutput? {
        var s1 := FinishRow(s, i, e.native(i).p);
        RowGrows(s, s1, i);
        AfterStops(r, e, s1, i);
        GrownTwice(s, s1, Fire(r, e, s, i).s);
      }
    }
  }

  lemma {:induction false} AfterStops(r: Rules, e: Env, s: Saga, i: nat)
    requires i < |s.rows| && s.status == Running && Poised(s.rows, i) && Done(s.rows[i].status) && NoStaleErrors(s.rows)
    ensures Stopped(s, After(r, e, s, i)) && LaunchesPending(After(r, e, s, i))
    decreases Left(s), PassesLeft(s), |s.rows| - i, 0
  {
    BoundaryGrows(r, s, i);
    var s1 := Boundary(r, s, i).s;
    GrownClean(s, s1);
    if Boundary(r, s, i).Crossed? {
      CrossingDescends(r, s, i);
      GoStops(r, e, s1, i + 1);
      GrownTwice(s, s1, After(r, e, s, i).s);
    }
  }

  /** Scheduling from row `i` on leaves the rows below alone and comes to rest no lower. */
  predicate Beyond(s: Saga, stop: Stop, i: nat, j: nat) {
    && (stop.Finished? || stop.i >= i)
    && (j < |s.rows| ==> j < |stop.s.rows| && stop.s.rows[j] == s.rows[j])
  }

  lemma {:induction false} GoBeyond(r: Rules, e: Env, s: Saga, i: nat, j: nat)
    requires j < i <= |s.rows|
    ensures Beyond(s, Go(r, e, s, i), i, j)
    decreases Left(s), PassesLeft(s), |s.rows| - i, 2
  {
    if i < |s.rows| {
      if Chosen(r, s.ctx, i, s.rows[i].lab) { FireBeyond(r, e, s, i, j); } else { AfterBeyond(r, e, SkipRow(s, i), i, j); }
    }
  }

  lemma {:induction false} FireBeyond(r: Rules, e: Env, s: Saga, i: nat, j: nat)
    requires j < i < |s.rows|
    ensures Beyond(s, Fire(r, e, s, i), i, j)
    decreases Left(s), PassesLeft(s), |s.rows| - i, 1
  {
    if !WorkerKind(s.rows[i].lab.spec.kind) && e.native(i).NativeOutput? {
      AfterBeyond(r, e, FinishRow(s, i, e.native(i).p), i, j);
    }
  }

  lemma BoundaryBelow(r: Rules, s: Saga, i: nat, j: nat)
    requires j <= i < |s.rows|
    ensures var s1 := Boundary(r, s, i).s; i < |s1.rows| && s1.rows[j] == s.rows[j]
  {
    BoundaryFrame(r, s, i);
    assert Boundary(r, s, i).s.rows[..|s.rows|][j] == s.rows[j];
  }

  lemma {:induction false} AfterBeyond(r: Rules, e: Env, s: Saga, i: nat, j: nat)
    requires j <= i < |s.rows|
    ensures Beyond(s, After(r, e, s, i), i, j)
    ensures After(r, e, s, i).Finished? || After(r, e, s, i).LoopFailed? || After(r, e, s, i).i > i
    decreases Left(s), PassesLeft(s), |s.rows| - i, 0
  {
    BoundaryBelow(r, s, i, j);
    hide Boundary, Left, PassesLeft;
    var s1 := Boundary(r, s, i).s;
    if Boundary(r, s, i).Crossed? {
      CrossingDescends(r, s, i);
      GoBeyond(r, e, s1, i + 1, j);
    }
  }
}
