/** A parked join that succeeds lets its saga run on in the same transaction: when what
    happens then is overtaken by the end of the child. */
module JoinSuccess {
  import opened SagaTypes
  import opened SagaSpec
  import opened ForwardPath
  import opened ForwardSteps
  import opened Compensation
  import opened Scheduling
  import opened SagaInvariant
  import opened ChildWakeup

  /** Why the row would not reach a worker from context `ctx`, if so. */
  function Refusal(r: Rules, ctx: Context, row: Row): Option<Option<Err>> {
    match r.resolve(ctx, row.lab, row.retries, None)
    case Unresolved(err) => Some(err)
    case Resolved(args) =>
      if row.lab.spec.kind != Commit then None
      else if row.lab.spec.toolCount != 1 then Some(Some(Err(false, false)))
      else if row.lab.spec.hasPolicy && r.gate(row.lab, args, None).Some? then Some(r.gate(row.lab, args, None))
      else None
  }

  predicate DirtyErr(err: Option<Err>) { err.Some? && (err.value.timeout || err.value.crash) }

  /** The first undo due below row `q` can be built, and lies above row `top`. */
  ghost predicate DueAbove(e: Env, rows: seq<Row>, q: nat, top: nat)
    requires q <= |rows|
  {
    exists p :: LastUndoBefore(rows, p, q) && top < p && e.undoBuilds(p)
  }

  /** The failure of `row`, number `k`, reached from the join at `j`, leads to compensation;
      the children of the highest spawn row have all ended; and the first undo on the way
      down, which is that of the row itself if the failure is dirty, can be built and lies
      above that spawn. */
  ghost predicate NextOvertakes(e: Env, rows: seq<Row>, j: nat, row: Row, k: nat, err: Option<Err>)
    requires j < |rows|
  {
    var top := HighestSpawn(rows);
    && !row.lab.spec.awaitOperator && top.Some? && e.childrenDone(top.value)
    && if DirtyErr(err) && HasCompensation(row) then e.undoBuilds(k) else DueAbove(e, rows, j, top.value)
  }

  /** Rows `i` to `k` stand outside loops and their gates are false. */
  ghost predicate PassedOver(r: Rules, s: Saga, i: nat, k: nat)
    requires k <= |s.rows|
  {
    forall m :: i <= m < k ==> s.rows[m].lab.pass.None? && !Chosen(r, s.ctx, m, s.rows[m].lab)
  }

  ghost predicate SkippedTo(s: Saga, u: Saga, i: nat, k: nat) {
    && |u.rows| == |s.rows| && u == s.(rows := u.rows)
    && (forall m :: 0 <= m < |s.rows| ==>
          u.rows[m] == if i <= m < k then s.rows[m].(status := Skipped) else s.rows[m])
  }

  /** Scheduling skips them and goes on at row `k`. */
  lemma {:induction false} GoSkips(r: Rules, e: Env, s: Saga, i: nat, k: nat) returns (u: Saga)
    requires i <= k <= |s.rows| && PassedOver(r, s, i, k)
    ensures SkippedTo(s, u, i, k) && Go(r, e, s, i) == Go(r, e, u, k)
    decreases k - i
  {
    if i == k {
      u := s;
    } else {
      var s1 := SkipRow(s, i);
      assert Go(r, e, s, i) == After(r, e, s1, i) == Go(r, e, s1, i + 1);
      u := GoSkips(r, e, s1, i + 1, k);
    }
  }

  /** `rows1` came out of `rows` by scheduling that only skipped rows, from the join at `j` up
      to row `k`. */
  ghost predicate OnlySkipped(rows: seq<Row>, rows1: seq<Row>, j: nat, k: nat) {
    && j < |rows| <= |rows1| && j < k < |rows1| && Poised(rows, j) && rows[j].lab.spec.kind == JoinSagas
    && rows1[j].lab == rows[j].lab
    && (forall m :: 0 <= m < j ==> rows1[m].lab == rows[m].lab && rows1[m].status == rows[m].status)
    && (forall m :: j < m < k ==> rows1[m].status == Skipped)
    && (forall m :: k < m < |rows1| ==> rows1[m].status == Pending)
  }

  lemma SameHighestSpawn(rows: seq<Row>, rows1: seq<Row>, j: nat, k: nat)
    requires OnlySkipped(rows, rows1, j, k) && (IsSpawn(rows1[k]) ==> !Eligible(rows1[k].status))
    ensures HighestSpawn(rows1) == HighestSpawn(rows) && (HighestSpawn(rows).Some? ==> HighestSpawn(rows).value < j)
  {
    var a, b := HighestSpawn(rows), HighestSpawn(rows1);
    assert a.Some? ==> a.value < j && rows1[a.value].status == rows[a.value].status;
    assert b.Some? ==> b.value < j && rows1[b.value].status == rows[b.value].status;
  }

  lemma SameLastUndo(rows: seq<Row>, rows1: seq<Row>, j: nat, k: nat, last: nat)
    requires OnlySkipped(rows, rows1, j, k) && k <= last <= k + 1
    ensures last == k + 1 && NeedsUndo(rows1[k]) ==> forall p :: LastUndoBefore(rows1, p, last) <==> p == k
    ensures last == k || !NeedsUndo(rows1[k]) ==>
      forall p :: LastUndoBefore(rows1, p, last) <==> LastUndoBefore(rows, p, j)
  {
    assert forall m :: 0 <= m < j ==> NeedsUndo(rows1[m]) == NeedsUndo(rows[m]);
    assert forall m :: j <= m < k ==> !NeedsUndo(rows1[m]);
  }

  /** Rows from the join on matter to no walk: the join, skipped rows, rows not begun. */
  lemma SkippedWalk(e: Env, rows: seq<Row>, rows1: seq<Row>, j: nat, k: nat, from: int)
    requires OnlySkipped(rows, rows1, j, k) && (IsSpawn(rows1[k]) ==> !Eligible(rows1[k].status))
    requires from == k || from == k - 1
    ensures var top := HighestSpawn(rows);
      Overtakes(e, rows1, from) <==>
        top.Some? && e.childrenDone(top.value)
        && if from == k && NeedsUndo(rows1[k]) then e.undoBuilds(k) else DueAbove(e, rows, j, top.value)
  {
    SameHighestSpawn(rows, rows1, j, k);
    SameLastUndo(rows, rows1, j, k, from + 1);
    hide Halts, HighestSpawn, LastUndoBefore, Poised, OnlySkipped;
    HaltsBelow(e, rows1, from, from + 1);
  }

  lemma NextFailureOvertakes(e: Env, s: Saga, u: Saga, j: nat, k: nat, err: Option<Err>)
    requires OnlySkipped(s.rows, u.rows, j, k) && !IsSpawn(u.rows[k]) && u.rows[k].status != TimedOut
    ensures FailureOvertakes(e, u, k, err) <==> NextOvertakes(e, s.rows, j, u.rows[k], k, err)
  {
    hide Overtakes, HighestSpawn, DueAbove, Poised;
    SkippedWalk(e, s.rows, WithRow(u, k, FailedRow(u.rows[k], err)).rows, j, k, WalkFrom(u, k, err));
  }

  /** Only the error decides about a refused row. */
  lemma LaunchIsRefusal(r: Rules, e: Env, s: Saga, i: nat)
    requires i < |s.rows| && s.rows[i].status == Pending
    ensures LaunchOvertakes(r, e, s, i) <==>
      Refusal(r, s.ctx, s.rows[i]).Some? && FailureOvertakes(e, s, i, Refusal(r, s.ctx, s.rows[i]).value)
  {
    var row := s.rows[i].(status := InProgress);
    var refusal := Refusal(r, s.ctx, s.rows[i]);
    if refusal.Some? {
      match r.resolve(s.ctx, row.lab, row.retries, None)
      case Unresolved(err) => SameFailure(e, s, WithRow(s, i, row), i, refusal.value);
      case Resolved(args) => SameFailure(e, s, WithRow(s, i, row.(args := args)), i, refusal.value);
    }
  }

  lemma SameFailure(e: Env, s: Saga, s1: Saga, i: nat, err: Option<Err>)
    requires i < |s.rows| == |s1.rows| && s1.rows == s.rows[i := s1.rows[i]] && s1.rows[i].lab == s.rows[i].lab
    requires s.rows[i].status != TimedOut && s1.rows[i].status != TimedOut
    ensures FailureOvertakes(e, s1, i, err) <==> FailureOvertakes(e, s, i, err)
  {
    hide Halts, HighestSpawn;
    if WalkFrom(s, i, err) >= 0 {
      ErrorsDoNotMatter(e, WithRow(s, i, FailedRow(s.rows[i], err)).rows,
                        WithRow(s1, i, FailedRow(s1.rows[i], err)).rows, WalkFrom(s, i, err));
    }
  }

  /** The join is done, and scheduling goes on behind it. */
  lemma JoinGoesOn(r: Rules, e: Env, s: Saga, j: nat, p: Payload)
    requires Inv(r, s) && FindJoin(s.rows) == Some(j) && e.native(j) == NativeOutput(p)
    ensures s.status == Running && Poised(s.rows, j)
    ensures WakeSafe(r, e, s) <==> !StopOvertakes(r, e, Go(r, e, FinishRow(s, j, p), j + 1))
  {
    ActiveIsLive(r, s, j);
    var outs, ctx := LiveRow(r, s, j);
    NativeOutsideLoops(r, s, j);
    assert Fire(r, e, s, j) == After(r, e, FinishRow(s, j, p), j);
  }

  /** How scheduling fares at a row `k` for a worker. */
  lemma GoAtWorker(r: Rules, e: Env, u: Saga, k: nat)
    requires k < |u.rows| && WorkerKind(u.rows[k].lab.spec.kind) && Chosen(r, u.ctx, k, u.rows[k].lab)
    ensures Go(r, e, u, k) ==
      if Misfires(r, u.ctx, k, u.rows[k].lab) then Faulted(u, k, r.when(u.ctx, k, u.rows[k].lab).err) else Launch(u, k)
  {
  }

  /** What the saga runs on to when its parked join succeeds: past gated steps outside loops
      to the end of its rows, to a gate that fails, or to a worker step. It is overtaken
      exactly when that step fails on the spot and leads to such a walk. */
  lemma JoinSucceedsExact(r: Rules, e: Env, s: Saga, j: nat, p: Payload, k: nat)
    requires Inv(r, s) && FindJoin(s.rows) == Some(j) && e.native(j) == NativeOutput(p)
    requires j < k <= |s.rows| && PassedOver(r, FinishRow(s, j, p), j + 1, k)
    ensures var ctx := FinishRow(s, j, p).ctx;
      && (k == |s.rows| ==> WakeSafe(r, e, s))
      && (k < |s.rows| && Misfires(r, ctx, k, s.rows[k].lab) && WorkerKind(s.rows[k].lab.spec.kind) ==>
            (WakeSafe(r, e, s) <==> !NextOvertakes(e, s.rows, j, s.rows[k], k, r.when(ctx, k, s.rows[k].lab).err)))
      && (k < |s.rows| && Starts(r, ctx, k, s.rows[k].lab) ==>
            var refusal := Refusal(r, ctx, s.rows[k]);
            (WakeSafe(r, e, s) <==> refusal.None? || !NextOvertakes(e, s.rows, j, s.rows[k], k, refusal.value)))
  {
    hide Inv, WakeSafe, Go, Fire, NextOvertakes, Poised, FailureOvertakes, LaunchOvertakes, Refusal;
    JoinGoesOn(r, e, s, j, p);
    PendingAbove(s.rows, j);
    var t := FinishRow(s, j, p);
    var u := GoSkips(r, e, t, j + 1, k);
    if k == |s.rows| {
      GoEnds(r, e, u);
    } else if WorkerKind(s.rows[k].lab.spec.kind) && Chosen(r, t.ctx, k, s.rows[k].lab) {
      GoAtWorker(r, e, u, k);
      if Misfires(r, t.ctx, k, s.rows[k].lab) {
        NextFailureOvertakes(e, s, u, j, k, r.when(t.ctx, k, s.rows[k].lab).err);
      } else {
        LaunchIsRefusal(r, e, u, k);
        if Refusal(r, t.ctx, s.rows[k]).Some? {
          NextFailureOvertakes(e, s, u, j, k, Refusal(r, t.ctx, s.rows[k]).value);
        }
      }
    }
  }

  lemma PendingAbove(rows: seq<Row>, j: nat)
    requires Poised(rows, j)
    ensures forall m :: j < m < |rows| ==> rows[m].status == Pending
  {
  }

  /** The row is a worker step and its gate sends it to run. */
  predicate Starts(r: Rules, ctx: Context, k: nat, lab: Label) {
    WorkerKind(lab.spec.kind) && Chosen(r, ctx, k, lab) && !Misfires(r, ctx, k, lab)
  }

  // ---- ... whatever it meets: loops, spawns, other joins

  /** How scheduling that came to rest breaks down, if it does. */
  datatype Breakdown = Holds | StepFails(err: Option<Err>) | LoopEnds

  function BreakdownOf(r: Rules, stop: Stop): Breakdown
    requires StopIn(stop)
  {
    match stop
    case Finished(_) => Holds
    case Parked(_, _) => Holds
    case Launch(u, k) =>
      var refusal := Refusal(r, u.ctx, u.rows[k]);
      if refusal.Some? then StepFails(refusal.value) else Holds
    case Faulted(_, _, err) => StepFails(err)
    case LoopFailed(_, _) => LoopEnds
  }

  /** The walk from `from` down is overtaken: the children of the highest spawn row have all
      ended, and either the first undo due lies above it, or that row has failed itself and
      the walk below it stays at work. */
  ghost predicate TopOvertakes(e: Env, rows: seq<Row>, from: int)
    requires -1 <= from < |rows|
  {
    var top, halt := HighestSpawn(rows), Halts(e, rows, from);
    && top.Some? && e.childrenDone(top.value)
    && if top.value <= from then DueAbove(e, rows, from + 1, top.value)
       else halt.Some? && (IsSpawn(rows[halt.value]) || e.undoBuilds(halt.value))
  }

  lemma OvertakesExact(e: Env, rows: seq<Row>, from: int)
    requires -1 <= from < |rows|
    ensures Overtakes(e, rows, from) <==> TopOvertakes(e, rows, from)
  {
    HaltsBelow(e, rows, from, from + 1);
  }

  /** The breakdown at row `k` of `rows` starts such a walk. */
  ghost predicate BreakdownOvertakes(e: Env, rows: seq<Row>, k: nat, b: Breakdown)
    requires k < |rows|
  {
    match b
    case Holds => false
    case LoopEnds => TopOvertakes(e, rows, k)
    case StepFails(err) =>
      var from := if DirtyErr(err) then k else k - 1;
      !rows[k].lab.spec.awaitOperator && from >= 0 && TopOvertakes(e, rows[k := FailedRow(rows[k], err)], from)
  }

  lemma StopOvertakesExact(r: Rules, e: Env, stop: Stop)
    requires StopIn(stop) && !stop.Finished?
    requires stop.Launch? ==> stop.s.rows[stop.i].status == Pending
    requires stop.Faulted? ==> stop.s.rows[stop.i].status != TimedOut
    ensures StopOvertakes(r, e, stop) <==> BreakdownOvertakes(e, stop.s.rows, stop.i, BreakdownOf(r, stop))
  {
    hide Overtakes, TopOvertakes, Refusal, LaunchOvertakes;
    var u, k := stop.s, stop.i;
    if stop.Launch? { LaunchIsRefusal(r, e, u, k); }
    if BreakdownOf(r, stop).StepFails? {
      var err := BreakdownOf(r, stop).err;
      if WalkFrom(u, k, err) >= 0 {
        OvertakesExact(e, u.rows[k := FailedRow(u.rows[k], err)], WalkFrom(u, k, err));
      }
    }
    OvertakesExact(e, u.rows, k);
  }

  /** A parked join that succeeds, in full: the saga runs on, through loops, spawns and other
      joins, until scheduling comes to rest, and is overtaken exactly when it breaks down there
      and the rows as they then stand say so. */
  lemma JoinRunsOnExact(r: Rules, e: Env, s: Saga, j: nat, p: Payload)
    requires Inv(r, s) && FindJoin(s.rows) == Some(j) && e.native(j) == NativeOutput(p)
    ensures var stop := Go(r, e, FinishRow(s, j, p), j + 1);
      WakeSafe(r, e, s) <==>
        stop.Finished? || !BreakdownOvertakes(e, stop.s.rows, stop.i, BreakdownOf(r, stop))
  {
    JoinGoesOn(r, e, s, j, p);
    JoinStops(r, e, s, j, p);
    hide Inv, Go, WakeSafe, BreakdownOvertakes;
    var stop := Go(r, e, FinishRow(s, j, p), j + 1);
    if !stop.Finished? { StopOvertakesExact(r, e, stop); }
  }

  lemma JoinStops(r: Rules, e: Env, s: Saga, j: nat, p: Payload)
    requires Inv(r, s) && FindJoin(s.rows) == Some(j) && e.native(j) == NativeOutput(p)
    ensures var stop := Go(r, e, FinishRow(s, j, p), j + 1);
      && Stopped(FinishRow(s, j, p), stop) && LaunchesPending(stop)
      && (stop.Faulted? ==> stop.s.rows[stop.i].status != TimedOut)
  {
    ActiveIsLive(r, s, j);
    var outs, ctx := LiveRow(r, s, j);
    NativeOutsideLoops(r, s, j);
    var outs1 := FinishInv(r, e, s, j, p, outs, ctx);
    GoNeverTimedOut(r, e, FinishRow(s, j, p), j + 1);
  }

  /** A row at which scheduling fails was pending, or is running in place. */
  lemma {:induction false} GoNeverTimedOut(r: Rules, e: Env, s: Saga, i: nat)
    requires i <= |s.rows| && (forall m :: i <= m < |s.rows| ==> s.rows[m].status == Pending)
    ensures Go(r, e, s, i).Faulted? ==> Go(r, e, s, i).s.rows[Go(r, e, s, i).i].status != TimedOut
    decreases Left(s), PassesLeft(s), |s.rows| - i, 2
  {
    hide Go, After, Boundary;
    GoEnds(r, e, s);
    if i < |s.rows| {
      GoCases(r, e, s, i);
      if !Chosen(r, s.ctx, i, s.rows[i].lab) {
        AfterNeverTimedOut(r, e, SkipRow(s, i), i);
      } else if !WorkerKind(s.rows[i].lab.spec.kind) && e.native(i).NativeOutput? {
        AfterNeverTimedOut(r, e, FinishRow(s, i, e.native(i).p), i);
      }
    }
  }

  lemma {:induction false} AfterNeverTimedOut(r: Rules, e: Env, s: Saga, i: nat)
    requires i < |s.rows| && (forall m :: i < m < |s.rows| ==> s.rows[m].status == Pending)
    ensures After(r, e, s, i).Faulted? ==> After(r, e, s, i).s.rows[After(r, e, s, i).i].status != TimedOut
    decreases Left(s), PassesLeft(s), |s.rows| - i, 0
  {
    hide Go, Boundary;
    AfterPending(r, s, i);
    if Boundary(r, s, i).Crossed? {
      CrossingDescends(r, s, i);
      GoNeverTimedOut(r, e, Boundary(r, s, i).s, i + 1);
    }
  }

  lemma AfterPending(r: Rules, s: Saga, i: nat)
    requires i < |s.rows| && (forall m :: i < m < |s.rows| ==> s.rows[m].status == Pending)
    ensures var s1 := Boundary(r, s, i).s;
      i < |s1.rows| && forall m :: i < m < |s1.rows| ==> s1.rows[m].status == Pending
  {
    BoundaryFrame(r, s, i);
    var s1 := Boundary(r, s, i).s;
    forall m | i < m < |s1.rows| ensures s1.rows[m].status == Pending {
      if m < |s.rows| { assert s1.rows[..|s.rows|][m] == s.rows[m]; }
    }
  }

  /** When only rows were skipped before the stop, the stored rows decide. */
  ghost predicate SkipOvertakes(e: Env, rows: seq<Row>, j: nat, row: Row, k: nat, b: Breakdown)
    requires j < |rows|
  {
    match b
    case Holds => false
    case StepFails(err) => NextOvertakes(e, rows, j, row, k, err)
    case LoopEnds =>
      var top := HighestSpawn(rows); top.Some? && e.childrenDone(top.value) && DueAbove(e, rows, j, top.value)
  }

  lemma SkipStopExact(r: Rules, e: Env, s: Saga, stop: Stop, j: nat)
    requires StopIn(stop) && SkipsOn(s, stop, j) && OnlySkipped(s.rows, stop.s.rows, j, stop.i)
    requires stop.Launch? ==> stop.s.rows[stop.i].status == Pending
    requires stop.Faulted? ==> stop.s.rows[stop.i].status != TimedOut
    ensures StopOvertakes(r, e, stop) <==>
      SkipOvertakes(e, s.rows, j, stop.s.rows[stop.i], stop.i, BreakdownOf(r, stop))
  {
    hide OnlySkipped, NextOvertakes, DueAbove, FailureOvertakes, LaunchOvertakes, Refusal, HighestSpawn, Overtakes;
    var u, k := stop.s, stop.i;
    match stop
    case Parked(_, _) =>
    case Launch(_, _) =>
      LaunchIsRefusal(r, e, u, k);
      var refusal := Refusal(r, u.ctx, u.rows[k]);
      if refusal.Some? { NextFailureOvertakes(e, s, u, j, k, refusal.value); }
    case Faulted(_, _, err) => NextFailureOvertakes(e, s, u, j, k, err);
    case LoopFailed(_, _) => SkippedWalk(e, s.rows, u.rows, j, k, k);
  }

  /** The same by the stored rows alone when the saga only skipped rows on its way, through
      any number of passes, to a step that is no spawn or to the end of a loop. */
  lemma JoinSkipsExact(r: Rules, e: Env, s: Saga, j: nat, p: Payload)
    requires Inv(r, s) && FindJoin(s.rows) == Some(j) && e.native(j) == NativeOutput(p)
    requires SkipsOn(s, Go(r, e, FinishRow(s, j, p), j + 1), j)
    ensures var stop := Go(r, e, FinishRow(s, j, p), j + 1);
      WakeSafe(r, e, s) <==> !SkipOvertakes(e, s.rows, j, stop.s.rows[stop.i], stop.i, BreakdownOf(r, stop))
  {
    hide Poised, Inv, Go, WakeSafe, Stopped, OnlySkipped, StopOvertakes, SkipOvertakes, BreakdownOf;
    JoinIs(s, j);
    JoinGoesOn(r, e, s, j, p);
    JoinStops(r, e, s, j, p);
    SkipsOnlySkip(r, e, s, j, p);
    SkipStopExact(r, e, s, Go(r, e, FinishRow(s, j, p), j + 1), j);
  }

  ghost predicate SkipsOn(s: Saga, stop: Stop, j: nat) {
    && !stop.Finished? && j < stop.i < |stop.s.rows|
    && (forall m :: j < m < stop.i ==> stop.s.rows[m].status == Skipped)
    && !IsSpawn(stop.s.rows[stop.i])
    && (stop.LoopFailed? ==> stop.s.rows[stop.i].status == Skipped)
  }

  /** What a finished scheduling pass says about the rows around the one it came to. */
  lemma StopSurroundings(t: Saga, stop: Stop)
    requires Stopped(t, stop) && !stop.Finished?
    ensures |t.rows| <= |stop.s.rows| && stop.i < |stop.s.rows|
    ensures forall m :: stop.i < m < |stop.s.rows| ==> stop.s.rows[m].status == Pending
  {
  }

  lemma GoKeepsBelow(r: Rules, e: Env, t: Saga, j: nat)
    requires j < |t.rows|
    ensures var stop := Go(r, e, t, j + 1);
      |stop.s.rows| > j && forall m :: 0 <= m <= j ==> stop.s.rows[m] == t.rows[m]
  {
    hide Go;
    GoBeyond(r, e, t, j + 1, j);
    forall m | 0 <= m <= j ensures Go(r, e, t, j + 1).s.rows[m] == t.rows[m] { GoBeyond(r, e, t, j + 1, m); }
  }

  lemma JoinIs(s: Saga, j: nat)
    requires FindJoin(s.rows) == Some(j)
    ensures j < |s.rows| && s.rows[j].lab.spec.kind == JoinSagas
  {
  }

  lemma SkipsOnlySkip(r: Rules, e: Env, s: Saga, j: nat, p: Payload)
    requires Inv(r, s) && FindJoin(s.rows) == Some(j) && e.native(j) == NativeOutput(p)
    requires SkipsOn(s, Go(r, e, FinishRow(s, j, p), j + 1), j)
    ensures var stop := Go(r, e, FinishRow(s, j, p), j + 1); OnlySkipped(s.rows, stop.s.rows, j, stop.i)
  {
    hide Inv, Go, Stopped, WakeSafe, StopOvertakes, LaunchesPending, FindJoin, Poised;
    JoinIs(s, j);
    JoinGoesOn(r, e, s, j, p);
    JoinStops(r, e, s, j, p);
    var t := FinishRow(s, j, p);
    StopSurroundings(t, Go(r, e, t, j + 1));
    GoKeepsBelow(r, e, t, j);
  }
}
