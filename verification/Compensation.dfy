/** LIFO compensation: order, uniqueness and completeness of the undo rows. */
module Compensation {
  import opened SagaTypes
  import opened SagaSpec
  import opened ForwardPath

  /** No forward row is running or held. */
  ghost predicate Quiet(s: Saga) {
    forall i :: 0 <= i < |s.rows| ==> s.rows[i].status != InProgress && s.rows[i].status != AwaitingHuman
  }

  ghost predicate Placed(s: Saga, u: Undo) {
    && 0 <= u.seqNo < |s.rows| && u.seqNo <= s.window
    && u.forward == s.rows[u.seqNo].span
    && NeedsUndo(s.rows[u.seqNo])
    && OwnUndoKey(s.rows[u.seqNo], u)
  }

  /** An undo row has a key of its own, or the suffixed key of the spawn row it undoes. */
  predicate OwnUndoKey(row: Row, u: Undo) {
    u.key == UndoKey(u.span) || (row.lab.spec.kind == SpawnSagas && u.key == SpawnUndoKey(row.key))
  }

  predicate Descending(undos: seq<Undo>) {
    forall i, j :: 0 <= i < j < |undos| ==> undos[i].seqNo > undos[j].seqNo
  }

  predicate OnlyNewestOpen(undos: seq<Undo>) {
    forall i :: 0 <= i < |undos| - 1 ==> undos[i].status == Compensated
  }

  /** Undo rows run strictly downwards from the start of the window, each for a row that
      needs one, and only the newest may be unfinished. */
  ghost predicate Ladder(s: Saga) {
    && -1 <= s.window < |s.rows|
    && (forall u <- s.undos :: Placed(s, u))
    && Descending(s.undos)
    && OnlyNewestOpen(s.undos)
  }

  predicate Undone(s: Saga, q: int) {
    exists u <- s.undos :: u.seqNo == q
  }

  /** Every row from `q` up to the start of the window that needs an undo has one. */
  ghost predicate Covered(s: Saga, q: int) {
    forall p :: q <= p <= s.window && 0 <= p < |s.rows| && NeedsUndo(s.rows[p]) ==> Undone(s, p)
  }

  function Cursor(s: Saga): int {
    if s.undos == [] then s.window + 1 else s.undos[|s.undos| - 1].seqNo
  }

  predicate InFlight(s: Saga) {
    s.undos != [] && s.undos[|s.undos| - 1].status == Compensating
  }

  /** The walk waits for the children of spawn row `p`. */
  ghost predicate WaitsAt(s: Saga, p: int) {
    && 0 <= p < Cursor(s) && p < |s.rows|
    && NeedsUndo(s.rows[p]) && s.rows[p].lab.spec.kind == SpawnSagas
    && forall q :: p < q < Cursor(s) && q < |s.rows| ==> !NeedsUndo(s.rows[q])
  }

  predicate NewestIn(undos: seq<Undo>, a: StepStatus, b: StepStatus) {
    undos != [] ==> undos[|undos| - 1].status == a || undos[|undos| - 1].status == b
  }

  ghost predicate Lifo(s: Saga) {
    match s.status
    case SagaCompensating =>
      && Ladder(s) && Covered(s, Cursor(s)) && NewestIn(s.undos, Compensating, Compensated)
      && (InFlight(s) || exists p :: WaitsAt(s, p))
    case SagaCompensated =>
      Ladder(s) && Covered(s, 0) && NewestIn(s.undos, Compensated, Compensated)
    case SagaFailed =>
      Ladder(s) && Covered(s, Cursor(s)) && NewestIn(s.undos, Failed, Compensated)
    case _ => s.undos == [] && s.window == -1
  }

  // ---- What a walk leaves alone

  predicate Winds(st: StepStatus, st1: StepStatus) {
    st1 == st || st1 == Failed || (st1 == Skipped && st == Pending)
  }

  /** Pending rows may become SKIPPED and any row FAILED; everything else about the forward
      path stays. */
  ghost predicate ForwardKept(s: Saga, s1: Saga) {
    && s1.blueprint == s.blueprint && s1.ctx == s.ctx && s1.next == s.next && s1.active == s.active
    && |s1.rows| == |s.rows|
    && (forall i :: 0 <= i < |s.rows| ==> s1.rows[i] == s.rows[i].(status := s1.rows[i].status, error := s1.rows[i].error))
    && (forall i :: 0 <= i < |s.rows| ==> Winds(s.rows[i].status, s1.rows[i].status))
  }

  /** An undo in flight has its command in the outbox, and no other command has its key. */
  predicate Dispatched(commands: map<Key, Command>, u: Undo) {
    && (u.status != Compensated || u.key.UndoKey? ==> u.key == UndoKey(u.span))
    && (u.status == Compensating ==> u.key in commands)
    && (u.key == UndoKey(u.span) && u.key in commands ==> commands[u.key] == DoUndo(u.span, u.forward))
  }

  predicate NoFutureUndo(s: Saga) {
    forall k <- s.commands :: k.UndoKey? ==> k.span < s.nextId
  }

  /** Undo rows are only added, commands too, and only under fresh undo keys. */
  ghost predicate UndosGrow(s: Saga, s1: Saga) {
    && |s.undos| <= |s1.undos| && s1.undos[..|s.undos|] == s.undos
    && s1.nextId >= s.nextId
    && (forall k <- s.commands :: k in s1.commands && s1.commands[k] == s.commands[k])
    && (forall k <- s1.commands :: k in s.commands || (k.UndoKey? && s.nextId <= k.span < s1.nextId && s1.commands[k].DoUndo?))
    && (forall j :: |s.undos| <= j < |s1.undos| ==>
          && s.nextId <= s1.undos[j].span < s1.nextId
          && (NoFutureUndo(s) ==> Dispatched(s1.commands, s1.undos[j])))
  }

  predicate Winding(st: SagaStatus) {
    st == SagaCompensating || st == SagaCompensated || st == SagaFailed
  }

  /** Everything a walk from `s` to `s1` leaves alone. */
  ghost predicate Framed(s: Saga, s1: Saga) {
    && ForwardKept(s, s1) && UndosGrow(s, s1) && Quiet(s1) && Numbered(s1)
    && s1.window == s.window && s1.ingested == s.ingested
    && s1.status in {s.status, SagaCompensated, SagaFailed}
    && s.notices <= s1.notices <= s.notices + {NoticeCompensated, NoticeFailed}
  }

  lemma FramedTwice(s: Saga, s1: Saga, s2: Saga)
    requires Framed(s, s1) && Framed(s1, s2)
    ensures Framed(s, s2)
  {
    assert s2.undos[..|s.undos|] == s1.undos[..|s.undos|];
    forall j | |s.undos| <= j < |s2.undos|
      ensures s.nextId <= s2.undos[j].span < s2.nextId
    {
      if j < |s1.undos| { assert s2.undos[..|s1.undos|][j] == s1.undos[j]; }
    }
  }

  lemma ConcludeFramed(s: Saga)
    requires Quiet(s) && Numbered(s)
    ensures Framed(s, ConcludeCompensated(s)) && Framed(s, ConcludeFailed(s))
  {
  }

  lemma SpawnUndoFramed(s: Saga, q: nat)
    requires Quiet(s) && Numbered(s) && q < |s.rows|
    ensures Framed(s, AddSpawnUndo(s, q))
  {
  }

  lemma UndoSentFramed(e: Env, s: Saga, q: nat)
    requires Quiet(s) && Numbered(s) && q < |s.rows| && e.undoBuilds(q)
    ensures Framed(s, ScheduleUndo(e, s, q))
  {
    var s1 := ScheduleUndo(e, s, q);
    assert s1.undos[..|s.undos|] == s.undos;
    assert NoFutureUndo(s) ==> UndoKey(s.nextId) !in s.commands;
    assert Numbered(s1);
  }

  lemma UndoUnbuiltFramed(e: Env, s: Saga, q: nat)
    requires Quiet(s) && Numbered(s) && q < |s.rows| && !e.undoBuilds(q)
    ensures Framed(s, ScheduleUndo(e, s, q))
  {
    var row := s.rows[q].(status := Failed, error := Some(Err(false, false)));
    var s1 := WithRow(s, q, row).(nextId := s.nextId + 1);
    assert Numbered(s1);
    ConcludeFramed(s1);
  }

  lemma ScheduleUndoFramed(e: Env, s: Saga, q: nat)
    requires Quiet(s) && Numbered(s) && q < |s.rows|
    ensures Framed(s, ScheduleUndo(e, s, q))
  {
    if e.undoBuilds(q) { UndoSentFramed(e, s, q); } else { UndoUnbuiltFramed(e, s, q); }
  }

  lemma {:induction false} UnwindFrame(e: Env, s: Saga, q: int)
    requires Quiet(s) && Numbered(s)
    ensures Framed(s, Unwind(e, s, q))
    decreases q + 1
  {
    if q < 0 {
      ConcludeFramed(s);
    } else if q >= |s.rows| {
      UnwindFrame(e, s, q - 1);
    } else {
      var row := s.rows[q];
      if !NeedsUndo(row) || HasUndo(s.undos, row.span, Compensated) {
        UnwindFrame(e, s, q - 1);
      } else if !HasUndo(s.undos, row.span, Compensating) {
        if row.lab.spec.kind == SpawnSagas {
          if e.childrenDone(q) {
            SpawnUndoFramed(s, q);
            UnwindFrame(e, AddSpawnUndo(s, q), q - 1);
            FramedTwice(s, AddSpawnUndo(s, q), Unwind(e, AddSpawnUndo(s, q), q - 1));
          }
        } else {
          ScheduleUndoFramed(e, s, q);
        }
      }
    }
  }

  // ---- The walk builds the ladder

  lemma NoUndoBelow(s: Saga, q: nat)
    requires Numbered(s) && q < |s.rows| && (forall u <- s.undos :: Placed(s, u) && u.seqNo != q)
    ensures !HasUndo(s.undos, s.rows[q].span, Compensated) && !HasUndo(s.undos, s.rows[q].span, Compensating)
  {
    forall u | u in s.undos ensures u.forward != s.rows[q].span {
      assert Placed(s, u);
    }
  }

  /** Adding an undo row for the next row down keeps the ladder. */
  lemma LadderDown(s: Saga, s1: Saga, q: nat, u: Undo)
    requires Ladder(s) && q < |s.rows| && q <= s.window && NeedsUndo(s.rows[q])
    requires forall v <- s.undos :: v.status == Compensated && v.seqNo > q
    requires s1.rows == s.rows && s1.window == s.window && s1.undos == s.undos + [u]
    requires u.seqNo == q && u.forward == s.rows[q].span && OwnUndoKey(s.rows[q], u)
    requires Covered(s, q + 1)
    ensures Ladder(s1) && Covered(s1, q) && Cursor(s1) == q
  {
    forall v | v in s1.undos ensures Placed(s1, v) {
      if v in s.undos { assert Placed(s, v); }
    }
    forall p | q <= p <= s1.window && 0 <= p < |s1.rows| && NeedsUndo(s1.rows[p]) ensures Undone(s1, p) {
      if p == q { assert u in s1.undos; } else {
        assert Undone(s, p);
        var v :| v in s.undos && v.seqNo == p;
        assert v in s1.undos;
      }
    }
  }

  /** Status changes that do not touch who needs an undo keep ladder and cover. */
  lemma LadderKept(s: Saga, s1: Saga, q: int)
    requires Ladder(s) && Covered(s, q) && s1.undos == s.undos && s1.window == s.window && |s1.rows| == |s.rows|
    requires forall i :: 0 <= i < |s.rows| ==>
      s1.rows[i].span == s.rows[i].span && s1.rows[i].key == s.rows[i].key && s1.rows[i].lab == s.rows[i].lab
      && NeedsUndo(s1.rows[i]) == NeedsUndo(s.rows[i])
    ensures Ladder(s1) && Covered(s1, q)
  {
    forall u | u in s1.undos ensures Placed(s1, u) { assert Placed(s, u); }
    forall p | q <= p <= s1.window && 0 <= p < |s1.rows| && NeedsUndo(s1.rows[p]) ensures Undone(s1, p) {
      assert Undone(s, p);
    }
  }

  /** The walk may go on at `q`: everything above is undone. */
  ghost predicate Ready(s: Saga, q: int) {
    && Numbered(s) && s.status == SagaCompensating && Ladder(s)
    && -1 <= q <= s.window
    && (forall u <- s.undos :: u.status == Compensated && u.seqNo > q)
    && Covered(s, q + 1)
  }

  lemma ConcludeLifo(s: Saga)
    requires Ready(s, -1)
    ensures Lifo(ConcludeCompensated(s))
  {
    LadderKept(s, ConcludeCompensated(s), 0);
  }

  lemma SpawnUndoReady(s: Saga, q: nat)
    requires Ready(s, q) && NeedsUndo(s.rows[q]) && s.rows[q].lab.spec.kind == SpawnSagas
    ensures Ready(AddSpawnUndo(s, q), q - 1)
  {
    var s1 := AddSpawnUndo(s, q);
    LadderDown(s, s1, q, s1.undos[|s.undos|]);
    NumberedSpawnUndo(s, q);
  }

  lemma ScheduleLifo(e: Env, s: Saga, q: nat)
    requires Ready(s, q) && NeedsUndo(s.rows[q])
    ensures Lifo(ScheduleUndo(e, s, q))
  {
    var s1 := ScheduleUndo(e, s, q);
    if e.undoBuilds(q) {
      LadderDown(s, s1, q, s1.undos[|s.undos|]);
    } else {
      LadderKept(s, s1, q + 1);
      assert Cursor(s1) >= q + 1;
    }
  }

  lemma {:induction false} UnwindLifo(e: Env, s: Saga, q: int)
    requires Ready(s, q)
    ensures Lifo(Unwind(e, s, q))
    decreases q + 1
  {
    if q < 0 {
      ConcludeLifo(s);
    } else {
      NoUndoBelow(s, q);
      if !NeedsUndo(s.rows[q]) {
        UnwindLifo(e, s, q - 1);
      } else if s.rows[q].lab.spec.kind == SpawnSagas {
        if e.childrenDone(q) {
          SpawnUndoReady(s, q);
          UnwindLifo(e, AddSpawnUndo(s, q), q - 1);
        } else {
          ParksHere(s, q);
          ParkedLifo(s, q);
        }
      } else {
        ScheduleLifo(e, s, q);
      }
    }
  }

  lemma ParkedLifo(s: Saga, q: nat)
    requires Ready(s, q) && WaitsAt(s, q)
    ensures Lifo(s)
  {
    if s.undos != [] { assert s.undos[|s.undos| - 1] in s.undos; }
    assert Covered(s, Cursor(s));
  }

  lemma ParksHere(s: Saga, q: nat)
    requires Ladder(s) && q <= s.window && Covered(s, q + 1)
    requires forall u <- s.undos :: u.seqNo > q
    requires NeedsUndo(s.rows[q]) && s.rows[q].lab.spec.kind == SpawnSagas
    ensures WaitsAt(s, q)
  {
    UndoneAbove(s);
    assert Cursor(s) <= s.window + 1 by {
      if s.undos != [] { assert s.undos[|s.undos| - 1] in s.undos; }
    }
    forall p | q < p < Cursor(s) && p < |s.rows| ensures !NeedsUndo(s.rows[p]) {
      assert !Undone(s, p);
    }
  }

  lemma UndoneAbove(s: Saga)
    requires Descending(s.undos)
    ensures forall p :: Undone(s, p) ==> p >= Cursor(s)
  {
    forall p | Undone(s, p) ensures p >= Cursor(s) {
      var u :| u in s.undos && u.seqNo == p;
      var j :| 0 <= j < |s.undos| && s.undos[j] == u;
    }
  }

  /** Compensation that starts in a saga without undo rows. */
  lemma StartUnwindLifo(e: Env, s: Saga, from: int)
    requires Numbered(s) && s.undos == [] && 0 <= from < |s.rows|
    ensures Lifo(StartUnwind(e, s, from))
  {
    UnwindLifo(e, s.(status := SagaCompensating, window := from), from);
  }

  // ---- Replies and operator retries

  /** The newest undo row, and it alone, is the one in flight. */
  lemma OpenIsNewest(s: Saga, u: nat)
    requires Lifo(s) && u < |s.undos| && s.undos[u].status != Compensated
    ensures u == |s.undos| - 1
    ensures s.undos[u].status == Compensating ==> s.status == SagaCompensating
    ensures s.undos[u].status == Failed ==> s.status == SagaFailed
    ensures s.undos[u].status == Compensating || s.undos[u].status == Failed
  {
  }

  lemma WithUndoStatus(s: Saga, s1: Saga, u: nat, st: StepStatus)
    requires Ladder(s) && Covered(s, Cursor(s)) && u + 1 == |s.undos|
    requires s1.rows == s.rows && s1.window == s.window && s1.undos == s.undos[u := s.undos[u].(status := st)]
    ensures Ladder(s1) && Covered(s1, Cursor(s1)) && Cursor(s1) == Cursor(s)
    ensures forall v <- s1.undos :: v.seqNo >= Cursor(s1)
  {
    forall v | v in s1.undos ensures Placed(s1, v) {
      var j :| 0 <= j < |s1.undos| && s1.undos[j] == v;
      assert Placed(s, s.undos[j]);
    }
    forall p | Cursor(s) <= p <= s1.window && 0 <= p < |s1.rows| && NeedsUndo(s1.rows[p]) ensures Undone(s1, p) {
      assert Undone(s, p);
      var v :| v in s.undos && v.seqNo == p;
      var j :| 0 <= j < |s.undos| && s.undos[j] == v;
      assert s1.undos[j] in s1.undos;
    }
  }

  lemma StepCompensatedLifo(e: Env, s: Saga, u: nat)
    requires Numbered(s) && Lifo(s) && u < |s.undos|
    ensures Lifo(OnStepCompensated(e, s, u))
  {
    if s.undos[u].status == Compensating {
      OpenIsNewest(s, u);
      var undo := s.undos[u];
      var s1 := s.(undos := s.undos[u := undo.(status := Compensated)]);
      WithUndoStatus(s, s1, u, Compensated);
      assert Placed(s1, s1.undos[u]);
      assert forall v <- s1.undos :: v.status == Compensated && v.seqNo > undo.seqNo - 1;
      UnwindLifo(e, s1, undo.seqNo - 1);
    }
  }

  lemma CompensationFailedLifo(s: Saga, u: nat, span: nat, err: Option<Err>)
    requires Numbered(s) && Lifo(s) && FindUndo(s.undos, span) == Some(u) && s.undos[u].status == Compensating
    ensures Lifo(OnCompensationFailed(s, span, err))
  {
    OpenIsNewest(s, u);
    var s1 := s.(undos := s.undos[u := s.undos[u].(status := Failed)]);
    WithUndoStatus(s, s1, u, Failed);
    LadderKept(s1, ConcludeFailed(s1), Cursor(s1));
  }

  lemma RetryCompensationLifo(e: Env, s: Saga, u: nat, claim: Claim, requeue: bool)
    requires Numbered(s) && Lifo(s) && u < |s.undos|
    ensures Lifo(RetryCompensation(e, s, u, claim, requeue))
  {
    if RetryCompensation(e, s, u, claim, requeue) != s {
      OpenIsNewest(s, u);
      var s1 := RetryCompensation(e, s, u, claim, requeue);
      WithUndoStatus(s, s1, u, Compensating);
    }
  }

  // ---- Terminal children

  /** Resuming a spawn is harmless only when nothing is in flight and the spawn row lies
      inside the window. */
  ghost predicate ResumeSafe(e: Env, s: Saga) {
    ResumableSpawn(e, s).Some? ==> !InFlight(s) && ResumableSpawn(e, s).value <= s.window
  }

  lemma ResumeInFlight(e: Env, s: Saga, q: nat)
    requires Numbered(s) && Quiet(s) && InFlight(s) && ResumableSpawn(e, s) == Some(q)
    ensures !Lifo(ResumeSpawn(e, s))
  {
    var s1 := AddSpawnUndo(s, q);
    var s2 := ResumeSpawn(e, s);
    NumberedSpawnUndo(s, q);
    UnwindFrame(e, s1, q - 1);
    var n := |s.undos|;
    assert s2.undos[..n + 1] == s1.undos;
    assert s2.undos[n - 1] == s2.undos[..n + 1][n - 1] == s.undos[n - 1];
    assert !OnlyNewestOpen(s2.undos);
  }

  lemma ResumeAbove(e: Env, s: Saga, q: nat)
    requires Numbered(s) && Quiet(s) && ResumableSpawn(e, s) == Some(q) && q > s.window
    ensures !Lifo(ResumeSpawn(e, s))
  {
    var s1 := AddSpawnUndo(s, q);
    var s2 := ResumeSpawn(e, s);
    NumberedSpawnUndo(s, q);
    UnwindFrame(e, s1, q - 1);
    var n := |s.undos|;
    assert s2.undos[..n + 1] == s1.undos;
    var u := s2.undos[n];
    assert u == s2.undos[..n + 1][n] == s1.undos[n];
    assert u in s2.undos && !Placed(s2, u);
  }

  /** A child's end keeps LIFO order exactly when the resume is safe. */
  lemma ResumeSpawnLifo(e: Env, s: Saga)
    requires Numbered(s) && Lifo(s) && (s.status == SagaCompensating ==> Quiet(s))
    ensures Lifo(ResumeSpawn(e, s)) <==> ResumeSafe(e, s)
  {
    var pick := ResumableSpawn(e, s);
    if pick.Some? {
      var q := pick.value;
      if InFlight(s) {
        ResumeInFlight(e, s, q);
      } else if q > s.window {
        ResumeAbove(e, s, q);
      } else {
        ParkedAtHighest(s, q);
        SpawnUndoReady(s, q);
        UnwindLifo(e, AddSpawnUndo(s, q), q - 1);
      }
    }
  }

  lemma NumberedSpawnUndo(s: Saga, q: nat)
    requires Numbered(s) && q < |s.rows|
    ensures Numbered(AddSpawnUndo(s, q))
  {
  }

  lemma UndoneHas(s: Saga, q: nat)
    requires Ladder(s) && Undone(s, q) && q < |s.rows|
    requires forall u <- s.undos :: u.status == Compensated
    ensures HasUndo(s.undos, s.rows[q].span, Compensated)
  {
    var u :| u in s.undos && u.seqNo == q;
    assert Placed(s, u);
  }

  lemma ParkedAtHighest(s: Saga, q: nat)
    requires Numbered(s) && Lifo(s) && s.status == SagaCompensating && !InFlight(s)
    requires HighestSpawn(s.rows) == Some(q) && q <= s.window && !HasUndo(s.undos, s.rows[q].span, Compensated)
    ensures WaitsAt(s, q) && Covered(s, q + 1)
    ensures forall u <- s.undos :: u.status == Compensated && u.seqNo > q
  {
    forall u | u in s.undos ensures u.status == Compensated && u.seqNo >= Cursor(s) {
      var j :| 0 <= j < |s.undos| && s.undos[j] == u;
    }
    var p :| WaitsAt(s, p);
    assert q < Cursor(s) by {
      if q >= Cursor(s) { UndoneHas(s, q); }
    }
    assert p == q;
  }
}
