/** Where a compensation walk comes to rest, told from the frozen steps, the row statuses
    and the answers the walk gets. */
module Walks {
  import opened SagaTypes
  import opened SagaSpec
  import opened ForwardPath

  /** What the blueprint says: a spawn is undone by waiting for its children, a join never,
      a worker step if it declares a compensation. The pass it runs in does not matter. */
  predicate Undoable(sp: Spec) {
    sp.kind == SpawnSagas || ((sp.kind == Reason || sp.kind == Commit) && sp.declaresUndo)
  }

  /** The row was started and may have left effects. */
  predicate Started(row: Row) {
    row.status in {Completed, Failed, TimedOut, InProgress}
  }

  /** The undo of row `q` is still to come. */
  ghost predicate Owed(s: Saga, q: int) {
    && 0 <= q < |s.rows| && Undoable(s.rows[q].lab.spec) && Started(s.rows[q])
    && forall u <- s.undos :: u.forward == s.rows[q].span ==> u.status != Compensated
  }

  /** The undo of row `q` is in flight. */
  predicate Undoing(s: Saga, q: int) {
    0 <= q < |s.rows| && exists u <- s.undos :: u.forward == s.rows[q].span && u.status == Compensating
  }

  ghost predicate Spawning(s: Saga, q: int) {
    0 <= q < |s.rows| && s.rows[q].lab.spec.kind == SpawnSagas
  }

  /** An ended saga: what was still pending is skipped, and the end is announced. */
  predicate Ends(s: Saga, s1: Saga, st: SagaStatus, notice: Notice) {
    && s1 == s.(status := st, rows := s1.rows, notices := s.notices + {notice})
    && |s1.rows| == |s.rows|
    && forall j :: 0 <= j < |s.rows| ==>
         s1.rows[j] == if s.rows[j].status == Pending then s.rows[j].(status := Skipped) else s.rows[j]
  }

  /** Of the rows above `p` only spawns with ended children were owed an undo; each has one
      now, and there are no other new undos but one of row `p` itself. */
  ghost predicate SpawnsUndone(e: Env, s: Saga, undos: seq<Undo>, from: int, p: int) {
    && s.undos <= undos
    && (forall q :: p < q <= from && Owed(s, q) ==> Spawning(s, q) && e.childrenDone(q) && !Undoing(s, q) && Added(s, undos, q, Compensated))
    && (forall j :: |s.undos| <= j < |undos| ==>
          && p <= undos[j].seqNo <= from && Owed(s, undos[j].seqNo)
          && undos[j].forward == s.rows[undos[j].seqNo].span
          && undos[j].status == if undos[j].seqNo == p then Compensating else Compensated)
  }

  ghost predicate Added(s: Saga, undos: seq<Undo>, q: int, st: StepStatus)
    requires 0 <= q < |s.rows|
  {
    exists j :: |s.undos| <= j < |undos| && undos[j].forward == s.rows[q].span && undos[j].seqNo == q && undos[j].status == st
  }

  /** The undo of row `p` goes to a worker. */
  ghost predicate Sends(s: Saga, s1: Saga, p: int)
    requires 0 <= p < |s.rows|
  {
    && |s.undos| < |s1.undos|
    && var u := s1.undos[|s1.undos| - 1];
       && u.seqNo == p && u.span == s1.nextId - 1 && u.key == UndoKey(u.span)
       && s1 == s.(undos := s1.undos, nextId := s1.nextId, commands := s1.commands)
       && u.key in s1.commands
       && (u.key !in s.commands ==> s1.commands == s.commands[u.key := DoUndo(u.span, s.rows[p].span)])
  }

  /** The undo of row `p` cannot be built: the row and the saga fail. */
  ghost predicate CannotSend(s: Saga, s1: Saga, p: int)
    requires 0 <= p < |s.rows|
  {
    Ends(s.(rows := s.rows[p := s.rows[p].(status := Failed, error := Some(Err(false, false)))],
            undos := s1.undos, nextId := s1.nextId),
         s1, SagaFailed, NoticeFailed)
  }

  /** A walk down from row `from` came to rest at row `p`: past the last row it is over; an
      undo in flight or a child still running is waited for; otherwise the undo of `p` is
      the next to be sent. */
  ghost predicate ComesToRest(e: Env, s: Saga, s1: Saga, from: int, p: int) {
    && -1 <= p <= from && SpawnsUndone(e, s, s1.undos, from, p)
    && if p == -1 then Ends(s.(undos := s1.undos, nextId := s1.nextId), s1, SagaCompensated, NoticeCompensated)
       else
         && Owed(s, p)
         && if Undoing(s, p) || (Spawning(s, p) && !e.childrenDone(p)) then
              s1 == s.(undos := s1.undos, nextId := s1.nextId) && forall j :: |s.undos| <= j < |s1.undos| ==> s1.undos[j].seqNo != p
            else !Spawning(s, p) && if e.undoBuilds(p) then Sends(s, s1, p) else CannotSend(s, s1, p)
  }

  ghost predicate WalksDown(e: Env, s: Saga, s1: Saga, from: int) {
    exists p: int :: ComesToRest(e, s, s1, from, p)
  }

  // ---- The walk of the specification

  lemma OwedIs(s: Saga, q: nat)
    requires q < |s.rows|
    ensures Owed(s, q) <==> NeedsUndo(s.rows[q]) && !HasUndo(s.undos, s.rows[q].span, Compensated)
    ensures Undoing(s, q) <==> HasUndo(s.undos, s.rows[q].span, Compensating)
  {
  }

  /** One more row above the resting place that owes nothing. */
  lemma RestsBelow(e: Env, s: Saga, s1: Saga, q: int, p: int)
    requires 0 <= q && ComesToRest(e, s, s1, q - 1, p) && !Owed(s, q)
    ensures ComesToRest(e, s, s1, q, p)
  {
  }

  /** The undo of one row does not count for another. */
  lemma OthersOwed(s: Saga, q: nat, k: nat)
    requires Numbered(s) && k < q < |s.rows|
    ensures var t := AddSpawnUndo(s, q); (Owed(t, k) <==> Owed(s, k)) && (Undoing(t, k) <==> Undoing(s, k))
  {
    var t := AddSpawnUndo(s, q);
    assert forall u :: u in t.undos ==> u in s.undos || u == t.undos[|s.undos|];
    assert forall u :: u in s.undos ==> u in t.undos;
  }

  /** A spawn row is undone in passing. */
  lemma RestsBelowSpawn(e: Env, s: Saga, s1: Saga, q: nat, p: int)
    requires Numbered(s) && q < |s.rows| && Owed(s, q) && Spawning(s, q) && e.childrenDone(q) && !Undoing(s, q)
    requires ComesToRest(e, AddSpawnUndo(s, q), s1, q - 1, p)
    ensures ComesToRest(e, s, s1, q, p)
  {
    var t := AddSpawnUndo(s, q);
    assert t.undos[|s.undos|].forward == s.rows[q].span && t.undos[|s.undos|].seqNo == q;
    assert s1.undos[|s.undos|] == t.undos[|s.undos|];
    forall k: int | 0 <= k < q ensures (Owed(t, k) <==> Owed(s, k)) && (Undoing(t, k) <==> Undoing(s, k)) {
      OthersOwed(s, q, k);
    }
    hide AddSpawnUndo;
    forall k: int | p < k <= q && Owed(s, k)
      ensures Spawning(s, k) && e.childrenDone(k) && !Undoing(s, k) && Added(s, s1.undos, k, Compensated)
    {
      if k < q { assert Owed(t, k) && Added(t, s1.undos, k, Compensated); }
    }
    forall j | |s.undos| <= j < |s1.undos|
      ensures p <= s1.undos[j].seqNo <= q && Owed(s, s1.undos[j].seqNo)
      ensures s1.undos[j].forward == s.rows[s1.undos[j].seqNo].span
      ensures s1.undos[j].status == if s1.undos[j].seqNo == p then Compensating else Compensated
    {
      if j == |s.undos| { assert s1.undos[j] == t.undos[j]; } else { assert Owed(t, s1.undos[j].seqNo); }
    }
    assert SpawnsUndone(e, s, s1.undos, q, p);
  }

  lemma RestsAtEnd(e: Env, s: Saga)
    ensures ComesToRest(e, s, ConcludeCompensated(s), -1, -1)
  {
  }

  /** The walk of the specification rests where these answers let it. */
  lemma {:induction false} UnwindWalks(e: Env, s: Saga, q: int)
    requires Numbered(s) && -1 <= q
    ensures WalksDown(e, s, Unwind(e, s, q), q)
    decreases q + 1
  {
    hide ComesToRest;
    var s1 := Unwind(e, s, q);
    if q < 0 {
      RestsAtEnd(e, s);
    } else if q >= |s.rows| {
      UnwindWalks(e, s, q - 1);
      var p :| ComesToRest(e, s, s1, q - 1, p);
      RestsBelow(e, s, s1, q, p);
    } else {
      OwedIs(s, q);
      if !Owed(s, q) {
        UnwindWalks(e, s, q - 1);
        var p :| ComesToRest(e, s, s1, q - 1, p);
        RestsBelow(e, s, s1, q, p);
      } else if Spawning(s, q) && !Undoing(s, q) && e.childrenDone(q) {
        assert Numbered(AddSpawnUndo(s, q));
        UnwindWalks(e, AddSpawnUndo(s, q), q - 1);
        var p :| ComesToRest(e, AddSpawnUndo(s, q), s1, q - 1, p);
        RestsBelowSpawn(e, s, s1, q, p);
      } else {
        UnwindStops(e, s, q);
      }
    }
  }

  lemma UnwindStops(e: Env, s: Saga, q: nat)
    requires Numbered(s) && q < |s.rows| && Owed(s, q) && !(Spawning(s, q) && !Undoing(s, q) && e.childrenDone(q))
    ensures ComesToRest(e, s, Unwind(e, s, q), q, q)
  {
    OwedIs(s, q);
    var s1 := Unwind(e, s, q);
    if !Undoing(s, q) && !Spawning(s, q) && e.undoBuilds(q) {
      assert s1 == ScheduleUndo(e, s, q);
      assert s1.undos[..|s.undos|] == s.undos;
    }
  }
}
