/** A parked join and its children end in separate transactions; the parent's row lock makes
    sure the last child to end wakes the join. */
module JoinWakeup {
  import opened SagaTypes

  datatype JoinState = JoinIdle | JoinParked | JoinOver

  /** How far a child's own transaction has come. Its status change stays invisible to
      others until it commits. */
  datatype ChildTxn = NoTxn | Ended(st: SagaStatus) | HasLock(st: SagaStatus) | Decided(st: SagaStatus)

  datatype Child = Child(status: SagaStatus, txn: ChildTxn)

  datatype Owner = Nobody | ByChild(id: nat) | ByParent

  /** Committed rows, the owner of the parent's row lock, and what the owner will commit
      to the join row. */
  datatype World = World(children: map<nat, Child>, join: JoinState, owner: Owner, write: Option<JoinState>)

  datatype Move =
    | ChildEnds(id: nat, st: SagaStatus)
    | ChildLocks(id: nat)
    | ChildDecides(id: nat)
    | ChildCommits(id: nat)
    | ChildAborts(id: nat)
    | ChildReopens(id: nat)
    | ParentLocks
    | ParentSchedulesJoin
    | ParentRetriesJoin
    | ParentDropsJoin
    | ParentCommits
    | ParentAborts

  function With(w: World, id: nat, c: Child): World {
    w.(children := w.children[id := c])
  }

  /** What the transaction of child `me` reads: its own change and the others' committed
      statuses. */
  predicate SeesAllTerminal(w: World, me: Option<nat>) {
    && w.children != map[]
    && (forall id <- w.children :: me == Some(id) || Terminal(w.children[id].status))
  }

  function ChildMoves(w: World, id: nat, m: Move): World
    requires id in w.children
  {
    var c := w.children[id];
    match m
    case ChildEnds(_, st) =>
      if c.txn.NoTxn? && !Terminal(c.status) && Terminal(st) then With(w, id, c.(txn := Ended(st))) else w
    case ChildLocks(_) =>
      if c.txn.Ended? && w.owner.Nobody?
      then With(w, id, c.(txn := HasLock(c.txn.st))).(owner := ByChild(id), write := None) else w
    case ChildDecides(_) =>
      if !c.txn.HasLock? then w
      else With(w, id, c.(txn := Decided(c.txn.st)))
             .(write := if w.join.JoinParked? && SeesAllTerminal(w, Some(id)) then Some(JoinOver) else None)
    case ChildCommits(_) =>
      if !c.txn.Decided? then w
      else With(w, id, Child(c.txn.st, NoTxn))
             .(join := if w.write.Some? then w.write.value else w.join, owner := Nobody, write := None)
    case ChildAborts(_) =>
      var w1 := With(w, id, c.(txn := NoTxn));
      if w.owner == ByChild(id) then w1.(owner := Nobody, write := None) else w1
    case ChildReopens(_) =>
      if c.txn.NoTxn? && c.status == SagaFailed then With(w, id, c.(status := SagaCompensating)) else w
    case _ => w
  }

  function Next(w: World, m: Move): World {
    match m
    case ParentLocks => if w.owner.Nobody? then w.(owner := ByParent, write := None) else w
    case ParentSchedulesJoin =>
      if w.owner.ByParent? && w.join.JoinIdle?
      then w.(write := Some(if SeesAllTerminal(w, None) then JoinOver else JoinParked)) else w
    case ParentRetriesJoin =>
      if w.owner.ByParent? && w.join.JoinParked? && SeesAllTerminal(w, None) then w.(write := Some(JoinOver)) else w
    case ParentDropsJoin => if w.owner.ByParent? then w.(write := Some(JoinOver)) else w
    case ParentCommits =>
      if w.owner.ByParent?
      then w.(join := if w.write.Some? then w.write.value else w.join, owner := Nobody, write := None) else w
    case ParentAborts => if w.owner.ByParent? then w.(owner := Nobody, write := None) else w
    case _ => if m.id in w.children then ChildMoves(w, m.id, m) else w
  }

  function Play(w: World, moves: seq<Move>): World
    decreases |moves|
  {
    if moves == [] then w else Play(Next(w, moves[0]), moves[1..])
  }

  /** Some child other than `me` has not ended yet, as far as committed rows tell. */
  ghost predicate SomeOpen(w: World, me: Option<nat>) {
    exists id :: id in w.children && me != Some(id) && !Terminal(w.children[id].status)
  }

  predicate Holds(txn: ChildTxn) { txn.HasLock? || txn.Decided? }

  ghost predicate Sound(w: World) {
    && w.children != map[]
    && (forall id <- w.children :: Holds(w.children[id].txn) <==> w.owner == ByChild(id))
    && (w.owner.ByChild? ==> w.owner.id in w.children)
    && (forall id <- w.children :: w.children[id].txn.Decided? ==>
          w.write.Some? || !w.join.JoinParked? || SomeOpen(w, Some(id)))
    && (w.owner.ByChild? && w.write.Some? ==> w.write.value.JoinOver?)
    && (w.owner.ByParent? && w.write == Some(JoinParked) ==> SomeOpen(w, None))
    && (w.join.JoinParked? ==> SomeOpen(w, None))
  }

  /** Nothing but the status of child `id` changed, and it did not end. */
  lemma OpenStays(w: World, w1: World, id: nat, me: Option<nat>)
    requires id in w.children && w1.children.Keys == w.children.Keys
    requires forall d <- w.children :: Terminal(w1.children[d].status) ==> Terminal(w.children[d].status)
    ensures SomeOpen(w, me) ==> SomeOpen(w1, me)
  {
    if SomeOpen(w, me) {
      var d :| d in w.children && me != Some(d) && !Terminal(w.children[d].status);
      assert d in w1.children && me != Some(d) && !Terminal(w1.children[d].status);
    }
  }

  lemma CommitSound(w: World, id: nat)
    requires Sound(w) && id in w.children && w.children[id].txn.Decided?
    ensures Sound(Next(w, ChildCommits(id)))
  {
    var w1 := Next(w, ChildCommits(id));
    assert w.owner == ByChild(id);
    if w1.join.JoinParked? {
      var d :| d in w.children && Some(id) != Some(d) && !Terminal(w.children[d].status);
      assert d in w1.children && !Terminal(w1.children[d].status);
    }
  }

  lemma DecideSound(w: World, id: nat)
    requires Sound(w) && id in w.children && w.children[id].txn.HasLock?
    ensures Sound(Next(w, ChildDecides(id)))
  {
    var w1 := Next(w, ChildDecides(id));
    assert w.owner == ByChild(id);
    OpenStays(w, w1, id, None);
    if w1.write.None? && w.join.JoinParked? {
      var d :| d in w.children && Some(id) != Some(d) && !Terminal(w.children[d].status);
      assert d in w1.children && !Terminal(w1.children[d].status);
    }
  }

  lemma ChildSound(w: World, m: Move)
    requires Sound(w) && !m.ChildCommits? && !m.ChildDecides?
    requires m.ChildEnds? || m.ChildLocks? || m.ChildAborts? || m.ChildReopens?
    requires m.id in w.children
    ensures Sound(Next(w, m))
  {
    var w1 := Next(w, m);
    OpenStays(w, w1, m.id, None);
    forall id | id in w1.children && w1.children[id].txn.Decided?
      ensures w1.write.Some? || !w1.join.JoinParked? || SomeOpen(w1, Some(id))
    {
      OpenStays(w, w1, m.id, Some(id));
    }
  }

  lemma NextSound(w: World, m: Move)
    requires Sound(w)
    ensures Sound(Next(w, m))
  {
    match m
    case ChildCommits(id) =>
      if id in w.children && w.children[id].txn.Decided? { CommitSound(w, id); }
    case ChildDecides(id) =>
      if id in w.children && w.children[id].txn.HasLock? { DecideSound(w, id); }
    case ParentSchedulesJoin => ParentSound(w, m);
    case ParentCommits => ParentSound(w, m);
    case ParentLocks => ParentSound(w, m);
    case ParentRetriesJoin => ParentSound(w, m);
    case ParentDropsJoin => ParentSound(w, m);
    case ParentAborts => ParentSound(w, m);
    case _ => if m.id in w.children { ChildSound(w, m); }
  }

  lemma ParentSound(w: World, m: Move)
    requires Sound(w)
    requires m.ParentSchedulesJoin? || m.ParentCommits? || m.ParentLocks? || m.ParentRetriesJoin?
      || m.ParentDropsJoin? || m.ParentAborts?
    ensures Sound(Next(w, m))
  {
    var w1 := Next(w, m);
    assert w1.children == w.children;
    assert SomeOpen(w, None) == SomeOpen(w1, None);
    if m.ParentSchedulesJoin? && w1.write == Some(JoinParked) && w1 != w {
      var d :| d in w.children && !Terminal(w.children[d].status);
      assert SomeOpen(w1, None);
    }
  }

  lemma {:induction false} PlaySound(w: World, moves: seq<Move>)
    requires Sound(w)
    ensures Sound(Play(w, moves))
    decreases |moves|
  {
    if moves != [] {
      NextSound(w, moves[0]);
      PlaySound(Next(w, moves[0]), moves[1..]);
    }
  }

  /** Children just spawned, the join not yet reached. */
  ghost predicate Spawned(w: World) {
    && w.children != map[] && w.join.JoinIdle? && w.owner.Nobody? && w.write.None?
    && (forall id <- w.children :: w.children[id] == Child(SagaPending, NoTxn))
  }

  /** No lost wake-up: in any interleaving of child transactions with each other and with
      the parent's, with aborts and reopened children, a parked join always has a child
      that has not ended. */
  lemma ParkedHasOpenChild(w: World, moves: seq<Move>)
    requires Spawned(w)
    ensures var v := Play(w, moves);
      v.join.JoinParked? ==> exists id :: id in v.children && !Terminal(v.children[id].status)
  {
    PlaySound(w, moves);
    var v := Play(w, moves);
    if v.join.JoinParked? {
      var id :| id in v.children && None != Some(id) && !Terminal(v.children[id].status);
    }
  }

  lemma Steps(w: World, a: Move, rest: seq<Move>)
    ensures Play(w, [a] + rest) == Play(Next(w, a), rest)
  {
    assert ([a] + rest)[1..] == rest;
  }

  lemma ThreeSteps(w: World, a: Move, b: Move, c: Move)
    ensures Play(w, [a, b, c]) == Next(Next(Next(w, a), b), c)
  {
    hide Next;
    assert [a, b, c] == [a] + [b, c] && [b, c] == [b] + [c] && [c] == [c] + [];
    Steps(w, a, [b, c]);
    Steps(Next(w, a), b, [c]);
    Steps(Next(Next(w, a), b), c, []);
  }

  lemma FourSteps(w: World, a: Move, b: Move, c: Move, d: Move)
    ensures Play(w, [a, b, c, d]) == Next(Next(Next(Next(w, a), b), c), d)
  {
    hide Next;
    assert [a, b, c, d] == [a] + [b, c, d];
    Steps(w, a, [b, c, d]);
    ThreeSteps(Next(w, a), b, c, d);
  }

  /** Seen from the transaction of child `id`, all have ended exactly when no other is open. */
  lemma SeesItsSiblings(w: World, id: nat, c: Child)
    requires id in w.children
    ensures SeesAllTerminal(With(w, id, c), Some(id)) <==> !SomeOpen(w, Some(id))
  {
    var w1 := With(w, id, c);
    assert id in w1.children;
    if SeesAllTerminal(w1, Some(id)) {
      assert forall k <- w.children :: k in w1.children;
    } else {
      var k :| k in w1.children && k != id && !Terminal(w1.children[k].status);
      assert k in w.children && Some(id) != Some(k) && !Terminal(w.children[k].status);
    }
  }

  /** A child ends: its new status is committed, and in the same transaction a parked join
      is over if and only if no other child is left open; otherwise it stays parked. */
  lemma LastChildWakes(w: World, id: nat, st: SagaStatus)
    requires w.owner.Nobody? && Terminal(st)
    requires id in w.children && w.children[id].txn.NoTxn? && !Terminal(w.children[id].status)
    ensures var w1 := Play(w, [ChildEnds(id, st), ChildLocks(id), ChildDecides(id), ChildCommits(id)]);
      && w1.children == w.children[id := Child(st, NoTxn)] && w1.owner.Nobody?
      && w1.join == if w.join.JoinParked? && !SomeOpen(w, Some(id)) then JoinOver else w.join
  {
    hide SeesAllTerminal, SomeOpen;
    var before := w.children[id].status;
    FourSteps(w, ChildEnds(id, st), ChildLocks(id), ChildDecides(id), ChildCommits(id));
    var w2 := Next(Next(w, ChildEnds(id, st)), ChildLocks(id));
    assert w2 == With(w, id, Child(before, HasLock(st))).(owner := ByChild(id), write := None);
    SeesItsSiblings(w, id, Child(before, HasLock(st)));
    assert SeesAllTerminal(w2, Some(id)) <==> !SomeOpen(w, Some(id)) by { SightIsOfChildren(w2, With(w, id, Child(before, HasLock(st))), Some(id)); }
  }

  lemma SightIsOfChildren(w: World, v: World, me: Option<nat>)
    requires w.children == v.children
    ensures SeesAllTerminal(w, me) <==> SeesAllTerminal(v, me)
  {
  }

  /** The parent reaches the join, or an operator has it run again: it is over if and only if
      no child is open. */
  lemma ParentDecides(w: World)
    requires Sound(w) && w.owner.Nobody?
    ensures var w1 := Play(w, [ParentLocks, ParentSchedulesJoin, ParentCommits]);
      w1 == w.(write := None, join := if w.join.JoinIdle? then if SomeOpen(w, None) then JoinParked else JoinOver else w.join)
    ensures var w1 := Play(w, [ParentLocks, ParentRetriesJoin, ParentCommits]);
      w1 == w.(write := None, join := if w.join.JoinParked? && !SomeOpen(w, None) then JoinOver else w.join)
  {
    if !SeesAllTerminal(w, None) {
      var k :| k in w.children && !Terminal(w.children[k].status);
      assert None != Some(k);
    }
    ThreeSteps(w, ParentLocks, ParentSchedulesJoin, ParentCommits);
    ThreeSteps(w, ParentLocks, ParentRetriesJoin, ParentCommits);
  }

  /** An operator opens a FAILED child again: a join reached after that waits for it, while a
      join that is over stays over. */
  lemma ReopenedIsWaitedFor(w: World, id: nat)
    requires Sound(w) && w.owner.Nobody?
    requires id in w.children && w.children[id] == Child(SagaFailed, NoTxn)
    ensures var w1 := Play(w, [ChildReopens(id), ParentLocks, ParentSchedulesJoin, ParentCommits]);
      w1.join == (if w.join.JoinIdle? then JoinParked else w.join)
      && id in w1.children && !Terminal(w1.children[id].status)
  {
    FourSteps(w, ChildReopens(id), ParentLocks, ParentSchedulesJoin, ParentCommits);
    var w1 := Next(w, ChildReopens(id));
    assert id in w1.children && !Terminal(w1.children[id].status);
  }

  /** A transaction that aborts, of a child or of the parent, leaves nothing behind, however
      far it has come; a join the parent drops is over. */
  lemma AbortsLeaveNothing(w: World, id: nat, st: SagaStatus, m: Move)
    requires w.owner.Nobody? && w.write.None?
    ensures id in w.children && w.children[id].txn.NoTxn? ==>
      Play(w, [ChildEnds(id, st), ChildLocks(id), ChildDecides(id), ChildAborts(id)]) == w
    ensures m == ParentSchedulesJoin || m == ParentRetriesJoin || m == ParentDropsJoin ==>
      Play(w, [ParentLocks, m, ParentAborts]) == w
    ensures Play(w, [ParentLocks, ParentDropsJoin, ParentCommits]) == w.(join := JoinOver)
  {
    if id in w.children && w.children[id].txn.NoTxn? { ChildAbortsClean(w, id, st); }
    ThreeSteps(w, ParentLocks, m, ParentAborts);
    ThreeSteps(w, ParentLocks, ParentDropsJoin, ParentCommits);
  }

  lemma ChildAbortsClean(w: World, id: nat, st: SagaStatus)
    requires w.owner.Nobody? && w.write.None? && id in w.children && w.children[id].txn.NoTxn?
    ensures Play(w, [ChildEnds(id, st), ChildLocks(id), ChildDecides(id), ChildAborts(id)]) == w
  {
    FourSteps(w, ChildEnds(id, st), ChildLocks(id), ChildDecides(id), ChildAborts(id));
    var c := w.children[id];
    var w3 := Next(Next(Next(w, ChildEnds(id, st)), ChildLocks(id)), ChildDecides(id));
    assert w3.children[id := c] == w.children;
    assert c == Child(c.status, NoTxn);
  }

  /** The world before move `n` of a run. */
  ghost function At(w: World, moves: seq<Move>, n: nat): World
    requires n <= |moves|
  {
    Play(w, moves[..n])
  }

  lemma {:induction false} PlaySplit(w: World, a: seq<Move>, m: Move)
    ensures Play(w, a + [m]) == Next(Play(w, a), m)
    decreases |a|
  {
    if a == [] {
      Steps(w, m, []);
    } else {
      assert (a + [m])[1..] == a[1..] + [m];
      PlaySplit(Next(w, a[0]), a[1..], m);
    }
  }

  /** Every child has ended; of one it may be the transaction under way that ends it. */
  ghost predicate AllEnded(w: World, me: Option<nat>) {
    && w.children != map[]
    && (forall id <- w.children ::
          || Terminal(w.children[id].status)
          || (me == Some(id) && w.owner == ByChild(id) && !w.children[id].txn.NoTxn? && Terminal(w.children[id].txn.st)))
  }

  ghost predicate EndingsTerminal(w: World) {
    forall id <- w.children :: !w.children[id].txn.NoTxn? ==> Terminal(w.children[id].txn.st)
  }

  lemma {:induction false} EndingsStayTerminal(w: World, moves: seq<Move>)
    requires EndingsTerminal(w)
    ensures EndingsTerminal(Play(w, moves))
    decreases |moves|
  {
    if moves != [] { EndingsStayTerminal(Next(w, moves[0]), moves[1..]); }
  }

  /** No early wake-up: over any run in which the parent does not drop its join, the join is
      over only if there was a moment before at which every child had ended. */
  lemma {:induction false} OverMeansEnded(w: World, moves: seq<Move>, m: nat)
    requires Spawned(w) && m <= |moves| && ParentDropsJoin !in moves[..m]
    requires At(w, moves, m).join.JoinOver? || At(w, moves, m).write == Some(JoinOver)
    ensures exists n, me :: 0 <= n < m && AllEnded(At(w, moves, n), me)
    decreases m
  {
    if m > 0 {
      var s, x := At(w, moves, m - 1), moves[m - 1];
      assert moves[..m] == moves[..m - 1] + [x];
      PlaySplit(w, moves[..m - 1], x);
      if s.join.JoinOver? || s.write == Some(JoinOver) {
        OverMeansEnded(w, moves, m - 1);
      } else {
        PlaySound(w, moves[..m - 1]);
        EndingsStayTerminal(w, moves[..m - 1]);
        if x.ChildDecides? {
          assert AllEnded(s, Some(x.id));
        } else {
          assert AllEnded(s, None);
        }
      }
    }
  }
}
