/** What the status of an outbox row tells about its command: COMPLETED that some handler has
    answered for it, anything else that it can be delivered again. */
module ClaimDelivery {
  import opened SagaTypes
  import opened ClaimProtocol

  /** The system before move `n` of a run. */
  ghost function At(moves: seq<Move>, n: nat): System
    requires n <= |moves|
  {
    Play(QUEUED, moves[..n])
  }

  lemma AtNext(moves: seq<Move>, n: nat)
    requires n < |moves|
    ensures At(moves, n + 1) == Next(At(moves, n), moves[n])
  {
    assert moves[..n + 1] == moves[..n] + [moves[n]];
    PlaySplit(QUEUED, moves[..n], [moves[n]]);
    assert [moves[n]][1..] == [];
    assert Play(Next(At(moves, n), moves[n]), []) == Next(At(moves, n), moves[n]);
  }

  // ---- What COMPLETED means

  /** At move `n` handler `id` settled what becomes of its delivery: it reported under its
      token, and this was emitted if the token still owned the claim; or it found the key
      claimed by another handler. */
  ghost predicate Answers(moves: seq<Move>, n: nat, id: nat)
    requires n < |moves|
  {
    var s, s1 := At(moves, n), At(moves, n + 1);
    && id in s.handlers
    && match s.handlers[id]
       case Executing(token) =>
         && (moves[n] == Succeed(id) || moves[n] == Fail(id))
         && (Owned(s.rows, token) ==>
               s1.rows.log == s.rows.log + [Emission(if moves[n] == Succeed(id) then Success else Failure, token)])
       case Claiming(_) => moves[n] == TryClaim(id) && s.rows.claim.Some?
       case _ => false
  }

  /** Since its answer the handler has been there all the time. */
  ghost predicate AnsweredBy(moves: seq<Move>, m: nat, id: nat)
    requires m <= |moves|
  {
    exists n :: 0 <= n < m && Answers(moves, n, id) && forall k :: n <= k <= m ==> id in At(moves, k).handlers
  }

  /** A handler that is about to return normally, or to reap, has answered. */
  lemma {:induction false} ReturnersHaveAnswered(moves: seq<Move>, m: nat, id: nat)
    requires m <= |moves| && id in At(moves, m).handlers
    requires At(moves, m).handlers[id] == Returning(true) || At(moves, m).handlers[id].Reaping?
    ensures AnsweredBy(moves, m, id)
    decreases m
  {
    if m > 0 {
      AtNext(moves, m - 1);
      var s := At(moves, m - 1);
      assert id in s.handlers;
      if s.handlers[id] == Returning(true) || s.handlers[id].Reaping? {
        ReturnersHaveAnswered(moves, m - 1, id);
        var n :| 0 <= n < m - 1 && Answers(moves, n, id) && forall k :: n <= k <= m - 1 ==> id in At(moves, k).handlers;
        assert forall k :: n <= k <= m ==> id in At(moves, k).handlers;
      } else {
        assert Answers(moves, m - 1, id);
        assert forall k :: m - 1 <= k <= m ==> id in At(moves, k).handlers;
      }
    }
  }

  /** Over any run: a row is COMPLETED only because a handler that had answered for the
      command returned; a handler that raised never completes it. */
  lemma {:induction false} CompletedIsAnswered(moves: seq<Move>, m: nat)
    requires m <= |moves| && At(moves, m).rows.status == OutCompleted
    ensures exists n, id :: 0 <= n < m && moves[n] == Return(id) && AnsweredBy(moves, n, id)
    decreases m
  {
    if m > 0 {
      AtNext(moves, m - 1);
      var s := At(moves, m - 1);
      if s.rows.status == OutCompleted {
        CompletedIsAnswered(moves, m - 1);
      } else {
        assert moves[m - 1].Return? && moves[m - 1].id in s.handlers;
        ReturnersHaveAnswered(moves, m - 1, moves[m - 1].id);
      }
    }
  }

  /** Two moves after another. */
  lemma Twice(s: System, a: Move, b: Move)
    ensures Play(s, [a, b]) == Next(Next(s, a), b)
  {
    assert [a, b] == [a] + [b] && [b] == [b] + [];
    Steps(s, a, [b]);
    Steps(Next(s, a), b, []);
    assert Play(Next(Next(s, a), b), []) == Next(Next(s, a), b);
  }

  /** A handler that raised reports nothing and sets its row to FAILED, unless the row is no
      longer IN_PROGRESS; then the row stays as it is. */
  lemma RaisedIsFailed(s: System, id: nat, token: nat)
    requires id in s.handlers && s.handlers[id] == Executing(token)
    ensures var s1 := Play(s, [Raise(id), Return(id)]);
      && s1.handlers == s.handlers - {id} && s1.rows.log == s.rows.log && s1.rows.claim == s.rows.claim
      && s1.rows.status == if s.rows.status == OutInProgress then OutFailed else s.rows.status
  {
    Twice(s, Raise(id), Return(id));
  }

  // ---- Delivering again

  /** The command reaches a new handler. */
  ghost predicate Redelivered(s: System, moves: seq<Move>, id: nat) {
    && id !in s.handlers && id in Play(s, moves).handlers
    && Play(s, moves).handlers[id] == Claiming(true) && Play(s, moves).rows.status == OutInProgress
  }

  lemma {:induction false} CompletedStaysIdle(s: System, moves: seq<Move>)
    requires s.rows.status == OutCompleted
    ensures Play(s, moves).handlers.Keys <= s.handlers.Keys
    decreases |moves|
  {
    if moves != [] { CompletedStaysIdle(Next(s, moves[0]), moves[1..]); }
  }

  /** A command can reach a new handler as long as its row is not COMPLETED, and not after. */
  lemma RedeliveryExact(s: System, id: nat)
    requires id !in s.handlers
    ensures (exists moves: seq<Move> :: Redelivered(s, moves, id)) <==> s.rows.status != OutCompleted
  {
    if s.rows.status == OutCompleted {
      forall moves: seq<Move> ensures !Redelivered(s, moves, id) { CompletedStaysIdle(s, moves); }
    } else if s.rows.status == OutInProgress {
      Twice(s, ReapPaired, Poll(id));
      assert Redelivered(s, [ReapPaired, Poll(id)], id);
    } else {
      FailedIsRedelivered(s, id, false);
      assert Redelivered(s, [ForceRequeue(false), Poll(id)], id);
    }
  }

  /** A FAILED row is queued again by an operator and delivered by the next poll; so is one
      IN_PROGRESS that is stale or forced. */
  lemma FailedIsRedelivered(s: System, id: nat, stale: bool)
    requires id !in s.handlers
    ensures Redelivered(s, [ForceRequeue(stale), Poll(id)], id) <==>
      s.rows.status in {OutPending, OutFailed} || (s.rows.status == OutInProgress && stale)
    ensures Next(s, ForceRequeue(stale)).rows.log == s.rows.log && Next(s, ForceRequeue(stale)).rows.claim == s.rows.claim
  {
    Twice(s, ForceRequeue(stale), Poll(id));
  }

  /** A delivered command is executed, under a token nobody has had, exactly when its key is
      free, or its claim is unfinished and stale; otherwise the handler returns and completes
      the row. */
  lemma DeliveryExact(s: System, id: nat, stale: bool)
    requires id in s.handlers && s.handlers[id] == Claiming(true) && Safe(s)
    ensures var s1 := Play(s, [TryClaim(id), TryReap(id, stale), TryClaim(id)]);
      var free := s.rows.claim.None? || (stale && !s.rows.claim.value.emitted);
      && id in s1.handlers && s1.rows.log == s.rows.log
      && (if free then s1.handlers[id] == Executing(s.rows.tokens) && Owned(s1.rows, s.rows.tokens)
          else s1.handlers[id] == Returning(true) && s1.rows == s.rows)
  {
    var a, b := TryClaim(id), TryReap(id, stale);
    assert [a, b, a] == [a] + [b, a];
    Steps(s, a, [b, a]);
    Twice(Next(s, a), b, a);
  }

  /** Who executes under the token that owns the claim can report, and its row completes. */
  lemma ReportCompletes(s: System, id: nat, token: nat, m: Move)
    requires id in s.handlers && s.handlers[id] == Executing(token) && Owned(s.rows, token)
    requires m == Succeed(id) || m == Fail(id)
    ensures var s1 := Play(s, [m, Return(id)]);
      && s1.rows.log == s.rows.log + [Emission(if m == Succeed(id) then Success else Failure, token)]
      && s1.rows.claim == (if m == Succeed(id) then Some(ClaimRow(token, true)) else None)
      && s1.rows.status == (if s.rows.status == OutInProgress then OutCompleted else s.rows.status)
  {
    Twice(s, m, Return(id));
  }

  // ---- Crashes and reapers

  lemma Moved(s: System, a: Move, b: Move, c: Move, d: Move)
    ensures Play(s, [a, b, c, d]) == Next(Next(Next(Next(s, a), b), c), d)
  {
    assert [a, b, c, d] == [a] + [b, c, d] && [b, c, d] == [b] + [c, d];
    Steps(s, a, [b, c, d]);
    Steps(Next(s, a), b, [c, d]);
    Twice(Next(Next(s, a), b), c, d);
  }

  /** A handler that crashes reports nothing. As long as no success was emitted, the reaper and
      the next poll bring its command to another handler, under a token of its own. */
  lemma CrashIsRecovered(s: System, id: nat, other: nat)
    requires id in s.handlers && other !in s.handlers && s.rows.status == OutInProgress
    requires s.rows.claim.Some? ==> !s.rows.claim.value.emitted
    ensures var s1 := Play(s, [Crash(id), ReapPaired, Poll(other), TryClaim(other)]);
      && s1.handlers == (s.handlers - {id})[other := Executing(s.rows.tokens)]
      && s1.rows.log == s.rows.log && Owned(s1.rows, s.rows.tokens)
  {
    Moved(s, Crash(id), ReapPaired, Poll(other), TryClaim(other));
  }

  /** A row taken by a poll whose process dies at once stays IN_PROGRESS: no poll finds it
      before the reaper has put it back. */
  lemma LostDeliveryIsReaped(s: System, id: nat)
    requires id !in s.handlers && s.rows.status == OutPending
    ensures Next(s, PollUndelivered).rows.status == OutInProgress
    ensures Play(s, [PollUndelivered, Poll(id)]).handlers == s.handlers
    ensures Redelivered(s, [PollUndelivered, ReapPaired, Poll(id)], id)
  {
    Twice(s, PollUndelivered, Poll(id));
    assert [PollUndelivered, ReapPaired, Poll(id)] == [PollUndelivered] + [ReapPaired, Poll(id)];
    Steps(s, PollUndelivered, [ReapPaired, Poll(id)]);
    Twice(Next(s, PollUndelivered), ReapPaired, Poll(id));
  }

  /** Evicting a claim that has not emitted fences its worker off: its report, success or
      failure, is lost, and so the key is free. A claim that has emitted stays. */
  lemma EvictedIsFenced(s: System, id: nat, token: nat, evict: Move, report: Move)
    requires evict == ReapClaim || evict == ForceRelease || (evict == ReapPaired && s.rows.status == OutInProgress)
    requires id in s.handlers && s.handlers[id] == Executing(token) && (report == Succeed(id) || report == Fail(id))
    ensures Owned(s.rows, token) ==>
      var s1 := Play(s, [evict, report]); s1.rows.log == s.rows.log && s1.rows.claim.None?
    ensures s.rows.claim.Some? && s.rows.claim.value.emitted ==> Next(s, evict).rows.claim == s.rows.claim
  {
    Twice(s, evict, report);
  }

  /** How much of its life a handler has before it. */
  function Ahead(p: Phase): nat {
    match p
    case Claiming(first) => if first then 4 else 2
    case Reaping => 3
    case Executing(_) => 1
    case Returning(_) => 0
  }

  predicate Own(m: Move, id: nat) {
    (m.TryClaim? || m.TryReap? || m.Succeed? || m.Fail? || m.Raise? || m.Return? || m.Crash?) && m.id == id
  }

  /** Nobody else moves a handler, and every move of its own takes it further: it tries to
      claim twice at most. */
  lemma HandlersGoOn(s: System, m: Move, id: nat)
    requires id in s.handlers
    ensures var s1 := Next(s, m);
      if Own(m, id) then s1 == s || id !in s1.handlers || Ahead(s1.handlers[id]) < Ahead(s.handlers[id])
      else id in s1.handlers && s1.handlers[id] == s.handlers[id]
  {
  }
}
