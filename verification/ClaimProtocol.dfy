/** One worker command under at-least-once delivery: an outbox row, a claim row that fences
    emission, any number of handlers, reapers and operators, all interleaved. */
module ClaimProtocol {
  import opened SagaTypes

  datatype OutboxStatus = OutPending | OutInProgress | OutCompleted | OutFailed
  datatype ClaimRow = ClaimRow(token: nat, emitted: bool)
  datatype Outcome = Success | Failure
  datatype Emission = Emission(outcome: Outcome, token: nat)

  /** The rows of one idempotency key. `log` is what workers have emitted for it, `tokens`
      bounds the claim tokens handed out so far. */
  datatype Rows = Rows(status: OutboxStatus, claim: Option<ClaimRow>, log: seq<Emission>, tokens: nat)

  // ---- The transactions on those rows

  function Unfinished(c: Option<ClaimRow>): bool { c.Some? && !c.value.emitted }

  function InsertClaim(r: Rows): Rows {
    if r.claim.Some? then r else r.(claim := Some(ClaimRow(r.tokens, false)), tokens := r.tokens + 1)
  }

  /** Reapers and force release delete claims that have not emitted. */
  function EvictClaim(r: Rows): Rows {
    if Unfinished(r.claim) then r.(claim := None) else r
  }

  function Owned(r: Rows, token: nat): bool { r.claim == Some(ClaimRow(token, false)) }

  function EmitSuccess(r: Rows, token: nat): Rows {
    if !Owned(r, token) then r
    else r.(claim := Some(ClaimRow(token, true)), log := r.log + [Emission(Success, token)])
  }

  function EmitFailure(r: Rows, token: nat): Rows {
    if !Owned(r, token) then r else r.(claim := None, log := r.log + [Emission(Failure, token)])
  }

  function Delivered(r: Rows): Rows { r.(status := OutInProgress) }

  function SetStatus(r: Rows, st: OutboxStatus): Rows {
    if r.status == OutInProgress then r.(status := st) else r
  }

  function PairedReap(r: Rows): Rows {
    if r.status == OutInProgress then EvictClaim(r).(status := OutPending) else r
  }

  function Requeue(r: Rows, stale: bool): Rows {
    if r.status == OutFailed || (r.status == OutInProgress && stale) then r.(status := OutPending) else r
  }

  // ---- Handlers

  datatype Phase =
    | Claiming(first: bool)
    | Reaping
    | Executing(token: nat)
    | Returning(ok: bool)

  datatype System = System(rows: Rows, handlers: map<nat, Phase>)

  datatype Move =
    | Poll(id: nat)
    | PollUndelivered
    | TryClaim(id: nat)
    | TryReap(id: nat, stale: bool)
    | Succeed(id: nat)
    | Fail(id: nat)
    | Raise(id: nat)
    | Return(id: nat)
    | Crash(id: nat)
    | ReapClaim
    | ReapPaired
    | ForceRelease
    | ForceRequeue(stale: bool)
    | HitlRelease

  function In(s: System, id: nat, p: Phase): System {
    s.(handlers := s.handlers[id := p])
  }

  function Gone(s: System, id: nat): System {
    s.(handlers := s.handlers - {id})
  }

  /** What handler `id`, in phase `p`, does next. */
  function Act(s: System, id: nat, p: Phase, m: Move): System {
    match m
    case TryClaim(_) =>
      if !p.Claiming? then s
      else if s.rows.claim.None? then In(s.(rows := InsertClaim(s.rows)), id, Executing(s.rows.tokens))
      else In(s, id, if p.first then Reaping else Returning(true))
    case TryReap(_, stale) =>
      if !p.Reaping? then s
      else if stale && Unfinished(s.rows.claim) then In(s.(rows := EvictClaim(s.rows)), id, Claiming(false))
      else In(s, id, Returning(true))
    case Succeed(_) =>
      if p.Executing? then In(s.(rows := EmitSuccess(s.rows, p.token)), id, Returning(true)) else s
    case Fail(_) =>
      if p.Executing? then In(s.(rows := EmitFailure(s.rows, p.token)), id, Returning(true)) else s
    case Raise(_) => if p.Executing? then In(s, id, Returning(false)) else s
    case Return(_) =>
      if p.Returning? then Gone(s.(rows := SetStatus(s.rows, if p.ok then OutCompleted else OutFailed)), id) else s
    case Crash(_) => Gone(s, id)
    case _ => s
  }

  /** One atomic step of the whole system. */
  function Next(s: System, m: Move): System {
    match m
    case Poll(id) =>
      if s.rows.status == OutPending && id !in s.handlers
      then In(s.(rows := Delivered(s.rows)), id, Claiming(true)) else s
    case PollUndelivered =>
      if s.rows.status == OutPending then s.(rows := Delivered(s.rows)) else s
    case ReapClaim => s.(rows := EvictClaim(s.rows))
    case ReapPaired => s.(rows := PairedReap(s.rows))
    case ForceRelease => s.(rows := EvictClaim(s.rows))
    case ForceRequeue(stale) => s.(rows := Requeue(s.rows, stale))
    case HitlRelease => s.(rows := s.rows.(claim := None))
    case _ => if m.id in s.handlers then Act(s, m.id, s.handlers[m.id], m) else s
  }

  function Play(s: System, moves: seq<Move>): System
    decreases |moves|
  {
    if moves == [] then s else Play(Next(s, moves[0]), moves[1..])
  }

  const QUEUED := System(Rows(OutPending, None, [], 0), map[])

  // ---- What is promised about emissions

  /** Zero or more failures, then at most one success and nothing after it. */
  predicate FailuresThenSuccess(log: seq<Emission>) {
    forall i :: 0 <= i < |log| - 1 ==> log[i].outcome == Failure
  }

  predicate TokensDistinct(log: seq<Emission>) {
    forall i, j :: 0 <= i < j < |log| ==> log[i].token != log[j].token
  }

  predicate Succeeded(log: seq<Emission>) {
    log != [] && log[|log| - 1].outcome == Success
  }

  ghost predicate Safe(s: System) {
    var r := s.rows;
    && FailuresThenSuccess(r.log) && TokensDistinct(r.log)
    && (forall e <- r.log :: e.token < r.tokens)
    && (r.claim.Some? ==> r.claim.value.token < r.tokens)
    && (r.claim.Some? && r.claim.value.emitted <==> Succeeded(r.log))
    && (Unfinished(r.claim) ==> forall e <- r.log :: e.token != r.claim.value.token)
    && (forall id <- s.handlers :: s.handlers[id].Executing? ==> s.handlers[id].token < r.tokens)
  }

  lemma NextSafe(s: System, m: Move)
    requires Safe(s) && m != HitlRelease
    ensures Safe(Next(s, m))
  {
    hide Fenced;
  }

  /** Whatever is emitted is emitted once, at the end of the log, under the token that owns
      the claim at that moment. */
  lemma EmittedUnderLiveToken(s: System, m: Move)
    requires Next(s, m).rows.log != s.rows.log
    ensures exists e: Emission :: (
      Next(s, m).rows.log == s.rows.log + [e] && Owned(s.rows, e.token) && (e.outcome == Success <==> m.Succeed?))
  {
    var token := s.handlers[m.id].token;
    assert Next(s, m).rows.log == s.rows.log + [Emission(if m.Succeed? then Success else Failure, token)];
  }

  /** A COMPLETED outbox row never changes status, whoever moves. */
  lemma CompletedStays(s: System, m: Move)
    requires s.rows.status == OutCompleted
    ensures Next(s, m).rows.status == OutCompleted
  {
  }

  /** The unfinished claim, if there is one, has another token. */
  predicate Dead(r: Rows, token: nat) {
    token < r.tokens && (Unfinished(r.claim) ==> r.claim.value.token != token)
  }

  /** A token that has lost its claim never owns one again, whatever happens later: whoever
      was evicted is fenced off for good, and nothing it does is emitted. */
  lemma {:induction false} EvictedTokenStaysDead(s: System, token: nat, moves: seq<Move>)
    requires Dead(s.rows, token)
    ensures !Owned(Play(s, moves).rows, token)
    ensures forall e <- Play(s, moves).rows.log :: e.token == token ==> e in s.rows.log
    decreases |moves|
  {
    if moves != [] {
      assert Dead(Next(s, moves[0]).rows, token);
      EvictedTokenStaysDead(Next(s, moves[0]), token, moves[1..]);
    }
  }

  /** Every way to take a claim away kills its token: reaping it, finishing under it, or
      releasing it. */
  lemma EvictionKills(r: Rows, token: nat)
    requires Owned(r, token) && token < r.tokens
    ensures Dead(EvictClaim(r), token) && Dead(PairedReap(r.(status := OutInProgress)), token)
    ensures Dead(EmitSuccess(r, token), token) && Dead(EmitFailure(r, token), token)
    ensures !Dead(r, token)
  {
  }

  // ---- Runs with releases for human retries

  /** No handler is about to claim and the row will not be delivered again. */
  predicate Drained(s: System) {
    s.rows.status == OutCompleted && (forall id <- s.handlers :: !s.handlers[id].Claiming?)
  }

  lemma {:induction false} DrainedIsSilent(s: System, moves: seq<Move>)
    requires Drained(s) && s.rows.claim.None?
    ensures Play(s, moves).rows.log == s.rows.log
    decreases |moves|
  {
    if moves != [] { DrainedIsSilent(Next(s, moves[0]), moves[1..]); }
  }

  /** Every release for a human retry comes before a success, or when the command is over. */
  ghost predicate GentleRun(s: System, moves: seq<Move>)
    decreases |moves|
  {
    moves != [] ==>
      && (moves[0] == HitlRelease ==> !Succeeded(s.rows.log) || Drained(s))
      && GentleRun(Next(s, moves[0]), moves[1..])
  }

  /** The invariant of a claim, or a command that is over and whose claim was deleted. */
  ghost predicate Fenced(s: System) {
    || Safe(s)
    || (Drained(s) && s.rows.claim.None? && FailuresThenSuccess(s.rows.log) && TokensDistinct(s.rows.log))
  }

  lemma NextFenced(s: System, m: Move)
    requires Fenced(s) && (m == HitlRelease ==> !Succeeded(s.rows.log) || Drained(s))
    ensures Fenced(Next(s, m))
    ensures Succeeded(s.rows.log) ==> Next(s, m).rows.log == s.rows.log
  {
    if Safe(s) && m != HitlRelease { NextSafe(s, m); }
  }

  lemma {:induction false} PlayFenced(s: System, moves: seq<Move>)
    requires Fenced(s) && GentleRun(s, moves)
    ensures Fenced(Play(s, moves))
    ensures s.rows.status == OutCompleted ==> Play(s, moves).rows.status == OutCompleted
    ensures Succeeded(s.rows.log) ==> Play(s, moves).rows.log == s.rows.log
    decreases |moves|
  {
    if moves != [] {
      NextFenced(s, moves[0]);
      PlayFenced(Next(s, moves[0]), moves[1..]);
    }
  }

  /** Over any interleaving of polls, claims, crashes, reaps, redelivery, force release and
      gentle releases for human retries, emissions are failures followed by at most one
      success, each by another token. */
  lemma EmissionsAreFenced(moves: seq<Move>)
    requires GentleRun(QUEUED, moves)
    ensures FailuresThenSuccess(Play(QUEUED, moves).rows.log) && TokensDistinct(Play(QUEUED, moves).rows.log)
  {
    PlayFenced(QUEUED, moves);
  }

  lemma {:induction false} PlaySplit(s: System, a: seq<Move>, b: seq<Move>)
    ensures Play(s, a + b) == Play(Play(s, a), b)
    decreases |a|
  {
    if a == [] {
      assert a + b == b;
    } else {
      assert (a + b)[0] == a[0] && (a + b)[1..] == a[1..] + b;
      PlaySplit(Next(s, a[0]), a[1..], b);
    }
  }

  lemma {:induction false} GentleSplit(s: System, a: seq<Move>, b: seq<Move>)
    requires GentleRun(s, a + b)
    ensures GentleRun(s, a) && GentleRun(Play(s, a), b)
    decreases |a|
  {
    if a == [] {
      assert a + b == b;
    } else {
      assert (a + b)[0] == a[0] && (a + b)[1..] == a[1..] + b;
      GentleSplit(Next(s, a[0]), a[1..], b);
    }
  }

  /** Nothing follows a success, and a completed row stays completed, from any point of a
      run on. */
  lemma SuccessAndCompletionAreFinal(moves: seq<Move>, more: seq<Move>)
    requires GentleRun(QUEUED, moves + more)
    ensures var s := Play(QUEUED, moves);
      var t := Play(QUEUED, moves + more);
      && (Succeeded(s.rows.log) ==> t.rows.log == s.rows.log)
      && (s.rows.status == OutCompleted ==> t.rows.status == OutCompleted)
  {
    GentleSplit(QUEUED, moves, more);
    PlayFenced(QUEUED, moves);
    PlaySplit(QUEUED, moves, more);
    PlayFenced(Play(QUEUED, moves), more);
  }

  // ---- The release made for a human retry

  ghost predicate OnlyOneSuccessEver(s: System) {
    forall moves: seq<Move> :: FailuresThenSuccess(Play(s, moves).rows.log)
  }

  lemma FreshId(ids: set<nat>) returns (n: nat)
    ensures forall id <- ids :: id < n
  {
    n := 0;
    var left := ids;
    while left != {}
      invariant left <= ids && forall id <- ids :: id in left || id < n
    {
      var id :| id in left;
      if n <= id { n := id + 1; }
      left := left - {id};
    }
  }

  /** A second emission after a success is not of the promised form. */
  lemma SuccessRepeated(log: seq<Emission>, e: Emission)
    requires Succeeded(log)
    ensures !FailuresThenSuccess(log + [e])
  {
    assert (log + [e])[|log| - 1] == log[|log| - 1];
  }

  lemma Steps(s: System, a: Move, rest: seq<Move>)
    ensures Play(s, [a] + rest) == Play(Next(s, a), rest)
  {
    assert ([a] + rest)[1..] == rest;
  }

  /** A handler that is about to claim will emit a second success. */
  lemma ClaimingRepeats(s: System, id: nat)
    requires Succeeded(s.rows.log) && s.rows.claim.None? && id in s.handlers && s.handlers[id].Claiming?
    ensures !OnlyOneSuccessEver(s)
  {
    var s1 := Next(s, TryClaim(id));
    var s2 := Next(s1, Succeed(id));
    assert s2.rows.log == s.rows.log + [Emission(Success, s.rows.tokens)];
    SuccessRepeated(s.rows.log, Emission(Success, s.rows.tokens));
    Steps(s, TryClaim(id), [Succeed(id)]);
    Steps(s1, Succeed(id), []);
    assert Play(s2, []) == s2 && [Succeed(id)] + [] == [Succeed(id)];
    assert !FailuresThenSuccess(Play(s, [TryClaim(id)] + [Succeed(id)]).rows.log);
  }

  lemma LaterToo(s: System, m: Move)
    requires !OnlyOneSuccessEver(Next(s, m))
    ensures !OnlyOneSuccessEver(s)
  {
    var moves: seq<Move> :| !FailuresThenSuccess(Play(Next(s, m), moves).rows.log);
    Steps(s, m, moves);
    assert !FailuresThenSuccess(Play(s, [m] + moves).rows.log);
  }

  lemma PendingRepeats(s: System)
    requires Succeeded(s.rows.log) && s.rows.claim.None? && s.rows.status == OutPending
    ensures !OnlyOneSuccessEver(s)
  {
    var id := FreshId(s.handlers.Keys);
    ClaimingRepeats(Next(s, Poll(id)), id);
    LaterToo(s, Poll(id));
  }

  /** Deleting the claim of a command that has emitted its success lets it be executed and
      emitted again, exactly when its row is not COMPLETED or a handler is about to claim. */
  lemma HitlReleaseExact(s: System)
    requires Safe(s) && Succeeded(s.rows.log)
    ensures OnlyOneSuccessEver(Next(s, HitlRelease)) <==> Drained(s)
  {
    var t := Next(s, HitlRelease);
    if Drained(s) {
      forall moves: seq<Move> ensures FailuresThenSuccess(Play(t, moves).rows.log) {
        DrainedIsSilent(t, moves);
      }
    } else if s.rows.status == OutCompleted {
      var id :| id in s.handlers && s.handlers[id].Claiming?;
      ClaimingRepeats(t, id);
    } else if s.rows.status == OutPending {
      PendingRepeats(t);
    } else {
      var m := if s.rows.status == OutInProgress then ReapPaired else ForceRequeue(false);
      PendingRepeats(Next(t, m));
      LaterToo(t, m);
    }
  }

  /** Before a success the release is as harmless as a reap. */
  lemma HitlReleaseSafe(s: System)
    requires Safe(s)
    ensures Safe(Next(s, HitlRelease)) <==> !Succeeded(s.rows.log)
  {
  }

  /** The worker reports, dies before completing its row, a human asks for another
      attempt and the row is reaped: one key, two successes. */
  lemma TwoSuccesses()
    ensures exists moves: seq<Move> :: !FailuresThenSuccess(Play(QUEUED, moves).rows.log)
  {
    var s1 := Next(QUEUED, Poll(0));
    var s2 := Next(s1, TryClaim(0));
    var s3 := Next(s2, Succeed(0));
    var s4 := Next(s3, HitlRelease);
    NextSafe(QUEUED, Poll(0));
    NextSafe(s1, TryClaim(0));
    NextSafe(s2, Succeed(0));
    HitlReleaseExact(s3);
    LaterToo(s3, HitlRelease);
    LaterToo(s2, Succeed(0));
    LaterToo(s1, TryClaim(0));
    LaterToo(QUEUED, Poll(0));
    var moves: seq<Move> :| !FailuresThenSuccess(Play(QUEUED, moves).rows.log);
  }
}
