/** Operator calls that share a client-supplied recovery token. A call looks the token up
    first and applies and records at the end of its transaction, so calls overlap. */
module RecoveryIdempotency {
  import opened SagaTypes

  /** kind, force and allow_destructive, hashed; the hash is injective here. */
  datatype Fingerprint = Fingerprint(kind: string, force: bool, allow: Option<bool>)

  type Response = int

  /** What the recovery itself does to the rest of the database, or that it refuses. */
  datatype Effect<W> = Applied(world: W, response: Response) | Refused

  datatype Record = Record(fingerprint: Fingerprint, response: Response)

  datatype Reply = Replied(response: Response) | Conflicted | Errored

  datatype Phase = New | Missed | Over(reply: Reply)

  datatype Request = Request(fingerprint: Fingerprint, phase: Phase)

  /** The stored record of one dedup key, the rest of the database, all calls with that key
      and the fingerprints of those whose effect was committed. */
  datatype Ledger<W> = Ledger(record: Option<Record>, world: W, requests: map<nat, Request>, effects: seq<Fingerprint>)

  datatype Move = Arrive(id: nat, fingerprint: Fingerprint) | Lookup(id: nat) | Finish(id: nat) | Abort(id: nat)

  type Recovery<!W> = (W, Fingerprint) -> Effect<W>

  function ReplayOrConflict(r: Record, fp: Fingerprint): Reply {
    if r.fingerprint != fp then Conflicted else Replied(r.response)
  }

  function In<W>(d: Ledger<W>, id: nat, p: Phase): Ledger<W>
    requires id in d.requests
  {
    d.(requests := d.requests[id := d.requests[id].(phase := p)])
  }

  /** Apply and insert, or roll back: the primary key admits one record per dedup key. */
  function Commit<W>(apply: Recovery<W>, d: Ledger<W>, id: nat): Ledger<W>
    requires id in d.requests
  {
    var fp := d.requests[id].fingerprint;
    match apply(d.world, fp)
    case Refused => In(d, id, Over(Errored))
    case Applied(w, response) =>
      if d.record.Some? then In(d, id, Over(Errored))
      else In(d, id, Over(Replied(response)))
             .(record := Some(Record(fp, response)), world := w, effects := d.effects + [fp])
  }

  function Advance<W>(apply: Recovery<W>, d: Ledger<W>, m: Move): Ledger<W> {
    match m
    case Arrive(id, fp) => if id in d.requests then d else d.(requests := d.requests[id := Request(fp, New)])
    case Lookup(id) =>
      if id !in d.requests || !d.requests[id].phase.New? then d
      else if d.record.Some? then In(d, id, Over(ReplayOrConflict(d.record.value, d.requests[id].fingerprint)))
      else In(d, id, Missed)
    case Finish(id) =>
      if id !in d.requests || !d.requests[id].phase.Missed? then d else Commit(apply, d, id)
    case Abort(id) =>
      if id !in d.requests || d.requests[id].phase.Over? then d else In(d, id, Over(Errored))
  }

  function AdvanceAll<W>(apply: Recovery<W>, d: Ledger<W>, moves: seq<Move>): Ledger<W>
    decreases |moves|
  {
    if moves == [] then d else AdvanceAll(apply, Advance(apply, d, moves[0]), moves[1..])
  }

  function EmptyLedger<W>(w: W): Ledger<W> { Ledger(None, w, map[], []) }

  /** At most one effect; it is the recorded one, and it is the only change since `w0`. */
  ghost predicate Consistent<W(!new)>(apply: Recovery<W>, w0: W, d: Ledger<W>) {
    && (d.record.None? ==> d.effects == [] && d.world == w0)
    && (d.record.Some? ==>
          && d.effects == [d.record.value.fingerprint]
          && apply(w0, d.record.value.fingerprint) == Applied(d.world, d.record.value.response))
    && (forall id <- d.requests :: d.requests[id].phase.Over? && d.requests[id].phase.reply.Replied? ==>
          d.record == Some(Record(d.requests[id].fingerprint, d.requests[id].phase.reply.response)))
    && (forall id <- d.requests :: d.requests[id].phase.Over? && d.requests[id].phase.reply.Conflicted? ==>
          d.record.Some? && d.record.value.fingerprint != d.requests[id].fingerprint)
  }

  lemma AdvanceConsistent<W(!new)>(apply: Recovery<W>, w0: W, d: Ledger<W>, m: Move)
    requires Consistent(apply, w0, d)
    ensures Consistent(apply, w0, Advance(apply, d, m))
    ensures d.record.Some? ==> Advance(apply, d, m).record == d.record && Advance(apply, d, m).world == d.world
  {
  }

  lemma {:induction false} AdvanceAllConsistent<W(!new)>(apply: Recovery<W>, w0: W, d: Ledger<W>, moves: seq<Move>)
    requires Consistent(apply, w0, d)
    ensures Consistent(apply, w0, AdvanceAll(apply, d, moves))
    decreases |moves|
  {
    if moves != [] {
      AdvanceConsistent(apply, w0, d, moves[0]);
      AdvanceAllConsistent(apply, w0, Advance(apply, d, moves[0]), moves[1..]);
    }
  }

  /** Over any interleaving the effect is applied at most once, every answer is the stored
      one, and a call with other parameters is never the one that took effect. */
  lemma AppliedAtMostOnce<W(!new)>(apply: Recovery<W>, w0: W, moves: seq<Move>)
    ensures var d := AdvanceAll(apply, EmptyLedger(w0), moves);
      && |d.effects| <= 1
      && (d.effects == [] ==> d.world == w0)
      && (forall id <- d.requests :: d.requests[id].phase.Over? && d.requests[id].phase.reply.Replied? ==>
            d.record == Some(Record(d.requests[id].fingerprint, d.requests[id].phase.reply.response)))
      && (forall id <- d.requests :: d.requests[id].phase.Over? && d.requests[id].phase.reply.Conflicted? ==>
            d.requests[id].fingerprint !in d.effects)
  {
    AdvanceAllConsistent(apply, w0, EmptyLedger(w0), moves);
  }

  /** Once a record exists, its own move ends every call, changes nothing else, and answers
      a matching call with the stored response exactly when it had not looked before. */
  lemma ReplayExact<W(!new)>(apply: Recovery<W>, w0: W, d: Ledger<W>, id: nat)
    requires Consistent(apply, w0, d) && d.record.Some? && id in d.requests && !d.requests[id].phase.Over?
    ensures var m := if d.requests[id].phase.New? then Lookup(id) else Finish(id);
      var d1 := Advance(apply, d, m);
      && d1.record == d.record && d1.world == d.world && d1.effects == d.effects
      && d1.requests[id].phase.Over?
      && (d.requests[id].fingerprint == d.record.value.fingerprint ==>
            (d1.requests[id].phase.reply == Replied(d.record.value.response) <==> d.requests[id].phase.New?))
      && (d.requests[id].fingerprint != d.record.value.fingerprint ==>
            (d1.requests[id].phase.reply == Conflicted <==> d.requests[id].phase.New?))
  {
  }

  function Ahead(p: Phase): nat {
    match p
    case New => 2
    case Missed => 1
    case Over(_) => 0
  }

  /** Nobody else moves a call; its own next move, or its abort, takes it further, and an
      aborted call leaves neither record nor effect. */
  lemma CallsGoOn<W(!new)>(apply: Recovery<W>, d: Ledger<W>, m: Move, id: nat)
    requires id in d.requests
    ensures var d1 := Advance(apply, d, m);
      && id in d1.requests && d1.requests[id].fingerprint == d.requests[id].fingerprint
      && (m.id != id || m.Arrive? || d.requests[id].phase.Over? ==> d1.requests[id] == d.requests[id])
      && (!d.requests[id].phase.Over? && m in {Abort(id), if d.requests[id].phase.New? then Lookup(id) else Finish(id)} ==>
            Ahead(d1.requests[id].phase) < Ahead(d.requests[id].phase))
      && (m == Abort(id) ==> d1.record == d.record && d1.world == d.world && d1.effects == d.effects)
  {
  }

  /** Of the calls that looked before there was a record, the first to finish takes effect,
      is recorded and answered, unless the recovery refuses; then nothing has changed. */
  lemma FirstFinishApplies<W(!new)>(apply: Recovery<W>, w0: W, d: Ledger<W>, id: nat)
    requires Consistent(apply, w0, d) && d.record.None? && id in d.requests && d.requests[id].phase.Missed?
    ensures var fp := d.requests[id].fingerprint;
      var d1 := Advance(apply, d, Finish(id));
      match apply(w0, fp)
      case Refused => d1.requests[id].phase == Over(Errored) && d1.record.None? && d1.world == w0 && d1.effects == []
      case Applied(w, response) =>
        && d1.requests[id].phase == Over(Replied(response)) && d1.world == w
        && d1.record == Some(Record(fp, response)) && d1.effects == [fp]
  {
  }

  /** Two calls that both looked before either committed: one is answered, its twin gets an
      error instead of the stored response. */
  lemma TwinGetsError<W(!new)>(apply: Recovery<W>, w0: W, fp: Fingerprint)
    requires apply(w0, fp).Applied?
    ensures exists moves: seq<Move> ::
      var d := AdvanceAll(apply, EmptyLedger(w0), moves);
      && 0 in d.requests && 1 in d.requests && d.requests[0].fingerprint == d.requests[1].fingerprint
      && d.requests[0].phase == Over(Replied(apply(w0, fp).response)) && d.requests[1].phase == Over(Errored)
  {
    var m := [Arrive(0, fp), Arrive(1, fp), Lookup(0), Lookup(1), Finish(0), Finish(1)];
    var d0 := EmptyLedger(w0);
    var d1 := Advance(apply, d0, m[0]);
    var d2 := Advance(apply, d1, m[1]);
    var d3 := Advance(apply, d2, m[2]);
    var d4 := Advance(apply, d3, m[3]);
    var d5 := Advance(apply, d4, m[4]);
    var d6 := Advance(apply, d5, m[5]);
    assert m[1..][1..] == m[2..] && m[2..][1..] == m[3..] && m[3..][1..] == m[4..] && m[4..][1..] == m[5..] && m[5..][1..] == [];
    assert AdvanceAll(apply, d5, m[5..]) == d6;
    assert AdvanceAll(apply, d4, m[4..]) == d6;
    assert AdvanceAll(apply, d3, m[3..]) == d6;
    assert AdvanceAll(apply, d2, m[2..]) == d6;
    assert AdvanceAll(apply, d1, m[1..]) == d6;
    assert AdvanceAll(apply, d0, m) == d6;
  }

  // ---- The table itself

  class RecoveryTable<W(!new)> {
    var records: map<string, Record>
    var world: W

    constructor (w: W)
      ensures records == map[] && world == w
    {
      records, world := map[], w;
    }

    /** One call on its own: replay, refuse, or apply and record. Without a token nothing
        is looked up and nothing recorded. */
    method WithOperatorRecoveryIdempotency(key: Option<string>, fp: Fingerprint, apply: Recovery<W>)
      returns (reply: Reply)
      modifies this
      ensures key.None? ==> records == old(records)
      ensures key.None? ==>
        match apply(old(world), fp)
        case Refused => reply == Errored && world == old(world)
        case Applied(w, response) => reply == Replied(response) && world == w
      ensures key.Some? ==>
        var d := Advance(apply, Ledger(Seen(old(records), key.value), old(world), map[0 := Request(fp, New)], []), Lookup(0));
        var d1 := Advance(apply, d, Finish(0));
        && d1.requests[0].phase == Over(reply) && world == d1.world && Seen(records, key.value) == d1.record
        && records.Keys <= old(records).Keys + {key.value}
        && forall k <- old(records) :: k in records && records[k] == old(records)[k]
    {
      if key.Some? && key.value in records { return ReplayOrConflict(records[key.value], fp); }
      match apply(world, fp)
      case Refused => reply := Errored;
      case Applied(w, response) =>
        world := w;
        if key.Some? { records := records[key.value := Record(fp, response)]; }
        reply := Replied(response);
    }
  }

  function Seen(records: map<string, Record>, key: string): Option<Record> {
    if key in records then Some(records[key]) else None
  }
}
