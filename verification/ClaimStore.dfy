/** The tables behind worker commands, with the transactions that consumers, workers,
    reapers and operators run on them. Each leaves every other key alone. */
module ClaimStore {
  import opened SagaTypes
  import opened ClaimProtocol

  /** `k` moved as `f` says, all other keys stayed. */
  ghost predicate OnlyKey(before: map<string, Rows>, after: map<string, Rows>, k: string) {
    after.Keys == before.Keys && forall j <- before :: j != k ==> after[j] == before[j]
  }

  /** The rows a batch moved, and the others. */
  ghost predicate Batch(before: map<string, Rows>, after: map<string, Rows>, moved: set<string>, f: Rows -> Rows) {
    && after.Keys == before.Keys && moved <= before.Keys
    && (forall k <- before :: after[k] == if k in moved then f(before[k]) else before[k])
  }

  function StaleInProgress(table: map<string, Rows>, stale: set<string>): set<string> {
    set k | k in table && k in stale && table[k].status == OutInProgress
  }

  function StaleClaims(table: map<string, Rows>, stale: set<string>): set<string> {
    set k | k in table && k in stale && Unfinished(table[k].claim)
  }

  function PendingRows(table: map<string, Rows>): set<string> {
    set k | k in table && table[k].status == OutPending
  }

  /** A row a poll may take: it is PENDING and no other transaction holds its lock. */
  predicate Waits(table: map<string, Rows>, locked: set<string>, k: string) {
    k in table && table[k].status == OutPending && k !in locked
  }

  /** `keys` are waiting rows among the first `n`, and no younger row is taken before an
      older one. */
  ghost predicate OldestFirst(table: map<string, Rows>, locked: set<string>, created: seq<string>, n: nat, keys: set<string>)
    requires n <= |created|
  {
    && (forall k <- keys :: Waits(table, locked, k) && k in created[..n])
    && (forall i, j :: 0 <= i < j < n && created[j] in keys && Waits(table, locked, created[i]) ==> created[i] in keys)
  }

  class Tables {
    var table: map<string, Rows>
    /** The keys by creation time of their outbox rows. */
    var created: seq<string>

    ghost predicate Valid()
      reads this
    {
      && (forall i, j :: 0 <= i < j < |created| ==> created[i] != created[j])
      && (forall k :: k in table <==> k in created)
    }

    constructor ()
      ensures Valid() && table == map[] && created == []
    {
      table, created := map[], [];
    }

    /** Producer: at most one row per idempotency key. */
    method Publish(key: string)
      requires Valid()
      modifies this
      ensures Valid()
      ensures table == if key in old(table) then old(table) else old(table)[key := QUEUED.rows]
      ensures created == if key in old(table) then old(created) else old(created) + [key]
    {
      if key !in table { table, created := table[key := QUEUED.rows], created + [key]; }
    }

    // ---- workers/logic.py

    method CreateProcessedCommand(key: string) returns (token: Option<nat>)
      requires key in table
      modifies this
      ensures OnlyKey(old(table), table, key) && table[key] == InsertClaim(old(table)[key])
      ensures token.Some? <==> old(table)[key].claim.None?
      ensures token.Some? ==> token.value == old(table)[key].tokens && Owned(table[key], token.value)
    {
      token := if table[key].claim.None? then Some(table[key].tokens) else None;
      table := table[key := InsertClaim(table[key])];
    }

    method ReapStaleClaimByKey(key: string, stale: bool) returns (deleted: bool)
      requires key in table
      modifies this
      ensures deleted == (stale && Unfinished(old(table)[key].claim))
      ensures OnlyKey(old(table), table, key)
      ensures table[key] == if stale then EvictClaim(old(table)[key]) else old(table)[key]
    {
      deleted := stale && Unfinished(table[key].claim);
      if deleted { table := table[key := EvictClaim(table[key])]; }
    }

    /** Two attempts: a stale claim in the way of the first is reaped before the second. */
    method ClaimIdempotencyKey(key: string, stale: bool) returns (token: Option<nat>)
      requires key in table
      modifies this
      ensures OnlyKey(old(table), table, key)
      ensures var r := old(table)[key];
        var free := r.claim.None? || (stale && Unfinished(r.claim));
        && (token.Some? <==> free)
        && table[key] == (if free then InsertClaim(r.(claim := None)) else r)
      ensures token.Some? ==> token.value == old(table)[key].tokens && Owned(table[key], token.value)
    {
      ghost var r := table[key];
      for attempt := 0 to 2
        invariant OnlyKey(old(table), table, key)
        invariant attempt == 0 ==> table[key] == r
        invariant attempt > 0 ==> stale && Unfinished(r.claim) && table[key] == r.(claim := None)
      {
        token := CreateProcessedCommand(key);
        if token.Some? { return; }
        if attempt == 0 {
          var reaped := ReapStaleClaimByKey(key, stale);
          if reaped { continue; }
        }
        return;
      }
    }

    method MarkClaimResultEmitted(key: string, token: nat) returns (marked: bool)
      requires key in table
      modifies this
      ensures marked == Owned(old(table)[key], token)
      ensures OnlyKey(old(table), table, key)
      ensures table[key] == if marked then old(table)[key].(claim := Some(ClaimRow(token, true))) else old(table)[key]
    {
      marked := Owned(table[key], token);
      if marked { table := table[key := table[key].(claim := Some(ClaimRow(token, true)))]; }
    }

    /** Mark first, emit only if the claim was still ours. */
    method FinalizeSuccess(key: string, token: nat)
      requires key in table
      modifies this
      ensures OnlyKey(old(table), table, key) && table[key] == EmitSuccess(old(table)[key], token)
    {
      var marked := MarkClaimResultEmitted(key, token);
      if !marked { return; }
      table := table[key := table[key].(log := table[key].log + [Emission(Success, token)])];
    }

    method ReleaseCommandClaim(key: string, token: nat)
      requires key in table
      modifies this
      ensures OnlyKey(old(table), table, key)
      ensures table[key] ==
        if old(table)[key].claim.Some? && old(table)[key].claim.value.token == token
        then old(table)[key].(claim := None) else old(table)[key]
    {
      var claim := table[key].claim;
      if claim.Some? && claim.value.token == token { table := table[key := table[key].(claim := None)]; }
    }

    /** Verify, emit, then give the key back so that redelivery may retry. */
    method FinalizeFailure(key: string, token: nat)
      requires key in table
      modifies this
      ensures OnlyKey(old(table), table, key) && table[key] == EmitFailure(old(table)[key], token)
    {
      if !Owned(table[key], token) { return; }
      table := table[key := table[key].(log := table[key].log + [Emission(Failure, token)])];
      ReleaseCommandClaim(key, token);
    }

    // ---- common/messaging/postgres.py

    /** A conditional update: the row must still be IN_PROGRESS, whoever put it there. */
    method SetOutboxStatus(key: string, st: OutboxStatus) returns (updated: bool)
      requires key in table
      modifies this
      ensures updated == (old(table)[key].status == OutInProgress)
      ensures OnlyKey(old(table), table, key) && table[key] == SetStatus(old(table)[key], st)
    {
      updated := table[key].status == OutInProgress;
      if updated { table := table[key := table[key].(status := st)]; }
    }

    /** Claim up to `batch` PENDING rows in one transaction, the oldest first; rows locked by
        another transaction are skipped. */
    method PollRows(batch: nat, locked: set<string>) returns (keys: set<string>)
      requires Valid()
      modifies this`table
      ensures Valid() && |keys| <= batch
      ensures OldestFirst(old(table), locked, created, |created|, keys)
      ensures |keys| < batch ==> forall k :: Waits(old(table), locked, k) ==> k in keys
      ensures Batch(old(table), table, keys, Delivered)
    {
      keys := {};
      var n := 0;
      while n < |created| && |keys| < batch
        invariant n <= |created| && |keys| <= batch
        invariant OldestFirst(table, locked, created, n, keys)
        invariant |keys| < batch ==> forall i :: 0 <= i < n && Waits(table, locked, created[i]) ==> created[i] in keys
        invariant forall j :: n <= j < |created| ==> created[j] !in keys
      {
        if Waits(table, locked, created[n]) { keys := keys + {created[n]}; }
        n := n + 1;
      }
      table := map k | k in table :: if k in keys then Delivered(table[k]) else table[k];
    }

    // ---- common/outbox_reap.py and common/processed_command_reap.py

    /** One row per transaction: its unfinished claim goes, the row is PENDING again. */
    method ReapPairedWorkerCommandsOutbox(limit: nat, stale: set<string>) returns (reaped: set<string>)
      modifies this
      ensures |reaped| <= limit && reaped <= StaleInProgress(old(table), stale)
      ensures |reaped| < limit ==> StaleInProgress(table, stale) == {}
      ensures Batch(old(table), table, reaped, PairedReap)
    {
      reaped := {};
      for n := 0 to limit
        invariant |reaped| == n && reaped <= StaleInProgress(old(table), stale) && reaped !! StaleInProgress(table, stale)
        invariant Batch(old(table), table, reaped, PairedReap)
      {
        var candidates := StaleInProgress(table, stale);
        if candidates == {} { break; }
        var k :| k in candidates;
        table := table[k := EvictClaim(table[k])];
        table := table[k := table[k].(status := OutPending)];
        reaped := reaped + {k};
      }
    }

    method ReapStaleProcessedCommands(batch: nat, stale: set<string>) returns (deleted: set<string>)
      modifies this
      ensures |deleted| <= batch && deleted <= StaleClaims(old(table), stale)
      ensures |deleted| < batch ==> StaleClaims(table, stale) == {}
      ensures Batch(old(table), table, deleted, EvictClaim)
    {
      deleted := {};
      while |deleted| < batch && StaleClaims(table, stale) != {}
        invariant |deleted| <= batch && deleted <= StaleClaims(old(table), stale) && deleted !! StaleClaims(table, stale)
        invariant Batch(old(table), table, deleted, EvictClaim)
        decreases batch - |deleted|
      {
        var k :| k in StaleClaims(table, stale);
        table := table[k := EvictClaim(table[k])];
        deleted := deleted + {k};
      }
    }

    method ReleaseWorkerClaimForRetry(key: string)
      requires key in table
      modifies this
      ensures OnlyKey(old(table), table, key) && table[key] == old(table)[key].(claim := None)
    {
      table := table[key := table[key].(claim := None)];
    }

    // ---- engine/recovery.py

    /** Refuses while an unfinished claim is young and the operator does not insist. */
    method HandleActiveClaim(key: string, force: bool, stale: bool) returns (busy: bool)
      requires key in table
      modifies this
      ensures busy == (Unfinished(old(table)[key].claim) && !stale && !force)
      ensures OnlyKey(old(table), table, key)
      ensures table[key] == if busy then old(table)[key] else EvictClaim(old(table)[key])
    {
      var claim := table[key].claim;
      if claim.None? || claim.value.emitted { return false; }
      if stale || force {
        ReleaseWorkerClaimForRetry(key);
        return false;
      }
      busy := true;
    }

    method RequeueWorkerOutbox(key: string, force: bool, stale: bool) returns (requeued: bool)
      requires key in table
      modifies this
      ensures OnlyKey(old(table), table, key) && table[key] == Requeue(old(table)[key], force || stale)
      ensures requeued == (table[key].status == OutPending)
    {
      var st := table[key].status;
      if st == OutPending { return true; }
      if st == OutFailed || (st == OutInProgress && (force || stale)) {
        table := table[key := table[key].(status := OutPending)];
        return true;
      }
      requeued := false;
    }
  }
}
