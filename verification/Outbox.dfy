/** The transactional outbox: what is in flight has its command queued under its current
    key, and every commit command carries arguments that were allowed and, where asked
    for, reviewed. */
module Outbox {
  import opened SagaTypes
  import opened SagaSpec
  import opened ForwardPath
  import opened ForwardSteps
  import opened Compensation
  import opened Scheduling
  import opened SagaInvariant
  import opened SagaRuns
  import opened LabelKeys

  /** The commit guard: exactly one tool, and the policy passes on these arguments. */
  predicate Permitted(r: Rules, lab: Label, args: Args) {
    lab.spec.toolCount == 1 && (lab.spec.hasPolicy ==> r.gate(lab, args, None).None?)
  }

  function CommandOf(row: Row): Command {
    if row.lab.spec.kind == Commit then DoCommit(row.span, row.args) else DoStep(row.span, row.args)
  }

  /** No command has been queued for this row under its current key. */
  predicate Unsent(row: Row) {
    row.status == Pending || (row.status == AwaitingHuman && row.lab.spec.kind == Commit)
  }

  /** A held row keeps what the human is shown; for a commit, what will be sent. */
  predicate Reviewable(r: Rules, row: Row) {
    if row.lab.spec.kind == Commit then row.held == HeldArgs(row.args) && Permitted(r, row.lab, row.args)
    else row.held.HeldOutput?
  }

  predicate RowOk(r: Rules, row: Row, commands: map<Key, Command>, nextId: nat) {
    && OwnKey(row, nextId)
    && (row.status == Pending ==> row.key == LabelKey(row.lab))
    && (Unsent(row) ==> row.key !in commands)
    && (row.status == InProgress && WorkerKind(row.lab.spec.kind) ==>
          row.key in commands && commands[row.key] == CommandOf(row))
    && (row.status == AwaitingHuman ==> Reviewable(r, row))
  }

  ghost predicate MintedKey(rows: seq<Row>, k: Key) {
    exists i :: 0 <= i < |rows| && LabelKey(rows[i].lab) == k
  }

  ghost predicate Justified(r: Rules, rows: seq<Row>, c: Command) {
    c.DoCommit? ==> exists i :: 0 <= i < |rows| && rows[i].span == c.span && Permitted(r, rows[i].lab, c.args)
  }

  ghost predicate CommandsOk(r: Rules, s: Saga) {
    && (forall k <- s.commands :: match k
          case UndoKey(span) => span < s.nextId
          case RetryKey(_, token) => token < s.nextId
          case TextKey(_) => MintedKey(s.rows, k)
          case Suffixed(_) => false)
    && (forall k <- s.commands :: Justified(r, s.rows, s.commands[k]))
  }

  ghost predicate UndosOk(s: Saga) {
    forall u <- s.undos :: Dispatched(s.commands, u)
  }

  /** The outbox invariant, for all rows but possibly `i`. */
  ghost predicate OutboxedBut(r: Rules, s: Saga, i: int) {
    && CommandsOk(r, s) && UndosOk(s)
    && (forall j :: 0 <= j < |s.rows| && j != i ==> RowOk(r, s.rows[j], s.commands, s.nextId))
    && (0 <= i < |s.rows| ==> OwnKey(s.rows[i], s.nextId))
  }

  ghost predicate Outboxed(r: Rules, s: Saga) {
    OutboxedBut(r, s, -1)
  }

  /** Commands are never removed or replaced, and a new commit command is for a step
      without review. */
  ghost predicate Emits(before: map<Key, Command>, s: Saga) {
    && (forall k <- before :: k in s.commands && s.commands[k] == before[k])
    && (forall k <- s.commands :: k in before || Unreviewed(s.rows, s.commands[k]))
  }

  ghost predicate Unreviewed(rows: seq<Row>, c: Command) {
    c.DoCommit? ==> exists i :: 0 <= i < |rows| && rows[i].span == c.span && !rows[i].lab.spec.hitl
  }

  // ---- Lemmas: frames

  /** Rows keep span and label: commands stay justified. */
  lemma CommandsKept(r: Rules, s: Saga, s1: Saga)
    requires CommandsOk(r, s) && s1.commands == s.commands && s1.nextId >= s.nextId && |s.rows| <= |s1.rows|
    requires forall j :: 0 <= j < |s.rows| ==> s1.rows[j].span == s.rows[j].span && s1.rows[j].lab == s.rows[j].lab
    ensures CommandsOk(r, s1)
  {
    forall k | k in s1.commands
      ensures k.TextKey? ==> MintedKey(s1.rows, k)
      ensures Justified(r, s1.rows, s1.commands[k])
    {
      assert Justified(r, s.rows, s.commands[k]);
      if k.TextKey? {
        assert MintedKey(s.rows, k);
        var i :| 0 <= i < |s.rows| && LabelKey(s.rows[i].lab) == k;
        assert LabelKey(s1.rows[i].lab) == k;
      }
      if s.commands[k].DoCommit? {
        var c := s.commands[k];
        var i :| 0 <= i < |s.rows| && s.rows[i].span == c.span && Permitted(r, s.rows[i].lab, c.args);
        assert s1.rows[i].span == c.span && Permitted(r, s1.rows[i].lab, c.args);
      }
    }
  }

  /** One row changes, nothing else that matters to the outbox. */
  lemma RowChanged(r: Rules, s: Saga, s1: Saga, i: nat)
    requires OutboxedBut(r, s, i) && i < |s.rows|
    requires s1.commands == s.commands && s1.undos == s.undos && s1.nextId >= s.nextId
    requires |s1.rows| == |s.rows| && s1.rows == s.rows[i := s1.rows[i]]
    requires s1.rows[i].span == s.rows[i].span && s1.rows[i].lab == s.rows[i].lab
    requires OwnKey(s1.rows[i], s1.nextId)
    ensures OutboxedBut(r, s1, i)
    ensures RowOk(r, s1.rows[i], s1.commands, s1.nextId) ==> Outboxed(r, s1)
  {
    CommandsKept(r, s, s1);
  }

  lemma SideKept(r: Rules, s: Saga, s1: Saga)
    requires Outboxed(r, s) && s1.rows == s.rows && s1.commands == s.commands && s1.undos == s.undos
    requires s1.nextId >= s.nextId
    ensures Outboxed(r, s1)
  {
    CommandsKept(r, s, s1);
  }

  // ---- Lemmas: compensation

  lemma UndoKeysAdded(r: Rules, s: Saga, s1: Saga)
    requires CommandsOk(r, s) && UndosGrow(s, s1) && ForwardKept(s, s1)
    ensures CommandsOk(r, s1) && Emits(s.commands, s1)
  {
    forall k | k in s1.commands
      ensures k.TextKey? ==> MintedKey(s1.rows, k)
      ensures Justified(r, s1.rows, s1.commands[k])
      ensures k in s.commands || Unreviewed(s1.rows, s1.commands[k])
    {
      if k in s.commands {
        assert Justified(r, s.rows, s.commands[k]);
        if k.TextKey? {
          assert MintedKey(s.rows, k);
          var i :| 0 <= i < |s.rows| && LabelKey(s.rows[i].lab) == k;
          assert LabelKey(s1.rows[i].lab) == k;
        }
        if s.commands[k].DoCommit? {
          var c := s.commands[k];
          var i :| 0 <= i < |s.rows| && s.rows[i].span == c.span && Permitted(r, s.rows[i].lab, c.args);
          assert s1.rows[i].span == c.span && Permitted(r, s1.rows[i].lab, c.args);
        }
      }
    }
  }

  lemma UndosStayOk(r: Rules, s: Saga, s1: Saga)
    requires CommandsOk(r, s) && UndosOk(s) && UndosGrow(s, s1) && Numbered(s)
    ensures UndosOk(s1)
  {
    assert NoFutureUndo(s);
    forall u | u in s1.undos ensures Dispatched(s1.commands, u) {
      var j :| 0 <= j < |s1.undos| && s1.undos[j] == u;
      if j < |s.undos| {
        assert u == s1.undos[..|s.undos|][j] == s.undos[j];
        assert Dispatched(s.commands, s.undos[j]);
      }
    }
  }

  lemma FramedOutboxed(r: Rules, s: Saga, s1: Saga)
    requires Outboxed(r, s) && Numbered(s) && Framed(s, s1)
    ensures Outboxed(r, s1) && Emits(s.commands, s1)
  {
    UndoKeysAdded(r, s, s1);
    UndosStayOk(r, s, s1);
    forall j | 0 <= j < |s1.rows| ensures RowOk(r, s1.rows[j], s1.commands, s1.nextId) {
      assert RowOk(r, s.rows[j], s.commands, s.nextId);
    }
  }

  lemma UnwindOutboxed(r: Rules, e: Env, s: Saga, q: int)
    requires Outboxed(r, s) && Quiet(s) && Numbered(s)
    ensures Outboxed(r, Unwind(e, s, q)) && Emits(s.commands, Unwind(e, s, q))
  {
    UnwindFrame(e, s, q);
    FramedOutboxed(r, s, Unwind(e, s, q));
  }

  /** All rows but `i` are at rest. */
  predicate QuietBut(rows: seq<Row>, i: int) {
    forall j :: 0 <= j < |rows| && j != i ==> rows[j].status != InProgress && rows[j].status != AwaitingHuman
  }

  lemma FailOutboxed(r: Rules, e: Env, s: Saga, i: nat, err: Option<Err>)
    requires i < |s.rows| && OutboxedBut(r, s, i) && Numbered(s) && QuietBut(s.rows, i)
    ensures Outboxed(r, FailStep(e, s, i, err)) && Emits(s.commands, FailStep(e, s, i, err))
  {
    hide CommandsOk, UndosOk, Framed, Unwind;
    var row := FailedRow(s.rows[i], err);
    var s1 := WithRow(s, i, row);
    RowChanged(r, s, s1, i);
    if row.lab.spec.awaitOperator {
      SideKept(r, s1, s1.(status := AwaitingRecovery));
    } else {
      var start := if row.status == TimedOut || Crashed(err) then i else i - 1;
      var s2 := s1.(status := SagaCompensating, window := start);
      SideKept(r, s1, s2);
      assert Numbered(s1) && Numbered(s2);
      if start < 0 {
        ConcludeFramed(s1);
        FramedOutboxed(r, s1, ConcludeFailed(s1));
      } else {
        UnwindOutboxed(r, e, s2, start);
      }
    }
  }

  // ---- Lemmas: dispatch

  /** Queueing the command of a row whose key is still free. */
  lemma SendOutboxed(r: Rules, s: Saga, i: nat)
    requires i < |s.rows| && OutboxedBut(r, s, i) && QuietBut(s.rows, i) && DistinctKeys(Labs(s.rows))
    requires s.rows[i].status == InProgress && s.rows[i].key !in s.commands
    requires s.rows[i].lab.spec.kind == Commit ==> Permitted(r, s.rows[i].lab, s.rows[i].args)
    ensures Outboxed(r, Send(s, i, CommandOf(s.rows[i])))
    ensures (s.rows[i].lab.spec.kind == Commit ==> !s.rows[i].lab.spec.hitl) ==>
      Emits(s.commands, Send(s, i, CommandOf(s.rows[i])))
  {
    var row := s.rows[i];
    var s1 := Send(s, i, CommandOf(row));
    forall k | k in s1.commands
      ensures k.TextKey? ==> MintedKey(s1.rows, k)
      ensures Justified(r, s1.rows, s1.commands[k])
    {
      if k == row.key {
        if k.TextKey? { assert LabelKey(s1.rows[i].lab) == k; }
      } else {
        assert Justified(r, s.rows, s.commands[k]);
      }
    }
    forall j | 0 <= j < |s1.rows| ensures RowOk(r, s1.rows[j], s1.commands, s1.nextId) {
      if j != i && s.rows[j].status == Pending {
        assert LabelKey(Labs(s.rows)[i]) != LabelKey(Labs(s.rows)[j]);
      }
    }
  }

  lemma DeliverOutboxed(r: Rules, e: Env, s: Saga, i: nat)
    requires i < |s.rows| && OutboxedBut(r, s, i) && Numbered(s) && QuietBut(s.rows, i) && DistinctKeys(Labs(s.rows))
    requires s.rows[i].status == InProgress && s.rows[i].key !in s.commands
    ensures Outboxed(r, Deliver(r, e, s, i, s.rows[i].args)) && Emits(s.commands, Deliver(r, e, s, i, s.rows[i].args))
  {
    var row := s.rows[i];
    var lab := row.lab;
    if lab.spec.kind == Commit && lab.spec.toolCount != 1 {
      FailOutboxed(r, e, s, i, Some(Err(false, false)));
    } else if lab.spec.kind == Commit && lab.spec.hasPolicy && r.gate(lab, row.args, None).Some? {
      FailOutboxed(r, e, s, i, r.gate(lab, row.args, None));
    } else if lab.spec.kind == Commit && lab.spec.hitl {
      RowChanged(r, s, Hold(s, i, HeldArgs(row.args)), i);
    } else {
      SendOutboxed(r, s, i);
    }
  }

  lemma DispatchOutboxed(r: Rules, e: Env, s: Saga, i: nat, guidance: Option<int>)
    requires i < |s.rows| && OutboxedBut(r, s, i) && Numbered(s) && QuietBut(s.rows, i) && DistinctKeys(Labs(s.rows))
    requires s.rows[i].key !in s.commands
    ensures Outboxed(r, Dispatch(r, e, s, i, guidance)) && Emits(s.commands, Dispatch(r, e, s, i, guidance))
  {
    var row := s.rows[i].(status := InProgress);
    match r.resolve(s.ctx, row.lab, row.retries, guidance)
    case Unresolved(err) =>
      var s1 := WithRow(s, i, row);
      RowChanged(r, s, s1, i);
      assert Numbered(s1);
      FailOutboxed(r, e, s1, i, err);
    case Resolved(args) =>
      var s1 := WithRow(s, i, row.(args := args));
      RowChanged(r, s, s1, i);
      assert Numbered(s1) && Labs(s1.rows) == Labs(s.rows);
      DeliverOutboxed(r, e, s1, i);
  }

  // ---- Lemmas: scheduling

  /** A freshly minted row has a key no command uses. */
  lemma NewKeyFree(r: Rules, s: Saga, t: Saga, j: nat)
    requires CommandsOk(r, s) && Grown(s, t) && |s.rows| <= j < |t.rows| && DistinctKeys(Labs(t.rows))
    ensures LabelKey(t.rows[j].lab) !in s.commands
  {
    forall i | 0 <= i < |s.rows| ensures LabelKey(s.rows[i].lab) != LabelKey(t.rows[j].lab) {
      assert Advanced(s.rows[i], t.rows[i]);
      assert LabelKey(Labs(t.rows)[i]) != LabelKey(Labs(t.rows)[j]);
    }
    assert LabelKey(t.rows[j].lab) in s.commands ==> MintedKey(s.rows, LabelKey(t.rows[j].lab));
  }

  /** After a scheduling pass all rows but the one it stopped at are finished or pending. */
  lemma GrownOutboxed(r: Rules, s: Saga, t: Saga, i0: int, i: int)
    requires OutboxedBut(r, s, i0) && Grown(s, t) && DistinctKeys(Labs(t.rows))
    requires 0 <= i0 < |s.rows| ==> s.rows[i0].status != Pending
    requires forall j :: 0 <= j < |t.rows| && j != i ==> Done(t.rows[j].status) || t.rows[j].status == Pending
    ensures OutboxedBut(r, t, i)
    ensures 0 <= i < |t.rows| && t.rows[i].status == Pending ==> t.rows[i].key !in t.commands
  {
    forall j | 0 <= j < |s.rows| ensures t.rows[j].span == s.rows[j].span && t.rows[j].lab == s.rows[j].lab {
      assert Advanced(s.rows[j], t.rows[j]);
    }
    CommandsKept(r, s, t);
    forall j | 0 <= j < |t.rows|
      ensures OwnKey(t.rows[j], t.nextId)
      ensures t.rows[j].status == Pending ==> t.rows[j].key == LabelKey(t.rows[j].lab) && t.rows[j].key !in t.commands
    {
      if j < |s.rows| {
        assert Advanced(s.rows[j], t.rows[j]);
        if t.rows[j].status == Pending { assert RowOk(r, s.rows[j], s.commands, s.nextId); }
      } else {
        NewKeyFree(r, s, t, j);
      }
    }
  }

  lemma LoopFailedOutboxed(r: Rules, e: Env, s: Saga, i: nat)
    requires Outboxed(r, s) && Numbered(s) && Quiet(s) && i < |s.rows|
    ensures var s1 := Settle(r, e, LoopFailed(s, i), None); Outboxed(r, s1) && Emits(s.commands, s1)
  {
    var row := s.rows[i];
    var s1 := WithRow(s, i, row.(error := if row.error.Some? then row.error else Some(Err(false, false))));
    assert RowOk(r, row, s.commands, s.nextId);
    RowChanged(r, s, s1, i);
    var s2 := s1.(status := SagaCompensating, window := i);
    SideKept(r, s1, s2);
    assert Numbered(s2);
    UnwindOutboxed(r, e, s2, i);
  }

  ghost predicate RestsBut(rows: seq<Row>, i: int) {
    forall j :: 0 <= j < |rows| && j != i ==> Done(rows[j].status) || rows[j].status == Pending
  }

  /** What happens to the row a scheduling pass stopped at. */
  lemma StoppedRowOutboxed(r: Rules, e: Env, t: Saga, stop: Stop, guidance: Option<int>)
    requires StopIn(stop) && !stop.Finished? && !stop.LoopFailed? && t == stop.s
    requires OutboxedBut(r, t, stop.i) && Numbered(t) && RestsBut(t.rows, stop.i) && DistinctKeys(Labs(t.rows))
    requires stop.Launch? ==> t.rows[stop.i].key !in t.commands
    requires stop.Parked? ==> t.rows[stop.i].status == InProgress && !WorkerKind(t.rows[stop.i].lab.spec.kind)
    ensures Outboxed(r, Settle(r, e, stop, guidance)) && Emits(t.commands, Settle(r, e, stop, guidance))
  {
    match stop
    case Launch(_, i) => DispatchOutboxed(r, e, t, i, guidance);
    case Faulted(_, i, err) => FailOutboxed(r, e, t, i, err);
    case Parked(_, i) => RowChanged(r, t, t, i);
  }

  lemma SettleOutboxed(r: Rules, e: Env, s: Saga, i0: int, stop: Stop, guidance: Option<int>)
    requires OutboxedBut(r, s, i0) && Numbered(s) && StopIn(stop) && Stopped(s, stop) && LaunchesPending(stop)
    requires 0 <= i0 < |s.rows| ==> s.rows[i0].status != Pending
    requires DistinctKeys(Labs(stop.s.rows))
    ensures Outboxed(r, Settle(r, e, stop, guidance)) && Emits(s.commands, Settle(r, e, stop, guidance))
  {
    var t := stop.s;
    GrownNumbered(s, t);
    if stop.Finished? {
      GrownOutboxed(r, s, t, i0, -1);
      SideKept(r, t, Conclude(t).(rows := t.rows));
      assert Conclude(t).rows == t.rows;
    } else if stop.LoopFailed? {
      GrownOutboxed(r, s, t, i0, -1);
      LoopFailedOutboxed(r, e, t, stop.i);
    } else {
      GrownOutboxed(r, s, t, i0, stop.i);
      StoppedRowOutboxed(r, e, t, stop, guidance);
    }
  }
}
