/** The unique column of idempotency keys: no transaction of any run writes a key that some
    row of the saga already has. */
module RowKeys {
  import opened SagaTypes
  import opened SagaSpec
  import opened ForwardPath
  import opened Compensation
  import opened SagaInvariant
  import opened SagaRuns
  import opened SagaTheorems
  import opened LabelKeys
  import opened RowFrames

  /** A row has the key it was minted with, or a retry key no other row has. */
  ghost predicate RetryTokens(s: Saga) {
    && (forall j :: 0 <= j < |s.rows| ==> OwnKey(s.rows[j], s.nextId))
    && (forall i, j :: 0 <= i < j < |s.rows| && s.rows[i].key.RetryKey? && s.rows[j].key.RetryKey? ==>
          s.rows[i].key.token != s.rows[j].key.token)
  }

  lemma TokensKept(s: Saga, s1: Saga, i: int)
    requires RetryTokens(s) && KeptBut(s, s1, i)
    ensures RetryTokens(s1)
  {
    forall j | 0 <= j < |s1.rows|
      ensures OwnKey(s1.rows[j], s1.nextId)
      ensures s1.rows[j].key.RetryKey? ==> j < |s.rows|
      ensures j < |s.rows| && j != i ==> s1.rows[j].key == s.rows[j].key
    {
      if j < |s.rows| { assert OwnKey(s.rows[j], s.nextId); }
    }
  }

  lemma {:induction false} RunTokens(r: Rules, s: Saga, actions: seq<Action>)
    requires RetryTokens(s)
    ensures RetryTokens(Run(r, s, actions))
    decreases |actions|
  {
    if actions != [] {
      var a := actions[0];
      var i := StepKeeps(r, a.env, s, a.op);
      TokensKept(s, Step(r, a.env, s, a.op), i);
      RunTokens(r, Step(r, a.env, s, a.op), actions[1..]);
    }
  }

  ghost predicate UniqueKeys(s: Saga) {
    && (forall i, j :: 0 <= i < j < |s.rows| ==> s.rows[i].key != s.rows[j].key)
    && (forall i, j :: 0 <= i < j < |s.undos| ==> s.undos[i].key != s.undos[j].key)
    && (forall i, j :: 0 <= i < |s.rows| && 0 <= j < |s.undos| ==> s.rows[i].key != s.undos[j].key)
  }

  /** Undo `u` of row `q` has a key no forward row has. */
  lemma UndoKeyIsNew(r: Rules, s: Saga, u: Undo, i: nat)
    requires Inv(r, s) && RetryTokens(s) && u in s.undos && i < |s.rows|
    ensures s.rows[i].key != u.key
  {
    assert Placed(s, u);
    var q: nat := u.seqNo;
    RowKeysDistinct(s);
    hide Inv;
    assert OwnKey(s.rows[i], s.nextId) && OwnKey(s.rows[q], s.nextId);
    assert Labs(s.rows)[q].spec.kind == SpawnSagas ==> SpawnUndoKey(LabelKey(Labs(s.rows)[q])) != LabelKey(Labs(s.rows)[i]);
  }

  /** Two undo rows are for different forward rows, so their keys differ. */
  lemma UndoKeysDiffer(r: Rules, s: Saga, i: nat, j: nat)
    requires Inv(r, s) && RetryTokens(s) && i < j < |s.undos|
    ensures s.undos[i].key != s.undos[j].key
  {
    var u, v := s.undos[i], s.undos[j];
    assert u in s.undos && v in s.undos && Placed(s, u) && Placed(s, v);
    assert u.seqNo > v.seqNo && u.span != v.span;
    RowKeysDistinct(s);
    hide Inv;
    var p: nat, q: nat := v.seqNo, u.seqNo;
    assert OwnKey(s.rows[p], s.nextId) && OwnKey(s.rows[q], s.nextId);
    assert Labs(s.rows)[p].spec.kind == SpawnSagas && Labs(s.rows)[q].spec.kind == SpawnSagas ==>
      SpawnUndoKey(LabelKey(Labs(s.rows)[p])) != SpawnUndoKey(LabelKey(Labs(s.rows)[q]));
  }

  lemma InvUnique(r: Rules, s: Saga)
    requires Inv(r, s) && RetryTokens(s)
    ensures UniqueKeys(s)
  {
    RowKeysDistinct(s);
    hide Inv;
    forall i, j | 0 <= i < j < |s.rows| ensures s.rows[i].key != s.rows[j].key {
      assert LabelKey(Labs(s.rows)[i]) != LabelKey(Labs(s.rows)[j]);
      assert OwnKey(s.rows[i], s.nextId) && OwnKey(s.rows[j], s.nextId);
    }
    forall i, j | 0 <= i < j < |s.undos| ensures s.undos[i].key != s.undos[j].key { UndoKeysDiffer(r, s, i, j); }
    forall i, j | 0 <= i < |s.rows| && 0 <= j < |s.undos| ensures s.rows[i].key != s.undos[j].key {
      UndoKeyIsNew(r, s, s.undos[j], i);
    }
  }

  /** In every reachable state all rows of the saga, forward and undo rows, have pairwise
      different idempotency keys, through loop passes, key rotation and retries of all
      kinds. */
  lemma KeysNeverCollide(r: Rules, bp: seq<Top>, actions: seq<Action>)
    requires WellFormed(bp) && InOrderRun(r, Start(bp), actions)
    ensures UniqueKeys(Run(r, Start(bp), actions))
  {
    Reachable(r, bp, actions);
    StartRows(bp);
    RunTokens(r, Start(bp), actions);
    InvUnique(r, Run(r, Start(bp), actions));
  }
}
