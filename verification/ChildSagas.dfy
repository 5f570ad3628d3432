/** Spawning child sagas and summing them up: engine/child_sagas.py and
    common/child_sagas.py. */
module ChildSagas {
  import opened SagaTypes

  /** A spawn item as resolved from the context: an object with an `id`, or not. */
  datatype Item = Item(id: string, input: Obj) | Malformed

  datatype SpawnError =
    | ItemsUnresolved | EmptyItems | TooManyChildren | ItemMissingId(index: nat)
    | ChildDefinitionInactive | ChildDefinitionMissing | ChildHydrateFailed

  /** The child saga's definition in the catalog when the spawn runs. */
  datatype Definition = Active | Inactive | Missing

  datatype Result<T> = Ok(value: T) | Bad(error: SpawnError)

  /** The characters that Python's `str.strip` removes. */
  predicate IsSpace(c: char) {
    || '\U{9}' <= c <= '\U{D}' || '\U{1C}' <= c <= ' '
    || c == '\U{85}' || c == '\U{A0}' || c == '\U{1680}' || '\U{2000}' <= c <= '\U{200A}'
    || c == '\U{2028}' || c == '\U{2029}' || c == '\U{202F}' || c == '\U{205F}' || c == '\U{3000}'
  }

  function TrimLeft(s: string): (t: string)
    ensures t != [] ==> !IsSpace(t[0])
    ensures |t| <= |s|
  {
    if s != [] && IsSpace(s[0]) then TrimLeft(s[1..]) else s
  }

  function TrimRight(s: string): (t: string)
    ensures t != [] ==> !IsSpace(t[|t| - 1])
    ensures t <= s
  {
    if s != [] && IsSpace(s[|s| - 1]) then TrimRight(s[..|s| - 1]) else s
  }

  function Trim(s: string): string { TrimRight(TrimLeft(s)) }

  predicate AllSpace(s: string) { forall i :: 0 <= i < |s| ==> IsSpace(s[i]) }

  lemma {:induction false} TrimmedLeft(s: string)
    ensures exists lead :: AllSpace(lead) && s == lead + TrimLeft(s)
  {
    if s != [] && IsSpace(s[0]) {
      TrimmedLeft(s[1..]);
      var lead :| AllSpace(lead) && s[1..] == lead + TrimLeft(s[1..]);
      assert AllSpace([s[0]] + lead) && s == [s[0]] + lead + TrimLeft(s);
    } else {
      assert AllSpace("") && s == "" + s;
    }
  }

  lemma {:induction false} TrimmedRight(s: string)
    ensures exists trail :: AllSpace(trail) && s == TrimRight(s) + trail
  {
    if s != [] && IsSpace(s[|s| - 1]) {
      var front := s[..|s| - 1];
      TrimmedRight(front);
      var trail :| AllSpace(trail) && front == TrimRight(front) + trail;
      assert AllSpace(trail + [s[|s| - 1]]) && s == TrimRight(s) + (trail + [s[|s| - 1]]);
    } else {
      assert AllSpace("") && s == s + "";
    }
  }

  lemma TrimSplits(s: string) returns (lead: string, trail: string)
    ensures AllSpace(lead) && AllSpace(trail) && s == lead + Trim(s) + trail
  {
    hide AllSpace;
    TrimmedLeft(s);
    TrimmedRight(TrimLeft(s));
    lead :| AllSpace(lead) && s == lead + TrimLeft(s);
    trail :| AllSpace(trail) && TrimLeft(s) == TrimRight(TrimLeft(s)) + trail;
  }

  lemma TrimEnds(s: string)
    requires Trim(s) != ""
    ensures !IsSpace(Trim(s)[0]) && !IsSpace(Trim(s)[|Trim(s)| - 1])
  {
    assert TrimLeft(s)[0] == Trim(s)[0];
  }

  /** Blanks are taken off both ends, and nothing else. */
  lemma TrimTakesBlanks(s: string)
    ensures var t := Trim(s);
      && (exists lead, trail :: AllSpace(lead) && AllSpace(trail) && s == lead + t + trail)
      && (t != "" ==> !IsSpace(t[0]) && !IsSpace(t[|t| - 1]))
      && (t == "" <==> AllSpace(s))
  {
    hide IsSpace, Trim;
    var lead, trail := TrimSplits(s);
    if Trim(s) != "" {
      TrimEnds(s);
      assert s[|lead|] == Trim(s)[0];
    }
  }

  predicate Usable(item: Item) { item.Item? && Trim(item.id) != "" }

  /** Items with their ids stripped of surrounding blanks. */
  function Stripped(items: seq<Item>): (r: seq<Item>)
    requires forall item <- items :: item.Item?
    ensures |r| == |items| && forall i :: 0 <= i < |items| ==> r[i].Item?
  {
    seq(|items|, i requires 0 <= i < |items| => Item(Trim(items[i].id), items[i].input))
  }

  /** The first unusable item is reported; otherwise all ids come back stripped. */
  method ValidateSpawnItems(items: seq<Item>, maxChildren: nat) returns (r: Result<seq<Item>>)
    ensures r == Bad(EmptyItems) <==> items == []
    ensures r == Bad(TooManyChildren) <==> items != [] && |items| > maxChildren
    ensures r.Ok? <==> 0 < |items| <= maxChildren && forall item <- items :: Usable(item)
    ensures r.Ok? ==> r.value == Stripped(items) && forall item <- r.value :: item.id != ""
    ensures r.Bad? ==> r.error == EmptyItems || r.error == TooManyChildren || r.error.ItemMissingId?
    ensures forall i: nat :: r == Bad(ItemMissingId(i)) ==>
      i < |items| && !Usable(items[i]) && forall j :: 0 <= j < i ==> Usable(items[j])
  {
    if items == [] { return Bad(EmptyItems); }
    if |items| > maxChildren { return Bad(TooManyChildren); }
    var validated: seq<Item> := [];
    for index := 0 to |items|
      invariant |validated| == index
      invariant forall j :: 0 <= j < index ==>
        Usable(items[j]) && validated[j] == Item(Trim(items[j].id), items[j].input)
    {
      var raw := items[index];
      assert raw in items;
      if raw.Malformed? { return Bad(ItemMissingId(index)); }
      var id := Trim(raw.id);
      if id == "" { return Bad(ItemMissingId(index)); }
      validated := validated + [Item(id, raw.input)];
    }
    r := Ok(validated);
  }

  datatype Summary = Summary(total: nat, succeeded: nat, failed: nat)

  function Count(rows: seq<SagaStatus>, wanted: set<SagaStatus>): nat {
    if rows == [] then 0
    else Count(rows[..|rows| - 1], wanted) + (if rows[|rows| - 1] in wanted then 1 else 0)
  }

  const UNSUCCESSFUL := {SagaFailed, SagaCompensated}

  lemma {:induction false} CountsSplit(rows: seq<SagaStatus>)
    ensures Count(rows, {SagaCompleted}) + Count(rows, UNSUCCESSFUL) <= |rows|
    ensures (forall st <- rows :: Terminal(st)) <==> Count(rows, {SagaCompleted}) + Count(rows, UNSUCCESSFUL) == |rows|
    ensures Count(rows, {SagaCompleted}) == 0 <==> SagaCompleted !in rows
  {
    if rows != [] {
      var front, last := rows[..|rows| - 1], rows[|rows| - 1];
      CountsSplit(front);
      assert rows == front + [last];
      assert (forall st <- rows :: Terminal(st)) <==> (forall st <- front :: Terminal(st)) && Terminal(last);
    }
  }

  /** Counts add up exactly when all children have ended, and no success is counted exactly
      when no child has completed. */
  method SummarizeJoinChildren(rows: seq<SagaStatus>) returns (s: Summary)
    ensures s == Summary(|rows|, Count(rows, {SagaCompleted}), Count(rows, UNSUCCESSFUL))
    ensures s.succeeded + s.failed == s.total <==> forall st <- rows :: Terminal(st)
    ensures s.succeeded == 0 <==> SagaCompleted !in rows
  {
    var succeeded, failed := 0, 0;
    for k := 0 to |rows|
      invariant succeeded == Count(rows[..k], {SagaCompleted}) && failed == Count(rows[..k], UNSUCCESSFUL)
    {
      assert rows[..k + 1][..k] == rows[..k];
      if rows[k] == SagaCompleted {
        succeeded := succeeded + 1;
      } else if rows[k] == SagaFailed || rows[k] == SagaCompensated {
        failed := failed + 1;
      }
    }
    assert rows[..|rows|] == rows;
    CountsSplit(rows);
    s := Summary(|rows|, succeeded, failed);
  }

  method AllChildrenTerminal(children: seq<SagaStatus>) returns (all: bool)
    ensures all <==> children != [] && forall st <- children :: Terminal(st)
  {
    if children == [] { return false; }
    for k := 0 to |children|
      invariant forall j :: 0 <= j < k ==> Terminal(children[j])
    {
      if !Terminal(children[k]) { return false; }
    }
    all := true;
  }

  // ---- Creating the children

  /** The child of a spawn item is found again under (parent, spawn step, item). */
  datatype ChildKey = ChildKey(parent: nat, step: string, item: string)

  function KeyFor(parent: nat, step: string, item: Item): ChildKey
    requires item.Item?
  {
    ChildKey(parent, step, item.id)
  }

  datatype Family = Family(sagas: map<ChildKey, nat>, links: map<ChildKey, nat>, nextTrace: nat)

  /** Every link leads to the saga started under its key, and no two sagas share a trace. */
  ghost predicate Linked(f: Family) {
    && (forall k <- f.links :: k in f.sagas && f.links[k] == f.sagas[k])
    && (forall k <- f.sagas :: f.sagas[k] < f.nextTrace)
    && (forall k, l :: k in f.sagas && l in f.sagas && f.sagas[k] == f.sagas[l] ==> k == l)
  }

  predicate WellTyped(items: seq<Item>) { forall i :: 0 <= i < |items| ==> items[i].Item? }

  /** The keys of the first `n` items. */
  function KeysOf(parent: nat, step: string, items: seq<Item>, n: nat): set<ChildKey>
    requires WellTyped(items) && n <= |items|
  {
    set i | 0 <= i < n :: KeyFor(parent, step, items[i])
  }

  /** The children of the first `n` items are linked, and nothing else is new. */
  ghost predicate Spawned(before: Family, f: Family, parent: nat, step: string, items: seq<Item>, n: nat, children: seq<nat>) {
    && WellTyped(items) && |children| == n <= |items|
    && (forall i :: 0 <= i < n ==>
          KeyFor(parent, step, items[i]) in f.links && f.links[KeyFor(parent, step, items[i])] == children[i])
    && f.links.Keys == before.links.Keys + KeysOf(parent, step, items, n)
    && f.sagas.Keys == before.sagas.Keys + KeysOf(parent, step, items, n)
    && (KeysOf(parent, step, items, n) <= before.links.Keys ==> f == before)
  }

  lemma KeysGrow(parent: nat, step: string, items: seq<Item>, n: nat)
    requires WellTyped(items) && n < |items|
    ensures KeysOf(parent, step, items, n + 1) == KeysOf(parent, step, items, n) + {KeyFor(parent, step, items[n])}
  {
  }

  lemma SpawnedOneMore(before: Family, f: Family, f1: Family, parent: nat, step: string, items: seq<Item>, n: nat,
    children: seq<nat>, child: nat)
    requires Spawned(before, f, parent, step, items, n, children) && n < |items|
    requires Joined(f, f1, KeyFor(parent, step, items[n]), child)
    ensures Spawned(before, f1, parent, step, items, n + 1, children + [child])
  {
    hide KeysOf, KeyFor;
    var k, keys := KeyFor(parent, step, items[n]), KeysOf(parent, step, items, n);
    KeysGrow(parent, step, items, n);
    assert f1.links.Keys == before.links.Keys + (keys + {k}) && f1.sagas.Keys == before.sagas.Keys + (keys + {k});
    if keys + {k} <= before.links.Keys { assert k in f.links; }
  }

  /** `child` is linked under `k`; every other link and saga is as it was. */
  ghost predicate Joined(f: Family, f1: Family, k: ChildKey, child: nat) {
    && k in f1.links && f1.links[k] == child
    && f1.links.Keys == f.links.Keys + {k} && f1.sagas.Keys == f.sagas.Keys + {k}
    && (forall l <- f.sagas :: f1.sagas[l] == f.sagas[l])
    && (forall l <- f.links :: f1.links[l] == f.links[l])
    && (k in f.links ==> f1 == f)
  }

  predicate Spawnable(items: seq<Item>, maxChildren: nat) {
    0 < |items| <= maxChildren && forall item <- items :: Usable(item)
  }

  /** The child of item `i` exists, is started for an earlier item, or can be started. */
  predicate MayStart(sagas: map<ChildKey, nat>, parent: nat, step: string, items: seq<Item>, i: nat, hydrates: Item -> bool)
    requires WellTyped(items) && i < |items|
  {
    || KeyFor(parent, step, items[i]) in sagas
    || (exists j :: 0 <= j < i && items[j].id == items[i].id)
    || hydrates(items[i])
  }

  predicate Creatable(sagas: map<ChildKey, nat>, parent: nat, step: string, items: seq<Item>, hydrates: Item -> bool)
    requires WellTyped(items)
  {
    forall i :: 0 <= i < |items| ==> MayStart(sagas, parent, step, items, i, hydrates)
  }

  lemma NothingSpawned(before: Family, parent: nat, step: string, items: seq<Item>)
    requires WellTyped(items)
    ensures Spawned(before, before, parent, step, items, 0, [])
  {
    assert KeysOf(parent, step, items, 0) == {};
  }

  /** Item `k` is refused, after `k` others, exactly when it may not start. */
  lemma Startable(before: Family, f: Family, parent: nat, step: string, items: seq<Item>, k: nat, children: seq<nat>,
    hydrates: Item -> bool)
    requires Spawned(before, f, parent, step, items, k, children) && k < |items|
    ensures KeyFor(parent, step, items[k]) in f.sagas || hydrates(items[k])
      <==> MayStart(before.sagas, parent, step, items, k, hydrates)
  {
    forall j | 0 <= j < k ensures KeyFor(parent, step, items[j]) in f.sagas {
      assert KeyFor(parent, step, items[j]) in KeysOf(parent, step, items, k);
    }
    if KeyFor(parent, step, items[k]) in KeysOf(parent, step, items, k) {
      var j :| 0 <= j < k && KeyFor(parent, step, items[j]) == KeyFor(parent, step, items[k]);
      assert items[j].id == items[k].id;
    }
  }

  class Spawner {
    var sagas: map<ChildKey, nat>
    var links: map<ChildKey, nat>
    var nextTrace: nat

    function View(): Family
      reads this
    {
      Family(sagas, links, nextTrace)
    }

    constructor ()
      ensures View() == Family(map[], map[], 0) && Linked(View())
    {
      sagas, links, nextTrace := map[], map[], 0;
    }

    /** Start the child of one item, or find the one that was started before. The definition
        is looked up in either case, the child's input and steps only for a new one. */
    method SpawnOneChild(parent: nat, step: string, item: Item, definition: Definition, hydrates: bool)
      returns (r: Result<nat>)
      requires item.Item? && Linked(View())
      modifies this
      ensures Linked(View())
      ensures r.Ok? <==> definition.Active? && (KeyFor(parent, step, item) in old(sagas) || hydrates)
      ensures r == Bad(ChildHydrateFailed) <==> definition.Active? && KeyFor(parent, step, item) !in old(sagas) && !hydrates
      ensures r.Bad? ==> r.error in {ChildHydrateFailed, ChildDefinitionInactive, ChildDefinitionMissing}
      ensures r == Bad(ChildDefinitionInactive) <==> definition.Inactive?
      ensures r == Bad(ChildDefinitionMissing) <==> definition.Missing?
      ensures r.Bad? ==> View() == old(View())
      ensures r.Ok? ==> Joined(old(View()), View(), KeyFor(parent, step, item), r.value)
    {
      if definition.Missing? { return Bad(ChildDefinitionMissing); }
      if definition.Inactive? { return Bad(ChildDefinitionInactive); }
      var k := KeyFor(parent, step, item);
      var child := nextTrace;
      if k in sagas {
        child := sagas[k];
      } else {
        if !hydrates { return Bad(ChildHydrateFailed); }
        sagas := sagas[k := child];
        nextTrace := nextTrace + 1;
      }
      if k !in links { links := links[k := child]; }
      r := Ok(child);
    }

    /** Validate the items, then start their children inside a savepoint: a child that cannot
        be created undoes those before it, so a failed spawn leaves no orphan. Running the
        spawn again finds the same children and creates none. */
    method ExecuteSpawnSagas(parent: nat, step: string, resolved: Option<seq<Item>>, maxChildren: nat,
      definition: Definition, hydrates: Item -> bool) returns (r: Result<seq<nat>>)
      requires Linked(View())
      modifies this
      ensures Linked(View())
      ensures r.Ok? <==>
        resolved.Some? && Spawnable(resolved.value, maxChildren) && definition.Active?
        && Creatable(old(sagas), parent, step, Stripped(resolved.value), hydrates)
      ensures r == Bad(ItemsUnresolved) <==> resolved.None?
      ensures r == Bad(EmptyItems) <==> resolved == Some([])
      ensures r == Bad(TooManyChildren) <==> resolved.Some? && |resolved.value| > maxChildren && resolved.value != []
      ensures r.Bad? && (r.error == ChildDefinitionInactive || r.error == ChildDefinitionMissing) ==>
        Spawnable(resolved.value, maxChildren) && !definition.Active?
      ensures r == Bad(ChildHydrateFailed) ==> Spawnable(resolved.value, maxChildren) && definition.Active?
      ensures r.Bad? ==> View() == old(View())
      ensures r.Ok? ==>
        Spawned(old(View()), View(), parent, step, Stripped(resolved.value), |resolved.value|, r.value)
    {
      if resolved.None? { return Bad(ItemsUnresolved); }
      var validated := ValidateSpawnItems(resolved.value, maxChildren);
      if validated.Bad? { return Bad(validated.error); }
      r := CreateChildren(parent, step, validated.value, definition, hydrates);
    }

    method CreateChildren(parent: nat, step: string, items: seq<Item>, definition: Definition, hydrates: Item -> bool)
      returns (r: Result<seq<nat>>)
      requires Linked(View()) && WellTyped(items) && items != []
      modifies this
      ensures Linked(View())
      ensures r.Ok? <==> definition.Active? && Creatable(old(sagas), parent, step, items, hydrates)
      ensures r.Bad? ==>
        r.error == if definition.Missing? then ChildDefinitionMissing
                   else if definition.Inactive? then ChildDefinitionInactive else ChildHydrateFailed
      ensures r.Bad? ==> View() == old(View())
      ensures r.Ok? ==> Spawned(old(View()), View(), parent, step, items, |items|, r.value)
    {
      hide Spawned, Joined, Linked, MayStart;
      var savepoint := View();
      var children: seq<nat> := [];
      NothingSpawned(savepoint, parent, step, items);
      for k := 0 to |items|
        invariant Linked(View()) && Spawned(savepoint, View(), parent, step, items, k, children)
        invariant k > 0 ==> definition.Active?
        invariant forall i :: 0 <= i < k ==> MayStart(savepoint.sagas, parent, step, items, i, hydrates)
      {
        ghost var f := View();
        Startable(savepoint, f, parent, step, items, k, children, hydrates);
        var child := SpawnOneChild(parent, step, items[k], definition, hydrates(items[k]));
        if child.Bad? {
          sagas, links, nextTrace := savepoint.sagas, savepoint.links, savepoint.nextTrace;
          return Bad(child.error);
        }
        SpawnedOneMore(savepoint, f, View(), parent, step, items, k, children, child.value);
        children := children + [child.value];
      }
      r := Ok(children);
    }
  }

  /** Items with different ids have different children, and spawning twice spawns once. */
  lemma SpawnIsIdempotent(f0: Family, f1: Family, f2: Family, parent: nat, step: string, items: seq<Item>,
    first: seq<nat>, second: seq<nat>)
    requires Linked(f1)
    requires Spawned(f0, f1, parent, step, items, |items|, first) && Spawned(f1, f2, parent, step, items, |items|, second)
    ensures f2 == f1 && second == first
    ensures forall i, j :: 0 <= i < |items| && 0 <= j < |items| ==> (first[i] == first[j] <==> items[i].id == items[j].id)
  {
    forall i, j | 0 <= i < |items| && 0 <= j < |items|
      ensures first[i] == first[j] <==> items[i].id == items[j].id
    {
      var a, b := KeyFor(parent, step, items[i]), KeyFor(parent, step, items[j]);
      assert f1.links[a] == f1.sagas[a] && f1.links[b] == f1.sagas[b];
    }
  }

  /** Spawns of different parents, or of different steps of one parent, share no child. */
  lemma SpawnsShareNothing(f0: Family, f1: Family, f2: Family, f3: Family,
    parent: nat, step: string, items: seq<Item>, children: seq<nat>,
    parent': nat, step': string, items': seq<Item>, children': seq<nat>)
    requires Linked(f3) && (parent, step) != (parent', step')
    requires Spawned(f0, f1, parent, step, items, |items|, children) && f1.links.Keys <= f3.links.Keys
    requires forall k <- f1.links :: f3.links[k] == f1.links[k]
    requires Spawned(f2, f3, parent', step', items', |items'|, children')
    ensures forall i, j :: 0 <= i < |items| && 0 <= j < |items'| ==> children[i] != children'[j]
  {
    forall i, j | 0 <= i < |items| && 0 <= j < |items'| ensures children[i] != children'[j] {
      var a, b := KeyFor(parent, step, items[i]), KeyFor(parent', step', items'[j]);
      assert a in f1.links && a in f3.links && b in f3.links;
      assert f3.links[a] == f3.sagas[a] && f3.links[b] == f3.sagas[b];
    }
  }
}
