/** Provider-safe tool aliases (workers/tool_names.py). */
module ToolNames {
  import opened SagaTypes
  import opened Decimals

  const MAX_TOOL_NAME_LEN := 64

  predicate Legal(c: char) {
    'a' <= c <= 'z' || 'A' <= c <= 'Z' || '0' <= c <= '9' || c == '_' || c == '-'
  }

  predicate AllLegal(s: string) { forall i :: 0 <= i < |s| ==> Legal(s[i]) }

  predicate NoDoubled(s: string) { forall i :: 0 <= i < |s| - 1 ==> !(s[i] == '_' && s[i + 1] == '_') }

  /** Already as a provider wants it. */
  predicate Clean(s: string) {
    && AllLegal(s) && NoDoubled(s) && 1 <= |s| <= MAX_TOOL_NAME_LEN
    && s[0] != '_' && s[|s| - 1] != '_'
  }

  // ---- The regular expressions

  /** Every run of characters outside the class becomes one underscore. */
  function SubIllegal(s: string): (t: string)
    ensures AllLegal(t)
    ensures AllLegal(s) ==> t == s
  {
    if s == [] then []
    else
      var t := SubIllegal(s[..|s| - 1]);
      var c := s[|s| - 1];
      if Legal(c) then t + [c]
      else if |s| > 1 && !Legal(s[|s| - 2]) then t
      else t + ['_']
  }

  /** Every run of underscores becomes one. */
  function SubUnderscores(s: string): string {
    if s == [] then []
    else
      var t := SubUnderscores(s[..|s| - 1]);
      var c := s[|s| - 1];
      if c == '_' && |s| > 1 && s[|s| - 2] == '_' then t else t + [c]
  }

  lemma {:induction false} UnderscoresCollapsed(s: string)
    ensures var t := SubUnderscores(s);
      && (AllLegal(s) ==> AllLegal(t)) && NoDoubled(t)
      && (s != [] ==> t != [] && t[|t| - 1] == s[|s| - 1])
  {
    if s != [] {
      var front := s[..|s| - 1];
      UnderscoresCollapsed(front);
      var t := SubUnderscores(front);
      if |s| > 1 { assert t[|t| - 1] == s[|s| - 2]; }
    }
  }

  lemma {:induction false} SingleUnderscoresStay(s: string)
    requires NoDoubled(s)
    ensures SubUnderscores(s) == s
  {
    if s != [] { SingleUnderscoresStay(s[..|s| - 1]); }
  }

  function StripLeft(s: string): string {
    if s != [] && s[0] == '_' then StripLeft(s[1..]) else s
  }

  lemma {:induction false} StrippedLeft(s: string)
    requires NoDoubled(s)
    ensures var t := StripLeft(s);
      && (t != [] ==> t[0] != '_') && (AllLegal(s) ==> AllLegal(t)) && NoDoubled(t)
      && (s != [] && s[0] != '_' ==> t == s)
  {
    if s != [] && s[0] == '_' { StrippedLeft(s[1..]); }
  }

  function StripRight(s: string): (t: string)
    ensures t <= s
    ensures t != [] ==> t[|t| - 1] != '_'
    ensures s != [] && s[|s| - 1] != '_' ==> t == s
  {
    if s != [] && s[|s| - 1] == '_' then StripRight(s[..|s| - 1]) else s
  }

  function Cut(s: string, n: nat): (t: string)
    ensures t <= s && |t| == if |s| < n then |s| else n
  {
    if |s| < n then s else s[..n]
  }

  function Sanitize(name: string): string {
    var stripped := StripRight(StripLeft(SubUnderscores(SubIllegal(name))));
    Cut(if stripped == [] then "tool" else stripped, MAX_TOOL_NAME_LEN)
  }

  /** Legal, 1 to 64 characters, no doubled and no leading underscore. */
  predicate Safe(r: string) {
    AllLegal(r) && NoDoubled(r) && 1 <= |r| <= MAX_TOOL_NAME_LEN && r[0] != '_'
  }

  lemma PrefixSafe(s: string, t: string)
    requires AllLegal(s) && NoDoubled(s) && t <= s
    ensures AllLegal(t) && NoDoubled(t)
  {
  }

  lemma SanitizedIsSafe(name: string)
    ensures Safe(Sanitize(name))
  {
    var cleaned := SubUnderscores(SubIllegal(name));
    UnderscoresCollapsed(SubIllegal(name));
    StrippedLeft(cleaned);
    var stripped := StripRight(StripLeft(cleaned));
    PrefixSafe(StripLeft(cleaned), stripped);
    assert AllLegal("tool") && NoDoubled("tool");
    PrefixSafe(if stripped == [] then "tool" else stripped, Sanitize(name));
  }

  lemma CleanStays(name: string)
    requires Clean(name)
    ensures Sanitize(name) == name
  {
    SingleUnderscoresStay(name);
    StrippedLeft(name);
  }

  /** Cutting may leave an underscore at the end, and only then does a second pass matter. */
  lemma SanitizeIdempotent(name: string)
    ensures Sanitize(Sanitize(name)) == Sanitize(name) <==> Clean(Sanitize(name))
  {
    var r := Sanitize(name);
    SanitizedIsSafe(name);
    SingleUnderscoresStay(r);
    StrippedLeft(r);
    if Clean(r) { CleanStays(r); }
  }

  // ---- Numbered candidates

  function Suffix(index: nat): string { "_" + Digits(index) }

  /** Slicing as Python does it: a negative end counts from the end of the string. */
  function Slice(s: string, end: int): (t: string)
    ensures t <= s
    ensures end >= 0 ==> |t| == if |s| < end then |s| else end
  {
    if end >= 0 then Cut(s, end) else if |s| + end > 0 then s[..|s| + end] else ""
  }

  function Candidate(base: string, index: nat): string {
    Slice(base, MAX_TOOL_NAME_LEN - |Suffix(index)|) + Suffix(index)
  }

  /** Candidates for different indices differ, however much of the base is cut away. */
  lemma CandidatesDiffer(base: string, i: nat, j: nat)
    requires Candidate(base, i) == Candidate(base, j)
    ensures i == j
  {
    var a, b := Slice(base, MAX_TOOL_NAME_LEN - |Suffix(i)|), Slice(base, MAX_TOOL_NAME_LEN - |Suffix(j)|);
    assert Candidate(base, i) == a + ['_'] + Digits(i) && Candidate(base, j) == b + ['_'] + Digits(j);
    NumberedNamesDiffer(a, b, '_', i, j);
  }

  /** A candidate keeps within 64 characters exactly when its suffix does. */
  lemma CandidateLength(base: string, index: nat)
    requires AllLegal(base)
    ensures AllLegal(Candidate(base, index)) && 1 <= |Candidate(base, index)|
    ensures |Candidate(base, index)| <= MAX_TOOL_NAME_LEN <==> index < Pow10(63)
  {
    DigitsLength(index, 63);
  }

  function Candidates(base: string, from: nat, end: nat): (s: set<string>)
    decreases end
  {
    if from >= end then {} else Candidates(base, from, end - 1) + {Candidate(base, end - 1)}
  }

  ghost predicate HasIndex(base: string, from: nat, end: nat, c: string) {
    exists i: nat :: from <= i < end && c == Candidate(base, i)
  }

  lemma {:induction false} CandidatesIndexed(base: string, from: nat, end: nat, c: string)
    requires from <= end && c in Candidates(base, from, end)
    ensures HasIndex(base, from, end, c)
    decreases end
  {
    if c in Candidates(base, from, end - 1) {
      CandidatesIndexed(base, from, end - 1, c);
      var i: nat :| from <= i < end - 1 && c == Candidate(base, i);
      assert from <= i < end && c == Candidate(base, i);
    }
  }

  lemma {:induction false} CandidatesCount(base: string, from: nat, end: nat)
    requires from <= end
    ensures |Candidates(base, from, end)| == end - from
    decreases end
  {
    if from < end {
      CandidatesCount(base, from, end - 1);
      if Candidate(base, end - 1) in Candidates(base, from, end - 1) {
        CandidatesIndexed(base, from, end - 1, Candidate(base, end - 1));
        var i: nat :| from <= i < end - 1 && Candidate(base, end - 1) == Candidate(base, i);
        CandidatesDiffer(base, end - 1, i);
      }
    }
  }

  /** Pigeonhole: of |used| + 1 candidates one is free. */
  lemma TriedFewerThanUsed(base: string, used: set<string>, index: nat)
    requires 2 <= index && Candidates(base, 2, index) <= used
    ensures index - 2 <= |used|
  {
    CandidatesCount(base, 2, index);
    var rest := used - Candidates(base, 2, index);
    assert used == Candidates(base, 2, index) + rest;
  }

  // ---- Allocation

  /** The sanitized name itself if free, else its first free numbered candidate. */
  ghost predicate Allocated(name: string, used: set<string>, alias: string) {
    var base := Sanitize(name);
    && alias !in used
    && if base !in used then alias == base
       else exists index :: (
         && 2 <= index <= |used| + 2 && alias == Candidate(base, index)
         && Candidates(base, 2, index) <= used)
  }

  lemma AllocatedIsValid(name: string, used: set<string>, alias: string)
    requires Allocated(name, used, alias) && |used| + 2 < Pow10(63)
    ensures AllLegal(alias) && 1 <= |alias| <= MAX_TOOL_NAME_LEN
  {
    var base := Sanitize(name);
    SanitizedIsSafe(name);
    if base in used {
      var index :| (
        && 2 <= index <= |used| + 2 && alias == Candidate(base, index)
        && Candidates(base, 2, index) <= used);
      CandidateLength(base, index);
    }
  }

  class AliasPool {
    var used: set<string>

    constructor ()
      ensures used == {}
    {
      used := {};
    }

    method AllocateUniqueSanitizedName(name: string) returns (alias: string)
      modifies this
      ensures Allocated(name, old(used), alias) && used == old(used) + {alias}
    {
      var base := Sanitize(name);
      if base !in used {
        used := used + {base};
        return base;
      }
      var index := 2;
      var candidate := Candidate(base, index);
      while candidate in used
        invariant used == old(used) && 2 <= index && candidate == Candidate(base, index)
        invariant Candidates(base, 2, index) <= used && index <= |used| + 2
        decreases |used| + 2 - index
      {
        index := index + 1;
        TriedFewerThanUsed(base, used, index);
        candidate := Candidate(base, index);
      }
      used := used + {candidate};
      alias := candidate;
    }
  }

  function Elems(s: seq<string>): set<string> { set a | a in s }

  /** Each name got its alias in turn, in view of those given before. */
  ghost predicate InTurn(names: seq<string>, order: seq<string>) {
    && |order| == |names|
    && (forall i :: 0 <= i < |names| ==> Allocated(names[i], Elems(order[..i]), order[i]))
  }

  predicate LeadBack(names: seq<string>, order: seq<string>, aliases: map<string, string>) {
    && |order| == |names| && aliases.Keys == Elems(order)
    && (forall i :: 0 <= i < |names| ==> order[i] in aliases && aliases[order[i]] == names[i])
  }

  /** `order` lists the aliases given to the names, one by one, without repetition. */
  ghost predicate Assigned(names: seq<string>, order: seq<string>, aliases: map<string, string>) {
    InTurn(names, order) && Distinct(order) && LeadBack(names, order, aliases)
  }

  lemma InTurnOneMore(names: seq<string>, order: seq<string>, name: string, alias: string)
    requires InTurn(names, order) && Allocated(name, Elems(order), alias)
    ensures InTurn(names + [name], order + [alias])
  {
    forall i | 0 <= i <= |names|
      ensures Allocated((names + [name])[i], Elems((order + [alias])[..i]), (order + [alias])[i])
    {
      assert (order + [alias])[..i] == order[..i];
      assert order[..|order|] == order;
    }
  }

  lemma LeadBackOneMore(names: seq<string>, order: seq<string>, aliases: map<string, string>, name: string, alias: string)
    requires LeadBack(names, order, aliases) && alias !in Elems(order)
    ensures LeadBack(names + [name], order + [alias], aliases[alias := name])
  {
    assert Elems(order + [alias]) == Elems(order) + {alias};
  }

  lemma DistinctOneMore(order: seq<string>, alias: string)
    requires Distinct(order) && alias !in Elems(order)
    ensures Distinct(order + [alias])
  {
  }

  lemma AssignedOneMore(names: seq<string>, k: nat, order: seq<string>, aliases: map<string, string>, alias: string)
    requires k < |names| && Assigned(names[..k], order, aliases) && Allocated(names[k], Elems(order), alias)
    ensures Assigned(names[..k + 1], order + [alias], aliases[alias := names[k]])
  {
    assert names[..k + 1] == names[..k] + [names[k]];
    InTurnOneMore(names[..k], order, names[k], alias);
    LeadBackOneMore(names[..k], order, aliases, names[k], alias);
    DistinctOneMore(order, alias);
  }

  ghost predicate Aliased(names: seq<string>, aliases: map<string, string>) {
    exists order: seq<string> :: Assigned(names, order, aliases)
  }

  /** As many aliases as names, each of 1 to 64 legal characters, each leading back to the
      name it was made for; a repeated name gets a further alias. */
  method ResolveUniqueToolAliases(names: seq<string>) returns (aliases: map<string, string>)
    ensures Aliased(names, aliases) && |aliases| == |names|
    ensures |names| + 2 < Pow10(63) ==> forall a <- aliases :: AllLegal(a) && 1 <= |a| <= MAX_TOOL_NAME_LEN
  {
    var pool := new AliasPool();
    aliases := map[];
    ghost var order: seq<string> := [];
    for k := 0 to |names|
      invariant fresh(pool) && pool.used == Elems(order) && Assigned(names[..k], order, aliases)
    {
      var alias := pool.AllocateUniqueSanitizedName(names[k]);
      AssignedOneMore(names, k, order, aliases, alias);
      aliases := aliases[alias := names[k]];
      order := order + [alias];
    }
    assert names[..|names|] == names;
    AssignedValid(names, order, aliases);
  }

  lemma {:induction false} DistinctCount(s: seq<string>)
    requires Distinct(s)
    ensures |Elems(s)| == |s|
    decreases |s|
  {
    if s != [] {
      var front, last := s[..|s| - 1], s[|s| - 1];
      DistinctCount(front);
      assert s == front + [last];
      assert Elems(s) == Elems(front) + {last};
      assert last !in front;
    }
  }

  lemma AliasValid(names: seq<string>, order: seq<string>, i: nat)
    requires InTurn(names, order) && Distinct(order) && i < |names| && |names| + 2 < Pow10(63)
    ensures AllLegal(order[i]) && 1 <= |order[i]| <= MAX_TOOL_NAME_LEN
  {
    assert Distinct(order[..i]);
    DistinctCount(order[..i]);
    AllocatedIsValid(names[i], Elems(order[..i]), order[i]);
  }

  lemma AssignedValid(names: seq<string>, order: seq<string>, aliases: map<string, string>)
    requires Assigned(names, order, aliases)
    ensures |aliases| == |names|
    ensures |names| + 2 < Pow10(63) ==> forall a <- aliases :: AllLegal(a) && 1 <= |a| <= MAX_TOOL_NAME_LEN
  {
    DistinctCount(order);
    assert |aliases| == |aliases.Keys|;
    if |names| + 2 < Pow10(63) {
      forall a | a in aliases ensures AllLegal(a) && 1 <= |a| <= MAX_TOOL_NAME_LEN {
        var i :| 0 <= i < |order| && order[i] == a;
        AliasValid(names, order, i);
      }
    }
  }
}
