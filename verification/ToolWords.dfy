/** What a sanitized tool name reads like: its words, joined by single underscores. */
module ToolWords {
  import opened SagaTypes
  import opened Decimals
  import opened ToolNames

  /** Letters, digits and hyphens are kept; everything else separates words. */
  predicate WordChar(c: char) {
    'a' <= c <= 'z' || 'A' <= c <= 'Z' || '0' <= c <= '9' || c == '-'
  }

  predicate EndsWord(s: string) { s != [] && WordChar(s[|s| - 1]) }

  predicate IsWord(w: string) { w != [] && forall i :: 0 <= i < |w| ==> WordChar(w[i]) }

  /** The longest runs of such characters, in order. */
  function Words(s: string): (ws: seq<string>)
    ensures EndsWord(s) ==> ws != []
    ensures forall i :: 0 <= i < |ws| ==> IsWord(ws[i])
  {
    if s == [] then []
    else
      var front, c := s[..|s| - 1], s[|s| - 1];
      var ws := Words(front);
      if !WordChar(c) then ws
      else if EndsWord(front) then
        assert IsWord(ws[|ws| - 1] + [c]);
        ws[..|ws| - 1] + [ws[|ws| - 1] + [c]]
      else ws + [[c]]
  }

  function Joined(ws: seq<string>): string {
    if ws == [] then ""
    else if |ws| == 1 then ws[0]
    else Joined(ws[..|ws| - 1]) + "_" + ws[|ws| - 1]
  }

  /** One underscore for all that stands before the first and after the last word. */
  function Lead(s: string): string { if s != [] && !WordChar(s[0]) then "_" else "" }

  function Trail(s: string): string { if s != [] && !WordChar(s[|s| - 1]) then "_" else "" }

  /** A string with its runs of separators replaced. */
  function Spaced(s: string): string {
    if Words(s) == [] then Lead(s) else Lead(s) + Joined(Words(s)) + Trail(s)
  }

  lemma JoinedGrows(ws: seq<string>, c: char)
    requires ws != []
    ensures Joined(ws[..|ws| - 1] + [ws[|ws| - 1] + [c]]) == Joined(ws) + [c]
  {
    var n := |ws| - 1;
    var vs := ws[..n] + [ws[n] + [c]];
    assert vs[..n] == ws[..n];
    if n > 0 { assert Joined(ws[..n]) + "_" + (ws[n] + [c]) == Joined(ws[..n]) + "_" + ws[n] + [c]; }
  }

  lemma JoinedMore(ws: seq<string>, w: string)
    ensures Joined(ws + [w]) == if ws == [] then w else Joined(ws) + "_" + w
  {
    assert (ws + [w])[..|ws|] == ws;
  }

  /** The last character of the first substitution. */
  lemma {:induction false} IllegalEnds(s: string)
    requires s != []
    ensures SubIllegal(s) != []
    ensures var c := s[|s| - 1]; SubIllegal(s)[|SubIllegal(s)| - 1] == if Legal(c) then c else '_'
    decreases |s|
  {
    if |s| > 1 { IllegalEnds(s[..|s| - 1]); }
  }

  /** Both substitutions together, one character further. */
  lemma CollapseStep(s: string)
    requires s != []
    ensures var front, c := s[..|s| - 1], s[|s| - 1];
      var t := SubUnderscores(SubIllegal(front));
      SubUnderscores(SubIllegal(s)) ==
        if WordChar(c) then t + [c] else if front != [] && !EndsWord(front) then t else t + ['_']
  {
    var front, c := s[..|s| - 1], s[|s| - 1];
    var x := SubIllegal(front);
    if front != [] { IllegalEnds(front); }
    var d := if Legal(c) then c else '_';
    assert (x + [d])[..|x|] == x;
  }

  lemma {:induction false} CollapsedIsSpaced(s: string)
    ensures SubUnderscores(SubIllegal(s)) == Spaced(s)
    decreases |s|
  {
    if s != [] {
      var front, c := s[..|s| - 1], s[|s| - 1];
      CollapsedIsSpaced(front);
      CollapseStep(s);
      assert front != [] ==> s[0] == front[0];
      SpacedStep(s);
    }
  }

  lemma SpacedStep(s: string)
    requires s != []
    ensures var front, c := s[..|s| - 1], s[|s| - 1];
      Spaced(s) == if WordChar(c) then Spaced(front) + [c]
        else if front != [] && !EndsWord(front) then Spaced(front) else Spaced(front) + ['_']
  {
    var front, c := s[..|s| - 1], s[|s| - 1];
    if WordChar(c) {
      WordGoesOn(s);
    } else {
      hide Joined;
      assert Words(s) == Words(front);
      assert front != [] ==> Lead(s) == Lead(front);
    }
  }

  lemma WordGoesOn(s: string)
    requires s != [] && WordChar(s[|s| - 1])
    ensures Spaced(s) == Spaced(s[..|s| - 1]) + [s[|s| - 1]]
  {
    hide Joined;
    var front, c := s[..|s| - 1], s[|s| - 1];
    var ws := Words(front);
    assert front != [] ==> Lead(s) == Lead(front);
    if EndsWord(front) {
      JoinedGrows(ws, c);
      assert Spaced(s) == Lead(front) + (Joined(ws) + [c]) + "";
    } else {
      JoinedMore(ws, [c]);
      if ws == [] { NoWords(front); }
    }
  }

  /** A string without words is all separators. */
  lemma {:induction false} NoWords(s: string)
    requires Words(s) == []
    ensures forall i :: 0 <= i < |s| ==> !WordChar(s[i])
    decreases |s|
  {
    if s != [] { NoWords(s[..|s| - 1]); }
  }

  /** Joined words begin and end with a word. */
  lemma {:induction false} JoinedEnds(ws: seq<string>)
    requires ws != [] && forall i :: 0 <= i < |ws| ==> IsWord(ws[i])
    ensures var t := Joined(ws); t != [] && WordChar(t[0]) && WordChar(t[|t| - 1])
    decreases |ws|
  {
    assert IsWord(ws[|ws| - 1]) && IsWord(ws[0]);
    if |ws| > 1 { JoinedEnds(ws[..|ws| - 1]); }
  }

  lemma StripsLead(lead: string, t: string)
    requires lead in {"", "_"} && t != [] && t[0] != '_'
    ensures StripLeft(lead + t) == t
  {
    assert lead == "_" ==> (lead + t)[1..] == t;
    assert lead == "" ==> lead + t == t;
  }

  lemma StripsTrail(t: string, trail: string)
    requires trail in {"", "_"} && t != [] && t[|t| - 1] != '_'
    ensures StripRight(t + trail) == t
  {
    assert trail == "_" ==> (t + trail)[..|t + trail| - 1] == t;
    assert trail == "" ==> t + trail == t;
  }

  lemma StripsSpaced(lead: string, t: string, trail: string)
    requires lead in {"", "_"} && trail in {"", "_"}
    requires t != [] && t[0] != '_' && t[|t| - 1] != '_'
    ensures StripRight(StripLeft(lead + t + trail)) == t
  {
    assert lead + t + trail == lead + (t + trail);
    StripsLead(lead, t + trail);
    StripsTrail(t, trail);
  }

  /** A sanitized name is the words of the name joined by single underscores, "tool" if it
      has none, cut to 64 characters. */
  lemma SanitizedIsItsWords(name: string)
    ensures var full := if Words(name) == [] then "tool" else Joined(Words(name));
      Sanitize(name) == if |full| <= 64 then full else full[..64]
  {
    CollapsedIsSpaced(name);
    if Words(name) == [] {
      assert StripLeft("") == "" && StripLeft("_") == "" by { assert "_"[1..] == ""; }
    } else {
      JoinedEnds(Words(name));
      StripsSpaced(Lead(name), Joined(Words(name)), Trail(name));
    }
  }

  // ---- Numbers

  /** The number a numeral stands for. */
  function ValueOf(s: string): nat
    requires forall i :: 0 <= i < |s| ==> IsDigit(s[i])
  {
    if s == [] then 0
    else
      assert IsDigit(s[|s| - 1]);
      10 * ValueOf(s[..|s| - 1]) + (s[|s| - 1] as int - '0' as int)
  }

  lemma {:induction false} DigitsHaveValue(n: nat)
    ensures ValueOf(Digits(n)) == n
    ensures n > 0 ==> Digits(n)[0] != '0'
    decreases n
  {
    var s := Digits(n);
    if n >= 10 {
      DigitsHaveValue(n / 10);
      assert s[..|s| - 1] == Digits(n / 10);
    } else {
      assert s[..0] == [];
    }
  }

  /** A numbered candidate is the front of the base name, as much as fits, then an underscore
      and the index in decimal. */
  lemma CandidateReads(base: string, index: nat)
    requires index < Pow10(63)
    ensures exists front, numeral :: (
      && Candidate(base, index) == front + "_" + numeral && front <= base
      && (forall i :: 0 <= i < |numeral| ==> IsDigit(numeral[i])) && ValueOf(numeral) == index
      && (front == base || |Candidate(base, index)| == 64))
  {
    DigitsLength(index, 63);
    DigitsHaveValue(index);
    var front := Slice(base, MAX_TOOL_NAME_LEN - |Suffix(index)|);
    assert Candidate(base, index) == front + "_" + Digits(index);
  }
}
