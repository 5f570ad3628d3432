/** Freezing a prompt: static includes are replaced by the text of the included files,
    recursively, and include cycles are rejected (common/prompts.py). */
module Prompts {
  import opened SagaTypes

  datatype Kind = BlockBegin | BlockEnd | Name | Str | Whitespace | Other

  /** A lexer token: includes inside comments and raw blocks never start with BlockBegin. */
  datatype Token = Token(kind: Kind, text: string)

  /** Prompt files by reference; None is a file whose template is rejected as a whole.
      `literal` evaluates a string token to a normalized, non-empty path. */
  datatype Library = Library(files: map<string, Option<seq<Token>>>, literal: string -> Option<string>)

  datatype Problem = Cycle(trace: seq<string>) | NoFile(ref: string) | Invalid(ref: string)

  datatype Expansion = Expanded(text: string) | Rejected(problem: Problem)

  // ---- Include blocks

  datatype Span = NotInclude | Malformed | Bare(end: nat, path: string)

  function SkipWhitespace(tokens: seq<Token>, i: nat): (j: nat)
    requires i <= |tokens|
    ensures i <= j <= |tokens|
    decreases |tokens| - i
  {
    if i < |tokens| && tokens[i].kind == Whitespace then SkipWhitespace(tokens, i + 1) else i
  }

  /** From after `include` to the end of the block: one string, no modifier. */
  function ScanBody(l: Library, tokens: seq<Token>, i: nat, path: Option<string>, modified: bool): (s: Span)
    requires i <= |tokens|
    ensures s.Bare? ==> i <= s.end < |tokens|
    ensures s.Bare? || s.Malformed?
    decreases |tokens| - i
  {
    if i == |tokens| then Malformed
    else match tokens[i].kind
      case BlockEnd => if path.None? || modified then Malformed else Bare(i, path.value)
      case Whitespace => ScanBody(l, tokens, i + 1, path, modified)
      case Str =>
        if path.Some? || l.literal(tokens[i].text).None? then Malformed
        else ScanBody(l, tokens, i + 1, l.literal(tokens[i].text), modified)
      case Name => ScanBody(l, tokens, i + 1, path, true)
      case _ => Malformed
  }

  function SpanAt(l: Library, tokens: seq<Token>, i: nat): (s: Span)
    requires i < |tokens|
    ensures s.Bare? ==> i < s.end < |tokens|
  {
    if tokens[i].kind != BlockBegin then NotInclude
    else
      var j := SkipWhitespace(tokens, i + 1);
      if j == |tokens| || tokens[j].kind != Name || tokens[j].text != "include" then NotInclude
      else ScanBody(l, tokens, j + 1, None, false)
  }

  // ---- A file as a list of pieces

  datatype Piece = Text(s: string) | Include(ref: string)

  function Pieces(l: Library, tokens: seq<Token>, i: nat): Option<seq<Piece>>
    requires i <= |tokens|
    decreases |tokens| - i
  {
    if i == |tokens| then Some([])
    else match SpanAt(l, tokens, i)
      case Malformed => None
      case NotInclude =>
        var rest := Pieces(l, tokens, i + 1);
        if rest.None? then None else Some([Text(tokens[i].text)] + rest.value)
      case Bare(end, path) =>
        var rest := Pieces(l, tokens, end + 1);
        if rest.None? then None else Some([Include(path)] + rest.value)
  }

  predicate Readable(l: Library, ref: string) {
    ref in l.files && l.files[ref].Some? && Pieces(l, l.files[ref].value, 0).Some?
  }

  function Content(l: Library, ref: string): seq<Piece>
    requires Readable(l, ref)
  {
    Pieces(l, l.files[ref].value, 0).value
  }

  // ---- Expansion with a stack

  function OnStack(stack: seq<string>): set<string> { set s | s in stack }

  function Unvisited(l: Library, stack: seq<string>): nat { |l.files.Keys - OnStack(stack)| }

  lemma StackShrinks(l: Library, ref: string, stack: seq<string>)
    requires ref in l.files && ref !in stack
    ensures Unvisited(l, stack + [ref]) < Unvisited(l, stack)
  {
    var a, b := l.files.Keys - OnStack(stack), l.files.Keys - OnStack(stack + [ref]);
    assert ref in a && b == a - {ref};
  }

  /** What `freeze_prompt_definition` computes; it ends because every reference put on the
      stack is a file that was not there before. */
  function Expand(l: Library, ref: string, stack: seq<string>): Expansion
    decreases Unvisited(l, stack), 1, 0
  {
    if ref in stack then Rejected(Cycle(stack + [ref]))
    else if ref !in l.files then Rejected(NoFile(ref))
    else if l.files[ref].None? then Rejected(Invalid(ref))
    else
      StackShrinks(l, ref, stack);
      ExpandTokens(l, ref, l.files[ref].value, 0, stack + [ref])
  }

  function ExpandTokens(l: Library, ref: string, tokens: seq<Token>, i: nat, stack: seq<string>): Expansion
    requires i <= |tokens|
    decreases Unvisited(l, stack), 2, |tokens| - i
  {
    if i == |tokens| then Expanded("")
    else match SpanAt(l, tokens, i)
      case Malformed => Rejected(Invalid(ref))
      case NotInclude => Prefixed(tokens[i].text, ExpandTokens(l, ref, tokens, i + 1, stack))
      case Bare(end, path) =>
        var inner := Expand(l, path, stack);
        if inner.Rejected? then inner else Prefixed(inner.text, ExpandTokens(l, ref, tokens, end + 1, stack))
  }

  function Prefixed(text: string, e: Expansion): Expansion {
    if e.Expanded? then Expanded(text + e.text) else e
  }

  // ---- The same piece by piece

  function ExpandPieces(l: Library, ps: seq<Piece>, stack: seq<string>): Expansion {
    if ps == [] then Expanded("")
    else match ps[0]
      case Text(s) => Prefixed(s, ExpandPieces(l, ps[1..], stack))
      case Include(ref) =>
        var inner := Expand(l, ref, stack);
        if inner.Rejected? then inner else Prefixed(inner.text, ExpandPieces(l, ps[1..], stack))
  }

  lemma {:induction false} TokensAsPieces(l: Library, ref: string, tokens: seq<Token>, i: nat, stack: seq<string>)
    requires i <= |tokens|
    ensures Pieces(l, tokens, i).Some? ==>
      ExpandTokens(l, ref, tokens, i, stack) == ExpandPieces(l, Pieces(l, tokens, i).value, stack)
    ensures Pieces(l, tokens, i).None? ==> ExpandTokens(l, ref, tokens, i, stack).Rejected?
    decreases |tokens| - i
  {
    if i < |tokens| {
      match SpanAt(l, tokens, i)
      case Malformed =>
      case NotInclude => TokensAsPieces(l, ref, tokens, i + 1, stack);
      case Bare(end, _) => TokensAsPieces(l, ref, tokens, end + 1, stack);
    }
  }

  lemma {:induction false} SomePieceRejected(l: Library, ps: seq<Piece>, stack: seq<string>) returns (k: nat)
    requires ExpandPieces(l, ps, stack).Rejected?
    ensures k < |ps| && ps[k].Include? && Expand(l, ps[k].ref, stack) == ExpandPieces(l, ps, stack)
    decreases |ps|
  {
    if ps[0].Include? && Expand(l, ps[0].ref, stack).Rejected? {
      k := 0;
    } else {
      var j := SomePieceRejected(l, ps[1..], stack);
      k := j + 1;
    }
  }

  lemma {:induction false} AnyPieceRejects(l: Library, ps: seq<Piece>, stack: seq<string>, k: nat)
    requires k < |ps| && ps[k].Include? && Expand(l, ps[k].ref, stack).Rejected?
    ensures ExpandPieces(l, ps, stack).Rejected?
    decreases |ps|
  {
    if k > 0 { AnyPieceRejects(l, ps[1..], stack, k - 1); }
  }

  /** For a file that is new on the stack. */
  lemma ExpandReadable(l: Library, ref: string, stack: seq<string>)
    requires ref !in stack
    ensures Readable(l, ref) ==> Expand(l, ref, stack) == ExpandPieces(l, Content(l, ref), stack + [ref])
    ensures !Readable(l, ref) ==> Expand(l, ref, stack).Rejected?
  {
    if ref in l.files && l.files[ref].Some? { TokensAsPieces(l, ref, l.files[ref].value, 0, stack + [ref]); }
  }

  // ---- Include chains

  predicate Includes(l: Library, a: string, b: string) {
    Readable(l, a) && Include(b) in Content(l, a)
  }

  ghost predicate Linked(l: Library, p: seq<string>) {
    forall i :: 0 <= i < |p| - 1 ==> Includes(l, p[i], p[i + 1])
  }

  /** A chain of includes that runs into itself, or into a file that cannot be used. */
  ghost predicate DeadEnd(l: Library, p: seq<string>) {
    && p != [] && Linked(l, p) && Distinct(p[..|p| - 1])
    && (p[|p| - 1] in p[..|p| - 1] || !Readable(l, p[|p| - 1]))
  }

  ghost predicate DeadEndFrom(l: Library, start: seq<string>, p: seq<string>) {
    start <= p && DeadEnd(l, p)
  }

  lemma LinkedGrows(l: Library, p: seq<string>, b: string)
    requires p != [] && Linked(l, p) && Includes(l, p[|p| - 1], b)
    ensures Linked(l, p + [b])
  {
    forall i | 0 <= i < |p + [b]| - 1 ensures Includes(l, (p + [b])[i], (p + [b])[i + 1]) {
      if i < |p| - 1 { assert Includes(l, p[i], p[i + 1]); }
    }
  }

  /** A rejection has a reason: a chain of includes from here that leads nowhere. */
  lemma {:induction false} RejectedHasDeadEnd(l: Library, ref: string, stack: seq<string>) returns (p: seq<string>)
    requires Linked(l, stack + [ref]) && Distinct(stack) && Expand(l, ref, stack).Rejected?
    ensures DeadEndFrom(l, stack + [ref], p)
    decreases Unvisited(l, stack)
  {
    var here := stack + [ref];
    assert here[..|here| - 1] == stack;
    if ref in stack || !Readable(l, ref) {
      p := here;
    } else {
      ExpandReadable(l, ref, stack);
      var k := SomePieceRejected(l, Content(l, ref), here);
      StackShrinks(l, ref, stack);
      LinkedGrows(l, here, Content(l, ref)[k].ref);
      p := RejectedHasDeadEnd(l, Content(l, ref)[k].ref, here);
    }
  }

  /** Any chain that leads nowhere is found. */
  lemma {:induction false} DeadEndRejects(l: Library, ref: string, stack: seq<string>, p: seq<string>)
    requires DeadEndFrom(l, stack + [ref], p)
    ensures Expand(l, ref, stack).Rejected?
    decreases |p| - |stack|
  {
    var here := stack + [ref];
    if ref !in stack && Readable(l, ref) {
      assert here[..|here| - 1] == stack;
      assert |p| == |here| ==> p == here;
      var b := p[|here|];
      assert Includes(l, p[|here| - 1], p[|here|]);
      assert here + [b] <= p;
      DeadEndRejects(l, b, here, p);
      var k :| 0 <= k < |Content(l, ref)| && Content(l, ref)[k] == Include(b);
      AnyPieceRejects(l, Content(l, ref), here, k);
      ExpandReadable(l, ref, stack);
    } else if ref !in stack {
      ExpandReadable(l, ref, stack);
    }
  }

  /** A prompt is frozen exactly when no chain of includes from it runs into a cycle, a
      missing file or a malformed one. */
  lemma FrozenIffNoDeadEnd(l: Library, root: string)
    ensures Expand(l, root, []).Expanded? <==> !exists p: seq<string> :: DeadEndFrom(l, [root], p)
  {
    assert [] + [root] == [root];
    if Expand(l, root, []).Rejected? {
      var p := RejectedHasDeadEnd(l, root, []);
    } else {
      forall p: seq<string> ensures !DeadEndFrom(l, [root], p) {
        if DeadEndFrom(l, [root], p) { DeadEndRejects(l, root, [], p); }
      }
    }
  }

  /** All files are there and well-formed, and include only such files. */
  ghost predicate Complete(l: Library) {
    && (forall ref <- l.files :: Readable(l, ref))
    && (forall a, b :: Includes(l, a, b) ==> b in l.files)
  }

  lemma {:induction false} CompleteRejectsCycles(l: Library, ref: string, stack: seq<string>)
    requires Complete(l) && ref in l.files && Linked(l, stack + [ref]) && Distinct(stack)
    requires Expand(l, ref, stack).Rejected?
    ensures var problem := Expand(l, ref, stack).problem;
      problem.Cycle? && DeadEndFrom(l, stack + [ref], problem.trace)
      && problem.trace[|problem.trace| - 1] in problem.trace[..|problem.trace| - 1]
    decreases Unvisited(l, stack)
  {
    var here := stack + [ref];
    if ref in stack {
      assert here[..|here| - 1] == stack;
    } else {
      ExpandReadable(l, ref, stack);
      var k := SomePieceRejected(l, Content(l, ref), here);
      var b := Content(l, ref)[k].ref;
      assert Includes(l, ref, b);
      StackShrinks(l, ref, stack);
      LinkedGrows(l, here, b);
      CompleteRejectsCycles(l, b, here);
    }
  }

  /** A chain of includes from the root that comes back to a file it has met. */
  ghost predicate ComesBack(l: Library, root: string, p: seq<string>) {
    [root] <= p && Linked(l, p) && p[|p| - 1] in p[..|p| - 1]
  }

  ghost predicate CyclicFrom(l: Library, root: string) {
    exists p: seq<string> :: ComesBack(l, root, p)
  }

  /** The first repetition on a cyclic chain is a dead end. */
  lemma {:induction false} CutAtRepeat(l: Library, p: seq<string>) returns (q: seq<string>)
    requires p != [] && Linked(l, p) && p[|p| - 1] in p[..|p| - 1]
    ensures q <= p && |q| > 1 && DeadEnd(l, q)
    decreases |p|
  {
    var front := p[..|p| - 1];
    if Distinct(front) {
      q := p;
    } else {
      var i, j :| 0 <= i < j < |front| && front[i] == front[j];
      var shorter := p[..j + 1];
      assert shorter[..j][i] == shorter[j];
      q := CutAtRepeat(l, shorter);
    }
  }

  lemma CyclicIsRejected(l: Library, root: string, p: seq<string>)
    requires ComesBack(l, root, p)
    ensures Expand(l, root, []).Rejected?
  {
    var q := CutAtRepeat(l, p);
    assert [] + [root] == [root] && [root] <= q;
    DeadEndRejects(l, root, [], q);
  }

  /** With all files present and valid, the answer is a cycle exactly when the include graph
      reachable from the root has one, and the reported trace is one. */
  lemma CycleReportedExactly(l: Library, root: string)
    requires Complete(l) && root in l.files
    ensures Expand(l, root, []).Rejected? <==> CyclicFrom(l, root)
    ensures Expand(l, root, []).Rejected? ==>
      var problem := Expand(l, root, []).problem;
      problem.Cycle? && DeadEndFrom(l, [root], problem.trace)
  {
    assert [] + [root] == [root];
    if Expand(l, root, []).Rejected? {
      CompleteRejectsCycles(l, root, []);
      assert ComesBack(l, root, Expand(l, root, []).problem.trace);
    }
    if CyclicFrom(l, root) {
      var p: seq<string> :| ComesBack(l, root, p);
      CyclicIsRejected(l, root, p);
    }
  }

  // ---- Plain recursive substitution

  /** Replace includes to a given depth, with no stack and no check. */
  function Substitute(l: Library, ref: string, depth: nat): Option<string>
    decreases depth, 0
  {
    if depth == 0 || !Readable(l, ref) then None else SubstitutePieces(l, Content(l, ref), depth - 1)
  }

  function SubstitutePieces(l: Library, ps: seq<Piece>, depth: nat): Option<string>
    decreases depth, |ps| + 1
  {
    if ps == [] then Some("")
    else
      var rest := SubstitutePieces(l, ps[1..], depth);
      match ps[0]
      case Text(s) => if rest.None? then None else Some(s + rest.value)
      case Include(ref) =>
        var inner := Substitute(l, ref, depth);
        if inner.None? || rest.None? then None else Some(inner.value + rest.value)
  }

  /** An accepted prompt is its full substitution, at every sufficient depth. */
  lemma {:induction false} ExpandedIsSubstituted(l: Library, ref: string, stack: seq<string>, depth: nat)
    requires Expand(l, ref, stack).Expanded? && depth >= Unvisited(l, stack)
    ensures Substitute(l, ref, depth) == Some(Expand(l, ref, stack).text)
    decreases Unvisited(l, stack), 1, 0
  {
    ExpandReadable(l, ref, stack);
    StackShrinks(l, ref, stack);
    PiecesSubstituted(l, Content(l, ref), stack + [ref], depth - 1);
  }

  lemma {:induction false} PiecesSubstituted(l: Library, ps: seq<Piece>, stack: seq<string>, depth: nat)
    requires ExpandPieces(l, ps, stack).Expanded? && depth >= Unvisited(l, stack)
    ensures SubstitutePieces(l, ps, depth) == Some(ExpandPieces(l, ps, stack).text)
    decreases Unvisited(l, stack), 2, |ps|
  {
    if ps != [] {
      PiecesSubstituted(l, ps[1..], stack, depth);
      if ps[0].Include? { ExpandedIsSubstituted(l, ps[0].ref, stack, depth); }
    }
  }

  lemma {:induction false} DeeperIsSame(l: Library, ref: string, depth: nat, deeper: nat)
    requires Substitute(l, ref, depth).Some? && depth <= deeper
    ensures Substitute(l, ref, deeper) == Substitute(l, ref, depth)
    decreases depth, 0
  {
    DeeperPieces(l, Content(l, ref), depth - 1, deeper - 1);
  }

  lemma {:induction false} DeeperPieces(l: Library, ps: seq<Piece>, depth: nat, deeper: nat)
    requires SubstitutePieces(l, ps, depth).Some? && depth <= deeper
    ensures SubstitutePieces(l, ps, deeper) == SubstitutePieces(l, ps, depth)
    decreases depth, |ps| + 1
  {
    if ps != [] {
      DeeperPieces(l, ps[1..], depth, deeper);
      if ps[0].Include? { DeeperIsSame(l, ps[0].ref, depth, deeper); }
    }
  }

  lemma {:induction false} SubstitutesInner(l: Library, ps: seq<Piece>, depth: nat, k: nat)
    requires SubstitutePieces(l, ps, depth).Some? && k < |ps| && ps[k].Include?
    ensures Substitute(l, ps[k].ref, depth).Some?
    decreases |ps|
  {
    if k > 0 { SubstitutesInner(l, ps[1..], depth, k - 1); }
  }

  /** Each file down a chain takes one level of depth. */
  lemma {:induction false} ChainTakesDepth(l: Library, p: seq<string>, depth: nat)
    requires p != [] && Linked(l, p) && Substitute(l, p[0], depth).Some?
    ensures depth >= |p| && Substitute(l, p[|p| - 1], depth - (|p| - 1)).Some?
    decreases |p|
  {
    if |p| > 1 {
      assert Includes(l, p[0], p[1]);
      var k :| 0 <= k < |Content(l, p[0])| && Content(l, p[0])[k] == Include(p[1]);
      SubstitutesInner(l, Content(l, p[0]), depth - 1, k);
      forall i | 0 <= i < |p[1..]| - 1 ensures Includes(l, p[1..][i], p[1..][i + 1]) {
        assert Includes(l, p[i + 1], p[i + 2]);
      }
      ChainTakesDepth(l, p[1..], depth - 1);
    }
  }

  lemma {:induction false} CycleNeverEnds(l: Library, c: seq<string>, depth: nat)
    requires |c| > 1 && Linked(l, c) && c[0] == c[|c| - 1]
    ensures Substitute(l, c[0], depth).None?
    decreases depth
  {
    if Substitute(l, c[0], depth).Some? {
      ChainTakesDepth(l, c, depth);
      CycleNeverEnds(l, c, depth - (|c| - 1));
    }
  }

  lemma DeadEndNeverEnds(l: Library, p: seq<string>, depth: nat)
    requires DeadEnd(l, p)
    ensures Substitute(l, p[0], depth).None?
  {
    if Substitute(l, p[0], depth).Some? {
      ChainTakesDepth(l, p, depth);
      var n := |p| - 1;
      var k :| 0 <= k < n && p[k] == p[n];
      var to, c := p[..k + 1], p[k..];
      forall i | 0 <= i < |to| - 1 ensures Includes(l, to[i], to[i + 1]) { assert Includes(l, p[i], p[i + 1]); }
      forall i | 0 <= i < |c| - 1 ensures Includes(l, c[i], c[i + 1]) { assert Includes(l, p[k + i], p[k + i + 1]); }
      ChainTakesDepth(l, to, depth);
      CycleNeverEnds(l, c, depth - k);
    }
  }

  ghost predicate SubstitutesTo(l: Library, root: string, text: string) {
    exists depth: nat :: Substitute(l, root, depth) == Some(text)
  }

  /** Freezing accepts a prompt exactly when plain substitution comes to an end, and then
      both give the same text. */
  lemma FreezeIsSubstitution(l: Library, root: string, text: string)
    ensures Expand(l, root, []) == Expanded(text) <==> SubstitutesTo(l, root, text)
  {
    assert [] + [root] == [root];
    var e := Expand(l, root, []);
    if e.Expanded? {
      ExpandedIsSubstituted(l, root, [], Unvisited(l, []));
      forall depth: nat | Substitute(l, root, depth) == Some(text) ensures e == Expanded(text) {
        var deep := if depth < Unvisited(l, []) then Unvisited(l, []) else depth;
        DeeperIsSame(l, root, depth, deep);
        ExpandedIsSubstituted(l, root, [], deep);
      }
    } else {
      var p := RejectedHasDeadEnd(l, root, []);
      forall depth: nat ensures Substitute(l, root, depth).None? {
        DeadEndNeverEnds(l, p, depth);
      }
    }
  }

  // ---- As it is run

  method IncludeBlockSpan(l: Library, tokens: seq<Token>, start: nat) returns (span: Span)
    requires start < |tokens|
    ensures span == SpanAt(l, tokens, start)
  {
    if tokens[start].kind != BlockBegin { return NotInclude; }
    var i := start + 1;
    while i < |tokens| && tokens[i].kind == Whitespace
      invariant start < i <= |tokens| && SkipWhitespace(tokens, i) == SkipWhitespace(tokens, start + 1)
    {
      i := i + 1;
    }
    if i >= |tokens| || tokens[i].kind != Name || tokens[i].text != "include" { return NotInclude; }
    span := ScanIncludeBlockBody(l, tokens, i + 1);
  }

  method ScanIncludeBlockBody(l: Library, tokens: seq<Token>, startAfterInclude: nat) returns (span: Span)
    requires startAfterInclude <= |tokens|
    ensures span == ScanBody(l, tokens, startAfterInclude, None, false)
  {
    var path: Option<string> := None;
    var modifiers: seq<string> := [];
    var i := startAfterInclude;
    while i < |tokens| && tokens[i].kind != BlockEnd
      invariant startAfterInclude <= i <= |tokens|
      invariant ScanBody(l, tokens, i, path, modifiers != []) == ScanBody(l, tokens, startAfterInclude, None, false)
    {
      match tokens[i].kind
      case Whitespace => i := i + 1;
      case Name =>
        modifiers := modifiers + [tokens[i].text];
        i := i + 1;
      case Str =>
        if path.Some? { return Malformed; }
        path := l.literal(tokens[i].text);
        if path.None? { return Malformed; }
        i := i + 1;
      case _ => return Malformed;
    }
    if i >= |tokens| || path.None? || modifiers != [] { return Malformed; }
    span := Bare(i, path.value);
  }

  function Concat(parts: seq<string>): string {
    if parts == [] then "" else Concat(parts[..|parts| - 1]) + parts[|parts| - 1]
  }

  /** Recursive over an immutable stack, with an index loop that collects the parts. */
  method ExpandPrompt(l: Library, current: string, stack: seq<string>) returns (r: Expansion)
    ensures r == Expand(l, current, stack)
    decreases Unvisited(l, stack)
  {
    if current in stack { return Rejected(Cycle(stack + [current])); }
    if current !in l.files { return Rejected(NoFile(current)); }
    if l.files[current].None? { return Rejected(Invalid(current)); }
    var tokens := l.files[current].value;
    var nextStack := stack + [current];
    StackShrinks(l, current, stack);
    var parts: seq<string> := [];
    var i := 0;
    while i < |tokens|
      invariant i <= |tokens|
      invariant Prefixed(Concat(parts), ExpandTokens(l, current, tokens, i, nextStack)) == Expand(l, current, stack)
      decreases |tokens| - i
    {
      ghost var text := Concat(parts);
      var span := IncludeBlockSpan(l, tokens, i);
      match span
      case Malformed => return Rejected(Invalid(current));
      case NotInclude =>
        PrefixedTwice(text, tokens[i].text, ExpandTokens(l, current, tokens, i + 1, nextStack));
        assert (parts + [tokens[i].text])[..|parts|] == parts;
        parts := parts + [tokens[i].text];
        i := i + 1;
      case Bare(end, path) =>
        var inner := ExpandPrompt(l, path, nextStack);
        if inner.Rejected? { return inner; }
        PrefixedTwice(text, inner.text, ExpandTokens(l, current, tokens, end + 1, nextStack));
        assert (parts + [inner.text])[..|parts|] == parts;
        parts := parts + [inner.text];
        i := end + 1;
    }
    r := Expanded(Concat(parts));
  }

  lemma PrefixedTwice(a: string, b: string, e: Expansion)
    ensures Prefixed(a, Prefixed(b, e)) == Prefixed(a + b, e)
  {
    if e.Expanded? { assert a + (b + e.text) == a + b + e.text; }
  }

  /** The whole freeze: the root reference is expanded from an empty stack. */
  method FreezePromptDefinition(l: Library, root: string) returns (r: Expansion)
    ensures r == Expand(l, root, [])
    ensures forall text :: r == Expanded(text) <==> SubstitutesTo(l, root, text)
  {
    r := ExpandPrompt(l, root, []);
    forall text ensures r == Expanded(text) <==> SubstitutesTo(l, root, text) {
      FreezeIsSubstitution(l, root, text);
    }
  }
}
