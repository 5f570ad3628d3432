/** What freezing does to the text of a prompt: which blocks are includes, what stays as it
    was, and what a rejection says. */
module PromptText {
  import opened SagaTypes
  import opened Prompts

  // ---- Include blocks

  predicate Blank(tokens: seq<Token>, from: nat, to: nat)
    requires to <= |tokens|
  {
    forall j :: from <= j < to ==> tokens[j].kind == Whitespace
  }

  /** The block that begins at `i` says `include`, at token `n`. */
  predicate SaysInclude(tokens: seq<Token>, i: nat, n: nat) {
    && i < n < |tokens| && tokens[i].kind == BlockBegin && Blank(tokens, i + 1, n)
    && tokens[n].kind == Name && tokens[n].text == "include"
  }

  /** From `i` to the block end `end` there is one string, the literal of `path`, and nothing
      else but whitespace: no second string and no modifier. */
  predicate OnePath(l: Library, tokens: seq<Token>, i: nat, end: nat, path: string) {
    && i <= end < |tokens| && tokens[end].kind == BlockEnd
    && exists k :: i <= k < end && tokens[k].kind == Str && l.literal(tokens[k].text) == Some(path)
         && Blank(tokens, i, k) && Blank(tokens, k + 1, end)
  }

  /** The block from `i` to `end` is an include of `path`. */
  predicate IncludesAt(l: Library, tokens: seq<Token>, i: nat, n: nat, end: nat, path: string) {
    SaysInclude(tokens, i, n) && OnePath(l, tokens, n + 1, end, path)
  }

  lemma {:induction false} ScanAfterPath(l: Library, tokens: seq<Token>, i: nat, path: string, end: nat, p: string)
    requires i <= |tokens|
    ensures ScanBody(l, tokens, i, Some(path), false) == Bare(end, p)
      <==> i <= end < |tokens| && tokens[end].kind == BlockEnd && Blank(tokens, i, end) && p == path
    ensures ScanBody(l, tokens, i, Some(path), true) != Bare(end, p)
    decreases |tokens| - i
  {
    if i < |tokens| {
      ScanAfterPath(l, tokens, i + 1, path, end, p);
      ScanModified(l, tokens, i + 1, Some(path), end, p);
    }
  }

  lemma {:induction false} ScanModified(l: Library, tokens: seq<Token>, i: nat, path: Option<string>, end: nat, p: string)
    requires i <= |tokens|
    ensures ScanBody(l, tokens, i, path, true) != Bare(end, p)
    decreases |tokens| - i
  {
    if i < |tokens| {
      ScanModified(l, tokens, i + 1, path, end, p);
      ScanModified(l, tokens, i + 1, l.literal(tokens[i].text), end, p);
    }
  }

  lemma {:induction false} ScanFindsPath(l: Library, tokens: seq<Token>, i: nat, end: nat, p: string)
    requires i <= |tokens|
    ensures ScanBody(l, tokens, i, None, false) == Bare(end, p) <==> OnePath(l, tokens, i, end, p)
    decreases |tokens| - i
  {
    if i < |tokens| {
      match tokens[i].kind
      case Whitespace =>
        ScanFindsPath(l, tokens, i + 1, end, p);
        assert OnePath(l, tokens, i, end, p) <==> OnePath(l, tokens, i + 1, end, p);
      case Str =>
        if l.literal(tokens[i].text).Some? {
          ScanAfterPath(l, tokens, i + 1, l.literal(tokens[i].text).value, end, p);
        }
        assert Blank(tokens, i, i);
      case Name => ScanModified(l, tokens, i + 1, None, end, p);
      case _ =>
    }
  }

  lemma {:induction false} SkipsBlank(tokens: seq<Token>, i: nat)
    requires i <= |tokens|
    ensures var j := SkipWhitespace(tokens, i);
      Blank(tokens, i, j) && (j < |tokens| ==> tokens[j].kind != Whitespace)
    decreases |tokens| - i
  {
    if i < |tokens| && tokens[i].kind == Whitespace { SkipsBlank(tokens, i + 1); }
  }

  lemma IncludeIsNext(tokens: seq<Token>, i: nat, n: nat)
    requires i < |tokens| && SaysInclude(tokens, i, n)
    ensures n == SkipWhitespace(tokens, i + 1)
  {
    SkipsBlank(tokens, i + 1);
  }

  /** A block is replaced exactly when it says `include` and then names one path and nothing
      else; a block that says `include` otherwise is malformed, and any other text stays. */
  lemma IncludeBlockExact(l: Library, tokens: seq<Token>, i: nat)
    requires i < |tokens|
    ensures SpanAt(l, tokens, i) == NotInclude <==> !exists n: nat :: SaysInclude(tokens, i, n)
    ensures forall end: nat, p: string :: (
      SpanAt(l, tokens, i) == Bare(end, p) <==> exists n: nat :: IncludesAt(l, tokens, i, n, end, p))
  {
    if tokens[i].kind == BlockBegin {
      var j := SkipWhitespace(tokens, i + 1);
      SkipsBlank(tokens, i + 1);
      assert j < |tokens| && tokens[j].kind == Name && tokens[j].text == "include" ==> SaysInclude(tokens, i, j);
      forall n: nat | SaysInclude(tokens, i, n) ensures n == j { IncludeIsNext(tokens, i, n); }
      if SaysInclude(tokens, i, j) {
        forall end: nat, p: string
          ensures SpanAt(l, tokens, i) == Bare(end, p) <==> IncludesAt(l, tokens, i, j, end, p)
        {
          ScanFindsPath(l, tokens, j + 1, end, p);
        }
      }
    }
  }

  // ---- What stays

  function SourceText(tokens: seq<Token>, from: nat, to: nat): string
    requires from <= to <= |tokens|
    decreases |tokens| - from
  {
    if from == to then "" else tokens[from].text + SourceText(tokens, from + 1, to)
  }

  /** No include block begins between the two tokens. */
  ghost predicate Inert(tokens: seq<Token>, from: nat, to: nat) {
    forall j, n: nat :: from <= j < to ==> !SaysInclude(tokens, j, n)
  }

  /** Up to the next include the text is kept as it is. */
  lemma {:induction false} TextIsKept(l: Library, ref: string, tokens: seq<Token>, from: nat, to: nat, stack: seq<string>)
    requires from <= to <= |tokens| && Inert(tokens, from, to)
    ensures ExpandTokens(l, ref, tokens, from, stack)
      == Prefixed(SourceText(tokens, from, to), ExpandTokens(l, ref, tokens, to, stack))
    decreases |tokens| - from
  {
    var rest := ExpandTokens(l, ref, tokens, to, stack);
    if from == to {
      assert rest.Expanded? ==> "" + rest.text == rest.text;
    } else {
      IncludeBlockExact(l, tokens, from);
      TextIsKept(l, ref, tokens, from + 1, to, stack);
      PrefixedTwice(tokens[from].text, SourceText(tokens, from + 1, to), rest);
    }
  }

  /** A file that includes nothing is frozen as it is. */
  lemma PlainFileStays(l: Library, root: string)
    requires root in l.files && l.files[root].Some? && Inert(l.files[root].value, 0, |l.files[root].value|)
    ensures var tokens := l.files[root].value; Expand(l, root, []) == Expanded(SourceText(tokens, 0, |tokens|))
  {
    var tokens := l.files[root].value;
    assert [] + [root] == [root];
    TextIsKept(l, root, tokens, 0, |tokens|, [root]);
    assert SourceText(tokens, 0, |tokens|) + "" == SourceText(tokens, 0, |tokens|);
  }

  /** The text up to the first include, the frozen included file in place of the block, and
      the rest after the block. */
  lemma FirstIncludeReplaced(l: Library, ref: string, tokens: seq<Token>, from: nat, i: nat, n: nat, end: nat, path: string, stack: seq<string>)
    requires from <= i < |tokens| && Inert(tokens, from, i)
    requires IncludesAt(l, tokens, i, n, end, path)
    ensures var inner := Expand(l, path, stack);
      ExpandTokens(l, ref, tokens, from, stack) ==
        if inner.Rejected? then inner
        else Prefixed(SourceText(tokens, from, i) + inner.text, ExpandTokens(l, ref, tokens, end + 1, stack))
  {
    TextIsKept(l, ref, tokens, from, i, stack);
    IncludeBlockExact(l, tokens, i);
    assert SpanAt(l, tokens, i) == Bare(end, path);
    var inner := Expand(l, path, stack);
    if inner.Expanded? {
      PrefixedTwice(SourceText(tokens, from, i), inner.text, ExpandTokens(l, ref, tokens, end + 1, stack));
    }
  }

  // ---- What a rejection says

  /** Some block of file `a` includes file `b`. */
  ghost predicate Names(l: Library, a: string, b: string) {
    a in l.files && l.files[a].Some? && exists i, n, end :: IncludesAt(l, l.files[a].value, i, n, end, b)
  }

  ghost predicate Chain(l: Library, p: seq<string>) {
    p != [] && forall i :: 0 <= i < |p| - 1 ==> Names(l, p[i], p[i + 1])
  }

  /** A chain of includes that goes on from `start` and ends at `ref`. */
  ghost predicate LeadsTo(l: Library, start: seq<string>, p: seq<string>, ref: string) {
    start <= p && Chain(l, p) && p[|p| - 1] == ref
  }

  /** The block at `i` says `include`, but not one path and nothing else. */
  ghost predicate SaysNothing(l: Library, tokens: seq<Token>, i: nat, n: nat) {
    SaysInclude(tokens, i, n) && forall end: nat, b: string :: !IncludesAt(l, tokens, i, n, end, b)
  }

  /** The file is rejected as a whole, or some block of it says `include` but not what. */
  ghost predicate Unusable(l: Library, ref: string) {
    && ref in l.files
    && (l.files[ref].None? || exists i, n :: SaysNothing(l, l.files[ref].value, i, n))
  }

  /** What is said is so: there is such a cycle, such a missing or such an unusable file. */
  ghost predicate Justified(l: Library, start: seq<string>, problem: Problem) {
    match problem
    case Cycle(trace) => trace != [] && LeadsTo(l, start, trace, trace[|trace| - 1]) && trace[|trace| - 1] in trace[..|trace| - 1]
    case NoFile(ref) => ref !in l.files && exists p :: LeadsTo(l, start, p, ref)
    case Invalid(ref) => Unusable(l, ref) && exists p :: LeadsTo(l, start, p, ref)
  }

  /** Every rejection names a true reason, found on a chain of includes from the root. */
  lemma {:induction false} RejectionJustified(l: Library, ref: string, stack: seq<string>)
    requires Chain(l, stack + [ref]) && Expand(l, ref, stack).Rejected?
    ensures Justified(l, stack + [ref], Expand(l, ref, stack).problem)
    decreases Unvisited(l, stack), 1, 0
  {
    var here := stack + [ref];
    assert here[..|here| - 1] == stack && LeadsTo(l, here, here, ref);
    if ref !in stack && ref in l.files && l.files[ref].Some? {
      StackShrinks(l, ref, stack);
      TokensJustified(l, ref, l.files[ref].value, 0, here);
    }
  }

  lemma {:induction false} TokensJustified(l: Library, ref: string, tokens: seq<Token>, i: nat, stack: seq<string>)
    requires i <= |tokens| && ref in l.files && l.files[ref] == Some(tokens)
    requires Chain(l, stack) && stack[|stack| - 1] == ref && ExpandTokens(l, ref, tokens, i, stack).Rejected?
    ensures Justified(l, stack, ExpandTokens(l, ref, tokens, i, stack).problem)
    decreases Unvisited(l, stack), 2, |tokens| - i
  {
    IncludeBlockExact(l, tokens, i);
    match SpanAt(l, tokens, i)
    case Malformed =>
      var n: nat :| SaysInclude(tokens, i, n);
      forall end: nat, b: string ensures !IncludesAt(l, tokens, i, n, end, b) {
        assert SpanAt(l, tokens, i) != Bare(end, b);
      }
      assert SaysNothing(l, tokens, i, n);
      assert LeadsTo(l, stack, stack, ref);
    case NotInclude => TokensJustified(l, ref, tokens, i + 1, stack);
    case Bare(end, b) =>
      if Expand(l, b, stack).Rejected? {
        var n: nat :| SaysInclude(tokens, i, n) && OnePath(l, tokens, n + 1, end, b);
        assert IncludesAt(l, tokens, i, n, end, b);
        ChainGrows(l, stack, b);
        RejectionJustified(l, b, stack);
        JustifiedBelow(l, stack, b, Expand(l, b, stack).problem);
      } else {
        TokensJustified(l, ref, tokens, end + 1, stack);
      }
  }

  lemma ChainGrows(l: Library, p: seq<string>, b: string)
    requires Chain(l, p) && Names(l, p[|p| - 1], b)
    ensures Chain(l, p + [b])
  {
    forall i | 0 <= i < |p + [b]| - 1 ensures Names(l, (p + [b])[i], (p + [b])[i + 1]) {
      if i < |p| - 1 { assert Names(l, p[i], p[i + 1]); }
    }
  }

  lemma JustifiedBelow(l: Library, stack: seq<string>, b: string, problem: Problem)
    requires Justified(l, stack + [b], problem)
    ensures Justified(l, stack, problem)
  {
    assert stack <= stack + [b];
    match problem
    case Cycle(trace) => assert stack <= trace;
    case NoFile(ref) =>
      var p :| LeadsTo(l, stack + [b], p, ref);
      assert LeadsTo(l, stack, p, ref);
    case Invalid(ref) =>
      var p :| LeadsTo(l, stack + [b], p, ref);
      assert LeadsTo(l, stack, p, ref);
  }
}
