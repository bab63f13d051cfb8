/**
 The three levels at which the chunker cuts a text into units: blank lines, sentence ends,
 and a hard cut every `max` tokens.  The patterns are searched as `re.split` does, leftmost
 first and greedily.
 */
module Splitting {
  import opened Prelude
  import opened Tokens

  datatype Pattern =
    | ParagraphBreak  // \n\s*\n+
    | SentenceGap     // (?<=[.!?])\s+

  predicate EndsSentence(c: Ch)
  {
    c == Punct(46) || c == Punct(33) || c == Punct(63)
  }

  /** The language of \n\s*\n+. */
  predicate IsParagraphBreak(m: Text)
  {
    |m| >= 2 && m[0] == NEWLINE && Last(m) == NEWLINE && AllSpace(m)
  }

  /** Length of the longest white-space prefix that ends in a newline; 0 if there is none. */
  function UpToLastNewline(s: Text): (n: nat)
    ensures n <= |s| && SpaceUpTo(s, n)
    ensures n > 0 ==> s[n - 1] == NEWLINE
  {
    if s == [] || !s[0].Space? then 0
    else
      var n := UpToLastNewline(s[1..]);
      if n > 0 then n + 1 else if s[0] == NEWLINE then 1 else 0
  }

  function SpaceRun(s: Text): (n: nat)
    ensures n <= |s| && SpaceUpTo(s, n)
    ensures n < |s| ==> !s[n].Space?
  {
    if s != [] && s[0].Space? then 1 + SpaceRun(s[1..]) else 0
  }

  /** Length of the match at the front of `s`; `before` is the character in front of it, if any. */
  function MatchAt(pattern: Pattern, before: Option<Ch>, s: Text): (n: nat)
    ensures n <= |s| && SpaceUpTo(s, n)
  {
    match pattern
    case ParagraphBreak =>
      if s != [] && s[0] == NEWLINE && UpToLastNewline(s[1..]) > 0 then 1 + UpToLastNewline(s[1..]) else 0
    case SentenceGap =>
      if before.Some? && EndsSentence(before.value) then SpaceRun(s) else 0
  }

  /** The first match: where it starts and how long it is. */
  function Find(pattern: Pattern, before: Option<Ch>, s: Text): (r: Option<(nat, nat)>)
    ensures r.Some? ==> r.value.1 > 0 && r.value.0 + r.value.1 <= |s| && SpaceUpTo(s[r.value.0..], r.value.1)
    decreases |s|
  {
    if s == [] then None
    else
      var n := MatchAt(pattern, before, s);
      if n > 0 then Some((0, n))
      else
        var later := Find(pattern, Some(s[0]), s[1..]);
        if later.None? then None
        else
          assert s[1..][later.value.0..] == s[later.value.0 + 1..];
          Some((later.value.0 + 1, later.value.1))
  }

  /** `pattern.split(s)`. */
  function Split(pattern: Pattern, s: Text): seq<Text>
    decreases |s|
  {
    var m := Find(pattern, None, s);
    if m.None? then [s]
    else [s[..m.value.0]] + Split(pattern, s[m.value.0 + m.value.1..])
  }

  // ---------------------------------------------------------------- what the paragraph search finds

  predicate BreakAt(s: Text, i: nat, j: nat)
  {
    i < j <= |s| && IsParagraphBreak(s[i..j])
  }

  /** `UpToLastNewline` is the longest such prefix. */
  lemma {:induction false} UpToLastNewlineLongest(s: Text, n: nat)
    requires 0 < n <= |s| && AllSpace(s[..n]) && s[n - 1] == NEWLINE
    ensures n <= UpToLastNewline(s)
  {
    assert s[..n][0] == s[0];
    if n > 1 {
      assert s[1..][..n - 1] == s[..n][1..];
      UpToLastNewlineLongest(s[1..], n - 1);
    }
  }

  /** A break at the front is a newline and, behind it, white space ending in a newline. */
  lemma BreakEnds(s: Text, j: nat)
    requires BreakAt(s, 0, j)
    ensures 2 <= j <= |s| && s[0] == NEWLINE
    ensures AllSpace(s[1..][..j - 1]) && s[1..][j - 2] == NEWLINE
  {
    var m, t := s[0..j], s[1..];
    assert m[0] == s[0] && Last(m) == s[j - 1] && t[j - 2] == s[j - 1];
    assert t[..j - 1] == m[1..];
  }

  lemma MatchIsLongestBreak(before: Option<Ch>, s: Text)
    ensures var n := MatchAt(ParagraphBreak, before, s);
      && (n > 0 ==> BreakAt(s, 0, n))
      && forall j: nat :: BreakAt(s, 0, j) ==> 0 < j <= n
  {
    forall j: nat | BreakAt(s, 0, j) ensures j <= MatchAt(ParagraphBreak, before, s) {
      BreakEnds(s, j);
      UpToLastNewlineLongest(s[1..], j - 1);
    }
  }

  lemma ShiftBreak(s: Text, i: nat, j: nat)
    requires s != [] && 1 <= i
    ensures BreakAt(s, i, j) <==> (j >= 1 && BreakAt(s[1..], i - 1, j - 1))
  {
    if i < j <= |s| {
      var t, a, b := s[1..], i - 1, j - 1;
      assert t[a..b] == s[i..j];
    }
  }

  lemma NothingToFind()
    ensures forall i: nat, j: nat :: !BreakAt([], i, j)
  {
  }

  /** The search finds the leftmost paragraph break, and of those starting there the longest. */
  lemma {:induction false} FindIsLeftmostLongest(before: Option<Ch>, s: Text)
    ensures var m := Find(ParagraphBreak, before, s);
      && (m.None? ==> forall i: nat, j: nat :: !BreakAt(s, i, j))
      && (m.Some? ==>
            && BreakAt(s, m.value.0, m.value.0 + m.value.1)
            && (forall i: nat, j: nat :: i < m.value.0 ==> !BreakAt(s, i, j))
            && (forall j: nat :: BreakAt(s, m.value.0, j) ==> j <= m.value.0 + m.value.1))
    decreases |s|
  {
    NothingToFind();
    hide MatchAt, BreakAt;
    if s != [] {
      MatchIsLongestBreak(before, s);
      FindIsLeftmostLongest(Some(s[0]), s[1..]);
      forall i: nat, j: nat | 1 <= i
        ensures BreakAt(s, i, j) <==> (j >= 1 && BreakAt(s[1..], i - 1, j - 1))
      {
        ShiftBreak(s, i, j);
      }
    }
  }

  ghost predicate HasBreak(s: Text)
  {
    exists i: nat, j: nat :: BreakAt(s, i, j)
  }

  lemma PrefixHasNoBreak(s: Text, n: nat)
    requires n <= |s| && forall i: nat, j: nat :: i < n ==> !BreakAt(s, i, j)
    ensures !HasBreak(s[..n])
  {
    forall i: nat, j: nat ensures !BreakAt(s[..n], i, j) {
      if i < j <= n {
        assert s[..n][i..j] == s[i..j];
        assert !BreakAt(s, i, j);
      }
    }
  }

  /** No piece of the paragraph split contains a paragraph break. */
  lemma {:induction false} ParagraphsHaveNoBreak(s: Text)
    ensures forall k :: 0 <= k < |Split(ParagraphBreak, s)| ==> !HasBreak(Split(ParagraphBreak, s)[k])
    decreases |s|
  {
    FindIsLeftmostLongest(None, s);
    var m := Find(ParagraphBreak, None, s);
    if m.Some? {
      PrefixHasNoBreak(s, m.value.0);
      ParagraphsHaveNoBreak(s[m.value.0 + m.value.1..]);
    }
  }

  // ---------------------------------------------------------------- what the sentence search finds

  function CharBefore(before: Option<Ch>, s: Text, i: nat): Option<Ch>
    requires i <= |s|
  {
    if i == 0 then before else Some(s[i - 1])
  }

  /** White space directly behind a sentence end. */
  predicate GapAt(before: Option<Ch>, s: Text, i: nat)
  {
    i < |s| && s[i].Space? && CharBefore(before, s, i).Some? && EndsSentence(CharBefore(before, s, i).value)
  }

  lemma MatchIsGap(before: Option<Ch>, s: Text)
    ensures var n := MatchAt(SentenceGap, before, s);
      && (n > 0 <==> GapAt(before, s, 0))
      && (0 < n < |s| ==> !s[n].Space?)
  {
  }

  lemma ShiftGap(before: Option<Ch>, s: Text, i: nat)
    requires s != [] && 1 <= i
    ensures GapAt(before, s, i) <==> GapAt(Some(s[0]), s[1..], i - 1)
  {
  }

  lemma NoGapInNothing(before: Option<Ch>)
    ensures forall i: nat :: !GapAt(before, [], i)
  {
  }

  /** The search finds the leftmost gap and takes all white space there. */
  lemma {:induction false} FindIsLeftmostGap(before: Option<Ch>, s: Text)
    ensures var m := Find(SentenceGap, before, s);
      && (m.None? ==> forall i: nat :: !GapAt(before, s, i))
      && (m.Some? ==>
            && GapAt(before, s, m.value.0)
            && (forall i: nat :: i < m.value.0 ==> !GapAt(before, s, i))
            && (m.value.0 + m.value.1 < |s| ==> !s[m.value.0 + m.value.1].Space?))
    decreases |s|
  {
    NoGapInNothing(before);
    hide MatchAt, GapAt;
    if s != [] {
      MatchIsGap(before, s);
      FindIsLeftmostGap(Some(s[0]), s[1..]);
      forall i: nat | 1 <= i ensures GapAt(before, s, i) <==> GapAt(Some(s[0]), s[1..], i - 1) {
        ShiftGap(before, s, i);
      }
    }
  }

  /** A sentence goes on to its end: nowhere inside a piece is white space behind a sentence end. */
  ghost predicate NoInnerGap(s: Text)
  {
    forall i: nat :: !GapAt(None, s, i)
  }

  /** No piece of the sentence split contains a gap. */
  lemma {:induction false} SentencesHaveNoGap(s: Text)
    ensures forall k :: 0 <= k < |Split(SentenceGap, s)| ==> NoInnerGap(Split(SentenceGap, s)[k])
    decreases |s|
  {
    FindIsLeftmostGap(None, s);
    var m := Find(SentenceGap, None, s);
    if m.Some? {
      var front := s[..m.value.0];
      forall i: nat ensures !GapAt(None, front, i) {
        assert i < |front| ==> CharBefore(None, front, i) == CharBefore(None, s, i);
        assert !GapAt(None, s, i) || i >= |front|;
      }
      SentencesHaveNoGap(s[m.value.0 + m.value.1..]);
    }
  }

  // ---------------------------------------------------------------- what stands between the pieces

  /** Pieces with separators between them, put together again. */
  function Interleave(pieces: seq<Text>, seps: seq<Text>): Text
    requires |pieces| == |seps| + 1
  {
    if seps == [] then pieces[0] else pieces[0] + seps[0] + Interleave(pieces[1..], seps[1..])
  }

  /** What a pattern may take out behind a piece. */
  predicate Separates(pattern: Pattern, piece: Text, sep: Text)
  {
    match pattern
    case ParagraphBreak => IsParagraphBreak(sep)
    case SentenceGap => sep != [] && AllSpace(sep) && piece != [] && EndsSentence(Last(piece))
  }

  predicate SplitsInto(pattern: Pattern, s: Text, pieces: seq<Text>, seps: seq<Text>)
  {
    && |pieces| == |seps| + 1 && Interleave(pieces, seps) == s
    && forall k :: 0 <= k < |seps| ==> Separates(pattern, pieces[k], seps[k])
  }

  lemma FoundSeparates(pattern: Pattern, s: Text)
    requires Find(pattern, None, s).Some?
    ensures var m := Find(pattern, None, s).value;
      m.0 + m.1 <= |s| && Separates(pattern, s[..m.0], s[m.0..m.0 + m.1])
  {
    var m := Find(pattern, None, s).value;
    match pattern
    case ParagraphBreak => FindIsLeftmostLongest(None, s);
    case SentenceGap =>
      FindIsLeftmostGap(None, s);
      assert s[m.0..][..m.1] == s[m.0..m.0 + m.1];
  }

  lemma SplitsFurther(pattern: Pattern, s: Text, a: nat, b: nat, pieces: seq<Text>, seps: seq<Text>)
    requires a <= b <= |s| && Separates(pattern, s[..a], s[a..b]) && SplitsInto(pattern, s[b..], pieces, seps)
    ensures SplitsInto(pattern, s, [s[..a]] + pieces, [s[a..b]] + seps)
  {
    var ps, qs := [s[..a]] + pieces, [s[a..b]] + seps;
    assert ps[1..] == pieces && qs[1..] == seps;
    assert s == s[..a] + s[a..b] + s[b..];
    forall k | 0 <= k < |qs| ensures Separates(pattern, ps[k], qs[k]) {
      if k > 0 {
        assert ps[k] == pieces[k - 1] && qs[k] == seps[k - 1];
      }
    }
  }

  /**
   A text is cut at matches of the pattern and nowhere else: it is the pieces of its split
   with paragraph breaks, or white space behind sentence ends, between them.
   */
  lemma {:induction false} SplitCutsAtMatches(pattern: Pattern, s: Text) returns (seps: seq<Text>)
    ensures SplitsInto(pattern, s, Split(pattern, s), seps)
    decreases |s|
  {
    hide Find, Separates;
    var m := Find(pattern, None, s);
    if m.None? {
      seps := [];
    } else {
      var a, b := m.value.0, m.value.0 + m.value.1;
      FoundSeparates(pattern, s);
      var later := SplitCutsAtMatches(pattern, s[b..]);
      SplitsFurther(pattern, s, a, b, Split(pattern, s[b..]), later);
      seps := [s[a..b]] + later;
    }
  }

  // ---------------------------------------------------------------- splitting keeps the tokens

  lemma {:induction false} SplitKeepsTokens(pattern: Pattern, s: Text)
    ensures Concat(TokensOf(Split(pattern, s))) == Tokenize(s)
    decreases |s|
  {
    hide Find, Tokenize, Concat, TokensOf;
    var m := Find(pattern, None, s);
    if m.None? {
      OnePieceTokens(s);
    } else {
      var a, b := m.value.0, m.value.0 + m.value.1;
      assert s[a..b] == s[a..][..b - a];
      SplitKeepsTokens(pattern, s[b..]);
      TokensOfConcat([s[..a]], Split(pattern, s[b..]));
      ConcatAppend(TokensOf([s[..a]]), TokensOf(Split(pattern, s[b..])));
      OnePieceTokens(s[..a]);
      TokenizeAcrossSpace(s[..a], s[a..b], s[b..]);
      assert s == s[..a] + s[a..b] + s[b..];
    }
  }

  lemma OnePieceTokens(s: Text)
    ensures Concat(TokensOf([s])) == Tokenize(s)
  {
    assert Front([s]) == [];
    assert TokensOf([s]) == [Tokenize(s)];
    ConcatSnoc([], Tokenize(s));
    assert [] + [Tokenize(s)] == [Tokenize(s)];
  }

  // ---------------------------------------------------------------- paragraphs read off the text

  predicate NoNewline(s: Text)
  {
    forall i :: 0 <= i < |s| ==> s[i] != NEWLINE
  }

  function NewlinesIn(s: Text): nat
  {
    if s == [] then 0 else (if s[0] == NEWLINE then 1 else 0) + NewlinesIn(s[1..])
  }

  /** These tokens in front of those of the first paragraph. */
  function AddFirst(tokens: seq<Token>, paragraphs: seq<seq<Token>>): seq<seq<Token>>
    requires paragraphs != []
  {
    [tokens + paragraphs[0]] + paragraphs[1..]
  }

  /**
   The tokens of each paragraph, told without a pattern: a new paragraph begins where the
   white space between two characters has at least two newlines in it.
   */
  function ParagraphTokens(s: Text): (r: seq<seq<Token>>)
    ensures r != []
    decreases |s|
  {
    if s == [] then [[]]
    else if s[0].Space? then
      var n := SpaceRun(s);
      if NewlinesIn(s[..n]) >= 2 then [[]] + ParagraphTokens(s[n..]) else ParagraphTokens(s[n..])
    else
      var n := if s[0].Word? then WordRun(s) else 1;
      AddFirst([s[..n]], ParagraphTokens(s[n..]))
  }

  /** No paragraph break starts in `v` when `rest` stands behind it. */
  predicate NoneStarts(v: Text, rest: Text)
  {
    forall i :: 0 <= i < |v| ==> MatchAt(ParagraphBreak, None, (v + rest)[i..]) == 0
  }

  /** The paragraph pattern does not look behind. */
  lemma NoLookBehind(before: Option<Ch>, s: Text)
    ensures MatchAt(ParagraphBreak, before, s) == MatchAt(ParagraphBreak, None, s)
    ensures Find(ParagraphBreak, before, s) == Find(ParagraphBreak, None, s)
  {
  }

  lemma {:induction false} FindShifted(before: Option<Ch>, v: Text, rest: Text)
    requires NoneStarts(v, rest)
    ensures var m := Find(ParagraphBreak, None, rest);
      Find(ParagraphBreak, before, v + rest) ==
        if m.None? then None else Some((|v| + m.value.0, m.value.1))
    decreases |v|
  {
    var s := v + rest;
    NoLookBehind(before, s);
    hide MatchAt;
    if v == [] {
      assert s == rest;
    } else {
      assert s[0..] == s && s[1..] == v[1..] + rest;
      assert MatchAt(ParagraphBreak, None, s[0..]) == 0;
      forall i | 0 <= i < |v[1..]| ensures MatchAt(ParagraphBreak, None, (v[1..] + rest)[i..]) == 0 {
        assert (v[1..] + rest)[i..] == s[i + 1..];
      }
      FindShifted(Some(s[0]), v[1..], rest);
    }
  }

  lemma SplitOnce(pattern: Pattern, s: Text)
    ensures var m := Find(pattern, None, s);
      Split(pattern, s) ==
        if m.None? then [s] else [s[..m.value.0]] + Split(pattern, s[m.value.0 + m.value.1..])
  {
    hide Find;
  }

  lemma SplitShifted(v: Text, rest: Text)
    requires NoneStarts(v, rest)
    ensures var pieces := Split(ParagraphBreak, rest);
      && pieces != [] && pieces[0] <= rest
      && Split(ParagraphBreak, v + rest) == [v + pieces[0]] + pieces[1..]
  {
    hide NoneStarts, MatchAt, Find, Split;
    FindShifted(None, v, rest);
    SplitOnce(ParagraphBreak, rest);
    SplitOnce(ParagraphBreak, v + rest);
    var m := Find(ParagraphBreak, None, rest);
    if m.Some? {
      var a, b := m.value.0, m.value.0 + m.value.1;
      assert (v + rest)[..|v| + a] == v + rest[..a] && (v + rest)[|v| + b..] == rest[b..];
    }
  }

  lemma TokensOfFirst(first: Text, more: seq<Text>)
    ensures TokensOf([first] + more) == [Tokenize(first)] + TokensOf(more)
  {
    TokensOfConcat([first], more);
    assert Front([first]) == [];
    assert TokensOf([first]) == TokensOf([]) + [Tokenize(first)];
  }

  /** Text in which no break starts belongs to the first paragraph of what follows. */
  lemma JoinsFirst(v: Text, rest: Text)
    requires NoneStarts(v, rest) && CutsNoWord(v, rest)
    ensures var t := TokensOf(Split(ParagraphBreak, rest));
      t != [] && TokensOf(Split(ParagraphBreak, v + rest)) == AddFirst(Tokenize(v), t)
  {
    hide NoneStarts, Split, TokensOf, Tokenize;
    SplitShifted(v, rest);
    var pieces := Split(ParagraphBreak, rest);
    TokensOfFirst(pieces[0], pieces[1..]);
    TokensOfFirst(v + pieces[0], pieces[1..]);
    assert pieces == [pieces[0]] + pieces[1..];
    TokenizeConcat(v, pieces[0]);
  }

  lemma {:induction false} NewlineCounted(s: Text, i: nat)
    requires i < |s| && s[i] == NEWLINE
    ensures NewlinesIn(s) >= 1
  {
    if i > 0 {
      NewlineCounted(s[1..], i - 1);
    }
  }

  lemma {:induction false} TwoNewlines(s: Text, i: nat, j: nat)
    requires i < j < |s| && s[i] == NEWLINE && s[j] == NEWLINE
    ensures NewlinesIn(s) >= 2
  {
    if i == 0 {
      NewlineCounted(s[1..], j - 1);
    } else {
      TwoNewlines(s[1..], i - 1, j - 1);
    }
  }

  lemma {:induction false} SomeNewline(s: Text) returns (i: nat)
    requires NewlinesIn(s) >= 1
    ensures i < |s| && s[i] == NEWLINE
  {
    if s[0] == NEWLINE {
      i := 0;
    } else {
      i := SomeNewline(s[1..]);
      i := i + 1;
    }
  }

  lemma {:induction false} SomeTwoNewlines(s: Text) returns (i: nat, j: nat)
    requires NewlinesIn(s) >= 2
    ensures i < j < |s| && s[i] == NEWLINE && s[j] == NEWLINE
  {
    if s[0] == NEWLINE {
      i := 0;
      j := SomeNewline(s[1..]);
      j := j + 1;
    } else {
      i, j := SomeTwoNewlines(s[1..]);
      i, j := i + 1, j + 1;
    }
  }

  predicate StartsNoSpace(s: Text)
  {
    s != [] ==> !s[0].Space?
  }

  lemma SpaceIn(w: Text, rest: Text, i: nat, n: nat)
    requires i <= |w| && StartsNoSpace(rest) && i + n <= |w + rest| && SpaceUpTo((w + rest)[i..], n)
    ensures i + n <= |w|
  {
    forall j | i <= j < i + n ensures (w + rest)[j].Space? {
      assert (w + rest)[i..][..n][j - i] == (w + rest)[j];
    }
    assert rest != [] ==> !(w + rest)[|w|].Space?;
  }

  /** No paragraph break starts in white space with fewer than two newlines. */
  lemma NoneStartsInSpace(w: Text, rest: Text)
    requires AllSpace(w) && NewlinesIn(w) < 2 && StartsNoSpace(rest)
    ensures NoneStarts(w, rest)
  {
    forall i | 0 <= i < |w| ensures MatchAt(ParagraphBreak, None, (w + rest)[i..]) == 0 {
      var t := (w + rest)[i..];
      var n := UpToLastNewline(t[1..]);
      if t[0] == NEWLINE && n > 0 {
        assert t[1..] == (w + rest)[i + 1..];
        SpaceIn(w, rest, i + 1, n);
        assert t[1..][n - 1] == w[i + n];
        TwoNewlines(w, i, i + n);
      }
    }
  }

  lemma NoneStartsInWords(v: Text, rest: Text)
    requires NoNewline(v)
    ensures NoneStarts(v, rest)
  {
    forall i | 0 <= i < |v| ensures MatchAt(ParagraphBreak, None, (v + rest)[i..]) == 0 {
      assert (v + rest)[i..][0] == v[i];
    }
  }

  lemma NewlinesBreak(w: Text, rest: Text, i: nat, j: nat)
    requires AllSpace(w) && i < j < |w| && w[i] == NEWLINE && w[j] == NEWLINE
    ensures BreakAt(w + rest, i, j + 1)
  {
    var m := (w + rest)[i..j + 1];
    assert m == w[i..j + 1];
    assert m[0] == w[i] && Last(m) == w[j];
  }

  /** Where the break is found in white space that has one. */
  lemma BreakInSpace(w: Text, rest: Text) returns (a: nat, b: nat)
    requires AllSpace(w) && NewlinesIn(w) >= 2 && StartsNoSpace(rest)
    ensures a < b <= |w| && Find(ParagraphBreak, None, w + rest) == Some((a, b - a)) && NoNewline(w[b..])
  {
    var s := w + rest;
    var i, j := SomeTwoNewlines(w);
    NewlinesBreak(w, rest, i, j);
    FindIsLeftmostLongest(None, s);
    var m := Find(ParagraphBreak, None, s);
    a, b := m.value.0, m.value.0 + m.value.1;
    SpaceIn(w, rest, a, m.value.1);
    assert s[a..][0..b - a] == s[a..b];
    BreakEnds(s[a..], b - a);
    forall k | b <= k < |w| ensures w[k] != NEWLINE {
      if w[k] == NEWLINE {
        NewlinesBreak(w, rest, a, k);
      }
    }
  }

  /** White space with two newlines ends a paragraph. */
  lemma SpaceEndsParagraph(w: Text, rest: Text)
    requires AllSpace(w) && NewlinesIn(w) >= 2 && StartsNoSpace(rest)
    ensures TokensOf(Split(ParagraphBreak, w + rest)) == [[]] + TokensOf(Split(ParagraphBreak, rest))
  {
    hide Find, Split, TokensOf, Tokenize, NewlinesIn, NoneStarts;
    var a, b := BreakInSpace(w, rest);
    var s, u := w + rest, w[b..];
    assert s[..a] == w[..a] && s[b..] == u + rest;
    SplitOnce(ParagraphBreak, s);
    TokensOfFirst(s[..a], Split(ParagraphBreak, s[b..]));
    SpaceHasNoTokens(s[..a]);
    SpaceHasNoTokens(u);
    NoneStartsInWords(u, rest);
    JoinsFirst(u, rest);
    var t := TokensOf(Split(ParagraphBreak, rest));
    assert [] + t[0] == t[0] && AddFirst([], t) == t;
  }

  /**
   The paragraph split against that reading: its pieces have, in order, the tokens of the
   paragraphs.
   */
  lemma {:induction false} ParagraphsAre(s: Text)
    ensures TokensOf(Split(ParagraphBreak, s)) == ParagraphTokens(s)
    decreases |s|
  {
    hide Find, Split, TokensOf, Tokenize, NoneStarts, WordRun, SpaceRun;
    if s == [] {
      NothingSplit();
    } else {
      var n := if s[0].Space? then SpaceRun(s) else if s[0].Word? then WordRun(s) else 1;
      var front, rest := s[..n], s[n..];
      RunsOn(s);
      assert s == front + rest;
      ParagraphsAre(rest);
      if s[0].Space? {
        SpaceHasNoTokens(front);
        if NewlinesIn(front) >= 2 {
          SpaceEndsParagraph(front, rest);
        } else {
          NoneStartsInSpace(front, rest);
          JoinsFirst(front, rest);
          var t := ParagraphTokens(rest);
          assert [] + t[0] == t[0] && AddFirst([], t) == t;
        }
      } else {
        TokenizeToken(front);
        NoneStartsInWords(front, rest);
        JoinsFirst(front, rest);
      }
    }
  }

  lemma NothingSplit()
    ensures TokensOf(Split(ParagraphBreak, [])) == [[]]
  {
    assert Split(ParagraphBreak, []) == [[]];
    TokensOfFirst([], []);
  }

  /** The first run of a text: all white space, or one token. */
  lemma RunsOn(s: Text)
    requires s != []
    ensures var n := if s[0].Space? then SpaceRun(s) else if s[0].Word? then WordRun(s) else 1;
      && 0 < n <= |s| && CutsNoWord(s[..n], s[n..])
      && (s[0].Space? ==> AllSpace(s[..n]) && StartsNoSpace(s[n..]))
      && (!s[0].Space? ==> IsToken(s[..n]) && NoNewline(s[..n]))
  {
    hide SpaceRun, WordRun;
    if s[0].Word? {
      assert AllWord(s[..WordRun(s)]);
    } else if s[0].Space? {
      assert AllSpace(s[..SpaceRun(s)]);
    }
  }

  // ---------------------------------------------------------------- units

  function HardPieces(tokens: seq<Token>, max: nat): seq<Text>
    requires max > 0
    decreases |tokens|
  {
    if tokens == [] then []
    else
      var n := if |tokens| <= max then |tokens| else max;
      [Join(Parts(tokens[..n]))] + HardPieces(tokens[n..], max)
  }

  function OneSentence(sentence: Text, max: nat): seq<Text>
    requires max > 0
  {
    var s := Strip(sentence);
    if s == [] then [] else if Count(s) <= max then [s] else HardPieces(Tokenize(s), max)
  }

  function SentenceUnits(sentences: seq<Text>, max: nat): seq<Text>
    requires max > 0
    decreases |sentences|
  {
    if sentences == [] then [] else SentenceUnits(Front(sentences), max) + OneSentence(Last(sentences), max)
  }

  function ParagraphUnits(paragraph: Text, max: nat): seq<Text>
    requires max > 0
  {
    if Count(paragraph) <= max then [paragraph]
    else SentenceUnits(Split(SentenceGap, paragraph), max)
  }

  function OneParagraph(paragraph: Text, max: nat): seq<Text>
    requires max > 0
  {
    var p := Strip(paragraph);
    if p == [] then [] else ParagraphUnits(p, max)
  }

  function UnitsOf(paragraphs: seq<Text>, max: nat): seq<Text>
    requires max > 0
    decreases |paragraphs|
  {
    if paragraphs == [] then [] else UnitsOf(Front(paragraphs), max) + OneParagraph(Last(paragraphs), max)
  }

  /** `_build_units`. */
  function Units(text: Text, max: nat): seq<Text>
    requires max > 0
  {
    UnitsOf(Split(ParagraphBreak, Strip(text)), max)
  }

  /** Units that hold exactly these tokens, in order, each between 1 and `max` of them. */
  predicate Carries(units: seq<Text>, tokens: seq<Token>, max: nat)
  {
    && Concat(TokensOf(units)) == tokens
    && forall i :: 0 <= i < |units| ==> 1 <= Count(units[i]) <= max
  }

  lemma CarriesConcat(a: seq<Text>, s: seq<Token>, b: seq<Text>, t: seq<Token>, max: nat)
    requires Carries(a, s, max) && Carries(b, t, max)
    ensures Carries(a + b, s + t, max)
  {
    TokensOfConcat(a, b);
    ConcatAppend(TokensOf(a), TokensOf(b));
  }

  lemma CarriesOne(unit: Text, max: nat)
    requires 1 <= Count(unit) <= max
    ensures Carries([unit], Tokenize(unit), max)
  {
    OnePieceTokens(unit);
  }

  lemma CarriesNothing(max: nat)
    ensures Carries([], [], max)
  {
  }

  lemma PieceCarries(tokens: seq<Token>, max: nat)
    requires 0 < |tokens| <= max && forall i :: 0 <= i < |tokens| ==> IsToken(tokens[i])
    ensures Carries([Join(Parts(tokens))], tokens, max)
  {
    hide Join, Parts, Tokenize, IsToken, Carries;
    DetokenizeRoundTrip(tokens);
    CarriesOne(Join(Parts(tokens)), max);
  }

  lemma {:induction false} HardPiecesCarry(tokens: seq<Token>, max: nat)
    requires max > 0 && forall i :: 0 <= i < |tokens| ==> IsToken(tokens[i])
    ensures Carries(HardPieces(tokens, max), tokens, max)
    decreases |tokens|
  {
    hide Join, Parts, IsToken, Carries;
    if tokens == [] {
      CarriesNothing(max);
    } else {
      var n := if |tokens| <= max then |tokens| else max;
      PieceCarries(tokens[..n], max);
      HardPiecesCarry(tokens[n..], max);
      CarriesConcat([Join(Parts(tokens[..n]))], tokens[..n], HardPieces(tokens[n..], max), tokens[n..], max);
      assert tokens[..n] + tokens[n..] == tokens;
    }
  }

  predicate AllButLastFull(pieces: seq<Text>, max: nat)
  {
    forall k :: 0 <= k < |pieces| - 1 ==> Count(pieces[k]) == max
  }

  lemma FullThenRest(piece: Text, rest: seq<Text>, max: nat)
    requires Count(piece) == max && AllButLastFull(rest, max)
    ensures AllButLastFull([piece] + rest, max)
  {
    hide Count;
  }

  /** The hard cut falls every `max` tokens: all pieces but the last are full. */
  lemma {:induction false} HardPiecesAreFull(tokens: seq<Token>, max: nat)
    requires max > 0 && forall i :: 0 <= i < |tokens| ==> IsToken(tokens[i])
    ensures AllButLastFull(HardPieces(tokens, max), max)
    decreases |tokens|
  {
    hide Join, Parts, IsToken, Tokenize;
    if |tokens| > max {
      DetokenizeRoundTrip(tokens[..max]);
      HardPiecesAreFull(tokens[max..], max);
      FullThenRest(Join(Parts(tokens[..max])), HardPieces(tokens[max..], max), max);
    } else {
      assert tokens[|tokens|..] == [];
    }
  }

  lemma SentenceCarries(sentence: Text, max: nat)
    requires max > 0
    ensures Carries(OneSentence(sentence, max), Tokenize(sentence), max)
  {
    var s := Strip(sentence);
    StripKeepsTokens(sentence);
    if s == [] {
      CarriesNothing(max);
    } else if Count(s) <= max {
      CarriesOne(s, max);
    } else {
      TokensAreTokens(s);
      HardPiecesCarry(Tokenize(s), max);
    }
  }

  lemma {:induction false} SentencesCarry(sentences: seq<Text>, max: nat)
    requires max > 0
    ensures Carries(SentenceUnits(sentences, max), Concat(TokensOf(sentences)), max)
    decreases |sentences|
  {
    if sentences == [] {
      CarriesNothing(max);
    } else {
      var before, last := Front(sentences), Last(sentences);
      SentencesCarry(before, max);
      SentenceCarries(last, max);
      CarriesConcat(SentenceUnits(before, max), Concat(TokensOf(before)),
                    OneSentence(last, max), Tokenize(last), max);
      ConcatSnoc(TokensOf(before), Tokenize(last));
    }
  }

  lemma ParagraphCarries(paragraph: Text, max: nat)
    requires max > 0 && Count(paragraph) > 0
    ensures Carries(ParagraphUnits(paragraph, max), Tokenize(paragraph), max)
  {
    if Count(paragraph) <= max {
      CarriesOne(paragraph, max);
    } else {
      SplitKeepsTokens(SentenceGap, paragraph);
      SentencesCarry(Split(SentenceGap, paragraph), max);
    }
  }

  lemma OneParagraphCarries(paragraph: Text, max: nat)
    requires max > 0
    ensures Carries(OneParagraph(paragraph, max), Tokenize(paragraph), max)
  {
    StripKeepsTokens(paragraph);
    if Strip(paragraph) == [] {
      CarriesNothing(max);
    } else {
      ParagraphCarries(Strip(paragraph), max);
    }
  }

  lemma {:induction false} ParagraphsCarry(paragraphs: seq<Text>, max: nat)
    requires max > 0
    ensures Carries(UnitsOf(paragraphs, max), Concat(TokensOf(paragraphs)), max)
    decreases |paragraphs|
  {
    if paragraphs == [] {
      CarriesNothing(max);
    } else {
      var before, last := Front(paragraphs), Last(paragraphs);
      ParagraphsCarry(before, max);
      OneParagraphCarries(last, max);
      ConcatSnoc(TokensOf(before), Tokenize(last));
      CarriesConcat(UnitsOf(before, max), Concat(TokensOf(before)),
                    OneParagraph(last, max), Tokenize(last), max);
    }
  }

  /**
   Splitting into units loses, repeats and reorders no token, and every unit holds at least
   one token and at most `max`.
   */
  lemma UnitsCarryTokens(text: Text, max: nat)
    requires max > 0
    ensures Carries(Units(text, max), Tokenize(text), max)
  {
    StripKeepsTokens(text);
    SplitKeepsTokens(ParagraphBreak, Strip(text));
    ParagraphsCarry(Split(ParagraphBreak, Strip(text)), max);
  }

  // ---------------------------------------------------------------- units respect paragraphs

  /** A slice of a text without a paragraph break has none. */
  lemma SliceHasNoBreak(before: Text, t: Text, after: Text)
    requires !HasBreak(before + t + after)
    ensures !HasBreak(t)
  {
    var s, n := before + t + after, |before|;
    forall i: nat, j: nat ensures !BreakAt(t, i, j) {
      if i < j <= |t| {
        assert s[n + i..n + j] == t[i..j];
        assert !BreakAt(s, n + i, n + j);
      }
    }
  }

  lemma {:induction false} PiecesAreSlices(pattern: Pattern, s: Text)
    requires !HasBreak(s)
    ensures forall k :: 0 <= k < |Split(pattern, s)| ==> !HasBreak(Split(pattern, s)[k])
    decreases |s|
  {
    hide HasBreak, Find;
    var m := Find(pattern, None, s);
    if m.Some? {
      var a, b := m.value.0, m.value.0 + m.value.1;
      assert s == [] + s[..a] + s[a..];
      SliceHasNoBreak([], s[..a], s[a..]);
      assert s == s[..b] + s[b..] + [];
      SliceHasNoBreak(s[..b], s[b..], []);
      PiecesAreSlices(pattern, s[b..]);
    }
  }

  lemma NoNewlineNoBreak(s: Text)
    requires NoNewline(s)
    ensures !HasBreak(s)
  {
    forall i: nat, j: nat ensures !BreakAt(s, i, j) {
      if i < j <= |s| {
        assert s[i..j][0] == s[i];
      }
    }
  }

  lemma {:induction false} PartsHaveNoNewline(tokens: seq<Token>)
    requires forall i :: 0 <= i < |tokens| ==> IsToken(tokens[i])
    ensures forall i :: 0 <= i < |Parts(tokens)| ==> NoNewline(Parts(tokens)[i])
  {
    if tokens != [] {
      PartsHaveNoNewline(Front(tokens));
    }
  }

  lemma {:induction false} JoinHasNoNewline(parts: seq<Text>)
    requires forall i :: 0 <= i < |parts| ==> NoNewline(parts[i])
    ensures NoNewline(Join(parts))
  {
    if |parts| > 1 {
      JoinHasNoNewline(Front(parts));
    }
  }

  ghost predicate NoneHasBreak(units: seq<Text>)
  {
    forall k :: 0 <= k < |units| ==> !HasBreak(units[k])
  }

  lemma {:induction false} HardPiecesHaveNoBreak(tokens: seq<Token>, max: nat)
    requires max > 0 && forall i :: 0 <= i < |tokens| ==> IsToken(tokens[i])
    ensures NoneHasBreak(HardPieces(tokens, max))
    decreases |tokens|
  {
    if tokens != [] {
      var n := if |tokens| <= max then |tokens| else max;
      PartsHaveNoNewline(tokens[..n]);
      JoinHasNoNewline(Parts(tokens[..n]));
      NoNewlineNoBreak(Join(Parts(tokens[..n])));
      HardPiecesHaveNoBreak(tokens[n..], max);
    }
  }

  lemma StripHasNoBreak(s: Text)
    requires !HasBreak(s)
    ensures !HasBreak(Strip(s))
  {
    var before, after := StripSlices(s);
    SliceHasNoBreak(before, Strip(s), after);
  }

  lemma {:induction false} SentenceUnitsHaveNoBreak(sentences: seq<Text>, max: nat)
    requires max > 0 && NoneHasBreak(sentences)
    ensures NoneHasBreak(SentenceUnits(sentences, max))
    decreases |sentences|
  {
    if sentences != [] {
      SentenceUnitsHaveNoBreak(Front(sentences), max);
      StripHasNoBreak(Last(sentences));
      TokensAreTokens(Strip(Last(sentences)));
      HardPiecesHaveNoBreak(Tokenize(Strip(Last(sentences))), max);
    }
  }

  lemma ParagraphHasNoBreak(paragraph: Text, max: nat)
    requires max > 0 && !HasBreak(paragraph)
    ensures NoneHasBreak(OneParagraph(paragraph, max))
  {
    hide HasBreak, Strip, Split, SentenceUnits, Tokenize;
    StripHasNoBreak(paragraph);
    PiecesAreSlices(SentenceGap, Strip(paragraph));
    SentenceUnitsHaveNoBreak(Split(SentenceGap, Strip(paragraph)), max);
  }

  lemma {:induction false} UnitsOfHaveNoBreak(paragraphs: seq<Text>, max: nat)
    requires max > 0 && NoneHasBreak(paragraphs)
    ensures NoneHasBreak(UnitsOf(paragraphs, max))
    decreases |paragraphs|
  {
    hide HasBreak, OneParagraph;
    if paragraphs != [] {
      UnitsOfHaveNoBreak(Front(paragraphs), max);
      ParagraphHasNoBreak(Last(paragraphs), max);
    }
  }

  /** Units respect paragraphs: no unit has a paragraph break inside it. */
  lemma UnitsRespectParagraphs(text: Text, max: nat)
    requires max > 0
    ensures NoneHasBreak(Units(text, max))
  {
    ParagraphsHaveNoBreak(Strip(text));
    UnitsOfHaveNoBreak(Split(ParagraphBreak, Strip(text)), max);
  }

  // ---------------------------------------------------------------- which texts are units

  /** A paragraph of the text, stripped and not empty. */
  ghost predicate ParagraphOf(p: Text, text: Text)
  {
    p != [] && exists i {:trigger Split(ParagraphBreak, Strip(text))[i]} ::
      0 <= i < |Split(ParagraphBreak, Strip(text))| && p == Strip(Split(ParagraphBreak, Strip(text))[i])
  }

  /** A sentence of a paragraph, stripped and not empty. */
  ghost predicate SentenceOf(q: Text, p: Text)
  {
    q != [] && exists i {:trigger Split(SentenceGap, p)[i]} ::
      0 <= i < |Split(SentenceGap, p)| && q == Strip(Split(SentenceGap, p)[i])
  }

  /** The `k`-th run of `max` tokens, or what is left of them. */
  function TokenRun(tokens: seq<Token>, k: nat, max: nat): seq<Token>
    requires k * max <= |tokens|
  {
    if k * max + max <= |tokens| then tokens[k * max..k * max + max] else tokens[k * max..]
  }

  predicate IsRun(u: Text, tokens: seq<Token>, k: nat, max: nat)
  {
    k * max < |tokens| && u == Join(Parts(TokenRun(tokens, k, max)))
  }

  /** What a sentence contributes: itself if it is short enough, else its token runs. */
  ghost predicate CutFromSentence(u: Text, q: Text, max: nat)
  {
    if Count(q) <= max then u == q else exists k: nat :: IsRun(u, Tokenize(q), k, max)
  }

  /** What a paragraph contributes: itself if it is short enough, else what its sentences do. */
  ghost predicate CutFromParagraph(u: Text, p: Text, max: nat)
  {
    if Count(p) <= max then u == p else exists q :: SentenceOf(q, p) && CutFromSentence(u, q, max)
  }

  lemma NextRun(u: Text, tokens: seq<Token>, k: nat, max: nat)
    requires max > 0 && |tokens| > max
    ensures IsRun(u, tokens, k + 1, max) <==> IsRun(u, tokens[max..], k, max)
  {
    assert (k + 1) * max == k * max + max;
    if k * max < |tokens[max..]| {
      assert TokenRun(tokens, k + 1, max) == TokenRun(tokens[max..], k, max);
    }
  }

  lemma RunZero(u: Text, tokens: seq<Token>, max: nat)
    ensures IsRun(u, tokens, 0, max) <==>
              tokens != [] && u == Join(Parts(if max <= |tokens| then tokens[..max] else tokens))
  {
    hide Join, Parts;
    assert 0 * max == 0;
    if max <= |tokens| {
      assert TokenRun(tokens, 0, max) == tokens[..max];
    } else {
      assert TokenRun(tokens, 0, max) == tokens;
    }
  }

  lemma NoLaterRun(u: Text, tokens: seq<Token>, k: nat, max: nat)
    requires |tokens| <= max && k > 0
    ensures !IsRun(u, tokens, k, max)
  {
    assert (k - 1) * max >= 0;
    assert k * max == (k - 1) * max + max;
  }

  lemma LastRun(u: Text, tokens: seq<Token>, max: nat)
    requires max > 0 && |tokens| <= max
    ensures (exists k: nat :: IsRun(u, tokens, k, max)) <==> tokens != [] && u == Join(Parts(tokens))
  {
    hide Join, Parts, IsRun;
    RunZero(u, tokens, max);
    assert tokens[..|tokens|] == tokens;
    forall k: nat | k > 0 ensures !IsRun(u, tokens, k, max) {
      NoLaterRun(u, tokens, k, max);
    }
  }

  lemma FirstRun(u: Text, tokens: seq<Token>, max: nat)
    requires max > 0 && |tokens| > max
    ensures (exists k: nat :: IsRun(u, tokens, k, max)) <==>
              u == Join(Parts(tokens[..max])) || exists k: nat :: IsRun(u, tokens[max..], k, max)
  {
    hide IsRun, Join, Parts;
    RunZero(u, tokens, max);
    forall k: nat ensures IsRun(u, tokens, k + 1, max) <==> IsRun(u, tokens[max..], k, max) {
      NextRun(u, tokens, k, max);
    }
    if k: nat :| IsRun(u, tokens, k, max) && k > 0 {
      assert IsRun(u, tokens[max..], k - 1, max);
    }
  }

  lemma {:induction false} HardPiecesAre(tokens: seq<Token>, max: nat, u: Text)
    requires max > 0
    ensures u in HardPieces(tokens, max) <==> exists k: nat :: IsRun(u, tokens, k, max)
    decreases |tokens|
  {
    hide Join, Parts, IsRun;
    if |tokens| <= max {
      LastRun(u, tokens, max);
      assert tokens[|tokens|..] == [] && tokens[..|tokens|] == tokens;
    } else {
      FirstRun(u, tokens, max);
      HardPiecesAre(tokens[max..], max, u);
    }
  }

  lemma OneSentenceIs(sentence: Text, max: nat, u: Text)
    requires max > 0
    ensures u in OneSentence(sentence, max) <==> Strip(sentence) != [] && CutFromSentence(u, Strip(sentence), max)
  {
    hide Strip, HardPieces, IsRun;
    HardPiecesAre(Tokenize(Strip(sentence)), max, u);
  }

  lemma {:induction false} SentenceUnitsAre(sentences: seq<Text>, max: nat, u: Text)
    requires max > 0
    ensures u in SentenceUnits(sentences, max) <==>
              exists i :: 0 <= i < |sentences| && Strip(sentences[i]) != [] && CutFromSentence(u, Strip(sentences[i]), max)
    decreases |sentences|
  {
    hide Strip, CutFromSentence, OneSentence;
    if sentences != [] {
      SentenceUnitsAre(Front(sentences), max, u);
      OneSentenceIs(Last(sentences), max, u);
      assert forall i :: 0 <= i < |sentences| - 1 ==> Front(sentences)[i] == sentences[i];
    }
  }

  /** A paragraph that fits is one unit; a longer one is cut at its sentence ends, and only sentences too long inside. */
  lemma ParagraphUnitsAre(paragraph: Text, max: nat, u: Text)
    requires max > 0
    ensures u in ParagraphUnits(paragraph, max) <==> CutFromParagraph(u, paragraph, max)
  {
    hide Strip, CutFromSentence, SentenceUnits, Tokenize;
    if Count(paragraph) > max {
      var sentences := Split(SentenceGap, paragraph);
      SentenceUnitsAre(sentences, max, u);
      hide Split;
      if i :| 0 <= i < |sentences| && Strip(sentences[i]) != [] && CutFromSentence(u, Strip(sentences[i]), max) {
        assert SentenceOf(Strip(sentences[i]), paragraph);
      }
    }
  }

  lemma {:induction false} UnitsOfAre(paragraphs: seq<Text>, max: nat, u: Text)
    requires max > 0
    ensures u in UnitsOf(paragraphs, max) <==>
              exists i ::
                && 0 <= i < |paragraphs| && Strip(paragraphs[i]) != []
                && CutFromParagraph(u, Strip(paragraphs[i]), max)
    decreases |paragraphs|
  {
    hide Strip, ParagraphUnits, CutFromParagraph;
    if paragraphs != [] {
      UnitsOfAre(Front(paragraphs), max, u);
      ParagraphUnitsAre(Strip(Last(paragraphs)), max, u);
      assert forall i :: 0 <= i < |paragraphs| - 1 ==> Front(paragraphs)[i] == paragraphs[i];
    }
  }

  /**
   Exactly these texts are units: the paragraphs of at most `max` tokens; of longer
   paragraphs the sentences of at most `max` tokens; and of longer sentences the runs of
   `max` tokens.  So a paragraph or sentence is cut only where it has to be.
   */
  lemma UnitsAre(text: Text, max: nat, u: Text)
    requires max > 0
    ensures u in Units(text, max) <==> exists p :: ParagraphOf(p, text) && CutFromParagraph(u, p, max)
  {
    hide Strip, CutFromParagraph, UnitsOf;
    var paragraphs := Split(ParagraphBreak, Strip(text));
    UnitsOfAre(paragraphs, max, u);
    hide Split;
    if i :| 0 <= i < |paragraphs| && Strip(paragraphs[i]) != [] && CutFromParagraph(u, Strip(paragraphs[i]), max) {
      assert ParagraphOf(Strip(paragraphs[i]), text);
    }
  }
}
