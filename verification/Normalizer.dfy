/**
 `normalize_plain_text`: four substitutions and a strip.  Each substitution replaces runs
 of white space by other white space, scanning from the left as `re.sub` and
 `str.replace` do.
 */
module Normalizer {
  import opened Prelude
  import opened Tokens
  import opened Splitting

  datatype Rule =
    | CrLf            // "\r\n" to "\n"
    | Cr              // "\r" to "\n"
    | TrailingBlanks  // [ \t]+\n to "\n"
    | BlankLines      // \n{3,} to "\n\n"

  predicate IsBlank(c: Ch)
  {
    c == BLANK || c == TAB
  }

  function BlankRun(s: Text): (n: nat)
    ensures n <= |s| && SpaceUpTo(s, n)
    ensures forall i :: 0 <= i < n ==> IsBlank(s[i])
    ensures n < |s| ==> !IsBlank(s[n])
  {
    if s != [] && IsBlank(s[0]) then 1 + BlankRun(s[1..]) else 0
  }

  function NewlineRun(s: Text): (n: nat)
    ensures n <= |s| && SpaceUpTo(s, n)
    ensures forall i :: 0 <= i < n ==> s[i] == NEWLINE
    ensures n < |s| ==> s[n] != NEWLINE
  {
    if s != [] && s[0] == NEWLINE then 1 + NewlineRun(s[1..]) else 0
  }

  /** How many characters the pattern matches at the front; 0 is no match. */
  function Match(rule: Rule, s: Text): (n: nat)
    ensures n <= |s| && SpaceUpTo(s, n)
  {
    match rule
    case CrLf => if |s| >= 2 && s[0] == RETURN && s[1] == NEWLINE then 2 else 0
    case Cr => if |s| >= 1 && s[0] == RETURN then 1 else 0
    case TrailingBlanks =>
      var n := BlankRun(s);
      if n > 0 && n < |s| && s[n] == NEWLINE then n + 1 else 0
    case BlankLines => if NewlineRun(s) >= 3 then NewlineRun(s) else 0
  }

  function Replacement(rule: Rule): Text
  {
    if rule.BlankLines? then [NEWLINE, NEWLINE] else [NEWLINE]
  }

  function Sub(rule: Rule, s: Text): Text
    decreases |s|
  {
    if s == [] then []
    else
      var n := Match(rule, s);
      if n == 0 then [s[0]] + Sub(rule, s[1..]) else Replacement(rule) + Sub(rule, s[n..])
  }

  function NormalizePlainText(text: Text): Text
  {
    Strip(Sub(BlankLines, Sub(TrailingBlanks, Sub(Cr, Sub(CrLf, text)))))
  }

  // ---------------------------------------------------------------- the token sequence stays

  lemma NoMatchOnWord(rule: Rule, s: Text)
    requires s != [] && s[0].Word?
    ensures Match(rule, s) == 0
  {
  }

  lemma {:induction false} SubSkipsWord(rule: Rule, w: Text, rest: Text)
    requires AllWord(w)
    ensures Sub(rule, w + rest) == w + Sub(rule, rest)
  {
    if w == [] {
      assert w + rest == rest;
    } else {
      var s := w + rest;
      assert s[1..] == w[1..] + rest;
      SubSkipsWord(rule, w[1..], rest);
      NoMatchOnWord(rule, s);
      assert [w[0]] + (w[1..] + Sub(rule, rest)) == w + Sub(rule, rest);
    }
  }

  lemma SubStartsAlike(rule: Rule, s: Text)
    ensures Sub(rule, s) == [] <==> s == []
    ensures s != [] ==> (Sub(rule, s)[0].Word? <==> s[0].Word?)
  {
  }

  lemma {:induction false} SubKeepsTokens(rule: Rule, s: Text)
    ensures Tokenize(Sub(rule, s)) == Tokenize(s)
    decreases |s|
  {
    hide WordRun, Match, Tokenize;
    if s != [] {
      var n := if s[0].Word? then WordRun(s) else if Match(rule, s) == 0 then 1 else Match(rule, s);
      var front, rest := s[..n], s[n..];
      assert s == front + rest;
      SubKeepsTokens(rule, rest);
      SubStartsAlike(rule, rest);
      TokenizeConcat(front, rest);
      if s[0].Word? {
        SubSkipsWord(rule, front, rest);
        TokenizeConcat(front, Sub(rule, rest));
      } else if Match(rule, s) == 0 {
        assert front == [s[0]];
        TokenizeConcat(front, Sub(rule, rest));
      } else {
        SpaceHasNoTokens(front);
        SpaceHasNoTokens(Replacement(rule));
        TokenizeConcat(Replacement(rule), Sub(rule, rest));
      }
    }
  }

  /** Normalizing leaves the token sequence unchanged, so spans mean the same before and after. */
  lemma NormalizeKeepsTokens(text: Text)
    ensures Tokenize(NormalizePlainText(text)) == Tokenize(text)
  {
    var a := Sub(CrLf, text);
    var b := Sub(Cr, a);
    var c := Sub(TrailingBlanks, b);
    SubKeepsTokens(CrLf, text);
    SubKeepsTokens(Cr, a);
    SubKeepsTokens(TrailingBlanks, b);
    SubKeepsTokens(BlankLines, c);
    StripKeepsTokens(Sub(BlankLines, c));
  }

  // ---------------------------------------------------------------- normal form

  predicate NoReturn(s: Text)
  {
    forall i :: 0 <= i < |s| ==> s[i] != RETURN
  }

  predicate BlankBeforeNewline(s: Text, i: nat)
  {
    i + 1 < |s| && IsBlank(s[i]) && s[i + 1] == NEWLINE
  }

  predicate NoTrailingBlank(s: Text)
  {
    forall i :: 0 <= i < |s| ==> !BlankBeforeNewline(s, i)
  }

  predicate ThreeNewlines(s: Text, i: nat)
  {
    i + 2 < |s| && s[i] == NEWLINE && s[i + 1] == NEWLINE && s[i + 2] == NEWLINE
  }

  predicate NoBlankLines(s: Text)
  {
    forall i :: 0 <= i < |s| ==> !ThreeNewlines(s, i)
  }

  predicate Stripped(s: Text)
  {
    s != [] ==> !s[0].Space? && !Last(s).Space?
  }

  /** No carriage returns, no blanks before a line end, no two blank lines in a row, nothing to strip. */
  predicate IsNormal(s: Text)
  {
    NoReturn(s) && NoTrailingBlank(s) && NoBlankLines(s) && Stripped(s)
  }

  lemma {:induction false} SubFirst(rule: Rule, s: Text)
    requires s != []
    ensures Sub(rule, s) != []
    ensures Sub(rule, s)[0] == if Match(rule, s) == 0 then s[0] else NEWLINE
  {
  }

  lemma {:induction false} CrRemovesReturns(s: Text)
    ensures NoReturn(Sub(Cr, s))
    decreases |s|
  {
    if s != [] {
      CrRemovesReturns(s[1..]);
    }
  }

  lemma {:induction false} SubKeepsNoReturn(rule: Rule, s: Text)
    requires NoReturn(s)
    ensures NoReturn(Sub(rule, s))
    decreases |s|
  {
    if s != [] {
      SubKeepsNoReturn(rule, s[if Match(rule, s) == 0 then 1 else Match(rule, s)..]);
    }
  }

  lemma PrependNoTrailing(c: Ch, s: Text)
    requires NoTrailingBlank(s) && !(IsBlank(c) && s != [] && s[0] == NEWLINE)
    ensures NoTrailingBlank([c] + s)
  {
    forall i | 0 <= i < |[c] + s| ensures !BlankBeforeNewline([c] + s, i) {
      if i > 0 {
        assert !BlankBeforeNewline(s, i - 1);
      }
    }
  }

  lemma {:induction false} TrailingRemoved(s: Text)
    ensures NoTrailingBlank(Sub(TrailingBlanks, s))
    decreases |s|
  {
    if s != [] {
      var n := Match(TrailingBlanks, s);
      var rest := s[if n == 0 then 1 else n..];
      TrailingRemoved(rest);
      if n == 0 && rest != [] {
        SubFirst(TrailingBlanks, rest);
        if IsBlank(s[0]) {
          assert BlankRun(s) == 1 + BlankRun(rest);
        }
      }
      PrependNoTrailing(if n == 0 then s[0] else NEWLINE, Sub(TrailingBlanks, rest));
    }
  }

  lemma NoTrailingSlice(s: Text, i: nat)
    requires NoTrailingBlank(s) && i <= |s|
    ensures NoTrailingBlank(s[i..])
  {
    forall k | 0 <= k < |s[i..]| ensures !BlankBeforeNewline(s[i..], k) {
      assert !BlankBeforeNewline(s, i + k);
    }
  }

  lemma {:induction false} CollapseKeepsNoTrailing(s: Text)
    requires NoTrailingBlank(s)
    ensures NoTrailingBlank(Sub(BlankLines, s))
    decreases |s|
  {
    if s != [] {
      var n := Match(BlankLines, s);
      var rest := s[if n == 0 then 1 else n..];
      NoTrailingSlice(s, |s| - |rest|);
      CollapseKeepsNoTrailing(rest);
      var out := Sub(BlankLines, rest);
      if n == 0 {
        assert !BlankBeforeNewline(s, 0);
        if rest != [] {
          SubFirst(BlankLines, rest);
        }
        PrependNoTrailing(s[0], out);
      } else {
        PrependNoTrailing(NEWLINE, out);
        PrependNoTrailing(NEWLINE, [NEWLINE] + out);
        assert [NEWLINE] + ([NEWLINE] + out) == Replacement(BlankLines) + out;
      }
    }
  }

  /** The length of the newline run at the front of a collapsed text is at most two. */
  lemma {:induction false} CollapsedRun(s: Text)
    requires NewlineRun(s) < 3
    ensures NewlineRun(Sub(BlankLines, s)) == NewlineRun(s)
    decreases |s|
  {
    if s != [] {
      assert Match(BlankLines, s) == 0;
      if s[0] == NEWLINE {
        assert NewlineRun(s) == 1 + NewlineRun(s[1..]);
        CollapsedRun(s[1..]);
        assert Sub(BlankLines, s)[1..] == Sub(BlankLines, s[1..]);
      }
    }
  }

  lemma ShortRuns(s: Text, c: Ch)
    requires NoBlankLines(s) && (c == NEWLINE ==> NewlineRun(s) < 2)
    ensures NoBlankLines([c] + s)
  {
    if s != [] && s[0] == NEWLINE {
      assert NewlineRun(s) == 1 + NewlineRun(s[1..]);
    }
    forall i | 0 <= i < |[c] + s| ensures !ThreeNewlines([c] + s, i) {
      if i > 0 {
        assert !ThreeNewlines(s, i - 1);
      }
    }
  }

  lemma TwoThenCollapsed(out: Text)
    requires NoBlankLines(out) && NewlineRun(out) == 0
    ensures NoBlankLines(Replacement(BlankLines) + out)
  {
    ShortRuns(out, NEWLINE);
    assert ([NEWLINE] + out)[1..] == out;
    ShortRuns([NEWLINE] + out, NEWLINE);
    assert [NEWLINE] + ([NEWLINE] + out) == Replacement(BlankLines) + out;
  }

  lemma {:induction false} BlankLinesRemoved(s: Text)
    ensures NoBlankLines(Sub(BlankLines, s))
    decreases |s|
  {
    if s != [] {
      var n := Match(BlankLines, s);
      if n == 0 {
        BlankLinesRemoved(s[1..]);
        if s[0] == NEWLINE {
          assert NewlineRun(s) == 1 + NewlineRun(s[1..]);
          CollapsedRun(s[1..]);
        }
        ShortRuns(Sub(BlankLines, s[1..]), s[0]);
      } else {
        BlankLinesRemoved(s[n..]);
        CollapsedRun(s[n..]);
        TwoThenCollapsed(Sub(BlankLines, s[n..]));
      }
    }
  }

  lemma SliceOf(before: Text, t: Text, after: Text, i: nat)
    requires i < |t|
    ensures (before + t + after)[|before| + i] == t[i]
  {
  }

  /** A slice of a text in normal form but for stripping, once stripped, is in normal form. */
  lemma StripIsNormal(s: Text)
    requires NoReturn(s) && NoTrailingBlank(s) && NoBlankLines(s)
    ensures IsNormal(Strip(s))
  {
    var before, after := StripSlices(s);
    StripEnds(s);
    var t, n := Strip(s), |before|;
    forall i | 0 <= i < |t| ensures t[i] == s[n + i] {
      SliceOf(before, t, after, i);
    }
    forall i | 0 <= i < |t| ensures !BlankBeforeNewline(t, i) && !ThreeNewlines(t, i) {
      assert !BlankBeforeNewline(s, n + i) && !ThreeNewlines(s, n + i);
    }
  }

  lemma NormalizedIsNormal(text: Text)
    ensures IsNormal(NormalizePlainText(text))
  {
    var b := Sub(Cr, Sub(CrLf, text));
    CrRemovesReturns(Sub(CrLf, text));
    SubKeepsNoReturn(TrailingBlanks, b);
    TrailingRemoved(b);
    var c := Sub(TrailingBlanks, b);
    SubKeepsNoReturn(BlankLines, c);
    CollapseKeepsNoTrailing(c);
    BlankLinesRemoved(c);
    StripIsNormal(Sub(BlankLines, c));
  }

  /** A rule that matches nowhere changes nothing. */
  lemma {:induction false} SubIdentity(rule: Rule, s: Text)
    requires forall i :: 0 <= i <= |s| ==> Match(rule, s[i..]) == 0
    ensures Sub(rule, s) == s
    decreases |s|
  {
    if s != [] {
      assert s[0..] == s;
      forall i | 0 <= i <= |s[1..]| ensures Match(rule, s[1..][i..]) == 0 {
        assert s[1..][i..] == s[i + 1..];
      }
      SubIdentity(rule, s[1..]);
    }
  }

  lemma NormalMatchesNothing(rule: Rule, s: Text, i: nat)
    requires IsNormal(s) && i <= |s|
    ensures Match(rule, s[i..]) == 0
  {
    var t := s[i..];
    match rule
    case CrLf =>
    case Cr =>
    case TrailingBlanks =>
      var n := BlankRun(t);
      if n > 0 {
        assert !BlankBeforeNewline(s, i + n - 1);
      }
    case BlankLines =>
      if i < |s| {
        assert !ThreeNewlines(s, i);
      }
  }

  lemma StripIdentity(s: Text)
    requires Stripped(s)
    ensures Strip(s) == s
  {
  }

  lemma NormalIsFixed(s: Text)
    requires IsNormal(s)
    ensures NormalizePlainText(s) == s
  {
    forall rule, i | 0 <= i <= |s| ensures Match(rule, s[i..]) == 0 {
      NormalMatchesNothing(rule, s, i);
    }
    SubIdentity(CrLf, s);
    SubIdentity(Cr, s);
    SubIdentity(TrailingBlanks, s);
    SubIdentity(BlankLines, s);
    StripIdentity(s);
  }

  /** The texts that normalizing leaves alone are exactly those in normal form. */
  lemma FixedPointsAreNormal(s: Text)
    ensures NormalizePlainText(s) == s <==> IsNormal(s)
  {
    NormalizedIsNormal(s);
    if IsNormal(s) {
      NormalIsFixed(s);
    }
  }

  /** Idempotent: no later pass recreates a pattern that an earlier pass removed. */
  lemma NormalizeIdempotent(text: Text)
    ensures NormalizePlainText(NormalizePlainText(text)) == NormalizePlainText(text)
  {
    NormalizedIsNormal(text);
    NormalIsFixed(NormalizePlainText(text));
  }

  // ---------------------------------------------------------------- what is replaced and deleted

  /** Every line end, CR LF, CR or LF, as one newline. */
  function LineEnds(s: Text): Text
    decreases |s|
  {
    if s == [] then []
    else if |s| >= 2 && s[0] == RETURN && s[1] == NEWLINE then [NEWLINE] + LineEnds(s[2..])
    else [if s[0] == RETURN then NEWLINE else s[0]] + LineEnds(s[1..])
  }

  /** What a pass deletes: a blank that only blanks part from a line end; a newline in front of two more. */
  predicate Deleted(rule: Rule, s: Text)
  {
    match rule
    case CrLf => |s| >= 2 && s[0] == RETURN && s[1] == NEWLINE
    case Cr => false
    case TrailingBlanks => 0 < BlankRun(s) < |s| && s[BlankRun(s)] == NEWLINE
    case BlankLines => ThreeNewlines(s, 0)
  }

  /** The text without the characters that are deleted where they stand. */
  function Delete(rule: Rule, s: Text): Text
    decreases |s|
  {
    if s == [] then [] else (if Deleted(rule, s) then [] else [s[0]]) + Delete(rule, s[1..])
  }

  lemma {:induction false} DeleteBlanks(s: Text)
    requires BlankRun(s) < |s| && s[BlankRun(s)] == NEWLINE
    ensures Delete(TrailingBlanks, s) == [NEWLINE] + Delete(TrailingBlanks, s[BlankRun(s) + 1..])
    decreases |s|
  {
    if BlankRun(s) > 0 {
      assert BlankRun(s) == 1 + BlankRun(s[1..]);
      DeleteBlanks(s[1..]);
      assert s[1..][BlankRun(s)..] == s[BlankRun(s) + 1..];
    }
  }

  lemma {:induction false} TrailingBlanksIs(s: Text)
    ensures Sub(TrailingBlanks, s) == Delete(TrailingBlanks, s)
    decreases |s|
  {
    if s != [] {
      var n := Match(TrailingBlanks, s);
      TrailingBlanksIs(s[if n == 0 then 1 else n..]);
      if n > 0 {
        DeleteBlanks(s);
      }
    }
  }

  lemma {:induction false} DeleteNewlines(s: Text)
    requires NewlineRun(s) >= 2
    ensures Delete(BlankLines, s) == [NEWLINE, NEWLINE] + Delete(BlankLines, s[NewlineRun(s)..])
    decreases |s|
  {
    var n := NewlineRun(s);
    assert n == 1 + NewlineRun(s[1..]);
    if n > 2 {
      DeleteNewlines(s[1..]);
      assert s[1..][n - 1..] == s[n..];
    } else {
      assert s[1..][1..] == s[2..];
    }
  }

  lemma {:induction false} BlankLinesIs(s: Text)
    ensures Sub(BlankLines, s) == Delete(BlankLines, s)
    decreases |s|
  {
    if s != [] {
      var n := Match(BlankLines, s);
      BlankLinesIs(s[if n == 0 then 1 else n..]);
      if n > 0 {
        DeleteNewlines(s);
      }
    }
  }

  lemma {:induction false} LineEndsAre(s: Text)
    ensures Sub(Cr, Sub(CrLf, s)) == LineEnds(s)
    decreases |s|
  {
    if s != [] {
      var n := Match(CrLf, s);
      var rest := s[if n == 0 then 1 else n..];
      LineEndsAre(rest);
      assert Sub(CrLf, s)[1..] == Sub(CrLf, rest);
    }
  }

  /**
   The four substitutions, told position by position: line ends become newlines; then
   exactly the blanks in front of a line end go, then exactly the newlines in front of two
   more, and the text is stripped.  Nothing else changes.
   */
  lemma NormalizeIs(text: Text)
    ensures NormalizePlainText(text) ==
            Strip(Delete(BlankLines, Delete(TrailingBlanks, LineEnds(text))))
  {
    LineEndsAre(text);
    TrailingBlanksIs(LineEnds(text));
    BlankLinesIs(Delete(TrailingBlanks, LineEnds(text)));
  }

  lemma {:induction false} LineEndsIdentity(s: Text)
    requires NoReturn(s)
    ensures LineEnds(s) == s
  {
    if s != [] {
      LineEndsIdentity(s[1..]);
    }
  }

  // ---------------------------------------------------------------- paragraphs survive

  /** The passes behind the line ends. */
  predicate InLine(rule: Rule)
  {
    rule.TrailingBlanks? || rule.BlankLines?
  }

  /** The cut falls inside no white space. */
  predicate CutsNoSpace(a: Text, b: Text)
  {
    a == [] || b == [] || !Last(a).Space? || !b[0].Space?
  }

  lemma {:induction false} BlankRunConcat(a: Text, b: Text)
    requires a != [] && CutsNoSpace(a, b)
    ensures BlankRun(a + b) == BlankRun(a)
  {
    if IsBlank(a[0]) {
      assert (a + b)[1..] == a[1..] + b;
      if a[1..] != [] {
        BlankRunConcat(a[1..], b);
      } else {
        assert a[1..] + b == b;
      }
    }
  }

  lemma DeletedConcat(rule: Rule, a: Text, b: Text)
    requires InLine(rule) && a != [] && CutsNoSpace(a, b)
    ensures Deleted(rule, a + b) <==> Deleted(rule, a)
  {
    BlankRunConcat(a, b);
    hide BlankRun;
    if |a| < 3 && b != [] {
      assert (a + b)[|a|] == b[0];
    }
  }

  /** Deleting works on each stretch of white space alone. */
  lemma {:induction false} DeleteConcat(rule: Rule, a: Text, b: Text)
    requires InLine(rule) && CutsNoSpace(a, b)
    ensures Delete(rule, a + b) == Delete(rule, a) + Delete(rule, b)
    decreases |a|
  {
    hide Deleted;
    if a == [] {
      assert a + b == b;
    } else {
      DeletedConcat(rule, a, b);
      assert (a + b)[1..] == a[1..] + b;
      DeleteConcat(rule, a[1..], b);
      ConcatAssoc(if Deleted(rule, a) then [] else [a[0]], Delete(rule, a[1..]), Delete(rule, b));
    }
  }

  lemma {:induction false} DeleteNoSpace(rule: Rule, s: Text)
    requires InLine(rule) && forall i :: 0 <= i < |s| ==> !s[i].Space?
    ensures Delete(rule, s) == s
  {
    if s != [] {
      DeleteNoSpace(rule, s[1..]);
    }
  }

  /** Newline counts that are alike up to "none, one, more". */
  predicate Alike(m: nat, n: nat)
  {
    (m >= 1 <==> n >= 1) && (m >= 2 <==> n >= 2)
  }

  /** White space stays white space, and as good a separator as before. */
  lemma {:induction false} DeleteInSpace(rule: Rule, w: Text)
    requires InLine(rule) && AllSpace(w)
    ensures var v := Delete(rule, w);
      AllSpace(v) && (v == [] <==> w == []) && Alike(NewlinesIn(v), NewlinesIn(w))
  {
    if w != [] {
      DeleteInSpace(rule, w[1..]);
      var v := Delete(rule, w[1..]);
      if Deleted(rule, w) {
        DeletedIs(rule, w);
        assert [] + v == v;
      } else {
        assert ([w[0]] + v)[1..] == v;
      }
    }
  }

  lemma DeletedIs(rule: Rule, s: Text)
    requires InLine(rule) && Deleted(rule, s)
    ensures |s| >= 2 && s[0].Space? && s[1].Space?
    ensures s[0] == NEWLINE ==> NewlinesIn(s[1..]) >= 2
  {
    if rule.BlankLines? {
      TwoNewlines(s[1..], 0, 1);
    }
  }

  lemma {:induction false} AllSpaceRun(w: Text, rest: Text)
    requires AllSpace(w) && StartsNoSpace(rest)
    ensures SpaceRun(w + rest) == |w|
  {
    if w == [] {
      assert w + rest == rest;
    } else {
      assert (w + rest)[1..] == w[1..] + rest;
      AllSpaceRun(w[1..], rest);
    }
  }

  lemma {:induction false} WordRunStays(v: Text, rest: Text)
    requires AllWord(v) && (rest != [] ==> !rest[0].Word?)
    ensures WordRun(v + rest) == |v|
  {
    if v == [] {
      assert v + rest == rest;
    } else {
      assert (v + rest)[1..] == v[1..] + rest;
      WordRunStays(v[1..], rest);
    }
  }

  /** What stands first stays of its kind. */
  lemma {:induction false} DeleteStarts(rule: Rule, s: Text)
    requires InLine(rule)
    ensures s == [] <==> Delete(rule, s) == []
    ensures s != [] ==> (Delete(rule, s)[0].Space? <==> s[0].Space?) && (s[0].Space? || Delete(rule, s)[0] == s[0])
  {
    if s != [] {
      DeleteStarts(rule, s[1..]);
      if Deleted(rule, s) {
        DeletedIs(rule, s);
      }
    }
  }

  /** One step of `ParagraphTokens`, over white space and over a token. */
  lemma SpaceStep(w: Text, rest: Text)
    requires AllSpace(w) && w != [] && StartsNoSpace(rest)
    ensures ParagraphTokens(w + rest) ==
            if NewlinesIn(w) >= 2 then [[]] + ParagraphTokens(rest) else ParagraphTokens(rest)
  {
    AllSpaceRun(w, rest);
    assert (w + rest)[..|w|] == w && (w + rest)[|w|..] == rest;
  }

  lemma TokenStep(t: Token, rest: Text)
    requires IsToken(t) && CutsNoWord(t, rest)
    ensures ParagraphTokens(t + rest) == AddFirst([t], ParagraphTokens(rest))
  {
    if AllWord(t) {
      assert Last(t).Word?;
      WordRunStays(t, rest);
    }
    assert (t + rest)[..|t|] == t && (t + rest)[|t|..] == rest;
  }

  /** A pass over white space leaves the paragraphs. */
  lemma {:induction false} DeleteKeepsParagraphs(rule: Rule, s: Text)
    requires InLine(rule)
    ensures ParagraphTokens(Delete(rule, s)) == ParagraphTokens(s)
    decreases |s|
  {
    hide Deleted, ParagraphTokens, WordRun, SpaceRun, IsToken;
    if s != [] {
      var n := if s[0].Space? then SpaceRun(s) else if s[0].Word? then WordRun(s) else 1;
      var front, rest := s[..n], s[n..];
      RunsOn(s);
      assert s == front + rest;
      DeleteKeepsParagraphs(rule, rest);
      DeleteStarts(rule, rest);
      DeleteConcat(rule, front, rest);
      hide Delete;
      if s[0].Space? {
        DeleteInSpace(rule, front);
        SpaceStep(front, rest);
        SpaceStep(Delete(rule, front), Delete(rule, rest));
      } else {
        NoSpaceInToken(front);
        DeleteNoSpace(rule, front);
        TokenStep(front, rest);
        TokenStep(front, Delete(rule, rest));
      }
    }
  }

  lemma NoSpaceInToken(t: Token)
    requires IsToken(t)
    ensures forall i :: 0 <= i < |t| ==> !t[i].Space?
  {
  }

  lemma {:induction false} StripSpace(s: Text)
    requires AllSpace(s)
    ensures Strip(s) == []
  {
    if s != [] {
      StripSpace(s[1..]);
    }
  }

  lemma StripTo(before: Text, t: Text, after: Text)
    requires AllSpace(before) && AllSpace(after) && t != [] && Stripped(t)
    ensures Strip(before + t + after) == t
  {
    hide StripLeft, StripRight, AllSpace;
    assert (t + after)[0] == t[0];
    StripLeftTo(before, t + after);
    StripRightTo(t, after);
    ConcatAssoc(before, t, after);
  }

  lemma {:induction false} StripLeftTo(before: Text, t: Text)
    requires AllSpace(before) && t != [] && !t[0].Space?
    ensures StripLeft(before + t) == t
  {
    if before == [] {
      assert before + t == t;
    } else {
      assert (before + t)[1..] == before[1..] + t;
      StripLeftTo(before[1..], t);
    }
  }

  lemma {:induction false} StripRightTo(t: Text, after: Text)
    requires AllSpace(after) && t != [] && !Last(t).Space?
    ensures StripRight(t + after) == t
  {
    if after == [] {
      assert t + after == t;
    } else {
      assert Front(t + after) == t + Front(after);
      StripRightTo(t, Front(after));
    }
  }

  /** Stripping and a pass over white space can change places. */
  lemma StripDelete(rule: Rule, s: Text)
    requires InLine(rule)
    ensures Strip(Delete(rule, s)) == Delete(rule, Strip(s))
  {
    hide Deleted, Strip, Delete;
    var before, after := StripSlices(s);
    var t := Strip(s);
    StripEnds(s);
    DeleteInSpace(rule, before);
    DeleteInSpace(rule, after);
    DeleteInSpace(rule, []);
    if t == [] {
      assert AllSpace(s);
      DeleteInSpace(rule, s);
      StripSpace(Delete(rule, s));
    } else {
      DeleteConcat(rule, before + t, after);
      DeleteConcat(rule, before, t);
      StrippedAfter(rule, t);
      StripTo(Delete(rule, before), Delete(rule, t), Delete(rule, after));
    }
  }

  lemma StrippedAfter(rule: Rule, t: Text)
    requires InLine(rule) && t != [] && Stripped(t)
    ensures Delete(rule, t) != [] && Stripped(Delete(rule, t))
  {
    hide Deleted;
    DeleteStarts(rule, t);
    assert t == Front(t) + [Last(t)];
    DeleteConcat(rule, Front(t), [Last(t)]);
    DeleteNoSpace(rule, [Last(t)]);
  }

  /**
   Paragraphs survive: the normalized text has, in order, the paragraphs of the stripped
   text once every line end is one newline, each with the same tokens.
   */
  lemma NormalizeKeepsParagraphs(text: Text)
    ensures TokensOf(Split(ParagraphBreak, NormalizePlainText(text))) ==
            TokensOf(Split(ParagraphBreak, Strip(LineEnds(text))))
    ensures NoReturn(text) ==> TokensOf(Split(ParagraphBreak, NormalizePlainText(text))) ==
                               TokensOf(Split(ParagraphBreak, Strip(text)))
  {
    hide Delete, Deleted, Strip, Split, TokensOf, ParagraphTokens, LineEnds, Sub;
    var lines := LineEnds(text);
    var trimmed := Delete(TrailingBlanks, lines);
    NormalizeIs(text);
    StripDelete(BlankLines, trimmed);
    StripDelete(TrailingBlanks, lines);
    DeleteKeepsParagraphs(BlankLines, Strip(trimmed));
    DeleteKeepsParagraphs(TrailingBlanks, Strip(lines));
    ParagraphsAre(NormalizePlainText(text));
    ParagraphsAre(Strip(lines));
    if NoReturn(text) {
      LineEndsIdentity(text);
    }
  }
}
