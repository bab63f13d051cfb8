/**
 Whether `max_tokens` limits the segments of a text: texts whose units have any given token
 counts, and with them the exact condition on the parameters.
 */
module SegmentLimits {
  import opened Prelude
  import opened Tokens
  import opened Splitting
  import opened Windows
  import opened Chunker
  import Normalizer

  // ---------------------------------------------------------------- a text for any token counts

  const LETTER := Word(97)

  /** That many one-letter words. */
  function Words(n: nat): Text
  {
    if n <= 1 then [LETTER] else Words(n - 1) + [BLANK] + [LETTER]
  }

  function Paragraphs(c: Counts): seq<Text>
  {
    seq(|c|, i requires 0 <= i < |c| => Words(c[i]))
  }

  const BLANK_LINE := [NEWLINE, NEWLINE]

  /** Paragraphs of that many words each, with a blank line between them. */
  function TextOf(c: Counts): Text
  {
    if c == [] then [] else if |c| == 1 then Words(c[0]) else Words(c[0]) + BLANK_LINE + TextOf(c[1..])
  }

  predicate EndsInLetters(s: Text)
  {
    s != [] && s[0] == LETTER && Last(s) == LETTER
  }

  lemma {:induction false} WordsFacts(n: nat)
    requires n >= 1
    ensures EndsInLetters(Words(n)) && NoNewline(Words(n)) && Count(Words(n)) == n
  {
    TokenizeToken([LETTER]);
    if n > 1 {
      WordsFacts(n - 1);
      TokenizeAcrossSpace(Words(n - 1), [BLANK], [LETTER]);
    }
  }

  lemma {:induction false} TextOfEnds(c: Counts, max: nat)
    requires c != [] && Bounded(c, max)
    ensures EndsInLetters(TextOf(c))
  {
    WordsFacts(c[0]);
    if |c| > 1 {
      TextOfEnds(c[1..], max);
    }
  }

  lemma StripLetters(s: Text)
    requires EndsInLetters(s)
    ensures Strip(s) == s
  {
    Normalizer.StripIdentity(s);
  }

  /** The search steps over characters that are no newline. */
  lemma {:induction false} FindSkips(before: Option<Ch>, p: Text, rest: Text)
    requires NoNewline(p) && EndsInLetters(rest)
    ensures Find(ParagraphBreak, before, p + BLANK_LINE + rest) == Some((|p|, 2))
    decreases |p|
  {
    var s := p + BLANK_LINE + rest;
    if p == [] {
      assert s[1..] == [NEWLINE] + rest && s[1..][1..] == rest;
    } else {
      assert s[1..] == p[1..] + BLANK_LINE + rest;
      FindSkips(Some(s[0]), p[1..], rest);
    }
  }

  lemma {:induction false} FindNothing(before: Option<Ch>, p: Text)
    requires NoNewline(p)
    ensures Find(ParagraphBreak, before, p) == None
    decreases |p|
  {
    if p != [] {
      FindNothing(Some(p[0]), p[1..]);
    }
  }

  lemma {:induction false} SplitTextOf(c: Counts, max: nat)
    requires c != [] && Bounded(c, max)
    ensures Split(ParagraphBreak, TextOf(c)) == Paragraphs(c)
  {
    hide Find, Words, NoNewline, EndsInLetters, Tokenize;
    WordsFacts(c[0]);
    if |c| == 1 {
      FindNothing(None, Words(c[0]));
      assert Paragraphs(c) == [Words(c[0])];
    } else {
      var w, rest := Words(c[0]), TextOf(c[1..]);
      TextOfEnds(c[1..], max);
      FindSkips(None, w, rest);
      SplitTextOf(c[1..], max);
      assert (w + BLANK_LINE + rest)[..|w|] == w && (w + BLANK_LINE + rest)[|w| + 2..] == rest;
      assert Paragraphs(c) == [w] + Paragraphs(c[1..]);
    }
  }

  lemma OneParagraphOfWords(n: nat, max: nat)
    requires 1 <= n <= max
    ensures OneParagraph(Words(n), max) == [Words(n)]
  {
    hide Words, Tokenize;
    WordsFacts(n);
    StripLetters(Words(n));
  }

  lemma {:induction false} UnitsOfParagraphs(c: Counts, max: nat)
    requires max > 0 && Bounded(c, max)
    ensures UnitsOf(Paragraphs(c), max) == Paragraphs(c)
  {
    hide Words, OneParagraph;
    if c != [] {
      var ps := Paragraphs(c);
      UnitsOfParagraphs(Front(c), max);
      OneParagraphOfWords(Last(c), max);
      assert Front(ps) == Paragraphs(Front(c)) && ps == Front(ps) + [Words(Last(c))];
    }
  }

  /** The units of that text have exactly those token counts. */
  lemma UnitCountsOfText(c: Counts, max: nat)
    requires max > 0 && Bounded(c, max)
    ensures UnitCounts(Units(TextOf(c), max)) == c
  {
    hide Words, OneParagraph, Find;
    if c == [] {
      NothingHasNoUnits(max);
    } else {
      TextOfEnds(c, max);
      StripLetters(TextOf(c));
      SplitTextOf(c, max);
      UnitsOfParagraphs(c, max);
      forall i | 0 <= i < |c| ensures UnitCounts(Paragraphs(c))[i] == c[i] {
        WordsFacts(c[i]);
      }
    }
  }

  lemma NothingHasNoUnits(max: nat)
    requires max > 0
    ensures Units([], max) == []
  {
    assert Split(ParagraphBreak, []) == [[]];
    assert Front<Text>([[]]) == [];
    assert UnitsOf([[]], max) == UnitsOf([], max) + OneParagraph([], max);
  }

  // ---------------------------------------------------------------- texts and their segments

  /** Every text has segments, and they are determined by it. */
  lemma SegmentsOf(cfg: Config, text: Text) returns (segments: seq<Segment>)
    requires cfg.Valid()
    ensures Segmented(cfg, text, segments)
  {
    hide Units, WindowsFrom, Chained;
    var units := Units(text, cfg.max);
    var ws := AllWindows(cfg, UnitCounts(units));
    UnitsBounded(text, cfg.max);
    Coverage(cfg, UnitCounts(units));
    assert forall k :: 0 <= k < |ws| ==> WindowOk(UnitCounts(units), ws[k]);
    segments := seq(|ws|, k requires 0 <= k < |ws| => SegmentOf(units, ws[k], k));
  }

  /** No unit of the text has more than `unit` tokens. */
  ghost predicate UnitsUpTo(cfg: Config, text: Text, unit: nat)
  {
    cfg.Valid() && Bounded(UnitCounts(Units(text, cfg.max)), unit)
  }

  predicate AllWithin(segments: seq<Segment>, max: nat)
  {
    forall k :: 0 <= k < |segments| ==> Count(segments[k].text) <= max
  }

  /** The tokens of a segment are as many as its window holds. */
  lemma SegmentCount(cfg: Config, text: Text, segments: seq<Segment>, k: nat)
    requires Segmented(cfg, text, segments) && k < |segments|
    ensures var c := UnitCounts(Units(text, cfg.max));
      var ws := AllWindows(cfg, c);
      k < |ws| && ws[k].lo <= ws[k].hi <= |c| && Count(segments[k].text) == Size(c, ws[k])
  {
    hide Units, WindowsFrom, Join;
    SpanTruth(cfg, text, segments, k);
  }

  lemma WithinText(cfg: Config, unit: nat, text: Text, segments: seq<Segment>)
    requires cfg.Valid() && 1 <= unit <= cfg.max && NeverOverflows(cfg, unit)
    requires Segmented(cfg, text, segments) && UnitsUpTo(cfg, text, unit)
    ensures AllWithin(segments, cfg.max)
  {
    hide Units, WindowsFrom, NeverOverflows, Segmented, Tokenize, AllWindows;
    NeverOverflowsIff(cfg, unit);
    var c := UnitCounts(Units(text, cfg.max));
    assert WithinMax(cfg, c, AllWindows(cfg, c));
    forall k | 0 <= k < |segments| ensures Count(segments[k].text) <= cfg.max {
      SegmentCount(cfg, text, segments, k);
    }
  }

  /** Counts that overflow give a text that does. */
  lemma OverflowingText(cfg: Config, unit: nat, c: Counts) returns (text: Text, segments: seq<Segment>)
    requires cfg.Valid() && 1 <= unit <= cfg.max && Bounded(c, unit) && !WithinMax(cfg, c, AllWindows(cfg, c))
    ensures Segmented(cfg, text, segments) && UnitsUpTo(cfg, text, unit) && !AllWithin(segments, cfg.max)
  {
    hide Units, WindowsFrom, Tokenize;
    text := TextOf(c);
    assert Bounded(c, cfg.max);
    UnitCountsOfText(c, cfg.max);
    segments := SegmentsOf(cfg, text);
    var ws := AllWindows(cfg, c);
    Coverage(cfg, c);
    var k :| 0 <= k < |ws| && !(ws[k].lo <= ws[k].hi <= |c| && Size(c, ws[k]) <= cfg.max);
    assert WindowOk(c, ws[k]);
    SegmentCount(cfg, text, segments, k);
  }

  /**
   Exactly when `max_tokens` is a limit.  All segments of all texts whose units have at most
   `unit` tokens stay within it if and only if the parameters satisfy `NeverOverflows`.
   */
  lemma MaxIsLimitIff(cfg: Config, unit: nat)
    requires cfg.Valid() && 1 <= unit <= cfg.max
    ensures NeverOverflows(cfg, unit) <==>
              forall text, segments :: Segmented(cfg, text, segments) && UnitsUpTo(cfg, text, unit) ==>
                AllWithin(segments, cfg.max)
  {
    hide NeverOverflows, Segmented, UnitsUpTo, AllWithin, WithinMax, AllWindows, Bounded;
    if NeverOverflows(cfg, unit) {
      forall text, segments | Segmented(cfg, text, segments) && UnitsUpTo(cfg, text, unit)
        ensures AllWithin(segments, cfg.max)
      {
        WithinText(cfg, unit, text, segments);
      }
    } else {
      NeverOverflowsIff(cfg, unit);
      var c: Counts :| Bounded(c, unit) && !WithinMax(cfg, c, AllWindows(cfg, c));
      var text, segments := OverflowingText(cfg, unit, c);
    }
  }

  /** Under the default parameters that is: no unit above 200 tokens. */
  lemma DefaultLimitIs200(unit: nat)
    requires 1 <= unit <= DEFAULTS.max
    ensures unit <= 200 <==>
              forall text, segments :: Segmented(DEFAULTS, text, segments) && UnitsUpTo(DEFAULTS, text, unit) ==>
                AllWithin(segments, DEFAULTS.max)
  {
    hide Segmented, UnitsUpTo, AllWithin;
    assert Target(DEFAULTS, 500) == 100;
    MaxIsLimitIff(DEFAULTS, unit);
  }

  /** Two paragraphs of 500 words: the second segment has 1000 tokens under the default parameters. */
  lemma TwoLongParagraphsOverflow(segments: seq<Segment>)
    requires Segmented(DEFAULTS, TextOf([500, 500]), segments)
    ensures |segments| == 2 && Count(segments[0].text) == 500 && Count(segments[1].text) == 1000
  {
    hide Units, WindowsFrom, TextOf, Tokenize;
    TwoLongParagraphs();
    UnitCountsOfText([500, 500], DEFAULTS.max);
    assert |segments| == 2;
    SegmentCount(DEFAULTS, TextOf([500, 500]), segments, 0);
    SegmentCount(DEFAULTS, TextOf([500, 500]), segments, 1);
    FirstIs500();
  }

  lemma FirstIs500()
    ensures Size([500, 500], Window(0, 1)) == 500
  {
    assert Before([500, 500], 1) == 500;
  }
}
