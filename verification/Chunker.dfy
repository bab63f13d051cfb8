/**
 The chunker itself: units from the text, windows over the units, and segments whose spans
 are token offsets into the text.
 */
module Chunker {
  import opened Prelude
  import opened Tokens
  import opened Splitting
  import opened Windows

  datatype Segment = Segment(text: Text, start: int, end: int, order: nat)

  function UnitCounts(units: seq<Text>): Counts
  {
    seq(|units|, i requires 0 <= i < |units| => Count(units[i]))
  }

  function UnitsIn(units: seq<Text>, w: Window): seq<Text>
    requires w.lo <= w.hi <= |units|
  {
    units[w.lo..w.hi]
  }

  /** The segment of one window: its units joined by blanks, its span by prefix sums. */
  function SegmentOf(units: seq<Text>, w: Window, order: nat): Segment
    requires w.lo <= w.hi <= |units|
  {
    Segment(Join(UnitsIn(units, w)), Before(UnitCounts(units), w.lo), Before(UnitCounts(units), w.hi), order)
  }

  ghost predicate AreSegmentsOf(segments: seq<Segment>, units: seq<Text>, ws: seq<Window>)
  {
    && |segments| == |ws|
    && forall k :: 0 <= k < |ws| ==>
         ws[k].lo <= ws[k].hi <= |units| && segments[k] == SegmentOf(units, ws[k], k)
  }

  lemma UnitsOfSnoc(paragraphs: seq<Text>, i: nat, max: nat)
    requires max > 0 && i < |paragraphs|
    ensures UnitsOf(paragraphs[..i + 1], max) == UnitsOf(paragraphs[..i], max) + OneParagraph(paragraphs[i], max)
  {
    assert Front(paragraphs[..i + 1]) == paragraphs[..i];
  }

  lemma SentenceUnitsSnoc(sentences: seq<Text>, i: nat, max: nat)
    requires max > 0 && i < |sentences|
    ensures SentenceUnits(sentences[..i + 1], max) == SentenceUnits(sentences[..i], max) + OneSentence(sentences[i], max)
  {
    assert Front(sentences[..i + 1]) == sentences[..i];
  }

  lemma HardPiecesStep(tokens: seq<Token>, start: nat, stop: nat, max: nat)
    requires max > 0 && start < |tokens|
    requires stop == if start + max <= |tokens| then start + max else |tokens|
    ensures HardPieces(tokens[start..], max) ==
            [Join(Parts(tokens[start..stop]))] + HardPieces(tokens[stop..], max)
  {
    var rest := tokens[start..];
    assert rest[..stop - start] == tokens[start..stop];
    assert rest[stop - start..] == tokens[stop..];
  }

  lemma NoPieces(max: nat)
    requires max > 0
    ensures HardPieces([], max) == []
  {
  }

  /** `done` are the windows before unit `index`, and the next one starts at `lo`. */
  ghost predicate Progress(cfg: Config, c: Counts, done: seq<Window>, lo: nat, index: nat)
  {
    lo <= index <= |c| && AllWindows(cfg, c) == done + WindowsFrom(cfg, c, lo, index)
  }

  lemma ProgressStep(cfg: Config, c: Counts, done: seq<Window>, lo: nat, index: nat)
    requires Progress(cfg, c, done, lo, index) && index < |c|
    ensures Before(c, lo) <= Before(c, index)
    ensures var hi := GrowEnd(cfg, c, index, Before(c, index) - Before(c, lo), true);
      var w := Window(lo, hi);
      && index < hi <= |c| && Size(c, w) >= 0 && w.lo <= NextLo(cfg, c, w) <= hi
      && Progress(cfg, c, done + [w], NextLo(cfg, c, w), hi)
  {
    BeforeMonotone(c, lo, index);
    var hi := GrowEnd(cfg, c, index, Before(c, index) - Before(c, lo), true);
    GrowEndRange(cfg, c, index, Before(c, index) - Before(c, lo), true);
    var w := Window(lo, hi);
    NextLoRange(cfg, c, w);
    var rest := WindowsFrom(cfg, c, NextLo(cfg, c, w), hi);
    assert done + ([w] + rest) == (done + [w]) + rest;
  }

  lemma AddSegment(segments: seq<Segment>, units: seq<Text>, ws: seq<Window>, segment: Segment, w: Window)
    requires AreSegmentsOf(segments, units, ws) && w.lo <= w.hi <= |units|
    requires segment == SegmentOf(units, w, |segments|)
    ensures AreSegmentsOf(segments + [segment], units, ws + [w])
  {
  }

  /** Walking back from the end of a window: `tokens` are gathered from its unit `i` on, and where it will end. */
  ghost predicate TrailOk(cfg: Config, c: Counts, w: Window, i: nat, target: int, tokens: nat)
  {
    && w.lo + i <= w.hi <= |c| && Size(c, w) >= 0
    && tokens == Before(c, w.hi) - Before(c, w.lo + i)
    && OverlapStart(c, w.lo, w.lo + i, target, tokens) == NextLo(cfg, c, w)
  }

  lemma TrailStart(cfg: Config, c: Counts, w: Window)
    requires w.lo <= w.hi <= |c| && Size(c, w) >= 0
    ensures TrailOk(cfg, c, w, w.hi - w.lo, Target(cfg, Size(c, w)), 0)
    ensures Target(cfg, Size(c, w)) <= 0 ==> NextLo(cfg, c, w) == w.hi
  {
  }

  lemma TrailStep(cfg: Config, units: seq<Text>, w: Window, i: nat, target: int, tokens: nat)
    requires w.lo + i < w.hi <= |units| && tokens < target
    requires TrailOk(cfg, UnitCounts(units), w, i + 1, target, tokens)
    ensures TrailOk(cfg, UnitCounts(units), w, i, target, tokens + Count(units[w.lo..w.hi][i]))
  {
    hide Tokenize, NextLo, Size;
    var c := UnitCounts(units);
    assert c[w.lo + i] == Count(units[w.lo..w.hi][i]);
    assert Before(c, w.lo + i + 1) == Before(c, w.lo + i) + c[w.lo + i];
  }

  lemma TrailDone(cfg: Config, c: Counts, w: Window, i: nat, target: int, tokens: nat)
    requires TrailOk(cfg, c, w, i, target, tokens) && (i == 0 || tokens >= target)
    ensures NextLo(cfg, c, w) == w.lo + i && tokens == Before(c, w.hi) - Before(c, w.lo + i)
  {
    hide NextLo, Size;
  }

  class HybridChunker {
    const cfg: Config

    ghost predicate Valid()
    {
      cfg.Valid()
    }

    constructor (minTokens: nat, maxTokens: nat, overlapRatio: real)
      requires Config(minTokens, maxTokens, overlapRatio).Valid()
      ensures Valid() && cfg == Config(minTokens, maxTokens, overlapRatio)
    {
      cfg := Config(minTokens, maxTokens, overlapRatio);
    }

    method Chunk(text: Text) returns (segments: seq<Segment>)
      requires Valid()
      ensures var units := Units(text, cfg.max);
        AreSegmentsOf(segments, units, AllWindows(cfg, UnitCounts(units)))
    {
      var units := BuildUnits(text);
      if units == [] {
        return [];
      }
      segments := AssembleSegments(units);
    }

    method BuildUnits(text: Text) returns (units: seq<Text>)
      requires Valid()
      ensures units == Units(text, cfg.max)
    {
      units := [];
      var paragraphs := Split(ParagraphBreak, Strip(text));
      for i := 0 to |paragraphs|
        invariant units == UnitsOf(paragraphs[..i], cfg.max)
      {
        UnitsOfSnoc(paragraphs, i, cfg.max);
        var paragraph := Strip(paragraphs[i]);
        if paragraph != [] {
          var more := SplitParagraph(paragraph);
          units := units + more;
        }
      }
      assert paragraphs[..|paragraphs|] == paragraphs;
    }

    method SplitParagraph(paragraph: Text) returns (units: seq<Text>)
      requires Valid()
      ensures units == ParagraphUnits(paragraph, cfg.max)
      ensures forall u :: u in units <==> CutFromParagraph(u, paragraph, cfg.max)
    {
      hide Tokenize, Split, Strip, HardPieces, CutFromParagraph;
      forall u {
        ParagraphUnitsAre(paragraph, cfg.max, u);
      }
      if Count(paragraph) <= cfg.max {
        return [paragraph];
      }
      units := [];
      var sentences := Split(SentenceGap, paragraph);
      assert SentenceUnits(sentences[..0], cfg.max) == [];
      hide SentenceUnits;
      for i := 0 to |sentences|
        invariant units == SentenceUnits(sentences[..i], cfg.max)
      {
        SentenceUnitsSnoc(sentences, i, cfg.max);
        var sentence := Strip(sentences[i]);
        if sentence != [] {
          if Count(sentence) <= cfg.max {
            units := units + [sentence];
          } else {
            var pieces := HardSplit(sentence);
            units := units + pieces;
          }
        }
      }
      assert sentences[..|sentences|] == sentences;
    }

    method HardSplit(text: Text) returns (pieces: seq<Text>)
      requires Valid()
      ensures pieces == HardPieces(Tokenize(text), cfg.max)
    {
      hide Tokenize, Parts, Join, HardPieces;
      var tokens := Tokenize(text);
      pieces := [];
      var start := 0;
      assert tokens[0..] == tokens;
      while start < |tokens|
        invariant 0 <= start <= |tokens|
        invariant HardPieces(tokens, cfg.max) == pieces + HardPieces(tokens[start..], cfg.max)
        decreases |tokens| - start
      {
        var stop := if start + cfg.max <= |tokens| then start + cfg.max else |tokens|;
        var piece := Detokenize(tokens[start..stop]);
        HardPiecesStep(tokens, start, stop, cfg.max);
        assert pieces + ([piece] + HardPieces(tokens[stop..], cfg.max)) ==
               (pieces + [piece]) + HardPieces(tokens[stop..], cfg.max);
        pieces := pieces + [piece];
        start := stop;
      }
      assert tokens[start..] == [];
      NoPieces(cfg.max);
    }

    /** The greedy assembly: an outer loop per segment, an inner loop per unit taken. */
    method AssembleSegments(units: seq<Text>) returns (segments: seq<Segment>)
      requires Valid()
      ensures AreSegmentsOf(segments, units, AllWindows(cfg, UnitCounts(units)))
    {
      ghost var c := UnitCounts(units);
      ghost var done: seq<Window> := [];
      segments := [];
      var globalCursor := 0;
      var overlapUnits: seq<Text> := [];
      var overlapTokens: nat := 0;
      var index: nat := 0;
      ghost var lo: nat := 0;
      assert Before(c, 0) == 0;
      while index < |units|
        invariant lo <= index <= |units|
        invariant overlapUnits == units[lo..index]
        invariant overlapTokens == Before(c, index) - Before(c, lo)
        invariant globalCursor == Before(c, index)
        invariant AreSegmentsOf(segments, units, done)
        invariant Progress(cfg, c, done, lo, index)
        decreases |units| - index
      {
        segments, overlapUnits, overlapTokens, index, globalCursor, done, lo :=
          NextSegment(units, segments, overlapUnits, overlapTokens, index, globalCursor, done, lo);
      }
      assert done + [] == done;
    }

    /** The body of the outer loop: one segment and the overlap it leaves to the next. */
    method NextSegment(units: seq<Text>, segments: seq<Segment>, overlapUnits: seq<Text>, overlapTokens: nat,
                       start: nat, globalCursor: nat, ghost done: seq<Window>, ghost lo: nat)
      returns (more: seq<Segment>, nextOverlap: seq<Text>, nextOverlapTokens: nat, index: nat, cursor: nat,
               ghost doneNow: seq<Window>, ghost next: nat)
      requires Valid() && lo <= start < |units| && Progress(cfg, UnitCounts(units), done, lo, start)
      requires AreSegmentsOf(segments, units, done)
      requires overlapUnits == units[lo..start]
      requires overlapTokens == Before(UnitCounts(units), start) - Before(UnitCounts(units), lo)
      requires globalCursor == Before(UnitCounts(units), start)
      ensures start < index <= |units| && Progress(cfg, UnitCounts(units), doneNow, next, index)
      ensures AreSegmentsOf(more, units, doneNow) && more != []
      ensures cursor == Before(UnitCounts(units), index)
      ensures next <= index && nextOverlap == UnitsIn(units, Window(next, index))
      ensures nextOverlapTokens == Before(UnitCounts(units), index) - Before(UnitCounts(units), next)
    {
      hide Progress, AreSegmentsOf, Before, GrowEnd, NextLo, Join;
      var startIndex := globalCursor - overlapTokens;
      var currentUnits, currentTokens;
      currentUnits, currentTokens, index, cursor :=
        TakeUnits(units, overlapUnits, overlapTokens, start, globalCursor, lo);
      var endIndex := startIndex + currentTokens;
      var segment := Segment(Join(currentUnits), startIndex, endIndex, |segments|);
      more := segments + [segment];
      ghost var w := Window(lo, index);
      nextOverlap, nextOverlapTokens := TrailingOverlap(currentUnits, currentTokens, units, w);
      doneNow, next := done + [w], NextLo(cfg, UnitCounts(units), w);
      ProgressStep(cfg, UnitCounts(units), done, lo, start);
      AddSegment(segments, units, done, segment, w);
    }

    /** The inner loop: takes at least one unit, then more until the segment is full. */
    method TakeUnits(units: seq<Text>, overlapUnits: seq<Text>, overlapTokens: nat, start: nat, globalCursor: nat,
                     ghost lo: nat)
      returns (currentUnits: seq<Text>, currentTokens: nat, index: nat, cursor: nat)
      requires Valid() && lo <= start < |units| && overlapUnits == units[lo..start]
      requires overlapTokens == Before(UnitCounts(units), start) - Before(UnitCounts(units), lo)
      requires globalCursor == Before(UnitCounts(units), start)
      ensures start < index <= |units| && cursor == Before(UnitCounts(units), index)
      ensures index == GrowEnd(cfg, UnitCounts(units), start, overlapTokens, true)
      ensures currentUnits == UnitsIn(units, Window(lo, index))
      ensures currentTokens == Before(UnitCounts(units), index) - Before(UnitCounts(units), lo)
    {
      hide Tokenize;
      ghost var c := UnitCounts(units);
      ghost var hi := GrowEnd(cfg, c, start, overlapTokens, true);
      GrowEndRange(cfg, c, start, overlapTokens, true);
      currentUnits, currentTokens, index, cursor := overlapUnits, overlapTokens, start, globalCursor;
      var firstAddition := true;
      while index < |units|
        invariant start <= index <= |units| && firstAddition == (index == start)
        invariant currentUnits == units[lo..index]
        invariant currentTokens == Before(c, index) - Before(c, lo) && cursor == Before(c, index)
        invariant GrowEnd(cfg, c, index, currentTokens, firstAddition) == hi
        decreases |units| - index
      {
        var unit := units[index];
        var unitTokens := Count(unit);
        assert unitTokens == c[index];
        var wouldOverflow := currentTokens + unitTokens > cfg.max;
        var alreadyEnough := currentTokens >= cfg.min;
        if !firstAddition && wouldOverflow && alreadyEnough {
          break;
        }
        currentUnits := currentUnits + [unit];
        currentTokens := currentTokens + unitTokens;
        cursor := cursor + unitTokens;
        index := index + 1;
        firstAddition := false;
        if currentTokens >= cfg.max {
          return;
        }
      }
    }

    method TrailingOverlap(chunkUnits: seq<Text>, chunkTokens: nat, ghost units: seq<Text>, ghost w: Window)
      returns (trailing: seq<Text>, trailingTokens: nat)
      requires Valid() && w.lo <= w.hi <= |units| && chunkUnits == units[w.lo..w.hi]
      requires chunkTokens == Size(UnitCounts(units), w)
      ensures Size(UnitCounts(units), w) >= 0 && w.lo <= NextLo(cfg, UnitCounts(units), w) <= w.hi
      ensures trailing == units[NextLo(cfg, UnitCounts(units), w)..w.hi]
      ensures trailingTokens ==
              Before(UnitCounts(units), w.hi) - Before(UnitCounts(units), NextLo(cfg, UnitCounts(units), w))
    {
      hide Tokenize, Before, OverlapStart, NextLo, Target, TrailOk;
      ghost var c := UnitCounts(units);
      NextLoRange(cfg, c, w);
      TrailStart(cfg, c, w);
      var target := Target(cfg, chunkTokens);
      if target <= 0 {
        return [], 0;
      }
      trailing := [];
      trailingTokens := 0;
      var i := |chunkUnits|;
      while i > 0
        invariant 0 <= i <= |chunkUnits|
        invariant trailing == chunkUnits[i..]
        invariant TrailOk(cfg, c, w, i, target, trailingTokens)
        decreases i
      {
        if trailingTokens >= target {
          break;
        }
        i := i - 1;
        trailing := [chunkUnits[i]] + trailing;
        TrailStep(cfg, units, w, i, target, trailingTokens);
        trailingTokens := trailingTokens + Count(chunkUnits[i]);
      }
      TrailDone(cfg, c, w, i, target, trailingTokens);
      assert chunkUnits[i..] == units[w.lo + i..w.hi];
    }
  }

  // ---------------------------------------------------------------- results

  /** What a caller of `Chunk` gets, stated without windows. */
  ghost predicate Segmented(cfg: Config, text: Text, segments: seq<Segment>)
  {
    cfg.Valid() &&
    var units := Units(text, cfg.max);
    AreSegmentsOf(segments, units, AllWindows(cfg, UnitCounts(units)))
  }

  lemma {:induction false} CountsOfTokens(units: seq<Text>, i: nat)
    requires i <= |units|
    ensures Before(UnitCounts(units), i) == |Concat(TokensOf(units[..i]))|
  {
    if i > 0 {
      CountsOfTokens(units, i - 1);
      assert Front(units[..i]) == units[..i - 1];
      ConcatSnoc(TokensOf(units[..i - 1]), Tokenize(units[i - 1]));
    }
  }

  /** The tokens of consecutive units are the slice of the whole between their prefix sums. */
  lemma UnitsSlice(units: seq<Text>, lo: nat, hi: nat)
    requires lo <= hi <= |units|
    ensures var c := UnitCounts(units);
      && 0 <= Before(c, lo) <= Before(c, hi) <= |Concat(TokensOf(units))|
      && Concat(TokensOf(units[lo..hi])) == Concat(TokensOf(units))[Before(c, lo)..Before(c, hi)]
  {
    hide Concat, TokensOf, Before;
    var a, b, rest := units[..lo], units[lo..hi], units[hi..];
    CountsOfTokens(units, lo);
    CountsOfTokens(units, hi);
    assert units[..hi] == a + b && units == (a + b) + rest;
    TokensOfConcat(a, b);
    ConcatAppend(TokensOf(a), TokensOf(b));
    TokensOfConcat(a + b, rest);
    ConcatAppend(TokensOf(a + b), TokensOf(rest));
  }

  lemma CarriedCounts(units: seq<Text>, tokens: seq<Token>, max: nat)
    requires Carries(units, tokens, max)
    ensures Bounded(UnitCounts(units), max)
    ensures Before(UnitCounts(units), |units|) == |tokens|
  {
    CountsOfTokens(units, |units|);
    assert units[..|units|] == units;
  }

  lemma UnitsBounded(text: Text, max: nat)
    requires max > 0
    ensures Bounded(UnitCounts(Units(text, max)), max)
    ensures Before(UnitCounts(Units(text, max)), |Units(text, max)|) == Count(text)
  {
    UnitsCarryTokens(text, max);
    CarriedCounts(Units(text, max), Tokenize(text), max);
  }

  /** The segment is these units with blanks between them, and starts at the first of them. */
  predicate JoinsUnits(segment: Segment, units: seq<Text>, lo: nat, hi: nat)
  {
    && lo < hi <= |units|
    && segment.text == Join(units[lo..hi])
    && segment.start == |Concat(TokensOf(units[..lo]))|
  }

  /** The text of a segment is a run of consecutive units, joined by blanks. */
  lemma SegmentJoinsUnits(cfg: Config, text: Text, segments: seq<Segment>, k: nat)
    requires Segmented(cfg, text, segments) && k < |segments|
    ensures exists lo: nat, hi: nat :: JoinsUnits(segments[k], Units(text, cfg.max), lo, hi)
  {
    hide Units, WindowsFrom, Join, TokensOf, Concat;
    var units := Units(text, cfg.max);
    var ws := AllWindows(cfg, UnitCounts(units));
    UnitsBounded(text, cfg.max);
    Coverage(cfg, UnitCounts(units));
    assert WindowOk(UnitCounts(units), ws[k]);
    CountsOfTokens(units, ws[k].lo);
    assert JoinsUnits(segments[k], units, ws[k].lo, ws[k].hi);
  }

  /**
   Span truth.  For every text and every segment, the tokens of the segment are the tokens
   of the text between the ends of its span.
   */
  lemma SpanTruth(cfg: Config, text: Text, segments: seq<Segment>, k: nat)
    requires Segmented(cfg, text, segments) && k < |segments|
    ensures 0 <= segments[k].start < segments[k].end <= Count(text)
    ensures Tokenize(segments[k].text) == Tokenize(text)[segments[k].start..segments[k].end]
    ensures segments[k].order == k
  {
    var units := Units(text, cfg.max);
    var ws := AllWindows(cfg, UnitCounts(units));
    UnitsCarryTokens(text, cfg.max);
    UnitsBounded(text, cfg.max);
    Coverage(cfg, UnitCounts(units));
    assert WindowOk(UnitCounts(units), ws[k]);
    UnitsSlice(units, ws[k].lo, ws[k].hi);
    JoinTokens(units[ws[k].lo..ws[k].hi]);
  }

  /** How the span of a segment and the span of its successor are placed. */
  predicate SpansChained(cfg: Config, a: Segment, b: Segment)
  {
    && a.start < a.end < b.end && a.start <= b.start
    && b.start <= a.end - Target(cfg, a.end - a.start)
    && (cfg.ratio == 0.0 ==> b.start == a.end)
    && a.end - a.start >= cfg.min
  }

  lemma ChainedSpans(cfg: Config, units: seq<Text>, v: Window, w: Window, order: nat)
    requires var c := UnitCounts(units);
      Bounded(c, cfg.max) && WindowOk(c, v) && WindowOk(c, w) && Chained(cfg, c, v, w) && Size(c, v) >= cfg.min
    ensures SpansChained(cfg, SegmentOf(units, v, order), SegmentOf(units, w, order + 1))
  {
    hide Target, Join;
    BeforeMonotone(UnitCounts(units), v.lo, w.lo);
    BeforeStrict(UnitCounts(units), v.hi, w.hi);
  }

  /**
   Coverage and overlap, in tokens: spans start at 0 and end at the end of the text, ends
   strictly increase, starts never decrease, and each span begins at least the rounded
   share of the previous one before that one's end -- exactly there when the ratio is 0.
   Every segment but the last has at least `min` tokens, and a text without tokens has no
   segments.
   */
  lemma SpansCover(cfg: Config, text: Text, segments: seq<Segment>)
    requires Segmented(cfg, text, segments)
    ensures segments == [] <==> Count(text) == 0
    ensures segments != [] ==> segments[0].start == 0 && Last(segments).end == Count(text)
    ensures forall k :: 0 <= k < |segments| - 1 ==> SpansChained(cfg, segments[k], segments[k + 1])
  {
    hide Units, WindowsFrom, SpansChained, Chained, Target, Tokenize, Join;
    var units := Units(text, cfg.max);
    var c := UnitCounts(units);
    var ws := AllWindows(cfg, c);
    UnitsBounded(text, cfg.max);
    Coverage(cfg, c);
    hide AllWindows;
    if units != [] {
      BeforeStrict(c, 0, |c|);
    }
    hide Before;
    forall k | 0 <= k < |segments| - 1
      ensures SpansChained(cfg, segments[k], segments[k + 1])
    {
      ChainedSpans(cfg, units, ws[k], ws[k + 1], k);
    }
  }

  lemma WindowSizes(cfg: Config, units: seq<Text>, segments: seq<Segment>, k: nat)
    requires cfg.Valid() && Bounded(UnitCounts(units), cfg.max) && k < |segments|
    requires AreSegmentsOf(segments, units, AllWindows(cfg, UnitCounts(units)))
    ensures SizeBounded(cfg, segments[k].end - segments[k].start)
  {
    hide SizeBounded, WindowsFrom, Before;
    SegmentSizeBound(cfg, UnitCounts(units));
  }

  lemma SizeBoundMeans(cfg: Config, n: int)
    requires SizeBounded(cfg, n)
    ensures n as real * (1.0 - cfg.ratio) < 2.0 * cfg.max as real
    ensures cfg.ratio == 0.0 ==> n <= cfg.max + cfg.min - 1
  {
  }

  /** Every segment has fewer than 2*max/(1-r) tokens, and at most max+min-1 when r is 0. */
  lemma SegmentSizes(cfg: Config, text: Text, segments: seq<Segment>, k: nat)
    requires Segmented(cfg, text, segments) && k < |segments|
    ensures (segments[k].end - segments[k].start) as real * (1.0 - cfg.ratio) < 2.0 * cfg.max as real
    ensures cfg.ratio == 0.0 ==> segments[k].end - segments[k].start <= cfg.max + cfg.min - 1
  {
    hide SizeBounded, AreSegmentsOf, AllWindows, Units;
    UnitsBounded(text, cfg.max);
    WindowSizes(cfg, Units(text, cfg.max), segments, k);
    SizeBoundMeans(cfg, segments[k].end - segments[k].start);
  }

  /** If no unit of the text exceeds a bound that `NeverOverflows` allows, no segment exceeds `max`. */
  lemma SegmentsWithinMax(cfg: Config, text: Text, segments: seq<Segment>, unit: nat, k: nat)
    requires Segmented(cfg, text, segments) && k < |segments|
    requires 1 <= unit <= cfg.max && NeverOverflows(cfg, unit)
    requires forall i :: 0 <= i < |Units(text, cfg.max)| ==> Count(Units(text, cfg.max)[i]) <= unit
    ensures |Tokenize(segments[k].text)| <= cfg.max
  {
    var c := UnitCounts(Units(text, cfg.max));
    UnitsBounded(text, cfg.max);
    assert Bounded(c, unit);
    NeverOverflowsIff(cfg, unit);
    assert WithinMax(cfg, c, AllWindows(cfg, c));
    SpanTruth(cfg, text, segments, k);
  }
}
