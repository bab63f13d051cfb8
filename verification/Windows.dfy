/**
 How the chunker packs units into segments, in terms of token counts alone.  A segment is a
 window of consecutive units; it starts with the trailing overlap of the segment before it
 and takes new units greedily.
 */
module Windows {
  import opened Prelude

  datatype Config = Config(min: nat, max: nat, ratio: real)
  {
    /** What the constructor accepts. */
    predicate Valid()
    {
      0 < min < max && 0.0 <= ratio < 1.0
    }
  }

  datatype Window = Window(lo: nat, hi: nat)

  type Counts = seq<nat>

  /** Every unit has at least one token and at most `bound`. */
  predicate Bounded(c: Counts, bound: nat)
  {
    forall i :: 0 <= i < |c| ==> 1 <= c[i] <= bound
  }

  /** Tokens before unit `i`. */
  function Before(c: Counts, i: nat): nat
    requires i <= |c|
  {
    if i == 0 then 0 else Before(c, i - 1) + c[i - 1]
  }

  function Size(c: Counts, w: Window): int
    requires w.lo <= |c| && w.hi <= |c|
  {
    Before(c, w.hi) - Before(c, w.lo)
  }

  /** Python's `round`: to the nearest integer, halves to the even one. */
  function Round(x: real): int
  {
    var f := x.Floor;
    var d := x - f as real;
    if d < 0.5 then f else if d > 0.5 then f + 1 else if f % 2 == 0 then f else f + 1
  }

  /** The share of a segment that its successor is meant to repeat, before rounding. */
  function Share(cfg: Config, tokens: nat): real
  {
    tokens as real * cfg.ratio
  }

  function Target(cfg: Config, tokens: nat): int
  {
    Round(Share(cfg, tokens))
  }

  /** Where the inner loop stops taking units, having `tokens` already. */
  function GrowEnd(cfg: Config, c: Counts, index: nat, tokens: nat, first: bool): nat
    requires index <= |c|
    decreases |c| - index
  {
    if index == |c| then index
    else if !first && tokens + c[index] > cfg.max && tokens >= cfg.min then index
    else if tokens + c[index] >= cfg.max then index + 1
    else GrowEnd(cfg, c, index + 1, tokens + c[index], false)
  }

  /** Where the trailing overlap of units `lo..` starts, walking back from `s` with `acc` gathered. */
  function OverlapStart(c: Counts, lo: nat, s: nat, target: int, acc: nat): nat
    requires lo <= s <= |c|
    decreases s
  {
    if s == lo || acc >= target then s else OverlapStart(c, lo, s - 1, target, acc + c[s - 1])
  }

  lemma {:induction false} BeforeMonotone(c: Counts, i: nat, j: nat)
    requires i <= j <= |c|
    ensures Before(c, i) <= Before(c, j)
    decreases j
  {
    if i < j {
      BeforeMonotone(c, i, j - 1);
    }
  }

  lemma {:induction false} GrowEndRange(cfg: Config, c: Counts, index: nat, tokens: nat, first: bool)
    requires index <= |c|
    ensures index <= GrowEnd(cfg, c, index, tokens, first) <= |c|
    ensures first && index < |c| ==> index < GrowEnd(cfg, c, index, tokens, first)
    decreases |c| - index
  {
    if index < |c| && !(!first && tokens + c[index] > cfg.max && tokens >= cfg.min)
       && tokens + c[index] < cfg.max {
      GrowEndRange(cfg, c, index + 1, tokens + c[index], false);
    }
  }

  /** A segment that has `tokens` when it comes to unit `i` takes no more. */
  predicate Stops(cfg: Config, c: Counts, i: nat, tokens: nat, first: bool)
  {
    || i >= |c|
    || tokens >= cfg.max
    || (!first && tokens >= cfg.min && tokens + c[i] > cfg.max)
  }

  /** What a segment has at unit `i`, given what it had at `index`. */
  function Had(c: Counts, index: nat, tokens: nat, i: nat): nat
    requires index <= i <= |c|
  {
    BeforeMonotone(c, index, i);
    tokens + Before(c, i) - Before(c, index)
  }

  /**
   The segment ends at the first unit, after the one it must take, where it stops: it is
   full, or it is large enough and the next unit would overflow it, or the text is over.
   */
  predicate FirstStop(cfg: Config, c: Counts, index: nat, tokens: nat, first: bool, e: nat)
  {
    && index <= e <= |c| && (first && index < |c| ==> index < e)
    && Stops(cfg, c, e, Had(c, index, tokens, e), false)
    && forall j :: index <= j < e && !(first && j == index) ==> !Stops(cfg, c, j, Had(c, index, tokens, j), false)
  }

  lemma {:induction false} GrowEndStops(cfg: Config, c: Counts, index: nat, tokens: nat, first: bool)
    requires cfg.Valid() && index <= |c| && (first || tokens < cfg.max)
    ensures FirstStop(cfg, c, index, tokens, first, GrowEnd(cfg, c, index, tokens, first))
    decreases |c| - index
  {
    var e := GrowEnd(cfg, c, index, tokens, first);
    GrowEndRange(cfg, c, index, tokens, first);
    assert Had(c, index, tokens, index) == tokens;
    if index < |c| {
      GrowEndRange(cfg, c, index + 1, tokens + c[index], false);
    }
    if index < e && tokens + c[index] < cfg.max {
      GrowEndStops(cfg, c, index + 1, tokens + c[index], false);
      forall j | index < j <= e ensures Had(c, index, tokens, j) == Had(c, index + 1, tokens + c[index], j) {
        assert Before(c, index + 1) == Before(c, index) + c[index];
      }
    } else if index < e {
      assert Had(c, index, tokens, index + 1) == tokens + c[index];
    }
  }

  /** The inner loop ends a segment at the first stop, and nowhere else. */
  lemma GrowEndIsFirstStop(cfg: Config, c: Counts, index: nat, tokens: nat, e: nat)
    requires cfg.Valid() && index < |c|
    ensures e == GrowEnd(cfg, c, index, tokens, true) <==> FirstStop(cfg, c, index, tokens, true, e)
  {
    hide GrowEnd;
    GrowEndStops(cfg, c, index, tokens, true);
  }

  /** The overlap is a suffix of the window that reaches the target, or all of it, and no longer than needed. */
  lemma {:induction false} OverlapFacts(c: Counts, lo: nat, s: nat, hi: nat, target: int)
    requires lo <= s <= hi <= |c| && Before(c, hi) >= Before(c, s)
    requires s < hi ==> Before(c, hi) - Before(c, s + 1) < target
    ensures var o := OverlapStart(c, lo, s, target, Before(c, hi) - Before(c, s));
      && lo <= o <= s
      && (o == lo || Before(c, hi) - Before(c, o) >= target)
      && (o < hi ==> Before(c, hi) - Before(c, o + 1) < target)
    decreases s
  {
    if s != lo && Before(c, hi) - Before(c, s) < target {
      OverlapFacts(c, lo, s - 1, hi, target);
    }
  }

  function NextLo(cfg: Config, c: Counts, w: Window): nat
    requires w.lo <= w.hi <= |c| && Size(c, w) >= 0
  {
    OverlapStart(c, w.lo, w.hi, Target(cfg, Size(c, w)), 0)
  }

  lemma NextLoRange(cfg: Config, c: Counts, w: Window)
    requires w.lo <= w.hi <= |c|
    ensures Size(c, w) >= 0 && w.lo <= NextLo(cfg, c, w) <= w.hi
  {
    BeforeMonotone(c, w.lo, w.hi);
    OverlapFacts(c, w.lo, w.hi, w.hi, Target(cfg, Size(c, w)));
  }

  /** The windows from unit `index` on, the first of them starting at `lo`. */
  function WindowsFrom(cfg: Config, c: Counts, lo: nat, index: nat): seq<Window>
    requires lo <= index <= |c|
    decreases |c| - index
  {
    if index == |c| then []
    else
      BeforeMonotone(c, lo, index);
      var hi := GrowEnd(cfg, c, index, Before(c, index) - Before(c, lo), true);
      GrowEndRange(cfg, c, index, Before(c, index) - Before(c, lo), true);
      var w := Window(lo, hi);
      NextLoRange(cfg, c, w);
      [w] + WindowsFrom(cfg, c, NextLo(cfg, c, w), hi)
  }

  function AllWindows(cfg: Config, c: Counts): seq<Window>
  {
    WindowsFrom(cfg, c, 0, 0)
  }

  // ---------------------------------------------------------------- rounding

  lemma RoundNear(x: real)
    ensures x - 0.5 <= Round(x) as real <= x + 0.5
  {
  }

  /** Rounding finds the nearest integer, and of two nearest the even one. */
  lemma RoundIs(x: real, n: int)
    ensures n == Round(x) <==>
              x - 0.5 <= n as real <= x + 0.5 && (n as real == x - 0.5 || n as real == x + 0.5 ==> n % 2 == 0)
  {
  }

  /** The target is the product of size and ratio, so rounded. */
  lemma TargetIs(cfg: Config, tokens: nat, n: int)
    ensures n == Target(cfg, tokens) <==>
              && tokens as real * cfg.ratio - 0.5 <= n as real <= tokens as real * cfg.ratio + 0.5
              && (n as real == tokens as real * cfg.ratio - 0.5 || n as real == tokens as real * cfg.ratio + 0.5 ==>
                    n % 2 == 0)
  {
    hide Round;
    RoundIs(Share(cfg, tokens), n);
  }

  lemma RoundMonotone(x: real, y: real)
    requires x <= y
    ensures Round(x) <= Round(y)
  {
    if x.Floor < y.Floor {
      assert Round(x) <= x.Floor + 1 <= y.Floor <= Round(y);
    }
  }

  lemma MulMonotone(x: real, y: real, q: real)
    requires x <= y && 0.0 <= q
    ensures x * q <= y * q
  {
    assert (y - x) * q >= 0.0;
  }

  lemma ShareRange(cfg: Config, tokens: nat)
    requires cfg.Valid()
    ensures 0.0 <= Share(cfg, tokens) <= tokens as real
    ensures cfg.ratio == 0.0 ==> Share(cfg, tokens) == 0.0
  {
    MulMonotone(0.0, tokens as real, cfg.ratio);
    MulMonotone(cfg.ratio, 1.0, tokens as real);
  }

  lemma ShareMonotone(cfg: Config, a: nat, b: nat)
    requires cfg.Valid() && a <= b
    ensures Share(cfg, a) <= Share(cfg, b)
  {
    MulMonotone(a as real, b as real, cfg.ratio);
  }

  lemma RoundBetween(lo: int, x: real, hi: int)
    requires lo as real <= x <= hi as real
    ensures lo <= Round(x) <= hi
  {
  }

  lemma TargetRange(cfg: Config, tokens: nat)
    requires cfg.Valid()
    ensures 0 <= Target(cfg, tokens) <= tokens
    ensures cfg.ratio == 0.0 ==> Target(cfg, tokens) == 0
  {
    hide Round, Share;
    ShareRange(cfg, tokens);
    RoundBetween(0, Share(cfg, tokens), tokens);
    if cfg.ratio == 0.0 {
      RoundBetween(0, Share(cfg, tokens), 0);
    }
  }

  lemma TargetMonotone(cfg: Config, a: nat, b: nat)
    requires cfg.Valid() && a <= b
    ensures Target(cfg, a) <= Target(cfg, b)
  {
    hide Round, Share;
    ShareMonotone(cfg, a, b);
    RoundMonotone(Share(cfg, a), Share(cfg, b));
  }

  // ---------------------------------------------------------------- coverage and overlap

  /** How a window and its successor are placed. */
  predicate Chained(cfg: Config, c: Counts, a: Window, b: Window)
    requires a.lo <= a.hi <= |c| && b.lo <= b.hi <= |c| && Size(c, a) >= 0
  {
    var target := Target(cfg, Size(c, a));
    && a.lo <= b.lo <= a.hi < b.hi
    && Before(c, a.hi) - Before(c, b.lo) >= target
    && (b.lo < a.hi ==> Before(c, a.hi) - Before(c, b.lo + 1) < target)
    && (cfg.ratio == 0.0 ==> b.lo == a.hi)
  }

  predicate WindowOk(c: Counts, w: Window)
  {
    w.lo < w.hi <= |c| && Size(c, w) > 0
  }

  predicate Covers(cfg: Config, c: Counts, lo: nat, index: nat, ws: seq<Window>)
  {
    && (ws == [] <==> index == |c|)
    && (forall k :: 0 <= k < |ws| ==> WindowOk(c, ws[k]))
    && (ws != [] ==> ws[0].lo == lo && index < ws[0].hi && Last(ws).hi == |c|)
    && (forall k :: 0 <= k < |ws| - 1 ==> Chained(cfg, c, ws[k], ws[k + 1]) && Size(c, ws[k]) >= cfg.min)
  }

  lemma {:induction false} GrowReachesMin(cfg: Config, c: Counts, index: nat, tokens: nat, first: bool)
    requires cfg.Valid() && index <= |c|
    ensures var e := GrowEnd(cfg, c, index, tokens, first);
      index <= e <= |c| && (e < |c| ==> tokens + Before(c, e) - Before(c, index) >= cfg.min)
    decreases |c| - index
  {
    if index < |c| && !(!first && tokens + c[index] > cfg.max && tokens >= cfg.min)
       && tokens + c[index] < cfg.max {
      GrowReachesMin(cfg, c, index + 1, tokens + c[index], false);
    }
  }

  lemma NextLoFacts(cfg: Config, c: Counts, w: Window)
    requires cfg.Valid() && w.lo <= w.hi <= |c|
    ensures Size(c, w) >= 0 && w.lo <= NextLo(cfg, c, w) <= w.hi
    ensures var o, target := NextLo(cfg, c, w), Target(cfg, Size(c, w));
      && Before(c, w.hi) - Before(c, o) >= target
      && (o < w.hi ==> Before(c, w.hi) - Before(c, o + 1) < target)
      && (target == 0 ==> o == w.hi)
  {
    BeforeMonotone(c, w.lo, w.hi);
    TargetRange(cfg, Size(c, w));
    OverlapFacts(c, w.lo, w.hi, w.hi, Target(cfg, Size(c, w)));
  }

  lemma BeforeStrict(c: Counts, i: nat, j: nat)
    requires i < j <= |c| && 1 <= c[j - 1]
    ensures Before(c, i) < Before(c, j)
  {
    BeforeMonotone(c, i, j - 1);
  }

  lemma {:induction false} WindowsCover(cfg: Config, c: Counts, lo: nat, index: nat)
    requires cfg.Valid() && Bounded(c, cfg.max) && lo <= index <= |c|
    ensures Covers(cfg, c, lo, index, WindowsFrom(cfg, c, lo, index))
    decreases |c| - index
  {
    if index < |c| {
      BeforeMonotone(c, lo, index);
      var have := Before(c, index) - Before(c, lo);
      var hi := GrowEnd(cfg, c, index, have, true);
      GrowEndRange(cfg, c, index, have, true);
      GrowReachesMin(cfg, c, index, have, true);
      BeforeStrict(c, lo, hi);
      var w := Window(lo, hi);
      NextLoFacts(cfg, c, w);
      TargetRange(cfg, Size(c, w));
      var next := NextLo(cfg, c, w);
      WindowsCover(cfg, c, next, hi);
      CoversCons(cfg, c, index, w, WindowsFrom(cfg, c, next, hi));
    }
  }

  lemma CoversCons(cfg: Config, c: Counts, index: nat, w: Window, rest: seq<Window>)
    requires cfg.Valid() && WindowOk(c, w) && index < w.hi && index < |c|
    requires Covers(cfg, c, NextLo(cfg, c, w), w.hi, rest)
    requires w.hi < |c| ==> Size(c, w) >= cfg.min
    ensures Covers(cfg, c, w.lo, index, [w] + rest)
  {
    NextLoFacts(cfg, c, w);
    TargetRange(cfg, Size(c, w));
    var ws := [w] + rest;
    forall k | 0 <= k < |ws| ensures WindowOk(c, ws[k]) {
      if k > 0 {
        assert ws[k] == rest[k - 1];
      }
    }
    forall k | 0 <= k < |ws| - 1
      ensures Chained(cfg, c, ws[k], ws[k + 1]) && Size(c, ws[k]) >= cfg.min
    {
      if k > 0 {
        assert ws[k] == rest[k - 1] && ws[k + 1] == rest[k];
      } else {
        assert ws[1] == rest[0];
      }
    }
  }

  /**
   Coverage.  The first window starts at the first unit and the last ends at the last; ends
   strictly increase, starts never decrease; each window overlaps its predecessor by at
   least the rounded share of its size and by no unit more than that takes; with ratio 0
   the windows tile the text.  Every window but the last holds at least `min` tokens.
   */
  lemma Coverage(cfg: Config, c: Counts)
    requires cfg.Valid() && Bounded(c, cfg.max)
    ensures Covers(cfg, c, 0, 0, AllWindows(cfg, c))
  {
    WindowsCover(cfg, c, 0, 0);
  }

  // ---------------------------------------------------------------- greediness

  /** A window that starts at `lo` and takes new units from `index` on ends at its first stop. */
  predicate EndsAtFirstStop(cfg: Config, c: Counts, index: nat, w: Window)
  {
    && w.lo <= index < w.hi <= |c| && Stops(cfg, c, w.hi, Held(c, w.lo, w.hi), false)
    && forall j :: index < j < w.hi ==> !Stops(cfg, c, j, Held(c, w.lo, j), false)
  }

  /** The tokens of units `lo` to `i`. */
  function Held(c: Counts, lo: nat, i: nat): nat
    requires lo <= i <= |c|
  {
    BeforeMonotone(c, lo, i);
    Before(c, i) - Before(c, lo)
  }

  predicate Greedy(cfg: Config, c: Counts, index: nat, ws: seq<Window>)
  {
    && (ws != [] ==> EndsAtFirstStop(cfg, c, index, ws[0]))
    && forall k :: 0 <= k < |ws| - 1 ==> EndsAtFirstStop(cfg, c, ws[k].hi, ws[k + 1])
  }

  lemma HadIsHeld(c: Counts, lo: nat, index: nat, have: nat, i: nat)
    requires lo <= index <= i <= |c| && have == Before(c, index) - Before(c, lo)
    ensures Had(c, index, have, i) == Held(c, lo, i)
  {
  }

  lemma StopsFirst(cfg: Config, c: Counts, lo: nat, index: nat, have: nat, e: nat)
    requires lo <= index < |c| && have == Before(c, index) - Before(c, lo) && FirstStop(cfg, c, index, have, true, e)
    ensures EndsAtFirstStop(cfg, c, index, Window(lo, e))
  {
    hide Stops, Before, Had, Held;
    HadIsHeld(c, lo, index, have, e);
    forall j | index < j < e ensures !Stops(cfg, c, j, Held(c, lo, j), false) {
      HadIsHeld(c, lo, index, have, j);
      assert !Stops(cfg, c, j, Had(c, index, have, j), false);
    }
  }

  lemma GrowEndsAtFirstStop(cfg: Config, c: Counts, lo: nat, index: nat, have: nat)
    requires cfg.Valid() && lo <= index < |c| && have == Before(c, index) - Before(c, lo)
    ensures EndsAtFirstStop(cfg, c, index, Window(lo, GrowEnd(cfg, c, index, have, true)))
  {
    hide FirstStop, EndsAtFirstStop, GrowEnd;
    GrowEndStops(cfg, c, index, have, true);
    StopsFirst(cfg, c, lo, index, have, GrowEnd(cfg, c, index, have, true));
  }

  lemma {:induction false} WindowsGreedy(cfg: Config, c: Counts, lo: nat, index: nat)
    requires cfg.Valid() && lo <= index <= |c|
    ensures Greedy(cfg, c, index, WindowsFrom(cfg, c, lo, index))
    decreases |c| - index
  {
    hide EndsAtFirstStop, GrowEnd, NextLo;
    if index < |c| {
      BeforeMonotone(c, lo, index);
      var have := Before(c, index) - Before(c, lo);
      var hi := GrowEnd(cfg, c, index, have, true);
      GrowEndRange(cfg, c, index, have, true);
      GrowEndsAtFirstStop(cfg, c, lo, index, have);
      var w := Window(lo, hi);
      NextLoRange(cfg, c, w);
      WindowsGreedy(cfg, c, NextLo(cfg, c, w), hi);
      GreedyCons(cfg, c, index, w, WindowsFrom(cfg, c, NextLo(cfg, c, w), hi));
    }
  }

  lemma GreedyCons(cfg: Config, c: Counts, index: nat, w: Window, rest: seq<Window>)
    requires EndsAtFirstStop(cfg, c, index, w) && Greedy(cfg, c, w.hi, rest)
    ensures Greedy(cfg, c, index, [w] + rest)
  {
    hide EndsAtFirstStop;
    var ws := [w] + rest;
    forall k | 0 <= k < |ws| - 1 ensures EndsAtFirstStop(cfg, c, ws[k].hi, ws[k + 1]) {
      assert ws[k + 1] == rest[k] && (k > 0 ==> ws[k] == rest[k - 1]);
    }
  }

  /**
   Greediness.  Counting all tokens it holds, the repeated ones included, no window ends
   before it is full or the next unit would overflow it once it is large enough, and every
   window ends as soon as that is so; at least one new unit is always taken.
   */
  lemma WindowsAreGreedy(cfg: Config, c: Counts)
    requires cfg.Valid()
    ensures Greedy(cfg, c, 0, AllWindows(cfg, c))
  {
    WindowsGreedy(cfg, c, 0, 0);
  }

  // ---------------------------------------------------------------- segment size

  lemma {:induction false} GrowBound(cfg: Config, c: Counts, index: nat, tokens: nat, first: bool)
    requires cfg.Valid() && Bounded(c, cfg.max) && index <= |c|
    requires !first ==> tokens < cfg.max
    ensures var e := GrowEnd(cfg, c, index, tokens, first);
      && index <= e <= |c|
      && (first && index < |c| ==>
            tokens + Before(c, e) - Before(c, index) <= tokens + cfg.max
            || tokens + Before(c, e) - Before(c, index) <= cfg.max + cfg.min - 1)
      && (!first ==> tokens + Before(c, e) - Before(c, index) <= cfg.max + cfg.min - 1)
    decreases |c| - index
  {
    if index < |c| && !(!first && tokens + c[index] > cfg.max && tokens >= cfg.min)
       && tokens + c[index] < cfg.max {
      GrowBound(cfg, c, index + 1, tokens + c[index], false);
    }
  }

  /** What `n` tokens come to at the ratio that is not repeated. */
  function Kept(cfg: Config, n: int): real
  {
    n as real * (1.0 - cfg.ratio)
  }

  /** What the size bound of one window needs of the overlap it starts with. */
  predicate OverlapBounded(cfg: Config, overlap: int)
  {
    overlap == 0 ||
    Kept(cfg, overlap) <=
      2.0 * cfg.max as real * cfg.ratio + (cfg.max as real - 0.5) * (1.0 - cfg.ratio)
  }

  predicate SizeBounded(cfg: Config, size: int)
  {
    && Kept(cfg, size) < 2.0 * cfg.max as real
    && (cfg.ratio == 0.0 ==> size <= cfg.max + cfg.min - 1)
  }

  /** From a bounded overlap a bounded window. */
  lemma WindowSize(cfg: Config, overlap: nat, size: nat)
    requires cfg.Valid() && OverlapBounded(cfg, overlap) && (cfg.ratio == 0.0 ==> overlap == 0)
    requires size <= overlap + cfg.max || size <= cfg.max + cfg.min - 1
    ensures SizeBounded(cfg, size)
  {
    if size <= cfg.max + cfg.min - 1 {
      hide Kept;
      KeptShrinks(cfg, size);
    } else {
      Overrun(size as real, overlap as real, cfg.max as real, cfg.ratio);
    }
  }

  lemma KeptShrinks(cfg: Config, n: nat)
    requires cfg.Valid()
    ensures Kept(cfg, n) <= n as real
  {
    MulMonotone(1.0 - cfg.ratio, 1.0, n as real);
  }

  /** The arithmetic of a window made of an overlap and one more unit. */
  lemma Overrun(s: real, o: real, m: real, r: real)
    requires 0.0 <= r < 1.0 && 0.0 <= m && s <= o + m
    requires o == 0.0 || o * (1.0 - r) <= 2.0 * m * r + (m - 0.5) * (1.0 - r)
    requires m >= 1.0
    ensures s * (1.0 - r) < 2.0 * m
  {
    var q, mr := 1.0 - r, m * r;
    MulMonotone(s, o + m, q);
    MulMonotone(0.0, r, m);
    assert m * q == m - mr;
    assert (o + m) * q == o * q + m * q;
    assert (m - 0.5) * q == m - mr - 0.5 * q;
    assert 2.0 * m * r == 2.0 * mr;
    assert mr == r * m;
  }

  lemma Rearrange(s: real, r: real, q: real)
    ensures (s * r) * q == (s * q) * r
  {
  }

  /** The arithmetic of an overlap that passes its target by less than one unit. */
  lemma Overlapped(s: real, o: real, m: real, r: real, q: real)
    requires 0.0 <= r && 0.0 <= q
    requires o <= s * r + (m - 0.5) && s * q < 2.0 * m
    ensures o * q <= 2.0 * m * r + (m - 0.5) * q
  {
    MulMonotone(o, s * r + (m - 0.5), q);
    assert (s * r + (m - 0.5)) * q == (s * r) * q + (m - 0.5) * q;
    Rearrange(s, r, q);
    MulMonotone(s * q, 2.0 * m, r);
  }

  /** From a bounded window a bounded overlap: it passes the target by less than one unit. */
  lemma OverlapSize(cfg: Config, size: nat, overlap: nat)
    requires cfg.Valid() && SizeBounded(cfg, size)
    requires overlap == 0 || overlap <= Target(cfg, size) - 1 + cfg.max
    ensures OverlapBounded(cfg, overlap)
  {
    if overlap != 0 {
      RoundNear(Share(cfg, size));
      Overlapped(size as real, overlap as real, cfg.max as real, cfg.ratio, 1.0 - cfg.ratio);
    }
  }

  predicate AllSizesBounded(cfg: Config, c: Counts, ws: seq<Window>)
  {
    forall k :: 0 <= k < |ws| ==> ws[k].lo <= ws[k].hi <= |c| && SizeBounded(cfg, Size(c, ws[k]))
  }

  lemma {:induction false} WindowsBounded(cfg: Config, c: Counts, lo: nat, index: nat)
    requires cfg.Valid() && Bounded(c, cfg.max) && lo <= index <= |c|
    requires OverlapBounded(cfg, Before(c, index) - Before(c, lo))
    requires cfg.ratio == 0.0 ==> lo == index
    ensures AllSizesBounded(cfg, c, WindowsFrom(cfg, c, lo, index))
    decreases |c| - index
  {
    if index < |c| {
      BeforeMonotone(c, lo, index);
      var have := Before(c, index) - Before(c, lo);
      var hi := GrowEnd(cfg, c, index, have, true);
      GrowEndRange(cfg, c, index, have, true);
      GrowBound(cfg, c, index, have, true);
      var w := Window(lo, hi);
      NextLoFacts(cfg, c, w);
      var next := NextLo(cfg, c, w);
      WindowSize(cfg, have, Size(c, w));
      TargetRange(cfg, Size(c, w));
      OverlapOneUnitOver(cfg, c, w);
      OverlapSize(cfg, Size(c, w), Before(c, hi) - Before(c, next));
      WindowsBounded(cfg, c, next, hi);
    }
  }

  /** The overlap exceeds its target by less than the first unit it takes. */
  lemma OverlapOneUnitOver(cfg: Config, c: Counts, w: Window)
    requires cfg.Valid() && Bounded(c, cfg.max) && w.lo <= w.hi <= |c| && Size(c, w) >= 0
    ensures w.lo <= NextLo(cfg, c, w) <= w.hi
    ensures var o := Before(c, w.hi) - Before(c, NextLo(cfg, c, w));
      o >= 0 && (o == 0 || o <= Target(cfg, Size(c, w)) - 1 + c[NextLo(cfg, c, w)])
  {
    NextLoFacts(cfg, c, w);
    BeforeMonotone(c, NextLo(cfg, c, w), w.hi);
  }

  /**
   Size.  With overlap ratio r every segment has fewer than 2*max/(1-r) tokens, and at most
   max+min-1 when r is 0.
   */
  lemma SegmentSizeBound(cfg: Config, c: Counts)
    requires cfg.Valid() && Bounded(c, cfg.max)
    ensures AllSizesBounded(cfg, c, AllWindows(cfg, c))
  {
    WindowsBounded(cfg, c, 0, 0);
  }

  // ---------------------------------------------------------------- when segments stay within max

  /** The default parameters: 300 to 500 tokens, 20% overlap. */
  const DEFAULTS := Config(300, 500, 0.2)

  /**
   "Every segment has at most max tokens" is false: two 500-token paragraphs under the
   default parameters give a second segment of 1000 tokens.
   */
  lemma TwoLongParagraphs()
    ensures DEFAULTS.Valid() && Bounded([500, 500], DEFAULTS.max)
    ensures AllWindows(DEFAULTS, [500, 500]) == [Window(0, 1), Window(0, 2)]
    ensures Size([500, 500], Window(0, 2)) == 1000
  {
    var c := [500, 500];
    assert Before(c, 1) == 500;
    assert Before(c, 2) == 1000;
    var first, second := Window(0, 1), Window(0, 2);
    GrowFills(DEFAULTS, c, 0, 0, true, 1);
    assert Target(DEFAULTS, 500) == 100;
    OverlapIs(DEFAULTS, c, first, 0);
    assert GrowEnd(DEFAULTS, c, 1, 500, true) == 2;
    NextLoRange(DEFAULTS, c, second);
    assert WindowsFrom(DEFAULTS, c, NextLo(DEFAULTS, c, second), 2) == [];
    assert WindowsFrom(DEFAULTS, c, 0, 1) == [second];
  }

  predicate WithinMax(cfg: Config, c: Counts, ws: seq<Window>)
  {
    forall k :: 0 <= k < |ws| ==> ws[k].lo <= ws[k].hi <= |c| && Size(c, ws[k]) <= cfg.max
  }

  /**
   The parameters under which no text can overflow, given that no unit exceeds `unit`
   tokens: an overlap and one forced unit fit, and so do `min - 1` tokens and one more unit.
   */
  predicate NeverOverflows(cfg: Config, unit: nat)
  {
    var target := Target(cfg, cfg.max);
    && (target == 0 || target - 1 + 2 * unit <= cfg.max)
    && (cfg.min == 1 || cfg.min - 1 + unit <= cfg.max)
  }

  lemma {:induction false} GrowWithin(cfg: Config, c: Counts, unit: nat, index: nat, tokens: nat, first: bool)
    requires cfg.Valid() && Bounded(c, unit) && unit <= cfg.max && index <= |c| && tokens <= cfg.max
    requires cfg.min == 1 || cfg.min - 1 + unit <= cfg.max
    requires first ==> tokens + unit <= cfg.max
    requires !first ==> tokens >= 1
    ensures var e := GrowEnd(cfg, c, index, tokens, first);
      index <= e <= |c| && tokens + Before(c, e) - Before(c, index) <= cfg.max
    decreases |c| - index
  {
    if index < |c| && !(!first && tokens + c[index] > cfg.max && tokens >= cfg.min)
       && tokens + c[index] < cfg.max {
      GrowWithin(cfg, c, unit, index + 1, tokens + c[index], false);
    }
  }

  lemma {:induction false} WindowsWithin(cfg: Config, c: Counts, unit: nat, lo: nat, index: nat)
    requires cfg.Valid() && Bounded(c, unit) && unit <= cfg.max && NeverOverflows(cfg, unit)
    requires lo <= index <= |c| && 0 <= Before(c, index) - Before(c, lo) <= cfg.max - unit
    ensures WithinMax(cfg, c, WindowsFrom(cfg, c, lo, index))
    decreases |c| - index
  {
    if index < |c| {
      var have := Before(c, index) - Before(c, lo);
      var hi := GrowEnd(cfg, c, index, have, true);
      GrowEndRange(cfg, c, index, have, true);
      GrowWithin(cfg, c, unit, index, have, true);
      BeforeMonotone(c, lo, hi);
      var w := Window(lo, hi);
      assert Bounded(c, cfg.max);
      OverlapOneUnitOver(cfg, c, w);
      TargetMonotone(cfg, Size(c, w), cfg.max);
      TargetRange(cfg, Size(c, w));
      NextLoFacts(cfg, c, w);
      WindowsWithin(cfg, c, unit, NextLo(cfg, c, w), hi);
    }
  }

  // Texts that overflow when the parameters allow it.

  function Ones(n: nat): Counts
  {
    seq(n, i => 1)
  }

  lemma {:induction false} BeforeConcat(a: Counts, b: Counts, i: nat)
    requires i <= |a| + |b|
    ensures Before(a + b, i) == if i <= |a| then Before(a, i) else Before(a, |a|) + Before(b, i - |a|)
  {
    if i > 0 {
      BeforeConcat(a, b, i - 1);
    }
  }

  lemma {:induction false} BeforeOnes(n: nat, i: nat)
    requires i <= n
    ensures Before(Ones(n), i) == i
  {
    if i > 0 {
      BeforeOnes(n, i - 1);
    }
  }

  /** A window whose units reach `max` exactly ends there. */
  lemma {:induction false} GrowFills(cfg: Config, c: Counts, index: nat, tokens: nat, first: bool, e: nat)
    requires cfg.Valid() && Bounded(c, cfg.max) && index < e <= |c|
    requires tokens + Before(c, e) - Before(c, index) == cfg.max
    ensures GrowEnd(cfg, c, index, tokens, first) == e
    decreases e - index
  {
    BeforeMonotone(c, index + 1, e);
    if index + 1 < e {
      BeforeStrict(c, index + 1, e);
      GrowFills(cfg, c, index + 1, tokens + c[index], false, e);
    }
  }

  /** While a window is below `min` it takes the next unit, whatever its size. */
  lemma {:induction false} GrowForced(cfg: Config, c: Counts, index: nat, tokens: nat, first: bool, e: nat)
    requires cfg.Valid() && Bounded(c, cfg.max) && index < e <= |c|
    requires tokens + Before(c, e - 1) - Before(c, index) < cfg.min
    requires tokens + Before(c, e) - Before(c, index) >= cfg.max
    ensures GrowEnd(cfg, c, index, tokens, first) == e
    decreases e - index
  {
    if index + 1 < e {
      BeforeMonotone(c, index, e - 1);
      BeforeMonotone(c, index + 1, e - 1);
      GrowForced(cfg, c, index + 1, tokens + c[index], false, e);
    }
  }

  /** The overlap is where the suffix first reaches the target. */
  lemma OverlapIs(cfg: Config, c: Counts, w: Window, o: nat)
    requires cfg.Valid() && Bounded(c, cfg.max) && w.lo <= o < w.hi <= |c| && Size(c, w) >= 0
    requires Before(c, w.hi) - Before(c, o) >= Target(cfg, Size(c, w))
    requires Before(c, w.hi) - Before(c, o + 1) < Target(cfg, Size(c, w))
    ensures NextLo(cfg, c, w) == o
  {
    NextLoFacts(cfg, c, w);
    var n := NextLo(cfg, c, w);
    if n < o {
      BeforeMonotone(c, n + 1, o);
    } else if n > o {
      BeforeMonotone(c, o + 1, n);
    }
  }

  /** `min - 1` single tokens and one unit: below `min` the unit is taken although it overflows. */
  lemma ForcedUnitOverflows(cfg: Config, unit: nat) returns (c: Counts)
    requires cfg.Valid() && 1 <= unit <= cfg.max && cfg.min > 1 && cfg.min - 1 + unit > cfg.max
    ensures Bounded(c, unit) && !WithinMax(cfg, c, AllWindows(cfg, c))
  {
    var n := cfg.min - 1;
    c := Ones(n) + [unit];
    BeforeOnes(n, n);
    BeforeConcat(Ones(n), [unit], n);
    BeforeConcat(Ones(n), [unit], n + 1);
    assert Before([unit], 1) == unit;
    GrowForced(cfg, c, 0, 0, true, n + 1);
    assert AllWindows(cfg, c)[0] == Window(0, n + 1);
  }

  /** A full window followed by one more unit: the overlap and the unit together overflow. */
  lemma OverlapOverflows(cfg: Config, unit: nat) returns (c: Counts)
    requires cfg.Valid() && 1 <= unit <= cfg.max
    requires Target(cfg, cfg.max) > 0 && Target(cfg, cfg.max) - 1 + 2 * unit > cfg.max
    ensures Bounded(c, unit) && !WithinMax(cfg, c, AllWindows(cfg, c))
  {
    hide Target, LongOverlap;
    var target := Target(cfg, cfg.max);
    TargetRange(cfg, cfg.max);
    var t := if target - 1 <= cfg.max - unit then target - 1 else cfg.max - unit;
    var k := cfg.max - unit - t;
    c := LongOverlap(k, unit, t);
    LongOverlapSums(k, unit, t);
    var hi := k + 1 + t;
    GrowFills(cfg, c, 0, 0, true, hi);
    var first := Window(0, hi);
    OverlapIs(cfg, c, first, k);
    NextLoRange(cfg, c, first);
    assert GrowEnd(cfg, c, hi, unit + t, true) == hi + 1;
    var rest := WindowsFrom(cfg, c, k, hi);
    assert rest[0] == Window(k, hi + 1);
    assert AllWindows(cfg, c) == [first] + rest;
    assert AllWindows(cfg, c)[1] == Window(k, hi + 1);
  }

  function LongOverlap(k: nat, unit: nat, t: nat): Counts
  {
    Ones(k) + ([unit] + (Ones(t) + [unit]))
  }

  lemma LongOverlapSums(k: nat, unit: nat, t: nat)
    requires unit >= 1
    ensures var c := LongOverlap(k, unit, t);
      && |c| == k + t + 2 && Bounded(c, unit)
      && Before(c, 0) == 0 && Before(c, k) == k && Before(c, k + 1) == k + unit
      && Before(c, k + 1 + t) == k + unit + t && Before(c, k + t + 2) == k + unit + t + unit
  {
    var tail := [unit] + (Ones(t) + [unit]);
    BeforeOnes(k, k);
    UnitOnesUnit(unit, t);
    BeforeConcat(Ones(k), tail, k);
    BeforeConcat(Ones(k), tail, k + 1);
    BeforeConcat(Ones(k), tail, k + 1 + t);
    BeforeConcat(Ones(k), tail, k + t + 2);
  }

  lemma UnitOnesUnit(unit: nat, t: nat)
    ensures var tail := [unit] + (Ones(t) + [unit]);
      Before(tail, 1) == unit && Before(tail, 1 + t) == unit + t && Before(tail, t + 2) == unit + t + unit
  {
    var inner := Ones(t) + [unit];
    BeforeOnes(t, t);
    BeforeConcat(Ones(t), [unit], t);
    BeforeConcat(Ones(t), [unit], t + 1);
    assert Before([unit], 1) == unit;
    BeforeConcat([unit], inner, 1);
    BeforeConcat([unit], inner, 1 + t);
    BeforeConcat([unit], inner, t + 2);
  }

  /**
   Exactly when `max_tokens` is a limit.  Given that no unit exceeds `unit` tokens, every
   text yields only segments of at most `max` tokens if and only if the parameters satisfy
   `NeverOverflows`, which can be checked before any text is seen.
   */
  lemma NeverOverflowsIff(cfg: Config, unit: nat)
    requires cfg.Valid() && 1 <= unit <= cfg.max
    ensures NeverOverflows(cfg, unit) <==>
              forall c: Counts :: Bounded(c, unit) ==> WithinMax(cfg, c, AllWindows(cfg, c))
  {
    if NeverOverflows(cfg, unit) {
      forall c: Counts | Bounded(c, unit) ensures WithinMax(cfg, c, AllWindows(cfg, c)) {
        WindowsWithin(cfg, c, unit, 0, 0);
      }
    } else if cfg.min > 1 && cfg.min - 1 + unit > cfg.max {
      var c := ForcedUnitOverflows(cfg, unit);
    } else {
      TargetRange(cfg, cfg.max);
      var c := OverlapOverflows(cfg, unit);
    }
  }
}
