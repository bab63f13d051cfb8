/**
 From chunk hits to document matches: keep the best hit per chunk, group by document, sort
 both levels by score.  Dictionaries keep insertion order, so they are lists here.
 */
module Aggregation {
  import opened Prelude
  import opened Stores

  datatype Hit = Hit(id: ChunkId, score: real)

  datatype Match = Match(doc: DocId, hits: seq<Hit>, average: real, max: real, best: Hit)

  // ---------------------------------------------------------------- best hit per chunk

  /** Position of the hit of a chunk, or the length. */
  function Position(best: seq<Hit>, id: ChunkId): (i: nat)
    ensures i <= |best|
    ensures i < |best| ==> best[i].id == id
    ensures forall j :: 0 <= j < i ==> best[j].id != id
  {
    if best == [] || best[0].id == id then 0 else 1 + Position(best[1..], id)
  }

  function Better(best: seq<Hit>, hit: Hit): seq<Hit>
  {
    var i := Position(best, hit.id);
    if i == |best| then best + [hit] else if hit.score > best[i].score then best[i := hit] else best
  }

  function DedupeFrom(best: seq<Hit>, hits: seq<Hit>): seq<Hit>
    decreases |hits|
  {
    if hits == [] then best else DedupeFrom(Better(best, hits[0]), hits[1..])
  }

  predicate DistinctIds(best: seq<Hit>)
  {
    forall i, j :: 0 <= i < j < |best| ==> best[i].id != best[j].id
  }

  /** The kept hit of this chunk scores at least as high. */
  predicate Beats(best: seq<Hit>, h: Hit)
  {
    var i := Position(best, h.id);
    i < |best| && best[i].score >= h.score
  }

  /** No hit of the list beats the best one of its chunk. */
  predicate Dominates(best: seq<Hit>, hits: seq<Hit>)
  {
    forall k :: 0 <= k < |hits| ==> Beats(best, hits[k])
  }

  predicate DrawnFrom(best: seq<Hit>, hits: seq<Hit>)
  {
    forall i :: 0 <= i < |best| ==> best[i] in hits
  }

  /** Chunks stand in the order in which they were first hit. */
  predicate InOrder(best: seq<Hit>, hits: seq<Hit>)
  {
    forall i, j :: 0 <= i < j < |best| ==> Position(hits, best[i].id) < Position(hits, best[j].id)
  }

  predicate BestOf(best: seq<Hit>, hits: seq<Hit>)
  {
    DistinctIds(best) && Dominates(best, hits) && DrawnFrom(best, hits) && InOrder(best, hits)
  }

  lemma {:induction false} PositionConcat(a: seq<Hit>, b: seq<Hit>, id: ChunkId)
    ensures Position(a + b, id) == if Position(a, id) < |a| then Position(a, id) else |a| + Position(b, id)
  {
    if a == [] {
      assert a + b == b;
    } else {
      assert (a + b)[1..] == a[1..] + b;
      PositionConcat(a[1..], b, id);
    }
  }

  lemma PositionOf(hits: seq<Hit>, h: Hit)
    requires h in hits
    ensures Position(hits, h.id) < |hits|
  {
  }

  lemma PositionUnique(best: seq<Hit>, i: nat)
    requires DistinctIds(best) && i < |best|
    ensures Position(best, best[i].id) == i
  {
    var p := Position(best, best[i].id);
    assert p <= i;
  }

  lemma BetterKeeps(best: seq<Hit>, hit: Hit, h: Hit)
    requires DistinctIds(best) && Beats(best, h)
    ensures Beats(Better(best, hit), h)
  {
    PositionUnique(Better(best, hit), Position(best, h.id));
  }

  lemma BetterDistinct(best: seq<Hit>, hit: Hit)
    requires DistinctIds(best)
    ensures DistinctIds(Better(best, hit)) && Beats(Better(best, hit), hit)
  {
    PositionUnique(Better(best, hit), Position(best, hit.id));
  }

  /** A better hit takes the place of the old one; a new chunk goes to the end. */
  lemma BetterIds(best: seq<Hit>, hit: Hit)
    ensures var next := Better(best, hit);
      && (forall i :: 0 <= i < |best| ==> i < |next| && next[i].id == best[i].id)
      && (Position(best, hit.id) < |best| ==> |next| == |best|)
      && (Position(best, hit.id) == |best| ==> next == best + [hit])
  {
  }

  lemma BetterInOrder(best: seq<Hit>, seen: seq<Hit>, hit: Hit)
    requires DistinctIds(best) && Dominates(best, seen) && DrawnFrom(best, seen) && InOrder(best, seen)
    ensures InOrder(Better(best, hit), seen + [hit])
  {
    BetterIds(best, hit);
    hide Better, Position;
    forall i | 0 <= i < |best|
      ensures Position(seen + [hit], best[i].id) == Position(seen, best[i].id) < |seen|
    {
      PositionOf(seen, best[i]);
      PositionConcat(seen, [hit], best[i].id);
    }
    PositionConcat(seen, [hit], hit.id);
    var p := Position(seen, hit.id);
    assert p < |seen| ==> Beats(best, seen[p]);
  }

  lemma BetterFacts(best: seq<Hit>, seen: seq<Hit>, hit: Hit)
    requires BestOf(best, seen)
    ensures BestOf(Better(best, hit), seen + [hit])
  {
    hide InOrder, DistinctIds;
    var next, all := Better(best, hit), seen + [hit];
    BetterDistinct(best, hit);
    BetterInOrder(best, seen, hit);
    forall k | 0 <= k < |all| ensures Beats(next, all[k]) {
      if k < |seen| {
        assert Beats(best, seen[k]);
        BetterKeeps(best, hit, seen[k]);
      }
    }
    forall i | 0 <= i < |next| ensures next[i] in all {
      assert next[i] == hit || next[i] == best[i];
      assert all[|seen|] == hit;
    }
  }

  lemma {:induction false} DedupeFromFacts(best: seq<Hit>, seen: seq<Hit>, hits: seq<Hit>, all: seq<Hit>)
    requires BestOf(best, seen) && all == seen + hits
    ensures BestOf(DedupeFrom(best, hits), all)
    decreases |hits|
  {
    if hits == [] {
      assert all == seen;
    } else {
      BetterFacts(best, seen, hits[0]);
      assert all == seen + [hits[0]] + hits[1..];
      DedupeFromFacts(Better(best, hits[0]), seen + [hits[0]], hits[1..], all);
    }
  }

  function Dedupe(hits: seq<Hit>): seq<Hit>
  {
    DedupeFrom([], hits)
  }

  /** Every hit chunk appears once, in order of first hits, with a hit of the list that no other of its chunk beats. */
  lemma DedupeFacts(hits: seq<Hit>)
    ensures BestOf(Dedupe(hits), hits)
  {
    DedupeFromFacts([], [], hits, hits);
  }

  lemma {:induction false} DedupeFromAppend(best: seq<Hit>, a: seq<Hit>, b: seq<Hit>)
    ensures DedupeFrom(best, a + b) == DedupeFrom(DedupeFrom(best, a), b)
    decreases |a|
  {
    if a == [] {
      assert a + b == b;
    } else {
      assert (a + b)[1..] == a[1..] + b;
      DedupeFromAppend(Better(best, a[0]), a[1..], b);
    }
  }

  lemma {:induction false} DominatedAddNothing(best: seq<Hit>, hits: seq<Hit>)
    requires Dominates(best, hits)
    ensures DedupeFrom(best, hits) == best
    decreases |hits|
  {
    if hits != [] {
      assert Beats(best, hits[0]);
      DominatedAddNothing(best, hits[1..]);
    }
  }

  // ---------------------------------------------------------------- groups

  datatype Group = Group(doc: DocId, hits: seq<Hit>)

  function GroupAt(groups: seq<Group>, doc: DocId): (i: nat)
    ensures i <= |groups|
    ensures i < |groups| ==> groups[i].doc == doc
    ensures forall j :: 0 <= j < i ==> groups[j].doc != doc
  {
    if groups == [] || groups[0].doc == doc then 0 else 1 + GroupAt(groups[1..], doc)
  }

  /** `grouped.setdefault(document_id, []).append(hit)`, or nothing for an unknown chunk. */
  function AddToGroups(groups: seq<Group>, hit: Hit, docOf: map<ChunkId, DocId>): seq<Group>
  {
    if hit.id !in docOf then groups
    else
      var i := GroupAt(groups, docOf[hit.id]);
      if i == |groups| then groups + [Group(docOf[hit.id], [hit])]
      else groups[i := Group(groups[i].doc, groups[i].hits + [hit])]
  }

  function GroupAll(best: seq<Hit>, docOf: map<ChunkId, DocId>): seq<Group>
  {
    if best == [] then [] else AddToGroups(GroupAll(Front(best), docOf), Last(best), docOf)
  }

  predicate Of(hit: Hit, doc: DocId, docOf: map<ChunkId, DocId>)
  {
    hit.id in docOf && docOf[hit.id] == doc
  }

  /** The hits of one document, in order. */
  function HitsOf(best: seq<Hit>, doc: DocId, docOf: map<ChunkId, DocId>): seq<Hit>
  {
    if best == [] then []
    else HitsOf(Front(best), doc, docOf) + if Of(Last(best), doc, docOf) then [Last(best)] else []
  }

  /** Groups are exactly the documents with a hit, once each, each with all its hits in order. */
  predicate GroupsOk(groups: seq<Group>, best: seq<Hit>, docOf: map<ChunkId, DocId>)
  {
    && (forall i, j :: 0 <= i < j < |groups| ==> groups[i].doc != groups[j].doc)
    && (forall i :: 0 <= i < |groups| ==> groups[i].hits == HitsOf(best, groups[i].doc, docOf) && groups[i].hits != [])
  }

  ghost predicate AllGrouped(groups: seq<Group>, best: seq<Hit>, docOf: map<ChunkId, DocId>)
  {
    forall doc :: HitsOf(best, doc, docOf) != [] ==> GroupAt(groups, doc) < |groups|
  }

  lemma {:induction false} GroupAllFacts(best: seq<Hit>, docOf: map<ChunkId, DocId>)
    ensures GroupsOk(GroupAll(best, docOf), best, docOf) && AllGrouped(GroupAll(best, docOf), best, docOf)
  {
    if best != [] {
      GroupAllFacts(Front(best), docOf);
      AddToGroupsFacts(GroupAll(Front(best), docOf), best, docOf);
    }
  }

  lemma AddToGroupsFacts(groups: seq<Group>, best: seq<Hit>, docOf: map<ChunkId, DocId>)
    requires best != [] && GroupsOk(groups, Front(best), docOf) && AllGrouped(groups, Front(best), docOf)
    ensures GroupsOk(AddToGroups(groups, Last(best), docOf), best, docOf)
    ensures AllGrouped(AddToGroups(groups, Last(best), docOf), best, docOf)
  {
    hide GroupsOk, AllGrouped, AddToGroups, HitsOf;
    AddKeepsAll(groups, best, docOf);
    var hit := Last(best);
    if hit.id in docOf && GroupAt(groups, docOf[hit.id]) == |groups| {
      UngroupedHasNone(groups, Front(best), docOf, docOf[hit.id]);
    }
    AddKeepsOk(groups, best, docOf);
  }

  lemma AddKeepsOk(groups: seq<Group>, best: seq<Hit>, docOf: map<ChunkId, DocId>)
    requires best != [] && GroupsOk(groups, Front(best), docOf)
    requires var hit := Last(best);
      hit.id in docOf && GroupAt(groups, docOf[hit.id]) == |groups| ==> HitsOf(Front(best), docOf[hit.id], docOf) == []
    ensures GroupsOk(AddToGroups(groups, Last(best), docOf), best, docOf)
  {
  }

  lemma UngroupedHasNone(groups: seq<Group>, best: seq<Hit>, docOf: map<ChunkId, DocId>, doc: DocId)
    requires AllGrouped(groups, best, docOf) && GroupAt(groups, doc) == |groups|
    ensures HitsOf(best, doc, docOf) == []
  {
  }

  lemma AddKeepsAll(groups: seq<Group>, best: seq<Hit>, docOf: map<ChunkId, DocId>)
    requires best != [] && AllGrouped(groups, Front(best), docOf)
    ensures AllGrouped(AddToGroups(groups, Last(best), docOf), best, docOf)
  {
    var hit, next := Last(best), AddToGroups(groups, Last(best), docOf);
    forall d | HitsOf(best, d, docOf) != [] ensures GroupAt(next, d) < |next| {
      var k := GroupAt(groups, d);
      assert k < |next| && next[k].doc == d;
    }
  }

  /** Documents stand in the order in which their first chunk does. */
  predicate GroupsInOrder(groups: seq<Group>, best: seq<Hit>)
    requires forall i :: 0 <= i < |groups| ==> groups[i].hits != []
  {
    forall i, j :: 0 <= i < j < |groups| ==>
      Position(best, groups[i].hits[0].id) < Position(best, groups[j].hits[0].id)
  }

  lemma {:induction false} GroupAllInOrder(best: seq<Hit>, docOf: map<ChunkId, DocId>)
    requires DistinctIds(best)
    ensures GroupsOk(GroupAll(best, docOf), best, docOf) && GroupsInOrder(GroupAll(best, docOf), best)
  {
    GroupAllFacts(best, docOf);
    if best != [] {
      GroupAllInOrder(Front(best), docOf);
      GroupAllFacts(Front(best), docOf);
      AddInOrder(GroupAll(Front(best), docOf), best, docOf);
    }
  }

  lemma AddInOrder(groups: seq<Group>, best: seq<Hit>, docOf: map<ChunkId, DocId>)
    requires best != [] && DistinctIds(best) && GroupsOk(groups, Front(best), docOf) && GroupsInOrder(groups, Front(best))
    ensures var next := AddToGroups(groups, Last(best), docOf);
      (forall i :: 0 <= i < |next| ==> next[i].hits != []) && GroupsInOrder(next, best)
  {
    var next := AddToGroups(groups, Last(best), docOf);
    assert best == Front(best) + [Last(best)];
    forall i | 0 <= i < |groups|
      ensures next[i].hits != [] && next[i].hits[0] == groups[i].hits[0]
      ensures Position(best, groups[i].hits[0].id) == Position(Front(best), groups[i].hits[0].id) < |best| - 1
    {
      var h := groups[i].hits[0];
      HitsOfMembers(Front(best), groups[i].doc, docOf);
      assert h in groups[i].hits;
      PositionOf(Front(best), h);
      PositionConcat(Front(best), [Last(best)], h.id);
    }
    PositionUnique(best, |best| - 1);
  }

  lemma {:induction false} HitsOfMembers(best: seq<Hit>, doc: DocId, docOf: map<ChunkId, DocId>)
    ensures forall h :: h in HitsOf(best, doc, docOf) <==> h in best && Of(h, doc, docOf)
  {
    if best != [] {
      HitsOfMembers(Front(best), doc, docOf);
      assert best == Front(best) + [Last(best)];
    }
  }

  // ---------------------------------------------------------------- stable descending sort

  /** Inserts behind everything whose key is at least as high. */
  function Insert<T>(sorted: seq<T>, x: T, key: T -> real): seq<T>
    decreases |sorted|
  {
    if sorted == [] then [x]
    else if key(Last(sorted)) >= key(x) then sorted + [x]
    else Insert(Front(sorted), x, key) + [Last(sorted)]
  }

  /** `sorted(xs, key=key, reverse=True)`. */
  function SortBy<T>(xs: seq<T>, key: T -> real): seq<T>
    decreases |xs|
  {
    if xs == [] then [] else Insert(SortBy(Front(xs), key), Last(xs), key)
  }

  predicate DescendingBy<T>(xs: seq<T>, key: T -> real)
  {
    forall i, j :: 0 <= i < j < |xs| ==> key(xs[i]) >= key(xs[j])
  }

  /** The elements of one key, in order. */
  function WithKey<T>(xs: seq<T>, key: T -> real, v: real): seq<T>
    decreases |xs|
  {
    if xs == [] then []
    else WithKey(Front(xs), key, v) + if key(Last(xs)) == v then [Last(xs)] else []
  }

  lemma {:induction false} InsertPermutes<T>(sorted: seq<T>, x: T, key: T -> real)
    ensures multiset(Insert(sorted, x, key)) == multiset(sorted) + multiset{x}
    decreases |sorted|
  {
    if sorted != [] {
      assert sorted == Front(sorted) + [Last(sorted)];
      InsertPermutes(Front(sorted), x, key);
    }
  }

  lemma {:induction false} InsertDescends<T>(sorted: seq<T>, x: T, key: T -> real, bound: real)
    requires DescendingBy(sorted, key)
    requires key(x) >= bound && forall i :: 0 <= i < |sorted| ==> key(sorted[i]) >= bound
    ensures DescendingBy(Insert(sorted, x, key), key)
    ensures forall i :: 0 <= i < |Insert(sorted, x, key)| ==> key(Insert(sorted, x, key)[i]) >= bound
    decreases |sorted|
  {
    if sorted != [] && key(Last(sorted)) < key(x) {
      InsertDescends(Front(sorted), x, key, key(Last(sorted)));
    }
  }

  lemma {:induction false} InsertIsStable<T>(sorted: seq<T>, x: T, key: T -> real, v: real)
    ensures WithKey(Insert(sorted, x, key), key, v) ==
            WithKey(sorted, key, v) + if key(x) == v then [x] else []
    decreases |sorted|
  {
    if sorted == [] {
      assert Front([x]) == [];
    } else if key(Last(sorted)) >= key(x) {
      assert Front(sorted + [x]) == sorted;
    } else {
      InsertIsStable(Front(sorted), x, key, v);
      var r := Insert(Front(sorted), x, key);
      assert Front(r + [Last(sorted)]) == r;
    }
  }

  ghost function LowerBound<T>(sorted: seq<T>, x: T, key: T -> real): (b: real)
    requires DescendingBy(sorted, key)
    ensures key(x) >= b && forall i :: 0 <= i < |sorted| ==> key(sorted[i]) >= b
  {
    if sorted == [] || key(Last(sorted)) >= key(x) then key(x) else key(Last(sorted))
  }

  lemma NothingDescends<T>(key: T -> real)
    ensures DescendingBy([], key)
  {
  }

  /** Sorting is a stable descending permutation: equal keys keep their original order. */
  lemma {:induction false} SortByFacts<T>(xs: seq<T>, key: T -> real)
    ensures DescendingBy(SortBy(xs, key), key) && multiset(SortBy(xs, key)) == multiset(xs)
    ensures forall v :: WithKey(SortBy(xs, key), key, v) == WithKey(xs, key, v)
    decreases |xs|
  {
    hide Insert, DescendingBy;
    if xs == [] {
      NothingDescends(key);
    } else {
      var before := SortBy(Front(xs), key);
      SortByFacts(Front(xs), key);
      InsertPermutes(before, Last(xs), key);
      InsertDescends(before, Last(xs), key, LowerBound(before, Last(xs), key));
      assert xs == Front(xs) + [Last(xs)];
      forall v ensures WithKey(SortBy(xs, key), key, v) == WithKey(xs, key, v) {
        InsertIsStable(before, Last(xs), key, v);
      }
    }
  }

  predicate Rising<T>(xs: seq<T>, rank: T -> int)
  {
    forall i, j :: 0 <= i < j < |xs| ==> rank(xs[i]) < rank(xs[j])
  }

  /** Of two with the same key the one of lower rank comes first. */
  predicate TiesInOrder<T>(xs: seq<T>, key: T -> real, rank: T -> int)
  {
    forall i, j :: 0 <= i < j < |xs| && key(xs[i]) == key(xs[j]) ==> rank(xs[i]) < rank(xs[j])
  }

  lemma InsertMembers<T>(sorted: seq<T>, x: T, key: T -> real, i: nat)
    requires i < |Insert(sorted, x, key)|
    ensures Insert(sorted, x, key)[i] == x || Insert(sorted, x, key)[i] in sorted
  {
    InsertPermutes(sorted, x, key);
    assert Insert(sorted, x, key)[i] in multiset(Insert(sorted, x, key));
  }

  lemma {:induction false} InsertTies<T>(sorted: seq<T>, x: T, key: T -> real, rank: T -> int)
    requires TiesInOrder(sorted, key, rank) && forall i :: 0 <= i < |sorted| ==> rank(sorted[i]) < rank(x)
    ensures TiesInOrder(Insert(sorted, x, key), key, rank)
    decreases |sorted|
  {
    if sorted != [] && key(Last(sorted)) < key(x) {
      InsertTies(Front(sorted), x, key, rank);
      var r := Insert(Front(sorted), x, key);
      forall i | 0 <= i < |r| && key(r[i]) == key(Last(sorted)) ensures rank(r[i]) < rank(Last(sorted)) {
        InsertMembers(Front(sorted), x, key, i);
      }
    }
  }

  /** Sorting what is in the order of a rank leaves ties in that order. */
  lemma {:induction false} SortTies<T>(xs: seq<T>, key: T -> real, rank: T -> int)
    requires Rising(xs, rank)
    ensures TiesInOrder(SortBy(xs, key), key, rank)
    decreases |xs|
  {
    if xs != [] {
      var before := SortBy(Front(xs), key);
      SortTies(Front(xs), key, rank);
      SortByFacts(Front(xs), key);
      forall i | 0 <= i < |before| ensures rank(before[i]) < rank(Last(xs)) {
        assert before[i] in multiset(before);
        assert before[i] in Front(xs);
      }
      InsertTies(before, Last(xs), key, rank);
    }
  }

  function Score(h: Hit): real
  {
    h.score
  }

  function MaxOf(m: Match): real
  {
    m.max
  }

  // ---------------------------------------------------------------- aggregation

  function Total(hits: seq<Hit>): real
  {
    if hits == [] then 0.0 else Total(Front(hits)) + Last(hits).score
  }

  function Average(hits: seq<Hit>): real
    requires hits != []
  {
    Total(hits) / |hits| as real
  }

  /** `Total` is the sum: the score of one hit, and additive. */
  lemma {:induction false} TotalIsSum(a: seq<Hit>, b: seq<Hit>, h: Hit)
    ensures Total(a + b) == Total(a) + Total(b) && Total([h]) == h.score
    decreases |b|
  {
    assert Front([h]) == [];
    if b == [] {
      assert a + b == a;
    } else {
      assert Front(a + b) == a + Front(b);
      TotalIsSum(a, Front(b), h);
    }
  }

  lemma {:induction false} TotalBounded(hits: seq<Hit>, low: real, high: real)
    requires forall i :: 0 <= i < |hits| ==> low <= hits[i].score <= high
    ensures low * |hits| as real <= Total(hits) <= high * |hits| as real
  {
    if hits != [] {
      TotalBounded(Front(hits), low, high);
      var n := |Front(hits)| as real;
      assert |hits| as real == n + 1.0;
      assert low * (n + 1.0) == low * n + low && high * (n + 1.0) == high * n + high;
    }
  }

  lemma Quotient(low: real, t: real, high: real, n: real)
    requires n > 0.0 && low * n <= t <= high * n
    ensures low <= t / n <= high
  {
    var q := t / n;
    assert q * n == t;
    assert (q - low) * n >= 0.0 && (high - q) * n >= 0.0;
  }

  /** The average lies between the lowest and the highest score. */
  lemma AverageBounded(hits: seq<Hit>)
    requires hits != [] && DescendingBy(hits, Score)
    ensures Last(hits).score <= Average(hits) <= hits[0].score
  {
    hide Total;
    BestAndWorst(hits);
    TotalBounded(hits, Last(hits).score, hits[0].score);
    hide DescendingBy;
    Quotient(Last(hits).score, Total(hits), hits[0].score, |hits| as real);
  }

  lemma BestAndWorst(hits: seq<Hit>)
    requires hits != [] && DescendingBy(hits, Score)
    ensures forall i :: 0 <= i < |hits| ==> Last(hits).score <= hits[i].score <= hits[0].score
  {
    forall i | 0 <= i < |hits| ensures Last(hits).score <= hits[i].score <= hits[0].score {
      assert Score(hits[0]) == hits[0].score && Score(Last(hits)) == Last(hits).score;
    }
  }

  function MaxScore(hits: seq<Hit>): real
    requires hits != []
  {
    if |hits| == 1 then hits[0].score
    else if Last(hits).score > MaxScore(Front(hits)) then Last(hits).score else MaxScore(Front(hits))
  }

  lemma {:induction false} MaxScoreOfDescending(hits: seq<Hit>)
    requires hits != [] && DescendingBy(hits, Score)
    ensures MaxScore(hits) == hits[0].score
  {
    if |hits| > 1 {
      MaxScoreOfDescending(Front(hits));
    }
  }

  /** `_build_match_result`. */
  function BuildMatch(group: Group): Match
    requires group.hits != []
  {
    var ordered := SortBy(group.hits, Score);
    SortByFacts(group.hits, Score);
    assert group.hits[0] in multiset(ordered);
    Match(group.doc, ordered, Average(ordered), MaxScore(ordered), ordered[0])
  }

  function BuildAll(groups: seq<Group>): (ms: seq<Match>)
    requires forall i :: 0 <= i < |groups| ==> groups[i].hits != []
  {
    seq(|groups|, i requires 0 <= i < |groups| => BuildMatch(groups[i]))
  }

  function AggregateHits(hits: seq<Hit>, docOf: map<ChunkId, DocId>): seq<Match>
  {
    var best := Dedupe(hits);
    GroupAllFacts(best, docOf);
    SortBy(BuildAll(GroupAll(best, docOf)), MaxOf)
  }

  lemma NoHitsNoMatches(docOf: map<ChunkId, DocId>)
    ensures AggregateHits([], docOf) == []
  {
  }

  class ResultAggregator {
    var chunks: map<ChunkId, Chunk>

    constructor (chunks: map<ChunkId, Chunk>)
      ensures this.chunks == chunks
    {
      this.chunks := chunks;
    }

    /** `aggregate`. */
    method Aggregate(hits: seq<Hit>) returns (results: seq<Match>)
      ensures results == AggregateHits(hits, map c | c in chunks :: chunks[c].doc)
    {
      if hits == [] {
        return [];
      }
      var best := DedupeBestPerChunk(hits);
      var docOf := map c | c in chunks :: chunks[c].doc;
      var grouped: seq<Group> := [];
      for i := 0 to |best|
        invariant grouped == GroupAll(best[..i], docOf)
      {
        assert Front(best[..i + 1]) == best[..i];
        if best[i].id in docOf {
          grouped := AddToGroups(grouped, best[i], docOf);
        }
      }
      assert best[..|best|] == best;
      GroupAllFacts(best, docOf);
      results := SortBy(BuildAll(grouped), MaxOf);
    }

    method DedupeBestPerChunk(hits: seq<Hit>) returns (best: seq<Hit>)
      ensures best == Dedupe(hits)
    {
      best := [];
      assert hits[0..] == hits;
      for i := 0 to |hits|
        invariant Dedupe(hits) == DedupeFrom(best, hits[i..])
      {
        assert hits[i..][1..] == hits[i + 1..];
        var current := Position(best, hits[i].id);
        if current == |best| {
          best := best + [hits[i]];
        } else if hits[i].score > best[current].score {
          best := best[current := hits[i]];
        }
      }
    }
  }

  /** Every chunk of the document that was hit, once, at the maximum of its scores, and nothing else. */
  ghost predicate CoversHits(found: seq<Hit>, hits: seq<Hit>, doc: DocId, docOf: map<ChunkId, DocId>)
  {
    && DistinctIds(found)
    && (forall h :: h in found ==> h in hits && Of(h, doc, docOf))
    && (forall h :: h in hits && Of(h, doc, docOf) ==>
          exists i :: 0 <= i < |found| && found[i].id == h.id && found[i].score >= h.score)
  }

  /** Best score first; of equal scores the chunk that was hit first. */
  predicate Ordered(found: seq<Hit>, hits: seq<Hit>)
  {
    && DescendingBy(found, Score)
    && forall i, j :: 0 <= i < j < |found| && found[i].score == found[j].score ==>
         Position(hits, found[i].id) < Position(hits, found[j].id)
  }

  /** No hit of the document scores higher. */
  predicate TopsAll(top: real, hits: seq<Hit>, doc: DocId, docOf: map<ChunkId, DocId>)
  {
    forall h :: h in hits && Of(h, doc, docOf) ==> h.score <= top
  }

  /** A match as the specification sees it: all of one document's chunks hit, each at its maximum. */
  ghost predicate MatchOk(m: Match, hits: seq<Hit>, docOf: map<ChunkId, DocId>)
  {
    && m.hits != [] && CoversHits(m.hits, hits, m.doc, docOf) && Ordered(m.hits, hits)
    && m.best == m.hits[0] && m.max == m.best.score && TopsAll(m.max, hits, m.doc, docOf)
    && m.average == Average(m.hits) && Last(m.hits).score <= m.average <= m.max
  }

  /** Position of the first hit of a document, or the length. */
  function FirstOf(hits: seq<Hit>, doc: DocId, docOf: map<ChunkId, DocId>): (i: nat)
    ensures i <= |hits|
    ensures i < |hits| ==> Of(hits[i], doc, docOf)
    ensures forall j :: 0 <= j < i ==> !Of(hits[j], doc, docOf)
  {
    if hits == [] || Of(hits[0], doc, docOf) then 0 else 1 + FirstOf(hits[1..], doc, docOf)
  }

  lemma {:induction false} HitsOfInOrder(best: seq<Hit>, hits: seq<Hit>, doc: DocId, docOf: map<ChunkId, DocId>)
    requires InOrder(best, hits)
    ensures InOrder(HitsOf(best, doc, docOf), hits)
  {
    if best != [] {
      HitsOfInOrder(Front(best), hits, doc, docOf);
      HitsOfMembers(Front(best), doc, docOf);
      var before := HitsOf(Front(best), doc, docOf);
      forall i | 0 <= i < |before| ensures Position(hits, before[i].id) < Position(hits, Last(best).id) {
        assert before[i] in Front(best);
      }
    }
  }

  /** The first chunk of a document among the best hits is the one hit first. */
  lemma FirstOfGroup(hits: seq<Hit>, doc: DocId, docOf: map<ChunkId, DocId>)
    requires HitsOf(Dedupe(hits), doc, docOf) != []
    ensures FirstOf(hits, doc, docOf) == Position(hits, HitsOf(Dedupe(hits), doc, docOf)[0].id)
  {
    hide Dedupe;
    var best, mine := Dedupe(hits), HitsOf(Dedupe(hits), doc, docOf);
    DedupeFacts(hits);
    HitsOfMembers(best, doc, docOf);
    HitsOfInOrder(best, hits, doc, docOf);
    assert mine[0] in mine;
    var p, k := Position(hits, mine[0].id), FirstOf(hits, doc, docOf);
    PositionOf(hits, mine[0]);
    assert Of(hits[p], doc, docOf);
    assert Beats(best, hits[k]);
    var b := best[Position(best, hits[k].id)];
    assert b in best;
    assert b in mine;
    var i :| 0 <= i < |mine| && mine[i] == b;
    assert Position(hits, b.id) <= k;
  }

  lemma MultisetMembers<T>(a: seq<T>, b: seq<T>)
    requires multiset(a) == multiset(b)
    ensures forall x :: x in a <==> x in b
    ensures |a| == |b|
  {
    forall x ensures x in a <==> x in b {
      assert x in multiset(a) <==> x in a;
      assert x in multiset(b) <==> x in b;
    }
    assert |multiset(a)| == |multiset(b)|;
  }

  lemma {:induction false} HitsOfDistinct(best: seq<Hit>, doc: DocId, docOf: map<ChunkId, DocId>)
    requires DistinctIds(best)
    ensures DistinctIds(HitsOf(best, doc, docOf))
  {
    if best != [] {
      HitsOfDistinct(Front(best), doc, docOf);
      HitsOfMembers(Front(best), doc, docOf);
      var before := HitsOf(Front(best), doc, docOf);
      forall i | 0 <= i < |before| ensures before[i].id != Last(best).id {
        assert before[i] in Front(best);
      }
    }
  }

  lemma Twice<T>(s: seq<T>, i: nat, j: nat)
    requires i < j < |s| && s[i] == s[j]
    ensures multiset(s)[s[i]] >= 2
  {
    assert s == s[..i] + [s[i]] + s[i + 1..j] + [s[j]] + s[j + 1..];
  }

  lemma Once<T>(s: seq<T>, k: nat)
    requires k < |s| && forall j :: 0 <= j < |s| && j != k ==> s[j] != s[k]
    ensures multiset(s)[s[k]] == 1
  {
    assert s == s[..k] + [s[k]] + s[k + 1..];
    assert s[k] !in s[..k] && s[k] !in s[k + 1..];
  }

  /** Two positions of a permutation cannot hold the same element if the original repeats none. */
  lemma PermutedApart<T>(a: seq<T>, b: seq<T>, i: nat, j: nat)
    requires multiset(a) == multiset(b) && i < j < |b|
    requires forall k, l :: 0 <= k < l < |a| ==> a[k] != a[l]
    ensures b[i] != b[j] && b[i] in a && b[j] in a
  {
    MultisetMembers(a, b);
    assert b[i] in a && b[j] in a;
    var k :| 0 <= k < |a| && a[k] == b[i];
    Once(a, k);
    if b[i] == b[j] {
      Twice(b, i, j);
    }
  }

  /** Distinct ids survive reordering. */
  lemma DistinctPermuted(a: seq<Hit>, b: seq<Hit>)
    requires DistinctIds(a) && multiset(a) == multiset(b)
    ensures DistinctIds(b)
  {
    forall i, j | 0 <= i < j < |b| ensures b[i].id != b[j].id {
      PermutedApart(a, b, i, j);
      var k :| 0 <= k < |a| && a[k] == b[i];
      var l :| 0 <= l < |a| && a[l] == b[j];
      assert k != l;
    }
  }

  /** Groups stand in the order in which their documents were first hit. */
  predicate FirstHitsRise(groups: seq<Group>, hits: seq<Hit>, docOf: map<ChunkId, DocId>)
  {
    forall i, j :: 0 <= i < j < |groups| ==>
      FirstOf(hits, groups[i].doc, docOf) < FirstOf(hits, groups[j].doc, docOf)
  }

  lemma GroupsRise(hits: seq<Hit>, docOf: map<ChunkId, DocId>)
    ensures FirstHitsRise(GroupAll(Dedupe(hits), docOf), hits, docOf)
  {
    hide Dedupe, GroupAll, FirstOf;
    var best, groups := Dedupe(hits), GroupAll(Dedupe(hits), docOf);
    DedupeFacts(hits);
    GroupAllInOrder(best, docOf);
    forall i, j | 0 <= i < j < |groups|
      ensures FirstOf(hits, groups[i].doc, docOf) < FirstOf(hits, groups[j].doc, docOf)
    {
      FirstOfGroup(hits, groups[i].doc, docOf);
      FirstOfGroup(hits, groups[j].doc, docOf);
      var a, b := groups[i].hits[0], groups[j].hits[0];
      HitsOfMembers(best, groups[i].doc, docOf);
      HitsOfMembers(best, groups[j].doc, docOf);
      assert a in groups[i].hits && b in groups[j].hits;
      var p, q := Position(best, a.id), Position(best, b.id);
      PositionOf(best, b);
      assert best[p].id == a.id && best[q].id == b.id;
    }
  }

  lemma TiesInMatch(group: Group, hits: seq<Hit>, docOf: map<ChunkId, DocId>)
    requires group.hits == HitsOf(Dedupe(hits), group.doc, docOf)
    ensures Ordered(SortBy(group.hits, Score), hits)
  {
    hide Dedupe, Position, SortBy;
    DedupeFacts(hits);
    SortByFacts(group.hits, Score);
    HitsOfInOrder(Dedupe(hits), hits, group.doc, docOf);
    var rank := (h: Hit) => Position(hits, h.id);
    assert Rising(group.hits, rank);
    SortTies(group.hits, Score, rank);
    var ordered := SortBy(group.hits, Score);
    forall i, j | 0 <= i < j < |ordered| && ordered[i].score == ordered[j].score
      ensures Position(hits, ordered[i].id) < Position(hits, ordered[j].id)
    {
      assert Score(ordered[i]) == Score(ordered[j]);
      assert rank(ordered[i]) < rank(ordered[j]);
    }
  }

  lemma TiesInResult(hits: seq<Hit>, docOf: map<ChunkId, DocId>)
    ensures var ms := AggregateHits(hits, docOf);
      forall i, j :: 0 <= i < j < |ms| && ms[i].max == ms[j].max ==>
        FirstOf(hits, ms[i].doc, docOf) < FirstOf(hits, ms[j].doc, docOf)
  {
    hide SortBy, BuildMatch;
    var groups := GroupAll(Dedupe(hits), docOf);
    GroupAllFacts(Dedupe(hits), docOf);
    GroupsRise(hits, docOf);
    var built, rank := BuildAll(groups), (m: Match) => FirstOf(hits, m.doc, docOf);
    BuiltFacts(hits, docOf, groups);
    forall i, j | 0 <= i < j < |built| ensures rank(built[i]) < rank(built[j]) {
      assert built[i].doc == groups[i].doc && built[j].doc == groups[j].doc;
    }
    SortTies(built, MaxOf, rank);
    var ms := AggregateHits(hits, docOf);
    forall i, j | 0 <= i < j < |ms| && ms[i].max == ms[j].max
      ensures FirstOf(hits, ms[i].doc, docOf) < FirstOf(hits, ms[j].doc, docOf)
    {
      assert MaxOf(ms[i]) == MaxOf(ms[j]);
      assert rank(ms[i]) < rank(ms[j]);
    }
  }

  /** Of every chunk of a document that was hit a hit at least as good is kept. */
  lemma HitKept(best: seq<Hit>, hits: seq<Hit>, doc: DocId, docOf: map<ChunkId, DocId>, h: Hit)
    requires Dominates(best, hits) && h in hits && Of(h, doc, docOf)
    ensures exists b :: b in HitsOf(best, doc, docOf) && b.id == h.id && b.score >= h.score
  {
    HitsOfMembers(best, doc, docOf);
    var k :| 0 <= k < |hits| && hits[k] == h;
    assert Beats(best, hits[k]);
    var b := best[Position(best, h.id)];
    assert b in best && b in HitsOf(best, doc, docOf);
  }

  lemma SortedCovers(group: Group, hits: seq<Hit>, docOf: map<ChunkId, DocId>)
    requires group.hits == HitsOf(Dedupe(hits), group.doc, docOf)
    ensures CoversHits(SortBy(group.hits, Score), hits, group.doc, docOf)
    ensures |SortBy(group.hits, Score)| == |group.hits|
  {
    hide Dedupe, SortBy, DescendingBy, InOrder, HitsOf, DistinctIds, WithKey, Dominates, Of;
    var best, ordered := Dedupe(hits), SortBy(group.hits, Score);
    DedupeFacts(hits);
    HitsOfDistinct(best, group.doc, docOf);
    HitsOfMembers(best, group.doc, docOf);
    SortByFacts(group.hits, Score);
    MultisetMembers(ordered, group.hits);
    DistinctPermuted(group.hits, ordered);
    forall h | h in ordered ensures h in hits && Of(h, group.doc, docOf) {
      assert h in best;
    }
    forall h | h in hits && Of(h, group.doc, docOf)
      ensures exists i :: 0 <= i < |ordered| && ordered[i].id == h.id && ordered[i].score >= h.score
    {
      HitKept(best, hits, group.doc, docOf, h);
      var b :| b in group.hits && b.id == h.id && b.score >= h.score;
      assert b in ordered;
    }
  }

  lemma FirstTopsAll(found: seq<Hit>, hits: seq<Hit>, doc: DocId, docOf: map<ChunkId, DocId>)
    requires found != [] && DescendingBy(found, Score) && CoversHits(found, hits, doc, docOf)
    ensures TopsAll(found[0].score, hits, doc, docOf)
  {
    BestAndWorst(found);
    hide DescendingBy, DistinctIds;
  }

  lemma BuildMatchOk(group: Group, hits: seq<Hit>, docOf: map<ChunkId, DocId>)
    requires group.hits != [] && group.hits == HitsOf(Dedupe(hits), group.doc, docOf)
    ensures MatchOk(BuildMatch(group), hits, docOf) && BuildMatch(group).doc == group.doc
  {
    hide Dedupe, SortBy, Average, MaxScore, HitsOf, DescendingBy, CoversHits, TopsAll;
    var ordered := SortBy(group.hits, Score);
    SortedCovers(group, hits, docOf);
    TiesInMatch(group, hits, docOf);
    FirstTopsAll(ordered, hits, group.doc, docOf);
    MaxScoreOfDescending(ordered);
    AverageBounded(ordered);
  }

  /**
   Aggregation against its specification: matches sorted by best score, one per document
   that has a known chunk among the hits and for no other; each carries every such chunk
   once, at the maximum of its scores, sorted, and their average; unknown chunks vanish.  Of
   two with the same score, matches or hits, the one that was hit first comes first.
   */
  lemma AggregateSpec(hits: seq<Hit>, docOf: map<ChunkId, DocId>)
    ensures var ms := AggregateHits(hits, docOf);
      && DescendingBy(ms, MaxOf)
      && (forall i, j :: 0 <= i < j < |ms| ==> ms[i].doc != ms[j].doc)
      && (forall m :: m in ms ==> MatchOk(m, hits, docOf))
      && (forall h :: h in hits && h.id in docOf ==> exists m :: m in ms && m.doc == docOf[h.id])
      && (forall i, j :: 0 <= i < j < |ms| && ms[i].max == ms[j].max ==>
            FirstOf(hits, ms[i].doc, docOf) < FirstOf(hits, ms[j].doc, docOf))
  {
    TiesInResult(hits, docOf);
    hide SortBy, BuildAll, GroupAll, Dedupe, MatchOk, DescendingBy;
    var groups := GroupAll(Dedupe(hits), docOf);
    GroupAllFacts(Dedupe(hits), docOf);
    var built := BuildAll(groups);
    SortByFacts(built, MaxOf);
    var ms := AggregateHits(hits, docOf);
    MultisetMembers(ms, built);
    BuiltFacts(hits, docOf, groups);
    forall h | h in hits && h.id in docOf ensures exists m :: m in ms && m.doc == docOf[h.id] {
      KnownHitHasGroup(hits, docOf, h);
      var m := built[GroupAt(groups, docOf[h.id])];
      assert m in ms && m.doc == docOf[h.id];
    }
    DistinctDocs(built, ms);
  }

  lemma BuiltFacts(hits: seq<Hit>, docOf: map<ChunkId, DocId>, groups: seq<Group>)
    requires GroupsOk(groups, Dedupe(hits), docOf)
    ensures var built := BuildAll(groups);
      && |built| == |groups|
      && (forall k :: 0 <= k < |groups| ==> built[k].doc == groups[k].doc)
      && (forall i, j :: 0 <= i < j < |built| ==> built[i].doc != built[j].doc)
      && (forall m :: m in built ==> MatchOk(m, hits, docOf))
  {
    hide BuildMatch, MatchOk, Dedupe;
    var built := BuildAll(groups);
    forall k | 0 <= k < |groups| ensures built[k].doc == groups[k].doc && MatchOk(built[k], hits, docOf) {
      BuildMatchOk(groups[k], hits, docOf);
    }
  }

  lemma KnownHitHasGroup(hits: seq<Hit>, docOf: map<ChunkId, DocId>, h: Hit)
    requires h in hits && h.id in docOf
    ensures GroupAt(GroupAll(Dedupe(hits), docOf), docOf[h.id]) < |GroupAll(Dedupe(hits), docOf)|
  {
    var best := Dedupe(hits);
    DedupeFacts(hits);
    GroupAllFacts(best, docOf);
    var k :| 0 <= k < |hits| && hits[k] == h;
    assert Beats(best, hits[k]);
    var b := best[Position(best, h.id)];
    HitsOfMembers(best, docOf[h.id], docOf);
    assert b in HitsOf(best, docOf[h.id], docOf);
  }

  lemma DistinctDocs(built: seq<Match>, ms: seq<Match>)
    requires multiset(ms) == multiset(built)
    requires forall i, j :: 0 <= i < j < |built| ==> built[i].doc != built[j].doc
    ensures forall i, j :: 0 <= i < j < |ms| ==> ms[i].doc != ms[j].doc
  {
    forall i, j | 0 <= i < j < |ms| ensures ms[i].doc != ms[j].doc {
      PermutedApart(built, ms, i, j);
      var k :| 0 <= k < |built| && built[k] == ms[i];
      var l :| 0 <= l < |built| && built[l] == ms[j];
      assert k != l;
    }
  }

  /** Hits repeated by overlapping query segments change nothing. */
  lemma AggregateIdempotent(hits: seq<Hit>, docOf: map<ChunkId, DocId>)
    ensures AggregateHits(hits + hits, docOf) == AggregateHits(hits, docOf)
  {
    DedupeFacts(hits);
    DedupeFromAppend([], hits, hits);
    DominatedAddNothing(Dedupe(hits), hits);
  }
}
