/**
 Filter-first search: documents of the tenant with the detected language and topic give an
 allowlist of chunks, each query segment is searched within it, and the hits are aggregated.
 */
module Search {
  import opened Prelude
  import opened VectorIndex
  import opened Tokens
  import opened Stores
  import opened Aggregation
  import Chunker
  import Indexing

  datatype Language = Language(code: string, confidence: real)

  datatype Topic = Topic(domain: string, confidence: real)

  predicate Matches(d: Doc, tenant: string, language: Option<string>, topic: Option<string>)
  {
    && d.tenant == tenant
    && (language.Some? ==> d.language == language.value)
    && (topic.Some? ==> d.topic == topic.value)
  }

  /** `ids_matching`. */
  function IdsMatching(docs: map<DocId, Doc>, tenant: string, language: Option<string>, topic: Option<string>): set<DocId>
  {
    set d | d in docs && Matches(docs[d], tenant, language, topic)
  }

  /** The topic restricts only when the classifier is confident enough. */
  function EffectiveTopic(topic: Option<Topic>, threshold: real): Option<string>
  {
    if topic.Some? && topic.value.confidence >= threshold then Some(topic.value.domain) else None
  }

  function LanguageCode(language: Option<Language>): Option<string>
  {
    if language.Some? then Some(language.value.code) else None
  }

  /** `build_allowlist`: None is "unrestricted", the empty set is "match nothing". */
  function BuildAllowlist(docs: map<DocId, Doc>, chunks: map<ChunkId, Chunk>, tenant: string,
                          language: Option<Language>, topic: Option<Topic>, threshold: real): Option<set<ChunkId>>
  {
    if language.None? && topic.None? then None
    else
      var ids := IdsMatching(docs, tenant, LanguageCode(language), EffectiveTopic(topic, threshold));
      if ids == {} then Some({}) else Some(IdsForDocuments(chunks, ids))
  }

  /** The document is the tenant's, in the detected language, and on the topic if the classifier was confident. */
  predicate Fits(d: Doc, tenant: string, language: Option<Language>, topic: Option<Topic>, threshold: real)
  {
    && d.tenant == tenant
    && (language.Some? ==> d.language == language.value.code)
    && (topic.Some? && topic.value.confidence >= threshold ==> d.topic == topic.value.domain)
  }

  /**
   The allowlist holds exactly the chunks whose document row fits; in particular never a
   chunk whose document row was never written or is of another tenant.
   */
  lemma AllowlistExact(docs: map<DocId, Doc>, chunks: map<ChunkId, Chunk>, tenant: string,
                       language: Option<Language>, topic: Option<Topic>, threshold: real)
    ensures var allow := BuildAllowlist(docs, chunks, tenant, language, topic, threshold);
      && (allow.None? <==> language.None? && topic.None?)
      && (allow.Some? ==> forall c :: c in allow.value <==>
            c in chunks && chunks[c].doc in docs && Fits(docs[chunks[c].doc], tenant, language, topic, threshold))
  {
    var ids := IdsMatching(docs, tenant, LanguageCode(language), EffectiveTopic(topic, threshold));
    if ids == {} {
      forall d | d in docs ensures !Fits(docs[d], tenant, language, topic, threshold) {
        assert d !in ids;
      }
    }
  }

  /** What the vector index promises: at most `k` hits, all stored, all within the allowlist. */
  predicate HitsWithin(hits: seq<Hit>, vectors: map<ChunkId, Vec>, k: nat, allow: set<ChunkId>)
  {
    |hits| <= k && forall i :: 0 <= i < |hits| ==> hits[i].id in vectors && hits[i].id in allow
  }

  datatype Searcher = Searcher(search: (map<ChunkId, Vec>, Vec, nat, set<ChunkId>) -> seq<Hit>)
  {
    predicate Answers(vectors: map<ChunkId, Vec>, query: Vec, k: nat, allow: set<ChunkId>)
    {
      HitsWithin(search(vectors, query, k, allow), vectors, k, allow)
    }

    ghost predicate Valid()
    {
      forall vectors, query, k, allow :: Answers(vectors, query, k, allow)
    }
  }

  class SearchPipeline {
    const catalog: Indexing.Catalog
    const chunker: Chunker.HybridChunker
    const embedQuery: Text -> Vec
    const detect: Text -> Language
    const classify: Text -> Topic
    const threshold: real
    const searcher: Searcher
    const topK: nat

    constructor (catalog: Indexing.Catalog, chunker: Chunker.HybridChunker, embedQuery: Text -> Vec,
                 detect: Text -> Language, classify: Text -> Topic, threshold: real, searcher: Searcher, topK: nat)
      ensures this.catalog == catalog && this.chunker == chunker && this.detect == detect
      ensures this.classify == classify && this.threshold == threshold && this.searcher == searcher
      ensures this.embedQuery == embedQuery && this.topK == topK
    {
      this.catalog, this.chunker, this.embedQuery := catalog, chunker, embedQuery;
      this.detect, this.classify, this.threshold := detect, classify, threshold;
      this.searcher, this.topK := searcher, topK;
    }

    /**
     Filtered search is sound: in every reachable state of the stores each match is a
     document of the tenant with the detected language, and with the topic when that is
     confident, and its hits are chunk rows of that document.  Nothing matches when no
     document qualifies, or when the query has no tokens.  The matches are the aggregated
     hits of every segment of the query, each searched within the whole allowlist: what any
     segment finds is in the match of its document, and a match holds nothing else.
     */
    method Search(text: Text, tenant: string) returns (matches: seq<Match>)
      requires catalog.Valid() && chunker.Valid() && searcher.Valid()
      ensures exists segments :: Chunker.Segmented(chunker.cfg, text, segments)
                                 && matches == Answer(segments, text, tenant)
                                 && FindsAll(segments, QualifyingChunks(text, tenant), matches)
                                 && FindsOnly(segments, QualifyingChunks(text, tenant), matches)
      ensures forall m :: m in matches ==> MatchSound(m, text, tenant)
      ensures matches != [] ==> Count(text) > 0
      ensures (forall d :: d in catalog.docs ==> !Qualifies(catalog.docs[d], text, tenant)) ==> matches == []
      ensures forall i, j :: 0 <= i < j < |matches| ==> matches[i].doc != matches[j].doc
      ensures DescendingBy(matches, MaxOf)
    {
      hide AggregateHits, Answer, Qualifies, QualifyingChunks, HitsOfSegments, MatchSound, DescendingBy;
      hide Chunker.Segmented, Chunker.SpansChained, Tokenize, FindsAll, FindsOnly;
      var segments := RunChunker(text);
      AnswerSound(segments, text, tenant);
      AnswerFinds(segments, text, tenant);
      NothingToAnswer(text, tenant);
      if segments == [] {
        return [];
      }
      var allowlist := Allowlist(text, tenant);
      AnswerIs(segments, text, tenant);
      // a detected language makes the unrestricted case unreachable from here
      if |allowlist.value| == 0 {
        return [];
      }
      var allHits := SearchSegments(segments, allowlist.value);
      var aggregator := new ResultAggregator(catalog.chunks);
      matches := aggregator.Aggregate(allHits);
    }

    method RunChunker(text: Text) returns (segments: seq<Chunker.Segment>)
      requires chunker.Valid()
      ensures Chunker.Segmented(chunker.cfg, text, segments)
      ensures segments == [] <==> Count(text) == 0
    {
      segments := chunker.Chunk(text);
      Chunker.SpansCover(chunker.cfg, text, segments);
    }

    /** Detects, classifies and builds the allowlist: the chunks of qualifying documents. */
    method Allowlist(text: Text, tenant: string) returns (allow: Option<set<ChunkId>>)
      ensures allow == Some(QualifyingChunks(text, tenant))
    {
      var language := detect(text);
      var topic := classify(text);
      allow := BuildAllowlist(catalog.docs, catalog.chunks, tenant, Some(language), Some(topic), threshold);
      AllowlistExact(catalog.docs, catalog.chunks, tenant, Some(language), Some(topic), threshold);
      assert allow.value == QualifyingChunks(text, tenant);
    }

    /** The loop over the query segments. */
    method SearchSegments(segments: seq<Chunker.Segment>, allow: set<ChunkId>) returns (allHits: seq<Hit>)
      ensures allHits == HitsOfSegments(segments, allow)
    {
      allHits := [];
      for i := 0 to |segments|
        invariant allHits == HitsOfSegments(segments[..i], allow)
      {
        var queryVector := embedQuery(segments[i].text);
        var hits := searcher.search(catalog.vectors, queryVector, topK, allow);
        assert Front(segments[..i + 1]) == segments[..i];
        allHits := allHits + hits;
      }
      assert segments[..|segments|] == segments;
    }

    /** What the segments of a query find, segment by segment, within an allowlist. */
    function HitsOfSegments(segments: seq<Chunker.Segment>, allow: set<ChunkId>): seq<Hit>
      reads catalog
    {
      if segments == [] then []
      else HitsOfSegments(Front(segments), allow)
           + searcher.search(catalog.vectors, embedQuery(Last(segments).text), topK, allow)
    }

    /** The index returns this hit for this segment of the query, searched within these chunks. */
    predicate Found(segments: seq<Chunker.Segment>, k: nat, allow: set<ChunkId>, h: Hit)
      reads catalog
    {
      k < |segments| && h in searcher.search(catalog.vectors, embedQuery(segments[k].text), topK, allow)
    }

    /** The match of the hit's document has the hit's chunk, at no lower score. */
    ghost predicate Reported(h: Hit, matches: seq<Match>)
      reads catalog
    {
      && h.id in catalog.chunks
      && exists m, i ::
           && m in matches && m.doc == catalog.chunks[h.id].doc
           && 0 <= i < |m.hits| && m.hits[i].id == h.id && m.hits[i].score >= h.score
    }

    /** Whatever any segment finds is reported. */
    ghost predicate FindsAll(segments: seq<Chunker.Segment>, allow: set<ChunkId>, matches: seq<Match>)
      reads catalog
    {
      forall k: nat, h :: Found(segments, k, allow, h) ==> Reported(h, matches)
    }

    /** Whatever is reported some segment found. */
    ghost predicate FindsOnly(segments: seq<Chunker.Segment>, allow: set<ChunkId>, matches: seq<Match>)
      reads catalog
    {
      forall m, h :: m in matches && h in m.hits ==> exists k: nat :: Found(segments, k, allow, h)
    }

    lemma {:induction false} HitsFound(segments: seq<Chunker.Segment>, allow: set<ChunkId>, h: Hit)
      ensures h in HitsOfSegments(segments, allow) <==> exists k: nat :: Found(segments, k, allow, h)
    {
      if segments != [] {
        var front, n := Front(segments), |segments| - 1;
        HitsFound(front, allow, h);
        forall k: nat | k < n ensures Found(segments, k, allow, h) <==> Found(front, k, allow, h) {
          assert front[k] == segments[k];
        }
        assert Found(segments, n, allow, h) <==>
               h in searcher.search(catalog.vectors, embedQuery(Last(segments).text), topK, allow);
      }
    }

    lemma AnswerFinds(segments: seq<Chunker.Segment>, text: Text, tenant: string)
      requires searcher.Valid()
      ensures FindsAll(segments, QualifyingChunks(text, tenant), Answer(segments, text, tenant))
      ensures FindsOnly(segments, QualifyingChunks(text, tenant), Answer(segments, text, tenant))
    {
      hide AggregateHits, HitsOfSegments, Found, Ordered, TopsAll, Average;
      var allow, matches := QualifyingChunks(text, tenant), Answer(segments, text, tenant);
      var hits := HitsOfSegments(segments, allow);
      var docOf := map c | c in catalog.chunks :: catalog.chunks[c].doc;
      HitsAllowed(segments, allow);
      AggregateSpec(hits, docOf);
      forall k: nat, h | Found(segments, k, allow, h) ensures Reported(h, matches) {
        HitsFound(segments, allow, h);
        assert h in hits && h.id in allow;
        HitReported(h, hits, matches);
      }
      forall m, h | m in matches && h in m.hits ensures exists k: nat :: Found(segments, k, allow, h) {
        assert MatchOk(m, hits, docOf);
        HitsFound(segments, allow, h);
      }
    }

    lemma HitReported(h: Hit, hits: seq<Hit>, matches: seq<Match>)
      requires h in hits && h.id in catalog.chunks
      requires var docOf := map c | c in catalog.chunks :: catalog.chunks[c].doc;
        && (forall m :: m in matches ==> MatchOk(m, hits, docOf))
        && (exists m :: m in matches && m.doc == docOf[h.id])
      ensures Reported(h, matches)
    {
      hide Ordered, TopsAll, Average;
      var docOf := map c | c in catalog.chunks :: catalog.chunks[c].doc;
      var m :| m in matches && m.doc == docOf[h.id];
      assert MatchOk(m, hits, docOf) && Of(h, m.doc, docOf);
      var i :| 0 <= i < |m.hits| && m.hits[i].id == h.id && m.hits[i].score >= h.score;
    }

    function QualifyingChunks(text: Text, tenant: string): set<ChunkId>
      reads catalog
    {
      set c | c in catalog.chunks && catalog.chunks[c].doc in catalog.docs
              && Qualifies(catalog.docs[catalog.chunks[c].doc], text, tenant)
    }

    /** The answer to a query cut into these segments. */
    function Answer(segments: seq<Chunker.Segment>, text: Text, tenant: string): seq<Match>
      reads catalog
    {
      if QualifyingChunks(text, tenant) == {} then []
      else AggregateHits(HitsOfSegments(segments, QualifyingChunks(text, tenant)),
                         map c | c in catalog.chunks :: catalog.chunks[c].doc)
    }

    lemma AnswerIs(segments: seq<Chunker.Segment>, text: Text, tenant: string)
      ensures var allow := QualifyingChunks(text, tenant);
        Answer(segments, text, tenant) ==
          if |allow| == 0 then []
          else AggregateHits(HitsOfSegments(segments, allow), map c | c in catalog.chunks :: catalog.chunks[c].doc)
    {
    }

    lemma NothingToAnswer(text: Text, tenant: string)
      ensures Answer([], text, tenant) == []
    {
      NoHitsNoMatches(map c | c in catalog.chunks :: catalog.chunks[c].doc);
    }

    lemma {:induction false} HitsAllowed(segments: seq<Chunker.Segment>, allow: set<ChunkId>)
      requires searcher.Valid()
      ensures forall h :: h in HitsOfSegments(segments, allow) ==> h.id in catalog.vectors && h.id in allow
    {
      if segments != [] {
        HitsAllowed(Front(segments), allow);
        assert searcher.Answers(catalog.vectors, embedQuery(Last(segments).text), topK, allow);
      }
    }

    lemma AnswerSound(segments: seq<Chunker.Segment>, text: Text, tenant: string)
      requires searcher.Valid()
      ensures forall m :: m in Answer(segments, text, tenant) ==> MatchSound(m, text, tenant)
      ensures (forall d :: d in catalog.docs ==> !Qualifies(catalog.docs[d], text, tenant)) ==>
                Answer(segments, text, tenant) == []
      ensures var ms := Answer(segments, text, tenant);
        (forall i, j :: 0 <= i < j < |ms| ==> ms[i].doc != ms[j].doc) && DescendingBy(ms, MaxOf)
    {
      hide AggregateHits, Qualifies, MatchSound, MatchOk, HitsOfSegments, DescendingBy;
      var allow := QualifyingChunks(text, tenant);
      var hits := HitsOfSegments(segments, allow);
      var docOf := map c | c in catalog.chunks :: catalog.chunks[c].doc;
      HitsAllowed(segments, allow);
      AggregateSpec(hits, docOf);
      MatchesSound(AggregateHits(hits, docOf), hits, allow, text, tenant);
      NoneSorted();
    }

    lemma NoneSorted()
      ensures DescendingBy<Match>([], MaxOf)
    {
    }

    /** The document restriction in force for a query. */
    predicate Qualifies(d: Doc, text: Text, tenant: string)
    {
      Fits(d, tenant, Some(detect(text)), Some(classify(text)), threshold)
    }

    ghost predicate MatchSound(m: Match, text: Text, tenant: string)
      reads catalog
    {
      && m.doc in catalog.docs && Qualifies(catalog.docs[m.doc], text, tenant)
      && m.hits != []
      && forall h :: h in m.hits ==>
           h.id in catalog.vectors && h.id in catalog.chunks && catalog.chunks[h.id].doc == m.doc
    }

    lemma MatchesSound(matches: seq<Match>, hits: seq<Hit>, allow: set<ChunkId>, text: Text, tenant: string)
      requires forall h :: h in hits ==> h.id in catalog.vectors && h.id in allow
      requires forall c :: c in allow ==> c in catalog.chunks && catalog.chunks[c].doc in catalog.docs
                                          && Qualifies(catalog.docs[catalog.chunks[c].doc], text, tenant)
      requires forall m :: m in matches ==> MatchOk(m, hits, map c | c in catalog.chunks :: catalog.chunks[c].doc)
      ensures forall m :: m in matches ==> MatchSound(m, text, tenant)
    {
      var docOf := map c | c in catalog.chunks :: catalog.chunks[c].doc;
      forall m | m in matches ensures MatchSound(m, text, tenant) {
        assert MatchOk(m, hits, docOf);
        forall h | h in m.hits
          ensures h.id in catalog.vectors && h.id in catalog.chunks && catalog.chunks[h.id].doc == m.doc
          ensures h.id in allow
        {
          assert h in hits && Of(h, m.doc, docOf);
        }
        assert m.hits[0] in m.hits;
      }
    }
  }

  /**
   In every reachable state of the stores, each chunk a search may return belongs to a
   document row, and while no delete took a vector from that document all its chunks are
   searchable: allowed and with a vector.
   */
  lemma SearchableChunks(steps: seq<Step>, tenant: string, language: Language, topic: Topic, threshold: real, c: ChunkId)
    requires Legal(steps)
    ensures var s := Exec(steps).s;
      var allow := BuildAllowlist(s.docs, s.chunks, tenant, Some(language), Some(topic), threshold);
      && allow.Some?
      && (c in allow.value ==> c.doc in s.docs && s.docs[c.doc].tenant == tenant && s.docs[c.doc].language == language.code
                               && c.order < SizeOf(Exec(steps), c.doc))
      && (c.doc in s.docs && c.doc !in Exec(steps).touched && c.order < SizeOf(Exec(steps), c.doc)
          && Fits(s.docs[c.doc], tenant, Some(language), Some(topic), threshold) ==>
            c in allow.value && c in s.vectors)
  {
    RunInv(steps);
    var t := Exec(steps);
    AllowlistExact(t.s.docs, t.s.chunks, tenant, Some(language), Some(topic), threshold);
    if c.doc in t.s.docs && c.doc !in t.touched {
      assert Complete(t.s, c.doc, SizeOf(t, c.doc));
    }
  }
}
