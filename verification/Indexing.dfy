/**
 The live indexing and deletion use cases over the three stores.  `Catalog` is the stores;
 its ghost `steps` is the run of the store protocol so far, and each store write adds
 exactly one step to it.
 */
module Indexing {
  import opened Prelude
  import opened VectorIndex
  import opened Tokens
  import opened Normalizer
  import opened Stores
  import Chunker
  import Windows
  import Splitting

  class Catalog {
    ghost var steps: seq<Step>
    var vectors: map<ChunkId, Vec>
    var chunks: map<ChunkId, Chunk>
    var docs: map<DocId, Doc>

    ghost predicate Valid()
      reads this
    {
      Legal(steps) && Exec(steps).s == Stores(vectors, chunks, docs)
    }

    ghost function Now(): State
      reads this
      requires Legal(steps)
    {
      Exec(steps)
    }

    constructor ()
      ensures Valid() && steps == []
    {
      steps, vectors, chunks, docs := [], map[], map[], map[];
    }

    ghost method Take(step: Step)
      requires Valid() && Enabled(Now(), step) && Do(Now(), step).s == Now().s
      modifies this`steps
      ensures Valid() && steps == old(steps) + [step] && Now() == Do(old(Now()), step)
    {
      hide Exec, Legal, Do, Enabled;
      Extend(steps, step);
      steps := steps + [step];
    }

    /** Vector store write; durable when it returns. */
    method SetVectors(after: map<ChunkId, Vec>, ghost step: Step)
      requires Valid() && Enabled(Now(), step) && Do(Now(), step).s == Stores(after, chunks, docs)
      modifies this`steps, this`vectors
      ensures Valid() && vectors == after && steps == old(steps) + [step] && Now() == Do(old(Now()), step)
    {
      hide Exec, Legal, Do, Enabled;
      Extend(steps, step);
      steps := steps + [step];
      vectors := after;
    }

    /** Chunk table commit. */
    method SetChunks(after: map<ChunkId, Chunk>, ghost step: Step)
      requires Valid() && Enabled(Now(), step) && Do(Now(), step).s == Stores(vectors, after, docs)
      modifies this`steps, this`chunks
      ensures Valid() && chunks == after && steps == old(steps) + [step] && Now() == Do(old(Now()), step)
    {
      hide Exec, Legal, Do, Enabled;
      Extend(steps, step);
      steps := steps + [step];
      chunks := after;
    }

    /** Document table commit. */
    method SetDocs(after: map<DocId, Doc>, ghost step: Step)
      requires Valid() && Enabled(Now(), step) && Do(Now(), step).s == Stores(vectors, chunks, after)
      modifies this`steps, this`docs
      ensures Valid() && docs == after && steps == old(steps) + [step] && Now() == Do(old(Now()), step)
    {
      hide Exec, Legal, Do, Enabled;
      Extend(steps, step);
      steps := steps + [step];
      docs := after;
    }

    /** `by_hash`. */
    method ByHash(tenant: string, content: Text) returns (r: Option<DocId>)
      ensures r.None? <==> !HasHash(docs, tenant, content)
      ensures r.Some? ==> r.value in docs && SameContent(docs[r.value], tenant, content)
    {
      var matching := set d | d in docs && SameContent(docs[d], tenant, content);
      if matching == {} {
        assert forall d :: d in docs && SameContent(docs[d], tenant, content) ==> d in matching;
        return None;
      }
      var d :| d in matching;
      r := Some(d);
    }
  }

  datatype IndexOutcome =
    | Indexed(id: DocId, chunksIndexed: nat)
    | Duplicate(id: DocId)
    | EmptyDocument

  class IndexingPipeline {
    const catalog: Catalog
    const chunker: Chunker.HybridChunker
    const embed: Text -> Vec
    const detectLanguage: Text -> string
    const classifyTopic: Text -> string

    constructor (catalog: Catalog, chunker: Chunker.HybridChunker, embed: Text -> Vec,
                 detectLanguage: Text -> string, classifyTopic: Text -> string)
      ensures this.catalog == catalog && this.chunker == chunker && this.embed == embed
      ensures this.detectLanguage == detectLanguage && this.classifyTopic == classifyTopic
    {
      this.catalog, this.chunker, this.embed := catalog, chunker, embed;
      this.detectLanguage, this.classifyTopic := detectLanguage, classifyTopic;
    }

    /**
     `index`: normalize, refuse duplicates, chunk, embed, then vectors, chunk rows, document
     row.  `id` is a fresh uuid; a language or topic given by the caller wins over detection.
     */
    method Index(text: Text, tenant: string, language: Option<string>, topic: Option<string>, id: DocId)
      returns (r: IndexOutcome)
      requires catalog.Valid() && catalog.Now().proc.Idle? && id !in catalog.Now().used && chunker.Valid()
      modifies catalog`steps, catalog`vectors, catalog`chunks, catalog`docs
      ensures catalog.Valid() && catalog.Now().proc.Idle?
      ensures r.EmptyDocument? <==> Count(text) == 0
      ensures r.Duplicate? <==> Count(text) > 0 && HasHash(old(catalog.docs), tenant, NormalizePlainText(text))
      ensures r.Duplicate? ==> r.id in catalog.docs
                               && SameContent(catalog.docs[r.id], tenant, NormalizePlainText(text))
      ensures r.Duplicate? ==>
                (Complete(Stores(catalog.vectors, catalog.chunks, catalog.docs), r.id, SizeOf(catalog.Now(), r.id))
                 <==> r.id !in catalog.Now().touched)
      ensures !r.Indexed? ==> catalog.steps == old(catalog.steps)
      ensures r.Indexed? ==>
        && r.id == id && r.chunksIndexed > 0
        && id in catalog.docs && catalog.docs == old(catalog.docs)[id := catalog.docs[id]]
        && SameContent(catalog.docs[id], tenant, NormalizePlainText(text))
        && catalog.docs[id].language == (if language.Some? then language.value else detectLanguage(NormalizePlainText(text)))
        && catalog.docs[id].topic == (if topic.Some? then topic.value else classifyTopic(NormalizePlainText(text)))
        && Complete(Stores(catalog.vectors, catalog.chunks, catalog.docs), id, r.chunksIndexed)
        && RowsMatchText(catalog.chunks, catalog.vectors, id, text, r.chunksIndexed)
        && RowsOfSegments(catalog.chunks, id, NormalizePlainText(text), r.chunksIndexed)
        && OthersKept(id, old(catalog.chunks), catalog.chunks) && OthersKept(id, old(catalog.vectors), catalog.vectors)
        && id !in catalog.Now().touched
    {
      hide Tokenize, NormalizePlainText, Exec, Legal, HasHash, Complete;
      var normalized := NormalizePlainText(text);
      NormalizeKeepsTokens(text);
      NormalizedHasTokens(text);
      if normalized == [] {
        return EmptyDocument;
      }
      var existing := catalog.ByHash(tenant, normalized);
      if existing.Some? {
        DocumentsAreComplete(catalog.steps, existing.value, existing.value);
        return Duplicate(existing.value);
      }
      var doc := Doc(tenant, normalized,
                     if language.Some? then language.value else detectLanguage(normalized),
                     if topic.Some? then topic.value else classifyTopic(normalized));
      var n := IndexNew(id, text, normalized, doc);
      r := Indexed(id, n);
    }

    /** Chunks, embeds and writes a document that passed the checks. */
    method IndexNew(id: DocId, ghost text: Text, normalized: Text, doc: Doc) returns (n: nat)
      requires catalog.Valid() && catalog.Now().proc.Idle? && id !in catalog.Now().used && chunker.Valid()
      requires normalized == NormalizePlainText(text) && Count(text) > 0
      requires !HasHash(catalog.docs, doc.tenant, doc.content)
      modifies catalog`steps, catalog`vectors, catalog`chunks, catalog`docs
      ensures catalog.Valid() && catalog.Now().proc.Idle? && n > 0
      ensures catalog.docs == old(catalog.docs)[id := doc]
      ensures Complete(Stores(catalog.vectors, catalog.chunks, catalog.docs), id, n)
      ensures RowsMatchText(catalog.chunks, catalog.vectors, id, text, n)
      ensures RowsOfSegments(catalog.chunks, id, normalized, n)
      ensures OthersKept(id, old(catalog.chunks), catalog.chunks)
      ensures OthersKept(id, old(catalog.vectors), catalog.vectors)
      ensures id !in catalog.Now().touched
    {
      hide Exec, Legal, HasHash, Complete, ChunkIsSlice, OthersKept, Chunker.Segmented, WrittenRow, RowsMatchText, RowsOfSegments;
      var chunks := ChunkText(id, text, normalized);
      var vectors := seq(|chunks|, i requires 0 <= i < |chunks| => embed(chunks[i].text));
      Write(id, doc, chunks, vectors);
      n := |chunks|;
      RowsFromWritten(catalog.chunks, catalog.vectors, id, text, normalized, chunks, vectors);
    }

    /** Segments turned into chunks; a text with tokens always yields at least one. */
    method ChunkText(id: DocId, ghost text: Text, normalized: Text) returns (chunks: seq<Chunk>)
      requires chunker.Valid() && normalized == NormalizePlainText(text) && Count(text) > 0
      ensures chunks != [] && ChunksOf(id, chunks)
      ensures exists segments :: Chunker.Segmented(chunker.cfg, normalized, segments) && chunks == BuildChunks(id, segments)
      ensures forall k :: 0 <= k < |chunks| ==> ChunkIsSlice(chunks[k], text)
    {
      hide Tokenize, NormalizePlainText, Splitting.Units, Windows.AllWindows, Chunker.SpansChained;
      var segments := chunker.Chunk(normalized);
      NormalizeKeepsTokens(text);
      Chunker.SpansCover(chunker.cfg, normalized, segments);
      chunks := BuildChunks(id, segments);
      forall k | 0 <= k < |segments| ensures segments[k].order == k && ChunkIsSlice(chunks[k], text) {
        SegmentsAreSlices(chunker.cfg, id, text, segments, k);
      }
    }

    /** The rows of a document carry, in order, slices of the text's own tokens with true spans, and their vectors. */
    ghost predicate RowsMatchText(chunks: map<ChunkId, Chunk>, vectors: map<ChunkId, Vec>, id: DocId, text: Text, n: nat)
    {
      forall k: nat :: k < n ==>
        var c := ChunkId(id, k);
        && c in chunks && ChunkIsSlice(chunks[c], text)
        && c in vectors && vectors[c] == embed(chunks[c].text)
    }

    /** They are the rows of all segments of the text, and of nothing else. */
    ghost predicate RowsOfSegments(chunks: map<ChunkId, Chunk>, id: DocId, normalized: Text, n: nat)
    {
      exists segments :: Chunker.Segmented(chunker.cfg, normalized, segments) && RowsAreBuilt(chunks, id, segments, n)
    }

    ghost predicate RowsAreBuilt(rows: map<ChunkId, Chunk>, id: DocId, segments: seq<Chunker.Segment>, n: nat)
    {
      |segments| == n && forall k: nat :: k < n ==>
        ChunkId(id, k) in rows && rows[ChunkId(id, k)] ==
          Chunk(ChunkId(id, k), id, segments[k].text, segments[k].start, segments[k].end, k)
    }

    lemma RowsFromWritten(rows: map<ChunkId, Chunk>, vs: map<ChunkId, Vec>, id: DocId, text: Text, normalized: Text,
                          chunks: seq<Chunk>, vectors: seq<Vec>)
      requires |vectors| == |chunks|
      requires forall k :: 0 <= k < |chunks| ==>
        && WrittenRow(rows, vs, ChunkId(id, k), chunks[k], vectors[k])
        && ChunkIsSlice(chunks[k], text) && vectors[k] == embed(chunks[k].text)
      requires exists segments :: Chunker.Segmented(chunker.cfg, normalized, segments) && chunks == BuildChunks(id, segments)
      ensures RowsMatchText(rows, vs, id, text, |chunks|) && RowsOfSegments(rows, id, normalized, |chunks|)
    {
      hide ChunkIsSlice, Chunker.Segmented, Tokenize;
      var segments: seq<Chunker.Segment> :|
        Chunker.Segmented(chunker.cfg, normalized, segments) && chunks == BuildChunks(id, segments);
      forall k: nat | k < |segments| ensures segments[k].order == k {
        Chunker.SpanTruth(chunker.cfg, normalized, segments, k);
      }
      assert RowsAreBuilt(rows, id, segments, |chunks|);
    }

    /** The three writes, in the order that keeps a crash from blocking a retry. */
    method Write(id: DocId, doc: Doc, chunks: seq<Chunk>, vectors: seq<Vec>)
      requires catalog.Valid() && Enabled(catalog.Now(), BeginIndex(id, doc, chunks, vectors))
      modifies catalog`steps, catalog`vectors, catalog`chunks, catalog`docs
      ensures catalog.Valid() && catalog.Now().proc.Idle?
      ensures catalog.docs == old(catalog.docs)[id := doc]
      ensures Complete(Stores(catalog.vectors, catalog.chunks, catalog.docs), id, |chunks|)
      ensures forall k :: 0 <= k < |chunks| ==>
                WrittenRow(catalog.chunks, catalog.vectors, ChunkId(id, k), chunks[k], vectors[k])
      ensures OthersKept(id, old(catalog.chunks), catalog.chunks)
      ensures OthersKept(id, old(catalog.vectors), catalog.vectors)
      ensures id !in catalog.Now().touched
      ensures catalog.steps == old(catalog.steps)
                + [BeginIndex(id, doc, chunks, vectors), AddVectors, SaveChunks, SaveDocument]
    {
      RunInv(catalog.steps);
      WrittenStores(catalog.Now(), id, chunks, vectors);
      IndexRun(catalog.Now(), id, doc, chunks, vectors);
      hide Exec, Legal, HasHash, WithVectors, WithChunks, Complete, OthersKept, ChunksOf, WrittenRow, Enabled, Do;
      catalog.Take(BeginIndex(id, doc, chunks, vectors));
      catalog.SetVectors(WithVectors(catalog.vectors, chunks, vectors), AddVectors);
      catalog.SetChunks(WithChunks(catalog.chunks, chunks), SaveChunks);
      catalog.SetDocs(catalog.docs[id := doc], SaveDocument);
    }
  }

  /** What belongs to other documents is as it was. */
  ghost predicate OthersKept<V>(id: DocId, before: map<ChunkId, V>, after: map<ChunkId, V>)
  {
    forall c: ChunkId :: c.doc != id ==> (c in after <==> c in before) && (c in before ==> after[c] == before[c])
  }

  predicate WrittenRow(chunks: map<ChunkId, Chunk>, vectors: map<ChunkId, Vec>, c: ChunkId, chunk: Chunk, v: Vec)
  {
    c in chunks && chunks[c] == chunk && c in vectors && vectors[c] == v
  }

  /** The four steps of indexing a document follow each other, each changing one store. */
  lemma IndexRun(t: State, id: DocId, doc: Doc, chunks: seq<Chunk>, vectors: seq<Vec>)
    requires Enabled(t, BeginIndex(id, doc, chunks, vectors))
    ensures var t1 := Do(t, BeginIndex(id, doc, chunks, vectors));
      t1.s == t.s && t1.touched == t.touched && Enabled(t1, AddVectors)
      && var t2 := Do(t1, AddVectors);
      t2.s == t.s.(vectors := WithVectors(t.s.vectors, chunks, vectors)) && t2.touched == t.touched && Enabled(t2, SaveChunks)
      && var t3 := Do(t2, SaveChunks);
      t3.s == t2.s.(chunks := WithChunks(t.s.chunks, chunks)) && t3.touched == t.touched && Enabled(t3, SaveDocument)
      && var t4 := Do(t3, SaveDocument);
      t4.s == t3.s.(docs := t.s.docs[id := doc]) && t4.touched == t.touched && t4.proc.Idle?
  {
    hide WithVectors, WithChunks, HasHash;
  }

  /** What the first two writes of a new document leave in their stores. */
  lemma WrittenStores(t: State, id: DocId, chunks: seq<Chunk>, vectors: seq<Vec>)
    requires Inv(t) && id !in t.used && |chunks| == |vectors| && ChunksOf(id, chunks)
    ensures var vs, cs := WithVectors(t.s.vectors, chunks, vectors), WithChunks(t.s.chunks, chunks);
      && (forall docs :: Complete(Stores(vs, cs, docs), id, |chunks|))
      && (forall k :: 0 <= k < |chunks| ==> WrittenRow(cs, vs, ChunkId(id, k), chunks[k], vectors[k]))
      && OthersKept(id, t.s.chunks, cs) && OthersKept(id, t.s.vectors, vs)
    ensures id !in t.touched
  {
    FreshId(t, id);
    hide Inv, WithChunks, WithVectors, ChunksOf, RowsAre, OthersKept;
    ChunksWritten(t.s.chunks, id, chunks);
    VectorsWritten(t.s.vectors, id, chunks, vectors);
  }

  lemma ChunksWritten(m: map<ChunkId, Chunk>, id: DocId, chunks: seq<Chunk>)
    requires ChunksOf(id, chunks) && forall c :: c in m ==> c.doc != id
    ensures var cs := WithChunks(m, chunks);
      && RowsAre(cs, id, |chunks|) && OthersKept(id, m, cs)
      && forall k :: 0 <= k < |chunks| ==> ChunkId(id, k) in cs && cs[ChunkId(id, k)] == chunks[k]
  {
    hide WithChunks, ChunksOf;
    WithChunksHas(m, id, chunks);
  }

  lemma VectorsWritten(m: map<ChunkId, Vec>, id: DocId, chunks: seq<Chunk>, vectors: seq<Vec>)
    requires |chunks| == |vectors| && ChunksOf(id, chunks) && forall c :: c in m ==> c.doc != id
    ensures var vs := WithVectors(m, chunks, vectors);
      && OthersKept(id, m, vs)
      && (forall c: ChunkId :: c.doc == id && c.order < |chunks| ==> c in vs)
      && forall k :: 0 <= k < |chunks| ==> ChunkId(id, k) in vs && vs[ChunkId(id, k)] == vectors[k]
  {
    hide WithVectors, ChunksOf;
    WithVectorsHas(m, id, chunks, vectors);
  }

  /** An id not handed out before names nothing in any store. */
  lemma FreshId(t: State, id: DocId)
    requires Inv(t) && id !in t.used
    ensures id !in t.touched && (forall c :: c in t.s.chunks || c in t.s.vectors ==> c.doc != id)
  {
    hide UniqueOk, ProcOk, Complete, Lacks, NoTrace;
  }

  predicate ChunkIsSlice(c: Chunk, text: Text)
  {
    && 0 <= c.start < c.end <= Count(text)
    && Tokenize(c.text) == Tokenize(text)[c.start..c.end]
  }

  function BuildChunks(id: DocId, segments: seq<Chunker.Segment>): seq<Chunk>
  {
    seq(|segments|, k requires 0 <= k < |segments| =>
      Chunk(ChunkId(id, segments[k].order), id, segments[k].text, segments[k].start, segments[k].end, segments[k].order))
  }

  /** The chunk made of a segment is a slice of the text, with a true span. */
  lemma SegmentsAreSlices(cfg: Windows.Config, id: DocId, text: Text, segments: seq<Chunker.Segment>, k: nat)
    requires Chunker.Segmented(cfg, NormalizePlainText(text), segments) && k < |segments|
    ensures segments[k].order == k
    ensures ChunkIsSlice(BuildChunks(id, segments)[k], text)
  {
    hide Tokenize, NormalizePlainText, Chunker.Segmented;
    Chunker.SpanTruth(cfg, NormalizePlainText(text), segments, k);
    NormalizeKeepsTokens(text);
  }

  /** Text that is not empty after normalization has tokens, so chunking yields segments. */
  lemma NormalizedHasTokens(text: Text)
    ensures NormalizePlainText(text) == [] <==> Count(text) == 0
  {
    NormalizeKeepsTokens(text);
    NormalizedIsNormal(text);
    var n := NormalizePlainText(text);
    if n != [] {
      StripKeepsTokens(n);
      StripIdentity(n);
    }
  }

  lemma OthersAfterDelete(t: State, id: DocId)
    requires Inv(t)
    ensures OthersKept(id, t.s.chunks, WithoutDocument(t.s.chunks, id))
  {
    hide UniqueOk, DocsOk, ProcOk;
  }

  lemma KeptAtFirst<V>(id: DocId, m: map<ChunkId, V>)
    ensures OthersKept(id, m, m)
  {
  }

  lemma RemovedKeeps<V>(id: DocId, before: map<ChunkId, V>, after: map<ChunkId, V>, c: ChunkId)
    requires OthersKept(id, before, after) && c.doc == id
    ensures OthersKept(id, before, after - {c})
  {
  }

  lemma RowsNamed(t: State, id: DocId)
    requires Inv(t)
    ensures forall c :: c in IdsForDocuments(t.s.chunks, {id}) ==> c.doc == id
  {
    hide UniqueOk, DocsOk, ProcOk;
  }

  class DocumentDeleter {
    const catalog: Catalog

    constructor (catalog: Catalog)
      ensures this.catalog == catalog
    {
      this.catalog := catalog;
    }

    /** `delete`: vectors one by one, then the chunk rows, then the document row. */
    method Delete(id: DocId, tenant: string) returns (deleted: bool)
      requires catalog.Valid() && catalog.Now().proc.Idle?
      modifies catalog`steps, catalog`vectors, catalog`chunks, catalog`docs
      ensures catalog.Valid() && catalog.Now().proc.Idle?
      ensures deleted <==> id in old(catalog.docs) && old(catalog.docs)[id].tenant == tenant
      ensures !deleted ==> catalog.steps == old(catalog.steps)
      ensures deleted ==>
        && NoTrace(Stores(catalog.vectors, catalog.chunks, catalog.docs), id)
        && catalog.docs == old(catalog.docs) - {id}
        && OthersKept(id, old(catalog.chunks), catalog.chunks) && OthersKept(id, old(catalog.vectors), catalog.vectors)
    {
      if id !in catalog.docs || catalog.docs[id].tenant != tenant {
        return false;
      }
      RunInv(catalog.steps);
      OthersAfterDelete(catalog.Now(), id);
      hide Exec, Legal, Inv, NoTrace, OthersKept, HasHash, WithoutDocument;
      RemoveVectors(id, tenant);
      catalog.SetChunks(WithoutDocument(catalog.chunks, id), DeleteChunks);
      catalog.SetDocs(catalog.docs - {id}, DeleteDocument);
      DeletedLeavesNoTrace(catalog.steps, id);
      deleted := true;
    }

    method RemoveVectors(id: DocId, ghost tenant: string)
      requires catalog.Valid() && Enabled(catalog.Now(), BeginDelete(id, tenant)) && Inv(catalog.Now())
      modifies catalog`steps, catalog`vectors
      ensures catalog.Valid() && catalog.Now().proc == Removing(id, {})
      ensures OthersKept(id, old(catalog.vectors), catalog.vectors)
    {
      RowsNamed(catalog.Now(), id);
      KeptAtFirst(id, catalog.vectors);
      hide Exec, Legal, Inv, HasHash, OthersKept;
      catalog.Take(BeginDelete(id, tenant));
      var todo := IdsForDocuments(catalog.chunks, {id});
      assert forall c :: c in todo ==> c.doc == id;
      while todo != {}
        invariant catalog.Valid() && catalog.Now().proc == Removing(id, todo)
        invariant forall c :: c in todo ==> c.doc == id
        invariant OthersKept(id, old(catalog.vectors), catalog.vectors)
        decreases todo
      {
        var c :| c in todo;
        RemovedKeeps(id, old(catalog.vectors), catalog.vectors, c);
        RemoveOne(id, todo, c);
        todo := todo - {c};
      }
    }

    /** One vector out of the index; an absent one is no error. */
    method RemoveOne(id: DocId, ghost todo: set<ChunkId>, c: ChunkId)
      requires catalog.Valid() && catalog.Now().proc == Removing(id, todo) && c in todo && c.doc == id
      modifies catalog`steps, catalog`vectors
      ensures catalog.Valid() && catalog.Now().proc == Removing(id, todo - {c})
      ensures catalog.vectors == old(catalog.vectors) - {c}
    {
      hide Exec, Legal, Inv, HasHash;
      catalog.SetVectors(catalog.vectors - {c}, RemoveVector(c));
    }
  }
}
