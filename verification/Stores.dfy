/**
 The three stores a document lives in -- vectors, chunk rows, document rows -- and the two
 use cases that write them, as a state machine: every store write is one step and the
 process may die between any two.  Use cases run one at a time.
 */
module Stores {
  import opened Prelude
  import opened VectorIndex
  import opened Tokens

  type DocId = nat  // fresh per indexing attempt, like a uuid

  /** `chunk_id_for`: a hash of document id and order, taken to be injective. */
  datatype ChunkId = ChunkId(doc: DocId, order: nat)

  datatype Chunk = Chunk(id: ChunkId, doc: DocId, text: Text, start: int, end: int, order: nat)

  /** The content stands for its hash; the hash is taken to be injective. */
  datatype Doc = Doc(tenant: string, content: Text, language: string, topic: string)

  datatype Stores = Stores(vectors: map<ChunkId, Vec>, chunks: map<ChunkId, Chunk>, docs: map<DocId, Doc>)

  const NO_STORES := Stores(map[], map[], map[])

  // ---------------------------------------------------------------- repository queries

  function IdsForDocuments(chunks: map<ChunkId, Chunk>, docs: set<DocId>): set<ChunkId>
  {
    set c | c in chunks && chunks[c].doc in docs
  }

  predicate SameContent(d: Doc, tenant: string, content: Text)
  {
    d.tenant == tenant && d.content == content
  }

  /** `by_hash`: some document of the tenant with this content. */
  ghost predicate HasHash(docs: map<DocId, Doc>, tenant: string, content: Text)
  {
    exists d :: d in docs && SameContent(docs[d], tenant, content)
  }

  // ---------------------------------------------------------------- the machine

  datatype Proc =
    | Idle
    | Planned(id: DocId, doc: Doc, chunks: seq<Chunk>, vectors: seq<Vec>)    // passed the duplicate check
    | VectorsIn(id: DocId, doc: Doc, chunks: seq<Chunk>)
    | ChunksIn(id: DocId, doc: Doc, chunks: seq<Chunk>)
    | Removing(id: DocId, todo: set<ChunkId>)                                // vectors still to remove
    | ChunksOut(id: DocId)                                                   // chunk rows deleted

  /**
   `used`, `sizes`, `touched` and `gone` are bookkeeping: ids handed out, chunks per
   document, documents that lost a vector to a delete, documents whose delete completed.
   */
  datatype State = State(
    s: Stores,
    proc: Proc,
    used: set<DocId>,
    sizes: map<DocId, nat>,
    touched: set<DocId>,
    gone: set<DocId>)

  const INIT := State(NO_STORES, Idle, {}, map[], {}, {})

  datatype Step =
    | BeginIndex(id: DocId, doc: Doc, chunks: seq<Chunk>, vectors: seq<Vec>)
    | AddVectors | SaveChunks | SaveDocument
    | BeginDelete(id: DocId, tenant: string)
    | RemoveVector(c: ChunkId) | DeleteChunks | DeleteDocument
    | Crash

  /** The chunks the pipeline builds: ids and orders 0, 1, 2, ... of one document. */
  predicate ChunksOf(id: DocId, chunks: seq<Chunk>)
  {
    forall i :: 0 <= i < |chunks| ==>
      chunks[i].id == ChunkId(id, i) && chunks[i].doc == id && chunks[i].order == i
  }

  ghost predicate Enabled(t: State, step: Step)
  {
    match step
    case BeginIndex(id, doc, chunks, vectors) =>
      t.proc.Idle? && id !in t.used && chunks != [] && |vectors| == |chunks| && ChunksOf(id, chunks)
      && !HasHash(t.s.docs, doc.tenant, doc.content)
    case AddVectors => t.proc.Planned? && |t.proc.vectors| == |t.proc.chunks|
    case SaveChunks => t.proc.VectorsIn?
    case SaveDocument => t.proc.ChunksIn?
    case BeginDelete(id, tenant) => t.proc.Idle? && id in t.s.docs && t.s.docs[id].tenant == tenant
    case RemoveVector(c) => t.proc.Removing? && c in t.proc.todo
    case DeleteChunks => t.proc.Removing? && t.proc.todo == {}
    case DeleteDocument => t.proc.ChunksOut?
    case Crash => true
  }

  /** `add(ids, vectors)` and `save_all(chunks)` over lists of chunks. */
  function WithVectors(m: map<ChunkId, Vec>, chunks: seq<Chunk>, vectors: seq<Vec>): map<ChunkId, Vec>
    requires |chunks| == |vectors|
  {
    if chunks == [] then m else WithVectors(m, Front(chunks), Front(vectors))[Last(chunks).id := Last(vectors)]
  }

  function WithChunks(m: map<ChunkId, Chunk>, chunks: seq<Chunk>): map<ChunkId, Chunk>
  {
    if chunks == [] then m else WithChunks(m, Front(chunks))[Last(chunks).id := Last(chunks)]
  }

  function WithoutDocument(m: map<ChunkId, Chunk>, id: DocId): map<ChunkId, Chunk>
  {
    map c | c in m && m[c].doc != id :: m[c]
  }

  ghost function Do(t: State, step: Step): State
    requires Enabled(t, step)
  {
    var p := t.proc;
    match step
    case BeginIndex(id, doc, chunks, vectors) =>
      t.(proc := Planned(id, doc, chunks, vectors), used := t.used + {id}, sizes := t.sizes[id := |chunks|])
    case AddVectors =>
      t.(proc := VectorsIn(p.id, p.doc, p.chunks),
         s := t.s.(vectors := WithVectors(t.s.vectors, p.chunks, p.vectors)))
    case SaveChunks =>
      t.(proc := ChunksIn(p.id, p.doc, p.chunks), s := t.s.(chunks := WithChunks(t.s.chunks, p.chunks)))
    case SaveDocument => t.(proc := Idle, s := t.s.(docs := t.s.docs[p.id := p.doc]))
    case BeginDelete(id, _) => t.(proc := Removing(id, IdsForDocuments(t.s.chunks, {id})))
    case RemoveVector(c) =>
      t.(proc := p.(todo := p.todo - {c}), s := t.s.(vectors := t.s.vectors - {c}), touched := t.touched + {p.id})
    case DeleteChunks =>
      t.(proc := ChunksOut(p.id), s := t.s.(chunks := WithoutDocument(t.s.chunks, p.id)))
    case DeleteDocument => t.(proc := Idle, s := t.s.(docs := t.s.docs - {p.id}), gone := t.gone + {p.id})
    case Crash => t.(proc := Idle)
  }

  ghost predicate Legal(steps: seq<Step>)
    decreases |steps|, 0
  {
    steps == [] || (Legal(Front(steps)) && Enabled(Exec(Front(steps)), Last(steps)))
  }

  ghost function Exec(steps: seq<Step>): State
    requires Legal(steps)
    decreases |steps|, 1
  {
    if steps == [] then INIT else Do(Exec(Front(steps)), Last(steps))
  }

  // ---------------------------------------------------------------- the invariant

  /** Chunk rows of the document with orders 0..n-1, no others, each with a vector. */
  ghost predicate Complete(s: Stores, id: DocId, n: nat)
  {
    && RowsAre(s.chunks, id, n)
    && forall c: ChunkId :: c.doc == id && c.order < n ==> c in s.vectors
  }

  ghost predicate RowsAre(chunks: map<ChunkId, Chunk>, id: DocId, n: nat)
  {
    forall c: ChunkId :: c.doc == id ==> (c in chunks <==> c.order < n)
  }

  predicate NoTrace(s: Stores, id: DocId)
  {
    && id !in s.docs
    && (forall c :: c in s.chunks ==> c.doc != id)
    && (forall c :: c in s.vectors ==> c.doc != id)
  }

  function SizeOf(t: State, id: DocId): nat
  {
    if id in t.sizes then t.sizes[id] else 0
  }

  ghost predicate RowsOk(t: State)
  {
    && (forall c :: c in t.s.chunks ==>
          t.s.chunks[c].id == c && t.s.chunks[c].doc == c.doc && t.s.chunks[c].order == c.order
          && c.order < SizeOf(t, c.doc))
    && (forall c :: c in t.s.chunks || c in t.s.vectors ==> c.doc in t.used)
    && t.s.docs.Keys <= t.used && t.sizes.Keys == t.used
    && (forall d :: d in t.sizes ==> SizeOf(t, d) > 0)
  }

  ghost predicate UniqueOk(docs: map<DocId, Doc>)
  {
    forall d, e :: d in docs && e in docs && d != e ==> !SameContent(docs[d], docs[e].tenant, docs[e].content)
  }

  /** A document row is complete unless a delete took a vector from it; then a vector is missing. */
  ghost predicate DocsOk(t: State)
  {
    && (forall d :: d in t.s.docs && d !in t.touched ==> Complete(t.s, d, SizeOf(t, d)))
    && (forall d :: d in t.s.docs && d in t.touched ==> Lacks(t.s.vectors, d, SizeOf(t, d)))
    && (forall d, c :: d in t.s.docs && c in t.s.vectors && c.doc == d ==> c in t.s.chunks)
    && (forall d :: d in t.gone ==> d in t.used && NoTrace(t.s, d))
    && t.touched <= t.used
  }

  ghost predicate Lacks(vectors: map<ChunkId, Vec>, id: DocId, n: nat)
  {
    exists k: nat :: k < n && ChunkId(id, k) !in vectors
  }

  ghost predicate ProcOk(t: State)
  {
    var p := t.proc;
    match p
    case Idle => true
    case Planned(id, doc, chunks, vectors) => FreshDoc(t, id, doc, chunks) && |vectors| == |chunks| && NoTrace(t.s, id)
    case VectorsIn(id, doc, chunks) =>
      FreshDoc(t, id, doc, chunks) && (forall c :: c in t.s.chunks ==> c.doc != id) && VectorsAre(t.s.vectors, id, |chunks|)
    case ChunksIn(id, doc, chunks) =>
      FreshDoc(t, id, doc, chunks) && RowsAre(t.s.chunks, id, |chunks|) && VectorsAre(t.s.vectors, id, |chunks|)
    case Removing(id, todo) =>
      id in t.s.docs && (forall c :: c in t.s.vectors && c.doc == id ==> c in todo)
      && (forall c :: c in todo ==> c.doc == id && c.order < SizeOf(t, id))
      && (id !in t.touched ==> forall c: ChunkId :: c.doc == id && c.order < SizeOf(t, id) ==> c in todo)
    case ChunksOut(id) =>
      id in t.s.docs && (forall c :: c in t.s.chunks ==> c.doc != id) && (forall c :: c in t.s.vectors ==> c.doc != id)
      && id in t.touched
  }

  ghost predicate VectorsAre(vectors: map<ChunkId, Vec>, id: DocId, n: nat)
  {
    forall c: ChunkId :: c.doc == id ==> (c in vectors <==> c.order < n)
  }

  ghost predicate FreshDoc(t: State, id: DocId, doc: Doc, chunks: seq<Chunk>)
  {
    && id in t.used && id !in t.s.docs && id !in t.touched && id !in t.gone && SizeOf(t, id) == |chunks|
    && chunks != [] && ChunksOf(id, chunks)
    && !HasHash(t.s.docs, doc.tenant, doc.content)
  }

  ghost predicate Inv(t: State)
  {
    RowsOk(t) && UniqueOk(t.s.docs) && DocsOk(t) && ProcOk(t)
  }

  lemma {:induction false} WithVectorsHas(m: map<ChunkId, Vec>, id: DocId, chunks: seq<Chunk>, vectors: seq<Vec>)
    requires |chunks| == |vectors| && ChunksOf(id, chunks)
    ensures forall c :: c in WithVectors(m, chunks, vectors) <==> c in m || (c.doc == id && c.order < |chunks|)
    ensures forall c :: c in WithVectors(m, chunks, vectors) ==>
              WithVectors(m, chunks, vectors)[c] == if c.doc == id && c.order < |chunks| then vectors[c.order] else m[c]
  {
    if chunks != [] {
      WithVectorsHas(m, id, Front(chunks), Front(vectors));
      assert Last(chunks).id == ChunkId(id, |chunks| - 1);
    }
    hide ChunksOf;
  }

  lemma {:induction false} WithChunksHas(m: map<ChunkId, Chunk>, id: DocId, chunks: seq<Chunk>)
    requires ChunksOf(id, chunks)
    ensures forall c :: c in WithChunks(m, chunks) <==> c in m || (c.doc == id && c.order < |chunks|)
    ensures forall c :: c in WithChunks(m, chunks) ==>
              WithChunks(m, chunks)[c] == if c.doc == id && c.order < |chunks| then chunks[c.order] else m[c]
  {
    if chunks != [] {
      WithChunksHas(m, id, Front(chunks));
      assert Last(chunks).id == ChunkId(id, |chunks| - 1);
    }
    hide ChunksOf;
  }

  lemma BeginIndexKeeps(t: State, step: Step)
    requires Inv(t) && Enabled(t, step) && step.BeginIndex?
    ensures Inv(Do(t, step))
  {
    hide UniqueOk, Complete, Lacks;
  }

  lemma AddVectorsKeeps(t: State)
    requires Inv(t) && Enabled(t, AddVectors)
    ensures Inv(Do(t, AddVectors))
  {
    hide UniqueOk, HasHash, ChunksOf, WithVectors;
    WithVectorsHas(t.s.vectors, t.proc.id, t.proc.chunks, t.proc.vectors);
  }

  lemma SaveChunksRows(t: State)
    requires Inv(t) && Enabled(t, SaveChunks)
    ensures RowsOk(Do(t, SaveChunks)) && ProcOk(Do(t, SaveChunks))
  {
    hide UniqueOk, HasHash, WithChunks, VectorsAre, DocsOk;
    WithChunksHas(t.s.chunks, t.proc.id, t.proc.chunks);
  }

  lemma SaveChunksKeeps(t: State)
    requires Inv(t) && Enabled(t, SaveChunks)
    ensures Inv(Do(t, SaveChunks))
  {
    SaveChunksRows(t);
    hide UniqueOk, HasHash, ChunksOf, WithChunks, VectorsAre, Lacks;
    WithChunksHas(t.s.chunks, t.proc.id, t.proc.chunks);
    assert DocsOk(Do(t, SaveChunks)) by {
      hide ProcOk;
      UnwrittenIsFresh(t);
    }
    hide RowsOk, ProcOk, DocsOk;
  }

  lemma UnwrittenIsFresh(t: State)
    requires Inv(t) && t.proc.VectorsIn?
    ensures ChunksOf(t.proc.id, t.proc.chunks) && t.proc.id !in t.s.docs && t.proc.id !in t.gone
  {
  }

  lemma SaveDocumentKeeps(t: State)
    requires Inv(t) && Enabled(t, SaveDocument)
    ensures Inv(Do(t, SaveDocument))
  {
    hide Lacks, ChunksOf;
  }

  lemma BeginDeleteKeeps(t: State, step: Step)
    requires Inv(t) && Enabled(t, step) && step.BeginDelete?
    ensures Inv(Do(t, step))
  {
    hide UniqueOk, HasHash, NoTrace, Lacks;
  }

  lemma RemoveVectorRows(t: State, c: ChunkId)
    requires Inv(t) && Enabled(t, RemoveVector(c))
    ensures RowsOk(Do(t, RemoveVector(c))) && UniqueOk(Do(t, RemoveVector(c)).s.docs)
  {
    hide UniqueOk, HasHash, DocsOk, ProcOk;
  }

  lemma RemoveVectorDocs(t: State, c: ChunkId)
    requires Inv(t) && Enabled(t, RemoveVector(c))
    ensures DocsOk(Do(t, RemoveVector(c)))
  {
    hide UniqueOk, HasHash, RowsAre;
    assert t.proc.id in t.s.docs && c.doc == t.proc.id && c.order < SizeOf(t, c.doc) && t.proc.id in t.used;
    assert c == ChunkId(t.proc.id, c.order);
    hide ProcOk, RowsOk;
  }

  lemma RemoveVectorProc(t: State, c: ChunkId)
    requires Inv(t) && Enabled(t, RemoveVector(c))
    ensures ProcOk(Do(t, RemoveVector(c)))
  {
    hide UniqueOk, HasHash, RowsAre, RowsOk, DocsOk;
  }

  lemma RemoveVectorKeeps(t: State, c: ChunkId)
    requires Inv(t) && Enabled(t, RemoveVector(c))
    ensures Inv(Do(t, RemoveVector(c)))
  {
    hide RowsOk, UniqueOk, DocsOk, ProcOk, Do, Enabled;
    RemoveVectorRows(t, c);
    RemoveVectorDocs(t, c);
    RemoveVectorProc(t, c);
  }

  lemma DeleteChunksRows(t: State)
    requires Inv(t) && Enabled(t, DeleteChunks)
    ensures RowsOk(Do(t, DeleteChunks)) && UniqueOk(Do(t, DeleteChunks).s.docs)
  {
    hide UniqueOk, HasHash, DocsOk, ProcOk;
  }

  lemma DeleteChunksDocs(t: State)
    requires Inv(t) && Enabled(t, DeleteChunks)
    ensures DocsOk(Do(t, DeleteChunks)) && ProcOk(Do(t, DeleteChunks))
  {
    hide UniqueOk, HasHash;
    assert ChunkId(t.proc.id, 0) !in t.proc.todo;
  }

  lemma DeleteChunksKeeps(t: State)
    requires Inv(t) && Enabled(t, DeleteChunks)
    ensures Inv(Do(t, DeleteChunks))
  {
    hide RowsOk, UniqueOk, DocsOk, ProcOk, Do, Enabled;
    DeleteChunksRows(t);
    DeleteChunksDocs(t);
  }

  lemma DeleteDocumentKeeps(t: State)
    requires Inv(t) && Enabled(t, DeleteDocument)
    ensures Inv(Do(t, DeleteDocument))
  {
    hide Lacks, RowsAre;
  }

  lemma StepKeeps(t: State, step: Step)
    requires Inv(t) && Enabled(t, step)
    ensures Inv(Do(t, step))
  {
    hide Inv, Do, Enabled;
    match step
    case BeginIndex(_, _, _, _) => BeginIndexKeeps(t, step);
    case AddVectors => AddVectorsKeeps(t);
    case SaveChunks => SaveChunksKeeps(t);
    case SaveDocument => SaveDocumentKeeps(t);
    case BeginDelete(_, _) => BeginDeleteKeeps(t, step);
    case RemoveVector(c) => RemoveVectorKeeps(t, c);
    case DeleteChunks => DeleteChunksKeeps(t);
    case DeleteDocument => DeleteDocumentKeeps(t);
    case Crash => CrashKeeps(t);
  }

  lemma CrashKeeps(t: State)
    requires Inv(t)
    ensures Inv(Do(t, Crash))
  {
    hide UniqueOk, Complete, Lacks, NoTrace;
  }

  lemma InitInv()
    ensures Inv(INIT)
  {
  }

  lemma {:induction false} RunInv(steps: seq<Step>)
    requires Legal(steps)
    ensures Inv(Exec(steps))
  {
    hide Inv, Do, Enabled;
    if steps == [] {
      InitInv();
    } else {
      RunInv(Front(steps));
      StepKeeps(Exec(Front(steps)), Last(steps));
    }
  }

  // ---------------------------------------------------------------- results over every run

  /**
   Three-store consistency.  In every reachable state each document row has chunk rows of
   orders 0..n-1 and no others, each with a vector, if and only if no delete of it has
   removed a vector; and no tenant has two documents of the same content.
   */
  lemma {:induction false} DocumentsAreComplete(steps: seq<Step>, d: DocId, e: DocId)
    requires Legal(steps) && d in Exec(steps).s.docs
    ensures var t := Exec(steps);
      && SizeOf(t, d) > 0
      && (Complete(t.s, d, SizeOf(t, d)) <==> d !in t.touched)
      && (e in t.s.docs && SameContent(t.s.docs[d], t.s.docs[e].tenant, t.s.docs[e].content) ==> d == e)
  {
    RunInv(steps);
    var t := Exec(steps);
    if d in t.touched {
      var k: nat :| k < SizeOf(t, d) && ChunkId(d, k) !in t.s.vectors;
    }
  }

  /** The document and content that an unfinished indexing is about, before its row is written. */
  predicate Unwritten(p: Proc)
  {
    p.Planned? || p.VectorsIn? || p.ChunksIn?
  }

  /** A crash before the document row is written never makes a retry report a duplicate. */
  lemma {:induction false} RetryIsNotDuplicate(steps: seq<Step>, id: DocId, doc: Doc, chunks: seq<Chunk>, vectors: seq<Vec>)
    requires Legal(steps) && Unwritten(Exec(steps).proc)
    requires id !in Exec(steps).used && chunks != [] && |vectors| == |chunks| && ChunksOf(id, chunks)
    requires SameContent(doc, Exec(steps).proc.doc.tenant, Exec(steps).proc.doc.content)
    ensures !HasHash(Exec(steps).s.docs, doc.tenant, doc.content)
    ensures Enabled(Do(Exec(steps), Crash), BeginIndex(id, doc, chunks, vectors))
  {
    RunInv(steps);
    var p := Exec(steps).proc;
    assert !HasHash(Exec(steps).s.docs, p.doc.tenant, p.doc.content);
  }

  /** Once a delete has completed, no run brings back a row, a chunk or a vector of the document. */
  lemma {:induction false} DeletedLeavesNoTrace(steps: seq<Step>, d: DocId)
    requires Legal(steps) && d in Exec(steps).gone
    ensures NoTrace(Exec(steps).s, d)
  {
    RunInv(steps);
  }

  lemma Extend(steps: seq<Step>, step: Step)
    requires Legal(steps) && Enabled(Exec(steps), step)
    ensures Legal(steps + [step]) && Exec(steps + [step]) == Do(Exec(steps), step)
  {
    assert Front(steps + [step]) == steps;
  }

  lemma {:induction false} RemoveAll(steps: seq<Step>) returns (out: seq<Step>)
    requires Legal(steps) && Exec(steps).proc.Removing?
    ensures Legal(out) && Exec(out).proc == Removing(Exec(steps).proc.id, {})
    ensures Exec(out).gone == Exec(steps).gone
    decreases Exec(steps).proc.todo
  {
    out := steps;
    var todo := Exec(steps).proc.todo;
    if c :| c in todo {
      Extend(steps, RemoveVector(c));
      out := RemoveAll(steps + [RemoveVector(c)]);
    } else {
      assert todo == {};
    }
  }

  /** An interrupted delete can be run again to completion, from wherever the crash left it. */
  lemma DeleteCanBeRerun(steps: seq<Step>, d: DocId) returns (out: seq<Step>)
    requires Legal(steps) && d in Exec(steps).s.docs
    ensures Legal(out) && d in Exec(out).gone && NoTrace(Exec(out).s, d)
  {
    Extend(steps, Crash);
    out := steps + [Crash];
    var step := BeginDelete(d, Exec(out).s.docs[d].tenant);
    Extend(out, step);
    out := RemoveAll(out + [step]);
    Extend(out, DeleteChunks);
    out := out + [DeleteChunks];
    Extend(out, DeleteDocument);
    out := out + [DeleteDocument];
    DeletedLeavesNoTrace(out, d);
  }

  /**
   The price of deleting vectors first: a delete that crashes after its first removal leaves
   a row that still makes a new upload of the same content a duplicate, though the content
   can no longer be found.
   */
  lemma HalfDeletedBlocksUpload(doc: Doc, text: Text, v: Vec) returns (steps: seq<Step>)
    ensures Legal(steps)
    ensures var t := Exec(steps);
      t.proc.Idle? && HasHash(t.s.docs, doc.tenant, doc.content) && t.s.vectors == map[]
  {
    var c := Chunk(ChunkId(0, 0), 0, text, 0, 1, 0);
    steps := [];
    Extend(steps, BeginIndex(0, doc, [c], [v]));
    steps := steps + [BeginIndex(0, doc, [c], [v])];
    Extend(steps, AddVectors);
    steps := steps + [AddVectors];
    Extend(steps, SaveChunks);
    steps := steps + [SaveChunks];
    Extend(steps, SaveDocument);
    steps := steps + [SaveDocument];
    assert WithVectors(map[], Front([c]), Front([v])) == map[];
    assert WithChunks(map[], Front([c])) == map[];
    Extend(steps, BeginDelete(0, doc.tenant));
    steps := steps + [BeginDelete(0, doc.tenant)];
    Extend(steps, RemoveVector(c.id));
    steps := steps + [RemoveVector(c.id)];
    Extend(steps, Crash);
    steps := steps + [Crash];
    assert SameContent(Exec(steps).s.docs[0], doc.tenant, doc.content);
  }
}
