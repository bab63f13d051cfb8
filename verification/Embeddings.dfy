/**
 The embedding cache and the batch encoder in front of the embedding model.  The model is
 two functions, one per asymmetric prefix; embedding a batch is embedding each text of it.
 */
module Embeddings {
  import opened Prelude
  import opened VectorIndex
  import opened Tokens

  datatype Namespace = Passage | Query

  /** The hash of namespace, NUL and text, taken to be injective. */
  datatype Key = Key(namespace: Namespace, text: Text)

  datatype Entry = Entry(key: Key, vector: Vec)

  datatype Model = Model(passage: Text -> Vec, query: Text -> Vec)
  {
    function Embed(key: Key): Vec
    {
      match key.namespace
      case Passage => passage(key.text)
      case Query => query(key.text)
    }

    /** `embed_passages`. */
    function EmbedPassages(texts: seq<Text>): seq<Vec>
    {
      seq(|texts|, i requires 0 <= i < |texts| => passage(texts[i]))
    }
  }

  predicate DistinctKeys(store: seq<Entry>)
  {
    forall i, j :: 0 <= i < j < |store| ==> store[i].key != store[j].key
  }

  predicate HasKey(store: seq<Entry>, key: Key)
  {
    exists i :: 0 <= i < |store| && store[i].key == key
  }

  /** The entry at `p` goes, the others stay in order, and this one comes to the recently used end. */
  function Moved(store: seq<Entry>, p: nat, entry: Entry): seq<Entry>
    requires p < |store|
  {
    store[..p] + store[p + 1..] + [entry]
  }

  lemma MovedFacts(store: seq<Entry>, p: nat, entry: Entry)
    requires DistinctKeys(store) && p < |store| && store[p].key == entry.key
    ensures DistinctKeys(Moved(store, p, entry)) && |Moved(store, p, entry)| == |store|
    ensures forall k :: HasKey(Moved(store, p, entry), k) <==> HasKey(store, k)
  {
    var moved := Moved(store, p, entry);
    forall i | 0 <= i < |store|
      ensures store[i].key == moved[if i < p then i else if i == p then |store| - 1 else i - 1].key
    {
    }
    forall j | 0 <= j < |store|
      ensures moved[j].key == store[if j < p then j else if j < |store| - 1 then j + 1 else p].key
    {
    }
  }

  class EmbeddingCache {
    const maxSize: nat
    var store: seq<Entry>  // least recently used first

    ghost predicate Valid()
      reads this
    {
      maxSize > 0 && |store| <= maxSize && DistinctKeys(store)
    }

    /** Every cached vector is what the model would answer, in both namespaces. */
    ghost predicate Sound(model: Model)
      reads this
    {
      Valid() && forall i :: 0 <= i < |store| ==> store[i].vector == model.Embed(store[i].key)
    }

    constructor (maxSize: nat)
      requires maxSize > 0
      ensures Valid() && store == [] && this.maxSize == maxSize
    {
      this.maxSize, store := maxSize, [];
    }

    predicate Has(key: Key)
      reads this
    {
      HasKey(store, key)
    }

    /** Where the entry of a key is, or the length of the store. */
    method Find(key: Key) returns (p: nat)
      ensures p <= |store|
      ensures p < |store| ==> store[p].key == key
      ensures forall j :: 0 <= j < p ==> store[j].key != key
    {
      p := 0;
      while p < |store|
        invariant p <= |store|
        invariant forall j :: 0 <= j < p ==> store[j].key != key
      {
        if store[p].key == key {
          return;
        }
        p := p + 1;
      }
    }

    /** A hit moves its entry to the recently used end; all others keep their order. */
    method Get(text: Text, namespace: Namespace) returns (r: Option<Vec>)
      requires Valid()
      modifies this`store
      ensures Valid()
      ensures r.Some? <==> old(Has(Key(namespace, text)))
      ensures forall p :: 0 <= p < |old(store)| && old(store)[p].key == Key(namespace, text) ==>
                && r == Some(old(store)[p].vector)
                && store == old(store)[..p] + old(store)[p + 1..] + [old(store)[p]]
      ensures r.None? ==> store == old(store)
      ensures forall k :: Has(k) <==> old(Has(k))
    {
      var p := Find(Key(namespace, text));
      if p == |store| {
        return None;
      }
      MovedFacts(store, p, store[p]);
      r := Some(store[p].vector);
      store := Moved(store, p, store[p]);
    }

    /**
     The new entry goes to the recently used end in place of an old one of its key.  Only a
     new key in a full cache makes another entry go, the least recently used; all others
     keep their order.
     */
    method Put(text: Text, vector: Vec, namespace: Namespace)
      requires Valid()
      modifies this`store
      ensures Valid()
      ensures forall p :: 0 <= p < |old(store)| && old(store)[p].key == Key(namespace, text) ==>
                store == old(store)[..p] + old(store)[p + 1..] + [Entry(Key(namespace, text), vector)]
      ensures !old(Has(Key(namespace, text))) && |old(store)| < maxSize ==>
                store == old(store) + [Entry(Key(namespace, text), vector)]
      ensures !old(Has(Key(namespace, text))) && |old(store)| == maxSize ==>
                store == old(store)[1..] + [Entry(Key(namespace, text), vector)]
    {
      var entry := Entry(Key(namespace, text), vector);
      var p := Find(entry.key);
      if p < |store| {
        MovedFacts(store, p, entry);
        store := Moved(store, p, entry);
      } else {
        store := store + [entry];
      }
      if |store| > maxSize {
        store := store[1..];
      }
    }
  }

  // ---------------------------------------------------------------- the encoder

  /** What `encode_passages` must return: each text embedded alone, in order. */
  function EachAlone(model: Model, texts: seq<Text>): seq<Vec>
  {
    seq(|texts|, i requires 0 <= i < |texts| => model.passage(texts[i]))
  }

  /** `[v for v in results if v is not None]`. */
  function Filled(results: seq<Option<Vec>>): seq<Vec>
  {
    if results == [] then []
    else (if results[0].Some? then [results[0].value] else []) + Filled(results[1..])
  }

  lemma {:induction false} FilledAll(results: seq<Option<Vec>>, vectors: seq<Vec>)
    requires |results| == |vectors| && forall i :: 0 <= i < |results| ==> results[i] == Some(vectors[i])
    ensures Filled(results) == vectors
  {
    if results != [] {
      FilledAll(results[1..], vectors[1..]);
    }
  }

  /** The texts at the given positions. */
  function Pick(texts: seq<Text>, indices: seq<nat>): seq<Text>
    requires forall k :: 0 <= k < |indices| ==> indices[k] < |texts|
  {
    seq(|indices|, k requires 0 <= k < |indices| => texts[indices[k]])
  }

  predicate Increasing(indices: seq<nat>)
  {
    forall j, k :: 0 <= j < k < |indices| ==> indices[j] < indices[k]
  }

  /** Batches of exactly `size`, but for a shorter last one. */
  predicate Batched(batches: seq<seq<Text>>, size: nat)
  {
    && (forall i :: 0 <= i < |batches| ==> 1 <= |batches[i]| <= size)
    && (forall i :: 0 <= i < |batches| - 1 ==> |batches[i]| == size)
  }

  lemma NothingConcat()
    ensures Concat<Text>([]) == []
  {
  }

  /** All results are there but those at the given positions. */
  predicate AllBut(model: Model, texts: seq<Text>, results: seq<Option<Vec>>, waiting: seq<nat>)
  {
    && |results| == |texts|
    && forall i :: 0 <= i < |texts| ==> results[i] == if i in waiting then None else Some(model.passage(texts[i]))
  }

  // ---------------------------------------------------------------- what stays in the cache

  /** What `put` does to a store, clause by clause as its contract has it. */
  predicate AfterPut(store: seq<Entry>, maxSize: nat, entry: Entry, after: seq<Entry>)
  {
    && (forall p :: 0 <= p < |store| && store[p].key == entry.key ==> after == store[..p] + store[p + 1..] + [entry])
    && (!HasKey(store, entry.key) && |store| < maxSize ==> after == store + [entry])
    && (!HasKey(store, entry.key) && |store| == maxSize > 0 ==> after == store[1..] + [entry])
  }

  /** The key is among the last `d` entries. */
  predicate Near(store: seq<Entry>, key: Key, d: nat)
  {
    exists i :: 0 <= i < |store| && |store| - i <= d && store[i].key == key
  }

  /** Each of these passages, put one after the other, is still held unless `maxSize` puts came since. */
  predicate RecentlyPut(store: seq<Entry>, texts: seq<Text>, maxSize: nat)
  {
    forall k :: 0 <= k < |texts| && |texts| - k <= maxSize ==> Near(store, Key(Passage, texts[k]), |texts| - k)
  }

  lemma PutEndsNew(store: seq<Entry>, maxSize: nat, entry: Entry, after: seq<Entry>)
    requires maxSize > 0 && |store| <= maxSize && AfterPut(store, maxSize, entry, after)
    ensures after != [] && Last(after) == entry && Near(after, entry.key, 1)
  {
    if HasKey(store, entry.key) {
      var p :| 0 <= p < |store| && store[p].key == entry.key;
    }
    assert after[|after| - 1] == entry;
  }

  /** A put pushes every entry back by at most one. */
  lemma PutKeepsNear(store: seq<Entry>, maxSize: nat, entry: Entry, after: seq<Entry>, key: Key, d: nat)
    requires |store| <= maxSize && AfterPut(store, maxSize, entry, after)
    requires Near(store, key, d) && d < maxSize && key != entry.key
    ensures Near(after, key, d + 1)
  {
    var i :| 0 <= i < |store| && |store| - i <= d && store[i].key == key;
    if HasKey(store, entry.key) {
      var p :| 0 <= p < |store| && store[p].key == entry.key;
      assert after[if i < p then i else i - 1] == store[i];
    } else if |store| < maxSize {
      assert after[i] == store[i];
    } else {
      assert after[i - 1] == store[i];
    }
  }

  lemma PutKeepsRecent(store: seq<Entry>, maxSize: nat, texts: seq<Text>, text: Text, entry: Entry, after: seq<Entry>)
    requires maxSize > 0 && |store| <= maxSize && AfterPut(store, maxSize, entry, after) && entry.key == Key(Passage, text)
    requires RecentlyPut(store, texts, maxSize)
    ensures RecentlyPut(after, texts + [text], maxSize)
  {
    PutEndsNew(store, maxSize, entry, after);
    var all := texts + [text];
    forall k | 0 <= k < |all| && |all| - k <= maxSize ensures Near(after, Key(Passage, all[k]), |all| - k) {
      if all[k] != text {
        assert all[k] == texts[k];
        PutKeepsNear(store, maxSize, entry, after, Key(Passage, all[k]), |texts| - k);
      }
    }
  }

  lemma RecentAreHeld(store: seq<Entry>, texts: seq<Text>, maxSize: nat)
    requires RecentlyPut(store, texts, maxSize)
    ensures forall k :: 0 <= k < |texts| && |texts| - k <= maxSize ==> HasKey(store, Key(Passage, texts[k]))
  {
  }

  class BatchEncoder {
    const model: Model
    const cache: EmbeddingCache?
    const batchSize: nat
    ghost var batches: seq<seq<Text>>  // what the model was asked, batch by batch
    ghost var misses: seq<nat>         // positions of the last call that missed the cache

    ghost predicate Valid()
      reads this, cache
    {
      batchSize > 0 && (cache != null ==> cache.Sound(model))
    }

    constructor (model: Model, cache: EmbeddingCache?, batchSize: nat)
      requires batchSize > 0 && (cache != null ==> cache.Sound(model))
      ensures Valid() && this.model == model && this.cache == cache && this.batchSize == batchSize
    {
      this.model, this.cache, this.batchSize := model, cache, batchSize;
      batches, misses := [], [];
    }

    /**
     Transparent batching: one vector per text, in order, each what embedding that text
     alone gives -- whatever was cached and whatever is evicted on the way.  The model sees
     the misses once each, in order, in full batches, and afterwards the cache holds as many
     of the last misses as fit in it.
     */
    method EncodePassages(texts: seq<Text>) returns (vectors: seq<Vec>)
      requires Valid()
      modifies this`batches, this`misses, cache
      ensures Valid()
      ensures |vectors| == |texts| && forall i :: 0 <= i < |texts| ==> vectors[i] == model.passage(texts[i])
      ensures Increasing(misses) && forall k :: 0 <= k < |misses| ==> misses[k] < |texts|
      ensures |Concat(batches)| == |misses| && Batched(batches, batchSize)
      ensures forall k :: 0 <= k < |misses| ==> Concat(batches)[k] == texts[misses[k]]
      ensures forall i: nat :: i < |texts| ==>
                (i in misses <==> cache == null || !old(cache.Has(Key(Passage, texts[i]))))
      ensures cache != null ==> forall k :: 0 <= k < |misses| && |misses| - k <= cache.maxSize ==>
                cache.Has(Key(Passage, texts[misses[k]]))
    {
      var results: array<Option<Vec>> := new Option<Vec>[|texts|](_ => None);
      var missIndices, missTexts := Lookup(texts, results);
      EmbedMisses(texts, results, missIndices, missTexts);
      misses := missIndices;
      FilledAll(results[..], EachAlone(model, texts));
      vectors := Filled(results[..]);
      if cache != null {
        RecentAreHeld(cache.store, missTexts, cache.maxSize);
      }
    }

    /** The first loop: what the cache has, and where it has nothing. */
    method Lookup(texts: seq<Text>, results: array<Option<Vec>>) returns (missIndices: seq<nat>, missTexts: seq<Text>)
      requires Valid() && results.Length == |texts| && forall i :: 0 <= i < |texts| ==> results[i] == None
      modifies results, cache
      ensures Valid()
      ensures Increasing(missIndices) && forall k :: 0 <= k < |missIndices| ==> missIndices[k] < |texts|
      ensures missTexts == Pick(texts, missIndices)
      ensures AllBut(model, texts, results[..], missIndices)
      ensures forall i: nat :: i < |texts| ==>
                (i in missIndices <==> cache == null || !old(cache.Has(Key(Passage, texts[i]))))
    {
      missIndices, missTexts := [], [];
      for i := 0 to |texts|
        invariant Valid()
        invariant Increasing(missIndices) && forall k :: 0 <= k < |missIndices| ==> missIndices[k] < i
        invariant missTexts == Pick(texts, missIndices)
        invariant forall j :: 0 <= j < i ==>
          results[j] == if j in missIndices then None else Some(model.passage(texts[j]))
        invariant forall j :: i <= j < |texts| ==> results[j] == None
        invariant cache != null ==> forall k :: cache.Has(k) <==> old(cache.Has(k))
        invariant forall j: nat :: j < i ==>
          (j in missIndices <==> cache == null || !old(cache.Has(Key(Passage, texts[j]))))
      {
        var cached := None;
        if cache != null {
          cached := CacheGet(texts[i], Passage);
        }
        if cached.Some? {
          results[i] := cached;
        } else {
          missIndices := missIndices + [i];
          missTexts := missTexts + [texts[i]];
        }
      }
    }

    method CacheGet(text: Text, namespace: Namespace) returns (r: Option<Vec>)
      requires Valid() && cache != null
      modifies cache
      ensures Valid()
      ensures r.Some? ==> r.value == model.Embed(Key(namespace, text))
      ensures r.Some? <==> old(cache.Has(Key(namespace, text)))
      ensures r.Some? ==> cache.store != [] && Last(cache.store) == Entry(Key(namespace, text), r.value)
      ensures forall k :: cache.Has(k) <==> old(cache.Has(k))
    {
      r := cache.Get(text, namespace);
    }

    method CachePut(text: Text, vector: Vec, namespace: Namespace)
      requires Valid() && cache != null && vector == model.Embed(Key(namespace, text))
      modifies cache
      ensures Valid()
      ensures AfterPut(old(cache.store), cache.maxSize, Entry(Key(namespace, text), vector), cache.store)
      ensures cache.store != [] && Last(cache.store) == Entry(Key(namespace, text), vector)
    {
      cache.Put(text, vector, namespace);
      PutEndsNew(old(cache.store), cache.maxSize, Entry(Key(namespace, text), vector), cache.store);
    }

    /** The second loop: the misses in batches, scattered back to their positions. */
    method EmbedMisses(texts: seq<Text>, results: array<Option<Vec>>, missIndices: seq<nat>, missTexts: seq<Text>)
      requires Valid() && results.Length == |texts|
      requires Increasing(missIndices) && forall k :: 0 <= k < |missIndices| ==> missIndices[k] < |texts|
      requires missTexts == Pick(texts, missIndices)
      requires AllBut(model, texts, results[..], missIndices)
      modifies this`batches, results, cache
      ensures Valid()
      ensures AllBut(model, texts, results[..], [])
      ensures Concat(batches) == missTexts && Batched(batches, batchSize)
      ensures cache != null ==> RecentlyPut(cache.store, missTexts, cache.maxSize)
    {
      hide AllBut, Concat, Near;
      batches := [];
      var start := 0;
      assert missIndices[0..] == missIndices && missTexts[..0] == [];
      NothingConcat();
      while start < |missTexts|
        invariant 0 <= start <= |missTexts| && Valid()
        invariant AllBut(model, texts, results[..], missIndices[start..])
        invariant Concat(batches) == missTexts[..start]
        invariant cache != null ==> RecentlyPut(cache.store, missTexts[..start], cache.maxSize)
        invariant Batched(batches, batchSize)
        invariant start < |missTexts| ==> forall i :: 0 <= i < |batches| ==> |batches[i]| == batchSize
        decreases |missTexts| - start
      {
        var stop := if start + batchSize <= |missTexts| then start + batchSize else |missTexts|;
        ScatterBatch(texts, results, missIndices, missTexts, start, stop);
        ConcatSnoc(batches, missTexts[start..stop]);
        assert missTexts[..start] + missTexts[start..stop] == missTexts[..stop];
        batches := batches + [missTexts[start..stop]];
        start := stop;
      }
      assert missIndices[start..] == [] && missTexts[..start] == missTexts;
    }

    method ScatterBatch(texts: seq<Text>, results: array<Option<Vec>>, missIndices: seq<nat>, missTexts: seq<Text>,
                        start: nat, stop: nat)
      requires Valid() && results.Length == |texts| && start <= stop <= |missIndices|
      requires Increasing(missIndices) && forall k :: 0 <= k < |missIndices| ==> missIndices[k] < |texts|
      requires missTexts == Pick(texts, missIndices)
      requires AllBut(model, texts, results[..], missIndices[start..])
      requires cache != null ==> RecentlyPut(cache.store, missTexts[..start], cache.maxSize)
      modifies results, cache
      ensures Valid()
      ensures AllBut(model, texts, results[..], missIndices[stop..])
      ensures cache != null ==> RecentlyPut(cache.store, missTexts[..stop], cache.maxSize)
    {
      hide AfterPut, RecentlyPut, Near, HasKey, DistinctKeys;
      var batchTexts := missTexts[start..stop];
      var vectors := model.EmbedPassages(batchTexts);
      for k := start to stop
        invariant Valid()
        invariant cache != null ==> RecentlyPut(cache.store, missTexts[..k], cache.maxSize)
        invariant forall i :: 0 <= i < |texts| ==>
          results[i] == if i in missIndices[k..] then None else Some(model.passage(texts[i]))
      {
        var index := missIndices[k];
        var vector := vectors[k - start];
        assert batchTexts[k - start] == texts[index];
        assert missIndices[k..] == [index] + missIndices[k + 1..];
        results[index] := Some(vector);
        if cache != null {
          ghost var before := cache.store;
          CachePut(texts[index], vector, Passage);
          ghost var entry := Entry(Key(Passage, texts[index]), vector);
          PutKeepsRecent(before, cache.maxSize, missTexts[..k], texts[index], entry, cache.store);
          assert missTexts[..k + 1] == missTexts[..k] + [texts[index]];
        }
      }
    }

    method EncodeQuery(text: Text) returns (vector: Vec)
      requires Valid()
      modifies cache
      ensures Valid()
      ensures vector == model.query(text)
      ensures cache != null ==> cache.store != [] && Last(cache.store) == Entry(Key(Query, text), vector)
    {
      if cache != null {
        var cached := CacheGet(text, Query);
        if cached.Some? {
          return cached.value;
        }
      }
      vector := model.query(text);
      if cache != null {
        CachePut(text, vector, Query);
      }
    }
  }
}
