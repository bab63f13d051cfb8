/**
 The in-process search-result cache: least-recently-used eviction, a time to live, and a
 generation counter per tenant that makes invalidation a single increment.  It is proved
 against an ideal cache defined on the history of events.
 */
module SearchCache {
  import opened Prelude

  // ---------------------------------------------------------------- keys

  /** `f"{tenant_id}:{generation}:{key}"`. */
  function FullKey(tenant: string, generation: nat, key: string): string
  {
    tenant + ":" + Decimal(generation) + ":" + key
  }

  predicate ColonFree(s: string)
  {
    forall i :: 0 <= i < |s| ==> s[i] != ':'
  }

  lemma LastColon(a: string, x: string, b: string, y: string)
    requires ColonFree(x) && ColonFree(y)
    requires a + ":" + x == b + ":" + y
    ensures a == b && x == y
  {
    var s := a + ":" + x;
    assert s[|a|] == ':' && (b + ":" + y)[|b|] == ':';
    forall i | |a| < i < |s| ensures s[i] != ':' {
      assert s[i] == x[i - |a| - 1];
    }
    forall i | |b| < i < |s| ensures (b + ":" + y)[i] != ':' {
      assert (b + ":" + y)[i] == y[i - |b| - 1];
    }
    assert |a| == |b|;
    assert s[..|a|] == a && (b + ":" + y)[..|b|] == b;
    assert s[|a| + 1..] == x && (b + ":" + y)[|b| + 1..] == y;
  }

  /** Keys without colons -- the hex digests the search route uses -- address one entry each. */
  lemma FullKeyInjective(t: string, g: nat, k: string, u: string, h: nat, l: string)
    requires ColonFree(k) && ColonFree(l) && FullKey(t, g, k) == FullKey(u, h, l)
    ensures t == u && g == h && k == l
  {
    LastColon(t + ":" + Decimal(g), k, u + ":" + Decimal(h), l);
    LastColon(t, Decimal(g), u, Decimal(h));
    DecimalInjective(g, h);
  }

  /** With colons in keys two tenants can share an entry. */
  lemma ColonKeysCollide()
    ensures FullKey("a", 0, "0:x") == FullKey("a:0", 0, "x")
  {
    assert Decimal(0) == ['0'];
  }

  // ---------------------------------------------------------------- the ideal cache

  datatype Tag = Tag(tenant: string, generation: nat, key: string)

  datatype Event<V> =
    | Stored(tag: Tag, value: V, at: real)
    | Read(tag: Tag)
    | Invalidated(tenant: string)

  /** The value last put for a tenant's key since the tenant's last invalidation, and when. */
  function Latest<V>(log: seq<Event<V>>, tenant: string, key: string): Option<(V, real)>
  {
    if log == [] then None
    else match Last(log)
      case Stored(tag, value, at) =>
        if tag.tenant == tenant && tag.key == key then Some((value, at)) else Latest(Front(log), tenant, key)
      case Invalidated(t) => if t == tenant then None else Latest(Front(log), tenant, key)
      case Read(_) => Latest(Front(log), tenant, key)
  }

  /** The event decides what the tenant's key holds from then on. */
  predicate Decides<V>(e: Event<V>, tenant: string, key: string)
  {
    || (e.Stored? && e.tag.tenant == tenant && e.tag.key == key)
    || (e.Invalidated? && e.tenant == tenant)
  }

  /** Event `i` put this value for the tenant's key, and nothing behind it decided otherwise. */
  predicate LastPut<V(==)>(log: seq<Event<V>>, i: nat, tenant: string, key: string, value: V, at: real)
  {
    && i < |log| && log[i].Stored? && Decides(log[i], tenant, key) && log[i].value == value && log[i].at == at
    && forall j :: i < j < |log| ==> !Decides(log[j], tenant, key)
  }

  /** The ideal cache holds a value exactly when some put of it is the last word on the key. */
  lemma {:induction false} LatestIs<V>(log: seq<Event<V>>, tenant: string, key: string, value: V, at: real)
    ensures Latest(log, tenant, key) == Some((value, at)) <==> exists i: nat :: LastPut(log, i, tenant, key, value, at)
  {
    if log != [] {
      var front, n := Front(log), |log| - 1;
      LatestIs(front, tenant, key, value, at);
      forall i: nat | i < n
        ensures LastPut(log, i, tenant, key, value, at) <==>
                  LastPut(front, i, tenant, key, value, at) && !Decides(log[n], tenant, key)
      {
        assert forall j :: 0 <= j < n ==> front[j] == log[j];
      }
      if Latest(log, tenant, key) == Some((value, at)) && Decides(log[n], tenant, key) {
        assert LastPut(log, n, tenant, key, value, at);
      }
    }
  }

  /** How often a tenant was invalidated. */
  function Invalidations<V>(log: seq<Event<V>>, tenant: string): nat
  {
    if log == [] then 0
    else Invalidations(Front(log), tenant) + if Last(log) == Invalidated(tenant) then 1 else 0
  }

  predicate Uses<V>(e: Event<V>, tag: Tag)
  {
    (e.Stored? || e.Read?) && e.tag == tag
  }

  /** When an entry was last put or read, as a position in the history; 0 for never. */
  function LastUse<V>(log: seq<Event<V>>, tag: Tag): nat
  {
    if log == [] then 0 else if Uses(Last(log), tag) then |log| else LastUse(Front(log), tag)
  }

  /** It is the position behind the last put or read of the entry. */
  lemma {:induction false} LastUseIs<V>(log: seq<Event<V>>, tag: Tag, n: nat)
    ensures LastUse(log, tag) == n + 1 <==>
              n < |log| && Uses(log[n], tag) && forall j :: n < j < |log| ==> !Uses(log[j], tag)
    ensures LastUse(log, tag) == 0 <==> forall j :: 0 <= j < |log| ==> !Uses(log[j], tag)
  {
    if log != [] {
      LastUseIs(Front(log), tag, n);
      assert forall j :: 0 <= j < |log| - 1 ==> Front(log)[j] == log[j];
    }
  }

  lemma LogSnoc<V>(log: seq<Event<V>>, e: Event<V>)
    ensures Front(log + [e]) == log && Last(log + [e]) == e
  {
  }

  lemma {:induction false} LastUseBounded<V>(log: seq<Event<V>>, tag: Tag)
    ensures LastUse(log, tag) <= |log|
  {
    if log != [] {
      LastUseBounded(Front(log), tag);
    }
  }

  // ---------------------------------------------------------------- the cache

  datatype Entry<V> = Entry(fullKey: string, expiresAt: real, value: V)

  function Without<T>(s: seq<T>, i: nat): seq<T>
    requires i < |s|
  {
    s[..i] + s[i + 1..]
  }

  predicate TagsMatch<V>(store: seq<Entry<V>>, tags: seq<Tag>)
  {
    && |store| == |tags|
    && (forall i :: 0 <= i < |tags| ==> ColonFree(tags[i].key))
    && (forall i :: 0 <= i < |tags| ==>
          store[i].fullKey == FullKey(tags[i].tenant, tags[i].generation, tags[i].key))
    && (forall i, j :: 0 <= i < j < |tags| ==> tags[i] != tags[j])
  }

  /** An entry of the tenant's current generation holds what the ideal cache holds. */
  ghost predicate EntryOk<V>(entry: Entry<V>, tag: Tag, log: seq<Event<V>>, ttl: real)
  {
    && tag.generation <= Invalidations(log, tag.tenant)
    && (tag.generation == Invalidations(log, tag.tenant) ==>
          Latest(log, tag.tenant, tag.key) == Some((entry.value, entry.expiresAt - ttl)))
  }

  /** The store against the history: entries are sound, least recently used first. */
  ghost predicate StoreOk<V>(store: seq<Entry<V>>, tags: seq<Tag>, log: seq<Event<V>>, ttl: real)
  {
    && TagsMatch(store, tags)
    && (forall i :: 0 <= i < |tags| ==> EntryOk(store[i], tags[i], log, ttl))
    && (forall i, j :: 0 <= i < j < |tags| ==> LastUse(log, tags[i]) < LastUse(log, tags[j]))
  }

  lemma SameLength<V>(store: seq<Entry<V>>, tags: seq<Tag>, log: seq<Event<V>>, ttl: real)
    requires StoreOk(store, tags, log, ttl)
    ensures |store| == |tags|
  {
  }

  lemma WithoutAt<T>(s: seq<T>, i: nat)
    requires i < |s|
    ensures |Without(s, i)| == |s| - 1
    ensures forall k :: 0 <= k < |s| - 1 ==> Without(s, i)[k] == s[if k < i then k else k + 1]
  {
  }

  lemma WithoutTags(tags: seq<Tag>, i: nat)
    requires i < |tags| && forall j, k :: 0 <= j < k < |tags| ==> tags[j] != tags[k]
    ensures tags[i] !in Without(tags, i)
    ensures multiset(Without(tags, i)) == multiset(tags) - multiset{tags[i]}
    ensures forall t :: t in tags && t != tags[i] ==> t in Without(tags, i)
    ensures forall t :: t in Without(tags, i) ==> t in tags
  {
    WithoutAt(tags, i);
    assert tags == tags[..i] + [tags[i]] + tags[i + 1..];
  }

  /** Removing an entry keeps the rest sound and in order. */
  lemma RemoveKeeps<V>(store: seq<Entry<V>>, tags: seq<Tag>, log: seq<Event<V>>, ttl: real, i: nat)
    requires StoreOk(store, tags, log, ttl) && i < |tags|
    ensures StoreOk(Without(store, i), Without(tags, i), log, ttl)
  {
    WithoutAt(store, i);
    WithoutAt(tags, i);
    RemoveMatches(store, tags, i);
    var rest := Without(tags, i);
    forall j, k | 0 <= j < k < |rest| ensures LastUse(log, rest[j]) < LastUse(log, rest[k]) {
      var j', k' := if j < i then j else j + 1, if k < i then k else k + 1;
      assert rest[j] == tags[j'] && rest[k] == tags[k'];
    }
  }

  lemma RemoveMatches<V>(store: seq<Entry<V>>, tags: seq<Tag>, i: nat)
    requires TagsMatch(store, tags) && i < |tags|
    ensures TagsMatch(Without(store, i), Without(tags, i))
  {
    WithoutAt(store, i);
    WithoutAt(tags, i);
    var rest := Without(tags, i);
    forall j, k | 0 <= j < k < |rest| ensures rest[j] != rest[k] {
      var j', k' := if j < i then j else j + 1, if k < i then k else k + 1;
      assert rest[j] == tags[j'] && rest[k] == tags[k'];
    }
  }

  /** The event uses a tag of the tenant's current generation. */
  ghost predicate Current<V>(log: seq<Event<V>>, e: Event<V>)
  {
    (e.Stored? || e.Read?) && ColonFree(e.tag.key) && e.tag.generation == Invalidations(log, e.tag.tenant)
  }

  lemma OthersKeep<V>(entry: Entry<V>, tag: Tag, log: seq<Event<V>>, ttl: real, e: Event<V>)
    requires EntryOk(entry, tag, log, ttl) && Current(log, e) && tag != e.tag
    ensures EntryOk(entry, tag, log + [e], ttl)
    ensures LastUse(log + [e], tag) == LastUse(log, tag) <= |log|
  {
    LogSnoc(log, e);
    LastUseBounded(log, tag);
  }

  lemma UsedOk<V>(entry: Entry<V>, log: seq<Event<V>>, ttl: real, e: Event<V>)
    requires Current(log, e)
    requires e.Stored? ==> entry.value == e.value && entry.expiresAt == e.at + ttl
    requires e.Read? ==> EntryOk(entry, e.tag, log, ttl)
    ensures EntryOk(entry, e.tag, log + [e], ttl)
    ensures LastUse(log + [e], e.tag) == |log| + 1
    ensures forall t :: Invalidations(log + [e], t) == Invalidations(log, t)
  {
    LogSnoc(log, e);
  }

  /** Using a tag that is not in the store puts its entry at the recently used end. */
  lemma UseKeeps<V>(store: seq<Entry<V>>, tags: seq<Tag>, log: seq<Event<V>>, ttl: real, entry: Entry<V>, e: Event<V>)
    requires StoreOk(store, tags, log, ttl) && Current(log, e) && e.tag !in tags
    requires entry.fullKey == FullKey(e.tag.tenant, e.tag.generation, e.tag.key)
    requires e.Stored? ==> entry.value == e.value && entry.expiresAt == e.at + ttl
    requires e.Read? ==> EntryOk(entry, e.tag, log, ttl)
    ensures StoreOk(store + [entry], tags + [e.tag], log + [e], ttl)
    ensures forall t :: Invalidations(log + [e], t) == Invalidations(log, t)
  {
    UsedOk(entry, log, ttl, e);
    forall i | 0 <= i < |tags|
      ensures EntryOk(store[i], tags[i], log + [e], ttl)
      ensures LastUse(log + [e], tags[i]) == LastUse(log, tags[i]) <= |log|
    {
      assert tags[i] != e.tag;
      OthersKeep(store[i], tags[i], log, ttl, e);
    }
  }

  /** The entry at the front of a store was used before every other. */
  lemma FrontIsLeastRecent<V>(store: seq<Entry<V>>, tags: seq<Tag>, log: seq<Event<V>>, ttl: real)
    requires StoreOk(store, tags, log, ttl) && tags != []
    ensures forall t, u :: t in tags && t !in Without(tags, 0) && u in Without(tags, 0) ==>
              LastUse(log, t) < LastUse(log, u)
  {
    var rest := Without(tags, 0);
    WithoutTags(tags, 0);
    WithoutAt(tags, 0);
    forall u | u in rest ensures LastUse(log, tags[0]) < LastUse(log, u) {
      var j :| 0 <= j < |rest| && rest[j] == u;
      assert tags[j + 1] == u;
    }
  }

  /** Without its front a store is sound, and what left it was used before all that stay. */
  lemma EvictKeeps<V>(store: seq<Entry<V>>, tags: seq<Tag>, log: seq<Event<V>>, ttl: real)
    requires StoreOk(store, tags, log, ttl) && store != []
    ensures tags != [] && StoreOk(store[1..], tags[1..], log, ttl)
    ensures forall t, u :: t in tags && t !in tags[1..] && u in tags[1..] ==> LastUse(log, t) < LastUse(log, u)
  {
    SameLength(store, tags, log, ttl);
    hide StoreOk, LastUse;
    FrontIsLeastRecent(store, tags, log, ttl);
    RemoveKeeps(store, tags, log, ttl, 0);
    WithoutFront(store);
    WithoutFront(tags);
    hide Without;
  }

  lemma WithoutFront<T>(s: seq<T>)
    requires s != []
    ensures Without(s, 0) == s[1..]
  {
  }

  lemma InvalidateKeeps<V>(store: seq<Entry<V>>, tags: seq<Tag>, log: seq<Event<V>>, ttl: real, tenant: string)
    requires StoreOk(store, tags, log, ttl)
    ensures StoreOk(store, tags, log + [Invalidated(tenant)], ttl)
  {
    LogSnoc(log, Invalidated(tenant));
  }

  class InMemorySearchCache<V> {
    const maxEntries: nat
    const ttl: real
    var store: seq<Entry<V>>  // least recently used first
    var generations: map<string, nat>
    ghost var log: seq<Event<V>>
    ghost var tags: seq<Tag>  // what each entry of the store was put for

    ghost predicate Valid()
      reads this
    {
      && maxEntries > 0 && ttl > 0.0 && |store| <= maxEntries
      && StoreOk(store, tags, log, ttl)
      && (forall t :: GenerationOf(t) == Invalidations(log, t))
    }

    function GenerationOf(tenant: string): nat
      reads this
    {
      if tenant in generations then generations[tenant] else 0
    }

    function TagOf(tenant: string, key: string): Tag
      reads this
    {
      Tag(tenant, GenerationOf(tenant), key)
    }

    constructor (maxEntries: nat, ttl: real)
      requires maxEntries > 0 && ttl > 0.0
      ensures Valid() && store == [] && log == [] && this.maxEntries == maxEntries && this.ttl == ttl
    {
      this.maxEntries, this.ttl := maxEntries, ttl;
      store, generations, log, tags := [], map[], [], [];
    }

    /** Where the entry of a full key is, or the length of the store. */
    method Find(tenant: string, key: string) returns (i: nat)
      requires Valid() && ColonFree(key)
      ensures i <= |store|
      ensures i < |store| ==> tags[i] == TagOf(tenant, key)
      ensures i == |store| ==> TagOf(tenant, key) !in tags
    {
      var fullKey := FullKey(tenant, GenerationOf(tenant), key);
      i := 0;
      while i < |store|
        invariant i <= |store|
        invariant TagOf(tenant, key) !in tags[..i]
      {
        if store[i].fullKey == fullKey {
          FullKeyInjective(tags[i].tenant, tags[i].generation, tags[i].key, tenant, GenerationOf(tenant), key);
          return;
        }
        assert tags[..i + 1] == tags[..i] + [tags[i]];
        i := i + 1;
      }
      assert tags[..|store|] == tags;
    }

    /**
     A hit is the value last put since the tenant's last invalidation, less than `ttl` ago.
     It hits exactly when the entry is still held and not expired; an expired entry is
     dropped, and a hit becomes the most recently used.
     */
    method Get(tenant: string, key: string, now: real) returns (r: Option<V>)
      requires Valid() && ColonFree(key)
      modifies this`store, this`log, this`tags
      ensures Valid()
      ensures r.Some? ==> var ideal := Latest(old(log), tenant, key);
        ideal.Some? && ideal.value.0 == r.value && now < ideal.value.1 + ttl
      ensures r.Some? <==> TagOf(tenant, key) in old(tags)
                           && Latest(old(log), tenant, key).Some?
                           && now < Latest(old(log), tenant, key).value.1 + ttl
      ensures r.Some? ==> log == old(log) + [Read(TagOf(tenant, key))]
      ensures r.Some? ==> tags != [] && Last(tags) == TagOf(tenant, key)
      ensures r.Some? ==> forall t :: t in tags <==> t in old(tags)
      ensures r.None? ==> log == old(log) && forall t :: t in tags <==> t in old(tags) && t != TagOf(tenant, key)
    {
      ghost var tag := TagOf(tenant, key);
      var i := Find(tenant, key);
      if i == |store| {
        return None;
      }
      var entry := store[i];
      assert EntryOk(store[i], tags[i], log, ttl);
      Drop(i);
      if now >= entry.expiresAt {
        return None;
      }
      Push(entry, Read(tag));
      r := Some(entry.value);
    }

    /** `del self._store[key]`. */
    method Drop(i: nat)
      requires Valid() && i < |store|
      modifies this`store, this`tags
      ensures Valid() && store == Without(old(store), i) && tags == Without(old(tags), i)
      ensures old(tags)[i] !in tags
      ensures forall t :: t in tags <==> t in old(tags) && t != old(tags)[i]
    {
      RemoveKeeps(store, tags, log, ttl, i);
      WithoutTags(tags, i);
      store, tags := Without(store, i), Without(tags, i);
    }

    /** Puts an entry at the recently used end, recording the use; the store may exceed its limit by one. */
    method Push(entry: Entry<V>, ghost e: Event<V>)
      requires Valid() && Current(log, e) && e.tag !in tags
      requires entry.fullKey == FullKey(e.tag.tenant, e.tag.generation, e.tag.key)
      requires e.Stored? ==> entry.value == e.value && entry.expiresAt == e.at + ttl
      requires e.Read? ==> EntryOk(entry, e.tag, log, ttl)
      modifies this`store, this`tags, this`log
      ensures StoreOk(store, tags, log, ttl) && (|store| <= maxEntries ==> Valid())
      ensures forall t :: GenerationOf(t) == Invalidations(log, t)
      ensures store == old(store) + [entry] && tags == old(tags) + [e.tag] && log == old(log) + [e]
    {
      UseKeeps(store, tags, log, ttl, entry, e);
      store, tags, log := store + [entry], tags + [e.tag], log + [e];
    }

    /**
     The new entry is the most recently used; when the cache was full, exactly one entry
     goes, and it was used less recently than every entry that stays.
     */
    method Put(tenant: string, key: string, value: V, now: real)
      requires Valid() && ColonFree(key)
      modifies this`store, this`log, this`tags
      ensures Valid() && log == old(log) + [Stored(TagOf(tenant, key), value, now)]
      ensures Latest(log, tenant, key) == Some((value, now))
      ensures tags != [] && Last(tags) == TagOf(tenant, key) && Last(store).value == value
      ensures forall t :: t in tags ==> t in old(tags) || t == TagOf(tenant, key)
      ensures forall t, u :: t in old(tags) && t !in tags && u in tags ==> LastUse(log, t) < LastUse(log, u)
      ensures TagOf(tenant, key) in old(tags) || |old(tags)| < maxEntries ==> forall t :: t in old(tags) ==> t in tags
      ensures |tags| >= |old(tags)|
    {
      ghost var tag := TagOf(tenant, key);
      var i := Find(tenant, key);
      if i < |store| {
        Drop(i);
      }
      var entry := Entry(FullKey(tenant, GenerationOf(tenant), key), now + ttl, value);
      LogSnoc(log, Stored(tag, value, now));
      Push(entry, Stored(tag, value, now));
      if |store| > maxEntries {
        Evict();
      }
    }

    /** `popitem(last=False)` on a store one over its limit. */
    method Evict()
      requires maxEntries > 0 && ttl > 0.0 && |store| == maxEntries + 1
      requires StoreOk(store, tags, log, ttl) && forall t :: GenerationOf(t) == Invalidations(log, t)
      modifies this`store, this`tags
      ensures Valid() && store == old(store)[1..] && tags == old(tags)[1..]
      ensures forall t, u :: t in old(tags) && t !in tags && u in tags ==> LastUse(log, t) < LastUse(log, u)
    {
      EvictKeeps(store, tags, log, ttl);
      hide StoreOk, LastUse, Invalidations;
      store, tags := store[1..], tags[1..];
    }

    /** One increment; no entry moves, and other tenants' hits stay what they were. */
    method InvalidateTenant(tenant: string)
      requires Valid()
      modifies this`generations, this`log
      ensures Valid() && log == old(log) + [Invalidated(tenant)]
      ensures store == old(store) && tags == old(tags)
      ensures forall key :: Latest(log, tenant, key) == None && TagOf(tenant, key) !in tags
      ensures forall other, key :: other != tenant ==>
                Latest(log, other, key) == Latest(old(log), other, key) && TagOf(other, key) == old(TagOf(other, key))
    {
      InvalidateKeeps(store, tags, log, ttl, tenant);
      LogSnoc(log, Invalidated(tenant));
      generations := generations[tenant := GenerationOf(tenant) + 1];
      log := log + [Invalidated(tenant)];
    }
  }
}
