/**
 The inner vector index as the persistence layer sees it: a map from chunk id to
 vector.  `add` overwrites, `remove` of an absent id does nothing.  The write-ahead
 log is a sequence of these operations and recovery is a fold over it.
 */
module VectorIndex {
  import opened Prelude

  type Id = nat

  /** A floating-point number, as its bit pattern: nothing here computes with it. */
  datatype Float = Float(bits: nat)

  datatype Vec = Vec(values: seq<Float>)

  type Index = map<Id, Vec>

  datatype Op = Add(ids: seq<Id>, vectors: seq<Vec>) | Remove(id: Id)

  /** `for chunk_id, vector in zip(ids, vectors)`: stops at the shorter list. */
  function AddAll(ix: Index, ids: seq<Id>, vectors: seq<Vec>): Index
    decreases ids
  {
    if ids == [] || vectors == [] then ix
    else AddAll(ix[ids[0] := vectors[0]], ids[1..], vectors[1..])
  }

  function Apply(ix: Index, op: Op): Index
  {
    match op
    case Add(ids, vectors) => AddAll(ix, ids, vectors)
    case Remove(id) => ix - {id}
  }

  function Replay(ix: Index, ops: seq<Op>): Index
    decreases ops
  {
    if ops == [] then ix else Replay(Apply(ix, ops[0]), ops[1..])
  }

  function Lookup(ix: Index, id: Id): Option<Vec>
  {
    if id in ix then Some(ix[id]) else None
  }

  /** What a batch add leaves at `id`, or None when the batch does not name it. */
  function LastAdded(ids: seq<Id>, vectors: seq<Vec>, id: Id): Option<Vec>
  {
    if ids == [] || vectors == [] then None
    else
      var rest := LastAdded(ids[1..], vectors[1..], id);
      if rest.Some? then rest else if ids[0] == id then Some(vectors[0]) else None
  }

  /**
   The effect of an operation on one id: None when it does not touch the id,
   otherwise what the id holds afterwards.
   */
  function Effect(op: Op, id: Id): Option<Option<Vec>>
  {
    match op
    case Add(ids, vectors) =>
      var v := LastAdded(ids, vectors, id);
      if v.Some? then Some(v) else None
    case Remove(x) => if x == id then Some(None) else None
  }

  /** The effect of a whole log on one id: that of the last operation touching it. */
  function LogEffect(ops: seq<Op>, id: Id): Option<Option<Vec>>
  {
    if ops == [] then None
    else
      var rest := LogEffect(ops[1..], id);
      if rest.Some? then rest else Effect(ops[0], id)
  }

  lemma {:induction false} AddAllLookup(ix: Index, ids: seq<Id>, vectors: seq<Vec>, id: Id)
    ensures Lookup(AddAll(ix, ids, vectors), id) ==
            (var v := LastAdded(ids, vectors, id); if v.Some? then v else Lookup(ix, id))
    decreases ids
  {
    if ids != [] && vectors != [] {
      AddAllLookup(ix[ids[0] := vectors[0]], ids[1..], vectors[1..], id);
    }
  }

  lemma ApplyLookup(ix: Index, op: Op, id: Id)
    ensures Lookup(Apply(ix, op), id) ==
            (var e := Effect(op, id); if e.Some? then e.value else Lookup(ix, id))
  {
    match op
    case Add(ids, vectors) => AddAllLookup(ix, ids, vectors, id);
    case Remove(x) =>
  }

  lemma {:induction false} ReplayEffect(ix: Index, ops: seq<Op>, id: Id)
    ensures Lookup(Replay(ix, ops), id) ==
            (var e := LogEffect(ops, id); if e.Some? then e.value else Lookup(ix, id))
    decreases ops
  {
    if ops != [] {
      ReplayEffect(Apply(ix, ops[0]), ops[1..], id);
      ApplyLookup(ix, ops[0], id);
    }
  }

  /** Position `k` of a batch is the last that names the id. */
  predicate LastNamed(ids: seq<Id>, vectors: seq<Vec>, id: Id, k: nat)
  {
    && k < |ids| && k < |vectors| && ids[k] == id
    && forall j :: k < j < |ids| && j < |vectors| ==> ids[j] != id
  }

  predicate Names(ids: seq<Id>, vectors: seq<Vec>, id: Id)
  {
    exists k :: 0 <= k < |ids| && k < |vectors| && ids[k] == id
  }

  predicate Touches(op: Op, id: Id)
  {
    match op
    case Add(ids, vectors) => Names(ids, vectors, id)
    case Remove(x) => x == id
  }

  /** What the operation leaves at an id it touches: the last vector given for it, or nothing. */
  ghost predicate Leaves(op: Op, id: Id, v: Option<Vec>)
  {
    match op
    case Add(ids, vectors) => exists k: nat :: LastNamed(ids, vectors, id, k) && v == Some(vectors[k])
    case Remove(x) => x == id && v == None
  }

  lemma {:induction false} LastAddedIs(ids: seq<Id>, vectors: seq<Vec>, id: Id)
    ensures var v := LastAdded(ids, vectors, id);
      && (v.Some? <==> Names(ids, vectors, id))
      && (v.Some? ==> exists k: nat :: LastNamed(ids, vectors, id, k) && v == Some(vectors[k]))
  {
    if ids != [] && vectors != [] {
      var rest := LastAdded(ids[1..], vectors[1..], id);
      LastAddedIs(ids[1..], vectors[1..], id);
      if rest.Some? {
        var k: nat :| LastNamed(ids[1..], vectors[1..], id, k) && rest == Some(vectors[1..][k]);
        assert LastNamed(ids, vectors, id, k + 1);
      } else {
        forall j | 0 < j < |ids| && j < |vectors| ensures ids[j] != id {
          assert ids[1..][j - 1] == ids[j];
        }
        assert ids[0] == id ==> LastNamed(ids, vectors, id, 0);
      }
    }
  }

  lemma EffectIs(op: Op, id: Id)
    ensures Effect(op, id).Some? <==> Touches(op, id)
    ensures Effect(op, id).Some? ==> Leaves(op, id, Effect(op, id).value)
  {
    if op.Add? {
      LastAddedIs(op.ids, op.vectors, id);
    }
  }

  /** Operation `i` is the last that touches the id. */
  predicate LastTouch(ops: seq<Op>, i: nat, id: Id)
  {
    i < |ops| && Touches(ops[i], id) && forall j :: i < j < |ops| ==> !Touches(ops[j], id)
  }

  lemma {:induction false} LogEffectIs(ops: seq<Op>, id: Id)
    ensures LogEffect(ops, id).None? <==> forall i :: 0 <= i < |ops| ==> !Touches(ops[i], id)
    ensures forall i: nat :: LastTouch(ops, i, id) ==> LogEffect(ops, id) == Effect(ops[i], id)
    decreases ops
  {
    hide Touches, Effect;
    if ops != [] {
      EffectIs(ops[0], id);
      LogEffectIs(ops[1..], id);
      assert forall i :: 0 < i < |ops| ==> ops[1..][i - 1] == ops[i];
      forall i: nat | LastTouch(ops, i, id) ensures LogEffect(ops, id) == Effect(ops[i], id) {
        assert i > 0 ==> LastTouch(ops[1..], i - 1, id);
      }
    }
  }

  /**
   Replaying a log leaves at every id what the last operation touching it left there, and
   leaves alone the ids that no operation touches.
   */
  lemma ReplayLookup(ix: Index, ops: seq<Op>, id: Id)
    ensures forall i: nat :: LastTouch(ops, i, id) ==> Leaves(ops[i], id, Lookup(Replay(ix, ops), id))
    ensures (forall i :: 0 <= i < |ops| ==> !Touches(ops[i], id)) ==> Lookup(Replay(ix, ops), id) == Lookup(ix, id)
  {
    hide Touches, Effect, Leaves;
    ReplayEffect(ix, ops, id);
    LogEffectIs(ops, id);
    forall i: nat | LastTouch(ops, i, id) ensures Leaves(ops[i], id, Lookup(Replay(ix, ops), id)) {
      EffectIs(ops[i], id);
    }
  }

  /** The same for one batch. */
  lemma AddAllIs(ix: Index, ids: seq<Id>, vectors: seq<Vec>, id: Id)
    ensures forall k: nat :: LastNamed(ids, vectors, id, k) ==> Lookup(AddAll(ix, ids, vectors), id) == Some(vectors[k])
    ensures !Names(ids, vectors, id) ==> Lookup(AddAll(ix, ids, vectors), id) == Lookup(ix, id)
  {
    AddAllLookup(ix, ids, vectors, id);
    LastAddedIs(ids, vectors, id);
  }

  lemma IndexEqual(a: Index, b: Index)
    requires forall id :: Lookup(a, id) == Lookup(b, id)
    ensures a == b
  {
    forall id ensures id in a <==> id in b {
      assert Lookup(a, id) == Lookup(b, id);
    }
    forall id | id in a ensures a[id] == b[id] {
      assert Lookup(a, id) == Lookup(b, id);
    }
  }

  lemma {:induction false} ReplayAppend(ix: Index, a: seq<Op>, b: seq<Op>)
    ensures Replay(ix, a + b) == Replay(Replay(ix, a), b)
    decreases a
  {
    if a == [] {
      assert a + b == b;
    } else {
      ReplayAppend(Apply(ix, a[0]), a[1..], b);
      assert (a + b)[1..] == a[1..] + b;
    }
  }

  lemma ReplaySnoc(ix: Index, a: seq<Op>, op: Op)
    ensures Replay(ix, a + [op]) == Apply(Replay(ix, a), op)
  {
    ReplayAppend(ix, a, [op]);
    assert [op][1..] == [];
    assert Replay(Replay(ix, a), [op]) == Replay(Apply(Replay(ix, a), op), []);
  }

  /**
   Replay idempotence: a log replayed over an index that already contains its effects
   changes nothing, for any mix of batch adds and removes, and this stays so when more
   operations (`later`) have been logged behind it.
   */
  lemma ReplayIdempotent(ix: Index, log: seq<Op>, later: seq<Op>)
    ensures Replay(Replay(ix, log), log + later) == Replay(ix, log + later)
  {
    var once := Replay(ix, log);
    forall id ensures Lookup(Replay(once, log), id) == Lookup(once, id) {
      ReplayEffect(once, log, id);
      ReplayEffect(ix, log, id);
    }
    IndexEqual(Replay(once, log), once);
    ReplayAppend(once, log, later);
    ReplayAppend(ix, log, later);
  }

  /**
   The form recovery needs: a snapshot of the first `n` operations under a log that
   starts at operation `k <= n` recovers the fold of all operations.
   */
  lemma ReplayOverSnapshot(ops: seq<Op>, k: nat, n: nat)
    requires k <= n <= |ops|
    ensures Replay(Replay(map[], ops[..n]), ops[k..]) == Replay(map[], ops)
  {
    hide Replay;
    var base := Replay(map[], ops[..k]);
    ReplayAppend(map[], ops[..k], ops[k..n]);
    assert ops[..k] + ops[k..n] == ops[..n];
    ReplayIdempotent(base, ops[k..n], ops[n..]);
    assert ops[k..n] + ops[n..] == ops[k..];
    ReplayAppend(map[], ops[..k], ops[k..]);
    assert ops[..k] + ops[k..] == ops;
  }

  // ---------------------------------------------------------------- replaying only part of a log

  lemma {:induction false} LogEffectConcat(a: seq<Op>, b: seq<Op>, id: Id)
    ensures LogEffect(a + b, id) == if LogEffect(b, id).Some? then LogEffect(b, id) else LogEffect(a, id)
    decreases a
  {
    if a == [] {
      assert a + b == b;
    } else {
      LogEffectConcat(a[1..], b, id);
      assert (a + b)[1..] == a[1..] + b;
    }
  }

  /** On every id that `first` touches, `second` leaves what `first` left. */
  ghost predicate Undisturbed(first: seq<Op>, second: seq<Op>)
  {
    forall id :: LogEffect(first, id).Some? ==> LogEffect(first + second, id) == LogEffect(first, id)
  }

  /**
   Replaying the first part of a log over an index that already contains all of it is not
   idempotent: it is harmless exactly when the second part undid nothing of the first.
   */
  lemma StaleReplayIff(before: seq<Op>, first: seq<Op>, second: seq<Op>)
    ensures var all := Replay(map[], before + first + second);
      Replay(all, first) == all <==> Undisturbed(first, second)
  {
    var all := Replay(map[], before + first + second);
    assert before + first + second == before + (first + second);
    forall id
      ensures Lookup(Replay(all, first), id) == Lookup(all, id) <==>
                (LogEffect(first, id).Some? ==> LogEffect(first + second, id) == LogEffect(first, id))
    {
      ReplayEffect(all, first, id);
      ReplayEffect(map[], before + (first + second), id);
      LogEffectConcat(before, first + second, id);
      LogEffectConcat(first, second, id);
    }
    if Undisturbed(first, second) {
      IndexEqual(Replay(all, first), all);
    }
  }
}
