/**
 * Least recently used, over whole runs (src/llmcache/store/cpu.py).
 *
 * The implementation never stores a timestamp: it reorders a dictionary. Here each key's time of
 * last use is read off the history of operations, and the dictionary order is proved to agree
 * with it after every run, so eviction takes the keys a timestamp LRU would take.
 */
module Recency {
  import opened Wrappers
  import opened Payloads
  import opened Types
  import opened Lru

  function Step(s: Lru, op: Op): Lru {
    match op
    case PutOp(k, obj, pin) => Put(s, k, obj, pin).state
    case GetOp(k) => Touch(s, k)
    case RemoveOp(k) => Remove(s, {k})
    case PinOp(k) => Pin(s, {k})
    case UnpinOp(k) => Unpin(s, {k})
  }

  function Empty(capacity: Option<int>): Lru {
    Lru([], map[], {}, capacity)
  }

  /** The state after a run that starts from an empty store. */
  function Run(capacity: Option<int>, ops: seq<Op>): Lru {
    if ops == [] then Empty(capacity)
    else Step(Run(capacity, ops[..|ops| - 1]), ops[|ops| - 1])
  }

  /** A use is a put that succeeds or a get that hits. */
  predicate Uses(s: Lru, op: Op, k: ChunkKey) {
    op.key == k && match op
      case PutOp(_, obj, pin) => Put(s, k, obj, pin).ok
      case GetOp(_) => k in s.data
      case _ => false
  }

  /** The position in the history of the last use of a key. */
  function LastUse(capacity: Option<int>, ops: seq<Op>, k: ChunkKey): Option<nat> {
    if ops == [] then None
    else
      var n := |ops| - 1;
      if Uses(Run(capacity, ops[..n]), ops[n], k) then Some(n) else LastUse(capacity, ops[..n], k)
  }

  predicate Older(capacity: Option<int>, ops: seq<Op>, a: ChunkKey, b: ChunkKey) {
    && LastUse(capacity, ops, a).Some?
    && LastUse(capacity, ops, b).Some?
    && LastUse(capacity, ops, a).value < LastUse(capacity, ops, b).value
  }

  ghost predicate OldestFirst(capacity: Option<int>, ops: seq<Op>, ks: seq<ChunkKey>) {
    ks != [] ==>
      && LastUse(capacity, ops, ks[0]).Some?
      && (forall k :: k in Elems(ks[1..]) ==> Older(capacity, ops, ks[0], k))
      && OldestFirst(capacity, ops, ks[1..])
  }

  lemma {:induction false} LastUseInPast(capacity: Option<int>, ops: seq<Op>, k: ChunkKey)
    ensures LastUse(capacity, ops, k).Some? ==> LastUse(capacity, ops, k).value < |ops|
  {
    if ops != [] {
      LastUseInPast(capacity, ops[..|ops| - 1], k);
    }
  }

  lemma {:induction false} OldestFirstWithout(
    capacity: Option<int>, ops: seq<Op>, ks: seq<ChunkKey>, gone: set<ChunkKey>)
    requires OldestFirst(capacity, ops, ks)
    ensures OldestFirst(capacity, ops, Without(ks, gone))
  {
    if ks != [] {
      OldestFirstWithout(capacity, ops, ks[1..], gone);
      var rest := Without(ks[1..], gone);
      assert ([ks[0]] + rest)[1..] == rest;
    }
  }

  /** An operation leaves the order of the keys it does not use. */
  lemma {:induction false} OldestFirstLater(
    capacity: Option<int>, ops: seq<Op>, op: Op, ks: seq<ChunkKey>)
    requires OldestFirst(capacity, ops, ks)
    requires forall k :: k in Elems(ks) ==> !Uses(Run(capacity, ops), op, k)
    ensures OldestFirst(capacity, ops + [op], ks)
  {
    if ks != [] {
      assert (ops + [op])[..|ops|] == ops;
      OldestFirstLater(capacity, ops, op, ks[1..]);
      assert forall k :: k in Elems(ks) ==>
        LastUse(capacity, ops + [op], k) == LastUse(capacity, ops, k);
    }
  }

  lemma {:induction false} OldestFirstAppend(capacity: Option<int>, ops: seq<Op>, ks: seq<ChunkKey>, k: ChunkKey)
    requires OldestFirst(capacity, ops, ks)
    requires LastUse(capacity, ops, k).Some?
    requires forall x :: x in Elems(ks) ==> Older(capacity, ops, x, k)
    ensures OldestFirst(capacity, ops, ks + [k])
  {
    if ks == [] {
      assert ks + [k] == [k];
      assert [k][1..] == [];
    } else {
      assert (ks + [k])[1..] == ks[1..] + [k];
      ElemsConcat(ks[1..], [k]);
      OldestFirstAppend(capacity, ops, ks[1..], k);
    }
  }

  /** A used key goes to the end, behind survivors that were all used earlier. */
  lemma {:induction false} UsedKeyGoesLast(capacity: Option<int>, ops: seq<Op>, op: Op, gone: set<ChunkKey>)
    requires OldestFirst(capacity, ops, Run(capacity, ops).order)
    requires Uses(Run(capacity, ops), op, op.key) && op.key in gone
    ensures OldestFirst(capacity, ops + [op], Without(Run(capacity, ops).order, gone) + [op.key])
  {
    var s, ops' := Run(capacity, ops), ops + [op];
    var ks := Without(s.order, gone);
    assert ops'[..|ops|] == ops;
    OldestFirstWithout(capacity, ops, s.order, gone);
    OldestFirstLater(capacity, ops, op, ks);
    forall x | x in Elems(ks) ensures Older(capacity, ops', x, op.key) {
      StampOfListed(capacity, ops', ks, x);
      LastUseInPast(capacity, ops, x);
    }
    OldestFirstAppend(capacity, ops', ks, op.key);
  }

  lemma {:induction false} StampOfListed(capacity: Option<int>, ops: seq<Op>, ks: seq<ChunkKey>, k: ChunkKey)
    requires OldestFirst(capacity, ops, ks) && k in Elems(ks)
    ensures LastUse(capacity, ops, k).Some?
  {
    if k != ks[0] {
      StampOfListed(capacity, ops, ks[1..], k);
    }
  }

  lemma {:induction false} PutKeepsOrder(capacity: Option<int>, ops: seq<Op>, op: Op)
    requires op.PutOp? && Run(capacity, ops).Valid()
    requires OldestFirst(capacity, ops, Run(capacity, ops).order)
    ensures OldestFirst(capacity, ops + [op], Put(Run(capacity, ops), op.key, op.obj, op.pin).state.order)
  {
    var s := Run(capacity, ops);
    var put := Put(s, op.key, op.obj, op.pin);
    var gone := {op.key} + Elems(put.victims);
    PutState(s, op.key, op.obj, op.pin);
    if put.ok {
      UsedKeyGoesLast(capacity, ops, op, gone);
    } else {
      OldestFirstWithout(capacity, ops, s.order, gone);
      OldestFirstLater(capacity, ops, op, Without(s.order, gone));
      assert put.state.order == Without(s.order, gone);
    }
  }

  lemma {:induction false} StepKeepsOrder(capacity: Option<int>, ops: seq<Op>, op: Op)
    requires Run(capacity, ops).Valid()
    requires OldestFirst(capacity, ops, Run(capacity, ops).order)
    ensures Step(Run(capacity, ops), op).Valid()
    ensures OldestFirst(capacity, ops + [op], Step(Run(capacity, ops), op).order)
  {
    var s := Run(capacity, ops);
    match op
    case PutOp(k, obj, pin) =>
      PutValid(s, k, obj, pin);
      PutKeepsOrder(capacity, ops, op);
    case GetOp(k) =>
      TouchValid(s, k);
      if k in s.data {
        UsedKeyGoesLast(capacity, ops, op, {k});
      } else {
        OldestFirstLater(capacity, ops, op, s.order);
      }
    case RemoveOp(k) =>
      DropValid(s, {k});
      OldestFirstWithout(capacity, ops, s.order, {k});
      OldestFirstLater(capacity, ops, op, Without(s.order, {k}));
    case PinOp(k) => OldestFirstLater(capacity, ops, op, s.order);
    case UnpinOp(k) => OldestFirstLater(capacity, ops, op, s.order);
  }

  /** Every run keeps the store valid and its keys listed by time of last use. */
  lemma {:induction false} OrderIsByLastUse(capacity: Option<int>, ops: seq<Op>)
    ensures Run(capacity, ops).Valid()
    ensures OldestFirst(capacity, ops, Run(capacity, ops).order)
  {
    if ops != [] {
      var past, op := ops[..|ops| - 1], ops[|ops| - 1];
      OrderIsByLastUse(capacity, past);
      StepKeepsOrder(capacity, past, op);
      assert ops == past + [op];
    }
  }

  /**
   * The eviction law over runs: whatever happened before, every victim of a put was last used
   * strictly before every unpinned key that survives it.
   */
  lemma {:induction false} VictimsAreLeastRecentlyUsed(
    capacity: Option<int>, ops: seq<Op>, k: ChunkKey, obj: Payload, pin: bool, victim: ChunkKey, survivor: ChunkKey)
    requires var s := Run(capacity, ops);
      var put := Put(s, k, obj, pin);
      && victim in Elems(put.victims)
      && survivor in put.state.data.Keys - s.pinned - {k}
    ensures Older(capacity, ops, victim, survivor)
  {
    hide Put, Run;
    var s := Run(capacity, ops);
    var vs := Put(s, k, obj, pin).victims;
    OrderIsByLastUse(capacity, ops);
    CandidatesOldestFirst(capacity, ops, k);
    PutState(s, k, obj, pin);
    PutVictimsExactly(s, k, obj, pin);
    var spared := Drop(s, {k}).Candidates()[|vs|..];
    assert Drop(s, {k}).Candidates() == vs + spared;
    ElemsConcat(vs, spared);
    assert survivor in s.data.Keys - {k} - s.pinned - Elems(vs);
    PrefixOlder(capacity, ops, vs, spared, victim, survivor);
  }

  lemma {:induction false} CandidatesOldestFirst(capacity: Option<int>, ops: seq<Op>, k: ChunkKey)
    ensures OldestFirst(capacity, ops, Drop(Run(capacity, ops), {k}).Candidates())
  {
    var s := Run(capacity, ops);
    OrderIsByLastUse(capacity, ops);
    OldestFirstWithout(capacity, ops, s.order, {k});
    OldestFirstWithout(capacity, ops, Without(s.order, {k}), s.pinned);
  }

  lemma {:induction false} PrefixOlder(
    capacity: Option<int>, ops: seq<Op>, xs: seq<ChunkKey>, ys: seq<ChunkKey>, x: ChunkKey, y: ChunkKey)
    requires OldestFirst(capacity, ops, xs + ys)
    requires x in Elems(xs) && y in Elems(ys)
    ensures Older(capacity, ops, x, y)
  {
    assert (xs + ys)[1..] == xs[1..] + ys;
    if x == xs[0] {
      ElemsConcat(xs[1..], ys);
    } else {
      PrefixOlder(capacity, ops, xs[1..], ys, x, y);
    }
  }
}
