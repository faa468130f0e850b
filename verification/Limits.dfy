/**
 * Where the simple claim is false of the code: an input for each, and exactly when it holds.
 */
module Limits {
  import opened Wrappers
  import opened Payloads
  import opened Arithmetic
  import opened Types
  import opened L = Lru
  import opened Tiers
  import opened StoreRuns
  import E = Engine
  import opened Reuse
  import Lifecycle
  import C = Connectors

  // ---- unpinned registrations and their own chunks ----------------------------------------

  function TotalBytes(es: seq<E.Entry>): nat {
    if es == [] then 0 else es[0].payload.NBytes() + TotalBytes(es[1..])
  }

  function EntryKeys(es: seq<E.Entry>): (ks: seq<ChunkKey>)
    ensures |ks| == |es|
    ensures forall i :: 0 <= i < |es| ==> ks[i] == es[i].key
  {
    seq(|es|, i requires 0 <= i < |es| => es[i].key)
  }

  /** Bytes of resident pinned objects. */
  function PinnedTotal(s: Lru): nat {
    Bytes(Only(s.order, s.pinned), s.data)
  }

  /**
   * The store while a registration puts its chunks: `mine` are the keys put so far, all resident
   * behind everything else, none of them pinned.
   */
  ghost predicate Behind(s: Lru, rest: seq<ChunkKey>, mine: seq<ChunkKey>) {
    && s.Valid()
    && s.order == rest + mine
    && Elems(mine) !! s.pinned
  }

  /** The bytes of a store in that shape: candidates ahead of the registration, pinned, its own. */
  lemma {:induction false} BehindBytes(s: Lru, rest: seq<ChunkKey>, mine: seq<ChunkKey>)
    requires Behind(s, rest, mine)
    ensures s.Used() == Bytes(Without(rest, s.pinned), s.data) + PinnedTotal(s) + Bytes(mine, s.data)
    ensures s.Candidates() == Without(rest, s.pinned) + mine
  {
    hide Bytes, Lru.Valid;
    BytesSplit(s.order, s.pinned, s.data);
    WithoutConcat(rest, mine, s.pinned);
    WithoutDisjoint(mine, s.pinned);
    BytesConcat(Without(rest, s.pinned), mine, s.data);
  }

  /** As long as everything pinned and put so far fits with the newcomer, no own chunk is a victim. */
  lemma {:induction false} VictimsAreOthers(s: Lru, rest: seq<ChunkKey>, mine: seq<ChunkKey>, incoming: nat)
    requires Behind(s, rest, mine) && s.capacity.Some?
    requires PinnedTotal(s) + Bytes(mine, s.data) + incoming <= s.capacity.value
    ensures EnsureRoom(s, incoming).ok
    ensures EnsureRoom(s, incoming).victims <= Without(rest, s.pinned)
  {
    hide Bytes, Lru.Valid, Without, Shed, PinnedTotal;
    var cands, ahead := s.Candidates(), Without(rest, s.pinned);
    var excess := s.Used() + incoming - s.capacity.value;
    var vs := Shed(cands, s.data, excess);
    BehindBytes(s, rest, mine);
    ShedEnough(cands, s.data, excess);
    EnsureRoomSpec(s, incoming);
    BytesConcat(ahead, mine, s.data);
    var n := Min(|vs|, |ahead|);
    assert vs[..n] == cands[..n] == ahead[..n];
    assert n == |ahead| ==> ahead[..n] == ahead;
    assert n == |vs|;
    assert vs == vs[..n];
  }

  /** One unpinned put of a new key in that shape: it joins the registration's keys at the end. */
  lemma {:induction false} PutStaysBehind(s: Lru, rest: seq<ChunkKey>, mine: seq<ChunkKey>, k: ChunkKey, obj: Payload)
    returns (rest': seq<ChunkKey>)
    requires Behind(s, rest, mine) && s.capacity.Some?
    requires k !in s.data && k !in s.pinned
    requires PinnedTotal(s) + Bytes(mine, s.data) + obj.NBytes() <= s.capacity.value
    ensures var put := L.Put(s, k, obj, false);
      && put.ok && put.state.capacity == s.capacity
      && Behind(put.state, rest', mine + [k])
      && PinnedTotal(put.state) == PinnedTotal(s)
      && Bytes(mine + [k], put.state.data) == Bytes(mine, s.data) + obj.NBytes()
      && put.state.pinned == s.pinned
      && put.state.data.Keys <= s.data.Keys + {k}
  {
    hide Bytes, Lru.Valid, Without, Shed, PinnedTotal, EnsureRoom, Elems, NoDup;
    var put := L.Put(s, k, obj, false);
    DropAbsent(s, k);
    VictimsAreOthers(s, rest, mine, obj.NBytes());
    PutState(s, k, obj, false);
    PutValid(s, k, obj, false);
    HeldKept(s, k, obj);
    var vs := put.victims;
    rest' := Without(rest, {k} + Elems(vs));
    VictimsSpareMine(s, rest, mine, vs, k);
    WithoutConcat(rest, mine, {k} + Elems(vs));
    WithoutDisjoint(mine, {k} + Elems(vs));
    assert put.state.order == rest' + (mine + [k]);
    MineBytes(s, put.state.data, mine, k, obj, vs);
    ElemsConcat(mine, [k]);
    SingleElem(k);
  }

  /** Victims ahead of the registration are none of its keys. */
  lemma {:induction false} VictimsSpareMine(
    s: Lru, rest: seq<ChunkKey>, mine: seq<ChunkKey>, vs: seq<ChunkKey>, k: ChunkKey)
    requires Behind(s, rest, mine) && k !in s.data
    requires vs <= Without(rest, s.pinned)
    ensures Elems(mine) !! ({k} + Elems(vs)) && Elems(mine) <= s.data.Keys
  {
    hide Lru.Valid, Without, Elems, NoDup;
    ValidKeys(s);
    NoDupConcat(rest, mine);
    ElemsConcat(rest, mine);
    PrefixElems(Without(rest, s.pinned), |vs|);
    assert vs == Without(rest, s.pinned)[..|vs|];
  }

  lemma {:induction false} NoDupConcat(xs: seq<ChunkKey>, ys: seq<ChunkKey>)
    requires NoDup(xs + ys)
    ensures NoDup(xs) && NoDup(ys) && Elems(xs) !! Elems(ys)
  {
    forall k | k in Elems(xs) ensures k !in Elems(ys) {
      ElemsIn(xs, k);
      ElemsIn(ys, k);
      var i :| 0 <= i < |xs| && xs[i] == k;
      forall j | 0 <= j < |ys| ensures ys[j] != k {
        assert (xs + ys)[i] == k && (xs + ys)[|xs| + j] == ys[j];
      }
    }
    forall i, j | 0 <= i < j < |ys| ensures ys[i] != ys[j] {
      assert (xs + ys)[|xs| + i] == ys[i] && (xs + ys)[|xs| + j] == ys[j];
    }
    forall i, j | 0 <= i < j < |xs| ensures xs[i] != xs[j] {
      assert (xs + ys)[i] == xs[i] && (xs + ys)[j] == xs[j];
    }
  }

  lemma {:induction false} MineBytes(
    s: Lru, data: map<ChunkKey, Payload>, mine: seq<ChunkKey>, k: ChunkKey, obj: Payload, vs: seq<ChunkKey>)
    requires Elems(mine) !! ({k} + Elems(vs)) && data == (s.data - ({k} + Elems(vs)))[k := obj]
    ensures Bytes(mine + [k], data) == Bytes(mine, s.data) + obj.NBytes()
  {
    hide Elems;
    BytesAgree(mine, data, s.data);
    BytesConcat(mine, [k], data);
    assert Bytes([k], data) == obj.NBytes() + Bytes([], data);
  }

  /** Putting a new key unpinned leaves the pinned bytes as they are. */
  lemma {:induction false} HeldKept(s: Lru, k: ChunkKey, obj: Payload)
    requires s.Valid() && k !in s.data && k !in s.pinned
    ensures L.Put(s, k, obj, false).ok ==> PinnedTotal(L.Put(s, k, obj, false).state) == PinnedTotal(s)
  {
    hide Lru.Valid, Without, EnsureRoom, Shed, L.Put;
    var put := L.Put(s, k, obj, false);
    PutState(s, k, obj, false);
    ValidKeys(s);
    if put.ok {
      var gone := {k} + Elems(put.victims);
      var t := put.state;
      var held := Only(s.order, s.pinned);
      WithoutConcat(Without(s.order, gone), [k], Elems(t.order) - s.pinned);
      WithoutTwice(s.order, gone, Elems(t.order) - s.pinned);
      ElemsConcat(Without(s.order, gone), [k]);
      SingleElem(k);
      WithoutAll([k], Elems(t.order) - s.pinned);
      WithoutAgree(s.order, gone + (Elems(t.order) - s.pinned), Elems(s.order) - s.pinned);
      assert Only(t.order, s.pinned) == held + [] == held;
      BytesAgree(held, t.data, s.data);
    }
  }

  /** Keys that neither the store nor its pin set knows, each one once. */
  ghost predicate Fresh(s: Lru, es: seq<E.Entry>) {
    && (forall i :: 0 <= i < |es| ==> es[i].key !in s.data && es[i].key !in s.pinned)
    && (forall i, j :: 0 <= i < j < |es| ==> es[i].key != es[j].key)
  }

  /** When everything fits next to what is pinned, a registration keeps all its chunks. */
  lemma {:induction false} FittingPutsStay(s: Lru, rest: seq<ChunkKey>, mine: seq<ChunkKey>, es: seq<E.Entry>)
    requires Behind(s, rest, mine) && s.capacity.Some? && Fresh(s, es)
    requires PinnedTotal(s) + Bytes(mine, s.data) + TotalBytes(es) <= s.capacity.value
    ensures var r := E.PutAll(Store(s, None), es, false);
      && r.ok && r.store.cold.None?
      && Elems(mine) + KeysPut(es) <= r.store.hot.data.Keys
    decreases es
  {
    hide Bytes, Lru.Valid, Without, PinnedTotal, L.Put, Elems, NoDup;
    if es == [] {
      ValidKeys(s);
      ElemsConcat(rest, mine);
    } else {
      var k, obj := es[0].key, es[0].payload;
      var rest' := PutStaysBehind(s, rest, mine, k, obj);
      var t := L.Put(s, k, obj, false).state;
      assert Store(s, None).Put(k, obj, false) == Stored(Store(t, None), true);
      assert Fresh(t, es[1..]) by {
        assert forall i :: 1 <= i < |es| ==> es[1..][i - 1] == es[i];
      }
      FittingPutsStay(t, rest', mine + [k], es[1..]);
      ElemsConcat(mine, [k]);
      SingleElem(k);
    }
  }

  /** The bytes of some keys, wherever they stand in the order. */
  lemma {:induction false} OnlyElemsBytes(s: Lru, ks: seq<ChunkKey>)
    requires s.Valid() && NoDup(ks)
    ensures Bytes(Only(s.order, Elems(ks)), s.data) == Bytes(ks, s.data)
  {
    hide Only, Lru.Valid;
    if ks == [] {
      OnlyNone(s.order, s.data);
    } else {
      NoDupSplit(ks);
      OnlyElemsBytes(s, ks[1..]);
      OnlyMore(s, Elems(ks[1..]), ks[0]);
      assert Elems(ks[1..]) + {ks[0]} == Elems(ks);
    }
  }

  /** Pinned bytes and the bytes of other resident keys fit in the used bytes together. */
  lemma {:induction false} DisjointBytes(s: Lru, ks: seq<ChunkKey>)
    requires s.Valid() && NoDup(ks) && Elems(ks) !! s.pinned
    ensures PinnedTotal(s) + Bytes(ks, s.data) <= s.Used()
  {
    hide Bytes, Lru.Valid, Without, Elems;
    var ps := Only(s.order, s.pinned);
    ValidKeys(s);
    WithoutNoDup(s.order, Elems(s.order) - s.pinned);
    NoDupJoin(ps, ks);
    OnlyElemsBytes(s, ps + ks);
    BytesConcat(ps, ks, s.data);
    BytesSplit(s.order, Elems(ps + ks), s.data);
  }

  lemma {:induction false} NoDupJoin(xs: seq<ChunkKey>, ys: seq<ChunkKey>)
    requires NoDup(xs) && NoDup(ys) && Elems(xs) !! Elems(ys)
    ensures NoDup(xs + ys)
  {
    forall i, j | 0 <= i < |xs| && 0 <= j < |ys| ensures xs[i] != ys[j] {
      ElemsIn(xs, xs[i]);
      ElemsIn(ys, ys[j]);
    }
  }

  /** Unpinned puts of new keys on a plain store leave pins and pinned bytes alone. */
  lemma {:induction false} PutAllHeld(s: Lru, es: seq<E.Entry>)
    requires s.Valid() && Fresh(s, es) && E.PutAll(Store(s, None), es, false).ok
    ensures var t := E.PutAll(Store(s, None), es, false).store;
      && t.cold.None? && t.hot.Valid() && t.hot.capacity == s.capacity
      && t.hot.pinned == s.pinned && PinnedTotal(t.hot) == PinnedTotal(s)
    decreases es
  {
    hide Bytes, Lru.Valid, Without, PinnedTotal, L.Put, Elems;
    if es != [] {
      var k, obj := es[0].key, es[0].payload;
      var t := L.Put(s, k, obj, false).state;
      PutState(s, k, obj, false);
      PutValid(s, k, obj, false);
      HeldKept(s, k, obj);
      assert Store(s, None).Put(k, obj, false) == Stored(Store(t, None), true);
      assert Fresh(t, es[1..]) by {
        assert forall i :: 1 <= i < |es| ==> es[1..][i - 1] == es[i];
      }
      PutAllHeld(t, es[1..]);
    }
  }

  lemma {:induction false} EntryBytes(es: seq<E.Entry>, data: map<ChunkKey, Payload>)
    requires forall i :: 0 <= i < |es| ==> SizeOf(data, es[i].key) == es[i].payload.NBytes()
    ensures Bytes(EntryKeys(es), data) == TotalBytes(es)
  {
    if es != [] {
      assert EntryKeys(es)[1..] == EntryKeys(es[1..]);
      EntryBytes(es[1..], data);
    }
  }

  /**
   * An unpinned registration under a new id can evict its own earlier chunks. It keeps them all
   * exactly when its bytes and the bytes already pinned fit the capacity together.
   */
  lemma {:induction false} UnpinnedPutsStayExactly(s: Lru, es: seq<E.Entry>)
    requires s.Valid() && s.capacity.Some? && Fresh(s, es)
    requires E.PutAll(Store(s, None), es, false).ok
    ensures KeysPut(es) <= E.PutAll(Store(s, None), es, false).store.hot.data.Keys <==>
      es == [] || PinnedTotal(s) + TotalBytes(es) <= s.capacity.value
  {
    hide Without, PinnedTotal, L.Put;
    var f := E.PutAll(Store(s, None), es, false).store.hot;
    if es != [] {
      if PinnedTotal(s) + TotalBytes(es) <= s.capacity.value {
        assert s.order == s.order + [];
        FittingPutsStay(s, s.order, [], es);
      }
      if KeysPut(es) <= f.data.Keys {
        var ks := EntryKeys(es);
        PutAllHeld(s, es);
        PutAllView(Store(s, None), es, false);
        forall i | 0 <= i < |es| ensures SizeOf(f.data, es[i].key) == es[i].payload.NBytes() {
          EntryMapAt(es, es[i].key);
          assert es[i].key in Store(f, None).View();
        }
        EntryBytes(es, f.data);
        ElemsFresh(s, es);
        DisjointBytes(f, ks);
      }
    }
  }

  lemma {:induction false} ElemsFresh(s: Lru, es: seq<E.Entry>)
    requires Fresh(s, es)
    ensures NoDup(EntryKeys(es)) && Elems(EntryKeys(es)) !! s.pinned
  {
    var ks := EntryKeys(es);
    forall k | k in Elems(ks) ensures k !in s.pinned {
      ElemsIn(ks, k);
    }
  }

  /** On a plain store a load succeeds exactly when every chunk it asks for is resident. */
  lemma {:induction false} GetRangeOnPlainStore(s: Store, cid: string, worker: int, idx: nat, count: int)
    requires s.Valid() && s.cold.None?
    ensures E.GetRange(s, cid, worker, idx, count).result.Ok? <==>
      forall i :: idx <= i < count ==> ChunkKey(cid, i, worker) in s.hot.data
    decreases count - idx
  {
    hide Lru.Valid, Without;
    if idx < count {
      var k := ChunkKey(cid, idx, worker);
      GetView(s, k);
      if k in s.hot.data {
        GetRangeOnPlainStore(s.Get(k).store, cid, worker, idx + 1, count);
      }
    }
  }

  /**
   * Over a bounded CPU store, an unpinned registration under a new id is loadable right after it
   * succeeds, for all its workers, exactly when all its bytes fit next to the pinned ones.
   */
  lemma {:induction false} UnpinnedRegisterLoadsExactly(e: E.Engine, args: E.RegisterArgs, at: Time, now: Time)
    requires e.Valid() && e.store.cold.None? && e.store.hot.capacity.Some?
    requires !args.pin && e.Register(args, at).result.Ok? && Fresh(e.store.hot, args.ToPut())
    requires DistinctWorkers(args.payloads.Normalize())
    requires !Lifecycle.ExpiredBy(e.Register(args, at).result.value.expiresAt, now)
    ensures e.Register(args, at).engine.Valid()
    ensures
      (forall shard :: shard in args.payloads.Normalize() ==>
         e.Register(args, at).engine.Load(args.Id(), None, shard.worker, now).result == Ok(shard.payloads)) <==>
      (args.ToPut() == [] || PinnedTotal(e.store.hot) + TotalBytes(args.ToPut()) <= e.store.hot.capacity.value)
  {
    hide PinnedTotal, E.Engine.Load, E.Engine.Register, E.PutAll, E.Entries, Lru.Valid, Fresh, E.EntryMap, Faithful;
    var e', cid, shards, es := e.Register(args, at).engine, args.Id(), args.payloads.Normalize(), args.ToPut();
    RegisterFaithful(e, args, at);
    RegisterStore(e, args, at);
    UnpinnedPutsStayExactly(e.store.hot, es);
    PutAllHeldPlain(e.store.hot, es);
    var data := e'.store.hot.data;
    forall shard | shard in shards
      ensures e'.Load(cid, None, shard.worker, now).result == Ok(shard.payloads) <==>
        forall i :: 0 <= i < |shard.payloads| ==> ChunkKey(cid, i, shard.worker) in data
    {
      var s :| 0 <= s < |shards| && shards[s] == shard;
      RegisteredShardLoads(e, args, at, s, now);
    }
    forall k ensures k in KeysPut(es) <==>
      exists shard :: shard in shards && k == ChunkKey(cid, k.chunkIndex, shard.worker) &&
        0 <= k.chunkIndex < |shard.payloads|
    {
      EntriesMap(cid, shards, k);
    }
  }

  lemma {:induction false} PutAllHeldPlain(s: Lru, es: seq<E.Entry>)
    requires s.Valid() && Fresh(s, es) && E.PutAll(Store(s, None), es, false).ok
    ensures E.PutAll(Store(s, None), es, false).store.cold.None?
  {
    PutAllHeld(s, es);
  }

  lemma {:induction false} RegisterStore(e: E.Engine, args: E.RegisterArgs, at: Time)
    requires e.Valid() && e.store.cold.None? && !args.pin && e.Register(args, at).result.Ok?
    ensures Store(e.store.hot, None) == e.store
    ensures E.PutAll(e.store, args.ToPut(), false).ok
    ensures e.Register(args, at).engine.store == E.PutAll(e.store, args.ToPut(), false).store
  {}

  /** One worker's load right after a registration on a plain store. */
  lemma {:induction false} RegisteredShardLoads(e: E.Engine, args: E.RegisterArgs, at: Time, s: nat, now: Time)
    requires e.Valid() && e.Register(args, at).result.Ok? && s < |args.payloads.Normalize()|
    requires e.Register(args, at).engine.Valid() && e.Register(args, at).engine.store.cold.None?
    requires DistinctWorkers(args.payloads.Normalize())
    requires !Lifecycle.ExpiredBy(e.Register(args, at).result.value.expiresAt, now)
    ensures var shard := args.payloads.Normalize()[s];
      e.Register(args, at).engine.Load(args.Id(), None, shard.worker, now).result == Ok(shard.payloads) <==>
        forall i :: 0 <= i < |shard.payloads| ==>
          ChunkKey(args.Id(), i, shard.worker) in e.Register(args, at).engine.store.hot.data
  {
    hide Lru.Valid, E.PutAll, E.Entries, E.GetRange, E.EntryMap, Faithful, Chunks;
    var e', cid, shards := e.Register(args, at).engine, args.Id(), args.payloads.Normalize();
    var shard := shards[s];
    RegisterFaithful(e, args, at);
    assert E.Workers(shards)[s] == shard.worker;
    FaithfulLoad(e', cid, RecordOf(args), None, shard.worker, now);
    assert |shard.payloads| == |Chunks(args.tokens, e.chunkSize)|;
    GetRangeOnPlainStore(e'.store, cid, shard.worker, 0, |shard.payloads|);
    var out := e'.Load(cid, None, shard.worker, now).result;
    if out.Ok? {
      forall i | 0 <= i < |out.value| ensures out.value[i] == shard.payloads[i] {
        EntriesMap(cid, shards, ChunkKey(cid, i, shard.worker));
      }
      assert out.value == shard.payloads;
    }
  }

  // ---- when a registration goes in --------------------------------------------------------

  /** A pinned put of a new key adds its bytes to the pinned ones. */
  lemma {:induction false} PinnedPutAdds(s: Lru, k: ChunkKey, obj: Payload)
    requires s.Valid() && k !in s.data && k !in s.pinned
    ensures L.Put(s, k, obj, true).ok ==>
      PinnedTotal(L.Put(s, k, obj, true).state) == PinnedTotal(s) + obj.NBytes()
  {
    hide Lru.Valid, EnsureRoom, Only, Bytes;
    var put := L.Put(s, k, obj, false);
    if put.ok {
      HeldKept(s, k, obj);
      PutState(s, k, obj, false);
      PutValid(s, k, obj, false);
      OnlyMore(put.state, s.pinned, k);
    }
  }

  /**
   * When a registration under new keys goes in, over any bounded store: pinned, exactly when all
   * its bytes fit beside those already pinned; unpinned, exactly when each chunk alone does.
   */
  lemma {:induction false} PutAllGoesInExactly(s: Store, es: seq<E.Entry>, pin: bool)
    requires s.Valid() && s.hot.capacity.Some? && Fresh(s.hot, es)
    ensures E.PutAll(s, es, pin).ok <==>
      || es == []
      || (pin && PinnedTotal(s.hot) + TotalBytes(es) <= s.hot.capacity.value)
      || (!pin && forall i :: 0 <= i < |es| ==>
            PinnedTotal(s.hot) + es[i].payload.NBytes() <= s.hot.capacity.value)
    decreases es
  {
    hide L.Put, Lru.Valid, PinnedTotal;
    if es != [] {
      var k, obj := es[0].key, es[0].payload;
      var first := s.Put(k, obj, pin);
      PutViewAny(s, k, obj, pin);
      PutAdmittedExactly(s.hot, k, obj, pin);
      PutState(s.hot, k, obj, pin);
      NotPinnedBytes(s.hot, k);
      HeldKept(s.hot, k, obj);
      PinnedPutAdds(s.hot, k, obj);
      if first.ok {
        assert Fresh(first.store.hot, es[1..]) by {
          assert forall i :: 1 <= i < |es| ==> es[1..][i - 1] == es[i];
        }
        PutAllGoesInExactly(first.store, es[1..], pin);
        assert forall i :: 1 <= i < |es| ==> es[i] == es[1..][i - 1];
        if es[1..] == [] {
          assert TotalBytes(es) == obj.NBytes() + TotalBytes([]);
        }
      }
    }
  }

  lemma {:induction false} NotPinnedBytes(s: Lru, k: ChunkKey)
    ensures k !in s.pinned ==> s.PinnedBytes(k) == PinnedTotal(s)
  {
    if k !in s.pinned {
      assert s.pinned - {k} == s.pinned;
    }
  }

  lemma {:induction false} RegisterGoesInExactly(e: E.Engine, args: E.RegisterArgs, at: Time)
    requires e.Valid() && e.store.hot.capacity.Some? && Fresh(e.store.hot, args.ToPut())
    ensures var es, free := args.ToPut(), e.store.hot.capacity.value - PinnedTotal(e.store.hot);
      e.Register(args, at).result.Ok? <==>
        && WellCounted(args, e.chunkSize)
        && (|| es == []
            || (args.pin && TotalBytes(es) <= free)
            || (!args.pin && forall i :: 0 <= i < |es| ==> es[i].payload.NBytes() <= free))
  {
    hide E.PutAll, E.Entries, Chunks, Store.Valid, PinnedTotal, Fresh, TotalBytes;
    PutAllGoesInExactly(e.store, args.ToPut(), args.pin);
  }

  // ---- when a load goes through -----------------------------------------------------------

  /** Every pin is of a resident object. */
  predicate NoStalePins(s: Lru) {
    s.pinned <= s.data.Keys
  }

  /** Stored, and in hot or small enough to be promoted beside what is pinned. */
  predicate Servable(s: Store, k: ChunkKey) {
    && k in s.View()
    && (|| k in s.hot.data || s.hot.capacity.None?
        || s.View()[k].NBytes() + PinnedTotal(s.hot) <= s.hot.capacity.value)
  }

  lemma {:induction false} GetServesExactly(s: Store, k: ChunkKey)
    requires s.Valid() && NoStalePins(s.hot)
    ensures s.Get(k).result.Hit? <==> Servable(s, k)
  {
    hide Lru.Valid, PinnedTotal, Store.Get, Bytes, Only;
    GetView(s, k);
    GetRaisesExactly(s, k);
    NotPinnedBytes(s.hot, k);
  }

  lemma {:induction false} TouchKeepsPinnedTotal(s: Lru, k: ChunkKey)
    requires s.Valid()
    ensures PinnedTotal(Touch(s, k)) == PinnedTotal(s)
  {
    hide Bytes, Lru.Valid, Without, Elems;
    var t, held := Touch(s, k), Only(s.order, s.pinned);
    TouchValid(s, k);
    ValidKeys(s);
    ValidKeys(t);
    WithoutNoDup(s.order, Elems(s.order) - s.pinned);
    OnlyElemsBytes(t, held);
    WithoutAgree(t.order, Elems(t.order) - Elems(held), Elems(t.order) - s.pinned);
  }

  /** An unpinned resident object fits beside what is pinned. */
  lemma {:induction false} ResidentFits(s: Lru, k: ChunkKey)
    requires s.Valid() && k in s.data && k !in s.pinned && s.capacity.Some?
    ensures s.data[k].NBytes() + PinnedTotal(s) <= s.capacity.value
  {
    hide PinnedTotal;
    SingleElem(k);
    DisjointBytes(s, [k]);
    assert Bytes([k], s.data) == s.data[k].NBytes() + Bytes([], s.data);
  }

  /** A get that returns an object leaves every key as servable as it was. */
  lemma {:induction false} GetKeepsServable(s: Store, k: ChunkKey, x: ChunkKey)
    requires s.Valid() && NoStalePins(s.hot) && s.Get(k).result.Hit?
    ensures NoStalePins(s.Get(k).store.hot)
    ensures Servable(s.Get(k).store, x) <==> Servable(s, x)
  {
    hide L.Put, Lru.Valid, PinnedTotal, Store.View;
    var t := s.Get(k).store;
    GetView(s, k);
    if k in s.hot.data {
      TouchKeepsPinnedTotal(s.hot, k);
    } else {
      var obj := s.cold.value.objects[k];
      PutState(s.hot, k, obj, false);
      HeldKept(s.hot, k, obj);
      GetServesExactly(s, k);
      HotIsSeen(s, x);
      if x in s.hot.data && x !in s.hot.pinned && s.hot.capacity.Some? {
        ResidentFits(s.hot, x);
      }
    }
  }

  lemma {:induction false} HotIsSeen(s: Store, x: ChunkKey)
    ensures x in s.hot.data ==> x in s.View() && s.View()[x] == s.hot.data[x]
  {}

  /** Without stale pins, the gets of a load all return exactly when each chunk is servable before. */
  lemma {:induction false} GetRangeServesExactly(s: Store, cid: string, worker: int, idx: nat, count: int)
    requires s.Valid() && NoStalePins(s.hot)
    ensures E.GetRange(s, cid, worker, idx, count).result.Ok? <==>
      forall i :: idx <= i < count ==> Servable(s, ChunkKey(cid, i, worker))
    decreases count - idx
  {
    hide Store.Get, Store.Valid, Servable, NoStalePins;
    if idx < count {
      var k := ChunkKey(cid, idx, worker);
      GetView(s, k);
      GetServesExactly(s, k);
      if s.Get(k).result.Hit? {
        forall x ensures Servable(s.Get(k).store, x) <==> Servable(s, x) {
          GetKeepsServable(s, k, x);
        }
        assert NoStalePins(s.Get(k).store.hot) by {
          GetKeepsServable(s, k, k);
        }
        GetRangeServesExactly(s.Get(k).store, cid, worker, idx + 1, count);
      }
    }
  }

  /**
   * When descriptors and store agree and no pin is stale, a load for a registered worker of a live
   * cache returns exactly when each chunk asked for is in hot or fits beside the pinned bytes.
   */
  lemma {:induction false} AgreedLoadReturnsExactly(
    e: E.Engine, cid: string, numChunks: Option<int>, worker: int, now: Time)
    requires e.Valid() && Lifecycle.Agrees(e) && NoStalePins(e.store.hot)
    requires cid in e.descs && !e.descs[cid].ExpiredAt(now) && worker in e.descs[cid].workerIds
    ensures var total := e.descs[cid].NumChunks();
      var count := if numChunks.None? then total else Min(numChunks.value, total);
      e.Load(cid, numChunks, worker, now).result.Ok? <==>
        forall i :: 0 <= i < count ==>
          var k := ChunkKey(cid, i, worker);
          && k in e.store.View()
          && (|| k in e.store.hot.data || e.store.hot.capacity.None?
              || e.store.View()[k].NBytes() + PinnedTotal(e.store.hot) <= e.store.hot.capacity.value)
    ensures forall i :: 0 <= i < e.descs[cid].NumChunks() ==> ChunkKey(cid, i, worker) in e.store.View()
  {
    hide Store.View, Store.Valid, E.GetRange, E.Engine.KeysOf, Descriptor.Keys, PinnedTotal, NoStalePins;
    var d := e.descs[cid];
    Lifecycle.DescriptorKeys(d);
    forall i | 0 <= i < d.NumChunks() ensures ChunkKey(cid, i, worker) in e.store.View() {
      Lifecycle.KeysOfMember(e, e.descs.Keys, ChunkKey(cid, i, worker));
    }
    var count := if numChunks.None? then d.NumChunks() else Min(numChunks.value, d.NumChunks());
    GetRangeServesExactly(e.store, cid, worker, 0, count);
  }

  /** For a worker that is not registered, such a load of any chunk at all finds none. */
  lemma {:induction false} UnregisteredWorkerFindsNothing(
    e: E.Engine, cid: string, numChunks: Option<int>, worker: int, now: Time)
    requires e.Valid() && Lifecycle.Agrees(e)
    requires cid in e.descs && !e.descs[cid].ExpiredAt(now) && worker !in e.descs[cid].workerIds
    requires e.descs[cid].NumChunks() > 0 && (numChunks.Some? ==> numChunks.value > 0)
    ensures e.Load(cid, numChunks, worker, now).result == Err(E.Mismatch)
  {
    hide Store.View, Store.Valid, Store.Get, E.Engine.KeysOf, Descriptor.Keys;
    var k := ChunkKey(cid, 0, worker);
    Lifecycle.DescriptorKeys(e.descs[cid]);
    Lifecycle.KeysOfMember(e, e.descs.Keys, k);
    GetView(e.store, k);
  }

  // ---- refused registrations --------------------------------------------------------------

  /** How many puts go in before the first that raises. */
  function Accepted(s: Store, es: seq<E.Entry>, pin: bool): (n: nat)
    requires s.Valid()
    ensures n <= |es|
    decreases es
  {
    if es == [] then 0
    else
      var first := s.Put(es[0].key, es[0].payload, pin);
      PutViewAny(s, es[0].key, es[0].payload, pin);
      if !first.ok then 0 else 1 + Accepted(first.store, es[1..], pin)
  }

  ghost predicate DistinctKeys(es: seq<E.Entry>) {
    forall i, j :: 0 <= i < j < |es| ==> es[i].key != es[j].key
  }

  /** One worker's keys differ by index, those of different workers by worker. */
  lemma {:induction false} EntriesDistinct(cid: string, shards: seq<E.Shard>)
    requires DistinctWorkers(shards)
    ensures DistinctKeys(E.Entries(cid, shards))
  {
    if shards != [] {
      var first, rest := E.ShardEntries(cid, shards[0]), E.Entries(cid, shards[1..]);
      EntriesDistinct(cid, shards[1..]);
      forall i, j | 0 <= i < |first| && 0 <= j < |rest| ensures first[i].key != rest[j].key {
        EntryWorker(cid, shards[1..], j);
      }
      var es := first + rest;
      forall i, j | 0 <= i < j < |es| ensures es[i].key != es[j].key {
        if i >= |first| {
          assert rest[i - |first|].key != rest[j - |first|].key;
        }
      }
    }
  }

  lemma {:induction false} EntryWorker(cid: string, shards: seq<E.Shard>, j: nat)
    requires j < |E.Entries(cid, shards)|
    ensures exists i :: 0 <= i < |shards| && E.Entries(cid, shards)[j].key.workerId == shards[i].worker
  {
    var first := E.ShardEntries(cid, shards[0]);
    if j < |first| {
      assert E.Entries(cid, shards)[j] == first[j];
    } else {
      EntryWorker(cid, shards[1..], j - |first|);
      var i :| 0 <= i < |shards[1..]| && E.Entries(cid, shards[1..])[j - |first|].key.workerId == shards[1..][i].worker;
      assert shards[i + 1] == shards[1..][i];
    }
  }

  /** After pinned puts that end in a refusal, those before it are there, all else is as it was or gone. */
  lemma {:induction false} RefusedPutsLeave(s: Store, es: seq<E.Entry>)
    requires s.Valid() && s.cold.None? && DistinctKeys(es) && !E.PutAll(s, es, true).ok
    ensures var m, v := Accepted(s, es, true), E.PutAll(s, es, true).store.View();
      && m < |es|
      && (forall i :: 0 <= i < m ==> es[i].key in v && v[es[i].key] == es[i].payload)
      && (forall k :: k in v ==>
            || (exists i :: 0 <= i < m && es[i].key == k)
            || (k in s.View() && v[k] == s.View()[k]))
    decreases es
  {
    hide L.Put, Lru.Valid, Store.Put;
    var k, obj := es[0].key, es[0].payload;
    var first := s.Put(k, obj, true);
    PutViewAny(s, k, obj, true);
    HotPutView(s, k, obj, true);
    if first.ok {
      var rest := es[1..];
      PutKeepsResident(s, k, obj, true, k);
      assert forall i :: 1 <= i < |es| ==> es[i] == rest[i - 1];
      RefusedPutsLeave(first.store, rest);
      EntryMapAt(rest, k);
      PutAllResident(first.store, rest, true, k);
      HotIsSeen(E.PutAll(first.store, rest, true).store, k);
    }
  }

  /**
   * A pinned re-registration that the store refuses can leave the old descriptor over new chunks.
   * On a plain store the id still answers as recorded exactly when each chunk that went in before
   * the refusal is the recorded one.
   */
  lemma {:induction false} RefusedRegistrationFaithfulExactly(e: E.Engine, args: E.RegisterArgs, now: Time, r: Record)
    requires e.Valid() && e.store.cold.None? && Faithful(e, args.Id(), r)
    requires args.pin && DistinctWorkers(args.payloads.Normalize())
    requires e.Register(args, now).result == Err(E.StorageFull)
    ensures e.Register(args, now).engine.Valid()
    ensures var es := args.ToPut();
      Faithful(e.Register(args, now).engine, args.Id(), r) <==>
        forall i :: 0 <= i < Accepted(e.store, es, true) && es[i].key in r.table ==> r.table[es[i].key] == es[i].payload
  {
    hide Store.View, Store.Valid, E.PutAll, E.Entries, Chunks, Accepted, DistinctKeys;
    E.StepValid(e, E.DoRegister(args), now);
    EntriesDistinct(args.Id(), args.payloads.Normalize());
    RefusedPutsLeave(e.store, args.ToPut());
    var es, e' := args.ToPut(), e.Register(args, now).engine;
    var m, v, v' := Accepted(e.store, es, true), e.store.View(), e'.store.View();
    if forall i :: 0 <= i < m && es[i].key in r.table ==> r.table[es[i].key] == es[i].payload {
      forall k | k in Restrict(v', r.table.Keys) ensures k in r.table && v'[k] == r.table[k] {
        if k in v && v'[k] == v[k] {
          assert k in Restrict(v, r.table.Keys);
        }
      }
    }
    if Faithful(e', args.Id(), r) {
      forall i | 0 <= i < m && es[i].key in r.table ensures r.table[es[i].key] == es[i].payload {
        assert es[i].key in Restrict(v', r.table.Keys);
      }
    }
  }

  /**
   * So a live id can serve the payload of a registration that was refused, over any store: when the
   * refused one is pinned and its first chunk went in, the descriptors are as they were and a load
   * of that chunk returns the new payload.
   */
  lemma {:induction false} RefusedRegistrationServes(e: E.Engine, args: E.RegisterArgs, at: Time, now: Time)
    requires e.Valid() && args.pin && DistinctWorkers(args.payloads.Normalize())
    requires e.Register(args, at).result == Err(E.StorageFull) && Accepted(e.store, args.ToPut(), true) > 0
    requires args.ToPut()[0].key.chunkIndex == 0 && args.ToPut()[0].key.cacheId == args.Id()
    requires e.Live(args.Id(), now).result.Ok? && e.descs[args.Id()].NumChunks() > 0
    ensures var first := args.ToPut()[0];
      && e.Register(args, at).engine.Valid()
      && e.Register(args, at).engine.descs == e.descs
      && e.Register(args, at).engine.Load(args.Id(), Some(1), first.key.workerId, now).result == Ok([first.payload])
  {
    hide Store.View, Store.Valid, Store.Put, Store.Get, E.Entries, Chunks, Descriptor.ExpiredAt;
    var es, e' := args.ToPut(), e.Register(args, at).engine;
    var k, obj := es[0].key, es[0].payload;
    E.StepValid(e, E.DoRegister(args), at);
    EntriesDistinct(args.Id(), args.payloads.Normalize());
    PutViewAny(e.store, k, obj, true);
    PutKeepsResident(e.store, k, obj, true, k);
    assert forall i :: 1 <= i < |es| ==> es[i] == es[1..][i - 1];
    EntryMapAt(es[1..], k);
    PutAllResident(e.store.Put(k, obj, true).store, es[1..], true, k);
    GetView(e'.store, k);
    GetKeepsResident(e'.store, k, k);
    LoadOne(e', args.Id(), k, obj, now);
  }

  lemma {:induction false} LoadOne(e: E.Engine, cid: string, k: ChunkKey, obj: Payload, now: Time)
    requires e.Valid() && e.Live(cid, now).result.Ok? && e.descs[cid].NumChunks() > 0
    requires k == ChunkKey(cid, 0, k.workerId) && e.store.Get(k).result == Hit(obj)
    ensures e.Load(cid, Some(1), k.workerId, now).result == Ok([obj])
  {
    hide Store.Get, Store.Valid, Descriptor.ExpiredAt;
    GetView(e.store, k);
    var next := e.store.Get(k).store;
    assert [obj] + [] == [obj];
    assert E.GetRange(next, cid, k.workerId, 1, 1) == E.Loaded(next, Ok([]));
    assert E.GetRange(e.store, cid, k.workerId, 0, 1) == E.Loaded(next, Ok([obj]));
    assert Min(1, e.descs[cid].NumChunks()) == 1;
  }

  // ---- re-registration and orphans --------------------------------------------------------

  /**
   * Re-registering an id forgets the old descriptor but not its chunks: deleting the id
   * afterwards leaves exactly the old chunk keys that the new registration did not reuse. So no
   * orphan is left exactly when the new one covers every old worker and chunk index.
   */
  lemma {:induction false} ReRegisterLeavesExactly(e: E.Engine, args: E.RegisterArgs, at: Time)
    requires e.Valid() && Lifecycle.Agrees(e) && args.Id() in e.descs && e.Register(args, at).result.Ok?
    ensures var e' := e.Register(args, at).engine;
      var d := e'.descs[args.Id()];
      && (forall k: ChunkKey :: k.cacheId == args.Id() ==>
            (k in e'.Delete(args.Id()).store.View() <==>
               k in e.descs[args.Id()].Keys() && k !in d.Keys()))
      && ((forall k :: k in e'.Delete(args.Id()).store.View() ==> k.cacheId != args.Id()) <==>
            e.descs[args.Id()].Keys() <= d.Keys())
  {
    hide Store.View, Store.Valid, E.PutAll, E.Entries, E.EntryMap, Chunks, E.BuildDescriptor, E.Engine.KeysOf,
      Descriptor.Keys, Store.Remove, Faithful;
    var e', cid, es := e.Register(args, at).engine, args.Id(), args.ToPut();
    var d := e'.descs[cid];
    RegisterFaithful(e, args, at);
    PutAllView(e.store, es, args.pin);
    RegisteredKeys(e, args, at);
    RemoveView(e'.store, d.Keys());
    Lifecycle.DescriptorKeys(e.descs[cid]);
    forall k: ChunkKey | k.cacheId == cid ensures k in e.store.View() <==> k in e.descs[cid].Keys() {
      Lifecycle.KeysOfMember(e, e.descs.Keys, k);
    }
  }

  lemma {:induction false} RegisteredKeys(e: E.Engine, args: E.RegisterArgs, at: Time)
    requires e.Valid() && e.Register(args, at).result.Ok?
    ensures e.Register(args, at).engine.descs[args.Id()].Keys() == KeysPut(args.ToPut())
  {
    hide E.PutAll, E.Entries, E.EntryMap, Chunks, Store.View, Store.Valid;
    RegisterFaithful(e, args, at);
    Lifecycle.DescriptorKeys(e.Register(args, at).engine.descs[args.Id()]);
  }

  /**
   * When descriptors and store still agree after re-registering an id: exactly when the new
   * registration covers every old chunk and, on a CPU store, does not leave stale pins behind, as
   * an unpinned registration over a pinned one does.
   */
  lemma {:induction false} ReRegisterAgreesExactly(e: E.Engine, args: E.RegisterArgs, at: Time)
    requires e.Valid() && Lifecycle.Agrees(e) && args.Id() in e.descs && e.Register(args, at).result.Ok?
    ensures var e', was := e.Register(args, at).engine, e.descs[args.Id()];
      && e'.Valid()
      && (Lifecycle.Agrees(e') <==>
            && was.Keys() <= e'.descs[args.Id()].Keys()
            && (e.store.cold.None? && was.pinned && !args.pin ==> was.Keys() == {}))
  {
    hide Store.View, Store.Valid, Store.NeverDrops, E.PutAll, E.Entries, E.EntryMap, Chunks, E.BuildDescriptor,
      E.Engine.KeysOf, Descriptor.Keys, Faithful;
    var e', cid, es := e.Register(args, at).engine, args.Id(), args.ToPut();
    var was, d := e.descs[cid], e'.descs[cid];
    RegisterFaithful(e, args, at);
    PutAllView(e.store, es, args.pin);
    Lifecycle.PutAllPins(e.store, es, args.pin);
    Lifecycle.DescribePinned(e, args, at);
    RegisteredKeys(e, args, at);
    Lifecycle.DescriptorKeys(was);
    Lifecycle.DescriptorKeys(d);
    forall k: ChunkKey
      ensures k in e'.KeysOf(e'.descs.Keys) <==>
        if k.cacheId == cid then k in d.Keys() else k in e.KeysOf(e.descs.Keys)
      ensures k in e'.KeysOf(Lifecycle.PinnedIds(e')) <==>
        if k.cacheId == cid then args.pin && k in d.Keys() else k in e.KeysOf(Lifecycle.PinnedIds(e))
      ensures k.cacheId == cid ==>
        && (k in e.KeysOf(e.descs.Keys) <==> k in was.Keys())
        && (k in e.KeysOf(Lifecycle.PinnedIds(e)) <==> was.pinned && k in was.Keys())
    {
      Lifecycle.KeysOfMember(e, e.descs.Keys, k);
      Lifecycle.KeysOfMember(e, Lifecycle.PinnedIds(e), k);
      Lifecycle.KeysOfMember(e', e'.descs.Keys, k);
      Lifecycle.KeysOfMember(e', Lifecycle.PinnedIds(e'), k);
    }
    assert e'.store.View().Keys == e.KeysOf(e.descs.Keys) + d.Keys();
    assert e'.store.View().Keys == e'.KeysOf(e'.descs.Keys) <==> was.Keys() <= d.Keys();
  }

  // ---- witnesses for registrations --------------------------------------------------------

  function PlainEngine(capacity: Option<int>): (e: E.Engine)
    ensures e.Valid()
  {
    E.Engine(Store(Lru([], map[], {}, capacity), None), map[], 1, None)
  }

  lemma {:induction false} PlainIsEmpty()
    ensures PlainEngine(None).store.View() == map[] && PlainEngine(None).store.NeverDrops()
  {}

  function TwoChunks(): E.RegisterArgs {
    E.RegisterArgs([0, 1], E.Single([Blob(1, 1), Blob(1, 2)]), Some("c"), "", None, false)
  }

  function OneChunk(): E.RegisterArgs {
    E.RegisterArgs([0], E.Single([Blob(1, 3)]), Some("c"), "", None, false)
  }

  lemma {:induction false} WitnessCounts()
    ensures |Chunks([0, 1], 1)| == 2 && |Chunks([0], 1)| == 1 && CeilDiv(2, 1) == 2
  {
    hide Chunks, CeilDiv;
    ChunksPartition([0, 1], 1);
    ChunksPartition([0], 1);
    CeilDivStep(2, 1);
    CeilDivStep(1, 1);
  }

  lemma {:induction false} WitnessPuts()
    ensures TwoChunks().ToPut() == [E.Entry(ChunkKey("c", 0, 0), Blob(1, 1)), E.Entry(ChunkKey("c", 1, 0), Blob(1, 2))]
    ensures OneChunk().ToPut() == [E.Entry(ChunkKey("c", 0, 0), Blob(1, 3))]
  {
    OneShard("c", [Blob(1, 1), Blob(1, 2)]);
    OneShard("c", [Blob(1, 3)]);
  }

  lemma {:induction false} OneShard(cid: string, ps: seq<Payload>)
    ensures E.Entries(cid, [E.Shard(0, ps)]) == E.ShardEntries(cid, E.Shard(0, ps))
  {
    assert E.Entries(cid, [E.Shard(0, ps)][1..]) == [];
  }

  /**
   * An unpinned registration can succeed without being loadable: in a store of one byte the second
   * of two one-byte chunks evicts the first. UnpinnedRegisterLoadsExactly is the condition.
   */
  lemma {:induction false} UnpinnedRegisterLosesItsChunk(at: Time, now: Time)
    ensures var e := PlainEngine(Some(1));
      && e.Register(TwoChunks(), at).result.Ok?
      && e.Register(TwoChunks(), at).engine.Valid()
      && e.Register(TwoChunks(), at).engine.Load("c", None, 0, now).result == Err(E.Mismatch)
  {
    hide E.Engine.Load, E.Engine.Register, E.Engine.Live, CeilDiv, Lru.Valid;
    var e, args := PlainEngine(Some(1)), TwoChunks();
    WitnessCounts();
    TightRegister(e, at);
    RegisterFaithful(e, args, at);
    RegisteredDescriptor(e, args, at);
    Lifecycle.RegisteredLifetime(e, args, at, now);
    LoadMissingFirst(e.Register(args, at).engine, "c", now);
  }

  lemma {:induction false} TightRegister(e: E.Engine, at: Time)
    requires e == PlainEngine(Some(1))
    ensures e.Register(TwoChunks(), at).result.Ok?
    ensures e.Register(TwoChunks(), at).engine.store.cold.None?
    ensures ChunkKey("c", 0, 0) !in e.Register(TwoChunks(), at).engine.store.hot.data
  {
    hide E.PutAll, E.Entries, E.Engine.Describe, Lru.Valid, Chunks;
    WitnessCounts();
    WitnessPuts();
    BothGoIn(e.store, ChunkKey("c", 0, 0), Blob(1, 1), ChunkKey("c", 1, 0), Blob(1, 2));
  }

  lemma {:induction false} LoadMissingFirst(e: E.Engine, cid: string, now: Time)
    requires e.Valid() && e.Live(cid, now).result.Ok? && e.descs[cid].NumChunks() > 0
    requires e.store.cold.None? && ChunkKey(cid, 0, 0) !in e.store.hot.data
    ensures e.Load(cid, None, 0, now).result == Err(E.Mismatch)
  {
    hide E.GetRange, Lru.Valid;
    MissingFirst(e.store, cid, 0, e.descs[cid].NumChunks());
  }

  lemma {:induction false} BothGoIn(s: Store, k: ChunkKey, p: Payload, x: ChunkKey, q: Payload)
    requires s == Store(Lru([], map[], {}, Some(1)), None) && s.Valid()
    requires k != x && p.NBytes() == 1 && q.NBytes() == 1
    ensures E.PutAll(s, [E.Entry(k, p), E.Entry(x, q)], false) ==
      Stored(Store(Lru([x], map[x := q], {}, Some(1)), None), true)
  {
    hide L.Put, Lru.Valid;
    var one, two := Lru([k], map[k := p], {}, Some(1)), Lru([x], map[x := q], {}, Some(1));
    FirstSlot(k, p);
    PutValid(s.hot, k, p, false);
    OneSlot(one, k, p, x, q);
    PutValid(one, x, q, false);
    var es := [E.Entry(k, p), E.Entry(x, q)];
    assert s.Put(k, p, false) == Stored(Store(one, None), true);
    assert Store(one, None).Put(x, q, false) == Stored(Store(two, None), true);
    assert es[1..] == [E.Entry(x, q)] && es[1..][1..] == [];
    assert E.PutAll(Store(two, None), [], false) == Stored(Store(two, None), true);
    assert E.PutAll(Store(one, None), es[1..], false) == Stored(Store(two, None), true);
  }

  lemma {:induction false} MissingFirst(s: Store, cid: string, worker: int, count: nat)
    requires s.Valid() && count > 0 && s.cold.None? && ChunkKey(cid, 0, worker) !in s.hot.data
    ensures E.GetRange(s, cid, worker, 0, count).result == Err(E.Mismatch)
  {
    var first := s.Get(ChunkKey(cid, 0, worker));
    assert first == Fetched(s, Miss);
    assert E.GetRange(s, cid, worker, 0, count) == E.Loaded(first.store, Err(E.Mismatch));
  }

  /**
   * Re-registering an id with fewer chunks and deleting it can leave a chunk that nothing refers
   * to. ReRegisterLeavesExactly says which.
   */
  lemma {:induction false} ReRegisterLeavesOrphan(at: Time)
    ensures var e := PlainEngine(None);
      && e.Register(TwoChunks(), at).result.Ok? && e.Register(TwoChunks(), at).engine.Valid()
      && var e1 := e.Register(TwoChunks(), at).engine;
      && e1.Register(OneChunk(), at).result.Ok?
      && var e2 := e1.Register(OneChunk(), at).engine.Delete("c");
      && e2.descs == map[] && ChunkKey("c", 1, 0) in e2.store.View()
  {
    hide E.Engine.Register, Chunks, Store.View, Store.Valid, Lifecycle.Agrees;
    var e, two, one := PlainEngine(None), TwoChunks(), OneChunk();
    WitnessCounts();
    WitnessPuts();
    UnboundedRegisters(e, two, at);
    PlainIsEmpty();
    var e1 := e.Register(two, at).engine;
    Lifecycle.EmptyAgrees(e);
    Lifecycle.RegisterAgrees(e, two, at);
    UnboundedRegisters(e1, one, at);
    ReRegisterLeavesExactly(e1, one, at);
    var e2 := e1.Register(one, at).engine;
    RegisteredKeys(e, two, at);
    RegisteredKeys(e1, one, at);
    EntryMapAt(two.ToPut(), ChunkKey("c", 1, 0));
    EntryMapAt(one.ToPut(), ChunkKey("c", 1, 0));
    assert two.ToPut()[1].key == ChunkKey("c", 1, 0);
    assert ChunkKey("c", 1, 0) in e1.descs["c"].Keys() && ChunkKey("c", 1, 0) !in e2.descs["c"].Keys();
  }

  /** Without a byte budget a registration with the right chunk counts succeeds. */
  lemma {:induction false} UnboundedRegisters(e: E.Engine, args: E.RegisterArgs, at: Time)
    requires e.Valid() && e.store.hot.capacity.None? && e.store.cold.None?
    requires forall i :: 0 <= i < |args.payloads.Normalize()| ==>
      |args.payloads.Normalize()[i].payloads| == |Chunks(args.tokens, e.chunkSize)|
    ensures var out := e.Register(args, at);
      && out.result.Ok? && out.engine.Valid() && args.Id() in out.engine.descs
      && out.engine.descs == e.descs[args.Id() := out.result.value]
      && out.engine.chunkSize == e.chunkSize && out.engine.defaultTtl == e.defaultTtl
      && out.engine.store.hot.capacity.None? && out.engine.store.cold.None?
  {
    hide E.PutAll, E.Entries, E.Engine.Describe, Chunks, Store.View, Lru.Valid;
    UnboundedPutsGoIn(e.store, args.ToPut(), args.pin);
    E.StepValid(e, E.DoRegister(args), at);
    PutAllView(e.store, args.ToPut(), args.pin);
    Lifecycle.PutAllPins(e.store, args.ToPut(), args.pin);
  }

  function PinnedPair(p: Payload, q: Payload): E.RegisterArgs {
    E.RegisterArgs([0, 1], E.Single([p, q]), Some("c"), "", None, true)
  }

  lemma {:induction false} PinnedPairPuts(p: Payload, q: Payload)
    ensures PinnedPair(p, q).ToPut() == [E.Entry(ChunkKey("c", 0, 0), p), E.Entry(ChunkKey("c", 1, 0), q)]
    ensures WellCounted(PinnedPair(p, q), 1)
  {
    OneShard("c", [p, q]);
    WitnessCounts();
  }

  /**
   * A refused registration whose first chunk is served: two bytes are pinned in a store of two, and
   * registering a one-byte and a two-byte chunk over them is refused at the second.
   */
  lemma {:induction false} RefusedRegistrationIsServed(at: Time, now: Time)
    ensures var e := PlainEngine(Some(2));
      var first, again := PinnedPair(Blob(1, 1), Blob(1, 2)), PinnedPair(Blob(1, 3), Blob(2, 4));
      && e.Register(first, at).result.Ok? && e.Register(first, at).engine.Valid()
      && var e1 := e.Register(first, at).engine;
      && e1.Register(again, at).result == Err(E.StorageFull) && e1.Register(again, at).engine.Valid()
      && e1.Register(again, at).engine.descs == e1.descs
      && e1.Register(again, at).engine.Load("c", Some(1), 0, now).result == Ok([Blob(1, 3)])
  {
    hide E.PutAll, E.Engine.Register, E.Engine.Load, E.Engine.Live, Lru.Valid, Store.Put, Accepted, CeilDiv, L.Put;
    var e, first, again := PlainEngine(Some(2)), PinnedPair(Blob(1, 1), Blob(1, 2)), PinnedPair(Blob(1, 3), Blob(2, 4));
    PinnedPairPuts(Blob(1, 1), Blob(1, 2));
    PinnedPairPuts(Blob(1, 3), Blob(2, 4));
    WitnessCounts();
    FullPairRegisters(e, at);
    var e1 := e.Register(first, at).engine;
    RegisterFaithful(e, first, at);
    RegisteredDescriptor(e, first, at);
    Lifecycle.RegisteredLifetime(e, first, at, now);
    SecondRefused(e1, again, at);
    RefusedRegistrationServes(e1, again, at, now);
  }

  /** The pair of one-byte chunks fills the store, both pinned. */
  lemma {:induction false} FullPairRegisters(e: E.Engine, at: Time)
    requires e == PlainEngine(Some(2))
    ensures var first, out := PinnedPair(Blob(1, 1), Blob(1, 2)), e.Register(PinnedPair(Blob(1, 1), Blob(1, 2)), at);
      && out.result.Ok? && out.engine.Valid() && out.engine.chunkSize == 1
      && out.engine.store.cold.None? && out.engine.store.hot.capacity == Some(2)
      && out.engine.store.hot.pinned == {ChunkKey("c", 0, 0), ChunkKey("c", 1, 0)}
      && ChunkKey("c", 1, 0) in out.engine.store.hot.data
      && out.engine.store.hot.data[ChunkKey("c", 1, 0)] == Blob(1, 2)
      && ChunkKey("c", 0, 0) in out.engine.store.hot.data
      && out.engine.store.hot.data[ChunkKey("c", 0, 0)] == Blob(1, 1)
  {
    hide E.PutAll, E.Entries, E.Engine.Describe, Lru.Valid, Store.View, Chunks;
    var first := PinnedPair(Blob(1, 1), Blob(1, 2));
    var es := first.ToPut();
    PinnedPairPuts(Blob(1, 1), Blob(1, 2));
    assert TotalBytes(es) == 2 by {
      TotalOfTwo(es);
    }
    assert PinnedTotal(e.store.hot) == 0;
    RegisterGoesInExactly(e, first, at);
    E.StepValid(e, E.DoRegister(first), at);
    PutAllResident(e.store, es, true, es[0].key);
    PutAllResident(e.store, es, true, es[1].key);
    EntryMapAt(es, es[0].key);
    EntryMapAt(es, es[1].key);
    Lifecycle.PutAllPins(e.store, es, true);
    PutAllCapacity(e.store, es, true);
    forall k ensures k in KeysPut(es) <==> k in {es[0].key, es[1].key} {
      EntryMapAt(es, k);
    }
  }

  lemma {:induction false} TotalOfTwo(es: seq<E.Entry>)
    requires |es| == 2
    ensures TotalBytes(es) == es[0].payload.NBytes() + es[1].payload.NBytes()
  {
    assert es[1..][0] == es[1] && es[1..][1..] == [];
    assert TotalBytes(es[1..]) == es[1].payload.NBytes() + TotalBytes([]);
  }

  lemma {:induction false} PutAllCapacity(s: Store, es: seq<E.Entry>, pin: bool)
    requires s.Valid()
    ensures E.PutAll(s, es, pin).store.hot.capacity == s.hot.capacity
    decreases es
  {
    hide L.Put, Lru.Valid;
    if es != [] {
      PutViewAny(s, es[0].key, es[0].payload, pin);
      PutState(s.hot, es[0].key, es[0].payload, pin);
      PutAllCapacity(s.Put(es[0].key, es[0].payload, pin).store, es[1..], pin);
    }
  }

  /** Over that store the first of the new chunks goes in, and the second does not. */
  lemma {:induction false} SecondRefused(e: E.Engine, args: E.RegisterArgs, at: Time)
    requires e.Valid() && e.chunkSize == 1 && e.store.cold.None? && e.store.hot.capacity == Some(2)
    requires args == PinnedPair(Blob(1, 3), Blob(2, 4))
    requires e.store.hot.pinned == {ChunkKey("c", 0, 0), ChunkKey("c", 1, 0)}
    requires ChunkKey("c", 1, 0) in e.store.hot.data && e.store.hot.data[ChunkKey("c", 1, 0)] == Blob(1, 2)
    ensures e.Register(args, at).result == Err(E.StorageFull)
    ensures Accepted(e.store, args.ToPut(), true) == 1
  {
    hide E.Entries, Lru.Valid, Store.View, Chunks, L.Put, Bytes, Only;
    var s, es := e.store, args.ToPut();
    var k, x := ChunkKey("c", 0, 0), ChunkKey("c", 1, 0);
    PinnedPairPuts(Blob(1, 3), Blob(2, 4));
    PutAdmittedExactly(s.hot, k, Blob(1, 3), true);
    OtherPinned(s.hot, k, x);
    PutViewAny(s, k, Blob(1, 3), true);
    PutState(s.hot, k, Blob(1, 3), true);
    var t := s.Put(k, Blob(1, 3), true).store;
    PutAdmittedExactly(t.hot, x, Blob(2, 4), true);
    OtherPinned(t.hot, x, k);
    assert t.hot.pinned == {k, x};
    assert !t.Put(x, Blob(2, 4), true).ok;
    assert es[1..][0] == es[1];
    assert Accepted(t, es[1..], true) == 0;
    assert s.Put(k, Blob(1, 3), true).ok;
    assert Accepted(s, es, true) == 1 + Accepted(t, es[1..], true);
  }

  /** With two keys pinned, the bytes pinned beside one are those of the other. */
  lemma {:induction false} OtherPinned(s: Lru, k: ChunkKey, x: ChunkKey)
    requires s.Valid() && k != x && s.pinned == {k, x} && x in s.data
    ensures s.PinnedBytes(k) == s.data[x].NBytes()
  {
    OnlyNone(s.order, s.data);
    OnlyMore(s, {}, x);
    assert s.pinned - {k} == {} + {x};
  }

  function TwoWorkers(): E.RegisterArgs {
    E.RegisterArgs(
      [0], E.ByWorker([E.Shard(0, [Blob(1, 1)]), E.Shard(1, [Blob(1, 2)])]), Some("c"), "", None, false)
  }

  /**
   * A load for a worker that is not registered can return an older registration's payload: register
   * for two workers, then other tokens for one of them, and load for the other.
   * UnregisteredWorkerFindsNothing says when it cannot.
   */
  lemma {:induction false} UnregisteredWorkerServesOld(at: Time, now: Time)
    ensures var e, args := PlainEngine(None), OneChunk().(tokens := [1]);
      && e.Register(TwoWorkers(), at).result.Ok? && e.Register(TwoWorkers(), at).engine.Valid()
      && var e1 := e.Register(TwoWorkers(), at).engine;
      && e1.Register(args, at).result.Ok? && e1.Register(args, at).engine.Valid()
      && var e2 := e1.Register(args, at).engine;
      && e2.descs["c"].workerIds == [0]
      && e2.Load("c", None, 1, now).result == Ok([Blob(1, 2)])
  {
    hide E.Engine.Register, E.Engine.Load, E.Engine.Live, Chunks, CeilDiv, Store.View, Store.Valid, E.PutAll;
    var e, two, one := PlainEngine(None), TwoWorkers(), OneChunk().(tokens := [1]);
    var k := ChunkKey("c", 0, 1);
    CeilDivStep(1, 1);
    ChunksPartition([0], 1);
    ChunksPartition([1], 1);
    UnboundedRegisters(e, two, at);
    var e1 := e.Register(two, at).engine;
    UnboundedRegisters(e1, one, at);
    var e2 := e1.Register(one, at).engine;
    RegisteredDescriptor(e1, one, at);
    assert e2.descs["c"].NumChunks() == CeilDiv(1, 1) == 1;
    OneWorker(e2.descs["c"].workerIds, E.Workers(one.payloads.Normalize()));
    Lifecycle.RegisteredLifetime(e1, one, at, now);
    TwoWorkersView(e, at);
    KeepsOtherWorker(e1, one, at, k);
    HotGet(e2.store, k, Blob(1, 2));
    LoadOnly(e2, "c", k, Blob(1, 2), now);
  }

  lemma {:induction false} OneWorker(ws: seq<int>, workers: seq<int>)
    requires workers == [0] && multiset(ws) == multiset(workers)
    ensures ws == [0]
  {
    assert |ws| == |multiset(ws)| == 1;
    assert ws[0] in multiset(ws);
  }

  lemma {:induction false} TwoWorkersView(e: E.Engine, at: Time)
    requires e == PlainEngine(None) && e.Register(TwoWorkers(), at).result.Ok?
    ensures var v := e.Register(TwoWorkers(), at).engine.store.View();
      ChunkKey("c", 0, 1) in v && v[ChunkKey("c", 0, 1)] == Blob(1, 2)
  {
    hide E.Engine.Register, Store.View, Store.NeverDrops;
    PlainIsEmpty();
    RegisteredIsSeen(e, TwoWorkers(), at, 1, 0);
  }

  /** Over a store that never drops, readers see what a registration that succeeded stored. */
  lemma {:induction false} RegisteredIsSeen(e: E.Engine, args: E.RegisterArgs, at: Time, s: nat, idx: nat)
    requires e.Valid() && e.store.NeverDrops() && e.Register(args, at).result.Ok?
    requires DistinctWorkers(args.payloads.Normalize()) && s < |args.payloads.Normalize()|
    requires idx < |args.payloads.Normalize()[s].payloads|
    ensures var v, shard := e.Register(args, at).engine.store.View(), args.payloads.Normalize()[s];
      var k := ChunkKey(args.Id(), idx, shard.worker);
      k in v && v[k] == shard.payloads[idx]
  {
    hide E.PutAll, E.Entries, E.EntryMap, Chunks, Store.View, Store.Valid, Store.NeverDrops, E.Engine.Describe;
    PutAllView(e.store, args.ToPut(), args.pin);
    var shards := args.payloads.Normalize();
    EntriesMap(args.Id(), shards, ChunkKey(args.Id(), idx, shards[s].worker));
  }

  lemma {:induction false} KeepsOtherWorker(e: E.Engine, args: E.RegisterArgs, at: Time, k: ChunkKey)
    requires e.Valid() && e.store.NeverDrops() && e.Register(args, at).result.Ok? && k in e.store.View()
    requires forall i :: 0 <= i < |args.payloads.Normalize()| ==> args.payloads.Normalize()[i].worker != k.workerId
    ensures var v := e.Register(args, at).engine.store.View();
      k in v && v[k] == e.store.View()[k]
  {
    hide E.PutAll, E.Entries, Chunks, Store.View, Store.Valid, Store.NeverDrops, E.Engine.Describe;
    PutAllView(e.store, args.ToPut(), args.pin);
    EntriesMap(args.Id(), args.payloads.Normalize(), k);
  }

  lemma {:induction false} HotGet(s: Store, k: ChunkKey, obj: Payload)
    requires s.Valid() && s.cold.None? && k in s.View() && s.View()[k] == obj
    ensures s.Get(k).result == Hit(obj)
  {}

  lemma {:induction false} LoadOnly(e: E.Engine, cid: string, k: ChunkKey, obj: Payload, now: Time)
    requires e.Valid() && e.Live(cid, now).result.Ok? && e.descs[cid].NumChunks() == 1
    requires k == ChunkKey(cid, 0, k.workerId) && e.store.Get(k).result == Hit(obj)
    ensures e.Load(cid, None, k.workerId, now).result == Ok([obj])
  {
    hide Store.Get, Store.Valid, E.GetRange, Descriptor.ExpiredAt;
    LoadOne(e, cid, k, obj, now);
  }

  // ---- witnesses --------------------------------------------------------------------------

  function Blob(n: nat, v: byte): Payload {
    Payload(seq(n, _ => v), 1, 1, "raw", map[])
  }

  function EmptyTiers(capacity: int, keyTtl: Option<nat>): (s: Store)
    ensures s.Valid()
  {
    Store(Lru([], map[], {}, Some(capacity)), Some(Cold(map[], {}, keyTtl)))
  }

  /** Put an object pinned, overwrite it, and try an object larger than the store. */
  function OverwriteThenFail(k: ChunkKey): seq<Event> {
    [Call(PutOp(k, Blob(1, 10), true))] + [Call(PutOp(k, Blob(1, 20), false))] + [Call(PutOp(k, Blob(3, 30), false))]
  }

  /**
   * A failed put can bring an old object back: after the run above readers see the first object
   * again, though the second had replaced it. FailedPutUnseenExactly says for every store when
   * a failed put goes unnoticed, TieredPutView what it leaves.
   */
  lemma {:induction false} FailedPutBringsOldObjectBack(k: ChunkKey)
    ensures
      var s0, run := EmptyTiers(2, None), OverwriteThenFail(k);
      && NoPutRaises(s0, run[..2])
      && After(s0, run[..2]).View() == map[k := Blob(1, 20)]
      && ReplyTo(After(s0, run[..2]), run[2]) == Raised
      && After(s0, run).View() == map[k := Blob(1, 10)]
  {
    hide Store.Put, Lru.Valid, Store.View, After;
    var first, second, third := Blob(1, 10), Blob(1, 20), Blob(3, 30);
    var s0, run := EmptyTiers(2, None), OverwriteThenFail(k);
    assert run[..0] == [] && run[..1] == [] + [run[0]] && run[..2] == run[..1] + [run[1]] && run == run[..2] + [run[2]];
    assert run[..2][..0] == run[..0] && run[..2][..1] == run[..1];
    AfterOneMore(s0, [], run[0]);
    AfterOneMore(s0, run[..1], run[1]);
    AfterOneMore(s0, run[..2], run[2]);
    PutPinnedFirst(k, first);
    OverwriteHeld(k, first, second, first);
    FailHeld(k, second, first, third);
  }

  /** One pinned key in hot, and an object of it in cold. */
  function HeldKey(k: ChunkKey, hot: Payload, cold: Payload): Store {
    Store(Lru([k], map[k := hot], {k}, Some(2)), Some(Cold(map[k := cold], {}, None)))
  }

  /** A put of the one key there is: whatever was in hot under it is replaced. */
  lemma {:induction false} PutOnlyKey(s: Lru, k: ChunkKey, obj: Payload, pin: bool)
    requires s.Valid() && s.data.Keys <= {k} && s.pinned <= {k}
    requires s.capacity.Some? && obj.NBytes() <= s.capacity.value
    ensures L.Put(s, k, obj, pin) ==
      Admission(Lru([k], map[k := obj], s.pinned + (if pin then {k} else {}), s.capacity), [], true)
  {
    hide L.Put, Lru.Valid;
    var put := L.Put(s, k, obj, pin);
    LoneAdmission(s, k, obj, pin);
    PutState(s, k, obj, pin);
    ValidKeys(s);
    assert Elems(put.victims) == {};
    WithoutAll(s.order, {k});
    assert s.data - {k} == map[];
  }

  lemma {:induction false} PutPinnedFirst(k: ChunkKey, p: Payload)
    requires p.NBytes() <= 2
    ensures EmptyTiers(2, None).Put(k, p, true) == Stored(HeldKey(k, p, p), true)
  {
    hide L.Put, Lru.Valid;
    PutOnlyKey(EmptyTiers(2, None).hot, k, p, true);
    var cold := EmptyTiers(2, None).Put(k, p, true).store.cold.value;
    assert cold.objects == map[k := p] && cold.expiring == {};
  }

  lemma {:induction false} HeldKeyValid(k: ChunkKey, p: Payload, c: Payload)
    requires p.NBytes() <= 2
    ensures HeldKey(k, p, c).Valid()
  {
    SingleElem(k);
    assert Bytes([k], map[k := p]) == p.NBytes() + Bytes([], map[k := p]);
  }

  lemma {:induction false} OverwriteHeld(k: ChunkKey, p: Payload, q: Payload, c: Payload)
    requires p.NBytes() <= 2 && q.NBytes() <= 2
    ensures HeldKey(k, p, c).Valid()
    ensures HeldKey(k, p, c).Put(k, q, false) == Stored(HeldKey(k, q, c), true)
    ensures HeldKey(k, q, c).View() == map[k := q]
  {
    hide L.Put, Lru.Valid;
    HeldKeyValid(k, p, c);
    PutOnlyKey(HeldKey(k, p, c).hot, k, q, false);
    var cold := HeldKey(k, p, c).Put(k, q, false).store.cold.value;
    assert cold.objects == map[k := c] && cold.expiring == {};
  }

  lemma {:induction false} FailHeld(k: ChunkKey, p: Payload, c: Payload, big: Payload)
    requires p.NBytes() <= 2 && big.NBytes() > 2
    ensures HeldKey(k, p, c).Valid()
    ensures !HeldKey(k, p, c).Put(k, big, false).ok
    ensures HeldKey(k, p, c).Put(k, big, false).store.View() == map[k := c]
  {
    hide L.Put, Lru.Valid, Store.Put;
    HeldKeyValid(k, p, c);
    var s := HeldKey(k, p, c);
    LoneAdmission(s.hot, k, big, false);
    PutNotAdmitted(s, k, big);
    TieredPutView(s, k, big, false);
  }

  lemma {:induction false} PutNotAdmitted(s: Store, k: ChunkKey, obj: Payload)
    requires s.Valid()
    ensures s.Put(k, obj, false).ok == L.Put(s.hot, k, obj, false).ok
  {}

  /** With no other key pinned, a put goes in exactly when the object alone fits. */
  lemma {:induction false} LoneAdmission(s: Lru, k: ChunkKey, obj: Payload, pin: bool)
    requires s.Valid() && s.pinned <= {k}
    ensures L.Put(s, k, obj, pin).ok <==> (s.capacity.Some? ==> obj.NBytes() <= s.capacity.value)
  {
    PutAdmittedExactly(s, k, obj, pin);
    OnlyNone(s.order, s.data);
    assert s.pinned - {k} == {};
  }

  /** A hot tier with room for one byte swaps its one object for the next. */
  lemma {:induction false} OneSlot(s: Lru, k: ChunkKey, p: Payload, x: ChunkKey, q: Payload)
    requires s == Lru([k], map[k := p], {}, Some(1)) && k != x
    requires p.NBytes() == 1 && q.NBytes() == 1
    ensures L.Put(s, x, q, false) == Admission(Lru([x], map[x := q], {}, Some(1)), [k], true)
  {
    var s1 := Drop(s, {x});
    assert s1.order == [k] && s1.data == s.data by {
      assert Without([k], {x}) == [k] + Without([], {x});
    }
    assert Bytes([k], s.data) == 1 + Bytes([], s.data);
    assert Shed([k], s.data, 1) == [k] + Shed([], s.data, 0);
    assert s1.Candidates() == [k] by {
      assert Without([k], {}) == [k] + Without([], {});
    }
    var room := EnsureRoom(s1, 1);
    assert room.victims == [k];
    SingleElem(k);
    assert Drop(s1, {k}).order == [] by {
      assert Without([k], {k}) == Without([], {k});
    }
    assert Drop(s1, {k}).data == map[];
    assert room.state == Lru([], map[], {}, Some(1));
  }

  /** Store, evict by another key, pin, read back, evict again, let the copy's expiry run out. */
  function PinAfterDemotion(k: ChunkKey, x: ChunkKey): seq<Event> {
    var a, b := Blob(1, 1), Blob(1, 2);
    [Call(PutOp(k, a, false))] + [Call(PutOp(x, b, false))] + [Call(PinOp(k))] + [Call(GetOp(k))]
      + [Call(PutOp(x, b, false))] + [Expiry(k)]
  }

  /**
   * Pinning a demoted key does not protect it. Over Redis with a default expiry the run above,
   * in which nothing raises and the key is never unpinned or removed, loses it.
   * LatePins.LatePinKeepsExactly is the condition, for every store.
   */
  lemma {:induction false} PinOfDemotedKeyIsLost(k: ChunkKey, x: ChunkKey)
    requires k != x
    ensures
      var s0, run := EmptyTiers(1, Some(60)), PinAfterDemotion(k, x);
      && (forall n :: 0 <= n < |run| ==> ReplyTo(After(s0, run[..n]), run[n]) != Raised)
      && k in After(s0, run[..3]).View() && k !in After(s0, run[..3]).hot.data
      && ReplyTo(After(s0, run[..3]), run[3]) == Found(Blob(1, 1))
      && k in After(s0, run[..5]).View()
      && k !in After(s0, run).View()
  {
    hide Store.Put, Store.Get, Store.Pin, Store.Expire, Lru.Valid, Store.View, After;
    var a, b := Blob(1, 1), Blob(1, 2);
    var s0, run := EmptyTiers(1, Some(60)), PinAfterDemotion(k, x);
    assert run[..1] == [] + [run[0]] && run[..2] == run[..1] + [run[1]] && run[..3] == run[..2] + [run[2]];
    assert run[..4] == run[..3] + [run[3]] && run[..5] == run[..4] + [run[4]] && run == run[..5] + [run[5]];
    AfterOneMore(s0, [], run[0]);
    AfterOneMore(s0, run[..1], run[1]);
    AfterOneMore(s0, run[..2], run[2]);
    AfterOneMore(s0, run[..3], run[3]);
    AfterOneMore(s0, run[..4], run[4]);
    AfterOneMore(s0, run[..5], run[5]);
    FillSlot(k, a);
    SwapSlot(k, a, x, b, map[], {});
    assert {} + {k} == {k} && {} + {x} == {x};
    PinSlot(k, a, x, b);
    SwapSlot(x, b, k, a, map[k := a], {});
    SwapSlot(k, a, x, b, map[k := a][x := b], {x});
    ViewIs(After(s0, run[..3]));
    ViewIs(After(s0, run[..5]));
    ViewIs(After(s0, run));
    ExpireSlot(k, x, b, After(s0, run[..5]));
  }

  /** A hot tier of one byte holding one object, over a cold tier with a default expiry. */
  function Slot(k: ChunkKey, p: Payload, cold: map<ChunkKey, Payload>, expiring: set<ChunkKey>): Store {
    Store(Lru([k], map[k := p], {}, Some(1)), Some(Cold(cold, expiring, Some(60))))
  }

  lemma {:induction false} SlotValid(k: ChunkKey, p: Payload, cold: map<ChunkKey, Payload>, expiring: set<ChunkKey>)
    requires p.NBytes() == 1
    ensures Slot(k, p, cold, expiring).Valid()
  {
    assert Bytes([k], map[k := p]) == 1 + Bytes([], map[k := p]);
    SingleElem(k);
  }

  lemma {:induction false} FillSlot(k: ChunkKey, p: Payload)
    requires p.NBytes() == 1
    ensures EmptyTiers(1, Some(60)).Put(k, p, false) == Stored(Slot(k, p, map[], {}), true)
  {
    hide L.Put, Lru.Valid;
    FirstSlot(k, p);
    var cold := EmptyTiers(1, Some(60)).Put(k, p, false).store.cold.value;
    assert cold.objects == map[] && cold.expiring == {};
  }

  /** Another object takes the slot, by a put or by a promotion: the first goes to cold to expire. */
  lemma {:induction false} SwapSlot(
    k: ChunkKey, p: Payload, x: ChunkKey, q: Payload, cold: map<ChunkKey, Payload>, expiring: set<ChunkKey>)
    requires k != x && p.NBytes() == 1 && q.NBytes() == 1
    ensures Slot(k, p, cold, expiring).Valid()
    ensures var s := Slot(x, q, cold[k := p], expiring + {k});
      && Slot(k, p, cold, expiring).Put(x, q, false) == Stored(s, true)
      && (x in cold && cold[x] == q ==> Slot(k, p, cold, expiring).Get(x) == Fetched(s, Hit(q)))
  {
    hide L.Put, Lru.Valid;
    SlotValid(k, p, cold, expiring);
    OneSlot(Slot(k, p, cold, expiring).hot, k, p, x, q);
    SingleElem(k);
    assert Slot(k, p, cold, expiring).Put(x, q, false).store.cold.value.objects == cold[k := p];
  }

  lemma {:induction false} PinSlot(k: ChunkKey, p: Payload, x: ChunkKey, q: Payload)
    requires k != x
    ensures Slot(x, q, map[k := p], {k}).Pin({k}) == Slot(x, q, map[k := p], {})
  {
    var s := Slot(x, q, map[k := p], {k}).Pin({k});
    assert s.hot.pinned == {} && s.cold.value.expiring == {};
  }

  lemma {:induction false} ExpireSlot(k: ChunkKey, x: ChunkKey, q: Payload, s: Store)
    requires k != x && s.cold.Some? && s.hot == Slot(x, q, map[], {}).hot
    requires s.cold.value.keyTtl.Some? && k in s.cold.value.objects && k in s.cold.value.expiring
    ensures k !in s.Expire(k).View()
  {}

  lemma {:induction false} FirstSlot(k: ChunkKey, p: Payload)
    requires p.NBytes() == 1
    ensures L.Put(Lru([], map[], {}, Some(1)), k, p, false) == Admission(Lru([k], map[k := p], {}, Some(1)), [], true)
  {
    var s := Lru([], map[], {}, Some(1));
    assert Drop(s, {k}) == s by {
      assert s.data - {k} == map[];
    }
    assert Drop(s, {}) == s by {
      assert s.data - {} == map[];
    }
    assert EnsureRoom(s, 1) == Admission(s, [], true);
  }

  lemma {:induction false} ViewIs(s: Store)
    ensures s.cold.Some? ==> s.View().Keys == s.cold.value.objects.Keys + s.hot.data.Keys
  {}

  /**
   * A half-computed prompt misses its tail. Two chunks are reusable and the first is already
   * computed: the load is staged with one chunk, which is the first again.
   */
  lemma {:induction false} HalfComputedMissesTail(
    e: E.Engine, r: Record, request: C.Request, t0: Time, t1: Time)
    requires e.Valid() && request.CacheId().Some? && Faithful(e, request.CacheId().value, r)
    requires e.chunkSize == 8 && |r.tokens| == 16 && request.Prompt() == r.tokens
    requires C.NumNewMatched(e, request, 8, t0, t1).result.Ok?
    ensures e.Live(request.CacheId().value, t0).result.Ok? ==>
      var found := e.Lookup(request.CacheId().value, Some(request.Prompt()), t1).result;
      && found.Ok? && found.value.numChunks == 2
      && CeilDiv(C.NumNewMatched(e, request, 8, t0, t1).result.value, e.chunkSize) == 1
  {
    hide Faithful, E.Engine.Lookup, E.Engine.Delete, Descriptor.ExpiredAt;
    LookupClosedForm(e, request.CacheId().value, r, request.Prompt(), t1);
    PrefixIsCommon(request.Prompt(), r.tokens);
  }
}
