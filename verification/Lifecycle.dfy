/**
 * Lifecycle laws of the engine over whole runs (src/llmcache/engine.py): pinned caches stay
 * resident, expiry is permanent, and descriptors agree with the store.
 */
module Lifecycle {
  import opened Wrappers
  import opened Payloads
  import opened Types
  import L = Lru
  import opened Tiers
  import opened Engine
  import opened Reuse

  // ---- pinned caches stay resident --------------------------------------------------------

  /** The id is described by the record and each of its chunks is in hot to stay. */
  ghost predicate Held(e: Engine, cid: string, r: Record, expiresAt: Option<Time>)
    requires e.Valid()
  {
    && cid in e.descs
    && Describes(e.descs[cid], r)
    && e.descs[cid].expiresAt == expiresAt
    && r.Covers(cid, e.chunkSize)
    && forall k :: k in r.table ==> HoldsIn(e.store, k, r.table[k])
  }

  /** In hot, and either pinned there or in a store without a byte budget, which evicts nothing. */
  predicate HoldsIn(s: Store, k: ChunkKey, p: Payload) {
    && k in s.hot.data && s.hot.data[k] == p
    && (k in s.hot.pinned || s.hot.capacity.None?)
  }

  lemma {:induction false} PutKeepsHolding(s: Store, k: ChunkKey, obj: Payload, pin: bool, x: ChunkKey, p: Payload)
    requires s.Valid()
    ensures var r := s.Put(k, obj, pin);
      && (x != k && HoldsIn(s, x, p) ==> HoldsIn(r.store, x, p))
      && (r.ok && (pin || s.hot.capacity.None?) ==> HoldsIn(r.store, k, obj))
      && r.store.hot.capacity == s.hot.capacity
  {
    hide L.Put, L.Lru.Valid;
    L.PutState(s.hot, k, obj, pin);
  }

  lemma {:induction false} GetKeepsHolding(s: Store, k: ChunkKey, x: ChunkKey, p: Payload)
    requires s.Valid() && HoldsIn(s, x, p)
    ensures HoldsIn(s.Get(k).store, x, p)
    ensures k == x ==> s.Get(k).result == Hit(p)
  {
    hide L.Put, L.Lru.Valid;
    if k !in s.hot.data && s.cold.Some? && k in s.cold.value.objects {
      L.PutState(s.hot, k, s.cold.value.objects[k], false);
    }
  }

  /** A run of puts keeps what is held under other keys, and holds what it puts, if it pins or need not. */
  lemma {:induction false} PutAllHolds(s: Store, es: seq<Entry>, pin: bool, x: ChunkKey, p: Payload)
    requires s.Valid()
    ensures var r := PutAll(s, es, pin);
      && (x !in KeysPut(es) && HoldsIn(s, x, p) ==> HoldsIn(r.store, x, p))
      && (r.ok && (pin || s.hot.capacity.None?) && x in KeysPut(es) ==> HoldsIn(r.store, x, EntryMap(es)[x]))
    decreases es
  {
    hide Store.Put, Store.Valid, HoldsIn;
    if es != [] {
      var k, obj, rest := es[0].key, es[0].payload, es[1..];
      var first := s.Put(k, obj, pin);
      PutViewAny(s, k, obj, pin);
      PutKeepsHolding(s, k, obj, pin, x, p);
      PutAllHolds(first.store, rest, pin, x, if x == k then obj else p);
    }
  }

  /** Operations that end or change the protection of an id. */
  predicate Disturbs(op: Op, cid: string) {
    op.Writes(cid) || op == DoUnpin(cid) || op == DoDelete(cid) || (op.DoExtendTtl? && op.cid == cid)
  }

  predicate ExpiredBy(expiresAt: Option<Time>, now: Time) {
    expiresAt.Some? && now >= expiresAt.value
  }

  lemma {:induction false} RegisterHolds(e: Engine, args: RegisterArgs, now: Time)
    requires e.Valid() && (args.pin || e.store.hot.capacity.None?) && e.Register(args, now).result.Ok?
    ensures var e' := e.Register(args, now).engine;
      e'.Valid() && Held(e', args.Id(), RecordOf(args), e'.descs[args.Id()].expiresAt)
  {
    hide Store.View, Store.Valid, PutAll, Entries, EntryMap, Engine.Describe, HoldsIn;
    RegisterFaithful(e, args, now);
    forall k | k in RecordOf(args).table
      ensures HoldsIn(PutAll(e.store, args.ToPut(), args.pin).store, k, RecordOf(args).table[k])
    {
      PutAllHolds(e.store, args.ToPut(), args.pin, k, RecordOf(args).table[k]);
    }
  }

  lemma {:induction false} GetRangeKeepsHolding(
    s: Store, cid: string, worker: int, idx: nat, count: int, k: ChunkKey, p: Payload)
    requires s.Valid() && HoldsIn(s, k, p)
    ensures HoldsIn(GetRange(s, cid, worker, idx, count).store, k, p)
    decreases count - idx
  {
    hide Store.Get, Store.Valid, HoldsIn;
    if idx < count {
      GetView(s, ChunkKey(cid, idx, worker));
      GetKeepsHolding(s, ChunkKey(cid, idx, worker), k, p);
      GetRangeKeepsHolding(s.Get(ChunkKey(cid, idx, worker)).store, cid, worker, idx + 1, count, k, p);
    }
  }

  /** Removing, pinning or unpinning chunks of other ids leaves a held chunk alone. */
  lemma {:induction false} OtherKeysHold(s: Store, ks: set<ChunkKey>, k: ChunkKey, p: Payload)
    requires HoldsIn(s, k, p)
    ensures k !in ks ==> HoldsIn(s.Remove(ks), k, p) && HoldsIn(s.Unpin(ks), k, p)
    ensures HoldsIn(s.Pin(ks), k, p)
    ensures HoldsIn(s.Expire(k), k, p)
  {}

  lemma {:induction false} DescriptorKeys(d: Descriptor)
    ensures forall k :: k in d.Keys() <==>
      k.cacheId == d.cacheId && k.workerId in d.workerIds && 0 <= k.chunkIndex < d.NumChunks()
  {
    forall k: ChunkKey | k.cacheId == d.cacheId && k.workerId in d.workerIds && 0 <= k.chunkIndex < d.NumChunks()
      ensures k in d.Keys()
    {
      assert k == ChunkKey(d.cacheId, k.chunkIndex, k.workerId);
    }
  }

  /** One step on the store part: a held chunk of the id stays held. */
  lemma {:induction false} StepHoldsChunk(e: Engine, op: Op, now: Time, cid: string, k: ChunkKey, p: Payload)
    requires e.Valid() && !Disturbs(op, cid) && cid in e.descs && !e.descs[cid].ExpiredAt(now)
    requires k.cacheId == cid && HoldsIn(e.store, k, p)
    ensures HoldsIn(Step(e, op, now).store, k, p)
  {
    hide HoldsIn, Store.View, Store.Get, Store.Put, Store.Pin, Store.Unpin, Store.Remove, Store.Expire, Store.Valid,
      GetRange, PutAll, Chunks, MatchedChunks, Descriptor.Keys, Entries, Engine.Describe;
    forall ks ensures k !in ks ==> HoldsIn(e.store.Remove(ks), k, p) && HoldsIn(e.store.Unpin(ks), k, p) {
      OtherKeysHold(e.store, ks, k, p);
    }
    forall c | c in e.descs && c != cid ensures k !in e.descs[c].Keys() {
      DescriptorKeys(e.descs[c]);
    }
    match op
    case DoRegister(args) =>
      RegisterKeepsHolding(e.store, args, k, p);
    case DoPutChunk(c, idx, payload, worker, pin) =>
      PutKeepsHolding(e.store, ChunkKey(c, idx, worker), payload, pin, k, p);
    case DoLoad(c, numChunks, worker) =>
      forall count ensures HoldsIn(GetRange(e.store, c, worker, 0, count).store, k, p) {
        GetRangeKeepsHolding(e.store, c, worker, 0, count, k, p);
      }
    case DoPin(c) =>
      forall ks ensures HoldsIn(e.store.Pin(ks), k, p) {
        OtherKeysHold(e.store, ks, k, p);
      }
    case ColdExpiry(key) => ExpireHolds(e.store, key, k, p);
    case _ =>
  }

  lemma {:induction false} RegisterKeepsHolding(s: Store, args: RegisterArgs, k: ChunkKey, p: Payload)
    requires s.Valid() && args.Id() != k.cacheId && HoldsIn(s, k, p)
    ensures HoldsIn(PutAll(s, args.ToPut(), args.pin).store, k, p)
  {
    hide PutAll, Entries, EntryMap, HoldsIn;
    PutAllHolds(s, args.ToPut(), args.pin, k, p);
    EntriesMap(args.Id(), args.payloads.Normalize(), k);
  }

  lemma {:induction false} ExpireHolds(s: Store, key: ChunkKey, k: ChunkKey, p: Payload)
    requires HoldsIn(s, k, p)
    ensures HoldsIn(s.Expire(key), k, p)
  {}

  /** One step on the descriptor part: it stays, still describing the record. */
  lemma {:induction false} StepKeepsDescriptor(e: Engine, op: Op, now: Time, cid: string)
    requires e.Valid() && !Disturbs(op, cid) && cid in e.descs && !e.descs[cid].ExpiredAt(now)
    ensures cid in Step(e, op, now).descs
    ensures Step(e, op, now).descs[cid] == e.descs[cid].(pinned := Step(e, op, now).descs[cid].pinned)
  {
    hide Store.Get, Store.Put, Store.Pin, Store.Unpin, Store.Remove, Store.Expire, Store.Valid,
      GetRange, PutAll, Chunks, MatchedChunks, Descriptor.Keys, Entries, Engine.Describe;
  }

  lemma {:induction false} StepKeepsHeld(e: Engine, op: Op, now: Time, cid: string, r: Record, expiresAt: Option<Time>)
    requires e.Valid() && Held(e, cid, r, expiresAt)
    requires !Disturbs(op, cid) && !ExpiredBy(expiresAt, now)
    ensures Step(e, op, now).Valid() && Held(Step(e, op, now), cid, r, expiresAt)
  {
    hide Step, HoldsIn, Chunks;
    StepValid(e, op, now);
    StepKeepsDescriptor(e, op, now, cid);
    forall k | k in r.table ensures HoldsIn(Step(e, op, now).store, k, r.table[k]) {
      StepHoldsChunk(e, op, now, cid, k, r.table[k]);
    }
  }

  /** A load of chunks that are all held cannot raise and gives exactly those objects. */
  lemma {:induction false} GetRangeHeld(
    s: Store, cid: string, worker: int, idx: nat, count: nat, table: map<ChunkKey, Payload>)
    requires s.Valid()
    requires forall i :: 0 <= i < count ==> ChunkKey(cid, i, worker) in table
    requires forall k :: k in table ==> HoldsIn(s, k, table[k])
    ensures GetRange(s, cid, worker, idx, count).result.Ok?
    decreases count - idx
  {
    hide Store.Get, Store.Valid;
    if idx < count {
      var key := ChunkKey(cid, idx, worker);
      GetView(s, key);
      GetKeepsHolding(s, key, key, table[key]);
      var s' := s.Get(key).store;
      forall k | k in table ensures HoldsIn(s', k, table[k]) {
        GetKeepsHolding(s, key, k, table[k]);
      }
      GetRangeHeld(s', cid, worker, idx + 1, count, table);
    }
  }

  lemma {:induction false} HeldFaithful(e: Engine, cid: string, r: Record, expiresAt: Option<Time>)
    requires e.Valid() && Held(e, cid, r, expiresAt)
    ensures Faithful(e, cid, r)
  {
    var v := Restrict(e.store.View(), r.table.Keys);
    forall k | k in v ensures k in r.table && v[k] == r.table[k] {
      assert HoldsIn(e.store, k, r.table[k]);
    }
  }

  lemma {:induction false} HeldLoadsAny(
    e: Engine, cid: string, r: Record, expiresAt: Option<Time>, numChunks: Option<int>, worker: int, now: Time)
    requires e.Valid() && Held(e, cid, r, expiresAt) && worker in r.workers && !ExpiredBy(expiresAt, now)
    ensures e.Load(cid, numChunks, worker, now).result.Ok?
  {
    hide Chunks, GetRange, Store.Valid;
    var total := e.descs[cid].NumChunks();
    var count := if numChunks.None? then total else Min(numChunks.value, total);
    if count >= 0 {
      GetRangeHeld(e.store, cid, worker, 0, count, r.table);
    } else {
      GetRangeView(e.store, cid, worker, 0, count);
      GetNothing(e.store, cid, worker, count);
    }
  }

  lemma {:induction false} GetNothing(s: Store, cid: string, worker: int, count: int)
    requires s.Valid() && count <= 0
    ensures GetRange(s, cid, worker, 0, count).result.Ok?
  {}

  lemma {:induction false} HeldLoads(e: Engine, cid: string, r: Record, expiresAt: Option<Time>, worker: int, now: Time)
    requires e.Valid() && Held(e, cid, r, expiresAt) && worker in r.workers && !ExpiredBy(expiresAt, now)
    ensures var out := e.Load(cid, None, worker, now).result;
      && out.Ok?
      && |out.value| == |Chunks(r.tokens, e.chunkSize)|
      && forall i :: 0 <= i < |out.value| ==>
           ChunkKey(cid, i, worker) in r.table && out.value[i] == r.table[ChunkKey(cid, i, worker)]
  {
    hide Held, Faithful, Chunks, Engine.Load;
    HeldLoadsAny(e, cid, r, expiresAt, None, worker, now);
    HeldFaithful(e, cid, r, expiresAt);
    FaithfulLoad(e, cid, r, None, worker, now);
  }

  /**
   * Pinned caches stay resident. After a registration with `pin` succeeds, over any store, or one
   * without `pin` over a store without a byte budget, any run of operations that does not write,
   * unpin, delete or extend that id and happens before it expires, failing operations and sweeps
   * included, leaves every chunk loadable: a load for any registered worker succeeds and returns
   * exactly the registered payloads.
   */
  lemma {:induction false} PinnedCachesStayResident(
    e: Engine, args: RegisterArgs, at: Time, run: seq<Timed>, shard: Shard, now: Time)
    requires e.Valid() && (args.pin || e.store.hot.capacity.None?) && e.Register(args, at).result.Ok?
    requires var expiresAt := e.Register(args, at).result.value.expiresAt;
      && (forall n :: 0 <= n < |run| ==>
            !Disturbs(run[n].op, args.Id()) && !ExpiredBy(expiresAt, run[n].now))
      && !ExpiredBy(expiresAt, now)
    requires DistinctWorkers(args.payloads.Normalize()) && shard in args.payloads.Normalize()
    ensures e.Register(args, at).engine.Valid()
    ensures After(e.Register(args, at).engine, run).Load(args.Id(), None, shard.worker, now).result
      == Ok(shard.payloads)
  {
    hide Engine.Load, Entries, EntryMap, Chunks, PutAll, Held;
    var e1, cid, r := e.Register(args, at).engine, args.Id(), RecordOf(args);
    var expiresAt := e1.descs[cid].expiresAt;
    RegisterHolds(e, args, at);
    HeldForever(e1, run, cid, r, expiresAt);
    var shards := args.payloads.Normalize();
    var s :| 0 <= s < |shards| && shards[s] == shard;
    assert Workers(shards)[s] == shard.worker;
    HeldLoads(After(e1, run), cid, r, expiresAt, shard.worker, now);
    var out := After(e1, run).Load(cid, None, shard.worker, now).result.value;
    assert |shards[s].payloads| == |Chunks(args.tokens, e.chunkSize)|;
    forall i | 0 <= i < |out| ensures out[i] == shard.payloads[i] {
      EntriesMap(cid, shards, ChunkKey(cid, i, shard.worker));
    }
    assert out == shard.payloads;
  }

  lemma {:induction false} HeldForever(
    e: Engine, run: seq<Timed>, cid: string, r: Record, expiresAt: Option<Time>)
    requires e.Valid() && Held(e, cid, r, expiresAt)
    requires forall n :: 0 <= n < |run| ==>
      !Disturbs(run[n].op, cid) && !ExpiredBy(expiresAt, run[n].now)
    ensures Held(After(e, run), cid, r, expiresAt)
  {
    hide Held, Step;
    if run != [] {
      var past, last := run[..|run| - 1], run[|run| - 1];
      HeldForever(e, past, cid, r, expiresAt);
      StepKeepsHeld(After(e, past), last.op, last.now, cid, r, expiresAt);
    }
  }

  // ---- expiry is permanent ----------------------------------------------------------------

  /** The id is gone, or its descriptor has expired at `t`. */
  predicate Dead(e: Engine, cid: string, t: Time) {
    cid in e.descs ==> e.descs[cid].ExpiredAt(t)
  }

  predicate Publishes(op: Op, cid: string) {
    (op.DoRegister? && op.args.Id() == cid) || (op.DoCommit? && op.cid == cid)
  }

  lemma {:induction false} StepKeepsDead(e: Engine, op: Op, now: Time, cid: string, t: Time)
    requires e.Valid() && Dead(e, cid, t) && now >= t && !Publishes(op, cid)
    ensures Dead(Step(e, op, now), cid, t)
  {
    hide Store.Get, Store.Put, Store.Pin, Store.Unpin, Store.Remove, Store.Expire, Store.Valid,
      GetRange, PutAll, Chunks, MatchedChunks, Descriptor.Keys, Entries, Engine.Describe;
  }

  /**
   * Expiry is permanent. Once an id has expired (or is unknown) at time `t`, then after every
   * run at later times that does not register or commit it again, every operation that needs
   * the cache reports it missing or expired; extending its life included.
   */
  lemma {:induction false} ExpiryIsPermanent(e: Engine, run: seq<Timed>, cid: string, t: Time, now: Time)
    requires e.Valid() && Dead(e, cid, t) && now >= t
    requires forall n :: 0 <= n < |run| ==> run[n].now >= t && !Publishes(run[n].op, cid)
    ensures var e' := After(e, run);
      && Dead(e', cid, t)
      && GoneOrExpired(e'.Live(cid, now).result)
      && (forall request :: GoneOrExpired(e'.Lookup(cid, request, now).result))
      && (forall n, w :: GoneOrExpired(e'.Load(cid, n, w, now).result))
      && (forall ttl :: GoneOrExpired(e'.ExtendTtl(cid, ttl, now).result))
      && GoneOrExpired(e'.PinCache(cid, now).result)
      && GoneOrExpired(e'.UnpinCache(cid, now).result)
  {
    hide Step, Store.Valid, GetRange, MatchedChunks;
    if run != [] {
      var past, last := run[..|run| - 1], run[|run| - 1];
      ExpiryIsPermanent(e, past, cid, t, now);
      StepKeepsDead(After(e, past), last.op, last.now, cid, t);
    }
  }

  predicate GoneOrExpired<T(==)>(r: Result<T, Error>) {
    r == Err(NotFound) || r == Err(Expired)
  }

  /** A sweep forgets exactly the caches expired at its clock reading and counts them. */
  lemma {:induction false} SweepForgetsExactly(e: Engine, now: Time)
    requires e.Valid()
    ensures var r := e.Sweep(now);
      && (forall c :: c in r.engine.descs <==> c in e.descs && !e.descs[c].ExpiredAt(now))
      && (forall c :: c in r.engine.descs ==> r.engine.descs[c] == e.descs[c])
      && r.result == Ok(|set c | c in e.descs && e.descs[c].ExpiredAt(now)|)
  {
    assert e.ExpiredIds(now) == set c | c in e.descs && e.descs[c].ExpiredAt(now);
  }

  // ---- descriptors agree with the store ---------------------------------------------------

  /** The ids of the caches whose descriptor says pinned. */
  function PinnedIds(e: Engine): set<string> {
    set c | c in e.descs && e.descs[c].pinned
  }

  /**
   * The store holds the chunks of the registered caches and no others; on a plain CPU store the
   * pin set is the chunks of the pinned ones.
   */
  ghost predicate Agrees(e: Engine)
    requires e.Valid()
  {
    && e.store.NeverDrops()
    && e.store.View().Keys == e.KeysOf(e.descs.Keys)
    && (e.store.cold.None? ==> e.store.hot.pinned == e.KeysOf(PinnedIds(e)))
  }

  /**
   * Registration under a new id that succeeds, one refused for its chunk counts, or any operation
   * that writes neither chunks nor descriptors.
   */
  ghost predicate Orderly(e: Engine, op: Op, now: Time)
    requires e.Valid()
  {
    match op
    case DoRegister(args) =>
      || (args.Id() !in e.descs && e.Register(args, now).result.Ok?)
      || e.Register(args, now).result == Err(BadChunkCount)
    case DoPutChunk(_, _, _, _, _) => false
    case DoCommit(_, _, _, _, _, _) => false
    case ColdExpiry(_) => false
    case _ => true
  }

  lemma {:induction false} KeysOfMember(e: Engine, ids: set<string>, k: ChunkKey)
    requires e.Valid() && ids <= e.descs.Keys
    ensures k in e.KeysOf(ids) <==> k.cacheId in ids && k in e.descs[k.cacheId].Keys()
  {
    forall c | c in ids ensures k in e.descs[c].Keys() ==> k.cacheId == c {
      DescriptorKeys(e.descs[c]);
    }
  }

  lemma {:induction false} PutAllPins(s: Store, es: seq<Entry>, pin: bool)
    requires s.Valid()
    ensures var r := PutAll(s, es, pin);
      && r.store.cold.Some? == s.cold.Some?
      && (r.ok ==> r.store.hot.pinned == s.hot.pinned + (if pin then KeysPut(es) else {}))
    decreases es
  {
    hide L.Put, L.Lru.Valid;
    if es != [] {
      var first := s.Put(es[0].key, es[0].payload, pin);
      PutViewAny(s, es[0].key, es[0].payload, pin);
      L.PutState(s.hot, es[0].key, es[0].payload, pin);
      PutAllPins(first.store, es[1..], pin);
    }
  }

  lemma {:induction false} GetRangePins(s: Store, cid: string, worker: int, idx: nat, count: int)
    requires s.Valid()
    ensures var r := GetRange(s, cid, worker, idx, count);
      && r.store.cold.Some? == s.cold.Some?
      && r.store.hot.pinned == s.hot.pinned
    decreases count - idx
  {
    hide L.Put, L.Lru.Valid;
    if idx < count {
      var k := ChunkKey(cid, idx, worker);
      GetView(s, k);
      if k !in s.hot.data && s.cold.Some? && k in s.cold.value.objects {
        L.PutState(s.hot, k, s.cold.value.objects[k], false);
      }
      GetRangePins(s.Get(k).store, cid, worker, idx + 1, count);
    }
  }

  lemma {:induction false} RegisterAgrees(e: Engine, args: RegisterArgs, now: Time)
    requires e.Valid() && Agrees(e) && args.Id() !in e.descs && e.Register(args, now).result.Ok?
    ensures e.Register(args, now).engine.Valid() && Agrees(e.Register(args, now).engine)
  {
    hide Store.View, Store.Valid, Store.NeverDrops, PutAll, Entries, EntryMap, Chunks, Engine.Describe,
      Engine.KeysOf, Descriptor.Keys;
    var e', cid, es := e.Register(args, now).engine, args.Id(), args.ToPut();
    RegisterFaithful(e, args, now);
    PutAllView(e.store, es, args.pin);
    PutAllPins(e.store, es, args.pin);
    var d, r := e'.descs[cid], RecordOf(args);
    var workers := Workers(args.payloads.Normalize());
    assert d == e.Describe(cid, args.tokens, LayersFrom(0, es), workers, args.ttl, args.pin, now);
    assert d.pinned == args.pin by { DescribePinned(e, args, now); }
    forall k ensures k in d.Keys() <==> k in KeysPut(es) {
      DescriptorKeys(d);
    }
    forall k ensures k in e'.KeysOf(e'.descs.Keys) <==> k in e.KeysOf(e.descs.Keys) || k in KeysPut(es) {
      KeysOfMember(e, e.descs.Keys, k);
      KeysOfMember(e', e'.descs.Keys, k);
      DescriptorKeys(d);
    }
    forall k ensures k in e'.KeysOf(PinnedIds(e')) <==>
      k in e.KeysOf(PinnedIds(e)) || (args.pin && k in KeysPut(es))
    {
      KeysOfMember(e, PinnedIds(e), k);
      KeysOfMember(e', PinnedIds(e'), k);
      DescriptorKeys(d);
    }
  }

  lemma {:induction false} DescribePinned(e: Engine, args: RegisterArgs, now: Time)
    requires e.Valid() && e.Register(args, now).result.Ok?
    ensures e.Register(args, now).engine.descs[args.Id()].pinned == args.pin
  {}

  /** Forgetting a set of ids and removing their chunks keeps the agreement for the rest. */
  lemma {:induction false} ForgetAgrees(e: Engine, ids: set<string>)
    requires e.Valid() && Agrees(e) && ids <= e.descs.Keys
    ensures var e' := e.(descs := e.descs - ids, store := e.store.Remove(e.KeysOf(ids)));
      e'.Valid() && Agrees(e')
  {
    hide Engine.KeysOf, Descriptor.Keys, L.Lru.Valid, L.Drop;
    var ks := e.KeysOf(ids);
    var e' := e.(descs := e.descs - ids, store := e.store.Remove(ks));
    RemoveView(e.store, ks);
    RemoveStays(e.store, ks);
    forall k ensures k in e'.KeysOf(e'.descs.Keys) <==> k in e.KeysOf(e.descs.Keys) && k !in ks {
      KeysOfMember(e, e.descs.Keys, k);
      KeysOfMember(e, ids, k);
      KeysOfMember(e', e'.descs.Keys, k);
    }
    forall k ensures k in e'.KeysOf(PinnedIds(e')) <==> k in e.KeysOf(PinnedIds(e)) && k !in ks {
      KeysOfMember(e, PinnedIds(e), k);
      KeysOfMember(e, ids, k);
      KeysOfMember(e', PinnedIds(e'), k);
    }
    forall k | k in ks ensures k in e.KeysOf(e.descs.Keys) {
      KeysOfMember(e, e.descs.Keys, k);
      KeysOfMember(e, ids, k);
    }
  }

  lemma {:induction false} RemoveStays(s: Store, ks: set<ChunkKey>)
    ensures s.NeverDrops() ==> s.Remove(ks).NeverDrops()
    ensures s.cold.None? && ks <= s.View().Keys ==> s.Remove(ks).hot.pinned == s.hot.pinned - ks
    ensures s.Remove(ks).cold.None? <==> s.cold.None?
  {
    if s.cold.None? && ks <= s.View().Keys {
      assert s.View() == s.hot.data;
      assert ks * s.hot.data.Keys == ks;
    }
  }

  lemma {:induction false} DeleteAgrees(e: Engine, cid: string)
    requires e.Valid() && Agrees(e)
    ensures e.Delete(cid).Valid() && Agrees(e.Delete(cid))
  {
    if cid in e.descs {
      forall k ensures k in e.KeysOf({cid}) <==> k in e.descs[cid].Keys() {
        KeysOfMember(e, {cid}, k);
        DescriptorKeys(e.descs[cid]);
      }
      assert e.KeysOf({cid}) == e.descs[cid].Keys();
      ForgetAgrees(e, {cid});
    }
  }

  /** Setting a cache's flag and pinning or unpinning its chunks together keeps the agreement. */
  lemma {:induction false} FlagAgrees(e: Engine, cid: string, flag: bool)
    requires e.Valid() && Agrees(e) && cid in e.descs
    ensures var ks := e.descs[cid].Keys();
      var e' := e.(descs := e.descs[cid := e.descs[cid].(pinned := flag)],
                   store := if flag then e.store.Pin(ks) else e.store.Unpin(ks));
      e'.Valid() && Agrees(e')
  {
    hide Engine.KeysOf, L.Lru.Valid;
    var ks := e.descs[cid].Keys();
    var e' := e.(descs := e.descs[cid := e.descs[cid].(pinned := flag)],
                 store := if flag then e.store.Pin(ks) else e.store.Unpin(ks));
    PinView(e.store, ks);
    forall k ensures k in e'.KeysOf(e'.descs.Keys) <==> k in e.KeysOf(e.descs.Keys) {
      KeysOfMember(e, e.descs.Keys, k);
      KeysOfMember(e', e'.descs.Keys, k);
    }
    forall k ensures k in e'.KeysOf(PinnedIds(e')) <==>
      if k in ks then flag else k in e.KeysOf(PinnedIds(e))
    {
      KeysOfMember(e, PinnedIds(e), k);
      KeysOfMember(e', PinnedIds(e'), k);
      DescriptorKeys(e.descs[cid]);
    }
    forall k | k in ks ensures k in e.store.View() {
      KeysOfMember(e, e.descs.Keys, k);
      DescriptorKeys(e.descs[cid]);
    }
    if e.store.cold.None? {
      assert e.store.View() == e.store.hot.data;
      assert ks * e.store.hot.data.Keys == ks;
    }
  }

  lemma {:induction false} RetimeAgrees(e: Engine, cid: string, expiresAt: Option<Time>)
    requires e.Valid() && Agrees(e) && cid in e.descs
    ensures var e' := e.(descs := e.descs[cid := e.descs[cid].(expiresAt := expiresAt)]);
      e'.Valid() && Agrees(e')
  {
    hide Engine.KeysOf, L.Lru.Valid, Store.View;
    var e' := e.(descs := e.descs[cid := e.descs[cid].(expiresAt := expiresAt)]);
    forall k ensures k in e'.KeysOf(e'.descs.Keys) <==> k in e.KeysOf(e.descs.Keys) {
      KeysOfMember(e, e.descs.Keys, k);
      KeysOfMember(e', e'.descs.Keys, k);
    }
    forall k ensures k in e'.KeysOf(PinnedIds(e')) <==> k in e.KeysOf(PinnedIds(e)) {
      KeysOfMember(e, PinnedIds(e), k);
      KeysOfMember(e', PinnedIds(e'), k);
    }
  }

  lemma {:induction false} LoadAgrees(e: Engine, cid: string, worker: int, count: int)
    requires e.Valid() && Agrees(e)
    ensures var e' := e.(store := GetRange(e.store, cid, worker, 0, count).store);
      e'.Valid() && Agrees(e')
  {
    hide Store.View, Store.Valid, GetRange;
    GetRangeView(e.store, cid, worker, 0, count);
    GetRangePins(e.store, cid, worker, 0, count);
  }

  lemma {:induction false} StepAgrees(e: Engine, op: Op, now: Time)
    requires e.Valid() && Agrees(e) && Orderly(e, op, now)
    ensures Step(e, op, now).Valid() && Agrees(Step(e, op, now))
  {
    hide Agrees, Engine.Valid, Engine.Register, Engine.Delete, Engine.KeysOf, Descriptor.Keys, MatchedChunks,
      Store.Pin, Store.Unpin, Store.Remove, GetRange, Descriptor.ExpiredAt;
    match op
    case DoRegister(args) =>
      RegisterFailsExactly(e, args, now);
      if e.Register(args, now).result.Ok? {
        RegisterAgrees(e, args, now);
      }
    case DoLoad(c, numChunks, worker) =>
      DeleteAgrees(e, c);
      forall count {
        LoadAgrees(e, c, worker, count);
      }
    case DoExtendTtl(c, ttl) =>
      DeleteAgrees(e, c);
      if c in e.descs {
        RetimeAgrees(e, c, Some(now + ttl));
      }
    case DoPin(c) =>
      DeleteAgrees(e, c);
      if c in e.descs {
        FlagAgrees(e, c, true);
      }
    case DoUnpin(c) =>
      DeleteAgrees(e, c);
      if c in e.descs {
        FlagAgrees(e, c, false);
      }
    case DoSweep => ForgetAgrees(e, e.ExpiredIds(now));
    case DoLookup(c, _) => DeleteAgrees(e, c);
    case DoGet(c) => DeleteAgrees(e, c);
    case DoDelete(c) => DeleteAgrees(e, c);
  }

  /**
   * Descriptors and store agree. From an engine whose store holds nothing, over a store that
   * never drops, every run of registrations under new ids that succeed, of registrations refused for
   * their chunk counts, and of any loads, lookups, pins, unpins, extensions, deletions and sweeps
   * keeps the store's keys exactly the chunks of the current descriptors, and on a CPU store the
   * pin set exactly the chunks of pinned ones.
   */
  lemma {:induction false} DescriptorsAgreeWithStore(e: Engine, run: seq<Timed>)
    requires e.Valid() && e.store.NeverDrops() && e.descs == map[]
    requires e.store.View() == map[] && e.store.hot.pinned == {}
    requires forall n :: 0 <= n < |run| ==> Orderly(After(e, run[..n]), run[n].op, run[n].now)
    ensures Agrees(After(e, run))
  {
    hide Agrees, Step, Orderly, Engine.Valid, Store.NeverDrops, Store.View;
    if run == [] {
      EmptyAgrees(e);
    } else {
      var past, last := run[..|run| - 1], run[|run| - 1];
      forall n | 0 <= n < |past| ensures past[..n] == run[..n] && past[n] == run[n] {}
      DescriptorsAgreeWithStore(e, past);
      StepAgrees(After(e, past), last.op, last.now);
    }
  }

  lemma {:induction false} EmptyAgrees(e: Engine)
    requires e.Valid() && e.store.NeverDrops() && e.descs == map[]
    requires e.store.View() == map[] && e.store.hot.pinned == {}
    ensures Agrees(e)
  {}

  /**
   * Deleting leaves no orphan and touches no other id: afterwards readers see none of the id's
   * chunks, every other id's chunks as before, and every other descriptor.
   */
  lemma {:induction false} DeleteLeavesNoOrphan(e: Engine, cid: string)
    requires e.Valid() && Agrees(e)
    ensures var e' := e.Delete(cid);
      && (forall k :: k in e'.store.View() ==> k.cacheId != cid)
      && (forall k: ChunkKey :: k.cacheId != cid ==>
            (k in e'.store.View() <==> k in e.store.View()) &&
            (k in e.store.View() ==> e'.store.View()[k] == e.store.View()[k]))
      && e'.descs == e.descs - {cid}
  {
    hide Store.View, Store.Remove, Engine.KeysOf, Descriptor.Keys;
    forall k | k in e.store.View() && k.cacheId == cid ensures cid in e.descs && k in e.descs[cid].Keys() {
      KeysOfMember(e, e.descs.Keys, k);
    }
    if cid in e.descs {
      DescriptorKeys(e.descs[cid]);
      RemoveView(e.store, e.descs[cid].Keys());
    }
  }

  /** Over an agreeing engine a load never finds a registered worker's chunk missing. */
  lemma {:induction false} AgreedLoadsComplete(e: Engine, cid: string, numChunks: Option<int>, worker: int, now: Time)
    requires e.Valid() && Agrees(e)
    requires cid in e.descs && !e.descs[cid].ExpiredAt(now) && worker in e.descs[cid].workerIds
    ensures var out := e.Load(cid, numChunks, worker, now).result;
      && (out.Ok? || (out == Err(StorageFull) && e.store.cold.Some?))
  {
    hide Store.View, Store.Valid, GetRange, Engine.KeysOf, Descriptor.Keys;
    var d := e.descs[cid];
    DescriptorKeys(d);
    forall i | 0 <= i < d.NumChunks() ensures ChunkKey(cid, i, worker) in e.store.View() {
      KeysOfMember(e, e.descs.Keys, ChunkKey(cid, i, worker));
    }
    var count := if numChunks.None? then d.NumChunks() else Min(numChunks.value, d.NumChunks());
    GetRangeFinds(e.store, cid, worker, 0, count);
  }

  lemma {:induction false} GetRangeFinds(s: Store, cid: string, worker: int, idx: nat, count: int)
    requires s.Valid()
    requires forall i :: idx <= i < count ==> ChunkKey(cid, i, worker) in s.View()
    ensures var r := GetRange(s, cid, worker, idx, count).result;
      r.Ok? || (r == Err(StorageFull) && s.cold.Some?)
    decreases count - idx
  {
    hide Store.Get, Store.Valid, Store.View;
    if idx < count {
      GetView(s, ChunkKey(cid, idx, worker));
      if s.Get(ChunkKey(cid, idx, worker)).result.Hit? {
        GetRangeFinds(s.Get(ChunkKey(cid, idx, worker)).store, cid, worker, idx + 1, count);
      }
    }
  }

  // ---- lifetimes --------------------------------------------------------------------------

  /** A registration lives for its own ttl, or the engine's default, or for ever; then it is gone. */
  lemma {:induction false} RegisteredLifetime(e: Engine, args: RegisterArgs, at: Time, now: Time)
    requires e.Valid() && e.Register(args, at).result.Ok?
    ensures var life := if args.ttl.Some? then args.ttl else e.defaultTtl;
      var e' := e.Register(args, at).engine;
      && (e'.Live(args.Id(), now).result.Ok? <==> life.None? || now < at + life.value)
      && (!e'.Live(args.Id(), now).result.Ok? ==> args.Id() !in e'.Live(args.Id(), now).engine.descs)
  {
    hide PutAll, Entries, Chunks;
  }

  /** Extending a live cache replaces its lifetime, whatever it was, by one that starts now. */
  lemma {:induction false} ExtendedLifetime(e: Engine, cid: string, ttl: Time, at: Time, now: Time)
    requires e.Valid() && e.ExtendTtl(cid, ttl, at).result.Ok?
    ensures e.ExtendTtl(cid, ttl, at).engine.Live(cid, now).result.Ok? <==> now < at + ttl
    ensures forall c :: c != cid && c in e.descs ==>
      c in e.ExtendTtl(cid, ttl, at).engine.descs && e.ExtendTtl(cid, ttl, at).engine.descs[c] == e.descs[c]
  {
    hide Descriptor.Keys, Store.Remove;
  }
}
