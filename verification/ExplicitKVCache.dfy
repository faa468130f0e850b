/**
 * The engine as it runs (src/llmcache/engine.py): a descriptor table updated in place over a
 * storage backend. Every method is proved to leave and return what the engine value computes.
 */
module KvCache {
  import opened Wrappers
  import opened Payloads
  import opened Types
  import opened Tiers
  import opened E = Engine
  import opened Backends

  class ExplicitKVCache {
    const store: StoreRef
    const chunkSize: nat
    const defaultTtl: Option<Time>
    var descriptors: map<string, Descriptor>

    /** The chunk size must be positive; the source raises ValueError otherwise. */
    constructor (store: StoreRef, chunkSize: nat, defaultTtl: Option<Time>)
      requires chunkSize > 0 && store.Valid()
      ensures Valid() && this.store == store
      ensures Value() == E.Engine(store.Value(), map[], chunkSize, defaultTtl)
    {
      this.store, this.chunkSize, this.defaultTtl := store, chunkSize, defaultTtl;
      descriptors := map[];
      new;
      store.ValueValid();
    }

    function Repr(): set<object> {
      {this} + store.Repr()
    }

    ghost function Value(): Engine
      reads Repr()
    {
      E.Engine(store.Value(), descriptors, chunkSize, defaultTtl)
    }

    ghost predicate Valid()
      reads Repr()
    {
      store.Valid() && Value().Valid()
    }

    method Register(args: RegisterArgs, now: Time) returns (r: Result<Descriptor, Error>)
      requires Valid()
      modifies Repr()
      ensures Valid()
      ensures old(Value()).Valid() && Value() == old(Value()).Register(args, now).engine
      ensures r == old(Value()).Register(args, now).result
    {
      hide Store.Valid, PutAll, Entries, LayersFrom;
      StepValid(Value(), DoRegister(args), now);
      var tokenChunks := Chunks(args.tokens, chunkSize);
      var byWorker := args.payloads.Normalize();
      for i := 0 to |byWorker|
        invariant forall j :: 0 <= j < i ==> |byWorker[j].payloads| == |tokenChunks|
      {
        if |byWorker[i].payloads| != |tokenChunks| {
          return Err(BadChunkCount);
        }
      }
      var cid := args.Id();
      var numLayers, ok := PutShards(store, cid, byWorker, args.pin);
      store.ValueValid();
      if !ok {
        return Err(StorageFull);
      }
      var d := BuildDescriptor(
        chunkSize, defaultTtl, cid, args.tokens, numLayers, Workers(byWorker), args.ttl, args.pin, now);
      descriptors := descriptors[cid := d];
      return Ok(d);
    }

    method PutChunk(cid: string, idx: int, payload: Payload, worker: int, pin: bool) returns (r: Result<(), Error>)
      requires Valid()
      modifies Repr()
      ensures Valid()
      ensures old(Value()).Valid() && Value() == old(Value()).PutChunk(cid, idx, payload, worker, pin).engine
      ensures r == old(Value()).PutChunk(cid, idx, payload, worker, pin).result
    {
      hide Store.Put, Store.Valid;
      var ok := store.Put(ChunkKey(cid, idx, worker), payload, pin);
      store.ValueValid();
      r := if ok then Ok(()) else Err(StorageFull);
    }

    method Commit(
      cid: string, tokens: seq<Token>, numLayers: int, workers: seq<int>, ttl: Option<Time>, pin: bool, now: Time)
      returns (r: Result<Descriptor, Error>)
      requires Valid()
      modifies Repr()
      ensures Valid()
      ensures old(Value()).Valid()
      ensures Value() == old(Value()).Commit(cid, tokens, numLayers, workers, ttl, pin, now).engine
      ensures r == old(Value()).Commit(cid, tokens, numLayers, workers, ttl, pin, now).result
    {
      var d := BuildDescriptor(chunkSize, defaultTtl, cid, tokens, numLayers, workers, ttl, pin, now);
      descriptors := descriptors[cid := d];
      r := Ok(d);
    }

    method Delete(cid: string)
      requires Valid()
      modifies Repr()
      ensures Valid()
      ensures Value() == old(Value()).Delete(cid)
    {
      hide Store.Remove, Store.Valid, Descriptor.Keys;
      StepValid(Value(), DoDelete(cid), 0.0);
      if cid !in descriptors {
        return;
      }
      var d := descriptors[cid];
      descriptors := descriptors - {cid};
      RemoveChunks(store, d);
    }

    /** `_live_descriptor`. */
    method LiveDescriptor(cid: string, now: Time) returns (r: Result<Descriptor, Error>)
      requires Valid()
      modifies Repr()
      ensures Valid()
      ensures Value() == old(Value()).Live(cid, now).engine
      ensures r == old(Value()).Live(cid, now).result
    {
      if cid !in descriptors {
        return Err(NotFound);
      }
      var d := descriptors[cid];
      if d.IsExpired(None, now) {
        Delete(cid);
        return Err(Expired);
      }
      return Ok(d);
    }

    method Get(cid: string, now: Time) returns (r: Result<Descriptor, Error>)
      requires Valid()
      modifies Repr()
      ensures Valid()
      ensures Value() == old(Value()).Live(cid, now).engine
      ensures r == old(Value()).Live(cid, now).result
    {
      r := LiveDescriptor(cid, now);
    }

    method Exists(cid: string, now: Time) returns (found: bool)
      requires Valid()
      modifies Repr()
      ensures Valid()
      ensures Value() == old(Value()).Live(cid, now).engine
      ensures found <==> old(Value()).Live(cid, now).result.Ok?
    {
      var r := LiveDescriptor(cid, now);
      found := r.Ok?;
    }

    method Lookup(cid: string, request: Option<seq<Token>>, now: Time) returns (r: Result<LookupResult, Error>)
      requires Valid()
      modifies Repr()
      ensures Valid()
      ensures old(Value()).Valid() && Value() == old(Value()).Lookup(cid, request, now).engine
      ensures r == old(Value()).Lookup(cid, request, now).result
    {
      hide Store.Valid, Descriptor.Keys, E.Engine.Delete;
      var live := LiveDescriptor(cid, now);
      if live.Err? {
        return Err(live.error);
      }
      var d := live.value;
      var matched := d.NumChunks();
      if request.Some? {
        matched := MatchedChunkCount(request.value, d);
      }
      var reusable, full := matched * d.chunkSize, false;
      if matched == d.NumChunks() {
        reusable, full := d.numTokens, true;
      }
      return Ok(LookupResult(cid, reusable, matched, full));
    }

    method Load(cid: string, numChunks: Option<int>, worker: int, now: Time) returns (r: Result<seq<Payload>, Error>)
      requires Valid()
      modifies Repr()
      ensures Valid()
      ensures old(Value()).Valid() && Value() == old(Value()).Load(cid, numChunks, worker, now).engine
      ensures r == old(Value()).Load(cid, numChunks, worker, now).result
    {
      hide Store.Valid, GetRange, E.Engine.Delete;
      StepValid(Value(), DoLoad(cid, numChunks, worker), now);
      var live := LiveDescriptor(cid, now);
      if live.Err? {
        return Err(live.error);
      }
      var d := live.value;
      var count := if numChunks.None? then d.NumChunks() else Min(numChunks.value, d.NumChunks());
      r := GetChunks(store, cid, worker, count);
    }

    method ExtendTtl(cid: string, ttl: Time, now: Time) returns (r: Result<Descriptor, Error>)
      requires Valid()
      modifies Repr()
      ensures Valid()
      ensures Value() == old(Value()).ExtendTtl(cid, ttl, now).engine
      ensures r == old(Value()).ExtendTtl(cid, ttl, now).result
    {
      hide Store.Remove, Descriptor.Keys;
      r := LiveDescriptor(cid, now);
      if r.Ok? {
        var d := r.value.(expiresAt := Some(now + ttl));
        descriptors := descriptors[cid := d];
        r := Ok(d);
      }
    }

    method Pin(cid: string, now: Time) returns (r: Result<(), Error>)
      requires Valid()
      modifies Repr()
      ensures Valid()
      ensures Value() == old(Value()).PinCache(cid, now).engine
      ensures r == old(Value()).PinCache(cid, now).result
    {
      hide Store.Pin, Store.Valid, Descriptor.Keys, E.Engine.Delete;
      StepValid(Value(), DoPin(cid), now);
      var live := LiveDescriptor(cid, now);
      if live.Err? {
        return Err(live.error);
      }
      var d := live.value;
      descriptors := descriptors[cid := d.(pinned := true)];
      PinChunks(store, d);
      return Ok(());
    }

    method Unpin(cid: string, now: Time) returns (r: Result<(), Error>)
      requires Valid()
      modifies Repr()
      ensures Valid()
      ensures Value() == old(Value()).UnpinCache(cid, now).engine
      ensures r == old(Value()).UnpinCache(cid, now).result
    {
      hide Store.Unpin, Store.Valid, Descriptor.Keys, E.Engine.Delete;
      StepValid(Value(), DoUnpin(cid), now);
      var live := LiveDescriptor(cid, now);
      if live.Err? {
        return Err(live.error);
      }
      var d := live.value;
      descriptors := descriptors[cid := d.(pinned := false)];
      UnpinChunks(store, d);
      return Ok(());
    }

    /** Deletes every cache found expired, in whatever order the table lists them. */
    method SweepExpired(now: Time) returns (count: nat)
      requires Valid()
      modifies Repr()
      ensures Valid()
      ensures Value() == old(Value()).Sweep(now).engine
      ensures Ok(count) == old(Value()).Sweep(now).result
    {
      hide Store.Remove, Store.Valid, Descriptor.Keys;
      ghost var e0 := Value();
      StepValid(e0, DoSweep, now);
      var expired := set c | c in descriptors && descriptors[c].IsExpired(Some(now), now);
      assert expired == e0.ExpiredIds(now);
      count := |expired|;
      var left := expired;
      SweptNone(e0);
      assert expired - left == {};
      while left != {}
        invariant left <= expired && Valid()
        invariant Value() == Swept(e0, expired - left)
        decreases |left|
      {
        var c :| c in left;
        SweptOneMore(e0, expired - left, c);
        assert expired - left + {c} == expired - (left - {c});
        Delete(c);
        left := left - {c};
      }
      assert expired - {} == expired;
    }

    method List(now: Time) returns (caches: map<string, Descriptor>)
      requires Valid()
      modifies Repr()
      ensures Valid()
      ensures Value() == old(Value()).Sweep(now).engine
      ensures caches == Value().descs
    {
      var _ := SweepExpired(now);
      caches := descriptors;
    }
  }

  // ---- loops over a cache's chunks --------------------------------------------------------

  /** The keys visited when the loops stand at a worker position and a chunk index. */
  ghost predicate Walked(d: Descriptor, done: set<ChunkKey>, w: nat, idx: nat)
    requires w <= |d.workerIds|
  {
    forall k :: k in done <==>
      && k.cacheId == d.cacheId
      && (|| (k.workerId in d.workerIds[..w] && 0 <= k.chunkIndex < d.NumChunks())
          || (w < |d.workerIds| && k.workerId == d.workerIds[w] && 0 <= k.chunkIndex < idx))
  }

  lemma {:induction false} WalkedOneMore(d: Descriptor, done: set<ChunkKey>, w: nat, idx: nat)
    requires w < |d.workerIds| && Walked(d, done, w, idx) && idx < d.NumChunks()
    ensures Walked(d, done + {ChunkKey(d.cacheId, idx, d.workerIds[w])}, w, idx + 1)
  {}

  lemma {:induction false} WalkedWorker(d: Descriptor, done: set<ChunkKey>, w: nat)
    requires w < |d.workerIds| && Walked(d, done, w, d.NumChunks())
    ensures Walked(d, done, w + 1, 0)
  {
    assert d.workerIds[..w + 1] == d.workerIds[..w] + [d.workerIds[w]];
  }

  lemma {:induction false} WalkedAll(d: Descriptor, done: set<ChunkKey>)
    requires Walked(d, done, |d.workerIds|, 0)
    ensures done == d.Keys()
  {
    assert d.workerIds[..|d.workerIds|] == d.workerIds;
    forall k | k in done ensures k in d.Keys() {
      assert k == ChunkKey(d.cacheId, k.chunkIndex, k.workerId);
    }
  }

  method RemoveChunks(store: StoreRef, d: Descriptor)
    requires store.Valid()
    modifies store.Repr()
    ensures store.Valid()
    ensures store.Value() == old(store.Value()).Remove(d.Keys())
  {
    hide Store.Remove, Descriptor.Keys;
    ghost var s0 := store.Value();
    ghost var done: set<ChunkKey> := {};
    RemoveMore(s0, {}, {});
    for w := 0 to |d.workerIds|
      invariant store.Valid() && store.Value() == s0.Remove(done)
      invariant Walked(d, done, w, 0)
    {
      for idx := 0 to d.NumChunks()
        invariant store.Valid() && store.Value() == s0.Remove(done)
        invariant Walked(d, done, w, idx)
      {
        var key := ChunkKey(d.cacheId, idx, d.workerIds[w]);
        var _ := store.Remove(key);
        RemoveMore(s0, done, {key});
        WalkedOneMore(d, done, w, idx);
        done := done + {key};
      }
      WalkedWorker(d, done, w);
    }
    WalkedAll(d, done);
  }

  method PinChunks(store: StoreRef, d: Descriptor)
    requires store.Valid()
    modifies store.Repr()
    ensures store.Valid()
    ensures store.Value() == old(store.Value()).Pin(d.Keys())
  {
    hide Store.Pin, Descriptor.Keys;
    ghost var s0 := store.Value();
    ghost var done: set<ChunkKey> := {};
    PinMore(s0, {}, {});
    for w := 0 to |d.workerIds|
      invariant store.Valid() && store.Value() == s0.Pin(done)
      invariant Walked(d, done, w, 0)
    {
      for idx := 0 to d.NumChunks()
        invariant store.Valid() && store.Value() == s0.Pin(done)
        invariant Walked(d, done, w, idx)
      {
        var key := ChunkKey(d.cacheId, idx, d.workerIds[w]);
        store.Pin(key);
        PinMore(s0, done, {key});
        WalkedOneMore(d, done, w, idx);
        done := done + {key};
      }
      WalkedWorker(d, done, w);
    }
    WalkedAll(d, done);
  }

  method UnpinChunks(store: StoreRef, d: Descriptor)
    requires store.Valid()
    modifies store.Repr()
    ensures store.Valid()
    ensures store.Value() == old(store.Value()).Unpin(d.Keys())
  {
    hide Store.Unpin, Descriptor.Keys;
    ghost var s0 := store.Value();
    ghost var done: set<ChunkKey> := {};
    PinMore(s0, {}, {});
    for w := 0 to |d.workerIds|
      invariant store.Valid() && store.Value() == s0.Unpin(done)
      invariant Walked(d, done, w, 0)
    {
      for idx := 0 to d.NumChunks()
        invariant store.Valid() && store.Value() == s0.Unpin(done)
        invariant Walked(d, done, w, idx)
      {
        var key := ChunkKey(d.cacheId, idx, d.workerIds[w]);
        store.Unpin(key);
        PinMore(s0, done, {key});
        WalkedOneMore(d, done, w, idx);
        done := done + {key};
      }
      WalkedWorker(d, done, w);
    }
    WalkedAll(d, done);
  }

  // ---- the puts of a registration ---------------------------------------------------------

  /** The nested loops of `register`; the layer count is the largest met. */
  method PutShards(store: StoreRef, cid: string, byWorker: seq<Shard>, pin: bool) returns (numLayers: int, ok: bool)
    requires store.Valid()
    modifies store.Repr()
    ensures store.Valid() && old(store.Value()).Valid()
    ensures store.Value() == PutAll(old(store.Value()), Entries(cid, byWorker), pin).store
    ensures ok == PutAll(old(store.Value()), Entries(cid, byWorker), pin).ok
    ensures ok ==> numLayers == LayersFrom(0, Entries(cid, byWorker))
  {
    hide Store.Put, Store.Valid, PutAll, LayersFrom;
    store.ValueValid();
    numLayers := 0;
    ghost var all := PutAll(store.Value(), Entries(cid, byWorker), pin);
    for w := 0 to |byWorker|
      invariant store.Valid() && store.Value().Valid()
      invariant PutAll(store.Value(), Entries(cid, byWorker[w..]), pin) == all
      invariant LayersFrom(numLayers, Entries(cid, byWorker[w..])) == LayersFrom(0, Entries(cid, byWorker))
    {
      assert byWorker[w..][1..] == byWorker[w + 1..];
      ghost var later := Entries(cid, byWorker[w + 1..]);
      numLayers, ok := PutShard(store, cid, byWorker[w], numLayers, later, pin);
      store.ValueValid();
      if !ok {
        return;
      }
    }
    PutNothing(store.Value(), numLayers, pin);
    ok := true;
  }

  lemma {:induction false} PutNothing(s: Store, layers: int, pin: bool)
    requires s.Valid()
    ensures PutAll(s, [], pin) == Stored(s, true) && LayersFrom(layers, []) == layers
  {}

  /** One worker's puts; `later` stands for the puts still to come. */
  method PutShard(
    store: StoreRef, cid: string, shard: Shard, layers: int, ghost later: seq<Entry>, pin: bool)
    returns (numLayers: int, ok: bool)
    requires store.Valid()
    modifies store.Repr()
    ensures store.Valid() && old(store.Value()).Valid() && store.Value().Valid()
    ensures var all := PutAll(old(store.Value()), ShardEntries(cid, shard) + later, pin);
      if ok then all == PutAll(store.Value(), later, pin) else all == Stored(store.Value(), false)
    ensures ok ==> LayersFrom(layers, ShardEntries(cid, shard) + later) == LayersFrom(numLayers, later)
  {
    hide Store.Put, Store.Valid;
    store.ValueValid();
    numLayers := layers;
    ghost var es := ShardEntries(cid, shard);
    ghost var all := PutAll(store.Value(), es + later, pin);
    for idx := 0 to |shard.payloads|
      invariant store.Valid() && store.Value().Valid()
      invariant PutAll(store.Value(), es[idx..] + later, pin) == all
      invariant LayersFrom(numLayers, es[idx..] + later) == LayersFrom(layers, es + later)
    {
      var payload := shard.payloads[idx];
      assert (es[idx..] + later)[0] == Entry(ChunkKey(cid, idx, shard.worker), payload);
      assert (es[idx..] + later)[1..] == es[idx + 1..] + later;
      numLayers := if payload.numLayers > numLayers then payload.numLayers else numLayers;
      ok := store.Put(ChunkKey(cid, idx, shard.worker), payload, pin);
      store.ValueValid();
      if !ok {
        return;
      }
    }
    assert es[|shard.payloads|..] + later == later;
    ok := true;
  }

  // ---- the gets of a load -----------------------------------------------------------------

  /** The loop of `load`. */
  method GetChunks(store: StoreRef, cid: string, worker: int, count: int) returns (r: Result<seq<Payload>, Error>)
    requires store.Valid()
    modifies store.Repr()
    ensures store.Valid() && old(store.Value()).Valid()
    ensures store.Value() == GetRange(old(store.Value()), cid, worker, 0, count).store
    ensures r == GetRange(old(store.Value()), cid, worker, 0, count).result
  {
    hide Store.Valid, Store.Get, GetRange, Continues;
    store.ValueValid();
    ghost var all := GetRange(store.Value(), cid, worker, 0, count);
    var out: seq<Payload> := [];
    var idx := 0;
    ContinuesFromStart(all);
    while idx < count
      invariant 0 <= idx && store.Valid() && store.Value().Valid()
      invariant Continues(all, out, GetRange(store.Value(), cid, worker, idx, count))
      decreases count - idx
    {
      GetRangeStep(all, out, store.Value(), cid, worker, idx, count);
      var payload := store.Get(ChunkKey(cid, idx, worker));
      store.ValueValid();
      match payload
      case Miss => return Err(Mismatch);
      case Full => return Err(StorageFull);
      case Hit(obj) =>
        out := out + [obj];
        idx := idx + 1;
    }
    GetRangeEnd(all, out, store.Value(), cid, worker, idx, count);
    return Ok(out);
  }

  /** The whole load, seen from a point where some objects are already out. */
  ghost predicate Continues(all: Loaded, out: seq<Payload>, rest: Loaded) {
    && all.store == rest.store
    && all.result == match rest.result
      case Ok(objs) => Ok(out + objs)
      case Err(e) => Err(e)
  }

  lemma {:induction false} ContinuesFromStart(all: Loaded)
    ensures Continues(all, [], all)
  {
    if all.result.Ok? {
      assert [] + all.result.value == all.result.value;
    }
  }

  /** One get: an object extends what is out, a miss or a failed promotion ends the load. */
  lemma {:induction false} GetRangeStep(
    all: Loaded, out: seq<Payload>, s: Store, cid: string, worker: int, idx: nat, count: int)
    requires s.Valid() && idx < count && Continues(all, out, GetRange(s, cid, worker, idx, count))
    ensures var g := s.Get(ChunkKey(cid, idx, worker));
      g.store.Valid() && match g.result
        case Miss => all == Loaded(g.store, Err(Mismatch))
        case Full => all == Loaded(g.store, Err(StorageFull))
        case Hit(obj) => Continues(all, out + [obj], GetRange(g.store, cid, worker, idx + 1, count))
  {
    hide Store.Valid, Store.Get;
    var g := s.Get(ChunkKey(cid, idx, worker));
    GetView(s, ChunkKey(cid, idx, worker));
    if g.result.Hit? {
      var rest := GetRange(g.store, cid, worker, idx + 1, count).result;
      if rest.Ok? {
        assert out + ([g.result.obj] + rest.value) == out + [g.result.obj] + rest.value;
      }
    }
  }

  lemma {:induction false} GetRangeEnd(
    all: Loaded, out: seq<Payload>, s: Store, cid: string, worker: int, idx: nat, count: int)
    requires s.Valid() && idx >= count && Continues(all, out, GetRange(s, cid, worker, idx, count))
    ensures all == Loaded(s, Ok(out))
  {
    assert out + [] == out;
  }

  // ---- the sweep --------------------------------------------------------------------------

  ghost function Swept(e: Engine, ids: set<string>): Engine
    requires ids <= e.descs.Keys
  {
    e.(descs := e.descs - ids, store := e.store.Remove(e.KeysOf(ids)))
  }

  lemma {:induction false} SweptNone(e: Engine)
    ensures Swept(e, {}) == e
  {
    RemoveMore(e.store, {}, {});
    assert e.KeysOf({}) == {};
    assert e.descs - {} == e.descs;
  }

  lemma {:induction false} SweptOneMore(e: Engine, ids: set<string>, c: string)
    requires ids + {c} <= e.descs.Keys && c !in ids
    ensures Swept(e, ids).Delete(c) == Swept(e, ids + {c})
  {
    RemoveMore(e.store, e.KeysOf(ids), e.descs[c].Keys());
    assert e.KeysOf(ids) + e.descs[c].Keys() == e.KeysOf(ids + {c});
    assert e.descs - ids - {c} == e.descs - (ids + {c});
  }
}
