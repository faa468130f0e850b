/**
 * When each operation of the engine and the connectors succeeds, with what error it fails, and
 * exactly what it leaves (src/llmcache/engine.py, connectors/sglang.py, vllm.py, transfer.py).
 */
module Outcomes {
  import opened Wrappers
  import opened Payloads
  import opened Arithmetic
  import opened Types
  import L = Lru
  import opened Tiers
  import opened LatePins
  import opened Engine
  import opened Reuse
  import opened Lifecycle
  import opened Transfer
  import opened Connectors
  import opened EndToEnd
  import opened Limits

  // ---- live caches ------------------------------------------------------------------------

  /** Described, and its expiry, if it has one, still ahead. */
  predicate Alive(e: Engine, cid: string, now: Time) {
    cid in e.descs && (e.descs[cid].expiresAt.None? || now < e.descs[cid].expiresAt.value)
  }

  /** The error of an id that is not alive. */
  function Dismissal(e: Engine, cid: string): Error {
    if cid in e.descs then Expired else NotFound
  }

  /** Chunk i of a worker of a described cache. */
  predicate Described(e: Engine, cid: string, k: ChunkKey) {
    && cid in e.descs && k.cacheId == cid
    && k.workerId in e.descs[cid].workerIds && 0 <= k.chunkIndex < e.descs[cid].NumChunks()
  }

  /** `get` and `exists`: the descriptor exactly when alive; an expired cache is deleted at once. */
  lemma {:induction false} LiveExactly(e: Engine, cid: string, now: Time)
    requires e.Valid()
    ensures var r := e.Live(cid, now);
      && (r.result.Ok? <==> Alive(e, cid, now))
      && (Alive(e, cid, now) ==> r == Outcome(e, Ok(e.descs[cid])))
      && (!Alive(e, cid, now) ==> r == Outcome(e.Delete(cid), Err(Dismissal(e, cid))))
  {}

  /** A deletion, for any engine, takes out the descriptor and the chunks it describes, nothing else. */
  lemma {:induction false} DeleteForgetsExactly(e: Engine, cid: string)
    requires e.Valid()
    ensures var e' := e.Delete(cid);
      && e'.descs == e.descs - {cid}
      && (forall k :: k in e'.store.View() <==> k in e.store.View() && !Described(e, cid, k))
      && (forall k :: k in e'.store.View() ==> e'.store.View()[k] == e.store.View()[k])
      && (forall k :: k in e'.store.hot.pinned <==>
            k in e.store.hot.pinned && !(Described(e, cid, k) && k in e.store.hot.data))
      && (cid !in e.descs ==> e' == e)
  {
    hide Store.View, Descriptor.Keys, L.Lru.Valid;
    if cid in e.descs {
      DescriptorKeys(e.descs[cid]);
      RemoveView(e.store, e.descs[cid].Keys());
    } else {
      assert e.descs - {cid} == e.descs;
    }
  }

  /** A sweep, for any engine, takes out of the store the chunks of the expired caches, nothing else. */
  lemma {:induction false} SweepRemovesExactly(e: Engine, now: Time)
    requires e.Valid()
    ensures var v, v' := e.store.View(), e.Sweep(now).engine.store.View();
      && (forall k :: k in v' <==> k in v && (Described(e, k.cacheId, k) ==> Alive(e, k.cacheId, now)))
      && (forall k :: k in v' ==> v'[k] == v[k])
  {
    hide Store.View, Store.Remove, Descriptor.Keys, Engine.KeysOf;
    var ids := e.ExpiredIds(now);
    RemoveView(e.store, e.KeysOf(ids));
    forall k ensures k in e.KeysOf(ids) <==> Described(e, k.cacheId, k) && !Alive(e, k.cacheId, now) {
      KeysOfMember(e, ids, k);
      if k.cacheId in e.descs {
        DescriptorKeys(e.descs[k.cacheId]);
      }
    }
  }

  /** An extension succeeds exactly on a live cache, whatever its lifetime, and changes that alone. */
  lemma {:induction false} ExtendsExactly(e: Engine, cid: string, ttl: Time, now: Time)
    requires e.Valid()
    ensures var r := e.ExtendTtl(cid, ttl, now);
      && (!Alive(e, cid, now) ==> r == Outcome(e.Delete(cid), Err(Dismissal(e, cid))))
      && (Alive(e, cid, now) ==>
            var d := e.descs[cid].(expiresAt := Some(now + ttl));
            r == Outcome(e.(descs := e.descs[cid := d]), Ok(d)))
  {
    LiveExactly(e, cid, now);
  }

  // ---- pinning a cache --------------------------------------------------------------------

  /**
   * A pin succeeds exactly on a live cache. It sets the flag, pins in hot exactly those of its
   * chunks that are there, takes the expiry off its copies in cold, and changes nothing readers see.
   */
  lemma {:induction false} PinsExactly(e: Engine, cid: string, now: Time)
    requires e.Valid()
    ensures var r := e.PinCache(cid, now);
      && r.engine.Valid()
      && (!Alive(e, cid, now) ==> r == Outcome(e.Delete(cid), Err(Dismissal(e, cid))))
      && (Alive(e, cid, now) ==>
            && r.result == Ok(())
            && r.engine.descs == e.descs[cid := e.descs[cid].(pinned := true)]
            && r.engine.store.View() == e.store.View() && r.engine.store.hot.data == e.store.hot.data
            && (forall k :: k in r.engine.store.hot.pinned <==>
                  k in e.store.hot.pinned || (Described(e, cid, k) && k in e.store.hot.data))
            && (forall k :: Described(e, cid, k) && e.store.cold.Some? && k in e.store.cold.value.objects ==>
                  r.engine.store.cold.Some? && r.engine.store.cold.value.Persists(k)))
  {
    hide Descriptor.Keys, Engine.Delete, Store.View, L.Lru.Valid;
    StepValid(e, DoPin(cid), now);
    LiveExactly(e, cid, now);
    if Alive(e, cid, now) {
      PinView(e.store, e.descs[cid].Keys());
      DescriptorKeys(e.descs[cid]);
    }
  }

  /** An unpin succeeds exactly on a live cache, and leaves its chunks as any unpinned ones. */
  lemma {:induction false} UnpinsExactly(e: Engine, cid: string, now: Time)
    requires e.Valid()
    ensures var r := e.UnpinCache(cid, now);
      && r.engine.Valid()
      && (!Alive(e, cid, now) ==> r == Outcome(e.Delete(cid), Err(Dismissal(e, cid))))
      && (Alive(e, cid, now) ==>
            && r.result == Ok(())
            && r.engine.descs == e.descs[cid := e.descs[cid].(pinned := false)]
            && r.engine.store.View() == e.store.View() && r.engine.store.hot.data == e.store.hot.data
            && (forall k :: k in r.engine.store.hot.pinned <==> k in e.store.hot.pinned && !Described(e, cid, k))
            && (forall k :: Described(e, cid, k) && e.store.cold.Some? && k in e.store.cold.value.objects ==>
                  && r.engine.store.cold.Some?
                  && (e.store.cold.value.keyTtl.Some? ==> !r.engine.store.cold.value.Persists(k))))
  {
    hide Descriptor.Keys, Engine.Delete, Store.View, L.Lru.Valid;
    StepValid(e, DoUnpin(cid), now);
    LiveExactly(e, cid, now);
    if Alive(e, cid, now) {
      PinView(e.store, e.descs[cid].Keys());
      DescriptorKeys(e.descs[cid]);
    }
  }

  /**
   * Pinning a live cache whose chunks are all in hot is as good as registering it pinned: after any
   * run before it expires that does not write, unpin, delete or extend it, failures included, a load
   * for a registered worker returns exactly the recorded payloads.
   */
  lemma {:induction false} PinnedLaterStaysResident(
    e: Engine, cid: string, r: Record, at: Time, run: seq<Timed>, worker: int, now: Time)
    requires e.Valid() && Alive(e, cid, at) && Faithful(e, cid, r) && worker in r.workers
    requires forall k :: k in r.table ==> k in e.store.hot.data
    requires !ExpiredBy(e.descs[cid].expiresAt, now)
    requires forall n :: 0 <= n < |run| ==>
      !Disturbs(run[n].op, cid) && !ExpiredBy(e.descs[cid].expiresAt, run[n].now)
    ensures e.PinCache(cid, at).engine.Valid()
    ensures var out := After(e.PinCache(cid, at).engine, run).Load(cid, None, worker, now).result;
      && out.Ok? && |out.value| == |Chunks(r.tokens, e.chunkSize)|
      && forall i :: 0 <= i < |out.value| ==>
           ChunkKey(cid, i, worker) in r.table && out.value[i] == r.table[ChunkKey(cid, i, worker)]
  {
    hide Engine.PinCache, Engine.Load, Chunks, Held, Faithful;
    PinsExactly(e, cid, at);
    PinKeepsSize(e, cid, at);
    var e' := e.PinCache(cid, at).engine;
    PinHolds(e, cid, r, at);
    HeldForever(e', run, cid, r, e.descs[cid].expiresAt);
    HeldLoads(After(e', run), cid, r, e.descs[cid].expiresAt, worker, now);
  }

  lemma {:induction false} PinKeepsSize(e: Engine, cid: string, now: Time)
    requires e.Valid()
    ensures e.PinCache(cid, now).engine.chunkSize == e.chunkSize
  {
    StepValid(e, DoPin(cid), now);
  }

  lemma {:induction false} PinHolds(e: Engine, cid: string, r: Record, at: Time)
    requires e.Valid() && Alive(e, cid, at) && Faithful(e, cid, r)
    requires forall k :: k in r.table ==> k in e.store.hot.data
    ensures e.PinCache(cid, at).engine.Valid()
    ensures Held(e.PinCache(cid, at).engine, cid, r, e.descs[cid].expiresAt)
  {
    hide Engine.PinCache, Chunks;
    PinsExactly(e, cid, at);
    PinKeepsSize(e, cid, at);
    var e', v := e.PinCache(cid, at).engine, Restrict(e.store.View(), r.table.Keys);
    ChunksPartition(r.tokens, e.chunkSize);
    forall k | k in r.table ensures HoldsIn(e'.store, k, r.table[k]) {
      HotIsSeen(e.store, k);
      assert k in v;
      assert Described(e, cid, k);
    }
  }

  /** A chunk that is only in cold stays readable exactly where LatePins says a late pin lasts. */
  lemma {:induction false} PinKeepsExactly(e: Engine, cid: string, now: Time, k: ChunkKey)
    requires e.Valid() && Alive(e, cid, now) && e.store.cold.Some? && Described(e, cid, k) && k in e.store.View()
    ensures e.PinCache(cid, now).engine.store.Valid()
    ensures KeptReadable(e.PinCache(cid, now).engine.store, k) <==> PinLasts(e.store, k)
  {
    hide Descriptor.Keys, Engine.Delete, Store.View, L.Lru.Valid, KeptReadable, PinLasts, Store.Pin;
    LiveExactly(e, cid, now);
    DescriptorKeys(e.descs[cid]);
    LatePinKeepsExactly(e.store, e.descs[cid].Keys(), k);
  }

  // ---- publishing -------------------------------------------------------------------------

  /** What a commit publishes, and that it changes nothing else and cannot fail. */
  lemma {:induction false} CommitsExactly(
    e: Engine, cid: string, tokens: seq<Token>, numLayers: int, workers: seq<int>,
    ttl: Option<Time>, pin: bool, now: Time)
    requires e.Valid()
    ensures var out := e.Commit(cid, tokens, numLayers, workers, ttl, pin, now);
      && out.result.Ok?
      && var d := out.result.value;
      && out.engine == e.(descs := e.descs[cid := d])
      && d.cacheId == cid && d.chunkSize == e.chunkSize
      && d.numTokens == |tokens| && d.NumChunks() == CeilDiv(|tokens|, e.chunkSize)
      && d.fingerprints == FingerprintsOf(Chunks(tokens, e.chunkSize))
      && Ascending(d.workerIds) && multiset(d.workerIds) == multiset(workers)
      && d.numLayers == numLayers && d.createdAt == now && d.pinned == pin
      && d.expiresAt == Deadline(e, ttl, now)
  {
    hide Chunks, CeilDiv, Ascending, Sorted;
    ChunksPartition(tokens, e.chunkSize);
    SortedSorts(workers);
  }

  /** A committed cache, pinned or not, is alive until its own lifetime or the default has passed. */
  lemma {:induction false} CommittedLifetime(
    e: Engine, cid: string, tokens: seq<Token>, numLayers: int, workers: seq<int>,
    ttl: Option<Time>, pin: bool, at: Time, now: Time)
    requires e.Valid()
    ensures var life := if ttl.Some? then ttl else e.defaultTtl;
      Alive(e.Commit(cid, tokens, numLayers, workers, ttl, pin, at).engine, cid, now) <==>
        life.None? || now < at + life.value
  {
    CommitsExactly(e, cid, tokens, numLayers, workers, ttl, pin, at);
  }

  /** A chunk put goes in exactly when it fits beside what is pinned, and touches no descriptor. */
  lemma {:induction false} PutsChunkExactly(e: Engine, cid: string, idx: int, payload: Payload, worker: int, pin: bool)
    requires e.Valid()
    ensures var r, k := e.PutChunk(cid, idx, payload, worker, pin), ChunkKey(cid, idx, worker);
      && r.engine.descs == e.descs && r.engine.store.Valid()
      && (r.result.Ok? <==> Admits(e.store, k, payload))
      && (r.result.Err? ==> r.result == Err(StorageFull))
      && (r.result.Ok? ==>
            && k in r.engine.store.hot.data && r.engine.store.hot.data[k] == payload
            && (pin ==> k in r.engine.store.hot.pinned)
            && (pin && e.store.cold.Some? ==>
                  && r.engine.store.cold.Some? && r.engine.store.cold.value.Persists(k)
                  && r.engine.store.cold.value.objects[k] == payload))
  {
    hide L.Put, L.Lru.Valid, Store.View;
    var k := ChunkKey(cid, idx, worker);
    PutViewAny(e.store, k, payload, pin);
    L.PutAdmittedExactly(e.store.hot, k, payload, pin);
    L.PutState(e.store.hot, k, payload, pin);
  }

  /** Room in hot for an object under a key, beside what is pinned under other keys. */
  predicate Admits(s: Store, k: ChunkKey, obj: Payload) {
    s.hot.capacity.Some? ==> obj.NBytes() + s.hot.PinnedBytes(k) <= s.hot.capacity.value
  }

  // ---- runs of puts -----------------------------------------------------------------------

  lemma {:induction false} PutAllAppend(s: Store, es: seq<Entry>, x: Entry, pin: bool)
    requires s.Valid()
    ensures var before := PutAll(s, es, pin);
      PutAll(s, es + [x], pin) == if before.ok then before.store.Put(x.key, x.payload, pin) else before
    decreases es
  {
    hide Store.Put, Store.Valid;
    var all := es + [x];
    if es == [] {
      var r := s.Put(x.key, x.payload, pin);
      PutViewAny(s, x.key, x.payload, pin);
      assert all == [x] && all[1..] == [];
      assert r.ok ==> PutAll(r.store, [], pin) == r;
    } else {
      PutViewAny(s, es[0].key, es[0].payload, pin);
      assert all[1..] == es[1..] + [x];
      var first := s.Put(es[0].key, es[0].payload, pin);
      if first.ok {
        PutAllAppend(first.store, es[1..], x, pin);
      }
    }
  }

  /** A run of puts, of new keys or old, goes in exactly when each does where its turn comes. */
  lemma {:induction false} PutAllGoesInByTurns(s: Store, es: seq<Entry>, pin: bool)
    requires s.Valid()
    ensures PutAll(s, es, pin).ok <==>
      forall n :: 0 <= n < |es| ==> Admits(PutAll(s, es[..n], pin).store, es[n].key, es[n].payload)
  {
    hide Store.Put, Store.Valid, PutAll, Admits;
    if es == [] {
      NoPuts(s, pin);
    } else {
      var front, x := es[..|es| - 1], es[|es| - 1];
      assert es == front + [x];
      PutAllGoesInByTurns(s, front, pin);
      PutAllAppend(s, front, x, pin);
      PutAdmits(PutAll(s, front, pin).store, x.key, x.payload, pin);
      forall n | 0 <= n < |front| ensures front[..n] == es[..n] && front[n] == es[n] {}
    }
  }

  lemma {:induction false} NoPuts(s: Store, pin: bool)
    requires s.Valid()
    ensures PutAll(s, [], pin).ok
  {}

  lemma {:induction false} PutAdmits(s: Store, k: ChunkKey, obj: Payload, pin: bool)
    requires s.Valid()
    ensures s.Put(k, obj, pin).ok <==> Admits(s, k, obj)
  {
    hide L.Put, L.Lru.Valid;
    L.PutAdmittedExactly(s.hot, k, obj, pin);
  }

  /** A registration succeeds exactly when its chunk counts are right and each put goes in in turn. */
  lemma {:induction false} RegisterGoesInByTurns(e: Engine, args: RegisterArgs, at: Time)
    requires e.Valid()
    ensures var es := args.ToPut();
      e.Register(args, at).result.Ok? <==>
        && WellCounted(args, e.chunkSize)
        && forall n :: 0 <= n < |es| ==> Admits(PutAll(e.store, es[..n], args.pin).store, es[n].key, es[n].payload)
  {
    hide PutAll, Entries, Chunks, Store.Valid, Admits;
    PutAllGoesInByTurns(e.store, args.ToPut(), args.pin);
  }

  // ---- saving a buffer --------------------------------------------------------------------

  /** Blocks per chunk: exactly the quotient where the block size divides the chunk size. */
  lemma {:induction false} BlocksPerChunkExactly(blockSize: nat, chunkSize: nat, q: nat)
    ensures BlocksPerChunk(blockSize, chunkSize) == Ok(q) <==> blockSize > 0 && chunkSize == Offset(q, blockSize)
    ensures BlocksPerChunk(blockSize, chunkSize) == Err(ZeroBlockSize) <==> blockSize == 0
    ensures BlocksPerChunk(blockSize, chunkSize) == Err(NotAMultiple) <==>
      blockSize > 0 && forall n: nat :: chunkSize != Offset(n, blockSize)
  {
    if blockSize > 0 {
      var n := chunkSize / blockSize;
      assert chunkSize == blockSize * n + chunkSize % blockSize;
      forall m: nat | chunkSize == Offset(m, blockSize) ensures n == m && chunkSize % blockSize == 0 {
        DivisionUnique(chunkSize, blockSize, m, 0);
      }
      assert chunkSize % blockSize == 0 ==> chunkSize == Offset(n, blockSize);
    }
  }

  /** The metadata of a saved payload: a whole chunk of tokens and all layers, raw. */
  lemma {:induction false} SavedMetadata(
    blocks: Blocks, ids: seq<int>, numChunks: int, bpc: nat, chunkSize: nat, numLayers: int, i: nat)
    requires i < numChunks
    ensures var p := SaveFrom(blocks, ids, numChunks, bpc, chunkSize, numLayers)[i];
      && p.numTokens == chunkSize && p.numLayers == numLayers && p.fmt == "raw" && p.meta == map[]
      && p.NBytes() == BlocksBytes(blocks, ChunkBlocks(ids, bpc, i))
  {
    GatherBytes(blocks, ChunkBlocks(ids, bpc, i));
  }

  /** The bytes a list of blocks holds; a block that is not there holds none. */
  function BlocksBytes(blocks: Blocks, ids: seq<int>): nat {
    if ids == [] then 0 else |BlockData(blocks, ids[0])| + BlocksBytes(blocks, ids[1..])
  }

  lemma {:induction false} GatherBytes(blocks: Blocks, ids: seq<int>)
    ensures |Join(Gather(blocks, ids))| == BlocksBytes(blocks, ids)
  {
    if ids != [] {
      assert Gather(blocks, ids)[1..] == Gather(blocks, ids[1..]);
      GatherBytes(blocks, ids[1..]);
    }
  }

  lemma {:induction false} BlocksBytesConcat(blocks: Blocks, a: seq<int>, b: seq<int>)
    ensures BlocksBytes(blocks, a + b) == BlocksBytes(blocks, a) + BlocksBytes(blocks, b)
  {
    if a == [] {
      assert a + b == b;
    } else {
      assert (a + b)[1..] == a[1..] + b;
      BlocksBytesConcat(blocks, a[1..], b);
    }
  }

  /** The puts of a save, one per chunk. */
  function SavePuts(blocks: Blocks, layout: Layout, cid: string, ids: seq<int>, n: nat, bpc: nat): seq<Entry> {
    ShardEntries(cid, Shard(0, SaveFrom(blocks, ids, n, bpc, layout.chunkSize, layout.numLayers)))
  }

  /** Together they put the bytes of the blocks that n chunks reach. */
  lemma {:induction false} SavePutsBytes(
    blocks: Blocks, layout: Layout, cid: string, ids: seq<int>, n: nat, bpc: nat, i: nat)
    requires i <= n
    ensures Reach(ids, bpc, i) <= Reach(ids, bpc, n)
    ensures TotalBytes(SavePuts(blocks, layout, cid, ids, n, bpc)[i..]) ==
      BlocksBytes(blocks, ids[Reach(ids, bpc, i)..Reach(ids, bpc, n)])
    decreases n - i
  {
    NoBlocks(blocks);
    hide Offset, SaveFrom, BlocksBytes;
    OffsetStep(i, n, bpc);
    if i < n {
      var es := SavePuts(blocks, layout, cid, ids, n, bpc);
      var lo, mid, hi := Reach(ids, bpc, i), Reach(ids, bpc, i + 1), Reach(ids, bpc, n);
      OffsetStep(i + 1, n, bpc);
      SavePutsBytes(blocks, layout, cid, ids, n, bpc, i + 1);
      SavedMetadata(blocks, ids, n, bpc, layout.chunkSize, layout.numLayers, i);
      assert es[i..][1..] == es[i + 1..] && es[i..][0] == es[i];
      assert ChunkBlocks(ids, bpc, i) == ids[lo..mid];
      assert ids[lo..hi] == ids[lo..mid] + ids[mid..hi];
      BlocksBytesConcat(blocks, ids[lo..mid], ids[mid..hi]);
    } else {
      var hi := Reach(ids, bpc, n);
      assert ids[hi..hi] == [];
    }
  }

  lemma {:induction false} NoBlocks(blocks: Blocks)
    ensures BlocksBytes(blocks, []) == 0
  {}

  /**
   * When a save goes in, and what it publishes. A block size that does not divide the chunk size,
   * or is zero, fails it before anything is stored; otherwise only a bounded hot store can, and then
   * no descriptor has changed. If it goes in, pinned or not, exactly the descriptor of the tokens is
   * new, for worker 0, the buffer's layer count, and the lifetime asked for or the default.
   */
  lemma {:induction false} SavesExactly(
    e: Engine, blocks: Blocks, layout: Layout, cid: string, tokens: seq<Token>, ids: seq<int>,
    ttl: Option<Time>, pin: bool, now: Time)
    requires e.Valid()
    ensures var ran := SaveTokens(e, blocks, layout, cid, tokens, ids, ttl, pin, now);
      var n := CeilDiv(|tokens|, e.chunkSize);
      && (layout.blockSize == 0 ==> ran == Ran(e, blocks, Err(TransferFailed(ZeroBlockSize))))
      && (layout.blockSize > 0 && layout.chunkSize % layout.blockSize != 0 ==>
            ran == Ran(e, blocks, Err(TransferFailed(NotAMultiple))))
      && (layout.blockSize > 0 && layout.chunkSize % layout.blockSize == 0 ==>
            && (ran.result == Ok(n) || (ran.result == Err(EngineError(StorageFull)) && ran.engine.descs == e.descs))
            && (e.store.hot.capacity.None? ==> ran.result == Ok(n)))
      && (ran.result.Ok? ==>
            && cid in ran.engine.descs && ran.engine.descs == e.descs[cid := ran.engine.descs[cid]]
            && var d := ran.engine.descs[cid];
            && d.numTokens == |tokens| && d.NumChunks() == n && d.workerIds == [0]
            && d.fingerprints == FingerprintsOf(Chunks(tokens, e.chunkSize))
            && d.numLayers == layout.numLayers && d.createdAt == now && d.pinned == pin
            && d.expiresAt == Deadline(e, ttl, now))
  {
    hide PutAll, Chunks, CeilDiv, Store.Valid, SaveFrom, Engine.Commit, Deadline, Ascending;
    if layout.Bpc().Ok? {
      var n := CeilDiv(|tokens|, e.chunkSize);
      var payloads := SaveFrom(blocks, ids, n, layout.Bpc().value, layout.chunkSize, layout.numLayers);
      var r := PutAll(e.store, ShardEntries(cid, Shard(0, payloads)), pin);
      if e.store.hot.capacity.None? {
        UnboundedPutsGoIn(e.store, ShardEntries(cid, Shard(0, payloads)), pin);
      }
      var e' := e.(store := r.store);
      CommitsExactly(e', cid, tokens, layout.numLayers, [0], ttl, pin, now);
      DeadlineOfStore(e, e', ttl, now);
      if SaveTokens(e, blocks, layout, cid, tokens, ids, ttl, pin, now).result.Ok? {
        OneWorker(SaveTokens(e, blocks, layout, cid, tokens, ids, ttl, pin, now).engine.descs[cid].workerIds, [0]);
      }
    }
  }

  lemma {:induction false} DeadlineOfStore(e: Engine, e': Engine, ttl: Option<Time>, now: Time)
    requires e'.defaultTtl == e.defaultTtl
    ensures Deadline(e', ttl, now) == Deadline(e, ttl, now)
  {}

  /** A save, pinned or not, is alive until its own lifetime or the default has passed. */
  lemma {:induction false} SavedLifetime(
    e: Engine, blocks: Blocks, layout: Layout, cid: string, tokens: seq<Token>, ids: seq<int>,
    ttl: Option<Time>, pin: bool, at: Time, now: Time)
    requires e.Valid()
    ensures var ran := SaveTokens(e, blocks, layout, cid, tokens, ids, ttl, pin, at);
      var life := if ttl.Some? then ttl else e.defaultTtl;
      ran.result.Ok? ==> (Alive(ran.engine, cid, now) <==> life.None? || now < at + life.value)
  {
    hide SaveTokens, Chunks, CeilDiv;
    SavesExactly(e, blocks, layout, cid, tokens, ids, ttl, pin, at);
  }

  /**
   * Over a bounded store a save under new chunk keys goes in exactly when, pinned, the bytes of all
   * its blocks fit beside those already pinned, or, unpinned, those of each chunk alone do.
   */
  lemma {:induction false} SaveFitsExactly(
    e: Engine, blocks: Blocks, layout: Layout, cid: string, tokens: seq<Token>, ids: seq<int>,
    ttl: Option<Time>, pin: bool, now: Time)
    requires e.Valid() && e.store.hot.capacity.Some?
    requires layout.blockSize > 0 && layout.chunkSize % layout.blockSize == 0
    requires forall i :: 0 <= i < CeilDiv(|tokens|, e.chunkSize) ==>
      ChunkKey(cid, i, 0) !in e.store.hot.data && ChunkKey(cid, i, 0) !in e.store.hot.pinned
    ensures var n, bpc := CeilDiv(|tokens|, e.chunkSize), layout.chunkSize / layout.blockSize;
      var free := e.store.hot.capacity.value - PinnedTotal(e.store.hot);
      SaveTokens(e, blocks, layout, cid, tokens, ids, ttl, pin, now).result.Ok? <==>
        || n == 0
        || (pin && BlocksBytes(blocks, ids[..Reach(ids, bpc, n)]) <= free)
        || (!pin && forall i :: 0 <= i < n ==> BlocksBytes(blocks, ChunkBlocks(ids, bpc, i)) <= free)
  {
    hide PutAll, CeilDiv, Store.Valid, SaveFrom, PinnedTotal, BlocksBytes, TotalBytes, ChunkBlocks, Reach, Chunks;
    var n, bpc := CeilDiv(|tokens|, e.chunkSize), layout.chunkSize / layout.blockSize;
    var es := SavePuts(blocks, layout, cid, ids, n, bpc);
    assert Fresh(e.store.hot, es);
    PutAllGoesInExactly(e.store, es, pin);
    SavePutsBytes(blocks, layout, cid, ids, n, bpc, 0);
    ReachNone(ids, bpc);
    assert es[0..] == es;
    assert ids[0..Reach(ids, bpc, n)] == ids[..Reach(ids, bpc, n)];
    forall i | 0 <= i < n ensures es[i].payload.NBytes() == BlocksBytes(blocks, ChunkBlocks(ids, bpc, i)) {
      SavedMetadata(blocks, ids, n, bpc, layout.chunkSize, layout.numLayers, i);
    }
  }

  lemma {:induction false} ReachNone(ids: seq<int>, bpc: nat)
    ensures Reach(ids, bpc, 0) == 0
  {}

  /** A worker step saves in turn: after q saves that went in, it succeeds with the next as that does. */
  lemma {:induction false} WaitForSaveInTurn(
    e: Engine, blocks: Blocks, layout: Layout, saves: seq<SaveOp>, times: seq<Time>, q: nat)
    requires e.Valid() && |times| == |saves| && q < |saves|
    ensures var before, next := WaitForSave(e, blocks, layout, saves[..q], times[..q]), saves[q].plan;
      var after := WaitForSave(e, blocks, layout, saves[..q + 1], times[..q + 1]);
      var one := SaveTokens(before.engine, blocks, layout, next.cacheId, next.tokenIds, next.blockIds,
        next.ttl, next.pin, times[q]);
      && (before.result.Err? ==> after == before)
      && (before.result.Ok? ==>
            after.engine == one.engine && (if one.result.Ok? then after.result.Ok? else after.result == one.result))
    decreases q
  {
    hide SaveTokens;
    if q == 0 {
      assert saves[..1] == [saves[0]] && times[..1] == [times[0]];
      assert [saves[0]][1..] == [] && [times[0]][1..] == [];
    } else {
      var op := saves[0].plan;
      var saved := SaveTokens(e, blocks, layout, op.cacheId, op.tokenIds, op.blockIds, op.ttl, op.pin, times[0]);
      assert saves[..q][1..] == saves[1..][..q - 1] && times[..q][1..] == times[1..][..q - 1];
      assert saves[..q + 1][1..] == saves[1..][..q] && times[..q + 1][1..] == times[1..][..q];
      if saved.result.Ok? {
        WaitForSaveInTurn(saved.engine, blocks, layout, saves[1..], times[1..], q - 1);
      }
    }
  }

  // ---- looking up and loading -------------------------------------------------------------

  /** A lookup returns exactly on a live cache, whatever the request, and then changes nothing. */
  lemma {:induction false} LookupReturnsExactly(e: Engine, cid: string, request: Option<seq<Token>>, now: Time)
    requires e.Valid()
    ensures var r := e.Lookup(cid, request, now);
      && (r.result.Ok? <==> Alive(e, cid, now))
      && (r.result.Ok? ==> r.engine == e && r.result.value.cacheId == cid)
      && (r.result.Err? ==> r == Outcome(e.Delete(cid), Err(Dismissal(e, cid))))
  {
    hide MatchedChunks, Engine.Delete;
    LiveExactly(e, cid, now);
  }

  /**
   * What a request matches: all tokens that can be reused beyond those computed, for every cache
   * that is alive and answers as recorded; nothing for a dead one, or without an id.
   */
  lemma {:induction false} MatchesExactly(
    e: Engine, request: Request, computed: nat, r: Record, t0: Time, t1: Time)
    requires e.Valid() && (request.CacheId().Some? ==> Faithful(e, request.CacheId().value, r))
    ensures var out, cid := NumNewMatched(e, request, computed, t0, t1), request.CacheId();
      var reused := ReusedTokens(r.tokens, request.Prompt(), e.chunkSize);
      && (cid.None? ==> out == Outcome(e, Ok(0)))
      && (cid.Some? && !Alive(e, cid.value, t0) ==> out == Outcome(e.Delete(cid.value), Ok(0)))
      && (cid.Some? && Alive(e, cid.value, t0) && Alive(e, cid.value, t1) ==>
            out == Outcome(e, Ok(if reused > computed then reused - computed else 0)))
      && (cid.Some? && Alive(e, cid.value, t0) && !Alive(e, cid.value, t1) ==>
            out == Outcome(e.Delete(cid.value), Err(Expired)))
  {
    hide MatchedChunks, ReusedTokens, Faithful, Engine.Lookup, Engine.Delete, Descriptor.ExpiredAt;
    if request.CacheId().Some? {
      var cid := request.CacheId().value;
      LiveExactly(e, cid, t0);
      LookupReturnsExactly(e, cid, Some(request.Prompt()), t1);
      LookupReusable(e, cid, r, Some(request.Prompt()), t1);
    }
  }

  /** A load fails on a dead cache as a lookup does, and otherwise as its gets do. */
  lemma {:induction false} LoadFailsExactly(e: Engine, cid: string, numChunks: Option<int>, worker: int, now: Time)
    requires e.Valid()
    ensures var r := e.Load(cid, numChunks, worker, now);
      && (!Alive(e, cid, now) ==> r == Outcome(e.Delete(cid), Err(Dismissal(e, cid))))
      && (Alive(e, cid, now) ==>
            var total := e.descs[cid].NumChunks();
            var count := if numChunks.None? then total else Min(numChunks.value, total);
            var gets := GetRange(e.store, cid, worker, 0, count);
            r == Outcome(e.(store := gets.store), gets.result))
  {
    hide GetRange, Engine.Delete;
    LiveExactly(e, cid, now);
  }

  /**
   * The gets of a load, over a store without stale pins, fail exactly at the first chunk that is
   * missing or does not fit beside what is pinned: the one as missing, the other as out of space.
   */
  lemma {:induction false} GetRangeFailsAt(s: Store, cid: string, worker: int, idx: nat, count: int, i: nat)
    requires s.Valid() && NoStalePins(s.hot) && idx <= i < count
    requires !Servable(s, ChunkKey(cid, i, worker))
    requires forall j :: idx <= j < i ==> Servable(s, ChunkKey(cid, j, worker))
    ensures GetRange(s, cid, worker, idx, count).result ==
      Err(if ChunkKey(cid, i, worker) in s.View() then StorageFull else Mismatch)
    decreases count - idx
  {
    hide Store.Get, Store.Valid, Servable, NoStalePins, Store.View;
    var k := ChunkKey(cid, idx, worker);
    GetView(s, k);
    GetServesExactly(s, k);
    if idx < i {
      forall x ensures Servable(s.Get(k).store, x) <==> Servable(s, x) {
        GetKeepsServable(s, k, x);
      }
      assert NoStalePins(s.Get(k).store.hot) by {
        GetKeepsServable(s, k, k);
      }
      GetRangeFailsAt(s.Get(k).store, cid, worker, idx + 1, count, i);
    }
  }

  /**
   * What a retrieve returns, for a cache that answers as recorded. Nothing when it is dead at the
   * first look; Expired when it dies on the way; else the load's failure, or the transfer's, or all
   * tokens that can be reused.
   */
  lemma {:induction false} RetrievesExactly(
    e: Engine, b1: Blocks, layout: Layout, cid: string, r: Record, dst: seq<int>, request: Option<seq<Token>>,
    t0: Time, t1: Time, t2: Time)
    requires e.Valid() && Faithful(e, cid, r)
    ensures var ran := Retrieve(e, b1, layout, cid, dst, request, t0, t1, t2);
      var n := ReusedTokens(r.tokens, Wanted(request, r.tokens), e.chunkSize);
      var loaded := e.Load(cid, Some(CeilDiv(n, e.chunkSize)), 0, t2);
      && (!Alive(e, cid, t0) ==> ran == Ran(e.Delete(cid), b1, Ok(0)))
      && (Alive(e, cid, t0) && !Alive(e, cid, t1) ==> ran == Ran(e.Delete(cid), b1, Err(EngineError(Expired))))
      && (Alive(e, cid, t0) && Alive(e, cid, t1) ==>
            && ran.engine == loaded.engine
            && (ran.result.Err? ==> ran.blocks == b1)
            && (loaded.result.Err? ==> ran.result == Err(EngineError(loaded.result.error)))
            && (loaded.result.Ok? && layout.blockSize == 0 ==> ran.result == Err(TransferFailed(ZeroBlockSize)))
            && (loaded.result.Ok? && layout.blockSize > 0 && layout.chunkSize % layout.blockSize != 0 ==>
                  ran.result == Err(TransferFailed(NotAMultiple)))
            && (loaded.result.Ok? && layout.blockSize > 0 && layout.chunkSize % layout.blockSize == 0 ==>
                  ran.result == Ok(n)))
  {
    hide MatchedChunks, ReusedTokens, Faithful, Engine.Lookup, Engine.Load, Engine.Delete, Descriptor.ExpiredAt,
      Wanted, CeilDiv, LoadInto;
    LiveExactly(e, cid, t0);
    LookupReturnsExactly(e, cid, request, t1);
    LookupReusable(e, cid, r, request, t1);
  }

  /**
   * So over a store without stale pins a retrieve from a live cache returns exactly when each reused
   * chunk is stored, and in hot or small enough to be promoted beside what is pinned.
   */
  lemma {:induction false} RetrieveReturnsExactly(
    e: Engine, b1: Blocks, layout: Layout, cid: string, r: Record, dst: seq<int>, request: Option<seq<Token>>,
    t0: Time, t1: Time, t2: Time)
    requires e.Valid() && Faithful(e, cid, r) && NoStalePins(e.store.hot)
    requires Alive(e, cid, t0) && Alive(e, cid, t1) && Alive(e, cid, t2)
    requires layout.blockSize > 0 && layout.chunkSize % layout.blockSize == 0
    ensures var out := Retrieve(e, b1, layout, cid, dst, request, t0, t1, t2).result;
      var n := ReusedTokens(r.tokens, Wanted(request, r.tokens), e.chunkSize);
      && (out.Ok? <==> forall i :: 0 <= i < CeilDiv(n, e.chunkSize) ==> Servable(e.store, ChunkKey(cid, i, 0)))
      && (out.Ok? ==> out == Ok(n))
  {
    hide ReusedTokens, Retrieve, Engine.Load, Wanted, CeilDiv, Servable, NoStalePins, GetRange, Faithful;
    RetrievesExactly(e, b1, layout, cid, r, dst, request, t0, t1, t2);
    var n := ReusedTokens(r.tokens, Wanted(request, r.tokens), e.chunkSize);
    var m := CeilDiv(n, e.chunkSize);
    LoadFailsExactly(e, cid, Some(m), 0, t2);
    LookupReturnsExactly(e, cid, request, t1);
    LookupReusable(e, cid, r, request, t1);
    RecordedChunks(e, cid, r);
    GetRangeServesExactly(e.store, cid, 0, 0, m);
  }

  lemma {:induction false} RecordedChunks(e: Engine, cid: string, r: Record)
    requires e.Valid() && Faithful(e, cid, r) && cid in e.descs
    ensures e.descs[cid].NumChunks() == CeilDiv(|r.tokens|, e.chunkSize)
  {
    hide Chunks, CeilDiv, Store.View;
    ChunksPartition(r.tokens, e.chunkSize);
  }

  /** Staged loads in turn: after q that succeeded, the next succeeds as its load and transfer do. */
  lemma {:induction false} StartLoadInTurn(
    e: Engine, blocks: Blocks, layout: Layout, loads: seq<LoadOp>, times: seq<Time>, q: nat)
    requires e.Valid() && |times| == |loads| && q < |loads|
    ensures var before, next := StartLoad(e, blocks, layout, loads[..q], times[..q]), loads[q].plan;
      var after := StartLoad(e, blocks, layout, loads[..q + 1], times[..q + 1]);
      var loaded := before.engine.Load(next.cacheId, Some(next.numChunks), 0, times[q]);
      && (before.result.Err? ==> after == before)
      && (before.result.Ok? ==>
            && after.engine == loaded.engine
            && (loaded.result.Err? ==> after.result == Err(EngineError(loaded.result.error)))
            && (loaded.result.Ok? && layout.blockSize == 0 ==> after.result == Err(TransferFailed(ZeroBlockSize)))
            && (loaded.result.Ok? && layout.blockSize > 0 && layout.chunkSize % layout.blockSize != 0 ==>
                  after.result == Err(TransferFailed(NotAMultiple)))
            && (loaded.result.Ok? && layout.blockSize > 0 && layout.chunkSize % layout.blockSize == 0 ==>
                  after.result.Ok?))
    decreases q
  {
    hide Engine.Load, LoadInto;
    if q == 0 {
      assert loads[..1] == [loads[0]] && times[..1] == [times[0]];
      assert [loads[0]][1..] == [] && [times[0]][1..] == [];
      StepValid(e, DoLoad(loads[0].plan.cacheId, Some(loads[0].plan.numChunks), 0), times[0]);
      LoadIsStep(e, loads[0].plan.cacheId, Some(loads[0].plan.numChunks), times[0]);
    } else {
      var op := loads[0].plan;
      var loaded := e.Load(op.cacheId, Some(op.numChunks), 0, times[0]);
      StepValid(e, DoLoad(op.cacheId, Some(op.numChunks), 0), times[0]);
      LoadIsStep(e, op.cacheId, Some(op.numChunks), times[0]);
      assert loads[..q][1..] == loads[1..][..q - 1] && times[..q][1..] == times[1..][..q - 1];
      assert loads[..q + 1][1..] == loads[1..][..q] && times[..q + 1][1..] == times[1..][..q];
      if loaded.result.Ok? && layout.Bpc().Ok? {
        var next := LoadInto(blocks, op.blockIds, loaded.result.value, layout.Bpc().value, 0);
        StartLoadInTurn(loaded.engine, next, layout, loads[1..], times[1..], q - 1);
      }
    }
  }
}
