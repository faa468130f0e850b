/**
 * The engine never serves wrong KV (src/llmcache/engine.py, src/llmcache/types.py).
 *
 * A `Record` is what an application stored under an id: the tokens and a payload for every chunk
 * of every worker. The engine is `Faithful` to it when its descriptor describes those tokens and
 * every chunk the store can still produce is the recorded one. Registration and commit establish
 * this, every operation that does not write the id keeps it, and loads and lookups then answer
 * from the record.
 */
module Reuse {
  import opened Wrappers
  import opened Payloads
  import opened Arithmetic
  import opened Types
  import L = Lru
  import opened Tiers
  import opened Engine

  datatype Record = Record(tokens: seq<Token>, workers: seq<int>, table: map<ChunkKey, Payload>)
  {
    /** The table has exactly the chunks of the tokens, for every worker. */
    ghost predicate Covers(cid: string, chunkSize: nat)
      requires chunkSize > 0
    {
      forall k :: k in table <==>
        k.cacheId == cid && k.workerId in workers && 0 <= k.chunkIndex < |Chunks(tokens, chunkSize)|
    }
  }

  ghost predicate Describes(d: Descriptor, r: Record)
    requires d.chunkSize > 0
  {
    && d.fingerprints == FingerprintsOf(Chunks(r.tokens, d.chunkSize))
    && d.numTokens == |r.tokens|
    && forall w :: w in d.workerIds <==> w in r.workers
  }

  ghost predicate Faithful(e: Engine, cid: string, r: Record)
    requires e.Valid()
  {
    && r.Covers(cid, e.chunkSize)
    && (cid in e.descs ==> Describes(e.descs[cid], r))
    && SubMap(Restrict(e.store.View(), r.table.Keys), r.table)
  }

  function Restrict(m: map<ChunkKey, Payload>, ks: set<ChunkKey>): map<ChunkKey, Payload> {
    m - (m.Keys - ks)
  }

  // ---- runs of puts -----------------------------------------------------------------------

  function KeysPut(es: seq<Entry>): set<ChunkKey> {
    EntryMap(es).Keys
  }

  /** Puts change what readers see under their own keys only, and never to anything else than put. */
  lemma {:induction false} PutAllView(s: Store, es: seq<Entry>, pin: bool)
    requires s.Valid()
    ensures var r := PutAll(s, es, pin);
      && SubMap(r.store.View() - KeysPut(es), s.View() - KeysPut(es))
      && (r.ok ==> SubMap(r.store.View(), s.View() + EntryMap(es)))
      && (s.NeverDrops() ==> r.store.NeverDrops())
      && (s.NeverDrops() && r.ok ==> r.store.View() == s.View() + EntryMap(es))
    decreases es
  {
    hide Store.Put, Store.View, Store.Valid, Store.NeverDrops, SubMap;
    var v := s.View();
    if es == [] {
      assert v + map[] == v;
      SubMapSelf(v, {});
      SubMapSelf(v, KeysPut(es));
    } else {
      var k, p, rest := es[0].key, es[0].payload, es[1..];
      var first := s.Put(k, p, pin);
      PutViewAny(s, k, p, pin);
      if first.ok {
        PutAllView(first.store, rest, pin);
        SubMapChain(v, first.store.View(), PutAll(first.store, rest, pin).store.View(), k, p, EntryMap(rest));
      } else {
        SubMapLess(first.store.View(), v, {k}, KeysPut(es));
      }
    }
  }

  lemma {:induction false} SubMapSelf(m: map<ChunkKey, Payload>, ks: set<ChunkKey>)
    ensures SubMap(m - ks, m - ks) && SubMap(m, m)
  {}

  lemma {:induction false} SubMapLess(
    a: map<ChunkKey, Payload>, b: map<ChunkKey, Payload>, few: set<ChunkKey>, many: set<ChunkKey>)
    requires SubMap(a - few, b - few) && few <= many
    ensures SubMap(a - many, b - many)
  {
    assert forall k :: k in a - many ==> k in a - few;
  }

  /** A put followed by more puts, seen on the views before, between and after. */
  lemma {:induction false} SubMapChain(
    v0: map<ChunkKey, Payload>, v1: map<ChunkKey, Payload>, v2: map<ChunkKey, Payload>,
    k: ChunkKey, p: Payload, m: map<ChunkKey, Payload>)
    ensures v0[k := p] + m == v0 + (map[k := p] + m)
    ensures SubMap(v1 - {k}, v0 - {k}) && SubMap(v2 - m.Keys, v1 - m.Keys) ==>
      SubMap(v2 - (map[k := p] + m).Keys, v0 - (map[k := p] + m).Keys)
    ensures SubMap(v1, v0[k := p]) && SubMap(v2, v1 + m) ==> SubMap(v2, v0 + (map[k := p] + m))
  {
    var all := map[k := p] + m;
    if SubMap(v1 - {k}, v0 - {k}) && SubMap(v2 - m.Keys, v1 - m.Keys) {
      forall x | x in v2 - all.Keys ensures x in v0 - all.Keys && v2[x] == v0[x] {
        assert x in v2 - m.Keys;
        assert x in v1 - {k};
      }
    }
  }

  /** After pinned puts that all went in, every one of their objects is in hot and pinned. */
  lemma {:induction false} PutAllResident(s: Store, es: seq<Entry>, pin: bool, x: ChunkKey)
    requires s.Valid()
    ensures var r := PutAll(s, es, pin);
      && (s.Resident(x) && x !in KeysPut(es) ==> r.store.Resident(x) && r.store.hot.data[x] == s.hot.data[x])
      && (r.ok && pin && x in KeysPut(es) ==> r.store.Resident(x) && r.store.hot.data[x] == EntryMap(es)[x])
    decreases es
  {
    hide Store.Put, Store.Valid;
    if es != [] {
      var first := s.Put(es[0].key, es[0].payload, pin);
      PutViewAny(s, es[0].key, es[0].payload, pin);
      PutKeepsResident(s, es[0].key, es[0].payload, pin, x);
      PutAllResident(first.store, es[1..], pin, x);
    }
  }

  lemma {:induction false} EntryMapConcat(a: seq<Entry>, b: seq<Entry>)
    ensures EntryMap(a + b) == EntryMap(a) + EntryMap(b)
  {
    if a == [] {
      assert a + b == b;
    } else {
      assert (a + b)[1..] == a[1..] + b;
      EntryMapConcat(a[1..], b);
      MapPlusAssoc(map[a[0].key := a[0].payload], EntryMap(a[1..]), EntryMap(b));
    }
  }

  lemma {:induction false} MapPlusAssoc(a: map<ChunkKey, Payload>, b: map<ChunkKey, Payload>, c: map<ChunkKey, Payload>)
    ensures a + (b + c) == a + b + c
  {}

  /** Entries with distinct keys: each is the map's value at its key. */
  lemma {:induction false} EntryMapAt(es: seq<Entry>, k: ChunkKey)
    requires forall i, j :: 0 <= i < j < |es| ==> es[i].key != es[j].key
    ensures k in EntryMap(es) <==> exists i :: 0 <= i < |es| && es[i].key == k
    ensures forall i :: 0 <= i < |es| && es[i].key == k ==> EntryMap(es)[k] == es[i].payload
  {
    if es != [] {
      EntryMapAt(es[1..], k);
      assert forall i :: 1 <= i < |es| ==> es[i] == es[1..][i - 1];
    }
  }

  ghost predicate DistinctWorkers(shards: seq<Shard>) {
    forall i, j :: 0 <= i < j < |shards| ==> shards[i].worker != shards[j].worker
  }

  lemma {:induction false} ShardEntryMap(cid: string, shard: Shard, k: ChunkKey)
    ensures k in EntryMap(ShardEntries(cid, shard)) <==>
      k.cacheId == cid && k.workerId == shard.worker && 0 <= k.chunkIndex < |shard.payloads|
    ensures k in EntryMap(ShardEntries(cid, shard)) ==>
      EntryMap(ShardEntries(cid, shard))[k] == shard.payloads[k.chunkIndex]
  {
    var es := ShardEntries(cid, shard);
    EntryMapAt(es, k);
    if k.cacheId == cid && k.workerId == shard.worker && 0 <= k.chunkIndex < |shard.payloads| {
      assert es[k.chunkIndex].key == k;
    }
  }

  /** The keys a registration puts, and the payload each one gets. */
  lemma {:induction false} EntriesMap(cid: string, shards: seq<Shard>, k: ChunkKey)
    ensures k in EntryMap(Entries(cid, shards)) <==>
      exists i :: 0 <= i < |shards| &&
        k == ChunkKey(cid, k.chunkIndex, shards[i].worker) && 0 <= k.chunkIndex < |shards[i].payloads|
    ensures DistinctWorkers(shards) ==>
      forall i | 0 <= i < |shards| && k == ChunkKey(cid, k.chunkIndex, shards[i].worker) &&
        0 <= k.chunkIndex < |shards[i].payloads| ::
          EntryMap(Entries(cid, shards))[k] == shards[i].payloads[k.chunkIndex]
  {
    if shards != [] {
      EntryMapConcat(ShardEntries(cid, shards[0]), Entries(cid, shards[1..]));
      ShardEntryMap(cid, shards[0], k);
      EntriesMap(cid, shards[1..], k);
      assert forall i :: 1 <= i < |shards| ==> shards[i] == shards[1..][i - 1];
    }
  }

  // ---- steps that leave an id alone -------------------------------------------------------

  /** What a step may do to an id it does not write: forget it, re-flag it, or lose its chunks. */
  ghost predicate Calm(e: Engine, e': Engine, cid: string) {
    && e'.chunkSize == e.chunkSize
    && (cid in e'.descs ==> cid in e.descs && SameCache(e.descs[cid], e'.descs[cid]))
    && CalmView(e.store.View(), e'.store.View(), cid)
  }

  ghost predicate SameCache(d: Descriptor, d': Descriptor) {
    d' == d.(pinned := d'.pinned, expiresAt := d'.expiresAt)
  }

  ghost predicate CalmView(v: map<ChunkKey, Payload>, v': map<ChunkKey, Payload>, cid: string) {
    forall k :: k in v' && k.cacheId == cid ==> k in v && v'[k] == v[k]
  }

  lemma {:induction false} DeleteCalm(e: Engine, other: string, cid: string)
    requires e.Valid()
    ensures Calm(e, e.Delete(other), cid)
  {
    if other in e.descs {
      RemoveView(e.store, e.descs[other].Keys());
    }
  }

  lemma {:induction false} GetRangeView(s: Store, cid: string, worker: int, idx: nat, count: int)
    requires s.Valid()
    ensures var r := GetRange(s, cid, worker, idx, count);
      && r.store.View() == s.View()
      && (s.NeverDrops() ==> r.store.NeverDrops())
      && (r.result.Ok? ==>
            && |r.result.value| == (if idx < count then count - idx else 0)
            && forall j :: idx <= j < idx + |r.result.value| ==>
                 && ChunkKey(cid, j, worker) in s.View()
                 && r.result.value[j - idx] == s.View()[ChunkKey(cid, j, worker)])
      && (r.result.Err? ==> r.result.error == Mismatch || r.result.error == StorageFull)
    decreases count - idx
  {
    hide Store.Get, Store.View, Store.Valid;
    if idx < count {
      var k := ChunkKey(cid, idx, worker);
      GetView(s, k);
      GetRangeView(s.Get(k).store, cid, worker, idx + 1, count);
    }
  }

  lemma {:induction false} RegisterCalm(e: Engine, args: RegisterArgs, now: Time, cid: string)
    requires e.Valid() && args.Id() != cid
    ensures Calm(e, e.Register(args, now).engine, cid)
  {
    hide Store.View, Store.Valid, PutAll, Entries;
    var es := args.ToPut();
    PutAllView(e.store, es, args.pin);
    var v, v' := e.store.View(), PutAll(e.store, es, args.pin).store.View();
    forall k | k in v' && k.cacheId == cid ensures k in v && v'[k] == v[k] {
      EntriesMap(args.Id(), args.payloads.Normalize(), k);
      assert k in v' - KeysPut(es);
    }
  }

  /** No operation that does not write an id makes its chunks read as anything else. */
  lemma {:induction false} StepCalm(e: Engine, op: Op, now: Time, cid: string)
    requires e.Valid() && !op.Writes(cid)
    ensures Calm(e, Step(e, op, now), cid)
  {
    hide Store.View, Store.Get, Store.Put, Store.Pin, Store.Unpin, Store.Remove, Store.Expire, Store.Valid,
      GetRange, PutAll, Chunks, MatchedChunks, Engine.Register;
    match op
    case DoRegister(args) => RegisterCalm(e, args, now, cid);
    case DoPutChunk(c, idx, payload, worker, pin) =>
      PutViewAny(e.store, ChunkKey(c, idx, worker), payload, pin);
      PutCalm(e.store.View(), e.store.Put(ChunkKey(c, idx, worker), payload, pin).store.View(),
        ChunkKey(c, idx, worker), cid);
    case DoCommit(c, _, _, _, _, _) =>
    case DoLookup(c, _) => DeleteCalm(e, c, cid);
    case DoLoad(c, numChunks, worker) =>
      DeleteCalm(e, c, cid);
      forall count ensures GetRange(e.store, c, worker, 0, count).store.View() == e.store.View() {
        GetRangeView(e.store, c, worker, 0, count);
      }
    case DoGet(c) => DeleteCalm(e, c, cid);
    case DoExtendTtl(c, _) => DeleteCalm(e, c, cid);
    case DoPin(c) =>
      DeleteCalm(e, c, cid);
      forall ks ensures e.store.Pin(ks).View() == e.store.View() { PinView(e.store, ks); }
    case DoUnpin(c) =>
      DeleteCalm(e, c, cid);
      forall ks ensures e.store.Unpin(ks).View() == e.store.View() { PinView(e.store, ks); }
    case DoDelete(c) => DeleteCalm(e, c, cid);
    case DoSweep => RemoveView(e.store, e.KeysOf(e.ExpiredIds(now)));
    case ColdExpiry(k) => ExpireCalm(e.store, k, cid);
  }

  lemma {:induction false} PutCalm(v: map<ChunkKey, Payload>, v': map<ChunkKey, Payload>, k: ChunkKey, cid: string)
    requires SubMap(v' - {k}, v - {k}) && k.cacheId != cid
    ensures CalmView(v, v', cid)
  {
    forall x | x in v' && x.cacheId == cid ensures x in v && v'[x] == v[x] {
      assert x in v' - {k};
    }
  }

  lemma {:induction false} ExpireCalm(s: Store, k: ChunkKey, cid: string)
    ensures SubMap(s.Expire(k).View(), s.View())
    ensures CalmView(s.View(), s.Expire(k).View(), cid)
  {}

  lemma {:induction false} CalmKeepsFaithful(e: Engine, e': Engine, cid: string, r: Record)
    requires e.Valid() && e'.Valid() && Calm(e, e', cid) && Faithful(e, cid, r)
    ensures Faithful(e', cid, r)
  {
    var v, v' := Restrict(e.store.View(), r.table.Keys), Restrict(e'.store.View(), r.table.Keys);
    forall k | k in v' ensures k in r.table && v'[k] == r.table[k] {
      assert k in v;
    }
  }

  // ---- what a registration records --------------------------------------------------------

  function RecordOf(args: RegisterArgs): Record {
    Record(args.tokens, Workers(args.payloads.Normalize()), EntryMap(args.ToPut()))
  }

  lemma {:induction false} DescribeDescribes(
    e: Engine, cid: string, tokens: seq<Token>, layers: int, workers: seq<int>,
    ttl: Option<Time>, pin: bool, now: Time, table: map<ChunkKey, Payload>)
    requires e.Valid()
    ensures Describes(e.Describe(cid, tokens, layers, workers, ttl, pin, now), Record(tokens, workers, table))
  {
    ChunksPartition(tokens, e.chunkSize);
  }

  /** A registration that succeeds leaves the engine faithful to it, whatever was there before. */
  lemma {:induction false} RegisterFaithful(e: Engine, args: RegisterArgs, now: Time)
    requires e.Valid() && e.Register(args, now).result.Ok?
    ensures e.Register(args, now).engine.Valid()
    ensures Faithful(e.Register(args, now).engine, args.Id(), RecordOf(args))
  {
    hide Store.View, Store.Valid, PutAll, Entries, Chunks, EntryMap, Engine.Describe;
    StepValid(e, DoRegister(args), now);
    var es, shards, r := args.ToPut(), args.payloads.Normalize(), RecordOf(args);
    var cid := args.Id();
    PutAllView(e.store, es, args.pin);
    DescribeDescribes(e, cid, args.tokens, LayersFrom(0, es), Workers(shards), args.ttl, args.pin, now, r.table);
    forall k ensures k in r.table <==>
      k.cacheId == cid && k.workerId in r.workers && 0 <= k.chunkIndex < |Chunks(args.tokens, e.chunkSize)|
    {
      EntriesMap(cid, shards, k);
    }
  }

  /** A store without a byte budget takes every put. */
  lemma {:induction false} UnboundedPutsGoIn(s: Store, es: seq<Entry>, pin: bool)
    requires s.Valid() && s.hot.capacity.None?
    ensures PutAll(s, es, pin).ok
    decreases es
  {
    hide Store.View;
    if es != [] {
      PutViewAny(s, es[0].key, es[0].payload, pin);
      L.PutState(s.hot, es[0].key, es[0].payload, pin);
      UnboundedPutsGoIn(s.Put(es[0].key, es[0].payload, pin).store, es[1..], pin);
    }
  }

  /**
   * When a registration fails. A wrong chunk count for any worker is found before anything is
   * stored; otherwise only a bounded hot store can fail it; no failure touches a descriptor.
   */
  lemma {:induction false} RegisterFailsExactly(e: Engine, args: RegisterArgs, now: Time)
    requires e.Valid()
    ensures var out := e.Register(args, now);
      && (out.result == Err(BadChunkCount) <==>
            exists shard :: shard in args.payloads.Normalize() &&
              |shard.payloads| != CeilDiv(|args.tokens|, e.chunkSize))
      && (out.result == Err(BadChunkCount) ==> out.engine == e)
      && (out.result.Err? ==> out.engine.descs == e.descs)
      && (e.store.hot.capacity.None? ==> out.result != Err(StorageFull))
  {
    hide PutAll, Entries, Chunks, CeilDiv, Store.Valid;
    ChunksPartition(args.tokens, e.chunkSize);
    if e.store.hot.capacity.None? {
      UnboundedPutsGoIn(e.store, args.ToPut(), args.pin);
    }
  }

  /** What a successful registration publishes, and under which id. */
  lemma {:induction false} RegisteredDescriptor(e: Engine, args: RegisterArgs, now: Time)
    requires e.Valid() && e.Register(args, now).result.Ok?
    ensures var out, es := e.Register(args, now), args.ToPut();
      var d := out.result.value;
      && out.engine.descs == e.descs[args.Id() := d] && d.cacheId == args.Id()
      && d.cacheId == (if args.cacheId.None? || args.cacheId == Some("") then args.freshId else args.cacheId.value)
      && d.numTokens == |args.tokens| && d.NumChunks() == CeilDiv(|args.tokens|, e.chunkSize)
      && Ascending(d.workerIds) && multiset(d.workerIds) == multiset(Workers(args.payloads.Normalize()))
      && (forall i :: 0 <= i < |es| ==> es[i].payload.numLayers <= d.numLayers)
      && (d.numLayers == 0 || exists i :: 0 <= i < |es| && es[i].payload.numLayers == d.numLayers)
      && d.createdAt == now && d.pinned == args.pin
  {
    hide PutAll, Entries, Chunks, CeilDiv, LayersFrom, Ascending, Sorted;
    ChunksPartition(args.tokens, e.chunkSize);
    SortedSorts(Workers(args.payloads.Normalize()));
  }

  // ---- runs -------------------------------------------------------------------------------

  /** One payload per chunk of the tokens, for every worker. */
  predicate WellCounted(args: RegisterArgs, size: nat)
    requires size > 0
  {
    var shards := args.payloads.Normalize();
    forall i :: 0 <= i < |shards| ==> |shards[i].payloads| == |Chunks(args.tokens, size)|
  }

  /** The last registration of an id in a run, not counting those refused for their chunk counts. */
  function LatestRegister(run: seq<Timed>, cid: string, size: nat): Option<RegisterArgs>
    requires size > 0
  {
    if run == [] then None
    else
      var op := run[|run| - 1].op;
      if op.DoRegister? && op.args.Id() == cid && WellCounted(op.args, size) then Some(op.args)
      else LatestRegister(run[..|run| - 1], cid, size)
  }

  /** The id is written by registrations only, and each with the right chunk counts goes in. */
  ghost predicate RegisteredOnly(e: Engine, run: seq<Timed>, cid: string)
    requires e.Valid()
  {
    forall n :: 0 <= n < |run| && run[n].op.Writes(cid) ==>
      && run[n].op.DoRegister?
      && (WellCounted(run[n].op.args, e.chunkSize) ==>
            After(e, run[..n]).Register(run[n].op.args, run[n].now).result.Ok?)
  }

  /** A registration with wrong chunk counts changes nothing; one that succeeds has them right. */
  lemma {:induction false} CountsDecide(e: Engine, args: RegisterArgs, now: Time)
    requires e.Valid()
    ensures !WellCounted(args, e.chunkSize) ==> e.Register(args, now).engine == e
    ensures e.Register(args, now).result.Ok? ==> WellCounted(args, e.chunkSize)
  {
    hide PutAll, Entries, Chunks, Store.Valid;
  }

  /** Nothing in the run writes the id. */
  ghost predicate Untouched(run: seq<Timed>, cid: string) {
    forall n :: 0 <= n < |run| ==> !run[n].op.Writes(cid)
  }

  lemma {:induction false} RunFaithful(e: Engine, run: seq<Timed>, cid: string)
    requires e.Valid() && cid !in e.descs && RegisteredOnly(e, run, cid)
    ensures LatestRegister(run, cid, e.chunkSize).None? ==> cid !in After(e, run).descs
    ensures LatestRegister(run, cid, e.chunkSize).Some? ==>
      Faithful(After(e, run), cid, RecordOf(LatestRegister(run, cid, e.chunkSize).value))
  {
    assert e.chunkSize > 0;
    hide Faithful, RecordOf, Engine.Register, Engine.Valid;
    if run != [] {
      var past, last := run[..|run| - 1], run[|run| - 1];
      forall n | 0 <= n < |past| ensures past[..n] == run[..n] && past[n] == run[n] {}
      RunFaithful(e, past, cid);
      var before := After(e, past);
      StepValid(before, last.op, last.now);
      if last.op.Writes(cid) {
        CountsDecide(before, last.op.args, last.now);
        if WellCounted(last.op.args, e.chunkSize) {
          RegisterFaithful(before, last.op.args, last.now);
        }
      } else {
        StepCalm(before, last.op, last.now, cid);
        if LatestRegister(past, cid, e.chunkSize).Some? {
          CalmKeepsFaithful(before, After(e, run), cid, RecordOf(LatestRegister(past, cid, e.chunkSize).value));
        }
      }
    }
  }

  lemma {:induction false} UntouchedFaithful(e: Engine, run: seq<Timed>, cid: string, r: Record)
    requires e.Valid() && Faithful(e, cid, r) && Untouched(run, cid)
    ensures Faithful(After(e, run), cid, r)
  {
    hide Faithful, Engine.Valid, Step;
    if run != [] {
      var past, last := run[..|run| - 1], run[|run| - 1];
      UntouchedFaithful(e, past, cid, r);
      StepValid(After(e, past), last.op, last.now);
      StepCalm(After(e, past), last.op, last.now, cid);
      CalmKeepsFaithful(After(e, past), After(e, run), cid, r);
    }
  }

  // ---- what loads and lookups answer ------------------------------------------------------

  /** A load that returns gives the recorded payloads of the worker, in order. */
  lemma {:induction false} FaithfulLoad(
    e: Engine, cid: string, r: Record, numChunks: Option<int>, worker: int, now: Time)
    requires e.Valid() && Faithful(e, cid, r) && worker in r.workers
    ensures var out := e.Load(cid, numChunks, worker, now).result;
      var total := |Chunks(r.tokens, e.chunkSize)|;
      var count := if numChunks.None? then total else Min(numChunks.value, total);
      out.Ok? ==>
        && |out.value| == (if count < 0 then 0 else count)
        && forall i :: 0 <= i < |out.value| ==>
             ChunkKey(cid, i, worker) in r.table && out.value[i] == r.table[ChunkKey(cid, i, worker)]
  {
    hide Store.View, Store.Valid, GetRange, Chunks;
    if cid in e.descs {
      var d := e.descs[cid];
      var count := if numChunks.None? then d.NumChunks() else Min(numChunks.value, d.NumChunks());
      GetRangeView(e.store, cid, worker, 0, count);
      var out := GetRange(e.store, cid, worker, 0, count).result;
      if out.Ok? {
        forall i | 0 <= i < |out.value|
          ensures ChunkKey(cid, i, worker) in r.table && out.value[i] == r.table[ChunkKey(cid, i, worker)]
        {
          assert ChunkKey(cid, i, worker) in e.store.View();
          assert ChunkKey(cid, i, worker) in Restrict(e.store.View(), r.table.Keys);
        }
      }
    }
  }

  /**
   * Never wrong KV. Over any store, take any run in which every registration of an id succeeds, or
   * is refused for its chunk counts, and nothing else writes it. A load of that id for a registered
   * worker that returns at all returns exactly the leading payloads of its latest registration.
   */
  lemma {:induction false} NeverWrongKv(
    e: Engine, run: seq<Timed>, cid: string, numChunks: Option<int>, shard: Shard, now: Time)
    requires e.Valid() && cid !in e.descs && RegisteredOnly(e, run, cid)
    requires LatestRegister(run, cid, e.chunkSize).Some? ==>
      var shards := LatestRegister(run, cid, e.chunkSize).value.payloads.Normalize();
      DistinctWorkers(shards) && shard in shards
    ensures var out := After(e, run).Load(cid, numChunks, shard.worker, now).result;
      out.Ok? ==>
        && LatestRegister(run, cid, e.chunkSize).Some?
        && out.value <= shard.payloads
        && (numChunks.None? ==> out.value == shard.payloads)
        && (numChunks.Some? && 0 <= numChunks.value <= |shard.payloads| ==> |out.value| == numChunks.value)
        && (numChunks.Some? && numChunks.value >= |shard.payloads| ==> out.value == shard.payloads)
  {
    hide Engine.Register, Engine.Load, Entries, Chunks;
    RunFaithful(e, run, cid);
    var now_e := After(e, run);
    var out := now_e.Load(cid, numChunks, shard.worker, now).result;
    LoadNeedsDescriptor(now_e, cid, numChunks, shard.worker, now);
    if out.Ok? {
      var args := LatestRegister(run, cid, e.chunkSize).value;
      var shards, r := args.payloads.Normalize(), RecordOf(args);
      var s :| 0 <= s < |shards| && shards[s] == shard;
      assert Workers(shards)[s] == shard.worker;
      FaithfulLoad(now_e, cid, r, numChunks, shard.worker, now);
      RegisteredCounts(e, run, cid, s);
      forall i | 0 <= i < |out.value| ensures out.value[i] == shard.payloads[i] {
        EntriesMap(args.Id(), shards, ChunkKey(cid, i, shard.worker));
      }
    }
  }

  lemma {:induction false} LoadNeedsDescriptor(e: Engine, cid: string, numChunks: Option<int>, worker: int, now: Time)
    requires e.Valid()
    ensures e.Load(cid, numChunks, worker, now).result.Ok? ==> cid in e.descs
  {}

  /** The latest registration had one payload per chunk of its tokens for every worker. */
  lemma {:induction false} RegisteredCounts(e: Engine, run: seq<Timed>, cid: string, s: nat)
    requires e.Valid() && RegisteredOnly(e, run, cid) && LatestRegister(run, cid, e.chunkSize).Some?
    requires s < |LatestRegister(run, cid, e.chunkSize).value.payloads.Normalize()|
    ensures LatestRegister(run, cid, e.chunkSize).value.Id() == cid
    ensures var args := LatestRegister(run, cid, e.chunkSize).value;
      |args.payloads.Normalize()[s].payloads| == |Chunks(args.tokens, e.chunkSize)|
  {
    var past, last := run[..|run| - 1], run[|run| - 1];
    forall n | 0 <= n < |past| ensures past[..n] == run[..n] && past[n] == run[n] {}
    if !(last.op.DoRegister? && last.op.args.Id() == cid && WellCounted(last.op.args, e.chunkSize)) {
      RegisteredCounts(e, past, cid, s);
    }
  }

  /**
   * The prefix check. A lookup with request tokens counts only chunks whose tokens are, chunk by
   * chunk, those recorded for the id.
   */
  lemma {:induction false} LookupMatchesTokens(e: Engine, cid: string, r: Record, request: seq<Token>, now: Time)
    requires e.Valid() && Faithful(e, cid, r)
    ensures var found := e.Lookup(cid, Some(request), now).result;
      found.Ok? ==>
        var n := found.value.numChunks;
        && n <= |Chunks(request, e.chunkSize)| && n <= |Chunks(r.tokens, e.chunkSize)|
        && forall i :: 0 <= i < n ==> Chunks(request, e.chunkSize)[i] == Chunks(r.tokens, e.chunkSize)[i]
  {
    hide Store.View, Store.Valid, Chunks;
    if e.Lookup(cid, Some(request), now).result.Ok? {
      var a, b := Chunks(request, e.chunkSize), Chunks(r.tokens, e.chunkSize);
      var n := CommonPrefix(FingerprintsOf(a), FingerprintsOf(b));
      forall i | 0 <= i < n ensures a[i] == b[i] {
        FingerprintInjective(a[i], b[i]);
      }
    }
  }

  /**
   * No false matches over runs. After any run in which every registration of an id succeeds and
   * nothing else writes it, a lookup that returns matches tokens of the latest registration: the
   * chunks it counts are the leading chunks of both the request and the registered tokens.
   */
  lemma {:induction false} LookupsMatchLatest(e: Engine, run: seq<Timed>, cid: string, request: seq<Token>, now: Time)
    requires e.Valid() && cid !in e.descs && RegisteredOnly(e, run, cid)
    ensures var found := After(e, run).Lookup(cid, Some(request), now).result;
      found.Ok? ==>
        && LatestRegister(run, cid, e.chunkSize).Some?
        && var tokens, n := LatestRegister(run, cid, e.chunkSize).value.tokens, found.value.numChunks;
        && n <= |Chunks(request, e.chunkSize)| && n <= |Chunks(tokens, e.chunkSize)|
        && Chunks(request, e.chunkSize)[..n] == Chunks(tokens, e.chunkSize)[..n]
  {
    hide Engine.Register, Faithful, Chunks, MatchedChunks;
    RunFaithful(e, run, cid);
    if LatestRegister(run, cid, e.chunkSize).Some? {
      LookupMatchesTokens(After(e, run), cid, RecordOf(LatestRegister(run, cid, e.chunkSize).value), request, now);
    }
  }

  /**
   * The lookup in closed form. With `l` the longest common prefix of request and recorded
   * tokens: reuse is full exactly when the recording is a prefix of the request and either ends
   * on a chunk boundary or is the whole request; otherwise it is the whole chunks inside `l`.
   * Either way the reusable tokens are within one chunk below `l`.
   */
  lemma {:induction false} LookupClosedForm(e: Engine, cid: string, r: Record, request: seq<Token>, now: Time)
    requires e.Valid() && Faithful(e, cid, r)
    ensures var found := e.Lookup(cid, Some(request), now).result;
      var l, size := CommonPrefix(request, r.tokens), e.chunkSize;
      found.Ok? ==>
        && (found.value.full <==>
              r.tokens <= request && (|r.tokens| % size == 0 || |r.tokens| == |request|))
        && (found.value.full ==>
              found.value.numTokens == |r.tokens| && found.value.numChunks == CeilDiv(|r.tokens|, size))
        && (!found.value.full ==>
              found.value.numChunks == l / size && found.value.numTokens == l / size * size)
        && l - size < found.value.numTokens <= l
  {
    hide Store.View, Store.Valid, Chunks, MatchedChunks, CommonPrefix;
    var size := e.chunkSize;
    if e.Lookup(cid, Some(request), now).result.Ok? {
      MatchedChunksClosedForm(request, r.tokens, size);
      ChunksPartition(r.tokens, size);
      LookupArithmetic(request, r.tokens, size);
    }
  }

  lemma {:induction false} PrefixIsCommon(a: seq<Token>, b: seq<Token>)
    ensures b <= a <==> CommonPrefix(a, b) == |b|
  {}

  /** Whole chunks inside a shorter prefix never fill up a longer sequence's chunk count. */
  lemma {:induction false} LookupArithmetic(request: seq<Token>, tokens: seq<Token>, size: nat)
    requires size > 0
    ensures var l := CommonPrefix(request, tokens);
      var matched := if request == tokens then CeilDiv(l, size) else l / size;
      && (matched == CeilDiv(|tokens|, size) <==>
            tokens <= request && (|tokens| % size == 0 || |tokens| == |request|))
      && (matched != CeilDiv(|tokens|, size) ==> matched == l / size)
      && (tokens <= request ==> l == |tokens|)
      && l / size * size <= l < l / size * size + size
  {
    var l := CommonPrefix(request, tokens);
    PrefixIsCommon(request, tokens);
    CeilDivIsFloor(l, size);
    CeilDivIsFloor(|tokens|, size);
    if l < |tokens| {
      QuotientBelow(l, |tokens|, size);
    } else if |tokens| == |request| {
      assert request == tokens;
    }
  }
}
