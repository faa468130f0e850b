/**
 * What the explicit-cache engine means (src/llmcache/engine.py), as functions on values.
 *
 * Every operation takes the clock reading it makes as a parameter, and returns the engine it
 * leaves together with its result or exception; an operation that raises may have changed state.
 */
module Engine {
  import opened Wrappers
  import opened Payloads
  import opened Types
  import opened Tiers

  /** The exceptions of errors.py, and the ValueError of a wrong payload count. */
  datatype Error = NotFound | Expired | Mismatch | StorageFull | BadChunkCount

  // ---- registration input -----------------------------------------------------------------

  /** One worker's payloads; a mapping is the sequence of its items in insertion order. */
  datatype Shard = Shard(worker: int, payloads: seq<Payload>)

  datatype PayloadsArg = Single(payloads: seq<Payload>) | ByWorker(shards: seq<Shard>)
  {
    function Normalize(): seq<Shard> {
      match this
      case Single(ps) => [Shard(0, ps)]
      case ByWorker(shards) => shards
    }
  }

  datatype Entry = Entry(key: ChunkKey, payload: Payload)

  function ShardEntries(cid: string, shard: Shard): (es: seq<Entry>)
    ensures |es| == |shard.payloads|
    ensures forall i :: 0 <= i < |es| ==> es[i] == Entry(ChunkKey(cid, i, shard.worker), shard.payloads[i])
  {
    seq(|shard.payloads|, i requires 0 <= i < |shard.payloads| =>
      Entry(ChunkKey(cid, i, shard.worker), shard.payloads[i]))
  }

  /** The puts a registration makes, in order. */
  function Entries(cid: string, shards: seq<Shard>): seq<Entry> {
    if shards == [] then [] else ShardEntries(cid, shards[0]) + Entries(cid, shards[1..])
  }

  /** The last payload put under each key. */
  function EntryMap(es: seq<Entry>): map<ChunkKey, Payload> {
    if es == [] then map[] else map[es[0].key := es[0].payload] + EntryMap(es[1..])
  }

  /** The largest layer count seen, starting from one already held. */
  function LayersFrom(layers: int, es: seq<Entry>): (m: int)
    ensures m >= layers && forall i :: 0 <= i < |es| ==> es[i].payload.numLayers <= m
    ensures m == layers || exists i :: 0 <= i < |es| && es[i].payload.numLayers == m
    decreases es
  {
    if es == [] then layers
    else
      var first := es[0].payload.numLayers;
      var m := LayersFrom(if first > layers then first else layers, es[1..]);
      assert forall i :: 1 <= i < |es| ==> es[i] == es[1..][i - 1];
      m
  }

  function Workers(shards: seq<Shard>): (ws: seq<int>)
    ensures |ws| == |shards|
    ensures forall i :: 0 <= i < |ws| ==> ws[i] == shards[i].worker
  {
    seq(|shards|, i requires 0 <= i < |shards| => shards[i].worker)
  }

  ghost predicate Ascending(ws: seq<int>) {
    forall i, j :: 0 <= i < j < |ws| ==> ws[i] <= ws[j]
  }

  function Insert(w: int, ws: seq<int>): (r: seq<int>)
    ensures forall x :: x in r <==> x == w || x in ws
  {
    if ws == [] || w <= ws[0] then [w] + ws else [ws[0]] + Insert(w, ws[1..])
  }

  /** `tuple(sorted(..))`. */
  function Sorted(ws: seq<int>): (r: seq<int>)
    ensures forall x :: x in r <==> x in ws
  {
    if ws == [] then [] else Insert(ws[0], Sorted(ws[1..]))
  }

  lemma {:induction false} InsertAscends(w: int, ws: seq<int>)
    requires Ascending(ws)
    ensures Ascending(Insert(w, ws))
  {
    if ws != [] && w > ws[0] {
      InsertAscends(w, ws[1..]);
      var rest := Insert(w, ws[1..]);
      forall i | 0 <= i < |rest| ensures ws[0] <= rest[i] {
        assert rest[i] in rest;
      }
    }
  }

  lemma {:induction false} InsertKeeps(w: int, ws: seq<int>)
    ensures multiset(Insert(w, ws)) == multiset(ws) + multiset{w}
  {
    if ws != [] && w > ws[0] {
      InsertKeeps(w, ws[1..]);
      assert ws == [ws[0]] + ws[1..];
    }
  }

  /** The workers of a descriptor are those registered, in ascending order, each as often. */
  lemma {:induction false} SortedSorts(ws: seq<int>)
    ensures Ascending(Sorted(ws)) && multiset(Sorted(ws)) == multiset(ws)
  {
    if ws != [] {
      SortedSorts(ws[1..]);
      InsertAscends(ws[0], Sorted(ws[1..]));
      InsertKeeps(ws[0], Sorted(ws[1..]));
      assert ws == [ws[0]] + ws[1..];
    }
  }

  datatype RegisterArgs = RegisterArgs(
    tokens: seq<Token>,
    payloads: PayloadsArg,
    cacheId: Option<string>,
    freshId: string,
    ttl: Option<Time>,
    pin: bool)
  {
    /** `cache_id or new_id()`: an empty id counts as none. */
    function Id(): string {
      if cacheId.Some? && cacheId.value != "" then cacheId.value else freshId
    }

    function ToPut(): seq<Entry> {
      Entries(Id(), payloads.Normalize())
    }
  }

  datatype LookupResult = LookupResult(cacheId: string, numTokens: nat, numChunks: nat, full: bool)

  // ---- store folds ------------------------------------------------------------------------

  /** Puts in order, stopping at the first that raises. */
  function PutAll(s: Store, es: seq<Entry>, pin: bool): (r: Stored)
    requires s.Valid()
    ensures r.store.Valid()
    decreases es
  {
    if es == [] then Stored(s, true)
    else
      var r := s.Put(es[0].key, es[0].payload, pin);
      PutViewAny(s, es[0].key, es[0].payload, pin);
      if !r.ok then r else PutAll(r.store, es[1..], pin)
  }

  datatype Loaded = Loaded(store: Store, result: Result<seq<Payload>, Error>)

  /** The gets of `load`, from chunk `idx` up to `count`. */
  function GetRange(s: Store, cid: string, worker: int, idx: nat, count: int): (r: Loaded)
    requires s.Valid()
    ensures r.store.Valid()
    decreases count - idx
  {
    if idx >= count then Loaded(s, Ok([]))
    else
      var g := s.Get(ChunkKey(cid, idx, worker));
      GetView(s, ChunkKey(cid, idx, worker));
      match g.result
      case Miss => Loaded(g.store, Err(Mismatch))
      case Full => Loaded(g.store, Err(StorageFull))
      case Hit(obj) =>
        var rest := GetRange(g.store, cid, worker, idx + 1, count);
        match rest.result
        case Ok(objs) => rest.(result := Ok([obj] + objs))
        case Err(_) => rest
  }

  /** `_build_descriptor`: the engine's chunk size and default lifetime fill in what the caller leaves. */
  function BuildDescriptor(
    chunkSize: nat, defaultTtl: Option<Time>,
    cid: string, tokens: seq<Token>, numLayers: int, workers: seq<int>, ttl: Option<Time>, pin: bool, now: Time)
    : Descriptor
    requires chunkSize > 0
  {
    var chunks := Chunks(tokens, chunkSize);
    var effective := if ttl.Some? then ttl else defaultTtl;
    Descriptor(cid, TotalLength(chunks), chunkSize, numLayers, Sorted(workers), now,
      if effective.Some? then Some(now + effective.value) else None, pin, FingerprintsOf(chunks))
  }

  // ---- the engine -------------------------------------------------------------------------

  datatype Outcome<+T> = Outcome(engine: Engine, result: Result<T, Error>)

  datatype Engine = Engine(
    store: Store,
    descs: map<string, Descriptor>,
    chunkSize: nat,
    defaultTtl: Option<Time>)
  {
    ghost predicate Valid() {
      && store.Valid()
      && chunkSize > 0
      && forall c :: c in descs ==> descs[c].cacheId == c && descs[c].chunkSize == chunkSize
    }

    function Describe(
      cid: string, tokens: seq<Token>, numLayers: int, workers: seq<int>, ttl: Option<Time>, pin: bool, now: Time)
      : Descriptor
      requires chunkSize > 0
    {
      BuildDescriptor(chunkSize, defaultTtl, cid, tokens, numLayers, workers, ttl, pin, now)
    }

    function Register(args: RegisterArgs, now: Time): Outcome<Descriptor>
      requires Valid()
    {
      var shards := args.payloads.Normalize();
      if exists i :: 0 <= i < |shards| && |shards[i].payloads| != |Chunks(args.tokens, chunkSize)| then
        Outcome(this, Err(BadChunkCount))
      else
        var r := PutAll(store, args.ToPut(), args.pin);
        if !r.ok then Outcome(this.(store := r.store), Err(StorageFull))
        else
          var d := Describe(args.Id(), args.tokens, LayersFrom(0, args.ToPut()), Workers(shards),
            args.ttl, args.pin, now);
          Outcome(this.(store := r.store, descs := descs[args.Id() := d]), Ok(d))
    }

    function PutChunk(cid: string, idx: int, payload: Payload, worker: int, pin: bool): Outcome<()>
      requires Valid()
    {
      var r := store.Put(ChunkKey(cid, idx, worker), payload, pin);
      Outcome(this.(store := r.store), if r.ok then Ok(()) else Err(StorageFull))
    }

    function Commit(
      cid: string, tokens: seq<Token>, numLayers: int, workers: seq<int>, ttl: Option<Time>, pin: bool, now: Time)
      : Outcome<Descriptor>
      requires Valid()
    {
      var d := Describe(cid, tokens, numLayers, workers, ttl, pin, now);
      Outcome(this.(descs := descs[cid := d]), Ok(d))
    }

    function Delete(cid: string): Engine {
      if cid in descs then
        this.(descs := descs - {cid}, store := store.Remove(descs[cid].Keys()))
      else this
    }

    /** `_live_descriptor`: an expired cache is deleted by whoever finds it. */
    function Live(cid: string, now: Time): Outcome<Descriptor> {
      if cid !in descs then Outcome(this, Err(NotFound))
      else if descs[cid].ExpiredAt(now) then Outcome(Delete(cid), Err(Expired))
      else Outcome(this, Ok(descs[cid]))
    }

    function Lookup(cid: string, request: Option<seq<Token>>, now: Time): Outcome<LookupResult>
      requires Valid()
    {
      var live := Live(cid, now);
      match live.result
      case Err(e) => Outcome(live.engine, Err(e))
      case Ok(d) =>
        var matched :=
          if request.None? then d.NumChunks()
          else MatchedChunks(request.value, d.chunkSize, d.fingerprints);
        var full := matched == d.NumChunks();
        Outcome(this, Ok(LookupResult(cid, if full then d.numTokens else matched * d.chunkSize, matched, full)))
    }

    function Load(cid: string, numChunks: Option<int>, worker: int, now: Time): Outcome<seq<Payload>>
      requires Valid()
    {
      var live := Live(cid, now);
      match live.result
      case Err(e) => Outcome(live.engine, Err(e))
      case Ok(d) =>
        var count := if numChunks.None? then d.NumChunks() else Min(numChunks.value, d.NumChunks());
        var r := GetRange(store, cid, worker, 0, count);
        Outcome(this.(store := r.store), r.result)
    }

    function ExtendTtl(cid: string, ttl: Time, now: Time): Outcome<Descriptor> {
      var live := Live(cid, now);
      match live.result
      case Err(e) => live
      case Ok(d) =>
        var d' := d.(expiresAt := Some(now + ttl));
        Outcome(this.(descs := descs[cid := d']), Ok(d'))
    }

    function PinCache(cid: string, now: Time): Outcome<()> {
      var live := Live(cid, now);
      match live.result
      case Err(e) => Outcome(live.engine, Err(e))
      case Ok(d) =>
        Outcome(this.(descs := descs[cid := d.(pinned := true)], store := store.Pin(d.Keys())), Ok(()))
    }

    function UnpinCache(cid: string, now: Time): Outcome<()> {
      var live := Live(cid, now);
      match live.result
      case Err(e) => Outcome(live.engine, Err(e))
      case Ok(d) =>
        Outcome(this.(descs := descs[cid := d.(pinned := false)], store := store.Unpin(d.Keys())), Ok(()))
    }

    /** The caches a sweep at `now` finds expired. */
    function ExpiredIds(now: Time): set<string> {
      set c | c in descs && descs[c].IsExpired(Some(now), now)
    }

    /** All chunk keys of a set of registered caches. */
    function KeysOf(ids: set<string>): set<ChunkKey>
      requires ids <= descs.Keys
    {
      set c, k | c in ids && k in descs[c].Keys() :: k
    }

    function Sweep(now: Time): Outcome<nat> {
      var ids := ExpiredIds(now);
      Outcome(this.(descs := descs - ids, store := store.Remove(KeysOf(ids))), Ok(|ids|))
    }
  }

  // ---- one step ---------------------------------------------------------------------------

  datatype Op =
    | DoRegister(args: RegisterArgs)
    | DoPutChunk(cid: string, idx: int, payload: Payload, worker: int, pin: bool)
    | DoCommit(cid: string, tokens: seq<Token>, numLayers: int, workers: seq<int>, ttl: Option<Time>, pin: bool)
    | DoLookup(cid: string, request: Option<seq<Token>>)
    | DoLoad(cid: string, numChunks: Option<int>, worker: int)
    | DoGet(cid: string)
    | DoExtendTtl(cid: string, extension: Time)
    | DoPin(cid: string)
    | DoUnpin(cid: string)
    | DoDelete(cid: string)
    | DoSweep
    | ColdExpiry(key: ChunkKey)
  {
    /** Writing an id: putting chunks under it or publishing a descriptor for it. */
    predicate Writes(c: string) {
      match this
      case DoRegister(args) => args.Id() == c
      case DoPutChunk(cid, _, _, _, _) => cid == c
      case DoCommit(cid, _, _, _, _, _) => cid == c
      case _ => false
    }
  }

  /** `get` and `exists` both come down to `_live_descriptor`; a listing is a sweep. */
  function Step(e: Engine, op: Op, now: Time): Engine
    requires e.Valid()
  {
    match op
    case DoRegister(args) => e.Register(args, now).engine
    case DoPutChunk(cid, idx, payload, worker, pin) => e.PutChunk(cid, idx, payload, worker, pin).engine
    case DoCommit(cid, tokens, layers, workers, ttl, pin) =>
      e.Commit(cid, tokens, layers, workers, ttl, pin, now).engine
    case DoLookup(cid, request) => e.Lookup(cid, request, now).engine
    case DoLoad(cid, numChunks, worker) => e.Load(cid, numChunks, worker, now).engine
    case DoGet(cid) => e.Live(cid, now).engine
    case DoExtendTtl(cid, ttl) => e.ExtendTtl(cid, ttl, now).engine
    case DoPin(cid) => e.PinCache(cid, now).engine
    case DoUnpin(cid) => e.UnpinCache(cid, now).engine
    case DoDelete(cid) => e.Delete(cid)
    case DoSweep => e.Sweep(now).engine
    case ColdExpiry(key) => e.(store := e.store.Expire(key))
  }

  lemma {:induction false} DeleteValid(e: Engine, cid: string)
    requires e.Valid()
    ensures e.Delete(cid).Valid()
  {
    if cid in e.descs {
      RemoveView(e.store, e.descs[cid].Keys());
    }
  }

  lemma {:induction false} StepValid(e: Engine, op: Op, now: Time)
    requires e.Valid()
    ensures Step(e, op, now).Valid()
    ensures Step(e, op, now).chunkSize == e.chunkSize && Step(e, op, now).defaultTtl == e.defaultTtl
  {
    hide Engine.Delete, Descriptor.Keys, Descriptor.ExpiredAt, Store.Valid, Store.Put, Store.Remove, Store.Get,
      Store.Pin, Store.Unpin, Store.Expire, PutAll, GetRange, Chunks, MatchedChunks;
    match op
    case DoRegister(_) =>
    case DoPutChunk(cid, idx, payload, worker, pin) =>
      PutViewAny(e.store, ChunkKey(cid, idx, worker), payload, pin);
    case DoCommit(_, _, _, _, _, _) =>
    case DoSweep => RemoveView(e.store, e.KeysOf(e.ExpiredIds(now)));
    case ColdExpiry(key) => ExpireValid(e.store, key);
    case _ =>
      DeleteValid(e, op.cid);
      DeleteFrame(e, op.cid);
      if op.cid in e.descs {
        PinView(e.store, e.descs[op.cid].Keys());
      }
  }

  lemma {:induction false} ExpireValid(s: Store, key: ChunkKey)
    ensures s.Valid() ==> s.Expire(key).Valid()
  {}

  lemma {:induction false} DeleteFrame(e: Engine, cid: string)
    ensures e.Delete(cid).chunkSize == e.chunkSize && e.Delete(cid).defaultTtl == e.defaultTtl
  {}

  datatype Timed = Timed(op: Op, now: Time)

  /** The engine after a run of operations, each at its own clock reading. */
  function After(e: Engine, run: seq<Timed>): (r: Engine)
    requires e.Valid()
    ensures r.Valid() && r.chunkSize == e.chunkSize
  {
    if run == [] then e
    else
      var last := run[|run| - 1];
      var before := After(e, run[..|run| - 1]);
      StepValid(before, last.op, last.now);
      Step(before, last.op, last.now)
  }
}
