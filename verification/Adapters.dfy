/**
 * The connectors as they run (src/llmcache/connectors/sglang.py, vllm.py): objects holding an
 * engine, an optional transfer and, for vLLM, the staging dictionaries and bound metadata.
 */
module Adapters {
  import opened Wrappers
  import opened Payloads
  import opened Arithmetic
  import opened Types
  import opened Tiers
  import opened Engine
  import opened Transfer
  import opened Connectors
  import opened KvCache

  /** The `put_chunk` loop both connectors run before they commit. */
  method PutChunks(engine: ExplicitKVCache, cid: string, payloads: seq<Payload>, pin: bool) returns (ok: bool)
    requires engine.Valid()
    modifies engine.Repr()
    ensures engine.Valid() && old(engine.Value()).Valid()
    ensures var p := PutAll(old(engine.Value()).store, ShardEntries(cid, Shard(0, payloads)), pin);
      ok == p.ok && engine.Value() == old(engine.Value()).(store := p.store)
  {
    hide Store.Put, Store.Valid;
    ghost var e0, es := engine.Value(), ShardEntries(cid, Shard(0, payloads));
    for idx := 0 to |payloads|
      invariant engine.Valid() && engine.Value() == e0.(store := engine.Value().store)
      invariant PutAll(engine.Value().store, es[idx..], pin) == PutAll(e0.store, es, pin)
    {
      assert es[idx..][0] == Entry(ChunkKey(cid, idx, 0), payloads[idx]);
      assert es[idx..][1..] == es[idx + 1..];
      var r := engine.PutChunk(cid, idx, payloads[idx], 0, pin);
      if r.Err? {
        return false;
      }
    }
    return true;
  }

  /** Save a buffer's blocks and commit; shared by `store` and `wait_for_save`. */
  method SaveInto(
    engine: ExplicitKVCache, transfer: DictKVTransfer, cid: string, tokens: seq<Token>, ids: seq<int>,
    ttl: Option<Time>, pin: bool, now: Time) returns (r: Result<nat, ConnError>)
    requires engine.Valid()
    modifies engine.Repr()
    ensures engine.Valid() && old(engine.Value()).Valid()
    ensures var ran := SaveTokens(
      old(engine.Value()), old(transfer.blocks), LayoutOf(transfer), cid, tokens, ids, ttl, pin, now);
      engine.Value() == ran.engine && r == ran.result
  {
    hide Store.Valid, PutAll, SaveFrom, BuildDescriptor;
    var numChunks := CeilDiv(|tokens|, engine.chunkSize);
    var payloads := transfer.SaveBlocks(ids, numChunks);
    if payloads.Err? {
      return Err(TransferFailed(payloads.error));
    }
    var ok := PutChunks(engine, cid, payloads.value, pin);
    if !ok {
      return Err(EngineError(StorageFull));
    }
    var _ := engine.Commit(cid, tokens, transfer.numLayers, [0], ttl, pin, now);
    return Ok(|payloads.value|);
  }

  function LayoutOf(transfer: DictKVTransfer): Layout {
    Layout(transfer.blockSize, transfer.chunkSize, transfer.numLayers)
  }

  class SGLangExplicitCache {
    const engine: ExplicitKVCache
    const transfer: DictKVTransfer?

    constructor (engine: ExplicitKVCache, transfer: DictKVTransfer?)
      ensures this.engine == engine && this.transfer == transfer
    {
      this.engine, this.transfer := engine, transfer;
    }

    function Buffer(): set<object> {
      if transfer == null then {} else {transfer}
    }

    method StoreTokens(cid: string, tokens: seq<Token>, ids: seq<int>, ttl: Option<Time>, pin: bool, now: Time)
      returns (r: Result<nat, ConnError>)
      requires engine.Valid()
      modifies engine.Repr()
      ensures engine.Valid() && old(engine.Value()).Valid()
      ensures transfer == null ==> r == Err(NoTransfer) && engine.Value() == old(engine.Value())
      ensures transfer != null ==>
        var ran := SaveTokens(
          old(engine.Value()), old(transfer.blocks), LayoutOf(transfer), cid, tokens, ids, ttl, pin, now);
        engine.Value() == ran.engine && r == ran.result
    {
      if transfer == null {
        return Err(NoTransfer);
      }
      r := SaveInto(engine, transfer, cid, tokens, ids, ttl, pin, now);
    }

    /** The three engine calls read the clock at t0, t1 and t2. */
    method RetrieveTokens(cid: string, ids: seq<int>, request: Option<seq<Token>>, t0: Time, t1: Time, t2: Time)
      returns (r: Result<nat, ConnError>)
      requires engine.Valid() && engine.Repr() !! Buffer()
      modifies engine.Repr(), Buffer()
      ensures engine.Valid() && old(engine.Value()).Valid()
      ensures transfer == null ==> r == Err(NoTransfer) && engine.Value() == old(engine.Value())
      ensures transfer != null ==>
        var ran := Retrieve(
          old(engine.Value()), old(transfer.blocks), LayoutOf(transfer), cid, ids, request, t0, t1, t2);
        engine.Value() == ran.engine && transfer.blocks == ran.blocks && r == ran.result
    {
      hide Store.Valid, Engine.Live, Engine.Lookup, Engine.Load, Engine.Delete, LoadInto, BlocksPerChunk;
      if transfer == null {
        return Err(NoTransfer);
      }
      var found := engine.Exists(cid, t0);
      if !found {
        return Ok(0);
      }
      var hit := engine.Lookup(cid, request, t1);
      if hit.Err? {
        return Err(EngineError(hit.error));
      }
      var payloads := engine.Load(cid, Some(hit.value.numChunks), 0, t2);
      if payloads.Err? {
        return Err(EngineError(payloads.error));
      }
      var written := transfer.LoadBlocks(ids, payloads.value);
      if written.Err? {
        return Err(TransferFailed(written.error));
      }
      return Ok(hit.value.numTokens);
    }
  }

  /** `ExplicitConnectorMetadata`: what the scheduler side hands to the workers. */
  datatype Metadata = Metadata(loads: seq<LoadOp>, saves: seq<SaveOp>)

  class ExplicitLMCacheConnector {
    const engine: ExplicitKVCache
    const transfer: DictKVTransfer?
    var pending: Pending
    var bound: Option<Metadata>

    constructor (engine: ExplicitKVCache, transfer: DictKVTransfer?)
      ensures this.engine == engine && this.transfer == transfer
      ensures pending == Pending([], []) && bound == None
    {
      this.engine, this.transfer := engine, transfer;
      pending, bound := Pending([], []), None;
    }

    function Buffer(): set<object> {
      if transfer == null then {} else {transfer}
    }

    ghost predicate Valid()
      reads engine.Repr()
    {
      engine.Valid() && this !in engine.Repr() && engine.Repr() !! Buffer()
    }

    method GetNumNewMatchedTokens(request: Request, computed: int, t0: Time, t1: Time)
      returns (r: Result<int, Error>)
      requires Valid()
      modifies engine.Repr()
      ensures Valid() && old(engine.Value()).Valid()
      ensures var matched := NumNewMatched(old(engine.Value()), request, computed, t0, t1);
        engine.Value() == matched.engine && r == matched.result
    {
      hide Store.Valid, Engine.Lookup, Engine.Delete;
      if request.CacheId().None? {
        return Ok(0);
      }
      var cid := request.CacheId().value;
      var found := engine.Exists(cid, t0);
      if !found {
        return Ok(0);
      }
      var hit := engine.Lookup(cid, Some(request.Prompt()), t1);
      if hit.Err? {
        return Err(hit.error);
      }
      var external := hit.value.numTokens - computed;
      return Ok(if external > 0 then external else 0);
    }

    method UpdateStateAfterAlloc(request: Request, blocks: KVBlocks, external: int, t: Time)
      requires Valid()
      modifies this, engine.Repr()
      ensures Valid() && old(engine.Value()).Valid() && bound == old(bound)
      ensures var staged := UpdateAfterAlloc(old(engine.Value()), old(pending), request, blocks, external, t);
        engine.Value() == staged.engine && pending == staged.pending
    {
      hide Store.Valid, Engine.Delete, Stage;
      if request.CacheId().None? {
        return;
      }
      var cid, ids := request.CacheId().value, blocks.Ids();
      if external > 0 {
        var found := engine.Exists(cid, t);
        if found {
          var numChunks := CeilDiv(external, engine.chunkSize);
          var op := ForRequest(request.requestId, LoadPlan(cid, ids, numChunks));
          pending := pending.(loads := Stage(pending.loads, op));
        }
      }
      if request.params.value.save {
        var plan := SavePlan(cid, request.Prompt(), ids, request.params.value.ttl, request.params.value.pin);
        var op := ForRequest(request.requestId, plan);
        pending := pending.(saves := Stage(pending.saves, op));
      }
    }

    /** Everything staged leaves with the metadata; the dictionaries are empty afterwards. */
    method BuildConnectorMeta() returns (meta: Metadata)
      modifies this
      ensures meta == Metadata(old(pending).loads, old(pending).saves)
      ensures pending == Pending([], []) && bound == old(bound)
    {
      meta := Metadata(pending.loads, pending.saves);
      pending := Pending([], []);
    }

    method BindConnectorMetadata(meta: Metadata)
      modifies this
      ensures bound == Some(meta) && pending == old(pending)
    {
      bound := Some(meta);
    }

    /** The load of operation i reads the clock at times[i]. */
    method StartLoadKv(times: seq<Time>) returns (r: Result<nat, ConnError>)
      requires Valid() && (bound.Some? ==> |times| == |bound.value.loads|)
      modifies engine.Repr(), Buffer()
      ensures Valid() && old(engine.Value()).Valid()
      ensures bound.None? || transfer == null ==> r == Ok(0) && engine.Value() == old(engine.Value())
      ensures bound.None? && transfer != null ==> transfer.blocks == old(transfer.blocks)
      ensures bound.Some? && transfer != null ==>
        var ran := StartLoad(old(engine.Value()), old(transfer.blocks), LayoutOf(transfer), bound.value.loads, times);
        engine.Value() == ran.engine && transfer.blocks == ran.blocks && r == ran.result
    {
      hide Store.Valid, Engine.Load, LoadInto, BlocksPerChunk;
      if bound.None? || transfer == null {
        return Ok(0);
      }
      var loads := bound.value.loads;
      ghost var all := StartLoad(engine.Value(), transfer.blocks, LayoutOf(transfer), loads, times);
      for i := 0 to |loads|
        invariant Valid()
        invariant StartLoad(engine.Value(), transfer.blocks, LayoutOf(transfer), loads[i..], times[i..]) == all
      {
        assert loads[i..][1..] == loads[i + 1..] && times[i..][1..] == times[i + 1..];
        var payloads := engine.Load(loads[i].plan.cacheId, Some(loads[i].plan.numChunks), 0, times[i]);
        if payloads.Err? {
          return Err(EngineError(payloads.error));
        }
        var written := transfer.LoadBlocks(loads[i].plan.blockIds, payloads.value);
        if written.Err? {
          return Err(TransferFailed(written.error));
        }
      }
      return Ok(0);
    }

    method WaitForSaves(times: seq<Time>) returns (r: Result<nat, ConnError>)
      requires Valid() && (bound.Some? ==> |times| == |bound.value.saves|)
      modifies engine.Repr()
      ensures Valid() && old(engine.Value()).Valid()
      ensures bound.None? || transfer == null ==> r == Ok(0) && engine.Value() == old(engine.Value())
      ensures bound.Some? && transfer != null ==>
        var ran := WaitForSave(old(engine.Value()), old(transfer.blocks), LayoutOf(transfer), bound.value.saves, times);
        engine.Value() == ran.engine && r == ran.result
    {
      hide Store.Valid, SaveTokens;
      if bound.None? || transfer == null {
        return Ok(0);
      }
      var saves := bound.value.saves;
      ghost var all := WaitForSave(engine.Value(), transfer.blocks, LayoutOf(transfer), saves, times);
      for i := 0 to |saves|
        invariant Valid()
        invariant WaitForSave(engine.Value(), transfer.blocks, LayoutOf(transfer), saves[i..], times[i..]) == all
      {
        assert saves[i..][1..] == saves[i + 1..] && times[i..][1..] == times[i + 1..];
        var op := saves[i].plan;
        var saved := SaveInto(engine, transfer, op.cacheId, op.tokenIds, op.blockIds, op.ttl, op.pin, times[i]);
        if saved.Err? {
          return saved;
        }
      }
      return Ok(0);
    }
  }
}
