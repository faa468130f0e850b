/**
 * What the vLLM and SGLang connectors compute (src/llmcache/connectors/vllm.py, sglang.py).
 */
module Connectors {
  import opened Wrappers
  import opened Payloads
  import opened Arithmetic
  import opened Types
  import opened Engine
  import opened Transfer

  /** An engine exception, a transfer exception, or the RuntimeError of a missing transfer. */
  datatype ConnError = EngineError(engineError: Error) | TransferFailed(transferError: TransferError) | NoTransfer

  /** The numbers of a transfer that the connectors use besides its blocks. */
  datatype Layout = Layout(blockSize: nat, chunkSize: nat, numLayers: int)
  {
    function Bpc(): Result<nat, TransferError> {
      BlocksPerChunk(blockSize, chunkSize)
    }
  }

  // ---- saving -----------------------------------------------------------------------------

  /** One `put_chunk` per payload, for worker 0, then `commit`. */
  function SaveCache(
    e: Engine, cid: string, tokens: seq<Token>, payloads: seq<Payload>, numLayers: int,
    ttl: Option<Time>, pin: bool, now: Time): (r: Outcome<Descriptor>)
    requires e.Valid()
    ensures r.engine.Valid() && r.engine.chunkSize == e.chunkSize
  {
    var r := PutAll(e.store, ShardEntries(cid, Shard(0, payloads)), pin);
    var e' := e.(store := r.store);
    if !r.ok then Outcome(e', Err(StorageFull))
    else
      StepValid(e', DoCommit(cid, tokens, numLayers, [0], ttl, pin), now);
      e'.Commit(cid, tokens, numLayers, [0], ttl, pin, now)
  }

  datatype Ran = Ran(engine: Engine, blocks: Blocks, result: Result<nat, ConnError>)

  /** `SGLangExplicitCache.store`; also one save of `wait_for_save`. The result is the chunk count. */
  function SaveTokens(
    e: Engine, blocks: Blocks, layout: Layout, cid: string, tokens: seq<Token>, ids: seq<int>,
    ttl: Option<Time>, pin: bool, now: Time): (r: Ran)
    requires e.Valid()
    ensures r.engine.Valid() && r.engine.chunkSize == e.chunkSize && r.blocks == blocks
  {
    var numChunks := CeilDiv(|tokens|, e.chunkSize);
    match layout.Bpc()
    case Err(x) => Ran(e, blocks, Err(TransferFailed(x)))
    case Ok(bpc) =>
      var payloads := SaveFrom(blocks, ids, numChunks, bpc, layout.chunkSize, layout.numLayers);
      var r := SaveCache(e, cid, tokens, payloads, layout.numLayers, ttl, pin, now);
      Ran(r.engine, blocks, if r.result.Ok? then Ok(|payloads|) else Err(EngineError(r.result.error)))
  }

  // ---- SGLang -----------------------------------------------------------------------------

  /** `SGLangExplicitCache.retrieve`; the three engine calls read the clock one after the other. */
  function Retrieve(
    e: Engine, blocks: Blocks, layout: Layout, cid: string, ids: seq<int>, request: Option<seq<Token>>,
    t0: Time, t1: Time, t2: Time): Ran
    requires e.Valid()
  {
    var e1 := e.Live(cid, t0).engine;
    StepValid(e, DoGet(cid), t0);
    if e.Live(cid, t0).result.Err? then Ran(e1, blocks, Ok(0))
    else
      var found := e1.Lookup(cid, request, t1);
      StepValid(e1, DoLookup(cid, request), t1);
      match found.result
      case Err(x) => Ran(found.engine, blocks, Err(EngineError(x)))
      case Ok(hit) =>
        var loaded := found.engine.Load(cid, Some(hit.numChunks), 0, t2);
        match loaded.result
        case Err(x) => Ran(loaded.engine, blocks, Err(EngineError(x)))
        case Ok(payloads) =>
          match layout.Bpc()
          case Err(x) => Ran(loaded.engine, blocks, Err(TransferFailed(x)))
          case Ok(bpc) => Ran(loaded.engine, LoadInto(blocks, ids, payloads, bpc, 0), Ok(hit.numTokens))
  }

  // ---- vLLM: requests and staging ---------------------------------------------------------

  datatype XferParams = XferParams(cacheId: Option<string>, save: bool, ttl: Option<Time>, pin: bool)

  datatype Request = Request(
    requestId: string,
    params: Option<XferParams>,
    promptTokens: Option<seq<Token>>,
    allTokens: Option<seq<Token>>)
  {
    /** The cache id, where an absent or empty one opts out. */
    function CacheId(): (id: Option<string>)
      ensures forall c :: id == Some(c) <==> c != "" && params.Some? && params.value.cacheId == Some(c)
    {
      if params.Some? && params.value.cacheId.Some? && params.value.cacheId.value != "" then params.value.cacheId
      else None
    }

    /** `_prompt_tokens`. */
    function Prompt(): (tokens: seq<Token>)
      ensures promptTokens.Some? ==> promptTokens == Some(tokens)
      ensures promptTokens.None? && allTokens.Some? ==> allTokens == Some(tokens)
      ensures promptTokens.None? && allTokens.None? ==> tokens == []
    {
      if promptTokens.Some? then promptTokens.value
      else if allTokens.Some? then allTokens.value
      else []
    }
  }

  /** The shapes `_extract_block_ids` accepts: nothing, id groups, one flat group, or a plain list. */
  datatype KVBlocks = NoBlocks | Grouped(groups: seq<seq<int>>) | Flat(ids: seq<int>) | Opaque
  {
    function Ids(): (ids: seq<int>)
      ensures Grouped? && groups != [] ==> ids == groups[0]
      ensures Flat? ==> ids == this.ids
      ensures Opaque? || NoBlocks? || (Grouped? && groups == []) ==> ids == []
    {
      match this
      case Grouped(groups) => if groups != [] then groups[0] else []
      case Flat(ids) => ids
      case _ => []
    }
  }

  /** What is staged for one request: a load or a save. */
  datatype ForRequest<+T> = ForRequest(requestId: string, plan: T)

  datatype LoadPlan = LoadPlan(cacheId: string, blockIds: seq<int>, numChunks: int)

  datatype SavePlan = SavePlan(
    cacheId: string, tokenIds: seq<Token>, blockIds: seq<int>, ttl: Option<Time>, pin: bool)

  type LoadOp = ForRequest<LoadPlan>

  type SaveOp = ForRequest<SavePlan>

  /** The staging dictionaries, as their values in insertion order; keys are the request ids. */
  datatype Pending = Pending(loads: seq<LoadOp>, saves: seq<SaveOp>)

  /** Dictionary lookup by request id. */
  function Find<T>(ops: seq<ForRequest<T>>, id: string): Option<ForRequest<T>> {
    if ops == [] then None
    else if ops[0].requestId == id then Some(ops[0])
    else Find(ops[1..], id)
  }

  /** A dictionary write: an id already there keeps its place. */
  function Stage<T>(ops: seq<ForRequest<T>>, op: ForRequest<T>): (r: seq<ForRequest<T>>)
    ensures forall id :: Find(r, id) == if id == op.requestId then Some(op) else Find(ops, id)
  {
    if ops == [] then
      var r := [op];
      assert r[1..] == [];
      r
    else if ops[0].requestId == op.requestId then
      var r := [op] + ops[1..];
      assert r[1..] == ops[1..];
      r
    else
      var rest := Stage(ops[1..], op);
      var r := [ops[0]] + rest;
      assert r[1..] == rest;
      r
  }

  function RequestIds<T>(ops: seq<ForRequest<T>>): (ids: seq<string>)
    ensures |ids| == |ops| && forall i :: 0 <= i < |ops| ==> ids[i] == ops[i].requestId
  {
    if ops == [] then [] else [ops[0].requestId] + RequestIds(ops[1..])
  }

  /** Staging keeps one operation per request, in the order the requests first came. */
  lemma {:induction false} StageOrder<T>(ops: seq<ForRequest<T>>, op: ForRequest<T>)
    ensures RequestIds(Stage(ops, op)) ==
      if op.requestId in RequestIds(ops) then RequestIds(ops) else RequestIds(ops) + [op.requestId]
  {
    hide Find;
    if ops != [] && ops[0].requestId != op.requestId {
      StageOrder(ops[1..], op);
      assert Stage(ops, op)[1..] == Stage(ops[1..], op);
    }
  }

  // ---- vLLM: scheduler side ---------------------------------------------------------------

  /** `get_num_new_matched_tokens`: reusable tokens beyond those already computed. */
  function NumNewMatched(e: Engine, request: Request, computed: int, t0: Time, t1: Time): (r: Outcome<int>)
    requires e.Valid()
    ensures r.engine.Valid()
  {
    if request.CacheId().None? then Outcome(e, Ok(0))
    else
      var cid := request.CacheId().value;
      var e1 := e.Live(cid, t0).engine;
      StepValid(e, DoGet(cid), t0);
      if e.Live(cid, t0).result.Err? then Outcome(e1, Ok(0))
      else
        var found := e1.Lookup(cid, Some(request.Prompt()), t1);
        StepValid(e1, DoLookup(cid, Some(request.Prompt())), t1);
        match found.result
        case Err(x) => Outcome(found.engine, Err(x))
        case Ok(hit) =>
          Outcome(found.engine, Ok(if hit.numTokens - computed > 0 then hit.numTokens - computed else 0))
  }

  datatype Staged = Staged(engine: Engine, pending: Pending)

  /** `update_state_after_alloc`. */
  function UpdateAfterAlloc(e: Engine, p: Pending, request: Request, blocks: KVBlocks, external: int, t: Time)
    : (r: Staged)
    requires e.Valid()
    ensures r.engine.Valid()
  {
    if request.CacheId().None? then Staged(e, p)
    else
      var cid := request.CacheId().value;
      StepValid(e, DoGet(cid), t);
      var e1 := if external > 0 then e.Live(cid, t).engine else e;
      var loads :=
        if external > 0 && e.Live(cid, t).result.Ok? then
          Stage(p.loads, ForRequest(request.requestId, LoadPlan(cid, blocks.Ids(), CeilDiv(external, e.chunkSize))))
        else p.loads;
      var saves :=
        if request.params.value.save then
          Stage(p.saves, ForRequest(request.requestId, SavePlan(cid, request.Prompt(), blocks.Ids(),
            request.params.value.ttl, request.params.value.pin)))
        else p.saves;
      Staged(e1, Pending(loads, saves))
  }

  // ---- vLLM: worker side ------------------------------------------------------------------

  /** `start_load_kv` from operation i on; each load reads the clock. */
  function StartLoad(e: Engine, blocks: Blocks, layout: Layout, loads: seq<LoadOp>, times: seq<Time>): (r: Ran)
    requires e.Valid() && |times| == |loads|
    ensures r.engine.Valid() && r.engine.chunkSize == e.chunkSize
    decreases |loads|
  {
    if loads == [] then Ran(e, blocks, Ok(0))
    else
      var op := loads[0].plan;
      var loaded := e.Load(op.cacheId, Some(op.numChunks), 0, times[0]);
      StepValid(e, DoLoad(op.cacheId, Some(op.numChunks), 0), times[0]);
      match loaded.result
      case Err(x) => Ran(loaded.engine, blocks, Err(EngineError(x)))
      case Ok(payloads) =>
        match layout.Bpc()
        case Err(x) => Ran(loaded.engine, blocks, Err(TransferFailed(x)))
        case Ok(bpc) =>
          StartLoad(loaded.engine, LoadInto(blocks, op.blockIds, payloads, bpc, 0), layout, loads[1..], times[1..])
  }

  /** `wait_for_save`. */
  function WaitForSave(e: Engine, blocks: Blocks, layout: Layout, saves: seq<SaveOp>, times: seq<Time>): (r: Ran)
    requires e.Valid() && |times| == |saves|
    ensures r.engine.Valid() && r.engine.chunkSize == e.chunkSize
    decreases |saves|
  {
    if saves == [] then Ran(e, blocks, Ok(0))
    else
      var op := saves[0].plan;
      var saved := SaveTokens(e, blocks, layout, op.cacheId, op.tokenIds, op.blockIds, op.ttl, op.pin, times[0]);
      if saved.result.Err? then saved
      else WaitForSave(saved.engine, blocks, layout, saves[1..], times[1..])
  }
}
