/**
 * The end-to-end laws of the connectors: reused blocks hold exactly the KV that was saved for an
 * equal token prefix, and a pinned prompt is always given back
 * (src/llmcache/connectors/sglang.py, vllm.py, transfer.py).
 */
module EndToEnd {
  import opened Wrappers
  import opened Payloads
  import opened Arithmetic
  import opened Types
  import opened Tiers
  import opened Engine
  import opened Reuse
  import opened Lifecycle
  import opened Transfer
  import opened Connectors

  // ---- what a save records ----------------------------------------------------------------

  function SavedRecord(cid: string, tokens: seq<Token>, payloads: seq<Payload>): Record {
    Record(tokens, [0], EntryMap(ShardEntries(cid, Shard(0, payloads))))
  }

  /** A committed save leaves the engine faithful to it. */
  lemma {:induction false} SaveFaithful(
    e: Engine, cid: string, tokens: seq<Token>, payloads: seq<Payload>, numLayers: int,
    ttl: Option<Time>, pin: bool, now: Time)
    requires e.Valid() && |payloads| == |Chunks(tokens, e.chunkSize)|
    requires SaveCache(e, cid, tokens, payloads, numLayers, ttl, pin, now).result.Ok?
    ensures Faithful(SaveCache(e, cid, tokens, payloads, numLayers, ttl, pin, now).engine, cid,
      SavedRecord(cid, tokens, payloads))
  {
    hide Store.View, Store.Valid, PutAll, Chunks, EntryMap, BuildDescriptor;
    var es, r := ShardEntries(cid, Shard(0, payloads)), SavedRecord(cid, tokens, payloads);
    PutAllView(e.store, es, pin);
    DescribeDescribes(e, cid, tokens, numLayers, [0], ttl, pin, now, r.table);
    forall k ensures k in r.table <==>
      k.cacheId == cid && k.workerId in r.workers && 0 <= k.chunkIndex < |Chunks(tokens, e.chunkSize)|
    {
      ShardEntryMap(cid, Shard(0, payloads), k);
    }
  }

  /** Saved tokens over a buffer: the record whose payloads are the joined blocks of each chunk. */
  function BufferRecord(cid: string, tokens: seq<Token>, blocks: Blocks, layout: Layout, bpc: nat, ids: seq<int>)
    : (r: Record)
    requires layout.chunkSize > 0
    ensures r.tokens == tokens
  {
    var numChunks := CeilDiv(|tokens|, layout.chunkSize);
    SavedRecord(cid, tokens, SaveFrom(blocks, ids, numChunks, bpc, layout.chunkSize, layout.numLayers))
  }

  lemma {:induction false} SaveTokensFaithful(
    e: Engine, blocks: Blocks, layout: Layout, bpc: nat, cid: string, tokens: seq<Token>, ids: seq<int>,
    ttl: Option<Time>, pin: bool, now: Time)
    requires e.Valid() && layout.chunkSize == e.chunkSize && layout.Bpc() == Ok(bpc)
    requires SaveTokens(e, blocks, layout, cid, tokens, ids, ttl, pin, now).result.Ok?
    ensures Faithful(SaveTokens(e, blocks, layout, cid, tokens, ids, ttl, pin, now).engine, cid,
      BufferRecord(cid, tokens, blocks, layout, bpc, ids))
  {
    hide Faithful, SaveCache, Chunks, CeilDiv;
    ChunksPartition(tokens, e.chunkSize);
    SaveFaithful(e, cid, tokens,
      SaveFrom(blocks, ids, CeilDiv(|tokens|, e.chunkSize), bpc, layout.chunkSize, layout.numLayers),
      layout.numLayers, ttl, pin, now);
  }

  // ---- frames -----------------------------------------------------------------------------

  /** No block but those of the first m chunks differs. */
  ghost predicate OnlyTouches(b1: Blocks, r: Blocks, dst: seq<int>, bpc: nat, m: nat) {
    SameOutside(b1, r, dst[..Reach(dst, bpc, m)])
  }

  lemma {:induction false} WritePartsFrame(blocks: Blocks, ids: seq<int>, parts: seq<seq<byte>>)
    requires |ids| == |parts|
    ensures SameOutside(blocks, WriteParts(blocks, ids, parts), ids)
    decreases ids
  {
    if ids != [] {
      WritePartsFrame(blocks[ids[0] := parts[0]], ids[1..], parts[1..]);
      assert forall b :: b !in ids ==> b !in ids[1..] && b != ids[0];
    }
  }

  /** A load writes to the blocks of its payloads' chunks only. */
  lemma {:induction false} LoadIntoReach(blocks: Blocks, ids: seq<int>, payloads: seq<Payload>, bpc: nat, i: nat)
    requires i <= |payloads|
    ensures OnlyTouches(blocks, LoadInto(blocks, ids, payloads, bpc, i), ids, bpc, |payloads|)
    decreases |payloads| - i
  {
    hide Split, WriteParts, Offset;
    if i < |payloads| {
      var chunk, reached := ChunkBlocks(ids, bpc, i), ids[..Reach(ids, bpc, |payloads|)];
      var parts := Split(payloads[i].data, |chunk|);
      WritePartsFrame(blocks, chunk, parts);
      LoadIntoReach(WriteParts(blocks, chunk, parts), ids, payloads, bpc, i + 1);
      OffsetStep(i, |payloads|, bpc);
      forall b | b in chunk ensures b in reached {
        var t :| 0 <= t < |chunk| && chunk[t] == b;
        assert reached[Offset(i, bpc) + t] == b;
      }
    }
  }

  // ---- what a load brings back ------------------------------------------------------------

  /**
   * Loading m chunks of a saved cache, whatever happened in between that left the engine
   * faithful to it, writes to each destination block the bytes its source block had at save
   * time, and touches no other block.
   */
  lemma {:induction false} LoadBringsBack(
    e: Engine, cid: string, tokens: seq<Token>, b0: Blocks, layout: Layout, bpc: nat, src: seq<int>,
    m: int, now: Time, b1: Blocks, dst: seq<int>)
    requires e.Valid() && layout.chunkSize == e.chunkSize
    requires 0 <= m <= CeilDiv(|tokens|, e.chunkSize)
    requires Distinct(dst[..Reach(dst, bpc, m)])
    ensures var loaded := e.Load(cid, Some(m), 0, now).result;
      && loaded.Ok? && Faithful(e, cid, BufferRecord(cid, tokens, b0, layout, bpc, src))
      && SameShape(src, dst, bpc, m) && Splittable(b0, src, bpc, m) ==>
        var r, hi := LoadInto(b1, dst, loaded.value, bpc, 0), Reach(dst, bpc, m);
        Copied(b0, src, r, dst, 0, hi) && OnlyTouches(b1, r, dst, bpc, m)
  {
    hide Faithful, Engine.Load, Chunks, CeilDiv, LoadInto, Copied, SameOutside, SameShape, Splittable, Distinct, Reach;
    var saved := SaveFrom(b0, src, CeilDiv(|tokens|, layout.chunkSize), bpc, layout.chunkSize, layout.numLayers);
    var record := BufferRecord(cid, tokens, b0, layout, bpc, src);
    var loaded := e.Load(cid, Some(m), 0, now).result;
    if loaded.Ok? && Faithful(e, cid, record) && SameShape(src, dst, bpc, m) && Splittable(b0, src, bpc, m) {
      ChunksPartition(tokens, e.chunkSize);
      FaithfulLoad(e, cid, record, Some(m), 0, now);
      var payloads := loaded.value;
      assert |payloads| == m;
      forall k | 0 <= k < |payloads| ensures payloads[k] == saved[k] {
        ShardEntryMap(cid, Shard(0, saved), ChunkKey(cid, k, 0));
      }
      SaveThenLoad(b0, src, b1, dst, payloads, bpc);
    }
  }

  // ---- block and chunk arithmetic ---------------------------------------------------------

  lemma {:induction false} CeilDivAtLeast(n: nat, d: nat, q: nat)
    requires d > 0
    ensures CeilDiv(n, d) >= 0
    ensures Offset(q, d) <= n ==> q <= CeilDiv(n, d)
    ensures Offset(q, d) < n ==> q < CeilDiv(n, d)
    ensures n <= CeilDiv(n, d) * d
  {
    var c := CeilDiv(n, d);
    assert 0 - n == d * ((0 - n) / d) + (0 - n) % d;
    assert c * d == -(d * ((0 - n) / d));
    assert d * (c - q) == c * d - q * d;
    NoSmallMultiple(d, c - q);
    NoSmallMultiple(d, c);
  }

  /** The reuse a lookup reports, in chunks: m chunks inside both prompts, or equal prompts. */
  ghost predicate Reusable(tokens: seq<Token>, request: seq<Token>, size: nat, m: nat, n: nat) {
    && n <= |tokens| && n <= |request| && tokens[..n] == request[..n]
    && n <= Offset(m, size)
    && (tokens == request || (Offset(m, size) <= |tokens| && Offset(m, size) <= |request|))
  }

  lemma {:induction false} OffsetAssoc(m: nat, bpc: nat, size: nat)
    ensures Offset(m, Offset(bpc, size)) == Offset(Offset(m, bpc), size)
  {
    assert m * (bpc * size) == (m * bpc) * size;
  }

  lemma {:induction false} BelowOffset(j: nat, k: nat, size: nat)
    requires size > 0 && Offset(j, size) < Offset(k, size)
    ensures j < k
  {
    FewerTimes(j, k, size);
  }

  lemma {:induction false} InChunk(j: nat, bpc: nat, m: nat)
    requires j < Offset(m, bpc)
    ensures bpc > 0 && j / bpc < m && Offset(j / bpc, bpc) <= j < Offset(j / bpc, bpc) + bpc
  {
    assert j == bpc * (j / bpc) + j % bpc;
    BelowOffset(j / bpc, m, bpc);
  }

  /** What copying m chunks, for the sake of n tokens, takes of a source and a destination list. */
  ghost predicate Fits(b0: Blocks, src: seq<int>, dst: seq<int>, bpc: nat, blockSize: nat, m: nat, n: nat)
    requires blockSize > 0
  {
    && SameShape(src, dst, bpc, m) && Splittable(b0, src, bpc, m)
    && Distinct(dst[..Reach(dst, bpc, m)])
    && |src| >= CeilDiv(n, blockSize)
  }

  /** Then the blocks of those tokens are among the ones copied. */
  lemma {:induction false} CoveredBlocks(n: nat, blockSize: nat, bpc: nat, m: nat, src: seq<int>, dst: seq<int>)
    requires blockSize > 0 && n <= Offset(m, Offset(bpc, blockSize))
    requires SameShape(src, dst, bpc, m) && |src| >= CeilDiv(n, blockSize)
    ensures forall j :: 0 <= j && Offset(j, blockSize) < n ==> j < Reach(dst, bpc, m)
  {
    hide Offset, CeilDiv;
    forall j: nat | Offset(j, blockSize) < n ensures j < Reach(dst, bpc, m) {
      OffsetAssoc(m, bpc, blockSize);
      BelowOffset(j, Offset(m, bpc), blockSize);
      CeilDivAtLeast(n, blockSize, j);
      InChunk(j, bpc, m);
      assert |ChunkBlocks(dst, bpc, j / bpc)| == |ChunkBlocks(src, bpc, j / bpc)|;
    }
  }

  /** The block counts of a prompt's lists: rounded up, or enough for m chunks in full. */
  predicate Allocated(tokens: nat, request: nat, blockSize: nat, bpc: nat, m: nat, src: seq<int>, dst: seq<int>)
    requires blockSize > 0
  {
    || (|src| == CeilDiv(tokens, blockSize) && |dst| == CeilDiv(request, blockSize))
    || (Offset(m, bpc) <= |src| && Offset(m, bpc) <= |dst|)
  }

  /**
   * With as many blocks on either side as the token counts need, or with spare ones, a lookup's
   * chunks take the same number of blocks at source and destination.
   */
  lemma {:induction false} AllocatedShape(
    tokens: seq<Token>, request: seq<Token>, blockSize: nat, bpc: nat, m: nat, n: nat, src: seq<int>, dst: seq<int>)
    requires blockSize > 0 && Reusable(tokens, request, Offset(bpc, blockSize), m, n)
    requires Allocated(|tokens|, |request|, blockSize, bpc, m, src, dst)
    ensures SameShape(src, dst, bpc, m) && |src| >= CeilDiv(n, blockSize)
    ensures forall j :: 0 <= j && Offset(j, blockSize) < n ==> j < Reach(dst, bpc, m)
  {
    hide Offset, CeilDiv;
    OffsetAssoc(m, bpc, blockSize);
    CeilDivAtLeast(|tokens|, blockSize, Offset(m, bpc));
    CeilDivAtLeast(|request|, blockSize, Offset(m, bpc));
    forall i | 0 <= i < m ensures |ChunkBlocks(dst, bpc, i)| == |ChunkBlocks(src, bpc, i)| {
      OffsetStep(i, m, bpc);
    }
    CeilDivMonotone(n, |tokens|, blockSize);
    CeilDivWithin(n, Offset(m, bpc), blockSize);
    CoveredBlocks(n, blockSize, bpc, m, src, dst);
  }

  lemma {:induction false} CeilDivMonotone(a: nat, b: nat, d: nat)
    requires d > 0 && a <= b
    ensures CeilDiv(a, d) <= CeilDiv(b, d)
  {
    hide CeilDiv;
    CeilDivBounds(a, d);
    CeilDivBounds(b, d);
    assert (CeilDiv(b, d) + 1) * d == CeilDiv(b, d) * d + d;
    FewerTimes(CeilDiv(a, d), CeilDiv(b, d) + 1, d);
  }

  lemma {:induction false} CeilDivWithin(n: nat, q: nat, d: nat)
    requires d > 0
    ensures n <= Offset(q, d) ==> CeilDiv(n, d) <= q
  {
    hide CeilDiv;
    CeilDivBounds(n, d);
    assert (q + 1) * d == q * d + d;
    if n <= Offset(q, d) {
      FewerTimes(CeilDiv(n, d), q + 1, d);
    }
  }

  // ---- what a lookup counts ---------------------------------------------------------------

  /** The tokens a request stands for; one that shows none is trusted to want all. */
  function Wanted(request: Option<seq<Token>>, tokens: seq<Token>): seq<Token> {
    if request.Some? then request.value else tokens
  }

  /** How many tokens of a registration a request can reuse. */
  function ReusedTokens(tokens: seq<Token>, request: seq<Token>, size: nat): nat
    requires size > 0
  {
    if tokens <= request && (|tokens| % size == 0 || |tokens| == |request|) then |tokens|
    else CommonPrefix(request, tokens) / size * size
  }

  /** A lookup over a faithful cache reports reusable chunks, all that there are. */
  lemma {:induction false} LookupReusable(e: Engine, cid: string, r: Record, request: Option<seq<Token>>, now: Time)
    requires e.Valid() && Faithful(e, cid, r)
    ensures var found := e.Lookup(cid, request, now).result;
      found.Ok? ==>
        && Reusable(r.tokens, Wanted(request, r.tokens), e.chunkSize, found.value.numChunks, found.value.numTokens)
        && found.value.numChunks == CeilDiv(found.value.numTokens, e.chunkSize)
        && found.value.numChunks <= CeilDiv(|r.tokens|, e.chunkSize)
        && found.value.numTokens == ReusedTokens(r.tokens, Wanted(request, r.tokens), e.chunkSize)
  {
    hide Faithful, Engine.Lookup, CeilDiv, Reusable, CommonPrefix;
    if e.Lookup(cid, request, now).result.Ok? {
      if request.Some? {
        LookupClosedForm(e, cid, r, request.value, now);
        PrefixIsCommon(request.value, r.tokens);
        LookupArithmetic(request.value, r.tokens, e.chunkSize);
        MatchReusable(r.tokens, request.value, e.chunkSize, e.Lookup(cid, request, now).result.value);
      } else {
        TrustedLookup(e, cid, r, now);
        CeilDivAtLeast(|r.tokens|, e.chunkSize, 0);
        assert Reusable(r.tokens, r.tokens, e.chunkSize, CeilDiv(|r.tokens|, e.chunkSize), |r.tokens|) by {
          AllReusable(r.tokens, e.chunkSize);
        }
      }
    }
  }

  lemma {:induction false} TrustedLookup(e: Engine, cid: string, r: Record, now: Time)
    requires e.Valid() && Faithful(e, cid, r)
    ensures var found := e.Lookup(cid, None, now).result;
      found.Ok? ==> found.value.numTokens == |r.tokens| && found.value.numChunks == CeilDiv(|r.tokens|, e.chunkSize)
  {
    hide Chunks, CeilDiv, Store.View, Store.Valid;
    ChunksPartition(r.tokens, e.chunkSize);
  }

  lemma {:induction false} AllReusable(tokens: seq<Token>, size: nat)
    requires size > 0
    ensures Reusable(tokens, tokens, size, CeilDiv(|tokens|, size), |tokens|)
  {
    CeilDivBounds(|tokens|, size);
  }

  lemma {:induction false} MatchReusable(tokens: seq<Token>, request: seq<Token>, size: nat, hit: LookupResult)
    requires size > 0
    requires hit.full <==> tokens <= request && (|tokens| % size == 0 || |tokens| == |request|)
    requires hit.full ==> hit.numTokens == |tokens| && hit.numChunks == CeilDiv(|tokens|, size)
    requires var l := CommonPrefix(request, tokens);
      !hit.full ==> hit.numChunks == l / size && hit.numTokens == l / size * size
    requires hit.numTokens <= CommonPrefix(request, tokens)
    ensures Reusable(tokens, request, size, hit.numChunks, hit.numTokens)
    ensures hit.numChunks == CeilDiv(hit.numTokens, size) <= CeilDiv(|tokens|, size)
  {
    hide CeilDiv;
    var l := CommonPrefix(request, tokens);
    CommonPrefixSlices(request, tokens, hit.numTokens);
    if hit.full {
      CeilDivAtLeast(|tokens|, size, 0);
      if |tokens| % size == 0 {
        CeilDivIsFloor(|tokens|, size);
      } else {
        assert tokens == request;
      }
    } else {
      CeilDivIsFloor(l, size);
      CeilDivAtLeast(|tokens|, size, l / size);
      ExactCeilDiv(l / size, size);
    }
  }

  lemma {:induction false} CommonPrefixSlices(a: seq<Token>, b: seq<Token>, n: nat)
    requires n <= CommonPrefix(a, b)
    ensures b[..n] == a[..n]
  {
    forall i | 0 <= i < n ensures b[i] == a[i] {}
  }

  ghost predicate SamePrefix(tokens: seq<Token>, request: seq<Token>, n: nat) {
    n <= |tokens| && n <= |request| && tokens[..n] == request[..n]
  }

  /** Each destination block with one of the first n tokens holds what its source block held. */
  ghost predicate BlocksReused(b0: Blocks, src: seq<int>, r: Blocks, dst: seq<int>, blockSize: nat, n: nat) {
    forall j :: 0 <= j && Offset(j, blockSize) < n ==>
      && j < |dst| && j < |src|
      && dst[j] in r && r[dst[j]] == BlockData(b0, src[j])
  }

  lemma {:induction false} CopiedCovers(
    b0: Blocks, src: seq<int>, r: Blocks, dst: seq<int>, blockSize: nat, bpc: nat, m: nat, n: nat)
    requires blockSize > 0 && n <= Offset(m, Offset(bpc, blockSize)) && Fits(b0, src, dst, bpc, blockSize, m, n)
    requires Copied(b0, src, r, dst, 0, Reach(dst, bpc, m))
    ensures BlocksReused(b0, src, r, dst, blockSize, n)
  {
    hide Offset, CeilDiv, SameShape;
    CoveredBlocks(n, blockSize, bpc, m, src, dst);
  }

  lemma {:induction false} ChunkIsBlocks(layout: Layout, bpc: nat)
    requires layout.Bpc() == Ok(bpc)
    ensures layout.blockSize > 0 && Offset(bpc, layout.blockSize) == layout.chunkSize
  {
    var size, bs := layout.chunkSize, layout.blockSize;
    assert size == bs * (size / bs) + size % bs;
  }

  // ---- end to end: SGLang -----------------------------------------------------------------

  /**
   * End-to-end KV reuse. Store a prompt's blocks under an id, let any operations run that do not
   * write the id, then retrieve for another prompt, or for none, into blocks of any buffer. If the
   * retrieve returns n tokens, the prompts agree on those n tokens and n is all that can be reused,
   * or nothing where the id is gone or expired; no block beyond the reused chunks has changed; and
   * where the two block lists fit, every destination block covering one of the n tokens holds byte
   * for byte what its source block held when stored.
   */
  lemma {:induction false} StoreThenRetrieve(
    e: Engine, b0: Blocks, layout: Layout, bpc: nat, cid: string, tokens: seq<Token>, src: seq<int>,
    ttl: Option<Time>, pin: bool, at: Time, run: seq<Timed>,
    b1: Blocks, dst: seq<int>, request: Option<seq<Token>>, t0: Time, t1: Time, t2: Time)
    requires e.Valid() && layout.chunkSize == e.chunkSize && layout.Bpc() == Ok(bpc)
    requires Untouched(run, cid)
    ensures
      var saved := SaveTokens(e, b0, layout, cid, tokens, src, ttl, pin, at);
      var later := After(saved.engine, run);
      var r := Retrieve(later, b1, layout, cid, dst, request, t0, t1, t2);
      saved.result.Ok? && r.result.Ok? ==>
        var n, m := r.result.value, CeilDiv(r.result.value, e.chunkSize);
        && SamePrefix(tokens, Wanted(request, tokens), n)
        && n == (
              if later.Live(cid, t0).result.Ok? then ReusedTokens(tokens, Wanted(request, tokens), e.chunkSize) else 0)
        && OnlyTouches(b1, r.blocks, dst, bpc, m)
        && (Fits(b0, src, dst, bpc, layout.blockSize, m, n) ==>
              BlocksReused(b0, src, r.blocks, dst, layout.blockSize, n))
  {
    hide SamePrefix, BlocksReused, Faithful, SaveTokens, Retrieve, CeilDiv, Reach, Fits, SameOutside, BlocksPerChunk,
      Untouched, ReusedTokens, Wanted;
    var record := BufferRecord(cid, tokens, b0, layout, bpc, src);
    var saved := SaveTokens(e, b0, layout, cid, tokens, src, ttl, pin, at);
    if saved.result.Ok? {
      SaveTokensFaithful(e, b0, layout, bpc, cid, tokens, src, ttl, pin, at);
      UntouchedFaithful(saved.engine, run, cid, record);
      RetrieveBringsBack(After(saved.engine, run), b0, layout, bpc, cid, tokens, src, b1, dst, request, t0, t1, t2);
    }
  }

  /** The retrieve half, from any engine that is faithful to the stored buffer. */
  lemma {:induction false} RetrieveBringsBack(
    e: Engine, b0: Blocks, layout: Layout, bpc: nat, cid: string, tokens: seq<Token>, src: seq<int>,
    b1: Blocks, dst: seq<int>, request: Option<seq<Token>>, t0: Time, t1: Time, t2: Time)
    requires e.Valid() && layout.chunkSize == e.chunkSize && layout.Bpc() == Ok(bpc)
    ensures
      var r := Retrieve(e, b1, layout, cid, dst, request, t0, t1, t2);
      r.result.Ok? && Faithful(e, cid, BufferRecord(cid, tokens, b0, layout, bpc, src)) ==>
        var n, m := r.result.value, CeilDiv(r.result.value, e.chunkSize);
        && SamePrefix(tokens, Wanted(request, tokens), n)
        && n == (if e.Live(cid, t0).result.Ok? then ReusedTokens(tokens, Wanted(request, tokens), e.chunkSize) else 0)
        && OnlyTouches(b1, r.blocks, dst, bpc, m)
        && (Fits(b0, src, dst, bpc, layout.blockSize, m, n) ==>
              BlocksReused(b0, src, r.blocks, dst, layout.blockSize, n))
  {
    hide Faithful, Engine.Lookup, Engine.Load, Engine.Delete, CeilDiv, Reach, Distinct, Splittable, SameOutside,
      SameShape, Offset, LoadInto, Copied, BlocksReused, OnlyTouches, SaveFrom, Descriptor.ExpiredAt, ReusedTokens,
      Wanted, BlocksPerChunk;
    var record := BufferRecord(cid, tokens, b0, layout, bpc, src);
    var r := Retrieve(e, b1, layout, cid, dst, request, t0, t1, t2);
    RetrieveNothing(b1, dst, bpc, e.chunkSize);
    ChunkIsBlocks(layout, bpc);
    if r.result.Ok? && e.Live(cid, t0).result.Ok? && Faithful(e, cid, record) {
      assert e.Live(cid, t0).engine == e;
      LookupKeeps(e, cid, request, t1);
      LookupReusable(e, cid, record, request, t1);
      var hit := e.Lookup(cid, request, t1).result.value;
      var m := hit.numChunks;
      LoadCounts(e, cid, record, m, t2);
      LoadIntoReach(b1, dst, e.Load(cid, Some(m), 0, t2).result.value, bpc, 0);
      if Fits(b0, src, dst, bpc, layout.blockSize, m, hit.numTokens) {
        LoadBringsBack(e, cid, tokens, b0, layout, bpc, src, m, t2, b1, dst);
        CopiedCovers(b0, src, r.blocks, dst, layout.blockSize, bpc, m, hit.numTokens);
      }
    }
  }

  lemma {:induction false} RetrieveNothing(b: Blocks, dst: seq<int>, bpc: nat, size: nat)
    requires size > 0
    ensures CeilDiv(0, size) == 0
    ensures OnlyTouches(b, b, dst, bpc, 0)
    ensures forall b0, src, bs :: BlocksReused(b0, src, b, dst, bs, 0)
  {
    CeilDivStep(0, size);
  }

  lemma {:induction false} LookupKeeps(e: Engine, cid: string, request: Option<seq<Token>>, now: Time)
    requires e.Valid()
    ensures e.Lookup(cid, request, now).result.Ok? ==> e.Lookup(cid, request, now).engine == e
  {}

  /** A load from a faithful cache that returns gives as many payloads as were asked for. */
  lemma {:induction false} LoadCounts(e: Engine, cid: string, r: Record, m: nat, now: Time)
    requires e.Valid() && Faithful(e, cid, r) && 0 in r.workers && m <= CeilDiv(|r.tokens|, e.chunkSize)
    ensures var out := e.Load(cid, Some(m), 0, now).result;
      out.Ok? ==> |out.value| == m
  {
    hide Faithful, Engine.Load, Chunks, CeilDiv;
    ChunksPartition(r.tokens, e.chunkSize);
    FaithfulLoad(e, cid, r, Some(m), 0, now);
  }

  // ---- end to end: vLLM -------------------------------------------------------------------

  /** A save under another id is one of the things that leave an id alone. */
  lemma {:induction false} SaveCalm(
    e: Engine, blocks: Blocks, layout: Layout, other: string, tokens: seq<Token>, ids: seq<int>,
    ttl: Option<Time>, pin: bool, now: Time, cid: string)
    requires e.Valid() && other != cid
    ensures Calm(e, SaveTokens(e, blocks, layout, other, tokens, ids, ttl, pin, now).engine, cid)
  {
    hide Store.View, Store.Valid, PutAll, SaveFrom, BuildDescriptor, EntryMap;
    if layout.Bpc().Ok? {
      var numChunks := CeilDiv(|tokens|, e.chunkSize);
      var payloads := SaveFrom(blocks, ids, numChunks, layout.Bpc().value, layout.chunkSize, layout.numLayers);
      var es := ShardEntries(other, Shard(0, payloads));
      PutAllView(e.store, es, pin);
      var v, v' := e.store.View(), PutAll(e.store, es, pin).store.View();
      forall k | k in v' && k.cacheId == cid ensures k in v && v'[k] == v[k] {
        ShardEntryMap(other, Shard(0, payloads), k);
        assert k in v' - KeysPut(es);
      }
    }
  }

  /**
   * After a worker step that saved everything staged, the engine is faithful to each save that
   * no later one of the same id replaces.
   */
  lemma {:induction false} WaitForSaveFaithful(
    e: Engine, blocks: Blocks, layout: Layout, bpc: nat, saves: seq<SaveOp>, times: seq<Time>, q: nat)
    requires e.Valid() && |times| == |saves| && q < |saves|
    requires layout.chunkSize == e.chunkSize && layout.Bpc() == Ok(bpc)
    requires forall i :: q < i < |saves| ==> saves[i].plan.cacheId != saves[q].plan.cacheId
    ensures var ran := WaitForSave(e, blocks, layout, saves, times);
      ran.result.Ok? ==>
        Faithful(ran.engine, saves[q].plan.cacheId,
          BufferRecord(saves[q].plan.cacheId, saves[q].plan.tokenIds, blocks, layout, bpc, saves[q].plan.blockIds))
    decreases |saves|
  {
    hide Faithful, SaveTokens, BufferRecord, BlocksPerChunk;
    var op := saves[0].plan;
    var saved := SaveTokens(e, blocks, layout, op.cacheId, op.tokenIds, op.blockIds, op.ttl, op.pin, times[0]);
    var e1 := saved.engine;
    if saved.result.Err? {
    } else if q == 0 {
      SaveTokensFaithful(e, blocks, layout, bpc, op.cacheId, op.tokenIds, op.blockIds, op.ttl, op.pin, times[0]);
      SavesKeepFaithful(e1, blocks, layout, saves[1..], times[1..], op.cacheId,
        BufferRecord(op.cacheId, op.tokenIds, blocks, layout, bpc, op.blockIds));
    } else {
      WaitForSaveFaithful(e1, blocks, layout, bpc, saves[1..], times[1..], q - 1);
    }
  }

  lemma {:induction false} SavesKeepFaithful(
    e: Engine, blocks: Blocks, layout: Layout, saves: seq<SaveOp>, times: seq<Time>, cid: string, r: Record)
    requires e.Valid() && |times| == |saves| && Faithful(e, cid, r)
    requires forall i :: 0 <= i < |saves| ==> saves[i].plan.cacheId != cid
    ensures var e' := WaitForSave(e, blocks, layout, saves, times).engine;
      e'.Valid() && e'.chunkSize == e.chunkSize && Faithful(e', cid, r)
    decreases |saves|
  {
    hide Faithful, SaveTokens, Calm;
    if saves != [] {
      var op := saves[0].plan;
      var saved := SaveTokens(e, blocks, layout, op.cacheId, op.tokenIds, op.blockIds, op.ttl, op.pin, times[0]);
      SaveCalm(e, blocks, layout, op.cacheId, op.tokenIds, op.blockIds, op.ttl, op.pin, times[0], cid);
      CalmKeepsFaithful(e, saved.engine, cid, r);
      if saved.result.Ok? {
        SavesKeepFaithful(saved.engine, blocks, layout, saves[1..], times[1..], cid, r);
      }
    }
  }

  /** The blocks a staged load can write. */
  function Reached(plan: LoadPlan, bpc: nat): seq<int> {
    plan.blockIds[..Reach(plan.blockIds, bpc, if plan.numChunks < 0 then 0 else plan.numChunks)]
  }

  /** A block that none of the staged loads' chunks reaches. */
  ghost predicate Unreached(loads: seq<LoadOp>, bpc: nat, b: int) {
    forall i :: 0 <= i < |loads| ==> b !in Reached(loads[i].plan, bpc)
  }

  lemma {:induction false} ReachMonotone(ids: seq<int>, bpc: nat, m: nat, n: nat, b: int)
    requires m <= n && b !in ids[..Reach(ids, bpc, n)]
    ensures b !in ids[..Reach(ids, bpc, m)]
  {
    OffsetMonotone(m, n, bpc);
    assert ids[..Reach(ids, bpc, m)] <= ids[..Reach(ids, bpc, n)];
  }

  lemma {:induction false} LoadAtMost(e: Engine, cid: string, m: int, now: Time)
    requires e.Valid()
    ensures var r := e.Load(cid, Some(m), 0, now).result;
      r.Ok? ==> |r.value| <= if m < 0 then 0 else m
  {
    hide GetRange, Store.View, Store.Valid;
    if cid in e.descs {
      GetRangeView(e.store, cid, 0, 0, Min(m, e.descs[cid].NumChunks()));
    }
  }

  /**
   * A worker's loads touch nothing else: whether they all succeed or one raises half-way, a block
   * outside the staged chunks of every load is as it was.
   */
  lemma {:induction false} StartLoadTouchesStagedOnly(
    e: Engine, blocks: Blocks, layout: Layout, bpc: nat, loads: seq<LoadOp>, times: seq<Time>, b: int)
    requires e.Valid() && |times| == |loads| && layout.Bpc() == Ok(bpc) && Unreached(loads, bpc, b)
    ensures var r := StartLoad(e, blocks, layout, loads, times).blocks;
      (b in r <==> b in blocks) && (b in r ==> r[b] == blocks[b])
    decreases |loads|
  {
    hide Engine.Load, LoadInto, BlocksPerChunk, Reach;
    if loads != [] {
      var op := loads[0].plan;
      var loaded := e.Load(op.cacheId, Some(op.numChunks), 0, times[0]);
      StepValid(e, DoLoad(op.cacheId, Some(op.numChunks), 0), times[0]);
      LoadIsStep(e, op.cacheId, Some(op.numChunks), times[0]);
      if loaded.result.Ok? {
        var payloads := loaded.result.value;
        LoadAtMost(e, op.cacheId, op.numChunks, times[0]);
        ReachMonotone(op.blockIds, bpc, |payloads|, if op.numChunks < 0 then 0 else op.numChunks, b);
        LoadIntoReach(blocks, op.blockIds, payloads, bpc, 0);
        assert Unreached(loads[1..], bpc, b) by {
          assert forall i :: 1 <= i < |loads| ==> loads[1..][i - 1] == loads[i];
        }
        StartLoadTouchesStagedOnly(loaded.engine, LoadInto(blocks, op.blockIds, payloads, bpc, 0), layout, bpc,
          loads[1..], times[1..], b);
      }
    }
  }

  /** The blocks one load writes, where no later load writes again. */
  ghost predicate Spared(later: seq<LoadOp>, ids: seq<int>, bpc: nat) {
    forall b :: b in ids ==> Unreached(later, bpc, b)
  }

  /** One staged load among others: its blocks come back whatever the other loads are. */
  lemma {:induction false} StartLoadBringsBack(
    e: Engine, b1: Blocks, layout: Layout, bpc: nat, loads: seq<LoadOp>, times: seq<Time>, q: nat,
    cid: string, tokens: seq<Token>, b0: Blocks, src: seq<int>)
    requires e.Valid() && |times| == |loads| && q < |loads| && loads[q].plan.cacheId == cid
    requires layout.chunkSize == e.chunkSize && layout.Bpc() == Ok(bpc)
    requires 0 <= loads[q].plan.numChunks <= CeilDiv(|tokens|, e.chunkSize)
    requires Distinct(loads[q].plan.blockIds[..Reach(loads[q].plan.blockIds, bpc, loads[q].plan.numChunks)])
    ensures var ran, dst, m := StartLoad(e, b1, layout, loads, times), loads[q].plan.blockIds, loads[q].plan.numChunks;
      && ran.result.Ok? && Faithful(e, cid, BufferRecord(cid, tokens, b0, layout, bpc, src))
      && Spared(loads[q + 1..], dst[..Reach(dst, bpc, m)], bpc)
      && SameShape(src, dst, bpc, m) && Splittable(b0, src, bpc, m) ==>
        Copied(b0, src, ran.blocks, dst, 0, Reach(dst, bpc, m))
    decreases |loads|
  {
    hide Faithful, Engine.Load, LoadInto, BlocksPerChunk, CeilDiv, SameShape, Splittable, Distinct, Reach, BufferRecord,
      Step, Calm, Copied, Unreached;
    var op, dst, m := loads[0].plan, loads[q].plan.blockIds, loads[q].plan.numChunks;
    var loaded := e.Load(op.cacheId, Some(op.numChunks), 0, times[0]);
    StepValid(e, DoLoad(op.cacheId, Some(op.numChunks), 0), times[0]);
    LoadIsStep(e, op.cacheId, Some(op.numChunks), times[0]);
    if loaded.result.Err? || !Faithful(e, cid, BufferRecord(cid, tokens, b0, layout, bpc, src)) ||
      !SameShape(src, dst, bpc, m) || !Splittable(b0, src, bpc, m)
    {
      return;
    }
    var next, reached := LoadInto(b1, op.blockIds, loaded.result.value, bpc, 0), dst[..Reach(dst, bpc, m)];
    if q == 0 {
      LoadBringsBack(e, cid, tokens, b0, layout, bpc, src, m, times[0], b1, dst);
      if Spared(loads[1..], reached, bpc) {
        var r := StartLoad(loaded.engine, next, layout, loads[1..], times[1..]).blocks;
        forall b | b in reached ensures SameAt(next, r, b) {
          StartLoadTouchesStagedOnly(loaded.engine, next, layout, bpc, loads[1..], times[1..], b);
        }
        CopiedStays(b0, src, next, r, dst, |reached|);
      }
    } else {
      StepCalm(e, DoLoad(op.cacheId, Some(op.numChunks), 0), times[0], cid);
      CalmKeepsFaithful(e, loaded.engine, cid, BufferRecord(cid, tokens, b0, layout, bpc, src));
      assert loads[1..][q - 1 + 1..] == loads[q + 1..];
      StartLoadBringsBack(loaded.engine, next, layout, bpc, loads[1..], times[1..], q - 1, cid, tokens, b0, src);
    }
  }

  lemma {:induction false} LoadIsStep(e: Engine, cid: string, m: Option<int>, now: Time)
    requires e.Valid()
    ensures e.Load(cid, m, 0, now).engine == Step(e, DoLoad(cid, m, 0), now)
  {}

  ghost predicate SameAt(b1: Blocks, r: Blocks, b: int) {
    (b in r <==> b in b1) && (b in r ==> r[b] == b1[b])
  }

  lemma {:induction false} CopiedStays(b0: Blocks, src: seq<int>, r: Blocks, r': Blocks, dst: seq<int>, hi: nat)
    requires hi <= |dst| && Copied(b0, src, r, dst, 0, hi)
    requires forall b :: b in dst[..hi] ==> SameAt(r, r', b)
    ensures Copied(b0, src, r', dst, 0, hi)
  {
    forall j | 0 <= j < hi ensures dst[j] in r' && r'[dst[j]] == BlockData(b0, src[j]) {
      assert dst[..hi][j] == dst[j];
      assert SameAt(r, r', dst[j]);
      assert dst[j] in r && r[dst[j]] == BlockData(b0, src[j]);
    }
  }

  /** A request with something to load was found live, and what it counts is the lookup's. */
  lemma {:induction false} MatchedIsLookup(e: Engine, r: Record, request: Request, computed: nat, t0: Time, t1: Time)
    requires e.Valid() && request.CacheId().Some? && Faithful(e, request.CacheId().value, r)
    ensures var cid, matched := request.CacheId().value, NumNewMatched(e, request, computed, t0, t1);
      matched.result.Ok? && matched.result.value > 0 ==>
        && matched.engine == e
        && e.Live(cid, t0).result.Ok? && e.Lookup(cid, Some(request.Prompt()), t1).result.Ok?
        && var hit := e.Lookup(cid, Some(request.Prompt()), t1).result.value;
        && hit.numTokens == computed + matched.result.value
  {
    hide Faithful, Engine.Lookup, CeilDiv, Engine.Delete;
    LookupKeeps(e, request.CacheId().value, Some(request.Prompt()), t1);
  }

  /**
   * Staged loads and lookups agree. For a request with nothing computed yet, the number of chunks
   * a load is staged with is the lookup's chunk count, ragged tail included.
   */
  lemma {:induction false} StagedCountIsLookupCount(
    e: Engine, r: Record, request: Request, t0: Time, t1: Time)
    requires e.Valid() && request.CacheId().Some? && Faithful(e, request.CacheId().value, r)
    ensures var cid := request.CacheId().value;
      var matched := NumNewMatched(e, request, 0, t0, t1).result;
      matched.Ok? && matched.value > 0 ==>
        && e.Lookup(cid, Some(request.Prompt()), t1).result.Ok?
        && CeilDiv(matched.value, e.chunkSize) == e.Lookup(cid, Some(request.Prompt()), t1).result.value.numChunks
  {
    hide Faithful, Engine.Lookup, CeilDiv, Engine.Delete, NumNewMatched;
    MatchedIsLookup(e, r, request, 0, t0, t1);
    LookupReusable(e, request.CacheId().value, r, Some(request.Prompt()), t1);
  }

  /**
   * When part of the prompt is already computed, a staged load still starts at chunk 0 with a
   * count taken from the external tokens alone. It reaches the last reused chunk exactly when
   * fewer tokens are computed than that last chunk holds.
   */
  lemma {:induction false} StagedLoadReachesTailExactly(
    e: Engine, r: Record, request: Request, computed: nat, t0: Time, t1: Time)
    requires e.Valid() && request.CacheId().Some? && Faithful(e, request.CacheId().value, r)
    requires NumNewMatched(e, request, computed, t0, t1).result.Ok?
    requires NumNewMatched(e, request, computed, t0, t1).result.value > 0
    ensures e.Lookup(request.CacheId().value, Some(request.Prompt()), t1).result.Ok?
    ensures
      var hit := e.Lookup(request.CacheId().value, Some(request.Prompt()), t1).result.value;
      var staged := CeilDiv(NumNewMatched(e, request, computed, t0, t1).result.value, e.chunkSize);
      && 0 < staged <= hit.numChunks
      && (staged == hit.numChunks <==> computed < hit.numTokens - (hit.numChunks - 1) * e.chunkSize)
  {
    hide Faithful, Engine.Lookup, CeilDiv, Engine.Delete, NumNewMatched;
    MatchedIsLookup(e, r, request, computed, t0, t1);
    LookupReusable(e, request.CacheId().value, r, Some(request.Prompt()), t1);
    var hit := e.Lookup(request.CacheId().value, Some(request.Prompt()), t1).result.value;
    CeilDivApart(hit.numTokens, computed, e.chunkSize);
  }

  /**
   * In blocks: of lists that fit the whole match, a load of `staged` chunks reaches every block of
   * the matched tokens exactly under the same condition. What it does reach, it restores
   * (MatchStageLoad); what it does not, it leaves alone (StartLoadTouchesStagedOnly).
   */
  lemma {:induction false} StagedBlocksReachExactly(
    tokens: nat, computed: nat, size: nat, blockSize: nat, bpc: nat, src: seq<int>, dst: seq<int>)
    requires blockSize > 0 && size == Offset(bpc, blockSize) && size > 0 && computed < tokens
    requires SameShape(src, dst, bpc, CeilDiv(tokens, size)) && |src| >= CeilDiv(tokens, blockSize)
    ensures var staged := CeilDiv(tokens - computed, size);
      (forall j :: 0 <= j && Offset(j, blockSize) < tokens ==> j < Reach(dst, bpc, staged)) <==>
        computed < tokens - (CeilDiv(tokens, size) - 1) * size
  {
    hide CeilDiv, Offset;
    var needed, staged := CeilDiv(tokens, size), CeilDiv(tokens - computed, size);
    CeilDivApart(tokens, computed, size);
    CeilDivBounds(tokens, size);
    TimesIsOffset(needed, size);
    if staged == needed {
      CoveredBlocks(tokens, blockSize, bpc, needed, src, dst);
    } else {
      var j := Offset(needed - 1, bpc);
      OffsetAssoc(needed - 1, bpc, blockSize);
      OffsetStep(needed - 1, needed, size);
      OffsetMonotone(staged, needed - 1, bpc);
      assert Offset(j, blockSize) < tokens && j >= Reach(dst, bpc, staged);
    }
  }

  lemma {:induction false} TimesIsOffset(q: nat, size: nat)
    ensures q * size == Offset(q, size)
  {}

  /**
   * A request's staged load gives back a saved prompt. The scheduler matches the request at t0 and
   * t1 and, after other operations, stages at t2 for the blocks it allocated; the worker, again
   * after other operations, performs everything staged. The request agrees with the saved prompt on
   * all tokens matched or already computed; while the cache lives, a load of its blocks is among
   * those staged, under its id; and if they all succeed, where the block lists fit and no later
   * load writes the same blocks again, every block covering a token of the staged chunks holds byte
   * for byte what its source block held when saved.
   */
  ghost predicate StagedLoadRestores(
    e: Engine, b0: Blocks, layout: Layout, bpc: nat, tokens: seq<Token>, src: seq<int>,
    request: Request, computed: nat, blocks: KVBlocks, p: Pending, t0: Time, t1: Time, t2: Time,
    meanwhile: seq<Timed>, run: seq<Timed>, times: seq<Time>, b1: Blocks)
    requires e.Valid() && request.CacheId().Some? && layout.blockSize > 0 && layout.chunkSize > 0
  {
    var matched := NumNewMatched(e, request, computed, t0, t1);
    var e1 := After(matched.engine, meanwhile);
    matched.result.Ok? && matched.result.value > 0 && e1.Live(request.CacheId().value, t2).result.Ok? ==>
      var n, dst := matched.result.value, blocks.Ids();
      var m := CeilDiv(n, layout.chunkSize);
      var reached := Min(computed + n, Offset(m, layout.chunkSize));
      var staged := UpdateAfterAlloc(e1, p, request, blocks, n, t2);
      var loads, op := staged.pending.loads, ForRequest(request.requestId, LoadPlan(request.CacheId().value, dst, m));
      && SamePrefix(tokens, request.Prompt(), computed + n)
      && Find(loads, request.requestId) == Some(op) && op in loads
      && LoadGivesBack(After(staged.engine, run), b0, layout, bpc, src, loads, times, op, reached, b1)
  }

  /** Wherever a load stands among those staged, if they all succeed it restores its blocks. */
  ghost predicate LoadGivesBack(
    e: Engine, b0: Blocks, layout: Layout, bpc: nat, src: seq<int>,
    loads: seq<LoadOp>, times: seq<Time>, op: LoadOp, reached: nat, b1: Blocks)
    requires e.Valid() && layout.blockSize > 0 && op.plan.numChunks >= 0
  {
    forall q :: 0 <= q < |loads| && loads[q] == op && |times| == |loads| ==>
      var ran, dst, m := StartLoad(e, b1, layout, loads, times), op.plan.blockIds, op.plan.numChunks;
      && ran.result.Ok?
      && Fits(b0, src, dst, bpc, layout.blockSize, m, reached)
      && Spared(loads[q + 1..], dst[..Reach(dst, bpc, m)], bpc) ==>
        BlocksReused(b0, src, ran.blocks, dst, layout.blockSize, reached)
  }

  lemma {:induction false} FoundIsIn<T(!new)>(ops: seq<ForRequest<T>>, id: string)
    ensures Find(ops, id).Some? ==> Find(ops, id).value in ops && Find(ops, id).value.requestId == id
  {
    if ops != [] && ops[0].requestId != id {
      FoundIsIn(ops[1..], id);
    }
  }

  /**
   * What an allocation stages. For a request that names a live id and has tokens to load, exactly
   * its load is staged: the id, the allocated blocks and the rounded-up chunk count, under the
   * request's id; loads of other requests stay. Otherwise no load changes.
   */
  lemma {:induction false} LoadStagedExactly(
    e: Engine, p: Pending, request: Request, blocks: KVBlocks, external: int, t: Time)
    requires e.Valid()
    ensures var staged, cid := UpdateAfterAlloc(e, p, request, blocks, external, t).pending, request.CacheId();
      if cid.Some? && external > 0 && e.Live(cid.value, t).result.Ok? then
        && Find(staged.loads, request.requestId) == Some(ForRequest(
             request.requestId, LoadPlan(cid.value, blocks.Ids(), CeilDiv(external, e.chunkSize))))
        && (forall id :: id != request.requestId ==> Find(staged.loads, id) == Find(p.loads, id))
        && RequestIds(staged.loads) ==
             RequestIds(p.loads) + (if request.requestId in RequestIds(p.loads) then [] else [request.requestId])
      else staged.loads == p.loads
    ensures var e' := UpdateAfterAlloc(e, p, request, blocks, external, t).engine;
      if request.CacheId().Some? && external > 0 then e' == e.Live(request.CacheId().value, t).engine else e' == e
  {
    hide CeilDiv, Stage, Find, Engine.Delete, Descriptor.ExpiredAt, RequestIds;
    if request.CacheId().Some? {
      StageOrder(p.loads, ForRequest(
        request.requestId, LoadPlan(request.CacheId().value, blocks.Ids(), CeilDiv(external, e.chunkSize))));
      assert RequestIds(p.loads) + [] == RequestIds(p.loads);
    }
  }

  /** A save is staged, for the request's whole prompt, exactly when the request asks for one. */
  lemma {:induction false} SaveStagedExactly(
    e: Engine, p: Pending, request: Request, blocks: KVBlocks, external: int, t: Time)
    requires e.Valid()
    ensures var staged, cid := UpdateAfterAlloc(e, p, request, blocks, external, t).pending, request.CacheId();
      if cid.Some? && request.params.value.save then
        var asked := request.params.value;
        && Find(staged.saves, request.requestId) == Some(ForRequest(
             request.requestId, SavePlan(cid.value, request.Prompt(), blocks.Ids(), asked.ttl, asked.pin)))
        && (forall id :: id != request.requestId ==> Find(staged.saves, id) == Find(p.saves, id))
        && RequestIds(staged.saves) ==
             RequestIds(p.saves) + (if request.requestId in RequestIds(p.saves) then [] else [request.requestId])
      else staged.saves == p.saves
  {
    hide CeilDiv, Stage, Find, Engine.Delete, Engine.Live, Descriptor.ExpiredAt, RequestIds;
    if request.CacheId().Some? {
      var asked := request.params.value;
      StageOrder(p.saves, ForRequest(
        request.requestId, SavePlan(request.CacheId().value, request.Prompt(), blocks.Ids(), asked.ttl, asked.pin)));
      assert RequestIds(p.saves) + [] == RequestIds(p.saves);
    }
  }

  /** A request with something to load: how many tokens it shares, and how few chunks it loads. */
  lemma {:induction false} MatchedShares(e: Engine, r: Record, request: Request, computed: nat, t0: Time, t1: Time)
    requires e.Valid() && request.CacheId().Some? && Faithful(e, request.CacheId().value, r)
    ensures var matched := NumNewMatched(e, request, computed, t0, t1);
      matched.result.Ok? && matched.result.value > 0 ==>
        && matched.engine == e
        && SamePrefix(r.tokens, request.Prompt(), computed + matched.result.value)
        && 0 <= CeilDiv(matched.result.value, e.chunkSize) <= CeilDiv(|r.tokens|, e.chunkSize)
  {
    hide Faithful, CeilDiv, Engine.Lookup, NumNewMatched, ReusedTokens;
    var cid, matched := request.CacheId().value, NumNewMatched(e, request, computed, t0, t1);
    if matched.result.Ok? && matched.result.value > 0 {
      MatchedIsLookup(e, r, request, computed, t0, t1);
      LookupReusable(e, cid, r, Some(request.Prompt()), t1);
      CeilDivApart(computed + matched.result.value, computed, e.chunkSize);
    }
  }

  /** From any engine faithful to the saved prompt, staged loads restore it. */
  lemma {:induction false} MatchStageLoad(
    e: Engine, b0: Blocks, layout: Layout, bpc: nat, tokens: seq<Token>, src: seq<int>,
    request: Request, computed: nat, blocks: KVBlocks, p: Pending, t0: Time, t1: Time, t2: Time,
    meanwhile: seq<Timed>, run: seq<Timed>, times: seq<Time>, b1: Blocks)
    requires e.Valid() && layout.chunkSize == e.chunkSize && layout.Bpc() == Ok(bpc)
    requires request.CacheId().Some?
    requires Untouched(meanwhile, request.CacheId().value) && Untouched(run, request.CacheId().value)
    ensures layout.blockSize > 0
    ensures
      Faithful(e, request.CacheId().value, BufferRecord(request.CacheId().value, tokens, b0, layout, bpc, src)) ==>
        StagedLoadRestores(
          e, b0, layout, bpc, tokens, src, request, computed, blocks, p, t0, t1, t2, meanwhile, run, times, b1)
  {
    hide Faithful, CeilDiv, SamePrefix, LoadGivesBack, Untouched, Engine.Live, Offset,
      NumNewMatched, UpdateAfterAlloc, Find, BufferRecord, BlocksPerChunk, RequestIds;
    var cid := request.CacheId().value;
    var record, matched := BufferRecord(cid, tokens, b0, layout, bpc, src), NumNewMatched(e, request, computed, t0, t1);
    ChunkIsBlocks(layout, bpc);
    BufferTokens(cid, tokens, b0, layout, bpc, src);
    if Faithful(e, cid, record) && matched.result.Ok? && matched.result.value > 0 {
      var n, e1 := matched.result.value, After(e, meanwhile);
      MatchedShares(e, record, request, computed, t0, t1);
      UntouchedFaithful(e, meanwhile, cid, record);
      UntouchedFaithful(e1, run, cid, record);
      if e1.Live(cid, t2).result.Ok? {
        var staged := UpdateAfterAlloc(e1, p, request, blocks, n, t2);
        var loads, m := staged.pending.loads, CeilDiv(n, e.chunkSize);
        var op := ForRequest(request.requestId, LoadPlan(cid, blocks.Ids(), m));
        LoadStagedExactly(e1, p, request, blocks, n, t2);
        LiveLeaves(e1, cid, t2);
        FoundIsIn(loads, request.requestId);
        LoadsGiveBack(After(e1, run), b0, layout, bpc, tokens, src, loads, times, op, computed + n, b1);
      }
    }
  }

  lemma {:induction false} LiveLeaves(e: Engine, cid: string, now: Time)
    ensures e.Live(cid, now).result.Ok? ==> e.Live(cid, now).engine == e
  {}

  /** The worker half, for one of the staged loads. */
  lemma {:induction false} LoadRestores(
    e: Engine, b0: Blocks, layout: Layout, bpc: nat, tokens: seq<Token>, src: seq<int>,
    loads: seq<LoadOp>, times: seq<Time>, q: nat, cid: string, total: nat, b1: Blocks)
    requires e.Valid() && |times| == |loads| && q < |loads| && loads[q].plan.cacheId == cid
    requires layout.chunkSize == e.chunkSize && layout.Bpc() == Ok(bpc)
    requires 0 <= loads[q].plan.numChunks <= CeilDiv(|tokens|, e.chunkSize)
    ensures layout.blockSize > 0
    ensures
      var ran, dst, m := StartLoad(e, b1, layout, loads, times), loads[q].plan.blockIds, loads[q].plan.numChunks;
      var reached := Min(total, Offset(m, layout.chunkSize));
      && ran.result.Ok? && Faithful(e, cid, BufferRecord(cid, tokens, b0, layout, bpc, src))
      && Fits(b0, src, dst, bpc, layout.blockSize, m, reached)
      && Spared(loads[q + 1..], dst[..Reach(dst, bpc, m)], bpc) ==>
        BlocksReused(b0, src, ran.blocks, dst, layout.blockSize, reached)
  {
    hide Faithful, StartLoad, CeilDiv, Reach, Distinct, Splittable, SameShape, BlocksReused, Copied, Offset,
      BufferRecord, BlocksPerChunk, Spared;
    var ran, dst, m := StartLoad(e, b1, layout, loads, times), loads[q].plan.blockIds, loads[q].plan.numChunks;
    var reached := Min(total, Offset(m, layout.chunkSize));
    ChunkIsBlocks(layout, bpc);
    if Fits(b0, src, dst, bpc, layout.blockSize, m, reached) {
      StartLoadBringsBack(e, b1, layout, bpc, loads, times, q, cid, tokens, b0, src);
      if Copied(b0, src, ran.blocks, dst, 0, Reach(dst, bpc, m)) {
        CopiedCovers(b0, src, ran.blocks, dst, layout.blockSize, bpc, m, reached);
      }
    }
  }

  lemma {:induction false} LoadsGiveBack(
    e: Engine, b0: Blocks, layout: Layout, bpc: nat, tokens: seq<Token>, src: seq<int>,
    loads: seq<LoadOp>, times: seq<Time>, op: LoadOp, total: nat, b1: Blocks)
    requires e.Valid() && layout.chunkSize == e.chunkSize && layout.Bpc() == Ok(bpc)
    requires 0 <= op.plan.numChunks <= CeilDiv(|tokens|, e.chunkSize)
    ensures layout.blockSize > 0
    ensures Faithful(e, op.plan.cacheId, BufferRecord(op.plan.cacheId, tokens, b0, layout, bpc, src)) ==>
      LoadGivesBack(e, b0, layout, bpc, src, loads, times, op,
        Min(total, Offset(op.plan.numChunks, layout.chunkSize)), b1)
  {
    hide Faithful, StartLoad, CeilDiv, Reach, Fits, BlocksReused, Offset, BufferRecord, BlocksPerChunk, Spared;
    ChunkIsBlocks(layout, bpc);
    forall q | 0 <= q < |loads| && loads[q] == op && |times| == |loads| {
      LoadRestores(e, b0, layout, bpc, tokens, src, loads, times, q, op.plan.cacheId, total, b1);
    }
  }

  /**
   * End-to-end KV reuse through the vLLM connector. A worker step saves what was staged; any
   * operations run that do not write the id of one of the saves; a request naming that id is
   * matched, staged and loaded among others, again with any such operations in between. The load
   * then restores the blocks that were saved, for every token of the chunks it was staged with.
   */
  lemma {:induction false} SaveMatchStageLoad(
    e: Engine, b0: Blocks, layout: Layout, bpc: nat, saves: seq<SaveOp>, savedAt: seq<Time>, k: nat,
    between: seq<Timed>, request: Request, computed: nat, blocks: KVBlocks, p: Pending, t0: Time, t1: Time, t2: Time,
    meanwhile: seq<Timed>, run: seq<Timed>, times: seq<Time>, b1: Blocks)
    requires e.Valid() && layout.chunkSize == e.chunkSize && layout.Bpc() == Ok(bpc)
    requires |savedAt| == |saves| && k < |saves|
    requires forall i :: k < i < |saves| ==> saves[i].plan.cacheId != saves[k].plan.cacheId
    requires request.CacheId() == Some(saves[k].plan.cacheId)
    requires Untouched(between, saves[k].plan.cacheId) && Untouched(meanwhile, saves[k].plan.cacheId)
    requires Untouched(run, saves[k].plan.cacheId)
    ensures layout.blockSize > 0
    ensures
      var saved := WaitForSave(e, b0, layout, saves, savedAt);
      saved.result.Ok? ==>
        StagedLoadRestores(After(saved.engine, between), b0, layout, bpc,
          saves[k].plan.tokenIds, saves[k].plan.blockIds, request, computed, blocks, p, t0, t1, t2,
          meanwhile, run, times, b1)
  {
    hide Faithful, StagedLoadRestores, WaitForSave, BufferRecord, BlocksPerChunk, Untouched;
    var saved, op := WaitForSave(e, b0, layout, saves, savedAt), saves[k].plan;
    ChunkIsBlocks(layout, bpc);
    if saved.result.Ok? {
      var record := BufferRecord(op.cacheId, op.tokenIds, b0, layout, bpc, op.blockIds);
      WaitForSaveFaithful(e, b0, layout, bpc, saves, savedAt, k);
      UntouchedFaithful(saved.engine, between, op.cacheId, record);
      MatchStageLoad(After(saved.engine, between), b0, layout, bpc, op.tokenIds, op.blockIds,
        request, computed, blocks, p, t0, t1, t2, meanwhile, run, times, b1);
    }
  }

  lemma {:induction false} BufferTokens(
    cid: string, tokens: seq<Token>, b0: Blocks, layout: Layout, bpc: nat, src: seq<int>)
    requires layout.chunkSize > 0
    ensures BufferRecord(cid, tokens, b0, layout, bpc, src).tokens == tokens
  {}

  // ---- pinned prompts always come back ----------------------------------------------------

  /** When what is saved at `at` expires. */
  function Deadline(e: Engine, ttl: Option<Time>, at: Time): Option<Time> {
    var life := if ttl.Some? then ttl else e.defaultTtl;
    if life.Some? then Some(at + life.value) else None
  }

  /** A save that commits, pinned or over a store without a byte budget, leaves every chunk held. */
  lemma {:induction false} SaveHolds(
    e: Engine, cid: string, tokens: seq<Token>, payloads: seq<Payload>, numLayers: int,
    ttl: Option<Time>, pin: bool, now: Time)
    requires e.Valid() && |payloads| == |Chunks(tokens, e.chunkSize)| && (pin || e.store.hot.capacity.None?)
    requires SaveCache(e, cid, tokens, payloads, numLayers, ttl, pin, now).result.Ok?
    ensures Held(SaveCache(e, cid, tokens, payloads, numLayers, ttl, pin, now).engine, cid,
      SavedRecord(cid, tokens, payloads), Deadline(e, ttl, now))
  {
    hide Store.View, Store.Valid, PutAll, Chunks, EntryMap, Sorted, FingerprintsOf, TotalLength, HoldsIn;
    var es, r := ShardEntries(cid, Shard(0, payloads)), SavedRecord(cid, tokens, payloads);
    SaveFaithful(e, cid, tokens, payloads, numLayers, ttl, pin, now);
    forall k | k in r.table ensures HoldsIn(PutAll(e.store, es, pin).store, k, r.table[k]) {
      PutAllHolds(e.store, es, pin, k, r.table[k]);
    }
  }

  /** While held and not expired, a cache is always retrieved, with all that can be reused. */
  lemma {:induction false} HeldRetrieves(
    e: Engine, layout: Layout, cid: string, r: Record, expiresAt: Option<Time>,
    b1: Blocks, dst: seq<int>, request: Option<seq<Token>>, t0: Time, t1: Time, t2: Time)
    requires e.Valid() && Held(e, cid, r, expiresAt) && 0 in r.workers && layout.Bpc().Ok?
    requires !ExpiredBy(expiresAt, t0) && !ExpiredBy(expiresAt, t1) && !ExpiredBy(expiresAt, t2)
    ensures Retrieve(e, b1, layout, cid, dst, request, t0, t1, t2).result ==
      Ok(ReusedTokens(r.tokens, Wanted(request, r.tokens), e.chunkSize))
  {
    hide Held, Engine.Load, MatchedChunks, LoadInto, ReusedTokens, Wanted, BlocksPerChunk, Faithful;
    HeldLive(e, cid, r, expiresAt);
    HeldFaithful(e, cid, r, expiresAt);
    LookupReusable(e, cid, r, request, t1);
    var hit := e.Lookup(cid, request, t1);
    HeldLoadsAny(e, cid, r, expiresAt, Some(hit.result.value.numChunks), 0, t2);
  }

  lemma {:induction false} HeldLive(e: Engine, cid: string, r: Record, expiresAt: Option<Time>)
    requires e.Valid() && Held(e, cid, r, expiresAt)
    ensures forall now :: !ExpiredBy(expiresAt, now) ==> e.Live(cid, now).result.Ok?
    ensures cid in e.descs && e.descs[cid].expiresAt == expiresAt
  {}

  /** And a request for it always matches, with all that can be reused beyond what is computed. */
  lemma {:induction false} HeldMatches(
    e: Engine, request: Request, computed: nat, r: Record, expiresAt: Option<Time>, t0: Time, t1: Time)
    requires e.Valid() && request.CacheId().Some? && Held(e, request.CacheId().value, r, expiresAt)
    requires !ExpiredBy(expiresAt, t0) && !ExpiredBy(expiresAt, t1)
    ensures var reused := ReusedTokens(r.tokens, request.Prompt(), e.chunkSize);
      NumNewMatched(e, request, computed, t0, t1).result == Ok(if reused > computed then reused - computed else 0)
  {
    hide Held, MatchedChunks, ReusedTokens, Faithful;
    var cid := request.CacheId().value;
    HeldLive(e, cid, r, expiresAt);
    HeldFaithful(e, cid, r, expiresAt);
    LookupReusable(e, cid, r, Some(request.Prompt()), t1);
  }

  /** The loads before one, then that one. */
  lemma {:induction false} StartLoadAppend(
    e: Engine, blocks: Blocks, layout: Layout, loads: seq<LoadOp>, times: seq<Time>, q: nat)
    requires e.Valid() && |times| == |loads| && q < |loads|
    ensures var before := StartLoad(e, blocks, layout, loads[..q], times[..q]);
      before.result.Ok? ==>
        StartLoad(e, blocks, layout, loads[..q + 1], times[..q + 1]) ==
          StartLoad(before.engine, before.blocks, layout, [loads[q]], [times[q]])
    decreases q
  {
    hide Engine.Load, LoadInto, BlocksPerChunk;
    if q == 0 {
      assert loads[..1] == [loads[0]] && times[..1] == [times[0]];
    } else {
      var op := loads[0].plan;
      var loaded := e.Load(op.cacheId, Some(op.numChunks), 0, times[0]);
      StepValid(e, DoLoad(op.cacheId, Some(op.numChunks), 0), times[0]);
      LoadIsStep(e, op.cacheId, Some(op.numChunks), times[0]);
      assert loads[..q][1..] == loads[1..][..q - 1] && times[..q][1..] == times[1..][..q - 1];
      assert loads[..q + 1][1..] == loads[1..][..q] && times[..q + 1][1..] == times[1..][..q];
      if loaded.result.Ok? && layout.Bpc().Ok? {
        var next := LoadInto(blocks, op.blockIds, loaded.result.value, layout.Bpc().value, 0);
        StartLoadAppend(loaded.engine, next, layout, loads[1..], times[1..], q - 1);
      }
    }
  }

  /** Loads of any caches, before it expires, leave a held cache held. */
  lemma {:induction false} LoadsKeepHeld(
    e: Engine, blocks: Blocks, layout: Layout, loads: seq<LoadOp>, times: seq<Time>,
    cid: string, r: Record, expiresAt: Option<Time>)
    requires e.Valid() && |times| == |loads| && Held(e, cid, r, expiresAt)
    requires forall i :: 0 <= i < |times| ==> !ExpiredBy(expiresAt, times[i])
    ensures Held(StartLoad(e, blocks, layout, loads, times).engine, cid, r, expiresAt)
    decreases |loads|
  {
    hide Held, Engine.Load, LoadInto, BlocksPerChunk, ExpiredBy;
    if loads != [] {
      var op := loads[0].plan;
      var loaded := e.Load(op.cacheId, Some(op.numChunks), 0, times[0]);
      StepValid(e, DoLoad(op.cacheId, Some(op.numChunks), 0), times[0]);
      LoadIsStep(e, op.cacheId, Some(op.numChunks), times[0]);
      StepKeepsHeld(e, DoLoad(op.cacheId, Some(op.numChunks), 0), times[0], cid, r, expiresAt);
      if loaded.result.Ok? && layout.Bpc().Ok? {
        var next := LoadInto(blocks, op.blockIds, loaded.result.value, layout.Bpc().value, 0);
        LoadsKeepHeld(loaded.engine, next, layout, loads[1..], times[1..], cid, r, expiresAt);
      }
    }
  }

  /**
   * A staged load of a held cache never fails: if the loads staged before it succeed, so does it,
   * and where the block lists fit it restores the blocks of the tokens it was staged for.
   */
  lemma {:induction false} HeldStagedLoad(
    e: Engine, b0: Blocks, layout: Layout, bpc: nat, tokens: seq<Token>, src: seq<int>, expiresAt: Option<Time>,
    loads: seq<LoadOp>, times: seq<Time>, q: nat, cid: string, total: nat, b1: Blocks)
    requires e.Valid() && |times| == |loads| && q < |loads| && loads[q].plan.cacheId == cid
    requires layout.chunkSize == e.chunkSize && layout.Bpc() == Ok(bpc)
    requires 0 <= loads[q].plan.numChunks <= CeilDiv(|tokens|, e.chunkSize)
    requires forall i :: 0 <= i <= q ==> !ExpiredBy(expiresAt, times[i])
    ensures layout.blockSize > 0
    ensures
      var before := StartLoad(e, b1, layout, loads[..q], times[..q]);
      var ran := StartLoad(e, b1, layout, loads[..q + 1], times[..q + 1]);
      var dst, m := loads[q].plan.blockIds, loads[q].plan.numChunks;
      var reached := Min(total, Offset(m, layout.chunkSize));
      before.result.Ok? && Held(e, cid, BufferRecord(cid, tokens, b0, layout, bpc, src), expiresAt) ==>
        && ran.result.Ok?
        && (Fits(b0, src, dst, bpc, layout.blockSize, m, reached) ==>
              BlocksReused(b0, src, ran.blocks, dst, layout.blockSize, reached))
  {
    hide Held, Faithful, StartLoad, CeilDiv, Reach, Fits, BlocksReused, Offset, BufferRecord, BlocksPerChunk, ExpiredBy;
    var record := BufferRecord(cid, tokens, b0, layout, bpc, src);
    ChunkIsBlocks(layout, bpc);
    BufferWorker(cid, tokens, b0, layout, bpc, src);
    StartLoadAppend(e, b1, layout, loads, times, q);
    var before := StartLoad(e, b1, layout, loads[..q], times[..q]);
    if before.result.Ok? && Held(e, cid, record, expiresAt) {
      HeldFaithful(e, cid, record, expiresAt);
      LoadsKeepHeld(e, b1, layout, loads[..q], times[..q], cid, record, expiresAt);
      HeldLoadsAny(before.engine, cid, record, expiresAt, Some(loads[q].plan.numChunks), 0, times[q]);
      OneLoadSucceeds(before.engine, before.blocks, layout, loads[q], times[q]);
      assert loads[..q + 1][q + 1..] == [];
      LoadRestores(e, b0, layout, bpc, tokens, src, loads[..q + 1], times[..q + 1], q, cid, total, b1);
    }
  }

  lemma {:induction false} OneLoadSucceeds(e: Engine, blocks: Blocks, layout: Layout, op: LoadOp, t: Time)
    requires e.Valid() && layout.Bpc().Ok? && e.Load(op.plan.cacheId, Some(op.plan.numChunks), 0, t).result.Ok?
    ensures StartLoad(e, blocks, layout, [op], [t]).result.Ok?
  {
    hide Engine.Load, BlocksPerChunk, LoadInto;
    assert [op][1..] == [] && [t][1..] == [];
  }

  lemma {:induction false} BufferWorker(
    cid: string, tokens: seq<Token>, b0: Blocks, layout: Layout, bpc: nat, src: seq<int>)
    requires layout.chunkSize > 0
    ensures 0 in BufferRecord(cid, tokens, b0, layout, bpc, src).workers
  {}

  /**
   * Pinned prompts always come back, and over a store without a byte budget all prompts do. Store a
   * prompt's blocks; then, after any run before it expires that does not write, unpin, delete or
   * extend the id, failing operations included, a retrieve succeeds and returns all that the request
   * can reuse, and the blocks of those tokens hold what was stored.
   */
  lemma {:induction false} PinnedPromptsComeBack(
    e: Engine, b0: Blocks, layout: Layout, bpc: nat, cid: string, tokens: seq<Token>, src: seq<int>,
    ttl: Option<Time>, pin: bool, at: Time, run: seq<Timed>,
    b1: Blocks, dst: seq<int>, request: Option<seq<Token>>, t0: Time, t1: Time, t2: Time)
    requires e.Valid() && layout.chunkSize == e.chunkSize && layout.Bpc() == Ok(bpc)
    requires pin || e.store.hot.capacity.None?
    requires forall n :: 0 <= n < |run| ==> !Disturbs(run[n].op, cid) && !ExpiredBy(Deadline(e, ttl, at), run[n].now)
    requires forall t :: t in [t0, t1, t2] ==> !ExpiredBy(Deadline(e, ttl, at), t)
    ensures
      var saved := SaveTokens(e, b0, layout, cid, tokens, src, ttl, pin, at);
      var r := Retrieve(After(saved.engine, run), b1, layout, cid, dst, request, t0, t1, t2);
      var n := ReusedTokens(tokens, Wanted(request, tokens), e.chunkSize);
      saved.result.Ok? ==>
        && r.result == Ok(n)
        && (Fits(b0, src, dst, bpc, layout.blockSize, CeilDiv(n, e.chunkSize), n) ==>
              BlocksReused(b0, src, r.blocks, dst, layout.blockSize, n))
  {
    hide Held, SaveTokens, Retrieve, ReusedTokens, Wanted, Fits, BlocksReused, SamePrefix, OnlyTouches, BlocksPerChunk,
      Deadline, CeilDiv;
    var saved := SaveTokens(e, b0, layout, cid, tokens, src, ttl, pin, at);
    if saved.result.Ok? {
      SaveTokensHolds(e, b0, layout, bpc, cid, tokens, src, ttl, pin, at);
      var record := BufferRecord(cid, tokens, b0, layout, bpc, src);
      HeldForever(saved.engine, run, cid, record, Deadline(e, ttl, at));
      BufferTokens(cid, tokens, b0, layout, bpc, src);
      assert t0 in [t0, t1, t2] && t1 in [t0, t1, t2] && t2 in [t0, t1, t2];
      HeldRetrieves(After(saved.engine, run), layout, cid, record, Deadline(e, ttl, at), b1, dst, request, t0, t1, t2);
      StoreThenRetrieve(e, b0, layout, bpc, cid, tokens, src, ttl, pin, at, run, b1, dst, request, t0, t1, t2);
    }
  }

  lemma {:induction false} SaveTokensHolds(
    e: Engine, b0: Blocks, layout: Layout, bpc: nat, cid: string, tokens: seq<Token>, src: seq<int>,
    ttl: Option<Time>, pin: bool, at: Time)
    requires e.Valid() && layout.chunkSize == e.chunkSize && layout.Bpc() == Ok(bpc)
    requires pin || e.store.hot.capacity.None?
    requires SaveTokens(e, b0, layout, cid, tokens, src, ttl, pin, at).result.Ok?
    ensures 0 in BufferRecord(cid, tokens, b0, layout, bpc, src).workers
    ensures Held(SaveTokens(e, b0, layout, cid, tokens, src, ttl, pin, at).engine, cid,
      BufferRecord(cid, tokens, b0, layout, bpc, src), Deadline(e, ttl, at))
  {
    hide Held, SaveCache, Chunks, CeilDiv, Deadline;
    ChunksPartition(tokens, e.chunkSize);
    SaveHolds(e, cid, tokens,
      SaveFrom(b0, src, CeilDiv(|tokens|, e.chunkSize), bpc, layout.chunkSize, layout.numLayers),
      layout.numLayers, ttl, pin, at);
  }
}
