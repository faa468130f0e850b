/**
 * Moving KV between a paged buffer and chunk payloads (src/llmcache/connectors/transfer.py):
 * the in-memory buffer of DictKVTransfer, a map from block id to bytes.
 */
module Transfer {
  import opened Wrappers
  import opened Payloads
  import opened Arithmetic
  import opened Types

  /** The ValueError and ZeroDivisionError of `blocks_per_chunk`. */
  datatype TransferError = NotAMultiple | ZeroBlockSize

  type Blocks = map<int, seq<byte>>

  function BlocksPerChunk(blockSize: nat, chunkSize: nat): Result<nat, TransferError> {
    if blockSize == 0 then Err(ZeroBlockSize)
    else if chunkSize % blockSize != 0 then Err(NotAMultiple)
    else Ok(chunkSize / blockSize)
  }

  /** Where part or chunk number i starts, in units of one size. */
  function Offset(i: nat, size: nat): nat {
    i * size
  }

  lemma {:induction false} OffsetStep(i: nat, n: nat, size: nat)
    ensures Offset(0, size) == 0 && Offset(i + 1, size) == Offset(i, size) + size
    ensures i <= n ==> Offset(i, size) <= Offset(n, size)
    ensures i < n ==> Offset(i, size) + size <= Offset(n, size)
  {
    assert (i + 1) * size == i * size + size;
    OffsetMonotone(i, n, size);
    OffsetMonotone(i + 1, n, size);
  }

  lemma {:induction false} OffsetMonotone(i: nat, n: nat, size: nat)
    ensures i <= n ==> Offset(i, size) <= Offset(n, size)
  {
    if i <= n {
      assert (n - i) * size == n * size - i * size;
    }
  }

  /** `block_ids[i * bpc : (i + 1) * bpc]`. */
  function ChunkBlocks(ids: seq<int>, bpc: nat, i: nat): (r: seq<int>)
    ensures |r| == Min(Offset(i, bpc) + bpc, |ids|) - Min(Offset(i, bpc), |ids|)
    ensures forall t :: 0 <= t < |r| ==> r[t] == ids[Offset(i, bpc) + t]
  {
    Slice(ids, Offset(i, bpc), Offset(i, bpc) + bpc)
  }

  // ---- splitting and joining --------------------------------------------------------------

  function PartSize(len: nat, n: nat): (size: nat)
    requires n > 0
    ensures size > 0
  {
    var s := (len + n - 1) / n;
    if s < 1 then 1 else s
  }

  /**
   * `_split`: n slices of the rounded-up size, clamped at the end of the data. There are always
   * n of them, so the padding loop that follows in the source never runs.
   */
  function Split(data: seq<byte>, n: nat): (parts: seq<seq<byte>>)
    ensures |parts| == n
  {
    if n == 0 then [] else Parts(data, PartSize(|data|, n), n)
  }

  function Parts(data: seq<byte>, size: nat, n: nat): (parts: seq<seq<byte>>)
    ensures |parts| == n
    ensures forall i :: 0 <= i < n ==> parts[i] == Slice(data, Offset(i, size), Offset(i, size) + size)
  {
    seq(n, i requires 0 <= i < n => Slice(data, Offset(i, size), Offset(i, size) + size))
  }

  /** n parts of the rounded-up size reach the end of the data. */
  lemma {:induction false} PartSizeEnough(len: nat, n: nat)
    requires n > 0
    ensures Offset(n, PartSize(len, n)) >= len
  {
    var s := (len + n - 1) / n;
    assert len + n - 1 == n * s + (len + n - 1) % n;
    assert n * PartSize(len, n) >= n * s by {
      assert PartSize(len, n) == 1 ==> n * 1 == n;
    }
  }

  lemma {:induction false} JoinParts(data: seq<byte>, size: nat, n: nat, i: nat)
    requires i <= n && Offset(n, size) >= |data|
    ensures Join(Parts(data, size, n)[i..]) == data[Min(Offset(i, size), |data|)..]
    decreases n - i
  {
    hide Offset, Join, Slice;
    var parts := Parts(data, size, n);
    OffsetStep(i, n, size);
    if i == n {
      JoinNone(parts[n..]);
    } else {
      JoinHead(parts[i..]);
      JoinParts(data, size, n, i + 1);
      assert parts[i..][1..] == parts[i + 1..];
      SliceThenRest(data, Offset(i, size), size);
    }
  }

  lemma {:induction false} SliceThenRest(data: seq<byte>, lo: nat, size: nat)
    ensures Slice(data, lo, lo + size) + data[Min(lo + size, |data|)..] == data[Min(lo, |data|)..]
  {}

  lemma {:induction false} JoinNone(blocks: seq<seq<byte>>)
    ensures blocks == [] ==> Join(blocks) == []
  {}

  /** Splitting into n parts loses nothing: there are n, and they concatenate to the data. */
  lemma {:induction false} SplitPartition(data: seq<byte>, n: nat)
    requires n > 0
    ensures |Split(data, n)| == n && Join(Split(data, n)) == data
  {
    hide PartSize;
    var size := PartSize(|data|, n);
    PartSizeEnough(|data|, n);
    JoinParts(data, size, n, 0);
    OffsetStep(0, n, size);
    assert Split(data, n)[0..] == Split(data, n);
  }

  ghost predicate AllOfSize(blocks: seq<seq<byte>>, size: nat) {
    forall i :: 0 <= i < |blocks| ==> |blocks[i]| == size
  }

  lemma {:induction false} JoinLength(blocks: seq<seq<byte>>, size: nat)
    requires AllOfSize(blocks, size)
    ensures |Join(blocks)| == Offset(|blocks|, size)
  {
    hide Offset;
    if blocks != [] {
      JoinLength(blocks[1..], size);
      OffsetStep(|blocks| - 1, |blocks|, size);
    } else {
      OffsetStep(0, 0, size);
    }
  }

  lemma {:induction false} JoinSlice(blocks: seq<seq<byte>>, size: nat, i: nat)
    requires AllOfSize(blocks, size) && i < |blocks|
    ensures Slice(Join(blocks), Offset(i, size), Offset(i, size) + size) == blocks[i]
  {
    hide Offset, Slice, Join;
    JoinHead(blocks);
    var tail := Join(blocks[1..]);
    if i == 0 {
      OffsetStep(0, 0, size);
    } else {
      JoinSlice(blocks[1..], size, i - 1);
      OffsetStep(i - 1, i, size);
      SliceShift(blocks[0], tail, Offset(i - 1, size), size);
    }
  }

  lemma {:induction false} JoinHead(blocks: seq<seq<byte>>)
    requires blocks != []
    ensures Join(blocks) == blocks[0] + Join(blocks[1..])
    ensures Slice(Join(blocks), 0, |blocks[0]|) == blocks[0]
  {}

  lemma {:induction false} SliceShift(head: seq<byte>, tail: seq<byte>, lo: nat, size: nat)
    ensures Slice(head + tail, |head| + lo, |head| + lo + size) == Slice(tail, lo, lo + size)
  {}

  /** Splitting undoes joining for blocks of one size, the empty size included. */
  lemma {:induction false} SplitUndoesJoin(blocks: seq<seq<byte>>, size: nat)
    requires blocks != [] && AllOfSize(blocks, size)
    ensures Split(Join(blocks), |blocks|) == blocks
  {
    hide Offset, Join;
    var n, data := |blocks|, Join(blocks);
    JoinLength(blocks, size);
    EvenPartSize(n, size);
    forall i | 0 <= i < n ensures Split(data, n)[i] == blocks[i] {
      JoinSlice(blocks, size, i);
    }
  }

  /** n blocks of one size are split back at that size; empty data at size one. */
  lemma {:induction false} EvenPartSize(n: nat, size: nat)
    requires n > 0
    ensures PartSize(Offset(n, size), n) == if size == 0 then 1 else size
    ensures Offset(n, 0) == 0
  {
    DivisionUnique(n * size + n - 1, n, size, n - 1);
  }

  /** Each block has the length of the part that a split of the joined data puts in its place. */
  ghost predicate SplitSized(blocks: seq<seq<byte>>) {
    blocks != [] ==>
      var total := |Join(blocks)|;
      var size := PartSize(total, |blocks|);
      forall i :: 0 <= i < |blocks| ==>
        |blocks[i]| == Min(Offset(i, size) + size, total) - Min(Offset(i, size), total)
  }

  /** The blocks before a position, then that block, then the rest. */
  lemma {:induction false} JoinAt(blocks: seq<seq<byte>>, i: nat)
    requires i < |blocks|
    ensures var lo := |Join(blocks[..i])|;
      && |Join(blocks[..i + 1])| == lo + |blocks[i]| <= |Join(blocks)|
      && Join(blocks)[lo..lo + |blocks[i]|] == blocks[i]
  {
    JoinConcat(blocks[..i], blocks[i..]);
    JoinConcat(blocks[..i], [blocks[i]]);
    assert blocks == blocks[..i] + blocks[i..] && blocks[..i + 1] == blocks[..i] + [blocks[i]];
    JoinHead(blocks[i..]);
    assert Join([blocks[i]]) == blocks[i] + Join([]);
  }

  lemma {:induction false} JoinConcat(a: seq<seq<byte>>, b: seq<seq<byte>>)
    ensures Join(a + b) == Join(a) + Join(b)
  {
    if a == [] {
      assert a + b == b;
    } else {
      assert (a + b)[1..] == a[1..] + b;
      JoinConcat(a[1..], b);
    }
  }

  /** Blocks of such lengths start where the parts do. */
  lemma {:induction false} SplitSizedStarts(blocks: seq<seq<byte>>, i: nat)
    requires blocks != [] && SplitSized(blocks) && i <= |blocks|
    ensures var total := |Join(blocks)|;
      |Join(blocks[..i])| == Min(Offset(i, PartSize(total, |blocks|)), total)
  {
    hide Join, PartSize;
    var size := PartSize(|Join(blocks)|, |blocks|);
    if i == 0 {
      JoinNone(blocks[..0]);
      OffsetStep(0, 0, size);
    } else {
      SplitSizedStarts(blocks, i - 1);
      JoinAt(blocks, i - 1);
      OffsetStep(i - 1, i, size);
    }
  }

  /**
   * When splitting undoes joining: exactly for blocks of the lengths that a split gives, which are
   * equal but for the last ones (blocks of 4, 4 and 2 bytes come back, blocks of 4, 2 and 4 do not).
   */
  lemma {:induction false} SplitUndoesJoinExactly(blocks: seq<seq<byte>>)
    requires blocks != []
    ensures Split(Join(blocks), |blocks|) == blocks <==> SplitSized(blocks)
  {
    hide Join, PartSize, Offset;
    var data, n := Join(blocks), |blocks|;
    var size := PartSize(|data|, n);
    if SplitSized(blocks) {
      forall i | 0 <= i < n ensures Split(data, n)[i] == blocks[i] {
        SplitSizedStarts(blocks, i);
        JoinAt(blocks, i);
      }
    }
  }

  /** Blocks of one size have those lengths. */
  lemma {:induction false} EqualIsSplitSized(blocks: seq<seq<byte>>, size: nat)
    requires AllOfSize(blocks, size)
    ensures SplitSized(blocks)
  {
    if blocks != [] {
      SplitUndoesJoin(blocks, size);
      SplitUndoesJoinExactly(blocks);
    }
  }

  // ---- saving and loading -----------------------------------------------------------------

  /** `self.blocks.get(blk, b"")`. */
  function BlockData(blocks: Blocks, id: int): seq<byte> {
    if id in blocks then blocks[id] else []
  }

  function Gather(blocks: Blocks, ids: seq<int>): (r: seq<seq<byte>>)
    ensures |r| == |ids|
    ensures forall t :: 0 <= t < |ids| ==> r[t] == BlockData(blocks, ids[t])
  {
    seq(|ids|, t requires 0 <= t < |ids| => BlockData(blocks, ids[t]))
  }

  function ChunkPayload(blocks: Blocks, ids: seq<int>, bpc: nat, chunkSize: nat, numLayers: int, i: nat): Payload {
    Payload(Join(Gather(blocks, ChunkBlocks(ids, bpc, i))), chunkSize, numLayers, "raw", map[])
  }

  /** What `save_from` returns, for a chunk count that may be zero or less. */
  function SaveFrom(blocks: Blocks, ids: seq<int>, numChunks: int, bpc: nat, chunkSize: nat, numLayers: int)
    : (out: seq<Payload>)
    ensures |out| == if numChunks < 0 then 0 else numChunks
    ensures forall i :: 0 <= i < |out| ==> out[i] == ChunkPayload(blocks, ids, bpc, chunkSize, numLayers, i)
  {
    var n := if numChunks < 0 then 0 else numChunks;
    seq(n, i requires 0 <= i < n => ChunkPayload(blocks, ids, bpc, chunkSize, numLayers, i))
  }

  function WriteParts(blocks: Blocks, ids: seq<int>, parts: seq<seq<byte>>): Blocks
    requires |ids| == |parts|
    decreases ids
  {
    if ids == [] then blocks else WriteParts(blocks[ids[0] := parts[0]], ids[1..], parts[1..])
  }

  /** What `load_into` leaves in the buffer, from chunk i on. */
  function LoadInto(blocks: Blocks, ids: seq<int>, payloads: seq<Payload>, bpc: nat, i: nat): Blocks
    decreases |payloads| - i
  {
    if i >= |payloads| then blocks
    else
      var chunk := ChunkBlocks(ids, bpc, i);
      LoadInto(WriteParts(blocks, chunk, Split(payloads[i].data, |chunk|)), ids, payloads, bpc, i + 1)
  }

  /** The paged buffer of the offline transfer. */
  class DictKVTransfer {
    const blockSize: nat
    const chunkSize: nat
    const numLayers: int
    var blocks: Blocks

    constructor (blockSize: nat, chunkSize: nat, numLayers: int)
      ensures this.blockSize == blockSize && this.chunkSize == chunkSize && this.numLayers == numLayers
      ensures blocks == map[]
    {
      this.blockSize, this.chunkSize, this.numLayers := blockSize, chunkSize, numLayers;
      blocks := map[];
    }

    method LoadBlocks(ids: seq<int>, payloads: seq<Payload>) returns (r: Result<(), TransferError>)
      modifies this
      ensures match BlocksPerChunk(blockSize, chunkSize)
        case Err(e) => r == Err(e) && blocks == old(blocks)
        case Ok(bpc) => r == Ok(()) && blocks == LoadInto(old(blocks), ids, payloads, bpc, 0)
    {
      var q := BlocksPerChunk(blockSize, chunkSize);
      if q.Err? {
        return Err(q.error);
      }
      var bpc := q.value;
      for i := 0 to |payloads|
        invariant LoadInto(blocks, ids, payloads, bpc, i) == LoadInto(old(blocks), ids, payloads, bpc, 0)
      {
        var chunk := ChunkBlocks(ids, bpc, i);
        var parts := Split(payloads[i].data, |chunk|);
        WriteChunk(chunk, parts);
      }
      return Ok(());
    }

    /** The inner loop: `for blk, part in zip(chunk_blocks, parts)`. */
    method WriteChunk(chunk: seq<int>, parts: seq<seq<byte>>)
      requires |chunk| == |parts|
      modifies this
      ensures blocks == WriteParts(old(blocks), chunk, parts)
    {
      for t := 0 to |chunk|
        invariant WriteParts(blocks, chunk[t..], parts[t..]) == WriteParts(old(blocks), chunk, parts)
      {
        assert chunk[t..][1..] == chunk[t + 1..] && parts[t..][1..] == parts[t + 1..];
        blocks := blocks[chunk[t] := parts[t]];
      }
    }

    method SaveBlocks(ids: seq<int>, numChunks: int) returns (r: Result<seq<Payload>, TransferError>)
      ensures match BlocksPerChunk(blockSize, chunkSize)
        case Err(e) => r == Err(e)
        case Ok(bpc) => r == Ok(SaveFrom(blocks, ids, numChunks, bpc, chunkSize, numLayers))
    {
      var q := BlocksPerChunk(blockSize, chunkSize);
      if q.Err? {
        return Err(q.error);
      }
      hide ChunkPayload, BlocksPerChunk;
      var bpc := q.value;
      var out: seq<Payload> := [];
      var i := 0;
      while i < numChunks
        invariant i == 0 || 0 < i <= numChunks
        invariant |out| == i
        invariant forall j :: 0 <= j < i ==> out[j] == ChunkPayload(blocks, ids, bpc, chunkSize, numLayers, j)
        decreases numChunks - i
      {
        out := out + [ChunkPayload(blocks, ids, bpc, chunkSize, numLayers, i)];
        i := i + 1;
      }
      assert out == SaveFrom(blocks, ids, numChunks, bpc, chunkSize, numLayers);
      return Ok(out);
    }
  }

  // ---- save then load ---------------------------------------------------------------------

  ghost predicate Distinct(ids: seq<int>) {
    forall s, t :: 0 <= s < t < |ids| ==> ids[s] != ids[t]
  }

  lemma {:induction false} WritePartsAt(blocks: Blocks, ids: seq<int>, parts: seq<seq<byte>>)
    requires |ids| == |parts| && Distinct(ids)
    ensures var r := WriteParts(blocks, ids, parts);
      && (forall t :: 0 <= t < |ids| ==> ids[t] in r && r[ids[t]] == parts[t])
      && (forall b :: b !in ids ==> (b in r <==> b in blocks) && (b in r ==> r[b] == blocks[b]))
    decreases ids
  {
    if ids != [] {
      WritePartsAt(blocks[ids[0] := parts[0]], ids[1..], parts[1..]);
      forall t | 0 <= t < |ids|
        ensures ids[t] in WriteParts(blocks, ids, parts) && WriteParts(blocks, ids, parts)[ids[t]] == parts[t]
      {
        if t > 0 {
          assert ids[t] == ids[1..][t - 1] && parts[t] == parts[1..][t - 1];
        } else {
          assert ids[0] !in ids[1..];
        }
      }
      assert forall b :: b !in ids ==> b !in ids[1..] && b != ids[0];
    }
  }

  /** Positions of the block list that the first m chunks take up. */
  function Reach(ids: seq<int>, bpc: nat, m: nat): (n: nat)
    ensures n <= |ids|
  {
    Min(|ids|, Offset(m, bpc))
  }

  /** The blocks of each of the first m chunks have the lengths of a split at the source. */
  ghost predicate Splittable(blocks: Blocks, ids: seq<int>, bpc: nat, m: nat) {
    forall i :: 0 <= i < m ==> SplitSized(Gather(blocks, ChunkBlocks(ids, bpc, i)))
  }

  /** Source and destination give each of the first m chunks the same number of blocks. */
  ghost predicate SameShape(src: seq<int>, dst: seq<int>, bpc: nat, m: nat) {
    forall i :: 0 <= i < m ==> |ChunkBlocks(dst, bpc, i)| == |ChunkBlocks(src, bpc, i)|
  }

  /** Destination positions lo to hi hold what the same source positions held. */
  ghost predicate Copied(b0: Blocks, src: seq<int>, r: Blocks, dst: seq<int>, lo: nat, hi: nat)
    requires hi <= |dst|
  {
    && (lo < hi ==> hi <= |src|)
    && forall j :: lo <= j < hi ==> dst[j] in r && r[dst[j]] == BlockData(b0, src[j])
  }

  /** Parts for destination positions from lo on, each one the data of the same source position. */
  ghost predicate Sourced(b0: Blocks, src: seq<int>, parts: seq<seq<byte>>, lo: nat) {
    && (parts != [] ==> lo + |parts| <= |src|)
    && forall s :: 0 <= s < |parts| ==> parts[s] == BlockData(b0, src[lo + s])
  }

  /** Blocks outside a list are the same in both buffers. */
  ghost predicate SameOutside(b1: Blocks, r: Blocks, ids: seq<int>) {
    forall b :: b !in ids ==> (b in r <==> b in b1) && (b in r ==> r[b] == b1[b])
  }

  ghost predicate SavedFrom(b0: Blocks, src: seq<int>, bpc: nat, payloads: seq<Payload>) {
    forall k :: 0 <= k < |payloads| ==> payloads[k].data == Join(Gather(b0, ChunkBlocks(src, bpc, k)))
  }

  /**
   * Saving and loading copies blocks. Load the first m chunks saved from a source list into a
   * destination list, at any later time and over any buffer, the same one and overlapping lists
   * included: each destination block of those chunks holds exactly the bytes its source block
   * had when saved, and every other block is as it was.
   */
  lemma {:induction false} SaveThenLoad(
    b0: Blocks, src: seq<int>, b1: Blocks, dst: seq<int>, payloads: seq<Payload>, bpc: nat)
    requires SavedFrom(b0, src, bpc, payloads)
    requires SameShape(src, dst, bpc, |payloads|) && Splittable(b0, src, bpc, |payloads|)
    requires Distinct(dst[..Reach(dst, bpc, |payloads|)])
    ensures var r, hi := LoadInto(b1, dst, payloads, bpc, 0), Reach(dst, bpc, |payloads|);
      Copied(b0, src, r, dst, 0, hi) && SameOutside(b1, r, dst[..hi])
  {
    OffsetStep(0, |payloads|, bpc);
    LoadFrom(b0, src, b1, dst, payloads, bpc, 0);
    assert dst[0..Reach(dst, bpc, |payloads|)] == dst[..Reach(dst, bpc, |payloads|)];
  }

  lemma {:induction false} LoadFrom(
    b0: Blocks, src: seq<int>, b1: Blocks, dst: seq<int>, payloads: seq<Payload>, bpc: nat, i: nat)
    requires i <= |payloads| && SavedFrom(b0, src, bpc, payloads)
    requires SameShape(src, dst, bpc, |payloads|) && Splittable(b0, src, bpc, |payloads|)
    requires Distinct(dst[..Reach(dst, bpc, |payloads|)])
    ensures var r, lo, hi := LoadInto(b1, dst, payloads, bpc, i), Reach(dst, bpc, i), Reach(dst, bpc, |payloads|);
      lo <= hi && Copied(b0, src, r, dst, lo, hi) && SameOutside(b1, r, dst[lo..hi])
    decreases |payloads| - i
  {
    hide Offset, Splittable, SameShape, SavedFrom, Distinct, Sourced, ChunkBlocks, Split, WriteParts, Copied,
      SameOutside, Gather;
    var m := |payloads|;
    OffsetStep(i, m, bpc);
    if i < m {
      var lo, mid, hi := Reach(dst, bpc, i), Reach(dst, bpc, i + 1), Reach(dst, bpc, m);
      OffsetStep(i + 1, m, bpc);
      ChunkCopies(b0, src, dst, payloads, bpc, i);
      var parts := Split(payloads[i].data, mid - lo);
      var b2 := WriteParts(b1, dst[lo..mid], parts);
      LoadFrom(b0, src, b2, dst, payloads, bpc, i + 1);
      CopyStep(b0, src, b1, b2, LoadInto(b2, dst, payloads, bpc, i + 1), dst, parts, lo, mid, hi);
    } else {
      NothingCopied(b0, src, b1, dst, Reach(dst, bpc, i));
    }
  }

  lemma {:induction false} NothingCopied(b0: Blocks, src: seq<int>, b1: Blocks, dst: seq<int>, lo: nat)
    requires lo <= |dst|
    ensures Copied(b0, src, b1, dst, lo, lo) && SameOutside(b1, b1, dst[lo..lo])
  {}

  /** One chunk written, then the rest: no later write lands on the chunk's blocks. */
  lemma {:induction false} CopyStep(
    b0: Blocks, src: seq<int>, b1: Blocks, b2: Blocks, r: Blocks, dst: seq<int>,
    parts: seq<seq<byte>>, lo: nat, mid: nat, hi: nat)
    requires lo <= mid <= hi <= |dst| && Distinct(dst[..hi])
    requires |parts| == mid - lo && b2 == WriteParts(b1, dst[lo..mid], parts)
    requires Sourced(b0, src, parts, lo)
    requires Copied(b0, src, r, dst, mid, hi) && SameOutside(b2, r, dst[mid..hi])
    ensures Copied(b0, src, r, dst, lo, hi) && SameOutside(b1, r, dst[lo..hi])
  {
    hide WriteParts, Distinct, Sourced;
    ChunkWritten(b1, dst, parts, lo, mid, hi);
    forall j | lo <= j < mid ensures dst[j] in r && r[dst[j]] == parts[j - lo] {
      assert dst[j] in b2 && b2[dst[j]] == parts[j - lo];
      assert dst[j] !in dst[mid..hi];
      OutsideAt(b2, r, dst[mid..hi], dst[j]);
    }
    assert Copied(b0, src, r, dst, lo, mid) by {
      SourcedAt(b0, src, parts, lo);
    }
    assert dst[lo..hi] == dst[lo..mid] + dst[mid..hi];
  }

  lemma {:induction false} OutsideAt(b1: Blocks, r: Blocks, ids: seq<int>, b: int)
    requires SameOutside(b1, r, ids) && b !in ids
    ensures (b in r <==> b in b1) && (b in r ==> r[b] == b1[b])
  {}

  lemma {:induction false} SourcedAt(b0: Blocks, src: seq<int>, parts: seq<seq<byte>>, lo: nat)
    requires Sourced(b0, src, parts, lo)
    ensures parts != [] ==> lo + |parts| <= |src|
    ensures forall j :: lo <= j < lo + |parts| ==> parts[j - lo] == BlockData(b0, src[j])
  {
    forall j | lo <= j < lo + |parts| ensures parts[j - lo] == BlockData(b0, src[j]) {
      assert parts[j - lo] == BlockData(b0, src[lo + (j - lo)]);
    }
  }

  /** The written chunk by position, disjoint from the positions that follow. */
  lemma {:induction false} ChunkWritten(b1: Blocks, dst: seq<int>, parts: seq<seq<byte>>, lo: nat, mid: nat, hi: nat)
    requires lo <= mid <= hi <= |dst| && Distinct(dst[..hi]) && |parts| == mid - lo
    ensures var b2 := WriteParts(b1, dst[lo..mid], parts);
      && SameOutside(b1, b2, dst[lo..mid])
      && forall j :: lo <= j < mid ==> dst[j] in b2 && b2[dst[j]] == parts[j - lo] && dst[j] !in dst[mid..hi]
  {
    hide WriteParts, Distinct;
    DistinctParts(dst[..hi], lo, mid);
    assert dst[..hi][lo..mid] == dst[lo..mid] && dst[..hi][mid..] == dst[mid..hi];
    var chunk := dst[lo..mid];
    WritePartsAt(b1, chunk, parts);
    forall j | lo <= j < mid
      ensures var b2 := WriteParts(b1, chunk, parts);
        dst[j] in b2 && b2[dst[j]] == parts[j - lo] && dst[j] !in dst[mid..hi]
    {
      assert dst[j] == chunk[j - lo];
    }
  }

  lemma {:induction false} DistinctParts(ids: seq<int>, lo: nat, mid: nat)
    requires Distinct(ids) && lo <= mid <= |ids|
    ensures Distinct(ids[lo..mid])
    ensures forall t :: 0 <= t < mid - lo ==> ids[lo..mid][t] !in ids[mid..]
  {}

  /** The blocks of one loaded chunk, and the parts that go to them: its source blocks. */
  lemma {:induction false} ChunkCopies(
    b0: Blocks, src: seq<int>, dst: seq<int>, payloads: seq<Payload>, bpc: nat, i: nat)
    requires i < |payloads| && SavedFrom(b0, src, bpc, payloads)
    requires SameShape(src, dst, bpc, |payloads|) && Splittable(b0, src, bpc, |payloads|)
    ensures var lo, mid := Reach(dst, bpc, i), Reach(dst, bpc, i + 1);
      && lo <= mid && ChunkBlocks(dst, bpc, i) == dst[lo..mid]
      && Sourced(b0, src, Split(payloads[i].data, mid - lo), lo)
  {
    hide Split, Offset, Join, SplitSized;
    OffsetStep(i, i + 1, bpc);
    var from := ChunkBlocks(src, bpc, i);
    assert |from| == |ChunkBlocks(dst, bpc, i)|;
    var blocks := Gather(b0, from);
    if blocks != [] {
      SplitUndoesJoinExactly(blocks);
    }
  }
}
