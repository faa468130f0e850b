/**
 * Core data types of the explicit cache (src/llmcache/types.py): chunk keys, token chunking,
 * fingerprints, descriptors and the prefix match.
 */
module Types {
  import opened Wrappers
  import opened Payloads
  import opened Arithmetic

  datatype ChunkKey = ChunkKey(cacheId: string, chunkIndex: int, workerId: int)

  /** A token id; the fingerprint encodes each one as a signed 32-bit integer. */
  type Token = t: int | -0x8000_0000 <= t < 0x8000_0000

  // ---- fingerprints -----------------------------------------------------------------------

  /** `int(t).to_bytes(4, "little", signed=True)`: two's complement, little-endian. */
  function TokenWord(t: Token): seq<byte> {
    LittleEndian(t % 0x1_0000_0000, 4)
  }

  /** The byte stream a token run feeds to the hash. */
  function TokenBytes(tokens: seq<Token>): (bs: seq<byte>)
    ensures |bs| == 4 * |tokens|
  {
    if tokens == [] then [] else TokenWord(tokens[0]) + TokenBytes(tokens[1..])
  }

  /** A blake2b digest, modelled symbolically by its input: equal digests have equal inputs. */
  datatype Fingerprint = Blake2b(input: seq<byte>)

  function FingerprintOf(tokens: seq<Token>): Fingerprint {
    Blake2b(TokenBytes(tokens))
  }

  /** Four bytes, the lowest first, that make the token or, below zero, the token plus 2^32. */
  lemma {:induction false} TokenWordValue(t: Token)
    ensures var w := TokenWord(t);
      && |w| == 4
      && LowestFirst(w[0], w[1], w[2], w[3]) == if t < 0 then t + 0x1_0000_0000 else t
  {
    hide LittleEndian, FromLittleEndian;
    FourBytes();
    LittleEndianRoundTrip(t % 0x1_0000_0000, 4);
    FourBytesValue(TokenWord(t));
    DivisionUnique(t, 0x1_0000_0000, if t < 0 then -1 else 0, if t < 0 then t + 0x1_0000_0000 else t);
  }

  lemma {:induction false} TokenWordInjective(s: Token, t: Token)
    requires TokenWord(s) == TokenWord(t)
    ensures s == t
  {
    hide LittleEndian, FromLittleEndian;
    FourBytes();
    LittleEndianRoundTrip(s % 0x1_0000_0000, 4);
    LittleEndianRoundTrip(t % 0x1_0000_0000, 4);
  }

  lemma {:induction false} TokenBytesInjective(a: seq<Token>, b: seq<Token>)
    requires TokenBytes(a) == TokenBytes(b)
    ensures a == b
  {
    if a != [] {
      assert |b| == |a|;
      assert TokenBytes(a)[..4] == TokenWord(a[0]) && TokenBytes(b)[..4] == TokenWord(b[0]);
      TokenWordInjective(a[0], b[0]);
      assert TokenBytes(a)[4..] == TokenBytes(a[1..]) && TokenBytes(b)[4..] == TokenBytes(b[1..]);
      TokenBytesInjective(a[1..], b[1..]);
      assert a == [a[0]] + a[1..] && b == [b[0]] + b[1..];
    }
  }

  /** Two token runs share a fingerprint exactly when they are the same run. */
  lemma {:induction false} FingerprintInjective(a: seq<Token>, b: seq<Token>)
    ensures FingerprintOf(a) == FingerprintOf(b) <==> a == b
  {
    if FingerprintOf(a) == FingerprintOf(b) {
      TokenBytesInjective(a, b);
    }
  }

  lemma {:induction false} TokenBytesAppend(a: seq<Token>, t: Token)
    ensures TokenBytes(a + [t]) == TokenBytes(a) + TokenWord(t)
  {
    if a == [] {
      assert TokenBytes([t]) == TokenWord(t) + TokenBytes([]);
    } else {
      assert (a + [t])[1..] == a[1..] + [t];
      TokenBytesAppend(a[1..], t);
    }
  }

  /** The loop of `token_fingerprint`; `h` is what the hash object has absorbed so far. */
  method TokenFingerprint(tokens: seq<Token>) returns (fp: Fingerprint)
    ensures fp == FingerprintOf(tokens)
  {
    var h: seq<byte> := [];
    for i := 0 to |tokens|
      invariant h == TokenBytes(tokens[..i])
    {
      TokenBytesAppend(tokens[..i], tokens[i]);
      assert tokens[..i + 1] == tokens[..i] + [tokens[i]];
      h := h + TokenWord(tokens[i]);
    }
    assert tokens[..|tokens|] == tokens;
    fp := Blake2b(h);
  }

  // ---- chunking ---------------------------------------------------------------------------

  /** `chunk_token_ids`: fixed-size runs, the last one possibly short. */
  function Chunks(tokens: seq<Token>, size: nat): (cs: seq<seq<Token>>)
    requires size > 0
    decreases |tokens|
  {
    if tokens == [] then []
    else if |tokens| <= size then [tokens]
    else [tokens[..size]] + Chunks(tokens[size..], size)
  }

  function Join<T>(parts: seq<seq<T>>): seq<T> {
    if parts == [] then [] else parts[0] + Join(parts[1..])
  }

  /** Sum of the chunk lengths, as `_build_descriptor` computes `num_tokens`. */
  function TotalLength<T>(parts: seq<seq<T>>): nat {
    if parts == [] then 0 else |parts[0]| + TotalLength(parts[1..])
  }

  /**
   * Chunking loses nothing: the chunks concatenate to the tokens, all but the last are full,
   * none is empty, and there are as many as the ceiling both connectors compute.
   */
  lemma {:induction false} ChunksPartition(tokens: seq<Token>, size: nat)
    requires size > 0
    ensures Join(Chunks(tokens, size)) == tokens
    ensures TotalLength(Chunks(tokens, size)) == |tokens|
    ensures |Chunks(tokens, size)| == CeilDiv(|tokens|, size)
    ensures forall i :: 0 <= i < |Chunks(tokens, size)| ==> 0 < |Chunks(tokens, size)[i]| <= size
    ensures forall i :: 0 <= i < |Chunks(tokens, size)| - 1 ==> |Chunks(tokens, size)[i]| == size
    decreases |tokens|
  {
    CeilDivStep(|tokens|, size);
    if |tokens| > size {
      ChunksPartition(tokens[size..], size);
      CeilDivStep(|tokens| - size, size);
      assert tokens == tokens[..size] + tokens[size..];
    } else if tokens != [] {
      assert Join([tokens]) == tokens + Join([]);
    }
  }

  function FingerprintsOf(chunks: seq<seq<Token>>): (fps: seq<Fingerprint>)
    ensures |fps| == |chunks|
    ensures forall i :: 0 <= i < |chunks| ==> fps[i] == FingerprintOf(chunks[i])
  {
    seq(|chunks|, i requires 0 <= i < |chunks| => FingerprintOf(chunks[i]))
  }

  // ---- descriptors ------------------------------------------------------------------------

  /** Points in time and durations, in seconds. */
  type Time = real

  datatype Descriptor = Descriptor(
    cacheId: string,
    numTokens: nat,
    chunkSize: nat,
    numLayers: int,
    workerIds: seq<int>,
    createdAt: Time,
    expiresAt: Option<Time>,
    pinned: bool,
    fingerprints: seq<Fingerprint>)
  {
    function NumChunks(): nat {
      |fingerprints|
    }

    /** `is_expired(now)`; `now or time.time()` also rereads the clock when `now` is 0. */
    predicate IsExpired(now: Option<Time>, clock: Time) {
      expiresAt.Some? && (if now.Some? && now.value != 0.0 then now.value else clock) >= expiresAt.value
    }

    predicate ExpiredAt(clock: Time) {
      IsExpired(None, clock)
    }

    /** The keys of this cache's chunks: every worker times every chunk index. */
    function Keys(): set<ChunkKey> {
      set w, i | w in workerIds && 0 <= i < |fingerprints| :: ChunkKey(cacheId, i, w)
    }
  }

  // ---- prefix match -----------------------------------------------------------------------

  /** How many leading chunks of a request carry the registered fingerprints. */
  function MatchedChunks(request: seq<Token>, size: nat, fps: seq<Fingerprint>): nat
    requires size > 0
  {
    CommonPrefix(FingerprintsOf(Chunks(request, size)), fps)
  }

  /** The loop of `matched_chunk_count`. */
  method MatchedChunkCount(request: seq<Token>, d: Descriptor) returns (matched: nat)
    requires d.chunkSize > 0
    ensures matched == MatchedChunks(request, d.chunkSize, d.fingerprints)
  {
    var chunks := Chunks(request, d.chunkSize);
    ghost var fps := FingerprintsOf(chunks);
    matched := 0;
    for i := 0 to |d.fingerprints|
      invariant matched == i <= |chunks|
      invariant forall j :: 0 <= j < i ==> fps[j] == d.fingerprints[j]
    {
      if i >= |chunks| {
        break;
      }
      var fp := TokenFingerprint(chunks[i]);
      if fp != d.fingerprints[i] {
        break;
      }
      matched := matched + 1;
    }
    assert matched == CommonPrefix(fps, d.fingerprints);
  }

  lemma {:induction false} FirstChunk(tokens: seq<Token>, size: nat)
    requires size > 0 && tokens != []
    ensures Chunks(tokens, size) != [] && Chunks(tokens, size)[0] == tokens[..Min(size, |tokens|)]
  {}

  lemma {:induction false} MatchedChunksEmpty(request: seq<Token>, registered: seq<Token>, size: nat)
    requires size > 0 && (request == [] || registered == [])
    ensures MatchedChunks(request, size, FingerprintsOf(Chunks(registered, size))) == 0
  {}

  /** Both first chunks are taken off when they agree and neither ends its sequence. */
  lemma {:induction false} MatchedChunksStep(request: seq<Token>, registered: seq<Token>, size: nat)
    requires 0 < size < |request| && size < |registered|
    requires request[..size] == registered[..size]
    ensures MatchedChunks(request, size, FingerprintsOf(Chunks(registered, size))) ==
      1 + MatchedChunks(request[size..], size, FingerprintsOf(Chunks(registered[size..], size)))
  {
    var fa, fb := FingerprintsOf(Chunks(request, size)), FingerprintsOf(Chunks(registered, size));
    assert fa[1..] == FingerprintsOf(Chunks(request[size..], size));
    assert fb[1..] == FingerprintsOf(Chunks(registered[size..], size));
    assert fa[0] == fb[0];
  }

  lemma {:induction false} CommonPrefixSplit(a: seq<Token>, b: seq<Token>, n: nat)
    requires n <= |a| && n <= |b| && a[..n] == b[..n]
    ensures CommonPrefix(a, b) == n + CommonPrefix(a[n..], b[n..])
  {
    var l, m := CommonPrefix(a, b), n + CommonPrefix(a[n..], b[n..]);
    forall i | 0 <= i < m ensures a[i] == b[i] {
      if i < n {
        assert a[i] == a[..n][i] && b[i] == b[..n][i];
      } else {
        assert a[i] == a[n..][i - n] && b[i] == b[n..][i - n];
      }
    }
    assert l < |a| && l < |b| ==> l >= m;
    assert m < |a| && m < |b| ==> a[m] == a[n..][m - n] && b[m] == b[n..][m - n];
  }

  /** The first chunks differ: nothing matches, and the sequences part within one chunk. */
  lemma {:induction false} FirstChunksDiffer(a: seq<Token>, b: seq<Token>, size: nat)
    requires size > 0 && a != [] && b != []
    requires Chunks(a, size)[0] != Chunks(b, size)[0]
    ensures CommonPrefix(a, b) < size && a != b
    ensures MatchedChunks(a, size, FingerprintsOf(Chunks(b, size))) == 0
  {
    FingerprintInjective(Chunks(a, size)[0], Chunks(b, size)[0]);
    var x, y := a[..Min(size, |a|)], b[..Min(size, |b|)];
    assert Chunks(a, size)[0] == x && Chunks(b, size)[0] == y;
    if |x| == |y| {
      var i :| 0 <= i < |x| && x[i] != y[i];
      assert a[i] != b[i];
    }
  }

  /** The first chunks agree and one of them ends its sequence. */
  lemma {:induction false} FirstChunksEqualShort(a: seq<Token>, b: seq<Token>, size: nat)
    requires size > 0 && a != [] && b != []
    requires |a| <= size || |b| <= size
    requires Chunks(a, size)[0] == Chunks(b, size)[0]
    ensures MatchedChunks(a, size, FingerprintsOf(Chunks(b, size))) == 1
    ensures CommonPrefix(a, b) == Min(|a|, |b|) <= size
    ensures a == b || CommonPrefix(a, b) == size
  {
    var fa, fb := FingerprintsOf(Chunks(a, size)), FingerprintsOf(Chunks(b, size));
    assert fa[0] == fb[0];
    assert |fa| == 1 || |fb| == 1;
    assert fa[1..] == [] || fb[1..] == [];
    assert Chunks(a, size)[0] <= a && Chunks(a, size)[0] <= b;
  }

  /**
   * The prefix match in closed form. With `l` the length of the longest common token prefix, it
   * counts the whole chunks inside that prefix, plus the short final chunk in the one case where
   * request and registration are the same token sequence.
   */
  lemma {:induction false} MatchedChunksClosedForm(request: seq<Token>, registered: seq<Token>, size: nat)
    requires size > 0
    ensures MatchedChunks(request, size, FingerprintsOf(Chunks(registered, size))) ==
      var l := CommonPrefix(request, registered);
      if request == registered then CeilDiv(l, size) else l / size
    decreases |request|
  {
    hide Chunks, MatchedChunks, CommonPrefix, CeilDiv;
    var l := CommonPrefix(request, registered);
    CeilDivStep(l, size);
    DivisionStep(l, size);
    if request == [] || registered == [] {
      MatchedChunksEmpty(request, registered, size);
      DivisionUnique(0, size, 0, 0);
    } else if request[..Min(size, |request|)] != registered[..Min(size, |registered|)] {
      FirstChunk(request, size);
      FirstChunk(registered, size);
      FirstChunksDiffer(request, registered, size);
      DivisionUnique(l, size, 0, l);
    } else if |request| <= size || |registered| <= size {
      FirstChunk(request, size);
      FirstChunk(registered, size);
      FirstChunksEqualShort(request, registered, size);
      DivisionUnique(0, size, 0, 0);
    } else {
      var request', registered' := request[size..], registered[size..];
      var first, first' := request[..size], registered[..size];
      MatchedChunksStep(request, registered, size);
      MatchedChunksClosedForm(request', registered', size);
      CommonPrefixSplit(request, registered, size);
      assert request == first + request' && registered == first' + registered';
    }
  }
}
