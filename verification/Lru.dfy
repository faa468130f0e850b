/**
 * What the in-memory LRU store means (src/llmcache/store/cpu.py), as functions on values.
 *
 * The ordered dictionary is its keys from least to most recently used, plus a map; the byte
 * counter is not part of the value, it is the sum `Used`. Class CPUBackend is proved against
 * these functions, and what the store promises is proved about them here.
 */
module Lru {
  import opened Wrappers
  import opened Payloads
  import opened Types

  // ---- key sequences ----------------------------------------------------------------------

  ghost predicate NoDup(ks: seq<ChunkKey>) {
    forall i, j :: 0 <= i < j < |ks| ==> ks[i] != ks[j]
  }

  function Elems(ks: seq<ChunkKey>): set<ChunkKey> {
    if ks == [] then {} else {ks[0]} + Elems(ks[1..])
  }

  /** The sequence with some keys taken out, the rest in the same order. */
  function Without(ks: seq<ChunkKey>, gone: set<ChunkKey>): (r: seq<ChunkKey>)
    ensures Elems(r) == Elems(ks) - gone
  {
    if ks == [] then []
    else if ks[0] in gone then Without(ks[1..], gone)
    else
      var rest := Without(ks[1..], gone);
      assert ([ks[0]] + rest)[1..] == rest;
      [ks[0]] + rest
  }

  function Only(ks: seq<ChunkKey>, kept: set<ChunkKey>): (r: seq<ChunkKey>)
    ensures Elems(r) == Elems(ks) * kept
  {
    Without(ks, Elems(ks) - kept)
  }

  lemma {:induction false} ElemsConcat(xs: seq<ChunkKey>, ys: seq<ChunkKey>)
    ensures Elems(xs + ys) == Elems(xs) + Elems(ys)
  {
    if xs == [] {
      assert xs + ys == ys;
    } else {
      assert (xs + ys)[1..] == xs[1..] + ys;
      ElemsConcat(xs[1..], ys);
    }
  }

  lemma {:induction false} SingleElem(k: ChunkKey)
    ensures Elems([k]) == {k}
  {
    assert Elems([k]) == {k} + Elems([]);
  }

  lemma {:induction false} ElemsIn(ks: seq<ChunkKey>, k: ChunkKey)
    ensures k in Elems(ks) <==> k in ks
  {
    if ks != [] {
      ElemsIn(ks[1..], k);
      assert k in ks <==> k == ks[0] || k in ks[1..];
    }
  }

  lemma {:induction false} WithoutDisjoint(ks: seq<ChunkKey>, gone: set<ChunkKey>)
    requires Elems(ks) !! gone
    ensures Without(ks, gone) == ks
  {
    if ks != [] {
      WithoutDisjoint(ks[1..], gone);
    }
  }

  lemma {:induction false} WithoutAgree(ks: seq<ChunkKey>, a: set<ChunkKey>, b: set<ChunkKey>)
    requires Elems(ks) * a == Elems(ks) * b
    ensures Without(ks, a) == Without(ks, b)
  {
    if ks != [] {
      var rest := Elems(ks[1..]);
      assert rest * a == rest * (Elems(ks) * a);
      assert rest * b == rest * (Elems(ks) * b);
      assert ks[0] in a <==> ks[0] in Elems(ks) * a;
      assert ks[0] in b <==> ks[0] in Elems(ks) * b;
      WithoutAgree(ks[1..], a, b);
    }
  }

  lemma {:induction false} WithoutTwice(ks: seq<ChunkKey>, a: set<ChunkKey>, b: set<ChunkKey>)
    ensures Without(Without(ks, a), b) == Without(ks, a + b)
  {
    if ks != [] {
      WithoutTwice(ks[1..], a, b);
      var rest := Without(ks[1..], a);
      assert ([ks[0]] + rest)[1..] == rest;
    }
  }

  lemma {:induction false} WithoutConcat(xs: seq<ChunkKey>, ys: seq<ChunkKey>, gone: set<ChunkKey>)
    ensures Without(xs + ys, gone) == Without(xs, gone) + Without(ys, gone)
  {
    if xs == [] {
      assert xs + ys == ys;
    } else {
      assert (xs + ys)[1..] == xs[1..] + ys;
      WithoutConcat(xs[1..], ys, gone);
    }
  }

  lemma {:induction false} NoDupSplit(ks: seq<ChunkKey>)
    requires ks != []
    ensures NoDup(ks) <==> ks[0] !in Elems(ks[1..]) && NoDup(ks[1..])
  {
    ElemsIn(ks[1..], ks[0]);
    if ks[0] !in ks[1..] && NoDup(ks[1..]) {
      forall i, j | 0 <= i < j < |ks| ensures ks[i] != ks[j] {
        assert ks[j] == ks[1..][j - 1];
        if i > 0 {
          assert ks[i] == ks[1..][i - 1];
        }
      }
    }
  }

  lemma {:induction false} AppendKey(ks: seq<ChunkKey>, k: ChunkKey)
    requires NoDup(ks) && k !in Elems(ks)
    ensures NoDup(ks + [k]) && Elems(ks + [k]) == Elems(ks) + {k}
  {
    ElemsIn(ks, k);
    ElemsConcat(ks, [k]);
  }

  lemma {:induction false} WithoutNoDup(ks: seq<ChunkKey>, gone: set<ChunkKey>)
    requires NoDup(ks)
    ensures NoDup(Without(ks, gone))
  {
    if ks != [] {
      NoDupSplit(ks);
      WithoutNoDup(ks[1..], gone);
      var rest := Without(ks[1..], gone);
      assert ([ks[0]] + rest)[1..] == rest;
      NoDupSplit([ks[0]] + rest);
    }
  }

  /** Picking a prefix of a filtered sequence back out of the whole gives that prefix. */
  lemma {:induction false} OnlyPrefix(ks: seq<ChunkKey>, gone: set<ChunkKey>, n: nat)
    requires NoDup(ks) && n <= |Without(ks, gone)|
    ensures Only(ks, Elems(Without(ks, gone)[..n])) == Without(ks, gone)[..n]
  {
    var picked := Without(ks, gone)[..n];
    if ks != [] {
      var k, rest := ks[0], ks[1..];
      NoDupSplit(ks);
      PrefixElems(Without(ks, gone), n);
      if k in gone {
        OnlyPrefix(rest, gone, n);
        WithoutAgree(rest, Elems(ks) - Elems(picked), Elems(rest) - Elems(picked));
      } else if n == 0 {
        WithoutAll(ks, Elems(ks));
      } else {
        var picked' := Without(rest, gone)[..n - 1];
        OnlyPrefix(rest, gone, n - 1);
        assert picked[1..] == picked' && picked == [k] + picked';
        WithoutAgree(rest, Elems(ks) - Elems(picked), Elems(rest) - Elems(picked'));
      }
    }
  }

  lemma {:induction false} PrefixElems(ks: seq<ChunkKey>, n: nat)
    requires n <= |ks|
    ensures Elems(ks[..n]) <= Elems(ks)
  {
    ElemsConcat(ks[..n], ks[n..]);
    assert ks == ks[..n] + ks[n..];
  }

  lemma {:induction false} WithoutAll(ks: seq<ChunkKey>, gone: set<ChunkKey>)
    requires Elems(ks) <= gone
    ensures Without(ks, gone) == []
  {
    if ks != [] {
      WithoutAll(ks[1..], gone);
    }
  }

  // ---- byte counts ------------------------------------------------------------------------

  function SizeOf(data: map<ChunkKey, Payload>, k: ChunkKey): nat {
    if k in data then data[k].NBytes() else 0
  }

  function Bytes(ks: seq<ChunkKey>, data: map<ChunkKey, Payload>): nat {
    if ks == [] then 0 else SizeOf(data, ks[0]) + Bytes(ks[1..], data)
  }

  lemma {:induction false} BytesConcat(xs: seq<ChunkKey>, ys: seq<ChunkKey>, data: map<ChunkKey, Payload>)
    ensures Bytes(xs + ys, data) == Bytes(xs, data) + Bytes(ys, data)
  {
    if xs == [] {
      assert xs + ys == ys;
    } else {
      assert (xs + ys)[1..] == xs[1..] + ys;
      BytesConcat(xs[1..], ys, data);
    }
  }

  lemma {:induction false} BytesAgree(ks: seq<ChunkKey>, a: map<ChunkKey, Payload>, b: map<ChunkKey, Payload>)
    requires forall k :: k in Elems(ks) ==> SizeOf(a, k) == SizeOf(b, k)
    ensures Bytes(ks, a) == Bytes(ks, b)
  {
    if ks != [] {
      BytesAgree(ks[1..], a, b);
    }
  }

  /** Taking keys out takes out exactly their bytes. */
  lemma {:induction false} BytesSplit(ks: seq<ChunkKey>, gone: set<ChunkKey>, data: map<ChunkKey, Payload>)
    ensures Bytes(ks, data) == Bytes(Without(ks, gone), data) + Bytes(Only(ks, gone), data)
  {
    if ks != [] {
      var rest := ks[1..];
      BytesSplit(rest, gone, data);
      WithoutAgree(rest, Elems(ks) - gone, Elems(rest) - gone);
    }
  }

  lemma {:induction false} BytesOfOne(ks: seq<ChunkKey>, k: ChunkKey, data: map<ChunkKey, Payload>)
    requires NoDup(ks) && k in Elems(ks)
    ensures Bytes(ks, data) == Bytes(Without(ks, {k}), data) + SizeOf(data, k)
  {
    NoDupSplit(ks);
    if ks[0] == k {
      WithoutDisjoint(ks[1..], {k});
    } else {
      BytesOfOne(ks[1..], k, data);
    }
  }

  // ---- the store --------------------------------------------------------------------------

  datatype Lru = Lru(
    order: seq<ChunkKey>,
    data: map<ChunkKey, Payload>,
    pinned: set<ChunkKey>,
    capacity: Option<int>)
  {
    /** Keys listed once each, and the byte budget respected (a negative one admits nothing). */
    ghost predicate Valid() {
      && NoDup(order)
      && Elems(order) == data.Keys
      && (capacity.Some? ==> data == map[] || Used() <= capacity.value)
    }

    function Used(): nat {
      Bytes(order, data)
    }

    /** Bytes of resident pinned objects, not counting one key. */
    function PinnedBytes(except: ChunkKey): nat {
      Bytes(Only(order, pinned - {except}), data)
    }

    /** The keys eviction may take, least recently used first. */
    function Candidates(): seq<ChunkKey> {
      Without(order, pinned)
    }
  }

  /** Entries leave; their pins, if any, stay behind. */
  function Drop(s: Lru, gone: set<ChunkKey>): Lru {
    s.(order := Without(s.order, gone), data := s.data - gone)
  }

  /** The candidates popped, in order, until `excess` bytes are recovered or none is left. */
  function Shed(cands: seq<ChunkKey>, data: map<ChunkKey, Payload>, excess: int): (vs: seq<ChunkKey>)
    ensures vs <= cands
  {
    if cands == [] || excess <= 0 then []
    else [cands[0]] + Shed(cands[1..], data, excess - SizeOf(data, cands[0]))
  }

  /** Outcome of making room or storing: the victims in eviction order, and whether it fits. */
  datatype Admission = Admission(state: Lru, victims: seq<ChunkKey>, ok: bool)

  function EnsureRoom(s: Lru, incoming: nat): Admission {
    if s.capacity.None? then Admission(s, [], true)
    else
      var cap := s.capacity.value;
      if incoming > cap && s.pinned == {} then Admission(s, [], false)
      else
        var vs := Shed(s.Candidates(), s.data, s.Used() + incoming - cap);
        var s' := Drop(s, Elems(vs));
        Admission(s', vs, s'.Used() + incoming <= cap)
  }

  function Put(s: Lru, k: ChunkKey, obj: Payload, pin: bool): Admission {
    var room := EnsureRoom(Drop(s, {k}), obj.NBytes());
    if !room.ok then room
    else
      var r := room.state;
      room.(state := r.(
        order := r.order + [k],
        data := r.data[k := obj],
        pinned := if pin then r.pinned + {k} else r.pinned))
  }

  /** A hit moves the key to the most recently used end; a miss changes nothing. */
  function Touch(s: Lru, k: ChunkKey): Lru {
    if k in s.data then s.(order := Without(s.order, {k}) + [k]) else s
  }

  /** `remove` of each key of a set: the pin is discarded only where an entry was there. */
  function Remove(s: Lru, ks: set<ChunkKey>): Lru {
    Drop(s, ks).(pinned := s.pinned - (ks * s.data.Keys))
  }

  function Pin(s: Lru, ks: set<ChunkKey>): Lru {
    s.(pinned := s.pinned + (ks * s.data.Keys))
  }

  function Unpin(s: Lru, ks: set<ChunkKey>): Lru {
    s.(pinned := s.pinned - ks)
  }

  /** One call on a store. */
  datatype Op =
    | PutOp(key: ChunkKey, obj: Payload, pin: bool)
    | GetOp(key: ChunkKey)
    | RemoveOp(key: ChunkKey)
    | PinOp(key: ChunkKey)
    | UnpinOp(key: ChunkKey)

  // ---- eviction ---------------------------------------------------------------------------

  lemma {:induction false} ShedEnough(cands: seq<ChunkKey>, data: map<ChunkKey, Payload>, excess: int)
    ensures var vs := Shed(cands, data, excess);
      Bytes(vs, data) >= excess || vs == cands
    ensures var vs := Shed(cands, data, excess);
      forall n :: 0 <= n < |vs| ==> Bytes(vs[..n], data) < excess
  {
    var vs := Shed(cands, data, excess);
    if cands != [] && excess > 0 {
      ShedEnough(cands[1..], data, excess - SizeOf(data, cands[0]));
      forall n | 0 <= n < |vs| ensures Bytes(vs[..n], data) < excess {
        if n > 0 {
          assert vs[..n][1..] == vs[1..][..n - 1];
        }
      }
    }
  }

  lemma {:induction false} DropValid(s: Lru, gone: set<ChunkKey>)
    requires s.Valid()
    ensures Drop(s, gone).Valid()
    ensures Drop(s, gone).Used() == s.Used() - Bytes(Only(s.order, gone), s.data)
  {
    var s' := Drop(s, gone);
    WithoutNoDup(s.order, gone);
    BytesSplit(s.order, gone, s.data);
    BytesAgree(s'.order, s'.data, s.data);
  }

  lemma {:induction false} ValidKeys(s: Lru)
    requires s.Valid()
    ensures NoDup(s.order) && Elems(s.order) == s.data.Keys
  {}

  lemma {:induction false} EnsureRoomSpec(s: Lru, incoming: nat)
    requires s.Valid()
    ensures var r := EnsureRoom(s, incoming);
      && r.state.Valid()
      && r.state == Drop(s, Elems(r.victims))
      && r.victims <= s.Candidates()
      && (s.capacity.None? ==> r.ok && r.victims == [])
      && r.state.Used() == s.Used() - Bytes(r.victims, s.data)
      && (r.ok && s.capacity.Some? ==> r.state.Used() + incoming <= s.capacity.value)
  {
    var r := EnsureRoom(s, incoming);
    WithoutDisjoint(s.order, {});
    assert Drop(s, {}) == s;
    DropValid(s, Elems(r.victims));
    OnlyPrefix(s.order, s.pinned, |r.victims|);
    assert r.victims == s.Candidates()[..|r.victims|];
  }

  lemma {:induction false} DropOne(s: Lru, k: ChunkKey)
    requires s.Valid() && k in s.data
    ensures Drop(s, {k}).Valid()
    ensures Drop(s, {k}).Used() == s.Used() - s.data[k].NBytes()
  {
    DropValid(s, {k});
    BytesOfOne(s.order, k, s.data);
    BytesAgree(Drop(s, {k}).order, Drop(s, {k}).data, s.data);
  }

  lemma {:induction false} DropAbsent(s: Lru, k: ChunkKey)
    requires s.Valid() && k !in s.data
    ensures Drop(s, {k}) == s && Remove(s, {k}) == s
  {
    WithoutDisjoint(s.order, {k});
    assert s.data - {k} == s.data;
  }

  lemma {:induction false} AppendUsed(s: Lru, k: ChunkKey, obj: Payload)
    requires s.Valid() && k !in s.data
    ensures Bytes(s.order + [k], s.data[k := obj]) == s.Used() + obj.NBytes()
  {
    BytesConcat(s.order, [k], s.data[k := obj]);
    BytesAgree(s.order, s.data, s.data[k := obj]);
    assert Bytes([k], s.data[k := obj]) == obj.NBytes() + Bytes([], s.data[k := obj]);
  }

  lemma {:induction false} OnlyNone(ks: seq<ChunkKey>, data: map<ChunkKey, Payload>)
    ensures Bytes(Only(ks, {}), data) == 0
  {
    WithoutAll(ks, Elems(ks));
  }

  lemma {:induction false} OnlyMore(s: Lru, kept: set<ChunkKey>, k: ChunkKey)
    requires s.Valid() && k !in kept
    ensures Bytes(Only(s.order, kept + {k}), s.data) == Bytes(Only(s.order, kept), s.data) + SizeOf(s.data, k)
  {
    var more := Only(s.order, kept + {k});
    WithoutNoDup(s.order, Elems(s.order) - (kept + {k}));
    WithoutTwice(s.order, Elems(s.order) - (kept + {k}), {k});
    WithoutAgree(s.order, Elems(s.order) - (kept + {k}) + {k}, Elems(s.order) - kept);
    if k in s.data {
      BytesOfOne(more, k, s.data);
    } else {
      WithoutDisjoint(more, {k});
    }
  }

  lemma {:induction false} DropMore(s: Lru, a: set<ChunkKey>, b: set<ChunkKey>)
    ensures Drop(Drop(s, a), b) == Drop(s, a + b)
  {
    WithoutTwice(s.order, a, b);
    assert s.data - a - b == s.data - (a + b);
  }

  /**
   * The eviction loop between two turns: `victims` were popped, the keys of `rest` are still to
   * be looked at, and shedding from those completes what shedding from the start would take.
   */
  ghost predicate Evicting(s: Lru, victims: seq<ChunkKey>, rest: seq<ChunkKey>, excess: int) {
    && NoDup(rest)
    && Elems(victims) <= s.data.Keys
    && Elems(rest) <= s.data.Keys - Elems(victims)
    && Shed(s.Candidates(), s.data, excess) ==
         victims + Shed(Without(rest, s.pinned), s.data, excess - Bytes(victims, s.data))
  }

  lemma {:induction false} EvictingStarts(s: Lru, excess: int)
    requires s.Valid()
    ensures Evicting(s, [], s.order, excess)
    ensures Drop(s, Elems([])) == s && Bytes([], s.data) == 0
  {
    WithoutDisjoint(s.order, {});
  }

  lemma {:induction false} EvictingSkips(s: Lru, victims: seq<ChunkKey>, rest: seq<ChunkKey>, excess: int)
    requires rest != [] && Evicting(s, victims, rest, excess)
    ensures rest[0] in s.data && rest[0] !in Elems(victims)
    ensures rest[0] in s.pinned ==> Evicting(s, victims, rest[1..], excess)
  {
    hide Shed, Bytes, NoDup;
    NoDupSplit(rest);
  }

  lemma {:induction false} ShedStep(rest: seq<ChunkKey>, pinned: set<ChunkKey>, data: map<ChunkKey, Payload>, left: int)
    requires rest != [] && left > 0 && rest[0] !in pinned
    ensures Shed(Without(rest, pinned), data, left) ==
      [rest[0]] + Shed(Without(rest[1..], pinned), data, left - SizeOf(data, rest[0]))
  {
    var tail := Without(rest[1..], pinned);
    assert ([rest[0]] + tail)[1..] == tail;
  }

  lemma {:induction false} EvictingTakes(s: Lru, victims: seq<ChunkKey>, rest: seq<ChunkKey>, excess: int)
    requires rest != [] && Evicting(s, victims, rest, excess)
    requires rest[0] !in s.pinned && Bytes(victims, s.data) < excess
    ensures Evicting(s, victims + [rest[0]], rest[1..], excess)
  {
    hide Shed, Without, Bytes, Drop, NoDup;
    NoDupSplit(rest);
    OneMoreVictim(s, victims, rest[0]);
    ShedStep(rest, s.pinned, s.data, excess - Bytes(victims, s.data));
  }

  lemma {:induction false} EvictingEnds(s: Lru, victims: seq<ChunkKey>, rest: seq<ChunkKey>, excess: int)
    requires Evicting(s, victims, rest, excess)
    requires rest == [] || Bytes(victims, s.data) >= excess
    ensures victims == Shed(s.Candidates(), s.data, excess)
  {}

  lemma {:induction false} OneMoreVictim(s: Lru, victims: seq<ChunkKey>, k: ChunkKey)
    ensures Bytes(victims + [k], s.data) == Bytes(victims, s.data) + SizeOf(s.data, k)
    ensures Elems(victims + [k]) == Elems(victims) + {k}
    ensures Drop(s, Elems(victims + [k])) == Drop(Drop(s, Elems(victims)), {k})
  {
    BytesConcat(victims, [k], s.data);
    assert Bytes([k], s.data) == SizeOf(s.data, k) + Bytes([], s.data);
    ElemsConcat(victims, [k]);
    DropMore(s, Elems(victims), {k});
  }

  /** Byte accounting and key bookkeeping survive every put, the failing ones included. */
  lemma {:induction false} PutValid(s: Lru, k: ChunkKey, obj: Payload, pin: bool)
    requires s.Valid()
    ensures Put(s, k, obj, pin).state.Valid()
  {
    var s1 := Drop(s, {k});
    DropValid(s, {k});
    EnsureRoomSpec(s1, obj.NBytes());
    var room, put := EnsureRoom(s1, obj.NBytes()), Put(s, k, obj, pin);
    if room.ok {
      var r := room.state;
      BytesConcat(r.order, [k], put.state.data);
      BytesAgree(r.order, r.data, put.state.data);
      assert Bytes([k], put.state.data) == obj.NBytes() + Bytes([], put.state.data);
      AppendKey(r.order, k);
    }
  }

  lemma {:induction false} TouchValid(s: Lru, k: ChunkKey)
    requires s.Valid()
    ensures Touch(s, k).Valid() && Touch(s, k).Used() == s.Used()
  {
    if k in s.data {
      WithoutNoDup(s.order, {k});
      BytesOfOne(s.order, k, s.data);
      BytesConcat(Without(s.order, {k}), [k], s.data);
      assert Bytes([k], s.data) == SizeOf(s.data, k) + Bytes([], s.data);
      AppendKey(Without(s.order, {k}), k);
    }
  }

  /**
   * Exact admission. A put goes in exactly when its bytes and the bytes pinned under other keys
   * fit the capacity together; unpinned objects never stand in the way.
   */
  lemma {:induction false} PutAdmittedExactly(s: Lru, k: ChunkKey, obj: Payload, pin: bool)
    requires s.Valid()
    ensures Put(s, k, obj, pin).ok <==>
      (s.capacity.Some? ==> obj.NBytes() + s.PinnedBytes(k) <= s.capacity.value)
  {
    hide Without, Elems, Bytes, Shed, Lru.Valid;
    if s.capacity.Some? {
      var s1 := Drop(s, {k});
      var cands := s1.Candidates();
      DropValid(s, {k});
      EnsureRoomSpec(s1, obj.NBytes());
      ShedEnough(cands, s1.data, s1.Used() + obj.NBytes() - s.capacity.value);
      PinnedBytesSplit(s, k);
      var vs := EnsureRoom(s1, obj.NBytes()).victims;
      BytesConcat(vs, cands[|vs|..], s1.data);
      assert cands == vs + cands[|vs|..];
    }
  }

  /** Without the put's own key, the resident bytes are the candidates' and the pinned ones. */
  lemma {:induction false} PinnedBytesSplit(s: Lru, k: ChunkKey)
    requires s.Valid()
    ensures var s1 := Drop(s, {k});
      s1.Used() == Bytes(s1.Candidates(), s1.data) + s.PinnedBytes(k)
    ensures s.pinned == {} ==> s.PinnedBytes(k) == 0
  {
    var s1 := Drop(s, {k});
    BytesSplit(s1.order, s1.pinned, s1.data);
    var held := Only(s1.order, s1.pinned);
    WithoutTwice(s.order, {k}, Elems(s1.order) - s.pinned);
    WithoutAgree(s.order, {k} + (Elems(s1.order) - s.pinned), Elems(s.order) - (s.pinned - {k}));
    assert held == Only(s.order, s.pinned - {k});
    BytesAgree(held, s1.data, s.data);
    if s.pinned == {} {
      WithoutAll(s.order, Elems(s.order));
    }
  }

  /** The victims of a failing put: every candidate, or none for an oversized object and no pin. */
  function AllOrNone(s: Lru, s1: Lru, obj: Payload): seq<ChunkKey> {
    if s.capacity.Some? && obj.NBytes() > s.capacity.value && s.pinned == {} then [] else s1.Candidates()
  }

  /**
   * Exact victims. They are a prefix of the unpinned other keys in recency order. On success it
   * is the shortest prefix that makes the object fit. On failure it is all of them, except that
   * an object larger than the capacity with no pin recorded evicts nothing.
   */
  lemma {:induction false} PutVictimsExactly(s: Lru, k: ChunkKey, obj: Payload, pin: bool)
    requires s.Valid()
    ensures var s1, put := Drop(s, {k}), Put(s, k, obj, pin);
      && put.victims <= s1.Candidates()
      && (put.ok && s.capacity.Some? ==>
            && s1.Used() - Bytes(put.victims, s1.data) + obj.NBytes() <= s.capacity.value
            && forall n :: 0 <= n < |put.victims| ==>
                 s1.Used() - Bytes(put.victims[..n], s1.data) + obj.NBytes() > s.capacity.value)
      && (!put.ok ==> s.capacity.Some? && put.victims == AllOrNone(s, s1, obj))
  {
    hide Without, Elems, Bytes, Shed, Lru.Valid;
    var s1, room := Drop(s, {k}), EnsureRoom(Drop(s, {k}), obj.NBytes());
    DropValid(s, {k});
    EnsureRoomSpec(s1, obj.NBytes());
    assert room.victims == Put(s, k, obj, pin).victims && room.ok == Put(s, k, obj, pin).ok;
    if s.capacity.Some? {
      ShedEnough(s1.Candidates(), s1.data, s1.Used() + obj.NBytes() - s.capacity.value);
    }
  }

  /** What a put leaves: the survivors in their order with their objects and pins, then the newcomer. */
  lemma {:induction false} PutState(s: Lru, k: ChunkKey, obj: Payload, pin: bool)
    requires s.Valid()
    ensures var put := Put(s, k, obj, pin);
      var gone := {k} + Elems(put.victims);
      && Elems(put.victims) <= s.data.Keys - s.pinned - {k}
      && put.state.order == Without(s.order, gone) + (if put.ok then [k] else [])
      && put.state.data == (if put.ok then (s.data - gone)[k := obj] else s.data - gone)
      && put.state.pinned == (if put.ok && pin then s.pinned + {k} else s.pinned)
      && put.state.capacity == s.capacity
      && (s.capacity.None? ==> put.ok && put.victims == [])
  {
    hide EnsureRoom, Without, Elems, Lru.Valid;
    var s1, put := Drop(s, {k}), Put(s, k, obj, pin);
    DropValid(s, {k});
    ValidKeys(s);
    EnsureRoomSpec(s1, obj.NBytes());
    WithoutTwice(s.order, {k}, Elems(put.victims));
    PrefixElems(s1.Candidates(), |put.victims|);
    assert put.victims == s1.Candidates()[..|put.victims|];
    assert s.data - {k} - Elems(put.victims) == s.data - ({k} + Elems(put.victims));
  }
}
