/**
 * What a late pin is worth (src/llmcache/store/tiered.py over cpu.py): when pinning a key that is
 * already stored keeps it readable through everything that may follow.
 */
module LatePins {
  import opened Wrappers
  import opened Payloads
  import opened Types
  import opened L = Lru
  import opened Tiers
  import opened StoreRuns

  /** A run in which nothing raises and the key is neither unpinned nor removed. */
  ghost predicate Harmless(s: Store, events: seq<Event>, k: ChunkKey)
    requires s.Valid()
  {
    && Call(UnpinOp(k)) !in events && Call(RemoveOp(k)) !in events
    && forall n :: 0 <= n < |events| ==> ReplyTo(After(s, events[..n]), events[n]) != Raised
  }

  /** Readers see the key after every such run. */
  ghost predicate KeptReadable(s: Store, k: ChunkKey)
    requires s.Valid()
  {
    forall events :: Harmless(s, events, k) ==> k in After(s, events).View()
  }

  /** What a caller can check before pinning: hot knows the key, or nothing can ever be lost. */
  predicate PinLasts(s: Store, k: ChunkKey)
    requires s.cold.Some?
  {
    || k in s.hot.data || k in s.hot.pinned
    || s.cold.value.keyTtl.None? || NeverEvicts(s.hot.capacity)
  }

  /** Without a byte of room, nothing of a byte can come in and push something out. */
  predicate NeverEvicts(capacity: Option<int>) {
    capacity.None? || capacity.value < 1
  }

  // ---- why it is enough -------------------------------------------------------------------

  /** A key that no harmless run can lose, for one of four reasons. */
  ghost predicate Safe(s: Store, k: ChunkKey) {
    && s.cold.Some?
    && (|| s.Resident(k)
        || s.Protected(k)
        || (s.cold.value.keyTtl.None? && k in s.View())
        || (NeverEvicts(s.hot.capacity) && (k in s.hot.data || s.cold.value.Persists(k))))
  }

  lemma {:induction false} StepKeepsResident(s: Store, e: Event, k: ChunkKey)
    requires s.Valid() && s.Resident(k) && ReplyTo(s, e) != Raised
    requires e != Call(UnpinOp(k)) && e != Call(RemoveOp(k))
    ensures Step(s, e).Resident(k)
  {
    hide L.Put, L.Lru.Valid;
    match e
    case Call(PutOp(x, obj, pin)) =>
      PutKeepsResident(s, x, obj, pin, k);
      PutState(s.hot, x, obj, pin);
    case Call(GetOp(x)) => GetKeepsResident(s, x, k);
    case _ =>
  }

  /** Over a tier that never drops, readers lose a key only when it is removed. */
  lemma {:induction false} StepKeepsVisible(s: Store, e: Event, k: ChunkKey)
    requires s.Valid() && s.cold.Some? && s.cold.value.keyTtl.None? && k in s.View()
    requires e != Call(RemoveOp(k)) && ReplyTo(s, e) != Raised
    ensures Step(s, e).cold.Some? && Step(s, e).cold.value.keyTtl.None? && k in Step(s, e).View()
  {
    hide Store.Put, Store.Get, Store.View, L.Lru.Valid;
    match e
    case Call(PutOp(x, obj, pin)) => TieredPutView(s, x, obj, pin);
    case Call(GetOp(x)) => GetView(s, x);
    case Call(RemoveOp(x)) => RemoveView(s, {x});
    case Call(PinOp(x)) => PinView(s, {x});
    case Call(UnpinOp(x)) => PinView(s, {x});
    case Expiry(x) =>
  }

  /** A put that goes in where there is no byte of room, or no limit, evicts nothing. */
  lemma {:induction false} AdmittedEvictsNothing(s: Lru, k: ChunkKey, obj: Payload, pin: bool)
    requires s.Valid() && NeverEvicts(s.capacity) && L.Put(s, k, obj, pin).ok
    ensures L.Put(s, k, obj, pin).victims == []
  {
    hide L.Put, Without;
    PutState(s, k, obj, pin);
    PutVictimsExactly(s, k, obj, pin);
    DropValid(s, {k});
    var s1, vs := Drop(s, {k}), L.Put(s, k, obj, pin).victims;
    if s.capacity.Some? && vs != [] {
      assert vs[..0] == [];
      HeadElem(s1.order);
      BytesConcat(vs, s1.Candidates()[|vs|..], s1.data);
      assert s1.Candidates() == vs + s1.Candidates()[|vs|..];
      BytesSplit(s1.order, s1.pinned, s1.data);
    }
  }

  lemma {:induction false} HeadElem(ks: seq<ChunkKey>)
    ensures ks != [] ==> Elems(ks) != {}
  {
    if ks != [] {
      assert ks[0] in Elems(ks);
    }
  }

  lemma {:induction false} StepKeepsUnevicted(s: Store, e: Event, k: ChunkKey)
    requires s.Valid() && s.cold.Some? && NeverEvicts(s.hot.capacity)
    requires k in s.hot.data || s.cold.value.Persists(k)
    requires e != Call(UnpinOp(k)) && e != Call(RemoveOp(k)) && ReplyTo(s, e) != Raised
    ensures var s' := Step(s, e);
      && s'.cold.Some? && s'.hot.capacity == s.hot.capacity
      && (k in s'.hot.data || s'.cold.value.Persists(k))
  {
    hide L.Put, L.Lru.Valid, NeverEvicts;
    match e
    case Call(PutOp(x, obj, pin)) =>
      PutState(s.hot, x, obj, pin);
      AdmittedEvictsNothing(s.hot, x, obj, pin);
    case Call(GetOp(x)) =>
      if x !in s.hot.data && x in s.cold.value.objects {
        PutState(s.hot, x, s.cold.value.objects[x], false);
        AdmittedEvictsNothing(s.hot, x, s.cold.value.objects[x], false);
      }
    case _ =>
  }

  lemma {:induction false} StepKeepsSafe(s: Store, e: Event, k: ChunkKey)
    requires s.Valid() && Safe(s, k) && ReplyTo(s, e) != Raised
    requires e != Call(UnpinOp(k)) && e != Call(RemoveOp(k))
    ensures Safe(Step(s, e), k)
  {
    hide Step, ReplyTo, Store.View, Store.Resident, Store.Protected, L.Lru.Valid, Cold.Persists;
    StepValid(s, e);
    if s.Resident(k) {
      StepKeepsResident(s, e, k);
    } else if s.Protected(k) {
      StepKeepsProtected(s, e, k);
    } else if s.cold.value.keyTtl.None? && k in s.View() {
      StepKeepsVisible(s, e, k);
    } else {
      StepKeepsUnevicted(s, e, k);
    }
  }

  lemma {:induction false} SafeStays(s: Store, events: seq<Event>, k: ChunkKey)
    requires s.Valid() && Safe(s, k) && Harmless(s, events, k)
    ensures Safe(After(s, events), k)
  {
    hide Safe, Step, ReplyTo, Harmless;
    if events != [] {
      var past, e := events[..|events| - 1], events[|events| - 1];
      HarmlessFront(s, events, k);
      SafeStays(s, past, k);
      StepKeepsSafe(After(s, past), e, k);
    }
  }

  // ---- why it is needed -------------------------------------------------------------------

  lemma {:induction false} HarmlessMore(s: Store, events: seq<Event>, e: Event, k: ChunkKey)
    requires s.Valid() && Harmless(s, events, k)
    requires e != Call(UnpinOp(k)) && e != Call(RemoveOp(k)) && ReplyTo(After(s, events), e) != Raised
    ensures Harmless(s, events + [e], k) && After(s, events + [e]) == Step(After(s, events), e)
  {
    hide Step, ReplyTo;
    AfterOneMore(s, events, e);
    var more := events + [e];
    forall n | 0 <= n < |more| ensures ReplyTo(After(s, more[..n]), more[n]) != Raised {
      assert more[..n] == events[..n];
    }
    assert events[..|events|] == events;
  }

  /** Removing other keys one by one. */
  lemma {:induction false} Clear(s: Store, ks: seq<ChunkKey>, k: ChunkKey) returns (events: seq<Event>)
    requires s.Valid() && k !in Elems(ks)
    ensures Harmless(s, events, k) && After(s, events) == s.Remove(Elems(ks))
  {
    hide Store.Remove, Elems;
    if ks == [] {
      events := [];
      RemoveMore(s, {}, {});
      assert Elems([]) == {} by {
        NoElems();
      }
    } else {
      var front, last := ks[..|ks| - 1], ks[|ks| - 1];
      assert ks == front + [last];
      ElemsConcat(front, [last]);
      SingleElem(last);
      var before := Clear(s, front, k);
      HarmlessMore(s, before, Call(RemoveOp(last)), k);
      RemoveMore(s, Elems(front), {last});
      events := before + [Call(RemoveOp(last))];
    }
  }

  lemma {:induction false} NoElems()
    ensures Elems([]) == {}
  {}

  function Zeros(n: nat): Payload {
    Payload(seq(n, _ => 0), 1, 1, "raw", map[])
  }

  /** The first put into an empty hot tier goes in and leaves cold alone. */
  lemma {:induction false} FirstPut(s: Store, k: ChunkKey, obj: Payload)
    requires s.Valid() && s.cold.Some? && s.hot.order == []
    requires s.hot.capacity.Some? && obj.NBytes() <= s.hot.capacity.value
    ensures s.Put(k, obj, false) ==
      Stored(s.(hot := s.hot.(order := [k], data := map[k := obj])), true)
  {
    hide L.Put, L.Lru.Valid;
    PutAdmittedExactly(s.hot, k, obj, false);
    PutState(s.hot, k, obj, false);
    ValidKeys(s.hot);
    var put := L.Put(s.hot, k, obj, false);
    assert s.hot.data.Keys == {};
    assert s.hot.data == map[];
    assert Elems(put.victims) == {};
    var cold := s.cold.value.Demote({}, s.hot.data);
    assert cold.objects == s.cold.value.objects && cold.expiring == s.cold.value.expiring;
  }

  /** The next one that needs all the room evicts it, if it is not pinned. */
  lemma {:induction false} FullPut(s: Store, k: ChunkKey, p: Payload, x: ChunkKey, q: Payload)
    requires s.Valid() && s.cold.Some? && s.hot.order == [k] && s.hot.data == map[k := p]
    requires s.hot.capacity == Some(q.NBytes()) && p.NBytes() > 0 && x != k && k !in s.hot.pinned
    ensures var r := s.Put(x, q, false);
      && r.ok && r.store.cold == Some(s.cold.value.Demote({k}, s.hot.data))
      && k !in r.store.hot.data
  {
    hide L.Put, L.Lru.Valid;
    var s1, put := Drop(s.hot, {x}), L.Put(s.hot, x, q, false);
    SingleElem(k);
    assert s1.data == s.hot.data && s1.order == [k] by {
      WithoutDisjoint([k], {x});
    }
    assert s1.Candidates() == [k] by {
      WithoutDisjoint([k], s.hot.pinned);
    }
    assert s.hot.PinnedBytes(x) == 0 by {
      WithoutAll([k], {k} - (s.hot.pinned - {x}));
    }
    assert s1.Used() == p.NBytes() by {
      assert Bytes([k], s1.data) == p.NBytes() + Bytes([], s1.data);
    }
    PutAdmittedExactly(s.hot, x, q, false);
    PutVictimsExactly(s.hot, x, q, false);
    PutState(s.hot, x, q, false);
    assert Bytes([], s1.data) == 0;
    assert put.victims == [k];
  }

  /** From an empty hot tier, two puts and an expiry lose a demoted key. */
  lemma {:induction false} LoseFromEmpty(s: Store, k: ChunkKey, x: ChunkKey) returns (events: seq<Event>)
    requires s.Valid() && s.cold.Some? && s.cold.value.keyTtl.Some? && s.hot.order == []
    requires s.hot.capacity.Some? && s.hot.capacity.value >= 1 && k !in s.hot.pinned && x != k
    ensures Harmless(s, events, k) && k !in After(s, events).View()
  {
    hide L.Put, L.Lru.Valid, Store.Put, After, Harmless;
    var p, q := Zeros(1), Zeros(s.hot.capacity.value);
    assert Harmless(s, [], k) && After(s, []) == s by {
      NothingYet(s, k);
    }
    FirstPut(s, k, p);
    HarmlessMore(s, [], Call(PutOp(k, p, false)), k);
    var one := [] + [Call(PutOp(k, p, false))];
    var s1 := After(s, one);
    FullPut(s1, k, p, x, q);
    HarmlessMore(s, one, Call(PutOp(x, q, false)), k);
    var two := one + [Call(PutOp(x, q, false))];
    HarmlessMore(s, two, Expiry(k), k);
    events := two + [Expiry(k)];
    ExpiredIsGone(s1, k, After(s, two));
  }

  lemma {:induction false} NothingYet(s: Store, k: ChunkKey)
    requires s.Valid()
    ensures Harmless(s, [], k) && After(s, []) == s
  {}

  lemma {:induction false} ExpiredIsGone(s1: Store, k: ChunkKey, s2: Store)
    requires s1.cold.Some? && s1.cold.value.keyTtl.Some? && k in s1.hot.data
    requires s2.cold == Some(s1.cold.value.Demote({k}, s1.hot.data)) && k !in s2.hot.data
    ensures k !in s2.Expire(k).View()
  {}

  /** A key that hot does not know, in an expiring tier behind a bounded store, can be lost. */
  lemma {:induction false} LosingRun(s: Store, k: ChunkKey) returns (events: seq<Event>)
    requires s.Valid() && s.cold.Some? && !PinLasts(s, k)
    ensures Harmless(s, events, k) && k !in After(s, events).View()
  {
    hide Harmless, After, Store.View, L.Lru.Valid;
    ValidKeys(s.hot);
    var cleared := Clear(s, s.hot.order, k);
    RemoveView(s, Elems(s.hot.order));
    var t := After(s, cleared);
    assert t.hot.order == [] by {
      WithoutAll(s.hot.order, Elems(s.hot.order));
    }
    var rest := LoseFromEmpty(t, k, k.(chunkIndex := k.chunkIndex + 1));
    events := cleared + rest;
    HarmlessConcat(s, cleared, rest, k);
  }

  lemma {:induction false} HarmlessFront(s: Store, events: seq<Event>, k: ChunkKey)
    requires s.Valid() && Harmless(s, events, k) && events != []
    ensures var front, e := events[..|events| - 1], events[|events| - 1];
      && Harmless(s, front, k) && After(s, events) == Step(After(s, front), e)
      && e != Call(UnpinOp(k)) && e != Call(RemoveOp(k)) && ReplyTo(After(s, front), e) != Raised
  {
    hide Step, ReplyTo;
    var front := events[..|events| - 1];
    forall n | 0 <= n < |front| ensures front[..n] == events[..n] && front[n] == events[n] {}
  }

  lemma {:induction false} HarmlessConcat(s: Store, a: seq<Event>, b: seq<Event>, k: ChunkKey)
    requires s.Valid() && Harmless(s, a, k) && Harmless(After(s, a), b, k)
    ensures Harmless(s, a + b, k) && After(s, a + b) == After(After(s, a), b)
  {
    hide Step, ReplyTo, Harmless;
    if b == [] {
      assert a + b == a;
    } else {
      var front, e := b[..|b| - 1], b[|b| - 1];
      HarmlessFront(After(s, a), b, k);
      HarmlessConcat(s, a, front, k);
      HarmlessMore(s, a + front, e, k);
      assert a + b == (a + front) + [e];
    }
  }

  // ---- the exact condition ----------------------------------------------------------------

  /**
   * A late pin, of a key alone or with others, keeps a stored key readable, through every run in
   * which nothing raises and the key is neither unpinned nor removed, expiries included, exactly when
   * hot holds the key or already its pin, or nothing is ever lost: the cold tier sets no expiry, or
   * hot never evicts.
   */
  lemma {:induction false} LatePinKeepsExactly(s: Store, ks: set<ChunkKey>, k: ChunkKey)
    requires s.Valid() && s.cold.Some? && k in s.View() && k in ks
    ensures s.Pin(ks).Valid()
    ensures KeptReadable(s.Pin(ks), k) <==> PinLasts(s, k)
  {
    hide Harmless, After, L.Lru.Valid;
    PinView(s, ks);
    var t := s.Pin(ks);
    if PinLasts(s, k) {
      assert Safe(t, k);
      forall events | Harmless(t, events, k) ensures k in After(t, events).View() {
        SafeStays(t, events, k);
      }
    } else {
      var events := LosingRun(t, k);
    }
  }
}
