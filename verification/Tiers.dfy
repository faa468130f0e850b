/**
 * What a storage backend means as a value: a hot LRU store, alone or over a cold tier
 * (src/llmcache/store/tiered.py), and the laws every engine above it relies on.
 *
 * The cold tier is a disk or Redis store seen through the backend interface. With `keyTtl` it
 * stores unpinned objects with an expiry, as RedisBackend does; without, it never drops.
 */
module Tiers {
  import opened Wrappers
  import opened Payloads
  import opened Types
  import opened L = Lru

  // ---- the cold tier ----------------------------------------------------------------------

  /** The stored objects, and which of them the tier drops after `keyTtl`. */
  datatype Cold = Cold(objects: map<ChunkKey, Payload>, expiring: set<ChunkKey>, keyTtl: Option<nat>)
  {
    /** `ks` start to expire, where the tier has an expiry to give them. */
    function Expiring(ks: set<ChunkKey>): set<ChunkKey> {
      if keyTtl.Some? then expiring + ks else expiring - ks
    }

    /** Storing replaces the expiry too: none for a pinned object, `keyTtl` otherwise. */
    function Put(k: ChunkKey, obj: Payload, pin: bool): Cold {
      this.(objects := objects[k := obj], expiring := if pin then expiring - {k} else Expiring({k}))
    }

    function Remove(ks: set<ChunkKey>): Cold {
      this.(objects := objects - ks, expiring := expiring - ks)
    }

    function Pin(ks: set<ChunkKey>): Cold {
      this.(expiring := expiring - ks)
    }

    function Unpin(ks: set<ChunkKey>): Cold {
      this.(expiring := if keyTtl.Some? then expiring + (ks * objects.Keys) else expiring)
    }

    /** The unpinned put of every evicted object. */
    function Demote(victims: set<ChunkKey>, hot: map<ChunkKey, Payload>): Cold
      requires victims <= hot.Keys
    {
      this.(objects := objects + (hot - (hot.Keys - victims)), expiring := Expiring(victims))
    }

    /** The tier drops a key whose expiry has run out. */
    function Expire(k: ChunkKey): Cold {
      if keyTtl.Some? && k in objects && k in expiring then Remove({k}) else this
    }

    /** Stored with no expiry. */
    predicate Persists(k: ChunkKey) {
      k in objects && k !in expiring
    }
  }

  // ---- a store ----------------------------------------------------------------------------

  datatype Stored = Stored(store: Store, ok: bool)

  /** What `get` does: an object, `None`, or StorageFullError out of a failed promotion. */
  datatype Fetch = Hit(obj: Payload) | Miss | Full

  datatype Fetched = Fetched(store: Store, result: Fetch)

  datatype Store = Store(hot: Lru, cold: Option<Cold>)
  {
    ghost predicate Valid() {
      hot.Valid()
    }

    /** What a reader can see: hot objects shadow cold ones. */
    function View(): map<ChunkKey, Payload> {
      (if cold.Some? then cold.value.objects else map[]) + hot.data
    }

    /** No eviction and no expiry can lose an object. */
    ghost predicate NeverDrops() {
      if cold.Some? then cold.value.keyTtl.None? else hot.capacity.None?
    }

    function PutHot(k: ChunkKey, obj: Payload, pin: bool): Stored
      requires Valid()
    {
      var put := L.Put(hot, k, obj, pin);
      L.PutState(hot, k, obj, pin);
      var cold' := if cold.Some? then Some(cold.value.Demote(Elems(put.victims), hot.data)) else None;
      Stored(Store(put.state, cold'), put.ok)
    }

    function Put(k: ChunkKey, obj: Payload, pin: bool): Stored
      requires Valid()
    {
      var r := PutHot(k, obj, pin);
      if r.ok && pin && cold.Some? then
        r.(store := r.store.(cold := Some(r.store.cold.value.Put(k, obj, true))))
      else r
    }

    function Get(k: ChunkKey): Fetched
      requires Valid()
    {
      if k in hot.data then Fetched(this.(hot := Touch(hot, k)), Hit(hot.data[k]))
      else if cold.Some? && k in cold.value.objects then
        var obj := cold.value.objects[k];
        var promoted := PutHot(k, obj, false);
        Fetched(promoted.store, if promoted.ok then Hit(obj) else Full)
      else Fetched(this, Miss)
    }

    function Remove(ks: set<ChunkKey>): Store {
      Store(L.Remove(hot, ks), if cold.Some? then Some(cold.value.Remove(ks)) else None)
    }

    function Pin(ks: set<ChunkKey>): Store {
      Store(L.Pin(hot, ks), if cold.Some? then Some(cold.value.Pin(ks)) else None)
    }

    function Unpin(ks: set<ChunkKey>): Store {
      Store(L.Unpin(hot, ks), if cold.Some? then Some(cold.value.Unpin(ks)) else None)
    }

    function Expire(k: ChunkKey): Store {
      this.(cold := if cold.Some? then Some(cold.value.Expire(k)) else None)
    }

    /** Only in cold, and too large for hot beside what is pinned there. */
    predicate PromotionFails(k: ChunkKey) {
      && k !in hot.data && cold.Some? && k in cold.value.objects && hot.capacity.Some?
      && cold.value.objects[k].NBytes() + hot.PinnedBytes(k) > hot.capacity.value
    }

    /** An object that is in the hot tier and pinned there. */
    predicate Resident(k: ChunkKey) {
      k in hot.pinned && k in hot.data
    }

    /** Pinned in hot, with a copy in cold that has no expiry. */
    predicate Protected(k: ChunkKey) {
      k in hot.pinned && cold.Some? && cold.value.Persists(k)
    }
  }

  /** Every entry of one map is an entry of the other. */
  ghost predicate SubMap(a: map<ChunkKey, Payload>, b: map<ChunkKey, Payload>) {
    forall k :: k in a ==> k in b && a[k] == b[k]
  }

  // ---- one operation ----------------------------------------------------------------------

  /** Demotion moves objects between the tiers without changing what shows through. */
  lemma {:induction false} DemoteView(cold: Cold, hot: map<ChunkKey, Payload>, victims: set<ChunkKey>, k: ChunkKey)
    requires victims <= hot.Keys && k !in victims
    ensures cold.Demote(victims, hot).objects + (hot - ({k} + victims)) == cold.objects + (hot - {k})
  {}

  /** Both tiers after a hot put: at other keys the view is unchanged. */
  lemma {:induction false} PutHotView(s: Store, k: ChunkKey, obj: Payload, pin: bool)
    requires s.Valid() && s.cold.Some?
    ensures var r := s.PutHot(k, obj, pin);
      && r.store.Valid() && r.store.cold.Some? && r.store.cold.value.keyTtl == s.cold.value.keyTtl
      && r.store.hot.capacity == s.hot.capacity
      && (r.ok ==> k in r.store.hot.data && r.store.hot.data[k] == obj)
      && r.store.View() == (if r.ok then s.View()[k := obj] else s.cold.value.objects + (s.hot.data - {k}))
  {
    hide L.Put, L.Elems, L.Lru.Valid;
    var r, put := s.PutHot(k, obj, pin), L.Put(s.hot, k, obj, pin);
    PutState(s.hot, k, obj, pin);
    PutValid(s.hot, k, obj, pin);
    var victims := Elems(put.victims);
    DemoteView(s.cold.value, s.hot.data, victims, k);
    if r.ok {
      MapUpdate(r.store.cold.value.objects, s.hot.data - ({k} + victims), k, obj);
      MapUpdate(s.cold.value.objects, s.hot.data - {k}, k, obj);
      assert s.hot.data[k := obj] == (s.hot.data - {k})[k := obj];
      MapUpdate(s.cold.value.objects, s.hot.data, k, obj);
    }
  }

  lemma {:induction false} MapUpdate(a: map<ChunkKey, Payload>, b: map<ChunkKey, Payload>, k: ChunkKey, obj: Payload)
    ensures a + b[k := obj] == (a + b)[k := obj] == (a[k := obj] + b)[k := obj]
  {}

  /**
   * A put over a cold tier changes what readers see at its own key only. If it goes in, the key
   * reads as the new object. If it raises, the key's old hot object is gone and an older cold
   * copy, where there is one, shows through again.
   */
  lemma {:induction false} TieredPutView(s: Store, k: ChunkKey, obj: Payload, pin: bool)
    requires s.Valid() && s.cold.Some?
    ensures var r := s.Put(k, obj, pin);
      && r.store.Valid() && r.store.cold.Some? && r.store.cold.value.keyTtl == s.cold.value.keyTtl
      && r.store.hot.capacity == s.hot.capacity
      && (r.ok ==> r.store.View() == s.View()[k := obj])
      && (!r.ok && k in s.cold.value.objects ==>
            r.store.View() == s.View()[k := s.cold.value.objects[k]])
      && (!r.ok && k !in s.cold.value.objects ==> r.store.View() == s.View() - {k})
  {
    hide Store.PutHot, L.Lru.Valid;
    var p := s.PutHot(k, obj, pin);
    PutHotView(s, k, obj, pin);
    if p.ok && pin {
      var c := p.store.cold.value;
      assert c.Put(k, obj, true).objects == c.objects[k := obj];
      assert p.store.hot.data[k := obj] == p.store.hot.data;
      MapUpdate(c.objects, p.store.hot.data, k, obj);
    } else if !p.ok {
      FailedView(s.cold.value.objects, s.hot.data, k);
    }
  }

  lemma {:induction false} FailedView(cold: map<ChunkKey, Payload>, hot: map<ChunkKey, Payload>, k: ChunkKey)
    ensures k in cold ==> cold + (hot - {k}) == (cold + hot)[k := cold[k]]
    ensures k !in cold ==> cold + (hot - {k}) == (cold + hot) - {k}
  {}

  /** A put on a hot store alone: evicted objects are lost, nothing else changes. */
  lemma {:induction false} HotPutView(s: Store, k: ChunkKey, obj: Payload, pin: bool)
    requires s.Valid() && s.cold.None?
    ensures var r := s.Put(k, obj, pin);
      var lost := Elems(L.Put(s.hot, k, obj, pin).victims);
      && r.store.Valid() && r.store.cold.None? && r.store.hot.capacity == s.hot.capacity
      && lost <= s.View().Keys - s.hot.pinned - {k}
      && r.store.View() == (if r.ok then s.View()[k := obj] else s.View() - {k}) - lost
      && (s.hot.capacity.None? ==> r.ok && lost == {})
  {
    hide L.Put, L.Lru.Valid;
    var r, lost := s.Put(k, obj, pin), Elems(L.Put(s.hot, k, obj, pin).victims);
    PutState(s.hot, k, obj, pin);
    PutValid(s.hot, k, obj, pin);
    assert s.View() == s.hot.data;
    assert r.store.View() == r.store.hot.data;
    assert (s.hot.data - ({k} + lost))[k := obj] == s.hot.data[k := obj] - lost;
    assert s.hot.data - ({k} + lost) == s.hot.data - {k} - lost;
  }

  /**
   * When readers do not notice a put that raises. Over a cold tier: exactly when the key was not in
   * hot, or cold holds the same object.
   */
  lemma {:induction false} FailedPutUnseenExactly(s: Store, k: ChunkKey, obj: Payload, pin: bool)
    requires s.Valid() && s.cold.Some? && !s.Put(k, obj, pin).ok
    ensures s.Put(k, obj, pin).store.View() == s.View() <==>
      (k in s.hot.data ==> k in s.cold.value.objects && s.cold.value.objects[k] == s.hot.data[k])
  {
    hide L.Lru.Valid, Store.PutHot;
    TieredPutView(s, k, obj, pin);
    UnseenInCold(s.cold.value.objects, s.hot.data, k);
  }

  /**
   * On a hot store alone: exactly when the key was not there and nothing could be evicted for it,
   * all else being pinned, or the object oversized and no pin recorded.
   */
  lemma {:induction false} FailedPutAloneUnseenExactly(s: Store, k: ChunkKey, obj: Payload, pin: bool)
    requires s.Valid() && s.cold.None? && !s.Put(k, obj, pin).ok
    ensures s.hot.capacity.Some?
    ensures s.Put(k, obj, pin).store.View() == s.View() <==>
      && k !in s.hot.data
      && (|| s.hot.data.Keys <= s.hot.pinned
          || (obj.NBytes() > s.hot.capacity.value && s.hot.pinned == {}))
  {
    hide L.Put, L.Lru.Valid;
    var lost := Elems(L.Put(s.hot, k, obj, pin).victims);
    PutState(s.hot, k, obj, pin);
    HotPutView(s, k, obj, pin);
    UnseenAlone(s.View(), lost, k);
    if k !in s.hot.data {
      PutVictimsExactly(s.hot, k, obj, pin);
      DropAbsent(s.hot, k);
      ValidKeys(s.hot);
      assert Elems(s.hot.Candidates()) == s.hot.data.Keys - s.hot.pinned;
      assert s.View() == s.hot.data;
    }
  }

  lemma {:induction false} UnseenInCold(cold: map<ChunkKey, Payload>, hot: map<ChunkKey, Payload>, k: ChunkKey)
    ensures k in cold ==> ((cold + hot)[k := cold[k]] == cold + hot <==> (k in hot ==> hot[k] == cold[k]))
    ensures k !in cold ==> ((cold + hot) - {k} == cold + hot <==> k !in hot)
  {
    if k in cold {
      assert (cold + hot)[k := cold[k]][k] == cold[k];
    } else {
      assert k !in (cold + hot) - {k};
    }
  }

  lemma {:induction false} UnseenAlone(m: map<ChunkKey, Payload>, lost: set<ChunkKey>, k: ChunkKey)
    requires lost <= m.Keys
    ensures m - {k} - lost == m <==> k !in m && lost == {}
  {
    forall x | x in lost ensures x !in m - {k} - lost {}
    assert k !in m - {k} - lost;
  }

  /** A get never changes what readers see, even when promotion raises, and never lies about it. */
  lemma {:induction false} GetView(s: Store, k: ChunkKey)
    requires s.Valid()
    ensures var r := s.Get(k);
      && r.store.Valid()
      && r.store.View() == s.View()
      && r.store.cold.Some? == s.cold.Some?
      && (s.cold.Some? ==> r.store.cold.value.keyTtl == s.cold.value.keyTtl)
      && r.store.hot.capacity == s.hot.capacity
      && (r.result.Hit? ==> k in s.View() && r.result.obj == s.View()[k])
      && (r.result.Miss? <==> k !in s.View())
      && (r.result.Full? ==> s.cold.Some? && k !in s.hot.data)
  {
    hide L.Lru.Valid, L.Without, L.Elems, Store.PutHot;
    if k in s.hot.data {
      TouchValid(s.hot, k);
    } else if s.cold.Some? && k in s.cold.value.objects {
      var obj := s.cold.value.objects[k];
      PutHotView(s, k, obj, false);
      assert s.View()[k] == obj;
      assert s.View()[k := obj] == s.View();
      assert s.hot.data - {k} == s.hot.data;
    }
  }

  /** A get raises exactly when the key is only in cold and does not fit beside what is pinned. */
  lemma {:induction false} GetRaisesExactly(s: Store, k: ChunkKey)
    requires s.Valid()
    ensures s.Get(k).result == Full <==> s.PromotionFails(k)
  {
    hide L.Put, L.Lru.Valid;
    if k !in s.hot.data && s.cold.Some? && k in s.cold.value.objects {
      PutAdmittedExactly(s.hot, k, s.cold.value.objects[k], false);
    }
  }

  /** A get that returns an object leaves it in hot as the most recently used. */
  lemma {:induction false} GetPromotes(s: Store, k: ChunkKey)
    requires s.Valid() && s.Get(k).result.Hit?
    ensures var hot := s.Get(k).store.hot;
      k in hot.data && hot.data[k] == s.Get(k).result.obj && hot.order != [] && hot.order[|hot.order| - 1] == k
  {
    hide L.Put, L.Lru.Valid, Without, Elems;
    if k !in s.hot.data {
      PutState(s.hot, k, s.cold.value.objects[k], false);
    }
  }

  /** Once unpinned, stored keys of a tier with an expiry are dropped when it runs out; else never. */
  lemma {:induction false} UnpinnedExpires(s: Store, ks: set<ChunkKey>, k: ChunkKey)
    requires s.cold.Some? && k in ks && k in s.cold.value.objects
    ensures var cold := s.Unpin(ks).cold.value;
      && cold.objects == s.cold.value.objects
      && (cold.keyTtl.Some? ==> !cold.Persists(k) && cold.Expire(k).objects == cold.objects - {k})
      && (cold.keyTtl.None? ==> cold.Expire(k) == cold)
  {}

  lemma {:induction false} RemoveView(s: Store, ks: set<ChunkKey>)
    requires s.Valid()
    ensures s.Remove(ks).Valid() && s.Remove(ks).View() == s.View() - ks
  {
    DropValid(s.hot, ks);
  }

  lemma {:induction false} PinView(s: Store, ks: set<ChunkKey>)
    ensures s.Pin(ks).View() == s.View() && s.Unpin(ks).View() == s.View()
    ensures s.Valid() ==> s.Pin(ks).Valid() && s.Unpin(ks).Valid()
  {}

  /** Whatever the backend, after a put the view holds the new object or nothing at its key. */
  lemma {:induction false} PutViewAny(s: Store, k: ChunkKey, obj: Payload, pin: bool)
    requires s.Valid()
    ensures var r := s.Put(k, obj, pin);
      && r.store.Valid()
      && SubMap(r.store.View() - {k}, s.View() - {k})
      && (r.ok ==> SubMap(r.store.View(), s.View()[k := obj]))
      && (s.NeverDrops() ==> r.store.NeverDrops() && (r.ok ==> r.store.View() == s.View()[k := obj]))
  {
    if s.cold.Some? {
      TieredPutView(s, k, obj, pin);
    } else {
      HotPutView(s, k, obj, pin);
    }
  }

  /** A pinned resident object stays through a put under any other key, successful or not. */
  lemma {:induction false} PutKeepsResident(s: Store, k: ChunkKey, obj: Payload, pin: bool, x: ChunkKey)
    requires s.Valid()
    ensures var r := s.Put(k, obj, pin);
      && (s.Resident(x) && x != k ==> r.store.Resident(x) && r.store.hot.data[x] == s.hot.data[x])
      && (r.ok && pin ==> r.store.Resident(k) && r.store.hot.data[k] == obj)
  {
    PutState(s.hot, k, obj, pin);
  }

  lemma {:induction false} GetKeepsResident(s: Store, k: ChunkKey, x: ChunkKey)
    requires s.Valid() && s.Resident(x)
    ensures s.Get(k).store.Resident(x) && s.Get(k).store.hot.data[x] == s.hot.data[x]
    ensures k == x ==> s.Get(k).result == Hit(s.hot.data[x])
  {
    if k !in s.hot.data && s.cold.Some? && k in s.cold.value.objects {
      PutState(s.hot, k, s.cold.value.objects[k], false);
    }
  }

  // ---- keys one at a time or together -----------------------------------------------------

  lemma {:induction false} RemoveMore(s: Store, a: set<ChunkKey>, b: set<ChunkKey>)
    ensures s.Remove(a).Remove(b) == s.Remove(a + b)
    ensures s.Remove({}) == s
  {
    DropMore(s.hot, a, b);
    assert s.hot.pinned - (a * s.hot.data.Keys) - (b * (s.hot.data - a).Keys)
      == s.hot.pinned - ((a + b) * s.hot.data.Keys);
    WithoutDisjoint(s.hot.order, {});
    assert s.hot.data - {} == s.hot.data;
    if s.cold.Some? {
      assert s.cold.value.objects - a - b == s.cold.value.objects - (a + b);
      assert s.cold.value.objects - {} == s.cold.value.objects;
      assert s.cold.value.expiring - a - b == s.cold.value.expiring - (a + b);
      assert s.cold.value.expiring - {} == s.cold.value.expiring;
    }
  }

  lemma {:induction false} PinMore(s: Store, a: set<ChunkKey>, b: set<ChunkKey>)
    ensures s.Pin(a).Pin(b) == s.Pin(a + b) && s.Pin({}) == s
    ensures s.Unpin(a).Unpin(b) == s.Unpin(a + b) && s.Unpin({}) == s
  {
    assert s.hot.pinned + (a * s.hot.data.Keys) + (b * s.hot.data.Keys) == s.hot.pinned + ((a + b) * s.hot.data.Keys);
    assert s.hot.pinned + ({} * s.hot.data.Keys) == s.hot.pinned;
    assert s.hot.pinned - a - b == s.hot.pinned - (a + b);
    if s.cold.Some? {
      var c := s.cold.value;
      assert c.Pin(a).Pin(b).expiring == c.Pin(a + b).expiring && c.Pin({}).expiring == c.expiring;
      assert c.Unpin(a).Unpin(b).expiring == c.Unpin(a + b).expiring && c.Unpin({}).expiring == c.expiring;
    }
  }
}
