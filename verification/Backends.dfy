/**
 * The storage backends as they run: in-place updates, the eviction loop and its callback.
 * Sources: src/llmcache/store/base.py, cpu.py, tiered.py and, as a map behind the backend
 * interface, disk.py. Each method is proved against the value it computes in Lru and Tiers.
 */
module Backends {
  import opened Wrappers
  import opened Payloads
  import opened Types
  import L = Lru
  import opened Tiers

  /** A cold tier behind the StorageBackend interface. */
  class ColdBackend {
    const keyTtl: Option<nat>
    var objects: map<ChunkKey, Payload>
    var expiring: set<ChunkKey>

    constructor (keyTtl: Option<nat>)
      ensures Value() == Cold(map[], {}, keyTtl)
    {
      this.keyTtl := keyTtl;
      objects, expiring := map[], {};
    }

    ghost function Value(): Cold
      reads this
    {
      Cold(objects, expiring, keyTtl)
    }

    method Put(k: ChunkKey, obj: Payload, pin: bool)
      modifies this
      ensures Value() == old(Value()).Put(k, obj, pin)
    {
      objects := objects[k := obj];
      if pin || keyTtl.None? {
        expiring := expiring - {k};
      } else {
        expiring := expiring + {k};
      }
    }

    method Get(k: ChunkKey) returns (r: Option<Payload>)
      ensures r == if k in Value().objects then Some(Value().objects[k]) else None
    {
      r := if k in objects then Some(objects[k]) else None;
    }

    method Contains(k: ChunkKey) returns (found: bool)
      ensures found <==> k in Value().objects
    {
      found := k in objects;
    }

    method Remove(k: ChunkKey) returns (existed: bool)
      modifies this
      ensures Value() == old(Value()).Remove({k})
      ensures existed <==> k in old(Value()).objects
    {
      existed := k in objects;
      objects, expiring := objects - {k}, expiring - {k};
    }

    method Pin(k: ChunkKey)
      modifies this
      ensures Value() == old(Value()).Pin({k})
    {
      expiring := expiring - {k};
    }

    method Unpin(k: ChunkKey)
      modifies this
      ensures Value() == old(Value()).Unpin({k})
    {
      if k in objects && keyTtl.Some? {
        expiring := expiring + {k};
      }
      assert keyTtl.Some? ==> expiring == old(expiring) + ({k} * objects.Keys);
    }

    method Keys() returns (ks: set<ChunkKey>)
      ensures ks == Value().objects.Keys
    {
      ks := objects.Keys;
    }
  }

  /** `StoreStats` of the in-memory store, without the tier-independent fields. */
  datatype StoreStats = StoreStats(
    numObjects: nat, usedBytes: int, capacityBytes: Option<int>, pinnedObjects: nat, pinnedBytes: nat)

  /** The in-memory LRU store. `onEvict` is the cold tier its callback writes to, if any. */
  class CPUBackend {
    const capacity: Option<int>
    var onEvict: ColdBackend?
    var order: seq<ChunkKey>
    var data: map<ChunkKey, Payload>
    var pinned: set<ChunkKey>
    var used: int

    constructor (capacity: Option<int>)
      ensures Valid() && onEvict == null
      ensures Hot() == L.Lru([], map[], {}, capacity)
    {
      this.capacity := capacity;
      onEvict := null;
      order, data, pinned, used := [], map[], {}, 0;
    }

    ghost function Hot(): L.Lru
      reads this
    {
      L.Lru(order, data, pinned, capacity)
    }

    ghost function Value(): Store
      reads Repr()
    {
      Store(Hot(), if onEvict == null then None else Some(onEvict.Value()))
    }

    ghost function Repr(): set<object>
      reads this
    {
      if onEvict == null then {this} else {this, onEvict}
    }

    /** The byte counter is the sum of the resident sizes, and the keys match the entries. */
    ghost predicate Valid()
      reads this
    {
      Hot().Valid() && used == Hot().Used()
    }

    /** `_data.pop(key)`, the byte counter, and the callback. */
    method PopVictim(key: ChunkKey)
      requires Valid() && key in data
      modifies Repr()
      ensures Valid() && onEvict == old(onEvict)
      ensures Hot() == L.Drop(old(Hot()), {key})
      ensures used == old(used) - old(data)[key].NBytes()
      ensures onEvict != null ==> onEvict.Value() == old(onEvict.Value()).Put(key, old(data)[key], false)
    {
      L.DropOne(Hot(), key);
      var victim := data[key];
      order, data := L.Without(order, {key}), data - {key};
      used := used - victim.NBytes();
      if onEvict != null {
        onEvict.Put(key, victim, false);
      }
    }

    /**
     * The eviction loop. The keys are those listed when it starts; each unpinned one is popped
     * and handed to the callback until the incoming object fits.
     */
    method EnsureRoom(incoming: nat, protect: ChunkKey) returns (ok: bool)
      requires Valid() && protect !in data
      modifies Repr()
      ensures Valid() && onEvict == old(onEvict)
      ensures var room := L.EnsureRoom(old(Hot()), incoming);
        && ok == room.ok
        && Hot() == room.state
        && L.Elems(room.victims) <= old(data).Keys
        && (onEvict != null ==>
              onEvict.Value() == old(onEvict.Value()).Demote(L.Elems(room.victims), old(data)))
    {
      hide L.Elems, L.Without, L.Lru.Valid, L.Bytes, L.Shed, L.Evicting, Cold.Demote, Cold.Put;
      ghost var s0, cold0 := Hot(), if onEvict == null then None else Some(onEvict.Value());
      L.EnsureRoomSpec(s0, incoming);
      L.EvictingStarts(s0, used + incoming - (if capacity.Some? then capacity.value else 0));
      NoneEvicted(s0, cold0);
      if capacity.None? {
        return true;
      }
      if incoming > capacity.value && pinned == {} {
        return false;
      }
      var keys := order;
      ghost var excess := used + incoming - capacity.value;
      ghost var victims: seq<ChunkKey>, rest := [], keys;
      for i := 0 to |keys|
        invariant Valid() && onEvict == old(onEvict)
        invariant rest == keys[i..] && L.Evicting(s0, victims, rest, excess)
        invariant Hot() == L.Drop(s0, L.Elems(victims))
        invariant used == s0.Used() - L.Bytes(victims, s0.data)
        invariant L.Elems(victims) <= s0.data.Keys
        invariant onEvict != null ==> onEvict.Value() == cold0.value.Demote(L.Elems(victims), s0.data)
      {
        if used + incoming <= capacity.value {
          break;
        }
        var key := keys[i];
        L.EvictingSkips(s0, victims, rest, excess);
        if key == protect || key in pinned {
          rest := rest[1..];
          continue;
        }
        EvictingKeys(s0, victims, rest, excess, cold0);
        L.EvictingTakes(s0, victims, rest, excess);
        L.OneMoreVictim(s0, victims, key);
        PopVictim(key);
        victims, rest := victims + [key], rest[1..];
      }
      L.EvictingEnds(s0, victims, rest, excess);
      ok := used + incoming <= capacity.value;
    }

    method Put(key: ChunkKey, obj: Payload, pin: bool) returns (ok: bool)
      requires Valid()
      modifies Repr()
      ensures Valid() && onEvict == old(onEvict)
      ensures Value() == old(Value()).PutHot(key, obj, pin).store
      ensures ok == old(Value()).PutHot(key, obj, pin).ok
    {
      hide L.Elems, L.Without, L.Bytes, L.Shed, L.EnsureRoom, L.Lru.Valid, Cold.Demote;
      ghost var s0 := Hot();
      L.PutState(s0, key, obj, pin);
      L.PutValid(s0, key, obj, pin);
      L.DropValid(s0, {key});
      if key in data {
        L.DropOne(s0, key);
        used := used - data[key].NBytes();
        order, data := L.Without(order, {key}), data - {key};
      } else {
        L.DropAbsent(s0, key);
      }
      assert Hot() == L.Drop(s0, {key});
      ghost var s1 := Hot();
      ok := EnsureRoom(obj.NBytes(), key);
      if onEvict != null {
        DemoteSame(old(onEvict.Value()), s0.data, s1.data, L.Elems(L.EnsureRoom(s1, obj.NBytes()).victims));
      }
      if !ok {
        return;
      }
      L.EnsureRoomSpec(s1, obj.NBytes());
      L.AppendUsed(Hot(), key, obj);
      order, data := order + [key], data[key := obj];
      used := used + obj.NBytes();
      if pin {
        pinned := pinned + {key};
      }
    }

    method Get(key: ChunkKey) returns (r: Option<Payload>)
      requires Valid()
      modifies this
      ensures Valid() && onEvict == old(onEvict)
      ensures Hot() == L.Touch(old(Hot()), key)
      ensures r == if key in old(data) then Some(old(data)[key]) else None
    {
      L.TouchValid(Hot(), key);
      r := None;
      if key in data {
        order := L.Without(order, {key}) + [key];
        r := Some(data[key]);
      }
    }

    method Contains(key: ChunkKey) returns (found: bool)
      ensures found <==> key in Hot().data
    {
      found := key in data;
    }

    method Remove(key: ChunkKey) returns (existed: bool)
      requires Valid()
      modifies this
      ensures Valid() && onEvict == old(onEvict)
      ensures Hot() == L.Remove(old(Hot()), {key})
      ensures existed <==> key in old(data)
    {
      if key !in data {
        L.DropAbsent(Hot(), key);
        return false;
      }
      L.DropOne(Hot(), key);
      used := used - data[key].NBytes();
      order, data := L.Without(order, {key}), data - {key};
      pinned := pinned - {key};
      return true;
    }

    method Pin(key: ChunkKey)
      requires Valid()
      modifies this
      ensures Valid() && onEvict == old(onEvict)
      ensures Hot() == L.Pin(old(Hot()), {key})
    {
      if key in data {
        pinned := pinned + {key};
      }
      assert pinned == old(pinned) + ({key} * old(data).Keys);
    }

    method Unpin(key: ChunkKey)
      requires Valid()
      modifies this
      ensures Valid() && onEvict == old(onEvict)
      ensures Hot() == L.Unpin(old(Hot()), {key})
    {
      pinned := pinned - {key};
    }

    method Keys() returns (ks: seq<ChunkKey>)
      ensures ks == Hot().order
    {
      ks := order;
    }

    /** Sums the sizes of the pinned resident objects in whatever order the pin set is walked. */
    method Stats() returns (st: StoreStats)
      requires Valid()
      ensures st == StoreStats(|data|, Hot().Used(), capacity, |pinned|, L.Bytes(L.Only(order, pinned), data))
      ensures st.pinnedBytes <= st.usedBytes
    {
      hide L.Without, L.Elems, L.Bytes, L.Only, L.Lru.Valid, L.NoDup;
      var pinnedBytes, left := 0, pinned;
      L.BytesSplit(order, pinned, data);
      L.OnlyNone(order, data);
      assert pinned - left == {};
      while left != {}
        invariant left <= pinned
        invariant pinnedBytes == L.Bytes(L.Only(order, pinned - left), data)
        decreases |left|
      {
        var k :| k in left;
        if k in data {
          pinnedBytes := pinnedBytes + data[k].NBytes();
        }
        L.OnlyMore(Hot(), pinned - left, k);
        assert pinned - left + {k} == pinned - (left - {k});
        left := left - {k};
      }
      assert pinned - {} == pinned;
      st := StoreStats(|data|, used, capacity, |pinned|, pinnedBytes);
    }
  }

  lemma {:induction false} DemoteSame(
    cold: Cold, a: map<ChunkKey, Payload>, b: map<ChunkKey, Payload>, victims: set<ChunkKey>)
    requires victims <= a.Keys && victims <= b.Keys && forall k :: k in victims ==> a[k] == b[k]
    ensures cold.Demote(victims, a) == cold.Demote(victims, b)
  {}

  lemma {:induction false} NoneEvicted(s: L.Lru, cold: Option<Cold>)
    ensures L.Elems([]) == {}
    ensures cold.Some? ==> cold.value.Demote({}, s.data) == cold.value
  {
    if cold.Some? {
      assert cold.value.Demote({}, s.data).objects == cold.value.objects;
      assert cold.value.Demote({}, s.data).expiring == cold.value.expiring;
    }
  }

  lemma {:induction false} EvictingKeys(
    s: L.Lru, victims: seq<ChunkKey>, rest: seq<ChunkKey>, excess: int, cold: Option<Cold>)
    requires rest != [] && L.Evicting(s, victims, rest, excess)
    ensures L.Elems(victims) + {rest[0]} <= s.data.Keys
    ensures cold.Some? ==>
      cold.value.Demote(L.Elems(victims) + {rest[0]}, s.data) ==
        cold.value.Demote(L.Elems(victims), s.data).Put(rest[0], s.data[rest[0]], false)
  {
    hide L.Shed, L.Without, L.Bytes, L.NoDup, Cold.Demote, Cold.Put;
    L.EvictingSkips(s, victims, rest, excess);
    if cold.Some? {
      DemoteMore(cold.value, s.data, L.Elems(victims), rest[0]);
    }
  }

  lemma {:induction false} DemoteMore(cold: Cold, hot: map<ChunkKey, Payload>, victims: set<ChunkKey>, k: ChunkKey)
    requires victims + {k} <= hot.Keys
    ensures cold.Demote(victims + {k}, hot) == cold.Demote(victims, hot).Put(k, hot[k], false)
  {}

  /** The two tiers. Wiring the callback is what turns hot evictions into demotions. */
  class TieredBackend {
    const hot: CPUBackend
    const cold: ColdBackend

    constructor (hot: CPUBackend, cold: ColdBackend)
      requires hot.Valid()
      modifies hot
      ensures this.hot == hot && this.cold == cold && Valid()
      ensures Value() == Store(old(hot.Hot()), Some(cold.Value()))
    {
      this.hot, this.cold := hot, cold;
      new;
      hot.onEvict := cold;
    }

    ghost predicate Valid()
      reads hot
    {
      hot.Valid() && hot.onEvict == cold
    }

    ghost function Value(): Store
      reads hot, cold
    {
      Store(hot.Hot(), Some(cold.Value()))
    }

    method Put(key: ChunkKey, obj: Payload, pin: bool) returns (ok: bool)
      requires Valid()
      modifies hot, cold
      ensures Valid()
      ensures Value() == old(Value()).Put(key, obj, pin).store
      ensures ok == old(Value()).Put(key, obj, pin).ok
    {
      hide L.Put, L.Lru.Valid;
      ok := hot.Put(key, obj, pin);
      if ok && pin {
        cold.Put(key, obj, true);
      }
    }

    method Get(key: ChunkKey) returns (r: Fetch)
      requires Valid()
      modifies hot, cold
      ensures Valid()
      ensures Value() == old(Value()).Get(key).store
      ensures r == old(Value()).Get(key).result
    {
      hide L.Put, L.Without, L.Lru.Valid;
      var found := hot.Get(key);
      if found.Some? {
        return Hit(found.value);
      }
      found := cold.Get(key);
      if found.Some? {
        var ok := hot.Put(key, found.value, false);
        return if ok then Hit(found.value) else Full;
      }
      return Miss;
    }

    method Contains(key: ChunkKey) returns (found: bool)
      ensures found <==> key in Value().View()
    {
      found := hot.Contains(key);
      if !found {
        found := cold.Contains(key);
      }
    }

    method Remove(key: ChunkKey) returns (existed: bool)
      requires Valid()
      modifies hot, cold
      ensures Valid()
      ensures Value() == old(Value()).Remove({key})
      ensures existed <==> key in old(Value()).View()
    {
      var removedHot := hot.Remove(key);
      var removedCold := cold.Remove(key);
      existed := removedHot || removedCold;
    }

    method Pin(key: ChunkKey)
      requires Valid()
      modifies hot, cold
      ensures Valid()
      ensures Value() == old(Value()).Pin({key})
    {
      hot.Pin(key);
      cold.Pin(key);
    }

    method Unpin(key: ChunkKey)
      requires Valid()
      modifies hot, cold
      ensures Valid()
      ensures Value() == old(Value()).Unpin({key})
    {
      hot.Unpin(key);
      cold.Unpin(key);
    }

    method Keys() returns (ks: set<ChunkKey>)
      requires Valid()
      ensures ks == Value().View().Keys
    {
      var hotKeys := hot.Keys();
      var coldKeys := cold.Keys();
      L.ValidKeys(hot.Hot());
      ks := L.Elems(hotKeys) + coldKeys;
    }
  }

  /** The engine's `store`: one of the backends, used through their common interface. */
  datatype StoreRef = CpuStore(cpu: CPUBackend) | TieredStore(tiers: TieredBackend)
  {
    function Repr(): set<object> {
      match this
      case CpuStore(cpu) => {cpu}
      case TieredStore(t) => {t.hot, t.cold}
    }

    ghost predicate Valid()
      reads Repr()
    {
      match this
      case CpuStore(cpu) => cpu.Valid() && cpu.onEvict == null
      case TieredStore(t) => t.Valid()
    }

    ghost function Value(): Store
      reads Repr()
    {
      match this
      case CpuStore(cpu) => Store(cpu.Hot(), None)
      case TieredStore(t) => t.Value()
    }

    lemma {:induction false} ValueValid()
      requires Valid()
      ensures Value().Valid()
    {}

    method Put(key: ChunkKey, obj: Payload, pin: bool) returns (ok: bool)
      requires Valid()
      modifies Repr()
      ensures Valid()
      ensures old(Value()).Valid() && Value() == old(Value()).Put(key, obj, pin).store
      ensures ok == old(Value()).Put(key, obj, pin).ok
    {
      hide L.Put, L.Lru.Valid;
      match this
      case CpuStore(cpu) => ok := cpu.Put(key, obj, pin);
      case TieredStore(t) => ok := t.Put(key, obj, pin);
    }

    method Get(key: ChunkKey) returns (r: Fetch)
      requires Valid()
      modifies Repr()
      ensures Valid()
      ensures old(Value()).Valid() && Value() == old(Value()).Get(key).store
      ensures r == old(Value()).Get(key).result
    {
      hide L.Put, L.Lru.Valid;
      match this
      case CpuStore(cpu) =>
        var found := cpu.Get(key);
        r := if found.Some? then Hit(found.value) else Miss;
      case TieredStore(t) => r := t.Get(key);
    }

    method Remove(key: ChunkKey) returns (existed: bool)
      requires Valid()
      modifies Repr()
      ensures Valid()
      ensures Value() == old(Value()).Remove({key})
      ensures existed <==> key in old(Value()).View()
    {
      match this
      case CpuStore(cpu) => existed := cpu.Remove(key);
      case TieredStore(t) => existed := t.Remove(key);
    }

    method Pin(key: ChunkKey)
      requires Valid()
      modifies Repr()
      ensures Valid()
      ensures Value() == old(Value()).Pin({key})
    {
      match this
      case CpuStore(cpu) => cpu.Pin(key);
      case TieredStore(t) => t.Pin(key);
    }

    method Unpin(key: ChunkKey)
      requires Valid()
      modifies Repr()
      ensures Valid()
      ensures Value() == old(Value()).Unpin({key})
    {
      match this
      case CpuStore(cpu) => cpu.Unpin(key);
      case TieredStore(t) => t.Unpin(key);
    }
  }
}
