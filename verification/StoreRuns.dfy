/**
 * Whole runs of a store (src/llmcache/store/tiered.py over cpu.py): the two tiers refine one
 * plain map, reads return written values whatever raises, and pinned Redis copies persist.
 */
module StoreRuns {
  import opened Payloads
  import opened Types
  import opened L = Lru
  import opened Tiers

  /** A caller's operation, or the cold tier dropping a key whose expiry ran out. */
  datatype Event = Call(op: Op) | Expiry(key: ChunkKey)

  /** What a caller sees: nothing, StorageFullError, an object, `None`, or whether a key existed. */
  datatype Reply = Done | Raised | Found(obj: Payload) | Absent | Removed(existed: bool)

  function Step(s: Store, e: Event): Store
    requires s.Valid()
  {
    match e
    case Expiry(k) => s.Expire(k)
    case Call(PutOp(k, obj, pin)) => s.Put(k, obj, pin).store
    case Call(GetOp(k)) => s.Get(k).store
    case Call(RemoveOp(k)) => s.Remove({k})
    case Call(PinOp(k)) => s.Pin({k})
    case Call(UnpinOp(k)) => s.Unpin({k})
  }

  function ReplyTo(s: Store, e: Event): Reply
    requires s.Valid()
  {
    match e
    case Call(PutOp(k, obj, pin)) => if s.Put(k, obj, pin).ok then Done else Raised
    case Call(GetOp(k)) =>
      (match s.Get(k).result
       case Hit(obj) => Found(obj)
       case Miss => Absent
       case Full => Raised)
    case Call(RemoveOp(k)) => Removed(k in s.hot.data || (s.cold.Some? && k in s.cold.value.objects))
    case _ => Done
  }

  lemma {:induction false} StepValid(s: Store, e: Event)
    requires s.Valid()
    ensures Step(s, e).Valid()
    ensures Step(s, e).cold.Some? == s.cold.Some?
    ensures s.NeverDrops() ==> Step(s, e).NeverDrops()
  {
    match e
    case Call(PutOp(k, obj, pin)) =>
      if s.cold.Some? { TieredPutView(s, k, obj, pin); } else { HotPutView(s, k, obj, pin); }
    case Call(GetOp(k)) => GetView(s, k);
    case Call(RemoveOp(k)) => RemoveView(s, {k});
    case _ =>
  }

  /** The state after a run. */
  function After(s: Store, events: seq<Event>): (r: Store)
    requires s.Valid()
    ensures r.Valid()
  {
    if events == [] then s
    else
      var before := After(s, events[..|events| - 1]);
      StepValid(before, events[|events| - 1]);
      Step(before, events[|events| - 1])
  }

  lemma {:induction false} AfterOneMore(s: Store, events: seq<Event>, e: Event)
    requires s.Valid()
    ensures After(s, []) == s
    ensures After(s, events + [e]) == Step(After(s, events), e)
  {
    assert (events + [e])[..|events|] == events;
  }

  // ---- refinement of a plain map ----------------------------------------------------------

  /** The specification store: a map, where put sets, remove deletes, and nothing else writes. */
  function PlainMap(m: map<ChunkKey, Payload>, events: seq<Event>): map<ChunkKey, Payload> {
    if events == [] then m
    else
      var before := PlainMap(m, events[..|events| - 1]);
      match events[|events| - 1]
      case Call(PutOp(k, obj, _)) => before[k := obj]
      case Call(RemoveOp(k)) => before - {k}
      case _ => before
  }

  function PlainReply(m: map<ChunkKey, Payload>, e: Event): Reply {
    match e
    case Call(GetOp(k)) => if k in m then Found(m[k]) else Absent
    case Call(RemoveOp(k)) => Removed(k in m)
    case _ => Done
  }

  ghost predicate NoPutRaises(s: Store, events: seq<Event>)
    requires s.Valid()
  {
    forall n :: 0 <= n < |events| && events[n].Call? && events[n].op.PutOp? ==>
      ReplyTo(After(s, events[..n]), events[n]) != Raised
  }

  /**
   * A tiered store over a cold tier that never drops refines a plain map. In every run in which
   * no put raises (gets may), readers see exactly the map's contents, whatever was evicted,
   * demoted, promoted or shadowed on the way.
   */
  lemma {:induction false} TieredRefinesMap(s: Store, events: seq<Event>)
    requires s.Valid() && s.cold.Some?
    requires NoPutRaises(s, events)
    requires forall e :: e in events ==> e.Call?
    ensures After(s, events).cold.Some?
    ensures After(s, events).View() == PlainMap(s.View(), events)
  {
    if events != [] {
      var past, e := events[..|events| - 1], events[|events| - 1];
      forall n | 0 <= n < |past| ensures past[..n] == events[..n] {}
      TieredRefinesMap(s, past);
      var before := After(s, past);
      assert e in events;
      match e.op
      case PutOp(k, obj, pin) => TieredPutView(before, k, obj, pin);
      case GetOp(k) => GetView(before, k);
      case RemoveOp(k) => RemoveView(before, {k});
      case PinOp(k) => PinView(before, {k});
      case UnpinOp(k) => PinView(before, {k});
    }
  }

  /**
   * After such a run every operation answers as the plain map does, except a get of a key that is
   * only in cold and does not fit beside what is pinned in hot, which raises.
   */
  lemma {:induction false} TieredRepliesAsMap(s: Store, events: seq<Event>, e: Event)
    requires s.Valid() && s.cold.Some?
    requires NoPutRaises(s, events)
    requires forall x :: x in events ==> x.Call?
    requires e.Call? && (e.op.PutOp? ==> ReplyTo(After(s, events), e) != Raised)
    ensures
      var now, m := After(s, events), PlainMap(s.View(), events);
      ReplyTo(now, e) == if e.op.GetOp? && now.PromotionFails(e.op.key) then Raised else PlainReply(m, e)
  {
    TieredRefinesMap(s, events);
    GetView(After(s, events), e.op.key);
    GetRaisesExactly(After(s, events), e.op.key);
  }

  // ---- reads under failure ----------------------------------------------------------------

  /** The history put this object under this key and has not removed the key since. */
  ghost predicate Written(events: seq<Event>, k: ChunkKey, obj: Payload) {
    exists n :: WrittenAt(events, n, k, obj)
  }

  ghost predicate WrittenAt(events: seq<Event>, n: int, k: ChunkKey, obj: Payload) {
    && 0 <= n < |events|
    && (exists pin :: events[n] == Call(PutOp(k, obj, pin)))
    && Call(RemoveOp(k)) !in events[n..]
  }

  /** Every object either tier holds was written under its key. */
  ghost predicate AllWritten(s: Store, events: seq<Event>) {
    && (forall k :: k in s.hot.data ==> Written(events, k, s.hot.data[k]))
    && (s.cold.Some? ==> forall k :: k in s.cold.value.objects ==> Written(events, k, s.cold.value.objects[k]))
  }

  lemma {:induction false} WrittenLater(events: seq<Event>, e: Event, k: ChunkKey, obj: Payload)
    requires Written(events, k, obj) && e != Call(RemoveOp(k))
    ensures Written(events + [e], k, obj)
  {
    var n :| WrittenAt(events, n, k, obj);
    assert (events + [e])[n..] == events[n..] + [e];
    assert WrittenAt(events + [e], n, k, obj);
  }

  lemma {:induction false} WrittenNow(events: seq<Event>, k: ChunkKey, obj: Payload, pin: bool)
    ensures Written(events + [Call(PutOp(k, obj, pin))], k, obj)
  {
    var e := Call(PutOp(k, obj, pin));
    assert (events + [e])[|events|..] == [e];
    assert WrittenAt(events + [e], |events|, k, obj);
  }

  /** One step only moves, drops or writes objects. */
  lemma {:induction false} StepProvenance(s: Store, e: Event)
    requires s.Valid()
    ensures forall k :: k in Step(s, e).hot.data ==> FromBefore(s, e, k, Step(s, e).hot.data[k])
    ensures Step(s, e).cold.Some? ==> forall k :: k in Step(s, e).cold.value.objects ==>
      FromBefore(s, e, k, Step(s, e).cold.value.objects[k])
  {
    match e
    case Call(PutOp(k, obj, pin)) => PutState(s.hot, k, obj, pin);
    case Call(GetOp(k)) =>
      if k !in s.hot.data && s.cold.Some? && k in s.cold.value.objects {
        PutState(s.hot, k, s.cold.value.objects[k], false);
      }
    case _ =>
  }

  ghost predicate FromBefore(s: Store, e: Event, k: ChunkKey, obj: Payload) {
    || (exists pin :: e == Call(PutOp(k, obj, pin)))
    || (e != Call(RemoveOp(k)) && (
          || (k in s.hot.data && s.hot.data[k] == obj)
          || (s.cold.Some? && k in s.cold.value.objects && s.cold.value.objects[k] == obj)))
  }

  lemma {:induction false} StepKeepsWritten(s: Store, events: seq<Event>, e: Event)
    requires s.Valid() && AllWritten(s, events)
    ensures AllWritten(Step(s, e), events + [e])
  {
    StepProvenance(s, e);
    forall k, obj | FromBefore(s, e, k, obj) ensures Written(events + [e], k, obj) {
      if pin :| e == Call(PutOp(k, obj, pin)) {
        WrittenNow(events, k, obj, pin);
      } else {
        WrittenLater(events, e, k, obj);
      }
    }
  }

  lemma {:induction false} RunsKeepWritten(s: Store, events: seq<Event>)
    requires s.Valid() && s.hot.data == map[] && (s.cold.Some? ==> s.cold.value.objects == map[])
    ensures AllWritten(After(s, events), events)
  {
    hide Step, Written, L.Lru.Valid;
    if events != [] {
      var past, e := events[..|events| - 1], events[|events| - 1];
      RunsKeepWritten(s, past);
      StepKeepsWritten(After(s, past), past, e);
      assert events == past + [e];
    }
  }

  /**
   * Reads are never invented. In every run from an empty store, with puts and promotions raising
   * anywhere and cold keys expiring at any time, an object a get returns was put under that key
   * earlier in the run and the key has not been removed since.
   */
  lemma {:induction false} ReadsWereWritten(s: Store, events: seq<Event>, k: ChunkKey)
    requires s.Valid() && s.hot.data == map[] && (s.cold.Some? ==> s.cold.value.objects == map[])
    ensures After(s, events).Get(k).result.Hit? ==>
      Written(events, k, After(s, events).Get(k).result.obj)
  {
    hide After, Written, L.Lru.Valid, Store.PutHot;
    RunsKeepWritten(s, events);
  }

  // ---- pinned cold copies -----------------------------------------------------------------

  /** A put that pins and succeeds over a cold tier leaves a copy without expiry. */
  lemma {:induction false} PinnedPutProtects(s: Store, k: ChunkKey, obj: Payload)
    requires s.Valid() && s.cold.Some?
    ensures s.Put(k, obj, true).ok ==> s.Put(k, obj, true).store.Protected(k)
  {
    PutState(s.hot, k, obj, true);
  }

  lemma {:induction false} StepKeepsProtected(s: Store, e: Event, k: ChunkKey)
    requires s.Valid() && s.Protected(k)
    requires e != Call(UnpinOp(k)) && e != Call(RemoveOp(k))
    ensures Step(s, e).Protected(k)
  {
    match e
    case Call(PutOp(x, obj, pin)) => PutState(s.hot, x, obj, pin);
    case Call(GetOp(x)) =>
      if x !in s.hot.data && x in s.cold.value.objects {
        PutState(s.hot, x, s.cold.value.objects[x], false);
      }
    case _ =>
  }

  /**
   * Pinned copies never get an expiry. Once protected, a key keeps a cold copy without expiry
   * through every run, failing puts, evictions and expiries of other keys included, until it is
   * unpinned or removed: a demotion that would overwrite the copy cannot happen.
   */
  lemma {:induction false} ProtectedForever(s: Store, events: seq<Event>, k: ChunkKey)
    requires s.Valid() && s.Protected(k)
    requires Call(UnpinOp(k)) !in events && Call(RemoveOp(k)) !in events
    ensures After(s, events).Protected(k)
  {
    if events != [] {
      ProtectedForever(s, events[..|events| - 1], k);
      StepKeepsProtected(After(s, events[..|events| - 1]), events[|events| - 1], k);
    }
  }

  /**
   * Pinning a key protects its cold copy exactly when there is one and hot holds the key or its pin.
   * When a late pin keeps the key readable at all is LatePins.LatePinKeepsExactly.
   */
  lemma {:induction false} PinProtectsExactly(s: Store, k: ChunkKey)
    requires s.Valid() && s.cold.Some?
    ensures s.Pin({k}).Protected(k) <==>
      k in s.cold.value.objects && (k in s.hot.data || k in s.hot.pinned)
  {}
}
