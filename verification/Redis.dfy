/**
 * The Redis cold tier (src/llmcache/store/remote.py): how keys are named and parsed back, and a
 * backend over a key-value client that behaves as the cold tier of Tiers.
 */
module RedisNames {
  import opened Wrappers
  import opened Types

  // ---- decimal integers -------------------------------------------------------------------

  function Digit(d: nat): char
    requires d < 10
  {
    ('0' as int + d) as char
  }

  function NatText(n: nat): (s: string)
    ensures s != []
  {
    if n < 10 then [Digit(n)] else NatText(n / 10) + [Digit(n % 10)]
  }

  /** How an f-string prints an int. */
  function IntText(n: int): string {
    if n < 0 then "-" + NatText(-n) else NatText(n)
  }

  predicate IsDigit(c: char) {
    '0' <= c <= '9'
  }

  function ParseDigits(s: string): Option<nat> {
    if s == [] then Some(0)
    else
      var last := s[|s| - 1];
      var front := ParseDigits(s[..|s| - 1]);
      if !IsDigit(last) || front.None? then None
      else Some(10 * front.value + (last as int - '0' as int))
  }

  /** `int(s)` on an optional sign and decimal digits; anything else is a ValueError. */
  function ParseInt(s: string): Option<int> {
    var signed := s != [] && (s[0] == '-' || s[0] == '+');
    var digits := if signed then s[1..] else s;
    var value := ParseDigits(digits);
    if digits == [] || value.None? then None
    else if signed && s[0] == '-' then Some(0 - value.value)
    else Some(value.value)
  }

  ghost predicate NoColon(s: string) {
    forall i :: 0 <= i < |s| ==> s[i] != ':'
  }

  lemma {:induction false} NatTextDigits(n: nat)
    ensures ParseDigits(NatText(n)) == Some(n)
    ensures NoColon(NatText(n)) && IsDigit(NatText(n)[0])
  {
    if n >= 10 {
      NatTextDigits(n / 10);
      var s := NatText(n);
      assert s[..|s| - 1] == NatText(n / 10);
    } else {
      assert [Digit(n)][..0] == [];
    }
  }

  /** Printing an integer and parsing it back gives the integer; the text has no colon. */
  lemma {:induction false} IntTextRoundTrip(n: int)
    ensures ParseInt(IntText(n)) == Some(n)
    ensures NoColon(IntText(n))
  {
    NatTextDigits(if n < 0 then -n else n);
    if n < 0 {
      assert IntText(n)[1..] == NatText(-n);
    }
  }

  // ---- names ------------------------------------------------------------------------------

  /** `_name`. */
  function Name(ns: string, k: ChunkKey): string {
    ns + ":" + k.cacheId + ":" + IntText(k.workerId) + ":" + IntText(k.chunkIndex)
  }

  /** The fields of a name in order: namespace, id, worker, chunk. */
  lemma {:induction false} NameExample()
    ensures Name("llmcache", ChunkKey("a:b", 3, 12)) == "llmcache:a:b:12:3"
    ensures Name("", ChunkKey("", -1, 0)) == "::0:-1"
  {
    assert NatText(12) == NatText(1) + ['2'] && NatText(1) == ['1'] && NatText(3) == ['3'] && NatText(0) == ['0'];
  }

  function LastColon(s: string): (i: Option<nat>)
    ensures i.Some? ==> i.value < |s|
  {
    if s == [] then None
    else if s[|s| - 1] == ':' then Some(|s| - 1)
    else LastColon(s[..|s| - 1])
  }

  /** `_parse`: strip the namespace, split off the last two fields from the right. */
  function Parse(ns: string, name: string): Option<ChunkKey> {
    if !(ns + ":" <= name) then None
    else
      var rest := name[|ns| + 1..];
      var second := LastColon(rest);
      if second.None? then None
      else
        var first := LastColon(rest[..second.value]);
        if first.None? then None
        else
          var worker := ParseInt(rest[first.value + 1..second.value]);
          var chunk := ParseInt(rest[second.value + 1..]);
          if worker.None? || chunk.None? then None
          else Some(ChunkKey(rest[..first.value], chunk.value, worker.value))
  }

  lemma {:induction false} LastColonAt(a: string, b: string)
    requires NoColon(b)
    ensures LastColon(a + ":" + b) == Some(|a|)
  {
    var s := a + ":" + b;
    if b != [] {
      var b' := b[..|b| - 1];
      assert s[..|s| - 1] == a + ":" + b';
      LastColonAt(a, b');
    }
  }

  /** Every key is parsed back from its name, whatever colons the namespace and the id contain. */
  lemma {:induction false} ParseUndoesName(ns: string, k: ChunkKey)
    ensures Parse(ns, Name(ns, k)) == Some(k)
  {
    hide IntText, ParseInt, LastColon;
    var worker, chunk := IntText(k.workerId), IntText(k.chunkIndex);
    var head := k.cacheId + ":" + worker;
    var rest := head + ":" + chunk;
    IntTextRoundTrip(k.workerId);
    IntTextRoundTrip(k.chunkIndex);
    LastColonAt(head, chunk);
    LastColonAt(k.cacheId, worker);
    var name := Name(ns, k);
    assert name == (ns + ":") + rest;
    assert name[|ns| + 1..] == rest;
    assert rest[..|head|] == head && rest[|head| + 1..] == chunk;
    assert head[|k.cacheId| + 1..] == worker && rest[|k.cacheId| + 1..|head|] == worker;
    assert rest[..|k.cacheId|] == k.cacheId;
  }

  /** Within one namespace, different keys have different names. */
  lemma {:induction false} NameInjective(ns: string, k: ChunkKey, l: ChunkKey)
    ensures Name(ns, k) == Name(ns, l) <==> k == l
  {
    ParseUndoesName(ns, k);
    ParseUndoesName(ns, l);
  }

  /**
   * Across namespaces two keys share a name exactly when they agree on worker and chunk, and
   * namespace and id, put together with a colon, are the same text.
   */
  lemma {:induction false} NamesCollideExactly(a: string, b: string, k: ChunkKey, l: ChunkKey)
    ensures Name(a, k) == Name(b, l) <==>
      && k.workerId == l.workerId && k.chunkIndex == l.chunkIndex
      && a + ":" + k.cacheId == b + ":" + l.cacheId
  {
    hide IntText;
    var k', l' := k.(cacheId := a + ":" + k.cacheId), l.(cacheId := b + ":" + l.cacheId);
    assert Name("", k') == ":" + Name(a, k) && Name("", l') == ":" + Name(b, l);
    assert Name("", k')[1..] == Name(a, k) && Name("", l')[1..] == Name(b, l);
    NameInjective("", k', l');
  }

  /** So it takes namespaces that are equal, or of which one extends the other at a colon. */
  lemma {:induction false} CollisionsNeedExtension(a: string, b: string, k: ChunkKey, l: ChunkKey)
    requires Name(a, k) == Name(b, l)
    ensures a == b || a + ":" <= b || b + ":" <= a
  {
    hide Name;
    NamesCollideExactly(a, b, k, l);
    var x, y := a + ":" + k.cacheId, b + ":" + l.cacheId;
    assert x[..|a|] == a && x[|a|] == ':' && y[..|b|] == b && y[|b|] == ':';
    if |a| < |b| {
      assert b[..|a|] == a && b[|a|] == ':';
    } else if |b| < |a| {
      assert a[..|b|] == b && a[|b|] == ':';
    }
  }

  /** And there collisions do happen: with a key whose id begins with the rest and a colon. */
  lemma {:induction false} NamespacesCollide(ns: string, more: string, k: ChunkKey, l: ChunkKey)
    ensures Name(ns + ":" + more, k) == Name(ns, l) <==> l == k.(cacheId := more + ":" + k.cacheId)
  {
    var moved := k.(cacheId := more + ":" + k.cacheId);
    assert Name(ns + ":" + more, k) == Name(ns, moved);
    NameInjective(ns, moved, l);
  }
}

module Redis {
  import opened Wrappers
  import opened Payloads
  import opened Types
  import opened Tiers
  import opened RedisNames

  /** A stored value: the framed payload and its expiry setting, if it has one. */
  datatype RedisValue = RedisValue(blob: seq<byte>, ttl: Option<nat>)

  /** The backend; `client` is the part of the server's key space it is pointed at. */
  class RedisBackend {
    const ns: string
    const keyTtl: Option<nat>
    const codec: HeaderCodec
    var client: map<string, RedisValue>
    ghost var contents: Cold

    constructor (ns: string, keyTtl: Option<nat>, codec: HeaderCodec)
      requires codec.Invertible()
      ensures Valid() && contents == Cold(map[], {}, keyTtl)
      ensures this.ns == ns && this.keyTtl == keyTtl && this.codec == codec
    {
      this.ns, this.keyTtl, this.codec := ns, keyTtl, codec;
      client := map[];
      contents := Cold(map[], {}, keyTtl);
    }

    /** The client holds, under the names of this namespace, the frames of exactly `contents`. */
    ghost predicate Valid()
      reads this
    {
      && codec.Invertible()
      && contents.keyTtl == keyTtl
      && forall k :: Holds(k)
    }

    ghost predicate Holds(k: ChunkKey)
      reads this
    {
      var name := Name(ns, k);
      && (name in client <==> k in contents.objects)
      && (k in contents.objects ==>
            && PackPayload(codec, contents.objects[k]).Ok?
            && client[name] == RedisValue(
                 PackPayload(codec, contents.objects[k]).value, if k in contents.expiring then keyTtl else None))
    }

    /** Fails only where the header does not fit its four length bytes; then nothing changes. */
    method Put(k: ChunkKey, obj: Payload, pin: bool) returns (ok: bool)
      requires Valid()
      modifies this
      ensures Valid()
      ensures ok <==> |codec.encode(HeaderOf(obj))| < 0x1_0000_0000
      ensures contents == if ok then old(contents).Put(k, obj, pin) else old(contents)
    {
      hide Name, UnpackPayload;
      UnpackUndoesPack(codec, obj);
      var name := Name(ns, k);
      var ex := if pin then None else keyTtl;
      var blob := PackPayload(codec, obj);
      if blob.Err? {
        return false;
      }
      client := client[name := RedisValue(blob.value, ex)];
      if pin {
        client := client[name := client[name].(ttl := None)];
      }
      contents := contents.Put(k, obj, pin);
      forall l ensures Holds(l) {
        NameInjective(ns, k, l);
        assert old(Holds(l));
      }
      return true;
    }

    method Get(k: ChunkKey) returns (r: Result<Option<Payload>, FramingError>)
      requires Valid()
      ensures r == Ok(if k in contents.objects then Some(contents.objects[k]) else None)
    {
      hide PackPayload, UnpackPayload;
      assert Holds(k);
      var name := Name(ns, k);
      if name !in client {
        return Ok(None);
      }
      UnpackUndoesPack(codec, contents.objects[k]);
      var p := UnpackPayload(codec, client[name].blob);
      match p
      case Ok(obj) => return Ok(Some(obj));
      case Err(e) => return Err(e);
    }

    method Contains(k: ChunkKey) returns (found: bool)
      requires Valid()
      ensures found <==> k in contents.objects
    {
      assert Holds(k);
      found := Name(ns, k) in client;
    }

    method Remove(k: ChunkKey) returns (existed: bool)
      requires Valid()
      modifies this
      ensures Valid()
      ensures contents == old(contents).Remove({k})
      ensures existed <==> k in old(contents).objects
    {
      hide Name, PackPayload;
      assert Holds(k);
      existed := Name(ns, k) in client;
      client := client - {Name(ns, k)};
      contents := contents.Remove({k});
      forall l ensures Holds(l) {
        NameInjective(ns, k, l);
        assert old(Holds(l));
      }
    }

    /** `persist`. */
    method Pin(k: ChunkKey)
      requires Valid()
      modifies this
      ensures Valid()
      ensures contents == old(contents).Pin({k})
    {
      hide Name, PackPayload;
      assert Holds(k);
      var name := Name(ns, k);
      if name in client {
        client := client[name := client[name].(ttl := None)];
      }
      contents := contents.Pin({k});
      forall l ensures Holds(l) {
        NameInjective(ns, k, l);
        assert old(Holds(l));
      }
    }

    /** `expire`, where the backend has a default expiry. */
    method Unpin(k: ChunkKey)
      requires Valid()
      modifies this
      ensures Valid()
      ensures contents == old(contents).Unpin({k})
    {
      hide Name, PackPayload;
      assert Holds(k);
      var name := Name(ns, k);
      if keyTtl.Some? && name in client {
        client := client[name := client[name].(ttl := keyTtl)];
      }
      contents := contents.Unpin({k});
      forall l ensures Holds(l) {
        NameInjective(ns, k, l);
        assert old(Holds(l));
      }
    }

    /** Not a call: the server drops a key whose expiry has run out. */
    method Expire(k: ChunkKey)
      requires Valid()
      modifies this
      ensures Valid()
      ensures contents == old(contents).Expire(k)
    {
      hide Name, PackPayload;
      assert Holds(k);
      var name := Name(ns, k);
      if name in client && client[name].ttl.Some? {
        client := client - {name};
      }
      contents := contents.Expire(k);
      forall l ensures Holds(l) {
        NameInjective(ns, k, l);
        assert old(Holds(l));
      }
    }

    /**
     * The scan. Every stored key is listed; nothing else is, as long as each name that parses in
     * this namespace was written the way `_name` writes it.
     */
    method Keys() returns (ks: set<ChunkKey>)
      requires Valid()
      ensures contents.objects.Keys <= ks
      ensures (forall n :: n in client && Parse(ns, n).Some? ==> n == Name(ns, Parse(ns, n).value)) ==>
        ks == contents.objects.Keys
    {
      hide Parse, Name, PackPayload;
      ks := set n | n in client && Parse(ns, n).Some? :: Parse(ns, n).value;
      forall k | k in contents.objects ensures k in ks {
        assert Holds(k);
        ParseUndoesName(ns, k);
        assert Name(ns, k) in client;
      }
      if forall n :: n in client && Parse(ns, n).Some? ==> n == Name(ns, Parse(ns, n).value) {
        forall k | k in ks ensures k in contents.objects {
          assert Holds(k);
        }
      }
    }
  }
}
