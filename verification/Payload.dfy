/**
 * Stored objects and their wire framing (src/llmcache/payload.py).
 *
 * A payload is opaque bytes plus the metadata that places it back into a paged buffer. For
 * byte-oriented stores it is framed as magic, 4-byte little-endian header length, header, data.
 * The JSON header codec is a parameter; what the framing needs of it is `Invertible`.
 */
module Payloads {
  import opened Wrappers

  type byte = x: int | 0 <= x < 256

  /** Values that occur in the `meta` dictionary. */
  datatype Json = Number(n: int) | Text(s: string) | Items(items: seq<Json>)

  datatype Payload = Payload(
    data: seq<byte>,
    numTokens: int,
    numLayers: int,
    fmt: string,
    meta: map<string, Json>)
  {
    function NBytes(): nat {
      |data|
    }
  }

  // ---- little-endian integers -------------------------------------------------------------

  function Pow256(width: nat): (p: nat)
    ensures p > 0
  {
    if width == 0 then 1 else 256 * Pow256(width - 1)
  }

  /** `n.to_bytes(width, "little")`, for an n that fits. */
  function LittleEndian(n: nat, width: nat): (bs: seq<byte>)
    ensures |bs| == width
  {
    if width == 0 then [] else [n % 256] + LittleEndian(n / 256, width - 1)
  }

  /** `int.from_bytes(bs, "little")`. */
  function FromLittleEndian(bs: seq<byte>): nat {
    if bs == [] then 0 else bs[0] + 256 * FromLittleEndian(bs[1..])
  }

  lemma {:induction false} LittleEndianRoundTrip(n: nat, width: nat)
    requires n < Pow256(width)
    ensures FromLittleEndian(LittleEndian(n, width)) == n
  {
    if width > 0 {
      LittleEndianRoundTrip(n / 256, width - 1);
      assert LittleEndian(n, width)[1..] == LittleEndian(n / 256, width - 1);
    }
  }

  lemma {:induction false} FourBytes()
    ensures Pow256(4) == 0x1_0000_0000
  {
    assert Pow256(1) == 256 && Pow256(2) == 0x1_0000;
  }

  // ---- framing ----------------------------------------------------------------------------

  datatype Header = Header(numTokens: int, numLayers: int, fmt: string, meta: map<string, Json>)

  /** `json.dumps(..).encode("utf-8")` and `json.loads(..decode("utf-8"))` for payload headers. */
  datatype HeaderCodec = HeaderCodec(encode: Header -> seq<byte>, decode: seq<byte> -> Option<Header>)
  {
    ghost predicate Invertible() {
      forall h: Header :: decode(encode(h)) == Some(h)
    }
  }

  datatype FramingError = LengthOverflow | BadFraming | BadHeader

  /** `b"LKVP1\n"` */
  const MAGIC: seq<byte> := [76, 75, 86, 80, 49, 10]

  function HeaderOf(p: Payload): Header {
    Header(p.numTokens, p.numLayers, p.fmt, p.meta)
  }

  function PackPayload(c: HeaderCodec, p: Payload): Result<seq<byte>, FramingError> {
    var header := c.encode(HeaderOf(p));
    if |header| >= 0x1_0000_0000 then Err(LengthOverflow)
    else Ok(MAGIC + LittleEndian(|header|, 4) + header + p.data)
  }

  function UnpackPayload(c: HeaderCodec, blob: seq<byte>): Result<Payload, FramingError> {
    var off := |MAGIC|;
    if Slice(blob, 0, off) != MAGIC then Err(BadFraming)
    else
      var hlen := FromLittleEndian(Slice(blob, off, off + 4));
      match c.decode(Slice(blob, off + 4, off + 4 + hlen))
      case None => Err(BadHeader)
      case Some(h) =>
        Ok(Payload(blob[Min(off + 4 + hlen, |blob|)..], h.numTokens, h.numLayers, h.fmt, h.meta))
  }

  /** Whatever the data bytes are (the magic included), unpacking undoes packing. */
  lemma {:induction false} UnpackUndoesPack(c: HeaderCodec, p: Payload)
    requires c.Invertible()
    ensures PackPayload(c, p).Ok? <==> |c.encode(HeaderOf(p))| < 0x1_0000_0000
    ensures PackPayload(c, p).Ok? ==> UnpackPayload(c, PackPayload(c, p).value) == Ok(p)
  {
    var header := c.encode(HeaderOf(p));
    if |header| < 0x1_0000_0000 {
      var len := LittleEndian(|header|, 4);
      var blob := MAGIC + len + header + p.data;
      assert Slice(blob, 0, 6) == MAGIC;
      assert Slice(blob, 6, 10) == len;
      FourBytes();
      LittleEndianRoundTrip(|header|, 4);
      assert Slice(blob, 10, 10 + |header|) == header;
      assert blob[10 + |header|..] == p.data;
    }
  }

  function LowestFirst(a: int, b: int, c: int, d: int): int {
    a + 0x100 * b + 0x1_0000 * c + 0x100_0000 * d
  }

  /** Where the parts of a frame lie: six bytes of magic, four of header length, header, data. */
  lemma {:induction false} FrameLayout(c: HeaderCodec, p: Payload)
    requires PackPayload(c, p).Ok?
    ensures var blob, header := PackPayload(c, p).value, c.encode(HeaderOf(p));
      && |blob| == 10 + |header| + p.NBytes()
      && blob[..6] == [76, 75, 86, 80, 49, 10]
      && LowestFirst(blob[6], blob[7], blob[8], blob[9]) == |header|
      && blob[10..10 + |header|] == header && blob[10 + |header|..] == p.data
  {
    var header := c.encode(HeaderOf(p));
    var len := LittleEndian(|header|, 4);
    FourBytes();
    LittleEndianRoundTrip(|header|, 4);
    FourBytesValue(len);
    assert PackPayload(c, p).value == MAGIC + (len + (header + p.data));
  }

  lemma {:induction false} FourBytesValue(bs: seq<byte>)
    requires |bs| == 4
    ensures FromLittleEndian(bs) == LowestFirst(bs[0], bs[1], bs[2], bs[3])
  {
    assert bs[1..][1..] == bs[2..] && bs[2..][1..] == bs[3..] && bs[3..][1..] == [];
    assert FromLittleEndian(bs[3..]) == bs[3] + 256 * FromLittleEndian([]);
    assert FromLittleEndian(bs[2..]) == bs[2] + 256 * FromLittleEndian(bs[3..]);
    assert FromLittleEndian(bs[1..]) == bs[1] + 256 * FromLittleEndian(bs[2..]);
    assert FromLittleEndian(bs) == bs[0] + 256 * FromLittleEndian(bs[1..]);
  }

  /** Two payloads with the same frame are the same payload, data and metadata alike. */
  lemma {:induction false} PackInjective(c: HeaderCodec, p: Payload, q: Payload)
    requires c.Invertible()
    requires PackPayload(c, p).Ok? && PackPayload(c, p) == PackPayload(c, q)
    ensures p == q
  {
    UnpackUndoesPack(c, p);
    UnpackUndoesPack(c, q);
  }
}
