/** RIFF files as trees of chunks: how a tree is laid out in bytes, and a reference parser for the layout
    (RIFF: Multimedia Programming Interface and Data Specifications 1.0, chapter 2). */
module Riff {
  type byte = x: int | 0 <= x < 256
  type FourCC = s: seq<byte> | |s| == 4 witness [0, 0, 0, 0]

  function Id(name: string): (r: FourCC)
    requires |name| == 4 && forall c <- name :: c < 256 as char
  {
    assert forall k | 0 <= k < 4 :: name[k] in name;
    [name[0] as int, name[1] as int, name[2] as int, name[3] as int]
  }

  const RIFF: FourCC := [0x52, 0x49, 0x46, 0x46]
  const LIST: FourCC := [0x4c, 0x49, 0x53, 0x54]

  function Le16(v: nat): (r: seq<byte>)
    ensures |r| == 2
  {
    [v % 256, v / 256 % 256]
  }

  /** Four bytes, least significant first; what does not fit in 32 bits is dropped. */
  function Le32(v: nat): (r: seq<byte>)
    ensures |r| == 4
  {
    [v % 256, v / 256 % 256, v / 65536 % 256, v / 16777216 % 256]
  }

  function Word(b: seq<byte>): nat
    requires |b| == 4
  {
    var b0: int, b1: int, b2: int, b3: int := b[0], b[1], b[2], b[3];
    b0 + 256 * b1 + 65536 * b2 + 16777216 * b3
  }

  lemma WordRoundTrip(v: nat)
    requires v < 0x1_0000_0000
    ensures Word(Le32(v)) == v
  {
    var a, b := v / 256, v / 65536;
    assert v == 256 * a + v % 256;
    assert a == 256 * b + a % 256 by { Shifted(v); }
    assert b == 256 * (v / 16777216) + b % 256 by { Shifted(a); }
  }

  lemma Shifted(v: nat)
    ensures v / 256 / 256 == v / 65536 && v / 256 / 65536 == v / 16777216
    ensures v / 256 == 256 * (v / 65536) + v / 256 % 256
  {}

  // ---- layout --------------------------------------------------------------------------------

  datatype Chunk =
    | Leaf(id: FourCC, data: seq<byte>)
    | Group(kind: FourCC, form: FourCC, children: seq<Chunk>)

  function Padding(size: nat): (r: seq<byte>)
    ensures |r| == size % 2
  {
    if size % 2 == 1 then [0] else []
  }

  function Encoded(c: Chunk): (r: seq<byte>)
    ensures |r| % 2 == 0 && |r| >= 8
  {
    match c
    case Leaf(id, data) => id + Le32(|data|) + data + Padding(|data|)
    case Group(kind, form, children) => kind + Le32(4 + |EncodedAll(children)|) + form + EncodedAll(children)
  }

  function EncodedAll(cs: seq<Chunk>): (r: seq<byte>)
    ensures |r| % 2 == 0
  {
    if cs == [] then [] else Encoded(cs[0]) + EncodedAll(cs[1..])
  }

  // ---- parser --------------------------------------------------------------------------------

  datatype Parse = Malformed | Chunks(chunks: seq<Chunk>)

  function Consed(c: Chunk, rest: Parse): Parse {
    if rest.Malformed? then Malformed else Chunks([c] + rest.chunks)
  }

  /** What the parser makes of one chunk header with its body, given what it makes of the inside and of the rest. */
  function OneChunk(id: FourCC, body: seq<byte>, inside: Parse, rest: Parse): Parse {
    if id != RIFF && id != LIST then Consed(Leaf(id, body), rest)
    else if |body| < 4 || inside.Malformed? then Malformed
    else Consed(Group(id, body[..4], inside.chunks), rest)
  }

  /** The chunks that fill a region exactly. */
  function Parsed(b: seq<byte>): Parse
    decreases |b|
  {
    if b == [] then Chunks([])
    else if |b| < 8 then Malformed
    else
      var id, size := b[..4], Word(b[4..8]);
      if 8 + size + size % 2 > |b| then Malformed else
      var body, rest := b[8..8 + size], Parsed(b[8 + size + size % 2..]);
      OneChunk(id, body, if size < 4 then Malformed else Parsed(body[4..]), rest)
  }

  ghost predicate Proper(c: Chunk) {
    match c
    case Leaf(id, data) => id != RIFF && id != LIST
    case Group(kind, form, children) =>
      (kind == RIFF || kind == LIST) && forall k | 0 <= k < |children| :: Proper(children[k])
  }

  lemma LeafHeader(id: FourCC, data: seq<byte>, tail: seq<byte>)
    requires |data| < 0x1_0000_0000
    ensures var b := Encoded(Leaf(id, data)) + tail;
            && b[..4] == id && Word(b[4..8]) == |data|
            && |b| >= 8 + |data| + |data| % 2
            && b[8..8 + |data|] == data && b[8 + |data| + |data| % 2..] == tail
  {
    var b := Encoded(Leaf(id, data)) + tail;
    assert b == id + (Le32(|data|) + (data + (Padding(|data|) + tail)));
    WordRoundTrip(|data|);
    assert b[4..8] == Le32(|data|);
  }

  lemma GroupHeader(kind: FourCC, form: FourCC, inner: seq<byte>, tail: seq<byte>)
    requires 4 + |inner| < 0x1_0000_0000
    ensures var b, n := kind + Le32(4 + |inner|) + form + inner + tail, 4 + |inner|;
            && b[..4] == kind && Word(b[4..8]) == n
            && |b| >= 8 + n
            && b[8..8 + n] == form + inner && b[8 + n..] == tail
  {
    hide Word, Le32;
    var b := kind + Le32(4 + |inner|) + form + inner + tail;
    assert b == kind + (Le32(4 + |inner|) + ((form + inner) + tail));
    WordRoundTrip(4 + |inner|);
    assert b[4..8] == Le32(4 + |inner|);
  }

  lemma ParsesOne(b: seq<byte>, id: FourCC, body: seq<byte>, tail: seq<byte>)
    requires |b| >= 8 + |body| + |body| % 2 && b[..4] == id && Word(b[4..8]) == |body|
    requires b[8..8 + |body|] == body && b[8 + |body| + |body| % 2..] == tail
    ensures Parsed(b) == OneChunk(id, body, if |body| < 4 then Malformed else Parsed(body[4..]), Parsed(tail))
  {
    hide Word, OneChunk;
  }

  lemma ParsesLeaf(id: FourCC, data: seq<byte>, tail: seq<byte>)
    requires |data| < 0x1_0000_0000 && id != RIFF && id != LIST
    ensures Parsed(Encoded(Leaf(id, data)) + tail) == Consed(Leaf(id, data), Parsed(tail))
  {
    hide Word, Encoded, Parsed;
    LeafHeader(id, data, tail);
    ParsesOne(Encoded(Leaf(id, data)) + tail, id, data, tail);
  }

  lemma ParsesGroup(kind: FourCC, form: FourCC, children: seq<Chunk>, tail: seq<byte>)
    requires 4 + |EncodedAll(children)| < 0x1_0000_0000 && (kind == RIFF || kind == LIST)
    requires Parsed(EncodedAll(children)) == Chunks(children)
    ensures Parsed(Encoded(Group(kind, form, children)) + tail) == Consed(Group(kind, form, children), Parsed(tail))
  {
    hide Word, EncodedAll, Le32, Parsed;
    var inner := EncodedAll(children);
    GroupHeader(kind, form, inner, tail);
    ParsesOne(kind + Le32(4 + |inner|) + form + inner + tail, kind, form + inner, tail);
    assert (form + inner)[..4] == form && (form + inner)[4..] == inner;
  }

  /** The parser recovers every tree of chunks from its layout. */
  lemma {:induction false} RiffRoundTrip(cs: seq<Chunk>)
    requires |EncodedAll(cs)| < 0x1_0000_0000 && forall k | 0 <= k < |cs| :: Proper(cs[k])
    ensures Parsed(EncodedAll(cs)) == Chunks(cs)
    decreases cs
  {
    hide Parsed, Encoded;
    if cs == [] {
      ParsesNothing();
    } else {
      var c, tail := cs[0], EncodedAll(cs[1..]);
      RiffRoundTrip(cs[1..]);
      assert cs == [c] + cs[1..];
      LayoutSize(c);
      match c
      case Leaf(id, data) =>
        ParsesLeaf(id, data, tail);
      case Group(kind, form, children) =>
        RiffRoundTrip(children);
        ParsesGroup(kind, form, children, tail);
    }
  }

  lemma ParsesNothing()
    ensures Parsed([]) == Chunks([])
  {}

  lemma LayoutSize(c: Chunk)
    ensures c.Leaf? ==> |Encoded(c)| >= |c.data|
    ensures c.Group? ==> |Encoded(c)| >= 4 + |EncodedAll(c.children)|
  {}

  lemma {:induction false} EncodedAllJoins(a: seq<Chunk>, b: seq<Chunk>)
    ensures EncodedAll(a + b) == EncodedAll(a) + EncodedAll(b)
  {
    if a == [] {
      assert a + b == b;
    } else {
      assert (a + b)[1..] == a[1..] + b;
      EncodedAllJoins(a[1..], b);
    }
  }
}
