/** Repeated fields: the callbacks that append fixed32 words or enum varints to a vector, and the one
    that writes the no-wakeup message ids. */
module PbRepeated {
  import opened Integers
  import opened Wrappers
  import opened Wire
  import opened SuidRequest

  /** The two element encodings: decode_float_array reads words, decode_repeated_enum varints. */
  datatype Kind = Words | Enums

  function Element(kind: Kind, v: nat): (r: seq<Byte>)
    ensures r != []
  {
    match kind case Words => Fixed(v, 4) case Enums => Varint(v)
  }

  function ReadElement(kind: Kind, bs: seq<Byte>): (r: Read<nat>)
    ensures r.Got? ==> |r.rest| < |bs|
  {
    match kind case Words => DecodeFixed(bs, 4) case Enums => DecodeVarint(bs)
  }

  /** The cast to uint32_t. */
  function Low32(v: nat): nat {
    v % TWO_32
  }

  /** What one callback appends, and whether it succeeds. */
  datatype Run = Run(values: seq<nat>, ok: bool)

  function Elements(kind: Kind, bs: seq<Byte>): Run
    decreases |bs|
  {
    if bs == [] then Run([], true)
    else
      match ReadElement(kind, bs)
      case Nothing => Run([], false)
      case Got(v, rest) => Run([Low32(v)] + Elements(kind, rest).values, Elements(kind, rest).ok)
  }

  // ---- the callbacks ----

  /** pb_istream_t over a field's bytes. */
  class IStream {
    var rest: seq<Byte>

    constructor (bs: seq<Byte>)
      ensures rest == bs
    {
      rest := bs;
    }

    /** pb_decode_fixed32 and pb_decode_varint; after a failing read the stream is not used again. */
    method ReadOne(kind: Kind) returns (r: Option<nat>)
      modifies this
      ensures match ReadElement(kind, old(rest))
              case Nothing => r == None
              case Got(v, after) => r == Some(v) && rest == after
    {
      match ReadElement(kind, rest)
      case Nothing =>
        r := None;
      case Got(v, after) =>
        r := Some(v);
        rest := after;
    }
  }

  class Vector {
    var items: seq<nat>

    constructor ()
      ensures items == []
    {
      items := [];
    }

    method PushBack(v: nat)
      modifies this
      ensures items == old(items) + [v]
    {
      items := items + [v];
    }
  }

  /** decode_float_array; a float is its 32 bits. */
  method DecodeFloatArray(stream: IStream, vec: Vector) returns (ok: bool)
    modifies stream, vec
    ensures ok <==> |old(stream.rest)| % 4 == 0
    ensures vec.items == old(vec.items) + Elements(Words, old(stream.rest)).values
    ensures |vec.items| == |old(vec.items)| + |old(stream.rest)| / 4
  {
    hide FixedValue;
    WordCount(stream.rest);
    ghost var bs, start := stream.rest, vec.items;
    while |stream.rest| > 0
      invariant vec.items + Elements(Words, stream.rest).values == start + Elements(Words, bs).values
      invariant Elements(Words, stream.rest).ok == Elements(Words, bs).ok
      decreases |stream.rest|
    {
      ghost var before := stream.rest;
      var value := stream.ReadOne(Words);
      if value.None? {
        assert Elements(Words, before) == Run([], false);
        return false;
      }
      WordFits(before);
      vec.PushBack(value.value);
    }
    return true;
  }

  /** decode_repeated_enum. */
  method DecodeRepeatedEnum(stream: IStream, vec: Vector) returns (ok: bool)
    modifies stream, vec
    ensures ok == Elements(Enums, old(stream.rest)).ok
    ensures vec.items == old(vec.items) + Elements(Enums, old(stream.rest)).values
  {
    hide DecodeVarint;
    ghost var bs, start := stream.rest, vec.items;
    while |stream.rest| > 0
      invariant vec.items + Elements(Enums, stream.rest).values == start + Elements(Enums, bs).values
      invariant Elements(Enums, stream.rest).ok == Elements(Enums, bs).ok
      decreases |stream.rest|
    {
      ghost var before := stream.rest;
      var raw := stream.ReadOne(Enums);
      if raw.None? {
        assert Elements(Enums, before) == Run([], false);
        return false;
      }
      vec.PushBack(Low32(raw.value));
    }
    return true;
  }

  function IdFields(num: nat, ids: seq<nat>): (r: seq<Field>)
    ensures |r| == |ids| && forall i :: 0 <= i < |ids| ==> r[i] == Fixed32(num, ids[i])
  {
    seq(|ids|, i requires 0 <= i < |ids| => Fixed32(num, ids[i]))
  }

  /** encode_nowakeup_msg_ids: a tag and a word for each id. */
  method EncodeNowakeupMsgIds(stream: OStream, num: nat, ids: seq<nat>) returns (ok: bool)
    requires |stream.bytes| <= stream.max
    modifies stream
    ensures ok == (|old(stream.bytes)| + |Encode(IdFields(num, ids))| <= stream.max)
    ensures ok ==> stream.bytes == old(stream.bytes) + Encode(IdFields(num, ids))
    ensures Output(stream.bytes, ok) == Written(old(stream.bytes), stream.max, MessagePieces(IdFields(num, ids)))
  {
    hide Tag, Payload, Pieces, Written;
    ghost var fs := IdFields(num, ids);
    for i := 0 to |ids|
      invariant |stream.bytes| <= stream.max
      invariant stream.bytes + Encode(fs[i..]) == old(stream.bytes) + Encode(fs)
      invariant Written(stream.bytes, stream.max, MessagePieces(fs[i..]))
             == Written(old(stream.bytes), stream.max, MessagePieces(fs))
    {
      assert fs[i..][1..] == fs[i + 1..] && fs[i..][0] == Fixed32(num, ids[i]);
      WrittenConcat(stream.bytes, stream.max, Pieces(fs[i]), MessagePieces(fs[i + 1..]));
      var written := stream.EncodeField(Fixed32(num, ids[i]));
      if !written {
        return false;
      }
    }
    assert fs[|ids|..] == [];
    WrittenNothing(stream.bytes, stream.max);
    return true;
  }

  // ---- counting words ----

  lemma {:induction false} FixedBound(bs: seq<Byte>)
    ensures FixedValue(bs) < Pow256(|bs|)
  {
    if bs != [] {
      FixedBound(bs[1..]);
    }
  }

  lemma WordFits(bs: seq<Byte>)
    requires |bs| >= 4
    ensures FixedValue(bs[..4]) < TWO_32 && Low32(FixedValue(bs[..4])) == FixedValue(bs[..4])
  {
    FixedBound(bs[..4]);
    assert Pow256(4) == TWO_32;
  }

  /** A word for every four bytes; a partial word at the end fails and adds nothing. */
  lemma {:induction false} WordCount(bs: seq<Byte>)
    ensures |Elements(Words, bs).values| == |bs| / 4
    ensures Elements(Words, bs).ok <==> |bs| % 4 == 0
    decreases |bs|
  {
    hide FixedValue, Low32;
    if |bs| >= 4 {
      WordCount(bs[4..]);
    }
  }

  /** Word k is read from bytes 4k to 4k+3. */
  lemma {:induction false} WordAt(bs: seq<Byte>, k: nat)
    requires 4 * k + 4 <= |bs|
    ensures k < |Elements(Words, bs).values| && Elements(Words, bs).values[k] == FixedValue(bs[4 * k..4 * k + 4])
    decreases k
  {
    hide FixedValue;
    WordCount(bs);
    WordFits(bs);
    if k > 0 {
      WordAt(bs[4..], k - 1);
      assert bs[4..][4 * (k - 1)..4 * (k - 1) + 4] == bs[4 * k..4 * k + 4];
    }
  }

  // ---- any split into fields decodes alike ----

  /** Several packed values in one record, or one value in a field of its own. */
  datatype Chunk = Packed(values: seq<nat>) | Single(value: nat)

  function ElementsOf(kind: Kind, vs: seq<nat>): seq<Byte> {
    if vs == [] then [] else Element(kind, vs[0]) + ElementsOf(kind, vs[1..])
  }

  function ChunkField(kind: Kind, num: nat, c: Chunk): Field {
    match c
    case Packed(vs) => Record(num, ElementsOf(kind, vs))
    case Single(v) => (match kind case Words => Fixed32(num, v) case Enums => Number(num, v))
  }

  function ChunkFields(kind: Kind, num: nat, cs: seq<Chunk>): (r: seq<Field>)
    ensures |r| == |cs| && forall i :: 0 <= i < |cs| ==> r[i] == ChunkField(kind, num, cs[i])
  {
    seq(|cs|, i requires 0 <= i < |cs| => ChunkField(kind, num, cs[i]))
  }

  function ChunkValues(c: Chunk): seq<nat> {
    match c case Packed(vs) => vs case Single(v) => [v]
  }

  function Flatten(cs: seq<Chunk>): seq<nat> {
    if cs == [] then [] else ChunkValues(cs[0]) + Flatten(cs[1..])
  }

  /** The bytes a callback is handed: a record's contents, or the single value's own encoding. */
  function CallbackBytes(f: Field): seq<Byte> {
    match f case Record(_, bs) => bs case _ => Payload(f)
  }

  /** A vector filled by calling back for every field with a number, as far as that succeeds. */
  function Repeated(kind: Kind, items: seq<Item>, num: nat): Run {
    if items == [] then Run([], true)
    else if items[0].field.num != num then Repeated(kind, items[1..], num)
    else
      var first := Elements(kind, CallbackBytes(items[0].field));
      if !first.ok then first
      else Run(first.values + Repeated(kind, items[1..], num).values, Repeated(kind, items[1..], num).ok)
  }

  function Low32s(vs: seq<nat>): (r: seq<nat>)
    ensures |r| == |vs| && forall i :: 0 <= i < |vs| ==> r[i] == vs[i] % 0x1_0000_0000
  {
    seq(|vs|, i requires 0 <= i < |vs| => vs[i] % 0x1_0000_0000)
  }

  predicate Encodable(kind: Kind, v: nat) {
    v < (match kind case Words => TWO_32 case Enums => TWO_64)
  }

  predicate AllEncodable(kind: Kind, vs: seq<nat>) {
    forall v :: v in vs ==> Encodable(kind, v)
  }

  predicate ChunkFits(kind: Kind, c: Chunk) {
    AllEncodable(kind, ChunkValues(c)) && (c.Packed? ==> |ElementsOf(kind, c.values)| < TWO_64)
  }

  lemma ElementRoundTrip(kind: Kind, v: nat, rest: seq<Byte>)
    requires Encodable(kind, v)
    ensures ReadElement(kind, Element(kind, v) + rest) == Got(v, rest)
  {
    match kind {
      case Words => FixedRoundTrip(v, 4, rest);
      case Enums => VarintRoundTrip(v, rest);
    }
  }

  /** Bytes that decode, followed by any others, decode piece by piece. */
  lemma {:induction false} ElementsConcat(kind: Kind, a: seq<Byte>, b: seq<Byte>)
    requires Elements(kind, a).ok
    ensures Elements(kind, a + b) == Run(Elements(kind, a).values + Elements(kind, b).values, Elements(kind, b).ok)
    decreases |a|
  {
    hide ReadElement, Low32;
    if a == [] {
      assert a + b == b;
    } else {
      ReadPrefix(kind, a, b);
      ElementsConcat(kind, ReadElement(kind, a).rest, b);
    }
  }

  /** Bytes that decode, followed by one that cannot be read: what was read is kept, and the callback fails. */
  lemma BadTail(kind: Kind, a: seq<Byte>, b: seq<Byte>)
    requires Elements(kind, a).ok && b != [] && ReadElement(kind, b).Nothing?
    ensures Elements(kind, a + b) == Run(Elements(kind, a).values, false)
  {
    hide ReadElement;
    ElementsConcat(kind, a, b);
    assert Elements(kind, a).values + [] == Elements(kind, a).values;
  }

  /** Reading an element looks at no byte behind it. */
  lemma ReadPrefix(kind: Kind, a: seq<Byte>, b: seq<Byte>)
    requires ReadElement(kind, a).Got?
    ensures ReadElement(kind, a + b) == Got(ReadElement(kind, a).value, ReadElement(kind, a).rest + b)
  {
    match kind {
      case Words =>
        assert (a + b)[..4] == a[..4] && (a + b)[4..] == a[4..] + b;
      case Enums => ReadVarintPrefix(a, b, 10);
    }
  }

  lemma {:induction false} ReadVarintPrefix(a: seq<Byte>, b: seq<Byte>, k: nat)
    requires ReadVarint(a, k).Got?
    ensures ReadVarint(a + b, k) == Got(ReadVarint(a, k).value, ReadVarint(a, k).rest + b)
    decreases k
  {
    assert (a + b)[1..] == a[1..] + b;
    if a[0] >= 128 {
      ReadVarintPrefix(a[1..], b, k - 1);
    }
  }

  lemma {:induction false} ElementsRoundTrip(kind: Kind, vs: seq<nat>)
    requires AllEncodable(kind, vs)
    ensures Elements(kind, ElementsOf(kind, vs)) == Run(Low32s(vs), true)
  {
    hide ReadElement, Element, Encodable;
    if vs == [] {
    } else {
      assert vs[0] in vs;
      ElementRoundTrip(kind, vs[0], ElementsOf(kind, vs[1..]));
      ElementsRoundTrip(kind, vs[1..]);
      assert Low32s(vs) == [Low32(vs[0])] + Low32s(vs[1..]);
    }
  }

  lemma ChunkDecodes(kind: Kind, num: nat, c: Chunk)
    requires ChunkFits(kind, c) && 0 < num < 0x2000_0000
    ensures Elements(kind, CallbackBytes(ChunkField(kind, num, c))) == Run(Low32s(ChunkValues(c)), true)
    ensures InRange(ChunkField(kind, num, c)) && ChunkField(kind, num, c).num == num
  {
    hide Varint, Fixed, Elements, Low32;
    ElementsRoundTrip(kind, ChunkValues(c));
    if c.Single? {
      assert c.value in ChunkValues(c);
      assert ElementsOf(kind, [c.value]) == Element(kind, c.value) by {
        assert [c.value][1..] == [];
      }
    }
  }

  lemma {:induction false} ChunksDecode(kind: Kind, num: nat, cs: seq<Chunk>)
    requires (forall c :: c in cs ==> ChunkFits(kind, c)) && 0 < num < 0x2000_0000
    ensures Repeated(kind, Items(ChunkFields(kind, num, cs)), num) == Run(Low32s(Flatten(cs)), true)
  {
    hide Encode, Elements, CallbackBytes, ChunkField, ChunkFits, ChunkValues, Low32;
    if cs != [] {
      var fs := ChunkFields(kind, num, cs);
      assert fs[1..] == ChunkFields(kind, num, cs[1..]);
      assert cs[0] in cs;
      ChunkDecodes(kind, num, cs[0]);
      ChunksDecode(kind, num, cs[1..]);
      var items := Items(fs);
      assert items[0].field == fs[0] && items[1..] == Items(fs[1..]);
      assert Low32s(Flatten(cs)) == Low32s(ChunkValues(cs[0])) + Low32s(Flatten(cs[1..]));
    }
  }

  /** However a list is split into packed and single fields, its message decodes to the same vector:
      the list itself, up to the 32-bit cast. */
  lemma ChunkingIrrelevant(kind: Kind, num: nat, cs: seq<Chunk>)
    requires (forall c :: c in cs ==> ChunkFits(kind, c)) && 0 < num < 0x2000_0000
    ensures var message := Decode(Encode(ChunkFields(kind, num, cs)));
            message.Some? && Repeated(kind, message.value, num) == Run(Low32s(Flatten(cs)), true)
  {
    hide Encode, Decode, Repeated, Items, Flatten, ChunkField, ChunkFits, InRange;
    var fs := ChunkFields(kind, num, cs);
    forall f | f in fs
      ensures InRange(f)
    {
      var i :| 0 <= i < |fs| && fs[i] == f;
      ChunkDecodes(kind, num, cs[i]);
    }
    MessageRoundTrip(fs);
    ChunksDecode(kind, num, cs);
  }

  /** The ids that encode_nowakeup_msg_ids writes are read back one by one. */
  lemma MsgIdsRoundTrip(num: nat, ids: seq<nat>)
    requires AllEncodable(Words, ids) && 0 < num < 0x2000_0000
    ensures var message := Decode(Encode(IdFields(num, ids)));
            message.Some? && Repeated(Words, message.value, num) == Run(ids, true)
  {
    hide Encode, Decode, Repeated;
    var cs := seq(|ids|, i requires 0 <= i < |ids| => Single(ids[i]));
    assert ChunkFields(Words, num, cs) == IdFields(num, ids);
    forall c | c in cs
      ensures ChunkFits(Words, c)
    {
      var i :| 0 <= i < |cs| && cs[i] == c;
      assert ids[i] in ids;
    }
    ChunkingIrrelevant(Words, num, cs);
    FlattenSingles(cs);
    assert Low32s(Flatten(cs)) == ids by {
      forall i | 0 <= i < |ids|
        ensures Low32(ids[i]) == ids[i]
      {
        assert ids[i] in ids;
      }
    }
  }

  lemma {:induction false} FlattenSingles(cs: seq<Chunk>)
    requires forall c :: c in cs ==> c.Single?
    ensures |Flatten(cs)| == |cs| && forall i :: 0 <= i < |cs| ==> Flatten(cs)[i] == cs[i].value
  {
    if cs != [] {
      assert cs[0] in cs;
      FlattenSingles(cs[1..]);
    }
  }
}
