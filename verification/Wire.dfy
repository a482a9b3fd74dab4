/** The Protocol Buffers wire format as far as the requests and events here use it: base 128 varints,
    little-endian fixed fields and length-delimited records. */
module Wire {
  import opened Integers
  import opened Wrappers

  type Byte = n: int | 0 <= n < 256

  // ---- varints ----

  function Varint(n: nat): (r: seq<Byte>)
    ensures r != []
  {
    if n < 128 then [n] else [n % 128 + 128] + Varint(n / 128)
  }

  datatype Read<+T> = Nothing | Got(value: T, rest: seq<Byte>)

  /** A varint of at most k bytes. */
  function ReadVarint(bs: seq<Byte>, k: nat): (r: Read<nat>)
    ensures r.Got? ==> |r.rest| < |bs|
    decreases k
  {
    if bs == [] || k == 0 then Nothing
    else if bs[0] < 128 then Got(bs[0], bs[1..])
    else
      match ReadVarint(bs[1..], k - 1)
      case Nothing => Nothing
      case Got(v, rest) => Got(bs[0] - 128 + 128 * v, rest)
  }

  /** pb_decode_varint: ten bytes at most, and the value must fit 64 bits. */
  function DecodeVarint(bs: seq<Byte>): (r: Read<nat>)
    ensures r.Got? ==> |r.rest| < |bs| && r.value < TWO_64
  {
    match ReadVarint(bs, 10)
    case Got(v, rest) => if v < TWO_64 then Got(v, rest) else Nothing
    case Nothing => Nothing
  }

  function Pow128(k: nat): nat {
    if k == 0 then 1 else 128 * Pow128(k - 1)
  }

  lemma {:induction false} VarintBack(n: nat, k: nat, rest: seq<Byte>)
    requires k > 0 && n < Pow128(k)
    ensures ReadVarint(Varint(n) + rest, k) == Got(n, rest)
    decreases k
  {
    if n < 128 {
      assert (Varint(n) + rest)[1..] == rest;
    } else {
      assert k > 1 && Pow128(k) == 128 * Pow128(k - 1);
      assert (Varint(n) + rest)[1..] == Varint(n / 128) + rest;
      VarintBack(n / 128, k - 1, rest);
    }
  }

  lemma VarintRoundTrip(n: nat, rest: seq<Byte>)
    requires n < TWO_64
    ensures DecodeVarint(Varint(n) + rest) == Got(n, rest)
  {
    assert Pow128(10) > TWO_64 by {
      assert Pow128(5) == 0x8_0000_0000;
      assert Pow128(10) == 128 * 128 * 128 * 128 * 128 * Pow128(5);
    }
    VarintBack(n, 10, rest);
  }

  // ---- fixed fields ----

  /** n in k bytes, the low one first. */
  function Fixed(n: nat, k: nat): (r: seq<Byte>)
    ensures |r| == k
  {
    if k == 0 then [] else [n % 256] + Fixed(n / 256, k - 1)
  }

  function FixedValue(bs: seq<Byte>): nat {
    if bs == [] then 0 else bs[0] + 256 * FixedValue(bs[1..])
  }

  function DecodeFixed(bs: seq<Byte>, k: nat): (r: Read<nat>)
    ensures r.Got? <==> k <= |bs|
    ensures r.Got? ==> |r.rest| == |bs| - k
  {
    if |bs| < k then Nothing else Got(FixedValue(bs[..k]), bs[k..])
  }

  function Pow256(k: nat): nat {
    if k == 0 then 1 else 256 * Pow256(k - 1)
  }

  lemma {:induction false} FixedBack(n: nat, k: nat)
    requires n < Pow256(k)
    ensures FixedValue(Fixed(n, k)) == n
    decreases k
  {
    if k > 0 {
      FixedBack(n / 256, k - 1);
    }
  }

  lemma FixedRoundTrip(n: nat, k: nat, rest: seq<Byte>)
    requires (k == 4 && n < TWO_32) || (k == 8 && n < TWO_64)
    ensures DecodeFixed(Fixed(n, k) + rest, k) == Got(n, rest)
  {
    assert Pow256(4) == TWO_32;
    assert Pow256(8) == 256 * 256 * 256 * 256 * Pow256(4);
    FixedBack(n, k);
    var bs := Fixed(n, k) + rest;
    assert bs[..k] == Fixed(n, k) && bs[k..] == rest;
  }

  // ---- fields and messages ----

  datatype Field =
    | Number(num: nat, value: nat)
    | Fixed64(num: nat, value: nat)
    | Record(num: nat, bytes: seq<Byte>)
    | Fixed32(num: nat, value: nat)

  function WireType(f: Field): nat {
    match f case Number(_, _) => 0 case Fixed64(_, _) => 1 case Record(_, _) => 2 case Fixed32(_, _) => 5
  }

  function Tag(f: Field): seq<Byte> {
    Varint(f.num * 8 + WireType(f))
  }

  function Payload(f: Field): seq<Byte> {
    match f
    case Number(_, n) => Varint(n)
    case Fixed64(_, n) => Fixed(n, 8)
    case Record(_, bs) => Varint(|bs|) + bs
    case Fixed32(_, n) => Fixed(n, 4)
  }

  predicate InRange(f: Field) {
    && 0 < f.num < 0x2000_0000
    && match f
       case Number(_, n) => n < TWO_64
       case Fixed64(_, n) => n < TWO_64
       case Record(_, bs) => |bs| < TWO_64
       case Fixed32(_, n) => n < TWO_32
  }

  function Encode(fs: seq<Field>): seq<Byte> {
    if fs == [] then [] else Tag(fs[0]) + (Payload(fs[0]) + Encode(fs[1..]))
  }

  function DecodePayload(num: nat, wireType: nat, bs: seq<Byte>): (r: Read<Field>)
    ensures r.Got? ==> |r.rest| <= |bs|
  {
    if wireType == 0 then
      match DecodeVarint(bs) case Nothing => Nothing case Got(n, rest) => Got(Number(num, n), rest)
    else if wireType == 1 then
      match DecodeFixed(bs, 8) case Nothing => Nothing case Got(n, rest) => Got(Fixed64(num, n), rest)
    else if wireType == 2 then
      match DecodeVarint(bs)
      case Nothing => Nothing
      case Got(n, rest) => if n <= |rest| then Got(Record(num, rest[..n]), rest[n..]) else Nothing
    else if wireType == 5 then
      match DecodeFixed(bs, 4) case Nothing => Nothing case Got(n, rest) => Got(Fixed32(num, n), rest)
    else Nothing
  }

  /** One field; after is what follows it. */
  function DecodeField(bs: seq<Byte>): (r: Read<Field>)
    ensures r.Got? ==> |r.rest| < |bs|
  {
    match DecodeVarint(bs)
    case Nothing => Nothing
    case Got(tag, rest) => if tag / 8 == 0 then Nothing else DecodePayload(tag / 8, tag % 8, rest)
  }

  /** A field together with the bytes behind it in its message. */
  datatype Item = Item(field: Field, after: seq<Byte>)

  /** All fields of a message, or None where one cannot be read. */
  function Decode(bs: seq<Byte>): Option<seq<Item>>
    decreases |bs|
  {
    if bs == [] then Some([])
    else
      match DecodeField(bs)
      case Nothing => None
      case Got(f, rest) =>
        match Decode(rest)
        case None => None
        case Some(items) => Some([Item(f, rest)] + items)
  }

  function Items(fs: seq<Field>): seq<Item> {
    if fs == [] then [] else [Item(fs[0], Encode(fs[1..]))] + Items(fs[1..])
  }

  lemma PayloadRoundTrip(f: Field, rest: seq<Byte>)
    requires InRange(f)
    ensures DecodePayload(f.num, WireType(f), Payload(f) + rest) == Got(f, rest)
  {
    match f {
      case Number(_, n) => VarintRoundTrip(n, rest);
      case Fixed64(_, n) => FixedRoundTrip(n, 8, rest);
      case Record(_, bs) =>
        VarintRoundTrip(|bs|, bs + rest);
        assert Varint(|bs|) + bs + rest == Varint(|bs|) + (bs + rest);
        assert (bs + rest)[..|bs|] == bs && (bs + rest)[|bs|..] == rest;
      case Fixed32(_, n) => FixedRoundTrip(n, 4, rest);
    }
  }

  lemma FieldRoundTrip(f: Field, rest: seq<Byte>)
    requires InRange(f)
    ensures DecodeField(Tag(f) + (Payload(f) + rest)) == Got(f, rest)
  {
    hide Payload, DecodePayload;
    var tag := f.num * 8 + WireType(f);
    VarintRoundTrip(tag, Payload(f) + rest);
    PayloadRoundTrip(f, rest);
    assert tag / 8 == f.num && tag % 8 == WireType(f);
  }

  /** Encoding and decoding a message gives its fields back. */
  lemma {:induction false} MessageRoundTrip(fs: seq<Field>)
    requires forall f :: f in fs ==> InRange(f)
    ensures Decode(Encode(fs)) == Some(Items(fs))
    decreases |fs|
  {
    hide Tag, Payload, InRange, DecodeField;
    if fs != [] {
      assert fs[0] in fs;
      FieldRoundTrip(fs[0], Encode(fs[1..]));
      MessageRoundTrip(fs[1..]);
      EncodeNonEmpty(fs);
    }
  }

  lemma EncodeNonEmpty(fs: seq<Field>)
    requires fs != []
    ensures Encode(fs) != []
  {
    assert Tag(fs[0]) != [];
  }

  /** The last field with a number: a decoder that overwrites keeps this one. */
  function Last(items: seq<Item>, num: nat): (r: Option<Item>)
    ensures r.Some? ==> r.value in items && r.value.field.num == num
    ensures r.None? ==> forall i :: i in items ==> i.field.num != num
  {
    if items == [] then None
    else
      match Last(items[1..], num)
      case Some(i) => Some(i)
      case None => if items[0].field.num == num then Some(items[0]) else None
  }

  lemma LastItem(f: Field, fs: seq<Field>, num: nat)
    ensures Last(Items([f] + fs), num) == match Last(Items(fs), num)
                                          case Some(i) => Some(i)
                                          case None => if f.num == num then Some(Item(f, Encode(fs))) else None
  {
    hide Encode;
    assert ([f] + fs)[1..] == fs;
    assert Items([f] + fs) == [Item(f, Encode(fs))] + Items(fs);
    assert Items([f] + fs)[1..] == Items(fs);
  }

  /** The items of a message hold its fields. */
  lemma {:induction false} FieldsOf(fs: seq<Field>)
    ensures |Items(fs)| == |fs| && forall i :: 0 <= i < |fs| ==> Items(fs)[i].field == fs[i]
  {
    hide Encode;
    if fs != [] {
      FieldsOf(fs[1..]);
    }
  }

  /** The fields of a message, where all of it can be read. */
  function FieldsIn(bs: seq<Byte>): Option<seq<Field>> {
    match Decode(bs)
    case None => None
    case Some(items) => Some(seq(|items|, i requires 0 <= i < |items| => items[i].field))
  }

  lemma FieldsRoundTrip(fs: seq<Field>)
    requires forall f :: f in fs ==> InRange(f)
    ensures FieldsIn(Encode(fs)) == Some(fs)
  {
    hide Encode, Decode, Items;
    MessageRoundTrip(fs);
    FieldsOf(fs);
    assert FieldsIn(Encode(fs)).value == fs;
  }

  // ---- the format, byte by byte ----

  /** A tag is the field's number and its wire type: 0 for a varint, 1 and 5 for eight and four bytes, 2 for
      a record; in one byte for the numbers below 16. */
  lemma TagBytes(f: Field)
    ensures var key := f.num * 8 + match f
                                   case Number(_, _) => 0
                                   case Fixed64(_, _) => 1
                                   case Record(_, _) => 2
                                   case Fixed32(_, _) => 5;
            Tag(f) == Varint(key) && (f.num < 16 ==> Tag(f) == [key])
  {
  }

  lemma DivUnique(n: nat, m: nat, q: nat, r: nat)
    requires m > 0 && n == m * q + r && r < m
    ensures n / m == q
  {
    var p := n / m;
    Divided(n, m);
    Apart(m, p, q);
    Apart(m, q, p);
  }

  lemma Apart(m: nat, p: nat, q: nat)
    ensures p < q ==> m * p + m <= m * q
  {
    if p < q {
      Spread(m, p, q - p);
      assert m * (q - p) >= m;
    }
  }

  lemma Scaled(b: nat, m: nat, q: nat, d: nat)
    requires d < m && b > 0
    ensures b * (m * q) == (b * m) * q && b * d + b <= b * m
  {
    assert b * (d + 1) <= b * m;
  }

  lemma DivTwice(n: nat, b: nat, m: nat)
    requires b > 0 && m > 0
    ensures b * m > 0 && n / b / m == n / (b * m)
  {
    var a, c := n / b, n % b;
    var q, d := a / m, a % m;
    Divided(n, b);
    Divided(a, m);
    Scaled(b, m, q, d);
    Spread(b, m * q, d);
    DivUnique(n, b * m, q, b * d + c);
  }

  lemma Divided(n: nat, m: nat)
    requires m > 0
    ensures n == m * (n / m) + n % m && 0 <= n % m < m
  {
  }

  lemma Spread(b: nat, x: nat, y: nat)
    ensures b * (x + y) == b * x + b * y
  {
  }

  /** Byte k of a varint holds bits 7k to 7k+6 of the number, the low ones first, with 128 added to all but
      the last byte; no longer than needed. */
  lemma {:induction false} VarintBytes(n: nat, k: nat)
    requires k < |Varint(n)|
    ensures Pow128(k) > 0 && Varint(n)[k] == n / Pow128(k) % 128 + (if k < |Varint(n)| - 1 then 128 else 0)
    ensures n > 0 ==> Varint(n)[|Varint(n)| - 1] > 0
    decreases k
  {
    LastByte(n);
    if n >= 128 {
      assert Varint(n) == [n % 128 + 128] + Varint(n / 128);
      if k > 0 {
        VarintBytes(n / 128, k - 1);
        DivTwice(n, 128, Pow128(k - 1));
      }
    }
  }

  lemma {:induction false} LastByte(n: nat)
    ensures n > 0 ==> Varint(n)[|Varint(n)| - 1] > 0
  {
    if n >= 128 {
      LastByte(n / 128);
    }
  }

  /** Byte i of a fixed field holds bits 8i to 8i+7. */
  lemma {:induction false} FixedBytes(n: nat, k: nat, i: nat)
    requires i < k
    ensures Pow256(i) > 0 && Fixed(n, k)[i] == n / Pow256(i) % 256
    decreases i
  {
    if i > 0 {
      FixedBytes(n / 256, k - 1, i - 1);
      DivTwice(n, 256, Pow256(i - 1));
    }
  }

  // ---- which bytes are read ----

  /** The number in the low seven bits of some bytes. */
  function LowBits(bs: seq<Byte>): nat {
    if bs == [] then 0 else bs[0] % 128 + 128 * LowBits(bs[1..])
  }

  /** A varint ends with its first byte below 128, and it must be among the first k. */
  lemma {:induction false} ReadVarintExactly(bs: seq<Byte>, k: nat, n: nat)
    requires n <= |bs| && n <= k && forall i :: 0 <= i < n ==> bs[i] >= 128
    ensures n == |bs| || n == k ==> ReadVarint(bs, k) == Nothing
    ensures n < |bs| && n < k && bs[n] < 128 ==> ReadVarint(bs, k) == Got(LowBits(bs[..n + 1]), bs[n + 1..])
    decreases n
  {
    if n > 0 {
      ReadVarintExactly(bs[1..], k - 1, n - 1);
      if n < |bs| {
        assert bs[..n + 1][1..] == bs[1..][..n] && bs[1..][n..] == bs[n + 1..];
      }
    } else if bs != [] {
      assert bs[..1] == [bs[0]] && [bs[0]][1..] == [];
    }
  }

  /** On any bytes a varint is read exactly if one of the first ten is below 128 and the number fits 64
      bits; n is the number of bytes in front of that one. */
  lemma DecodeVarintExactly(bs: seq<Byte>, n: nat)
    requires n <= |bs| && n <= 10 && (forall i :: 0 <= i < n ==> bs[i] >= 128)
    requires n == |bs| || n == 10 || bs[n] < 128
    ensures DecodeVarint(bs)
            == if n < |bs| && n < 10 && LowBits(bs[..n + 1]) < 0x1_0000_0000_0000_0000
               then Got(LowBits(bs[..n + 1]), bs[n + 1..]) else Nothing
  {
    hide ReadVarint, LowBits;
    ReadVarintExactly(bs, 10, n);
  }

  /** A field is not read if its number is 0, its wire type is none of the four, or its record is cut off. */
  lemma FieldRejected(key: nat, rest: seq<Byte>)
    requires key < TWO_64
    ensures key / 8 == 0 || key % 8 in {3, 4, 6, 7} ==> DecodeField(Varint(key) + rest) == Nothing
    ensures key / 8 > 0 && key % 8 == 2 && rest != [] && rest[0] < 128 && |rest| <= rest[0] ==>
              DecodeField(Varint(key) + rest) == Nothing
    ensures key / 8 > 0 && ((key % 8 == 1 && |rest| < 8) || (key % 8 == 5 && |rest| < 4)) ==>
              DecodeField(Varint(key) + rest) == Nothing
  {
    hide Varint, ReadVarint;
    VarintRoundTrip(key, rest);
    if rest != [] && rest[0] < 128 {
      ReadVarintExactly(rest, 10, 0);
      assert rest[..1] == [rest[0]] && [rest[0]][1..] == [];
    }
  }
}
