/** The request for a sensor's SUIDs: a message of at most 100 bytes inside one of at most 256. */
module SuidRequest {
  import opened Integers
  import opened Wrappers
  import opened Wire

  const INNER_MAX := 100
  const OUTER_MAX := 256
  const SUID_REQ := 512           // SNS_SUID_MSGID_SNS_SUID_REQ
  const CLIENT_APSS := 1          // SNS_STD_CLIENT_PROCESSOR_APSS
  const DELIVERY_WAKEUP := 0      // SNS_CLIENT_DELIVERY_WAKEUP
  const TECH_SENSORS := 1         // SNS_TECH_SENSORS
  const SUID_HALF := 12370169555311111083

  // ---- encoding into a bounded buffer ----

  /** The single writes that a field is encoded with. */
  function Pieces(f: Field): seq<seq<Byte>> {
    match f case Record(_, bs) => [Tag(f), Varint(|bs|), bs] case _ => [Tag(f), Payload(f)]
  }

  function MessagePieces(fs: seq<Field>): seq<seq<Byte>> {
    if fs == [] then [] else Pieces(fs[0]) + MessagePieces(fs[1..])
  }

  datatype Output = Output(bytes: seq<Byte>, ok: bool)

  /** A buffer after one write after the other, up to the first one that does not fit. */
  function Written(bytes: seq<Byte>, max: nat, pieces: seq<seq<Byte>>): Output
    decreases |pieces|
  {
    if pieces == [] then Output(bytes, true)
    else if |bytes| + |pieces[0]| > max then Output(bytes, false)
    else Written(bytes + pieces[0], max, pieces[1..])
  }

  lemma {:induction false} WrittenConcat(bytes: seq<Byte>, max: nat, a: seq<seq<Byte>>, b: seq<seq<Byte>>)
    ensures Written(bytes, max, a + b)
         == if Written(bytes, max, a).ok then Written(Written(bytes, max, a).bytes, max, b) else Written(bytes, max, a)
    decreases |a|
  {
    if a == [] {
      assert a + b == b;
    } else {
      assert (a + b)[1..] == a[1..] + b;
      if |bytes| + |a[0]| <= max {
        WrittenConcat(bytes + a[0], max, a[1..], b);
      }
    }
  }

  lemma WrittenNothing(bytes: seq<Byte>, max: nat)
    ensures Written(bytes, max, []) == Output(bytes, true)
  {
  }

  lemma WrittenTwo(bytes: seq<Byte>, max: nat, a: seq<Byte>, b: seq<Byte>)
    ensures Written(bytes, max, [a, b])
         == if |bytes| + |a| > max then Output(bytes, false)
            else if |bytes| + |a| + |b| > max then Output(bytes + a, false)
            else Output(bytes + a + b, true)
  {
    assert [a, b][1..] == [b] && [b][1..] == [];
    WrittenNothing(bytes + a + b, max);
    assert |bytes| + |a| + |b| <= max ==> Written(bytes + a, max, [b]) == Output(bytes + a + b, true);
  }

  lemma WrittenThree(bytes: seq<Byte>, max: nat, a: seq<Byte>, b: seq<Byte>, c: seq<Byte>)
    ensures Written(bytes, max, [a, b, c])
         == if |bytes| + |a| > max then Output(bytes, false) else Written(bytes + a, max, [b, c])
  {
    assert [a, b, c][1..] == [b, c];
  }

  /** pb_ostream_from_buffer: writing past the end fails and writes nothing. */
  class OStream {
    const max: nat
    var bytes: seq<Byte>

    constructor (max: nat)
      ensures this.max == max && bytes == []
    {
      this.max := max;
      bytes := [];
    }

    method Write(bs: seq<Byte>) returns (ok: bool)
      requires |bytes| <= max
      modifies this
      ensures ok == (|old(bytes)| + |bs| <= max) && |bytes| <= max
      ensures bytes == if ok then old(bytes) + bs else old(bytes)
    {
      ok := |bytes| + |bs| <= max;
      if ok {
        bytes := bytes + bs;
      }
    }

    /** A tag and then the value; a record writes its length and its bytes one after the other. */
    method EncodeField(f: Field) returns (ok: bool)
      requires |bytes| <= max
      modifies this
      ensures ok == (|old(bytes)| + |Tag(f) + Payload(f)| <= max) && |bytes| <= max
      ensures ok ==> bytes == old(bytes) + (Tag(f) + Payload(f))
      ensures Output(bytes, ok) == Written(old(bytes), max, Pieces(f))
    {
      hide Varint, Fixed, WireType, Tag, Written;
      match f {
        case Record(_, bs) =>
          WrittenThree(bytes, max, Tag(f), Varint(|bs|), bs);
          WrittenTwo(bytes + Tag(f), max, Varint(|bs|), bs);
        case _ =>
          WrittenTwo(bytes, max, Tag(f), Payload(f));
      }
      ok := Write(Tag(f));
      if ok {
        match f
        case Record(_, bs) =>
          ok := Write(Varint(|bs|));
          if ok {
            ok := Write(bs);
          }
        case _ =>
          ok := Write(Payload(f));
      }
    }

    /** pb_encode: it succeeds exactly when the whole message fits, and then has written it. */
    method EncodeMessage(fs: seq<Field>) returns (ok: bool)
      requires |bytes| <= max
      modifies this
      ensures ok == (|old(bytes)| + |Encode(fs)| <= max)
      ensures ok ==> bytes == old(bytes) + Encode(fs)
      ensures Output(bytes, ok) == Written(old(bytes), max, MessagePieces(fs))
    {
      hide Tag, Payload, Pieces;
      for i := 0 to |fs|
        invariant |bytes| <= max
        invariant bytes + Encode(fs[i..]) == old(bytes) + Encode(fs)
        invariant Written(bytes, max, MessagePieces(fs[i..])) == Written(old(bytes), max, MessagePieces(fs))
      {
        assert fs[i..][1..] == fs[i + 1..];
        WrittenConcat(bytes, max, Pieces(fs[i]), MessagePieces(fs[i + 1..]));
        var fits := EncodeField(fs[i]);
        if !fits {
          return false;
        }
      }
      assert fs[|fs|..] == [];
      return true;
    }
  }

  // ---- the request ----

  datatype Suid = Suid(low: nat, high: nat)

  function SuidFields(s: Suid): seq<Field> {
    [Fixed64(1, s.low), Fixed64(2, s.high)]
  }

  /** sns_suid_req; the datatype goes out with a trailing NUL. */
  function InnerFields(name: seq<Byte>, defaultOnly: bool): seq<Field> {
    [Record(1, name + [0]), Number(2, 1), Number(3, if defaultOnly then 1 else 0)]
  }

  /** sns_client_request_msg around an encoded payload. */
  function OuterFields(sensor: Suid, inner: seq<Byte>): seq<Field> {
    [Record(1, Encode(SuidFields(sensor))),
     Fixed32(2, SUID_REQ),
     Record(3, Encode([Number(1, CLIENT_APSS), Number(2, DELIVERY_WAKEUP)])),
     Record(4, Encode([Record(2, inner)])),
     Number(7, TECH_SENSORS)]
  }

  function Request(name: seq<Byte>, defaultOnly: bool, sensor: Suid): seq<Byte> {
    Encode(OuterFields(sensor, Encode(InnerFields(name, defaultOnly))))
  }

  /** requestSuid; None where an encoding fails and nothing is sent. */
  method RequestSuid(name: seq<Byte>, defaultOnly: bool) returns (sent: Option<seq<Byte>>)
    ensures sent == if |name| <= 93 then Some(Request(name, defaultOnly, Suid(0xabab_abab_abab_abab,
            0xabab_abab_abab_abab)))
                    else None
  {
    hide Encode, OuterFields, InnerFields;
    InnerSize(name, defaultOnly);
    var payload := new OStream(INNER_MAX);
    var ok := payload.EncodeMessage(InnerFields(name, defaultOnly));
    if !ok {
      return None;
    }
    var fields := OuterFields(Suid(SUID_HALF, SUID_HALF), payload.bytes);
    OuterSize(Suid(SUID_HALF, SUID_HALF), payload.bytes);
    var stream := new OStream(OUTER_MAX);
    ok := stream.EncodeMessage(fields);
    assert [] + Encode(fields) == Encode(fields);
    assert [] + Encode(InnerFields(name, defaultOnly)) == Encode(InnerFields(name, defaultOnly));
    return if ok then Some(stream.bytes) else None;
  }

  // ---- sizes ----

  lemma VarintSize(n: nat)
    ensures n < 128 ==> |Varint(n)| == 1
    ensures 128 <= n < 16384 ==> |Varint(n)| == 2
    ensures n >= 128 ==> |Varint(n)| >= 2
  {
    if 128 <= n {
      assert Varint(n) == [n % 128 + 128] + Varint(n / 128);
    }
  }

  lemma EncodeSize(f: Field, fs: seq<Field>)
    ensures |Encode([f] + fs)| == |Tag(f)| + |Payload(f)| + |Encode(fs)|
  {
    hide Tag, Payload;
    assert ([f] + fs)[1..] == fs;
  }

  lemma TagSize(f: Field)
    requires f.num < 16
    ensures |Tag(f)| == 1
  {
    VarintSize(f.num * 8 + WireType(f));
  }

  /** The inner message fits its buffer exactly for names of at most 93 bytes. */
  lemma InnerSize(name: seq<Byte>, defaultOnly: bool)
    ensures |Encode(InnerFields(name, defaultOnly))| == |Varint(|name| + 1)| + |name| + 6
    ensures |Encode(InnerFields(name, defaultOnly))| <= 100 <==> |name| <= 93
  {
    hide Encode, Tag, Varint;
    var a, b, c := Record(1, name + [0]), Number(2, 1), Number(3, if defaultOnly then 1 else 0);
    assert InnerFields(name, defaultOnly) == [a] + ([b] + ([c] + []));
    EncodeSize(c, []);
    EncodeSize(b, [c] + []);
    EncodeSize(a, [b] + ([c] + []));
    EncodeNothing();
    TagSize(a);
    TagSize(b);
    TagSize(c);
    VarintSize(|name| + 1);
    VarintSize(1);
    VarintSize(0);
  }

  lemma EncodeNothing()
    ensures Encode([]) == []
  {
  }

  lemma PairSize(a: Field, b: Field)
    requires a.num < 16 && b.num < 16
    ensures |Encode([a, b])| == 2 + |Payload(a)| + |Payload(b)|
  {
    hide Encode, Tag, Payload;
    assert [a, b] == [a] + ([b] + []);
    EncodeSize(b, []);
    EncodeSize(a, [b] + []);
    EncodeNothing();
    TagSize(a);
    TagSize(b);
  }

  lemma RecordSize(num: nat, bs: seq<Byte>)
    requires num < 16 && |bs| < 128
    ensures |Tag(Record(num, bs))| + |Payload(Record(num, bs))| == 2 + |bs|
  {
    hide Tag, Varint;
    TagSize(Record(num, bs));
    VarintSize(|bs|);
  }

  /** The outer message adds 37 bytes to an inner one, so it never overflows its buffer. */
  lemma OuterSize(sensor: Suid, inner: seq<Byte>)
    requires |inner| <= INNER_MAX
    ensures |Encode(OuterFields(sensor, inner))| == 37 + |inner| <= 256
  {
    hide Encode, Tag, Varint;
    var suid := Encode(SuidFields(sensor));
    PairSize(Fixed64(1, sensor.low), Fixed64(2, sensor.high));
    var config := Encode([Number(1, CLIENT_APSS), Number(2, DELIVERY_WAKEUP)]);
    PairSize(Number(1, CLIENT_APSS), Number(2, DELIVERY_WAKEUP));
    VarintSize(CLIENT_APSS);
    VarintSize(DELIVERY_WAKEUP);
    var request := Encode([Record(2, inner)]);
    EncodeNothing();
    assert [Record(2, inner)] == [Record(2, inner)] + [];
    EncodeSize(Record(2, inner), []);
    RecordSize(2, inner);
    var id, tech := Fixed32(2, SUID_REQ), Number(7, TECH_SENSORS);
    var tail := [tech] + [];
    EncodeSize(tech, []);
    EncodeSize(Record(4, request), tail);
    EncodeSize(Record(3, config), [Record(4, request)] + tail);
    EncodeSize(id, [Record(3, config)] + ([Record(4, request)] + tail));
    EncodeSize(Record(1, suid), [id] + ([Record(3, config)] + ([Record(4, request)] + tail)));
    assert OuterFields(sensor, inner) == [Record(1, suid)] + ([id] + ([Record(3, config)] + ([Record(4,
           request)] + tail)));
    RecordSize(1, suid);
    RecordSize(3, config);
    RecordSize(4, request);
    TagSize(id);
    TagSize(tech);
    VarintSize(TECH_SENSORS);
  }

  // ---- reading the request back ----

  /** The bytes of the last record with a number in a message. */
  function RecordIn(bs: seq<Byte>, num: nat): Option<seq<Byte>> {
    match Decode(bs)
    case None => None
    case Some(items) =>
      match Last(items, num)
      case Some(Item(Record(_, bytes), _)) => Some(bytes)
      case _ => None
  }

  /** A receiver that decodes the request message by message finds the datatype with its NUL. */
  lemma RequestRoundTrip(name: seq<Byte>, defaultOnly: bool, sensor: Suid)
    requires |name| <= 93 && sensor.low < TWO_64 && sensor.high < TWO_64
    ensures var request := RecordIn(Request(name, defaultOnly, sensor), 4);
            && request.Some? && RecordIn(request.value, 2).Some?
            && RecordIn(RecordIn(request.value, 2).value, 1) == Some(name + [0])
  {
    hide Encode, Decode, Last, Items;
    InnerSize(name, defaultOnly);
    var inner := Encode(InnerFields(name, defaultOnly));
    FindInInner(name, defaultOnly);
    FindInOne(Record(2, inner));
    FindInOuter(sensor, inner);
  }

  /** Every field of the request: the sensor's suid, the id 512, the APSS processor with wakeup delivery,
      the inner request with the datatype, register_updates and default_only, and the sensors technology. */
  lemma RequestReadBack(name: seq<Byte>, defaultOnly: bool, sensor: Suid)
    returns (suid: seq<Byte>, config: seq<Byte>, request: seq<Byte>, inner: seq<Byte>)
    requires |name| <= 93 && sensor.low < TWO_64 && sensor.high < TWO_64
    ensures FieldsIn(Request(name, defaultOnly, sensor))
            == Some([Record(1, suid), Fixed32(2, 512), Record(3, config), Record(4, request), Number(7, 1)])
    ensures FieldsIn(suid) == Some([Fixed64(1, sensor.low), Fixed64(2, sensor.high)])
    ensures FieldsIn(config) == Some([Number(1, 1), Number(2, 0)])
    ensures FieldsIn(request) == Some([Record(2, inner)])
    ensures FieldsIn(inner) == Some([Record(1, name + [0]), Number(2, 1), Number(3, if defaultOnly then 1 else 0)])
  {
    hide Encode, FieldsIn;
    InnerSize(name, defaultOnly);
    inner := Encode(InnerFields(name, defaultOnly));
    suid, config := Encode(SuidFields(sensor)), Encode([Number(1, 1), Number(2, 0)]);
    request := Encode([Record(2, inner)]);
    OuterInRange(sensor, inner);
    FieldsRoundTrip(OuterFields(sensor, inner));
    FieldsRoundTrip(SuidFields(sensor));
    FieldsRoundTrip([Number(1, 1), Number(2, 0)]);
    FieldsRoundTrip([Record(2, inner)]);
    FieldsRoundTrip(InnerFields(name, defaultOnly));
  }

  lemma FindInOne(a: Field)
    requires a.Record? && InRange(a)
    ensures RecordIn(Encode([a]), a.num) == Some(a.bytes)
  {
    hide Encode, Decode, InRange;
    MessageRoundTrip([a]);
    assert [a] == [a] + [];
    LastItem(a, [], a.num);
  }

  lemma FindInInner(name: seq<Byte>, defaultOnly: bool)
    requires |name| <= 93
    ensures RecordIn(Encode(InnerFields(name, defaultOnly)), 1) == Some(name + [0])
  {
    hide Encode, Decode, Last, Items;
    var a, b, c := Record(1, name + [0]), Number(2, 1), Number(3, if defaultOnly then 1 else 0);
    MessageRoundTrip([a, b, c]);
    assert [a, b, c] == [a] + ([b] + ([c] + []));
    LastItem(c, [], 1);
    LastItem(b, [c] + [], 1);
    LastItem(a, [b] + ([c] + []), 1);
    NoLast(1);
  }

  lemma NoLast(num: nat)
    ensures Last(Items([]), num) == None
  {
  }

  lemma FindInOuter(sensor: Suid, inner: seq<Byte>)
    requires |inner| <= INNER_MAX && sensor.low < TWO_64 && sensor.high < TWO_64
    ensures RecordIn(Encode(OuterFields(sensor, inner)), 4) == Some(Encode([Record(2, inner)]))
  {
    hide Encode, Decode, Last, Items, InRange;
    var fs := OuterFields(sensor, inner);
    OuterInRange(sensor, inner);
    MessageRoundTrip(fs);
    var tail := [fs[4]] + [];
    LastItem(fs[4], [], 4);
    NoLast(4);
    LastItem(fs[3], tail, 4);
    LastItem(fs[2], [fs[3]] + tail, 4);
    LastItem(fs[1], [fs[2]] + ([fs[3]] + tail), 4);
    LastItem(fs[0], [fs[1]] + ([fs[2]] + ([fs[3]] + tail)), 4);
    assert fs == [fs[0]] + ([fs[1]] + ([fs[2]] + ([fs[3]] + tail)));
  }

  lemma OuterInRange(sensor: Suid, inner: seq<Byte>)
    requires |inner| <= INNER_MAX && sensor.low < TWO_64 && sensor.high < TWO_64
    ensures forall f :: f in OuterFields(sensor, inner) ==> InRange(f)
  {
    hide Encode, Tag, Varint;
    PairSize(Fixed64(1, sensor.low), Fixed64(2, sensor.high));
    PairSize(Number(1, CLIENT_APSS), Number(2, DELIVERY_WAKEUP));
    VarintSize(CLIENT_APSS);
    VarintSize(DELIVERY_WAKEUP);
    EncodeNothing();
    assert [Record(2, inner)] == [Record(2, inner)] + [];
    EncodeSize(Record(2, inner), []);
    RecordSize(2, inner);
  }
}
