/** Sensor attributes: what decode_attribute_value makes of a value message, and the map from
    attribute ids to values that an attribute event fills. */
module PbAttributes {
  import opened Integers
  import opened Wrappers
  import opened CString
  import opened Wire
  import opened SuidRequest
  import opened SuidEvents
  import opened SuidDelivery
  import opened SuidReports

  const ATTR_EVENT := 128         // SNS_STD_MSGID_SNS_STD_ATTR_EVENT

  /** struct attribute; a float is its 32 bits. */
  datatype Attribute = Attribute(
    hasSubtype: bool, subtype: seq<nat>,
    hasStr: bool, str: seq<Byte>,
    hasFlt: bool, flt: nat,
    hasSint: bool, sint: int,
    hasBoolean: bool, boolean: bool)

  const BLANK := Attribute(false, [], false, [], false, 0, false, 0, false, false)

  function Flags(a: Attribute): nat {
    (if a.hasSubtype then 1 else 0) + (if a.hasStr then 1 else 0) + (if a.hasFlt then 1 else 0)
    + (if a.hasSint then 1 else 0) + (if a.hasBoolean then 1 else 0)
  }

  function Signed64(n: nat): int {
    if n % TWO_64 < TWO_64 / 2 then n % TWO_64 else n % TWO_64 - TWO_64
  }

  function Signed32(n: nat): int {
    if n % TWO_32 < TWO_32 / 2 then n % TWO_32 else n % TWO_32 - TWO_32
  }

  // ---- decode_attribute_value ----

  /** The fields of sns_std_attr_value_data: subtype, str, flt, sint, boolean. */
  predicate DataTyped(f: Field) {
    && (f.num == 1 || f.num == 2 ==> f.Record?)
    && (f.num == 3 ==> f.Fixed32?)
    && (f.num == 4 ==> f.Fixed64?)
    && (f.num == 5 ==> f.Number?)
  }

  /** decode_attribute_value_subtype: the float of a nested value, if it has one. A subtype nested
      deeper still has to be readable, but its contents are skipped. */
  function NestedFloat(bs: seq<Byte>): Option<seq<nat>> {
    match Decode(bs)
    case None => None
    case Some(items) =>
      if forall i :: i in items ==> DataTyped(i.field) && (i.field.num == 1 ==> Decode(i.field.bytes).Some?) then
        match Last(items, 3)
        case Some(Item(Fixed32(_, bits), _)) => Some([bits])
        case _ => Some([])
      else None
  }

  /** The floats of the values in one sns_std_attr_value message. */
  function NestedFloats(items: seq<Item>): Option<seq<nat>> {
    if items == [] then Some([])
    else
      match NestedFloats(items[1..])
      case None => None
      case Some(floats) =>
        if items[0].field.num != 1 then Some(floats)
        else if !items[0].field.Record? then None
        else
          match NestedFloat(items[0].field.bytes)
          case None => None
          case Some(first) => Some(first + floats)
  }

  /** The floats of all subtype fields of a value. */
  function Subtypes(items: seq<Item>): Option<seq<nat>> {
    if items == [] then Some([])
    else
      match Subtypes(items[1..])
      case None => None
      case Some(floats) =>
        if items[0].field.num != 1 then Some(floats)
        else if !items[0].field.Record? then None
        else
          match Decode(items[0].field.bytes)
          case None => None
          case Some(inner) =>
            match NestedFloats(inner)
            case None => None
            case Some(first) => Some(first + floats)
  }

  /** The value message after pb_decode: the last of each field, and the floats of the subtypes. */
  datatype Data = Data(str: Option<seq<Byte>>, flt: Option<nat>, sint: Option<int>, boolean: Option<bool>,
                       hasSubtype: bool, floats: seq<nat>)

  function ReadData(bs: seq<Byte>): Option<Data> {
    match Decode(bs)
    case None => None
    case Some(items) =>
      if exists i :: i in items && !DataTyped(i.field) then None
      else
        match Subtypes(items)
        case None => None
        case Some(floats) => Some(Data(
          (match Last(items, 2) case Some(i) => Some(i.field.bytes) case None => None),
          (match Last(items, 3) case Some(i) => Some(i.field.value) case None => None),
          (match Last(items, 4) case Some(i) => Some(Signed64(i.field.value)) case None => None),
          (match Last(items, 5) case Some(i) => Some(i.field.value != 0) case None => None),
          Last(items, 1).Some?, floats))
  }

  /** A sensor's value as it was meant. */
  datatype Value = Str(text: seq<Byte>) | Flt(bits: nat) | Sint(n: int) | Boolean(b: bool) | Sub(floats: seq<nat>)

  function AttributeOf(v: Value): Attribute {
    match v
    case Str(text) => BLANK.(hasStr := true, str := text)
    case Flt(bits) => BLANK.(hasFlt := true, flt := bits)
    case Sint(n) => BLANK.(hasSint := true, sint := n)
    case Boolean(b) => BLANK.(hasBoolean := true, boolean := b)
    case Sub(floats) => BLANK.(hasSubtype := true, subtype := floats)
  }

  /** The kind that decode_attribute_value settles for: a non-empty string first, then float, integer,
      boolean and subtype; None where the message has none of these. */
  function Chosen(d: Data): Option<Value> {
    if d.str.Some? && d.str.value != [] then Some(Str(UpTo(d.str.value, 0)))
    else if d.flt.Some? then Some(Flt(d.flt.value))
    else if d.sint.Some? then Some(Sint(d.sint.value))
    else if d.boolean.Some? then Some(Boolean(d.boolean.value))
    else if d.hasSubtype then Some(Sub(d.floats))
    else None
  }

  /** The attribute of a value message. Floats of a subtype are kept even where another kind wins. */
  function Attributed(d: Data): Attribute {
    (match Chosen(d) case Some(v) => AttributeOf(v) case None => BLANK).(subtype := d.floats)
  }

  /** attributes with its decoder. */
  class Attributes {
    var values: seq<Attribute>

    constructor ()
      ensures values == []
    {
      values := [];
    }

    method DecodeAttributeValue(bs: seq<Byte>) returns (ok: bool)
      modifies this
      ensures ok == ReadData(bs).Some?
      ensures values == old(values) + match ReadData(bs) case None => [] case Some(d) => [Attributed(d)]
    {
      hide Decode, Last, Subtypes, UpTo, ReadData;
      var data := ReadData(bs);
      if data.None? {
        return false;
      }
      var attr := data.value;
      var newAttr := BLANK.(subtype := attr.floats);
      if attr.str.Some? && |attr.str.value| > 0 {
        newAttr := newAttr.(str := UpTo(attr.str.value, 0), hasStr := true);
      } else if attr.flt.Some? {
        newAttr := newAttr.(flt := attr.flt.value, hasFlt := true);
      } else if attr.sint.Some? {
        newAttr := newAttr.(sint := attr.sint.value, hasSint := true);
      } else if attr.boolean.Some? {
        newAttr := newAttr.(boolean := attr.boolean.value, hasBoolean := true);
      } else if attr.hasSubtype {
        newAttr := newAttr.(hasSubtype := true);
      }
      values := values + [newAttr];
      return true;
    }
  }

  // ---- the flags ----

  /** At most one flag is set, and exactly one when the message has a field other than an empty
      string. */
  lemma OneFlag(bs: seq<Byte>)
    requires ReadData(bs).Some?
    ensures Flags(Attributed(ReadData(bs).value)) <= 1
    ensures Flags(Attributed(ReadData(bs).value)) == 1
       <==> exists i :: i in Decode(bs).value && (i.field.num in {1, 3, 4, 5}
                        || (Last(Decode(bs).value, 2) == Some(i) && i.field.bytes != []))
  {
    hide Decode, Last, Subtypes, UpTo;
    var items := Decode(bs).value;
    var d := ReadData(bs).value;
    FlagsOf(d);
    if Chosen(d).None? {
      assert Last(items, 1) == Last(items, 3) == Last(items, 4) == Last(items, 5) == None;
    } else {
      var i := if d.str.Some? && d.str.value != [] then Last(items, 2)
               else if d.flt.Some? then Last(items, 3)
               else if d.sint.Some? then Last(items, 4)
               else if d.boolean.Some? then Last(items, 5)
               else Last(items, 1);
      assert i.value in items;
    }
  }

  /** On every byte string that decodes: a kind counts only when the message has no field of an earlier
      kind, in the order string (if not empty), float, integer, boolean, subtype; its value is that of
      the last such field. */
  lemma KindOrder(bs: seq<Byte>)
    requires ReadData(bs).Some?
    ensures var items := Decode(bs).value;
            var a := Attributed(ReadData(bs).value);
            var str, flt, sint, boolean := Last(items, 2), Last(items, 3), Last(items, 4), Last(items, 5);
            var text := if str.Some? && str.value.field.Record? then str.value.field.bytes else [];
            && a.hasStr == (text != []) && (a.hasStr ==> a.str == UpTo(text, 0))
            && a.hasFlt == (flt.Some? && !a.hasStr)
            && (a.hasFlt ==> flt.value.field == Fixed32(3, a.flt))
            && a.hasSint == (sint.Some? && !a.hasStr && !a.hasFlt)
            && (a.hasSint ==> sint.value.field.Fixed64? && a.sint == Signed64(sint.value.field.value))
            && a.hasBoolean == (boolean.Some? && !a.hasStr && !a.hasFlt && !a.hasSint)
            && (a.hasBoolean ==> boolean.value.field.Number? && a.boolean == (boolean.value.field.value != 0))
            && a.hasSubtype == (Last(items, 1).Some? && !a.hasStr && !a.hasFlt && !a.hasSint && !a.hasBoolean)
  {
    hide Decode, Last, Subtypes, UpTo, Signed64;
  }

  lemma FlagsOf(d: Data)
    ensures Flags(Attributed(d)) == if Chosen(d).Some? then 1 else 0
  {
    hide UpTo;
  }

  /** Every field of the attribute: the one of the first kind there is, the floats of the subtypes in
      any case, and zero, false or empty everywhere else. */
  lemma AttributedExactly(d: Data)
    ensures var str := d.str.Some? && d.str.value != [];
            var flt := !str && d.flt.Some?;
            var sint := !str && !flt && d.sint.Some?;
            var boolean := !str && !flt && !sint && d.boolean.Some?;
            Attributed(d)
            == Attribute(!str && !flt && !sint && !boolean && d.hasSubtype, d.floats,
                         str, if str then UpTo(d.str.value, 0) else [],
                         flt, if flt then d.flt.value else 0,
                         sint, if sint then d.sint.value else 0,
                         boolean, boolean && d.boolean.value)
  {
    hide UpTo;
  }

  /** An empty message and a message with an empty string set no flag at all. */
  lemma NoFlag()
    ensures ReadData([]).Some? && Flags(Attributed(ReadData([]).value)) == 0
    ensures var empty := Encode([Record(2, [])]);
            ReadData(empty).Some? && Flags(Attributed(ReadData(empty).value)) == 0
  {
    hide UpTo, Encode, Decode, Last, Items, Subtypes;
    NothingDecoded();
    var f := Record(2, []);
    MessageRoundTrip([f]);
    OneItem(f);
    OneSubtype(f);
  }

  lemma NothingDecoded()
    ensures Decode([]) == Some([]) && Subtypes([]) == Some([])
    ensures forall num: nat :: Last([], num) == None
  {
  }

  // ---- values on the wire ----

  function FloatRecords(floats: seq<nat>): (r: seq<Field>)
    ensures |r| == |floats|
  {
    if floats == [] then [] else [Record(1, Encode([Fixed32(3, floats[0])]))] + FloatRecords(floats[1..])
  }

  function ValueField(v: Value): Field {
    match v
    case Str(text) => Record(2, text)
    case Flt(bits) => Fixed32(3, bits)
    case Sint(n) => Fixed64(4, n % TWO_64)
    case Boolean(b) => Number(5, if b then 1 else 0)
    case Sub(floats) => Record(1, Encode(FloatRecords(floats)))
  }

  predicate ValueFits(v: Value) {
    match v
    case Str(text) => text != [] && 0 !in text && |text| < TWO_64
    case Flt(bits) => bits < TWO_32
    case Sint(n) => -TWO_64 / 2 <= n < TWO_64 / 2
    case Boolean(_) => true
    case Sub(floats) => (forall f :: f in floats ==> f < TWO_32) && |Encode(FloatRecords(floats))| < TWO_64
  }

  lemma UpToAll(bs: seq<Byte>)
    requires 0 !in bs
    ensures UpTo(bs, 0) == bs
  {
    assert bs[..|bs|] == bs;
    UpToIs(bs, 0, |bs|);
  }

  lemma FloatRoundTrip(bits: nat)
    requires bits < TWO_32
    ensures NestedFloat(Encode([Fixed32(3, bits)])) == Some([bits])
    ensures |Encode([Fixed32(3, bits)])| == 5
  {
    hide Encode, Decode, Last, Items;
    var f := Fixed32(3, bits);
    MessageRoundTrip([f]);
    OneItem(f);
    assert [f] == [f] + [];
    EncodeSize(f, []);
    EncodeNothing();
    TagSize(f);
  }

  /** A message of one field: its items, and what Last finds in them. */
  lemma OneItem(f: Field)
    ensures Items([f]) == [Item(f, [])]
    ensures forall num: nat :: Last(Items([f]), num) == if f.num == num then Some(Item(f, [])) else None
  {
    EncodeNothing();
    assert [f][1..] == [];
    var items := [Item(f, [])];
    assert items[1..] == [];
  }

  lemma {:induction false} FloatsRoundTrip(floats: seq<nat>)
    requires forall f :: f in floats ==> f < TWO_32
    ensures NestedFloats(Items(FloatRecords(floats))) == Some(floats)
    ensures forall f :: f in FloatRecords(floats) ==> InRange(f)
  {
    hide Encode, NestedFloat;
    if floats == [] {
    } else {
      assert floats[0] in floats;
      FloatRoundTrip(floats[0]);
      assert forall f :: f in floats[1..] ==> f in floats;
      FloatsRoundTrip(floats[1..]);
      assert FloatRecords(floats)[1..] == FloatRecords(floats[1..]);
      assert floats == [floats[0]] + floats[1..];
    }
  }

  /** A value sent alone in its message comes back as the attribute of its kind. */
  lemma ValueRoundTrip(v: Value)
    requires ValueFits(v)
    ensures ReadData(Encode([ValueField(v)])).Some?
    ensures Attributed(ReadData(Encode([ValueField(v)])).value) == AttributeOf(v)
    ensures InRange(ValueField(v))
  {
    hide Encode, Decode, Last, Items, FloatRecords, UpTo, NestedFloats;
    var f := ValueField(v);
    MessageRoundTrip([f]);
    OneItem(f);
    OneSubtype(f);
    if v.Str? {
      UpToAll(v.text);
    }
    if v.Sub? {
      FloatsRoundTrip(v.floats);
      MessageRoundTrip(FloatRecords(v.floats));
    }
  }

  lemma OneSubtype(f: Field)
    ensures Subtypes([Item(f, [])]) == if f.num != 1 then Some([])
                                       else if !f.Record? then None
                                       else match Decode(f.bytes)
                                            case None => None
                                            case Some(inner) => NestedFloats(inner)
  {
    hide Decode, NestedFloats;
    var items := [Item(f, [])];
    assert items[1..] == [];
    assert Subtypes(items[1..]) == Some([]);
    if f.num == 1 && f.Record? && Decode(f.bytes).Some? && NestedFloats(Decode(f.bytes).value).Some? {
      var floats := NestedFloats(Decode(f.bytes).value).value;
      assert floats + [] == floats;
    }
  }

  // ---- several values in one message ----

  function ValueFields(vs: seq<Value>): (r: seq<Field>)
    ensures |r| == |vs|
  {
    if vs == [] then [] else [ValueField(vs[0])] + ValueFields(vs[1..])
  }

  /** The order in which the kinds of a message are looked at: string, float, integer, boolean, subtype. */
  function Rank(v: Value): nat {
    match v case Str(_) => 2 case Flt(_) => 3 case Sint(_) => 4 case Boolean(_) => 5 case Sub(_) => 6
  }

  /** Value k has the lowest rank, and is the last one of its rank. */
  predicate Wins(vs: seq<Value>, k: nat) {
    && k < |vs|
    && (forall j :: 0 <= j < |vs| ==> Rank(vs[k]) <= Rank(vs[j]))
    && (forall j :: k < j < |vs| ==> Rank(vs[j]) != Rank(vs[k]))
  }

  function AllFloats(vs: seq<Value>): seq<nat> {
    if vs == [] then [] else (if vs[0].Sub? then vs[0].floats else []) + AllFloats(vs[1..])
  }

  function LastRanked(vs: seq<Value>, rank: nat): (r: Option<Value>)
    ensures r.Some? ==> r.value in vs && Rank(r.value) == rank
    ensures r.None? ==> forall v :: v in vs ==> Rank(v) != rank
  {
    if vs == [] then None
    else
      match LastRanked(vs[1..], rank)
      case Some(v) => Some(v)
      case None => if Rank(vs[0]) == rank then Some(vs[0]) else None
  }

  lemma {:induction false} WinnerIsLast(vs: seq<Value>, k: nat)
    requires k < |vs| && forall j :: k < j < |vs| ==> Rank(vs[j]) != Rank(vs[k])
    ensures LastRanked(vs, Rank(vs[k])) == Some(vs[k])
  {
    hide Rank;
    if k > 0 {
      WinnerIsLast(vs[1..], k - 1);
    }
  }

  function NumOf(rank: nat): nat {
    if rank == 6 then 1 else rank
  }

  lemma {:induction false} LastValue(vs: seq<Value>, rank: nat)
    requires 2 <= rank <= 6
    ensures var i := Last(Items(ValueFields(vs)), NumOf(rank));
            match LastRanked(vs, rank) case None => i.None? case Some(v) => i.Some? && i.value.field == ValueField(v)
  {
    if vs == [] {
      NoLast(NumOf(rank));
    } else {
      ValueNum(vs[0]);
      hide Encode, ValueField, Last, Items;
      LastValue(vs[1..], rank);
      LastItem(ValueField(vs[0]), ValueFields(vs[1..]), NumOf(rank));
    }
  }

  lemma ValueNum(v: Value)
    ensures ValueField(v).num == NumOf(Rank(v)) && 2 <= Rank(v) <= 6
    ensures DataTyped(ValueField(v))
  {
    hide Encode;
  }

  lemma {:induction false} FloatsOfAll(vs: seq<Value>)
    requires forall v :: v in vs ==> ValueFits(v)
    ensures Subtypes(Items(ValueFields(vs))) == Some(AllFloats(vs))
    ensures forall f :: f in ValueFields(vs) ==> InRange(f) && DataTyped(f)
  {
    hide Encode, Decode, NestedFloats, FloatRecords, InRange, DataTyped, ValueField, ValueFits;
    if vs == [] {
    } else {
      var v, fs := vs[0], ValueFields(vs[1..]);
      assert v in vs && forall o :: o in vs[1..] ==> o in vs;
      FloatsOfAll(vs[1..]);
      FloatsOfOne(v);
      ValueNum(v);
      assert ValueFields(vs)[1..] == fs;
      assert Items(ValueFields(vs))[1..] == Items(fs);
      assert [] + AllFloats(vs[1..]) == AllFloats(vs[1..]);
    }
  }

  lemma FloatsOfOne(v: Value)
    requires ValueFits(v)
    ensures InRange(ValueField(v)) && (ValueField(v).num == 1 <==> v.Sub?)
    ensures v.Sub? ==> ValueField(v).Record? && Decode(ValueField(v).bytes).Some?
                       && NestedFloats(Decode(ValueField(v).bytes).value) == Some(v.floats)
  {
    ValueRoundTrip(v);
    hide Encode, Decode, NestedFloats, InRange, FloatRecords;
    if v.Sub? {
      FloatsRoundTrip(v.floats);
      MessageRoundTrip(FloatRecords(v.floats));
    }
  }

  /** A message with any values, several kinds and repetitions included: the attribute is that of the
      last value of the first kind there is, and has the floats of all subtypes. */
  lemma MixedRoundTrip(vs: seq<Value>)
    requires forall v :: v in vs ==> ValueFits(v)
    ensures ReadData(Encode(ValueFields(vs))).Some?
    ensures var a := Attributed(ReadData(Encode(ValueFields(vs))).value);
            && (vs == [] ==> a == BLANK)
            && forall k: nat :: k < |vs| && Wins(vs, k) ==> a == AttributeOf(vs[k]).(subtype := AllFloats(vs))
  {
    hide Encode, Decode, Last, Items, ValueFields, Subtypes, DataTyped, InRange, ValueFits, AllFloats, UpTo,
         LastRanked, Wins;
    var fs := ValueFields(vs);
    FloatsOfAll(vs);
    MessageRoundTrip(fs);
    FieldsOf(fs);
    MixedData(vs);
    if vs == [] {
      NoValues();
    }
    forall k: nat | k < |vs| && Wins(vs, k)
      ensures Attributed(ReadData(Encode(fs)).value) == AttributeOf(vs[k]).(subtype := AllFloats(vs))
    {
      WinnerChosen(vs, k, ReadData(Encode(fs)).value);
    }
  }

  lemma NoValues()
    ensures AllFloats([]) == [] && forall rank :: LastRanked([], rank) == None
  {
  }

  /** A message read back holds the last value of each kind. */
  predicate Holds(d: Data, vs: seq<Value>) {
    && d.str == (match LastRanked(vs, 2) case Some(Str(text)) => Some(text) case _ => None)
    && d.flt == (match LastRanked(vs, 3) case Some(Flt(bits)) => Some(bits) case _ => None)
    && d.sint == (match LastRanked(vs, 4) case Some(Sint(n)) => Some(n) case _ => None)
    && d.boolean == (match LastRanked(vs, 5) case Some(Boolean(b)) => Some(b) case _ => None)
    && (d.hasSubtype <==> LastRanked(vs, 6).Some?)
    && d.floats == AllFloats(vs)
  }

  lemma MixedData(vs: seq<Value>)
    requires (forall v :: v in vs ==> ValueFits(v)) && Decode(Encode(ValueFields(vs))) == Some(Items(ValueFields(vs)))
    requires Subtypes(Items(ValueFields(vs))) == Some(AllFloats(vs))
    requires forall i :: i in Items(ValueFields(vs)) ==> DataTyped(i.field)
    ensures var d := ReadData(Encode(ValueFields(vs))); d.Some? && Holds(d.value, vs)
  {
    hide Encode, Decode, Items, Last, LastRanked, ValueFields, ValueFits, Subtypes, AllFloats, DataTyped, Signed64;
    var items := Items(ValueFields(vs));
    StrData(vs);
    NumberData(vs);
    SintData(vs);
    LastValue(vs, 6);
  }

  lemma StrData(vs: seq<Value>)
    ensures var i := Last(Items(ValueFields(vs)), 2);
            match LastRanked(vs, 2)
            case Some(v) => v.Str? && i.Some? && i.value.field == Record(2, v.text)
            case None => i == None
  {
    hide Encode, Items, Last, ValueFields;
    LastValue(vs, 2);
  }

  lemma NumberData(vs: seq<Value>)
    ensures var i := Last(Items(ValueFields(vs)), 3);
            match LastRanked(vs, 3)
            case Some(v) => v.Flt? && i.Some? && i.value.field == Fixed32(3, v.bits)
            case None => i == None
    ensures var i := Last(Items(ValueFields(vs)), 5);
            match LastRanked(vs, 5)
            case Some(v) => v.Boolean? && i.Some? && i.value.field == Number(5, if v.b then 1 else 0)
            case None => i == None
  {
    hide Encode, Items, Last, ValueFields;
    LastValue(vs, 3);
    LastValue(vs, 5);
  }

  lemma SintData(vs: seq<Value>)
    requires forall v :: v in vs ==> ValueFits(v)
    ensures var i := Last(Items(ValueFields(vs)), 4);
            match LastRanked(vs, 4)
            case Some(v) => v.Sint? && i.Some? && i.value.field.Fixed64? && Signed64(i.value.field.value) == v.n
            case None => i == None
  {
    hide Encode, Items, Last, ValueFields, FloatRecords;
    LastValue(vs, 4);
  }

  lemma WinnerChosen(vs: seq<Value>, k: nat, d: Data)
    requires (forall v :: v in vs ==> ValueFits(v)) && Holds(d, vs) && Wins(vs, k)
    ensures Attributed(d) == AttributeOf(vs[k]).(subtype := AllFloats(vs))
  {
    hide UpTo, AllFloats, Encode, FloatRecords;
    WinnerIsLast(vs, k);
    var v := vs[k];
    assert v in vs;
    forall rank: nat | rank < Rank(v)
      ensures LastRanked(vs, rank) == None
    {
      LowerRank(vs, k, rank);
    }
    if v.Str? {
      UpToAll(v.text);
    }
  }

  lemma LowerRank(vs: seq<Value>, k: nat, rank: nat)
    requires Wins(vs, k) && rank < Rank(vs[k])
    ensures LastRanked(vs, rank) == None
  {
    hide Rank;
  }

  // ---- decode_attribute ----

  /** The values of one sns_std_attr_value message in order. */
  function ReadValues(items: seq<Item>): Option<seq<Attribute>> {
    if items == [] then Some([])
    else
      match ReadValues(items[1..])
      case None => None
      case Some(values) =>
        if items[0].field.num != 1 then Some(values)
        else if !items[0].field.Record? then None
        else
          match ReadData(items[0].field.bytes)
          case None => None
          case Some(d) => Some([Attributed(d)] + values)
  }

  /** The values of all value fields of an attribute. */
  function AllValues(items: seq<Item>): Option<seq<Attribute>> {
    if items == [] then Some([])
    else
      match AllValues(items[1..])
      case None => None
      case Some(values) =>
        if items[0].field.num != 2 then Some(values)
        else if !items[0].field.Record? then None
        else
          match Decode(items[0].field.bytes)
          case None => None
          case Some(inner) =>
            match ReadValues(inner)
            case None => None
            case Some(first) => Some(first + values)
  }

  /** sns_std_attr: an id and a value are required. */
  function ReadAttribute(bs: seq<Byte>): Option<(int, seq<Attribute>)> {
    match Decode(bs)
    case None => None
    case Some(items) =>
      if forall i :: i in items && i.field.num == 1 ==> i.field.Number? then
        match (Last(items, 1), Last(items, 2), AllValues(items))
        case (Some(Item(Number(_, id), _)), Some(_), Some(values)) => Some((Signed32(id), values))
        case _ => None
      else None
  }

  /** The map after an attribute event's fields, as far as the decoder gets. */
  datatype Filled = Filled(entries: map<int, seq<Attribute>>, ok: bool)

  function Fill(m: map<int, seq<Attribute>>, bs: seq<Byte>): Filled
    decreases |bs|
  {
    if bs == [] then Filled(m, true)
    else
      match DecodeField(bs)
      case Nothing => Filled(m, false)
      case Got(f, rest) =>
        if f.num != 1 then Fill(m, rest)
        else if !f.Record? then Filled(m, false)
        else
          match ReadAttribute(f.bytes)
          case None => Filled(m, false)
          case Some((id, values)) => Fill(m[id := values], rest)
  }

  /** sensor_attributes with its decoders. */
  class SensorAttributes {
    var entries: map<int, seq<Attribute>>

    constructor ()
      ensures entries == map[]
    {
      entries := map[];
    }

    /** decode_attribute: a later attribute with the same id overwrites. */
    method DecodeAttribute(bs: seq<Byte>) returns (ok: bool)
      modifies this
      ensures ok == ReadAttribute(bs).Some?
      ensures match ReadAttribute(bs)
              case None => entries == old(entries)
              case Some((id, values)) => entries == old(entries)[id := values]
    {
      hide ReadAttribute;
      match ReadAttribute(bs)
      case None =>
        ok := false;
      case Some((id, values)) =>
        entries := entries[id := values];
        ok := true;
    }

    /** decode_attributes: other events leave the map alone. */
    method DecodeAttributes(event: seq<Byte>) returns (ok: bool)
      modifies this
      ensures match ReadEvent(event)
              case Some(ClientEvent(id, payload, _)) =>
                if id == 128 then Filled(entries, ok) == Fill(old(entries), payload)
                else ok && entries == old(entries)
              case None => ok && entries == old(entries)
    {
      hide ReadEvent, DecodeField, ReadAttribute;
      var read := ReadEvent(event);
      var msgId := if read.Some? then read.value.msgId else 0;
      if msgId != ATTR_EVENT {
        return true;
      }
      var stream := read.value.payload;
      while stream != []
        invariant Fill(entries, stream) == Fill(old(entries), read.value.payload)
        decreases |stream|
      {
        var field := DecodeField(stream);
        if field.Nothing? {
          return false;
        }
        if field.value.num == 1 {
          if !field.value.Record? {
            return false;
          }
          var decoded := DecodeAttribute(field.value.bytes);
          if !decoded {
            return false;
          }
        }
        stream := field.rest;
      }
      return true;
    }
  }

  // ---- an attribute event, sent and read ----

  datatype SentAttribute = SentAttribute(id: int, values: seq<Value>)

  function ValueRecords(values: seq<Value>): (r: seq<Field>)
    ensures |r| == |values|
  {
    if values == [] then [] else [Record(1, Encode([ValueField(values[0])]))] + ValueRecords(values[1..])
  }

  function AttributeBytes(a: SentAttribute): seq<Byte> {
    Encode([Number(1, a.id % TWO_64), Record(2, Encode(ValueRecords(a.values)))])
  }

  function AttributeRecords(attrs: seq<SentAttribute>): (r: seq<Field>)
    ensures |r| == |attrs|
  {
    if attrs == [] then [] else [Record(1, AttributeBytes(attrs[0]))] + AttributeRecords(attrs[1..])
  }

  predicate AttributeFits(a: SentAttribute) {
    && -TWO_32 / 2 <= a.id < TWO_32 / 2
    && (forall v :: v in a.values ==> ValueFits(v) && |Encode([ValueField(v)])| < TWO_64)
    && |Encode(ValueRecords(a.values))| < TWO_64
    && |AttributeBytes(a)| < TWO_64
  }

  function AttributesOf(values: seq<Value>): (r: seq<Attribute>)
    ensures |r| == |values|
  {
    seq(|values|, i requires 0 <= i < |values| => AttributeOf(values[i]))
  }

  /** The map a list of attributes describes: the last one with an id counts. */
  function Described(m: map<int, seq<Attribute>>, attrs: seq<SentAttribute>, id: int): Option<seq<Attribute>> {
    if attrs == [] then (if id in m then Some(m[id]) else None)
    else
      var last := attrs[|attrs| - 1];
      if last.id == id then Some(AttributesOf(last.values)) else Described(m, attrs[..|attrs| - 1], id)
  }

  lemma {:induction false} DescribedShift(m: map<int, seq<Attribute>>, attrs: seq<SentAttribute>, id: int)
    requires attrs != []
    ensures Described(m, attrs, id) == Described(m[attrs[0].id := AttributesOf(attrs[0].values)], attrs[1..], id)
  {
    hide AttributesOf;
    if |attrs| > 1 {
      DescribedShift(m, attrs[..|attrs| - 1], id);
      assert attrs[1..][..|attrs| - 2] == attrs[..|attrs| - 1][1..];
    } else {
      assert attrs[1..] == [] && attrs[..0] == [];
    }
  }

  lemma {:induction false} ValuesRoundTrip(values: seq<Value>)
    requires forall v :: v in values ==> ValueFits(v) && |Encode([ValueField(v)])| < TWO_64
    ensures ReadValues(Items(ValueRecords(values))) == Some(AttributesOf(values))
    ensures forall f :: f in ValueRecords(values) ==> InRange(f)
  {
    hide Encode, ReadData, Attributed, AttributeOf, ValueField, ValueFits;
    if values == [] {
    } else {
      assert values[0] in values;
      assert forall v :: v in values[1..] ==> v in values;
      ValueRoundTrip(values[0]);
      ValuesRoundTrip(values[1..]);
      assert ValueRecords(values)[1..] == ValueRecords(values[1..]);
      assert AttributesOf(values) == [AttributeOf(values[0])] + AttributesOf(values[1..]);
    }
  }

  lemma SignedId(id: int)
    requires -TWO_32 / 2 <= id < TWO_32 / 2
    ensures Signed32(id % TWO_64) == id
  {
  }

  lemma AttributeRoundTrip(a: SentAttribute)
    requires AttributeFits(a)
    ensures ReadAttribute(AttributeBytes(a)) == Some((a.id, AttributesOf(a.values)))
  {
    hide Encode, Decode, Last, Items, ValueRecords, AttributesOf, Signed32, ValueFits, ReadValues;
    var id, value := Number(1, a.id % TWO_64), Record(2, Encode(ValueRecords(a.values)));
    ValuesRoundTrip(a.values);
    MessageRoundTrip(ValueRecords(a.values));
    MessageRoundTrip([id, value]);
    LastOfTwo(id, value, 1);
    LastOfTwo(id, value, 2);
    TwoValues(id, value);
    FieldsOf([id, value]);
    SignedId(a.id);
  }

  lemma LastOfTwo(a: Field, b: Field, num: nat)
    ensures Last(Items([a, b]), num) == if b.num == num then Some(Item(b, Encode([])))
                                        else if a.num == num then Some(Item(a, Encode([b] + [])))
                                        else None
  {
    hide Encode, Last, Items;
    assert [a, b] == [a] + ([b] + []);
    NoLast(num);
    LastItem(b, [], num);
    LastItem(a, [b] + [], num);
  }

  lemma TwoValues(id: Field, value: Field)
    requires id.num == 1 && value.Record? && value.num == 2
    requires Decode(value.bytes).Some? && ReadValues(Decode(value.bytes).value).Some?
    ensures AllValues(Items([id, value])) == ReadValues(Decode(value.bytes).value)
  {
    hide Encode, Decode, ReadValues;
    var items := Items([id, value]);
    FieldsOf([id, value]);
    assert items[1..][1..] == [];
    var values := ReadValues(Decode(value.bytes).value).value;
    assert AllValues(items[1..][1..]) == Some([]);
    assert AllValues(items[1..]) == Some(values + []);
    assert values + [] == values;
  }

  lemma FillStep(m: map<int, seq<Attribute>>, attrs: seq<SentAttribute>)
    requires attrs != [] && AttributeFits(attrs[0])
    ensures Fill(m, Encode(AttributeRecords(attrs)))
         == Fill(m[attrs[0].id := AttributesOf(attrs[0].values)], Encode(AttributeRecords(attrs[1..])))
  {
    AttributeRoundTrip(attrs[0]);
    hide Encode, DecodeField, ReadAttribute, AttributesOf, AttributeBytes;
    ReadsField(Record(1, AttributeBytes(attrs[0])), AttributeRecords(attrs[1..]));
    EncodeNonEmpty(AttributeRecords(attrs));
  }

  /** An event with any list of attributes fills the map with exactly what the list describes. */
  lemma {:induction false} AttributesRoundTrip(m: map<int, seq<Attribute>>, attrs: seq<SentAttribute>)
    requires forall a :: a in attrs ==> AttributeFits(a)
    ensures var filled := Fill(m, Encode(AttributeRecords(attrs)));
            && filled.ok
            && forall id :: Described(m, attrs, id) == if id in filled.entries then Some(filled.entries[id]) else None
    decreases |attrs|
  {
    hide Encode, Fill, AttributesOf, AttributeFits, AttributeRecords, Described;
    if attrs == [] {
      NothingFilled(m);
    } else {
      assert attrs[0] in attrs;
      assert forall a :: a in attrs[1..] ==> a in attrs;
      FillStep(m, attrs);
      var next := m[attrs[0].id := AttributesOf(attrs[0].values)];
      AttributesRoundTrip(next, attrs[1..]);
      forall id
        ensures Described(m, attrs, id) == Described(next, attrs[1..], id)
      {
        DescribedShift(m, attrs, id);
      }
    }
  }

  lemma NothingFilled(m: map<int, seq<Attribute>>)
    ensures Fill(m, Encode(AttributeRecords([]))) == Filled(m, true)
    ensures forall id :: Described(m, [], id) == if id in m then Some(m[id]) else None
  {
  }
}
