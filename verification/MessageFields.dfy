/** What the decoders make of a message with any fields in any order: which messages they accept, and that
    of several fields with one number the last one counts. */
module MessageFields {
  import opened Integers
  import opened Wrappers
  import opened Wire
  import opened SuidRequest
  import opened SuidEvents
  import opened SuidDelivery
  import opened SuidReports
  import opened PbAttributes

  predicate AllInRange(fs: seq<Field>) {
    forall f :: f in fs ==> InRange(f)
  }

  /** The last field with a number. */
  function LastOf(fs: seq<Field>, num: nat): (r: Option<Field>)
    ensures r.Some? ==> r.value in fs && r.value.num == num
    ensures r.None? ==> forall f :: f in fs ==> f.num != num
  {
    if fs == [] then None
    else if fs[|fs| - 1].num == num then Some(fs[|fs| - 1])
    else LastOf(fs[..|fs| - 1], num)
  }

  lemma {:induction false} LastOfCons(f: Field, fs: seq<Field>, num: nat)
    ensures LastOf([f] + fs, num)
         == if LastOf(fs, num).Some? then LastOf(fs, num) else if f.num == num then Some(f) else None
    decreases |fs|
  {
    if fs == [] {
      assert [f] + fs == [f];
    } else {
      assert ([f] + fs)[..|fs|] == [f] + fs[..|fs| - 1];
      LastOfCons(f, fs[..|fs| - 1], num);
    }
  }

  lemma {:induction false} LastOfItems(fs: seq<Field>, num: nat)
    ensures match Last(Items(fs), num)
            case None => LastOf(fs, num) == None
            case Some(i) => LastOf(fs, num) == Some(i.field)
  {
    hide Encode, Last, Items, LastOf;
    if fs == [] {
      NoLast(num);
      NoLastOf(num);
    } else {
      LastOfItems(fs[1..], num);
      LastItem(fs[0], fs[1..], num);
      LastOfCons(fs[0], fs[1..], num);
      assert fs == [fs[0]] + fs[1..];
    }
  }

  lemma NoLastOf(num: nat)
    ensures LastOf([], num) == None
  {
  }

  lemma ItemIn(fs: seq<Field>)
    ensures forall i :: i in Items(fs) ==> i.field in fs
    ensures forall f :: f in fs ==> exists i :: i in Items(fs) && i.field == f
  {
    hide Items;
    FieldsOf(fs);
    forall f | f in fs
      ensures exists i :: i in Items(fs) && i.field == f
    {
      var k :| 0 <= k < |fs| && fs[k] == f;
      assert Items(fs)[k] in Items(fs);
    }
  }

  // ---- sns_std_suid ----

  predicate SuidTypes(fs: seq<Field>) {
    forall f :: f in fs && (f.num == 1 || f.num == 2) ==> f.Fixed64?
  }

  /** A suid is read exactly if all fields 1 and 2 are eight-byte numbers and there is one of each. */
  lemma SuidOfFields(fs: seq<Field>)
    requires AllInRange(fs)
    ensures var low, high := LastOf(fs, 1), LastOf(fs, 2);
            ReadSuid(Encode(fs)) == if SuidTypes(fs) && low.Some? && high.Some?
                                    then Some(Suid(low.value.value, high.value.value)) else None
  {
    hide Encode, Decode, Last, LastOf, Items, InRange;
    MessageRoundTrip(fs);
    ItemIn(fs);
    LastOfItems(fs, 1);
    LastOfItems(fs, 2);
    SuidTypesIs(fs);
  }

  lemma SuidTypesIs(fs: seq<Field>)
    ensures SuidTypes(fs) <==> forall i :: i in Items(fs) ==> SuidTyped(i.field)
  {
    hide Items;
    ItemIn(fs);
  }

  // ---- sns_client_event ----

  predicate EventTypes(fs: seq<Field>) {
    && (forall f :: f in fs && f.num == 1 ==> f.Fixed32?)
    && (forall f :: f in fs && f.num == 2 ==> f.Fixed64?)
    && (forall f :: f in fs && f.num == 3 ==> f.Record?)
  }

  /** A client event is read exactly if its id, timestamp and payload are there and of their types; the
      last of each counts, and fields with other numbers do not matter. */
  lemma EventOfFields(fs: seq<Field>)
    requires AllInRange(fs)
    ensures var id, time, payload := LastOf(fs, 1), LastOf(fs, 2), LastOf(fs, 3);
            var event := ReadEvent(Encode(fs));
            if EventTypes(fs) && id.Some? && time.Some? && payload.Some?
            then event.Some? && event.value.msgId == id.value.value && event.value.payload == payload.value.bytes
            else event == None
  {
    hide Encode, Decode, Last, LastOf, Items, InRange;
    MessageRoundTrip(fs);
    ItemIn(fs);
    LastOfItems(fs, 1);
    LastOfItems(fs, 2);
    LastOfItems(fs, 3);
    EventTypesIs(fs);
  }

  lemma EventTypesIs(fs: seq<Field>)
    ensures EventTypes(fs) <==> forall i :: i in Items(fs) ==> EventTyped(i.field)
  {
    hide Items;
    ItemIn(fs);
  }

  // ---- sns_suid_event ----

  function WithNum(fs: seq<Field>, num: nat): (r: seq<Field>)
    ensures forall f :: f in r <==> f in fs && f.num == num
  {
    if fs == [] then [] else (if fs[0].num == num then [fs[0]] else []) + WithNum(fs[1..], num)
  }

  /** The suid in a field. */
  function SuidIn(f: Field): Option<Suid> {
    if f.Record? then ReadSuid(f.bytes) else None
  }

  lemma {:induction false} SuidsOfFields(fs: seq<Field>)
    ensures var suids := ReadSuids(Items(fs));
            var records := WithNum(fs, 2);
            if forall f :: f in records ==> SuidIn(f).Some?
            then suids.Some? && |suids.value| == |records|
                 && forall i :: 0 <= i < |records| ==> SuidIn(records[i]) == Some(suids.value[i])
            else suids == None
  {
    hide Encode, ReadSuid, ReadSuids, Items, SuidIn, WithNum;
    if fs == [] {
      NoSuids();
    } else {
      SuidsOfFields(fs[1..]);
      SuidsCons(fs);
      var records, others := WithNum(fs, 2), WithNum(fs[1..], 2);
      if fs[0].num == 2 {
        assert records == [fs[0]] + others && records[0] in records;
        assert forall f :: f in records <==> f == fs[0] || f in others;
      }
    }
  }

  lemma NoSuids()
    ensures ReadSuids(Items([])) == Some([]) && WithNum([], 2) == []
  {
  }

  lemma SuidsCons(fs: seq<Field>)
    requires fs != []
    ensures WithNum(fs, 2) == (if fs[0].num == 2 then [fs[0]] else []) + WithNum(fs[1..], 2)
    ensures ReadSuids(Items(fs)) == match ReadSuids(Items(fs[1..]))
                                    case None => None
                                    case Some(suids) =>
                                      if fs[0].num != 2 then Some(suids)
                                      else match SuidIn(fs[0]) case None => None case Some(s) => Some([s] + suids)
  {
    hide Encode, ReadSuid;
    assert Items(fs)[1..] == Items(fs[1..]);
  }

  /** A SUID event is read exactly if every datatype is a record and there is one, and every suid is one
      that is read; the last datatype counts, and all suids in their order. */
  lemma SuidEventOfFields(fs: seq<Field>)
    requires AllInRange(fs)
    ensures var name, records := LastOf(fs, 1), WithNum(fs, 2);
            var event := ReadSuidEvent(Encode(fs));
            if (forall f :: f in fs && f.num == 1 ==> f.Record?) && name.Some?
                && (forall f :: f in records ==> SuidIn(f).Some?)
            then event.Some? && event.value.name == name.value.bytes && |event.value.suids| == |records|
                 && forall i :: 0 <= i < |records| ==> SuidIn(records[i]) == Some(event.value.suids[i])
            else event == None
  {
    hide Encode, Decode, Last, LastOf, Items, InRange, ReadSuid, ReadSuids, WithNum, SuidIn;
    MessageRoundTrip(fs);
    LastOfItems(fs, 1);
    SuidsOfFields(fs);
    NameTypesIs(fs);
  }

  lemma NameTypesIs(fs: seq<Field>)
    ensures (forall f :: f in fs && f.num == 1 ==> f.Record?)
            <==> forall i :: i in Items(fs) ==> (i.field.num == 1 ==> i.field.Record?)
  {
    hide Items;
    ItemIn(fs);
  }

  // ---- sns_client_event_msg ----

  /** A field of the whole message that stops the decoder. */
  predicate Stops(f: Field, memory: seq<Byte>) {
    || (f.num == 1 && SuidIn(f).None?)
    || (f.num == 2 && (!f.Record? || EventEntry(f.bytes, memory).None?))
  }

  /** A message with any fields is decoded up to the first one that stops: a sensor's suid or an event that
      is not read. Each event in front of it adds its entry; other fields add none. */
  lemma EntriesOfFields(f: Field, fs: seq<Field>, memory: seq<Byte>)
    requires InRange(f)
    ensures var behind := Encode(fs) + memory;
            Entries(Encode([f] + fs), memory)
            == if Stops(f, behind) then []
               else (if f.num == 2 then [EventEntry(f.bytes, behind).value] else []) + Entries(Encode(fs), memory)
  {
    hide Encode, DecodeField, EventEntry, ReadSuid, InRange;
    ReadsField(f, fs);
  }

  // ---- values of attributes ----

  predicate DataTypes(fs: seq<Field>) {
    && (forall f :: f in fs && (f.num == 1 || f.num == 2) ==> f.Record?)
    && (forall f :: f in fs && f.num == 3 ==> f.Fixed32?)
    && (forall f :: f in fs && f.num == 4 ==> f.Fixed64?)
    && (forall f :: f in fs && f.num == 5 ==> f.Number?)
  }

  /** A value inside a subtype adds its last float, or none if it has none; a subtype inside it only has to
      be readable. */
  lemma NestedOfFields(fs: seq<Field>)
    requires AllInRange(fs)
    ensures var flt := LastOf(fs, 3);
            NestedFloat(Encode(fs))
            == if DataTypes(fs) && forall f :: f in fs && f.num == 1 ==> Decode(f.bytes).Some?
               then Some(if flt.Some? then [flt.value.value] else []) else None
  {
    hide Encode, Decode, Last, LastOf, Items, InRange;
    MessageRoundTrip(fs);
    LastOfItems(fs, 3);
    NestedTypesIs(fs);
    if DataTypes(fs) {
      DataTypesOfLast(fs);
    }
  }

  lemma NestedTypesIs(fs: seq<Field>)
    ensures DataTypes(fs) && (forall f :: f in fs && f.num == 1 ==> f.Record? && Decode(f.bytes).Some?)
            <==> forall i :: i in Items(fs) ==> DataTyped(i.field) && (i.field.num == 1 ==> Decode(i.field.bytes).Some?)
  {
    hide Items, Decode;
    ItemIn(fs);
  }

  lemma DataTypesOfLast(fs: seq<Field>)
    requires DataTypes(fs)
    ensures LastOf(fs, 3).Some? ==> LastOf(fs, 3).value.Fixed32?
  {
    hide LastOf;
  }

  /** Values inside a subtype, each with the fields of one list. */
  function NestedRecords(gs: seq<seq<Field>>): (r: seq<Field>)
    ensures |r| == |gs|
  {
    if gs == [] then [] else [Record(1, Encode(gs[0]))] + NestedRecords(gs[1..])
  }

  function LastFloats(gs: seq<seq<Field>>): seq<nat>
    requires forall g :: g in gs ==> DataTypes(g)
  {
    if gs == [] then []
    else
      assert DataTypes(gs[0]);
      DataTypesOfLast(gs[0]);
      (match LastOf(gs[0], 3) case Some(f) => [f.value] case None => []) + LastFloats(gs[1..])
  }

  /** The floats of a subtype are those of its values that have one, in order. */
  lemma {:induction false} SubtypeOfFields(gs: seq<seq<Field>>)
    requires forall g :: g in gs ==> AllInRange(g) && DataTypes(g) && forall f :: f in g ==> f.num != 1
    ensures NestedFloats(Items(NestedRecords(gs))) == Some(LastFloats(gs))
    decreases |gs|
  {
    hide Encode, NestedFloat, LastOf, InRange;
    if gs != [] {
      var g := gs[0];
      assert g in gs && forall o :: o in gs[1..] ==> o in gs;
      NestedOfFields(g);
      DataTypesOfLast(g);
      SubtypeOfFields(gs[1..]);
      assert NestedRecords(gs)[1..] == NestedRecords(gs[1..]);
      assert Items(NestedRecords(gs))[1..] == Items(NestedRecords(gs[1..]));
    }
  }

  /** A value message is read exactly if its fields are of their types and its subtypes can be read. */
  lemma DataOfFields(fs: seq<Field>)
    requires AllInRange(fs)
    ensures ReadData(Encode(fs)).Some? <==> DataTypes(fs) && Subtypes(Items(fs)).Some?
    ensures ReadData(Encode(fs)).Some? ==> Attributed(ReadData(Encode(fs)).value).subtype == Subtypes(Items(fs)).value
  {
    hide Encode, Decode, Last, Items, InRange, Subtypes, Signed64, Chosen;
    MessageRoundTrip(fs);
    DataTypesIs(fs);
  }

  lemma DataTypesIs(fs: seq<Field>)
    ensures DataTypes(fs) <==> !exists i :: i in Items(fs) && !DataTyped(i.field)
  {
    hide Items;
    ItemIn(fs);
  }

  // ---- sns_std_attr and its event ----

  /** An attribute is read exactly if its ids are varints and there is one, there is a value, and all values
      can be read; its id is the low 32 bits of the last one, as a signed number. */
  lemma AttributeOfFields(fs: seq<Field>)
    requires AllInRange(fs)
    ensures var id, value, values := LastOf(fs, 1), LastOf(fs, 2), AllValues(Items(fs));
            var read := ReadAttribute(Encode(fs));
            if (forall f :: f in fs && f.num == 1 ==> f.Number?) && id.Some? && value.Some? && values.Some?
            then read.Some? && read.value.1 == values.value
                 && -0x8000_0000 <= read.value.0 <= 0x7fff_ffff
                 && (read.value.0 - id.value.value) % 0x1_0000_0000 == 0
            else read == None
  {
    hide Encode, Decode, Last, LastOf, Items, InRange, AllValues, Signed32;
    MessageRoundTrip(fs);
    LastOfItems(fs, 1);
    LastOfItems(fs, 2);
    IdTypesIs(fs);
    if (forall f :: f in fs && f.num == 1 ==> f.Number?) && LastOf(fs, 1).Some? {
      LowSigned(LastOf(fs, 1).value.value);
    }
  }

  lemma IdTypesIs(fs: seq<Field>)
    ensures (forall f :: f in fs && f.num == 1 ==> f.Number?)
            <==> forall i :: i in Items(fs) && i.field.num == 1 ==> i.field.Number?
  {
    hide Items;
    ItemIn(fs);
  }

  lemma LowSigned(n: nat)
    ensures -0x8000_0000 <= Signed32(n) <= 0x7fff_ffff && (Signed32(n) - n) % 0x1_0000_0000 == 0
  {
  }

  /** Several value fields of an attribute give their values one after the other. */
  lemma {:induction false} ValuesAppended(a: seq<Item>, b: seq<Item>)
    requires AllValues(a).Some? && AllValues(b).Some?
    ensures AllValues(a + b) == Some(AllValues(a).value + AllValues(b).value)
  {
    hide Decode, ReadValues;
    if a == [] {
      assert a + b == b && [] + AllValues(b).value == AllValues(b).value;
    } else {
      assert (a + b)[1..] == a[1..] + b;
      ValuesAppended(a[1..], b);
      if a[0].field.num == 2 {
        var first := ReadValues(Decode(a[0].field.bytes).value).value;
        var others := AllValues(a[1..]).value;
        assert AllValues(a).value == first + others;
        assert first + others + AllValues(b).value == first + (others + AllValues(b).value);
      }
    }
  }

  /** An attribute event is decoded field by field up to the first attribute that is not read; what was
      stored before it stays, and fields with other numbers do not matter. */
  lemma FillOfFields(m: map<int, seq<Attribute>>, f: Field, fs: seq<Field>)
    requires InRange(f)
    ensures Fill(m, Encode([f] + fs))
         == if f.num != 1 then Fill(m, Encode(fs))
            else if !f.Record? || ReadAttribute(f.bytes).None? then Filled(m, false)
            else Fill(m[ReadAttribute(f.bytes).value.0 := ReadAttribute(f.bytes).value.1], Encode(fs))
  {
    hide Encode, DecodeField, ReadAttribute, InRange;
    ReadsField(f, fs);
    EncodeNonEmpty([f] + fs);
  }

  predicate GoodAttribute(f: Field) {
    f.num == 1 ==> f.Record? && ReadAttribute(f.bytes).Some?
  }

  /** An attribute event succeeds, on every byte string, exactly if it decodes with every attribute in it;
      where no field decodes nothing is stored. */
  lemma {:induction false} FillSucceeds(m: map<int, seq<Attribute>>, bs: seq<Byte>)
    ensures Fill(m, bs).ok <==> Decode(bs).Some? && forall i :: i in Decode(bs).value ==> GoodAttribute(i.field)
    ensures DecodeField(bs).Nothing? ==> Fill(m, bs).entries == m
    decreases |bs|
  {
    hide DecodeField, ReadAttribute;
    if bs != [] && DecodeField(bs).Got? {
      var f, rest := DecodeField(bs).value, DecodeField(bs).rest;
      if GoodAttribute(f) {
        if f.num == 1 {
          var (id, values) := ReadAttribute(f.bytes).value;
          FillSucceeds(m[id := values], rest);
        } else {
          FillSucceeds(m, rest);
        }
        if Decode(rest).Some? {
          GoodHead(Item(f, rest), Decode(rest).value);
        }
      } else if Decode(rest).Some? {
        assert Item(f, rest) in Decode(bs).value;
      }
    }
  }

  lemma GoodHead(head: Item, tail: seq<Item>)
    requires GoodAttribute(head.field)
    ensures (forall i :: i in [head] + tail ==> GoodAttribute(i.field))
            <==> (forall i :: i in tail ==> GoodAttribute(i.field))
  {
    assert forall i :: i in tail ==> i in [head] + tail;
  }

  /** Bytes that do not decode are no message of any of these kinds. */
  lemma BadBytes(bs: seq<Byte>)
    requires Decode(bs) == None
    ensures ReadSuid(bs) == None && ReadEvent(bs) == None && ReadSuidEvent(bs) == None
    ensures NestedFloat(bs) == None && ReadData(bs) == None && ReadAttribute(bs) == None
  {
  }
}
