/** SUID events: decoding a client event message on any bytes, and calling the lookup client back. */
module SuidEvents {
  import opened Wrappers
  import opened CString
  import opened Wire
  import opened SuidRequest

  const SUID_EVENT := 768         // SNS_SUID_MSGID_SNS_SUID_EVENT
  const DISCOVERY_DONE := 769     // SNS_SUID_MSGID_SNS_SUID_DISCOVERY_DONE_EVENT

  function Ascii(s: string): seq<Byte> {
    seq(|s|, i requires 0 <= i < |s| => s[i] as int % 256)
  }

  /** The datatype that stands for "discovery done" in the vectors. */
  const DONE_NAME: seq<Byte> := Ascii("SNS_SUID_MSGID_SNS_SUID_DISCOVERY_DONE_EVENT")

  /** Its bytes are those of the text. */
  lemma DoneName()
    ensures var s := "SNS_SUID_MSGID_SNS_SUID_DISCOVERY_DONE_EVENT";
            |DONE_NAME| == |s| && forall i :: 0 <= i < |s| ==> DONE_NAME[i] == s[i] as int
  {
  }

  // ---- the messages ----

  datatype ClientEvent = ClientEvent(msgId: nat, payload: seq<Byte>, after: seq<Byte>)
  datatype SuidEvent = SuidEvent(name: seq<Byte>, after: seq<Byte>, suids: seq<Suid>)

  predicate SuidTyped(f: Field) {
    f.num == 1 || f.num == 2 ==> f.Fixed64?
  }

  /** sns_std_suid: both halves are required. */
  function ReadSuid(bs: seq<Byte>): Option<Suid> {
    match Decode(bs)
    case None => None
    case Some(items) =>
      if forall i :: i in items ==> SuidTyped(i.field) then
        match (Last(items, 1), Last(items, 2))
        case (Some(Item(Fixed64(_, low), _)), Some(Item(Fixed64(_, high), _))) => Some(Suid(low, high))
        case _ => None
      else None
  }

  predicate EventTyped(f: Field) {
    && (f.num == 1 ==> f.Fixed32?)
    && (f.num == 2 ==> f.Fixed64?)
    && (f.num == 3 ==> f.Record?)
  }

  /** sns_client_event: msg_id, timestamp and payload are required; after is what follows the payload. */
  function ReadEvent(bs: seq<Byte>): Option<ClientEvent> {
    match Decode(bs)
    case None => None
    case Some(items) =>
      if (forall i :: i in items ==> EventTyped(i.field)) && Last(items, 2).Some? then
        match (Last(items, 1), Last(items, 3))
        case (Some(Item(Fixed32(_, id), _)), Some(Item(Record(_, payload), after))) => Some(ClientEvent(id, payload,
            after))
        case _ => None
      else None
  }

  /** The repeated suid fields in order, or None where one does not decode. */
  function ReadSuids(items: seq<Item>): Option<seq<Suid>> {
    if items == [] then Some([])
    else
      match (items[0].field, ReadSuids(items[1..]))
      case (_, None) => None
      case (Record(num, bs), Some(suids)) =>
        if num != 2 then Some(suids)
        else (match ReadSuid(bs) case None => None case Some(s) => Some([s] + suids))
      case (f, Some(suids)) => if f.num == 2 then None else Some(suids)
  }

  /** sns_suid_event: the datatype is required, and of several the last one stays. */
  function ReadSuidEvent(bs: seq<Byte>): Option<SuidEvent> {
    match Decode(bs)
    case None => None
    case Some(items) =>
      if forall i :: i in items ==> (i.field.num == 1 ==> i.field.Record?) then
        match (Last(items, 1), ReadSuids(items))
        case (Some(Item(Record(_, name), after)), Some(suids)) => Some(SuidEvent(name, after, suids))
        case _ => None
      else None
  }

  function TrimZero(bs: seq<Byte>): seq<Byte> {
    if bs != [] && bs[|bs| - 1] == 0 then bs[..|bs| - 1] else bs
  }

  // ---- suid_decode_event and handleQshEvent ----

  /** An entry of the two vectors: a datatype and its suids. */
  datatype Entry = Entry(name: seq<Byte>, suids: seq<Suid>)

  /** What one event adds, or None where suid_decode_event returns false. The name is read as a
      C string in place, so its end may lie in the memory behind the field. */
  function EventEntry(event: seq<Byte>, memory: seq<Byte>): Option<Entry> {
    match ReadEvent(event)
    case None => None
    case Some(e) =>
      if e.msgId == DISCOVERY_DONE then Some(Entry(DONE_NAME, []))
      else if e.msgId != SUID_EVENT || e.payload == [] then None
      else
        match ReadSuidEvent(e.payload)
        case None => None
        case Some(s) => Some(Entry(UpTo(s.name + s.after + e.after + memory, 0), s.suids))
  }

  /** One field of a client event message: None stops the decoder. */
  function FieldEntries(f: Field, memory: seq<Byte>): Option<seq<Entry>> {
    if f.num == 1 then
      if f.Record? && ReadSuid(f.bytes).Some? then Some([]) else None
    else if f.num == 2 then
      if f.Record? then (match EventEntry(f.bytes, memory) case None => None case Some(e) => Some([e])) else None
    else Some([])
  }

  /** All entries a message adds before the decoder ends or fails. */
  function Entries(data: seq<Byte>, memory: seq<Byte>): seq<Entry>
    decreases |data|
  {
    match DecodeField(data)
    case Nothing => []
    case Got(f, rest) =>
      match FieldEntries(f, rest + memory)
      case None => []
      case Some(es) => es + Entries(rest, memory)
  }

  /** The entries that are called back: all but the discovery-done ones. */
  function Announced(es: seq<Entry>): seq<Entry> {
    if es == [] then []
    else (if es[0].name == DONE_NAME then [] else [es[0]]) + Announced(es[1..])
  }

  lemma AnnouncedSnoc(es: seq<Entry>, e: Entry)
    ensures Announced(es + [e]) == Announced(es) + if e.name == DONE_NAME then [] else [e]
  {
    if es == [] {
      assert es + [e] == [e];
    } else {
      var all := es + [e];
      assert all[0] == es[0] && all[1..] == es[1..] + [e];
      AnnouncedSnoc(es[1..], e);
      assert Announced(all) == (if es[0].name == DONE_NAME then [] else [es[0]]) + Announced(all[1..]);
    }
  }

  // ---- the waiting client ----

  datatype Waiting = Waiting(suids: seq<Suid>, lookupDone: bool)

  function OnEntry(w: Waiting, e: Entry): Waiting {
    if e.name == DONE_NAME then w.(lookupDone := true) else w.(suids := e.suids)
  }

  function OnEntries(w: Waiting, es: seq<Entry>): Waiting {
    if es == [] then w else OnEntry(OnEntries(w, es[..|es| - 1]), es[|es| - 1])
  }

  lemma OnEntriesSnoc(w: Waiting, es: seq<Entry>, e: Entry)
    ensures OnEntries(w, es + [e]) == OnEntry(OnEntries(w, es), e)
  {
    hide OnEntry;
    assert (es + [e])[..|es|] == es;
  }

  lemma NoEntries(w: Waiting)
    ensures OnEntries(w, []) == w && Announced([]) == []
  {
  }

  class Locate {
    var mSuids: seq<Suid>
    var mLookupDone: bool

    constructor ()
      ensures State() == Waiting([], false)
    {
      mSuids, mLookupDone := [], false;
    }

    function State(): Waiting
      reads this
    {
      Waiting(mSuids, mLookupDone)
    }

    method OnSuidsAvailable(name: seq<Byte>, suids: seq<Suid>)
      modifies this
      ensures State() == OnEntry(old(State()), Entry(name, suids))
      ensures name == DONE_NAME ==> mLookupDone && mSuids == old(mSuids)
      ensures name != DONE_NAME ==> mLookupDone == old(mLookupDone) && mSuids == suids
    {
      if name == DONE_NAME {
        mLookupDone := true;
        return;
      }
      mSuids := [];
      for i := 0 to |suids|
        invariant mSuids == suids[..i] && mLookupDone == old(mLookupDone)
      {
        mSuids := mSuids + [Suid(suids[i].low, suids[i].high)];
      }
    }
  }

  /** suid_decode_context: the two vectors the event callback fills. */
  class DecodeContext {
    var suids: seq<seq<Suid>>
    var datatypes: seq<seq<Byte>>

    constructor ()
      ensures Valid() && Contents() == []
    {
      suids, datatypes := [], [];
    }

    predicate Valid()
      reads this
    {
      |suids| == |datatypes|
    }

    function Contents(): (r: seq<Entry>)
      reads this
      requires Valid()
      ensures |r| == |suids| && forall i :: 0 <= i < |r| ==> r[i] == Entry(datatypes[i], suids[i])
    {
      seq(|suids|, i requires 0 <= i < |suids| && Valid() reads this => Entry(datatypes[i], suids[i]))
    }

    /** One more element in each vector. */
    method EmplaceBack(suidList: seq<Suid>, name: seq<Byte>)
      requires Valid()
      modifies this
      ensures Valid() && Contents() == old(Contents()) + [Entry(name, suidList)]
    {
      suids := suids + [suidList];
      datatypes := datatypes + [name];
    }

    /** suid_decode_event. */
    method DecodeEvent(event: seq<Byte>, memory: seq<Byte>) returns (ok: bool)
      requires Valid()
      modifies this
      ensures Valid() && ok == EventEntry(event, memory).Some?
      ensures Contents() == old(Contents()) + if ok then [EventEntry(event, memory).value] else []
    {
      hide Decode, ReadSuidEvent, ReadEvent, UpTo;
      var data := ReadEvent(event);
      if data.None? {
        return false;
      }
      var e := data.value;
      if e.msgId == DISCOVERY_DONE {
        EmplaceBack([], DONE_NAME);
      } else if e.msgId == SUID_EVENT {
        if e.payload == [] {
          return false;
        }
        var suidEvent := ReadSuidEvent(e.payload);
        if suidEvent.None? {
          return false;
        }
        var s := suidEvent.value;
        var suidList := [];
        for i := 0 to |s.suids|
          invariant suidList == s.suids[..i]
          invariant Valid() && Contents() == old(Contents())
        {
          suidList := suidList + [Suid(s.suids[i].low, s.suids[i].high)];
        }
        assert suidList == s.suids;
        EmplaceBack(suidList, UpTo(s.name + s.after + e.after + memory, 0));
      } else {
        return false;
      }
      return true;
    }

    /** The events of a message, as far as the decoder gets. */
    method DecodeMessage(data: seq<Byte>, memory: seq<Byte>)
      requires Valid()
      modifies this
      ensures Valid() && Contents() == old(Contents()) + Entries(data, memory)
    {
      hide DecodeField, EventEntry, ReadSuid;
      var stream := data;
      while true
        invariant Valid()
        invariant Contents() + Entries(stream, memory) == old(Contents()) + Entries(data, memory)
        decreases |stream|
      {
        var field := DecodeField(stream);
        if field.Nothing? {
          return;
        }
        var f, rest := field.value, field.rest;
        if f.num == 1 {
          if !f.Record? || ReadSuid(f.bytes).None? {
            return;
          }
        } else if f.num == 2 {
          if !f.Record? {
            return;
          }
          var ok := DecodeEvent(f.bytes, rest + memory);
          if !ok {
            return;
          }
        }
        stream := rest;
      }
    }
  }

  /** handleQshEvent with locate's callback; calls lists the callbacks made. */
  method HandleQshEvent(client: Locate, data: seq<Byte>, memory: seq<Byte>) returns (calls: seq<Entry>)
    modifies client
    ensures calls == Announced(Entries(data, memory))
    ensures client.State() == OnEntries(old(client.State()), calls)
  {
    hide Entries, Announced, OnEntry, OnEntries, Ascii, DecodeContext.Contents;
    var context := new DecodeContext();
    context.DecodeMessage(data, memory);
    calls := [];
    NoEntries(old(client.State()));
    ghost var all := context.Contents();
    var suids, datatypes := context.suids, context.datatypes;
    if |suids| == |datatypes| && |datatypes| != 0 {
      for i := 0 to |datatypes|
        invariant calls == Announced(all[..i])
        invariant client.State() == OnEntries(old(client.State()), calls)
      {
        AnnouncedSnoc(all[..i], all[i]);
        assert all[..i + 1] == all[..i] + [all[i]];
        OnEntriesSnoc(old(client.State()), calls, all[i]);
        if datatypes[i] != DONE_NAME {
          client.OnSuidsAvailable(datatypes[i], suids[i]);
          calls := calls + [Entry(datatypes[i], suids[i])];
        }
      }
      assert all[..|all|] == all;
    }
  }
}
