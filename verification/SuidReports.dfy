/** SUID events as a sensor sends them, and the two decoders that read their datatypes. */
module SuidReports {
  import opened Integers
  import opened Wrappers
  import opened CString
  import opened Wire
  import opened SuidRequest
  import opened SuidEvents
  import opened SuidDelivery

  // ---- encoding ----

  function SuidRecords(suids: seq<Suid>): (r: seq<Field>)
    ensures |r| == |suids|
  {
    if suids == [] then [] else [Record(2, Encode(SuidFields(suids[0])))] + SuidRecords(suids[1..])
  }

  /** sns_suid_event with a datatype field as it goes out, with or without a NUL. */
  function SuidEventBytes(field: seq<Byte>, suids: seq<Suid>): seq<Byte> {
    Encode([Record(1, field)] + SuidRecords(suids))
  }

  function EventBytes(msgId: nat, time: nat, payload: seq<Byte>): seq<Byte> {
    Encode([Fixed32(1, msgId), Fixed64(2, time), Record(3, payload)])
  }

  /** What a sensor may send: a found sensor, the end of the discovery, or an event of another kind. */
  datatype Report =
    | Found(time: nat, name: seq<Byte>, suids: seq<Suid>)
    | Done(time: nat)
    | Other(time: nat, id: nat, payload: seq<Byte>)

  /** A report on the wire; a datatype ends in the NUL that a request puts there. */
  function ReportBytes(r: Report): seq<Byte> {
    match r
    case Found(time, name, suids) => EventBytes(768, time, SuidEventBytes(name + [0], suids))
    case Done(time) => EventBytes(769, time, [])
    case Other(time, id, payload) => EventBytes(id, time, payload)
  }

  predicate InBounds(suids: seq<Suid>) {
    forall s :: s in suids ==> s.low < TWO_64 && s.high < TWO_64
  }

  predicate Sendable(r: Report) {
    && r.time < TWO_64 && |ReportBytes(r)| < TWO_64
    && match r
       case Found(_, name, suids) =>
         && 0 !in name && |name| + 1 < TWO_64
         && InBounds(suids) && |SuidEventBytes(name + [0], suids)| < TWO_64
       case Done(_) => true
       case Other(_, id, payload) => id < TWO_32 && id != 768 && id != 769 && |payload| < TWO_64
  }

  lemma EventRoundTrip(msgId: nat, time: nat, payload: seq<Byte>)
    requires msgId < TWO_32 && time < TWO_64 && |payload| < TWO_64
    ensures ReadEvent(EventBytes(msgId, time, payload)) == Some(ClientEvent(msgId, payload, []))
  {
    hide Encode, Decode, Last, Items;
    var id, t, p := Fixed32(1, msgId), Fixed64(2, time), Record(3, payload);
    MessageRoundTrip([id, t, p]);
    assert [id, t, p] == [id] + ([t] + ([p] + []));
    FieldsOf([id, t, p]);
    LastOfThree(id, t, p, 1);
    LastOfThree(id, t, p, 2);
    LastOfThree(id, t, p, 3);
    assert Encode([]) == [] by {
      EncodeNothing();
    }
  }

  lemma LastOfThree(a: Field, b: Field, c: Field, num: nat)
    ensures Last(Items([a] + ([b] + ([c] + []))), num)
         == if c.num == num then Some(Item(c, Encode([])))
            else if b.num == num then Some(Item(b, Encode([c] + [])))
            else if a.num == num then Some(Item(a, Encode([b] + ([c] + []))))
            else None
  {
    hide Encode, Last, Items;
    NoLast(num);
    LastItem(c, [], num);
    LastItem(b, [c] + [], num);
    LastItem(a, [b] + ([c] + []), num);
  }

  lemma {:induction false} SuidRecordsFit(suids: seq<Suid>)
    ensures forall f :: f in SuidRecords(suids) ==> InRange(f) && f.num == 2
  {
    hide Encode;
    if suids != [] {
      PairSize(Fixed64(1, suids[0].low), Fixed64(2, suids[0].high));
      SuidRecordsFit(suids[1..]);
    }
  }

  lemma {:induction false} SuidsRoundTrip(suids: seq<Suid>)
    requires InBounds(suids)
    ensures ReadSuids(Items(SuidRecords(suids))) == Some(suids)
    ensures Last(Items(SuidRecords(suids)), 1) == None
  {
    hide Encode, ReadSuid;
    if suids == [] {
    } else {
      var fs := SuidRecords(suids[1..]);
      SuidsRoundTrip(suids[1..]);
      SuidRoundTrip(suids[0]);
      LastItem(SuidRecords(suids)[0], fs, 1);
      assert SuidRecords(suids)[1..] == fs;
      assert suids == [suids[0]] + suids[1..];
    }
  }

  /** Any datatype field and any suids come back from sns_suid_event. */
  lemma SuidEventRoundTrip(field: seq<Byte>, suids: seq<Suid>)
    requires InBounds(suids) && |field| < TWO_64
    ensures ReadSuidEvent(SuidEventBytes(field, suids)) == Some(SuidEvent(field, Encode(SuidRecords(suids)), suids))
  {
    hide Encode, Decode, Last, ReadSuid, InRange;
    var head, fs := Record(1, field), SuidRecords(suids);
    SuidRecordsFit(suids);
    assert InRange(head) by { HeadFits(field); }
    MessageRoundTrip([head] + fs);
    SuidsRoundTrip(suids);
    LastItem(head, fs, 1);
    FieldsOf([head] + fs);
    HeadAddsNone(head, fs);
  }

  lemma HeadFits(field: seq<Byte>)
    requires |field| < TWO_64
    ensures InRange(Record(1, field))
  {
  }

  lemma HeadAddsNone(head: Field, fs: seq<Field>)
    requires head.Record? && head.num == 1
    ensures ReadSuids(Items([head] + fs)) == ReadSuids(Items(fs))
  {
    hide Encode, ReadSuid;
    assert ([head] + fs)[1..] == fs;
    assert Items([head] + fs)[1..] == Items(fs);
  }

  /** The entry of a SUID event, for any datatype field. */
  lemma SuidEventEntry(time: nat, field: seq<Byte>, suids: seq<Suid>, memory: seq<Byte>)
    requires time < TWO_64 && InBounds(suids) && |field| < TWO_64 && |SuidEventBytes(field, suids)| < TWO_64
    ensures EventEntry(EventBytes(768, time, SuidEventBytes(field, suids)), memory)
         == Some(Entry(UpTo(field + Encode(SuidRecords(suids)) + [] + memory, 0), suids))
  {
    hide Encode, ReadEvent, ReadSuidEvent, EventBytes, UpTo;
    EventRoundTrip(768, time, SuidEventBytes(field, suids));
    SuidEventRoundTrip(field, suids);
    EncodeNonEmpty([Record(1, field)] + SuidRecords(suids));
  }

  function ReportEntry(r: Report): Option<Entry> {
    match r
    case Found(_, name, suids) => Some(Entry(name, suids))
    case Done(_) => Some(Entry(DONE_NAME, []))
    case Other(_, _, _) => None
  }

  /** A found sensor and the end of the discovery each add their entry; an event of any other kind adds
      none and makes the decoder fail. */
  lemma ReportRoundTrip(r: Report, memory: seq<Byte>)
    requires Sendable(r)
    ensures EventEntry(ReportBytes(r), memory) == ReportEntry(r)
  {
    hide Encode, ReadEvent, ReadSuidEvent, EventBytes, UpTo, SuidEventBytes;
    match r {
      case Found(time, name, suids) =>
        SuidEventEntry(time, name + [0], suids, memory);
        var bs := name + [0] + Encode(SuidRecords(suids)) + [] + memory;
        assert bs[..|name|] == name && bs[|name|] == 0;
        UpToIs(bs, 0, |name|);
      case Done(time) =>
        EventRoundTrip(769, time, []);
      case Other(time, id, payload) =>
        EventRoundTrip(id, time, payload);
    }
  }

  /** So does a SUID event without a payload. */
  lemma EmptySuidEvent(time: nat, memory: seq<Byte>)
    requires time < TWO_64
    ensures EventEntry(EventBytes(768, time, []), memory) == None
  {
    hide ReadEvent, EventBytes;
    EventRoundTrip(768, time, []);
  }

  function ReportsBytes(reports: seq<Report>): (r: seq<seq<Byte>>)
    ensures |r| == |reports| && forall i :: 0 <= i < |r| ==> r[i] == ReportBytes(reports[i])
  {
    seq(|reports|, i requires 0 <= i < |reports| => ReportBytes(reports[i]))
  }

  /** The found sensors in order. */
  function FoundEntries(reports: seq<Report>): seq<Entry> {
    if reports == [] then []
    else (if reports[0].Found? then [Entry(reports[0].name, reports[0].suids)] else []) + FoundEntries(reports[1..])
  }

  /** The found sensors in front of the first event of another kind, but for one that bears the name that
      stands for discovery-done. */
  function CalledBack(reports: seq<Report>): seq<Entry> {
    if reports == [] || reports[0].Other? then []
    else
      (if reports[0].Found? && reports[0].name != DONE_NAME then [Entry(reports[0].name, reports[0].suids)] else [])
      + CalledBack(reports[1..])
  }

  function FirstOther(reports: seq<Report>): (k: nat)
    ensures k <= |reports| && (k < |reports| ==> reports[k].Other?)
    ensures forall i :: 0 <= i < k ==> !reports[i].Other?
  {
    if reports == [] || reports[0].Other? then 0 else 1 + FirstOther(reports[1..])
  }

  lemma {:induction false} AnnouncedReports(reports: seq<Report>, es: seq<Entry>)
    requires |es| == FirstOther(reports)
    requires forall i :: 0 <= i < |es| ==> Some(es[i]) == ReportEntry(reports[i])
    ensures Announced(es) == CalledBack(reports)
    decreases |es|
  {
    if es != [] {
      AnnouncedReports(reports[1..], es[1..]);
    }
  }

  /** A message of reports calls the client back with exactly the found sensors in front of the first
      event of another kind, in order, whatever lies in memory behind it. */
  lemma ReportsDelivered(sensor: Suid, reports: seq<Report>, memory: seq<Byte>)
    requires sensor.low < TWO_64 && sensor.high < TWO_64
    requires forall r :: r in reports ==> Sendable(r)
    ensures Announced(Entries(EventMessage(sensor, ReportsBytes(reports)), memory)) == CalledBack(reports)
  {
    hide EventEntry, Encode, Entries, ReportBytes, EventFields, EventMessage;
    var events := ReportsBytes(reports);
    var k := FirstOther(reports);
    forall i | 0 <= i < |reports|
      ensures EntryAt(events, i, memory) == ReportEntry(reports[i]) && |events[i]| < TWO_64
    {
      ReportRoundTrip(reports[i], Encode(EventFields(events[i + 1..])) + memory);
    }
    MessageEntries(sensor, events, k, memory);
    AnnouncedReports(reports, Entries(EventMessage(sensor, events), memory));
  }

  // ---- decode_suids ----

  datatype ListStep = Skipped | Failed | Listed(name: seq<Byte>, suids: seq<Suid>)

  /** What decode_suids does with one event: another msg_id is skipped, as is an event get_msg_id
      cannot read. */
  function ListEvent(event: seq<Byte>): ListStep {
    match ReadEvent(event)
    case None => Skipped
    case Some(e) =>
      if e.msgId != SUID_EVENT then Skipped
      else
        match ReadSuidEvent(e.payload)
        case None => Failed
        case Some(s) => Listed(TrimZero(s.name), s.suids)
  }

  /** suid_list with its decoder. */
  class SuidList {
    var suids: seq<Suid>
    var name: seq<Byte>

    constructor ()
      ensures suids == [] && name == []
    {
      suids, name := [], [];
    }

    method DecodeSuids(event: seq<Byte>) returns (ok: bool)
      modifies this
      ensures ok == !ListEvent(event).Failed?
      ensures match ListEvent(event)
              case Listed(n, ss) => suids == old(suids) + ss && name == n
              case _ => suids == old(suids) && name == old(name)
    {
      hide ReadEvent, ReadSuidEvent;
      var read := ReadEvent(event);
      var msgId := if read.Some? then read.value.msgId else 0;
      if msgId != SUID_EVENT {
        return true;
      }
      var suidEvent := ReadSuidEvent(read.value.payload);
      if suidEvent.None? {
        return false;
      }
      var s := suidEvent.value;
      var text := [];
      if |s.name| > 0 {
        text := s.name;
        if text[|text| - 1] == 0 {
          text := text[..|text| - 1];
        }
      }
      for i := 0 to |s.suids|
        invariant suids == old(suids) + s.suids[..i] && name == old(name)
      {
        suids := suids + [Suid(s.suids[i].low, s.suids[i].high)];
      }
      assert s.suids[..|s.suids|] == s.suids;
      name := text;
      return true;
    }
  }

  /** decode_suids over the events of a message, until one fails. */
  function ListEvents(suids: seq<Suid>, name: seq<Byte>, events: seq<seq<Byte>>): (seq<Suid>, seq<Byte>, bool)
    decreases |events|
  {
    if events == [] then (suids, name, true)
    else
      match ListEvent(events[0])
      case Skipped => ListEvents(suids, name, events[1..])
      case Failed => (suids, name, false)
      case Listed(n, ss) => ListEvents(suids + ss, n, events[1..])
  }

  function AllSuids(es: seq<Entry>): seq<Suid> {
    if es == [] then [] else es[0].suids + AllSuids(es[1..])
  }

  function LastName(es: seq<Entry>, name: seq<Byte>): seq<Byte> {
    if es == [] then name else es[|es| - 1].name
  }

  /** decode_suids takes one NUL off the end of a datatype field and no more. */
  lemma OneNulTrimmed(time: nat, text: seq<Byte>, suids: seq<Suid>)
    requires time < TWO_64 && InBounds(suids) && |text| + 1 < TWO_64
    requires |SuidEventBytes(text + [0], suids)| < TWO_64 && |SuidEventBytes(text, suids)| < TWO_64
    ensures ListEvent(EventBytes(768, time, SuidEventBytes(text + [0], suids))) == Listed(text, suids)
    ensures text == [] || text[|text| - 1] != 0 ==>
              ListEvent(EventBytes(768, time, SuidEventBytes(text, suids))) == Listed(text, suids)
  {
    hide Encode, ReadEvent, ReadSuidEvent, EventBytes, SuidEventBytes;
    EventRoundTrip(768, time, SuidEventBytes(text + [0], suids));
    SuidEventRoundTrip(text + [0], suids);
    EventRoundTrip(768, time, SuidEventBytes(text, suids));
    SuidEventRoundTrip(text, suids);
    assert (text + [0])[..|text|] == text;
  }

  // ---- the two decoders side by side ----

  /** Both read the same datatype exactly when it has no NUL inside and one right behind it. */
  lemma SameName(field: seq<Byte>, behind: seq<Byte>)
    requires 0 in field + behind
    ensures UpTo(field + behind, 0) == TrimZero(field)
       <==> 0 !in TrimZero(field) && (|TrimZero(field)| < |field| || behind[0] == 0)
  {
    var n := |TrimZero(field)|;
    var bs := field + behind;
    assert bs[..n] == TrimZero(field);
    if 0 !in TrimZero(field) {
      assert n < |bs|;
      if bs[n] == 0 {
        UpToIs(bs, 0, n);
      } else {
        assert |UpTo(bs, 0)| != n;
      }
    }
  }

  /** On any SUID event that decodes, the two agree on the suids, and on the datatype exactly when its
      field has no NUL inside and one right behind it. */
  lemma DecodersAgreeExactly(event: seq<Byte>, memory: seq<Byte>, e: ClientEvent, s: SuidEvent)
    requires ReadEvent(event) == Some(e) && e.msgId == 768 && ReadSuidEvent(e.payload) == Some(s)
    requires 0 in s.name + (s.after + e.after + memory)
    ensures EventEntry(event, memory).Some? && ListEvent(event).Listed?
    ensures EventEntry(event, memory).value.suids == ListEvent(event).suids
    ensures var trimmed := TrimZero(s.name);
            var behind := s.after + e.after + memory;
            EventEntry(event, memory).value.name == ListEvent(event).name
            <==> 0 !in trimmed && (|trimmed| < |s.name| || behind[0] == 0)
  {
    hide ReadEvent, TrimZero, UpTo;
    var behind := s.after + e.after + memory;
    NoEmptyEvent();
    SameName(s.name, behind);
    assert s.name + s.after + e.after + memory == s.name + behind;
  }

  lemma NoEmptyEvent()
    ensures ReadSuidEvent([]) == None
  {
    assert Last([], 1) == None;
  }

  /** Sent with the NUL that a request adds, a datatype reads the same in both decoders. */
  lemma DecodersAgree(time: nat, name: seq<Byte>, suids: seq<Suid>, memory: seq<Byte>)
    requires Sendable(Found(time, name, suids))
    ensures EventEntry(ReportBytes(Found(time, name, suids)), memory) == Some(Entry(name, suids))
    ensures ListEvent(ReportBytes(Found(time, name, suids))) == Listed(name, suids)
  {
    hide Encode, ReadEvent, ReadSuidEvent, EventBytes, UpTo, SuidEventBytes, EventEntry;
    ReportRoundTrip(Found(time, name, suids), memory);
    EventRoundTrip(768, time, SuidEventBytes(name + [0], suids));
    SuidEventRoundTrip(name + [0], suids);
    assert (name + [0])[..|name|] == name;
  }

  /** Sent without it, decode_suids still reads the datatype, while suid_decode_event runs on into the
      next field and reads another one whenever the event has a suid. */
  lemma DecodersDisagree(time: nat, name: seq<Byte>, suids: seq<Suid>, memory: seq<Byte>)
    requires time < TWO_64 && InBounds(suids) && suids != [] && 0 !in name
    requires |name| < TWO_64 && |SuidEventBytes(name, suids)| < TWO_64
    ensures var event := EventBytes(768, time, SuidEventBytes(name, suids));
            && ListEvent(event) == Listed(name, suids)
            && EventEntry(event, memory).Some? && EventEntry(event, memory).value.name != name
  {
    hide Encode, ReadEvent, ReadSuidEvent, EventBytes, SuidEventBytes, EventEntry, Tag;
    SuidEventEntry(time, name, suids, memory);
    EventRoundTrip(768, time, SuidEventBytes(name, suids));
    SuidEventRoundTrip(name, suids);
    var bs := name + Encode(SuidRecords(suids)) + [] + memory;
    FirstByte(suids);
    assert bs[|name|] == 18;
    assert |UpTo(bs, 0)| != |name|;
  }

  /** A suid record starts with its tag, which is no NUL. */
  lemma FirstByte(suids: seq<Suid>)
    requires suids != []
    ensures Encode(SuidRecords(suids)) != [] && Encode(SuidRecords(suids))[0] == 18
  {
    assert Tag(SuidRecords(suids)[0]) == [18];
  }

  /** decode_suids skips every event of another kind. */
  lemma OthersAreSkipped(id: nat, time: nat, payload: seq<Byte>)
    requires id < TWO_32 && id != 768 && time < TWO_64 && |payload| < TWO_64
    ensures ListEvent(EventBytes(id, time, payload)) == Skipped
  {
    hide ReadEvent, EventBytes, ReadSuidEvent;
    EventRoundTrip(id, time, payload);
  }

  /** Over a message of reports decode_suids collects the suids of all found sensors in order, under
      the datatype of the last one; events of other kinds do not stop it. */
  lemma {:induction false} ReportsListed(suids: seq<Suid>, name: seq<Byte>, reports: seq<Report>)
    requires forall r :: r in reports ==> Sendable(r)
    ensures var es := FoundEntries(reports);
            ListEvents(suids, name, ReportsBytes(reports)) == (suids + AllSuids(es), LastName(es, name), true)
    decreases |reports|
  {
    hide ListEvent, ReportBytes, Sendable;
    if reports == [] {
      assert suids + [] == suids;
    } else {
      var r, others := reports[0], reports[1..];
      assert r in reports && forall o :: o in others ==> o in reports;
      assert ReportsBytes(reports)[1..] == ReportsBytes(others);
      OneListed(r);
      match r {
        case Found(_, n, ss) =>
          ReportsListed(suids + ss, n, others);
          FoundFirst(r, others, name);
          assert suids + ss + AllSuids(FoundEntries(others)) == suids + (ss + AllSuids(FoundEntries(others)));
        case _ =>
          ReportsListed(suids, name, others);
          assert FoundEntries(reports) == FoundEntries(others);
      }
    }
  }

  lemma OneListed(r: Report)
    requires Sendable(r)
    ensures ListEvent(ReportBytes(r)) == match r case Found(_, n, ss) => Listed(n, ss) case _ => Skipped
  {
    hide ListEvent, EventBytes, SuidEventBytes;
    match r {
      case Found(time, n, ss) => DecodersAgree(time, n, ss, []);
      case Done(time) => OthersAreSkipped(769, time, []);
      case Other(time, id, payload) => OthersAreSkipped(id, time, payload);
    }
  }

  lemma FoundFirst(r: Report, others: seq<Report>, name: seq<Byte>)
    requires r.Found?
    ensures var es, tail := FoundEntries([r] + others), FoundEntries(others);
            AllSuids(es) == r.suids + AllSuids(tail) && LastName(es, name) == LastName(tail, r.name)
  {
    assert ([r] + others)[1..] == others;
    var tail := FoundEntries(others);
    assert ([Entry(r.name, r.suids)] + tail)[1..] == tail;
  }
}
