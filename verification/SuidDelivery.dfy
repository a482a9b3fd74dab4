/** What a lookup client learns: events survive the wire, calls stop at the first bad event, and no
    message ever completes a lookup. */
module SuidDelivery {
  import opened Integers
  import opened Wrappers
  import opened Wire
  import opened SuidRequest
  import opened SuidEvents

  // ---- a run of messages ----

  datatype Message = Message(data: seq<Byte>, memory: seq<Byte>)

  function Calls(ms: seq<Message>): seq<Entry> {
    if ms == [] then []
    else
      var m := ms[|ms| - 1];
      Calls(ms[..|ms| - 1]) + Announced(Entries(m.data, m.memory))
  }

  /** The client after handleQshEvent has handled every message in turn. */
  function AfterMessages(w: Waiting, ms: seq<Message>): Waiting {
    if ms == [] then w
    else
      var m := ms[|ms| - 1];
      OnEntries(AfterMessages(w, ms[..|ms| - 1]), Announced(Entries(m.data, m.memory)))
  }

  lemma {:induction false} AnnouncedNames(es: seq<Entry>)
    ensures forall e :: e in Announced(es) ==> e.name != DONE_NAME
  {
    if es != [] {
      AnnouncedNames(es[1..]);
    }
  }

  /** Where a client stands after some calls: with the suids of the last one. */
  function Latest(w: Waiting, calls: seq<Entry>): Waiting {
    if calls == [] then w else w.(suids := calls[|calls| - 1].suids)
  }

  lemma {:induction false} NamedEntries(w: Waiting, es: seq<Entry>)
    requires forall e :: e in es ==> e.name != DONE_NAME
    ensures OnEntries(w, es) == Latest(w, es)
  {
    if es != [] {
      NamedEntries(w, es[..|es| - 1]);
    }
  }

  /** Whatever messages arrive, the client holds the suids of the last call, and a lookup that is not
      done stays so: lookUp always waits out its timeout. */
  lemma {:induction false} LookupTimesOut(w: Waiting, ms: seq<Message>)
    ensures AfterMessages(w, ms) == Latest(w, Calls(ms))
    ensures AfterMessages(w, ms).lookupDone == w.lookupDone
  {
    hide Entries, Announced;
    if ms != [] {
      var m := ms[|ms| - 1];
      LookupTimesOut(w, ms[..|ms| - 1]);
      AnnouncedNames(Entries(m.data, m.memory));
      NamedEntries(AfterMessages(w, ms[..|ms| - 1]), Announced(Entries(m.data, m.memory)));
    }
  }

  // ---- one message of events ----

  function EventFields(events: seq<seq<Byte>>): (r: seq<Field>)
    ensures |r| == |events|
  {
    if events == [] then [] else [Record(2, events[0])] + EventFields(events[1..])
  }

  /** The entry of event i where it lies in its message. */
  function EntryAt(events: seq<seq<Byte>>, i: nat, memory: seq<Byte>): Option<Entry>
    requires i < |events|
  {
    EventEntry(events[i], Encode(EventFields(events[i + 1..])) + memory)
  }

  function EventMessage(sensor: Suid, events: seq<seq<Byte>>): seq<Byte> {
    Encode([Record(1, Encode(SuidFields(sensor)))] + EventFields(events))
  }

  /** k is the number of events before the first one that fails. */
  predicate FailsAt(events: seq<seq<Byte>>, k: nat, memory: seq<Byte>) {
    && k <= |events|
    && (forall i :: 0 <= i < k ==> EntryAt(events, i, memory).Some?)
    && (k < |events| ==> EntryAt(events, k, memory).None?)
  }

  predicate Sized(events: seq<seq<Byte>>) {
    forall i :: 0 <= i < |events| ==> |events[i]| < TWO_64
  }

  lemma ReadsField(f: Field, fs: seq<Field>)
    requires InRange(f)
    ensures DecodeField(Encode([f] + fs)) == Got(f, Encode(fs))
  {
    hide Tag, Payload, DecodeField, InRange;
    assert ([f] + fs)[1..] == fs;
    FieldRoundTrip(f, Encode(fs));
  }

  lemma EntryAtShift(events: seq<seq<Byte>>, i: nat, memory: seq<Byte>)
    requires i + 1 < |events|
    ensures EntryAt(events[1..], i, memory) == EntryAt(events, i + 1, memory)
  {
    hide EventEntry, Encode, EventFields;
    assert events[1..][i + 1..] == events[i + 2..];
  }

  lemma FailsAtShift(events: seq<seq<Byte>>, k: nat, memory: seq<Byte>)
    requires k > 0 && FailsAt(events, k, memory)
    ensures FailsAt(events[1..], k - 1, memory)
  {
    hide EntryAt;
    forall i | 0 <= i < |events| - 1
      ensures EntryAt(events[1..], i, memory) == EntryAt(events, i + 1, memory)
    {
      EntryAtShift(events, i, memory);
    }
  }

  lemma EntriesStep(events: seq<seq<Byte>>, memory: seq<Byte>)
    requires events != [] && |events[0]| < TWO_64
    ensures var others := Entries(Encode(EventFields(events[1..])), memory);
            Entries(Encode(EventFields(events)), memory)
            == match EntryAt(events, 0, memory) case None => [] case Some(e) => [e] + others
  {
    hide Encode, DecodeField, EventEntry;
    ReadsField(Record(2, events[0]), EventFields(events[1..]));
  }

  /** The entries of a message of events are those of the events before the first failing one. */
  lemma {:induction false} EntriesOfEvents(events: seq<seq<Byte>>, k: nat, memory: seq<Byte>)
    requires Sized(events) && FailsAt(events, k, memory)
    ensures var es := Entries(Encode(EventFields(events)), memory);
            |es| == k && forall i :: 0 <= i < k ==> EntryAt(events, i, memory) == Some(es[i])
    decreases |events|
  {
    hide Encode, Entries, EntryAt, EventFields;
    if events == [] {
      NothingEncoded(memory);
    } else {
      EntriesStep(events, memory);
      if k > 0 {
        FailsAtShift(events, k, memory);
        EntriesOfEvents(events[1..], k - 1, memory);
        forall i | 0 < i < k
          ensures EntryAt(events[1..], i - 1, memory) == EntryAt(events, i, memory)
        {
          EntryAtShift(events, i - 1, memory);
        }
      }
    }
  }

  lemma NothingEncoded(memory: seq<Byte>)
    ensures Encode(EventFields([])) == [] && Entries([], memory) == []
  {
  }

  lemma SuidRoundTrip(s: Suid)
    requires s.low < TWO_64 && s.high < TWO_64
    ensures ReadSuid(Encode(SuidFields(s))) == Some(s)
  {
    hide Encode, Decode, Last;
    var low, high := Fixed64(1, s.low), Fixed64(2, s.high);
    MessageRoundTrip([low, high]);
    assert [low, high] == [low] + ([high] + []);
    LastItem(high, [], 1);
    LastItem(low, [high] + [], 1);
    LastItem(high, [], 2);
    LastItem(low, [high] + [], 2);
    NoLast(1);
    NoLast(2);
    FieldsOf([low, high]);
  }

  /** The sensor's own suid in front adds nothing. */
  lemma MessageEntries(sensor: Suid, events: seq<seq<Byte>>, k: nat, memory: seq<Byte>)
    requires sensor.low < TWO_64 && sensor.high < TWO_64
    requires Sized(events) && FailsAt(events, k, memory)
    ensures var es := Entries(EventMessage(sensor, events), memory);
            |es| == k && forall i :: 0 <= i < k ==> EntryAt(events, i, memory) == Some(es[i])
  {
    EntriesOfEvents(events, k, memory);
    hide Encode, DecodeField, EntryAt, FailsAt, ReadSuid;
    var head := Record(1, Encode(SuidFields(sensor)));
    SuidRoundTrip(sensor);
    PairSize(Fixed64(1, sensor.low), Fixed64(2, sensor.high));
    ReadsField(head, EventFields(events));
  }
}
