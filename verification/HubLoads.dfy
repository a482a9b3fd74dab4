/** What whole loads do: printed files, hub records in files, the soc gate, any text at all, and what
    holds over any sequence of loads of any inputs. */
module HubLoads {
  import opened Wrappers
  import opened CString
  import opened SensingHub
  import opened ConfigGrammar
  import opened ConfigTree
  import opened HubConfigParser
  import opened AnyText

  // ---- printed files ----

  predicate NoConfig(ts: seq<Top>) {
    forall t :: t in ts ==> t.Plain?
  }

  /** A config group has no entries. */
  function EntriesOfTop(t: Top): seq<Entry>
    requires WfTop(t)
  {
    match t case Plain(head, ms) => EntriesOf(ms, head.key) case Config(_, _, _) => []
  }

  /** The entries of a document in order. */
  function Document(ts: seq<Top>): seq<Entry>
    requires forall t :: t in ts ==> WfTop(t)
  {
    if ts == [] then []
    else
      assert WfTop(ts[0]);
      EntriesOfTop(ts[0]) + Document(ts[1..])
  }

  /** How many groups there are in front of the first config group whose gate is closed: its soc list,
      with those of the config groups before it, has entries, and none of them is the device's soc. */
  function Reached(ts: seq<Top>, socs: seq<int>, soc: int, device: int): (r: nat)
    ensures r <= |ts|
  {
    if ts == [] then 0
    else
      match ts[0]
      case Plain(_, _) => 1 + Reached(ts[1..], socs, soc, device)
      case Config(_, cs, _) =>
        var ids := socs + SocIdsOf(cs);
        var found := Matched(ids, soc, device);
        if ids != [] && found == -1 then 0 else 1 + Reached(ts[1..], ids, found, device)
  }

  lemma {:induction false} MeaningReached(ts: seq<Top>, h: Hub, socs: seq<int>, soc: int, device: int)
    requires forall t :: t in ts ==> WfTop(t)
    ensures var load := Meaning(ts, h, socs, soc, device);
            load.exit == Return(0) && load.hub == Run(h, Document(ts[..Reached(ts, socs, soc, device)]))
    decreases |ts|
  {
    hide EntriesOf, WfTop, SocIdsOf, Matched, Run, Document;
    var n := Reached(ts, socs, soc, device);
    RunNothing(h);
    if ts != [] {
      assert WfTop(ts[0]);
      match ts[0] {
        case Plain(head, ms) =>
          var g := RunTop(h, ts, n);
          MeaningReached(ts[1..], g, socs, soc, device);
        case Config(_, cs, _) =>
          if n > 0 {
            var ids := socs + SocIdsOf(cs);
            var g := RunTop(h, ts, n);
            MeaningReached(ts[1..], h, ids, Matched(ids, soc, device), device);
          }
      }
    }
  }

  lemma RunNothing(h: Hub)
    ensures Document([]) == [] && Run(h, []) == h
  {
  }

  /** The first of some groups comes before the others. */
  lemma RunTop(h: Hub, ts: seq<Top>, n: nat) returns (g: Hub)
    requires 0 < n <= |ts| && forall t :: t in ts ==> WfTop(t)
    ensures ts[0] in ts && g == Run(h, EntriesOfTop(ts[0])) && (ts[0].Config? ==> g == h)
    ensures Run(h, Document(ts[..n])) == Run(g, Document(ts[1..][..n - 1]))
  {
    hide EntriesOf, WfTop;
    assert ts[0] in ts;
    g := Run(h, EntriesOfTop(ts[0]));
    assert ts[..n][1..] == ts[1..][..n - 1];
    RunConcat(h, EntriesOfTop(ts[0]), Document(ts[1..][..n - 1]));
  }

  lemma {:induction false} MeaningOfPlain(ts: seq<Top>, h: Hub, socs: seq<int>, soc: int, device: int)
    requires NoConfig(ts) && forall t :: t in ts ==> WfTop(t)
    ensures Reached(ts, socs, soc, device) == |ts|
    ensures Meaning(ts, h, socs, soc, device) == Load(Return(0), Run(h, Document(ts)), socs, soc)
    decreases |ts|
  {
    if ts != [] {
      hide EntriesOf, WfMembers;
      assert WfTop(ts[0]) && ts[0].Plain?;
      var es := EntriesOf(ts[0].members, ts[0].head.key);
      MeaningOfPlain(ts[1..], Run(h, es), socs, soc, device);
      RunConcat(h, es, Document(ts[1..]));
    }
  }

  /** Loading the text of any tree succeeds, and leaves what the entries in front of the first closed
      gate, in document order, make of the parser: all entries where there is no config group. */
  lemma PrintedLoad(f: File, h: Hub, device: int, stale: Stale)
    requires WfFile(f)
    ensures var load := HubLoad(h, Some(ShowFile(f)), device, stale);
            && load.exit == Return(0)
            && load.hub == Run(Reset(h), Document(f.tops[..Reached(f.tops, [], -1, device)]))
            && (NoConfig(f.tops) ==> load == Load(Return(0), Run(Reset(h), Document(f.tops)), [], -1))
  {
    hide Meaning, Document, Reached, WfTop, Run, ShowFile, ParseFile;
    FileRoundTrip(f, Reset(h), [], -1, device, stale);
    MeaningReached(f.tops, Reset(h), [], -1, device);
    if NoConfig(f.tops) {
      MeaningOfPlain(f.tops, Reset(h), [], -1, device);
    }
  }

  /** From a file to the getters: when the entries that a printed file's gates let through are those of
      a series of hub records, names and links answer with the first record that has them, link names
      with the last one given, and the id list with all records in order. */
  lemma PrintedRecords(f: File, bs: seq<Block>, h: Hub, device: int, stale: Stale, platform: string, id: int)
    requires WfFile(f) && Document(f.tops[..Reached(f.tops, [], -1, device)]) == Entries(bs)
    requires forall b :: b in bs ==> IsRecord(b.es, b.at, b.record)
    ensures var load := HubLoad(h, Some(ShowFile(f)), device, stale);
            && load.exit == Return(0)
            && Lookup(load.hub.nameId, platform)
               == (if platform in h.nameId then Some(h.nameId[platform]) else FirstOf(NamePairs(bs), platform))
            && Lookup(load.hub.comm, id) == (if id in h.comm then Some(h.comm[id]) else FirstOf(CommPairs(bs), id))
            && Lookup(load.hub.idName, id) == (if LinkOf(bs, id).Some? then LinkOf(bs, id) else Lookup(h.idName, id))
            && load.hub.ids == RecordIds(bs)
  {
    hide Run, HubLoad, IsRecord, ShowFile, WfTop, Document, Entries, Reached, LinkOf;
    PrintedLoad(f, h, device, stale);
    RecordsAnswer(Reset(h), bs, platform, id);
  }

  /** After the load of such a file by a parser that did not know the hub, the link type that is asked
      for is 0 or 1 and the link value is the record's, for the first record of the hub. */
  lemma PrintedLinks(f: File, bs: seq<Block>, h: Hub, device: int, stale: Stale, id: int)
    requires WfFile(f) && Document(f.tops[..Reached(f.tops, [], -1, device)]) == Entries(bs)
    requires (forall b :: b in bs ==> IsRecord(b.es, b.at, b.record)) && id !in h.comm
    ensures var comm := HubLoad(h, Some(ShowFile(f)), device, stale).hub.comm;
            match FirstRecord(bs, id)
            case None => id !in comm
            case Some(r) =>
              id in comm && comm[id].value == r.value && Stoi(comm[id].kind) == Some(if r.kind.Qmi? then 0 else 1)
  {
    hide Run, HubLoad, IsRecord, ShowFile, WfFile, Document, Entries, Reached, LinkOf, FirstRecord, FirstOf,
         CommPairs, Stoi;
    PrintedRecords(f, bs, h, device, stale, "", id);
    FirstCommOf(bs, id);
    if FirstRecord(bs, id).Some? {
      TypeNumbers(FirstRecord(bs, id).value);
    }
  }

  // ---- the soc gate ----

  /** A file whose first group is the config group, and its only one: the other groups count exactly
      if the soc list is empty or has the device's soc, which must not be -1. */
  lemma SocGate(f: File, h: Hub, device: int, stale: Stale)
    requires WfFile(f) && f.tops[0].Config? && NoConfig(f.tops[1..])
    ensures var socs := SocIdsOf(f.tops[0].cells);
            var gate := socs == [] || (device in socs && device != -1);
            var load := HubLoad(h, Some(ShowFile(f)), device, stale);
            && load.exit == Return(0) && load.socs == socs
            && load.hub == (if gate then Run(Reset(h), Document(f.tops[1..])) else Reset(h))
            && Reached(f.tops, [], -1, device) == if gate then |f.tops| else 0
  {
    FileRoundTrip(f, Reset(h), [], -1, device, stale);
    var socs := SocIdsOf(f.tops[0].cells);
    assert [] + socs == socs;
    MeaningOfPlain(f.tops[1..], Reset(h), socs, Matched(socs, -1, device), device);
  }

  // ---- any text ----

  /** The top-level groups that a load of a text reaches. */
  function FileTurns(s: string, device: int): seq<Turn> {
    var a := SkipSpace(s);
    if a != "" && a[0] == '{' then Turns(Turn(SkipSpace(a[1..]), [], -1), device) else []
  }

  /** A load of any text runs the items of the groups it reaches, in order; the exit, the soc list and the
      matched soc are as the last of these groups leaves them. */
  lemma LoadTrace(s: string, h: Hub, device: int, stale: Stale)
    ensures var load := HubLoad(h, Some(s), device, stale);
            var ts := FileTurns(s, device);
            if ts == [] then load == Load(Return(-1), Reset(h), [], -1)
            else load == Load(LastExit(ts[|ts| - 1]), Run(Reset(h), EntriesOfSlots(SlotsOf(ts), stale)),
                              SocsBehind(ts[|ts| - 1]), SocBehind(ts[|ts| - 1], device))
  {
    hide SkipSpace, Groups, Turns, EntriesOfSlots, Run, LastExit, SocsBehind, SocBehind, SlotsOf;
    var a := SkipSpace(s);
    if StartsWith(a, '{') {
      GroupsTrace(a[1..], Reset(h), [], -1, device, stale);
    }
  }

  lemma LoadRuns(s: string, h: Hub, device: int, stale: Stale)
    ensures HubLoad(h, Some(s), device, stale).hub
            == Run(Reset(h), EntriesOfSlots(SlotsOf(FileTurns(s, device)), stale))
  {
    hide HubLoad, FileTurns, EntriesOfSlots, Run, LastExit, SocsBehind, SocBehind;
    LoadTrace(s, h, device, stale);
    RunNone(Reset(h), stale);
  }

  /** A load of any text returns -1 exactly if the opening bracket is missing, or it reaches a group
      without a head, with a string for a body, or a plain one that is rejected; it throws exactly if
      it reaches a soc_id token that is no number; else it returns 0. */
  lemma LoadExit(s: string, h: Hub, device: int, stale: Stale)
    ensures var exit := HubLoad(h, Some(s), device, stale).exit;
            var ts := FileTurns(s, device);
            && (exit == Return(-1) <==> !StartsWith(SkipSpace(s), '{') || exists t :: t in ts && Fails(t))
            && (exit == Throws <==> exists t :: t in ts && ConfigThrows(t))
            && (exit == Return(-1) || exit == Throws || exit == Return(0))
  {
    hide SkipSpace, Groups, Turns, Fails, ConfigThrows;
    var a := SkipSpace(s);
    if StartsWith(a, '{') {
      GroupsExit(a[1..], Reset(h), [], -1, device, stale);
    }
  }

  /** So a config group that parseConfig rejects never fails a load: wherever it stands, it ends the
      load with success and what the groups before it made of the accumulator. */
  lemma BrokenConfigLoads(s: string, h: Hub, device: int, stale: Stale, k: nat)
    requires k < |FileTurns(s, device)| && RejectedConfig(FileTurns(s, device)[k])
    ensures var ts := FileTurns(s, device);
            var load := HubLoad(h, Some(s), device, stale);
            && k == |ts| - 1 && load.exit == Return(0)
            && load.hub == Run(Reset(h), EntriesOfSlots(SlotsOf(ts[..k]), stale))
  {
    hide SkipSpace, Groups, Turns, EntriesOfSlots, Run, RejectedConfig;
    RejectedConfigEnds(SkipSpace(s)[1..], Reset(h), [], -1, device, stale, k);
  }

  /** A head without white space, and the pair it is read as in front of a square bracket. */
  lemma HeadText(key: string, rest: string)
    ensures ShowHead(Plainly(key), rest) == "\"" + key + "\":" + rest
  {
  }

  function Plainly(key: string): Head {
    Head("", key, "", "")
  }

  lemma BracketPair(key: string, rest: string)
    requires Text(key) && (StartsWith(rest, '[') || StartsWith(rest, '{'))
    ensures ParsePair(SkipSpace(ShowHead(Plainly(key), rest))) == Pair(key, None, rest)
  {
    hide ParsePair, ShowHead;
    PairOfHead(Plainly(key), rest);
  }

  /** A text that starts with its bracket is parsed from behind it. */
  lemma ParsedBehind(t: string, h: Hub, device: int, stale: Stale)
    ensures HubLoad(h, Some("{" + t), device, stale) == Groups(t, Reset(h), [], -1, device, stale)
  {
    hide Groups, SkipSpace;
    NoBlank('{', t);
    assert ("{" + t)[1..] == t;
  }

  /** Such a text: a config group that opens with the wrong bracket. */
  lemma BrokenConfigText(h: Hub, device: int, stale: Stale)
    ensures HubLoad(h, Some("{\"config\":[}"), device, stale) == Load(Return(0), Reset(h), [], -1)
  {
    hide HubLoad, ShowHead, ParsePair, SkipSpace, Groups;
    var t := ShowHead(Plainly("config"), "[}");
    HeadText("config", "[}");
    assert "{\"config\":[}" == "{" + t;
    ParsedBehind(t, h, device, stale);
    BracketPair("config", "[}");
    BrokenConfigGroup(t, Reset(h), device, stale);
  }

  lemma BrokenConfigGroup(t: string, h: Hub, device: int, stale: Stale)
    requires ParsePair(SkipSpace(t)) == Pair("config", None, "[}")
    ensures Groups(t, h, [], -1, device, stale) == Load(Return(0), h, [], -1)
  {
    hide ParsePair, SkipSpace;
    NoBlank('[', "}");
    assert "[}" == ['['] + "}";
  }

  /** A text whose one item lacks its bracket: the load succeeds, and the id is whatever number the value
      buffer held. */
  lemma StaleIdText(h: Hub, device: int, stale: Stale)
    ensures var load := HubLoad(h, Some("{\"g\":{\"sensing_hub_id\":[}}"), device, stale);
            load.exit == Return(0) && load.hub.ids == [Atoi(stale(3))]
  {
    hide HubLoad, ShowHead, ParsePair, SkipSpace, Groups, Update, StartsWith;
    var item := ShowHead(Plainly("sensing_hub_id"), "[}}");
    var t := ShowHead(Plainly("g"), "{" + item);
    StaleText();
    ParsedBehind(t, h, device, stale);
    StaleHeads(item);
    StaleGroup(t, item, Reset(h), device, stale);
    StaleId(Reset(h), stale(3));
  }

  lemma StaleText()
    ensures "{" + ShowHead(Plainly("g"), "{" + ShowHead(Plainly("sensing_hub_id"), "[}}"))
         == "{\"g\":{\"sensing_hub_id\":[}}"
  {
    hide ShowHead, Plainly;
    ItemText();
    HeadText("g", "{" + "\"sensing_hub_id\":[}}");
  }

  lemma ItemText()
    ensures ShowHead(Plainly("sensing_hub_id"), "[}}") == "\"sensing_hub_id\":[}}"
  {
    hide ShowHead, Plainly;
    HeadText("sensing_hub_id", "[}}");
  }

  lemma StaleHeads(item: string)
    ensures ParsePair(SkipSpace(ShowHead(Plainly("sensing_hub_id"), "[}}"))) == Pair("sensing_hub_id", None, "[}}")
    ensures ParsePair(SkipSpace(ShowHead(Plainly("g"), "{" + item))) == Pair("g", None, "{" + item)
  {
    hide ParsePair, ShowHead, SkipSpace;
    BracketPair("sensing_hub_id", "[}}");
    BracketPair("g", "{" + item);
  }

  lemma StaleGroup(t: string, item: string, h: Hub, device: int, stale: Stale)
    requires ParsePair(SkipSpace(t)) == Pair("g", None, "{" + item)
    requires ParsePair(SkipSpace(item)) == Pair("sensing_hub_id", None, "[}}")
    ensures var g := Update(h, Entry("g", "sensing_hub_id", stale(3)));
            Groups(t, h, [], -1, device, stale) == Load(Return(0), g, [], -1)
  {
    hide ParsePair, SkipSpace, ParseMember, Update;
    StaleMember(item, h, stale);
    NoBlank('}', "}");
    assert "}}" == ['}'] + "}" && ("{" + item)[1..] == item;
    var g := Update(h, Entry("g", "sensing_hub_id", stale(3)));
    assert ParseMembers(item, "g", h, stale) == Group(true, g, "}");
  }

  lemma StaleMember(item: string, h: Hub, stale: Stale)
    requires ParsePair(SkipSpace(item)) == Pair("sensing_hub_id", None, "[}}")
    ensures ParseMember(SkipSpace(item), "g", h, stale)
         == Group(true, Update(h, Entry("g", "sensing_hub_id", stale(3))), "}}")
  {
    hide SkipSpace, ParsePair, Update;
    assert "[}}"[1..] == "}}";
  }

  lemma StaleId(h: Hub, data: string)
    ensures Update(h, Entry("g", "sensing_hub_id", data)).ids == h.ids + [Atoi(data)]
  {
    assert FactOf(Entry("g", "sensing_hub_id", data)) == Fact(false, HubId, data);
  }

  /** The entries that reach the accumulator in a load of a text are the same whatever the value buffer
      held exactly if every item that is reached has its data. */
  lemma LoadEntriesExactly(s: string, device: int)
    ensures var slots := SlotsOf(FileTurns(s, device));
            (forall st: Stale, st': Stale :: EntriesOfSlots(slots, st) == EntriesOfSlots(slots, st'))
                <==> HaveData(slots)
  {
    hide FileTurns, SlotsOf;
    EntriesExactly(SlotsOf(FileTurns(s, device)));
  }

  /** And then the whole load is the same. */
  lemma LoadSettled(s: string, h: Hub, device: int, st: Stale, st': Stale)
    requires HaveData(SlotsOf(FileTurns(s, device)))
    ensures HubLoad(h, Some(s), device, st) == HubLoad(h, Some(s), device, st')
  {
    hide SkipSpace, Groups, Turns, HaveData;
    var a := SkipSpace(s);
    if StartsWith(a, '{') {
      GroupsSettled(a[1..], Reset(h), [], -1, device, st, st');
    }
  }

  // ---- any sequence of loads of any inputs ----

  predicate Kept(h: Hub, g: Hub) {
    && (forall n :: n in h.nameId ==> n in g.nameId && g.nameId[n] == h.nameId[n])
    && (forall i :: i in h.comm ==> i in g.comm && g.comm[i] == h.comm[i])
  }

  predicate Sound(h: Hub) {
    && (forall n :: n in h.nameId ==> n != "" && h.nameId[n] != -1)
    && (forall i :: i in h.comm ==> i != -1 && h.comm[i].kind != "" && h.comm[i].value != -1)
  }

  /** Whatever g has in its maps and h has not is about an id in g's id list. */
  predicate Listed(h: Hub, g: Hub) {
    && (forall n :: n in g.nameId && n !in h.nameId ==> g.nameId[n] in g.ids)
    && (forall i :: i in g.comm && i !in h.comm ==> i in g.ids)
  }

  /** The id being collected is in the id list. */
  predicate Held(h: Hub) {
    h.id != -1 ==> h.id in h.ids
  }

  predicate Advance(h: Hub, g: Hub) {
    && Kept(h, g) && h.ids <= g.ids
    && (Sound(h) ==> Sound(g))
    && (Held(h) ==> Held(g) && Listed(h, g))
  }

  lemma AdvanceTrans(h: Hub, g: Hub, k: Hub)
    requires Advance(h, g) && Advance(g, k)
    ensures Advance(h, k)
  {
    hide Sound, Held;
    assert forall i :: i in g.ids ==> i in k.ids;
  }

  lemma SameMapsAdvance(h: Hub, g: Hub)
    requires g.nameId == h.nameId && g.comm == h.comm && h.ids <= g.ids && (Held(h) ==> Held(g))
    ensures Advance(h, g)
  {
  }

  predicate SameMaps(h: Hub, g: Hub) {
    g.nameId == h.nameId && g.comm == h.comm && g.ids == h.ids && g.id == h.id
  }

  lemma CommKeeps(h: Hub, key: Key, data: string)
    ensures SameMaps(h, AbsorbComm(h, key, data))
  {
    hide Atoi;
  }

  lemma AbsorbKeeps(h: Hub, f: Fact)
    requires !f.key.HubId?
    ensures SameMaps(h, Absorb(h, f))
  {
    hide AbsorbComm;
    CommKeeps(if f.inComm then h.(inComm := true) else h, f.key, f.data);
  }

  lemma AbsorbId(h: Hub, f: Fact)
    requires f.key.HubId?
    ensures var g := Absorb(h, f); g.nameId == h.nameId && g.comm == h.comm && h.ids <= g.ids && Held(g)
  {
    var g := Absorb(h, f);
    assert g.ids == h.ids + [g.id] && g.ids[|h.ids|] == g.id;
  }

  lemma AbsorbAdvance(h: Hub, f: Fact)
    ensures Advance(h, Absorb(h, f))
  {
    hide Advance, Absorb;
    if f.key.HubId? {
      AbsorbId(h, f);
    } else {
      AbsorbKeeps(h, f);
    }
    SameMapsAdvance(h, Absorb(h, f));
  }

  lemma StoreNameAdvance(h: Hub)
    ensures Advance(h, StoreName(h))
  {
    hide PutNew;
    PutNewKeeps(h.nameId, h.platform, h.id);
  }

  lemma PutNewKeeps<K, V>(m: map<K, V>, k: K, v: V)
    ensures var r := PutNew(m, k, v);
            && (forall x :: x in m ==> x in r && r[x] == m[x])
            && (forall x :: x in r && x !in m ==> x == k && r[x] == v)
  {
  }

  lemma StoreCommAdvance(h: Hub)
    ensures Advance(h, StoreComm(h))
  {
    hide PutNew;
    PutNewKeeps(h.comm, h.id, Comm(h.kind, h.value));
  }

  lemma UpdateAdvance(h: Hub, e: Entry)
    ensures Advance(h, Update(h, e))
  {
    hide Advance, Absorb, StoreName, StoreComm, FactOf;
    var a := Absorb(h, FactOf(e));
    AbsorbAdvance(h, FactOf(e));
    StoreNameAdvance(a);
    StoreCommAdvance(StoreName(a));
    var c := StoreComm(StoreName(a));
    FinishAdvance(c);
    AdvanceTrans(h, a, StoreName(a));
    AdvanceTrans(h, StoreName(a), c);
    AdvanceTrans(h, c, Finish(c));
  }

  lemma FinishAdvance(h: Hub)
    ensures Advance(h, Finish(h))
  {
  }

  lemma AdvanceSame(h: Hub)
    ensures Advance(h, h)
  {
  }

  lemma {:induction false} RunAdvance(h: Hub, es: seq<Entry>)
    ensures Advance(h, Run(h, es))
    decreases |es|
  {
    hide Advance, Update;
    if es == [] {
      AdvanceSame(h);
    } else {
      var init := es[..|es| - 1];
      RunAdvance(h, init);
      UpdateAdvance(Run(h, init), es[|es| - 1]);
      AdvanceTrans(h, Run(h, init), Run(h, es));
    }
  }

  /** One load of any input, successful or not. */
  lemma LoadKeeps(h: Hub, file: Option<string>, device: int, stale: Stale)
    ensures var g := HubLoad(h, file, device, stale).hub;
            Kept(h, g) && Listed(h, g) && (Sound(h) ==> Sound(g))
  {
    hide HubLoad, Run, FileTurns, Kept, Listed, Sound, Advance, EntriesOfSlots, Reset;
    if file.Some? {
      LoadRuns(file.value, h, device, stale);
      RunAdvance(Reset(h), EntriesOfSlots(SlotsOf(FileTurns(file.value, device)), stale));
    } else {
      NoFile(h, device, stale);
      AdvanceSame(Reset(h));
    }
    ResetAdvance(h, HubLoad(h, file, device, stale).hub);
  }

  /** The reset keeps the maps, and leaves nothing that is being collected. */
  lemma ResetAdvance(h: Hub, g: Hub)
    requires Advance(Reset(h), g)
    ensures Kept(h, g) && Listed(h, g) && (Sound(h) ==> Sound(g))
  {
    assert Sound(h) ==> Sound(Reset(h));
  }

  lemma NoFile(h: Hub, device: int, stale: Stale)
    ensures HubLoad(h, None, device, stale) == Load(Return(-1), Reset(h), [], -1)
  {
  }

  datatype Input = Input(file: Option<string>, stale: Stale)

  function LoadAll(h: Hub, inputs: seq<Input>, device: int): Hub {
    if inputs == [] then h
    else
      var last := inputs[|inputs| - 1];
      HubLoad(LoadAll(h, inputs[..|inputs| - 1], device), last.file, device, last.stale).hub
  }

  /** Over any sequence of loads an entry of the name-to-id or comm map never changes, and no id or
      value that is stored is -1, no type or platform empty. */
  lemma {:induction false} LoadsKeep(h: Hub, inputs: seq<Input>, device: int)
    requires Sound(h)
    ensures Kept(h, LoadAll(h, inputs, device)) && Sound(LoadAll(h, inputs, device))
    decreases |inputs|
  {
    if inputs != [] {
      hide HubLoad, Sound;
      var init, last := inputs[..|inputs| - 1], inputs[|inputs| - 1];
      LoadsKeep(h, init, device);
      LoadKeeps(LoadAll(h, init, device), last.file, device, last.stale);
    }
  }
}
