/** The accumulator behind the hub-config parser: one entry of the file after another is
    absorbed, and a complete hub record is committed to the maps. */
module SensingHub {
  import opened Wrappers
  import opened CString

  /** One item of a config file: the group it is in, its name and its "data" value. */
  datatype Entry = Entry(group: string, key: string, data: string)

  datatype Comm = Comm(kind: string, value: int)

  datatype Hub = Hub(
    nameId: map<string, int>,     // mSensingHubNameIdMap
    comm: map<int, Comm>,         // mSensingHubCommMap
    idName: map<int, string>,     // mSensingHubIdNameMap
    ids: seq<int>,                // mHubIds
    readAttr: bool, inComm: bool,
    id: int, platform: string, kind: string, value: int,
    nameFilled: bool, commFilled: bool)

  const COMM_GROUP := ".client_comm"
  const QMI := "0"
  const GLINK := "1"
  const APPS := "apps"

  /** unordered_map::insert: an existing key keeps its value. */
  function PutNew<K, V>(m: map<K, V>, k: K, v: V): map<K, V> {
    if k in m then m else m[k := v]
  }

  // ---- updateSensingHubInfo as a function ----

  /** The keys updateSensingHubInfo tells apart. */
  datatype Key = PlatformId | HubId | CommType | ServiceId | LinkName | Channels | OtherKey

  function KeyOf(key: string): Key {
    if key == "platform_id" then PlatformId
    else if key == "sensing_hub_id" then HubId
    else if key == "client_comm_type" then CommType
    else if key == "service_id" then ServiceId
    else if key == "link_name" then LinkName
    else if key == "no_of_channels" then Channels
    else OtherKey
  }

  /** An entry as updateSensingHubInfo sees it. */
  datatype Fact = Fact(inComm: bool, key: Key, data: string)

  function FactOf(e: Entry): Fact {
    Fact(e.group == COMM_GROUP, KeyOf(e.key), e.data)
  }

  function Absorb(h0: Hub, f: Fact): Hub {
    var h := if f.inComm then h0.(inComm := true) else h0;
    if f.key.PlatformId? then h.(platform := f.data)
    else if f.key.HubId? then h.(id := Atoi(f.data), ids := h.ids + [Atoi(f.data)])
    else if f.key.CommType? then h.(kind := f.data)
    else AbsorbComm(h, f.key, f.data)
  }

  function AbsorbComm(h: Hub, key: Key, data: string): Hub {
    if h.inComm && key.ServiceId? then
      h.(value := if h.kind == QMI then Atoi(data) else h.value, inComm := false)
    else if h.inComm && key.LinkName? && data != APPS then h.(idName := h.idName[h.id := data])
    else if h.inComm && data != APPS && !key.LinkName? then h.(readAttr := true, inComm := false)
    else if key.Channels? && h.readAttr then
      h.(value := if h.kind == GLINK then Atoi(data) else h.value)
    else h
  }

  function StoreName(h: Hub): Hub {
    if h.id != -1 && h.platform != "" then h.(nameId := PutNew(h.nameId, h.platform, h.id), nameFilled := true) else h
  }

  function StoreComm(h: Hub): Hub {
    if h.id != -1 && h.kind != "" && h.value != -1
    then h.(comm := PutNew(h.comm, h.id, Comm(h.kind, h.value)), commFilled := true) else h
  }

  function Clear(h: Hub): Hub {
    h.(readAttr := false, id := -1, platform := "", kind := "", value := -1, nameFilled := false, commFilled := false)
  }

  function Finish(h: Hub): Hub {
    if h.nameFilled && h.commFilled then Clear(h) else h
  }

  function Apply(h: Hub, f: Fact): Hub {
    Finish(StoreComm(StoreName(Absorb(h, f))))
  }

  function Update(h: Hub, e: Entry): Hub {
    Apply(h, FactOf(e))
  }

  /** All entries of a document, in order. */
  function Run(h: Hub, es: seq<Entry>): Hub {
    if es == [] then h else Update(Run(h, es[..|es| - 1]), es[|es| - 1])
  }

  lemma {:induction false} RunConcat(h: Hub, a: seq<Entry>, b: seq<Entry>)
    ensures Run(h, a + b) == Run(Run(h, a), b)
    decreases |b|
  {
    if b == [] {
      assert a + b == a;
    } else {
      var init := b[..|b| - 1];
      assert (a + b)[..|a + b| - 1] == a + init;
      RunConcat(h, a, init);
    }
  }

  /** What resetParserState leaves of the accumulators. */
  function Reset(h: Hub): Hub {
    Clear(h).(ids := [], inComm := false)
  }

  predicate Idle(h: Hub) {
    !h.readAttr && !h.inComm && h.id == -1 && h.platform == "" && h.kind == "" && h.value == -1
    && !h.nameFilled && !h.commFilled
  }

  // ---- what each entry does, by its name ----

  /** The part of updateSensingHubInfo that every entry ends with. */
  function Commit(h: Hub): Hub {
    Finish(StoreComm(StoreName(h)))
  }

  /** A hub id and a platform enter the name map, a hub id, a type and a value enter the comm map, known
      keys kept; when both have happened since the last time, the record is forgotten. */
  lemma CommitEffect(h: Hub)
    ensures var named := h.id != -1 && h.platform != "";
            var linked := h.id != -1 && h.kind != "" && h.value != -1;
            var names := if named && h.platform !in h.nameId then h.nameId[h.platform := h.id] else h.nameId;
            var comms := if linked && h.id !in h.comm then h.comm[h.id := Comm(h.kind, h.value)] else h.comm;
            var g := h.(nameId := names, comm := comms,
                        nameFilled := h.nameFilled || named, commFilled := h.commFilled || linked);
            Commit(h) == if !g.nameFilled || !g.commFilled then g
                         else g.(readAttr := false, id := -1, platform := "", kind := "", value := -1,
                                 nameFilled := false, commFilled := false)
  {
    StoreEffect(h);
    hide StoreComm, StoreName;
  }

  lemma StoreEffect(h: Hub)
    ensures var named := h.id != -1 && h.platform != "";
            var linked := h.id != -1 && h.kind != "" && h.value != -1;
            var names := if named && h.platform !in h.nameId then h.nameId[h.platform := h.id] else h.nameId;
            var comms := if linked && h.id !in h.comm then h.comm[h.id := Comm(h.kind, h.value)] else h.comm;
            StoreComm(StoreName(h)) == h.(nameId := names, comm := comms,
                                          nameFilled := h.nameFilled || named, commFilled := h.commFilled || linked)
  {
    var g := StoreName(h);
    assert g.id == h.id && g.kind == h.kind && g.value == h.value && g.comm == h.comm;
  }

  function Entered(h: Hub, group: string): Hub {
    if group == ".client_comm" then h.(inComm := true) else h
  }

  lemma UpdateByKey(h: Hub, group: string, key: string, data: string)
    ensures var i := Entered(h, group);
            Update(h, Entry(group, key, data))
            == Commit(match KeyOf(key)
                      case PlatformId => i.(platform := data)
                      case HubId => i.(id := Atoi(data), ids := i.ids + [Atoi(data)])
                      case CommType => i.(kind := data)
                      case k => AbsorbComm(i, k, data))
  {
    hide KeyOf, AbsorbComm, Commit, Finish, StoreComm, StoreName;
    hide Atoi;
    CommitIs(Absorb(h, Fact(group == COMM_GROUP, KeyOf(key), data)));
  }

  lemma CommitIs(h: Hub)
    ensures Commit(h) == Finish(StoreComm(StoreName(h)))
  {
    hide Finish, StoreComm, StoreName;
  }

  /** The three parts of a hub that stand outside its link. */
  lemma PartEntries(h: Hub, group: string, data: string)
    ensures var i := Entered(h, group);
            && Update(h, Entry(group, "platform_id", data)) == Commit(i.(platform := data))
            && Update(h, Entry(group, "sensing_hub_id", data))
                == Commit(i.(id := Atoi(data), ids := i.ids + [Atoi(data)]))
            && Update(h, Entry(group, "client_comm_type", data)) == Commit(i.(kind := data))
  {
    hide KeyOf, Commit, Update, Unnamed, Entered, Atoi, AbsorbComm;
    KeyNames("platform_id");
    KeyNames("sensing_hub_id");
    KeyNames("client_comm_type");
    UpdateByKey(h, group, "platform_id", data);
    UpdateByKey(h, group, "sensing_hub_id", data);
    UpdateByKey(h, group, "client_comm_type", data);
  }

  /** service_id counts in .client_comm only, for a type "0", and ends that group; a link name other than
      "apps" counts there too. */
  lemma LinkEntries(h: Hub, group: string, data: string)
    ensures var i := Entered(h, group);
            && Update(h, Entry(group, "service_id", data))
               == Commit(if !i.inComm then i
                         else i.(value := if i.kind == "0" then Atoi(data) else i.value, inComm := false))
            && Update(h, Entry(group, "link_name", data))
               == Commit(if i.inComm && data != "apps" then i.(idName := i.idName[i.id := data]) else i)
  {
    hide KeyOf, Commit, Update, Unnamed, Entered, Atoi;
    KeyNames("service_id");
    KeyNames("link_name");
    UpdateByKey(h, group, "service_id", data);
    UpdateByKey(h, group, "link_name", data);
  }

  /** Any other item in .client_comm that is not "apps" ends that group and opens the way for
      no_of_channels, which counts for a type "1". */
  lemma OtherEntries(h: Hub, group: string, key: string, data: string)
    requires Unnamed(key)
    ensures var i := Entered(h, group);
            && Update(h, Entry(group, key, data))
               == Commit(if i.inComm && data != "apps" then i.(readAttr := true, inComm := false) else i)
            && Update(h, Entry(group, "no_of_channels", data))
               == Commit(if i.inComm && data != "apps" then i.(readAttr := true, inComm := false)
                         else if i.readAttr then i.(value := if i.kind == "1" then Atoi(data) else i.value)
                         else i)
  {
    hide KeyOf, Commit, Update, Unnamed, Entered, Atoi;
    KeyNames(key);
    KeyNames("no_of_channels");
    UpdateByKey(h, group, key, data);
    UpdateByKey(h, group, "no_of_channels", data);
  }

  // ---- complete hub records ----

  datatype Kind = Qmi | Glink

  datatype Record = Record(kind: Kind, platform: string, id: int, value: int)

  function Comms(r: Record): Comm {
    Comm(if r.kind.Qmi? then "0" else "1", r.value)
  }

  /** Where in its entries a record has its parts; close is its last .client_comm entry. */
  datatype Layout = Layout(platform: nat, id: nat, kind: nat, value: nat, close: nat)

  /** The entries of one record. Platform, id and type stand once each, outside .client_comm and in
      any order; link names come after the id, inside .client_comm; other entries are free. A QMI
      record ends its .client_comm entries with service_id, after the type. A GLINK record ends them
      with an entry of no special meaning that is not "apps", and has no_of_channels after that, in
      another group and after the type. */
  predicate IsRecord(es: seq<Entry>, at: Layout, r: Record) {
    && at.platform < |es| && at.id < |es| && at.kind < at.value < |es|
    && (if r.kind.Qmi? then at.close == at.value else at.close < at.value)
    && r.platform != "" && r.id != -1 && r.value != -1
    && forall k :: 0 <= k < |es| ==> FitsAt(es[k], k, at, r)
  }

  /** What a record with this layout allows as its entry number k. */
  predicate FitsAt(e: Entry, k: nat, at: Layout, r: Record) {
    && (e.key == "platform_id" <==> k == at.platform)
    && (k == at.platform ==> e.group != ".client_comm" && e.data == r.platform)
    && (e.key == "sensing_hub_id" <==> k == at.id)
    && (k == at.id ==> e.group != ".client_comm" && Atoi(e.data) == r.id)
    && (e.key == "client_comm_type" <==> k == at.kind)
    && (k == at.kind ==> e.group != ".client_comm" && e.data == if r.kind.Qmi? then "0" else "1")
    && ((if r.kind.Qmi? then e.key == "service_id" else e.key == "no_of_channels") <==> k == at.value)
    && (k == at.value ==> Atoi(e.data) == r.value)
    && (e.group == ".client_comm" ==> k <= at.close)
    && (k == at.close ==> e.group == ".client_comm")
    && (r.kind.Glink? && k == at.close ==> Unnamed(e.key) && e.data != "apps")
    && (e.key == "link_name" ==> at.id < k && e.group == ".client_comm")
  }

  /** A key without a meaning of its own. */
  predicate Unnamed(key: string) {
    && key != "platform_id" && key != "sensing_hub_id" && key != "client_comm_type"
    && key != "service_id" && key != "link_name" && key != "no_of_channels"
  }

  lemma KeyNames(key: string)
    ensures KeyOf(key).PlatformId? <==> key == "platform_id"
    ensures KeyOf(key).HubId? <==> key == "sensing_hub_id"
    ensures KeyOf(key).CommType? <==> key == "client_comm_type"
    ensures KeyOf(key).ServiceId? <==> key == "service_id"
    ensures KeyOf(key).LinkName? <==> key == "link_name"
    ensures KeyOf(key).Channels? <==> key == "no_of_channels"
    ensures KeyOf(key).OtherKey? <==> Unnamed(key)
  {
    assert |"platform_id"| == 11 && |"sensing_hub_id"| == 14 && |"client_comm_type"| == 16;
    assert |"service_id"| == 10 && |"link_name"| == 9;
    assert "sensing_hub_id"[0] == 's' && "no_of_channels"[0] == 'n';
  }

  lemma FitsFact(e: Entry, k: nat, at: Layout, r: Record)
    requires FitsAt(e, k, at, r)
    ensures Fits(FactOf(e), k, at, r)
  {
    hide KeyOf, Unnamed;
    KeyNames(e.key);
  }

  /** The same on what updateSensingHubInfo sees of an entry. */
  predicate Fits(f: Fact, k: nat, at: Layout, r: Record) {
    && (f.key.PlatformId? <==> k == at.platform)
    && (k == at.platform ==> !f.inComm && f.data == r.platform)
    && (f.key.HubId? <==> k == at.id)
    && (k == at.id ==> !f.inComm && Atoi(f.data) == r.id)
    && (f.key.CommType? <==> k == at.kind)
    && (k == at.kind ==> !f.inComm && f.data == Comms(r).kind)
    && ((if r.kind.Qmi? then f.key.ServiceId? else f.key.Channels?) <==> k == at.value)
    && (k == at.value ==> Atoi(f.data) == r.value)
    && (f.inComm ==> k <= at.close)
    && (k == at.close ==> f.inComm)
    && (r.kind.Glink? && k == at.close ==> f.key.OtherKey? && f.data != APPS)
    && (f.key.LinkName? ==> at.id < k && f.inComm)
  }

  function Named(names: map<int, string>, f: Fact, id: int): map<int, string> {
    if f.key.LinkName? && f.data != APPS then names[id := f.data] else names
  }

  /** A link name is kept unless it is "apps". */
  predicate GivesLink(e: Entry) {
    e.key == "link_name" && e.data != "apps"
  }

  lemma NamedBy(names: map<int, string>, e: Entry, id: int)
    ensures Named(names, FactOf(e), id) == if GivesLink(e) then names[id := e.data] else names
  {
    hide KeyOf, Unnamed;
    KeyNames(e.key);
  }

  /** The link names of a record, the last one for each id. */
  function Links(names: map<int, string>, es: seq<Entry>, id: int): map<int, string> {
    if es == [] then names
    else
      var e, before := es[|es| - 1], Links(names, es[..|es| - 1], id);
      if GivesLink(e) then before[id := e.data] else before
  }

  /** The one effect of a record: its parts are in the maps, first come first kept. */
  function Register(h: Hub, r: Record, es: seq<Entry>): Hub {
    h.(nameId := PutNew(h.nameId, r.platform, r.id),
       comm := PutNew(h.comm, r.id, Comms(r)),
       idName := Links(h.idName, es, r.id),
       ids := h.ids + [r.id])
  }

  /** The accumulator without its flags inComm and readAttr, when the first n entries of a record
      read from h0 are absorbed and the first c of them are committed too. */
  function Halfway(h0: Hub, at: Layout, r: Record, names: map<int, string>, c: nat, n: nat): Hub {
    var named := at.platform < c && at.id < c;
    var linked := at.id < c && at.kind < c && at.value < c;
    var open := !(named && linked);
    Hub(if named then PutNew(h0.nameId, r.platform, r.id) else h0.nameId,
        if linked then PutNew(h0.comm, r.id, Comms(r)) else h0.comm,
        names,
        if at.id < n then h0.ids + [r.id] else h0.ids,
        false, false,
        if at.id < n && open then r.id else -1,
        if at.platform < n && open then r.platform else "",
        if at.kind < n && open then Comms(r).kind else "",
        if at.value < n && open then r.value else -1,
        named && open, linked && open)
  }

  /** The flags inComm and readAttr after k entries, as far as the rest of the record depends on them. */
  predicate FlagsAt(at: Layout, r: Record, k: nat, h: Hub) {
    && (at.close < k ==> !h.inComm)
    && (r.kind.Glink? && at.close < k <= at.value ==> h.readAttr)
    && (at.platform < k && at.id < k && at.value < k ==> !h.readAttr)
  }

  ghost predicate At(h0: Hub, at: Layout, r: Record, names: map<int, string>, k: nat, h: Hub) {
    FlagsAt(at, r, k, h) && h.(inComm := false, readAttr := false) == Halfway(h0, at, r, names, k, k)
  }

  predicate Sane(at: Layout, r: Record) {
    && at.kind < at.value && (if r.kind.Qmi? then at.close == at.value else at.close < at.value)
    && r.platform != "" && r.id != -1 && r.value != -1
  }

  /** Entry k is absorbed and nothing is committed for it yet. */
  ghost predicate Absorbed(h0: Hub, at: Layout, r: Record, names: map<int, string>, k: nat, h: Hub) {
    && (at.close <= k ==> !h.inComm)
    && (r.kind.Glink? && at.close <= k < at.value ==> h.readAttr)
    && (at.platform < k && at.id < k && at.value < k ==> !h.readAttr)
    && h.(inComm := false, readAttr := false) == Halfway(h0, at, r, names, k, k + 1)
  }

  lemma AbsorbPart(h0: Hub, at: Layout, r: Record, names: map<int, string>, k: nat, h: Hub, f: Fact)
    requires Sane(at, r) && Fits(f, k, at, r) && At(h0, at, r, names, k, h)
    requires f.key.PlatformId? || f.key.HubId? || f.key.CommType?
    ensures Absorbed(h0, at, r, Named(names, f, r.id), k, Absorb(h, f))
  {
  }

  lemma AbsorbLink(h0: Hub, at: Layout, r: Record, names: map<int, string>, k: nat, h: Hub, f: Fact)
    requires Sane(at, r) && Fits(f, k, at, r) && At(h0, at, r, names, k, h)
    requires f.key.ServiceId? || f.key.LinkName?
    ensures Absorbed(h0, at, r, Named(names, f, r.id), k, Absorb(h, f))
  {
  }

  lemma AbsorbChannels(h0: Hub, at: Layout, r: Record, names: map<int, string>, k: nat, h: Hub, f: Fact)
    requires Sane(at, r) && Fits(f, k, at, r) && At(h0, at, r, names, k, h)
    requires f.key.Channels?
    ensures Absorbed(h0, at, r, Named(names, f, r.id), k, Absorb(h, f))
  {
  }

  lemma AbsorbOther(h0: Hub, at: Layout, r: Record, names: map<int, string>, k: nat, h: Hub, f: Fact)
    requires Sane(at, r) && Fits(f, k, at, r) && At(h0, at, r, names, k, h)
    requires f.key.OtherKey?
    ensures Absorbed(h0, at, r, Named(names, f, r.id), k, Absorb(h, f))
  {
  }

  lemma CommitStep(h0: Hub, at: Layout, r: Record, names: map<int, string>, k: nat, h: Hub)
    requires Sane(at, r) && Absorbed(h0, at, r, names, k, h)
    ensures At(h0, at, r, names, k + 1, Finish(StoreComm(StoreName(h))))
  {
  }

  lemma RecordStep(h0: Hub, at: Layout, r: Record, names: map<int, string>, k: nat, h: Hub, f: Fact)
    requires Sane(at, r) && Fits(f, k, at, r) && At(h0, at, r, names, k, h)
    ensures At(h0, at, r, Named(names, f, r.id), k + 1, Apply(h, f))
  {
    match f.key {
      case PlatformId | HubId | CommType => AbsorbPart(h0, at, r, names, k, h, f);
      case ServiceId | LinkName => AbsorbLink(h0, at, r, names, k, h, f);
      case Channels => AbsorbChannels(h0, at, r, names, k, h, f);
      case OtherKey => AbsorbOther(h0, at, r, names, k, h, f);
    }
    CommitStep(h0, at, r, Named(names, f, r.id), k, Absorb(h, f));
  }

  lemma RecordStart(h0: Hub, at: Layout, r: Record)
    requires Idle(h0)
    ensures At(h0, at, r, h0.idName, 0, h0)
  {
  }

  lemma PrefixSnoc(h: Hub, es: seq<Entry>, id: int, k: nat)
    requires k < |es|
    ensures Run(h, es[..k + 1]) == Apply(Run(h, es[..k]), FactOf(es[k]))
    ensures Links(h.idName, es[..k + 1], id) == Named(Links(h.idName, es[..k], id), FactOf(es[k]), id)
  {
    hide Apply, FactOf, Named, GivesLink;
    assert es[..k + 1][..k] == es[..k];
    NamedBy(Links(h.idName, es[..k], id), es[k], id);
  }

  lemma {:induction false} RecordPrefix(h0: Hub, es: seq<Entry>, at: Layout, r: Record, k: nat)
    requires Idle(h0) && IsRecord(es, at, r) && k <= |es|
    ensures At(h0, at, r, Links(h0.idName, es[..k], r.id), k, Run(h0, es[..k]))
  {
    hide Apply, Fits, FitsAt, FactOf;
    if k == 0 {
      RecordStart(h0, at, r);
    } else {
      RecordPrefix(h0, es, at, r, k - 1);
      PrefixSnoc(h0, es, r.id, k - 1);
      FitsFact(es[k - 1], k - 1, at, r);
      RecordStep(h0, at, r, Links(h0.idName, es[..k - 1], r.id), k - 1, Run(h0, es[..k - 1]), FactOf(es[k - 1]));
    }
  }

  /** A record read from an idle accumulator registers exactly that record and leaves every
      accumulator and flag as it found it. */
  lemma RecordRun(h: Hub, es: seq<Entry>, at: Layout, r: Record)
    requires Idle(h) && IsRecord(es, at, r)
    ensures Run(h, es) == Register(h, r, es) && Idle(Run(h, es))
  {
    RecordPrefix(h, es, at, r, |es|);
    assert es[..|es|] == es;
  }

  datatype Block = Block(es: seq<Entry>, at: Layout, record: Record)

  function Entries(bs: seq<Block>): seq<Entry> {
    if bs == [] then [] else Entries(bs[..|bs| - 1]) + bs[|bs| - 1].es
  }

  function RegisterAll(h: Hub, bs: seq<Block>): Hub {
    if bs == [] then h else Register(RegisterAll(h, bs[..|bs| - 1]), bs[|bs| - 1].record, bs[|bs| - 1].es)
  }

  /** Records compose: any sequence of them, QMI and GLINK mixed, is read one by one. */
  lemma {:induction false} RecordsRun(h: Hub, bs: seq<Block>)
    requires Idle(h) && forall b :: b in bs ==> IsRecord(b.es, b.at, b.record)
    ensures Run(h, Entries(bs)) == RegisterAll(h, bs) && Idle(RegisterAll(h, bs))
    decreases |bs|
  {
    if bs != [] {
      var init, last := bs[..|bs| - 1], bs[|bs| - 1];
      RecordsRun(h, init);
      RunConcat(h, Entries(init), last.es);
      RecordRun(RegisterAll(h, init), last.es, last.at, last.record);
    }
  }

  // ---- first come, first kept ----

  function PutAll<K, V>(m: map<K, V>, kvs: seq<(K, V)>): map<K, V> {
    if kvs == [] then m
    else PutNew(PutAll(m, kvs[..|kvs| - 1]), kvs[|kvs| - 1].0, kvs[|kvs| - 1].1)
  }

  function FirstOf<K(==), V>(kvs: seq<(K, V)>, k: K): Option<V> {
    if kvs == [] then None else if kvs[0].0 == k then Some(kvs[0].1) else FirstOf(kvs[1..], k)
  }

  function Lookup<K, V>(m: map<K, V>, k: K): Option<V> {
    if k in m then Some(m[k]) else None
  }

  lemma {:induction false} FirstOfSnoc<K, V>(kvs: seq<(K, V)>, kv: (K, V), k: K)
    ensures FirstOf(kvs + [kv], k)
            == if FirstOf(kvs, k).Some? then FirstOf(kvs, k) else if kv.0 == k then Some(kv.1) else None
  {
    if kvs != [] {
      assert (kvs + [kv])[1..] == kvs[1..] + [kv];
      FirstOfSnoc(kvs[1..], kv, k);
    }
  }

  /** After a series of inserts a key has its old value, or else the first one offered for it. */
  lemma {:induction false} PutAllLookup<K, V>(m: map<K, V>, kvs: seq<(K, V)>, k: K)
    ensures Lookup(PutAll(m, kvs), k) == if k in m then Some(m[k]) else FirstOf(kvs, k)
    decreases |kvs|
  {
    if kvs != [] {
      var init, last := kvs[..|kvs| - 1], kvs[|kvs| - 1];
      PutAllLookup(m, init, k);
      FirstOfSnoc(init, last, k);
      assert kvs == init + [last];
    }
  }

  function NamePairs(bs: seq<Block>): seq<(string, int)> {
    seq(|bs|, i requires 0 <= i < |bs| => (bs[i].record.platform, bs[i].record.id))
  }

  function CommPairs(bs: seq<Block>): seq<(int, Comm)> {
    seq(|bs|, i requires 0 <= i < |bs| => (bs[i].record.id, Comms(bs[i].record)))
  }

  function RecordIds(bs: seq<Block>): seq<int> {
    seq(|bs|, i requires 0 <= i < |bs| => bs[i].record.id)
  }

  lemma PairsInit(bs: seq<Block>)
    requires bs != []
    ensures var init, r := bs[..|bs| - 1], bs[|bs| - 1].record;
            && NamePairs(bs) == NamePairs(init) + [(r.platform, r.id)]
            && CommPairs(bs) == CommPairs(init) + [(r.id, Comms(r))]
            && RecordIds(bs) == RecordIds(init) + [r.id]
  {
    hide Comms;
  }

  lemma NoPairs(h: Hub)
    ensures PutAll(h.nameId, NamePairs([])) == h.nameId && PutAll(h.comm, CommPairs([])) == h.comm
            && RecordIds([]) == []
  {
  }

  lemma PutAllSnoc<K, V>(m: map<K, V>, kvs: seq<(K, V)>, k: K, v: V)
    ensures PutAll(m, kvs + [(k, v)]) == PutNew(PutAll(m, kvs), k, v)
  {
    assert (kvs + [(k, v)])[..|kvs|] == kvs;
  }

  lemma {:induction false} RegisterAllMaps(h: Hub, bs: seq<Block>)
    ensures var g := RegisterAll(h, bs);
            && g.nameId == PutAll(h.nameId, NamePairs(bs))
            && g.comm == PutAll(h.comm, CommPairs(bs))
            && g.ids == h.ids + RecordIds(bs)
    decreases |bs|
  {
    hide NamePairs, CommPairs, RecordIds, PutAll, PutNew, Comms, Links;
    if bs == [] {
      NoPairs(h);
    } else {
      var init, r := bs[..|bs| - 1], bs[|bs| - 1].record;
      RegisterAllMaps(h, init);
      PairsInit(bs);
      PutAllSnoc(h.nameId, NamePairs(init), r.platform, r.id);
      PutAllSnoc(h.comm, CommPairs(init), r.id, Comms(r));
    }
  }

  // ---- link names: the last one stays ----

  /** The last link name among the entries of a record that is not "apps". */
  function LastLink(es: seq<Entry>): Option<string> {
    if es == [] then None
    else
      if GivesLink(es[|es| - 1]) then Some(es[|es| - 1].data) else LastLink(es[..|es| - 1])
  }

  /** The last link name that any record gives a hub. */
  function LinkOf(bs: seq<Block>, id: int): Option<string> {
    if bs == [] then None
    else
      var last := bs[|bs| - 1];
      if last.record.id == id && LastLink(last.es).Some? then LastLink(last.es) else LinkOf(bs[..|bs| - 1], id)
  }

  lemma {:induction false} LinksLookup(names: map<int, string>, es: seq<Entry>, id: int, k: int)
    ensures Lookup(Links(names, es, id), k) == if k == id && LastLink(es).Some? then LastLink(es) else Lookup(names, k)
    decreases |es|
  {
    hide GivesLink;
    if es != [] {
      LinksLookup(names, es[..|es| - 1], id, k);
    }
  }

  lemma {:induction false} RegisterAllLinks(h: Hub, bs: seq<Block>, id: int)
    ensures Lookup(RegisterAll(h, bs).idName, id) == if LinkOf(bs, id).Some? then LinkOf(bs, id)
            else Lookup(h.idName, id)
    decreases |bs|
  {
    hide Links, LastLink, PutNew, Comms;
    if bs != [] {
      var init, last := bs[..|bs| - 1], bs[|bs| - 1];
      RegisterAllLinks(h, init, id);
      LinksLookup(RegisterAll(h, init).idName, last.es, last.record.id, id);
    }
  }

  /** The first record of a hub. */
  function FirstRecord(bs: seq<Block>, id: int): (r: Option<Record>)
    ensures r.Some? ==> r.value.id == id
  {
    if bs == [] then None else if bs[0].record.id == id then Some(bs[0].record) else FirstRecord(bs[1..], id)
  }

  lemma {:induction false} FirstCommOf(bs: seq<Block>, id: int)
    ensures FirstOf(CommPairs(bs), id) == match FirstRecord(bs, id) case None => None case Some(r) => Some(Comms(r))
  {
    hide Comms;
    if bs != [] {
      assert CommPairs(bs)[1..] == CommPairs(bs[1..]);
      FirstCommOf(bs[1..], id);
    }
  }

  /** The types of the links as the numbers that are asked for. */
  lemma TypeNumbers(r: Record)
    ensures Stoi(Comms(r).kind) == Some(if r.kind.Qmi? then 0 else 1)
  {
    NumberRoundTrip(0);
    NumberRoundTrip(1);
    assert ShowInt(0) == "0" && ShowInt(1) == "1";
  }

  /** What a series of records answers afterwards: a platform's id and a hub's link are the ones known
      before, or else those of the first record that has them; a hub's link name is the last one that
      is given; the id list is in document order. */
  lemma RecordsAnswer(h: Hub, bs: seq<Block>, platform: string, id: int)
    requires Idle(h) && forall b :: b in bs ==> IsRecord(b.es, b.at, b.record)
    ensures var g := Run(h, Entries(bs));
            && Idle(g)
            && Lookup(g.nameId, platform)
               == (if platform in h.nameId then Some(h.nameId[platform]) else FirstOf(NamePairs(bs), platform))
            && Lookup(g.comm, id) == (if id in h.comm then Some(h.comm[id]) else FirstOf(CommPairs(bs), id))
            && Lookup(g.idName, id) == (if LinkOf(bs, id).Some? then LinkOf(bs, id) else Lookup(h.idName, id))
            && g.ids == h.ids + RecordIds(bs)
  {
    hide IsRecord, LinkOf, RegisterAll, Run, PutAll, FirstOf, NamePairs, CommPairs, RecordIds;
    RecordsRun(h, bs);
    RegisterAllMaps(h, bs);
    RegisterAllLinks(h, bs, id);
    PutAllLookup(h.nameId, NamePairs(bs), platform);
    PutAllLookup(h.comm, CommPairs(bs), id);
  }
}
