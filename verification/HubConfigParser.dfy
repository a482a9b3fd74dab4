/** The parser object: its fields, the in-place parsing of a whole file into them, and the getters. */
module HubConfigParser {
  import opened Wrappers
  import opened CString
  import opened SensingHub
  import opened JsonBuffer
  import ConfigGrammar

  // ---- the config group and the file loop, as relations between two states of the buffer ----

  ghost predicate ConfigLoop(t: seq<char>, u: seq<char>, pos: nat, c: nat, ids0: seq<int>, ids: seq<int>, again: bool)
    requires pos < |t|
  {
    && pos <= c < |t| && Frame(t, u, pos)
    && (if again then Tail(u, c) == Tail(t, c) else Resumable(t, u, c))
    && ConfigGrammar.ConfigBody(Tail(t, pos), ids0)
       == if again then ConfigGrammar.ConfigBody(Tail(t, c), ids)
          else ConfigGrammar.ConfigRead(ConfigGrammar.Socs(ids, false), false, Tail(t, c))
  }

  lemma ConfigStop(t: seq<char>, u: seq<char>, v: seq<char>, pos: nat, c: nat, ids0: seq<int>, ids: seq<int>,
                   a: nat, key: nat, value: Option<nat>)
    requires pos < |t| && c < |t| - 1 && ConfigLoop(t, u, pos, c, ids0, ids, true) && PairAt(u, v, c, a, 0, key, value)
    ensures ConfigLoop(t, v, pos, a, ids0, ids, false)
  {
    hide SkipSpace, ConfigGrammar.ParsePair, Frame;
    FrameTrans(t, u, v, pos, a + 1);
    PairFailed(t, u, v, c, a, key, value);
  }

  lemma ConfigNext(t: seq<char>, u: seq<char>, v: seq<char>, pos: nat, c: nat, ids0: seq<int>, ids: seq<int>,
                   a: nat, l: nat, key: nat, value: Option<nat>, b: nat, socs: ConfigGrammar.Socs)
    requires pos < |t| && c < |t| - 1 && ConfigLoop(t, u, pos, c, ids0, ids, true)
    requires PairAt(u, v, c, a, l, key, value) && l > 0
    requires a + l <= b < |v| && Tail(v, b) == SkipSpace(Tail(v, a + l))
    requires var p := ConfigGrammar.ParsePair(Tail(u, a));
             p.Pair? && socs == PairSocs(p, ids)
    ensures socs.threw ==> Frame(t, v, pos) && ConfigGrammar.ConfigBody(Tail(t, pos), ids0).socs == socs
    ensures !socs.threw ==>
              if b < |v| - 1 && v[b] == ',' then ConfigLoop(t, v, pos, b + 1, ids0, socs.ids, true)
              else ConfigLoop(t, v, pos, b, ids0, socs.ids, false)
  {
    hide SkipSpace, ConfigGrammar.ParsePair, Frame, ConfigGrammar.PushSocs, Tokens;
    FrameTrans(t, u, v, pos, a + 1);
    PairParsed(t, u, v, c, a, l, key, value);
    TailLater(t, v, a + l, b);
    if b < |v| - 1 {
      TailNext(t, b, 1);
      TailLater(t, v, a + l, b + 1);
    }
  }

  function PairSocs(p: ConfigGrammar.PairResult, ids: seq<int>): ConfigGrammar.Socs
    requires p.Pair?
  {
    if p.key == "soc_id" && p.value.Some? then ConfigGrammar.PushSocs(ids, Tokens(p.value.value))
    else ConfigGrammar.Socs(ids, false)
  }

  /** parseConfig behind the bracket at pos - 1: the loop of parseConfigItem ended at c. */
  ghost predicate ConfigDone(t: seq<char>, u: seq<char>, pos: nat, ids0: seq<int>, socs: ConfigGrammar.Socs, ret: int)
    requires pos < |t|
  {
    var r := ConfigGrammar.ParseConfig(Tail(t, pos), ids0);
    && Frame(t, u, pos) && r.socs == socs
    && (!socs.threw ==> ret == -1 || ret > 0)
    && (!socs.threw ==> (ret > 0 <==> r.closed))
    && (!socs.threw && ret > 0 ==> pos + ret < |u| == |t| && r.rest == Tail(u, pos + ret) == Tail(t, pos + ret))
  }

  lemma ConfigMissing(t: seq<char>, pos: nat, a: nat, ids: seq<int>)
    requires pos <= a < |t| && Tail(t, a) == SkipSpace(Tail(t, pos)) && (a == |t| - 1 || t[a] != '{')
    ensures ConfigDone(t, t, pos, ids, ConfigGrammar.Socs(ids, false), -1)
  {
    hide SkipSpace;
  }

  lemma ConfigThrown(t: seq<char>, u: seq<char>, pos: nat, a: nat, ids: seq<int>, socs: ConfigGrammar.Socs)
    requires pos <= a < |t| - 1 && Tail(t, a) == SkipSpace(Tail(t, pos)) && t[a] == '{'
    requires Frame(t, u, a + 1) && socs.threw && ConfigGrammar.ConfigBody(Tail(t, a + 1), ids).socs == socs
    ensures ConfigDone(t, u, pos, ids, socs, 0)
  {
    hide SkipSpace, ConfigGrammar.ConfigBody;
    TailNext(t, a, 1);
  }

  lemma ConfigFinish(t: seq<char>, u: seq<char>, pos: nat, a: nat, ids0: seq<int>, ids: seq<int>, c: nat, b: nat)
    requires pos <= a < |t| - 1 && Tail(t, a) == SkipSpace(Tail(t, pos)) && t[a] == '{'
    requires ConfigLoop(t, u, a + 1, c, ids0, ids, false)
    requires c <= b < |u| && Tail(u, b) == SkipSpace(Tail(u, c))
    ensures ConfigDone(t, u, pos, ids0, ConfigGrammar.Socs(ids, false),
                       if b < |u| - 1 && u[b] == '}' then b + 1 - pos else -1)
  {
    hide SkipSpace, ConfigGrammar.ConfigBody;
    TailNext(t, a, 1);
    BracketBehind(t, u, c, b);
  }

  /** A bracket behind white space is where it was, and so is the text behind it. */
  lemma BracketBehind(t: seq<char>, u: seq<char>, c: nat, b: nat)
    requires Resumable(t, u, c) && c <= b < |u| && Tail(u, b) == SkipSpace(Tail(u, c))
    ensures var s := SkipSpace(Tail(t, c));
            && (ConfigGrammar.StartsWith(s, '}') <==> b < |u| - 1 && u[b] == '}')
            && (b < |u| - 1 && u[b] == '}' ==> s[1..] == Tail(u, b + 1) == Tail(t, b + 1))
  {
    hide SkipSpace;
    if Tail(u, c) == Tail(t, c) {
      CharBehind(t, u, c, b);
    } else {
      QuoteStays(u, c);
      QuoteStays(t, c);
    }
  }

  /** What a load started from: the accumulator, the soc list and the matched soc. */
  datatype Start = Start(hub: Hub, socs: seq<int>, soc: int, device: int, stale: ConfigGrammar.Stale)

  function Whole(t: seq<char>, from: Start): ConfigGrammar.Load
    requires t != []
  {
    ConfigGrammar.ParseFile(Tail(t, 0), from.hub, from.socs, from.soc, from.device, from.stale)
  }

  ghost predicate FileLoop(t: seq<char>, u: seq<char>, c: nat, from: Start, h: Hub, socs: seq<int>, soc: int,
                           again: bool)
    requires t != []
  {
    && 0 < c < |t| && Frame(t, u, 0)
    && (again ==> Tail(u, c) == Tail(t, c))
    && Whole(t, from) == if again then ConfigGrammar.Groups(Tail(t, c), h, socs, soc, from.device, from.stale)
                         else ConfigGrammar.Load(ConfigGrammar.Return(0), h, socs, soc)
  }

  /** The end of a turn at c: the loop goes on behind a comma. */
  lemma FileTurn(t: seq<char>, u: seq<char>, c: nat, from: Start, h: Hub, socs: seq<int>, soc: int)
    requires t != [] && 0 < c < |t| && Frame(t, u, 0) && Tail(u, c) == Tail(t, c)
    requires Whole(t, from) == if ConfigGrammar.StartsWith(Tail(t, c), ',')
                               then ConfigGrammar.Groups(Tail(t, c)[1..], h, socs, soc, from.device, from.stale)
                               else ConfigGrammar.Load(ConfigGrammar.Return(0), h, socs, soc)
    ensures if c < |u| - 1 && u[c] == ',' then FileLoop(t, u, c + 1, from, h, socs, soc, true)
            else FileLoop(t, u, c, from, h, socs, soc, false)
  {
    hide Whole, ConfigGrammar.Groups;
    TailLater(t, u, c, c);
    if c < |u| - 1 {
      TailNext(t, c, 1);
      TailLater(t, u, c, c + 1);
    }
  }

  lemma FileStart(t: seq<char>, a: nat, from: Start)
    requires a < |t| && Tail(t, a) == SkipSpace(Tail(t, 0))
    ensures if a < |t| - 1 && t[a] == '{' then FileLoop(t, t, a + 1, from, from.hub, from.socs, from.soc, true)
            else Whole(t, from) == ConfigGrammar.Load(ConfigGrammar.Return(-1), from.hub, from.socs, from.soc)
  {
    hide SkipSpace, ConfigGrammar.Groups;
    if a < |t| - 1 {
      TailNext(t, a, 1);
    }
  }

  /** A turn that starts with a failed pair or a string fails the load. */
  lemma FileNoGroup(t: seq<char>, u: seq<char>, v: seq<char>, c: nat, from: Start, h: Hub, socs: seq<int>, soc: int,
                    a: nat, l: nat, key: nat, value: Option<nat>)
    requires t != [] && FileLoop(t, u, c, from, h, socs, soc, true) && PairAt(u, v, c, a, l, key, value)
    requires l == 0 || value.Some?
    ensures Whole(t, from) == ConfigGrammar.Load(ConfigGrammar.Return(-1), h, socs, soc) && Frame(t, v, 0)
  {
    hide SkipSpace, Whole, ConfigGrammar.ParsePair, Frame;
    FrameTrans(t, u, v, 0, a + 1);
    if l == 0 {
      PairFailed(t, u, v, c, a, key, value);
    } else {
      PairParsed(t, u, v, c, a, l, key, value);
    }
  }

  /** The head of a group: its key stands in the buffer, and what Groups does next depends on it. */
  lemma FileHead(t: seq<char>, u: seq<char>, v: seq<char>, c: nat, from: Start, h: Hub, socs: seq<int>, soc: int,
                 a: nat, l: nat, key: nat)
    requires t != [] && FileLoop(t, u, c, from, h, socs, soc, true) && PairAt(u, v, c, a, l, key, None) && l > 0
    ensures Frame(t, v, 0) && a + l < |v| == |t| && Tail(v, a + l) == Tail(t, a + l)
    ensures v[a + l - 1] == ':' || IsSpace(v[a + l - 1])
    ensures var p := ConfigGrammar.ParsePair(SkipSpace(Tail(t, c)));
            && key < |v| && p == ConfigGrammar.Pair(CStringAt(v, key), None, Tail(t, a + l))
            && StoredAt(v, key, p.key, a + l)
  {
    hide SkipSpace, Whole, ConfigGrammar.ParsePair, ConfigGrammar.Groups;
    FrameTrans(t, u, v, 0, a + 1);
    PairParsed(t, u, v, c, a, l, key, None);
    MemberHead(u, v, a, l, key);
  }

  lemma FileGroup(t: seq<char>, u: seq<char>, v: seq<char>, w: seq<char>, c: nat, from: Start, h: Hub, h': Hub,
                  socs: seq<int>, soc: int, a: nat, l: nat, key: nat, k: string, ret: int, len: nat)
    requires t != [] && FileLoop(t, u, c, from, h, socs, soc, true) && PairAt(u, v, c, a, l, key, None) && l > 0
    requires ConfigGrammar.ParsePair(SkipSpace(Tail(t, c))) == ConfigGrammar.Pair(k, None, Tail(t, a + l))
             && k != "config"
    requires Frame(t, v, 0) && a + l < |v| == |t| && Tail(v, a + l) == Tail(t, a + l)
    requires GroupDone(v, w, a + l, k, h, h', from.stale, ret, len)
    ensures ret != 0 ==> Whole(t, from) == ConfigGrammar.Load(ConfigGrammar.Return(-1), h', socs, soc) && Frame(t, w, 0)
    ensures ret == 0 ==>
              var b := a + l + len;
              && 0 < b < |w| == |t| && Frame(t, w, 0)
              && if b < |w| - 1 && w[b] == ',' then FileLoop(t, w, b + 1, from, h', socs, soc, true)
                 else FileLoop(t, w, b, from, h', socs, soc, false)
  {
    hide SkipSpace, Whole, ConfigGrammar.ParsePair, ConfigGrammar.ParseGroup;
    FrameTrans(t, v, w, 0, a + l);
    if ret == 0 {
      TailLater(t, v, a + l, a + l + len);
      FileTurn(t, w, a + l + len, from, h', socs, soc);
    }
  }

  /** After a config group. When parseConfig returned -1 the cursor goes back to a colon or white
      space in front of the group, so the loop ends, and with success. */
  lemma FileConfig(t: seq<char>, v: seq<char>, w: seq<char>, c: nat, from: Start, h: Hub,
                   socs0: seq<int>, soc0: int, p: nat, socs: ConfigGrammar.Socs, ret: int)
    requires 0 < c < |t| && Frame(t, v, 0) && 1 < p < |v| == |t| && Tail(v, p) == Tail(t, p)
    requires Whole(t, from) == ConfigGrammar.Groups(Tail(t, c), h, socs0, soc0, from.device, from.stale)
    requires ConfigGrammar.ParsePair(SkipSpace(Tail(t, c))) == ConfigGrammar.Pair("config", None, Tail(t, p))
    requires v[p - 1] == ':' || IsSpace(v[p - 1])
    requires ConfigDone(v, w, p, socs0, socs, ret)
    ensures var soc := ConfigGrammar.Matched(socs.ids, soc0, from.device);
            && Frame(t, w, 0)
            && (socs.threw ==> Whole(t, from) == ConfigGrammar.Load(ConfigGrammar.Throws, h, socs.ids, soc0))
            && (!socs.threw && socs.ids != [] && soc == -1 ==>
                  Whole(t, from) == ConfigGrammar.Load(ConfigGrammar.Return(0), h, socs.ids, soc))
            && (!socs.threw && (socs.ids == [] || soc != -1) ==>
                  var b := p + ret;
                  && 0 < b < |w|
                  && if b < |w| - 1 && w[b] == ',' then FileLoop(t, w, b + 1, from, h, socs.ids, soc, true)
                     else FileLoop(t, w, b, from, h, socs.ids, soc, false))
  {
    hide SkipSpace, Whole, ConfigGrammar.ParsePair, ConfigGrammar.ParseConfig, ConfigGrammar.Matched, IsSpace;
    FrameTrans(t, v, w, 0, p);
    var soc := ConfigGrammar.Matched(socs.ids, soc0, from.device);
    if !socs.threw && (socs.ids == [] || soc != -1) {
      if ret > 0 {
        TailLater(t, v, p, p + ret);
        FileTurn(t, w, p + ret, from, h, socs.ids, soc);
      } else {
        assert w[p - 1] == v[p - 1];
        assert w[p - 1] != ',' by { CommaIsNoSpace(); }
      }
    }
  }

  lemma CommaIsNoSpace()
    ensures !IsSpace(',')
  {
  }

  lemma ConfigStart(t: seq<char>, pos: nat, ids: seq<int>)
    requires pos < |t|
    ensures ConfigLoop(t, t, pos, pos, ids, ids, true)
  {
    hide ConfigGrammar.ConfigBody;
  }

  lemma ConfigAtEnd(t: seq<char>, u: seq<char>, pos: nat, c: nat, ids0: seq<int>, ids: seq<int>)
    requires pos < |t| && c == |t| - 1 && ConfigLoop(t, u, pos, c, ids0, ids, true)
    ensures ConfigLoop(t, u, pos, c, ids0, ids, false)
  {
    assert Tail(t, c) == "";
  }

  lemma ConfigStrings(u: seq<char>, v: seq<char>, a: nat, l: nat, key: nat, value: Option<nat>)
    requires a < |u| && PairDone(u, v, a, l, key, value) && l > 0
    ensures var p := ConfigGrammar.ParsePair(Tail(u, a));
            && p.Pair? && key < |v| && CStringAt(v, key) == p.key && (p.value.Some? <==> value.Some?)
            && (value.Some? ==> value.value < |v| && CStringAt(v, value.value) == p.value.value)
  {
    hide ConfigGrammar.ParsePair;
    var p := ConfigGrammar.ParsePair(Tail(u, a));
    StoredStays(v, v, key, p.key, a + l, a + l);
    if value.Some? {
      StoredStays(v, v, value.value, p.value.value, a + l, a + l);
    }
  }

  /** The end of a turn of the loop in parseFile: an early exit, or the cursor in front of which the
      loop looks for a comma. */
  ghost predicate TurnDone(t: seq<char>, w: seq<char>, from: Start, done: Option<ConfigGrammar.Exit>, b: nat,
                           h: Hub, socs: seq<int>, soc: int)
    requires t != []
  {
    && Frame(t, w, 0) && |w| == |t|
    && (done.Some? ==> Whole(t, from) == ConfigGrammar.Load(done.value, h, socs, soc))
    && (done.None? ==>
          && 0 < b < |w|
          && if b < |w| - 1 && w[b] == ',' then FileLoop(t, w, b + 1, from, h, socs, soc, true)
             else FileLoop(t, w, b, from, h, socs, soc, false))
  }

  lemma FileLoopSpec(t: seq<char>, u: seq<char>, c: nat, from: Start, h: Hub, socs: seq<int>, soc: int)
    requires t != [] && FileLoop(t, u, c, from, h, socs, soc, true)
    ensures 0 < c < |t| && Whole(t, from) == ConfigGrammar.Groups(Tail(t, c), h, socs, soc, from.device, from.stale)
  {
  }

  lemma FileLoopSpec'(t: seq<char>, u: seq<char>, c: nat, from: Start, h: Hub, socs: seq<int>, soc: int)
    requires t != [] && FileLoop(t, u, c, from, h, socs, soc, false)
    ensures Whole(t, from) == ConfigGrammar.Load(ConfigGrammar.Return(0), h, socs, soc)
  {
  }

  // ---- names in the buffer ----

  /** The name of the group and the key of the item are still there after the item was parsed. */
  lemma NamesStay(t: seq<char>, u: seq<char>, v: seq<char>, pos: nat, l: nat, group: nat, name: string, key: nat,
                  k: string, len: nat, data: string, buffer: string)
    requires pos < |t| && StoredAt(t, group, name, pos) && PairDone(t, u, pos, l, key, None) && l > 0
    requires k == ConfigGrammar.ParsePair(Tail(t, pos)).key && pos + l < |u|
             && ItemDone(u, v, pos + l, buffer, len, data)
    ensures group < |v| && key < |v| && CStringAt(v, group) == name && CStringAt(v, key) == k
  {
    hide ConfigGrammar.ParsePair, ConfigGrammar.ParseItem;
    StoredStays(t, u, group, name, pos, pos);
    StoredStays(u, v, group, name, pos, pos);
    StoredStays(u, v, key, k, pos + l, pos + l);
  }

  /** The name of the group is still there at the start of every turn of the loop in parseGroup. */
  lemma NameStays(t: seq<char>, u: seq<char>, pos: nat, c: nat, name: string, h0: Hub, h: Hub,
                  stale: ConfigGrammar.Stale, group: nat, a: nat)
    requires pos < |t| && GroupLoop(t, u, pos, c, name, h0, h, stale, true)
    requires StoredAt(t, group, name, pos) && c <= a < |u|
    ensures StoredAt(u, group, name, a)
  {
    hide ConfigGrammar.ParseGroup, ConfigGrammar.ParseMembers;
    StoredStays(t, u, group, name, pos, a);
  }

  // ---- the object ----

  class Parser {
    const device: int                 // mDeviceSocId, read when the parser is made

    var nameId: map<string, int>      // mSensingHubNameIdMap
    var comm: map<int, Comm>          // mSensingHubCommMap
    var idName: map<int, string>      // mSensingHubIdNameMap
    var ids: seq<int>                 // mHubIds
    var readAttr: bool                // mReadCommAttr
    var inComm: bool                  // mIsClientCommGrp
    var id: int                       // mSensingHubId
    var platform: string              // mPlatformId
    var kind: string                  // mClientCommType
    var value: int                    // mClientCommValue
    var nameFilled: bool              // mSensingHubNameIdMapFilled
    var commFilled: bool              // mCommMapFilled
    var socs: seq<int>                // mJsonSocIdList
    var soc: int                      // mJsonSocId
    var parsed: bool                  // mIsFileParsed

    ghost function State(): Hub
      reads this
    {
      Hub(nameId, comm, idName, ids, readAttr, inComm, id, platform, kind, value, nameFilled, commFilled)
    }

    constructor (device: int)
      ensures nameId == map[] && comm == map[] && idName == map[] && ids == [] && Idle(State())
      ensures this.device == device && socs == [] && soc == -1 && !parsed
    {
      this.device := device;
      nameId, comm, idName, ids := map[], map[], map[], [];
      readAttr, inComm, nameFilled, commFilled := false, false, false, false;
      id, platform, kind, value := -1, "", "", -1;
      socs, soc, parsed := [], -1, false;
    }

    /** Where a record is complete: its parts and flags are forgotten. */
    method ClearRecord()
      modifies `id, `platform, `kind, `value, `readAttr, `nameFilled, `commFilled
      ensures State() == Clear(old(State()))
    {
      ForgetParts();
      readAttr := false;
      nameFilled, commFilled := false, false;
    }

    method ForgetParts()
      modifies `id, `platform, `kind, `value
      ensures id == -1 && platform == "" && kind == "" && value == -1
    {
      id, platform, kind, value := -1, "", "", -1;
    }

    /** resetParserState: everything but the three maps and the parsed flag. */
    method ResetParserState()
      modifies this
      ensures State() == Reset(old(State())) && socs == [] && soc == -1 && parsed == old(parsed)
    {
      ClearRecord();
      inComm := false;
      soc, socs, ids := -1, [], [];
    }

    method UpdateSensingHubInfo(group: string, key: string, data: string)
      modifies this
      ensures State() == Update(old(State()), Entry(group, key, data))
      ensures socs == old(socs) && soc == old(soc) && parsed == old(parsed)
    {
      hide Absorb, StoreName, StoreComm, Finish, KeyOf;
      AbsorbEntry(group == COMM_GROUP, KeyOf(key), data);
      StoreNameId();
      StoreCommAttrs();
      FinishRecord();
    }

    method StoreNameId()
      modifies this
      ensures State() == StoreName(old(State()))
      ensures socs == old(socs) && soc == old(soc) && parsed == old(parsed)
    {
      if id != -1 && platform != "" {
        nameId := PutNew(nameId, platform, id);
        nameFilled := true;
      }
    }

    method StoreCommAttrs()
      modifies this
      ensures State() == StoreComm(old(State()))
      ensures socs == old(socs) && soc == old(soc) && parsed == old(parsed)
    {
      if id != -1 && kind != "" && value != -1 {
        comm := PutNew(comm, id, Comm(kind, value));
        commFilled := true;
      }
    }

    method FinishRecord()
      modifies this
      ensures State() == Finish(old(State()))
      ensures socs == old(socs) && soc == old(soc) && parsed == old(parsed)
    {
      if nameFilled && commFilled {
        ClearRecord();
      }
    }

    method AbsorbEntry(commGroup: bool, key: Key, data: string)
      modifies `inComm, `platform, `id, `ids, `kind, `value, `idName, `readAttr
      ensures State() == Absorb(old(State()), Fact(commGroup, key, data))
    {
      hide AbsorbComm;
      if commGroup {
        inComm := true;
      }
      if key.PlatformId? {
        platform := data;
      } else if key.HubId? {
        id := Atoi(data);
        ids := ids + [id];
      } else if key.CommType? {
        kind := data;
      } else {
        AbsorbCommItem(key, data);
      }
    }

    method AbsorbCommItem(key: Key, data: string)
      modifies `inComm, `value, `idName, `readAttr
      ensures State() == AbsorbComm(old(State()), key, data)
    {
      if inComm && key.ServiceId? {
        if kind == QMI {
          value := Atoi(data);
        }
        inComm := false;
      } else if inComm && key.LinkName? && data != APPS {
        idName := idName[id := data];
      } else if inComm && data != APPS && !key.LinkName? {
        readAttr := true;
        inComm := false;
      } else if key.Channels? && readAttr {
        if kind == GLINK {
          value := Atoi(data);
        }
      }
    }

    /** One turn of the loop in parseGroup: a string, a nested group, or an item that is handed to
        updateSensingHubInfo whether parseItem succeeded or not. */
    method ParseMember(json: array<char>, group: nat, ghost name: string, pos: nat, stale: ConfigGrammar.Stale)
      returns (ok: bool, len: nat)
      requires ValidText(json) && pos < json.Length && StoredAt(json[..], group, name, pos)
      modifies this, json
      ensures ValidText(json) && MemberDone(old(json[..]), json[..], pos, name, old(State()), State(), stale, ok, len)
      ensures ok ==> len > 0 && pos + len < json.Length
      ensures socs == old(socs) && soc == old(soc) && parsed == old(parsed)
      decreases json.Length - pos, 0
    {
      hide PairDone, ItemDone, GroupDone, MemberDone, Tail, CStringAt, Frame, Update, StoredAt;
      hide ConfigGrammar.ParsePair, ConfigGrammar.ParseMember;
      ghost var t, h := json[..], State();
      var l, key, value := JsonBuffer.ParsePair(json, pos);
      ghost var u := json[..];
      if l == 0 {
        MemberNoPair(t, u, pos, name, h, stale, key, value, 0);
        return false, 0;
      }
      if value.Some? {
        MemberString(t, u, pos, name, h, stale, l, key, value.value);
        return true, l;
      }
      MemberHead(t, u, pos, l, key);
      ghost var k := ConfigGrammar.ParsePair(Tail(t, pos)).key;
      var c := pos + l;
      if json[key] == '.' {
        var ret, n := ParseGroup(json, key, k, c, stale);
        MemberNested(t, u, json[..], pos, name, h, State(), stale, l, key, k, ret, n);
        ok, len := ret == 0, l + n;
      } else {
        var n, data := ParseItem(json, c, stale(json.Length - 1 - c));
        NamesStay(t, u, json[..], pos, l, group, name, key, k, n, data, stale(json.Length - 1 - c));
        UpdateSensingHubInfo(CStringAt(json[..], group), CStringAt(json[..], key), data);
        MemberItem(t, u, json[..], pos, name, h, stale, l, key, k, n, data);
        ok, len := n > 0, l + n;
      }
    }

    method ParseGroup(json: array<char>, group: nat, ghost name: string, pos: nat, stale: ConfigGrammar.Stale)
      returns (ret: int, len: nat)
      requires ValidText(json) && pos < json.Length && StoredAt(json[..], group, name, pos)
      modifies this, json
      ensures ValidText(json) && GroupDone(old(json[..]), json[..], pos, name, old(State()), State(), stale, ret, len)
      ensures ret == 0 ==> len > 0 && pos + len < json.Length
      ensures socs == old(socs) && soc == old(soc) && parsed == old(parsed)
      decreases json.Length - pos, 1
    {
      hide MemberDone, GroupDone, GroupLoop, Tail, SkipSpace, Frame, StoredAt;
      hide ConfigGrammar.ParseMember;
      ghost var t, h0 := json[..], State();
      GroupStart(t, pos, name, h0, stale);
      if pos >= json.Length - 1 || json[pos] != '{' {
        return -1, 0;
      }
      var c := pos + 1;
      var again := true;
      while again
        invariant ValidText(json) && pos < c < json.Length == |t|
        invariant GroupLoop(t, json[..], pos, c, name, h0, State(), stale, again)
        invariant socs == old(socs) && soc == old(soc) && parsed == old(parsed)
        decreases json.Length - c, again
      {
        ghost var u, h, c0 := json[..], State(), c;
        var w := GetWhitespaceLen(json, c);
        c := c + w;
        NameStays(t, u, pos, c0, name, h0, h, stale, group, c);
        var ok, l := ParseMember(json, group, name, c, stale);
        if !ok {
          GroupStop(t, u, json[..], pos, c0, name, h0, h, State(), stale, c, l, 0);
          return -1, 0;
        }
        w := GetWhitespaceLen(json, c + l);
        again := json[c + l + w] == ',';
        GroupNext(t, u, json[..], pos, c0, name, h0, h, State(), stale, c, l, c + l + w);
        c := c + l + w + (if again then 1 else 0);
      }
      GroupFinish(t, json[..], pos, c, name, h0, State(), stale);
      if c >= json.Length - 1 || json[c] != '}' {
        return -1, 0;
      }
      return 0, c + 1 - pos;
    }

    /** The getline and stoi loop over a soc_id value; threw is an exception of stoi. */
    method PushSocIds(list: string) returns (threw: bool)
      modifies this
      ensures ConfigGrammar.Socs(socs, threw) == ConfigGrammar.PushSocs(old(socs), Tokens(list))
      ensures State() == old(State()) && soc == old(soc) && parsed == old(parsed)
    {
      hide Stoi, FirstToken;
      var rest := list;
      while rest != ""
        invariant ConfigGrammar.PushSocs(socs, Tokens(rest)) == ConfigGrammar.PushSocs(old(socs), Tokens(list))
        invariant State() == old(State()) && soc == old(soc) && parsed == old(parsed)
        decreases |rest|
      {
        var token := FirstToken(rest);
        assert Tokens(rest)[0] == token;
        var n := Stoi(token);
        if n.None? {
          return true;
        }
        ghost var before := rest;
        rest := if |token| == |rest| then "" else rest[|token| + 1..];
        assert Tokens(before)[1..] == Tokens(rest);
        socs := socs + [n.value];
      }
      return false;
    }

    /** parseConfigItem; len is the cursor relative to pos. */
    method ParseConfigItem(json: array<char>, pos: nat) returns (len: nat, threw: bool)
      requires ValidText(json) && pos < json.Length - 1 && json[pos] == '{'
      modifies this, json
      ensures ValidText(json) && pos + len < json.Length && len > 0
      ensures !threw ==> ConfigLoop(old(json[..]), json[..], pos + 1, pos + len, old(socs), socs, false)
      ensures threw ==> Frame(old(json[..]), json[..], pos + 1)
                        && ConfigGrammar.ConfigBody(Tail(old(json[..]), pos + 1), old(socs)).socs
                           == ConfigGrammar.Socs(socs, true)
      ensures State() == old(State()) && soc == old(soc) && parsed == old(parsed)
    {
      hide PairDone, ConfigLoop, Tail, SkipSpace, Frame, CStringAt, Tokens;
      hide ConfigGrammar.ParsePair, ConfigGrammar.PushSocs, ConfigGrammar.ConfigBody;
      ghost var t := json[..];
      var c := pos + 1;
      ConfigStart(t, c, socs);
      while c < json.Length - 1
        invariant ValidText(json) && pos < c < json.Length == |t|
        invariant ConfigLoop(t, json[..], pos + 1, c, old(socs), socs, true)
        invariant State() == old(State()) && soc == old(soc) && parsed == old(parsed)
      {
        ghost var u, ids, c0 := json[..], socs, c;
        var w := GetWhitespaceLen(json, c);
        c := c + w;
        var l, key, value := JsonBuffer.ParsePair(json, c);
        if l == 0 {
          ConfigStop(t, u, json[..], pos + 1, c0, old(socs), ids, c, key, value);
          return c - pos, false;
        }
        ConfigStrings(u, json[..], c, l, key, value);
        threw := false;
        if CStringAt(json[..], key) == "soc_id" && value.Some? {
          threw := PushSocIds(CStringAt(json[..], value.value));
        }
        w := GetWhitespaceLen(json, c + l);
        ghost var b := c + l + w;
        ConfigNext(t, u, json[..], pos + 1, c0, old(socs), ids, c, l, key, value, b, ConfigGrammar.Socs(socs, threw));
        if threw {
          return c - pos, true;
        }
        if json[c + l + w] != ',' {
          return c + l + w - pos, false;
        }
        c := c + l + w + 1;
      }
      ConfigAtEnd(t, json[..], pos + 1, c, old(socs), socs);
      return c - pos, false;
    }

    /** parseConfig: -1, or the length of the group, which is never 0. */
    method ParseConfig(json: array<char>, pos: nat) returns (ret: int, threw: bool)
      requires ValidText(json) && pos < json.Length
      modifies this, json
      ensures ValidText(json)
      ensures ConfigDone(old(json[..]), json[..], pos, old(socs), ConfigGrammar.Socs(socs, threw), ret)
      ensures !threw ==> ret == -1 || ret > 0
      ensures State() == old(State()) && soc == old(soc) && parsed == old(parsed)
    {
      hide ConfigDone, ConfigLoop, Tail, SkipSpace, Frame, ConfigGrammar.ConfigBody;
      ghost var t := json[..];
      var w := GetWhitespaceLen(json, pos);
      var a := pos + w;
      if json[a] != '{' {
        ConfigMissing(t, pos, a, socs);
        return -1, false;
      }
      var l, th := ParseConfigItem(json, a);
      if th {
        ConfigThrown(t, json[..], pos, a, old(socs), ConfigGrammar.Socs(socs, true));
        return 0, true;
      }
      w := GetWhitespaceLen(json, a + l);
      ConfigFinish(t, json[..], pos, a, old(socs), socs, a + l, a + l + w);
      if json[a + l + w] != '}' {
        return -1, false;
      }
      return a + l + w + 1 - pos, false;
    }

    /** Looks for the device's soc in the list of the config groups. */
    method MatchSoc()
      modifies this
      ensures soc == ConfigGrammar.Matched(socs, old(soc), device)
      ensures State() == old(State()) && socs == old(socs) && parsed == old(parsed)
    {
      for i := 0 to |socs|
        invariant device !in socs[..i] && soc == old(soc)
        invariant State() == old(State()) && socs == old(socs) && parsed == old(parsed)
      {
        if socs[i] == device {
          soc := socs[i];
          return;
        }
      }
    }

    /** The branch of parseFile for the config group, whose text starts at p; done is an early exit. */
    method ConfigTurn(json: array<char>, p: nat, ghost t: seq<char>, ghost c: nat, ghost from: Start)
      returns (done: Option<ConfigGrammar.Exit>, next: nat)
      requires ValidText(json) && 1 < p < json.Length == |t| && 0 < c < |t| && from.device == device
      requires Frame(t, json[..], 0) && Tail(json[..], p) == Tail(t, p)
      requires Whole(t, from) == ConfigGrammar.Groups(Tail(t, c), State(), socs, soc, device, from.stale)
      requires ConfigGrammar.ParsePair(SkipSpace(Tail(t, c))) == ConfigGrammar.Pair("config", None, Tail(t, p))
      requires json[p - 1] == ':' || IsSpace(json[p - 1])
      modifies this, json
      ensures ValidText(json) && TurnDone(t, json[..], from, done, next, State(), socs, soc) && parsed == old(parsed)
      ensures done.None? ==> p <= next + 1
    {
      hide ConfigDone, FileLoop, Whole, Tail, SkipSpace, Frame, IsSpace;
      hide ConfigGrammar.ParsePair, ConfigGrammar.Groups, ConfigGrammar.Matched;
      ghost var v := json[..];
      var ret, threw := ParseConfig(json, p);
      FileConfig(t, v, json[..], c, from, State(), old(socs), old(soc), p, ConfigGrammar.Socs(socs, threw), ret);
      if threw {
        return Some(ConfigGrammar.Throws), 0;
      }
      MatchSoc();
      if socs != [] && soc == -1 {
        return Some(ConfigGrammar.Return(0)), 0;
      }
      return None, p + ret;
    }

    /** The branch of parseFile for every other group. */
    method GroupTurn(json: array<char>, key: nat, ghost k: string, a: nat, l: nat,
                     stale: ConfigGrammar.Stale, ghost v: seq<char>, ghost t: seq<char>, ghost u: seq<char>,
                     ghost c: nat, ghost from: Start)
      returns (done: Option<ConfigGrammar.Exit>, next: nat)
      requires ValidText(json) && v == json[..] && |v| == |t| && t != [] && from.device == device && from.stale == stale
      requires c < |t| && FileLoop(t, u, c, from, State(), socs, soc, true) && PairAt(u, v, c, a, l, key, None) && l > 0
      requires a + l < |v| && Tail(v, a + l) == Tail(t, a + l) && Frame(t, v, 0)
      requires ConfigGrammar.ParsePair(SkipSpace(Tail(t, c))) == ConfigGrammar.Pair(k, None, Tail(t, a + l))
               && k != "config"
      requires StoredAt(v, key, k, a + l)
      modifies this, json
      ensures ValidText(json) && TurnDone(t, json[..], from, done, next, State(), socs, soc) && parsed == old(parsed)
      ensures done.None? ==> a + l <= next
    {
      hide GroupDone, FileLoop, Whole, Tail, SkipSpace, Frame, StoredAt, PairDone;
      hide ConfigGrammar.ParsePair, ConfigGrammar.Groups;
      ghost var h := State();
      var ret, len := ParseGroup(json, key, k, a + l, stale);
      FileGroup(t, u, v, json[..], c, from, h, State(), socs, soc, a, l, key, k, ret, len);
      if ret != 0 {
        return Some(ConfigGrammar.Return(-1)), 0;
      }
      return None, a + l + len;
    }

    method ParseFile(json: array<char>, stale: ConfigGrammar.Stale) returns (exit: ConfigGrammar.Exit)
      requires ValidText(json)
      modifies this, json
      ensures Whole(old(json[..]), Start(old(State()), old(socs), old(soc), device, stale))
              == ConfigGrammar.Load(exit, State(), socs, soc)
      ensures Frame(old(json[..]), json[..], 0) && parsed == old(parsed)
    {
      hide PairDone, FileLoop, Whole, Tail, SkipSpace, Frame, StoredAt, CStringAt, IsSpace;
      hide ConfigGrammar.ParsePair, ConfigGrammar.Groups;
      ghost var t, from := json[..], Start(State(), socs, soc, device, stale);
      assert Frame(t, t, 0) by { FrameSame(t, 0); }
      var c := GetWhitespaceLen(json, 0);
      FileStart(t, c, from);
      if c >= json.Length - 1 || json[c] != '{' {
        return ConfigGrammar.Return(-1);
      }
      c := c + 1;
      var again := true;
      while again
        invariant ValidText(json) && 0 < c < json.Length == |t| && Frame(t, json[..], 0)
        invariant FileLoop(t, json[..], c, from, State(), socs, soc, again)
        invariant parsed == old(parsed)
        decreases json.Length - c, again
      {
        ghost var u, c0 := json[..], c;
        var w := GetWhitespaceLen(json, c);
        c := c + w;
        var l, key, value := JsonBuffer.ParsePair(json, c);
        ghost var v := json[..];
        if l == 0 || value.Some? {
          FileNoGroup(t, u, v, c0, from, State(), socs, soc, c, l, key, value);
          return ConfigGrammar.Return(-1);
        }
        FileHead(t, u, v, c0, from, State(), socs, soc, c, l, key);
        FileLoopSpec(t, u, c0, from, State(), socs, soc);
        var done: Option<ConfigGrammar.Exit>;
        var next;
        if CStringAt(json[..], key) == "config" {
          done, next := ConfigTurn(json, c + l, t, c0, from);
        } else {
          done, next := GroupTurn(json, key, CStringAt(v, key), c, l, stale, v, t, u, c0, from);
        }
        if done.Some? {
          return done.value;
        }
        again := next < json.Length - 1 && json[next] == ',';
        c := if again then next + 1 else next;
      }
      FileLoopSpec'(t, json[..], c, from, State(), socs, soc);
      return ConfigGrammar.Return(0);
    }

    /** loadFile; file is None where stat, fopen or fread fails. */
    method LoadFile(file: Option<string>, stale: ConfigGrammar.Stale) returns (exit: ConfigGrammar.Exit)
      modifies this
      ensures var r := HubLoad(old(State()), file, device, stale);
              ConfigGrammar.Load(exit, State(), socs, soc) == r
              && parsed == (old(parsed) || exit == ConfigGrammar.Return(0))
    {
      ResetParserState();
      if file.None? {
        return ConfigGrammar.Return(-1);
      }
      var s := file.value;
      var json := new char[|s| + 1](i requires 0 <= i < |s| + 1 => if i < |s| then s[i] else NUL);
      assert Tail(json[..], 0) == s;
      exit := ParseFile(json, stale);
      if exit == ConfigGrammar.Return(0) {
        parsed := true;
      }
    }

    method GetHubIdList() returns (r: seq<int>)
      ensures r == State().ids
    {
      return ids;
    }

    method GetHubId(hubName: string) returns (r: int)
      ensures r == if hubName in State().nameId then State().nameId[hubName] else -1
    {
      return if hubName in nameId then nameId[hubName] else -1;
    }

    method GetHubName(hubId: int) returns (r: string)
      ensures r == if hubId in State().idName then State().idName[hubId] else ""
    {
      return if hubId in idName then idName[hubId] else "";
    }

    method GetCommHandleAttrs(hubId: int) returns (r: int)
      ensures r == if hubId in State().comm then State().comm[hubId].value else -1
    {
      return if hubId in comm then comm[hubId].value else -1;
    }

    /** -1 also where stoi throws on the stored type. */
    method GetCommType(hubId: int) returns (r: int)
      ensures r == match Lookup(State().comm, hubId)
                   case None => -1
                   case Some(c) => if Stoi(c.kind).Some? then Stoi(c.kind).value else -1
    {
      if hubId !in comm {
        return -1;
      }
      var n := Stoi(comm[hubId].kind);
      return if n.Some? then n.value else -1;
    }
  }

  /** One load, as a function of the parser before it. */
  function HubLoad(h: Hub, file: Option<string>, device: int, stale: ConfigGrammar.Stale): ConfigGrammar.Load {
    match file
    case None => ConfigGrammar.Load(ConfigGrammar.Return(-1), Reset(h), [], -1)
    case Some(s) => ConfigGrammar.ParseFile(s, Reset(h), [], -1, device, stale)
  }
}
