/** What a text does, well-formed or not: a second reading of the parser that keeps no accumulator and
    no value buffer. It says which items reach the accumulator and with which data, which numbers reach
    the soc list, and how a parse ends; and so how much hangs on the uninitialised value buffer. */
module AnyText {
  import opened Wrappers
  import opened CString
  import opened SensingHub
  import opened ConfigGrammar

  // ---- items ----

  /** What an item is read as: whether the cursor moves, the last data value that is read, and the text
      behind. */
  datatype Scan = Scan(moved: bool, data: Option<string>, rest: string)

  function ScanBody(s: string): Scan
    decreases |s|
  {
    match ParsePair(SkipSpace(s))
    case NoPair => Scan(true, None, SkipSpace(s))
    case Pair(_, None, rest) => Scan(true, None, rest)
    case Pair(key, Some(v), rest) =>
      var here := if key == "data" then Some(if |v| <= 14 then v else v[..14]) else None;
      var b := SkipSpace(rest);
      if b == "" then Scan(false, here, b)
      else if b[0] == ',' then
        var more := ScanBody(b[1..]);
        if more.data.Some? then more else more.(data := here)
      else if b[0] == '}' then Scan(true, here, b[1..])
      else Scan(false, here, b)
  }

  function ScanItem(s: string): (r: Scan)
  {
    if s == "" then Scan(false, None, s) else if s[0] == '{' then ScanBody(s[1..]) else Scan(true, None, s[1..])
  }

  function OrElse(o: Option<string>, d: string): string {
    match o case Some(v) => v case None => d
  }

  lemma {:induction false} BodyRead(s: string, d: string)
    ensures var r := ScanBody(s); ItemBody(s, d) == Item(r.moved, OrElse(r.data, d), r.rest)
    decreases |s|
  {
    hide SkipSpace, ParsePair;
    match ParsePair(SkipSpace(s))
    case Pair(key, Some(v), rest) =>
      var b := SkipSpace(rest);
      if StartsWith(b, ',') {
        BodyRead(b[1..], if IsDataKey(key) then Truncate(v) else d);
      }
    case _ =>
  }

  /** For every text and buffer parseItem gives the last data value that is read, or else what the buffer
      held. */
  lemma ItemRead(s: string, d: string)
    ensures var r := ScanItem(s); ParseItem(s, d) == Item(r.moved, OrElse(r.data, d), r.rest)
  {
    hide ItemBody, ScanBody;
    if s != "" {
      BodyRead(s[1..], d);
    }
  }

  lemma ScanBound(s: string)
    ensures ScanItem(s).moved ==> |ScanItem(s).rest| < |s|
  {
    hide ScanItem, ParseItem;
    ItemRead(s, "");
  }

  // ---- groups ----

  /** The text behind an accepted member, behind the accepted members of a group, and behind a group. */
  function BehindMember(s: string): (r: Option<string>)
    ensures r.Some? ==> |r.value| < |s|
    decreases |s|, 1
  {
    match ParsePair(s)
    case NoPair => None
    case Pair(_, Some(_), rest) => Some(rest)
    case Pair(key, None, rest) =>
      if key != "" && key[0] == '.' then BehindGroup(rest)
      else
        ScanBound(rest);
        if ScanItem(rest).moved then Some(ScanItem(rest).rest) else None
  }

  function BehindMembers(s: string): (r: Option<string>)
    ensures r.Some? ==> |r.value| < |s|
    decreases |s|, 2
  {
    match BehindMember(SkipSpace(s))
    case None => None
    case Some(r) =>
      var b := SkipSpace(r);
      if b == "" then None
      else if b[0] == ',' then BehindMembers(b[1..])
      else if b[0] == '}' then Some(b[1..])
      else None
  }

  function BehindGroup(s: string): (r: Option<string>)
    ensures r.Some? ==> |r.value| < |s|
    decreases |s|, 0
  {
    if s != "" && s[0] == '{' then BehindMembers(s[1..]) else None
  }

  function Place(g: GroupResult): Option<string> {
    if g.ok then Some(g.rest) else None
  }

  /** Whatever the accumulator, the buffer and the group's name are, parseGroup accepts these texts and no
      others, and ends at this place. */
  lemma {:induction false} GroupPlace(s: string, name: string, h: Hub, stale: Stale)
    ensures Place(ParseGroup(s, name, h, stale)) == BehindGroup(s)
    decreases |s|, 0
  {
    if StartsWith(s, '{') {
      MembersPlace(s[1..], name, h, stale);
    }
  }

  lemma {:induction false} MembersPlace(s: string, name: string, h: Hub, stale: Stale)
    ensures Place(ParseMembers(s, name, h, stale)) == BehindMembers(s)
    decreases |s|, 2
  {
    hide SkipSpace, ParseMember, BehindMember;
    var a := SkipSpace(s);
    var m := ParseMember(a, name, h, stale);
    MemberPlace(a, name, h, stale);
    var b := SkipSpace(m.rest);
    if m.ok && StartsWith(b, ',') {
      MembersPlace(b[1..], name, m.hub, stale);
    }
  }

  lemma {:induction false} MemberPlace(s: string, name: string, h: Hub, stale: Stale)
    ensures Place(ParseMember(s, name, h, stale)) == BehindMember(s)
    decreases |s|, 1
  {
    hide ParsePair, ParseGroup, ParseItem, ScanItem, BehindGroup, Update;
    match ParsePair(s)
    case Pair(key, None, rest) =>
      if StartsWith(key, '.') {
        GroupPlace(rest, key, h, stale);
      } else {
        ItemRead(rest, stale(|rest|));
      }
    case _ =>
  }

  // ---- the items that reach the accumulator ----

  /** An item that is handed to updateSensingHubInfo; text starts where its bracket should be. */
  datatype Slot = Slot(group: string, key: string, text: string)

  function GroupSlots(s: string, name: string): seq<Slot>
    decreases |s|, 0
  {
    if s != "" && s[0] == '{' then MembersSlots(s[1..], name) else []
  }

  function MembersSlots(s: string, name: string): seq<Slot>
    decreases |s|, 2
  {
    var a := SkipSpace(s);
    MemberSlots(a, name) + match BehindMember(a)
                           case None => []
                           case Some(r) =>
                             var b := SkipSpace(r);
                             if b != "" && b[0] == ',' then MembersSlots(b[1..], name) else []
  }

  function MemberSlots(s: string, name: string): seq<Slot>
    decreases |s|, 1
  {
    match ParsePair(s)
    case Pair(key, None, rest) => if key != "" && key[0] == '.' then GroupSlots(rest, key) else [Slot(name, key, rest)]
    case _ => []
  }

  function EntryOf(sl: Slot, stale: Stale): Entry {
    Entry(sl.group, sl.key, OrElse(ScanItem(sl.text).data, stale(|sl.text|)))
  }

  function EntriesOfSlots(slots: seq<Slot>, stale: Stale): (r: seq<Entry>)
    ensures |r| == |slots| && forall i :: 0 <= i < |r| ==> r[i] == EntryOf(slots[i], stale)
  {
    seq(|slots|, i requires 0 <= i < |slots| => EntryOf(slots[i], stale))
  }

  lemma RunSlots(h: Hub, a: seq<Slot>, b: seq<Slot>, stale: Stale)
    ensures Run(h, EntriesOfSlots(a + b, stale)) == Run(Run(h, EntriesOfSlots(a, stale)), EntriesOfSlots(b, stale))
  {
    hide EntryOf, Run;
    assert EntriesOfSlots(a + b, stale) == EntriesOfSlots(a, stale) + EntriesOfSlots(b, stale);
    RunConcat(h, EntriesOfSlots(a, stale), EntriesOfSlots(b, stale));
  }

  lemma RunNone(h: Hub, stale: Stale)
    ensures Run(h, EntriesOfSlots([], stale)) == h
  {
  }

  lemma RunSlot(h: Hub, sl: Slot, stale: Stale)
    ensures Run(h, EntriesOfSlots([sl], stale)) == Update(h, EntryOf(sl, stale))
  {
    hide EntryOf, Update;
    assert EntriesOfSlots([sl], stale)[..0] == [];
  }

  /** A group, accepted or not, makes of the accumulator what its items do, one after the other. */
  lemma {:induction false} GroupRuns(s: string, name: string, h: Hub, stale: Stale)
    ensures ParseGroup(s, name, h, stale).hub == Run(h, EntriesOfSlots(GroupSlots(s, name), stale))
    decreases |s|, 0
  {
    hide Run, EntriesOfSlots;
    RunNone(h, stale);
    if StartsWith(s, '{') {
      MembersRun(s[1..], name, h, stale);
    }
  }

  lemma {:induction false} MembersRun(s: string, name: string, h: Hub, stale: Stale)
    ensures ParseMembers(s, name, h, stale).hub == Run(h, EntriesOfSlots(MembersSlots(s, name), stale))
    decreases |s|, 2
  {
    hide Run, EntriesOfSlots, SkipSpace, ParseMember, MemberSlots, BehindMember;
    var a := SkipSpace(s);
    var m := ParseMember(a, name, h, stale);
    MemberRuns(a, name, h, stale);
    MemberPlace(a, name, h, stale);
    var b := SkipSpace(m.rest);
    if m.ok && StartsWith(b, ',') {
      MembersRun(b[1..], name, m.hub, stale);
      RunSlots(h, MemberSlots(a, name), MembersSlots(b[1..], name), stale);
    } else {
      assert MembersSlots(s, name) == MemberSlots(a, name);
    }
  }

  lemma {:induction false} MemberRuns(s: string, name: string, h: Hub, stale: Stale)
    ensures ParseMember(s, name, h, stale).hub == Run(h, EntriesOfSlots(MemberSlots(s, name), stale))
    decreases |s|, 1
  {
    hide Run, EntriesOfSlots, ParsePair, ParseGroup, ParseItem, ScanItem, Update, GroupSlots;
    RunNone(h, stale);
    match ParsePair(s)
    case Pair(key, None, rest) =>
      if StartsWith(key, '.') {
        GroupRuns(rest, key, h, stale);
      } else {
        ItemRead(rest, stale(|rest|));
        RunSlot(h, Slot(name, key, rest), stale);
      }
    case _ =>
  }

  // ---- config groups ----

  /** The soc_id values of a config group, and the text behind its pairs. */
  datatype Values = Values(socIds: seq<string>, rest: string)

  function ScanConfig(s: string): (r: Values)
    ensures |r.rest| <= |s|
    decreases |s|
  {
    if s == "" then Values([], s)
    else
      match ParsePair(SkipSpace(s))
      case NoPair => Values([], SkipSpace(s))
      case Pair(key, value, rest) =>
        var here := if key == "soc_id" && value.Some? then [value.value] else [];
        var b := SkipSpace(rest);
        if b != "" && b[0] == ',' then
          var more := ScanConfig(b[1..]);
          Values(here + more.socIds, more.rest)
        else Values(here, b)
  }

  /** The text behind the pairs of a config group from its bracket on, and behind the group if it closes. */
  function ConfigValues(s: string): (r: Values)
    ensures |r.rest| <= |s|
  {
    var a := SkipSpace(s);
    if a != "" && a[0] == '{' then ScanConfig(a[1..]) else Values([], s)
  }

  function BehindConfig(s: string): (r: Option<string>)
    ensures r.Some? ==> |r.value| < |s|
  {
    var a, b := SkipSpace(s), SkipSpace(ConfigValues(s).rest);
    if a != "" && a[0] == '{' && b != "" && b[0] == '}' then Some(b[1..]) else None
  }

  /** The tokens of all values, in order. */
  function AllTokens(values: seq<string>): seq<string> {
    if values == [] then [] else Tokens(values[0]) + AllTokens(values[1..])
  }

  /** The numbers in front of the first token that is none. */
  function Numbers(tokens: seq<string>): seq<int> {
    if tokens == [] || Stoi(tokens[0]).None? then [] else [Stoi(tokens[0]).value] + Numbers(tokens[1..])
  }

  predicate BadToken(tokens: seq<string>) {
    exists t :: t in tokens && Stoi(t).None?
  }

  lemma {:induction false} SocsRead(ids: seq<int>, tokens: seq<string>)
    ensures PushSocs(ids, tokens) == Socs(ids + Numbers(tokens), BadToken(tokens))
    decreases |tokens|
  {
    hide Stoi;
    if tokens == [] {
      assert ids + [] == ids;
    } else {
      var n := Stoi(tokens[0]);
      assert tokens[0] in tokens;
      assert tokens == [tokens[0]] + tokens[1..];
      if n.None? {
        assert ids + [] == ids;
      } else {
        SocsRead(ids + [n.value], tokens[1..]);
        assert ids + [n.value] + Numbers(tokens[1..]) == ids + ([n.value] + Numbers(tokens[1..]));
      }
    }
  }

  lemma {:induction false} NumbersConcat(a: seq<string>, b: seq<string>)
    ensures BadToken(a + b) <==> BadToken(a) || BadToken(b)
    ensures Numbers(a + b) == if BadToken(a) then Numbers(a) else Numbers(a) + Numbers(b)
    decreases |a|
  {
    hide Stoi;
    if a == [] {
      assert a + b == b;
    } else {
      assert (a + b)[1..] == a[1..] + b && a == [a[0]] + a[1..];
      NumbersConcat(a[1..], b);
      assert a[0] in a;
    }
  }

  /** The pairs of a config group push the numbers of their soc_id values, up to the first token that is
      none; if there is no such token the pairs end where they are read to. */
  lemma {:induction false} ConfigBodyRead(s: string, ids: seq<int>)
    ensures var v := ScanConfig(s);
            var tokens := AllTokens(v.socIds);
            && ConfigBody(s, ids).socs == Socs(ids + Numbers(tokens), BadToken(tokens))
            && (!BadToken(tokens) ==> ConfigBody(s, ids).rest == v.rest)
    decreases |s|
  {
    hide SkipSpace, ParsePair, Numbers, BadToken, Tokens, PushSocs, ConfigBody, ScanConfig, AllTokens;
    NoTokens(ids);
    if s == "" || ParsePair(SkipSpace(s)).NoPair? {
      NoConfigPair(s, ids);
    } else {
      match ParsePair(SkipSpace(s))
      case Pair(key, value, rest) =>
        var first := FirstTokens(key, value);
        var b := SkipSpace(rest);
        ConfigPair(s, ids, key, value, rest);
        if StartsWith(b, ',') && !BadToken(first) {
          ConfigBodyRead(b[1..], ids + Numbers(first));
          var more := AllTokens(ScanConfig(b[1..]).socIds);
          NumbersConcat(first, more);
          assert ids + Numbers(first) + Numbers(more) == ids + (Numbers(first) + Numbers(more));
        }
        if StartsWith(b, ',') && BadToken(first) {
          NumbersConcat(first, AllTokens(ScanConfig(b[1..]).socIds));
        }
      case _ =>
    }
  }

  function FirstTokens(key: string, value: Option<string>): seq<string> {
    if key == "soc_id" && value.Some? then Tokens(value.value) else []
  }

  lemma NoConfigPair(s: string, ids: seq<int>)
    requires s == "" || ParsePair(SkipSpace(s)).NoPair?
    ensures ScanConfig(s) == Values([], if s == "" then s else SkipSpace(s))
    ensures ConfigBody(s, ids) == ConfigRead(Socs(ids, false), false, if s == "" then s else SkipSpace(s))
  {
    hide SkipSpace, ParsePair;
  }

  lemma ConfigPair(s: string, ids: seq<int>, key: string, value: Option<string>, rest: string)
    requires s != "" && ParsePair(SkipSpace(s)) == Pair(key, value, rest)
    ensures var b := SkipSpace(rest);
            var first := FirstTokens(key, value);
            var v := ScanConfig(s);
            var now := ids + Numbers(first);
            && ConfigBody(s, ids)
               == (if !BadToken(first) && StartsWith(b, ',') then ConfigBody(b[1..], now)
                   else ConfigRead(Socs(now, BadToken(first)), false, b))
            && AllTokens(v.socIds)
               == (if StartsWith(b, ',') then first + AllTokens(ScanConfig(b[1..]).socIds) else first)
            && v.rest == if StartsWith(b, ',') then ScanConfig(b[1..]).rest else b
  {
    hide SkipSpace, ParsePair, Numbers, BadToken, Tokens, PushSocs, AllTokens;
    var b := SkipSpace(rest);
    var here := if key == "soc_id" && value.Some? then [value.value] else [];
    var first := FirstTokens(key, value);
    SocsRead(ids, first);
    NoTokens(ids);
    TokensOfPair(key, value, if StartsWith(b, ',') then ScanConfig(b[1..]).socIds else []);
    assert here + [] == here && first + [] == first;
  }

  lemma NoTokens(ids: seq<int>)
    ensures AllTokens([]) == [] && Numbers([]) == [] && !BadToken([]) && ids + [] == ids
  {
  }

  lemma TokensOfPair(key: string, value: Option<string>, more: seq<string>)
    ensures var here := if key == "soc_id" && value.Some? then [value.value] else [];
            AllTokens(here + more) == FirstTokens(key, value) + AllTokens(more)
  {
    hide Tokens;
    if key == "soc_id" && value.Some? {
      assert ([value.value] + more)[1..] == more;
    } else {
      assert [] + more == more && [] + AllTokens(more) == AllTokens(more);
    }
  }

  /** parseConfig on every text: the numbers it pushes, whether it throws, and where it ends. */
  lemma ConfigOutcome(s: string, ids: seq<int>)
    ensures var c := ParseConfig(s, ids);
            var tokens := AllTokens(ConfigValues(s).socIds);
            && c.socs == Socs(ids + Numbers(tokens), BadToken(tokens))
            && (!BadToken(tokens) ==> c.closed == BehindConfig(s).Some?)
            && (!BadToken(tokens) && c.closed ==> Some(c.rest) == BehindConfig(s))
            && (BadToken(tokens) ==> !c.closed)
  {
    hide SkipSpace, ConfigBody, ScanConfig, Numbers, BadToken;
    var a := SkipSpace(s);
    NoTokens(ids);
    if StartsWith(a, '{') {
      ConfigBodyRead(a[1..], ids);
    }
  }

  // ---- the top-level groups a parse reaches ----

  /** A turn of the loop in parseFile: text starts at the head of the group, socs and soc are as before it. */
  datatype Turn = Turn(text: string, socs: seq<int>, soc: int)

  predicate IsConfig(t: Turn) {
    match ParsePair(t.text) case Pair(key, None, _) => key == "config" case _ => false
  }

  /** The group's head is missing or has a string value, or the group is a plain one that is rejected. */
  predicate Fails(t: Turn) {
    match ParsePair(t.text)
    case Pair(key, None, rest) => key != "config" && BehindGroup(rest).None?
    case _ => true
  }

  function ConfigTokens(t: Turn): seq<string> {
    if IsConfig(t) then AllTokens(ConfigValues(ParsePair(t.text).rest).socIds) else []
  }

  predicate ConfigThrows(t: Turn) {
    BadToken(ConfigTokens(t))
  }

  predicate RejectedConfig(t: Turn) {
    IsConfig(t) && !ConfigThrows(t) && BehindConfig(ParsePair(t.text).rest).None?
  }

  /** The soc list and the matched soc after the turn. */
  function SocsBehind(t: Turn): seq<int> {
    t.socs + Numbers(ConfigTokens(t))
  }

  function SocBehind(t: Turn, device: int): int {
    if IsConfig(t) && !ConfigThrows(t) && device in SocsBehind(t) then device else t.soc
  }

  /** The gate is closed: the soc list has entries and no soc was matched. */
  predicate Closed(t: Turn, device: int) {
    IsConfig(t) && SocsBehind(t) != [] && SocBehind(t, device) == -1
  }

  /** The text behind the group of a turn. */
  function BehindTurn(t: Turn): (r: Option<string>)
    ensures r.Some? ==> |r.value| < |t.text|
  {
    match ParsePair(t.text)
    case Pair(key, None, rest) => if key == "config" then BehindConfig(rest) else BehindGroup(rest)
    case _ => None
  }

  /** The next turn, where the parse goes on: behind a comma right behind the group. */
  function NextTurn(t: Turn, device: int): (r: Option<Turn>)
    ensures r.Some? ==> |r.value.text| < |t.text|
  {
    match BehindTurn(t)
    case None => None
    case Some(r) =>
      if r != "" && r[0] == ',' && !ConfigThrows(t) && !Closed(t, device)
      then Some(Turn(SkipSpace(r[1..]), SocsBehind(t), SocBehind(t, device)))
      else None
  }

  /** All turns from one on. */
  function Turns(t: Turn, device: int): (r: seq<Turn>)
    ensures r != []
    decreases |t.text|
  {
    match NextTurn(t, device)
    case None => [t]
    case Some(n) => [t] + Turns(n, device)
  }

  function TurnSlots(t: Turn): seq<Slot> {
    match ParsePair(t.text)
    case Pair(key, None, rest) => if key == "config" then [] else GroupSlots(rest, key)
    case _ => []
  }

  function SlotsOf(ts: seq<Turn>): seq<Slot> {
    if ts == [] then [] else TurnSlots(ts[0]) + SlotsOf(ts[1..])
  }

  // ---- how a parse ends ----

  /** How a parse ends with its last turn. */
  function LastExit(t: Turn): Exit {
    if ConfigThrows(t) then Throws else Return(if Fails(t) then -1 else 0)
  }

  lemma PlainTurn(s: string, key: string, rest: string, h: Hub, socs: seq<int>, soc: int, device: int, stale: Stale)
    requires ParsePair(SkipSpace(s)) == Pair(key, None, rest) && key != "config"
    ensures var t := Turn(SkipSpace(s), socs, soc);
            var g := Run(h, EntriesOfSlots(TurnSlots(t), stale));
            Turned(s, t, g, h, device, stale)
  {
    hide SkipSpace, ParsePair, ParseGroup, Run, EntriesOfSlots, GroupSlots, Groups, BehindGroup;
    GroupRuns(rest, key, h, stale);
    GroupPlace(rest, key, h, stale);
    NoTokens(socs);
    PlainGroup(s, key, rest, h, socs, soc, device, stale);
    SkippedGroups(if BehindGroup(rest).Some? && BehindGroup(rest).value != "" then BehindGroup(rest).value[1..] else "",
                  ParseGroup(rest, key, h, stale).hub, socs, soc, device, stale);
  }

  /** What a turn of the grammar is: the turns after it, or the end. */
  predicate Turned(s: string, t: Turn, g: Hub, h: Hub, device: int, stale: Stale) {
    Groups(s, h, t.socs, t.soc, device, stale)
    == match NextTurn(t, device)
       case Some(n) => Groups(n.text, g, n.socs, n.soc, device, stale)
       case None => Load(LastExit(t), g, SocsBehind(t), SocBehind(t, device))
  }

  lemma PlainGroup(s: string, key: string, rest: string, h: Hub, socs: seq<int>, soc: int, device: int, stale: Stale)
    requires ParsePair(SkipSpace(s)) == Pair(key, None, rest) && key != "config"
    ensures var g := ParseGroup(rest, key, h, stale);
            Groups(s, h, socs, soc, device, stale)
            == if !g.ok then Load(Return(-1), g.hub, socs, soc)
               else if StartsWith(g.rest, ',') then Groups(g.rest[1..], g.hub, socs, soc, device, stale)
               else Load(Return(0), g.hub, socs, soc)
  {
    hide SkipSpace, ParsePair, ParseGroup;
  }

  /** White space in front of a head does not matter. */
  lemma SkippedGroups(s: string, h: Hub, socs: seq<int>, soc: int, device: int, stale: Stale)
    ensures Groups(SkipSpace(s), h, socs, soc, device, stale) == Groups(s, h, socs, soc, device, stale)
  {
    hide ParsePair, ParseGroup, ParseConfig, Matched;
    SkipTwice(s);
    hide SkipSpace;
  }

  lemma SkipTwice(s: string)
    ensures SkipSpace(SkipSpace(s)) == SkipSpace(s)
  {
  }

  lemma ConfigGroup(s: string, rest: string, h: Hub, socs: seq<int>, soc: int, device: int, stale: Stale)
    requires ParsePair(SkipSpace(s)) == Pair("config", None, rest)
    ensures var c := ParseConfig(rest, socs);
            var soc' := Matched(c.socs.ids, soc, device);
            Groups(s, h, socs, soc, device, stale)
            == if c.socs.threw then Load(Throws, h, c.socs.ids, soc)
               else if !(c.socs.ids != [] && soc' == -1) && c.closed && StartsWith(c.rest, ',')
               then Groups(c.rest[1..], h, c.socs.ids, soc', device, stale)
               else Load(Return(0), h, c.socs.ids, soc')
  {
    hide SkipSpace, ParsePair, ParseConfig, Matched;
  }

  lemma ConfigTurn(s: string, rest: string, h: Hub, socs: seq<int>, soc: int, device: int, stale: Stale)
    requires ParsePair(SkipSpace(s)) == Pair("config", None, rest)
    ensures var t := Turn(SkipSpace(s), socs, soc); TurnSlots(t) == [] && Turned(s, t, h, h, device, stale)
  {
    hide SkipSpace, ParsePair, ParseConfig, Groups, BehindConfig, ConfigValues, Numbers, BadToken, AllTokens;
    var c := ParseConfig(rest, socs);
    ConfigOutcome(rest, socs);
    ConfigGroup(s, rest, h, socs, soc, device, stale);
    SkippedGroups(if c.closed && c.rest != "" then c.rest[1..] else "", h, c.socs.ids, Matched(c.socs.ids, soc, device),
                  device, stale);
  }

  lemma OneTurn(s: string, h: Hub, socs: seq<int>, soc: int, device: int, stale: Stale)
    ensures var t := Turn(SkipSpace(s), socs, soc);
            Turned(s, t, Run(h, EntriesOfSlots(TurnSlots(t), stale)), h, device, stale)
  {
    hide SkipSpace, ParsePair, ParseConfig, ParseGroup, Run, EntriesOfSlots, GroupSlots, Turned;
    match ParsePair(SkipSpace(s)) {
      case Pair(key, None, rest) =>
        if key == "config" {
          ConfigTurn(s, rest, h, socs, soc, device, stale);
          RunNone(h, stale);
        } else {
          PlainTurn(s, key, rest, h, socs, soc, device, stale);
        }
      case _ =>
        RunNone(h, stale);
        HeadlessTurn(s, h, socs, soc, device, stale);
    }
  }

  lemma HeadlessTurn(s: string, h: Hub, socs: seq<int>, soc: int, device: int, stale: Stale)
    requires ParsePair(SkipSpace(s)).NoPair? || ParsePair(SkipSpace(s)).value.Some?
    ensures var t := Turn(SkipSpace(s), socs, soc); TurnSlots(t) == [] && Turned(s, t, h, h, device, stale)
  {
    hide SkipSpace, ParsePair;
    NoTokens(socs);
  }

  /** A parse runs the items of the turns it reaches, in order, and ends as its last turn says. */
  lemma {:induction false} GroupsTrace(s: string, h: Hub, socs: seq<int>, soc: int, device: int, stale: Stale)
    ensures var ts := Turns(Turn(SkipSpace(s), socs, soc), device);
            var last := ts[|ts| - 1];
            Groups(s, h, socs, soc, device, stale)
            == Load(LastExit(last), Run(h, EntriesOfSlots(SlotsOf(ts), stale)), SocsBehind(last), SocBehind(last,
                device))
    decreases |SkipSpace(s)|
  {
    hide SkipSpace, ParsePair, Run, EntriesOfSlots, NextTurn, TurnSlots, Groups, LastExit, SocsBehind, SocBehind;
    var t := Turn(SkipSpace(s), socs, soc);
    OneTurn(s, h, socs, soc, device, stale);
    match NextTurn(t, device) {
      case None =>
        OneTurnSlots(t);
      case Some(n) =>
        var g := Run(h, EntriesOfSlots(TurnSlots(t), stale));
        var ts := Turns(n, device);
        NextIsSkipped(t, device);
        GroupsTrace(n.text, g, n.socs, n.soc, device, stale);
        assert ([t] + ts)[1..] == ts && Turns(t, device) == [t] + ts;
        RunSlots(h, TurnSlots(t), SlotsOf(ts), stale);
    }
  }

  lemma NextIsSkipped(t: Turn, device: int)
    requires NextTurn(t, device).Some?
    ensures SkipSpace(NextTurn(t, device).value.text) == NextTurn(t, device).value.text
  {
    hide ParsePair, BehindGroup, BehindConfig, ConfigThrows, Closed, SocsBehind, SocBehind;
    SkipTwice(BehindTurn(t).value[1..]);
  }

  lemma OneTurnSlots(t: Turn)
    ensures SlotsOf([t]) == TurnSlots(t)
  {
    hide TurnSlots;
    assert [t][1..] == [];
  }

  /** Every turn but the last leads on to a next one. */
  lemma {:induction false} TurnsLeadOn(t: Turn, device: int, k: nat)
    requires k < |Turns(t, device)|
    ensures var ts := Turns(t, device); NextTurn(ts[k], device).Some? <==> k < |ts| - 1
    decreases |t.text|
  {
    hide NextTurn;
    match NextTurn(t, device)
    case None =>
    case Some(n) =>
      if k > 0 {
        TurnsLeadOn(n, device, k - 1);
      }
  }

  lemma LeadsOn(t: Turn, device: int)
    requires NextTurn(t, device).Some?
    ensures !Fails(t) && !ConfigThrows(t) && !RejectedConfig(t)
  {
    hide ParsePair, BehindConfig, BehindGroup, BadToken, Closed, SocsBehind, SocBehind, ConfigTokens;
    NoTokens([]);
  }

  /** A parse returns -1 exactly if a turn it reaches has no head or one with a string value, or is a
      plain group that is rejected; it throws exactly if it reaches a soc_id token that stoi rejects;
      it returns 0 otherwise. */
  lemma GroupsExit(s: string, h: Hub, socs: seq<int>, soc: int, device: int, stale: Stale)
    ensures var ts := Turns(Turn(SkipSpace(s), socs, soc), device);
            var exit := Groups(s, h, socs, soc, device, stale).exit;
            && (exit == Return(-1) <==> exists t :: t in ts && Fails(t))
            && (exit == Throws <==> exists t :: t in ts && ConfigThrows(t))
            && (exit == Return(-1) || exit == Throws || exit == Return(0))
  {
    hide Groups, Turns, SkipSpace, Fails, ConfigThrows, NextTurn, Run, EntriesOfSlots, SlotsOf, LastExit;
    GroupsTrace(s, h, socs, soc, device, stale);
    var ts := Turns(Turn(SkipSpace(s), socs, soc), device);
    forall k | 0 <= k < |ts| - 1
      ensures !Fails(ts[k]) && !ConfigThrows(ts[k])
    {
      TurnsLeadOn(Turn(SkipSpace(s), socs, soc), device, k);
      LeadsOn(ts[k], device);
    }
    LastDecides(ts);
  }

  lemma LastDecides(ts: seq<Turn>)
    requires ts != [] && forall k :: 0 <= k < |ts| - 1 ==> !Fails(ts[k]) && !ConfigThrows(ts[k])
    ensures var exit := LastExit(ts[|ts| - 1]);
            && (exit == Return(-1) <==> exists t :: t in ts && Fails(t))
            && (exit == Throws <==> exists t :: t in ts && ConfigThrows(t))
            && (exit == Return(-1) || exit == Throws || exit == Return(0))
  {
    hide Fails, ConfigThrows;
    var last := ts[|ts| - 1];
    NotBoth(last);
    assert last in ts;
  }

  lemma NotBoth(t: Turn)
    ensures !(Fails(t) && ConfigThrows(t)) && !(Fails(t) && RejectedConfig(t)) && !(ConfigThrows(t)
            && RejectedConfig(t))
  {
    hide ParsePair, ParseConfig, BehindGroup;
  }

  /** A config group that parseConfig rejects, wherever it stands, ends the parse with success and with
      what the items before it made of the accumulator. */
  lemma RejectedConfigEnds(s: string, h: Hub, socs: seq<int>, soc: int, device: int, stale: Stale, k: nat)
    requires var ts := Turns(Turn(SkipSpace(s), socs, soc), device); k < |ts| && RejectedConfig(ts[k])
    ensures var ts := Turns(Turn(SkipSpace(s), socs, soc), device);
            var load := Groups(s, h, socs, soc, device, stale);
            && k == |ts| - 1 && load.exit == Return(0)
            && load.hub == Run(h, EntriesOfSlots(SlotsOf(ts[..k]), stale))
  {
    hide Groups, Turns, SkipSpace, Fails, ConfigThrows, NextTurn, RejectedConfig, EntriesOfSlots, Run, SlotsOf,
         SocsBehind,
         SocBehind;
    var t0 := Turn(SkipSpace(s), socs, soc);
    var ts := Turns(t0, device);
    TurnsLeadOn(t0, device, k);
    if k < |ts| - 1 {
      LeadsOn(ts[k], device);
    }
    GroupsTrace(s, h, socs, soc, device, stale);
    NotBoth(ts[k]);
    RejectedLast(ts);
  }

  lemma RejectedLast(ts: seq<Turn>)
    requires ts != [] && RejectedConfig(ts[|ts| - 1])
    ensures SlotsOf(ts) == SlotsOf(ts[..|ts| - 1])
  {
    hide TurnSlots, RejectedConfig, SlotsOf;
    var init, t := ts[..|ts| - 1], ts[|ts| - 1];
    SlotsSnoc(init, t);
    assert ts == init + [t];
    NoSlots(t);
    assert SlotsOf(init) + [] == SlotsOf(init);
  }

  lemma NoSlots(t: Turn)
    requires RejectedConfig(t)
    ensures TurnSlots(t) == []
  {
    hide ParsePair, ParseConfig, GroupSlots;
  }

  lemma {:induction false} SlotsSnoc(ts: seq<Turn>, t: Turn)
    ensures SlotsOf(ts + [t]) == SlotsOf(ts) + TurnSlots(t)
  {
    hide TurnSlots;
    if ts == [] {
      assert [] + [t] == [t];
      OneTurnSlots(t);
    } else {
      assert (ts + [t])[1..] == ts[1..] + [t];
      SlotsSnoc(ts[1..], t);
    }
  }

  // ---- the uninitialised value buffer ----

  /** A data pair is read before the first pair that is missing or has no string value. */
  predicate BodyHasData(s: string)
    decreases |s|
  {
    match ParsePair(SkipSpace(s))
    case Pair(key, Some(_), rest) =>
      IsDataKey(key) || (var b := SkipSpace(rest); StartsWith(b, ',') && BodyHasData(b[1..]))
    case _ => false
  }

  predicate ItemHasData(s: string) {
    StartsWith(s, '{') && BodyHasData(s[1..])
  }

  lemma {:induction false} BodyScanned(s: string)
    ensures ScanBody(s).data.Some? <==> BodyHasData(s)
    decreases |s|
  {
    hide SkipSpace, ParsePair;
    match ParsePair(SkipSpace(s))
    case Pair(key, Some(v), rest) =>
      var b := SkipSpace(rest);
      if StartsWith(b, ',') {
        BodyScanned(b[1..]);
      }
    case _ =>
  }

  lemma ItemScanned(s: string)
    ensures ScanItem(s).data.Some? <==> ItemHasData(s)
  {
    hide ScanBody, BodyHasData;
    if StartsWith(s, '{') {
      BodyScanned(s[1..]);
    }
  }

  /** The value of an item is independent of what the buffer held exactly if the item has its data. */
  lemma ItemExactly(s: string)
    ensures (forall d: string, e: string :: ParseItem(s, d) == ParseItem(s, e)) <==> ItemHasData(s)
  {
    hide ParseItem, ItemHasData, ScanItem;
    ItemScanned(s);
    if ItemHasData(s) {
      forall d: string, e: string
        ensures ParseItem(s, d) == ParseItem(s, e)
      {
        ItemRead(s, d);
        ItemRead(s, e);
      }
    } else {
      ItemRead(s, "a");
      ItemRead(s, "b");
      assert ParseItem(s, "a") != ParseItem(s, "b");
    }
  }

  predicate HaveData(slots: seq<Slot>) {
    forall i :: 0 <= i < |slots| ==> ItemHasData(slots[i].text)
  }

  lemma SlotData(sl: Slot, st: Stale, st': Stale)
    ensures if ItemHasData(sl.text) then EntryOf(sl, st) == EntryOf(sl, st') else EntryOf(sl, st).data == st(|sl.text|)
  {
    hide ItemHasData, ScanItem;
    ItemScanned(sl.text);
  }

  /** The entries that reach the accumulator are the same for all buffers exactly if every item has its data. */
  lemma EntriesExactly(slots: seq<Slot>)
    ensures (forall st: Stale, st': Stale :: EntriesOfSlots(slots, st) == EntriesOfSlots(slots, st'))
            <==> HaveData(slots)
  {
    hide EntryOf, ItemHasData;
    if HaveData(slots) {
      forall st: Stale, st': Stale
        ensures EntriesOfSlots(slots, st) == EntriesOfSlots(slots, st')
      {
        SameEntries(slots, st, st');
      }
    } else {
      var i :| 0 <= i < |slots| && !ItemHasData(slots[i].text);
      var st: Stale, st': Stale := (n: nat) => "a", (n: nat) => "b";
      SlotData(slots[i], st, st');
      SlotData(slots[i], st', st);
      assert EntriesOfSlots(slots, st)[i] != EntriesOfSlots(slots, st')[i];
    }
  }

  lemma SameEntries(slots: seq<Slot>, st: Stale, st': Stale)
    requires HaveData(slots)
    ensures EntriesOfSlots(slots, st) == EntriesOfSlots(slots, st')
  {
    hide EntryOf, ItemHasData;
    forall i | 0 <= i < |slots|
      ensures EntryOf(slots[i], st) == EntryOf(slots[i], st')
    {
      SlotData(slots[i], st, st');
    }
  }

  /** When every item a parse reaches has its data, nothing depends on the buffer. */
  lemma GroupsSettled(s: string, h: Hub, socs: seq<int>, soc: int, device: int, st: Stale, st': Stale)
    requires HaveData(SlotsOf(Turns(Turn(SkipSpace(s), socs, soc), device)))
    ensures Groups(s, h, socs, soc, device, st) == Groups(s, h, socs, soc, device, st')
  {
    hide Groups, Turns, EntriesOfSlots, Run, HaveData, LastExit;
    GroupsTrace(s, h, socs, soc, device, st);
    GroupsTrace(s, h, socs, soc, device, st');
    SameEntries(SlotsOf(Turns(Turn(SkipSpace(s), socs, soc), device)), st, st');
  }
}
