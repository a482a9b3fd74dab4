/** The text a hub-config parser accepts and what it makes of it, as functions on the remaining text.
    The text excludes the buffer's final NUL; running off its end is reading that NUL.
    stale stands for the uninitialised 15-byte buffer parseGroup hands to parseItem: its contents
    are unknown, so they are given by the number of characters left when it is used. */
module ConfigGrammar {
  import opened Wrappers
  import opened CString
  import opened SensingHub

  const MAX_DATA := 14    // MAX_DATA_VALUE_LEN - 1

  type Stale = nat -> string

  predicate StartsWith(s: string, c: char) {
    s != "" && s[0] == c
  }

  // ---- parsePair ----

  datatype PairResult = NoPair | Pair(key: string, value: Option<string>, rest: string)

  function PairValue(key: string, s: string): (r: PairResult)
    ensures r.Pair? ==> |r.rest| <= |s|
  {
    if StartsWith(s, QUOTE) then
      match QuoteAt(s[1..])
      case None => NoPair
      case Some(n) => Pair(key, Some(s[1..n + 1]), SkipSpace(s[n + 2..]))
    else if s != "" && s[0] != '{' && s[0] != '[' then NoPair
    else Pair(key, None, s)
  }

  datatype KeyResult = NoKey | Key(key: string, rest: string)

  /** The quoted key, the colon and the white space around it. */
  function ParseKey(s: string): (r: KeyResult)
    ensures r.Key? ==> |r.rest| + 3 <= |s|
  {
    if !StartsWith(s, QUOTE) then NoKey
    else
      match QuoteAt(s[1..])
      case None => NoKey
      case Some(n) =>
        var a := SkipSpace(s[n + 2..]);
        if !StartsWith(a, ':') then NoKey else Key(s[1..n + 1], SkipSpace(a[1..]))
  }

  function ParsePair(s: string): (r: PairResult)
    ensures r.Pair? ==> |r.rest| + 3 <= |s|
  {
    match ParseKey(s)
    case NoKey => NoPair
    case Key(key, rest) => PairValue(key, rest)
  }

  // ---- parseItem ----

  /** moved is false where parseItem returns length 0; data is the item's value buffer. */
  datatype ItemResult = Item(moved: bool, data: string, rest: string)

  /** strlcpy into the value buffer. */
  function Truncate(s: string): string {
    if |s| <= MAX_DATA then s else s[..MAX_DATA]
  }

  predicate IsDataKey(key: string) {
    key == "data"
  }

  function ItemBody(s: string, data: string): (r: ItemResult)
    ensures r.moved ==> |r.rest| <= |s|
    decreases |s|
  {
    var a := SkipSpace(s);
    match ParsePair(a)
    case NoPair => Item(true, data, a)
    case Pair(_, None, rest) => Item(true, data, rest)
    case Pair(key, Some(v), rest) =>
      var d := if IsDataKey(key) then Truncate(v) else data;
      var b := SkipSpace(rest);
      if StartsWith(b, ',') then ItemBody(b[1..], d)
      else if StartsWith(b, '}') then Item(true, d, b[1..])
      else Item(false, d, b)
  }

  function ParseItem(s: string, data: string): (r: ItemResult)
    ensures r.moved ==> |r.rest| < |s|
  {
    if s == "" then Item(false, data, s)
    else if s[0] != '{' then Item(true, data, s[1..])
    else ItemBody(s[1..], data)
  }

  // ---- parseGroup ----

  datatype GroupResult = Group(ok: bool, hub: Hub, rest: string)

  function ParseGroup(s: string, name: string, h: Hub, stale: Stale): (r: GroupResult)
    ensures r.ok ==> |r.rest| < |s|
    decreases |s|, 0
  {
    if !StartsWith(s, '{') then Group(false, h, s) else ParseMembers(s[1..], name, h, stale)
  }

  function ParseMembers(s: string, name: string, h: Hub, stale: Stale): (r: GroupResult)
    ensures r.ok ==> |r.rest| < |s|
    decreases |s|, 2
  {
    var m := ParseMember(SkipSpace(s), name, h, stale);
    var b := SkipSpace(m.rest);
    if !m.ok then m
    else if StartsWith(b, ',') then ParseMembers(b[1..], name, m.hub, stale)
    else if StartsWith(b, '}') then Group(true, m.hub, b[1..])
    else Group(false, m.hub, b)
  }

  /** One element of a group: a string, a nested group or an item. */
  function ParseMember(s: string, name: string, h: Hub, stale: Stale): (r: GroupResult)
    ensures r.ok ==> |r.rest| < |s|
    decreases |s|, 1
  {
    match ParsePair(s)
    case NoPair => Group(false, h, s)
    case Pair(_, Some(_), rest) => Group(true, h, rest)
    case Pair(key, None, rest) =>
      if StartsWith(key, '.') then ParseGroup(rest, key, h, stale)
      else
        var item := ParseItem(rest, stale(|rest|));
        Group(item.moved, Update(h, Entry(name, key, item.data)), item.rest)
  }

  // ---- parseConfig ----

  /** mJsonSocIdList after some tokens; threw is a token std::stoi rejects. */
  datatype Socs = Socs(ids: seq<int>, threw: bool)

  function PushSocs(ids: seq<int>, tokens: seq<string>): Socs
    decreases |tokens|
  {
    if tokens == [] then Socs(ids, false)
    else
      match Stoi(tokens[0])
      case None => Socs(ids, true)
      case Some(n) => PushSocs(ids + [n], tokens[1..])
  }

  datatype ConfigResult = ConfigRead(socs: Socs, closed: bool, rest: string)

  /** parseConfigItem behind its bracket: closed says nothing yet. */
  function ConfigBody(s: string, ids: seq<int>): (r: ConfigResult)
    ensures |r.rest| <= |s|
    decreases |s|
  {
    if s == "" then ConfigRead(Socs(ids, false), false, s)
    else
      var a := SkipSpace(s);
      match ParsePair(a)
      case NoPair => ConfigRead(Socs(ids, false), false, a)
      case Pair(key, value, rest) =>
        var socs := if key == "soc_id" && value.Some? then PushSocs(ids, Tokens(value.value)) else Socs(ids, false);
        var b := SkipSpace(rest);
        if socs.threw || !StartsWith(b, ',') then ConfigRead(socs, false, b) else ConfigBody(b[1..], socs.ids)
  }

  /** closed is false where parseConfig returns -1. */
  function ParseConfig(s: string, ids: seq<int>): (r: ConfigResult)
    ensures r.closed ==> |r.rest| < |s|
  {
    var a := SkipSpace(s);
    if !StartsWith(a, '{') then ConfigRead(Socs(ids, false), false, s)
    else
      var c := ConfigBody(a[1..], ids);
      var b := SkipSpace(c.rest);
      if c.socs.threw || !StartsWith(b, '}') then c.(closed := false) else ConfigRead(c.socs, true, b[1..])
  }

  // ---- parseFile ----

  datatype Exit = Return(code: int) | Throws

  /** What a load changes: the hub accumulator, the soc list and the soc found in it. */
  datatype Load = Load(exit: Exit, hub: Hub, socs: seq<int>, soc: int)

  function Matched(socs: seq<int>, soc: int, device: int): int {
    if device in socs then device else soc
  }

  /** The top-level groups. After a config group that parseConfig rejects, the cursor steps back
      onto the character before it, which is no comma, and parsing ends with success. */
  function Groups(s: string, h: Hub, socs: seq<int>, soc: int, device: int, stale: Stale): Load
    decreases |s|
  {
    match ParsePair(SkipSpace(s))
    case NoPair => Load(Return(-1), h, socs, soc)
    case Pair(_, Some(_), _) => Load(Return(-1), h, socs, soc)
    case Pair(key, None, rest) =>
      if key == "config" then
        var c := ParseConfig(rest, socs);
        var soc' := Matched(c.socs.ids, soc, device);
        if c.socs.threw then Load(Throws, h, c.socs.ids, soc)
        else if c.socs.ids != [] && soc' == -1 then Load(Return(0), h, c.socs.ids, soc')
        else if c.closed && StartsWith(c.rest, ',') then Groups(c.rest[1..], h, c.socs.ids, soc', device, stale)
        else Load(Return(0), h, c.socs.ids, soc')
      else
        var g := ParseGroup(rest, key, h, stale);
        if !g.ok then Load(Return(-1), g.hub, socs, soc)
        else if StartsWith(g.rest, ',') then Groups(g.rest[1..], g.hub, socs, soc, device, stale)
        else Load(Return(0), g.hub, socs, soc)
  }

  function ParseFile(s: string, h: Hub, socs: seq<int>, soc: int, device: int, stale: Stale): Load {
    var a := SkipSpace(s);
    if !StartsWith(a, '{') then Load(Return(-1), h, socs, soc) else Groups(a[1..], h, socs, soc, device, stale)
  }
}
