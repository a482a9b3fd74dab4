/** Hub-config files as trees, their printed text with every choice of white space, and the proof
    that the parser gets the tree's meaning back from the text.
    Every Show function prints in front of a given rest of the text. */
module ConfigTree {
  import opened Wrappers
  import opened CString
  import opened SensingHub
  import opened ConfigGrammar

  // ---- trees ----

  /** pre "key" gap1 : gap2 */
  datatype Head = Head(pre: string, key: string, gap1: string, gap2: string)

  /** head "value" post */
  datatype Cell = Cell(head: Head, value: string, post: string)

  datatype Member =
    | Owner(cell: Cell)
    | Leaf(head: Head, cells: seq<Cell>, post: string)
    | Nested(head: Head, members: Members, post: string)

  datatype Members = Last(member: Member) | More(member: Member, others: Members)

  datatype ConfigCell = SocIds(head: Head, ids: seq<int>, post: string) | Other(cell: Cell)

  /** A top-level group has no white space behind its bracket: parseFile skips none there. */
  datatype Top = Plain(head: Head, members: Members) | Config(head: Head, cells: seq<ConfigCell>, blank: string)

  /** tail is all text behind the last group; parseFile does not look at it. */
  datatype File = File(lead: string, tops: seq<Top>, tail: string)

  // ---- printing ----

  function Quoted(s: string, rest: string): string {
    "\"" + (s + ("\"" + rest))
  }

  function ShowHead(h: Head, rest: string): string {
    h.pre + Quoted(h.key, h.gap1 + (":" + (h.gap2 + rest)))
  }

  function ShowCell(c: Cell, rest: string): string {
    ShowHead(c.head, Quoted(c.value, c.post + rest))
  }

  function ShowCells(cs: seq<Cell>, rest: string): string
    requires cs != []
  {
    ShowCell(cs[0], if |cs| == 1 then rest else "," + ShowCells(cs[1..], rest))
  }

  function ShowMember(m: Member, rest: string): string
    requires WfMember(m)
  {
    match m
    case Owner(c) => ShowCell(c, rest)
    case Leaf(h, cs, post) => ShowHead(h, "{" + ShowCells(cs, "}" + (post + rest)))
    case Nested(h, ms, post) => ShowHead(h, "{" + ShowMembers(ms, "}" + (post + rest)))
  }

  function ShowMembers(ms: Members, rest: string): string
    requires WfMembers(ms)
  {
    match ms
    case Last(m) => ShowMember(m, rest)
    case More(m, others) => ShowMember(m, "," + ShowMembers(others, rest))
  }

  function CellOf(c: ConfigCell): Cell {
    match c
    case SocIds(h, ids, post) => Cell(h, JoinInts(ids), post)
    case Other(cell) => cell
  }

  function CellsOf(cs: seq<ConfigCell>): seq<Cell> {
    if cs == [] then [] else [CellOf(cs[0])] + CellsOf(cs[1..])
  }

  function ShowTop(t: Top, rest: string): string
    requires WfTop(t)
  {
    match t
    case Plain(h, ms) => ShowHead(h, "{" + ShowMembers(ms, "}" + rest))
    case Config(h, cs, blank) =>
      ShowHead(h, "{" + if cs == [] then blank + ("}" + rest) else ShowCells(CellsOf(cs), "}" + rest))
  }

  function ShowTops(ts: seq<Top>, tail: string): string
    requires ts != [] && forall t :: t in ts ==> WfTop(t)
  {
    ShowTop(ts[0], if |ts| == 1 then tail else "," + ShowTops(ts[1..], tail))
  }

  function ShowFile(f: File): string
    requires WfFile(f)
  {
    f.lead + ("{" + ShowTops(f.tops, f.tail))
  }

  // ---- the limits the format puts on a tree ----

  predicate Text(s: string) {
    '\"' !in s && '\0' !in s
  }

  predicate WfHead(h: Head) {
    Blank(h.pre) && Text(h.key) && Blank(h.gap1) && Blank(h.gap2)
  }

  predicate WfCell(c: Cell) {
    WfHead(c.head) && Text(c.value) && Blank(c.post)
  }

  predicate WfCells(cs: seq<Cell>) {
    forall c :: c in cs ==> WfCell(c)
  }

  predicate WfMember(m: Member) {
    match m
    case Owner(c) => WfCell(c)
    case Leaf(h, cs, post) =>
      WfHead(h) && !StartsWith(h.key, '.') && WfCells(cs) && LastData(cs).Some? && Blank(post)
    case Nested(h, ms, post) => WfHead(h) && StartsWith(h.key, '.') && WfMembers(ms) && Blank(post)
  }

  predicate WfMembers(ms: Members) {
    match ms
    case Last(m) => WfMember(m)
    case More(m, others) => WfMember(m) && WfMembers(others)
  }

  predicate WfConfigCell(c: ConfigCell) {
    match c
    case SocIds(h, ids, post) =>
      WfHead(h) && h.key == "soc_id" && Blank(post) && forall n :: n in ids ==> -0x8000_0000 <= n <= 0x7fff_ffff
    case Other(cell) => WfCell(cell) && cell.head.key != "soc_id"
  }

  predicate WfTop(t: Top) {
    match t
    case Plain(h, ms) => WfHead(h) && h.key != "config" && WfMembers(ms)
    case Config(h, cs, blank) =>
      WfHead(h) && h.key == "config" && Blank(blank) && forall c :: c in cs ==> WfConfigCell(c)
  }

  predicate WfFile(f: File) {
    Blank(f.lead) && f.tops != [] && (forall t :: t in f.tops ==> WfTop(t)) && !StartsWith(f.tail, ',')
  }

  // ---- meaning ----

  /** At most 14 characters of a value count. */
  function Cut(s: string): string {
    if |s| <= 14 then s else s[..14]
  }

  /** The value of the last "data" pair of an item. */
  function LastData(cs: seq<Cell>): (r: Option<string>)
    ensures r.Some? ==> cs != []
  {
    if cs == [] then None
    else
      var last := cs[|cs| - 1];
      if last.head.key == "data" then Some(last.value) else LastData(cs[..|cs| - 1])
  }

  /** The entries of a group in document order; group is the name of the nearest enclosing group. */
  function EntriesOfMember(m: Member, group: string): seq<Entry>
    requires WfMember(m)
  {
    match m
    case Owner(_) => []
    case Leaf(h, cs, _) => [Entry(group, h.key, Cut(LastData(cs).value))]
    case Nested(h, ms, _) => EntriesOf(ms, h.key)
  }

  function EntriesOf(ms: Members, group: string): seq<Entry>
    requires WfMembers(ms)
  {
    match ms
    case Last(m) => EntriesOfMember(m, group)
    case More(m, others) => EntriesOfMember(m, group) + EntriesOf(others, group)
  }

  function IdsIn(c: ConfigCell): seq<int> {
    match c case SocIds(_, ids, _) => ids case Other(_) => []
  }

  function SocIdsOf(cs: seq<ConfigCell>): seq<int> {
    if cs == [] then []
    else IdsIn(cs[0]) + SocIdsOf(cs[1..])
  }

  /** What a load does with top-level groups: a config group extends the soc list, and ends the load
      when the list has entries and none of them is the device's soc. */
  function Meaning(ts: seq<Top>, h: Hub, socs: seq<int>, soc: int, device: int): Load
    requires forall t :: t in ts ==> WfTop(t)
  {
    if ts == [] then Load(Return(0), h, socs, soc)
    else
      assert WfTop(ts[0]);
      match ts[0]
      case Plain(head, ms) => Meaning(ts[1..], Run(h, EntriesOf(ms, head.key)), socs, soc, device)
      case Config(_, cs, _) =>
        var ids := socs + SocIdsOf(cs);
        var found := Matched(ids, soc, device);
        if ids != [] && found == -1 then Load(Return(0), h, ids, found) else Meaning(ts[1..], h, ids, found, device)
  }

  // ---- the lexical steps ----

  lemma {:induction false} QuoteAfter(s: string, rest: string)
    requires Text(s)
    ensures QuoteAt(s + ([QUOTE] + rest)) == Some(|s|)
  {
    if s == "" {
      assert s + ([QUOTE] + rest) == [QUOTE] + rest;
    } else {
      assert s[0] in s && (s + ([QUOTE] + rest))[1..] == s[1..] + ([QUOTE] + rest);
      QuoteAfter(s[1..], rest);
    }
  }

  /** Reading a quoted string: what is between the quotes and what is behind them. */
  lemma QuotedParts(s: string, rest: string)
    requires Text(s)
    ensures var t := Quoted(s, rest);
            && StartsWith(t, QUOTE) && QuoteAt(t[1..]) == Some(|s|)
            && |t| >= |s| + 2 && t[1..|s| + 1] == s && t[|s| + 2..] == rest
  {
    QuoteAfter(s, rest);
    var t := Quoted(s, rest);
    assert t[1..] == s + ([QUOTE] + rest);
  }

  lemma NoBlank(c: char, s: string)
    requires !IsSpace(c)
    ensures SkipSpace([c] + s) == [c] + s
  {
  }

  lemma PairUnfold(s: string, key: string, b: string)
    requires |s| >= |key| + 2 && StartsWith(s, QUOTE) && QuoteAt(s[1..]) == Some(|key|) && s[1..|key| + 1] == key
    requires SkipSpace(s[|key| + 2..]) == [':'] + b
    ensures ParsePair(s) == PairValue(key, SkipSpace(b))
  {
    hide SkipSpace, QuoteAt, PairValue;
    assert ([':'] + b)[1..] == b;
  }

  lemma PairOfHead(h: Head, rest: string)
    requires WfHead(h) && SkipSpace(rest) == rest
    ensures ParsePair(SkipSpace(ShowHead(h, rest))) == PairValue(h.key, rest)
  {
    hide SkipSpace, QuoteAt, ParsePair, PairValue, Blank, Text;
    var a := h.gap1 + (":" + (h.gap2 + rest));
    var t := Quoted(h.key, a);
    SkipBlank(h.pre, t);
    NoBlank(QUOTE, h.key + ([QUOTE] + a));
    QuotedParts(h.key, a);
    SkipBlank(h.gap1, ":" + (h.gap2 + rest));
    NoBlank(':', h.gap2 + rest);
    SkipBlank(h.gap2, rest);
    PairUnfold(t, h.key, h.gap2 + rest);
  }

  lemma ValueUnfold(key: string, v: string, a: string)
    requires Text(v)
    ensures PairValue(key, Quoted(v, a)) == Pair(key, Some(v), SkipSpace(a))
  {
    hide SkipSpace, QuoteAt, Text;
    QuotedParts(v, a);
  }

  lemma PairOfCell(c: Cell, rest: string)
    requires WfCell(c)
    ensures ParsePair(SkipSpace(ShowCell(c, rest))) == Pair(c.head.key, Some(c.value), SkipSpace(rest))
  {
    hide SkipSpace, ParsePair, PairValue, ShowHead, WfHead, Blank, Text;
    NoBlank(QUOTE, c.value + ([QUOTE] + (c.post + rest)));
    PairOfHead(c.head, Quoted(c.value, c.post + rest));
    ValueUnfold(c.head.key, c.value, c.post + rest);
    SkipBlank(c.post, rest);
  }

  lemma PairOfBracket(h: Head, rest: string)
    requires WfHead(h)
    ensures ParsePair(SkipSpace(ShowHead(h, "{" + rest))) == Pair(h.key, None, "{" + rest)
  {
    PairOfHead(h, "{" + rest);
  }

  // ---- which texts parsePair accepts ----

  /** A quoted key, a colon and either a quoted value or an opening bracket (or the end of the text),
      with white space after each but the bracket. */
  predicate PairText(s: string, key: string, w1: string, w2: string, value: Option<string>, w3: string, rest: string) {
    && Text(key) && Blank(w1) && Blank(w2)
    && match value
       case None => (rest == "" || rest[0] == '{' || rest[0] == '[') && s == Quoted(key, w1 + (":" + (w2 + rest)))
       case Some(v) =>
         && Text(v) && Blank(w3) && (rest == "" || !IsSpace(rest[0]))
         && s == Quoted(key, w1 + (":" + (w2 + Quoted(v, w3 + rest))))
  }

  /** Every such text is read as its key, its value and what is behind. */
  lemma PairAccepted(s: string, key: string, w1: string, w2: string, value: Option<string>, w3: string, rest: string)
    requires PairText(s, key, w1, w2, value, w3, rest)
    ensures ParsePair(s) == Pair(key, value, rest)
  {
    hide ParsePair, PairValue;
    var h := Head("", key, w1, w2);
    match value {
      case None =>
        BracketValue(key, rest);
        HeadAccepted(h, rest);
      case Some(v) =>
        ValueUnfold(key, v, w3 + rest);
        SkipBlank(w3, rest);
        NoBlank('\"', v + ("\"" + (w3 + rest)));
        HeadAccepted(h, Quoted(v, w3 + rest));
    }
  }

  lemma BracketValue(key: string, rest: string)
    requires rest == "" || rest[0] == '{' || rest[0] == '['
    ensures PairValue(key, rest) == Pair(key, None, rest) && SkipSpace(rest) == rest
  {
  }

  lemma HeadAccepted(h: Head, rest: string)
    requires WfHead(h) && h.pre == "" && SkipSpace(rest) == rest
    ensures ParsePair(Quoted(h.key, h.gap1 + (":" + (h.gap2 + rest)))) == PairValue(h.key, rest)
  {
    hide ParsePair, PairValue, SkipSpace;
    var t := Quoted(h.key, h.gap1 + (":" + (h.gap2 + rest)));
    PairOfHead(h, rest);
    NoBlank('\"', h.key + ("\"" + (h.gap1 + (":" + (h.gap2 + rest)))));
    assert ShowHead(h, rest) == t;
  }

  /** And parsePair accepts no other text. */
  lemma PairSound(s: string) returns (w1: string, w2: string, w3: string)
    requires ParsePair(s).Pair?
    ensures var p := ParsePair(s); PairText(s, p.key, w1, w2, p.value, w3, p.rest)
  {
    hide SkipSpace, QuoteAt, PairValue;
    var k := ParseKey(s);
    w1, w2 := KeySound(s);
    w3 := ValueSound(k.key, k.rest);
  }

  lemma KeySound(s: string) returns (w1: string, w2: string)
    requires ParseKey(s).Key?
    ensures var k := ParseKey(s);
            && Text(k.key) && Blank(w1) && Blank(w2) && s == Quoted(k.key, w1 + (":" + (w2 + k.rest)))
            && (k.rest == "" || !IsSpace(k.rest[0]))
  {
    var n := QuoteAt(s[1..]).value;
    QuotedSound(s, n);
    hide SkipSpace, QuoteAt, Text;
    var a := s[n + 2..];
    w1 := SplitBlank(a);
    var b := SkipSpace(a);
    w2 := SplitBlank(b[1..]);
    assert b == ":" + b[1..];
  }

  lemma QuotedSound(s: string, n: nat)
    requires StartsWith(s, '\"') && QuoteAt(s[1..]) == Some(n)
    ensures n + 2 <= |s| && Text(s[1..n + 1]) && s == Quoted(s[1..n + 1], s[n + 2..])
  {
    var key := s[1..n + 1];
    forall c | c in key
      ensures c != '\"' && c != '\0'
    {
      var i :| 0 <= i < |key| && key[i] == c;
      assert s[1..][i] == c;
    }
  }

  lemma ValueSound(key: string, s: string) returns (w3: string)
    requires PairValue(key, s).Pair? && (s == "" || !IsSpace(s[0]))
    ensures var p := PairValue(key, s);
            && p.key == key && (p.rest == "" || !IsSpace(p.rest[0]))
            && match p.value
               case None => p.rest == s && (s == "" || s[0] == '{' || s[0] == '[')
               case Some(v) => Text(v) && Blank(w3) && s == Quoted(v, w3 + p.rest)
  {
    w3 := "";
    if StartsWith(s, '\"') {
      var n := QuoteAt(s[1..]).value;
      QuotedSound(s, n);
      w3 := SplitBlank(s[n + 2..]);
    }
  }

  // ---- items ----

  /** The value buffer after the pairs of an item. */
  function DataAfter(cs: seq<Cell>, data: string): string {
    if cs == [] then data
    else DataAfter(cs[1..], DataWith(cs[0], data))
  }

  lemma {:induction false} LastDataWins(cs: seq<Cell>, data: string)
    ensures DataAfter(cs, data) == if LastData(cs).Some? then Cut(LastData(cs).value) else data
  {
    if cs != [] {
      LastDataCons(cs);
      LastDataWins(cs[1..], DataWith(cs[0], data));
    }
  }

  lemma {:induction false} LastDataCons(cs: seq<Cell>)
    requires cs != []
    ensures LastData(cs) == if LastData(cs[1..]).Some? then LastData(cs[1..])
                            else if cs[0].head.key == "data" then Some(cs[0].value) else None
    decreases |cs|
  {
    if |cs| > 1 {
      assert cs[1..][..|cs| - 2] == cs[..|cs| - 1][1..];
      LastDataCons(cs[..|cs| - 1]);
    }
  }

  function DataWith(c: Cell, data: string): string {
    if c.head.key == "data" then Cut(c.value) else data
  }

  lemma ItemUnfold(s: string, c: Cell, data: string, t: string)
    requires ParsePair(SkipSpace(s)) == Pair(c.head.key, Some(c.value), SkipSpace(t))
    requires SkipSpace(t) == t && (StartsWith(t, ',') || StartsWith(t, '}'))
    ensures ItemBody(s, data)
            == if t[0] == ',' then ItemBody(t[1..], DataWith(c, data)) else Item(true, DataWith(c, data), t[1..])
  {
    hide SkipSpace, ParsePair, IsDataKey, Truncate, DataWith;
    DataWithIs(c, data);
  }

  lemma DataWithIs(c: Cell, data: string)
    ensures DataWith(c, data) == if IsDataKey(c.head.key) then Truncate(c.value) else data
  {
  }

  lemma {:induction false} CellsRoundTrip(cs: seq<Cell>, data: string, rest: string)
    requires cs != [] && WfCells(cs)
    ensures ItemBody(ShowCells(cs, "}" + rest), data) == Item(true, DataAfter(cs, data), rest)
    decreases |cs|
  {
    hide SkipSpace, ParsePair, ItemBody, DataWith, WfCell, ShowCell;
    var s := ShowCells(cs, "}" + rest);
    if |cs| == 1 {
      PairOfCell(cs[0], "}" + rest);
      NoBlank('}', rest);
      ItemUnfold(s, cs[0], data, "}" + rest);
    } else {
      var next := ShowCells(cs[1..], "}" + rest);
      PairOfCell(cs[0], "," + next);
      NoBlank(',', next);
      ItemUnfold(s, cs[0], data, "," + next);
      CellsRoundTrip(cs[1..], DataWith(cs[0], data), rest);
    }
  }

  // ---- groups ----

  lemma {:induction false} MemberRoundTrip(m: Member, group: string, h: Hub, rest: string, stale: Stale)
    requires WfMember(m)
    ensures var g := ParseMember(SkipSpace(ShowMember(m, rest)), group, h, stale);
            g.ok && g.hub == Run(h, EntriesOfMember(m, group)) && SkipSpace(g.rest) == SkipSpace(rest)
    decreases m
  {
    match m {
      case Owner(c) => PairOfCell(c, rest);
      case Leaf(head, cs, post) => LeafRoundTrip(head, cs, post, group, h, rest, stale);
      case Nested(head, ms, post) =>
        PairOfBracket(head, ShowMembers(ms, "}" + (post + rest)));
        MembersRoundTrip(ms, head.key, h, post + rest, stale);
        SkipBlank(post, rest);
    }
  }

  lemma LeafRoundTrip(head: Head, cs: seq<Cell>, post: string, group: string, h: Hub, rest: string, stale: Stale)
    requires WfMember(Leaf(head, cs, post))
    ensures var g := ParseMember(SkipSpace(ShowMember(Leaf(head, cs, post), rest)), group, h, stale);
            && g.ok && SkipSpace(g.rest) == SkipSpace(rest)
            && g.hub == Run(h, [Entry(group, head.key, Cut(LastData(cs).value))])
  {
    var text := "{" + ShowCells(cs, "}" + (post + rest));
    PairOfBracket(head, ShowCells(cs, "}" + (post + rest)));
    CellsRoundTrip(cs, stale(|text|), post + rest);
    LastDataWins(cs, stale(|text|));
    SkipBlank(post, rest);
    RunOne(h, Entry(group, head.key, Cut(LastData(cs).value)));
  }

  lemma RunOne(h: Hub, e: Entry)
    ensures Run(h, [e]) == Update(h, e)
  {
    assert [e][..0] == [];
  }

  lemma {:induction false} MembersRoundTrip(ms: Members, group: string, h: Hub, rest: string, stale: Stale)
    requires WfMembers(ms)
    ensures ConfigGrammar.ParseMembers(ShowMembers(ms, "}" + rest), group, h, stale)
            == Group(true, Run(h, EntriesOf(ms, group)), rest)
    decreases ms
  {
    hide SkipSpace, ParseMember, Run, ShowMember, EntriesOfMember, WfMember;
    NoBlank('}', rest);
    match ms {
      case Last(m) => MemberRoundTrip(m, group, h, "}" + rest, stale);
      case More(m, others) =>
        var next := ShowMembers(others, "}" + rest);
        var h' := Run(h, EntriesOfMember(m, group));
        NoBlank(',', next);
        MemberRoundTrip(m, group, h, "," + next, stale);
        MembersRoundTrip(others, group, h', rest, stale);
        RunConcat(h, EntriesOfMember(m, group), EntriesOf(others, group));
    }
  }

  // ---- the config group ----

  lemma {:induction false} PushJoined(ids: seq<int>, ns: seq<int>)
    requires forall n :: n in ns ==> IsInt(n)
    ensures PushSocs(ids, Tokens(JoinInts(ns))) == Socs(ids + ns, false)
  {
    TokensOfJoin(ns);
    PushShown(ids, ns);
  }

  function ShowInts(ns: seq<int>): seq<string> {
    seq(|ns|, i requires 0 <= i < |ns| => ShowInt(ns[i]))
  }

  lemma {:induction false} PushShown(ids: seq<int>, ns: seq<int>)
    requires forall n :: n in ns ==> IsInt(n)
    ensures PushSocs(ids, ShowInts(ns)) == Socs(ids + ns, false)
    decreases |ns|
  {
    if ns == [] {
      assert ids + ns == ids;
    } else {
      NumberRoundTrip(ns[0]);
      assert ShowInts(ns)[1..] == ShowInts(ns[1..]);
      PushShown(ids + [ns[0]], ns[1..]);
      assert ids + [ns[0]] + ns[1..] == ids + ns;
    }
  }

  lemma ConfigUnfold(s: string, c: Cell, ids: seq<int>, socs: Socs, t: string)
    requires s != "" && ParsePair(SkipSpace(s)) == Pair(c.head.key, Some(c.value), SkipSpace(t))
    requires SkipSpace(t) == t && (StartsWith(t, ',') || StartsWith(t, '}'))
    requires socs == (if c.head.key == "soc_id" then PushSocs(ids, Tokens(c.value)) else Socs(ids, false))
             && !socs.threw
    ensures ConfigBody(s, ids) == if t[0] == ',' then ConfigBody(t[1..], socs.ids) else ConfigRead(socs, false, t)
  {
    hide SkipSpace, ParsePair, PushSocs, Tokens;
  }

  /** The soc list of a config group is recovered exactly, over all its soc_id pairs. */
  lemma {:induction false} ConfigCellsRoundTrip(cs: seq<ConfigCell>, ids: seq<int>, rest: string)
    requires cs != [] && forall c :: c in cs ==> WfConfigCell(c)
    ensures ConfigBody(ShowCells(CellsOf(cs), "}" + rest), ids)
            == ConfigRead(Socs(ids + SocIdsOf(cs), false), false, "}" + rest)
    decreases |cs|
  {
    hide SkipSpace, ParsePair, ConfigBody, PushSocs, Tokens, ShowCell, ShowCells, WfConfigCell, CellOf, CellsOf, WfCell,
         SocIdsOf, IdsIn;
    var c, cell := cs[0], CellOf(cs[0]);
    ConfigCellIds(c, ids);
    ShowConfigCells(cs, "}" + rest);
    SocIdsStep(cs);
    ConcatAssoc(ids, IdsIn(c), SocIdsOf(cs[1..]));
    var s := ShowCells(CellsOf(cs), "}" + rest);
    if |cs| == 1 {
      PairOfCell(cell, "}" + rest);
      NoBlank('}', rest);
      ConfigUnfold(s, cell, ids, Socs(ids + IdsIn(c), false), "}" + rest);
    } else {
      var next := ShowCells(CellsOf(cs[1..]), "}" + rest);
      PairOfCell(cell, "," + next);
      NoBlank(',', next);
      ConfigUnfold(s, cell, ids, Socs(ids + IdsIn(c), false), "," + next);
      ConfigCellsRoundTrip(cs[1..], ids + IdsIn(c), rest);
    }
  }

  lemma ShowConfigCells(cs: seq<ConfigCell>, rest: string)
    requires cs != []
    ensures |CellsOf(cs)| == |cs| && (|cs| > 1 ==> CellsOf(cs[1..]) != [])
    ensures ShowCells(CellsOf(cs), rest)
            == ShowCell(CellOf(cs[0]), if |cs| == 1 then rest else "," + ShowCells(CellsOf(cs[1..]), rest))
    ensures ShowCells(CellsOf(cs), rest) != ""
  {
    hide CellOf;
    CellsOfLength(cs);
    assert CellsOf(cs)[1..] == CellsOf(cs[1..]);
  }

  lemma CellsOfLength(cs: seq<ConfigCell>)
    ensures |CellsOf(cs)| == |cs|
  {
  }

  lemma SocIdsStep(cs: seq<ConfigCell>)
    requires cs != []
    ensures SocIdsOf(cs) == IdsIn(cs[0]) + SocIdsOf(cs[1..])
    ensures |cs| == 1 ==> SocIdsOf(cs[1..]) == []
  {
  }

  lemma ConcatAssoc(a: seq<int>, b: seq<int>, c: seq<int>)
    ensures a + (b + c) == a + b + c
    ensures c == [] ==> a + (b + c) == a + b
  {
  }

  lemma ConfigCellIds(c: ConfigCell, ids: seq<int>)
    requires WfConfigCell(c)
    ensures WfCell(CellOf(c))
    ensures (if CellOf(c).head.key == "soc_id" then PushSocs(ids, Tokens(CellOf(c).value)) else Socs(ids, false))
            == Socs(ids + IdsIn(c), false)
  {
    match c {
      case SocIds(_, ns, _) =>
        PushJoined(ids, ns);
        JoinedText(ns);
      case Other(_) =>
    }
  }

  lemma {:induction false} JoinedText(ns: seq<int>)
    ensures Text(JoinInts(ns))
  {
    if ns != [] {
      assert Text(ShowInt(ns[0]));
      if |ns| > 1 {
        JoinedText(ns[1..]);
      }
    }
  }

  lemma ConfigRoundTrip(cs: seq<ConfigCell>, blank: string, ids: seq<int>, rest: string)
    requires Blank(blank) && forall c :: c in cs ==> WfConfigCell(c)
    ensures ParseConfig("{" + (if cs == [] then blank + ("}" + rest) else ShowCells(CellsOf(cs), "}" + rest)), ids)
            == ConfigRead(Socs(ids + SocIdsOf(cs), false), true, rest)
  {
    CellsOfLength(cs);
    hide SkipSpace, ConfigBody, SocIdsOf, ShowCells, CellsOf, WfConfigCell, Blank;
    var t := if cs == [] then blank + ("}" + rest) else ShowCells(CellsOf(cs), "}" + rest);
    NoBlank('{', t);
    NoBlank('}', rest);
    assert ("{" + t)[1..] == t;
    if cs == [] {
      EmptyConfig(blank, ids, rest);
    } else {
      ConfigCellsRoundTrip(cs, ids, rest);
    }
  }

  lemma EmptyConfig(blank: string, ids: seq<int>, rest: string)
    requires Blank(blank)
    ensures ConfigBody(blank + ("}" + rest), ids) == ConfigRead(Socs(ids + SocIdsOf([]), false), false, "}" + rest)
  {
    hide SkipSpace, Blank;
    SkipBlank(blank, "}" + rest);
    NoBlank('}', rest);
    BracketNoPair(rest);
    assert ids + SocIdsOf([]) == ids;
  }

  lemma BracketNoPair(rest: string)
    ensures ParsePair("}" + rest) == NoPair
  {
  }

  // ---- whole files ----

  function Continue(rest: string, h: Hub, socs: seq<int>, soc: int, device: int, stale: Stale): Load {
    if StartsWith(rest, ',') then Groups(rest[1..], h, socs, soc, device, stale) else Load(Return(0), h, socs, soc)
  }

  lemma PlainTop(t: Top, rest: string, h: Hub, socs: seq<int>, soc: int, device: int, stale: Stale)
    requires t.Plain? && WfTop(t)
    ensures Groups(ShowTop(t, rest), h, socs, soc, device, stale)
            == Continue(rest, Run(h, EntriesOf(t.members, t.head.key)), socs, soc, device, stale)
  {
    hide SkipSpace, ParsePair, Run, EntriesOf, ShowMembers, ParseMembers, ShowHead, Groups;
    var body := ShowMembers(t.members, "}" + rest);
    PairOfBracket(t.head, body);
    MembersRoundTrip(t.members, t.head.key, h, rest, stale);
    assert ("{" + body)[1..] == body;
    GroupsUnfold(ShowTop(t, rest), t.head.key, "{" + body, h, socs, soc, device, stale);
  }

  lemma GroupsUnfold(s: string, key: string, rest: string, h: Hub, socs: seq<int>, soc: int, device: int, stale: Stale)
    requires ParsePair(SkipSpace(s)) == Pair(key, None, rest) && key != "config"
    ensures var g := ParseGroup(rest, key, h, stale);
            Groups(s, h, socs, soc, device, stale)
            == if g.ok then Continue(g.rest, g.hub, socs, soc, device, stale) else Load(Return(-1), g.hub, socs, soc)
  {
    hide SkipSpace, ParsePair, ParseGroup;
  }

  lemma ConfigTop(t: Top, rest: string, h: Hub, socs: seq<int>, soc: int, device: int, stale: Stale)
    requires t.Config? && WfTop(t)
    ensures var ids := socs + SocIdsOf(t.cells);
            var found := Matched(ids, soc, device);
            Groups(ShowTop(t, rest), h, socs, soc, device, stale)
            == if ids != [] && found == -1 then Load(Return(0), h, ids, found)
               else Continue(rest, h, ids, found, device, stale)
  {
    hide SkipSpace, ParsePair, SocIdsOf, ParseConfig, ShowHead, ShowCells;
    PairOfBracket(t.head, if t.cells == [] then t.blank + ("}" + rest) else ShowCells(CellsOf(t.cells), "}" + rest));
    ConfigRoundTrip(t.cells, t.blank, socs, rest);
  }

  lemma {:induction false} TopsRoundTrip(ts: seq<Top>, tail: string, h: Hub, socs: seq<int>, soc: int, device: int,
                                         stale: Stale)
    requires ts != [] && (forall t :: t in ts ==> WfTop(t)) && !StartsWith(tail, ',')
    ensures Groups(ShowTops(ts, tail), h, socs, soc, device, stale) == Meaning(ts, h, socs, soc, device)
    decreases |ts|
  {
    hide Groups, ShowTop, Run, EntriesOf, SocIdsOf, Matched;
    var t := ts[0];
    assert WfTop(t);
    var rest := if |ts| == 1 then tail else "," + ShowTops(ts[1..], tail);
    if t.Plain? {
      PlainTop(t, rest, h, socs, soc, device, stale);
    } else {
      ConfigTop(t, rest, h, socs, soc, device, stale);
    }
    if |ts| > 1 {
      assert rest[1..] == ShowTops(ts[1..], tail);
      var ids := if t.Plain? then socs else socs + SocIdsOf(t.cells);
      TopsRoundTrip(ts[1..], tail, if t.Plain? then Run(h, EntriesOf(t.members, t.head.key)) else h, ids,
                    if t.Plain? then soc else Matched(ids, soc, device), device, stale);
    }
  }

  /** The round trip: parsing the printed text of any well-formed tree, with any white space and
      any tail, gives the tree's meaning. */
  lemma FileRoundTrip(f: File, h: Hub, socs: seq<int>, soc: int, device: int, stale: Stale)
    requires WfFile(f)
    ensures ParseFile(ShowFile(f), h, socs, soc, device, stale) == Meaning(f.tops, h, socs, soc, device)
  {
    SkipBlank(f.lead, "{" + ShowTops(f.tops, f.tail));
    TopsRoundTrip(f.tops, f.tail, h, socs, soc, device, stale);
  }
}
