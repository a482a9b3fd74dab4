/** The hub-config parser as it runs: one NUL-terminated buffer that is parsed in place, closing
    quotes being overwritten with NULs so that keys and values can be used as C strings where they
    stand. Positions are absolute; the end of the text is the last index of the array. Each Parse
    method is tied to what ConfigGrammar says of it, on every input. */
module JsonBuffer {
  import opened Wrappers
  import opened CString
  import opened SensingHub
  import ConfigGrammar

  predicate ValidText(json: array<char>)
    reads json
  {
    json.Length > 0 && json[json.Length - 1] == NUL
  }

  /** The text of buffer t from p on, without the final NUL. */
  function Tail(t: seq<char>, p: nat): string
    requires p < |t|
  {
    t[p..|t| - 1]
  }

  /** From before to after, nothing changed but quotes at or behind index lo that became NULs. */
  ghost predicate Frame(before: seq<char>, after: seq<char>, lo: nat) {
    && |before| == |after|
    && forall i :: 0 <= i < |before| ==> after[i] == before[i] || (lo <= i && before[i] == QUOTE && after[i] == NUL)
  }

  /** The C string k stands at index p and its terminator is in front of limit. */
  ghost predicate StoredAt(t: seq<char>, p: nat, k: string, limit: nat) {
    p + |k| < limit <= |t| && t[p..p + |k|] == k && NUL !in k && t[p + |k|] == NUL
  }

  lemma FrameTrans(a: seq<char>, b: seq<char>, c: seq<char>, lo: nat, mid: nat)
    requires Frame(a, b, lo) && Frame(b, c, mid) && lo <= mid
    ensures Frame(a, c, lo)
  {
  }

  /** A call that only works behind limit leaves the C strings in front of limit readable. */
  lemma StoredStays(a: seq<char>, b: seq<char>, p: nat, k: string, limit: nat, limit': nat)
    requires StoredAt(a, p, k, limit) && Frame(a, b, limit) && limit <= limit' <= |b|
    ensures StoredAt(b, p, k, limit') && UpTo(b[p..], NUL) == k
  {
    assert b[p..p + |k|] == a[p..p + |k|];
    assert b[p..][..|k|] == k;
    UpToIs(b[p..], NUL, |k|);
  }

  lemma FrameSame(t: seq<char>, lo: nat)
    ensures Frame(t, t, lo)
  {
  }

  lemma TailNext(t: seq<char>, p: nat, n: nat)
    requires p + n < |t|
    ensures Tail(t, p)[n..] == Tail(t, p + n)
  {
  }

  /** Skips what isspace accepts from pos on; returns how many characters that are. */
  method GetWhitespaceLen(json: array<char>, pos: nat) returns (len: nat)
    requires pos < json.Length
    ensures pos + len < json.Length && Tail(json[..], pos + len) == SkipSpace(Tail(json[..], pos))
    ensures len > 0 ==> IsSpace(json[pos + len - 1])
  {
    hide Tail, SkipSpace;
    len := 0;
    while pos + len < json.Length - 1 && IsSpace(json[pos + len])
      invariant pos + len < json.Length
      invariant SkipSpace(Tail(json[..], pos + len)) == SkipSpace(Tail(json[..], pos))
      invariant len > 0 ==> IsSpace(json[pos + len - 1])
    {
      SkipOne(json[..], pos + len);
      len := len + 1;
    }
    SkipNone(json[..], pos + len);
  }

  lemma SkipOne(t: seq<char>, p: nat)
    requires p < |t| - 1 && IsSpace(t[p])
    ensures SkipSpace(Tail(t, p)) == SkipSpace(Tail(t, p + 1))
  {
    TailNext(t, p, 1);
  }

  lemma SkipNone(t: seq<char>, p: nat)
    requires p < |t| && (p == |t| - 1 || !IsSpace(t[p]))
    ensures SkipSpace(Tail(t, p)) == Tail(t, p)
  {
  }

  /** strchr(&json[pos], '"') */
  method FindQuote(json: array<char>, pos: nat) returns (at: Option<nat>)
    requires ValidText(json) && pos < json.Length
    ensures match QuoteAt(Tail(json[..], pos))
            case None => at.None?
            case Some(n) => at == Some(pos + n)
  {
    hide Tail, QuoteAt;
    var i := pos;
    while json[i] != NUL && json[i] != QUOTE
      invariant pos <= i < json.Length
      invariant match QuoteAt(Tail(json[..], i))
                case None => QuoteAt(Tail(json[..], pos)).None?
                case Some(n) => QuoteAt(Tail(json[..], pos)) == Some(i - pos + n)
      decreases json.Length - i
    {
      QuoteBehind(json[..], i);
      i := i + 1;
    }
    QuoteHere(json[..], i);
    at := if json[i] == QUOTE then Some(i) else None;
  }

  lemma QuoteBehind(t: seq<char>, p: nat)
    requires p < |t| - 1 && t[p] != NUL && t[p] != QUOTE
    ensures QuoteAt(Tail(t, p)) == match QuoteAt(Tail(t, p + 1)) case None => None case Some(n) => Some(n + 1)
  {
    TailNext(t, p, 1);
  }

  lemma QuoteHere(t: seq<char>, p: nat)
    requires p < |t| && t[|t| - 1] == NUL && (t[p] == NUL || t[p] == QUOTE)
    ensures QuoteAt(Tail(t, p)) == if t[p] == QUOTE then Some(0) else None
  {
  }

  // ---- quoted strings and pairs ----

  ghost predicate CutDone(t: seq<char>, u: seq<char>, pos: nat, next: Option<nat>)
    requires pos < |t|
  {
    var s := Tail(t, pos);
    && Frame(t, u, pos + 1)
    && s != ""
    && match QuoteAt(s[1..])
       case None => next.None?
       case Some(n) =>
         && pos + n + 2 < |u| && next == Some(pos + n + 2)
         && StoredAt(u, pos + 1, s[1..n + 1], pos + n + 2)
         && Tail(u, pos + n + 2) == Tail(t, pos + n + 2) == s[n + 2..]
  }

  /** Ends the quoted string at pos with a NUL in place of its closing quote, if it has one;
      next is the position behind it. */
  method CutQuoted(json: array<char>, pos: nat) returns (next: Option<nat>)
    requires ValidText(json) && pos < json.Length && json[pos] == QUOTE
    modifies json
    ensures ValidText(json) && CutDone(old(json[..]), json[..], pos, next)
    ensures next.Some? ==> pos < next.value < json.Length
  {
    ghost var t := json[..];
    TailNext(t, pos, 1);
    var close := FindQuote(json, pos + 1);
    if close.None? {
      return None;
    }
    json[close.value] := NUL;
    next := Some(close.value + 1);
    CutLemma(t, json[..], pos, close.value - pos - 1);
  }

  lemma CutLemma(t: seq<char>, u: seq<char>, pos: nat, n: nat)
    requires pos + 1 < |t| && QuoteAt(Tail(t, pos)[1..]) == Some(n)
    requires pos + n + 2 < |t| && t[pos + n + 1] == QUOTE && u == t[pos + n + 1 := NUL]
    ensures CutDone(t, u, pos, Some(pos + n + 2))
  {
    var s := Tail(t, pos);
    assert s[1..n + 1] == t[pos + 1..pos + n + 1] == u[pos + 1..pos + n + 1];
    assert forall i :: 0 <= i < n ==> s[1..][i] == s[1..n + 1][i];
  }

  ghost predicate KeyDone(t: seq<char>, u: seq<char>, pos: nat, next: Option<nat>)
    requires pos < |t|
  {
    && Frame(t, u, pos + 1)
    && match ConfigGrammar.ParseKey(Tail(t, pos))
       case NoKey => next.None? && (t[pos] != QUOTE ==> u == t)
       case Key(k, rest) =>
         && next.Some? && pos < next.value < |u|
         && rest == Tail(u, next.value) == Tail(t, next.value)
         && StoredAt(u, pos + 1, k, next.value)
         && (u[next.value - 1] == ':' || IsSpace(u[next.value - 1]))
  }

  /** The key of a pair up to the value behind the colon. */
  method ParseKey(json: array<char>, pos: nat) returns (next: Option<nat>)
    requires ValidText(json) && pos < json.Length
    modifies json
    ensures ValidText(json) && KeyDone(old(json[..]), json[..], pos, next)
  {
    hide SkipSpace, QuoteAt, CutDone, KeyDone, ConfigGrammar.ParseKey, Tail;
    ghost var t := json[..];
    if pos >= json.Length - 1 || json[pos] != QUOTE {
      KeyMissing(t, pos);
      return None;
    }
    next := CutQuoted(json, pos);
    if next.None? {
      KeyOpen(t, json[..], pos);
      return;
    }
    var cut := next.value;
    var w := GetWhitespaceLen(json, cut);
    var c := cut + w;
    if c >= json.Length - 1 || json[c] != ':' {
      NoColon(t, json[..], pos, cut, c);
      return None;
    }
    w := GetWhitespaceLen(json, c + 1);
    next := Some(c + 1 + w);
    KeyLemma(t, json[..], pos, cut, c, next.value);
  }

  lemma KeyMissing(t: seq<char>, pos: nat)
    requires pos < |t| && (pos == |t| - 1 || t[pos] != QUOTE)
    ensures KeyDone(t, t, pos, None)
  {
  }

  lemma KeyOpen(t: seq<char>, u: seq<char>, pos: nat)
    requires pos < |t| && t[pos] == QUOTE && CutDone(t, u, pos, None)
    ensures KeyDone(t, u, pos, None)
  {
    hide QuoteAt;
  }

  lemma NoColon(t: seq<char>, u: seq<char>, pos: nat, cut: nat, c: nat)
    requires pos < |t| && t[pos] == QUOTE && CutDone(t, u, pos, Some(cut)) && cut <= c < |u|
    requires Tail(u, c) == SkipSpace(Tail(u, cut)) && (c == |u| - 1 || u[c] != ':')
    ensures KeyDone(t, u, pos, None)
  {
    hide SkipSpace, QuoteAt;
  }

  lemma KeyLemma(t: seq<char>, u: seq<char>, pos: nat, cut: nat, colon: nat, next: nat)
    requires pos < |t| && t[pos] == QUOTE && CutDone(t, u, pos, Some(cut)) && cut <= colon < next < |u|
    requires Tail(u, colon) == SkipSpace(Tail(u, cut)) && colon < |u| - 1 && u[colon] == ':'
    requires Tail(u, next) == SkipSpace(Tail(u, colon + 1))
    requires next > colon + 1 ==> IsSpace(u[next - 1])
    ensures KeyDone(t, u, pos, Some(next))
  {
    hide SkipSpace, QuoteAt;
    TailNext(u, colon, 1);
    assert Tail(u, next) == Tail(t, next) by {
      TailNext(u, cut, next - cut);
      TailNext(t, cut, next - cut);
    }
  }

  ghost predicate ValueDone(t: seq<char>, u: seq<char>, pos: nat, key: string, next: Option<nat>, value: Option<nat>)
    requires pos < |t|
  {
    && Frame(t, u, pos + 1)
    && match ConfigGrammar.PairValue(key, Tail(t, pos))
       case NoPair => next.None?
       case Pair(_, v, rest) =>
         && next.Some? && pos <= next.value < |u|
         && rest == Tail(u, next.value) == Tail(t, next.value)
         && (v.None? ==> value.None? && next.value == pos)
         && (v.Some? ==> value.Some? && StoredAt(u, value.value, v.value, next.value))
  }

  /** What follows the colon of a pair: a string, or the bracket of a group or item. */
  method ParseValue(json: array<char>, pos: nat, ghost key: string) returns (next: Option<nat>, value: Option<nat>)
    requires ValidText(json) && pos < json.Length
    modifies json
    ensures ValidText(json) && ValueDone(old(json[..]), json[..], pos, key, next, value)
    ensures next.Some? ==> pos <= next.value < json.Length
  {
    hide SkipSpace, QuoteAt, CutDone, ValueDone, ConfigGrammar.PairValue, Tail;
    ghost var t := json[..];
    if pos < json.Length - 1 && json[pos] == QUOTE {
      value := Some(pos + 1);
      next := CutQuoted(json, pos);
      if next.None? {
        ValueOpen(t, json[..], pos, key, value);
        return;
      }
      var cut := next.value;
      var w := GetWhitespaceLen(json, cut);
      next := Some(cut + w);
      ValueText(t, json[..], pos, key, cut, cut + w);
    } else {
      value := None;
      next := if pos < json.Length - 1 && json[pos] != '{' && json[pos] != '[' then None else Some(pos);
      ValueBracket(t, pos, key, next);
    }
  }

  lemma ValueOpen(t: seq<char>, u: seq<char>, pos: nat, key: string, value: Option<nat>)
    requires pos < |t| && t[pos] == QUOTE && CutDone(t, u, pos, None)
    ensures ValueDone(t, u, pos, key, None, value)
  {
    hide QuoteAt, SkipSpace;
  }

  /** PairValue on a quoted string. */
  lemma QuotedValue(key: string, s: string, n: nat)
    requires ConfigGrammar.StartsWith(s, QUOTE) && QuoteAt(s[1..]) == Some(n)
    ensures n + 2 <= |s|
    ensures ConfigGrammar.PairValue(key, s) == ConfigGrammar.Pair(key, Some(s[1..n + 1]), SkipSpace(s[n + 2..]))
  {
    hide SkipSpace;
  }

  /** What a string that was cut says about the buffer behind it. */
  lemma CutThere(t: seq<char>, u: seq<char>, pos: nat, cut: nat) returns (n: nat)
    requires pos < |t| && t[pos] == QUOTE && CutDone(t, u, pos, Some(cut))
    ensures var s := Tail(t, pos);
            && ConfigGrammar.StartsWith(s, QUOTE) && QuoteAt(s[1..]) == Some(n) && n + 2 <= |s|
            && cut == pos + n + 2 < |u| == |t| && Frame(t, u, pos + 1)
            && StoredAt(u, pos + 1, s[1..n + 1], cut)
            && Tail(u, cut) == Tail(t, cut) == s[n + 2..]
  {
    hide QuoteAt, Frame, StoredAt;
    n := cut - pos - 2;
    FrameLength(t, u, pos + 1);
  }

  lemma FrameLength(t: seq<char>, u: seq<char>, lo: nat)
    requires Frame(t, u, lo)
    ensures |u| == |t|
  {
  }

  lemma ValueText(t: seq<char>, u: seq<char>, pos: nat, key: string, cut: nat, next: nat)
    requires pos < |t| && t[pos] == QUOTE && CutDone(t, u, pos, Some(cut)) && cut <= next < |u|
    requires Tail(u, next) == SkipSpace(Tail(u, cut))
    ensures ValueDone(t, u, pos, key, Some(next), Some(pos + 1))
  {
    hide QuoteAt, SkipSpace, Frame, Tail, StoredAt, CutDone, ConfigGrammar.PairValue;
    var n := CutThere(t, u, pos, cut);
    QuotedValue(key, Tail(t, pos), n);
    TailLater(t, u, cut, next);
    FrameSame(u, cut + 1);
    StoredLater(u, u, pos + 1, Tail(t, pos)[1..n + 1], cut, next);
  }

  lemma ValueBracket(t: seq<char>, pos: nat, key: string, next: Option<nat>)
    requires pos < |t| && (pos < |t| - 1 ==> t[pos] != QUOTE)
    requires next == if pos < |t| - 1 && t[pos] != '{' && t[pos] != '[' then None else Some(pos)
    ensures ValueDone(t, t, pos, key, next, None)
  {
  }

  /** The outcome of parsePair at pos: len 0 is failure. When it fails on a character that is no quote
      it has changed nothing; when it succeeds the text from the new cursor on is as it was. */
  ghost predicate PairDone(t: seq<char>, u: seq<char>, pos: nat, len: nat, key: nat, value: Option<nat>)
    requires pos < |t|
  {
    && Frame(t, u, pos + 1)
    && match ConfigGrammar.ParsePair(Tail(t, pos))
       case NoPair => len == 0 && (t[pos] != QUOTE ==> u == t)
       case Pair(k, v, rest) =>
         && len > 0 && pos + len < |u|
         && rest == Tail(u, pos + len) == Tail(t, pos + len)
         && StoredAt(u, key, k, pos + len)
         && (v.None? ==> value.None? && (u[pos + len - 1] == ':' || IsSpace(u[pos + len - 1])))
         && (v.Some? ==> value.Some? && StoredAt(u, value.value, v.value, pos + len))
  }

  method ParsePair(json: array<char>, pos: nat) returns (len: nat, key: nat, value: Option<nat>)
    requires ValidText(json) && pos < json.Length
    modifies json
    ensures ValidText(json) && PairDone(old(json[..]), json[..], pos, len, key, value) && pos + len < json.Length
  {
    hide KeyDone, ValueDone, PairDone, ConfigGrammar.ParseKey;
    ghost var t := json[..];
    ghost var k := ConfigGrammar.ParseKey(Tail(t, pos));
    len, key, value := 0, pos + 1, None;
    var next := ParseKey(json, pos);
    ghost var u := json[..];
    if next.None? {
      PairNoKey(t, u, pos, key);
      return;
    }
    var c := next.value;
    assert k.Key? && pos < c < |u| by {
      KeyFound(t, u, pos, c);
    }
    next, value := ParseValue(json, c, k.key);
    len := if next.Some? then next.value - pos else 0;
    PairLemma(t, u, json[..], pos, c, next, value);
  }

  lemma KeyFound(t: seq<char>, u: seq<char>, pos: nat, c: nat)
    requires pos < |t| && KeyDone(t, u, pos, Some(c))
    ensures ConfigGrammar.ParseKey(Tail(t, pos)).Key? && pos < c < |u|
  {
  }

  lemma PairNoKey(t: seq<char>, u: seq<char>, pos: nat, key: nat)
    requires pos < |t| && KeyDone(t, u, pos, None)
    ensures PairDone(t, u, pos, 0, key, None)
  {
    hide ConfigGrammar.ParseKey;
  }

  lemma PairLemma(t: seq<char>, u: seq<char>, v: seq<char>, pos: nat, c: nat, next: Option<nat>, value: Option<nat>)
    requires pos < |t| && KeyDone(t, u, pos, Some(c)) && ConfigGrammar.ParseKey(Tail(t, pos)).Key? && c < |u|
    requires ValueDone(u, v, c, ConfigGrammar.ParseKey(Tail(t, pos)).key, next, value)
    ensures PairDone(t, v, pos, if next.Some? && next.value >= pos then next.value - pos else 0, pos + 1, value)
  {
    hide KeyDone, ValueDone, PairDone, Frame, Tail, StoredAt, ConfigGrammar.ParseKey, ConfigGrammar.PairValue,
         ConfigGrammar.ParsePair;
    var key := ConfigGrammar.ParseKey(Tail(t, pos)).key;
    KeyThere(t, u, pos, c);
    PairRest(t, u, v, pos, c, key, next, value);
  }

  /** What a found key says about the text from the value on. */
  lemma KeyThere(t: seq<char>, u: seq<char>, pos: nat, c: nat)
    requires pos < |t| && KeyDone(t, u, pos, Some(c)) && ConfigGrammar.ParseKey(Tail(t, pos)).Key?
    ensures var key := ConfigGrammar.ParseKey(Tail(t, pos)).key;
            && pos < c < |u| == |t| && Tail(u, c) == Tail(t, c) && Frame(t, u, pos + 1) && t[pos] == QUOTE
            && ConfigGrammar.ParsePair(Tail(t, pos)) == ConfigGrammar.PairValue(key, Tail(u, c))
            && StoredAt(u, pos + 1, key, c) && (u[c - 1] == ':' || IsSpace(u[c - 1]))
  {
    KeyQuote(t, u, pos, c);
    hide ConfigGrammar.ParseKey, ConfigGrammar.PairValue, Tail, StoredAt;
  }

  lemma PairRest(t: seq<char>, u: seq<char>, v: seq<char>, pos: nat, c: nat, key: string, next: Option<nat>,
                 value: Option<nat>)
    requires pos < c < |u| == |t| && Tail(u, c) == Tail(t, c) && Frame(t, u, pos + 1) && t[pos] == QUOTE
    requires ConfigGrammar.ParsePair(Tail(t, pos)) == ConfigGrammar.PairValue(key, Tail(u, c))
    requires StoredAt(u, pos + 1, key, c) && (u[c - 1] == ':' || IsSpace(u[c - 1]))
    requires ValueDone(u, v, c, key, next, value)
    ensures PairDone(t, v, pos, if next.Some? && next.value >= pos then next.value - pos else 0, pos + 1, value)
  {
    hide Frame, Tail, StoredAt, ConfigGrammar.PairValue, ConfigGrammar.ParsePair;
    FrameTrans(t, u, v, pos + 1, c + 1);
    if next.Some? {
      var n := next.value;
      StoredLater(u, v, pos + 1, key, c, n);
      TailNext(u, c, n - c);
      TailNext(t, c, n - c);
      FrameKeeps(u, v, c + 1, c - 1);
      PairKey(key, Tail(u, c));
    }
  }

  lemma PairKey(key: string, s: string)
    requires ConfigGrammar.PairValue(key, s).Pair?
    ensures ConfigGrammar.PairValue(key, s).key == key
  {
    hide SkipSpace, QuoteAt;
  }

  lemma StoredLater(u: seq<char>, v: seq<char>, p: nat, k: string, c: nat, n: nat)
    requires StoredAt(u, p, k, c) && Frame(u, v, c + 1) && c <= n < |v|
    ensures StoredAt(v, p, k, n)
  {
    StoredStays(u, v, p, k, c, n);
  }

  lemma KeyQuote(t: seq<char>, u: seq<char>, pos: nat, c: nat)
    requires pos < |t| && KeyDone(t, u, pos, Some(c)) && ConfigGrammar.ParseKey(Tail(t, pos)).Key?
    ensures t[pos] == QUOTE
  {
    hide SkipSpace, QuoteAt;
  }

  lemma FrameKeeps(t: seq<char>, u: seq<char>, lo: nat, i: nat)
    requires Frame(t, u, lo) && i < lo && i < |t|
    ensures |u| == |t| && u[i] == t[i]
  {
  }

  /** The C string a pointer to index p of the buffer denotes. */
  function CStringAt(t: seq<char>, p: nat): string
    requires p < |t|
  {
    UpTo(t[p..], NUL)
  }

  // ---- items ----

  /** From p on the text is as it was, or it is not but starts with a quote, which makes every
      caller stop there. */
  ghost predicate Resumable(t: seq<char>, u: seq<char>, p: nat) {
    && p < |t| == |u|
    && (Tail(u, p) == Tail(t, p) || (p < |t| - 1 && u[p] == t[p] == QUOTE))
  }

  /** The outcome of parseItem at pos: len 0 where the function of the grammar has not moved. */
  ghost predicate ItemDone(t: seq<char>, u: seq<char>, pos: nat, buffer: string, len: nat, data: string)
    requires pos < |t|
  {
    var r := ConfigGrammar.ParseItem(Tail(t, pos), buffer);
    && Frame(t, u, pos)
    && data == r.data
    && (if r.moved then len > 0 && Resumable(t, u, pos + len) && r.rest == Tail(t, pos + len) else len == 0)
  }

  /** The loop of parseItem at its start (again) or at its end. */
  ghost predicate ItemLoop(t: seq<char>, u: seq<char>, pos: nat, c: nat, buffer: string, data: string, again: bool)
    requires pos < |t|
  {
    && pos < c < |t| && Frame(t, u, pos) && Tail(u, c) == Tail(t, c)
    && ConfigGrammar.ParseItem(Tail(t, pos), buffer)
       == if again then ConfigGrammar.ItemBody(Tail(t, c), data) else ItemEnd(Tail(t, c), data)
  }

  function ItemEnd(s: string, data: string): ConfigGrammar.ItemResult {
    if ConfigGrammar.StartsWith(s, '}') then ConfigGrammar.Item(true, data, s[1..])
        else ConfigGrammar.Item(false, data, s)
  }

  method ParseItem(json: array<char>, pos: nat, buffer: string) returns (len: nat, itemValue: string)
    requires ValidText(json) && pos < json.Length
    modifies json
    ensures ValidText(json) && ItemDone(old(json[..]), json[..], pos, buffer, len, itemValue) && pos + len < json.Length
  {
    hide PairDone, ItemDone, ItemLoop, Tail, SkipSpace, CStringAt, Frame;
    hide ConfigGrammar.ParsePair, ConfigGrammar.ParseItem, ConfigGrammar.ItemBody;
    ghost var t := json[..];
    itemValue := buffer;
    if pos >= json.Length - 1 {
      ItemMissing(t, pos, buffer);
      return 0, itemValue;
    }
    if json[pos] != '{' {
      ItemMissing(t, pos, buffer);
      return 1, itemValue;
    }
    var c := pos + 1;
    var again := true;
    ItemStart(t, pos, buffer);
    while again
      invariant ValidText(json) && pos < c < json.Length == |t|
      invariant ItemLoop(t, json[..], pos, c, buffer, itemValue, again)
      decreases json.Length - c, again
    {
      ghost var u, d, c0 := json[..], itemValue, c;
      var w := GetWhitespaceLen(json, c);
      c := c + w;
      var l, key, value := ParsePair(json, c);
      if l == 0 || value.None? {
        ItemStop(t, u, json[..], pos, c0, buffer, d, c, l, key, value);
        return c + l - pos, itemValue;
      }
      PairStrings(u, json[..], c, l, key, value.value);
      if CStringAt(json[..], key) == "data" {
        itemValue := ConfigGrammar.Truncate(CStringAt(json[..], value.value));
      }
      w := GetWhitespaceLen(json, c + l);
      again := c + l + w < json.Length - 1 && json[c + l + w] == ',';
      ItemNext(t, u, json[..], pos, c0, buffer, d, c, l, key, value.value, c + l + w, itemValue);
      c := c + l + w + (if again then 1 else 0);
    }
    len := if c >= json.Length - 1 || json[c] != '}' then 0 else c + 1 - pos;
    ItemFinish(t, json[..], pos, c, buffer, itemValue);
  }

  lemma ItemMissing(t: seq<char>, pos: nat, buffer: string)
    requires pos < |t| && (pos == |t| - 1 || t[pos] != '{')
    ensures ItemDone(t, t, pos, buffer, if pos == |t| - 1 then 0 else 1, buffer)
  {
    if pos < |t| - 1 {
      TailNext(t, pos, 1);
    }
  }

  lemma ItemStart(t: seq<char>, pos: nat, buffer: string)
    requires pos < |t| - 1 && t[pos] == '{'
    ensures ItemLoop(t, t, pos, pos + 1, buffer, buffer, true)
  {
    hide ConfigGrammar.ItemBody;
    TailNext(t, pos, 1);
  }

  /** Text that is unchanged from c on is unchanged from any later index on. */
  lemma TailLater(t: seq<char>, u: seq<char>, c: nat, a: nat)
    requires c <= a < |t| == |u| && Tail(u, c) == Tail(t, c)
    ensures Tail(u, a) == Tail(t, a) && (a < |t| - 1 ==> u[a] == t[a])
  {
    TailNext(u, c, a - c);
    TailNext(t, c, a - c);
    if a < |t| - 1 {
      assert u[a] == Tail(u, c)[a - c];
    }
  }

  /** White space is skipped from c to a in u and one pair is parsed there; v is the buffer after it. */
  ghost predicate PairAt(u: seq<char>, v: seq<char>, c: nat, a: nat, l: nat, key: nat, value: Option<nat>)
  {
    && c <= a < |u| && u[|u| - 1] == NUL && Tail(u, a) == SkipSpace(Tail(u, c)) && PairDone(u, v, a, l, key, value)
  }

  /** A failed pair leaves the parser in front of a quote or with the text unchanged. */
  lemma PairFailed(t: seq<char>, u: seq<char>, v: seq<char>, c: nat, a: nat, key: nat, value: Option<nat>)
    requires |t| == |u| && c < |t| && Tail(u, c) == Tail(t, c) && PairAt(u, v, c, a, 0, key, value)
    ensures ConfigGrammar.ParsePair(SkipSpace(Tail(t, c))).NoPair? && SkipSpace(Tail(t, c)) == Tail(t, a)
    ensures Resumable(t, v, a)
  {
    hide SkipSpace, ConfigGrammar.ParsePair;
    TailLater(t, u, c, a);
  }

  /** A parsed pair leaves the rest of the text unchanged. */
  lemma PairParsed(t: seq<char>, u: seq<char>, v: seq<char>, c: nat, a: nat, l: nat, key: nat, value: Option<nat>)
    requires |t| == |u| && c < |t| && Tail(u, c) == Tail(t, c) && PairAt(u, v, c, a, l, key, value) && l > 0
    ensures var p := ConfigGrammar.ParsePair(SkipSpace(Tail(t, c)));
            && p.Pair? && a + l < |v| == |t| && p.rest == Tail(v, a + l) == Tail(t, a + l)
            && p == ConfigGrammar.ParsePair(Tail(u, a)) && (p.value.Some? <==> value.Some?)
  {
    hide SkipSpace, ConfigGrammar.ParsePair;
    TailLater(t, u, c, a);
    TailLater(t, u, a, a + l);
  }

  lemma PairStrings(u: seq<char>, v: seq<char>, a: nat, l: nat, key: nat, value: nat)
    requires a < |u| && PairDone(u, v, a, l, key, Some(value)) && l > 0
    ensures var p := ConfigGrammar.ParsePair(Tail(u, a));
            && p.Pair? && p.value.Some? && key < |v| && value < |v|
            && CStringAt(v, key) == p.key && CStringAt(v, value) == p.value.value
  {
    hide ConfigGrammar.ParsePair;
    var p := ConfigGrammar.ParsePair(Tail(u, a));
    StoredStays(v, v, key, p.key, a + l, a + l);
    StoredStays(v, v, value, p.value.value, a + l, a + l);
  }

  lemma ItemStop(t: seq<char>, u: seq<char>, v: seq<char>, pos: nat, c: nat, buffer: string, data: string,
                 a: nat, l: nat, key: nat, value: Option<nat>)
    requires pos < |t| && ItemLoop(t, u, pos, c, buffer, data, true)
    requires PairAt(u, v, c, a, l, key, value) && (l == 0 || value.None?)
    ensures a + l > pos && ItemDone(t, v, pos, buffer, a + l - pos, data)
  {
    hide SkipSpace, ConfigGrammar.ParsePair, ConfigGrammar.ParseItem, Frame;
    FrameTrans(t, u, v, pos, a + 1);
    if l == 0 {
      PairFailed(t, u, v, c, a, key, value);
    } else {
      PairParsed(t, u, v, c, a, l, key, value);
    }
  }

  lemma ItemNext(t: seq<char>, u: seq<char>, v: seq<char>, pos: nat, c: nat, buffer: string, data: string,
                 a: nat, l: nat, key: nat, value: nat, b: nat, data': string)
    requires pos < |t| && ItemLoop(t, u, pos, c, buffer, data, true)
    requires PairAt(u, v, c, a, l, key, Some(value)) && l > 0
    requires a + l <= b < |v| && Tail(v, b) == SkipSpace(Tail(v, a + l))
    requires var p := ConfigGrammar.ParsePair(Tail(u, a));
             p.Pair? && p.value.Some?
             && data' == if ConfigGrammar.IsDataKey(p.key) then ConfigGrammar.Truncate(p.value.value) else data
    ensures if b < |v| - 1 && v[b] == ',' then ItemLoop(t, v, pos, b + 1, buffer, data', true)
            else ItemLoop(t, v, pos, b, buffer, data', false)
  {
    hide SkipSpace, ConfigGrammar.ParsePair, ConfigGrammar.ParseItem, ConfigGrammar.IsDataKey, ConfigGrammar.Truncate,
         Frame;
    FrameTrans(t, u, v, pos, a + 1);
    PairParsed(t, u, v, c, a, l, key, Some(value));
    TailLater(t, v, a + l, b);
    if b < |v| - 1 {
      TailNext(t, b, 1);
      TailLater(t, v, a + l, b + 1);
    }
  }

  lemma ItemFinish(t: seq<char>, u: seq<char>, pos: nat, c: nat, buffer: string, data: string)
    requires pos < |t| && ItemLoop(t, u, pos, c, buffer, data, false)
    ensures ItemDone(t, u, pos, buffer, if c >= |u| - 1 || u[c] != '}' then 0 else c + 1 - pos, data)
  {
    hide ConfigGrammar.ParseItem;
    TailLater(t, u, c, c);
    if c < |u| - 1 {
      TailLater(t, u, c, c + 1);
      TailNext(t, c, 1);
    }
  }

  // ---- groups ----

  ghost predicate MemberDone(t: seq<char>, u: seq<char>, pos: nat, name: string, h0: Hub, h: Hub,
                             stale: ConfigGrammar.Stale, ok: bool, len: nat)
    requires pos < |t|
  {
    var r := ConfigGrammar.ParseMember(Tail(t, pos), name, h0, stale);
    && Frame(t, u, pos) && ok == r.ok && h == r.hub
    && (ok ==> len > 0 && Resumable(t, u, pos + len) && r.rest == Tail(t, pos + len))
  }

  /** The outcome of parseGroup at pos: it returns 0 exactly where the grammar accepts, with the
      accumulator the grammar computes, and then the text behind the group is as it was. */
  ghost predicate GroupDone(t: seq<char>, u: seq<char>, pos: nat, name: string, h0: Hub, h: Hub,
                            stale: ConfigGrammar.Stale, ret: int, len: nat)
    requires pos < |t|
  {
    var r := ConfigGrammar.ParseGroup(Tail(t, pos), name, h0, stale);
    && Frame(t, u, pos) && h == r.hub && ret == (if r.ok then 0 else -1)
    && (ret == 0 ==> len > 0 && pos + len < |u| == |t| && r.rest == Tail(u, pos + len) == Tail(t, pos + len))
  }

  ghost predicate GroupLoop(t: seq<char>, u: seq<char>, pos: nat, c: nat, name: string, h0: Hub, h: Hub,
                            stale: ConfigGrammar.Stale, again: bool)
    requires pos < |t|
  {
    && pos < c < |t| && Frame(t, u, pos)
    && (if again then Tail(u, c) == Tail(t, c) else Resumable(t, u, c))
    && ConfigGrammar.ParseGroup(Tail(t, pos), name, h0, stale)
       == if again then ConfigGrammar.ParseMembers(Tail(t, c), name, h, stale) else GroupEnd(Tail(t, c), h)
  }

  function GroupEnd(s: string, h: Hub): ConfigGrammar.GroupResult {
    if ConfigGrammar.StartsWith(s, '}') then ConfigGrammar.Group(true, h, s[1..]) else ConfigGrammar.Group(false, h, s)
  }

  lemma GroupStart(t: seq<char>, pos: nat, name: string, h: Hub, stale: ConfigGrammar.Stale)
    requires pos < |t|
    ensures pos < |t| - 1 && t[pos] == '{' ==> GroupLoop(t, t, pos, pos + 1, name, h, h, stale, true)
    ensures pos == |t| - 1 || t[pos] != '{' ==> GroupDone(t, t, pos, name, h, h, stale, -1, 0)
  {
    hide ConfigGrammar.ParseMembers;
    if pos < |t| - 1 {
      TailNext(t, pos, 1);
    }
  }

  /** One turn of the loop in parseGroup: white space to a, a member of length l, white space to b. */
  ghost predicate TurnAt(u: seq<char>, v: seq<char>, c: nat, a: nat, l: nat, name: string, h: Hub, h': Hub,
                         stale: ConfigGrammar.Stale, ok: bool)
  {
    && c <= a < |u| && Tail(u, a) == SkipSpace(Tail(u, c)) && MemberDone(u, v, a, name, h, h', stale, ok, l)
  }

  lemma GroupStop(t: seq<char>, u: seq<char>, v: seq<char>, pos: nat, c: nat, name: string, h0: Hub, h: Hub, h': Hub,
                  stale: ConfigGrammar.Stale, a: nat, l: nat, len: nat)
    requires pos < |t| && GroupLoop(t, u, pos, c, name, h0, h, stale, true)
             && TurnAt(u, v, c, a, l, name, h, h', stale, false)
    ensures GroupDone(t, v, pos, name, h0, h', stale, -1, len)
  {
    hide SkipSpace, Frame, ConfigGrammar.ParseGroup, ConfigGrammar.ParseMember;
    FrameTrans(t, u, v, pos, a);
  }

  lemma GroupNext(t: seq<char>, u: seq<char>, v: seq<char>, pos: nat, c: nat, name: string, h0: Hub, h: Hub, h': Hub,
                  stale: ConfigGrammar.Stale, a: nat, l: nat, b: nat)
    requires pos < |t| && GroupLoop(t, u, pos, c, name, h0, h, stale, true)
             && TurnAt(u, v, c, a, l, name, h, h', stale, true)
    requires a + l <= b < |v| && Tail(v, b) == SkipSpace(Tail(v, a + l))
    ensures if v[b] == ',' && b < |v| - 1 then GroupLoop(t, v, pos, b + 1, name, h0, h', stale, true)
            else GroupLoop(t, v, pos, b, name, h0, h', stale, false)
  {
    hide Frame, ConfigGrammar.ParseGroup, ConfigGrammar.ParseMember, SkipSpace;
    FrameTrans(t, u, v, pos, a);
    TailLater(t, u, c, a);
    TailLater(t, u, a, a + l);
    if Tail(v, a + l) == Tail(u, a + l) {
      CharBehind(t, v, a + l, b);
    } else {
      QuoteStays(v, a + l);
      QuoteStays(t, a + l);
      assert b == a + l;
    }
  }

  lemma CharBehind(t: seq<char>, v: seq<char>, p: nat, b: nat)
    requires p <= b < |v| == |t| && Tail(v, p) == Tail(t, p)
    ensures Tail(v, b) == Tail(t, b)
    ensures b < |v| - 1 ==> v[b] == t[b] && Tail(t, b) == [t[b]] + Tail(t, b + 1) && Tail(v, b + 1) == Tail(t, b + 1)
  {
    TailLater(t, v, p, b);
    if b < |v| - 1 {
      TailLater(t, v, p, b + 1);
      assert v[b] == Tail(v, b)[0] && t[b] == Tail(t, b)[0];
    }
  }

  lemma QuoteStays(t: seq<char>, p: nat)
    requires p < |t| - 1 && t[p] == QUOTE
    ensures SkipSpace(Tail(t, p)) == Tail(t, p) && ConfigGrammar.StartsWith(Tail(t, p), QUOTE)
  {
  }

  lemma GroupFinish(t: seq<char>, u: seq<char>, pos: nat, c: nat, name: string, h0: Hub, h: Hub,
                    stale: ConfigGrammar.Stale)
    requires pos < |t| && GroupLoop(t, u, pos, c, name, h0, h, stale, false)
    ensures if c < |u| - 1 && u[c] == '}' then GroupDone(t, u, pos, name, h0, h, stale, 0, c + 1 - pos)
            else GroupDone(t, u, pos, name, h0, h, stale, -1, 0)
  {
    hide ConfigGrammar.ParseGroup;
    if Tail(u, c) == Tail(t, c) {
      TailLater(t, u, c, c);
      if c < |u| - 1 {
        TailNext(t, c, 1);
        TailLater(t, u, c, c + 1);
      }
    }
  }

  // ---- members of a group ----

  lemma MemberNoPair(t: seq<char>, u: seq<char>, pos: nat, name: string, h: Hub, stale: ConfigGrammar.Stale, key: nat,
                     value: Option<nat>, len: nat)
    requires pos < |t| && PairDone(t, u, pos, 0, key, value)
    ensures MemberDone(t, u, pos, name, h, h, stale, false, len)
  {
    hide ConfigGrammar.ParsePair;
  }

  lemma MemberString(t: seq<char>, u: seq<char>, pos: nat, name: string, h: Hub, stale: ConfigGrammar.Stale, l: nat,
                     key: nat, value: nat)
    requires pos < |t| && PairDone(t, u, pos, l, key, Some(value)) && l > 0
    ensures MemberDone(t, u, pos, name, h, h, stale, true, l)
  {
    hide ConfigGrammar.ParsePair;
  }

  /** The pair at pos is the head of a group or item; its key stands in the buffer in front of c. */
  lemma MemberHead(t: seq<char>, u: seq<char>, pos: nat, l: nat, key: nat)
    requires pos < |t| && PairDone(t, u, pos, l, key, None) && l > 0
    ensures var p := ConfigGrammar.ParsePair(Tail(t, pos));
            && p.Pair? && p.value.None? && key < |u|
            && StoredAt(u, key, p.key, pos + l) && CStringAt(u, key) == p.key
            && (u[key] == '.' <==> ConfigGrammar.StartsWith(p.key, '.'))
  {
    hide ConfigGrammar.ParsePair;
    var p := ConfigGrammar.ParsePair(Tail(t, pos));
    StoredStays(u, u, key, p.key, pos + l, pos + l);
    if p.key != "" {
      assert u[key] == u[key..key + |p.key|][0];
    }
  }

  lemma MemberNested(t: seq<char>, u: seq<char>, v: seq<char>, pos: nat, name: string, h: Hub, h': Hub,
                     stale: ConfigGrammar.Stale, l: nat, key: nat, k: string, ret: int, len: nat)
    requires pos < |t| && PairDone(t, u, pos, l, key, None) && l > 0 && k == ConfigGrammar.ParsePair(Tail(t, pos)).key
    requires ConfigGrammar.StartsWith(k, '.') && GroupDone(u, v, pos + l, k, h, h', stale, ret, len)
    ensures MemberDone(t, v, pos, name, h, h', stale, ret == 0, l + len)
  {
    hide ConfigGrammar.ParsePair, ConfigGrammar.ParseGroup;
    FrameTrans(t, u, v, pos, pos + l);
    if ret == 0 {
      TailLater(t, u, pos + l, pos + l + len);
    }
  }

  lemma MemberItem(t: seq<char>, u: seq<char>, v: seq<char>, pos: nat, name: string, h: Hub,
                   stale: ConfigGrammar.Stale, l: nat, key: nat, k: string, len: nat, data: string)
    requires pos < |t| && PairDone(t, u, pos, l, key, None) && l > 0 && k == ConfigGrammar.ParsePair(Tail(t, pos)).key
    requires !ConfigGrammar.StartsWith(k, '.') && pos + l < |t| == |u|
    requires ItemDone(u, v, pos + l, stale(|t| - 1 - (pos + l)), len, data)
    ensures MemberDone(t, v, pos, name, h, Update(h, Entry(name, k, data)), stale, len > 0, l + len)
  {
    hide ConfigGrammar.ParsePair, ConfigGrammar.ParseItem, Update;
    FrameTrans(t, u, v, pos, pos + l);
    if len > 0 {
      TailLater(t, u, pos + l, pos + l + len);
    }
  }
}
