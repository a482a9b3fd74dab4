/** The C and C++ text routines the hub-config parser relies on, as functions on strings.
    A string here is the text before the terminating NUL; it may itself contain NULs
    when it was read from a file. */
module CString {
  import opened Integers
  import opened Wrappers

  const QUOTE := '\"'
  const NUL := '\0'

  /** isspace in the C locale: tab, newline, vertical tab, form feed, return, space. */
  predicate IsSpace(c: char) {
    c == ' ' || '\t' <= c <= '\r'
  }

  /** Only white space, character by character: space, tab, newline, vertical tab, form feed, return. */
  predicate Blank(s: string) {
    forall c :: c in s ==>
      c == ' ' || c == '\t' || c == '\n' || c == '\U{000B}' || c == '\U{000C}' || c == '\r'
  }

  /** isspace accepts exactly these six. */
  lemma SpaceExactly(c: char)
    ensures IsSpace(c) <==> Blank([c])
  {
    assert c in [c];
  }

  lemma {:induction false} SkipBlank(w: string, s: string)
    requires Blank(w)
    ensures SkipSpace(w + s) == SkipSpace(s)
  {
    if w == "" {
      assert w + s == s;
    } else {
      assert w[0] in w;
      SpaceExactly(w[0]);
      assert (w + s)[1..] == w[1..] + s && forall c :: c in w[1..] ==> c in w;
      SkipBlank(w[1..], s);
    }
  }

  lemma {:induction false} SplitBlank(s: string) returns (w: string)
    ensures Blank(w) && s == w + SkipSpace(s)
  {
    if s != "" && IsSpace(s[0]) {
      var t := SplitBlank(s[1..]);
      SpaceExactly(s[0]);
      w := [s[0]] + t;
      assert s == [s[0]] + s[1..];
    } else {
      w := "";
    }
  }

  predicate IsDigit(c: char) {
    '0' <= c <= '9'
  }

  /** What is left of s after its leading white space. */
  function SkipSpace(s: string): (r: string)
    ensures |r| <= |s|
    ensures r == "" || !IsSpace(r[0])
  {
    if s != "" && IsSpace(s[0]) then SkipSpace(s[1..]) else s
  }

  /** strchr(s, '"'): the first quote that is not behind a NUL. */
  function QuoteAt(s: string): (r: Option<nat>)
    ensures r.Some? ==> r.value < |s| && s[r.value] == QUOTE
                        && forall i :: 0 <= i < r.value ==> s[i] != QUOTE && s[i] != NUL
    ensures r.None? ==> forall i :: 0 <= i < |s| && s[i] == QUOTE ==> NUL in s[..i]
  {
    if s == "" || s[0] == NUL then None
    else if s[0] == QUOTE then Some(0)
    else
      match QuoteAt(s[1..])
      case None =>
        assert forall i :: 0 < i < |s| && s[i] == QUOTE ==> s[1..][i - 1] == QUOTE && s[1..][..i - 1] == s[1..i];
        assert forall i :: 0 < i < |s| ==> s[..i] == [s[0]] + s[1..i];
        None
      case Some(n) => Some(n + 1)
  }

  /** Everything before the first stop: the C string at the start of some memory, with NUL or 0. */
  function UpTo<T(==)>(s: seq<T>, stop: T): (r: seq<T>)
    ensures |r| <= |s| && r == s[..|r|] && stop !in r
    ensures |r| == |s| || s[|r|] == stop
  {
    if s == [] || s[0] == stop then [] else [s[0]] + UpTo(s[1..], stop)
  }

  /** A C string is found by its terminator. */
  lemma {:induction false} UpToIs<T>(s: seq<T>, stop: T, n: nat)
    requires n <= |s| && stop !in s[..n] && (n == |s| || s[n] == stop)
    ensures UpTo(s, stop) == s[..n]
  {
    if n > 0 {
      assert s[0] == s[..n][0] && s[1..][..n - 1] == s[..n][1..];
      UpToIs(s[1..], stop, n - 1);
    }
  }

  // ---- decimal numbers: atoi, std::stoi and the tokens of a comma-joined list ----

  function DigitRun(s: string): (r: string)
    ensures |r| <= |s| && r == s[..|r|]
    ensures forall c :: c in r ==> IsDigit(c)
    ensures |r| == |s| || !IsDigit(s[|r|])
  {
    if s != "" && IsDigit(s[0]) then [s[0]] + DigitRun(s[1..]) else ""
  }

  function DecimalValue(ds: string): nat
    requires forall c :: c in ds ==> IsDigit(c)
  {
    if ds == "" then 0
    else
      var last := ds[|ds| - 1];
      assert IsDigit(last);
      DecimalValue(ds[..|ds| - 1]) * 10 + (last as int - '0' as int)
  }

  /** strtol in base 10, before any clamping: white space, a sign, at least one digit. */
  function LeadingInt(s: string): (r: Option<int>) {
    var t := SkipSpace(s);
    var signed := t != "" && (t[0] == '-' || t[0] == '+');
    var ds := DigitRun(if signed then t[1..] else t);
    if ds == "" then None
    else
      var n: int := DecimalValue(ds);
      Some(if signed && t[0] == '-' then -n else n)
  }

  const INT_MAX := 0x7fff_ffff
  const INT_MIN := -0x8000_0000
  const LONG_MAX := TWO_63 - 1
  const LONG_MIN := -TWO_63

  predicate IsInt(n: int) {
    INT_MIN <= n <= INT_MAX
  }

  /** The conversion of a 64-bit long to a 32-bit int: the low 32 bits. */
  function ToInt(n: int): (r: int)
    ensures IsInt(r) && (IsInt(n) ==> r == n)
  {
    (n - INT_MIN) % TWO_32 + INT_MIN
  }

  /** atoi on a 64-bit target: strtol clamps to long, the conversion keeps 32 bits. */
  function Atoi(s: string): (r: int)
    ensures IsInt(r)
  {
    match LeadingInt(s)
    case None => 0
    case Some(n) => ToInt(if n > LONG_MAX then LONG_MAX else if n < LONG_MIN then LONG_MIN else n)
  }

  /** std::stoi; None where it throws invalid_argument or out_of_range. */
  function Stoi(s: string): (r: Option<int>)
    ensures r.Some? ==> IsInt(r.value)
  {
    match LeadingInt(s)
    case None => None
    case Some(n) => if IsInt(n) then Some(n) else None
  }

  function ShowNat(n: nat): (r: string)
    ensures r != "" && forall c :: c in r ==> IsDigit(c)
    ensures DecimalValue(r) == n
  {
    if n < 10 then [('0' as int + n) as char]
    else
      var r := ShowNat(n / 10) + [('0' as int + n % 10) as char];
      assert r[..|r| - 1] == ShowNat(n / 10);
      r
  }

  function ShowInt(n: int): string {
    if n < 0 then "-" + ShowNat(-n) else ShowNat(n)
  }

  lemma DigitRunWhole(s: string)
    requires forall c :: c in s ==> IsDigit(c)
    ensures DigitRun(s) == s
  {
    if s != "" {
      assert s[0] in s;
      DigitRunWhole(s[1..]);
    }
  }

  lemma LeadingIntOfShow(n: int)
    ensures LeadingInt(ShowInt(n)) == Some(n)
  {
    var ds := ShowNat(if n < 0 then -n else n);
    DigitRunWhole(ds);
    assert ds[0] in ds;
    if n < 0 {
      assert ("-" + ds)[1..] == ds;
    }
  }

  /** Reading back a printed int with stoi or atoi gives the int. */
  lemma NumberRoundTrip(n: int)
    requires IsInt(n)
    ensures Stoi(ShowInt(n)) == Some(n) && Atoi(ShowInt(n)) == n
  {
    LeadingIntOfShow(n);
  }

  /** std::getline(ss, token, ',') until it fails: no empty token after a final comma. */
  function Tokens(s: string): (r: seq<string>)
    ensures s == "" <==> r == []
    decreases |s|
  {
    if s == "" then []
    else
      var n := |FirstToken(s)|;
      if n == |s| then [s] else [s[..n]] + Tokens(s[n + 1..])
  }

  function FirstToken(s: string): (r: string)
    ensures |r| <= |s| && r == s[..|r|] && ',' !in r
    ensures |r| == |s| || s[|r|] == ','
  {
    if s == "" || s[0] == ',' then "" else [s[0]] + FirstToken(s[1..])
  }

  /** A comma-joined list of ints, as a hub-config file writes its soc list. */
  function JoinInts(ns: seq<int>): string {
    if ns == [] then ""
    else if |ns| == 1 then ShowInt(ns[0])
    else ShowInt(ns[0]) + "," + JoinInts(ns[1..])
  }

  /** The tokens of a joined list are the printed ints, one each and in order. */
  lemma {:induction false} TokensOfJoin(ns: seq<int>)
    ensures Tokens(JoinInts(ns)) == seq(|ns|, i requires 0 <= i < |ns| => ShowInt(ns[i]))
    decreases |ns|
  {
    hide Tokens, ShowInt;
    if ns == [] {
      OneToken("");
    } else {
      var head := ShowInt(ns[0]);
      ShownText(ns[0]);
      if |ns| == 1 {
        OneToken(head);
      } else {
        var tail := JoinInts(ns[1..]);
        assert head + "," + tail == head + ("," + tail);
        TokensOfJoin(ns[1..]);
        TokenThen(head, tail);
      }
    }
  }

  lemma ShownText(n: int)
    ensures ShowInt(n) != "" && ',' !in ShowInt(n)
  {
  }

  lemma FirstTokenIs(head: string, rest: string)
    requires ',' !in head && (rest == "" || rest[0] == ',')
    ensures FirstToken(head + rest) == head
  {
    if head == "" {
      assert head + rest == rest;
    } else {
      assert (head + rest)[1..] == head[1..] + rest;
      FirstTokenIs(head[1..], rest);
    }
  }

  // ---- any text read as a number or split at its commas ----

  /** Where a text holds digits, behind white space and a sign and in front of anything else, stoi gives
      their value if it fits an int, and throws otherwise; atoi gives the low 32 bits of the value
      clamped to a long. */
  lemma NumberText(w: string, sign: string, ds: string, tail: string)
    requires Blank(w) && sign in {"", "+", "-"} && ds != "" && forall c :: c in ds ==> IsDigit(c)
    requires tail == "" || !('0' <= tail[0] <= '9')
    ensures var v: int := if sign == "-" then -(DecimalValue(ds) as int) else DecimalValue(ds);
            var clamped := if v > 0x7fff_ffff_ffff_ffff then 0x7fff_ffff_ffff_ffff
                           else if v < -0x8000_0000_0000_0000 then -0x8000_0000_0000_0000 else v;
            var s := w + (sign + (ds + tail));
            && Stoi(s) == (if -0x8000_0000 <= v <= 0x7fff_ffff then Some(v) else None)
            && Atoi(s) % 0x1_0000_0000 == clamped % 0x1_0000_0000 && -0x8000_0000 <= Atoi(s) <= 0x7fff_ffff
  {
    hide DigitRun, DecimalValue, LeadingInt;
    NumberRead(w, sign, ds, tail);
  }

  lemma NumberRead(w: string, sign: string, ds: string, tail: string)
    requires Blank(w) && sign in {"", "+", "-"} && ds != "" && forall c :: c in ds ==> IsDigit(c)
    requires tail == "" || !('0' <= tail[0] <= '9')
    ensures LeadingInt(w + (sign + (ds + tail)))
            == Some(if sign == "-" then -(DecimalValue(ds) as int) else DecimalValue(ds))
  {
    hide DecimalValue, SkipSpace, DigitRun;
    var t := sign + (ds + tail);
    SkipBlank(w, t);
    SignedDigits(sign, ds, tail);
    assert ds[0] in ds && IsDigit(ds[0]);
  }

  lemma SignedDigits(sign: string, ds: string, tail: string)
    requires sign in {"", "+", "-"} && ds != "" && forall c :: c in ds ==> IsDigit(c)
    requires tail == "" || !('0' <= tail[0] <= '9')
    ensures var t := sign + (ds + tail);
            && SkipSpace(t) == t && DigitRun(if sign == "" then t else t[1..]) == ds
            && t[0] == if sign == "" then ds[0] else sign[0]
  {
    var t := sign + (ds + tail);
    DigitsThen(ds, tail);
    assert ds[0] in ds;
    if sign == "" {
      assert t == ds + tail;
    } else {
      assert t[1..] == ds + tail;
    }
  }

  lemma {:induction false} DigitsThen(ds: string, tail: string)
    requires (forall c :: c in ds ==> IsDigit(c)) && (tail == "" || !IsDigit(tail[0]))
    ensures DigitRun(ds + tail) == ds
  {
    if ds == "" {
      assert ds + tail == tail;
    } else {
      assert ds[0] in ds;
      assert (ds + tail)[1..] == ds[1..] + tail;
      DigitsThen(ds[1..], tail);
    }
  }

  /** Where there is no digit, behind white space and a sign, atoi gives 0 and stoi throws. */
  lemma NoNumber(w: string, sign: string, tail: string)
    requires Blank(w) && sign in {"", "+", "-"} && (tail == "" || !('0' <= tail[0] <= '9'))
    requires sign == "" ==> tail == "" || (tail[0] !in {'+', '-'} && !IsSpace(tail[0]))
    ensures Stoi(w + (sign + tail)) == None && Atoi(w + (sign + tail)) == 0
  {
    var t := sign + tail;
    SkipBlank(w, t);
    if sign == "" {
      assert t == tail;
    } else {
      assert t[1..] == tail;
    }
  }

  /** Texts with commas between them; every text is such a join of comma-free ones. */
  function JoinTexts(ts: seq<string>): string
    requires ts != []
  {
    if |ts| == 1 then ts[0] else ts[0] + ("," + JoinTexts(ts[1..]))
  }

  /** The getline loop gives the texts between the commas back, without a last one that is empty. */
  lemma {:induction false} TokensExactly(ts: seq<string>)
    requires ts != [] && forall t :: t in ts ==> ',' !in t
    ensures Tokens(JoinTexts(ts)) == if ts[|ts| - 1] == "" then ts[..|ts| - 1] else ts
    decreases |ts|
  {
    hide Tokens;
    var head := ts[0];
    assert head in ts;
    if |ts| == 1 {
      OneToken(head);
      assert ts == [head] && ts[..0] == [];
    } else {
      var others := ts[1..];
      assert forall t :: t in others ==> t in ts;
      TokensExactly(others);
      TokenThen(head, JoinTexts(others));
      assert ts == [head] + others && ts[..|ts| - 1] == [head] + others[..|others| - 1];
    }
  }

  lemma OneToken(head: string)
    requires ',' !in head
    ensures Tokens(head) == if head == "" then [] else [head]
  {
    FirstTokenIs(head, "");
    assert head + "" == head;
  }

  lemma TokenThen(head: string, tail: string)
    requires ',' !in head
    ensures Tokens(head + ("," + tail)) == [head] + Tokens(tail)
  {
    var s := head + ("," + tail);
    FirstTokenIs(head, "," + tail);
    assert s[|head| + 1..] == tail && s[..|head|] == head;
  }
}
