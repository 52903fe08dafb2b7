/** `json.dumps` with Python's default separators, and how its output reads back. */
module JsonPrinter {
  import opened Text
  import opened Wrappers
  import opened Json

  // ---- Printing ----

  function HexText(d: nat): Code
    requires d < 16
  {
    if d < 10 then '0' as int + d else 'a' as int + d - 10
  }

  /** `\uXXXX` with lower-case digits. */
  function UnicodeEscape(n: nat): (r: Str)
    requires n < 0x10000
    ensures |r| == 6
  {
    ['\\' as int, 'u' as int,
     HexText(n / 16 / 16 / 16), HexText(n / 16 / 16 % 16), HexText(n / 16 % 16), HexText(n % 16)]
  }

  /** The surrogate pair of a code point outside the basic plane. */
  function HighOf(c: Code): nat
    requires c >= 0x10000
  {
    0xD800 + (c - 0x10000) / 0x400
  }

  function LowOf(c: Code): nat
    requires c >= 0x10000
  {
    0xDC00 + (c - 0x10000) % 0x400
  }

  /** One character of a string; `ascii` is the `ensure_ascii` flag. */
  function EscapeCode(c: Code, ascii: bool): (r: Str)
    ensures r != []
  {
    if c == '"' as int || c == '\\' as int then ['\\' as int, c]
    else if c == 10 then Lit("\\n")
    else if c == 13 then Lit("\\r")
    else if c == 9 then Lit("\\t")
    else if c == 12 then Lit("\\f")
    else if c == 8 then Lit("\\b")
    else if c < 32 then UnicodeEscape(c)
    else if ascii && c >= 0x10000 then
      UnicodeEscape(HighOf(c)) + UnicodeEscape(LowOf(c))
    else if ascii && c > 126 then UnicodeEscape(c)
    else [c]
  }

  /** The characters of a string and its closing quote. */
  function EscapeTail(t: Str, ascii: bool): (r: Str)
    ensures r != []
  {
    if t == [] then ['"' as int] else EscapeCode(t[0], ascii) + EscapeTail(t[1..], ascii)
  }

  function DumpsText(t: Str, ascii: bool): (r: Str)
    ensures r != [] && r[0] == '"' as int
  {
    ['"' as int] + EscapeTail(t, ascii)
  }

  function Digits(n: nat): (r: Str)
    ensures r != [] && forall k :: 0 <= k < |r| ==> IsDigit(r[k])
  {
    (if n < 10 then [] else Digits(n / 10)) + ['0' as int + n % 10]
  }

  /** `str(n)` */
  function Decimal(n: int): (r: Str)
    ensures r != []
  {
    if n < 0 then ['-' as int] + Digits(-n) else Digits(n)
  }

  function Dumps(v: Value, ascii: bool): (r: Str)
    requires WellFormed(v)
    ensures r != []
    decreases v, 1
  {
    match v
    case Null => Lit("null")
    case Bool(b) => if b then Lit("true") else Lit("false")
    case Int(n) => Decimal(n)
    case Float(spelling) => spelling
    case Text(t) => DumpsText(t, ascii)
    case Array(items) => if items == [] then Lit("[]") else Lit("[") + DumpsItems(items, ascii)
    case Object(ms) => if ms == [] then Lit("{}") else Lit("{") + DumpsMembers(ms, ascii)
  }

  function DumpsItems(vs: seq<Value>, ascii: bool): (r: Str)
    requires vs != [] && WellFormedItems(vs)
    ensures r != []
    decreases vs, 0
  {
    Dumps(vs[0], ascii) + (if |vs| == 1 then Lit("]") else Lit(", ") + DumpsItems(vs[1..], ascii))
  }

  function DumpsMember(m: Member, ascii: bool): (r: Str)
    requires WellFormedMember(m)
    ensures r != [] && r[0] == '"' as int
    decreases m, 0
  {
    DumpsText(m.name, ascii) + Lit(": ") + Dumps(m.value, ascii)
  }

  function DumpsMembers(ms: seq<Member>, ascii: bool): (r: Str)
    requires ms != [] && WellFormedMembers(ms)
    ensures r != [] && r[0] == '"' as int
    decreases ms, 0
  {
    DumpsMember(ms[0], ascii) + (if |ms| == 1 then Lit("}") else Lit(", ") + DumpsMembers(ms[1..], ascii))
  }

  /** Every float is a spelling the grammar reads as that float. */
  predicate WellFormed(v: Value)
    decreases v, 1
  {
    match v
    case Float(spelling) => spelling != [] && Scalar(spelling, 0) == Some((v, |spelling|))
    case Array(items) => WellFormedItems(items)
    case Object(ms) => WellFormedMembers(ms)
    case _ => true
  }

  predicate WellFormedItems(vs: seq<Value>)
    decreases vs, 0
  {
    vs == [] || (WellFormed(vs[0]) && WellFormedItems(vs[1..]))
  }

  predicate WellFormedMember(m: Member)
    decreases m, 0
  {
    WellFormed(m.value)
  }

  predicate WellFormedMembers(ms: seq<Member>)
    decreases ms, 0
  {
    ms == [] || (WellFormedMember(ms[0]) && WellFormedMembers(ms[1..]))
  }

  // ---- What reading the output back gives ----

  /** A string with every high surrogate that a low one follows joined to it, from the left. */
  function JoinPairs(t: Str): Str {
    if |t| >= 2 && IsHigh(t[0]) && IsLow(t[1]) then [JoinPair(t[0], t[1])] + JoinPairs(t[2..])
    else if t == [] then []
    else [t[0]] + JoinPairs(t[1..])
  }

  predicate PairFree(t: Str) {
    forall k :: 0 <= k < |t| - 1 ==> !(IsHigh(t[k]) && IsLow(t[k + 1]))
  }

  lemma {:induction false} JoinPairsShrinks(t: Str)
    ensures |JoinPairs(t)| <= |t|
    ensures JoinPairs(t) == t <==> PairFree(t)
  {
    if |t| >= 2 && IsHigh(t[0]) && IsLow(t[1]) {
      JoinPairsShrinks(t[2..]);
    } else if t != [] {
      JoinPairsShrinks(t[1..]);
      assert t == [t[0]] + t[1..];
      PairFreeTail(t);
    }
  }

  lemma PairFreeTail(t: Str)
    requires t != [] && (|t| >= 2 ==> !(IsHigh(t[0]) && IsLow(t[1])))
    ensures PairFree(t) <==> PairFree(t[1..])
  {
    if PairFree(t[1..]) {
      forall k | 0 <= k < |t| - 1 ensures !(IsHigh(t[k]) && IsLow(t[k + 1])) {
        if k > 0 { assert t[1..][k - 1] == t[k] && t[1..][k] == t[k + 1]; }
      }
    }
  }

  function RereadText(t: Str, ascii: bool): Str {
    if ascii then JoinPairs(t) else t
  }

  function Reread(v: Value, ascii: bool): Value
    decreases v, 1
  {
    match v
    case Text(t) => Text(RereadText(t, ascii))
    case Array(items) => Array(RereadItems(items, ascii))
    case Object(ms) => Object(RereadMembers(ms, ascii))
    case _ => v
  }

  function RereadItems(vs: seq<Value>, ascii: bool): seq<Value>
    decreases vs, 0
  {
    if vs == [] then [] else [Reread(vs[0], ascii)] + RereadItems(vs[1..], ascii)
  }

  function RereadMember(m: Member, ascii: bool): Member
    decreases m, 0
  {
    Member(RereadText(m.name, ascii), Reread(m.value, ascii))
  }

  function RereadMembers(ms: seq<Member>, ascii: bool): seq<Member>
    decreases ms, 0
  {
    if ms == [] then [] else [RereadMember(ms[0], ascii)] + RereadMembers(ms[1..], ascii)
  }

  // ---- Strings ----

  lemma HexDigitRoundTrip(d: nat)
    requires d < 16
    ensures HexDigit(HexText(d)) == Some(d)
  {
  }

  lemma HexSplit(n: nat)
    ensures n == 4096 * (n / 16 / 16 / 16) + 256 * (n / 16 / 16 % 16) + 16 * (n / 16 % 16) + n % 16
  {
    var a := n / 16;
    var b := a / 16;
    assert n == 16 * a + n % 16;
    assert a == 16 * b + a % 16;
    assert b == 16 * (b / 16) + b % 16;
  }

  lemma UnicodeEscapeReads(s: Str, i: nat, n: nat)
    requires n < 0x10000 && At(s, i, UnicodeEscape(n))
    ensures i + 6 <= |s| && s[i] == '\\' as int && s[i + 1] == 'u' as int && Hex4(s, i + 2) == Some(n)
  {
    var w := UnicodeEscape(n);
    AtIndex(s, i, w, 0);
    AtIndex(s, i, w, 1);
    AtIndex(s, i, w, 2);
    AtIndex(s, i, w, 3);
    AtIndex(s, i, w, 4);
    AtIndex(s, i, w, 5);
    HexDigitRoundTrip(n / 16 / 16 / 16);
    HexDigitRoundTrip(n / 16 / 16 % 16);
    HexDigitRoundTrip(n / 16 % 16);
    HexDigitRoundTrip(n % 16);
    HexSplit(n);
  }

  /** What stands at `i` is the escape of a low surrogate. */
  predicate LowEscapeAt(s: Str, i: nat) {
    At(s, i, ['\\' as int, 'u' as int]) && Hex4(s, i + 2).Some? && IsLow(Hex4(s, i + 2).value)
  }

  lemma SplitThenJoin(c: Code)
    requires c >= 0x10000
    ensures IsHigh(HighOf(c)) && IsLow(LowOf(c)) && JoinPair(HighOf(c), LowOf(c)) == c
  {
  }

  lemma ShortEscapeReads(s: Str, i: nat, c: Code, ascii: bool)
    requires At(s, i, EscapeCode(c, ascii)) && |EscapeCode(c, ascii)| == 2
    ensures s[i] == '\\' as int
    ensures Escape(s, i + 1) == Some((c, i + 2))
  {
    hide UnicodeEscape, Hex4, JoinPair;
    AtIndex(s, i, EscapeCode(c, ascii), 0);
    AtIndex(s, i, EscapeCode(c, ascii), 1);
  }

  lemma UnitReads(s: Str, i: nat, n: nat)
    requires n < 0x10000 && At(s, i, UnicodeEscape(n))
    requires IsHigh(n) ==> !LowEscapeAt(s, i + 6)
    ensures s[i] == '\\' as int
    ensures Escape(s, i + 1) == Some((n, i + 6))
  {
    UnicodeEscapeReads(s, i, n);
    hide Hex4, UnicodeEscape, JoinPair;
  }

  /** An escaped character reads back, unless it is a high surrogate about to be joined. */
  lemma EscapeReads(s: Str, i: nat, c: Code, ascii: bool)
    requires At(s, i, EscapeCode(c, ascii)) && EscapeCode(c, ascii) != [c]
    requires IsHigh(c) ==> !LowEscapeAt(s, i + 6)
    ensures s[i] == '\\' as int
    ensures Escape(s, i + 1) == Some((c, i + |EscapeCode(c, ascii)|))
  {
    hide UnicodeEscape, Escape, HighOf, LowOf, JoinPair, LowEscapeAt;
    var w := EscapeCode(c, ascii);
    if |w| == 2 {
      ShortEscapeReads(s, i, c, ascii);
    } else if c < 0x10000 {
      UnitReads(s, i, c);
    } else {
      SplitThenJoin(c);
      PairReads(s, i, HighOf(c), LowOf(c));
    }
  }

  lemma PairReads(s: Str, i: nat, hi: nat, lo: nat)
    requires IsHigh(hi) && IsLow(lo) && At(s, i, UnicodeEscape(hi) + UnicodeEscape(lo))
    ensures i + 12 <= |s| && s[i] == '\\' as int
    ensures Escape(s, i + 1) == Some((JoinPair(hi, lo), i + 12))
  {
    AtConcat(s, i, UnicodeEscape(hi), UnicodeEscape(lo));
    UnicodeEscapeReads(s, i, hi);
    UnicodeEscapeReads(s, i + 6, lo);
    assert s[i + 6..i + 8] == ['\\' as int, 'u' as int];
  }

  /** No escaped character other than a low surrogate looks like one. */
  lemma NotLowEscape(s: Str, i: nat, c: Code)
    requires At(s, i, EscapeCode(c, true)) && !IsLow(c)
    ensures !LowEscapeAt(s, i)
  {
    hide UnicodeEscape, Hex4, HighOf, LowOf, JoinPair;
    var w := EscapeCode(c, true);
    AtIndex(s, i, w, 0);
    if |w| == 6 {
      UnicodeEscapeReads(s, i, c);
    } else if |w| == 12 {
      SplitThenJoin(c);
      AtConcat(s, i, UnicodeEscape(HighOf(c)), UnicodeEscape(LowOf(c)));
      UnicodeEscapeReads(s, i, HighOf(c));
    } else {
      if |w| == 2 { AtIndex(s, i, w, 1); }
      NotUnicode(s, i);
    }
  }

  lemma NotUnicode(s: Str, i: nat)
    requires i < |s| && (s[i] != '\\' as int || i + 1 == |s| || s[i + 1] != 'u' as int)
    ensures !LowEscapeAt(s, i)
  {
    if At(s, i, ['\\' as int, 'u' as int]) { AtAll(s, i, ['\\' as int, 'u' as int]); }
  }

  lemma NoLowEscape(s: Str, i: nat, t: Str)
    requires At(s, i, EscapeTail(t, true)) && (t == [] || !IsLow(t[0]))
    ensures !LowEscapeAt(s, i)
  {
    hide EscapeCode, LowEscapeAt;
    if t == [] {
      AtIndex(s, i, EscapeTail(t, true), 0);
      NotUnicode(s, i);
    } else {
      AtConcat(s, i, EscapeCode(t[0], true), EscapeTail(t[1..], true));
      NotLowEscape(s, i, t[0]);
    }
  }

  lemma PlainCode(c: Code, ascii: bool)
    requires EscapeCode(c, ascii) == [c]
    ensures c >= 32 && c != '"' as int && c != '\\' as int
  {
  }

  /** One printed character and then a readable rest. */
  lemma CodeThenRest(s: Str, i: nat, c: Code, ascii: bool, rest: Str, end: nat)
    requires At(s, i, EscapeCode(c, ascii)) && StringTail(s, i + |EscapeCode(c, ascii)|) == Some((rest, end))
    requires ascii && IsHigh(c) ==> !LowEscapeAt(s, i + |EscapeCode(c, ascii)|)
    ensures StringTail(s, i) == Some(([c] + rest, end))
  {
    var w := EscapeCode(c, ascii);
    AtIndex(s, i, w, 0);
    if w == [c] {
      PlainCode(c, ascii);
    } else {
      if IsHigh(c) { HighIsLong(c, ascii); }
      EscapeReads(s, i, c, ascii);
      hide EscapeCode, Escape;
    }
  }

  lemma HighIsLong(c: Code, ascii: bool)
    requires EscapeCode(c, ascii) != [c] && IsHigh(c)
    ensures ascii && |EscapeCode(c, ascii)| == 6
  {
  }

  lemma PairThenRest(s: Str, i: nat, hi: nat, lo: nat, rest: Str, end: nat)
    requires IsHigh(hi) && IsLow(lo) && At(s, i, UnicodeEscape(hi) + UnicodeEscape(lo))
    requires i + 12 <= |s| && StringTail(s, i + 12) == Some((rest, end))
    ensures StringTail(s, i) == Some(([JoinPair(hi, lo)] + rest, end))
  {
    PairReads(s, i, hi, lo);
    hide UnicodeEscape, Escape, JoinPair;
  }

  /** A printed string reads back as itself, up to joined surrogate pairs. */
  lemma {:induction false} TextReads(s: Str, i: nat, t: Str, ascii: bool)
    requires At(s, i, EscapeTail(t, ascii))
    ensures StringTail(s, i) == Some((RereadText(t, ascii), i + |EscapeTail(t, ascii)|))
    decreases |t|, 1
  {
    hide StringTail, EscapeTail, JoinPairs;
    if t == [] {
      QuoteReads(s, i, ascii);
    } else if ascii && |t| >= 2 && IsHigh(t[0]) && IsLow(t[1]) {
      PairTextReads(s, i, t);
    } else {
      CodeTextReads(s, i, t, ascii);
    }
  }

  lemma QuoteReads(s: Str, i: nat, ascii: bool)
    requires At(s, i, EscapeTail([], ascii))
    ensures StringTail(s, i) == Some((RereadText([], ascii), i + |EscapeTail([], ascii)|))
  {
    AtIndex(s, i, EscapeTail([], ascii), 0);
  }

  lemma {:induction false} PairTextReads(s: Str, i: nat, t: Str)
    requires |t| >= 2 && IsHigh(t[0]) && IsLow(t[1]) && At(s, i, EscapeTail(t, true))
    ensures StringTail(s, i) == Some((JoinPairs(t), i + |EscapeTail(t, true)|))
    decreases |t|, 0
  {
    hide StringTail, EscapeTail, UnicodeEscape, JoinPair;
    PairAt(s, i, t);
    TextReads(s, i + 12, t[2..], true);
    PairThenRest(s, i, t[0], t[1], JoinPairs(t[2..]), i + |EscapeTail(t, true)|);
  }

  lemma {:induction false} CodeTextReads(s: Str, i: nat, t: Str, ascii: bool)
    requires t != [] && At(s, i, EscapeTail(t, ascii))
    requires ascii && |t| >= 2 ==> !(IsHigh(t[0]) && IsLow(t[1]))
    ensures StringTail(s, i) == Some((RereadText(t, ascii), i + |EscapeTail(t, ascii)|))
    decreases |t|, 0
  {
    hide EscapeCode, StringTail, RereadText, LowEscapeAt;
    CodeAt(s, i, t, ascii);
    TextReads(s, i + |EscapeCode(t[0], ascii)|, t[1..], ascii);
    CodeThenRest(s, i, t[0], ascii, RereadText(t[1..], ascii), i + |EscapeTail(t, ascii)|);
  }

  lemma CodeAt(s: Str, i: nat, t: Str, ascii: bool)
    requires t != [] && At(s, i, EscapeTail(t, ascii))
    requires ascii && |t| >= 2 ==> !(IsHigh(t[0]) && IsLow(t[1]))
    ensures var w := EscapeCode(t[0], ascii);
      && At(s, i, w) && At(s, i + |w|, EscapeTail(t[1..], ascii))
      && RereadText(t, ascii) == [t[0]] + RereadText(t[1..], ascii)
      && (ascii && IsHigh(t[0]) ==> !LowEscapeAt(s, i + |w|))
  {
    hide EscapeCode, LowEscapeAt, JoinPair;
    var w := EscapeCode(t[0], ascii);
    AtConcat(s, i, w, EscapeTail(t[1..], ascii));
    if ascii && IsHigh(t[0]) { NoLowEscape(s, i + |w|, t[1..]); }
  }

  lemma PairAt(s: Str, i: nat, t: Str)
    requires |t| >= 2 && IsHigh(t[0]) && IsLow(t[1]) && At(s, i, EscapeTail(t, true))
    ensures At(s, i, UnicodeEscape(t[0]) + UnicodeEscape(t[1])) && At(s, i + 12, EscapeTail(t[2..], true))
    ensures |EscapeTail(t, true)| == 12 + |EscapeTail(t[2..], true)|
  {
    EscapedPair(t);
    AtConcat(s, i, UnicodeEscape(t[0]) + UnicodeEscape(t[1]), EscapeTail(t[2..], true));
  }

  lemma EscapedPair(t: Str)
    requires |t| >= 2 && IsHigh(t[0]) && IsLow(t[1])
    ensures EscapeTail(t, true) == UnicodeEscape(t[0]) + UnicodeEscape(t[1]) + EscapeTail(t[2..], true)
  {
    SurrogateCode(t[0]);
    SurrogateCode(t[1]);
    hide EscapeCode, UnicodeEscape;
    assert t[1..][0] == t[1] && t[1..][1..] == t[2..];
    assert EscapeTail(t[1..], true) == UnicodeEscape(t[1]) + EscapeTail(t[2..], true);
  }

  lemma SurrogateCode(c: Code)
    requires IsHigh(c) || IsLow(c)
    ensures EscapeCode(c, true) == UnicodeEscape(c)
  {
    hide UnicodeEscape;
  }

  // ---- Numbers and words ----

  /** Nothing at `j` could continue a number. */
  predicate Stop(s: Str, j: nat)
    requires j <= |s|
  {
    j == |s| || s[j] == ',' as int || s[j] == ']' as int || s[j] == '}' as int
  }

  /** `w` stands at `i` and ends there. */
  predicate Alone(s: Str, i: nat, w: Str) {
    At(s, i, w) && Stop(s, i + |w|)
  }

  lemma {:induction false} DigitsShift(s: Str, i: nat, w: Str, a: nat)
    requires Alone(s, i, w) && a <= |w|
    ensures DigitsEnd(s, i + a) == i + DigitsEnd(w, a)
    decreases |w| - a
  {
    if a < |w| {
      AtIndex(s, i, w, a);
      if IsDigit(w[a]) { DigitsShift(s, i, w, a + 1); }
    }
  }

  lemma FracShift(s: Str, i: nat, w: Str, a: nat)
    requires Alone(s, i, w) && a <= |w|
    ensures FracEnd(s, i + a) == i + FracEnd(w, a)
  {
    AtAll(s, i, w);
    if a + 1 <= |w| { DigitsShift(s, i, w, a + 1); }
  }

  lemma ExpShift(s: Str, i: nat, w: Str, a: nat)
    requires Alone(s, i, w) && a <= |w|
    ensures ExpEnd(s, i + a) == i + ExpEnd(w, a)
  {
    assert i + |w| <= |s|;
    hide DigitsEnd, At;
    forall k | a <= k < |w| ensures s[i + k] == w[k] { AtIndex(s, i, w, k); }
    if a + 1 <= |w| { DigitsShift(s, i, w, a + 1); }
    if a + 2 <= |w| { DigitsShift(s, i, w, a + 2); }
  }

  lemma IntShift(s: Str, i: nat, w: Str, a: nat)
    requires Alone(s, i, w) && a < |w| && IntEnd(w, a).Some?
    ensures IntEnd(s, i + a) == Some(i + IntEnd(w, a).value)
  {
    AtIndex(s, i, w, a);
    DigitsShift(s, i, w, a);
  }

  /** A number reads the same wherever it stands alone. */
  lemma NumberShift(s: Str, i: nat, w: Str, v: Value)
    requires Alone(s, i, w) && Number(w, 0) == Some((v, |w|))
    ensures Number(s, i) == Some((v, i + |w|))
  {
    hide DigitsEnd, FracEnd, ExpEnd, IntEnd, DigitsValue;
    AtAll(s, i, w);
    var start := if w[0] == '-' as int then 1 else 0;
    IntShift(s, i, w, start);
    var a := IntEnd(w, start).value;
    FracShift(s, i, w, a);
    ExpShift(s, i, w, FracEnd(w, a));
    assert w[0..|w|] == w;
  }

  lemma {:induction false} DigitsRead(n: nat)
    ensures DigitsValue(Digits(n)) == n
    ensures n > 0 ==> Digits(n)[0] != '0' as int
  {
    if n >= 10 {
      DigitsRead(n / 10);
      assert Digits(n)[..|Digits(n)| - 1] == Digits(n / 10);
    }
  }

  lemma {:induction false} AllDigitsEnd(s: Str, i: nat)
    requires i <= |s| && forall k :: i <= k < |s| ==> IsDigit(s[k])
    ensures DigitsEnd(s, i) == |s|
    decreases |s| - i
  {
    if i < |s| { AllDigitsEnd(s, i + 1); }
  }

  /** A sign, maybe, and digits without a superfluous zero. */
  lemma PlainNumber(w: Str, start: nat)
    requires start < |w| && start == (if w[0] == '-' as int then 1 else 0)
    requires forall k :: start <= k < |w| ==> IsDigit(w[k])
    requires w[start] == '0' as int ==> |w| == start + 1
    ensures var n: int := DigitsValue(w[start..]);
      Number(w, 0) == Some((Int(if start == 1 then -n else n), |w|))
  {
    AllDigitsEnd(w, start);
    assert w[start..|w|] == w[start..];
    hide DigitsValue, DigitsEnd;
  }

  lemma DigitsStart(m: nat)
    ensures Digits(m)[0] == '0' as int ==> |Digits(m)| == 1
  {
    ZeroDigits();
    DigitsRead(m);
  }

  lemma NaturalReads(m: nat)
    ensures Number(Digits(m), 0) == Some((Int(m), |Digits(m)|))
  {
    hide Number, Digits, DigitsValue;
    var w := Digits(m);
    DigitsRead(m);
    DigitsStart(m);
    assert w[0..] == w;
    PlainNumber(w, 0);
  }

  lemma NegativeReads(m: nat)
    ensures var w := ['-' as int] + Digits(m); Number(w, 0) == Some((Int(0 - m), |w|))
  {
    hide Number, Digits, DigitsValue;
    var w := ['-' as int] + Digits(m);
    DigitsRead(m);
    DigitsStart(m);
    assert w[1..] == Digits(m);
    PlainNumber(w, 1);
  }

  lemma DecimalReads(n: int)
    ensures Number(Decimal(n), 0) == Some((Int(n), |Decimal(n)|))
  {
    hide Number, Digits;
    if n < 0 { NegativeReads(-n); } else { NaturalReads(n); }
  }

  lemma ZeroDigits()
    ensures Digits(0) == ['0' as int]
  {
  }

  // ---- Values ----

  /** A value that is neither a string nor a container. */
  lemma WordReads(s: Str, i: nat, v: Value, ascii: bool)
    requires WellFormed(v) && !v.Text? && !v.Array? && !v.Object?
    requires Alone(s, i, Dumps(v, ascii))
    ensures ParseValue(s, i) == Some((v, i + |Dumps(v, ascii)|))
  {
    hide ParseValue, Number, Decimal;
    match v
    case Int(n) => IntReads(s, i, n);
    case Float(spelling) => FloatReads(s, i, spelling);
    case Null =>
      AtIndex(s, i, Lit("null"), 0);
      ScalarDispatch(s, i);
    case Bool(b) =>
      AtIndex(s, i, if b then Lit("true") else Lit("false"), 0);
      ScalarDispatch(s, i);
  }

  lemma IntReads(s: Str, i: nat, n: int)
    requires Alone(s, i, Decimal(n))
    ensures ParseValue(s, i) == Some((Int(n), i + |Decimal(n)|))
  {
    hide ParseValue, Number, Digits;
    var w := Decimal(n);
    DecimalReads(n);
    NumberReads(s, i, w, Int(n));
  }

  lemma NumberReads(s: Str, i: nat, w: Str, v: Value)
    requires w != [] && Alone(s, i, w) && Number(w, 0) == Some((v, |w|))
    ensures ParseValue(s, i) == Some((v, i + |w|))
  {
    hide ParseValue, Number;
    NumberShift(s, i, w, v);
    NumberStarts(w);
    AtIndex(s, i, w, 0);
    if w[0] == '-' as int { AtIndex(s, i, w, 1); }
    NumberDispatch(s, i);
  }

  lemma FloatReads(s: Str, i: nat, w: Str)
    requires WellFormed(Float(w)) && Alone(s, i, w)
    ensures ParseValue(s, i) == Some((Float(w), i + |w|))
  {
    hide ParseValue, Number;
    assert w[0..|w|] == w;
    if Number(w, 0) == Some((Float(w), |w|)) {
      NumberReads(s, i, w, Float(w));
    } else {
      AtIndex(s, i, w, 0);
      ScalarDispatch(s, i);
    }
  }

  lemma NumberStarts(w: Str)
    requires w != [] && Number(w, 0).Some?
    ensures IsDigit(w[0]) || (w[0] == '-' as int && |w| > 1 && IsDigit(w[1]))
  {
    hide DigitsEnd, FracEnd, ExpEnd, DigitsValue;
  }

  lemma {:induction false} ValueReads(s: Str, i: nat, v: Value, ascii: bool)
    requires WellFormed(v) && Alone(s, i, Dumps(v, ascii))
    ensures ParseValue(s, i) == Some((Reread(v, ascii), i + |Dumps(v, ascii)|))
    decreases v, 1
  {
    hide ParseValue, Elements, Members, DumpsItems, DumpsMembers, DumpsText, Decimal, RereadItems,
      RereadMembers, RereadText;
    match v
    case Text(t) => DumpedTextReads(s, i, t, ascii);
    case Array(items) =>
      if items == [] {
        EmptyReads(s, i, v, ascii);
      } else {
        AtConcat(s, i, Lit("["), DumpsItems(items, ascii));
        ItemsStart(s, i + 1, items, ascii);
        ItemsRead(s, i + 1, items, ascii);
        ArrayReads(s, i);
      }
    case Object(ms) =>
      if ms == [] {
        EmptyReads(s, i, v, ascii);
      } else {
        AtConcat(s, i, Lit("{"), DumpsMembers(ms, ascii));
        MembersStart(s, i + 1, ms, ascii);
        MembersRead(s, i + 1, ms, ascii);
        ObjectReads(s, i);
      }
    case _ => WordReads(s, i, v, ascii);
  }

  lemma EmptyReads(s: Str, i: nat, v: Value, ascii: bool)
    requires v == Array([]) || v == Object([])
    requires At(s, i, Dumps(v, ascii))
    ensures ParseValue(s, i) == Some((v, i + 2)) && |Dumps(v, ascii)| == 2 && Reread(v, ascii) == v
  {
    AtIndex(s, i, Dumps(v, ascii), 0);
    AtIndex(s, i, Dumps(v, ascii), 1);
    hide Elements, Members;
  }

  lemma ArrayReads(s: Str, i: nat)
    requires At(s, i, Lit("[")) && i + 1 < |s| && !IsWs(s[i + 1]) && s[i + 1] != ']' as int
    requires Elements(s, i + 1).Some?
    ensures ParseValue(s, i) == Some((Array(Elements(s, i + 1).value.0), Elements(s, i + 1).value.1))
  {
    AtIndex(s, i, Lit("["), 0);
    hide Elements, Members;
  }

  lemma ObjectReads(s: Str, i: nat)
    requires At(s, i, Lit("{")) && i + 1 < |s| && s[i + 1] == '"' as int && Members(s, i + 1).Some?
    ensures ParseValue(s, i) == Some((Object(Members(s, i + 1).value.0), Members(s, i + 1).value.1))
  {
    AtIndex(s, i, Lit("{"), 0);
    hide Elements, Members;
  }

  lemma DumpedTextReads(s: Str, i: nat, t: Str, ascii: bool)
    requires At(s, i, DumpsText(t, ascii))
    ensures i < |s| && s[i] == '"' as int
    ensures StringTail(s, i + 1) == Some((RereadText(t, ascii), i + |DumpsText(t, ascii)|))
    ensures ParseValue(s, i) == Some((Text(RereadText(t, ascii)), i + |DumpsText(t, ascii)|))
  {
    hide ParseValue, StringTail, EscapeTail, RereadText;
    AtConcat(s, i, ['"' as int], EscapeTail(t, ascii));
    AtIndex(s, i, ['"' as int], 0);
    TextReads(s, i + 1, t, ascii);
    StringDispatch(s, i);
  }

  /** Printed values start with something other than whitespace or a closing bracket. */
  lemma ValueStarts(v: Value, ascii: bool)
    requires WellFormed(v)
    ensures var c := Dumps(v, ascii)[0]; !IsWs(c) && c != ']' as int
  {
    if v.Array? || v.Object? {
      assert Lit("[")[0] == '[' as int && Lit("{")[0] == '{' as int;
    }
  }

  lemma ItemsStart(s: Str, i: nat, vs: seq<Value>, ascii: bool)
    requires vs != [] && WellFormedItems(vs) && At(s, i, DumpsItems(vs, ascii))
    ensures i < |s| && !IsWs(s[i]) && s[i] != ']' as int
  {
    ValueStarts(vs[0], ascii);
    AtIndex(s, i, DumpsItems(vs, ascii), 0);
  }

  lemma MembersStart(s: Str, i: nat, ms: seq<Member>, ascii: bool)
    requires ms != [] && WellFormedMembers(ms) && At(s, i, DumpsMembers(ms, ascii))
    ensures i < |s| && s[i] == '"' as int
  {
    AtIndex(s, i, DumpsMembers(ms, ascii), 0);
  }

  /** `", "` and what follows: the separator is skipped. */
  lemma CommaReads(s: Str, i: nat, w: Str)
    requires At(s, i, Lit(", ") + w) && w != [] && !IsWs(w[0])
    ensures s[i] == ',' as int && SkipWs(s, i + 1) == i + 2 && At(s, i + 2, w)
  {
    AtConcat(s, i, Lit(", "), w);
    AtIndex(s, i, Lit(", "), 0);
    AtIndex(s, i, Lit(", "), 1);
    AtIndex(s, i + 2, w, 0);
    assert SkipWs(s, i + 2) == i + 2;
  }

  /** Where the pieces of printed items stand: after the first, the closing bracket
      or a comma and the others. */
  lemma LastItemCut(s: Str, i: nat, vs: seq<Value>, ascii: bool)
    requires |vs| == 1 && WellFormedItems(vs) && At(s, i, DumpsItems(vs, ascii))
    ensures var w := Dumps(vs[0], ascii); var e := i + |w|;
      && Alone(s, i, w) && e < |s| && s[e] == ']' as int && |DumpsItems(vs, ascii)| == |w| + 1
      && RereadItems(vs, ascii) == [Reread(vs[0], ascii)]
  {
    hide Dumps, Reread, WellFormed;
    var w := Dumps(vs[0], ascii);
    AtConcat(s, i, w, Lit("]"));
    AtIndex(s, i + |w|, Lit("]"), 0);
  }

  lemma ItemsUnfold(vs: seq<Value>, ascii: bool)
    requires |vs| > 1 && WellFormedItems(vs)
    ensures DumpsItems(vs, ascii) == Dumps(vs[0], ascii) + (Lit(", ") + DumpsItems(vs[1..], ascii))
    ensures RereadItems(vs, ascii) == [Reread(vs[0], ascii)] + RereadItems(vs[1..], ascii)
  {
    hide Dumps, Reread, WellFormed;
  }

  lemma ItemCut(s: Str, i: nat, vs: seq<Value>, ascii: bool)
    requires |vs| > 1 && WellFormedItems(vs) && At(s, i, DumpsItems(vs, ascii))
    ensures var w := Dumps(vs[0], ascii); var e := i + |w|;
      && Alone(s, i, w) && e < |s| && s[e] == ',' as int && SkipWs(s, e + 1) == e + 2
      && At(s, e + 2, DumpsItems(vs[1..], ascii))
      && |DumpsItems(vs, ascii)| == |w| + 2 + |DumpsItems(vs[1..], ascii)|
      && RereadItems(vs, ascii) == [Reread(vs[0], ascii)] + RereadItems(vs[1..], ascii)
  {
    hide Dumps, Reread, WellFormed, SkipWs, IsWs, DumpsItems, RereadItems, At;
    var w, rest := Dumps(vs[0], ascii), DumpsItems(vs[1..], ascii);
    ItemsUnfold(vs, ascii);
    AtConcat(s, i, w, Lit(", ") + rest);
    ItemsHead(vs[1..], ascii);
    CommaReads(s, i + |w|, rest);
    CommaIsWithin(s, i + |w|, rest);
  }

  lemma CommaIsWithin(s: Str, i: nat, w: Str)
    requires At(s, i, Lit(", ") + w)
    ensures i < |s|
  {
  }

  lemma {:induction false} ItemsRead(s: Str, i: nat, vs: seq<Value>, ascii: bool)
    requires vs != [] && WellFormedItems(vs) && At(s, i, DumpsItems(vs, ascii))
    ensures Elements(s, i) == Some((RereadItems(vs, ascii), i + |DumpsItems(vs, ascii)|))
    decreases vs, 0
  {
    hide ParseValue, Elements, Dumps, Reread, DumpsItems, RereadItems, Stop, At;
    if |vs| == 1 { LastItemCut(s, i, vs, ascii); } else { ItemCut(s, i, vs, ascii); }
    var e := i + |Dumps(vs[0], ascii)|;
    ValueReads(s, i, vs[0], ascii);
    if |vs| > 1 { ItemsRead(s, e + 2, vs[1..], ascii); }
    ElementsFrom(s, i, Reread(vs[0], ascii), e);
  }

  lemma ItemsHead(vs: seq<Value>, ascii: bool)
    requires vs != [] && WellFormedItems(vs)
    ensures !IsWs(DumpsItems(vs, ascii)[0])
  {
    ValueStarts(vs[0], ascii);
  }

  lemma {:induction false} MemberReads(s: Str, i: nat, m: Member, ascii: bool)
    requires WellFormedMember(m) && Alone(s, i, DumpsMember(m, ascii))
    ensures ParseMember(s, i) == Some((RereadMember(m, ascii), i + |DumpsMember(m, ascii)|))
    decreases m, 0
  {
    hide ParseValue, StringTail, Dumps, Reread, DumpsText, RereadText;
    var name, value := DumpsText(m.name, ascii), Dumps(m.value, ascii);
    AtConcat(s, i, name + Lit(": "), value);
    AtConcat(s, i, name, Lit(": "));
    DumpedTextReads(s, i, m.name, ascii);
    var e := i + |name|;
    AtIndex(s, e, Lit(": "), 0);
    AtIndex(s, e, Lit(": "), 1);
    ValueStarts(m.value, ascii);
    AtIndex(s, e + 2, value, 0);
    assert SkipWs(s, e + 2) == e + 2;
    ValueReads(s, e + 2, m.value, ascii);
  }

  lemma LastMemberCut(s: Str, i: nat, ms: seq<Member>, ascii: bool)
    requires |ms| == 1 && WellFormedMembers(ms) && At(s, i, DumpsMembers(ms, ascii))
    ensures var w := DumpsMember(ms[0], ascii); var e := i + |w|;
      && Alone(s, i, w) && e < |s| && s[e] == '}' as int && |DumpsMembers(ms, ascii)| == |w| + 1
      && RereadMembers(ms, ascii) == [RereadMember(ms[0], ascii)]
  {
    hide DumpsMember, RereadMember, WellFormedMember;
    var w := DumpsMember(ms[0], ascii);
    AtConcat(s, i, w, Lit("}"));
    AtIndex(s, i + |w|, Lit("}"), 0);
  }

  lemma MemberCut(s: Str, i: nat, ms: seq<Member>, ascii: bool)
    requires |ms| > 1 && WellFormedMembers(ms) && At(s, i, DumpsMembers(ms, ascii))
    ensures var w := DumpsMember(ms[0], ascii); var e := i + |w|;
      && Alone(s, i, w) && e < |s| && s[e] == ',' as int && SkipWs(s, e + 1) == e + 2
      && At(s, e + 2, DumpsMembers(ms[1..], ascii))
      && |DumpsMembers(ms, ascii)| == |w| + 2 + |DumpsMembers(ms[1..], ascii)|
      && RereadMembers(ms, ascii) == [RereadMember(ms[0], ascii)] + RereadMembers(ms[1..], ascii)
  {
    hide DumpsMember, RereadMember, WellFormedMember, At, SkipWs;
    var w, rest := DumpsMember(ms[0], ascii), DumpsMembers(ms[1..], ascii);
    AtConcat(s, i, w, Lit(", ") + rest);
    CommaReads(s, i + |w|, rest);
  }

  lemma {:induction false} MembersRead(s: Str, i: nat, ms: seq<Member>, ascii: bool)
    requires ms != [] && WellFormedMembers(ms) && At(s, i, DumpsMembers(ms, ascii))
    ensures Members(s, i) == Some((RereadMembers(ms, ascii), i + |DumpsMembers(ms, ascii)|))
    decreases ms, 0
  {
    hide ParseMember, Members, DumpsMember, RereadMember, DumpsMembers, RereadMembers, Stop, At;
    if |ms| == 1 { LastMemberCut(s, i, ms, ascii); } else { MemberCut(s, i, ms, ascii); }
    var e := i + |DumpsMember(ms[0], ascii)|;
    MemberReads(s, i, ms[0], ascii);
    if |ms| > 1 { MembersRead(s, e + 2, ms[1..], ascii); }
    MembersFrom(s, i, RereadMember(ms[0], ascii), e);
  }

  /** Nothing is joined with `ensure_ascii` off. */
  lemma {:induction false} RereadPlain(v: Value)
    ensures Reread(v, false) == v
    decreases v, 1
  {
    match v
    case Array(items) => RereadItemsPlain(items);
    case Object(ms) => RereadMembersPlain(ms);
    case _ =>
  }

  lemma {:induction false} RereadItemsPlain(vs: seq<Value>)
    ensures RereadItems(vs, false) == vs
    decreases vs, 0
  {
    if vs != [] {
      RereadPlain(vs[0]);
      RereadItemsPlain(vs[1..]);
    }
  }

  lemma {:induction false} RereadMembersPlain(ms: seq<Member>)
    ensures RereadMembers(ms, false) == ms
    decreases ms, 0
  {
    if ms != [] {
      assert ms[0].value < ms[0];
      RereadPlain(ms[0].value);
      RereadMembersPlain(ms[1..]);
    }
  }

  /** Printing and decoding again gives the value back, with `ensure_ascii` off
      exactly, and with it on up to joined surrogate pairs. */
  lemma DumpsThenLoads(v: Value, ascii: bool)
    requires WellFormed(v)
    ensures Loads(Dumps(v, ascii)) == Some(Reread(v, ascii))
    ensures !ascii ==> Loads(Dumps(v, ascii)) == Some(v)
  {
    RereadPlain(v);
    var s := Dumps(v, ascii);
    assert s[0..|s|] == s;
    ValueStarts(v, ascii);
    ValueReads(s, 0, v, ascii);
  }

  // ---- Lists of strings ----

  function Texts(values: seq<Str>): seq<Value> {
    if values == [] then [] else [Text(values[0])] + Texts(values[1..])
  }

  lemma TextsWellFormed(values: seq<Str>)
    ensures WellFormedItems(Texts(values)) && |Texts(values)| == |values|
  {
    if values != [] { TextsWellFormed(values[1..]); }
  }

  /** The strings of a list of JSON values, when they are all strings. */
  function Strings(vs: seq<Value>): Option<seq<Str>> {
    if vs == [] then Some([])
    else if !vs[0].Text? then None
    else match Strings(vs[1..]) case None => None case Some(rest) => Some([vs[0].text] + rest)
  }

  lemma {:induction false} RereadTexts(values: seq<Str>)
    ensures RereadItems(Texts(values), false) == Texts(values)
    ensures Strings(Texts(values)) == Some(values)
  {
    if values != [] {
      RereadTexts(values[1..]);
      assert values == [values[0]] + values[1..];
    }
  }

  /** The text decodes to a list of exactly these strings. */
  ghost predicate Lists(text: Str, picks: seq<Str>) {
    match Loads(text)
    case Some(Array(items)) => |items| == |picks| && forall k :: 0 <= k < |items| ==> items[k] == Text(picks[k])
    case _ => false
  }

  lemma {:induction false} StringsIff(vs: seq<Value>, picks: seq<Str>)
    ensures Strings(vs) == Some(picks) <==>
      |vs| == |picks| && forall k :: 0 <= k < |vs| ==> vs[k] == Text(picks[k])
  {
    if vs != [] && picks != [] {
      StringsIff(vs[1..], picks[1..]);
      assert picks == [picks[0]] + picks[1..];
      var n := |vs|;
      assert n == |picks| ==> forall k :: 0 < k < n ==> vs[1..][k - 1] == vs[k] && picks[1..][k - 1] == picks[k];
      assert n == |picks| ==> forall k :: 0 <= k < n - 1 ==> vs[1..][k] == vs[k + 1] && picks[1..][k] == picks[k + 1];
    }
  }

  // ---- The separators and escapes, spelt out ----

  lemma ListForm(a: Value, b: Value, ascii: bool)
    requires WellFormed(a) && WellFormed(b)
    ensures WellFormed(Array([a, b]))
    ensures Dumps(Array([a, b]), ascii) == Lit("[") + Dumps(a, ascii) + Lit(", ") + Dumps(b, ascii) + Lit("]")
  {
    hide Dumps, WellFormed;
    assert [a, b][1..] == [b] && [b][1..] == [];
    ArrayOf([a, b], ascii);
  }

  lemma ArrayOf(items: seq<Value>, ascii: bool)
    requires items != [] && WellFormedItems(items)
    ensures WellFormed(Array(items)) && Dumps(Array(items), ascii) == Lit("[") + DumpsItems(items, ascii)
  {
  }

  lemma ObjectForm(a: Member, b: Member, ascii: bool)
    requires WellFormed(a.value) && WellFormed(b.value)
    ensures WellFormed(Object([a, b]))
    ensures Dumps(Object([a, b]), ascii)
         == Lit("{") + (DumpsText(a.name, ascii) + Lit(": ") + Dumps(a.value, ascii)) + Lit(", ")
          + (DumpsText(b.name, ascii) + Lit(": ") + Dumps(b.value, ascii)) + Lit("}")
  {
    hide Dumps, WellFormed, DumpsText;
    assert [a, b][1..] == [b] && [b][1..] == [];
    assert WellFormedMembers([b]);
    ObjectOf([a, b], ascii);
    var x, y := DumpsMember(a, ascii), DumpsMember(b, ascii);
    assert DumpsMembers([b], ascii) == y + Lit("}");
    assert Lit("{") + (x + (Lit(", ") + (y + Lit("}")))) == Lit("{") + x + Lit(", ") + y + Lit("}");
  }

  lemma ObjectOf(members: seq<Member>, ascii: bool)
    requires members != [] && WellFormedMembers(members)
    ensures WellFormed(Object(members)) && Dumps(Object(members), ascii) == Lit("{") + DumpsMembers(members, ascii)
  {
  }

  lemma EscapeForms()
    ensures EscapeCode(10, true) == EscapeCode(10, false) == [92, 110]
    ensures EscapeCode(34, true) == EscapeCode(34, false) == [92, 34]
    ensures EscapeCode(0xE9, true) == [92, 117, 48, 48, 101, 57] && EscapeCode(0xE9, false) == [0xE9]
  {
  }

  /** An e with an acute accent, a line feed and a quote. */
  lemma TextForm(t: Str)
    requires t == [0xE9, 10, 34]
    ensures DumpsText(t, true) == [34, 92, 117, 48, 48, 101, 57, 92, 110, 92, 34, 34]
    ensures DumpsText(t, false) == [34, 0xE9, 92, 110, 92, 34, 34]
  {
    EscapeForms();
    hide EscapeCode;
    assert t[1..] == [10, 34] && [10, 34][1..] == [34] && [34][1..] == [];
    assert EscapeTail([34], true) == [92, 34, 34] && EscapeTail([34], false) == [92, 34, 34];
    assert EscapeTail([10, 34], true) == [92, 110, 92, 34, 34] && EscapeTail([10, 34], false) == [92, 110, 92, 34, 34];
    assert EscapeTail(t, true) == [92, 117, 48, 48, 101, 57] + [92, 110, 92, 34, 34];
    assert EscapeTail(t, false) == [0xE9] + [92, 110, 92, 34, 34];
  }
}
