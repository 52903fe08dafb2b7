/** What `json.loads` can answer: values that print and read back, except for
    strings in which two surrogates stand side by side without being joined. */
module JsonDecoded {
  import opened Text
  import opened Wrappers
  import opened Json
  import opened JsonPrinter

  // ---- Which values survive printing with `ensure_ascii` ----

  predicate PairFreeValue(v: Value)
    decreases v, 1
  {
    match v
    case Text(t) => PairFree(t)
    case Array(items) => PairFreeItems(items)
    case Object(ms) => PairFreeMembers(ms)
    case _ => true
  }

  predicate PairFreeItems(vs: seq<Value>)
    decreases vs, 0
  {
    vs == [] || (PairFreeValue(vs[0]) && PairFreeItems(vs[1..]))
  }

  predicate PairFreeMember(m: Member)
    decreases m, 0
  {
    PairFree(m.name) && PairFreeValue(m.value)
  }

  predicate PairFreeMembers(ms: seq<Member>)
    decreases ms, 0
  {
    ms == [] || (PairFreeMember(ms[0]) && PairFreeMembers(ms[1..]))
  }

  lemma {:induction false} RereadIff(v: Value)
    ensures Reread(v, true) == v <==> PairFreeValue(v)
    decreases v, 1
  {
    hide JoinPairs, PairFree;
    match v
    case Text(t) => JoinPairsShrinks(t);
    case Array(items) => RereadItemsIff(items);
    case Object(ms) => RereadMembersIff(ms);
    case _ =>
  }

  lemma {:induction false} RereadItemsIff(vs: seq<Value>)
    ensures RereadItems(vs, true) == vs <==> PairFreeItems(vs)
    decreases vs, 0
  {
    hide Reread, PairFreeValue;
    if vs != [] {
      RereadIff(vs[0]);
      RereadItemsIff(vs[1..]);
      SameCons(vs, Reread(vs[0], true), RereadItems(vs[1..], true));
    }
  }

  lemma {:induction false} RereadMembersIff(ms: seq<Member>)
    ensures RereadMembers(ms, true) == ms <==> PairFreeMembers(ms)
    decreases ms, 0
  {
    hide Reread, PairFreeValue, JoinPairs, PairFree;
    if ms != [] {
      JoinPairsShrinks(ms[0].name);
      RereadIff(ms[0].value);
      RereadMembersIff(ms[1..]);
      SameCons(ms, RereadMember(ms[0], true), RereadMembers(ms[1..], true));
    }
  }

  lemma SameCons<T>(s: seq<T>, head: T, tail: seq<T>)
    requires s != []
    ensures [head] + tail == s <==> head == s[0] && tail == s[1..]
  {
    assert s == [s[0]] + s[1..];
    assert ([head] + tail)[1..] == tail;
  }

  // ---- Strings ----

  predicate IsSurrogate(c: int) { IsHigh(c) || IsLow(c) }

  /** The text spells surrogates, if at all, with escapes. */
  predicate NoSurrogates(s: Str) {
    forall k :: 0 <= k < |s| ==> !IsSurrogate(s[k])
  }

  /** An escape that answers a lone high surrogate has no low one escaped after it. */
  lemma HighEscapeStandsAlone(s: Str, i: nat)
    requires i <= |s| && Escape(s, i).Some? && IsHigh(Escape(s, i).value.0) && NoSurrogates(s)
    ensures !LowEscapeAt(s, Escape(s, i).value.1)
  {
    hide Hex4;
  }

  lemma LowEscapeIsLow(s: Str, i: nat)
    requires i < |s| && NoSurrogates(s) && s[i] == '\\' as int
    requires Escape(s, i + 1).Some? && IsLow(Escape(s, i + 1).value.0)
    ensures LowEscapeAt(s, i)
  {
    hide Hex4;
    if s[i + 1] == 'u' as int { assert s[i..i + 2] == ['\\' as int, 'u' as int]; }
  }

  lemma FirstIsNotLow(s: Str, i: nat)
    requires i <= |s| && StringTail(s, i).Some? && NoSurrogates(s) && !LowEscapeAt(s, i)
    ensures var t := StringTail(s, i).value.0; t == [] || !IsLow(t[0])
  {
    hide Escape, LowEscapeAt;
    if i < |s| && s[i] == '\\' as int && IsLow(Escape(s, i + 1).value.0) { LowEscapeIsLow(s, i); }
  }

  lemma PairFreeCons(c: Code, t: Str)
    requires PairFree(t) && (IsHigh(c) ==> t == [] || !IsLow(t[0]))
    ensures PairFree([c] + t)
  {
    var u := [c] + t;
    forall k | 0 <= k < |u| - 1 ensures !(IsHigh(u[k]) && IsLow(u[k + 1])) {
      if k > 0 { assert u[k] == t[k - 1] && u[k + 1] == t[k]; }
    }
  }

  /** Reading joins every escaped pair, so only a raw surrogate leaves one apart. */
  lemma {:induction false} TailPairFree(s: Str, i: nat)
    requires i <= |s| && StringTail(s, i).Some? && NoSurrogates(s)
    ensures PairFree(StringTail(s, i).value.0)
    decreases |s| - i
  {
    hide Escape, PairFree, LowEscapeAt;
    if s[i] == '"' as int {
      EmptyPairFree();
    } else if s[i] == '\\' as int {
      var (c, j) := Escape(s, i + 1).value;
      TailPairFree(s, j);
      if IsHigh(c) {
        HighEscapeStandsAlone(s, i + 1);
        FirstIsNotLow(s, j);
      }
      PairFreeCons(c, StringTail(s, j).value.0);
    } else {
      TailPairFree(s, i + 1);
      PairFreeCons(s[i], StringTail(s, i + 1).value.0);
    }
  }

  lemma EmptyPairFree()
    ensures PairFree([])
  {
  }

  // ---- Floats ----

  /** `w` stands at `i`, whatever follows it. */
  lemma {:induction false} DigitsWithin(s: Str, i: nat, w: Str, a: nat)
    requires At(s, i, w) && a <= |w| && DigitsEnd(s, i + a) <= i + |w|
    ensures DigitsEnd(s, i + a) == i + DigitsEnd(w, a)
    decreases |w| - a
  {
    if a < |w| {
      AtIndex(s, i, w, a);
      if IsDigit(w[a]) { DigitsWithin(s, i, w, a + 1); }
    }
  }

  lemma IntWithin(s: Str, i: nat, w: Str, a: nat)
    requires At(s, i, w) && a < |w| && IntEnd(s, i + a).Some? && IntEnd(s, i + a).value <= i + |w|
    ensures IntEnd(w, a) == Some(IntEnd(s, i + a).value - i)
  {
    AtIndex(s, i, w, a);
    if s[i + a] != '0' as int { DigitsWithin(s, i, w, a); }
  }

  lemma FracWithin(s: Str, i: nat, w: Str, a: nat)
    requires At(s, i, w) && a <= |w| && FracEnd(s, i + a) <= i + |w|
    ensures FracEnd(s, i + a) == i + FracEnd(w, a)
  {
    AtAll(s, i, w);
    if FracEnd(s, i + a) != i + a { DigitsWithin(s, i, w, a + 1); }
  }

  lemma ExpWithin(s: Str, i: nat, w: Str, a: nat)
    requires At(s, i, w) && a <= |w| && ExpEnd(s, i + a) <= i + |w|
    ensures ExpEnd(s, i + a) == i + ExpEnd(w, a)
  {
    assert i + |w| <= |s|;
    hide DigitsEnd, At;
    forall k | a <= k < |w| ensures s[i + k] == w[k] { AtIndex(s, i, w, k); }
    if ExpEnd(s, i + a) != i + a {
      var k := if s[i + a + 1] == '+' as int || s[i + a + 1] == '-' as int then a + 2 else a + 1;
      DigitsWithin(s, i, w, k);
    }
  }

  /** The spelling of a float reads as that float on its own. */
  lemma FloatIsItsSpelling(s: Str, i: nat)
    requires i <= |s| && Number(s, i).Some? && Number(s, i).value.0.Float?
    ensures var w := Number(s, i).value.0.spelling;
      w != [] && Number(w, 0) == Some((Float(w), |w|))
  {
    hide DigitsEnd, FracEnd, ExpEnd, IntEnd, DigitsValue;
    var start := if s[i] == '-' as int then i + 1 else i;
    var a := IntEnd(s, start).value;
    var b := ExpEnd(s, FracEnd(s, a));
    var w := s[i..b];
    IntWithin(s, i, w, start - i);
    FracWithin(s, i, w, a - i);
    ExpWithin(s, i, w, FracEnd(s, a) - i);
    assert w[0..|w|] == w;
  }

  lemma NumberIsWellFormed(s: Str, i: nat)
    requires i <= |s| && Number(s, i).Some?
    ensures WellFormed(Number(s, i).value.0) && PairFreeValue(Number(s, i).value.0)
  {
    if Number(s, i).value.0.Float? {
      FloatIsItsSpelling(s, i);
      var w := Number(s, i).value.0.spelling;
      hide Number;
      NumberStarts(w);
      NotMinusInfinity(w, 0);
    }
  }

  lemma WordsAreFloats()
    ensures WellFormed(Float(Lit("NaN"))) && WellFormed(Float(Lit("Infinity"))) && WellFormed(Float(Lit("-Infinity")))
  {
    hide Number;
    assert At(Lit("NaN"), 0, Lit("NaN")) && At(Lit("Infinity"), 0, Lit("Infinity"));
    assert At(Lit("-Infinity"), 0, Lit("-Infinity"));
  }

  lemma ScalarIsWellFormed(s: Str, i: nat)
    requires i < |s| && Scalar(s, i).Some?
    ensures WellFormed(Scalar(s, i).value.0) && PairFreeValue(Scalar(s, i).value.0)
  {
    hide Number, At;
    WordsAreFloats();
    hide Lit;
    if Scalar(s, i) == Number(s, i) { NumberIsWellFormed(s, i); }
  }

  // ---- Values ----

  /** A value that was decoded from `s`. */
  predicate Decoded(s: Str, v: Value) {
    WellFormed(v) && (NoSurrogates(s) ==> PairFreeValue(v))
  }

  lemma {:induction false} ValueDecoded(s: Str, i: nat)
    requires i <= |s| && ParseValue(s, i).Some?
    ensures Decoded(s, ParseValue(s, i).value.0)
    decreases |s| - i, 0
  {
    hide StringTail, Scalar, Elements, Members, SkipWs, PairFree, NoSurrogates;
    if s[i] == '"' as int {
      if NoSurrogates(s) { TailPairFree(s, i + 1); }
    } else if s[i] == '[' as int {
      var k := SkipWs(s, i + 1);
      if !(k < |s| && s[k] == ']' as int) { ElementsDecoded(s, k); }
    } else if s[i] == '{' as int {
      var k := SkipWs(s, i + 1);
      if !(k < |s| && s[k] == '}' as int) { MembersDecoded(s, k); }
    } else {
      ScalarIsWellFormed(s, i);
    }
  }

  lemma {:induction false} ElementsDecoded(s: Str, i: nat)
    requires i <= |s| && Elements(s, i).Some?
    ensures WellFormedItems(Elements(s, i).value.0)
    ensures NoSurrogates(s) ==> PairFreeItems(Elements(s, i).value.0)
    decreases |s| - i, 1
  {
    hide ParseValue, Elements, SkipWs, WellFormed, PairFreeValue, NoSurrogates;
    ElementsShape(s, i);
    ValueDecoded(s, i);
    var k := SkipWs(s, ParseValue(s, i).value.1);
    if s[k] == ',' as int { ElementsDecoded(s, SkipWs(s, k + 1)); }
  }

  lemma {:induction false} MembersDecoded(s: Str, i: nat)
    requires i <= |s| && Members(s, i).Some?
    ensures WellFormedMembers(Members(s, i).value.0)
    ensures NoSurrogates(s) ==> PairFreeMembers(Members(s, i).value.0)
    decreases |s| - i, 2
  {
    hide ParseMember, Members, SkipWs, WellFormed, PairFreeValue, NoSurrogates, PairFree;
    MembersShape(s, i);
    MemberDecoded(s, i);
    var k := SkipWs(s, ParseMember(s, i).value.1);
    if s[k] == ',' as int { MembersDecoded(s, SkipWs(s, k + 1)); }
  }

  lemma {:induction false} MemberDecoded(s: Str, i: nat)
    requires i <= |s| && ParseMember(s, i).Some?
    ensures WellFormedMember(ParseMember(s, i).value.0)
    ensures NoSurrogates(s) ==> PairFreeMember(ParseMember(s, i).value.0)
    decreases |s| - i, 1
  {
    hide ParseValue, StringTail, SkipWs, WellFormed, PairFreeValue, NoSurrogates, PairFree;
    if NoSurrogates(s) { TailPairFree(s, i + 1); }
    ValueDecoded(s, Name(s, i).value.1);
  }

  /** Decoding again what was printed from a decoded value gives it back exactly when
      none of its strings holds an unjoined pair; a text without raw surrogates never
      decodes to one that does. */
  lemma LoadsThenDumps(s: Str, v: Value)
    requires Loads(s) == Some(v)
    ensures WellFormed(v)
    ensures Loads(Dumps(v, true)) == Some(v) <==> PairFreeValue(v)
    ensures NoSurrogates(s) ==> PairFreeValue(v)
  {
    ValueDecoded(s, SkipWs(s, 0));
    hide ParseValue, Loads, WellFormed, PairFreeValue, NoSurrogates, Reread, Dumps;
    DumpsThenLoads(v, true);
    RereadIff(v);
  }

  /** A string holding an escaped high surrogate and then the raw code point 0xDC80, as
      an undecodable byte 0x80 appears in a Python environment. */
  const BROKEN: Str := [
    '"' as int, '\\' as int, 'u' as int, 'd' as int, '8' as int, '3' as int, 'd' as int, 0xDC80, '"' as int]

  lemma BrokenEscape()
    ensures Escape(BROKEN, 2) == Some((0xD83D, 7))
  {
    assert Hex4(BROKEN, 3) == Some(0xD83D);
    assert BROKEN[7] == 0xDC80;
  }

  lemma BrokenTail()
    ensures StringTail(BROKEN, 7) == Some(([0xDC80], 9))
  {
    assert BROKEN[7] == 0xDC80 && BROKEN[8] == '"' as int;
    assert StringTail(BROKEN, 8) == Some(([], 9));
    assert [0xDC80] + [] == [0xDC80];
  }

  lemma BrokenReads()
    ensures Loads(BROKEN) == Some(Text([0xD83D, 0xDC80]))
  {
    hide StringTail, ParseValue, Escape;
    var s, t := BROKEN, [0xD83D, 0xDC80];
    BrokenText();
    StringDispatch(s, 0);
    assert SkipWs(s, 0) == 0 && SkipWs(s, 9) == 9;
  }

  lemma BrokenText()
    ensures StringTail(BROKEN, 1) == Some(([0xD83D, 0xDC80], 9))
  {
    hide Escape;
    BrokenEscape();
    BrokenTail();
    assert BROKEN[1] == '\\' as int;
    assert [0xD83D] + [0xDC80] == [0xD83D, 0xDC80];
  }

  /** Decoded, printed and decoded again, its two surrogates become one character. */
  lemma RawSurrogateIsJoined(t: Str)
    requires t == [0xD83D, 0xDC80]
    ensures Loads(BROKEN) == Some(Text(t))
    ensures Loads(Dumps(Text(t), true)) == Some(Text([JoinPair(t[0], t[1])]))
  {
    hide Loads, Dumps;
    BrokenReads();
    DumpsThenLoads(Text(t), true);
    assert IsHigh(t[0]) && IsLow(t[1]);
    assert JoinPairs(t) == [JoinPair(t[0], t[1])] + JoinPairs(t[2..]);
    assert t[2..] == [];
    assert JoinPairs(t[2..]) == [];
    assert JoinPairs(t) == [JoinPair(t[0], t[1])];
    assert Reread(Text(t), true) == Text(JoinPairs(t));
  }
}
