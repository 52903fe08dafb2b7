/** Parsing is stable under cutting the text after the parsed value. */
module JsonPrefix {
  import opened Text
  import opened Wrappers
  import opened Json

  lemma {:induction false} WsPrefix(s: Str, t: Str, i: nat)
    requires t <= s && i <= |t| && SkipWs(s, i) <= |t|
    ensures SkipWs(t, i) == SkipWs(s, i)
    decreases |t| - i
  {
    if i < |t| && IsWs(t[i]) { WsPrefix(s, t, i + 1); }
  }

  lemma {:induction false} DigitsPrefix(s: Str, t: Str, i: nat)
    requires t <= s && i <= |t| && DigitsEnd(s, i) <= |t|
    ensures DigitsEnd(t, i) == DigitsEnd(s, i)
    decreases |t| - i
  {
    if i < |t| && IsDigit(t[i]) { DigitsPrefix(s, t, i + 1); }
  }

  lemma FracPrefix(s: Str, t: Str, i: nat)
    requires t <= s && i <= |t| && FracEnd(s, i) <= |t|
    ensures FracEnd(t, i) == FracEnd(s, i)
  {
    if FracEnd(s, i) > i { DigitsPrefix(s, t, i + 1); }
  }

  lemma ExpPrefix(s: Str, t: Str, i: nat)
    requires t <= s && i <= |t| && ExpEnd(s, i) <= |t|
    ensures ExpEnd(t, i) == ExpEnd(s, i)
  {
    if ExpEnd(s, i) > i {
      DigitsPrefix(s, t, if s[i + 1] == '+' as int || s[i + 1] == '-' as int then i + 2 else i + 1);
    }
  }

  lemma IntPrefix(s: Str, t: Str, i: nat)
    requires t <= s && i <= |t| && IntEnd(s, i).Some? && IntEnd(s, i).value <= |t|
    ensures IntEnd(t, i) == IntEnd(s, i)
  {
    if s[i] != '0' as int { DigitsPrefix(s, t, i); }
  }

  lemma NumberPrefix(s: Str, t: Str, i: nat)
    requires t <= s && i <= |t| && Number(s, i).Some? && Number(s, i).value.1 <= |t|
    ensures Number(t, i) == Number(s, i)
  {
    hide DigitsEnd, DigitsValue, FracEnd, ExpEnd, IntEnd;
    var start := if s[i] == '-' as int then i + 1 else i;
    var a := IntEnd(s, start).value;
    var c := FracEnd(s, a);
    var b := ExpEnd(s, c);
    IntPrefix(s, t, start);
    FracPrefix(s, t, a);
    ExpPrefix(s, t, c);
    assert s[i..b] == t[i..b] && s[start..a] == t[start..a];
  }

  lemma WordPrefix(s: Str, t: Str, i: nat, w: Str)
    requires t <= s && i <= |t|
    ensures At(t, i, w) ==> At(s, i, w)
    ensures At(s, i, w) && i + |w| <= |t| ==> At(t, i, w)
  {
    if i + |w| <= |t| { assert s[i..i + |w|] == t[i..i + |w|]; }
  }

  lemma ScalarPrefix(s: Str, t: Str, i: nat)
    requires t <= s && i < |t| && Scalar(s, i).Some? && Scalar(s, i).value.1 <= |t|
    ensures Scalar(t, i) == Scalar(s, i)
  {
    hide Number;
    WordPrefix(s, t, i, Lit("null"));
    WordPrefix(s, t, i, Lit("true"));
    WordPrefix(s, t, i, Lit("false"));
    WordPrefix(s, t, i, Lit("NaN"));
    WordPrefix(s, t, i, Lit("Infinity"));
    WordPrefix(s, t, i, Lit("-Infinity"));
    if Number(s, i).Some? && Number(s, i).value.1 <= |t| { NumberPrefix(s, t, i); }
  }

  lemma HexPrefix(s: Str, t: Str, i: nat)
    requires t <= s
    ensures Hex4(t, i).Some? ==> Hex4(s, i) == Hex4(t, i)
    ensures Hex4(s, i).Some? && i + 4 <= |t| ==> Hex4(t, i) == Hex4(s, i)
  {
  }

  lemma EscapePrefix(s: Str, t: Str, i: nat)
    requires t <= s && i <= |t| && Escape(s, i).Some? && Escape(s, i).value.1 <= |t|
    ensures Escape(t, i) == Escape(s, i)
  {
    if s[i] == 'u' as int {
      hide Hex4;
      HexPrefix(s, t, i + 1);
      HexPrefix(s, t, i + 7);
      if i + 5 <= |t| { WordPrefix(s, t, i + 5, ['\\' as int, 'u' as int]); }
    }
  }

  lemma {:induction false} StringPrefix(s: Str, t: Str, i: nat)
    requires t <= s && i <= |t| && StringTail(s, i).Some? && StringTail(s, i).value.1 <= |t|
    ensures StringTail(t, i) == StringTail(s, i)
    decreases |s| - i
  {
    if s[i] == '"' as int {
    } else if s[i] == '\\' as int {
      hide Escape;
      EscapePrefix(s, t, i + 1);
      StringPrefix(s, t, Escape(s, i + 1).value.1);
    } else {
      StringPrefix(s, t, i + 1);
    }
  }

  lemma {:induction false} ValuePrefix(s: Str, t: Str, i: nat)
    requires t <= s && i <= |t| && ParseValue(s, i).Some? && ParseValue(s, i).value.1 <= |t|
    ensures ParseValue(t, i) == ParseValue(s, i)
    decreases |s| - i, 0
  {
    hide StringTail, Scalar, Elements, Members;
    if s[i] == '"' as int {
      StringPrefix(s, t, i + 1);
    } else if s[i] == '[' as int {
      WsPrefix(s, t, i + 1);
      var k := SkipWs(s, i + 1);
      if s[k] != ']' as int { ElementsPrefix(s, t, k); }
    } else if s[i] == '{' as int {
      WsPrefix(s, t, i + 1);
      var k := SkipWs(s, i + 1);
      if s[k] != '}' as int { MembersPrefix(s, t, k); }
    } else {
      ScalarPrefix(s, t, i);
    }
  }

  lemma {:induction false} ElementsPrefix(s: Str, t: Str, i: nat)
    requires t <= s && i <= |t| && Elements(s, i).Some? && Elements(s, i).value.1 <= |t|
    ensures Elements(t, i) == Elements(s, i)
    decreases |s| - i, 1
  {
    hide ParseValue, Elements, SkipWs;
    ElementsShape(s, i);
    var (v, e) := ParseValue(s, i).value;
    ValuePrefix(s, t, i);
    WsPrefix(s, t, e);
    var k := SkipWs(s, e);
    if s[k] == ',' as int {
      WsPrefix(s, t, k + 1);
      ElementsPrefix(s, t, SkipWs(s, k + 1));
    }
    ElementsFrom(t, i, v, e);
  }

  lemma {:induction false} MemberPrefix(s: Str, t: Str, i: nat)
    requires t <= s && i <= |t| && ParseMember(s, i).Some? && ParseMember(s, i).value.1 <= |t|
    ensures ParseMember(t, i) == ParseMember(s, i)
    decreases |s| - i, 1
  {
    hide StringTail, ParseValue;
    var b := Name(s, i).value.1;
    StringPrefix(s, t, i + 1);
    var e := StringTail(s, i + 1).value.1;
    WsPrefix(s, t, e);
    WsPrefix(s, t, SkipWs(s, e) + 1);
    ValuePrefix(s, t, b);
  }

  lemma {:induction false} MembersPrefix(s: Str, t: Str, i: nat)
    requires t <= s && i <= |t| && Members(s, i).Some? && Members(s, i).value.1 <= |t|
    ensures Members(t, i) == Members(s, i)
    decreases |s| - i, 2
  {
    hide ParseMember, Members, SkipWs;
    MembersShape(s, i);
    var (m, e) := ParseMember(s, i).value;
    MemberPrefix(s, t, i);
    WsPrefix(s, t, e);
    var k := SkipWs(s, e);
    if s[k] == ',' as int {
      WsPrefix(s, t, k + 1);
      MembersPrefix(s, t, SkipWs(s, k + 1));
    }
    MembersFrom(t, i, m, e);
  }
}
