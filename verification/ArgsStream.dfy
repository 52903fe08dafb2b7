/** What polling a streamed argument text answers, as a function of the text
    alone, and why that is the same as decoding the whole text at once. */
module ArgsStream {
  import opened Text
  import opened Wrappers
  import opened Json
  import opened JsonLexer
  import opened JsonPrefix

  function FirstInk(s: Str): Option<Code> {
    if s == [] then None else
    var f := FirstInk(s[..|s| - 1]);
    if f.None? && !IsSpace(s[|s| - 1]) then Some(s[|s| - 1]) else f
  }

  function LastInk(s: Str): Option<Code> {
    if s == [] then None
    else if !IsSpace(s[|s| - 1]) then Some(s[|s| - 1])
    else LastInk(s[..|s| - 1])
  }

  /** A value as tool arguments: anything but an object is wrapped. */
  function Wrap(v: Value): Value {
    if v.Object? then v else Object([Member(Lit("value"), v)])
  }

  datatype Stage = Waiting | Doomed | Ready(value: Value)

  /** The completeness test and the parse, from the lexer state of the whole text. */
  function Poll(limit: nat, text: Str): Stage {
    var st := LexAt(text, |text|);
    match FirstInk(text)
    case None => Waiting
    case Some(first) =>
      if IsOpen(first) then
        if LastInk(text).None? || !IsClose(LastInk(text).value) then Waiting
        else if !st.overclosed && (st.depth != 0 || st.inString) then Waiting
        else if st.maxDepth > limit then Doomed
        else match Loads(text) case Some(v) => Ready(Wrap(v)) case None => Doomed
      else if first == '"' as int && st.inString then Waiting
      else match Loads(text) case Some(v) => Ready(Wrap(v)) case None => Waiting
  }

  /** One decode of the whole text, refusing values nested deeper than `limit`. */
  function Batch(limit: nat, text: Str): Option<Value> {
    match Loads(text)
    case Some(v) => if Nesting(v) <= limit then Some(Wrap(v)) else None
    case None => None
  }

  /** An object that decodes is the answer itself, anything else is its one member `value`. */
  lemma BatchMeans(limit: nat, text: Str)
    ensures Loads(text).None? ==> Batch(limit, text) == None
    ensures Loads(text).Some? ==>
      var v := Loads(text).value;
      Batch(limit, text) ==
        if Nesting(v) > limit then None
        else if v.Object? then Some(v)
        else Some(Object([Member(Lit("value"), v)]))
  {
  }

  /** A text is given up exactly when it starts with an opening bracket, ends with a closing
      one, is not merely unfinished (brackets balance outside strings, or one closes too many)
      and does not decode within the limit. */
  lemma DoomedIff(limit: nat, text: Str)
    ensures Poll(limit, text).Doomed? <==>
      && (exists p :: && 0 <= p < |text| && (text[p] == '{' as int || text[p] == '[' as int)
            && forall k :: 0 <= k < p ==> IsSpace(text[k]))
      && (exists q :: && 0 <= q < |text| && (text[q] == '}' as int || text[q] == ']' as int)
            && forall k :: q < k < |text| ==> IsSpace(text[k]))
      && var st := LexAt(text, |text|);
         && (st.overclosed || (st.depth == 0 && !st.inString))
         && (Loads(text).None? || Nesting(Loads(text).value) > limit)
  {
    var p := FirstInkIndex(text);
    PollIsBatch(limit, text);
    hide Loads, Nesting, Wrap, LexAt;
    var q := LastInkIndex(text);
  }

  // ---- Where the value of a decodable text sits ----

  function ValueStart(s: Str): (i: nat)
    ensures i <= |s|
  {
    SkipWs(s, 0)
  }

  function ValueEnd(s: Str): (e: nat)
    requires Loads(s).Some?
    ensures ValueStart(s) < e <= |s|
  {
    ParseValue(s, ValueStart(s)).value.1
  }

  lemma {:induction false} FirstInkAt(s: Str, i: nat)
    requires i <= |s| && forall k :: 0 <= k < i ==> IsSpace(s[k])
    requires i < |s| ==> !IsSpace(s[i])
    ensures FirstInk(s) == if i < |s| then Some(s[i]) else None
    decreases |s|
  {
    if s != [] {
      if i < |s| - 1 { FirstInkAt(s[..|s| - 1], i); } else { FirstInkAt(s[..|s| - 1], |s| - 1); }
    }
  }

  /** The index of the first character `FirstInk` finds. */
  lemma {:induction false} FirstInkIndex(s: Str) returns (i: nat)
    ensures i <= |s| && forall k :: 0 <= k < i ==> IsSpace(s[k])
    ensures i < |s| ==> !IsSpace(s[i])
    ensures FirstInk(s) == if i < |s| then Some(s[i]) else None
  {
    i := 0;
    while i < |s| && IsSpace(s[i])
      invariant i <= |s| && forall k :: 0 <= k < i ==> IsSpace(s[k])
    {
      i := i + 1;
    }
    FirstInkAt(s, i);
  }

  lemma {:induction false} LastInkAt(s: Str, i: nat)
    requires i < |s| && !IsSpace(s[i]) && forall k :: i < k < |s| ==> IsSpace(s[k])
    ensures LastInk(s) == Some(s[i])
    decreases |s|
  {
    if i < |s| - 1 { LastInkAt(s[..|s| - 1], i); }
  }

  /** The index of the last character that is no space, or -1. */
  lemma LastInkIndex(s: Str) returns (q: int)
    ensures -1 <= q < |s| && forall k :: q < k < |s| ==> IsSpace(s[k])
    ensures q >= 0 ==> !IsSpace(s[q])
    ensures LastInk(s) == if q >= 0 then Some(s[q]) else None
  {
    if s == [] {
      q := -1;
    } else if !IsSpace(s[|s| - 1]) {
      q := |s| - 1;
    } else {
      q := LastInkIndex(s[..|s| - 1]);
      assert forall k :: 0 <= k < |s| - 1 ==> s[..|s| - 1][k] == s[k];
    }
  }

  /** No value starts with a space of any kind. */
  lemma ValueStartsWithInk(s: Str, i: nat)
    requires i < |s| && ParseValue(s, i).Some?
    ensures !IsSpace(s[i])
  {
    if IsSpace(s[i]) {
      NotMinusInfinity(s, i);
      hide DigitsEnd, DigitsValue;
    }
  }

  /** The value of a decodable text sits between JSON whitespace, and the lexer
      passes over the whole text at or above level zero. */
  lemma TopLevel(s: Str)
    requires Loads(s).Some?
    ensures var i, e := ValueStart(s), ValueEnd(s);
      && LexAt(s, i) == START
      && ParseValue(s, i) == Some((Loads(s).value, e))
      && Plain(s, 0, i) && Plain(s, e, |s|)
      && Spans(s, i, e, Nesting(Loads(s).value))
      && (IsOpen(s[i]) ==> Encloses(s, i, e, Nesting(Loads(s).value)))
      && FirstInk(s) == Some(s[i])
  {
    hide ParseValue, Nesting, LexAt, Spans, Encloses, FirstInk;
    var i, e := ValueStart(s), ValueEnd(s);
    PlainStart(s, i);
    ValueLex(s, i);
    ValueStartsWithInk(s, i);
    FirstInkAt(s, i);
  }

  lemma {:induction false} PlainStart(s: Str, i: nat)
    requires i <= |s| && Plain(s, 0, i)
    ensures LexAt(s, i) == START
  {
    if i > 0 {
      PlainStart(s, i - 1);
      LexStep(s, i - 1);
    }
  }

  /** The states of a decodable container text, at every cut `n`. */
  lemma ContainerStates(s: Str, n: nat)
    requires Loads(s).Some? && IsOpen(s[ValueStart(s)]) && n <= |s|
    ensures var st := LexAt(s, n); var i, e := ValueStart(s), ValueEnd(s);
      && !st.overclosed
      && (n <= i ==> st == START)
      && (i < n < e ==> st.depth > 0)
      && (e <= n ==> st.depth == 0 && !st.inString && st.maxDepth == Nesting(Loads(s).value))
  {
    var i, e := ValueStart(s), ValueEnd(s);
    TopLevel(s);
    if n <= i {
      PlainStart(s, n);
    } else if e <= n {
      PlainSpans(s, e, n);
    } else {
      if LexAt(s, n).overclosed { OverclosedStays(s, n, e); }
    }
  }

  lemma {:induction false} OverclosedStays(s: Str, m: nat, n: nat)
    requires m <= n <= |s| && LexAt(s, m).overclosed
    ensures LexAt(s, n).overclosed
    decreases n
  {
    if m < n {
      OverclosedStays(s, m, n - 1);
      LexStep(s, n - 1);
    }
  }

  /** Cutting a decodable text after its value leaves it decodable, to the same value. */
  lemma CutAfterValue(s: Str, n: nat)
    requires Loads(s).Some? && ValueEnd(s) <= n <= |s|
    ensures Loads(s[..n]) == Loads(s)
    ensures ValueStart(s[..n]) == ValueStart(s) && ValueEnd(s[..n]) == ValueEnd(s)
  {
    var t := s[..n];
    var e := ValueEnd(s);
    WsPrefix(s, t, 0);
    ValuePrefix(s, t, ValueStart(s));
    AllWs(s, e);
    SkipAllWs(t, e);
  }

  lemma AllWs(s: Str, e: nat)
    requires e <= |s| && SkipWs(s, e) == |s|
    ensures forall k :: e <= k < |s| ==> IsWs(s[k])
  {
  }

  lemma SkipAllWs(s: Str, e: nat)
    requires e <= |s| && forall k :: e <= k < |s| ==> IsWs(s[k])
    ensures SkipWs(s, e) == |s|
  {
  }

  // ---- The main results ----

  /** The incremental test is exact: polling answers a value exactly when decoding
      the whole text at once does, and the same one. */
  lemma PollIsBatch(limit: nat, text: Str)
    ensures Poll(limit, text).Ready? <==> Batch(limit, text).Some?
    ensures Poll(limit, text).Ready? ==> Batch(limit, text) == Some(Poll(limit, text).value)
  {
    hide ParseValue, Nesting, Wrap;
    if Loads(text).Some? {
      var i, e := ValueStart(text), ValueEnd(text);
      TopLevel(text);
      if IsOpen(text[i]) {
        ContainerStates(text, |text|);
        AllWs(text, e);
        LastInkAt(text, e - 1);
      } else {
        PlainSpans(text, e, |text|);
        ScalarNesting(text, i);
      }
    }
  }

  lemma ScalarNesting(s: Str, i: nat)
    requires i < |s| && ParseValue(s, i).Some? && !IsOpen(s[i])
    ensures Nesting(ParseValue(s, i).value.0) == 0
  {
  }

  /** No continuation of `text` can be decoded. */
  ghost predicate Hopeless(limit: nat, text: Str) {
    forall whole :: text <= whole ==> Batch(limit, whole) == None
  }

  /** The latch is sound: a doomed text stays undecodable whatever arrives later. */
  lemma DoomedIsHopeless(limit: nat, text: Str)
    requires Poll(limit, text).Doomed?
    ensures Hopeless(limit, text)
  {
    forall whole | text <= whole ensures Batch(limit, whole) == None {
      DoomedThenAny(limit, text, whole);
    }
  }

  lemma DoomedThenAny(limit: nat, t: Str, s: Str)
    requires Poll(limit, t).Doomed? && t <= s
    ensures Batch(limit, s) == None
  {
    if Loads(s).Some? {
      var p := FirstInkIndex(t);
      FirstInkAt(s, p);
      TopLevel(s);
      assert ValueStart(s) == p by {
        var i := ValueStart(s);
        ValueStartsWithInk(s, i);
      }
      LexPrefix(t, s, |t|);
      ContainerStates(s, |t|);
      if |t| >= ValueEnd(s) {
        CutAfterValue(s, |t|);
        assert s[..|t|] == t;
      }
    }
  }

  lemma HopelessNow(limit: nat, text: Str, whole: Str)
    requires Hopeless(limit, text) && text <= whole
    ensures Hopeless(limit, whole) && Batch(limit, whole) == None && !Poll(limit, whole).Ready?
  {
    hide Poll, Batch;
    PollIsBatch(limit, whole);
  }

  /** Healthy streams are silent and complete: every cut of an acceptable container
      text answers `Waiting` before the closing bracket and the final value after it. */
  lemma HealthyStream(limit: nat, s: Str, n: nat)
    requires Batch(limit, s).Some? && IsOpen(s[ValueStart(s)]) && n <= |s|
    ensures Poll(limit, s[..n]) ==
            if n < ValueEnd(s) then Waiting else Ready(Wrap(Loads(s).value))
  {
    var t := s[..n];
    var i, e := ValueStart(s), ValueEnd(s);
    TopLevel(s);
    ContainerStates(s, n);
    LexPrefix(t, s, n);
    if n <= i {
      FirstInkAt(t, n);
    } else if n < e {
      FirstInkAt(t, i);
    } else {
      CutAfterValue(s, n);
      PollIsBatch(limit, t);
    }
  }

  /** A prefix of an object or array text that decodes at all already decodes to
      the value of the whole text. */
  lemma ContainerPrefixDecodes(s: Str, t: Str)
    requires Loads(s).Some? && IsOpen(s[ValueStart(s)]) && t <= s && Loads(t).Some?
    ensures ValueEnd(s) <= |t| && Loads(t) == Loads(s)
  {
    var i, e := ValueStart(s), ValueEnd(s);
    assert t == s[..|t|];
    if |t| >= e {
      CutAfterValue(s, |t|);
    } else {
      TopLevel(s);
      TopLevel(t);
      var p := FirstInkIndex(t);
      if p < |t| { FirstInkAt(s, p); }
      ContainerStates(s, |t|);
      LexPrefix(t, s, |t|);
      PlainSpans(t, ValueEnd(t), |t|);
    }
  }
}
