/** What a streamed tool call comes to, from the text it was printed as. */
module ToolArguments {
  import opened Text
  import opened Wrappers
  import opened Json
  import opened JsonLexer
  import opened JsonPrinter
  import opened JsonDecoded
  import opened ArgsStream
  import opened ToolStream

  /** The text of the fragments is one after the other, nothing between. */
  lemma {:induction false} ConcatAll(a: seq<Str>, b: seq<Str>, s: Str)
    ensures Concat(a + b) == Concat(a) + Concat(b)
    ensures Concat([s]) == s
  {
    assert [s][..0] == [];
    if b == [] {
      assert a + b == a;
    } else {
      assert (a + b)[..|a + b| - 1] == a + b[..|b| - 1];
      ConcatAll(a, b[..|b| - 1], s);
    }
  }

  /** A printed object, cut into whatever fragments and polled however often, comes back as
      that very object: for every object with ASCII output off, and for those without
      unjoined surrogate pairs with it on. */
  method PrintedObject(limit: nat, v: Value, ascii: bool, fragments: seq<Str>, polls: nat -> nat)
    returns (r: ParseOutcome)
    requires v.Object? && WellFormed(v) && Nesting(v) <= limit && (ascii ==> PairFreeValue(v))
    requires Concat(fragments) == Dumps(v, ascii)
    ensures r == Args(Some(v))
  {
    DumpsThenLoads(v, ascii);
    if ascii { RereadIff(v); }
    hide Concat, Loads, Nesting, Dumps, WellFormed, Reread, PairFreeValue, Batch;
    r := StreamThenParse(limit, fragments, polls);
  }

  /** No bracket of a decodable object or array closes too much. */
  lemma DecodableIsClosed(t: Str, i: nat)
    requires Loads(t).Some? && i < |t| && IsOpen(t[i]) && forall k :: 0 <= k < i ==> IsSpace(t[k])
    ensures !LexAt(t, |t|).overclosed
  {
    FirstInkAt(t, i);
    TopLevel(t);
    ContainerStates(t, |t|);
  }

  /** A bracket too many after a decodable object or array is given up. */
  lemma OneBracketTooMany(limit: nat, s: Str, c: Code)
    requires Loads(s).Some? && IsOpen(s[ValueStart(s)]) && (c == '}' as int || c == ']' as int)
    ensures Poll(limit, s[..ValueEnd(s)] + [c]).Doomed?
  {
    var i, e := ValueStart(s), ValueEnd(s);
    var t := s[..e] + [c];
    ContainerStates(s, e);
    LexPrefix(s[..e], s, e);
    LexPrefix(s[..e], t, e);
    LexStep(t, e);
    assert t[i] == s[i] && t[|t| - 1] == c && forall k :: 0 <= k < i ==> t[k] == s[k];
    hide Loads, LexAt, Poll, Nesting;
    if Loads(t).Some? { DecodableIsClosed(t, i); }
    DoomedIff(limit, t);
  }

  /** So is an object or array nested too deep, and no unfinished one ever is. */
  lemma TooDeepOrUnfinished(limit: nat, s: Str, n: nat)
    requires Loads(s).Some? && IsOpen(s[ValueStart(s)])
    ensures Nesting(Loads(s).value) > limit ==> Poll(limit, s).Doomed?
    ensures n < ValueEnd(s) ==> Poll(limit, s[..n]).Waiting?
  {
    var i, e := ValueStart(s), ValueEnd(s);
    TopLevel(s);
    ContainerStates(s, |s|);
    AllWs(s, e);
    LastInkAt(s, e - 1);
    hide Loads, Nesting, LexAt, FirstInk, LastInk, Wrap;
    if n < e {
      ContainerStates(s, n);
      LexPrefix(s[..n], s, n);
      FirstInkAt(s[..n], if n < i then n else i);
    }
  }

  /** Two brackets that balance and do not match are given up. */
  lemma Mismatched(limit: nat)
    ensures Poll(limit, Lit("{]")).Doomed?
  {
    var t := Lit("{]");
    LexStep(t, 0);
    LexStep(t, 1);
    assert Loads(t).None?;
    DoomedIff(limit, t);
  }

  // ---- The nesting limit ----

  /** An empty list in `n` lists. */
  function Deep(n: nat): Value {
    Array(if n == 0 then [] else [Deep(n - 1)])
  }

  function Repeated(c: Code, n: nat): Str {
    seq(n, i => c)
  }

  lemma {:induction false} DeepIsPrinted(n: nat)
    ensures WellFormed(Deep(n)) && Nesting(Deep(n)) == n + 1
    ensures Dumps(Deep(n), false) == Repeated('[' as int, n + 1) + Repeated(']' as int, n + 1)
  {
    if n == 0 {
      assert Lit("[]") == ['[' as int, ']' as int];
    } else {
      DeepIsPrinted(n - 1);
      hide Dumps, WellFormed, Nesting;
      assert [Deep(n - 1)][1..] == [];
      assert WellFormedItems([Deep(n - 1)]) && ItemsNesting([Deep(n - 1)]) == n;
      ArrayOf([Deep(n - 1)], false);
      OneMoreLevel(Deep(n - 1));
      var open, shut := Repeated('[' as int, n), Repeated(']' as int, n);
      assert DumpsItems([Deep(n - 1)], false) == open + shut + Lit("]");
      assert Lit("[") + open == Repeated('[' as int, n + 1) && shut + Lit("]") == Repeated(']' as int, n + 1);
      assert Lit("[") + (open + shut + Lit("]")) == (Lit("[") + open) + (shut + Lit("]"));
    }
  }

  lemma OneMoreLevel(v: Value)
    ensures Nesting(Array([v])) == 1 + Nesting(v)
  {
    assert [v][1..] == [];
    assert ItemsNesting([v]) == Nesting(v);
  }

  /** As many brackets inside one another as the limit allows are accepted, and not one more. */
  lemma BracketsWithinLimit(limit: nat, n: nat)
    requires n > 0
    ensures var text := Repeated('[' as int, n) + Repeated(']' as int, n);
      if n <= limit then Poll(limit, text).Ready? else Poll(limit, text).Doomed?
  {
    var text, v := Repeated('[' as int, n) + Repeated(']' as int, n), Deep(n - 1);
    DeepIsPrinted(n - 1);
    DumpsThenLoads(v, false);
    assert text[0] == '[' as int;
    SkipNothing(text);
    hide Loads, Nesting, Dumps, WellFormed, Poll;
    PollIsBatch(limit, text);
    TooDeepOrUnfinished(limit, text, 0);
    hide Repeated;
  }

  lemma SkipNothing(text: Str)
    requires text != [] && !IsWs(text[0])
    ensures ValueStart(text) == 0
  {
  }
}
