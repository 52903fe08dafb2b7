/** The bracket-and-quote lexer that `ToolCallBuffer` folds over argument text,
    and what the grammar of `Json` says about its states. */
module JsonLexer {
  import opened Text
  import opened Wrappers
  import opened Json

  datatype Lexer = Lexer(depth: int, maxDepth: int, inString: bool, escaped: bool, overclosed: bool)

  const START := Lexer(0, 0, false, false, false)

  function Max(a: int, b: int): (m: int)
    ensures m == a || m == b
  {
    if a > b then a else b
  }

  predicate IsOpen(c: Code) { c == '{' as int || c == '[' as int }
  predicate IsClose(c: Code) { c == '}' as int || c == ']' as int }

  /** One character. */
  function Scan(st: Lexer, c: Code): Lexer {
    var Lexer(d, m, q, e, o) := st;
    if q then Lexer(d, m, e || c != '"' as int, !e && c == '\\' as int, o)
    else if c == '"' as int then Lexer(d, m, true, e, o)
    else if IsOpen(c) then Lexer(d + 1, Max(m, d + 1), q, e, o)
    else if IsClose(c) then Lexer(d - 1, m, q, e, o || d - 1 < 0)
    else st
  }

  /** The states before, between and after the characters of `s`. */
  function Trace(s: Str): (states: seq<Lexer>)
    ensures |states| == |s| + 1 && states[0] == START
  {
    if s == [] then [START] else
    var states := Trace(s[..|s| - 1]);
    states + [Scan(states[|s| - 1], s[|s| - 1])]
  }

  /** The state after the first `i` characters of `s`. */
  function LexAt(s: Str, i: nat): Lexer
    requires i <= |s|
  {
    Trace(s)[i]
  }

  lemma {:induction false} LexStep(s: Str, i: nat)
    requires i < |s|
    ensures LexAt(s, i + 1) == Scan(LexAt(s, i), s[i])
  {
    if i < |s| - 1 { LexStep(s[..|s| - 1], i); }
  }

  lemma {:induction false} LexPrefix(t: Str, s: Str, i: nat)
    requires t <= s && i <= |t|
    ensures LexAt(t, i) == LexAt(s, i)
    decreases |s|
  {
    if |t| < |s| {
      assert t <= s[..|s| - 1];
      LexPrefix(t, s[..|s| - 1], i);
    } else {
      assert t == s;
    }
  }

  lemma {:induction false} LexSane(s: Str, i: nat)
    requires i <= |s|
    ensures var st := LexAt(s, i);
      && (st.escaped ==> st.inString)
      && st.depth <= st.maxDepth && 0 <= st.maxDepth
      && (st.depth < 0 ==> st.overclosed)
  {
    if i > 0 {
      LexSane(s, i - 1);
      LexStep(s, i - 1);
    }
  }

  /** Depth never falls below its value at `i` up to `j`, and is back there at `j`. */
  predicate Level(s: Str, i: nat, j: nat)
    requires i <= j <= |s|
  {
    && LexAt(s, j).depth == LexAt(s, i).depth
    && !LexAt(s, j).inString && !LexAt(s, j).escaped
    && LexAt(s, j).overclosed == LexAt(s, i).overclosed
    && forall k :: i <= k <= j ==> LexAt(s, k).depth >= LexAt(s, i).depth
  }

  predicate Calm(s: Str, i: nat)
    requires i <= |s|
  {
    !LexAt(s, i).inString && !LexAt(s, i).escaped && LexAt(s, i).depth >= 0
  }

  /** A stretch of characters outside strings that are neither quotes nor brackets. */
  lemma {:induction false} PlainLex(s: Str, i: nat, j: nat)
    requires i <= j <= |s| && Calm(s, i)
    requires forall k :: i <= k < j ==> s[k] != '"' as int && !IsOpen(s[k]) && !IsClose(s[k])
    ensures Level(s, i, j) && LexAt(s, j).maxDepth == LexAt(s, i).maxDepth
    decreases j
  {
    if i < j {
      PlainLex(s, i, j - 1);
      LexStep(s, j - 1);
    }
  }

  lemma {:induction false} StringLex(s: Str, i: nat)
    requires i <= |s| && LexAt(s, i).inString && !LexAt(s, i).escaped
    requires StringTail(s, i).Some?
    ensures var j := StringTail(s, i).value.1;
      && Level(s, i, j)
      && LexAt(s, j).maxDepth == LexAt(s, i).maxDepth
      && LexAt(s, j).depth == LexAt(s, i).depth
      && forall k :: i <= k < j ==> LexAt(s, k).inString
    decreases |s| - i
  {
    LexStep(s, i);
    if s[i] == '"' as int {
    } else if s[i] == '\\' as int {
      var j := Escape(s, i + 1).value.1;
      EscapeLex(s, i + 1);
      StringLex(s, j);
    } else {
      StringLex(s, i + 1);
    }
  }

  /** From `i` to `j` the lexer stays inside one string and nothing else moves. */
  predicate Inside(s: Str, i: nat, j: nat)
    requires i <= j <= |s|
  {
    forall k :: i <= k <= j ==>
      && LexAt(s, k).inString
      && LexAt(s, k).depth == LexAt(s, i).depth
      && LexAt(s, k).maxDepth == LexAt(s, i).maxDepth
      && LexAt(s, k).overclosed == LexAt(s, i).overclosed
  }

  lemma {:induction false} LettersLex(s: Str, i: nat, j: nat)
    requires i <= j <= |s| && LexAt(s, i).inString && !LexAt(s, i).escaped
    requires forall k :: i <= k < j ==> s[k] != '"' as int && s[k] != '\\' as int
    ensures Inside(s, i, j) && !LexAt(s, j).escaped
    decreases j
  {
    if i < j {
      LettersLex(s, i, j - 1);
      LexStep(s, j - 1);
    }
  }

  lemma HexLex(s: Str, i: nat)
    requires i <= |s| && LexAt(s, i).inString && !LexAt(s, i).escaped
    requires Hex4(s, i).Some?
    ensures Inside(s, i, i + 4) && !LexAt(s, i + 4).escaped
  {
    assert forall k :: i <= k < i + 4 ==> HexDigit(s[k]).Some?;
    LettersLex(s, i, i + 4);
  }

  lemma InsideTrans(s: Str, i: nat, j: nat, k: nat)
    requires i <= j <= k <= |s| && Inside(s, i, j) && Inside(s, j, k)
    ensures Inside(s, i, k)
  {
  }

  lemma InsideStep(s: Str, i: nat)
    requires i < |s| && LexAt(s, i).inString
    requires LexAt(s, i).escaped || s[i] != '"' as int
    ensures Inside(s, i, i + 1)
    ensures LexAt(s, i + 1).escaped <==> !LexAt(s, i).escaped && s[i] == '\\' as int
  {
    LexStep(s, i);
  }

  lemma EscapeLex(s: Str, i: nat)
    requires i <= |s| && LexAt(s, i).inString && LexAt(s, i).escaped
    requires Escape(s, i).Some?
    ensures Inside(s, i, Escape(s, i).value.1) && !LexAt(s, Escape(s, i).value.1).escaped
  {
    InsideStep(s, i);
    var j := Escape(s, i).value.1;
    if j == i + 5 || j == i + 11 {
      HexLex(s, i + 1);
      InsideTrans(s, i, i + 1, i + 5);
    }
    if j == i + 11 {
      assert s[i + 5] == s[i + 5..i + 7][0] && s[i + 6] == s[i + 5..i + 7][1];
      InsideStep(s, i + 5);
      InsideStep(s, i + 6);
      HexLex(s, i + 7);
      InsideTrans(s, i, i + 5, i + 6);
      InsideTrans(s, i, i + 6, i + 7);
      InsideTrans(s, i, i + 7, i + 11);
    }
  }

  // ---- Values ----

  /** How deeply containers nest in a value. */
  function Nesting(v: Value): nat
    decreases v, 1
  {
    match v
    case Array(items) => 1 + ItemsNesting(items)
    case Object(members) => 1 + MembersNesting(members)
    case _ => 0
  }

  function ItemsNesting(vs: seq<Value>): nat
    decreases vs, 0
  {
    if vs == [] then 0 else Max(Nesting(vs[0]), ItemsNesting(vs[1..]))
  }

  function MemberNesting(m: Member): nat
    decreases m, 0
  {
    Nesting(m.value)
  }

  function MembersNesting(ms: seq<Member>): nat
    decreases ms, 0
  {
    if ms == [] then 0 else Max(MemberNesting(ms[0]), MembersNesting(ms[1..]))
  }

  predicate Plain(s: Str, i: nat, j: nat)
    requires i <= j <= |s|
  {
    forall k :: i <= k < j ==> s[k] != '"' as int && !IsOpen(s[k]) && !IsClose(s[k])
  }

  lemma WordPlain(s: Str, i: nat, w: string)
    requires i <= |s| && At(s, i, Lit(w))
    requires forall k :: 0 <= k < |w| ==> w[k] != '"' && w[k] !in "{}[]"
    ensures Plain(s, i, i + |w|)
  {
    forall k | i <= k < i + |w|
      ensures s[k] != '"' as int && !IsOpen(s[k]) && !IsClose(s[k])
    {
      assert s[k] == s[i..i + |w|][k - i] == w[k - i] as int;
      assert w[k - i] !in "{}[]";
      assert "{}[]"[0] == '{' && "{}[]"[1] == '}' && "{}[]"[2] == '[' && "{}[]"[3] == ']';
    }
  }

  lemma NumberPlain(s: Str, i: nat)
    requires i <= |s| && Number(s, i).Some?
    ensures Plain(s, i, Number(s, i).value.1)
  {
  }

  lemma ScalarPlain(s: Str, i: nat)
    requires i < |s| && Scalar(s, i).Some?
    ensures Plain(s, i, Scalar(s, i).value.1)
  {
    if At(s, i, Lit("-Infinity")) {
      WordPlain(s, i, "-Infinity");
    }
    if s[i] == 'n' as int { WordPlain(s, i, "null"); }
    else if s[i] == 't' as int { WordPlain(s, i, "true"); }
    else if s[i] == 'f' as int { WordPlain(s, i, "false"); }
    else if s[i] == 'N' as int { WordPlain(s, i, "NaN"); }
    else if s[i] == 'I' as int { WordPlain(s, i, "Infinity"); }
    else if !At(s, i, Lit("-Infinity")) { NumberPlain(s, i); }
  }

  /** What a complete value does to the lexer: it ends at the level it began on,
      a container stays strictly above that level until its last character, and
      the running maximum records exactly the value's nesting. */
  predicate Spans(s: Str, i: nat, j: nat, nesting: int)
    requires i <= j <= |s|
  {
    Level(s, i, j) && LexAt(s, j).maxDepth == Max(LexAt(s, i).maxDepth, LexAt(s, i).depth + nesting)
  }

  predicate Above(s: Str, i: nat, j: nat, d: int)
    requires j <= |s|
  {
    forall k :: i <= k < j ==> LexAt(s, k).depth > d
  }

  /** The tail of a container drops one level, at its last character. */
  predicate Closes(s: Str, i: nat, j: nat, nesting: int)
    requires i < j <= |s|
  {
    && Above(s, i, j, LexAt(s, i).depth - 1)
    && LexAt(s, j).depth == LexAt(s, i).depth - 1
    && !LexAt(s, j).inString && !LexAt(s, j).escaped
    && LexAt(s, j).overclosed == LexAt(s, i).overclosed
    && LexAt(s, j).maxDepth == Max(LexAt(s, i).maxDepth, LexAt(s, i).depth + nesting)
    && IsClose(s[j - 1])
  }

  /** A whole container: one level up, closed again by its last character. */
  predicate Encloses(s: Str, i: nat, j: nat, nesting: int)
    requires i <= j <= |s|
  {
    Spans(s, i, j, nesting) && i < j && Above(s, i + 1, j, LexAt(s, i).depth) && IsClose(s[j - 1])
  }

  lemma SpansThenSpans(s: Str, i: nat, k: nat, j: nat, m: nat, n: nat)
    requires i <= k <= j <= |s| && Spans(s, i, k, m) && Spans(s, k, j, n)
    ensures Spans(s, i, j, Max(m, n))
  {
  }

  lemma SpansThenCloses(s: Str, i: nat, k: nat, j: nat, m: nat, n: nat)
    requires i <= k < j <= |s| && Spans(s, i, k, m) && Closes(s, k, j, n)
    ensures Closes(s, i, j, Max(m, n))
  {
  }

  lemma PlainSpans(s: Str, i: nat, j: nat)
    requires i <= j <= |s| && Calm(s, i) && Plain(s, i, j)
    ensures Spans(s, i, j, 0)
  {
    PlainLex(s, i, j);
    LexSane(s, i);
  }

  lemma CloseStep(s: Str, i: nat)
    requires i < |s| && Calm(s, i) && LexAt(s, i).depth > 0 && IsClose(s[i])
    ensures Closes(s, i, i + 1, 0)
  {
    LexSane(s, i);
    LexStep(s, i);
  }

  lemma OpenThenCloses(s: Str, i: nat, k: nat, j: nat, n: nat)
    requires i + 1 <= k < j <= |s| && Calm(s, i) && IsOpen(s[i])
    requires Plain(s, i + 1, k)
    requires Calm(s, i + 1) && Calm(s, k) ==> Closes(s, k, j, n)
    ensures Encloses(s, i, j, n + 1)
  {
    LexSane(s, i);
    LexStep(s, i);
    PlainSpans(s, i + 1, k);
    SpansThenCloses(s, i + 1, k, j, 0, n);
  }

  lemma StringSpans(s: Str, i: nat)
    requires i < |s| && Calm(s, i) && s[i] == '"' as int && StringTail(s, i + 1).Some?
    ensures Spans(s, i, StringTail(s, i + 1).value.1, 0)
  {
    LexSane(s, i);
    LexStep(s, i);
    StringLex(s, i + 1);
  }

  /** After a value and plain characters the lexer is calm, at the same depth. */
  lemma CalmAfter(s: Str, i: nat, e: nat, k: nat, m: nat)
    requires i <= e <= k <= |s| && Calm(s, i) && Spans(s, i, e, m) && Plain(s, e, k)
    ensures Calm(s, k) && LexAt(s, k).depth == LexAt(s, i).depth && Spans(s, i, k, m)
  {
    PlainSpans(s, e, k);
    SpansThenSpans(s, i, e, k, m, 0);
  }

  lemma ValueThenCloses(s: Str, i: nat, e: nat, k: nat, j: nat, m: nat, n: nat)
    requires i <= e <= k < j <= |s| && Calm(s, i) && Spans(s, i, e, m) && Plain(s, e, k) && Closes(s, k, j, n)
    ensures Closes(s, i, j, Max(m, n))
  {
    CalmAfter(s, i, e, k, m);
    SpansThenCloses(s, i, k, j, m, n);
  }

  lemma ValueThenClose(s: Str, i: nat, e: nat, k: nat, m: nat)
    requires i <= e <= k < |s| && Calm(s, i) && Spans(s, i, e, m) && Plain(s, e, k)
    requires IsClose(s[k]) && LexAt(s, i).depth > 0
    ensures Closes(s, i, k + 1, m)
  {
    CalmAfter(s, i, e, k, m);
    CloseStep(s, k);
    SpansThenCloses(s, i, k, k + 1, m, 0);
  }

  lemma {:induction false} ValueLex(s: Str, i: nat)
    requires i <= |s| && Calm(s, i) && ParseValue(s, i).Some?
    ensures var (v, j) := ParseValue(s, i).value;
      && Spans(s, i, j, Nesting(v))
      && (IsOpen(s[i]) ==> Encloses(s, i, j, Nesting(v)))
    decreases |s| - i, 0
  {
    var (v, j) := ParseValue(s, i).value;
    if s[i] == '"' as int {
      StringSpans(s, i);
    } else if IsOpen(s[i]) {
      ContainerLex(s, i);
    } else {
      ScalarPlain(s, i);
      PlainSpans(s, i, j);
    }
  }

  lemma {:induction false} ContainerLex(s: Str, i: nat)
    requires i < |s| && Calm(s, i) && IsOpen(s[i]) && ParseValue(s, i).Some?
    ensures var (v, j) := ParseValue(s, i).value; Encloses(s, i, j, Nesting(v))
    decreases |s| - i - 1, 3
  {
    hide Elements, Members, Trace, Encloses;
    var k := SkipWs(s, i + 1);
    InsideContainer(s, i, k);
    if s[k] == (if s[i] == '[' as int then ']' else '}') as int {
      CloseStep(s, k);
      OpenThenCloses(s, i, k, k + 1, 0);
    } else if s[i] == '[' as int {
      ElementsLex(s, k);
      var (vs, j) := Elements(s, k).value;
      OpenThenCloses(s, i, k, j, ItemsNesting(vs));
    } else {
      MembersLex(s, k);
      var (ms, j) := Members(s, k).value;
      OpenThenCloses(s, i, k, j, MembersNesting(ms));
    }
  }

  lemma InsideContainer(s: Str, i: nat, k: nat)
    requires i + 1 <= k <= |s| && Calm(s, i) && IsOpen(s[i]) && Plain(s, i + 1, k)
    ensures Calm(s, k) && LexAt(s, k).depth == LexAt(s, i).depth + 1
  {
    LexStep(s, i);
    PlainSpans(s, i + 1, k);
  }

  lemma {:induction false} ElementsLex(s: Str, i: nat)
    requires i <= |s| && Calm(s, i) && LexAt(s, i).depth > 0 && Elements(s, i).Some?
    ensures var (vs, j) := Elements(s, i).value; Closes(s, i, j, ItemsNesting(vs))
    decreases |s| - i, 1
  {
    hide ParseValue, Elements, Trace;
    ElementsShape(s, i);
    var (v, e) := ParseValue(s, i).value;
    ValueLex(s, i);
    var k := SkipWs(s, e);
    if s[k] == ']' as int {
      ValueThenClose(s, i, e, k, Nesting(v));
    } else {
      var n := SkipWs(s, k + 1);
      CalmAfter(s, i, e, n, Nesting(v));
      ElementsLex(s, n);
      var (vs, j) := Elements(s, n).value;
      ValueThenCloses(s, i, e, n, j, Nesting(v), ItemsNesting(vs));
      assert ([v] + vs)[1..] == vs;
    }
  }

  lemma NameLex(s: Str, i: nat)
    requires i <= |s| && Calm(s, i) && Name(s, i).Some?
    ensures Spans(s, i, Name(s, i).value.1, 0)
  {
    var (name, e) := StringTail(s, i + 1).value;
    StringSpans(s, i);
    CalmAfter(s, i, e, SkipWs(s, SkipWs(s, e) + 1), 0);
  }

  lemma {:induction false} MemberLex(s: Str, i: nat)
    requires i <= |s| && Calm(s, i) && ParseMember(s, i).Some?
    ensures var (m, e) := ParseMember(s, i).value; Spans(s, i, e, MemberNesting(m))
    decreases |s| - i, 1
  {
    var b := Name(s, i).value.1;
    var (v, e) := ParseValue(s, b).value;
    NameLex(s, i);
    ValueLex(s, b);
    SpansThenSpans(s, i, b, e, 0, Nesting(v));
  }

  lemma {:induction false} MembersLex(s: Str, i: nat)
    requires i <= |s| && Calm(s, i) && LexAt(s, i).depth > 0 && Members(s, i).Some?
    ensures var (ms, j) := Members(s, i).value; Closes(s, i, j, MembersNesting(ms))
    decreases |s| - i, 2
  {
    hide ParseMember, Members, Trace;
    MembersShape(s, i);
    var (m, e) := ParseMember(s, i).value;
    MemberLex(s, i);
    var k := SkipWs(s, e);
    if s[k] == '}' as int {
      ValueThenClose(s, i, e, k, MemberNesting(m));
    } else {
      var n := SkipWs(s, k + 1);
      CalmAfter(s, i, e, n, MemberNesting(m));
      MembersLex(s, n);
      var (ms, j) := Members(s, n).value;
      ValueThenCloses(s, i, e, n, j, MemberNesting(m), MembersNesting(ms));
      assert ([m] + ms)[1..] == ms;
    }
  }
}
