/** The display parser never misattributes an answer, and when it succeeds. */
module Transcript {
  import opened Text
  import opened Wrappers
  import opened Json
  import opened JsonPrinter
  import opened AskUser

  /** The transcript from some question's anchor on; every question has its answer. */
  function Blocks(questions: seq<Question>, answers: seq<Str>): (r: Str)
    requires |questions| == |answers| > 0
    ensures r != []
  {
    Anchor(questions[0]) + Tail(questions, answers)
  }

  /** The same after the first anchor. */
  function Tail(questions: seq<Question>, answers: seq<Str>): Str
    requires |questions| == |answers| > 0
    decreases |questions|, 0
  {
    answers[0] + if |questions| == 1 then [] else
                 BLANK + Anchor(questions[1]) + Tail(questions[1..], answers[1..])
  }

  /** The answers a transcript holds: missing ones replaced, extra ones dropped. */
  function Padded(questions: seq<Question>, answers: seq<Str>): (r: seq<Str>)
    ensures |r| == |questions|
    ensures |answers| == |questions| ==> r == answers
  {
    seq(|questions|, i requires 0 <= i < |questions| => AnswerAt(answers, i))
  }

  function BlockList(questions: seq<Question>, answers: seq<Str>): seq<Str>
    requires |questions| == |answers|
  {
    seq(|questions|, i requires 0 <= i < |questions| => Anchor(questions[i]) + answers[i])
  }

  lemma {:induction false} JoinIsBlocks(questions: seq<Question>, answers: seq<Str>)
    requires |questions| == |answers| > 0
    ensures Join(BLANK, BlockList(questions, answers)) == Blocks(questions, answers)
    decreases |questions|
  {
    var blocks := BlockList(questions, answers);
    if |questions| == 1 {
      assert answers[0] + [] == answers[0];
    } else {
      assert blocks[1..] == BlockList(questions[1..], answers[1..]);
      JoinIsBlocks(questions[1..], answers[1..]);
      var rest := Tail(questions[1..], answers[1..]);
      assert blocks[0] + BLANK + (Anchor(questions[1]) + rest)
          == Anchor(questions[0]) + (answers[0] + (BLANK + Anchor(questions[1]) + rest));
    }
  }

  lemma FormatIsBlocks(questions: seq<Question>, answers: seq<Str>)
    requires questions != []
    ensures Format(questions, answers) == Blocks(questions, Padded(questions, answers))
  {
    var padded := Padded(questions, answers);
    assert BlockList(questions, padded)
        == seq(|questions|, i requires 0 <= i < |questions| => Anchor(questions[i]) + AnswerAt(answers, i));
    JoinIsBlocks(questions, padded);
  }

  /** `w` runs from `i` to the end of `s`. */
  predicate Ends(s: Str, i: nat, w: Str) {
    At(s, i, w) && i + |w| == |s|
  }

  lemma EndsConcat(s: Str, i: nat, a: Str, b: Str)
    requires Ends(s, i, a + b)
    ensures At(s, i, a) && Ends(s, i + |a|, b)
  {
    AtConcat(s, i, a, b);
  }

  // ---- Never misattributes ----

  /** Where the parts of a chain stand. */
  lemma PartsSplit(s: Str, p: nat, a: Str, b: Str, c: Str, d: Str)
    requires Ends(s, p, a + (b + c + d))
    ensures var e := p + |a|;
      At(s, p, a) && At(s, e, b + c) && Ends(s, e + |b|, c + d) && Ends(s, e + |b| + |c|, d)
  {
    hide At;
    EndsConcat(s, p, a, b + c + d);
    EndsConcat(s, p + |a|, b + c, d);
    assert b + c + d == b + (c + d);
    EndsConcat(s, p + |a|, b, c + d);
  }

  /** Where the first answer and the next separator stand. */
  lemma TailSplit(s: Str, p: nat, questions: seq<Question>, answers: seq<Str>)
    requires |questions| == |answers| > 1 && Ends(s, p, Tail(questions, answers))
    ensures var e := p + |answers[0]|;
      && At(s, p, answers[0]) && s[p..e] == answers[0]
      && At(s, e, Separator(questions[1]))
      && Ends(s, e + 2, Blocks(questions[1..], answers[1..]))
      && Ends(s, e + 2 + |Anchor(questions[1])|, Tail(questions[1..], answers[1..]))
  {
    hide Ends, Anchor;
    PartsSplit(s, p, answers[0], BLANK, Anchor(questions[1]), Tail(questions[1..], answers[1..]));
  }

  lemma StartsWithBreaks(s: Str, k: nat, q: Question)
    ensures At(s, k, Separator(q)) ==> k + 1 < |s| && s[k] == LF && s[k + 1] == LF
  {
    if At(s, k, Separator(q)) { AtAll(s, k, Separator(q)); }
  }

  /** Two occurrences of a separator never start at neighbouring positions. */
  lemma NoOverlap(s: Str, i: nat, q: Question)
    requires At(s, i, Separator(q))
    ensures !At(s, i + 1, Separator(q))
  {
    AtAll(s, i, Separator(q));
    assert s[i + 2] == Separator(q)[2] == 'Q' as int;
    StartsWithBreaks(s, i + 1, q);
  }

  /** Reading back a transcript from any block on either gives up or recovers exactly
      the answers that were printed. */
  lemma {:induction false} RecoverIsExact(s: Str, p: nat, questions: seq<Question>, answers: seq<Str>)
    requires |questions| == |answers| > 0 && Ends(s, p, Blocks(questions, answers))
    ensures Recover(questions, s, p) == None || Recover(questions, s, p) == Some(answers)
    decreases |questions|
  {
    hide Find, Anchor, Separator;
    var start := p + |Anchor(questions[0])|;
    EndsConcat(s, p, Anchor(questions[0]), Tail(questions, answers));
    assert s[start..] == Tail(questions, answers);
    hide At;
    if |questions| == 1 {
      assert Tail(questions, answers) == answers[0];
      assert answers == [answers[0]];
    } else {
      hide Tail, Blocks;
      TailSplit(s, start, questions, answers);
      var e := start + |answers[0]|;
      var separator := Separator(questions[1]);
      var end := Find(s, separator, start);
      if end != e {
        NoOverlap(s, end, questions[1]);
        assert Find(s, separator, end + 2) != -1;
      } else {
        RecoverIsExact(s, e + 2, questions[1..], answers[1..]);
        assert [answers[0]] + answers[1..] == answers;
      }
    }
  }

  /** The parser never misattributes: from the printed transcript it recovers the very
      answers that were printed or nothing, whatever text they contain. */
  lemma NeverMisattributes(questions: seq<Question>, answers: seq<Str>)
    requires questions != []
    ensures var r := Recover(questions, Format(questions, answers), 0);
      r == None || r == Some(Padded(questions, answers))
  {
    var padded := Padded(questions, answers);
    FormatIsBlocks(questions, answers);
    var s := Blocks(questions, padded);
    assert s[0..|s|] == s;
    RecoverIsExact(s, 0, questions, padded);
  }

  lemma BlocksUnfold(questions: seq<Question>, answers: seq<Str>)
    requires |questions| == |answers| > 1
    ensures Blocks(questions, answers) ==
            Anchor(questions[0]) + (answers[0] + (BLANK + Blocks(questions[1..], answers[1..])))
  {
    hide Anchor;
    var rest := Tail(questions[1..], answers[1..]);
    assert BLANK + Anchor(questions[1]) + rest == BLANK + (Anchor(questions[1]) + rest);
  }

  lemma BlocksReprint(s: Str, p: nat, questions: seq<Question>, answers: seq<Str>)
    requires |questions| == |answers| > 1 && At(s, p, Anchor(questions[0]))
    requires At(s, p + |Anchor(questions[0])|, answers[0])
    requires At(s, p + |Anchor(questions[0])| + |answers[0]|, Separator(questions[1]))
    requires Ends(s, p + |Anchor(questions[0])| + |answers[0]| + 2, Blocks(questions[1..], answers[1..]))
    ensures Ends(s, p, Blocks(questions, answers))
  {
    hide Anchor, Blocks, At;
    var anchor := Anchor(questions[0]);
    var start := p + |anchor|;
    var end := start + |answers[0]|;
    var rest := Blocks(questions[1..], answers[1..]);
    AtConcat(s, end, BLANK, Anchor(questions[1]));
    AtConcat(s, end, BLANK, rest);
    AtConcat(s, start, answers[0], BLANK + rest);
    AtConcat(s, p, anchor, answers[0] + (BLANK + rest));
    BlocksUnfold(questions, answers);
  }

  /** The other way round: any transcript at all that parses is, character for
      character, the print of the answers recovered from it. */
  lemma {:induction false} RecoverReprints(s: Str, p: nat, questions: seq<Question>)
    requires questions != [] && Recover(questions, s, p).Some?
    ensures Ends(s, p, Blocks(questions, Recover(questions, s, p).value))
    decreases |questions|
  {
    hide Find, Anchor, Separator, Recover, Blocks;
    assert questions[0..] == questions;
    RecoverNext(questions, 0, s, p);
    var answers := Recover(questions, s, p).value;
    var start := p + |Anchor(questions[0])|;
    if |questions| == 1 {
      LastReprints(s, p, questions);
    } else {
      var end: nat := Find(s, Separator(questions[1]), start);
      RecoverReprints(s, end + 2, questions[1..]);
      assert answers == [s[start..end]] + answers[1..];
      BlocksReprint(s, p, questions, answers);
    }
  }

  lemma LastReprints(s: Str, p: nat, questions: seq<Question>)
    requires |questions| == 1 && At(s, p, Anchor(questions[0]))
    ensures Ends(s, p, Blocks(questions, [s[p + |Anchor(questions[0])|..]]))
  {
    hide Anchor;
    var anchor := Anchor(questions[0]);
    var rest := s[p + |anchor|..];
    assert Blocks(questions, [rest]) == anchor + rest;
    assert s[p + |anchor|..p + |anchor| + |rest|] == rest;
    AtConcat(s, p, anchor, rest);
  }

  lemma ParsedReprints(questions: seq<Question>, transcript: Str)
    requires questions != [] && Recover(questions, transcript, 0).Some?
    ensures Format(questions, Recover(questions, transcript, 0).value) == transcript
  {
    var answers := Recover(questions, transcript, 0).value;
    RecoverReprints(transcript, 0, questions);
    FormatIsBlocks(questions, answers);
    assert transcript[0..|transcript|] == transcript;
  }

  // ---- When the parse succeeds ----

  predicate NoLineFeed(s: Str) {
    forall k :: 0 <= k < |s| ==> s[k] != LF
  }

  predicate OnOneLine(questions: seq<Question>, answers: seq<Str>) {
    && (forall i :: 0 <= i < |questions| ==> NoLineFeed(questions[i].text))
    && (forall i :: 0 <= i < |answers| ==> NoLineFeed(answers[i]))
  }

  /** No two of these questions are worded alike. */
  predicate Distinct(questions: seq<Question>) {
    forall i, j :: 0 <= i < j < |questions| ==> questions[i].text != questions[j].text
  }

  predicate Asks(questions: seq<Question>, text: Str) {
    exists i :: 0 <= i < |questions| && questions[i].text == text
  }

  lemma AtFrom(s: Str, i: nat, w: Str)
    requires At(s, i, w)
    ensures forall j :: i <= j < i + |w| ==> s[j] == w[j - i]
  {
    forall j | i <= j < i + |w| ensures s[j] == w[j - i] { AtIndex(s, i, w, j - i); }
  }

  /** The first line feed of a one-line question's anchor is the one after its text. */
  lemma FirstBreak(q: Question, d: nat)
    requires NoLineFeed(q.text) && d <= |q.text|
    ensures Anchor(q)[3 + d] == LF <==> d == |q.text|
  {
    assert Anchor(q)[3..3 + |q.text|] == q.text;
    assert d < |q.text| ==> Anchor(q)[3 + d] == Anchor(q)[3..3 + |q.text|][d];
  }

  /** Anchors of one-line questions stand at the same place only if they ask the same. */
  lemma SameAnchor(s: Str, i: nat, q: Question, r: Question)
    requires At(s, i, Anchor(q)) && At(s, i, Anchor(r)) && NoLineFeed(q.text) && NoLineFeed(r.text)
    ensures q.text == r.text
  {
    var d := if |q.text| <= |r.text| then |q.text| else |r.text|;
    AtAll(s, i, Anchor(q));
    AtAll(s, i, Anchor(r));
    FirstBreak(q, d);
    FirstBreak(r, d);
    assert s[i + (3 + d)] == Anchor(q)[3 + d] == Anchor(r)[3 + d];
    assert s[i + 3..i + (3 + d)] == Anchor(q)[3..3 + d] == Anchor(r)[3..3 + d];
    assert Anchor(q)[3..3 + |q.text|] == q.text && Anchor(r)[3..3 + |r.text|] == r.text;
  }

  /** A separator holds two line feeds in a row only at its start. */
  lemma BreakOnlyAtStart(q: Question, d: nat)
    requires NoLineFeed(q.text) && 0 < d < |Separator(q)| && Separator(q)[d] == LF
    ensures d + 1 < |Separator(q)| && Separator(q)[d + 1] != LF
  {
    var w := Separator(q);
    var n := 5 + |q.text|;
    AtFrom(w, 5, q.text);
    assert w[2] == 'Q' as int && w[n + 1] == 'A' as int;
  }

  /** Up to the end of the next separator, only that separator can be found, and only
      for a question worded like the next one. */
  lemma OnlyTheNext(s: Str, p: nat, a: Str, q: Question, r: Question, k: nat)
    requires NoLineFeed(a) && NoLineFeed(q.text) && NoLineFeed(r.text)
    requires At(s, p, a) && At(s, p + |a|, Separator(q)) && p <= k < p + |a| + |Separator(q)|
    ensures At(s, k, Separator(r)) ==> k == p + |a| && q.text == r.text
  {
    var e := p + |a|;
    if At(s, k, Separator(r)) {
      hide Anchor;
      StartsWithBreaks(s, k, r);
      AtFrom(s, p, a);
      AtFrom(s, e, Separator(q));
      if k > e { BreakOnlyAtStart(q, k - e); }
      AtConcat(s, e, BLANK, Anchor(q));
      AtConcat(s, e, BLANK, Anchor(r));
      SameAnchor(s, e + 2, q, r);
    }
  }

  lemma NoneInLast(s: Str, p: nat, a: Str, q: Question, k: nat)
    requires NoLineFeed(a) && Ends(s, p, a) && p <= k
    ensures !At(s, k, Separator(q))
  {
    AtFrom(s, p, a);
    StartsWithBreaks(s, k, q);
  }

  /** After a question's anchor, the separator of a question not asked later never occurs. */
  lemma {:induction false} NotAskedNotFound(s: Str, p: nat, questions: seq<Question>, answers: seq<Str>,
                                            q: Question, k: nat)
    requires |questions| == |answers| > 0 && OnOneLine(questions, answers) && NoLineFeed(q.text)
    requires Ends(s, p, Tail(questions, answers)) && p <= k
    requires !Asks(questions[1..], q.text)
    ensures !At(s, k, Separator(q))
    decreases |questions|
  {
    hide Separator, Anchor;
    if |questions| == 1 {
      assert Tail(questions, answers) == answers[0];
      NoneInLast(s, p, answers[0], q, k);
    } else {
      var rest := questions[1..];
      TailSplit(s, p, questions, answers);
      var next := p + |answers[0]| + 2 + |Anchor(questions[1])|;
      assert rest[0] == questions[1];
      if k < next {
        SeparatorLength(questions[1]);
        OnlyTheNext(s, p, answers[0], questions[1], q, k);
      } else {
        forall i | 0 <= i < |rest[1..]| ensures rest[1..][i].text != q.text {
          assert rest[1..][i] == rest[i + 1];
        }
        NotAskedNotFound(s, next, rest, answers[1..], q, k);
      }
    }
  }

  lemma SeparatorLength(q: Question)
    ensures |Separator(q)| == 2 + |Anchor(q)|
  {
  }

  /** The separator of every later question occurs after this question's anchor. */
  lemma {:induction false} AskedIsFound(s: Str, p: nat, questions: seq<Question>, answers: seq<Str>, j: nat)
    returns (k: nat)
    requires |questions| == |answers| && 1 <= j < |questions| && Ends(s, p, Tail(questions, answers))
    ensures p <= k && At(s, k, Separator(questions[j]))
    ensures j > 1 ==> k >= p + |answers[0]| + 2
    decreases |questions|
  {
    TailSplit(s, p, questions, answers);
    if j == 1 {
      k := p + |answers[0]|;
    } else {
      k := AskedIsFound(s, p + |answers[0]| + 2 + |Anchor(questions[1])|, questions[1..], answers[1..], j - 1);
    }
  }

  lemma {:induction false} RecoverSucceedsIff(s: Str, p: nat, questions: seq<Question>, answers: seq<Str>)
    requires |questions| == |answers| > 0 && OnOneLine(questions, answers)
    requires Ends(s, p, Blocks(questions, answers))
    ensures Recover(questions, s, p).Some? <==> Distinct(questions[1..])
    decreases |questions|
  {
    hide Anchor, Separator, Find, Tail, Distinct, OnOneLine;
    var start := p + |Anchor(questions[0])|;
    EndsConcat(s, p, Anchor(questions[0]), Tail(questions, answers));
    if |questions| == 1 {
      OneIsDistinct(questions[1..]);
    } else {
      var rest := questions[1..];
      TailSplit(s, start, questions, answers);
      var e := start + |answers[0]|;
      if Asks(rest[1..], rest[0].text) {
        RepeatedGivesUp(s, start, questions, answers);
        RepeatedIsNotDistinct(rest);
      } else {
        forall k: nat | start <= k && k != e ensures !At(s, k, Separator(questions[1])) {
          OnlyOnce(s, start, questions, answers, k);
        }
        OneLineRest(questions, answers);
        RecoverSucceedsIff(s, e + 2, rest, answers[1..]);
        DistinctCons(rest);
      }
    }
  }

  lemma OneIsDistinct(questions: seq<Question>)
    requires |questions| <= 1
    ensures Distinct(questions)
  {
  }

  lemma OneLineRest(questions: seq<Question>, answers: seq<Str>)
    requires |questions| == |answers| > 1 && OnOneLine(questions, answers)
    ensures OnOneLine(questions[1..], answers[1..])
  {
  }

  lemma RepeatedIsNotDistinct(questions: seq<Question>)
    requires questions != [] && Asks(questions[1..], questions[0].text)
    ensures !Distinct(questions)
  {
    var j :| 0 <= j < |questions[1..]| && questions[1..][j].text == questions[0].text;
    assert questions[j + 1].text == questions[0].text;
  }

  /** A later question worded like the next one makes its separator ambiguous. */
  lemma RepeatedGivesUp(s: Str, start: nat, questions: seq<Question>, answers: seq<Str>)
    requires |questions| == |answers| > 1 && Ends(s, start, Tail(questions, answers))
    requires Asks(questions[1..][1..], questions[1].text)
    ensures var end := Find(s, Separator(questions[1]), start);
      end == -1 || Find(s, Separator(questions[1]), end + 2) != -1
  {
    hide Tail;
    var rest := questions[1..];
    var j :| 0 <= j < |rest[1..]| && rest[1..][j].text == questions[1].text;
    assert rest[1..][j] == questions[j + 2];
    var k := AskedIsFound(s, start, questions, answers, j + 2);
    assert Separator(questions[j + 2]) == Separator(questions[1]);
    TailSplit(s, start, questions, answers);
  }

  lemma DistinctCons(questions: seq<Question>)
    requires questions != [] && !Asks(questions[1..], questions[0].text)
    ensures Distinct(questions) <==> Distinct(questions[1..])
  {
    forall j | 0 < j < |questions| ensures questions[j].text != questions[0].text {
      assert questions[1..][j - 1] == questions[j];
    }
    if Distinct(questions[1..]) {
      forall i, j | 0 < i < j < |questions| ensures questions[i].text != questions[j].text {
        assert questions[1..][i - 1] == questions[i] && questions[1..][j - 1] == questions[j];
      }
    }
  }

  lemma OnlyOnce(s: Str, p: nat, questions: seq<Question>, answers: seq<Str>, k: nat)
    requires |questions| == |answers| > 1 && OnOneLine(questions, answers)
    requires Ends(s, p, Tail(questions, answers)) && p <= k && k != p + |answers[0]|
    requires !Asks(questions[1..][1..], questions[1].text)
    ensures !At(s, k, Separator(questions[1]))
  {
    TailSplit(s, p, questions, answers);
    var next := p + |answers[0]| + 2 + |Anchor(questions[1])|;
    if k >= next {
      NotAskedNotFound(s, next, questions[1..], answers[1..], questions[1], k);
    } else {
      SeparatorLength(questions[1]);
      OnlyTheNext(s, p, answers[0], questions[1], questions[1], k);
    }
  }

  /** With one-line questions and answers the transcript parses exactly when no two
      questions after the first are worded alike; it then gives the answers back. */
  lemma ParseSucceedsIff(questions: seq<Question>, answers: seq<Str>)
    requires |questions| == |answers| > 0 && OnOneLine(questions, answers)
    ensures Recover(questions, Format(questions, answers), 0)
            == if Distinct(questions[1..]) then Some(answers) else None
  {
    FormatIsBlocks(questions, answers);
    var s := Blocks(questions, answers);
    assert s[0..|s|] == s;
    RecoverSucceedsIff(s, 0, questions, answers);
    NeverMisattributes(questions, answers);
  }

  lemma LitOneLine(s: string)
    requires forall k :: 0 <= k < |s| ==> s[k] != '\n'
    ensures NoLineFeed(Lit(s))
  {
  }

  /** Of three questions the last two worded alike already defeat the parser, the first and
      the last do not. */
  lemma RepeatedQuestions(a: Question, b: Question, x: Str)
    requires a.text == Lit("Which file?") && b.text == Lit("Which branch?") && x == Lit("main")
    ensures Recover([a, b, b], Format([a, b, b], [x, x, x]), 0) == None
    ensures Recover([a, b, a], Format([a, b, a], [x, x, x]), 0) == Some([x, x, x])
  {
    hide Recover, Format, Lit;
    LitOneLine("Which file?");
    LitOneLine("Which branch?");
    LitOneLine("main");
    LitDiffers("Which file?", "Which branch?");
    ParseSucceedsIff([a, b, b], [x, x, x]);
    ParseSucceedsIff([a, b, a], [x, x, x]);
    assert [a, b, b][1..] == [b, b] && [a, b, a][1..] == [b, a];
    assert [b, b][0].text == [b, b][1].text;
  }

  lemma LitDiffers(s: string, t: string)
    requires |s| != |t|
    ensures Lit(s) != Lit(t)
  {
  }

  // ---- What the renderer shows ----

  /** The text shown for a printed transcript: when it parses and some answer unpacks, all
      blocks with the answers that were given, unpacked; otherwise nothing. */
  lemma RenderShowsTheAnswers(questions: seq<Question>, answers: seq<Str>)
    requires questions != []
    ensures var given := Padded(questions, answers);
      Rendered(questions, Format(questions, answers)) ==
        if Recover(questions, Format(questions, answers), 0).Some?
           && exists i :: 0 <= i < |questions| && Unpacked(questions[i], given[i]) != given[i]
        then Some(Join(BLANK, DisplayBlocks(questions, given, |questions|)))
        else None
  {
    NeverMisattributes(questions, answers);
    hide Recover, Format, Unpacked, Join, DisplayBlocks;
  }

  /** The answer a person should see: the picks of a multi-select question one per line. */
  function Picked(q: Question, answer: Str, picks: seq<Str>): Str {
    if !q.kind.MultiSelect? then answer
    else if picks == [] then NOTHING_SELECTED
    else Join([LF], picks)
  }

  /** The blocks a person should see. */
  function PickedBlocks(questions: seq<Question>, answers: seq<Str>, picks: seq<seq<Str>>): seq<Str>
    requires |questions| == |answers| == |picks|
  {
    seq(|questions|, i requires 0 <= i < |questions| =>
      Anchor(questions[i]) + Picked(questions[i], answers[i], picks[i]))
  }

  lemma {:induction false} EscapedIsNoShorter(t: Str)
    ensures |EscapeTail(t, false)| >= |t| + 1
  {
    hide EscapeCode;
    if t != [] { EscapedIsNoShorter(t[1..]); }
  }

  lemma {:induction false} ItemsAreLonger(picks: seq<Str>)
    requires picks != []
    ensures WellFormedItems(Texts(picks)) && |DumpsItems(Texts(picks), false)| > |Join([LF], picks)|
  {
    hide EscapeTail;
    TextsWellFormed(picks);
    EscapedIsNoShorter(picks[0]);
    var vs := Texts(picks);
    assert Dumps(vs[0], false) == DumpsText(picks[0], false);
    if |picks| > 1 {
      ItemsAreLonger(picks[1..]);
      assert vs[1..] == Texts(picks[1..]);
    }
  }

  /** Unpacking an encoded selection always changes it. */
  lemma PickedIsNotEncoded(q: Question, picks: seq<Str>)
    requires q.kind.MultiSelect?
    ensures Picked(q, EncodeMultiSelect(picks), picks) != EncodeMultiSelect(picks)
  {
    TextsWellFormed(picks);
    if picks == [] {
      assert |NOTHING_SELECTED| == 18 && |Lit("[]")| == 2;
    } else {
      hide DumpsItems, Join;
      ItemsAreLonger(picks);
    }
  }

  /** One answer as it arrives, and as it is shown. */
  lemma SelectionIsShown(q: Question, answer: Str, picks: seq<Str>)
    requires if q.kind.MultiSelect? then answer == EncodeMultiSelect(picks) else NoLineFeed(answer)
    ensures NoLineFeed(answer)
    ensures Unpacked(q, answer) == Picked(q, answer, picks)
    ensures Unpacked(q, answer) != answer <==> q.kind.MultiSelect?
  {
    hide EncodeMultiSelect, DecodeMultiSelect, Join;
    if q.kind.MultiSelect? {
      MultiSelectRoundTrip(picks);
      EncodedIsOneLine(picks);
      PickedIsNotEncoded(q, picks);
    }
  }

  /** Multi-select answers arrive encoded and may hold any text; the questions and the
      other answers are one-line, and no two questions after the first are worded alike.
      Then the transcript parses, and what is shown is every question with its picks one per
      line, or the transcript itself when no question is multi-select. */
  lemma SelectionsAreShown(questions: seq<Question>, answers: seq<Str>, picks: seq<seq<Str>>)
    requires |questions| == |answers| == |picks| > 0 && Distinct(questions[1..])
    requires forall i :: 0 <= i < |questions| ==> NoLineFeed(questions[i].text)
    requires forall i :: 0 <= i < |questions| ==>
      if questions[i].kind.MultiSelect? then answers[i] == EncodeMultiSelect(picks[i]) else NoLineFeed(answers[i])
    ensures Recover(questions, Format(questions, answers), 0) == Some(answers)
    ensures Rendered(questions, Format(questions, answers)) ==
      if exists i :: 0 <= i < |questions| && questions[i].kind.MultiSelect?
      then Some(Join(BLANK, PickedBlocks(questions, answers, picks))) else None
  {
    hide Recover, Format, EncodeMultiSelect, Join, Anchor, Unpacked, Picked, NoLineFeed;
    forall i | 0 <= i < |questions|
      ensures NoLineFeed(answers[i])
      ensures Unpacked(questions[i], answers[i]) == Picked(questions[i], answers[i], picks[i])
      ensures Unpacked(questions[i], answers[i]) != answers[i] <==> questions[i].kind.MultiSelect?
    {
      SelectionIsShown(questions[i], answers[i], picks[i]);
    }
    ParseSucceedsIff(questions, answers);
    RenderShowsTheAnswers(questions, answers);
    assert DisplayBlocks(questions, answers, |questions|) == PickedBlocks(questions, answers, picks);
  }
}
