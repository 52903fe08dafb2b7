/** What a person is shown of an ask-user transcript, answer by answer. */
module AnswerDisplay {
  import opened Text
  import opened Wrappers
  import opened Json
  import opened JsonPrinter
  import opened AskUser
  import opened Transcript

  /** The answer decodes to a list of strings. */
  ghost predicate Decodes(answer: Str) {
    exists picks :: Lists(answer, picks)
  }

  /** Reading a multi-select answer succeeds exactly on lists of strings. */
  lemma DecodesTo(answer: Str, picks: seq<Str>)
    ensures DecodeMultiSelect(answer) == Some(picks) <==> Lists(answer, picks)
  {
    hide Loads, Strings;
    match Loads(answer)
    case Some(Array(items)) => StringsIff(items, picks);
    case _ =>
  }

  lemma DecodesIff(answer: Str)
    ensures DecodeMultiSelect(answer).Some? <==> Decodes(answer)
  {
    hide Lists, DecodeMultiSelect;
    if DecodeMultiSelect(answer).Some? { DecodesTo(answer, DecodeMultiSelect(answer).value); }
    if picks :| Lists(answer, picks) { DecodesTo(answer, picks); }
  }

  /** A multi-select answer is empty when it decodes to no picks or not at all, any other
      when it holds nothing but whitespace. */
  lemma EmptyIff(answer: Str)
    ensures AnswerIsEmpty(answer, MultiSelect) <==> Lists(answer, []) || !Decodes(answer)
    ensures forall kind: QuestionType :: kind != MultiSelect ==>
      (AnswerIsEmpty(answer, kind) <==> forall k :: 0 <= k < |answer| ==> IsSpace(answer[k]))
  {
    hide Lists, DecodeMultiSelect;
    DecodesTo(answer, []);
    DecodesIff(answer);
  }

  // ---- What is shown always differs from what was decoded ----

  lemma {:induction false} TailIsLonger(s: Str, i: nat)
    requires i <= |s| && StringTail(s, i).Some?
    ensures |StringTail(s, i).value.0| < StringTail(s, i).value.1 - i
    decreases |s| - i
  {
    hide Escape;
    if s[i] == '"' as int {
    } else if s[i] == '\\' as int {
      TailIsLonger(s, Escape(s, i + 1).value.1);
    } else {
      TailIsLonger(s, i + 1);
    }
  }

  lemma TextIsLonger(s: Str, i: nat)
    requires i <= |s| && ParseValue(s, i).Some? && ParseValue(s, i).value.0.Text?
    ensures |ParseValue(s, i).value.0.text| + 2 <= ParseValue(s, i).value.1 - i
  {
    if s[i] == '"' as int { TailIsLonger(s, i + 1); }
  }

  /** The picks one per line are shorter than the elements they were read from. */
  lemma {:induction false} ElementsAreLonger(s: Str, i: nat, picks: seq<Str>)
    requires i <= |s| && Elements(s, i).Some?
    requires var vs := Elements(s, i).value.0;
      |vs| == |picks| && forall k :: 0 <= k < |vs| ==> vs[k] == Text(picks[k])
    ensures picks != [] && |Join([LF], picks)| < Elements(s, i).value.1 - i
    decreases |s| - i
  {
    hide ParseValue, SkipWs, Join;
    var (vs, j) := Elements(s, i).value;
    var (v, e) := ParseValue(s, i).value;
    assert vs[0] == v == Text(picks[0]);
    TextIsLonger(s, i);
    var k := SkipWs(s, e);
    JoinFirst(picks);
    if s[k] != ']' as int {
      var rest := vs[1..];
      assert forall k :: 0 <= k < |rest| ==> rest[k] == Text(picks[1..][k]);
      ElementsAreLonger(s, SkipWs(s, k + 1), picks[1..]);
    }
  }

  lemma JoinFirst(picks: seq<Str>)
    ensures |picks| == 1 ==> Join([LF], picks) == picks[0]
    ensures |picks| > 1 ==> |Join([LF], picks)| == |picks[0]| + 1 + |Join([LF], picks[1..])|
  {
  }

  lemma ParenthesisIsNoJson(s: Str)
    requires s != [] && s[0] == '(' as int
    ensures Loads(s).None?
  {
    ScalarDispatch(s, 0);
    NotMinusInfinity(s, 0);
  }

  lemma DecodedIsChanged(answer: Str, picks: seq<Str>)
    requires Lists(answer, picks)
    ensures (if picks == [] then Lit("(nothing selected)") else Join([LF], picks)) != answer
  {
    if picks == [] {
      var shown := Lit("(nothing selected)");
      assert shown[0] == '(' as int;
      ParenthesisIsNoJson(shown);
    } else {
      ArrayIsLonger(answer, picks);
    }
  }

  lemma ArrayIsLonger(answer: Str, picks: seq<Str>)
    requires Lists(answer, picks) && picks != []
    ensures |Join([LF], picks)| < |answer|
  {
    var i := SkipWs(answer, 0);
    var v := ParseValue(answer, i).value.0;
    var k := SkipWs(answer, i + 1);
    assert answer[i] == '[' as int by {
      if answer[i] != '[' as int { ArrayStartsWithBracket(answer, i); }
    }
    ElementsAreLonger(answer, k, picks);
  }

  lemma ArrayStartsWithBracket(s: Str, i: nat)
    requires i < |s| && ParseValue(s, i).Some? && ParseValue(s, i).value.0.Array?
    ensures s[i] == '[' as int
  {
  }

  // ---- The transcript, spelt out ----

  lemma {:induction false} JoinPush(separator: Str, blocks: seq<Str>, block: Str)
    requires blocks != []
    ensures Join(separator, blocks + [block]) == Join(separator, blocks) + separator + block
  {
    if |blocks| == 1 {
      assert (blocks + [block])[1..] == [block];
    } else {
      assert (blocks + [block])[1..] == blocks[1..] + [block];
      JoinPush(separator, blocks[1..], block);
    }
  }

  /** One block is the question and its answer; a further one follows after a blank line. */
  lemma FormatMeans(questions: seq<Question>, answers: seq<Str>, q: Question, answer: Str)
    requires |questions| == |answers|
    ensures Format([], answers) == []
    ensures Format([q], [answer]) == Lit("Q: ") + q.text + Lit("\nA: ") + answer
    ensures Format([q], []) == Lit("Q: ") + q.text + Lit("\nA: (no answer)")
    ensures questions != [] ==>
      Format(questions + [q], answers + [answer]) ==
      Format(questions, answers) + (Lit("\n\nQ: ") + q.text + Lit("\nA: ") + answer)
  {
    assert Lit("\nA: ") + Lit("(no answer)") == Lit("\nA: (no answer)");
    if questions != [] {
      var block := Anchor(q) + answer;
      assert BLANK + Lit("Q: ") == Lit("\n\nQ: ");
      assert BLANK + block == Lit("\n\nQ: ") + q.text + Lit("\nA: ") + answer;
      FormatPush(questions, answers, q, answer);
      hide Format, Anchor, Lit;
    }
  }

  lemma FormatPush(questions: seq<Question>, answers: seq<Str>, q: Question, answer: Str)
    requires |questions| == |answers| > 0
    ensures Format(questions + [q], answers + [answer])
         == Format(questions, answers) + (BLANK + (Anchor(q) + answer))
  {
    hide Anchor, Join;
    var blocks := BlockList(questions, answers);
    assert BlockList(questions + [q], answers + [answer]) == blocks + [Anchor(q) + answer];
    FormatIsJoin(questions, answers);
    FormatIsJoin(questions + [q], answers + [answer]);
    JoinPush(BLANK, blocks, Anchor(q) + answer);
  }

  lemma FormatIsJoin(questions: seq<Question>, answers: seq<Str>)
    requires |questions| == |answers|
    ensures Format(questions, answers) == Join(BLANK, BlockList(questions, answers))
  {
    hide Anchor, Join;
    assert BlockList(questions, answers)
        == seq(|questions|, i requires 0 <= i < |questions| => Anchor(questions[i]) + AnswerAt(answers, i));
  }

  // ---- What is shown ----

  /** What stands in the place of an answer: the answer itself, character for character,
      unless it is a multi-select one that decodes to a list of strings; then the strings
      one per line, or a placeholder when there are none. */
  ghost predicate ShownFor(q: Question, answer: Str, shown: Str) {
    && (q.kind != MultiSelect || !Decodes(answer) ==> shown == answer)
    && (q.kind == MultiSelect ==> forall picks :: Lists(answer, picks) ==>
          shown == if picks == [] then Lit("(nothing selected)") else Join([LF], picks))
  }

  /** Some multi-select answer decodes to a list of strings. */
  ghost predicate SomeDecodes(questions: seq<Question>, answers: seq<Str>)
    requires |questions| == |answers|
  {
    exists i :: 0 <= i < |questions| && questions[i].kind == MultiSelect && Decodes(answers[i])
  }

  lemma UnpackedIsShown(q: Question, answer: Str)
    ensures ShownFor(q, answer, Unpacked(q, answer))
    ensures Unpacked(q, answer) != answer <==> q.kind == MultiSelect && Decodes(answer)
  {
    hide Lists, DecodeMultiSelect, Join;
    DecodesIff(answer);
    if q.kind == MultiSelect {
      forall picks | Lists(answer, picks)
        ensures Unpacked(q, answer) == if picks == [] then Lit("(nothing selected)") else Join([LF], picks)
      {
        DecodesTo(answer, picks);
      }
      if DecodeMultiSelect(answer).Some? {
        var picks := DecodeMultiSelect(answer).value;
        DecodesTo(answer, picks);
        DecodedIsChanged(answer, picks);
      }
    }
  }

  /** The texts shown for the answers recovered. */
  lemma DisplayedIff(questions: seq<Question>, answers: seq<Str>)
    requires |questions| == |answers|
    ensures Display(questions, answers).Some? <==> SomeDecodes(questions, answers)
    ensures Display(questions, answers).Some? ==>
      exists shown: seq<Str> ::
        && |shown| == |questions| && Display(questions, answers) == Some(Format(questions, shown))
        && forall i :: 0 <= i < |questions| ==> ShownFor(questions[i], answers[i], shown[i])
  {
    hide Unpacked, ShownFor, Decodes, Join, Anchor, Format;
    var shown := seq(|questions|, i requires 0 <= i < |questions| => Unpacked(questions[i], answers[i]));
    forall i | 0 <= i < |questions|
      ensures ShownFor(questions[i], answers[i], shown[i])
      ensures Unpacked(questions[i], answers[i]) != answers[i] <==>
              questions[i].kind == MultiSelect && Decodes(answers[i])
    {
      UnpackedIsShown(questions[i], answers[i]);
    }
    FormatIsJoin(questions, shown);
    assert BlockList(questions, shown) == DisplayBlocks(questions, answers, |questions|);
  }

  /** Something else than the transcript is shown exactly when it parses and some multi-select
      answer in it decodes; it is then the same transcript with, in the place of each answer,
      that answer character for character or, for the decoding ones, their picks. */
  lemma RenderedIff(questions: seq<Question>, transcript: Str)
    requires questions != []
    ensures Recover(questions, transcript, 0).None? ==> Rendered(questions, transcript) == None
    ensures Recover(questions, transcript, 0).Some? ==>
      var answers := Recover(questions, transcript, 0).value;
      && transcript == Format(questions, answers)
      && (Rendered(questions, transcript).Some? <==> SomeDecodes(questions, answers))
      && (Rendered(questions, transcript).Some? ==>
            exists shown: seq<Str> ::
              && |shown| == |questions| && Rendered(questions, transcript) == Some(Format(questions, shown))
              && forall i :: 0 <= i < |questions| ==> ShownFor(questions[i], answers[i], shown[i]))
  {
    if Recover(questions, transcript, 0).Some? {
      ParsedReprints(questions, transcript);
      DisplayedIff(questions, Recover(questions, transcript, 0).value);
    }
    hide Recover, Format, ShownFor, Decodes, Display, SomeDecodes;
  }

  /** A prompt that failed or was cancelled is shown literally: its placeholder stands for
      every answer, whatever the questions are. */
  lemma PlaceholdersAreLiteral(questions: seq<Question>, answers: seq<Str>)
    requires |questions| == |answers| > 0
    requires forall i :: 0 <= i < |answers| ==> answers[i] != [] && answers[i][0] == '(' as int
    ensures Rendered(questions, Format(questions, answers)) == None
  {
    NeverMisattributes(questions, answers);
    RenderedIff(questions, Format(questions, answers));
    forall i | 0 <= i < |answers| ensures !Decodes(answers[i]) {
      ParenthesisIsNoJson(answers[i]);
    }
    hide Recover, Format, Decodes, Rendered;
  }

  lemma TimeoutText()
    ensures Lit("Q: ") + Lit("Pick") + Lit("\nA: ") + Lit("(error: timeout)") == Lit("Q: Pick\nA: (error: timeout)")
    ensures Lit("(error: timeout)") != [] && Lit("(error: timeout)")[0] == '(' as int
  {
  }

  /** The one question of a prompt that timed out. */
  lemma TimeoutIsLiteral()
    ensures Rendered([Question(Lit("Pick"), MultiSelect)], Lit("Q: Pick\nA: (error: timeout)")) == None
  {
    hide Rendered, Format, Lit;
    var q, answer := Question(Lit("Pick"), MultiSelect), Lit("(error: timeout)");
    TimeoutText();
    FormatMeans([], [], q, answer);
    PlaceholdersAreLiteral([q], [answer]);
  }
}
