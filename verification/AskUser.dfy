/** The ask-user transcript: printed without escaping, and read back by the
    display renderer, which anchors on the questions it knows. */
module AskUser {
  import opened Text
  import opened Wrappers
  import opened Json
  import opened JsonPrinter

  datatype QuestionType = TextAnswer | MultipleChoice | MultiSelect

  datatype Question = Question(text: Str, kind: QuestionType)

  const LF: Code := 10
  const CR: Code := 13
  const BLANK: Str := [LF, LF]

  // ---- Multi-select answers ----

  function EncodeMultiSelect(values: seq<Str>): (r: Str)
    ensures r != []
  {
    TextsWellFormed(values);
    Dumps(Array(Texts(values)), false)
  }

  function DecodeMultiSelect(raw: Str): Option<seq<Str>> {
    match Loads(raw)
    case Some(Array(items)) => Strings(items)
    case _ => None
  }

  /** `not s.strip()` */
  predicate IsBlank(s: Str) {
    forall k :: 0 <= k < |s| ==> IsSpace(s[k])
  }

  predicate AnswerIsEmpty(answer: Str, kind: QuestionType) {
    if kind.MultiSelect? then DecodeMultiSelect(answer).GetOr([]) == []
    else IsBlank(answer)
  }

  /** Every selection survives the wire, whatever characters it holds. */
  lemma MultiSelectRoundTrip(values: seq<Str>)
    ensures DecodeMultiSelect(EncodeMultiSelect(values)) == Some(values)
  {
    hide Loads, Dumps;
    TextsWellFormed(values);
    RereadTexts(values);
    DumpsThenLoads(Array(Texts(values)), false);
  }

  /** An encoded selection reads as empty exactly when nothing was selected. */
  lemma EncodedIsEmptyIff(values: seq<Str>)
    ensures AnswerIsEmpty(EncodeMultiSelect(values), MultiSelect) <==> values == []
  {
    MultiSelectRoundTrip(values);
  }

  predicate OneLine(s: Str) {
    forall k :: 0 <= k < |s| ==> s[k] != LF && s[k] != CR
  }

  lemma {:induction false} EscapeTailOneLine(t: Str)
    ensures OneLine(EscapeTail(t, false))
  {
    hide UnicodeEscape;
    if t != [] {
      EscapeTailOneLine(t[1..]);
      EscapeCodeOneLine(t[0]);
    }
  }

  lemma EscapeCodeOneLine(c: Code)
    ensures OneLine(EscapeCode(c, false))
  {
  }

  lemma {:induction false} ItemsOneLine(values: seq<Str>)
    requires values != []
    ensures WellFormedItems(Texts(values)) && OneLine(DumpsItems(Texts(values), false))
  {
    hide EscapeTail;
    TextsWellFormed(values);
    EscapeTailOneLine(values[0]);
    var vs := Texts(values);
    assert Dumps(vs[0], false) == DumpsText(values[0], false);
    if |values| > 1 {
      ItemsOneLine(values[1..]);
      assert vs[1..] == Texts(values[1..]);
    }
  }

  /** An encoded selection never contains a line break, so it cannot split a block. */
  lemma EncodedIsOneLine(values: seq<Str>)
    ensures OneLine(EncodeMultiSelect(values))
  {
    TextsWellFormed(values);
    if values != [] {
      hide DumpsItems;
      ItemsOneLine(values);
    }
  }

  // ---- The transcript ----

  const NO_ANSWER: Str := Lit("(no answer)")
  const NOTHING_SELECTED: Str := Lit("(nothing selected)")

  function Anchor(q: Question): (r: Str)
    ensures r != []
  {
    Lit("Q: ") + q.text + Lit("\nA: ")
  }

  function Separator(q: Question): Str {
    BLANK + Anchor(q)
  }

  function AnswerAt(answers: seq<Str>, i: nat): Str {
    if i < |answers| then answers[i] else NO_ANSWER
  }

  function Format(questions: seq<Question>, answers: seq<Str>): Str {
    Join(BLANK, seq(|questions|, i requires 0 <= i < |questions| => Anchor(questions[i]) + AnswerAt(answers, i)))
  }

  /** `s.find(w, from)` for a non-empty `w`. */
  function Find(s: Str, w: Str, from: nat): (r: int)
    ensures r == -1 || from <= r
    ensures r >= 0 ==> At(s, r, w)
    ensures forall k: nat :: from <= k && (r == -1 || k < r) ==> !At(s, k, w)
    decreases |s| - from
  {
    if from + |w| > |s| then -1
    else if At(s, from, w) then from
    else if from < |s| then Find(s, w, from + 1)
    else -1
  }

  function After(done: seq<Str>, rest: Option<seq<Str>>): Option<seq<Str>> {
    if rest.None? then None else Some(done + rest.value)
  }

  lemma AfterAfter(a: seq<Str>, b: seq<Str>, rest: Option<seq<Str>>)
    ensures After(a, After(b, rest)) == After(a + b, rest)
  {
    if rest.Some? { assert a + (b + rest.value) == a + b + rest.value; }
  }

  /** What the display parser recovers from the transcript, reading from `position`. */
  function Recover(questions: seq<Question>, transcript: Str, position: nat): (r: Option<seq<Str>>)
    requires questions != []
    ensures r.Some? ==> |r.value| == |questions|
  {
    if !At(transcript, position, Anchor(questions[0])) then None else
    var start := position + |Anchor(questions[0])|;
    if |questions| == 1 then Some([transcript[start..]]) else
    var separator := Separator(questions[1]);
    var end := Find(transcript, separator, start);
    if end == -1 || Find(transcript, separator, end + 2) != -1 then None else
    After([transcript[start..end]], Recover(questions[1..], transcript, end + 2))
  }

  /** One answer as a person reads it. */
  function Unpacked(q: Question, answer: Str): Str {
    if !q.kind.MultiSelect? then answer else
    match DecodeMultiSelect(answer)
    case None => answer
    case Some(values) => if values == [] then NOTHING_SELECTED else Join([LF], values)
  }

  function Display(questions: seq<Question>, answers: seq<Str>): Option<Str>
    requires |questions| == |answers|
  {
    if forall i :: 0 <= i < |questions| ==> Unpacked(questions[i], answers[i]) == answers[i] then None
    else Some(Join(BLANK, DisplayBlocks(questions, answers, |questions|)))
  }

  function DisplayBlocks(questions: seq<Question>, answers: seq<Str>, n: nat): seq<Str>
    requires n <= |questions| == |answers|
  {
    seq(n, i requires 0 <= i < n => Anchor(questions[i]) + Unpacked(questions[i], answers[i]))
  }

  /** The blocks with each multi-select answer unpacked, when that changes anything. */
  method ShowAnswers(questions: seq<Question>, answers: seq<Str>) returns (r: Option<Str>)
    requires |questions| == |answers|
    ensures r == Display(questions, answers)
  {
    hide Anchor, DecodeMultiSelect, Join;
    var changed := false;
    var blocks: seq<Str> := [];
    for i := 0 to |questions|
      invariant blocks == DisplayBlocks(questions, answers, i)
      invariant changed <==> exists k :: 0 <= k < i && Unpacked(questions[k], answers[k]) != answers[k]
    {
      var rendered := answers[i];
      if questions[i].kind.MultiSelect? {
        var values := DecodeMultiSelect(answers[i]);
        if values.Some? {
          rendered := if values.value == [] then NOTHING_SELECTED else Join([LF], values.value);
          changed := changed || rendered != answers[i];
        }
      }
      assert rendered == Unpacked(questions[i], answers[i]);
      blocks := blocks + [Anchor(questions[i]) + rendered];
    }
    if !changed { return None; }
    return Some(Join(BLANK, blocks));
  }

  /** One round of the parser, for the questions from `index` on. */
  lemma RecoverNext(questions: seq<Question>, index: nat, transcript: Str, position: nat)
    requires index < |questions|
    ensures var anchor := Anchor(questions[index]);
      var start := position + |anchor|;
      Recover(questions[index..], transcript, position) ==
        if !At(transcript, position, anchor) then None
        else if index + 1 == |questions| then Some([transcript[start..]])
        else
          var separator := Separator(questions[index + 1]);
          var end := Find(transcript, separator, start);
          if end == -1 || Find(transcript, separator, end + 2) != -1 then None
          else After([transcript[start..end]], Recover(questions[index + 1..], transcript, end + 2))
  {
    hide Find, Anchor, Separator;
    assert questions[index..][1..] == questions[index + 1..];
  }

  /** What is shown for a transcript; `None` when it must be shown literally. */
  function Rendered(questions: seq<Question>, transcript: Str): Option<Str> {
    if questions == [] then None else
    match Recover(questions, transcript, 0)
    case None => None
    case Some(answers) => Display(questions, answers)
  }

  method Render(questions: seq<Question>, transcript: Str) returns (r: Option<Str>)
    ensures r == Rendered(questions, transcript)
  {
    hide Find, Anchor, Separator, Display, DecodeMultiSelect, Join, Recover;
    if questions == [] { return None; }
    var answers: seq<Str> := [];
    var position := 0;
    var index := 0;
    ghost var whole := Recover(questions, transcript, 0);
    assert questions[0..] == questions && (whole.Some? ==> [] + whole.value == whole.value);
    while index < |questions|
      invariant index < |questions| && |answers| == index
      invariant whole == After(answers, Recover(questions[index..], transcript, position))
      decreases |questions| - index
    {
      RecoverNext(questions, index, transcript, position);
      var anchor := Anchor(questions[index]);
      if !At(transcript, position, anchor) { return None; }
      position := position + |anchor|;
      if index + 1 == |questions| {
        answers := answers + [transcript[position..]];
        break;
      }
      var separator := Separator(questions[index + 1]);
      var end := Find(transcript, separator, position);
      if end == -1 || Find(transcript, separator, end + 2) != -1 { return None; }
      AfterAfter(answers, [transcript[position..end]], Recover(questions[index + 1..], transcript, end + 2));
      answers := answers + [transcript[position..end]];
      position := end + 2;
      index := index + 1;
    }
    assert whole == Some(answers);
    r := ShowAnswers(questions, answers);
  }
}
