/** What each variable of the server environment means to the reader, spelt out. */
module ServerReading {
  import opened Text
  import opened Wrappers
  import opened Json
  import opened JsonPrinter
  import opened ServerConfig

  // ---- Numbers ----

  /** Spaces, tabs and line breaks only. */
  predicate BlankBytes(s: Str) {
    forall k :: 0 <= k < |s| ==> 9 <= s[k] <= 13 || s[k] == 32
  }

  /** A digit, or an underscore right after one. */
  predicate DigitAt(w: Str, k: nat)
    requires k < |w|
  {
    IsDigit(w[k]) || (w[k] == '_' as int && 0 < k && IsDigit(w[k - 1]))
  }

  /** Decimal digits with single underscores between two of them. */
  predicate Numeral(w: Str) {
    w != [] && IsDigit(w[|w| - 1]) && forall k :: 0 <= k < |w| ==> DigitAt(w, k)
  }

  function WithoutUnderscores(w: Str): Str {
    if w == [] then [] else
    WithoutUnderscores(w[..|w| - 1]) + if w[|w| - 1] == '_' as int then [] else [w[|w| - 1]]
  }

  lemma {:induction false} BareDigits(w: Str)
    requires forall k :: 0 <= k < |w| ==> IsDigit(w[k]) || w[k] == '_' as int
    ensures forall k :: 0 <= k < |WithoutUnderscores(w)| ==> IsDigit(WithoutUnderscores(w)[k])
  {
    if w != [] { BareDigits(w[..|w| - 1]); }
  }

  /** The numeral before the last digit, without the underscore between. */
  lemma NumeralStep(w: Str, rest: Str)
    requires |w| > 1 && IsDigit(w[|w| - 1])
    requires rest == if w[|w| - 2] == '_' as int then w[..|w| - 2] else w[..|w| - 1]
    ensures Numeral(w) <==> Numeral(rest)
    ensures WithoutUnderscores(w) == WithoutUnderscores(rest) + [w[|w| - 1]]
  {
    var n := |w| - 1;
    assert forall k :: 0 <= k < |rest| ==> rest[k] == w[k];
    assert w[..n][..n - 1] == w[..n - 1];
    assert forall k :: 0 <= k < |rest| ==> (DigitAt(rest, k) <==> DigitAt(w, k));
    assert DigitAt(w, n);
    if Numeral(w) { assert DigitAt(w, n - 1); }
    if Numeral(rest) {
      forall k | 0 <= k < |w| ensures DigitAt(w, k) {
        if k < |rest| { assert DigitAt(rest, k); }
      }
    }
  }

  lemma DigitsValuePush(s: Str, d: Code)
    requires IsDigit(d) && forall k :: 0 <= k < |s| ==> IsDigit(s[k])
    ensures DigitsValue(s + [d]) == 10 * DigitsValue(s) + (d - '0' as int)
  {
    assert (s + [d])[..|s|] == s;
  }

  lemma UnderscoredStep(w: Str, rest: Str)
    requires |w| > 1 && IsDigit(w[|w| - 1])
    requires rest == if w[|w| - 2] == '_' as int then w[..|w| - 2] else w[..|w| - 1]
    ensures Underscored(rest).None? ==> Underscored(w).None?
    ensures Underscored(rest).Some? ==>
      Underscored(w) == Some(10 * Underscored(rest).value + (w[|w| - 1] - '0' as int))
  {
  }

  lemma OneDigit(w: Str)
    requires |w| == 1 && IsDigit(w[0])
    ensures Numeral(w) && WithoutUnderscores(w) == w
    ensures Underscored(w) == Some(w[0] - '0' as int) && DigitsValue(w) == w[0] - '0' as int
  {
    assert w[..0] == [] && DigitAt(w, 0);
    DigitsValuePush([], w[0]);
    assert [] + [w[0]] == w;
  }

  lemma NoLastDigit(w: Str)
    requires w == [] || !IsDigit(w[|w| - 1])
    ensures Underscored(w).None? && !Numeral(w)
  {
  }

  lemma NumeralIsBareDigits(w: Str)
    requires Numeral(w)
    ensures forall k :: 0 <= k < |WithoutUnderscores(w)| ==> IsDigit(WithoutUnderscores(w)[k])
  {
    forall k | 0 <= k < |w| ensures IsDigit(w[k]) || w[k] == '_' as int {
      assert DigitAt(w, k);
    }
    BareDigits(w);
  }

  /** A numeral is worth what its digits are. */
  lemma {:induction false} NumeralReads(w: Str)
    ensures Underscored(w).Some? <==> Numeral(w)
    ensures Numeral(w) ==>
      && (forall k :: 0 <= k < |WithoutUnderscores(w)| ==> IsDigit(WithoutUnderscores(w)[k]))
      && Underscored(w) == Some(DigitsValue(WithoutUnderscores(w)))
    decreases |w|
  {
    hide Numeral, WithoutUnderscores, DigitsValue, Underscored;
    if Numeral(w) { NumeralIsBareDigits(w); }
    if w == [] || !IsDigit(w[|w| - 1]) {
      NoLastDigit(w);
    } else if |w| == 1 {
      OneDigit(w);
    } else {
      var rest := if w[|w| - 2] == '_' as int then w[..|w| - 2] else w[..|w| - 1];
      NumeralStep(w, rest);
      UnderscoredStep(w, rest);
      NumeralReads(rest);
      if Numeral(rest) { DigitsValuePush(WithoutUnderscores(rest), w[|w| - 1]); }
    }
  }

  // ---- Padding ----

  predicate AllOf(s: Str, blank: Code -> bool) {
    forall k :: 0 <= k < |s| ==> blank(s[k])
  }

  /** Nothing of the class at either end. */
  predicate Bare(s: Str, blank: Code -> bool) {
    s != [] ==> !blank(s[0]) && !blank(s[|s| - 1])
  }

  /** Stripping takes the padding off, whatever it is. */
  lemma {:induction false} StripPadded(before: Str, core: Str, after: Str, blank: Code -> bool)
    requires AllOf(before, blank) && AllOf(after, blank) && Bare(core, blank)
    ensures Strip(before + core + after, blank) == core
    decreases |before| + |after|
  {
    var s := before + core + after;
    if before != [] {
      assert s[1..] == before[1..] + core + after && s[0] == before[0];
      StripPadded(before[1..], core, after, blank);
    } else if after != [] {
      assert s == core + after;
      if core == [] {
        assert s[1..] == [] + [] + after[1..];
        StripPadded([], [], after[1..], blank);
      } else {
        var n := |after| - 1;
        assert s[..|s| - 1] == [] + core + after[..n] && s[|s| - 1] == after[n] && s[0] == core[0];
        StripPadded([], core, after[..n], blank);
      }
    } else {
      assert s == core;
    }
  }

  /** The padding of any text. */
  lemma {:induction false} Padding(s: Str, blank: Code -> bool) returns (before: Str, after: Str)
    ensures AllOf(before, blank) && AllOf(after, blank) && Bare(Strip(s, blank), blank)
    ensures s == before + Strip(s, blank) + after
    decreases |s|
  {
    before, after := [], [];
    if s != [] && blank(s[0]) {
      before, after := Padding(s[1..], blank);
      before := [s[0]] + before;
    } else if s != [] && blank(s[|s| - 1]) {
      before, after := Padding(s[..|s| - 1], blank);
      after := after + [s[|s| - 1]];
    }
  }

  // ---- Whole numbers ----

  /** `raw` is blanks, a sign or none, a numeral and blanks, and so spells `n`. */
  predicate SpelledBy(raw: Str, n: int, before: Str, sign: Str, w: Str, after: Str) {
    && raw == before + (sign + w) + after && BlankBytes(before) && BlankBytes(after)
    && (sign == [] || sign == ['+' as int] || sign == ['-' as int])
    && Numeral(w) && n == Worth(w, sign == ['-' as int])
  }

  ghost predicate Spells(raw: Str, n: int) {
    exists before, sign, w, after :: SpelledBy(raw, n, before, sign, w, after)
  }

  function Worth(w: Str, negative: bool): int
    requires Numeral(w)
  {
    NumeralReads(w);
    var n := DigitsValue(WithoutUnderscores(w));
    if negative then 0 - n else n
  }

  lemma BlanksAre(s: Str)
    ensures BlankBytes(s) <==> AllOf(s, IsBlankByte)
  {
    assert forall k :: 0 <= k < |s| ==> (IsBlankByte(s[k]) <==> 9 <= s[k] <= 13 || s[k] == 32);
  }

  lemma NumeralIsBare(sign: Str, w: Str)
    requires Numeral(w) && (sign == [] || sign == ['+' as int] || sign == ['-' as int])
    ensures w != [] && Bare(sign + w, IsBlankByte) && (sign == [] ==> w[0] != '-' as int && w[0] != '+' as int)
  {
    assert DigitAt(w, 0);
  }

  /** A number is read exactly when it is spelt, and as what it spells; anything else counts
      as absent. */
  lemma IntIff(raw: Str, n: int)
    ensures IntOf(raw) == Some(n) <==> Spells(raw, n)
  {
    hide Strip, Numeral, WithoutUnderscores, DigitsValue, Underscored, BlankBytes, AllOf, Bare;
    if IntOf(raw) == Some(n) {
      var before, after := Padding(raw, IsBlankByte);
      BlanksAre(before);
      BlanksAre(after);
      var s := Strip(raw, IsBlankByte);
      var signed := s[0] == '-' as int || s[0] == '+' as int;
      var sign, w := if signed then [s[0]] else [], if signed then s[1..] else s;
      NumeralReads(w);
      assert s == sign + w;
      assert SpelledBy(raw, n, before, sign, w, after);
    }
    if Spells(raw, n) {
      var before, sign, w, after :| SpelledBy(raw, n, before, sign, w, after);
      BlanksAre(before);
      BlanksAre(after);
      NumeralIsBare(sign, w);
      StripPadded(before, sign + w, after, IsBlankByte);
      NumeralReads(w);
      assert Strip(raw, IsBlankByte) == sign + w;
      assert sign != [] ==> (sign + w)[1..] == w && (sign + w)[0] == sign[0];
      assert sign == [] ==> sign + w == w;
    }
  }

  /** Most significant digit first, both ways. */
  lemma Twelve()
    ensures Decimal(12) == Lit("12") && Decimal(-12) == Lit("-12")
    ensures IntOf(Lit("12")) == Some(12) && IntOf(Lit("-12")) == Some(-12)
  {
    IntRoundTrip(12);
    IntRoundTrip(-12);
    hide IntOf;
    assert Digits(1) == [49] && Digits(12) == [49, 50];
  }

  // ---- The shell allowlist ----

  /** The pieces of a list, each with the spaces around its item. */
  datatype Piece = Piece(before: Str, item: Str, after: Str)

  predicate IsPiece(p: Piece) {
    && AllOf(p.before, IsSpace) && AllOf(p.after, IsSpace) && Bare(p.item, IsSpace)
    && CommaFree(p.before) && CommaFree(p.item) && CommaFree(p.after)
  }

  predicate ArePieces(ps: seq<Piece>) {
    forall k :: 0 <= k < |ps| ==> IsPiece(ps[k])
  }

  function TextOf(p: Piece): Str {
    p.before + p.item + p.after
  }

  /** The text of the list: the padded items with commas between. */
  function Spelt(ps: seq<Piece>): (raw: Str) {
    if ps == [] then [] else
    Spelt(ps[..|ps| - 1]) + (if |ps| == 1 then [] else [',' as int]) + TextOf(ps[|ps| - 1])
  }

  /** The items that are not empty. */
  function Items(ps: seq<Piece>): seq<Str> {
    if ps == [] then [] else
    Items(ps[..|ps| - 1]) + if ps[|ps| - 1].item == [] then [] else [ps[|ps| - 1].item]
  }

  function Texts(ps: seq<Piece>): seq<Str> {
    seq(|ps|, i requires 0 <= i < |ps| => TextOf(ps[i]))
  }

  lemma {:induction false} SplitPush(s: Str, a: Str)
    requires CommaFree(a)
    ensures Split(s + [COMMA] + a) == Split(s) + [a]
  {
    hide CommaFree;
    var t := s + [COMMA] + a;
    if s == [] {
      SplitOne(a, []);
      assert t[1..] == a;
    } else {
      SplitPush(s[1..], a);
      assert t[1..] == s[1..] + [COMMA] + a;
    }
  }

  lemma PieceCommaFree(p: Piece)
    requires IsPiece(p)
    ensures CommaFree(TextOf(p))
  {
    hide AllOf, Bare;
  }

  lemma {:induction false} SplitSpelt(ps: seq<Piece>)
    requires ps != [] && ArePieces(ps)
    ensures Split(Spelt(ps)) == Texts(ps)
  {
    hide Split, IsPiece, TextOf, CommaFree;
    var n := |ps| - 1;
    PieceCommaFree(ps[n]);
    if n == 0 {
      assert Spelt(ps) == TextOf(ps[0]);
      SplitOne(TextOf(ps[0]), []);
    } else {
      SplitSpelt(ps[..n]);
      SplitPush(Spelt(ps[..n]), TextOf(ps[n]));
      assert Texts(ps) == Texts(ps[..n]) + [TextOf(ps[n])];
    }
  }

  /** The item of one piece of text, if there is one. */
  function ItemOf(a: Str): seq<Str> {
    if Strip(a, IsSpace) == [] then [] else [Strip(a, IsSpace)]
  }

  lemma StrippedCons(pieces: seq<Str>)
    requires pieces != []
    ensures StrippedItems(pieces) == ItemOf(pieces[0]) + StrippedItems(pieces[1..])
    ensures StrippedItems([]) == []
  {
    hide Strip;
  }

  lemma {:induction false} StrippedPush(pieces: seq<Str>, a: Str)
    ensures StrippedItems(pieces + [a]) == StrippedItems(pieces) + ItemOf(a)
  {
    hide StrippedItems, ItemOf;
    var all := pieces + [a];
    StrippedCons(all);
    if pieces == [] {
      assert all[1..] == [];
      assert ItemOf(a) + [] == [] + ItemOf(a);
    } else {
      assert all[1..] == pieces[1..] + [a];
      StrippedPush(pieces[1..], a);
      StrippedCons(pieces);
      var x, y, z := ItemOf(pieces[0]), StrippedItems(pieces[1..]), ItemOf(a);
      assert x + (y + z) == x + y + z;
    }
  }

  lemma {:induction false} StrippedTexts(ps: seq<Piece>)
    requires ArePieces(ps)
    ensures StrippedItems(Texts(ps)) == Items(ps)
  {
    if ps != [] {
      var n := |ps| - 1;
      var last := ps[n];
      assert IsPiece(last);
      StrippedTexts(ps[..n]);
      StripPadded(last.before, last.item, last.after, IsSpace);
      StrippedPush(Texts(ps[..n]), TextOf(last));
      assert Texts(ps) == Texts(ps[..n]) + [TextOf(last)];
    }
  }

  /** A shell allowlist is read as its non-empty items without the spaces around them, in
      order, and as none when there are none. */
  lemma ShellListReads(ps: seq<Piece>)
    requires ps != [] && ArePieces(ps)
    ensures ReadShellAllowList(Some(Spelt(ps))) == if Items(ps) == [] then None else Some(Items(ps))
  {
    hide Split, StrippedItems, ArePieces;
    SplitSpelt(ps);
    StrippedTexts(ps);
    if Spelt(ps) == [] { NothingSpelt(ps); }
  }

  lemma {:induction false} NothingSpelt(ps: seq<Piece>)
    requires Spelt(ps) == []
    ensures Items(ps) == []
  {
    if ps != [] { NothingSpelt(ps[..|ps| - 1]); }
  }

  /** The piece that a text without commas is. */
  lemma PieceOf(text: Str) returns (p: Piece)
    requires CommaFree(text)
    ensures IsPiece(p) && TextOf(p) == text
  {
    hide Strip, AllOf, Bare;
    var before, after := Padding(text, IsSpace);
    p := Piece(before, Strip(text, IsSpace), after);
    assert forall i :: 0 <= i < |before| ==> before[i] == text[i];
    assert forall i :: 0 <= i < |p.item| ==> p.item[i] == text[|before| + i];
    assert forall i :: 0 <= i < |after| ==> after[i] == text[|before| + |p.item| + i];
  }

  lemma SpeltPush(ps: seq<Piece>, p: Piece)
    requires ArePieces(ps) && IsPiece(p)
    ensures ArePieces(ps + [p])
    ensures Spelt(ps + [p]) == Spelt(ps) + (if ps == [] then [] else [COMMA]) + TextOf(p)
  {
    hide IsPiece, TextOf;
    assert (ps + [p])[..|ps|] == ps;
  }

  lemma CutAt(s: Str, k: nat)
    requires k < |s| && s[k] == COMMA
    ensures s == s[..k] + [COMMA] + s[k + 1..]
  {
  }

  lemma CommaFreeFrom(s: Str, k: nat)
    requires k <= |s| && forall i :: k <= i < |s| ==> s[i] != COMMA
    ensures CommaFree(s[k..])
  {
  }

  /** The text after the last comma, and the text before that if there is one. */
  lemma LastPiece(raw: Str) returns (more: bool, before: Str, last: Str)
    ensures CommaFree(last)
    ensures more ==> raw == before + [COMMA] + last
    ensures !more ==> raw == last
  {
    hide CommaFree;
    var k: nat := |raw|;
    while k > 0 && raw[k - 1] != COMMA
      invariant k <= |raw| && forall i :: k <= i < |raw| ==> raw[i] != COMMA
    {
      k := k - 1;
    }
    CommaFreeFrom(raw, k);
    if k == 0 { return false, [], raw; }
    CutAt(raw, k - 1);
    return true, raw[..k - 1], raw[k..];
  }

  /** Every text is the text of some pieces. */
  lemma {:induction false} SomePieces(raw: Str)
    ensures exists ps :: ps != [] && ArePieces(ps) && Spelt(ps) == raw
    decreases |raw|
  {
    hide IsPiece, TextOf, ArePieces, Spelt, CommaFree;
    var more, before, last := LastPiece(raw);
    var piece := PieceOf(last);
    var rest: seq<Piece> := [];
    NoPieces();
    if more {
      SomePieces(before);
      rest :| rest != [] && ArePieces(rest) && Spelt(rest) == before;
    }
    SpeltPush(rest, piece);
    assert rest + [piece] != [];
  }

  lemma NoPieces()
    ensures ArePieces([]) && Spelt([]) == []
  {
  }

  // ---- The whole environment ----

  /** `true` in any mixture of cases. */
  predicate SaysTrue(t: Str) {
    |t| == 4 && forall k :: 0 <= k < 4 ==> t[k] == "true"[k] as int || t[k] == "TRUE"[k] as int
  }

  /** The flag a variable stands for, and what it stands for when it is not set. */
  predicate Flag(env: Env, v: Var, default: bool) {
    if v in env then SaysTrue(env[v]) else default
  }

  lemma FlagRead(env: Env, v: Var, default: bool)
    ensures ReadBool(Get(env, v), default) == Flag(env, v, default)
  {
    if v in env { TrueIs(env[v]); }
  }

  lemma TrueIs(t: Str)
    ensures IsTrue(t) <==> SaysTrue(t)
  {
    if IsTrue(t) {
      forall k | 0 <= k < 4 ensures t[k] == "true"[k] as int || t[k] == "TRUE"[k] as int {
        assert k == 0 || k == 1 || k == 2 || k == 3;
      }
    }
    if SaysTrue(t) {
      assert t[0] == "true"[0] as int || t[0] == "TRUE"[0] as int;
      assert t[1] == "true"[1] as int || t[1] == "TRUE"[1] as int;
      assert t[2] == "true"[2] as int || t[2] == "TRUE"[2] as int;
      assert t[3] == "true"[3] as int || t[3] == "TRUE"[3] as int;
    }
  }

  /** The field is what the variable holds, as it stands. */
  predicate Verbatim(field: Option<Str>, env: Env, v: Var) {
    field == if v in env then Some(env[v]) else None
  }

  /** An empty text stands for none. */
  predicate OrNothing(field: Option<Str>, env: Env, v: Var) {
    field == if v in env && env[v] != [] then Some(env[v]) else None
  }

  /** The field is the number the variable spells; other texts stand for none. */
  ghost predicate Number(field: Option<int>, env: Env, v: Var) {
    forall n :: field == Some(n) <==> v in env && Spells(env[v], n)
  }

  /** The field is the value the variable decodes to. */
  predicate Decoded(field: Value, env: Env, v: Var) {
    if v in env then Loads(env[v]) == Some(field) else field == Null
  }

  ghost predicate ShellItems(field: Option<seq<Str>>, env: Env) {
    && (SHELL_ALLOW_LIST !in env ==> field == None)
    && forall ps :: ps != [] && ArePieces(ps) && SHELL_ALLOW_LIST in env && Spelt(ps) == env[SHELL_ALLOW_LIST] ==>
         field == if Items(ps) == [] then None else Some(Items(ps))
  }

  predicate PlainTexts(c: ServerConfig, env: Env) {
    && Verbatim(c.model, env, MODEL) && Verbatim(c.systemPrompt, env, SYSTEM_PROMPT)
    && Verbatim(c.sandboxId, env, SANDBOX_ID) && Verbatim(c.sandboxSetup, env, SANDBOX_SETUP)
    && Verbatim(c.cwd, env, CWD) && Verbatim(c.projectRoot, env, PROJECT_ROOT)
    && Verbatim(c.mcpConfigPath, env, MCP_CONFIG_PATH)
    && OrNothing(c.summarizationModel, env, SUMMARIZATION_MODEL) && OrNothing(c.rubricModel, env, RUBRIC_MODEL)
    && OrNothing(c.autoClassifierModel, env, AUTO_CLASSIFIER_MODEL)
    && OrNothing(c.sandboxSnapshotName, env, SANDBOX_SNAPSHOT_NAME)
    && c.assistantId == (if ASSISTANT_ID in env && env[ASSISTANT_ID] != [] then env[ASSISTANT_ID] else Lit("agent"))
  }

  predicate FlagFields(c: ServerConfig, env: Env) {
    && c.interactive == Flag(env, INTERACTIVE, true) && c.enableShell == Flag(env, ENABLE_SHELL, true)
    && c.enableMemory == Flag(env, ENABLE_MEMORY, true) && c.enableSkills == Flag(env, ENABLE_SKILLS, true)
    && c.autoApprove == Flag(env, AUTO_APPROVE, false)
    && c.interruptShellOnly == Flag(env, INTERRUPT_SHELL_ONLY, false)
    && c.enableAskUser == Flag(env, ENABLE_ASK_USER, false)
    && c.enableInterpreter == Flag(env, ENABLE_INTERPRETER, false)
    && c.interpreterPtcAcknowledgeUnsafe == Flag(env, INTERPRETER_PTC_ACKNOWLEDGE_UNSAFE, false)
    && c.noMcp == Flag(env, NO_MCP, false)
    && c.trustProjectExtensions == Flag(env, TRUST_PROJECT_EXTENSIONS, false)
    && c.trustProjectMcp == (if TRUST_PROJECT_MCP in env then Some(SaysTrue(env[TRUST_PROJECT_MCP])) else None)
  }

  ghost predicate NumberFields(c: ServerConfig, env: Env) {
    && Number(c.cliMaxRetries, env, MAX_RETRIES) && Number(c.rubricMaxIterations, env, RUBRIC_MAX_ITERATIONS)
    && Number(c.recursionLimit, env, RECURSION_LIMIT) && ShellItems(c.shellAllowList, env)
  }

  ghost predicate JsonFields(c: ServerConfig, env: Env) {
    && Decoded(c.modelParams, env, MODEL_PARAMS) && Decoded(c.profileOverrides, env, PROFILE_OVERRIDES)
    && Decoded(c.interpreterPtc, env, INTERPRETER_PTC)
    && PathsAndTools(c.extensionPaths, c.allowFsTools, env)
  }

  ghost predicate PathsAndTools(paths: seq<Str>, tools: Option<seq<Str>>, env: Env) {
    && (if EXTENSION_PATHS in env && Loads(env[EXTENSION_PATHS]) != Some(Null)
        then Lists(env[EXTENSION_PATHS], paths) else paths == [])
    && (if ALLOW_FS_TOOLS in env then tools.Some? && ToolsOf(env[ALLOW_FS_TOOLS], tools.value) else tools == None)
  }

  /** The text lists these tools of the filesystem, reading among them. */
  ghost predicate ToolsOf(text: Str, names: seq<Str>) {
    && Lists(text, names) && Lit("read_file") in names
    && forall k :: 0 <= k < |names| ==>
         names[k] in {Lit("ls"), Lit("read_file"), Lit("write_file"), Lit("edit_file"), Lit("delete"), Lit("glob"),
                      Lit("grep"), Lit("execute")}
  }

  lemma NumberRead(env: Env, v: Var)
    ensures Number(ReadInt(Get(env, v)), env, v)
  {
    hide IntOf, Spells;
    if v in env {
      forall n ensures IntOf(env[v]) == Some(n) <==> Spells(env[v], n) { IntIff(env[v], n); }
    }
  }

  lemma ShellRead(env: Env)
    ensures ShellItems(ReadShellAllowList(Get(env, SHELL_ALLOW_LIST)), env)
  {
    hide Spelt, Items, ArePieces, Split, StrippedItems;
    forall ps | ps != [] && ArePieces(ps) && SHELL_ALLOW_LIST in env && Spelt(ps) == env[SHELL_ALLOW_LIST]
      ensures ReadShellAllowList(Some(env[SHELL_ALLOW_LIST])) == if Items(ps) == [] then None else Some(Items(ps))
    {
      ShellListReads(ps);
    }
  }

  /** Which extension paths can be read. */
  lemma PathsRead(env: Env, names: seq<Str>)
    ensures ReadStrList(Get(env, EXTENSION_PATHS)) == Some(names) <==>
      if EXTENSION_PATHS in env && Loads(env[EXTENSION_PATHS]) != Some(Null)
      then Lists(env[EXTENSION_PATHS], names) else names == []
  {
    hide Loads, Strings;
    if EXTENSION_PATHS in env && Loads(env[EXTENSION_PATHS]).Some? && Loads(env[EXTENSION_PATHS]).value.Array? {
      StringsIff(Loads(env[EXTENSION_PATHS]).value.items, names);
    }
  }

  /** Which tool lists can be read, and used. */
  lemma ToolsRead(env: Env, names: seq<Str>)
    requires ALLOW_FS_TOOLS in env
    ensures ReadAllowFsTools(Get(env, ALLOW_FS_TOOLS)) != Some(None)
    ensures ReadAllowFsTools(Get(env, ALLOW_FS_TOOLS)) == Some(Some(names)) && READ_FILE in names <==>
      ToolsOf(env[ALLOW_FS_TOOLS], names)
  {
    hide Loads, Strings, Lit;
    if Loads(env[ALLOW_FS_TOOLS]).Some? && Loads(env[ALLOW_FS_TOOLS]).value.Array? {
      StringsIff(Loads(env[ALLOW_FS_TOOLS]).value.items, names);
    }
  }

  lemma TextRead(env: Env, v: Var)
    ensures Verbatim(Get(env, v), env, v) && OrNothing(OrNone(Get(env, v)), env, v)
  {
  }

  lemma TextsRead(env: Env)
    requires Readable(env)
    ensures PlainTexts(Read(env), env) && Read(env).sandboxType == Get(env, SANDBOX_TYPE)
  {
    TextRead(env, ASSISTANT_ID);
    hide Readable, Get, ReadBool, ReadInt, ReadOptionalBool, ReadJson, ReadStrList, ReadAllowFsTools,
      ReadShellAllowList, Lit, Verbatim, OrNothing, OrNone;
    forall v ensures Verbatim(Get(env, v), env, v) && OrNothing(OrNone(Get(env, v)), env, v) { TextRead(env, v); }
    AssistantRead(env);
  }

  lemma AssistantRead(env: Env)
    ensures OrNone(Get(env, ASSISTANT_ID)).GetOr(DEFAULT_ASSISTANT_ID)
         == if ASSISTANT_ID in env && env[ASSISTANT_ID] != [] then env[ASSISTANT_ID] else Lit("agent")
  {
  }

  lemma FlagsRead(env: Env)
    requires Readable(env)
    ensures FlagFields(Read(env), env)
  {
    hide Readable, Get, ReadBool, ReadInt, ReadJson, ReadStrList, ReadAllowFsTools, ReadShellAllowList, OrNone, Flag,
      SaysTrue, ReadOptionalBool, Lit;
    forall v, default ensures ReadBool(Get(env, v), default) == Flag(env, v, default) { FlagRead(env, v, default); }
    TrustRead(env);
  }

  lemma TrustRead(env: Env)
    ensures ReadOptionalBool(Get(env, TRUST_PROJECT_MCP))
         == if TRUST_PROJECT_MCP in env then Some(SaysTrue(env[TRUST_PROJECT_MCP])) else None
  {
    if TRUST_PROJECT_MCP in env { TrueIs(env[TRUST_PROJECT_MCP]); }
  }

  lemma NumbersRead(env: Env)
    requires Readable(env)
    ensures NumberFields(Read(env), env)
  {
    NumberRead(env, MAX_RETRIES);
    NumberRead(env, RUBRIC_MAX_ITERATIONS);
    NumberRead(env, RECURSION_LIMIT);
    ShellRead(env);
    hide Readable, Get, ReadBool, ReadInt, ReadJson, ReadStrList, ReadAllowFsTools, ReadShellAllowList, OrNone,
      ReadOptionalBool, Lit, Number, ShellItems;
  }

  lemma JsonRead(env: Env, v: Var)
    requires ReadJson(Get(env, v)).Some?
    ensures Decoded(ReadJson(Get(env, v)).value, env, v)
  {
    hide Loads;
  }

  lemma ListsRead(env: Env, paths: seq<Str>, tools: Option<seq<Str>>)
    requires ReadStrList(Get(env, EXTENSION_PATHS)) == Some(paths)
    requires ReadAllowFsTools(Get(env, ALLOW_FS_TOOLS)) == Some(tools)
    requires tools.Some? ==> READ_FILE in tools.value
    ensures PathsAndTools(paths, tools, env)
  {
    PathsRead(env, paths);
    if ALLOW_FS_TOOLS in env {
      ToolsRead(env, []);
      if tools.Some? { ToolsRead(env, tools.value); }
      hide ReadAllowFsTools;
    }
    hide ReadStrList, Loads, Lists, ToolsOf, Lit;
  }

  lemma JsonsRead(env: Env)
    requires Readable(env) && Construct(Read(env)).Some?
    ensures JsonFields(Read(env), env)
  {
    var r := Read(env);
    JsonRead(env, MODEL_PARAMS);
    JsonRead(env, PROFILE_OVERRIDES);
    JsonRead(env, INTERPRETER_PTC);
    hide Get, ReadBool, ReadInt, ReadJson, ReadStrList, ReadAllowFsTools, ReadShellAllowList, OrNone,
      ReadOptionalBool, Lit, Decoded, PathsAndTools;
    ListsRead(env, r.extensionPaths, r.allowFsTools);
  }

  lemma SandboxRead(r: ServerConfig)
    requires Construct(r).Some?
    ensures Construct(r).value == if r.sandboxType == Some(Lit("none")) then r.(sandboxType := None) else r
  {
    hide Lit;
  }

  lemma TextsApart(r: ServerConfig, env: Env)
    ensures PlainTexts(r.(sandboxType := None), env) == PlainTexts(r, env)
  {
    hide Verbatim, OrNothing, Lit;
  }

  lemma FlagsApart(r: ServerConfig, env: Env)
    ensures FlagFields(r.(sandboxType := None), env) == FlagFields(r, env)
  {
    hide Flag, SaysTrue;
  }

  lemma OthersApart(r: ServerConfig, env: Env)
    ensures NumberFields(r.(sandboxType := None), env) == NumberFields(r, env)
    ensures JsonFields(r.(sandboxType := None), env) == JsonFields(r, env)
  {
    hide Number, ShellItems, Decoded, PathsAndTools;
  }

  /** What every variable means to the reader of an environment that is accepted. */
  lemma FieldsRead(env: Env, c: ServerConfig)
    requires FromEnv(env) == Some(c)
    ensures PlainTexts(c, env) && FlagFields(c, env) && NumberFields(c, env) && JsonFields(c, env)
    ensures c.sandboxType ==
      if SANDBOX_TYPE in env && env[SANDBOX_TYPE] != Lit("none") then Some(env[SANDBOX_TYPE]) else None
  {
    hide Readable, Read, Construct, PlainTexts, FlagFields, NumberFields, JsonFields, Lit;
    var r := Read(env);
    TextsRead(env);
    FlagsRead(env);
    NumbersRead(env);
    JsonsRead(env);
    SandboxRead(r);
    TextsApart(r, env);
    FlagsApart(r, env);
    OthersApart(r, env);
  }

  /** The numbers of the environment are in range. */
  ghost predicate InRange(env: Env) {
    && (forall n :: MAX_RETRIES in env && Spells(env[MAX_RETRIES], n) ==> n >= 0)
    && (forall n :: RUBRIC_MAX_ITERATIONS in env && Spells(env[RUBRIC_MAX_ITERATIONS], n) ==> n > 0)
    && (forall n :: RECURSION_LIMIT in env && Spells(env[RECURSION_LIMIT], n) ==> n > 0)
  }

  /** The JSON variables that are set hold what they should. */
  ghost predicate WellShaped(env: Env) {
    && (forall v :: v in {MODEL_PARAMS, PROFILE_OVERRIDES, INTERPRETER_PTC} && v in env ==> Loads(env[v]).Some?)
    && (EXTENSION_PATHS in env ==>
          Loads(env[EXTENSION_PATHS]) == Some(Null) || exists names :: Lists(env[EXTENSION_PATHS], names))
    && (ALLOW_FS_TOOLS in env ==> exists names :: ToolsOf(env[ALLOW_FS_TOOLS], names))
  }

  lemma JsonShaped(env: Env)
    ensures (forall v :: v in {MODEL_PARAMS, PROFILE_OVERRIDES, INTERPRETER_PTC} && v in env ==> Loads(env[v]).Some?)
      <==> && ReadJson(Get(env, MODEL_PARAMS)).Some? && ReadJson(Get(env, PROFILE_OVERRIDES)).Some?
           && ReadJson(Get(env, INTERPRETER_PTC)).Some?
  {
    hide Loads;
  }

  lemma PathsShaped(env: Env)
    ensures ReadStrList(Get(env, EXTENSION_PATHS)).Some? <==>
      (EXTENSION_PATHS in env ==>
         Loads(env[EXTENSION_PATHS]) == Some(Null) || exists names :: Lists(env[EXTENSION_PATHS], names))
  {
    var read := ReadStrList(Get(env, EXTENSION_PATHS));
    if read.Some? { PathsRead(env, read.value); }
    if EXTENSION_PATHS in env {
      if names :| Lists(env[EXTENSION_PATHS], names) { PathsRead(env, names); }
    }
    PathsRead(env, []);
    hide ReadStrList, Loads, Lists;
  }

  lemma ToolsShaped(env: Env)
    ensures var read := ReadAllowFsTools(Get(env, ALLOW_FS_TOOLS));
      read.Some? && (read.value.Some? ==> READ_FILE in read.value.value) <==>
      (ALLOW_FS_TOOLS in env ==> exists names :: ToolsOf(env[ALLOW_FS_TOOLS], names))
  {
    var read := ReadAllowFsTools(Get(env, ALLOW_FS_TOOLS));
    if ALLOW_FS_TOOLS in env {
      ToolsRead(env, []);
      if read.Some? && read.value.Some? { ToolsRead(env, read.value.value); }
      if names :| ToolsOf(env[ALLOW_FS_TOOLS], names) { ToolsRead(env, names); }
      hide ReadAllowFsTools, ToolsOf;
    }
  }

  /** The environment is accepted exactly when its JSON variables are well shaped and its
      numbers in range; whatever else it holds. */
  lemma AcceptedIff(env: Env)
    ensures FromEnv(env).Some? <==> WellShaped(env) && InRange(env)
  {
    JsonShaped(env);
    PathsShaped(env);
    ToolsShaped(env);
    NumberRead(env, MAX_RETRIES);
    NumberRead(env, RUBRIC_MAX_ITERATIONS);
    NumberRead(env, RECURSION_LIMIT);
    ReadListIsClean(Get(env, SHELL_ALLOW_LIST));
    hide ReadJson, ReadStrList, ReadAllowFsTools, ReadInt, ReadShellAllowList, ReadBool, ReadOptionalBool, OrNone,
      Loads, Lists, ToolsOf, Spells, Lit;
  }

  /** With no variable set at all. */
  lemma NothingSet()
    ensures FromEnv(map[]) == Some(ServerConfig(
      None, None, Null, None, Null, Lit("agent"), None, false, false, None, true, true, false, true, true, false,
      Null, false, None, None, None, None, None, None, None, None, None, None, None, None, false, None, false, []))
  {
    OthersAbsent();
    hide ReadJson, ReadStrList, ReadAllowFsTools, ReadInt, ReadShellAllowList, Lit;
  }
}
