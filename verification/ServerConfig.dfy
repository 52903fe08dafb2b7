/** The configuration a client hands to its server subprocess through environment
    variables: printed by `to_env`, read back by `from_env`. */
module ServerConfig {
  import opened Text
  import opened Wrappers
  import opened Json
  import opened JsonPrinter
  import opened JsonDecoded

  /** The suffixes of the `DEEPAGENTS_CODE_SERVER_*` variables. */
  datatype Var =
    | MODEL | SUMMARIZATION_MODEL | MODEL_PARAMS | MAX_RETRIES | PROFILE_OVERRIDES | ASSISTANT_ID
    | SYSTEM_PROMPT | AUTO_APPROVE | INTERRUPT_SHELL_ONLY | SHELL_ALLOW_LIST | INTERACTIVE
    | ENABLE_SHELL | ENABLE_ASK_USER | ENABLE_MEMORY | ENABLE_SKILLS | ENABLE_INTERPRETER
    | INTERPRETER_PTC | INTERPRETER_PTC_ACKNOWLEDGE_UNSAFE | ALLOW_FS_TOOLS | RUBRIC_MODEL
    | AUTO_CLASSIFIER_MODEL | RUBRIC_MAX_ITERATIONS | RECURSION_LIMIT | SANDBOX_TYPE | SANDBOX_ID
    | SANDBOX_SNAPSHOT_NAME | SANDBOX_SETUP | CWD | PROJECT_ROOT | MCP_CONFIG_PATH | NO_MCP
    | TRUST_PROJECT_MCP | TRUST_PROJECT_EXTENSIONS | EXTENSION_PATHS

  type Env = map<Var, Str>

  /** A field that is JSON or nothing is `Null` when it is nothing. */
  datatype ServerConfig = ServerConfig(
    model: Option<Str>, summarizationModel: Option<Str>, modelParams: Value, cliMaxRetries: Option<int>,
    profileOverrides: Value, assistantId: Str, systemPrompt: Option<Str>, autoApprove: bool,
    interruptShellOnly: bool, shellAllowList: Option<seq<Str>>, interactive: bool, enableShell: bool,
    enableAskUser: bool, enableMemory: bool, enableSkills: bool, enableInterpreter: bool,
    interpreterPtc: Value, interpreterPtcAcknowledgeUnsafe: bool, allowFsTools: Option<seq<Str>>,
    rubricModel: Option<Str>, autoClassifierModel: Option<Str>, rubricMaxIterations: Option<int>,
    recursionLimit: Option<int>, sandboxType: Option<Str>, sandboxId: Option<Str>,
    sandboxSnapshotName: Option<Str>, sandboxSetup: Option<Str>, cwd: Option<Str>,
    projectRoot: Option<Str>, mcpConfigPath: Option<Str>, noMcp: bool, trustProjectMcp: Option<bool>,
    trustProjectExtensions: bool, extensionPaths: seq<Str>)

  const COMMA: Code := 44
  const DEFAULT_ASSISTANT_ID: Str := Lit("agent")
  const READ_FILE: Str := Lit("read_file")

  predicate IsFsTool(name: Str) {
    || name == Lit("ls") || name == READ_FILE || name == Lit("write_file") || name == Lit("edit_file")
    || name == Lit("delete") || name == Lit("glob") || name == Lit("grep") || name == Lit("execute")
  }

  predicate KnownTools(names: seq<Str>) {
    forall k :: 0 <= k < |names| ==> IsFsTool(names[k])
  }

  // ---- Texts ----

  /** `s.split(",")` */
  function Split(s: Str): (r: seq<Str>)
    ensures r != []
  {
    if s == [] then [[]]
    else if s[0] == COMMA then [[]] + Split(s[1..])
    else
      var rest := Split(s[1..]);
      [[s[0]] + rest[0]] + rest[1..]
  }

  /** `s` without the characters of class `blank` at its ends. */
  function Strip(s: Str, blank: Code -> bool): Str {
    if s != [] && blank(s[0]) then Strip(s[1..], blank)
    else if s != [] && blank(s[|s| - 1]) then Strip(s[..|s| - 1], blank)
    else s
  }

  /** `[p.strip() for p in pieces if p.strip()]` */
  function StrippedItems(pieces: seq<Str>): seq<Str> {
    if pieces == [] then [] else
    var item := Strip(pieces[0], IsSpace);
    (if item == [] then [] else [item]) + StrippedItems(pieces[1..])
  }

  /** What `int()` skips around an ASCII spelling. */
  predicate IsBlankByte(c: Code) {
    9 <= c <= 13 || c == 32
  }

  /** Decimal digits, single underscores allowed between two of them. */
  function Underscored(w: Str): Option<nat>
    decreases |w|
  {
    if w == [] || !IsDigit(w[|w| - 1]) then None
    else
      var digit := w[|w| - 1] - '0' as int;
      if |w| == 1 then Some(digit) else
      var rest := if w[|w| - 2] == '_' as int then w[..|w| - 2] else w[..|w| - 1];
      match Underscored(rest) case None => None case Some(n) => Some(10 * n + digit)
  }

  /** `int(raw)` on ASCII text. */
  function IntOf(raw: Str): Option<int> {
    var w := Strip(raw, IsBlankByte);
    if w == [] then None else
    var body := if w[0] == '-' as int || w[0] == '+' as int then w[1..] else w;
    match Underscored(body)
    case None => None
    case Some(n) => Some(if w[0] == '-' as int then 0 - n else n)
  }

  // ---- Readers ----

  function Get(env: Env, v: Var): Option<Str> {
    if v in env then Some(env[v]) else None
  }

  /** `raw.lower() == "true"` */
  predicate IsTrue(raw: Str) {
    && |raw| == 4
    && (raw[0] == 't' as int || raw[0] == 'T' as int) && (raw[1] == 'r' as int || raw[1] == 'R' as int)
    && (raw[2] == 'u' as int || raw[2] == 'U' as int) && (raw[3] == 'e' as int || raw[3] == 'E' as int)
  }

  predicate ReadBool(raw: Option<Str>, default: bool) {
    match raw case None => default case Some(t) => IsTrue(t)
  }

  function ReadOptionalBool(raw: Option<Str>): Option<bool> {
    match raw case None => None case Some(t) => Some(IsTrue(t))
  }

  /** A malformed number counts as absent. */
  function ReadInt(raw: Option<Str>): Option<int> {
    match raw case None => None case Some(t) => IntOf(t)
  }

  /** `None` stands for the error raised on malformed JSON. */
  function ReadJson(raw: Option<Str>): Option<Value> {
    match raw case None => Some(Null) case Some(t) => Loads(t)
  }

  function ReadStrList(raw: Option<Str>): Option<seq<Str>> {
    match ReadJson(raw)
    case Some(Null) => Some([])
    case Some(Array(items)) => Strings(items)
    case _ => None
  }

  function ReadAllowFsTools(raw: Option<Str>): Option<Option<seq<Str>>> {
    if raw.None? then Some(None) else
    match ReadJson(raw)
    case Some(Array(items)) =>
      (match Strings(items)
       case Some(names) => if names != [] && KnownTools(names) then Some(Some(names)) else None
       case None => None)
    case _ => None
  }

  function ReadShellAllowList(raw: Option<Str>): Option<seq<Str>> {
    if raw.None? || raw.value == [] then None else
    var items := StrippedItems(Split(raw.value));
    if items == [] then None else Some(items)
  }

  /** `text or None` */
  function OrNone(raw: Option<Str>): Option<Str> {
    if raw == Some([]) then None else raw
  }

  /** Every variable that can make `from_env` raise while reading is well formed. */
  predicate Readable(env: Env) {
    && ReadJson(Get(env, MODEL_PARAMS)).Some? && ReadJson(Get(env, PROFILE_OVERRIDES)).Some?
    && ReadJson(Get(env, INTERPRETER_PTC)).Some? && ReadAllowFsTools(Get(env, ALLOW_FS_TOOLS)).Some?
    && ReadStrList(Get(env, EXTENSION_PATHS)).Some?
  }

  function Read(env: Env): ServerConfig
    requires Readable(env)
  {
    ServerConfig(
      Get(env, MODEL), OrNone(Get(env, SUMMARIZATION_MODEL)), ReadJson(Get(env, MODEL_PARAMS)).value,
      ReadInt(Get(env, MAX_RETRIES)), ReadJson(Get(env, PROFILE_OVERRIDES)).value,
      OrNone(Get(env, ASSISTANT_ID)).GetOr(DEFAULT_ASSISTANT_ID), Get(env, SYSTEM_PROMPT),
      ReadBool(Get(env, AUTO_APPROVE), false), ReadBool(Get(env, INTERRUPT_SHELL_ONLY), false),
      ReadShellAllowList(Get(env, SHELL_ALLOW_LIST)), ReadBool(Get(env, INTERACTIVE), true),
      ReadBool(Get(env, ENABLE_SHELL), true), ReadBool(Get(env, ENABLE_ASK_USER), false),
      ReadBool(Get(env, ENABLE_MEMORY), true), ReadBool(Get(env, ENABLE_SKILLS), true),
      ReadBool(Get(env, ENABLE_INTERPRETER), false), ReadJson(Get(env, INTERPRETER_PTC)).value,
      ReadBool(Get(env, INTERPRETER_PTC_ACKNOWLEDGE_UNSAFE), false),
      ReadAllowFsTools(Get(env, ALLOW_FS_TOOLS)).value, OrNone(Get(env, RUBRIC_MODEL)),
      OrNone(Get(env, AUTO_CLASSIFIER_MODEL)), ReadInt(Get(env, RUBRIC_MAX_ITERATIONS)),
      ReadInt(Get(env, RECURSION_LIMIT)), Get(env, SANDBOX_TYPE), Get(env, SANDBOX_ID),
      OrNone(Get(env, SANDBOX_SNAPSHOT_NAME)), Get(env, SANDBOX_SETUP), Get(env, CWD),
      Get(env, PROJECT_ROOT), Get(env, MCP_CONFIG_PATH), ReadBool(Get(env, NO_MCP), false),
      ReadOptionalBool(Get(env, TRUST_PROJECT_MCP)), ReadBool(Get(env, TRUST_PROJECT_EXTENSIONS), false),
      ReadStrList(Get(env, EXTENSION_PATHS)).value)
  }

  /** `__post_init__`; `None` stands for the error it raises. */
  function Construct(c: ServerConfig): Option<ServerConfig> {
    if || c.shellAllowList == Some([])
       || (c.allowFsTools.Some? && READ_FILE !in c.allowFsTools.value)
       || (c.rubricMaxIterations.Some? && c.rubricMaxIterations.value <= 0)
       || (c.cliMaxRetries.Some? && c.cliMaxRetries.value < 0)
       || (c.recursionLimit.Some? && c.recursionLimit.value <= 0) then None
    else Some(if c.sandboxType == Some(Lit("none")) then c.(sandboxType := None) else c)
  }

  function FromEnv(env: Env): Option<ServerConfig> {
    if Readable(env) then Construct(Read(env)) else None
  }

  // ---- Writer ----

  predicate Printable(c: ServerConfig) {
    WellFormed(c.modelParams) && WellFormed(c.profileOverrides) && WellFormed(c.interpreterPtc)
  }

  function BoolText(b: bool): Option<Str> {
    Some(if b then Lit("true") else Lit("false"))
  }

  function JsonText(v: Value): Option<Str>
    requires WellFormed(v)
  {
    if v == Null then None else Some(Dumps(v, true))
  }

  function IntText(n: Option<int>): Option<Str> {
    match n case None => None case Some(i) => Some(Decimal(i))
  }

  function ListText(names: seq<Str>): Str {
    TextsWellFormed(names);
    Dumps(Array(Texts(names)), true)
  }

  /** `to_env`, one variable at a time; `None` clears the variable. */
  function ToEnv(c: ServerConfig, v: Var): Option<Str>
    requires Printable(c)
  {
    match v
    case MODEL => c.model
    case SUMMARIZATION_MODEL => c.summarizationModel
    case MODEL_PARAMS => JsonText(c.modelParams)
    case MAX_RETRIES => IntText(c.cliMaxRetries)
    case PROFILE_OVERRIDES => JsonText(c.profileOverrides)
    case ASSISTANT_ID => Some(c.assistantId)
    case SYSTEM_PROMPT => c.systemPrompt
    case AUTO_APPROVE => BoolText(c.autoApprove)
    case INTERRUPT_SHELL_ONLY => BoolText(c.interruptShellOnly)
    case SHELL_ALLOW_LIST => if c.shellAllowList.None? then None else Some(Join([COMMA], c.shellAllowList.value))
    case INTERACTIVE => BoolText(c.interactive)
    case ENABLE_SHELL => BoolText(c.enableShell)
    case ENABLE_ASK_USER => BoolText(c.enableAskUser)
    case ENABLE_MEMORY => BoolText(c.enableMemory)
    case ENABLE_SKILLS => BoolText(c.enableSkills)
    case ENABLE_INTERPRETER => BoolText(c.enableInterpreter)
    case INTERPRETER_PTC => JsonText(c.interpreterPtc)
    case INTERPRETER_PTC_ACKNOWLEDGE_UNSAFE => BoolText(c.interpreterPtcAcknowledgeUnsafe)
    case ALLOW_FS_TOOLS => if c.allowFsTools.None? then None else Some(ListText(c.allowFsTools.value))
    case RUBRIC_MODEL => c.rubricModel
    case AUTO_CLASSIFIER_MODEL => c.autoClassifierModel
    case RUBRIC_MAX_ITERATIONS => IntText(c.rubricMaxIterations)
    case RECURSION_LIMIT => IntText(c.recursionLimit)
    case SANDBOX_TYPE => c.sandboxType
    case SANDBOX_ID => c.sandboxId
    case SANDBOX_SNAPSHOT_NAME => c.sandboxSnapshotName
    case SANDBOX_SETUP => c.sandboxSetup
    case CWD => c.cwd
    case PROJECT_ROOT => c.projectRoot
    case MCP_CONFIG_PATH => c.mcpConfigPath
    case NO_MCP => BoolText(c.noMcp)
    case TRUST_PROJECT_MCP => if c.trustProjectMcp.None? then None else BoolText(c.trustProjectMcp.value)
    case TRUST_PROJECT_EXTENSIONS => BoolText(c.trustProjectExtensions)
    case EXTENSION_PATHS => if c.extensionPaths == [] then None else Some(ListText(c.extensionPaths))
  }

  /** The variables after `c` was applied: each is set or cleared, whatever it held. */
  function Applied(c: ServerConfig): Env
    requires Printable(c)
  {
    map v: Var | ToEnv(c, v).Some? :: ToEnv(c, v).value
  }

  // ---- Comma lists ----

  predicate CommaFree(s: Str) {
    forall k :: 0 <= k < |s| ==> s[k] != COMMA
  }

  predicate Trimmed(s: Str) {
    s != [] ==> !IsSpace(s[0]) && !IsSpace(s[|s| - 1])
  }

  predicate Clean(item: Str) {
    item != [] && Trimmed(item) && CommaFree(item)
  }

  predicate AllClean(items: seq<Str>) {
    forall k :: 0 <= k < |items| ==> Clean(items[k])
  }

  lemma {:induction false} SplitOne(a: Str, rest: Str)
    requires CommaFree(a)
    ensures Split(a) == [a]
    ensures Split(a + [COMMA] + rest) == [a] + Split(rest)
  {
    var s := a + [COMMA] + rest;
    if a == [] {
      assert s[1..] == rest;
    } else {
      SplitOne(a[1..], rest);
      assert s[1..] == a[1..] + [COMMA] + rest;
      assert a == [a[0]] + a[1..];
    }
  }

  lemma {:induction false} SplitJoin(items: seq<Str>)
    requires items != [] && forall k :: 0 <= k < |items| ==> CommaFree(items[k])
    ensures Split(Join([COMMA], items)) == items
  {
    hide Split, CommaFree;
    if |items| == 1 {
      SplitOne(items[0], []);
    } else {
      SplitJoin(items[1..]);
      SplitOne(items[0], Join([COMMA], items[1..]));
      assert items == [items[0]] + items[1..];
    }
  }

  lemma {:induction false} StripTrims(s: Str)
    ensures Trimmed(Strip(s, IsSpace)) && (CommaFree(s) ==> CommaFree(Strip(s, IsSpace)))
    ensures Trimmed(s) ==> Strip(s, IsSpace) == s
    decreases |s|
  {
    if s != [] && IsSpace(s[0]) {
      StripTrims(s[1..]);
    } else if s != [] && IsSpace(s[|s| - 1]) {
      StripTrims(s[..|s| - 1]);
    }
  }

  lemma {:induction false} PiecesCommaFree(s: Str)
    ensures forall k :: 0 <= k < |Split(s)| ==> CommaFree(Split(s)[k])
  {
    if s != [] { PiecesCommaFree(s[1..]); }
  }

  lemma {:induction false} StrippedAreClean(pieces: seq<Str>)
    requires forall k :: 0 <= k < |pieces| ==> CommaFree(pieces[k])
    ensures AllClean(StrippedItems(pieces))
  {
    hide Strip, CommaFree, Trimmed;
    if pieces != [] {
      StripTrims(pieces[0]);
      StrippedAreClean(pieces[1..]);
    }
  }

  lemma {:induction false} CleanAreKept(items: seq<Str>)
    requires AllClean(items)
    ensures StrippedItems(items) == items
  {
    hide Strip, CommaFree, Trimmed;
    if items != [] {
      StripTrims(items[0]);
      CleanAreKept(items[1..]);
      assert items == [items[0]] + items[1..];
    }
  }

  /** What is read is clean, whatever was written. */
  lemma ReadListIsClean(raw: Option<Str>)
    ensures var r := ReadShellAllowList(raw); r.Some? ==> r.value != [] && AllClean(r.value)
  {
    hide Split, StrippedItems, Clean, CommaFree;
    if raw.Some? {
      PiecesCommaFree(raw.value);
      StrippedAreClean(Split(raw.value));
    }
  }

  /** A list survives the comma join exactly when its items are clean. */
  lemma ShellListRoundTrip(items: seq<Str>)
    requires items != []
    ensures ReadShellAllowList(Some(Join([COMMA], items))) == Some(items) <==> AllClean(items)
  {
    hide Split, StrippedItems, Trimmed, CommaFree;
    ReadListIsClean(Some(Join([COMMA], items)));
    if AllClean(items) {
      SplitJoin(items);
      CleanAreKept(items);
      assert items[0] != [];
    }
  }

  // ---- Numbers and flags ----

  lemma {:induction false} DigitsAreUnderscored(w: Str)
    requires w != [] && forall k :: 0 <= k < |w| ==> IsDigit(w[k])
    ensures Underscored(w) == Some(DigitsValue(w))
  {
    if |w| > 1 { DigitsAreUnderscored(w[..|w| - 1]); }
  }

  lemma IntRoundTrip(n: int)
    ensures IntOf(Decimal(n)) == Some(n)
  {
    hide Underscored, Digits, DigitsValue;
    var w, m := Decimal(n), if n < 0 then -n else n;
    DigitsRead(m);
    DigitsAreUnderscored(Digits(m));
    assert Strip(w, IsBlankByte) == w;
    assert n < 0 ==> w[1..] == Digits(m);
  }

  lemma BoolRoundTrip(b: bool, default: bool)
    ensures ReadBool(BoolText(b), default) == b && ReadOptionalBool(BoolText(b)) == Some(b)
  {
    var t := Lit("true");
    assert t[0] == 't' as int && t[1] == 'r' as int && t[2] == 'u' as int && t[3] == 'e' as int;
    assert |Lit("false")| == 5;
  }

  // ---- JSON ----

  lemma JsonRoundTrip(v: Value)
    requires WellFormed(v)
    ensures ReadJson(JsonText(v)).Some?
    ensures ReadJson(JsonText(v)) == Some(v) <==> PairFreeValue(v)
  {
    hide Loads, Dumps, Reread;
    if v != Null {
      DumpsThenLoads(v, true);
      RereadIff(v);
    }
  }

  predicate AllPairFree(names: seq<Str>) {
    forall k :: 0 <= k < |names| ==> PairFree(names[k])
  }

  function JoinedAll(names: seq<Str>): seq<Str> {
    if names == [] then [] else [JoinPairs(names[0])] + JoinedAll(names[1..])
  }

  lemma {:induction false} JoinedTexts(names: seq<Str>)
    ensures RereadItems(Texts(names), true) == Texts(JoinedAll(names))
    ensures |JoinedAll(names)| == |names|
    ensures JoinedAll(names) == names <==> AllPairFree(names)
  {
    hide JoinPairs, PairFree;
    if names != [] {
      JoinedTexts(names[1..]);
      JoinPairsShrinks(names[0]);
      SameCons(names, JoinPairs(names[0]), JoinedAll(names[1..]));
      assert AllPairFree(names) <==> PairFree(names[0]) && AllPairFree(names[1..]) by {
        assert forall k :: 1 <= k < |names| ==> names[k] == names[1..][k - 1];
      }
    }
  }

  lemma ListTextReads(names: seq<Str>)
    ensures Loads(ListText(names)) == Some(Array(Texts(JoinedAll(names))))
    ensures Strings(Texts(JoinedAll(names))) == Some(JoinedAll(names))
  {
    hide Loads, Dumps, JoinPairs, Strings;
    TextsWellFormed(names);
    DumpsThenLoads(Array(Texts(names)), true);
    JoinedTexts(names);
    RereadTexts(JoinedAll(names));
  }

  lemma StrListRoundTrip(names: seq<Str>)
    ensures var raw := if names == [] then None else Some(ListText(names));
      ReadStrList(raw).Some? && (ReadStrList(raw) == Some(names) <==> AllPairFree(names))
  {
    hide Loads, ListText, Strings, Texts;
    ListTextReads(names);
    JoinedTexts(names);
  }

  lemma LitPairFree(s: string)
    ensures PairFree(Lit(s))
  {
  }

  lemma FsToolPairFree(name: Str)
    requires IsFsTool(name)
    ensures PairFree(name)
  {
    LitPairFree("ls");
    LitPairFree("read_file");
    LitPairFree("write_file");
    LitPairFree("edit_file");
    LitPairFree("delete");
    LitPairFree("glob");
    LitPairFree("grep");
    LitPairFree("execute");
  }

  /** An allowlist is read back exactly when it is not empty and names only known tools. */
  lemma FsToolsRoundTrip(names: seq<Str>)
    ensures ReadAllowFsTools(Some(ListText(names))) == Some(Some(names)) <==> names != [] && KnownTools(names)
  {
    hide Loads, ListText, Strings, Texts, IsFsTool, PairFree;
    ListTextReads(names);
    JoinedTexts(names);
    if KnownTools(names) {
      forall k | 0 <= k < |names| ensures PairFree(names[k]) { FsToolPairFree(names[k]); }
    }
  }

  // ---- The whole configuration ----

  predicate PairFreeJson(c: ServerConfig) {
    && PairFreeValue(c.modelParams) && PairFreeValue(c.profileOverrides) && PairFreeValue(c.interpreterPtc)
    && AllPairFree(c.extensionPaths)
  }

  predicate NoEmptyTexts(c: ServerConfig) {
    && c.summarizationModel != Some([]) && c.rubricModel != Some([]) && c.autoClassifierModel != Some([])
    && c.sandboxSnapshotName != Some([]) && c.assistantId != []
  }

  /** The configurations whose fields mean to the reader what they mean to the writer. */
  predicate Faithful(c: ServerConfig) {
    && NoEmptyTexts(c)
    && (c.shellAllowList.Some? ==> AllClean(c.shellAllowList.value))
    && (c.allowFsTools.Some? ==> KnownTools(c.allowFsTools.value))
    && PairFreeJson(c)
  }

  predicate SameTexts(r: ServerConfig, c: ServerConfig) {
    && r.model == c.model && r.systemPrompt == c.systemPrompt && r.sandboxType == c.sandboxType
    && r.sandboxId == c.sandboxId && r.sandboxSetup == c.sandboxSetup && r.cwd == c.cwd
    && r.projectRoot == c.projectRoot && r.mcpConfigPath == c.mcpConfigPath
    && r.summarizationModel == c.summarizationModel && r.rubricModel == c.rubricModel
    && r.autoClassifierModel == c.autoClassifierModel && r.sandboxSnapshotName == c.sandboxSnapshotName
    && r.assistantId == c.assistantId
  }

  predicate SameFlags(r: ServerConfig, c: ServerConfig) {
    && r.autoApprove == c.autoApprove && r.interruptShellOnly == c.interruptShellOnly
    && r.interactive == c.interactive && r.enableShell == c.enableShell && r.enableAskUser == c.enableAskUser
    && r.enableMemory == c.enableMemory && r.enableSkills == c.enableSkills
    && r.enableInterpreter == c.enableInterpreter
    && r.interpreterPtcAcknowledgeUnsafe == c.interpreterPtcAcknowledgeUnsafe
    && r.noMcp == c.noMcp && r.trustProjectMcp == c.trustProjectMcp
    && r.trustProjectExtensions == c.trustProjectExtensions
  }

  predicate SameEncoded(r: ServerConfig, c: ServerConfig) {
    && r.cliMaxRetries == c.cliMaxRetries && r.rubricMaxIterations == c.rubricMaxIterations
    && r.recursionLimit == c.recursionLimit && r.modelParams == c.modelParams
    && r.profileOverrides == c.profileOverrides && r.interpreterPtc == c.interpreterPtc
    && r.extensionPaths == c.extensionPaths && r.shellAllowList == c.shellAllowList
    && r.allowFsTools == c.allowFsTools
  }

  lemma SameEverything(r: ServerConfig, c: ServerConfig)
    ensures r == c <==> SameTexts(r, c) && SameFlags(r, c) && SameEncoded(r, c)
  {
  }

  lemma AppliedReads(c: ServerConfig, v: Var)
    requires Printable(c)
    ensures Get(Applied(c), v) == ToEnv(c, v)
  {
    hide ToEnv;
  }

  lemma TextsWritten(c: ServerConfig)
    requires Printable(c)
    ensures var e := Applied(c);
      && Get(e, MODEL) == c.model && Get(e, SUMMARIZATION_MODEL) == c.summarizationModel
      && Get(e, ASSISTANT_ID) == Some(c.assistantId) && Get(e, SYSTEM_PROMPT) == c.systemPrompt
      && Get(e, RUBRIC_MODEL) == c.rubricModel && Get(e, AUTO_CLASSIFIER_MODEL) == c.autoClassifierModel
  {
    hide Get, Applied, BoolText, JsonText, IntText, ListText, Join, WellFormed;
    AppliedReads(c, MODEL);
    AppliedReads(c, SUMMARIZATION_MODEL);
    AppliedReads(c, ASSISTANT_ID);
    AppliedReads(c, SYSTEM_PROMPT);
    AppliedReads(c, RUBRIC_MODEL);
    AppliedReads(c, AUTO_CLASSIFIER_MODEL);
  }

  lemma SandboxWritten(c: ServerConfig)
    requires Printable(c)
    ensures var e := Applied(c);
      && Get(e, SANDBOX_TYPE) == c.sandboxType && Get(e, SANDBOX_ID) == c.sandboxId
      && Get(e, SANDBOX_SNAPSHOT_NAME) == c.sandboxSnapshotName && Get(e, SANDBOX_SETUP) == c.sandboxSetup
  {
    hide Get, Applied, BoolText, JsonText, IntText, ListText, Join, WellFormed;
    AppliedReads(c, SANDBOX_TYPE);
    AppliedReads(c, SANDBOX_ID);
    AppliedReads(c, SANDBOX_SNAPSHOT_NAME);
    AppliedReads(c, SANDBOX_SETUP);
  }

  lemma PlacesWritten(c: ServerConfig)
    requires Printable(c)
    ensures var e := Applied(c);
      && Get(e, CWD) == c.cwd && Get(e, PROJECT_ROOT) == c.projectRoot && Get(e, MCP_CONFIG_PATH) == c.mcpConfigPath
  {
    hide Get, Applied, BoolText, JsonText, IntText, ListText, Join, WellFormed;
    AppliedReads(c, CWD);
    AppliedReads(c, PROJECT_ROOT);
    AppliedReads(c, MCP_CONFIG_PATH);
  }

  lemma SwitchesWritten(c: ServerConfig)
    requires Printable(c)
    ensures var e := Applied(c);
      && Get(e, AUTO_APPROVE) == BoolText(c.autoApprove)
      && Get(e, INTERRUPT_SHELL_ONLY) == BoolText(c.interruptShellOnly)
      && Get(e, INTERACTIVE) == BoolText(c.interactive) && Get(e, ENABLE_SHELL) == BoolText(c.enableShell)
      && Get(e, ENABLE_ASK_USER) == BoolText(c.enableAskUser) && Get(e, ENABLE_MEMORY) == BoolText(c.enableMemory)
      && Get(e, ENABLE_SKILLS) == BoolText(c.enableSkills)
  {
    hide Get, Applied, BoolText, JsonText, IntText, ListText, Join, WellFormed;
    AppliedReads(c, AUTO_APPROVE);
    AppliedReads(c, INTERRUPT_SHELL_ONLY);
    AppliedReads(c, INTERACTIVE);
    AppliedReads(c, ENABLE_SHELL);
    AppliedReads(c, ENABLE_ASK_USER);
    AppliedReads(c, ENABLE_MEMORY);
    AppliedReads(c, ENABLE_SKILLS);
  }

  lemma FlagsWritten(c: ServerConfig)
    requires Printable(c)
    ensures var e := Applied(c);
      && Get(e, ENABLE_INTERPRETER) == BoolText(c.enableInterpreter)
      && Get(e, INTERPRETER_PTC_ACKNOWLEDGE_UNSAFE) == BoolText(c.interpreterPtcAcknowledgeUnsafe)
      && Get(e, NO_MCP) == BoolText(c.noMcp) && Get(e, TRUST_PROJECT_EXTENSIONS) == BoolText(c.trustProjectExtensions)
      && Get(e, TRUST_PROJECT_MCP) == if c.trustProjectMcp.None? then None else BoolText(c.trustProjectMcp.value)
  {
    hide Get, Applied, BoolText, JsonText, IntText, ListText, Join, WellFormed;
    AppliedReads(c, ENABLE_INTERPRETER);
    AppliedReads(c, INTERPRETER_PTC_ACKNOWLEDGE_UNSAFE);
    AppliedReads(c, NO_MCP);
    AppliedReads(c, TRUST_PROJECT_EXTENSIONS);
    AppliedReads(c, TRUST_PROJECT_MCP);
  }

  lemma EncodedWritten(c: ServerConfig)
    requires Printable(c)
    ensures var e := Applied(c);
      && Get(e, MODEL_PARAMS) == JsonText(c.modelParams) && Get(e, PROFILE_OVERRIDES) == JsonText(c.profileOverrides)
      && Get(e, INTERPRETER_PTC) == JsonText(c.interpreterPtc) && Get(e, MAX_RETRIES) == IntText(c.cliMaxRetries)
      && Get(e, RUBRIC_MAX_ITERATIONS) == IntText(c.rubricMaxIterations)
      && Get(e, RECURSION_LIMIT) == IntText(c.recursionLimit)
      && Get(e, SHELL_ALLOW_LIST) ==
        (if c.shellAllowList.None? then None else Some(Join([COMMA], c.shellAllowList.value)))
      && Get(e, ALLOW_FS_TOOLS) == (if c.allowFsTools.None? then None else Some(ListText(c.allowFsTools.value)))
      && Get(e, EXTENSION_PATHS) == (if c.extensionPaths == [] then None else Some(ListText(c.extensionPaths)))
  {
    hide Get, Applied, BoolText, JsonText, IntText, ListText, Join, WellFormed;
    AppliedReads(c, MODEL_PARAMS);
    AppliedReads(c, PROFILE_OVERRIDES);
    AppliedReads(c, INTERPRETER_PTC);
    AppliedReads(c, MAX_RETRIES);
    AppliedReads(c, RUBRIC_MAX_ITERATIONS);
    AppliedReads(c, RECURSION_LIMIT);
    AppliedReads(c, SHELL_ALLOW_LIST);
    AppliedReads(c, ALLOW_FS_TOOLS);
    AppliedReads(c, EXTENSION_PATHS);
  }

  lemma IntsReadBack(n: Option<int>)
    ensures ReadInt(IntText(n)) == n
  {
    hide IntOf;
    if n.Some? { IntRoundTrip(n.value); }
  }

  lemma TextFieldsReadBack(c: ServerConfig)
    requires Printable(c) && Readable(Applied(c))
    ensures Read(Applied(c)).sandboxType == c.sandboxType
    ensures SameTexts(Read(Applied(c)), c) <==> NoEmptyTexts(c)
  {
    hide Get, Applied, ToEnv, ReadBool, ReadInt, ReadOptionalBool, ReadJson, ReadStrList, ReadAllowFsTools,
      ReadShellAllowList, WellFormed;
    TextsWritten(c);
    SandboxWritten(c);
    PlacesWritten(c);
    DefaultIsSet();
  }

  lemma FlagsReadBack(c: ServerConfig)
    requires Printable(c) && Readable(Applied(c))
    ensures SameFlags(Read(Applied(c)), c)
  {
    hide Get, Applied, ToEnv, ReadBool, BoolText, ReadInt, ReadOptionalBool, ReadJson, ReadStrList, ReadAllowFsTools,
      ReadShellAllowList, OrNone, WellFormed;
    SwitchesWritten(c);
    FlagsWritten(c);
    forall b, d ensures ReadBool(BoolText(b), d) == b { BoolRoundTrip(b, d); }
    OptionalBoolRoundTrip(c.trustProjectMcp);
  }

  lemma OptionalBoolRoundTrip(b: Option<bool>)
    ensures ReadOptionalBool(if b.None? then None else BoolText(b.value)) == b
  {
    if b.Some? { BoolRoundTrip(b.value, false); }
  }

  lemma DefaultIsSet()
    ensures DEFAULT_ASSISTANT_ID != []
  {
  }

  lemma EncodedFieldsReadBack(c: ServerConfig)
    requires Printable(c) && Readable(Applied(c)) && c.shellAllowList != Some([])
    ensures var r := Read(Applied(c));
      && ReadAllowFsTools(ToEnv(c, ALLOW_FS_TOOLS)) == Some(r.allowFsTools)
      && (SameEncoded(r, c) <==>
            && (c.shellAllowList.Some? ==> AllClean(c.shellAllowList.value))
            && PairFreeJson(c)
            && r.allowFsTools == c.allowFsTools)
  {
    hide Get, Applied, ToEnv, ReadBool, ReadInt, IntText, ReadOptionalBool, ReadJson, JsonText, ReadStrList, OrNone,
      ReadAllowFsTools, ListText, Join, PairFreeValue, AllPairFree, AllClean, WellFormed, ReadShellAllowList;
    EncodedWritten(c);
    AppliedReads(c, ALLOW_FS_TOOLS);
    IntsReadBack(c.cliMaxRetries);
    IntsReadBack(c.rubricMaxIterations);
    IntsReadBack(c.recursionLimit);
    JsonRoundTrip(c.modelParams);
    JsonRoundTrip(c.profileOverrides);
    JsonRoundTrip(c.interpreterPtc);
    StrListRoundTrip(c.extensionPaths);
    ShellFieldRoundTrip(c.shellAllowList);
  }

  lemma ShellFieldRoundTrip(items: Option<seq<Str>>)
    requires items != Some([])
    ensures var raw := if items.None? then None else Some(Join([COMMA], items.value));
      ReadShellAllowList(raw) == items <==> items.Some? ==> AllClean(items.value)
  {
    if items.Some? { ShellListRoundTrip(items.value); }
  }

  /** Reading can only fail on the tool allowlist. */
  lemma AppliedIsReadable(c: ServerConfig)
    requires Printable(c)
    ensures Readable(Applied(c)) <==> ReadAllowFsTools(ToEnv(c, ALLOW_FS_TOOLS)).Some?
  {
    hide Get, Applied, ToEnv, ReadJson, JsonText, ReadStrList, ReadAllowFsTools, ListText, WellFormed;
    EncodedWritten(c);
    AppliedReads(c, ALLOW_FS_TOOLS);
    JsonRoundTrip(c.modelParams);
    JsonRoundTrip(c.profileOverrides);
    JsonRoundTrip(c.interpreterPtc);
    StrListRoundTrip(c.extensionPaths);
  }

  lemma ToolsReadBack(c: ServerConfig)
    requires Printable(c) && Construct(c) == Some(c)
    ensures ReadAllowFsTools(ToEnv(c, ALLOW_FS_TOOLS)) == Some(c.allowFsTools) <==>
      (c.allowFsTools.Some? ==> KnownTools(c.allowFsTools.value))
  {
    hide ListText, KnownTools, ReadJson, Strings, IsFsTool, JsonText, WellFormed;
    if c.allowFsTools.Some? {
      FsToolsRoundTrip(c.allowFsTools.value);
      hide ReadAllowFsTools;
    }
  }

  /** Constructing from fields read back changes nothing more. */
  lemma ConstructedSame(r: ServerConfig, c: ServerConfig)
    requires Construct(c) == Some(c) && r.sandboxType == c.sandboxType
    ensures Construct(r) == Some(c) <==> r == c
  {
  }

  /** The server recovers the client's configuration exactly when it is faithful. */
  lemma RoundTripIff(c: ServerConfig)
    requires Printable(c) && Construct(c) == Some(c)
    ensures FromEnv(Applied(c)) == Some(c) <==> Faithful(c)
  {
    hide Readable, Read, ToEnv, Applied, ReadAllowFsTools, KnownTools, AllClean, PairFreeValue, AllPairFree, WellFormed;
    AppliedIsReadable(c);
    ToolsReadBack(c);
    if Readable(Applied(c)) {
      var r := Read(Applied(c));
      TextFieldsReadBack(c);
      FlagsReadBack(c);
      EncodedFieldsReadBack(c);
      SameEverything(r, c);
      ConstructedSame(r, c);
      hide Construct, SameTexts, SameFlags, SameEncoded, PairFreeJson, NoEmptyTexts;
    }
  }

  // ---- What the reader accepts ----

  predicate CleanVar(env: Env, v: Var) {
    v in env ==> NoSurrogates(env[v])
  }

  /** No JSON variable holds a raw surrogate. */
  predicate CleanJson(env: Env) {
    CleanVar(env, MODEL_PARAMS) && CleanVar(env, PROFILE_OVERRIDES) && CleanVar(env, INTERPRETER_PTC)
    && CleanVar(env, EXTENSION_PATHS)
  }

  lemma ReadJsonSound(env: Env, v: Var)
    requires ReadJson(Get(env, v)).Some?
    ensures WellFormed(ReadJson(Get(env, v)).value)
    ensures CleanVar(env, v) ==> PairFreeValue(ReadJson(Get(env, v)).value)
  {
    hide Loads, NoSurrogates;
    if v in env { LoadsThenDumps(env[v], Loads(env[v]).value); }
  }

  lemma {:induction false} StringsPairFree(items: seq<Value>)
    requires Strings(items).Some? && PairFreeItems(items)
    ensures AllPairFree(Strings(items).value)
  {
    hide PairFree;
    if items != [] { StringsPairFree(items[1..]); }
  }

  lemma ReadStrListSound(env: Env)
    requires ReadStrList(Get(env, EXTENSION_PATHS)).Some? && CleanVar(env, EXTENSION_PATHS)
    ensures AllPairFree(ReadStrList(Get(env, EXTENSION_PATHS)).value)
  {
    hide ReadJson, Strings, CleanVar, PairFree;
    ReadJsonSound(env, EXTENSION_PATHS);
    var raw := ReadJson(Get(env, EXTENSION_PATHS));
    if raw.value.Array? { StringsPairFree(raw.value.items); }
  }

  /** Whatever the environment held, an accepted configuration is normal, up to surrogate pairs. */
  lemma AcceptedIsNormal(env: Env)
    requires Readable(env)
    ensures var r := Read(env);
      && Printable(r) && NoEmptyTexts(r)
      && (r.shellAllowList.Some? ==> AllClean(r.shellAllowList.value))
      && (r.allowFsTools.Some? ==> KnownTools(r.allowFsTools.value))
      && (CleanJson(env) ==> PairFreeJson(r))
  {
    hide Get, ReadJson, ReadStrList, ReadShellAllowList, ReadBool, ReadInt, ReadOptionalBool, AllClean, WellFormed,
      PairFreeValue, AllPairFree, CleanVar, IsFsTool;
    ReadJsonSound(env, MODEL_PARAMS);
    ReadJsonSound(env, PROFILE_OVERRIDES);
    ReadJsonSound(env, INTERPRETER_PTC);
    ReadListIsClean(Get(env, SHELL_ALLOW_LIST));
    if CleanVar(env, EXTENSION_PATHS) { ReadStrListSound(env); }
    DefaultIsSet();
  }

  lemma SandboxIsApart(r: ServerConfig, c: ServerConfig)
    requires c == r.(sandboxType := None) || c == r
    ensures Printable(r) == Printable(c) && NoEmptyTexts(r) == NoEmptyTexts(c) && PairFreeJson(r) == PairFreeJson(c)
    ensures c.shellAllowList == r.shellAllowList && c.allowFsTools == r.allowFsTools
  {
    hide WellFormed, PairFreeValue, AllPairFree;
  }

  lemma ConstructIsStable(r: ServerConfig)
    requires Construct(r).Some?
    ensures var c := Construct(r).value;
      Construct(c) == Some(c) && (c == r.(sandboxType := None) || c == r)
  {
  }

  /** Writing an accepted configuration and reading it again gives it back exactly when
      its JSON strings hold no unjoined surrogate pair; that is so whenever the JSON
      variables hold no raw surrogate. */
  lemma Retraction(env: Env, c: ServerConfig)
    requires FromEnv(env) == Some(c)
    ensures Printable(c)
    ensures FromEnv(Applied(c)) == Some(c) <==> PairFreeJson(c)
    ensures CleanJson(env) ==> PairFreeJson(c)
  {
    hide Read, Readable, Construct, Applied, AllClean, KnownTools, PairFreeJson, NoEmptyTexts, Printable, CleanJson;
    AcceptedIsNormal(env);
    ConstructIsStable(Read(env));
    SandboxIsApart(Read(env), c);
    RoundTripIff(c);
  }

  /** A present tool allowlist is never read as the unrestricted default. */
  lemma ToolsFailClosed(env: Env)
    requires ALLOW_FS_TOOLS in env && FromEnv(env).Some?
    ensures var tools := FromEnv(env).value.allowFsTools;
      tools.Some? && READ_FILE in tools.value && KnownTools(tools.value)
  {
    hide Read, Readable, Strings, IsFsTool, ReadJson;
    ReadTools(env);
    ConstructIsStable(Read(env));
    SandboxIsApart(Read(env), FromEnv(env).value);
  }

  lemma ReadTools(env: Env)
    requires Readable(env)
    ensures Some(Read(env).allowFsTools) == ReadAllowFsTools(Get(env, ALLOW_FS_TOOLS))
  {
    hide ReadAllowFsTools;
  }

  /** The environment of one raw surrogate, accepted but not given back. */
  lemma RetractionFails(env: Env, t: Str)
    requires env == map[INTERPRETER_PTC := BROKEN] && t == [0xD83D, 0xDC80]
    ensures var r := FromEnv(env);
      r.Some? && r.value.interpreterPtc == Text(t) && Printable(r.value) && FromEnv(Applied(r.value)) != r
  {
    hide Loads, Applied, BROKEN, PairFree;
    RawSurrogateIsJoined(t);
    OthersAbsent();
    var c := FromEnv(env).value;
    Retraction(env, c);
    NotPairFree(t);
  }

  lemma OthersAbsent()
    ensures ReadJson(None) == Some(Null) && ReadStrList(None) == Some([]) && ReadAllowFsTools(None) == Some(None)
    ensures ReadShellAllowList(None) == None && ReadInt(None) == None
  {
  }

  lemma NotPairFree(t: Str)
    requires t == [0xD83D, 0xDC80]
    ensures !PairFree(t)
  {
    assert IsHigh(t[0]) && IsLow(t[1]);
  }
}
