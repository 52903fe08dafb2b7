/** `json.loads`: the grammar of sections 2 to 7 of RFC 8259, plus the three
    constants Python adds (`NaN`, `Infinity`, `-Infinity`).  Every function reads
    the text `s` from position `i` and answers the value and the position after it. */
module Json {
  import opened Text
  import opened Wrappers

  /** A decoded value.  A float stands for its spelling; an object keeps its
      members in text order, duplicates included. */
  datatype Value =
    | Null
    | Bool(b: bool)
    | Int(n: int)
    | Float(spelling: Str)
    | Text(text: Str)
    | Array(items: seq<Value>)
    | Object(members: seq<Member>)

  datatype Member = Member(name: Str, value: Value)

  type Parse<T> = Option<(T, nat)>

  predicate IsWs(c: Code) {
    c == ' ' as int || c == '\t' as int || c == '\n' as int || c == '\r' as int
  }

  /** First position at or after `i` that holds no JSON whitespace. */
  function SkipWs(s: Str, i: nat): (j: nat)
    requires i <= |s|
    ensures i <= j <= |s|
    ensures forall k :: i <= k < j ==> IsWs(s[k])
    ensures j < |s| ==> !IsWs(s[j])
    decreases |s| - i
  {
    if i < |s| && IsWs(s[i]) then SkipWs(s, i + 1) else i
  }

  // ---- Strings (section 7) ----

  function HexDigit(c: Code): Option<nat> {
    if '0' as int <= c <= '9' as int then Some(c - '0' as int)
    else if 'a' as int <= c <= 'f' as int then Some(c - 'a' as int + 10)
    else if 'A' as int <= c <= 'F' as int then Some(c - 'A' as int + 10)
    else None
  }

  /** The four hexadecimal digits at `i`. */
  function Hex4(s: Str, i: nat): (r: Option<nat>)
    ensures r.Some? ==> i + 4 <= |s| && r.value <= 0xFFFF
  {
    if i + 4 > |s| then None else
    match (HexDigit(s[i]), HexDigit(s[i + 1]), HexDigit(s[i + 2]), HexDigit(s[i + 3]))
    case (Some(a), Some(b), Some(c), Some(d)) =>
      if a < 16 && b < 16 && c < 16 && d < 16 then Some(4096 * a + 256 * b + 16 * c + d) else None
    case _ => None
  }

  predicate IsHigh(c: int) { 0xD800 <= c <= 0xDBFF }
  predicate IsLow(c: int) { 0xDC00 <= c <= 0xDFFF }

  function JoinPair(hi: int, lo: int): Code
    requires IsHigh(hi) && IsLow(lo)
  {
    0x10000 + (hi - 0xD800) * 0x400 + (lo - 0xDC00)
  }

  /** One escape sequence; `i` is the position after the backslash. */
  function Escape(s: Str, i: nat): (r: Parse<Code>)
    requires i <= |s|
    ensures r.Some? ==> i < r.value.1 <= |s|
  {
    if i == |s| then None
    else if s[i] == '"' as int || s[i] == '\\' as int || s[i] == '/' as int then Some((s[i], i + 1))
    else if s[i] == 'b' as int then Some((8, i + 1))
    else if s[i] == 'f' as int then Some((12, i + 1))
    else if s[i] == 'n' as int then Some((10, i + 1))
    else if s[i] == 'r' as int then Some((13, i + 1))
    else if s[i] == 't' as int then Some((9, i + 1))
    else if s[i] == 'u' as int then
      match Hex4(s, i + 1)
      case None => None
      case Some(u) =>
        if IsHigh(u) && At(s, i + 5, ['\\' as int, 'u' as int]) then
          match Hex4(s, i + 7)
          case Some(v) => if IsLow(v) then Some((JoinPair(u, v), i + 11)) else Some((u, i + 5))
          case None => Some((u, i + 5))
        else Some((u, i + 5))
    else None
  }

  /** The rest of a string; `i` is after its opening quote. */
  function StringTail(s: Str, i: nat): (r: Parse<Str>)
    requires i <= |s|
    ensures r.Some? ==> i < r.value.1 <= |s|
    decreases |s| - i
  {
    if i == |s| || s[i] < 32 then None
    else if s[i] == '"' as int then Some(([], i + 1))
    else if s[i] == '\\' as int then
      match Escape(s, i + 1)
      case None => None
      case Some((c, j)) =>
        match StringTail(s, j)
        case None => None
        case Some((rest, k)) => Some(([c] + rest, k))
    else
      match StringTail(s, i + 1)
      case None => None
      case Some((rest, k)) => Some(([s[i]] + rest, k))
  }

  // ---- Numbers (section 6) ----

  /** First position at or after `i` that holds no digit. */
  function DigitsEnd(s: Str, i: nat): (j: nat)
    requires i <= |s|
    ensures i <= j <= |s|
    ensures forall k :: i <= k < j ==> IsDigit(s[k])
    ensures j < |s| ==> !IsDigit(s[j])
    decreases |s| - i
  {
    if i < |s| && IsDigit(s[i]) then DigitsEnd(s, i + 1) else i
  }

  /** End of the integer part whose first digit is at `i`, if there is one. */
  function IntEnd(s: Str, i: nat): (r: Option<nat>)
    requires i <= |s|
    ensures r.Some? ==> i < r.value <= |s|
  {
    if i == |s| || !IsDigit(s[i]) then None
    else if s[i] == '0' as int then Some(i + 1)
    else Some(DigitsEnd(s, i))
  }

  function FracEnd(s: Str, i: nat): (j: nat)
    requires i <= |s|
    ensures i <= j <= |s|
  {
    if i + 1 < |s| && s[i] == '.' as int && IsDigit(s[i + 1]) then DigitsEnd(s, i + 1) else i
  }

  function ExpEnd(s: Str, i: nat): (j: nat)
    requires i <= |s|
    ensures i <= j <= |s|
  {
    if i < |s| && (s[i] == 'e' as int || s[i] == 'E' as int) then
      var k := if i + 1 < |s| && (s[i + 1] == '+' as int || s[i + 1] == '-' as int) then i + 2 else i + 1;
      if k < |s| && IsDigit(s[k]) then DigitsEnd(s, k) else i
    else i
  }

  /** The number written by the digits of `s`, most significant first. */
  function DigitsValue(s: Str): nat
    requires forall k :: 0 <= k < |s| ==> IsDigit(s[k])
  {
    if s == [] then 0 else
    assert IsDigit(s[|s| - 1]);
    10 * DigitsValue(s[..|s| - 1]) + (s[|s| - 1] - '0' as int)
  }

  function Number(s: Str, i: nat): (r: Parse<Value>)
    requires i <= |s|
    ensures r.Some? ==> i < r.value.1 <= |s|
  {
    var neg := i < |s| && s[i] == '-' as int;
    var start := if neg then i + 1 else i;
    match IntEnd(s, start)
    case None => None
    case Some(a) =>
      var b := ExpEnd(s, FracEnd(s, a));
      if b > a then Some((Float(s[i..b]), b))
      else
        var n: int := DigitsValue(s[start..a]);
        Some((Int(if neg then -n else n), a))
  }

  // ---- Literals and containers (sections 3 to 5) ----

  function Word(s: Str, i: nat, w: string, v: Value): (r: Parse<Value>)
    requires i <= |s| && w != ""
    ensures r.Some? ==> i < r.value.1 <= |s|
  {
    if At(s, i, Lit(w)) then Some((v, i + |w|)) else None
  }

  function Scalar(s: Str, i: nat): (r: Parse<Value>)
    requires i < |s|
    ensures r.Some? ==> i < r.value.1 <= |s|
  {
    if s[i] == 'n' as int then Word(s, i, "null", Null)
    else if s[i] == 't' as int then Word(s, i, "true", Bool(true))
    else if s[i] == 'f' as int then Word(s, i, "false", Bool(false))
    else if s[i] == 'N' as int then Word(s, i, "NaN", Float(Lit("NaN")))
    else if s[i] == 'I' as int then Word(s, i, "Infinity", Float(Lit("Infinity")))
    else if At(s, i, Lit("-Infinity")) then Some((Float(Lit("-Infinity")), i + 9))
    else Number(s, i)
  }

  function ParseValue(s: Str, i: nat): (r: Parse<Value>)
    requires i <= |s|
    ensures r.Some? ==> i < r.value.1 <= |s|
    decreases |s| - i, 0
  {
    if i == |s| then None
    else if s[i] == '"' as int then
      match StringTail(s, i + 1)
      case None => None
      case Some((t, j)) => Some((Text(t), j))
    else if s[i] == '[' as int then
      var k := SkipWs(s, i + 1);
      if k < |s| && s[k] == ']' as int then Some((Array([]), k + 1)) else
      match Elements(s, k)
      case None => None
      case Some((vs, j)) => Some((Array(vs), j))
    else if s[i] == '{' as int then
      var k := SkipWs(s, i + 1);
      if k < |s| && s[k] == '}' as int then Some((Object([]), k + 1)) else
      match Members(s, k)
      case None => None
      case Some((ms, j)) => Some((Object(ms), j))
    else Scalar(s, i)
  }

  /** One or more elements and the closing bracket. */
  function Elements(s: Str, i: nat): (r: Parse<seq<Value>>)
    requires i <= |s|
    ensures r.Some? ==> i < r.value.1 <= |s|
    decreases |s| - i, 1
  {
    match ParseValue(s, i)
    case None => None
    case Some((v, e)) =>
      var k := SkipWs(s, e);
      if k == |s| then None
      else if s[k] == ']' as int then Some(([v], k + 1))
      else if s[k] == ',' as int then
        match Elements(s, SkipWs(s, k + 1))
        case None => None
        case Some((vs, j)) => Some(([v] + vs, j))
      else None
  }

  /** A member's name, colon and the whitespace around it. */
  function Name(s: Str, i: nat): (r: Parse<Str>)
    requires i <= |s|
    ensures r.Some? ==> i < r.value.1 <= |s|
  {
    if i == |s| || s[i] != '"' as int then None else
    match StringTail(s, i + 1)
    case None => None
    case Some((name, e)) =>
      var k := SkipWs(s, e);
      if k < |s| && s[k] == ':' as int then Some((name, SkipWs(s, k + 1))) else None
  }

  function ParseMember(s: Str, i: nat): (r: Parse<Member>)
    requires i <= |s|
    ensures r.Some? ==> i < r.value.1 <= |s|
    decreases |s| - i, 1
  {
    match Name(s, i)
    case None => None
    case Some((name, n)) =>
      match ParseValue(s, n)
      case None => None
      case Some((v, e)) => Some((Member(name, v), e))
  }

  /** One or more members and the closing brace. */
  function Members(s: Str, i: nat): (r: Parse<seq<Member>>)
    requires i <= |s|
    ensures r.Some? ==> i < r.value.1 <= |s|
    decreases |s| - i, 2
  {
    match ParseMember(s, i)
    case None => None
    case Some((m, e)) =>
      var k := SkipWs(s, e);
      if k == |s| then None
      else if s[k] == '}' as int then Some(([m], k + 1))
      else if s[k] == ',' as int then
        match Members(s, SkipWs(s, k + 1))
        case None => None
        case Some((ms, j)) => Some(([m] + ms, j))
      else None
  }

  /** `json.loads`, with `None` for a decode error. */
  function Loads(s: Str): Option<Value> {
    match ParseValue(s, SkipWs(s, 0))
    case None => None
    case Some((v, e)) => if SkipWs(s, e) == |s| then Some(v) else None
  }

  lemma NotMinusInfinity(s: Str, i: nat)
    requires i < |s| && (s[i] == '-' as int ==> i + 1 < |s| && IsDigit(s[i + 1]))
    ensures !At(s, i, Lit("-Infinity"))
  {
    if At(s, i, Lit("-Infinity")) { AtAll(s, i, Lit("-Infinity")); }
  }

  // ---- Which rule reads a value, by its first character ----

  lemma ScalarDispatch(s: Str, i: nat)
    requires i < |s| && s[i] != '"' as int && s[i] != '[' as int && s[i] != '{' as int
    ensures ParseValue(s, i) == Scalar(s, i)
  {
    hide Scalar, Elements, Members, StringTail, SkipWs;
  }

  lemma NumberDispatch(s: Str, i: nat)
    requires i < |s| && (IsDigit(s[i]) || (s[i] == '-' as int && i + 1 < |s| && IsDigit(s[i + 1])))
    ensures ParseValue(s, i) == Number(s, i)
  {
    hide Number, ParseValue;
    ScalarDispatch(s, i);
    NotMinusInfinity(s, i);
  }

  lemma StringDispatch(s: Str, i: nat)
    requires i < |s| && s[i] == '"' as int && StringTail(s, i + 1).Some?
    ensures var (t, j) := StringTail(s, i + 1).value; ParseValue(s, i) == Some((Text(t), j))
  {
    hide Scalar, Elements, Members, StringTail, SkipWs;
  }

  /** What a readable tail of an array is made of. */
  lemma ElementsShape(s: Str, i: nat)
    requires i <= |s| && Elements(s, i).Some?
    ensures ParseValue(s, i).Some?
    ensures var (v, e) := ParseValue(s, i).value; var k := SkipWs(s, e);
      && k < |s|
      && (s[k] == ']' as int || s[k] == ',' as int)
      && (s[k] == ']' as int ==> Elements(s, i) == Some(([v], k + 1)))
      && (s[k] == ',' as int ==>
            var rest := Elements(s, SkipWs(s, k + 1));
            rest.Some? && Elements(s, i) == Some(([v] + rest.value.0, rest.value.1)))
  {
    hide ParseValue, SkipWs;
  }

  /** What a readable tail of an object is made of. */
  lemma MembersShape(s: Str, i: nat)
    requires i <= |s| && Members(s, i).Some?
    ensures ParseMember(s, i).Some?
    ensures var (m, e) := ParseMember(s, i).value; var k := SkipWs(s, e);
      && k < |s|
      && (s[k] == '}' as int || s[k] == ',' as int)
      && (s[k] == '}' as int ==> Members(s, i) == Some(([m], k + 1)))
      && (s[k] == ',' as int ==>
            var rest := Members(s, SkipWs(s, k + 1));
            rest.Some? && Members(s, i) == Some(([m] + rest.value.0, rest.value.1)))
  {
    hide ParseMember, SkipWs;
  }

  lemma ElementsFrom(s: Str, i: nat, v: Value, e: nat)
    requires i <= |s| && ParseValue(s, i) == Some((v, e))
    ensures Elements(s, i) ==
      var k := SkipWs(s, e);
      if k == |s| then None
      else if s[k] == ']' as int then Some(([v], k + 1))
      else if s[k] == ',' as int && Elements(s, SkipWs(s, k + 1)).Some? then
        var (vs, j) := Elements(s, SkipWs(s, k + 1)).value; Some(([v] + vs, j))
      else None
  {
    hide ParseValue, SkipWs;
  }

  lemma MembersFrom(s: Str, i: nat, m: Member, e: nat)
    requires i <= |s| && ParseMember(s, i) == Some((m, e))
    ensures Members(s, i) ==
      var k := SkipWs(s, e);
      if k == |s| then None
      else if s[k] == '}' as int then Some(([m], k + 1))
      else if s[k] == ',' as int && Members(s, SkipWs(s, k + 1)).Some? then
        var (ms, j) := Members(s, SkipWs(s, k + 1)).value; Some(([m] + ms, j))
      else None
  {
    hide ParseMember, SkipWs, ParseValue, Elements;
    var k := SkipWs(s, e);
    if k < |s| && s[k] == ',' as int {
      var rest := Members(s, SkipWs(s, k + 1));
    }
  }
}
