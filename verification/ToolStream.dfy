/** `ToolCallBuffer`: the in-progress state of one streamed tool call. */
module ToolStream {
  import opened Text
  import opened Wrappers
  import opened Json
  import opened JsonLexer
  import opened ArgsStream

  const PREVIEW_LIMIT: nat := 200

  /** The `args` field of one chunk: absent, a text fragment, or a whole value. */
  datatype ArgsChunk = NoArgs | Fragment(text: Str) | Whole(value: Value)

  /** `parse_args`: a value, `None`, or a `ValueError` for conflicting fields. */
  datatype ParseOutcome = Conflict | Args(result: Option<Value>)

  function Concat(parts: seq<Str>): Str {
    if parts == [] then [] else Concat(parts[..|parts| - 1]) + parts[|parts| - 1]
  }

  lemma ConcatPrefix(parts: seq<Str>, n: nat)
    requires n <= |parts|
    ensures Concat(parts[..n]) <= Concat(parts)
  {
    if n < |parts| {
      ConcatPrefix(parts[..|parts| - 1], n);
      assert parts[..|parts| - 1][..n] == parts[..n];
    } else {
      assert parts[..n] == parts;
    }
  }

  lemma ConcatNext(parts: seq<Str>, n: nat)
    requires n < |parts|
    ensures Concat(parts[..n + 1]) == Concat(parts[..n]) + parts[n]
  {
    assert parts[..n + 1][..n] == parts[..n];
  }

  function Take(s: Str, n: nat): Str {
    if |s| <= n then s else s[..n]
  }

  /** The fields of a buffer, with the fragment list by content. */
  datatype State = State(
    name: Option<string>, toolId: Option<string>,
    args: Option<Value>, parts: seq<Str>,
    displayed: bool, warned: bool,
    scanned: nat, first: Option<Code>, last: Option<Code>, lexer: Lexer,
    materialized: Option<Str>, parsed: Option<Value>)

  const FRESH := State(None, None, None, [], false, false, 0, None, None, START, None, None)

  /** This chunk belongs to another call than the one the buffer retains. */
  predicate Reuses(st: State, name: Option<string>, toolId: Option<string>) {
    || (toolId.Some? && st.toolId.Some? && toolId != st.toolId)
    || (toolId.None? && st.toolId.Some? && name.Some? && st.name.Some?)
  }

  function Named(st: State, name: Option<string>, toolId: Option<string>): State {
    st.(name := if name.Some? && name.value != "" then name else st.name,
        toolId := if toolId.Some? && toolId.value != "" then toolId else st.toolId)
  }

  /** The fragment list replaced by nothing and everything about it forgotten. */
  function Cleared(st: State): State {
    FRESH.(name := st.name, toolId := st.toolId, displayed := st.displayed)
  }

  /** A buffer that has just scanned all of `parts`. */
  function Scanned(st: State, parts: seq<Str>): State {
    var text := Concat(parts);
    st.(args := None, parts := parts, scanned := |parts|,
        first := FirstInk(text), last := LastInk(text), lexer := LexAt(text, |text|),
        materialized := None, parsed := None)
  }

  /** The state after one chunk. */
  function Ingested(st: State, name: Option<string>, toolId: Option<string>, chunk: ArgsChunk): State {
    var st := Named(if Reuses(st, name, toolId) then FRESH else st, name, toolId);
    match chunk
    case NoArgs => st
    case Whole(v) => Cleared(st).(args := Some(v))
    case Fragment(text) => if text == [] then st else Scanned(st, st.parts + [text])
  }

  /** Buffer reuse leaves no trace: a chunk of another call leaves what it would
      have left in a fresh buffer. */
  lemma ReuseLeavesNoTrace(st: State, name: Option<string>, toolId: Option<string>, chunk: ArgsChunk)
    requires Reuses(st, name, toolId)
    ensures Ingested(st, name, toolId, chunk) == Ingested(FRESH, name, toolId, chunk)
  {
  }

  /** What one chunk changes, field by field: another ID, or a name without one where both are
      known, starts anew; a whole value replaces the fragments; a fragment is added to them. */
  lemma IngestMeans(st: State, name: Option<string>, toolId: Option<string>, chunk: ArgsChunk)
    ensures var anew :=
        || (toolId.Some? && st.toolId.Some? && toolId != st.toolId)
        || (toolId.None? && st.toolId.Some? && name.Some? && st.name.Some?);
      var args, parts := if anew then None else st.args, if anew then [] else st.parts;
      var now := Ingested(st, name, toolId, chunk);
      && now.name == (if name.Some? && name.value != "" then name else if anew then None else st.name)
      && now.toolId == (if toolId.Some? && toolId.value != "" then toolId else if anew then None else st.toolId)
      && now.displayed == (!anew && st.displayed) && now.warned == (!anew && !chunk.Whole? && st.warned)
      && (chunk.NoArgs? || chunk == Fragment([]) ==> now.args == args && now.parts == parts)
      && (chunk.Whole? ==> now.args == Some(chunk.value) && now.parts == [])
      && (chunk.Fragment? && chunk.text != [] ==> now.args == None && now.parts == parts + [chunk.text])
  {
  }

  lemma EmptyText()
    ensures Concat([]) == [] && FirstInk([]).None? && LastInk([]).None? && LexAt([], 0) == START
  {
  }

  lemma EmptyBatch(limit: nat)
    ensures Batch(limit, []) == None
  {
  }

  /** A Python list object: identity matters to the buffer. */
  class FragmentList {
    var items: seq<Str>
    constructor ()
      ensures items == []
    {
      items := [];
    }
  }

  class ToolCallBuffer {
    const limit: nat
    var name: Option<string>
    var toolId: Option<string>
    var args: Option<Value>
    var argsParts: FragmentList
    var displayed: bool
    var warned: bool
    var partsRef: FragmentList
    var partsScanned: nat
    var first: Option<Code>
    var last: Option<Code>
    var lexer: Lexer
    var materialized: Option<Str>
    var parsed: Option<Value>
    /** What the logger has been given. */
    var logged: seq<Str>

    ghost function Value(): State
      reads this, argsParts
    {
      State(name, toolId, args, argsParts.items, displayed, warned,
            partsScanned, first, last, lexer, materialized, parsed)
    }

    /** The accumulated argument text. */
    ghost function Content(): Str
      reads this, argsParts
    {
      Concat(argsParts.items)
    }

    /** The lexer state, the memos and the latch describe `text`. */
    ghost predicate Describes(text: Str)
      reads this
    {
      && first == FirstInk(text) && last == LastInk(text) && lexer == LexAt(text, |text|)
      && (materialized.Some? ==> materialized.value == text)
      && (parsed.Some? ==> Poll(limit, text) == Ready(parsed.value))
      && (warned ==> Hopeless(limit, text))
    }

    /** What a caller that rebinds the list or appends to it leaves true. */
    ghost predicate Coherent()
      reads this, argsParts
    {
      partsRef == argsParts && partsScanned <= |argsParts.items| ==>
        Describes(Concat(argsParts.items[..partsScanned]))
    }

    /** Everything in the list has been scanned. */
    ghost predicate Settled()
      reads this, argsParts
    {
      partsRef == argsParts && partsScanned == |argsParts.items| && Describes(Content())
    }

    /** What holds between calls of `Ingest` and `ParseArgs`. */
    ghost predicate Valid()
      reads this, argsParts
    {
      Settled() && (args.Some? ==> argsParts.items == [])
    }

    lemma SettledIsCoherent()
      requires Settled()
      ensures Coherent()
    {
      assert argsParts.items[..partsScanned] == argsParts.items;
    }

    constructor (limit: nat)
      ensures Valid() && Value() == FRESH && this.limit == limit && logged == [] && fresh(argsParts)
      ensures name.None? && toolId.None? && args.None? && argsParts.items == [] && !displayed && !warned
    {
      this.limit := limit;
      name, toolId, args, displayed, warned := None, None, None, false, false;
      var list := new FragmentList();
      argsParts, partsRef := list, list;
      partsScanned, first, last, lexer := 0, None, None, START;
      materialized, parsed, logged := None, None, [];
    }

    /** A buffer with these fields, nothing of it scanned. */
    constructor WithFields(limit: nat, name: Option<string>, toolId: Option<string>, args: Option<Value>,
                           parts: FragmentList, displayed: bool)
      ensures this.limit == limit && argsParts == parts && partsRef == parts && logged == []
      ensures Value() ==
        FRESH.(name := name, toolId := toolId, args := args, parts := parts.items, displayed := displayed)
    {
      this.limit := limit;
      this.name, this.toolId, this.args, this.displayed, warned := name, toolId, args, displayed, false;
      argsParts, partsRef := parts, parts;
      partsScanned, first, last, lexer := 0, None, None, START;
      materialized, parsed, logged := None, None, [];
    }

    method ResetFragmentState()
      modifies this`warned, this`partsRef, this`partsScanned, this`first, this`last, this`lexer,
               this`materialized, this`parsed
      ensures partsRef == argsParts && partsScanned == 0 && !warned
      ensures first.None? && last.None? && lexer == START && materialized.None? && parsed.None?
    {
      warned, partsRef, partsScanned := false, argsParts, 0;
      first, last, lexer := None, None, START;
      materialized, parsed := None, None;
    }

    method ScanFragment(fragment: Str, ghost text: Str)
      requires first == FirstInk(text) && last == LastInk(text) && lexer == LexAt(text, |text|)
      modifies this`first, this`last, this`lexer
      ensures var now := text + fragment;
        first == FirstInk(now) && last == LastInk(now) && lexer == LexAt(now, |now|)
    {
      assert text + fragment[..0] == text;
      for k := 0 to |fragment|
        invariant first == FirstInk(text + fragment[..k]) && last == LastInk(text + fragment[..k])
        invariant lexer == LexAt(text + fragment[..k], |text| + k)
      {
        var c := fragment[k];
        ghost var now := text + fragment[..k + 1];
        assert now[..|now| - 1] == text + fragment[..k] && now[|now| - 1] == c;
        if !IsSpace(c) {
          if first.None? { first := Some(c); }
          last := Some(c);
        }
        lexer := Scan(lexer, c);
        LexPrefix(text + fragment[..k], now, |text| + k);
        LexStep(now, |text| + k);
      }
      assert fragment[..|fragment|] == fragment;
    }

    /** The list is the one last scanned, and has not shrunk since. */
    ghost predicate InStep()
      reads this, argsParts
    {
      partsRef == argsParts && partsScanned <= |argsParts.items|
    }

    /** Scans what has not been scanned; starts over when the list was rebound or shrank. */
    method SyncFragmentState()
      requires Coherent()
      modifies this`warned, this`partsRef, this`partsScanned, this`first, this`last, this`lexer,
               this`materialized, this`parsed
      ensures Settled()
      ensures warned == (old(InStep()) && old(warned))
      ensures if old(InStep()) && old(partsScanned) == |argsParts.items|
              then materialized == old(materialized) && parsed == old(parsed)
              else materialized.None? && parsed.None?
    {
      hide Poll, Batch, Trace, FirstInk, LastInk, Concat;
      EmptyText();
      if partsRef != argsParts || partsScanned > |argsParts.items| {
        ResetFragmentState();
      }
      ghost var from, m, p := partsScanned, materialized, parsed;
      while partsScanned < |argsParts.items|
        invariant partsRef == argsParts && from <= partsScanned <= |argsParts.items|
        invariant Describes(Concat(argsParts.items[..partsScanned]))
        invariant warned == (old(InStep()) && old(warned))
        invariant if partsScanned == from then materialized == m && parsed == p
                  else materialized.None? && parsed.None?
      {
        ghost var before := Concat(argsParts.items[..partsScanned]);
        ConcatNext(argsParts.items, partsScanned);
        var fragment := argsParts.items[partsScanned];
        ScanFragment(fragment, before);
        partsScanned := partsScanned + 1;
        materialized, parsed := None, None;
        if warned { HopelessNow(limit, before, before + fragment); }
      }
      assert argsParts.items[..partsScanned] == argsParts.items;
    }

    method MaterializeArgs() returns (joined: Str)
      requires materialized.Some? ==> materialized.value == Content()
      modifies this`materialized
      ensures joined == Content() && materialized == Some(joined)
    {
      if materialized.None? {
        materialized := Some(Concat(argsParts.items));
      }
      joined := materialized.value;
    }

    /** A bounded prefix of the text, found without joining all of it. */
    method ArgsPreview(limit: nat) returns (preview: Str)
      requires materialized.Some? ==> materialized.value == Content()
      ensures preview == Take(Content(), limit)
      ensures preview == if |Content()| <= limit then Content() else Content()[..limit]
    {
      if materialized.Some? {
        return Take(materialized.value, limit);
      }
      preview := [];
      var remaining := limit;
      for k := 0 to |argsParts.items|
        invariant remaining == limit - |preview|
        invariant preview == Take(Concat(argsParts.items[..k]), limit)
      {
        ConcatNext(argsParts.items, k);
        if remaining == 0 {
          ConcatPrefix(argsParts.items, k);
          return;
        }
        var piece := Take(argsParts.items[k], remaining);
        preview := preview + piece;
        remaining := remaining - |piece|;
      }
      assert argsParts.items[..|argsParts.items|] == argsParts.items;
    }

    /** Sets the latch and logs one line, once per payload. */
    method WarnInvalidArgs()
      requires materialized.Some? ==> materialized.value == Content()
      modifies this`warned, this`logged
      ensures warned
      ensures logged == if old(warned) then old(logged) else old(logged) + [Take(Content(), PREVIEW_LIMIT)]
      ensures !old(warned) ==> logged == old(logged) + [if |Content()| <= 200 then Content() else Content()[..200]]
    {
      if warned { return; }
      warned := true;
      var preview := ArgsPreview(PREVIEW_LIMIT);
      logged := logged + [preview];
    }

    method ResetForNewCall()
      modifies this
      ensures Value() == FRESH && Valid() && fresh(argsParts) && logged == old(logged)
    {
      hide Poll, Batch, Trace, FirstInk, LastInk, Concat, LexAt;
      name, toolId, args := None, None, None;
      argsParts := new FragmentList();
      ResetFragmentState();
      displayed, warned := false, false;
      EmptyText();
    }

    /** Folds one chunk into the buffer.  The whole new state is `Ingested` of the old one. */
    method Ingest(name: Option<string>, toolId: Option<string>, chunk: ArgsChunk)
      requires Valid()
      modifies this, argsParts
      ensures Valid() && Value() == Ingested(old(Value()), name, toolId, chunk)
      ensures argsParts == old(argsParts) || fresh(argsParts)
      ensures logged == old(logged)
    {
      hide Poll, Batch, Trace, FirstInk, LastInk, Concat, LexAt, Describes;
      var newIdReusesIndex := toolId.Some? && this.toolId.Some? && toolId != this.toolId;
      var delayedIdReusesIndex := toolId.None? && this.toolId.Some? && name.Some? && this.name.Some?;
      if newIdReusesIndex || delayedIdReusesIndex {
        ResetForNewCall();
      }
      ghost var st := Value();
      assert Valid() && st == if Reuses(old(Value()), name, toolId) then FRESH else old(Value());
      StoreNames(name, toolId);
      assert Valid() && Value() == Named(st, name, toolId);
      match chunk
      case NoArgs =>
      case Whole(v) => StoreWhole(v);
      case Fragment(text) => if text != [] { StoreFragment(text); }
    }

    method StoreNames(name: Option<string>, toolId: Option<string>)
      modifies this`name, this`toolId
      ensures Value() == Named(old(Value()), name, toolId)
      ensures old(Valid()) ==> Valid()
    {
      hide Poll, Batch, Trace, FirstInk, LastInk, Concat, LexAt;
      if name.Some? && name.value != "" { this.name := name; }
      if toolId.Some? && toolId.value != "" { this.toolId := toolId; }
    }

    method StoreWhole(v: Value)
      modifies this`args, this`argsParts, this`warned, this`partsRef, this`partsScanned, this`first, this`last,
               this`lexer, this`materialized, this`parsed
      ensures Valid() && Value() == Cleared(old(Value())).(args := Some(v)) && fresh(argsParts)
    {
      hide Poll, Batch, Trace, FirstInk, LastInk, Concat;
      EmptyText();
      args := Some(v);
      argsParts := new FragmentList();
      ResetFragmentState();
    }

    method StoreFragment(text: Str)
      requires Valid()
      modifies this`args, argsParts, this`warned, this`partsRef, this`partsScanned, this`first, this`last,
               this`lexer, this`materialized, this`parsed
      ensures Valid() && Value() == Scanned(old(Value()), old(argsParts.items) + [text])
    {
      hide Poll, Batch, Trace, FirstInk, LastInk, Concat;
      args := None;
      ghost var items := argsParts.items;
      argsParts.items := argsParts.items + [text];
      assert argsParts.items[..|items|] == items;
      SyncFragmentState();
    }

    /** The arguments once enough text has arrived.  Whatever the fragments were and
        however often this was called before, the answer is that of decoding the
        accumulated text once: an object within the limit is itself the answer, any other
        value its one member `value`.  The latch moves only on a text that nothing can complete. */
    method ParseArgs() returns (r: ParseOutcome)
      requires Coherent()
      modifies this
      ensures r == if args.Some? && argsParts.items != [] then Conflict
                   else if args.Some? then Args(Some(Wrap(args.value)))
                   else Args(Batch(limit, Content()))
      ensures r == Conflict <==> args.Some? && argsParts.items != []
      ensures args.Some? && argsParts.items == [] ==>
        r == Args(Some(if args.value.Object? then args.value else Object([Member(Lit("value"), args.value)])))
      ensures args.None? ==>
        match Loads(Content())
        case None => r == Args(None)
        case Some(v) =>
          && (Nesting(v) > limit ==> r == Args(None))
          && (Nesting(v) <= limit && v.Object? ==> r == Args(Some(v)))
          && (Nesting(v) <= limit && !v.Object? ==> r == Args(Some(Object([Member(Lit("value"), v)]))))
      ensures argsParts == old(argsParts) && Coherent()
      ensures name == old(name) && toolId == old(toolId) && args == old(args) && displayed == old(displayed)
      ensures args.None? && argsParts.items != [] ==>
        && Settled()
        && warned == (old(InStep() && warned) || Poll(limit, Content()).Doomed?)
        && logged == old(logged) + (if warned && !old(InStep() && warned) then [Take(Content(), PREVIEW_LIMIT)] else [])
      ensures args.Some? || argsParts.items == [] ==> Value() == old(Value()) && logged == old(logged)
      ensures logged == old(logged) ||
              logged == old(logged) + [if |Content()| <= 200 then Content() else Content()[..200]]
      ensures old(Valid()) ==> Valid()
    {
      BatchMeans(limit, Content());
      hide Poll, Batch, Trace, FirstInk, LastInk, Concat, LexAt, Loads, Nesting;
      if args.Some? && argsParts.items != [] { return Conflict; }
      if args.Some? { return Args(Some(Wrap(args.value))); }
      if argsParts.items == [] {
        EmptyText();
        EmptyBatch(limit);
        return Args(None);
      }
      var result := ParseFragments();
      SettledIsCoherent();
      return Args(result);
    }

    method ParseFragments() returns (result: Option<Value>)
      requires Coherent()
      modifies this`warned, this`partsRef, this`partsScanned, this`first, this`last, this`lexer,
               this`materialized, this`parsed, this`logged
      ensures Settled() && result == Batch(limit, Content())
      ensures warned == (old(InStep() && warned) || Poll(limit, Content()).Doomed?)
      ensures logged == old(logged) +
        (if warned && !old(InStep() && warned) then [Take(Content(), PREVIEW_LIMIT)] else [])
    {
      hide Batch, Trace, FirstInk, LastInk, Concat, ParseValue;
      SyncFragmentState();
      ghost var text := Content();
      PollIsBatch(limit, text);
      if warned { HopelessNow(limit, text, text); }
      if first.None? { return None; }
      if parsed.Some? { return parsed; }
      var isContainer := IsOpen(first.value);
      if isContainer {
        if last.None? || !IsClose(last.value) { return None; }
        if !lexer.overclosed && (lexer.depth != 0 || lexer.inString) { return None; }
        if warned { return None; }
        if lexer.maxDepth > limit {
          DoomedIsHopeless(limit, text);
          WarnInvalidArgs();
          return None;
        }
      } else if first.value == '"' as int && lexer.inString {
        return None;
      }
      var joined := MaterializeArgs();
      var value := Loads(joined);
      if value.None? {
        if isContainer {
          DoomedIsHopeless(limit, text);
          WarnInvalidArgs();
        }
        return None;
      }
      parsed := Some(Wrap(value.value));
      return parsed;
    }
  }

  /** A buffer built from its fields and scanned at once (a given latch would be cleared);
      conflicting fields are a `ValueError`. */
  method NewBuffer(limit: nat, name: Option<string>, toolId: Option<string>, args: Option<Value>,
                   parts: FragmentList, displayed: bool) returns (buffer: ToolCallBuffer?)
    ensures buffer == null <==> args.Some? && parts.items != []
    ensures buffer != null ==>
      && fresh(buffer) && buffer.Valid() && buffer.limit == limit && buffer.argsParts == parts && buffer.logged == []
      && buffer.Value() ==
        Scanned(FRESH.(name := name, toolId := toolId, displayed := displayed), parts.items).(args := args)
    ensures buffer != null ==>
      && (buffer.name, buffer.toolId, buffer.args) == (name, toolId, args)
      && buffer.displayed == displayed && !buffer.warned
  {
    hide Poll, Batch, Concat, FirstInk, LastInk, LexAt, Hopeless;
    if args.Some? && parts.items != [] { return null; }
    buffer := new ToolCallBuffer.WithFields(limit, name, toolId, args, parts, displayed);
    EmptyText();
    assert parts.items[..0] == [];
    buffer.SyncFragmentState();
  }

  /** Buffer reuse leaves no trace: a chunk of another call leaves a used buffer, whatever
      its history, in the state it leaves a new one in. */
  method ReusedIsLikeNew(used: ToolCallBuffer, name: Option<string>, toolId: Option<string>, chunk: ArgsChunk)
    returns (other: ToolCallBuffer)
    requires used.Valid() && Reuses(used.Value(), name, toolId)
    modifies used, used.argsParts
    ensures fresh(other) && used.Valid() && other.Valid() && used.Value() == other.Value()
  {
    hide Ingested, Poll, Batch, Concat, FirstInk, LastInk, LexAt, Hopeless, ToolCallBuffer.Describes;
    ghost var was := used.Value();
    other := new ToolCallBuffer(used.limit);
    other.Ingest(name, toolId, chunk);
    used.Ingest(name, toolId, chunk);
    ReuseLeavesNoTrace(was, name, toolId, chunk);
  }

  /** One more fragment of the same call. */
  method IngestNext(buffer: ToolCallBuffer, fragment: Str)
    requires buffer.Valid() && buffer.args.None?
    modifies buffer, buffer.argsParts
    ensures buffer.Valid() && buffer.args.None? && buffer.Content() == old(buffer.Content()) + fragment
    ensures buffer.argsParts == old(buffer.argsParts) || fresh(buffer.argsParts)
    ensures buffer.warned == old(buffer.warned) && buffer.logged == old(buffer.logged)
  {
    hide Poll, Batch, Concat, FirstInk, LastInk, LexAt, Hopeless, ToolCallBuffer.Describes;
    Extended(buffer.argsParts.items, fragment);
    buffer.Ingest(None, None, Fragment(fragment));
  }

  /** One fragment arrives and the buffer is polled, so often. */
  method IngestThenPoll(buffer: ToolCallBuffer, fragment: Str, polls: nat)
    requires buffer.Valid() && buffer.args.None?
    modifies buffer, buffer.argsParts
    ensures buffer.Valid() && buffer.args.None? && buffer.Content() == old(buffer.Content()) + fragment
    ensures buffer.argsParts == old(buffer.argsParts) || fresh(buffer.argsParts)
  {
    hide Poll, Batch, Concat, FirstInk, LastInk, LexAt, Hopeless, ToolCallBuffer.Describes;
    ghost var parts := buffer.argsParts.items;
    IngestNext(buffer, fragment);
    for n := 0 to polls
      invariant buffer.Valid() && buffer.args.None? && buffer.Content() == Concat(parts) + fragment
      invariant buffer.argsParts == old(buffer.argsParts) || fresh(buffer.argsParts)
    {
      buffer.SettledIsCoherent();
      var _ := buffer.ParseArgs();
    }
  }

  lemma Extended(parts: seq<Str>, fragment: Str)
    ensures Concat(parts + [fragment]) == Concat(parts) + fragment
    ensures fragment == [] ==> Concat(parts) + fragment == Concat(parts)
  {
    assert (parts + [fragment])[..|parts|] == parts;
  }

  /** A call's text arriving as `fragments`, polled any number of times in between: the answer at
      the end is that of decoding the whole text once, whatever the cuts and the polls. */
  method StreamThenParse(limit: nat, fragments: seq<Str>, polls: nat -> nat) returns (r: ParseOutcome)
    ensures r == Args(Batch(limit, Concat(fragments)))
    ensures match Loads(Concat(fragments))
      case None => r == Args(None)
      case Some(v) =>
        && (Nesting(v) > limit ==> r == Args(None))
        && (Nesting(v) <= limit && v.Object? ==> r == Args(Some(v)))
        && (Nesting(v) <= limit && !v.Object? ==> r == Args(Some(Object([Member(Lit("value"), v)]))))
  {
    hide Poll, Batch, Concat, FirstInk, LastInk, LexAt, Hopeless, ToolCallBuffer.Describes, Loads, Nesting;
    var buffer := new ToolCallBuffer(limit);
    for k := 0 to |fragments|
      invariant fresh(buffer) && fresh(buffer.argsParts) && buffer.Valid() && buffer.limit == limit
      invariant buffer.args.None? && buffer.Content() == Concat(fragments[..k])
    {
      ConcatNext(fragments, k);
      IngestThenPoll(buffer, fragments[k], polls(k));
    }
    assert fragments[..|fragments|] == fragments;
    buffer.SettledIsCoherent();
    r := buffer.ParseArgs();
  }

  /** What a poll of a healthy stream answers once `text` of `whole` has arrived. */
  function HealthyAnswer(whole: Str, text: Str): ParseOutcome
    requires Loads(whole).Some?
  {
    var v := Loads(whole).value;
    if |text| < ValueEnd(whole) then Args(None)
    else if v.Object? then Args(Some(v))
    else Args(Some(Object([Member(Lit("value"), v)])))
  }

  /** A poll of a buffer that holds a cut of a healthy text. */
  method PollHealthy(buffer: ToolCallBuffer, ghost whole: Str) returns (answer: ParseOutcome)
    requires buffer.Valid() && buffer.args.None? && !buffer.warned && buffer.Content() <= whole
    requires Batch(buffer.limit, whole).Some? && IsOpen(whole[ValueStart(whole)])
    modifies buffer
    ensures buffer.Valid() && buffer.args.None? && !buffer.warned && buffer.logged == old(buffer.logged)
    ensures buffer.argsParts == old(buffer.argsParts)
    ensures answer == HealthyAnswer(whole, buffer.Content())
  {
    hide Concat, FirstInk, LastInk, LexAt, Hopeless, ToolCallBuffer.Describes, Loads;
    ghost var text := buffer.Content();
    HealthyPoll(buffer.limit, whole, text);
    hide Poll, Batch;
    buffer.SettledIsCoherent();
    answer := buffer.ParseArgs();
  }

  lemma HealthyPoll(limit: nat, whole: Str, text: Str)
    requires Batch(limit, whole).Some? && IsOpen(whole[ValueStart(whole)]) && text <= whole
    ensures !Poll(limit, text).Doomed? && HealthyAnswer(whole, text) == Args(Batch(limit, text))
  {
    hide Poll, Batch;
    assert text == whole[..|text|];
    HealthyStream(limit, whole, |text|);
    PollIsBatch(limit, text);
  }

  /** Healthy streams are silent and complete: polled after each fragment of an acceptable
      object or array text, a buffer answers nothing before the closing bracket, the value
      from there on, and neither warns nor logs. */
  method PollHealthyStream(limit: nat, fragments: seq<Str>) returns (answers: seq<ParseOutcome>, buffer: ToolCallBuffer)
    requires var whole := Concat(fragments);
      Batch(limit, whole).Some? && IsOpen(whole[ValueStart(whole)])
    ensures |answers| == |fragments| && !buffer.warned && buffer.logged == []
    ensures forall k :: 0 <= k < |fragments| ==>
      answers[k] == HealthyAnswer(Concat(fragments), Concat(fragments[..k + 1]))
  {
    hide Concat, FirstInk, LastInk, LexAt, Hopeless, ToolCallBuffer.Describes, Poll, HealthyAnswer;
    ghost var whole := Concat(fragments);
    assert Batch(limit, whole).Some?;
    hide Batch;
    buffer := new ToolCallBuffer(limit);
    answers := [];
    for k := 0 to |fragments|
      invariant fresh(buffer) && fresh(buffer.argsParts) && buffer.Valid() && buffer.limit == limit
      invariant buffer.args.None? && buffer.Content() == Concat(fragments[..k])
      invariant !buffer.warned && buffer.logged == [] && |answers| == k
      invariant forall j :: 0 <= j < k ==> answers[j] == HealthyAnswer(whole, Concat(fragments[..j + 1]))
    {
      ConcatNext(fragments, k);
      ConcatPrefix(fragments, k + 1);
      IngestNext(buffer, fragments[k]);
      var answer := PollHealthy(buffer, whole);
      answers := answers + [answer];
    }
  }
}
