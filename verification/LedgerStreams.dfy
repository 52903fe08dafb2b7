/** Streaming equals whole, completions supersede their chunks, and closed rounds
    are immune to replays. */
module LedgerStreams {
  import opened Wrappers
  import opened SessionStats
  import opened StatsAlgebra
  import opened UsageLedger
  import opened LedgerRuns

  // ---- Streaming equals whole ----

  /** The entry of one request after its messages, one at a time. */
  function Entries(pricing: Pricing, previous: Option<Entry>, ms: seq<Message>): Option<Entry> {
    if ms == [] then previous else
    var e := Entries(pricing, previous, ms[..|ms| - 1]);
    var next := Next(pricing, e, ms[|ms| - 1]);
    if next.Some? then next else e
  }

  /** Chunks of one request, the first with counts to show. */
  predicate IsStream(ms: seq<Message>) {
    && ms != []
    && (forall i :: 0 <= i < |ms| ==> ms[i].isChunk && ms[i].usage.Some?)
    && Displayable(ms[0].usage.value)
  }

  /** The sum of the usages of the chunks that carry counts. */
  function StreamUsage(ms: seq<Message>): Usage
    requires IsStream(ms)
  {
    var u := ms[|ms| - 1].usage.value;
    if |ms| == 1 then u
    else if Carries(u) then AddUsage(StreamUsage(ms[..|ms| - 1]), u)
    else StreamUsage(ms[..|ms| - 1])
  }

  /** The model the last chunk to name one named, or what the first chunk resolved to. */
  function StreamModel(ms: seq<Message>): (string, string)
    requires IsStream(ms)
  {
    var last := ms[|ms| - 1];
    if |ms| == 1 || last.namesModel then (last.model, last.provider) else StreamModel(ms[..|ms| - 1])
  }

  /** The kind under which the last chunk with counts was recorded. */
  function StreamKind(ms: seq<Message>): Kind
    requires IsStream(ms)
  {
    var last := ms[|ms| - 1];
    if |ms| == 1 || Carries(last.usage.value) then last.kind else StreamKind(ms[..|ms| - 1])
  }

  /** One request for the whole stream: the summed usage, priced once, under one model. */
  function WholeEntry(pricing: Pricing, ms: seq<Message>): Entry
    requires IsStream(ms)
  {
    var u := StreamUsage(ms);
    var model := StreamModel(ms);
    Entry(Priced(pricing, u, model.0, model.1, StreamKind(ms)), u, false)
  }

  lemma {:induction false} StreamIsWhole(pricing: Pricing, ms: seq<Message>)
    requires IsStream(ms)
    ensures Entries(pricing, None, ms) == Some(WholeEntry(pricing, ms))
    decreases |ms|
  {
    var before, last := ms[..|ms| - 1], ms[|ms| - 1];
    if |ms| == 1 {
      assert Entries(pricing, None, before) == None;
    } else {
      StreamIsWhole(pricing, before);
      var p := WholeEntry(pricing, before);
      if !Carries(last.usage.value) { SameModelSamePrice(pricing, p, last); }
    }
  }

  /** Naming the model a request already has leaves its price as it is. */
  lemma SameModelSamePrice(pricing: Pricing, p: Entry, m: Message)
    requires p.c == Priced(pricing, p.usage, p.c.model, p.c.provider, p.c.kind) && !p.finalized
    requires m.isChunk && m.usage.Some? && !Carries(m.usage.value)
    ensures var next := Next(pricing, Some(p), m);
      (if next.Some? then next.value else p) ==
        if m.namesModel then p.(c := Priced(pricing, p.usage, m.model, m.provider, p.c.kind)) else p
  {
  }

  /** The messages that bear on a request: the first with counts to show, and from there on
      those with usage at all. */
  function Counted(ms: seq<Message>): seq<Message> {
    if ms == [] then [] else
    var before, last := Counted(ms[..|ms| - 1]), ms[|ms| - 1];
    if last.usage.None? || (before == [] && !Displayable(last.usage.value)) then before else before + [last]
  }

  predicate AllChunks(ms: seq<Message>) {
    forall i :: 0 <= i < |ms| ==> ms[i].isChunk
  }

  lemma {:induction false} CountedIsStream(ms: seq<Message>)
    requires AllChunks(ms) && Counted(ms) != []
    ensures IsStream(Counted(ms))
  {
    hide Displayable;
    var before := ms[..|ms| - 1];
    if Counted(before) != [] { CountedIsStream(before); }
  }

  /** Messages without usage, and leading ones without counts, leave no trace. */
  lemma {:induction false} EntriesCounted(pricing: Pricing, ms: seq<Message>)
    ensures Entries(pricing, None, ms) == Entries(pricing, None, Counted(ms))
  {
    hide Next;
    if ms != [] {
      var before, last := ms[..|ms| - 1], ms[|ms| - 1];
      EntriesCounted(pricing, before);
      assert (Counted(before) + [last])[..|Counted(before)|] == Counted(before);
      NothingCounted(pricing, last);
    }
  }

  lemma NothingCounted(pricing: Pricing, m: Message)
    ensures m.usage.None? ==> forall p :: Next(pricing, p, m) == None
    ensures m.usage.Some? && !Displayable(m.usage.value) ==> Next(pricing, None, m) == None
  {
  }

  /** What any chunks of a request amount to, if to anything. */
  function Whole(pricing: Pricing, ms: seq<Message>): Option<Entry>
    requires AllChunks(ms)
  {
    if Counted(ms) == [] then None else
    CountedIsStream(ms);
    Some(WholeEntry(pricing, Counted(ms)))
  }

  /** However its usage was cut into chunks, with whatever chunks between that carry none,
      the request ends up as the sum of them: the counts to show of the sum, and the price of
      the sum under the model finally named, never a sum of prices at different rates. */
  lemma {:induction false} StreamEqualsWhole(pricing: Pricing, ms: seq<Message>)
    requires AllChunks(ms)
    ensures Entries(pricing, None, ms) == Whole(pricing, ms)
  {
    hide WholeEntry, Counted, AllChunks, IsStream;
    EntriesCounted(pricing, ms);
    if Counted(ms) != [] {
      CountedIsStream(ms);
      StreamIsWhole(pricing, Counted(ms));
    }
  }

  // ---- Interleaved requests do not disturb each other ----

  predicate Concerns(ev: Event, k: Key) {
    ev.Msg? && RequestKey(ev.m) == Some(k)
  }

  /** The messages of one request among all events. */
  function Own(events: seq<Event>, k: Key): seq<Message> {
    if events == [] then [] else
    var last := events[|events| - 1];
    Own(events[..|events| - 1], k) + if Concerns(last, k) then [last.m] else []
  }

  /** All other events. */
  function Others(events: seq<Event>, k: Key): (others: seq<Event>)
    ensures OneRound(events) ==> OneRound(others)
  {
    if events == [] then [] else
    var last := events[|events| - 1];
    Others(events[..|events| - 1], k) + if Concerns(last, k) then [] else [last]
  }

  /** No round is closed meanwhile. */
  predicate OneRound(events: seq<Event>) {
    forall i :: 0 <= i < |events| ==> !events[i].Finalize?
  }

  /** Within a round a request's entry depends on its own messages only, however they are
      interleaved with those of other requests and with direct recordings. */
  lemma {:induction false} EntryFollowsOwnMessages(pricing: Pricing, w: World, events: seq<Event>, k: Key)
    requires IsDict(w.ledger) && OneRound(events)
    ensures Lookup(Run(pricing, w, events).ledger, Some(k)) ==
            Entries(pricing, Lookup(w.ledger, Some(k)), Own(events, k))
  {
    hide Step, IsDict, Next;
    if events != [] {
      var before, last := events[..|events| - 1], events[|events| - 1];
      EntryFollowsOwnMessages(pricing, w, before, k);
      var own := Own(before, k);
      assert own + [] == own;
      if last.Msg? {
        StepEntry(pricing, Run(pricing, w, before), last.m, k);
        assert (own + [last.m])[..|own|] == own;
      }
    }
  }

  /** Streaming equals whole, among any interleaved traffic of the round. */
  lemma StreamEqualsWholeInterleaved(pricing: Pricing, w: World, events: seq<Event>, k: Key)
    requires IsDict(w.ledger) && OneRound(events) && k !in w.ledger.entries && AllChunks(Own(events, k))
    ensures Lookup(Run(pricing, w, events).ledger, Some(k)) == Whole(pricing, Own(events, k))
  {
    hide Run, Whole, Own, OneRound, AllChunks, IsDict;
    EntryFollowsOwnMessages(pricing, w, events, k);
    StreamEqualsWhole(pricing, Own(events, k));
  }

  /** `w` is `rest` with one more request, under `k`. */
  ghost predicate WithRequest(w: World, rest: World, k: Key, e: Option<Entry>) {
    && k !in rest.ledger.entries
    && w.stats == (if e.Some? then Record(rest.stats, e.value.c) else rest.stats)
    && w.ledger.entries == (if e.Some? then rest.ledger.entries[k := e.value] else rest.ledger.entries)
  }

  /** A message of the request itself. */
  lemma OwnMessage(pricing: Pricing, w: World, rest: World, log: Log, k: Key, e: Option<Entry>, m: Message)
    requires WithRequest(w, rest, k, e) && Agrees(rest.stats, log) && RequestKey(m) == Some(k)
    ensures var next := Next(pricing, e, m);
      WithRequest(Step(pricing, w, m).0, rest, k, if next.Some? then next else e)
  {
    hide Next, Record, Retract, Agrees, Report;
    if e.Some? { RetractUndoesRecord(rest.stats, log, e.value.c); }
  }

  /** A recording elsewhere, with what it replaces. */
  lemma RecordElsewhere(st: Stats, own: Contribution, c: Contribution)
    ensures Record(Record(st, own), c) == Record(Record(st, c), own)
  {
    hide Plus, AsRow;
    PlusSwap(st.total, AsRow(own), AsRow(c));
    FiledSwap(st.perKind, own.kind, own, c.kind, c);
    FiledSwap(st.perModel, KeyOf(own), own, KeyOf(c), c);
    hide Filed;
  }

  lemma FiledSwap<K>(rows: map<K, Row>, j: K, c: Contribution, k: K, d: Contribution)
    ensures Filed(Filed(rows, j, c), k, d) == Filed(Filed(rows, k, d), j, c)
  {
    hide Plus, AsRow;
    if j == k {
      var row := if k in rows then rows[k] else ZERO;
      PlusSwap(row, AsRow(c), AsRow(d));
    }
    var x, y := Filed(Filed(rows, j, c), k, d), Filed(Filed(rows, k, d), j, c);
    assert x.Keys == y.Keys;
  }

  /** An event of the same round that does not concern the request. */
  lemma OtherEvent(pricing: Pricing, w: World, t: Tracked, k: Key, e: Option<Entry>, ev: Event)
    requires IsDict(w.ledger) && Consistent(t) && WithRequest(w, t.w, k, e) && !ev.Finalize? && !Concerns(ev, k)
    ensures WithRequest(Apply(pricing, w, ev), Apply(pricing, t.w, ev), k, e)
  {
    hide Next, Record, Retract, Agrees, Report, IsDict;
    match ev
    case Direct(c) => if e.Some? { RecordElsewhere(t.w.stats, e.value.c, c); }
    case Msg(m) =>
      var previous := Lookup(t.w.ledger, RequestKey(m));
      var next := Next(pricing, previous, m);
      if next.Some? && e.Some? {
        var rest := if previous.Some? then Retract(t.w.stats, previous.value.c) else t.w.stats;
        if previous.Some? {
          OnlyOpenIsReplaced(pricing, previous.value, m);
          RetractCommutes(t.w.stats, t.log, t.slot[RequestKey(m).value], e.value.c);
        }
        RecordElsewhere(rest, e.value.c, next.value.c);
      }
  }

  /** A request's messages and everything else of a round go their own ways: the ledger and
      the statistics are those of the other events alone, with the request as its own
      messages leave it recorded once on top. */
  lemma {:induction false} RequestsAreIndependent(pricing: Pricing, t: Tracked, events: seq<Event>, k: Key)
    requires Consistent(t) && OneRound(events) && k !in t.w.ledger.entries
    ensures IsDict(t.w.ledger)
    ensures WithRequest(Run(pricing, t.w, events), Run(pricing, t.w, Others(events, k)), k,
                        Entries(pricing, None, Own(events, k)))
  {
    hide Apply, Next, Consistent, WithRequest, IsDict;
    ConsistentIsDict(t);
    if events == [] {
      NoRequestYet(t.w, k);
    } else {
      var before, last := events[..|events| - 1], events[|events| - 1];
      RequestsAreIndependent(pricing, t, before, k);
      var w, others, own := Run(pricing, t.w, before), Others(before, k), Own(before, k);
      RunsStayConsistent(pricing, t, others);
      var now := TrackFrom(pricing, t, others);
      var e := Entries(pricing, None, own);
      if Concerns(last, k) {
        assert (own + [last.m])[..|own|] == own && others + [] == others;
        OwnMessageOfEvent(pricing, w, now, k, e, last);
      } else {
        assert (others + [last])[..|others|] == others && own + [] == own;
        OtherEvent(pricing, w, now, k, e, last);
      }
    }
  }

  lemma NoRequestYet(w: World, k: Key)
    requires k !in w.ledger.entries
    ensures WithRequest(w, w, k, None)
  {
  }

  lemma OwnMessageOfEvent(pricing: Pricing, w: World, t: Tracked, k: Key, e: Option<Entry>, ev: Event)
    requires IsDict(w.ledger) && Consistent(t) && WithRequest(w, t.w, k, e) && Concerns(ev, k)
    ensures var next := Next(pricing, e, ev.m);
      WithRequest(Apply(pricing, w, ev), t.w, k, if next.Some? then next else e)
  {
    hide Next, Step, WithRequest, Agrees;
    OwnMessage(pricing, w, t.w, t.log, k, e, ev.m);
  }

  /** After any history, a stream of chunks counts as one recording of its whole, on top of
      whatever else the round brought, and not at all when no chunk had counts to show. */
  lemma StreamCountsOnce(pricing: Pricing, history: seq<Event>, events: seq<Event>, k: Key)
    requires OneRound(events) && k !in Run(pricing, START, history).ledger.entries && AllChunks(Own(events, k))
    ensures var w := Run(pricing, START, history);
      WithRequest(Run(pricing, w, events), Run(pricing, w, Others(events, k)), k, Whole(pricing, Own(events, k)))
  {
    hide Run, Whole, Own, Others, OneRound, AllChunks, IsDict, Consistent, WithRequest, TrackFrom;
    RunsAreConsistent(pricing, history);
    RequestsAreIndependent(pricing, TrackAll(pricing, history), events, k);
    StreamEqualsWhole(pricing, Own(events, k));
  }

  /** What a completed message leaves of its request after some chunks: its own usage, priced
      under the model it names, or else under the one the chunks had settled on. */
  function Completion(pricing: Pricing, chunks: seq<Message>, done: Message): Entry
    requires AllChunks(chunks) && done.usage.Some?
  {
    var model := if done.namesModel || Counted(chunks) == [] then (done.model, done.provider)
                 else (CountedIsStream(chunks); StreamModel(Counted(chunks)));
    Entry(Priced(pricing, done.usage.value, model.0, model.1, done.kind), done.usage.value, true)
  }

  /** After any history, a completed message replaces all that its request's chunks amounted
      to: whatever chunks came before it, whatever came after, and whatever else the round
      brought. It counts if it has counts to show, or if a chunk had. */
  lemma CompletionClosesStream(pricing: Pricing, history: seq<Event>, events: seq<Event>, k: Key,
                               chunks: seq<Message>, done: Message, after: seq<Message>)
    requires OneRound(events) && k !in Run(pricing, START, history).ledger.entries
    requires Own(events, k) == chunks + [done] + after && AllChunks(chunks)
    requires !done.isChunk && done.usage.Some? && (Displayable(done.usage.value) || Counted(chunks) != [])
    ensures var w := Run(pricing, START, history);
      WithRequest(Run(pricing, w, events), Run(pricing, w, Others(events, k)), k,
                  Some(Completion(pricing, chunks, done)))
  {
    hide Run, Own, Others, OneRound, AllChunks, IsDict, Consistent, WithRequest, TrackFrom, Next, Completion;
    RunsAreConsistent(pricing, history);
    RequestsAreIndependent(pricing, TrackAll(pricing, history), events, k);
    CompletionDecides(pricing, chunks, done, after);
  }

  lemma {:induction false} CompletionDecides(pricing: Pricing, chunks: seq<Message>, done: Message, after: seq<Message>)
    requires AllChunks(chunks)
    requires !done.isChunk && done.usage.Some? && (Displayable(done.usage.value) || Counted(chunks) != [])
    ensures Entries(pricing, None, chunks + [done] + after) == Some(Completion(pricing, chunks, done))
    decreases |after|
  {
    hide Displayable, DisplayCounts, StreamModel;
    var all := chunks + [done] + after;
    if after == [] {
      assert all[..|all| - 1] == chunks;
      StreamEqualsWhole(pricing, chunks);
    } else {
      assert all[..|all| - 1] == chunks + [done] + after[..|after| - 1];
      CompletionDecides(pricing, chunks, done, after[..|after| - 1]);
      OnlyOpenIsReplaced(pricing, Completion(pricing, chunks, done), after[|after| - 1]);
    }
  }

  /** One that names a model and has counts to show leaves statistics and ledger as if it
      alone had arrived for its request. */
  lemma CompletionSupersedesStream(pricing: Pricing, history: seq<Event>, events: seq<Event>, k: Key,
                                   chunks: seq<Message>, done: Message, after: seq<Message>)
    requires OneRound(events) && k !in Run(pricing, START, history).ledger.entries
    requires Own(events, k) == chunks + [done] + after && AllChunks(chunks)
    requires !done.isChunk && done.namesModel && done.usage.Some? && Displayable(done.usage.value)
    ensures var w := Run(pricing, START, history);
      && Next(pricing, None, done).Some?
      && WithRequest(Run(pricing, w, events), Run(pricing, w, Others(events, k)), k, Next(pricing, None, done))
  {
    hide Run, Own, Others, OneRound, AllChunks, IsDict, WithRequest, Counted, Priced;
    CompletionClosesStream(pricing, history, events, k, chunks, done, after);
  }

  // ---- Replays ----

  lemma FinalizedIsIgnored(pricing: Pricing, w: World, m: Message)
    requires Lookup(w.ledger, RequestKey(m)).Some? && Lookup(w.ledger, RequestKey(m)).value.finalized
    ensures Step(pricing, w, m) == (w, None)
  {
    OnlyOpenIsReplaced(pricing, Lookup(w.ledger, RequestKey(m)).value, m);
  }

  /** Replay immunity: once a round is closed, a message or chunk of any request then in
      the ledger, under the same scope or under none, changes nothing and reports
      nothing, whatever has happened since. */
  lemma ReplaysAreIgnored(pricing: Pricing, w: World, since: seq<Event>, k: Key, m: Message)
    requires IsDict(w.ledger) && k in w.ledger.entries
    requires RequestKey(m) == Some(k) || RequestKey(m) == Some(Bare(k.id))
    ensures var closed := Apply(pricing, w, Finalize);
      var now := Run(pricing, closed, since);
      Step(pricing, now, m) == (now, None)
  {
    hide Step, IsDict, CloseItems;
    var closed := Apply(pricing, w, Finalize);
    FinalizedEntries(w.ledger, k);
    FinalizedEntries(w.ledger, Bare(k.id));
    FinalizedForever(pricing, closed, since, RequestKey(m).value);
    FinalizedIsIgnored(pricing, Run(pricing, closed, since), m);
  }

  /** The same message ID under an attempt not seen before is a request of its own. */
  lemma NewAttemptCounts(pricing: Pricing, w: World, m: Message)
    requires m.usage.Some? && Displayable(m.usage.value) && m.scope.Some? && m.id != ""
    requires Scoped(m.scope.value, m.id) !in w.ledger.entries
    ensures var r := Step(pricing, w, m).0;
      && r.stats.total.requests == w.stats.total.requests + 1
      && (forall k :: k in w.ledger.entries ==> k in r.ledger.entries && r.ledger.entries[k] == w.ledger.entries[k])
      && (Bare(m.id) in r.ledger.entries <==> Bare(m.id) in w.ledger.entries)
  {
  }

  // ---- The bucket a reported delta belongs to ----

  /** The string that names a request's pool of provisional dollars; `repr` spells a scope. */
  function BucketKey(repr: int -> string, k: Key): string {
    match k
    case Bare(id) => id
    case Scoped(scope, id) => repr(scope) + "\0" + id
  }

  predicate NulFree(s: string) {
    forall i :: 0 <= i < |s| ==> s[i] != '\0'
  }

  lemma NulIsPast(y: string, j: string, n: nat)
    requires NulFree(y) && n < |y + "\0" + j| && (y + "\0" + j)[n] == '\0'
    ensures |y| <= n
  {
  }

  lemma SplitAtNul(x: string, i: string, y: string, j: string)
    requires NulFree(x) && NulFree(y) && x + "\0" + i == y + "\0" + j
    ensures x == y && i == j
  {
    var s, t := x + "\0" + i, y + "\0" + j;
    assert s[|x|] == '\0' && t[|y|] == '\0';
    NulIsPast(y, j, |x|);
    NulIsPast(x, i, |y|);
    assert x == s[..|x|] && y == t[..|x|];
    assert i == s[|x| + 1..] && j == t[|x| + 1..];
  }

  /** Buckets separate exactly what the ledger separates, but for one case: a bare
      message ID that spells out another key's scope, a NUL and its ID. */
  lemma BucketsCollideIff(repr: int -> string, a: Key, b: Key)
    requires forall s :: NulFree(repr(s))
    requires forall s, t :: repr(s) == repr(t) ==> s == t
    ensures a != b && BucketKey(repr, a) == BucketKey(repr, b) <==>
      || (a.Bare? && b.Scoped? && a.id == repr(b.scope) + "\0" + b.id)
      || (b.Bare? && a.Scoped? && b.id == repr(a.scope) + "\0" + a.id)
  {
    if a.Scoped? && b.Scoped? && BucketKey(repr, a) == BucketKey(repr, b) {
      SplitAtNul(repr(a.scope), a.id, repr(b.scope), b.id);
    }
  }

  /** A bare message ID that spells out a scope, a NUL and an ID. */
  lemma BucketsCollide(repr: int -> string, bare: Key, scoped: Key)
    requires repr(1) == "1" && bare == Bare("1\0m") && scoped == Scoped(1, "m")
    ensures bare != scoped && BucketKey(repr, bare) == BucketKey(repr, scoped)
  {
    assert "1\0m" == "1" + "\0" + "m";
  }
}
