/** The ledger and the statistics in plain numbers: what a stream of chunks adds up to, what
    is reported for it, and what the totals and rows of a session are the sums of. */
module LedgerNumbers {
  import opened Wrappers
  import opened SessionStats
  import opened StatsAlgebra
  import opened UsageLedger
  import opened LedgerRuns
  import opened LedgerStreams

  // ---- One request ----

  /** The message reports a positive count of some kind. */
  predicate ShowsTokens(m: Message) {
    m.usage.Some? && (m.usage.value.input > 0 || m.usage.value.output > 0 || m.usage.value.total > 0)
  }

  /** The message reports a count other than zero. */
  predicate HasCounts(m: Message) {
    m.usage.Some? && (m.usage.value.input != 0 || m.usage.value.output != 0 || m.usage.value.total != 0)
  }

  /** Chunk `first` is the first to show tokens. */
  predicate FirstShown(ms: seq<Message>, first: nat) {
    first < |ms| && ShowsTokens(ms[first]) && forall i :: 0 <= i < first ==> !ShowsTokens(ms[i])
  }

  /** The usages of the messages from `first` on that have counts. */
  function UsagesFrom(ms: seq<Message>, first: nat): seq<Usage> {
    if |ms| <= first then [] else
    var last := ms[|ms| - 1];
    UsagesFrom(ms[..|ms| - 1], first) + if HasCounts(last) then [last.usage.value] else []
  }

  function InputSum(us: seq<Usage>): int {
    if us == [] then 0 else InputSum(us[..|us| - 1]) + us[|us| - 1].input
  }

  function OutputSum(us: seq<Usage>): int {
    if us == [] then 0 else OutputSum(us[..|us| - 1]) + us[|us| - 1].output
  }

  function TotalSum(us: seq<Usage>): int {
    if us == [] then 0 else TotalSum(us[..|us| - 1]) + us[|us| - 1].total
  }

  function DetailSum(us: seq<Usage>, name: string): int {
    if us == [] then 0 else
    var last := us[|us| - 1].details;
    DetailSum(us[..|us| - 1], name) + if name in last then last[name] else 0
  }

  /** The usage is the sum, count by count and detail by detail. */
  ghost predicate AddsUp(u: Usage, us: seq<Usage>) {
    && u.input == InputSum(us) && u.output == OutputSum(us) && u.total == TotalSum(us)
    && forall name :: (if name in u.details then u.details[name] else 0) == DetailSum(us, name)
  }

  /** The counts shown are the positive parts; when there are none, the total stands as input. */
  predicate ShownAs(c: Contribution, u: Usage) {
    && (u.input > 0 || u.output > 0 ==>
          && c.input == (if u.input > 0 then u.input else 0)
          && c.output == (if u.output > 0 then u.output else 0))
    && (u.input <= 0 && u.output <= 0 ==> c.input == (if u.total > 0 then u.total else 0) && c.output == 0)
  }

  /** The contribution is priced as this usage of its model. */
  predicate PricedAs(pricing: Pricing, c: Contribution, u: Usage) {
    && c.cost == pricing.estimate(u, c.model, c.provider)
    && c.cacheRead == pricing.cacheReads(u) && c.cacheWrite == pricing.cacheWrites(u)
  }

  /** Chunk `k` is the last from `first` on that reports usage and names a model, or else `first`. */
  predicate NamesLast(ms: seq<Message>, first: nat, k: nat) {
    && first <= k < |ms| && (k == first || (ms[k].usage.Some? && ms[k].namesModel))
    && forall i :: k < i < |ms| ==> ms[i].usage.None? || !ms[i].namesModel
  }

  /** Chunk `k` is the last from `first` on that has counts. */
  predicate CountsLast(ms: seq<Message>, first: nat, k: nat) {
    first <= k < |ms| && HasCounts(ms[k]) && forall i :: k < i < |ms| ==> !HasCounts(ms[i])
  }

  /** The model is the one the last chunk to name one named, or what the first resolved to. */
  ghost predicate ModelSettled(ms: seq<Message>, first: nat, c: Contribution) {
    exists k: nat :: NamesLast(ms, first, k) && c.model == ms[k].model && c.provider == ms[k].provider
  }

  /** The kind is that of the last chunk with counts. */
  ghost predicate KindSettled(ms: seq<Message>, first: nat, c: Contribution) {
    exists k: nat :: CountsLast(ms, first, k) && c.kind == ms[k].kind
  }

  /** What the chunks of a request amount to, first to last. */
  ghost predicate AmountsTo(pricing: Pricing, ms: seq<Message>, first: nat, e: Entry) {
    && AddsUp(e.usage, UsagesFrom(ms, first))
    && ShownAs(e.c, e.usage) && PricedAs(pricing, e.c, e.usage) && !e.finalized
    && ModelSettled(ms, first, e.c) && KindSettled(ms, first, e.c)
  }

  lemma PushUsage(us: seq<Usage>, u: Usage)
    ensures InputSum(us + [u]) == InputSum(us) + u.input
    ensures OutputSum(us + [u]) == OutputSum(us) + u.output
    ensures TotalSum(us + [u]) == TotalSum(us) + u.total
    ensures forall name ::
      DetailSum(us + [u], name) == DetailSum(us, name) + if name in u.details then u.details[name] else 0
  {
    assert (us + [u])[..|us|] == us;
  }

  lemma AddedUp(p: Usage, us: seq<Usage>, u: Usage)
    requires AddsUp(p, us)
    ensures AddsUp(AddUsage(p, u), us + [u])
  {
    PushUsage(us, u);
    hide InputSum, OutputSum, TotalSum, DetailSum;
  }

  lemma OneUsage(u: Usage)
    ensures AddsUp(u, [u])
  {
    PushUsage([], u);
    assert [] + [u] == [u];
  }

  lemma PricedMeans(pricing: Pricing, u: Usage, model: string, provider: string, kind: Kind)
    ensures var c := Priced(pricing, u, model, provider, kind);
      ShownAs(c, u) && PricedAs(pricing, c, u) && c.model == model && c.provider == provider && c.kind == kind
  {
  }

  /** One more chunk of a request that has an entry, field by field. */
  lemma NextMeans(pricing: Pricing, p: Entry, m: Message)
    requires m.isChunk && ShownAs(p.c, p.usage) && PricedAs(pricing, p.c, p.usage) && !p.finalized
    ensures var next := Next(pricing, Some(p), m);
      var e := if next.Some? then next.value else p;
      && ShownAs(e.c, e.usage) && PricedAs(pricing, e.c, e.usage) && !e.finalized
      && e.usage == (if HasCounts(m) then AddUsage(p.usage, m.usage.value) else p.usage)
      && (e.c.model, e.c.provider) ==
         (if m.usage.Some? && m.namesModel then (m.model, m.provider) else (p.c.model, p.c.provider))
      && e.c.kind == (if HasCounts(m) then m.kind else p.c.kind)
  {
    if HasCounts(m) {
      var sum := AddUsage(p.usage, m.usage.value);
      var model := if m.namesModel then m.model else p.c.model;
      var provider := if m.namesModel then m.provider else p.c.provider;
      PricedMeans(pricing, sum, model, provider, m.kind);
      hide ShownAs, PricedAs, Priced, AddUsage;
    } else {
      hide Priced, AddUsage;
    }
  }

  lemma UsageStep(before: seq<Message>, first: nat, m: Message, p: Usage, u: Usage)
    requires first < |before| && AddsUp(p, UsagesFrom(before, first))
    requires u == if HasCounts(m) then AddUsage(p, m.usage.value) else p
    ensures AddsUp(u, UsagesFrom(before + [m], first))
  {
    assert (before + [m])[..|before|] == before;
    var us := UsagesFrom(before, first);
    assert us + [] == us;
    if HasCounts(m) { AddedUp(p, us, m.usage.value); }
    hide AddsUp, AddUsage;
  }

  /** What one more chunk makes of a request that has an entry. */
  lemma NextAmounts(pricing: Pricing, before: seq<Message>, first: nat, p: Entry, m: Message)
    requires first < |before| && HasCounts(before[first]) && m.isChunk && AmountsTo(pricing, before, first, p)
    ensures var next := Next(pricing, Some(p), m);
      AmountsTo(pricing, before + [m], first, if next.Some? then next.value else p)
  {
    hide Next, AddsUp, ShownAs, PricedAs, AddUsage, HasCounts, UsagesFrom, ModelSettled, KindSettled;
    NextMeans(pricing, p, m);
    var next := Next(pricing, Some(p), m);
    var e := if next.Some? then next.value else p;
    ModelStep(before, first, m, p.c, e.c);
    KindStep(before, first, m, p.c, e.c);
    UsageStep(before, first, m, p.usage, e.usage);
  }

  lemma ModelStep(before: seq<Message>, first: nat, m: Message, p: Contribution, c: Contribution)
    requires first < |before| && ModelSettled(before, first, p)
    requires (c.model, c.provider) ==
             if m.usage.Some? && m.namesModel then (m.model, m.provider) else (p.model, p.provider)
    ensures ModelSettled(before + [m], first, c)
  {
    var ms, n := before + [m], |before|;
    var k: nat :| NamesLast(before, first, k) && p.model == before[k].model && p.provider == before[k].provider;
    assert ms[n] == m && forall i :: 0 <= i < n ==> ms[i] == before[i];
    assert NamesLast(ms, first, if m.usage.Some? && m.namesModel then n else k);
  }

  lemma KindStep(before: seq<Message>, first: nat, m: Message, p: Contribution, c: Contribution)
    requires first < |before| && KindSettled(before, first, p)
    requires c.kind == if HasCounts(m) then m.kind else p.kind
    ensures KindSettled(before + [m], first, c)
  {
    hide HasCounts;
    var ms, n := before + [m], |before|;
    var k: nat :| CountsLast(before, first, k) && p.kind == before[k].kind;
    assert ms[n] == m && forall i :: 0 <= i < n ==> ms[i] == before[i];
    assert CountsLast(ms, first, if HasCounts(m) then n else k);
  }

  /** Chunks none of which shows tokens record nothing. */
  lemma {:induction false} NothingShown(pricing: Pricing, ms: seq<Message>)
    requires AllChunks(ms) && forall i :: 0 <= i < |ms| ==> !ShowsTokens(ms[i])
    ensures Entries(pricing, None, ms) == None
  {
    if ms != [] {
      assert forall i :: 0 <= i < |ms| - 1 ==> ms[..|ms| - 1][i] == ms[i];
      NothingShown(pricing, ms[..|ms| - 1]);
    }
  }

  /** A stream in numbers: from the first chunk that shows tokens on, every count and every
      named detail of the entry is the sum over the chunks that have counts; what is shown,
      the price, the model and the kind are those of that sum. */
  lemma {:induction false} StreamInNumbers(pricing: Pricing, ms: seq<Message>, first: nat)
    requires AllChunks(ms) && FirstShown(ms, first)
    ensures var e := Entries(pricing, None, ms); e.Some? && AmountsTo(pricing, ms, first, e.value)
    decreases |ms|
  {
    var n := |ms| - 1;
    var before, m := ms[..n], ms[n];
    assert forall i :: 0 <= i < n ==> before[i] == ms[i];
    assert before + [m] == ms;
    if n == first {
      NothingShown(pricing, before);
      FirstAmounts(pricing, ms, first);
    } else {
      StreamInNumbers(pricing, before, first);
      NextAmounts(pricing, before, first, Entries(pricing, None, before).value, m);
    }
    hide AmountsTo, Next;
  }

  lemma FirstAmounts(pricing: Pricing, ms: seq<Message>, first: nat)
    requires first == |ms| - 1 && ShowsTokens(ms[first]) && ms[first].isChunk
    ensures var next := Next(pricing, None, ms[first]);
      next.Some? && AmountsTo(pricing, ms, first, next.value)
  {
    var m := ms[first];
    assert UsagesFrom(ms[..first], first) == [];
    OneUsage(m.usage.value);
    PricedMeans(pricing, m.usage.value, m.model, m.provider, m.kind);
    assert NamesLast(ms, first, first) && CountsLast(ms, first, first);
    hide AddsUp;
  }

  /** The whole that a stream counts as, in numbers. */
  lemma WholeInNumbers(pricing: Pricing, ms: seq<Message>)
    requires AllChunks(ms)
    ensures match Whole(pricing, ms)
      case Some(e) => exists first: nat :: FirstShown(ms, first) && AmountsTo(pricing, ms, first, e)
      case None => forall i :: 0 <= i < |ms| ==> !ShowsTokens(ms[i])
  {
    hide Entries, AmountsTo, ShowsTokens;
    StreamEqualsWhole(pricing, ms);
    if i :| 0 <= i < |ms| && ShowsTokens(ms[i]) {
      var first := FindShown(ms, i);
      StreamInNumbers(pricing, ms, first);
    } else {
      NothingShown(pricing, ms);
    }
  }

  lemma {:induction false} FindShown(ms: seq<Message>, i: nat) returns (first: nat)
    requires i < |ms| && ShowsTokens(ms[i])
    ensures FirstShown(ms, first)
    decreases i
  {
    hide ShowsTokens;
    if j: nat :| j < i && ShowsTokens(ms[j]) { first := FindShown(ms, j); } else { first := i; }
  }

  // ---- Among any traffic ----

  /** What a request's chunks left in the ledger, among any other events of the round. */
  lemma RequestInNumbers(pricing: Pricing, w: World, events: seq<Event>, k: Key, first: nat)
    requires IsDict(w.ledger) && OneRound(events) && k !in w.ledger.entries
    requires AllChunks(Own(events, k)) && FirstShown(Own(events, k), first)
    ensures var ledger := Run(pricing, w, events).ledger;
      k in ledger.entries && AmountsTo(pricing, Own(events, k), first, ledger.entries[k])
  {
    hide Run, Own, OneRound, AllChunks, IsDict, AmountsTo, FirstShown, Entries;
    EntryFollowsOwnMessages(pricing, w, events, k);
    StreamInNumbers(pricing, Own(events, k), first);
  }

  /** A request none of whose chunks shows tokens has no entry. */
  lemma UnshownRequest(pricing: Pricing, w: World, events: seq<Event>, k: Key)
    requires IsDict(w.ledger) && OneRound(events) && k !in w.ledger.entries && AllChunks(Own(events, k))
    requires forall i :: 0 <= i < |Own(events, k)| ==> !ShowsTokens(Own(events, k)[i])
    ensures k !in Run(pricing, w, events).ledger.entries
  {
    hide Run, Own, OneRound, AllChunks, IsDict, Entries, ShowsTokens;
    EntryFollowsOwnMessages(pricing, w, events, k);
    NothingShown(pricing, Own(events, k));
  }

  /** The message belongs to the request under this key: its ID, under its attempt if it has one. */
  predicate BelongsTo(m: Message, k: Key) {
    && m.id != "" && m.id == k.id
    && match m.scope
       case None => k.Bare?
       case Some(scope) => k.Scoped? && k.scope == scope
  }

  /** What is reported for a message of a request: by how much the request's counts and price
      grew, what it now holds, and whether earlier figures were corrected. */
  lemma ReportInNumbers(pricing: Pricing, w: World, m: Message, k: Key)
    requires BelongsTo(m, k)
    ensures var (now, report) := Step(pricing, w, m);
      && (report.Some? ==> m.usage.Some? && k in now.ledger.entries)
      && (report.Some? ==>
            var d, e := report.value, now.ledger.entries[k];
            && d.key == Some(k) && d.requestTokens == e.c.input + e.c.output
            && (k !in w.ledger.entries ==>
                  d.input == e.c.input && d.output == e.c.output && d.cost == e.c.cost && !d.isCorrection)
            && (k in w.ledger.entries ==>
                  var p := w.ledger.entries[k];
                  && d.input == e.c.input - p.c.input && d.output == e.c.output - p.c.output
                  && (d.cost.None? <==> p.c.cost.None? && e.c.cost.None?)
                  && (d.cost.Some? ==> d.cost.value == e.c.cost.GetOr(0.0) - p.c.cost.GetOr(0.0))
                  && (d.isCorrection <==> !m.isChunk || !HasCounts(m))))
      && (report.None? && k in w.ledger.entries ==>
            var p := w.ledger.entries[k];
            k in now.ledger.entries && var e := now.ledger.entries[k];
            && e.usage == p.usage && e.finalized == p.finalized && e.c.kind == p.c.kind
            && (e.c.input, e.c.output, e.c.cost) == (p.c.input, p.c.output, p.c.cost))
      && (report.None? && k !in w.ledger.entries ==> now == w)
      && (forall j :: j != k ==> (j in now.ledger.entries <==> j in w.ledger.entries))
      && (forall j :: j != k && j in w.ledger.entries ==> now.ledger.entries[j] == w.ledger.entries[j])
  {
    hide Record, Retract, Priced, AddUsage;
    assert RequestKey(m) == Some(k);
  }

  /** A message without an ID leaves the ledger alone: its usage counts as a request of its own. */
  lemma UnkeyedInNumbers(pricing: Pricing, w: World, m: Message)
    requires m.id == ""
    ensures var (now, report) := Step(pricing, w, m);
      && now.ledger == w.ledger && (report.Some? <==> ShowsTokens(m)) && (!ShowsTokens(m) ==> now == w)
      && (ShowsTokens(m) ==>
            exists c :: && now.stats == Record(w.stats, c)
              && ShownAs(c, m.usage.value) && PricedAs(pricing, c, m.usage.value)
              && (c.model, c.provider, c.kind) == (m.model, m.provider, m.kind)
              && report.value == Delta(c.input, c.output, c.cost, c.input + c.output, None, false))
  {
    if ShowsTokens(m) {
      PricedMeans(pricing, m.usage.value, m.model, m.provider, m.kind);
      var c := Priced(pricing, m.usage.value, m.model, m.provider, m.kind);
      assert Step(pricing, w, m).0.stats == Record(w.stats, c);
    }
    hide Record, Retract, Priced, ShownAs, PricedAs;
  }

  /** The entry is that of a completed message: its own usage, closed. */
  ghost predicate IsCompleted(pricing: Pricing, e: Option<Entry>, done: Message)
    requires done.usage.Some?
  {
    && e.Some? && e.value.finalized && e.value.usage == done.usage.value && e.value.c.kind == done.kind
    && ShownAs(e.value.c, done.usage.value) && PricedAs(pricing, e.value.c, done.usage.value)
    && (done.namesModel ==> (e.value.c.model, e.value.c.provider) == (done.model, done.provider))
  }

  /** A completed message whose chunks showed nothing. */
  lemma CompletionAlone(pricing: Pricing, chunks: seq<Message>, done: Message)
    requires AllChunks(chunks) && !done.isChunk && done.usage.Some?
    requires forall i :: 0 <= i < |chunks| ==> !ShowsTokens(chunks[i])
    ensures var e := Entries(pricing, None, chunks + [done]);
      if ShowsTokens(done) then
        IsCompleted(pricing, e, done) && (e.value.c.model, e.value.c.provider) == (done.model, done.provider)
      else e == None
  {
    assert (chunks + [done])[..|chunks|] == chunks;
    NothingShown(pricing, chunks);
    PricedMeans(pricing, done.usage.value, done.model, done.provider, done.kind);
    hide ShownAs, PricedAs, Priced;
  }

  /** A completed message after chunks of which `first` is the first to show tokens: its own
      usage, even one of zeros, under the model it names or else the one they had settled on. */
  lemma CompletionInNumbers(pricing: Pricing, chunks: seq<Message>, done: Message, first: nat)
    requires AllChunks(chunks) && !done.isChunk && done.usage.Some? && FirstShown(chunks, first)
    ensures var e := Entries(pricing, None, chunks + [done]);
      IsCompleted(pricing, e, done) && (!done.namesModel ==> ModelSettled(chunks, first, e.value.c))
  {
    assert (chunks + [done])[..|chunks|] == chunks;
    StreamInNumbers(pricing, chunks, first);
    hide ShownAs, PricedAs, Priced, AddsUp, FirstShown, KindSettled, AllChunks, AddUsage;
    var p := Entries(pricing, None, chunks).value;
    var model := if done.namesModel then done.model else p.c.model;
    var provider := if done.namesModel then done.provider else p.c.provider;
    PricedMeans(pricing, done.usage.value, model, provider, done.kind);
  }

  /** Two chunks of one request, cut as providers cut them: the input with the first, the rest
      of the output with the second. */
  lemma TwoChunks(pricing: Pricing, w: World, a: Message, b: Message, k: Key)
    requires k !in w.ledger.entries && BelongsTo(a, k) && BelongsTo(b, k) && a.isChunk && b.isChunk
    requires a.usage == Some(Usage(10, 5, 15, map[])) && b.usage == Some(Usage(0, 7, 7, map["reasoning" := 3]))
    ensures var (one, first) := Step(pricing, w, a);
      var (two, second) := Step(pricing, one, b);
      && first.Some? && (first.value.input, first.value.output) == (10, 5)
      && second.Some? && (second.value.input, second.value.output) == (0, 7) && second.value.requestTokens == 22
      && k in two.ledger.entries
      && var e := two.ledger.entries[k];
      && (e.c.input, e.c.output) == (10, 12)
      && e.usage == Usage(10, 12, 22, map["reasoning" := 3])
  {
    hide Record, Retract;
    assert RequestKey(a) == RequestKey(b) == Some(k);
    var sum := AddUsage(a.usage.value, b.usage.value);
    assert sum.details == map["reasoning" := 3];
  }

  // ---- The totals and the rows ----

  /** The contributions of a log that were not retracted and pass the test. */
  function Pick(log: Log, test: Contribution -> bool): seq<Contribution> {
    if log == [] then [] else
    var last := log[|log| - 1];
    Pick(log[..|log| - 1], test) + if last.Some? && test(last.value) then [last.value] else []
  }

  function InputOf(cs: seq<Contribution>): int {
    if cs == [] then 0 else InputOf(cs[..|cs| - 1]) + cs[|cs| - 1].input
  }

  function OutputOf(cs: seq<Contribution>): int {
    if cs == [] then 0 else OutputOf(cs[..|cs| - 1]) + cs[|cs| - 1].output
  }

  function CostOf(cs: seq<Contribution>): real {
    if cs == [] then 0.0 else
    CostOf(cs[..|cs| - 1]) + match cs[|cs| - 1].cost { case Some(cost) => cost case None => 0.0 }
  }

  function PricedOf(cs: seq<Contribution>): nat {
    if cs == [] then 0 else PricedOf(cs[..|cs| - 1]) + if cs[|cs| - 1].cost.Some? then 1 else 0
  }

  function CacheReadOf(cs: seq<Contribution>): int {
    if cs == [] then 0 else CacheReadOf(cs[..|cs| - 1]) + cs[|cs| - 1].cacheRead
  }

  function CacheWriteOf(cs: seq<Contribution>): int {
    if cs == [] then 0 else CacheWriteOf(cs[..|cs| - 1]) + cs[|cs| - 1].cacheWrite
  }

  /** The row holds the number of these contributions and their sums. */
  predicate IsRowOf(row: Row, cs: seq<Contribution>) {
    && row.requests == |cs| && row.input == InputOf(cs) && row.output == OutputOf(cs)
    && row.cost == CostOf(cs) && row.priced == PricedOf(cs)
  }

  function Any(): Contribution -> bool {
    c => true
  }

  function HasKind(kind: Kind): Contribution -> bool {
    (c: Contribution) => c.kind == kind
  }

  /** An unnamed model has no row. */
  function HasModel(key: ModelKey): Contribution -> bool {
    (c: Contribution) => c.model != "" && c.model == key.model && c.provider == key.provider
  }

  lemma RowPush(row: Row, cs: seq<Contribution>, c: Contribution)
    requires IsRowOf(row, cs)
    ensures IsRowOf(Plus(row, AsRow(c)), cs + [c])
  {
    assert (cs + [c])[..|cs|] == cs;
  }

  lemma {:induction false} SumIsRow(log: Log, bin: Bin, test: Contribution -> bool)
    requires forall c :: test(c) <==> In(c, bin)
    ensures IsRowOf(Sum(log, bin), Pick(log, test))
  {
    if log != [] {
      var before, last := log[..|log| - 1], log[|log| - 1];
      SumIsRow(before, bin, test);
      var cs := Pick(before, test);
      if last.Some? && test(last.value) { RowPush(Sum(before, bin), cs, last.value); } else { assert cs + [] == cs; }
    }
    hide IsRowOf;
  }

  lemma {:induction false} CachesArePlain(log: Log)
    ensures CacheReads(log) == CacheReadOf(Pick(log, Any()))
    ensures CacheWrites(log) == CacheWriteOf(Pick(log, Any()))
  {
    if log != [] {
      var before, last := log[..|log| - 1], log[|log| - 1];
      CachesArePlain(before);
      var cs := Pick(before, Any());
      if last.Some? { assert (cs + [last.value])[..|cs|] == cs; } else { assert cs + [] == cs; }
    }
  }

  /** What statistics that agree with a log hold: the number, the sums and the caches of its
      live contributions, and a row for exactly the kinds and the named models that some live
      contribution is of, with the number and the sums of those. */
  lemma TotalsInNumbers(st: Stats, log: Log)
    requires Agrees(st, log)
    ensures var all := Pick(log, Any());
      IsRowOf(st.total, all) && st.cacheRead == CacheReadOf(all) && st.cacheWrite == CacheWriteOf(all)
    ensures forall kind :: var those := Pick(log, HasKind(kind));
      if those == [] then kind !in st.perKind else kind in st.perKind && IsRowOf(st.perKind[kind], those)
    ensures forall key :: var those := Pick(log, HasModel(key));
      if those == [] then key !in st.perModel else key in st.perModel && IsRowOf(st.perModel[key], those)
  {
    SumIsRow(log, All, Any());
    CachesArePlain(log);
    forall kind ensures IsRowOf(Sum(log, OfKind(kind)), Pick(log, HasKind(kind))) {
      SumIsRow(log, OfKind(kind), HasKind(kind));
    }
    forall key ensures IsRowOf(Sum(log, OfModel(key)), Pick(log, HasModel(key))) {
      SumIsRow(log, OfModel(key), HasModel(key));
    }
    hide Sum, Pick, HasKind, HasModel, InputOf, OutputOf, CostOf, PricedOf, CacheReadOf, CacheWriteOf;
  }
}
