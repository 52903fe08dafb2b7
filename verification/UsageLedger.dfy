/** The recorded-request ledger: how streamed messages record, revise, move, replace
    and close requests. */
module UsageLedger {
  import opened Wrappers
  import opened SessionStats

  // ---- Usage metadata ----

  /** A message's token counts (an absent count is zero) and its nested details. */
  datatype Usage = Usage(input: int, output: int, total: int, details: map<string, int>)

  function DetailOf(m: map<string, int>, k: string): int {
    if k in m then m[k] else 0
  }

  /** LangChain's `add_usage`: field by field. */
  function AddUsage(a: Usage, b: Usage): Usage {
    Usage(a.input + b.input, a.output + b.output, a.total + b.total,
          map k | k in a.details.Keys + b.details.Keys :: DetailOf(a.details, k) + DetailOf(b.details, k))
  }

  function PositiveInt(n: int): nat {
    if n > 0 then n else 0
  }

  predicate Carries(u: Usage) {
    u.input != 0 || u.output != 0 || u.total != 0
  }

  /** The `(input, output)` counts to show. */
  function DisplayCounts(u: Usage): (int, int) {
    var i, o := PositiveInt(u.input), PositiveInt(u.output);
    if i == 0 && o == 0 then (PositiveInt(u.total), 0) else (i, o)
  }

  predicate Displayable(u: Usage) {
    DisplayCounts(u) != (0, 0)
  }

  /** The pricing and cache-count functions, about which nothing is known. */
  datatype Pricing = Pricing(
    estimate: (Usage, string, string) -> Option<real>,
    cacheReads: Usage -> int, cacheWrites: Usage -> int)

  // ---- Requests ----

  /** A message ID, alone or under the attempt that produced it. */
  datatype Key = Bare(id: string) | Scoped(scope: int, id: string)

  /** `RecordedRequest` */
  datatype Entry = Entry(c: Contribution, usage: Usage, finalized: bool)

  /** One streamed message with everything `record_message_usage` reads off it; `model`
      and `provider` are what model resolution answers, `namesModel` whether the
      message's own metadata names the model. */
  datatype Message = Message(
    id: string, scope: Option<int>, isChunk: bool, usage: Option<Usage>,
    namesModel: bool, model: string, provider: string, kind: Kind)

  /** `RecordedUsage` */
  datatype Delta = Delta(input: int, output: int, cost: Option<real>, requestTokens: int,
                         key: Option<Key>, isCorrection: bool)

  function RequestKey(m: Message): Option<Key> {
    if m.id == "" then None
    else if m.scope.Some? then Some(Scoped(m.scope.value, m.id))
    else Some(Bare(m.id))
  }

  /** The contribution a usage makes under a model. */
  function Priced(pricing: Pricing, u: Usage, model: string, provider: string, kind: Kind): Contribution {
    var counts := DisplayCounts(u);
    Contribution(model, provider, kind, counts.0, counts.1, pricing.cacheReads(u), pricing.cacheWrites(u),
                 pricing.estimate(u, model, provider))
  }

  function CostDelta(previous: Option<real>, cost: Option<real>): Option<real> {
    match (previous, cost)
    case (None, None) => None
    case (Some(p), None) => Some(-p)
    case (_, Some(c)) => Some(c - previous.GetOr(0.0))
  }

  // ---- One message, as a decision about its request's entry ----

  /** The entry a message leaves for its request, or `None` when it changes nothing. */
  function Next(pricing: Pricing, previous: Option<Entry>, m: Message): Option<Entry> {
    match (m.usage, previous)
    case (None, _) => None
    case (Some(u), None) =>
      if !Displayable(u) then None
      else Some(Entry(Priced(pricing, u, m.model, m.provider, m.kind), u, !m.isChunk))
    case (Some(u), Some(p)) =>
      var model := if m.namesModel then m.model else p.c.model;
      var provider := if m.namesModel then m.provider else p.c.provider;
      if p.finalized then None
      else if !m.isChunk then Some(Entry(Priced(pricing, u, model, provider, m.kind), u, true))
      else if Carries(u) then
        var sum := AddUsage(p.usage, u);
        Some(Entry(Priced(pricing, sum, model, provider, m.kind), sum, false))
      else if m.namesModel && (m.model, m.provider) != (p.c.model, p.c.provider) then
        Some(p.(c := p.c.(model := m.model, provider := m.provider,
                          cost := pricing.estimate(p.usage, m.model, m.provider))))
      else None
  }

  /** What is reported for replacing `previous` by `next`. */
  function Report(previous: Option<Entry>, next: Entry, m: Message): Option<Delta> {
    match previous
    case None =>
      Some(Delta(next.c.input, next.c.output, next.c.cost, next.c.input + next.c.output, RequestKey(m), false))
    case Some(p) =>
      var cost := CostDelta(p.c.cost, next.c.cost);
      var moved := m.isChunk && m.usage.Some? && !Carries(m.usage.value);
      if moved && cost.None? then None
      else Some(Delta(next.c.input - p.c.input, next.c.output - p.c.output, cost,
                      next.c.input + next.c.output, RequestKey(m), moved || !m.isChunk))
  }

  /** A Python dict: insertion order and entries. */
  datatype Ledger = Ledger(order: seq<Key>, entries: map<Key, Entry>)

  const NO_REQUESTS: Ledger := Ledger([], map[])

  function Put(l: Ledger, k: Key, e: Entry): Ledger {
    Ledger(if k in l.entries then l.order else l.order + [k], l.entries[k := e])
  }

  function Lookup(l: Ledger, k: Option<Key>): Option<Entry> {
    if k.Some? && k.value in l.entries then Some(l.entries[k.value]) else None
  }

  datatype World = World(stats: Stats, ledger: Ledger)

  /** One message: the new state and what is reported. */
  function Step(pricing: Pricing, w: World, m: Message): (World, Option<Delta>) {
    var key := RequestKey(m);
    var previous := Lookup(w.ledger, key);
    match Next(pricing, previous, m)
    case None => (w, None)
    case Some(next) =>
      var rest := if previous.Some? then Retract(w.stats, previous.value.c) else w.stats;
      (World(Record(rest, next.c), if key.Some? then Put(w.ledger, key.value, next) else w.ledger),
       Report(previous, next, m))
  }

  // ---- Closing a round ----

  function Closed(e: Entry): Entry {
    e.(finalized := true)
  }

  /** One item of the closing loop: the entry closed in place and, when it is scoped,
      projected down to its message ID. */
  function CloseItem(l: Ledger, k: Key, e: Entry): Ledger {
    var l := Put(l, k, Closed(e));
    if k.Scoped? then Put(l, Bare(k.id), Closed(e)) else l
  }

  /** The loop over the first `n` items the ledger held when it started. */
  function CloseItems(start: Ledger, n: nat): Ledger
    requires n <= |start.order| && forall k :: k in start.order ==> k in start.entries
  {
    if n == 0 then start else
    CloseItem(CloseItems(start, n - 1), start.order[n - 1], start.entries[start.order[n - 1]])
  }

  ghost predicate IsDict(l: Ledger) {
    && (forall i, j :: 0 <= i < j < |l.order| ==> l.order[i] != l.order[j])
    && (forall k :: k in l.order <==> k in l.entries)
  }

  ghost function Finalized(l: Ledger): Ledger
    requires IsDict(l)
  {
    CloseItems(l, |l.order|)
  }

  // ---- The imperative form ----

  class RequestLedger {
    var order: seq<Key>
    var entries: map<Key, Entry>

    function Value(): Ledger
      reads this
    {
      Ledger(order, entries)
    }

    constructor ()
      ensures Value() == NO_REQUESTS
    {
      order, entries := [], map[];
    }

    method Set(k: Key, e: Entry)
      modifies this
      ensures Value() == Put(old(Value()), k, e)
    {
      if k !in entries { order := order + [k]; }
      entries := entries[k := e];
    }
  }

  lemma ItemsAreEntries(l: Ledger)
    requires IsDict(l)
    ensures forall k :: k in l.order ==> k in l.entries
    ensures CloseItems(l, 0) == l
  {
  }

  /** The next item of the closing loop. */
  lemma CloseNext(start: Ledger, i: nat)
    requires i < |start.order| && forall k :: k in start.order ==> k in start.entries
    ensures start.order[i] in start.entries
    ensures var k, e := start.order[i], Closed(start.entries[start.order[i]]);
      var l := Put(CloseItems(start, i), k, e);
      CloseItems(start, i + 1) == if k.Scoped? then Put(l, Bare(k.id), e) else l
  {
    hide Put;
    assert start.order[i] in start.order;
  }

  method FinalizeRecordedRequests(ledger: RequestLedger)
    requires IsDict(ledger.Value())
    modifies ledger
    ensures ledger.Value() == Finalized(old(ledger.Value()))
  {
    var items := ledger.order;
    var snapshot := ledger.entries;
    ghost var start := ledger.Value();
    ItemsAreEntries(start);
    hide IsDict, Put, CloseItems;
    for i := 0 to |items|
      invariant ledger.Value() == CloseItems(start, i)
    {
      CloseNext(start, i);
      var recorded := snapshot[items[i]];
      var closed := if recorded.finalized then recorded else recorded.(finalized := true);
      ledger.Set(items[i], closed);
      if items[i].Scoped? {
        ledger.Set(Bare(items[i].id), closed);
      }
    }
  }

  /** Re-files a request under the model it finally named. */
  method MoveRequestToNamedModel(pricing: Pricing, stats: SessionStats, ledger: RequestLedger, k: Key, previous: Entry,
                                 m: Message)
    returns (delta: Option<real>)
    modifies stats, ledger
    ensures var cost := pricing.estimate(previous.usage, m.model, m.provider);
      var next := previous.(c := previous.c.(model := m.model, provider := m.provider, cost := cost));
      if (m.model, m.provider) == (previous.c.model, previous.c.provider) then
        stats.Value() == old(stats.Value()) && ledger.Value() == old(ledger.Value()) && delta == None
      else
        && stats.Value() == Record(Retract(old(stats.Value()), previous.c), next.c)
        && ledger.Value() == Put(old(ledger.Value()), k, next)
        && delta == CostDelta(previous.c.cost, cost)
  {
    if (m.model, m.provider) == (previous.c.model, previous.c.provider) { return None; }
    var cost := pricing.estimate(previous.usage, m.model, m.provider);
    stats.RetractRequest(previous.c);
    var c := previous.c.(model := m.model, provider := m.provider, cost := cost);
    stats.RecordRequest(c);
    ledger.Set(k, Entry(c, previous.usage, previous.finalized));
    return CostDelta(previous.c.cost, cost);
  }

  /** Replaces a chunk-built record with a completed message's whole usage. */
  method FinalizeFromCompleted(pricing: Pricing, stats: SessionStats, ledger: RequestLedger, k: Key, previous: Entry,
                               m: Message)
    returns (r: Option<Delta>)
    requires m.usage.Some? && !m.isChunk && !previous.finalized && RequestKey(m) == Some(k)
    modifies stats, ledger
    ensures Next(pricing, Some(previous), m).Some?
    ensures var next := Next(pricing, Some(previous), m).value;
      && stats.Value() == Record(Retract(old(stats.Value()), previous.c), next.c)
      && ledger.Value() == Put(old(ledger.Value()), k, next)
      && r == Report(Some(previous), next, m)
  {
    var usage := m.usage.value;
    var model, provider := m.model, m.provider;
    if !m.namesModel {
      model, provider := previous.c.model, previous.c.provider;
    }
    var counts := DisplayCounts(usage);
    var cost := pricing.estimate(usage, model, provider);
    var c := Contribution(model, provider, m.kind, counts.0, counts.1,
                          pricing.cacheReads(usage), pricing.cacheWrites(usage), cost);
    stats.RetractRequest(previous.c);
    stats.RecordRequest(c);
    ledger.Set(k, Entry(c, usage, true));
    return Some(Delta(counts.0 - previous.c.input, counts.1 - previous.c.output,
                      CostDelta(previous.c.cost, cost), counts.0 + counts.1, Some(k), true));
  }

  /** Records the usage of one streamed message.  The state it leaves and the delta it
      reports are those of `Step`. */
  method RecordMessageUsage(pricing: Pricing, stats: SessionStats, ledger: RequestLedger, m: Message)
    returns (r: Option<Delta>)
    modifies stats, ledger
    ensures (World(stats.Value(), ledger.Value()), r)
         == Step(pricing, old(World(stats.Value(), ledger.Value())), m)
  {
    hide Record, Retract, AddUsage, Put;
    if m.usage.None? { return None; }
    var usage := m.usage.value;
    var requestId: Option<Key> := if m.id != "" then Some(Bare(m.id)) else None;
    if requestId.Some? && m.scope.Some? {
      requestId := Some(Scoped(m.scope.value, m.id));
    }
    if requestId.Some? && requestId.value in ledger.entries && !m.isChunk {
      var previous := ledger.entries[requestId.value];
      if previous.finalized { return None; }
      r := FinalizeFromCompleted(pricing, stats, ledger, requestId.value, previous, m);
      return;
    }
    var counts := DisplayCounts(usage);
    var previous: Option<Entry> :=
      if requestId.Some? && requestId.value in ledger.entries then Some(ledger.entries[requestId.value]) else None;
    if previous.Some? && previous.value.finalized { return None; }
    var revisesPrevious := previous.Some? && Carries(usage);
    if counts == (0, 0) && !revisesPrevious {
      if previous.Some? && requestId.Some? && m.namesModel {
        var repriceDelta := MoveRequestToNamedModel(pricing, stats, ledger, requestId.value, previous.value, m);
        if repriceDelta.Some? {
          return Some(Delta(0, 0, repriceDelta, previous.value.c.input + previous.value.c.output, requestId, true));
        }
      }
      return None;
    }
    var model, provider := m.model, m.provider;
    var accumulated := usage;
    if previous.Some? {
      stats.RetractRequest(previous.value.c);
      if !m.namesModel {
        model, provider := previous.value.c.model, previous.value.c.provider;
      }
      accumulated := AddUsage(previous.value.usage, usage);
      counts := DisplayCounts(accumulated);
    }
    var cost := pricing.estimate(accumulated, model, provider);
    var c := Contribution(model, provider, m.kind, counts.0, counts.1,
                          pricing.cacheReads(accumulated), pricing.cacheWrites(accumulated), cost);
    stats.RecordRequest(c);
    if requestId.Some? {
      ledger.Set(requestId.value, Entry(c, accumulated, !m.isChunk));
    }
    var before := if previous.Some? then (previous.value.c.input, previous.value.c.output) else (0, 0);
    return Some(Delta(counts.0 - before.0, counts.1 - before.1,
                      CostDelta(if previous.Some? then previous.value.c.cost else None, cost),
                      counts.0 + counts.1, requestId, false));
  }
}
