/** What every run of messages, direct recordings and round closings keeps. */
module LedgerRuns {
  import opened Wrappers
  import opened SessionStats
  import opened StatsAlgebra
  import opened UsageLedger

  datatype Event = Msg(m: Message) | Finalize | Direct(c: Contribution)

  // ---- Closing a round ----

  /** Index of the last of the first `n` keys with this message ID, or -1. */
  function Latest(order: seq<Key>, n: nat, id: string): (j: int)
    requires n <= |order|
    ensures -1 <= j < n
    ensures j >= 0 ==> order[j].id == id
    ensures forall i :: j < i < n ==> order[i].id != id
  {
    if n == 0 then -1 else if order[n - 1].id == id then n - 1 else Latest(order, n - 1, id)
  }

  lemma PutKeepsDict(l: Ledger, k: Key, e: Entry)
    requires IsDict(l)
    ensures IsDict(Put(l, k, e))
  {
  }

  lemma PutLookup(l: Ledger, j: Key, e: Entry, k: Key)
    ensures Lookup(Put(l, j, e), Some(k)) == if j == k then Some(e) else Lookup(l, Some(k))
  {
  }

  lemma {:induction false} CloseItemsDict(start: Ledger, n: nat)
    requires IsDict(start) && n <= |start.order|
    ensures IsDict(CloseItems(start, n))
  {
    hide Put;
    if n > 0 {
      var k := start.order[n - 1];
      var e := Closed(start.entries[k]);
      CloseItemsDict(start, n - 1);
      PutKeepsDict(CloseItems(start, n - 1), k, e);
      PutKeepsDict(Put(CloseItems(start, n - 1), k, e), Bare(k.id), e);
    }
  }

  lemma CloseItemLookup(l: Ledger, item: Key, e: Entry, k: Key)
    ensures Lookup(CloseItem(l, item, e), Some(k)) ==
            if k == item || (item.Scoped? && k == Bare(item.id)) then Some(Closed(e)) else Lookup(l, Some(k))
  {
    PutLookup(l, item, Closed(e), k);
    PutLookup(Put(l, item, Closed(e)), Bare(item.id), Closed(e), k);
    hide Put, Lookup;
  }

  /** What closing the first `n` items leaves under a scoped key: its own entry, closed. */
  lemma {:induction false} ScopedAfterClosing(start: Ledger, n: nat, k: Key)
    requires IsDict(start) && n <= |start.order| && k.Scoped?
    ensures Lookup(CloseItems(start, n), Some(k)) ==
            if k in start.order[..n] then Some(Closed(start.entries[k])) else Lookup(start, Some(k))
  {
    hide Lookup, CloseItem;
    if n > 0 {
      var item := start.order[n - 1];
      ScopedAfterClosing(start, n - 1, k);
      CloseItemLookup(CloseItems(start, n - 1), item, start.entries[item], k);
      assert start.order[..n] == start.order[..n - 1] + [item];
    }
  }

  /** ... and under a bare ID: the entry of the latest item with that ID. */
  lemma {:induction false} BareAfterClosing(start: Ledger, n: nat, id: string)
    requires IsDict(start) && n <= |start.order|
    ensures Lookup(CloseItems(start, n), Some(Bare(id))) ==
      var j := Latest(start.order, n, id);
      if j >= 0 then Some(Closed(start.entries[start.order[j]])) else Lookup(start, Some(Bare(id)))
  {
    hide Lookup, CloseItem;
    if n > 0 {
      var item := start.order[n - 1];
      BareAfterClosing(start, n - 1, id);
      CloseItemLookup(CloseItems(start, n - 1), item, start.entries[item], Bare(id));
    }
  }

  /** Closing a ledger: nothing stays open, every scoped entry is also found under its
      bare ID, and a bare ID holds the latest entry with that ID. */
  lemma FinalizedEntries(l: Ledger, k: Key)
    requires IsDict(l)
    ensures IsDict(Finalized(l))
    ensures var j := Latest(l.order, |l.order|, k.id);
      Lookup(Finalized(l), Some(k)) ==
        if k.Scoped? then (if k in l.entries then Some(Closed(l.entries[k])) else None)
        else if j >= 0 then Some(Closed(l.entries[l.order[j]])) else None
    ensures k in Finalized(l).entries ==> Finalized(l).entries[k].finalized
    ensures k in l.entries ==> k in Finalized(l).entries && Bare(k.id) in Finalized(l).entries
  {
    hide CloseItems;
    CloseItemsDict(l, |l.order|);
    if k.Scoped? { ScopedAfterClosing(l, |l.order|, k); }
    BareAfterClosing(l, |l.order|, k.id);
    assert l.order[..|l.order|] == l.order;
    if k in l.entries { assert k in l.order; }
  }

  // ---- Runs ----

  ghost function Apply(pricing: Pricing, w: World, ev: Event): (r: World)
    requires IsDict(w.ledger)
    ensures IsDict(r.ledger)
  {
    match ev
    case Msg(m) =>
      var key := RequestKey(m);
      StepKeepsDict(pricing, w, m);
      Step(pricing, w, m).0
    case Finalize =>
      CloseItemsDict(w.ledger, |w.ledger.order|);
      World(w.stats, Finalized(w.ledger))
    case Direct(c) => World(Record(w.stats, c), w.ledger)
  }

  lemma StepKeepsDict(pricing: Pricing, w: World, m: Message)
    requires IsDict(w.ledger)
    ensures IsDict(Step(pricing, w, m).0.ledger)
  {
    hide Next, Record, Retract;
    var key := RequestKey(m);
    var next := Next(pricing, Lookup(w.ledger, key), m);
    if next.Some? && key.Some? { PutKeepsDict(w.ledger, key.value, next.value); }
  }

  ghost function Run(pricing: Pricing, w: World, events: seq<Event>): (r: World)
    requires IsDict(w.ledger)
    ensures IsDict(r.ledger)
  {
    if events == [] then w
    else Apply(pricing, Run(pricing, w, events[..|events| - 1]), events[|events| - 1])
  }

  const START: World := World(EMPTY, NO_REQUESTS)

  // ---- Live contributions ----

  /** A run together with the log of everything recorded.  `slot` says which logged
      contribution an entry stands for; an entry projected down to a bare ID has none. */
  datatype Tracked = Tracked(w: World, log: Log, slot: map<Key, nat>)

  /** A scoped key with this message ID is in the ledger. */
  ghost predicate HasScoped(l: Ledger, id: string) {
    exists k :: k in l.entries && k.Scoped? && k.id == id
  }

  ghost function Track(pricing: Pricing, t: Tracked, ev: Event): (r: Tracked)
    requires IsDict(t.w.ledger)
    ensures r.w == Apply(pricing, t.w, ev)
  {
    var w := Apply(pricing, t.w, ev);
    match ev
    case Msg(m) =>
      var key := RequestKey(m);
      (match Next(pricing, Lookup(t.w.ledger, key), m)
       case None => t
       case Some(next) =>
         var log := if key.Some? && key.value in t.slot && t.slot[key.value] < |t.log|
                    then t.log[t.slot[key.value] := None] else t.log;
         Tracked(w, log + [Some(next.c)], if key.Some? then t.slot[key.value := |log|] else t.slot))
    case Finalize =>
      Tracked(w, t.log, map k | k in t.slot && (k.Scoped? || !HasScoped(t.w.ledger, k.id)) :: t.slot[k])
    case Direct(c) => Tracked(w, t.log + [Some(c)], t.slot)
  }

  /** Every key with a slot has an entry, which is the live contribution there; no two share
      one, and every open entry has one. */
  ghost predicate SlotsFit(l: Ledger, slot: map<Key, nat>, log: Log) {
    && (forall k :: k in slot ==> k in l.entries && slot[k] < |log| && log[slot[k]] == Some(l.entries[k].c))
    && (forall j, k :: j in slot && k in slot && j != k ==> slot[j] != slot[k])
    && (forall k :: k in l.entries && !l.entries[k].finalized ==> k in slot)
  }

  ghost predicate Consistent(t: Tracked) {
    IsDict(t.w.ledger) && Agrees(t.w.stats, t.log) && SlotsFit(t.w.ledger, t.slot, t.log)
  }

  lemma SlotPlaced(l: Ledger, slot: map<Key, nat>, log: Log, k: Key, e: Entry)
    requires SlotsFit(l, slot, log)
    ensures var rest := if k in slot then log[slot[k] := None] else log;
      SlotsFit(Put(l, k, e), slot[k := |log|], rest + [Some(e.c)])
  {
  }

  lemma RecordedStaysConsistent(pricing: Pricing, t: Tracked, m: Message)
    requires Consistent(t)
    ensures Consistent(Track(pricing, t, Msg(m)))
  {
    hide Agrees, Record, Retract, IsDict, Report, Put;
    var key := RequestKey(m);
    var previous := Lookup(t.w.ledger, key);
    var next := Next(pricing, previous, m);
    if next.Some? {
      if previous.Some? { OnlyOpenIsReplaced(pricing, previous.value, m); }
      hide Next;
      if key.Some? { SlotPlaced(t.w.ledger, t.slot, t.log, key.value, next.value); }
      if previous.Some? {
        var i := t.slot[key.value];
        RetractAgrees(t.w.stats, t.log, i);
        RecordAgrees(Retract(t.w.stats, previous.value.c), t.log[i := None], next.value.c);
      } else {
        RecordAgrees(t.w.stats, t.log, next.value.c);
      }
    }
  }

  /** A finalised entry is never replaced, hence never retracted. */
  lemma OnlyOpenIsReplaced(pricing: Pricing, previous: Entry, m: Message)
    ensures Next(pricing, Some(previous), m).Some? ==> !previous.finalized
  {
  }

  lemma ClosingStaysConsistent(pricing: Pricing, t: Tracked)
    requires Consistent(t)
    ensures Consistent(Track(pricing, t, Finalize))
  {
    hide Agrees, IsDict, CloseItems;
    var l := t.w.ledger;
    var r := Track(pricing, t, Finalize);
    forall k | k in r.slot ensures k in r.w.ledger.entries && r.w.ledger.entries[k].c == l.entries[k].c {
      FinalizedEntries(l, k);
      if k.Bare? { OnlyNamesake(l, k); }
    }
    forall k | k in r.w.ledger.entries ensures r.w.ledger.entries[k].finalized {
      FinalizedEntries(l, k);
    }
  }

  lemma OnlyNamesake(l: Ledger, k: Key)
    requires IsDict(l) && k in l.entries && k.Bare? && !HasScoped(l, k.id)
    ensures var j := Latest(l.order, |l.order|, k.id); j >= 0 && l.order[j] == k
  {
    assert k in l.order;
    var j := Latest(l.order, |l.order|, k.id);
    if j >= 0 { assert l.order[j] in l.entries; }
  }

  lemma TrackStaysConsistent(pricing: Pricing, t: Tracked, ev: Event)
    requires Consistent(t)
    ensures Consistent(Track(pricing, t, ev))
  {
    match ev
    case Msg(m) => RecordedStaysConsistent(pricing, t, m);
    case Finalize => ClosingStaysConsistent(pricing, t);
    case Direct(c) => RecordAgrees(t.w.stats, t.log, c);
  }

  ghost function TrackFrom(pricing: Pricing, t: Tracked, events: seq<Event>): (r: Tracked)
    requires IsDict(t.w.ledger)
    ensures r.w == Run(pricing, t.w, events)
  {
    if events == [] then t
    else Track(pricing, TrackFrom(pricing, t, events[..|events| - 1]), events[|events| - 1])
  }

  const NEW_SESSION: Tracked := Tracked(START, [], map[])

  ghost function TrackAll(pricing: Pricing, events: seq<Event>): (t: Tracked)
    ensures t.w == Run(pricing, START, events)
  {
    TrackFrom(pricing, NEW_SESSION, events)
  }

  lemma StartConsistent()
    ensures Consistent(NEW_SESSION)
  {
  }

  /** The invariant, along every run from any state that has it. */
  lemma {:induction false} RunsStayConsistent(pricing: Pricing, t: Tracked, events: seq<Event>)
    requires Consistent(t)
    ensures Consistent(TrackFrom(pricing, t, events))
  {
    hide Consistent, Track;
    ConsistentIsDict(t);
    if events != [] {
      RunsStayConsistent(pricing, t, events[..|events| - 1]);
      TrackStaysConsistent(pricing, TrackFrom(pricing, t, events[..|events| - 1]), events[|events| - 1]);
    }
  }

  lemma ConsistentIsDict(t: Tracked)
    requires Consistent(t)
    ensures IsDict(t.w.ledger)
  {
  }

  lemma RunsAreConsistent(pricing: Pricing, events: seq<Event>)
    ensures Consistent(TrackAll(pricing, events))
  {
    StartConsistent();
    RunsStayConsistent(pricing, NEW_SESSION, events);
  }

  lemma {:induction false} TrackConcat(pricing: Pricing, t: Tracked, a: seq<Event>, b: seq<Event>)
    requires IsDict(t.w.ledger)
    ensures TrackFrom(pricing, TrackFrom(pricing, t, a), b) == TrackFrom(pricing, t, a + b)
    decreases |b|
  {
    hide Track, IsDict, Run;
    if b == [] {
      assert a + b == a;
    } else {
      var n := |b| - 1;
      TrackConcat(pricing, t, a, b[..n]);
      assert (a + b)[..|a + b| - 1] == a + b[..n];
    }
  }

  lemma StepEntry(pricing: Pricing, w: World, m: Message, k: Key)
    ensures Lookup(Step(pricing, w, m).0.ledger, Some(k)) ==
      var e := Lookup(w.ledger, Some(k));
      if RequestKey(m) == Some(k) && Next(pricing, e, m).Some? then Next(pricing, e, m) else e
  {
    hide Next, Record, Retract;
  }

  /** A key whose entry is finalised stays so through any run. */
  lemma {:induction false} FinalizedForever(pricing: Pricing, w: World, events: seq<Event>, k: Key)
    requires IsDict(w.ledger) && k in w.ledger.entries && w.ledger.entries[k].finalized
    ensures var r := Run(pricing, w, events); k in r.ledger.entries && r.ledger.entries[k].finalized
  {
    hide Step, IsDict, CloseItems;
    if events != [] {
      var before, last := events[..|events| - 1], events[|events| - 1];
      FinalizedForever(pricing, w, before, k);
      var now := Run(pricing, w, before);
      match last
      case Msg(m) =>
        StepEntry(pricing, now, m, k);
        OnlyOpenIsReplaced(pricing, now.ledger.entries[k], m);
      case Finalize => FinalizedEntries(now.ledger, k);
      case Direct(c) =>
    }
  }

  // ---- Whose row a key holds ----

  /** Some closing met an attempt of this message ID, and so wrote its bare row. */
  ghost predicate Projected(pricing: Pricing, events: seq<Event>, id: string) {
    events != [] &&
    var before := events[..|events| - 1];
    || Projected(pricing, before, id)
    || (events[|events| - 1].Finalize? && HasScoped(Run(pricing, START, before).ledger, id))
  }

  /** The key holds a request of its own: a bare key does until a closing projects an attempt onto it. */
  ghost predicate Owned(pricing: Pricing, events: seq<Event>, k: Key) {
    k.Scoped? || !Projected(pricing, events, k.id)
  }

  lemma {:induction false} ProjectedIsFinal(pricing: Pricing, events: seq<Event>, id: string)
    requires Projected(pricing, events, id)
    ensures var l := Run(pricing, START, events).ledger; Bare(id) in l.entries && l.entries[Bare(id)].finalized
  {
    hide Step, CloseItems;
    var before, last := events[..|events| - 1], events[|events| - 1];
    var w := Run(pricing, START, before);
    if Projected(pricing, before, id) {
      ProjectedIsFinal(pricing, before, id);
      match last
      case Msg(m) =>
        StepEntry(pricing, w, m, Bare(id));
        OnlyOpenIsReplaced(pricing, w.ledger.entries[Bare(id)], m);
      case Finalize => FinalizedEntries(w.ledger, Bare(id));
      case Direct(c) =>
    } else {
      var k :| k in w.ledger.entries && k.Scoped? && k.id == id;
      FinalizedEntries(w.ledger, k);
      FinalizedEntries(w.ledger, Bare(id));
    }
  }

  /** What a closing does to the keys of a ledger. */
  lemma ClosedKeys(l: Ledger, k: Key)
    requires IsDict(l)
    ensures k.Scoped? || !HasScoped(l, k.id) ==> (k in Finalized(l).entries <==> k in l.entries)
  {
    FinalizedEntries(l, k);
    hide Finalized, IsDict;
    var j := Latest(l.order, |l.order|, k.id);
    if k.Bare? && !HasScoped(l, k.id) && j >= 0 { OrderedIsEntry(l, j); }
  }

  lemma OrderedIsEntry(l: Ledger, j: nat)
    requires IsDict(l) && j < |l.order|
    ensures l.order[j] in l.entries
  {
    assert l.order[j] in l.order;
  }

  /** The keys with a live contribution are exactly the keys that hold their own request. */
  lemma {:induction false} LiveIffOwned(pricing: Pricing, events: seq<Event>, k: Key)
    ensures k in TrackAll(pricing, events).slot <==>
            k in Run(pricing, START, events).ledger.entries && Owned(pricing, events, k)
  {
    if events != [] {
      var before, last := events[..|events| - 1], events[|events| - 1];
      LiveIffOwned(pricing, before, k);
      RunsAreConsistent(pricing, before);
      OwnedStep(pricing, before, last, k);
    }
  }

  lemma OwnedStep(pricing: Pricing, before: seq<Event>, last: Event, k: Key)
    requires var t := TrackAll(pricing, before);
      && Consistent(t)
      && (k in t.slot <==> k in t.w.ledger.entries && Owned(pricing, before, k))
    ensures var r := Track(pricing, TrackAll(pricing, before), last);
      k in r.slot <==> k in r.w.ledger.entries && Owned(pricing, before + [last], k)
  {
    hide Agrees, IsDict, CloseItems, Report, Priced, Record, Retract, Run, TrackFrom;
    var t := TrackAll(pricing, before);
    assert (before + [last])[..|before|] == before;
    match last
    case Direct(c) =>
    case Finalize => ClosedKeys(t.w.ledger, k);
    case Msg(m) =>
      if k.Bare? && Projected(pricing, before, k.id) {
        ProjectedIsFinal(pricing, before, k.id);
        OnlyOpenIsReplaced(pricing, t.w.ledger.entries[k], m);
      }
  }

  // ---- Conservation ----

  /** Conservation over every run: all totals and rows are those of the contributions that
      are live; every request a key holds of its own is one of them, open or finalised, and
      no two share one; a row projected down from an attempt is none. */
  lemma Conservation(pricing: Pricing, events: seq<Event>)
    ensures var t := TrackAll(pricing, events);
      var w := Run(pricing, START, events);
      && Agrees(w.stats, t.log)
      && (forall k :: k in t.slot <==> k in w.ledger.entries && Owned(pricing, events, k))
      && (forall k :: k in t.slot ==> t.slot[k] < |t.log| && t.log[t.slot[k]] == Some(w.ledger.entries[k].c))
      && (forall k :: k in w.ledger.entries && !w.ledger.entries[k].finalized ==> Owned(pricing, events, k))
      && (forall j, k :: j in t.slot && k in t.slot && j != k ==> t.slot[j] != t.slot[k])
  {
    hide Agrees, Owned, Run, TrackAll;
    RunsAreConsistent(pricing, events);
    forall k ensures k in TrackAll(pricing, events).slot <==>
                     k in Run(pricing, START, events).ledger.entries && Owned(pricing, events, k)
    {
      LiveIffOwned(pricing, events, k);
    }
  }

  /** Logged contribution `i` belongs to no open request. */
  ghost predicate Settled(t: Tracked, i: nat) {
    i < |t.log| &&
    forall k :: k in t.slot && t.slot[k] == i ==> k in t.w.ledger.entries && t.w.ledger.entries[k].finalized
  }

  lemma SettledStep(pricing: Pricing, t: Tracked, ev: Event, i: nat)
    requires Consistent(t) && Settled(t, i)
    ensures Settled(Track(pricing, t, ev), i) && Track(pricing, t, ev).log[i] == t.log[i]
  {
    hide Agrees, Priced, IsDict, CloseItems, Record, Retract, Report;
    match ev
    case Direct(c) =>
    case Finalize =>
      forall k | k in t.slot ensures k in Finalized(t.w.ledger).entries && Finalized(t.w.ledger).entries[k].finalized {
        FinalizedEntries(t.w.ledger, k);
      }
    case Msg(m) =>
      if Lookup(t.w.ledger, RequestKey(m)).Some? {
        OnlyOpenIsReplaced(pricing, Lookup(t.w.ledger, RequestKey(m)).value, m);
      }
  }

  lemma {:induction false} SettledStays(pricing: Pricing, t: Tracked, events: seq<Event>, i: nat)
    requires Consistent(t) && Settled(t, i)
    ensures IsDict(t.w.ledger)
    ensures Settled(TrackFrom(pricing, t, events), i) && TrackFrom(pricing, t, events).log[i] == t.log[i]
  {
    hide Consistent, Track, Settled, Run, IsDict;
    ConsistentIsDict(t);
    SettledIsLogged(t, i);
    if events != [] {
      var before := events[..|events| - 1];
      SettledStays(pricing, t, before, i);
      RunsStayConsistent(pricing, t, before);
      SettledStep(pricing, TrackFrom(pricing, t, before), events[|events| - 1], i);
    }
    SettledIsLogged(TrackFrom(pricing, t, events), i);
  }

  lemma SettledIsLogged(t: Tracked, i: nat)
    requires Settled(t, i)
    ensures i < |t.log|
  {
  }

  /** No finalised request is ever retracted: what it contributed stays live through every
      run, whatever closings and replays follow. */
  lemma FinalizedStaysLive(pricing: Pricing, before: seq<Event>, since: seq<Event>, k: Key)
    requires var l := Run(pricing, START, before).ledger;
      k in l.entries && l.entries[k].finalized && Owned(pricing, before, k)
    ensures k in TrackAll(pricing, before).slot
    ensures var i := TrackAll(pricing, before).slot[k];
      var log := TrackAll(pricing, before + since).log;
      i < |log| && log[i] == Some(Run(pricing, START, before).ledger.entries[k].c)
  {
    hide Run, TrackFrom, Owned, Agrees, IsDict;
    LiveIffOwned(pricing, before, k);
    RunsAreConsistent(pricing, before);
    var t := TrackAll(pricing, before);
    StartConsistent();
    TrackConcat(pricing, NEW_SESSION, before, since);
    SettledStays(pricing, t, since, t.slot[k]);
    SettledIsLogged(TrackFrom(pricing, t, since), t.slot[k]);
  }

  // ---- One request, one count ----

  /** The keys some message was recorded under. */
  ghost function Recorded(pricing: Pricing, events: seq<Event>): set<Key> {
    if events == [] then {} else
    var before := events[..|events| - 1];
    Recorded(pricing, before) + RecordedBy(pricing, Run(pricing, START, before), events[|events| - 1])
  }

  ghost function RecordedBy(pricing: Pricing, w: World, ev: Event): set<Key> {
    if ev.Msg? && RequestKey(ev.m).Some? && Next(pricing, Lookup(w.ledger, RequestKey(ev.m)), ev.m).Some?
    then {RequestKey(ev.m).value} else {}
  }

  /** Direct recordings, and messages recorded without an ID. */
  ghost function Unkeyed(pricing: Pricing, events: seq<Event>): nat {
    if events == [] then 0 else
    var last := events[|events| - 1];
    Unkeyed(pricing, events[..|events| - 1]) +
      if last.Direct? || (last.Msg? && RequestKey(last.m).None? && Next(pricing, None, last.m).Some?) then 1 else 0
  }

  /** Every recorded key is in the ledger; what is open or scoped there was recorded. */
  ghost predicate Traces(l: Ledger, keys: set<Key>) {
    && (forall k :: k in keys ==> k in l.entries)
    && (forall k :: k in l.entries && (k.Scoped? || !l.entries[k].finalized) ==> k in keys)
  }

  lemma TracesStep(pricing: Pricing, w: World, keys: set<Key>, ev: Event)
    requires IsDict(w.ledger) && Traces(w.ledger, keys)
    ensures var now := keys + RecordedBy(pricing, w, ev);
      && Traces(Apply(pricing, w, ev).ledger, now)
      && |now| + (if ev.Direct? || (ev.Msg? && RequestKey(ev.m).None? && Next(pricing, None, ev.m).Some?) then 1 else 0)
         + w.stats.total.requests == |keys| + Apply(pricing, w, ev).stats.total.requests
  {
    hide Priced, IsDict, CloseItems, Report;
    var added := RecordedBy(pricing, w, ev);
    match ev
    case Direct(c) => assert keys + {} == keys;
    case Finalize =>
      assert keys + {} == keys;
      forall k ensures k in w.ledger.entries ==> k in Finalized(w.ledger).entries
               ensures k in Finalized(w.ledger).entries ==> Finalized(w.ledger).entries[k].finalized
               ensures k.Scoped? && k in Finalized(w.ledger).entries ==> k in w.ledger.entries
      {
        FinalizedEntries(w.ledger, k);
      }
    case Msg(m) =>
      if Lookup(w.ledger, RequestKey(m)).Some? {
        OnlyOpenIsReplaced(pricing, Lookup(w.ledger, RequestKey(m)).value, m);
      }
      if added == {} || RequestKey(m).value in keys { assert keys + added == keys; }
  }

  /** Over every run the session counts one request per key ever recorded, whatever chunks,
      corrections, completions and replays it took, plus the recordings without a key. */
  lemma {:induction false} RequestsAreCounted(pricing: Pricing, events: seq<Event>)
    ensures var w := Run(pricing, START, events);
      && w.stats.total.requests == |Recorded(pricing, events)| + Unkeyed(pricing, events)
      && Traces(w.ledger, Recorded(pricing, events))
  {
    hide Traces, Apply, RecordedBy, Next;
    if events == [] {
      NoTraces();
    } else {
      var before := events[..|events| - 1];
      RequestsAreCounted(pricing, before);
      TracesStep(pricing, Run(pricing, START, before), Recorded(pricing, before), events[|events| - 1]);
    }
  }

  lemma NoTraces()
    ensures Traces(NO_REQUESTS, {})
  {
  }

  // ---- Reported deltas ----

  datatype Amount = Amount(input: int, output: int, cost: real)

  const NOTHING: Amount := Amount(0, 0, 0.0)

  function PlusAmount(a: Amount, b: Amount): Amount {
    Amount(a.input + b.input, a.output + b.output, a.cost + b.cost)
  }

  /** A report as an amount; no report and no cost count as zero. */
  function Reported(d: Option<Delta>): Amount {
    if d.None? then NOTHING else Amount(d.value.input, d.value.output, d.value.cost.GetOr(0.0))
  }

  ghost function ReportOf(pricing: Pricing, w: World, ev: Event): Option<Delta> {
    if ev.Msg? then Step(pricing, w, ev.m).1 else None
  }

  function TotalOf(st: Stats): Amount {
    Amount(st.total.input, st.total.output, st.total.cost)
  }

  function Spent(e: Option<Entry>): Amount {
    if e.None? then NOTHING else Amount(e.value.c.input, e.value.c.output, e.value.c.cost.GetOr(0.0))
  }

  ghost function Reports(pricing: Pricing, w: World, events: seq<Event>): Amount
    requires IsDict(w.ledger)
  {
    if events == [] then NOTHING else
    var before := events[..|events| - 1];
    PlusAmount(Reports(pricing, w, before), Reported(ReportOf(pricing, Run(pricing, w, before), events[|events| - 1])))
  }

  /** What one step reports is what it does to its request's entry. */
  lemma ReportIsChange(pricing: Pricing, previous: Option<Entry>, m: Message)
    requires Next(pricing, previous, m).Some?
    ensures var next := Next(pricing, previous, m).value;
      PlusAmount(Spent(previous), Reported(Report(previous, next, m))) == Spent(Some(next))
  {
  }

  lemma AmountAssoc(a: Amount, b: Amount, c: Amount)
    ensures PlusAmount(PlusAmount(a, b), c) == PlusAmount(a, PlusAmount(b, c))
    ensures PlusAmount(NOTHING, a) == a && PlusAmount(a, NOTHING) == a
  {
  }

  lemma RecordAmount(st: Stats, e: Entry)
    ensures TotalOf(Record(st, e.c)) == PlusAmount(TotalOf(st), Spent(Some(e)))
    ensures PlusAmount(TotalOf(Retract(st, e.c)), Spent(Some(e))) == TotalOf(st)
  {
  }

  lemma StepReports(pricing: Pricing, w: World, m: Message)
    ensures PlusAmount(TotalOf(w.stats), Reported(Step(pricing, w, m).1)) == TotalOf(Step(pricing, w, m).0.stats)
  {
    hide Next, Report, PlusAmount, TotalOf, Record, Retract, Reported;
    var previous := Lookup(w.ledger, RequestKey(m));
    var next := Next(pricing, previous, m);
    if next.Some? {
      ReportIsChange(pricing, previous, m);
      var report := Reported(Report(previous, next.value, m));
      if previous.Some? {
        var rest := Retract(w.stats, previous.value.c);
        RecordAmount(w.stats, previous.value);
        RecordAmount(rest, next.value);
        AmountAssoc(TotalOf(rest), Spent(previous), report);
      } else {
        RecordAmount(w.stats, next.value);
        AmountAssoc(report, report, report);
      }
    } else {
      NoReport(TotalOf(w.stats));
    }
  }

  lemma NoReport(a: Amount)
    ensures PlusAmount(a, Reported(None)) == a
  {
  }

  /** Over any run of messages and round closings the reported deltas add up to what
      the session totals did, corrections and withdrawn estimates included. */
  lemma {:induction false} DeltasTelescope(pricing: Pricing, w: World, events: seq<Event>)
    requires IsDict(w.ledger) && forall i :: 0 <= i < |events| ==> !events[i].Direct?
    ensures TotalOf(Run(pricing, w, events).stats) == PlusAmount(TotalOf(w.stats), Reports(pricing, w, events))
  {
    hide Step, PlusAmount, TotalOf, Reported, IsDict, CloseItems;
    if events == [] {
      AmountAssoc(TotalOf(w.stats), NOTHING, NOTHING);
    } else {
      var before, last := events[..|events| - 1], events[|events| - 1];
      DeltasTelescope(pricing, w, before);
      var now := Run(pricing, w, before);
      if last.Msg? { StepReports(pricing, now, last.m); } else { NoReport(TotalOf(now.stats)); }
      AmountAssoc(TotalOf(w.stats), Reports(pricing, w, before), Reported(ReportOf(pricing, now, last)));
    }
  }

  ghost function KeyReport(pricing: Pricing, w: World, ev: Event, k: Key): Amount {
    if ev.Msg? && RequestKey(ev.m) == Some(k) then Reported(ReportOf(pricing, w, ev)) else NOTHING
  }

  /** The deltas reported for one request key over a run from the start. */
  ghost function KeyReports(pricing: Pricing, events: seq<Event>, k: Key): Amount {
    if events == [] then NOTHING else
    var before := events[..|events| - 1];
    PlusAmount(KeyReports(pricing, before, k), KeyReport(pricing, Run(pricing, START, before), events[|events| - 1], k))
  }

  lemma {:induction false} LiveKeyDeltas(pricing: Pricing, events: seq<Event>, k: Key)
    ensures var t := TrackAll(pricing, events);
      && (k in t.slot ==> KeyReports(pricing, events, k) == Spent(Lookup(t.w.ledger, Some(k))))
      && (k !in t.w.ledger.entries ==> KeyReports(pricing, events, k) == NOTHING)
  {
    hide Track, Apply, Consistent, KeyReport, PlusAmount, Spent, Run;
    if events != [] {
      var before, last := events[..|events| - 1], events[|events| - 1];
      LiveKeyDeltas(pricing, before, k);
      RunsAreConsistent(pricing, before);
      KeyStep(pricing, TrackAll(pricing, before), last, k, KeyReports(pricing, before, k));
    }
  }

  /** The events up to the closing that first wrote an attempt's row over the key; all of
      them when none did. */
  ghost function OwnEvents(pricing: Pricing, events: seq<Event>, k: Key): seq<Event> {
    if events == [] || Owned(pricing, events, k) then events else OwnEvents(pricing, events[..|events| - 1], k)
  }

  /** The key's entry, or the last one it had of its own before a closing projected an
      attempt onto it. */
  ghost function OwnEntry(pricing: Pricing, events: seq<Event>, k: Key): Option<Entry> {
    Lookup(Run(pricing, START, OwnEvents(pricing, events, k)).ledger, Some(k))
  }

  /** Over every run and for every request key the reported deltas add up to what the key's
      own request amounts to; where its row is a projected one, the reports do not follow. */
  lemma {:induction false} KeyDeltasTelescope(pricing: Pricing, events: seq<Event>, k: Key)
    ensures KeyReports(pricing, events, k) == Spent(OwnEntry(pricing, events, k))
  {
    hide Run, Spent, PlusAmount, KeyReport, Lookup, TrackAll;
    if Owned(pricing, events, k) {
      LiveIffOwned(pricing, events, k);
      LiveKeyDeltas(pricing, events, k);
      AbsentIsNothing(Run(pricing, START, events).ledger, k);
    } else {
      var before := events[..|events| - 1];
      KeyDeltasTelescope(pricing, before, k);
      ProjectedReportsNothing(pricing, events, k);
      AmountAssoc(KeyReports(pricing, before, k), NOTHING, NOTHING);
    }
  }

  lemma AbsentIsNothing(l: Ledger, k: Key)
    ensures k !in l.entries ==> Spent(Lookup(l, Some(k))) == NOTHING
  {
  }

  lemma ProjectedReportsNothing(pricing: Pricing, events: seq<Event>, k: Key)
    requires events != [] && !Owned(pricing, events, k)
    ensures KeyReport(pricing, Run(pricing, START, events[..|events| - 1]), events[|events| - 1], k) == NOTHING
  {
    hide Report, Priced, Record, Retract, Run;
    var before, last := events[..|events| - 1], events[|events| - 1];
    if Projected(pricing, before, k.id) && last.Msg? {
      ProjectedIsFinal(pricing, before, k.id);
      OnlyOpenIsReplaced(pricing, Run(pricing, START, before).ledger.entries[k], last.m);
    }
  }

  /** For every scoped key, and for every bare one that no closing has projected an attempt
      onto, the deltas add up to the key's current entry. For the others they do exactly when
      the row written over it amounts to what the key's own request did, which is the
      telescoping law read against the current row. */
  lemma KeyDeltasMatchIff(pricing: Pricing, events: seq<Event>, k: Key)
    ensures var now := Spent(Lookup(Run(pricing, START, events).ledger, Some(k)));
      && (Owned(pricing, events, k) ==> KeyReports(pricing, events, k) == now)
      && (KeyReports(pricing, events, k) == now <==> Spent(OwnEntry(pricing, events, k)) == now)
  {
    hide Spent;
    KeyDeltasTelescope(pricing, events, k);
  }

  /** The key is closed, and the deltas reported for it add up to the row of the bare ID. */
  ghost predicate Explains(pricing: Pricing, events: seq<Event>, id: string, source: Key) {
    var l := Run(pricing, START, events).ledger;
    && source.id == id && source in l.entries && l.entries[source].finalized
    && KeyReports(pricing, events, source) == Spent(Lookup(l, Some(Bare(id))))
  }

  /** Outside closings nothing moves a closed key, and nothing is reported for it. */
  lemma ClosedKeyRests(pricing: Pricing, w: World, ev: Event, k: Key)
    requires IsDict(w.ledger) && k in w.ledger.entries && w.ledger.entries[k].finalized && !ev.Finalize?
    ensures Lookup(Apply(pricing, w, ev).ledger, Some(k)) == Lookup(w.ledger, Some(k))
    ensures KeyReport(pricing, w, ev, k) == NOTHING
  {
    hide Report, Record, Retract, IsDict, Next;
    if ev.Msg? {
      StepEntry(pricing, w, ev.m, k);
      OnlyOpenIsReplaced(pricing, w.ledger.entries[k], ev.m);
    }
  }

  /** What one more event does to the row and to the key that explains it, when it leaves a
      closed row as it is: nothing. */
  lemma RowRests(pricing: Pricing, w: World, ev: Event, id: string, source: Key)
    requires IsDict(w.ledger) && source in w.ledger.entries && w.ledger.entries[source].finalized
    requires Bare(id) in w.ledger.entries && w.ledger.entries[Bare(id)].finalized
    requires ev.Finalize? ==>
      Lookup(Finalized(w.ledger), Some(Bare(id))) == Some(Closed(w.ledger.entries[Bare(id)]))
    ensures var l := Apply(pricing, w, ev).ledger;
      && source in l.entries && l.entries[source].finalized
      && Spent(Lookup(l, Some(Bare(id)))) == Spent(Lookup(w.ledger, Some(Bare(id))))
      && KeyReport(pricing, w, ev, source) == NOTHING
  {
    if ev.Finalize? {
      hide CloseItems, IsDict;
      FinalizedEntries(w.ledger, source);
    } else {
      hide Step, IsDict, Spent, KeyReport;
      ClosedKeyRests(pricing, w, ev, source);
      ClosedKeyRests(pricing, w, ev, Bare(id));
      hide Apply;
    }
  }

  lemma KeyReportsPush(pricing: Pricing, events: seq<Event>, k: Key)
    requires events != []
    ensures var before := events[..|events| - 1];
      KeyReport(pricing, Run(pricing, START, before), events[|events| - 1], k) == NOTHING ==>
      KeyReports(pricing, events, k) == KeyReports(pricing, before, k)
  {
    hide KeyReport, PlusAmount, Run;
    AmountAssoc(KeyReports(pricing, events[..|events| - 1], k), NOTHING, NOTHING);
  }

  /** An event that leaves a projected row as it is leaves its explanation. */
  lemma StillExplains(pricing: Pricing, events: seq<Event>, id: string, source: Key)
    requires events != [] && Explains(pricing, events[..|events| - 1], id, source)
    requires Projected(pricing, events[..|events| - 1], id)
    requires var l := Run(pricing, START, events[..|events| - 1]).ledger;
      events[|events| - 1].Finalize? ==>
        Bare(id) in l.entries && Lookup(Finalized(l), Some(Bare(id))) == Some(Closed(l.entries[Bare(id)]))
    ensures Explains(pricing, events, id, source)
  {
    var before, last := events[..|events| - 1], events[|events| - 1];
    var w := Run(pricing, START, before);
    hide KeyReport, KeyReports, IsDict, Finalized, Projected, Spent, Apply, Lookup;
    ProjectedIsFinal(pricing, before, id);
    RowRests(pricing, w, last, id, source);
    KeyReportsPush(pricing, events, source);
  }

  /** A key that holds its own request explains it. */
  lemma OwnExplains(pricing: Pricing, events: seq<Event>, k: Key)
    requires Owned(pricing, events, k)
    ensures KeyReports(pricing, events, k) == Spent(Lookup(Run(pricing, START, events).ledger, Some(k)))
  {
    KeyDeltasMatchIff(pricing, events, k);
  }

  /** A closing projects one of the keys with this message ID. */
  lemma ClosingExplains(pricing: Pricing, before: seq<Event>, events: seq<Event>, id: string) returns (source: Key)
    requires events != [] && events[..|events| - 1] == before && events[|events| - 1] == Finalize
    requires Projected(pricing, events, id)
    requires Projected(pricing, before, id) ==> exists s :: Explains(pricing, before, id, s)
    ensures Explains(pricing, events, id, source)
  {
    var l := Run(pricing, START, before).ledger;
    assert Run(pricing, START, events).ledger == Finalized(l);
    hide Run, CloseItems, IsDict, KeyReports, Spent;
    FinalizedEntries(l, Bare(id));
    if Projected(pricing, before, id) { ProjectedIsFinal(pricing, before, id); }
    SomeWithId(l, id);
    var j := Latest(l.order, |l.order|, id);
    source := l.order[j];
    OrderedIsEntry(l, j);
    FinalizedEntries(l, source);
    if source.Scoped? {
      OwnExplains(pricing, events, source);
    } else if Projected(pricing, before, id) {
      source :| Explains(pricing, before, id, source);
      StillExplains(pricing, events, id, source);
    } else {
      OwnExplains(pricing, before, source);
      ClosingReportsNothing(pricing, events, source);
      SpentClosed(l.entries[source]);
    }
  }

  lemma SomeWithId(l: Ledger, id: string)
    requires IsDict(l) && (HasScoped(l, id) || Bare(id) in l.entries)
    ensures Latest(l.order, |l.order|, id) >= 0
  {
    var k :| k in l.entries && k.id == id;
    assert k in l.order;
  }

  lemma ClosingReportsNothing(pricing: Pricing, events: seq<Event>, k: Key)
    requires events != [] && events[|events| - 1] == Finalize
    ensures KeyReports(pricing, events, k) == KeyReports(pricing, events[..|events| - 1], k)
  {
    assert KeyReport(pricing, Run(pricing, START, events[..|events| - 1]), events[|events| - 1], k) == NOTHING;
    hide KeyReport, KeyReports, Run;
    KeyReportsPush(pricing, events, k);
  }

  lemma SpentClosed(e: Entry)
    ensures Spent(Some(Closed(e))) == Spent(Some(e))
  {
  }

  /** What a projected row shows was reported, under a key with the same message ID. */
  lemma {:induction false} ProjectedWasReported(pricing: Pricing, events: seq<Event>, id: string) returns (source: Key)
    requires Projected(pricing, events, id)
    ensures Explains(pricing, events, id, source)
  {
    hide Run, Explains, Finalized;
    var before, last := events[..|events| - 1], events[|events| - 1];
    if Projected(pricing, before, id) { source := ProjectedWasReported(pricing, before, id); }
    if last.Finalize? {
      source := ClosingExplains(pricing, before, events, id);
    } else {
      StillExplains(pricing, events, id, source);
    }
  }

  /** One chunk of an attempt. */
  const CHUNK: Message := Message("m", Some(1), true, Some(Usage(7, 2, 9, map[])), true, "model", "provider", Assistant)

  lemma FirstChunk(pricing: Pricing)
    ensures Next(pricing, None, CHUNK).Some?
    ensures var e := Next(pricing, None, CHUNK).value;
      && e.c.input == 7 && e.c.output == 2
      && Step(pricing, START, CHUNK).0.ledger == Ledger([Scoped(1, "m")], map[Scoped(1, "m") := e])
  {
    hide Record, Retract, Report;
    assert START.ledger == NO_REQUESTS && NO_REQUESTS.entries == map[] && NO_REQUESTS.order == [];
    assert [] + [Scoped(1, "m")] == [Scoped(1, "m")];
  }

  lemma OneEvent(pricing: Pricing, ev: Event)
    ensures Run(pricing, START, [ev]) == Apply(pricing, START, ev)
    ensures forall k :: KeyReports(pricing, [ev], k) == KeyReport(pricing, START, ev, k)
  {
    hide Apply, PlusAmount, KeyReport;
    assert [ev][..0] == [];
    forall k ensures KeyReports(pricing, [ev], k) == KeyReport(pricing, START, ev, k) {
      AmountAssoc(KeyReport(pricing, START, ev, k), NOTHING, NOTHING);
    }
  }

  lemma ClosedAttempt(e: Entry)
    ensures var l := Ledger([Scoped(1, "m")], map[Scoped(1, "m") := e]);
      IsDict(l) && Lookup(Finalized(l), Some(Bare("m"))) == Some(Closed(e))
  {
    var l := Ledger([Scoped(1, "m")], map[Scoped(1, "m") := e]);
    assert l.order[0] == Scoped(1, "m");
    hide CloseItems;
    FinalizedEntries(l, Bare("m"));
  }

  lemma ChunkIsNotBare(pricing: Pricing)
    ensures KeyReport(pricing, START, Msg(CHUNK), Bare("m")) == NOTHING
  {
    hide ReportOf;
  }

  /** A projected row that no report added up to: after one chunk of an attempt and a
      closing, the bare message ID holds the request and nothing was reported for it. */
  lemma ProjectedRowIsNotReported(pricing: Pricing, events: seq<Event>)
    requires events == [Msg(CHUNK), Finalize]
    ensures var now := Lookup(Run(pricing, START, events).ledger, Some(Bare("m")));
      && now.Some? && Spent(now).input == 7 && Spent(now).output == 2
      && KeyReports(pricing, events, Bare("m")) == NOTHING
  {
    hide Next, Step, Finalized, ReportOf, IsDict, Reported, Lookup, CHUNK;
    assert events[..1] == [Msg(CHUNK)];
    OneEvent(pricing, Msg(CHUNK));
    FirstChunk(pricing);
    ClosedAttempt(Next(pricing, None, CHUNK).value);
    ChunkIsNotBare(pricing);
    AmountAssoc(NOTHING, NOTHING, NOTHING);
  }

  lemma KeyStep(pricing: Pricing, t: Tracked, ev: Event, k: Key, spent: Amount)
    requires Consistent(t)
    requires k in t.slot ==> spent == Spent(Lookup(t.w.ledger, Some(k)))
    requires k !in t.w.ledger.entries ==> spent == NOTHING
    ensures var r := Track(pricing, t, ev); var now := PlusAmount(spent, KeyReport(pricing, t.w, ev, k));
      && (k in r.slot ==> now == Spent(Lookup(r.w.ledger, Some(k))))
      && (k !in r.w.ledger.entries ==> now == NOTHING)
  {
    hide Agrees, Report, Priced, Record, Retract, CloseItems, IsDict, PlusAmount, Reported;
    AmountAssoc(spent, NOTHING, NOTHING);
    match ev
    case Direct(c) =>
    case Finalize =>
      FinalizedEntries(t.w.ledger, k);
      if k in t.slot && k.Bare? && !HasScoped(t.w.ledger, k.id) { OnlyNamesake(t.w.ledger, k); }
    case Msg(m) =>
      var previous := Lookup(t.w.ledger, RequestKey(m));
      NoReport(spent);
      if RequestKey(m) == Some(k) && Next(pricing, previous, m).Some? {
        if previous.Some? { OnlyOpenIsReplaced(pricing, previous.value, m); }
        ReportIsChange(pricing, previous, m);
        hide Next;
      }
  }
}
