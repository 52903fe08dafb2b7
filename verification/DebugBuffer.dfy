/** The in-memory log: bounded per-level buffers that together refine a plain
    append-only log. */
module DebugBuffer {
  import opened Wrappers

  datatype LogRecord = LogRecord(timestamp: string, level: string, levelno: int, logger: string, message: string)

  /** A retained record and its emission sequence number. */
  datatype Entry = Entry(number: nat, record: LogRecord)

  const LOG_LEVELS: set<string> := {"DEBUG", "INFO", "WARNING", "ERROR", "CRITICAL"}
  const FALLBACK_BUCKET := "_other"

  function BucketFor(level: string): string {
    if level in LOG_LEVELS then level else FALLBACK_BUCKET
  }

  // ---- The plain log ----

  function BucketAt(log: seq<LogRecord>, i: nat): string
    requires i < |log|
  {
    BucketFor(log[i].level)
  }

  /** The records of one bucket, in emission order. */
  function InBucket(log: seq<LogRecord>, bucket: string): seq<Entry> {
    if log == [] then [] else
    var n := |log| - 1;
    InBucket(log[..n], bucket) + if BucketAt(log, n) == bucket then [Entry(n, log[n])] else []
  }

  function LastOf(s: seq<Entry>, n: nat): seq<Entry> {
    if |s| <= n then s else s[|s| - n..]
  }

  /** How many records of its own bucket were emitted after record `i`. */
  function Later(log: seq<LogRecord>, i: nat): nat
    requires i < |log|
  {
    var n := |log| - 1;
    if i == n then 0 else Later(log[..n], i) + if BucketAt(log, n) == BucketAt(log, i) then 1 else 0
  }

  /** Record `i` is still within the last `capacity` of its bucket. */
  predicate Kept(log: seq<LogRecord>, capacity: nat, i: nat)
    requires i < |log|
  {
    Later(log, i) < capacity
  }

  /** The kept records from `index` up to `n`, in emission order. */
  function RetainedUpTo(log: seq<LogRecord>, capacity: nat, index: int, n: nat): seq<Entry>
    requires n <= |log|
  {
    if n == 0 then [] else
    RetainedUpTo(log, capacity, index, n - 1) +
      if index <= n - 1 && Kept(log, capacity, n - 1) then [Entry(n - 1, log[n - 1])] else []
  }

  function Retained(log: seq<LogRecord>, capacity: nat, index: int): seq<Entry> {
    RetainedUpTo(log, capacity, index, |log|)
  }

  function Records(s: seq<Entry>): seq<LogRecord> {
    seq(|s|, i requires 0 <= i < |s| => s[i].record)
  }

  predicate Ascending(s: seq<Entry>) {
    forall i, j :: 0 <= i < j < |s| ==> s[i].number < s[j].number
  }

  lemma {:induction false} RetainedMembers(log: seq<LogRecord>, capacity: nat, index: int, n: nat)
    requires n <= |log|
    ensures Ascending(RetainedUpTo(log, capacity, index, n))
    ensures forall e :: e in RetainedUpTo(log, capacity, index, n) <==>
      e.number < n && index <= e.number && e.record == log[e.number] && Kept(log, capacity, e.number)
  {
    hide Later;
    if n > 0 {
      RetainedMembers(log, capacity, index, n - 1);
      var before := RetainedUpTo(log, capacity, index, n - 1);
      assert forall i :: 0 <= i < |before| ==> before[i] in before;
    }
  }

  /** Entry `e` is a record of this bucket. */
  predicate Belongs(log: seq<LogRecord>, bucket: string, e: Entry) {
    e.number < |log| && e.record == log[e.number] && BucketAt(log, e.number) == bucket
  }

  lemma {:induction false} BucketMembers(log: seq<LogRecord>, bucket: string, e: Entry)
    ensures e in InBucket(log, bucket) <==> Belongs(log, bucket, e)
  {
    hide BucketFor;
    if log != [] {
      var n := |log| - 1;
      BucketMembers(log[..n], bucket, e);
    }
  }

  lemma {:induction false} BucketAscends(log: seq<LogRecord>, bucket: string)
    ensures Ascending(InBucket(log, bucket))
  {
    if log != [] {
      var n := |log| - 1;
      BucketAscends(log[..n], bucket);
      forall p | 0 <= p < |InBucket(log[..n], bucket)| ensures InBucket(log[..n], bucket)[p].number < n {
        BucketMembers(log[..n], bucket, InBucket(log[..n], bucket)[p]);
      }
      hide BucketFor, BucketAt;
    }
  }

  /** In its bucket's subsequence a record has as many successors as later records. */
  lemma {:induction false} BucketPositions(log: seq<LogRecord>, bucket: string, p: nat)
    requires p < |InBucket(log, bucket)| && Belongs(log, bucket, InBucket(log, bucket)[p])
    ensures Later(log, InBucket(log, bucket)[p].number) == |InBucket(log, bucket)| - 1 - p
  {
    hide BucketFor;
    var n := |log| - 1;
    var before := InBucket(log[..n], bucket);
    if p < |before| {
      BucketMembers(log[..n], bucket, before[p]);
      BucketPositions(log[..n], bucket, p);
    }
  }

  /** The last `capacity` of a bucket are its kept records. */
  lemma BucketKeeps(log: seq<LogRecord>, bucket: string, capacity: nat, e: Entry)
    ensures e in LastOf(InBucket(log, bucket), capacity) <==>
            Belongs(log, bucket, e) && Kept(log, capacity, e.number)
  {
    var s := InBucket(log, bucket);
    BucketMembers(log, bucket, e);
    if e in s {
      BucketAscends(log, bucket);
      var p :| 0 <= p < |s| && s[p] == e;
      BucketPositions(log, bucket, p);
      hide InBucket, Later, BucketFor, Belongs;
      AmongLast(s, capacity, p);
    } else {
      hide InBucket, Later, BucketFor, Belongs;
    }
  }

  lemma AmongLast(s: seq<Entry>, n: nat, p: nat)
    requires Ascending(s) && p < |s|
    ensures s[p] in LastOf(s, n) <==> |s| - 1 - p < n
  {
    var t := LastOf(s, n);
    var d := |s| - |t|;
    if |s| - 1 - p < n { assert t[p - d] == s[p]; }
    if s[p] in t {
      var q :| 0 <= q < |t| && t[q] == s[p];
      assert s[q + d] == s[p];
    }
  }

  // ---- Counting by level ----

  /** The level has a bucket of its own; all the others share one. */
  predicate IsNamed(level: string) {
    level == "DEBUG" || level == "INFO" || level == "WARNING" || level == "ERROR" || level == "CRITICAL"
  }

  /** How many of these records carry this very level. */
  function AtLevel(records: seq<LogRecord>, level: string): nat {
    if records == [] then 0 else
    AtLevel(records[..|records| - 1], level) + if records[|records| - 1].level == level then 1 else 0
  }

  /** How many carry a level that is none of the named ones. */
  function AtOtherLevels(records: seq<LogRecord>): nat {
    if records == [] then 0 else
    AtOtherLevels(records[..|records| - 1]) + if !IsNamed(records[|records| - 1].level) then 1 else 0
  }

  /** Fewer than `capacity` later records compete with record `i`: those of its very level
      when that is a named one, else those of all other levels. */
  predicate Survives(log: seq<LogRecord>, capacity: nat, i: nat)
    requires i < |log|
  {
    if IsNamed(log[i].level) then AtLevel(log[i + 1..], log[i].level) < capacity
    else AtOtherLevels(log[i + 1..]) < capacity
  }

  lemma {:induction false} LaterCounts(log: seq<LogRecord>, i: nat)
    requires i < |log|
    ensures Later(log, i) ==
      if IsNamed(log[i].level) then AtLevel(log[i + 1..], log[i].level) else AtOtherLevels(log[i + 1..])
  {
    hide BucketFor, IsNamed;
    var n := |log| - 1;
    var later := log[i + 1..];
    if i < n {
      LaterCounts(log[..n], i);
      assert later[..|later| - 1] == log[..n][i + 1..] && later[|later| - 1] == log[n];
      assert log[..n][i] == log[i];
      SameBucketIff(log[n].level, log[i].level);
    }
  }

  lemma SameBucketIff(a: string, b: string)
    ensures BucketFor(a) == BucketFor(b) <==> a == b || (!IsNamed(a) && !IsNamed(b))
  {
  }

  lemma KeptIff(log: seq<LogRecord>, capacity: nat, i: nat)
    requires i < |log|
    ensures Kept(log, capacity, i) <==> Survives(log, capacity, i)
  {
    hide Later, IsNamed;
    LaterCounts(log, i);
  }

  /** A record at another level costs none of those at a named level anything, nor does one at
      a named level cost those at any other. */
  lemma OtherLevelsStay(log: seq<LogRecord>, capacity: nat, record: LogRecord, i: nat)
    requires i < |log| && log[i].level != record.level && (IsNamed(record.level) || IsNamed(log[i].level))
    ensures Survives(log + [record], capacity, i) <==> Survives(log, capacity, i)
  {
    hide IsNamed;
    var later := (log + [record])[i + 1..];
    assert later == log[i + 1..] + [record] && later[..|later| - 1] == log[i + 1..];
  }

  // ---- Merging by sequence number ----

  predicate DistinctNumbers(s: seq<Entry>) {
    forall i, j :: 0 <= i < j < |s| ==> s[i].number != s[j].number
  }

  function Insert(s: seq<Entry>, e: Entry): (r: seq<Entry>)
    requires Ascending(s) && forall i :: 0 <= i < |s| ==> s[i].number != e.number
    ensures Ascending(r)
    ensures forall x :: x in r <==> x in s || x == e
  {
    if s == [] || s[|s| - 1].number < e.number then s + [e]
    else
      var r := Insert(s[..|s| - 1], e);
      assert forall i :: 0 <= i < |r| ==> r[i] in r;
      r + [s[|s| - 1]]
  }

  /** `tagged.sort(key=itemgetter(0))` */
  function Sorted(s: seq<Entry>): (r: seq<Entry>)
    requires DistinctNumbers(s)
    ensures Ascending(r)
    ensures forall x :: x in r <==> x in s
  {
    if s == [] then [] else
    var before := Sorted(s[..|s| - 1]);
    assert forall i :: 0 <= i < |before| ==> before[i] in s[..|s| - 1];
    Insert(before, s[|s| - 1])
  }

  lemma {:induction false} AscendingIsUnique(a: seq<Entry>, b: seq<Entry>)
    requires Ascending(a) && Ascending(b) && forall x :: x in a <==> x in b
    ensures a == b
    decreases |a|
  {
    assert |a| > 0 ==> a[|a| - 1] in a;
    assert |b| > 0 ==> b[|b| - 1] in b;
    if a != [] {
      var m, n := |a| - 1, |b| - 1;
      assert a[m] in b && b[n] in a;
      assert a[m] == b[n];
      forall x ensures x in a[..m] <==> x in b[..n] {
        if x in a[..m] { assert x in b; }
        if x in b[..n] { assert x in a; }
      }
      AscendingIsUnique(a[..m], b[..n]);
    }
  }

  function From(s: seq<Entry>, index: int): seq<Entry> {
    if s == [] then [] else From(s[..|s| - 1], index) + if s[|s| - 1].number >= index then [s[|s| - 1]] else []
  }

  lemma {:induction false} FromMembers(s: seq<Entry>, index: int)
    ensures Ascending(s) ==> Ascending(From(s, index))
    ensures forall e :: e in From(s, index) <==> e in s && e.number >= index
  {
    if s != [] {
      var n := |s| - 1;
      var before := From(s[..n], index);
      FromMembers(s[..n], index);
      assert s == s[..n] + [s[n]];
      assert forall i :: 0 <= i < |before| ==> before[i] in before;
    }
  }

  /** The buckets hold the last `capacity` records of each bucket's subsequence. */
  ghost predicate LevelsAgree(levels: map<string, seq<Entry>>, log: seq<LogRecord>, capacity: nat) {
    && (forall b :: b in levels <==> InBucket(log, b) != [])
    && (forall b :: b in levels ==> levels[b] == LastOf(InBucket(log, b), capacity))
  }

  /** A bounded `deque` after one append. */
  function Appended(bucket: seq<Entry>, e: Entry, capacity: nat): seq<Entry> {
    if |bucket| + 1 > capacity then (bucket + [e])[1..] else bucket + [e]
  }

  /** The numbers of the retained records. */
  lemma RetainedNumbers(log: seq<LogRecord>, capacity: nat, index: int) returns (numbers: seq<nat>)
    ensures var records := Records(Retained(log, capacity, index));
      && |records| == |numbers| && (forall j, k :: 0 <= j < k < |numbers| ==> numbers[j] < numbers[k])
      && forall j :: 0 <= j < |numbers| ==> numbers[j] < |log| && records[j] == log[numbers[j]]
    ensures forall i: nat :: i < |log| ==> (i in numbers <==> i >= index && Survives(log, capacity, i))
  {
    hide Kept, Survives, RetainedUpTo;
    var s := Retained(log, capacity, index);
    RetainedMembers(log, capacity, index, |log|);
    assert forall j :: 0 <= j < |s| ==> s[j] in s;
    numbers := seq(|s|, j requires 0 <= j < |s| => s[j].number);
    forall i: nat | i < |log| ensures i in numbers <==> i >= index && Survives(log, capacity, i) {
      KeptIff(log, capacity, i);
      if i >= index && Survives(log, capacity, i) {
        var j :| 0 <= j < |s| && s[j] == Entry(i, log[i]);
        assert numbers[j] == i;
      }
    }
  }

  /** What a snapshot takes from one bucket. */
  lemma BucketShare(log: seq<LogRecord>, bucket: string, capacity: nat, index: int)
    ensures var more := From(LastOf(InBucket(log, bucket), capacity), index);
      && Ascending(more)
      && forall e :: e in more <==> Belongs(log, bucket, e) && index <= e.number && Kept(log, capacity, e.number)
  {
    hide InBucket, Later, From, Kept, BucketAt;
    var s := LastOf(InBucket(log, bucket), capacity);
    BucketAscends(log, bucket);
    FromMembers(s, index);
    forall e ensures e in s <==> Belongs(log, bucket, e) && Kept(log, capacity, e.number) {
      BucketKeeps(log, bucket, capacity, e);
    }
  }

  lemma EmitInBucket(log: seq<LogRecord>, record: LogRecord, bucket: string)
    ensures InBucket(log + [record], bucket) ==
            if bucket == BucketFor(record.level) then InBucket(log, bucket) + [Entry(|log|, record)]
            else InBucket(log, bucket)
  {
    assert (log + [record])[..|log|] == log;
    assert InBucket(log, bucket) + [] == InBucket(log, bucket);
    hide BucketFor;
  }

  lemma LastOfAppended(s: seq<Entry>, e: Entry, capacity: nat)
    requires capacity >= 1
    ensures LastOf(s + [e], capacity) == Appended(LastOf(s, capacity), e, capacity)
  {
  }

  lemma EmitAgrees(levels: map<string, seq<Entry>>, log: seq<LogRecord>, capacity: nat, record: LogRecord)
    requires capacity >= 1 && LevelsAgree(levels, log, capacity)
    ensures var key := BucketFor(record.level);
      var bucket := if key in levels then levels[key] else [];
      LevelsAgree(levels[key := Appended(bucket, Entry(|log|, record), capacity)], log + [record], capacity)
  {
    var key := BucketFor(record.level);
    var e := Entry(|log|, record);
    assert key !in levels ==> LastOf(InBucket(log, key), capacity) == [];
    hide BucketFor, InBucket, LastOf, Appended;
    var after := levels[key := Appended(if key in levels then levels[key] else [], e, capacity)];
    forall b ensures b in after <==> InBucket(log + [record], b) != [] {
      EmitInBucket(log, record, b);
    }
    forall b | b in after ensures after[b] == LastOf(InBucket(log + [record], b), capacity) {
      EmitInBucket(log, record, b);
      if b == key { LastOfAppended(InBucket(log, key), e, capacity); }
    }
  }

  /** Some bucket holds the entry. */
  ghost predicate Holds(levels: map<string, seq<Entry>>, e: Entry) {
    exists b :: b in levels && e in levels[b]
  }

  /** The records at these two levels do not compete. */
  predicate Apart(a: string, b: string) {
    a != b && (IsNamed(a) || IsNamed(b))
  }

  /** Replacing the bucket of a record's level keeps the entries at other levels. */
  lemma OthersAreHeld(levels: map<string, seq<Entry>>, log: seq<LogRecord>, capacity: nat, record: LogRecord,
                      bucket: seq<Entry>, e: Entry)
    requires LevelsAgree(levels, log, capacity) && e in bucket
    ensures var after := levels[BucketFor(record.level) := bucket];
      && Holds(after, e)
      && forall other :: Holds(levels, other) && Apart(other.record.level, record.level) ==> Holds(after, other)
  {
    hide BucketFor, IsNamed, InBucket, LastOf, Kept;
    var after := levels[BucketFor(record.level) := bucket];
    assert e in after[BucketFor(record.level)];
    forall other | Holds(levels, other) && Apart(other.record.level, record.level) ensures Holds(after, other) {
      var b :| b in levels && other in levels[b];
      BucketKeeps(log, b, capacity, other);
      SameBucketIff(other.record.level, record.level);
      assert other in after[b];
    }
  }

  // ---- The handler ----

  class InMemoryLogBuffer {
    const capacity: nat
    var levels: map<string, seq<Entry>>
    var total: nat
    /** Everything ever emitted. */
    ghost var log: seq<LogRecord>

    ghost predicate Valid()
      reads this
    {
      && capacity >= 1 && total == |log|
      && LevelsAgree(levels, log, capacity)
    }

    constructor (capacity: nat)
      requires capacity >= 1
      ensures Valid() && log == [] && this.capacity == capacity
    {
      this.capacity := capacity;
      levels, total, log := map[], 0, [];
    }

    /** Appends to the record's own bucket; the others keep all they held. */
    method Emit(record: LogRecord)
      requires Valid()
      modifies this
      ensures Valid() && log == old(log) + [record]
      ensures forall b :: b != BucketFor(record.level) ==>
        (b in levels <==> b in old(levels)) && (b in levels ==> levels[b] == old(levels[b]))
      ensures Holds(levels, Entry(old(total), record))
      ensures forall e :: Holds(old(levels), e) && Apart(e.record.level, record.level) ==> Holds(levels, e)
    {
      hide BucketFor, LevelsAgree, Holds, Apart;
      EmitAgrees(levels, log, capacity, record);
      var key := BucketFor(record.level);
      var bucket := if key in levels then levels[key] else [];
      bucket := bucket + [Entry(total, record)];
      if |bucket| > capacity { bucket := bucket[1..]; }
      assert bucket[|bucket| - 1] == Entry(total, record);
      OthersAreHeld(levels, log, capacity, record, bucket, Entry(total, record));
      levels := levels[key := bucket];
      total := total + 1;
      log := log + [record];
    }

    /** The records kept from `index` on, in emission order, and where to resume. */
    method SnapshotRecordsSince(index: int)
      returns (records: seq<LogRecord>, resume: nat, ghost numbers: seq<nat>)
      requires Valid()
      ensures records == Records(Retained(log, capacity, index)) && resume == |log|
      ensures |records| == |numbers| && forall j, k :: 0 <= j < k < |numbers| ==> numbers[j] < numbers[k]
      ensures forall j :: 0 <= j < |numbers| ==> numbers[j] < |log| && records[j] == log[numbers[j]]
      ensures forall i: nat :: i < |log| ==>
        (i in numbers <==>
          && i >= index
          && (IsNamed(log[i].level) ==> AtLevel(log[i + 1..], log[i].level) < capacity)
          && (!IsNamed(log[i].level) ==> AtOtherLevels(log[i + 1..]) < capacity))
    {
      hide InBucket, From, Kept, LastOf;
      var tagged: seq<Entry> := [];
      var todo := levels.Keys;
      while todo != {}
        invariant todo <= levels.Keys
        invariant DistinctNumbers(tagged)
        invariant forall e :: e in tagged <==>
          && e.number < |log| && e.record == log[e.number] && index <= e.number
          && Kept(log, capacity, e.number)
          && BucketAt(log, e.number) in levels.Keys - todo
        decreases |todo|
      {
        var b :| b in todo;
        BucketShare(log, b, capacity, index);
        var more := From(levels[b], index);
        assert forall i :: 0 <= i < |tagged| ==> tagged[i] in tagged;
        assert forall i :: 0 <= i < |more| ==> more[i] in more;
        tagged := tagged + more;
        todo := todo - {b};
      }
      forall i | 0 <= i < |log| ensures BucketAt(log, i) in levels {
        BucketMembers(log, BucketAt(log, i), Entry(i, log[i]));
      }
      RetainedMembers(log, capacity, index, |log|);
      AscendingIsUnique(Sorted(tagged), Retained(log, capacity, index));
      numbers := RetainedNumbers(log, capacity, index);
      return Records(Sorted(tagged)), total, numbers;
    }
  }

  /** Creating the handler; a capacity below one is a `ValueError`. */
  method NewBuffer(capacity: int) returns (buffer: InMemoryLogBuffer?)
    ensures buffer == null <==> capacity < 1
    ensures buffer != null ==> fresh(buffer) && buffer.Valid() && buffer.log == [] && buffer.capacity == capacity
  {
    if capacity < 1 { return null; }
    buffer := new InMemoryLogBuffer(capacity);
  }

  // ---- Incremental polling ----

  /** A reader polls when the log had `cuts[0]`, `cuts[1]`, ... records, each time from
      the index the poll before returned (from zero at first). */
  predicate Polls(log: seq<LogRecord>, cuts: seq<nat>) {
    && (forall i :: 0 <= i < |cuts| ==> cuts[i] <= |log|)
    && (forall i, j :: 0 <= i < j < |cuts| ==> cuts[i] <= cuts[j])
  }

  function LastCut(cuts: seq<nat>): nat {
    if cuts == [] then 0 else cuts[|cuts| - 1]
  }

  /** Everything the reader has seen, poll after poll. */
  function Seen(log: seq<LogRecord>, capacity: nat, cuts: seq<nat>): seq<Entry>
    requires Polls(log, cuts)
  {
    if cuts == [] then [] else
    var before := cuts[..|cuts| - 1];
    Seen(log, capacity, before) + Retained(log[..LastCut(cuts)], capacity, LastCut(before))
  }

  /** The first poll after record `i`. */
  function FirstCutAfter(cuts: seq<nat>, i: nat): (c: nat)
    requires i < LastCut(cuts)
    ensures i < c && c in cuts
  {
    var before := cuts[..|cuts| - 1];
    if i < LastCut(before) then FirstCutAfter(before, i) else LastCut(cuts)
  }

  lemma CutInRange(log: seq<LogRecord>, cuts: seq<nat>, i: nat)
    requires Polls(log, cuts) && i < LastCut(cuts)
    ensures FirstCutAfter(cuts, i) <= |log|
  {
  }

  lemma AscendingJoin(a: seq<Entry>, b: seq<Entry>, bound: nat)
    requires Ascending(a) && Ascending(b)
    requires (forall e :: e in a ==> e.number < bound) && (forall e :: e in b ==> bound <= e.number)
    ensures Ascending(a + b)
  {
    assert forall p :: 0 <= p < |a| ==> a[p] in a;
    assert forall p :: 0 <= p < |b| ==> b[p] in b;
  }

  lemma {:induction false} SeenAscends(log: seq<LogRecord>, capacity: nat, cuts: seq<nat>)
    requires Polls(log, cuts)
    ensures Ascending(Seen(log, capacity, cuts))
    ensures forall e :: e in Seen(log, capacity, cuts) ==> e.number < LastCut(cuts) && e.record == log[e.number]
  {
    hide Kept;
    if cuts != [] {
      var before := cuts[..|cuts| - 1];
      var now := log[..LastCut(cuts)];
      SeenAscends(log, capacity, before);
      RetainedMembers(now, capacity, LastCut(before), |now|);
      hide RetainedUpTo, Ascending;
      AscendingJoin(Seen(log, capacity, before), Retained(now, capacity, LastCut(before)), LastCut(before));
    }
  }

  lemma {:induction false} SeenIff(log: seq<LogRecord>, capacity: nat, cuts: seq<nat>, i: nat)
    requires Polls(log, cuts) && i < LastCut(cuts)
    ensures FirstCutAfter(cuts, i) <= |log|
    ensures Entry(i, log[i]) in Seen(log, capacity, cuts) <==> Kept(log[..FirstCutAfter(cuts, i)], capacity, i)
  {
    hide Kept, RetainedUpTo;
    CutInRange(log, cuts, i);
    var before := cuts[..|cuts| - 1];
    var now := log[..LastCut(cuts)];
    RetainedMembers(now, capacity, LastCut(before), |now|);
    if i < LastCut(before) {
      SeenIff(log, capacity, before, i);
    } else {
      SeenAscends(log, capacity, before);
      assert now[i] == log[i];
    }
  }

  /** Polling shows an ascending, hence duplicate-free, subsequence of the log.  A record
      is missed exactly when `capacity` later records of its own bucket were emitted
      before the first poll after it. */
  lemma PollingLosesOnlyEvicted(log: seq<LogRecord>, capacity: nat, cuts: seq<nat>)
    requires Polls(log, cuts)
    ensures var seen := Seen(log, capacity, cuts);
      && Ascending(seen)
      && (forall e :: e in seen ==> e.number < |log| && e.record == log[e.number])
      && (forall i :: 0 <= i < LastCut(cuts) ==>
            FirstCutAfter(cuts, i) <= |log|
            && (Entry(i, log[i]) !in seen <==> Later(log[..FirstCutAfter(cuts, i)], i) >= capacity))
  {
    hide Later, Seen, FirstCutAfter;
    SeenAscends(log, capacity, cuts);
    forall i | 0 <= i < LastCut(cuts)
      ensures FirstCutAfter(cuts, i) <= |log|
      ensures Entry(i, log[i]) in Seen(log, capacity, cuts) <==> Kept(log[..FirstCutAfter(cuts, i)], capacity, i)
    {
      SeenIff(log, capacity, cuts, i);
    }
  }

  lemma {:induction false} FirstCutIsFirst(log: seq<LogRecord>, cuts: seq<nat>, i: nat)
    requires Polls(log, cuts) && i < LastCut(cuts)
    ensures var c := FirstCutAfter(cuts, i);
      c in cuts && i < c <= |log| && forall d :: d in cuts && i < d ==> c <= d
    decreases |cuts|
  {
    var before := cuts[..|cuts| - 1];
    assert forall d :: d in cuts ==> d in before || d == LastCut(cuts);
    CutInRange(log, cuts, i);
    if i < LastCut(before) {
      FirstCutIsFirst(log, before, i);
    } else {
      assert forall d :: d in before ==> d <= LastCut(before);
    }
  }

  /** A record is missed by a polling reader exactly when, before the first poll after it,
      `capacity` records of its very level were emitted, or of any unnamed levels when its own
      is unnamed. */
  lemma PollingByLevel(log: seq<LogRecord>, capacity: nat, cuts: seq<nat>, i: nat, c: nat)
    requires Polls(log, cuts) && i < c && c in cuts && forall d :: d in cuts && i < d ==> c <= d
    ensures c <= |log|
    ensures Entry(i, log[i]) !in Seen(log, capacity, cuts) <==>
      if IsNamed(log[i].level) then AtLevel(log[i + 1..c], log[i].level) >= capacity
      else AtOtherLevels(log[i + 1..c]) >= capacity
  {
    var p :| 0 <= p < |cuts| && cuts[p] == c;
    FirstCutIsFirst(log, cuts, i);
    assert FirstCutAfter(cuts, i) == c;
    PollingLosesOnlyEvicted(log, capacity, cuts);
    LaterCounts(log[..c], i);
    assert log[..c][i + 1..] == log[i + 1..c];
    hide Later, Seen, FirstCutAfter, IsNamed, AtLevel, AtOtherLevels;
  }
}
