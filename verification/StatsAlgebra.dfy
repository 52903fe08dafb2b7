/** What the totals and the rows of a `SessionStats` mean: sums over the live
    contributions, and the algebra of recording, retracting and merging. */
module StatsAlgebra {
  import opened Wrappers
  import opened SessionStats

  /** Everything ever recorded, in order; a retracted contribution leaves `None`. */
  type Log = seq<Option<Contribution>>

  /** Which contributions a row collects. */
  datatype Bin = All | Named | OfKind(kind: Kind) | OfModel(key: ModelKey) | InModels(keys: set<ModelKey>)

  predicate In(c: Contribution, bin: Bin) {
    match bin
    case All => true
    case Named => c.model != ""
    case OfKind(k) => c.kind == k
    case OfModel(key) => c.model != "" && KeyOf(c) == key
    case InModels(keys) => c.model != "" && KeyOf(c) in keys
  }

  function Share(slot: Option<Contribution>, bin: Bin): Row {
    if slot.Some? && In(slot.value, bin) then AsRow(slot.value) else ZERO
  }

  function Sum(log: Log, bin: Bin): Row {
    if log == [] then ZERO else Plus(Sum(log[..|log| - 1], bin), Share(log[|log| - 1], bin))
  }

  function CacheReads(log: Log): int {
    if log == [] then 0 else
    CacheReads(log[..|log| - 1]) + if log[|log| - 1].Some? then log[|log| - 1].value.cacheRead else 0
  }

  function CacheWrites(log: Log): int {
    if log == [] then 0 else
    CacheWrites(log[..|log| - 1]) + if log[|log| - 1].Some? then log[|log| - 1].value.cacheWrite else 0
  }

  /** A breakdown holds exactly the rows of the bins that some live contribution is in. */
  ghost predicate Breakdown<K(!new)>(rows: map<K, Row>, log: Log, bin: K -> Bin) {
    forall k :: if Sum(log, bin(k)).requests > 0 then k in rows && rows[k] == Sum(log, bin(k)) else k !in rows
  }

  ghost predicate KindsAgree(st: Stats, log: Log) {
    Breakdown(st.perKind, log, k => OfKind(k))
  }

  ghost predicate ModelsAgree(st: Stats, log: Log) {
    Breakdown(st.perModel, log, k => OfModel(k))
  }

  /** The statistics are those of the live contributions. */
  ghost predicate Agrees(st: Stats, log: Log) {
    && st.total == Sum(log, All)
    && st.cacheRead == CacheReads(log)
    && st.cacheWrite == CacheWrites(log)
    && KindsAgree(st, log)
    && ModelsAgree(st, log)
  }

  // ---- Sums ----

  lemma PlusSwap(a: Row, b: Row, c: Row)
    ensures Plus(Plus(a, b), c) == Plus(Plus(a, c), b)
  {
  }

  lemma PlusMinus(a: Row, b: Row)
    ensures Minus(Plus(a, b), b) == a
  {
  }

  /** Changing one slot exchanges its share. */
  lemma {:induction false} SumAt(log: Log, i: nat, slot: Option<Contribution>, bin: Bin)
    requires i < |log|
    ensures Plus(Sum(log[i := slot], bin), Share(log[i], bin)) == Plus(Sum(log, bin), Share(slot, bin))
  {
    hide Plus, Share;
    var n := |log| - 1;
    var rest := log[..n];
    var last := Share(log[n], bin);
    assert log[i := slot][..n] == if i < n then rest[i := slot] else rest;
    if i < n {
      SumAt(rest, i, slot, bin);
      PlusSwap(Sum(rest[i := slot], bin), last, Share(log[i], bin));
      PlusSwap(Sum(rest, bin), last, Share(slot, bin));
    } else {
      PlusSwap(Sum(rest, bin), Share(slot, bin), last);
    }
  }

  /** Retracting a slot subtracts exactly what it held. */
  lemma SumRetract(log: Log, i: nat, bin: Bin)
    requires i < |log| && log[i].Some?
    ensures Sum(log[i := None], bin) == if In(log[i].value, bin) then Minus(Sum(log, bin), AsRow(log[i].value))
                                        else Sum(log, bin)
  {
    hide Plus, Minus, Sum;
    SumAt(log, i, None, bin);
    PlusZero();
    PlusMinus(Sum(log[i := None], bin), AsRow(log[i].value));
  }

  lemma {:induction false} CachesAt(log: Log, i: nat)
    requires i < |log| && log[i].Some?
    ensures CacheReads(log[i := None]) == CacheReads(log) - log[i].value.cacheRead
    ensures CacheWrites(log[i := None]) == CacheWrites(log) - log[i].value.cacheWrite
  {
    var n := |log| - 1;
    assert log[i := None][..n] == if i < n then log[..n][i := None] else log[..n];
    if i < n { CachesAt(log[..n], i); }
  }

  lemma SumPush(log: Log, slot: Option<Contribution>, bin: Bin)
    ensures Sum(log + [slot], bin) == Plus(Sum(log, bin), Share(slot, bin))
  {
    assert (log + [slot])[..|log|] == log;
  }

  function Count(log: Log, bin: Bin): nat {
    if log == [] then 0 else
    Count(log[..|log| - 1], bin) +
      if log[|log| - 1].Some? && In(log[|log| - 1].value, bin) then 1 else 0
  }

  lemma {:induction false} SumCounts(log: Log, bin: Bin)
    ensures Sum(log, bin).requests == Count(log, bin)
    ensures Count(log, bin) == 0 ==> Sum(log, bin) == ZERO
  {
    hide In, Plus;
    if log != [] {
      var n := |log| - 1;
      SumCounts(log[..n], bin);
      PlusRequests(Sum(log[..n], bin), Share(log[n], bin));
      PlusZero();
    }
  }

  lemma PlusRequests(a: Row, b: Row)
    ensures Plus(a, b).requests == a.requests + b.requests
  {
  }

  lemma {:induction false} CountPositive(log: Log, bin: Bin)
    ensures Count(log, bin) > 0 <==> exists i :: 0 <= i < |log| && log[i].Some? && In(log[i].value, bin)
  {
    hide In;
    if log != [] {
      var n := |log| - 1;
      CountPositive(log[..n], bin);
      if Count(log[..n], bin) > 0 {
        var i :| 0 <= i < n && log[..n][i].Some? && In(log[..n][i].value, bin);
        assert log[i].Some? && In(log[i].value, bin);
      }
      if i :| 0 <= i < n && log[i].Some? && In(log[i].value, bin) {
        assert log[..n][i] == log[i];
      }
    }
  }

  // ---- Recording and retracting keep agreement ----

  lemma FiledAgrees<K(!new)>(rows: map<K, Row>, log: Log, bin: K -> Bin, k: K, c: Contribution)
    requires Breakdown(rows, log, bin) && In(c, bin(k))
    requires forall j :: j != k ==> !In(c, bin(j))
    ensures Breakdown(Filed(rows, k, c), log + [Some(c)], bin)
  {
    hide Sum, In;
    forall j ensures Sum(log + [Some(c)], bin(j)) == Plus(Sum(log, bin(j)), Share(Some(c), bin(j))) {
      SumPush(log, Some(c), bin(j));
    }
    forall j ensures Sum(log, bin(j)).requests == Count(log, bin(j))
             ensures Count(log, bin(j)) == 0 ==> Sum(log, bin(j)) == ZERO
    {
      SumCounts(log, bin(j));
    }
  }

  lemma NotFiledAgrees<K(!new)>(rows: map<K, Row>, log: Log, bin: K -> Bin, slot: Option<Contribution>)
    requires Breakdown(rows, log, bin) && forall j :: slot.None? || !In(slot.value, bin(j))
    ensures Breakdown(rows, log + [slot], bin)
  {
    PlusZero();
    hide Plus, Sum, In;
    forall j ensures Sum(log + [slot], bin(j)) == Sum(log, bin(j)) {
      SumPush(log, slot, bin(j));
    }
  }

  lemma SumsPush(log: Log, c: Contribution)
    ensures Sum(log + [Some(c)], All) == Plus(Sum(log, All), AsRow(c))
    ensures CacheReads(log + [Some(c)]) == CacheReads(log) + c.cacheRead
    ensures CacheWrites(log + [Some(c)]) == CacheWrites(log) + c.cacheWrite
  {
    hide Plus;
    assert (log + [Some(c)])[..|log|] == log;
  }

  lemma RecordAgrees(st: Stats, log: Log, c: Contribution)
    requires Agrees(st, log)
    ensures Agrees(Record(st, c), log + [Some(c)])
  {
    hide Plus, Filed, Breakdown, CacheReads, CacheWrites, Sum;
    SumsPush(log, c);
    FiledAgrees(st.perKind, log, k => OfKind(k), c.kind, c);
    if c.model != "" {
      FiledAgrees(st.perModel, log, k => OfModel(k), KeyOf(c), c);
    } else {
      NotFiledAgrees(st.perModel, log, k => OfModel(k), Some(c));
    }
  }

  lemma UnfiledAgrees<K(!new)>(rows: map<K, Row>, log: Log, bin: K -> Bin, k: K, i: nat)
    requires i < |log| && log[i].Some? && Breakdown(rows, log, bin) && In(log[i].value, bin(k))
    requires forall j :: j != k ==> !In(log[i].value, bin(j))
    ensures Breakdown(Unfiled(rows, k, log[i].value), log[i := None], bin)
  {
    hide Sum, In;
    forall j ensures Sum(log[i := None], bin(j)) ==
        if In(log[i].value, bin(j)) then Minus(Sum(log, bin(j)), AsRow(log[i].value)) else Sum(log, bin(j))
    {
      SumRetract(log, i, bin(j));
    }
    SumCounts(log, bin(k));
    CountPositive(log, bin(k));
  }

  lemma NotUnfiledAgrees<K(!new)>(rows: map<K, Row>, log: Log, bin: K -> Bin, i: nat)
    requires i < |log| && log[i].Some? && Breakdown(rows, log, bin)
    requires forall j :: !In(log[i].value, bin(j))
    ensures Breakdown(rows, log[i := None], bin)
  {
    forall j ensures Sum(log[i := None], bin(j)) == Sum(log, bin(j)) {
      SumRetract(log, i, bin(j));
    }
  }

  lemma RetractAgrees(st: Stats, log: Log, i: nat)
    requires Agrees(st, log) && i < |log| && log[i].Some?
    ensures Agrees(Retract(st, log[i].value), log[i := None])
  {
    hide Sum, Minus, Unfiled, Breakdown, CacheReads, CacheWrites;
    var c := log[i].value;
    SumRetract(log, i, All);
    CachesAt(log, i);
    UnfiledAgrees(st.perKind, log, k => OfKind(k), c.kind, i);
    if c.model != "" {
      UnfiledAgrees(st.perModel, log, k => OfModel(k), KeyOf(c), i);
    } else {
      NotUnfiledAgrees(st.perModel, log, k => OfModel(k), i);
    }
  }

  /** The live contributions determine the statistics (all but the wall time). */
  lemma AgreementIsUnique(a: Stats, b: Stats, log: Log)
    requires Agrees(a, log) && Agrees(b, log) && a.wallTime == b.wallTime
    ensures a == b
  {
    hide Sum;
    assert forall k :: k in a.perKind <==> k in b.perKind;
    assert forall k :: k in a.perModel <==> k in b.perModel;
    assert a.perKind == b.perKind && a.perModel == b.perModel;
  }

  // ---- The algebra ----

  /** A row that a contribution can be filed under and taken from again. */
  predicate Sound<K>(rows: map<K, Row>, k: K) {
    k in rows ==> rows[k].requests > 0
  }

  lemma UnfileFiled<K>(rows: map<K, Row>, k: K, c: Contribution)
    ensures Unfiled(Filed(rows, k, c), k, c) == rows <==> Sound(rows, k)
  {
    var row := if k in rows then rows[k] else ZERO;
    PlusMinus(row, AsRow(c));
    PlusRequests(row, AsRow(c));
    hide Plus, Minus;
    if Sound(rows, k) {
      if k in rows {
        assert rows[k := row] == rows;
      } else {
        assert Filed(rows, k, c) - {k} == rows;
      }
    }
  }

  /** Retracting is the exact inverse of recording, row eviction included, precisely
      when the rows involved are absent or hold at least one request. */
  lemma RetractUndoesRecordIff(st: Stats, c: Contribution)
    ensures Retract(Record(st, c), c) == st <==>
            Sound(st.perKind, c.kind) && (c.model != "" ==> Sound(st.perModel, KeyOf(c)))
  {
    hide Plus, Minus, Filed, Unfiled;
    PlusMinus(st.total, AsRow(c));
    UnfileFiled(st.perKind, c.kind, c);
    if c.model != "" { UnfileFiled(st.perModel, KeyOf(c), c); }
  }

  lemma AgreeingIsSound(st: Stats, log: Log)
    requires Agrees(st, log)
    ensures forall k :: Sound(st.perKind, k)
    ensures forall k :: Sound(st.perModel, k)
  {
    hide Sum;
  }

  /** Over agreeing statistics retracting always undoes recording. */
  lemma RetractUndoesRecord(st: Stats, log: Log, c: Contribution)
    requires Agrees(st, log)
    ensures Retract(Record(st, c), c) == st
  {
    AgreeingIsSound(st, log);
    RetractUndoesRecordIff(st, c);
  }

  /** Retracting one live contribution commutes with recording another. */
  lemma RetractCommutes(st: Stats, log: Log, i: nat, d: Contribution)
    requires Agrees(st, log) && i < |log| && log[i].Some?
    ensures Retract(Record(st, d), log[i].value) == Record(Retract(st, log[i].value), d)
  {
    hide Agrees, Record, Retract;
    var c := log[i].value;
    RecordAgrees(st, log, d);
    RetractAgrees(Record(st, d), log + [Some(d)], i);
    RetractAgrees(st, log, i);
    RecordAgrees(Retract(st, c), log[i := None], d);
    assert (log + [Some(d)])[i := None] == log[i := None] + [Some(d)];
    WallTimeStays(st, c, d);
    AgreementIsUnique(Retract(Record(st, d), c), Record(Retract(st, c), d), log[i := None] + [Some(d)]);
  }

  lemma WallTimeStays(st: Stats, c: Contribution, d: Contribution)
    ensures Retract(Record(st, d), c).wallTime == st.wallTime == Record(Retract(st, c), d).wallTime
  {
  }

  lemma PlusAssoc(a: Row, b: Row, c: Row)
    ensures Plus(a, Plus(b, c)) == Plus(Plus(a, b), c)
  {
  }

  lemma PlusComm(a: Row, b: Row)
    ensures Plus(a, b) == Plus(b, a)
  {
  }

  lemma MergedRowsComm<K>(a: map<K, Row>, b: map<K, Row>)
    ensures MergedRows(a, b) == MergedRows(b, a)
  {
    hide Plus;
    forall k | k in a.Keys + b.Keys ensures MergedRows(a, b)[k] == MergedRows(b, a)[k] {
      PlusComm(if k in a then a[k] else ZERO, if k in b then b[k] else ZERO);
    }
  }

  lemma MergedRowsAssoc<K>(a: map<K, Row>, b: map<K, Row>, c: map<K, Row>)
    ensures MergedRows(a, MergedRows(b, c)) == MergedRows(MergedRows(a, b), c)
  {
    hide Plus;
    var left, right := MergedRows(a, MergedRows(b, c)), MergedRows(MergedRows(a, b), c);
    assert left.Keys == right.Keys;
    forall k | k in left.Keys ensures left[k] == right[k] {
      PlusAssoc(if k in a then a[k] else ZERO, if k in b then b[k] else ZERO, if k in c then c[k] else ZERO);
      PlusZero();
    }
  }

  /** Merging is commutative and associative, on the totals and on every row. */
  lemma MergeCommutes(a: Stats, b: Stats)
    ensures Merge(a, b) == Merge(b, a)
  {
    hide MergedRows;
    MergedRowsComm(a.perModel, b.perModel);
    MergedRowsComm(a.perKind, b.perKind);
  }

  lemma MergeAssociates(a: Stats, b: Stats, c: Stats)
    ensures Merge(a, Merge(b, c)) == Merge(Merge(a, b), c)
  {
    hide MergedRows;
    MergedRowsAssoc(a.perModel, b.perModel, c.perModel);
    MergedRowsAssoc(a.perKind, b.perKind, c.perKind);
  }

  /** The sums over two logs, one after the other. */
  lemma {:induction false} SumConcat(la: Log, lb: Log, bin: Bin)
    ensures Sum(la + lb, bin) == Plus(Sum(la, bin), Sum(lb, bin))
  {
    hide Plus, Share;
    if lb == [] {
      PlusZero();
      assert la + lb == la;
    } else {
      var rest, last := lb[..|lb| - 1], lb[|lb| - 1];
      SumConcat(la, rest, bin);
      PlusAssoc(Sum(la, bin), Sum(rest, bin), Share(last, bin));
      assert (la + lb)[..|la + lb| - 1] == la + rest;
    }
  }

  lemma {:induction false} CachesConcat(la: Log, lb: Log)
    ensures CacheReads(la + lb) == CacheReads(la) + CacheReads(lb)
    ensures CacheWrites(la + lb) == CacheWrites(la) + CacheWrites(lb)
  {
    if lb == [] {
      assert la + lb == la;
    } else {
      CachesConcat(la, lb[..|lb| - 1]);
      assert (la + lb)[..|la + lb| - 1] == la + lb[..|lb| - 1];
    }
  }

  lemma MergedBreakdown<K(!new)>(a: map<K, Row>, la: Log, b: map<K, Row>, lb: Log, bin: K -> Bin)
    requires Breakdown(a, la, bin) && Breakdown(b, lb, bin)
    ensures Breakdown(MergedRows(a, b), la + lb, bin)
  {
    hide Sum, Plus, Count;
    PlusZero();
    forall k
      ensures Sum(la + lb, bin(k)) == Plus(Sum(la, bin(k)), Sum(lb, bin(k)))
      ensures Sum(la + lb, bin(k)).requests == Sum(la, bin(k)).requests + Sum(lb, bin(k)).requests
      ensures Sum(la, bin(k)).requests >= 0 && Sum(lb, bin(k)).requests >= 0
      ensures k !in a ==> Sum(la, bin(k)) == ZERO
      ensures k !in b ==> Sum(lb, bin(k)) == ZERO
    {
      SumConcat(la, lb, bin(k));
      PlusRequests(Sum(la, bin(k)), Sum(lb, bin(k)));
      SumCounts(la, bin(k));
      SumCounts(lb, bin(k));
    }
  }

  /** Merged statistics are those of both logs: of all that is live in either, whatever was
      recorded and retracted before. */
  lemma MergeAgrees(a: Stats, la: Log, b: Stats, lb: Log)
    requires Agrees(a, la) && Agrees(b, lb)
    ensures Agrees(Merge(a, b), la + lb)
  {
    hide Sum, Plus, CacheReads, CacheWrites, MergedRows, Breakdown;
    SumConcat(la, lb, All);
    CachesConcat(la, lb);
    MergedBreakdown(a.perKind, la, b.perKind, lb, k => OfKind(k));
    MergedBreakdown(a.perModel, la, b.perModel, lb, k => OfModel(k));
  }

  // ---- Splitting a session over accumulators ----

  function RecordAll(cs: seq<Contribution>): Stats {
    if cs == [] then EMPTY else Record(RecordAll(cs[..|cs| - 1]), cs[|cs| - 1])
  }

  /** The contributions assigned to accumulators `lo` up to, not including, `hi`. */
  function Dealt(cs: seq<Contribution>, to: seq<nat>, lo: nat, hi: nat): seq<Contribution>
    requires |cs| == |to|
  {
    if cs == [] then [] else
    var n := |cs| - 1;
    Dealt(cs[..n], to[..n], lo, hi) + if lo <= to[n] < hi then [cs[n]] else []
  }

  /** The first `n` accumulators, each with its own share of the recordings, merged in order. */
  function MergeAll(cs: seq<Contribution>, to: seq<nat>, n: nat): Stats
    requires |cs| == |to|
  {
    if n == 0 then EMPTY else Merge(MergeAll(cs, to, n - 1), RecordAll(Dealt(cs, to, n - 1, n)))
  }

  lemma RecordAfterMerge(a: Stats, b: Stats, c: Contribution)
    ensures Merge(Record(a, c), b) == Record(Merge(a, b), c) == Merge(a, Record(b, c))
  {
    hide Plus;
    PlusSwap(a.total, AsRow(c), b.total);
    PlusAssoc(a.total, b.total, AsRow(c));
    FiledMerge(a.perKind, b.perKind, c.kind, c);
    if c.model != "" { FiledMerge(a.perModel, b.perModel, KeyOf(c), c); }
  }

  lemma FiledMergeLeft<K>(a: map<K, Row>, b: map<K, Row>, k: K, c: Contribution)
    ensures MergedRows(Filed(a, k, c), b) == Filed(MergedRows(a, b), k, c)
  {
    hide Plus, AsRow;
    PlusSwap(if k in a then a[k] else ZERO, AsRow(c), if k in b then b[k] else ZERO);
    PlusZero();
    assert MergedRows(Filed(a, k, c), b).Keys == Filed(MergedRows(a, b), k, c).Keys;
  }

  lemma FiledMerge<K>(a: map<K, Row>, b: map<K, Row>, k: K, c: Contribution)
    ensures MergedRows(Filed(a, k, c), b) == Filed(MergedRows(a, b), k, c) == MergedRows(a, Filed(b, k, c))
  {
    hide MergedRows, Filed;
    FiledMergeLeft(a, b, k, c);
    FiledMergeLeft(b, a, k, c);
    MergedRowsComm(a, b);
    MergedRowsComm(a, Filed(b, k, c));
  }

  lemma {:induction false} SplitThenMerge(cs: seq<Contribution>, to: seq<nat>, m: nat)
    requires |cs| == |to|
    ensures Merge(RecordAll(Dealt(cs, to, 0, m)), RecordAll(Dealt(cs, to, m, m + 1)))
            == RecordAll(Dealt(cs, to, 0, m + 1))
    decreases |cs|
  {
    hide Merge, Record;
    if cs == [] {
      MergeEmpty();
    } else {
      var n := |cs| - 1;
      SplitThenMerge(cs[..n], to[..n], m);
      var a, b := Dealt(cs[..n], to[..n], 0, m), Dealt(cs[..n], to[..n], m, m + 1);
      RecordAfterMerge(RecordAll(a), RecordAll(b), cs[n]);
      RecordPush(a, cs[n]);
      RecordPush(b, cs[n]);
      RecordPush(Dealt(cs[..n], to[..n], 0, m + 1), cs[n]);
    }
  }

  lemma MergeEmpty()
    ensures Merge(EMPTY, EMPTY) == EMPTY
  {
    PlusZero();
    hide Plus;
    assert EMPTY.perModel == map[] && EMPTY.perKind == map[];
    assert MergedRows<ModelKey>(map[], map[]) == map[] && MergedRows<Kind>(map[], map[]) == map[];
  }

  lemma RecordPush(cs: seq<Contribution>, c: Contribution)
    ensures RecordAll(cs + [c]) == Record(RecordAll(cs), c) && cs + [] == cs
  {
    assert (cs + [c])[..|cs|] == cs;
  }

  lemma {:induction false} MergeAllIsPrefix(cs: seq<Contribution>, to: seq<nat>, n: nat)
    requires |cs| == |to|
    ensures MergeAll(cs, to, n) == RecordAll(Dealt(cs, to, 0, n))
  {
    hide Merge, Record, Dealt;
    if n == 0 {
      NoneDealt(cs, to);
      assert RecordAll([]) == EMPTY;
    } else {
      hide RecordAll;
      MergeAllIsPrefix(cs, to, n - 1);
      SplitThenMerge(cs, to, n - 1);
    }
  }

  lemma NoneDealt(cs: seq<Contribution>, to: seq<nat>)
    requires |cs| == |to|
    ensures Dealt(cs, to, 0, 0) == []
  {
  }

  lemma AllDealt(cs: seq<Contribution>, to: seq<nat>, n: nat)
    requires |cs| == |to| && forall i :: 0 <= i < |to| ==> to[i] < n
    ensures Dealt(cs, to, 0, n) == cs
  {
  }

  /** However the recordings of a session are dealt to `n` accumulators, merging the
      accumulators gives what recording everything in one would have. */
  lemma MergeAllIsOne(cs: seq<Contribution>, to: seq<nat>, n: nat)
    requires |cs| == |to| && forall i :: 0 <= i < |to| ==> to[i] < n
    ensures MergeAll(cs, to, n) == RecordAll(cs)
  {
    MergeAllIsPrefix(cs, to, n);
    AllDealt(cs, to, n);
  }

  // ---- The rows partition the totals ----

  function RowOf<K>(rows: map<K, Row>, k: K): Row {
    if k in rows then rows[k] else ZERO
  }

  lemma {:induction false} KindsPartition(log: Log)
    ensures Sum(log, All) == Plus(Plus(Plus(Sum(log, OfKind(Assistant)), Sum(log, OfKind(Subagent))),
                                       Sum(log, OfKind(Offload))), Sum(log, OfKind(Auto)))
  {
    if log != [] { KindsPartition(log[..|log| - 1]); }
  }

  /** The four kind rows add up to the session totals. */
  lemma KindRowsAddUp(st: Stats, log: Log)
    requires Agrees(st, log)
    ensures st.total == Plus(Plus(Plus(RowOf(st.perKind, Assistant), RowOf(st.perKind, Subagent)),
                                  RowOf(st.perKind, Offload)), RowOf(st.perKind, Auto))
  {
    hide Sum, Plus;
    KindsPartition(log);
    forall k ensures RowOf(st.perKind, k) == Sum(log, OfKind(k)) {
      SumCounts(log, OfKind(k));
    }
  }

  lemma PlusPlus(a: Row, b: Row, x: Row, y: Row)
    ensures Plus(Plus(a, b), Plus(x, y)) == Plus(Plus(a, x), Plus(b, y))
  {
  }

  lemma ShareSplits(slot: Option<Contribution>, keys: set<ModelKey>, key: ModelKey)
    requires key !in keys
    ensures Share(slot, InModels(keys + {key})) == Plus(Share(slot, InModels(keys)), Share(slot, OfModel(key)))
  {
    hide AsRow;
    PlusZero();
    if slot.Some? { PlusComm(ZERO, AsRow(slot.value)); }
    PlusComm(ZERO, ZERO);
    hide Plus;
  }

  lemma {:induction false} ModelsPartition(log: Log, keys: set<ModelKey>, key: ModelKey)
    requires key !in keys
    ensures Sum(log, InModels(keys + {key})) == Plus(Sum(log, InModels(keys)), Sum(log, OfModel(key)))
  {
    PlusZero();
    if log != [] {
      var rest, last := log[..|log| - 1], log[|log| - 1];
      ModelsPartition(rest, keys, key);
      PlusPlus(Sum(rest, InModels(keys)), Sum(rest, OfModel(key)),
               Share(last, InModels(keys)), Share(last, OfModel(key)));
      ShareSplits(last, keys, key);
      hide Plus, Share;
    }
  }

  function RowsTotal(rows: map<ModelKey, Row>, keys: seq<ModelKey>): Row {
    if keys == [] then ZERO else Plus(RowsTotal(rows, keys[..|keys| - 1]), RowOf(rows, keys[|keys| - 1]))
  }

  /** Some model rows, listed without repetition, add up to what their models contributed. */
  lemma {:induction false} SomeModelRowsAddUp(st: Stats, log: Log, keys: seq<ModelKey>)
    requires Agrees(st, log) && forall i, j :: 0 <= i < j < |keys| ==> keys[i] != keys[j]
    ensures RowsTotal(st.perModel, keys) == Sum(log, InModels(set k | k in keys))
  {
    hide Plus, Sum, In;
    if keys == [] {
      NoModels(log);
      assert (set k | k in keys) == {};
    } else {
      var n := |keys| - 1;
      SomeModelRowsAddUp(st, log, keys[..n]);
      ModelsPartition(log, (set k | k in keys[..n]), keys[n]);
      assert (set k | k in keys) == (set k | k in keys[..n]) + {keys[n]};
      SumCounts(log, OfModel(keys[n]));
    }
  }

  lemma {:induction false} SameSum(log: Log, a: Bin, b: Bin)
    requires forall i :: 0 <= i < |log| && log[i].Some? ==> In(log[i].value, a) == In(log[i].value, b)
    ensures Sum(log, a) == Sum(log, b)
  {
    hide In, Plus;
    if log != [] {
      var n := |log| - 1;
      assert forall i :: 0 <= i < n ==> log[..n][i] == log[i];
      SameSum(log[..n], a, b);
    }
  }

  /** A live contribution to a named model has a row. */
  lemma NamedHasRow(st: Stats, log: Log, i: nat)
    requires Agrees(st, log) && i < |log| && log[i].Some? && log[i].value.model != ""
    ensures KeyOf(log[i].value) in st.perModel
  {
    hide Sum, Count;
    var bin := OfModel(KeyOf(log[i].value));
    assert In(log[i].value, bin);
    CountPositive(log, bin);
    SumCounts(log, bin);
  }

  /** All model rows, listed in any order, add up to what the named models contributed. */
  lemma ModelRowsAddUp(st: Stats, log: Log, keys: seq<ModelKey>)
    requires Agrees(st, log) && forall i, j :: 0 <= i < j < |keys| ==> keys[i] != keys[j]
    requires forall k :: k in keys <==> k in st.perModel
    ensures RowsTotal(st.perModel, keys) == Sum(log, Named)
  {
    hide Agrees, RowsTotal, Sum;
    var all := set k | k in keys;
    SomeModelRowsAddUp(st, log, keys);
    forall i | 0 <= i < |log| && log[i].Some? ensures In(log[i].value, InModels(all)) == In(log[i].value, Named) {
      if log[i].value.model != "" { NamedHasRow(st, log, i); }
    }
    SameSum(log, InModels(all), Named);
  }

  lemma NoModels(log: Log)
    ensures Sum(log, InModels({})) == ZERO
  {
    SumCounts(log, InModels({}));
    CountPositive(log, InModels({}));
  }
}
