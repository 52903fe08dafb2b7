/** `SessionStats`: totals, per-kind rows and per-model rows of recorded requests. */
module SessionStats {
  import opened Wrappers

  datatype Kind = Assistant | Subagent | Offload | Auto

  /** `(provider, model_name)` */
  datatype ModelKey = ModelKey(provider: string, model: string)

  /** One row of a breakdown. */
  datatype Row = Row(requests: int, input: int, output: int, cost: real, priced: int)

  /** What one `record_request` call adds. */
  datatype Contribution = Contribution(
    model: string, provider: string, kind: Kind,
    input: int, output: int, cacheRead: int, cacheWrite: int, cost: Option<real>)

  datatype Stats = Stats(
    total: Row, cacheRead: int, cacheWrite: int, wallTime: real,
    perModel: map<ModelKey, Row>, perKind: map<Kind, Row>)

  const ZERO: Row := Row(0, 0, 0, 0.0, 0)

  const EMPTY: Stats := Stats(ZERO, 0, 0, 0.0, map[], map[])

  // ---- Rows ----

  function Plus(a: Row, b: Row): Row {
    Row(a.requests + b.requests, a.input + b.input, a.output + b.output, a.cost + b.cost, a.priced + b.priced)
  }

  function Minus(a: Row, b: Row): Row {
    Row(a.requests - b.requests, a.input - b.input, a.output - b.output, a.cost - b.cost, a.priced - b.priced)
  }

  /** A contribution as a row of its own. */
  function AsRow(c: Contribution): Row {
    Row(1, c.input, c.output, c.cost.GetOr(0.0), if c.cost.Some? then 1 else 0)
  }

  function KeyOf(c: Contribution): ModelKey {
    ModelKey(c.provider, c.model)
  }

  // ---- The operations, on values ----

  function Filed<K>(rows: map<K, Row>, k: K, c: Contribution): map<K, Row> {
    rows[k := Plus(if k in rows then rows[k] else ZERO, AsRow(c))]
  }

  function Unfiled<K>(rows: map<K, Row>, k: K, c: Contribution): map<K, Row> {
    if k !in rows then rows
    else if rows[k].requests - 1 <= 0 then rows - {k}
    else rows[k := Minus(rows[k], AsRow(c))]
  }

  function Record(st: Stats, c: Contribution): Stats {
    Stats(Plus(st.total, AsRow(c)), st.cacheRead + c.cacheRead, st.cacheWrite + c.cacheWrite, st.wallTime,
          if c.model != "" then Filed(st.perModel, KeyOf(c), c) else st.perModel,
          Filed(st.perKind, c.kind, c))
  }

  function Retract(st: Stats, c: Contribution): Stats {
    Stats(Minus(st.total, AsRow(c)), st.cacheRead - c.cacheRead, st.cacheWrite - c.cacheWrite, st.wallTime,
          if c.model != "" then Unfiled(st.perModel, KeyOf(c), c) else st.perModel,
          Unfiled(st.perKind, c.kind, c))
  }

  function MergedRows<K>(a: map<K, Row>, b: map<K, Row>): map<K, Row> {
    map k | k in a.Keys + b.Keys ::
      Plus(if k in a then a[k] else ZERO, if k in b then b[k] else ZERO)
  }

  function Merge(a: Stats, b: Stats): Stats {
    Stats(Plus(a.total, b.total), a.cacheRead + b.cacheRead, a.cacheWrite + b.cacheWrite,
          a.wallTime + b.wallTime, MergedRows(a.perModel, b.perModel), MergedRows(a.perKind, b.perKind))
  }

  // ---- The class ----

  class SessionStats {
    var total: Row
    var cacheReadTokens: int
    var cacheWriteTokens: int
    var wallTimeSeconds: real
    var perModel: map<ModelKey, Row>
    var perKind: map<Kind, Row>

    function Value(): Stats
      reads this
    {
      Stats(total, cacheReadTokens, cacheWriteTokens, wallTimeSeconds, perModel, perKind)
    }

    constructor ()
      ensures Value() == EMPTY
    {
      total, cacheReadTokens, cacheWriteTokens, wallTimeSeconds := ZERO, 0, 0, 0.0;
      perModel, perKind := map[], map[];
    }

    method RecordRequest(c: Contribution)
      modifies this
      ensures Value() == Record(old(Value()), c) && wallTimeSeconds == old(wallTimeSeconds)
    {
      total := total.(requests := total.requests + 1, input := total.input + c.input,
                      output := total.output + c.output);
      cacheReadTokens := cacheReadTokens + c.cacheRead;
      cacheWriteTokens := cacheWriteTokens + c.cacheWrite;
      if c.cost.Some? {
        total := total.(cost := total.cost + c.cost.value, priced := total.priced + 1);
      }
      perKind := AddTo(perKind, c.kind, c);
      if c.model != "" {
        perModel := AddTo(perModel, KeyOf(c), c);
      }
    }

    method RetractRequest(c: Contribution)
      modifies this
      ensures Value() == Retract(old(Value()), c) && wallTimeSeconds == old(wallTimeSeconds)
    {
      total := total.(requests := total.requests - 1, input := total.input - c.input,
                      output := total.output - c.output);
      cacheReadTokens := cacheReadTokens - c.cacheRead;
      cacheWriteTokens := cacheWriteTokens - c.cacheWrite;
      if c.cost.Some? {
        total := total.(cost := total.cost - c.cost.value, priced := total.priced - 1);
      }
      perKind := TakeFrom(perKind, c.kind, c);
      if c.model != "" {
        perModel := TakeFrom(perModel, KeyOf(c), c);
      }
    }

    /** Folds `other` in; `other` may be this very object. */
    method MergeFrom(other: SessionStats)
      modifies this
      ensures Value() == Merge(old(Value()), old(other.Value()))
      ensures wallTimeSeconds == old(wallTimeSeconds) + old(other.wallTimeSeconds)
    {
      var models, kinds := other.perModel, other.perKind;
      ghost var was, them := Value(), other.Value();
      wallTimeSeconds := wallTimeSeconds + other.wallTimeSeconds;
      cacheReadTokens := cacheReadTokens + other.cacheReadTokens;
      cacheWriteTokens := cacheWriteTokens + other.cacheWriteTokens;
      total := Plus(total, other.total);
      perModel := MergeInto(perModel, models);
      perKind := MergeInto(perKind, kinds);
    }
  }

  /** `rows.setdefault(k, ...)`, then the contribution added to that row. */
  method AddTo<K(==)>(rows: map<K, Row>, k: K, c: Contribution) returns (filed: map<K, Row>)
    ensures filed == Filed(rows, k, c)
  {
    var entry := if k in rows then rows[k] else ZERO;
    entry := entry.(requests := entry.requests + 1, input := entry.input + c.input,
                    output := entry.output + c.output);
    if c.cost.Some? {
      entry := entry.(cost := entry.cost + c.cost.value, priced := entry.priced + 1);
    }
    filed := rows[k := entry];
  }

  /** The contribution taken from its row, and the row dropped once it holds no request. */
  method TakeFrom<K(==)>(rows: map<K, Row>, k: K, c: Contribution) returns (rest: map<K, Row>)
    ensures rest == Unfiled(rows, k, c)
  {
    rest := rows;
    if k in rest {
      var entry := rest[k];
      entry := entry.(requests := entry.requests - 1, input := entry.input - c.input,
                      output := entry.output - c.output);
      if c.cost.Some? {
        entry := entry.(cost := entry.cost - c.cost.value, priced := entry.priced - 1);
      }
      rest := rest[k := entry];
      if entry.requests <= 0 {
        rest := rest - {k};
      }
    }
  }

  /** One row at a time, in whatever order the dictionary yields them. */
  method MergeInto<K(==)>(rows: map<K, Row>, others: map<K, Row>) returns (merged: map<K, Row>)
    ensures merged == MergedRows(rows, others)
  {
    hide Plus, MergedRows;
    merged := rows;
    var todo := others.Keys;
    MergeNothing(rows, others);
    while todo != {}
      invariant todo <= others.Keys && merged == MergedRows(rows, others - todo)
      decreases |todo|
    {
      var k :| k in todo;
      MergeOne(rows, others, todo, k);
      var entry := if k in merged then merged[k] else ZERO;
      merged := merged[k := Plus(entry, others[k])];
      todo := todo - {k};
    }
    assert others - {} == others;
  }

  lemma MergeNothing<K>(rows: map<K, Row>, others: map<K, Row>)
    ensures MergedRows(rows, others - others.Keys) == rows
  {
    hide Plus;
    PlusZero();
    var merged := MergedRows(rows, others - others.Keys);
    assert merged.Keys == rows.Keys;
  }

  /** Adding one more row of `others` to the rows merged so far. */
  lemma MergeOne<K>(rows: map<K, Row>, others: map<K, Row>, todo: set<K>, k: K)
    requires todo <= others.Keys && k in todo
    ensures var merged := MergedRows(rows, others - todo);
      merged[k := Plus(if k in merged then merged[k] else ZERO, others[k])] == MergedRows(rows, others - (todo - {k}))
  {
    hide Plus;
    PlusZero();
    var before, after := MergedRows(rows, others - todo), MergedRows(rows, others - (todo - {k}));
    var now := before[k := Plus(if k in before then before[k] else ZERO, others[k])];
    assert k !in others - todo && (others - (todo - {k}))[k] == others[k];
    assert now.Keys == after.Keys;
    forall j | j in after ensures now[j] == after[j] {
      if j != k { assert j in others - todo <==> j in others - (todo - {k}); }
    }
  }

  lemma PlusZero()
    ensures forall row :: Plus(row, ZERO) == row
  {
  }
}
