/** The SQLite tables the ingest path writes, as values, and what every write keeps. */
module Store {
  import opened Wrappers
  import opened Select

  datatype Float = Finite(value: real) | NaN | PosInf | NegInf

  datatype MetricRow = MetricRow(name: string, step: int, value: Float, timestamp: Option<Float>)

  datatype RunEvent = RunEvent(level: string, source: string, message: string, step: Option<int>, timestamp: Option<Float>)

  /** One run's rows of `metrics`, `tags`, `params` and `run_events`, and its `metrics_count`. */
  datatype RunTables = RunTables(
    metrics: seq<MetricRow>,
    metricsCount: nat,
    tags: map<string, string>,
    params: map<string, string>,
    events: seq<RunEvent>)

  type Tables = map<string, RunTables>

  /** What the handler hands on, directly or through the stream: `QueuedIngestBatch`. */
  datatype Batch = Batch(
    project: string,
    run: string,
    id: string,
    payloadHash: string,
    seqNo: int,
    metrics: seq<MetricRow>,
    params: seq<(string, string)>,
    tags: seq<(string, string)>,
    events: seq<RunEvent>,
    warnings: seq<string>)

  const BLANK := RunTables([], 0, map[], map[], [])

  function TableOf(t: Tables, run: string): RunTables {
    if run in t then t[run] else BLANK
  }

  // ------------------------------------------------------------------ writes

  // A call with nothing to write leaves the tables alone.

  function InsertMetrics(t: Tables, run: string, rows: seq<MetricRow>): Tables {
    var r := TableOf(t, run);
    if rows == [] then t else t[run := r.(metrics := r.metrics + rows)]
  }

  function IncrementMetricsCount(t: Tables, run: string, n: nat): Tables {
    var r := TableOf(t, run);
    t[run := r.(metricsCount := r.metricsCount + n)]
  }

  /** `INSERT OR REPLACE`, pair by pair. */
  function Upsert(m: map<string, string>, pairs: seq<(string, string)>): map<string, string>
    decreases |pairs|
  {
    var last := |pairs| - 1;
    if pairs == [] then m else Upsert(m, pairs[..last])[pairs[last].0 := pairs[last].1]
  }

  function SetTags(t: Tables, run: string, pairs: seq<(string, string)>): Tables {
    var r := TableOf(t, run);
    if pairs == [] then t else t[run := r.(tags := Upsert(r.tags, pairs))]
  }

  function InsertParams(t: Tables, run: string, pairs: seq<(string, string)>): Tables {
    var r := TableOf(t, run);
    if pairs == [] then t else t[run := r.(params := Upsert(r.params, pairs))]
  }

  function InsertEvents(t: Tables, run: string, events: seq<RunEvent>): Tables {
    var r := TableOf(t, run);
    if events == [] then t else t[run := r.(events := r.events + events)]
  }

  function WarningEvents(warnings: seq<string>): (events: seq<RunEvent>)
    ensures |events| == |warnings|
  {
    seq(|warnings|, i requires 0 <= i < |warnings| => RunEvent("warn", "ingest", warnings[i], None, None))
  }

  /** The queued form of a batch's events: warnings follow as warn/ingest events. */
  function AllEvents(b: Batch): seq<RunEvent> {
    b.events + WarningEvents(b.warnings)
  }

  // ------------------------------------------------------------------ nothing is ever lost

  predicate Keys(pairs: seq<(string, string)>, m: map<string, string>) {
    forall i :: 0 <= i < |pairs| ==> pairs[i].0 in m
  }

  /** `block` stands in `s` in one piece. */
  ghost predicate Holds<T(!new)>(s: seq<T>, block: seq<T>) {
    exists k: nat :: HoldsAt(s, block, k)
  }

  predicate HoldsAt<T(==)>(s: seq<T>, block: seq<T>, k: nat) {
    k + |block| <= |s| && s[k..k + |block|] == block
  }

  /** Rows are only appended, keys are only added, the count only goes up. */
  ghost predicate Grows(t: Tables, u: Tables) {
    forall run ::
      var r, q := TableOf(t, run), TableOf(u, run);
      && r.metrics <= q.metrics && r.events <= q.events
      && r.tags.Keys <= q.tags.Keys && r.params.Keys <= q.params.Keys
      && r.metricsCount <= q.metricsCount
  }

  lemma HoldsLater<T(!new)>(s: seq<T>, u: seq<T>, block: seq<T>)
    requires Holds(s, block) && s <= u
    ensures Holds(u, block)
  {
    var k: nat :| HoldsAt(s, block, k);
    assert u[k..k + |block|] == s[k..k + |block|];
    assert HoldsAt(u, block, k);
  }

  lemma HoldsAppended<T(!new)>(s: seq<T>, block: seq<T>)
    ensures Holds(s + block, block)
  {
    assert HoldsAt(s + block, block, |s|);
  }

  lemma HoldsNothing<T(!new)>(s: seq<T>)
    ensures Holds(s, [])
  {
    assert s[0..0] == [];
    assert HoldsAt(s, [], 0);
  }

  lemma GrowsRefl(t: Tables)
    ensures Grows(t, t)
  {
  }

  lemma GrowsTransitive(t: Tables, u: Tables, v: Tables)
    requires Grows(t, u) && Grows(u, v)
    ensures Grows(t, v)
  {
    forall run
      ensures var r, q := TableOf(t, run), TableOf(v, run);
              && r.metrics <= q.metrics && r.events <= q.events
              && r.tags.Keys <= q.tags.Keys && r.params.Keys <= q.params.Keys
              && r.metricsCount <= q.metricsCount
    {
      var r, p, q := TableOf(t, run), TableOf(u, run), TableOf(v, run);
      assert r.metrics <= p.metrics && p.metrics <= q.metrics;
      assert r.events <= p.events && p.events <= q.events;
    }
  }

  lemma {:induction false} UpsertKeys(m: map<string, string>, pairs: seq<(string, string)>)
    ensures m.Keys <= Upsert(m, pairs).Keys
    ensures Keys(pairs, Upsert(m, pairs))
    decreases |pairs|
  {
    if pairs != [] {
      var last := |pairs| - 1;
      UpsertKeys(m, pairs[..last]);
      assert forall i :: 0 <= i < last ==> pairs[i] == pairs[..last][i];
    }
  }

  /** A value after an upsert was there before or is one of the pairs written. */
  lemma {:induction false} UpsertSource(m: map<string, string>, pairs: seq<(string, string)>, key: string)
    requires key in Upsert(m, pairs)
    ensures (key in m && Upsert(m, pairs)[key] == m[key]) || (key, Upsert(m, pairs)[key]) in pairs
    decreases |pairs|
  {
    if pairs != [] {
      var last := |pairs| - 1;
      if key != pairs[last].0 {
        UpsertSource(m, pairs[..last], key);
        assert (key, Upsert(m, pairs)[key]) in pairs[..last] ==> (key, Upsert(m, pairs)[key]) in pairs;
      } else {
        assert (key, pairs[last].1) == pairs[last];
      }
    }
  }

  lemma MetricsGrow(t: Tables, run: string, rows: seq<MetricRow>)
    ensures Grows(t, InsertMetrics(t, run, rows))
  {
  }

  lemma CountGrows(t: Tables, run: string, n: nat)
    ensures Grows(t, IncrementMetricsCount(t, run, n))
  {
  }

  lemma TagsGrow(t: Tables, run: string, pairs: seq<(string, string)>)
    ensures Grows(t, SetTags(t, run, pairs))
  {
    UpsertKeys(TableOf(t, run).tags, pairs);
  }

  lemma ParamsGrow(t: Tables, run: string, pairs: seq<(string, string)>)
    ensures Grows(t, InsertParams(t, run, pairs))
  {
    UpsertKeys(TableOf(t, run).params, pairs);
  }

  lemma EventsGrow(t: Tables, run: string, events: seq<RunEvent>)
    ensures Grows(t, InsertEvents(t, run, events))
  {
  }

  /** Tag, param and event writes leave the metric rows and their count alone. */
  lemma LabelWritesKeepRows(t: Tables, target: string, pairs: seq<(string, string)>, events: seq<RunEvent>, run: string)
    ensures var r := TableOf(t, run);
            forall u :: u in {SetTags(t, target, pairs), InsertParams(t, target, pairs), InsertEvents(t, target, events)} ==>
              TableOf(u, run).metrics == r.metrics && TableOf(u, run).metricsCount == r.metricsCount
  {
    hide Upsert;
  }

  // ------------------------------------------------------------------ direct persistence

  /** `persist_ingest_batch_to_sqlite` when every call succeeds. */
  function Persisted(t: Tables, b: Batch): Tables {
    var t1 := if b.metrics == [] then t
              else IncrementMetricsCount(InsertMetrics(t, b.run, b.metrics), b.run, |b.metrics|);
    var t2 := if b.tags == [] then t1 else SetTags(t1, b.run, b.tags);
    var t3 := if b.params == [] then t2 else InsertParams(t2, b.run, b.params);
    var t4 := if b.events == [] then t3 else InsertEvents(t3, b.run, b.events);
    if b.warnings == [] then t4 else InsertEvents(t4, b.run, WarningEvents(b.warnings))
  }

  function PersistedAll(t: Tables, batches: seq<Batch>): Tables {
    if batches == [] then t else Persisted(PersistedAll(t, batches[..|batches| - 1]), batches[|batches| - 1])
  }

  /** The tables of one run after a batch of that run, table by table. */
  function After(r: RunTables, b: Batch): RunTables {
    RunTables(r.metrics + b.metrics, r.metricsCount + |b.metrics|, Upsert(r.tags, b.tags),
              Upsert(r.params, b.params), r.events + AllEvents(b))
  }

  lemma NothingToInsert(t: Tables, run: string)
    ensures InsertEvents(t, run, []) == t && SetTags(t, run, []) == t && InsertParams(t, run, []) == t
  {
  }

  /** A write touches one table of one run. */
  lemma LabelEffects(t: Tables, run: string, pairs: seq<(string, string)>, other: string)
    ensures var r, there := TableOf(t, other), run == other;
      && TableOf(SetTags(t, run, pairs), other) == (if there then r.(tags := Upsert(r.tags, pairs)) else r)
      && TableOf(InsertParams(t, run, pairs), other) == (if there then r.(params := Upsert(r.params, pairs)) else r)
  {
    hide Upsert;
    NoUpsert(TableOf(t, run).tags);
    NoUpsert(TableOf(t, run).params);
  }

  lemma EventEffects(t: Tables, run: string, events: seq<RunEvent>, other: string)
    ensures var r := TableOf(t, other);
      TableOf(InsertEvents(t, run, events), other) == (if run == other then r.(events := r.events + events) else r)
  {
    var r := TableOf(t, other);
    assert r.events + [] == r.events;
  }

  lemma InsertEffects(t: Tables, run: string, rows: seq<MetricRow>, other: string)
    ensures var r := TableOf(t, other);
      TableOf(InsertMetrics(t, run, rows), other) == (if run == other then r.(metrics := r.metrics + rows) else r)
  {
    var r := TableOf(t, other);
    assert r.metrics + [] == r.metrics;
  }

  lemma RowEffects(t: Tables, run: string, rows: seq<MetricRow>, other: string)
    ensures var r := TableOf(t, other);
      TableOf(IncrementMetricsCount(InsertMetrics(t, run, rows), run, |rows|), other)
      == (if run == other then r.(metrics := r.metrics + rows, metricsCount := r.metricsCount + |rows|) else r)
  {
    var r := TableOf(t, other);
    assert r.metrics + [] == r.metrics;
  }

  /** Direct persistence appends the rows and counts them, upserts tags and params pair by pair, appends
      the events and then the warnings, all in the batch's own run, and leaves every other run alone. */
  lemma PersistedEffect(t: Tables, b: Batch, run: string)
    ensures TableOf(Persisted(t, b), run) == if run == b.run then After(TableOf(t, run), b) else TableOf(t, run)
  {
    hide TableOf, InsertMetrics, IncrementMetricsCount, SetTags, InsertParams, InsertEvents, Upsert, WarningEvents;
    var t1 := if b.metrics == [] then t
              else IncrementMetricsCount(InsertMetrics(t, b.run, b.metrics), b.run, |b.metrics|);
    RowEffects(t, b.run, b.metrics, run);
    var r := TableOf(t, run);
    assert r.metrics + [] == r.metrics;
    NothingToInsert(t1, b.run);
    LabelEffects(t1, b.run, b.tags, run);
    var t2 := if b.tags == [] then t1 else SetTags(t1, b.run, b.tags);
    NothingToInsert(t2, b.run);
    LabelEffects(t2, b.run, b.params, run);
    var t3 := if b.params == [] then t2 else InsertParams(t2, b.run, b.params);
    NothingToInsert(t3, b.run);
    EventEffects(t3, b.run, b.events, run);
    var t4 := if b.events == [] then t3 else InsertEvents(t3, b.run, b.events);
    NothingToInsert(t4, b.run);
    EventEffects(t4, b.run, WarningEvents(b.warnings), run);
    assert |WarningEvents(b.warnings)| == |b.warnings|;
    Associates(r.events, b.events, WarningEvents(b.warnings));
  }

  /** In the batch's own run the events stand after those there were, and the warnings after them, in order:
      each at level warn from ingest, with its own text and neither step nor timestamp. */
  lemma PersistedWarnings(t: Tables, b: Batch)
    ensures var before, after := TableOf(t, b.run).events, TableOf(Persisted(t, b), b.run).events;
            && |after| == |before| + |b.events| + |b.warnings|
            && after[..|before|] == before && after[|before|..|before| + |b.events|] == b.events
            && forall i :: 0 <= i < |b.warnings| ==>
                 after[|before| + |b.events| + i] == RunEvent("warn", "ingest", b.warnings[i], None, None)
  {
    PersistedEffect(t, b, b.run);
    hide Persisted, TableOf, Upsert;
    assert |WarningEvents(b.warnings)| == |b.warnings|;
    var before, all := TableOf(t, b.run).events, AllEvents(b);
    assert (before + all)[|before|..] == all;
    forall i | 0 <= i < |b.warnings| ensures (before + all)[|before| + |b.events| + i] == RunEvent("warn", "ingest", b.warnings[i], None, None) {
      assert all[|b.events| + i] == WarningEvents(b.warnings)[i];
    }
  }

  /** The pair at `k` is the last one with this key. */
  predicate IsLastOf(pairs: seq<(string, string)>, key: string, k: nat) {
    k < |pairs| && pairs[k].0 == key && forall j :: k < j < |pairs| ==> pairs[j].0 != key
  }

  /** After an upsert a key has the value of the last pair that carries it, and otherwise the one it had. */
  lemma {:induction false} UpsertDecides(m: map<string, string>, pairs: seq<(string, string)>, key: string)
    ensures forall k: nat :: IsLastOf(pairs, key, k) ==> key in Upsert(m, pairs) && Upsert(m, pairs)[key] == pairs[k].1
    ensures (forall i :: 0 <= i < |pairs| ==> pairs[i].0 != key) ==>
              if key in m then key in Upsert(m, pairs) && Upsert(m, pairs)[key] == m[key] else key !in Upsert(m, pairs)
    decreases |pairs|
  {
    if pairs != [] {
      var n := |pairs| - 1;
      UpsertDecides(m, pairs[..n], key);
      if pairs[n].0 != key {
        forall k: nat | IsLastOf(pairs, key, k) ensures IsLastOf(pairs[..n], key, k) {
          assert forall j :: k < j < n ==> pairs[..n][j] == pairs[j];
        }
      }
    }
  }

  lemma Associates<T>(a: seq<T>, b: seq<T>, c: seq<T>)
    ensures a + b + c == a + (b + c)
  {
  }

  /** Under direct persistence the count is exactly the number of rows. */
  lemma {:induction false} DirectCountExact(batches: seq<Batch>, run: string)
    ensures var r := TableOf(PersistedAll(map[], batches), run); r.metricsCount == |r.metrics|
    decreases |batches|
  {
    hide Persisted;
    if batches != [] {
      var init, last := batches[..|batches| - 1], batches[|batches| - 1];
      DirectCountExact(init, run);
      PersistedEffect(PersistedAll(map[], init), last, run);
    }
  }

  /** What an upsert leaves is the old map, overridden by what the pairs alone leave. */
  lemma {:induction false} UpsertOver(m: map<string, string>, pairs: seq<(string, string)>)
    ensures Upsert(m, pairs) == m + Upsert(map[], pairs)
    decreases |pairs|
  {
    if pairs != [] { UpsertOver(m, pairs[..|pairs| - 1]); }
  }

  lemma {:induction false} UpsertTwice(m: map<string, string>, a: seq<(string, string)>, b: seq<(string, string)>)
    ensures Upsert(Upsert(m, a), b) == Upsert(m, a + b)
    decreases |b|
  {
    if b == [] {
      assert a + b == a;
    } else {
      var n := |b| - 1;
      UpsertTwice(m, a, b[..n]);
      assert (a + b)[..|a + b| - 1] == a + b[..n];
    }
  }

  // ------------------------------------------------------------------ row by row

  lemma InsertMetricsTwice(t: Tables, run: string, a: seq<MetricRow>, b: seq<MetricRow>)
    ensures InsertMetrics(InsertMetrics(t, run, a), run, b) == InsertMetrics(t, run, a + b)
  {
    var r := TableOf(t, run);
    assert a == [] ==> a + b == b;
    assert b == [] ==> a + b == a;
    assert r.metrics + a + b == r.metrics + (a + b);
    assert t[run := r.(metrics := r.metrics + a)][run := r.(metrics := r.metrics + a + b)]
        == t[run := r.(metrics := r.metrics + a + b)];
  }

  /** One more row is the longer insert. */
  lemma MetricsRow(t: Tables, run: string, rows: seq<MetricRow>, k: nat)
    requires k < |rows|
    ensures InsertMetrics(InsertMetrics(t, run, rows[..k]), run, [rows[k]]) == InsertMetrics(t, run, rows[..k + 1])
  {
    InsertMetricsTwice(t, run, rows[..k], [rows[k]]);
    assert rows[..k + 1] == rows[..k] + [rows[k]];
  }

  lemma UpsertRow(m: map<string, string>, pairs: seq<(string, string)>, k: nat)
    requires k < |pairs|
    ensures Upsert(Upsert(m, pairs[..k]), [pairs[k]]) == Upsert(m, pairs[..k + 1])
  {
    assert pairs[..k + 1][..k] == pairs[..k];
    var n := Upsert(m, pairs[..k]);
    assert [pairs[k]][..0] == [];
    assert Upsert(n, []) == n;
  }

  lemma TagsRow(t: Tables, run: string, pairs: seq<(string, string)>, k: nat)
    requires k < |pairs|
    ensures SetTags(SetTags(t, run, pairs[..k]), run, [pairs[k]]) == SetTags(t, run, pairs[..k + 1])
  {
    hide Upsert;
    UpsertRow(TableOf(t, run).tags, pairs, k);
    NoUpsert(TableOf(t, run).tags);
    assert k == 0 ==> pairs[..k] == [];
  }

  lemma ParamsRow(t: Tables, run: string, pairs: seq<(string, string)>, k: nat)
    requires k < |pairs|
    ensures InsertParams(InsertParams(t, run, pairs[..k]), run, [pairs[k]]) == InsertParams(t, run, pairs[..k + 1])
  {
    hide Upsert;
    UpsertRow(TableOf(t, run).params, pairs, k);
    NoUpsert(TableOf(t, run).params);
    assert k == 0 ==> pairs[..k] == [];
  }

  lemma NoUpsert(m: map<string, string>)
    ensures Upsert(m, []) == m
  {
  }

  lemma EventsRow(t: Tables, run: string, events: seq<RunEvent>, k: nat)
    requires k < |events|
    ensures InsertEvents(InsertEvents(t, run, events[..k]), run, [events[k]]) == InsertEvents(t, run, events[..k + 1])
  {
    InsertEventsTwice(t, run, events[..k], [events[k]]);
    assert events[..k + 1] == events[..k] + [events[k]];
  }

  /** Two event inserts leave the table that one insert of both lists leaves. */
  lemma InsertEventsTwice(t: Tables, run: string, a: seq<RunEvent>, b: seq<RunEvent>)
    ensures InsertEvents(InsertEvents(t, run, a), run, b) == InsertEvents(t, run, a + b)
  {
    var r := TableOf(t, run);
    assert a == [] ==> a + b == b;
    assert b == [] ==> a + b == a;
    assert r.events + a + b == r.events + (a + b);
    assert t[run := r.(events := r.events + a)][run := r.(events := r.events + a + b)]
        == t[run := r.(events := r.events + a + b)];
  }

  // ------------------------------------------------------------------ the store

  /** What a row-by-row call leaves: all its rows, or those before the statement that failed. */
  function RowsDone<T>(rows: seq<T>, fault: Option<nat>): seq<T> {
    if fault.None? then rows else Take(rows, fault.value)
  }

  /** The store's calls. Rows are written one statement at a time, outside a transaction, so a call whose
      statement number `fault` fails leaves the earlier rows behind. */
  class SqliteStore {
    var tables: Tables
    var recorded: map<string, Batch>

    constructor ()
      ensures tables == map[] && recorded == map[]
    {
      tables, recorded := map[], map[];
    }

    method WriteMetrics(run: string, rows: seq<MetricRow>, fault: Option<nat>) returns (ok: bool)
      modifies this`tables
      ensures tables == InsertMetrics(old(tables), run, RowsDone(rows, fault))
      ensures ok == fault.None?
    {
      var count := 0;
      assert InsertMetrics(tables, run, rows[..0]) == tables;
      while count < |rows|
        invariant count <= |rows| && (fault.Some? ==> count <= fault.value)
        invariant tables == InsertMetrics(old(tables), run, rows[..count])
      {
        if fault == Some(count) {
          return false;
        }
        MetricsRow(old(tables), run, rows, count);
        tables := InsertMetrics(tables, run, [rows[count]]);
        count := count + 1;
      }
      assert rows[..count] == rows;
      ok := fault.None?;
    }

    method WriteTags(run: string, rows: seq<(string, string)>, fault: Option<nat>) returns (ok: bool)
      modifies this`tables
      ensures tables == SetTags(old(tables), run, RowsDone(rows, fault))
      ensures ok == fault.None?
    {
      var count := 0;
      assert SetTags(tables, run, rows[..0]) == tables;
      while count < |rows|
        invariant count <= |rows| && (fault.Some? ==> count <= fault.value)
        invariant tables == SetTags(old(tables), run, rows[..count])
      {
        if fault == Some(count) {
          return false;
        }
        TagsRow(old(tables), run, rows, count);
        tables := SetTags(tables, run, [rows[count]]);
        count := count + 1;
      }
      assert rows[..count] == rows;
      ok := fault.None?;
    }

    method WriteParams(run: string, rows: seq<(string, string)>, fault: Option<nat>) returns (ok: bool)
      modifies this`tables
      ensures tables == InsertParams(old(tables), run, RowsDone(rows, fault))
      ensures ok == fault.None?
    {
      var count := 0;
      assert InsertParams(tables, run, rows[..0]) == tables;
      while count < |rows|
        invariant count <= |rows| && (fault.Some? ==> count <= fault.value)
        invariant tables == InsertParams(old(tables), run, rows[..count])
      {
        if fault == Some(count) {
          return false;
        }
        ParamsRow(old(tables), run, rows, count);
        tables := InsertParams(tables, run, [rows[count]]);
        count := count + 1;
      }
      assert rows[..count] == rows;
      ok := fault.None?;
    }

    method WriteEvents(run: string, rows: seq<RunEvent>, fault: Option<nat>) returns (ok: bool)
      modifies this`tables
      ensures tables == InsertEvents(old(tables), run, RowsDone(rows, fault))
      ensures ok == fault.None?
    {
      var count := 0;
      assert InsertEvents(tables, run, rows[..0]) == tables;
      while count < |rows|
        invariant count <= |rows| && (fault.Some? ==> count <= fault.value)
        invariant tables == InsertEvents(old(tables), run, rows[..count])
      {
        if fault == Some(count) {
          return false;
        }
        EventsRow(old(tables), run, rows, count);
        tables := InsertEvents(tables, run, [rows[count]]);
        count := count + 1;
      }
      assert rows[..count] == rows;
      ok := fault.None?;
    }

    method AddToCount(run: string, n: nat, fault: Option<nat>) returns (ok: bool)
      modifies this`tables
      ensures tables == if fault.None? then IncrementMetricsCount(old(tables), run, n) else old(tables)
      ensures ok == fault.None?
    {
      ok := fault.None?;
      if ok {
        tables := IncrementMetricsCount(tables, run, n);
      }
    }
  }
}
