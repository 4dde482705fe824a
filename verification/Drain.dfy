/** The processor program: `process_entry` over the stores, its drain loop, and what a drained stream leaves. */
module Drain {
  import opened Wrappers
  import opened Select
  import opened Store
  import opened Processor

  /** Calls that fail during one pass, each after writing so many rows. */
  type Faults = map<Stage, nat>

  function FaultAt(faults: Faults, stage: Stage): Option<nat> {
    if stage in faults then Some(faults[stage]) else None
  }

  /** The fault that meets the call of a stage; a stage with nothing to write makes no call. */
  function FaultOf(b: Batch, faults: Faults, stage: Stage): Option<nat> {
    var silent := match stage
      case Metrics => b.metrics == []
      case ClickHouse => b.metrics == []
      case Tags => b.tags == []
      case Params => b.params == []
      case Events => AllEvents(b) == []
      case _ => false;
    if silent then None else FaultAt(faults, stage)
  }

  function StepOf(fault: Option<nat>): Action {
    if fault.None? then Work(0) else Fault(0, fault.value)
  }

  lemma {:induction false} ReachesThen(w: World, u: World, actions: seq<Action>, a: Action)
    requires Reaches(w, u, actions) && Enabled(u, a)
    ensures Reaches(w, Do(u, a), actions + [a])
    decreases |actions|
  {
    hide Do, Enabled;
    if actions == [] {
      assert (actions + [a])[1..] == [];
    } else {
      ReachesThen(Do(w, actions[0]), u, actions[1..], a);
      assert (actions + [a])[1..] == actions[1..] + [a];
    }
  }

  lemma {:induction false} ReachesOn(w: World, u: World, v: World, actions: seq<Action>, more: seq<Action>)
    requires Reaches(w, u, actions) && Reaches(u, v, more)
    ensures Reaches(w, v, actions + more)
    decreases |actions|
  {
    hide Do, Enabled;
    if actions == [] {
      assert actions + more == more;
    } else {
      ReachesOn(Do(w, actions[0]), u, v, actions[1..], more);
      assert (actions + more)[1..] == actions[1..] + more;
    }
  }

  // ------------------------------------------------------------------ a pass without failures

  /** What a pass without failures leaves: nothing but an ack when the id was recorded before, and
      otherwise what direct persistence leaves, recorded and acked. */
  function Handled(w: World, entry: nat): World
    requires entry < |w.stream|
  {
    var b := w.stream[entry];
    if b.id in w.recorded then w.(acked := w.acked + {entry})
    else w.(tables := Persisted(w.tables, b), points := w.points + PointsOf(b),
            recorded := w.recorded[b.id := b], acked := w.acked + {entry})
  }

  function Works(n: nat): seq<Action> {
    if n == 0 then [] else [Work(0)] + Works(n - 1)
  }

  function PassPath(w: World, entry: nat): seq<Action>
    requires entry < |w.stream|
  {
    var b := w.stream[entry];
    [Deliver(0, entry)] + Works(if b.id in w.recorded then 2 else if b.metrics == [] then 8 else 9)
  }

  lemma OneWork(w: World, u: World, n: nat)
    requires IsBusy(w, 0) && Reaches(DoWork(w, 0), u, Works(n))
    ensures Reaches(w, u, Works(n + 1))
  {
    hide DoWork;
    assert Works(n + 1) == [Work(0)] + Works(n);
    assert Works(n + 1)[1..] == Works(n);
  }

  lemma {:induction false} WorksAdd(m: nat, n: nat)
    ensures Works(m + n) == Works(m) + Works(n)
    decreases m
  {
    if m > 0 { WorksAdd(m - 1, n); }
  }

  lemma Stay(w: World)
    ensures Reaches(w, w, Works(0))
  {
  }

  function CountedRows(t: Tables, b: Batch): Tables {
    if b.metrics == [] then t
    else IncrementMetricsCount(InsertMetrics(t, b.run, b.metrics), b.run, |b.metrics|)
  }

  function Labelled(t: Tables, b: Batch): Tables {
    var t1 := if b.tags == [] then t else SetTags(t, b.run, b.tags);
    if b.params == [] then t1 else InsertParams(t1, b.run, b.params)
  }

  function Logged(t: Tables, b: Batch): Tables {
    if AllEvents(b) == [] then t else InsertEvents(t, b.run, AllEvents(b))
  }

  lemma MetricsPart(w: World, entry: nat)
    requires w.workers == [Busy(entry, Metrics)] && entry < |w.stream|
    ensures var b := w.stream[entry];
            Reaches(w, w.(tables := CountedRows(w.tables, b), points := w.points + PointsOf(b), workers := [Busy(entry, Tags)]),
                    Works(if b.metrics == [] then 2 else 3))
  {
    hide InsertMetrics, IncrementMetricsCount, Reaches, Works;
    var b := w.stream[entry];
    var w1 := DoWork(w, 0);
    var w2 := DoWork(w1, 0);
    if b.metrics == [] {
      assert w.points + PointsOf(b) == w.points;
      assert w2.workers == [Busy(entry, Tags)];
      Stay(w2);
      OneWork(w1, w2, 0);
      OneWork(w, w2, 1);
    } else {
      var w3 := DoWork(w2, 0);
      assert w3.workers == [Busy(entry, Tags)];
      Stay(w3);
      OneWork(w2, w3, 0);
      OneWork(w1, w3, 1);
      OneWork(w, w3, 2);
    }
  }

  lemma LabelsPart(w: World, entry: nat)
    requires w.workers == [Busy(entry, Tags)] && entry < |w.stream|
    ensures Reaches(w, w.(tables := Labelled(w.tables, w.stream[entry]), workers := [Busy(entry, Events)]), Works(2))
  {
    hide SetTags, InsertParams, Reaches, Works;
    var w1 := DoWork(w, 0);
    var w2 := DoWork(w1, 0);
    assert w2.workers == [Busy(entry, Events)];
    Stay(w2);
    OneWork(w1, w2, 0);
    OneWork(w, w2, 1);
  }

  lemma ClosingPart(w: World, entry: nat)
    requires w.workers == [Busy(entry, Events)] && entry < |w.stream| && w.stream[entry].id !in w.recorded
    ensures var b := w.stream[entry];
            Reaches(w, w.(tables := Logged(w.tables, b), recorded := w.recorded[b.id := b],
                          acked := w.acked + {entry}, workers := [Idle]), Works(3))
  {
    hide InsertEvents, Reaches, Works, AllEvents;
    var w1 := DoWork(w, 0);
    var w2 := DoWork(w1, 0);
    var w3 := DoWork(w2, 0);
    assert w3.workers == [Idle];
    Stay(w3);
    OneWork(w2, w3, 0);
    OneWork(w1, w3, 1);
    OneWork(w, w3, 2);
  }

  /** Events and warnings in one insert or in two: the same tables. */
  lemma EventsThenWarnings(t: Tables, b: Batch)
    ensures InsertEvents(t, b.run, AllEvents(b))
         == InsertEvents(InsertEvents(t, b.run, b.events), b.run, WarningEvents(b.warnings))
  {
    InsertEventsTwice(t, b.run, b.events, WarningEvents(b.warnings));
  }

  lemma NoWarnings(b: Batch)
    ensures WarningEvents(b.warnings) == [] <==> b.warnings == []
    ensures AllEvents(b) == [] <==> b.events == [] && b.warnings == []
  {
    assert |WarningEvents(b.warnings)| == |b.warnings|;
  }

  /** The processor's writes of one batch are those of direct persistence. */
  lemma PassPersists(t: Tables, b: Batch)
    ensures Logged(Labelled(CountedRows(t, b), b), b) == Persisted(t, b)
  {
    hide SetTags, InsertParams, InsertMetrics, IncrementMetricsCount, WarningEvents;
    NoWarnings(b);
    EventsThenWarnings(Labelled(CountedRows(t, b), b), b);
    hide AllEvents;
  }

  lemma FirstPass(w: World, entry: nat)
    requires w.workers == [Idle] && entry < |w.stream| && w.stream[entry].id !in w.recorded
    ensures Reaches(w, Handled(w, entry), PassPath(w, entry))
  {
    hide Labelled, CountedRows, Logged, Persisted, PointsOf, Reaches, Works;
    var b := w.stream[entry];
    var n := if b.metrics == [] then 2 else 3;
    var u := Handled(w, entry);
    var w0 := Do(w, Deliver(0, entry));
    var w1 := DoWork(w0, 0);
    assert w1 == w.(workers := [Busy(entry, Metrics)]);
    hide DoWork;
    var w2 := w1.(tables := CountedRows(w.tables, b), points := w.points + PointsOf(b), workers := [Busy(entry, Tags)]);
    var w3 := w2.(tables := Labelled(w2.tables, b), workers := [Busy(entry, Events)]);
    PassPersists(w.tables, b);
    MetricsPart(w1, entry);
    LabelsPart(w2, entry);
    ClosingPart(w3, entry);
    WorksAdd(2, 3);
    ReachesOn(w2, w3, u, Works(2), Works(3));
    WorksAdd(n, 5);
    ReachesOn(w1, w2, u, Works(n), Works(5));
    OneWork(w0, u, n + 5);
    FirstDeliver(w, u, entry, n + 6);
  }

  /** A first pass appends to the point table one point for each row, in order, under its project and run, and
      leaves the tables as `Store.PersistedEffect` and `Store.PersistedWarnings` say. */
  lemma FirstPassAppends(w: World, entry: nat)
    requires entry < |w.stream| && w.stream[entry].id !in w.recorded
    ensures var b, u := w.stream[entry], Handled(w, entry);
            && u.tables == Persisted(w.tables, b) && entry in u.acked && u.recorded == w.recorded[b.id := b]
            && |u.points| == |w.points| + |b.metrics| && u.points[..|w.points|] == w.points
            && forall i :: 0 <= i < |b.metrics| ==> u.points[|w.points| + i] == (b.project, b.run, b.metrics[i])
  {
    hide Persisted;
    var b := w.stream[entry];
    assert (w.points + PointsOf(b))[|w.points|..] == PointsOf(b);
  }

  lemma FirstDeliver(w: World, u: World, entry: nat, n: nat)
    requires Enabled(w, Deliver(0, entry)) && Reaches(Do(w, Deliver(0, entry)), u, Works(n))
    ensures Reaches(w, u, [Deliver(0, entry)] + Works(n))
  {
    hide Do, Works;
    assert ([Deliver(0, entry)] + Works(n))[1..] == Works(n);
  }

  lemma RepeatPass(w: World, entry: nat)
    requires w.workers == [Idle] && entry < |w.stream| && w.stream[entry].id in w.recorded
    ensures Reaches(w, Handled(w, entry), PassPath(w, entry))
  {
    hide Reaches, Works;
    var w0 := Do(w, Deliver(0, entry));
    var w1 := DoWork(w0, 0);
    Stay(Handled(w, entry));
    assert DoWork(w1, 0) == Handled(w, entry);
    OneWork(w1, Handled(w, entry), 0);
    OneWork(w0, Handled(w, entry), 1);
    FirstDeliver(w, Handled(w, entry), entry, 2);
  }

  lemma {:induction false} ReachesSame(w: World, u: World, v: World, actions: seq<Action>)
    requires Reaches(w, u, actions) && Reaches(w, v, actions)
    ensures u == v
    decreases |actions|
  {
    hide Do, Enabled;
    if actions != [] { ReachesSame(Do(w, actions[0]), u, v, actions[1..]); }
  }

  /** A history that ends in a faultless pass ends where that pass leads. */
  lemma PassTrace(w: World, u: World, before: seq<Action>, trace: seq<Action>, entry: nat)
    requires w.workers == [Idle] && entry < |w.stream|
    requires Reaches(Start(1), w, before) && Reaches(Start(1), u, trace)
    requires trace == before + PassPath(w, entry)
    ensures u == Handled(w, entry)
  {
    hide Reaches, Handled, PassPath;
    if w.stream[entry].id in w.recorded { RepeatPass(w, entry); } else { FirstPass(w, entry); }
    ReachesOn(Start(1), w, Handled(w, entry), before, PassPath(w, entry));
    ReachesSame(Start(1), u, Handled(w, entry), trace);
  }

  lemma PassShape(before: seq<Action>, trace: seq<Action>, entry: nat, n: nat)
    requires trace == before + [Deliver(0, entry), Work(0)] + Works(n) + Works(3) + [Work(0)] + [Work(0)]
    ensures trace == before + ([Deliver(0, entry)] + Works(n + 6))
  {
    var start, one := [Deliver(0, entry)], [Work(0)];
    assert start + one == [Deliver(0, entry), Work(0)];
    assert Works(2) == one + one;
    assert Works(1) == one;
    WorksAdd(3, 2);
    WorksAdd(n, 5);
    WorksAdd(1, n + 5);
    hide Works;
    var head := before + [Deliver(0, entry), Work(0)];
    Associates(head + Works(n) + Works(3), one, one);
    Associates(head + Works(n), Works(3), Works(2));
    Associates(head, Works(n), Works(5));
    Associates(before, start + one, Works(n + 5));
    Associates(start, one, Works(n + 5));
  }

  lemma RepeatShape(before: seq<Action>, trace: seq<Action>, entry: nat)
    requires trace == before + [Deliver(0, entry), Work(0)] + [Work(0)]
    ensures trace == before + ([Deliver(0, entry)] + Works(2))
  {
    assert Works(2) == [Work(0)] + [Work(0)];
    assert [Deliver(0, entry), Work(0)] + [Work(0)] == [Deliver(0, entry)] + Works(2);
    Associates(before, [Deliver(0, entry), Work(0)], [Work(0)]);
  }

  // ------------------------------------------------------------------ draining

  function Entries(deliveries: seq<(nat, Faults)>): (entries: seq<nat>)
    ensures |entries| == |deliveries|
    ensures forall i :: 0 <= i < |deliveries| ==> entries[i] == deliveries[i].0
  {
    seq(|deliveries|, i requires 0 <= i < |deliveries| => deliveries[i].0)
  }

  /** The passes over `entries`, in order, when nothing fails. */
  function Drained(w: World, entries: seq<nat>): (u: World)
    ensures u.stream == w.stream && u.workers == w.workers
    decreases |entries|
  {
    if entries == [] then w
    else
      var u := Drained(w, entries[..|entries| - 1]);
      var entry := entries[|entries| - 1];
      if entry < |u.stream| then Handled(u, entry) else u
  }

  lemma DrainedOneMore(w: World, deliveries: seq<(nat, Faults)>, k: nat)
    requires k < |deliveries| && deliveries[k].0 < |w.stream|
    ensures Drained(w, Entries(deliveries[..k + 1]))
         == Handled(Drained(w, Entries(deliveries[..k])), deliveries[k].0)
  {
    hide Handled;
    assert Entries(deliveries[..k + 1])[..k] == Entries(deliveries[..k]);
  }

  /** How many entries have been delivered at least once when first deliveries come in stream order. */
  function Frontier(entries: seq<nat>): nat {
    if entries == [] then 0
    else
      var k := Frontier(entries[..|entries| - 1]);
      if entries[|entries| - 1] == k then k + 1 else k
  }

  /** Every delivery is the next entry of the stream or the repeat of an earlier one. */
  predicate InOrder(entries: seq<nat>) {
    forall i :: 0 <= i < |entries| ==> entries[i] <= Frontier(entries[..i])
  }

  function Ids(batches: seq<Batch>): set<string> {
    set i | 0 <= i < |batches| :: batches[i].id
  }

  /** The batches whose id no earlier batch carries. */
  function FirstPerId(batches: seq<Batch>): seq<Batch> {
    if batches == [] then []
    else
      var init, last := batches[..|batches| - 1], batches[|batches| - 1];
      if last.id in Ids(init) then FirstPerId(init) else FirstPerId(init) + [last]
  }

  lemma {:induction false} UniqueAllFirst(batches: seq<Batch>)
    requires Unique(batches)
    ensures FirstPerId(batches) == batches
    decreases |batches|
  {
    if batches != [] {
      var init := batches[..|batches| - 1];
      UniqueAllFirst(init);
      assert batches == init + [batches[|batches| - 1]];
    }
  }

  lemma PersistedOneMore(t: Tables, batches: seq<Batch>, b: Batch)
    ensures PersistedAll(t, batches + [b]) == Persisted(PersistedAll(t, batches), b)
  {
    assert (batches + [b])[..|batches|] == batches;
  }

  lemma IdsOneMore(batches: seq<Batch>, k: nat)
    requires k < |batches|
    ensures Ids(batches[..k + 1]) == Ids(batches[..k]) + {batches[k].id}
  {
    var s := batches[..k + 1];
    assert s[k] == batches[k];
    assert forall i :: 0 <= i < k ==> s[i] == batches[..k][i];
    forall id | id in Ids(s) ensures id in Ids(batches[..k]) + {batches[k].id} {
      var i :| 0 <= i < |s| && s[i].id == id;
      assert i < k ==> batches[..k][i].id == id;
    }
    forall id | id in Ids(batches[..k]) ensures id in Ids(s) {
      var i :| 0 <= i < k && batches[..k][i].id == id;
      assert s[i].id == id;
    }
  }

  /** `u` is what direct persistence of the first batch of each id leaves of the first `k` entries,
      exactly which are acked and whose ids are exactly those recorded. */
  ghost predicate DrainedTo(w: World, u: World, k: nat)
    requires k <= |w.stream|
  {
    && u.stream == w.stream
    && u.tables == PersistedAll(w.tables, FirstPerId(w.stream[..k]))
    && u.recorded.Keys == Ids(w.stream[..k])
    && (forall entry: nat :: entry in u.acked <==> entry < k)
  }

  lemma NextEntry(w: World, u: World, k: nat)
    requires k < |w.stream| && DrainedTo(w, u, k)
    ensures DrainedTo(w, Handled(u, k), k + 1)
  {
    hide Persisted, PointsOf, Ids, PersistedAll;
    var done, b := w.stream[..k], w.stream[k];
    IdsOneMore(w.stream, k);
    assert w.stream[..k + 1][..k] == done;
    PersistedOneMore(w.tables, FirstPerId(done), b);
  }

  lemma RepeatedEntry(w: World, u: World, k: nat, entry: nat)
    requires entry < k <= |w.stream| && DrainedTo(w, u, k)
    ensures DrainedTo(w, Handled(u, entry), k)
  {
    hide Persisted, PointsOf, PersistedAll, FirstPerId;
    assert w.stream[..k][entry].id in Ids(w.stream[..k]);
  }

  /** Draining in order, with any repeats, is direct persistence of the first batch of each id. */
  lemma {:induction false} DrainIsDirect(w: World, entries: seq<nat>)
    requires w.recorded == map[] && w.acked == {}
    requires InOrder(entries) && Frontier(entries) <= |w.stream|
    ensures DrainedTo(w, Drained(w, entries), Frontier(entries))
    decreases |entries|
  {
    hide Handled;
    if entries != [] {
      var init, entry := entries[..|entries| - 1], entries[|entries| - 1];
      assert forall i :: 0 <= i < |init| ==> init[..i] == entries[..i];
      DrainIsDirect(w, init);
      hide DrainedTo, InOrder;
      if entry == Frontier(init) {
        NextEntry(w, Drained(w, init), entry);
      } else {
        RepeatedEntry(w, Drained(w, init), Frontier(init), entry);
      }
    }
  }

  /** With unique ids every batch counts: the drained tables are those of direct persistence. */
  lemma UniqueDrainIsDirect(w: World, entries: seq<nat>)
    requires w.recorded == map[] && w.acked == {} && Unique(w.stream)
    requires InOrder(entries) && Frontier(entries) == |w.stream|
    ensures Drained(w, entries).tables == PersistedAll(w.tables, w.stream)
  {
    DrainIsDirect(w, entries);
    assert w.stream[..|w.stream|] == w.stream;
    UniqueAllFirst(w.stream);
  }

  // ------------------------------------------------------------------ what the protocol does not promise

  /** Writes are repeated when a pass dies after them: for every batch with metrics there is a run after
      which the entry is acked, its rows stand twice and are counted once. */
  lemma CrashRepeatsRows(b: Batch) returns (w: World, actions: seq<Action>)
    requires b.metrics != []
    ensures Reaches(Start(1), w, actions) && w.stream == [b] && w.acked == {0}
    ensures TableOf(w.tables, b.run).metrics == b.metrics + b.metrics
    ensures TableOf(w.tables, b.run).metricsCount == |b.metrics|
  {
    hide Persisted, PointsOf, AllEvents;
    var w0 := Start(1);
    var w1 := Do(w0, Enqueue(b));
    var w2 := Do(w1, Deliver(0, 0));
    var w3 := Do(w2, Work(0));
    var w4 := Do(w3, Work(0));
    var w5 := Do(w4, Crash(0));
    assert w5.workers == [Idle];
    assert w5.tables == InsertMetrics(map[], b.run, b.metrics);
    w := Handled(w5, 0);
    assert [] + b.metrics == b.metrics;
    PersistedEffect(w5.tables, b, b.run);
    hide Do, Enabled, Handled, TableOf, Upsert;
    actions := [Enqueue(b), Deliver(0, 0), Work(0), Work(0), Crash(0)];
    ThroughFive(w0, w1, w2, w3, w4, w5, actions);
    FirstPass(w5, 0);
    ReachesOn(w0, w5, w, actions, PassPath(w5, 0));
    actions := actions + PassPath(w5, 0);
  }

  lemma ThroughFive(w0: World, w1: World, w2: World, w3: World, w4: World, w5: World, a: seq<Action>)
    requires |a| == 5
    requires Enabled(w0, a[0]) && w1 == Do(w0, a[0]) && Enabled(w1, a[1]) && w2 == Do(w1, a[1])
    requires Enabled(w2, a[2]) && w3 == Do(w2, a[2]) && Enabled(w3, a[3]) && w4 == Do(w3, a[3])
    requires Enabled(w4, a[4]) && w5 == Do(w4, a[4])
    ensures Reaches(w0, w5, a)
  {
    hide Do, Enabled;
    assert Reaches(w5, w5, []);
    assert Reaches(w4, w5, a[4..]);
    assert Reaches(w3, w5, a[3..]) by { assert a[3..][1..] == a[4..]; }
    assert Reaches(w2, w5, a[2..]) by { assert a[2..][1..] == a[3..]; }
    assert Reaches(w1, w5, a[1..]) by { assert a[1..][1..] == a[2..]; }
  }

  /** The duplicate check asks about the batch id alone: the second of two batches that share an id is
      acked and never written, even for another run. */
  lemma SharedIdIsDropped(b: Batch, c: Batch) returns (w: World, actions: seq<Action>)
    requires b.id == c.id && b.run != c.run
    ensures Reaches(Start(1), w, actions) && w.stream == [b, c] && w.acked == {0, 1}
    ensures c.run !in w.tables
  {
    hide Reaches;
    var w1, w2 := Do(Start(1), Enqueue(b)), Do(Do(Start(1), Enqueue(b)), Enqueue(c));
    assert w2 == World([b, c], map[], [], map[], {}, [Idle]);
    TwoEnqueued(b, c);
    FirstPass(w2, 0);
    var w3 := Handled(w2, 0);
    PersistedRuns(map[], b);
    RepeatPass(w3, 1);
    w := Handled(w3, 1);
    hide Handled, PassPath, Do;
    actions := [Enqueue(b), Enqueue(c)] + PassPath(w2, 0);
    ReachesOn(Start(1), w2, w3, [Enqueue(b), Enqueue(c)], PassPath(w2, 0));
    ReachesOn(Start(1), w3, w, actions, PassPath(w3, 1));
    actions := actions + PassPath(w3, 1);
  }

  lemma TwoEnqueued(b: Batch, c: Batch)
    ensures Reaches(Start(1), Do(Do(Start(1), Enqueue(b)), Enqueue(c)), [Enqueue(b), Enqueue(c)])
  {
    hide Do;
    var w2 := Do(Do(Start(1), Enqueue(b)), Enqueue(c));
    assert Reaches(w2, w2, []);
    assert Reaches(Do(Start(1), Enqueue(b)), w2, [Enqueue(c)]) by { assert [Enqueue(c)][1..] == []; }
    assert [Enqueue(b), Enqueue(c)][1..] == [Enqueue(c)];
  }

  lemma PersistedRuns(t: Tables, b: Batch)
    ensures Persisted(t, b).Keys <= t.Keys + {b.run}
  {
    hide Upsert, WarningEvents;
  }

  /** One processor at work on the stream and the stores. */
  class StreamProcessor {
    var stream: seq<Batch>
    const store: SqliteStore
    var points: seq<Point>
    var acked: set<nat>
    ghost var worker: Worker
    ghost var trace: seq<Action>

    ghost function Now(): World
      reads this, store
    {
      World(stream, store.tables, points, store.recorded, acked, [worker])
    }

    /** The state is one the protocol reaches. */
    ghost predicate Valid()
      reads this, store
    {
      Reaches(Start(1), Now(), trace)
    }

    constructor ()
      ensures Valid() && Now() == Start(1) && fresh(store)
    {
      store := new SqliteStore();
      stream, points, acked := [], [], {};
      worker, trace := Idle, [];
    }

    /** `XADD` by the API. */
    method Enqueue(b: Batch)
      requires Valid()
      modifies this`stream, this`trace
      ensures Valid() && stream == old(stream) + [b]
    {
      ReachesThen(Start(1), Now(), trace, Action.Enqueue(b));
      stream, trace := stream + [b], trace + [Action.Enqueue(b)];
    }

    // -------------------------------------------------------------- the stages of one pass

    method MetricsStage(entry: nat, faults: Faults) returns (ok: bool)
      requires Valid() && entry < |stream| && worker == Busy(entry, Metrics)
      modifies store`tables, this`worker, this`trace
      ensures Valid() && trace == old(trace) + [StepOf(FaultOf(stream[entry], faults, Metrics))]
      ensures ok == FaultOf(stream[entry], faults, Metrics).None?
      ensures worker == if ok then Busy(entry, if stream[entry].metrics == [] then ClickHouse else Count) else Idle
    {
      hide Reaches, InsertMetrics, IncrementMetricsCount, SetTags, InsertParams, InsertEvents, PointsOf, AllEvents, Take;
      var b, fault := stream[entry], FaultAt(faults, Metrics);
      ok := true;
      ghost var was := Now();
      if b.metrics != [] {
        ok := store.WriteMetrics(b.run, b.metrics, fault);
      }
      worker := if !ok then Idle else Busy(entry, if b.metrics == [] then ClickHouse else Count);
      ghost var step := StepOf(FaultOf(b, faults, Metrics));
      assert Now() == Do(was, step);
      ReachesThen(Start(1), was, trace, step);
      trace := trace + [step];
    }

    method CountStage(entry: nat, faults: Faults) returns (ok: bool)
      requires Valid() && entry < |stream| && worker == Busy(entry, Count)
      modifies store`tables, this`worker, this`trace
      ensures Valid() && trace == old(trace) + [StepOf(FaultOf(stream[entry], faults, Count))]
      ensures ok == FaultOf(stream[entry], faults, Count).None?
      ensures worker == if ok then Busy(entry, ClickHouse) else Idle
    {
      hide Reaches, InsertMetrics, IncrementMetricsCount, SetTags, InsertParams, InsertEvents, PointsOf, AllEvents, Take;
      var b, fault := stream[entry], FaultAt(faults, Count);
      ghost var was := Now();
      ok := store.AddToCount(b.run, |b.metrics|, fault);
      worker := if ok then Busy(entry, ClickHouse) else Idle;
      ghost var step := StepOf(FaultOf(b, faults, Count));
      assert Now() == Do(was, step);
      ReachesThen(Start(1), was, trace, step);
      trace := trace + [step];
    }

    method ClickHouseStage(entry: nat, faults: Faults) returns (ok: bool)
      requires Valid() && entry < |stream| && worker == Busy(entry, ClickHouse)
      modifies this`points, this`worker, this`trace
      ensures Valid() && trace == old(trace) + [StepOf(FaultOf(stream[entry], faults, ClickHouse))]
      ensures ok == FaultOf(stream[entry], faults, ClickHouse).None?
      ensures worker == if ok then Busy(entry, Tags) else Idle
    {
      hide Reaches, InsertMetrics, IncrementMetricsCount, SetTags, InsertParams, InsertEvents, PointsOf, AllEvents, Take;
      var b, fault := stream[entry], FaultAt(faults, ClickHouse);
      ok := true;
      ghost var was := Now();
      if b.metrics != [] {
        points := points + RowsDone(PointsOf(b), fault);
        ok := fault.None?;
      }
      worker := if ok then Busy(entry, Tags) else Idle;
      ghost var step := StepOf(FaultOf(b, faults, ClickHouse));
      assert Now() == Do(was, step);
      ReachesThen(Start(1), was, trace, step);
      trace := trace + [step];
    }

    method TagsStage(entry: nat, faults: Faults) returns (ok: bool)
      requires Valid() && entry < |stream| && worker == Busy(entry, Tags)
      modifies store`tables, this`worker, this`trace
      ensures Valid() && trace == old(trace) + [StepOf(FaultOf(stream[entry], faults, Tags))]
      ensures ok == FaultOf(stream[entry], faults, Tags).None?
      ensures worker == if ok then Busy(entry, Params) else Idle
    {
      hide Reaches, InsertMetrics, IncrementMetricsCount, SetTags, InsertParams, InsertEvents, PointsOf, AllEvents, Take;
      var b, fault := stream[entry], FaultAt(faults, Tags);
      ok := true;
      ghost var was := Now();
      if b.tags != [] {
        ok := store.WriteTags(b.run, b.tags, fault);
      }
      worker := if ok then Busy(entry, Params) else Idle;
      ghost var step := StepOf(FaultOf(b, faults, Tags));
      assert Now() == Do(was, step);
      ReachesThen(Start(1), was, trace, step);
      trace := trace + [step];
    }

    method ParamsStage(entry: nat, faults: Faults) returns (ok: bool)
      requires Valid() && entry < |stream| && worker == Busy(entry, Params)
      modifies store`tables, this`worker, this`trace
      ensures Valid() && trace == old(trace) + [StepOf(FaultOf(stream[entry], faults, Params))]
      ensures ok == FaultOf(stream[entry], faults, Params).None?
      ensures worker == if ok then Busy(entry, Events) else Idle
    {
      hide Reaches, InsertMetrics, IncrementMetricsCount, SetTags, InsertParams, InsertEvents, PointsOf, AllEvents, Take;
      var b, fault := stream[entry], FaultAt(faults, Params);
      ok := true;
      ghost var was := Now();
      if b.params != [] {
        ok := store.WriteParams(b.run, b.params, fault);
      }
      worker := if ok then Busy(entry, Events) else Idle;
      ghost var step := StepOf(FaultOf(b, faults, Params));
      assert Now() == Do(was, step);
      ReachesThen(Start(1), was, trace, step);
      trace := trace + [step];
    }

    method EventsStage(entry: nat, faults: Faults) returns (ok: bool)
      requires Valid() && entry < |stream| && worker == Busy(entry, Events)
      modifies store`tables, this`worker, this`trace
      ensures Valid() && trace == old(trace) + [StepOf(FaultOf(stream[entry], faults, Events))]
      ensures ok == FaultOf(stream[entry], faults, Events).None?
      ensures worker == if ok then Busy(entry, Recording) else Idle
    {
      hide Reaches, InsertMetrics, IncrementMetricsCount, SetTags, InsertParams, InsertEvents, PointsOf, WarningEvents, Take;
      var b, fault := stream[entry], FaultAt(faults, Events);
      ok := true;
      ghost var was := Now();
      var events := b.events + WarningEvents(b.warnings);
      if events != [] {
        ok := store.WriteEvents(b.run, events, fault);
      }
      worker := if ok then Busy(entry, Recording) else Idle;
      ghost var step := StepOf(FaultOf(b, faults, Events));
      assert Now() == Do(was, step);
      ReachesThen(Start(1), was, trace, step);
      trace := trace + [step];
    }

    /** `record_batch`, whose id is a primary key. */
    method RecordStage(entry: nat, faults: Faults) returns (ok: bool)
      requires Valid() && entry < |stream| && worker == Busy(entry, Recording)
      modifies store`recorded, this`worker, this`trace
      ensures Valid() && trace == old(trace) + [StepOf(FaultAt(faults, Recording))]
      ensures ok == (FaultAt(faults, Recording).None? && stream[entry].id !in old(store.recorded))
      ensures worker == if ok then Busy(entry, Acking) else Idle
    {
      hide Reaches;
      var b := stream[entry];
      ghost var was := Now();
      ok := FaultAt(faults, Recording).None? && b.id !in store.recorded;
      if ok {
        store.recorded := store.recorded[b.id := b];
      }
      worker := if ok then Busy(entry, Acking) else Idle;
      ghost var step := StepOf(FaultAt(faults, Recording));
      assert Now() == Do(was, step);
      ReachesThen(Start(1), was, trace, step);
      trace := trace + [step];
    }

    /** `XACK`; a lost reply may follow an ack that took effect. */
    method AckStage(entry: nat, faults: Faults) returns (ok: bool)
      requires Valid() && entry < |stream| && worker == Busy(entry, Acking)
      modifies this`acked, this`worker, this`trace
      ensures Valid() && trace == old(trace) + [StepOf(FaultAt(faults, Acking))]
      ensures ok == FaultAt(faults, Acking).None?
      ensures ok ==> entry in acked
      ensures worker == Idle
    {
      hide Reaches;
      var fault := FaultAt(faults, Acking);
      ghost var was := Now();
      ok := fault.None?;
      if ok || fault.value > 0 {
        acked := acked + {entry};
      }
      worker := Idle;
      assert Now() == Do(was, StepOf(fault));
      ReachesThen(Start(1), was, trace, StepOf(fault));
      trace := trace + [StepOf(fault)];
    }

    /** `batch_exists(..).unwrap_or(false)` on a newly delivered entry. */
    method CheckStage(entry: nat, faults: Faults) returns (seen: bool)
      requires Valid() && entry < |stream| && worker == Idle
      modifies this`worker, this`trace
      ensures Valid() && trace == old(trace) + [Deliver(0, entry), StepOf(FaultAt(faults, Checking))]
      ensures seen == (FaultAt(faults, Checking).None? && stream[entry].id in store.recorded)
      ensures worker == Busy(entry, if seen then Acking else Metrics)
    {
      hide Reaches;
      var fault := FaultAt(faults, Checking);
      ghost var was := Now();
      worker := Busy(entry, Checking);
      ghost var mid := Now();
      assert mid == Do(was, Deliver(0, entry));
      ReachesThen(Start(1), was, trace, Deliver(0, entry));
      seen := fault.None? && stream[entry].id in store.recorded;
      worker := Busy(entry, if seen then Acking else Metrics);
      assert Now() == Do(mid, StepOf(fault));
      ReachesThen(Start(1), mid, trace + [Deliver(0, entry)], StepOf(fault));
      trace := trace + [Deliver(0, entry)] + [StepOf(fault)];
    }

    /** The metric rows, their count, and the points. */
    method RowStages(entry: nat, faults: Faults) returns (ok: bool)
      requires Valid() && entry < |stream| && worker == Busy(entry, Metrics)
      modifies store`tables, this`points, this`worker, this`trace
      ensures Valid() && worker == if ok then Busy(entry, Tags) else Idle
      ensures faults == map[] ==> ok && trace == old(trace) + Works(if stream[entry].metrics == [] then 2 else 3)
    {
      hide Reaches, AllEvents;
      ok := MetricsStage(entry, faults);
      if !ok { return; }
      if stream[entry].metrics != [] {
        ok := CountStage(entry, faults);
        if !ok { return; }
      }
      ok := ClickHouseStage(entry, faults);
      assert Works(2) == [Work(0)] + [Work(0)];
      assert Works(3) == [Work(0)] + [Work(0)] + [Work(0)];
    }

    /** Tags, params and events. */
    method LabelStages(entry: nat, faults: Faults) returns (ok: bool)
      requires Valid() && entry < |stream| && worker == Busy(entry, Tags)
      modifies store`tables, this`worker, this`trace
      ensures Valid() && worker == if ok then Busy(entry, Recording) else Idle
      ensures faults == map[] ==> ok && trace == old(trace) + Works(3)
    {
      hide Reaches, AllEvents;
      ok := TagsStage(entry, faults);
      if !ok { return; }
      ok := ParamsStage(entry, faults);
      if !ok { return; }
      ok := EventsStage(entry, faults);
      assert Works(3) == [Work(0)] + [Work(0)] + [Work(0)];
    }

    /** `process_entry`: ordered writes, then record, then ack. Whatever fails, the state stays one the
        protocol reaches; when nothing fails, it writes what direct persistence writes, unless the id
        was recorded before. */
    method ProcessEntry(entry: nat, faults: Faults) returns (ok: bool)
      requires Valid() && entry < |stream| && worker == Idle
      modifies store`tables, this`points, store`recorded, this`acked, this`worker, this`trace
      ensures Valid() && worker == Idle
      ensures ok ==> entry in acked
      ensures faults == map[] ==> ok && Now() == Handled(old(Now()), entry)
    {
      hide Reaches, AllEvents, Handled, Works;
      ghost var w, n := Now(), if stream[entry].metrics == [] then 2 else 3;
      var seen := CheckStage(entry, faults);
      if seen {
        ok := AckStage(entry, faults);
        if faults == map[] {
          RepeatShape(old(trace), trace, entry);
          PassTrace(w, Now(), old(trace), trace, entry);
        }
        return;
      }
      ok := RowStages(entry, faults);
      if !ok { return; }
      ok := LabelStages(entry, faults);
      if !ok { return; }
      ok := RecordStage(entry, faults);
      if !ok { return; }
      ok := AckStage(entry, faults);
      if faults == map[] {
        PassShape(old(trace), trace, entry, n);
        PassTrace(w, Now(), old(trace), trace, entry);
      }
    }

    /** The drain loop over the deliveries the consumer group makes; a failed entry is left for later. */
    method DrainEntries(deliveries: seq<(nat, Faults)>) returns (failed: seq<nat>)
      requires Valid() && worker == Idle
      requires forall i :: 0 <= i < |deliveries| ==> deliveries[i].0 < |stream|
      modifies store`tables, this`points, store`recorded, this`acked, this`worker, this`trace
      ensures Valid() && worker == Idle
      ensures (forall i :: 0 <= i < |deliveries| ==> deliveries[i].1 == map[]) ==>
                failed == [] && Now() == Drained(old(Now()), Entries(deliveries))
    {
      hide Reaches, Handled;
      failed := [];
      var next := 0;
      while next < |deliveries|
        invariant next <= |deliveries| && Valid() && worker == Idle
        invariant (forall i :: 0 <= i < next ==> deliveries[i].1 == map[]) ==>
                    failed == [] && Now() == Drained(old(Now()), Entries(deliveries[..next]))
      {
        var ok := ProcessEntry(deliveries[next].0, deliveries[next].1);
        if !ok {
          failed := failed + [deliveries[next].0];
        }
        DrainedOneMore(old(Now()), deliveries, next);
        next := next + 1;
      }
      assert deliveries[..next] == deliveries;
    }

    /** Whatever was delivered and whatever failed, the stores are safe. */
    lemma AlwaysSafe()
      requires Valid()
      ensures forall entry :: entry in acked ==> entry < |stream| && stream[entry].id in store.recorded
      ensures forall id :: id in store.recorded ==> Recorded(Now(), id)
      ensures forall run, kind, key :: key in LabelsIn(store.tables, run, kind) ==>
                FromStream(stream, run, kind, (key, LabelsIn(store.tables, run, kind)[key]))
      ensures forall run :: RecordedRows(store.recorded, run) <= TableOf(store.tables, run).metricsCount <= |TableOf(store.tables, run).metrics|
    {
      hide Reaches, Recorded, TableOf, RecordedRows, LabelsIn, FromStream;
      CrashSafety(1, Now(), trace);
    }
  }
}
