/** The processor that drains the ingest stream: `process_entry`, as a protocol of atomic store calls
    that may fail, and as the program that performs them. */
module Processor {
  import opened Wrappers
  import opened Select
  import opened Store

  /** What `process_entry` does next. */
  datatype Stage = Checking | Metrics | Count | ClickHouse | Tags | Params | Events | Recording | Acking

  datatype Worker = Idle | Busy(entry: nat, stage: Stage)

  /** A metric point as ClickHouse receives it. */
  type Point = (string, string, MetricRow)

  /** The stream, the stores and every processor working on them. `recorded` maps a batch id to the
      batch that was processed under it. */
  datatype World = World(
    stream: seq<Batch>,
    tables: Tables,
    points: seq<Point>,
    recorded: map<string, Batch>,
    acked: set<nat>,
    workers: seq<Worker>)

  datatype Action =
    | Enqueue(batch: Batch)
    | Deliver(worker: nat, entry: nat)
    | Work(worker: nat)
    | Fault(worker: nat, done: nat)
    | Crash(worker: nat)

  function PointsOf(b: Batch): (points: seq<Point>)
    ensures |points| == |b.metrics|
  {
    seq(|b.metrics|, i requires 0 <= i < |b.metrics| => (b.project, b.run, b.metrics[i]))
  }

  predicate IsBusy(w: World, i: nat) {
    i < |w.workers| && w.workers[i].Busy? && w.workers[i].entry < |w.stream|
  }

  predicate Enabled(w: World, a: Action) {
    match a
    case Enqueue(_) => true
    case Deliver(i, entry) => i < |w.workers| && w.workers[i].Idle? && entry < |w.stream|
    case Work(i) => IsBusy(w, i)
    case Fault(i, _) => IsBusy(w, i)
    case Crash(i) => IsBusy(w, i)
  }

  function Become(w: World, i: nat, worker: Worker): World
    requires i < |w.workers|
  {
    w.(workers := w.workers[i := worker])
  }

  /** The next call of worker `i` succeeds. */
  function DoWork(w: World, i: nat): (u: World)
    requires IsBusy(w, i)
    ensures |u.workers| == |w.workers|
  {
    var entry := w.workers[i].entry;
    var b := w.stream[entry];
    match w.workers[i].stage
    case Checking => Become(w, i, Busy(entry, if b.id in w.recorded then Acking else Metrics))
    case Metrics =>
      if b.metrics == [] then Become(w, i, Busy(entry, ClickHouse))
      else Become(w.(tables := InsertMetrics(w.tables, b.run, b.metrics)), i, Busy(entry, Count))
    case Count =>
      Become(w.(tables := IncrementMetricsCount(w.tables, b.run, |b.metrics|)), i, Busy(entry, ClickHouse))
    case ClickHouse =>
      Become(if b.metrics == [] then w else w.(points := w.points + PointsOf(b)), i, Busy(entry, Tags))
    case Tags =>
      Become(if b.tags == [] then w else w.(tables := SetTags(w.tables, b.run, b.tags)), i, Busy(entry, Params))
    case Params =>
      Become(if b.params == [] then w else w.(tables := InsertParams(w.tables, b.run, b.params)), i, Busy(entry, Events))
    case Events =>
      Become(if AllEvents(b) == [] then w else w.(tables := InsertEvents(w.tables, b.run, AllEvents(b))),
             i, Busy(entry, Recording))
    case Recording =>
      // the id is the primary key: recording it twice is an error
      if b.id in w.recorded then Become(w, i, Idle)
      else Become(w.(recorded := w.recorded[b.id := b]), i, Busy(entry, Acking))
    case Acking => Become(w.(acked := w.acked + {entry}), i, Idle)
  }

  /** The next call of worker `i` fails, possibly after its first `done` rows were written: the inserts
      are row by row, outside a transaction. A failed duplicate check counts as "not seen". */
  function DoFault(w: World, i: nat, done: nat): (u: World)
    requires IsBusy(w, i)
    ensures |u.workers| == |w.workers|
  {
    var entry := w.workers[i].entry;
    var b := w.stream[entry];
    match w.workers[i].stage
    case Checking => Become(w, i, Busy(entry, Metrics))
    case Metrics => Become(w.(tables := InsertMetrics(w.tables, b.run, Take(b.metrics, done))), i, Idle)
    case Count => Become(w, i, Idle)
    case ClickHouse => Become(w.(points := w.points + Take(PointsOf(b), done)), i, Idle)
    case Tags => Become(w.(tables := SetTags(w.tables, b.run, Take(b.tags, done))), i, Idle)
    case Params => Become(w.(tables := InsertParams(w.tables, b.run, Take(b.params, done))), i, Idle)
    case Events => Become(w.(tables := InsertEvents(w.tables, b.run, Take(AllEvents(b), done))), i, Idle)
    case Recording => Become(w, i, Idle)
    case Acking => Become(if done > 0 then w.(acked := w.acked + {entry}) else w, i, Idle)
  }

  /** What a failed call leaves: of the rows, points, pairs or events of its stage the first `done`, in the
      batch's own run; the ack, if it took effect; and nothing at the other stages. */
  lemma FaultLeaves(w: World, i: nat, done: nat)
    requires IsBusy(w, i)
    ensures var b, stage, u := w.stream[w.workers[i].entry], w.workers[i].stage, DoFault(w, i, done);
            var r, q := TableOf(w.tables, b.run), TableOf(u.tables, b.run);
            && q == (match stage
                     case Metrics => RunTables(r.metrics + Take(b.metrics, done), r.metricsCount, r.tags, r.params, r.events)
                     case Tags => RunTables(r.metrics, r.metricsCount, Upsert(r.tags, Take(b.tags, done)), r.params, r.events)
                     case Params => RunTables(r.metrics, r.metricsCount, r.tags, Upsert(r.params, Take(b.params, done)), r.events)
                     case Events => RunTables(r.metrics, r.metricsCount, r.tags, r.params, r.events + Take(AllEvents(b), done))
                     case _ => r)
            && u.points == (if stage == ClickHouse then w.points + Take(PointsOf(b), done) else w.points)
            && u.acked == (if stage == Acking && done > 0 then w.acked + {w.workers[i].entry} else w.acked)
            && u.recorded == w.recorded && u.stream == w.stream
  {
    hide TableOf, InsertMetrics, SetTags, InsertParams, InsertEvents, Upsert, AllEvents, PointsOf, Take;
    var b := w.stream[w.workers[i].entry];
    InsertEffects(w.tables, b.run, Take(b.metrics, done), b.run);
    LabelEffects(w.tables, b.run, Take(b.tags, done), b.run);
    LabelEffects(w.tables, b.run, Take(b.params, done), b.run);
    EventEffects(w.tables, b.run, Take(AllEvents(b), done), b.run);
  }

  function Do(w: World, a: Action): (u: World)
    requires Enabled(w, a)
    ensures |u.workers| == |w.workers|
  {
    match a
    case Enqueue(batch) => w.(stream := w.stream + [batch])
    case Deliver(i, entry) => Become(w, i, Busy(entry, Checking))
    case Work(i) => DoWork(w, i)
    case Fault(i, done) => DoFault(w, i, done)
    case Crash(i) => Become(w, i, Idle)
  }

  /** `w` leads to `u` by some actions. */
  ghost predicate Reaches(w: World, u: World, actions: seq<Action>)
    decreases |actions|
  {
    if actions == [] then w == u
    else Enabled(w, actions[0]) && Reaches(Do(w, actions[0]), u, actions[1..])
  }

  function Start(workers: nat): World {
    World([], map[], [], map[], {}, seq(workers, _ => Idle))
  }

  // ------------------------------------------------------------------ what holds in every reachable world

  function Rank(s: Stage): nat {
    match s
    case Checking => 0
    case Metrics => 1
    case Count => 2
    case ClickHouse => 3
    case Tags => 4
    case Params => 5
    case Events => 6
    case Recording => 7
    case Acking => 8
  }

  /** The writes of `b` that precede rank `n` are in the stores. */
  ghost predicate WrittenTo(w: World, b: Batch, n: nat) {
    var r := TableOf(w.tables, b.run);
    && (n >= 2 ==> Holds(r.metrics, b.metrics))
    && (n >= 3 ==> |b.metrics| <= r.metricsCount)
    && (n >= 4 ==> Holds(w.points, PointsOf(b)))
    && (n >= 5 ==> Keys(b.tags, r.tags))
    && (n >= 6 ==> Keys(b.params, r.params))
    && (n >= 7 ==> Holds(r.events, AllEvents(b)))
  }

  /** Every write of `b` is in the stores. */
  ghost predicate Written(w: World, b: Batch) {
    WrittenTo(w, b, 7)
  }

  /** The metrics a worker on `run` carries while its stage lies between two ranks. */
  function Held(stream: seq<Batch>, worker: Worker, run: string, low: nat, high: nat): nat {
    if worker.Busy? && worker.entry < |stream| && low <= Rank(worker.stage) < high && stream[worker.entry].run == run
    then |stream[worker.entry].metrics| else 0
  }

  function HeldByAll(stream: seq<Batch>, workers: seq<Worker>, run: string, low: nat, high: nat): nat {
    if workers == [] then 0 else Held(stream, workers[0], run, low, high) + HeldByAll(stream, workers[1..], run, low, high)
  }

  /** Rows inserted and not yet counted. */
  function Uncounted(w: World, run: string): nat {
    HeldByAll(w.stream, w.workers, run, 2, 3)
  }

  /** Rows counted by workers that have not recorded their batch yet. */
  function Unrecorded(w: World, run: string): nat {
    HeldByAll(w.stream, w.workers, run, 3, 8)
  }

  function RowsFor(b: Batch, run: string): nat {
    if b.run == run then |b.metrics| else 0
  }

  /** The metrics of the recorded batches of `run`. */
  ghost function RecordedRows(recorded: map<string, Batch>, run: string): nat {
    if recorded == map[] then 0
    else
      var id :| id in recorded;
      RowsFor(recorded[id], run) + RecordedRows(recorded - {id}, run)
  }

  ghost predicate Recorded(w: World, id: string) {
    && id in w.recorded
    && w.recorded[id].id == id
    && w.recorded[id] in w.stream
    && Written(w, w.recorded[id])
  }

  ghost predicate Honest(w: World, worker: Worker) {
    worker.Busy? ==>
      && worker.entry < |w.stream|
      && (worker.stage.Acking? ==> w.stream[worker.entry].id in w.recorded)
      && (!worker.stage.Acking? ==> WrittenTo(w, w.stream[worker.entry], Rank(worker.stage)))
  }

  /** Recorded and about-to-be-recorded metrics are counted; counted and about-to-be-counted ones are rows. */
  ghost predicate CountBounds(w: World, run: string) {
    && RecordedRows(w.recorded, run) + Unrecorded(w, run) <= TableOf(w.tables, run).metricsCount
    && TableOf(w.tables, run).metricsCount + Uncounted(w, run) <= |TableOf(w.tables, run).metrics|
  }

  ghost predicate Safe(w: World) {
    && (forall entry :: entry in w.acked ==> entry < |w.stream| && w.stream[entry].id in w.recorded)
    && (forall id :: id in w.recorded ==> Recorded(w, id))
    && (forall i :: 0 <= i < |w.workers| ==> Honest(w, w.workers[i]))
    && (forall run :: CountBounds(w, run))
  }

  /** The world only gains: no stream entry, row, point, key, record or ack is ever lost. */
  ghost predicate Gains(w: World, u: World) {
    && w.stream <= u.stream
    && Grows(w.tables, u.tables)
    && w.points <= u.points
    && w.recorded.Keys <= u.recorded.Keys
    && w.acked <= u.acked
    && (forall id :: id in w.recorded ==> u.recorded[id] == w.recorded[id])
  }

  lemma WrittenLater(w: World, u: World, b: Batch, n: nat)
    requires WrittenTo(w, b, n) && Gains(w, u)
    ensures WrittenTo(u, b, n)
  {
    var r, q := TableOf(w.tables, b.run), TableOf(u.tables, b.run);
    assert r.metrics <= q.metrics && r.events <= q.events;
    if n >= 2 { HoldsLater(r.metrics, q.metrics, b.metrics); }
    if n >= 4 { HoldsLater(w.points, u.points, PointsOf(b)); }
    if n >= 7 { HoldsLater(r.events, q.events, AllEvents(b)); }
  }

  lemma WorkGains(w: World, i: nat)
    requires IsBusy(w, i)
    ensures Gains(w, DoWork(w, i))
  {
    hide Grows, TableOf, InsertMetrics, IncrementMetricsCount, SetTags, InsertParams, InsertEvents, PointsOf, AllEvents;
    var b := w.stream[w.workers[i].entry];
    GrowsRefl(w.tables);
    match w.workers[i].stage
    case Metrics => MetricsGrow(w.tables, b.run, b.metrics);
    case Count => CountGrows(w.tables, b.run, |b.metrics|);
    case Tags => TagsGrow(w.tables, b.run, b.tags);
    case Params => ParamsGrow(w.tables, b.run, b.params);
    case Events => EventsGrow(w.tables, b.run, AllEvents(b));
    case _ =>
  }

  lemma FaultGains(w: World, i: nat, done: nat)
    requires IsBusy(w, i)
    ensures Gains(w, DoFault(w, i, done))
  {
    hide Grows, TableOf, InsertMetrics, IncrementMetricsCount, SetTags, InsertParams, InsertEvents, PointsOf, AllEvents, Take;
    var b := w.stream[w.workers[i].entry];
    GrowsRefl(w.tables);
    match w.workers[i].stage
    case Metrics => MetricsGrow(w.tables, b.run, Take(b.metrics, done));
    case Tags => TagsGrow(w.tables, b.run, Take(b.tags, done));
    case Params => ParamsGrow(w.tables, b.run, Take(b.params, done));
    case Events => EventsGrow(w.tables, b.run, Take(AllEvents(b), done));
    case _ =>
  }

  /** Whatever happens, nothing is lost. */
  lemma ActionsGain(w: World, a: Action)
    requires Enabled(w, a)
    ensures Gains(w, Do(w, a))
  {
    hide Grows, DoWork, DoFault;
    GrowsRefl(w.tables);
    match a
    case Work(i) => WorkGains(w, i);
    case Fault(i, done) => FaultGains(w, i, done);
    case _ =>
  }

  // ------------------------------------------------------------------ every action keeps the world safe

  lemma {:induction false} HeldUpdate(stream: seq<Batch>, workers: seq<Worker>, i: nat, worker: Worker, run: string, low: nat, high: nat)
    requires i < |workers|
    ensures HeldByAll(stream, workers[i := worker], run, low, high)
         == HeldByAll(stream, workers, run, low, high) - Held(stream, workers[i], run, low, high) + Held(stream, worker, run, low, high)
    decreases i
  {
    hide Held;
    if i == 0 {
      assert workers[i := worker][1..] == workers[1..];
    } else {
      HeldUpdate(stream, workers[1..], i - 1, worker, run, low, high);
      assert workers[i := worker][1..] == workers[1..][i - 1 := worker];
    }
  }

  lemma {:induction false} HeldLonger(stream: seq<Batch>, longer: seq<Batch>, workers: seq<Worker>, run: string, low: nat, high: nat)
    requires stream <= longer
    requires forall i :: 0 <= i < |workers| && workers[i].Busy? ==> workers[i].entry < |stream|
    ensures HeldByAll(longer, workers, run, low, high) == HeldByAll(stream, workers, run, low, high)
    decreases |workers|
  {
    if workers != [] {
      HeldLonger(stream, longer, workers[1..], run, low, high);
      assert workers[0].Busy? ==> workers[0].entry < |stream|;
    }
  }

  lemma {:induction false} NothingHeld(stream: seq<Batch>, workers: seq<Worker>, run: string, low: nat, high: nat)
    requires forall i :: 0 <= i < |workers| ==> workers[i].Idle?
    ensures HeldByAll(stream, workers, run, low, high) == 0
    decreases |workers|
  {
    if workers != [] {
      NothingHeld(stream, workers[1..], run, low, high);
    }
  }

  lemma {:induction false} RecordedWithout(recorded: map<string, Batch>, id: string, run: string)
    requires id in recorded
    ensures RecordedRows(recorded, run) == RowsFor(recorded[id], run) + RecordedRows(recorded - {id}, run)
    decreases |recorded|
  {
    hide RowsFor;
    var other :| other in recorded && RecordedRows(recorded, run) == RowsFor(recorded[other], run) + RecordedRows(recorded - {other}, run);
    if other != id {
      RecordedWithout(recorded - {other}, id, run);
      RecordedWithout(recorded - {id}, other, run);
      assert recorded - {other} - {id} == recorded - {id} - {other};
    }
  }

  lemma RecordedMore(recorded: map<string, Batch>, b: Batch, run: string)
    requires b.id !in recorded
    ensures RecordedRows(recorded[b.id := b], run) == RecordedRows(recorded, run) + RowsFor(b, run)
  {
    hide RecordedRows;
    RecordedWithout(recorded[b.id := b], b.id, run);
    assert recorded[b.id := b] - {b.id} == recorded;
  }

  lemma HonestLater(w: World, u: World, worker: Worker)
    requires Honest(w, worker) && Gains(w, u)
    ensures Honest(u, worker)
  {
    hide WrittenTo, Grows;
    if worker.Busy? {
      assert u.stream[worker.entry] == w.stream[worker.entry];
      if !worker.stage.Acking? { WrittenLater(w, u, w.stream[worker.entry], Rank(worker.stage)); }
    }
  }

  lemma RecordedLater(w: World, u: World, id: string)
    requires Recorded(w, id) && Gains(w, u)
    ensures Recorded(u, id)
  {
    hide WrittenTo, Grows;
    WrittenLater(w, u, w.recorded[id], 7);
    var k :| 0 <= k < |w.stream| && w.stream[k] == w.recorded[id];
    assert u.stream[k] == w.stream[k];
  }

  function CountOf(t: Tables, run: string): int {
    TableOf(t, run).metricsCount
  }

  function RowsOf(t: Tables, run: string): nat {
    |TableOf(t, run).metrics|
  }

  /** What an action of worker `i` leaves between rows, count and records. */
  ghost predicate Balanced(w: World, u: World, i: nat, run: string)
    requires i < |w.workers| && i < |u.workers|
  {
    var before, after := w.workers[i], u.workers[i];
    && RowsOf(u.tables, run) - CountOf(u.tables, run) - Held(u.stream, after, run, 2, 3)
       >= RowsOf(w.tables, run) - CountOf(w.tables, run) - Held(w.stream, before, run, 2, 3)
    && CountOf(u.tables, run) - RecordedRows(u.recorded, run) - Held(u.stream, after, run, 3, 8)
       >= CountOf(w.tables, run) - RecordedRows(w.recorded, run) - Held(w.stream, before, run, 3, 8)
  }

  lemma MetricsCounted(t: Tables, target: string, rows: seq<MetricRow>, n: nat, run: string)
    ensures RowsOf(InsertMetrics(t, target, rows), run) == RowsOf(t, run) + if run == target then |rows| else 0
    ensures CountOf(InsertMetrics(t, target, rows), run) == CountOf(t, run)
    ensures CountOf(IncrementMetricsCount(t, target, n), run) == CountOf(t, run) + if run == target then n else 0
    ensures RowsOf(IncrementMetricsCount(t, target, n), run) == RowsOf(t, run)
  {
  }

  lemma WorkBalance(w: World, i: nat, run: string)
    requires IsBusy(w, i)
    ensures Balanced(w, DoWork(w, i), i, run)
  {
    hide TableOf, InsertMetrics, IncrementMetricsCount, SetTags, InsertParams, InsertEvents, PointsOf, AllEvents, RecordedRows;
    var b := w.stream[w.workers[i].entry];
    match w.workers[i].stage
    case Metrics => MetricsCounted(w.tables, b.run, b.metrics, 0, run);
    case Count => MetricsCounted(w.tables, b.run, [], |b.metrics|, run);
    case Tags => LabelWritesKeepRows(w.tables, b.run, b.tags, [], run);
    case Params => LabelWritesKeepRows(w.tables, b.run, b.params, [], run);
    case Events => LabelWritesKeepRows(w.tables, b.run, [], AllEvents(b), run);
    case Recording => if b.id !in w.recorded { RecordedMore(w.recorded, b, run); }
    case _ =>
  }

  lemma FaultBalance(w: World, i: nat, done: nat, run: string)
    requires IsBusy(w, i)
    ensures Balanced(w, DoFault(w, i, done), i, run)
  {
    hide TableOf, InsertMetrics, IncrementMetricsCount, SetTags, InsertParams, InsertEvents, PointsOf, AllEvents, Take, RecordedRows;
    var b := w.stream[w.workers[i].entry];
    match w.workers[i].stage
    case Metrics => MetricsCounted(w.tables, b.run, Take(b.metrics, done), 0, run);
    case Tags => LabelWritesKeepRows(w.tables, b.run, Take(b.tags, done), [], run);
    case Params => LabelWritesKeepRows(w.tables, b.run, Take(b.params, done), [], run);
    case Events => LabelWritesKeepRows(w.tables, b.run, [], Take(AllEvents(b), done), run);
    case _ =>
  }

  /** The row writes of each stage are in the stores once the stage is done. */
  lemma StageWrites(w: World, i: nat)
    requires IsBusy(w, i)
    ensures var b, u := w.stream[w.workers[i].entry], DoWork(w, i);
            match w.workers[i].stage
            case Metrics => Holds(TableOf(u.tables, b.run).metrics, b.metrics)
            case Count => |b.metrics| <= TableOf(u.tables, b.run).metricsCount
            case ClickHouse => Holds(u.points, PointsOf(b))
            case Tags => Keys(b.tags, TableOf(u.tables, b.run).tags)
            case Params => Keys(b.params, TableOf(u.tables, b.run).params)
            case Events => Holds(TableOf(u.tables, b.run).events, AllEvents(b))
            case _ => true
  {
    hide Holds, Keys, Upsert, PointsOf, AllEvents;
    var b := w.stream[w.workers[i].entry];
    var r := TableOf(w.tables, b.run);
    match w.workers[i].stage
    case Metrics => HoldsNothing(r.metrics); HoldsAppended(r.metrics, b.metrics);
    case ClickHouse =>
      HoldsNothing(w.points); HoldsAppended(w.points, PointsOf(b));
      assert b.metrics == [] ==> PointsOf(b) == [] by { assert |PointsOf(b)| == |b.metrics|; }
    case Tags => UpsertKeys(r.tags, b.tags); NoKeys(r.tags);
    case Params => UpsertKeys(r.params, b.params); NoKeys(r.params);
    case Events => HoldsNothing(r.events); HoldsAppended(r.events, AllEvents(b));
    case _ =>
  }

  lemma NoKeys(m: map<string, string>)
    ensures Keys([], m)
  {
  }

  lemma WrittenNext(w: World, b: Batch, n: nat)
    requires WrittenTo(w, b, n)
    requires n == 1 ==> Holds(TableOf(w.tables, b.run).metrics, b.metrics)
    requires n == 2 ==> |b.metrics| <= TableOf(w.tables, b.run).metricsCount
    requires n == 3 ==> Holds(w.points, PointsOf(b))
    requires n == 4 ==> Keys(b.tags, TableOf(w.tables, b.run).tags)
    requires n == 5 ==> Keys(b.params, TableOf(w.tables, b.run).params)
    requires n == 6 ==> Holds(TableOf(w.tables, b.run).events, AllEvents(b))
    ensures WrittenTo(w, b, n + 1)
    ensures n == 1 && b.metrics == [] ==> WrittenTo(w, b, 3)
  {
    hide Holds, Keys, TableOf, PointsOf, AllEvents;
  }

  /** A worker's stage never runs ahead of its writes. */
  lemma WorkHonest(w: World, i: nat)
    requires IsBusy(w, i) && Honest(w, w.workers[i])
    ensures Honest(DoWork(w, i), DoWork(w, i).workers[i])
  {
    hide Grows, WrittenTo, Holds, Keys, TableOf, InsertMetrics, IncrementMetricsCount, SetTags, InsertParams, InsertEvents, PointsOf, AllEvents;
    var stage, b := w.workers[i].stage, w.stream[w.workers[i].entry];
    WorkGains(w, i);
    StageWrites(w, i);
    if !stage.Acking? {
      WrittenLater(w, DoWork(w, i), b, Rank(stage));
      WrittenNext(DoWork(w, i), b, Rank(stage));
    }
  }

  lemma FaultHonest(w: World, i: nat, done: nat)
    requires IsBusy(w, i) && Honest(w, w.workers[i])
    ensures Honest(DoFault(w, i, done), DoFault(w, i, done).workers[i])
  {
    hide Grows, Holds, Keys, TableOf, InsertMetrics, SetTags, InsertParams, InsertEvents, PointsOf, AllEvents, Take;
  }

  lemma WorkFrame(w: World, i: nat)
    requires IsBusy(w, i)
    ensures DoWork(w, i) == DoWork(w, i).(stream := w.stream, workers := w.workers[i := DoWork(w, i).workers[i]])
  {
    hide InsertMetrics, IncrementMetricsCount, SetTags, InsertParams, InsertEvents, PointsOf, AllEvents;
  }

  lemma FaultFrame(w: World, i: nat, done: nat)
    requires IsBusy(w, i)
    ensures DoFault(w, i, done) == DoFault(w, i, done).(stream := w.stream, workers := w.workers[i := DoFault(w, i, done).workers[i]])
  {
    hide InsertMetrics, SetTags, InsertParams, InsertEvents, PointsOf, AllEvents, Take;
  }

  /** Only the acting worker changes, and only an API call extends the stream. */
  lemma ActionFrame(w: World, a: Action)
    requires Enabled(w, a) && !a.Enqueue?
    ensures Do(w, a).stream == w.stream
    ensures Do(w, a).workers == w.workers[a.worker := Do(w, a).workers[a.worker]]
  {
    hide DoWork, DoFault;
    match a
    case Work(i) => WorkFrame(w, i);
    case Fault(i, done) => FaultFrame(w, i, done);
    case _ =>
  }

  lemma ActorHonest(w: World, a: Action)
    requires Enabled(w, a) && !a.Enqueue? && Honest(w, w.workers[a.worker])
    ensures Honest(Do(w, a), Do(w, a).workers[a.worker])
  {
    hide DoWork, DoFault;
    match a
    case Work(i) => WorkHonest(w, i);
    case Fault(i, done) => FaultHonest(w, i, done);
    case _ =>
  }

  lemma ActorBalance(w: World, a: Action, run: string)
    requires Enabled(w, a) && !a.Enqueue?
    ensures Balanced(w, Do(w, a), a.worker, run)
  {
    hide DoWork, DoFault, RecordedRows, RowsOf, CountOf;
    match a
    case Work(i) => WorkBalance(w, i, run);
    case Fault(i, done) => FaultBalance(w, i, done, run);
    case _ =>
  }

  lemma CountKept(w: World, a: Action, run: string)
    requires Enabled(w, a) && CountBounds(w, run)
    requires forall i :: 0 <= i < |w.workers| ==> Honest(w, w.workers[i])
    ensures CountBounds(Do(w, a), run)
  {
    hide TableOf, WrittenTo, HeldByAll, Held, RecordedRows, DoWork, DoFault;
    if a.Enqueue? {
      HeldLonger(w.stream, w.stream + [a.batch], w.workers, run, 2, 3);
      HeldLonger(w.stream, w.stream + [a.batch], w.workers, run, 3, 8);
    } else {
      ActionFrame(w, a);
      ActorBalance(w, a, run);
      HeldUpdate(w.stream, w.workers, a.worker, Do(w, a).workers[a.worker], run, 2, 3);
      HeldUpdate(w.stream, w.workers, a.worker, Do(w, a).workers[a.worker], run, 3, 8);
    }
  }

  /** An ack or a record is added only by a worker entitled to it. */
  lemma NewlyEarned(w: World, a: Action)
    requires Enabled(w, a) && (!a.Enqueue? ==> Honest(w, w.workers[a.worker]))
    ensures forall entry :: entry in Do(w, a).acked && entry !in w.acked ==>
              entry < |w.stream| && w.stream[entry].id in w.recorded
    ensures forall id :: id in Do(w, a).recorded && id !in w.recorded ==>
              var b := Do(w, a).recorded[id]; b.id == id && b in w.stream && Written(w, b)
  {
    hide WrittenTo, InsertMetrics, IncrementMetricsCount, SetTags, InsertParams, InsertEvents, PointsOf, AllEvents, Take;
  }

  /** The worker that acts, if any, is honest. */
  ghost predicate ActorIsHonest(w: World, a: Action) {
    !a.Enqueue? && a.worker < |w.workers| ==> Honest(w, w.workers[a.worker])
  }

  lemma RecordsKept(w: World, a: Action, id: string)
    requires Enabled(w, a) && ActorIsHonest(w, a) && id in Do(w, a).recorded
    requires id in w.recorded ==> Recorded(w, id)
    ensures Recorded(Do(w, a), id)
  {
    hide Grows, WrittenTo, Do, Honest;
    ActionsGain(w, a);
    var u := Do(w, a);
    if id in w.recorded {
      RecordedLater(w, u, id);
    } else {
      NewlyEarned(w, a);
      var b := u.recorded[id];
      WrittenLater(w, u, b, 7);
      var k :| 0 <= k < |w.stream| && w.stream[k] == b;
      assert u.stream[k] == b;
    }
  }

  lemma AcksKept(w: World, a: Action, entry: nat)
    requires Enabled(w, a) && ActorIsHonest(w, a) && entry in Do(w, a).acked
    requires entry in w.acked ==> entry < |w.stream| && w.stream[entry].id in w.recorded
    ensures entry < |Do(w, a).stream| && Do(w, a).stream[entry].id in Do(w, a).recorded
  {
    hide Grows, Do, Honest;
    ActionsGain(w, a);
    NewlyEarned(w, a);
    assert entry < |w.stream| && w.stream[entry].id in w.recorded;
    assert Do(w, a).stream[entry] == w.stream[entry];
  }

  lemma WorkersKept(w: World, a: Action, k: nat)
    requires Enabled(w, a) && k < |w.workers| && Honest(w, w.workers[k])
    ensures Honest(Do(w, a), Do(w, a).workers[k])
  {
    hide Grows, Honest, DoWork, DoFault;
    ActionsGain(w, a);
    if a.Enqueue? {
      HonestLater(w, Do(w, a), w.workers[k]);
    } else {
      ActionFrame(w, a);
      if k == a.worker { ActorHonest(w, a); } else { HonestLater(w, Do(w, a), w.workers[k]); }
    }
  }

  /** One action, whatever it is and whether or not it fails, keeps the world safe. */
  lemma ActionKeepsSafe(w: World, a: Action)
    requires Enabled(w, a) && Safe(w)
    ensures Safe(Do(w, a))
  {
    hide Do, Recorded, Honest, CountBounds;
    var u := Do(w, a);
    assert ActorIsHonest(w, a);
    forall entry | entry in u.acked
      ensures entry < |u.stream| && u.stream[entry].id in u.recorded
    {
      AcksKept(w, a, entry);
    }
    forall id | id in u.recorded ensures Recorded(u, id) {
      RecordsKept(w, a, id);
    }
    forall k | 0 <= k < |u.workers| ensures Honest(u, u.workers[k]) {
      WorkersKept(w, a, k);
    }
    forall run ensures CountBounds(u, run) {
      CountKept(w, a, run);
    }
  }

  // ------------------------------------------------------------------ where tag and param values come from

  datatype LabelKind = TagLabel | ParamLabel

  function LabelsIn(t: Tables, run: string, kind: LabelKind): map<string, string> {
    if kind.TagLabel? then TableOf(t, run).tags else TableOf(t, run).params
  }

  function LabelsOf(b: Batch, kind: LabelKind): seq<(string, string)> {
    if kind.TagLabel? then b.tags else b.params
  }

  /** Some streamed batch of the run carries the pair. */
  ghost predicate FromStream(stream: seq<Batch>, run: string, kind: LabelKind, pair: (string, string)) {
    exists k: nat :: k < |stream| && stream[k].run == run && pair in LabelsOf(stream[k], kind)
  }

  ghost predicate Sourced(t: Tables, stream: seq<Batch>) {
    forall run, kind, key :: key in LabelsIn(t, run, kind) ==> FromStream(stream, run, kind, (key, LabelsIn(t, run, kind)[key]))
  }

  lemma SetTagsSourced(t: Tables, stream: seq<Batch>, k: nat, pairs: seq<(string, string)>)
    requires Sourced(t, stream) && k < |stream| && pairs <= stream[k].tags
    ensures Sourced(SetTags(t, stream[k].run, pairs), stream)
  {
    hide Upsert;
    var u, target := SetTags(t, stream[k].run, pairs), stream[k].run;
    forall run, kind, key | key in LabelsIn(u, run, kind)
      ensures FromStream(stream, run, kind, (key, LabelsIn(u, run, kind)[key]))
    {
      if run == target && kind.TagLabel? && pairs != [] {
        UpsertSource(TableOf(t, run).tags, pairs, key);
        var pair := (key, LabelsIn(u, run, kind)[key]);
        assert pair in pairs ==> pair in stream[k].tags;
        assert key in LabelsIn(t, run, kind) ==> FromStream(stream, run, kind, (key, LabelsIn(t, run, kind)[key]));
      } else {
        assert key in LabelsIn(t, run, kind);
      }
    }
  }

  lemma InsertParamsSourced(t: Tables, stream: seq<Batch>, k: nat, pairs: seq<(string, string)>)
    requires Sourced(t, stream) && k < |stream| && pairs <= stream[k].params
    ensures Sourced(InsertParams(t, stream[k].run, pairs), stream)
  {
    hide Upsert;
    var u, target := InsertParams(t, stream[k].run, pairs), stream[k].run;
    forall run, kind, key | key in LabelsIn(u, run, kind)
      ensures FromStream(stream, run, kind, (key, LabelsIn(u, run, kind)[key]))
    {
      if run == target && kind.ParamLabel? && pairs != [] {
        UpsertSource(TableOf(t, run).params, pairs, key);
        var pair := (key, LabelsIn(u, run, kind)[key]);
        assert pair in pairs ==> pair in stream[k].params;
        assert key in LabelsIn(t, run, kind) ==> FromStream(stream, run, kind, (key, LabelsIn(t, run, kind)[key]));
      } else {
        assert key in LabelsIn(t, run, kind);
      }
    }
  }

  lemma OtherWritesSourced(t: Tables, stream: seq<Batch>, target: string, rows: seq<MetricRow>, n: nat, events: seq<RunEvent>)
    requires Sourced(t, stream)
    ensures Sourced(InsertMetrics(t, target, rows), stream)
    ensures Sourced(IncrementMetricsCount(t, target, n), stream)
    ensures Sourced(InsertEvents(t, target, events), stream)
  {
    hide FromStream;
    forall run, kind
      ensures LabelsIn(InsertMetrics(t, target, rows), run, kind) == LabelsIn(t, run, kind)
      ensures LabelsIn(IncrementMetricsCount(t, target, n), run, kind) == LabelsIn(t, run, kind)
      ensures LabelsIn(InsertEvents(t, target, events), run, kind) == LabelsIn(t, run, kind)
    {
    }
    hide InsertMetrics, IncrementMetricsCount, InsertEvents, LabelsIn;
  }

  lemma WorkSourced(w: World, i: nat)
    requires IsBusy(w, i) && Sourced(w.tables, w.stream)
    ensures Sourced(DoWork(w, i).tables, w.stream)
  {
    hide Sourced, InsertMetrics, IncrementMetricsCount, SetTags, InsertParams, InsertEvents, PointsOf, AllEvents;
    var k := w.workers[i].entry;
    var b := w.stream[k];
    match w.workers[i].stage
    case Tags => SetTagsSourced(w.tables, w.stream, k, b.tags);
    case Params => InsertParamsSourced(w.tables, w.stream, k, b.params);
    case _ => OtherWritesSourced(w.tables, w.stream, b.run, b.metrics, |b.metrics|, AllEvents(b));
  }

  lemma FaultSourced(w: World, i: nat, done: nat)
    requires IsBusy(w, i) && Sourced(w.tables, w.stream)
    ensures Sourced(DoFault(w, i, done).tables, w.stream)
  {
    hide Sourced, InsertMetrics, IncrementMetricsCount, SetTags, InsertParams, InsertEvents, PointsOf, AllEvents, Take;
    var k := w.workers[i].entry;
    var b := w.stream[k];
    match w.workers[i].stage
    case Tags => SetTagsSourced(w.tables, w.stream, k, Take(b.tags, done));
    case Params => InsertParamsSourced(w.tables, w.stream, k, Take(b.params, done));
    case _ => OtherWritesSourced(w.tables, w.stream, b.run, Take(b.metrics, done), 0, Take(AllEvents(b), done));
  }

  lemma SourcedLonger(t: Tables, stream: seq<Batch>, b: Batch)
    requires Sourced(t, stream)
    ensures Sourced(t, stream + [b])
  {
    forall run, kind, key | key in LabelsIn(t, run, kind)
      ensures FromStream(stream + [b], run, kind, (key, LabelsIn(t, run, kind)[key]))
    {
      hide LabelsIn, LabelsOf;
      var pair := (key, LabelsIn(t, run, kind)[key]);
      var k: nat :| k < |stream| && stream[k].run == run && pair in LabelsOf(stream[k], kind);
      assert (stream + [b])[k] == stream[k];
    }
  }

  lemma ActionSourced(w: World, a: Action)
    requires Enabled(w, a) && Sourced(w.tables, w.stream)
    ensures Sourced(Do(w, a).tables, Do(w, a).stream)
  {
    hide Sourced, DoWork, DoFault;
    if !a.Enqueue? { ActionFrame(w, a); }
    match a
    case Enqueue(b) => SourcedLonger(w.tables, w.stream, b);
    case Work(i) => WorkSourced(w, i);
    case Fault(i, done) => FaultSourced(w, i, done);
    case _ =>
  }

  lemma {:induction false} RunSourced(w: World, u: World, actions: seq<Action>)
    requires Reaches(w, u, actions) && Sourced(w.tables, w.stream)
    ensures Sourced(u.tables, u.stream)
    decreases |actions|
  {
    hide Sourced, Do, Enabled;
    if actions != [] {
      ActionSourced(w, actions[0]);
      RunSourced(Do(w, actions[0]), u, actions[1..]);
    }
  }

  lemma {:induction false} RunKeepsSafe(w: World, u: World, actions: seq<Action>)
    requires Reaches(w, u, actions) && Safe(w)
    ensures Safe(u) && Gains(w, u)
    decreases |actions|
  {
    hide Safe, Grows, Do;
    GrowsRefl(w.tables);
    if actions != [] {
      ActionKeepsSafe(w, actions[0]);
      ActionsGain(w, actions[0]);
      RunKeepsSafe(Do(w, actions[0]), u, actions[1..]);
      GrowsTransitive(w.tables, Do(w, actions[0]).tables, u.tables);
    }
  }

  lemma StartIsSafe(n: nat)
    ensures Safe(Start(n))
  {
    forall run ensures CountBounds(Start(n), run) {
      NothingHeld([], Start(n).workers, run, 2, 3);
      NothingHeld([], Start(n).workers, run, 3, 8);
    }
  }

  ghost predicate Unique(stream: seq<Batch>) {
    forall i, j :: 0 <= i < j < |stream| ==> stream[i].id != stream[j].id
  }

  /** Crash safety: after any number of failures, crashes and redeliveries, by any number of
      processors, an acked entry's id is recorded, a recorded id stands for a streamed batch whose every
      write is in the stores, the metrics of the recorded batches are counted, the count never exceeds the
      rows, every tag and param value is one that a streamed batch of the run carries under that key, and
      with unique ids an acked entry's own writes are all there. */
  lemma CrashSafety(n: nat, w: World, actions: seq<Action>)
    requires Reaches(Start(n), w, actions)
    ensures forall entry :: entry in w.acked ==> entry < |w.stream| && w.stream[entry].id in w.recorded
    ensures forall id :: id in w.recorded ==> Recorded(w, id)
    ensures forall run :: RecordedRows(w.recorded, run) <= TableOf(w.tables, run).metricsCount <= |TableOf(w.tables, run).metrics|
    ensures forall run, kind, key :: key in LabelsIn(w.tables, run, kind) ==>
              FromStream(w.stream, run, kind, (key, LabelsIn(w.tables, run, kind)[key]))
    ensures Unique(w.stream) ==> forall entry :: entry in w.acked ==> Written(w, w.stream[entry])
  {
    RunSourced(Start(n), w, actions);
    hide HeldByAll, RecordedRows, TableOf, WrittenTo, Honest, LabelsIn, FromStream;
    StartIsSafe(n);
    RunKeepsSafe(Start(n), w, actions);
    forall run
      ensures RecordedRows(w.recorded, run) <= TableOf(w.tables, run).metricsCount <= |TableOf(w.tables, run).metrics|
    {
      assert CountBounds(w, run);
    }
    if Unique(w.stream) {
      forall entry | entry in w.acked ensures Written(w, w.stream[entry]) {
        var id := w.stream[entry].id;
        assert Recorded(w, id);
        var k :| 0 <= k < |w.stream| && w.stream[k] == w.recorded[id];
        assert k == entry;
      }
    }
  }
}
