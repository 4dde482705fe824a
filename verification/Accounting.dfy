/** What failures leave behind: an exact account of the rows, points, events and counts of every run. */
module Accounting {
  import opened Wrappers
  import opened Select
  import opened Store
  import opened Processor

  /** The three tables that only grow by appending. The point table is taken as a whole, the others by run. */
  datatype Ledger = RowLedger | PointLedger | EventLedger

  datatype Item = RowItem(row: MetricRow) | PointItem(point: Point) | EventItem(event: RunEvent)

  type Items = multiset<Item>

  function RowItems(rows: seq<MetricRow>): seq<Item> {
    seq(|rows|, i requires 0 <= i < |rows| => RowItem(rows[i]))
  }

  function PointItems(points: seq<Point>): seq<Item> {
    seq(|points|, i requires 0 <= i < |points| => PointItem(points[i]))
  }

  function EventItems(events: seq<RunEvent>): seq<Item> {
    seq(|events|, i requires 0 <= i < |events| => EventItem(events[i]))
  }

  /** What a pass over the batch appends to the ledger. */
  function ItemsOf(b: Batch, l: Ledger): (items: seq<Item>)
    ensures l.RowLedger? || l.PointLedger? ==> |items| == |b.metrics|
  {
    match l
    case RowLedger => RowItems(b.metrics)
    case PointLedger => PointItems(PointsOf(b))
    case EventLedger => EventItems(AllEvents(b))
  }

  predicate Concerns(b: Batch, run: string, l: Ledger) {
    l.PointLedger? || b.run == run
  }

  function ItemsFor(b: Batch, run: string, l: Ledger): Items {
    if Concerns(b, run, l) then multiset(ItemsOf(b, l)) else multiset{}
  }

  /** The stage that appends to the ledger. */
  function InsertStage(l: Ledger): Stage {
    match l
    case RowLedger => Metrics
    case PointLedger => ClickHouse
    case EventLedger => Events
  }

  /** The worker has appended and not recorded. */
  predicate Carries(stage: Stage, l: Ledger) {
    Rank(InsertStage(l)) < Rank(stage) < 8
  }

  function InFlight(stream: seq<Batch>, worker: Worker, run: string, l: Ledger): Items {
    if worker.Busy? && worker.entry < |stream| && Carries(worker.stage, l) then ItemsFor(stream[worker.entry], run, l) else multiset{}
  }

  function AllInFlight(stream: seq<Batch>, workers: seq<Worker>, run: string, l: Ledger): Items {
    if workers == [] then multiset{} else InFlight(stream, workers[0], run, l) + AllInFlight(stream, workers[1..], run, l)
  }

  /** The items of the recorded batches, each batch once. */
  ghost function ItemsRecorded(recorded: map<string, Batch>, run: string, l: Ledger): Items {
    if recorded == map[] then multiset{}
    else
      var id :| id in recorded;
      ItemsFor(recorded[id], run, l) + ItemsRecorded(recorded - {id}, run, l)
  }

  function Stored(w: World, run: string, l: Ledger): Items {
    match l
    case RowLedger => multiset(RowItems(TableOf(w.tables, run).metrics))
    case PointLedger => multiset(PointItems(w.points))
    case EventLedger => multiset(EventItems(TableOf(w.tables, run).events))
  }

  /** The action ends a pass that has appended to the ledger and has not recorded its batch. */
  predicate Abandons(w: World, a: Action, l: Ledger) {
    match a
    case Work(i) => IsBusy(w, i) && w.workers[i].stage == Recording && w.stream[w.workers[i].entry].id in w.recorded
    case Fault(i, _) => IsBusy(w, i) && Carries(w.workers[i].stage, l)
    case Crash(i) => IsBusy(w, i) && Carries(w.workers[i].stage, l)
    case _ => false
  }

  /** The items that the action leaves behind: all of an abandoned batch, or what a failed insert had written. */
  function Residue(w: World, a: Action, run: string, l: Ledger): Items {
    if Abandons(w, a, l) then ItemsFor(w.stream[w.workers[a.worker].entry], run, l)
    else if a.Fault? && IsBusy(w, a.worker) && w.workers[a.worker].stage == InsertStage(l) then
      var b := w.stream[w.workers[a.worker].entry];
      if Concerns(b, run, l) then multiset(Take(ItemsOf(b, l), a.done)) else multiset{}
    else multiset{}
  }

  ghost function Residues(w: World, actions: seq<Action>, run: string, l: Ledger): Items
    decreases |actions|
  {
    if actions == [] || !Enabled(w, actions[0]) then multiset{}
    else Residue(w, actions[0], run, l) + Residues(Do(w, actions[0]), actions[1..], run, l)
  }

  // ------------------------------------------------------------------ sums

  lemma {:induction false} InFlightUpdate(stream: seq<Batch>, workers: seq<Worker>, i: nat, worker: Worker, run: string, l: Ledger)
    requires i < |workers|
    ensures AllInFlight(stream, workers[i := worker], run, l) + InFlight(stream, workers[i], run, l)
         == AllInFlight(stream, workers, run, l) + InFlight(stream, worker, run, l)
    decreases i
  {
    hide InFlight;
    if i == 0 {
      assert workers[i := worker][1..] == workers[1..];
    } else {
      InFlightUpdate(stream, workers[1..], i - 1, worker, run, l);
      assert workers[i := worker][1..] == workers[1..][i - 1 := worker];
      AddFirst(InFlight(stream, workers[0], run, l), AllInFlight(stream, workers[1..][i - 1 := worker], run, l),
               InFlight(stream, workers[i], run, l), AllInFlight(stream, workers[1..], run, l), InFlight(stream, worker, run, l));
    }
  }

  lemma AddFirst(first: Items, a: Items, x: Items, b: Items, y: Items)
    requires a + x == b + y
    ensures first + a + x == first + b + y
  {
    assert first + a + x == first + (a + x) && first + b + y == first + (b + y);
  }

  lemma {:induction false} InFlightLonger(stream: seq<Batch>, longer: seq<Batch>, workers: seq<Worker>, run: string, l: Ledger)
    requires stream <= longer
    requires forall i :: 0 <= i < |workers| && workers[i].Busy? ==> workers[i].entry < |stream|
    ensures AllInFlight(longer, workers, run, l) == AllInFlight(stream, workers, run, l)
    decreases |workers|
  {
    hide ItemsFor;
    if workers != [] {
      InFlightLonger(stream, longer, workers[1..], run, l);
      assert workers[0].Busy? ==> workers[0].entry < |stream|;
    }
  }

  lemma {:induction false} NothingInFlight(stream: seq<Batch>, workers: seq<Worker>, run: string, l: Ledger)
    requires forall i :: 0 <= i < |workers| ==> workers[i].Idle?
    ensures AllInFlight(stream, workers, run, l) == multiset{}
    decreases |workers|
  {
    if workers != [] { NothingInFlight(stream, workers[1..], run, l); }
  }

  lemma {:induction false} RecordedRemoved(recorded: map<string, Batch>, id: string, run: string, l: Ledger)
    requires id in recorded
    ensures ItemsRecorded(recorded, run, l) == ItemsFor(recorded[id], run, l) + ItemsRecorded(recorded - {id}, run, l)
    decreases |recorded|
  {
    hide ItemsFor;
    var other :| other in recorded
      && ItemsRecorded(recorded, run, l) == ItemsFor(recorded[other], run, l) + ItemsRecorded(recorded - {other}, run, l);
    if other != id {
      RecordedRemoved(recorded - {other}, id, run, l);
      RecordedRemoved(recorded - {id}, other, run, l);
      assert recorded - {other} - {id} == recorded - {id} - {other};
    }
  }

  lemma RecordedAdded(recorded: map<string, Batch>, b: Batch, run: string, l: Ledger)
    requires b.id !in recorded
    ensures ItemsRecorded(recorded[b.id := b], run, l) == ItemsRecorded(recorded, run, l) + ItemsFor(b, run, l)
  {
    hide ItemsRecorded, ItemsFor;
    RecordedRemoved(recorded[b.id := b], b.id, run, l);
    assert recorded[b.id := b] - {b.id} == recorded;
  }

  // ------------------------------------------------------------------ one action of one worker

  /** Items, records and the worker's own items before and after, and what is left behind. */
  ghost predicate Settles(w: World, u: World, i: nat, run: string, l: Ledger, left: Items)
    requires i < |w.workers| && i < |u.workers|
  {
    Stored(u, run, l) + ItemsRecorded(w.recorded, run, l) + InFlight(w.stream, w.workers[i], run, l)
    == Stored(w, run, l) + ItemsRecorded(u.recorded, run, l) + InFlight(u.stream, u.workers[i], run, l) + left
  }

  lemma RowsAppended(t: Tables, target: string, rows: seq<MetricRow>, run: string)
    ensures var r, q := TableOf(t, run), TableOf(InsertMetrics(t, target, rows), run);
            && multiset(RowItems(q.metrics)) == multiset(RowItems(r.metrics)) + (if run == target then multiset(RowItems(rows)) else multiset{})
            && q.events == r.events
  {
    hide TableOf, InsertMetrics;
    InsertEffects(t, target, rows, run);
    var r := TableOf(t, run);
    assert RowItems(r.metrics + rows) == RowItems(r.metrics) + RowItems(rows);
  }

  lemma EventsAppended(t: Tables, target: string, events: seq<RunEvent>, run: string)
    ensures var r, q := TableOf(t, run), TableOf(InsertEvents(t, target, events), run);
            && multiset(EventItems(q.events)) == multiset(EventItems(r.events)) + (if run == target then multiset(EventItems(events)) else multiset{})
            && q.metrics == r.metrics
  {
    hide TableOf, InsertEvents;
    EventEffects(t, target, events, run);
    var r := TableOf(t, run);
    assert EventItems(r.events + events) == EventItems(r.events) + EventItems(events);
  }

  lemma PointsAppended(points: seq<Point>, more: seq<Point>)
    ensures multiset(PointItems(points + more)) == multiset(PointItems(points)) + multiset(PointItems(more))
  {
    assert PointItems(points + more) == PointItems(points) + PointItems(more);
  }

  /** Labels and counts touch neither rows nor events. */
  lemma LabelsAppendNothing(t: Tables, target: string, pairs: seq<(string, string)>, n: nat, run: string)
    ensures forall u :: u in {SetTags(t, target, pairs), InsertParams(t, target, pairs), IncrementMetricsCount(t, target, n)} ==>
              TableOf(u, run).metrics == TableOf(t, run).metrics && TableOf(u, run).events == TableOf(t, run).events
  {
    hide Upsert;
  }

  lemma TakeItems(b: Batch, done: nat)
    ensures Take(RowItems(b.metrics), done) == RowItems(Take(b.metrics, done))
    ensures Take(PointItems(PointsOf(b)), done) == PointItems(Take(PointsOf(b), done))
    ensures Take(EventItems(AllEvents(b)), done) == EventItems(Take(AllEvents(b), done))
  {
    hide PointsOf, AllEvents;
  }

  /** What a stage appends to a ledger. */
  function Appended(b: Batch, stage: Stage, run: string, l: Ledger): Items {
    if stage == InsertStage(l) then ItemsFor(b, run, l) else multiset{}
  }

  function AppendedBefore(b: Batch, stage: Stage, done: nat, run: string, l: Ledger): Items {
    if stage == InsertStage(l) && Concerns(b, run, l) then multiset(Take(ItemsOf(b, l), done)) else multiset{}
  }

  lemma WorkRows(w: World, i: nat, run: string)
    requires IsBusy(w, i)
    ensures Stored(DoWork(w, i), run, RowLedger)
         == Stored(w, run, RowLedger) + Appended(w.stream[w.workers[i].entry], w.workers[i].stage, run, RowLedger)
  {
    hide TableOf, InsertMetrics, IncrementMetricsCount, SetTags, InsertParams, InsertEvents, PointsOf, AllEvents;
    var b := w.stream[w.workers[i].entry];
    match w.workers[i].stage
    case Metrics => RowsAppended(w.tables, b.run, b.metrics, run);
    case Count => LabelsAppendNothing(w.tables, b.run, [], |b.metrics|, run);
    case Tags => LabelsAppendNothing(w.tables, b.run, b.tags, 0, run);
    case Params => LabelsAppendNothing(w.tables, b.run, b.params, 0, run);
    case Events => EventsAppended(w.tables, b.run, AllEvents(b), run);
    case _ =>
  }

  lemma WorkEvents(w: World, i: nat, run: string)
    requires IsBusy(w, i)
    ensures Stored(DoWork(w, i), run, EventLedger)
         == Stored(w, run, EventLedger) + Appended(w.stream[w.workers[i].entry], w.workers[i].stage, run, EventLedger)
  {
    hide TableOf, InsertMetrics, IncrementMetricsCount, SetTags, InsertParams, InsertEvents, PointsOf, AllEvents;
    var b := w.stream[w.workers[i].entry];
    match w.workers[i].stage
    case Metrics => RowsAppended(w.tables, b.run, b.metrics, run);
    case Count => LabelsAppendNothing(w.tables, b.run, [], |b.metrics|, run);
    case Tags => LabelsAppendNothing(w.tables, b.run, b.tags, 0, run);
    case Params => LabelsAppendNothing(w.tables, b.run, b.params, 0, run);
    case Events => EventsAppended(w.tables, b.run, AllEvents(b), run);
    case _ =>
  }

  lemma WorkPoints(w: World, i: nat, run: string)
    requires IsBusy(w, i)
    ensures Stored(DoWork(w, i), run, PointLedger)
         == Stored(w, run, PointLedger) + Appended(w.stream[w.workers[i].entry], w.workers[i].stage, run, PointLedger)
  {
    hide TableOf, InsertMetrics, IncrementMetricsCount, SetTags, InsertParams, InsertEvents, AllEvents;
    PointsAppended(w.points, PointsOf(w.stream[w.workers[i].entry]));
  }

  /** Each stage appends its items to its own ledger and nothing to the others. */
  lemma WorkStores(w: World, i: nat, run: string, l: Ledger)
    requires IsBusy(w, i)
    ensures Stored(DoWork(w, i), run, l) == Stored(w, run, l) + Appended(w.stream[w.workers[i].entry], w.workers[i].stage, run, l)
  {
    hide Stored, Appended, DoWork;
    match l
    case RowLedger => WorkRows(w, i, run);
    case PointLedger => WorkPoints(w, i, run);
    case EventLedger => WorkEvents(w, i, run);
  }

  lemma FaultTables(w: World, i: nat, done: nat, run: string)
    requires IsBusy(w, i)
    ensures var b, stage, r, q := w.stream[w.workers[i].entry], w.workers[i].stage, TableOf(w.tables, run), TableOf(DoFault(w, i, done).tables, run);
            && multiset(RowItems(q.metrics)) == multiset(RowItems(r.metrics)) +
                 (if stage == Metrics && b.run == run then multiset(RowItems(Take(b.metrics, done))) else multiset{})
            && multiset(EventItems(q.events)) == multiset(EventItems(r.events)) +
                 (if stage == Events && b.run == run then multiset(EventItems(Take(AllEvents(b), done))) else multiset{})
            && DoFault(w, i, done).points == w.points + (if stage == ClickHouse then Take(PointsOf(b), done) else [])
  {
    hide TableOf, InsertMetrics, SetTags, InsertParams, InsertEvents, PointsOf, AllEvents, RowItems, EventItems, Take;
    var b := w.stream[w.workers[i].entry];
    assert w.points + [] == w.points;
    match w.workers[i].stage
    case Metrics => RowsAppended(w.tables, b.run, Take(b.metrics, done), run);
    case Tags => LabelsAppendNothing(w.tables, b.run, Take(b.tags, done), 0, run);
    case Params => LabelsAppendNothing(w.tables, b.run, Take(b.params, done), 0, run);
    case Events => EventsAppended(w.tables, b.run, Take(AllEvents(b), done), run);
    case _ =>
  }

  lemma FaultStores(w: World, i: nat, done: nat, run: string, l: Ledger)
    requires IsBusy(w, i)
    ensures Stored(DoFault(w, i, done), run, l)
         == Stored(w, run, l) + AppendedBefore(w.stream[w.workers[i].entry], w.workers[i].stage, done, run, l)
  {
    hide TableOf, DoFault, PointsOf, AllEvents, RowItems, PointItems, EventItems, Take;
    var b := w.stream[w.workers[i].entry];
    TakeItems(b, done);
    FaultTables(w, i, done, run);
    PointsAppended(w.points, Take(PointsOf(b), done));
    assert w.points + [] == w.points;
  }

  /** Where a successful call takes its worker. */
  function NextWorker(w: World, i: nat): Worker
    requires IsBusy(w, i)
  {
    var entry := w.workers[i].entry;
    var b := w.stream[entry];
    match w.workers[i].stage
    case Checking => Busy(entry, if b.id in w.recorded then Acking else Metrics)
    case Metrics => Busy(entry, if b.metrics == [] then ClickHouse else Count)
    case Count => Busy(entry, ClickHouse)
    case ClickHouse => Busy(entry, Tags)
    case Tags => Busy(entry, Params)
    case Params => Busy(entry, Events)
    case Events => Busy(entry, Recording)
    case Recording => if b.id in w.recorded then Idle else Busy(entry, Acking)
    case Acking => Idle
  }

  lemma WorkMoves(w: World, i: nat)
    requires IsBusy(w, i)
    ensures var b, u := w.stream[w.workers[i].entry], DoWork(w, i);
            && u.stream == w.stream && u.workers[i] == NextWorker(w, i)
            && u.recorded == (if w.workers[i].stage == Recording && b.id !in w.recorded then w.recorded[b.id := b] else w.recorded)
            && (w.workers[i].stage == Recording ==> u.tables == w.tables && u.points == w.points)
  {
    hide InsertMetrics, IncrementMetricsCount, SetTags, InsertParams, InsertEvents, PointsOf, AllEvents;
  }

  /** What the worker carries after its stage: the batch if it just appended it, what it carried before
      otherwise, and nothing once it recorded the batch or gave up. */
  lemma WorkCarries(w: World, i: nat, run: string, l: Ledger)
    requires IsBusy(w, i)
    ensures var b, stage := w.stream[w.workers[i].entry], w.workers[i].stage;
            var before, after := InFlight(w.stream, w.workers[i], run, l), InFlight(w.stream, NextWorker(w, i), run, l);
            && (stage == InsertStage(l) ==> before == multiset{} && after == ItemsFor(b, run, l))
            && (stage == Recording ==> before == ItemsFor(b, run, l) && after == multiset{})
            && (stage != InsertStage(l) && stage != Recording ==> after == before)
  {
    hide ItemsFor;
  }

  lemma RecordSettles(w: World, i: nat, run: string, l: Ledger)
    requires IsBusy(w, i) && w.workers[i].stage == Recording
    ensures Settles(w, DoWork(w, i), i, run, l, Residue(w, Work(i), run, l))
  {
    hide DoWork, NextWorker, Stored, InFlight, ItemsFor, ItemsRecorded;
    WorkMoves(w, i);
    WorkCarries(w, i, run, l);
    var b := w.stream[w.workers[i].entry];
    StoredSame(w, DoWork(w, i), run, l);
    if b.id !in w.recorded { RecordedAdded(w.recorded, b, run, l); }
  }

  lemma WorkSettles(w: World, i: nat, run: string, l: Ledger)
    requires IsBusy(w, i)
    ensures Settles(w, DoWork(w, i), i, run, l, Residue(w, Work(i), run, l))
  {
    if w.workers[i].stage == Recording {
      RecordSettles(w, i, run, l);
    } else {
      hide DoWork, NextWorker, Stored, InFlight, ItemsFor, ItemsRecorded;
      WorkMoves(w, i);
      WorkStores(w, i, run, l);
      WorkCarries(w, i, run, l);
    }
  }

  lemma FaultCarries(w: World, i: nat, done: nat, run: string, l: Ledger)
    requires IsBusy(w, i)
    ensures var b, stage, u := w.stream[w.workers[i].entry], w.workers[i].stage, DoFault(w, i, done);
            && InFlight(u.stream, u.workers[i], run, l) == multiset{} && u.recorded == w.recorded
            && InFlight(w.stream, w.workers[i], run, l) == (if Carries(stage, l) then ItemsFor(b, run, l) else multiset{})
  {
    hide InsertMetrics, SetTags, InsertParams, InsertEvents, PointsOf, AllEvents, ItemsFor, Take;
  }

  lemma FaultSettles(w: World, i: nat, done: nat, run: string, l: Ledger)
    requires IsBusy(w, i)
    ensures Settles(w, DoFault(w, i, done), i, run, l, Residue(w, Fault(i, done), run, l))
  {
    FaultStores(w, i, done, run, l);
    FaultCarries(w, i, done, run, l);
    hide DoFault, Stored, InFlight, ItemsFor, ItemsRecorded, ItemsOf, Take;
  }

  lemma CrashSettles(w: World, i: nat, run: string, l: Ledger)
    requires IsBusy(w, i)
    ensures Settles(w, Become(w, i, Idle), i, run, l, Residue(w, Crash(i), run, l))
  {
    hide Stored, ItemsRecorded, ItemsFor;
    StoredSame(w, Become(w, i, Idle), run, l);
  }

  lemma DeliverSettles(w: World, i: nat, entry: nat, run: string, l: Ledger)
    requires Enabled(w, Deliver(i, entry))
    ensures Settles(w, Become(w, i, Busy(entry, Checking)), i, run, l, multiset{})
  {
    hide Stored, ItemsRecorded, ItemsFor;
    StoredSame(w, Become(w, i, Busy(entry, Checking)), run, l);
  }

  lemma ActorSettles(w: World, a: Action, run: string, l: Ledger)
    requires Enabled(w, a) && !a.Enqueue?
    ensures Settles(w, Do(w, a), a.worker, run, l, Residue(w, a, run, l))
  {
    hide Settles, DoWork, DoFault;
    match a
    case Work(i) => WorkSettles(w, i, run, l);
    case Fault(i, done) => FaultSettles(w, i, done, run, l);
    case Crash(i) => CrashSettles(w, i, run, l);
    case Deliver(i, entry) => DeliverSettles(w, i, entry, run, l);
  }

  // ------------------------------------------------------------------ whole runs

  /** The stored items are those of the recorded batches, those in flight and `left`. */
  ghost predicate Accounts(w: World, run: string, l: Ledger, left: Items) {
    Stored(w, run, l) == ItemsRecorded(w.recorded, run, l) + AllInFlight(w.stream, w.workers, run, l) + left
  }

  lemma Combine(
    stored: Items, stored': Items, recorded: Items, recorded': Items, own: Items, own': Items, all: Items, all': Items, left: Items, more: Items)
    requires stored' + recorded + own == stored + recorded' + own' + more
    requires all' + own == all + own'
    requires stored == recorded + all + left
    ensures stored' == recorded' + all' + (left + more)
  {
    forall x: Item ensures stored'[x] == (recorded' + all' + (left + more))[x] {
      assert (stored' + recorded + own)[x] == (stored + recorded' + own' + more)[x];
      assert (all' + own)[x] == (all + own')[x];
      assert stored[x] == (recorded + all + left)[x];
    }
  }

  /** Every busy worker is at work on an entry of the stream. */
  ghost predicate Placed(w: World) {
    forall i :: 0 <= i < |w.workers| && w.workers[i].Busy? ==> w.workers[i].entry < |w.stream|
  }

  lemma ActionPlaces(w: World, a: Action)
    requires Enabled(w, a) && Placed(w)
    ensures Placed(Do(w, a))
  {
    hide DoWork, DoFault;
    if !a.Enqueue? {
      ActionFrame(w, a);
      ActorPlaced(w, a);
    }
  }

  lemma WorkPlaced(w: World, i: nat)
    requires IsBusy(w, i)
    ensures DoWork(w, i).workers[i].Busy? ==> DoWork(w, i).workers[i].entry == w.workers[i].entry
  {
    hide DoWork;
    WorkMoves(w, i);
  }

  lemma FaultPlaced(w: World, i: nat, done: nat)
    requires IsBusy(w, i)
    ensures DoFault(w, i, done).workers[i].Busy? ==> DoFault(w, i, done).workers[i].entry == w.workers[i].entry
  {
    hide InsertMetrics, SetTags, InsertParams, InsertEvents, PointsOf, AllEvents, Take;
  }

  lemma ActorPlaced(w: World, a: Action)
    requires Enabled(w, a) && !a.Enqueue?
    ensures var worker := Do(w, a).workers[a.worker]; worker.Busy? ==> worker.entry < |w.stream|
  {
    hide DoWork, DoFault;
    match a
    case Work(i) => WorkPlaced(w, i);
    case Fault(i, done) => FaultPlaced(w, i, done);
    case _ =>
  }

  lemma ActionAccounts(w: World, a: Action, run: string, l: Ledger, left: Items)
    requires Enabled(w, a) && Placed(w) && Accounts(w, run, l, left)
    ensures Accounts(Do(w, a), run, l, left + Residue(w, a, run, l))
  {
    hide Stored, ItemsRecorded, AllInFlight, InFlight, DoWork, DoFault;
    if a.Enqueue? {
      InFlightLonger(w.stream, w.stream + [a.batch], w.workers, run, l);
      StoredSame(w, w.(stream := w.stream + [a.batch]), run, l);
    } else {
      var u, i := Do(w, a), a.worker;
      ActionFrame(w, a);
      ActorSettles(w, a, run, l);
      hide Do, Residue;
      InFlightUpdate(w.stream, w.workers, i, u.workers[i], run, l);
      Combine(Stored(w, run, l), Stored(u, run, l), ItemsRecorded(w.recorded, run, l), ItemsRecorded(u.recorded, run, l),
              InFlight(w.stream, w.workers[i], run, l), InFlight(u.stream, u.workers[i], run, l),
              AllInFlight(w.stream, w.workers, run, l), AllInFlight(u.stream, u.workers, run, l), left, Residue(w, a, run, l));
    }
  }

  lemma StoredSame(w: World, u: World, run: string, l: Ledger)
    requires w.tables == u.tables && w.points == u.points
    ensures Stored(w, run, l) == Stored(u, run, l)
  {
  }

  lemma {:induction false} RunAccounts(w: World, u: World, actions: seq<Action>, run: string, l: Ledger, left: Items)
    requires Reaches(w, u, actions) && Placed(w) && Accounts(w, run, l, left)
    ensures Accounts(u, run, l, left + Residues(w, actions, run, l))
    decreases |actions|
  {
    hide Placed, Accounts, Do, Enabled, Residue;
    if actions == [] {
      assert left + multiset{} == left;
    } else {
      var a, more := actions[0], Residue(w, actions[0], run, l);
      ActionPlaces(w, a);
      ActionAccounts(w, a, run, l, left);
      RunAccounts(Do(w, a), u, actions[1..], run, l, left + more);
      var rest := Residues(Do(w, a), actions[1..], run, l);
      assert left + more + rest == left + (more + rest);
    }
  }

  /** The action strands items: it ends a pass between the append and the record of a batch that has some, or
      it is an insert that fails after its first. */
  predicate Strands(w: World, a: Action, run: string, l: Ledger) {
    && (a.Work? || a.Fault? || a.Crash?) && IsBusy(w, a.worker)
    && Concerns(w.stream[w.workers[a.worker].entry], run, l) && ItemsOf(w.stream[w.workers[a.worker].entry], l) != []
    && (Abandons(w, a, l) || (a.Fault? && a.done > 0 && w.workers[a.worker].stage == InsertStage(l)))
  }

  /** No action of the run strands items. */
  ghost predicate Clean(w: World, actions: seq<Action>, run: string, l: Ledger)
    decreases |actions|
  {
    actions != [] && Enabled(w, actions[0]) ==>
      !Strands(w, actions[0], run, l) && Clean(Do(w, actions[0]), actions[1..], run, l)
  }

  lemma StrandsIff(w: World, a: Action, run: string, l: Ledger)
    requires Enabled(w, a)
    ensures Residue(w, a, run, l) != multiset{} <==> Strands(w, a, run, l)
  {
    hide ItemsOf;
    if a.Work? || a.Fault? || a.Crash? {
      var b := w.stream[w.workers[a.worker].entry];
      SomeItems(ItemsOf(b, l));
      if a.Fault? { SomeItems(Take(ItemsOf(b, l), a.done)); }
    }
  }

  lemma SomeItems(items: seq<Item>)
    ensures multiset(items) == multiset{} <==> items == []
  {
    if items != [] { assert items[0] in multiset(items); }
  }

  lemma {:induction false} CleanIff(w: World, actions: seq<Action>, run: string, l: Ledger)
    ensures Residues(w, actions, run, l) == multiset{} <==> Clean(w, actions, run, l)
    decreases |actions|
  {
    hide Do, Enabled, Residue, Strands;
    if actions != [] && Enabled(w, actions[0]) {
      StrandsIff(w, actions[0], run, l);
      CleanIff(Do(w, actions[0]), actions[1..], run, l);
      EmptySum(Residue(w, actions[0], run, l), Residues(Do(w, actions[0]), actions[1..], run, l));
    }
  }

  lemma EmptySum(a: Items, b: Items)
    ensures a + b == multiset{} <==> a == multiset{} && b == multiset{}
  {
    assert |a + b| == |a| + |b|;
  }

  lemma StartAccounts(n: nat, run: string, l: Ledger)
    ensures Accounts(Start(n), run, l, multiset{})
  {
    NothingInFlight([], Start(n).workers, run, l);
  }

  /** After any run, whatever failed, the stored rows of a run, its stored events, and the stored points, are
      exactly those of the recorded batches, once each, those of the passes under way, and the residues of
      the passes that died. */
  lemma ItemsAccounted(n: nat, w: World, actions: seq<Action>, run: string, l: Ledger)
    requires Reaches(Start(n), w, actions)
    ensures Stored(w, run, l)
         == ItemsRecorded(w.recorded, run, l) + AllInFlight(w.stream, w.workers, run, l) + Residues(Start(n), actions, run, l)
  {
    hide Reaches, ItemsRecorded, AllInFlight, Stored;
    StartAccounts(n, run, l);
    RunAccounts(Start(n), w, actions, run, l, multiset{});
    assert multiset{} + Residues(Start(n), actions, run, l) == Residues(Start(n), actions, run, l);
  }

  /** Every recorded row, event or point stands exactly once, beside those in flight, if and only if no pass
      died between appending it and recording its batch. */
  lemma ItemsStandOnceIff(n: nat, w: World, actions: seq<Action>, run: string, l: Ledger)
    requires Reaches(Start(n), w, actions)
    ensures Stored(w, run, l) == ItemsRecorded(w.recorded, run, l) + AllInFlight(w.stream, w.workers, run, l)
       <==> Clean(Start(n), actions, run, l)
  {
    hide Reaches, ItemsRecorded, AllInFlight, Stored, Residues, Clean;
    ItemsAccounted(n, w, actions, run, l);
    CleanIff(Start(n), actions, run, l);
    var expected, left := ItemsRecorded(w.recorded, run, l) + AllInFlight(w.stream, w.workers, run, l), Residues(Start(n), actions, run, l);
    assert expected + left == expected <==> left == multiset{} by {
      assert |expected + left| == |expected| + |left|;
      assert left == multiset{} ==> expected + left == expected;
    }
  }

  // ------------------------------------------------------------------ the count

  /** Counted metrics of `run` that the action leaves without a record. */
  function CountResidue(w: World, a: Action, run: string): nat {
    if Abandons(w, a, RowLedger) && Rank(w.workers[a.worker].stage) >= 3 then RowsFor(w.stream[w.workers[a.worker].entry], run) else 0
  }

  ghost function CountResidues(w: World, actions: seq<Action>, run: string): nat
    decreases |actions|
  {
    if actions == [] || !Enabled(w, actions[0]) then 0
    else CountResidue(w, actions[0], run) + CountResidues(Do(w, actions[0]), actions[1..], run)
  }

  ghost predicate CountSettles(w: World, u: World, i: nat, run: string, left: nat)
    requires i < |w.workers| && i < |u.workers|
  {
    CountOf(u.tables, run) + RecordedRows(w.recorded, run) + Held(w.stream, w.workers[i], run, 3, 8)
    == CountOf(w.tables, run) + RecordedRows(u.recorded, run) + Held(u.stream, u.workers[i], run, 3, 8) + left
  }

  lemma WorkCounts(w: World, i: nat, run: string)
    requires IsBusy(w, i)
    ensures CountSettles(w, DoWork(w, i), i, run, CountResidue(w, Work(i), run))
  {
    hide TableOf, InsertMetrics, IncrementMetricsCount, SetTags, InsertParams, InsertEvents, PointsOf, AllEvents, RecordedRows;
    var b := w.stream[w.workers[i].entry];
    match w.workers[i].stage
    case Metrics => MetricsCounted(w.tables, b.run, b.metrics, 0, run);
    case Count => MetricsCounted(w.tables, b.run, [], |b.metrics|, run);
    case Tags => LabelWritesKeepRows(w.tables, b.run, b.tags, [], run);
    case Params => LabelWritesKeepRows(w.tables, b.run, b.params, [], run);
    case Events => LabelWritesKeepRows(w.tables, b.run, [], AllEvents(b), run);
    case Recording => if b.id !in w.recorded { RecordedMore(w.recorded, b, run); }
    case _ =>
  }

  lemma FaultCounts(w: World, i: nat, done: nat, run: string)
    requires IsBusy(w, i)
    ensures CountSettles(w, DoFault(w, i, done), i, run, CountResidue(w, Fault(i, done), run))
  {
    hide TableOf, InsertMetrics, SetTags, InsertParams, InsertEvents, PointsOf, AllEvents, Take, RecordedRows;
    var b := w.stream[w.workers[i].entry];
    match w.workers[i].stage
    case Metrics => MetricsCounted(w.tables, b.run, Take(b.metrics, done), 0, run);
    case Tags => LabelWritesKeepRows(w.tables, b.run, Take(b.tags, done), [], run);
    case Params => LabelWritesKeepRows(w.tables, b.run, Take(b.params, done), [], run);
    case Events => LabelWritesKeepRows(w.tables, b.run, [], Take(AllEvents(b), done), run);
    case _ =>
  }

  lemma ActorCounts(w: World, a: Action, run: string)
    requires Enabled(w, a) && !a.Enqueue?
    ensures CountSettles(w, Do(w, a), a.worker, run, CountResidue(w, a, run))
  {
    match a
    case Work(i) => WorkCounts(w, i, run);
    case Fault(i, done) => FaultCounts(w, i, done, run);
    case _ => hide RecordedRows, CountOf;
  }

  ghost predicate CountAccounts(w: World, run: string, left: nat) {
    CountOf(w.tables, run) == RecordedRows(w.recorded, run) + Unrecorded(w, run) + left
  }

  lemma ActionCounts(w: World, a: Action, run: string, left: nat)
    requires Enabled(w, a) && Placed(w) && CountAccounts(w, run, left)
    ensures CountAccounts(Do(w, a), run, left + CountResidue(w, a, run))
  {
    hide CountOf, RecordedRows, HeldByAll, Held, DoWork, DoFault;
    if a.Enqueue? {
      HeldLonger(w.stream, w.stream + [a.batch], w.workers, run, 3, 8);
    } else {
      ActionFrame(w, a);
      ActorCounts(w, a, run);
      hide Do, CountResidue;
      HeldUpdate(w.stream, w.workers, a.worker, Do(w, a).workers[a.worker], run, 3, 8);
    }
  }

  lemma {:induction false} RunCounts(w: World, u: World, actions: seq<Action>, run: string, left: nat)
    requires Reaches(w, u, actions) && Placed(w) && CountAccounts(w, run, left)
    ensures CountAccounts(u, run, left + CountResidues(w, actions, run))
    decreases |actions|
  {
    hide Placed, CountAccounts, Do, Enabled, CountResidue;
    if actions != [] {
      ActionPlaces(w, actions[0]);
      ActionCounts(w, actions[0], run, left);
      RunCounts(Do(w, actions[0]), u, actions[1..], run, left + CountResidue(w, actions[0], run));
    }
  }

  /** After any run, whatever failed, a run's `metrics_count` is exactly the metrics of its recorded
      batches, those counted by passes under way, and those counted by passes that died. */
  lemma CountAccounted(n: nat, w: World, actions: seq<Action>, run: string)
    requires Reaches(Start(n), w, actions)
    ensures TableOf(w.tables, run).metricsCount
         == RecordedRows(w.recorded, run) + Unrecorded(w, run) + CountResidues(Start(n), actions, run)
  {
    NothingHeld([], Start(n).workers, run, 3, 8);
    assert CountAccounts(Start(n), run, 0);
    hide Reaches, RecordedRows, Unrecorded;
    RunCounts(Start(n), w, actions, run, 0);
  }
}
