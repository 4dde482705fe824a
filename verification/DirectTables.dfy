/** The tables direct mode leaves, after any history with any failures. */
module DirectTables {
  import opened Wrappers
  import opened Select
  import opened Store
  import opened Ingest
  import opened Pipeline
  import opened Histories
  import Limits

  // ------------------------------------------------------------------ an exact account of every table

  /** What an operation writes in `run`, whether or not it fails. */
  function WritesBy(env: Env, cfg: Limits.Config, api: Api, op: Op, run: string): (ws: seq<Writes>)
    ensures |ws| <= 1
  {
    if op.DropRun? || (if op.Submit? then op.req.run else op.run) != run then []
    else if !op.Submit? then (if WritesOwn(api, op) then [OwnWrites(OwnOf(op))] else [])
    else
      match Checks(env, cfg, api, op.req, op.faults).1
      case HandOn(b) => [WritesOf(b, op.faults)]
      case _ => []
  }

  /** The writes in `run` since it was last deleted, in order. */
  function WritesSince(env: Env, cfg: Limits.Config, ops: seq<Op>, run: string): seq<Writes> {
    if ops == [] then []
    else
      var init, last := ops[..|ops| - 1], ops[|ops| - 1];
      var api := ApiAfter(env, cfg, init);
      if last == DropRun(run) && run in api.runs then []
      else WritesSince(env, cfg, init, run) + WritesBy(env, cfg, api, last, run)
  }

  function AppliedAll(ws: seq<Writes>): RunTables {
    if ws == [] then BLANK else Applied(AppliedAll(ws[..|ws| - 1]), ws[|ws| - 1])
  }

  lemma DirectStepWrites(env: Env, cfg: Limits.Config, w: DirectWorld, op: Op, run: string)
    ensures var t, r := DirectStep(env, cfg, w, op).0.tables, TableOf(w.tables, run);
            TableOf(t, run) == if op == DropRun(run) && run in w.api.runs then BLANK
                               else if WritesBy(env, cfg, w.api, op, run) == [] then r
                               else Applied(r, WritesBy(env, cfg, w.api, op, run)[0])
  {
    hide Checks, PersistUnder, Applied, WritesOf, OwnTables, OwnWrites;
    if op.Submit? {
      var verdict := Checks(env, cfg, w.api, op.req, op.faults).1;
      if verdict.HandOn? {
        ChecksRecord(env, cfg, w.api, op.req, op.faults);
        hide TableOf;
        PersistWrites(w.tables, verdict.batch, op.faults, run);
      }
    } else if !op.DropRun? {
      hide TableOf;
      OwnEffect(w.tables, op.run, OwnOf(op), run);
    }
  }

  lemma AppliedOneMore(ws: seq<Writes>, w: Writes)
    ensures AppliedAll(ws + [w]) == Applied(AppliedAll(ws), w)
  {
    hide Applied;
    assert (ws + [w])[..|ws|] == ws;
  }

  /** After any history, whatever failed, the tables of a run are what was written in it since it was last
      deleted. */
  lemma {:induction false} TableIsWrites(env: Env, cfg: Limits.Config, ops: seq<Op>, run: string)
    ensures TableOf(Direct(env, cfg, ops).0.tables, run) == AppliedAll(WritesSince(env, cfg, ops, run))
    decreases |ops|
  {
    if ops != [] {
      var init, last := ops[..|ops| - 1], ops[|ops| - 1];
      TableIsWrites(env, cfg, init, run);
      ModesShareApi(env, cfg, init);
      hide DirectStep, Checks, Applied, TableOf, WritesBy;
      var before, more := WritesSince(env, cfg, init, run), WritesBy(env, cfg, ApiAfter(env, cfg, init), last, run);
      DirectStepWrites(env, cfg, Direct(env, cfg, init).0, last, run);
      if more == [] {
        assert before + more == before;
      } else {
        assert more == [more[0]];
        AppliedOneMore(before, more[0]);
      }
    }
  }

  function RowsIn(): Writes -> seq<MetricRow> { (w: Writes) => w.metrics }
  function EventsIn(): Writes -> seq<RunEvent> { (w: Writes) => w.events }
  function TagsIn(): Writes -> seq<Pair> { (w: Writes) => w.tags }
  function ParamsIn(): Writes -> seq<Pair> { (w: Writes) => w.params }

  function CountedIn(ws: seq<Writes>): nat {
    if ws == [] then 0 else CountedIn(ws[..|ws| - 1]) + ws[|ws| - 1].counted
  }

  /** Table by table: the rows and events are those written, one request after the other, the count is that
      of the requests whose count call worked, and tags and params are all the pairs written, in order. */
  lemma {:induction false} WritesAdd(ws: seq<Writes>)
    ensures AppliedAll(ws) == RunTables(FlatMap(ws, RowsIn()), CountedIn(ws), Upsert(map[], FlatMap(ws, TagsIn())),
                                        Upsert(map[], FlatMap(ws, ParamsIn())), FlatMap(ws, EventsIn()))
    decreases |ws|
  {
    hide Upsert;
    if ws == [] {
      NoUpsert(map[]);
    } else {
      var n := |ws| - 1;
      WritesAdd(ws[..n]);
      UpsertTwice(map[], FlatMap(ws[..n], TagsIn()), ws[n].tags);
      UpsertTwice(map[], FlatMap(ws[..n], ParamsIn()), ws[n].params);
    }
  }

  /** Over direct histories, whatever failed: a run's rows are those its requests wrote since it was last
      deleted, and its count is the metrics of those whose count call worked. */
  lemma DirectBalance(env: Env, cfg: Limits.Config, ops: seq<Op>, run: string)
    ensures var ws, t := WritesSince(env, cfg, ops, run), TableOf(Direct(env, cfg, ops).0.tables, run);
            && t.metrics == FlatMap(ws, RowsIn()) && t.metricsCount == CountedIn(ws)
            && t.events == FlatMap(ws, EventsIn())
            && t.tags == Upsert(map[], FlatMap(ws, TagsIn())) && t.params == Upsert(map[], FlatMap(ws, ParamsIn()))
  {
    hide Direct, WritesSince, AppliedAll, FlatMap, Upsert, TableOf;
    TableIsWrites(env, cfg, ops, run);
    WritesAdd(WritesSince(env, cfg, ops, run));
  }

  // ------------------------------------------------------------------ live batches are written

  /** Rows and events of the batch stand in one piece, its rows are counted and its keys are set. */
  ghost predicate WrittenIn(t: Tables, b: Batch) {
    var r := TableOf(t, b.run);
    && Holds(r.metrics, b.metrics) && |b.metrics| <= r.metricsCount
    && Keys(b.tags, r.tags) && Keys(b.params, r.params) && Holds(r.events, b.events)
  }

  lemma WrittenStays(t: Tables, u: Tables, b: Batch)
    requires WrittenIn(t, b) && Grows(t, u)
    ensures WrittenIn(u, b)
  {
    hide Holds;
    var r, q := TableOf(t, b.run), TableOf(u, b.run);
    assert r.metrics <= q.metrics && r.events <= q.events;
    HoldsLater(r.metrics, q.metrics, b.metrics);
    HoldsLater(r.events, q.events, b.events);
  }

  /** A persist that writes the rows, the pairs and at least the events of a batch leaves it written. */
  lemma AppliedWritten(t: Tables, u: Tables, b: Batch, w: Writes)
    requires TableOf(u, b.run) == Applied(TableOf(t, b.run), w)
    requires w.metrics == b.metrics && w.counted == |b.metrics| && w.tags == b.tags && w.params == b.params && b.events <= w.events
    ensures WrittenIn(u, b)
  {
    hide TableOf, Upsert, Holds, Keys;
    var r := TableOf(t, b.run);
    HoldsAppended(r.metrics, b.metrics);
    HoldsAppended(r.events, b.events);
    assert r.events + w.events == r.events + b.events + w.events[|b.events|..];
    HoldsLater(r.events + b.events, r.events + w.events, b.events);
    UpsertKeys(r.tags, b.tags);
    UpsertKeys(r.params, b.params);
  }

  lemma KeptIsWritten(env: Env, cfg: Limits.Config, w: DirectWorld, op: Op)
    requires KeptBy(DirectMode, env, cfg, w.api, op) != []
    ensures WrittenIn(DirectStep(env, cfg, w, op).0.tables, KeptBy(DirectMode, env, cfg, w.api, op)[0])
  {
    hide Checks, PersistUnder, WrittenIn, TableOf;
    var b := KeptBy(DirectMode, env, cfg, w.api, op)[0];
    PersistWrites(w.tables, b, op.faults, b.run);
    AppliedWritten(w.tables, PersistUnder(w.tables, b, op.faults).0, b, WritesOf(b, op.faults));
  }

  lemma SubmitGrows(env: Env, cfg: Limits.Config, w: DirectWorld, op: Op)
    requires !op.DropRun?
    ensures Grows(w.tables, DirectStep(env, cfg, w, op).0.tables)
  {
    hide Checks, PersistUnder, Grows, OwnTables;
    GrowsRefl(w.tables);
    if !op.Submit? { OwnGrows(w.tables, op.run, OwnOf(op)); }
    if op.Submit? {
      var verdict := Checks(env, cfg, w.api, op.req, op.faults).1;
      if verdict.HandOn? { PersistGrows(w.tables, verdict.batch, op.faults); }
    }
  }

  lemma DropLeavesOthers(env: Env, cfg: Limits.Config, w: DirectWorld, run: string, b: Batch)
    requires WrittenIn(w.tables, b) && b.run != run
    ensures WrittenIn(DirectStep(env, cfg, w, DropRun(run)).0.tables, b)
  {
    hide Holds, Keys;
  }

  /** After any history and with any failures, every live batch is written in full. */
  lemma {:induction false} LiveIsWritten(env: Env, cfg: Limits.Config, ops: seq<Op>, b: Batch)
    requires b in LiveBatches(DirectMode, env, cfg, ops)
    ensures WrittenIn(Direct(env, cfg, ops).0.tables, b)
    decreases |ops|
  {
    var init, last := ops[..|ops| - 1], ops[|ops| - 1];
    var live, w := LiveBatches(DirectMode, env, cfg, init), Direct(env, cfg, init).0;
    ModesShareApi(env, cfg, init);
    hide DirectStep, WrittenIn, KeptBy, ApiAfter, Filter;
    if last.DropRun? {
      FilterMember(live, NotOf(last.run), b);
      LiveIsWritten(env, cfg, init, b);
      DropLeavesOthers(env, cfg, w, last.run, b);
    } else if b in live {
      LiveIsWritten(env, cfg, init, b);
      SubmitGrows(env, cfg, w, last);
      WrittenStays(w.tables, Direct(env, cfg, ops).0.tables, b);
    } else {
      KeptIsWritten(env, cfg, w, last);
    }
  }

  /** Direct mode: a duplicate whose key was neither lost nor its run deleted since has its batch written in
      full, under its key and hash. */
  lemma DuplicateIsWritten(env: Env, cfg: Limits.Config, ops: seq<Op>, req: Request, faults: Faults) returns (b: Batch)
    requires Checks(env, cfg, ApiAfter(env, cfg, ops), req, faults).1.Skip?
    requires KeyOf(req) !in Lost(DirectMode, env, cfg, ops) && KeyOf(req) !in Gone(env, cfg, ops)
    ensures Prepare(cfg, req).Ok? && KeyOfBatch(b) == KeyOf(req) && b.payloadHash == HashOf(env, req, Prepare(cfg, req).value)
    ensures WrittenIn(Direct(env, cfg, ops).0.tables, b)
  {
    hide Lost, Gone, LiveBatches, Accounted, Checks, Prepare, HashOf, ApiAfter, Direct, WrittenIn;
    AlwaysAccounted(DirectMode, env, cfg, ops);
    ChecksSkip(env, cfg, ApiAfter(env, cfg, ops), req, faults);
    var live := LiveBatches(DirectMode, env, cfg, ops);
    LiveIfAccounted(ApiAfter(env, cfg, ops).seen.batches, live, Lost(DirectMode, env, cfg, ops), Gone(env, cfg, ops), KeyOf(req));
    b :| b in live && KeyOfBatch(b) == KeyOf(req) && b.payloadHash == HashOf(env, req, Prepare(cfg, req).value);
    LiveIsWritten(env, cfg, ops, b);
  }

  // ------------------------------------------------------------------ refused, and written all the same

  lemma DirectOneMore(env: Env, cfg: Limits.Config, ops: seq<Op>, op: Op)
    ensures Direct(env, cfg, ops + [op]).0 == DirectStep(env, cfg, Direct(env, cfg, ops).0, op).0
  {
    hide DirectStep;
    assert (ops + [op])[..|ops|] == ops;
  }

  lemma LostOneMore(mode: Mode, env: Env, cfg: Limits.Config, ops: seq<Op>, op: Op)
    requires LosesKey(mode, env, cfg, ApiAfter(env, cfg, ops), op)
    ensures KeyOf(op.req) in Lost(mode, env, cfg, ops + [op])
  {
    hide Checks, ApiAfter;
    assert (ops + [op])[..|ops|] == ops;
  }

  lemma EventsWrittenThenFailed(env: Env, cfg: Limits.Config, w: DirectWorld, req: Request, b: Batch, faults: Faults)
    requires Checks(env, cfg, w.api, req, faults).1 == HandOn(b)
    requires b.events != [] && faults == map[EventsCall := |b.events|]
    ensures LosesKey(DirectMode, env, cfg, w.api, Submit(req, faults))
    ensures WrittenIn(SubmitDirect(env, cfg, w, req, faults).0.tables, b)
  {
    hide Checks, PersistUnder, TableOf, WrittenIn;
    PersistWrites(w.tables, b, faults, b.run);
    AppliedWritten(w.tables, PersistUnder(w.tables, b, faults).0, b, WritesOf(b, faults));
  }

  /** A lost key may have its batch written, after any history: the last insert fails after its last row. The
      exact guard is `Pipeline.FailedPersistLeavesAllIff`. */
  lemma LostYetWritten(env: Env, cfg: Limits.Config, ops: seq<Op>, req: Request, b: Batch, faults: Faults)
    requires Checks(env, cfg, ApiAfter(env, cfg, ops), req, faults).1 == HandOn(b)
    requires b.events != [] && faults == map[EventsCall := |b.events|]
    ensures KeyOf(req) in Lost(DirectMode, env, cfg, ops + [Submit(req, faults)])
    ensures WrittenIn(Direct(env, cfg, ops + [Submit(req, faults)]).0.tables, b)
  {
    hide Checks, ApiAfter, Direct, Lost, WrittenIn, LosesKey, SubmitDirect;
    ModesShareApi(env, cfg, ops);
    EventsWrittenThenFailed(env, cfg, Direct(env, cfg, ops).0, req, b, faults);
    DirectOneMore(env, cfg, ops, Submit(req, faults));
    LostOneMore(DirectMode, env, cfg, ops, Submit(req, faults));
  }
}
