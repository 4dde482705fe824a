/** Histories of ingest requests, with any failures: what direct and queued mode answer, keep and lose. */
module Histories {
  import opened Wrappers
  import opened Select
  import opened Store
  import opened Ingest
  import opened Pipeline
  import Limits
  import Idempotency

  /** What an operation on a run writes at once in either mode: the initial tags and params of a run, and
      the system events of its creation and its end. */
  datatype Own = Own(tags: seq<Pair>, params: seq<Pair>, events: seq<RunEvent>)

  /** A request, the creation, the end and the deletion of a run. */
  datatype Op =
    | Submit(req: Request, faults: Faults)
    | InitRun(run: string, project: string, own: Own)
    | FinishRun(run: string, status: string, events: seq<RunEvent>)
    | DropRun(run: string)

  datatype DirectWorld = DirectWorld(api: Api, tables: Tables)
  datatype QueuedWorld = QueuedWorld(api: Api, stream: seq<Batch>)

  const DONE := Answer(0, false, [])

  /** A request served without a queue. */
  function SubmitDirect(env: Env, cfg: Limits.Config, w: DirectWorld, req: Request, faults: Faults): (DirectWorld, Reply) {
    var (api, verdict) := Checks(env, cfg, w.api, req, faults);
    match verdict
    case Reject(e) => (w.(api := api), Refused(e))
    case Abandon(e) => (w.(api := api), Refused(e))
    case Skip => (w.(api := api), Answer(0, true, []))
    case HandOn(b) =>
      var (tables, events) := PersistUnder(w.tables, b, faults);
      (DirectWorld(api, tables),
       if events.None? then Refused(Internal)
       else Answer(|b.metrics| + |b.params| + |b.tags| + events.value, false, b.warnings))
  }

  /** A request served with a queue. */
  function SubmitQueued(env: Env, cfg: Limits.Config, w: QueuedWorld, req: Request, faults: Faults): (QueuedWorld, Reply) {
    var (api, verdict) := Checks(env, cfg, w.api, req, faults);
    match verdict
    case Reject(e) => (w.(api := api), Refused(e))
    case Abandon(e) => (w.(api := api), Refused(e))
    case Skip => (w.(api := api), Answer(0, true, []))
    case HandOn(b) =>
      // a lost reply may follow an entry that was added
      if EnqueueCall in faults then
        (QueuedWorld(api, if faults[EnqueueCall] > 0 then w.stream + [b] else w.stream), Refused(Unavailable))
      else (QueuedWorld(api, w.stream + [b]), Answer(Size(b), false, b.warnings))
  }

  /** Creating a run that exists changes nothing, and ending one that does not is an error. */
  function InitRunIn(api: Api, run: string, project: string): Api {
    if run in api.runs then api else api.(runs := api.runs[run := RunInfo(project, "running")])
  }

  function FinishRunIn(api: Api, run: string, status: string): Api {
    if run in api.runs then api.(runs := api.runs[run := api.runs[run].(status := status)]) else api
  }

  function OwnOf(op: Op): Own
    requires op.InitRun? || op.FinishRun?
  {
    if op.InitRun? then op.own else Own([], [], op.events)
  }

  /** The operation writes on its own account. */
  predicate WritesOwn(api: Api, op: Op) {
    (op.InitRun? && op.run !in api.runs) || (op.FinishRun? && op.run in api.runs)
  }

  function OwnTables(t: Tables, run: string, own: Own): Tables {
    InsertEvents(InsertParams(SetTags(t, run, own.tags), run, own.params), run, own.events)
  }

  function OwnWrites(own: Own): Writes {
    Writes([], 0, own.tags, own.params, own.events)
  }

  function TablesAfter(api: Api, t: Tables, op: Op): Tables
    requires op.InitRun? || op.FinishRun?
  {
    if WritesOwn(api, op) then OwnTables(t, op.run, OwnOf(op)) else t
  }

  lemma OwnEffect(t: Tables, target: string, own: Own, run: string)
    ensures TableOf(OwnTables(t, target, own), run)
         == if run == target then Applied(TableOf(t, run), OwnWrites(own)) else TableOf(t, run)
  {
    hide TableOf, SetTags, InsertParams, InsertEvents, Upsert;
    AppliedNothing(TableOf(t, run));
    LabelEffects(t, target, own.tags, run);
    var t1 := SetTags(t, target, own.tags);
    LabelEffects(t1, target, own.params, run);
    EventEffects(InsertParams(t1, target, own.params), target, own.events, run);
  }

  lemma OwnGrows(t: Tables, target: string, own: Own)
    ensures Grows(t, OwnTables(t, target, own))
  {
    hide Grows, SetTags, InsertParams, InsertEvents;
    var t1 := SetTags(t, target, own.tags);
    var t2 := InsertParams(t1, target, own.params);
    TagsGrow(t, target, own.tags);
    ParamsGrow(t1, target, own.params);
    EventsGrow(t2, target, own.events);
    GrowsTransitive(t, t1, t2);
    GrowsTransitive(t, t2, OwnTables(t, target, own));
  }

  /** Deleting a run forgets the run, not the keys of its batches. */
  function DropRunIn(api: Api, run: string): Api {
    api.(runs := api.runs - {run})
  }

  /** Ending or deleting a run the API does not know is an error. */
  function KnownReply(api: Api, run: string): Reply {
    if run in api.runs then DONE else Refused(NotFound)
  }

  /** Deleting a run the API knows empties its tables; one it does not know is an error. */
  function DropTables(api: Api, t: Tables, run: string): Tables {
    if run in api.runs then t - {run} else t
  }

  function DirectStep(env: Env, cfg: Limits.Config, w: DirectWorld, op: Op): (DirectWorld, Reply) {
    match op
    case Submit(req, faults) => SubmitDirect(env, cfg, w, req, faults)
    case InitRun(run, project, _) => (DirectWorld(InitRunIn(w.api, run, project), TablesAfter(w.api, w.tables, op)), DONE)
    case FinishRun(run, status, _) =>
      (DirectWorld(FinishRunIn(w.api, run, status), TablesAfter(w.api, w.tables, op)), KnownReply(w.api, run))
    case DropRun(run) => (DirectWorld(DropRunIn(w.api, run), DropTables(w.api, w.tables, run)), KnownReply(w.api, run))
  }

  function QueuedStep(env: Env, cfg: Limits.Config, w: QueuedWorld, op: Op): (QueuedWorld, Reply) {
    match op
    case Submit(req, faults) => SubmitQueued(env, cfg, w, req, faults)
    case InitRun(run, project, _) => (w.(api := InitRunIn(w.api, run, project)), DONE)
    case FinishRun(run, status, _) => (w.(api := FinishRunIn(w.api, run, status)), KnownReply(w.api, run))
    case DropRun(run) => (w.(api := DropRunIn(w.api, run)), KnownReply(w.api, run))
  }

  const FRESH := Api(map[], Idempotency.EMPTY, Limits.Tracker(map[], map[]))

  function Direct(env: Env, cfg: Limits.Config, ops: seq<Op>): (DirectWorld, seq<Reply>) {
    if ops == [] then (DirectWorld(FRESH, map[]), [])
    else
      var (w, replies) := Direct(env, cfg, ops[..|ops| - 1]);
      var (next, reply) := DirectStep(env, cfg, w, ops[|ops| - 1]);
      (next, replies + [reply])
  }

  function Queued(env: Env, cfg: Limits.Config, ops: seq<Op>): (QueuedWorld, seq<Reply>) {
    if ops == [] then (QueuedWorld(FRESH, []), [])
    else
      var (w, replies) := Queued(env, cfg, ops[..|ops| - 1]);
      var (next, reply) := QueuedStep(env, cfg, w, ops[|ops| - 1]);
      (next, replies + [reply])
  }

  // ------------------------------------------------------------------ the API state, and what becomes of a batch

  function ApiStep(env: Env, cfg: Limits.Config, api: Api, op: Op): Api {
    match op
    case Submit(req, faults) => Checks(env, cfg, api, req, faults).0
    case InitRun(run, project, _) => InitRunIn(api, run, project)
    case FinishRun(run, status, _) => FinishRunIn(api, run, status)
    case DropRun(run) => DropRunIn(api, run)
  }

  function ApiAfter(env: Env, cfg: Limits.Config, ops: seq<Op>): Api {
    if ops == [] then FRESH else ApiStep(env, cfg, ApiAfter(env, cfg, ops[..|ops| - 1]), ops[|ops| - 1])
  }

  datatype Mode = DirectMode | QueuedMode

  /** Handing the batch on fails: a persist call it needs, or the enqueue. */
  predicate HandOverFails(mode: Mode, b: Batch, faults: Faults) {
    match mode
    case DirectMode => PersistFails(b, faults)
    case QueuedMode => EnqueueCall in faults
  }

  /** The batch a request hands over without failure, if it does. */
  function KeptBy(mode: Mode, env: Env, cfg: Limits.Config, api: Api, op: Op): (kept: seq<Batch>)
    ensures |kept| <= 1
  {
    if !op.Submit? then []
    else
      match Checks(env, cfg, api, op.req, op.faults).1
      case HandOn(b) => if HandOverFails(mode, b, op.faults) then [] else [b]
      case _ => []
  }

  function NotOf(run: string): Batch -> bool {
    (b: Batch) => b.run != run
  }

  /** The batches handed over without failure, in order, of runs not deleted since. */
  function LiveBatches(mode: Mode, env: Env, cfg: Limits.Config, ops: seq<Op>): seq<Batch> {
    if ops == [] then []
    else
      var init, last := ops[..|ops| - 1], ops[|ops| - 1];
      var before := LiveBatches(mode, env, cfg, init);
      if last.DropRun? then Filter(before, NotOf(last.run)) else before + KeptBy(mode, env, cfg, ApiAfter(env, cfg, init), last)
  }

  function KeyOf(req: Request): Idempotency.Key {
    (req.run, req.batch)
  }

  /** The request records its key and is refused: its run is not running, the second lookup of the run
      fails, or handing the batch on fails. */
  predicate LosesKey(mode: Mode, env: Env, cfg: Limits.Config, api: Api, op: Op) {
    op.Submit? &&
    var verdict := Checks(env, cfg, api, op.req, op.faults).1;
    verdict.Abandon? || (verdict.HandOn? && HandOverFails(mode, verdict.batch, op.faults))
  }

  /** The keys recorded by requests that were refused. */
  function Lost(mode: Mode, env: Env, cfg: Limits.Config, ops: seq<Op>): set<Idempotency.Key> {
    if ops == [] then {}
    else
      var init, last := ops[..|ops| - 1], ops[|ops| - 1];
      Lost(mode, env, cfg, init) + if LosesKey(mode, env, cfg, ApiAfter(env, cfg, init), last) then {KeyOf(last.req)} else {}
  }

  function KeysOfRun(api: Api, run: string): set<Idempotency.Key> {
    set k | k in api.seen.batches && k.0 == run
  }

  /** The keys whose run was deleted after they were recorded. */
  function Gone(env: Env, cfg: Limits.Config, ops: seq<Op>): set<Idempotency.Key> {
    if ops == [] then {}
    else
      var init, last := ops[..|ops| - 1], ops[|ops| - 1];
      Gone(env, cfg, init) + if last.DropRun? then KeysOfRun(ApiAfter(env, cfg, init), last.run) else {}
  }

  /** Failures to hand batches on never show in the API state: both modes have the same. */
  lemma {:induction false} ModesShareApi(env: Env, cfg: Limits.Config, ops: seq<Op>)
    ensures Direct(env, cfg, ops).0.api == ApiAfter(env, cfg, ops)
    ensures Queued(env, cfg, ops).0.api == ApiAfter(env, cfg, ops)
    ensures |Direct(env, cfg, ops).1| == |ops| && |Queued(env, cfg, ops).1| == |ops|
    decreases |ops|
  {
    hide Checks, PersistUnder;
    if ops != [] {
      ModesShareApi(env, cfg, ops[..|ops| - 1]);
    }
  }

  // ------------------------------------------------------------------ what a recorded key stands for

  function KeyOfBatch(b: Batch): Idempotency.Key {
    (b.run, b.id)
  }

  function KeysOf(batches: seq<Batch>): set<Idempotency.Key> {
    set i | 0 <= i < |batches| :: KeyOfBatch(batches[i])
  }

  /** A request records its key if and only if it is new and passes validation, whatever happens next. */
  lemma ChecksRecord(env: Env, cfg: Limits.Config, api: Api, req: Request, faults: Faults)
    ensures var (after, verdict) := Checks(env, cfg, api, req, faults);
            if verdict.HandOn? || verdict.Abandon? then
              && KeyOf(req) !in api.seen.batches
              && after.seen.batches.Keys == api.seen.batches.Keys + {KeyOf(req)}
              && (forall k :: k in api.seen.batches ==> after.seen.batches[k] == api.seen.batches[k])
            else after.seen == api.seen
    ensures var (after, verdict) := Checks(env, cfg, api, req, faults);
            verdict.HandOn? ==> KeyOfBatch(verdict.batch) == KeyOf(req)
                                && after.seen.batches[KeyOf(req)].payloadHash == verdict.batch.payloadHash
                                && Prepare(cfg, req).Ok? && verdict.batch.payloadHash == HashOf(env, req, Prepare(cfg, req).value)
    ensures Checks(env, cfg, api, req, faults).0.runs == api.runs
  {
    hide Prepare, Limits.Validated, HashOf, Filter, SiftAll, IsRunning, Rendered, Notices, Names;
  }

  /** Only the requests of a known run are handed on. */
  lemma KnownRun(env: Env, cfg: Limits.Config, api: Api, req: Request, faults: Faults)
    requires Checks(env, cfg, api, req, faults).1.HandOn?
    ensures req.run in api.runs
  {
    hide Prepare, Limits.Validated, HashOf, BatchOf, IsRunning, Idempotency.Checked;
  }

  type Records = map<Idempotency.Key, Idempotency.Record>

  /** The batches have recorded keys, one each, and the hashes they were recorded with. */
  ghost predicate Fresh(records: Records, batches: seq<Batch>) {
    && KeysOf(batches) <= records.Keys
    && Distinct(batches)
    && (forall b :: b in batches && KeyOfBatch(b) in records ==> records[KeyOfBatch(b)].payloadHash == b.payloadHash)
  }

  ghost predicate Distinct(batches: seq<Batch>) {
    forall i, j :: 0 <= i < j < |batches| ==> KeyOfBatch(batches[i]) != KeyOfBatch(batches[j])
  }

  lemma DistinctOneMore(batches: seq<Batch>, b: Batch)
    ensures Distinct(batches + [b]) <==> Distinct(batches) && KeyOfBatch(b) !in KeysOf(batches)
  {
    var all := batches + [b];
    assert all[|batches|] == b && forall i :: 0 <= i < |batches| ==> all[i] == batches[i];
    if Distinct(all) {
      forall i | 0 <= i < |batches| ensures KeyOfBatch(batches[i]) != KeyOfBatch(b) {
        assert KeyOfBatch(all[i]) != KeyOfBatch(all[|batches|]);
      }
    }
    forall i | 0 <= i < |batches| ensures KeyOfBatch(batches[i]) in KeysOf(batches) { KeyPresent(batches, i); }
  }

  lemma KeysOneMore(batches: seq<Batch>, b: Batch)
    ensures KeysOf(batches + [b]) == KeysOf(batches) + {KeyOfBatch(b)}
  {
    var longer := batches + [b];
    assert longer[|batches|] == b;
    assert forall i :: 0 <= i < |batches| ==> longer[i] == batches[i];
    forall k | k in KeysOf(batches) ensures k in KeysOf(longer) {
      var i :| 0 <= i < |batches| && KeyOfBatch(batches[i]) == k;
      assert KeyOfBatch(longer[i]) == k;
    }
    assert KeyOfBatch(longer[|batches|]) in KeysOf(longer);
  }

  lemma KeyPresent(batches: seq<Batch>, i: nat)
    requires i < |batches|
    ensures KeyOfBatch(batches[i]) in KeysOf(batches)
  {
  }

  lemma KeysMember(batches: seq<Batch>, key: Idempotency.Key)
    ensures key in KeysOf(batches) <==> exists b :: b in batches && KeyOfBatch(b) == key
  {
    if key in KeysOf(batches) {
      var i :| 0 <= i < |batches| && KeyOfBatch(batches[i]) == key;
      assert batches[i] in batches;
    }
  }

  /** A new batch under a new key keeps the batches fresh, and so does nothing. */
  lemma FreshOneMore(env: Env, cfg: Limits.Config, api: Api, op: Op, batches: seq<Batch>, more: seq<Batch>)
    requires op.Submit? && Fresh(api.seen.batches, batches)
    requires |more| <= 1 && (more != [] ==> Checks(env, cfg, api, op.req, op.faults).1 == HandOn(more[0]))
    ensures Fresh(ApiStep(env, cfg, api, op).seen.batches, batches + more)
  {
    hide Checks, KeysOf, Distinct;
    ChecksRecord(env, cfg, api, op.req, op.faults);
    forall b | b in batches ensures KeyOfBatch(b) in api.seen.batches {
      KeysMember(batches, KeyOfBatch(b));
    }
    if more == [] {
      assert batches + more == batches;
    } else {
      assert more == [more[0]];
      KeysOneMore(batches, more[0]);
      DistinctOneMore(batches, more[0]);
    }
  }

  lemma FilteredKeys(batches: seq<Batch>, run: string)
    ensures KeysOf(Filter(batches, NotOf(run))) == set k | k in KeysOf(batches) && k.0 != run
  {
    hide KeysOf, Filter;
    var rest := Filter(batches, NotOf(run));
    forall key: Idempotency.Key ensures key in KeysOf(rest) <==> key in KeysOf(batches) && key.0 != run {
      KeysMember(rest, key);
      KeysMember(batches, key);
      if b :| b in rest && KeyOfBatch(b) == key { FilterMember(batches, NotOf(run), b); }
      if b :| b in batches && KeyOfBatch(b) == key && key.0 != run { FilterMember(batches, NotOf(run), b); }
    }
  }

  lemma {:induction false} DistinctFilter(batches: seq<Batch>, run: string)
    requires Distinct(batches)
    ensures Distinct(Filter(batches, NotOf(run)))
    decreases |batches|
  {
    if batches != [] {
      hide Distinct, Filter;
      var n := |batches| - 1;
      var init, last := batches[..n], batches[n];
      assert batches == init + [last] && batches[..n + 1] == batches;
      DistinctOneMore(init, last);
      DistinctFilter(init, run);
      FilterOneMore(batches, n, NotOf(run));
      FilteredKeys(init, run);
      var rest := Filter(init, NotOf(run));
      DistinctOneMore(rest, last);
      assert rest + [] == rest;
    }
  }

  lemma FreshFilter(records: Records, batches: seq<Batch>, run: string)
    requires Fresh(records, batches)
    ensures Fresh(records, Filter(batches, NotOf(run)))
  {
    hide Distinct, Filter, KeysOf;
    DistinctFilter(batches, run);
    FilteredKeys(batches, run);
    forall b | b in Filter(batches, NotOf(run)) ensures b in batches { FilterMember(batches, NotOf(run), b); }
  }

  /** Every recorded key is that of one live batch, or was lost, or its run was deleted since. */
  ghost predicate Accounted(records: Records, live: seq<Batch>, lost: set<Idempotency.Key>, gone: set<Idempotency.Key>) {
    && Fresh(records, live)
    && records.Keys == KeysOf(live) + lost + gone
    && KeysOf(live) !! lost + gone
  }

  lemma AccountedSubmit(
    mode: Mode, env: Env, cfg: Limits.Config, api: Api, live: seq<Batch>, lost: set<Idempotency.Key>, gone: set<Idempotency.Key>, op: Op)
    requires op.Submit? && Accounted(api.seen.batches, live, lost, gone)
    ensures Accounted(ApiStep(env, cfg, api, op).seen.batches, live + KeptBy(mode, env, cfg, api, op),
                      lost + (if LosesKey(mode, env, cfg, api, op) then {KeyOf(op.req)} else {}), gone)
  {
    hide Checks, KeysOf, HandOverFails, Fresh;
    var (after, verdict) := Checks(env, cfg, api, op.req, op.faults);
    ChecksRecord(env, cfg, api, op.req, op.faults);
    FreshOneMore(env, cfg, api, op, live, KeptBy(mode, env, cfg, api, op));
    if verdict.HandOn? { KeysOneMore(live, verdict.batch); }
    assert live + [] == live;
  }

  lemma AccountedDrop(records: Records, api: Api, live: seq<Batch>, lost: set<Idempotency.Key>, gone: set<Idempotency.Key>, run: string)
    requires Accounted(records, live, lost, gone) && records == api.seen.batches
    ensures Accounted(records, Filter(live, NotOf(run)), lost, gone + KeysOfRun(api, run))
  {
    FreshFilter(records, live, run);
    FilteredKeys(live, run);
    hide Fresh, Filter, KeysOf;
  }

  /** After any history, in either mode and with any failures, the recorded keys are those of the live
      batches, the lost ones and those whose run was deleted since; no live key is lost or gone, none is
      live twice, and each stands for the payload hash it was recorded with. */
  lemma {:induction false} AlwaysAccounted(mode: Mode, env: Env, cfg: Limits.Config, ops: seq<Op>)
    ensures Accounted(ApiAfter(env, cfg, ops).seen.batches, LiveBatches(mode, env, cfg, ops), Lost(mode, env, cfg, ops), Gone(env, cfg, ops))
    decreases |ops|
  {
    if ops != [] {
      var init, last := ops[..|ops| - 1], ops[|ops| - 1];
      AlwaysAccounted(mode, env, cfg, init);
      hide Checks, KeysOf, Accounted, Filter;
      var api, live, lost, gone := ApiAfter(env, cfg, init), LiveBatches(mode, env, cfg, init), Lost(mode, env, cfg, init), Gone(env, cfg, init);
      assert live + [] == live && lost + {} == lost && gone + {} == gone;
      if last.Submit? {
        AccountedSubmit(mode, env, cfg, api, live, lost, gone, last);
      } else if last.DropRun? {
        AccountedDrop(api.seen.batches, api, live, lost, gone, last.run);
      }
    }
  }

  // ------------------------------------------------------------------ what the replies say

  /** A request is answered as done exactly if it hands its batch over without failure, and refused if it
      loses its key. */
  lemma ReplyIff(env: Env, cfg: Limits.Config, d: DirectWorld, q: QueuedWorld, op: Op)
    requires op.Submit?
    ensures var reply := DirectStep(env, cfg, d, op).1;
            && ((reply.Answer? && !reply.duplicate) <==> KeptBy(DirectMode, env, cfg, d.api, op) != [])
            && (LosesKey(DirectMode, env, cfg, d.api, op) ==> reply.Refused?)
    ensures var reply := QueuedStep(env, cfg, q, op).1;
            && ((reply.Answer? && !reply.duplicate) <==> KeptBy(QueuedMode, env, cfg, q.api, op) != [])
            && (LosesKey(QueuedMode, env, cfg, q.api, op) ==> reply.Refused?)
  {
    hide Checks, PersistUnder, PersistFails;
    var verdict := Checks(env, cfg, d.api, op.req, op.faults).1;
    if verdict.HandOn? { PersistExact(d.tables, verdict.batch, op.faults); }
  }

  /** What is answered in either mode: the error of the verdict; nothing for a repeat; and for a batch handed on
      without failure the number of its rows, params, tags, events and warnings, and its warnings. A failed
      insert of the warnings only leaves them out of the count. */
  lemma ReplyDecides(env: Env, cfg: Limits.Config, d: DirectWorld, q: QueuedWorld, op: Op)
    requires op.Submit?
    ensures var reply := DirectStep(env, cfg, d, op).1;
            match Checks(env, cfg, d.api, op.req, op.faults).1
            case Reject(e) => reply == Refused(e)
            case Abandon(e) => reply == Refused(e)
            case Skip => reply == Answer(0, true, [])
            case HandOn(b) =>
              var sent := |b.metrics| + |b.params| + |b.tags| + |b.events|;
              reply == if PersistFails(b, op.faults) then Refused(Internal)
                       else Answer(sent + if WarningsCall in op.faults then 0 else |b.warnings|, false, b.warnings)
    ensures var reply := QueuedStep(env, cfg, q, op).1;
            match Checks(env, cfg, q.api, op.req, op.faults).1
            case Reject(e) => reply == Refused(e)
            case Abandon(e) => reply == Refused(e)
            case Skip => reply == Answer(0, true, [])
            case HandOn(b) =>
              reply == if EnqueueCall in op.faults then Refused(Unavailable)
                       else Answer(|b.metrics| + |b.params| + |b.tags| + |b.events| + |b.warnings|, false, b.warnings)
  {
    hide Checks;
    var verdict := Checks(env, cfg, d.api, op.req, op.faults).1;
    if verdict.HandOn? { EventsReported(d.tables, verdict.batch, op.faults); }
    hide PersistUnder, PersistFails;
  }

  lemma EventsReported(t: Tables, b: Batch, faults: Faults)
    ensures PersistUnder(t, b, faults).1
         == if PersistFails(b, faults) then None else Some(|b.events| + if WarningsCall in faults then 0 else |b.warnings|)
  {
    hide InsertMetrics, IncrementMetricsCount, SetTags, InsertParams, InsertEvents, WarningEvents, Take;
  }

  /** A run is running from its creation until it is ended; creating it again changes nothing, and deleting it
      leaves the others. */
  lemma RunLives(api: Api, run: string, project: string, status: string, other: string)
    requires other != run
    ensures var made := InitRunIn(api, run, project);
            && run in made.runs && (other in made.runs <==> other in api.runs) && (other in api.runs ==> made.runs[other] == api.runs[other])
            && made.runs[run] == if run in api.runs then api.runs[run] else RunInfo(project, "running")
    ensures var ended := FinishRunIn(api, run, status);
            && ended.runs.Keys == api.runs.Keys && (other in api.runs ==> ended.runs[other] == api.runs[other])
            && (run in api.runs ==> ended.runs[run] == RunInfo(api.runs[run].project, status))
    ensures var gone := DropRunIn(api, run);
            && run !in gone.runs && (other in gone.runs <==> other in api.runs) && (other in api.runs ==> gone.runs[other] == api.runs[other])
    ensures forall after :: after in {InitRunIn(api, run, project), FinishRunIn(api, run, status), DropRunIn(api, run)} ==>
              after.seen == api.seen && after.tracker == api.tracker
  {
  }

  /** Creating a run always succeeds; ending or deleting one is an error exactly if the API does not know it. */
  lemma RunReplyDecides(env: Env, cfg: Limits.Config, d: DirectWorld, q: QueuedWorld, op: Op)
    requires !op.Submit?
    ensures DirectStep(env, cfg, d, op).1 == if op.InitRun? || op.run in d.api.runs then Answer(0, false, []) else Refused(NotFound)
    ensures QueuedStep(env, cfg, q, op).1 == if op.InitRun? || op.run in q.api.runs then Answer(0, false, []) else Refused(NotFound)
  {
  }

  /** What creating and ending a run writes: a new run its tags, params and events, a known run that ends its
      events, and otherwise nothing; no other run is written. */
  lemma OwnDecides(api: Api, t: Tables, op: Op, run: string)
    requires op.InitRun? || op.FinishRun?
    ensures var r, u := TableOf(t, run), TableOf(TablesAfter(api, t, op), run);
            match op
            case InitRun(target, _, own) =>
              u == if run != target || run in api.runs then r
                   else RunTables(r.metrics, r.metricsCount, Upsert(r.tags, own.tags), Upsert(r.params, own.params), r.events + own.events)
            case FinishRun(target, _, events) =>
              u == if run != target || run !in api.runs then r
                   else RunTables(r.metrics, r.metricsCount, r.tags, r.params, r.events + events)
  {
    AppliedNothing(TableOf(t, run));
    OwnEffect(t, op.run, OwnOf(op), run);
    hide TableOf, OwnTables, Upsert;
  }

  function Replies(mode: Mode, env: Env, cfg: Limits.Config, ops: seq<Op>): seq<Reply> {
    if mode.DirectMode? then Direct(env, cfg, ops).1 else Queued(env, cfg, ops).1
  }

  /** The operation is a request with this key and hash. */
  ghost predicate Sends(env: Env, cfg: Limits.Config, op: Op, key: Idempotency.Key, hash: string) {
    op.Submit? && KeyOf(op.req) == key && Prepare(cfg, op.req).Ok? && HashOf(env, op.req, Prepare(cfg, op.req).value) == hash
  }

  predicate IsDone(reply: Reply) {
    reply.Answer? && !reply.duplicate
  }

  ghost predicate NotDeletedSince(ops: seq<Op>, i: nat, run: string) {
    forall j :: i < j < |ops| ==> ops[j] != DropRun(run)
  }

  /** The `i`-th request had this key and hash and was answered as done, and its run was not deleted since. */
  ghost predicate AnsweredAt(env: Env, cfg: Limits.Config, ops: seq<Op>, replies: seq<Reply>, i: nat, key: Idempotency.Key, hash: string) {
    i < |ops| && i < |replies| && Sends(env, cfg, ops[i], key, hash) && IsDone(replies[i]) && NotDeletedSince(ops, i, key.0)
  }

  ghost predicate Answered(env: Env, cfg: Limits.Config, ops: seq<Op>, replies: seq<Reply>, key: Idempotency.Key, hash: string) {
    exists i: nat :: AnsweredAt(env, cfg, ops, replies, i, key, hash)
  }

  ghost predicate LiveFor(live: seq<Batch>, key: Idempotency.Key, hash: string) {
    exists b :: b in live && KeyOfBatch(b) == key && b.payloadHash == hash
  }

  lemma RepliesGrow(mode: Mode, env: Env, cfg: Limits.Config, ops: seq<Op>)
    requires ops != []
    ensures var init, last := ops[..|ops| - 1], ops[|ops| - 1];
            && |Replies(mode, env, cfg, init)| == |init|
            && Replies(mode, env, cfg, ops) == Replies(mode, env, cfg, init) +
                 [if mode.DirectMode? then DirectStep(env, cfg, Direct(env, cfg, init).0, last).1
                  else QueuedStep(env, cfg, Queued(env, cfg, init).0, last).1]
  {
    hide DirectStep, QueuedStep;
    ModesShareApi(env, cfg, ops[..|ops| - 1]);
  }

  lemma SinceOneMore(ops: seq<Op>, op: Op, i: nat, run: string)
    requires i < |ops|
    ensures NotDeletedSince(ops + [op], i, run) <==> NotDeletedSince(ops, i, run) && op != DropRun(run)
  {
    var all := ops + [op];
    assert all[|ops|] == op && forall j :: 0 <= j < |ops| ==> all[j] == ops[j];
    if NotDeletedSince(all, i, run) {
      assert all[|ops|] != DropRun(run);
      forall j | i < j < |ops| ensures ops[j] != DropRun(run) { assert all[j] == ops[j]; }
    }
  }

  /** What is answered after one more operation was answered before, or is answered now. */
  lemma AnsweredLater(env: Env, cfg: Limits.Config, ops: seq<Op>, replies: seq<Reply>, op: Op, reply: Reply, key: Idempotency.Key, hash: string)
    requires |replies| == |ops|
    ensures Answered(env, cfg, ops + [op], replies + [reply], key, hash) <==>
            (Answered(env, cfg, ops, replies, key, hash) && op != DropRun(key.0)) || (Sends(env, cfg, op, key, hash) && IsDone(reply))
  {
    hide Sends, NotDeletedSince;
    var n, all, answers := |ops|, ops + [op], replies + [reply];
    assert all[n] == op && answers[n] == reply;
    forall i: nat | i < n
      ensures AnsweredAt(env, cfg, all, answers, i, key, hash) <==> AnsweredAt(env, cfg, ops, replies, i, key, hash) && op != DropRun(key.0)
    {
      assert all[i] == ops[i] && answers[i] == replies[i];
      SinceOneMore(ops, op, i, key.0);
    }
    assert NotDeletedSince(all, n, key.0) by { NothingSince(all, n, key.0); }
    assert AnsweredAt(env, cfg, all, answers, n, key, hash) <==> Sends(env, cfg, op, key, hash) && IsDone(reply);
    hide AnsweredAt;
    if op != DropRun(key.0) {
      if i: nat :| AnsweredAt(env, cfg, ops, replies, i, key, hash) {
        AnsweredIndex(env, cfg, ops, replies, i, key, hash);
        assert AnsweredAt(env, cfg, all, answers, i, key, hash);
      }
    }
    if i: nat :| AnsweredAt(env, cfg, all, answers, i, key, hash) {
      AnsweredIndex(env, cfg, all, answers, i, key, hash);
    }
  }

  lemma AnsweredIndex(env: Env, cfg: Limits.Config, ops: seq<Op>, replies: seq<Reply>, i: nat, key: Idempotency.Key, hash: string)
    requires AnsweredAt(env, cfg, ops, replies, i, key, hash)
    ensures i < |ops|
  {
  }

  lemma NothingSince(ops: seq<Op>, i: nat, run: string)
    requires i + 1 >= |ops|
    ensures NotDeletedSince(ops, i, run)
  {
  }

  /** A request is answered as done exactly if it keeps a batch of its key and hash. */
  lemma AnsweredNow(mode: Mode, env: Env, cfg: Limits.Config, ops: seq<Op>, key: Idempotency.Key, hash: string)
    requires ops != []
    ensures var kept, replies := KeptBy(mode, env, cfg, ApiAfter(env, cfg, ops[..|ops| - 1]), ops[|ops| - 1]), Replies(mode, env, cfg, ops);
            && |replies| == |ops|
            && (Sends(env, cfg, ops[|ops| - 1], key, hash) && IsDone(replies[|ops| - 1]) <==>
                kept != [] && KeyOfBatch(kept[0]) == key && kept[0].payloadHash == hash)
  {
    hide DirectStep, QueuedStep, Checks, Prepare, HashOf, HandOverFails, Direct, Queued, ApiAfter;
    var init, last := ops[..|ops| - 1], ops[|ops| - 1];
    RepliesGrow(mode, env, cfg, ops);
    ModesShareApi(env, cfg, init);
    if last.Submit? {
      ReplyIff(env, cfg, Direct(env, cfg, init).0, Queued(env, cfg, init).0, last);
      ChecksRecord(env, cfg, ApiAfter(env, cfg, init), last.req, last.faults);
    }
  }

  lemma DropKeepsNothing(mode: Mode, env: Env, cfg: Limits.Config, api: Api, op: Op)
    requires !op.Submit?
    ensures KeptBy(mode, env, cfg, api, op) == []
  {
  }

  lemma LiveLater(live: seq<Batch>, more: seq<Batch>, key: Idempotency.Key, hash: string)
    requires |more| <= 1
    ensures LiveFor(live + more, key, hash) <==>
            LiveFor(live, key, hash) || (more != [] && KeyOfBatch(more[0]) == key && more[0].payloadHash == hash)
  {
    if more != [] { assert more[0] in live + more; }
    if b :| b in live && KeyOfBatch(b) == key && b.payloadHash == hash { assert b in live + more; }
  }

  lemma LiveFiltered(live: seq<Batch>, run: string, key: Idempotency.Key, hash: string)
    ensures LiveFor(Filter(live, NotOf(run)), key, hash) <==> LiveFor(live, key, hash) && key.0 != run
  {
    hide Filter;
    if b :| b in Filter(live, NotOf(run)) && KeyOfBatch(b) == key && b.payloadHash == hash { FilterMember(live, NotOf(run), b); }
    if b :| b in live && KeyOfBatch(b) == key && b.payloadHash == hash && key.0 != run {
      FilterMember(live, NotOf(run), b);
    }
  }

  /** A batch is live after one more operation if it was and its run is not deleted, or if it is kept now. */
  lemma LiveOneMore(mode: Mode, env: Env, cfg: Limits.Config, ops: seq<Op>, key: Idempotency.Key, hash: string)
    requires ops != []
    ensures var init, last := ops[..|ops| - 1], ops[|ops| - 1];
            var kept := KeptBy(mode, env, cfg, ApiAfter(env, cfg, init), last);
            LiveFor(LiveBatches(mode, env, cfg, ops), key, hash) <==>
            (LiveFor(LiveBatches(mode, env, cfg, init), key, hash) && last != DropRun(key.0))
            || (kept != [] && KeyOfBatch(kept[0]) == key && kept[0].payloadHash == hash)
  {
    var init, last := ops[..|ops| - 1], ops[|ops| - 1];
    var live := LiveBatches(mode, env, cfg, init);
    hide LiveFor, Filter, Checks, ApiAfter, KeptBy;
    if last.DropRun? {
      DropKeepsNothing(mode, env, cfg, ApiAfter(env, cfg, init), last);
      LiveFiltered(live, last.run, key, hash);
    } else {
      LiveLater(live, KeptBy(mode, env, cfg, ApiAfter(env, cfg, init), last), key, hash);
    }
  }

  lemma NothingLive(mode: Mode, env: Env, cfg: Limits.Config, key: Idempotency.Key, hash: string)
    ensures !LiveFor(LiveBatches(mode, env, cfg, []), key, hash) && !Answered(env, cfg, [], Replies(mode, env, cfg, []), key, hash)
  {
  }

  /** The live batches are those whose request was answered as done, and whose run was not deleted since. */
  lemma {:induction false} LiveIffAnswered(mode: Mode, env: Env, cfg: Limits.Config, ops: seq<Op>, key: Idempotency.Key, hash: string)
    ensures LiveFor(LiveBatches(mode, env, cfg, ops), key, hash) <==> Answered(env, cfg, ops, Replies(mode, env, cfg, ops), key, hash)
    decreases |ops|
  {
    hide Answered, LiveFor, LiveBatches, ApiAfter, Replies, KeptBy, Sends, DirectStep, QueuedStep;
    if ops == [] {
      NothingLive(mode, env, cfg, key, hash);
    } else {
      var init, last := ops[..|ops| - 1], ops[|ops| - 1];
      var replies := Replies(mode, env, cfg, ops);
      LiveIffAnswered(mode, env, cfg, init, key, hash);
      RepliesGrow(mode, env, cfg, ops);
      AnsweredNow(mode, env, cfg, ops, key, hash);
      assert ops == init + [last] && replies == Replies(mode, env, cfg, init) + [replies[|init|]];
      AnsweredLater(env, cfg, init, Replies(mode, env, cfg, init), last, replies[|init|], key, hash);
      LiveOneMore(mode, env, cfg, ops, key, hash);
    }
  }

  lemma ChecksSkip(env: Env, cfg: Limits.Config, api: Api, req: Request, faults: Faults)
    requires Checks(env, cfg, api, req, faults).1.Skip?
    ensures KeyOf(req) in api.seen.batches && Prepare(cfg, req).Ok?
    ensures api.seen.batches[KeyOf(req)].payloadHash == HashOf(env, req, Prepare(cfg, req).value)
  {
    hide Prepare, Limits.Validated, HashOf, BatchOf, IsRunning, Names;
  }

  lemma LiveIfAccounted(records: Records, live: seq<Batch>, lost: set<Idempotency.Key>, gone: set<Idempotency.Key>, key: Idempotency.Key)
    requires Accounted(records, live, lost, gone) && key in records
    ensures LiveFor(live, key, records[key].payloadHash) <==> key !in lost && key !in gone
  {
    hide KeysOf;
    KeysMember(live, key);
    if key !in lost && key !in gone {
      var b :| b in live && KeyOfBatch(b) == key;
      assert KeyOfBatch(b) in records;
    }
  }

  /** "Duplicate" means that a request of the same key and hash was answered as done, and the run not deleted
      since, if and only if the request that recorded the key found its run running, its second lookup and
      its hand-over worked, and the run was not deleted after the key was recorded. */
  lemma DuplicateMeansAnsweredIff(mode: Mode, env: Env, cfg: Limits.Config, ops: seq<Op>, req: Request, faults: Faults)
    requires Checks(env, cfg, ApiAfter(env, cfg, ops), req, faults).1.Skip?
    ensures Prepare(cfg, req).Ok?
    ensures Answered(env, cfg, ops, Replies(mode, env, cfg, ops), KeyOf(req), HashOf(env, req, Prepare(cfg, req).value))
       <==> KeyOf(req) !in Lost(mode, env, cfg, ops) && KeyOf(req) !in Gone(env, cfg, ops)
  {
    hide Lost, Gone, LiveBatches, Accounted, Answered, Replies, Checks, Prepare, HashOf, ApiAfter;
    AlwaysAccounted(mode, env, cfg, ops);
    ChecksSkip(env, cfg, ApiAfter(env, cfg, ops), req, faults);
    LiveIfAccounted(ApiAfter(env, cfg, ops).seen.batches, LiveBatches(mode, env, cfg, ops), Lost(mode, env, cfg, ops), Gone(env, cfg, ops), KeyOf(req));
    LiveIffAnswered(mode, env, cfg, ops, KeyOf(req), HashOf(env, req, Prepare(cfg, req).value));
  }
}
