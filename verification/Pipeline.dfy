/** The ingest handler end to end: what each request leaves behind, written directly or queued. */
module Pipeline {
  import opened Wrappers
  import opened Text
  import opened Select
  import opened Store
  import opened Ingest
  import Limits
  import Idempotency
  import PH = PayloadHash

  datatype RunInfo = RunInfo(project: string, status: string)

  /** The state every request reads and changes, whichever way batches are handed on. */
  datatype Api = Api(runs: map<string, RunInfo>, seen: Idempotency.Store, tracker: Limits.Tracker)

  datatype HttpError =
    | NotFound
    | BadRequest(rejection: Rejection)
    | ConflictingBatch(expectedHash: string, actualHash: string)
    | NotRunning
    | Unavailable
    | Internal

  datatype Reply = Refused(error: HttpError) | Answer(accepted: nat, duplicate: bool, warnings: seq<string>)

  // ------------------------------------------------------------------ the checks on one request

  datatype Prepared = Prepared(params: seq<Pair>, tags: seq<Pair>, rows: seq<MetricRow>)

  function Prepare(cfg: Limits.Config, req: Request): Result<Prepared, Rejection> {
    match ValidPairs(req.params, "parameters", PARAM_VALUE_MAX_LEN)
    case Err(e) => Err(e)
    case Ok(params) =>
      match ValidPairs(req.tags, "tags", cfg.maxTagValueLength)
      case Err(e) => Err(e)
      case Ok(tags) =>
        match Expand(req.metrics)
        case Err(e) => Err(e)
        case Ok(rows) => Ok(Prepared(params, tags, rows))
  }

  // What is hashed: no metric timestamp, and events as sent but for their level and source

  function MetricBits(env: Env): MetricRow -> seq<PH.MetricPayload> {
    (r: MetricRow) => [PH.MetricPayload(env.utf8(r.name), env.bits(r.value), r.step)]
  }

  function PairBits(env: Env): Pair -> seq<PH.PairPayload> {
    (p: Pair) => [PH.PairPayload(env.utf8(p.0), env.utf8(p.1))]
  }

  function EventBits(env: Env): EventData -> seq<PH.EventPayload> {
    (e: EventData) =>
      [PH.EventPayload(env.utf8(NormalLevel(e.level)), env.utf8(NormalSource(e.source)), env.utf8(e.message), e.step,
                       if e.timestamp.None? then None else Some(env.bits(e.timestamp.value)))]
  }

  function HashOf(env: Env, req: Request, p: Prepared): string {
    env.sha256(PH.Preimage(FlatMap(p.rows, MetricBits(env)), FlatMap(p.params, PairBits(env)), FlatMap(p.tags, PairBits(env)),
                           FlatMap(req.events, EventBits(env))))
  }

  function SaturatingI32(n: nat): int {
    if n > 0x7FFF_FFFF then 0x7FFF_FFFF else n
  }

  /** What `check_and_record` is asked. */
  function Ticket(env: Env, project: string, req: Request, p: Prepared): Idempotency.Request {
    Idempotency.Request(req.run, req.batch,
      Idempotency.Record(project, req.seqNo, HashOf(env, req, p),
        SaturatingI32(|p.rows|), SaturatingI32(|p.params|), SaturatingI32(|p.tags|), SaturatingI32(|req.events|)))
  }

  function LimitNotices(project: string, run: string, warnings: seq<Limits.Warning>): (notices: seq<Notice>)
    ensures |notices| == |warnings|
  {
    seq(|warnings|, i requires 0 <= i < |warnings| => OverLimit(project, run, warnings[i]))
  }

  function Rendered(env: Env, notices: seq<Notice>): (texts: seq<string>)
    ensures |texts| == |notices|
  {
    seq(|notices|, i requires 0 <= i < |notices| => env.render(notices[i]))
  }

  /** The notices of one request, in the order the handler collects them. */
  function Notices(project: string, req: Request, o: Idempotency.Outcome, v: Limits.Validation, nonFinite: nat, events: EventScreen)
    : seq<Notice>
  {
    (if o.OutOfOrder? then [ReceivedOutOfOrder(o.expectedSeq, o.actualSeq)] else [])
    + LimitNotices(project, req.run, v.warnings)
    + (if nonFinite > 0 then [NonFiniteMetrics(nonFinite)] else [])
    + events.notices
    + (if events.dropped > 0 then [EventsDropped(events.dropped)] else [])
  }

  /** The batch handed on: `build_queued_ingest_batch`, and the arguments of direct persistence. */
  function BatchOf(env: Env, project: string, req: Request, p: Prepared, o: Idempotency.Outcome, v: Limits.Validation): Batch {
    var names, events := ToSet(v.acceptedMetrics), SiftAll(env, req.events);
    var nonFinite := |Filter(p.rows, NotFinite(names))|;
    Batch(project, req.run, req.batch, HashOf(env, req, p), req.seqNo,
      Filter(p.rows, Kept(names)), p.params, v.acceptedTags, events.kept,
      Rendered(env, Notices(project, req, o, v, nonFinite, events)))
  }

  /** The store calls of one request. */
  datatype Call =
    FirstLookup | SecondLookup | MetricsCall | CountCall | TagsCall | ParamsCall | EventsCall | WarningsCall | EnqueueCall

  /** Calls that fail while one request is served, each after so many rows. */
  type Faults = map<Call, nat>

  function FaultAt(faults: Faults, call: Call): Option<nat> {
    if call in faults then Some(faults[call]) else None
  }

  /** Refused with nothing recorded, a repeat, refused after its key was recorded, or ready to hand on. */
  datatype Verdict = Reject(error: HttpError) | Skip | Abandon(error: HttpError) | HandOn(batch: Batch)

  predicate IsRunning(info: RunInfo) {
    Lower(info.status) == "running"
  }

  /** Everything before the batch is handed on. The batch id is recorded and the cardinality charged
      before the run is looked up again for its status. */
  function Checks(env: Env, cfg: Limits.Config, api: Api, req: Request, faults: Faults): (Api, Verdict) {
    if FirstLookup in faults then (api, Reject(Internal))
    else if req.run !in api.runs then (api, Reject(NotFound))
    else
      var project := api.runs[req.run].project;
      match Prepare(cfg, req)
      case Err(e) => (api, Reject(BadRequest(e)))
      case Ok(p) =>
        var (seen, outcome) := Idempotency.Checked(api.seen, Ticket(env, project, req, p));
        match outcome
        case Duplicate => (api.(seen := seen), Skip)
        case Conflict(expected, actual) => (api.(seen := seen), Reject(ConflictingBatch(expected, actual)))
        case _ =>
          var (tracker, v) := Limits.Validated(cfg, api.tracker, project, req.run, p.tags, Names(p.rows));
          var after := api.(seen := seen, tracker := tracker);
          if SecondLookup in faults then (after, Abandon(Internal))
          else if !IsRunning(api.runs[req.run]) then (after, Abandon(NotRunning))
          else (after, HandOn(BatchOf(env, project, req, p, outcome, v)))
  }

  /** Items a batch reports as accepted. */
  function Size(b: Batch): nat {
    |b.metrics| + |b.params| + |b.tags| + (|b.events| + |b.warnings|)
  }

  // ------------------------------------------------------------------ how one request is decided

  /** Params come before tags and tags before metrics; the first of the three at fault decides the error. */
  lemma PrepareDecides(cfg: Limits.Config, req: Request)
    ensures match Prepare(cfg, req)
      case Ok(p) =>
        && PairsDecided(req.params, "parameters", 4096, Ok(p.params)) && PairsDecided(req.tags, "tags", cfg.maxTagValueLength, Ok(p.tags))
        && MetricsDecided(req.metrics, Ok(p.rows))
      case Err(e) =>
        || PairsDecided(req.params, "parameters", 4096, Err(e))
        || (&& (exists params :: PairsDecided(req.params, "parameters", 4096, Ok(params)))
            && (|| PairsDecided(req.tags, "tags", cfg.maxTagValueLength, Err(e))
                || ((exists tags :: PairsDecided(req.tags, "tags", cfg.maxTagValueLength, Ok(tags))) && MetricsDecided(req.metrics, Err(e)))))
  {
    hide ValidPairs, Expand, PairsDecided, MetricsDecided;
    ValidPairsDecides(req.params, "parameters", 4096);
    ValidPairsDecides(req.tags, "tags", cfg.maxTagValueLength);
    ExpandDecides(req.metrics);
  }

  /** The verdict on a request, said of the state before it; a request that is rejected or skipped leaves that
      state as it was. */
  lemma ChecksDecide(env: Env, cfg: Limits.Config, api: Api, req: Request, faults: Faults)
    ensures var (after, verdict) := Checks(env, cfg, api, req, faults);
            && (verdict.Reject? || verdict.Skip? ==> after == api)
            && if FirstLookup in faults then verdict == Reject(Internal)
               else if req.run !in api.runs then verdict == Reject(NotFound)
               else
                 match Prepare(cfg, req)
                 case Err(e) => verdict == Reject(BadRequest(e))
                 case Ok(p) =>
                   var key, hash := (req.run, req.batch), HashOf(env, req, p);
                   if key in api.seen.batches then
                     verdict == if api.seen.batches[key].payloadHash == hash then Skip
                                else Reject(ConflictingBatch(api.seen.batches[key].payloadHash, hash))
                   else if SecondLookup in faults then verdict == Abandon(Internal)
                   else if Lower(api.runs[req.run].status) == "running" then verdict.HandOn?
                   else verdict == Abandon(NotRunning)
  {
    hide Prepare, HashOf, Limits.Validated, BatchOf, Lower;
  }

  // ------------------------------------------------------------------ conservation over one request

  /** Every request handed on accounts for all it carried: its values are persisted, dropped for
      cardinality or dropped as not finite; its events are kept or dropped; its params are all kept; its
      tags are accepted or dropped; and whatever is dropped leaves a warning. */
  lemma IngestConserves(env: Env, cfg: Limits.Config, api: Api, req: Request, faults: Faults)
    requires Checks(env, cfg, api, req, faults).1.HandOn?
    ensures var b := Checks(env, cfg, api, req, faults).1.batch;
            var p, project := Prepare(cfg, req).value, api.runs[req.run].project;
            var v := Limits.Validated(cfg, api.tracker, project, req.run, p.tags, Names(p.rows)).1;
            var nonFinite := |Filter(p.rows, NotFinite(ToSet(v.acceptedMetrics)))|;
            && TotalWidth(req.metrics) == |b.metrics| + |v.droppedMetrics| + nonFinite
            && |b.params| == |req.params|
            && |b.tags| + |v.droppedTags| == |req.tags|
            && |b.events| + SiftAll(env, req.events).dropped == |req.events|
            && (TotalWidth(req.metrics) + |req.tags| + |req.events| > |b.metrics| + |b.tags| + |b.events| ==> b.warnings != [])
  {
    hide Limits.Validated, ValidPairs, Expand, Filter, Idempotency.Checked, Ticket, HashOf, Rendered, Lower, SiftAll, TotalWidth;
    var p, project := Prepare(cfg, req).value, api.runs[req.run].project;
    var v := Limits.Validated(cfg, api.tracker, project, req.run, p.tags, Names(p.rows)).1;
    ExpandConserves(req.metrics);
    MetricsConserved(cfg, api.tracker, project, req.run, p.tags, p.rows);
    EventsConserved(env, req.events);
    ValidPairsDecides(req.params, "parameters", PARAM_VALUE_MAX_LEN);
    ValidPairsDecides(req.tags, "tags", cfg.maxTagValueLength);
    TagsConserved(cfg, api.tracker, project, req.run, p.tags, Names(p.rows));
  }

  lemma TagsConserved(cfg: Limits.Config, t: Limits.Tracker, project: string, run: string, tags: seq<Pair>, names: seq<string>)
    ensures var v := Limits.Validated(cfg, t, project, run, tags, names).1;
            && |v.acceptedTags| + |v.droppedTags| == |tags|
            && (v.droppedTags != [] || v.droppedMetrics != [] ==> v.warnings != [])
  {
    hide Limits.Validated, Filter, Limits.TagAdmitted, Limits.NameAdmitted, Limits.ScanTags, Limits.ScanNames;
    Limits.ValidatePartitions(cfg, t, project, run, tags, names);
    var end := Limits.BatchTags(cfg, t, project, run, tags);
    FilterPartition(tags, x => Limits.TagAdmitted(cfg, end, x), x => !Limits.TagAdmitted(cfg, end, x));
  }

  /** The name is short enough, and the tracker has it for the run. */
  predicate NameTracked(cfg: Limits.Config, t: Limits.Tracker, run: string, name: string) {
    Utf8Len(name) <= cfg.maxMetricNameLength && name in Limits.RunOf(t, run).metricNames
  }

  /** The tag is short enough, and the tracker has its key for the run and the pair for the project. */
  predicate TagTracked(cfg: Limits.Config, t: Limits.Tracker, project: string, run: string, tag: Pair) {
    && Utf8Len(tag.0) <= cfg.maxTagKeyLength && Utf8Len(tag.1) <= cfg.maxTagValueLength
    && tag.0 in Limits.RunOf(t, run).tagKeys && tag in Limits.PairsOf(t, project)
  }

  lemma AcceptedNames(cfg: Limits.Config, t: Limits.Tracker, project: string, run: string, tags: seq<Pair>, names: seq<string>)
    ensures var (after, v) := Limits.Validated(cfg, t, project, run, tags, names);
            forall n :: n in names ==> (n in v.acceptedMetrics <==> NameTracked(cfg, after, run, n))
  {
    hide Filter, Limits.ScanTags, Limits.ScanNames, Utf8Len;
    var (after, v) := Limits.Validated(cfg, t, project, run, tags, names);
    Limits.ValidatePartitions(cfg, t, project, run, tags, names);
    var end := Limits.BatchNames(cfg, t, run, names, Limits.BatchTags(cfg, t, project, run, tags).warnings);
    forall n | n in names ensures n in v.acceptedMetrics <==> NameTracked(cfg, after, run, n) {
      FilterMember(names, y => Limits.NameAdmitted(cfg, end, y), n);
    }
  }

  lemma TagLengths(cfg: Limits.Config, tag: Pair)
    ensures Limits.TagLengthWarning(cfg, tag) == [] <==> Utf8Len(tag.0) <= cfg.maxTagKeyLength && Utf8Len(tag.1) <= cfg.maxTagValueLength
  {
    hide Utf8Len;
  }

  /** Which tags the batch keeps. */
  lemma TagsPicked(cfg: Limits.Config, t: Limits.Tracker, project: string, run: string, tags: seq<Pair>, names: seq<string>) returns (picks: seq<nat>)
    ensures var (after, v) := Limits.Validated(cfg, t, project, run, tags, names);
            && Rising(picks, |tags|) && |picks| == |v.acceptedTags|
            && (forall k :: 0 <= k < |picks| ==> picks[k] < |tags| && v.acceptedTags[k] == tags[picks[k]])
            && (forall i: nat :: i < |tags| ==> (i in picks <==> TagTracked(cfg, after, project, run, tags[i])))
  {
    hide Filter, Rising, Limits.ScanTags, Limits.ScanNames, Limits.TagLengthWarning, Utf8Len;
    Limits.ValidatePartitions(cfg, t, project, run, tags, names);
    var end := Limits.BatchTags(cfg, t, project, run, tags);
    picks := FilterPicks(tags, x => Limits.TagAdmitted(cfg, end, x));
    forall i: nat | i < |tags|
      ensures Limits.TagAdmitted(cfg, end, tags[i]) <==>
              TagTracked(cfg, Limits.Validated(cfg, t, project, run, tags, names).0, project, run, tags[i])
    {
      TagLengths(cfg, tags[i]);
    }
  }

  /** Which rows the batch keeps. */
  lemma RowsPicked(cfg: Limits.Config, t: Limits.Tracker, project: string, run: string, tags: seq<Pair>, rows: seq<MetricRow>) returns (picks: seq<nat>)
    ensures var (after, v) := Limits.Validated(cfg, t, project, run, tags, Names(rows));
            var kept := Filter(rows, Kept(ToSet(v.acceptedMetrics)));
            && Rising(picks, |rows|) && |picks| == |kept|
            && (forall k :: 0 <= k < |picks| ==> picks[k] < |rows| && kept[k] == rows[picks[k]])
            && (forall i: nat :: i < |rows| ==> (i in picks <==> RowPasses(cfg, after, run, rows[i])))
  {
    hide Filter, Rising, Limits.Validated, NameTracked;
    var (after, v) := Limits.Validated(cfg, t, project, run, tags, Names(rows));
    AcceptedNames(cfg, t, project, run, tags, Names(rows));
    picks := FilterPicks(rows, Kept(ToSet(v.acceptedMetrics)));
    forall i: nat | i < |rows| ensures Kept(ToSet(v.acceptedMetrics))(rows[i]) <==> RowPasses(cfg, after, run, rows[i]) {
      assert Names(rows)[i] == rows[i].name;
    }
  }

  /** The row has a tracked name, a finite value and a finite timestamp if any. */
  predicate RowPasses(cfg: Limits.Config, t: Limits.Tracker, run: string, row: MetricRow) {
    NameTracked(cfg, t, run, row.name) && row.value.Finite? && (row.timestamp.Some? ==> row.timestamp.value.Finite?)
  }

  /** A batch is handed on only for a running run, as that run's. Of the rows that the metrics of the request
      stand for it has, in order, exactly those with a tracked name, a finite value and no timestamp that is
      not finite; its params are the request's under canonical keys; of the request's tags, under canonical
      keys, it has in order exactly the tracked ones; its events are, in order, those of the request that are
      neither blank nor unsafe, each as it should be written. */
  lemma HandedOnSound(env: Env, cfg: Limits.Config, api: Api, req: Request, faults: Faults)
    returns (rows: seq<MetricRow>, tags: seq<Pair>, screen: EventScreen, rowPicks: seq<nat>, tagPicks: seq<nat>, kept: seq<nat>, unsafe: seq<nat>)
    requires Checks(env, cfg, api, req, faults).1.HandOn?
    ensures var b := Checks(env, cfg, api, req, faults).1.batch;
            && req.run in api.runs && Lower(api.runs[req.run].status) == "running"
            && b.run == req.run && b.id == req.batch && b.seqNo == req.seqNo && b.project == api.runs[req.run].project
    ensures var (after, verdict) := Checks(env, cfg, api, req, faults);
            var metrics := verdict.batch.metrics;
            && MetricsDecided(req.metrics, Ok(rows)) && Rising(rowPicks, |rows|) && |rowPicks| == |metrics|
            && (forall k :: 0 <= k < |rowPicks| ==> rowPicks[k] < |rows| && metrics[k] == rows[rowPicks[k]])
            && (forall i: nat :: i < |rows| ==> (i in rowPicks <==> RowPasses(cfg, after.tracker, req.run, rows[i])))
            && after.tracker == Limits.Validated(cfg, api.tracker, api.runs[req.run].project, req.run, tags, Names(rows)).0
    ensures PairsDecided(req.params, "parameters", 4096, Ok(Checks(env, cfg, api, req, faults).1.batch.params))
    ensures var (after, verdict) := Checks(env, cfg, api, req, faults);
            var b := verdict.batch;
            && PairsDecided(req.tags, "tags", cfg.maxTagValueLength, Ok(tags)) && Rising(tagPicks, |tags|) && |tagPicks| == |b.tags|
            && (forall k :: 0 <= k < |tagPicks| ==> tagPicks[k] < |tags| && b.tags[k] == tags[tagPicks[k]])
            && (forall i: nat :: i < |tags| ==> (i in tagPicks <==> TagTracked(cfg, after.tracker, b.project, req.run, tags[i])))
    ensures screen.kept == Checks(env, cfg, api, req, faults).1.batch.events && EventsDecided(env, req.events, screen, kept, unsafe)
  {
    hide Limits.Validated, ValidPairs, Expand, Filter, Kept, NotFinite, Idempotency.Checked, Ticket, HashOf, Rendered, Lower, SiftAll, PairsDecided, MetricsDecided, EventsDecided, Names, RowPasses, TagTracked, Rising;
    var p, project := Prepare(cfg, req).value, api.runs[req.run].project;
    rows, tags, screen := p.rows, p.tags, SiftAll(env, req.events);
    rowPicks := RowsPicked(cfg, api.tracker, project, req.run, p.tags, p.rows);
    tagPicks := TagsPicked(cfg, api.tracker, project, req.run, p.tags, Names(p.rows));
    kept, unsafe := EventsPicked(env, req.events);
    ExpandDecides(req.metrics);
    ValidPairsDecides(req.params, "parameters", PARAM_VALUE_MAX_LEN);
    ValidPairsDecides(req.tags, "tags", cfg.maxTagValueLength);
  }

  // ------------------------------------------------------------------ what is hashed, recorded and warned of

  function PayloadOf(env: Env, p: Pair): PH.PairPayload {
    PH.PairPayload(env.utf8(p.0), env.utf8(p.1))
  }

  /** The event as it is hashed: its level and source normalized, its message as sent. */
  predicate IsEventPayload(env: Env, e: EventData, payload: PH.EventPayload) {
    && payload.message == env.utf8(e.message) && payload.step == e.step
    && payload.timestamp == (if e.timestamp.None? then None else Some(env.bits(e.timestamp.value)))
    && payload.level == env.utf8(NormalLevel(e.level)) && IsLevelOf(e.level, NormalLevel(e.level))
    && payload.source == env.utf8(NormalSource(e.source)) && IsSourceOf(e.source, NormalSource(e.source))
  }

  lemma {:induction false} FlatMapSingles<T, U>(s: seq<T>, f: T -> seq<U>)
    requires forall x :: |f(x)| == 1
    ensures |FlatMap(s, f)| == |s| && forall i :: 0 <= i < |s| ==> FlatMap(s, f)[i] == f(s[i])[0]
    decreases |s|
  {
    if s != [] { FlatMapSingles(s[..|s| - 1], f); }
  }

  /** The hash is that of every row with its name, value and step, every param, every tag and every event;
      only the timestamps of metrics are left out. */
  lemma HashCovers(env: Env, req: Request, p: Prepared) returns (c: PH.Content)
    ensures HashOf(env, req, p) == env.sha256(PH.BytesOf(c))
    ensures |c.metrics| == |p.rows| && forall i :: 0 <= i < |p.rows| ==>
              c.metrics[i] == PH.MetricPayload(env.utf8(p.rows[i].name), env.bits(p.rows[i].value), p.rows[i].step)
    ensures |c.params| == |p.params| && forall i :: 0 <= i < |p.params| ==> c.params[i] == PayloadOf(env, p.params[i])
    ensures |c.tags| == |p.tags| && forall i :: 0 <= i < |p.tags| ==> c.tags[i] == PayloadOf(env, p.tags[i])
    ensures |c.events| == |req.events| && forall i :: 0 <= i < |req.events| ==> IsEventPayload(env, req.events[i], c.events[i])
  {
    hide FlatMap, NormalLevel, NormalSource, IsLevelOf, IsSourceOf, PH.Preimage;
    c := PH.Content(FlatMap(p.rows, MetricBits(env)), FlatMap(p.params, PairBits(env)), FlatMap(p.tags, PairBits(env)), FlatMap(req.events, EventBits(env)));
    FlatMapSingles(p.rows, MetricBits(env));
    FlatMapSingles(p.params, PairBits(env));
    FlatMapSingles(p.tags, PairBits(env));
    FlatMapSingles(req.events, EventBits(env));
    forall i | 0 <= i < |req.events| ensures IsEventPayload(env, req.events[i], c.events[i]) {
      LevelStands(req.events[i].level);
      SourceStands(req.events[i].source);
    }
  }

  /** `x` is `n`, or the largest 32-bit number if `n` is larger. */
  predicate IsCapped(x: int, n: nat) {
    x <= 2147483647 && (x == n || (n > 2147483647 && x == 2147483647))
  }

  /** What a new batch is recorded with. */
  lemma RecordKept(env: Env, cfg: Limits.Config, api: Api, req: Request, faults: Faults)
    requires var verdict := Checks(env, cfg, api, req, faults).1; verdict.HandOn? || verdict.Abandon?
    ensures Prepare(cfg, req).Ok? && req.run in api.runs
    ensures var after, p := Checks(env, cfg, api, req, faults).0, Prepare(cfg, req).value;
            && (req.run, req.batch) in after.seen.batches
            && var record := after.seen.batches[(req.run, req.batch)];
               && record.project == api.runs[req.run].project && record.seqNo == req.seqNo && record.payloadHash == HashOf(env, req, p)
               && IsCapped(record.metricCount, |p.rows|) && IsCapped(record.paramCount, |req.params|)
               && IsCapped(record.tagCount, |req.tags|) && IsCapped(record.eventCount, |req.events|)
  {
    hide ValidPairs, Expand, Limits.Validated, HashOf, BatchOf, Lower;
    ValidPairsDecides(req.params, "parameters", PARAM_VALUE_MAX_LEN);
    ValidPairsDecides(req.tags, "tags", cfg.maxTagValueLength);
  }

  /** The warnings of a batch: that it came out of order, if its number is positive and below the highest seen
      of the run; those of the tracker; the rows dropped for not being finite, if any; each unsafe event; the
      number of dropped events, if any. */
  lemma WarningsStand(env: Env, cfg: Limits.Config, api: Api, req: Request, faults: Faults)
    returns (nonFinite: nat, dropped: nat)
    requires Checks(env, cfg, api, req, faults).1.HandOn?
    ensures req.run in api.runs && Prepare(cfg, req).Ok?
    ensures var b, p, project := Checks(env, cfg, api, req, faults).1.batch, Prepare(cfg, req).value, api.runs[req.run].project;
            var v, screen := Limits.Validated(cfg, api.tracker, project, req.run, p.tags, Names(p.rows)).1, SiftAll(env, req.events);
            var current := Idempotency.Current(api.seen, req.run);
            var all := (if 0 < req.seqNo && req.seqNo < current then [ReceivedOutOfOrder(current, req.seqNo)] else [])
                       + LimitNotices(project, req.run, v.warnings)
                       + (if nonFinite == 0 then [] else [NonFiniteMetrics(nonFinite)])
                       + screen.notices
                       + (if dropped == 0 then [] else [EventsDropped(dropped)]);
            && |b.warnings| == |all| && (forall i :: 0 <= i < |all| ==> b.warnings[i] == env.render(all[i]))
            && |p.rows| == |b.metrics| + |v.droppedMetrics| + nonFinite && |req.events| == |b.events| + dropped
  {
    hide ValidPairs, Expand, Limits.Validated, Filter, HashOf, Lower, SiftAll, LimitNotices;
    var p, project := Prepare(cfg, req).value, api.runs[req.run].project;
    var v, screen := Limits.Validated(cfg, api.tracker, project, req.run, p.tags, Names(p.rows)).1, SiftAll(env, req.events);
    MetricsConserved(cfg, api.tracker, project, req.run, p.tags, p.rows);
    EventsConserved(env, req.events);
    nonFinite, dropped := |Filter(p.rows, NotFinite(ToSet(v.acceptedMetrics)))|, screen.dropped;
  }

  // ------------------------------------------------------------------ handing on

  function RowsWritten(t: Tables, b: Batch, faults: Faults): (Tables, bool) {
    if b.metrics == [] then (t, true)
    else
      var fault := FaultAt(faults, MetricsCall);
      var t1 := InsertMetrics(t, b.run, RowsDone(b.metrics, fault));
      if fault.Some? || CountCall in faults then (t1, false)
      else (IncrementMetricsCount(t1, b.run, |b.metrics|), true)
  }

  function TagsWritten(t: Tables, b: Batch, faults: Faults): (Tables, bool) {
    var fault := FaultAt(faults, TagsCall);
    if b.tags == [] then (t, true) else (SetTags(t, b.run, RowsDone(b.tags, fault)), fault.None?)
  }

  function ParamsWritten(t: Tables, b: Batch, faults: Faults): (Tables, bool) {
    var fault := FaultAt(faults, ParamsCall);
    if b.params == [] then (t, true) else (InsertParams(t, b.run, RowsDone(b.params, fault)), fault.None?)
  }

  function EventsWritten(t: Tables, b: Batch, faults: Faults): (Tables, bool) {
    var fault := FaultAt(faults, EventsCall);
    if b.events == [] then (t, true) else (InsertEvents(t, b.run, RowsDone(b.events, fault)), fault.None?)
  }

  /** A failure to write the warning events is only logged; the count of inserted events then leaves
      them out. */
  function WarningsWritten(t: Tables, b: Batch, faults: Faults): (Tables, nat) {
    var fault := FaultAt(faults, WarningsCall);
    if b.warnings == [] then (t, 0)
    else (InsertEvents(t, b.run, RowsDone(WarningEvents(b.warnings), fault)), if fault.None? then |b.warnings| else 0)
  }

  /** `persist_ingest_batch_to_sqlite`: the tables it leaves, and the number of events it reports, if it
      does not fail. */
  function PersistUnder(t: Tables, b: Batch, faults: Faults): (Tables, Option<nat>) {
    var (t1, ok1) := RowsWritten(t, b, faults);
    if !ok1 then (t1, None)
    else
      var (t2, ok2) := TagsWritten(t1, b, faults);
      if !ok2 then (t2, None)
      else
        var (t3, ok3) := ParamsWritten(t2, b, faults);
        if !ok3 then (t3, None)
        else
          var (t4, ok4) := EventsWritten(t3, b, faults);
          if !ok4 then (t4, None)
          else
            var (t5, warned) := WarningsWritten(t4, b, faults);
            (t5, Some(|b.events| + warned))
  }

  /** Without failures, direct persistence writes the batch and reports all its events and warnings. */
  lemma PersistFaultless(t: Tables, b: Batch)
    ensures PersistUnder(t, b, map[]) == (Persisted(t, b), Some(|b.events| + |b.warnings|))
  {
    hide InsertMetrics, IncrementMetricsCount, SetTags, InsertParams, InsertEvents, WarningEvents;
  }

  /** Whatever fails, nothing is lost and the count stays within the rows. */
  lemma PersistSafe(t: Tables, b: Batch, faults: Faults, run: string)
    requires TableOf(t, run).metricsCount <= |TableOf(t, run).metrics|
    ensures var u := PersistUnder(t, b, faults).0;
            && TableOf(t, run).metrics <= TableOf(u, run).metrics
            && TableOf(u, run).metricsCount <= |TableOf(u, run).metrics|
  {
    hide SetTags, InsertParams, InsertEvents, TableOf, InsertMetrics, IncrementMetricsCount, Take;
    var (t1, ok1) := RowsWritten(t, b, faults);
    RowsSafe(t, b, faults, run);
    var (t2, ok2) := TagsWritten(t1, b, faults);
    LabelWritesKeepRows(t1, b.run, RowsDone(b.tags, FaultAt(faults, TagsCall)), [], run);
    var (t3, ok3) := ParamsWritten(t2, b, faults);
    LabelWritesKeepRows(t2, b.run, RowsDone(b.params, FaultAt(faults, ParamsCall)), [], run);
    var (t4, ok4) := EventsWritten(t3, b, faults);
    LabelWritesKeepRows(t3, b.run, [], RowsDone(b.events, FaultAt(faults, EventsCall)), run);
    LabelWritesKeepRows(t4, b.run, [], RowsDone(WarningEvents(b.warnings), FaultAt(faults, WarningsCall)), run);
  }

  lemma RowsSafe(t: Tables, b: Batch, faults: Faults, run: string)
    requires TableOf(t, run).metricsCount <= |TableOf(t, run).metrics|
    ensures var u := RowsWritten(t, b, faults).0;
            && TableOf(t, run).metrics <= TableOf(u, run).metrics
            && TableOf(u, run).metricsCount <= |TableOf(u, run).metrics|
  {
  }

  /** Some call that this batch needs fails; a failed insert of the warnings does not count. */
  predicate PersistFails(b: Batch, faults: Faults) {
    || (b.metrics != [] && (MetricsCall in faults || CountCall in faults))
    || (b.tags != [] && TagsCall in faults)
    || (b.params != [] && ParamsCall in faults)
    || (b.events != [] && EventsCall in faults)
  }

  /** The warnings that reach the store. */
  function WarningsKept(b: Batch, faults: Faults): seq<string> {
    RowsDone(b.warnings, FaultAt(faults, WarningsCall))
  }

  /** Direct persistence fails exactly if a call it needs fails, and otherwise writes the whole batch, up
      to warnings whose own insert failed. */
  lemma PersistExact(t: Tables, b: Batch, faults: Faults)
    ensures PersistUnder(t, b, faults).1.None? <==> PersistFails(b, faults)
    ensures !PersistFails(b, faults) ==>
              PersistUnder(t, b, faults).0 == Persisted(t, b.(warnings := WarningsKept(b, faults)))
  {
    hide InsertMetrics, IncrementMetricsCount, SetTags, InsertParams, InsertEvents, WarningEvents, Take;
    KeptWarnings(b, faults);
    NothingToInsert(t, b.run);
    if !PersistFails(b, faults) {
      var t4 := Persisted(t, b.(warnings := []));
      NothingToInsert(t4, b.run);
    }
  }

  lemma KeptWarnings(b: Batch, faults: Faults)
    ensures WarningEvents(WarningsKept(b, faults)) == RowsDone(WarningEvents(b.warnings), FaultAt(faults, WarningsCall))
    ensures WarningsKept(b, faults) == [] <==> RowsDone(WarningEvents(b.warnings), FaultAt(faults, WarningsCall)) == []
  {
  }

  /** Whatever fails, no table loses anything. */
  lemma PersistGrows(t: Tables, b: Batch, faults: Faults)
    ensures Grows(t, PersistUnder(t, b, faults).0)
  {
    hide Grows, InsertMetrics, IncrementMetricsCount, SetTags, InsertParams, InsertEvents, Take, WarningEvents;
    var (t1, ok1) := RowsWritten(t, b, faults);
    RowsGrow(t, b, faults);
    var (t2, ok2) := TagsWritten(t1, b, faults);
    GrowsRefl(t1);
    TagsGrow(t1, b.run, RowsDone(b.tags, FaultAt(faults, TagsCall)));
    GrowsTransitive(t, t1, t2);
    var (t3, ok3) := ParamsWritten(t2, b, faults);
    GrowsRefl(t2);
    ParamsGrow(t2, b.run, RowsDone(b.params, FaultAt(faults, ParamsCall)));
    GrowsTransitive(t, t2, t3);
    var (t4, ok4) := EventsWritten(t3, b, faults);
    GrowsRefl(t3);
    EventsGrow(t3, b.run, RowsDone(b.events, FaultAt(faults, EventsCall)));
    GrowsTransitive(t, t3, t4);
    var t5 := WarningsWritten(t4, b, faults).0;
    GrowsRefl(t4);
    EventsGrow(t4, b.run, RowsDone(WarningEvents(b.warnings), FaultAt(faults, WarningsCall)));
    GrowsTransitive(t, t4, t5);
  }

  lemma RowsGrow(t: Tables, b: Batch, faults: Faults)
    ensures Grows(t, RowsWritten(t, b, faults).0)
  {
    hide Grows, InsertMetrics, IncrementMetricsCount, Take;
    var t1 := InsertMetrics(t, b.run, RowsDone(b.metrics, FaultAt(faults, MetricsCall)));
    GrowsRefl(t);
    MetricsGrow(t, b.run, RowsDone(b.metrics, FaultAt(faults, MetricsCall)));
    CountGrows(t1, b.run, |b.metrics|);
    GrowsTransitive(t, t1, IncrementMetricsCount(t1, b.run, |b.metrics|));
  }

  // ------------------------------------------------------------------ exactly what a persist leaves

  /** The rows, the count, the pairs and the events that one call of direct persistence writes. */
  datatype Writes = Writes(metrics: seq<MetricRow>, counted: nat, tags: seq<Pair>, params: seq<Pair>, events: seq<RunEvent>)

  function WritesOf(b: Batch, faults: Faults): Writes {
    if b.metrics != [] && (MetricsCall in faults || CountCall in faults) then
      Writes(RowsDone(b.metrics, FaultAt(faults, MetricsCall)), 0, [], [], [])
    else if b.tags != [] && TagsCall in faults then
      Writes(b.metrics, |b.metrics|, Take(b.tags, faults[TagsCall]), [], [])
    else if b.params != [] && ParamsCall in faults then
      Writes(b.metrics, |b.metrics|, b.tags, Take(b.params, faults[ParamsCall]), [])
    else if b.events != [] && EventsCall in faults then
      Writes(b.metrics, |b.metrics|, b.tags, b.params, Take(b.events, faults[EventsCall]))
    else
      Writes(b.metrics, |b.metrics|, b.tags, b.params, b.events + WarningEvents(WarningsKept(b, faults)))
  }

  function Applied(r: RunTables, w: Writes): RunTables {
    RunTables(r.metrics + w.metrics, r.metricsCount + w.counted, Upsert(r.tags, w.tags), Upsert(r.params, w.params), r.events + w.events)
  }

  lemma AppliedNothing(r: RunTables)
    ensures r.metrics + [] == r.metrics && r.events + [] == r.events && Upsert(r.tags, []) == r.tags && Upsert(r.params, []) == r.params
  {
  }

  lemma RowsWrites(t: Tables, b: Batch, faults: Faults, run: string)
    ensures var r, (u, ok) := TableOf(t, run), RowsWritten(t, b, faults);
            && ok == !(b.metrics != [] && (MetricsCall in faults || CountCall in faults))
            && TableOf(u, run) == if run != b.run then r
                                  else if ok then r.(metrics := r.metrics + b.metrics, metricsCount := r.metricsCount + |b.metrics|)
                                  else r.(metrics := r.metrics + RowsDone(b.metrics, FaultAt(faults, MetricsCall)))
  {
    hide TableOf, InsertMetrics, IncrementMetricsCount, Take;
    var r, rows := TableOf(t, run), RowsDone(b.metrics, FaultAt(faults, MetricsCall));
    InsertEffects(t, b.run, rows, run);
    RowEffects(t, b.run, b.metrics, run);
    assert r.metrics + [] == r.metrics;
  }

  lemma LabelWrites(t: Tables, b: Batch, faults: Faults, run: string)
    ensures var r, (u, ok) := TableOf(t, run), TagsWritten(t, b, faults);
            && ok == !(b.tags != [] && TagsCall in faults)
            && TableOf(u, run) == if run == b.run then r.(tags := Upsert(r.tags, RowsDone(b.tags, FaultAt(faults, TagsCall)))) else r
    ensures var r, (u, ok) := TableOf(t, run), ParamsWritten(t, b, faults);
            && ok == !(b.params != [] && ParamsCall in faults)
            && TableOf(u, run) == if run == b.run then r.(params := Upsert(r.params, RowsDone(b.params, FaultAt(faults, ParamsCall)))) else r
  {
    hide TableOf, SetTags, InsertParams, Upsert;
    AppliedNothing(TableOf(t, run));
    LabelEffects(t, b.run, RowsDone(b.tags, FaultAt(faults, TagsCall)), run);
    LabelEffects(t, b.run, RowsDone(b.params, FaultAt(faults, ParamsCall)), run);
  }

  lemma EventWrites(t: Tables, b: Batch, faults: Faults, run: string)
    ensures var r, (u, ok) := TableOf(t, run), EventsWritten(t, b, faults);
            && ok == !(b.events != [] && EventsCall in faults)
            && TableOf(u, run) == if run == b.run then r.(events := r.events + RowsDone(b.events, FaultAt(faults, EventsCall))) else r
    ensures var r, u := TableOf(t, run), WarningsWritten(t, b, faults).0;
            TableOf(u, run) == if run == b.run then r.(events := r.events + WarningEvents(WarningsKept(b, faults))) else r
  {
    hide TableOf, InsertEvents, WarningEvents;
    AppliedNothing(TableOf(t, run));
    EventEffects(t, b.run, RowsDone(b.events, FaultAt(faults, EventsCall)), run);
    EventEffects(t, b.run, RowsDone(WarningEvents(b.warnings), FaultAt(faults, WarningsCall)), run);
    KeptWarnings(b, faults);
    NoWarningsKept(b, faults);
  }

  /** Direct persistence writes exactly `WritesOf` in the batch's run, and nothing elsewhere, whatever fails. */
  lemma PersistWrites(t: Tables, b: Batch, faults: Faults, run: string)
    ensures TableOf(PersistUnder(t, b, faults).0, run)
         == if run == b.run then Applied(TableOf(t, run), WritesOf(b, faults)) else TableOf(t, run)
  {
    hide TableOf, Take, WarningEvents, Upsert, RowsWritten, TagsWritten, ParamsWritten, EventsWritten, WarningsWritten, WarningsKept;
    var r := TableOf(t, run);
    AppliedNothing(r);
    var (t1, ok1) := RowsWritten(t, b, faults);
    RowsWrites(t, b, faults, run);
    if ok1 {
      var (t2, ok2) := TagsWritten(t1, b, faults);
      LabelWrites(t1, b, faults, run);
      if ok2 {
        var (t3, ok3) := ParamsWritten(t2, b, faults);
        LabelWrites(t2, b, faults, run);
        if ok3 {
          var (t4, ok4) := EventsWritten(t3, b, faults);
          EventWrites(t3, b, faults, run);
          if ok4 {
            EventWrites(t4, b, faults, run);
            Associates(r.events, b.events, WarningEvents(WarningsKept(b, faults)));
          }
        }
      }
    }
  }

  lemma NoWarningsKept(b: Batch, faults: Faults)
    ensures b.warnings == [] ==> RowsDone(WarningEvents(b.warnings), FaultAt(faults, WarningsCall)) == []
  {
  }

  /** The pairs not yet written change nothing. */
  predicate PrefixSuffices(pairs: seq<Pair>, done: nat) {
    Upsert(map[], Take(pairs, done)) == Upsert(map[], pairs)
  }

  /** The first call that fails is the last that had anything to write, and what it had written is all
      there was to change. */
  predicate LeavesAll(b: Batch, faults: Faults) {
    if b.metrics != [] && (MetricsCall in faults || CountCall in faults) then false
    else if b.tags != [] && TagsCall in faults then PrefixSuffices(b.tags, faults[TagsCall]) && b.params == [] && b.events == []
    else if b.params != [] && ParamsCall in faults then PrefixSuffices(b.params, faults[ParamsCall]) && b.events == []
    else b.events != [] && EventsCall in faults ==> faults[EventsCall] >= |b.events|
  }

  /** The persist leaves, in whatever state the tables are, what a successful one without warnings leaves. */
  ghost predicate WritesAll(b: Batch, faults: Faults) {
    forall r :: Applied(r, WritesOf(b, faults)) == After(r, b.(warnings := []))
  }

  lemma SamePrefix(m: map<string, string>, pairs: seq<Pair>, done: nat)
    requires PrefixSuffices(pairs, done)
    ensures Upsert(m, Take(pairs, done)) == Upsert(m, pairs)
  {
    hide Upsert;
    UpsertOver(m, pairs);
    UpsertOver(m, Take(pairs, done));
  }

  lemma NoPairs(pairs: seq<Pair>)
    ensures Upsert(map[], pairs) == map[] <==> pairs == []
  {
    hide Upsert;
    UpsertKeys(map[], pairs);
    NoUpsert(map[]);
    if pairs != [] { assert pairs[0].0 in Upsert(map[], pairs); }
  }

  /** A persist that fails leaves the whole batch behind all the same if and only if the call that fails is
      the last with anything to write and had written all of it. */
  lemma FailedPersistLeavesAllIff(b: Batch, faults: Faults)
    requires PersistFails(b, faults)
    ensures WritesAll(b, faults) <==> LeavesAll(b, faults)
  {
    hide Upsert;
    var w := WritesOf(b, faults);
    if LeavesAll(b, faults) {
      forall r ensures Applied(r, w) == After(r, b.(warnings := [])) {
        AppliedIsAfter(r, b, faults);
      }
    }
    if WritesAll(b, faults) {
      var r := BLANK;
      assert Applied(r, w) == After(r, b.(warnings := []));
      NoUpsert(map[]);
      NoPairs(b.params);
      assert AllEvents(b.(warnings := [])) == b.events;
      assert [] + b.events == b.events && [] + w.events == w.events;
    }
  }

  lemma AppliedIsAfter(r: RunTables, b: Batch, faults: Faults)
    requires PersistFails(b, faults) && LeavesAll(b, faults)
    ensures Applied(r, WritesOf(b, faults)) == After(r, b.(warnings := []))
  {
    hide Upsert;
    assert AllEvents(b.(warnings := [])) == b.events;
    AppliedNothing(r);
    if b.tags != [] && TagsCall in faults {
      SamePrefix(r.tags, b.tags, faults[TagsCall]);
    } else if b.params != [] && ParamsCall in faults {
      SamePrefix(r.params, b.params, faults[ParamsCall]);
    }
  }
}
