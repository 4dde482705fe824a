/** What becomes of a batch that is sent again, after any history. */
module Resubmission {
  import opened Wrappers
  import Text
  import opened Select
  import opened Store
  import opened MetadataKeys
  import opened Ingest
  import opened Pipeline
  import opened Histories
  import Limits
  import PH = PayloadHash
  import DirectTables

  // ------------------------------------------------------------------ records stay

  /** No record of `api` is forgotten, deleted runs included. */
  ghost predicate Remembers(api: Api, later: Api) {
    forall k :: k in api.seen.batches ==> k in later.seen.batches && later.seen.batches[k] == api.seen.batches[k]
  }

  lemma StepRemembers(env: Env, cfg: Limits.Config, api: Api, op: Op)
    ensures Remembers(api, ApiStep(env, cfg, api, op))
  {
    hide Checks;
    if op.Submit? { ChecksRecord(env, cfg, api, op.req, op.faults); }
  }

  lemma {:induction false} HistoryRemembers(env: Env, cfg: Limits.Config, ops: seq<Op>, more: seq<Op>)
    ensures Remembers(ApiAfter(env, cfg, ops), ApiAfter(env, cfg, ops + more))
    decreases |more|
  {
    hide ApiStep;
    if more == [] {
      assert ops + more == ops;
    } else {
      var init, last := more[..|more| - 1], more[|more| - 1];
      HistoryRemembers(env, cfg, ops, init);
      assert (ops + more)[..|ops + more| - 1] == ops + init;
      StepRemembers(env, cfg, ApiAfter(env, cfg, ops + init), last);
    }
  }

  // ------------------------------------------------------------------ the same content in another order

  ghost predicate Reordered(req: Request, again: Request) {
    && again.run == req.run && again.batch == req.batch
    && multiset(again.metrics) == multiset(req.metrics) && multiset(again.params) == multiset(req.params)
    && multiset(again.tags) == multiset(req.tags) && multiset(again.events) == multiset(req.events)
  }

  function Canonical(namespace: string): Pair -> seq<Pair> {
    (p: Pair) => match CanonicalizeKey(p.0, namespace) case Ok(key) => [(key, p.1)] case Err(_) => []
  }

  ghost predicate NoPairFault(pairs: seq<Pair>, namespace: string, maxLen: nat) {
    forall p :: p in pairs ==> PairFault(p, namespace, maxLen).None?
  }

  lemma {:induction false} ValidPairsAre(pairs: seq<Pair>, namespace: string, maxLen: nat)
    ensures ValidPairs(pairs, namespace, maxLen).Ok? <==> NoPairFault(pairs, namespace, maxLen)
    ensures ValidPairs(pairs, namespace, maxLen).Ok? ==> ValidPairs(pairs, namespace, maxLen).value == FlatMap(pairs, Canonical(namespace))
    decreases |pairs|
  {
    hide CanonicalizeKey;
    if pairs != [] {
      var n := |pairs| - 1;
      ValidPairsAre(pairs[..n], namespace, maxLen);
      assert forall p :: p in pairs <==> p in pairs[..n] || p == pairs[n];
    }
  }

  ghost predicate NoMetricFault(metrics: seq<MetricData>) {
    forall m :: m in metrics ==> MetricFault(m).None?
  }

  lemma {:induction false} ExpandIs(metrics: seq<MetricData>)
    ensures Expand(metrics).Ok? <==> NoMetricFault(metrics)
    ensures Expand(metrics).Ok? ==> Expand(metrics).value == FlatMap(metrics, Rows)
    decreases |metrics|
  {
    hide Rows, MetricFault;
    if metrics != [] {
      var n := |metrics| - 1;
      ExpandIs(metrics[..n]);
      assert forall m :: m in metrics <==> m in metrics[..n] || m == metrics[n];
    }
  }

  lemma SameItems<T>(a: seq<T>, b: seq<T>)
    requires multiset(a) == multiset(b)
    ensures forall x :: x in a <==> x in b
  {
    assert forall x :: x in a <==> x in multiset(a);
    assert forall x :: x in b <==> x in multiset(b);
  }

  lemma ValidPairsReordered(pairs: seq<Pair>, again: seq<Pair>, namespace: string, maxLen: nat)
    requires multiset(again) == multiset(pairs) && ValidPairs(pairs, namespace, maxLen).Ok?
    ensures ValidPairs(again, namespace, maxLen).Ok?
    ensures multiset(ValidPairs(again, namespace, maxLen).value) == multiset(ValidPairs(pairs, namespace, maxLen).value)
  {
    hide ValidPairs, FlatMap, PairFault;
    SameItems(pairs, again);
    ValidPairsAre(pairs, namespace, maxLen);
    ValidPairsAre(again, namespace, maxLen);
    FlatMapPermuted(again, pairs, Canonical(namespace));
  }

  lemma ExpandReordered(metrics: seq<MetricData>, again: seq<MetricData>)
    requires multiset(again) == multiset(metrics) && Expand(metrics).Ok?
    ensures Expand(again).Ok? && multiset(Expand(again).value) == multiset(Expand(metrics).value)
  {
    hide Expand, FlatMap, MetricFault;
    SameItems(metrics, again);
    ExpandIs(metrics);
    ExpandIs(again);
    FlatMapPermuted(again, metrics, Rows);
  }

  lemma PrepareReordered(cfg: Limits.Config, req: Request, again: Request)
    requires Reordered(req, again) && Prepare(cfg, req).Ok?
    ensures Prepare(cfg, again).Ok?
    ensures var p, q := Prepare(cfg, req).value, Prepare(cfg, again).value;
            multiset(q.rows) == multiset(p.rows) && multiset(q.params) == multiset(p.params) && multiset(q.tags) == multiset(p.tags)
  {
    hide ValidPairs, Expand;
    ValidPairsReordered(req.params, again.params, "parameters", PARAM_VALUE_MAX_LEN);
    ValidPairsReordered(req.tags, again.tags, "tags", cfg.maxTagValueLength);
    ExpandReordered(req.metrics, again.metrics);
  }

  /** The hash of the request does not depend on the order of its parts: no metric name and step carries
      two values, and params, and tags, of one name give the same bytes in either order. */
  ghost predicate OrderFree(env: Env, p: Prepared) {
    && PH.MetricsAgree(FlatMap(p.rows, MetricBits(env)))
    && PH.PairsCommute(FlatMap(p.params, PairBits(env)))
    && PH.PairsCommute(FlatMap(p.tags, PairBits(env)))
  }

  lemma HashReordered(env: Env, cfg: Limits.Config, req: Request, again: Request)
    requires Reordered(req, again) && Prepare(cfg, req).Ok? && OrderFree(env, Prepare(cfg, req).value)
    ensures Prepare(cfg, again).Ok? && HashOf(env, again, Prepare(cfg, again).value) == HashOf(env, req, Prepare(cfg, req).value)
  {
    PrepareReordered(cfg, req, again);
    hide Prepare, FlatMap, PH.MetricsAgree, PH.PairsCommute, PH.Preimage, MetricBits, PairBits, EventBits;
    var p, q := Prepare(cfg, req).value, Prepare(cfg, again).value;
    FlatMapPermuted(q.rows, p.rows, MetricBits(env));
    FlatMapPermuted(q.params, p.params, PairBits(env));
    FlatMapPermuted(q.tags, p.tags, PairBits(env));
    FlatMapPermuted(again.events, req.events, EventBits(env));
    PH.PreimageOrderIndependent(
      FlatMap(p.rows, MetricBits(env)), FlatMap(p.params, PairBits(env)), FlatMap(p.tags, PairBits(env)), FlatMap(req.events, EventBits(env)),
      FlatMap(q.rows, MetricBits(env)), FlatMap(q.params, PairBits(env)), FlatMap(q.tags, PairBits(env)), FlatMap(again.events, EventBits(env)));
  }

  // ------------------------------------------------------------------ ever after

  lemma RecordedHash(env: Env, cfg: Limits.Config, api: Api, req: Request, faults: Faults)
    requires Checks(env, cfg, api, req, faults).1.HandOn? || Checks(env, cfg, api, req, faults).1.Abandon?
    ensures var after := Checks(env, cfg, api, req, faults).0;
            && Prepare(cfg, req).Ok? && KeyOf(req) in after.seen.batches
            && after.seen.batches[KeyOf(req)].payloadHash == HashOf(env, req, Prepare(cfg, req).value)
  {
    hide Prepare, Limits.Validated, HashOf, BatchOf, IsRunning, Names;
  }

  /** A repeat of a known run, or an unknown run. */
  function RepeatVerdict(api: Api, run: string): Verdict {
    if run in api.runs then Skip else Reject(NotFound)
  }

  lemma SkipsIf(env: Env, cfg: Limits.Config, api: Api, req: Request, faults: Faults)
    requires FirstLookup !in faults && Prepare(cfg, req).Ok? && KeyOf(req) in api.seen.batches
    requires api.seen.batches[KeyOf(req)].payloadHash == HashOf(env, req, Prepare(cfg, req).value)
    ensures Checks(env, cfg, api, req, faults).1 == RepeatVerdict(api, req.run)
  {
    hide Prepare, Limits.Validated, HashOf, BatchOf, IsRunning, Names;
  }

  /** Once a request has recorded its key, whether its batch was kept or lost, the same request in any
      order is answered as a duplicate after every later history, deletions included, whenever its run
      exists. */
  lemma DuplicateEverAfter(
    env: Env, cfg: Limits.Config, ops: seq<Op>, req: Request, faults: Faults, more: seq<Op>, again: Request, faults': Faults)
    requires var verdict := Checks(env, cfg, ApiAfter(env, cfg, ops), req, faults).1; verdict.HandOn? || verdict.Abandon?
    requires FirstLookup !in faults' && Reordered(req, again)
    requires again == req || (Prepare(cfg, req).Ok? && OrderFree(env, Prepare(cfg, req).value))
    ensures var later := ApiAfter(env, cfg, ops + [Submit(req, faults)] + more);
            Checks(env, cfg, later, again, faults').1 == RepeatVerdict(later, req.run)
  {
    var api := ApiAfter(env, cfg, ops);
    var sent := ops + [Submit(req, faults)];
    assert sent[..|sent| - 1] == ops;
    RecordedHash(env, cfg, api, req, faults);
    HistoryRemembers(env, cfg, sent, more);
    hide Checks, Prepare, HashOf, OrderFree;
    assert ApiAfter(env, cfg, sent) == Checks(env, cfg, api, req, faults).0;
    hide ApiAfter;
    if again != req { HashReordered(env, cfg, req, again); }
    SkipsIf(env, cfg, ApiAfter(env, cfg, sent + more), again, faults');
  }

  lemma {:induction false} LostStays(mode: Mode, env: Env, cfg: Limits.Config, ops: seq<Op>, more: seq<Op>)
    ensures Lost(mode, env, cfg, ops) <= Lost(mode, env, cfg, ops + more)
    decreases |more|
  {
    hide LosesKey, ApiAfter;
    if more == [] {
      assert ops + more == ops;
    } else {
      LostStays(mode, env, cfg, ops, more[..|more| - 1]);
      assert (ops + more)[..|ops + more| - 1] == ops + more[..|more| - 1];
    }
  }

  /** A request refused after recording its key, for whatever cause, in either mode: after every later
      history the batch is answered as a duplicate whenever its run exists, and no batch of its key is live. */
  lemma RefusedThenDuplicate(mode: Mode, env: Env, cfg: Limits.Config, ops: seq<Op>, req: Request, faults: Faults, more: seq<Op>, faults': Faults)
    requires LosesKey(mode, env, cfg, ApiAfter(env, cfg, ops), Submit(req, faults)) && FirstLookup !in faults'
    ensures var all := ops + [Submit(req, faults)] + more;
            && Checks(env, cfg, ApiAfter(env, cfg, all), req, faults').1 == RepeatVerdict(ApiAfter(env, cfg, all), req.run)
            && KeyOf(req) !in KeysOf(LiveBatches(mode, env, cfg, all))
  {
    var sent := ops + [Submit(req, faults)];
    DuplicateEverAfter(env, cfg, ops, req, faults, more, req, faults');
    DirectTables.LostOneMore(mode, env, cfg, ops, Submit(req, faults));
    LostStays(mode, env, cfg, sent, more);
    AlwaysAccounted(mode, env, cfg, sent + more);
    hide Checks, ApiAfter, LosesKey, Lost, Gone, LiveBatches, KeysOf, Fresh;
  }

  /** Such a refusal exists: a finished run and an empty batch. */
  lemma RefusalExists(env: Env, cfg: Limits.Config)
    ensures Checks(env, cfg, FRESH.(runs := map["r" := RunInfo("p", "finished")]), Request("r", "b", 0, [], [], [], []), map[]).1
         == Abandon(NotRunning)
  {
    hide Limits.Validated, BatchOf, Ticket;
    var req := Request("r", "b", 0, [], [], [], []);
    assert Prepare(cfg, req) == Ok(Prepared([], [], []));
    NotRunningWhenFinished("p");
  }

  lemma NotRunningWhenFinished(project: string)
    ensures !IsRunning(RunInfo(project, "finished"))
  {
    assert Text.Lower("finished")[0] == 'f';
  }

  /** A deleted run takes its tables with it, not its keys: once it is created again, a batch that had been
      handed on is a duplicate, and its run holds what its new creation wrote and nothing else. */
  lemma DeletedThenDuplicate(env: Env, cfg: Limits.Config, ops: seq<Op>, req: Request, faults: Faults, project: string, own: Own)
    requires Checks(env, cfg, ApiAfter(env, cfg, ops), req, faults).1.HandOn?
    ensures var all := ops + [Submit(req, faults)] + [DropRun(req.run), InitRun(req.run, project, own)];
            && Checks(env, cfg, ApiAfter(env, cfg, all), req, map[]).1 == Skip
            && TableOf(Direct(env, cfg, all).0.tables, req.run) == Applied(BLANK, OwnWrites(own))
  {
    hide Checks, ApiAfter, Direct, Prepare, OrderFree, Applied;
    DuplicateEverAfter(env, cfg, ops, req, faults, [DropRun(req.run), InitRun(req.run, project, own)], req, map[]);
    RunKnown(env, cfg, ops, req, faults);
    DeletedAndBack(env, cfg, ops + [Submit(req, faults)], req.run, project, own);
  }

  lemma DeletedAndBack(env: Env, cfg: Limits.Config, ops: seq<Op>, run: string, project: string, own: Own)
    requires run in ApiAfter(env, cfg, ops).runs
    ensures var all := ops + [DropRun(run), InitRun(run, project, own)];
            && run in ApiAfter(env, cfg, all).runs
            && TableOf(Direct(env, cfg, all).0.tables, run) == Applied(BLANK, OwnWrites(own))
  {
    hide Checks, ApiAfter, Direct, OwnTables, Applied, OwnWrites;
    var dropped, init := ops + [DropRun(run)], InitRun(run, project, own);
    assert ops + [DropRun(run), init] == dropped + [init];
    ApiOneMore(env, cfg, ops, DropRun(run));
    ApiOneMore(env, cfg, dropped, init);
    DirectTables.DirectOneMore(env, cfg, ops, DropRun(run));
    DirectTables.DirectOneMore(env, cfg, dropped, init);
    ModesShareApi(env, cfg, ops);
    ModesShareApi(env, cfg, dropped);
    OwnEffect(Direct(env, cfg, dropped).0.tables, run, own, run);
  }

  lemma ApiOneMore(env: Env, cfg: Limits.Config, ops: seq<Op>, op: Op)
    ensures ApiAfter(env, cfg, ops + [op]) == ApiStep(env, cfg, ApiAfter(env, cfg, ops), op)
  {
    hide ApiStep;
    assert (ops + [op])[..|ops|] == ops;
  }

  lemma RunKnown(env: Env, cfg: Limits.Config, ops: seq<Op>, req: Request, faults: Faults)
    requires Checks(env, cfg, ApiAfter(env, cfg, ops), req, faults).1.HandOn?
    ensures req.run in ApiAfter(env, cfg, ops + [Submit(req, faults)]).runs
  {
    ApiOneMore(env, cfg, ops, Submit(req, faults));
    ChecksRecord(env, cfg, ApiAfter(env, cfg, ops), req, faults);
    KnownRun(env, cfg, ApiAfter(env, cfg, ops), req, faults);
    hide Checks, ApiAfter;
  }

  lemma MetricsFail(t: Tables, b: Batch, rows: nat)
    requires b.metrics != []
    ensures PersistUnder(t, b, map[MetricsCall := rows]).1.None?
    ensures var r, q := TableOf(t, b.run), TableOf(PersistUnder(t, b, map[MetricsCall := rows]).0, b.run);
            q.metrics == r.metrics + Take(b.metrics, rows) && q.metricsCount == r.metricsCount
  {
    hide TableOf, PersistUnder, Upsert;
    PersistExact(t, b, map[MetricsCall := rows]);
    PersistWrites(t, b, map[MetricsCall := rows], b.run);
  }

  lemma FailedDirect(env: Env, cfg: Limits.Config, w: DirectWorld, req: Request, b: Batch, rows: nat)
    requires Checks(env, cfg, w.api, req, map[MetricsCall := rows]).1 == HandOn(b) && b.metrics != []
    ensures SubmitDirect(env, cfg, w, req, map[MetricsCall := rows])
         == (DirectWorld(Checks(env, cfg, w.api, req, map[MetricsCall := rows]).0, PersistUnder(w.tables, b, map[MetricsCall := rows]).0),
             Refused(Internal))
  {
    hide Checks, PersistUnder;
    MetricsFail(w.tables, b, rows);
  }

  lemma SkippedDirect(env: Env, cfg: Limits.Config, w: DirectWorld, req: Request)
    requires Checks(env, cfg, w.api, req, map[]).1 == Skip
    ensures SubmitDirect(env, cfg, w, req, map[]).0.tables == w.tables && SubmitDirect(env, cfg, w, req, map[]).1 == Answer(0, true, [])
  {
    hide Checks, PersistUnder;
  }

  /** Direct mode, store failure after recording: the request is refused, the rows before the failing
      statement stay behind uncounted, and the retry is answered as a duplicate that writes nothing. */
  lemma FailedPersistThenDuplicate(env: Env, cfg: Limits.Config, w: DirectWorld, req: Request, b: Batch, rows: nat)
    requires Checks(env, cfg, w.api, req, map[MetricsCall := rows]).1 == HandOn(b) && b.metrics != []
    ensures var (failed, refusal) := SubmitDirect(env, cfg, w, req, map[MetricsCall := rows]);
            var (again, answer) := SubmitDirect(env, cfg, failed, req, map[]);
            && refusal == Refused(Internal)
            && TableOf(failed.tables, b.run).metrics == TableOf(w.tables, b.run).metrics + Take(b.metrics, rows)
            && TableOf(failed.tables, b.run).metricsCount == TableOf(w.tables, b.run).metricsCount
            && answer == Answer(0, true, []) && again.tables == failed.tables
  {
    hide Checks, Prepare, HashOf, SubmitDirect, PersistUnder, TableOf, Take;
    RecordedHash(env, cfg, w.api, req, map[MetricsCall := rows]);
    KnownRun(env, cfg, w.api, req, map[MetricsCall := rows]);
    ChecksRecord(env, cfg, w.api, req, map[MetricsCall := rows]);
    FailedDirect(env, cfg, w, req, b, rows);
    MetricsFail(w.tables, b, rows);
    var failed := SubmitDirect(env, cfg, w, req, map[MetricsCall := rows]).0;
    SkipsIf(env, cfg, failed.api, req, map[]);
    SkippedDirect(env, cfg, failed, req);
  }

  // ------------------------------------------------------------------ what the hash leaves out

  ghost predicate SameButTimestamps(rows: seq<MetricRow>, others: seq<MetricRow>) {
    |rows| == |others| && forall i :: 0 <= i < |rows| ==> rows[i].(timestamp := None) == others[i].(timestamp := None)
  }

  lemma {:induction false} BitsIgnoreTimestamps(env: Env, rows: seq<MetricRow>, others: seq<MetricRow>)
    requires SameButTimestamps(rows, others)
    ensures FlatMap(rows, MetricBits(env)) == FlatMap(others, MetricBits(env))
    decreases |rows|
  {
    if rows != [] {
      var n := |rows| - 1;
      assert rows[n].(timestamp := None) == others[n].(timestamp := None);
      BitsIgnoreTimestamps(env, rows[..n], others[..n]);
    }
  }

  /** Metric timestamps are not hashed: two batches that differ in nothing else are duplicates. */
  lemma TimestampsNotHashed(env: Env, req: Request, p: Prepared, rows: seq<MetricRow>)
    requires SameButTimestamps(p.rows, rows)
    ensures HashOf(env, req, p.(rows := rows)) == HashOf(env, req, p)
  {
    BitsIgnoreTimestamps(env, p.rows, rows);
  }
}
