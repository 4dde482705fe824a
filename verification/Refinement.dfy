/** Queued mode refines direct mode. */
module Refinement {
  import opened Store
  import opened Ingest
  import opened Pipeline
  import opened Histories
  import Limits
  import Idempotency
  import Processor
  import Drain

  ghost predicate Faultless(ops: seq<Op>) {
    forall i :: 0 <= i < |ops| && ops[i].Submit? ==> ops[i].faults == map[]
  }

  const NOTHING := Own([], [], [])

  /** Only requests touch the tables: no run is deleted, and creating and ending runs writes nothing. */
  ghost predicate RequestsOnly(ops: seq<Op>) {
    forall i :: 0 <= i < |ops| ==> match ops[i]
      case Submit(_, _) => true
      case InitRun(_, _, own) => own == NOTHING
      case FinishRun(_, _, events) => events == []
      case DropRun(_) => false
  }

  /** Without failures, a request is answered alike in both modes, and what direct mode persists is what
      queued mode streams. */
  lemma LockstepOne(env: Env, cfg: Limits.Config, d: DirectWorld, q: QueuedWorld, op: Op)
    requires d.api == q.api && (op.Submit? ==> op.faults == map[])
    ensures DirectStep(env, cfg, d, op).1 == QueuedStep(env, cfg, q, op).1
    ensures op.Submit? ==>
              var more := KeptBy(QueuedMode, env, cfg, q.api, op);
              && QueuedStep(env, cfg, q, op).0.stream == q.stream + more
              && DirectStep(env, cfg, d, op).0.tables == if more == [] then d.tables else Persisted(d.tables, more[0])
  {
    hide Checks, PersistUnder, Persisted;
    if op.Submit? {
      var verdict := Checks(env, cfg, d.api, op.req, map[]).1;
      if verdict.HandOn? { PersistFaultless(d.tables, verdict.batch); }
      assert q.stream + [] == q.stream;
    }
  }

  /** Without failures the two modes answer every operation alike; where only requests touch the tables,
      those written directly are those of persisting the stream. */
  lemma {:induction false} Lockstep(env: Env, cfg: Limits.Config, ops: seq<Op>)
    requires Faultless(ops)
    ensures var (d, replies) := Direct(env, cfg, ops);
            var (q, answers) := Queued(env, cfg, ops);
            && d.api == q.api && replies == answers
            && (RequestsOnly(ops) ==> d.tables == PersistedAll(map[], q.stream))
    decreases |ops|
  {
    hide DirectStep, QueuedStep;
    ModesShareApi(env, cfg, ops);
    if ops != [] {
      var init, last := ops[..|ops| - 1], ops[|ops| - 1];
      assert forall i :: 0 <= i < |init| ==> init[i] == ops[i];
      Lockstep(env, cfg, init);
      var d, q := Direct(env, cfg, init).0, Queued(env, cfg, init).0;
      LockstepOne(env, cfg, d, q, last);
      hide PersistedAll, Persisted;
      if last.Submit? {
        OneMoreKept(d.tables, q.stream, KeptBy(QueuedMode, env, cfg, q.api, last));
      } else if RequestsOnly(ops) {
        OtherKeeps(env, cfg, d, q, last);
      }
    }
  }

  lemma OneMoreKept(t: Tables, stream: seq<Batch>, more: seq<Batch>)
    requires |more| <= 1
    ensures t == PersistedAll(map[], stream) ==>
              PersistedAll(map[], stream + more) == if more == [] then t else Persisted(t, more[0])
  {
    hide Persisted;
    if more == [] {
      assert stream + more == stream;
    } else {
      assert more == [more[0]];
      Drain.PersistedOneMore(map[], stream, more[0]);
    }
  }

  lemma OtherKeeps(env: Env, cfg: Limits.Config, d: DirectWorld, q: QueuedWorld, op: Op)
    requires (op.InitRun? || op.FinishRun?) && OwnOf(op) == NOTHING
    ensures DirectStep(env, cfg, d, op).0.tables == d.tables && QueuedStep(env, cfg, q, op).0.stream == q.stream
  {
    NothingToInsert(d.tables, op.run);
  }

  // ------------------------------------------------------------------ streamed ids

  /** No batch id is used for two runs. */
  ghost predicate OneRunPerId(ops: seq<Op>) {
    forall i, j :: 0 <= i < j < |ops| && ops[i].Submit? && ops[j].Submit? && ops[i].req.batch == ops[j].req.batch ==>
      ops[i].req.run == ops[j].req.run
  }

  ghost predicate Submitted(key: Idempotency.Key, ops: seq<Op>) {
    exists i :: 0 <= i < |ops| && ops[i].Submit? && KeyOf(ops[i].req) == key
  }

  lemma SubmittedLater(key: Idempotency.Key, ops: seq<Op>, op: Op)
    ensures Submitted(key, ops) ==> Submitted(key, ops + [op])
    ensures op.Submit? && KeyOf(op.req) == key ==> Submitted(key, ops + [op])
  {
    var longer := ops + [op];
    if Submitted(key, ops) {
      var i :| 0 <= i < |ops| && ops[i].Submit? && KeyOf(ops[i].req) == key;
      assert longer[i] == ops[i];
    }
    assert longer[|ops|] == op;
  }

  /** What an operation adds to the stream, if anything: the batch its request hands on. */
  lemma StreamStep(env: Env, cfg: Limits.Config, w: QueuedWorld, op: Op) returns (more: seq<Batch>)
    ensures |more| <= 1 && QueuedStep(env, cfg, w, op).0.stream == w.stream + more
    ensures more != [] ==> op.Submit? && Checks(env, cfg, w.api, op.req, op.faults).1 == HandOn(more[0])
  {
    hide Checks;
    var next := QueuedStep(env, cfg, w, op).0.stream;
    more := if |next| > |w.stream| then [next[|w.stream|]] else [];
    assert w.stream + [] == w.stream;
  }

  /** Streamed batches have recorded keys, one each, whatever failed, and each was submitted. */
  lemma {:induction false} StreamFresh(env: Env, cfg: Limits.Config, ops: seq<Op>)
    ensures Fresh(ApiAfter(env, cfg, ops).seen.batches, Queued(env, cfg, ops).0.stream)
    ensures forall b :: b in Queued(env, cfg, ops).0.stream ==> Submitted(KeyOfBatch(b), ops)
    decreases |ops|
  {
    if ops != [] {
      var init, last := ops[..|ops| - 1], ops[|ops| - 1];
      StreamFresh(env, cfg, init);
      ModesShareApi(env, cfg, init);
      hide QueuedStep, Checks, Fresh, Submitted;
      var q := Queued(env, cfg, init).0;
      var more := StreamStep(env, cfg, q, last);
      assert ops == init + [last];
      forall b | b in q.stream + more ensures Submitted(KeyOfBatch(b), ops) {
        SubmittedLater(KeyOfBatch(b), init, last);
        if b !in q.stream { ChecksRecord(env, cfg, q.api, last.req, last.faults); }
      }
      if last.Submit? {
        FreshOneMore(env, cfg, q.api, last, q.stream, more);
      } else {
        assert q.stream + [] == q.stream;
      }
    }
  }

  /** Deduplication by (run, id) makes streamed ids unique, whatever fails, as soon as no id is used for two
      runs. */
  lemma StreamUnique(env: Env, cfg: Limits.Config, ops: seq<Op>)
    requires OneRunPerId(ops)
    ensures Processor.Unique(Queued(env, cfg, ops).0.stream)
  {
    StreamFresh(env, cfg, ops);
    hide Queued, KeysOf, ApiAfter;
    var stream := Queued(env, cfg, ops).0.stream;
    forall i, j | 0 <= i < j < |stream| ensures stream[i].id != stream[j].id {
      assert Submitted(KeyOfBatch(stream[i]), ops) && Submitted(KeyOfBatch(stream[j]), ops);
      var a :| 0 <= a < |ops| && ops[a].Submit? && KeyOf(ops[a].req) == KeyOfBatch(stream[i]);
      var b :| 0 <= b < |ops| && ops[b].Submit? && KeyOf(ops[b].req) == KeyOfBatch(stream[j]);
      assert KeyOfBatch(stream[i]) != KeyOfBatch(stream[j]);
    }
  }

  // ------------------------------------------------------------------ refused, and streamed all the same

  /** The request's batch is new and valid, and its enqueue fails after the entry was added. */
  predicate AddsLate(env: Env, cfg: Limits.Config, api: Api, op: Op, key: Idempotency.Key) {
    && op.Submit? && KeyOf(op.req) == key && Checks(env, cfg, api, op.req, op.faults).1.HandOn?
    && EnqueueCall in op.faults && op.faults[EnqueueCall] > 0
  }

  ghost predicate AddedLate(env: Env, cfg: Limits.Config, ops: seq<Op>, key: Idempotency.Key) {
    exists i: nat :: i < |ops| && AddsLate(env, cfg, ApiAfter(env, cfg, ops[..i]), ops[i], key)
  }

  lemma AddedOneMore(env: Env, cfg: Limits.Config, ops: seq<Op>, op: Op, key: Idempotency.Key)
    ensures AddedLate(env, cfg, ops + [op], key) <==>
            AddedLate(env, cfg, ops, key) || AddsLate(env, cfg, ApiAfter(env, cfg, ops), op, key)
  {
    hide AddsLate, ApiAfter;
    var all := ops + [op];
    assert all[..|ops|] == ops && all[|ops|] == op;
    assert forall i: nat :: i < |ops| ==> all[..i] == ops[..i] && all[i] == ops[i];
  }

  /** One operation puts a key both among the lost ones and on the stream exactly if it adds it late. */
  lemma LostStreamedStep(env: Env, cfg: Limits.Config, w: QueuedWorld, op: Op, key: Idempotency.Key, lost: set<Idempotency.Key>)
    requires lost <= w.api.seen.batches.Keys && KeysOf(w.stream) <= w.api.seen.batches.Keys
    ensures var after := lost + if LosesKey(QueuedMode, env, cfg, w.api, op) then {KeyOf(op.req)} else {};
            (key in after && key in KeysOf(QueuedStep(env, cfg, w, op).0.stream))
            <==> (key in lost && key in KeysOf(w.stream)) || AddsLate(env, cfg, w.api, op, key)
  {
    hide Checks, KeysOf;
    if op.Submit? {
      ChecksRecord(env, cfg, w.api, op.req, op.faults);
      var verdict := Checks(env, cfg, w.api, op.req, op.faults).1;
      if verdict.HandOn? { KeysOneMore(w.stream, verdict.batch); }
    }
  }

  /** A lost key has its batch on the stream, after any history, exactly if the request that recorded it was
      handed on and its enqueue failed after the entry was added. */
  lemma {:induction false} LostYetStreamedIff(env: Env, cfg: Limits.Config, ops: seq<Op>, key: Idempotency.Key)
    ensures key in Lost(QueuedMode, env, cfg, ops) && key in KeysOf(Queued(env, cfg, ops).0.stream) <==> AddedLate(env, cfg, ops, key)
    decreases |ops|
  {
    if ops != [] {
      var init, last := ops[..|ops| - 1], ops[|ops| - 1];
      assert ops == init + [last];
      LostYetStreamedIff(env, cfg, init, key);
      ModesShareApi(env, cfg, init);
      StreamFresh(env, cfg, init);
      AlwaysAccounted(QueuedMode, env, cfg, init);
      hide Checks, QueuedStep, LosesKey, KeysOf, AddedLate, AddsLate, ApiAfter, LiveBatches, Gone, Distinct, Submitted;
      AddedOneMore(env, cfg, init, last, key);
      LostStreamedStep(env, cfg, Queued(env, cfg, init).0, last, key, Lost(QueuedMode, env, cfg, init));
    }
  }

  /** The refinement: for every history without store failures, in which no batch id is used for two runs
      and only requests touch the tables, both modes give the same answers, and draining the queue in
      order, with any redeliveries, leaves the tables direct persistence leaves. */
  lemma QueuedRefinesDirect(env: Env, cfg: Limits.Config, ops: seq<Op>, deliveries: seq<nat>)
    requires Faultless(ops) && OneRunPerId(ops) && RequestsOnly(ops)
    requires Drain.InOrder(deliveries) && Drain.Frontier(deliveries) == |Queued(env, cfg, ops).0.stream|
    ensures var (d, replies) := Direct(env, cfg, ops);
            var (q, answers) := Queued(env, cfg, ops);
            && replies == answers
            && d.tables == Drain.Drained(Processor.Start(1).(stream := q.stream), deliveries).tables
  {
    hide Queued, Direct, Processor.Unique, Drain.InOrder, Drain.Frontier, Drain.Drained, PersistedAll, RequestsOnly;
    Lockstep(env, cfg, ops);
    StreamUnique(env, cfg, ops);
    Drain.UniqueDrainIsDirect(Processor.Start(1).(stream := Queued(env, cfg, ops).0.stream), deliveries);
  }
}
