/** The ingest endpoint as a program over its stores. */
module ApiServer {
  import opened Wrappers
  import opened Text
  import opened Select
  import opened Store
  import opened Ingest
  import opened Pipeline
  import opened Histories
  import Limits
  import Idempotency

  class Server {
    const env: Env
    const queued: bool
    const store: SqliteStore
    const idempotency: Idempotency.IdempotencyStore
    const tracker: Limits.CardinalityTracker
    var runs: map<string, RunInfo>
    var stream: seq<Batch>

    ghost function Contents(): Api
      reads this, idempotency, tracker
    {
      Api(runs, idempotency.Contents(), tracker.Contents())
    }

    ghost predicate Valid()
      reads this, tracker
    {
      tracker.Valid()
    }

    constructor (env: Env, cfg: Limits.Config, queued: bool)
      ensures Valid() && this.env == env && this.queued == queued && tracker.config == cfg
      ensures Contents() == FRESH && store.tables == map[] && stream == []
      ensures fresh(store) && fresh(idempotency) && fresh(tracker)
    {
      this.env, this.queued := env, queued;
      store := new SqliteStore();
      idempotency := new Idempotency.IdempotencyStore();
      tracker := new Limits.CardinalityTracker(cfg);
      runs, stream := map[], [];
    }

    /** `persist_ingest_batch_to_sqlite`: the events inserted, or nothing if a call failed. */
    method PersistBatch(b: Batch, faults: Faults) returns (events: Option<nat>)
      modifies store`tables
      ensures (store.tables, events) == PersistUnder(old(store.tables), b, faults)
    {
      hide InsertMetrics, IncrementMetricsCount, SetTags, InsertParams, InsertEvents, Take, WarningEvents;
      var ok := true;
      if b.metrics != [] {
        ok := store.WriteMetrics(b.run, b.metrics, FaultAt(faults, MetricsCall));
        if ok { ok := store.AddToCount(b.run, |b.metrics|, FaultAt(faults, CountCall)); }
      }
      assert (store.tables, ok) == RowsWritten(old(store.tables), b, faults);
      if !ok { return None; }
      ghost var before := store.tables;
      if b.tags != [] { ok := store.WriteTags(b.run, b.tags, FaultAt(faults, TagsCall)); }
      assert (store.tables, ok) == TagsWritten(before, b, faults);
      if !ok { return None; }
      before := store.tables;
      if b.params != [] { ok := store.WriteParams(b.run, b.params, FaultAt(faults, ParamsCall)); }
      assert (store.tables, ok) == ParamsWritten(before, b, faults);
      if !ok { return None; }
      before := store.tables;
      if b.events != [] { ok := store.WriteEvents(b.run, b.events, FaultAt(faults, EventsCall)); }
      assert (store.tables, ok) == EventsWritten(before, b, faults);
      if !ok { return None; }
      before := store.tables;
      var inserted := 0;
      if b.warnings != [] {
        ok := store.WriteEvents(b.run, WarningEvents(b.warnings), FaultAt(faults, WarningsCall));
        inserted := if ok then |b.warnings| else 0;
      }
      assert (store.tables, inserted) == WarningsWritten(before, b, faults);
      events := Some(|b.events| + inserted);
    }

    /** The validation loops, in the handler's order. */
    method PrepareRequest(req: Request) returns (r: Result<Prepared, Rejection>)
      ensures r == Prepare(tracker.config, req)
    {
      hide PairsDecided, ValidPairs, Expand;
      var params := ValidatePairs(req.params, "parameters", PARAM_VALUE_MAX_LEN);
      if params.Err? { return Err(params.error); }
      var tags := ValidatePairs(req.tags, "tags", tracker.config.maxTagValueLength);
      if tags.Err? { return Err(tags.error); }
      var rows := ExpandMetrics(req.metrics);
      if rows.Err? { return Err(rows.error); }
      r := Ok(Prepared(params.value, tags.value, rows.value));
    }

    /** Screening: the warnings collected on the way and the batch that remains. */
    method BuildBatch(project: string, req: Request, p: Prepared, outcome: Idempotency.Outcome, v: Limits.Validation)
      returns (b: Batch)
      ensures b == BatchOf(env, project, req, p, outcome, v)
    {
      hide Filter, SiftAll, Rendered, LimitNotices, HashOf;
      var warnings: seq<Notice> := [];
      if outcome.OutOfOrder? {
        warnings := [ReceivedOutOfOrder(outcome.expectedSeq, outcome.actualSeq)];
      }
      warnings := warnings + LimitNotices(project, req.run, v.warnings);
      ghost var limits := warnings;
      var kept, nonFinite := ScreenMetrics(p.rows, ToSet(v.acceptedMetrics));
      if nonFinite > 0 {
        warnings := warnings + [NonFiniteMetrics(nonFinite)];
      }
      ghost var before := warnings;
      assert before == limits + (if nonFinite > 0 then [NonFiniteMetrics(nonFinite)] else []);
      var events, dropped, warned := ScreenEvents(env, req.events, warnings);
      ghost var unsafe := SiftAll(env, req.events).notices;
      assert warned == before + unsafe;
      warnings := warned;
      if dropped > 0 {
        warnings := warnings + [EventsDropped(dropped)];
      }
      assert warnings == before + unsafe + (if dropped > 0 then [EventsDropped(dropped)] else []);
      assert warnings == Notices(project, req, outcome, v, nonFinite, SiftAll(env, req.events));
      b := Batch(project, req.run, req.batch, HashOf(env, req, p), req.seqNo,
                 kept, p.params, v.acceptedTags, events, Rendered(env, warnings));
    }

    /** The handler up to the hand-over. */
    method CheckRequest(req: Request, faults: Faults) returns (verdict: Verdict)
      requires Valid()
      modifies idempotency, tracker
      ensures Valid()
      ensures (Contents(), verdict) == Checks(env, tracker.config, old(Contents()), req, faults)
    {
      hide Prepare, BatchOf, Ticket, Limits.Validated, Idempotency.Checked, Limits.Caps, Lower;
      if FirstLookup in faults { return Reject(Internal); }
      if req.run !in runs { return Reject(NotFound); }
      var project := runs[req.run].project;
      var prepared := PrepareRequest(req);
      if prepared.Err? { return Reject(BadRequest(prepared.error)); }
      var p := prepared.value;
      var outcome := idempotency.CheckAndRecord(Ticket(env, project, req, p));
      if outcome.Duplicate? { return Skip; }
      if outcome.Conflict? { return Reject(ConflictingBatch(outcome.expectedHash, outcome.actualHash)); }
      var v := tracker.ValidateBatch(project, req.run, p.tags, Names(p.rows));
      if SecondLookup in faults { return Abandon(Internal); }
      if !IsRunning(runs[req.run]) { return Abandon(NotRunning); }
      var b := BuildBatch(project, req, p, outcome, v);
      verdict := HandOn(b);
    }

    /** `http_ingest_batch` after access control: the reply, the API state and the one store of its mode
        are those of the specification, and the other mode's store is untouched. */
    method HttpIngestBatch(req: Request, faults: Faults) returns (reply: Reply)
      requires Valid()
      modifies this`stream, idempotency, tracker, store`tables
      ensures Valid()
      ensures !queued ==>
                (DirectWorld(Contents(), store.tables), reply)
                == SubmitDirect(env, tracker.config, DirectWorld(old(Contents()), old(store.tables)), req, faults)
      ensures !queued ==> stream == old(stream)
      ensures queued ==>
                (QueuedWorld(Contents(), stream), reply)
                == SubmitQueued(env, tracker.config, QueuedWorld(old(Contents()), old(stream)), req, faults)
      ensures queued ==> store.tables == old(store.tables)
    {
      hide Checks, PersistUnder, Limits.Caps;
      var verdict := CheckRequest(req, faults);
      match verdict {
        case Reject(e) =>
          reply := Refused(e);
        case Abandon(e) =>
          reply := Refused(e);
        case Skip =>
          reply := Answer(0, true, []);
        case HandOn(b) =>
          var events := |b.events| + |b.warnings|;
          if queued {
            // the entry may have been added although the reply was lost
            if EnqueueCall !in faults || faults[EnqueueCall] > 0 {
              stream := stream + [b];
            }
            if EnqueueCall in faults { return Refused(Unavailable); }
          } else {
            var inserted := PersistBatch(b, faults);
            if inserted.None? { return Refused(Internal); }
            events := inserted.value;
          }
          reply := Answer(|b.metrics| + |b.params| + |b.tags| + events, false, b.warnings);
      }
    }
  }
}
