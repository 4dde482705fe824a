/** Queued mode with the processor at work between requests, and runs created, ended and deleted: what its
    tables hold, against direct mode. */
module Interleaving {
  import opened Store
  import opened Ingest
  import opened Pipeline
  import opened Histories
  import opened Accounting
  import Limits
  import Processor
  import Drain
  import Refinement

  /** An operation of the API, or a delivery to the processor: of the next entry, or of an earlier one again. */
  datatype Step = ApiOp(op: Op) | Deliver(entry: nat)

  /** Direct mode, and the API, the stores and the progress of queued mode, side by side. */
  datatype Twin = Twin(direct: DirectWorld, api: Api, store: Processor.World, drained: nat)

  const OUTSET := Twin(DirectWorld(FRESH, map[]), FRESH, Processor.Start(1), 0)

  function WithoutRun(recorded: map<string, Batch>, run: string): map<string, Batch> {
    map id | id in recorded && recorded[id].run != run :: recorded[id]
  }

  /** What an operation does to the stores of queued mode, but for the stream. Deleting a run removes its
      recorded ids with its tables. */
  function Touched(api: Api, store: Processor.World, op: Op): Processor.World {
    match op
    case Submit(_, _) => store
    case InitRun(_, _, _) => store.(tables := TablesAfter(api, store.tables, op))
    case FinishRun(_, _, _) => store.(tables := TablesAfter(api, store.tables, op))
    case DropRun(run) =>
      if run in api.runs then store.(tables := store.tables - {run}, recorded := WithoutRun(store.recorded, run)) else store
  }

  /** A pass of the processor. The tables refer to the runs, so the first write for a run that is gone
      fails, and the entry stays as it is. */
  function Received(api: Api, store: Processor.World, entry: nat): Processor.World
    requires entry < |store.stream|
  {
    var b := store.stream[entry];
    if b.id in store.recorded || b.run in api.runs then Drain.Handled(store, entry) else store
  }

  predicate Delivers(p: Twin, s: Step) {
    s.Deliver? && s.entry < |p.store.stream| && s.entry <= p.drained
  }

  function Next(env: Env, cfg: Limits.Config, p: Twin, s: Step): Twin {
    match s
    case ApiOp(op) =>
      var q := QueuedStep(env, cfg, QueuedWorld(p.api, p.store.stream), op).0;
      Twin(DirectStep(env, cfg, p.direct, op).0, q.api, Touched(p.api, p.store, op).(stream := q.stream), p.drained)
    case Deliver(entry) =>
      if Delivers(p, s)
      then p.(store := Received(p.api, p.store, entry), drained := if entry == p.drained then entry + 1 else p.drained)
      else p
  }

  function Reached(env: Env, cfg: Limits.Config, steps: seq<Step>): Twin {
    if steps == [] then OUTSET else Next(env, cfg, Reached(env, cfg, steps[..|steps| - 1]), steps[|steps| - 1])
  }

  function OpsOf(steps: seq<Step>): seq<Op> {
    if steps == [] then []
    else OpsOf(steps[..|steps| - 1]) + if steps[|steps| - 1].ApiOp? then [steps[|steps| - 1].op] else []
  }

  // ------------------------------------------------------------------ entries a deletion has overtaken

  function MarkedStale(p: Twin, stale: set<nat>, s: Step): set<nat> {
    if s.ApiOp? && s.op.DropRun? then stale + set k | 0 <= k < |p.store.stream| && p.store.stream[k].run == s.op.run
    else stale
  }

  /** Entries whose run was deleted after they were streamed. */
  function Stale(env: Env, cfg: Limits.Config, steps: seq<Step>): set<nat> {
    if steps == [] then {}
    else
      var init := steps[..|steps| - 1];
      MarkedStale(Reached(env, cfg, init), Stale(env, cfg, init), steps[|steps| - 1])
  }

  /** The step writes a stale entry of `run`, which exists again. */
  predicate Overtakes(p: Twin, stale: set<nat>, s: Step, run: string) {
    && Delivers(p, s) && s.entry in stale && p.store.stream[s.entry].run == run
    && run in p.api.runs && p.store.stream[s.entry].id !in p.store.recorded
  }

  predicate Deletes(p: Twin, s: Step, run: string) {
    s == ApiOp(DropRun(run)) && run in p.api.runs
  }

  function OvertakenBy(p: Twin, stale: set<nat>, over: seq<Batch>, s: Step, run: string): seq<Batch> {
    if Deletes(p, s, run) then []
    else if Overtakes(p, stale, s, run) then over + [p.store.stream[s.entry]]
    else over
  }

  /** The batches streamed before a deletion of `run` and written after it was created again, since it was
      last deleted. */
  function Overtaken(env: Env, cfg: Limits.Config, steps: seq<Step>, run: string): seq<Batch> {
    if steps == [] then []
    else
      var init := steps[..|steps| - 1];
      OvertakenBy(Reached(env, cfg, init), Stale(env, cfg, init), Overtaken(env, cfg, init, run), steps[|steps| - 1], run)
  }

  /** The batches of `run` still queued, but for stale ones. */
  function Waiting(stream: seq<Batch>, from: nat, stale: set<nat>, run: string): seq<Batch>
    decreases |stream| - from
  {
    if from >= |stream| then []
    else (if from !in stale && stream[from].run == run then [stream[from]] else []) + Waiting(stream, from + 1, stale, run)
  }

  // ------------------------------------------------------------------ one run, as the steps move it

  /** The tables of one run in both modes, its batches still queued, and those a deletion has overtaken. */
  datatype View = View(direct: RunTables, queued: RunTables, waiting: seq<Batch>, over: seq<Batch>)

  function Shown(p: Twin, stale: set<nat>, over: seq<Batch>, run: string): View {
    View(TableOf(p.direct.tables, run), TableOf(p.store.tables, run), Waiting(p.store.stream, p.drained, stale, run), over)
  }

  function ViewOf(env: Env, cfg: Limits.Config, steps: seq<Step>, run: string): View {
    Shown(Reached(env, cfg, steps), Stale(env, cfg, steps), Overtaken(env, cfg, steps, run), run)
  }

  datatype Move = Still | Clear | Both(own: Own) | Queue(batch: Batch) | Process | Overtake(batch: Batch)

  function Moved(v: View, m: Move): View {
    match m
    case Still => v
    case Clear => View(BLANK, BLANK, [], [])
    case Both(own) => v.(direct := Applied(v.direct, OwnWrites(own)), queued := Applied(v.queued, OwnWrites(own)))
    case Queue(b) => v.(direct := After(v.direct, b), waiting := v.waiting + [b])
    case Process => if v.waiting == [] then v else v.(queued := After(v.queued, v.waiting[0]), waiting := v.waiting[1..])
    case Overtake(b) => v.(queued := After(v.queued, b), over := v.over + [b])
  }

  /** What the two modes keep between them, besides the tables. */
  ghost predicate Sound(p: Twin, stale: set<nat>) {
    && p.direct.api == p.api && p.drained <= |p.store.stream| && Processor.Unique(p.store.stream)
    && (forall k :: k in stale ==> k < |p.store.stream|)
    && (forall k: nat :: k < |p.store.stream| && k !in stale ==> p.store.stream[k].run in p.api.runs)
    && (forall id :: id in p.store.recorded ==> RecordedEntry(p, id))
    && (forall k: nat :: k < p.drained && k !in stale ==> p.store.stream[k].id in p.store.recorded)
  }

  /** The id is recorded for an entry that was processed. */
  ghost predicate RecordedEntry(p: Twin, id: string)
    requires id in p.store.recorded
  {
    exists k: nat :: k < p.drained && k < |p.store.stream| && p.store.stream[k] == p.store.recorded[id] && p.store.stream[k].id == id
  }

  // ------------------------------------------------------------------ waiting batches

  lemma {:induction false} WaitingAppend(stream: seq<Batch>, b: Batch, from: nat, stale: set<nat>, run: string)
    requires from <= |stream| && |stream| !in stale
    ensures Waiting(stream + [b], from, stale, run) == Waiting(stream, from, stale, run) + if b.run == run then [b] else []
    decreases |stream| - from
  {
    if from == |stream| {
      assert (stream + [b])[from] == b;
      assert Waiting(stream + [b], from + 1, stale, run) == [];
    } else {
      WaitingAppend(stream, b, from + 1, stale, run);
      assert (stream + [b])[from] == stream[from];
    }
  }

  /** Marking entries of `gone` stale leaves the other runs' batches waiting, and none of its own. */
  lemma {:induction false} WaitingMarked(stream: seq<Batch>, from: nat, stale: set<nat>, gone: string, run: string)
    requires from <= |stream|
    ensures var more := stale + set k | 0 <= k < |stream| && stream[k].run == gone;
            Waiting(stream, from, more, run) == if run == gone then [] else Waiting(stream, from, stale, run)
    decreases |stream| - from
  {
    if from < |stream| { WaitingMarked(stream, from + 1, stale, gone, run); }
  }

  lemma WaitingNext(stream: seq<Batch>, from: nat, stale: set<nat>, run: string)
    requires from < |stream|
    ensures Waiting(stream, from, stale, run)
         == (if from !in stale && stream[from].run == run then [stream[from]] else []) + Waiting(stream, from + 1, stale, run)
  {
  }

  // ------------------------------------------------------------------ every step is a move

  /** What a step makes of the view of a run. */
  function ShownNext(env: Env, cfg: Limits.Config, p: Twin, stale: set<nat>, over: seq<Batch>, s: Step, run: string): View {
    Shown(Next(env, cfg, p, s), MarkedStale(p, stale, s), OvertakenBy(p, stale, over, s, run), run)
  }

  lemma SubmitMoves(env: Env, cfg: Limits.Config, p: Twin, stale: set<nat>, over: seq<Batch>, req: Request, run: string) returns (m: Move)
    requires Sound(p, stale)
    ensures ShownNext(env, cfg, p, stale, over, ApiOp(Submit(req, map[])), run) == Moved(Shown(p, stale, over, run), m)
    ensures m.Queue? || m.Still?
  {
    hide Checks, PersistUnder, Persisted, TableOf, After, Processor.Unique, Waiting;
    var op := Submit(req, map[]);
    var q := QueuedWorld(p.api, p.store.stream);
    var more := KeptBy(QueuedMode, env, cfg, p.api, op);
    Refinement.LockstepOne(env, cfg, p.direct, q, op);
    assert |p.store.stream| !in stale;
    if more == [] {
      m := Still;
      assert p.store.stream + more == p.store.stream;
    } else {
      assert more == [more[0]];
      m := if more[0].run == run then Queue(more[0]) else Still;
      PersistedEffect(p.direct.tables, more[0], run);
      WaitingAppend(p.store.stream, more[0], p.drained, stale, run);
      assert Waiting(p.store.stream, p.drained, stale, run) + [] == Waiting(p.store.stream, p.drained, stale, run);
    }
  }

  lemma OwnMoves(env: Env, cfg: Limits.Config, p: Twin, stale: set<nat>, over: seq<Batch>, op: Op, run: string) returns (m: Move)
    requires (op.InitRun? || op.FinishRun?) && p.direct.api == p.api
    ensures ShownNext(env, cfg, p, stale, over, ApiOp(op), run) == Moved(Shown(p, stale, over, run), m)
    ensures m == if WritesOwn(p.api, op) && op.run == run then Both(OwnOf(op)) else Still
  {
    hide OwnTables, Applied, OwnWrites, TableOf, Waiting;
    m := if WritesOwn(p.api, op) && op.run == run then Both(OwnOf(op)) else Still;
    OwnEffect(p.direct.tables, op.run, OwnOf(op), run);
    OwnEffect(p.store.tables, op.run, OwnOf(op), run);
  }

  lemma DropMoves(env: Env, cfg: Limits.Config, p: Twin, stale: set<nat>, over: seq<Batch>, gone: string, run: string) returns (m: Move)
    requires Sound(p, stale)
    ensures ShownNext(env, cfg, p, stale, over, ApiOp(DropRun(gone)), run) == Moved(Shown(p, stale, over, run), m)
    ensures m == if Deletes(p, ApiOp(DropRun(gone)), run) then Clear else Still
  {
    var u := Next(env, cfg, p, ApiOp(DropRun(gone)));
    assert u.store.stream == p.store.stream && u.drained == p.drained;
    if gone == run && run !in p.api.runs { GoneWaitsNot(p, stale, p.drained, run); }
    hide Waiting, Sound;
    m := if gone == run && run in p.api.runs then Clear else Still;
    WaitingMarked(p.store.stream, p.drained, stale, gone, run);
  }

  lemma {:induction false} GoneWaitsNot(p: Twin, stale: set<nat>, from: nat, run: string)
    requires Sound(p, stale) && run !in p.api.runs
    ensures Waiting(p.store.stream, from, stale, run) == []
    decreases |p.store.stream| - from
  {
    if from < |p.store.stream| { GoneWaitsNot(p, stale, from + 1, run); }
  }

  /** A delivered entry that is recorded was written before; one that is neither recorded nor stale is the
      next one, and its run exists. */
  lemma DeliveredState(p: Twin, stale: set<nat>, entry: nat)
    requires Sound(p, stale) && Delivers(p, Deliver(entry))
    ensures var b := p.store.stream[entry];
            && (b.id in p.store.recorded ==> entry < p.drained)
            && (entry !in stale ==> b.run in p.api.runs && (b.id in p.store.recorded <==> entry < p.drained))
  {
    var b := p.store.stream[entry];
    if b.id in p.store.recorded {
      assert RecordedEntry(p, b.id);
      var k: nat :| k < p.drained && p.store.stream[k].id == b.id;
      assert k == entry;
    }
  }

  /** A delivery writes nothing, or the next waiting batch, or a stale one of a run that exists again. */
  lemma DeliverMoves(env: Env, cfg: Limits.Config, p: Twin, stale: set<nat>, over: seq<Batch>, entry: nat, run: string) returns (m: Move)
    requires Sound(p, stale) && Delivers(p, Deliver(entry))
    ensures ShownNext(env, cfg, p, stale, over, Deliver(entry), run) == Moved(Shown(p, stale, over, run), m)
    ensures m.Still? || m.Process? || m.Overtake?
  {
    DeliveredState(p, stale, entry);
    hide Persisted, TableOf, After, Waiting, Sound;
    var b := p.store.stream[entry];
    PersistedEffect(p.store.tables, b, run);
    if entry == p.drained { WaitingNext(p.store.stream, entry, stale, run); }
    m := if b.id in p.store.recorded || b.run !in p.api.runs || b.run != run then Still
         else if entry in stale then Overtake(b) else Process;
  }

  // ------------------------------------------------------------------ every history keeps the two modes sound

  lemma OpsGrow(steps: seq<Step>)
    requires steps != []
    ensures var init, last := steps[..|steps| - 1], steps[|steps| - 1];
            && (Refinement.Faultless(OpsOf(steps)) ==>
                  Refinement.Faultless(OpsOf(init)) && (last.ApiOp? && last.op.Submit? ==> last.op.faults == map[]))
            && (Refinement.OneRunPerId(OpsOf(steps)) ==> Refinement.OneRunPerId(OpsOf(init)))
  {
    var init, last := steps[..|steps| - 1], steps[|steps| - 1];
    var ops, more := OpsOf(init), if last.ApiOp? then [last.op] else [];
    assert OpsOf(steps) == ops + more;
    assert forall i :: 0 <= i < |ops| ==> (ops + more)[i] == ops[i];
    assert last.ApiOp? ==> (ops + more)[|ops|] == last.op;
  }

  lemma NextWorlds(env: Env, cfg: Limits.Config, p: Twin, s: Step)
    ensures var u, q := Next(env, cfg, p, s), QueuedWorld(p.api, p.store.stream);
            && u.direct == (if s.ApiOp? then DirectStep(env, cfg, p.direct, s.op).0 else p.direct)
            && QueuedWorld(u.api, u.store.stream) == (if s.ApiOp? then QueuedStep(env, cfg, q, s.op).0 else q)
            && (s.ApiOp? && !s.op.DropRun? ==> u.store.recorded == p.store.recorded && u.drained == p.drained)
  {
    hide DirectStep, QueuedStep, Persisted, TablesAfter;
  }

  /** Deliveries do not show in the API: its worlds are those of the operations alone. */
  lemma {:induction false} SameWorlds(env: Env, cfg: Limits.Config, steps: seq<Step>)
    ensures var p, ops := Reached(env, cfg, steps), OpsOf(steps);
            p.direct == Direct(env, cfg, ops).0 && QueuedWorld(p.api, p.store.stream) == Queued(env, cfg, ops).0
    decreases |steps|
  {
    if steps != [] {
      var init, last := steps[..|steps| - 1], steps[|steps| - 1];
      SameWorlds(env, cfg, init);
      hide DirectStep, QueuedStep, Next;
      NextWorlds(env, cfg, Reached(env, cfg, init), last);
      var ops := OpsOf(init);
      if last.ApiOp? {
        assert (ops + [last.op])[..|ops|] == ops && (ops + [last.op])[|ops|] == last.op;
      } else {
        assert ops + [] == ops;
      }
    }
  }

  lemma GrownSound(p: Twin, u: Twin, stale: set<nat>, more: seq<Batch>)
    requires Sound(p, stale) && u.direct.api == u.api && p.api.runs.Keys <= u.api.runs.Keys
    requires u.store.stream == p.store.stream + more && Processor.Unique(u.store.stream)
    requires forall b :: b in more ==> b.run in u.api.runs
    requires u.store.recorded == p.store.recorded && u.drained == p.drained
    ensures Sound(u, stale)
  {
    hide Processor.Unique;
    assert forall k: nat :: k < |u.store.stream| && k >= |p.store.stream| ==> u.store.stream[k] in more;
    forall id | id in u.store.recorded ensures RecordedEntry(u, id) {
      assert RecordedEntry(p, id);
      var k: nat :| k < p.drained && p.store.stream[k] == p.store.recorded[id] && p.store.stream[k].id == id;
      assert u.store.stream[k] == p.store.stream[k];
    }
  }

  lemma RequestKeepsRuns(env: Env, cfg: Limits.Config, w: QueuedWorld, op: Op)
    requires op.Submit?
    ensures QueuedStep(env, cfg, w, op).0.api.runs == w.api.runs
  {
    ChecksRecord(env, cfg, w.api, op.req, op.faults);
    hide Checks, Prepare, HashOf;
  }

  lemma HandedRun(env: Env, cfg: Limits.Config, api: Api, op: Op, b: Batch)
    requires op.Submit? && Checks(env, cfg, api, op.req, op.faults).1 == HandOn(b)
    ensures b.run in api.runs
  {
    hide Checks, Prepare, HashOf;
    ChecksRecord(env, cfg, api, op.req, op.faults);
    KnownRun(env, cfg, api, op.req, op.faults);
  }

  /** A request adds to the stream at most a batch of a run the API knows. */
  lemma SubmitAdds(env: Env, cfg: Limits.Config, w: QueuedWorld, op: Op) returns (more: seq<Batch>)
    requires op.Submit?
    ensures QueuedStep(env, cfg, w, op).0.stream == w.stream + more && QueuedStep(env, cfg, w, op).0.api.runs == w.api.runs
    ensures forall b :: b in more ==> b.run in w.api.runs
  {
    hide Checks, QueuedStep;
    more := Refinement.StreamStep(env, cfg, w, op);
    RequestKeepsRuns(env, cfg, w, op);
    if more != [] {
      HandedRun(env, cfg, w.api, op, more[0]);
      assert more == [more[0]];
    }
  }

  lemma SubmitSound(env: Env, cfg: Limits.Config, p: Twin, stale: set<nat>, op: Op)
    requires op.Submit? && Sound(p, stale)
    requires var u := Next(env, cfg, p, ApiOp(op)); u.direct.api == u.api && Processor.Unique(u.store.stream)
    ensures Sound(Next(env, cfg, p, ApiOp(op)), stale)
  {
    hide Processor.Unique, Sound, DirectStep, QueuedStep, Next;
    NextWorlds(env, cfg, p, ApiOp(op));
    var more := SubmitAdds(env, cfg, QueuedWorld(p.api, p.store.stream), op);
    GrownSound(p, Next(env, cfg, p, ApiOp(op)), stale, more);
  }

  lemma OwnSound(env: Env, cfg: Limits.Config, p: Twin, stale: set<nat>, op: Op)
    requires (op.InitRun? || op.FinishRun?) && Sound(p, stale)
    ensures Sound(Next(env, cfg, p, ApiOp(op)), stale)
  {
    assert p.direct.api == p.api && Processor.Unique(p.store.stream);
    hide TablesAfter, Processor.Unique, Sound;
    assert p.store.stream + [] == p.store.stream;
    GrownSound(p, Next(env, cfg, p, ApiOp(op)), stale, []);
  }

  /** Deleting a run keeps the recorded ids of the others' entries. */
  lemma OthersRecorded(p: Twin, stale: set<nat>, run: string, k: nat)
    requires Sound(p, stale) && k < p.drained && k !in stale && p.store.stream[k].run != run
    ensures p.store.stream[k].id in WithoutRun(p.store.recorded, run)
  {
    assert RecordedEntry(p, p.store.stream[k].id);
    var j: nat :| j < p.drained && p.store.stream[j] == p.store.recorded[p.store.stream[k].id] && p.store.stream[j].id == p.store.stream[k].id;
    assert j == k;
  }

  lemma DropSound(env: Env, cfg: Limits.Config, p: Twin, stale: set<nat>, run: string)
    requires Sound(p, stale)
    ensures Sound(Next(env, cfg, p, ApiOp(DropRun(run))), MarkedStale(p, stale, ApiOp(DropRun(run))))
  {
    hide Processor.Unique;
    var u := Next(env, cfg, p, ApiOp(DropRun(run)));
    var stream, recorded := p.store.stream, p.store.recorded;
    assert u.store.stream == stream && u.drained == p.drained;
    assert forall k: nat :: k < |stream| && k !in stale && run !in p.api.runs ==> stream[k].run != run;
    forall id | id in u.store.recorded ensures RecordedEntry(u, id) {
      assert RecordedEntry(p, id) && u.store.recorded[id] == recorded[id];
    }
    forall k: nat | k < p.drained && k !in stale && stream[k].run != run ensures stream[k].id in u.store.recorded {
      OthersRecorded(p, stale, run, k);
    }
  }

  lemma DeliverSound(env: Env, cfg: Limits.Config, p: Twin, stale: set<nat>, entry: nat)
    requires Sound(p, stale)
    ensures Sound(Next(env, cfg, p, Deliver(entry)), stale)
  {
    hide Persisted, Processor.Unique;
    var u := Next(env, cfg, p, Deliver(entry));
    assert u.store.stream == p.store.stream && u.api == p.api && u.direct == p.direct && p.drained <= u.drained;
    forall id | id in u.store.recorded ensures RecordedEntry(u, id) {
      if id in p.store.recorded {
        assert RecordedEntry(p, id);
      } else {
        assert u.store.recorded[id] == u.store.stream[entry] && entry < u.drained;
      }
    }
  }

  /** After every history of faultless operations and deliveries in which no batch id is used for two runs. */
  lemma {:induction false} AlwaysSound(env: Env, cfg: Limits.Config, steps: seq<Step>)
    requires Refinement.Faultless(OpsOf(steps)) && Refinement.OneRunPerId(OpsOf(steps))
    ensures Sound(Reached(env, cfg, steps), Stale(env, cfg, steps))
    decreases |steps|
  {
    if steps != [] {
      var init, last := steps[..|steps| - 1], steps[|steps| - 1];
      OpsGrow(steps);
      AlwaysSound(env, cfg, init);
      SameWorlds(env, cfg, steps);
      ModesShareApi(env, cfg, OpsOf(steps));
      Refinement.StreamUnique(env, cfg, OpsOf(steps));
      hide Sound, Next, OpsOf, Direct, Queued, ApiAfter, Refinement.Faultless, Refinement.OneRunPerId, Processor.Unique;
      var p, stale := Reached(env, cfg, init), Stale(env, cfg, init);
      match last
      case ApiOp(Submit(_, _)) => SubmitSound(env, cfg, p, stale, last.op);
      case ApiOp(DropRun(run)) => DropSound(env, cfg, p, stale, run);
      case ApiOp(_) => OwnSound(env, cfg, p, stale, last.op);
      case Deliver(entry) => DeliverSound(env, cfg, p, stale, entry);
    }
  }

  /** The step ends `run`, which writes events and no tags or params. */
  predicate EndWrites(p: Twin, s: Step, run: string, own: Own) {
    s.ApiOp? && s.op.FinishRun? && s.op.run == run && run in p.api.runs && own == Own([], [], s.op.events)
  }

  lemma OneMoves(env: Env, cfg: Limits.Config, p: Twin, stale: set<nat>, over: seq<Batch>, s: Step, run: string) returns (m: Move)
    requires Sound(p, stale) && (s.ApiOp? && s.op.Submit? ==> s.op.faults == map[])
    ensures ShownNext(env, cfg, p, stale, over, s, run) == Moved(Shown(p, stale, over, run), m)
    ensures m.Clear? <==> Deletes(p, s, run)
    ensures m.Both? && Waiting(p.store.stream, p.drained, stale, run) != [] ==> EndWrites(p, s, run, m.own)
  {
    assert p.direct.api == p.api;
    if run !in p.api.runs { GoneWaitsNot(p, stale, p.drained, run); }
    hide Sound, Shown, Moved, Waiting;
    match s
    case ApiOp(Submit(req, _)) => hide Next; m := SubmitMoves(env, cfg, p, stale, over, req, run);
    case ApiOp(DropRun(gone)) => hide Next; m := DropMoves(env, cfg, p, stale, over, gone, run);
    case ApiOp(_) => hide Next; m := OwnMoves(env, cfg, p, stale, over, s.op, run);
    case Deliver(entry) =>
      if Delivers(p, s) {
        m := DeliverMoves(env, cfg, p, stale, over, entry, run);
      } else {
        m := Still;
        assert Next(env, cfg, p, s) == p;
      }
  }

  /** Every step moves the view of a run by one move. */
  lemma StepMoves(env: Env, cfg: Limits.Config, steps: seq<Step>, run: string) returns (m: Move)
    requires steps != [] && Refinement.Faultless(OpsOf(steps)) && Refinement.OneRunPerId(OpsOf(steps))
    ensures ViewOf(env, cfg, steps, run) == Moved(ViewOf(env, cfg, steps[..|steps| - 1], run), m)
    ensures var init, last := steps[..|steps| - 1], steps[|steps| - 1];
            var p := Reached(env, cfg, init);
            && (m.Clear? <==> Deletes(p, last, run))
            && (m.Both? && Waiting(p.store.stream, p.drained, Stale(env, cfg, init), run) != [] ==> EndWrites(p, last, run, m.own))
  {
    var init, last := steps[..|steps| - 1], steps[|steps| - 1];
    OpsGrow(steps);
    AlwaysSound(env, cfg, init);
    var p, stale, over := Reached(env, cfg, init), Stale(env, cfg, init), Overtaken(env, cfg, init, run);
    m := OneMoves(env, cfg, p, stale, over, last, run);
    hide Next, Shown, Moved, Sound, MarkedStale, OvertakenBy, Refinement.Faultless, Refinement.OneRunPerId;
    assert ViewOf(env, cfg, steps, run) == ShownNext(env, cfg, p, stale, over, last, run);
  }

  // ------------------------------------------------------------------ the whole tables

  function AfterAll(r: RunTables, batches: seq<Batch>): RunTables {
    if batches == [] then r else After(AfterAll(r, batches[..|batches| - 1]), batches[|batches| - 1])
  }

  lemma {:induction false} AfterFirst(r: RunTables, batches: seq<Batch>)
    requires batches != []
    ensures AfterAll(r, batches) == AfterAll(After(r, batches[0]), batches[1..])
    decreases |batches|
  {
    hide After;
    if |batches| == 1 {
      assert batches[..0] == [] && batches[1..] == [];
    } else {
      AfterFirst(r, batches[..|batches| - 1]);
      assert batches[..|batches| - 1][1..] == batches[1..][..|batches| - 2];
    }
  }

  lemma AfterLast(r: RunTables, batches: seq<Batch>, b: Batch)
    ensures AfterAll(r, batches + [b]) == After(AfterAll(r, batches), b)
  {
    hide After;
    assert (batches + [b])[..|batches|] == batches;
  }

  lemma NothingApplied(r: RunTables)
    ensures Applied(r, OwnWrites(Refinement.NOTHING)) == r
  {
    AppliedNothing(r);
  }

  /** The step ends `run`, whose event is written past batches of it that are still queued. */
  predicate EndsPast(p: Twin, stale: set<nat>, s: Step, run: string) {
    s.ApiOp? && s.op.FinishRun? && s.op.run == run && run in p.api.runs && s.op.events != []
    && Waiting(p.store.stream, p.drained, stale, run) != []
  }

  /** That has happened since `run` was last deleted. */
  predicate EndedPast(env: Env, cfg: Limits.Config, steps: seq<Step>, run: string) {
    steps != [] &&
    var init, last := steps[..|steps| - 1], steps[|steps| - 1];
    var p := Reached(env, cfg, init);
    !Deletes(p, last, run) && (EndedPast(env, cfg, init, run) || EndsPast(p, Stale(env, cfg, init), last, run))
  }

  /** Everything but the events. */
  function Plain(r: RunTables): RunTables {
    r.(events := [])
  }

  lemma {:induction false} PlainAll(r: RunTables, q: RunTables, batches: seq<Batch>)
    requires Plain(r) == Plain(q)
    ensures Plain(AfterAll(r, batches)) == Plain(AfterAll(q, batches))
    decreases |batches|
  {
    if batches != [] { PlainAll(r, q, batches[..|batches| - 1]); }
  }

  /** Direct mode is ahead by the waiting batches and by nothing else, events aside or events included. */
  predicate Ahead(v: View, events: bool) {
    var r := AfterAll(v.queued, v.waiting);
    if events then v.direct == r else Plain(v.direct) == Plain(r)
  }

  lemma EndKeepsPlain(r: RunTables, own: Own)
    requires own.tags == [] && own.params == []
    ensures Plain(Applied(r, OwnWrites(own))) == Plain(r)
  {
    AppliedNothing(r);
  }

  lemma BothKeepAhead(v: View, own: Own, events: bool)
    requires Ahead(v, events)
    requires v.waiting == [] || (own.tags == [] && own.params == [] && (events ==> own.events == []))
    ensures Ahead(Moved(v, Both(own)), events)
  {
    hide Upsert;
    var r, q := Applied(v.direct, OwnWrites(own)), Applied(v.queued, OwnWrites(own));
    if v.waiting != [] && events {
      NothingApplied(v.direct);
      NothingApplied(v.queued);
    } else if v.waiting != [] {
      EndKeepsPlain(v.direct, own);
      EndKeepsPlain(v.queued, own);
      PlainAll(q, v.queued, v.waiting);
    }
  }

  lemma MoveKeepsAhead(v: View, m: Move, events: bool)
    requires (v.over == [] ==> Ahead(v, events)) || m.Clear?
    requires m.Both? && v.waiting != [] ==> m.own.tags == [] && m.own.params == [] && (events ==> m.own.events == [])
    ensures Moved(v, m).over == [] ==> Ahead(Moved(v, m), events)
  {
    hide Applied, OwnWrites, Upsert;
    match m
    case Both(own) => if v.over == [] { BothKeepAhead(v, own, events); }
    case Queue(b) => AfterLast(v.queued, v.waiting, b);
    case Process => if v.waiting != [] { AfterFirst(v.queued, v.waiting); }
    case _ =>
  }

  lemma {:induction false} DirectIsAhead(env: Env, cfg: Limits.Config, steps: seq<Step>, run: string, events: bool)
    requires Refinement.Faultless(OpsOf(steps)) && Refinement.OneRunPerId(OpsOf(steps))
    requires events ==> !EndedPast(env, cfg, steps, run)
    ensures var v := ViewOf(env, cfg, steps, run); v.over == [] ==> Ahead(v, events)
    decreases |steps|
  {
    if steps != [] {
      var init, last := steps[..|steps| - 1], steps[|steps| - 1];
      OpsGrow(steps);
      var m := StepMoves(env, cfg, steps, run);
      hide Next, Moved, Ahead, Waiting, Refinement.Faultless, Refinement.OneRunPerId, Reached, Stale, Overtaken;
      if !Deletes(Reached(env, cfg, init), last, run) {
        DirectIsAhead(env, cfg, init, run, events);
      }
      MoveKeepsAhead(ViewOf(env, cfg, init, run), m, events);
    }
  }

  // ------------------------------------------------------------------ rows and events, exactly

  /** The metric rows or the events of a run. */
  function Listed(r: RunTables, l: Ledger): Items
    requires !l.PointLedger?
  {
    if l.RowLedger? then multiset(RowItems(r.metrics)) else multiset(EventItems(r.events))
  }

  function ItemsOfAll(batches: seq<Batch>, l: Ledger): Items {
    if batches == [] then multiset{} else multiset(ItemsOf(batches[0], l)) + ItemsOfAll(batches[1..], l)
  }

  lemma {:induction false} ItemsLast(batches: seq<Batch>, b: Batch, l: Ledger)
    ensures ItemsOfAll(batches + [b], l) == ItemsOfAll(batches, l) + multiset(ItemsOf(b, l))
    decreases |batches|
  {
    hide ItemsOf;
    var all := batches + [b];
    if batches == [] {
      assert all == [b] && all[1..] == [];
    } else {
      assert all[0] == batches[0] && all[1..] == batches[1..] + [b];
      ItemsLast(batches[1..], b, l);
      AddAssociates(multiset(ItemsOf(batches[0], l)), ItemsOfAll(batches[1..], l), multiset(ItemsOf(b, l)));
    }
  }

  lemma ItemsFirst(batches: seq<Batch>, l: Ledger)
    requires batches != []
    ensures ItemsOfAll(batches, l) == multiset(ItemsOf(batches[0], l)) + ItemsOfAll(batches[1..], l)
  {
  }

  lemma AddAssociates(a: Items, b: Items, c: Items)
    ensures (a + b) + c == a + (b + c)
  {
  }

  lemma AddBothSides(a: Items, b: Items, c: Items, d: Items, x: Items)
    requires a + b == c + d
    ensures (a + x) + b == (c + x) + d == c + (d + x) == a + (b + x)
  {
    assert (a + x) + b == (a + b) + x == a + (b + x);
    assert (c + x) + d == (c + d) + x == c + (d + x);
  }

  lemma RowItemsAdd(a: seq<MetricRow>, b: seq<MetricRow>)
    ensures multiset(RowItems(a + b)) == multiset(RowItems(a)) + multiset(RowItems(b))
  {
    assert RowItems(a + b) == RowItems(a) + RowItems(b);
  }

  lemma EventItemsAdd(a: seq<RunEvent>, b: seq<RunEvent>)
    ensures multiset(EventItems(a + b)) == multiset(EventItems(a)) + multiset(EventItems(b))
  {
    assert EventItems(a + b) == EventItems(a) + EventItems(b);
  }

  lemma ListedAfter(r: RunTables, b: Batch, l: Ledger)
    requires !l.PointLedger?
    ensures Listed(After(r, b), l) == Listed(r, l) + multiset(ItemsOf(b, l))
  {
    hide RowItems, EventItems, Upsert;
    RowItemsAdd(r.metrics, b.metrics);
    EventItemsAdd(r.events, AllEvents(b));
  }

  lemma ListedOwn(r: RunTables, own: Own, l: Ledger)
    requires !l.PointLedger?
    ensures Listed(Applied(r, OwnWrites(own)), l)
         == Listed(r, l) + if l.EventLedger? then multiset(EventItems(own.events)) else multiset{}
  {
    hide RowItems, EventItems, Upsert;
    assert r.metrics + [] == r.metrics;
    EventItemsAdd(r.events, own.events);
  }

  /** Direct mode and what was overtaken list what queued mode and what waits list. */
  predicate Balanced(v: View, l: Ledger)
    requires !l.PointLedger?
  {
    Listed(v.direct, l) + ItemsOfAll(v.over, l) == Listed(v.queued, l) + ItemsOfAll(v.waiting, l)
  }

  lemma MoveBalances(v: View, m: Move, l: Ledger)
    requires !l.PointLedger? && Balanced(v, l)
    ensures Balanced(Moved(v, m), l)
  {
    hide After, Applied, OwnWrites, Listed, ItemsOf, ItemsOfAll;
    var direct, over, queued, waiting := Listed(v.direct, l), ItemsOfAll(v.over, l), Listed(v.queued, l), ItemsOfAll(v.waiting, l);
    match m
    case Both(own) =>
      ListedOwn(v.direct, own, l);
      ListedOwn(v.queued, own, l);
      AddBothSides(direct, over, queued, waiting, if l.EventLedger? then multiset(EventItems(own.events)) else multiset{});
    case Queue(b) =>
      ListedAfter(v.direct, b, l);
      ItemsLast(v.waiting, b, l);
      AddBothSides(direct, over, queued, waiting, multiset(ItemsOf(b, l)));
    case Process =>
      if v.waiting != [] {
        ListedAfter(v.queued, v.waiting[0], l);
        ItemsFirst(v.waiting, l);
        AddAssociates(queued, multiset(ItemsOf(v.waiting[0], l)), ItemsOfAll(v.waiting[1..], l));
      }
    case Overtake(b) =>
      ListedAfter(v.queued, b, l);
      ItemsLast(v.over, b, l);
      AddBothSides(direct, over, queued, waiting, multiset(ItemsOf(b, l)));
    case _ =>
  }

  lemma {:induction false} AlwaysBalanced(env: Env, cfg: Limits.Config, steps: seq<Step>, run: string, l: Ledger)
    requires !l.PointLedger? && Refinement.Faultless(OpsOf(steps)) && Refinement.OneRunPerId(OpsOf(steps))
    ensures Balanced(ViewOf(env, cfg, steps, run), l)
    decreases |steps|
  {
    if steps != [] {
      OpsGrow(steps);
      var init := steps[..|steps| - 1];
      AlwaysBalanced(env, cfg, init, run, l);
      var m := StepMoves(env, cfg, steps, run);
      hide Moved, Balanced, ViewOf, Refinement.Faultless, Refinement.OneRunPerId;
      MoveBalances(ViewOf(env, cfg, init, run), m, l);
    }
  }

  lemma {:induction false} NoItemsIff(batches: seq<Batch>, l: Ledger)
    ensures ItemsOfAll(batches, l) == multiset{} <==> forall b :: b in batches ==> ItemsOf(b, l) == []
    decreases |batches|
  {
    if batches != [] {
      hide ItemsOf;
      NoItemsIff(batches[1..], l);
      assert batches == [batches[0]] + batches[1..];
      SomeItems(ItemsOf(batches[0], l));
      EmptySum(multiset(ItemsOf(batches[0], l)), ItemsOfAll(batches[1..], l));
    }
  }

  /** Exactly: once none of a run's batches waits, both modes hold the same rows, and the same events, if
      and only if no overtaken batch has any. */
  lemma SameItemsIff(env: Env, cfg: Limits.Config, steps: seq<Step>, run: string, l: Ledger)
    requires !l.PointLedger? && Refinement.Faultless(OpsOf(steps)) && Refinement.OneRunPerId(OpsOf(steps))
    ensures var p := Reached(env, cfg, steps);
            Waiting(p.store.stream, p.drained, Stale(env, cfg, steps), run) == [] ==>
              (Listed(TableOf(p.direct.tables, run), l) == Listed(TableOf(p.store.tables, run), l)
               <==> forall b :: b in Overtaken(env, cfg, steps, run) ==> ItemsOf(b, l) == [])
  {
    AlwaysBalanced(env, cfg, steps, run, l);
    var v := ViewOf(env, cfg, steps, run);
    NoItemsIff(v.over, l);
    hide Listed, ItemsOf, TableOf, Reached, Stale, Overtaken;
    if v.waiting == [] {
      assert ItemsOfAll(v.waiting, l) == multiset{};
      EmptyAddend(Listed(v.direct, l), ItemsOfAll(v.over, l));
    }
  }

  lemma EmptyAddend(a: Items, b: Items)
    ensures a == a + b <==> b == multiset{}
  {
    if a == a + b {
      assert |a + b| == |a| + |b|;
    }
  }

  // ------------------------------------------------------------------ rows, in their order

  function RowsOfAll(batches: seq<Batch>): seq<MetricRow> {
    if batches == [] then [] else batches[0].metrics + RowsOfAll(batches[1..])
  }

  lemma {:induction false} RowsLast(batches: seq<Batch>, b: Batch)
    ensures RowsOfAll(batches + [b]) == RowsOfAll(batches) + b.metrics
  {
    if batches == [] {
      assert [b][1..] == [] && batches + [b] == [b];
    } else {
      RowsLast(batches[1..], b);
      assert (batches + [b])[1..] == batches[1..] + [b];
    }
  }

  ghost predicate NoRows(batches: seq<Batch>) {
    forall b :: b in batches ==> b.metrics == []
  }

  ghost predicate RowsAhead(v: View) {
    NoRows(v.over) ==> v.direct.metrics == v.queued.metrics + RowsOfAll(v.waiting)
  }

  lemma MoveKeepsRows(v: View, m: Move)
    requires RowsAhead(v)
    ensures RowsAhead(Moved(v, m))
  {
    hide Upsert, AllEvents;
    match m
    case Both(own) =>
      assert v.direct.metrics + [] == v.direct.metrics && v.queued.metrics + [] == v.queued.metrics;
    case Queue(b) => RowsLast(v.waiting, b);
    case Overtake(b) =>
      assert b in v.over + [b] && forall x :: x in v.over ==> x in v.over + [b];
      assert v.queued.metrics + [] == v.queued.metrics;
    case _ =>
  }

  lemma {:induction false} AlwaysAhead(env: Env, cfg: Limits.Config, steps: seq<Step>, run: string)
    requires Refinement.Faultless(OpsOf(steps)) && Refinement.OneRunPerId(OpsOf(steps))
    ensures RowsAhead(ViewOf(env, cfg, steps, run))
    decreases |steps|
  {
    if steps != [] {
      OpsGrow(steps);
      var init := steps[..|steps| - 1];
      AlwaysAhead(env, cfg, init, run);
      var m := StepMoves(env, cfg, steps, run);
      hide Moved, RowsAhead, ViewOf, Refinement.Faultless, Refinement.OneRunPerId;
      MoveKeepsRows(ViewOf(env, cfg, init, run), m);
    }
  }

  /** Exactly, and in their order: once none of a run's batches waits, both modes hold the same metric rows if
      and only if no overtaken batch has any. */
  lemma SameRowsIff(env: Env, cfg: Limits.Config, steps: seq<Step>, run: string)
    requires Refinement.Faultless(OpsOf(steps)) && Refinement.OneRunPerId(OpsOf(steps))
    ensures var p := Reached(env, cfg, steps);
            Waiting(p.store.stream, p.drained, Stale(env, cfg, steps), run) == [] ==>
              (TableOf(p.direct.tables, run).metrics == TableOf(p.store.tables, run).metrics
               <==> forall b :: b in Overtaken(env, cfg, steps, run) ==> b.metrics == [])
  {
    AlwaysAhead(env, cfg, steps, run);
    SameItemsIff(env, cfg, steps, run, RowLedger);
    var v := ViewOf(env, cfg, steps, run);
    hide TableOf, Reached, Stale, Overtaken;
    if v.waiting == [] && v.direct.metrics == v.queued.metrics {
      forall b | b in v.over ensures b.metrics == [] {
        assert ItemsOf(b, RowLedger) == [];
      }
    }
    assert v.queued.metrics + [] == v.queued.metrics;
  }

  // ------------------------------------------------------------------ the refinement

  /** The refinement at any pace of the processor, with redeliveries, with runs created, ended and deleted:
      as soon as none of a run's batches waits and no deletion overtook one, queued mode holds for it what
      direct mode holds: the same rows, count, tags and params, the same events, and those in the same order
      unless the run was ended past a batch that was queued. */
  lemma InterleavedRefines(env: Env, cfg: Limits.Config, steps: seq<Step>, run: string)
    requires Refinement.Faultless(OpsOf(steps)) && Refinement.OneRunPerId(OpsOf(steps))
    requires var p := Reached(env, cfg, steps); Waiting(p.store.stream, p.drained, Stale(env, cfg, steps), run) == []
    requires Overtaken(env, cfg, steps, run) == []
    ensures var p := Reached(env, cfg, steps);
            var r, q := TableOf(p.direct.tables, run), TableOf(p.store.tables, run);
            && r.metrics == q.metrics && r.metricsCount == q.metricsCount && r.tags == q.tags && r.params == q.params
            && multiset(EventItems(r.events)) == multiset(EventItems(q.events))
            && (!EndedPast(env, cfg, steps, run) ==> r == q)
  {
    DirectIsAhead(env, cfg, steps, run, false);
    if !EndedPast(env, cfg, steps, run) { DirectIsAhead(env, cfg, steps, run, true); }
    SameItemsIff(env, cfg, steps, run, EventLedger);
    hide TableOf, Reached, Stale, Overtaken, EndedPast, EventItems;
    var v := ViewOf(env, cfg, steps, run);
    assert AfterAll(v.queued, v.waiting) == v.queued;
  }

  // ------------------------------------------------------------------ a deletion overtakes a batch

  lemma OneMoreStep(env: Env, cfg: Limits.Config, steps: seq<Step>, s: Step, run: string)
    ensures var p, stale, all := Reached(env, cfg, steps), Stale(env, cfg, steps), steps + [s];
            && Reached(env, cfg, all) == Next(env, cfg, p, s) && Stale(env, cfg, all) == MarkedStale(p, stale, s)
            && Overtaken(env, cfg, all, run) == OvertakenBy(p, stale, Overtaken(env, cfg, steps, run), s, run)
            && ViewOf(env, cfg, all, run) == ShownNext(env, cfg, p, stale, Overtaken(env, cfg, steps, run), s, run)
  {
    hide Next, OvertakenBy, MarkedStale, Shown;
    assert (steps + [s])[..|steps|] == steps;
  }

  /** Deleting a run leaves none of its tables and recorded ids. */
  lemma RunGone(env: Env, cfg: Limits.Config, p: Twin, run: string)
    requires p.direct.api == p.api && run in p.api.runs
    ensures var u := Next(env, cfg, p, ApiOp(DropRun(run)));
            && u.direct.api == u.api && run !in u.api.runs
            && u.store.stream == p.store.stream && u.drained == p.drained
            && u.store.recorded == WithoutRun(p.store.recorded, run)
            && TableOf(u.direct.tables, run) == BLANK && TableOf(u.store.tables, run) == BLANK
  {
    hide WithoutRun;
  }

  /** Creating it again leaves only what that writes. */
  lemma RunBack(env: Env, cfg: Limits.Config, p: Twin, run: string, project: string, own: Own)
    requires p.direct.api == p.api && run !in p.api.runs
    requires TableOf(p.direct.tables, run) == BLANK && TableOf(p.store.tables, run) == BLANK
    ensures var u := Next(env, cfg, p, ApiOp(InitRun(run, project, own)));
            && run in u.api.runs
            && u.store.stream == p.store.stream && u.drained == p.drained && u.store.recorded == p.store.recorded
            && TableOf(u.direct.tables, run) == Applied(BLANK, OwnWrites(own)) && TableOf(u.store.tables, run) == Applied(BLANK, OwnWrites(own))
  {
    hide OwnTables, Applied, OwnWrites, TableOf;
    OwnEffect(p.direct.tables, run, own, run);
    OwnEffect(p.store.tables, run, own, run);
  }

  /** A stale entry of a run that exists again is written all the same. */
  lemma NextOvertaken(env: Env, cfg: Limits.Config, p: Twin, stale: set<nat>)
    requires p.drained < |p.store.stream| && p.drained in stale
    requires p.store.stream[p.drained].run in p.api.runs && p.store.stream[p.drained].id !in p.store.recorded
    ensures var b := p.store.stream[p.drained];
            ShownNext(env, cfg, p, stale, [], Deliver(p.drained), b.run)
            == View(TableOf(p.direct.tables, b.run), After(TableOf(p.store.tables, b.run), b), Waiting(p.store.stream, p.drained + 1, stale, b.run), [b])
  {
    hide TableOf, After, Persisted, Waiting;
    var b := p.store.stream[p.drained];
    PersistedEffect(p.store.tables, b, b.run);
    assert [] + [b] == [b];
  }

  lemma GoneAndBack(env: Env, cfg: Limits.Config, p: Twin, run: string, project: string, own: Own)
    requires p.direct.api == p.api && run in p.api.runs
    ensures var u := Next(env, cfg, Next(env, cfg, p, ApiOp(DropRun(run))), ApiOp(InitRun(run, project, own)));
            && run in u.api.runs && u.store.stream == p.store.stream && u.drained == p.drained
            && u.store.recorded.Keys <= p.store.recorded.Keys
            && TableOf(u.direct.tables, run) == Applied(BLANK, OwnWrites(own)) && TableOf(u.store.tables, run) == Applied(BLANK, OwnWrites(own))
  {
    assert WithoutRun(p.store.recorded, run).Keys <= p.store.recorded.Keys;
    hide TableOf, Applied, OwnWrites, WithoutRun, Next;
    RunGone(env, cfg, p, run);
    RunBack(env, cfg, Next(env, cfg, p, ApiOp(DropRun(run))), run, project, own);
  }

  lemma HistoryBack(env: Env, cfg: Limits.Config, steps: seq<Step>, run: string, project: string, own: Own)
    requires var p := Reached(env, cfg, steps); p.direct.api == p.api && run in p.api.runs
    ensures var drop, back, p := ApiOp(DropRun(run)), ApiOp(InitRun(run, project, own)), Reached(env, cfg, steps);
            && Reached(env, cfg, steps + [drop] + [back]) == Next(env, cfg, Next(env, cfg, p, drop), back)
            && Stale(env, cfg, steps + [drop] + [back]) == MarkedStale(p, Stale(env, cfg, steps), drop)
            && Overtaken(env, cfg, steps + [drop] + [back], run) == []
  {
    hide Next, Reached, Stale, Overtaken, ViewOf;
    OneMoreStep(env, cfg, steps, ApiOp(DropRun(run)), run);
    OneMoreStep(env, cfg, steps + [ApiOp(DropRun(run))], ApiOp(InitRun(run, project, own)), run);
  }

  /** After any history: a deletion overtakes the next batch of its run when the run is created again before
      the batch is processed. Queued mode then holds the batch, which direct mode has deleted. */
  lemma DeletionOvertakes(env: Env, cfg: Limits.Config, steps: seq<Step>, project: string, own: Own)
    requires Refinement.Faultless(OpsOf(steps)) && Refinement.OneRunPerId(OpsOf(steps))
    requires var p := Reached(env, cfg, steps); p.drained < |p.store.stream| && p.drained !in Stale(env, cfg, steps)
    ensures var p := Reached(env, cfg, steps);
            var b := p.store.stream[p.drained];
            var v := ViewOf(env, cfg, steps + [ApiOp(DropRun(b.run))] + [ApiOp(InitRun(b.run, project, own))] + [Deliver(p.drained)], b.run);
            && v.direct == Applied(BLANK, OwnWrites(own)) && v.queued == After(v.direct, b)
            && v.over == [b]
  {
    AlwaysSound(env, cfg, steps);
    var p, stale := Reached(env, cfg, steps), Stale(env, cfg, steps);
    var b := p.store.stream[p.drained];
    DeliveredState(p, stale, p.drained);
    assert p.direct.api == p.api && b.id !in p.store.recorded && b.run in p.api.runs;
    var drop, back := ApiOp(DropRun(b.run)), ApiOp(InitRun(b.run, project, own));
    assert p.drained in MarkedStale(p, stale, drop);
    hide Sound, OpsOf, TableOf, Applied, OwnWrites, After, Reached, Stale, Overtaken, Next, ViewOf, MarkedStale, OvertakenBy;
    HistoryBack(env, cfg, steps, b.run, project, own);
    GoneAndBack(env, cfg, p, b.run, project, own);
    OneMoreStep(env, cfg, steps + [drop] + [back], Deliver(p.drained), b.run);
    NextOvertaken(env, cfg, Reached(env, cfg, steps + [drop] + [back]), Stale(env, cfg, steps + [drop] + [back]));
  }
}
