/** `IdempotencyStore`: batch deduplication, one lock section at a time. */
module Idempotency {
  import opened Wrappers

  type Key = (string, string)

  datatype Record = Record(
    project: string,
    seqNo: int,
    payloadHash: string,
    metricCount: int,
    paramCount: int,
    tagCount: int,
    eventCount: int)

  datatype Request = Request(run: string, batch: string, record: Record)

  datatype Outcome =
    | New
    | Duplicate
    | Conflict(expectedHash: string, actualHash: string)
    | OutOfOrder(expectedSeq: int, actualSeq: int)

  predicate ShouldProcess(o: Outcome) {
    o.New? || o.OutOfOrder?
  }

  /** The maps behind the two locks. */
  datatype Store = Store(batches: map<Key, Record>, sequences: map<string, int>)

  const EMPTY := Store(map[], map[])

  function KeyOf(req: Request): Key {
    (req.run, req.batch)
  }

  /** `get_sequence`. */
  function Current(st: Store, run: string): int {
    if run in st.sequences then st.sequences[run] else 0
  }

  // ------------------------------------------------------------------ the three lock sections

  /** Under the read lock of `batches`: an outcome if the key is known. */
  function ReadSection(st: Store, req: Request): Option<Outcome> {
    if KeyOf(req) !in st.batches then None
    else if st.batches[KeyOf(req)].payloadHash == req.record.payloadHash then Some(Duplicate)
    else Some(Conflict(st.batches[KeyOf(req)].payloadHash, req.record.payloadHash))
  }

  /** Under the write lock of `sequences`. */
  function SequenceSection(st: Store, req: Request): (Store, Outcome) {
    var seqNo, current := req.record.seqNo, Current(st, req.run);
    if 0 < seqNo < current then (st, OutOfOrder(current, seqNo))
    else if seqNo > current then (st.(sequences := st.sequences[req.run := seqNo]), New)
    else (st, New)
  }

  /** Under the write lock of `batches`. */
  function InsertSection(st: Store, req: Request): Store {
    st.(batches := st.batches[KeyOf(req) := req.record])
  }

  /** A call no other call interrupts. */
  function Checked(st: Store, req: Request): (Store, Outcome) {
    match ReadSection(st, req)
    case Some(outcome) => (st, outcome)
    case None =>
      var (sequenced, outcome) := SequenceSection(st, req);
      (InsertSection(sequenced, req), outcome)
  }

  function Cleared(st: Store, run: string): Store {
    Store(map k | k in st.batches && k.0 != run :: st.batches[k], st.sequences - {run})
  }

  class IdempotencyStore {
    var batches: map<Key, Record>
    var sequences: map<string, int>

    ghost function Contents(): Store
      reads this
    {
      Store(batches, sequences)
    }

    constructor ()
      ensures Contents() == EMPTY
    {
      batches := map[];
      sequences := map[];
    }

    method CheckAndRecord(req: Request) returns (outcome: Outcome)
      modifies this
      ensures (Contents(), outcome) == Checked(old(Contents()), req)
    {
      var key := (req.run, req.batch);
      if key in batches {
        var existing := batches[key];
        if existing.payloadHash == req.record.payloadHash {
          return Duplicate;
        }
        return Conflict(existing.payloadHash, req.record.payloadHash);
      }
      var current := if req.run in sequences then sequences[req.run] else 0;
      outcome := New;
      if 0 < req.record.seqNo < current {
        outcome := OutOfOrder(current, req.record.seqNo);
      } else if req.record.seqNo > current {
        sequences := sequences[req.run := req.record.seqNo];
      }
      batches := batches[key := req.record];
    }

    method CheckOnly(run: string, batch: string, payloadHash: string) returns (outcome: Outcome)
      ensures (run, batch) !in batches ==> outcome.New?
      ensures (run, batch) in batches ==>
                outcome == if batches[(run, batch)].payloadHash == payloadHash then Duplicate
                           else Conflict(batches[(run, batch)].payloadHash, payloadHash)
    {
      if (run, batch) in batches {
        var existing := batches[(run, batch)];
        if existing.payloadHash == payloadHash {
          return Duplicate;
        }
        return Conflict(existing.payloadHash, payloadHash);
      }
      return New;
    }

    method ClearRun(run: string)
      modifies this
      ensures Contents() == Cleared(old(Contents()), run)
      ensures forall key :: key in batches <==> key in old(batches) && key.0 != run
      ensures forall key :: key in batches ==> batches[key] == old(batches)[key]
      ensures sequences == old(sequences) - {run}
    {
      batches := map k | k in batches && k.0 != run :: batches[k];
      sequences := sequences - {run};
    }
  }

  // ------------------------------------------------------------------ calls that do not overlap

  /** The first of `reqs` with this key. */
  function First(reqs: seq<Request>, key: Key): Option<Request> {
    if reqs == [] then None
    else
      var earlier, last := First(reqs[..|reqs| - 1], key), reqs[|reqs| - 1];
      if earlier.Some? then earlier
      else if KeyOf(last) == key then Some(last) else None
  }

  /** The highest sequence number of the run among the requests that were first with their key. */
  function MaxSeen(reqs: seq<Request>, run: string): (max: int)
    ensures max >= 0
  {
    if reqs == [] then 0
    else
      var front, last := reqs[..|reqs| - 1], reqs[|reqs| - 1];
      var before := MaxSeen(front, run);
      if last.run == run && First(front, KeyOf(last)).None? && last.record.seqNo > before
      then last.record.seqNo else before
  }

  /** What a request is owed after `earlier`, said without the store. */
  function Owed(earlier: seq<Request>, req: Request): Outcome {
    match First(earlier, KeyOf(req))
    case Some(original) =>
      if original.record.payloadHash == req.record.payloadHash then Duplicate
      else Conflict(original.record.payloadHash, req.record.payloadHash)
    case None =>
      var max := MaxSeen(earlier, req.run);
      if 0 < req.record.seqNo < max then OutOfOrder(max, req.record.seqNo) else New
  }

  /** The store and the outcomes after serving `reqs` one by one. */
  function Serve(reqs: seq<Request>): (result: (Store, seq<Outcome>))
    ensures |result.1| == |reqs|
  {
    if reqs == [] then (EMPTY, [])
    else
      var (st, outcomes) := Serve(reqs[..|reqs| - 1]);
      var (after, outcome) := Checked(st, reqs[|reqs| - 1]);
      (after, outcomes + [outcome])
  }

  lemma {:induction false} FirstKey(reqs: seq<Request>, key: Key)
    ensures First(reqs, key).Some? ==> KeyOf(First(reqs, key).value) == key
    ensures First(reqs, key).Some? <==> exists i :: 0 <= i < |reqs| && KeyOf(reqs[i]) == key
    decreases |reqs|
  {
    if reqs != [] {
      var front := reqs[..|reqs| - 1];
      FirstKey(front, key);
      assert forall i :: 0 <= i < |front| ==> front[i] == reqs[i];
    }
  }

  /** The store holds, for each key, the record of its first request, and for each run the highest
      sequence number: neither a duplicate nor a conflict changes anything. */
  lemma {:induction false} StoreIsFirsts(reqs: seq<Request>, key: Key, run: string)
    ensures var st := Serve(reqs).0;
            && (key in st.batches <==> First(reqs, key).Some?)
            && (key in st.batches ==> st.batches[key] == First(reqs, key).value.record)
            && Current(st, run) == MaxSeen(reqs, run)
    decreases |reqs|
  {
    if reqs != [] {
      var front, last := reqs[..|reqs| - 1], reqs[|reqs| - 1];
      StoreIsFirsts(front, key, run);
      StoreIsFirsts(front, KeyOf(last), last.run);
      FirstKey(front, key);
    }
  }

  /** Every call gets what it is owed: exactly the first call of a key processes, a repeat is told
      whether its payload is the first one's, and OutOfOrder means 0 < seq < the highest seen. */
  lemma {:induction false} ServeGivesOwed(reqs: seq<Request>, i: nat)
    requires i < |reqs|
    ensures Serve(reqs).1[i] == Owed(reqs[..i], reqs[i])
    decreases |reqs|
  {
    var n := |reqs| - 1;
    var front, last := reqs[..n], reqs[n];
    if i < n {
      ServeGivesOwed(front, i);
      assert front[..i] == reqs[..i];
    } else {
      StoreIsFirsts(front, KeyOf(last), last.run);
    }
  }

  lemma ExactlyFirstProcesses(reqs: seq<Request>, i: nat)
    requires i < |reqs|
    ensures ShouldProcess(Serve(reqs).1[i]) <==> forall j :: 0 <= j < i ==> KeyOf(reqs[j]) != KeyOf(reqs[i])
  {
    ServeGivesOwed(reqs, i);
    FirstKey(reqs[..i], KeyOf(reqs[i]));
    assert forall j :: 0 <= j < i ==> reqs[..i][j] == reqs[j];
  }

  // ------------------------------------------------------------------ calls that interleave between sections

  datatype Phase = Reading | Sequencing | Inserting(decided: Outcome) | Done(outcome: Outcome)

  datatype Call = Call(req: Request, phase: Phase)

  datatype System = System(store: Store, calls: seq<Call>)

  /** Call `i` goes through its next lock section. */
  function Advance(s: System, i: nat): System
    requires i < |s.calls| && !s.calls[i].phase.Done?
  {
    var c := s.calls[i];
    match c.phase
    case Reading =>
      var next := match ReadSection(s.store, c.req) case Some(o) => Done(o) case None => Sequencing;
      s.(calls := s.calls[i := c.(phase := next)])
    case Sequencing =>
      var (store, o) := SequenceSection(s.store, c.req);
      System(store, s.calls[i := c.(phase := Inserting(o))])
    case Inserting(o) =>
      System(InsertSection(s.store, c.req), s.calls[i := c.(phase := Done(o))])
  }

  /** A new call arrives, or some call goes through its next section. */
  ghost predicate Next(s: System, t: System) {
    || (exists req :: t == s.(calls := s.calls + [Call(req, Reading)]))
    || (exists i: nat :: i < |s.calls| && !s.calls[i].phase.Done? && t == Advance(s, i))
  }

  ghost predicate IsRun(run: seq<System>) {
    && run != []
    && run[0] == System(EMPTY, [])
    && forall i :: 0 <= i < |run| - 1 ==> Next(run[i], run[i + 1])
  }

  /** Sequence numbers never go below zero, and cover every batch recorded or about to be. */
  ghost predicate Covered(s: System) {
    && (forall run :: run in s.store.sequences ==> s.store.sequences[run] > 0)
    && (forall key :: key in s.store.batches ==> s.store.batches[key].seqNo <= Current(s.store, key.0))
    && (forall i :: 0 <= i < |s.calls| && s.calls[i].phase.Inserting? ==>
          s.calls[i].req.record.seqNo <= Current(s.store, s.calls[i].req.run))
  }

  lemma AdvanceFrame(s: System, i: nat)
    requires i < |s.calls| && !s.calls[i].phase.Done?
    ensures Advance(s, i).calls == s.calls[i := Advance(s, i).calls[i]]
    ensures Advance(s, i).calls[i].req == s.calls[i].req
    ensures s.store.batches.Keys <= Advance(s, i).store.batches.Keys
    ensures Advance(s, i).store.batches.Keys <= s.store.batches.Keys + {KeyOf(s.calls[i].req)}
  {
  }

  lemma AdvanceStore(s: System, i: nat)
    requires i < |s.calls| && !s.calls[i].phase.Done? && Covered(s)
    ensures var t := Advance(s, i);
            && (forall run :: run in t.store.sequences ==> t.store.sequences[run] > 0)
            && (forall run :: Current(s.store, run) <= Current(t.store, run))
            && (t.calls[i].phase.Inserting? ==> t.calls[i].req.record.seqNo <= Current(t.store, t.calls[i].req.run))
  {
  }

  lemma AdvanceBatches(s: System, i: nat)
    requires i < |s.calls| && !s.calls[i].phase.Done? && Covered(s)
    ensures var t := Advance(s, i);
            forall key :: key in t.store.batches ==> t.store.batches[key].seqNo <= Current(t.store, key.0)
  {
    AdvanceStore(s, i);
    hide Current;
  }

  lemma NextKeepsCovered(s: System, t: System)
    requires Covered(s) && Next(s, t)
    ensures Covered(t)
    ensures forall run :: Current(s.store, run) <= Current(t.store, run)
    ensures forall key :: key in s.store.batches ==> key in t.store.batches
  {
    hide Current;
    if i: nat :| i < |s.calls| && !s.calls[i].phase.Done? && t == Advance(s, i) {
      AdvanceFrame(s, i);
      AdvanceStore(s, i);
      AdvanceBatches(s, i);
      hide Advance;
      assert forall j :: 0 <= j < |t.calls| && j != i ==> t.calls[j] == s.calls[j];
    } else {
      var req :| t == s.(calls := s.calls + [Call(req, Reading)]);
      assert forall j :: 0 <= j < |s.calls| ==> t.calls[j] == s.calls[j];
    }
  }

  lemma {:induction false} RunCovered(run: seq<System>, i: nat)
    requires IsRun(run) && i < |run|
    ensures Covered(run[i])
    decreases i
  {
    if i > 0 {
      RunCovered(run, i - 1);
      assert Next(run[i - 1], run[i - 1 + 1]);
      NextKeepsCovered(run[i - 1], run[i]);
    }
  }

  /** Under every interleaving, a run's stored sequence never goes down, and it is at least the
      sequence number of every recorded batch. */
  lemma {:induction false} SequenceMonotone(run: seq<System>, i: nat, j: nat, runId: string)
    requires IsRun(run) && i <= j < |run|
    ensures Current(run[i].store, runId) <= Current(run[j].store, runId)
    ensures forall key :: key in run[j].store.batches ==>
              run[j].store.batches[key].seqNo <= Current(run[j].store, key.0)
    decreases j - i
  {
    RunCovered(run, j);
    if i < j {
      SequenceMonotone(run, i, j - 1, runId);
      RunCovered(run, j - 1);
      assert Next(run[j - 1], run[j - 1 + 1]);
      NextKeepsCovered(run[j - 1], run[j]);
    }
  }

  /** The key is recorded, and call `c`, if it has started and is for that key, has not read or was
      turned away. */
  predicate TurnedAway(s: System, key: Key, c: nat) {
    && key in s.store.batches
    && (c < |s.calls| && KeyOf(s.calls[c].req) == key ==>
          s.calls[c].phase.Reading? || (s.calls[c].phase.Done? && !ShouldProcess(s.calls[c].phase.outcome)))
  }

  lemma NextKeepsTurnedAway(s: System, t: System, key: Key, c: nat)
    requires TurnedAway(s, key, c) && Next(s, t)
    ensures TurnedAway(t, key, c)
  {
    if i: nat :| i < |s.calls| && !s.calls[i].phase.Done? && t == Advance(s, i) {
      assert c < |s.calls| && c != i ==> t.calls[c] == s.calls[c];
    } else {
      var req :| t == s.(calls := s.calls + [Call(req, Reading)]);
      assert c < |s.calls| ==> t.calls[c] == s.calls[c];
    }
  }

  /** Once any call has recorded a key, no call that reads afterwards is told to process it. */
  lemma {:induction false} RecordedKeyTurnsAway(run: seq<System>, i: nat, j: nat, key: Key, c: nat)
    requires IsRun(run) && i <= j < |run|
    requires key in run[i].store.batches && (c < |run[i].calls| ==> run[i].calls[c].phase.Reading?)
    requires c < |run[j].calls| && KeyOf(run[j].calls[c].req) == key && run[j].calls[c].phase.Done?
    ensures !ShouldProcess(run[j].calls[c].phase.outcome)
  {
    StaysTurnedAway(run, i, j, key, c);
  }

  lemma {:induction false} StaysTurnedAway(run: seq<System>, i: nat, j: nat, key: Key, c: nat)
    requires IsRun(run) && i <= j < |run| && TurnedAway(run[i], key, c)
    ensures TurnedAway(run[j], key, c)
    decreases j - i
  {
    if i < j {
      StaysTurnedAway(run, i, j - 1, key, c);
      assert Next(run[j - 1], run[j - 1 + 1]);
      NextKeepsTurnedAway(run[j - 1], run[j], key, c);
    }
  }

  // Which calls are told to process, under every interleaving

  /** Call `c` goes through its reading section at step `i`. */
  ghost predicate ReadsAt(run: seq<System>, c: nat, i: nat) {
    i + 1 < |run| && c < |run[i].calls| && run[i].calls[c].phase.Reading? && run[i + 1] == Advance(run[i], c)
  }

  /** The call has read that its key is new, and keeps to it. */
  predicate Committed(s: System, key: Key, c: nat) {
    && c < |s.calls| && KeyOf(s.calls[c].req) == key
    && match s.calls[c].phase
       case Reading => false
       case Sequencing => true
       case Inserting(o) => ShouldProcess(o)
       case Done(o) => ShouldProcess(o)
  }

  lemma NextKeepsCommitted(s: System, t: System, key: Key, c: nat)
    requires Committed(s, key, c) && Next(s, t)
    ensures Committed(t, key, c)
  {
    if i: nat :| i < |s.calls| && !s.calls[i].phase.Done? && t == Advance(s, i) {
      assert c != i ==> t.calls[c] == s.calls[c];
    } else {
      var req :| t == s.(calls := s.calls + [Call(req, Reading)]);
      assert t.calls[c] == s.calls[c];
    }
  }

  lemma {:induction false} StaysCommitted(run: seq<System>, i: nat, j: nat, key: Key, c: nat)
    requires IsRun(run) && i <= j < |run| && Committed(run[i], key, c)
    ensures Committed(run[j], key, c)
    decreases j - i
  {
    hide Committed, Next;
    if i < j {
      StaysCommitted(run, i, j - 1, key, c);
      assert Next(run[j - 1], run[j - 1 + 1]);
      NextKeepsCommitted(run[j - 1], run[j], key, c);
    }
  }

  /** Under every interleaving, a call is told to process if and only if its key was not recorded when it
      read. */
  lemma ToldToProcessIff(run: seq<System>, i: nat, j: nat, c: nat)
    requires IsRun(run) && ReadsAt(run, c, i) && i < j < |run|
    requires c < |run[j].calls| && run[j].calls[c].phase.Done?
    ensures run[j].calls[c].req == run[i].calls[c].req
    ensures ShouldProcess(run[j].calls[c].phase.outcome) <==> KeyOf(run[i].calls[c].req) !in run[i].store.batches
  {
    var key := KeyOf(run[i].calls[c].req);
    SameRequest(run, i, j, c);
    if key in run[i].store.batches {
      RecordedKeyTurnsAway(run, i, j, key, c);
    } else {
      StaysCommitted(run, i + 1, j, key, c);
    }
  }

  lemma {:induction false} SameRequest(run: seq<System>, i: nat, j: nat, c: nat)
    requires IsRun(run) && i <= j < |run| && c < |run[i].calls|
    ensures c < |run[j].calls| && run[j].calls[c].req == run[i].calls[c].req
    ensures run[i].calls[c].phase.Done? ==> run[j].calls[c] == run[i].calls[c]
    decreases j - i
  {
    if i < j {
      SameRequest(run, i, j - 1, c);
      assert Next(run[j - 1], run[j - 1 + 1]);
      NextKeepsRequest(run[j - 1], run[j], c);
      hide Next;
    }
  }

  lemma NextKeepsRequest(s: System, t: System, c: nat)
    requires Next(s, t) && c < |s.calls|
    ensures c < |t.calls| && t.calls[c].req == s.calls[c].req
    ensures s.calls[c].phase.Done? ==> t.calls[c] == s.calls[c]
  {
    if i: nat :| i < |s.calls| && !s.calls[i].phase.Done? && t == Advance(s, i) {
      AdvanceFrame(s, i);
      hide Advance;
    } else {
      var req :| t == s.(calls := s.calls + [Call(req, Reading)]);
    }
  }

  /** A call that is past reading has read. */
  lemma {:induction false} HasRead(run: seq<System>, j: nat, c: nat) returns (i: nat)
    requires IsRun(run) && j < |run| && c < |run[j].calls| && !run[j].calls[c].phase.Reading?
    ensures i < j && ReadsAt(run, c, i)
    decreases j
  {
    assert Next(run[j - 1], run[j - 1 + 1]);
    if c < |run[j - 1].calls| && !run[j - 1].calls[c].phase.Reading? {
      i := HasRead(run, j - 1, c);
    } else {
      i := j - 1;
      ReadNow(run[j - 1], run[j], c);
    }
  }

  lemma ReadNow(s: System, t: System, c: nat)
    requires Next(s, t) && c < |t.calls| && !t.calls[c].phase.Reading?
    requires c < |s.calls| ==> s.calls[c].phase.Reading?
    ensures c < |s.calls| && s.calls[c].phase.Reading? && t == Advance(s, c)
  {
    if i: nat :| i < |s.calls| && !s.calls[i].phase.Done? && t == Advance(s, i) {
      AdvanceFrame(s, i);
      hide Advance;
    }
  }

  predicate ProcessedBy(s: System, key: Key, c: nat) {
    c < |s.calls| && KeyOf(s.calls[c].req) == key && s.calls[c].phase.Done? && ShouldProcess(s.calls[c].phase.outcome)
  }

  /** A recorded key was processed by some call. */
  ghost predicate RecordsProcessed(s: System) {
    forall key :: key in s.store.batches ==> exists c: nat :: ProcessedBy(s, key, c)
  }

  /** Outcomes decided in the sequence section are outcomes that process. */
  ghost predicate DecidedProcess(s: System) {
    forall c :: 0 <= c < |s.calls| && s.calls[c].phase.Inserting? ==> ShouldProcess(s.calls[c].phase.decided)
  }

  lemma NextKeepsDecided(s: System, t: System)
    requires DecidedProcess(s) && Next(s, t)
    ensures DecidedProcess(t)
  {
    if i: nat :| i < |s.calls| && !s.calls[i].phase.Done? && t == Advance(s, i) {
      assert forall j :: 0 <= j < |t.calls| && j != i ==> t.calls[j] == s.calls[j];
    } else {
      var req :| t == s.(calls := s.calls + [Call(req, Reading)]);
      assert forall j :: 0 <= j < |s.calls| ==> t.calls[j] == s.calls[j];
    }
  }

  lemma NextKeepsProcessed(s: System, t: System, key: Key)
    requires DecidedProcess(s) && RecordsProcessed(s) && Next(s, t) && key in t.store.batches
    ensures exists c: nat :: ProcessedBy(t, key, c)
  {
    if key in s.store.batches {
      var c: nat :| ProcessedBy(s, key, c);
      NextKeepsRequest(s, t, c);
      assert ProcessedBy(t, key, c);
    } else {
      var i: nat :| i < |s.calls| && !s.calls[i].phase.Done? && t == Advance(s, i);
      assert ProcessedBy(t, key, i);
    }
  }

  lemma {:induction false} RunProcessed(run: seq<System>, i: nat)
    requires IsRun(run) && i < |run|
    ensures DecidedProcess(run[i]) && RecordsProcessed(run[i])
    decreases i
  {
    hide ProcessedBy, Next;
    if i > 0 {
      RunProcessed(run, i - 1);
      assert Next(run[i - 1], run[i - 1 + 1]);
      NextKeepsDecided(run[i - 1], run[i]);
      hide DecidedProcess;
      forall key | key in run[i].store.batches ensures exists c: nat :: ProcessedBy(run[i], key, c) {
        NextKeepsProcessed(run[i - 1], run[i], key);
      }
    }
  }

  /** The call reads while its key is not recorded. */
  ghost predicate FreshReader(run: seq<System>, key: Key, c: nat) {
    exists i: nat :: ReadsAt(run, c, i) && KeyOf(run[i].calls[c].req) == key && key !in run[i].store.batches
  }

  ghost predicate Finished(s: System, key: Key) {
    forall c :: 0 <= c < |s.calls| && KeyOf(s.calls[c].req) == key ==> s.calls[c].phase.Done?
  }

  lemma ProcessedIffFresh(run: seq<System>, key: Key, c: nat)
    requires IsRun(run) && Finished(run[|run| - 1], key)
    ensures ProcessedBy(run[|run| - 1], key, c) <==> FreshReader(run, key, c)
  {
    var last := |run| - 1;
    if c < |run[last].calls| && KeyOf(run[last].calls[c].req) == key {
      var i := HasRead(run, last, c);
      ToldToProcessIff(run, i, last, c);
      if FreshReader(run, key, c) {
        var k: nat :| ReadsAt(run, c, k) && KeyOf(run[k].calls[c].req) == key && key !in run[k].store.batches;
        ToldToProcessIff(run, k, last, c);
      }
    } else if FreshReader(run, key, c) {
      var k: nat :| ReadsAt(run, c, k) && KeyOf(run[k].calls[c].req) == key;
      SameRequest(run, k, last, c);
      assert false;
    }
  }

  lemma SomeoneProcesses(run: seq<System>, key: Key, c: nat) returns (d: nat)
    requires IsRun(run) && Finished(run[|run| - 1], key)
    requires c < |run[|run| - 1].calls| && KeyOf(run[|run| - 1].calls[c].req) == key
    ensures ProcessedBy(run[|run| - 1], key, d)
  {
    var last := |run| - 1;
    var i := HasRead(run, last, c);
    ToldToProcessIff(run, i, last, c);
    if key in run[i].store.batches {
      RunProcessed(run, i);
      d :| ProcessedBy(run[i], key, d);
      SameRequest(run, i, last, d);
    } else {
      d := c;
    }
  }

  ghost predicate OnlyProcessor(s: System, key: Key, c: nat) {
    ProcessedBy(s, key, c) && forall d: nat :: ProcessedBy(s, key, d) ==> d == c
  }

  ghost predicate ProcessedOnce(s: System, key: Key) {
    exists c: nat :: OnlyProcessor(s, key, c)
  }

  /** Once all calls of a key are done, exactly one of them was told to process if and only if no two of
      them read before the key was recorded. */
  lemma ExactlyOneProcessesIff(run: seq<System>, key: Key, c: nat)
    requires IsRun(run) && Finished(run[|run| - 1], key)
    requires c < |run[|run| - 1].calls| && KeyOf(run[|run| - 1].calls[c].req) == key
    ensures ProcessedOnce(run[|run| - 1], key)
       <==> (forall d: nat, e: nat :: FreshReader(run, key, d) && FreshReader(run, key, e) ==> d == e)
  {
    hide Finished, ProcessedBy, FreshReader, Next;
    var last := run[|run| - 1];
    forall d: nat ensures ProcessedBy(last, key, d) <==> FreshReader(run, key, d) {
      ProcessedIffFresh(run, key, d);
    }
    var d := SomeoneProcesses(run, key, c);
    if forall d: nat, e: nat :: FreshReader(run, key, d) && FreshReader(run, key, e) ==> d == e {
      assert OnlyProcessor(last, key, d);
    }
  }

  /** Three sections with nothing in between are the uninterrupted call. */
  lemma UninterruptedCall(s: System, i: nat)
    requires i < |s.calls| && s.calls[i].phase.Reading?
    ensures var (store, outcome) := Checked(s.store, s.calls[i].req);
            var first := Advance(s, i);
            var last := if first.calls[i].phase.Done? then first else Advance(Advance(first, i), i);
            last == System(store, s.calls[i := Call(s.calls[i].req, Done(outcome))])
  {
    var c := s.calls[i];
    var first := Advance(s, i);
    if !first.calls[i].phase.Done? {
      var second := Advance(first, i);
      assert second.calls == s.calls[i := second.calls[i]];
      assert Advance(second, i).calls == s.calls[i := Call(c.req, Done(SequenceSection(s.store, c.req).1))];
    }
  }

  /** Why the calls must not overlap: two calls that both read before either records are both told to
      process, and the second one's payload replaces the first one's. */
  lemma OverlapProcessesTwice(a: Request, b: Request)
    requires KeyOf(a) == KeyOf(b)
    ensures var s := System(EMPTY, [Call(a, Reading), Call(b, Reading)]);
            var read := Advance(Advance(s, 0), 1);
            var sequenced := Advance(Advance(read, 0), 1);
            var done := Advance(Advance(sequenced, 0), 1);
            && done.calls[0].phase.Done? && ShouldProcess(done.calls[0].phase.outcome)
            && done.calls[1].phase.Done? && ShouldProcess(done.calls[1].phase.outcome)
            && done.store.batches == map[KeyOf(a) := b.record]
  {
    var s := System(EMPTY, [Call(a, Reading), Call(b, Reading)]);
    var read := Advance(Advance(s, 0), 1);
    assert read.calls == [Call(a, Sequencing), Call(b, Sequencing)];
    var sequenced := Advance(Advance(read, 0), 1);
    assert sequenced.calls[0].phase.Inserting? && sequenced.calls[1].phase.Inserting?;
    assert map[KeyOf(a) := a.record][KeyOf(b) := b.record] == map[KeyOf(a) := b.record];
  }
}
