/** The in-memory gRPC store: `RunMetrics`, and `InMemoryStore` at lock-section granularity. */
module RunMetrics {
  import opened Wrappers
  import opened Select
  import opened Downsample

  datatype Sample = Sample(name: string, point: Point)

  type Series = map<string, seq<Point>>

  function Added(m: Series, s: Sample): Series {
    m[s.name := (if s.name in m then m[s.name] else []) + [s.point]]
  }

  function AddedAll(m: Series, samples: seq<Sample>): Series {
    if samples == [] then m else Added(AddedAll(m, samples[..|samples| - 1]), samples[|samples| - 1])
  }

  /** How many points the map holds, over all names. */
  ghost function Total(m: Series): nat {
    if m == map[] then 0
    else
      var name :| name in m;
      |m[name]| + Total(m - {name})
  }

  lemma {:induction false} TotalWithout(m: Series, name: string)
    requires name in m
    ensures Total(m) == |m[name]| + Total(m - {name})
    decreases |m|
  {
    var other :| other in m && Total(m) == |m[other]| + Total(m - {other});
    if other != name {
      TotalWithout(m - {other}, name);
      TotalWithout(m - {name}, other);
      assert m - {other} - {name} == m - {name} - {other};
    }
  }

  lemma TotalAdded(m: Series, s: Sample)
    ensures Total(Added(m, s)) == Total(m) + 1
  {
    hide Total;
    var after := Added(m, s);
    TotalWithout(after, s.name);
    if s.name in m {
      TotalWithout(m, s.name);
      assert after - {s.name} == m - {s.name};
    } else {
      assert after - {s.name} == m;
    }
  }

  /** Adding points loses none, whatever their names. */
  lemma {:induction false} TotalAddedAll(m: Series, samples: seq<Sample>)
    ensures Total(AddedAll(m, samples)) == Total(m) + |samples|
    decreases |samples|
  {
    hide Total;
    if samples != [] {
      var last := |samples| - 1;
      TotalAddedAll(m, samples[..last]);
      TotalAdded(AddedAll(m, samples[..last]), samples[last]);
    }
  }

  function OfName(name: string): Sample -> seq<Point> {
    (s: Sample) => if s.name == name then [s.point] else []
  }

  /** Each named series goes on with the points of that name, in their order. */
  lemma {:induction false} AddedInOrder(m: Series, samples: seq<Sample>, name: string)
    ensures var before, more := if name in m then m[name] else [], FlatMap(samples, OfName(name));
            var after := AddedAll(m, samples);
            if name in m || more != [] then name in after && after[name] == before + more else name !in after
    decreases |samples|
  {
    if samples != [] {
      var last := |samples| - 1;
      AddedInOrder(m, samples[..last], name);
    }
  }

  // ------------------------------------------------------------------ queries

  datatype Answer = Answer(name: string, points: seq<Aggregate>, totalPoints: nat, downsampled: bool)

  predicate InRange(p: Point, start: Option<int>, end: Option<int>) {
    (start.None? || p.step >= start.value) && (end.None? || p.step <= end.value)
  }

  function Selected(points: seq<Point>, start: Option<int>, end: Option<int>): seq<Point> {
    Filter(points, p => InRange(p, start, end))
  }

  /** A limit of zero is only met by an empty selection. */
  predicate CanAnswer(m: Series, name: string, maxPoints: nat, start: Option<int>, end: Option<int>) {
    name in m && (maxPoints >= 1 || Selected(m[name], start, end) == [])
  }

  ghost predicate Answers(a: Answer, m: Series, maxPoints: nat, start: Option<int>, end: Option<int>) {
    && CanAnswer(m, a.name, maxPoints, start, end)
    && var inside := Filter(m[a.name], (p: Point) => (start.Some? ==> start.value <= p.step) && (end.Some? ==> p.step <= end.value));
       && a.totalPoints == |inside| && a.downsampled == (|inside| > maxPoints)
       && (maxPoints >= 1 || inside == []) && IsDownsampling(inside, maxPoints, a.points)
  }

  lemma SelectedAre(points: seq<Point>, start: Option<int>, end: Option<int>)
    ensures Selected(points, start, end)
         == Filter(points, (p: Point) => (start.Some? ==> start.value <= p.step) && (end.Some? ==> p.step <= end.value))
  {
    SameFilter(points, p => InRange(p, start, end), (p: Point) => (start.Some? ==> start.value <= p.step) && (end.Some? ==> p.step <= end.value));
  }

  function Present(m: Series, names: seq<string>): (present: seq<string>)
    ensures forall i :: 0 <= i < |present| ==> present[i] in m && present[i] in names
  {
    var present := Filter(names, n => n in m);
    assert forall n :: n in present ==> n in m && n in names by {
      forall n | n in present ensures n in m && n in names { FilterMember(names, n => n in m, n); }
    }
    present
  }

  function TotalsOf(answers: seq<Answer>): nat {
    if answers == [] then 0 else TotalsOf(answers[..|answers| - 1]) + answers[|answers| - 1].totalPoints
  }

  /** The answers cover `names`, each once. */
  ghost predicate OncePerName(answers: seq<Answer>, names: set<string>) {
    && (forall i, j :: 0 <= i < j < |answers| ==> answers[i].name != answers[j].name)
    && names == set i | 0 <= i < |answers| :: answers[i].name
  }

  lemma {:induction false} KeepAll(points: seq<Point>)
    ensures Selected(points, None, None) == points
    decreases |points|
  {
    if points != [] { KeepAll(points[1..]); }
  }

  lemma FrontNames(answers: seq<Answer>, m: Series)
    requires answers != [] && OncePerName(answers, m.Keys)
    ensures OncePerName(answers[..|answers| - 1], (m - {answers[|answers| - 1].name}).Keys)
  {
    var n := |answers| - 1;
    var init, last := answers[..n], answers[n].name;
    var names := set i | 0 <= i < |init| :: init[i].name;
    assert forall i :: 0 <= i < n ==> init[i] == answers[i];
    forall name | name in (m - {last}).Keys ensures name in names {
      assert name in m.Keys;
      var i :| 0 <= i < |answers| && answers[i].name == name;
      assert init[i].name == name;
    }
    forall name | name in names ensures name in (m - {last}).Keys {
      var i :| 0 <= i < |init| && init[i].name == name;
      assert answers[i].name in m.Keys;
    }
  }

  /** An unfiltered query over everything reports every stored point. */
  lemma {:induction false} UnfilteredTotals(answers: seq<Answer>, m: Series)
    requires OncePerName(answers, m.Keys)
    requires forall i :: 0 <= i < |answers| ==> answers[i].name in m ==> answers[i].totalPoints == |m[answers[i].name]|
    ensures TotalsOf(answers) == Total(m)
    decreases |answers|
  {
    hide Total;
    if answers == [] {
      assert m == map[];
      NothingStored();
    } else {
      var n := |answers| - 1;
      var last := answers[n];
      assert last.name in m.Keys;
      FrontNames(answers, m);
      hide OncePerName;
      assert forall i :: 0 <= i < n ==> answers[..n][i] == answers[i];
      UnfilteredTotals(answers[..n], m - {last.name});
      TotalWithout(m, last.name);
    }
  }

  lemma NothingStored()
    ensures Total(map[]) == 0
  {
  }

  class RunSeries {
    var metrics: Series

    constructor ()
      ensures metrics == map[]
    {
      metrics := map[];
    }

    method AddPoint(s: Sample)
      modifies this
      ensures metrics == Added(old(metrics), s)
    {
      var series := if s.name in metrics then metrics[s.name] else [];
      metrics := metrics[s.name := series + [s.point]];
    }

    method QueryOne(name: string, maxPoints: nat, start: Option<int>, end: Option<int>) returns (a: Answer)
      requires CanAnswer(metrics, name, maxPoints, start, end)
      ensures a.name == name && Answers(a, metrics, maxPoints, start, end)
    {
      hide IsDownsampling;
      var filtered := Selected(metrics[name], start, end);
      SelectedAre(metrics[name], start, end);
      var aggregated := DownsamplePoints(filtered, maxPoints);
      a := Answer(name, aggregated, |filtered|, |filtered| > maxPoints);
    }

    /** `query` with no names asks for all of them, in no particular order. */
    method QueryAll(maxPoints: nat, start: Option<int>, end: Option<int>) returns (answers: seq<Answer>)
      requires forall name :: name in metrics ==> CanAnswer(metrics, name, maxPoints, start, end)
      ensures OncePerName(answers, metrics.Keys)
      ensures forall i :: 0 <= i < |answers| ==> Answers(answers[i], metrics, maxPoints, start, end)
      ensures start.None? && end.None? ==> TotalsOf(answers) == Total(metrics)
    {
      hide IsDownsampling, Total, TotalsOf;
      answers := [];
      var left := metrics.Keys;
      while left != {}
        invariant left <= metrics.Keys && OncePerName(answers, metrics.Keys - left)
        invariant forall i :: 0 <= i < |answers| ==> Answers(answers[i], metrics, maxPoints, start, end)
        decreases left
      {
        var name :| name in left;
        var a := QueryOne(name, maxPoints, start, end);
        OneMoreName(answers, a, metrics.Keys - left);
        answers := answers + [a];
        left := left - {name};
        assert metrics.Keys - left == metrics.Keys - (left + {name}) + {name};
      }
      assert metrics.Keys - {} == metrics.Keys;
      if start.None? && end.None? {
        forall i | 0 <= i < |answers| ensures answers[i].totalPoints == |metrics[answers[i].name]| {
          KeepAll(metrics[answers[i].name]);
          SelectedAre(metrics[answers[i].name], None, None);
        }
        UnfilteredTotals(answers, metrics);
      }
    }

    /** `query` with names: those that exist, in the order given. */
    method QueryNamed(names: seq<string>, maxPoints: nat, start: Option<int>, end: Option<int>) returns (answers: seq<Answer>)
      requires forall name :: name in names && name in metrics ==> CanAnswer(metrics, name, maxPoints, start, end)
      ensures |answers| == |Present(metrics, names)|
      ensures forall i :: 0 <= i < |answers| ==>
                answers[i].name == Present(metrics, names)[i] && Answers(answers[i], metrics, maxPoints, start, end)
    {
      hide IsDownsampling;
      var present := Present(metrics, names);
      answers := [];
      while |answers| < |present|
        invariant |answers| <= |present|
        invariant forall i :: 0 <= i < |answers| ==>
                    answers[i].name == present[i] && Answers(answers[i], metrics, maxPoints, start, end)
      {
        var a := QueryOne(present[|answers|], maxPoints, start, end);
        answers := answers + [a];
      }
    }
  }

  lemma OneMoreName(answers: seq<Answer>, a: Answer, names: set<string>)
    requires OncePerName(answers, names) && a.name !in names
    ensures OncePerName(answers + [a], names + {a.name})
  {
    var longer := answers + [a];
    assert longer[|answers|] == a;
    assert forall i :: 0 <= i < |answers| ==> longer[i] == answers[i];
    forall i | 0 <= i < |answers| ensures answers[i].name != a.name {
      assert answers[i].name in names;
    }
    var all := set i | 0 <= i < |longer| :: longer[i].name;
    forall name | name in names + {a.name} ensures name in all {
      if name in names {
        var i :| 0 <= i < |answers| && answers[i].name == name;
        assert longer[i].name == name;
      } else {
        assert longer[|answers|].name == name;
      }
    }
  }
}

module GrpcStore {
  import opened Wrappers
  import opened RunMetrics

  datatype Run = Run(running: bool, metricsCount: nat)

  /** Where a `log_metrics` call stands: between its lock sections, or answered. */
  datatype Stage = Arrived | Marked | Counted | Accepted | Deduplicated | NotFound | NotRunning

  /** A request without a metrics part carries no points and leaves no series. */
  datatype Call = Call(run: string, batch: string, samples: Option<seq<Sample>>, stage: Stage)

  /** The three shared maps, and every call made so far. */
  datatype World = World(runs: map<string, Run>, seen: set<string>, metrics: map<string, Series>, calls: seq<Call>)

  datatype Action =
    | InitRun(run: string)
    | FinishRun(run: string, running: bool)
    | Arrive(run: string, batch: string, samples: Option<seq<Sample>>)
    | Proceed(call: nat)

  function BatchKey(run: string, batch: string): string {
    run + ":" + batch
  }

  function KeyOf(c: Call): string {
    BatchKey(c.run, c.batch)
  }

  function PointCount(c: Call): nat {
    if c.samples.None? then 0 else |c.samples.value|
  }

  function SeriesOf(w: World, run: string): Series {
    if run in w.metrics then w.metrics[run] else map[]
  }

  function CountOf(w: World, run: string): nat {
    if run in w.runs then w.runs[run].metricsCount else 0
  }

  predicate Enabled(w: World, a: Action) {
    match a
    case Proceed(i) => i < |w.calls| && w.calls[i].stage in {Arrived, Marked, Counted}
    case _ => true
  }

  function Become(w: World, i: nat, stage: Stage): World
    requires i < |w.calls|
  {
    w.(calls := w.calls[i := w.calls[i].(stage := stage)])
  }

  /** The next lock section of call `i`. */
  function Section(w: World, i: nat): World
    requires i < |w.calls|
  {
    var c := w.calls[i];
    match c.stage
    case Arrived =>
      if KeyOf(c) in w.seen then Become(w, i, Deduplicated)
      else Become(w.(seen := w.seen + {KeyOf(c)}), i, Marked)
    case Marked =>
      if c.run !in w.runs then Become(w, i, NotFound)
      else if !w.runs[c.run].running then Become(w, i, NotRunning)
      else
        var r := w.runs[c.run];
        Become(w.(runs := w.runs[c.run := r.(metricsCount := r.metricsCount + PointCount(c))]), i, Counted)
    case Counted =>
      Become(if c.samples.None? then w
             else w.(metrics := w.metrics[c.run := AddedAll(SeriesOf(w, c.run), c.samples.value)]), i, Accepted)
    case _ => w
  }

  function Do(w: World, a: Action): World
    requires Enabled(w, a)
  {
    match a
    case InitRun(run) => if run in w.runs then w else w.(runs := w.runs[run := Run(true, 0)])
    case FinishRun(run, running) => if run in w.runs then w.(runs := w.runs[run := w.runs[run].(running := running)]) else w
    case Arrive(run, batch, samples) => w.(calls := w.calls + [Call(run, batch, samples, Arrived)])
    case Proceed(i) => Section(w, i)
  }

  ghost predicate Reaches(w: World, u: World, actions: seq<Action>)
    decreases |actions|
  {
    if actions == [] then w == u
    else Enabled(w, actions[0]) && Reaches(Do(w, actions[0]), u, actions[1..])
  }

  const START := World(map[], {}, map[], [])

  // ------------------------------------------------------------------ conservation

  /** Points of the calls to `run` that stand at `stage`. */
  function Share(c: Call, run: string, stage: Stage): nat {
    if c.run == run && c.stage == stage then PointCount(c) else 0
  }

  function PointsAt(calls: seq<Call>, run: string, stage: Stage): nat {
    if calls == [] then 0 else Share(calls[0], run, stage) + PointsAt(calls[1..], run, stage)
  }

  lemma {:induction false} PointsUpdate(calls: seq<Call>, i: nat, c: Call, run: string, stage: Stage)
    requires i < |calls|
    ensures PointsAt(calls[i := c], run, stage) == PointsAt(calls, run, stage) - Share(calls[i], run, stage) + Share(c, run, stage)
    decreases i
  {
    if i == 0 {
      assert calls[i := c][1..] == calls[1..];
    } else {
      PointsUpdate(calls[1..], i - 1, c, run, stage);
      assert calls[i := c][1..] == calls[1..][i - 1 := c];
    }
  }

  lemma {:induction false} PointsArrive(calls: seq<Call>, c: Call, run: string, stage: Stage)
    ensures PointsAt(calls + [c], run, stage) == PointsAt(calls, run, stage) + Share(c, run, stage)
    decreases |calls|
  {
    if calls == [] {
      assert calls + [c] == [c] && [c][1..] == [];
    } else {
      PointsArrive(calls[1..], c, run, stage);
      assert (calls + [c])[1..] == calls[1..] + [c];
    }
  }

  /** A call that owns its key. */
  predicate Owns(c: Call) {
    c.stage != Arrived && c.stage != Deduplicated
  }

  /** The run's stored points are those of its accepted calls, and its count is those and the counted
      ones on their way. */
  ghost predicate Conserved(w: World, run: string) {
    && Total(SeriesOf(w, run)) == PointsAt(w.calls, run, Accepted)
    && CountOf(w, run) == Total(SeriesOf(w, run)) + PointsAt(w.calls, run, Counted)
  }

  /** No two calls own the same key, and an owned key is seen. */
  ghost predicate OneOwner(w: World) {
    && (forall i :: 0 <= i < |w.calls| && Owns(w.calls[i]) ==> KeyOf(w.calls[i]) in w.seen)
    && (forall i, j :: 0 <= i < j < |w.calls| && Owns(w.calls[i]) && Owns(w.calls[j]) ==> KeyOf(w.calls[i]) != KeyOf(w.calls[j]))
  }

  lemma StoreConserves(w: World, i: nat, run: string)
    requires i < |w.calls| && w.calls[i].stage == Counted && Conserved(w, run)
    ensures Conserved(Section(w, i), run)
  {
    hide PointsAt, Total, AddedAll, BatchKey;
    var c, after := w.calls[i], w.calls[i].(stage := Accepted);
    PointsUpdate(w.calls, i, after, run, Accepted);
    PointsUpdate(w.calls, i, after, run, Counted);
    if c.samples.Some? { TotalAddedAll(SeriesOf(w, c.run), c.samples.value); }
  }

  lemma SectionConserves(w: World, i: nat, run: string)
    requires i < |w.calls| && Conserved(w, run)
    ensures Conserved(Section(w, i), run)
  {
    hide PointsAt, Total, AddedAll, BatchKey;
    if w.calls[i].stage == Counted {
      StoreConserves(w, i, run);
    } else if w.calls[i].stage in {Arrived, Marked} {
      PointsUpdate(w.calls, i, Section(w, i).calls[i], run, Accepted);
      PointsUpdate(w.calls, i, Section(w, i).calls[i], run, Counted);
    }
  }

  lemma ActionConserves(w: World, a: Action, run: string)
    requires Enabled(w, a) && Conserved(w, run)
    ensures Conserved(Do(w, a), run)
  {
    hide PointsAt, Total, Section;
    match a
    case Proceed(i) => SectionConserves(w, i, run);
    case Arrive(r, b, s) =>
      PointsArrive(w.calls, Call(r, b, s, Arrived), run, Accepted);
      PointsArrive(w.calls, Call(r, b, s, Arrived), run, Counted);
    case _ =>
  }

  lemma SectionOwner(w: World, i: nat)
    requires i < |w.calls| && OneOwner(w)
    ensures OneOwner(Section(w, i))
  {
    hide AddedAll, BatchKey, PointCount;
    var u := Section(w, i);
    assert forall k :: 0 <= k < |w.calls| ==> KeyOf(u.calls[k]) == KeyOf(w.calls[k]);
    assert forall k :: 0 <= k < |w.calls| && k != i ==> u.calls[k] == w.calls[k];
    assert w.seen <= u.seen;
    assert w.calls[i].stage != Arrived ==> (Owns(u.calls[i]) <==> Owns(w.calls[i]));
  }

  lemma ActionOwner(w: World, a: Action)
    requires Enabled(w, a) && OneOwner(w)
    ensures OneOwner(Do(w, a))
  {
    hide Section;
    if a.Proceed? { SectionOwner(w, a.call); }
  }

  lemma StartConserved(run: string)
    ensures Conserved(START, run)
  {
    NothingStored();
  }

  /** Over every interleaving of lock sections, a run's count is its stored points plus those of the
      calls that counted and have not stored yet; the stored points are exactly those of the accepted
      calls; and a batch key is owned by one call at most. */
  lemma {:induction false} AlwaysConserved(w: World, u: World, actions: seq<Action>, run: string)
    requires Reaches(w, u, actions) && Conserved(w, run) && OneOwner(w)
    ensures Conserved(u, run) && OneOwner(u)
    decreases |actions|
  {
    hide Conserved, OneOwner, Do, Enabled;
    if actions != [] {
      ActionConserves(w, actions[0], run);
      ActionOwner(w, actions[0]);
      AlwaysConserved(Do(w, actions[0]), u, actions[1..], run);
    }
  }

  lemma ConservedFromStart(w: World, actions: seq<Action>, run: string)
    requires Reaches(START, w, actions)
    ensures CountOf(w, run) == Total(SeriesOf(w, run)) + PointsAt(w.calls, run, Counted)
    ensures Total(SeriesOf(w, run)) == PointsAt(w.calls, run, Accepted)
    ensures forall i, j :: 0 <= i < j < |w.calls| && Owns(w.calls[i]) && Owns(w.calls[j]) ==> KeyOf(w.calls[i]) != KeyOf(w.calls[j])
  {
    hide Reaches, Total, PointsAt;
    StartConserved(run);
    AlwaysConserved(START, w, actions, run);
  }

  // ------------------------------------------------------------------ what becomes of a deduplicated batch

  predicate OwnerOf(w: World, key: string, o: nat) {
    o < |w.calls| && Owns(w.calls[o]) && KeyOf(w.calls[o]) == key
  }

  /** A seen key has its owner, and a call is deduplicated only over a seen key. */
  ghost predicate SeenOwned(w: World) {
    && (forall key :: key in w.seen ==> exists o: nat :: OwnerOf(w, key, o))
    && (forall i :: 0 <= i < |w.calls| && w.calls[i].stage == Deduplicated ==> KeyOf(w.calls[i]) in w.seen)
  }

  /** Every point of the call is in the series of its run. */
  ghost predicate StoredIn(w: World, c: Call) {
    c.samples.Some? ==> forall k :: 0 <= k < |c.samples.value| ==> Has(SeriesOf(w, c.run), c.samples.value[k])
  }

  predicate Has(m: Series, s: Sample) {
    s.name in m && s.point in m[s.name]
  }

  /** Some accepted call of the run carries the point. */
  ghost predicate AcceptedHas(w: World, run: string, s: Sample) {
    SomeBrings(w.calls, run, s)
  }

  ghost predicate SomeBrings(calls: seq<Call>, run: string, s: Sample) {
    exists c: nat :: Brings(calls, c, run, s)
  }

  predicate Brings(calls: seq<Call>, c: nat, run: string, s: Sample) {
    c < |calls| && calls[c].stage == Accepted && calls[c].run == run && calls[c].samples.Some? && s in calls[c].samples.value
  }

  /** The series hold the points of the accepted calls and no others. */
  ghost predicate SeriesExact(w: World) {
    forall run, s :: Has(SeriesOf(w, run), s) <==> AcceptedHas(w, run, s)
  }

  ghost predicate Fated(w: World) {
    OneOwner(w) && SeenOwned(w) && SeriesExact(w)
  }

  lemma {:induction false} AddedHas(m: Series, samples: seq<Sample>, s: Sample)
    ensures Has(AddedAll(m, samples), s) <==> Has(m, s) || s in samples
    decreases |samples|
  {
    if samples != [] {
      AddedHas(m, samples[..|samples| - 1], s);
      assert s in samples <==> s in samples[..|samples| - 1] || s == samples[|samples| - 1];
    }
  }

  /** An owner keeps its key and its run. */
  lemma SectionOwned(w: World, i: nat, key: string, o: nat)
    requires i < |w.calls| && OwnerOf(w, key, o)
    ensures OwnerOf(Section(w, i), key, o)
  {
    hide AddedAll, BatchKey, PointCount;
  }

  lemma SectionSeen(w: World, i: nat)
    requires i < |w.calls| && SeenOwned(w)
    ensures SeenOwned(Section(w, i))
  {
    hide AddedAll, BatchKey, PointCount;
    var u := Section(w, i);
    forall key | key in u.seen ensures exists o: nat :: OwnerOf(u, key, o) {
      if key in w.seen {
        var o: nat :| OwnerOf(w, key, o);
        SectionOwned(w, i, key, o);
      } else {
        assert OwnerOf(u, key, i);
      }
    }
    assert forall k :: 0 <= k < |w.calls| && k != i ==> u.calls[k] == w.calls[k];
  }

  lemma BringsOthers(calls: seq<Call>, i: nat, c: Call, run: string, s: Sample)
    requires i < |calls| && calls[i].stage != Accepted
    ensures SomeBrings(calls[i := c], run, s) <==> SomeBrings(calls, run, s) || Brings([c], 0, run, s)
  {
    var after := calls[i := c];
    if k: nat :| Brings(calls, k, run, s) { assert Brings(after, k, run, s); }
    if Brings([c], 0, run, s) { assert Brings(after, i, run, s); }
    if k: nat :| Brings(after, k, run, s) { assert k != i ==> Brings(calls, k, run, s); }
  }

  lemma SectionExact(w: World, i: nat, run: string, s: Sample)
    requires i < |w.calls| && w.calls[i].stage in {Arrived, Marked, Counted}
    requires Has(SeriesOf(w, run), s) <==> AcceptedHas(w, run, s)
    ensures Has(SeriesOf(Section(w, i), run), s) <==> AcceptedHas(Section(w, i), run, s)
  {
    hide AddedAll, BatchKey, PointCount, Has;
    var c, u := w.calls[i], Section(w, i);
    BringsOthers(w.calls, i, u.calls[i], run, s);
    if c.stage == Counted && c.samples.Some? { AddedHas(SeriesOf(w, c.run), c.samples.value, s); }
  }

  lemma ArriveExact(w: World, c: Call, run: string, s: Sample)
    requires c.stage == Arrived
    ensures AcceptedHas(w.(calls := w.calls + [c]), run, s) <==> AcceptedHas(w, run, s)
  {
    var u := w.(calls := w.calls + [c]);
    if k: nat :| Brings(w.calls, k, run, s) { assert Brings(u.calls, k, run, s); }
    if k: nat :| Brings(u.calls, k, run, s) { assert Brings(w.calls, k, run, s); }
  }

  lemma ActionExact(w: World, a: Action, run: string, s: Sample)
    requires Enabled(w, a) && (Has(SeriesOf(w, run), s) <==> AcceptedHas(w, run, s))
    ensures Has(SeriesOf(Do(w, a), run), s) <==> AcceptedHas(Do(w, a), run, s)
  {
    hide Section, Has;
    match a
    case Proceed(i) => SectionExact(w, i, run, s);
    case Arrive(r, b, samples) => ArriveExact(w, Call(r, b, samples, Arrived), run, s);
    case _ =>
  }

  lemma ActionSeen(w: World, a: Action)
    requires Enabled(w, a) && SeenOwned(w)
    ensures SeenOwned(Do(w, a))
  {
    hide Section;
    if a.Proceed? {
      SectionSeen(w, a.call);
    } else {
      var u := Do(w, a);
      forall key | key in u.seen ensures exists o: nat :: OwnerOf(u, key, o) {
        var o: nat :| OwnerOf(w, key, o);
        assert OwnerOf(u, key, o);
      }
    }
  }

  lemma ActionFated(w: World, a: Action)
    requires Enabled(w, a) && Fated(w)
    ensures Fated(Do(w, a))
  {
    hide Do, OneOwner, SeenOwned, Has, AcceptedHas;
    ActionOwner(w, a);
    ActionSeen(w, a);
    forall run, s ensures Has(SeriesOf(Do(w, a), run), s) <==> AcceptedHas(Do(w, a), run, s) {
      ActionExact(w, a, run, s);
    }
  }

  lemma {:induction false} AlwaysFated(w: World, u: World, actions: seq<Action>)
    requires Reaches(w, u, actions) && Fated(w)
    ensures Fated(u)
    decreases |actions|
  {
    hide Fated, Do, Enabled;
    if actions != [] {
      ActionFated(w, actions[0]);
      AlwaysFated(Do(w, actions[0]), u, actions[1..]);
    }
  }

  /** The call that marked the key was refused. */
  predicate SpentBy(w: World, key: string, c: nat) {
    OwnerOf(w, key, c) && w.calls[c].stage in {NotFound, NotRunning}
  }

  /** In every reachable world a call's points are stored if and only if each is a point of some accepted
      call of its run; and a deduplicated call has exactly one owner of its key, of whatever content. */
  lemma StoredIff(w: World, actions: seq<Action>, i: nat)
    requires Reaches(START, w, actions) && i < |w.calls|
    ensures StoredIn(w, w.calls[i]) <==>
            (w.calls[i].samples.Some? ==>
               forall k :: 0 <= k < |w.calls[i].samples.value| ==> AcceptedHas(w, w.calls[i].run, w.calls[i].samples.value[k]))
    ensures w.calls[i].stage == Deduplicated ==>
              exists o: nat :: OnlyOwner(w, KeyOf(w.calls[i]), o) && o != i
  {
    hide Reaches, Has, AcceptedHas, BatchKey;
    StartFated();
    AlwaysFated(START, w, actions);
    if w.calls[i].stage == Deduplicated {
      var o: nat :| OwnerOf(w, KeyOf(w.calls[i]), o);
      assert OnlyOwner(w, KeyOf(w.calls[i]), o);
    }
  }

  ghost predicate OnlyOwner(w: World, key: string, o: nat) {
    OwnerOf(w, key, o) && forall p: nat :: OwnerOf(w, key, p) ==> p == o
  }

  lemma StartFated()
    ensures Fated(START)
  {
  }

  // A repeat is recognized by its key alone, whatever it carries

  datatype Message = Message(run: string, batch: string, samples: Option<seq<Sample>>)

  predicate Sent(w: World, i: nat, m: Message, stage: Stage) {
    i < |w.calls| && w.calls[i] == Call(m.run, m.batch, m.samples, stage)
  }

  /** `second` carries nothing that `first` does not, for the same run. */
  predicate CoveredBy(first: Message, second: Message) {
    second.samples.None? || second.samples.value == []
    || (second.run == first.run && first.samples.Some?
        && forall k :: 0 <= k < |second.samples.value| ==> second.samples.value[k] in first.samples.value)
  }

  /** Whenever the first was accepted and the second deduplicated, the second's points are stored. */
  ghost predicate NeverLost(first: Message, second: Message) {
    forall w, actions, i: nat, j: nat ::
      Reaches(START, w, actions) && Sent(w, i, first, Accepted) && Sent(w, j, second, Deduplicated) ==> StoredIn(w, w.calls[j])
  }

  lemma CoveredIsStored(first: Message, second: Message, w: World, actions: seq<Action>, i: nat, j: nat)
    requires CoveredBy(first, second) && Reaches(START, w, actions)
    requires Sent(w, i, first, Accepted) && Sent(w, j, second, Deduplicated)
    ensures StoredIn(w, w.calls[j])
  {
    hide Reaches, Has;
    StoredIff(w, actions, j);
    if second.samples.Some? {
      forall k | 0 <= k < |second.samples.value| ensures AcceptedHas(w, second.run, second.samples.value[k]) {
        assert Brings(w.calls, i, second.run, second.samples.value[k]);
      }
    }
  }

  /** The first accepted, the second answered as its repeat. */
  function RepeatedWorld(first: Message, second: Message): World {
    World(map[first.run := Run(true, if first.samples.None? then 0 else |first.samples.value|)],
          {BatchKey(first.run, first.batch)},
          if first.samples.None? then map[] else map[first.run := AddedAll(map[], first.samples.value)],
          [Call(first.run, first.batch, first.samples, Accepted), Call(second.run, second.batch, second.samples, Deduplicated)])
  }

  lemma RepeatedReached(first: Message, second: Message)
    requires BatchKey(first.run, first.batch) == BatchKey(second.run, second.batch)
    ensures Reaches(START, RepeatedWorld(first, second),
              [InitRun(first.run), Arrive(first.run, first.batch, first.samples), Proceed(0), Proceed(0), Proceed(0),
               Arrive(second.run, second.batch, second.samples), Proceed(1)])
  {
    hide BatchKey, AddedAll;
    var end := RepeatedWorld(first, second);
    var c, d := end.calls[0], end.calls[1];
    var w1 := START.(runs := map[first.run := Run(true, 0)]);
    var w2 := w1.(calls := [c.(stage := Arrived)]);
    var w3 := w2.(seen := end.seen, calls := [c.(stage := Marked)]);
    var w4 := w3.(runs := end.runs, calls := [c.(stage := Counted)]);
    var w5 := w4.(metrics := end.metrics, calls := [c]);
    var w6 := w5.(calls := [c, d.(stage := Arrived)]);
    var tail := [Proceed(0), Arrive(second.run, second.batch, second.samples), Proceed(1)];
    var head := [InitRun(first.run), Arrive(first.run, first.batch, first.samples), Proceed(0), Proceed(0)];
    assert Do(START, head[0]) == w1 && Do(w1, head[1]) == w2 && Do(w2, head[2]) == w3 && Do(w3, head[3]) == w4;
    assert Do(w4, tail[0]) == w5 && Do(w5, tail[1]) == w6 && Do(w6, tail[2]) == end;
    hide Do, Enabled;
    Through(START, w1, w2, w3, w4, head);
    Through(w4, w5, w6, end, end, tail);
    ReachesOn(START, w4, end, head, tail);
    assert head + tail == [InitRun(first.run), Arrive(first.run, first.batch, first.samples), Proceed(0), Proceed(0), Proceed(0),
               Arrive(second.run, second.batch, second.samples), Proceed(1)];
  }

  lemma {:induction false} ReachesOn(w: World, u: World, v: World, actions: seq<Action>, more: seq<Action>)
    requires Reaches(w, u, actions) && Reaches(u, v, more)
    ensures Reaches(w, v, actions + more)
    decreases |actions|
  {
    hide Do, Enabled;
    if actions == [] {
      assert actions + more == more;
    } else {
      ReachesOn(Do(w, actions[0]), u, v, actions[1..], more);
      assert (actions + more)[1..] == actions[1..] + more;
    }
  }

  /** There the second's points are not stored, unless the first covers them. */
  lemma UncoveredIsLost(first: Message, second: Message)
    requires !CoveredBy(first, second)
    ensures !StoredIn(RepeatedWorld(first, second), RepeatedWorld(first, second).calls[1])
  {
    hide BatchKey, AddedAll;
    var w := RepeatedWorld(first, second);
    if second.run == first.run && first.samples.Some? {
      var k :| 0 <= k < |second.samples.value| && second.samples.value[k] !in first.samples.value;
      AddedHas(map[], first.samples.value, second.samples.value[k]);
    } else {
      assert SeriesOf(w, second.run) == map[];
      assert !Has(SeriesOf(w, second.run), second.samples.value[0]);
    }
  }

  /** For two messages that share a key: the one answered as a repeat is never lost, in any world where
      the other was accepted, if and only if it carries nothing, or belongs to the same run and carries only
      points of the other. */
  lemma RepeatNeverLostIff(first: Message, second: Message)
    requires BatchKey(first.run, first.batch) == BatchKey(second.run, second.batch)
    ensures NeverLost(first, second) <==> CoveredBy(first, second)
  {
    hide Reaches, StoredIn, BatchKey;
    if CoveredBy(first, second) {
      forall w, actions, i: nat, j: nat |
        Reaches(START, w, actions) && Sent(w, i, first, Accepted) && Sent(w, j, second, Deduplicated)
        ensures StoredIn(w, w.calls[j])
      {
        CoveredIsStored(first, second, w, actions, i, j);
      }
    } else {
      var w := RepeatedWorld(first, second);
      RepeatedReached(first, second);
      UncoveredIsLost(first, second);
      assert Sent(w, 0, first, Accepted) && Sent(w, 1, second, Deduplicated);
    }
  }

  lemma ActionSpent(w: World, a: Action, key: string, c: nat)
    requires Enabled(w, a) && SpentBy(w, key, c)
    ensures SpentBy(Do(w, a), key, c)
  {
    hide AddedAll, BatchKey, PointCount;
  }

  /** A key once spent stays spent: whatever is sent later under it, no call of that key is ever counted or
      stored, and every one that is answered, but for the refused owner, is answered as a repeat. */
  lemma {:induction false} SpentForever(w: World, u: World, actions: seq<Action>, key: string, c: nat)
    requires Fated(w) && SpentBy(w, key, c) && Reaches(w, u, actions)
    ensures Fated(u) && SpentBy(u, key, c)
    ensures forall i :: 0 <= i < |u.calls| && KeyOf(u.calls[i]) == key && i != c ==> u.calls[i].stage in {Arrived, Deduplicated}
    decreases |actions|
  {
    hide Do, Enabled, BatchKey, StoredIn;
    if actions == [] {
      forall i | 0 <= i < |u.calls| && KeyOf(u.calls[i]) == key && i != c ensures u.calls[i].stage in {Arrived, Deduplicated} {
        assert !Owns(u.calls[i]);
      }
    } else {
      ActionFated(w, actions[0]);
      ActionSpent(w, actions[0], key, c);
      hide Fated, SpentBy;
      SpentForever(Do(w, actions[0]), u, actions[1..], key, c);
    }
  }

  lemma {:induction false} NothingCounted(calls: seq<Call>, run: string)
    requires forall i :: 0 <= i < |calls| ==> calls[i].stage != Counted
    ensures PointsAt(calls, run, Counted) == 0
    decreases |calls|
  {
    if calls != [] { NothingCounted(calls[1..], run); }
  }

  /** When no call is between its sections, the totals of an unfiltered query add up to the count. */
  lemma QuietTotals(w: World, actions: seq<Action>, run: string, answers: seq<Answer>)
    requires Reaches(START, w, actions)
    requires forall i :: 0 <= i < |w.calls| ==> w.calls[i].stage != Counted
    requires OncePerName(answers, SeriesOf(w, run).Keys)
    requires forall i :: 0 <= i < |answers| ==> answers[i].name in SeriesOf(w, run) ==>
               answers[i].totalPoints == |SeriesOf(w, run)[answers[i].name]|
    ensures TotalsOf(answers) == CountOf(w, run)
  {
    hide Reaches, Total, TotalsOf, PointsAt, OncePerName;
    StartConserved(run);
    AlwaysConserved(START, w, actions, run);
    NothingCounted(w.calls, run);
    UnfilteredTotals(answers, SeriesOf(w, run));
  }

  // ------------------------------------------------------------------ one call, uninterrupted

  class InMemoryStore {
    var runs: map<string, Run>
    var seen: set<string>
    var metrics: map<string, Series>
    ghost var calls: seq<Call>

    ghost function Now(): World
      reads this
    {
      World(runs, seen, metrics, calls)
    }

    constructor ()
      ensures Now() == START
    {
      runs, seen, metrics, calls := map[], {}, map[], [];
    }

    method Init(run: string) returns (resumed: bool)
      modifies this`runs
      ensures Now() == Do(old(Now()), InitRun(run))
      ensures runs == if run in old(runs) then old(runs) else old(runs)[run := Run(true, 0)]
      ensures resumed == (run in old(runs))
    {
      resumed := run in runs;
      if !resumed {
        runs := runs[run := Run(true, 0)];
      }
    }

    method Finish(run: string, running: bool) returns (total: Option<nat>)
      modifies this`runs
      ensures Now() == Do(old(Now()), FinishRun(run, running))
      ensures runs == if run in old(runs) then old(runs)[run := Run(running, old(runs)[run].metricsCount)] else old(runs)
      ensures total == if run in old(runs) then Some(old(runs)[run].metricsCount) else None
    {
      if run !in runs { return None; }
      runs := runs[run := runs[run].(running := running)];
      total := Some(runs[run].metricsCount);
    }

    /** Under the write lock of `seen_batches`. */
    method MarkSection(ghost n: nat, run: string, batch: string) returns (marked: bool)
      requires n < |calls| && calls[n].stage == Arrived && calls[n].run == run && calls[n].batch == batch
      modifies this`seen, this`calls
      ensures Now() == Section(old(Now()), n)
      ensures calls[n].stage == if marked then Marked else Deduplicated
    {
      var key := run + ":" + batch;
      marked := key !in seen;
      seen := seen + {key};
      assert !marked ==> seen == old(seen);
      calls := calls[n := calls[n].(stage := if marked then Marked else Deduplicated)];
    }

    /** Under the write lock of `runs`. */
    method CountSection(ghost n: nat, run: string, points: nat) returns (refusal: Option<Stage>)
      requires n < |calls| && calls[n].stage == Marked && calls[n].run == run && PointCount(calls[n]) == points
      modifies this`runs, this`calls
      ensures Now() == Section(old(Now()), n)
      ensures calls[n].stage == if refusal.Some? then refusal.value else Counted
      ensures refusal in {None, Some(NotFound), Some(NotRunning)}
    {
      hide PointCount;
      refusal := if run !in runs then Some(NotFound) else if !runs[run].running then Some(NotRunning) else None;
      if refusal.None? {
        runs := runs[run := runs[run].(metricsCount := runs[run].metricsCount + points)];
      }
      calls := calls[n := calls[n].(stage := if refusal.Some? then refusal.value else Counted)];
    }

    /** Under the write lock of `metrics`. */
    method StoreSection(ghost n: nat, run: string, samples: Option<seq<Sample>>)
      requires n < |calls| && calls[n].stage == Counted && calls[n].run == run && calls[n].samples == samples
      modifies this`metrics, this`calls
      ensures Now() == Section(old(Now()), n)
      ensures calls[n].stage == Accepted
    {
      if samples.Some? {
        var series := if run in metrics then metrics[run] else map[];
        var i := 0;
        while i < |samples.value|
          invariant 0 <= i <= |samples.value|
          invariant series == AddedAll(SeriesOf(old(Now()), run), samples.value[..i])
        {
          assert samples.value[..i + 1][..i] == samples.value[..i];
          series := Added(series, samples.value[i]);
          i := i + 1;
        }
        assert samples.value[..i] == samples.value;
        metrics := metrics[run := series];
      }
      hide AddedAll;
      calls := calls[n := calls[n].(stage := Accepted)];
    }

    /** `log_metrics` when no other call comes between its lock sections. */
    method LogMetrics(run: string, batch: string, samples: Option<seq<Sample>>)
      returns (answer: Stage, accepted: nat, ghost path: seq<Action>)
      modifies this
      ensures |calls| == |old(calls)| + 1 && calls[|old(calls)|].stage == answer
      ensures answer == if run + ":" + batch in old(seen) then Deduplicated
                        else if run !in old(runs) then NotFound
                        else if old(runs)[run].running then Accepted else NotRunning
      ensures seen == old(seen) + {run + ":" + batch}
      ensures answer != Accepted ==> runs == old(runs) && metrics == old(metrics)
      ensures answer == Accepted ==>
                && runs == old(runs)[run := Run(true, old(runs)[run].metricsCount + accepted)]
                && metrics == if samples.None? then old(metrics) else old(metrics)[run := AddedAll(SeriesOf(old(Now()), run), samples.value)]
      ensures accepted == if answer != Accepted || samples.None? then 0 else |samples.value|
      ensures Reaches(old(Now()), Now(), path)
    {
      ghost var n, w0 := |calls|, Now();
      path := [Arrive(run, batch, samples), Proceed(n), Proceed(n), Proceed(n)];
      calls := calls + [Call(run, batch, samples, Arrived)];
      ghost var w1 := Now();
      assert w1 == Do(w0, path[0]);
      var marked := MarkSection(n, run, batch);
      SectionFrame(w1, n);
      hide Section;
      ghost var w2 := Now();
      if !marked {
        path := path[..2];
        Through(w0, w1, w2, w2, w2, path);
        return Deduplicated, 0, path;
      }
      var points := if samples.None? then 0 else |samples.value|;
      var refusal := CountSection(n, run, points);
      SectionFrame(w2, n);
      ghost var w3 := Now();
      if refusal.Some? {
        path := path[..3];
        Through(w0, w1, w2, w3, w3, path);
        return refusal.value, 0, path;
      }
      StoreSection(n, run, samples);
      SectionFrame(w3, n);
      Through(w0, w1, w2, w3, Now(), path);
      return Accepted, points, path;
    }
  }

  /** A section changes only the stage of its own call. */
  lemma SectionFrame(w: World, i: nat)
    requires i < |w.calls|
    ensures |Section(w, i).calls| == |w.calls|
    ensures Section(w, i).calls[i] == w.calls[i].(stage := Section(w, i).calls[i].stage)
  {
    hide AddedAll, BatchKey;
  }

  /** A path of two to four steps; a shorter one leaves the last worlds equal. */
  lemma Through(w0: World, w1: World, w2: World, w3: World, w4: World, path: seq<Action>)
    requires 2 <= |path| <= 4
    requires Enabled(w0, path[0]) && w1 == Do(w0, path[0]) && Enabled(w1, path[1]) && w2 == Do(w1, path[1])
    requires if |path| > 2 then Enabled(w2, path[2]) && w3 == Do(w2, path[2]) else w3 == w2
    requires if |path| > 3 then Enabled(w3, path[3]) && w4 == Do(w3, path[3]) else w4 == w3
    ensures Reaches(w0, w4, path)
  {
    hide Do, Enabled;
    var p1, p2, p3 := path[1..], path[2..], if |path| > 2 then path[3..] else [];
    assert p1[1..] == p2;
    assert |path| > 2 ==> p2[1..] == p3;
    assert |path| > 3 ==> p3[1..] == [];
    assert Reaches(w4, w4, []);
    assert Reaches(w3, w4, p3);
    assert Reaches(w2, w4, p2);
    assert Reaches(w1, w4, p1);
  }

  // ------------------------------------------------------------------ what the batch key costs

  predicate SharesKey(r: string, b: string, r': string, b': string) {
    (r != r' || b != b') && BatchKey(r, b) == BatchKey(r', b')
  }

  lemma ColonAt(s: string) returns (i: nat)
    requires ':' in s
    ensures i < |s| && s == s[..i] + ":" + s[i + 1..]
  {
    i :| 0 <= i < |s| && s[i] == ':';
  }

  lemma NoSharedKey(r: string, b: string, r': string, b': string)
    requires ':' !in r && ':' !in b && BatchKey(r, b) == BatchKey(r', b')
    ensures r == r' && b == b'
  {
    var k := BatchKey(r, b);
    assert forall i :: 0 <= i < |r| ==> k[i] == r[i];
    assert forall i :: |r| < i < |k| ==> k[i] == b[i - |r| - 1];
    assert BatchKey(r', b')[|r'|] == ':';
    assert |r'| == |r|;
    assert r == k[..|r|] && r' == k[..|r'|];
    assert b == k[|r| + 1..] && b' == k[|r'| + 1..];
  }

  /** A batch shares its key with another one if and only if its run id or its batch id holds a colon. */
  lemma KeySharedIff(r: string, b: string)
    ensures (exists r', b' :: SharesKey(r, b, r', b')) <==> ':' in r || ':' in b
  {
    if ':' in r {
      var i := ColonAt(r);
      var r', b' := r[..i], r[i + 1..] + ":" + b;
      assert BatchKey(r', b') == r[..i] + ":" + r[i + 1..] + ":" + b;
      assert SharesKey(r, b, r', b');
    } else if ':' in b {
      var i := ColonAt(b);
      var r', b' := r + ":" + b[..i], b[i + 1..];
      assert BatchKey(r', b') == r + ":" + (b[..i] + ":" + b[i + 1..]);
      assert SharesKey(r, b, r', b');
    } else if r', b' :| SharesKey(r, b, r', b') {
      NoSharedKey(r, b, r', b');
      assert false;
    }
  }

  /** The key is spent before the run is looked up: a batch sent before its run exists leaves nothing, and
      in every later world every call of its key but that first one is waiting or answered as a repeat. */
  lemma EarlyBatchIsLost(run: string, batch: string, samples: Option<seq<Sample>>, later: seq<Action>, u: World)
    requires Reaches(EarlyWorld(run, batch, samples), u, later)
    ensures Reaches(START, EarlyWorld(run, batch, samples), [Arrive(run, batch, samples), Proceed(0), Proceed(0)])
    ensures SpentBy(u, BatchKey(run, batch), 0)
    ensures forall i :: 0 < i < |u.calls| && KeyOf(u.calls[i]) == BatchKey(run, batch) ==> u.calls[i].stage in {Arrived, Deduplicated}
  {
    hide BatchKey;
    var c := Call(run, batch, samples, Arrived);
    var w1 := World(map[], {}, map[], [c]);
    var w2 := World(map[], {KeyOf(c)}, map[], [c.(stage := Marked)]);
    var w3 := EarlyWorld(run, batch, samples);
    var path := [Arrive(run, batch, samples), Proceed(0), Proceed(0)];
    assert Do(START, path[0]) == w1 && Do(w1, path[1]) == w2 && Do(w2, path[2]) == w3;
    hide Do, Enabled;
    Through(START, w1, w2, w3, w3, path);
    AlwaysFated(START, w3, path);
    hide Fated, Reaches;
    SpentForever(w3, u, later, BatchKey(run, batch), 0);
  }

  /** After one call for an unknown run. */
  function EarlyWorld(run: string, batch: string, samples: Option<seq<Sample>>): World {
    World(map[], {BatchKey(run, batch)}, map[], [Call(run, batch, samples, NotFound)])
  }
}
