/** `downsample_points`: bucket aggregation of a metric series, in exact arithmetic. */
module BucketGrid {
  import opened Arithmetic

  // ------------------------------------------------------------------ the grid

  /** `count` buckets over `range` steps from `low`. */
  datatype Grid = Grid(low: int, range: int, count: int) {
    predicate Valid() {
      range >= 1 && count >= 1
    }

    function BucketSize(): (size: real)
      requires Valid()
      ensures size > 0.0 && size * count as real == range as real
    {
      range as real / count as real
    }

    /** The bucket of a step, clamped to the last one. */
    function Index(step: int): (k: int)
      requires Valid() && step >= low
      ensures 0 <= k < count
    {
      var k := ((step - low) as real / BucketSize()).Floor;
      IndexExact(step);
      Quotient((step - low) * count, range, 0);
      if k < count then k else count - 1
    }

    /** The step a bucket is labelled with; the cast to an integer truncates. */
    function Label(k: nat): int
      requires Valid()
    {
      low + (k as real * BucketSize()).Floor
    }

    lemma IndexExact(step: int)
      requires Valid()
      ensures ((step - low) as real / BucketSize()).Floor == (step - low) * count / range
    {
      var d, s := (step - low) as real, BucketSize();
      var x := d / s;
      assert x * s == d;
      assert x * range as real == d * count as real by {
        assert x * (s * count as real) == (x * s) * count as real;
      }
      assert ((step - low) * count) as real == d * count as real;
      FloorOfRatio(x, (step - low) * count, range);
    }

    lemma LabelExact(k: nat)
      requires Valid()
      ensures Label(k) == low + k * range / count
    {
      var x := k as real * BucketSize();
      assert x * count as real == k as real * range as real by {
        assert (k as real * BucketSize()) * count as real == k as real * (BucketSize() * count as real);
      }
      assert (k * range) as real == k as real * range as real;
      FloorOfRatio(x, k * range, count);
    }

    /** The steps of bucket `k`: from `k / count` of the range to below `(k + 1) / count` of it; the last
        bucket also holds every later step. */
    predicate Contains(k: int, step: int)
      requires Valid()
    {
      0 <= k < count && k * range <= (step - low) * count && (k == count - 1 || (step - low) * count < (k + 1) * range)
    }

    /** The label of bucket `k` is the last step at or before its start. */
    predicate IsLabel(k: int, step: int) {
      (step - low) * count <= k * range < (step - low + 1) * count
    }

    lemma LabelIs(k: nat)
      requires Valid()
      ensures IsLabel(k, Label(k))
    {
      LabelExact(k);
      var q := k * range / count;
      Quotient(k * range, count, q);
      Quotient(k * range, count, q + 1);
    }

    /** A step is in exactly one bucket, the one it is put into. */
    lemma IndexIs(step: int, k: int)
      requires Valid() && step >= low
      ensures Index(step) == k <==> Contains(k, step)
    {
      var d, i := (step - low) * count, Index(step);
      IndexExact(step);
      Quotient(d, range, i);
      Quotient(d, range, i + 1);
      if Contains(k, step) && k < i { MulMono(k + 1, i, range); }
      if Contains(k, step) && i < k { MulMono(i + 1, k, range); }
    }

    /** Later steps never fall into earlier buckets. */
    lemma IndexMonotone(a: int, b: int)
      requires Valid() && low <= a <= b
      ensures Index(a) <= Index(b)
    {
      IndexExact(a);
      IndexExact(b);
      MulMono(a - low, b - low, count);
      Quotient((a - low) * count, range, (a - low) * count / range);
      Quotient((b - low) * count, range, (a - low) * count / range);
    }

    /** A bucket's label is at most every step in it, and at least the first step of the series. */
    lemma LabelBelow(step: int)
      requires Valid() && step >= low
      ensures low <= Label(Index(step)) <= step
    {
      var d, k := step - low, Index(step);
      IndexExact(step);
      LabelExact(k);
      Quotient(d * count, range, k);
      Quotient(k * range, count, 0);
      MulMono(0, k, range);
      Quotient(k * range, count, d + 1);
      assert (d + 1) * count == d * count + count;
    }

    /** Labels rise with the bucket, strictly when there are at least as many steps as buckets. */
    lemma LabelsRise(j: nat, k: nat)
      requires Valid() && j < k
      ensures Label(j) <= Label(k)
      ensures range >= count ==> Label(j) < Label(k)
    {
      LabelExact(j);
      LabelExact(k);
      var q := j * range / count;
      Quotient(j * range, count, q);
      MulMono(j, k, range);
      Quotient(k * range, count, q);
      if range >= count {
        MulMono(j + 1, k, range);
        assert (j + 1) * range == j * range + range;
        assert (q + 1) * count == q * count + count;
        Quotient(k * range, count, q + 1);
      }
    }

    lemma {:induction false} StrictLabelsGrow(k: nat)
      requires Valid() && k < count && forall j: nat :: 0 < j < count ==> Label(j - 1) < Label(j)
      ensures Label(k) >= low + k
      decreases k
    {
      if k > 0 {
        StrictLabelsGrow(k - 1);
      } else {
        LabelExact(0);
        Quotient(0, count, 0);
      }
    }

    /** Labels are distinct exactly when there are as many steps as buckets, or just one bucket. */
    lemma LabelsDistinctIff()
      requires Valid()
      ensures (forall j: nat :: 0 < j < count ==> Label(j - 1) < Label(j)) <==> range >= count || count == 1
    {
      if range >= count {
        forall j: nat | 0 < j < count ensures Label(j - 1) < Label(j) { LabelsRise(j - 1, j); }
      } else if count > 1 && forall j: nat :: 0 < j < count ==> Label(j - 1) < Label(j) {
        StrictLabelsGrow(count - 1);
        LabelExact(count - 1);
        Quotient((count - 1) * range, count, count - 1);
        MulMono(range, count - 1, count - 1);
        assert false;
      }
    }
  }
}

module Downsample {
  import opened Arithmetic
  import opened Select
  import opened BucketGrid
  import opened SortedEmission

  datatype Point = Point(step: int, value: real)

  datatype Aggregate = Aggregate(step: int, mean: real, min: real, max: real, count: nat)

  function Sum(values: seq<real>): real {
    if values == [] then 0.0 else Sum(values[..|values| - 1]) + values[|values| - 1]
  }

  function MinOf(values: seq<real>): (m: real)
    requires values != []
    ensures m in values && forall i :: 0 <= i < |values| ==> m <= values[i]
  {
    var init, last := values[..|values| - 1], values[|values| - 1];
    if init == [] || last < MinOf(init) then last else MinOf(init)
  }

  function MaxOf(values: seq<real>): (m: real)
    requires values != []
    ensures m in values && forall i :: 0 <= i < |values| ==> m >= values[i]
  {
    var init, last := values[..|values| - 1], values[|values| - 1];
    if init == [] || last > MaxOf(init) then last else MaxOf(init)
  }

  function Summary(g: Grid, k: nat, values: seq<real>): Aggregate
    requires g.Valid() && values != []
  {
    Aggregate(g.Label(k), Sum(values) / |values| as real, MinOf(values), MaxOf(values), |values|)
  }

  // ------------------------------------------------------------------ the buckets

  predicate Covers(g: Grid, points: seq<Point>) {
    g.Valid() && forall i :: 0 <= i < |points| ==> points[i].step >= g.low
  }

  /** The values that fall into bucket `k`, in input order. */
  function ValuesIn(g: Grid, points: seq<Point>, k: int): seq<real>
    requires Covers(g, points)
  {
    if points == [] then []
    else
      var init, last := points[..|points| - 1], points[|points| - 1];
      ValuesIn(g, init, k) + if g.Index(last.step) == k then [last.value] else []
  }

  /** The aggregates of the buckets in `keys` below `n`, by rising bucket. */
  function Chosen(g: Grid, points: seq<Point>, n: nat, keys: set<int>): seq<Aggregate>
    requires Covers(g, points)
  {
    if n == 0 then [] else Chosen(g, points, n - 1, keys) + Bucket(g, points, n - 1, keys)
  }

  function Bucket(g: Grid, points: seq<Point>, k: nat, keys: set<int>): seq<Aggregate>
    requires Covers(g, points)
  {
    var values := ValuesIn(g, points, k);
    if k in keys && values != [] then [Summary(g, k, values)] else []
  }

  function Occupied(g: Grid, points: seq<Point>): set<int>
    requires Covers(g, points)
  {
    set k | 0 <= k < g.count && ValuesIn(g, points, k) != []
  }

  function Aggregates(g: Grid, points: seq<Point>): seq<Aggregate>
    requires Covers(g, points)
  {
    Chosen(g, points, g.count, Occupied(g, points))
  }

  lemma {:induction false} ChosenNone(g: Grid, points: seq<Point>, n: nat)
    requires Covers(g, points)
    ensures Chosen(g, points, n, {}) == []
    decreases n
  {
    hide ValuesIn;
    if n > 0 { ChosenNone(g, points, n - 1); }
  }

  lemma {:induction false} ChosenBelow(g: Grid, points: seq<Point>, n: nat, keys: set<int>, k: nat)
    requires Covers(g, points) && k >= n
    ensures Chosen(g, points, n, keys + {k}) == Chosen(g, points, n, keys)
    decreases n
  {
    hide ValuesIn, Summary;
    if n > 0 { ChosenBelow(g, points, n - 1, keys, k); }
  }

  lemma AppendContents<T>(a: seq<T>, b: seq<T>, c: seq<T>, x: T)
    requires multiset(b) == multiset(a) + multiset{x}
    ensures multiset(b + c) == multiset(a + c) + multiset{x}
  {
  }

  lemma BucketAdded(g: Grid, points: seq<Point>, j: nat, keys: set<int>, k: nat)
    requires Covers(g, points) && k !in keys && ValuesIn(g, points, k) != []
    ensures j != k ==> Bucket(g, points, j, keys + {k}) == Bucket(g, points, j, keys)
    ensures Bucket(g, points, k, keys) == [] && Bucket(g, points, k, keys + {k}) == [Summary(g, k, ValuesIn(g, points, k))]
  {
    hide ValuesIn, Summary;
  }

  /** Choosing one more bucket adds its aggregate. */
  lemma {:induction false} ChosenOneMore(g: Grid, points: seq<Point>, n: nat, keys: set<int>, k: nat)
    requires Covers(g, points) && k < n && k !in keys && ValuesIn(g, points, k) != []
    ensures multiset(Chosen(g, points, n, keys + {k}))
         == multiset(Chosen(g, points, n, keys)) + multiset{Summary(g, k, ValuesIn(g, points, k))}
    decreases n
  {
    hide Bucket, ValuesIn, Summary;
    BucketAdded(g, points, n - 1, keys, k);
    var before, after := Chosen(g, points, n - 1, keys), Chosen(g, points, n - 1, keys + {k});
    if k == n - 1 {
      ChosenBelow(g, points, k, keys, k);
      assert before + [] == before;
    } else {
      ChosenOneMore(g, points, n - 1, keys, k);
      AppendContents(before, after, Bucket(g, points, n - 1, keys), Summary(g, k, ValuesIn(g, points, k)));
    }
  }

  // ------------------------------------------------------------------ the program

  function Least(points: seq<Point>): (m: int)
    requires points != []
    ensures forall i :: 0 <= i < |points| ==> m <= points[i].step
    ensures exists i :: 0 <= i < |points| && m == points[i].step
  {
    var init, last := points[..|points| - 1], points[|points| - 1];
    if init == [] || last.step < Least(init) then last.step else Least(init)
  }

  function Most(points: seq<Point>): (m: int)
    requires points != []
    ensures forall i :: 0 <= i < |points| ==> m >= points[i].step
    ensures exists i :: 0 <= i < |points| && m == points[i].step
  {
    var init, last := points[..|points| - 1], points[|points| - 1];
    if init == [] || last.step > Most(init) then last.step else Most(init)
  }

  function GridOf(points: seq<Point>, maxPoints: nat): (g: Grid)
    requires points != [] && maxPoints >= 1
    ensures Covers(g, points)
  {
    var range := Most(points) - Least(points);
    Grid(Least(points), if range < 1 then 1 else range, maxPoints)
  }

  function Single(p: Point): Aggregate {
    Aggregate(p.step, p.value, p.value, p.value, 1)
  }

  function Singles(points: seq<Point>): (r: seq<Aggregate>)
    ensures |r| == |points|
  {
    if points == [] then [] else Singles(points[..|points| - 1]) + [Single(points[|points| - 1])]
  }

  function ByStep(): (Aggregate, Aggregate) -> bool {
    (a: Aggregate, b: Aggregate) => a.step <= b.step
  }

  lemma ByStepPreorder()
    ensures TotalPreorder(ByStep())
  {
  }

  method GroupIntoBuckets(g: Grid, points: seq<Point>) returns (buckets: map<int, seq<real>>)
    requires Covers(g, points)
    ensures buckets.Keys == Occupied(g, points)
    ensures forall k :: k in buckets ==> buckets[k] == ValuesIn(g, points, k)
  {
    buckets := map[];
    var i := 0;
    while i < |points|
      invariant 0 <= i <= |points|
      invariant forall k :: k in buckets ==> 0 <= k < g.count && buckets[k] == ValuesIn(g, points[..i], k) && buckets[k] != []
      invariant forall k :: k !in buckets ==> ValuesIn(g, points[..i], k) == []
    {
      var k := g.Index(points[i].step);
      assert points[..i + 1][..i] == points[..i];
      buckets := buckets[k := (if k in buckets then buckets[k] else []) + [points[i].value]];
      i := i + 1;
    }
    assert points[..i] == points;
  }

  /** The map is walked in no particular order. */
  method AggregateBuckets(g: Grid, points: seq<Point>, buckets: map<int, seq<real>>) returns (result: seq<Aggregate>)
    requires Covers(g, points) && buckets.Keys == Occupied(g, points)
    requires forall k :: k in buckets ==> buckets[k] == ValuesIn(g, points, k)
    ensures multiset(result) == multiset(Aggregates(g, points))
  {
    hide ValuesIn, Summary, Chosen;
    result := [];
    var left := buckets.Keys;
    ghost var done: set<int> := {};
    ChosenNone(g, points, g.count);
    while left != {}
      invariant left !! done && left + done == buckets.Keys
      invariant multiset(result) == multiset(Chosen(g, points, g.count, done))
      decreases left
    {
      var k :| k in left;
      ChosenOneMore(g, points, g.count, done, k);
      result := result + [Summary(g, k, buckets[k])];
      left, done := left - {k}, done + {k};
    }
    assert done == Occupied(g, points);
  }

  /** `downsample_points`. Buckets with equal labels come in no particular order. */
  ghost predicate IsDownsampling(points: seq<Point>, maxPoints: nat, result: seq<Aggregate>)
    requires maxPoints >= 1 || points == []
  {
    if |points| <= maxPoints then result == Singles(points)
    else multiset(result) == multiset(Aggregates(GridOf(points, maxPoints), points)) && Sorted(ByStep(), result)
  }

  method DownsamplePoints(points: seq<Point>, maxPoints: nat) returns (result: seq<Aggregate>)
    requires maxPoints >= 1 || points == []
    ensures IsDownsampling(points, maxPoints, result)
  {
    hide Aggregates, Sorted, ByStep, Occupied, ValuesIn;
    if |points| <= maxPoints {
      result := [];
      var i := 0;
      while i < |points|
        invariant 0 <= i <= |points|
        invariant result == Singles(points[..i])
      {
        assert points[..i + 1][..i] == points[..i];
        result := result + [Single(points[i])];
        i := i + 1;
      }
      assert points[..i] == points;
    } else {
      var low, high := points[0].step, points[0].step;
      var i := 1;
      while i < |points|
        invariant 1 <= i <= |points|
        invariant low == Least(points[..i]) && high == Most(points[..i])
      {
        assert points[..i + 1][..i] == points[..i];
        if points[i].step < low { low := points[i].step; }
        if points[i].step > high { high := points[i].step; }
        i := i + 1;
      }
      assert points[..i] == points;
      var g := Grid(low, if high - low < 1 then 1 else high - low, maxPoints);
      assert g == GridOf(points, maxPoints);
      var buckets := GroupIntoBuckets(g, points);
      var unsorted := AggregateBuckets(g, points, buckets);
      ByStepPreorder();
      SortCorrect(ByStep(), unsorted);
      result := Sort(ByStep(), unsorted);
    }
  }

  // ------------------------------------------------------------------ what a downsampled series keeps

  /** A number of points and the total of their values. */
  datatype Tally = Tally(count: nat, total: real)

  function Plus(a: Tally, b: Tally): Tally {
    Tally(a.count + b.count, a.total + b.total)
  }

  lemma PlusAssociates(a: Tally, b: Tally, c: Tally)
    ensures Plus(Plus(a, b), c) == Plus(a, Plus(b, c))
    ensures Plus(Plus(a, b), c) == Plus(Plus(a, c), b)
    ensures Plus(a, NOTHING) == a
  {
  }

  const NOTHING := Tally(0, 0.0)

  function Share(a: Aggregate): Tally {
    Tally(a.count, a.mean * a.count as real)
  }

  /** What the aggregates stand for. */
  function Stands(aggs: seq<Aggregate>): Tally {
    if aggs == [] then NOTHING else Plus(Stands(aggs[..|aggs| - 1]), Share(aggs[|aggs| - 1]))
  }

  function Values(points: seq<Point>): (values: seq<real>)
    ensures |values| == |points|
    ensures forall i :: 0 <= i < |points| ==> values[i] == points[i].value
  {
    seq(|points|, i requires 0 <= i < |points| => points[i].value)
  }

  lemma LastStands(aggs: seq<Aggregate>, x: Aggregate)
    ensures Stands(aggs + [x]) == Plus(Stands(aggs), Share(x))
  {
    hide Plus, Share;
    assert (aggs + [x])[..|aggs|] == aggs;
  }

  lemma StandsNothing()
    ensures Stands([]) == NOTHING
  {
  }

  lemma {:induction false} StandsAppend(a: seq<Aggregate>, b: seq<Aggregate>)
    ensures Stands(a + b) == Plus(Stands(a), Stands(b))
    decreases |b|
  {
    hide Share, Plus, Stands;
    if b == [] {
      assert a + b == a;
      StandsNothing();
      PlusAssociates(Stands(a), NOTHING, NOTHING);
    } else {
      var init, x := b[..|b| - 1], b[|b| - 1];
      StandsAppend(a, init);
      LastStands(a + init, x);
      LastStands(init, x);
      assert b == init + [x] && a + b == a + init + [x];
      PlusAssociates(Stands(a), Stands(init), Share(x));
    }
  }

  lemma StandsOne(x: Aggregate)
    ensures Stands([x]) == Share(x)
  {
    hide Share;
    LastStands([], x);
    assert [] + [x] == [x];
    assert Plus(NOTHING, Share(x)) == Share(x);
  }

  lemma StandsWithout(s: seq<Aggregate>, i: nat)
    requires i < |s|
    ensures Stands(s) == Plus(Stands(s[..i] + s[i + 1..]), Share(s[i]))
  {
    hide Stands, Share, Plus;
    var a, b := s[..i], s[i + 1..];
    assert s == a + [s[i]] + b;
    StandsAppend(a + [s[i]], b);
    StandsAppend(a, [s[i]]);
    StandsOne(s[i]);
    StandsAppend(a, b);
    PlusAssociates(Stands(a), Share(s[i]), Stands(b));
  }

  /** What aggregates stand for does not depend on their order. */
  lemma {:induction false} StandsPermuted(a: seq<Aggregate>, b: seq<Aggregate>)
    requires multiset(a) == multiset(b)
    ensures Stands(a) == Stands(b)
    decreases |a|
  {
    hide Stands, Share, Plus;
    if a == [] {
      assert |multiset(b)| == 0;
    } else {
      var last := |a| - 1;
      assert a[last] in multiset(a);
      var i := FindIn(b, a[last]);
      Without(a, last);
      Without(b, i);
      var rest, left := a[..last] + a[last + 1..], b[..i] + b[i + 1..];
      assert multiset(rest) == multiset(a) - multiset{a[last]} && multiset(left) == multiset(b) - multiset{b[i]};
      StandsPermuted(rest, left);
      StandsWithout(a, last);
      StandsWithout(b, i);
    }
  }

  lemma SummaryStands(g: Grid, k: nat, values: seq<real>)
    requires g.Valid() && values != []
    ensures Stands([Summary(g, k, values)]) == Tally(|values|, Sum(values))
  {
    hide Sum, MinOf, MaxOf, Stands;
    StandsOne(Summary(g, k, values));
    MeanTimesCount(Sum(values), |values| as real);
  }

  /** Points and total value below bucket `n`. */
  function Below(g: Grid, points: seq<Point>, n: int): Tally
    requires Covers(g, points)
  {
    if points == [] then NOTHING
    else
      var last := points[|points| - 1];
      Plus(Below(g, points[..|points| - 1], n), if g.Index(last.step) < n then Tally(1, last.value) else NOTHING)
  }

  lemma SumOneMore(values: seq<real>, v: real)
    ensures Sum(values + [v]) == Sum(values) + v
  {
    assert (values + [v])[..|values|] == values;
  }

  lemma {:induction false} BelowSteps(g: Grid, points: seq<Point>, k: nat)
    requires Covers(g, points)
    ensures var values := ValuesIn(g, points, k);
            Below(g, points, k + 1) == Plus(Below(g, points, k), Tally(|values|, Sum(values)))
    decreases |points|
  {
    if points != [] {
      var init, last := points[..|points| - 1], points[|points| - 1];
      BelowSteps(g, init, k);
      hide Sum;
      SumOneMore(ValuesIn(g, init, k), last.value);
      assert ValuesIn(g, init, k) + [] == ValuesIn(g, init, k);
    }
  }

  lemma {:induction false} BelowNone(g: Grid, points: seq<Point>)
    requires Covers(g, points)
    ensures Below(g, points, 0) == NOTHING
    decreases |points|
  {
    if points != [] {
      BelowNone(g, points[..|points| - 1]);
      assert 0 <= g.Index(points[|points| - 1].step);
    }
  }

  lemma {:induction false} BelowAll(g: Grid, points: seq<Point>)
    requires Covers(g, points)
    ensures Below(g, points, g.count) == Tally(|points|, Sum(Values(points)))
    decreases |points|
  {
    if points != [] {
      var init, last := points[..|points| - 1], points[|points| - 1];
      BelowAll(g, init);
      assert Values(points) == Values(init) + [last.value];
      hide Sum, Values;
      SumOneMore(Values(init), last.value);
      assert g.Index(last.step) < g.count;
    } else {
      SumNothing();
    }
  }

  lemma BucketStands(g: Grid, points: seq<Point>, k: nat)
    requires Covers(g, points) && k < g.count
    ensures var values := ValuesIn(g, points, k);
            Stands(Bucket(g, points, k, Occupied(g, points))) == Tally(|values|, Sum(values))
  {
    hide ValuesIn, Summary, Sum, Stands;
    var values := ValuesIn(g, points, k);
    if values != [] { SummaryStands(g, k, values); } else { SumNothing(); StandsNothing(); }
  }

  lemma {:induction false} ChosenStands(g: Grid, points: seq<Point>, n: nat)
    requires Covers(g, points) && n <= g.count
    ensures Stands(Chosen(g, points, n, Occupied(g, points))) == Below(g, points, n)
    decreases n
  {
    hide Below, ValuesIn, Sum, Occupied, Bucket, Stands, Plus;
    if n > 0 {
      ChosenStands(g, points, n - 1);
      BelowSteps(g, points, n - 1);
      BucketStands(g, points, n - 1);
      StandsAppend(Chosen(g, points, n - 1, Occupied(g, points)), Bucket(g, points, n - 1, Occupied(g, points)));
    } else {
      BelowNone(g, points);
      StandsNothing();
    }
  }

  lemma SumNothing()
    ensures Sum([]) == 0.0
  {
  }

  lemma {:induction false} SinglesStand(points: seq<Point>)
    ensures Stands(Singles(points)) == Tally(|points|, Sum(Values(points)))
    decreases |points|
  {
    if points == [] {
      SumNothing();
    } else {
      var init, last := points[..|points| - 1], points[|points| - 1];
      SinglesStand(init);
      LastStands(Singles(init), Single(last));
      assert Values(points) == Values(init) + [last.value];
      SumOneMore(Values(init), last.value);
      hide Stands, Sum, Values;
    }
  }

  lemma {:induction false} SumBounds(values: seq<real>, low: real, high: real)
    requires forall i :: 0 <= i < |values| ==> low <= values[i] <= high
    ensures low * |values| as real <= Sum(values) <= high * |values| as real
    decreases |values|
  {
    if values != [] {
      var init := values[..|values| - 1];
      SumBounds(init, low, high);
      var n := |init| as real;
      assert low * (n + 1.0) == low * n + low && high * (n + 1.0) == high * n + high;
    }
  }

  lemma MeanBounds(low: real, total: real, high: real, n: real)
    requires n > 0.0 && low * n <= total <= high * n
    ensures low <= total / n <= high
  {
    MeanTimesCount(total, n);
    RealMulOrder(low, total / n, n);
    RealMulOrder(total / n, high, n);
  }

  /** A bucket's mean lies between its extremes, which are values of the bucket. */
  predicate Tight(a: Aggregate) {
    a.count >= 1 && a.min <= a.mean <= a.max
  }

  lemma SummaryTight(g: Grid, k: nat, values: seq<real>)
    requires g.Valid() && values != []
    ensures Tight(Summary(g, k, values))
  {
    hide Sum;
    SumBounds(values, MinOf(values), MaxOf(values));
    MeanBounds(MinOf(values), Sum(values), MaxOf(values), |values| as real);
  }

  /** The extremes of an aggregate are values of the series. */
  ghost predicate Drawn(a: Aggregate, points: seq<Point>) {
    (exists p :: p in points && p.value == a.min) && (exists p :: p in points && p.value == a.max)
  }

  lemma {:induction false} ValueComesFrom(g: Grid, points: seq<Point>, k: int, v: real)
    requires Covers(g, points) && v in ValuesIn(g, points, k)
    ensures exists p :: p in points && p.value == v
    decreases |points|
  {
    var init, last := points[..|points| - 1], points[|points| - 1];
    if v in ValuesIn(g, init, k) {
      ValueComesFrom(g, init, k, v);
      var p :| p in init && p.value == v;
      assert p in points;
    } else {
      assert last in points;
    }
  }

  lemma {:induction false} ValueGoesTo(g: Grid, points: seq<Point>, i: nat)
    requires Covers(g, points) && i < |points|
    ensures points[i].value in ValuesIn(g, points, g.Index(points[i].step))
    decreases |points|
  {
    var init, last := points[..|points| - 1], points[|points| - 1];
    if i < |init| {
      ValueGoesTo(g, init, i);
    }
  }

  lemma {:induction false} ChosenMembers(g: Grid, points: seq<Point>, n: nat, keys: set<int>)
    requires Covers(g, points)
    ensures |Chosen(g, points, n, keys)| <= n
    ensures forall i :: 0 <= i < |Chosen(g, points, n, keys)| ==>
              Tight(Chosen(g, points, n, keys)[i]) && Drawn(Chosen(g, points, n, keys)[i], points)
    decreases n
  {
    hide ValuesIn, Summary, Tight, Drawn;
    if n > 0 {
      ChosenMembers(g, points, n - 1, keys);
      BucketMembers(g, points, n - 1, keys);
      hide Bucket;
    }
  }

  lemma BucketMembers(g: Grid, points: seq<Point>, k: nat, keys: set<int>)
    requires Covers(g, points)
    ensures var b := Bucket(g, points, k, keys);
            |b| <= 1 && (b != [] ==> Tight(b[0]) && Drawn(b[0], points))
  {
    hide ValuesIn, Tight;
    var values := ValuesIn(g, points, k);
    if values != [] {
      SummaryTight(g, k, values);
      ValueComesFrom(g, points, k, MinOf(values));
      ValueComesFrom(g, points, k, MaxOf(values));
    }
  }

  /** Some aggregate, labelled no later than the point, spans its value. */
  ghost predicate Spanned(p: Point, aggs: seq<Aggregate>) {
    exists i :: 0 <= i < |aggs| && aggs[i].step <= p.step && aggs[i].min <= p.value <= aggs[i].max
  }

  lemma {:induction false} ChosenHas(g: Grid, points: seq<Point>, n: nat, keys: set<int>, k: nat)
    requires Covers(g, points) && k < n && k in keys && ValuesIn(g, points, k) != []
    ensures Summary(g, k, ValuesIn(g, points, k)) in Chosen(g, points, n, keys)
    decreases n
  {
    hide ValuesIn, Summary;
    if k < n - 1 { ChosenHas(g, points, n - 1, keys, k); }
  }

  lemma PointSpanned(g: Grid, points: seq<Point>, i: nat, aggs: seq<Aggregate>)
    requires Covers(g, points) && i < |points| && multiset(aggs) == multiset(Aggregates(g, points))
    ensures Spanned(points[i], aggs)
  {
    hide ValuesIn, Chosen;
    var p := points[i];
    var k := g.Index(p.step);
    var values := ValuesIn(g, points, k);
    ValueGoesTo(g, points, i);
    ChosenHas(g, points, g.count, Occupied(g, points), k);
    assert Summary(g, k, values) in multiset(Aggregates(g, points));
    var j := FindIn(aggs, Summary(g, k, values));
    g.LabelBelow(p.step);
    hide Sum;
    assert aggs[j].min <= p.value <= aggs[j].max;
  }

  // ------------------------------------------------------------------ order of the labels

  ghost predicate Strict(aggs: seq<Aggregate>) {
    forall i, j :: 0 <= i < j < |aggs| ==> aggs[i].step < aggs[j].step
  }

  /** Strictly rising and below `limit`. */
  ghost predicate StrictBelow(aggs: seq<Aggregate>, limit: int) {
    Strict(aggs) && forall i :: 0 <= i < |aggs| ==> aggs[i].step < limit
  }

  lemma StrictExtended(aggs: seq<Aggregate>, more: seq<Aggregate>, mark: int, limit: int)
    requires StrictBelow(aggs, mark) && mark < limit
    requires |more| <= 1 && (more != [] ==> more[0].step == mark)
    ensures StrictBelow(aggs + more, limit)
  {
  }

  lemma {:induction false} ChosenStrict(g: Grid, points: seq<Point>, n: nat, keys: set<int>)
    requires Covers(g, points) && g.range >= g.count
    ensures StrictBelow(Chosen(g, points, n, keys), g.Label(n))
    decreases n
  {
    hide Bucket, StrictBelow;
    if n > 0 {
      ChosenStrict(g, points, n - 1, keys);
      g.LabelsRise(n - 1, n);
      BucketLabel(g, points, n - 1, keys);
      StrictExtended(Chosen(g, points, n - 1, keys), Bucket(g, points, n - 1, keys), g.Label(n - 1), g.Label(n));
    } else {
      NothingStrict(g.Label(0));
    }
  }

  lemma NothingStrict(limit: int)
    ensures StrictBelow([], limit)
  {
  }

  lemma BucketLabel(g: Grid, points: seq<Point>, k: nat, keys: set<int>)
    requires Covers(g, points)
    ensures var b := Bucket(g, points, k, keys); |b| <= 1 && (b != [] ==> b[0].step == g.Label(k))
  {
    hide ValuesIn;
  }

  lemma SameLast(a: seq<Aggregate>, b: seq<Aggregate>)
    requires Strict(a) && Sorted(ByStep(), b) && multiset(a) == multiset(b) && a != []
    ensures |a| == |b| && a[|a| - 1] == b[|b| - 1]
  {
    SameMembers(a, b);
    var n := |a| - 1;
    assert a[n] in a && b[n] in b;
    var i :| 0 <= i < |b| && b[i] == a[n];
    var j :| 0 <= j < |a| && a[j] == b[n];
    assert i == n || ByStep()(b[i], b[n]);
  }

  lemma FrontsSame<T>(a: seq<T>, b: seq<T>)
    requires a != [] && b != [] && multiset(a) == multiset(b) && a[|a| - 1] == b[|b| - 1]
    ensures multiset(a[..|a| - 1]) == multiset(b[..|b| - 1])
  {
    LastSplit(a);
    LastSplit(b);
    var x := a[|a| - 1];
    assert multiset(a[..|a| - 1]) == multiset(a) - multiset{x};
    assert multiset(b[..|b| - 1]) == multiset(b) - multiset{x};
  }

  lemma FrontsOrdered(a: seq<Aggregate>, b: seq<Aggregate>)
    requires Strict(a) && Sorted(ByStep(), b) && a != [] && b != []
    ensures Strict(a[..|a| - 1]) && Sorted(ByStep(), b[..|b| - 1])
  {
  }

  /** A strictly rising sequence is the only sorted arrangement of its contents. */
  lemma {:induction false} SortedStrictSame(a: seq<Aggregate>, b: seq<Aggregate>)
    requires Strict(a) && Sorted(ByStep(), b) && multiset(a) == multiset(b)
    ensures a == b
    decreases |a|
  {
    hide Strict, Sorted, ByStep;
    SameMembers(a, b);
    if a != [] {
      SameLast(a, b);
      FrontsSame(a, b);
      FrontsOrdered(a, b);
      var n := |a| - 1;
      SortedStrictSame(a[..n], b[..n]);
      assert a == a[..n] + [a[n]] && b == b[..n] + [b[n]];
    }
  }

  // ------------------------------------------------------------------ the result

  lemma SameMembers<T>(a: seq<T>, b: seq<T>)
    requires multiset(a) == multiset(b)
    ensures |a| == |b| && forall x :: x in a <==> x in b
  {
    assert |multiset(a)| == |a| && |multiset(b)| == |b|;
    assert forall x :: x in a <==> x in multiset(a);
    assert forall x :: x in b <==> x in multiset(b);
  }

  /** At most `maxPoints` aggregates; their counts add up to the points and their weighted means to the
      total; every mean lies between its extremes; every extreme is a value of the series. */
  lemma DownsampleConserves(points: seq<Point>, maxPoints: nat, result: seq<Aggregate>)
    requires (maxPoints >= 1 || points == []) && IsDownsampling(points, maxPoints, result)
    ensures |result| <= maxPoints
    ensures Stands(result) == Tally(|points|, Sum(Values(points)))
    ensures forall a :: a in result ==> Tight(a) && Drawn(a, points)
  {
    hide Stands, Sum, Values, Tight, Drawn, Chosen, Sorted;
    if |points| <= maxPoints {
      SinglesStand(points);
      SinglesMembers(points);
    } else {
      var g := GridOf(points, maxPoints);
      var aggs := Aggregates(g, points);
      SameMembers(result, aggs);
      ChosenMembers(g, points, g.count, Occupied(g, points));
      ChosenStands(g, points, g.count);
      BelowAll(g, points);
      StandsPermuted(result, aggs);
    }
  }

  lemma {:induction false} SinglesMembers(points: seq<Point>)
    ensures forall a :: a in Singles(points) ==> Tight(a) && Drawn(a, points)
    ensures forall i :: 0 <= i < |points| ==> Singles(points)[i] == Single(points[i])
    decreases |points|
  {
    if points != [] {
      var init, last := points[..|points| - 1], points[|points| - 1];
      SinglesMembers(init);
      assert last in points;
      forall a | a in Singles(init) ensures Drawn(a, points) {
        assert Drawn(a, init);
        var p :| p in init && p.value == a.min;
        var q :| q in init && q.value == a.max;
        assert p in points && q in points;
      }
    }
  }

  /** Every point is spanned by an aggregate labelled no later than it. */
  lemma DownsampleCovers(points: seq<Point>, maxPoints: nat, result: seq<Aggregate>)
    requires (maxPoints >= 1 || points == []) && IsDownsampling(points, maxPoints, result)
    ensures forall i :: 0 <= i < |points| ==> Spanned(points[i], result)
  {
    hide Aggregates, Sorted;
    if |points| <= maxPoints {
      SinglesMembers(points);
      hide Singles, Tight, Drawn;
      forall i | 0 <= i < |points| ensures Spanned(points[i], result) {
        assert result[i] == Single(points[i]);
      }
    } else {
      forall i | 0 <= i < |points| ensures Spanned(points[i], result) {
        PointSpanned(GridOf(points, maxPoints), points, i, result);
      }
    }
  }

  lemma DrawnWithin(a: Aggregate, points: seq<Point>)
    requires points != [] && Drawn(a, points)
    ensures MinOf(Values(points)) <= a.min && a.max <= MaxOf(Values(points))
  {
    hide MinOf, MaxOf;
    var p :| p in points && p.value == a.min;
    var q :| q in points && q.value == a.max;
    var i :| 0 <= i < |points| && points[i] == p;
    var j :| 0 <= j < |points| && points[j] == q;
    assert Values(points)[i] == a.min && Values(points)[j] == a.max;
  }

  lemma ExtremeSpanned(points: seq<Point>, result: seq<Aggregate>, v: real) returns (a: Aggregate)
    requires v in Values(points) && forall i :: 0 <= i < |points| ==> Spanned(points[i], result)
    ensures a in result && a.min <= v <= a.max
  {
    var i :| 0 <= i < |points| && Values(points)[i] == v;
    assert Spanned(points[i], result);
    var x :| 0 <= x < |result| && result[x].step <= points[i].step && result[x].min <= points[i].value <= result[x].max;
    a := result[x];
  }

  /** The least minimum and the greatest maximum are those of the series. */
  lemma ExtremesKept(points: seq<Point>, maxPoints: nat, result: seq<Aggregate>)
    requires points != [] && maxPoints >= 1 && IsDownsampling(points, maxPoints, result)
    ensures (exists a :: a in result && a.min == MinOf(Values(points))) && forall a :: a in result ==> a.min >= MinOf(Values(points))
    ensures (exists a :: a in result && a.max == MaxOf(Values(points))) && forall a :: a in result ==> a.max <= MaxOf(Values(points))
  {
    DownsampleConserves(points, maxPoints, result);
    DownsampleCovers(points, maxPoints, result);
    hide IsDownsampling, Stands, Sum, Tight, Drawn, Spanned, Values, MinOf, MaxOf;
    forall a | a in result ensures MinOf(Values(points)) <= a.min && a.max <= MaxOf(Values(points)) {
      DrawnWithin(a, points);
    }
    var least := ExtremeSpanned(points, result, MinOf(Values(points)));
    var greatest := ExtremeSpanned(points, result, MaxOf(Values(points)));
    assert least.min == MinOf(Values(points)) && greatest.max == MaxOf(Values(points));
  }

  /** Over the limit, labels never fall; with at least as many steps as buckets they rise strictly and
      the result does not depend on the order in which the buckets were visited. */
  lemma LabelsOrdered(points: seq<Point>, maxPoints: nat, result: seq<Aggregate>)
    requires maxPoints >= 1 && |points| > maxPoints && IsDownsampling(points, maxPoints, result)
    ensures forall i, j :: 0 <= i < j < |result| ==> result[i].step <= result[j].step
    ensures Most(points) - Least(points) >= maxPoints ==>
              result == Aggregates(GridOf(points, maxPoints), points)
              && forall i, j :: 0 <= i < j < |result| ==> result[i].step < result[j].step
  {
    var g := GridOf(points, maxPoints);
    hide Chosen, ValuesIn;
    forall i, j | 0 <= i < j < |result| ensures result[i].step <= result[j].step {
      assert ByStep()(result[i], result[j]);
    }
    if Most(points) - Least(points) >= maxPoints {
      ChosenStrict(g, points, g.count, Occupied(g, points));
      SortedStrictSame(Aggregates(g, points), result);
    }
  }

  // ------------------------------------------------------------------ exactly when labels rise strictly

  /** Bucket `k` is chosen and holds a value. */
  predicate Filled(g: Grid, points: seq<Point>, keys: set<int>, k: nat)
    requires Covers(g, points)
  {
    k in keys && ValuesIn(g, points, k) != []
  }

  /** Chosen buckets below `n` have distinct labels. */
  ghost predicate Separate(g: Grid, points: seq<Point>, n: nat, keys: set<int>)
    requires Covers(g, points)
  {
    forall j: nat, k: nat :: j < k < n && Filled(g, points, keys, j) && Filled(g, points, keys, k) ==> g.Label(j) < g.Label(k)
  }

  lemma ChosenStep(g: Grid, points: seq<Point>, n: nat, keys: set<int>)
    requires Covers(g, points) && n > 0
    ensures Chosen(g, points, n, keys) == Chosen(g, points, n - 1, keys) + Bucket(g, points, n - 1, keys)
  {
    hide Bucket;
  }

  lemma ChosenNothing(g: Grid, points: seq<Point>, keys: set<int>)
    requires Covers(g, points)
    ensures Chosen(g, points, 0, keys) == []
  {
  }

  lemma {:induction false} ChosenFrom(g: Grid, points: seq<Point>, n: nat, keys: set<int>, i: nat) returns (k: nat)
    requires Covers(g, points) && i < |Chosen(g, points, n, keys)|
    ensures k < n && Filled(g, points, keys, k) && Chosen(g, points, n, keys)[i].step == g.Label(k)
    decreases n
  {
    hide Chosen, Bucket, Filled;
    if n == 0 {
      ChosenNothing(g, points, keys);
      assert false;
    }
    ChosenStep(g, points, n, keys);
    if i < |Chosen(g, points, n - 1, keys)| {
      k := ChosenFrom(g, points, n - 1, keys, i);
    } else {
      k := n - 1;
      BucketLabel(g, points, n - 1, keys);
      FilledBucket(g, points, keys, n - 1);
    }
  }

  lemma FilledBucket(g: Grid, points: seq<Point>, keys: set<int>, k: nat)
    requires Covers(g, points)
    ensures Bucket(g, points, k, keys) == [] <==> !Filled(g, points, keys, k)
  {
    hide ValuesIn;
  }

  lemma ChosenLabel(g: Grid, points: seq<Point>, n: nat, keys: set<int>, k: nat) returns (i: nat)
    requires Covers(g, points) && k < n && Filled(g, points, keys, k)
    ensures i < |Chosen(g, points, n, keys)| && Chosen(g, points, n, keys)[i].step == g.Label(k)
  {
    hide ValuesIn;
    ChosenHas(g, points, n, keys, k);
    i :| 0 <= i < |Chosen(g, points, n, keys)| && Chosen(g, points, n, keys)[i] == Summary(g, k, ValuesIn(g, points, k));
  }

  /** Every element of `aggs` is labelled before `more`, if that holds an element. */
  lemma StrictAppendIff(aggs: seq<Aggregate>, more: seq<Aggregate>)
    requires |more| <= 1
    ensures Strict(aggs + more) <==> Strict(aggs) && (more != [] ==> forall i :: 0 <= i < |aggs| ==> aggs[i].step < more[0].step)
  {
    var all := aggs + more;
    assert forall i :: 0 <= i < |aggs| ==> all[i] == aggs[i];
    if more != [] { assert all[|aggs|] == more[0]; }
  }

  lemma SeparateOneMore(g: Grid, points: seq<Point>, n: nat, keys: set<int>)
    requires Covers(g, points)
    ensures Separate(g, points, n + 1, keys) <==>
            Separate(g, points, n, keys)
            && (Filled(g, points, keys, n) ==> forall j: nat :: j < n && Filled(g, points, keys, j) ==> g.Label(j) < g.Label(n))
  {
    hide Filled;
  }

  /** All chosen aggregates are labelled before `mark` exactly if all filled buckets are. */
  lemma BeforeIff(g: Grid, points: seq<Point>, n: nat, keys: set<int>, mark: int)
    requires Covers(g, points)
    ensures (forall i :: 0 <= i < |Chosen(g, points, n, keys)| ==> Chosen(g, points, n, keys)[i].step < mark)
       <==> (forall j: nat :: j < n && Filled(g, points, keys, j) ==> g.Label(j) < mark)
  {
    hide Chosen, Filled;
    var chosen := Chosen(g, points, n, keys);
    if forall i :: 0 <= i < |chosen| ==> chosen[i].step < mark {
      forall j: nat | j < n && Filled(g, points, keys, j) ensures g.Label(j) < mark {
        var i := ChosenLabel(g, points, n, keys, j);
      }
    }
    if forall j: nat :: j < n && Filled(g, points, keys, j) ==> g.Label(j) < mark {
      forall i | 0 <= i < |chosen| ensures chosen[i].step < mark {
        var j := ChosenFrom(g, points, n, keys, i);
      }
    }
  }

  lemma NothingSeparate(g: Grid, points: seq<Point>, keys: set<int>)
    requires Covers(g, points)
    ensures Separate(g, points, 0, keys) && Strict([])
  {
  }

  lemma {:induction false} StrictIffSeparate(g: Grid, points: seq<Point>, n: nat, keys: set<int>)
    requires Covers(g, points)
    ensures Strict(Chosen(g, points, n, keys)) <==> Separate(g, points, n, keys)
    decreases n
  {
    hide Chosen, Strict, Separate, Filled, Bucket;
    if n == 0 {
      ChosenNothing(g, points, keys);
      NothingSeparate(g, points, keys);
    } else {
      ChosenStep(g, points, n, keys);
      StrictIffSeparate(g, points, n - 1, keys);
      SeparateOneMore(g, points, n - 1, keys);
      BucketLabel(g, points, n - 1, keys);
      FilledBucket(g, points, keys, n - 1);
      StrictAppendIff(Chosen(g, points, n - 1, keys), Bucket(g, points, n - 1, keys));
      BeforeIff(g, points, n - 1, keys, g.Label(n - 1));
    }
  }

  lemma {:induction false} ChosenSorted(g: Grid, points: seq<Point>, n: nat, keys: set<int>)
    requires Covers(g, points)
    ensures Sorted(ByStep(), Chosen(g, points, n, keys))
    decreases n
  {
    hide Chosen, Bucket, Filled, ByStep;
    if n == 0 {
      ChosenNothing(g, points, keys);
    } else {
      hide Sorted;
      var before := Chosen(g, points, n - 1, keys);
      ChosenStep(g, points, n, keys);
      ChosenSorted(g, points, n - 1, keys);
      BucketLabel(g, points, n - 1, keys);
      forall i | 0 <= i < |before| ensures before[i].step <= g.Label(n - 1) {
        var k := ChosenFrom(g, points, n - 1, keys, i);
        g.LabelsRise(k, n - 1);
      }
      SortedAppend(before, Bucket(g, points, n - 1, keys), g.Label(n - 1));
    }
  }

  lemma SortedAppend(aggs: seq<Aggregate>, more: seq<Aggregate>, mark: int)
    requires Sorted(ByStep(), aggs) && |more| <= 1 && (more != [] ==> more[0].step == mark)
    requires forall i :: 0 <= i < |aggs| ==> aggs[i].step <= mark
    ensures Sorted(ByStep(), aggs + more)
  {
    var all := aggs + more;
    forall i, j | 0 <= i < j < |all| ensures ByStep()(all[i], all[j]) {
      if j < |aggs| { assert ByStep()(aggs[i], aggs[j]); }
    }
  }

  /** Points of different buckets have different labels. */
  ghost predicate PointsSeparate(g: Grid, points: seq<Point>)
    requires Covers(g, points)
  {
    forall i, j :: 0 <= i < |points| && 0 <= j < |points| && g.Index(points[i].step) < g.Index(points[j].step) ==>
      g.Label(g.Index(points[i].step)) < g.Label(g.Index(points[j].step))
  }

  lemma {:induction false} FilledByPoint(g: Grid, points: seq<Point>, k: int) returns (i: nat)
    requires Covers(g, points) && ValuesIn(g, points, k) != []
    ensures i < |points| && g.Index(points[i].step) == k
    decreases |points|
  {
    var n := |points| - 1;
    if g.Index(points[n].step) == k {
      i := n;
    } else {
      i := FilledByPoint(g, points[..n], k);
    }
  }

  lemma SeparateIffPoints(g: Grid, points: seq<Point>)
    requires Covers(g, points)
    ensures Separate(g, points, g.count, Occupied(g, points)) <==> PointsSeparate(g, points)
  {
    hide ValuesIn;
    var keys := Occupied(g, points);
    if PointsSeparate(g, points) {
      forall j: nat, k: nat | j < k < g.count && Filled(g, points, keys, j) && Filled(g, points, keys, k) ensures g.Label(j) < g.Label(k) {
        var a := FilledByPoint(g, points, j);
        var b := FilledByPoint(g, points, k);
      }
    }
    if Separate(g, points, g.count, keys) {
      forall i, j | 0 <= i < |points| && 0 <= j < |points| && g.Index(points[i].step) < g.Index(points[j].step)
        ensures g.Label(g.Index(points[i].step)) < g.Label(g.Index(points[j].step))
      {
        ValueGoesTo(g, points, i);
        ValueGoesTo(g, points, j);
        assert Filled(g, points, keys, g.Index(points[i].step)) && Filled(g, points, keys, g.Index(points[j].step));
      }
    }
  }

  /** Over the limit, the labels of a result rise strictly if and only if no two points of different
      buckets share a label; a step range of at least `maxPoints` suffices. */
  lemma ResultStrictIff(points: seq<Point>, maxPoints: nat, result: seq<Aggregate>)
    requires maxPoints >= 1 && |points| > maxPoints && IsDownsampling(points, maxPoints, result)
    ensures (forall i, j :: 0 <= i < j < |result| ==> result[i].step < result[j].step)
       <==> PointsSeparate(GridOf(points, maxPoints), points)
  {
    var g := GridOf(points, maxPoints);
    var aggs := Aggregates(g, points);
    StrictIffSeparate(g, points, g.count, Occupied(g, points));
    SeparateIffPoints(g, points);
    ChosenSorted(g, points, g.count, Occupied(g, points));
    hide Chosen, ValuesIn, PointsSeparate, Separate, Occupied, ByStep, Sorted;
    if Strict(aggs) { SortedStrictSame(aggs, result); }
    if Strict(result) { SortedStrictSame(result, aggs); }
  }

  // ------------------------------------------------------------------ exactly the points of each bucket

  /** The points of bucket `k`. */
  function Inside(g: Grid, points: seq<Point>, k: int): seq<Point>
    requires g.Valid()
  {
    Filter(points, (p: Point) => g.Contains(k, p.step))
  }

  /** The aggregate is that of exactly the points of bucket `k`. */
  ghost predicate Summarizes(g: Grid, points: seq<Point>, k: int, a: Aggregate)
    requires g.Valid()
  {
    var inside := Inside(g, points, k);
    && inside != [] && g.IsLabel(k, a.step) && a.count == |inside|
    && IsMean(a.mean, a.count, Sum(Values(inside))) && AreExtremes(inside, a.min, a.max)
  }

  predicate IsMean(mean: real, n: nat, total: real) {
    mean * n as real == total
  }

  ghost predicate SummarizesSome(g: Grid, points: seq<Point>, a: Aggregate)
    requires g.Valid()
  {
    exists k :: Summarizes(g, points, k, a)
  }

  /** The least and the greatest value of the points. */
  ghost predicate AreExtremes(points: seq<Point>, min: real, max: real) {
    && (forall i :: 0 <= i < |points| ==> min <= points[i].value <= max)
    && (exists i :: 0 <= i < |points| && points[i].value == min) && (exists i :: 0 <= i < |points| && points[i].value == max)
  }

  lemma ExtremesOf(points: seq<Point>)
    requires points != []
    ensures AreExtremes(points, MinOf(Values(points)), MaxOf(Values(points)))
  {
    hide MinOf, MaxOf;
    var values := Values(points);
    var i :| 0 <= i < |values| && values[i] == MinOf(values);
    var j :| 0 <= j < |values| && values[j] == MaxOf(values);
    assert points[i].value == MinOf(values) && points[j].value == MaxOf(values);
  }

  lemma InsideOneMore(g: Grid, points: seq<Point>, p: Point, k: int)
    requires g.Valid()
    ensures Inside(g, points + [p], k) == Inside(g, points, k) + if g.Contains(k, p.step) then [p] else []
  {
    hide Filter;
    var all := points + [p];
    FilterOneMore(all, |points|, (q: Point) => g.Contains(k, q.step));
    assert all[..|points|] == points && all[..|points| + 1] == all;
  }

  lemma {:induction false} ValuesInside(g: Grid, points: seq<Point>, k: int)
    requires Covers(g, points)
    ensures ValuesIn(g, points, k) == Values(Inside(g, points, k))
    decreases |points|
  {
    if points != [] {
      var init, last := points[..|points| - 1], points[|points| - 1];
      ValuesInside(g, init, k);
      assert points == init + [last];
      InsideOneMore(g, init, last, k);
      g.IndexIs(last.step, k);
      hide Inside;
      assert ValuesIn(g, points, k) == ValuesIn(g, init, k) + if g.Index(last.step) == k then [last.value] else [];
    }
  }

  lemma MeanIs(total: real, n: nat)
    requires n > 0
    ensures IsMean(total / n as real, n, total)
  {
    MeanTimesCount(total, n as real);
  }

  lemma SummaryParts(g: Grid, k: nat, values: seq<real>)
    requires g.Valid() && values != []
    ensures var a := Summary(g, k, values);
            && g.IsLabel(k, a.step) && a.count == |values| && IsMean(a.mean, a.count, Sum(values))
            && a.min == MinOf(values) && a.max == MaxOf(values)
  {
    g.LabelIs(k);
    hide Sum, MinOf, MaxOf, Grid.Label, Grid.IsLabel, IsMean;
    MeanIs(Sum(values), |values|);
  }

  lemma SummarySummarizes(g: Grid, points: seq<Point>, k: nat)
    requires Covers(g, points) && k < g.count && ValuesIn(g, points, k) != []
    ensures Summarizes(g, points, k, Summary(g, k, ValuesIn(g, points, k)))
  {
    ValuesInside(g, points, k);
    var values, inside := ValuesIn(g, points, k), Inside(g, points, k);
    hide ValuesIn, Inside, Values, Summary, Sum, MinOf, MaxOf, AreExtremes, Covers, IsMean, Grid.IsLabel;
    SummaryParts(g, k, values);
    assert |Values(inside)| == |inside|;
    ExtremesOf(inside);
  }

  lemma {:induction false} ChosenSummarize(g: Grid, points: seq<Point>, n: nat, keys: set<int>, a: Aggregate) returns (k: nat)
    requires Covers(g, points) && n <= g.count && a in Chosen(g, points, n, keys)
    ensures k < n && Summarizes(g, points, k, a)
    decreases n
  {
    hide ValuesIn, Summary, Summarizes;
    if a in Chosen(g, points, n - 1, keys) {
      k := ChosenSummarize(g, points, n - 1, keys, a);
    } else {
      k := n - 1;
      SummarySummarizes(g, points, k);
    }
  }

  lemma AggregateSummarizes(g: Grid, points: seq<Point>, a: Aggregate) returns (k: nat)
    requires Covers(g, points) && a in Aggregates(g, points)
    ensures Summarizes(g, points, k, a)
  {
    hide ValuesIn, Chosen, Summarizes, Occupied;
    k := ChosenSummarize(g, points, g.count, Occupied(g, points), a);
  }

  lemma BucketHasAggregate(g: Grid, points: seq<Point>, k: nat) returns (a: Aggregate)
    requires Covers(g, points) && k < g.count && Inside(g, points, k) != []
    ensures a in Aggregates(g, points) && Summarizes(g, points, k, a)
  {
    ValuesInside(g, points, k);
    hide ValuesIn, Chosen, Summarizes, Summary, Inside;
    SummarySummarizes(g, points, k);
    ChosenHas(g, points, g.count, Occupied(g, points), k);
    a := Summary(g, k, ValuesIn(g, points, k));
  }

  /** The grid of the series: `maxPoints` buckets over its steps, at least one step wide. */
  predicate IsGridOf(g: Grid, points: seq<Point>, maxPoints: nat)
    requires points != []
  {
    g.low == Least(points) && g.count == maxPoints && g.range == (if Most(points) == Least(points) then 1 else Most(points) - Least(points))
  }

  /** Over the limit, every aggregate is that of exactly the points of one bucket, and every bucket that holds
      a point has one; within it, every point stands for itself. */
  lemma DownsampleExact(points: seq<Point>, maxPoints: nat, result: seq<Aggregate>) returns (g: Grid)
    requires (maxPoints >= 1 || points == []) && IsDownsampling(points, maxPoints, result)
    ensures |points| <= maxPoints ==>
              |result| == |points| && forall i :: 0 <= i < |points| ==>
                var p := points[i]; result[i] == Aggregate(p.step, p.value, p.value, p.value, 1)
    ensures |points| > maxPoints ==>
              && g.Valid() && IsGridOf(g, points, maxPoints)
              && (forall i :: 0 <= i < |result| ==> SummarizesSome(g, points, result[i]))
              && (forall k :: 0 <= k < maxPoints && Inside(g, points, k) != [] ==> exists i :: 0 <= i < |result| && Summarizes(g, points, k, result[i]))
  {
    if |points| <= maxPoints {
      SinglesMembers(points);
      g := Grid(0, 1, 1);
    } else {
      g := GridOf(points, maxPoints);
      SameMembers(result, Aggregates(g, points));
      hide Aggregates, Inside, Summarizes, Sorted, ByStep;
      forall i | 0 <= i < |result| ensures SummarizesSome(g, points, result[i]) {
        assert result[i] in result;
        var k := AggregateSummarizes(g, points, result[i]);
      }
      forall k | 0 <= k < maxPoints && Inside(g, points, k) != [] ensures exists i :: 0 <= i < |result| && Summarizes(g, points, k, result[i]) {
        var a := BucketHasAggregate(g, points, k);
        assert a in result;
      }
    }
  }
}
