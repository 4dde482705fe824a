/** Derived chart series: `computedSeries.ts`, over reals with missing values. */
module DerivedSeries {
  import opened Wrappers
  import opened Arithmetic
  import opened Store

  type Data = seq<Float>

  // ------------------------------------------------------------------ the window

  function SanitizeWindow(window: Float): (w: int)
    ensures 2 <= w <= 512
    ensures !window.Finite? ==> w == 2
    ensures window.Finite? ==> var v := window.value;
              (w as real <= v && v < (w + 1) as real) || (v < 2.0 && w == 2) || (v >= 513.0 && w == 512)
  {
    if !window.Finite? then 2
    else
      var n := window.value.Floor;
      if n < 2 then 2 else if n > 512 then 512 else n
  }

  function Alpha(w: int): (alpha: real)
    requires w >= 2
    ensures 0.0 < alpha < 1.0
  {
    2.0 / (w + 1) as real
  }

  // ------------------------------------------------------------------ exponential moving average

  function Blend(alpha: real, v: real, last: real): real {
    alpha * v + (1.0 - alpha) * last
  }

  /** The running average after `data`, if a finite value has been seen. */
  function Smoothed(alpha: real, data: Data): Option<real> {
    if data == [] then None
    else
      var before, v := Smoothed(alpha, data[..|data| - 1]), data[|data| - 1];
      if !v.Finite? then before
      else if before.None? then Some(v.value)
      else Some(Blend(alpha, v.value, before.value))
  }

  /** The output is the running average where the input is finite, and missing elsewhere. */
  function EmaAt(alpha: real, data: Data, i: nat): Float
    requires i < |data|
  {
    var s := Smoothed(alpha, data[..i + 1]);
    if data[i].Finite? && s.Some? then Finite(s.value) else NaN
  }

  method ComputeEma(data: Data, window: int) returns (output: array<Float>)
    requires window >= 2
    ensures fresh(output) && output.Length == |data|
    ensures forall i :: 0 <= i < |data| ==> output[i] == EmaAt(Alpha(window), data, i)
  {
    hide Blend;
    var alpha := Alpha(window);
    output := new Float[|data|](_ => NaN);
    var last: Float := NaN;
    var idx := 0;
    while idx < |data|
      invariant 0 <= idx <= |data|
      invariant !last.Finite? <==> Smoothed(alpha, data[..idx]).None?
      invariant last.Finite? ==> Smoothed(alpha, data[..idx]) == Some(last.value)
      invariant forall i :: 0 <= i < idx ==> output[i] == EmaAt(alpha, data, i)
    {
      var value := data[idx];
      assert data[..idx + 1][..idx] == data[..idx];
      if !value.Finite? {
        output[idx] := NaN;
        idx := idx + 1;
        continue;
      }
      if !last.Finite? {
        last := value;
      } else {
        last := Finite(Blend(alpha, value.value, last.value));
      }
      output[idx] := last;
      idx := idx + 1;
    }
  }

  /** `low` and `high` bound every finite value. */
  predicate Within(data: Data, low: real, high: real) {
    forall i :: 0 <= i < |data| && data[i].Finite? ==> low <= data[i].value <= high
  }

  function Part(alpha: real, d: real): real {
    alpha * d
  }

  lemma PartSign(alpha: real, d: real)
    requires alpha > 0.0
    ensures d >= 0.0 ==> Part(alpha, d) >= 0.0
    ensures d <= 0.0 ==> Part(alpha, d) <= 0.0
  {
  }

  lemma PartsAdd(alpha: real, d: real)
    ensures Part(alpha, d) + Part(1.0 - alpha, d) == d
  {
  }

  lemma PartBounds(alpha: real, d: real)
    requires 0.0 < alpha < 1.0
    ensures if d >= 0.0 then 0.0 <= Part(alpha, d) <= d else d <= Part(alpha, d) <= 0.0
  {
    hide Part;
    PartSign(alpha, d);
    PartSign(1.0 - alpha, d);
    PartsAdd(alpha, d);
  }

  lemma BlendMoves(alpha: real, v: real, last: real)
    ensures Blend(alpha, v, last) == last + Part(alpha, v - last)
  {
  }

  /** The blend lies between the new value and the old average. */
  lemma BlendBetween(alpha: real, v: real, last: real)
    requires 0.0 < alpha < 1.0
    ensures last <= v ==> last <= Blend(alpha, v, last) <= v
    ensures v <= last ==> v <= Blend(alpha, v, last) <= last
  {
    hide Blend, Part;
    BlendMoves(alpha, v, last);
    PartBounds(alpha, v - last);
  }

  lemma BlendWithin(alpha: real, v: real, last: real, low: real, high: real)
    requires 0.0 < alpha < 1.0 && low <= v <= high && low <= last <= high
    ensures low <= Blend(alpha, v, last) <= high
  {
    hide Blend;
    BlendBetween(alpha, v, last);
  }

  lemma {:induction false} SmoothedWithin(alpha: real, data: Data, low: real, high: real)
    requires 0.0 < alpha < 1.0 && Within(data, low, high)
    ensures Smoothed(alpha, data).Some? ==> low <= Smoothed(alpha, data).value <= high
    decreases |data|
  {
    hide Blend;
    if data != [] {
      var init, v := data[..|data| - 1], data[|data| - 1];
      assert forall i :: 0 <= i < |init| ==> init[i] == data[i];
      SmoothedWithin(alpha, init, low, high);
      var before := Smoothed(alpha, init);
      if v.Finite? && before.Some? { BlendWithin(alpha, v.value, before.value, low, high); }
    }
  }

  lemma {:induction false} SmoothedDefined(alpha: real, data: Data)
    ensures Smoothed(alpha, data).Some? <==> exists i :: 0 <= i < |data| && data[i].Finite?
    decreases |data|
  {
    hide Blend;
    if data != [] {
      var init := data[..|data| - 1];
      SmoothedDefined(alpha, init);
      assert forall i :: 0 <= i < |init| ==> init[i] == data[i];
      if Smoothed(alpha, init).Some? {
        var i :| 0 <= i < |init| && init[i].Finite?;
        assert data[i].Finite?;
      }
      assert data[|data| - 1].Finite? ==> Smoothed(alpha, data).Some?;
    }
  }

  /** For every window, the average is defined exactly where the input is, and lies between any bounds
      of the finite values seen so far, hence between their minimum and maximum. */
  lemma EmaBounded(data: Data, window: int, i: nat, low: real, high: real)
    requires window >= 2 && i < |data| && Within(data[..i + 1], low, high)
    ensures EmaAt(Alpha(window), data, i).Finite? <==> data[i].Finite?
    ensures data[i].Finite? ==> low <= EmaAt(Alpha(window), data, i).value <= high
  {
    hide Smoothed;
    SmoothedDefined(Alpha(window), data[..i + 1]);
    assert data[..i + 1][i] == data[i];
    SmoothedWithin(Alpha(window), data[..i + 1], low, high);
  }

  /** The finite point of `data` before `i` that is nearest to it. */
  predicate IsPrevious(data: Data, j: nat, i: nat) {
    j < i <= |data| && data[j].Finite? && forall k :: j < k < i ==> !data[k].Finite?
  }

  lemma {:induction false} SmoothedOverGap(alpha: real, data: Data, j: nat)
    requires IsPrevious(data, j, |data|)
    ensures Smoothed(alpha, data) == Smoothed(alpha, data[..j + 1])
    decreases |data|
  {
    hide Blend;
    if j + 1 == |data| {
      assert data[..j + 1] == data;
    } else {
      var init := data[..|data| - 1];
      assert forall k :: 0 <= k < |init| ==> init[k] == data[k];
      SmoothedOverGap(alpha, init, j);
      assert init[..j + 1] == data[..j + 1];
    }
  }

  lemma BlendOfWindow(w: int, v: real, last: real)
    requires w >= 2
    ensures Blend(Alpha(w), v, last) * (w + 1) as real == 2.0 * v + (w - 1) as real * last
  {
    var n := (w + 1) as real;
    var alpha := Alpha(w);
    assert alpha * n == 2.0;
    assert Blend(alpha, v, last) * n == (alpha * n) * v + (n - alpha * n) * last;
  }

  /** Over a window of `w` the average starts with the first finite value; each later one weighs 2 against
      `w - 1` for the average before it, gaps left out. */
  lemma EmaRecurrence(data: Data, w: int, i: nat)
    requires w >= 2 && i < |data| && data[i].Finite?
    ensures (forall k :: 0 <= k < i ==> !data[k].Finite?) ==> EmaAt(Alpha(w), data, i) == data[i]
    ensures forall j: nat :: IsPrevious(data, j, i) ==>
              && EmaAt(Alpha(w), data, i).Finite? && EmaAt(Alpha(w), data, j).Finite?
              && EmaAt(Alpha(w), data, i).value * (w + 1) as real
                 == 2.0 * data[i].value + (w - 1) as real * EmaAt(Alpha(w), data, j).value
  {
    var alpha, init := Alpha(w), data[..i];
    assert data[..i + 1][..i] == init && data[..i + 1][i] == data[i];
    assert forall k :: 0 <= k < i ==> init[k] == data[k];
    SmoothedDefined(alpha, init);
    hide Alpha, Blend;
    forall j: nat | IsPrevious(data, j, i)
      ensures EmaAt(alpha, data, i).Finite? && EmaAt(alpha, data, j).Finite?
      ensures EmaAt(alpha, data, i).value * (w + 1) as real == 2.0 * data[i].value + (w - 1) as real * EmaAt(alpha, data, j).value
    {
      assert init[j].Finite?;
      SmoothedOverGap(alpha, init, j);
      assert init[..j + 1] == data[..j + 1];
      BlendOfWindow(w, data[i].value, Smoothed(alpha, init).value);
    }
  }

  /** Finite values never fall, gaps aside. */
  predicate Rising(data: Data) {
    forall i, j :: 0 <= i < j < |data| && data[i].Finite? && data[j].Finite? ==> data[i].value <= data[j].value
  }

  /** On rising input the average stays at or below every later value, and never falls. */
  lemma {:induction false} SmoothedRising(alpha: real, data: Data, k: nat)
    requires 0.0 < alpha < 1.0 && Rising(data) && k <= |data|
    requires Smoothed(alpha, data[..k]).Some?
    ensures Smoothed(alpha, data).Some? && Smoothed(alpha, data[..k]).value <= Smoothed(alpha, data).value
    ensures forall i :: 0 <= i < |data| && data[i].Finite? && (forall j :: i < j < |data| ==> !data[j].Finite?) ==>
              Smoothed(alpha, data).value <= data[i].value
    decreases |data|
  {
    hide Blend;
    if k == |data| {
      assert data[..k] == data;
      SmoothedBelowLast(alpha, data);
    } else {
      var init, v := data[..|data| - 1], data[|data| - 1];
      assert init[..k] == data[..k];
      assert forall i :: 0 <= i < |init| ==> init[i] == data[i];
      SmoothedRising(alpha, init, k);
      SmoothedBelowLast(alpha, data);
      if v.Finite? {
        SmoothedWithinLater(alpha, init, v.value);
        BlendBetween(alpha, v.value, Smoothed(alpha, init).value);
      }
    }
  }

  lemma {:induction false} SmoothedWithinLater(alpha: real, data: Data, high: real)
    requires 0.0 < alpha < 1.0 && Smoothed(alpha, data).Some?
    requires forall i :: 0 <= i < |data| && data[i].Finite? ==> data[i].value <= high
    ensures Smoothed(alpha, data).value <= high
    decreases |data|
  {
    hide Blend;
    var init, v := data[..|data| - 1], data[|data| - 1];
    assert forall i :: 0 <= i < |init| ==> init[i] == data[i];
    var before := Smoothed(alpha, init);
    if before.Some? {
      SmoothedWithinLater(alpha, init, high);
      if v.Finite? {
        var low := if v.value < before.value then v.value else before.value;
        BlendWithin(alpha, v.value, before.value, low, high);
      }
    }
  }

  lemma SmoothedBelowLast(alpha: real, data: Data)
    requires 0.0 < alpha < 1.0 && Rising(data) && Smoothed(alpha, data).Some?
    ensures forall i :: 0 <= i < |data| && data[i].Finite? && (forall j :: i < j < |data| ==> !data[j].Finite?) ==>
              Smoothed(alpha, data).value <= data[i].value
  {
    forall i | 0 <= i < |data| && data[i].Finite? && (forall j :: i < j < |data| ==> !data[j].Finite?)
      ensures Smoothed(alpha, data).value <= data[i].value
    {
      SmoothedWithinLater(alpha, data, data[i].value);
    }
  }

  lemma RisingPrefix(data: Data, k: nat)
    requires Rising(data) && k <= |data|
    ensures Rising(data[..k])
  {
  }

  /** On nondecreasing input the average is nondecreasing and never above the input. */
  lemma EmaRising(data: Data, window: int, i: nat, j: nat)
    requires window >= 2 && Rising(data) && i <= j < |data| && data[i].Finite? && data[j].Finite?
    ensures EmaAt(Alpha(window), data, i).Finite? && EmaAt(Alpha(window), data, j).Finite?
    ensures EmaAt(Alpha(window), data, i).value <= EmaAt(Alpha(window), data, j).value <= data[j].value
  {
    hide Smoothed, Rising;
    var alpha := Alpha(window);
    var longer := data[..j + 1];
    RisingPrefix(data, j + 1);
    SmoothedDefined(alpha, data[..i + 1]);
    assert data[..i + 1][i].Finite?;
    assert longer[..i + 1] == data[..i + 1];
    SmoothedRising(alpha, longer, i + 1);
    assert longer[j] == data[j];
  }

  // ------------------------------------------------------------------ cumulative average

  function FiniteCount(data: Data): nat {
    if data == [] then 0 else FiniteCount(data[..|data| - 1]) + if data[|data| - 1].Finite? then 1 else 0
  }

  function FiniteSum(data: Data): real {
    if data == [] then 0.0
    else FiniteSum(data[..|data| - 1]) + if data[|data| - 1].Finite? then data[|data| - 1].value else 0.0
  }

  function MeanAt(data: Data, i: nat): Float
    requires i < |data|
  {
    var count := FiniteCount(data[..i + 1]);
    if data[i].Finite? && count > 0 then Finite(FiniteSum(data[..i + 1]) / count as real) else NaN
  }

  method ComputeCumulativeAvg(data: Data) returns (output: array<Float>)
    ensures fresh(output) && output.Length == |data|
    ensures forall i :: 0 <= i < |data| ==> output[i] == MeanAt(data, i)
  {
    output := new Float[|data|](_ => NaN);
    var sum, count := 0.0, 0;
    var idx := 0;
    while idx < |data|
      invariant 0 <= idx <= |data|
      invariant sum == FiniteSum(data[..idx]) && count == FiniteCount(data[..idx])
      invariant forall i :: 0 <= i < |data| ==> output[i] == if i < idx then MeanAt(data, i) else NaN
    {
      var value := data[idx];
      assert data[..idx + 1][..idx] == data[..idx];
      idx := idx + 1;
      if !value.Finite? {
        output[idx - 1] := NaN;
        continue;
      }
      sum := sum + value.value;
      count := count + 1;
      output[idx - 1] := Finite(sum / count as real);
    }
  }

  /** The cumulative average is defined exactly where the input is, and is the exact mean of the finite
      values up to there. */
  lemma CumulativeAvgExact(data: Data, i: nat)
    requires i < |data|
    ensures MeanAt(data, i).Finite? <==> data[i].Finite?
    ensures data[i].Finite? ==> MeanAt(data, i).value * FiniteCount(data[..i + 1]) as real == FiniteSum(data[..i + 1])
  {
    assert data[..i + 1][..i] == data[..i];
    if data[i].Finite? {
      MeanTimesCount(FiniteSum(data[..i + 1]), FiniteCount(data[..i + 1]) as real);
    }
  }

  // ------------------------------------------------------------------ differences

  function DeltaAt(data: Data, i: nat): Float
    requires i < |data|
  {
    if i > 0 && data[i - 1].Finite? && data[i].Finite? then Finite(data[i].value - data[i - 1].value) else NaN
  }

  method ComputeDelta(data: Data) returns (output: array<Float>)
    ensures fresh(output) && output.Length == |data|
    ensures forall i :: 0 <= i < |data| ==> output[i] == DeltaAt(data, i)
  {
    output := new Float[|data|](_ => NaN);
    var idx := 1;
    while idx < |data|
      invariant 1 <= idx
      invariant forall i :: 0 <= i < |data| ==> output[i] == if i < idx then DeltaAt(data, i) else NaN
    {
      var prev, curr := data[idx - 1], data[idx];
      if prev.Finite? && curr.Finite? {
        output[idx] := Finite(curr.value - prev.value);
      }
      idx := idx + 1;
    }
  }

  predicate AllFinite(data: Data, i: nat, j: nat)
    requires i <= j < |data|
  {
    forall k :: i <= k <= j ==> data[k].Finite?
  }

  /** The deltas from `i + 1` to `j`, added up. */
  function DeltaSum(data: Data, i: nat, j: nat): real
    requires i <= j < |data| && AllFinite(data, i, j)
  {
    if i == j then 0.0 else DeltaSum(data, i, j - 1) + DeltaAt(data, j).value
  }

  /** A delta is there exactly for two finite neighbours. */
  lemma DeltaDefined(data: Data, i: nat)
    requires i < |data|
    ensures DeltaAt(data, i).Finite? <==> i > 0 && data[i - 1].Finite? && data[i].Finite?
  {
  }

  /** Over an all-finite stretch the deltas telescope. */
  lemma {:induction false} DeltasTelescope(data: Data, i: nat, j: nat)
    requires i <= j < |data| && AllFinite(data, i, j)
    ensures data[i].value + DeltaSum(data, i, j) == data[j].value
    decreases j
  {
    if i < j { DeltasTelescope(data, i, j - 1); }
  }

  function Abs(x: real): real {
    if x < 0.0 then -x else x
  }

  function PctChangeAt(data: Data, i: nat): Float
    requires i < |data|
  {
    if i == 0 || !data[i - 1].Finite? || !data[i].Finite? || data[i - 1].value == 0.0 then NaN
    else Finite((data[i].value - data[i - 1].value) / Abs(data[i - 1].value) * 100.0)
  }

  method ComputePctChange(data: Data) returns (output: array<Float>)
    ensures fresh(output) && output.Length == |data|
    ensures forall i :: 0 <= i < |data| ==> output[i] == PctChangeAt(data, i)
  {
    output := new Float[|data|](_ => NaN);
    var idx := 1;
    while idx < |data|
      invariant 1 <= idx
      invariant forall i :: 0 <= i < |data| ==> output[i] == if i < idx then PctChangeAt(data, i) else NaN
    {
      var prev, curr := data[idx - 1], data[idx];
      if prev.Finite? && curr.Finite? && prev.value != 0.0 {
        output[idx] := Finite((curr.value - prev.value) / Abs(prev.value) * 100.0);
      }
      idx := idx + 1;
    }
  }

  /** A percentage is there exactly for two finite neighbours of which the earlier is not zero; applied to the
      size of the previous value it gives the value back, and its sign is the direction. */
  lemma PctChangeInverts(data: Data, i: nat)
    requires 0 < i < |data|
    ensures PctChangeAt(data, i).Finite? <==> data[i - 1].Finite? && data[i].Finite? && data[i - 1].value != 0.0
    ensures PctChangeAt(data, i).Finite? ==>
              data[i - 1].value + PctChangeAt(data, i).value / 100.0 * (if data[i - 1].value < 0.0 then -data[i - 1].value else data[i - 1].value)
              == data[i].value
    ensures PctChangeAt(data, i).Finite? ==> (PctChangeAt(data, i).value >= 0.0 <==> data[i].value >= data[i - 1].value)
  {
    if PctChangeAt(data, i).Finite? { PctChangeBack(data, i); }
  }

  lemma PctChangeBack(data: Data, i: nat)
    requires 0 < i < |data| && PctChangeAt(data, i).Finite?
    ensures data[i - 1].value + PctChangeAt(data, i).value / 100.0 * Abs(data[i - 1].value) == data[i].value
    ensures PctChangeAt(data, i).value >= 0.0 <==> data[i].value >= data[i - 1].value
  {
    var d, a := data[i].value - data[i - 1].value, Abs(data[i - 1].value);
    MeanTimesCount(d, a);
    RealMulOrder(0.0, d / a, a);
  }

  // ------------------------------------------------------------------ dispatch

  datatype Mode = Raw | Ema | Delta | PctChange | CumulativeAvg

  /** Every derived series is that of its mode, has one point per input point, and none where the input has none. */
  method ComputeDerivedSeries(data: Data, mode: Mode, window: Float) returns (output: array<Float>)
    ensures fresh(output) && output.Length == |data|
    ensures mode == Raw ==> output[..] == data
    ensures mode != Raw ==> forall i :: 0 <= i < |data| && output[i].Finite? ==> data[i].Finite?
    ensures mode == Ema ==> forall i :: 0 <= i < |data| ==> output[i] == EmaAt(Alpha(SanitizeWindow(window)), data, i)
    ensures mode == Delta ==> forall i :: 0 <= i < |data| ==> output[i] == DeltaAt(data, i)
    ensures mode == PctChange ==> forall i :: 0 <= i < |data| ==> output[i] == PctChangeAt(data, i)
    ensures mode == CumulativeAvg ==> forall i :: 0 <= i < |data| ==> output[i] == MeanAt(data, i)
    ensures mode in {Ema, CumulativeAvg} ==> forall i :: 0 <= i < |data| && data[i].Finite? ==> output[i].Finite?
  {
    var w := SanitizeWindow(window);
    match mode {
      case Ema =>
        output := ComputeEma(data, w);
        forall i | 0 <= i < |data| && data[i].Finite? ensures output[i].Finite? {
          SmoothedDefined(Alpha(w), data[..i + 1]);
          assert data[..i + 1][i] == data[i];
        }
      case Delta => output := ComputeDelta(data);
      case PctChange => output := ComputePctChange(data);
      case CumulativeAvg =>
        output := ComputeCumulativeAvg(data);
        forall i | 0 <= i < |data| && data[i].Finite? ensures output[i].Finite? {
          CumulativeAvgExact(data, i);
        }
      case Raw => output := new Float[|data|](i requires 0 <= i < |data| => data[i]);
    }
  }
}
