/** `http_ingest_batch` up to the point where a batch is handed on: validation, expansion, screening. */
module Ingest {
  import opened Wrappers
  import opened Text
  import opened MetadataKeys
  import opened Select
  import opened Store
  import Limits

  const PARAM_VALUE_MAX_LEN := 4096
  const METRIC_ARRAY_MAX_LEN := 1024
  const RUN_EVENT_MAX_LEN := 16_000
  const EVENT_SOURCE_MAX_LEN := 64

  type Pair = (string, string)

  datatype MetricValue = Scalar(value: Float) | Array(values: seq<Float>)

  datatype MetricData = MetricData(name: string, value: MetricValue, step: int, timestamp: Option<Float>)

  datatype EventData = EventData(
    level: Option<string>,
    source: Option<string>,
    message: string,
    step: Option<int>,
    timestamp: Option<Float>)

  /** The request; a missing `batch_id` has been replaced by a generated one, a missing `seq` by zero. */
  datatype Request = Request(
    run: string,
    batch: string,
    seqNo: int,
    metrics: seq<MetricData>,
    params: seq<Pair>,
    tags: seq<Pair>,
    events: seq<EventData>)

  datatype Rejection =
    | BadKey(key: string, error: KeyError)
    | ValueTooLong(key: string)
    | EmptyMetricName
    | ArrayTooLong(name: string)

  /** What becomes a line of the response's `warnings`. */
  datatype Notice =
    | ReceivedOutOfOrder(expectedSeq: int, actualSeq: int)
    | OverLimit(project: string, run: string, warning: Limits.Warning)
    | NonFiniteMetrics(count: nat)
    | UnsafeEvent(error: string)
    | EventsDropped(count: nat)

  datatype Structured = Untouched | Rewritten(message: string) | Unsafe(error: string)

  /** Library code and text formatting the handler calls: UTF-8, the bits of an f64, the digest of the
      payload bytes, the check of structured events, and the wording of warnings. */
  datatype Env = Env(
    utf8: string -> seq<nat>,
    bits: Float -> nat,
    sha256: seq<nat> -> string,
    structured: string -> Structured,
    render: Notice -> string)

  // ------------------------------------------------------------------ params and tags

  function PairFault(pair: Pair, namespace: string, maxLen: nat): Option<Rejection> {
    match CanonicalizeKey(pair.0, namespace)
    case Err(e) => Some(BadKey(pair.0, e))
    case Ok(_) => if Utf8Len(pair.1) > maxLen then Some(ValueTooLong(pair.0)) else None
  }

  function ValidPairs(pairs: seq<Pair>, namespace: string, maxLen: nat): Result<seq<Pair>, Rejection> {
    if pairs == [] then Ok([])
    else
      var last := |pairs| - 1;
      match ValidPairs(pairs[..last], namespace, maxLen)
      case Err(e) => Err(e)
      case Ok(valid) =>
        match PairFault(pairs[last], namespace, maxLen)
        case Some(e) => Err(e)
        case None => Ok(valid + [(CanonicalizeKey(pairs[last].0, namespace).value, pairs[last].1)])
  }

  /** All pairs pass and each is kept, under its canonical key, with its value; or the first that fails
      decides the error. */
  ghost predicate PairsDecided(pairs: seq<Pair>, namespace: string, maxLen: nat, r: Result<seq<Pair>, Rejection>) {
    match r
    case Ok(valid) =>
      |valid| == |pairs| &&
      forall i :: 0 <= i < |pairs| ==>
        IsSoundPair(pairs[i], namespace, maxLen)
        && CanonicalizeKey(pairs[i].0, namespace) == Ok(valid[i].0) && valid[i].1 == pairs[i].1
    case Err(e) => exists i :: FirstBadPair(pairs, namespace, maxLen, i, e)
  }

  /** The key is one, and the value is at most `maxLen` bytes long. */
  predicate IsSoundPair(pair: Pair, namespace: string, maxLen: nat) {
    CanonicalizeKey(pair.0, namespace).Ok? && Utf8Len(pair.1) <= maxLen
  }

  /** The pair at `i` is the first that is not sound, and `e` says why; a bad key comes before a long value. */
  ghost predicate FirstBadPair(pairs: seq<Pair>, namespace: string, maxLen: nat, i: int, e: Rejection) {
    && 0 <= i < |pairs| && (forall j :: 0 <= j < i ==> IsSoundPair(pairs[j], namespace, maxLen))
    && !IsSoundPair(pairs[i], namespace, maxLen)
    && e == match CanonicalizeKey(pairs[i].0, namespace)
            case Err(reason) => BadKey(pairs[i].0, reason)
            case Ok(_) => ValueTooLong(pairs[i].0)
  }

  lemma BadPairStays(pairs: seq<Pair>, last: Pair, namespace: string, maxLen: nat, i: int, e: Rejection)
    requires FirstBadPair(pairs, namespace, maxLen, i, e)
    ensures FirstBadPair(pairs + [last], namespace, maxLen, i, e)
  {
    hide IsSoundPair, CanonicalizeKey;
    assert forall j :: 0 <= j < |pairs| ==> (pairs + [last])[j] == pairs[j];
  }

  lemma {:induction false} ValidPairsDecides(pairs: seq<Pair>, namespace: string, maxLen: nat)
    ensures PairsDecided(pairs, namespace, maxLen, ValidPairs(pairs, namespace, maxLen))
    decreases |pairs|
  {
    hide CanonicalizeKey, Utf8Len;
    if pairs != [] {
      var last := |pairs| - 1;
      ValidPairsDecides(pairs[..last], namespace, maxLen);
      var before := ValidPairs(pairs[..last], namespace, maxLen);
      assert forall i :: 0 <= i < last ==> pairs[..last][i] == pairs[i];
      if before.Err? {
        var i :| FirstBadPair(pairs[..last], namespace, maxLen, i, before.error);
        BadPairStays(pairs[..last], pairs[last], namespace, maxLen, i, before.error);
        assert pairs == pairs[..last] + [pairs[last]];
      } else if PairFault(pairs[last], namespace, maxLen).Some? {
        assert FirstBadPair(pairs, namespace, maxLen, last, PairFault(pairs[last], namespace, maxLen).value);
      }
    }
  }

  /** The loop over `params`, and the one over `tags`. */
  method ValidatePairs(pairs: seq<Pair>, namespace: string, maxLen: nat) returns (r: Result<seq<Pair>, Rejection>)
    ensures r == ValidPairs(pairs, namespace, maxLen)
    ensures PairsDecided(pairs, namespace, maxLen, r)
  {
    hide PairsDecided, CanonicalizeKey, Utf8Len;
    ValidPairsDecides(pairs, namespace, maxLen);
    var valid: seq<Pair> := [];
    var i := 0;
    while i < |pairs|
      invariant 0 <= i <= |pairs|
      invariant ValidPairs(pairs[..i], namespace, maxLen) == Ok(valid)
    {
      assert pairs[..i + 1][..i] == pairs[..i];
      var key := CanonicalizeKey(pairs[i].0, namespace);
      if key.Err? {
        ValidPairsStops(pairs, namespace, maxLen, i + 1);
        return Err(BadKey(pairs[i].0, key.error));
      }
      if Utf8Len(pairs[i].1) > maxLen {
        ValidPairsStops(pairs, namespace, maxLen, i + 1);
        return Err(ValueTooLong(pairs[i].0));
      }
      valid := valid + [(key.value, pairs[i].1)];
      i := i + 1;
    }
    assert pairs[..i] == pairs;
    r := Ok(valid);
  }

  lemma {:induction false} ValidPairsStops(pairs: seq<Pair>, namespace: string, maxLen: nat, k: nat)
    requires k <= |pairs| && ValidPairs(pairs[..k], namespace, maxLen).Err?
    ensures ValidPairs(pairs, namespace, maxLen) == ValidPairs(pairs[..k], namespace, maxLen)
    decreases |pairs|
  {
    hide CanonicalizeKey, Utf8Len;
    if k == |pairs| {
      assert pairs[..k] == pairs;
    } else {
      var last := |pairs| - 1;
      assert pairs[..last][..k] == pairs[..k];
      ValidPairsStops(pairs[..last], namespace, maxLen, k);
    }
  }

  // ------------------------------------------------------------------ metric expansion

  function Digit(n: nat): char
    requires n < 10
  {
    "0123456789"[n]
  }

  function Decimal(n: nat): (s: string)
    ensures s != []
  {
    if n < 10 then [Digit(n)] else Decimal(n / 10) + [Digit(n % 10)]
  }

  /** The element of an array metric at `i`. */
  function ElementRow(m: MetricData, i: nat): MetricRow
    requires m.value.Array? && i < |m.value.values|
  {
    MetricRow(Trim(m.name) + "[" + Decimal(i) + "]", m.step, m.value.values[i], m.timestamp)
  }

  function MetricFault(m: MetricData): Option<Rejection> {
    if Trim(m.name) == [] then Some(EmptyMetricName)
    else if m.value.Array? && |m.value.values| > METRIC_ARRAY_MAX_LEN then Some(ArrayTooLong(Trim(m.name)))
    else None
  }

  function Elements(m: MetricData, n: nat): (rows: seq<MetricRow>)
    requires m.value.Array? && n <= |m.value.values|
    ensures |rows| == n
  {
    if n == 0 then [] else Elements(m, n - 1) + [ElementRow(m, n - 1)]
  }

  function Rows(m: MetricData): seq<MetricRow> {
    match m.value
    case Scalar(value) => [MetricRow(Trim(m.name), m.step, value, m.timestamp)]
    case Array(values) => Elements(m, |values|)
  }

  function Expand(metrics: seq<MetricData>): Result<seq<MetricRow>, Rejection> {
    if metrics == [] then Ok([])
    else
      var last := |metrics| - 1;
      match Expand(metrics[..last])
      case Err(e) => Err(e)
      case Ok(rows) =>
        match MetricFault(metrics[last])
        case Some(e) => Err(e)
        case None => Ok(rows + Rows(metrics[last]))
  }

  lemma {:induction false} ExpandStops(metrics: seq<MetricData>, k: nat)
    requires k <= |metrics| && Expand(metrics[..k]).Err?
    ensures Expand(metrics) == Expand(metrics[..k])
    decreases |metrics|
  {
    hide Rows, MetricFault;
    if k == |metrics| {
      assert metrics[..k] == metrics;
    } else {
      var last := |metrics| - 1;
      assert metrics[..last][..k] == metrics[..k];
      ExpandStops(metrics[..last], k);
    }
  }

  // what the expansion means

  function Width(m: MetricData): nat {
    if m.value.Scalar? then 1 else |m.value.values|
  }

  function TotalWidth(metrics: seq<MetricData>): nat {
    if metrics == [] then 0 else TotalWidth(metrics[..|metrics| - 1]) + Width(metrics[|metrics| - 1])
  }

  predicate AllSound(metrics: seq<MetricData>) {
    forall i :: 0 <= i < |metrics| ==> MetricFault(metrics[i]).None?
  }

  lemma AllSoundButLast(metrics: seq<MetricData>)
    requires metrics != []
    ensures AllSound(metrics) <==> AllSound(metrics[..|metrics| - 1]) && MetricFault(metrics[|metrics| - 1]).None?
  {
    hide MetricFault;
    var init := metrics[..|metrics| - 1];
    assert forall i :: 0 <= i < |init| ==> init[i] == metrics[i];
    if AllSound(init) && MetricFault(metrics[|metrics| - 1]).None? {
      forall i | 0 <= i < |metrics| ensures MetricFault(metrics[i]).None? {
        if i < |init| { assert MetricFault(init[i]).None?; }
      }
    }
  }

  /** Expansion succeeds exactly when no metric is at fault, and then neither loses nor invents a value. */
  lemma {:induction false} ExpandConserves(metrics: seq<MetricData>)
    ensures Expand(metrics).Ok? <==> AllSound(metrics)
    ensures Expand(metrics).Ok? ==> |Expand(metrics).value| == TotalWidth(metrics)
    decreases |metrics|
  {
    if metrics != [] {
      ExpandConserves(metrics[..|metrics| - 1]);
      AllSoundButLast(metrics);
      hide MetricFault, AllSound;
    }
  }

  lemma {:induction false} DecimalIsNumeral(n: nat)
    ensures IsNumeral(Decimal(n), n)
    ensures n > 0 ==> Decimal(n)[0] != '0'
    decreases n
  {
    var s := Decimal(n);
    DigitStands(n % 10);
    if n >= 10 {
      DecimalIsNumeral(n / 10);
      assert s[..|s| - 1] == Decimal(n / 10) && s[|s| - 1] == Digit(n % 10);
    } else {
      assert s[..0] == [] && s[0] == Digit(n);
    }
  }

  lemma DigitStands(n: nat)
    requires n < 10
    ensures IsDigit(Digit(n)) && Digit(n) as int - '0' as int == n
  {
  }

  /** The metric has a name and no more values than allowed. */
  predicate Fits(m: MetricData) {
    Trim(m.name) != [] && (m.value.Array? ==> |m.value.values| <= 1024)
  }

  /** The row is that of the `j`-th value of the metric. */
  predicate IsRowOf(m: MetricData, j: nat, row: MetricRow)
    requires j < Width(m)
  {
    && row.step == m.step && row.timestamp == m.timestamp
    && match m.value
       case Scalar(value) => row.name == Trim(m.name) && row.value == value
       case Array(values) =>
         var n := |Trim(m.name)|;
         && row.value == values[j] && n + 2 <= |row.name|
         && row.name[..n] == Trim(m.name) && row.name[n] == '[' && row.name[|row.name| - 1] == ']'
         && IsNumeral(row.name[n + 1..|row.name| - 1], j)
  }

  /** The values stand in order, as one row each. */
  ghost predicate RowsStand(metrics: seq<MetricData>, rows: seq<MetricRow>) {
    && |rows| == TotalWidth(metrics)
    && forall i: nat, j: nat :: i < |metrics| && j < Width(metrics[i]) ==> RowStands(metrics, i, j, rows)
  }

  predicate RowStands(metrics: seq<MetricData>, i: nat, j: nat, rows: seq<MetricRow>)
    requires i < |metrics| && j < Width(metrics[i])
  {
    var k := TotalWidth(metrics[..i]) + j;
    k < |rows| && IsRowOf(metrics[i], j, rows[k])
  }

  /** Every metric fits, and its values stand as rows; or the first that does not fit decides the error. */
  ghost predicate MetricsDecided(metrics: seq<MetricData>, r: Result<seq<MetricRow>, Rejection>) {
    match r
    case Ok(rows) => (forall i :: 0 <= i < |metrics| ==> Fits(metrics[i])) && RowsStand(metrics, rows)
    case Err(e) => exists i :: FirstMisfit(metrics, i, e)
  }

  /** The metric at `i` is the first that does not fit, and `e` says why. */
  ghost predicate FirstMisfit(metrics: seq<MetricData>, i: int, e: Rejection) {
    && 0 <= i < |metrics| && (forall j :: 0 <= j < i ==> Fits(metrics[j])) && !Fits(metrics[i])
    && e == if Trim(metrics[i].name) == [] then EmptyMetricName else ArrayTooLong(Trim(metrics[i].name))
  }

  lemma FaultIsMisfit(metrics: seq<MetricData>, i: nat)
    requires i < |metrics| && forall j :: 0 <= j < i ==> Fits(metrics[j])
    ensures if MetricFault(metrics[i]).None? then Fits(metrics[i]) else FirstMisfit(metrics, i, MetricFault(metrics[i]).value)
  {
    hide Trim;
  }

  lemma MisfitStays(init: seq<MetricData>, last: MetricData, i: int, e: Rejection)
    requires FirstMisfit(init, i, e)
    ensures FirstMisfit(init + [last], i, e)
  {
    hide Fits, Trim;
    assert forall j :: 0 <= j < |init| ==> (init + [last])[j] == init[j];
  }

  lemma {:induction false} ElementsAt(m: MetricData, n: nat, j: nat)
    requires m.value.Array? && j < n <= |m.value.values|
    ensures Elements(m, n)[j] == ElementRow(m, j)
    decreases n
  {
    hide ElementRow;
    if j < n - 1 { ElementsAt(m, n - 1, j); }
  }

  lemma RowsOfMetric(m: MetricData, j: nat)
    requires j < Width(m)
    ensures |Rows(m)| == Width(m) && IsRowOf(m, j, Rows(m)[j])
  {
    hide Trim, Decimal, IsNumeral;
    if m.value.Array? {
      ElementsAt(m, |m.value.values|, j);
      DecimalIsNumeral(j);
      var n, name := |Trim(m.name)|, ElementRow(m, j).name;
      assert name[..n] == Trim(m.name) && name[n + 1..|name| - 1] == Decimal(j);
    }
  }

  lemma WidthsMonotone(metrics: seq<MetricData>, i: nat)
    requires i < |metrics|
    ensures TotalWidth(metrics[..i]) + Width(metrics[i]) == TotalWidth(metrics[..i + 1])
  {
    assert metrics[..i + 1][..i] == metrics[..i];
  }

  /** A row that stands keeps its place when another metric and its rows follow. */
  lemma RowStandsLonger(init: seq<MetricData>, last: MetricData, i: nat, j: nat, rows: seq<MetricRow>, more: seq<MetricRow>)
    requires i < |init| && j < Width(init[i]) && RowStands(init, i, j, rows)
    ensures RowStands(init + [last], i, j, rows + more)
  {
    hide IsRowOf, TotalWidth, Width;
    assert (init + [last])[..i] == init[..i];
  }

  lemma LastRowStands(init: seq<MetricData>, last: MetricData, j: nat, rows: seq<MetricRow>)
    requires j < Width(last) && |rows| == TotalWidth(init)
    ensures RowStands(init + [last], |init|, j, rows + Rows(last))
  {
    hide IsRowOf, Width, Rows, TotalWidth;
    assert (init + [last])[..|init|] == init;
    RowsOfMetric(last, j);
    assert (rows + Rows(last))[|rows| + j] == Rows(last)[j];
  }

  lemma RowsStandOneMore(init: seq<MetricData>, last: MetricData, rows: seq<MetricRow>)
    requires RowsStand(init, rows)
    ensures RowsStand(init + [last], rows + Rows(last))
  {
    hide RowStands, Rows, Width, TotalWidth;
    var metrics := init + [last];
    assert metrics[|init|] == last && metrics[..|init|] == init;
    WidthsMonotone(metrics, |init|);
    assert metrics[..|init| + 1] == metrics;
    RowCount(last);
    forall i: nat, j: nat | i < |metrics| && j < Width(metrics[i]) ensures RowStands(metrics, i, j, rows + Rows(last)) {
      if i < |init| {
        assert metrics[i] == init[i];
        RowStandsLonger(init, last, i, j, rows, Rows(last));
      } else {
        LastRowStands(init, last, j, rows);
      }
    }
  }

  lemma RowCount(m: MetricData)
    ensures |Rows(m)| == Width(m)
  {
  }

  lemma NoRowsStand()
    ensures RowsStand([], [])
  {
  }

  /** Expansion decides as the request asks: nothing is renumbered, renamed or moved. */
  lemma {:induction false} ExpandDecides(metrics: seq<MetricData>)
    ensures MetricsDecided(metrics, Expand(metrics))
    decreases |metrics|
  {
    hide Rows, RowsStand, Fits, MetricFault, FirstMisfit;
    if metrics == [] {
      NoRowsStand();
    } else {
      var n := |metrics| - 1;
      var init, last := metrics[..n], metrics[n];
      assert metrics == init + [last];
      ExpandDecides(init);
      var before := Expand(init);
      if before.Err? {
        var i :| FirstMisfit(init, i, before.error);
        MisfitStays(init, last, i, before.error);
      } else {
        assert forall j :: 0 <= j < n ==> init[j] == metrics[j];
        RowsStandOneMore(init, last, before.value);
        FaultIsMisfit(metrics, n);
      }
    }
  }

  method ExpandMetrics(metrics: seq<MetricData>) returns (r: Result<seq<MetricRow>, Rejection>)
    ensures r == Expand(metrics)
    ensures MetricsDecided(metrics, r)
  {
    hide Trim, Decimal, MetricsDecided;
    ExpandDecides(metrics);
    var rows: seq<MetricRow> := [];
    var i := 0;
    while i < |metrics|
      invariant 0 <= i <= |metrics|
      invariant Expand(metrics[..i]) == Ok(rows)
    {
      var m := metrics[i];
      assert metrics[..i + 1][..i] == metrics[..i];
      var name := Trim(m.name);
      if name == [] {
        ExpandStops(metrics, i + 1);
        return Err(EmptyMetricName);
      }
      match m.value {
        case Scalar(value) =>
          rows := rows + [MetricRow(name, m.step, value, m.timestamp)];
        case Array(values) =>
          if |values| > METRIC_ARRAY_MAX_LEN {
            ExpandStops(metrics, i + 1);
            return Err(ArrayTooLong(name));
          }
          ghost var before := rows;
          var j := 0;
          while j < |values|
            invariant 0 <= j <= |values|
            invariant rows == before + Elements(m, j)
          {
            rows := rows + [MetricRow(name + "[" + Decimal(j) + "]", m.step, values[j], m.timestamp)];
            j := j + 1;
          }
      }
      i := i + 1;
    }
    assert metrics[..i] == metrics;
    r := Ok(rows);
  }

  lemma {:induction false} DecimalInjective(a: nat, b: nat)
    requires Decimal(a) == Decimal(b)
    ensures a == b
    decreases a
  {
    var s, t := Decimal(a), Decimal(b);
    assert (a >= 10 <==> |s| >= 2) && (b >= 10 <==> |t| >= 2);
    if a >= 10 {
      assert s[..|s| - 1] == Decimal(a / 10) && t[..|t| - 1] == Decimal(b / 10);
      DecimalInjective(a / 10, b / 10);
      assert s[|s| - 1] == Digit(a % 10) && t[|t| - 1] == Digit(b % 10);
    } else {
      assert s[0] == Digit(a) && t[0] == Digit(b);
    }
  }

  /** The elements of one array metric get distinct names. */
  lemma ElementNamesDistinct(m: MetricData, i: nat, j: nat)
    requires m.value.Array? && i < |m.value.values| && j < |m.value.values|
    ensures ElementRow(m, i).name == ElementRow(m, j).name <==> i == j
  {
    hide Decimal, Trim;
    if ElementRow(m, i).name == ElementRow(m, j).name {
      var x, y := ElementRow(m, i).name, ElementRow(m, j).name;
      var n := |Trim(m.name)| + 1;
      assert x[n..|x| - 1] == Decimal(i) && y[n..|y| - 1] == Decimal(j);
      DecimalInjective(i, j);
    }
  }

  // ------------------------------------------------------------------ screening metrics

  predicate IsFinite(r: MetricRow) {
    r.value.Finite? && (r.timestamp.None? || r.timestamp.value.Finite?)
  }

  function Kept(names: set<string>): MetricRow -> bool {
    (r: MetricRow) => r.name in names && IsFinite(r)
  }

  function NotFinite(names: set<string>): MetricRow -> bool {
    (r: MetricRow) => r.name in names && !IsFinite(r)
  }

  function NotNamed(names: set<string>): MetricRow -> bool {
    (r: MetricRow) => r.name !in names
  }

  /** The metric filter: rows of accepted names, without those that are not finite. */
  method ScreenMetrics(rows: seq<MetricRow>, names: set<string>) returns (kept: seq<MetricRow>, nonFinite: nat)
    ensures kept == Filter(rows, Kept(names))
    ensures nonFinite == |Filter(rows, NotFinite(names))|
  {
    hide Filter, IsFinite;
    kept, nonFinite := [], 0;
    var i := 0;
    assert rows[..0] == [];
    FilterNone(rows[..0], Kept(names));
    FilterNone(rows[..0], NotFinite(names));
    while i < |rows|
      invariant 0 <= i <= |rows|
      invariant kept == Filter(rows[..i], Kept(names))
      invariant nonFinite == |Filter(rows[..i], NotFinite(names))|
    {
      FilterOneMore(rows, i, Kept(names));
      FilterOneMore(rows, i, NotFinite(names));
      if rows[i].name in names {
        if IsFinite(rows[i]) {
          kept := kept + [rows[i]];
        } else {
          nonFinite := nonFinite + 1;
        }
      }
      i := i + 1;
    }
    assert rows[..i] == rows;
  }

  function Names(rows: seq<MetricRow>): (names: seq<string>)
    ensures |names| == |rows|
    ensures forall i :: 0 <= i < |rows| ==> names[i] == rows[i].name
  {
    seq(|rows|, i requires 0 <= i < |rows| => rows[i].name)
  }

  function ToSet(s: seq<string>): set<string> {
    set x | x in s
  }

  /** Rows are kept, not finite, or of a name that was not accepted, and only one of these. */
  lemma {:induction false} ThreeWays(rows: seq<MetricRow>, names: set<string>)
    ensures |rows| == |Filter(rows, Kept(names))| + |Filter(rows, NotFinite(names))| + |Filter(rows, NotNamed(names))|
    ensures multiset(rows) == multiset(Filter(rows, Kept(names))) + multiset(Filter(rows, NotFinite(names)))
                              + multiset(Filter(rows, NotNamed(names)))
    decreases |rows|
  {
    hide IsFinite;
    if rows != [] {
      ThreeWays(rows[1..], names);
      assert rows == [rows[0]] + rows[1..];
    }
  }

  /** The handler drops by name what the tracker dropped by occurrence: as many. */
  lemma {:induction false} DroppedByName(rows: seq<MetricRow>, names: set<string>, admit: string -> bool)
    requires forall r :: r in rows ==> (r.name in names <==> admit(r.name))
    ensures |Filter(rows, NotNamed(names))| == |Filter(Names(rows), n => !admit(n))|
    decreases |rows|
  {
    if rows != [] {
      assert rows[0] in rows;
      DroppedByName(rows[1..], names, admit);
      assert Names(rows)[1..] == Names(rows[1..]);
    }
  }

  /** Conservation: the expanded metrics are those kept, those dropped as not finite and those the
      tracker dropped for cardinality. */
  lemma MetricsConserved(cfg: Limits.Config, t: Limits.Tracker, project: string, run: string, tags: seq<Pair>, rows: seq<MetricRow>)
    ensures var v := Limits.Validated(cfg, t, project, run, tags, Names(rows)).1;
            var names := ToSet(v.acceptedMetrics);
            |rows| == |Filter(rows, Kept(names))| + |Filter(rows, NotFinite(names))| + |v.droppedMetrics|
  {
    hide Limits.ScanTags, Limits.ScanNames, Limits.NameAdmitted, Limits.TagAdmitted, Limits.Validated, Filter;
    var v := Limits.Validated(cfg, t, project, run, tags, Names(rows)).1;
    var names := ToSet(v.acceptedMetrics);
    Limits.ValidatePartitions(cfg, t, project, run, tags, Names(rows));
    var end := Limits.BatchNames(cfg, t, run, Names(rows), Limits.BatchTags(cfg, t, project, run, tags).warnings);
    var admit := n => Limits.NameAdmitted(cfg, end, n);
    forall r | r in rows ensures r.name in names <==> admit(r.name) {
      var i :| 0 <= i < |rows| && rows[i] == r;
      assert Names(rows)[i] == r.name;
      FilterMember(Names(rows), n => Limits.NameAdmitted(cfg, end, n), r.name);
    }
    DroppedByName(rows, names, admit);
    SameFilter(Names(rows), n => !admit(n), n => !Limits.NameAdmitted(cfg, end, n));
    ThreeWays(rows, names);
  }

  // ------------------------------------------------------------------ screening events

  function Given(raw: Option<string>, default: string): string {
    if raw.None? || Trim(raw.value) == [] then default else Trim(raw.value)
  }

  function NormalLevel(raw: Option<string>): (level: string)
    ensures level in {"debug", "warn", "error", "info"}
  {
    var given := Lower(Given(raw, "info"));
    if given == "debug" then "debug"
    else if given == "warn" || given == "warning" then "warn"
    else if given == "error" then "error"
    else "info"
  }

  /** A text of more than `max` bytes is cut to its first `max` characters. */
  function Clip(s: string, max: nat): (r: string)
    ensures |r| <= max && r <= s
  {
    if Utf8Len(s) <= max then s else if |s| <= max then s else s[..max]
  }

  function NormalSource(raw: Option<string>): (source: string)
    ensures 0 < |source| <= EVENT_SOURCE_MAX_LEN
  {
    Clip(Given(raw, "sdk"), EVENT_SOURCE_MAX_LEN)
  }

  function SanitizedMessage(raw: string): Option<string> {
    if Trim(raw) == [] then None else Some(Clip(Trim(raw), RUN_EVENT_MAX_LEN))
  }

  datatype Sieve = Keep(event: RunEvent) | Drop | DropUnsafe(error: string)

  function Sift(env: Env, e: EventData): Sieve {
    match SanitizedMessage(e.message)
    case None => Drop
    case Some(message) =>
      if e.timestamp.Some? && !e.timestamp.value.Finite? then Drop
      else
        match env.structured(message)
        case Unsafe(error) => DropUnsafe(error)
        case Rewritten(safe) => Keep(RunEvent(NormalLevel(e.level), NormalSource(e.source), safe, e.step, e.timestamp))
        case Untouched => Keep(RunEvent(NormalLevel(e.level), NormalSource(e.source), message, e.step, e.timestamp))
  }

  datatype EventScreen = EventScreen(kept: seq<RunEvent>, dropped: nat, notices: seq<Notice>)

  function SiftOne(env: Env, st: EventScreen, e: EventData): EventScreen {
    match Sift(env, e)
    case Keep(event) => st.(kept := st.kept + [event])
    case Drop => st.(dropped := st.dropped + 1)
    case DropUnsafe(error) => st.(dropped := st.dropped + 1, notices := st.notices + [UnsafeEvent(error)])
  }

  function SiftAll(env: Env, events: seq<EventData>): EventScreen {
    if events == [] then EventScreen([], 0, [])
    else SiftOne(env, SiftAll(env, events[..|events| - 1]), events[|events| - 1])
  }

  predicate WellFormed(e: RunEvent) {
    (e.timestamp.None? || e.timestamp.value.Finite?) && e.source != [] && e.level in {"debug", "warn", "error", "info"}
  }

  lemma SiftKeepsWellFormed(env: Env, e: EventData)
    requires Sift(env, e).Keep?
    ensures WellFormed(Sift(env, e).event)
  {
    hide Trim, Clip, Lower;
  }

  function IsUnsafe(env: Env): EventData -> bool {
    (e: EventData) => Sift(env, e).DropUnsafe?
  }

  /** Conservation of events: each is kept or counted as dropped, each unsafe one has its notice, and
      what is kept is finite, levelled and sourced. */
  lemma {:induction false} EventsConserved(env: Env, events: seq<EventData>)
    ensures var st := SiftAll(env, events);
            && |st.kept| + st.dropped == |events|
            && |st.notices| == |Filter(events, IsUnsafe(env))| <= st.dropped
            && (forall i :: 0 <= i < |st.kept| ==> WellFormed(st.kept[i]))
    decreases |events|
  {
    hide Sift, WellFormed, Filter;
    if events == [] {
      FilterNone(events, IsUnsafe(env));
    } else {
      var n := |events| - 1;
      EventsConserved(env, events[..n]);
      FilterOneMore(events, n, IsUnsafe(env));
      assert events[..n + 1] == events;
      if Sift(env, events[n]).Keep? { SiftKeepsWellFormed(env, events[n]); }
    }
  }

  /** What is written of an event: its level in one of four words, its source or "sdk", its message trimmed,
      cut and made safe, its step and timestamp as sent. */
  ghost predicate IsEventOf(env: Env, e: EventData, event: RunEvent) {
    && IsLevelOf(e.level, event.level)
    && IsSourceOf(e.source, event.source)
    && (exists text :: IsCut(Trim(e.message), 16000, text)
          && event.message == match env.structured(text) case Rewritten(safe) => safe case _ => text)
    && event.step == e.step && event.timestamp == e.timestamp
  }

  predicate IsLevelOf(raw: Option<string>, level: string) {
    var given := if raw.None? then "" else Lower(Trim(raw.value));
    level == if given in {"warn", "warning"} then "warn" else if given in {"debug", "error"} then given else "info"
  }

  /** A text of more than `max` bytes keeps its first `max` characters. */
  predicate IsCut(s: string, max: nat, cut: string) {
    cut <= s && (cut == s || |cut| == max) && (Utf8Len(s) <= max ==> cut == s) && (Utf8Len(s) > max ==> |cut| <= max)
  }

  /** An event without text, or with a timestamp that is not finite. */
  predicate IsBlank(e: EventData) {
    AllWhitespace(e.message) || (e.timestamp.Some? && !e.timestamp.value.Finite?)
  }

  /** Its text, trimmed and cut, is found unsafe for this reason. */
  ghost predicate IsUnsafeFor(env: Env, e: EventData, error: string) {
    exists text :: IsCut(Trim(e.message), 16000, text) && env.structured(text) == Unsafe(error)
  }

  lemma ClipCuts(s: string, max: nat)
    ensures IsCut(s, max, Clip(s, max))
    ensures forall cut :: IsCut(s, max, cut) ==> cut == Clip(s, max)
  {
    hide Utf8Len;
  }

  lemma LevelStands(raw: Option<string>)
    ensures IsLevelOf(raw, NormalLevel(raw))
  {
    hide Trim;
    assert Lower([]) == [];
    assert Lower("info") == "info";
    if raw.Some? && Trim(raw.value) == [] { assert Lower(Trim(raw.value)) == ""; }
  }

  lemma MessageStands(raw: string)
    ensures SanitizedMessage(raw).None? <==> AllWhitespace(raw)
    ensures SanitizedMessage(raw).Some? ==> forall cut :: IsCut(Trim(raw), 16000, cut) <==> cut == SanitizedMessage(raw).value
  {
    TrimmedAway(raw);
    ClipCuts(Trim(raw), 16000);
    hide Trim, Clip, IsCut, AllWhitespace;
  }

  /** The source, or "sdk" where there is none. */
  predicate IsSourceOf(raw: Option<string>, source: string) {
    IsCut(if raw.None? || AllWhitespace(raw.value) then "sdk" else Trim(raw.value), 64, source)
  }

  lemma SourceStands(raw: Option<string>)
    ensures IsSourceOf(raw, NormalSource(raw))
  {
    if raw.Some? { TrimmedAway(raw.value); }
    ClipCuts(Given(raw, "sdk"), 64);
    hide Trim, Clip, IsCut, AllWhitespace;
  }

  lemma SiftDecides(env: Env, e: EventData)
    ensures var r := Sift(env, e);
            && (r.Keep? ==> !IsBlank(e) && IsEventOf(env, e, r.event) && forall error :: !IsUnsafeFor(env, e, error))
            && (r.Drop? <==> IsBlank(e))
            && (r.DropUnsafe? ==> !IsBlank(e) && IsUnsafeFor(env, e, r.error))
  {
    MessageStands(e.message);
    SourceStands(e.source);
    LevelStands(e.level);
    hide Trim, SanitizedMessage, NormalLevel, NormalSource, IsCut, IsLevelOf, IsSourceOf, AllWhitespace;
  }

  /** Kept are, in order, the events that are neither blank nor unsafe, each written as it should be; each
      unsafe one has its notice, in order; and every event that is not kept is counted as dropped. */
  ghost predicate EventsDecided(env: Env, events: seq<EventData>, st: EventScreen, kept: seq<nat>, unsafe: seq<nat>) {
    && Rising(kept, |events|) && |kept| == |st.kept|
    && (forall k :: 0 <= k < |kept| ==> kept[k] < |events| && IsEventOf(env, events[kept[k]], st.kept[k]))
    && Rising(unsafe, |events|) && |unsafe| == |st.notices|
    && (forall k :: 0 <= k < |unsafe| ==> unsafe[k] < |events| && st.notices[k].UnsafeEvent? && IsUnsafeFor(env, events[unsafe[k]], st.notices[k].error))
    && (forall i: nat :: i < |events| ==> if IsBlank(events[i]) then i !in kept && i !in unsafe else i in kept <==> i !in unsafe)
    && (forall i: nat, error :: i in kept && i < |events| ==> !IsUnsafeFor(env, events[i], error))
    && |kept| + st.dropped == |events|
  }

  lemma EventsDecidedOneMore(env: Env, events: seq<EventData>, e: EventData, st: EventScreen, kept: seq<nat>, unsafe: seq<nat>)
    requires EventsDecided(env, events, st, kept, unsafe)
    ensures var n, r := |events|, Sift(env, e);
            EventsDecided(env, events + [e], SiftOne(env, st, e),
                          kept + (if r.Keep? then [n] else []), unsafe + (if r.DropUnsafe? then [n] else []))
  {
    hide Sift, IsEventOf, IsBlank, IsUnsafeFor, Rising;
    SiftDecides(env, e);
    var n, all := |events|, events + [e];
    RisingOneMore(kept, n);
    RisingOneMore(unsafe, n);
    assert all[n] == e && forall i :: 0 <= i < n ==> all[i] == events[i];
    assert kept + [] == kept && unsafe + [] == unsafe;
  }

  lemma {:induction false} EventsPicked(env: Env, events: seq<EventData>) returns (kept: seq<nat>, unsafe: seq<nat>)
    ensures EventsDecided(env, events, SiftAll(env, events), kept, unsafe)
    decreases |events|
  {
    hide Sift, IsEventOf, IsBlank, IsUnsafeFor, SiftOne;
    if events == [] {
      kept, unsafe := [], [];
    } else {
      var n := |events| - 1;
      kept, unsafe := EventsPicked(env, events[..n]);
      EventsDecidedOneMore(env, events[..n], events[n], SiftAll(env, events[..n]), kept, unsafe);
      assert events == events[..n] + [events[n]];
      hide EventsDecided;
      var r := Sift(env, events[n]);
      kept, unsafe := kept + (if r.Keep? then [n] else []), unsafe + (if r.DropUnsafe? then [n] else []);
    }
  }

  method ScreenEvents(env: Env, events: seq<EventData>, warnings: seq<Notice>)
    returns (kept: seq<RunEvent>, dropped: nat, warned: seq<Notice>)
    ensures warnings <= warned
    ensures EventScreen(kept, dropped, warned[|warnings|..]) == SiftAll(env, events)
  {
    hide Trim, NormalLevel, NormalSource;
    kept, dropped, warned := [], 0, warnings;
    var i := 0;
    while i < |events|
      invariant 0 <= i <= |events| && warnings <= warned
      invariant EventScreen(kept, dropped, warned[|warnings|..]) == SiftAll(env, events[..i])
    {
      var e := events[i];
      assert events[..i + 1][..i] == events[..i];
      i := i + 1;
      var message := SanitizedMessage(e.message);
      if message.None? {
        dropped := dropped + 1;
        continue;
      }
      if e.timestamp.Some? && !e.timestamp.value.Finite? {
        dropped := dropped + 1;
        continue;
      }
      var text := message.value;
      var outcome := env.structured(text);
      if outcome.Unsafe? {
        dropped, warned := dropped + 1, warned + [UnsafeEvent(outcome.error)];
        continue;
      }
      if outcome.Rewritten? {
        text := outcome.message;
      }
      kept := kept + [RunEvent(NormalLevel(e.level), NormalSource(e.source), text, e.step, e.timestamp)];
    }
    assert events[..i] == events;
  }
}
