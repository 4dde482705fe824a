/** `HttpRateLimiter`: a token bucket per key, over real time and exact token counts. */
module TokenBucket {
  import opened Wrappers

  const U64_MAX: nat := 0xFFFF_FFFF_FFFF_FFFF

  /** Seconds a bucket must be idle before `prune_stale` may drop it. */
  const STALE_AFTER: real := 300.0

  datatype Bucket = Bucket(tokens: real, last: real)

  type Buckets = map<string, Bucket>

  /** The limiter's two settings: burst capacity and tokens per second. */
  datatype Rate = Rate(capacity: nat, refill: real)

  function Min(a: real, b: real): real {
    if a <= b then a else b
  }

  /** `Instant::duration_since`, which is zero for an instant in the future. */
  function Elapsed(last: real, now: real): real {
    if now >= last then now - last else 0.0
  }

  /** Tokens that `seconds` of refilling bring. */
  function Gain(rate: Rate, seconds: real): real {
    seconds * rate.refill
  }

  lemma GainLaws(rate: Rate, a: real, b: real)
    requires rate.refill >= 0.0
    ensures Gain(rate, 0.0) == 0.0
    ensures a >= 0.0 ==> Gain(rate, a) >= 0.0
    ensures Gain(rate, a + b) == Gain(rate, a) + Gain(rate, b)
    ensures a <= b ==> Gain(rate, a) <= Gain(rate, b)
    ensures rate.refill > 0.0 && a < b ==> Gain(rate, a) < Gain(rate, b)
  {
    assert a <= b ==> (b - a) * rate.refill >= 0.0;
    assert rate.refill > 0.0 && a < b ==> (b - a) * rate.refill > 0.0;
  }

  /** What the bucket of `key` holds at `now`; a key without a bucket has a full one. */
  function Level(rate: Rate, m: Buckets, key: string, now: real): real {
    if key in m
    then Min(m[key].tokens + Gain(rate, Elapsed(m[key].last, now)), rate.capacity as real)
    else rate.capacity as real
  }

  predicate Allows(rate: Rate, m: Buckets, key: string, now: real) {
    Level(rate, m, key, now) >= 1.0
  }

  function Ceil(x: real): int {
    -((-x).Floor)
  }

  /** `retry_after_seconds`; `None` stands for a wait that is not finite. */
  function RetryAfterSeconds(wait: Option<real>): nat {
    if wait.None? || wait.value <= 0.0 then 1
    else if Ceil(wait.value) > U64_MAX then U64_MAX
    else Ceil(wait.value)
  }

  function Wait(rate: Rate, level: real): Option<real> {
    if rate.refill == 0.0 then None else Some((1.0 - level) / rate.refill)
  }

  function AfterCall(rate: Rate, m: Buckets, key: string, now: real): Buckets {
    var level := Level(rate, m, key, now);
    m[key := Bucket(if level >= 1.0 then level - 1.0 else level, now)]
  }

  function AfterPrune(m: Buckets, now: real): Buckets {
    map key | key in m && m[key].last > now - STALE_AFTER :: m[key]
  }

  class HttpRateLimiter {
    const rate: Rate
    var buckets: Buckets

    constructor (capacity: nat, refill: real)
      ensures rate == Rate(capacity, refill) && buckets == map[]
    {
      rate := Rate(capacity, refill);
      buckets := map[];
    }

    method Check(key: string, now: real) returns (r: Result<(), nat>)
      modifies this
      ensures buckets == AfterCall(rate, old(buckets), key, now)
      ensures r.Ok? <==> Allows(rate, old(buckets), key, now)
      ensures r.Err? ==> r.error == RetryAfterSeconds(Wait(rate, Level(rate, old(buckets), key, now)))
    {
      if key !in buckets {
        buckets := buckets[key := Bucket(rate.capacity as real, now)];
      }
      var bucket := buckets[key];
      var tokens := Min(bucket.tokens + Gain(rate, Elapsed(bucket.last, now)), rate.capacity as real);
      assert key !in old(buckets) ==> Gain(rate, 0.0) == 0.0;
      assert tokens == Level(rate, old(buckets), key, now);
      if tokens >= 1.0 {
        buckets := buckets[key := Bucket(tokens - 1.0, now)];
        r := Ok(());
      } else {
        buckets := buckets[key := Bucket(tokens, now)];
        r := Err(RetryAfterSeconds(Wait(rate, tokens)));
      }
    }

    method PruneStale(now: real)
      modifies this
      ensures buckets == AfterPrune(old(buckets), now)
      ensures forall key :: key in buckets <==> key in old(buckets) && old(buckets)[key].last > now - 300.0
      ensures forall key :: key in buckets ==> buckets[key] == old(buckets)[key]
    {
      buckets := map key | key in buckets && buckets[key].last > now - STALE_AFTER :: buckets[key];
    }
  }

  // ------------------------------------------------------------------ runs

  datatype Event = Call(key: string, now: real) | Prune(now: real)

  function Apply(rate: Rate, m: Buckets, ev: Event): Buckets {
    match ev
    case Call(key, now) => AfterCall(rate, m, key, now)
    case Prune(now) => AfterPrune(m, now)
  }

  function Run(rate: Rate, m: Buckets, evs: seq<Event>): Buckets
    decreases |evs|
  {
    if evs == [] then m else Run(rate, Apply(rate, m, evs[0]), evs[1..])
  }

  /** How many calls of `key` the events admit, started from `m`. */
  function Admitted(rate: Rate, m: Buckets, evs: seq<Event>, key: string): nat
    decreases |evs|
  {
    if evs == [] then 0
    else
      (if evs[0].Call? && evs[0].key == key && Allows(rate, m, key, evs[0].now) then 1 else 0)
      + Admitted(rate, Apply(rate, m, evs[0]), evs[1..], key)
  }

  /** The events are in lock order with nondecreasing times, all within [from, to]. */
  predicate Within(evs: seq<Event>, from: real, to: real)
    decreases |evs|
  {
    if evs == [] then from <= to else from <= evs[0].now && Within(evs[1..], evs[0].now, to)
  }

  predicate CallsOnly(evs: seq<Event>) {
    forall i :: 0 <= i < |evs| ==> evs[i].Call?
  }

  /** Every bucket was last touched no later than `t` and holds between zero and capacity. */
  predicate Settled(rate: Rate, m: Buckets, t: real) {
    forall key :: key in m ==> m[key].last <= t && 0.0 <= m[key].tokens <= rate.capacity as real
  }

  lemma LevelBounds(rate: Rate, m: Buckets, key: string, t: real, later: real)
    requires rate.refill >= 0.0 && Settled(rate, m, t) && t <= later
    ensures 0.0 <= Level(rate, m, key, t) <= Level(rate, m, key, later) <= rate.capacity as real
    ensures Level(rate, m, key, later) ==
            Min(Level(rate, m, key, t) + Gain(rate, later - t), rate.capacity as real)
  {
    hide Gain;
    GainLaws(rate, later - t, 0.0);
    if key in m {
      var last := m[key].last;
      GainLaws(rate, t - last, later - t);
      assert later - last == (t - last) + (later - t);
    }
  }

  lemma CallLevels(rate: Rate, m: Buckets, key: string, now: real, other: string, later: real)
    requires rate.refill >= 0.0 && Settled(rate, m, now) && now <= later
    ensures Settled(rate, AfterCall(rate, m, key, now), now)
    ensures var after := AfterCall(rate, m, key, now);
            && (other != key || !Allows(rate, m, key, now) ==>
                  Level(rate, after, other, later) == Level(rate, m, other, later))
            && (other == key && Allows(rate, m, key, now) ==>
                  Level(rate, after, other, now) == Level(rate, m, other, now) - 1.0)
  {
    hide Gain;
    GainLaws(rate, later - now, 0.0);
    LevelBounds(rate, m, key, now, later);
  }

  /** Conservation: what a run admits plus what is left is at most what was there plus the refill. */
  lemma {:induction false} AdmittedConserves(rate: Rate, m: Buckets, evs: seq<Event>, key: string, from: real, to: real)
    requires rate.refill >= 0.0 && Settled(rate, m, from) && Within(evs, from, to) && CallsOnly(evs)
    ensures Settled(rate, Run(rate, m, evs), to)
    ensures Admitted(rate, m, evs, key) as real + Level(rate, Run(rate, m, evs), key, to)
            <= Level(rate, m, key, from) + Gain(rate, to - from)
    decreases |evs|
  {
    hide Gain, Level;
    if evs == [] {
      LevelBounds(rate, m, key, from, to);
    } else {
      var now := evs[0].now;
      var after := Apply(rate, m, evs[0]);
      LevelBounds(rate, m, key, from, now);
      CallLevels(rate, m, evs[0].key, now, key, now);
      WithinTo(evs[1..], now, to);
      AdmittedConserves(rate, after, evs[1..], key, now, to);
      GainLaws(rate, now - from, to - now);
      assert to - from == (now - from) + (to - now);
    }
  }

  lemma {:induction false} WithinTo(evs: seq<Event>, from: real, to: real)
    requires Within(evs, from, to)
    ensures from <= to
    decreases |evs|
  {
    if evs != [] {
      WithinTo(evs[1..], evs[0].now, to);
    }
  }

  lemma {:induction false} WithinSplit(evs: seq<Event>, i: nat, from: real, to: real)
    requires i < |evs| && Within(evs, from, to)
    ensures Within(evs[..i], from, evs[i].now) && Within(evs[i..], evs[i].now, to)
    decreases i
  {
    if i > 0 {
      WithinSplit(evs[1..], i - 1, evs[0].now, to);
      assert evs[1..][..i - 1] == evs[..i][1..];
      assert evs[1..][i - 1..] == evs[i..];
    } else {
      assert evs[..0] == [] && evs[0..] == evs;
      assert evs[0].now <= evs[0].now;
    }
  }

  /** In any run of calls with nondecreasing times, the calls of one key admitted from the `i`-th to
      the `j`-th event number at most the capacity plus the refill over that span, and the bucket of
      every key stays between zero and capacity. */
  lemma WindowBound(rate: Rate, evs: seq<Event>, i: nat, j: nat, key: string, from: real, to: real)
    requires rate.refill >= 0.0 && Within(evs, from, to) && CallsOnly(evs) && i <= j < |evs|
    ensures Admitted(rate, Run(rate, map[], evs[..i]), evs[i..j + 1], key) as real
            <= rate.capacity as real + Gain(rate, evs[j].now - evs[i].now)
    ensures Settled(rate, Run(rate, map[], evs), to)
  {
    hide Level, Settled, Admitted, Run;
    assert Settled(rate, map[], from) by { SettledEmpty(rate, from); }
    AdmittedConserves(rate, map[], evs, key, from, to);
    var before, window := evs[..i], evs[i..j + 1];
    WithinSplit(evs, i, from, to);
    AdmittedConserves(rate, map[], before, key, from, evs[i].now);
    WindowWithin(evs, i, j, from, to);
    var m := Run(rate, map[], before);
    AdmittedConserves(rate, m, window, key, evs[i].now, evs[j].now);
    WithinTo(window, evs[i].now, evs[j].now);
    LevelBounds(rate, m, key, evs[i].now, evs[i].now);
    LevelBounds(rate, Run(rate, m, window), key, evs[j].now, evs[j].now);
  }

  lemma SettledEmpty(rate: Rate, t: real)
    ensures Settled(rate, map[], t)
  {
  }

  lemma {:induction false} PrefixWithin(evs: seq<Event>, k: nat, from: real, to: real)
    requires Within(evs, from, to) && k < |evs|
    ensures Within(evs[..k + 1], from, evs[k].now)
    decreases k
  {
    if k == 0 {
      assert evs[..1] == [evs[0]] && [evs[0]][1..] == [];
      assert Within([], evs[0].now, evs[0].now);
    } else {
      PrefixWithin(evs[1..], k - 1, evs[0].now, to);
      assert evs[..k + 1][1..] == evs[1..][..k];
    }
  }

  lemma SliceOfSuffix(evs: seq<Event>, i: nat, j: nat)
    requires i <= j < |evs|
    ensures evs[i..][..j - i + 1] == evs[i..j + 1] && evs[i..][j - i] == evs[j]
  {
  }

  lemma WindowWithin(evs: seq<Event>, i: nat, j: nat, from: real, to: real)
    requires Within(evs, from, to) && i <= j < |evs|
    ensures Within(evs[i..j + 1], evs[i].now, evs[j].now)
  {
    hide Within;
    WithinSplit(evs, i, from, to);
    PrefixWithin(evs[i..], j - i, evs[i].now, to);
    SliceOfSuffix(evs, i, j);
  }

  // ------------------------------------------------------------------ indistinguishable limiters

  /** From time `t` on, no key can tell `m` from `n`. */
  ghost predicate Same(rate: Rate, m: Buckets, n: Buckets, t: real) {
    forall key, later :: later >= t ==> Level(rate, m, key, later) == Level(rate, n, key, later)
  }

  lemma SameAfterCall(rate: Rate, m: Buckets, n: Buckets, key: string, now: real)
    requires rate.refill >= 0.0 && Settled(rate, m, now) && Settled(rate, n, now) && Same(rate, m, n, now)
    ensures Same(rate, AfterCall(rate, m, key, now), AfterCall(rate, n, key, now), now)
  {
    var m', n' := AfterCall(rate, m, key, now), AfterCall(rate, n, key, now);
    forall other, later | later >= now ensures Level(rate, m', other, later) == Level(rate, n', other, later) {
      CallLevels(rate, m, key, now, other, later);
      CallLevels(rate, n, key, now, other, later);
      assert Level(rate, m, key, now) == Level(rate, n, key, now);
    }
  }

  /** A denied poll leaves every later level as it was: refilling twice is refilling once. */
  lemma DeniedCallInvisible(rate: Rate, m: Buckets, key: string, now: real)
    requires rate.refill >= 0.0 && Settled(rate, m, now) && !Allows(rate, m, key, now)
    ensures Same(rate, AfterCall(rate, m, key, now), m, now)
  {
    forall other, later | later >= now
      ensures Level(rate, AfterCall(rate, m, key, now), other, later) == Level(rate, m, other, later)
    {
      CallLevels(rate, m, key, now, other, later);
    }
  }

  /** The events without the calls that were denied when they happened. */
  function DropDenied(rate: Rate, m: Buckets, evs: seq<Event>): seq<Event>
    decreases |evs|
  {
    if evs == [] then []
    else
      var rest := DropDenied(rate, Apply(rate, m, evs[0]), evs[1..]);
      if evs[0].Call? && !Allows(rate, m, evs[0].key, evs[0].now) then rest else [evs[0]] + rest
  }

  /** Denied polls never change a later verdict: the run without them leaves the same levels. */
  lemma {:induction false} DeniedPollsInvisible(rate: Rate, m: Buckets, n: Buckets, evs: seq<Event>, from: real, to: real)
    requires rate.refill >= 0.0 && Settled(rate, m, from) && Settled(rate, n, from) && Same(rate, m, n, from)
    requires Within(evs, from, to) && CallsOnly(evs)
    ensures Same(rate, Run(rate, m, evs), Run(rate, n, DropDenied(rate, m, evs)), to)
    decreases |evs|
  {
    if evs != [] {
      var key, now := evs[0].key, evs[0].now;
      var m' := AfterCall(rate, m, key, now);
      CallLevels(rate, m, key, now, key, now);
      var rest := DropDenied(rate, m', evs[1..]);
      if Allows(rate, m, key, now) {
        CallLevels(rate, n, key, now, key, now);
        SameAfterCall(rate, m, n, key, now);
        DeniedPollsInvisible(rate, m', AfterCall(rate, n, key, now), evs[1..], now, to);
        assert ([evs[0]] + rest)[1..] == rest;
      } else {
        DeniedCallInvisible(rate, m, key, now);
        assert Same(rate, m', n, now);
        DeniedPollsInvisible(rate, m', n, evs[1..], now, to);
      }
    }
  }

  // ------------------------------------------------------------------ pruning

  function DropPrunes(evs: seq<Event>): seq<Event> {
    if evs == [] then []
    else if evs[0].Prune? then DropPrunes(evs[1..])
    else [evs[0]] + DropPrunes(evs[1..])
  }

  lemma PruneInvisible(rate: Rate, m: Buckets, now: real)
    requires rate.refill >= 0.0 && Settled(rate, m, now) && rate.capacity as real <= STALE_AFTER * rate.refill
    ensures Same(rate, AfterPrune(m, now), m, now)
  {
    forall key, later | later >= now ensures Level(rate, AfterPrune(m, now), key, later) == Level(rate, m, key, later) {
      if key in m && key !in AfterPrune(m, now) {
        GainLaws(rate, STALE_AFTER, Elapsed(m[key].last, later));
      }
    }
  }

  lemma {:induction false} PruningInvisible(rate: Rate, m: Buckets, n: Buckets, evs: seq<Event>, from: real, to: real)
    requires rate.refill >= 0.0 && rate.capacity as real <= STALE_AFTER * rate.refill
    requires Settled(rate, m, from) && Settled(rate, n, from) && Same(rate, m, n, from) && Within(evs, from, to)
    ensures Same(rate, Run(rate, m, evs), Run(rate, n, DropPrunes(evs)), to)
    decreases |evs|
  {
    if evs != [] {
      var now := evs[0].now;
      var rest := DropPrunes(evs[1..]);
      if evs[0].Prune? {
        PruneInvisible(rate, m, now);
        assert Same(rate, AfterPrune(m, now), n, now);
        PruningInvisible(rate, AfterPrune(m, now), n, evs[1..], now, to);
      } else {
        CallLevels(rate, m, evs[0].key, now, evs[0].key, now);
        CallLevels(rate, n, evs[0].key, now, evs[0].key, now);
        SameAfterCall(rate, m, n, evs[0].key, now);
        PruningInvisible(rate, Apply(rate, m, evs[0]), Apply(rate, n, evs[0]), evs[1..], now, to);
        assert ([evs[0]] + rest)[1..] == rest;
      }
    }
  }

  /** No run lets pruning decide the verdict on the call that comes next. */
  ghost predicate PruningTransparent(rate: Rate) {
    forall evs, from, to, key :: Within(evs, from, to) ==> SameVerdict(rate, evs, key, to)
  }

  predicate SameVerdict(rate: Rate, evs: seq<Event>, key: string, now: real) {
    Allows(rate, Run(rate, map[], evs), key, now) <==> Allows(rate, Run(rate, map[], DropPrunes(evs)), key, now)
  }

  function Burst(key: string, now: real, n: nat): (evs: seq<Event>)
    ensures |evs| == n
  {
    if n == 0 then [] else [Call(key, now)] + Burst(key, now, n - 1)
  }

  lemma {:induction false} BurstLevel(rate: Rate, m: Buckets, key: string, now: real, n: nat)
    requires rate.refill >= 0.0 && Settled(rate, m, now)
    ensures var after := Run(rate, m, Burst(key, now, n));
            && Settled(rate, after, now)
            && (Level(rate, m, key, now) >= n as real ==>
                  Level(rate, after, key, now) == Level(rate, m, key, now) - n as real)
            && (Level(rate, m, key, now) < n as real + 1.0 ==> Level(rate, after, key, now) < 1.0)
            && (n > 0 ==> key in after && after[key].last == now)
    decreases n
  {
    if n > 0 {
      var m' := AfterCall(rate, m, key, now);
      CallLevels(rate, m, key, now, key, now);
      assert Burst(key, now, n)[1..] == Burst(key, now, n - 1);
      BurstLevel(rate, m', key, now, n - 1);
      if n == 1 {
        assert Burst(key, now, 0) == [];
      }
    }
  }

  lemma {:induction false} RunAppend(rate: Rate, m: Buckets, a: seq<Event>, b: seq<Event>)
    ensures Run(rate, m, a + b) == Run(rate, Run(rate, m, a), b)
    decreases |a|
  {
    if a == [] {
      assert a + b == b;
    } else {
      RunAppend(rate, Apply(rate, m, a[0]), a[1..], b);
      assert (a + b)[1..] == a[1..] + b;
    }
  }

  lemma {:induction false} BurstWithin(key: string, now: real, n: nat, rest: seq<Event>, to: real)
    requires Within(rest, now, to)
    ensures Within(Burst(key, now, n) + rest, now, to)
    decreases n
  {
    var evs := Burst(key, now, n) + rest;
    if n == 0 {
      assert evs == rest;
    } else {
      BurstWithin(key, now, n - 1, rest, to);
      assert evs[1..] == Burst(key, now, n - 1) + rest;
    }
  }

  lemma {:induction false} BurstDropPrunes(key: string, now: real, n: nat, rest: seq<Event>)
    ensures DropPrunes(Burst(key, now, n) + rest) == Burst(key, now, n) + DropPrunes(rest)
    decreases n
  {
    var evs := Burst(key, now, n) + rest;
    if n == 0 {
      assert evs == rest;
    } else {
      BurstDropPrunes(key, now, n - 1, rest);
      assert evs[1..] == Burst(key, now, n - 1) + rest;
    }
  }

  /** A key drained at time 0, pruned at 300 and drained again to its last token. */
  function DrainedTwice(key: string, n: nat): (seq<Event>, seq<Event>) {
    (Burst(key, 0.0, n), if n == 0 then [] else Burst(key, STALE_AFTER, n - 1))
  }

  lemma DrainedTwiceShape(key: string, n: nat)
    requires n > 0
    ensures var (first, second) := DrainedTwice(key, n);
            && Within(first + ([Prune(STALE_AFTER)] + second), 0.0, STALE_AFTER)
            && DropPrunes(first + ([Prune(STALE_AFTER)] + second)) == first + second
  {
    var (first, second) := DrainedTwice(key, n);
    var tail := [Prune(STALE_AFTER)] + second;
    assert second + [] == second && tail[1..] == second;
    BurstWithin(key, STALE_AFTER, n - 1, [], STALE_AFTER);
    BurstWithin(key, 0.0, n, tail, STALE_AFTER);
    BurstDropPrunes(key, STALE_AFTER, n - 1, []);
    assert DropPrunes(tail) == second;
    BurstDropPrunes(key, 0.0, n, tail);
  }

  /** With pruning that key's next call is admitted; without, it is not. */
  lemma PruningVisible(rate: Rate)
    requires rate.refill >= 0.0 && STALE_AFTER * rate.refill < rate.capacity as real
    ensures !PruningTransparent(rate)
  {
    hide Within, Level, Burst;
    var key, n := "k", rate.capacity;
    GainLaws(rate, STALE_AFTER, 0.0);
    var (first, second) := DrainedTwice(key, n);
    var evs := first + ([Prune(STALE_AFTER)] + second);
    DrainedTwiceShape(key, n);

    var drained := Run(rate, map[], first);
    assert Level(rate, map[], key, 0.0) == n as real by { EmptyLevel(rate, map[], key, 0.0); }
    BurstLevel(rate, map[], key, 0.0, n);
    LevelBounds(rate, drained, key, 0.0, STALE_AFTER);

    var pruned := AfterPrune(drained, STALE_AFTER);
    EmptyLevel(rate, pruned, key, STALE_AFTER);
    BurstLevel(rate, pruned, key, STALE_AFTER, n - 1);
    RunAppend(rate, map[], first, [Prune(STALE_AFTER)] + second);
    assert ([Prune(STALE_AFTER)] + second)[1..] == second;
    assert Run(rate, map[], evs) == Run(rate, pruned, second);

    BurstLevel(rate, drained, key, STALE_AFTER, n - 1);
    RunAppend(rate, map[], first, second);
    assert !SameVerdict(rate, evs, key, STALE_AFTER);
  }

  lemma EmptyLevel(rate: Rate, m: Buckets, key: string, now: real)
    requires key !in m
    ensures Level(rate, m, key, now) == rate.capacity as real
  {
  }

  /** Pruning is transparent exactly when an idle bucket is full again by the time it may be pruned. */
  lemma PruningTransparentIff(rate: Rate)
    requires rate.refill >= 0.0
    ensures PruningTransparent(rate) <==> rate.capacity as real <= 300.0 * rate.refill
  {
    if rate.capacity as real <= STALE_AFTER * rate.refill {
      forall evs, from, to, key | Within(evs, from, to)
        ensures SameVerdict(rate, evs, key, to)
      {
        PruningInvisible(rate, map[], map[], evs, from, to);
      }
    } else {
      PruningVisible(rate);
    }
  }

  // ------------------------------------------------------------------ the reported wait

  lemma {:induction false} UntouchedLevel(rate: Rate, m: Buckets, evs: seq<Event>, key: string, from: real, to: real)
    requires rate.refill >= 0.0 && Settled(rate, m, from) && Within(evs, from, to) && CallsOnly(evs)
    requires Admitted(rate, m, evs, key) == 0
    ensures Level(rate, Run(rate, m, evs), key, to) == Level(rate, m, key, to)
    decreases |evs|
  {
    if evs != [] {
      var now := evs[0].now;
      WithinTo(evs[1..], now, to);
      CallLevels(rate, m, evs[0].key, now, key, to);
      UntouchedLevel(rate, Apply(rate, m, evs[0]), evs[1..], key, now, to);
    }
  }

  lemma CeilBounds(x: real)
    ensures Ceil(x) as real - 1.0 < x <= Ceil(x) as real
  {
  }

  lemma DivideGain(rate: Rate, x: real)
    requires rate.refill > 0.0
    ensures Gain(rate, x / rate.refill) == x
    ensures x > 0.0 ==> x / rate.refill > 0.0
  {
  }

  lemma RetryDelay(rate: Rate, level: real)
    requires rate.refill > 0.0 && level < 1.0 && Ceil((1.0 - level) / rate.refill) <= U64_MAX
    ensures var wait := RetryAfterSeconds(Wait(rate, level));
            && wait >= 1
            && level + Gain(rate, wait as real) >= 1.0
            && level + Gain(rate, wait as real - 1.0) < 1.0
  {
    hide Gain, Ceil;
    var exact := (1.0 - level) / rate.refill;
    DivideGain(rate, 1.0 - level);
    CeilBounds(exact);
    GainLaws(rate, exact, Ceil(exact) as real);
    GainLaws(rate, Ceil(exact) as real - 1.0, exact);
  }

  /** After a denial, a call made once the reported wait is over is admitted, whatever other calls came
      in between, as long as none of them took the key's token; one second less is not enough. */
  lemma RetryHintIsExact(rate: Rate, m: Buckets, evs: seq<Event>, key: string, now: real, to: real)
    requires rate.refill > 0.0 && rate.capacity >= 1 && Settled(rate, m, now) && !Allows(rate, m, key, now)
    requires Ceil((1.0 - Level(rate, m, key, now)) / rate.refill) <= U64_MAX
    requires Within(evs, now, to) && CallsOnly(evs) && Admitted(rate, m, evs, key) == 0
    ensures var wait := RetryAfterSeconds(Wait(rate, Level(rate, m, key, now)));
            && (to >= now + wait as real ==> Allows(rate, Run(rate, m, evs), key, to))
            && (to <= now + wait as real - 1.0 ==> !Allows(rate, Run(rate, m, evs), key, to))
  {
    hide Gain, Level, Ceil, RetryAfterSeconds, Wait, Run;
    var level := Level(rate, m, key, now);
    var wait := RetryAfterSeconds(Wait(rate, level));
    RetryDelay(rate, level);
    WithinTo(evs, now, to);
    UntouchedLevel(rate, m, evs, key, now, to);
    LevelBounds(rate, m, key, now, to);
    GainLaws(rate, wait as real, to - now);
    GainLaws(rate, to - now, wait as real - 1.0);
  }

  /** Without a refill a denied client is told one second, and is never admitted again; a wait too long to be
      told is told as the longest there is. */
  lemma RetryHintAtTheEdges(rate: Rate, m: Buckets, key: string, now: real, later: real)
    requires rate.capacity >= 1 && Settled(rate, m, now) && !Allows(rate, m, key, now) && now <= later
    ensures rate.refill == 0.0 ==> RetryAfterSeconds(Wait(rate, Level(rate, m, key, now))) == 1 && !Allows(rate, m, key, later)
    ensures rate.refill > 0.0 && (1.0 - Level(rate, m, key, now)) / rate.refill > 18446744073709551615.0 ==>
              RetryAfterSeconds(Wait(rate, Level(rate, m, key, now))) == 18446744073709551615
  {
    hide Gain, Level;
    if rate.refill == 0.0 {
      NoGain(rate, later - now);
      LevelBounds(rate, m, key, now, later);
    } else if rate.refill > 0.0 {
      CeilBounds((1.0 - Level(rate, m, key, now)) / rate.refill);
    }
  }

  lemma NoGain(rate: Rate, seconds: real)
    requires rate.refill == 0.0
    ensures Gain(rate, seconds) == 0.0
  {
  }

  // ------------------------------------------------------------------ times in any order

  /** What the bucket held when it was last touched. */
  function Tokens(rate: Rate, m: Buckets, key: string): real {
    if key in m then m[key].tokens else rate.capacity as real
  }

  /** The seconds by which each call of `key` is later than the call of `key` before it, added up; a call
      that reads an earlier time adds nothing, and the next one counts from that earlier time. */
  function Forward(m: Buckets, evs: seq<Event>, key: string): real
    decreases |evs|
  {
    if evs == [] then 0.0
    else if !evs[0].Call? || evs[0].key != key then Forward(m, evs[1..], key)
    else (if key in m then Elapsed(m[key].last, evs[0].now) else 0.0) + Forward(map[key := Bucket(0.0, evs[0].now)], evs[1..], key)
  }

  predicate Bounded(rate: Rate, m: Buckets) {
    forall key :: key in m ==> 0.0 <= m[key].tokens <= rate.capacity as real
  }

  lemma CallTokens(rate: Rate, m: Buckets, key: string, now: real)
    requires rate.refill >= 0.0 && Bounded(rate, m)
    ensures Bounded(rate, AfterCall(rate, m, key, now))
    ensures (if Allows(rate, m, key, now) then 1.0 else 0.0) + Tokens(rate, AfterCall(rate, m, key, now), key)
         <= Tokens(rate, m, key) + Gain(rate, if key in m then Elapsed(m[key].last, now) else 0.0)
  {
    hide Gain;
    GainLaws(rate, 0.0, 0.0);
    if key in m { GainLaws(rate, Elapsed(m[key].last, now), 0.0); }
  }

  lemma {:induction false} ForwardSame(m: Buckets, n: Buckets, evs: seq<Event>, key: string)
    requires key in m <==> key in n
    requires key in m ==> m[key].last == n[key].last
    ensures Forward(m, evs, key) == Forward(n, evs, key)
    ensures Forward(m, evs, key) >= 0.0
    decreases |evs|
  {
    if evs != [] {
      if !evs[0].Call? || evs[0].key != key {
        ForwardSame(m, n, evs[1..], key);
      } else {
        var next := map[key := Bucket(0.0, evs[0].now)];
        ForwardSame(next, next, evs[1..], key);
      }
    }
  }

  /** Whatever the times, what calls admit plus what is left is at most what was there plus the refill over
      the forward jumps. */
  lemma {:induction false} AnyTimesConserve(rate: Rate, m: Buckets, evs: seq<Event>, key: string)
    requires rate.refill >= 0.0 && Bounded(rate, m) && CallsOnly(evs)
    ensures Bounded(rate, Run(rate, m, evs))
    ensures Admitted(rate, m, evs, key) as real + Tokens(rate, Run(rate, m, evs), key)
         <= Tokens(rate, m, key) + Gain(rate, Forward(m, evs, key))
    decreases |evs|
  {
    hide Gain, Allows, AfterCall;
    GainLaws(rate, 0.0, 0.0);
    if evs != [] {
      var now, k := evs[0].now, evs[0].key;
      var after := AfterCall(rate, m, k, now);
      CallTokens(rate, m, k, now);
      AnyTimesConserve(rate, after, evs[1..], key);
      TouchedBuckets(rate, m, k, now);
      if k == key {
        ForwardSame(after, map[key := Bucket(0.0, now)], evs[1..], key);
        GainLaws(rate, if key in m then Elapsed(m[key].last, now) else 0.0, Forward(after, evs[1..], key));
      } else {
        ForwardSame(m, after, evs[1..], key);
      }
    }
  }

  lemma TouchedBuckets(rate: Rate, m: Buckets, key: string, now: real)
    ensures key in AfterCall(rate, m, key, now) && AfterCall(rate, m, key, now)[key].last == now
    ensures forall other :: other != key ==>
              (other in AfterCall(rate, m, key, now) <==> other in m)
              && (other in m ==> AfterCall(rate, m, key, now)[other] == m[other])
  {
    hide Level;
  }

  /** With no assumption on the times, the calls of one key admitted from the `i`-th to the `j`-th event of
      any run number at most the capacity plus the refill over the forward jumps of its clock readings. */
  lemma AnyTimesBound(rate: Rate, evs: seq<Event>, i: nat, j: nat, key: string)
    requires rate.refill >= 0.0 && CallsOnly(evs) && i <= j <= |evs|
    ensures var m := Run(rate, map[], evs[..i]);
            Admitted(rate, m, evs[i..j], key) as real <= rate.capacity as real + Gain(rate, Forward(m, evs[i..j], key))
  {
    hide Run, Admitted, Forward, Gain;
    var m := Run(rate, map[], evs[..i]);
    AnyTimesConserve(rate, map[], evs[..i], key);
    AnyTimesConserve(rate, m, evs[i..j], key);
  }

  /** The jumps count twice: a call that read its clock before it waited for the lock sets the refill time
      back, and the next call is credited again for the same seconds, past the bound for sorted times. */
  lemma StaleClockAdmitsTwice()
    ensures var rate := Rate(1, 1.0);
            Admitted(rate, map[], [Call("k", 10.0), Call("k", 0.0), Call("k", 10.0)], "k") == 2
  {
    var rate, key := Rate(1, 1.0), "k";
    var evs := [Call(key, 10.0), Call(key, 0.0), Call(key, 10.0)];
    var m1 := AfterCall(rate, map[], key, 10.0);
    assert m1[key] == Bucket(0.0, 10.0);
    var m2 := AfterCall(rate, m1, key, 0.0);
    assert m2[key] == Bucket(0.0, 0.0);
    assert Level(rate, m2, key, 10.0) == 1.0;
    assert evs[1..] == [Call(key, 0.0), Call(key, 10.0)];
    assert evs[1..][1..] == [Call(key, 10.0)];
    assert evs[1..][1..][1..] == [];
    assert Admitted(rate, m2, [Call(key, 10.0)], key) == 1;
    assert Admitted(rate, m1, evs[1..], key) == 1;
  }
}
