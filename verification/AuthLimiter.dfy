/** `AuthRateLimiter`: a windowed failure counter per client with exponential backoff. */
module AuthLimiter {
  import opened Wrappers
  import opened Arithmetic

  const U32_MAX: nat := 0xFFFF_FFFF
  const U64_MAX: nat := 0xFFFF_FFFF_FFFF_FFFF

  /** Durations are whole seconds; `AuthRateLimitConfig::from_env` keeps every setting positive. */
  datatype Config = Config(enabled: bool, maxFailures: nat, window: nat, baseBackoff: nat, maxBackoff: nat)

  datatype Entry = Entry(windowStart: real, failures: nat, blockedUntil: Option<real>)

  predicate ValidConfig(cfg: Config) {
    && 0 < cfg.maxFailures <= U32_MAX
    && 0 < cfg.window <= U64_MAX && 0 < cfg.baseBackoff <= U64_MAX && 0 < cfg.maxBackoff <= U64_MAX
  }

  function NewEntry(now: real): Entry {
    Entry(now, 0, None)
  }

  predicate Expired(cfg: Config, e: Entry, now: real) {
    now - e.windowStart > cfg.window as real
  }

  function MinNat(a: nat, b: nat): nat {
    if a <= b then a else b
  }

  function Backoff(cfg: Config, failures: nat): nat
    requires failures >= cfg.maxFailures
  {
    var exponent := MinNat(failures - cfg.maxFailures, 16);
    var candidate := MinNat(cfg.baseBackoff * Pow2(exponent), U64_MAX);
    MinNat(candidate, cfg.maxBackoff)
  }

  /** `retry_after_seconds`: the entry afterwards, and the seconds to wait if the client is blocked. */
  function Check(cfg: Config, entry: Option<Entry>, now: real): (Option<Entry>, Option<nat>) {
    if entry.None? then (None, None)
    else
      var e := entry.value;
      if Expired(cfg, e, now) then (Some(NewEntry(now)), None)
      else if e.blockedUntil.None? then (entry, None)
      else
        var until := e.blockedUntil.value;
        if now < until then (entry, Some(if (until - now).Floor < 1 then 1 else (until - now).Floor))
        else (Some(Entry(now, 0, None)), None)
  }

  /** `record_failure`. */
  function Fail(cfg: Config, entry: Option<Entry>, now: real): Entry {
    var e0 := if entry.None? then NewEntry(now) else entry.value;
    var e := if Expired(cfg, e0, now) then NewEntry(now) else e0;
    var failures := if e.failures < U32_MAX then e.failures + 1 else U32_MAX;
    if failures >= cfg.maxFailures
    then Entry(e.windowStart, failures, Some(now + Backoff(cfg, failures) as real))
    else Entry(e.windowStart, failures, e.blockedUntil)
  }

  // ------------------------------------------------------------------ all clients

  datatype Op = CheckOp(client: string, at: real) | FailOp(client: string, at: real) | SuccessOp(client: string, at: real)

  type Entries = map<string, Entry>

  function EntryOf(m: Entries, client: string): Option<Entry> {
    if client in m then Some(m[client]) else None
  }

  /** A call changes the entry of its own client; a disabled limiter and an unnamed client change nothing. */
  function Step(cfg: Config, m: Entries, op: Op): Entries {
    if !cfg.enabled || op.client == "" then m
    else
      match op
      case CheckOp(client, at) =>
        (match Check(cfg, EntryOf(m, client), at).0 case Some(e) => m[client := e] case None => m)
      case FailOp(client, at) => m[client := Fail(cfg, EntryOf(m, client), at)]
      case SuccessOp(client, _) => m - {client}
  }

  ghost predicate AllValid(cfg: Config, m: Entries, now: real) {
    forall client :: client in m ==> ValidEntry(cfg, m[client], now)
  }

  class AuthRateLimiter {
    const config: Config
    var entries: map<string, Entry>
    /** The latest time at which the limiter was used. */
    ghost var clock: real

    function Lookup(client: string): Option<Entry>
      reads this
    {
      EntryOf(entries, client)
    }

    ghost predicate Valid()
      reads this
    {
      AllValid(config, entries, clock)
    }

    constructor (config: Config)
      ensures Valid() && this.config == config && entries == map[]
    {
      this.config := config;
      this.entries := map[];
      clock := 0.0;
    }

    method RetryAfterSeconds(client: string, now: real) returns (retry: Option<nat>)
      modifies this
      ensures entries == Step(config, old(entries), CheckOp(client, now)) && clock == now
      ensures ValidConfig(config) && old(Valid()) && old(clock) <= now ==> Valid()
      ensures !config.enabled || client == "" ==> retry.None? && entries == old(entries)
      ensures config.enabled && client != "" ==>
                var (entry, wait) := Check(config, old(Lookup(client)), now);
                && retry == wait
                && entries == match entry case Some(e) => old(entries)[client := e] case None => old(entries)
    {
      clock := now;
      if ValidConfig(config) && old(Valid()) && old(clock) <= now {
        StepKeepsValid(config, entries, CheckOp(client, now), old(clock));
      }
      if !config.enabled || client == "" {
        return None;
      }
      if client in entries {
        var e := entries[client];
        if now - e.windowStart > config.window as real {
          entries := entries[client := NewEntry(now)];
          return None;
        }
        if e.blockedUntil.Some? {
          var until := e.blockedUntil.value;
          if now < until {
            var seconds := (until - now).Floor;
            assert old(entries)[client := e] == entries;
            return Some(if seconds < 1 then 1 else seconds);
          }
          entries := entries[client := Entry(now, 0, None)];
        } else {
          assert old(entries)[client := e] == entries;
        }
      }
      return None;
    }

    method RecordFailure(client: string, now: real)
      modifies this
      ensures entries == Step(config, old(entries), FailOp(client, now)) && clock == now
      ensures ValidConfig(config) && old(Valid()) && old(clock) <= now ==> Valid()
      ensures entries == if !config.enabled || client == "" then old(entries)
                         else old(entries)[client := Fail(config, old(Lookup(client)), now)]
      ensures ValidConfig(config) && config.enabled && client != "" && entries[client].failures >= config.maxFailures ==>
                entries[client].blockedUntil == BlockedFrom(config, entries[client].failures, now)
    {
      hide Pow2, Backoff, BlockedFrom;
      clock := now;
      if ValidConfig(config) && old(Valid()) && old(clock) <= now {
        StepKeepsValid(config, entries, FailOp(client, now), old(clock));
      }
      if ValidConfig(config) { FailBlocks(config, Lookup(client), now); }
      if !config.enabled || client == "" {
        return;
      }
      var e := if client in entries then entries[client] else NewEntry(now);
      if now - e.windowStart > config.window as real {
        e := NewEntry(now);
      }
      e := e.(failures := if e.failures < U32_MAX then e.failures + 1 else U32_MAX);
      if e.failures >= config.maxFailures {
        e := e.(blockedUntil := Some(now + Backoff(config, e.failures) as real));
      }
      entries := entries[client := e];
    }

    method RecordSuccess(client: string)
      modifies this
      ensures entries == Step(config, old(entries), SuccessOp(client, clock)) && clock == old(clock)
      ensures old(Valid()) ==> Valid()
      ensures entries == if !config.enabled || client == "" then old(entries) else old(entries) - {client}
    {
      if !config.enabled || client == "" {
        return;
      }
      entries := entries - {client};
    }
  }

  // ------------------------------------------------------------------ backoff

  lemma {:induction false} Pow2Monotone(a: nat, b: nat)
    requires a <= b
    ensures Pow2(a) <= Pow2(b)
    decreases b
  {
    if a < b {
      Pow2Monotone(a, b - 1);
    }
  }

  lemma Pow2Limit(n: nat)
    requires n <= 16
    ensures Pow2(n) <= 0x1_0000
  {
    Pow2Monotone(n, 16);
    assert Pow2(16) == 2 * Pow2(15) == 4 * Pow2(14) == 8 * Pow2(13) == 16 * Pow2(12);
    assert Pow2(12) == 2 * Pow2(11) == 4 * Pow2(10) == 8 * Pow2(9) == 16 * Pow2(8);
    assert Pow2(8) == 2 * Pow2(7) == 4 * Pow2(6) == 8 * Pow2(5) == 16 * Pow2(4);
  }

  /** The shift stays inside 64 bits, the delay between the two configured backoffs, and more failures
      never shorten it. */
  lemma BackoffBounds(cfg: Config, failures: nat, more: nat)
    requires ValidConfig(cfg) && cfg.maxFailures <= failures <= more
    ensures Pow2(MinNat(failures - cfg.maxFailures, 16)) <= 0x1_0000
    ensures MinNat(cfg.baseBackoff, cfg.maxBackoff) <= Backoff(cfg, failures) <= cfg.maxBackoff
    ensures Backoff(cfg, failures) <= Backoff(cfg, more)
  {
    hide Pow2;
    var a, b := MinNat(failures - cfg.maxFailures, 16), MinNat(more - cfg.maxFailures, 16);
    Pow2Limit(a);
    Pow2Monotone(a, b);
    MulMono(1, Pow2(a), cfg.baseBackoff);
    MulMono(Pow2(a), Pow2(b), cfg.baseBackoff);
  }

  /** The first delay is the base, each of the next sixteen failures doubles it, and later ones keep it; the
      maximum caps them all. */
  lemma BackoffDoubles(cfg: Config, failures: nat)
    requires ValidConfig(cfg) && failures >= cfg.maxFailures
    ensures Backoff(cfg, cfg.maxFailures) == MinNat(cfg.baseBackoff, cfg.maxBackoff)
    ensures Backoff(cfg, failures + 1)
         == if failures - cfg.maxFailures < 16 then MinNat(2 * Backoff(cfg, failures), cfg.maxBackoff) else Backoff(cfg, failures)
  {
    assert Pow2(0) == 1 && cfg.baseBackoff * 1 == cfg.baseBackoff;
    var k := failures - cfg.maxFailures;
    if k < 16 {
      assert Pow2(k + 1) == 2 * Pow2(k);
      assert cfg.baseBackoff * (2 * Pow2(k)) == 2 * (cfg.baseBackoff * Pow2(k));
    }
  }

  /** The delay after `k` failures beyond the maximum. */
  lemma BackoffIs(cfg: Config, k: nat)
    requires ValidConfig(cfg)
    ensures Backoff(cfg, cfg.maxFailures + k) == MinNat(cfg.baseBackoff * Pow2(MinNat(k, 16)), cfg.maxBackoff)
  {
    hide Pow2;
  }

  // ------------------------------------------------------------------ invariant of an entry

  /** At `now`: blocked exactly when the failures reached the maximum, and never for longer than the
      backoff those failures earn. */
  predicate ValidEntry(cfg: Config, e: Entry, now: real) {
    && e.windowStart <= now && e.failures <= U32_MAX
    && (e.blockedUntil.Some? <==> e.failures >= cfg.maxFailures)
    && (e.blockedUntil.Some? ==>
          && e.blockedUntil.value <= now + Backoff(cfg, e.failures) as real
          && e.blockedUntil.value >= e.windowStart + MinNat(cfg.baseBackoff, cfg.maxBackoff) as real)
  }

  predicate ValidOption(cfg: Config, entry: Option<Entry>, now: real) {
    entry.Some? ==> ValidEntry(cfg, entry.value, now)
  }

  lemma CheckKeepsValid(cfg: Config, entry: Option<Entry>, before: real, now: real)
    requires ValidConfig(cfg) && before <= now && ValidOption(cfg, entry, before)
    ensures ValidOption(cfg, Check(cfg, entry, now).0, now)
  {
  }

  lemma FailKeepsValid(cfg: Config, entry: Option<Entry>, before: real, now: real)
    requires ValidConfig(cfg) && before <= now && ValidOption(cfg, entry, before)
    ensures ValidEntry(cfg, Fail(cfg, entry, now), now)
  {
    var e := Fail(cfg, entry, now);
    if e.failures >= cfg.maxFailures {
      BackoffBounds(cfg, e.failures, e.failures);
    }
  }

  lemma ValidLater(cfg: Config, e: Entry, before: real, now: real)
    requires ValidEntry(cfg, e, before) && before <= now
    ensures ValidEntry(cfg, e, now)
  {
    hide Backoff;
  }

  lemma StepKeepsValid(cfg: Config, m: Entries, op: Op, before: real)
    requires ValidConfig(cfg) && before <= op.at && AllValid(cfg, m, before)
    ensures AllValid(cfg, Step(cfg, m, op), op.at)
  {
    hide ValidEntry, Check, Fail;
    var after := Step(cfg, m, op);
    CheckKeepsValid(cfg, EntryOf(m, op.client), before, op.at);
    FailKeepsValid(cfg, EntryOf(m, op.client), before, op.at);
    forall client | client in after ensures ValidEntry(cfg, after[client], op.at) {
      if client in m { ValidLater(cfg, m[client], before, op.at); }
    }
  }

  /** Calls at nondecreasing times within [from, to]. */
  predicate Ordered(ops: seq<Op>, from: real, to: real)
    decreases |ops|
  {
    if ops == [] then from <= to else from <= ops[0].at && Ordered(ops[1..], ops[0].at, to)
  }

  function RunOps(cfg: Config, m: Entries, ops: seq<Op>): Entries
    decreases |ops|
  {
    if ops == [] then m else RunOps(cfg, Step(cfg, m, ops[0]), ops[1..])
  }

  lemma {:induction false} RunKeepsValid(cfg: Config, m: Entries, ops: seq<Op>, from: real, to: real)
    requires ValidConfig(cfg) && AllValid(cfg, m, from) && Ordered(ops, from, to)
    ensures AllValid(cfg, RunOps(cfg, m, ops), to)
    decreases |ops|
  {
    hide ValidEntry, Step;
    if ops == [] {
      forall client | client in m ensures ValidEntry(cfg, m[client], to) { ValidLater(cfg, m[client], from, to); }
    } else {
      StepKeepsValid(cfg, m, ops[0], from);
      RunKeepsValid(cfg, Step(cfg, m, ops[0]), ops[1..], ops[0].at, to);
    }
  }

  /** After any history of checks, failures and successes at nondecreasing times, an entry is blocked
      exactly if its failures reached the maximum, and never for longer than they earn. */
  lemma ReachableValid(cfg: Config, ops: seq<Op>, from: real, to: real, client: string)
    requires ValidConfig(cfg) && Ordered(ops, from, to) && client in RunOps(cfg, map[], ops)
    ensures var e := RunOps(cfg, map[], ops)[client];
            && (e.blockedUntil.Some? <==> e.failures >= cfg.maxFailures)
            && (e.blockedUntil.Some? ==> e.blockedUntil.value <= to + Backoff(cfg, e.failures) as real)
            && e.windowStart <= to
  {
    hide RunOps;
    RunKeepsValid(cfg, map[], ops, from, to);
  }

  /** Within a window, another failure never moves the end of the block to an earlier time. */
  lemma BlockNeverShrinks(cfg: Config, e: Entry, before: real, now: real)
    requires ValidConfig(cfg) && before <= now && ValidEntry(cfg, e, before)
    requires e.blockedUntil.Some? && !Expired(cfg, e, now)
    ensures var after := Fail(cfg, Some(e), now);
            after.blockedUntil.Some? && e.blockedUntil.value <= after.blockedUntil.value
  {
    BackoffBounds(cfg, e.failures, if e.failures < U32_MAX then e.failures + 1 else U32_MAX);
  }

  /** A block lasts its full time exactly when the window outlives it: window expiry lets the client
      back in early. */
  lemma BlockHonouredIff(cfg: Config, e: Entry)
    requires e.blockedUntil.Some? && e.windowStart <= e.blockedUntil.value
    ensures (forall now :: e.windowStart <= now < e.blockedUntil.value ==> Check(cfg, Some(e), now).1.Some?)
            <==> e.blockedUntil.value <= e.windowStart + cfg.window as real
  {
    var until, expiry := e.blockedUntil.value, e.windowStart + cfg.window as real;
    if until > expiry {
      var early := (until + expiry) / 2.0;
      assert Check(cfg, Some(e), early).1.None?;
    }
  }

  /** With a 60 second window and a 100 second backoff, the client is let in after 61 seconds. */
  lemma BlockClearedEarly()
    ensures var cfg := Config(true, 1, 60, 100, 300);
            var e := Fail(cfg, None, 0.0);
            e.blockedUntil == Some(100.0) && Check(cfg, Some(e), 61.0).1.None?
  {
    assert Pow2(0) == 1;
  }

  // ------------------------------------------------------------------ failures within one window

  function FailOps(client: string, times: seq<real>): seq<Op>
    decreases |times|
  {
    if times == [] then [] else [FailOp(client, times[0])] + FailOps(client, times[1..])
  }

  /** When the last of `failures` failures, at `last`, blocks the client until. */
  function BlockedFrom(cfg: Config, failures: nat, last: real): Option<real> {
    if failures < cfg.maxFailures then None
    else Some(last + MinNat(cfg.baseBackoff * Pow2(MinNat(failures - cfg.maxFailures, 16)), cfg.maxBackoff) as real)
  }

  lemma FailBlocks(cfg: Config, entry: Option<Entry>, now: real)
    requires ValidConfig(cfg)
    ensures var e := Fail(cfg, entry, now); e.failures >= cfg.maxFailures ==> e.blockedUntil == BlockedFrom(cfg, e.failures, now)
  {
    hide Pow2;
    var e := Fail(cfg, entry, now);
    if e.failures >= cfg.maxFailures { BackoffIs(cfg, e.failures - cfg.maxFailures); }
  }

  lemma FailAgain(cfg: Config, e: Entry, now: real)
    requires ValidConfig(cfg) && !Expired(cfg, e, now) && e.failures < U32_MAX
    requires e.failures < cfg.maxFailures ==> e.blockedUntil.None?
    ensures Fail(cfg, Some(e), now) == Entry(e.windowStart, e.failures + 1, BlockedFrom(cfg, e.failures + 1, now))
  {
    hide Pow2;
    if e.failures + 1 >= cfg.maxFailures { BackoffIs(cfg, e.failures + 1 - cfg.maxFailures); }
  }

  lemma {:induction false} MoreFailures(cfg: Config, m: Entries, client: string, e: Entry, times: seq<real>)
    requires ValidConfig(cfg) && cfg.enabled && client != "" && EntryOf(m, client) == Some(e) && e.failures + |times| <= U32_MAX
    requires e.failures < cfg.maxFailures ==> e.blockedUntil.None?
    requires forall i :: 0 <= i < |times| ==> !Expired(cfg, e, times[i])
    ensures EntryOf(RunOps(cfg, m, FailOps(client, times)), client)
         == Some(if times == [] then e
                 else Entry(e.windowStart, e.failures + |times|, BlockedFrom(cfg, e.failures + |times|, times[|times| - 1])))
    decreases |times|
  {
    hide Expired, Fail, BlockedFrom;
    if times != [] {
      FailAgain(cfg, e, times[0]);
      var next := Fail(cfg, Some(e), times[0]);
      SameWindow(cfg, e, next, times[1..]);
      NoBlockBelow(cfg, next.failures, times[0]);
      MoreFailures(cfg, Step(cfg, m, FailOp(client, times[0])), client, next, times[1..]);
    }
  }

  lemma SameWindow(cfg: Config, e: Entry, next: Entry, times: seq<real>)
    requires next.windowStart == e.windowStart && forall i :: 0 <= i < |times| ==> !Expired(cfg, e, times[i])
    ensures forall i :: 0 <= i < |times| ==> !Expired(cfg, next, times[i])
  {
  }

  lemma NoBlockBelow(cfg: Config, failures: nat, last: real)
    ensures failures < cfg.maxFailures ==> BlockedFrom(cfg, failures, last).None?
  {
  }

  /** What the failures of one window store for a client that has no entry: nothing blocks below the
      maximum; `k` beyond it, the block lasts `min(base * 2^min(k, 16), max)` from the last failure. */
  lemma FailuresBlock(cfg: Config, m: Entries, client: string, times: seq<real>)
    requires ValidConfig(cfg) && cfg.enabled && client != "" && client !in m
    requires 0 < |times| <= U32_MAX && forall i :: 0 <= i < |times| ==> times[i] - times[0] <= cfg.window as real
    ensures EntryOf(RunOps(cfg, m, FailOps(client, times)), client)
         == Some(Entry(times[0], |times|, BlockedFrom(cfg, |times|, times[|times| - 1])))
  {
    var unused := NewEntry(times[0]);
    var next := Fail(cfg, Some(unused), times[0]);
    assert Fail(cfg, None, times[0]) == next;
    FailAgain(cfg, unused, times[0]);
    NoBlockBelow(cfg, 1, times[0]);
    hide Fail, BlockedFrom;
    MoreFailures(cfg, Step(cfg, m, FailOp(client, times[0])), client, next, times[1..]);
  }

  /** The wait that a blocked client is told, rounded down, is at least a second and falls short of the end of
      the block by less than one: after it, the client is let in exactly if the block has ended or the window
      has run out, and a second later in any case. */
  lemma RetryHintWithinASecond(cfg: Config, e: Entry, now: real)
    requires Check(cfg, Some(e), now).1.Some?
    ensures var s, left := Check(cfg, Some(e), now).1.value, e.blockedUntil.value - now;
            && 1 <= s && left < (s + 1) as real && (s as real <= left || s == 1)
            && (Check(cfg, Some(e), now + s as real).1.None? <==>
                  left <= s as real || now + s as real - e.windowStart > cfg.window as real)
            && Check(cfg, Some(e), now + (s + 1) as real).1.None?
  {
  }

  /** A window that is more than its length old counts for nothing: the client is let in, and a failure is the
      first of a new window. */
  lemma WindowRestarts(cfg: Config, e: Entry, now: real)
    requires ValidConfig(cfg) && now - e.windowStart > cfg.window as real
    ensures Check(cfg, Some(e), now) == (Some(Entry(now, 0, None)), None)
    ensures Fail(cfg, Some(e), now) == Entry(now, 1, BlockedFrom(cfg, 1, now))
  {
    var restarted := NewEntry(now);
    assert Fail(cfg, Some(e), now) == Fail(cfg, Some(restarted), now);
    FailAgain(cfg, restarted, now);
  }

  /** Once a block has been served, the client starts a new window with all its guesses. */
  lemma BlockServed(cfg: Config, e: Entry, now: real)
    requires e.blockedUntil.Some? && e.blockedUntil.value <= now
    ensures Check(cfg, Some(e), now) == (Some(Entry(now, 0, None)), None)
  {
  }

  // ------------------------------------------------------------------ guesses per span

  /** One request with bad credentials: the middleware checks the limiter and records a failure, for a
      blocked request too. */
  datatype Attempt = Attempt(checkAt: real, failAt: real)

  function Try(cfg: Config, entry: Option<Entry>, a: Attempt): Option<Entry> {
    Some(Fail(cfg, Check(cfg, entry, a.checkAt).0, a.failAt))
  }

  predicate Admits(cfg: Config, entry: Option<Entry>, now: real) {
    Check(cfg, entry, now).1.None?
  }

  function AdmittedFailures(cfg: Config, entry: Option<Entry>, attempts: seq<Attempt>): nat
    decreases |attempts|
  {
    if attempts == [] then 0
    else
      (if Admits(cfg, entry, attempts[0].checkAt) then 1 else 0)
      + AdmittedFailures(cfg, Try(cfg, entry, attempts[0]), attempts[1..])
  }

  /** Attempts that follow one another within [from, to]. */
  predicate Sequential(attempts: seq<Attempt>, from: real, to: real)
    decreases |attempts|
  {
    if attempts == [] then from <= to
    else from <= attempts[0].checkAt <= attempts[0].failAt && Sequential(attempts[1..], attempts[0].failAt, to)
  }

  /** The shortest time between two resets of the counter. */
  function Spacing(cfg: Config): nat {
    MinNat(cfg.window, MinNat(cfg.baseBackoff, cfg.maxBackoff))
  }

  /** Failures an entry can still take before it blocks. */
  function Room(cfg: Config, entry: Option<Entry>): nat {
    if entry.None? then cfg.maxFailures
    else if entry.value.failures >= cfg.maxFailures then 0
    else cfg.maxFailures - entry.value.failures
  }

  /** Guesses that resets spaced by `Spacing` can add between `origin` and `to`. */
  function Budget(cfg: Config, origin: real, to: real): real
    requires Spacing(cfg) > 0
  {
    cfg.maxFailures as real * ((to - origin) / Spacing(cfg) as real)
  }

  lemma ZeroFactor(x: real, d: real)
    requires d > 0.0 && x * d == 0.0
    ensures x == 0.0
  {
  }

  lemma DivideAdds(a: real, b: real, d: real)
    requires d > 0.0
    ensures (a + b) / d == a / d + b / d
    ensures d / d == 1.0
    ensures a >= d ==> a / d >= 1.0
    ensures a >= 0.0 ==> a / d >= 0.0
  {
    var u, v, w := a / d, b / d, (a + b) / d;
    assert u * d == a && v * d == b && w * d == a + b;
    assert (w - (u + v)) * d == w * d - u * d - v * d;
    ZeroFactor(w - (u + v), d);
    assert a >= d ==> (u - 1.0) * d >= 0.0;
  }

  lemma BudgetSpends(cfg: Config, origin: real, reset: real, to: real)
    requires ValidConfig(cfg) && origin + Spacing(cfg) as real <= reset
    ensures cfg.maxFailures as real + Budget(cfg, reset, to) <= Budget(cfg, origin, to)
  {
    var d, n := Spacing(cfg) as real, cfg.maxFailures as real;
    DivideAdds(reset - origin, to - reset, d);
    assert to - origin == (reset - origin) + (to - reset);
    var gap, left := (reset - origin) / d, (to - reset) / d;
    assert n * (gap + left) == n * gap + n * left;
    assert n * (gap - 1.0) >= 0.0;
  }

  lemma BudgetNonnegative(cfg: Config, origin: real, to: real)
    requires ValidConfig(cfg) && origin <= to
    ensures Budget(cfg, origin, to) >= 0.0
  {
    DivideAdds(to - origin, 0.0, Spacing(cfg) as real);
    assert cfg.maxFailures as real * ((to - origin) / Spacing(cfg) as real) >= 0.0;
  }

  /** `origin` is at least `Spacing` before any reset the entry can undergo from `now` on. */
  predicate Paced(cfg: Config, entry: Option<Entry>, origin: real, now: real) {
    origin <= now && (origin + Spacing(cfg) as real <= now || (entry.Some? && origin <= entry.value.windowStart))
  }

  /** What a check or a failure does to the room and the pacing: either it keeps the window, or it
      opens a new one at least `Spacing` after the origin. */
  lemma CheckPace(cfg: Config, entry: Option<Entry>, origin: real, before: real, now: real)
    requires ValidConfig(cfg) && before <= now && ValidOption(cfg, entry, before) && Paced(cfg, entry, origin, before)
    ensures var (after, wait) := Check(cfg, entry, now);
            && (wait.None? ==> Room(cfg, after) > 0)
            && ((Room(cfg, after) == Room(cfg, entry) && Paced(cfg, after, origin, now))
                || (origin + Spacing(cfg) as real <= now && Paced(cfg, after, now, now)))
  {
  }

  lemma FailPace(cfg: Config, entry: Option<Entry>, origin: real, before: real, now: real)
    requires ValidConfig(cfg) && before <= now && ValidOption(cfg, entry, before) && Paced(cfg, entry, origin, before)
    ensures var after := Some(Fail(cfg, entry, now));
            && Room(cfg, after) < cfg.maxFailures
            && ((Paced(cfg, after, origin, now)
                 && Room(cfg, after) == if Room(cfg, entry) > 0 then Room(cfg, entry) - 1 else 0)
                || (origin + Spacing(cfg) as real <= now && Paced(cfg, after, now, now)
                    && Room(cfg, after) == cfg.maxFailures - 1))
  {
  }

  lemma {:induction false} SequentialTo(attempts: seq<Attempt>, from: real, to: real)
    requires Sequential(attempts, from, to)
    ensures from <= to
    decreases |attempts|
  {
    if attempts != [] {
      SequentialTo(attempts[1..], attempts[0].failAt, to);
    }
  }

  /** Moving to a later origin is paid for by the window that must have passed. */
  lemma {:induction false} AdmittedWithinBudget(cfg: Config, entry: Option<Entry>, attempts: seq<Attempt>, origin: real, from: real, to: real)
    requires ValidConfig(cfg) && ValidOption(cfg, entry, from) && Paced(cfg, entry, origin, from)
    requires Sequential(attempts, from, to)
    ensures AdmittedFailures(cfg, entry, attempts) as real <= Room(cfg, entry) as real + Budget(cfg, origin, to)
    decreases |attempts|, 0
  {
    hide Budget, Spacing;
    SequentialTo(attempts, from, to);
    BudgetNonnegative(cfg, origin, to);
    if attempts != [] {
      var a := attempts[0];
      var checked := Check(cfg, entry, a.checkAt).0;
      CheckKeepsValid(cfg, entry, from, a.checkAt);
      CheckPace(cfg, entry, origin, from, a.checkAt);
      if Room(cfg, checked) == Room(cfg, entry) && Paced(cfg, checked, origin, a.checkAt) {
        AdmittedAfterCheck(cfg, checked, attempts[1..], origin, a, to);
      } else {
        AdmittedAfterCheck(cfg, checked, attempts[1..], a.checkAt, a, to);
        BudgetSpends(cfg, origin, a.checkAt, to);
      }
    }
  }

  /** The second half of an attempt: recording the failure takes one from the room, or opens a window. */
  lemma {:induction false} AdmittedAfterCheck(cfg: Config, entry: Option<Entry>, rest: seq<Attempt>, origin: real, a: Attempt, to: real)
    requires ValidConfig(cfg) && ValidOption(cfg, entry, a.checkAt) && Paced(cfg, entry, origin, a.checkAt)
    requires a.checkAt <= a.failAt && Sequential(rest, a.failAt, to)
    ensures var spent := if Room(cfg, entry) > 0 then 1.0 else 0.0;
            spent + AdmittedFailures(cfg, Some(Fail(cfg, entry, a.failAt)), rest) as real
            <= Room(cfg, entry) as real + Budget(cfg, origin, to)
    decreases |rest|, 1
  {
    hide Budget, Spacing;
    var after := Some(Fail(cfg, entry, a.failAt));
    FailKeepsValid(cfg, entry, a.checkAt, a.failAt);
    FailPace(cfg, entry, origin, a.checkAt, a.failAt);
    if Paced(cfg, after, origin, a.failAt)
       && Room(cfg, after) == if Room(cfg, entry) > 0 then Room(cfg, entry) - 1 else 0 {
      AdmittedWithinBudget(cfg, after, rest, origin, a.failAt, to);
    } else {
      AdmittedWithinBudget(cfg, after, rest, a.failAt, a.failAt, to);
      BudgetSpends(cfg, origin, a.failAt, to);
    }
  }

  /** A client whose attempts do not overlap and never succeed gets at most
      `maxFailures * (T / d + 2)` guesses checked in any span of length T, where d is the shortest of
      the window and the two backoffs. */
  lemma AdmittedBound(cfg: Config, entry: Option<Entry>, attempts: seq<Attempt>, from: real, to: real)
    requires ValidConfig(cfg) && ValidOption(cfg, entry, from)
    requires Sequential(attempts, from, to)
    ensures AdmittedFailures(cfg, entry, attempts) as real
            <= cfg.maxFailures as real * ((to - from) / Spacing(cfg) as real + 2.0)
  {
    hide Budget, Spacing;
    AdmittedWithinBudget(cfg, entry, attempts, from - Spacing(cfg) as real, from, to);
    BudgetOfSpan(cfg, from, to);
  }

  lemma BudgetOfSpan(cfg: Config, from: real, to: real)
    requires ValidConfig(cfg)
    ensures cfg.maxFailures as real + Budget(cfg, from - Spacing(cfg) as real, to)
            == cfg.maxFailures as real * ((to - from) / Spacing(cfg) as real + 2.0)
  {
    var d, n := Spacing(cfg) as real, cfg.maxFailures as real;
    var span := (to - from) / d;
    DivideAdds(to - from, d, d);
    assert to - (from - d) == (to - from) + d;
    assert ((to - from) + d) / d == span + 1.0;
    assert n * (span + 1.0) == n * span + n;
    assert n * (span + 2.0) == n * span + 2.0 * n;
  }

  // ------------------------------------------------------------------ the bound, over histories of all clients

  function Project(ops: seq<Op>, client: string): seq<Op>
    decreases |ops|
  {
    if ops == [] then []
    else (if ops[0].client == client then [ops[0]] else []) + Project(ops[1..], client)
  }

  /** One attempt after the other: each checked, then recorded as failed. */
  function OpsOf(client: string, attempts: seq<Attempt>): seq<Op>
    decreases |attempts|
  {
    if attempts == [] then []
    else [CheckOp(client, attempts[0].checkAt), FailOp(client, attempts[0].failAt)] + OpsOf(client, attempts[1..])
  }

  /** Checks of the client that let it through. */
  function AdmittedIn(cfg: Config, m: Entries, ops: seq<Op>, client: string): nat
    decreases |ops|
  {
    if ops == [] then 0
    else
      (if ops[0].CheckOp? && ops[0].client == client && Admits(cfg, EntryOf(m, client), ops[0].at) then 1 else 0)
      + AdmittedIn(cfg, Step(cfg, m, ops[0]), ops[1..], client)
  }

  lemma StepOthers(cfg: Config, m: Entries, op: Op, client: string)
    requires op.client != client
    ensures EntryOf(Step(cfg, m, op), client) == EntryOf(m, client)
  {
    hide Check, Fail;
  }

  lemma StepOwn(cfg: Config, m: Entries, n: Entries, op: Op)
    requires EntryOf(m, op.client) == EntryOf(n, op.client)
    ensures EntryOf(Step(cfg, m, op), op.client) == EntryOf(Step(cfg, n, op), op.client)
  {
    hide Check, Fail;
  }

  /** What other clients do is invisible to a client. */
  lemma {:induction false} OthersInvisible(cfg: Config, m: Entries, n: Entries, ops: seq<Op>, client: string)
    requires EntryOf(m, client) == EntryOf(n, client)
    ensures AdmittedIn(cfg, m, ops, client) == AdmittedIn(cfg, n, Project(ops, client), client)
    decreases |ops|
  {
    hide Step, Admits;
    if ops != [] {
      var op, rest := ops[0], Project(ops[1..], client);
      if op.client == client {
        StepOwn(cfg, m, n, op);
        OthersInvisible(cfg, Step(cfg, m, op), Step(cfg, n, op), ops[1..], client);
        assert ([op] + rest)[1..] == rest;
      } else {
        StepOthers(cfg, m, op, client);
        OthersInvisible(cfg, Step(cfg, m, op), n, ops[1..], client);
        assert [] + rest == rest;
      }
    }
  }

  lemma {:induction false} ProjectOrdered(ops: seq<Op>, client: string, from: real, to: real, start: real)
    requires Ordered(ops, from, to) && start <= from
    ensures Ordered(Project(ops, client), start, to)
    decreases |ops|
  {
    if ops != [] {
      var rest := Project(ops[1..], client);
      if ops[0].client == client {
        ProjectOrdered(ops[1..], client, ops[0].at, to, ops[0].at);
        assert ([ops[0]] + rest)[1..] == rest;
      } else {
        ProjectOrdered(ops[1..], client, ops[0].at, to, start);
        assert [] + rest == rest;
      }
    }
  }

  lemma {:induction false} AttemptsSequential(client: string, attempts: seq<Attempt>, from: real, to: real)
    requires Ordered(OpsOf(client, attempts), from, to)
    ensures Sequential(attempts, from, to)
    decreases |attempts|
  {
    if attempts != [] {
      var ops, rest := OpsOf(client, attempts), OpsOf(client, attempts[1..]);
      assert ops[1..] == [FailOp(client, attempts[0].failAt)] + rest && ops[1..][1..] == rest;
      AttemptsSequential(client, attempts[1..], attempts[0].failAt, to);
    }
  }

  lemma AttemptSteps(cfg: Config, m: Entries, client: string, a: Attempt)
    requires cfg.enabled && client != ""
    ensures EntryOf(Step(cfg, Step(cfg, m, CheckOp(client, a.checkAt)), FailOp(client, a.failAt)), client)
         == Try(cfg, EntryOf(m, client), a)
  {
    hide Fail;
  }

  lemma {:induction false} AttemptsAdmitted(cfg: Config, m: Entries, client: string, attempts: seq<Attempt>)
    requires cfg.enabled && client != ""
    ensures AdmittedIn(cfg, m, OpsOf(client, attempts), client) == AdmittedFailures(cfg, EntryOf(m, client), attempts)
    decreases |attempts|
  {
    hide Step, Try, Admits;
    if attempts != [] {
      var a, ops, rest := attempts[0], OpsOf(client, attempts), OpsOf(client, attempts[1..]);
      var checked := Step(cfg, m, ops[0]);
      var failed := Step(cfg, checked, ops[1]);
      assert ops[1..] == [ops[1]] + rest && ops[1..][1..] == rest;
      assert AdmittedIn(cfg, checked, ops[1..], client) == AdmittedIn(cfg, failed, rest, client);
      AttemptSteps(cfg, m, client, a);
      AttemptsAdmitted(cfg, failed, client, attempts[1..]);
    }
  }

  lemma {:induction false} OrderedSplits(ops: seq<Op>, i: nat, from: real, to: real)
    requires Ordered(ops, from, to) && i <= |ops|
    ensures var mid := if i == 0 then from else ops[i - 1].at;
            Ordered(ops[..i], from, mid) && Ordered(ops[i..], mid, to)
    decreases i
  {
    if i == 0 {
      OrderedWithin(ops, from, to);
      assert ops[..0] == [] && ops[0..] == ops;
    } else {
      OrderedSplits(ops[1..], i - 1, ops[0].at, to);
      assert ops[..i][1..] == ops[1..][..i - 1] && ops[1..][i - 1..] == ops[i..];
    }
  }

  lemma {:induction false} OrderedWithin(ops: seq<Op>, from: real, to: real)
    requires Ordered(ops, from, to)
    ensures from <= to
    decreases |ops|
  {
    if ops != [] { OrderedWithin(ops[1..], ops[0].at, to); }
  }

  lemma SpanBound(cfg: Config, m: Entries, span: seq<Op>, client: string, attempts: seq<Attempt>, from: real, to: real)
    requires ValidConfig(cfg) && cfg.enabled && client != ""
    requires ValidOption(cfg, EntryOf(m, client), from) && Ordered(span, from, to)
    requires Project(span, client) == OpsOf(client, attempts)
    ensures AdmittedIn(cfg, m, span, client) as real
         <= cfg.maxFailures as real * ((to - from) / Spacing(cfg) as real + 2.0)
  {
    hide AdmittedIn, Project, OpsOf, Spacing, ValidOption, ValidConfig, Ordered, Sequential, EntryOf;
    ProjectOrdered(span, client, from, to, from);
    AttemptsSequential(client, attempts, from, to);
    OthersInvisible(cfg, m, m, span, client);
    AttemptsAdmitted(cfg, m, client, attempts);
    AdmittedBound(cfg, EntryOf(m, client), attempts, from, to);
  }

  lemma HistoryValid(cfg: Config, ops: seq<Op>, i: nat, client: string, from: real, to: real)
    requires ValidConfig(cfg) && Ordered(ops, from, to) && i < |ops|
    requires (if i == 0 then from else ops[i - 1].at) <= ops[i].at
    ensures ValidOption(cfg, EntryOf(RunOps(cfg, map[], ops[..i]), client), ops[i].at)
  {
    hide RunOps, ValidEntry, Ordered, ValidOption, ValidConfig;
    var mid := if i == 0 then from else ops[i - 1].at;
    OrderedSplits(ops, i, from, to);
    RunKeepsValid(cfg, map[], ops[..i], from, mid);
    ValidAt(cfg, RunOps(cfg, map[], ops[..i]), client, mid, ops[i].at);
  }

  /** In any history of all clients from an empty limiter, take the calls from the `i`-th to the `j`-th:
      if those of one client are attempts, one after the other and all failing, at most
      `maxFailures * (T / d + 2)` of them are let through, T the time from the first call to the last. */
  lemma HistoryBound(cfg: Config, ops: seq<Op>, i: nat, j: nat, client: string, attempts: seq<Attempt>, from: real, to: real)
    requires ValidConfig(cfg) && cfg.enabled && client != "" && Ordered(ops, from, to) && i <= j < |ops|
    requires Project(ops[i..j + 1], client) == OpsOf(client, attempts)
    ensures AdmittedIn(cfg, RunOps(cfg, map[], ops[..i]), ops[i..j + 1], client) as real
         <= cfg.maxFailures as real * ((ops[j].at - ops[i].at) / Spacing(cfg) as real + 2.0)
  {
    hide AdmittedIn, RunOps, Project, OpsOf, Spacing, ValidOption, ValidConfig, Ordered;
    SpanOrdered(ops, i, j, from, to);
    HistoryValid(cfg, ops, i, client, from, to);
    SpanBound(cfg, RunOps(cfg, map[], ops[..i]), ops[i..j + 1], client, attempts, ops[i].at, ops[j].at);
  }

  lemma ValidAt(cfg: Config, m: Entries, client: string, before: real, now: real)
    requires AllValid(cfg, m, before) && before <= now
    ensures ValidOption(cfg, EntryOf(m, client), now)
  {
    hide ValidEntry;
    if client in m { ValidLater(cfg, m[client], before, now); }
  }

  lemma SpanOrdered(ops: seq<Op>, i: nat, j: nat, from: real, to: real)
    requires Ordered(ops, from, to) && i <= j < |ops|
    ensures Ordered(ops[i..j + 1], ops[i].at, ops[j].at)
    ensures (if i == 0 then from else ops[i - 1].at) <= ops[i].at
  {
    OrderedSplits(ops, j + 1, from, to);
    var head := ops[..j + 1];
    OrderedSplits(head, i, from, ops[j].at);
    assert head[i..] == ops[i..j + 1] && ops[i..j + 1][0] == ops[i];
    assert i > 0 ==> head[i - 1] == ops[i - 1];
  }
}
