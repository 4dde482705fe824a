/** Stable sorting by a total preorder, and what it takes for the bytes emitted in sorted order not to
    depend on the order of the input. */
module SortedEmission {
  type Bytes = seq<nat>

  ghost predicate TotalPreorder<T(!new)>(le: (T, T) -> bool) {
    && (forall a, b :: le(a, b) || le(b, a))
    && (forall a, b, c :: le(a, b) && le(b, c) ==> le(a, c))
  }

  predicate Tied<T>(le: (T, T) -> bool, a: T, b: T) {
    le(a, b) && le(b, a)
  }

  /** Compare by `first`, and by `second` where `first` ties: `Ordering::then_with`. */
  function Then<T>(first: (T, T) -> bool, second: (T, T) -> bool): (T, T) -> bool {
    (a, b) => first(a, b) && (first(b, a) ==> second(a, b))
  }

  lemma ThenPreorder<T(!new)>(first: (T, T) -> bool, second: (T, T) -> bool)
    requires TotalPreorder(first) && TotalPreorder(second)
    ensures TotalPreorder(Then(first, second))
    ensures forall a, b :: Tied(Then(first, second), a, b) <==> Tied(first, a, b) && Tied(second, a, b)
  {
    var le := Then(first, second);
    forall a, b, c | le(a, b) && le(b, c) ensures le(a, c) {
      assert first(a, c);
      if first(c, a) {
        assert first(c, b) && first(b, a);
      }
    }
  }

  // ------------------------------------------------------------------ stable insertion sort

  predicate Sorted<T>(le: (T, T) -> bool, s: seq<T>) {
    forall i, j :: 0 <= i < j < |s| ==> le(s[i], s[j])
  }

  /** `x` goes after everything it is not strictly below. */
  function Insert<T>(le: (T, T) -> bool, s: seq<T>, x: T): seq<T> {
    if s == [] then [x]
    else if le(s[|s| - 1], x) then s + [x]
    else Insert(le, s[..|s| - 1], x) + [s[|s| - 1]]
  }

  function Sort<T>(le: (T, T) -> bool, s: seq<T>): seq<T> {
    if s == [] then [] else Insert(le, Sort(le, s[..|s| - 1]), s[|s| - 1])
  }

  lemma LastSplit<T>(s: seq<T>)
    requires s != []
    ensures multiset(s) == multiset(s[..|s| - 1]) + multiset{s[|s| - 1]}
  {
    assert s == s[..|s| - 1] + [s[|s| - 1]];
  }

  lemma {:induction false} InsertContents<T>(le: (T, T) -> bool, s: seq<T>, x: T)
    ensures multiset(Insert(le, s, x)) == multiset(s) + multiset{x}
    decreases |s|
  {
    if s != [] && !le(s[|s| - 1], x) {
      InsertContents(le, s[..|s| - 1], x);
      LastSplit(s);
    }
  }

  lemma {:induction false} InsertSorted<T(!new)>(le: (T, T) -> bool, s: seq<T>, x: T)
    requires TotalPreorder(le) && Sorted(le, s)
    ensures Sorted(le, Insert(le, s, x))
    decreases |s|
  {
    if s != [] {
      var front, last := s[..|s| - 1], s[|s| - 1];
      if le(last, x) {
        assert forall i :: 0 <= i < |s| - 1 ==> le(s[i], last) && le(s[i], x);
      } else {
        InsertSorted(le, front, x);
        InsertContents(le, front, x);
        var r := Insert(le, front, x);
        forall i | 0 <= i < |r| ensures le(r[i], last) {
          assert r[i] in multiset(r);
          assert r[i] == x || r[i] in multiset(front);
        }
      }
    }
  }

  lemma {:induction false} SortCorrect<T(!new)>(le: (T, T) -> bool, s: seq<T>)
    requires TotalPreorder(le)
    ensures Sorted(le, Sort(le, s)) && multiset(Sort(le, s)) == multiset(s)
    decreases |s|
  {
    if s != [] {
      var front, last := s[..|s| - 1], s[|s| - 1];
      SortCorrect(le, front);
      InsertSorted(le, Sort(le, front), last);
      InsertContents(le, Sort(le, front), last);
      LastSplit(s);
    }
  }

  /** Sorting is stable: a sorted sequence stays as it is. */
  lemma {:induction false} SortStable<T>(le: (T, T) -> bool, s: seq<T>)
    requires Sorted(le, s)
    ensures Sort(le, s) == s
    decreases |s|
  {
    if s != [] {
      SortStable(le, s[..|s| - 1]);
      assert s == s[..|s| - 1] + [s[|s| - 1]];
    }
  }

  // ------------------------------------------------------------------ emission

  function Emit<T>(f: T -> Bytes, s: seq<T>): Bytes {
    if s == [] then [] else f(s[0]) + Emit(f, s[1..])
  }

  predicate Commute<T>(f: T -> Bytes, a: T, b: T) {
    f(a) + f(b) == f(b) + f(a)
  }

  /** Any two items that tie in the sort can be emitted in either order. */
  ghost predicate TiesCommute<T(!new)>(le: (T, T) -> bool, f: T -> Bytes, s: seq<T>) {
    forall a, b :: a in s && b in s && Tied(le, a, b) ==> Commute(f, a, b)
  }

  ghost predicate OrderIndependent<T(!new)>(le: (T, T) -> bool, f: T -> Bytes, s: seq<T>) {
    forall t :: multiset(t) == multiset(s) ==> Emit(f, Sort(le, t)) == Emit(f, Sort(le, s))
  }

  lemma {:induction false} EmitAppend<T>(f: T -> Bytes, s: seq<T>, t: seq<T>)
    ensures Emit(f, s + t) == Emit(f, s) + Emit(f, t)
  {
    if s == [] {
      assert s + t == t;
    } else {
      EmitAppend(f, s[1..], t);
      assert (s + t)[1..] == s[1..] + t;
    }
  }

  lemma {:induction false} EmitToFront<T>(f: T -> Bytes, s: seq<T>, x: T)
    requires forall i :: 0 <= i < |s| ==> Commute(f, s[i], x)
    ensures Emit(f, s) + f(x) == f(x) + Emit(f, s)
  {
    if s != [] {
      EmitToFront(f, s[1..], x);
      var a, rest := f(s[0]), Emit(f, s[1..]);
      calc {
        (a + rest) + f(x);
        a + (rest + f(x));
        a + (f(x) + rest);
        (a + f(x)) + rest;
        { assert Commute(f, s[0], x); }
        (f(x) + a) + rest;
        f(x) + (a + rest);
      }
    }
  }

  lemma RemoveAt<T>(s: seq<T>, j: nat)
    requires j < |s|
    ensures multiset(s[..j] + s[j + 1..]) == multiset(s) - multiset{s[j]}
  {
    assert s == s[..j] + [s[j]] + s[j + 1..];
  }

  lemma RemoveKeepsSorted<T>(le: (T, T) -> bool, s: seq<T>, j: nat)
    requires Sorted(le, s) && j < |s|
    ensures Sorted(le, s[..j] + s[j + 1..])
  {
    var r := s[..j] + s[j + 1..];
    assert forall i :: 0 <= i < |r| ==> r[i] == if i < j then s[i] else s[i + 1];
  }

  lemma EmitOne<T>(f: T -> Bytes, x: T, rest: seq<T>)
    ensures Emit(f, [x] + rest) == f(x) + Emit(f, rest)
  {
    assert ([x] + rest)[1..] == rest;
  }

  lemma Rotate(p: Bytes, x: Bytes, q: Bytes)
    requires p + x == x + p
    ensures p + (x + q) == x + (p + q)
  {
    assert p + (x + q) == (p + x) + q;
    assert (x + p) + q == x + (p + q);
  }

  lemma EmitPull<T>(f: T -> Bytes, pre: seq<T>, x: T, post: seq<T>)
    requires forall i :: 0 <= i < |pre| ==> Commute(f, pre[i], x)
    ensures Emit(f, pre + ([x] + post)) == f(x) + Emit(f, pre + post)
  {
    hide Emit;
    EmitToFront(f, pre, x);
    EmitAppend(f, pre, post);
    EmitAppend(f, pre, [x] + post);
    EmitOne(f, x, post);
    Rotate(Emit(f, pre), f(x), Emit(f, post));
  }

  /** In a sorted arrangement of the same items, the head of another can be emitted first. */
  lemma PullHead<T(!new)>(le: (T, T) -> bool, f: T -> Bytes, s: seq<T>, t: seq<T>) returns (rest: seq<T>)
    requires Sorted(le, s) && Sorted(le, t) && multiset(s) == multiset(t) && TiesCommute(le, f, s)
    requires s != [] && forall a, b :: le(a, b) || le(b, a)
    ensures Sorted(le, rest) && multiset(rest) == multiset(t) - multiset{s[0]}
    ensures Emit(f, t) == f(s[0]) + Emit(f, rest)
  {
    hide Emit;
    assert s[0] in multiset(t);
    var j :| 0 <= j < |t| && t[j] == s[0];
    var pre, post := t[..j], t[j + 1..];
    forall i | 0 <= i < |pre| ensures Commute(f, pre[i], s[0]) {
      assert pre[i] in multiset(s);
      HeadIsLeast(le, s, pre[i]);
      assert le(t[i], t[j]);
    }
    EmitPull(f, pre, s[0], post);
    assert t == pre + ([s[0]] + post);
    RemoveAt(t, j);
    RemoveKeepsSorted(le, t, j);
    rest := pre + post;
  }

  lemma TailFacts<T(!new)>(le: (T, T) -> bool, f: T -> Bytes, s: seq<T>)
    requires s != [] && Sorted(le, s) && TiesCommute(le, f, s)
    ensures Sorted(le, s[1..]) && TiesCommute(le, f, s[1..])
    ensures multiset(s[1..]) == multiset(s) - multiset{s[0]}
  {
    assert s == [s[0]] + s[1..];
  }

  /** Two sorted arrangements of the same items emit the same bytes if ties commute. */
  lemma {:induction false} SameEmission<T(!new)>(le: (T, T) -> bool, f: T -> Bytes, s: seq<T>, t: seq<T>)
    requires Sorted(le, s) && Sorted(le, t) && multiset(s) == multiset(t) && TiesCommute(le, f, s)
    requires forall a, b :: le(a, b) || le(b, a)
    ensures Emit(f, s) == Emit(f, t)
    decreases |s|
  {
    if s == [] {
      assert |multiset(t)| == |t| == |multiset(s)|;
    } else {
      hide Sorted, TiesCommute;
      var rest := PullHead(le, f, s, t);
      TailFacts(le, f, s);
      SameEmission(le, f, s[1..], rest);
    }
  }

  lemma HeadIsLeast<T(!new)>(le: (T, T) -> bool, s: seq<T>, x: T)
    requires Sorted(le, s) && x in s && forall a, b :: le(a, b) || le(b, a)
    ensures le(s[0], x)
  {
    var i :| 0 <= i < |s| && s[i] == x;
    assert i == 0 ==> le(s[0], s[0]);
  }

  // ------------------------------------------------------------------ the converse

  /** How many leading items of `s` are strictly below `x`. */
  function Below<T>(le: (T, T) -> bool, s: seq<T>, x: T): (n: nat)
    ensures n <= |s|
  {
    if s == [] || le(x, s[0]) then 0 else 1 + Below(le, s[1..], x)
  }

  lemma {:induction false} BelowSplits<T(!new)>(le: (T, T) -> bool, s: seq<T>, x: T)
    requires TotalPreorder(le) && Sorted(le, s)
    ensures var n := Below(le, s, x);
            && (forall i :: 0 <= i < n ==> le(s[i], x))
            && (forall i :: n <= i < |s| ==> le(x, s[i]))
  {
    if s != [] && !le(x, s[0]) {
      BelowSplits(le, s[1..], x);
      assert forall i :: 0 < i < |s| ==> s[i] == s[1..][i - 1];
    } else if s != [] {
      forall i | 0 <= i < |s| ensures le(x, s[i]) {
        assert i > 0 ==> le(s[0], s[i]);
      }
    }
  }

  lemma InsertPairSorted<T(!new)>(le: (T, T) -> bool, s: seq<T>, n: nat, a: T, b: T)
    requires TotalPreorder(le) && Sorted(le, s) && n <= |s| && Tied(le, a, b)
    requires forall i :: 0 <= i < n ==> le(s[i], a)
    requires forall i :: n <= i < |s| ==> le(a, s[i])
    ensures Sorted(le, s[..n] + [a, b] + s[n..])
    ensures multiset(s[..n] + [a, b] + s[n..]) == multiset(s) + multiset{a, b}
  {
    var r := s[..n] + [a, b] + s[n..];
    assert s == s[..n] + s[n..];
    forall i, j | 0 <= i < j < |r| ensures le(r[i], r[j]) {
      assert i < n ==> le(s[i], a) && le(s[i], b);
      assert j >= n + 2 ==> le(a, s[j - 2]) && le(b, s[j - 2]);
    }
  }

  lemma EmitPair<T>(f: T -> Bytes, pre: seq<T>, a: T, b: T, post: seq<T>)
    ensures Emit(f, pre + [a, b] + post) == Emit(f, pre) + (f(a) + f(b)) + Emit(f, post)
  {
    EmitAppend(f, pre + [a, b], post);
    EmitAppend(f, pre, [a, b]);
    assert [a, b][1..] == [b] && [b][1..] == [];
    assert Emit(f, [b]) == f(b) + [] == f(b);
    assert Emit(f, [a, b]) == f(a) + f(b);
  }

  lemma CancelAround(p: Bytes, x: Bytes, y: Bytes, q: Bytes)
    requires p + x + q == p + y + q
    ensures x == y
  {
    var l, r := p + x + q, p + y + q;
    assert |x| == |y|;
    assert x == l[|p|..|p| + |x|] && y == r[|p|..|p| + |y|];
  }

  /** Two tied items that do not commute can be put next to each other in either order, and both
      arrangements are sorted: the bytes depend on the input order. */
  lemma OrderMatters<T(!new)>(le: (T, T) -> bool, f: T -> Bytes, s: seq<T>, i: nat, j: nat)
    requires TotalPreorder(le) && i < j < |s| && Tied(le, s[i], s[j]) && !Commute(f, s[i], s[j])
    ensures !OrderIndependent(le, f, s)
  {
    var a, b := s[i], s[j];
    var others := s[..i] + s[i + 1..j] + s[j + 1..];
    assert s == s[..i] + [a] + s[i + 1..j] + [b] + s[j + 1..];
    assert multiset(s) == multiset(others) + multiset{a, b};
    var r := Sort(le, others);
    SortCorrect(le, others);
    var n := Below(le, r, a);
    BelowSplits(le, r, a);
    var ab, ba := r[..n] + [a, b] + r[n..], r[..n] + [b, a] + r[n..];
    InsertPairSorted(le, r, n, a, b);
    SwapPair(le, r, n, a, b);
    SortStable(le, ab);
    SortStable(le, ba);
    EmitPair(f, r[..n], a, b, r[n..]);
    EmitPair(f, r[..n], b, a, r[n..]);
    if Emit(f, ab) == Emit(f, ba) {
      CancelAround(Emit(f, r[..n]), f(a) + f(b), f(b) + f(a), Emit(f, r[n..]));
    }
    assert multiset(ab) == multiset(s) && multiset(ba) == multiset(s);
  }

  lemma SwapPair<T(!new)>(le: (T, T) -> bool, s: seq<T>, n: nat, a: T, b: T)
    requires TotalPreorder(le) && Sorted(le, s) && n <= |s| && Tied(le, a, b)
    requires forall i :: 0 <= i < n ==> le(s[i], a)
    requires forall i :: n <= i < |s| ==> le(a, s[i])
    ensures Sorted(le, s[..n] + [b, a] + s[n..])
    ensures multiset(s[..n] + [b, a] + s[n..]) == multiset(s) + multiset{a, b}
  {
    forall i | 0 <= i < n ensures le(s[i], b) {
      assert le(s[i], a);
    }
    forall i | n <= i < |s| ensures le(b, s[i]) {
      assert le(a, s[i]);
    }
    InsertPairSorted(le, s, n, b, a);
  }

  /** The emitted bytes are independent of the input order exactly when ties commute. */
  lemma OrderIndependentIff<T(!new)>(le: (T, T) -> bool, f: T -> Bytes, s: seq<T>)
    requires TotalPreorder(le)
    ensures OrderIndependent(le, f, s) <==> TiesCommute(le, f, s)
  {
    if TiesCommute(le, f, s) {
      forall t | multiset(t) == multiset(s) ensures Emit(f, Sort(le, t)) == Emit(f, Sort(le, s)) {
        SameItemsSameBytes(le, f, s, t);
      }
    } else {
      var a, b :| a in s && b in s && Tied(le, a, b) && !Commute(f, a, b);
      var i :| 0 <= i < |s| && s[i] == a;
      var j :| 0 <= j < |s| && s[j] == b;
      assert i != j;
      if i < j {
        OrderMatters(le, f, s, i, j);
      } else {
        OrderMatters(le, f, s, j, i);
      }
    }
  }

  lemma SameItemsSameBytes<T(!new)>(le: (T, T) -> bool, f: T -> Bytes, s: seq<T>, t: seq<T>)
    requires TotalPreorder(le) && TiesCommute(le, f, s) && multiset(t) == multiset(s)
    ensures Emit(f, Sort(le, t)) == Emit(f, Sort(le, s))
  {
    SortCorrect(le, s);
    SortCorrect(le, t);
    var sorted := Sort(le, s);
    forall a, b | a in sorted && b in sorted && Tied(le, a, b) ensures Commute(f, a, b) {
      assert a in multiset(sorted) && b in multiset(sorted);
    }
    SameEmission(le, f, sorted, Sort(le, t));
  }
}

/** `compute_payload_hash`: the bytes fed to the hasher. */
module PayloadHash {
  import opened Wrappers
  import opened SortedEmission

  /** Strings are their UTF-8 bytes, and an f64 is its 64-bit pattern. */
  datatype MetricPayload = MetricPayload(name: Bytes, value: nat, step: int)
  datatype PairPayload = PairPayload(name: Bytes, value: Bytes)
  datatype EventPayload = EventPayload(
    level: Bytes,
    source: Bytes,
    message: Bytes,
    step: Option<int>,
    timestamp: Option<nat>)

  // ------------------------------------------------------------------ byte encodings

  /** The `k` low bytes of `n`, lowest first. */
  function LowBytes(n: nat, k: nat): (bytes: Bytes)
    ensures |bytes| == k
  {
    if k == 0 then [] else [n % 256] + LowBytes(n / 256, k - 1)
  }

  /** `i64::to_le_bytes`: two's complement. */
  function I64Bytes(n: int): (bytes: Bytes)
    ensures |bytes| == 8
  {
    LowBytes(n % 0x1_0000_0000_0000_0000, 8)
  }

  function F64Bytes(bits: nat): (bytes: Bytes)
    ensures |bytes| == 8
  {
    LowBytes(bits, 8)
  }

  function MetricBytes(m: MetricPayload): Bytes {
    m.name + I64Bytes(m.step) + F64Bytes(m.value)
  }

  function PairBytes(p: PairPayload): Bytes {
    p.name + p.value
  }

  /** A missing step or timestamp is hashed as zero. */
  function EventBytes(e: EventPayload): Bytes {
    e.level + e.source + e.message
    + I64Bytes(if e.step.Some? then e.step.value else 0)
    + F64Bytes(TimestampBits(e))
  }

  function TimestampBits(e: EventPayload): nat {
    if e.timestamp.Some? then e.timestamp.value else 0
  }

  // ------------------------------------------------------------------ sort orders

  predicate BytesLe(a: Bytes, b: Bytes) {
    a == [] || (b != [] && (a[0] < b[0] || (a[0] == b[0] && BytesLe(a[1..], b[1..]))))
  }

  lemma {:induction false} BytesLeTotal(a: Bytes, b: Bytes)
    ensures BytesLe(a, b) || BytesLe(b, a)
    ensures BytesLe(a, b) && BytesLe(b, a) ==> a == b
  {
    if a != [] && b != [] && a[0] == b[0] {
      BytesLeTotal(a[1..], b[1..]);
      assert a == [a[0]] + a[1..] && b == [b[0]] + b[1..];
    }
  }

  lemma {:induction false} BytesLeTransitive(a: Bytes, b: Bytes, c: Bytes)
    requires BytesLe(a, b) && BytesLe(b, c)
    ensures BytesLe(a, c)
  {
    if a != [] && a[0] == b[0] == c[0] {
      BytesLeTransitive(a[1..], b[1..], c[1..]);
    }
  }

  function ByBytes<T>(key: T -> Bytes): (T, T) -> bool {
    (a, b) => BytesLe(key(a), key(b))
  }

  function ByInt<T>(key: T -> int): (T, T) -> bool {
    (a, b) => key(a) <= key(b)
  }

  lemma ByBytesPreorder<T(!new)>(key: T -> Bytes)
    ensures TotalPreorder(ByBytes(key))
    ensures forall a, b :: Tied(ByBytes(key), a, b) <==> key(a) == key(b)
  {
    var le := ByBytes(key);
    forall a, b ensures le(a, b) || le(b, a) ensures Tied(le, a, b) <==> key(a) == key(b) {
      BytesLeTotal(key(a), key(b));
    }
    forall a, b, c | le(a, b) && le(b, c) ensures le(a, c) {
      BytesLeTransitive(key(a), key(b), key(c));
    }
  }

  lemma ByIntPreorder<T(!new)>(key: T -> int)
    ensures TotalPreorder(ByInt(key))
    ensures forall a, b :: Tied(ByInt(key), a, b) <==> key(a) == key(b)
  {
  }

  function MetricLe(): (MetricPayload, MetricPayload) -> bool {
    Then(ByBytes((m: MetricPayload) => m.name), ByInt((m: MetricPayload) => m.step))
  }

  function PairLe(): (PairPayload, PairPayload) -> bool {
    ByBytes((p: PairPayload) => p.name)
  }

  /** `Option` orders `None` before every `Some`. */
  function StepLe(): (EventPayload, EventPayload) -> bool {
    (a: EventPayload, b: EventPayload) => a.step.None? || (b.step.Some? && a.step.value <= b.step.value)
  }

  function EventLe(): (EventPayload, EventPayload) -> bool {
    Then(StepLe(),
         Then(ByBytes((e: EventPayload) => e.level),
              Then(ByBytes((e: EventPayload) => e.source),
                   Then(ByBytes((e: EventPayload) => e.message), ByInt((e: EventPayload) => TimestampBits(e))))))
  }

  lemma MetricLePreorder()
    ensures TotalPreorder(MetricLe())
    ensures forall a, b :: Tied(MetricLe(), a, b) <==> a.name == b.name && a.step == b.step
  {
    ByBytesPreorder((m: MetricPayload) => m.name);
    ByIntPreorder((m: MetricPayload) => m.step);
    ThenPreorder(ByBytes((m: MetricPayload) => m.name), ByInt((m: MetricPayload) => m.step));
  }

  lemma PairLePreorder()
    ensures TotalPreorder(PairLe())
    ensures forall a, b :: Tied(PairLe(), a, b) <==> a.name == b.name
  {
    ByBytesPreorder((p: PairPayload) => p.name);
  }

  lemma EventLePreorder()
    ensures TotalPreorder(EventLe())
    ensures forall a, b :: Tied(EventLe(), a, b) ==>
              a.step == b.step && a.level == b.level && a.source == b.source && a.message == b.message
              && TimestampBits(a) == TimestampBits(b)
  {
    var level := ByBytes((e: EventPayload) => e.level);
    var source := ByBytes((e: EventPayload) => e.source);
    var message := ByBytes((e: EventPayload) => e.message);
    var bits := ByInt((e: EventPayload) => TimestampBits(e));
    ByBytesPreorder((e: EventPayload) => e.level);
    ByBytesPreorder((e: EventPayload) => e.source);
    ByBytesPreorder((e: EventPayload) => e.message);
    ByIntPreorder((e: EventPayload) => TimestampBits(e));
    assert TotalPreorder(StepLe());
    ThenPreorder(message, bits);
    ThenPreorder(source, Then(message, bits));
    ThenPreorder(level, Then(source, Then(message, bits)));
    ThenPreorder(StepLe(), Then(level, Then(source, Then(message, bits))));
  }

  // ------------------------------------------------------------------ the hashed bytes

  function Preimage(metrics: seq<MetricPayload>, params: seq<PairPayload>, tags: seq<PairPayload>, events: seq<EventPayload>)
    : Bytes
  {
    Emit(MetricBytes, Sort(MetricLe(), metrics))
    + Emit(PairBytes, Sort(PairLe(), params))
    + Emit(PairBytes, Sort(PairLe(), tags))
    + Emit(EventBytes, Sort(EventLe(), events))
  }

  /** One of the four loops that feed the hasher. */
  method Feed<T>(bytes: T -> Bytes, items: seq<T>, hashed: Bytes) returns (fed: Bytes)
    ensures fed == hashed + Emit(bytes, items)
  {
    fed := hashed;
    var i := 0;
    while i < |items|
      invariant 0 <= i <= |items|
      invariant fed + Emit(bytes, items[i..]) == hashed + Emit(bytes, items)
    {
      assert items[i..][1..] == items[i + 1..];
      assert fed + (bytes(items[i]) + Emit(bytes, items[i + 1..])) == (fed + bytes(items[i])) + Emit(bytes, items[i + 1..]);
      fed := fed + bytes(items[i]);
      i := i + 1;
    }
    assert fed + [] == fed;
  }

  /** `compute_payload_hash`, with the digest as a parameter. */
  method ComputePayloadHash(
    sha256: Bytes -> Bytes,
    metrics: seq<MetricPayload>,
    params: seq<PairPayload>,
    tags: seq<PairPayload>,
    events: seq<EventPayload>)
    returns (hash: Bytes)
    ensures hash == sha256(Preimage(metrics, params, tags, events))
  {
    hide Sort, Emit, MetricLe, PairLe, EventLe;
    var fed := Feed(MetricBytes, Sort(MetricLe(), metrics), []);
    fed := Feed(PairBytes, Sort(PairLe(), params), fed);
    fed := Feed(PairBytes, Sort(PairLe(), tags), fed);
    fed := Feed(EventBytes, Sort(EventLe(), events), fed);
    assert fed == Preimage(metrics, params, tags, events);
    hash := sha256(fed);
  }

  // ------------------------------------------------------------------ order independence

  lemma {:induction false} LowBytesInjective(a: nat, b: nat, k: nat)
    requires LowBytes(a, k) == LowBytes(b, k) && a < Pow256(k) && b < Pow256(k)
    ensures a == b
    decreases k
  {
    if k > 0 {
      var x, y := LowBytes(a, k), LowBytes(b, k);
      assert x[0] == y[0] && x[1..] == y[1..];
      LowBytesInjective(a / 256, b / 256, k - 1);
    }
  }

  function Pow256(k: nat): nat {
    if k == 0 then 1 else 256 * Pow256(k - 1)
  }

  predicate IsF64(bits: nat) {
    bits < Pow256(8)
  }

  lemma EqualLengthCommute(a: Bytes, b: Bytes)
    requires |a| == |b|
    ensures a + b == b + a <==> a == b
  {
    if a + b == b + a {
      assert a == (a + b)[..|a|] && b == (b + a)[..|b|];
    }
  }

  lemma TiedMetricsCommute(a: MetricPayload, b: MetricPayload)
    requires a.name == b.name && a.step == b.step && IsF64(a.value) && IsF64(b.value)
    ensures Commute(MetricBytes, a, b) <==> a.value == b.value
  {
    var x, y := MetricBytes(a), MetricBytes(b);
    EqualLengthCommute(x, y);
    if x == y {
      var n := |a.name| + 8;
      assert F64Bytes(a.value) == x[n..] && F64Bytes(b.value) == y[n..];
      LowBytesInjective(a.value, b.value, 8);
    }
  }

  /** Permuting events never changes the hashed bytes: events that tie emit identical bytes. */
  lemma EventsOrderIndependent(events: seq<EventPayload>)
    ensures OrderIndependent(EventLe(), EventBytes, events)
  {
    hide EventLe;
    EventLePreorder();
    OrderIndependentIff(EventLe(), EventBytes, events);
  }

  /** Permuting metrics never changes the hashed bytes exactly when no (name, step) carries two
      different values. */
  lemma MetricsOrderIndependentIff(metrics: seq<MetricPayload>)
    requires forall m :: m in metrics ==> IsF64(m.value)
    ensures OrderIndependent(MetricLe(), MetricBytes, metrics) <==>
            forall a, b :: a in metrics && b in metrics && a.name == b.name && a.step == b.step ==> a.value == b.value
  {
    hide MetricLe, MetricBytes, IsF64;
    MetricLePreorder();
    OrderIndependentIff(MetricLe(), MetricBytes, metrics);
    forall a, b | a in metrics && b in metrics && Tied(MetricLe(), a, b)
      ensures Commute(MetricBytes, a, b) <==> a.value == b.value
    {
      TiedMetricsCommute(a, b);
    }
    if OrderIndependent(MetricLe(), MetricBytes, metrics) {
      forall a, b | a in metrics && b in metrics && a.name == b.name && a.step == b.step ensures a.value == b.value {
        assert Tied(MetricLe(), a, b);
      }
    }
  }

  /** Permuting params, or tags, never changes the hashed bytes exactly when any two of the same name give
      the same bytes in either order. */
  lemma PairsOrderIndependentIff(pairs: seq<PairPayload>)
    ensures OrderIndependent(PairLe(), PairBytes, pairs) <==>
            forall a, b :: a in pairs && b in pairs && a.name == b.name ==> Commute(PairBytes, a, b)
  {
    hide PairLe, PairBytes;
    PairLePreorder();
    OrderIndependentIff(PairLe(), PairBytes, pairs);
    if OrderIndependent(PairLe(), PairBytes, pairs) {
      forall a, b | a in pairs && b in pairs && a.name == b.name ensures Commute(PairBytes, a, b) {
        assert Tied(PairLe(), a, b);
      }
    }
  }

  /** For values of one length, commuting is being equal. */
  lemma TiedPairsCommute(a: PairPayload, b: PairPayload)
    requires a.name == b.name && |a.value| == |b.value|
    ensures Commute(PairBytes, a, b) <==> a == b
  {
    EqualLengthCommute(PairBytes(a), PairBytes(b));
    if PairBytes(a) == PairBytes(b) {
      assert a.value == PairBytes(a)[|a.name|..] && b.value == PairBytes(b)[|b.name|..];
    }
  }

  ghost predicate MetricsAgree(metrics: seq<MetricPayload>) {
    && (forall m :: m in metrics ==> IsF64(m.value))
    && (forall a, b :: a in metrics && b in metrics && a.name == b.name && a.step == b.step ==> a.value == b.value)
  }

  ghost predicate PairsCommute(pairs: seq<PairPayload>) {
    forall a, b :: a in pairs && b in pairs && a.name == b.name ==> Commute(PairBytes, a, b)
  }

  /** A payload resubmitted in another order hashes to the same bytes. */
  lemma PreimageOrderIndependent(
    metrics: seq<MetricPayload>, params: seq<PairPayload>, tags: seq<PairPayload>, events: seq<EventPayload>,
    metrics': seq<MetricPayload>, params': seq<PairPayload>, tags': seq<PairPayload>, events': seq<EventPayload>)
    requires multiset(metrics') == multiset(metrics) && multiset(params') == multiset(params)
    requires multiset(tags') == multiset(tags) && multiset(events') == multiset(events)
    requires MetricsAgree(metrics) && PairsCommute(params) && PairsCommute(tags)
    ensures Preimage(metrics', params', tags', events') == Preimage(metrics, params, tags, events)
  {
    MetricsOrderIndependentIff(metrics);
    PairsOrderIndependentIff(params);
    PairsOrderIndependentIff(tags);
    EventsOrderIndependent(events);
    hide MetricLe, PairLe, EventLe, MetricsAgree, PairsCommute;
  }

  /** The bytes carry no length prefixes, so different payloads can share them. */
  lemma PreimageCollides()
    ensures Preimage([], [PairPayload([97, 98], [99])], [], []) == Preimage([], [PairPayload([97], [98, 99])], [], [])
  {
    SortOne(PairPayload([97, 98], [99]));
    SortOne(PairPayload([97], [98, 99]));
  }

  lemma SortOne(p: PairPayload)
    ensures Emit(PairBytes, Sort(PairLe(), [p])) == p.name + p.value
  {
    assert [p][..0] == [] && [p][1..] == [];
    assert Sort(PairLe(), [p]) == [p];
    EmitOne(PairBytes, p, []);
    assert [p] + [] == [p];
    assert Emit(PairBytes, []) == [];
  }

  // ------------------------------------------------------------------ when equal bytes mean equal content

  lemma SplitEqual(a: Bytes, b: Bytes, a': Bytes, b': Bytes)
    requires |a| == |a'|
    ensures a + b == a' + b' <==> a == a' && b == b'
  {
    if a + b == a' + b' {
      assert a == (a + b)[..|a|] && a' == (a' + b')[..|a'|];
      assert b == (a + b)[|a|..] && b' == (a' + b')[|a'|..];
    }
  }

  /** Items that emit as many bytes position by position emit the same bytes only item by item. */
  lemma {:induction false} EmitInjective<T>(f: T -> Bytes, s: seq<T>, t: seq<T>)
    requires |s| == |t| && forall i :: 0 <= i < |s| ==> |f(s[i])| == |f(t[i])|
    ensures |Emit(f, s)| == |Emit(f, t)|
    ensures Emit(f, s) == Emit(f, t) <==> forall i :: 0 <= i < |s| ==> f(s[i]) == f(t[i])
    decreases |s|
  {
    if s != [] {
      EmitInjective(f, s[1..], t[1..]);
      SplitEqual(f(s[0]), Emit(f, s[1..]), f(t[0]), Emit(f, t[1..]));
      assert (forall i :: 0 <= i < |s| ==> f(s[i]) == f(t[i])) <==>
             f(s[0]) == f(t[0]) && (forall i :: 0 <= i < |s| - 1 ==> f(s[1..][i]) == f(t[1..][i])) by {
        assert forall i :: 0 <= i < |s| - 1 ==> s[1..][i] == s[i + 1] && t[1..][i] == t[i + 1];
        assert forall i :: 0 < i < |s| ==> s[i] == s[1..][i - 1] && t[i] == t[1..][i - 1];
      }
    }
  }

  predicate IsI64(n: int) {
    -0x8000_0000_0000_0000 <= n < 0x8000_0000_0000_0000
  }

  lemma Pow256Of8()
    ensures Pow256(8) == 0x1_0000_0000_0000_0000
  {
    assert Pow256(2) == 0x1_0000;
    assert Pow256(4) == 0x1_0000 * Pow256(2);
    assert Pow256(6) == 0x1_0000 * Pow256(4);
  }

  function Wrapped(n: int): nat
    requires IsI64(n)
  {
    if n >= 0 then n else n + 0x1_0000_0000_0000_0000
  }

  lemma WrappedIs(n: int)
    requires IsI64(n)
    ensures I64Bytes(n) == LowBytes(Wrapped(n), 8) && Wrapped(n) < 0x1_0000_0000_0000_0000
  {
    hide LowBytes;
  }

  lemma I64Injective(a: int, b: int)
    requires IsI64(a) && IsI64(b)
    ensures I64Bytes(a) == I64Bytes(b) <==> a == b
  {
    hide I64Bytes, LowBytes, Pow256;
    WrappedIs(a);
    WrappedIs(b);
    Pow256Of8();
    if I64Bytes(a) == I64Bytes(b) { LowBytesInjective(Wrapped(a), Wrapped(b), 8); }
  }

  lemma F64Injective(a: nat, b: nat)
    requires IsF64(a) && IsF64(b)
    ensures F64Bytes(a) == F64Bytes(b) <==> a == b
  {
    if F64Bytes(a) == F64Bytes(b) { LowBytesInjective(a, b, 8); }
  }

  /** Everything that is hashed. */
  datatype Content = Content(metrics: seq<MetricPayload>, params: seq<PairPayload>, tags: seq<PairPayload>, events: seq<EventPayload>)

  function BytesOf(c: Content): Bytes {
    Preimage(c.metrics, c.params, c.tags, c.events)
  }

  predicate MetricInRange(m: MetricPayload) {
    IsI64(m.step) && IsF64(m.value)
  }

  function StepOf(e: EventPayload): int {
    if e.step.Some? then e.step.value else 0
  }

  predicate EventInRange(e: EventPayload) {
    IsI64(StepOf(e)) && IsF64(TimestampBits(e))
  }

  lemma MetricBytesInjective(a: MetricPayload, b: MetricPayload)
    requires |a.name| == |b.name| && MetricInRange(a) && MetricInRange(b)
    ensures |MetricBytes(a)| == |MetricBytes(b)|
    ensures MetricBytes(a) == MetricBytes(b) <==> a == b
  {
    hide I64Bytes, F64Bytes;
    SplitEqual(a.name + I64Bytes(a.step), F64Bytes(a.value), b.name + I64Bytes(b.step), F64Bytes(b.value));
    SplitEqual(a.name, I64Bytes(a.step), b.name, I64Bytes(b.step));
    I64Injective(a.step, b.step);
    F64Injective(a.value, b.value);
  }

  lemma PairBytesInjective(a: PairPayload, b: PairPayload)
    requires |a.name| == |b.name| && |a.value| == |b.value|
    ensures |PairBytes(a)| == |PairBytes(b)|
    ensures PairBytes(a) == PairBytes(b) <==> a == b
  {
    SplitEqual(a.name, a.value, b.name, b.value);
  }

  /** Equal, but that a missing step or timestamp is the same as zero. */
  predicate SameEvent(a: EventPayload, b: EventPayload) {
    a.level == b.level && a.source == b.source && a.message == b.message
    && (if a.step.Some? then a.step.value else 0) == (if b.step.Some? then b.step.value else 0)
    && (if a.timestamp.Some? then a.timestamp.value else 0) == (if b.timestamp.Some? then b.timestamp.value else 0)
  }

  lemma EventBytesInjective(a: EventPayload, b: EventPayload)
    requires |a.level| == |b.level| && |a.source| == |b.source| && |a.message| == |b.message|
    requires EventInRange(a) && EventInRange(b)
    ensures |EventBytes(a)| == |EventBytes(b)|
    ensures EventBytes(a) == EventBytes(b) <==> SameEvent(a, b)
  {
    hide I64Bytes, F64Bytes;
    var x, y := a.level + a.source + a.message, b.level + b.source + b.message;
    SplitEqual(x + I64Bytes(StepOf(a)), F64Bytes(TimestampBits(a)), y + I64Bytes(StepOf(b)), F64Bytes(TimestampBits(b)));
    SplitEqual(x, I64Bytes(StepOf(a)), y, I64Bytes(StepOf(b)));
    SplitEqual(a.level + a.source, a.message, b.level + b.source, b.message);
    SplitEqual(a.level, a.source, b.level, b.source);
    I64Injective(StepOf(a), StepOf(b));
    F64Injective(TimestampBits(a), TimestampBits(b));
  }

  // In sorted order, as many items, and strings of the same lengths position by position

  ghost predicate MetricsAlike(s: seq<MetricPayload>, t: seq<MetricPayload>) {
    |s| == |t| && forall i :: 0 <= i < |s| ==> |s[i].name| == |t[i].name| && MetricInRange(s[i]) && MetricInRange(t[i])
  }

  ghost predicate PairsAlike(s: seq<PairPayload>, t: seq<PairPayload>) {
    |s| == |t| && forall i :: 0 <= i < |s| ==> |s[i].name| == |t[i].name| && |s[i].value| == |t[i].value|
  }

  ghost predicate EventsAlike(s: seq<EventPayload>, t: seq<EventPayload>) {
    |s| == |t| && forall i :: 0 <= i < |s| ==>
      |s[i].level| == |t[i].level| && |s[i].source| == |t[i].source| && |s[i].message| == |t[i].message|
      && EventInRange(s[i]) && EventInRange(t[i])
  }

  ghost predicate SameShape(c: Content, d: Content) {
    && MetricsAlike(Sort(MetricLe(), c.metrics), Sort(MetricLe(), d.metrics))
    && PairsAlike(Sort(PairLe(), c.params), Sort(PairLe(), d.params))
    && PairsAlike(Sort(PairLe(), c.tags), Sort(PairLe(), d.tags))
    && EventsAlike(Sort(EventLe(), c.events), Sort(EventLe(), d.events))
  }

  ghost predicate SameEvents(s: seq<EventPayload>, t: seq<EventPayload>) {
    |s| == |t| && forall i :: 0 <= i < |s| ==> SameEvent(s[i], t[i])
  }

  /** The same items in sorted order, events up to missing steps and timestamps. */
  ghost predicate SameContent(c: Content, d: Content) {
    && Sort(MetricLe(), c.metrics) == Sort(MetricLe(), d.metrics)
    && Sort(PairLe(), c.params) == Sort(PairLe(), d.params)
    && Sort(PairLe(), c.tags) == Sort(PairLe(), d.tags)
    && SameEvents(Sort(EventLe(), c.events), Sort(EventLe(), d.events))
  }

  lemma MetricsEmit(s: seq<MetricPayload>, t: seq<MetricPayload>)
    requires MetricsAlike(s, t)
    ensures |Emit(MetricBytes, s)| == |Emit(MetricBytes, t)| && (Emit(MetricBytes, s) == Emit(MetricBytes, t) <==> s == t)
  {
    hide Emit, MetricBytes, MetricInRange;
    forall i | 0 <= i < |s| ensures |MetricBytes(s[i])| == |MetricBytes(t[i])| && (MetricBytes(s[i]) == MetricBytes(t[i]) <==> s[i] == t[i]) {
      MetricBytesInjective(s[i], t[i]);
    }
    EmitInjective(MetricBytes, s, t);
  }

  lemma PairsEmit(s: seq<PairPayload>, t: seq<PairPayload>)
    requires PairsAlike(s, t)
    ensures |Emit(PairBytes, s)| == |Emit(PairBytes, t)| && (Emit(PairBytes, s) == Emit(PairBytes, t) <==> s == t)
  {
    hide Emit, PairBytes;
    forall i | 0 <= i < |s| ensures |PairBytes(s[i])| == |PairBytes(t[i])| && (PairBytes(s[i]) == PairBytes(t[i]) <==> s[i] == t[i]) {
      PairBytesInjective(s[i], t[i]);
    }
    EmitInjective(PairBytes, s, t);
  }

  lemma EventsEmit(s: seq<EventPayload>, t: seq<EventPayload>)
    requires EventsAlike(s, t)
    ensures |Emit(EventBytes, s)| == |Emit(EventBytes, t)| && (Emit(EventBytes, s) == Emit(EventBytes, t) <==> SameEvents(s, t))
  {
    hide Emit, EventBytes, EventInRange, SameEvent;
    forall i | 0 <= i < |s| ensures |EventBytes(s[i])| == |EventBytes(t[i])| && (EventBytes(s[i]) == EventBytes(t[i]) <==> SameEvent(s[i], t[i])) {
      EventBytesInjective(s[i], t[i]);
    }
    EmitInjective(EventBytes, s, t);
  }

  /** Payloads of the same shape have the same bytes if and only if they have the same content: the same
      metrics, which carry no timestamp, the same params and tags, and the same events up to missing steps
      and timestamps. */
  lemma SameBytesIff(c: Content, d: Content)
    requires SameShape(c, d)
    ensures BytesOf(c) == BytesOf(d) <==> SameContent(c, d)
  {
    hide Sort, Emit, MetricsAlike, PairsAlike, EventsAlike, SameEvents, MetricLe, PairLe, EventLe;
    var m, m' := Sort(MetricLe(), c.metrics), Sort(MetricLe(), d.metrics);
    var p, p' := Sort(PairLe(), c.params), Sort(PairLe(), d.params);
    var t, t' := Sort(PairLe(), c.tags), Sort(PairLe(), d.tags);
    var e, e' := Sort(EventLe(), c.events), Sort(EventLe(), d.events);
    MetricsEmit(m, m');
    PairsEmit(p, p');
    PairsEmit(t, t');
    EventsEmit(e, e');
    var a, b, x, y := Emit(MetricBytes, m), Emit(PairBytes, p), Emit(PairBytes, t), Emit(EventBytes, e);
    var a', b', x', y' := Emit(MetricBytes, m'), Emit(PairBytes, p'), Emit(PairBytes, t'), Emit(EventBytes, e');
    SplitEqual(a + b + x, y, a' + b' + x', y');
    SplitEqual(a + b, x, a' + b', x');
    SplitEqual(a, b, a', b');
  }

  /** The same content is the same metrics, params and tags, in some order. */
  lemma SameContentPermutes(c: Content, d: Content)
    requires SameContent(c, d)
    ensures multiset(c.metrics) == multiset(d.metrics)
    ensures multiset(c.params) == multiset(d.params) && multiset(c.tags) == multiset(d.tags) && |c.events| == |d.events|
  {
    MetricLePreorder();
    PairLePreorder();
    EventLePreorder();
    hide MetricLe, PairLe, EventLe, Sort;
    SortCorrect(MetricLe(), c.metrics);
    SortCorrect(MetricLe(), d.metrics);
    SortCorrect(PairLe(), c.params);
    SortCorrect(PairLe(), d.params);
    SortCorrect(PairLe(), c.tags);
    SortCorrect(PairLe(), d.tags);
    SortCorrect(EventLe(), c.events);
    SortCorrect(EventLe(), d.events);
    assert |multiset(Sort(EventLe(), c.events))| == |multiset(Sort(EventLe(), d.events))|;
  }
}
