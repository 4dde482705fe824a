/** Order-preserving selection from a sequence, shared by the components that split their input. */
module Select {
  function Filter<T>(s: seq<T>, keep: T -> bool): seq<T> {
    if s == [] then []
    else if keep(s[0]) then [s[0]] + Filter(s[1..], keep)
    else Filter(s[1..], keep)
  }

  lemma {:induction false} FilterMember<T>(s: seq<T>, keep: T -> bool, x: T)
    ensures x in Filter(s, keep) <==> x in s && keep(x)
  {
    if s != [] {
      FilterMember(s[1..], keep, x);
      assert x in s <==> x == s[0] || x in s[1..];
    }
  }

  lemma {:induction false} FilterPartition<T>(s: seq<T>, keep: T -> bool, drop: T -> bool)
    requires forall x :: x in s ==> drop(x) == !keep(x)
    ensures |Filter(s, keep)| + |Filter(s, drop)| == |s|
    ensures multiset(Filter(s, keep)) + multiset(Filter(s, drop)) == multiset(s)
  {
    if s != [] {
      FilterPartition(s[1..], keep, drop);
      assert s == [s[0]] + s[1..];
    }
  }

  lemma {:induction false} FilterAppend<T>(a: seq<T>, b: seq<T>, keep: T -> bool)
    ensures Filter(a + b, keep) == Filter(a, keep) + Filter(b, keep)
  {
    if a == [] {
      assert a + b == b;
    } else {
      FilterAppend(a[1..], b, keep);
      assert (a + b)[1..] == a[1..] + b;
    }
  }

  lemma {:induction false} FilterAll<T>(s: seq<T>, keep: T -> bool)
    requires forall i :: 0 <= i < |s| ==> keep(s[i])
    ensures Filter(s, keep) == s
    decreases |s|
  {
    if s != [] { FilterAll(s[1..], keep); }
  }

  lemma {:induction false} FilterNone<T>(s: seq<T>, keep: T -> bool)
    requires forall i :: 0 <= i < |s| ==> !keep(s[i])
    ensures Filter(s, keep) == []
    decreases |s|
  {
    if s != [] { FilterNone(s[1..], keep); }
  }

  lemma {:induction false} SameFilter<T>(s: seq<T>, p: T -> bool, q: T -> bool)
    requires forall x :: x in s ==> p(x) == q(x)
    ensures Filter(s, p) == Filter(s, q)
    decreases |s|
  {
    if s != [] {
      assert s[0] in s;
      SameFilter(s[1..], p, q);
    }
  }

  lemma FilterOneMore<T>(s: seq<T>, k: nat, keep: T -> bool)
    requires k < |s|
    ensures Filter(s[..k + 1], keep) == Filter(s[..k], keep) + if keep(s[k]) then [s[k]] else []
  {
    FilterAppend(s[..k], [s[k]], keep);
    assert s[..k + 1] == s[..k] + [s[k]];
    assert [s[k]][1..] == [];
  }

  /** Positions below `n`, in rising order. */
  predicate Rising(picks: seq<nat>, n: nat) {
    forall i, j :: 0 <= i <= j < |picks| ==> picks[j] < n && (i < j ==> picks[i] < picks[j])
  }

  lemma RisingOneMore(picks: seq<nat>, n: nat)
    requires Rising(picks, n)
    ensures Rising(picks, n + 1) && Rising(picks + [n], n + 1)
    ensures forall i: nat :: i in picks + [n] <==> i in picks || i == n
    ensures n !in picks
  {
    forall i, j | 0 <= i <= j < |picks| ensures picks[j] < n && (i < j ==> picks[i] < picks[j]) {
    }
    assert forall k :: 0 <= k < |picks| ==> picks[k] < n;
  }

  /** The result takes from `s`, in order, exactly the elements that `keep` accepts. */
  lemma {:induction false} FilterPicks<T>(s: seq<T>, keep: T -> bool) returns (picks: seq<nat>)
    ensures Rising(picks, |s|) && |picks| == |Filter(s, keep)|
    ensures forall k :: 0 <= k < |picks| ==> picks[k] < |s| && Filter(s, keep)[k] == s[picks[k]]
    ensures forall i: nat :: i < |s| ==> (i in picks <==> keep(s[i]))
    decreases |s|
  {
    picks := [];
    if s != [] {
      hide Filter, Rising;
      var n := |s| - 1;
      picks := FilterPicks(s[..n], keep);
      FilterOneMore(s, n, keep);
      assert s[..n + 1] == s && Filter(s[..n], keep) + [] == Filter(s[..n], keep);
      RisingOneMore(picks, n);
      if keep(s[n]) { picks := picks + [n]; }
    } else {
      NoRising();
    }
  }

  lemma NoRising()
    ensures Rising([], 0)
  {
  }

  /** The first `n` elements, or all if there are fewer. */
  function Take<T>(s: seq<T>, n: nat): (r: seq<T>)
    ensures r <= s && |r| == if n <= |s| then n else |s|
  {
    if n <= |s| then s[..n] else s
  }

  /** The lists `f` gives for the elements, one after the other. */
  function FlatMap<T, U>(s: seq<T>, f: T -> seq<U>): seq<U> {
    if s == [] then [] else FlatMap(s[..|s| - 1], f) + f(s[|s| - 1])
  }

  lemma FlatMapOneMore<T, U>(s: seq<T>, x: T, f: T -> seq<U>)
    ensures FlatMap(s + [x], f) == FlatMap(s, f) + f(x)
  {
    assert (s + [x])[..|s|] == s;
  }

  lemma {:induction false} FlatMapAppend<T, U>(a: seq<T>, b: seq<T>, f: T -> seq<U>)
    ensures FlatMap(a + b, f) == FlatMap(a, f) + FlatMap(b, f)
    decreases |b|
  {
    if b == [] {
      assert a + b == a;
    } else {
      var init, x := b[..|b| - 1], b[|b| - 1];
      FlatMapAppend(a, init, f);
      FlatMapOneMore(a + init, x, f);
      FlatMapOneMore(init, x, f);
      assert a + b == a + init + [x] && b == init + [x];
    }
  }

  lemma FlatMapWithout<T, U>(s: seq<T>, i: nat, f: T -> seq<U>)
    requires i < |s|
    ensures multiset(FlatMap(s, f)) == multiset(FlatMap(s[..i] + s[i + 1..], f)) + multiset(f(s[i]))
  {
    hide FlatMap;
    var a, b := s[..i], s[i + 1..];
    assert s == a + [s[i]] + b;
    FlatMapAppend(a + [s[i]], b, f);
    FlatMapOneMore(a, s[i], f);
    FlatMapAppend(a, b, f);
  }

  lemma Without<T>(s: seq<T>, i: nat)
    requires i < |s|
    ensures multiset(s) == multiset(s[..i] + s[i + 1..]) + multiset{s[i]}
  {
    assert s == s[..i] + [s[i]] + s[i + 1..];
  }

  lemma FindIn<T>(s: seq<T>, x: T) returns (i: nat)
    requires x in multiset(s)
    ensures i < |s| && s[i] == x
  {
    i :| 0 <= i < |s| && s[i] == x;
  }

  /** Permuting the elements permutes what they give. */
  lemma {:induction false} FlatMapPermuted<T, U>(a: seq<T>, b: seq<T>, f: T -> seq<U>)
    requires multiset(a) == multiset(b)
    ensures multiset(FlatMap(a, f)) == multiset(FlatMap(b, f))
    decreases |a|
  {
    hide FlatMap;
    if a == [] {
      assert |multiset(b)| == 0;
    } else {
      var last := |a| - 1;
      assert a[last] in multiset(a);
      var i := FindIn(b, a[last]);
      Without(a, last);
      Without(b, i);
      var rest, left := a[..last] + a[last + 1..], b[..i] + b[i + 1..];
      assert multiset(rest) == multiset(a) - multiset{a[last]} && multiset(left) == multiset(b) - multiset{b[i]};
      FlatMapPermuted(rest, left, f);
      FlatMapWithout(a, last, f);
      FlatMapWithout(b, i, f);
    }
  }
}
