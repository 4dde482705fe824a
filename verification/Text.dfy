/** The two result shapes every component uses in place of the source's `Option` and `Result`. */
module Wrappers {
  datatype Option<+T> = None | Some(value: T)

  datatype Result<+T, +E> = Ok(value: T) | Err(error: E)
}

/** The string operations of the Rust standard library that the filter language and the ingest
    handler rely on.  A Dafny `char` is a Unicode scalar value, like a Rust `char`. */
module Text {

  /** The Unicode White_Space property, as `char::is_whitespace` decides it. */
  predicate IsWhitespace(c: char) {
    var n := c as int;
    || 0x9 <= n <= 0xD || n == 0x20 || n == 0x85 || n == 0xA0 || n == 0x1680
    || 0x2000 <= n <= 0x200A || n == 0x2028 || n == 0x2029 || n == 0x202F || n == 0x205F || n == 0x3000
  }

  predicate AllWhitespace(s: string) {
    forall i :: 0 <= i < |s| ==> IsWhitespace(s[i])
  }

  function LowerChar(c: char): char {
    if 'A' <= c <= 'Z' then (c as int + 32) as char else c
  }

  /** `str::to_ascii_lowercase`; `eq_ignore_ascii_case` is equality of the lowered strings. */
  function Lower(s: string): (r: string)
    ensures |r| == |s|
    ensures forall i :: 0 <= i < |s| ==> r[i] == LowerChar(s[i])
  {
    seq(|s|, i requires 0 <= i < |s| => LowerChar(s[i]))
  }

  function TrimStart(s: string): (r: string)
    ensures r == [] || !IsWhitespace(r[0])
    ensures |r| <= |s| && r == s[|s| - |r|..]
    decreases |s|
  {
    if s != [] && IsWhitespace(s[0]) then TrimStart(s[1..]) else s
  }

  function TrimEnd(s: string): (r: string)
    ensures r == [] || !IsWhitespace(r[|r| - 1])
    ensures |r| <= |s| && r == s[..|r|]
    decreases |s|
  {
    if s != [] && IsWhitespace(s[|s| - 1]) then TrimEnd(s[..|s| - 1]) else s
  }

  /** `str::trim`. */
  function Trim(s: string): (r: string)
    ensures Trimmed(r)
  {
    TrimEnd(TrimStart(s))
  }

  predicate Trimmed(s: string) {
    s == [] || (!IsWhitespace(s[0]) && !IsWhitespace(s[|s| - 1]))
  }

  /** What is left and what is right of the trimmed text. */
  predicate Surrounds(s: string, before: string, middle: string, after: string) {
    s == before + middle + after && AllWhitespace(before) && AllWhitespace(after)
  }

  lemma {:induction false} TrimStartLeaves(s: string)
    ensures AllWhitespace(s[..|s| - |TrimStart(s)|])
    decreases |s|
  {
    if s != [] && IsWhitespace(s[0]) {
      TrimStartLeaves(s[1..]);
      assert s[..|s| - |TrimStart(s)|] == [s[0]] + s[1..][..|s| - 1 - |TrimStart(s)|];
    }
  }

  lemma {:induction false} TrimEndLeaves(s: string)
    ensures AllWhitespace(s[|TrimEnd(s)|..])
    decreases |s|
  {
    if s != [] && IsWhitespace(s[|s| - 1]) {
      var n := |s| - 1;
      TrimEndLeaves(s[..n]);
      assert s[|TrimEnd(s)|..] == s[..n][|TrimEnd(s)|..] + [s[n]];
    }
  }

  /** Trimming takes away whitespace at both ends and leaves none there. */
  lemma TrimTakes(s: string) returns (before: string, after: string)
    ensures Trimmed(Trim(s)) && Surrounds(s, before, Trim(s), after)
  {
    var front := TrimStart(s);
    TrimStartLeaves(s);
    TrimEndLeaves(front);
    hide TrimStart, TrimEnd, IsWhitespace;
    before, after := s[..|s| - |front|], front[|Trim(s)|..];
    assert s == before + front && front == Trim(s) + after;
  }

  lemma MiddleStands(s: string, before: string, middle: string, after: string)
    requires Trimmed(middle) && Surrounds(s, before, middle, after)
    ensures AllWhitespace(s) <==> middle == []
    ensures middle != [] ==> s[|before|] == middle[0] && s[|before| + |middle| - 1] == middle[|middle| - 1]
  {
    if middle == [] { assert s == before + after; }
    assert middle != [] ==> s[|before|] == middle[0];
  }

  /** Only the trimmed text has this property. */
  lemma TrimUnique(s: string, before: string, middle: string, after: string)
    requires Trimmed(middle) && Surrounds(s, before, middle, after)
    ensures Trim(s) == middle
  {
    var b, a := TrimTakes(s);
    var m := Trim(s);
    hide Trim;
    MiddleStands(s, before, middle, after);
    MiddleStands(s, b, m, a);
    if middle != [] {
      assert |b| == |before| && |a| == |after|;
      assert s[|b|..|b| + |m|] == m;
    }
  }

  lemma TrimmedAway(s: string)
    ensures Trim(s) == [] <==> AllWhitespace(s)
  {
    var before, after := TrimTakes(s);
    hide Trim;
    MiddleStands(s, before, Trim(s), after);
  }

  lemma TrimFixpoint(s: string)
    requires Trimmed(s)
    ensures Trim(s) == s
  {
  }

  function Utf8Width(c: char): (n: nat)
    ensures 1 <= n <= 4
  {
    var n := c as int;
    if n < 0x80 then 1 else if n < 0x800 then 2 else if n < 0x10000 then 3 else 4
  }

  /** `str::len`: the number of UTF-8 bytes. */
  function Utf8Len(s: string): (n: nat)
    ensures n >= |s|
  {
    if s == [] then 0 else Utf8Width(s[0]) + Utf8Len(s[1..])
  }

  predicate IsDigit(c: char) {
    '0' <= c <= '9'
  }

  /** The number that decimal digits denote. */
  function NumberOf(digits: string): nat
    requires forall i :: 0 <= i < |digits| ==> IsDigit(digits[i])
  {
    if digits == [] then 0
    else
      assert IsDigit(digits[|digits| - 1]);
      10 * NumberOf(digits[..|digits| - 1]) + (digits[|digits| - 1] as int - '0' as int)
  }

  /** The numeral of `n`: its digits, without leading zeros. */
  predicate IsNumeral(digits: string, n: nat) {
    && digits != [] && (forall i :: 0 <= i < |digits| ==> IsDigit(digits[i]))
    && (|digits| > 1 ==> digits[0] != '0') && NumberOf(digits) == n
  }

  /** Exactly the 26 capital letters change, each to its small letter. */
  lemma LowerStands(c: char)
    ensures Lower("ABCDEFGHIJKLMNOPQRSTUVWXYZ") == "abcdefghijklmnopqrstuvwxyz"
    ensures c !in "ABCDEFGHIJKLMNOPQRSTUVWXYZ" ==> LowerChar(c) == c
  {
    var upper, lower := "ABCDEFGHIJKLMNOPQRSTUVWXYZ", "abcdefghijklmnopqrstuvwxyz";
    assert forall i :: 0 <= i < 26 ==> upper[i] as int == 'A' as int + i && lower[i] as int == 'a' as int + i;
    if 'A' <= c <= 'Z' { assert upper[c as int - 'A' as int] == c; }
  }

  /** The lengths of UTF-8: seven bits in one byte, eleven in two, sixteen in three. Lengths add up. */
  lemma {:induction false} Utf8Stands(a: string, b: string)
    ensures Utf8Len(a + b) == Utf8Len(a) + Utf8Len(b)
    ensures forall c: char :: Utf8Len([c]) == if c as int < 128 then 1 else if c as int < 2048 then 2 else if c as int < 65536 then 3 else 4
    decreases |a|
  {
    assert forall c: char :: [c][1..] == [];
    if a == [] {
      assert a + b == b;
    } else {
      Utf8Stands(a[1..], b);
      assert (a + b)[1..] == a[1..] + b;
    }
  }

  lemma LowerIdempotent(s: string)
    ensures Lower(Lower(s)) == Lower(s)
  {
  }
}
