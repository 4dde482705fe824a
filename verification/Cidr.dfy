/** `TrustedProxyRule`: CIDR rules for trusted proxies, at 32 and at 128 bits. */
module Cidr {
  import opened Wrappers
  import opened Text
  import opened Arithmetic

  // ------------------------------------------------------------------ words of w bits

  /** `&` on words of `w` bits. */
  function BitAnd(a: nat, b: nat, w: nat): nat {
    if w == 0 then 0 else (if a % 2 == 1 && b % 2 == 1 then 1 else 0) + 2 * BitAnd(a / 2, b / 2, w - 1)
  }

  /** `<<` on words of `w` bits; a shift by the width or more is an overflow. */
  function ShiftLeft(a: nat, s: nat, w: nat): nat
    requires s < w
  {
    a * Pow2(s) % Pow2(w)
  }

  function AllOnes(w: nat): nat {
    Pow2(w) - 1
  }

  function Mask(w: nat, prefix: nat): nat
    requires prefix <= w
  {
    if prefix == 0 then 0 else ShiftLeft(AllOnes(w), w - prefix, w)
  }

  lemma TwiceProduct(x: int, y: int)
    ensures 2 * (x * y) == 2 * x * y
  {
  }

  lemma {:induction false} Pow2Add(m: nat, n: nat)
    ensures Pow2(m + n) == Pow2(m) * Pow2(n)
    decreases m
  {
    if m > 0 {
      Pow2Add(m - 1, n);
      TwiceProduct(Pow2(m - 1), Pow2(n));
    }
  }

  lemma ShiftedOnes(n: int, p: int)
    requires 1 <= p <= n
    ensures (n - 1) * p % n == n - p
  {
    assert (n - 1) * p == n * p - p;
    assert (p - 1) * n == p * n - n;
    assert p * n == n * p;
    RemainderIs((n - 1) * p, n, p - 1, n - p);
  }

  /** The shifted word keeps the high bits and nothing else. */
  lemma MaskValue(w: nat, prefix: nat)
    requires prefix <= w
    ensures Mask(w, prefix) == Pow2(w) - Pow2(w - prefix)
  {
    hide Pow2;
    Pow2Add(prefix, w - prefix);
    MulMono(1, Pow2(prefix), Pow2(w - prefix));
    ShiftedOnes(Pow2(w), Pow2(w - prefix));
  }

  lemma {:induction false} AndOnes(a: nat, w: nat)
    requires a < Pow2(w)
    ensures BitAnd(a, AllOnes(w), w) == a
    decreases w
  {
    if w > 0 {
      AndOnes(a / 2, w - 1);
      assert AllOnes(w) % 2 == 1 && AllOnes(w) / 2 == AllOnes(w - 1);
    }
  }

  lemma Pow2Grows(s: nat, w: nat)
    requires s <= w
    ensures Pow2(s) <= Pow2(w)
  {
    hide Pow2;
    Pow2Add(w - s, s);
    MulMono(1, Pow2(w - s), Pow2(s));
  }

  lemma DoubleMultiple(q: int, p: int)
    ensures 2 * (q * p) == q * (2 * p)
  {
  }

  /** An even mask clears the lowest bit. */
  lemma AndEven(a: nat, m: nat, w: nat)
    requires w > 0
    ensures BitAnd(a, 2 * m, w) == 2 * BitAnd(a / 2, m, w - 1)
  {
    assert 2 * m % 2 == 0 && 2 * m / 2 == m;
  }

  lemma Pow2Double(n: nat)
    requires n > 0
    ensures Pow2(n) == 2 * Pow2(n - 1)
  {
  }

  /** Masking clears the low `s` bits. */
  lemma {:induction false} AndMask(a: nat, w: nat, s: nat)
    requires a < Pow2(w) && s <= w
    ensures Pow2(s) <= Pow2(w)
    ensures BitAnd(a, Pow2(w) - Pow2(s), w) == a / Pow2(s) * Pow2(s)
    decreases s
  {
    Pow2Grows(s, w);
    if s == 0 {
      AndOnes(a, w);
    } else {
      hide Pow2, BitAnd;
      Pow2Double(w);
      Pow2Double(s);
      AndMask(a / 2, w - 1, s - 1);
      AndEven(a, Pow2(w - 1) - Pow2(s - 1), w);
      HalfThenRest(a, Pow2(s - 1));
      DoubleMultiple(a / Pow2(s), Pow2(s - 1));
    }
  }

  lemma SameMultiple(x: int, y: int, p: int)
    requires p > 0
    ensures x * p == y * p <==> x == y
  {
    if x < y { MulMono(x + 1, y, p); }
    if y < x { MulMono(y + 1, x, p); }
  }

  /** Equal under the mask is equal after division by the size of the block. */
  lemma MaskedEqualIff(w: nat, prefix: nat, a: nat, x: nat)
    requires prefix <= w && a < Pow2(w) && x < Pow2(w)
    ensures BitAnd(x, Mask(w, prefix), w) == BitAnd(a, Mask(w, prefix), w)
       <==> x / Pow2(w - prefix) == a / Pow2(w - prefix)
  {
    hide BitAnd, Pow2, Mask;
    var p := Pow2(w - prefix);
    MaskValue(w, prefix);
    AndMask(a, w, w - prefix);
    AndMask(x, w, w - prefix);
    SameMultiple(x / p, a / p, p);
  }

  // ------------------------------------------------------------------ addresses and rules

  datatype Ip = V4(bits: nat) | V6(bits: nat)

  function Width(ip: Ip): nat {
    if ip.V4? then 32 else 128
  }

  predicate IsIp(ip: Ip) {
    ip.bits < Pow2(Width(ip))
  }

  datatype Rule = RuleV4(network: nat, prefix: nat) | RuleV6(network: nat, prefix: nat)

  datatype RuleError = EmptyEntry | InvalidIp | InvalidPrefix | PrefixTooLong

  function SlashAt(s: string): (n: nat)
    ensures n <= |s|
    ensures n < |s| ==> s[n] == '/'
    ensures forall i :: 0 <= i < n ==> s[i] != '/'
  {
    if s == [] || s[0] == '/' then 0 else 1 + SlashAt(s[1..])
  }

  /** The address and prefix length an entry names; the library parsers of addresses and bytes are
      parameters. */
  function ReadEntry(raw: string, parseIp: string -> Option<Ip>, parseU8: string -> Option<nat>): Result<(Ip, nat), RuleError> {
    var value := Trim(raw);
    var n := SlashAt(value);
    if value == [] then Err(EmptyEntry)
    else if n == |value| then
      match parseIp(value)
      case None => Err(InvalidIp)
      case Some(ip) => Ok((ip, Width(ip)))
    else
      match parseIp(Trim(value[..n]))
      case None => Err(InvalidIp)
      case Some(ip) =>
        match parseU8(Trim(value[n + 1..]))
        case None => Err(InvalidPrefix)
        case Some(prefix) => Ok((ip, prefix))
  }

  function MakeRule(ip: Ip, prefix: nat): Result<Rule, RuleError> {
    match ip
    case V4(bits) =>
      if prefix > 32 then Err(PrefixTooLong) else Ok(RuleV4(BitAnd(bits, Mask(32, prefix), 32), prefix))
    case V6(bits) =>
      if prefix > 128 then Err(PrefixTooLong) else Ok(RuleV6(BitAnd(bits, Mask(128, prefix), 128), prefix))
  }

  function Parse(raw: string, parseIp: string -> Option<Ip>, parseU8: string -> Option<nat>): Result<Rule, RuleError> {
    match ReadEntry(raw, parseIp, parseU8)
    case Err(e) => Err(e)
    case Ok((ip, prefix)) => MakeRule(ip, prefix)
  }

  predicate RuleValid(r: Rule) {
    match r
    case RuleV4(_, prefix) => prefix <= 32
    case RuleV6(_, prefix) => prefix <= 128
  }

  predicate Matches(r: Rule, ip: Ip)
    requires RuleValid(r)
  {
    match (r, ip)
    case (RuleV4(network, prefix), V4(bits)) => BitAnd(bits, Mask(32, prefix), 32) == network
    case (RuleV6(network, prefix), V6(bits)) => BitAnd(bits, Mask(128, prefix), 128) == network
    case _ => false
  }

  // ------------------------------------------------------------------ what a rule means

  /** Same family and same block of addresses. */
  predicate SameBlock(a: Ip, prefix: nat, x: Ip)
    requires prefix <= Width(a)
  {
    a.V4? == x.V4? && x.bits / Pow2(Width(a) - prefix) == a.bits / Pow2(Width(a) - prefix)
  }

  /** An entry is an address, standing for all of its bits, or an address and a prefix length around the first
      slash, with whitespace anywhere around them. */
  ghost predicate IsEntry(raw: string, parseIp: string -> Option<Ip>, parseU8: string -> Option<nat>, ip: Ip, prefix: nat) {
    var value := Trim(raw);
    && value != []
    && (|| ('/' !in value && parseIp(value) == Some(ip) && prefix == if ip.V4? then 32 else 128)
        || (exists n: nat :: n < |value| && value[n] == '/' && '/' !in value[..n]
              && parseIp(Trim(value[..n])) == Some(ip) && parseU8(Trim(value[n + 1..])) == Some(prefix)))
  }

  lemma EntryDecides(raw: string, parseIp: string -> Option<Ip>, parseU8: string -> Option<nat>, ip: Ip, prefix: nat)
    ensures ReadEntry(raw, parseIp, parseU8) == Ok((ip, prefix)) <==> IsEntry(raw, parseIp, parseU8, ip, prefix)
  {
    hide Trim;
    var value := Trim(raw);
    var n := SlashAt(value);
    if n < |value| { assert '/' in value && '/' !in value[..n]; }
    forall k: nat | k < |value| && value[k] == '/' && '/' !in value[..k] ensures k == n {
      FirstSlash(value, k);
    }
  }

  lemma FirstSlash(s: string, k: nat)
    requires k < |s| && s[k] == '/'
    ensures SlashAt(s) <= k
    ensures SlashAt(s) < k ==> '/' in s[..k]
  {
    var n := SlashAt(s);
    if n < k { assert s[..k][n] == '/'; }
  }

  /** A rule exists exactly for prefixes within the width, and it matches exactly the addresses of the
      same family that agree after division by 2^(width - prefix). */
  lemma RuleMeaning(a: Ip, prefix: nat, x: Ip)
    requires IsIp(a) && IsIp(x)
    ensures MakeRule(a, prefix).Ok? <==> prefix <= Width(a)
    ensures prefix <= Width(a) ==>
              RuleValid(MakeRule(a, prefix).value) && (Matches(MakeRule(a, prefix).value, x) <==> SameBlock(a, prefix, x))
  {
    hide BitAnd, Mask, Pow2;
    if prefix <= Width(a) && a.V4? == x.V4? {
      MaskedEqualIff(Width(a), prefix, a.bits, x.bits);
    }
  }

  /** The same, for an entry as written: without a slash it names one address. */
  lemma ParsedMeaning(raw: string, parseIp: string -> Option<Ip>, parseU8: string -> Option<nat>, x: Ip)
    requires IsIp(x) && forall s :: parseIp(s).Some? ==> IsIp(parseIp(s).value)
    ensures var entry := ReadEntry(raw, parseIp, parseU8);
            var rule := Parse(raw, parseIp, parseU8);
            && (rule.Ok? <==> entry.Ok? && entry.value.1 <= Width(entry.value.0))
            && (rule.Ok? ==> RuleValid(rule.value) && (Matches(rule.value, x) <==> SameBlock(entry.value.0, entry.value.1, x)))
            && (rule.Ok? && '/' !in Trim(raw) ==> (Matches(rule.value, x) <==> x == entry.value.0))
  {
    hide BitAnd, Mask, Pow2, Trim, MakeRule, Matches;
    var entry := ReadEntry(raw, parseIp, parseU8);
    if entry.Ok? {
      var (ip, prefix) := entry.value;
      RuleMeaning(ip, prefix, x);
      if '/' !in Trim(raw) {
        Pow2Zero();
      }
    }
  }

  lemma Pow2Zero()
    ensures Pow2(0) == 1
  {
  }

  /** A longer prefix of the same address matches a subset. */
  lemma LongerPrefixNarrows(a: Ip, p: nat, q: nat, x: Ip)
    requires IsIp(a) && IsIp(x) && p <= q <= Width(a)
    requires RuleValid(MakeRule(a, q).value) && Matches(MakeRule(a, q).value, x)
    ensures MakeRule(a, p).Ok? && RuleValid(MakeRule(a, p).value) && Matches(MakeRule(a, p).value, x)
  {
    hide BitAnd, Mask, MakeRule, Matches;
    RuleMeaning(a, p, x);
    RuleMeaning(a, q, x);
    var w := Width(a);
    var small, extra := Pow2(w - q), Pow2(q - p);
    Pow2Add(w - q, q - p);
    hide Pow2;
    DivDiv(a.bits, small, extra);
    DivDiv(x.bits, small, extra);
  }
}
