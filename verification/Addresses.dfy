/** IPv4 matching: ranges, wildcards and prefixes of internal/network/network.go and the script-side
    isInNet of internal/pac/pacutils.go. Addresses are already parsed into their four octets. */
module Addresses {
  import opened Basics

  type Octet = b: int | 0 <= b < 256

  type Addr = s: seq<Octet> | |s| == 4 witness [0, 0, 0, 0]

  /** The address as an unsigned 32-bit number. */
  function Num(a: Addr): (n: int)
    ensures 0 <= n < 0x1_0000_0000
  {
    (a[0] as int) * 0x100_0000 + (a[1] as int) * 0x1_0000 + (a[2] as int) * 0x100 + a[3] as int
  }

  lemma FirstDifference(a: Addr, b: Addr, i: nat)
    requires i < 4 && a[..i] == b[..i] && a[i] < b[i]
    ensures Num(a) < Num(b)
  {
    assert forall j :: 0 <= j < i ==> a[j] == a[..i][j] == b[..i][j] == b[j];
    if i == 0 {} else if i == 1 {} else if i == 2 {} else {}
  }

  /** Octet-wise comparison is the numeric order. */
  method CompareAddr(a: Addr, b: Addr) returns (r: int)
    ensures r == if Num(a) < Num(b) then -1 else if Num(a) > Num(b) then 1 else 0
  {
    for i := 0 to 4
      invariant a[..i] == b[..i]
    {
      if a[i] < b[i] {
        FirstDifference(a, b, i);
        return -1;
      }
      if a[i] > b[i] {
        FirstDifference(b, a, i);
        return 1;
      }
      assert a[..i + 1] == a[..i] + [a[i]] && b[..i + 1] == b[..i] + [b[i]];
    }
    assert a == a[..4] && b == b[..4];
    return 0;
  }

  // ---------------------------------------------------------------- wildcards

  /** A dot-separated part of a wildcard item: "*", a decimal number, or anything else. */
  datatype Part = AnyOctet | Number(n: int) | Malformed

  datatype Range = Range(start: Addr, end: Addr)

  /** Numbers are octets; the program panics on others. */
  predicate ValidOctets(parts: seq<Part>) {
    forall p :: p in parts && p.Number? ==> 0 <= p.n < 256
  }

  predicate WellFormed(parts: seq<Part>) {
    |parts| == 4 && forall i :: 0 <= i < 4 ==> !parts[i].Malformed?
  }

  function Low(p: Part): int { if p.Number? then p.n else 0 }

  function High(p: Part): int { if p.Number? then p.n else 255 }

  predicate IsRangeOf(parts: seq<Part>, r: Range)
    requires WellFormed(parts)
  {
    forall i :: 0 <= i < 4 ==> r.start[i] == Low(parts[i]) && r.end[i] == High(parts[i])
  }

  method WildcardRange(parts: seq<Part>) returns (r: Option<Range>)
    requires ValidOctets(parts)
    ensures r.Some? <==> WellFormed(parts)
    ensures r.Some? ==> IsRangeOf(parts, r.value)
  {
    if |parts| != 4 {
      return None;
    }
    var start: seq<Octet>, end: seq<Octet> := [], [];
    for i := 0 to 4
      invariant |start| == |end| == i
      invariant forall j :: 0 <= j < i ==> !parts[j].Malformed? && start[j] == Low(parts[j]) && end[j] == High(parts[j])
    {
      match parts[i]
      case AnyOctet => start, end := start + [0], end + [255];
      case Number(n) =>
        assert parts[i] in parts;
        start, end := start + [n], end + [n];
      case Malformed => return None;
    }
    return Some(Range(start, end));
  }

  predicate MatchesPart(p: Part, b: int) { p.AnyOctet? || (p.Number? && p.n == b) }

  /** What the wildcard means. */
  predicate Matches(parts: seq<Part>, a: Addr)
    requires |parts| == 4
  {
    forall i :: 0 <= i < 4 ==> MatchesPart(parts[i], a[i])
  }

  /** How the matcher tests a range. */
  predicate InRange(r: Range, a: Addr) { Num(r.start) <= Num(a) <= Num(r.end) }

  /** Every matching address lies in the range. */
  lemma MatchesAreInRange(parts: seq<Part>, r: Range, a: Addr)
    requires WellFormed(parts) && IsRangeOf(parts, r) && Matches(parts, a)
    ensures InRange(r, a)
  {
    assert forall i :: 0 <= i < 4 ==> MatchesPart(parts[i], a[i]) && r.start[i] <= a[i] <= r.end[i];
  }

  /** Everything after the first "*" is also "*". */
  predicate TrailingStars(parts: seq<Part>)
    requires |parts| == 4
  {
    forall i, j :: 0 <= i < j < 4 && parts[i].AnyOctet? ==> parts[j].AnyOctet?
  }

  /** An octet outside the range at the first position that can differ puts the address outside. */
  lemma OutsideAt(r: Range, a: Addr, i: nat)
    requires i < 4 && (forall j :: 0 <= j < i ==> r.start[j] == r.end[j] == a[j])
    ensures !(r.start[i] <= a[i] <= r.end[i]) ==> !InRange(r, a)
  {
    if a[i] < r.start[i] {
      assert a[..i] == r.start[..i];
      FirstDifference(a, r.start, i);
    } else if a[i] > r.end[i] {
      assert a[..i] == r.end[..i];
      FirstDifference(r.end, a, i);
    }
  }

  lemma TrailingStarsAreExact(parts: seq<Part>, r: Range, a: Addr)
    requires WellFormed(parts) && IsRangeOf(parts, r) && TrailingStars(parts) && InRange(r, a)
    ensures Matches(parts, a)
  {
    var i := 0;
    while i < 4
      invariant 0 <= i <= 4
      invariant forall j :: 0 <= j < i ==> MatchesPart(parts[j], a[j])
      invariant i < 4 ==> forall j :: 0 <= j < i ==> parts[j].Number?
    {
      if parts[i].AnyOctet? {
        assert forall j :: i < j < 4 ==> parts[j].AnyOctet?;
        assert forall j :: i <= j < 4 ==> MatchesPart(parts[j], a[j]);
        return;
      }
      OutsideAt(r, a, i);
      i := i + 1;
    }
  }

  /** A star before a number: some address in the range does not match. */
  lemma StarBeforeNumberLeaks(parts: seq<Part>, r: Range, i: nat, k: nat) returns (a: Addr)
    requires WellFormed(parts) && IsRangeOf(parts, r)
    requires i < k < 4 && parts[i].AnyOctet? && parts[k].Number? && (forall j :: 0 <= j < i ==> parts[j].Number?)
    ensures InRange(r, a) && !Matches(parts, a)
  {
    var other: Octet := if parts[k].n == 0 then 1 else 0;
    a := r.start[i := 1][k := other];
    assert a[..i] == r.start[..i];
    assert a[..i] == r.end[..i] by {
      assert forall j :: 0 <= j < i ==> r.start[j] == r.end[j];
    }
    FirstDifference(r.start, a, i);
    FirstDifference(a, r.end, i);
    assert !MatchesPart(parts[k], a[k]);
  }

  lemma FirstStar(parts: seq<Part>, i: nat) returns (k: nat)
    requires WellFormed(parts) && i < 4 && parts[i].AnyOctet?
    ensures k <= i && parts[k].AnyOctet? && forall j :: 0 <= j < k ==> parts[j].Number?
  {
    k := 0;
    while !parts[k].AnyOctet?
      invariant k <= i && forall j :: 0 <= j < k ==> parts[j].Number?
      decreases i - k
    {
      k := k + 1;
    }
  }

  /** The range contains only matching addresses exactly when everything after the first "*" is "*". */
  lemma RangeIsExactIff(parts: seq<Part>, r: Range)
    requires WellFormed(parts) && IsRangeOf(parts, r)
    ensures (forall a: Addr :: InRange(r, a) ==> Matches(parts, a)) <==> TrailingStars(parts)
  {
    if TrailingStars(parts) {
      forall a: Addr | InRange(r, a) ensures Matches(parts, a) { TrailingStarsAreExact(parts, r, a); }
    } else {
      var i, k :| 0 <= i < k < 4 && parts[i].AnyOctet? && !parts[k].AnyOctet?;
      var f := FirstStar(parts, i);
      var a := StarBeforeNumberLeaks(parts, r, f, k);
    }
  }

  // ---------------------------------------------------------------- bits

  /** Bitwise operations on the low `k` bits. */
  function AndBits(x: nat, y: nat, k: nat): nat {
    if k == 0 then 0 else (if x % 2 == 1 && y % 2 == 1 then 1 else 0) + 2 * AndBits(x / 2, y / 2, k - 1)
  }

  function OrBits(x: nat, y: nat, k: nat): nat {
    if k == 0 then 0 else (if x % 2 == 1 || y % 2 == 1 then 1 else 0) + 2 * OrBits(x / 2, y / 2, k - 1)
  }

  lemma {:induction false} AndOnes(x: nat, k: nat)
    requires x < Pow2(k)
    ensures AndBits(x, Pow2(k) - 1, k) == x
  {
    if k > 0 {
      assert (Pow2(k) - 1) / 2 == Pow2(k - 1) - 1;
      AndOnes(x / 2, k - 1);
    }
  }

  lemma {:induction false} AndZero(x: nat, k: nat)
    ensures AndBits(x, 0, k) == 0
  {
    if k > 0 { AndZero(x / 2, k - 1); }
  }

  /** Masking with `j` low ones keeps the number below 2^j it started from. */
  lemma {:induction false} AndLow(x: nat, j: nat, k: nat)
    requires j <= k && x < Pow2(j)
    ensures AndBits(x, Pow2(j) - 1, k) == x
  {
    if j == 0 {
      AndZero(x, k);
    } else {
      assert (Pow2(j) - 1) / 2 == Pow2(j - 1) - 1;
      AndLow(x / 2, j - 1, k - 1);
    }
  }

  lemma {:induction false} Pow2Monotone(j: nat, k: nat)
    requires j <= k
    ensures Pow2(j) <= Pow2(k)
  {
    if j < k { Pow2Monotone(j, k - 1); }
  }

  lemma MultipleAtLeast(d: int, p: int)
    requires d >= 1 && p > 0
    ensures d * p >= p
  {}

  lemma Distribute(a: int, b: int, p: int)
    ensures a * p == b * p + (a - b) * p
  {}

  lemma DivideUnique(x: int, p: int, q: int, r: int)
    requires p > 0 && x == q * p + r && 0 <= r < p
    ensures x / p == q
  {
    var q' := x / p;
    assert x == q' * p + x % p;
    Distribute(q, q', p);
    Distribute(q', q, p);
    if q > q' { MultipleAtLeast(q - q', p); }
    if q < q' { MultipleAtLeast(q' - q, p); }
  }

  lemma EvenMask(x: nat, y: nat, k: nat)
    requires k > 0 && y % 2 == 0
    ensures AndBits(x, y, k) == 2 * AndBits(x / 2, y / 2, k - 1)
  {}

  lemma MaskHalf(j: nat, k: nat) returns (y: nat)
    requires 0 < j <= k
    ensures Pow2(j) == 2 * Pow2(j - 1) && Pow2(j) <= Pow2(k)
    ensures y == Pow2(k) - Pow2(j) && y % 2 == 0 && y / 2 == Pow2(k - 1) - Pow2(j - 1)
  {
    Pow2Monotone(j - 1, k - 1);
    y := 2 * (Pow2(k - 1) - Pow2(j - 1));
  }

  lemma HalfOfSum(x: nat, q: nat, p: nat, h: nat, r: nat)
    requires p == 2 * h && x == q * p + r
    ensures x / 2 == q * h + r / 2 && x - r == 2 * (x / 2 - r / 2)
  {
    var m := q * h;
    assert q * (2 * h) == 2 * m;
  }

  lemma HalfBounds(x: nat, r: nat, h: nat, top: nat)
    requires x < 2 * top && r < 2 * h
    ensures x / 2 < top && r / 2 < h
  {}

  /** Masking takes away the remainder `r` below the mask. */
  lemma {:induction false} AndDrops(x: nat, j: nat, k: nat, p: nat, q: nat, r: nat)
    requires j <= k && x < Pow2(k) && p == Pow2(j) && x == q * p + r && r < p
    ensures p <= Pow2(k) && AndBits(x, Pow2(k) - p, k) == x - r
  {
    if j == 0 {
      AndOnes(x, k);
    } else {
      var y := MaskHalf(j, k);
      var h := Pow2(j - 1);
      EvenMask(x, y, k);
      HalfOfSum(x, q, p, h, r);
      HalfBounds(x, r, h, Pow2(k - 1));
      AndDrops(x / 2, j - 1, k - 1, h, q, r / 2);
    }
  }

  /** Masking with a contiguous mask clears the low `j` bits. */
  lemma AndHigh(x: nat, j: nat, k: nat)
    requires j <= k && x < Pow2(k)
    ensures Pow2(j) <= Pow2(k)
    ensures AndBits(x, Pow2(k) - Pow2(j), k) == x / Pow2(j) * Pow2(j)
  {
    var q, r := QuotientAndRemainder(x, Pow2(j));
    AndDrops(x, j, k, Pow2(j), q, r);
  }

  lemma QuotientAndRemainder(x: nat, p: nat) returns (q: nat, r: nat)
    requires p > 0
    ensures x == q * p + r && r < p && x / p * p == x - r
  {
    q, r := x / p, x % p;
  }

  lemma {:induction false} OrZero(x: nat, k: nat)
    requires x < Pow2(k)
    ensures OrBits(x, 0, k) == x
  {
    if k > 0 { OrZero(x / 2, k - 1); }
  }

  /** Numbers without common bits are combined by adding them. */
  lemma {:induction false} OrDisjoint(x: nat, y: nat, j: nat, k: nat)
    requires j <= k && y < Pow2(j) && x * Pow2(j) + y < Pow2(k)
    ensures OrBits(x * Pow2(j), y, k) == x * Pow2(j) + y
  {
    if j == 0 {
      assert x * 1 == x;
      OrZero(x, k);
    } else {
      var p := Pow2(j - 1);
      assert x * Pow2(j) == 2 * (x * p);
      OrDisjoint(x, y / 2, j - 1, k - 1);
    }
  }

  // ---------------------------------------------------------------- 32-bit arithmetic of the script engine

  const TWO32 := 0x1_0000_0000

  function ToUint32(x: int): (u: nat)
    ensures u < TWO32
  {
    x % TWO32
  }

  function ToInt32(x: int): int {
    var u := ToUint32(x);
    if u >= 0x8000_0000 then u - TWO32 else u
  }

  function JsAnd(x: int, y: int): int { ToInt32(AndBits(ToUint32(x), ToUint32(y), 32)) }

  function JsOr(x: int, y: int): int { ToInt32(OrBits(ToUint32(x), ToUint32(y), 32)) }

  function JsShiftLeft(x: int, factor: int): int { ToInt32(ToUint32(x) * factor) }

  /** ((b0 << 24) | (b1 << 16) | (b2 << 8) | b3 */
  function Joined(b0: int, b1: int, b2: int, b3: int): int {
    JsOr(JsOr(JsOr(JsShiftLeft(b0, 0x100_0000), JsShiftLeft(b1, 0x1_0000)), JsShiftLeft(b2, 0x100)), b3)
  }

  function ConvertAddr(a: Addr): int {
    Joined(JsAnd(a[0], 0xff), JsAnd(a[1], 0xff), JsAnd(a[2], 0xff), JsAnd(a[3], 0xff))
  }

  /** isInNet on texts that are dotted addresses (Some) or not (None); `resolved` is what dnsResolve
      gives for the first argument. */
  function IsInNet(ip: Option<Addr>, pattern: Option<Addr>, mask: Option<Addr>, resolved: Option<Addr>): bool {
    if pattern.None? || mask.None? then false
    else
      var host := if ip.Some? then ip else resolved;
      host.Some? &&
      JsAnd(ConvertAddr(host.value), ConvertAddr(mask.value)) == JsAnd(ConvertAddr(pattern.value), ConvertAddr(mask.value))
  }

  lemma PowerValues()
    ensures Pow2(8) == 0x100 && Pow2(16) == 0x1_0000 && Pow2(24) == 0x100_0000 && Pow2(32) == TWO32
  {
    assert Pow2(4) == 16;
    assert Pow2(8) == 256;
    assert Pow2(12) == 4096;
    assert Pow2(16) == 65536;
    assert Pow2(20) == 1048576;
    assert Pow2(24) == 16777216;
    assert Pow2(28) == 268435456;
  }

  lemma ByteMask(b: Octet)
    ensures JsAnd(b, 0xff) == b
  {
    var ones := 0xff;
    assert ones == Pow2(8) - 1 by { PowerValues(); }
    AndLow(b, 8, 32) by { PowerValues(); }
    assert ToUint32(b) == b && ToUint32(ones) == ones;
    assert AndBits(b, ones, 32) == b;
  }

  lemma ToUintToInt(x: int)
    ensures ToUint32(ToInt32(x)) == ToUint32(x)
  {}

  lemma JsOrAdds(x: int, y: int, hi: nat, j: nat)
    requires j <= 32 && hi * Pow2(j) + ToUint32(y) < TWO32
    requires ToUint32(x) == hi * Pow2(j) && ToUint32(y) < Pow2(j)
    ensures ToUint32(JsOr(x, y)) == hi * Pow2(j) + ToUint32(y)
  {
    PowerValues();
    OrDisjoint(hi, ToUint32(y), j, 32);
    ToUintToInt(OrBits(ToUint32(x), ToUint32(y), 32));
  }

  /** The script's number for an address is the address as a signed 32-bit number. */
  lemma ConvertAddrIsNum(a: Addr)
    ensures ToUint32(ConvertAddr(a)) == Num(a)
  {
    ByteMask(a[0]);
    ByteMask(a[1]);
    ByteMask(a[2]);
    ByteMask(a[3]);
    JoinedIsNum(a[0], a[1], a[2], a[3]);
  }

  lemma JoinedIsNum(b0: Octet, b1: Octet, b2: Octet, b3: Octet)
    ensures ToUint32(Joined(b0, b1, b2, b3)) == (((b0 as int) * 0x100 + b1 as int) * 0x100 + b2 as int) * 0x100 + b3 as int
  {
    var x0, x1, x2 := JsShiftLeft(b0, 0x100_0000), JsShiftLeft(b1, 0x1_0000), JsShiftLeft(b2, 0x100);
    var h1, h2 := (b0 as int) * 0x100 + b1 as int, ((b0 as int) * 0x100 + b1 as int) * 0x100 + b2 as int;
    assert ToUint32(JsOr(x0, x1)) == h1 * 0x1_0000 by {
      Shifted(b0, 0x100_0000);
      Shifted(b1, 0x1_0000);
      Join24(x0, x1, b0, b1);
    }
    JoinLow(JsOr(x0, x1), x2, h1, b2, b3) by { Shifted(b2, 0x100); }
  }

  lemma JoinLow(y: int, x2: int, h1: nat, b2: Octet, b3: Octet)
    requires h1 < 0x1_0000 && ToUint32(y) == h1 * 0x1_0000 && ToUint32(x2) == (b2 as int) * 0x100
    ensures ToUint32(JsOr(JsOr(y, x2), b3)) == (h1 * 0x100 + b2 as int) * 0x100 + b3 as int
  {
    Join16(y, x2, h1, b2);
    Join8(JsOr(y, x2), b3, h1 * 0x100 + b2 as int, b3);
  }

  lemma Shifted(b: Octet, factor: int)
    requires 0 <= (b as int) * factor < TWO32
    ensures ToUint32(JsShiftLeft(b, factor)) == (b as int) * factor
  {
    assert ToUint32(b) == b;
    ToUintToInt((b as int) * factor);
  }

  /** Each octet is joined below the ones before it. */
  lemma Join24(x: int, y: int, h: nat, b: nat)
    requires h < 0x100 && b < 0x100 && ToUint32(x) == h * 0x100_0000 && ToUint32(y) == b * 0x1_0000
    ensures ToUint32(JsOr(x, y)) == (h * 0x100 + b) * 0x1_0000
  {
    JsOrAbove(x, y, h, 24, 0x100_0000) by { PowerValues(); }
  }

  lemma Join16(x: int, y: int, h: nat, b: nat)
    requires h < 0x1_0000 && b < 0x100 && ToUint32(x) == h * 0x1_0000 && ToUint32(y) == b * 0x100
    ensures ToUint32(JsOr(x, y)) == (h * 0x100 + b) * 0x100
  {
    JsOrAbove(x, y, h, 16, 0x1_0000) by { PowerValues(); }
  }

  lemma Join8(x: int, y: int, h: nat, b: nat)
    requires h < 0x100_0000 && b < 0x100 && ToUint32(x) == h * 0x100 && ToUint32(y) == b
    ensures ToUint32(JsOr(x, y)) == h * 0x100 + b
  {
    JsOrAbove(x, y, h, 8, 0x100) by { PowerValues(); }
  }

  lemma JsOrAbove(x: int, y: int, hi: nat, j: nat, factor: int)
    requires j <= 32 && factor == Pow2(j)
    requires ToUint32(x) == hi * factor && ToUint32(y) < factor && hi * factor + ToUint32(y) < TWO32
    ensures ToUint32(JsOr(x, y)) == hi * factor + ToUint32(y)
  {
    JsOrAdds(x, y, hi, j);
  }

  // ---------------------------------------------------------------- three views of a subnet

  /** The mask with `n` leading ones. */
  predicate IsMask(mask: Addr, n: nat)
    requires n <= 32
  {
    Num(mask) == TWO32 - Pow2(32 - n)
  }

  /** netip.Prefix as the matcher keeps it: masked to its first `bits` bits. */
  datatype Prefix = Prefix(addr: int, bits: nat)

  function Masked(p: Prefix): Prefix
    requires p.bits <= 32
  {
    p.(addr := p.addr / Pow2(32 - p.bits) * Pow2(32 - p.bits))
  }

  /** The first `bits` bits agree. */
  predicate Contains(p: Prefix, a: Addr)
    requires p.bits <= 32
  {
    Num(a) / Pow2(32 - p.bits) == p.addr / Pow2(32 - p.bits)
  }

  function Network(a: Addr, n: nat): int
    requires n <= 32
  {
    Num(a) / Pow2(32 - n) * Pow2(32 - n)
  }

  function Broadcast(a: Addr, n: nat): int
    requires n <= 32
  {
    Network(a, n) + Pow2(32 - n) - 1
  }

  lemma MaskedNumber(a: Addr, mask: Addr, n: nat)
    requires n <= 32 && IsMask(mask, n)
    ensures JsAnd(ConvertAddr(a), ConvertAddr(mask)) == ToInt32(Network(a, n))
  {
    PowerValues();
    ConvertAddrIsNum(a);
    ConvertAddrIsNum(mask);
    AndHigh(Num(a), 32 - n, 32);
  }

  lemma BlockBounds(x: nat, p: int)
    requires p > 0
    ensures 0 <= x / p * p <= x < x / p * p + p
  {
    var q := x / p;
    assert q >= 0;
    assert q * p >= 0;
  }

  lemma SameBlock(x: nat, y: nat, p: int)
    requires p > 0
    ensures x / p == y / p <==> y / p * p <= x < y / p * p + p
    ensures x / p == y / p <==> x / p * p == y / p * p
  {
    BlockBounds(x, p);
    if y / p * p <= x < y / p * p + p { DivideUnique(x, p, y / p, x - y / p * p); }
    if x / p * p == y / p * p { DivideUnique(x / p * p, p, x / p, 0); DivideUnique(x / p * p, p, y / p, 0); }
  }

  lemma NetworkRange(a: Addr, n: nat)
    requires n <= 32
    ensures 0 <= Network(a, n) <= Num(a) < TWO32
  {
    BlockBounds(Num(a), Pow2(32 - n));
  }

  /** For a contiguous mask of length `n`, the script's signed 32-bit test, the matcher's masked /n
      prefix and the numeric interval from network to broadcast accept the same addresses. */
  lemma ThreeViewsAgree(host: Addr, pattern: Addr, mask: Addr, n: nat, resolved: Option<Addr>)
    requires n <= 32 && IsMask(mask, n)
    ensures IsInNet(Some(host), Some(pattern), Some(mask), resolved) <==> Contains(Masked(Prefix(Num(pattern), n)), host)
    ensures Contains(Masked(Prefix(Num(pattern), n)), host) <==> Network(pattern, n) <= Num(host) <= Broadcast(pattern, n)
  {
    PrefixIsInterval(host, pattern, n);
    MaskedNumber(host, mask, n);
    MaskedNumber(pattern, mask, n);
    NetworkRange(host, n);
    NetworkRange(pattern, n);
    SignedInjective(Network(host, n), Network(pattern, n));
  }

  /** A pattern or mask that is no address matches nothing; a host that is none counts as the address it resolves to. */
  lemma IsInNetOfName(pattern: Option<Addr>, mask: Option<Addr>, host: Option<Addr>, resolved: Option<Addr>)
    ensures pattern.None? || mask.None? ==> !IsInNet(host, pattern, mask, resolved)
    ensures host.None? && resolved.None? ==> !IsInNet(host, pattern, mask, resolved)
    ensures host.None? && resolved.Some? ==> (IsInNet(host, pattern, mask, resolved) <==> IsInNet(resolved, pattern, mask, None))
  {}

  lemma SignedInjective(x: int, y: int)
    requires 0 <= x < TWO32 && 0 <= y < TWO32
    ensures ToInt32(x) == ToInt32(y) <==> x == y
  {}

  lemma PrefixIsInterval(host: Addr, pattern: Addr, n: nat)
    requires n <= 32
    ensures Contains(Masked(Prefix(Num(pattern), n)), host) <==> Network(host, n) == Network(pattern, n)
    ensures Contains(Masked(Prefix(Num(pattern), n)), host) <==> Network(pattern, n) <= Num(host) <= Broadcast(pattern, n)
  {
    var p := Pow2(32 - n);
    SameBlock(Num(host), Num(pattern), p);
    DivideUnique(Num(pattern) / p * p, p, Num(pattern) / p, 0);
  }

  // ---------------------------------------------------------------- the matcher

  datatype Matcher = Matcher(all: bool, prefixes: seq<Prefix>, ranges: seq<Range>)

  predicate ValidMatcher(m: Matcher) {
    forall i :: 0 <= i < |m.prefixes| ==> m.prefixes[i].bits <= 32
  }

  /** An address is accepted by a catch-all item, a prefix or a range, and not otherwise. */
  method MatchIP(m: Matcher, ip: Addr) returns (ok: bool)
    requires ValidMatcher(m)
    ensures ok <==> || m.all
                    || (exists i :: 0 <= i < |m.prefixes| && Contains(m.prefixes[i], ip))
                    || (exists i :: 0 <= i < |m.ranges| && InRange(m.ranges[i], ip))
  {
    if m.all {
      return true;
    }
    for i := 0 to |m.prefixes|
      invariant forall j :: 0 <= j < i ==> !Contains(m.prefixes[j], ip)
    {
      if Contains(m.prefixes[i], ip) {
        return true;
      }
    }
    for i := 0 to |m.ranges|
      invariant forall j :: 0 <= j < i ==> !InRange(m.ranges[j], ip)
    {
      var lo := CompareAddr(ip, m.ranges[i].start);
      var hi := CompareAddr(ip, m.ranges[i].end);
      if lo >= 0 && hi <= 0 {
        return true;
      }
    }
    return false;
  }
}
