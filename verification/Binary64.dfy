/** Rounding to the 53-bit significands of IEEE 754 binary64, as Go's float64 does it, for positive numbers; and
    what it does to a timeout read as decimal seconds and turned into nanoseconds. */
module Binary64 {
  import opened Basics

  const TWO29: nat := 0x2000_0000
  const TWO52: nat := 0x10_0000_0000_0000
  const TWO56: nat := 0x100_0000_0000_0000

  /** The nearest integer to a / b, the even one of two equally near. */
  function Nearest(a: nat, b: nat): nat
    requires b > 0
  {
    var q, r := a / b, a % b;
    if 2 * r < b || (2 * r == b && q % 2 == 0) then q else q + 1
  }

  /** The exponent s for which a / b lies between 2^52 * 2^s and 2^53 * 2^s. */
  function Exponent(a: nat, b: nat): (s: nat)
    requires b > 0 && a >= TWO52 * b
    ensures TWO52 * b * Pow2(s) <= a < 2 * TWO52 * b * Pow2(s)
    decreases a - TWO52 * b
  {
    if a < 2 * TWO52 * b then 0
    else
      var s := Exponent(a, 2 * b);
      assert Pow2(s + 1) == 2 * Pow2(s);
      s + 1
  }

  /** The binary64 number nearest to a / b: a multiple of 2^s with a significand of 53 bits. */
  function Round53(a: nat, b: nat): nat
    requires b > 0 && a >= TWO52 * b
  {
    var p := Pow2(Exponent(a, b));
    Nearest(a, b * p) * p
  }

  lemma NearestIs(a: nat, b: nat, c: nat)
    requires b > 0 && 2 * (b * c) < 2 * a + b && 2 * a < 2 * (b * c) + b
    ensures Nearest(a, b) == c
  {
    if a >= b * c {
      QuotientIs(a, b, c);
    } else {
      assert b * (c - 1) == b * c - b;
      QuotientIs(a, b, c - 1);
    }
  }

  lemma QuotientIs(a: nat, b: nat, c: nat)
    requires b > 0 && b * c <= a < b * c + b
    ensures a / b == c && a % b == a - b * c
  {
    var q := a / b;
    assert a == b * q + a % b;
    MultiplesApart(b, q, c);
    MultiplesApart(b, c, q);
  }

  lemma MultiplesApart(b: nat, x: nat, y: nat)
    ensures x < y ==> b * x + b <= b * y
  {
    if x < y {
      var d: nat := y - x - 1;
      assert b * (x + d + 1) == b * x + b * d + b;
    }
  }

  lemma {:induction false} Pow2Grows(s: nat, t: nat)
    requires s < t
    ensures Pow2(t) >= 2 * Pow2(s)
  {
    if t > s + 1 { Pow2Grows(s, t - 1); }
  }

  lemma {:induction false} Pow2Splits(s: nat, t: nat)
    ensures Pow2(s + t) == Pow2(s) * Pow2(t)
  {
    if t > 0 {
      Pow2Splits(s, t - 1);
    }
  }

  lemma {:induction false} Pow2NotFive(s: nat)
    ensures Pow2(s) % 5 != 0
  {
    if s > 0 { Pow2NotFive(s - 1); }
  }

  lemma ExponentIs(a: nat, s: nat)
    requires TWO52 * Pow2(s) <= a < 2 * TWO52 * Pow2(s) && a >= TWO52
    ensures Exponent(a, 1) == s
  {
    var t := Exponent(a, 1);
    if s < t { Pow2Grows(s, t); }
    if t < s { Pow2Grows(t, s); }
  }

  // ---------------------------------------------------------------- whole tenths of a second

  const TENTH: nat := 100_000_000
  const TWO26: nat := 0x400_0000
  const TWO27: nat := 0x800_0000
  const TWO61: nat := 0x2000_0000_0000_0000

  /** ParseFloat of the text of k tenths: the binary64 number nearest to k / 10, in units of 2^-56. */
  function Seconds(k: nat): nat
    requires k > 0
  {
    Round53(k * TWO56, 10)
  }

  /** The Duration made from it: the product with 1e9 is rounded, then truncated to whole nanoseconds. */
  function LoadedNanos(k: nat): nat
    requires k > 0
  {
    var v := Seconds(k) * 1_000_000_000;
    if v < TWO52 then 0 else Round53(v, 1) / TWO56
  }

  /** The power of two p with 10 p <= 16 k < 20 p: the weight of the last bit of k / 10, in units of 2^-56. */
  function LastBit(k: nat): nat
    requires k > 0
  {
    Pow2(Exponent(k * TWO56, 10))
  }

  /** The timeouts that do not survive: the last decimal digit of the significand is cut at 4 (or, above 2^27,
      raised from 6) and the product lies in the lower of two binades. */
  predicate Slips(k: nat)
    requires k > 0
  {
    k * TENTH < TWO26 * LastBit(k) && (LastDecimal(k) == 4 || (LastDecimal(k) == 6 && LastBit(k) >= TWO27))
  }

  /** The last decimal digit of ten times the significand of k / 10, before rounding. */
  function LastDecimal(k: nat): nat
    requires k > 0
  {
    k * TWO56 / LastBit(k) % 10
  }

  // ---------------------------------------------------------------- the exact condition

  lemma Pow2Values()
    ensures Pow2(21) == 0x20_0000 && Pow2(29) == TWO29 && Pow2(35) == 0x8_0000_0000 && Pow2(56) == TWO56
  {
    assert Pow2(7) == 128;
    Pow2Splits(7, 7);
    Pow2Splits(14, 7);
    Pow2Splits(21, 8);
    Pow2Splits(28, 7);
    Pow2Splits(21, 35);
    assert Pow2(8) == 256;
    Pow2Splits(21, 7);
  }

  lemma LastBitBounds(k: nat, s: nat, p: nat)
    requires k > 0 && k * TENTH < TWO61 && s == Exponent(k * TWO56, 10) && p == Pow2(s)
    ensures 10 * p <= 16 * k < 20 * p && p < 0x10_0000_0000
  {}

  /** The last bit p is at most 2^35, and 2^56 is 2^21 * g * p for a power of two g. */
  lemma LastBitDivides(s: nat, p: nat) returns (g: nat)
    requires p == Pow2(s) && p < 0x10_0000_0000
    ensures s <= 35 && p <= 0x8_0000_0000 && g == Pow2(35 - s) && g * p == 0x8_0000_0000
  {
    Pow2Values();
    if s > 35 { Pow2Grows(35, s); }
    g := Pow2(35 - s);
    Pow2Splits(35 - s, s);
    if s < 35 { Pow2Grows(s, 35); }
  }

  /** k * 2^56 / p is whole and even. */
  lemma Scaled(k: nat, g: nat, p: nat) returns (a: nat)
    requires g * p == 0x8_0000_0000 && p > 0
    ensures a == k * (0x20_0000 * g) && p * a == k * TWO56 && a % 2 == 0
  {
    a := k * (0x20_0000 * g);
    assert k * (0x20_0000 * g) * p == k * 0x20_0000 * (g * p);
    assert k * (0x20_0000 * g) == 2 * (k * (0x10_0000 * g));
  }

  /** An even number is a multiple of ten and a remainder of at most four either way. */
  lemma LastDigit(a: nat) returns (m: nat, r: int)
    requires a % 2 == 0
    ensures a == 10 * m + r && (r == -4 || r == -2 || r == 0 || r == 2 || r == 4)
  {
    var h := a / 2;
    var q, u := h / 5, h % 5;
    assert a == 2 * h && h == 5 * q + u;
    m, r := if u <= 2 then q else q + 1, if u <= 2 then 2 * u else 2 * u - 10;
    assert u == 0 || u == 1 || u == 2 || u == 3 || u == 4;
  }

  lemma TimesLastBit(a: nat, m: nat, r: int, p: nat)
    requires a == 10 * m + r && -4 <= r <= 4
    ensures p * a == 10 * (m * p) + r * p && -4 * p <= r * p <= 4 * p
  {
    assert p * a == p * (10 * m) + p * r;
  }

  /** Rounding k / 10 keeps m and drops r tenths of the last bit. */
  lemma SecondsValue(k: nat, s: nat, p: nat, m: nat, r: int)
    requires k > 0 && s == Exponent(k * TWO56, 10) && p == Pow2(s)
    requires k * TWO56 == 10 * (m * p) + r * p && -4 * p <= r * p <= 4 * p
    ensures Seconds(k) == m * p
  {
    assert 10 * p * m == 10 * (m * p);
    NearestIs(k * TWO56, 10 * p, m);
  }

  const TWO30: nat := 0x4000_0000

  /** The exponent of the product when it lies in the lower of its two binades ... */
  lemma LowerBinade(k: nat, s: nat, p: nat, x: int, v: nat)
    requires p == Pow2(s) && p <= 0x8_0000_0000 && 10 * p <= 16 * k < 20 * p && -4 * p <= x <= 4 * p
    requires v == TENTH * (k * TWO56 - x) && k * TENTH < TWO26 * p
    ensures v >= TWO52 && Exponent(v, 1) == s + 29 && Pow2(s + 29) == TWO29 * p
  {
    Pow2Values();
    Pow2Splits(s, 29);
    LowerBounds(k, p, x, v);
    ExponentIs(v, s + 29);
  }

  lemma LowerBounds(k: nat, p: nat, x: int, v: nat)
    requires 0 < p <= 0x8_0000_0000 && 10 * p <= 16 * k < 20 * p && -4 * p <= x <= 4 * p
    requires v == TENTH * (k * TWO56 - x) && k * TENTH < TWO26 * p
    ensures TWO52 * (TWO29 * p) <= v < 2 * TWO52 * (TWO29 * p)
  {
    assert k * 390_625 + 1 <= 0x4_0000 * p;
  }

  /** ... and in the upper one. */
  lemma UpperBinade(k: nat, s: nat, p: nat, x: int, v: nat)
    requires p == Pow2(s) && p <= 0x8_0000_0000 && 10 * p <= 16 * k < 20 * p && -4 * p <= x <= 4 * p
    requires v == TENTH * (k * TWO56 - x) && k * TENTH >= TWO26 * p
    ensures v >= TWO52 && Exponent(v, 1) == s + 30 && Pow2(s + 30) == TWO30 * p
  {
    Pow2Values();
    Pow2Splits(s, 29);
    Pow2Splits(s, 30) by { assert Pow2(30) == 2 * Pow2(29); }
    Pow2NotFive(s);
    NoFive(k, p);
    UpperBounds(k, p, x, v);
    ExponentIs(v, s + 30);
  }

  lemma UpperBounds(k: nat, p: nat, x: int, v: nat)
    requires 0 < p <= 0x8_0000_0000 && 10 * p <= 16 * k < 20 * p && -4 * p <= x <= 4 * p
    requires v == TENTH * (k * TWO56 - x) && k * TENTH >= TWO26 * p && k * 390_625 != 0x4_0000 * p
    ensures TWO52 * (TWO30 * p) <= v < 2 * TWO52 * (TWO30 * p)
  {
    assert k * 390_625 >= 0x4_0000 * p + 1;
  }

  lemma NoFive(k: nat, p: nat)
    requires p % 5 != 0
    ensures k * 390_625 != 0x4_0000 * p
  {
    var a, b := p / 5, p % 5;
    assert b == 1 || b == 2 || b == 3 || b == 4;
    var z := 78_125 * k - 52_428 * p - 4 * a;
    assert 5 * z != 4 * b;
  }

  /** x is r times p, for the remainders that occur. */
  predicate Times(r: int, p: nat, x: int) {
    (r == -4 && x == -4 * p) || (r == -2 && x == -2 * p) || (r == 0 && x == 0) || (r == 2 && x == 2 * p) || (r == 4 && x == 4 * p)
  }

  function Moved(r: int): int { if r == 4 then 1 else if r == -4 then -1 else 0 }

  /** `d` copies of u. */
  function Copies(d: int, u: int): int { if d == 1 then u else if d == -1 then -u else 0 }

  lemma Distribute(q: nat, d: int, u: nat)
    requires -1 <= d <= 1
    ensures (q - d) * u == q * u - Copies(d, u) && u * (q - d) == q * u - Copies(d, u)
  {}

  /** In the lower binade a remainder of four moves the product by one unit u of its last place. */
  lemma LowerProduct(n: nat, p: nat, u: nat, q: nat, r: int, x: int, v: nat)
    requires p > 0 && u == TWO29 * p && q * u == n && q > 0 && Times(r, p, x) && v == n - TENTH * x
    ensures Nearest(v, u) == q - Moved(r)
  {
    Distribute(q, Moved(r), u);
    NearestIs(v, u, q - Moved(r));
  }

  lemma UpperProduct(n: nat, p: nat, u: nat, q: nat, r: int, x: int, v: nat)
    requires p > 0 && u == TWO30 * p && q * u == n && Times(r, p, x) && v == n - TENTH * x
    ensures Nearest(v, u) == q
  {
    assert u * q == q * u;
    NearestIs(v, u, q);
  }

  lemma LoadedBy(k: nat, v: nat, e: nat, u: nat, c: nat)
    requires k > 0 && v == Seconds(k) * 1_000_000_000 && v >= TWO52 && e == Exponent(v, 1) && u == Pow2(e) && Nearest(v, u) == c
    ensures LoadedNanos(k) == c * u / TWO56
  {}

  /** n is a whole number of units. */
  lemma WholeUnits(k: nat, g: nat, p: nat) returns (q: nat)
    requires g * p == 0x8_0000_0000 && k > 0 && p > 0
    ensures q > 0 && q * (TWO29 * p) == k * TENTH * TWO56
  {
    q := k * 390_625 * g;
    assert q * (TWO29 * p) == k * 390_625 * TWO29 * (g * p);
  }

  lemma WholeDoubleUnits(k: nat, h: nat, p: nat) returns (q: nat)
    requires 2 * h * p == 0x8_0000_0000
    ensures q * (TWO30 * p) == k * TENTH * TWO56
  {
    q := k * 390_625 * h;
    assert q * (TWO30 * p) == k * 390_625 * TWO29 * (2 * h * p);
  }

  /** The nanoseconds: exact, or moved by one unit u of the product's last place and then truncated. */
  lemma LoadedInLowerBinade(k: nat, s: nat, p: nat, u: nat, q: nat, r: int, x: int, v: nat)
    requires k > 0 && p == Pow2(s) && p <= 0x8_0000_0000 && 10 * p <= 16 * k < 20 * p && u == TWO29 * p
    requires q * u == k * TENTH * TWO56 && q > 0 && Times(r, p, x) && k * TENTH < TWO26 * p
    requires v == Seconds(k) * 1_000_000_000 && v == TENTH * (k * TWO56 - x)
    ensures k * TENTH * TWO56 >= Copies(Moved(r), u)
    ensures LoadedNanos(k) == (k * TENTH * TWO56 - Copies(Moved(r), u)) / TWO56
  {
    LowerBinade(k, s, p, x, v);
    LowerProduct(k * TENTH * TWO56, p, u, q, r, x, v);
    LoadedBy(k, v, s + 29, u, q - Moved(r));
    Distribute(q, Moved(r), u);
  }

  lemma LoadedInUpperBinade(k: nat, s: nat, p: nat, u: nat, q: nat, r: int, x: int, v: nat)
    requires k > 0 && p == Pow2(s) && p <= 0x8_0000_0000 && 10 * p <= 16 * k < 20 * p && u == TWO30 * p
    requires q * u == k * TENTH * TWO56 && Times(r, p, x) && k * TENTH >= TWO26 * p
    requires v == Seconds(k) * 1_000_000_000 && v == TENTH * (k * TWO56 - x)
    ensures LoadedNanos(k) == k * TENTH
  {
    UpperBinade(k, s, p, x, v);
    UpperProduct(k * TENTH * TWO56, p, u, q, r, x, v);
    LoadedBy(k, v, s + 30, u, q);
  }

  /** Moving n by d units u = 2^29 p of 2^-56 and truncating. */
  lemma Truncated(n: nat, p: nat, u: nat, d: int)
    requires p > 0 && n > 0 && u == TWO29 * p && -1 <= d <= 1 && n * TWO56 >= Copies(d, u)
    ensures var t := (n * TWO56 - Copies(d, u)) / TWO56;
            && (t == n <==> d == 0 || (d == -1 && p < TWO27))
            && (d == 1 && p <= TWO27 ==> t == n - 1)
            && (p <= 0x8_0000_0000 ==> n - 256 <= t <= n + 256)
  {}

  /** k / 10 as a significand with last bit p, and the remainder r that rounding drops. */
  lemma Decomposed(k: nat) returns (s: nat, p: nat, g: nat, r: int, x: int)
    requires k > 0 && k * TENTH < TWO61
    ensures s == Exponent(k * TWO56, 10) && p == Pow2(s) == LastBit(k) && s <= 35 && p <= 0x8_0000_0000
    ensures 10 * p <= 16 * k < 20 * p && g == Pow2(35 - s) && g * p == 0x8_0000_0000
    ensures Times(r, p, x) && Seconds(k) * 1_000_000_000 == TENTH * (k * TWO56 - x)
    ensures (LastDecimal(k) == 4 <==> r == 4) && (LastDecimal(k) == 6 <==> r == -4)
  {
    s := Exponent(k * TWO56, 10);
    p := Pow2(s);
    LastBitBounds(k, s, p);
    g := LastBitDivides(s, p);
    var a := Scaled(k, g, p);
    QuotientIs(k * TWO56, p, a);
    var m;
    m, r := LastDigit(a);
    TimesLastBit(a, m, r, p);
    SecondsValue(k, s, p, m, r);
    x := r * p;
    DigitIs(a, m, r);
  }

  lemma LowerCase(k: nat, s: nat, p: nat, g: nat, r: int, x: int, v: nat)
    requires k > 0 && p == Pow2(s) && p <= 0x8_0000_0000 && 10 * p <= 16 * k < 20 * p && g * p == 0x8_0000_0000
    requires Times(r, p, x) && k * TENTH < TWO26 * p && v == Seconds(k) * 1_000_000_000 && v == TENTH * (k * TWO56 - x)
    ensures LoadedNanos(k) == k * TENTH <==> !(r == 4 || (r == -4 && p >= TWO27))
    ensures r == 4 && p <= TWO27 ==> LoadedNanos(k) == k * TENTH - 1
    ensures k * TENTH - 256 <= LoadedNanos(k) <= k * TENTH + 256
  {
    var u := TWO29 * p;
    var q := WholeUnits(k, g, p);
    LoadedInLowerBinade(k, s, p, u, q, r, x, v);
    Truncated(k * TENTH, p, u, Moved(r));
  }

  lemma UpperCase(k: nat, s: nat, p: nat, g: nat, r: int, x: int, v: nat)
    requires k > 0 && k * TENTH < TWO61 && p == Pow2(s) && p <= 0x8_0000_0000 && 10 * p <= 16 * k < 20 * p
    requires s <= 35 && g == Pow2(35 - s) && g * p == 0x8_0000_0000
    requires Times(r, p, x) && k * TENTH >= TWO26 * p && v == Seconds(k) * 1_000_000_000 && v == TENTH * (k * TWO56 - x)
    ensures LoadedNanos(k) == k * TENTH
  {
    UpperIsEven(s, p, g);
    var q := WholeDoubleUnits(k, g / 2, p);
    LoadedInUpperBinade(k, s, p, TWO30 * p, q, r, x, v);
  }

  lemma BothCases(k: nat) returns (p: nat, r: int)
    requires k > 0 && k * TENTH < TWO61
    ensures p == LastBit(k) && (LastDecimal(k) == 4 <==> r == 4) && (LastDecimal(k) == 6 <==> r == -4)
    ensures k * TENTH < TWO26 * p ==> (LoadedNanos(k) == k * TENTH <==> !(r == 4 || (r == -4 && p >= TWO27)))
    ensures k * TENTH < TWO26 * p && r == 4 && p <= TWO27 ==> LoadedNanos(k) == k * TENTH - 1
    ensures k * TENTH >= TWO26 * p ==> LoadedNanos(k) == k * TENTH
    ensures k * TENTH - 256 <= LoadedNanos(k) <= k * TENTH + 256
  {
    var s, g, x;
    s, p, g, r, x := Decomposed(k);
    var v := Seconds(k) * 1_000_000_000;
    if k * TENTH < TWO26 * p {
      LowerCase(k, s, p, g, r, x, v);
    } else {
      UpperCase(k, s, p, g, r, x, v);
    }
  }

  /** Reading k tenths of a second gives k tenths of a second exactly when k does not slip: for every timeout
      below 2^61 nanoseconds, beyond which whole tenths are no longer binary64 numbers themselves. */
  lemma LoadedExactIff(k: nat)
    requires k > 0 && k * TENTH < TWO61
    ensures LoadedNanos(k) == k * TENTH <==> !Slips(k)
    ensures Slips(k) && LastBit(k) < TWO27 ==> LoadedNanos(k) == k * TENTH - 1
  {
    var p, r := BothCases(k);
  }

  lemma LoadedBound(k: nat)
    requires k > 0 && k * TENTH < TWO61
    ensures k * TENTH - 256 <= LoadedNanos(k) <= k * TENTH + 256
  {
    var p, r := BothCases(k);
  }

  lemma DigitIs(a: nat, m: nat, r: int)
    requires a == 10 * m + r && -4 <= r <= 4
    ensures (a % 10 == 4 <==> r == 4) && (a % 10 == 6 <==> r == -4)
  {}

  lemma UpperIsEven(s: nat, p: nat, g: nat)
    requires s <= 35 && p == Pow2(s) && g == Pow2(35 - s) && TWO26 * p < TWO61 && g * p == 0x8_0000_0000
    ensures g % 2 == 0 && 2 * (g / 2) * p == 0x8_0000_0000
  {
    if s == 35 { Pow2Values(); assert false; }
  }

  lemma LastBitOf41(s: nat)
    requires s == Exponent(41 * TWO56, 10)
    ensures Pow2(s) == 64
  {
    LastBitBounds(41, s, Pow2(s));
    assert Pow2(6) == 64;
    if s < 6 { Pow2Grows(s, 6); }
    if s > 6 { Pow2Grows(6, s); }
  }

  lemma DecimalOf41(p: nat)
    requires p == 64
    ensures 41 * TWO56 / p % 10 == 4 && 41 * TENTH < TWO26 * p
  {
    QuotientIs(41 * TWO56, p, 0xA4_0000_0000_0000);
  }

  /** 4.1 seconds are read as one nanosecond less. */
  lemma FourPointOneSlips()
    ensures Slips(41) && LoadedNanos(41) == 4_099_999_999
  {
    LastBitOf41(Exponent(41 * TWO56, 10));
    DecimalOf41(LastBit(41));
    LoadedExactIff(41);
  }
}
