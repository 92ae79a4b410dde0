/** strconv.Itoa and strconv.Atoi for 64-bit integers, and numbers with one decimal. */
module Decimals {
  import opened Basics

  predicate IsDigit(c: char) { '0' <= c <= '9' }

  function DigitChar(d: nat): char
    requires d < 10
  {
    ('0' as int + d) as char
  }

  function Digits(n: nat): (s: string)
    ensures s != ""
  {
    if n < 10 then [DigitChar(n)] else Digits(n / 10) + [DigitChar(n % 10)]
  }

  /** The number a non-empty string of digits denotes. */
  function ParseDigits(s: string): Option<nat> {
    if s == "" || !IsDigit(s[|s| - 1]) then None
    else
      var d := (s[|s| - 1] as int - '0' as int) as nat;
      if |s| == 1 then Some(d)
      else match ParseDigits(s[..|s| - 1])
        case None => None
        case Some(n) => Some(10 * n + d)
  }

  lemma {:induction false} DigitsRoundTrip(n: nat)
    ensures ParseDigits(Digits(n)) == Some(n) && IsDigit(Digits(n)[0])
  {
    if n >= 10 {
      DigitsRoundTrip(n / 10);
      var s := Digits(n / 10) + [DigitChar(n % 10)];
      assert s[..|s| - 1] == Digits(n / 10);
    }
  }

  const MAX64: int := 0x7FFF_FFFF_FFFF_FFFF

  predicate InRange(n: int) { -MAX64 - 1 <= n <= MAX64 }

  function Itoa(n: int): (s: string)
    ensures s != ""
  {
    if n < 0 then "-" + Digits(-n) else Digits(n)
  }

  function Atoi(s: string): Option<int> {
    var negative := s != "" && s[0] == '-';
    var digits := if s != "" && (s[0] == '-' || s[0] == '+') then s[1..] else s;
    Checked(ParseDigits(digits), negative)
  }

  lemma AtoiInvertsItoa(n: int)
    requires InRange(n)
    ensures Atoi(Itoa(n)) == Some(n)
  {
    if n < 0 {
      DigitsRoundTrip(-n);
      NegativeText(Digits(-n));
    } else {
      DigitsRoundTrip(n);
      PositiveText(Digits(n));
    }
  }

  function Checked(n: Option<nat>, negative: bool): Option<int> {
    if n.None? then None
    else
      var value: int := if negative then -(n.value as int) else n.value;
      if InRange(value) then Some(value) else None
  }

  lemma NegativeText(digits: string)
    ensures Atoi("-" + digits) == Checked(ParseDigits(digits), true)
  {
    assert ("-" + digits)[1..] == digits;
  }

  lemma PositiveText(digits: string)
    requires digits != "" && IsDigit(digits[0])
    ensures Atoi(digits) == Checked(ParseDigits(digits), false)
  {}

  predicate AllDigits(s: string) { s != "" && forall i :: 0 <= i < |s| ==> IsDigit(s[i]) }

  /** A text denotes a number exactly when it consists of digits. */
  lemma {:induction false} ParseDigitsIff(s: string)
    ensures ParseDigits(s).Some? <==> AllDigits(s)
  {
    if |s| > 1 {
      ParseDigitsIff(s[..|s| - 1]);
      assert AllDigits(s) <==> AllDigits(s[..|s| - 1]) && IsDigit(s[|s| - 1]);
    }
  }

  /** Zeros in front do not change it. */
  lemma {:induction false} LeadingZero(s: string)
    requires AllDigits(s)
    ensures ParseDigits("0" + s) == ParseDigits(s)
  {
    var z := "0" + s;
    assert z[|z| - 1] == s[|s| - 1];
    if |s| > 1 {
      assert z[..|z| - 1] == "0" + s[..|s| - 1];
      LeadingZero(s[..|s| - 1]);
    } else {
      assert z[..1] == "0";
      assert ParseDigits("0") == Some(0);
    }
    ParseDigitsIff(s);
  }

  /** The digits behind an optional sign. */
  function Unsigned(s: string): string {
    if s != "" && (s[0] == '-' || s[0] == '+') then s[1..] else s
  }

  function SignedValue(s: string): int {
    match ParseDigits(Unsigned(s))
    case None => 0
    case Some(n) => if s[0] == '-' then -(n as int) else n
  }

  /** Atoi accepts exactly an optional sign and digits that denote a 64-bit number, which a minus negates. */
  lemma AtoiIff(s: string)
    ensures Atoi(s) == if AllDigits(Unsigned(s)) && InRange(SignedValue(s)) then Some(SignedValue(s)) else None
  {
    ParseDigitsIff(Unsigned(s));
  }

  // ---------------------------------------------------------------- one decimal

  /** FormatFloat(x, 'f', 1, 64) for x = k / 10. */
  function TenthsText(k: nat): string { Digits(k / 10) + "." + [DigitChar(k % 10)] }

  /** The number of tenths that a text of digits with one decimal denotes. */
  function ParseTenths(s: string): Option<nat> {
    if |s| < 3 || s[|s| - 2] != '.' || !IsDigit(s[|s| - 1]) then None
    else match ParseDigits(s[..|s| - 2])
      case None => None
      case Some(n) => Some(10 * n + (s[|s| - 1] as int - '0' as int) as nat)
  }

  lemma TenthsRoundTrip(k: nat)
    ensures ParseTenths(TenthsText(k)) == Some(k)
  {
    DigitsRoundTrip(k / 10);
    var s := TenthsText(k);
    assert s[..|s| - 2] == Digits(k / 10);
  }
}
