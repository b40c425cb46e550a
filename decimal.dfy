/**
 * Decimal text for integers: the rendering of Rust's `Display` for integers
 * and the parser behind `str::parse::<i64>()` / `str::parse::<u64>()`.
 */
module Decimal {
  import opened Wrappers
  import opened Bits

  const U64_MAX: int := 0xFFFF_FFFF_FFFF_FFFF

  predicate IsDigit(c: char) {
    '0' <= c <= '9'
  }

  predicate AllDigits(s: string) {
    forall i :: 0 <= i < |s| ==> IsDigit(s[i])
  }

  function DigitChar(d: nat): (c: char)
    requires d < 10
    ensures IsDigit(c) && DigitValue(c) == d
  {
    "0123456789"[d]
  }

  function DigitValue(c: char): (d: nat)
    requires IsDigit(c)
    ensures d < 10
  {
    (c as int) - ('0' as int)
  }

  /** The value of a digit string read left to right, starting from `acc`. */
  function FoldDigits(s: string, acc: nat): nat
    requires AllDigits(s)
  {
    if s == [] then acc else FoldDigits(s[1..], 10 * acc + DigitValue(s[0]))
  }

  /** Decimal digits of `n`, most significant first, without leading zeros. */
  function Digits(n: nat): (s: string)
    ensures |s| >= 1 && AllDigits(s)
    ensures s[0] == '0' <==> n == 0
    ensures n == 0 ==> s == "0"
  {
    if n < 10 then [DigitChar(n)] else Digits(n / 10) + [DigitChar(n % 10)]
  }

  /** `Display` of a signed integer: a minus sign, then the digits of the magnitude. */
  function FormatInt(x: int): (s: string)
    ensures |s| >= 1
  {
    if x < 0 then "-" + Digits(-x) else Digits(x)
  }

  lemma {:induction false} FoldDigitsAppend(a: string, b: string, acc: nat)
    requires AllDigits(a) && AllDigits(b)
    ensures AllDigits(a + b)
    ensures FoldDigits(a + b, acc) == FoldDigits(b, FoldDigits(a, acc))
  {
    if a == [] {
      assert a + b == b;
    } else {
      assert (a + b)[1..] == a[1..] + b;
      FoldDigitsAppend(a[1..], b, 10 * acc + DigitValue(a[0]));
    }
  }

  /** Reading back the digits of `n` gives `n`. */
  lemma {:induction false} DigitsRoundTrip(n: nat)
    ensures FoldDigits(Digits(n), 0) == n
  {
    if n >= 10 {
      DigitsRoundTrip(n / 10);
      FoldDigitsAppend(Digits(n / 10), [DigitChar(n % 10)], 0);
    }
  }

  lemma {:induction false} FoldDigitsGrows(s: string, acc: nat)
    requires AllDigits(s)
    ensures FoldDigits(s, acc) >= acc
  {
    if s != [] {
      FoldDigitsGrows(s[1..], 10 * acc + DigitValue(s[0]));
    }
  }

  datatype ParseIntError = Empty | InvalidDigit | PosOverflow | NegOverflow

  /**
   * The digit loop of integer parsing: each character must be a digit, and
   * the running value `acc * 10 + sign * digit` must stay within [lo, hi].
   */
  function Accumulate(s: string, acc: int, sign: int, lo: int, hi: int): Result<int, ParseIntError>
    requires sign == 1 || sign == -1
  {
    if s == [] then Ok(acc)
    else if !IsDigit(s[0]) then Err(InvalidDigit)
    else
      var next := 10 * acc + sign * DigitValue(s[0]);
      if next > hi then Err(PosOverflow)
      else if next < lo then Err(NegOverflow)
      else Accumulate(s[1..], next, sign, lo, hi)
  }

  /**
   * `str::parse` for an integer type with range [lo, hi]: an empty string is
   * an error, a lone sign is an error, a leading `+` is skipped, a leading `-`
   * is skipped only for signed types, then every remaining character must be
   * a digit and the value must fit.
   */
  function ParseInt(s: string, signed: bool, lo: int, hi: int): Result<int, ParseIntError> {
    if s == [] then Err(Empty)
    else if (s[0] == '+' || s[0] == '-') && |s| == 1 then Err(InvalidDigit)
    else if s[0] == '+' then Accumulate(s[1..], 0, 1, lo, hi)
    else if s[0] == '-' && signed then Accumulate(s[1..], 0, -1, lo, hi)
    else Accumulate(s, 0, 1, lo, hi)
  }

  function ParseI64(s: string): Result<int, ParseIntError> {
    ParseInt(s, true, I64_MIN, I64_MAX)
  }

  function ParseU64(s: string): Result<int, ParseIntError> {
    ParseInt(s, false, 0, U64_MAX)
  }

  /** Reference reading of integer text: an optional sign and at least one digit. */
  predicate WellFormed(s: string, signed: bool) {
    || (|s| >= 2 && s[0] == '+' && AllDigits(s[1..]))
    || (signed && |s| >= 2 && s[0] == '-' && AllDigits(s[1..]))
    || (|s| >= 1 && AllDigits(s))
  }

  function TextValue(s: string, signed: bool): int
    requires WellFormed(s, signed)
  {
    if s[0] == '+' then FoldDigits(s[1..], 0)
    else if s[0] == '-' then 0 - FoldDigits(s[1..], 0)
    else FoldDigits(s, 0)
  }

  lemma AllDigitsTail(s: string)
    requires s != [] && IsDigit(s[0])
    ensures AllDigits(s) <==> AllDigits(s[1..])
  {
    if AllDigits(s[1..]) {
      forall i | 0 <= i < |s| ensures IsDigit(s[i]) {
        if i > 0 { assert s[i] == s[1..][i - 1]; }
      }
    }
  }

  /** The digit loop for a non-negative value. */
  lemma {:induction false} AccumulateUp(s: string, acc: nat, lo: int, hi: int)
    requires lo <= acc <= hi
    ensures Accumulate(s, acc, 1, lo, hi).Ok? <==> AllDigits(s) && FoldDigits(s, acc) <= hi
    ensures Accumulate(s, acc, 1, lo, hi).Ok? ==> Accumulate(s, acc, 1, lo, hi).value == FoldDigits(s, acc)
  {
    if s != [] && IsDigit(s[0]) {
      var next := 10 * acc + DigitValue(s[0]);
      AllDigitsTail(s);
      if next > hi {
        if AllDigits(s) {
          FoldDigitsGrows(s[1..], next);
        }
      } else {
        AccumulateUp(s[1..], next, lo, hi);
      }
    } else if s != [] {
      assert !AllDigits(s);
    }
  }

  /** The digit loop for a value of a negative number, built downwards. */
  lemma {:induction false} AccumulateDown(s: string, acc: int, lo: int, hi: int)
    requires lo <= acc <= hi && acc <= 0
    ensures Accumulate(s, acc, -1, lo, hi).Ok? <==> AllDigits(s) && lo <= 0 - FoldDigits(s, -acc)
    ensures Accumulate(s, acc, -1, lo, hi).Ok? ==> Accumulate(s, acc, -1, lo, hi).value == 0 - FoldDigits(s, -acc)
  {
    if s != [] && IsDigit(s[0]) {
      var next := 10 * acc - DigitValue(s[0]);
      AllDigitsTail(s);
      assert -next == 10 * (-acc) + DigitValue(s[0]);
      if next < lo {
        if AllDigits(s) {
          FoldDigitsGrows(s[1..], -next);
        }
      } else {
        AccumulateDown(s[1..], next, lo, hi);
      }
    } else if s != [] {
      assert !AllDigits(s);
    }
  }

  lemma AccumulateSpec(s: string, acc: int, sign: int, lo: int, hi: int)
    requires sign == 1 || sign == -1
    requires lo <= acc <= hi && sign * acc >= 0
    ensures Accumulate(s, acc, sign, lo, hi).Ok? <==>
              AllDigits(s) && lo <= sign * FoldDigits(s, sign * acc) <= hi
    ensures Accumulate(s, acc, sign, lo, hi).Ok? ==>
              Accumulate(s, acc, sign, lo, hi).value == sign * FoldDigits(s, sign * acc)
  {
    if sign == 1 {
      AccumulateUp(s, acc, lo, hi);
      if AllDigits(s) {
        FoldDigitsGrows(s, acc);
      }
    } else {
      AccumulateDown(s, acc, lo, hi);
      if AllDigits(s) {
        FoldDigitsGrows(s, -acc);
      }
    }
  }

  /** Parsing succeeds exactly on well-formed text whose value fits, and yields that value. */
  lemma ParseIntSpec(s: string, signed: bool, lo: int, hi: int)
    requires lo <= 0 <= hi
    ensures ParseInt(s, signed, lo, hi).Ok? <==> WellFormed(s, signed) && lo <= TextValue(s, signed) <= hi
    ensures ParseInt(s, signed, lo, hi).Ok? ==> ParseInt(s, signed, lo, hi).value == TextValue(s, signed)
  {
    if s != [] {
      if s[0] == '+' || (s[0] == '-' && signed) {
        if |s| > 1 {
          AccumulateSpec(s[1..], 0, if s[0] == '+' then 1 else -1, lo, hi);
        }
      } else {
        AccumulateSpec(s, 0, 1, lo, hi);
        assert !IsDigit(s[0]) ==> !AllDigits(s);
      }
    }
  }

  /** Any value of a signed type survives a round trip through its decimal text. */
  lemma FormatParse(x: int, lo: int, hi: int)
    requires lo <= 0 <= hi && lo <= x <= hi
    ensures ParseInt(FormatInt(x), true, lo, hi) == Ok(x)
  {
    var s := FormatInt(x);
    ParseIntSpec(s, true, lo, hi);
    if x < 0 {
      var m: nat := 0 - x;
      DigitsRoundTrip(m);
      assert s[0] == '-' && s[1..] == Digits(m);
      assert WellFormed(s, true) && TextValue(s, true) == x;
    } else {
      DigitsRoundTrip(x);
      var d := Digits(x);
      assert IsDigit(d[0]);
      assert WellFormed(s, true) && TextValue(s, true) == x;
    }
  }

  /** Every i64 survives a round trip through its decimal text. */
  lemma FormatParseI64(x: I64)
    ensures ParseI64(FormatInt(x)) == Ok(x)
  {
    FormatParse(x, I64_MIN, I64_MAX);
  }

  /** Every u64 survives a round trip through its digits. */
  lemma FormatParseU64(x: U64)
    ensures ParseU64(Digits(x)) == Ok(x)
  {
    var s := Digits(x);
    ParseIntSpec(s, false, 0, U64_MAX);
    DigitsRoundTrip(x);
  }
}
