/** Memory sizes on the command line: a decimal number of bytes, or of units of 2^10, 2^20 or 2^30. */
module MemoryOptions {

  import opened Options

  const SIZE_MAX: nat := 0xFFFF_FFFF_FFFF_FFFF
  const KB: nat := 0x400
  const MB: nat := 0x10_0000
  const GB: nat := 0x4000_0000
  const CLAMPED: nat := 0xFFFF_FFFF_FFFF_FC00

  predicate IsDigit(c: char) {
    '0' <= c <= '9'
  }

  /** How many digits the text begins with. */
  function DigitCount(s: string): (n: nat)
    ensures n <= |s| && forall i :: 0 <= i < n ==> IsDigit(s[i])
    ensures n < |s| ==> !IsDigit(s[n])
  {
    if s == "" || !IsDigit(s[0]) then 0 else 1 + DigitCount(s[1..])
  }

  function DigitValue(c: char): nat
    requires IsDigit(c)
  {
    c as int - '0' as int
  }

  /** The number that digits stand for, however large. */
  function Decimal(digits: string): nat
    requires forall i :: 0 <= i < |digits| ==> IsDigit(digits[i])
  {
    if digits == "" then 0
    else 10 * Decimal(digits[..|digits| - 1]) + DigitValue(digits[|digits| - 1])
  }

  function Number(s: string): nat {
    Decimal(s[..DigitCount(s)])
  }

  function Min(a: nat, b: nat): nat {
    if a <= b then a else b
  }

  function Unit(c: char): Option<nat> {
    if c in "kK" then Some(KB) else if c in "mM" then Some(MB) else if c in "gG" then Some(GB) else None
  }

  /** Digits, and nothing or one unit behind them. */
  predicate IsBytes(s: string) {
    0 < DigitCount(s) == |s|
  }

  predicate IsUnits(s: string) {
    0 < DigitCount(s) == |s| - 1 && Unit(s[|s| - 1]).Some?
  }

  /** The size in bytes as far as it can be represented: too many units become the largest multiple of 1024. */
  function Size(s: string): nat {
    if IsBytes(s) then Min(Number(s), SIZE_MAX)
    else if !IsUnits(s) then 0
    else
      var bytes := Number(s) * Unit(s[|s| - 1]).value;
      if bytes <= SIZE_MAX then bytes else CLAMPED
  }

  /** Reads the number, which saturates, and scales it by the unit unless that would overflow. */
  method ParseMemoryOption(s: string, div: nat) returns (size: nat)
    requires 0 < div <= SIZE_MAX
    ensures size == if Size(s) % div == 0 then Size(s) else 0
  {
    if s == "" || !IsDigit(s[0]) {
      return 0;
    }
    var s2 := DigitCount(s);
    var val := Min(Number(s), SIZE_MAX);
    if s2 < |s| {
      var c := s[s2];
      if s2 + 1 != |s| {
        return 0;
      }
      var mul;
      if c == 'k' || c == 'K' {
        mul := KB;
      } else if c == 'm' || c == 'M' {
        mul := MB;
      } else if c == 'g' || c == 'G' {
        mul := GB;
      } else {
        return 0;
      }
      Scaling(Number(s), mul);
      if val <= SIZE_MAX / mul {
        val := val * mul;
      } else {
        val := CLAMPED;
      }
    }
    if val % div == 0 {
      return val;
    }
    return 0;
  }

  /** The test against the quotient finds exactly the products that do not fit, also after saturation. */
  lemma Scaling(n: nat, mul: nat)
    requires mul == KB || mul == MB || mul == GB
    ensures Min(n, SIZE_MAX) <= SIZE_MAX / mul <==> n * mul <= SIZE_MAX
    ensures n * mul <= SIZE_MAX ==> Min(n, SIZE_MAX) == n
  {
  }

  /** With a divisor of 1024, a number of units is never refused and never too large. */
  lemma UnitsAlwaysFit(s: string)
    requires IsUnits(s)
    ensures Size(s) == Min(Number(s) * Unit(s[|s| - 1]).value, CLAMPED) && Size(s) % KB == 0
  {
    var n, mul := Number(s), Unit(s[|s| - 1]).value;
    Multiples(n, mul);
  }

  lemma Multiples(n: nat, mul: nat)
    requires mul == KB || mul == MB || mul == GB
    ensures n * mul % KB == 0
    ensures n * mul <= SIZE_MAX ==> n * mul <= CLAMPED
  {
    if mul == MB {
      assert n * mul == n * 0x400 * KB;
    } else if mul == GB {
      assert n * mul == n * 0x10_0000 * KB;
    }
  }

  /** A number in decimal digits. */
  function Digits(n: nat): (r: string)
    ensures r != "" && forall i :: 0 <= i < |r| ==> IsDigit(r[i])
  {
    if n < 10 then ["0123456789"[n]] else Digits(n / 10) + ["0123456789"[n % 10]]
  }

  /** Digits stand for the number they are the digits of. */
  lemma {:induction false} DecimalOfDigits(n: nat)
    ensures Decimal(Digits(n)) == n
  {
    if n >= 10 {
      var r := Digits(n);
      DecimalOfDigits(n / 10);
      assert r[..|r| - 1] == Digits(n / 10);
    } else {
      assert Digits(n)[..0] == "";
    }
  }

  /** Zeros in front do not matter. */
  lemma {:induction false} LeadingZero(digits: string)
    requires forall i :: 0 <= i < |digits| ==> IsDigit(digits[i])
    ensures Decimal("0" + digits) == Decimal(digits)
  {
    if digits != "" {
      LeadingZero(digits[..|digits| - 1]);
      assert ("0" + digits)[..|digits|] == "0" + digits[..|digits| - 1];
    } else {
      assert ("0" + digits)[..0] == "";
    }
  }

  lemma {:induction false} CountsDigits(digits: string, more: string)
    requires forall i :: 0 <= i < |digits| ==> IsDigit(digits[i])
    requires more == "" || !IsDigit(more[0])
    ensures DigitCount(digits + more) == |digits|
  {
    if digits == "" {
      assert digits + more == more;
    } else {
      CountsDigits(digits[1..], more);
      assert (digits + more)[1..] == digits[1..] + more;
    }
  }

  /** The factor that a unit stands for; without one it is 1. */
  function Factor(unit: string): Option<nat> {
    if unit == "" then Some(1)
    else if unit == "k" || unit == "K" then Some(1024)
    else if unit == "m" || unit == "M" then Some(1048576)
    else if unit == "g" || unit == "G" then Some(1073741824)
    else None
  }

  /**
   A number that fits is read as itself times its unit, and a larger one as the largest size there
   is; anything else behind the digits is refused.
   */
  lemma SizeOfWritten(n: nat, unit: string)
    requires unit == "" || !IsDigit(unit[0])
    ensures Factor(unit).None? ==> Size(Digits(n) + unit) == 0
    ensures Factor(unit).Some? ==>
              Size(Digits(n) + unit) == if n * Factor(unit).value <= 0xFFFF_FFFF_FFFF_FFFF then n * Factor(unit).value
                                        else if unit == "" then 0xFFFF_FFFF_FFFF_FFFF else 0xFFFF_FFFF_FFFF_FC00
  {
    hide DigitCount, Number, Digits, Factor, Unit;
    WrittenNumber(n, unit);
    FactorOfUnit(unit);
    var s := Digits(n) + unit;
    if unit != "" {
      assert s[|Digits(n)|] == unit[0];
    }
  }

  lemma WrittenNumber(n: nat, unit: string)
    requires unit == "" || !IsDigit(unit[0])
    ensures DigitCount(Digits(n) + unit) == |Digits(n)| && Number(Digits(n) + unit) == n
  {
    CountsDigits(Digits(n), unit);
    DecimalOfDigits(n);
    assert (Digits(n) + unit)[..|Digits(n)|] == Digits(n);
  }

  lemma FactorOfUnit(unit: string)
    ensures unit == "" ==> Factor(unit) == Some(1)
    ensures |unit| == 1 ==> Factor(unit) == Unit(unit[0])
    ensures |unit| > 1 ==> Factor(unit).None?
  {
    if |unit| == 1 {
      assert unit == [unit[0]];
    }
  }

  /** Text that does not begin with a digit is refused. */
  lemma NoNumber(s: string)
    requires s == "" || !IsDigit(s[0])
    ensures Size(s) == 0
  {
  }

  /** A number of bytes is accepted as it is or refused; one that does not fit is always refused. */
  lemma BytesExactOrRefused(s: string)
    requires IsBytes(s)
    ensures Size(s) % KB == 0 <==> Number(s) <= SIZE_MAX && Number(s) % KB == 0
    ensures Size(s) % KB == 0 ==> Size(s) == Number(s)
  {
  }
}
