/**
 * The two pure checks inside the mutations of crm/schema.py: the phone number
 * pattern `^(\+?\d{7,15}|\d{3}-\d{3}-\d{4})$` and the quantisation of a price to
 * two decimal places.
 */
module Validation {
  import opened Text

  // ---------------------------------------------------------------------------
  // Phone numbers

  /** `\+?\d{7,15}`: an optional plus sign, then seven to fifteen digits. */
  predicate IsInternationalNumber(s: string) {
    var digits := if |s| > 0 && s[0] == '+' then s[1..] else s;
    7 <= |digits| <= 15 && AllDigits(digits)
  }

  /** `\d{3}-\d{3}-\d{4}`. */
  predicate IsDashedNumber(s: string) {
    && |s| == 12
    && s[3] == '-' && s[7] == '-'
    && AllDigits(s[..3]) && AllDigits(s[4..7]) && AllDigits(s[8..])
  }

  /**
   * The phone check of `CreateCustomer`, anchored at both ends: it accepts
   * exactly the strings of the pattern's language.
   */
  predicate IsValidPhone(s: string)
    ensures IsValidPhone(s) <==> MatchesPhonePattern(s)
  {
    PhoneCheckMatchesPattern(s);
    IsInternationalNumber(s) || IsDashedNumber(s)
  }

  /** A run of between `lo` and `hi` digits: the language of `\d{lo,hi}`. */
  ghost predicate DigitRun(d: string, lo: nat, hi: nat) {
    lo <= |d| <= hi && AllDigits(d)
  }

  /**
   * The language of the pattern, written as the union of its two alternatives,
   * each a concatenation of the pieces the pattern names.
   */
  ghost predicate MatchesPhonePattern(s: string) {
    || (exists d :: DigitRun(d, 7, 15) && (s == d || s == "+" + d))
    || (exists a, b, c :: DigitRun(a, 3, 3) && DigitRun(b, 3, 3) && DigitRun(c, 4, 4)
                          && s == a + "-" + b + "-" + c)
  }

  /** The two alternatives, checked directly, accept exactly the strings the pattern matches. */
  lemma PhoneCheckMatchesPattern(s: string)
    ensures IsInternationalNumber(s) <==> exists d :: DigitRun(d, 7, 15) && (s == d || s == "+" + d)
    ensures IsDashedNumber(s) <==>
      (exists a, b, c :: DigitRun(a, 3, 3) && DigitRun(b, 3, 3) && DigitRun(c, 4, 4)
                         && s == a + "-" + b + "-" + c)
    ensures IsInternationalNumber(s) || IsDashedNumber(s) <==> MatchesPhonePattern(s)
  {
    if IsInternationalNumber(s) {
      var d := if |s| > 0 && s[0] == '+' then s[1..] else s;
      assert DigitRun(d, 7, 15);
      if |s| > 0 && s[0] == '+' {
        assert s == "+" + d;
      }
    }
    if IsDashedNumber(s) {
      assert DigitRun(s[..3], 3, 3) && DigitRun(s[4..7], 3, 3) && DigitRun(s[8..], 4, 4);
      assert s == s[..3] + "-" + s[4..7] + "-" + s[8..];
    }
    if MatchesPhonePattern(s) {
      if d :| DigitRun(d, 7, 15) && (s == d || s == "+" + d) {
        if s == d {
          assert IsDigit(s[0]);
        } else {
          assert s[1..] == d;
        }
        assert IsInternationalNumber(s);
      } else {
        var a, b, c :| DigitRun(a, 3, 3) && DigitRun(b, 3, 3) && DigitRun(c, 4, 4)
                       && s == a + "-" + b + "-" + c;
        assert s[..3] == a && s[4..7] == b && s[8..] == c;
        assert IsDashedNumber(s);
      }
    }
  }

  /** Every accepted phone number fits the 20-character phone column. */
  lemma ValidPhoneLength(s: string)
    requires IsValidPhone(s)
    ensures 7 <= |s| <= 16
  {
  }

  // ---------------------------------------------------------------------------
  // Prices

  /**
   * A decimal number `coefficient * 10^-places`, as `Decimal(str(price))` holds
   * it. A number with a positive exponent is written with `places == 0` and the
   * zeros folded into the coefficient; that is the same value.
   */
  datatype DecimalValue = DecimalValue(coefficient: int, places: nat)

  function Pow10(n: nat): (r: nat)
    ensures r >= 1
  {
    if n == 0 then 1 else 10 * Pow10(n - 1)
  }

  lemma {:induction false} Pow10Add(a: nat, b: nat)
    ensures Pow10(a + b) == Pow10(a) * Pow10(b)
  {
    if a > 0 {
      Pow10Add(a - 1, b);
      assert Pow10(a + b) == 10 * Pow10(a - 1 + b);
    }
  }

  function Abs(x: int): nat {
    if x < 0 then -x else x
  }

  /**
   * The distance, scaled by `100 * 10^places`, between the decimal `d` and the
   * amount of `cents` hundredths.
   */
  function CentsError(d: DecimalValue, cents: int): nat {
    Abs(d.coefficient * 100 - cents * Pow10(d.places))
  }

  /**
   * `Decimal(...).quantize(Decimal("0.01"))` under the default decimal context:
   * the nearest number of cents, ties going to the even neighbour
   * (ROUND_HALF_EVEN).
   */
  function Quantize(d: DecimalValue): (cents: int)
    ensures 2 * CentsError(d, cents) <= Pow10(d.places)
    ensures 2 * CentsError(d, cents) == Pow10(d.places) ==> cents % 2 == 0
  {
    if d.places <= 2 then
      var cents := d.coefficient * Pow10(2 - d.places);
      ScaledCentsExact(d, cents);
      cents
    else
      var unit := Pow10(d.places - 2);
      var q := d.coefficient / unit;
      var rem := d.coefficient % unit;
      var cents := if 2 * rem > unit then q + 1
                   else if 2 * rem < unit then q
                   else if q % 2 == 0 then q else q + 1;
      RoundedCentsError(d, q, rem, cents);
      cents
  }

  /** With at most two decimal places, scaling up to cents is exact. */
  lemma ScaledCentsExact(d: DecimalValue, cents: int)
    requires d.places <= 2 && cents == d.coefficient * Pow10(2 - d.places)
    ensures CentsError(d, cents) == 0
  {
    Pow10Add(2 - d.places, d.places);
    assert Pow10(2) == 100;
    calc {
      cents * Pow10(d.places);
      d.coefficient * (Pow10(2 - d.places) * Pow10(d.places));
      d.coefficient * 100;
    }
  }

  /**
   * With more than two decimal places, rounding the quotient by one cent's
   * worth of units leaves at most half a cent, and exactly half only when the
   * remainder is half a cent.
   */
  lemma RoundedCentsError(d: DecimalValue, q: int, rem: int, cents: int)
    requires d.places > 2
    requires d.coefficient == q * Pow10(d.places - 2) + rem && 0 <= rem < Pow10(d.places - 2)
    requires cents == q || cents == q + 1
    requires 2 * rem > Pow10(d.places - 2) ==> cents == q + 1
    requires 2 * rem < Pow10(d.places - 2) ==> cents == q
    ensures 2 * CentsError(d, cents) <= Pow10(d.places)
    ensures 2 * CentsError(d, cents) == Pow10(d.places) ==> 2 * rem == Pow10(d.places - 2)
  {
    var unit := Pow10(d.places - 2);
    Pow10Add(2, d.places - 2);
    assert Pow10(2) == 100;
    assert Pow10(d.places) == 100 * unit;
    RoundingError(d.coefficient, unit, q, rem, cents);
  }

  /** The rounding step of Quantize, on integers: `unit` hundredths make one cent. */
  lemma RoundingError(coefficient: int, unit: nat, q: int, rem: int, cents: int)
    requires unit >= 1 && coefficient == q * unit + rem && 0 <= rem < unit
    requires cents == q || cents == q + 1
    requires 2 * rem > unit ==> cents == q + 1
    requires 2 * rem < unit ==> cents == q
    ensures 2 * Abs(coefficient * 100 - cents * (100 * unit)) <= 100 * unit
    ensures cents == q ==> coefficient * 100 - cents * (100 * unit) == 100 * rem
    ensures cents == q + 1 ==> coefficient * 100 - cents * (100 * unit) == 100 * (rem - unit)
  {
    if cents == q {
      assert coefficient * 100 - cents * (100 * unit) == 100 * rem;
    } else {
      assert coefficient * 100 - cents * (100 * unit) == 100 * (rem - unit);
    }
  }

  /**
   * Nearest-with-ties-to-even determines the cents completely: Quantize's
   * contract is the whole specification of the rounding.
   */
  lemma QuantizeUnique(d: DecimalValue, cents: int)
    requires 2 * CentsError(d, cents) <= Pow10(d.places)
    requires 2 * CentsError(d, cents) == Pow10(d.places) ==> cents % 2 == 0
    ensures cents == Quantize(d)
  {
    NearestEvenUnique(d.coefficient * 100, Pow10(d.places), cents, Quantize(d));
  }

  /** Two multiples of `unit` both nearest to `x`, ties to even, are the same. */
  lemma NearestEvenUnique(x: int, unit: nat, c1: int, c2: int)
    requires unit >= 1
    requires 2 * Abs(x - c1 * unit) <= unit && 2 * Abs(x - c2 * unit) <= unit
    requires 2 * Abs(x - c1 * unit) == unit ==> c1 % 2 == 0
    requires 2 * Abs(x - c2 * unit) == unit ==> c2 % 2 == 0
    ensures c1 == c2
  {
    assert (x - c2 * unit) - (x - c1 * unit) == (c1 - c2) * unit;
    ScaledGap(c1 - c2, unit);
    if c1 != c2 {
      assert false;
    }
  }

  lemma ScaledGap(g: int, unit: nat)
    requires unit >= 1
    ensures g >= 2 ==> g * unit >= 2 * unit
    ensures g <= -2 ==> g * unit <= -2 * unit
    ensures g == 1 ==> g * unit == unit
    ensures g == -1 ==> g * unit + unit == 0
  {
    if g >= 2 {
      assert g * unit == 2 * unit + (g - 2) * unit;
    } else if g <= -2 {
      assert g * unit == -2 * unit - (-g - 2) * unit;
    }
  }

  /** Amounts already in whole cents are kept exactly. */
  lemma QuantizeWholeCents(c: int)
    ensures Quantize(DecimalValue(c, 2)) == c
  {
  }
}
