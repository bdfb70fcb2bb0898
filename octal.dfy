/** Octal text and Rust's `u16::from_str_radix(s, 8)`.

    The reference meaning of a digit string is ordinary positional notation
    (`OctalValue`); the parser (`FromStrRadix8`) follows the standard
    library's algorithm instead: an optional `+`, then digits folded from the
    left with checked multiplication and addition, failing on the first
    non-digit or the first overflow of the 16-bit range. */
module Octal {
  import opened Wrappers

  const U16_MAX: int := 0xFFFF

  type U16 = x: int | 0 <= x <= U16_MAX

  predicate IsOctalDigit(c: char) {
    '0' <= c <= '7'
  }

  function DigitValue(c: char): (d: nat)
    requires IsOctalDigit(c)
  {
    (c as int) - ('0' as int)
  }

  function DigitChar(d: nat): (c: char)
    requires d < 8
  {
    (('0' as int) + d) as char
  }

  predicate AllOctal(s: string) {
    forall i :: 0 <= i < |s| ==> IsOctalDigit(s[i])
  }

  function Pow8(n: nat): (p: nat)
  {
    if n == 0 then 1 else 8 * Pow8(n - 1)
  }

  /** The number that the octal digits `s` denote; the empty string denotes 0. */
  function OctalValue(s: string): (v: nat)
    requires AllOctal(s)
  {
    if s == [] then 0 else 8 * OctalValue(s[..|s| - 1]) + DigitValue(s[|s| - 1])
  }

  /** The shortest octal numeral of `n` (at least one digit). */
  function ToOctal(n: nat): (s: string)
    ensures |s| > 0 && AllOctal(s)
  {
    if n < 8 then [DigitChar(n)] else ToOctal(n / 8) + [DigitChar(n % 8)]
  }

  lemma {:induction false} Pow8Positive(n: nat)
    ensures Pow8(n) >= 1
  {
    if n > 0 { Pow8Positive(n - 1); }
  }

  /** A digit string denotes less than 8 to the power of its length. */
  lemma {:induction false} OctalValueBound(s: string)
    requires AllOctal(s)
    ensures OctalValue(s) < Pow8(|s|)
  {
    if s != [] {
      var p := s[..|s| - 1];
      OctalValueBound(p);
      assert OctalValue(s) == 8 * OctalValue(p) + DigitValue(s[|s| - 1]);
    }
  }

  /** Positional notation splits at any point:
      the value of `a + b` is `a` shifted left by `|b|` digits, plus `b`. */
  lemma {:induction false} OctalValueAppend(a: string, b: string)
    requires AllOctal(a) && AllOctal(b)
    ensures AllOctal(a + b)
    ensures OctalValue(a + b) == OctalValue(a) * Pow8(|b|) + OctalValue(b)
  {
    assert AllOctal(a + b) by {
      forall i | 0 <= i < |a + b| ensures IsOctalDigit((a + b)[i]) {
        if i < |a| { assert (a + b)[i] == a[i]; } else { assert (a + b)[i] == b[i - |a|]; }
      }
    }
    if b == [] {
      assert a + b == a;
    } else {
      var b' := b[..|b| - 1];
      var c := b[|b| - 1];
      assert (a + b)[..|a + b| - 1] == a + b';
      assert (a + b)[|a + b| - 1] == c;
      OctalValueAppend(a, b');
      var va, vb', p', d := OctalValue(a), OctalValue(b'), Pow8(|b'|), DigitValue(c);
      assert OctalValue(a + b) == 8 * OctalValue(a + b') + d;
      assert OctalValue(b) == 8 * vb' + d;
      assert Pow8(|b|) == 8 * p';
      ShiftArithmetic(va, p', vb', d);
    }
  }

  lemma {:induction false} ShiftArithmetic(va: nat, p: nat, vb: nat, d: nat)
    ensures 8 * (va * p + vb) + d == va * (8 * p) + (8 * vb + d)
  {
    assert 8 * (va * p) == va * (8 * p);
  }

  /** The leading digit contributes its value times 8 to the power of the
      number of digits after it. */
  lemma {:induction false} OctalValueFront(s: string)
    requires s != [] && AllOctal(s)
    ensures AllOctal(s[1..])
    ensures OctalValue(s) == DigitValue(s[0]) * Pow8(|s| - 1) + OctalValue(s[1..])
  {
    var head, tail := [s[0]], s[1..];
    assert s == head + tail;
    assert forall i :: 0 <= i < |tail| ==> tail[i] == s[i + 1];
    OctalValueAppend(head, tail);
    assert head[..0] == [];
    assert OctalValue(head) == DigitValue(s[0]);
  }

  /** `ToOctal` writes a numeral that denotes exactly `n`. */
  lemma {:induction false} OctalValueOfToOctal(n: nat)
    ensures OctalValue(ToOctal(n)) == n
  {
    if n < 8 {
      assert OctalValue([DigitChar(n)]) == 8 * OctalValue([]) + DigitValue(DigitChar(n));
    } else {
      var s := ToOctal(n);
      OctalValueOfToOctal(n / 8);
      assert s[..|s| - 1] == ToOctal(n / 8);
      assert s[|s| - 1] == DigitChar(n % 8);
    }
  }

  /** The standard library's digit loop, folding `digits` into `acc` from
      the left: at each digit, `acc.checked_mul(8)`, then the digit check,
      then `checked_add(digit)`. Any overflow of the 16-bit range or any
      non-digit is an error. What the fold computes is `AccumulateDenotes`. */
  function Accumulate(acc: U16, digits: string): (r: Option<U16>)
    ensures r.Some? ==> acc <= r.value
    ensures r.Some? ==> AllOctal(digits)
    decreases |digits|
  {
    if digits == [] then
      Some(acc)
    else
      var c := digits[0];
      if acc * 8 > U16_MAX then
        None
      else if !IsOctalDigit(c) then
        None
      else if acc * 8 + DigitValue(c) > U16_MAX then
        None
      else
        Accumulate(acc * 8 + DigitValue(c), digits[1..])
  }

  /** The checked left fold succeeds exactly when the digits are all octal
      and the number that the accumulator followed by the digits denotes is in
      range, and then yields that number: checking for overflow after every
      step rejects the same inputs as checking the final value once. */
  lemma {:induction false} AccumulateDenotes(acc: U16, digits: string)
    ensures Accumulate(acc, digits).Some? <==>
      AllOctal(digits) && acc * Pow8(|digits|) + OctalValue(digits) <= U16_MAX
    ensures Accumulate(acc, digits).Some? ==>
      Accumulate(acc, digits).value == acc * Pow8(|digits|) + OctalValue(digits)
    decreases |digits|
  {
    if digits != [] {
      var c := digits[0];
      if !AllOctal(digits) {
        if IsOctalDigit(c) && acc * 8 + DigitValue(c) <= U16_MAX {
          assert !AllOctal(digits[1..]) by {
            var i :| 0 <= i < |digits| && !IsOctalDigit(digits[i]);
            assert digits[1..][i - 1] == digits[i];
          }
          AccumulateDenotes(acc * 8 + DigitValue(c), digits[1..]);
        }
      } else {
        AccumulateStep(acc, digits);
        if acc * 8 + DigitValue(c) <= U16_MAX {
          AccumulateDenotes(acc * 8 + DigitValue(c), digits[1..]);
        }
      }
    }
  }

  /** Folding one more digit into the accumulator leaves the denoted total
      unchanged, and the total is at least the new accumulator. */
  lemma {:induction false} AccumulateStep(acc: nat, digits: string)
    requires digits != [] && AllOctal(digits)
    ensures AllOctal(digits[1..])
    ensures acc * Pow8(|digits|) + OctalValue(digits)
         == (acc * 8 + DigitValue(digits[0])) * Pow8(|digits| - 1) + OctalValue(digits[1..])
    ensures acc * Pow8(|digits|) + OctalValue(digits) >= acc * 8 + DigitValue(digits[0])
  {
    OctalValueFront(digits);
    var n := |digits| - 1;
    var p, d, rest := Pow8(n), DigitValue(digits[0]), OctalValue(digits[1..]);
    Pow8Positive(n);
    StepArithmetic(acc, d, p, Pow8(|digits|), rest, OctalValue(digits));
  }

  /** The arithmetic behind `AccumulateStep`, with the powers and digit
      values abstracted to plain numbers. */
  lemma {:induction false} StepArithmetic(acc: nat, d: nat, p: nat, p': nat, rest: nat, total: nat)
    requires p >= 1 && p' == 8 * p && total == d * p + rest
    ensures acc * p' + total == (acc * 8 + d) * p + rest
    ensures acc * p' + total >= acc * 8 + d
  {
    assert acc * (8 * p) == (acc * 8) * p;
    assert (acc * 8) * p + d * p == (acc * 8 + d) * p;
    assert (acc * 8 + d) * p >= acc * 8 + d;
  }

  /** The digits after an optional leading `+`. */
  function Unsigned(s: string): (digits: string)
  {
    if |s| > 0 && s[0] == '+' then s[1..] else s
  }

  /** `s` is an optional `+` followed by at least one octal digit, and the
      digits denote a number in the 16-bit range. */
  predicate IsOctalU16(s: string) {
    |Unsigned(s)| > 0 && AllOctal(Unsigned(s)) && OctalValue(Unsigned(s)) <= U16_MAX
  }

  /** Rust's `u16::from_str_radix(s, 8)`: `None` stands for every
      `ParseIntError` (empty input, a lone `+`, an invalid digit, overflow). */
  function FromStrRadix8(s: string): (r: Option<U16>)
    ensures r.Some? <==> IsOctalU16(s)
    ensures r.Some? ==> r.value == OctalValue(Unsigned(s))
  {
    if |s| == 0 then
      None
    else if |s| == 1 && (s[0] == '+' || s[0] == '-') then
      None
    else
      var digits := if s[0] == '+' then s[1..] else s;
      AccumulateDenotes(0, digits);
      Accumulate(0, digits)
  }

  /** Every value in the 16-bit range survives writing it in octal and
      parsing it back, with or without a leading `+`. */
  lemma {:induction false} FromStrRadix8RoundTrip(n: U16)
    ensures FromStrRadix8(ToOctal(n)) == Some(n)
    ensures FromStrRadix8("+" + ToOctal(n)) == Some(n)
  {
    var s := ToOctal(n);
    OctalValueOfToOctal(n);
    assert s[0] != '+';
    assert Unsigned(s) == s;
    assert Unsigned("+" + s) == s;
  }

  /** Leading zeros do not change the parsed value or whether parsing succeeds. */
  lemma {:induction false} FromStrRadix8LeadingZero(s: string)
    requires |s| > 0 && s[0] != '+'
    ensures FromStrRadix8("0" + s) == FromStrRadix8(s)
  {
    assert Unsigned("0" + s) == "0" + s;
    assert Unsigned(s) == s;
    if AllOctal(s) {
      OctalValueAppend("0", s);
      assert OctalValue("0") == 8 * OctalValue([]) + DigitValue('0');
    } else {
      var i :| 0 <= i < |s| && !IsOctalDigit(s[i]);
      assert ("0" + s)[i + 1] == s[i];
    }
  }

  /** A value needs at most six octal digits to fit; a seven-digit numeral
      without leading zeros is out of range. */
  lemma {:induction false} FromStrRadix8RejectsSevenDigits(s: string)
    requires |s| == 7 && AllOctal(s) && s[0] != '0'
    ensures FromStrRadix8(s) == None
  {
    assert s[0] != '+';
    assert Unsigned(s) == s;
    OctalValueFront(s);
    assert Pow8(6) == 262144;
    assert DigitValue(s[0]) >= 1;
  }
}
