/** The scanner's character classes and the numeric value of digit strings
    (the part of `Integer.parseInt` / `Long.parseLong` the scanner relies on). */
module Chars {

  predicate IsAlpha(c: char) {
    ('a' <= c <= 'z') || ('A' <= c <= 'Z') || c == '_'
  }

  predicate IsDigit(c: char) {
    '0' <= c <= '9'
  }

  predicate IsAlphaNumeric(c: char) {
    IsAlpha(c) || IsDigit(c)
  }

  predicate IsHex(c: char) {
    ('0' <= c <= '9') || ('A' <= c <= 'F') || ('a' <= c <= 'f')
  }

  predicate IsBin(c: char) {
    c == '0' || c == '1'
  }

  /** The classes of characters the scanner's loops advance over; the
      text of a line comment is anything but a newline. */
  datatype CharClass = AlphaNumerics | Digits | HexDigits | BinDigits | LineText

  predicate InClass(cls: CharClass, c: char) {
    match cls
    case AlphaNumerics => IsAlphaNumeric(c)
    case Digits => IsDigit(c)
    case HexDigits => IsHex(c)
    case BinDigits => IsBin(c)
    case LineText => c != '\n'
  }

  /** The value of one hexadecimal digit. The scanner's width test
      `charAt(0) > '7'` is exactly "the leading digit is worth 8 or more". */
  function DigitValue(c: char): (v: nat)
    requires IsHex(c)
    ensures v < 16
    ensures v < 10 <==> IsDigit(c)
    ensures v < 2 <==> IsBin(c)
    ensures v >= 8 <==> c > '7'
  {
    if '0' <= c <= '9' then (c - '0') as nat
    else if 'A' <= c <= 'F' then (c - 'A') as nat + 10
    else (c - 'a') as nat + 10
  }

  predicate AllDigitsBelow(ds: string, radix: nat) {
    forall k | 0 <= k < |ds| :: IsHex(ds[k]) && DigitValue(ds[k]) < radix
  }

  function Pow(b: nat, n: nat): (p: nat)
    ensures b > 0 ==> p > 0
  {
    if n == 0 then 1 else b * Pow(b, n - 1)
  }

  lemma MulStrict(a: nat, b: nat, d: nat, r: nat)
    requires a < b && d < r
    ensures a * r + d < b * r
  {
    calc {
      a * r + d;
    <  a * r + r;
    == (a + 1) * r;
    <= { assert a + 1 <= b; } b * r;
    }
  }

  lemma {:induction false} PowMonotone(b: nat, m: nat, n: nat)
    requires b > 0 && m <= n
    ensures Pow(b, m) <= Pow(b, n)
    decreases n
  {
    if m < n {
      PowMonotone(b, m, n - 1);
      assert Pow(b, n) == b * Pow(b, n - 1);
    }
  }

  /** The base-`radix` value of a digit string, most significant digit
      first; a digit string of length n is worth less than radix^n. */
  function Value(ds: string, radix: nat): (v: nat)
    requires AllDigitsBelow(ds, radix)
    ensures v < Pow(radix, |ds|)
    decreases |ds|
  {
    if ds == [] then 0
    else
      var prefix := ds[..|ds| - 1];
      assert AllDigitsBelow(prefix, radix) by {
        forall k | 0 <= k < |prefix| ensures IsHex(prefix[k]) && DigitValue(prefix[k]) < radix {
          assert prefix[k] == ds[k];
        }
      }
      var v := Value(prefix, radix) * radix + DigitValue(ds[|ds| - 1]);
      MulStrict(Value(prefix, radix), Pow(radix, |ds| - 1), DigitValue(ds[|ds| - 1]), radix);
      v
  }

  /** A digit string is worth at least its leading digit times radix^(n-1). */
  lemma {:induction false} ValueLeading(ds: string, radix: nat)
    requires |ds| > 0 && AllDigitsBelow(ds, radix)
    ensures Value(ds, radix) >= DigitValue(ds[0]) * Pow(radix, |ds| - 1)
    decreases |ds|
  {
    var prefix := ds[..|ds| - 1];
    if |ds| > 1 {
      assert AllDigitsBelow(prefix, radix) by {
        forall k | 0 <= k < |prefix| ensures IsHex(prefix[k]) && DigitValue(prefix[k]) < radix {
          assert prefix[k] == ds[k];
        }
      }
      ValueLeading(prefix, radix);
      assert prefix[0] == ds[0];
      var d0, p, vp := DigitValue(ds[0]), Pow(radix, |ds| - 2), Value(prefix, radix);
      assert Value(ds, radix) == vp * radix + DigitValue(ds[|ds| - 1]);
      assert Pow(radix, |ds| - 1) == radix * p;
      ScaleBound(d0, p, vp, radix);
    }
  }

  /** A digit string is worth less than its leading digit plus one, times
      radix^(n-1). */
  lemma {:induction false} ValueLeadingBelow(ds: string, radix: nat)
    requires |ds| > 0 && AllDigitsBelow(ds, radix)
    ensures Value(ds, radix) < (DigitValue(ds[0]) + 1) * Pow(radix, |ds| - 1)
    decreases |ds|
  {
    var prefix := ds[..|ds| - 1];
    var b := DigitValue(ds[0]) + 1;
    if |ds| == 1 {
      assert prefix == [];
      assert Value(ds, radix) == DigitValue(ds[0]);
    } else {
      assert AllDigitsBelow(prefix, radix) by {
        forall k | 0 <= k < |prefix| ensures IsHex(prefix[k]) && DigitValue(prefix[k]) < radix {
          assert prefix[k] == ds[k];
        }
      }
      ValueLeadingBelow(prefix, radix);
      assert prefix[0] == ds[0];
      var p := Pow(radix, |ds| - 2);
      assert Value(ds, radix) == Value(prefix, radix) * radix + DigitValue(ds[|ds| - 1]);
      assert Pow(radix, |ds| - 1) == radix * p;
      ShiftBelow(Value(prefix, radix), b, p, DigitValue(ds[|ds| - 1]), radix);
    }
  }

  lemma ShiftBelow(vp: nat, b: nat, p: nat, d: nat, r: nat)
    requires vp < b * p && d < r
    ensures vp * r + d < b * (r * p)
  {
    MulStrict(vp, b * p, d, r);
    assert (b * p) * r == b * (r * p);
  }

  lemma ScaleBound(d0: nat, p: nat, vp: nat, r: nat)
    requires vp >= d0 * p
    ensures vp * r >= d0 * (r * p)
  {
    MulMonotone(d0 * p, vp, r);
    assert (d0 * p) * r == d0 * (r * p);
  }

  lemma MulMonotone(a: nat, b: nat, r: nat)
    requires a <= b
    ensures a * r <= b * r
  {
  }

  /** A digit string of at most `n` digits is worth less than radix^n. */
  lemma {:induction false} ValueBelowPow(ds: string, radix: nat, n: nat)
    requires AllDigitsBelow(ds, radix) && radix > 0 && |ds| <= n
    ensures Value(ds, radix) < Pow(radix, n)
  {
    PowMonotone(radix, |ds|, n);
  }
}
