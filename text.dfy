/** Strings as the dashboard compares and formats them: Python's ordering on
    `str` (used when pandas sorts group keys) and fixed-width decimal digits
    (used when a date is written as a "YYYY-MM" month key). */
module Text {

  /** Python's `a < b` on strings: code point by code point, and a proper
      prefix sorts before the longer string. */
  predicate Less(a: string, b: string)
    decreases |a|
  {
    if a == [] then b != []
    else b != [] && (a[0] < b[0] || (a[0] == b[0] && Less(a[1..], b[1..])))
  }

  lemma {:induction false} LessIrreflexive(a: string)
    ensures !Less(a, a)
  {
    if a != [] {
      LessIrreflexive(a[1..]);
    }
  }

  lemma {:induction false} LessTransitive(a: string, b: string, c: string)
    requires Less(a, b) && Less(b, c)
    ensures Less(a, c)
  {
    if a != [] && b != [] && c != [] && a[0] == b[0] && b[0] == c[0] {
      LessTransitive(a[1..], b[1..], c[1..]);
    }
  }

  lemma {:induction false} LessTotal(a: string, b: string)
    ensures a == b || Less(a, b) || Less(b, a)
  {
    if a != [] && b != [] && a[0] == b[0] {
      LessTotal(a[1..], b[1..]);
      if a[1..] == b[1..] {
        assert a == [a[0]] + a[1..] && b == [b[0]] + b[1..];
      }
    }
  }

  lemma LessAsymmetric(a: string, b: string)
    ensures !(Less(a, b) && Less(b, a))
  {
    if Less(a, b) && Less(b, a) {
      LessTransitive(a, b, a);
      LessIrreflexive(a);
    }
  }

  /** Comparing two strings whose first parts have the same length decides on
      the first parts, and on the second parts only when the first are equal. */
  lemma {:induction false} LessOnEqualLengthPrefix(a1: string, a2: string, b1: string, b2: string)
    requires |a1| == |b1|
    ensures Less(a1 + a2, b1 + b2) <==> Less(a1, b1) || (a1 == b1 && Less(a2, b2))
  {
    if a1 == [] {
      assert a1 + a2 == a2 && b1 + b2 == b2;
    } else {
      assert (a1 + a2)[1..] == a1[1..] + a2;
      assert (b1 + b2)[1..] == b1[1..] + b2;
      LessOnEqualLengthPrefix(a1[1..], a2, b1[1..], b2);
      assert a1 == b1 <==> a1[0] == b1[0] && a1[1..] == b1[1..] by {
        if a1[0] == b1[0] && a1[1..] == b1[1..] {
          assert a1 == [a1[0]] + a1[1..] && b1 == [b1[0]] + b1[1..];
        }
      }
      LessIrreflexive(a1);
    }
  }

  predicate IsDigit(c: char) {
    '0' <= c <= '9'
  }

  predicate AllDigits(s: string) {
    forall i :: 0 <= i < |s| ==> IsDigit(s[i])
  }

  function Digit(n: int): (c: char)
    requires 0 <= n <= 9
    ensures IsDigit(c) && c as int - '0' as int == n
  {
    (n + '0' as int) as char
  }

  function DigitValue(c: char): (n: int)
    requires IsDigit(c)
    ensures 0 <= n <= 9
  {
    c as int - '0' as int
  }

  function Pow10(n: nat): (p: nat)
    ensures p >= 1
  {
    if n == 0 then 1 else 10 * Pow10(n - 1)
  }

  lemma {:induction false} MulMonotonic(x: int, y: int, p: nat)
    requires x <= y
    ensures x * p <= y * p
  {
    if p > 0 {
      MulMonotonic(x, y, p - 1);
      assert x * p == x * (p - 1) + x && y * p == y * (p - 1) + y;
    }
  }

  /** The number a string of decimal digits denotes, most significant first. */
  function DecimalValue(s: string): nat
    requires AllDigits(s)
  {
    if s == [] then 0 else DigitValue(s[0]) * Pow10(|s| - 1) + DecimalValue(s[1..])
  }

  lemma {:induction false} DecimalValueBound(s: string)
    requires AllDigits(s)
    ensures DecimalValue(s) < Pow10(|s|)
  {
    if s != [] {
      DecimalValueBound(s[1..]);
      var d, p := DigitValue(s[0]), Pow10(|s| - 1);
      MulMonotonic(d, 9, p);
      assert Pow10(|s|) == 10 * p;
    }
  }

  /** On digit strings of one length, string order is numeric order. */
  lemma {:induction false} LessIsNumericOrder(a: string, b: string)
    requires AllDigits(a) && AllDigits(b) && |a| == |b|
    ensures Less(a, b) <==> DecimalValue(a) < DecimalValue(b)
  {
    if a != [] {
      var da, db := DigitValue(a[0]), DigitValue(b[0]);
      var ta, tb := DecimalValue(a[1..]), DecimalValue(b[1..]);
      var p := Pow10(|a| - 1);
      assert DecimalValue(a) == da * p + ta;
      assert DecimalValue(b) == db * p + tb;
      assert a[0] < b[0] <==> da < db;
      assert a[0] == b[0] <==> da == db;
      if da < db {
        DecimalValueBound(a[1..]);
        LeadingDigitDecides(da, db, ta, tb, |a| - 1);
      } else if db < da {
        DecimalValueBound(b[1..]);
        LeadingDigitDecides(db, da, tb, ta, |a| - 1);
      } else {
        LessIsNumericOrder(a[1..], b[1..]);
      }
    }
  }

  lemma LeadingDigitDecides(d: int, e: int, t: int, u: nat, n: nat)
    requires d < e && 0 <= t < Pow10(n)
    ensures d * Pow10(n) + t < e * Pow10(n) + u
  {
    MulMonotonic(d + 1, e, Pow10(n));
  }

  /** `n` written with exactly two digits, zero-padded ("%02d"). */
  function Pad2(n: int): (s: string)
    requires 0 <= n <= 99
    ensures |s| == 2 && AllDigits(s) && DecimalValue(s) == n
  {
    var s := [Digit(n / 10), Digit(n % 10)];
    assert DecimalValue(s[1..]) == n % 10;
    s
  }

  /** `n` written with exactly four digits, zero-padded ("%04d"). */
  function Pad4(n: int): (s: string)
    requires 0 <= n <= 9999
    ensures |s| == 4 && AllDigits(s) && DecimalValue(s) == n
  {
    var r3 := n % 1000;
    var r2 := r3 % 100;
    var s := [Digit(n / 1000), Digit(r3 / 100), Digit(r2 / 10), Digit(r2 % 10)];
    assert DecimalValue(s[3..]) == r2 % 10;
    assert s[2..][1..] == s[3..];
    assert DecimalValue(s[2..]) == r2;
    assert s[1..][1..] == s[2..];
    assert Pow10(2) == 100;
    assert DecimalValue(s[1..]) == r3;
    assert Pow10(3) == 1000;
    s
  }
}
