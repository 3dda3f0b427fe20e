/** Text as the ledger sees it: code-point ordering (SQLite's BINARY collation
    and Python's `str` comparison), ASCII lowercasing, and zero-padded decimal
    numerals. */
module Text {

  /** `a <= b` in code-point lexicographic order. */
  predicate LexLe(a: string, b: string) {
    |a| == 0 || (|b| > 0 && (a[0] < b[0] || (a[0] == b[0] && LexLe(a[1..], b[1..]))))
  }

  lemma {:induction false} LexLeTotal(a: string, b: string)
    ensures LexLe(a, b) || LexLe(b, a)
  {
    if |a| > 0 && |b| > 0 && a[0] == b[0] {
      LexLeTotal(a[1..], b[1..]);
    }
  }

  lemma {:induction false} LexLeAntisymmetric(a: string, b: string)
    requires LexLe(a, b) && LexLe(b, a)
    ensures a == b
  {
    if |a| > 0 {
      LexLeAntisymmetric(a[1..], b[1..]);
      assert a == [a[0]] + a[1..] && b == [b[0]] + b[1..];
    }
  }

  lemma {:induction false} LexLeTransitive(a: string, b: string, c: string)
    requires LexLe(a, b) && LexLe(b, c)
    ensures LexLe(a, c)
  {
    if |a| > 0 && a[0] == b[0] && b[0] == c[0] {
      LexLeTransitive(a[1..], b[1..], c[1..]);
    }
  }

  lemma LexLeReflexive(a: string)
    ensures LexLe(a, a)
  {
    LexLeTotal(a, a);
  }

  /** Comparing two texts that start with prefixes of the same length: the
      prefixes decide, and only equal prefixes hand over to the rest. */
  lemma {:induction false} LexLeConcat(a: string, s: string, b: string, t: string)
    requires |a| == |b|
    ensures LexLe(a + s, b + t) <==> (a != b && LexLe(a, b)) || (a == b && LexLe(s, t))
  {
    if |a| == 0 {
      assert a + s == s && b + t == t;
    } else {
      assert (a + s)[1..] == a[1..] + s && (b + t)[1..] == b[1..] + t;
      LexLeConcat(a[1..], s, b[1..], t);
      assert a == [a[0]] + a[1..] && b == [b[0]] + b[1..];
    }
  }
  /** A text with hyphens at positions 4 and 7 is its three fields joined
      by hyphens. */
  lemma SplitAtHyphens(s: string)
    requires |s| == 10 && s[4] == '-' && s[7] == '-'
    ensures s == s[..4] + "-" + s[5..7] + "-" + s[8..]
  {
  }

  /** Three fields joined by hyphens, the first two of fixed widths, compare
      field by field. */
  lemma LexLeFields(a1: string, a2: string, a3: string, b1: string, b2: string, b3: string)
    requires |a1| == |b1| && |a2| == |b2|
    ensures LexLe(a1 + "-" + a2 + "-" + a3, b1 + "-" + b2 + "-" + b3) <==>
              (a1 != b1 && LexLe(a1, b1))
              || (a1 == b1 && ((a2 != b2 && LexLe(a2, b2)) || (a2 == b2 && LexLe(a3, b3))))
  {
    assert a1 + "-" + a2 + "-" + a3 == a1 + ("-" + (a2 + ("-" + a3)));
    assert b1 + "-" + b2 + "-" + b3 == b1 + ("-" + (b2 + ("-" + b3)));
    LexLeConcat(a1, "-" + (a2 + ("-" + a3)), b1, "-" + (b2 + ("-" + b3)));
    LexLeConcat("-", a2 + ("-" + a3), "-", b2 + ("-" + b3));
    LexLeConcat(a2, "-" + a3, b2, "-" + b3);
    LexLeConcat("-", a3, "-", b3);
  }


  // ---------------------------------------------------------------------
  // Lowercasing (Python's str.lower, restricted to ASCII letters)
  // ---------------------------------------------------------------------

  function LowerChar(c: char): char {
    if 'A' <= c <= 'Z' then (c as int + 32) as char else c
  }

  function Lower(s: string): (r: string)
    ensures |r| == |s|
  {
    seq(|s|, i requires 0 <= i < |s| => LowerChar(s[i]))
  }

  /** Text without capitals is its own lowercase form. */
  lemma LowerUnchanged(s: string)
    requires forall i :: 0 <= i < |s| ==> !('A' <= s[i] <= 'Z')
    ensures Lower(s) == s
  {
  }

  /** Lowercasing twice is lowercasing once, so a name stored lowercased is
      found again by a lowercased lookup. */
  lemma LowerIdempotent(s: string)
    ensures Lower(Lower(s)) == Lower(s)
  {
  }

  // ---------------------------------------------------------------------
  // Zero-padded decimal numerals (`%04d`, `%02d`)
  // ---------------------------------------------------------------------

  predicate IsDigit(c: char) {
    '0' <= c <= '9'
  }

  predicate AllDigits(s: string) {
    forall i :: 0 <= i < |s| ==> IsDigit(s[i])
  }

  function DigitChar(n: int): (c: char)
    requires 0 <= n <= 9
    ensures IsDigit(c)
  {
    ('0' as int + n) as char
  }

  function DigitValue(c: char): (n: int)
    requires IsDigit(c)
    ensures 0 <= n <= 9 && DigitChar(n) == c
  {
    c as int - '0' as int
  }

  function Pow10(w: nat): (p: nat)
    ensures p >= 1
  {
    if w == 0 then 1 else 10 * Pow10(w - 1)
  }

  /** `n` written with exactly `width` decimal digits, padded on the left with
      zeros (only the low `width` digits of `n` are kept). */
  function Decimal(n: nat, width: nat): (s: string)
    ensures |s| == width && AllDigits(s)
  {
    if width == 0 then [] else Decimal(n / 10, width - 1) + [DigitChar(n % 10)]
  }

  /** The number a string of decimal digits denotes. */
  function DecimalValue(s: string): nat
    requires AllDigits(s)
  {
    if |s| == 0 then 0 else DecimalValue(s[..|s| - 1]) * 10 + DigitValue(s[|s| - 1])
  }

  lemma DecimalValueOfTwo(s: string)
    requires |s| == 2 && AllDigits(s)
    ensures DecimalValue(s) == 10 * DigitValue(s[0]) + DigitValue(s[1])
  {
    var init := s[..1];
    assert s[..|s| - 1] == init && init[..|init| - 1] == [] && init[0] == s[0];
    assert DecimalValue(init) == DigitValue(s[0]);
  }

  lemma DecimalValueOfFour(s: string)
    requires |s| == 4 && AllDigits(s)
    ensures DecimalValue(s) == 1000 * DigitValue(s[0]) + 100 * DigitValue(s[1]) + 10 * DigitValue(s[2]) + DigitValue(s[3])
  {
    var two, three := s[..2], s[..3];
    DecimalValueOfTwo(two);
    assert s[..|s| - 1] == three && three[..|three| - 1] == two;
    assert three[2] == s[2] && two[0] == s[0] && two[1] == s[1];
  }

  /** Reading back a padded numeral gives the number, when it fits the width. */
  lemma {:induction false} DecimalRoundTrip(n: nat, width: nat)
    requires n < Pow10(width)
    ensures DecimalValue(Decimal(n, width)) == n
  {
    if width > 0 {
      DecimalRoundTrip(n / 10, width - 1);
      var s := Decimal(n, width);
      assert s[..|s| - 1] == Decimal(n / 10, width - 1);
    }
  }

  /** A digit string is the padded numeral of its own value. */
  lemma {:induction false} DecimalValueRoundTrip(s: string)
    requires AllDigits(s)
    ensures DecimalValue(s) < Pow10(|s|)
    ensures Decimal(DecimalValue(s), |s|) == s
  {
    if |s| > 0 {
      var init := s[..|s| - 1];
      DecimalValueRoundTrip(init);
      var v := DecimalValue(s);
      assert v / 10 == DecimalValue(init) && v % 10 == DigitValue(s[|s| - 1]);
      assert s == init + [s[|s| - 1]];
    }
  }

  lemma DecimalInjective(x: nat, y: nat, w: nat)
    requires x < Pow10(w) && y < Pow10(w)
    ensures Decimal(x, w) == Decimal(y, w) <==> x == y
  {
    DecimalRoundTrip(x, w);
    DecimalRoundTrip(y, w);
  }

  /** Padded numerals of one width sort as the numbers they denote. */
  lemma {:induction false} DecimalOrder(x: nat, y: nat, w: nat)
    requires x < Pow10(w) && y < Pow10(w)
    ensures LexLe(Decimal(x, w), Decimal(y, w)) <==> x <= y
  {
    if w > 0 {
      DecimalOrder(x / 10, y / 10, w - 1);
      DecimalInjective(x / 10, y / 10, w - 1);
      var cx, cy := DigitChar(x % 10), DigitChar(y % 10);
      LexLeConcat(Decimal(x / 10, w - 1), [cx], Decimal(y / 10, w - 1), [cy]);
      assert LexLe([cx], [cy]) <==> x % 10 <= y % 10 by {
        assert [cx][1..] == [];
      }
    }
  }

  // ---------------------------------------------------------------------
  // Python's `str(n)` and `f"{n:02d}"`
  // ---------------------------------------------------------------------

  /** The shortest decimal numeral of `n`. */
  function NatText(n: nat): (s: string)
    ensures |s| >= 1 && AllDigits(s)
  {
    if n < 10 then [DigitChar(n)] else NatText(n / 10) + [DigitChar(n % 10)]
  }

  /** `str(n)`. */
  function IntText(n: int): string {
    if n < 0 then "-" + NatText(-n) else NatText(n)
  }

  /** `f"{n:02d}"`: at least two characters, zero-padded after any sign. */
  function Padded2Text(n: int): string {
    if n < 0 then "-" + NatText(-n) else if n < 10 then Decimal(n, 2) else NatText(n)
  }

  /** The shortest numeral is the padded numeral of its own length. */
  lemma {:induction false} NatTextIsDecimal(n: nat)
    ensures NatText(n) == Decimal(n, |NatText(n)|)
  {
    if n >= 10 {
      NatTextIsDecimal(n / 10);
    }
  }

  /** `n` needs at most `k + 1` digits exactly when it is below 10^(k+1). */
  lemma {:induction false} NatTextLength(n: nat, k: nat)
    ensures |NatText(n)| <= k + 1 <==> n < Pow10(k + 1)
  {
    if n >= 10 && k > 0 {
      NatTextLength(n / 10, k - 1);
    }
  }

  /** `str(n)` is a four-digit numeral exactly for the years 1000..9999, and
      then it is the `%Y` field of that year. */
  lemma IntTextFourDigits(y: nat, n: int)
    requires y < 10000
    ensures Decimal(y, 4) == IntText(n) <==> 1000 <= n && n == y
  {
    assert Pow10(4) == 10000 && Pow10(3) == 1000;
    if n < 0 {
      assert IntText(n)[0] == '-';
      assert !IsDigit(IntText(n)[0]);
    } else {
      NatTextLength(n, 3);
      NatTextLength(n, 2);
      NatTextIsDecimal(n);
      if 1000 <= n < 10000 {
        DecimalInjective(y, n, 4);
      }
    }
  }

  /** `f"{n:02d}"` equals the `%m` field of month `m` exactly when `n == m`. */
  lemma Padded2TextMonth(m: nat, n: int)
    requires m < 100
    ensures Decimal(m, 2) == Padded2Text(n) <==> n == m
  {
    assert Pow10(2) == 100 && Pow10(1) == 10;
    if n < 0 {
      assert Padded2Text(n)[0] == '-';
      assert !IsDigit(Padded2Text(n)[0]);
    } else if n < 10 {
      DecimalInjective(m, n, 2);
    } else {
      NatTextLength(n, 1);
      NatTextIsDecimal(n);
      if n < 100 {
        DecimalInjective(m, n, 2);
      }
    }
  }
}
