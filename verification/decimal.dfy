/** Decimal rendering of non-negative integers as JavaScript's
    `Number.prototype.toString()` produces it for safe integers (below 2^53,
    where no exponent form appears), `String.prototype.padStart`
    with a one-character pad, and the inverse parse used to state round trips. */
module Decimal {

  predicate IsDigit(c: char) {
    '0' <= c <= '9'
  }

  predicate AllDigits(s: string) {
    forall i :: 0 <= i < |s| ==> IsDigit(s[i])
  }

  function DigitChar(d: nat): (c: char)
    requires d < 10
    ensures IsDigit(c)
  {
    "0123456789"[d]
  }

  function DigitValue(c: char): nat
    requires IsDigit(c)
  {
    (c as int - '0' as int) as nat
  }

  lemma DigitRoundTrip(d: nat)
    requires d < 10
    ensures DigitValue(DigitChar(d)) == d
  {
  }

  /** `n.toString()` for a non-negative integer: shortest decimal form. */
  function ToDecimal(n: nat): (r: string)
    ensures |r| >= 1
    ensures AllDigits(r)
    decreases n
  {
    if n < 10 then [DigitChar(n)] else ToDecimal(n / 10) + [DigitChar(n % 10)]
  }

  /** Value of a string of decimal digits (leading zeros allowed). */
  function ParseDecimal(s: string): nat
    requires AllDigits(s)
    decreases |s|
  {
    if |s| == 0 then 0 else ParseDecimal(s[..|s| - 1]) * 10 + DigitValue(s[|s| - 1])
  }

  /** Parsing undoes rendering, and the rendering has no leading zero. */
  lemma {:induction false} ParseToDecimal(n: nat)
    ensures ParseDecimal(ToDecimal(n)) == n
    ensures |ToDecimal(n)| > 1 ==> ToDecimal(n)[0] != '0'
    decreases n
  {
    var s := ToDecimal(n);
    if n < 10 {
      DigitRoundTrip(n);
    } else {
      assert s[..|s| - 1] == ToDecimal(n / 10);
      ParseToDecimal(n / 10);
      DigitRoundTrip(n % 10);
      if |ToDecimal(n / 10)| == 1 {
        assert n / 10 >= 1;
        assert ToDecimal(n / 10) == [DigitChar(n / 10)];
      }
    }
  }

  /** The rendering is one character long below ten and two below a hundred. */
  lemma ToDecimalLength(n: nat)
    ensures n < 10 ==> |ToDecimal(n)| == 1
    ensures 10 <= n < 100 ==> |ToDecimal(n)| == 2
  {
    if 10 <= n < 100 {
      assert ToDecimal(n) == ToDecimal(n / 10) + [DigitChar(n % 10)];
    }
  }

  /** `s.padStart(width, pad)`: prefixes copies of `pad` until `s` is at
      least `width` long; never truncates. */
  function PadStart(s: string, width: nat, pad: char): (r: string)
    ensures |r| == if |s| >= width then |s| else width
    ensures |s| >= width ==> r == s
    ensures r == seq(|r| - |s|, _ => pad) + s
    decreases width - |s|
  {
    if |s| >= width then s
    else
      var t := PadStart([pad] + s, width, pad);
      assert seq(|t| - |s| - 1, _ => pad) + ([pad] + s) == seq(|t| - |s|, _ => pad) + s;
      t
  }

  /** `n.toString().padStart(2, "0")`, written out: two digits below a
      hundred, the plain rendering above. */
  function TwoDigits(n: nat): (r: string)
    ensures |r| >= 2
    ensures n < 100 ==> |r| == 2
    ensures AllDigits(r)
  {
    if n < 100 then [DigitChar(n / 10), DigitChar(n % 10)] else ToDecimal(n)
  }

  /** `TwoDigits` is exactly the padded rendering. */
  lemma TwoDigitsIsPadStart(n: nat)
    ensures TwoDigits(n) == PadStart(ToDecimal(n), 2, '0')
  {
    var d := ToDecimal(n);
    if n < 10 {
      assert d == [DigitChar(n)];
      assert PadStart(d, 2, '0') == PadStart(['0'] + d, 2, '0');
    } else {
      assert d == ToDecimal(n / 10) + [DigitChar(n % 10)];
      if n < 100 {
        assert ToDecimal(n / 10) == [DigitChar(n / 10)];
      }
    }
  }

  /** Zero-padding does not change the value read back. */
  lemma ParseTwoDigits(n: nat)
    ensures ParseDecimal(TwoDigits(n)) == n
  {
    if n < 100 {
      var s := TwoDigits(n);
      assert s[..1] == [DigitChar(n / 10)];
      assert [DigitChar(n / 10)][..0] == [];
      DigitRoundTrip(n / 10);
      DigitRoundTrip(n % 10);
      assert ParseDecimal(s[..1]) == n / 10;
    } else {
      ParseToDecimal(n);
    }
  }
}
