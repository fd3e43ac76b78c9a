/** Decimal renderings used by the data layer: JavaScript's `String(n)` and
    template-literal interpolation of a non-negative integer, and
    `padStart(width, '0')`, which date formatting and the mock workout dates
    use for zero-padded fields. */
module Text {

  predicate IsDigit(c: char) { '0' <= c <= '9' }

  predicate AllDigits(s: string) { forall i :: 0 <= i < |s| ==> IsDigit(s[i]) }

  function DigitChar(n: nat): (c: char)
    requires n < 10
    ensures IsDigit(c)
  {
    ('0' as int + n) as char
  }

  function DigitValue(c: char): (n: nat)
    requires IsDigit(c)
    ensures n < 10 && DigitChar(n) == c
  {
    c as int - '0' as int
  }

  function Pow10(k: nat): (p: nat)
    ensures p >= 1
  {
    if k == 0 then 1 else 10 * Pow10(k - 1)
  }

  /** `String(n)` for a non-negative integer: its digits, most significant
      first, without leading zeros. */
  function Decimal(n: nat): (s: string)
    ensures 1 <= |s| && AllDigits(s)
    ensures s[0] == '0' ==> n == 0
  {
    if n < 10 then [DigitChar(n)] else Decimal(n / 10) + [DigitChar(n % 10)]
  }

  /** The value of a digit string (the empty string reads as 0). */
  function ParseDecimal(s: string): nat
    requires AllDigits(s)
  {
    if s == [] then 0 else ParseDecimal(s[..|s| - 1]) * 10 + DigitValue(s[|s| - 1])
  }

  function Zeros(k: nat): (s: string)
    ensures |s| == k && AllDigits(s)
    ensures forall i :: 0 <= i < k ==> s[i] == '0'
  {
    if k == 0 then [] else Zeros(k - 1) + ['0']
  }

  /** `s.padStart(width, '0')`: zeros in front until the string is `width` long. */
  function PadStart(s: string, width: nat): (r: string)
    ensures |r| == if |s| < width then width else |s|
    ensures r[|r| - |s|..] == s
    ensures forall i :: 0 <= i < |r| - |s| ==> r[i] == '0'
  {
    if |s| < width then Zeros(width - |s|) + s else s
  }

  /** The zero-padded decimal rendering used for `MM`, `dd` and `yyyy`. */
  function Digits(n: nat, width: nat): (s: string)
    ensures AllDigits(s)
    ensures |s| >= width
  {
    PadStart(Decimal(n), width)
  }

  lemma {:induction false} DecimalRoundTrip(n: nat)
    ensures ParseDecimal(Decimal(n)) == n
  {
    if n >= 10 {
      var s := Decimal(n);
      assert s[..|s| - 1] == Decimal(n / 10);
      DecimalRoundTrip(n / 10);
    }
  }

  /** Leading zeros do not change the value of a digit string. */
  lemma {:induction false} LeadingZeros(k: nat, s: string)
    requires AllDigits(s)
    ensures AllDigits(Zeros(k) + s) && ParseDecimal(Zeros(k) + s) == ParseDecimal(s)
  {
    if s == [] {
      assert Zeros(k) + s == Zeros(k);
      ZerosValue(k);
    } else {
      var t := Zeros(k) + s;
      assert t[..|t| - 1] == Zeros(k) + s[..|s| - 1];
      LeadingZeros(k, s[..|s| - 1]);
    }
  }

  lemma {:induction false} ZerosValue(k: nat)
    ensures ParseDecimal(Zeros(k)) == 0
  {
    if k > 0 {
      assert Zeros(k)[..k - 1] == Zeros(k - 1);
      ZerosValue(k - 1);
    }
  }

  /** Reading a padded rendering back gives the number. */
  lemma DigitsRoundTrip(n: nat, width: nat)
    ensures ParseDecimal(Digits(n, width)) == n
  {
    var s := Decimal(n);
    assert ParseDecimal(s) == n by { DecimalRoundTrip(n); }
    if |s| < width {
      var z := Zeros(width - |s|) + s;
      assert Digits(n, width) == z;
      assert ParseDecimal(z) == ParseDecimal(s) by { LeadingZeros(width - |s|, s); }
    } else {
      assert Digits(n, width) == s;
    }
  }

  /** Renderings of different numbers differ. */
  lemma DecimalInjective(a: nat, b: nat)
    requires Decimal(a) == Decimal(b)
    ensures a == b
  {
    DecimalRoundTrip(a);
    DecimalRoundTrip(b);
  }

  lemma {:induction false} DecimalLength(n: nat, k: nat)
    requires 1 <= k
    ensures n < Pow10(k) ==> |Decimal(n)| <= k
    ensures n >= Pow10(k - 1) ==> |Decimal(n)| >= k
  {
    if n >= 10 && k > 1 {
      DecimalLength(n / 10, k - 1);
    }
  }

  /** A number below 10^width renders in exactly `width` characters. */
  lemma DigitsLength(n: nat, width: nat)
    requires 1 <= width && n < Pow10(width)
    ensures |Digits(n, width)| == width
  {
    DecimalLength(n, width);
  }

  /** Without padding, a number of exactly `width` digits renders the same. */
  lemma DecimalIsDigits(n: nat, width: nat)
    requires 1 <= width && Pow10(width - 1) <= n < Pow10(width)
    ensures Decimal(n) == Digits(n, width)
  {
    DecimalLength(n, width);
  }

  /** A digit string of value 0 is all zeros. */
  lemma {:induction false} ZeroValueIsZeros(t: string)
    requires AllDigits(t) && ParseDecimal(t) == 0
    ensures t == Zeros(|t|)
  {
    if t != [] {
      ZeroValueIsZeros(t[..|t| - 1]);
      assert t == t[..|t| - 1] + [t[|t| - 1]];
    }
  }

  lemma PadStartSnoc(s: string, c: char, width: nat)
    requires 1 <= width
    ensures PadStart(s + [c], width) == PadStart(s, width - 1) + [c]
  {
    if |s| + 1 < width {
      assert Zeros(width - |s| - 1) + (s + [c]) == (Zeros(width - 1 - |s|) + s) + [c];
    }
  }

  /** Appending a digit to a positive value appends it to the rendering. */
  lemma DecimalSnoc(v: nat, c: char)
    requires 0 < v && IsDigit(c)
    ensures Decimal(v * 10 + DigitValue(c)) == Decimal(v) + [c]
  {
    var n := v * 10 + DigitValue(c);
    assert n / 10 == v && n % 10 == DigitValue(c);
  }

  /** Rendering the value of a digit string at its own width gives the
      string back, leading zeros included. */
  lemma {:induction false} DigitsOfValue(t: string)
    requires 1 <= |t| && AllDigits(t)
    ensures Digits(ParseDecimal(t), |t|) == t
  {
    var init := t[..|t| - 1];
    SnocValue(t);
    if ParseDecimal(init) == 0 {
      ZeroPrefixDigits(t);
    } else {
      DigitsOfValue(init);
      DigitsSnoc(t);
    }
  }

  /** The value of a digit string is ten times the value of all but its
      last digit, plus that digit. */
  lemma SnocValue(t: string)
    requires 1 <= |t| && AllDigits(t)
    ensures AllDigits(t[..|t| - 1])
    ensures ParseDecimal(t) == ParseDecimal(t[..|t| - 1]) * 10 + DigitValue(t[|t| - 1])
  {
  }

  /** Zeros followed by one digit render back at their width. */
  lemma ZeroPrefixDigits(t: string)
    requires 1 <= |t| && AllDigits(t) && AllDigits(t[..|t| - 1])
    requires ParseDecimal(t[..|t| - 1]) == 0
    ensures Digits(ParseDecimal(t), |t|) == t
  {
    var init, c := t[..|t| - 1], t[|t| - 1];
    assert t == init + [c] by { LastSplit(t); }
    assert init == Zeros(|init|) by { ZeroValueIsZeros(init); }
    assert ParseDecimal(t) == DigitValue(c);
    assert Decimal(DigitValue(c)) == [c] by { SingleDigit(c); }
    if |init| == 0 {
      assert Digits(DigitValue(c), |t|) == [c];
    } else {
      assert Digits(DigitValue(c), |t|) == Zeros(|init|) + [c];
    }
  }

  /** A single digit is its own rendering. */
  lemma SingleDigit(c: char)
    requires IsDigit(c)
    ensures Decimal(DigitValue(c)) == [c]
  {
  }

  /** One more digit after a positive prefix that renders back. */
  lemma DigitsSnoc(t: string)
    requires 1 <= |t| && AllDigits(t) && AllDigits(t[..|t| - 1])
    requires 0 < ParseDecimal(t[..|t| - 1])
    requires Digits(ParseDecimal(t[..|t| - 1]), |t| - 1) == t[..|t| - 1]
    ensures Digits(ParseDecimal(t), |t|) == t
  {
    var init, c := t[..|t| - 1], t[|t| - 1];
    LastSplit(t);
    var v := ParseDecimal(init);
    assert ParseDecimal(t) == v * 10 + DigitValue(c);
    DecimalSnoc(v, c);
    PadStartSnoc(Decimal(v), c, |t|);
  }

  lemma LastSplit(t: string)
    requires 1 <= |t|
    ensures t == t[..|t| - 1] + [t[|t| - 1]]
  {
  }

  /** The two-digit rendering of a number below 100: tens, then units. */
  lemma TwoDigits(n: nat)
    requires n < 100
    ensures Digits(n, 2) == [DigitChar(n / 10), DigitChar(n % 10)]
  {
    if n >= 10 {
      assert Decimal(n) == Decimal(n / 10) + [DigitChar(n % 10)];
    }
  }
}
