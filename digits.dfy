/**
  Decimal digit strings: the filter that the minutes text field applies to what the user
  types, the value that `parseInt` gives a digit string, and the `toString` and
  `padStart(2, "0")` conversions that the clock display uses.
*/
module Digits {
  import opened Wrappers

  predicate IsDigit(c: char) {
    '0' <= c <= '9'
  }

  predicate AllDigits(s: string) {
    forall i :: 0 <= i < |s| ==> IsDigit(s[i])
  }

  function DigitValue(c: char): (d: nat)
    requires IsDigit(c)
    ensures d <= 9
  {
    c as int - '0' as int
  }

  function DigitChar(d: nat): (c: char)
    requires d <= 9
    ensures IsDigit(c) && DigitValue(c) == d
  {
    ('0' as int + d) as char
  }

  function Pow10(k: nat): (p: nat)
    ensures p >= 1
  {
    if k == 0 then 1 else 10 * Pow10(k - 1)
  }

  // ---------------------------------------------------------------------------
  // The input filter: replace every character outside [0-9] by nothing.
  // ---------------------------------------------------------------------------

  /** The text field's filter: the digits of `s`, in order; a digit string comes back unchanged. */
  function Filter(s: string): (r: string)
    ensures AllDigits(r)
    ensures |r| <= |s|
    ensures AllDigits(s) ==> r == s
  {
    if s == [] then []
    else
      assert AllDigits(s) ==> AllDigits(s[1..]) by {
        forall i | 0 <= i < |s[1..]| ensures AllDigits(s) ==> IsDigit(s[1..][i]) {
          assert s[1..][i] == s[i + 1];
        }
      }
      (if IsDigit(s[0]) then [s[0]] else []) + Filter(s[1..])
  }

  /** Filtering commutes with concatenation: the relative order of the kept digits is the input's. */
  lemma {:induction false} FilterConcat(a: string, b: string)
    ensures Filter(a + b) == Filter(a) + Filter(b)
  {
    if a == [] {
      assert a + b == b;
    } else {
      assert (a + b)[0] == a[0];
      assert (a + b)[1..] == a[1..] + b;
      FilterConcat(a[1..], b);
    }
  }

  /** Every occurrence of a digit survives the filter, and no other character does. */
  lemma {:induction false} FilterCount(s: string, c: char)
    ensures multiset(Filter(s))[c] == if IsDigit(c) then multiset(s)[c] else 0
  {
    if s != [] {
      FilterCount(s[1..], c);
      assert s == [s[0]] + s[1..];
      assert multiset(s) == multiset([s[0]]) + multiset(s[1..]);
    }
  }

  /** Filtering what was already filtered changes nothing. */
  lemma FilterIdempotent(s: string)
    ensures Filter(Filter(s)) == Filter(s)
  {
  }

  // ---------------------------------------------------------------------------
  // Decimal value of a digit string (what parseInt computes for one).
  // ---------------------------------------------------------------------------

  /** The base-10 value of a digit string, most significant digit first; 0 for the empty string. */
  function DecimalValue(s: string): (v: nat)
    requires AllDigits(s)
    ensures v < Pow10(|s|)
  {
    if s == [] then 0
    else
      var init := s[..|s| - 1];
      assert AllDigits(init) by {
        forall i | 0 <= i < |init| ensures IsDigit(init[i]) { assert init[i] == s[i]; }
      }
      10 * DecimalValue(init) + DigitValue(s[|s| - 1])
  }

  /** `parseInt` applied to a digit string: no number (NaN) for the empty text, its decimal value otherwise. */
  function ParseDigits(s: string): (r: Option<nat>)
    requires AllDigits(s)
    ensures r.None? <==> s == []
    ensures r == Some(0) <==> s != [] && forall i :: 0 <= i < |s| ==> s[i] == '0'
    ensures r.Some? ==> r.value < Pow10(|s|)
  {
    ValueZeroIffAllZeros(s);
    if s == [] then None else Some(DecimalValue(s))
  }

  function Zeros(k: nat): (z: string)
    ensures |z| == k && AllDigits(z)
    ensures forall i :: 0 <= i < k ==> z[i] == '0'
  {
    if k == 0 then "" else "0" + Zeros(k - 1)
  }

  /** A string of zeros is worth 0. */
  lemma {:induction false} ZerosValue(k: nat)
    ensures DecimalValue(Zeros(k)) == 0
  {
    if k > 0 {
      assert Zeros(k)[..k - 1] == Zeros(k - 1);
      ZerosValue(k - 1);
    }
  }

  /** Leading zeros do not change the value: "007" parses like "7". */
  lemma {:induction false} LeadingZeros(k: nat, s: string)
    requires AllDigits(s)
    ensures AllDigits(Zeros(k) + s)
    ensures DecimalValue(Zeros(k) + s) == DecimalValue(s)
  {
    var t := Zeros(k) + s;
    assert AllDigits(t) by {
      forall i | 0 <= i < |t| ensures IsDigit(t[i]) {
        if i >= k { assert t[i] == s[i - k]; }
      }
    }
    if s == [] {
      assert t == Zeros(k);
      ZerosValue(k);
    } else {
      var init := s[..|s| - 1];
      assert t[..|t| - 1] == Zeros(k) + init;
      assert t[|t| - 1] == s[|s| - 1];
      assert AllDigits(init) by {
        forall i | 0 <= i < |init| ensures IsDigit(init[i]) { assert init[i] == s[i]; }
      }
      LeadingZeros(k, init);
    }
  }

  /** A digit string is worth 0 exactly when every one of its characters is '0'. */
  lemma {:induction false} ValueZeroIffAllZeros(s: string)
    requires AllDigits(s)
    ensures DecimalValue(s) == 0 <==> forall i :: 0 <= i < |s| ==> s[i] == '0'
  {
    if s != [] {
      var init := s[..|s| - 1];
      assert AllDigits(init) by {
        forall i | 0 <= i < |init| ensures IsDigit(init[i]) { assert init[i] == s[i]; }
      }
      ValueZeroIffAllZeros(init);
      if DecimalValue(s) == 0 {
        forall i | 0 <= i < |s| ensures s[i] == '0' {
          if i < |s| - 1 { assert s[i] == init[i]; }
        }
      }
      if forall i :: 0 <= i < |s| ==> s[i] == '0' {
        forall i | 0 <= i < |init| ensures init[i] == '0' { assert init[i] == s[i]; }
        assert s[|s| - 1] == '0';
      }
    }
  }

  // ---------------------------------------------------------------------------
  // Number.prototype.toString and String.prototype.padStart(2, "0").
  // ---------------------------------------------------------------------------

  /** The decimal spelling of `n`: a non-empty digit string worth `n`, with no leading zero unless `n` is 0. */
  function ToDecimal(n: nat): (r: string)
    ensures AllDigits(r) && |r| >= 1
    ensures DecimalValue(r) == n
    ensures r[0] == '0' ==> n == 0
    decreases n
  {
    if n < 10 then [DigitChar(n)]
    else
      var r := ToDecimal(n / 10) + [DigitChar(n % 10)];
      assert r[..|r| - 1] == ToDecimal(n / 10);
      r
  }

  /** `n` is spelled with at most `k` digits exactly when it is below 10^k. */
  lemma {:induction false} ToDecimalLength(n: nat, k: nat)
    requires k >= 1
    ensures |ToDecimal(n)| <= k <==> n < Pow10(k)
    decreases n
  {
    if n >= 10 {
      if k == 1 {
        assert Pow10(1) == 10;
      } else {
        ToDecimalLength(n / 10, k - 1);
      }
    } else {
      PowAtLeast(k);
    }
  }

  lemma {:induction false} PowAtLeast(k: nat)
    requires k >= 1
    ensures Pow10(k) >= 10
  {
    if k > 1 { PowAtLeast(k - 1); }
  }

  /** Spellings the clock display relies on. */
  lemma SpellingExamples()
    ensures ToDecimal(0) == "0" && ToDecimal(1) == "1"
    ensures ToDecimal(25) == "25" && ToDecimal(59) == "59"
    ensures ToDecimal(480) == "480"
  {
    assert ToDecimal(48) == "48";
  }

  /** `padStart(2, "0")`: at least two characters, `s` at the end, zeros in front of it. */
  function PadStart2(s: string): (r: string)
    ensures |r| == if |s| >= 2 then |s| else 2
    ensures r[|r| - |s|..] == s
    ensures r == Zeros(|r| - |s|) + s
  {
    if |s| >= 2 then s else if |s| == 1 then "0" + s else "00"
  }

  /** Padding a digit string gives a digit string with the same value. */
  lemma PadKeepsValue(s: string)
    requires AllDigits(s)
    ensures AllDigits(PadStart2(s)) && DecimalValue(PadStart2(s)) == DecimalValue(s)
  {
    if |s| < 2 {
      LeadingZeros(2 - |s|, s);
    }
  }

  /**
    `n.toString().padStart(2, "0")`: a digit string worth `n`, two characters wide below
    100 and as wide as the spelling of `n` from there on.
  */
  function PaddedDecimal(n: nat): (r: string)
    ensures AllDigits(r) && DecimalValue(r) == n
    ensures |r| >= 2 && (|r| == 2 <==> n < 100)
    ensures 100 <= n < 1000 ==> |r| == 3
  {
    PadKeepsValue(ToDecimal(n));
    ToDecimalLength(n, 2);
    ToDecimalLength(n, 3);
    assert Pow10(2) == 100 && Pow10(3) == 1000;
    PadStart2(ToDecimal(n))
  }

  lemma PaddedZero()
    ensures PaddedDecimal(0) == "00"
  {
    SpellingExamples();
  }

  lemma PaddedOne()
    ensures PaddedDecimal(1) == "01"
  {
    SpellingExamples();
  }

  lemma PaddedMaximum()
    ensures PaddedDecimal(480) == "480"
  {
    SpellingExamples();
  }
}
