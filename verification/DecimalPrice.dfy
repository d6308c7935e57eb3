/** Decimal price strings to minor units (src/candidates/printful-catalog-provider.ts:92-103). */
module DecimalPrice {

  datatype Result = Ok(minor: nat) | Invalid | ExcessPrecision | OutOfRange

  const MAX_SAFE_INTEGER: nat := 9007199254740991

  const ZERO_DECIMAL_CURRENCIES: set<string> :=
    {"BIF", "CLP", "DJF", "GNF", "ISK", "JPY", "KMF", "KRW", "PYG", "RWF", "UGX", "VND", "VUV", "XAF", "XOF", "XPF"}
  const THREE_DECIMAL_CURRENCIES: set<string> := {"BHD", "IQD", "JOD", "KWD", "LYD", "OMR", "TND"}

  function Exponent(currency: string): nat {
    if currency in ZERO_DECIMAL_CURRENCIES then 0 else if currency in THREE_DECIMAL_CURRENCIES then 3 else 2
  }

  // ---- digits ----

  predicate IsDigit(c: char) { '0' <= c <= '9' }

  predicate Digits(s: string) { forall c :: c in s ==> IsDigit(c) }

  function Pow10(n: nat): (p: nat)
    ensures p > 0
  {
    if n == 0 then 1 else 10 * Pow10(n - 1)
  }

  function DigitValue(c: char): (d: nat)
    requires IsDigit(c)
    ensures d < 10
  {
    c as int - '0' as int
  }

  /** The number a digit string reads as; the empty string reads as 0. */
  function Number(s: string): nat
    requires Digits(s)
  {
    if s == [] then 0 else Number(s[..|s| - 1]) * 10 + DigitValue(s[|s| - 1])
  }

  // ---- the decimal format ----

  datatype Decimal = Decimal(whole: string, fraction: string)

  function Point(s: string): (n: nat)
    ensures n <= |s| && (n < |s| ==> s[n] == '.') && forall k :: 0 <= k < n ==> s[k] != '.'
  {
    if s == [] || s[0] == '.' then 0 else 1 + Point(s[1..])
  }

  /** Digits, or digits, a point and digits. */
  predicate IsDecimal(s: string) {
    var n := Point(s);
    n > 0 && Digits(s[..n]) && (n < |s| ==> n + 1 < |s| && Digits(s[n + 1..]))
  }

  function Parts(s: string): Decimal {
    var n := Point(s);
    if n < |s| then Decimal(s[..n], s[n + 1..]) else Decimal(s, "")
  }

  function Zeros(n: nat): (s: string)
    ensures |s| == n && Digits(s)
  {
    seq(n, _ => '0')
  }

  function PadEnd(s: string, n: nat): string { if |s| < n then s + Zeros(n - |s|) else s }

  function Slice(s: string, n: nat): string { if |s| < n then s else s[..n] }

  predicate HasNonZero(s: string) { exists c :: c in s && '1' <= c <= '9' }

  /** `None` stands for a value that is not a string. */
  datatype Value = NotString | Text(text: string)

  function DecimalPriceToMinor(value: Value, currency: string): Result {
    if value.NotString? || !IsDecimal(value.text) then Invalid
    else
      var e := Exponent(currency);
      var parts := Parts(value.text);
      if |parts.fraction| > e && HasNonZero(parts.fraction[e..]) then ExcessPrecision
      else
        var minor := Computed(value.text, e);
        if minor <= 0 || minor > MAX_SAFE_INTEGER then OutOfRange else Ok(minor)
  }

  lemma PartsAreDigits(s: string)
    requires IsDecimal(s)
    ensures Digits(Parts(s).whole) && Digits(Parts(s).fraction)
    ensures forall e: nat :: Digits(PadEnd(Slice(Parts(s).fraction, e), e))
  {
    var n := Point(s);
    if n == |s| { assert s[..n] == s; }
  }

  // ---- the exact value ----

  /** The text, read as a decimal number, times 10^e is m: both sides scaled by 10 to the number of decimals. */
  predicate Means(s: string, e: nat, m: nat)
    requires IsDecimal(s)
  {
    PartsAreDigits(s);
    var parts := Parts(s);
    Number(parts.whole + parts.fraction) * Pow10(e) == m * Pow10(|parts.fraction|)
  }

  lemma {:induction false} PowSum(a: nat, b: nat)
    ensures Pow10(a + b) == Pow10(a) * Pow10(b)
  {
    if a > 0 {
      PowSum(a - 1, b);
      assert Pow10(a + b) == 10 * Pow10(a - 1 + b);
      assert 10 * (Pow10(a - 1) * Pow10(b)) == (10 * Pow10(a - 1)) * Pow10(b);
    }
  }

  lemma {:induction false} NumberJoined(s: string, t: string)
    requires Digits(s) && Digits(t)
    ensures Digits(s + t) && Number(s + t) == Number(s) * Pow10(|t|) + Number(t)
    decreases |t|
  {
    if t == [] {
      assert s + t == s;
    } else {
      var n := |t| - 1;
      assert (s + t)[..|s| + n] == s + t[..n];
      NumberJoined(s, t[..n]);
      Regroup(Number(s), Pow10(n), Number(t[..n]), DigitValue(t[n]));
    }
  }

  lemma Regroup(a: nat, p: nat, b: nat, d: int)
    ensures (a * p + b) * 10 + d == a * (10 * p) + (b * 10 + d)
  {
  }

  lemma {:induction false} NumberSmall(s: string)
    requires Digits(s)
    ensures Number(s) < Pow10(|s|)
    ensures Number(s) == 0 <==> !HasNonZero(s)
  {
    if s != [] {
      var n := |s| - 1;
      NumberSmall(s[..n]);
      assert s == s[..n] + [s[n]];
      LastDigit(s[..n], s[n]);
    }
  }

  lemma LastDigit(s: string, c: char)
    requires IsDigit(c)
    ensures HasNonZero(s + [c]) <==> HasNonZero(s) || DigitValue(c) != 0
  {
    if DigitValue(c) != 0 { assert c in s + [c]; }
    if d :| d in s && '1' <= d <= '9' { assert d in s + [c]; }
  }

  lemma {:induction false} NumberOfZeros(n: nat)
    ensures Number(Zeros(n)) == 0
  {
    if n > 0 {
      assert Zeros(n)[..n - 1] == Zeros(n - 1);
      NumberOfZeros(n - 1);
    }
  }

  lemma {:induction false} Padded(fraction: string, e: nat)
    requires Digits(fraction) && |fraction| <= e
    ensures Number(PadEnd(Slice(fraction, e), e)) == Number(fraction) * Pow10(e - |fraction|)
  {
    NumberJoined(fraction, Zeros(e - |fraction|));
    NumberOfZeros(e - |fraction|);
    assert fraction[..|fraction|] == fraction;
    assert fraction + [] == fraction;
  }

  lemma AtLeast(n: nat, p: nat)
    requires n >= 1
    ensures n * p >= p
  {
  }

  lemma Distribute(a: int, b: int, p: int)
    ensures (a - b) * p == a * p - b * p && (a + b) * p == a * p + b * p
  {
  }

  /** a * p + r with r below p fixes a and r. */
  lemma Remainder(a: nat, r: nat, m: nat, p: nat)
    requires r < p
    ensures a * p + r == m * p <==> r == 0 && a == m
  {
    Distribute(m, a, p);
    Distribute(a, m, p);
    if a < m { AtLeast(m - a, p); }
    if a > m { AtLeast(a - m, p); }
  }

  lemma FewArithmetic(w: nat, f: nat, p: nat, q: nat, m: nat, all: nat, scale: nat, padded: nat)
    requires p > 0 && scale == p * q && all == w * p + f && padded == f * q
    ensures all * scale == m * p <==> m == w * scale + padded
  {
    var a := w * (p * q) + f * q;
    assert (w * p + f) * (p * q) == a * p + 0;
    Remainder(a, 0, m, p);
  }

  lemma ManyArithmetic(w: nat, f: nat, f1: nat, f2: nat, p: nat, q: nat, m: nat, all: nat, scale: nat)
    requires f2 < p && q > 0 && scale == p * q && f == f1 * p + f2 && all == w * scale + f
    ensures all * q == m * scale <==> f2 == 0 && m == w * q + f1
  {
    ThreeFactors(m, p, q);
    Remainder(all, 0, m * p, q);
    ThreeFactors(w, p, q);
    Distribute(w * q, f1, p);
    var a := w * q + f1;
    assert all == a * p + f2;
    Remainder(a, f2, m, p);
  }

  lemma ThreeFactors(a: nat, p: nat, q: nat)
    ensures a * (p * q) == (a * p) * q == (a * q) * p
  {
  }

  /** The number the source computes from the two parts. */
  function Computed(s: string, e: nat): nat
    requires IsDecimal(s)
  {
    PartsAreDigits(s);
    Number(Parts(s).whole) * Pow10(e) + Number(PadEnd(Slice(Parts(s).fraction, e), e))
  }

  /** The definitions of the exact value and of the computed one, spelled out. */
  lemma MeansIs(s: string, e: nat, m: nat)
    requires IsDecimal(s)
    ensures Digits(Parts(s).whole) && Digits(Parts(s).fraction) && Digits(Parts(s).whole + Parts(s).fraction)
    ensures Digits(PadEnd(Slice(Parts(s).fraction, e), e))
    ensures Means(s, e, m) <==> Number(Parts(s).whole + Parts(s).fraction) * Pow10(e) == m * Pow10(|Parts(s).fraction|)
    ensures Computed(s, e) == Number(Parts(s).whole) * Pow10(e) + Number(PadEnd(Slice(Parts(s).fraction, e), e))
  {
    PartsAreDigits(s);
    hide Number, Pow10, Parts, IsDecimal, PadEnd, Slice;
  }

  /** With at most e decimals the exact value is always whole, and it is the computed one. */
  lemma FewDecimals(s: string, e: nat, m: nat)
    requires IsDecimal(s) && |Parts(s).fraction| <= e
    ensures Means(s, e, m) <==> m == Computed(s, e)
  {
    PartsAreDigits(s);
    var w, f := Parts(s).whole, Parts(s).fraction;
    NumberJoined(w, f);
    Padded(f, e);
    PowSum(|f|, e - |f|);
    MeansIs(s, e, m);
    hide *;
    FewArithmetic(Number(w), Number(f), Pow10(|f|), Pow10(e - |f|), m,
                  Number(w + f), Pow10(e), Number(PadEnd(Slice(f, e), e)));
  }

  /** With more decimals it is whole exactly when all decimals past the e-th are zero. */
  lemma ManyDecimals(s: string, e: nat, m: nat)
    requires IsDecimal(s) && |Parts(s).fraction| > e
    ensures Means(s, e, m) <==> !HasNonZero(Parts(s).fraction[e..]) && m == Computed(s, e)
  {
    PartsAreDigits(s);
    var w, f := Parts(s).whole, Parts(s).fraction;
    var f1, f2 := f[..e], f[e..];
    assert f == f1 + f2 && PadEnd(Slice(f, e), e) == f1;
    hide HasNonZero;
    NumberJoined(w, f);
    NumberJoined(f1, f2);
    NumberSmall(f2);
    PowSum(|f2|, e);
    MeansIs(s, e, m);
    hide *;
    ManyArithmetic(Number(w), Number(f), Number(f1), Number(f2), Pow10(|f2|), Pow10(e), m, Number(w + f), Pow10(|f|));
  }

  /**
   A price is accepted exactly when it is a decimal string whose value in minor units is a whole number
   from 1 to the safe limit; and that number is the answer.
   */
  lemma AcceptsExactly(value: Value, currency: string, m: nat)
    ensures DecimalPriceToMinor(value, currency) == Ok(m)
       <==> value.Text? && IsDecimal(value.text) && Means(value.text, Exponent(currency), m) && 1 <= m <= MAX_SAFE_INTEGER
  {
    if value.Text? && IsDecimal(value.text) {
      var e := Exponent(currency);
      if |Parts(value.text).fraction| <= e { FewDecimals(value.text, e, m); } else { ManyDecimals(value.text, e, m); }
      hide Computed, Means, IsDecimal, Parts, Exponent, HasNonZero;
    }
  }

  // ---- trailing zeros ----

  /** The accepted number, whatever the reason for refusing. */
  function Accepted(value: Value, currency: string): (r: Result)
    ensures r.Ok? || r == Invalid
  {
    var r := DecimalPriceToMinor(value, currency);
    if r.Ok? then r else Invalid
  }

  lemma SameMeaning(s: string, t: string, currency: string)
    requires IsDecimal(s) && IsDecimal(t) && forall m :: Means(s, Exponent(currency), m) <==> Means(t, Exponent(currency), m)
    ensures Accepted(Text(s), currency) == Accepted(Text(t), currency)
  {
    var r, q := Accepted(Text(s), currency), Accepted(Text(t), currency);
    hide Means, IsDecimal, Exponent;
    if r.Ok? {
      AcceptsExactly(Text(s), currency, r.minor);
      AcceptsExactly(Text(t), currency, r.minor);
    }
    if q.Ok? {
      AcceptsExactly(Text(s), currency, q.minor);
      AcceptsExactly(Text(t), currency, q.minor);
    }
  }

  lemma {:induction false} PointOf(w: string, rest: string)
    requires Digits(w) && (rest == [] || rest[0] == '.')
    ensures Point(w + rest) == |w|
  {
    var s := w + rest;
    assert forall k :: 0 <= k < |w| ==> s[k] in w;
    assert |s| > |w| ==> s[|w|] == rest[0];
  }

  lemma DecimalOf(w: string, f: string)
    requires Digits(w) && Digits(f) && w != []
    ensures f != [] ==> IsDecimal(w + "." + f) && Parts(w + "." + f) == Decimal(w, f)
    ensures IsDecimal(w) && Parts(w) == Decimal(w, "")
  {
    PointOf(w, "." + f);
    PointOf(w, "");
    assert w + "" == w && w[..|w|] == w;
    var s := w + "." + f;
    assert s == w + ("." + f) && s[..|w|] == w && s[|w| + 1..] == f;
  }

  lemma ZerosMean(w: string, f: string, n: nat, s: string, t: string, e: nat, m: nat)
    requires IsDecimal(s) && IsDecimal(t) && Digits(w) && Digits(f)
    requires Parts(s) == Decimal(w, f) && Parts(t) == Decimal(w, f + Zeros(n))
    ensures Means(s, e, m) <==> Means(t, e, m)
  {
    hide Number, Pow10, Means, Parts, IsDecimal, Computed, PadEnd, Slice;
    NumberJoined(w, f);
    NumberJoined(w + f, Zeros(n));
    NumberOfZeros(n);
    PowSum(|f|, n);
    assert w + (f + Zeros(n)) == w + f + Zeros(n);
    MeansIs(s, e, m);
    MeansIs(t, e, m);
    hide *;
    ScaledBoth(Number(w + f), Pow10(n), Pow10(e), m, Pow10(|f|), Number(w + (f + Zeros(n))), Pow10(|f| + n));
  }

  /** Writing more zeros after the last decimal, or ".0" after a whole number, changes nothing. */
  lemma TrailingZeros(w: string, f: string, n: nat, currency: string)
    requires Digits(w) && Digits(f) && w != [] && n > 0
    ensures Accepted(Text(w + "." + f + Zeros(n)), currency) == Accepted(Text(if f == [] then w else w + "." + f), currency)
  {
    var s, t := if f == [] then w else w + "." + f, w + "." + (f + Zeros(n));
    assert t == w + "." + f + Zeros(n);
    DecimalOf(w, f);
    DecimalOf(w, f + Zeros(n));
    hide *;
    forall m ensures Means(s, Exponent(currency), m) <==> Means(t, Exponent(currency), m) {
      ZerosMean(w, f, n, s, t, Exponent(currency), m);
    }
    SameMeaning(s, t, currency);
  }

  lemma ScaledBoth(a: nat, z: nat, q: nat, m: nat, p: nat, b: nat, r: nat)
    requires z > 0 && b == a * z + 0 && r == p * z
    ensures a * q == m * p <==> b * q == m * r
  {
    assert b * q == (a * q) * z && m * r == (m * p) * z;
    Remainder(a * q, 0, m * p, z);
  }

  // ---- printing and reading back ----

  function Print(n: nat): (s: string)
    ensures s != [] && Digits(s) && Number(s) == n
  {
    var digit := ['0' + (n % 10) as char];
    assert digit[..0] == [];
    if n < 10 then digit
    else
      var high := Print(n / 10);
      assert (high + digit)[..|high|] == high;
      high + digit
  }

  function PadStart(s: string, n: nat): string { if |s| < n then Zeros(n - |s|) + s else s }

  /** The canonical text of an amount: as many decimals as the currency has. */
  function Printed(minor: nat, currency: string): string {
    var e := Exponent(currency);
    if e == 0 then Print(minor) else Print(Whole(minor, Pow10(e))) + "." + PadStart(Print(Rest(minor, Pow10(e))), e)
  }

  function Whole(minor: nat, p: nat): nat
    requires p > 0
  {
    minor / p
  }

  function Rest(minor: nat, p: nat): nat
    requires p > 0
  {
    minor % p
  }

  lemma WholeAndRest(minor: nat, p: nat)
    requires p > 0
    ensures Whole(minor, p) * p + Rest(minor, p) == minor && Rest(minor, p) < p
  {
  }

  lemma {:induction false} PrintLength(n: nat, e: nat)
    requires n < Pow10(e) && e > 0
    ensures |Print(n)| <= e
    decreases n
  {
    if n >= 10 { PrintLength(n / 10, e - 1); }
  }

  lemma ZerosInFront(s: string, k: nat)
    requires Digits(s)
    ensures Digits(Zeros(k) + s) && Number(Zeros(k) + s) == Number(s)
  {
    NumberJoined(Zeros(k), s);
    NumberOfZeros(k);
    hide *;
    NothingTimes(Number(Zeros(k)), Pow10(|s|));
  }

  lemma NothingTimes(a: nat, p: nat)
    requires a == 0
    ensures a * p == 0
  {
  }

  lemma PadStartReads(n: nat, e: nat)
    requires n < Pow10(e) && e > 0
    ensures |PadStart(Print(n), e)| == e && Digits(PadStart(Print(n), e)) && Number(PadStart(Print(n), e)) == n
  {
    PrintLength(n, e);
    hide Print, Number, Pow10, Digits;
    if |Print(n)| < e { ZerosInFront(Print(n), e - |Print(n)|); }
  }

  /** Reading the canonical text of an amount gives the amount back. */
  lemma PrintedRoundTrip(minor: nat, currency: string)
    requires 1 <= minor <= MAX_SAFE_INTEGER
    ensures DecimalPriceToMinor(Text(Printed(minor, currency)), currency) == Ok(minor)
  {
    var e := Exponent(currency);
    if e == 0 {
      WholeText(Print(minor), minor);
    } else {
      WholeAndRest(minor, Pow10(e));
      PadStartReads(Rest(minor, Pow10(e)), e);
      assert Printed(minor, currency) == Print(Whole(minor, Pow10(e))) + "." + PadStart(Print(Rest(minor, Pow10(e))), e);
      hide *;
      PointText(Print(Whole(minor, Pow10(e))), PadStart(Print(Rest(minor, Pow10(e))), e), e, minor);
    }
    hide *;
    AcceptsExactly(Text(Printed(minor, currency)), currency, minor);
  }

  lemma WholeText(w: string, m: nat)
    requires Digits(w) && w != [] && Number(w) == m
    ensures IsDecimal(w) && Means(w, 0, m)
  {
    DecimalOf(w, "");
    hide IsDecimal, Parts, Number;
    assert w + "" == w;
  }

  lemma PointText(w: string, f: string, e: nat, m: nat)
    requires Digits(w) && Digits(f) && w != [] && f != [] && |f| == e && Number(w) * Pow10(e) + Number(f) == m
    ensures IsDecimal(w + "." + f) && Means(w + "." + f, e, m)
  {
    DecimalOf(w, f);
    NumberJoined(w, f);
    MeansIs(w + "." + f, e, m);
    hide *;
    assert Number(w + f) == m;
  }
}
