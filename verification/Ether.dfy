/** Printing an amount of wei as a decimal number of ether. */
module Ether {
  import opened Numbers

  const ETHER_DIGITS: nat := 18

  /** Rust's `trim_end_matches` with a single character. */
  function TrimEnd(s: string, c: char): (r: string)
    ensures |r| <= |s| && r == s[..|r|]
    ensures forall i | |r| <= i < |s| :: s[i] == c
    ensures r != "" ==> r[|r| - 1] != c
  {
    if s != "" && s[|s| - 1] == c then TrimEnd(s[..|s| - 1], c) else s
  }

  /** Where the decimal point is, or the length when there is none. */
  function PointAt(s: string): (k: nat)
    ensures k <= |s|
    ensures forall i | 0 <= i < k :: s[i] != '.'
    ensures k < |s| ==> s[k] == '.'
  {
    if s == "" || s[0] == '.' then 0 else 1 + PointAt(s[1..])
  }

  function Whole(s: string): string {
    s[..PointAt(s)]
  }

  function Fraction(s: string): string {
    if PointAt(s) < |s| then s[PointAt(s) + 1..] else ""
  }

  /** Digits, optionally followed by a point and more digits. */
  predicate IsDecimal(s: string) {
    Whole(s) != "" && AllDigits(Whole(s)) && AllDigits(Fraction(s))
  }

  /** No trailing point, no trailing zero after the point, no superfluous leading zero. */
  predicate IsCanonical(s: string)
    requires IsDecimal(s)
  {
    && (|Whole(s)| > 1 ==> s[0] != '0')
    && (PointAt(s) < |s| ==> Fraction(s) != "" && s[|s| - 1] != '0')
  }

  /** The rational number a decimal string denotes. */
  function Reading(s: string): real
    requires IsDecimal(s)
  {
    Value(Whole(s) + Fraction(s)) as real / Pow10(|Fraction(s)|) as real
  }

  lemma {:induction false} PointAfter(w: string, f: string)
    requires AllDigits(w)
    ensures PointAt(w) == |w|
    ensures PointAt(w + "." + f) == |w|
  {
    if w != "" {
      PointAfter(w[1..], f);
      assert (w + "." + f)[1..] == w[1..] + "." + f;
    }
  }

  lemma Parts(w: string, f: string)
    requires AllDigits(w)
    ensures Whole(w) == w && Fraction(w) == ""
    ensures Whole(w + "." + f) == w && Fraction(w + "." + f) == f
  {
    PointAfter(w, f);
  }

  lemma TrimmedValue(w: string, f: string, f': string)
    requires AllDigits(w) && AllDigits(f)
    requires |f'| <= |f| && f' == f[..|f'|]
    requires forall i | |f'| <= i < |f| :: f[i] == '0'
    ensures Value(w + f) == Value(w + f') * Pow10(|f| - |f'|)
  {
    var zeros := seq(|f| - |f'|, _ => '0');
    ValueOfZeros(|zeros|);
    assert w + f == (w + f') + zeros;
    ValueConcat(w + f', zeros);
  }

  /** Cross-multiplication turns an integer equation into equality of the two fractions. */
  lemma SameFraction(a: nat, m: nat, b: nat, n: nat)
    requires n <= m && a == b * Pow10(m - n)
    ensures a as real / Pow10(m) as real == b as real / Pow10(n) as real
  {
    Pow10Add(m - n, n);
    FractionScale(b, Pow10(m - n), Pow10(n));
  }

  lemma FractionScale(b: nat, p: nat, q: nat)
    requires p > 0 && q > 0
    ensures p * q > 0
    ensures (b * p) as real / (p * q) as real == b as real / q as real
  {
  }

  /** Padding: the digits of `i` split into a whole part and exactly eighteen decimals. */
  predicate Split(i: nat, w: string, f: string) {
    && AllDigits(w) && AllDigits(f) && w != "" && |f| == ETHER_DIGITS
    && Value(w + f) == i
    && (|w| > 1 ==> w[0] != '0')
  }

  lemma PaddedSplit(i: nat, padding: string)
    requires |Decimal(i)| <= ETHER_DIGITS
    requires padding == seq(ETHER_DIGITS - |Decimal(i)|, _ => '0')
    ensures Split(i, "0", padding + Decimal(i))
  {
    DecimalDenotes(i);
    ValueOfZeros(1 + |padding|);
    var zeros := seq(1 + |padding|, _ => '0');
    assert "0" + (padding + Decimal(i)) == zeros + Decimal(i);
    ValueConcat(zeros, Decimal(i));
  }

  /** Both trims together remove the trailing zeros of the decimals, then a point left bare. */
  lemma TrimShape(w: string, f: string) returns (f': string)
    requires AllDigits(w) && AllDigits(f) && w != ""
    ensures |f'| <= |f| && f' == f[..|f'|]
    ensures forall k | |f'| <= k < |f| :: f[k] == '0'
    ensures f' != "" ==> f'[|f'| - 1] != '0'
    ensures TrimEnd(TrimEnd(w + "." + f, '0'), '.') == if f' == "" then w else w + "." + f'
  {
    var padded := w + "." + f;
    var t := TrimEnd(padded, '0');
    assert padded[|w|] == '.';
    f' := f[..|t| - |w| - 1];
    assert t == w + "." + f';
    forall k | |f'| <= k < |f| ensures f[k] == '0' {
      assert padded[|w| + 1 + k] == f[k];
    }
    if f' == "" {
      TrimPoint(w);
    } else {
      assert t[|t| - 1] == f'[|f'| - 1];
    }
  }

  lemma TrimPoint(w: string)
    requires AllDigits(w) && w != ""
    ensures TrimEnd(w + ".", '.') == w
  {
  }

  /** An ether is 10^18 wei. */
  lemma EtherUnit()
    ensures Pow10(ETHER_DIGITS) == 1000000000000000000
  {
    assert Pow10(6) == 1000000;
    Pow10Add(6, 6);
    Pow10Add(12, 6);
  }

  lemma PrintedReading(i: nat, w: string, f: string, f': string, s: string)
    requires Split(i, w, f)
    requires |f'| <= |f| && f' == f[..|f'|]
    requires forall k | |f'| <= k < |f| :: f[k] == '0'
    requires Whole(s) == w && Fraction(s) == f'
    ensures IsDecimal(s) && Reading(s) == i as real / 1000000000000000000.0
  {
    TrimmedValue(w, f, f');
    SameFraction(i, ETHER_DIGITS, Value(w + f'), |f'|);
    EtherUnit();
  }

  /** `s` reads as `i` wei in ether, and is canonical. */
  predicate Denotes(s: string, i: nat) {
    IsDecimal(s) && IsCanonical(s) && Reading(s) == i as real / 1000000000000000000.0
  }

  function Trimmed(s: string): string {
    TrimEnd(TrimEnd(s, '0'), '.')
  }

  lemma TrimmedPrint(i: nat, w: string, f: string)
    requires Split(i, w, f)
    ensures Denotes(Trimmed(w + "." + f), i)
  {
    var f' := TrimShape(w, f);
    var s := if f' == "" then w else w + "." + f';
    Parts(w, f');
    PointAfter(w, f');
    PrintedReading(i, w, f, f', s);
  }

  lemma ShortPrint(i: nat, prefix: string)
    requires |Decimal(i)| <= ETHER_DIGITS
    requires prefix == "0." + seq(ETHER_DIGITS - |Decimal(i)|, _ => '0')
    ensures Denotes(Trimmed(prefix + Decimal(i)), i)
  {
    var padding := seq(ETHER_DIGITS - |Decimal(i)|, _ => '0');
    assert prefix + Decimal(i) == "0" + "." + (padding + Decimal(i));
    PaddedSplit(i, padding);
    TrimmedPrint(i, "0", padding + Decimal(i));
  }

  lemma LongPrint(i: nat, idx: nat)
    requires idx > 0 && idx + ETHER_DIGITS == |Decimal(i)|
    ensures Denotes(Trimmed(Decimal(i)[..idx] + "." + Decimal(i)[idx..]), i)
  {
    DecimalDenotes(i);
    assert Decimal(i)[..idx] + Decimal(i)[idx..] == Decimal(i);
    TrimmedPrint(i, Decimal(i)[..idx], Decimal(i)[idx..]);
  }

  /** Prints `i` wei in ether. */
  method FormatEther(i: nat) returns (s: string)
    ensures IsDecimal(s) && IsCanonical(s)
    ensures Reading(s) == i as real / 1000000000000000000.0
  {
    var digits := Decimal(i);
    var idx := |digits| - ETHER_DIGITS;
    if idx <= 0 {
      var prefix := "0.";
      for k := 0 to -idx
        invariant prefix == "0." + seq(k, _ => '0')
      {
        prefix := prefix + ['0'];
      }
      ShortPrint(i, prefix);
      s := TrimEnd(TrimEnd(prefix + digits, '0'), '.');
    } else {
      LongPrint(i, idx);
      s := TrimEnd(TrimEnd(digits[..idx] + "." + digits[idx..], '0'), '.');
    }
  }

  lemma SameFractionInverse(a: nat, m: nat, b: nat, n: nat)
    requires n <= m
    requires a as real / Pow10(m) as real == b as real / Pow10(n) as real
    ensures a == b * Pow10(m - n)
  {
    SameFraction(b * Pow10(m - n), m, b, n);
    CancelDenominator(a, b * Pow10(m - n), Pow10(m));
  }

  lemma CancelDenominator(a: nat, b: nat, p: nat)
    requires p > 0 && a as real / p as real == b as real / p as real
    ensures a == b
  {
    assert a as real == (a as real / p as real) * p as real;
    assert b as real == (b as real / p as real) * p as real;
  }

  /** Strings of one reading have the same digits, up to a power of ten. */
  lemma ScaledDigits(s: string, t: string)
    requires IsDecimal(s) && IsDecimal(t) && Reading(s) == Reading(t)
    requires |Fraction(s)| <= |Fraction(t)|
    ensures Value(Whole(t) + Fraction(t))
         == Value(Whole(s) + Fraction(s)) * Pow10(|Fraction(t)| - |Fraction(s)|)
  {
    SameFractionInverse(Value(Whole(t) + Fraction(t)), |Fraction(t)|, Value(Whole(s) + Fraction(s)), |Fraction(s)|);
  }

  lemma LastDigit(digits: string)
    requires AllDigits(digits) && digits != ""
    ensures exists tens: nat :: Value(digits) == 10 * tens + DigitOf(digits[|digits| - 1])
  {
    var tens := Value(digits[..|digits| - 1]);
    assert Value(digits) == 10 * tens + DigitOf(digits[|digits| - 1]);
  }

  lemma TenTimes(k: nat, e: nat)
    requires e > 0
    ensures k * Pow10(e) == 10 * (k * Pow10(e - 1))
  {
    var p := Pow10(e - 1);
    assert Pow10(e) == 10 * p;
    assert k * (10 * p) == 10 * (k * p);
  }

  lemma NoUnits(tens: nat, digit: nat, other: nat)
    requires digit < 10 && 10 * tens + digit == 10 * other
    ensures digit == 0
  {
  }

  lemma MultipleOfTen(t: string, k: nat, e: nat)
    requires IsDecimal(t) && Fraction(t) != "" && e > 0
    requires Value(Whole(t) + Fraction(t)) == k * Pow10(e)
    ensures t[|t| - 1] == '0'
  {
    var digits := Whole(t) + Fraction(t);
    assert digits[|digits| - 1] == t[|t| - 1];
    LastDigit(digits);
    var tens: nat :| Value(digits) == 10 * tens + DigitOf(digits[|digits| - 1]);
    TenTimes(k, e);
    NoUnits(tens, DigitOf(digits[|digits| - 1]), k * Pow10(e - 1));
  }

  /** A longer fraction would have to end in a zero. */
  lemma SameScale(s: string, t: string)
    requires IsDecimal(s) && IsDecimal(t) && IsCanonical(t) && Reading(s) == Reading(t)
    ensures |Fraction(t)| <= |Fraction(s)|
  {
    if |Fraction(s)| < |Fraction(t)| {
      ScaledDigits(s, t);
      MultipleOfTen(t, Value(Whole(s) + Fraction(s)), |Fraction(t)| - |Fraction(s)|);
    }
  }

  lemma {:induction false} Pow10Monotone(m: nat, n: nat)
    requires m <= n
    ensures Pow10(m) <= Pow10(n)
  {
    if m < n { Pow10Monotone(m, n - 1); }
  }

  lemma SameWhole(u: string, v: string)
    requires AllDigits(u) && AllDigits(v) && u != "" && v != "" && Value(u) == Value(v)
    requires |u| > 1 ==> u[0] != '0'
    ensures |u| <= |v|
  {
    if |v| < |u| {
      Pow10Monotone(|v|, |u| - 1);
      ValueBound(u);
      ValueBound(v);
    }
  }

  lemma QuotientOrder(a: nat, b: nat, c: nat, d: nat, p: nat)
    requires a < c && b < p
    ensures a * p + b < c * p + d
  {
    Multiples(a + 1, c, p);
    assert (a + 1) * p == a * p + p;
  }

  lemma SameQuotient(a: nat, b: nat, c: nat, d: nat, p: nat)
    requires b < p && d < p && a * p + b == c * p + d
    ensures a == c && b == d
  {
    if a < c {
      QuotientOrder(a, b, c, d, p);
    } else if c < a {
      QuotientOrder(c, d, a, b, p);
    }
  }

  lemma SplitValues(s: string, t: string)
    requires IsDecimal(s) && IsDecimal(t) && |Fraction(s)| == |Fraction(t)|
    requires Value(Whole(s) + Fraction(s)) == Value(Whole(t) + Fraction(t))
    ensures Value(Whole(s)) == Value(Whole(t)) && Value(Fraction(s)) == Value(Fraction(t))
  {
    ValueConcat(Whole(s), Fraction(s));
    ValueConcat(Whole(t), Fraction(t));
    ValueBound(Fraction(s));
    ValueBound(Fraction(t));
    SameQuotient(Value(Whole(s)), Value(Fraction(s)), Value(Whole(t)), Value(Fraction(t)), Pow10(|Fraction(s)|));
  }

  lemma SameDigits(s: string, t: string)
    requires IsDecimal(s) && IsCanonical(s) && IsDecimal(t) && IsCanonical(t) && |Fraction(s)| == |Fraction(t)|
    requires Value(Whole(s)) == Value(Whole(t)) && Value(Fraction(s)) == Value(Fraction(t))
    ensures s == t
  {
    ValueInjective(Fraction(s), Fraction(t));
    SameWhole(Whole(s), Whole(t));
    SameWhole(Whole(t), Whole(s));
    ValueInjective(Whole(s), Whole(t));
    Rebuild(s);
    Rebuild(t);
  }

  lemma SameValue(s: string, t: string)
    requires IsDecimal(s) && IsDecimal(t) && |Fraction(s)| == |Fraction(t)| && Reading(s) == Reading(t)
    ensures Value(Whole(s) + Fraction(s)) == Value(Whole(t) + Fraction(t))
  {
    CancelDenominator(Value(Whole(s) + Fraction(s)), Value(Whole(t) + Fraction(t)), Pow10(|Fraction(s)|));
  }

  /** A number has at most one canonical decimal string. */
  lemma CanonicalUnique(s: string, t: string)
    requires IsDecimal(s) && IsCanonical(s) && IsDecimal(t) && IsCanonical(t)
    requires Reading(s) == Reading(t)
    ensures s == t
  {
    SameScale(s, t);
    SameScale(t, s);
    SameValue(s, t);
    SplitValues(s, t);
    SameDigits(s, t);
  }

  /** A canonical string is its whole part, plus a point and the fraction if there is one. */
  lemma Rebuild(s: string)
    requires IsDecimal(s) && IsCanonical(s)
    ensures s == if Fraction(s) == "" then Whole(s) else Whole(s) + "." + Fraction(s)
  {
  }

  /** So what is printed for one amount is never printed for another. */
  lemma PrintsDiffer(s: string, i: nat, t: string, j: nat)
    requires IsDecimal(s) && Reading(s) == i as real / 1000000000000000000.0
    requires IsDecimal(t) && Reading(t) == j as real / 1000000000000000000.0
    requires i != j
    ensures s != t
  {
    EtherUnit();
    if s == t {
      SameFractionInverse(i, ETHER_DIGITS, j, ETHER_DIGITS);
    }
  }
}
