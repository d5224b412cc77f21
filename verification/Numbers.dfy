/** Positional number representations: decimal digit strings and little-endian bytes. */
module Numbers {
  import opened Types

  function Pow10(n: nat): (p: nat)
    ensures p > 0
  {
    if n == 0 then 1 else 10 * Pow10(n - 1)
  }

  lemma {:induction false} Pow10Add(m: nat, n: nat)
    ensures Pow10(m + n) == Pow10(m) * Pow10(n)
  {
    if m > 0 {
      Pow10Add(m - 1, n);
      ShiftDigits(Pow10(n), Pow10(m - 1), 0, 0);
    }
  }

  predicate IsDigit(c: char) {
    '0' <= c <= '9'
  }

  predicate AllDigits(s: string) {
    forall i | 0 <= i < |s| :: IsDigit(s[i])
  }

  function DigitChar(d: nat): (c: char)
    requires d < 10
    ensures IsDigit(c) && DigitOf(c) == d
  {
    '0' + d as char
  }

  function DigitOf(c: char): (d: nat)
    requires IsDigit(c)
    ensures d < 10 && d == c as int - 48 && (d == 0 <==> c == '0')
  {
    c as int - '0' as int
  }

  /** Decimal printing of a natural number, most significant digit first. */
  function Decimal(n: nat): (s: string)
    ensures |s| > 0 && AllDigits(s)
  {
    if n < 10 then [DigitChar(n)] else Decimal(n / 10) + [DigitChar(n % 10)]
  }

  /** The number a digit string denotes; the empty string denotes zero. */
  function Value(s: string): nat
    requires AllDigits(s)
  {
    if s == "" then 0 else 10 * Value(s[..|s| - 1]) + DigitOf(s[|s| - 1])
  }

  lemma {:induction false} DecimalDenotes(n: nat)
    ensures Value(Decimal(n)) == n
    ensures n > 0 ==> Decimal(n)[0] != '0'
    ensures |Decimal(n)| > 1 ==> n >= 10
  {
    if n >= 10 {
      DecimalDenotes(n / 10);
      var s := Decimal(n);
      assert s[..|s| - 1] == Decimal(n / 10);
    } else {
      var s := Decimal(n);
      assert s[..|s| - 1] == "";
      assert Value(s[..|s| - 1]) == 0;
    }
  }

  lemma {:induction false} ValueConcat(s: string, t: string)
    requires AllDigits(s) && AllDigits(t)
    ensures AllDigits(s + t)
    ensures Value(s + t) == Value(s) * Pow10(|t|) + Value(t)
  {
    if t == "" {
      assert s + t == s;
    } else {
      var t' := t[..|t| - 1];
      ValueConcat(s, t');
      assert (s + t)[..|s + t| - 1] == s + t';
      ShiftDigits(Value(s), Pow10(|t'|), Value(t'), DigitOf(t[|t| - 1]));
    }
  }

  lemma ShiftDigits(a: nat, p: nat, b: nat, d: nat)
    ensures 10 * (a * p + b) + d == a * (10 * p) + (10 * b + d)
  {
  }

  lemma {:induction false} ValueBound(s: string)
    requires AllDigits(s)
    ensures Value(s) < Pow10(|s|)
    ensures s != "" && s[0] != '0' ==> Value(s) >= Pow10(|s| - 1)
  {
    if s != "" {
      ValueBound(s[..|s| - 1]);
    }
  }

  lemma {:induction false} ValueOfZeros(n: nat)
    ensures var zeros := seq(n, _ => '0'); AllDigits(zeros) && Value(zeros) == 0
  {
    var zeros := seq(n, _ => '0');
    if n > 0 {
      ValueOfZeros(n - 1);
      assert zeros[..n - 1] == seq(n - 1, _ => '0');
    }
  }

  /** Digit strings of one length are determined by the number they denote. */
  lemma {:induction false} ValueInjective(s: string, t: string)
    requires AllDigits(s) && AllDigits(t) && |s| == |t| && Value(s) == Value(t)
    ensures s == t
  {
    if s != "" {
      var n := |s| - 1;
      ValueInjective(s[..n], t[..n]);
      assert DigitOf(s[n]) == DigitOf(t[n]);
      assert s == s[..n] + [s[n]] && t == t[..n] + [t[n]];
    }
  }

  lemma DecimalInjective(m: nat, n: nat)
    requires Decimal(m) == Decimal(n)
    ensures m == n
  {
    DecimalDenotes(m);
    DecimalDenotes(n);
  }

  function Pow256(n: nat): (p: nat)
    ensures p > 0
  {
    if n == 0 then 1 else 0x100 * Pow256(n - 1)
  }

  /** The `width` low-order bytes of `n`, least significant first. */
  function LittleEndian(n: nat, width: nat): (b: Bytes)
    ensures |b| == width
  {
    if width == 0 then [] else [n % 0x100] + LittleEndian(n / 0x100, width - 1)
  }

  function FromLittleEndian(b: Bytes): nat {
    if b == [] then 0 else b[0] + 0x100 * FromLittleEndian(b[1..])
  }

  lemma {:induction false} LittleEndianDenotes(n: nat, width: nat)
    requires n < Pow256(width)
    ensures FromLittleEndian(LittleEndian(n, width)) == n
  {
    if width > 0 {
      LittleEndianDenotes(n / 0x100, width - 1);
      assert LittleEndian(n, width)[1..] == LittleEndian(n / 0x100, width - 1);
    }
  }

  function Reverse(b: Bytes): (r: Bytes)
    ensures |r| == |b|
  {
    if b == [] then [] else Reverse(b[1..]) + [b[0]]
  }

  lemma {:induction false} ReverseAt(b: Bytes, i: nat)
    requires i < |b|
    ensures Reverse(b)[i] == b[|b| - 1 - i]
  {
    if i < |b| - 1 { ReverseAt(b[1..], i); }
  }

  lemma ReverseTwice(b: Bytes)
    ensures Reverse(Reverse(b)) == b
  {
    forall i | 0 <= i < |b| ensures Reverse(Reverse(b))[i] == b[i] {
      ReverseAt(Reverse(b), i);
      ReverseAt(b, |b| - 1 - i);
    }
  }

  /** 256-bit words as 32 bytes, most significant first. */
  function BigEndian(n: U256): H256 {
    Reverse(LittleEndian(n, 32))
  }

  function FromBigEndian(b: H256): nat {
    FromLittleEndian(Reverse(b))
  }

  lemma WordBound()
    ensures Pow256(32) == U256_LIMIT
  {
    assert Pow256(8) == 0x1_0000000000000000;
    assert Pow256(16) == Pow256(8) * 0x1_0000000000000000;
    assert Pow256(24) == Pow256(16) * 0x1_0000000000000000;
    assert Pow256(32) == Pow256(24) * 0x1_0000000000000000;
  }

  lemma LittleEndianWord(n: U256)
    ensures FromLittleEndian(LittleEndian(n, 32)) == n
  {
    WordBound();
    LittleEndianDenotes(n, 32);
  }

  lemma BigEndianWord(n: U256)
    ensures FromBigEndian(BigEndian(n)) == n
  {
    ReverseTwice(LittleEndian(n, 32));
    LittleEndianWord(n);
  }

  lemma QuotientOfQuotient(n: nat, a: nat, b: nat)
    requires a > 0 && b > 0
    ensures a * b > 0 && n / a / b == n / (a * b)
  {
    var q := n / a / b;
    var r := n - q * (a * b);
    assert n == (n / a) * a + n % a && n / a == q * b + n / a % b;
    assert (q * b + n / a % b) * a == q * (a * b) + n / a % b * a;
    assert r == n / a % b * a + n % a;
    RemainderBound(n / a % b, n % a, a, b);
    UniqueQuotient(n, a * b, q, r);
  }

  lemma RemainderBound(x: nat, y: nat, a: nat, b: nat)
    requires x < b && y < a
    ensures x * a + y < a * b
  {
    assert (x + 1) * a <= b * a;
  }

  lemma Multiples(x: nat, y: nat, d: nat)
    requires x <= y
    ensures x * d <= y * d
  {
  }

  lemma NextMultiple(x: nat, y: nat, d: nat)
    ensures x < y ==> x * d + d <= y * d
  {
    if x < y {
      Multiples(x + 1, y, d);
      assert (x + 1) * d == x * d + d;
    }
  }

  lemma UniqueQuotient(n: nat, d: nat, q: nat, r: nat)
    requires d > 0 && n == q * d + r && r < d
    ensures n / d == q
  {
    NextMultiple(n / d, q, d);
    NextMultiple(q, n / d, d);
  }

  /** The i-th byte counts the i-th power of 256. */
  lemma {:induction false} LittleEndianAt(n: nat, width: nat, i: nat)
    requires i < width
    ensures LittleEndian(n, width)[i] == n / Pow256(i) % 256
  {
    if i > 0 {
      LittleEndianAt(n / 0x100, width - 1, i - 1);
      QuotientOfQuotient(n, 0x100, Pow256(i - 1));
    }
  }

  /** In a word the first byte is the most significant. */
  lemma BigEndianAt(n: U256, i: nat)
    requires i < 32
    ensures BigEndian(n)[i] == n / Pow256(31 - i) % 256
  {
    ReverseAt(LittleEndian(n, 32), i);
    LittleEndianAt(n, 32, 31 - i);
  }

  lemma LowByte(b: Byte, n: nat)
    ensures (b + 0x100 * n) % 0x100 == b && (b + 0x100 * n) / 0x100 == n
  {
  }

  lemma {:induction false} LittleEndianOnto(b: Bytes)
    ensures FromLittleEndian(b) < Pow256(|b|) && LittleEndian(FromLittleEndian(b), |b|) == b
  {
    if b != [] {
      LittleEndianOnto(b[1..]);
      LowByte(b[0], FromLittleEndian(b[1..]));
      assert b == [b[0]] + b[1..];
    }
  }

  /** Every word denotes one number below 2^256, and is how that number is written. */
  lemma BigEndianOnto(b: H256)
    ensures FromBigEndian(b) < U256_LIMIT && BigEndian(FromBigEndian(b)) == b
  {
    WordBound();
    LittleEndianOnto(Reverse(b));
    ReverseTwice(b);
  }
}
