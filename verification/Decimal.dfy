/** Decimal printing with a table of the two-digit numbers. */
module Decimal {
  import opened Bytes

  const ZERO: Byte := '0' as int

  // ----- numerals -----

  /** The last `k` decimal digits of `n`, with leading zeros. */
  function Digits(n: nat, k: nat): (s: Octets)
    ensures |s| == k
  {
    if k == 0 then [] else Digits(n / 10, k - 1) + [ZERO + n % 10]
  }

  predicate AllDigits(s: Octets)
  {
    forall k :: 0 <= k < |s| ==> ZERO <= s[k] <= ZERO + 9
  }

  /** The number that a string of digits stands for. */
  function ValueOf(s: Octets): nat
    requires AllDigits(s)
  {
    if s == [] then 0 else ValueOf(s[..|s| - 1]) * 10 + (s[|s| - 1] - ZERO)
  }

  /** The decimal numeral without leading zeros. */
  function Numeral(n: nat): (s: Octets)
    ensures s != []
  {
    if n < 10 then [ZERO + n] else Numeral(n / 10) + [ZERO + n % 10]
  }

  predicate NoLeadingZero(s: Octets)
  {
    |s| > 1 ==> s[0] != ZERO
  }

  /** `Numeral` reads back as its number, without a leading zero. */
  lemma {:induction false} NumeralReads(n: nat)
    ensures AllDigits(Numeral(n)) && ValueOf(Numeral(n)) == n && NoLeadingZero(Numeral(n))
    ensures n > 0 ==> Numeral(n)[0] != ZERO
  {
    if n >= 10 {
      NumeralReads(n / 10);
      assert Numeral(n)[..|Numeral(n)| - 1] == Numeral(n / 10);
    } else {
      assert [ZERO + n][..0] == [];
    }
  }

  /** It is the only such string. */
  lemma {:induction false} NumeralUnique(s: Octets)
    requires s != [] && AllDigits(s) && NoLeadingZero(s)
    ensures Numeral(ValueOf(s)) == s
  {
    var front, last := s[..|s| - 1], s[|s| - 1];
    if front == [] {
      assert ValueOf(front) == 0 && s == [last];
    } else {
      NumeralUnique(front);
      NumeralReads(ValueOf(front));
      FirstDigit(front);
      assert s == front + [last];
    }
  }

  lemma {:induction false} FirstDigit(s: Octets)
    requires s != [] && AllDigits(s) && s[0] != ZERO
    ensures ValueOf(s) > 0
  {
    if |s| > 1 {
      FirstDigit(s[..|s| - 1]);
    }
  }

  // ----- how numerals are put together from groups of digits -----

  /** What is left of `n` without its last `k` digits. */
  function Upper(n: nat, k: nat): nat
    decreases k
  {
    if k == 0 then n else Upper(n / 10, k - 1)
  }

  /** A numeral is the numeral of the upper part and `k` more digits. */
  lemma {:induction false} NumeralSplit(n: nat, k: nat)
    requires Upper(n, k) > 0
    ensures Numeral(n) == Numeral(Upper(n, k)) + Digits(n, k)
    decreases k
  {
    if k == 0 {
      assert Numeral(n) + [] == Numeral(n);
    } else {
      UpperSmaller(n / 10, k - 1);
      NumeralSplit(n / 10, k - 1);
      Assoc(Numeral(Upper(n, k)), Digits(n / 10, k - 1), [ZERO + n % 10]);
    }
  }

  lemma {:induction false} UpperSmaller(n: nat, k: nat)
    ensures Upper(n, k) <= n
    decreases k
  {
    if k > 0 { UpperSmaller(n / 10, k - 1); }
  }

  lemma Assoc(a: Octets, b: Octets, c: Octets)
    ensures a + b + c == a + (b + c)
  {
  }

  /** The same for a fixed number of digits. */
  lemma {:induction false} DigitsSplit(n: nat, j: nat, k: nat)
    ensures Digits(n, j + k) == Digits(Upper(n, k), j) + Digits(n, k)
    ensures Upper(n, j + k) == Upper(Upper(n, k), j)
    decreases k
  {
    if k == 0 {
      assert Digits(n, j) + [] == Digits(n, j);
    } else {
      DigitsSplit(n / 10, j, k - 1);
      Assoc(Digits(Upper(n, k), j), Digits(n / 10, k - 1), [ZERO + n % 10]);
    }
  }

  lemma Two(n: nat)
    ensures Upper(n, 2) == n / 100 && Digits(n, 2) == [ZERO + n / 10 % 10, ZERO + n % 10]
    ensures Digits(n, 2) == Digits(n % 100, 2)
  {
    hide Digits, Upper;
    UpperTwo(n);
    TwoOf(n);
    TwoOf(n % 100);
    LastTwo(n);
  }

  lemma UpperTwo(n: nat)
    ensures Upper(n, 2) == n / 100
  {
    assert Upper(n / 10, 1) == Upper(n / 10 / 10, 0);
  }

  lemma LastTwo(n: nat)
    ensures n % 100 / 10 % 10 == n / 10 % 10 && n % 100 % 10 == n % 10
  {
    var q, r := n / 100, n % 100;
    assert n / 10 == 10 * q + r / 10;
  }

  lemma TwoOf(n: nat)
    ensures Digits(n, 2) == [ZERO + n / 10 % 10, ZERO + n % 10]
  {
    assert Digits(n / 10, 1) == Digits(n / 10 / 10, 0) + [ZERO + n / 10 % 10];
  }

  lemma Four(n: nat)
    ensures Upper(n, 4) == n / 10000 && Digits(n, 4) == Digits(n % 10000, 4)
  {
    hide Digits, Upper;
    var m := n % 10000;
    DigitsSplit(n, 2, 2);
    DigitsSplit(m, 2, 2);
    Two(n);
    Two(m);
    Two(n / 100);
    Two(m / 100);
    assert m % 100 == n % 100 && m / 100 % 100 == n / 100 % 100 && n / 100 / 100 == n / 10000;
  }

  lemma Eight(n: nat)
    ensures Upper(n, 8) == n / 100000000 && Digits(n, 8) == Digits(n % 100000000, 8)
  {
    hide Digits, Upper;
    var m := n % 100000000;
    DigitsSplit(n, 4, 4);
    DigitsSplit(m, 4, 4);
    Four(n);
    Four(m);
    Four(n / 10000);
    Four(m / 10000);
    assert m % 10000 == n % 10000 && m / 10000 % 10000 == n / 10000 % 10000 && n / 10000 / 10000 == n / 100000000;
  }

  lemma Sixteen(n: nat)
    ensures Upper(n, 16) == n / 10000000000000000 && Digits(n, 16) == Digits(n % 10000000000000000, 16)
  {
    hide Digits, Upper;
    var m := n % 10000000000000000;
    DigitsSplit(n, 8, 8);
    DigitsSplit(m, 8, 8);
    Eight(n);
    Eight(m);
    Eight(n / 100000000);
    Eight(m / 100000000);
    assert m % 100000000 == n % 100000000 && m / 100000000 % 100000000 == n / 100000000 % 100000000;
    assert n / 100000000 / 100000000 == n / 10000000000000000;
  }

  // ----- the printer -----

  /** The digits of 00, 01, and so on up to 99, one behind the other. */
  function DigitTable(): (t: Octets)
    ensures |t| == 200
    ensures forall n :: 0 <= n < 100 ==> t[2 * n] == ZERO + n / 10 && t[2 * n + 1] == ZERO + n % 10
  {
    seq(200, i requires 0 <= i < 200 => ZERO + if i % 2 == 0 then i / 2 / 10 else i / 2 % 10)
  }

  method Put(out: array<Byte>, p: nat, b: Byte)
    requires p < out.Length
    modifies out
    ensures out[..p + 1] == old(out[..p]) + [b]
  {
    out[p] := b;
  }

  lemma TwoDigits(n: nat)
    requires n < 100
    ensures Digits(n, 2) == [ZERO + n / 10, ZERO + n % 10]
    ensures n >= 10 ==> Numeral(n) == [ZERO + n / 10, ZERO + n % 10]
  {
    TwoOf(n);
  }

  method Middle2(out: array<Byte>, from: nat, n: nat) returns (p: nat)
    requires n < 100 && from + 2 <= out.Length
    modifies out
    ensures p == from + 2 && out[..p] == old(out[..from]) + Digits(n, 2)
  {
    TwoDigits(n);
    PutTwo(out, from, n);
    p := from + 2;
  }

  /** Both digits of `n` from the table. */
  method PutTwo(out: array<Byte>, from: nat, n: nat)
    requires n < 100 && from + 2 <= out.Length
    modifies out
    ensures out[..from + 2] == old(out[..from]) + [ZERO + n / 10, ZERO + n % 10]
  {
    var t := n * 2;
    TableAt(n);
    hide DigitTable;
    Put(out, from, DigitTable()[t]);
    Put(out, from + 1, DigitTable()[t + 1]);
  }

  lemma TableAt(n: nat)
    requires n < 100
    ensures DigitTable()[n * 2] == ZERO + n / 10 && DigitTable()[n * 2 + 1] == ZERO + n % 10
  {
    assert n * 2 == 2 * n;
  }

  method Begin2(out: array<Byte>, from: nat, n: nat) returns (p: nat)
    requires n < 100 && from + 2 <= out.Length
    modifies out
    ensures p == from + |Numeral(n)| <= from + 2 && out[..p] == old(out[..from]) + Numeral(n)
  {
    TwoDigits(n);
    if n < 10 {
      Put(out, from, ZERO + n);
      return from + 1;
    }
    PutTwo(out, from, n);
    p := from + 2;
  }

  method Middle4(out: array<Byte>, from: nat, n: nat) returns (p: nat)
    requires n < 10000 && from + 4 <= out.Length
    modifies out
    ensures p == from + 4 && out[..p] == old(out[..from]) + Digits(n, 4)
  {
    hide Digits, Upper;
    DigitsSplit(n, 2, 2);
    Two(n);
    p := Middle2(out, from, n / 100);
    p := Middle2(out, p, n % 100);
  }

  method Begin4(out: array<Byte>, from: nat, n: nat) returns (p: nat)
    requires n < 10000 && from + 4 <= out.Length
    modifies out
    ensures p == from + |Numeral(n)| <= from + 4 && out[..p] == old(out[..from]) + Numeral(n)
  {
    hide Digits, Numeral, Upper;
    if n < 100 {
      p := Begin2(out, from, n);
    } else {
      Two(n);
      NumeralSplit(n, 2);
      p := Begin2(out, from, n / 100);
      p := Middle2(out, p, n % 100);
    }
  }

  method Middle8(out: array<Byte>, from: nat, n: nat) returns (p: nat)
    requires n < 100000000 && from + 8 <= out.Length
    modifies out
    ensures p == from + 8 && out[..p] == old(out[..from]) + Digits(n, 8)
  {
    hide Digits, Upper;
    DigitsSplit(n, 4, 4);
    Four(n);
    p := Middle4(out, from, n / 10000);
    p := Middle4(out, p, n % 10000);
  }

  method Begin8(out: array<Byte>, from: nat, n: nat) returns (p: nat)
    requires n < 100000000 && from + 8 <= out.Length
    modifies out
    ensures p == from + |Numeral(n)| <= from + 8 && out[..p] == old(out[..from]) + Numeral(n)
  {
    hide Digits, Numeral, Upper;
    if n < 10000 {
      p := Begin4(out, from, n);
    } else {
      Four(n);
      NumeralSplit(n, 4);
      p := Begin4(out, from, n / 10000);
      p := Middle4(out, p, n % 10000);
    }
  }

  method Middle16(out: array<Byte>, from: nat, n: nat) returns (p: nat)
    requires n < 10000000000000000 && from + 16 <= out.Length
    modifies out
    ensures p == from + 16 && out[..p] == old(out[..from]) + Digits(n, 16)
  {
    hide Digits, Upper;
    DigitsSplit(n, 8, 8);
    Eight(n);
    p := Middle8(out, from, n / 100000000);
    p := Middle8(out, p, n % 100000000);
  }

  /** `u64toa_branchlut2`: the numeral of `x` and a null octet, at whose position the result points; 21 octets
      are always enough. */
  method U64ToA(x: U64, out: array<Byte>) returns (p: nat)
    requires out.Length >= 21
    modifies out
    ensures p <= 20 && out[..p] == Numeral(x) && out[p] == 0
  {
    hide Digits, Numeral, Upper;
    assert out[..0] == [];
    if x < 100000000 {
      p := Begin8(out, 0, x);
    } else if x < 10000000000000000 {
      Eight(x);
      NumeralSplit(x, 8);
      p := Begin8(out, 0, x / 100000000);
      p := Middle8(out, p, x % 100000000);
    } else {
      Sixteen(x);
      NumeralSplit(x, 16);
      p := Begin4(out, 0, x / 10000000000000000);
      p := Middle16(out, p, x % 10000000000000000);
    }
    assert out[..p] == Numeral(x);
    Put(out, p, 0);
    assert out[..p] == out[..p + 1][..p];
  }

  /** `u32toa_branchlut2` */
  method U32ToA(x: U32, out: array<Byte>) returns (p: nat)
    requires out.Length >= 11
    modifies out
    ensures p <= 10 && out[..p] == Numeral(x) && out[p] == 0
  {
    hide Digits, Numeral, Upper;
    assert out[..0] == [];
    if x < 100000000 {
      p := Begin8(out, 0, x);
    } else {
      Eight(x);
      NumeralSplit(x, 8);
      p := Begin2(out, 0, x / 100000000);
      p := Middle8(out, p, x % 100000000);
    }
    assert out[..p] == Numeral(x);
    Put(out, p, 0);
    assert out[..p] == out[..p + 1][..p];
  }
}
