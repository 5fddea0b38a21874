/** Numbers of any width as octets, digit by digit to the base 256. */
module ByteOrder {
  import opened Bytes

  /** `n` in `width` octets, the lowest first. */
  function Le(width: nat, n: nat): (b: Octets)
    ensures |b| == width
  {
    if width == 0 then [] else [n % 256] + Le(width - 1, n / 256)
  }

  /** `n` in `width` octets, the highest first. */
  function Be(width: nat, n: nat): (b: Octets)
    ensures |b| == width
  {
    if width == 0 then [] else Be(width - 1, n / 256) + [n % 256]
  }

  lemma Le2(n: nat)
    ensures Le16(n) == Le(2, n)
  {
    assert Le(1, n / 256) == [n / 256 % 256];
  }

  lemma Le4(n: nat)
    ensures Le32(n) == Le(4, n)
  {
    Le2(n / 0x1_0000);
    Le2(n % 0x1_0000);
    assert Le(3, n / 256) == [n / 256 % 256] + Le(2, n / 256 / 256);
    assert n / 256 / 256 == n / 0x1_0000 && n % 0x1_0000 % 256 == n % 256 && n % 0x1_0000 / 256 % 256 == n / 256 % 256;
  }

  lemma Le8(n: nat)
    ensures Le64(n) == Le(8, n)
  {
    var q := n / 0x1_0000_0000;
    Le4(n % 0x1_0000_0000);
    Le4(q);
    LowHalf(n);
    assert n / 256 / 256 / 256 / 256 == q;
    assert Le(8, n) == Unrolled(n) + Le(4, q) by { HighHalf(n); }
    hide Le, Le32;
  }

  function Unrolled(n: nat): Octets
  {
    [n % 256, n / 256 % 256, n / 256 / 256 % 256, n / 256 / 256 / 256 % 256]
  }

  lemma LowHalf(n: nat)
    ensures Le(4, n % 0x1_0000_0000) == Unrolled(n)
  {
    hide Le;
    var m, q := n % 0x1_0000_0000, n / 0x1_0000_0000;
    HighHalf(m);
    Shift(n, m, q * 0x100_0000);
    Shift(n / 256, m / 256, q * 0x1_0000);
    Shift(n / 256 / 256, m / 256 / 256, q * 0x100);
    Shift(n / 256 / 256 / 256, m / 256 / 256 / 256, q);
  }

  lemma Shift(n: nat, m: nat, d: nat)
    requires n == m + 256 * d
    ensures n % 256 == m % 256 && n / 256 == m / 256 + d
  {
  }

  lemma HighHalf(n: nat)
    ensures Le(8, n) == Unrolled(n) + Le(4, n / 256 / 256 / 256 / 256)
    ensures Le(4, n) == Unrolled(n)
  {
    var a, b, c := n / 256, n / 256 / 256, n / 256 / 256 / 256;
    assert Le(8, n) == [n % 256] + Le(7, a) && Le(7, a) == [a % 256] + Le(6, b);
    assert Le(6, b) == [b % 256] + Le(5, c) && Le(5, c) == [c % 256] + Le(4, c / 256);
    assert Le(4, n) == [n % 256] + Le(3, a) && Le(3, a) == [a % 256] + Le(2, b);
    assert Le(2, b) == [b % 256] + Le(1, c) && Le(1, c) == [c % 256] + Le(0, c / 256);
  }

  lemma Be2(n: nat)
    ensures Be16(n) == Be(2, n)
  {
    assert Be(1, n / 256) == [n / 256 % 256];
  }

  lemma Be4(n: nat)
    ensures Be32(n) == Be(4, n)
  {
    assert Be(2, n / 256 / 256) == Be(1, n / 256 / 256 / 256) + [n / 256 / 256 % 256];
    assert n / 256 / 256 == n / 0x1_0000 && n % 0x1_0000 % 256 == n % 256 && n % 0x1_0000 / 256 % 256 == n / 256 % 256;
  }

  lemma {:induction false} BeSplit(a: nat, b: nat, n: nat, q: nat, r: nat)
    requires n == q * Power(b) + r && r < Power(b)
    ensures Be(a + b, n) == Be(a, q) + Be(b, r)
    decreases b
  {
    if b == 0 {
      assert Be(a, q) + Be(0, r) == Be(a, q);
    } else {
      var m := q * Power(b - 1);
      assert n == 256 * m + r;
      assert n / 256 == m + r / 256 && n % 256 == r % 256;
      BeSplit(a, b - 1, n / 256, q, r / 256);
    }
  }

  function Power(k: nat): nat
  {
    if k == 0 then 1 else 256 * Power(k - 1)
  }

  lemma Be8(n: nat)
    ensures Be32(n / 0x1_0000_0000) + Be32(n % 0x1_0000_0000) == Be(8, n)
  {
    Be4(n / 0x1_0000_0000);
    Be4(n % 0x1_0000_0000);
    Powers();
    BeSplit(4, 4, n, n / 0x1_0000_0000, n % 0x1_0000_0000);
  }

  /** The number that octets stand for, the lowest first. */
  function Value(b: Octets): nat
  {
    if b == [] then 0 else b[0] + 256 * Value(b[1..])
  }

  lemma Value2(b: Octets)
    requires |b| == 2
    ensures FromLe16(b) == Value(b)
  {
    assert b[1..] == [b[1]] && [b[1]][1..] == [];
    assert Value([b[1]]) == b[1] + 256 * Value([]);
  }

  lemma Powers()
    ensures Power(1) == 0x100 && Power(2) == 0x1_0000 && Power(4) == 0x1_0000_0000
  {
    assert Power(1) == 256 * Power(0) && Power(3) == 256 * Power(2) && Power(4) == 256 * Power(3);
  }

  lemma Value4(b: Octets)
    requires |b| == 4
    ensures FromLe32(b) == Value(b)
  {
    Value2(b[..2]);
    Value2(b[2..]);
    ValueAppend(b[..2], b[2..]);
    assert b == b[..2] + b[2..];
    Powers();
    hide FromLe16, Value, Power;
  }

  lemma Value8(b: Octets)
    requires |b| == 8
    ensures FromLe64(b) == Value(b)
  {
    Value4(b[..4]);
    Value4(b[4..]);
    ValueAppend(b[..4], b[4..]);
    assert b == b[..4] + b[4..];
    Powers();
    hide FromLe32, Value, Power;
  }

  lemma {:induction false} ValueAppend(a: Octets, b: Octets)
    ensures Value(a + b) == Value(a) + Power(|a|) * Value(b)
  {
    if a == [] {
      assert a + b == b;
    } else {
      assert (a + b)[1..] == a[1..] + b;
      ValueAppend(a[1..], b);
      assert 256 * (Power(|a| - 1) * Value(b)) == Power(|a|) * Value(b);
    }
  }

  /** Reading the digits gives back every number that fits. */
  lemma {:induction false} ValueReads(width: nat, n: nat)
    requires n < Power(width)
    ensures Value(Le(width, n)) == n
  {
    if width > 0 { ValueReads(width - 1, n / 256); }
  }

  /** The first octet weighs most. */
  function Weighed(b: Octets): nat
  {
    if b == [] then 0 else b[0] as int * Power(|b| - 1) + Weighed(b[1..])
  }

  lemma {:induction false} WeighedPush(b: Octets, x: Byte)
    ensures Weighed(b + [x]) == Weighed(b) * 256 + x
  {
    if b == [] {
      assert ([] + [x])[1..] == [];
    } else {
      assert (b + [x])[1..] == b[1..] + [x];
      WeighedPush(b[1..], x);
      assert b[0] as int * Power(|b|) == b[0] as int * Power(|b| - 1) * 256;
    }
  }

  lemma {:induction false} WeighedBound(b: Octets)
    ensures Weighed(b) < Power(|b|)
  {
    if b != [] {
      WeighedBound(b[1..]);
      Leading(b[0], 256, Power(|b| - 1), Weighed(b[1..]), 0);
    }
  }

  /** The leading digit decides. */
  lemma Leading(x: nat, y: nat, p: nat, r: nat, q: nat)
    requires x < y && r < p
    ensures x * p + r < y * p + q
  {
    assert (y - x - 1) * p >= 0;
    assert y * p == x * p + p + (y - x - 1) * p;
  }

  lemma WeighedTwo(n: nat)
    requires n < 0x1_0000
    ensures Weighed(Be(2, n)) == n
  {
    Be2(n);
    var b := Be(2, n);
    assert b[1..] == [n % 256] && b[1..][1..] == [];
    assert Weighed(b[1..]) == n % 256 * Power(0) + Weighed([]);
    Powers();
  }
}
