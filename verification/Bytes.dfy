/** Octets, fixed-width integers in both byte orders, and writes into a byte string. */
module Bytes {

  type Byte = x: int | 0 <= x < 0x100
  type U16 = x: int | 0 <= x < 0x1_0000
  type U32 = x: int | 0 <= x < 0x1_0000_0000
  type U64 = x: int | 0 <= x < 0x1_0000_0000_0000_0000
  type Octets = seq<Byte>

  datatype Option<+T> = None | Some(value: T)

  // ----- network byte order; like a C cast, an encoder keeps the low bits only -----

  function Be16(n: nat): (b: Octets)
    ensures |b| == 2
  {
    [n / 0x100 % 0x100, n % 0x100]
  }

  function Be32(n: nat): (b: Octets)
    ensures |b| == 4
  {
    Be16(n / 0x1_0000) + Be16(n % 0x1_0000)
  }

  function FromBe16(b: Octets): U16
    requires |b| == 2
  {
    b[0] as int * 0x100 + b[1]
  }

  function FromBe32(b: Octets): U32
    requires |b| == 4
  {
    FromBe16(b[..2]) as int * 0x1_0000 + FromBe16(b[2..])
  }

  // ----- little endian -----

  function Le16(n: nat): (b: Octets)
    ensures |b| == 2
  {
    [n % 0x100, n / 0x100 % 0x100]
  }

  function Le32(n: nat): (b: Octets)
    ensures |b| == 4
  {
    Le16(n % 0x1_0000) + Le16(n / 0x1_0000)
  }

  function Le64(n: nat): (b: Octets)
    ensures |b| == 8
  {
    Le32(n % 0x1_0000_0000) + Le32(n / 0x1_0000_0000)
  }

  function FromLe16(b: Octets): U16
    requires |b| == 2
  {
    b[0] + b[1] as int * 0x100
  }

  function FromLe32(b: Octets): U32
    requires |b| == 4
  {
    FromLe16(b[..2]) + FromLe16(b[2..]) as int * 0x1_0000
  }

  function FromLe64(b: Octets): U64
    requires |b| == 8
  {
    FromLe32(b[..4]) + FromLe32(b[4..]) as int * 0x1_0000_0000
  }

  lemma Be16RoundTrip(n: U16)
    ensures FromBe16(Be16(n)) == n
  {
  }

  lemma Be32RoundTrip(n: U32)
    ensures FromBe32(Be32(n)) == n
  {
    assert Be32(n)[..2] == Be16(n / 0x1_0000) && Be32(n)[2..] == Be16(n % 0x1_0000);
  }

  lemma Le16RoundTrip(n: U16)
    ensures FromLe16(Le16(n)) == n
  {
  }

  lemma Le32RoundTrip(n: U32)
    ensures FromLe32(Le32(n)) == n
  {
    assert Le32(n)[..2] == Le16(n % 0x1_0000) && Le32(n)[2..] == Le16(n / 0x1_0000);
  }

  lemma Le64RoundTrip(n: U64)
    ensures FromLe64(Le64(n)) == n
  {
    assert Le64(n)[..4] == Le32(n % 0x1_0000_0000) && Le64(n)[4..] == Le32(n / 0x1_0000_0000);
    Le32RoundTrip(n % 0x1_0000_0000);
    Le32RoundTrip(n / 0x1_0000_0000);
  }

  // ----- sequences -----

  function Last<T>(s: seq<T>): T
    requires s != []
  {
    s[|s| - 1]
  }

  function Init<T>(s: seq<T>): seq<T>
    requires s != []
  {
    s[..|s| - 1]
  }

  /** The images of the elements of `xs`, one behind the other. */
  function Concat<T, R>(f: T -> seq<R>, xs: seq<T>): seq<R>
  {
    if xs == [] then [] else f(xs[0]) + Concat(f, xs[1..])
  }

  lemma {:induction false} ConcatAppend<T, R>(f: T -> seq<R>, a: seq<T>, b: seq<T>)
    ensures Concat(f, a + b) == Concat(f, a) + Concat(f, b)
  {
    if a == [] {
      assert a + b == b;
    } else {
      ConcatAppend(f, a[1..], b);
      assert (a + b)[1..] == a[1..] + b;
    }
  }

  lemma ConcatPush<T, R>(f: T -> seq<R>, xs: seq<T>, y: T)
    ensures Concat(f, xs + [y]) == Concat(f, xs) + f(y)
  {
    ConcatAppend(f, xs, [y]);
    assert Concat(f, [y][1..]) == [];
  }

  lemma ConcatOne<T, R>(f: T -> seq<R>, y: T)
    ensures Concat(f, [y]) == f(y)
  {
    assert [y][1..] == [] && Concat(f, [y][1..]) == [];
  }

  /** When the image of the last element grows by `z`, so does the whole. */
  lemma ConcatGrow<T, R>(f: T -> seq<R>, xs: seq<T>, y: T, z: seq<R>)
    requires xs != [] && f(y) == f(Last(xs)) + z
    ensures Concat(f, Init(xs) + [y]) == Concat(f, xs) + z
  {
    assert xs == Init(xs) + [Last(xs)];
    ConcatPush(f, Init(xs), Last(xs));
    ConcatPush(f, Init(xs), y);
  }

  // ----- at a position -----

  /** The octets `b` lie in the file, or in other octets, at offset `off`. */
  predicate At(file: Octets, off: nat, b: Octets)
  {
    off + |b| <= |file| && file[off..off + |b|] == b
  }

  /** `b` with `w` stored at `pos`; the string grows when the write passes its end, as a file does. */
  function Splice(b: Octets, pos: nat, w: Octets): (r: Octets)
    requires pos <= |b|
    ensures |r| == if pos + |w| <= |b| then |b| else pos + |w|
    ensures r[pos..pos + |w|] == w
  {
    b[..pos] + w + (if pos + |w| <= |b| then b[pos + |w|..] else [])
  }

  lemma SpliceKeeps(b: Octets, pos: nat, w: Octets, lo: nat, hi: nat)
    requires pos <= |b| && lo <= hi <= |b|
    requires hi <= pos || pos + |w| <= lo
    ensures hi <= |Splice(b, pos, w)| && Splice(b, pos, w)[lo..hi] == b[lo..hi]
  {
    var r := Splice(b, pos, w);
    if hi <= pos {
      assert r[lo..hi] == b[..pos][lo..hi];
    } else {
      assert pos + |w| <= |b|;
      assert forall k :: lo <= k < hi ==> r[k] == b[k];
    }
  }

  /** `memcpy` into a buffer that is large enough. */
  method Store(buf: array<Byte>, pos: nat, w: Octets)
    requires pos + |w| <= buf.Length
    modifies buf
    ensures buf[..] == Splice(old(buf[..]), pos, w)
  {
    ghost var was := buf[..];
    forall k | 0 <= k < |w| {
      buf[pos + k] := w[k];
    }
    assert buf[..] == Splice(was, pos, w);
  }
}
