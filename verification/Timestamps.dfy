/** Timestamps in records: seconds, milliseconds, and the 64-bit NTP format with fractions of 2^-32 s. */
module Timestamps {
  import opened Bytes
  import opened ByteOrder
  import opened Status

  const EPOCHS_DIFF := 2208988800
  const TWO32 := 0x1_0000_0000
  const TWO64 := 0x1_0000_0000_0000_0000
  const S1E3 := 1000
  const S1E6 := 1000000
  const S1E9 := 1000000000

  datatype Kind = Seconds | Millis | Micros | Nanos | NotATime

  datatype Timespec = Timespec(sec: int, nsec: nat)

  function Be64(n: nat): (b: Octets)
    ensures |b| == 8
  {
    Be32(n / TWO32) + Be32(n % TWO32)
  }

  function FromBe64(b: Octets): U64
    requires |b| == 8
  {
    FromBe32(b[..4]) as int * TWO32 + FromBe32(b[4..])
  }

  /** Seconds take four octets, all other timestamps eight. */
  predicate SizeOk(kind: Kind, size: nat)
  {
    kind != NotATime && size == if kind == Seconds then 4 else 8
  }

  /** A timestamp of microseconds has its last eleven bits clear. */
  function Masked(kind: Kind, fraction: nat): nat
  {
    if kind == Micros then fraction - fraction % 2048 else fraction
  }

  /** The two halves of an NTP timestamp; like `htonl`, each keeps 32 bits. */
  function Ntp(sec: int, fraction: nat): (b: Octets)
    ensures |b| == 8
  {
    Be32((sec + EPOCHS_DIFF) % TWO32) + Be32(fraction % TWO32)
  }

  // ----- the octets of a timestamp -----

  /** Milliseconds since the UNIX epoch (`fds_set_datetime_lp_be`) */
  function SetLp(kind: Kind, value: U64): Octets
    requires kind != NotATime
  {
    if kind == Seconds then Be32(value / S1E3 % TWO32)
    else if kind == Millis then Be64(value)
    else Ntp(value / S1E3, Masked(kind, value % S1E3 * TWO32 / S1E3))
  }

  /** `fds_get_datetime_lp_be`, in 64-bit unsigned arithmetic */
  function GetLp(kind: Kind, b: Octets): U64
    requires SizeOk(kind, |b|)
  {
    if kind == Seconds then FromBe32(b) as int * S1E3
    else if kind == Millis then FromBe64(b)
    else ((FromBe32(b[..4]) - EPOCHS_DIFF) * S1E3 + Masked(kind, FromBe32(b[4..])) * S1E3 / TWO32) % TWO64
  }

  /** Seconds and nanoseconds (`fds_set_datetime_hp_be`) */
  function SetHp(kind: Kind, ts: Timespec): Octets
    requires kind != NotATime
  {
    if kind == Seconds then Be32(ts.sec % TWO32)
    else if kind == Millis then Be64((ts.sec * S1E3 + ts.nsec / S1E6) % TWO64)
    else Ntp(ts.sec, Masked(kind, ts.nsec * TWO32 / S1E9))
  }

  /** Nanoseconds of a fraction, rounded by its last binary digit. */
  function Rounded(fraction: nat): nat
  {
    var half := fraction * S1E9 / 0x8000_0000;
    (if half % 2 == 1 then half + 1 else half) / 2
  }

  function GetHp(kind: Kind, b: Octets): Timespec
    requires SizeOk(kind, |b|)
  {
    if kind == Seconds then Timespec(FromBe32(b), 0)
    else if kind == Millis then Timespec(FromBe64(b) / S1E3, FromBe64(b) % S1E3 * S1E6)
    else Timespec(FromBe32(b[..4]) - EPOCHS_DIFF, Rounded(Masked(kind, FromBe32(b[4..]))))
  }

  // ----- the functions -----

  method SetDatetimeLp(field: array<Byte>, kind: Kind, value: U64) returns (st: Status)
    modifies field
    ensures st == if SizeOk(kind, field.Length) then Ok else ErrArg
    ensures field[..] == if st == Ok then SetLp(kind, value) else old(field[..])
  {
    if !SizeOk(kind, field.Length) { return ErrArg; }
    hide Be32, SetLp, Be64, Ntp;
    Store(field, 0, SetLp(kind, value));
    SetLpLength(kind, value);
    assert field[..][0..0 + |SetLp(kind, value)|] == field[..];
    return Ok;
  }

  method SetDatetimeHp(field: array<Byte>, kind: Kind, ts: Timespec) returns (st: Status)
    modifies field
    ensures st == if SizeOk(kind, field.Length) then Ok else ErrArg
    ensures field[..] == if st == Ok then SetHp(kind, ts) else old(field[..])
  {
    if !SizeOk(kind, field.Length) { return ErrArg; }
    hide Be32, SetHp, Be64, Ntp;
    SetHpLength(kind, ts);
    Store(field, 0, SetHp(kind, ts));
    assert field[..][0..0 + |SetHp(kind, ts)|] == field[..];
    return Ok;
  }

  lemma SetLpLength(kind: Kind, value: U64)
    requires kind != NotATime
    ensures SizeOk(kind, |SetLp(kind, value)|)
  {
  }

  lemma SetHpLength(kind: Kind, ts: Timespec)
    requires kind != NotATime
    ensures SizeOk(kind, |SetHp(kind, ts)|)
  {
  }

  // ----- what comes back -----

  lemma Be64RoundTrip(n: U64)
    ensures FromBe64(Be64(n)) == n
  {
    assert Be64(n)[..4] == Be32(n / TWO32) && Be64(n)[4..] == Be32(n % TWO32);
    Be32RoundTrip(n / TWO32);
    Be32RoundTrip(n % TWO32);
  }

  /** Before the wrap of February 2036 both halves are read as they were written. */
  lemma NtpReads(sec: nat, fraction: U32)
    requires sec + EPOCHS_DIFF < TWO32
    ensures FromBe32(Ntp(sec, fraction)[..4]) == sec + EPOCHS_DIFF && FromBe32(Ntp(sec, fraction)[4..]) == fraction
  {
    hide Be32, FromBe32;
    Halves(sec + EPOCHS_DIFF, fraction);
    Small(sec + EPOCHS_DIFF);
    Small(fraction);
  }

  lemma Halves(hi: U32, lo: U32)
    ensures FromBe32((Be32(hi) + Be32(lo))[..4]) == hi && FromBe32((Be32(hi) + Be32(lo))[4..]) == lo
  {
    hide Be32, FromBe32;
    assert (Be32(hi) + Be32(lo))[..4] == Be32(hi) && (Be32(hi) + Be32(lo))[4..] == Be32(lo);
    Be32RoundTrip(hi);
    Be32RoundTrip(lo);
  }

  lemma Small(n: U32)
    ensures n % TWO32 == n
  {
  }

  lemma FractionIsSmall(n: nat, unit: nat)
    requires n < unit && (unit == S1E3 || unit == S1E9)
    ensures n * TWO32 / unit < TWO32
  {
  }

  /** Nanoseconds survive the conversion to a fraction and back without any loss. */
  lemma FractionRounds(ns: nat)
    requires ns < S1E9
    ensures Rounded(ns * TWO32 / S1E9) == ns
  {
    var f := ns * TWO32 / S1E9;
    var r := ns * TWO32 % S1E9;
    assert f * S1E9 == ns * TWO32 - r;
    var half := f * S1E9 / 0x8000_0000;
    assert half == if r == 0 then 2 * ns else 2 * ns - 1;
  }

  /** Without the last eleven bits at most 477 nanoseconds are missing. */
  lemma MaskLoses(f: nat)
    ensures Rounded(f) - 477 <= Rounded(f - f % 2048) <= Rounded(f)
  {
    var g := f - f % 2048;
    assert f * S1E9 - 2047 * S1E9 <= g * S1E9 <= f * S1E9;
    var a, b := f * S1E9 / 0x8000_0000, g * S1E9 / 0x8000_0000;
    assert a - 954 <= b <= a;
  }

  lemma HpNanosRoundTrip(ts: Timespec)
    requires 0 <= ts.sec < TWO32 - EPOCHS_DIFF && ts.nsec < S1E9
    ensures GetHp(Nanos, SetHp(Nanos, ts)) == ts
  {
    hide Ntp, FromBe32, Rounded;
    FractionIsSmall(ts.nsec, S1E9);
    NtpReads(ts.sec, ts.nsec * TWO32 / S1E9);
    FractionRounds(ts.nsec);
  }

  lemma HpMicrosRoundTrip(ts: Timespec)
    requires 0 <= ts.sec < TWO32 - EPOCHS_DIFF && ts.nsec < S1E9
    ensures
      var r := GetHp(Micros, SetHp(Micros, ts));
      r.sec == ts.sec && ts.nsec - 477 <= r.nsec <= ts.nsec
  {
    hide Ntp, FromBe32, Rounded;
    var f := ts.nsec * TWO32 / S1E9;
    FractionIsSmall(ts.nsec, S1E9);
    NtpReads(ts.sec, f - f % 2048);
    FractionRounds(ts.nsec);
    MaskLoses(f);
    assert (f - f % 2048) % 2048 == 0;
  }

  lemma HpMillisRoundTrip(ts: Timespec)
    requires 0 <= ts.sec && ts.sec * S1E3 + 999 < TWO64 && ts.nsec < S1E9
    ensures GetHp(Millis, SetHp(Millis, ts)) == Timespec(ts.sec, ts.nsec - ts.nsec % S1E6)
  {
    hide Be64, FromBe64;
    var ms := ts.nsec / S1E6;
    assert ms < S1E3 && ts.nsec == S1E6 * ms + ts.nsec % S1E6;
    var v := ts.sec * S1E3 + ms;
    assert v % TWO64 == v;
    Be64RoundTrip(v);
    assert v / S1E3 == ts.sec && v % S1E3 == ms;
  }

  lemma HpSecondsRoundTrip(ts: Timespec)
    requires 0 <= ts.sec < TWO32
    ensures GetHp(Seconds, SetHp(Seconds, ts)) == Timespec(ts.sec, 0)
  {
    hide Be32, FromBe32, Be64, FromBe64, Ntp, Masked, Rounded;
    Be32RoundTrip(ts.sec);
  }

  /** A number of milliseconds has a finite binary fraction exactly when 125 divides it. */
  lemma FiniteFraction(m: nat)
    ensures m * TWO32 % S1E3 == 0 <==> m % 125 == 0
  {
    var q, r := m / 125, m % 125;
    var k := q * 0x2000_0000 + r * 4294967;
    assert m * TWO32 == S1E3 * k + r * 296;
    SameRemainder(m * TWO32, k, r * 296);
    SmallCase(r);
  }

  lemma SameRemainder(n: nat, k: nat, r: nat)
    requires n == S1E3 * k + r
    ensures n % S1E3 == r % S1E3
  {
  }

  lemma SmallCase(r: nat)
    requires r < 125
    ensures r * 296 % 1000 == 0 <==> r == 0
  {
    var k := r * 296 / 1000;
    if r * 296 % 1000 == 0 {
      assert 37 * r == 125 * k;
      assert r == 125 * (98 * k - 29 * r);
    }
  }

  /** Back from a fraction, masked or not, a number of milliseconds that has no finite one is one too small. */
  lemma MillisFraction(kind: Kind, m: nat)
    requires m < S1E3 && (kind == Micros || kind == Nanos)
    ensures
      var f := Masked(kind, m * TWO32 / S1E3);
      && f < TWO32 && Masked(kind, f) == f
      && f * S1E3 / TWO32 == if m % 125 == 0 then m else m - 1
  {
    FiniteFraction(m);
    FractionIsSmall(m, S1E3);
    var g, r := m * TWO32 / S1E3, m * TWO32 % S1E3;
    var f := Masked(kind, g);
    assert g * S1E3 == m * TWO32 - r;
    if m % 125 == 0 {
      var q := m / 125;
      WholeFraction(q, g);
      Quotient(f * S1E3, m);
    } else {
      MaskedTwice(kind, g);
      assert m > 0 && (m - 1) * TWO32 <= f * S1E3 < m * TWO32;
      Quotient(f * S1E3, m - 1);
    }
  }

  lemma WholeFraction(q: nat, g: nat)
    requires g == 125 * q * TWO32 / S1E3
    ensures g == q * 0x2000_0000 && g % 2048 == 0
  {
    assert 125 * q * TWO32 == S1E3 * (q * 0x2000_0000);
  }

  lemma MaskedTwice(kind: Kind, g: nat)
    ensures Masked(kind, Masked(kind, g)) == Masked(kind, g) && g - 2047 <= Masked(kind, g) <= g
  {
    var h := g - g % 2048;
    assert h % 2048 == 0;
  }

  lemma Quotient(n: nat, m: nat)
    requires m * TWO32 <= n < (m + 1) * TWO32
    ensures n / TWO32 == m
  {
  }

  /** Setting and getting milliseconds through an NTP timestamp gives the value when 125 divides it, and one
      less otherwise. */
  lemma LpRoundTrip(kind: Kind, value: U64)
    requires (kind == Micros || kind == Nanos) && value / S1E3 + EPOCHS_DIFF < TWO32
    ensures GetLp(kind, SetLp(kind, value)) == if value % 125 == 0 then value else value - 1
  {
    hide Ntp, FromBe32, Masked;
    var m := value % S1E3;
    MillisFraction(kind, m);
    NtpReads(value / S1E3, Masked(kind, m * TWO32 / S1E3));
    SameRest(value);
  }

  lemma SameRest(value: nat)
    ensures value == S1E3 * (value / S1E3) + value % S1E3 && value % S1E3 % 125 == value % 125
  {
    assert S1E3 == 125 * 8;
  }

  lemma LpMillisRoundTrip(value: U64)
    ensures GetLp(Millis, SetLp(Millis, value)) == value
  {
    Be64RoundTrip(value);
  }

  /** Behind the wrap the year 1900 begins again: what is read is 2^32 seconds too early. */
  lemma WrapsIn2036(ts: Timespec)
    requires TWO32 - EPOCHS_DIFF <= ts.sec < 2 * TWO32 - EPOCHS_DIFF && ts.nsec < S1E9
    ensures GetHp(Nanos, SetHp(Nanos, ts)) == Timespec(ts.sec - TWO32, ts.nsec)
  {
    var raw, f := ts.sec + EPOCHS_DIFF - TWO32, ts.nsec * TWO32 / S1E9;
    FractionIsSmall(ts.nsec, S1E9);
    FractionRounds(ts.nsec);
    assert (ts.sec + EPOCHS_DIFF) % TWO32 == raw;
    Halves(raw, f);
    Small(f);
    hide Be32, FromBe32, Rounded;
  }

  // ----- the formats (sections 6.1.7 to 6.1.10 of RFC 7011) -----

  /** Seconds and milliseconds since 1970 as numbers; for finer timestamps the seconds since 1900, 70 years with 17 leap
      days before, and the part of a second in units of 2^-32 s, rounded down, to a multiple of 2^11 for
      microseconds. */
  lemma HpFormat(kind: Kind, ts: Timespec) returns (f: nat)
    requires kind != NotATime && ts.nsec < 1000000000
    ensures kind == Seconds ==> SetHp(kind, ts) == Be(4, ts.sec % 4294967296)
    ensures kind == Millis ==> SetHp(kind, ts) == Be(8, (ts.sec * 1000 + ts.nsec / 1000000) % 18446744073709551616)
    ensures kind == Micros || kind == Nanos ==>
      SetHp(kind, ts) == Be(4, (ts.sec + (70 * 365 + 17) * 86400) % 4294967296) + Be(4, f)
    ensures kind == Nanos ==> f * 1000000000 <= ts.nsec * 4294967296 < (f + 1) * 1000000000
    ensures kind == Micros ==> f % 2048 == 0 && f * 1000000000 <= ts.nsec * 4294967296 < (f + 2048) * 1000000000
  {
    hide Be, Be32;
    f := Masked(kind, ts.nsec * TWO32 / S1E9);
    Be4(ts.sec % TWO32);
    Be8((ts.sec * S1E3 + ts.nsec / S1E6) % TWO64);
    NtpFormat(ts.sec, kind, ts.nsec, S1E9);
    hide Ntp;
  }

  /** The same for a number of milliseconds. */
  lemma LpFormat(kind: Kind, value: U64) returns (f: nat)
    requires kind != NotATime
    ensures kind == Seconds ==> SetLp(kind, value) == Be(4, value / 1000 % 4294967296)
    ensures kind == Millis ==> SetLp(kind, value) == Be(8, value)
    ensures kind == Micros || kind == Nanos ==>
      SetLp(kind, value) == Be(4, (value / 1000 + (70 * 365 + 17) * 86400) % 4294967296) + Be(4, f)
    ensures kind == Nanos ==> f * 1000 <= value % 1000 * 4294967296 < (f + 1) * 1000
    ensures kind == Micros ==> f % 2048 == 0 && f * 1000 <= value % 1000 * 4294967296 < (f + 2048) * 1000
  {
    hide Be, Be32;
    f := Masked(kind, value % S1E3 * TWO32 / S1E3);
    Be4(value / S1E3 % TWO32);
    Be8(value);
    NtpFormat(value / S1E3, kind, value % S1E3, S1E3);
    hide Ntp;
  }

  lemma NtpFormat(sec: int, kind: Kind, n: nat, unit: nat)
    requires n < unit && (unit == S1E3 || unit == S1E9)
    ensures
      var g := n * TWO32 / unit;
      var f := Masked(kind, g);
      && Ntp(sec, f) == Be(4, (sec + 2208988800) % TWO32) + Be(4, f)
      && (if kind == Micros then f % 2048 == 0 && g - 2047 <= f <= g else f == g)
      && g * unit <= n * TWO32 < (g + 1) * unit
  {
    hide Be, Be32;
    var g := n * TWO32 / unit;
    var f := Masked(kind, g);
    FractionIsSmall(n, unit);
    MaskedTwice(kind, g);
    Small(f);
    Be4((sec + 2208988800) % TWO32);
    Be4(f);
    if kind == Micros { assert (g - g % 2048) % 2048 == 0; }
  }

  /** Reading a timestamp: the seconds back to 1970, and the fraction as the nearest number of nanoseconds. */
  lemma HpRead(kind: Kind, hi: U32, lo: U32)
    requires kind == Micros || kind == Nanos
    ensures
      var g := if kind == Micros then lo - lo % 2048 else lo;
      var ts := GetHp(kind, Be(4, hi) + Be(4, lo));
      && ts.sec == hi - (70 * 365 + 17) * 86400
      && -2147483648 <= ts.nsec * 4294967296 - g * 1000000000 <= 2147483648
  {
    hide Be, Be32, FromBe32;
    Be4(hi);
    Be4(lo);
    Halves(hi, lo);
    Nearest(Masked(kind, lo));
  }

  lemma Nearest(f: nat)
    ensures -0x8000_0000 <= Rounded(f) * TWO32 - f * S1E9 <= 0x8000_0000
  {
    var half := f * S1E9 / 0x8000_0000;
    assert half * 0x8000_0000 <= f * S1E9 < (half + 1) * 0x8000_0000;
  }

  /** As a number of milliseconds the fraction is rounded down, and a time before 1970 wraps in 64 bits. */
  lemma LpRead(kind: Kind, hi: U32, lo: U32) returns (ms: nat)
    requires kind == Micros || kind == Nanos
    ensures
      var g := if kind == Micros then lo - lo % 2048 else lo;
      ms * 4294967296 <= g * 1000 < (ms + 1) * 4294967296
    ensures GetLp(kind, Be(4, hi) + Be(4, lo)) == ((hi - (70 * 365 + 17) * 86400) * 1000 + ms) % 18446744073709551616
  {
    hide Be, Be32, FromBe32;
    Be4(hi);
    Be4(lo);
    Halves(hi, lo);
    ms := Masked(kind, lo) * S1E3 / TWO32;
  }
}
