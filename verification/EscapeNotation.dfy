/** A reader of the notation that `fds_string2str` writes, and UTF-8 by its encoder (section 3 of RFC 3629). */
module EscapeNotation {
  import opened Bytes
  import opened Strings

  // ----- characters -----

  /** The form of `len` octets for the code point `n`; with a longer form than needed it is overlong. */
  function Form(n: nat, len: nat): Octets
    requires 1 <= len <= 4 && n < FormLimit(len)
  {
    if len == 1 then [n]
    else if len == 2 then [192 + n / 64, 128 + n % 64]
    else if len == 3 then [224 + n / 4096, 128 + n / 64 % 64, 128 + n % 64]
    else [240 + n / 262144, 128 + n / 4096 % 64, 128 + n / 64 % 64, 128 + n % 64]
  }

  function FormLimit(len: nat): nat
  {
    if len == 1 then 128 else if len == 2 then 2048 else if len == 3 then 65536 else 2097152
  }

  lemma Two(n: nat, s: Octets)
    requires n < 2048 && |s| >= 2 && s[0] == 192 + n / 64 && s[1] == 128 + n % 64
    ensures CharLen(s) == 2 && CodePointOf(s) == n
  {
  }

  lemma Three(n: nat, s: Octets)
    requires n < 65536 && |s| >= 3 && s[0] == 224 + n / 4096 && s[1] == 128 + n / 64 % 64 && s[2] == 128 + n % 64
    ensures CharLen(s) == 3 && CodePointOf(s) == n
  {
    assert CharLen(s) == 3;
    assert s[0] as int % 16 == n / 4096 && s[1] as int % 64 == n / 64 % 64 && s[2] as int % 64 == n % 64;
    Digits64(n);
  }

  lemma Four(n: nat, s: Octets)
    requires n < 2097152 && |s| >= 4 && s[0] == 240 + n / 262144
    requires s[1] == 128 + n / 4096 % 64 && s[2] == 128 + n / 64 % 64 && s[3] == 128 + n % 64
    ensures CharLen(s) == 4 && CodePointOf(s) == n
  {
    assert CharLen(s) == 4;
    assert s[0] as int % 8 == n / 262144 && s[1] as int % 64 == n / 4096 % 64;
    assert s[2] as int % 64 == n / 64 % 64 && s[3] as int % 64 == n % 64;
    Digits64(n);
  }

  lemma Digits64(n: nat)
    ensures n == n / 4096 * 4096 + n / 64 % 64 * 64 + n % 64
    ensures n == n / 262144 * 262144 + n / 4096 % 64 * 4096 + n / 64 % 64 * 64 + n % 64
  {
    Digit64(n);
    Digit64(n / 64);
    Digit64(n / 4096);
    assert n / 64 / 64 == n / 4096 && n / 4096 / 64 == n / 262144;
  }

  lemma Digit64(n: nat)
    ensures n == n / 64 * 64 + n % 64
  {
  }

  lemma FormIsChar(n: nat, len: nat, s: Octets)
    requires 1 <= len <= |s| && len <= 4 && n < FormLimit(len) && s[..len] == Form(n, len)
    ensures CharLen(s) == len && CodePointOf(s) == n
  {
    hide CharLen, CodePointOf;
    assert forall k :: 0 <= k < len ==> s[k] == Form(n, len)[k];
    if len == 1 { One(s); } else if len == 2 { Two(n, s); } else if len == 3 { Three(n, s); } else { Four(n, s); }
  }

  lemma One(s: Octets)
    requires s != [] && s[0] < 128
    ensures CharLen(s) == 1 && CodePointOf(s) == s[0]
  {
  }

  /** The code point, digit by digit to the base 64. */
  lemma CharDigits(s: Octets)
    requires s != [] && CharLen(s) > 0
    ensures CharLen(s) == 1 ==> CodePointOf(s) == s[0] < 128
    ensures CharLen(s) == 2 ==>
      && 192 <= s[0] < 224 && 128 <= s[1] < 192
      && CodePointOf(s) == (s[0] as int - 192) * 64 + (s[1] as int - 128)
    ensures CharLen(s) == 3 ==>
      && 224 <= s[0] < 240 && 128 <= s[1] < 192 && 128 <= s[2] < 192
      && CodePointOf(s) == (s[0] as int - 224) * 4096 + (s[1] as int - 128) * 64 + (s[2] as int - 128)
    ensures CharLen(s) == 4 ==>
      && 240 <= s[0] < 248 && 128 <= s[1] < 192 && 128 <= s[2] < 192 && 128 <= s[3] < 192
      && CodePointOf(s) ==
         (s[0] as int - 240) * 262144 + (s[1] as int - 128) * 4096 + (s[2] as int - 128) * 64 + (s[3] as int - 128)
  {
  }

  lemma CharIsForm(s: Octets)
    requires s != [] && CharLen(s) > 0
    ensures CodePointOf(s) < FormLimit(CharLen(s)) && s[..CharLen(s)] == Form(CodePointOf(s), CharLen(s))
  {
    CharDigits(s);
    hide CharLen, CodePointOf;
    var len := CharLen(s);
    if len == 2 {
      Base64(0, 0, s[0] - 192, s[1] - 128, CodePointOf(s));
    } else if len == 3 {
      Base64(0, s[0] - 224, s[1] - 128, s[2] - 128, CodePointOf(s));
    } else if len == 4 {
      Base64(s[0] - 240, s[1] - 128, s[2] - 128, s[3] - 128, CodePointOf(s));
    }
  }

  lemma Base64(a: nat, b: nat, c: nat, d: nat, n: nat)
    requires a < 8 && b < 64 && c < 64 && d < 64 && n == a * 262144 + b * 4096 + c * 64 + d
    ensures n / 262144 == a && n / 4096 % 64 == b && n / 64 % 64 == c && n % 64 == d
    ensures n / 64 == a * 4096 + b * 64 + c && n / 4096 == a * 64 + b
  {
    assert n / 4096 == a * 64 + b;
    assert n / 64 == (a * 64 + b) * 64 + c;
  }

  /** There is a character of `len` octets at the front if and only if they are the form of that length of a number,
      and the number is the code point. */
  lemma CharLenExactly(s: Octets, len: nat)
    requires s != [] && 1 <= len <= 4
    ensures CharLen(s) == len <==> len <= |s| && exists n :: 0 <= n < FormLimit(len) && s[..len] == Form(n, len)
    ensures forall n :: 0 <= n < FormLimit(len) && len <= |s| && s[..len] == Form(n, len) ==> CodePointOf(s) == n
  {
    hide Form, CharLen, CodePointOf;
    if CharLen(s) == len { CharIsForm(s); }
    forall n: nat | n < FormLimit(len) && len <= |s| && s[..len] == Form(n, len)
      ensures CharLen(s) == len && CodePointOf(s) == n
    {
      FormIsChar(n, len, s);
    }
  }

  // ----- the reader -----

  /** The octet that a letter behind a backslash stands for. */
  function Lettered(b: Byte): Option<Byte>
  {
    if b == 'a' as int then Some(7) else if b == 'b' as int then Some(8) else if b == 't' as int then Some(9)
    else if b == 'n' as int then Some(10) else if b == 'v' as int then Some(11) else if b == 'f' as int then Some(12)
    else if b == 'r' as int then Some(13) else None
  }

  /** A hexadecimal digit in upper case. */
  function Digit(b: Byte): Option<nat>
  {
    if 48 <= b <= 57 then Some(b - 48) else if 65 <= b <= 70 then Some(b - 55) else None
  }

  /** The octets that a text stands for; `None` for an escape sequence that is incomplete or unknown, or that
      spells in digits what has a letter. */
  function Read(s: Octets): Option<Octets>
  {
    if s == [] then Some([])
    else if s[0] != 0x5C then Front(s[0], Read(s[1..]))
    else if |s| < 2 then None
    else if Lettered(s[1]).Some? then Front(Lettered(s[1]).value, Read(s[2..]))
    else if s[1] != 'x' as int || |s| < 4 || Digit(s[2]).None? || Digit(s[3]).None? then None
    else
      var b: Byte := Digit(s[2]).value * 16 + Digit(s[3]).value;
      if 7 <= b <= 13 then None else Front(b, Read(s[4..]))
  }

  function Front(b: Byte, more: Option<Octets>): Option<Octets>
  {
    if more.None? then None else Some([b] + more.value)
  }

  /** U+FFFD in the place of each octet from 0xA0 on that begins no character. */
  function Mended(s: Octets): Octets
  {
    if s == [] then []
    else if CharLen(s) > 0 then s[..CharLen(s)] + Mended(s[CharLen(s)..])
    else (if s[0] >= 0xA0 then Form(0xFFFD, 3) else [s[0]]) + Mended(s[1..])
  }

  lemma {:induction false} MendedUtf8(s: Octets)
    requires Utf8Ok(s)
    ensures Mended(s) == s
  {
    if s != [] {
      MendedUtf8(s[CharLen(s)..]);
      assert s == s[..CharLen(s)] + s[CharLen(s)..];
    }
  }

  /** Octets other than a backslash stand for themselves. */
  lemma {:induction false} PlainReads(a: Octets, rest: Octets)
    requires 0x5C !in a
    ensures Read(a + rest) == if Read(rest).None? then None else Some(a + Read(rest).value)
  {
    if a == [] {
      assert a + rest == rest;
      if Read(rest).Some? { assert a + Read(rest).value == Read(rest).value; }
    } else {
      assert (a + rest)[1..] == a[1..] + rest && a == [a[0]] + a[1..];
      PlainReads(a[1..], rest);
      if Read(rest).Some? { assert [a[0]] + (a[1..] + Read(rest).value) == a + Read(rest).value; }
    }
  }

  /** What the character at the front is mended to. */
  function MendedPiece(s: Octets): Octets
    requires s != []
  {
    if CharLen(s) > 0 then s[..CharLen(s)] else if s[0] >= 0xA0 then Form(0xFFFD, 3) else [s[0]]
  }

  lemma CharHasNone(s: Octets)
    requires s != [] && CharLen(s) > 0 && s[0] != 0x5C
    ensures 0x5C !in s[..CharLen(s)]
  {
  }

  lemma LetterReads(letter: Byte, rest: Octets)
    requires Lettered(letter).Some?
    ensures Read([0x5C, letter] + rest) == Front(Lettered(letter).value, Read(rest))
  {
    hide Lettered, Front;
    assert ([0x5C, letter] + rest)[2..] == rest;
  }

  lemma DigitsRead(b: Byte, rest: Octets)
    requires !(7 <= b <= 13)
    ensures Read([0x5C, 'x' as int, HexDigit(b / 16), HexDigit(b % 16)] + rest) == Front(b, Read(rest))
  {
    var t := [0x5C, 'x' as int, HexDigit(b / 16), HexDigit(b % 16)] + rest;
    assert Digit(t[2]) == Some(b / 16) && Digit(t[3]) == Some(b % 16) && Lettered(t[1]).None?;
    assert t[4..] == rest;
    hide Digit, Lettered, HexDigit, Front;
  }

  lemma PieceReads(s: Octets, rest: Octets)
    requires s != [] && s[0] != 0x5C
    ensures Read(Piece(s) + rest) == if Read(rest).None? then None else Some(MendedPiece(s) + Read(rest).value)
  {
    hide Read, HexDigit;
    if EscapeLetter(s[0]).Some? {
      LetterReads(EscapeLetter(s[0]).value, rest);
      assert MendedPiece(s) == [s[0]];
    } else if Control(s[0]) {
      DigitsRead(s[0], rest);
      assert MendedPiece(s) == [s[0]];
    } else if CharLen(s) > 0 {
      CharHasNone(s);
      PlainReads(Piece(s), rest);
    } else {
      PlainReads(Form(0xFFFD, 3), rest);
    }
  }

  /** Reading gives back the input with what is no character mended, if it has no backslash. */
  lemma {:induction false} ReadsBack(s: Octets)
    requires 0x5C !in s
    ensures Read(Sanitised(s)) == Some(Mended(s))
  {
    hide Piece, CharLen, Read;
    if s == [] {
      NothingReads();
    } else {
      ReadsBack(s[Step(s)..]);
      PieceReads(s, Sanitised(s[Step(s)..]));
    }
  }

  lemma NothingReads()
    ensures Sanitised([]) == [] && Mended([]) == [] && Read([]) == Some([])
  {
  }

  // ----- the backslash -----

  lemma SanitisedFront(s: Octets)
    requires s != []
    ensures Sanitised(s) != []
    ensures 0x20 <= Sanitised(s)[0] < 0x7F && Sanitised(s)[0] != 0x5C ==>
      s[0] == Sanitised(s)[0] && Sanitised(s) == [s[0]] + Sanitised(s[1..]) && Mended(s) == [s[0]] + Mended(s[1..])
  {
  }

  lemma BackslashStays(s: Octets)
    requires s != [] && s[0] == 0x5C
    ensures Sanitised(s) == [0x5C] + Sanitised(s[1..]) && Mended(s) == [0x5C] + Mended(s[1..])
  {
  }

  /** What is read as one octet behind a backslash of the input is all taken from the input. */
  lemma Behind(s: Octets) returns (j: nat)
    requires s != [] && s[0] == 0x5C && Read(Sanitised(s)).Some?
    ensures 2 <= j <= |s| && Mended(s) == s[..j] + Mended(s[j..]) && Read(Sanitised(s[j..])).Some?
    ensures |Read(Sanitised(s)).value| == 1 + |Read(Sanitised(s[j..])).value|
  {
    hide Sanitised, Mended;
    BackslashStays(s);
    var t := Sanitised(s);
    assert t[1..] == Sanitised(s[1..]);
    SomeFront(s, 1);
    if Lettered(t[1]).Some? {
      j := 2;
      assert t[2..] == Sanitised(s[2..]) && s[..2] == [s[0], s[1]];
    } else {
      SomeFront(s, 2);
      assert t[2..] == Sanitised(s[2..]);
      SomeFront(s, 3);
      j := 4;
      assert t[4..] == Sanitised(s[4..]) && s[..4] == [s[0], s[1], s[2], s[3]];
    }
  }

  /** A letter or digit of the text is one of the input. */
  lemma SomeFront(s: Octets, i: nat)
    requires i <= |s| && Sanitised(s[i..]) != []
    ensures i < |s|
    ensures
      var t := Sanitised(s[i..]);
      0x20 <= t[0] < 0x7F && t[0] != 0x5C ==>
        s[i] == t[0] && t == [s[i]] + Sanitised(s[i + 1..]) && Mended(s[i..]) == [s[i]] + Mended(s[i + 1..])
  {
    SanitisedFront(s[i..]);
    assert i < |s| ==> s[i..][1..] == s[i + 1..];
  }

  /** A text with a backslash of the input is read, if at all, as something shorter. */
  lemma {:induction false} ReadsShorter(s: Octets)
    ensures Read(Sanitised(s)).Some? ==> |Read(Sanitised(s)).value| <= |Mended(s)|
    ensures Read(Sanitised(s)).Some? && 0x5C in s ==> |Read(Sanitised(s)).value| < |Mended(s)|
    decreases |s|
  {
    hide Piece, CharLen, Sanitised, Mended, Read;
    if s == [] {
      NothingReads();
    } else if s[0] != 0x5C {
      OneStep(s);
      ReadsShorter(s[Step(s)..]);
      PieceReads(s, Sanitised(s[Step(s)..]));
    } else if Read(Sanitised(s)).Some? {
      var j := Behind(s);
      ReadsShorter(s[j..]);
    }
  }

  lemma OneStep(s: Octets)
    requires s != [] && s[0] != 0x5C
    ensures Sanitised(s) == Piece(s) + Sanitised(s[Step(s)..]) && Mended(s) == MendedPiece(s) + Mended(s[Step(s)..])
    ensures 0x5C in s ==> 0x5C in s[Step(s)..]
  {
    if CharLen(s) > 0 { CharHasNone(s); }
    assert s == s[..Step(s)] + s[Step(s)..];
  }

  /** The text stands for its input, with what is no character mended, if and only if the input has no backslash. */
  lemma ReadsBackExactly(s: Octets)
    ensures Read(Sanitised(s)) == Some(Mended(s)) <==> 0x5C !in s
    ensures Utf8Ok(s) ==> Mended(s) == s
  {
    hide Sanitised, Mended, Read;
    if 0x5C in s { ReadsShorter(s); } else { ReadsBack(s); }
    if Utf8Ok(s) { MendedUtf8(s); }
  }

  // ----- what is not touched -----

  lemma {:induction false} Utf8IsClean(s: Octets)
    requires Utf8Ok(s) && forall k :: 0 <= k < |s| ==> s[k] >= 0x20 && s[k] != 0x7F
    ensures Clean(s)
  {
    if s != [] { Utf8IsClean(s[CharLen(s)..]); }
  }

  /** A string is left as it is if and only if it is UTF-8 without an octet below 0x20 and without 0x7F. */
  lemma UntouchedExactly(s: Octets)
    ensures Sanitised(s) == s <==> Utf8Ok(s) && forall k :: 0 <= k < |s| ==> s[k] >= 0x20 && s[k] != 0x7F
  {
    hide Sanitised, Clean, Utf8Ok;
    if Sanitised(s) == s {
      SanitisedIsClean(s);
      CleanIsUtf8(s);
    }
    if Utf8Ok(s) && forall k :: 0 <= k < |s| ==> s[k] >= 0x20 && s[k] != 0x7F {
      Utf8IsClean(s);
      CleanStays(s);
    }
  }
}
