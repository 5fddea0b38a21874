/** Strings in JSON output: escaping, and un-escaping by section 2.5 of RFC 4627. */
module JsonString {
  import opened Bytes
  import opened Strings

  const QUOTE: Byte := 0x22

  /** A quote or backslash is always escaped. */
  predicate MustEscape(b: Byte) { b == QUOTE || b == BACKSLASH }

  /** The letter of an escapable character; `\a` and `\v` have none in JSON. */
  function Letter(b: Byte): Option<Byte>
  {
    if b == 10 then Some('n' as int) else if b == 13 then Some('r' as int) else if b == 9 then Some('t' as int)
    else if b == 8 then Some('b' as int) else if b == 12 then Some('f' as int) else None
  }

  /** May the character at the front be copied? */
  predicate Plain(s: Octets)
    requires s != []
  {
    CharLen(s) > 0 && Letter(s[0]) == None && !Control(s[0]) && !MustEscape(s[0])
  }

  /** What stands for the character at the front; with the flag `drop` what cannot be printed is left out. */
  function JPiece(s: Octets, drop: bool): Octets
    requires s != []
  {
    if Plain(s) then s[..CharLen(s)] else Substitute(s[0], drop)
  }

  function Substitute(b: Byte, drop: bool): (p: Octets)
    ensures |p| <= 6
  {
    if MustEscape(b) then [BACKSLASH, b]
    else if drop then []
    else if Letter(b).Some? then [BACKSLASH, Letter(b).value]
    else if Control(b) then [BACKSLASH, 'u' as int, '0' as int, '0' as int, HexDigit(b / 16), HexDigit(b % 16)]
    else REPLACEMENT
  }

  /** The text between the quotes. */
  function Body(s: Octets, drop: bool): Octets
  {
    if s == [] then [] else JPiece(s, drop) + Body(s[Step(s)..], drop)
  }

  // ----- a reader of JSON strings -----

  function HexValue(b: Byte): Option<nat>
  {
    if '0' as int <= b <= '9' as int then Some(b - '0' as int)
    else if 'A' as int <= b <= 'F' as int then Some(b - 'A' as int + 10)
    else if 'a' as int <= b <= 'f' as int then Some(b - 'a' as int + 10)
    else None
  }

  /** The code point behind `\u`. */
  function CodePoint(s: Octets): Option<nat>
    requires |s| >= 4
  {
    var a, b, c, d := HexValue(s[0]), HexValue(s[1]), HexValue(s[2]), HexValue(s[3]);
    if a.None? || b.None? || c.None? || d.None? then None
    else Some(a.value * 4096 + b.value * 256 + c.value * 16 + d.value)
  }

  /** A code point of the basic plane in UTF-8; halves of surrogate pairs are not accepted. */
  function EncodePoint(n: nat): Option<Octets>
  {
    if n < 0x80 then Some([n])
    else if n < 0x800 then Some([0xC0 + n / 64, 0x80 + n % 64])
    else if n >= 0x1_0000 || 0xD800 <= n <= 0xDFFF then None
    else Some([0xE0 + n / 4096, 0x80 + n / 64 % 64, 0x80 + n % 64])
  }

  /** The character that a two-character escape sequence stands for. */
  function Escaped(b: Byte): Option<Byte>
  {
    if b == QUOTE || b == BACKSLASH || b == '/' as int then Some(b)
    else if b == 'n' as int then Some(10) else if b == 'r' as int then Some(13) else if b == 't' as int then Some(9)
    else if b == 'b' as int then Some(8) else if b == 'f' as int then Some(12) else None
  }

  /** The string that a JSON string body stands for; `None` for a bare quote, a control character below 0x20
      or an escape sequence that the standard does not know. */
  function Unescape(s: Octets): Option<Octets>
  {
    if s == [] then Some([])
    else if s[0] == QUOTE || s[0] < 0x20 then None
    else if s[0] != BACKSLASH then Before([s[0]], Unescape(s[1..]))
    else if |s| < 2 then None
    else if Escaped(s[1]).Some? then Before([Escaped(s[1]).value], Unescape(s[2..]))
    else if s[1] != 'u' as int || |s| < 6 || CodePoint(s[2..6]).None? then None
    else
      match EncodePoint(CodePoint(s[2..6]).value)
      case None => None
      case Some(c) => Before(c, Unescape(s[6..]))
  }

  function Before(a: Octets, b: Option<Octets>): Option<Octets>
  {
    if b.None? then None else Some(a + b.value)
  }

  // ----- the reader undoes the writer -----

  /** Octets that are copied as they are are read as they are. */
  lemma {:induction false} CopiedReads(a: Octets, rest: Octets)
    requires forall k :: 0 <= k < |a| ==> a[k] >= 0x20 && a[k] != QUOTE && a[k] != BACKSLASH
    ensures Unescape(a + rest) == Before(a, Unescape(rest))
  {
    hide Before;
    if a == [] {
      assert a + rest == rest;
      BeforeNothing(Unescape(rest));
    } else {
      assert (a + rest)[1..] == a[1..] + rest && a == [a[0]] + a[1..];
      CopiedReads(a[1..], rest);
      BeforeTwice([a[0]], a[1..], Unescape(rest));
    }
  }

  lemma BeforeNothing(b: Option<Octets>)
    ensures Before([], b) == b
  {
    if b.Some? { assert [] + b.value == b.value; }
  }

  lemma BeforeTwice(x: Octets, y: Octets, b: Option<Octets>)
    ensures Before(x + y, b) == Before(x, Before(y, b))
  {
    if b.Some? { assert x + y + b.value == x + (y + b.value); }
  }

  lemma PlainOctets(s: Octets)
    requires s != [] && Plain(s)
    ensures forall k :: 0 <= k < CharLen(s) ==> s[k] >= 0x20 && s[k] != QUOTE && s[k] != BACKSLASH
  {
  }

  lemma HexReads(b: Byte)
    ensures HexValue(HexDigit(b / 16)) == Some(b / 16) && HexValue(HexDigit(b % 16)) == Some(b % 16)
  {
  }

  /** What is put in the place of an octet is read as that octet, or as nothing when it is dropped; what begins no
      character is read as the code point of that number below 0xA0, and as U+FFFD from there on. */
  lemma SubstituteReads(b: Byte, drop: bool, rest: Octets)
    requires !(0x20 <= b < 0x7F) || MustEscape(b)
    ensures
      Unescape(Substitute(b, drop) + rest) ==
        Before(if MustEscape(b) then [b] else if drop then [] else if b < 0x80 then [b]
               else if b < 0xA0 then [0xC2, b] else [0xEF, 0xBF, 0xBD], Unescape(rest))
  {
    hide Unescape, Before, CodePoint;
    if MustEscape(b) {
      TwoReads(b, rest);
    } else if drop {
      assert Substitute(b, drop) + rest == rest;
      BeforeNothing(Unescape(rest));
    } else if Letter(b).Some? {
      TwoReads(Letter(b).value, rest);
    } else if Control(b) {
      UnicodeReads(b, rest);
    } else {
      CopiedReads(REPLACEMENT, rest);
    }
  }

  /** A two-character escape sequence. */
  lemma TwoReads(letter: Byte, rest: Octets)
    requires Escaped(letter).Some?
    ensures Unescape([BACKSLASH, letter] + rest) == Before([Escaped(letter).value], Unescape(rest))
  {
    assert ([BACKSLASH, letter] + rest)[2..] == rest;
  }

  /** A control character as a code point. */
  lemma UnicodeReads(b: Byte, rest: Octets)
    ensures
      var p := [BACKSLASH, 'u' as int, '0' as int, '0' as int, HexDigit(b / 16), HexDigit(b % 16)];
      Unescape(p + rest) == Before(EncodePoint(b).value, Unescape(rest))
  {
    var p := [BACKSLASH, 'u' as int, '0' as int, '0' as int, HexDigit(b / 16), HexDigit(b % 16)];
    var s := p + rest;
    HexReads(b);
    assert s[6..] == rest && s[2..6] == ['0' as int, '0' as int, HexDigit(b / 16), HexDigit(b % 16)];
    assert HexValue('0' as int) == Some(0);
    assert CodePoint(s[2..6]) == Some(b);
    hide HexValue, HexDigit, CodePoint, Before;
  }

  /** What is left of a string when all that cannot be printed is dropped: characters that are no controls. */
  function Kept(s: Octets): Octets
  {
    if s == [] then []
    else if CharLen(s) == 0 then Kept(s[1..])
    else if s[0] < 0x20 || s[0] == 0x7F then Kept(s[1..])
    else s[..CharLen(s)] + Kept(s[CharLen(s)..])
  }

  /** A string whose octets that begin no character are code points below 0xA0, and U+FFFD from there on. */
  function Restored(s: Octets): Octets
  {
    if s == [] then []
    else if CharLen(s) > 0 then s[..CharLen(s)] + Restored(s[CharLen(s)..])
    else (if s[0] < 0xA0 then [0xC2, s[0]] else [0xEF, 0xBF, 0xBD]) + Restored(s[1..])
  }

  /** What the reader makes of the body, for any octets and both settings of the flag. */
  lemma {:induction false} BodyReads(s: Octets, drop: bool)
    ensures Unescape(Body(s, drop)) == Some(if drop then Kept(s) else Restored(s))
  {
    hide Unescape, Substitute, Before;
    if s == [] {
      NothingReads();
    } else {
      var more := s[Step(s)..];
      BodyReads(more, drop);
      var left := if drop then Kept(more) else Restored(more);
      if Plain(s) {
        PlainOctets(s);
        CopiedReads(s[..CharLen(s)], Body(more, drop));
        BeforeValue(s[..CharLen(s)], left);
      } else {
        SubstituteReads(s[0], drop, Body(more, drop));
        assert s[..1] == [s[0]] && [] + left == left;
        BeforeValue(if MustEscape(s[0]) then [s[0]] else if drop then [] else if s[0] < 0x80 then [s[0]]
                    else if s[0] < 0xA0 then [0xC2, s[0]] else [0xEF, 0xBF, 0xBD], left);
      }
    }
  }

  /** Whatever the octets and the flag, the body is a legal JSON string body: no bare quote, no control
      character, no broken escape sequence. */
  lemma BodyIsLegal(s: Octets, drop: bool)
    ensures Unescape(Body(s, drop)).Some?
  {
    BodyReads(s, drop);
  }

  /** A quote, a backslash and the controls that JSON has a letter for are written with two characters. */
  lemma ShortEscapes(k: nat, rest: Octets)
    requires k < 7
    ensures
      var b := [34, 92, 8, 9, 10, 12, 13][k];
      var letter := [34, 92, 'b' as int, 't' as int, 'n' as int, 'f' as int, 'r' as int][k];
      Body([b] + rest, false) == [92, letter] + Body(rest, false)
  {
    var s := [[34, 92, 8, 9, 10, 12, 13][k]] + rest;
    assert s[1..] == rest && CharLen(s) == 1;
  }

  lemma {:induction false} Utf8Append(a: Octets, b: Octets)
    requires Utf8Ok(a) && Utf8Ok(b)
    ensures Utf8Ok(a + b)
  {
    if a == [] {
      assert a + b == b;
    } else {
      CharLenAppend(a, b);
      assert (a + b)[CharLen(a)..] == a[CharLen(a)..] + b;
      Utf8Append(a[CharLen(a)..], b);
    }
  }

  lemma {:induction false} AsciiIsUtf8(p: Octets)
    requires forall k :: 0 <= k < |p| ==> p[k] < 0x80
    ensures Utf8Ok(p)
  {
    if p != [] { AsciiIsUtf8(p[1..]); }
  }

  lemma PieceIsUtf8(s: Octets, drop: bool)
    requires s != []
    ensures Utf8Ok(JPiece(s, drop))
  {
    var p := JPiece(s, drop);
    if Plain(s) || p == REPLACEMENT {
      assert CharLen(p) == |p| && p[|p|..] == [];
    } else {
      AsciiIsUtf8(p);
    }
  }

  /** The body is UTF-8, whatever the octets and the flag. */
  lemma {:induction false} BodyIsUtf8(s: Octets, drop: bool)
    ensures Utf8Ok(Body(s, drop))
  {
    if s != [] {
      BodyIsUtf8(s[Step(s)..], drop);
      PieceIsUtf8(s, drop);
      Utf8Append(JPiece(s, drop), Body(s[Step(s)..], drop));
    }
  }

  /** Without the flag, reading the body gives back every valid UTF-8 string. */
  lemma JsonRoundTrip(s: Octets)
    requires Utf8Ok(s)
    ensures Unescape(Body(s, false)) == Some(s)
  {
    BodyReads(s, false);
    RestoredUtf8(s);
  }

  lemma {:induction false} RestoredUtf8(s: Octets)
    requires Utf8Ok(s)
    ensures Restored(s) == s
  {
    if s != [] {
      RestoredUtf8(s[CharLen(s)..]);
      assert s == s[..CharLen(s)] + s[CharLen(s)..];
    }
  }

  lemma NothingReads()
    ensures Unescape([]) == Some([])
  {
  }

  lemma BeforeValue(a: Octets, b: Octets)
    ensures Before(a, Some(b)) == Some(a + b)
  {
  }

  lemma {:induction false} BodyLength(s: Octets, drop: bool)
    ensures |Body(s, drop)| <= 6 * |s|
  {
    if s != [] {
      BodyLength(s[Step(s)..], drop);
    }
  }

  // ----- the function -----

  ghost predicate Progress(s: Octets, drop: bool, done: Octets, posCopy: nat, posIn: nat)
  {
    posCopy <= posIn <= |s| && done + s[posCopy..posIn] + Body(s[posIn..], drop) == [QUOTE] + Body(s, drop)
  }

  lemma ProgressStart(s: Octets, drop: bool, done: Octets)
    requires done == [QUOTE]
    ensures Progress(s, drop, done, 0, 0)
  {
    assert s[0..] == s && done + s[0..0] == done;
  }

  lemma ProgressCopy(s: Octets, drop: bool, done: Octets, posCopy: nat, posIn: nat)
    requires Progress(s, drop, done, posCopy, posIn) && posIn < |s| && Plain(s[posIn..])
    ensures Progress(s, drop, done, posCopy, posIn + CharLen(s[posIn..]))
  {
    hide CharLen, Plain, Body;
    PlainStep(s[posIn..]);
    var n := CharLen(s[posIn..]);
    BodyStep(s, drop, posIn);
    Regroup(done, s[posCopy..posIn], s[posIn..posIn + n], Body(s[posIn + n..], drop));
    assert s[posCopy..posIn] + s[posIn..posIn + n] == s[posCopy..posIn + n];
  }

  lemma BodyStep(s: Octets, drop: bool, i: nat)
    requires i < |s| && Plain(s[i..])
    ensures Body(s[i..], drop) == s[i..i + CharLen(s[i..])] + Body(s[i + CharLen(s[i..])..], drop)
  {
    hide CharLen, Substitute, Plain;
    PlainStep(s[i..]);
    var n := CharLen(s[i..]);
    assert s[i..][n..] == s[i + n..] && s[i..][..n] == s[i..i + n];
  }

  lemma ProgressChange(s: Octets, drop: bool, done: Octets, posCopy: nat, posIn: nat)
    requires Progress(s, drop, done, posCopy, posIn) && posIn < |s| && !Plain(s[posIn..])
    ensures Progress(s, drop, done + s[posCopy..posIn] + Substitute(s[posIn], drop), posIn + 1, posIn + 1)
  {
    assert s[posIn..][1..] == s[posIn + 1..] && Step(s[posIn..]) == 1;
    assert s[posIn + 1..posIn + 1] == [];
    var p, rest := Substitute(s[posIn], drop), Body(s[posIn + 1..], drop);
    Regroup(done, s[posCopy..posIn], p, rest);
    assert done + s[posCopy..posIn] + p + [] == done + s[posCopy..posIn] + p;
    hide CharLen, Plain, Substitute;
  }

  lemma ProgressRoom(s: Octets, drop: bool, done: Octets, posCopy: nat, posIn: nat)
    requires Progress(s, drop, done, posCopy, posIn)
    ensures posCopy <= posIn <= |s| && |done| + (posIn - posCopy) <= 6 * |s| + 1
    ensures
      posIn < |s| && !Plain(s[posIn..]) ==> |done| + (posIn - posCopy) + |Substitute(s[posIn], drop)| <= 6 * |s| + 1
    ensures posIn == |s| ==> done + s[posCopy..posIn] == [QUOTE] + Body(s, drop)
  {
    BodyLength(s, drop);
    if posIn == |s| { assert s[posIn..] == []; }
    if posIn < |s| && !Plain(s[posIn..]) { ProgressChange(s, drop, done, posCopy, posIn); }
  }

  /** Copy the unchanged octets before the character at `posIn`, and then what stands for it. */
  method Replace(field: Octets, drop: bool, out: array<Byte>, posCopy: nat, posIn: nat, posOut: nat) returns (end: nat)
    requires
      out.Length >= 6 * |field| + 4 && posOut <= out.Length && Progress(field, drop, out[..posOut], posCopy, posIn)
    requires posIn < |field| && !Plain(field[posIn..])
    modifies out
    ensures end <= out.Length && Progress(field, drop, out[..end], posIn + 1, posIn + 1)
  {
    hide Body, Plain, Substitute, Progress, CharLen;
    ProgressRoom(field, drop, out[..posOut], posCopy, posIn);
    ProgressChange(field, drop, out[..posOut], posCopy, posIn);
    Copy(out, posOut, field, posCopy, posIn);
    var pos := posOut + (posIn - posCopy);
    var subst := Substitute(field[posIn], drop);
    Copy(out, pos, subst, 0, |subst|);
    assert subst[0..|subst|] == subst;
    end := pos + |subst|;
  }

  /** `to_string`: the quoted string, written into the reserved six octets for each octet and four more. */
  method ToString(field: Octets, drop: bool, out: array<Byte>) returns (posOut: nat)
    requires out.Length >= 6 * |field| + 4
    modifies out
    ensures posOut <= out.Length && out[..posOut] == [QUOTE] + Body(field, drop) + [QUOTE]
  {
    hide Body, Plain, Progress, CharLen, Step, Control, Letter;
    out[0] := QUOTE;
    posOut := 1;
    assert out[..1] == [QUOTE];
    ProgressStart(field, drop, out[..1]);
    var posCopy: nat, posIn: nat := 0, 0;
    while posIn < |field|
      invariant posOut <= out.Length && posIn <= |field| && Progress(field, drop, out[..posOut], posCopy, posIn)
    {
      var ch := field[posIn..];
      if Plain(ch) {
        ProgressCopy(field, drop, out[..posOut], posCopy, posIn);
        PlainStep(ch);
        posIn := posIn + CharLen(ch);
        continue;
      }
      posOut := Replace(field, drop, out, posCopy, posIn, posOut);
      posCopy := posIn + 1;
      posIn := posIn + 1;
    }
    ProgressRoom(field, drop, out[..posOut], posCopy, posIn);
    Copy(out, posOut, field, posCopy, |field|);
    posOut := posOut + (|field| - posCopy);
    ghost var text := out[..posOut];
    out[posOut] := QUOTE;
    posOut := posOut + 1;
    assert out[..posOut] == text + [QUOTE];
  }

  lemma PlainStep(s: Octets)
    requires s != [] && Plain(s)
    ensures 1 <= CharLen(s) <= |s|
  {
  }
}
