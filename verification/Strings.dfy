/** UTF-8 checking and the conversion of arbitrary octets to a printable string. */
module Strings {
  import opened Bytes

  const BACKSLASH: Byte := 0x5C

  // ----- characters -----

  /** Length of the UTF-8 character at the front, 0 when there is none (`utf8char_is_valid`). */
  function CharLen(s: Octets): (n: nat)
    requires s != []
    ensures n <= |s| && n <= 4
  {
    if s[0] < 0x80 then 1
    else if 0xC0 <= s[0] < 0xE0 && |s| >= 2 then if Tail(s[1]) then 2 else 0
    else if 0xE0 <= s[0] < 0xF0 && |s| >= 3 then if Tail(s[1]) && Tail(s[2]) then 3 else 0
    else if 0xF0 <= s[0] < 0xF8 && |s| >= 4 then if Tail(s[1]) && Tail(s[2]) && Tail(s[3]) then 4 else 0
    else 0
  }

  /** 10xx xxxx */
  predicate Tail(b: Byte) { 0x80 <= b < 0xC0 }

  /** `utf8char_is_control`: it looks at the first octet only. */
  predicate Control(b: Byte) { b <= 0x1F || b == 0x7F || 0x80 <= b <= 0x9F }

  /** The letter that stands for an escapable character (`utf8char_is_escapable`). */
  function EscapeLetter(b: Byte): Option<Byte>
  {
    if b == 7 then Some('a' as int) else if b == 10 then Some('n' as int) else if b == 13 then Some('r' as int)
    else if b == 9 then Some('t' as int) else if b == 8 then Some('b' as int)
    else if b == 12 then Some('f' as int) else if b == 11 then Some('v' as int) else None
  }

  function HexDigit(n: nat): Byte
    requires n < 16
  {
    if n < 10 then '0' as int + n else 'A' as int - 10 + n
  }

  /** U+FFFD, the replacement character */
  const REPLACEMENT: Octets := [0xEF, 0xBF, 0xBD]

  function Step(s: Octets): (n: nat)
    requires s != []
    ensures 1 <= n <= |s|
  {
    if CharLen(s) > 0 then CharLen(s) else 1
  }

  // ----- what the functions promise -----

  /** What `fds_string_utf8check` accepts: a sequence of characters. */
  predicate Utf8Ok(s: Octets)
  {
    s != [] ==> CharLen(s) > 0 && Utf8Ok(s[CharLen(s)..])
  }

  /** Nothing in `s` needs to be changed. */
  predicate Clean(s: Octets)
  {
    s != [] ==> CharLen(s) > 0 && EscapeLetter(s[0]) == None && !Control(s[0]) && Clean(s[CharLen(s)..])
  }

  /** What the character at the front is turned into. */
  function Piece(s: Octets): Octets
    requires s != []
  {
    if EscapeLetter(s[0]).Some? then [BACKSLASH, EscapeLetter(s[0]).value]
    else if Control(s[0]) then [BACKSLASH, 'x' as int, HexDigit(s[0] / 16), HexDigit(s[0] % 16)]
    else if CharLen(s) == 0 then REPLACEMENT
    else s[..CharLen(s)]
  }

  function Sanitised(s: Octets): Octets
  {
    if s == [] then [] else Piece(s) + Sanitised(s[Step(s)..])
  }

  lemma CharLenAppend(a: Octets, b: Octets)
    requires a != [] && CharLen(a) > 0
    ensures CharLen(a + b) == CharLen(a)
  {
  }

  lemma {:induction false} CleanAppend(a: Octets, b: Octets)
    requires Clean(a) && Clean(b)
    ensures Clean(a + b)
  {
    if a == [] {
      assert a + b == b;
    } else {
      CharLenAppend(a, b);
      assert (a + b)[CharLen(a)..] == a[CharLen(a)..] + b;
      CleanAppend(a[CharLen(a)..], b);
    }
  }

  lemma CleanAscii(b: Byte)
    requires 0x20 <= b < 0x7F
    ensures Clean([b])
  {
    assert [b][1..] == [];
  }

  lemma CleanPiece(s: Octets)
    requires s != []
    ensures Clean(Piece(s)) && Piece(s) != []
  {
    var p := Piece(s);
    if EscapeLetter(s[0]).Some? {
      CleanAscii(p[0]);
      CleanAscii(p[1]);
      CleanAppend([p[0]], [p[1]]);
      assert p == [p[0]] + [p[1]];
    } else if Control(s[0]) {
      CleanAscii(p[0]);
      CleanAscii(p[1]);
      CleanAscii(p[2]);
      CleanAscii(p[3]);
      CleanAppend([p[2]], [p[3]]);
      CleanAppend([p[1]], [p[2]] + [p[3]]);
      CleanAppend([p[0]], [p[1]] + ([p[2]] + [p[3]]));
      assert p == [p[0]] + ([p[1]] + ([p[2]] + [p[3]]));
    } else {
      assert p[CharLen(p)..] == [];
    }
  }

  /** The output is a sequence of characters none of which begins with a control octet or can be escaped, whatever
      the input. */
  lemma {:induction false} SanitisedIsClean(s: Octets)
    ensures Clean(Sanitised(s))
  {
    if s != [] {
      CleanPiece(s);
      SanitisedIsClean(s[Step(s)..]);
      CleanAppend(Piece(s), Sanitised(s[Step(s)..]));
    }
  }

  lemma {:induction false} CleanIsUtf8(s: Octets)
    requires Clean(s)
    ensures Utf8Ok(s) && forall k :: 0 <= k < |s| ==> s[k] >= 0x20 && s[k] != 0x7F
  {
    if s != [] {
      var n := CharLen(s);
      CleanIsUtf8(s[n..]);
      forall k | 0 <= k < |s| ensures s[k] >= 0x20 && s[k] != 0x7F {
        if k >= n { assert s[k] == s[n..][k - n]; }
      }
    }
  }

  lemma {:induction false} CleanStays(s: Octets)
    requires Clean(s)
    ensures Sanitised(s) == s
  {
    if s != [] {
      CleanStays(s[CharLen(s)..]);
      assert s == s[..CharLen(s)] + s[CharLen(s)..];
    }
  }

  /** Converting again changes nothing. */
  lemma SanitisedTwice(s: Octets)
    ensures Sanitised(Sanitised(s)) == Sanitised(s)
  {
    SanitisedIsClean(s);
    CleanStays(Sanitised(s));
  }

  lemma {:induction false} SanitisedLength(s: Octets)
    ensures |s| <= |Sanitised(s)| <= 4 * |s|
  {
    if s != [] {
      SanitisedLength(s[Step(s)..]);
    }
  }

  // ----- control characters -----

  /** The code point of the character at the front (section 3 of RFC 3629). */
  function CodePointOf(s: Octets): nat
    requires s != [] && CharLen(s) > 0
  {
    match CharLen(s)
    case 1 => s[0]
    case 2 => (s[0] as int % 0x20) * 0x40 + s[1] as int % 0x40
    case 3 => (s[0] as int % 0x10) * 0x1000 + (s[1] as int % 0x40) * 0x40 + s[2] as int % 0x40
    case _ =>
      (s[0] as int % 0x08) * 0x4_0000 + (s[1] as int % 0x40) * 0x1000 + (s[2] as int % 0x40) * 0x40 + s[3] as int % 0x40
  }

  /** The control characters of Unicode, C0, delete and C1. */
  predicate ControlPoint(n: nat) { n < 0x20 || 0x7F <= n <= 0x9F }

  /** A character of at least `least` octets in `s` is a control character. */
  predicate HasControl(s: Octets, least: nat)
  {
    s != [] &&
      ((CharLen(s) >= least && CharLen(s) > 0 && ControlPoint(CodePointOf(s))) || HasControl(s[Step(s)..], least))
  }

  lemma {:induction false} HasControlAppend(a: Octets, b: Octets)
    requires Utf8Ok(a)
    ensures HasControl(a + b, 1) <==> HasControl(a, 1) || HasControl(b, 1)
  {
    if a == [] {
      assert a + b == b;
    } else {
      var n := CharLen(a);
      CharLenAppend(a, b);
      assert (a + b)[n..] == a[n..] + b;
      HasControlAppend(a[n..], b);
    }
  }

  lemma {:induction false} CleanAsciiHasNone(p: Octets)
    requires forall k :: 0 <= k < |p| ==> 0x20 <= p[k] < 0x7F
    ensures !HasControl(p, 1)
  {
    if p != [] { CleanAsciiHasNone(p[1..]); }
  }

  lemma PieceControl(s: Octets)
    requires s != []
    ensures HasControl(Piece(s), 1) <==> CharLen(s) >= 2 && ControlPoint(CodePointOf(s))
  {
    var p := Piece(s);
    if EscapeLetter(s[0]).Some? || Control(s[0]) {
      CleanAsciiHasNone(p);
    } else {
      assert CharLen(p) == |p| && p[CharLen(p)..] == [];
      if CharLen(s) > 0 { assert CodePointOf(p) == CodePointOf(s); }
    }
  }

  /** A control character survives the conversion if and only if it is encoded in two or more octets. */
  lemma {:induction false} ControlsLeft(s: Octets)
    ensures HasControl(Sanitised(s), 1) <==> HasControl(s, 2)
  {
    hide Piece, CodePointOf;
    if s != [] {
      var rest := s[Step(s)..];
      ControlsLeft(rest);
      PieceControl(s);
      CleanPiece(s);
      CleanIsUtf8(Piece(s));
      HasControlAppend(Piece(s), Sanitised(rest));
    }
  }

  /** The next-line character, and a line feed in two octets, are not replaced. */
  lemma ControlsSlipThrough()
    ensures Sanitised([0xC2, 0x85]) == [0xC2, 0x85] && CodePointOf([0xC2, 0x85]) == 0x85
    ensures Sanitised([0xC0, 0x8A]) == [0xC0, 0x8A] && CodePointOf([0xC0, 0x8A]) == 0x0A
    ensures HasControl(Sanitised([0xC2, 0x85]), 1) && HasControl(Sanitised([0xC0, 0x8A]), 1)
  {
    assert [0xC2, 0x85][2..] == [] && [0xC0, 0x8A][2..] == [];
    assert Piece([0xC2, 0x85]) == [0xC2, 0x85] && Piece([0xC0, 0x8A]) == [0xC0, 0x8A];
  }

  // ----- the functions -----

  /** `fds_string_utf8check` */
  method Utf8Check(field: Octets) returns (ok: bool)
    ensures ok == Utf8Ok(field)
  {
    var idx := 0;
    assert field[0..] == field;
    while idx < |field|
      invariant 0 <= idx <= |field| && Utf8Ok(field[idx..]) == Utf8Ok(field)
    {
      var step := CharLen(field[idx..]);
      if step == 0 { return false; }
      assert field[idx..][step..] == field[idx + step..];
      idx := idx + step;
    }
    return true;
  }

  /** Octets `[from, to)` of the input behind the output written so far. */
  method Copy(str: array<Byte>, posOut: nat, field: Octets, from: nat, to: nat)
    requires from <= to <= |field| && posOut + (to - from) <= str.Length
    modifies str
    ensures str[..posOut + (to - from)] == old(str[..posOut]) + field[from..to]
  {
    ghost var was := str[..];
    Store(str, posOut, field[from..to]);
    SpliceKeeps(was, posOut, field[from..to], 0, posOut);
    assert str[..][0..posOut] == was[0..posOut];
    assert str[..posOut + (to - from)] == str[..][..posOut] + str[..][posOut..posOut + (to - from)];
  }

  /** What is already there, what is still to be copied, and what is to come make up the whole output. */
  ghost predicate Progress(field: Octets, done: Octets, posCopy: nat, posIn: nat)
  {
    posCopy <= posIn <= |field| && done + field[posCopy..posIn] + Sanitised(field[posIn..]) == Sanitised(field)
  }

  lemma ProgressCopy(field: Octets, done: Octets, posCopy: nat, posIn: nat)
    requires Progress(field, done, posCopy, posIn) && posIn < |field|
    requires Piece(field[posIn..]) == field[posIn..posIn + Step(field[posIn..])]
    ensures Progress(field, done, posCopy, posIn + Step(field[posIn..]))
  {
    var n := Step(field[posIn..]);
    assert field[posIn..][n..] == field[posIn + n..];
    Regroup(done, field[posCopy..posIn], field[posIn..posIn + n], Sanitised(field[posIn + n..]));
    assert field[posCopy..posIn] + field[posIn..posIn + n] == field[posCopy..posIn + n];
    hide Sanitised, Piece, Step;
  }

  lemma Regroup(a: Octets, b: Octets, c: Octets, d: Octets)
    ensures a + b + (c + d) == a + (b + c) + d && a + b + (c + d) == a + b + c + d
  {
  }

  lemma ProgressChange(field: Octets, done: Octets, posCopy: nat, posIn: nat)
    requires Progress(field, done, posCopy, posIn) && posIn < |field| && Step(field[posIn..]) == 1
    ensures Progress(field, done + field[posCopy..posIn] + Piece(field[posIn..]), posIn + 1, posIn + 1)
  {
    var p, rest := Piece(field[posIn..]), Sanitised(field[posIn + 1..]);
    assert field[posIn..][1..] == field[posIn + 1..];
    assert field[posIn + 1..posIn + 1] == [];
    Regroup(done, field[posCopy..posIn], p, rest);
    assert done + field[posCopy..posIn] + p + [] == done + field[posCopy..posIn] + p;
  }

  /** Copy the unchanged octets before the character at `posIn`, and then what stands for it. */
  method Replace(field: Octets, str: array<Byte>, posCopy: nat, posIn: nat, posOut: nat) returns (end: Option<nat>)
    requires posOut <= str.Length && Progress(field, str[..posOut], posCopy, posIn) && posIn < |field|
    requires var s := field[posIn..]; !(CharLen(s) > 0 && EscapeLetter(s[0]) == None && !Control(s[0]))
    modifies str
    ensures end.None? ==> |Sanitised(field)| + 1 > str.Length
    ensures end.Some? ==> end.value <= str.Length && Progress(field, str[..end.value], posIn + 1, posIn + 1)
  {
    var ch := field[posIn..];
    var letter, control := EscapeLetter(ch[0]), Control(ch[0]);
    ChangedPiece(ch);
    ghost var done := str[..posOut];
    ProgressChange(field, done, posCopy, posIn);
    ProgressLength(field, done, posCopy, posIn);
    hide Progress, Sanitised, Piece, Step, CharLen;
    var copyLen := posIn - posCopy;
    if copyLen > str.Length - posOut { return None; }
    Copy(str, posOut, field, posCopy, posIn);
    var pos := posOut + copyLen;
    var subst := if letter.Some? then [BACKSLASH, letter.value]
                 else if control then [BACKSLASH, 'x' as int, HexDigit(ch[0] / 16), HexDigit(ch[0] % 16)]
                 else REPLACEMENT;
    if str.Length - pos < |subst| { return None; }
    Copy(str, pos, subst, 0, |subst|);
    assert subst[0..|subst|] == subst;
    return Some(pos + |subst|);
  }

  lemma ProgressLength(field: Octets, done: Octets, posCopy: nat, posIn: nat)
    requires Progress(field, done, posCopy, posIn) && posIn < |field| && Step(field[posIn..]) == 1
    ensures posCopy <= posIn && |done| + (posIn - posCopy) + |Piece(field[posIn..])| <= |Sanitised(field)|
  {
    ProgressChange(field, done, posCopy, posIn);
  }

  lemma ProgressEnd(field: Octets, done: Octets, posCopy: nat)
    requires Progress(field, done, posCopy, |field|)
    ensures posCopy <= |field| && done + field[posCopy..|field|] == Sanitised(field)
  {
    assert field[|field|..] == [];
  }

  /** `fds_string2str`: it succeeds exactly when the whole output and the null byte fit into the buffer. */
  method String2Str(field: Octets, str: array<Byte>) returns (len: Option<nat>)
    modifies str
    ensures len.Some? <==> |Sanitised(field)| + 1 <= str.Length
    ensures len.Some? ==> len.value == |Sanitised(field)| && str[..len.value] == Sanitised(field) && str[len.value] == 0
  {
    SanitisedLength(field);
    if |field| + 1 > str.Length { return None; }
    var posCopy: nat, posOut: nat, posIn: nat := 0, 0, 0;
    ProgressStart(field, str[..posOut]);
    hide Sanitised, Piece, Progress, Step, CharLen;
    while posIn < |field|
      invariant posOut <= str.Length && posIn <= |field| && Progress(field, str[..posOut], posCopy, posIn)
    {
      var ch := field[posIn..];
      if CharLen(ch) > 0 && EscapeLetter(ch[0]).None? && !Control(ch[0]) {
        PlainPiece(ch);
        assert ch[..Step(ch)] == field[posIn..posIn + Step(ch)];
        ProgressCopy(field, str[..posOut], posCopy, posIn);
        posIn := posIn + Step(ch);
        continue;
      }
      var end := Replace(field, str, posCopy, posIn, posOut);
      if end.None? { return None; }
      posOut := end.value;
      posCopy := posIn + 1;
      posIn := posIn + 1;
    }
    ProgressEnd(field, str[..posOut], posCopy);
    var copyLen := |field| - posCopy;
    if copyLen + 1 > str.Length - posOut { return None; }
    Copy(str, posOut, field, posCopy, |field|);
    posOut := posOut + copyLen;
    ghost var out := str[..posOut];
    str[posOut] := 0;
    assert str[..posOut] == out;
    return Some(posOut);
  }

  lemma ProgressStart(field: Octets, done: Octets)
    requires done == []
    ensures Progress(field, done, 0, 0)
  {
    assert field[0..] == field && done + field[0..0] + Sanitised(field) == Sanitised(field);
  }

  lemma PlainPiece(s: Octets)
    requires s != [] && CharLen(s) > 0 && EscapeLetter(s[0]) == None && !Control(s[0])
    ensures Piece(s) == s[..Step(s)]
  {
  }

  lemma ChangedPiece(s: Octets)
    requires s != [] && !(CharLen(s) > 0 && EscapeLetter(s[0]) == None && !Control(s[0]))
    ensures Step(s) == 1
    ensures Piece(s) == if EscapeLetter(s[0]).Some? then [BACKSLASH, EscapeLetter(s[0]).value]
      else if Control(s[0]) then [BACKSLASH, 'x' as int, HexDigit(s[0] / 16), HexDigit(s[0] % 16)]
      else REPLACEMENT
  {
  }
}
