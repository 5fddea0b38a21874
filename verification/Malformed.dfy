/** What the iterators make of octets that this writer does not lay out: padding, other Sets, and errors. */
module Malformed {
  import opened Bytes
  import opened ByteOrder
  import opened Templates
  import opened Messages

  /** Records in front of any octets are delivered first. */
  lemma {:induction false} RecsThen(recs: seq<Octets>, rest: Octets, t: Template, etime: U32)
    requires forall k :: 0 <= k < |recs| ==> RecOk(recs[k], t)
    ensures RecsOf(Join(recs) + rest, t, etime) == Then(Stream(RecList(recs, t, etime), Eoc), RecsOf(rest, t, etime))
    ensures recs != [] ==> t.DataLength() <= |Join(recs)|
  {
    if recs == [] {
      assert Join(recs) + rest == rest;
      assert [] + RecsOf(rest, t, etime).recs == RecsOf(rest, t, etime).recs;
    } else {
      var r, more := recs[0], Join(recs[1..]) + rest;
      RecLenPrefix(r, more, t);
      assert Join(recs) + rest == r + more;
      assert (r + more)[..|r|] == r && (r + more)[|r|..] == more;
      RecsThen(recs[1..], rest, t, etime);
      assert RecList(recs, t, etime) == [Rec(etime, t, r)] + RecList(recs[1..], t, etime);
      assert [Rec(etime, t, r)] + (RecList(recs[1..], t, etime) + RecsOf(rest, t, etime).recs)
          == RecList(recs, t, etime) + RecsOf(rest, t, etime).recs;
      hide RecLen, RecList;
    }
  }

  /** Behind its records a Data Set may be padded with fewer octets than the shortest record has; a rest that is long
      enough and is no whole record is an error, and the records before it are delivered all the same. */
  lemma SetEnds(recs: seq<Octets>, rest: Octets, t: Template, etime: U32)
    requires recs != [] && forall k :: 0 <= k < |recs| ==> RecOk(recs[k], t)
    ensures rest == [] || |rest| < t.DataLength() ==>
      SetRecs(Join(recs) + rest, t, etime) == Stream(RecList(recs, t, etime), Eoc)
    ensures rest != [] && |rest| >= t.DataLength() && RecLen(rest, t).None? ==>
      SetRecs(Join(recs) + rest, t, etime) == Stream(RecList(recs, t, etime), Bad)
  {
    hide Join, RecList, RecOk, RecLen;
    RecsThen(recs, rest, t, etime);
    assert RecList(recs, t, etime) + [] == RecList(recs, t, etime);
  }

  /** A Data Set without room for a record is an error, and one of records without octets never ends. */
  lemma NoRecord(body: Octets, t: Template, etime: U32)
    ensures |body| < t.DataLength() ==> SetRecs(body, t, etime) == Stream([], Bad)
    ensures body != [] && t.DataLength() == 0 ==> SetRecs(body, t, etime) == Stream([], Stuck)
    ensures body == [] && t.DataLength() == 0 ==> SetRecs(body, t, etime) == Stream([], Eoc)
  {
    if t.DataLength() == 0 { NothingVariable(t.fields); }
  }

  /** A field of variable length has at least the octet of its own length. */
  lemma {:induction false} NothingVariable(fs: seq<Field>)
    requires MinLength(fs) == 0
    ensures forall k :: 0 <= k < |fs| ==> fs[k].length == 0
  {
    if fs != [] { NothingVariable(fs[1..]); }
  }

  /** A Set with its header. */
  function SetOctets(id: U16, body: Octets): Octets
    requires |body| <= 65531
  {
    Be(2, id) + Be(2, 4 + |body|) + body
  }

  lemma SetParts(id: U16, body: Octets, rest: Octets)
    requires |body| <= 65531
    ensures
      var s := SetOctets(id, body) + rest;
      && SetAt(s) == Some(4 + |body|) && FromBe16(s[..2]) == id
      && s[4..4 + |body|] == body && s[4 + |body|..] == rest
  {
    Be2(id);
    Be2(4 + |body|);
    var s := SetOctets(id, body) + rest;
    assert s[..2] == Be16(id) && s[2..4] == Be16(4 + |body|);
    Be16RoundTrip(id);
    Be16RoundTrip(4 + |body|);
    hide Be, Be16;
  }

  /** Sets with an ID below 256, which hold templates, are passed over; a Data Set needs its template in the
      snapshot. */
  lemma OneSetRead(id: U16, body: Octets, rest: Octets, snap: TmpltMap, etime: U32)
    requires |body| <= 65531
    ensures
      SetsOf(SetOctets(id, body) + rest, snap, etime) ==
        if id < 256 then SetsOf(rest, snap, etime)
        else if id !in snap then Stream([], Bad)
        else Then(SetRecs(body, snap[id], etime), SetsOf(rest, snap, etime))
  {
    hide SetOctets, SetAt, SetRecs, FromBe16;
    SetParts(id, body, rest);
  }

  /** A header that is cut, and a length below that of the header or beyond the Message, are errors. */
  lemma BrokenSet(s: Octets, snap: TmpltMap, etime: U32)
    requires s != []
    requires |s| < 4 || s[2] as int * 256 + s[3] < 4 || s[2] as int * 256 + s[3] > |s|
    ensures SetsOf(s, snap, etime) == Stream([], Bad)
  {
    if |s| >= 4 { assert s[2..4] == [s[2], s[3]]; }
  }

  /** A Message is refused exactly when its header is cut, its version is not 10, or its length is shorter than the
      header or passes the end of the block; otherwise its Sets are read, and then the next Message. */
  lemma OneMessageRead(s: Octets, snap: TmpltMap)
    requires s != []
    ensures
      if |s| < 16 then MsgsOf(s, snap) == Stream([], Bad)
      else
        var len := s[2] as int * 256 + s[3];
        MsgsOf(s, snap) ==
          if s[..2] != [0, 10] || len < 16 || len > |s| then Stream([], Bad)
          else Then(SetsOf(s[16..len], snap, FromBe32(s[4..8])), MsgsOf(s[len..], snap))
  {
    if |s| >= 16 {
      var len := s[2] as int * 256 + s[3];
      assert s[..2] == [s[0], s[1]] && s[2..4] == [s[2], s[3]];
      if 16 <= len <= |s| { assert s[..len][16..] == s[16..len] && s[..len][4..8] == s[4..8]; }
    }
  }
}
