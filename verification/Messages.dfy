/** IPFIX Messages, Data Sets and Data Records: how they are laid out and how the iterators read them
    back (RFC 7011, sections 3.1, 3.3.2 and 3.4.3). */
module Messages {
  import opened Bytes
  import opened Templates

  const IPFIX_VERSION := 10
  const MSG_HDR_LEN := 16
  const SET_HDR_LEN := 4

  datatype DataSet = DataSet(tid: U16, recs: seq<Octets>)
  datatype Msg = Msg(etime: U32, seqNum: U32, odid: U32, sets: seq<DataSet>)
  type TmpltMap = map<nat, Template>

  // ----- layout -----

  function Join(recs: seq<Octets>): Octets
  {
    Concat((r: Octets) => r, recs)
  }

  function EncSet(s: DataSet): (b: Octets)
    ensures |b| == SET_HDR_LEN + |Join(s.recs)|
  {
    Be16(s.tid) + Be16(SET_HDR_LEN + |Join(s.recs)|) + Join(s.recs)
  }

  function EncSets(sets: seq<DataSet>): Octets
  {
    Concat(EncSet, sets)
  }

  function MsgLen(m: Msg): nat
  {
    MSG_HDR_LEN + |EncSets(m.sets)|
  }

  function MsgHeader(m: Msg): (b: Octets)
    ensures |b| == MSG_HDR_LEN
  {
    Be16(IPFIX_VERSION) + Be16(MsgLen(m)) + Be32(m.etime) + Be32(m.seqNum) + Be32(m.odid)
  }

  function EncMsg(m: Msg): (b: Octets)
    ensures |b| == MsgLen(m)
  {
    MsgHeader(m) + EncSets(m.sets)
  }

  function EncMsgs(ms: seq<Msg>): Octets
  {
    Concat(EncMsg, ms)
  }

  // ----- what the iterators deliver -----

  /** Why a stream of records stops: its end, malformed octets, or an empty record that is repeated
      for ever (a template whose fields all have length zero). */
  datatype End = Eoc | Bad | Stuck

  datatype Rec = Rec(etime: U32, tmplt: Template, data: Octets)
  datatype Stream = Stream(recs: seq<Rec>, end: End)

  /** `b` is read only after `a` has come to its end. */
  function Then(a: Stream, b: Stream): Stream
  {
    if a.end == Eoc then Stream(a.recs + b.recs, b.end) else a
  }

  /** `fds_dset_iter_next` from the octets `s` left in a Data Set; a rest shorter than a record is padding. */
  function RecsOf(s: Octets, t: Template, etime: U32): Stream
  {
    if s == [] || |s| < t.DataLength() then Stream([], Eoc)
    else
      match RecLen(s, t)
      case None => Stream([], Bad)
      case Some(n) =>
        if n == 0 then Stream([], Stuck)
        else Then(Stream([Rec(etime, t, s[..n])], Eoc), RecsOf(s[n..], t, etime))
  }

  /** `fds_dset_iter_init` refuses a Set without room for one record. */
  function SetRecs(body: Octets, t: Template, etime: U32): Stream
  {
    if |body| < t.DataLength() then Stream([], Bad) else RecsOf(body, t, etime)
  }

  /** Position of the next Set: `None` when the octets are malformed. */
  function SetAt(s: Octets): (len: Option<nat>)
    ensures len.Some? ==> SET_HDR_LEN <= len.value <= |s|
  {
    if |s| < SET_HDR_LEN then None
    else
      var len := FromBe16(s[2..4]);
      if SET_HDR_LEN <= len <= |s| then Some(len) else None
  }

  /** The Sets left in a Message, as `prepare_set` walks them: Sets with an ID below 256 are skipped. */
  function SetsOf(s: Octets, snap: TmpltMap, etime: U32): Stream
  {
    if s == [] then Stream([], Eoc)
    else
      match SetAt(s)
      case None => Stream([], Bad)
      case Some(len) =>
        var tid := FromBe16(s[..2]);
        if tid < MIN_DSET_ID then SetsOf(s[len..], snap, etime)
        else if tid !in snap then Stream([], Bad)
        else Then(SetRecs(s[4..len], snap[tid], etime), SetsOf(s[len..], snap, etime))
  }

  /** Length of the Message at the front of `s`, as `prepare_message` checks it. */
  function MsgAt(s: Octets): (len: Option<nat>)
    ensures len.Some? ==> 0 < len.value <= |s|
  {
    if |s| < MSG_HDR_LEN || FromBe16(s[..2]) != IPFIX_VERSION then None
    else
      var len := FromBe16(s[2..4]);
      if len == 0 || len > |s| then None else Some(len)
  }

  function MsgRecs(m: Octets, snap: TmpltMap): Stream
    requires MSG_HDR_LEN <= |m|
  {
    SetsOf(m[16..], snap, FromBe32(m[4..8]))
  }

  /** The Messages left in a Data Block. A Message shorter than its own header has no valid Set. */
  function MsgsOf(s: Octets, snap: TmpltMap): Stream
  {
    if s == [] then Stream([], Eoc)
    else
      match MsgAt(s)
      case None => Stream([], Bad)
      case Some(len) =>
        if len < MSG_HDR_LEN then Stream([], Bad)
        else Then(MsgRecs(s[..len], snap), MsgsOf(s[len..], snap))
  }

  // ----- reading back what was laid out -----

  predicate RecOk(r: Octets, t: Template)
  {
    r != [] && RecLen(r, t) == Some(|r|)
  }

  predicate SetOk(s: DataSet, snap: TmpltMap)
  {
    && MIN_DSET_ID <= s.tid && s.tid in snap && s.recs != []
    && forall k :: 0 <= k < |s.recs| ==> RecOk(s.recs[k], snap[s.tid])
  }

  predicate MsgOk(m: Msg, snap: TmpltMap)
  {
    && m.sets != [] && MsgLen(m) <= 0xFFFF
    && forall k :: 0 <= k < |m.sets| ==> SetOk(m.sets[k], snap)
  }

  predicate MsgsOk(ms: seq<Msg>, snap: TmpltMap)
  {
    forall k :: 0 <= k < |ms| ==> MsgOk(ms[k], snap)
  }

  function RecList(recs: seq<Octets>, t: Template, etime: U32): (r: seq<Rec>)
    ensures |r| == |recs|
  {
    seq(|recs|, k requires 0 <= k < |recs| => Rec(etime, t, recs[k]))
  }

  function OneSet(d: DataSet, snap: TmpltMap, etime: U32): seq<Rec>
  {
    if d.tid in snap then RecList(d.recs, snap[d.tid], etime) else []
  }

  function SetList(sets: seq<DataSet>, snap: TmpltMap, etime: U32): seq<Rec>
  {
    Concat((d: DataSet) => OneSet(d, snap, etime), sets)
  }

  function OneMsg(m: Msg, snap: TmpltMap): seq<Rec>
  {
    SetList(m.sets, snap, m.etime)
  }

  /** The records of `ms` in order, each with its template. */
  function MsgList(ms: seq<Msg>, snap: TmpltMap): seq<Rec>
  {
    Concat((m: Msg) => OneMsg(m, snap), ms)
  }

  lemma {:induction false} RecsRoundTrip(recs: seq<Octets>, t: Template, etime: U32)
    requires forall k :: 0 <= k < |recs| ==> RecOk(recs[k], t)
    ensures RecsOf(Join(recs), t, etime) == Stream(RecList(recs, t, etime), Eoc)
    ensures recs != [] ==> t.DataLength() <= |Join(recs)|
  {
    if recs == [] {
    } else {
      var r, rest := recs[0], Join(recs[1..]);
      RecLenPrefix(r, rest, t);
      assert (r + rest)[..|r|] == r && (r + rest)[|r|..] == rest;
      RecsRoundTrip(recs[1..], t, etime);
      assert RecList(recs, t, etime) == [Rec(etime, t, r)] + RecList(recs[1..], t, etime);
    }
  }

  lemma OneSetRoundTrip(d: DataSet, rest: Octets, snap: TmpltMap, etime: U32)
    requires SetOk(d, snap) && |EncSet(d)| <= 0xFFFF
    ensures
      SetsOf(EncSet(d) + rest, snap, etime) == Then(Stream(OneSet(d, snap, etime), Eoc), SetsOf(rest, snap, etime))
  {
    var body := Join(d.recs);
    var s := EncSet(d) + rest;
    assert s[..2] == Be16(d.tid) && s[2..4] == Be16(4 + |body|);
    assert s[4..4 + |body|] == body && s[4 + |body|..] == rest;
    Be16RoundTrip(d.tid);
    Be16RoundTrip(4 + |body|);
    RecsRoundTrip(d.recs, snap[d.tid], etime);
  }

  lemma {:induction false} SetsRoundTrip(sets: seq<DataSet>, snap: TmpltMap, etime: U32)
    requires |EncSets(sets)| <= 0xFFFF
    requires forall k :: 0 <= k < |sets| ==> SetOk(sets[k], snap)
    ensures SetsOf(EncSets(sets), snap, etime) == Stream(SetList(sets, snap, etime), Eoc)
  {
    if sets != [] {
      OneSetRoundTrip(sets[0], EncSets(sets[1..]), snap, etime);
      SetsRoundTrip(sets[1..], snap, etime);
    }
  }

  lemma MsgHeaderFields(m: Msg, rest: Octets)
    requires MsgLen(m) <= 0xFFFF
    ensures MsgAt(EncMsg(m) + rest) == Some(MsgLen(m))
    ensures FromBe32((EncMsg(m) + rest)[4..8]) == m.etime
    ensures FromBe32((EncMsg(m) + rest)[8..12]) == m.seqNum
    ensures FromBe32((EncMsg(m) + rest)[12..16]) == m.odid
  {
    var s := EncMsg(m) + rest;
    assert s[..2] == Be16(IPFIX_VERSION) && s[2..4] == Be16(MsgLen(m));
    assert s[4..8] == Be32(m.etime) && s[8..12] == Be32(m.seqNum) && s[12..16] == Be32(m.odid);
    Be16RoundTrip(MsgLen(m));
    Be32RoundTrip(m.etime);
    Be32RoundTrip(m.seqNum);
    Be32RoundTrip(m.odid);
  }

  /** Reading laid-out Messages gives back every record, in order, and no error. */
  lemma {:induction false} MsgsRoundTrip(ms: seq<Msg>, snap: TmpltMap)
    requires MsgsOk(ms, snap)
    ensures MsgsOf(EncMsgs(ms), snap) == Stream(MsgList(ms, snap), Eoc)
  {
    if ms == [] {
    } else {
      var m, rest := ms[0], EncMsgs(ms[1..]);
      var s := EncMsg(m) + rest;
      MsgHeaderFields(m, rest);
      assert s[..MsgLen(m)] == EncMsg(m) && s[MsgLen(m)..] == rest;
      assert s[..MsgLen(m)][16..] == EncSets(m.sets);
      assert s[..MsgLen(m)][4..8] == s[4..8];
      SetsRoundTrip(m.sets, snap, m.etime);
      MsgsRoundTrip(ms[1..], snap);
    }
  }
}
