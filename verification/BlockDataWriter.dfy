/** The Data Block buffer of one context: records are laid out in place, and the lengths of a Set and of a
    Message are filled in when they end. */
module BlockDataWriter {
  import opened Bytes
  import opened Templates
  import opened Messages
  import opened Status
  import opened DataBuffer
  import opened Blocks
  import opened DataBlock

  // ----- what the octets of the buffer mean -----

  function MsgTail(m: Msg): (b: Octets)
    ensures |b| == 12
  {
    Be32(m.etime) + Be32(m.seqNum) + Be32(m.odid)
  }

  /** The Data Block header but for its length, session and Template Block. */
  predicate HeaderSet(s: Octets, c: Codec, odid: U32)
  {
    At(s, 0, Le16(BTYPE_DATA) + Le16(StoredFlags(c))) && At(s, 12, Le16(0)) && At(s, 16, Le32(odid))
  }

  /** An unfinished Set: its length is missing. */
  predicate SetOpen(s: Octets, pos: nat, d: DataSet)
  {
    At(s, pos, Be16(d.tid)) && At(s, pos + SET_HDR_LEN, Join(d.recs))
  }

  /** An unfinished Message: its length and the length of its last Set are missing. */
  predicate MsgOpen(s: Octets, pos: nat, m: Msg)
    requires m.sets != []
  {
    && At(s, pos, Be16(IPFIX_VERSION)) && At(s, pos + 4, MsgTail(m))
    && At(s, pos + MSG_HDR_LEN, EncSets(Init(m.sets)))
    && SetOpen(s, pos + MSG_HDR_LEN + |EncSets(Init(m.sets))|, Last(m.sets))
  }

  /** The positions that belong to the Messages `ms`, the last of which is unfinished. */
  predicate PosOf(ms: seq<Msg>, posMsg: nat, posSet: nat, written: nat)
  {
    if ms == [] then posMsg == BDATA_HDR_LEN && posSet == BDATA_HDR_LEN && written == BDATA_HDR_LEN
    else
      var m := Last(ms);
      && m.sets != []
      && posMsg == BDATA_HDR_LEN + |EncMsgs(Init(ms))|
      && posSet == posMsg + MSG_HDR_LEN + |EncSets(Init(m.sets))|
      && written == posSet + SET_HDR_LEN + |Join(Last(m.sets).recs)|
  }

  predicate Laid(s: Octets, ms: seq<Msg>)
  {
    ms != [] ==>
      && Last(ms).sets != [] && At(s, BDATA_HDR_LEN, EncMsgs(Init(ms)))
      && MsgOpen(s, BDATA_HDR_LEN + |EncMsgs(Init(ms))|, Last(ms))
  }

  lemma AtKept(s: Octets, pos: nat, w: Octets, lo: nat, b: Octets)
    requires pos <= |s| && At(s, lo, b) && (lo + |b| <= pos || pos + |w| <= lo)
    ensures At(Splice(s, pos, w), lo, b)
  {
    SpliceKeeps(s, pos, w, lo, lo + |b|);
  }

  lemma AtStored(s: Octets, pos: nat, w: Octets)
    requires pos <= |s|
    ensures At(Splice(s, pos, w), pos, w)
  {
  }

  lemma AtJoined(s: Octets, lo: nat, a: Octets, b: Octets)
    requires At(s, lo, a) && At(s, lo + |a|, b)
    ensures At(s, lo, a + b)
  {
    assert s[lo..lo + |a + b|] == s[lo..lo + |a|] + s[lo + |a|..lo + |a| + |b|];
  }

  /** The end of the Messages is the fill level of the buffer. */
  lemma PosWritten(ms: seq<Msg>, posMsg: nat, posSet: nat, written: nat)
    requires PosOf(ms, posMsg, posSet, written)
    ensures written == BDATA_HDR_LEN + |EncMsgs(ms)|
    ensures ms != [] ==> written - posMsg == MsgLen(Last(ms)) && written - posSet == |EncSet(Last(Last(ms).sets))|
  {
    if ms != [] {
      LastMsg(ms);
      LastSet(Last(ms).sets);
    }
  }

  lemma HeaderKept(s: Octets, c: Codec, odid: U32, pos: nat, w: Octets)
    requires HeaderSet(s, c, odid) && BDATA_HDR_LEN <= pos <= |s|
    ensures HeaderSet(Splice(s, pos, w), c, odid)
  {
    hide At, Splice;
    AtKept(s, pos, w, 0, Le16(BTYPE_DATA) + Le16(StoredFlags(c)));
    AtKept(s, pos, w, 12, Le16(0));
    AtKept(s, pos, w, 16, Le32(odid));
  }

  /** A write outside the fields of an unfinished Message, for example of one of the missing lengths. */
  lemma MsgKept(s: Octets, pos: nat, m: Msg, at: nat, w: Octets)
    requires m.sets != [] && MsgOpen(s, pos, m) && at <= |s|
    requires
      var sp := pos + MSG_HDR_LEN + |EncSets(Init(m.sets))|;
      || (pos + 2 <= at && at + |w| <= pos + 4) || (sp + 2 <= at && at + |w| <= sp + 4)
      || pos + MsgLen(m) <= at
    ensures MsgOpen(Splice(s, at, w), pos, m)
  {
    LastSet(m.sets);
    var sp := pos + MSG_HDR_LEN + |EncSets(Init(m.sets))|;
    assert pos + MsgLen(m) == sp + SET_HDR_LEN + |Join(Last(m.sets).recs)|;
    hide At, Splice, EncSets, EncSet, Join, Be16, MsgLen;
    AtKept(s, at, w, pos, Be16(IPFIX_VERSION));
    AtKept(s, at, w, pos + 4, MsgTail(m));
    AtKept(s, at, w, pos + MSG_HDR_LEN, EncSets(Init(m.sets)));
    AtKept(s, at, w, sp, Be16(Last(m.sets).tid));
    AtKept(s, at, w, sp + SET_HDR_LEN, Join(Last(m.sets).recs));
  }

  /** With both lengths filled in, the Message is complete. */
  lemma Closed(s: Octets, pos: nat, m: Msg)
    requires m.sets != [] && MsgOpen(s, pos, m)
    requires At(s, pos + 2, Be16(MsgLen(m)))
    requires At(s, pos + MSG_HDR_LEN + |EncSets(Init(m.sets))| + 2, Be16(|EncSet(Last(m.sets))|))
    ensures At(s, pos, EncMsg(m))
  {
    hide At;
    var sp := pos + MSG_HDR_LEN + |EncSets(Init(m.sets))|;
    var d := Last(m.sets);
    AtJoined(s, sp, Be16(d.tid), Be16(|EncSet(d)|));
    AtJoined(s, sp, Be16(d.tid) + Be16(|EncSet(d)|), Join(d.recs));
    AtJoined(s, pos + MSG_HDR_LEN, EncSets(Init(m.sets)), EncSet(d));
    LastSet(m.sets);
    AtJoined(s, pos, Be16(IPFIX_VERSION), Be16(MsgLen(m)));
    AtJoined(s, pos, Be16(IPFIX_VERSION) + Be16(MsgLen(m)), MsgTail(m));
    assert Be16(IPFIX_VERSION) + Be16(MsgLen(m)) + MsgTail(m) == MsgHeader(m);
    AtJoined(s, pos, MsgHeader(m), EncSets(m.sets));
  }

  /** The last missing length completes all Messages. */
  lemma AllClosed(s: Octets, ms: seq<Msg>)
    requires ms != [] && Laid(s, ms)
    requires
      var m := Last(ms);
      At(s, BDATA_HDR_LEN + |EncMsgs(Init(ms))| + MSG_HDR_LEN + |EncSets(Init(m.sets))| + 2,
        Be16(|EncSet(Last(m.sets))|))
    ensures
      var s' := Splice(s, BDATA_HDR_LEN + |EncMsgs(Init(ms))| + 2, Be16(MsgLen(Last(ms))));
      Laid(s', ms) && At(s', BDATA_HDR_LEN, EncMsgs(ms))
  {
    assert BDATA_HDR_LEN + |EncMsgs(Init(ms))| + 2 <= |s|;
    hide At, MsgOpen, EncMsgs, EncSet, EncSets, MsgLen;
    var m := Last(ms);
    var pos, len := BDATA_HDR_LEN + |EncMsgs(Init(ms))|, Be16(MsgLen(m));
    var s' := Splice(s, pos + 2, len);
    var end := pos + MSG_HDR_LEN + |EncSets(Init(m.sets))| + 2;
    MsgKept(s, pos, m, pos + 2, len);
    AtKept(s, pos + 2, len, BDATA_HDR_LEN, EncMsgs(Init(ms)));
    AtKept(s, pos + 2, len, end, Be16(|EncSet(Last(m.sets))|));
    AtStored(s, pos + 2, len);
    Closed(s', pos, m);
    AtJoined(s', BDATA_HDR_LEN, EncMsgs(Init(ms)), EncMsg(m));
    LastMsg(ms);
  }

  /** A Message header and a Set header behind complete Messages open a Message. */
  lemma MsgOpened(s: Octets, ms: seq<Msg>, m: Msg, tid: U16)
    requires m.sets == [DataSet(tid, [])] && At(s, BDATA_HDR_LEN, EncMsgs(ms))
    requires
      var p := BDATA_HDR_LEN + |EncMsgs(ms)|;
      && p + MSG_HDR_LEN + SET_HDR_LEN <= |s|
      && At(s, p, Be16(IPFIX_VERSION)) && At(s, p + 4, MsgTail(m)) && At(s, p + MSG_HDR_LEN, Be16(tid))
    ensures
      var p := BDATA_HDR_LEN + |EncMsgs(ms)|;
      Laid(s, ms + [m]) && PosOf(ms + [m], p, p + MSG_HDR_LEN, p + MSG_HDR_LEN + SET_HDR_LEN)
    ensures Shaped(ms) ==> Shaped(ms + [m])
  {
    ConcatOne(EncSet, m.sets[0]);
    assert Init(ms + [m]) == ms && Init(m.sets) == [] && EncSets([]) == [] && Join([]) == [];
  }

  /** A Set header behind a complete Set opens a Set. */
  lemma SetOpened(s: Octets, pos: nat, m: Msg, tid: U16)
    requires m.sets != [] && MsgOpen(s, pos, m)
    requires At(s, pos + MSG_HDR_LEN + |EncSets(Init(m.sets))| + 2, Be16(|EncSet(Last(m.sets))|))
    requires pos + MsgLen(m) + SET_HDR_LEN <= |s| && At(s, pos + MsgLen(m), Be16(tid))
    ensures MsgOpen(s, pos, m.(sets := m.sets + [DataSet(tid, [])]))
  {
    LastSet(m.sets);
    assert Init(m.sets + [DataSet(tid, [])]) == m.sets && Join([]) == [];
    assert At(s, pos + MsgLen(m) + SET_HDR_LEN, []);
    hide At;
    var sp := pos + MSG_HDR_LEN + |EncSets(Init(m.sets))|;
    var d := Last(m.sets);
    AtJoined(s, sp, Be16(d.tid), Be16(|EncSet(d)|));
    AtJoined(s, sp, Be16(d.tid) + Be16(|EncSet(d)|), Join(d.recs));
    AtJoined(s, pos + MSG_HDR_LEN, EncSets(Init(m.sets)), EncSet(d));
  }

  /** The open Set grows by a record. */
  lemma RecAppended(s: Octets, pos: nat, m: Msg, data: Octets)
    requires m.sets != [] && MsgOpen(s, pos, m) && At(s, pos + MsgLen(m), data)
    ensures
      var d := Last(m.sets);
      MsgOpen(s, pos, m.(sets := Init(m.sets) + [d.(recs := d.recs + [data])]))
  {
    LastSet(m.sets);
    var d := Last(m.sets);
    assert Init(Init(m.sets) + [d.(recs := d.recs + [data])]) == Init(m.sets);
    hide At;
    JoinOne(d.recs, data);
    AtJoined(s, pos + MSG_HDR_LEN + |EncSets(Init(m.sets))| + SET_HDR_LEN, Join(d.recs), data);
  }

  /** The three writes of a Message header and a Set header do not disturb each other nor what lies before. */
  lemma HeadersStored(s: Octets, p: nat, v: Octets, tail: Octets, tid: Octets, c: Codec, odid: U32, done: Octets)
    requires |v| == 2 && |tail| == 12 && |tid| == 2 && p + MSG_HDR_LEN + SET_HDR_LEN <= |s|
    requires HeaderSet(s, c, odid) && p == BDATA_HDR_LEN + |done| && At(s, BDATA_HDR_LEN, done)
    ensures
      var s' := Splice(Splice(Splice(s, p, v), p + 4, tail), p + MSG_HDR_LEN, tid);
      && HeaderSet(s', c, odid) && At(s', BDATA_HDR_LEN, done)
      && At(s', p, v) && At(s', p + 4, tail) && At(s', p + MSG_HDR_LEN, tid)
  {
    hide At, HeaderSet;
    var s1 := Splice(s, p, v);
    var s2 := Splice(s1, p + 4, tail);
    var s3 := Splice(s2, p + MSG_HDR_LEN, tid);
    HeaderKept(s, c, odid, p, v);
    HeaderKept(s1, c, odid, p + 4, tail);
    HeaderKept(s2, c, odid, p + MSG_HDR_LEN, tid);
    AtKept(s, p, v, BDATA_HDR_LEN, done);
    AtKept(s1, p + 4, tail, BDATA_HDR_LEN, done);
    AtKept(s2, p + MSG_HDR_LEN, tid, BDATA_HDR_LEN, done);
    AtStored(s, p, v);
    AtKept(s1, p + 4, tail, p, v);
    AtKept(s2, p + MSG_HDR_LEN, tid, p, v);
    AtStored(s1, p + 4, tail);
    AtKept(s2, p + MSG_HDR_LEN, tid, p + 4, tail);
    AtStored(s2, p + MSG_HDR_LEN, tid);
  }

  lemma HeaderFilled(c: Codec, odid: U32, s: Octets, done: Octets, sid: U16, toff: nat)
    requires HeaderSet(s, c, odid) && At(s, BDATA_HDR_LEN, done)
    ensures
      var end := BDATA_HDR_LEN + |done|;
      var s' := Splice(Splice(Splice(s, 4, Le64(end)), 14, Le16(sid)), 20, Le64(toff));
      && end <= |s'| && s'[..BDATA_HDR_LEN] == DataHeader(c, end, sid, odid, toff)
      && s'[BDATA_HDR_LEN..end] == done && s'[..end] == DataHeader(c, end, sid, odid, toff) + done
  {
    var w0, w1, w2, w3 := Le16(BTYPE_DATA) + Le16(StoredFlags(c)), Le64(BDATA_HDR_LEN + |done|), Le16(sid), Le64(toff);
    var s1 := Splice(s, 4, w1);
    var s2 := Splice(s1, 14, w2);
    var s3 := Splice(s2, 20, w3);
    assert |s3| == |s|;
    FieldsKept(s, w0, w1, Le16(0), w2, Le32(odid), w3, done);
    assert s3[..BDATA_HDR_LEN] == w0 + w1 + (Le16(0) + w2 + Le32(odid) + w3);
  }

  lemma FieldsKept(s: Octets, w0: Octets, w1: Octets, w2: Octets, w3: Octets, w4: Octets, w5: Octets, done: Octets)
    requires |w0| == 4 && |w1| == 8 && |w2| == 2 && |w3| == 2 && |w4| == 4 && |w5| == 8
    requires At(s, 0, w0) && At(s, 12, w2) && At(s, 16, w4) && At(s, BDATA_HDR_LEN, done)
    ensures
      var s' := Splice(Splice(Splice(s, 4, w1), 14, w3), 20, w5);
      At(s', 0, w0 + w1 + (w2 + w3 + w4 + w5)) && At(s', BDATA_HDR_LEN, done)
  {
    var s1 := Splice(s, 4, w1);
    var s2 := Splice(s1, 14, w3);
    var s3 := Splice(s2, 20, w5);
    hide At, Splice;
    assert At(s3, 0, w0) by { AtKept(s, 4, w1, 0, w0); AtKept(s1, 14, w3, 0, w0); AtKept(s2, 20, w5, 0, w0); }
    assert At(s3, 4, w1) by { AtStored(s, 4, w1); AtKept(s1, 14, w3, 4, w1); AtKept(s2, 20, w5, 4, w1); }
    assert At(s3, 12, w2) by { AtKept(s, 4, w1, 12, w2); AtKept(s1, 14, w3, 12, w2); AtKept(s2, 20, w5, 12, w2); }
    assert At(s3, 14, w3) by { AtStored(s1, 14, w3); AtKept(s2, 20, w5, 14, w3); }
    assert At(s3, 16, w4) by { AtKept(s, 4, w1, 16, w4); AtKept(s1, 14, w3, 16, w4); AtKept(s2, 20, w5, 16, w4); }
    assert At(s3, 20, w5) by { AtStored(s2, 20, w5); }
    assert At(s3, BDATA_HDR_LEN, done) by {
      AtKept(s, 4, w1, BDATA_HDR_LEN, done);
      AtKept(s1, 14, w3, BDATA_HDR_LEN, done);
      AtKept(s2, 20, w5, BDATA_HDR_LEN, done);
    }
    AtJoined(s3, 0, w0, w1);
    AtJoined(s3, 12, w2, w3);
    AtJoined(s3, 12, w2 + w3, w4);
    AtJoined(s3, 12, w2 + w3 + w4, w5);
    AtJoined(s3, 0, w0 + w1, w2 + w3 + w4 + w5);
  }

  /** The header of a packed block differs in its length only. */
  lemma LengthReplaced(c: Codec, len: nat, len': nat, sid: U16, odid: U32, toff: nat)
    ensures Splice(DataHeader(c, len, sid, odid, toff), 4, Le64(len')) == DataHeader(c, len', sid, odid, toff)
  {
  }

  /** The fields of a buffer: its octets, the settings of the open Message and Set, and the positions. */
  datatype View = View(s: Octets, etimeNow: U32, tidNow: nat, posMsg: nat, posSet: nat, written: nat)

  /** The positions in `v` are those of the buffer `b`. */
  predicate Placed(b: Buf, v: View)
  {
    && v.written <= CAPACITY && Shaped(b.msgs) && PosOf(b.msgs, v.posMsg, v.posSet, v.written)
    && (b.msgs == [] ==> b.recCnt == 0)
    && (b.msgs != [] ==> v.etimeNow == Last(b.msgs).etime && v.tidNow == Last(Last(b.msgs).sets).tid as nat)
  }

  /** The octets and positions in `v` are those of the buffer `b`. */
  predicate Good(c: Codec, b: Buf, v: View)
  {
    Placed(b, v) && |v.s| == BDATA_HDR_LEN + CAPACITY && HeaderSet(v.s, c, b.odid) && Laid(v.s, b.msgs)
  }

  /** The positions lie inside the buffer and tell the sizes. */
  lemma GoodFacts(c: Codec, b: Buf, v: View)
    requires Good(c, b, v)
    ensures |v.s| == BDATA_HDR_LEN + CAPACITY && v.written == Written(b) <= CAPACITY && HeaderSet(v.s, c, b.odid)
    ensures b.msgs != [] ==>
      && Last(b.msgs).sets != [] && v.posSet + SET_HDR_LEN <= v.written && v.posMsg + MSG_HDR_LEN <= v.written
      && v.posMsg == BDATA_HDR_LEN + |EncMsgs(Init(b.msgs))|
      && v.posSet == v.posMsg + MSG_HDR_LEN + |EncSets(Init(Last(b.msgs).sets))|
      && v.written == v.posMsg + MsgLen(Last(b.msgs)) && v.written - v.posSet == |EncSet(Last(Last(b.msgs).sets))|
      && v.etimeNow == Last(b.msgs).etime && v.tidNow == Last(Last(b.msgs).sets).tid as nat
  {
    PosWritten(b.msgs, v.posMsg, v.posSet, v.written);
  }

  lemma RoomLeft(b: Buf, size: nat)
    requires 0 < size <= Remains(b)
    ensures Written(b) + MSG_HDR_LEN + SET_HDR_LEN + size <= CAPACITY
  {
  }

  /** What decides where a record goes, in terms of the fields. */
  lemma StartFacts(c: Codec, b: Buf, v: View)
    requires Good(c, b, v)
    ensures Shaped(b.msgs) && v.written == Written(b)
    ensures v.written - v.posMsg == if b.msgs == [] then 0 else MsgLen(Last(b.msgs))
    ensures b.msgs != [] ==> v.etimeNow == Last(b.msgs).etime && v.tidNow == Last(Last(b.msgs).sets).tid as nat
    ensures b.msgs != [] ==> Last(b.msgs).sets != [] && MsgLen(Last(b.msgs)) > 0
    ensures b.msgs == [] ==> At(v.s, BDATA_HDR_LEN, EncMsgs(b.msgs))
  {
    GoodFacts(c, b, v);
  }

  /** One record more in the last Set of the last Message. */
  function Appended(ms: seq<Msg>, data: Octets): seq<Msg>
    requires ms != [] && Last(ms).sets != []
    ensures Appended(ms, data) != []
  {
    var m := Last(ms);
    var d := Last(m.sets);
    Init(ms) + [m.(sets := Init(m.sets) + [d.(recs := d.recs + [data])])]
  }

  /** With the Message and the Set that the next record goes to. */
  function Started(b: Buf, tid: U16, size: nat): (ms: seq<Msg>)
    requires Shaped(b.msgs)
    ensures ms != [] && Last(ms).sets != []
  {
    if NeedsMsg(b, tid, size) then b.msgs + [Msg(b.etimeSet, b.seqNext, b.odid, [DataSet(tid, [])])]
    else
      var m := Last(b.msgs);
      if Last(m.sets).tid == tid then b.msgs
      else Init(b.msgs) + [m.(sets := m.sets + [DataSet(tid, [])])]
  }

  lemma StartedAppended(b: Buf, tid: U16, data: Octets)
    requires Shaped(b.msgs)
    ensures Extend(b, tid, data) == Appended(Started(b, tid, |data|), data)
  {
    var d := DataSet(tid, []);
    assert [] + [data] == [data] && Init([d]) == [] && [] + [DataSet(tid, [data])] == [DataSet(tid, [data])];
    assert Init(b.msgs + [Msg(b.etimeSet, b.seqNext, b.odid, [d])]) == b.msgs;
    if b.msgs != [] {
      var m := Last(b.msgs);
      assert Init(m.sets + [d]) == m.sets;
      assert Init(Init(b.msgs) + [m.(sets := m.sets + [d])]) == Init(b.msgs);
    }
  }

  lemma ResetGood(c: Codec, b: Buf, s: Octets, etimeNow: U32)
    requires |s| == BDATA_HDR_LEN + CAPACITY
    ensures
      var s' := Splice(Splice(Splice(s, 0, Le16(BTYPE_DATA) + Le16(StoredFlags(c))), 16, Le32(b.odid)), 12, Le16(0));
      Good(c, Reset(b), View(s', etimeNow, 0, BDATA_HDR_LEN, BDATA_HDR_LEN, BDATA_HDR_LEN))
  {
    var w := Le16(BTYPE_DATA) + Le16(StoredFlags(c));
    var s1 := Splice(s, 0, w);
    var s2 := Splice(s1, 16, Le32(b.odid));
    AtKept(s1, 16, Le32(b.odid), 0, w);
    AtKept(s2, 12, Le16(0), 0, w);
    AtKept(s2, 12, Le16(0), 16, Le32(b.odid));
  }

  lemma CloseSetGood(c: Codec, b: Buf, v: View)
    requires Good(c, b, v) && b.msgs != []
    ensures
      var s' := Splice(v.s, v.posSet + 2, Be16(v.written - v.posSet));
      Good(c, b, v.(s := s')) && At(s', v.posSet + 2, Be16(|EncSet(Last(Last(b.msgs).sets))|))
  {
    hide At, EncMsgs, EncSet, EncSets, MsgLen, MsgOpen, Be16, Placed, HeaderSet, Splice;
    GoodFacts(c, b, v);
    var len := Be16(v.written - v.posSet);
    HeaderKept(v.s, c, b.odid, v.posSet + 2, len);
    MsgKept(v.s, v.posMsg, Last(b.msgs), v.posSet + 2, len);
    AtKept(v.s, v.posSet + 2, len, BDATA_HDR_LEN, EncMsgs(Init(b.msgs)));
    AtStored(v.s, v.posSet + 2, len);
    SamePlaces(b, v, Splice(v.s, v.posSet + 2, len));
  }

  lemma SamePlaces(b: Buf, v: View, s: Octets)
    requires Placed(b, v)
    ensures Placed(b, v.(s := s))
  {
  }

  lemma CloseMsgGood(c: Codec, b: Buf, v: View)
    requires Good(c, b, v) && b.msgs != [] && At(v.s, v.posSet + 2, Be16(|EncSet(Last(Last(b.msgs).sets))|))
    ensures
      var s' := Splice(v.s, v.posMsg + 2, Be16(v.written - v.posMsg));
      Good(c, b, v.(s := s')) && At(s', BDATA_HDR_LEN, EncMsgs(b.msgs))
  {
    hide At, EncMsgs, EncSet, EncSets, MsgLen, Be16, Placed, HeaderSet, Splice, Laid;
    GoodFacts(c, b, v);
    HeaderKept(v.s, c, b.odid, v.posMsg + 2, Be16(v.written - v.posMsg));
    AllClosed(v.s, b.msgs);
    SamePlaces(b, v, Splice(v.s, v.posMsg + 2, Be16(v.written - v.posMsg)));
  }

  lemma OpenMsgGood(c: Codec, b: Buf, v: View, tid: U16)
    requires Good(c, b, v) && At(v.s, BDATA_HDR_LEN, EncMsgs(b.msgs))
    requires Written(b) + MSG_HDR_LEN + SET_HDR_LEN <= CAPACITY
    ensures
      var m := Msg(b.etimeSet, b.seqNext, b.odid, [DataSet(tid, [])]);
      var p := v.written;
      var s' := Splice(Splice(Splice(v.s, p, Be16(IPFIX_VERSION)), p + 4, MsgTail(m)), p + MSG_HDR_LEN, Be16(tid));
      Good(c, b.(msgs := b.msgs + [m]), View(s', b.etimeSet, tid, p, p + MSG_HDR_LEN, p + MSG_HDR_LEN + SET_HDR_LEN))
  {
    GoodFacts(c, b, v);
    hide At, EncMsgs, EncSet, EncSets, Laid, PosOf, Shaped, Be16, HeaderSet, Splice;
    var m := Msg(b.etimeSet, b.seqNext, b.odid, [DataSet(tid, [])]);
    var p := v.written;
    var s' := Splice(Splice(Splice(v.s, p, Be16(IPFIX_VERSION)), p + 4, MsgTail(m)), p + MSG_HDR_LEN, Be16(tid));
    HeadersStored(v.s, p, Be16(IPFIX_VERSION), MsgTail(m), Be16(tid), c, b.odid, EncMsgs(b.msgs));
    MsgOpened(s', b.msgs, m, tid);
  }

  lemma OpenSetPlaced(b: Buf, v: View, s: Octets, tid: U16)
    requires b.msgs != [] && Placed(b, v)
    requires v.written + SET_HDR_LEN <= CAPACITY && MsgLen(Last(b.msgs)) + SET_HDR_LEN <= 0xFFFF
    ensures
      var m := Last(b.msgs);
      Placed(b.(msgs := Init(b.msgs) + [m.(sets := m.sets + [DataSet(tid, [])])]),
             v.(s := s, tidNow := tid, posSet := v.written, written := v.written + SET_HDR_LEN))
  {
    var ms, m := b.msgs, Last(b.msgs);
    var m' := m.(sets := m.sets + [DataSet(tid, [])]);
    PosWritten(ms, v.posMsg, v.posSet, v.written);
    ConcatPush(EncSet, m.sets, DataSet(tid, []));
    assert Init(Init(ms) + [m']) == Init(ms) && Init(m'.sets) == m.sets && Join([]) == [];
  }

  lemma MsgWithSet(s: Octets, pos: nat, m: Msg, tid: U16)
    requires m.sets != [] && MsgOpen(s, pos, m) && pos + MsgLen(m) + SET_HDR_LEN <= |s|
    requires At(s, pos + MSG_HDR_LEN + |EncSets(Init(m.sets))| + 2, Be16(|EncSet(Last(m.sets))|))
    ensures MsgOpen(Splice(s, pos + MsgLen(m), Be16(tid)), pos, m.(sets := m.sets + [DataSet(tid, [])]))
  {
    LastSet(m.sets);
    var end, w := pos + MsgLen(m), Be16(tid);
    var sp := pos + MSG_HDR_LEN + |EncSets(Init(m.sets))| + 2;
    assert sp + 2 <= end;
    hide At, EncSet, EncSets, MsgOpen, Splice, MsgLen, Be16;
    MsgKept(s, pos, m, end, w);
    AtKept(s, end, w, sp, Be16(|EncSet(Last(m.sets))|));
    AtStored(s, end, w);
    SetOpened(Splice(s, end, w), pos, m, tid);
  }

  lemma OpenSetLaid(s: Octets, ms: seq<Msg>, pos: nat, m: Msg, tid: U16)
    requires ms != [] && m == Last(ms) && m.sets != [] && Laid(s, ms) && pos == BDATA_HDR_LEN + |EncMsgs(Init(ms))|
    requires At(s, pos + MSG_HDR_LEN + |EncSets(Init(m.sets))| + 2, Be16(|EncSet(Last(m.sets))|))
    requires pos + MsgLen(m) + SET_HDR_LEN <= |s|
    ensures Laid(Splice(s, pos + MsgLen(m), Be16(tid)), Init(ms) + [m.(sets := m.sets + [DataSet(tid, [])])])
  {
    assert Init(Init(ms) + [m.(sets := m.sets + [DataSet(tid, [])])]) == Init(ms);
    hide At, EncMsgs, EncSet, EncSets, MsgOpen, Splice, MsgLen, Be16;
    AtKept(s, pos + MsgLen(m), Be16(tid), BDATA_HDR_LEN, EncMsgs(Init(ms)));
    MsgWithSet(s, pos, m, tid);
  }

  lemma OpenSetGood(c: Codec, b: Buf, v: View, tid: U16)
    requires Good(c, b, v) && b.msgs != [] && At(v.s, v.posSet + 2, Be16(|EncSet(Last(Last(b.msgs).sets))|))
    requires v.written + SET_HDR_LEN <= CAPACITY && MsgLen(Last(b.msgs)) + SET_HDR_LEN <= 0xFFFF
    ensures
      var m := Last(b.msgs);
      var s' := Splice(v.s, v.written, Be16(tid));
      Good(c, b.(msgs := Init(b.msgs) + [m.(sets := m.sets + [DataSet(tid, [])])]),
           v.(s := s', tidNow := tid, posSet := v.written, written := v.written + SET_HDR_LEN))
  {
    hide At, EncMsgs, EncSet, EncSets, Be16, Splice, HeaderSet, MsgLen, Placed, Laid;
    GoodFacts(c, b, v);
    OpenSetPlaced(b, v, Splice(v.s, v.written, Be16(tid)), tid);
    OpenSetLaid(v.s, b.msgs, v.posMsg, Last(b.msgs), tid);
    HeaderKept(v.s, c, b.odid, v.written, Be16(tid));
  }

  lemma AppendPlaced(b: Buf, v: View, s: Octets, data: Octets)
    requires b.msgs != [] && Placed(b, v)
    requires v.written + |data| <= CAPACITY && MsgLen(Last(b.msgs)) + |data| <= 0xFFFF
    ensures Placed(b.(msgs := Appended(b.msgs, data)), v.(s := s, written := v.written + |data|))
  {
    var m := Last(b.msgs);
    var d := Last(m.sets);
    var m' := m.(sets := Init(m.sets) + [d.(recs := d.recs + [data])]);
    GrowSetLengths(m, data);
    JoinOne(d.recs, data);
    assert Init(Init(b.msgs) + [m']) == Init(b.msgs) && Init(m'.sets) == Init(m.sets);
  }

  lemma MsgAppended(s: Octets, pos: nat, m: Msg, data: Octets)
    requires m.sets != [] && MsgOpen(s, pos, m) && pos + MsgLen(m) <= |s|
    ensures
      var d := Last(m.sets);
      MsgOpen(Splice(s, pos + MsgLen(m), data), pos, m.(sets := Init(m.sets) + [d.(recs := d.recs + [data])]))
  {
    hide At, EncSets, MsgOpen, Splice, MsgLen;
    MsgKept(s, pos, m, pos + MsgLen(m), data);
    AtStored(s, pos + MsgLen(m), data);
    RecAppended(Splice(s, pos + MsgLen(m), data), pos, m, data);
  }

  lemma AppendLaid(s: Octets, ms: seq<Msg>, pos: nat, m: Msg, data: Octets)
    requires ms != [] && m == Last(ms) && m.sets != [] && Laid(s, ms) && pos == BDATA_HDR_LEN + |EncMsgs(Init(ms))|
    requires pos + MsgLen(m) <= |s|
    ensures Laid(Splice(s, pos + MsgLen(m), data), Appended(ms, data))
  {
    var d := Last(m.sets);
    assert Init(Appended(ms, data)) == Init(ms);
    assert Last(Appended(ms, data)) == m.(sets := Init(m.sets) + [d.(recs := d.recs + [data])]);
    hide At, EncMsgs, EncSets, MsgOpen, Splice, MsgLen, Appended, Init;
    AtKept(s, pos + MsgLen(m), data, BDATA_HDR_LEN, EncMsgs(Init(ms)));
    MsgAppended(s, pos, m, data);
  }

  lemma AppendGood(c: Codec, b: Buf, v: View, data: Octets)
    requires Good(c, b, v) && b.msgs != []
    requires v.written + |data| <= CAPACITY && MsgLen(Last(b.msgs)) + |data| <= 0xFFFF
    ensures
      var s' := Splice(v.s, v.written, data);
      Good(c, b.(msgs := Appended(b.msgs, data)), v.(s := s', written := v.written + |data|))
  {
    hide At, EncMsgs, EncSet, EncSets, Splice, HeaderSet, MsgLen, Placed, Laid, Appended;
    GoodFacts(c, b, v);
    AppendPlaced(b, v, Splice(v.s, v.written, data), data);
    AppendLaid(v.s, b.msgs, v.posMsg, Last(b.msgs), data);
    HeaderKept(v.s, c, b.odid, v.written, data);
  }

  lemma CountersGood(c: Codec, b: Buf, v: View, seqNext: U32, recCnt: nat)
    requires Good(c, b, v) && b.msgs != []
    ensures Good(c, b.(seqNext := seqNext, recCnt := recCnt), v)
  {
  }

  class BlockDataWriter {
    const codec: Codec
    const odid: U32
    const sizeMax: U16
    const buf: array<Byte>
    var written: nat
    var recCnt: nat
    var etimeSet: U32
    var etimeNow: U32
    var posMsg: nat
    var posSet: nat
    var seqNext: U32
    var tidNow: nat
    ghost var msgs: seq<Msg>

    /** What the buffer stands for. */
    ghost function State(): Buf
      reads this
    {
      Buf(odid, sizeMax, etimeSet, seqNext, recCnt, msgs)
    }

    ghost function Fields(): View
      reads this, buf
    {
      View(buf[..], etimeNow, tidNow, posMsg, posSet, written)
    }

    ghost predicate Valid()
      reads this, buf
    {
      Good(codec, State(), Fields())
    }

    constructor (odid: U32, codec: Codec, sizeMax: U16)
      ensures Valid() && fresh(buf)
      ensures this.codec == codec && State() == Empty(odid, sizeMax)
    {
      this.codec, this.odid, this.sizeMax := codec, odid, sizeMax;
      buf := new Byte[BDATA_HDR_LEN + CAPACITY](_ => 0);
      etimeSet, etimeNow, seqNext := 0, 0, 0;
      new;
      ResetBuffer();
    }

    /** `reset_buffer` */
    method ResetBuffer()
      requires buf.Length == BDATA_HDR_LEN + CAPACITY
      modifies this`written, this`posMsg, this`posSet, this`tidNow, this`recCnt, this`msgs, buf
      ensures Valid() && State() == Reset(old(State()))
    {
      hide Good, Splice;
      ghost var s := buf[..];
      ResetGood(codec, State(), s, etimeNow);
      Store(buf, 0, Le16(BTYPE_DATA) + Le16(StoredFlags(codec)));
      Store(buf, 16, Le32(odid));
      Store(buf, 12, Le16(0));
      written := BDATA_HDR_LEN;
      posMsg := written;
      posSet := written;
      tidNow := 0;
      recCnt := 0;
      msgs := [];
    }

    /** `remains` */
    method Remaining() returns (size: nat)
      requires Valid()
      ensures size == Remains(State())
    {
      PosWritten(msgs, posMsg, posSet, written);
      var required := written + MSG_HDR_LEN + SET_HDR_LEN;
      size := if CAPACITY > required then CAPACITY - required else 0;
    }

    /** `set_etime` */
    method SetEtime(etime: U32)
      requires Valid()
      modifies this`etimeSet
      ensures Valid() && State() == old(State()).(etimeSet := etime)
    {
      etimeSet := etime;
    }

    /** Fill in the length of the open Set. */
    method CloseSet()
      requires Valid() && msgs != []
      modifies buf
      ensures Valid() && At(buf[..], posSet + 2, Be16(|EncSet(Last(Last(msgs).sets))|))
    {
      hide Good, Splice, EncMsgs, EncSet, EncSets, MsgLen, Written, At, Be16, Be32, MsgTail, Join;
      GoodFacts(codec, State(), Fields());
      CloseSetGood(codec, State(), Fields());
      var setSize := written - posSet;
      Store(buf, posSet + 2, Be16(setSize));
    }

    /** Fill in the lengths of the open Set and of the open Message. */
    method CloseMsg()
      requires Valid() && msgs != []
      modifies buf
      ensures Valid() && At(buf[..], BDATA_HDR_LEN, EncMsgs(msgs))
    {
      hide Good, Splice, EncMsgs, EncSet, EncSets, MsgLen, Written, At, Be16, Be32, MsgTail, Join;
      GoodFacts(codec, State(), Fields());
      CloseSet();
      CloseMsgGood(codec, State(), Fields());
      var msgSize := written - posMsg;
      Store(buf, posMsg + 2, Be16(msgSize));
    }

    /** Start a Message with a first Set. */
    method OpenMsg(tid: U16)
      requires Valid() && At(buf[..], BDATA_HDR_LEN, EncMsgs(msgs))
      requires Written(State()) + MSG_HDR_LEN + SET_HDR_LEN <= CAPACITY
      modifies this`written, this`posMsg, this`posSet, this`etimeNow, this`tidNow, this`msgs, buf
      ensures Valid() && msgs == old(msgs) + [Msg(etimeSet, seqNext, odid, [DataSet(tid, [])])]
      ensures posMsg == old(written) && written == old(written) + MSG_HDR_LEN + SET_HDR_LEN
    {
      hide Good, Splice, EncMsgs, EncSet, EncSets, MsgLen, Written, At, Be16, Be32, Join;
      GoodFacts(codec, State(), Fields());
      OpenMsgGood(codec, State(), Fields(), tid);
      posMsg := written;
      posSet := written + MSG_HDR_LEN;
      written := posSet + SET_HDR_LEN;
      etimeNow := etimeSet;
      Store(buf, posMsg, Be16(IPFIX_VERSION));
      Store(buf, posMsg + 4, Be32(etimeNow) + Be32(seqNext) + Be32(odid));
      tidNow := tid;
      Store(buf, posSet, Be16(tidNow));
      msgs := msgs + [Msg(etimeSet, seqNext, odid, [DataSet(tid, [])])];
    }

    /** Start another Set in the open Message. */
    method OpenSet(tid: U16)
      requires Valid() && msgs != [] && At(buf[..], posSet + 2, Be16(|EncSet(Last(Last(msgs).sets))|))
      requires Written(State()) + SET_HDR_LEN <= CAPACITY && MsgLen(Last(msgs)) + SET_HDR_LEN <= 0xFFFF
      modifies this`written, this`posSet, this`tidNow, this`msgs, buf
      ensures Valid()
      ensures written == old(written) + SET_HDR_LEN
      ensures var m := Last(old(msgs)); msgs == Init(old(msgs)) + [m.(sets := m.sets + [DataSet(tid, [])])]
    {
      hide Good, Splice, EncMsgs, EncSet, EncSets, MsgLen, Written, At, Be16, Be32, MsgTail, Join;
      GoodFacts(codec, State(), Fields());
      OpenSetGood(codec, State(), Fields(), tid);
      tidNow := tid;
      posSet := written;
      written := written + SET_HDR_LEN;
      Store(buf, posSet, Be16(tidNow));
      msgs := Init(msgs) + [Last(msgs).(sets := Last(msgs).sets + [DataSet(tid, [])])];
    }

    /** Copy a record behind the others of the open Set. */
    method Append(data: Octets)
      requires Valid() && msgs != [] && Last(msgs).sets != []
      requires Written(State()) + |data| <= CAPACITY && MsgLen(Last(msgs)) + |data| <= 0xFFFF
      modifies this`written, this`msgs, buf
      ensures Valid()
      ensures msgs == Appended(old(msgs), data)
    {
      hide Good, Splice, EncMsgs, EncSet, EncSets, MsgLen, Written, At, Be16, Be32, MsgTail, Join;
      GoodFacts(codec, State(), Fields());
      AppendGood(codec, State(), Fields(), data);
      Store(buf, written, data);
      written := written + |data|;
      msgs := Appended(msgs, data);
    }

    /** Open the Message and the Set for a record of `size` octets. */
    method Start(tid: U16, size: nat)
      requires Valid() && Written(State()) + MSG_HDR_LEN + SET_HDR_LEN + size <= CAPACITY && size <= MAX_REC_SIZE
      modifies this`written, this`posMsg, this`posSet, this`etimeNow, this`tidNow, this`msgs, buf
      ensures Valid() && msgs == Started(old(State()), tid, size)
      ensures Written(State()) + size <= CAPACITY && MsgLen(Last(msgs)) + size <= 0xFFFF
    {
      hide Good, Splice, EncMsgs, EncSet, EncSets, MsgLen, Written, At, Shaped;
      StartFacts(codec, State(), Fields());
      var size2add := if tidNow == tid then size else size + SET_HDR_LEN;
      var msgSize := written - posMsg;
      if msgSize != 0 && (msgSize + size2add > sizeMax || etimeNow != etimeSet) {
        CloseMsg();
        msgSize := 0;
      }
      if msgSize == 0 {
        OpenMsg(tid);
      } else if tidNow != tid {
        CloseSet();
        OpenSet(tid);
      }
      GoodFacts(codec, State(), Fields());
    }

    /** `add`: the record, with the current Export Time, becomes the last one, in a new Message or a new Set
        where one is needed; a refused record changes nothing. The public interface refuses empty records. */
    method Add(data: Octets, t: Template) returns (st: Status)
      requires Valid() && data != []
      modifies this, buf
      ensures Valid() && st == AddStatus(old(State()), data, t) && State() == DataBuffer.Add(old(State()), data, t)
    {
      hide Good, Splice, EncMsgs, MsgLen, Written, Remains, Extend, Started, Appended, Shaped, EncMsg, RecLen;
      var realSize := RecLength(data, t);
      if realSize != Some(|data|) { return ErrFormat; }
      var room := Remaining();
      if |data| > room { return ErrInternal; }
      if |data| > MAX_REC_SIZE { return ErrFormat; }

      RoomLeft(State(), |data|);
      StartFacts(codec, State(), Fields());
      StartedAppended(State(), t.id, data);
      Start(t.id, |data|);
      Append(data);
      CountersGood(codec, State(), Fields(), (seqNext + 1) % 0x1_0000_0000, recCnt + 1);
      seqNext := (seqNext + 1) % 0x1_0000_0000;
      recCnt := recCnt + 1;
      return Ok;
    }

    /** The octets of the Data Block, its header and all lengths filled in. */
    method Finish(sid: U16, toff: nat) returns (block: Octets)
      requires Valid() && msgs != []
      modifies buf
      ensures block == EncData(codec, sid, odid, toff, EncMsgs(msgs))
    {
      hide Good, Splice, At, Le64, Le16, EncMsgs, HeaderSet;
      CloseMsg();
      GoodFacts(codec, State(), Fields());
      HeaderFilled(codec, odid, buf[..], EncMsgs(msgs), sid, toff);
      Store(buf, 4, Le64(written));
      Store(buf, 14, Le16(sid));
      Store(buf, 20, Le64(toff));
      if codec.Plain? {
        return buf[..written];
      }
      var content := codec.pack(buf[BDATA_HDR_LEN..written]);
      LengthReplaced(codec, written, BDATA_HDR_LEN + |content|, sid, odid, toff);
      return Splice(buf[..BDATA_HDR_LEN], 4, Le64(BDATA_HDR_LEN + |content|)) + content;
    }

    /** `write_to_file`: the octets of the Data Block, none when there is no record. The counters go on, the
        Messages are gone. */
    method WriteToFile(sid: U16, toff: nat) returns (block: Octets)
      requires Valid()
      modifies this`written, this`posMsg, this`posSet, this`tidNow, this`recCnt, this`msgs, buf
      ensures Valid() && State() == Reset(old(State()))
      ensures block == if old(msgs) == [] then [] else EncData(codec, sid, odid, toff, EncMsgs(old(msgs)))
    {
      GoodFacts(codec, State(), Fields());
      if written <= BDATA_HDR_LEN {
        return [];
      }
      block := Finish(sid, toff);
      ResetBuffer();
    }
  }
}
