/** Outcome of an operation: `FDS_OK` or the code carried by the exception. */
module Status {
  datatype Status = Ok | ErrArg | ErrNotFound | ErrFormat | ErrDenied | ErrInternal
}

/** What a Data Block under construction holds, and how one record more changes it. */
module DataBuffer {
  import opened Bytes
  import opened Templates
  import opened Messages
  import opened Status

  /** `FDS_FILE_DBLOCK_SIZE`: capacity of the buffer. */
  const CAPACITY := 0x10_0000
  const BDATA_HDR_LEN := 28
  const MSG_DEF_SIZE: U16 := 1400

  /** The buffered Messages (the last Set of the last one is still open) and the settings for the next one. */
  datatype Buf = Buf(odid: U32, sizeMax: U16, etimeSet: U32, seqNext: U32, recCnt: nat, msgs: seq<Msg>)

  function Empty(odid: U32, sizeMax: U16): Buf
  {
    Buf(odid, sizeMax, 0, 0, 0, [])
  }

  /** `m_written` */
  function Written(b: Buf): nat
  {
    BDATA_HDR_LEN + |EncMsgs(b.msgs)|
  }

  /** `remains`: the largest record that fits whatever headers it needs. */
  function Remains(b: Buf): nat
  {
    if CAPACITY > Written(b) + MSG_HDR_LEN + SET_HDR_LEN then CAPACITY - (Written(b) + MSG_HDR_LEN + SET_HDR_LEN) else 0
  }

  predicate Shaped(ms: seq<Msg>)
  {
    forall k :: 0 <= k < |ms| ==> ShapedMsg(ms[k])
  }

  predicate ShapedMsg(m: Msg)
  {
    m.sets != [] && MsgLen(m) <= 0xFFFF
  }

  /** Does a record of template `tid` need a new Message? */
  predicate NeedsMsg(b: Buf, tid: U16, size: nat)
  {
    b.msgs == [] || Last(b.msgs).sets == [] ||
    var m := Last(b.msgs);
    var size2add := if Last(m.sets).tid == tid then size else size + SET_HDR_LEN;
    MsgLen(m) + size2add > b.sizeMax || m.etime != b.etimeSet
  }

  function Extend(b: Buf, tid: U16, data: Octets): seq<Msg>
  {
    if NeedsMsg(b, tid, |data|) then
      b.msgs + [Msg(b.etimeSet, b.seqNext, b.odid, [DataSet(tid, [data])])]
    else
      var m := Last(b.msgs);
      var d := Last(m.sets);
      if d.tid != tid then
        Init(b.msgs) + [m.(sets := m.sets + [DataSet(tid, [data])])]
      else
        Init(b.msgs) + [m.(sets := Init(m.sets) + [d.(recs := d.recs + [data])])]
  }

  /** The checks of `Block_data_writer::add`, in its order. */
  function AddStatus(b: Buf, data: Octets, t: Template): Status
  {
    if RecLen(data, t) != Some(|data|) then ErrFormat
    else if |data| > Remains(b) then ErrInternal
    else if |data| > MAX_REC_SIZE then ErrFormat
    else Ok
  }

  function Add(b: Buf, data: Octets, t: Template): Buf
  {
    if AddStatus(b, data, t) != Ok then b
    else b.(msgs := Extend(b, t.id, data), seqNext := (b.seqNext + 1) % 0x1_0000_0000, recCnt := b.recCnt + 1)
  }

  /** `reset_buffer` */
  function Reset(b: Buf): Buf
  {
    b.(recCnt := 0, msgs := [])
  }

  // ----- sizes -----

  lemma LastMsg(ms: seq<Msg>)
    requires ms != []
    ensures EncMsgs(ms) == EncMsgs(Init(ms)) + EncMsg(Last(ms))
  {
    assert ms == Init(ms) + [Last(ms)];
    ConcatPush(EncMsg, Init(ms), Last(ms));
  }

  lemma LastSet(sets: seq<DataSet>)
    requires sets != []
    ensures EncSets(sets) == EncSets(Init(sets)) + EncSet(Last(sets))
  {
    assert sets == Init(sets) + [Last(sets)];
    ConcatPush(EncSet, Init(sets), Last(sets));
  }

  lemma JoinOne(recs: seq<Octets>, r: Octets)
    ensures Join(recs + [r]) == Join(recs) + r
    ensures Join([r]) == r
  {
    ConcatPush((r: Octets) => r, recs, r);
    ConcatPush((r: Octets) => r, [], r);
    assert [] + [r] == [r];
  }

  lemma NewSetLengths(m: Msg, tid: U16, data: Octets)
    ensures |EncSets(m.sets + [DataSet(tid, [data])])| == |EncSets(m.sets)| + SET_HDR_LEN + |data|
  {
    JoinOne([], data);
    ConcatPush(EncSet, m.sets, DataSet(tid, [data]));
  }

  lemma GrowSetLengths(m: Msg, data: Octets)
    requires m.sets != []
    ensures
      var d := Last(m.sets);
      |EncSets(Init(m.sets) + [d.(recs := d.recs + [data])])| == |EncSets(m.sets)| + |data|
  {
    var d := Last(m.sets);
    LastSet(m.sets);
    JoinOne(d.recs, data);
    ConcatPush(EncSet, Init(m.sets), d.(recs := d.recs + [data]));
  }

  lemma NewMsgLengths(ms: seq<Msg>, m: Msg, data: Octets)
    requires |m.sets| == 1 && m.sets[0].recs == [data]
    ensures MsgLen(m) == MSG_HDR_LEN + SET_HDR_LEN + |data|
    ensures |EncMsgs(ms + [m])| == |EncMsgs(ms)| + MsgLen(m)
  {
    NewSetLengths(m.(sets := []), m.sets[0].tid, data);
    assert [] + [DataSet(m.sets[0].tid, [data])] == m.sets && EncSets([]) == [];
    ConcatPush(EncMsg, ms, m);
  }

  lemma LastMsgLengths(ms: seq<Msg>, m: Msg)
    requires ms != []
    ensures |EncMsgs(Init(ms) + [m])| == |EncMsgs(ms)| - MsgLen(Last(ms)) + MsgLen(m)
  {
    LastMsg(ms);
    ConcatPush(EncMsg, Init(ms), m);
  }

  /** How long the Messages get. */
  lemma ExtendLengths(b: Buf, tid: U16, data: Octets)
    requires Shaped(b.msgs) && |data| <= MAX_REC_SIZE
    ensures
      var ms := Extend(b, tid, data);
      && ms != []
      && |EncMsgs(ms)| <= |EncMsgs(b.msgs)| + MSG_HDR_LEN + SET_HDR_LEN + |data|
      && (if NeedsMsg(b, tid, |data|) then
            MsgLen(Last(ms)) == MSG_HDR_LEN + SET_HDR_LEN + |data|
          else MsgLen(Last(ms)) <= b.sizeMax)
  {
    if NeedsMsg(b, tid, |data|) {
      NewMsgLengths(b.msgs, Last(Extend(b, tid, data)), data);
    } else {
      NewSetLengths(Last(b.msgs), tid, data);
      GrowSetLengths(Last(b.msgs), data);
      LastMsgLengths(b.msgs, Last(Extend(b, tid, data)));
    }
  }

  lemma ExtendShaped(b: Buf, tid: U16, data: Octets)
    requires Shaped(b.msgs) && |data| <= MAX_REC_SIZE
    ensures Shaped(Extend(b, tid, data))
  {
    ExtendLengths(b, tid, data);
    var ms := Extend(b, tid, data);
    assert forall k :: 0 <= k < |ms| - 1 ==> ms[k] == b.msgs[k];
  }

  // ----- records -----

  function MsgData(m: Msg): seq<Octets>
  {
    Concat((d: DataSet) => d.recs, m.sets)
  }

  /** The Data Records in `ms` without their templates. */
  function AllData(ms: seq<Msg>): seq<Octets>
  {
    Concat(MsgData, ms)
  }

  /** A Message with one Set more, or with one record more in its last Set. */
  lemma GrowMsg(m: Msg, tid: U16, data: Octets, snap: TmpltMap)
    requires m.sets != [] && tid in snap
    ensures
      var d := Last(m.sets);
      var m' := m.(sets := if d.tid != tid then m.sets + [DataSet(tid, [data])]
                           else Init(m.sets) + [d.(recs := d.recs + [data])]);
      && OneMsg(m', snap) == OneMsg(m, snap) + [Rec(m.etime, snap[tid], data)]
      && MsgData(m') == MsgData(m) + [data]
  {
    var f := (d: DataSet) => OneSet(d, snap, m.etime);
    var g := (d: DataSet) => d.recs;
    var z := [Rec(m.etime, snap[tid], data)];
    var d := Last(m.sets);
    if d.tid != tid {
      var n := DataSet(tid, [data]);
      assert f(n) == z;
      ConcatPush(f, m.sets, n);
      ConcatPush(g, m.sets, n);
    } else {
      var n := d.(recs := d.recs + [data]);
      assert f(n) == f(d) + z;
      ConcatGrow(f, m.sets, n, z);
      ConcatGrow(g, m.sets, n, [data]);
    }
  }

  lemma NewMsg(m: Msg, tid: U16, data: Octets, snap: TmpltMap)
    requires m.sets == [DataSet(tid, [data])] && tid in snap
    ensures OneMsg(m, snap) == [Rec(m.etime, snap[tid], data)] && MsgData(m) == [data]
  {
    var n := DataSet(tid, [data]);
    ConcatOne((d: DataSet) => OneSet(d, snap, m.etime), n);
    ConcatOne((d: DataSet) => d.recs, n);
    assert OneSet(n, snap, m.etime) == [Rec(m.etime, snap[tid], data)];
  }

  /** Adding a record puts it, with the chosen Export Time, behind all others and changes nothing else. */
  lemma ExtendList(b: Buf, tid: U16, data: Octets, snap: TmpltMap)
    requires Shaped(b.msgs) && tid in snap
    ensures MsgList(Extend(b, tid, data), snap) == MsgList(b.msgs, snap) + [Rec(b.etimeSet, snap[tid], data)]
    ensures AllData(Extend(b, tid, data)) == AllData(b.msgs) + [data]
  {
    var ms := Extend(b, tid, data);
    var f := (m: Msg) => OneMsg(m, snap);
    if NeedsMsg(b, tid, |data|) {
      NewMsg(Last(ms), tid, data, snap);
      ConcatPush(f, b.msgs, Last(ms));
      ConcatPush(MsgData, b.msgs, Last(ms));
    } else {
      var m := Last(b.msgs);
      GrowMsg(m, tid, data, snap);
      ConcatGrow(f, b.msgs, Last(ms), [Rec(m.etime, snap[tid], data)]);
      ConcatGrow(MsgData, b.msgs, Last(ms), [data]);
    }
  }

  lemma ExtendSetsOk(m: Msg, tid: U16, data: Octets, snap: TmpltMap)
    requires MsgOk(m, snap)
    requires MIN_DSET_ID <= tid && tid in snap && RecOk(data, snap[tid])
    ensures
      var d := Last(m.sets);
      && SetOk(DataSet(tid, [data]), snap)
      && (d.tid == tid ==> SetOk(d.(recs := d.recs + [data]), snap))
  {
    assert SetOk(Last(m.sets), snap);
  }

  /** What may be read back stays so. */
  lemma ExtendOk(b: Buf, tid: U16, data: Octets, snap: TmpltMap)
    requires MsgsOk(b.msgs, snap) && Shaped(b.msgs)
    requires MIN_DSET_ID <= tid && tid in snap && RecOk(data, snap[tid]) && |data| <= MAX_REC_SIZE
    ensures MsgsOk(Extend(b, tid, data), snap)
  {
    ExtendLengths(b, tid, data);
    ExtendShaped(b, tid, data);
    var ms := Extend(b, tid, data);
    if NeedsMsg(b, tid, |data|) {
      assert SetOk(DataSet(tid, [data]), snap);
    } else {
      assert MsgOk(Last(b.msgs), snap);
      ExtendSetsOk(Last(b.msgs), tid, data, snap);
    }
    assert MsgOk(Last(ms), snap);
  }

  // ----- what every buffer keeps -----

  /** The sequence number of Message `k`: records before it since the buffer was created (`base` of them
      already written out), modulo 2^32 (RFC 7011, section 3.1). */
  ghost predicate Numbered(ms: seq<Msg>, base: nat)
  {
    forall k :: 0 <= k < |ms| ==> ms[k].seqNum == (base + |AllData(ms[..k])|) % 0x1_0000_0000
  }

  /** Only a Message with a single record may exceed the configured size. */
  ghost predicate Sized(ms: seq<Msg>, sizeMax: nat)
  {
    forall k :: 0 <= k < |ms| ==> |MsgData(ms[k])| > 1 ==> MsgLen(ms[k]) <= sizeMax
  }

  /** A Set is left for another one only when the template changes. */
  predicate SetsJoined(m: Msg)
  {
    && (forall j :: 0 <= j < |m.sets| ==> m.sets[j].recs != [])
    && (forall j :: 0 < j < |m.sets| ==> m.sets[j - 1].tid != m.sets[j].tid)
  }

  /** Message `m` is left for `n` only when the Export Time changes, or when the first record of `n`, with a Set header
      where its template differs from the last one of `m`, would make `m` too long. */
  predicate Parted(m: Msg, n: Msg, sizeMax: nat)
  {
    && m.sets != [] && n.sets != [] && n.sets[0].recs != []
    && (m.etime != n.etime ||
        MsgLen(m) + |n.sets[0].recs[0]| + (if Last(m.sets).tid == n.sets[0].tid then 0 else 4) > sizeMax)
  }

  /** Records are packed as long as they fit. */
  ghost predicate Packed(ms: seq<Msg>, sizeMax: nat)
  {
    && (forall k :: 0 <= k < |ms| ==> SetsJoined(ms[k]))
    && (forall k :: 0 < k < |ms| ==> Parted(ms[k - 1], ms[k], sizeMax))
  }

  ghost predicate MsgsInv(ms: seq<Msg>, odid: U32, sizeMax: U16, base: nat)
  {
    && Shaped(ms) && BDATA_HDR_LEN + |EncMsgs(ms)| <= CAPACITY
    && Numbered(ms, base) && Sized(ms, sizeMax) && Packed(ms, sizeMax)
    && (forall k :: 0 <= k < |ms| ==> ms[k].odid == odid)
  }

  ghost predicate BufInv(b: Buf, base: nat)
  {
    && MsgsInv(b.msgs, b.odid, b.sizeMax, base)
    && b.recCnt == |AllData(b.msgs)| && b.seqNext == (base + b.recCnt) % 0x1_0000_0000
  }

  lemma EmptyInv(odid: U32, sizeMax: U16)
    ensures BufInv(Empty(odid, sizeMax), 0)
  {
  }

  lemma ResetInv(b: Buf, base: nat)
    requires BufInv(b, base)
    ensures BufInv(Reset(b), base + b.recCnt)
  {
    assert AllData([]) == [];
  }

  lemma ExtendNumbered(b: Buf, tid: U16, data: Octets, base: nat)
    requires Shaped(b.msgs) && Numbered(b.msgs, base)
    requires b.seqNext == (base + |AllData(b.msgs)|) % 0x1_0000_0000
    ensures Numbered(Extend(b, tid, data), base)
  {
    var ms := Extend(b, tid, data);
    var n := |ms| - 1;
    forall k | 0 <= k < |ms|
      ensures ms[k].seqNum == (base + |AllData(ms[..k])|) % 0x1_0000_0000
    {
      if k == |b.msgs| {
        assert ms[..k] == b.msgs;
      } else {
        assert ms[..k] == b.msgs[..k] && ms[k].seqNum == b.msgs[k].seqNum;
      }
    }
  }

  lemma ExtendSized(b: Buf, tid: U16, data: Octets, snap: TmpltMap)
    requires Shaped(b.msgs) && |data| <= MAX_REC_SIZE && Sized(b.msgs, b.sizeMax) && tid in snap
    ensures Sized(Extend(b, tid, data), b.sizeMax)
  {
    ExtendLengths(b, tid, data);
    var ms := Extend(b, tid, data);
    if NeedsMsg(b, tid, |data|) {
      NewMsg(Last(ms), tid, data, snap);
    }
    assert forall k :: 0 <= k < |ms| - 1 ==> ms[k] == b.msgs[k];
  }

  /** One record more in the last Message. */
  lemma GrownSets(m: Msg, tid: U16, data: Octets)
    requires m.sets != [] && SetsJoined(m)
    ensures
      var d := Last(m.sets);
      var m' := m.(sets := if d.tid != tid then m.sets + [DataSet(tid, [data])]
                           else Init(m.sets) + [d.(recs := d.recs + [data])]);
      && SetsJoined(m') && m'.sets != []
      && m'.sets[0].tid == m.sets[0].tid && m'.sets[0].recs[0] == m.sets[0].recs[0]
  {
  }

  lemma ExtendPacked(b: Buf, tid: U16, data: Octets)
    requires Shaped(b.msgs) && Packed(b.msgs, b.sizeMax)
    ensures Packed(Extend(b, tid, data), b.sizeMax)
  {
    hide SetsJoined, EncSets;
    var ms := Extend(b, tid, data);
    if NeedsMsg(b, tid, |data|) {
      OneSetJoined(Last(ms), tid, data);
    } else {
      GrownSets(Last(b.msgs), tid, data);
    }
    assert forall k :: 0 <= k < |ms| - 1 ==> ms[k] == b.msgs[k];
  }

  lemma OneSetJoined(m: Msg, tid: U16, data: Octets)
    requires m.sets == [DataSet(tid, [data])]
    ensures SetsJoined(m)
  {
  }

  lemma ExtendInv(b: Buf, tid: U16, data: Octets, snap: TmpltMap, base: nat)
    requires BufInv(b, base) && data != [] && |data| <= Remains(b) && |data| <= MAX_REC_SIZE && tid in snap
    ensures MsgsInv(Extend(b, tid, data), b.odid, b.sizeMax, base)
  {
    assert |EncMsgs(Extend(b, tid, data))| <= |EncMsgs(b.msgs)| + MSG_HDR_LEN + SET_HDR_LEN + |data| by {
      ExtendLengths(b, tid, data);
    }
    ExtendShaped(b, tid, data);
    ExtendNumbered(b, tid, data, base);
    ExtendSized(b, tid, data, snap);
    ExtendPacked(b, tid, data);
    hide NeedsMsg, Extend, Shaped, Numbered, Sized, Packed;
  }

  /** Capacity, Message sizes, counts and sequence numbers survive every `add`, accepted or refused. The
      record is not empty, as the public interface demands. */
  lemma AddKeepsInv(b: Buf, data: Octets, t: Template, base: nat)
    requires BufInv(b, base) && data != []
    ensures BufInv(Add(b, data, t), base)
  {
    if AddStatus(b, data, t) == Ok {
      var snap: TmpltMap := map[t.id := t];
      ExtendInv(b, t.id, data, snap, base);
      ExtendList(b, t.id, data, snap);
      NextNumber(base, b.recCnt, b.seqNext);
    }
  }

  lemma NextNumber(base: nat, count: nat, next: nat)
    requires next == (base + count) % 0x1_0000_0000
    ensures (next + 1) % 0x1_0000_0000 == (base + (count + 1)) % 0x1_0000_0000
  {
  }

  /** A record that fits into a Message always fits into an empty buffer. */
  lemma EmptyHasRoom(b: Buf, size: nat)
    requires b.msgs == [] && size <= 0xFFFF
    ensures size <= Remains(b)
  {
    assert EncMsgs([]) == [];
  }
}
