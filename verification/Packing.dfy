/** Packing of records into Messages and Sets, for any sequence of calls of the Data Block writer. */
module Packing {
  import opened Bytes
  import opened Templates
  import opened Messages
  import opened Status
  import opened DataBuffer

  datatype Call = SetEtime(etime: U32) | AddRec(data: Octets, tmplt: Template)

  function Apply(b: Buf, call: Call): Buf
  {
    match call
    case SetEtime(e) => b.(etimeSet := e)
    case AddRec(data, t) => Add(b, data, t)
  }

  function ApplyAll(b: Buf, calls: seq<Call>): Buf
    decreases |calls|
  {
    if calls == [] then b else ApplyAll(Apply(b, calls[0]), calls[1..])
  }

  /** The records that were accepted, each with its template and the Export Time set at that moment. */
  function Accepted(b: Buf, calls: seq<Call>): seq<Rec>
    decreases |calls|
  {
    if calls == [] then []
    else
      (if calls[0].AddRec? && AddStatus(b, calls[0].data, calls[0].tmplt) == Ok
       then [Rec(b.etimeSet, calls[0].tmplt, calls[0].data)] else [])
      + Accepted(Apply(b, calls[0]), calls[1..])
  }

  /** One template for each ID within a block, and no empty record, as the callers guarantee. */
  predicate Consistent(calls: seq<Call>, snap: TmpltMap)
  {
    forall k :: 0 <= k < |calls| && calls[k].AddRec? ==>
      var t := calls[k].tmplt;
      calls[k].data != [] && MIN_DSET_ID <= t.id && t.id as nat in snap && snap[t.id as nat] == t
  }

  lemma OneCall(b: Buf, call: Call, snap: TmpltMap)
    requires MsgsOk(b.msgs, snap) && Shaped(b.msgs) && Consistent([call], snap)
    ensures
      var b' := Apply(b, call);
      && MsgsOk(b'.msgs, snap) && Shaped(b'.msgs)
      && MsgList(b'.msgs, snap) == MsgList(b.msgs, snap) + Accepted(b, [call])
  {
    assert [call][0] == call && [call][1..] == [];
    hide Extend, MsgList, Remains;
    if call.AddRec? && AddStatus(b, call.data, call.tmplt) == Ok {
      ExtendOk(b, call.tmplt.id, call.data, snap);
      ExtendShaped(b, call.tmplt.id, call.data);
      ExtendList(b, call.tmplt.id, call.data, snap);
    }
  }

  lemma {:induction false} AllCalls(b: Buf, calls: seq<Call>, snap: TmpltMap)
    requires MsgsOk(b.msgs, snap) && Shaped(b.msgs) && Consistent(calls, snap)
    ensures
      var b' := ApplyAll(b, calls);
      && MsgsOk(b'.msgs, snap) && Shaped(b'.msgs)
      && MsgList(b'.msgs, snap) == MsgList(b.msgs, snap) + Accepted(b, calls)
    decreases |calls|
  {
    hide MsgList, MsgsOk, Shaped, Apply, AddStatus;
    if calls != [] {
      OneCall(b, calls[0], snap);
      AllCalls(Apply(b, calls[0]), calls[1..], snap);
      OneOf(b, calls);
    }
  }

  lemma OneOf(b: Buf, calls: seq<Call>)
    requires calls != []
    ensures Accepted(b, calls) == Accepted(b, [calls[0]]) + Accepted(Apply(b, calls[0]), calls[1..])
  {
    hide Apply, AddStatus;
    assert [calls[0]][0] == calls[0] && [calls[0]][1..] == [];
  }

  /** After any calls, the finished buffer reads back, through the Message, Set and record loops, as exactly
      the accepted records, in order and without error: all the lengths that were filled in are right. */
  lemma PackingRoundTrip(odid: U32, sizeMax: U16, calls: seq<Call>, snap: TmpltMap)
    requires Consistent(calls, snap)
    ensures
      var b := Empty(odid, sizeMax);
      MsgsOf(EncMsgs(ApplyAll(b, calls).msgs), snap) == Stream(Accepted(b, calls), Eoc)
  {
    var b := Empty(odid, sizeMax);
    hide ApplyAll, Accepted, EncMsgs;
    AllCalls(b, calls, snap);
    MsgsRoundTrip(ApplyAll(b, calls).msgs, snap);
    assert MsgList([], snap) == [];
    assert [] + Accepted(b, calls) == Accepted(b, calls);
  }

  lemma {:induction false} CallsKeepInv(b: Buf, calls: seq<Call>, snap: TmpltMap, base: nat)
    requires BufInv(b, base) && Consistent(calls, snap)
    ensures BufInv(ApplyAll(b, calls), base) && ApplyAll(b, calls).sizeMax == b.sizeMax
    decreases |calls|
  {
    hide MsgsInv, AllData, Extend, AddStatus;
    if calls != [] {
      if calls[0].AddRec? { AddKeepsInv(b, calls[0].data, calls[0].tmplt, base); }
      CallsKeepInv(Apply(b, calls[0]), calls[1..], snap, base);
    }
  }

  /** After any calls no record has begun a Message or a Set that would have fitted into the one before, and only a
      Message with a single record is longer than it may be. */
  lemma PackedTightly(odid: U32, sizeMax: U16, calls: seq<Call>, snap: TmpltMap)
    requires Consistent(calls, snap)
    ensures
      var ms := ApplyAll(Empty(odid, sizeMax), calls).msgs;
      && (forall k :: 0 <= k < |ms| ==> SetsJoined(ms[k]) && (|MsgData(ms[k])| > 1 ==> MsgLen(ms[k]) <= sizeMax))
      && (forall k :: 0 < k < |ms| ==> Parted(ms[k - 1], ms[k], sizeMax))
  {
    hide ApplyAll, Parted, SetsJoined, MsgLen;
    EmptyInv(odid, sizeMax);
    CallsKeepInv(Empty(odid, sizeMax), calls, snap, 0);
  }
}
