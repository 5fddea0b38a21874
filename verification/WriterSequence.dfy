/** Message bounds and sequence numbers in every reachable state. */
module WriterSequence {
  import opened Bytes
  import opened Templates
  import opened Messages
  import opened DataBuffer
  import opened Status
  import opened Blocks
  import opened DataBlock
  import opened ContentTable
  import opened Writer
  import opened WriterProofs
  import opened WriterRuns
  import opened WriterHistory
  import opened Layout

  function DataFor(b: Block, c: Ctx): seq<Octets>
  {
    if b.DataB? && Ctx(b.sid, b.odid) == c then AllData(b.msgs) else []
  }

  /** Number of records of context `c` in the Data Blocks `bs`. */
  function Flushed(bs: seq<Block>, c: Ctx): nat
  {
    |Concat((b: Block) => DataFor(b, c), bs)|
  }

  /** Blocks written since the file was opened with `start` blocks: every Message obeys the size limit and
      carries the number of records written before it for the same context, modulo 2^32. */
  ghost predicate NumberedBlocks(bs: seq<Block>, start: nat)
    requires start <= |bs|
  {
    forall k :: start <= k < |bs| ==> NumberedBlock(bs, start, k)
  }

  ghost predicate NumberedBlock(bs: seq<Block>, start: nat, k: nat)
    requires start <= k < |bs|
  {
    bs[k].DataB? ==> MsgsInv(bs[k].msgs, bs[k].odid, MSG_DEF_SIZE, Flushed(bs[start..k], Ctx(bs[k].sid, bs[k].odid)))
  }

  /** The buffers go on counting where their blocks stop. */
  ghost predicate NumberedBuf(bs: seq<Block>, start: nat, c: Ctx, b: Buf)
    requires start <= |bs|
  {
    b.odid == c.odid && b.sizeMax == MSG_DEF_SIZE && BufInv(b, Flushed(bs[start..], c))
  }

  ghost predicate SeqInv(w: Writer, start: nat)
  {
    && start <= |w.blocks| && NumberedBlocks(w.blocks, start)
    && (forall c :: c in w.ctxs ==> NumberedBuf(w.blocks, start, c, w.ctxs[c].data))
    && (forall c :: c !in w.ctxs ==> Flushed(w.blocks[start..], c) == 0)
  }

  lemma FlushedPush(bs: seq<Block>, b: Block, c: Ctx)
    ensures Flushed(bs + [b], c) == Flushed(bs, c) + |DataFor(b, c)|
  {
    ConcatPush((x: Block) => DataFor(x, c), bs, b);
  }

  lemma NumberedPush(bs: seq<Block>, start: nat, x: Block)
    requires start <= |bs| && NumberedBlocks(bs, start)
    requires x.DataB? ==> MsgsInv(x.msgs, x.odid, MSG_DEF_SIZE, Flushed(bs[start..], Ctx(x.sid, x.odid)))
    ensures NumberedBlocks(bs + [x], start)
  {
    hide MsgsInv, Flushed;
    forall k | start <= k < |bs + [x]| ensures NumberedBlock(bs + [x], start, k) {
      if k < |bs| {
        assert NumberedBlock(bs, start, k);
        assert (bs + [x])[start..k] == bs[start..k];
      } else {
        assert (bs + [x])[start..k] == bs[start..];
      }
    }
  }

  lemma SetDataSeq(w: Writer, start: nat, c: Ctx, o: Odid)
    requires SeqInv(w, start) && NumberedBuf(w.blocks, start, c, o.data)
    ensures SeqInv(SetOdid(w, c, o), start)
  {
    hide NumberedBlocks, NumberedBuf;
  }

  lemma PutTmpltsSeq(w: Writer, start: nat, x: Block)
    requires SeqInv(w, start) && !x.DataB?
    ensures SeqInv(w.(blocks := w.blocks + [x]), start)
  {
    hide NumberedBlocks, BufInv, Flushed;
    NumberedPush(w.blocks, start, x);
    assert (w.blocks + [x])[start..] == w.blocks[start..] + [x];
    forall c | c !in w.ctxs ensures Flushed((w.blocks + [x])[start..], c) == 0 {
      FlushedPush(w.blocks[start..], x, c);
    }
    forall c | c in w.ctxs ensures NumberedBuf(w.blocks + [x], start, c, w.ctxs[c].data) {
      FlushedPush(w.blocks[start..], x, c);
      assert (w.blocks + [x])[start..] == w.blocks[start..] + [x];
      assert NumberedBuf(w.blocks, start, c, w.ctxs[c].data);
    }
  }

  /** Writing out the buffer of `c`: its block is numbered, and the emptied buffer goes on from there. */
  lemma PutDataSeq(w: Writer, start: nat, c: Ctx, o: Odid)
    requires SeqInv(w, start) && c in w.ctxs && w.ctxs[c].data == o.data
    ensures
      var x := DataBlockOf(c, o);
      SeqInv(w.(blocks := w.blocks + [x], ctxs := w.ctxs[c := o.(data := Reset(o.data))]), start)
  {
    hide NumberedBlocks, MsgsInv, Flushed, AllData;
    var x := DataBlockOf(c, o);
    assert NumberedBuf(w.blocks, start, c, o.data);
    NumberedPush(w.blocks, start, x);
    var bs := w.blocks + [x];
    var cs := w.ctxs[c := o.(data := Reset(o.data))];
    assert bs[start..] == w.blocks[start..] + [x];
    forall d | d !in cs ensures Flushed(bs[start..], d) == 0 {
      FlushedPush(w.blocks[start..], x, d);
    }
    forall d | d in cs ensures NumberedBuf(bs, start, d, cs[d].data) {
      FlushedPush(w.blocks[start..], x, d);
      if d == c {
        ResetInv(o.data, Flushed(w.blocks[start..], c));
      } else {
        assert NumberedBuf(w.blocks, start, d, w.ctxs[d].data);
      }
    }
  }

  lemma FlushSeqInv(w: Writer, start: nat, c: Ctx)
    requires SeqInv(w, start) && c in w.ctxs && Flush(w, c).1 == Ok
    ensures SeqInv(Flush(w, c).0, start)
  {
    hide SeqInv, Render, Index;
    if w.ctxs[c].data.recCnt != 0 {
      var o := w.ctxs[c];
      var w1 := FlushTmplts(w, c);
      assert SeqInv(w1, start) && w1.ctxs[c].data == o.data by {
        if o.toff == 0 {
          var x := TmpltsB(c.sid, c.odid, o.tmplts);
          PutTmpltsSeq(w, start, x);
          SeqFields(w.(blocks := w.blocks + [x]), Put(w, x), start);
          SameDataSeq(Put(w, x), start, c, o.(toff := w.offset));
        }
      }
      var o1 := w1.ctxs[c];
      PutDataSeq(w1, start, c, o1);
      SeqFields(w1.(blocks := w1.blocks + [DataBlockOf(c, o1)], ctxs := w1.ctxs[c := o1.(data := Reset(o1.data))]),
                FlushData(w1, c).0, start);
    }
  }

  /** Only the blocks and the contexts matter. */
  lemma SeqFields(w: Writer, w': Writer, start: nat)
    requires SeqInv(w, start) && w'.blocks == w.blocks && w'.ctxs == w.ctxs
    ensures SeqInv(w', start)
  {
    hide NumberedBlocks, NumberedBuf;
  }

  lemma SameDataSeq(w: Writer, start: nat, c: Ctx, o: Odid)
    requires SeqInv(w, start) && c in w.ctxs && o.data == w.ctxs[c].data
    ensures SeqInv(SetOdid(w, c, o), start)
  {
    hide NumberedBlocks, NumberedBuf;
  }

  lemma EtimeSeq(w: Writer, start: nat, c: Ctx, etime: U32)
    requires SeqInv(w, start) && c in w.ctxs
    ensures SeqInv(SetEtime(w, c, etime), start)
  {
    hide NumberedBlocks, MsgsInv, Flushed, AllData;
    var o := w.ctxs[c].(data := w.ctxs[c].data.(etimeSet := etime));
    assert NumberedBuf(w.blocks, start, c, w.ctxs[c].data);
    SetDataSeq(w, start, c, o);
    SeqFields(SetOdid(w, c, o), SetEtime(w, c, etime), start);
  }

  lemma AddRecSeq(w: Writer, start: nat, c: Ctx, data: Octets, t: Template)
    requires SeqInv(w, start) && c in w.ctxs && data != []
    ensures SeqInv(AddRec(w, c, data, t).0, start)
  {
    hide NumberedBlocks, BufInv, Flushed, Extend;
    var o := w.ctxs[c];
    assert NumberedBuf(w.blocks, start, c, o.data);
    AddKeepsInv(o.data, data, t, Flushed(w.blocks[start..], c));
    SetDataSeq(w, start, c, o.(data := Add(o.data, data, t)));
  }

  lemma WriteRecSeq(w: Writer, start: nat, tid: nat, data: Octets)
    requires SeqInv(w, start) && WriteRec(w, tid, data).1 != ErrInternal
    ensures SeqInv(WriteRec(w, tid, data).0, start)
  {
    hide SeqInv, Flush, AddRec, Remains;
    if data != [] && w.selected.Some? && w.selected.value in w.ctxs {
      var c := w.selected.value;
      var o := w.ctxs[c];
      if Lookup(o, tid).Some? {
        var t := Lookup(o, tid).value;
        var w1 := SetOdid(w, c, o.(last := Some(t)));
        SameDataSeq(w, start, c, o.(last := Some(t)));
        if |data| > Remains(o.data) {
          FlushStatus(w1, c);
          if Flush(w1, c).1 == Ok {
            FlushSeqInv(w1, start, c);
            AddRecSeq(Flush(w1, c).0, start, c, data, t);
          }
        } else {
          AddRecSeq(w1, start, c, data, t);
        }
      }
    }
  }

  lemma FlushStatus(w: Writer, c: Ctx)
    requires c in w.ctxs
    ensures Flush(w, c).1 == Ok || Flush(w, c).1 == ErrInternal
    ensures c in Flush(w, c).0.ctxs
  {
  }

  lemma StoreSeq(w: Writer, start: nat, c: Ctx, ttype: U16, raw: Octets, keepLast: bool)
    requires SeqInv(w, start) && c in w.ctxs
    ensures SeqInv(StoreTmplt(w, c, ttype, raw, keepLast).0, start)
  {
    hide SeqInv, ParseFields, MinLength;
    match Parse(ttype, raw)
    case None =>
    case Some(t) =>
      var o := w.ctxs[c];
      SameDataSeq(w, start, c,
        o.(tmplts := o.tmplts[t.id as nat := t], toff := 0, last := if keepLast then o.last else None));
  }

  lemma SessionSeq(w: Writer, start: nat, s: Session)
    requires SeqInv(w, start)
    ensures SeqInv(SessionAdd(w, s).0, start)
  {
    hide SeqInv, Render, Index;
    if ValidSession(s) && s !in w.ids && |w.sessions| + 1 <= MAX_SESSIONS && |w.table.sessions| <= MAX_SESSIONS {
      var x := SessionB(|w.sessions| + 1, s);
      PutTmpltsSeq(w, start, x);
      SeqFields(w.(blocks := w.blocks + [x]), SessionAdd(w, s).0, start);
    }
  }

  lemma SelectSeq(w: Writer, start: nat, sid: U16, odid: U32, etime: U32)
    requires SeqInv(w, start)
    ensures SeqInv(SelectCtx(w, sid, odid, etime).0, start)
  {
    hide SeqInv, SetEtime;
    var c := Ctx(sid, odid);
    if c in w.ctxs {
      EtimeSeq(w, start, c, etime);
    } else if sid in w.sessions {
      NewBufSeq(w, start, c);
      EtimeSeq(SetOdid(w, c, Odid(map[], 0, Empty(odid, MSG_DEF_SIZE), None)), start, c, etime);
    }
  }

  lemma TmpltAddSeq(w: Writer, start: nat, ttype: U16, raw: Octets)
    requires SeqInv(w, start) && TmpltAdd(w, ttype, raw).1 != ErrInternal
    ensures SeqInv(TmpltAdd(w, ttype, raw).0, start)
  {
    hide SeqInv, Flush, StoreTmplt;
    if raw != [] && w.selected.Some? && w.selected.value in w.ctxs && 2 <= |raw| {
      var c := w.selected.value;
      FlushStatus(w, c);
      if FromBe16(raw[..2]) !in w.ctxs[c].tmplts {
        StoreSeq(w, start, c, ttype, raw, true);
      } else if Flush(w, c).1 == Ok {
        FlushSeqInv(w, start, c);
        StoreSeq(Flush(w, c).0, start, c, ttype, raw, false);
      }
    }
  }

  lemma TmpltRemoveSeq(w: Writer, start: nat, tid: nat)
    requires SeqInv(w, start) && TmpltRemove(w, tid).1 != ErrInternal
    ensures SeqInv(TmpltRemove(w, tid).0, start)
  {
    hide SeqInv, Flush;
    if w.selected.Some? && w.selected.value in w.ctxs && tid in w.ctxs[w.selected.value].tmplts {
      var c := w.selected.value;
      FlushStatus(w, c);
      if Flush(w, c).1 == Ok {
        FlushSeqInv(w, start, c);
        var o := Flush(w, c).0.ctxs[c];
        SameDataSeq(Flush(w, c).0, start, c, o.(tmplts := o.tmplts - {tid}, toff := 0, last := None));
      }
    }
  }

  lemma ReopenSeq(w: Writer)
    ensures SeqInv(Reopen(w), |w.blocks|)
  {
    assert w.blocks[|w.blocks|..] == [];
  }

  lemma {:induction false} FlushListSeq(w: Writer, start: nat, ks: seq<nat>)
    requires SeqInv(w, start) && FlushSeq(w, ks).1 != ErrInternal
    ensures SeqInv(FlushSeq(w, ks).0, start)
    decreases |ks|
  {
    hide SeqInv, Flush;
    if ks != [] {
      if CtxOf(ks[0]) !in w.ctxs {
        FlushListSeq(w, start, ks[1..]);
      } else {
        FlushStatus(w, CtxOf(ks[0]));
        if Flush(w, CtxOf(ks[0])).1 == Ok {
          FlushSeqInv(w, start, CtxOf(ks[0]));
          FlushListSeq(Flush(w, CtxOf(ks[0])).0, start, ks[1..]);
        }
      }
    }
  }

  lemma FlushAllSeq(w: Writer, start: nat)
    requires SeqInv(w, start) && FlushAll(w).1 != ErrInternal
    ensures start <= |FlushAll(w).0.blocks| && NumberedBlocks(FlushAll(w).0.blocks, start)
  {
    hide FlushSeq, NumberedBlocks, NumberedBuf, Sorted;
    FlushListSeq(w, start, Sorted(CtxKeys(w)));
  }

  /** Every step but a re-open keeps the numbering; a re-open, which first writes out all buffers, starts it again
      at zero behind the blocks so far. */
  lemma StepSeq(w: Writer, start: nat, op: Op)
    requires SeqInv(w, start) && Step(w, op).1 != ErrInternal
    ensures !op.OpReopen? ==> SeqInv(Step(w, op).0, start)
    ensures op.OpReopen? ==> SeqInv(Step(w, op).0, |Step(w, op).0.blocks|)
    ensures start <= |Step(w, op).0.blocks| && NumberedBlocks(Step(w, op).0.blocks, start)
  {
    hide SeqInv, SessionAdd, SelectCtx, TmpltAdd, TmpltRemove, WriteRec, FlushAll, NumberedBlocks;
    if !op.OpReopen? { StepKeepsSeq(w, start, op); SeqBlocks(Step(w, op).0, start); return; }
    FlushAllSeq(w, start);
    ReopenSeq(FlushAll(w).0);
  }

  lemma SeqBlocks(w: Writer, start: nat)
    requires SeqInv(w, start)
    ensures start <= |w.blocks| && NumberedBlocks(w.blocks, start)
  {
  }

  lemma StepKeepsSeq(w: Writer, start: nat, op: Op)
    requires SeqInv(w, start) && Step(w, op).1 != ErrInternal && !op.OpReopen?
    ensures SeqInv(Step(w, op).0, start)
  {
    hide SeqInv, SessionAdd, SelectCtx, TmpltAdd, TmpltRemove, WriteRec, FlushAll;
    match op
    case OpSession(s) => SessionSeq(w, start, s);
    case OpSelect(sid, odid, etime) => SelectSeq(w, start, sid, odid, etime);
    case OpTmplt(ttype, raw) => TmpltAddSeq(w, start, ttype, raw);
    case OpRemove(tid) => TmpltRemoveSeq(w, start, tid);
    case OpRec(tid, data) => WriteRecSeq(w, start, tid, data);
  }

  lemma NewBufSeq(w: Writer, start: nat, c: Ctx)
    requires SeqInv(w, start) && c !in w.ctxs
    ensures SeqInv(SetOdid(w, c, Odid(map[], 0, Empty(c.odid, MSG_DEF_SIZE), None)), start)
  {
    hide NumberedBlocks, BufInv;
    EmptyInv(c.odid, MSG_DEF_SIZE);
  }

  // ----- whole files -----

  /** Number of blocks in the file when it was opened for the last time before its block `k` was written; `start` of
      them were there when `w` was opened. */
  function Opening(w: Writer, start: nat, ops: seq<Op>, k: nat): nat
    decreases |ops|
  {
    if ops == [] then start
    else
      var w' := Step(w, ops[0]).0;
      Opening(w', if ops[0].OpReopen? && |w'.blocks| <= k then |w'.blocks| else start, ops[1..], k)
  }

  /** Call `i` opens the file again, with block `k` still to be written. */
  predicate OpensBefore(w: Writer, ops: seq<Op>, i: nat, k: nat)
    requires i < |ops|
  {
    ops[i].OpReopen? && |Run(w, ops[..i + 1]).blocks| <= k
  }

  lemma RunFirst(w: Writer, ops: seq<Op>, i: nat)
    requires i < |ops|
    ensures Run(w, ops[..i + 1]) == Run(Step(w, ops[0]).0, ops[1..][..i])
  {
    hide Step;
    assert ops[..i + 1][1..] == ops[1..][..i];
  }

  /** Nothing else counts once block `k` is written. */
  lemma {:induction false} OpenedBefore(w: Writer, start: nat, ops: seq<Op>, k: nat)
    requires k < |w.blocks|
    ensures Opening(w, start, ops, k) == start
    decreases |ops|
  {
    hide Step;
    if ops != [] {
      StepGrows(w, ops[0]);
      OpenedBefore(Step(w, ops[0]).0, start, ops[1..], k);
    }
  }

  /** It is the last of all openings before block `k`: none of them found more blocks. */
  lemma {:induction false} OpeningIsLast(w: Writer, start: nat, ops: seq<Op>, k: nat)
    requires start <= |w.blocks| && start <= k
    ensures start <= Opening(w, start, ops, k) <= k
    ensures forall i: nat :: i < |ops| && OpensBefore(w, ops, i, k) ==>
      |Run(w, ops[..i + 1]).blocks| <= Opening(w, start, ops, k)
    ensures
      || Opening(w, start, ops, k) == start
      || (exists i: nat ::
            i < |ops| && OpensBefore(w, ops, i, k) && Opening(w, start, ops, k) == |Run(w, ops[..i + 1]).blocks|)
    decreases |ops|
  {
    hide Step;
    if ops != [] {
      var w', rest := Step(w, ops[0]).0, ops[1..];
      StepGrows(w, ops[0]);
      var next := if ops[0].OpReopen? && |w'.blocks| <= k then |w'.blocks| else start;
      OpeningIsLast(w', next, rest, k);
      var o := Opening(w', next, rest, k);
      RunFirst(w, ops, 0);
      assert Run(w', rest[..0]) == w';
      forall i: nat | i < |ops| && OpensBefore(w, ops, i, k) ensures |Run(w, ops[..i + 1]).blocks| <= o {
        RunFirst(w, ops, i);
        if i > 0 { assert OpensBefore(w', rest, i - 1, k); }
      }
      if o != start {
        if o == next {
          assert OpensBefore(w, ops, 0, k);
        } else {
          var i: nat :| i < |rest| && OpensBefore(w', rest, i, k) && o == |Run(w', rest[..i + 1]).blocks|;
          RunFirst(w, ops, i + 1);
          assert OpensBefore(w, ops, i + 1, k);
        }
      }
    }
  }

  lemma BlockStays(bs: seq<Block>, all: seq<Block>, start: nat, k: nat)
    requires start <= k < |bs| && bs <= all && NumberedBlocks(bs, start)
    ensures NumberedBlock(all, start, k)
  {
    hide MsgsInv, Flushed;
    assert NumberedBlock(bs, start, k);
    assert all[start..k] == bs[start..k];
  }

  lemma {:induction false} RunSeq(w: Writer, start: nat, ops: seq<Op>, k: nat)
    requires SeqInv(w, start) && NoOverflow(w, ops) && start <= k < |Run(w, ops).blocks|
    ensures Opening(w, start, ops, k) <= k && NumberedBlock(Run(w, ops).blocks, Opening(w, start, ops, k), k)
    decreases |ops|
  {
    hide SeqInv, Step, NumberedBlocks, NumberedBlock;
    SeqBlocks(w, start);
    if k < |w.blocks| {
      OpenedBefore(w, start, ops, k);
      RunGrows(w, ops);
      BlockStays(w.blocks, Run(w, ops).blocks, start, k);
    } else {
      var w', rest := Step(w, ops[0]).0, ops[1..];
      StepSeq(w, start, ops[0]);
      if k < |w'.blocks| {
        OpenedBefore(w', start, rest, k);
        RunGrows(w', rest);
        BlockStays(w'.blocks, Run(w', rest).blocks, start, k);
      } else {
        RunSeq(w', if ops[0].OpReopen? then |w'.blocks| else start, rest, k);
      }
    }
  }

  /** Each Message of a file, over any number of re-opens, is at most 65535 octets long, at most the configured size
      unless it holds a single record, is left for the next one only when the next record does not fit or has another
      Export Time, has no two adjacent Sets of one template, and its sequence number is the count of records written
      before it for its context since the file was opened for the last time, modulo 2^32. */
  lemma MessagesNumbered(cd: Codec, ops: seq<Op>, k: nat, j: nat)
    requires NoOverflow(Create(cd), ops)
    requires
      var bs := Run(Create(cd), ops).blocks;
      k < |bs| && bs[k].DataB? && j < |bs[k].msgs|
    ensures
      var bs := Run(Create(cd), ops).blocks;
      var m := bs[k].msgs[j];
      var c := Ctx(bs[k].sid, bs[k].odid);
      var from := Opening(Create(cd), 0, ops, k);
      && MsgLen(m) <= 0xFFFF && (|MsgData(m)| > 1 ==> MsgLen(m) <= 1400) && m.odid == c.odid
      && SetsJoined(m) && (j + 1 < |bs[k].msgs| ==> Parted(m, bs[k].msgs[j + 1], 1400))
      && from <= k && m.seqNum == (Flushed(bs[from..k], c) + |AllData(bs[k].msgs[..j])|) % 0x1_0000_0000
  {
    hide Step, Opening, Run;
    CreateSeq(cd);
    RunSeq(Create(cd), 0, ops, k);
    var bs := Run(Create(cd), ops).blocks;
    assert NumberedBlock(bs, Opening(Create(cd), 0, ops, k), k);
    assert j + 1 < |bs[k].msgs| ==> Parted(bs[k].msgs[j + 1 - 1], bs[k].msgs[j + 1], MSG_DEF_SIZE);
    hide MsgLen, SetsJoined, Parted, Flushed;
  }

  /** A new file is one that was opened with no block in it. */
  lemma CreateSeq(cd: Codec)
    ensures SeqInv(Create(cd), 0)
  {
    ReopenSeq(Create(cd));
  }
}
