/** From the calls of a writer, through the octets of the file, to what a reader returns. */
module EndToEnd {
  import opened Bytes
  import opened Templates
  import opened Messages
  import opened DataBuffer
  import opened Status
  import opened Blocks
  import opened DataBlock
  import opened ContentTable
  import opened Writer
  import opened WriterProofs
  import opened WriterRuns
  import opened WriterHistory
  import opened Reference
  import opened FileImage

  /** A record as the reader delivers it. */
  datatype Out = Out(ctx: Ctx, rec: Rec)

  function Tagged(c: Ctx, recs: seq<Rec>): seq<Out>
  {
    seq(|recs|, k requires 0 <= k < |recs| => Out(c, recs[k]))
  }

  /** The records of the listed blocks `es`, in table order; `None` when one of them raises an error. */
  function ReadEntries(cd: Codec, file: Octets, t: Table, es: seq<DataEntry>): Option<seq<Out>>
  {
    if es == [] then Some([])
    else
      match EntryRecs(cd, file, t, es[0])
      case None => None
      case Some(recs) =>
        match ReadEntries(cd, file, t, es[1..])
        case None => None
        case Some(outs) => Some(Tagged(Ctx(es[0].sid, es[0].odid), recs) + outs)
  }

  function OfCtx(o: Out, c: Ctx): seq<Rec>
  {
    if o.ctx == c then [o.rec] else []
  }

  /** The records of one context, in the order in which they come. */
  function Project(outs: seq<Out>, c: Ctx): seq<Rec>
  {
    Concat((o: Out) => OfCtx(o, c), outs)
  }

  lemma {:induction false} ProjectTagged(d: Ctx, recs: seq<Rec>, c: Ctx)
    ensures Project(Tagged(d, recs), c) == if d == c then recs else []
  {
    if recs != [] {
      assert Tagged(d, recs) == [Out(d, recs[0])] + Tagged(d, recs[1..]);
      ProjectTagged(d, recs[1..], c);
    }
  }

  lemma {:induction false} ReadEntriesPush(cd: Codec, file: Octets, t: Table, es: seq<DataEntry>, e: DataEntry)
    requires ReadEntries(cd, file, t, es).Some? && EntryRecs(cd, file, t, e).Some?
    ensures ReadEntries(cd, file, t, es + [e]) ==
      Some(ReadEntries(cd, file, t, es).value + Tagged(Ctx(e.sid, e.odid), EntryRecs(cd, file, t, e).value))
  {
    hide EntryRecs, Tagged;
    var z := Tagged(Ctx(e.sid, e.odid), EntryRecs(cd, file, t, e).value);
    if es == [] {
      assert [e][1..] == [] && es + [e] == [e];
      assert z + [] == [] + z;
    } else {
      assert (es + [e])[1..] == es[1..] + [e] && (es + [e])[0] == es[0];
      ReadEntriesPush(cd, file, t, es[1..], e);
      var x := Tagged(Ctx(es[0].sid, es[0].odid), EntryRecs(cd, file, t, es[0]).value);
      var y := ReadEntries(cd, file, t, es[1..]).value;
      assert x + (y + z) == (x + y) + z;
    }
  }

  /** An entry that raises an error spoils the whole read. */
  lemma {:induction false} ReadEntriesBroken(cd: Codec, file: Octets, t: Table, es: seq<DataEntry>, e: DataEntry)
    requires EntryRecs(cd, file, t, e).None?
    ensures ReadEntries(cd, file, t, es + [e]).None?
  {
    hide EntryRecs, Tagged;
    if es != [] {
      assert (es + [e])[1..] == es[1..] + [e] && (es + [e])[0] == es[0];
      ReadEntriesBroken(cd, file, t, es[1..], e);
    }
  }

  /** A Data Block on disk is read back as the records it was written with. */
  lemma BlockReadsBack(w: Writer, hdr: Octets, tail: Octets, off: nat, b: Block)
    requires Inv(w) && Fits(w) && |hdr| == FILE_HDR_LEN && b.DataB? && Holds(w.codec, w.blocks, off, b)
    ensures
      EntryRecs(w.codec, hdr + Render(w.codec, w.blocks) + tail, w.table, EntryOf(w.codec, off, b)) ==
        if Bounded(w, tail, off, b) then Some(MsgList(b.msgs, b.tmplts)) else None
  {
    BlockAtOff(w, off, b);
    TemplatesFit(w, b.toff, b.sid, b.odid, b.tmplts);
    hide Inv, OpenEntry, EntryOf, Bounded, Render, EncBlock;
    OpensIn(w, hdr, tail, off, b);
    MsgsRoundTrip(b.msgs, b.tmplts);
  }

  /** Behind the blocks there is nothing, or room for a header, or the last of them is no Data Block. */
  predicate Clear(bs: seq<Block>, tail: Octets)
  {
    tail == [] || |tail| >= BHDR_LEN || bs == [] || !Last(bs).DataB?
  }

  /** Only the last block can be followed by a part of a header. */
  lemma BoundedBlock(w: Writer, tail: Octets, k: nat)
    requires Inv(w) && k < |w.blocks|
    requires k + 1 < |w.blocks| || tail == [] || |tail| >= BHDR_LEN
    ensures Bounded(w, tail, FILE_HDR_LEN + |Render(w.codec, w.blocks[..k])|, w.blocks[k])
  {
    RenderSplit(w.codec, w.blocks, k);
    if k + 1 < |w.blocks| {
      RenderSplit(w.codec, w.blocks[k + 1..], 0);
      assert |EncBlock(w.codec, w.blocks[k + 1])| >= BHDR_LEN;
    }
    hide EncBlock;
  }

  lemma {:induction false} PrefixReadsBack(w: Writer, hdr: Octets, tail: Octets, n: nat, c: Ctx)
    requires Inv(w) && Fits(w) && |hdr| == FILE_HDR_LEN && n <= |w.blocks|
    requires n == |w.blocks| ==> Clear(w.blocks, tail)
    ensures
      var r := ReadEntries(w.codec, hdr + Render(w.codec, w.blocks) + tail, w.table,
        Index(w.codec, w.blocks[..n]).blocks);
      r.Some? && Project(r.value, c) == DiskRecs(w.blocks[..n], c)
  {
    hide Inv, EntryRecs, Render, EncBlock, Bounded, Index;
    var file := hdr + Render(w.codec, w.blocks) + tail;
    if n == 0 {
      NothingReads(w, file, c);
    } else {
      var bs, b := w.blocks[..n - 1], w.blocks[n - 1];
      assert w.blocks[..n] == bs + [b];
      PrefixReadsBack(w, hdr, tail, n - 1, c);
      IndexPush(w.codec, bs, b);
      DiskRecsPush(bs, b, c);
      if b.DataB? {
        var off := FILE_HDR_LEN + |Render(w.codec, bs)|;
        assert w.blocks[n - 1] == b && Holds(w.codec, w.blocks, off, b);
        BoundedBlock(w, tail, n - 1);
        BlockReadsBack(w, hdr, tail, off, b);
        var es := Index(w.codec, bs).blocks;
        ReadEntriesPush(w.codec, file, w.table, es, EntryOf(w.codec, off, b));
        ProjectTagged(Ctx(b.sid, b.odid), MsgList(b.msgs, b.tmplts), c);
        ConcatAppend((o: Out) => OfCtx(o, c), ReadEntries(w.codec, file, w.table, es).value,
                     Tagged(Ctx(b.sid, b.odid), MsgList(b.msgs, b.tmplts)));
      }
    }
  }

  lemma NothingReads(w: Writer, file: Octets, c: Ctx)
    ensures
      var r := ReadEntries(w.codec, file, w.table, Index(w.codec, w.blocks[..0]).blocks);
      r.Some? && Project(r.value, c) == DiskRecs(w.blocks[..0], c)
  {
    assert w.blocks[..0] == [];
  }

  // ----- templates stay within the limit of the block format -----

  ghost predicate RawInv(w: Writer)
  {
    && (forall c :: c in w.ctxs ==> RawsFit(w.ctxs[c].tmplts))
    && (forall k :: 0 <= k < |w.blocks| && w.blocks[k].TmpltsB? ==> RawsFit(w.blocks[k].tmplts))
    && |w.table.blocks| <= MAX_BLOCKS
  }

  ghost predicate SmallRaws(ops: seq<Op>)
  {
    forall k :: 0 <= k < |ops| && ops[k].OpTmplt? ==> |ops[k].raw| <= MAX_RAW
  }

  lemma FlushRaw(w: Writer, c: Ctx)
    requires RawInv(w) && c in w.ctxs
    ensures RawInv(Flush(w, c).0) && c in Flush(w, c).0.ctxs
  {
    hide Render, EncBlock, RawsFit;
  }

  lemma {:induction false} FlushSeqRaw(w: Writer, ks: seq<nat>)
    requires RawInv(w)
    ensures RawInv(FlushSeq(w, ks).0)
    decreases |ks|
  {
    hide RawInv, Flush;
    if ks != [] {
      if CtxOf(ks[0]) !in w.ctxs {
        FlushSeqRaw(w, ks[1..]);
      } else {
        FlushRaw(w, CtxOf(ks[0]));
        if Flush(w, CtxOf(ks[0])).1 == Ok {
          FlushSeqRaw(Flush(w, CtxOf(ks[0])).0, ks[1..]);
        }
      }
    }
  }

  lemma AddRecRaw(w: Writer, c: Ctx, data: Octets, t: Template)
    requires RawInv(w) && c in w.ctxs
    ensures RawInv(AddRec(w, c, data, t).0)
  {
    hide Add, AddStatus;
  }

  lemma SetLastRaw(w: Writer, c: Ctx, t: Template)
    requires RawInv(w) && c in w.ctxs
    ensures RawInv(SetOdid(w, c, w.ctxs[c].(last := Some(t))))
  {
  }

  lemma WriteRecRaw(w: Writer, tid: nat, data: Octets)
    requires RawInv(w)
    ensures RawInv(WriteRec(w, tid, data).0)
  {
    hide RawInv, Flush, AddRec, Remains, Lookup;
    if data != [] && w.selected.Some? && w.selected.value in w.ctxs {
      var c := w.selected.value;
      if Lookup(w.ctxs[c], tid).Some? {
        var t := Lookup(w.ctxs[c], tid).value;
        var w1 := SetOdid(w, c, w.ctxs[c].(last := Some(t)));
        SetLastRaw(w, c, t);
        FlushRaw(w1, c);
        AddRecRaw(w1, c, data, t);
        AddRecRaw(Flush(w1, c).0, c, data, t);
      }
    }
  }

  lemma StoreRaw(w: Writer, c: Ctx, ttype: U16, raw: Octets, keepLast: bool)
    requires RawInv(w) && c in w.ctxs && |raw| <= MAX_RAW
    ensures RawInv(StoreTmplt(w, c, ttype, raw, keepLast).0)
  {
    hide ParseFields, MinLength;
  }

  lemma RemoveRaw(w: Writer, tid: nat)
    requires RawInv(w)
    ensures RawInv(TmpltRemove(w, tid).0)
  {
    hide Flush;
    if w.selected.Some? && w.selected.value in w.ctxs {
      FlushRaw(w, w.selected.value);
    }
  }

  lemma TmpltAddRaw(w: Writer, ttype: U16, raw: Octets)
    requires RawInv(w) && |raw| <= MAX_RAW
    ensures RawInv(TmpltAdd(w, ttype, raw).0)
  {
    hide RawInv, Flush, StoreTmplt;
    if raw != [] && w.selected.Some? && w.selected.value in w.ctxs && 2 <= |raw| {
      var c := w.selected.value;
      FlushRaw(w, c);
      StoreRaw(w, c, ttype, raw, true);
      StoreRaw(Flush(w, c).0, c, ttype, raw, false);
    }
  }

  lemma StepRaw(w: Writer, op: Op)
    requires RawInv(w) && (op.OpTmplt? ==> |op.raw| <= MAX_RAW)
    ensures RawInv(Step(w, op).0)
  {
    hide TmpltAdd, TmpltRemove, WriteRec, FlushAll;
    match op
    case OpSession(s) => hide EncSession;
    case OpSelect(sid, odid, etime) =>
    case OpTmplt(ttype, raw) => TmpltAddRaw(w, ttype, raw);
    case OpRemove(tid) => RemoveRaw(w, tid);
    case OpRec(tid, data) => WriteRecRaw(w, tid, data);
    case OpReopen => FlushAllRaw(w);
  }

  lemma FlushAllRaw(w: Writer)
    requires RawInv(w)
    ensures RawInv(FlushAll(w).0)
  {
    hide RawInv;
    FlushSeqRaw(w, Sorted(CtxKeys(w)));
  }

  lemma {:induction false} RunRaw(w: Writer, ops: seq<Op>)
    requires RawInv(w) && SmallRaws(ops)
    ensures RawInv(Run(w, ops))
    decreases |ops|
  {
    hide RawInv, Step;
    if ops != [] {
      StepRaw(w, ops[0]);
      RunRaw(Step(w, ops[0]).0, ops[1..]);
    }
  }

  // ----- the main result -----

  /** The writer at the end of a run, all buffers flushed by its destructor. */
  function Closed(cd: Codec, ops: seq<Op>): Writer
  {
    FlushAll(Run(Create(cd), ops)).0
  }

  /** A run that closed its file within the limits of the format. */
  ghost predicate Completes(cd: Codec, ops: seq<Op>)
  {
    && CodecOk(cd) && SmallRaws(ops) && NoOverflow(Create(cd), ops) && FlushAll(Run(Create(cd), ops)).1 == Ok
    && Closed(cd, ops).offset < 0x8000_0000_0000_0000
  }

  lemma ClosedFits(cd: Codec, ops: seq<Op>)
    requires Completes(cd, ops)
    ensures Inv(Closed(cd, ops)) && Fits(Closed(cd, ops))
    ensures forall c :: DiskRecs(Closed(cd, ops).blocks, c) == History(Create(cd), ops, c)
  {
    hide Inv, DiskRecs, Contents, FlushAll;
    var w := Create(cd);
    CreateInv(cd);
    RunInv(w, ops);
    RunRaw(w, ops);
    FlushAllKeeps(Run(w, ops));
    FlushAllRaw(Run(w, ops));
    forall c ensures DiskRecs(Closed(cd, ops).blocks, c) == History(w, ops, c) {
      RunContents(w, ops, c);
    }
  }

  /** What the closed file holds for a context is what the calls alone say. */
  lemma ClosedHoldsLog(cd: Codec, ops: seq<Op>, c: Ctx)
    requires Completes(cd, ops)
    ensures DiskRecs(Closed(cd, ops).blocks, c) == Log(NEW_CLIENT, ops, c)
  {
    hide Inv, Looks, DiskRecs, Closed, History, Log, NoOverflow;
    ClosedFits(cd, ops);
    CreateInv(cd);
    NewLooks(cd);
    HistoryIsLog(Create(cd), NEW_CLIENT, ops, c);
  }

  /** An unfiltered read of the closed file raises no error and returns, for each Session and ODID, exactly
      the records that the calls say are written, in the order of the calls, each with its octets, its Export
      Time and the template in force when it was written. */
  lemma ReadsWhatWasWritten(cd: Codec, ops: seq<Op>, rest: Octets, c: Ctx)
    requires Completes(cd, ops)
    ensures
      var w := Closed(cd, ops);
      var r := ReadEntries(cd, Image(w, rest), w.table, w.table.blocks);
      r.Some? && Project(r.value, c) == Log(NEW_CLIENT, ops, c)
  {
    hide Inv, Fits, Image, Completes, DiskRecs, History, Log, Closed, ReadEntries;
    ClosedFits(cd, ops);
    ClosedHoldsLog(cd, ops, c);
    var w := Closed(cd, ops);
    SameCodec(cd, ops);
    TableOfAll(w);
    ImageParts(w, rest);
    TableIsLong(w.table);
    PrefixReadsBack(w, FileHeader(AlgOf(w.codec), w.offset), EncTable(w.table) + rest, |w.blocks|, c);
    assert w.blocks[..|w.blocks|] == w.blocks;
  }

  lemma TableOfAll(w: Writer)
    requires Inv(w)
    ensures w.table == Index(w.codec, w.blocks)
  {
  }

  lemma FlushCodec(w: Writer, c: Ctx)
    requires c in w.ctxs
    ensures Flush(w, c).0.codec == w.codec
  {
  }

  lemma {:induction false} FlushSeqCodec(w: Writer, ks: seq<nat>)
    ensures FlushSeq(w, ks).0.codec == w.codec
    decreases |ks|
  {
    hide Flush;
    if ks != [] {
      if CtxOf(ks[0]) !in w.ctxs {
        FlushSeqCodec(w, ks[1..]);
      } else {
        FlushCodec(w, CtxOf(ks[0]));
        FlushSeqCodec(Flush(w, CtxOf(ks[0])).0, ks[1..]);
      }
    }
  }

  lemma StepCodec(w: Writer, op: Op)
    ensures Step(w, op).0.codec == w.codec
  {
    match op
    case OpSession(s) =>
    case OpSelect(sid, odid, etime) =>
    case OpTmplt(ttype, raw) =>
      hide Flush, Parse;
      if w.selected.Some? && w.selected.value in w.ctxs {
        FlushCodec(w, w.selected.value);
      }
    case OpRemove(tid) =>
      hide Flush;
      if w.selected.Some? && w.selected.value in w.ctxs {
        FlushCodec(w, w.selected.value);
      }
    case OpRec(tid, data) => WriteRecCodec(w, tid, data);
    case OpReopen =>
      hide FlushSeq, Sorted;
      FlushSeqCodec(w, Sorted(CtxKeys(w)));
  }

  lemma WriteRecCodec(w: Writer, tid: nat, data: Octets)
    ensures WriteRec(w, tid, data).0.codec == w.codec
  {
    hide Flush, Add, AddStatus, Remains;
    if w.selected.Some? && w.selected.value in w.ctxs {
      var c := w.selected.value;
      if Lookup(w.ctxs[c], tid).Some? {
        FlushCodec(SetOdid(w, c, w.ctxs[c].(last := Some(Lookup(w.ctxs[c], tid).value))), c);
        FlushStatusKeys(SetOdid(w, c, w.ctxs[c].(last := Some(Lookup(w.ctxs[c], tid).value))), c);
      }
    }
  }

  lemma FlushStatusKeys(w: Writer, c: Ctx)
    requires c in w.ctxs
    ensures c in Flush(w, c).0.ctxs
  {
  }

  lemma {:induction false} RunCodec(w: Writer, ops: seq<Op>)
    ensures Run(w, ops).codec == w.codec
    decreases |ops|
  {
    hide Step;
    if ops != [] {
      StepCodec(w, ops[0]);
      RunCodec(Step(w, ops[0]).0, ops[1..]);
    }
  }

  lemma SameCodec(cd: Codec, ops: seq<Op>)
    ensures Closed(cd, ops).codec == cd
  {
    RunCodec(Create(cd), ops);
    FlushSeqCodec(Run(Create(cd), ops), Sorted(CtxKeys(Run(Create(cd), ops))));
  }
}
