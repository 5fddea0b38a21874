/** What a reader delivers from a file that was never closed. */
module Recovery {
  import opened Bytes
  import opened Templates
  import opened Messages
  import opened DataBuffer
  import opened Status
  import opened Blocks
  import opened DataBlock
  import opened ContentTable
  import opened Writer
  import opened WriterProofs
  import opened WriterRuns
  import opened WriterHistory
  import opened Reference
  import opened FileImage
  import opened EndToEnd
  import opened Reopening
  import opened Rebuild
  import opened Reading

  // ----- every prefix of the blocks is what some writer has written -----

  ghost predicate HasWriter(cd: Codec, bs: seq<Block>)
  {
    exists v: Writer :: Inv(v) && v.codec == cd && v.blocks == bs
  }

  /** The blocks were appended one by one, each by a writer in a proper state. */
  ghost predicate Stepwise(cd: Codec, bs: seq<Block>)
  {
    forall r: nat :: r <= |bs| ==> HasWriter(cd, bs[..r])
  }

  lemma StepwisePush(bs: seq<Block>, w: Writer)
    requires Inv(w) && Stepwise(w.codec, bs) && bs <= w.blocks && |w.blocks| <= |bs| + 1
    ensures Stepwise(w.codec, w.blocks)
  {
    hide Inv;
    forall r: nat | r <= |w.blocks| ensures HasWriter(w.codec, w.blocks[..r]) {
      if r <= |bs| {
        assert w.blocks[..r] == bs[..r];
      } else {
        assert w.blocks[..r] == w.blocks;
      }
    }
  }

  lemma FlushStepwise(w: Writer, c: Ctx)
    requires Inv(w) && c in w.ctxs && Stepwise(w.codec, w.blocks)
    ensures Stepwise(w.codec, Flush(w, c).0.blocks)
  {
    hide Inv, Stepwise, EncBlock;
    if w.ctxs[c].data.recCnt != 0 {
      var w1 := FlushTmplts(w, c);
      FlushTmpltsInv(w, c);
      FlushTmpltsFrame(w, c);
      StepwisePush(w.blocks, w1);
      FlushDataInv(w1, c);
      StepwisePush(w1.blocks, FlushData(w1, c).0);
    }
  }

  lemma {:induction false} FlushSeqStepwise(w: Writer, ks: seq<nat>)
    requires Inv(w) && Stepwise(w.codec, w.blocks)
    ensures Stepwise(w.codec, FlushSeq(w, ks).0.blocks)
    decreases |ks|
  {
    hide Inv, Stepwise, Flush;
    if ks != [] {
      var c := CtxOf(ks[0]);
      if c !in w.ctxs {
        FlushSeqStepwise(w, ks[1..]);
      } else {
        FlushStepwise(w, c);
        FlushInv(w, c);
        FlushCodec(w, c);
        FlushSeqStepwise(Flush(w, c).0, ks[1..]);
      }
    }
  }

  lemma WriteRecStepwise(w: Writer, tid: nat, data: Data16)
    requires Inv(w) && Stepwise(w.codec, w.blocks)
    ensures Stepwise(w.codec, WriteRec(w, tid, data).0.blocks)
  {
    hide Inv, Stepwise, Flush, Remains, WriteRec;
    if data == [] || w.selected.None? {
      NoRecord(w, tid, data);
    } else {
      WriteRecIs(w, tid, data);
      var c := w.selected.value;
      if tid in w.ctxs[c].tmplts {
        FlushStepwise(SetOdid(w, c, w.ctxs[c].(last := Some(w.ctxs[c].tmplts[tid]))), c);
      }
    }
  }

  lemma NoRecord(w: Writer, tid: nat, data: Octets)
    requires data == [] || w.selected.None?
    ensures WriteRec(w, tid, data).0 == w
  {
  }

  lemma StepStepwise(w: Writer, op: Op)
    requires Inv(w) && Stepwise(w.codec, w.blocks)
    ensures Stepwise(w.codec, Step(w, op).0.blocks)
  {
    hide Inv, Stepwise, Flush, Parse, Remains, FlushSeq, Sorted, Render, EncBlock, WriteRec;
    match op
    case OpSession(s) =>
      SessionAddKeeps(w, s);
      StepwisePush(w.blocks, SessionAdd(w, s).0);
    case OpSelect(_, _, _) =>
    case OpTmplt(_, _) => if w.selected.Some? && w.selected.value in w.ctxs { FlushStepwise(w, w.selected.value); }
    case OpRemove(_) => if w.selected.Some? && w.selected.value in w.ctxs { FlushStepwise(w, w.selected.value); }
    case OpRec(tid, data) => WriteRecStepwise(w, tid, data);
    case OpReopen => FlushSeqStepwise(w, Sorted(CtxKeys(w)));
  }

  lemma {:induction false} RunStepwise(w: Writer, ops: seq<Op>)
    requires Inv(w) && Stepwise(w.codec, w.blocks)
    ensures Stepwise(w.codec, Run(w, ops).blocks)
    decreases |ops|
  {
    hide Inv, Stepwise, Step;
    if ops != [] {
      StepStepwise(w, ops[0]);
      StepInv(w, ops[0]);
      StepCodec(w, ops[0]);
      RunStepwise(Step(w, ops[0]).0, ops[1..]);
    }
  }

  /** The writer that had written the first `r` blocks. */
  lemma WriterOf(cd: Codec, ops: seq<Op>, r: nat) returns (v: Writer)
    requires CodecOk(cd) && r <= |Run(Create(cd), ops).blocks|
    ensures Inv(v) && v.codec == cd && v.blocks == Run(Create(cd), ops).blocks[..r]
  {
    hide Inv, Run;
    CreateInv(cd);
    StepwisePush([], Create(cd)) by {
      assert HasWriter(cd, []) by { assert Create(cd).blocks == []; }
      assert Stepwise(cd, []);
    }
    RunStepwise(Create(cd), ops);
    assert HasWriter(cd, Run(Create(cd), ops).blocks[..r]);
    v :| Inv(v) && v.codec == cd && v.blocks == Run(Create(cd), ops).blocks[..r];
  }

  // ----- a file cut anywhere -----

  /** The first `n` octets of the file of a writer that has not closed it. */
  function CutFile(w: Writer, n: nat): Octets
    requires n <= FILE_HDR_LEN + |Render(w.codec, w.blocks)|
  {
    (FileHeader(AlgOf(w.codec), 0) + Render(w.codec, w.blocks))[..n]
  }

  /** The last one of the first `r` blocks is a Data Block, and the file ends in the header of the next one. */
  predicate Torn(cd: Codec, bs: seq<Block>, n: nat, r: nat)
    requires r <= |bs|
  {
    r > 0 && bs[r - 1].DataB? && Start(cd, bs, r) < n < Start(cd, bs, r) + BHDR_LEN
  }

  /** Where the scan stops, what lies behind the blocks it has passed over is left out. */
  lemma CutParts(v: Writer, w: Writer, n: nat, r: nat) returns (tail: Octets)
    requires Inv(w) && Inv(v) && v.codec == w.codec && r <= |w.blocks| && v.blocks == w.blocks[..r]
    requires v.offset <= n <= w.offset
    ensures n <= FILE_HDR_LEN + |Render(w.codec, w.blocks)| && v.offset == Start(w.codec, w.blocks, r)
    ensures CutFile(w, n) == FileHeader(AlgOf(w.codec), 0) + Render(v.codec, v.blocks) + tail
    ensures |tail| == n - v.offset
  {
    hide Inv, EncBlock, FileHeader;
    OffsetOf(w);
    OffsetOf(v);
    var hdr, front, back := FileHeader(AlgOf(w.codec), 0), Render(w.codec, w.blocks[..r]),
      Render(w.codec, w.blocks[r..]);
    assert w.blocks[..r] + w.blocks[r..] == w.blocks;
    ConcatAppend((b: Block) => EncBlock(w.codec, b), w.blocks[..r], w.blocks[r..]);
    hide Render;
    tail := back[..n - v.offset];
    assert (hdr + (front + back))[..n] == hdr + front + tail;
  }

  /** A prefix of the blocks is within the limits that all of them are within. */
  lemma PrefixFits(v: Writer, w: Writer, r: nat)
    requires Inv(w) && Inv(v) && Fits(w) && v.codec == w.codec && r <= |w.blocks| && v.blocks == w.blocks[..r]
    ensures Fits(v) && v.table == Index(w.codec, w.blocks[..r])
  {
    hide Inv, Render, EncBlock, RawsFit, Index;
    OffsetOf(v);
    StartIs(w.codec, w.blocks, r);
    StartsRise(w, r, |w.blocks|);
    TableOfAll(v);
    TableOfAll(w);
    IndexPrefix(w.codec, w.blocks, r);
  }

  lemma ScanReaches(w: Writer, n: nat)
    requires Inv(w) && FILE_HDR_LEN <= n <= w.offset
    ensures Start(w.codec, w.blocks, Scanned(w.codec, w.blocks, n, 0)) <= n
  {
    hide Inv, Start, Cut;
    var r := Scanned(w.codec, w.blocks, n, 0);
    ScannedIs(w.codec, w.blocks, n, 0);
    if r > 0 {
      NotCut(w.codec, w.blocks, n, r - 1);
    } else {
      NoStart(w.codec, w.blocks);
    }
  }

  /** A last Data Block that is followed by a part of a header cannot be read. */
  lemma TornReads(v: Writer, hdr: Octets, tail: Octets)
    requires Inv(v) && Fits(v) && |hdr| == FILE_HDR_LEN && !Clear(v.blocks, tail)
    ensures ReadEntries(v.codec, hdr + Render(v.codec, v.blocks) + tail, v.table, Index(v.codec, v.blocks).blocks).None?
  {
    hide Inv, Fits, Render, EncBlock, EntryRecs, Index, ReadEntries;
    var n := |v.blocks| - 1;
    var bs, b := v.blocks[..n], v.blocks[n];
    assert v.blocks == bs + [b];
    var off := FILE_HDR_LEN + |Render(v.codec, bs)|;
    assert v.blocks[n] == b && Holds(v.codec, v.blocks, off, b);
    IndexPush(v.codec, bs, b);
    OffsetOf(v);
    RenderPush(v.codec, bs, b);
    BlockReadsBack(v, hdr, tail, off, b);
    ReadEntriesBroken(v.codec, hdr + Render(v.codec, v.blocks) + tail, v.table, Index(v.codec, bs).blocks,
                      EntryOf(v.codec, off, b));
  }

  lemma CutHeader(w: Writer, n: nat)
    requires CodecOk(w.codec) && FILE_HDR_LEN <= n <= FILE_HDR_LEN + |Render(w.codec, w.blocks)|
    ensures LoadHeader(CutFile(w, n)) == Some(HeaderInfo(FILE_VERSION, AlgOf(w.codec), 0))
  {
    hide LoadHeader, FileHeader, Render;
    var hdr, body := FileHeader(AlgOf(w.codec), 0), Render(w.codec, w.blocks);
    assert (hdr + body)[..n] == hdr + body[..n - FILE_HDR_LEN];
    HeaderRoundTrip(AlgOf(w.codec), 0, body[..n - FILE_HDR_LEN]);
  }

  /** What is on disk is the beginning of what the calls say. */
  lemma DiskIsLog(cd: Codec, ops: seq<Op>, r: nat, c: Ctx)
    requires CodecOk(cd) && NoOverflow(Create(cd), ops) && r <= |Run(Create(cd), ops).blocks|
    ensures DiskRecs(Run(Create(cd), ops).blocks[..r], c) <= Log(NEW_CLIENT, ops, c)
  {
    hide Inv, Looks, Run, History, Log, NoOverflow, WriterProofs.Buffered, RecsFor;
    var w := Run(Create(cd), ops);
    CreateInv(cd);
    NewLooks(cd);
    RunContents(Create(cd), ops, c);
    HistoryIsLog(Create(cd), NEW_CLIENT, ops, c);
    NewIsEmpty(cd, c);
    assert w.blocks == w.blocks[..r] + w.blocks[r..];
    ConcatAppend((b: Block) => RecsFor(b, c), w.blocks[..r], w.blocks[r..]);
    assert [] + History(Create(cd), ops, c) == History(Create(cd), ops, c);
  }

  lemma NewIsEmpty(cd: Codec, c: Ctx)
    ensures Contents(Create(cd), c) == []
  {
  }

  /** Whatever the calls, re-opens included, and wherever the file ends: the reader opens it with the table of the
      blocks that the scan has passed over, and each context delivers exactly the records of these blocks, the
      beginning of its log. All of them can be read if and only if the file does not end within the header behind the
      last Data Block. */
  lemma RecoversExactly(cd: Codec, ops: seq<Op>, n: nat, c: Ctx)
    requires CodecOk(cd) && NoOverflow(Create(cd), ops) && SmallRaws(ops)
    requires var w := Run(Create(cd), ops); FILE_HDR_LEN <= n <= w.offset < 0x8000_0000_0000_0000
    ensures
      var w := Run(Create(cd), ops);
      var r := Scanned(cd, w.blocks, n, 0);
      var t := Index(cd, w.blocks[..r]);
      && w.codec == cd && w.offset == FILE_HDR_LEN + |Render(cd, w.blocks)|
      && TableOf(CutFile(w, n)) == Some(t)
      && var read := ReadEntries(cd, CutFile(w, n), t, t.blocks);
      && (read.Some? <==> !Torn(cd, w.blocks, n, r))
      && (read.Some? ==> Project(read.value, c) == DiskRecs(w.blocks[..r], c))
      && DiskRecs(w.blocks[..r], c) <= Log(NEW_CLIENT, ops, c)
  {
    hide Inv, Run, NoOverflow, SmallRaws, Fits, RawInv, Render, Index, ReadEntries, Project, DiskRecs, Log;
    hide CutFile, ScanFile, LoadHeader, LoadTable, CodecOk, Start;
    var w := Run(Create(cd), ops);
    CreateInv(cd);
    RunInv(Create(cd), ops);
    RunCodec(Create(cd), ops);
    RunIsRaw(cd, ops);
    RawFits(w);
    OffsetOf(w);
    var r := Scanned(cd, w.blocks, n, 0);
    ScanReaches(w, n);
    var v := WriterOf(cd, ops, r);
    PrefixFits(v, w, r);
    OffsetOf(v);
    StartIs(cd, w.blocks, r);
    var tail := CutParts(v, w, n, r);
    CutHeader(w, n);
    RebuildsCut(w, n);
    var hdr := FileHeader(AlgOf(cd), 0);
    assert v.blocks[..r] == v.blocks;
    if Clear(v.blocks, tail) {
      PrefixReadsBack(v, hdr, tail, r, c);
    } else {
      TornReads(v, hdr, tail);
    }
    DiskIsLog(cd, ops, r, c);
  }

  /** Behind the blocks of an append there may be the rest of an older table: where the scan makes nothing of it (see
      `RemnantExactly`), every context delivers all that is on disk. */
  lemma RecoversAll(cd: Codec, ops: seq<Op>, tail: Octets, c: Ctx)
    requires CodecOk(cd) && NoOverflow(Create(cd), ops) && SmallRaws(ops)
    requires Run(Create(cd), ops).offset < 0x8000_0000_0000_0000
    requires
      var w := Run(Create(cd), ops);
      var file := FileHeader(AlgOf(cd), 0) + Render(cd, w.blocks) + tail;
      ScanFile(file) == Rebuilt(w.table) && Clear(w.blocks, tail)
    ensures
      var w := Run(Create(cd), ops);
      var file := FileHeader(AlgOf(cd), 0) + Render(cd, w.blocks) + tail;
      && TableOf(file) == Some(w.table)
      && var read := ReadEntries(cd, file, w.table, w.table.blocks);
      && read.Some? && Project(read.value, c) == DiskRecs(w.blocks, c)
      && Project(read.value, c) <= Log(NEW_CLIENT, ops, c)
  {
    hide Inv, Run, NoOverflow, SmallRaws, Fits, RawInv, Render, Index, ReadEntries, Project, DiskRecs, Log;
    hide ScanFile, LoadHeader, LoadTable, FileHeader, Clear;
    var w := Run(Create(cd), ops);
    CreateInv(cd);
    RunInv(Create(cd), ops);
    RunCodec(Create(cd), ops);
    RunIsRaw(cd, ops);
    RawFits(w);
    TableOfAll(w);
    var hdr := FileHeader(AlgOf(cd), 0);
    HeaderRoundTrip(AlgOf(cd), 0, Render(cd, w.blocks) + tail);
    assert hdr + Render(cd, w.blocks) + tail == hdr + (Render(cd, w.blocks) + tail);
    assert w.blocks[..|w.blocks|] == w.blocks;
    PrefixReadsBack(w, hdr, tail, |w.blocks|, c);
    DiskIsLog(cd, ops, |w.blocks|, c);
  }

  lemma RebuildsCut(w: Writer, n: nat)
    requires Inv(w) && Fits(w) && n <= w.offset
    ensures n <= FILE_HDR_LEN + |Render(w.codec, w.blocks)|
    ensures ScanFile(CutFile(w, n)) == Rebuilt(Index(w.codec, w.blocks[..Scanned(w.codec, w.blocks, n, 0)]))
  {
    hide Inv, ScanFile, Index, Render, FileHeader;
    OffsetOf(w);
    RebuildsPrefix(w, FileHeader(AlgOf(w.codec), 0), n);
  }

  lemma RunIsRaw(cd: Codec, ops: seq<Op>)
    requires SmallRaws(ops)
    ensures RawInv(Run(Create(cd), ops))
  {
    hide Run;
    RunRaw(Create(cd), ops);
  }

  lemma RawFits(w: Writer)
    requires RawInv(w) && w.offset < 0x8000_0000_0000_0000
    ensures Fits(w)
  {
  }
}
