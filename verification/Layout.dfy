/** The layout of a file over any number of rounds of opening, appending and closing. */
module Layout {
  import opened Bytes
  import opened Templates
  import opened Messages
  import opened Status
  import opened DataBuffer
  import opened Blocks
  import opened DataBlock
  import opened ContentTable
  import opened Writer
  import opened WriterProofs
  import opened WriterRuns
  import opened WriterHistory
  import opened EndToEnd
  import opened Reopening

  lemma FlushGrows(w: Writer, c: Ctx)
    requires c in w.ctxs
    ensures w.blocks <= Flush(w, c).0.blocks && c in Flush(w, c).0.ctxs
  {
  }

  lemma {:induction false} FlushSeqGrows(w: Writer, ks: seq<nat>)
    ensures w.blocks <= FlushSeq(w, ks).0.blocks
    decreases |ks|
  {
    hide Flush;
    if ks != [] {
      if CtxOf(ks[0]) !in w.ctxs {
        FlushSeqGrows(w, ks[1..]);
      } else {
        FlushGrows(w, CtxOf(ks[0]));
        FlushSeqGrows(Flush(w, CtxOf(ks[0])).0, ks[1..]);
      }
    }
  }

  lemma StepGrows(w: Writer, op: Op)
    ensures w.blocks <= Step(w, op).0.blocks
  {
    hide Flush, Parse, Add, AddStatus, Remains, FlushSeq, Sorted, Render;
    match op
    case OpSession(_) =>
    case OpSelect(_, _, _) =>
    case OpTmplt(_, _) => if w.selected.Some? && w.selected.value in w.ctxs { FlushGrows(w, w.selected.value); }
    case OpRemove(_) => if w.selected.Some? && w.selected.value in w.ctxs { FlushGrows(w, w.selected.value); }
    case OpRec(tid, data) => WriteRecGrows(w, tid, data);
    case OpReopen => FlushSeqGrows(w, Sorted(CtxKeys(w)));
  }

  lemma WriteRecGrows(w: Writer, tid: nat, data: Octets)
    ensures w.blocks <= WriteRec(w, tid, data).0.blocks
  {
    hide Flush, Add, AddStatus, Remains;
    if w.selected.Some? && w.selected.value in w.ctxs {
      var c := w.selected.value;
      if Lookup(w.ctxs[c], tid).Some? {
        FlushGrows(SetOdid(w, c, w.ctxs[c].(last := Some(Lookup(w.ctxs[c], tid).value))), c);
      }
    }
  }

  lemma {:induction false} RunGrows(w: Writer, ops: seq<Op>)
    ensures w.blocks <= Run(w, ops).blocks
    decreases |ops|
  {
    hide Step;
    if ops != [] {
      StepGrows(w, ops[0]);
      RunGrows(Step(w, ops[0]).0, ops[1..]);
    }
  }

  /** Whatever is called, re-opening included, the octets of all blocks that were written stay where they are:
      nothing that the Content Table lists is ever overwritten. */
  lemma NothingOverwritten(cd: Codec, ops: seq<Op>, more: seq<Op>)
    ensures
      var w, w' := Run(Create(cd), ops), Run(Run(Create(cd), ops), more);
      && w.blocks <= w'.blocks
      && Render(cd, w.blocks) <= Render(cd, w'.blocks)
  {
    var w := Run(Create(cd), ops);
    var w' := Run(w, more);
    RunGrows(w, more);
    hide Run;
    assert w'.blocks == w.blocks + w'.blocks[|w.blocks|..];
    ConcatAppend((b: Block) => EncBlock(cd, b), w.blocks, w'.blocks[|w.blocks|..]);
  }

  /** In every reachable state the Session IDs are exactly 1 to n, each description has one of them, and the two
      maps between IDs and descriptions are inverse to each other. */
  lemma SessionIdsExact(cd: Codec, ops: seq<Op>)
    requires CodecOk(cd)
    ensures
      var w := Run(Create(cd), ops);
      && |w.sessions| <= MAX_SESSIONS
      && (forall k :: k in w.sessions <==> 1 <= k <= |w.sessions|)
      && (forall k :: k in w.sessions ==> w.sessions[k].session in w.ids && w.ids[w.sessions[k].session] == k)
      && (forall s :: s in w.ids ==> w.ids[s] in w.sessions && w.sessions[w.ids[s]].session == s)
  {
    CreateInv(cd);
    RunInv(Create(cd), ops);
    hide Run, SessBlocks, BlocksOk, OdidsOk, Index, Render;
  }

  /** In every reachable state the blocks are disjoint, in the order in which they were written, between the
      file header and the write offset; the lists of the Content Table are in ascending order of offsets. */
  lemma LaidOut(cd: Codec, ops: seq<Op>, i: nat, k: nat)
    requires CodecOk(cd)
    ensures
      var w := Run(Create(cd), ops);
      && (i < k <= |w.blocks| ==>
            FILE_HDR_LEN <= Start(cd, w.blocks, i)
            && Start(cd, w.blocks, i) + |EncBlock(cd, w.blocks[i])| <= Start(cd, w.blocks, k) <= w.offset)
      && (i < k < |w.table.sessions| ==> w.table.sessions[i].off + w.table.sessions[i].len <= w.table.sessions[k].off)
      && (i < k < |w.table.blocks| ==> w.table.blocks[i].off + w.table.blocks[i].len <= w.table.blocks[k].off)
  {
    hide Run, Inv, Start, EncBlock;
    var w := Run(Create(cd), ops);
    CreateInv(cd);
    RunInv(Create(cd), ops);
    RunCodec(Create(cd), ops);
    if i < k <= |w.blocks| { BlocksInOrder(w, i, k); }
    if i < k < |w.table.sessions| { SessionsAscend(w, i, k); }
    if i < k < |w.table.blocks| { EntriesAscend(w, i, k); }
  }

  /** Position among the blocks of the entry `i` of the session list. */
  lemma SessionBlock(w: Writer, i: nat) returns (p: nat)
    requires Inv(w) && i < |w.table.sessions|
    ensures p < |w.blocks| && w.table.sessions[i].off == Start(w.codec, w.blocks, p)
    ensures w.table.sessions[i].len == |EncBlock(w.codec, w.blocks[p])| == SESSION_LEN
    ensures |Index(w.codec, w.blocks[..p]).sessions| == i
  {
    hide EncBlock, Render, BlocksOk, OdidsOk, Index;
    assert i + 1 in w.sessions;
    var s := w.sessions[i + 1];
    assert w.table.sessions[(i + 1) - 1] == SessEntry(s.off, SESSION_LEN, i + 1);
    p :| 0 <= p < |w.blocks| && w.blocks[p] == SessionB(i + 1, s.session)
         && s.off == FILE_HDR_LEN + |Render(w.codec, w.blocks[..p])|;
    SessionLength(w.codec, w.blocks[p]);
    NextSid(w, p);
  }

  lemma SessionsMono(cd: Codec, bs: seq<Block>, q: nat, p: nat)
    requires q <= p <= |bs|
    ensures |Index(cd, bs[..q]).sessions| <= |Index(cd, bs[..p]).sessions|
  {
    hide Index;
    assert bs[..p][..q] == bs[..q];
    IndexPrefix(cd, bs[..p], q);
  }

  lemma SessionsAscend(w: Writer, i: nat, k: nat)
    requires Inv(w) && i < k < |w.table.sessions|
    ensures w.table.sessions[i].off + w.table.sessions[i].len <= w.table.sessions[k].off
  {
    hide Inv, EncBlock, Start, Index;
    var p := SessionBlock(w, i);
    var q := SessionBlock(w, k);
    if q <= p { SessionsMono(w.codec, w.blocks, q, p); }
    BlocksInOrder(w, p, q);
  }

  lemma {:induction false} EntriesAscend(w: Writer, i: nat, k: nat)
    requires Inv(w) && i < k < |w.table.blocks|
    ensures w.table.blocks[i].off + w.table.blocks[i].len <= w.table.blocks[k].off
    decreases k - i
  {
    hide Inv;
    EntriesInOrder(w, i);
    if i + 1 < k {
      EntriesInOrder(w, i + 1);
      EntriesAscend(w, i + 1, k);
    }
  }
}
