/** The history of a whole run against what the writer holds at its end. */
module WriterHistory {
  import opened Bytes
  import opened Templates
  import opened Messages
  import opened DataBuffer
  import opened Status
  import opened Blocks
  import opened DataBlock
  import opened ContentTable
  import opened Writer
  import opened WriterProofs
  import opened WriterRuns

  // ----- flush_all -----

  lemma KeyRoundTrip(c: Ctx)
    ensures CtxOf(CtxKey(c)) == c
  {
    var k := CtxKey(c);
    assert k / 0x1_0000_0000 == c.sid && k % 0x1_0000_0000 == c.odid;
  }

  /** The contexts in `ks` are empty behind `FlushSeq`, and one that was empty stays so. */
  lemma {:induction false} FlushSeqKeeps(w: Writer, ks: seq<nat>)
    requires Inv(w)
    ensures Inv(FlushSeq(w, ks).0)
    ensures FlushSeq(w, ks).1 == Ok || FlushSeq(w, ks).1 == ErrInternal
    ensures FlushSeq(w, ks).1 == Ok ==>
      var w' := FlushSeq(w, ks).0;
      && w'.ctxs.Keys == w.ctxs.Keys
      && (forall c :: c in w.ctxs && (w.ctxs[c].data.msgs == [] || CtxKey(c) in ks) ==> w'.ctxs[c].data.msgs == [])
      && (forall d :: Contents(w', d) == Contents(w, d))
    decreases |ks|
  {
    hide Inv, Flush, Contents;
    if ks != [] {
      var c := CtxOf(ks[0]);
      if c !in w.ctxs {
        FlushSeqKeeps(w, ks[1..]);
        forall d | d in w.ctxs && CtxKey(d) == ks[0] ensures false { KeyRoundTrip(d); }
      } else {
        FlushMakesRoom(w, c, 0);
        FlushOthers(w, c);
        var w1 := Flush(w, c).0;
        if Flush(w, c).1 == Ok {
          FlushSeqKeeps(w1, ks[1..]);
          forall d ensures Contents(w1, d) == Contents(w, d) { FlushContents(w, c, d); }
          forall d | d in w.ctxs && CtxKey(d) == ks[0] ensures d == c { KeyRoundTrip(d); }
        }
      }
    }
  }

  lemma FlushOthers(w: Writer, c: Ctx)
    requires Inv(w) && c in w.ctxs
    ensures forall d :: d in w.ctxs && d != c ==> d in Flush(w, c).0.ctxs && Flush(w, c).0.ctxs[d] == w.ctxs[d]
  {
    hide Flush;
    OdidOf(w, c);
    FlushFrame(w, c);
  }

  /** After a successful close every record is on disk. */
  lemma FlushAllKeeps(w: Writer)
    requires Inv(w)
    ensures Inv(FlushAll(w).0)
    ensures FlushAll(w).1 == Ok || FlushAll(w).1 == ErrInternal
    ensures FlushAll(w).1 == Ok ==> forall d :: DiskRecs(FlushAll(w).0.blocks, d) == Contents(w, d)
  {
    hide Inv, DiskRecs;
    var w' := FlushAll(w).0;
    FlushSeqKeeps(w, Sorted(CtxKeys(w)));
    if FlushAll(w).1 == Ok {
      forall d ensures DiskRecs(w'.blocks, d) == Contents(w, d) {
        if d in w.ctxs {
          assert CtxKey(d) in CtxKeys(w);
          assert Buffered(w', d) == [];
        }
        assert Contents(w', d) == Contents(w, d);
      }
    }
  }

  lemma ReopenKeeps(w: Writer)
    requires Inv(w)
    ensures Inv(Reopen(w))
    ensures forall d :: Contents(Reopen(w), d) == DiskRecs(w.blocks, d)
  {
  }

  // ----- steps and runs -----

  /** The record that step `op` writes for context `c`. */
  function NewRec(w: Writer, op: Op, c: Ctx): seq<Rec>
  {
    if op.OpRec? then Added(w, op.rid, op.data, c) else []
  }

  /** All records written for `c` in a run, in the order of the calls, each with the Export Time and the
      template in force at its call. */
  function History(w: Writer, ops: seq<Op>, c: Ctx): seq<Rec>
    decreases |ops|
  {
    if ops == [] then [] else NewRec(w, ops[0], c) + History(Step(w, ops[0]).0, ops[1..], c)
  }

  lemma StepInv(w: Writer, op: Op)
    requires Inv(w)
    ensures Inv(Step(w, op).0)
  {
    hide Inv, SessionAdd, SelectCtx, TmpltAdd, TmpltRemove, WriteRec, FlushAll, Contents;
    match op
    case OpSession(s) => SessionAddKeeps(w, s);
    case OpSelect(sid, odid, etime) => SelectKeeps(w, sid, odid, etime);
    case OpTmplt(ttype, raw) => TmpltAddKeeps(w, ttype, raw);
    case OpRemove(tid) => TmpltRemoveKeeps(w, tid);
    case OpRec(tid, data) => WriteRecInv(w, tid, data);
    case OpReopen =>
      FlushAllKeeps(w);
      ReopenKeeps(FlushAll(w).0);
  }

  /** One step adds its record at the end of its context and touches nothing else. */
  lemma StepContents(w: Writer, op: Op, c: Ctx)
    requires Inv(w) && Step(w, op).1 != ErrInternal
    ensures Contents(Step(w, op).0, c) == Contents(w, c) + NewRec(w, op, c)
  {
    hide Inv, SessionAdd, SelectCtx, TmpltAdd, TmpltRemove, WriteRec, FlushAll, Contents, Added, DiskRecs;
    match op
    case OpSession(s) => SessionAddKeeps(w, s);
    case OpSelect(sid, odid, etime) => SelectKeeps(w, sid, odid, etime);
    case OpTmplt(ttype, raw) => TmpltAddKeeps(w, ttype, raw);
    case OpRemove(tid) => TmpltRemoveKeeps(w, tid);
    case OpRec(tid, data) => WriteRecContents(w, tid, data, c);
    case OpReopen =>
      FlushAllKeeps(w);
      ReopenKeeps(FlushAll(w).0);
  }

  lemma CreateInv(cd: Codec)
    requires CodecOk(cd)
    ensures Inv(Create(cd))
    ensures forall c :: Contents(Create(cd), c) == []
  {
  }

  /** The invariant holds in every reachable state, whatever the calls and whether they succeed. */
  lemma {:induction false} RunInv(w: Writer, ops: seq<Op>)
    requires Inv(w)
    ensures Inv(Run(w, ops))
    decreases |ops|
  {
    hide Inv, Step;
    if ops != [] {
      StepInv(w, ops[0]);
      RunInv(Step(w, ops[0]).0, ops[1..]);
    }
  }

  /** Nothing is lost, changed or reordered: redefinitions, removals, context switches, flushes and re-opens
      included, every context holds its history. */
  lemma {:induction false} RunContents(w: Writer, ops: seq<Op>, c: Ctx)
    requires Inv(w) && NoOverflow(w, ops)
    ensures Contents(Run(w, ops), c) == Contents(w, c) + History(w, ops, c)
    decreases |ops|
  {
    hide Inv, Step, Contents, NewRec;
    if ops != [] {
      StepInv(w, ops[0]);
      StepContents(w, ops[0], c);
      RunContents(Step(w, ops[0]).0, ops[1..], c);
    }
  }

  lemma {:induction false} RunSplit(w: Writer, a: seq<Op>, b: seq<Op>)
    ensures Run(w, a + b) == Run(Run(w, a), b)
    ensures NoOverflow(w, a + b) <==> NoOverflow(w, a) && NoOverflow(Run(w, a), b)
    decreases |a|
  {
    hide Step;
    if a == [] {
      assert a + b == b;
    } else {
      assert (a + b)[1..] == a[1..] + b;
      RunSplit(Step(w, a[0]).0, a[1..], b);
    }
  }
}
