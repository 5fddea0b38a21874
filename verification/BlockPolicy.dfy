/** When blocks are written: a Data Block when the buffer is full, and the templates of a context once. */
module BlockPolicy {
  import opened Bytes
  import opened Templates
  import opened Messages
  import opened DataBuffer
  import opened Status
  import opened Blocks
  import opened DataBlock
  import opened ContentTable
  import opened Writer

  // ----- Template Blocks -----

  function MapFor(b: Block, c: Ctx): seq<TmpltMap>
  {
    if b.TmpltsB? && b.sid == c.sid && b.odid == c.odid then [b.tmplts] else []
  }

  /** The Template Blocks of `c` among `bs`. */
  function Maps(bs: seq<Block>, c: Ctx): seq<TmpltMap>
  {
    Concat((b: Block) => MapFor(b, c), bs)
  }

  /** From `w` to `w'` the templates of `c` are written once at most, and not at all if they are in the file already;
      the offset of their block stays. */
  ghost predicate Once(w: Writer, w': Writer, c: Ctx)
  {
    && w.offset > 0 && w.offset <= w'.offset && w.blocks <= w'.blocks && c in w.ctxs && c in w'.ctxs
    && w'.ctxs[c].tmplts == w.ctxs[c].tmplts
    && var added := Maps(w'.blocks[|w.blocks|..], c);
    if w.ctxs[c].toff != 0 || w'.ctxs[c].toff == 0 then added == [] && w'.ctxs[c].toff == w.ctxs[c].toff
    else added == [w.ctxs[c].tmplts]
  }

  lemma OnceSame(w: Writer, w': Writer, c: Ctx)
    requires w.offset > 0 && w'.offset == w.offset && w'.blocks == w.blocks && c in w.ctxs && c in w'.ctxs
    requires w'.ctxs[c].tmplts == w.ctxs[c].tmplts && w'.ctxs[c].toff == w.ctxs[c].toff
    ensures Once(w, w', c)
  {
    assert w'.blocks[|w.blocks|..] == [];
  }

  lemma OnceThen(w: Writer, w1: Writer, w2: Writer, c: Ctx)
    requires Once(w, w1, c) && Once(w1, w2, c)
    ensures Once(w, w2, c)
  {
    assert w2.blocks[|w.blocks|..] == w1.blocks[|w.blocks|..] + w2.blocks[|w1.blocks|..];
    ConcatAppend((b: Block) => MapFor(b, c), w1.blocks[|w.blocks|..], w2.blocks[|w1.blocks|..]);
  }

  lemma OncePut(w: Writer, w': Writer, b: Block, c: Ctx)
    requires w.offset > 0 && w'.offset >= w.offset && w'.blocks == w.blocks + [b] && c in w.ctxs && c in w'.ctxs
    requires w'.ctxs[c].tmplts == w.ctxs[c].tmplts
    requires
      if MapFor(b, c) == [] then w'.ctxs[c].toff == w.ctxs[c].toff
      else MapFor(b, c) == [w.ctxs[c].tmplts] && w.ctxs[c].toff == 0 && w'.ctxs[c].toff != 0
    ensures Once(w, w', c)
  {
    assert w'.blocks[|w.blocks|..] == [b];
    ConcatOne((x: Block) => MapFor(x, c), b);
  }

  lemma FlushTmpltsOnce(w: Writer, c: Ctx, d: Ctx)
    requires w.offset > 0 && c in w.ctxs && d in w.ctxs
    ensures Once(w, FlushTmplts(w, d), c)
  {
    hide EncBlock;
    var o := w.ctxs[d];
    if o.toff != 0 {
      OnceSame(w, w, c);
    } else {
      OncePut(w, FlushTmplts(w, d), TmpltsB(d.sid, d.odid, o.tmplts), c);
    }
  }

  lemma FlushDataOnce(w: Writer, c: Ctx, d: Ctx)
    requires w.offset > 0 && c in w.ctxs && d in w.ctxs
    ensures Once(w, FlushData(w, d).0, c)
  {
    hide EncBlock;
    var o := w.ctxs[d];
    if |w.table.blocks| + 1 > MAX_BLOCKS {
      OnceSame(w, FlushData(w, d).0, c);
    } else {
      OncePut(w, FlushData(w, d).0, DataB(d.sid, d.odid, o.toff, o.data.msgs, o.tmplts), c);
    }
  }

  lemma FlushOnce(w: Writer, c: Ctx, d: Ctx)
    requires w.offset > 0 && c in w.ctxs && d in w.ctxs
    ensures Once(w, Flush(w, d).0, c)
  {
    if w.ctxs[d].data.recCnt == 0 {
      OnceSame(w, w, c);
    } else {
      hide Once, FlushData;
      FlushTmpltsOnce(w, c, d);
      var w1 := FlushTmplts(w, d);
      OnceStarts(w, w1, c);
      FlushDataOnce(w1, c, d);
      OnceThen(w, w1, FlushData(w1, d).0, c);
    }
  }

  lemma OnceStarts(w: Writer, w': Writer, c: Ctx)
    requires Once(w, w', c)
    ensures w.offset > 0 && w'.offset > 0 && c in w'.ctxs && w'.ctxs[c].tmplts == w.ctxs[c].tmplts
  {
  }

  /** A step that leaves the templates of `c` as they are. */
  predicate Leaves(w: Writer, op: Op, c: Ctx)
  {
    var w' := Step(w, op).0;
    !op.OpReopen? && c in w.ctxs && c in w'.ctxs && w'.ctxs[c].tmplts == w.ctxs[c].tmplts
  }

  lemma SetContext(w: Writer, c: Ctx, d: Ctx, o: Odid)
    requires w.offset > 0 && c in w.ctxs
    requires d == c ==> o.tmplts == w.ctxs[c].tmplts && o.toff == w.ctxs[c].toff
    ensures Once(w, SetOdid(w, d, o), c)
  {
    OnceSame(w, SetOdid(w, d, o), c);
  }

  lemma WriteRecOnce(w: Writer, tid: nat, data: Octets, c: Ctx)
    requires w.offset > 0 && c in w.ctxs
    ensures Once(w, WriteRec(w, tid, data).0, c)
  {
    hide Once, Flush, Add, AddStatus, Remains;
    if data == [] || w.selected.None? || w.selected.value !in w.ctxs || Lookup(w.ctxs[w.selected.value], tid).None? {
      OnceSame(w, w, c);
    } else {
      var d := w.selected.value;
      var o := w.ctxs[d];
      var t := Lookup(o, tid).value;
      var w1 := SetOdid(w, d, o.(last := Some(t)));
      SetContext(w, c, d, o.(last := Some(t)));
      if |data| > Remains(o.data) {
        FlushOnce(w1, c, d);
        FlushOnce(w1, d, d);
        var w2 := Flush(w1, d).0;
        OnceThen(w, w1, w2, c);
        OnceStarts(w1, w2, c);
        OnceStarts(w1, w2, d);
        if Flush(w1, d).1 == Ok { AddOnce(w, w2, c, d, data, t); }
      } else {
        AddOnce(w, w1, c, d, data, t);
      }
    }
  }

  lemma AddOnce(w: Writer, w1: Writer, c: Ctx, d: Ctx, data: Octets, t: Template)
    requires Once(w, w1, c) && d in w1.ctxs
    ensures Once(w, AddRec(w1, d, data, t).0, c)
  {
    hide Once, Add, AddStatus;
    OnceStarts(w, w1, c);
    SetContext(w1, c, d, w1.ctxs[d].(data := Add(w1.ctxs[d].data, data, t)));
    OnceThen(w, w1, AddRec(w1, d, data, t).0, c);
  }

  lemma TmpltAddOnce(w: Writer, ttype: U16, raw: Octets, c: Ctx)
    requires w.offset > 0 && c in w.ctxs
    requires c in TmpltAdd(w, ttype, raw).0.ctxs && TmpltAdd(w, ttype, raw).0.ctxs[c].tmplts == w.ctxs[c].tmplts
    ensures Once(w, TmpltAdd(w, ttype, raw).0, c)
  {
    hide Once, Flush, ParseFields, MinLength;
    OnceSame(w, w, c);
    if raw != [] && w.selected.Some? && w.selected.value in w.ctxs && |raw| >= 2 {
      var d := w.selected.value;
      var o := w.ctxs[d];
      if FromBe16(raw[..2]) !in o.tmplts {
        StoreOnce(w, w, c, d, ttype, raw, true);
      } else if !(o.tmplts[FromBe16(raw[..2])].ttype == ttype && o.tmplts[FromBe16(raw[..2])].raw == raw) {
        FlushOnce(w, c, d);
        FlushOnce(w, d, d);
        var w1 := Flush(w, d).0;
        OnceStarts(w, w1, c);
        OnceStarts(w, w1, d);
        if Flush(w, d).1 == Ok { StoreOnce(w, w1, c, d, ttype, raw, false); }
      }
    }
  }

  /** A definition that is stored was not there before. */
  lemma StoreOnce(w: Writer, w1: Writer, c: Ctx, d: Ctx, ttype: U16, raw: Octets, keepLast: bool)
    requires Once(w, w1, c) && d in w1.ctxs && 2 <= |raw|
    requires
      var tid := FromBe16(raw[..2]) as nat;
      tid in w1.ctxs[d].tmplts ==> w1.ctxs[d].tmplts[tid].ttype != ttype || w1.ctxs[d].tmplts[tid].raw != raw
    requires c in StoreTmplt(w1, d, ttype, raw, keepLast).0.ctxs
    requires StoreTmplt(w1, d, ttype, raw, keepLast).0.ctxs[c].tmplts == w.ctxs[c].tmplts
    ensures Once(w, StoreTmplt(w1, d, ttype, raw, keepLast).0, c)
  {
    hide Once, ParseFields, MinLength;
    OnceStarts(w, w1, c);
    match Parse(ttype, raw)
    case None =>
    case Some(t) =>
      var o := w1.ctxs[d];
      if c == d { assert false; }
      SetContext(w1, c, d,
        o.(tmplts := o.tmplts[t.id as nat := t], toff := 0, last := if keepLast then o.last else None));
      OnceThen(w, w1, StoreTmplt(w1, d, ttype, raw, keepLast).0, c);
  }

  lemma TmpltRemoveOnce(w: Writer, tid: nat, c: Ctx)
    requires w.offset > 0 && c in w.ctxs
    requires c in TmpltRemove(w, tid).0.ctxs && TmpltRemove(w, tid).0.ctxs[c].tmplts == w.ctxs[c].tmplts
    ensures Once(w, TmpltRemove(w, tid).0, c)
  {
    hide Once, Flush;
    OnceSame(w, w, c);
    if w.selected.Some? && w.selected.value in w.ctxs && tid in w.ctxs[w.selected.value].tmplts {
      var d := w.selected.value;
      FlushOnce(w, c, d);
      FlushOnce(w, d, d);
      var w1 := Flush(w, d).0;
      OnceStarts(w, w1, c);
      OnceStarts(w, w1, d);
      if Flush(w, d).1 == Ok {
        var o := w1.ctxs[d];
        if c == d { assert false; }
        SetContext(w1, c, d, o.(tmplts := o.tmplts - {tid}, toff := 0, last := None));
        OnceThen(w, w1, TmpltRemove(w, tid).0, c);
      }
    }
  }

  lemma SelectOnce(w: Writer, sid: U16, odid: U32, etime: U32, c: Ctx)
    requires w.offset > 0 && c in w.ctxs
    ensures Once(w, SelectCtx(w, sid, odid, etime).0, c)
  {
    hide Once;
    OnceSame(w, SelectCtx(w, sid, odid, etime).0, c);
  }

  lemma SessionOnce(w: Writer, s: Session, c: Ctx)
    requires w.offset > 0 && c in w.ctxs
    ensures Once(w, SessionAdd(w, s).0, c)
  {
    hide Once, EncBlock;
    var w' := SessionAdd(w, s).0;
    if w'.blocks == w.blocks {
      OnceSame(w, w', c);
    } else {
      OncePut(w, w', SessionB(|w.sessions| + 1, s), c);
    }
  }

  /** As long as no definition of `c` is added, replaced or removed, one call writes its templates at most once. */
  lemma StepOnce(w: Writer, op: Op, c: Ctx)
    requires w.offset > 0 && Leaves(w, op, c)
    ensures Once(w, Step(w, op).0, c)
  {
    hide Once, SessionAdd, SelectCtx, TmpltAdd, TmpltRemove, WriteRec;
    match op
    case OpSession(s) => SessionOnce(w, s, c);
    case OpSelect(sid, odid, etime) => SelectOnce(w, sid, odid, etime, c);
    case OpTmplt(ttype, raw) => TmpltAddOnce(w, ttype, raw, c);
    case OpRemove(tid) => TmpltRemoveOnce(w, tid, c);
    case OpRec(tid, data) => WriteRecOnce(w, tid, data, c);
  }

  /** Calls that leave the templates of `c` as they are. */
  predicate AllLeave(w: Writer, ops: seq<Op>, c: Ctx)
    decreases |ops|
  {
    ops != [] ==> Leaves(w, ops[0], c) && AllLeave(Step(w, ops[0]).0, ops[1..], c)
  }

  lemma {:induction false} RunOnce(w: Writer, ops: seq<Op>, c: Ctx)
    requires w.offset > 0 && c in w.ctxs && AllLeave(w, ops, c)
    ensures Once(w, Run(w, ops), c)
    decreases |ops|
  {
    hide Once, Step;
    if ops == [] {
      OnceSame(w, w, c);
    } else {
      var w1 := Step(w, ops[0]).0;
      StepOnce(w, ops[0], c);
      OnceStarts(w, w1, c);
      RunOnce(w1, ops[1..], c);
      OnceThen(w, w1, Run(w1, ops[1..]), c);
    }
  }

  /** However many records are written, one Template Block serves all Data Blocks of a context until its templates
      change or the file is opened again; it holds the templates in force. */
  lemma TemplatesWrittenOnce(w: Writer, ops: seq<Op>, c: Ctx)
    requires w.offset > 0 && c in w.ctxs && AllLeave(w, ops, c)
    ensures
      var w' := Run(w, ops);
      && w.blocks <= w'.blocks && c in w'.ctxs
      && Maps(w'.blocks[|w.blocks|..], c) ==
           (if w.ctxs[c].toff == 0 && w'.ctxs[c].toff != 0 then [w.ctxs[c].tmplts] else [])
      && (w.ctxs[c].toff != 0 ==> w'.ctxs[c].toff == w.ctxs[c].toff)
  {
    hide Run, AllLeave;
    RunOnce(w, ops, c);
  }

  // ----- Data Blocks -----

  /** A record makes the buffer be written out, templates first if they are not in the file, exactly when it would not
      fit into 1 MiB with a new Message and a new Set; then that is all that is written. */
  lemma WrittenWhenFull(w: Writer, tid: nat, data: Octets, c: Ctx)
    requires data != [] && w.selected == Some(c) && c in w.ctxs && Lookup(w.ctxs[c], tid).Some?
    requires w.ctxs[c].data.recCnt != 0 && |w.table.blocks| < 0xFFFF_FFFF
    ensures
      var o := w.ctxs[c];
      var bs := WriteRec(w, tid, data).0.blocks;
      if 28 + |EncMsgs(o.data.msgs)| + 16 + 4 + |data| <= 0x10_0000 then
        bs == w.blocks
      else
        bs == w.blocks + (if o.toff == 0 then [TmpltsB(c.sid, c.odid, o.tmplts)] else [])
              + [DataB(c.sid, c.odid, if o.toff == 0 then w.offset else o.toff, o.data.msgs, o.tmplts)]
  {
  }

  // ----- closing -----

  predicate Before(a: Ctx, b: Ctx)
  {
    a.sid < b.sid || (a.sid == b.sid && a.odid <= b.odid)
  }

  function CtxOfBlock(b: Block): Ctx
    requires !b.SessionB?
  {
    Ctx(b.sid, b.odid)
  }

  predicate BelongsTo(b: Block, ks: seq<nat>)
  {
    !b.SessionB? && exists k :: k in ks && CtxOfBlock(b) == CtxOf(k)
  }

  /** The blocks `bs` belong to the contexts `ks`. */
  predicate Belong(bs: seq<Block>, ks: seq<nat>)
  {
    forall i :: 0 <= i < |bs| ==> BelongsTo(bs[i], ks)
  }

  ghost predicate InOrder(bs: seq<Block>)
    requires forall i :: 0 <= i < |bs| ==> !bs[i].SessionB?
  {
    forall i, j :: 0 <= i < j < |bs| ==> Before(CtxOfBlock(bs[i]), CtxOfBlock(bs[j]))
  }

  /** Session ID first. */
  lemma KeyOrder(k: nat, n: nat)
    requires k <= n < 0x1_0000_0000_0000
    ensures Before(CtxOf(k), CtxOf(n))
  {
    var a, b := k / 0x1_0000_0000, n / 0x1_0000_0000;
    assert a <= b < 0x1_0000;
  }

  lemma FlushBlocks(w: Writer, c: Ctx)
    requires c in w.ctxs
    ensures
      var bs := Flush(w, c).0.blocks;
      w.blocks <= bs && forall i :: |w.blocks| <= i < |bs| ==> !bs[i].SessionB? && CtxOfBlock(bs[i]) == c
  {
    hide EncBlock;
  }

  predicate Increasing(ks: seq<nat>)
  {
    (forall i, j :: 0 <= i < j < |ks| ==> ks[i] < ks[j]) && forall i :: 0 <= i < |ks| ==> ks[i] < 0x1_0000_0000_0000
  }

  lemma {:induction false} FlushSeqOrder(w: Writer, ks: seq<nat>)
    requires Increasing(ks)
    ensures
      var bs := FlushSeq(w, ks).0.blocks;
      w.blocks <= bs && Belong(bs[|w.blocks|..], ks) && InOrder(bs[|w.blocks|..])
    decreases |ks|
  {
    hide Flush, Belong, InOrder, CtxOf;
    if ks == [] {
      NoBlocks(w.blocks, ks);
    } else {
      var c := CtxOf(ks[0]);
      if c !in w.ctxs {
        FlushSeqOrder(w, ks[1..]);
        OrderPush([], FlushSeq(w, ks).0.blocks[|w.blocks|..], ks);
        assert [] + FlushSeq(w, ks).0.blocks[|w.blocks|..] == FlushSeq(w, ks).0.blocks[|w.blocks|..];
      } else {
        var w1 := Flush(w, c).0;
        FlushBlocks(w, c);
        var mine := w1.blocks[|w.blocks|..];
        if Flush(w, c).1 == Ok {
          FlushSeqOrder(w1, ks[1..]);
          var more := FlushSeq(w1, ks[1..]).0.blocks[|w1.blocks|..];
          OrderPush(mine, more, ks);
          assert FlushSeq(w, ks).0.blocks[|w.blocks|..] == mine + more;
        } else {
          NoBlocks(w1.blocks, ks[1..]);
          OrderPush(mine, [], ks);
          assert mine + [] == mine;
        }
      }
    }
  }

  lemma NoBlocks(bs: seq<Block>, ks: seq<nat>)
    ensures bs[|bs|..] == [] && Belong([], ks) && InOrder([])
  {
  }

  /** Blocks of the first context in front of those of the others. */
  lemma OrderPush(mine: seq<Block>, more: seq<Block>, ks: seq<nat>)
    requires ks != [] && Increasing(ks) && Belong(more, ks[1..]) && InOrder(more)
    requires forall i :: 0 <= i < |mine| ==> !mine[i].SessionB? && CtxOfBlock(mine[i]) == CtxOf(ks[0])
    ensures Belong(mine + more, ks) && InOrder(mine + more)
  {
    hide CtxOf, Before, CtxOfBlock, Increasing;
    BelongPush(mine, more, ks);
    var bs := mine + more;
    forall i, j | 0 <= i < j < |bs| ensures Before(CtxOfBlock(bs[i]), CtxOfBlock(bs[j])) {
      if i >= |mine| {
        assert bs[i] == more[i - |mine|] && bs[j] == more[j - |mine|];
      } else if j < |mine| {
        FirstBefore(ks, ks[0]);
      } else {
        assert BelongsTo(more[j - |mine|], ks[1..]);
        var k :| k in ks[1..] && CtxOfBlock(more[j - |mine|]) == CtxOf(k);
        assert k in ks;
        FirstBefore(ks, k);
      }
    }
  }

  lemma FirstBefore(ks: seq<nat>, k: nat)
    requires ks != [] && Increasing(ks) && k in ks
    ensures Before(CtxOf(ks[0]), CtxOf(k))
  {
    hide CtxOf, Before;
    var m :| 0 <= m < |ks| && ks[m] == k;
    KeyOrder(ks[0], k);
  }

  lemma BelongPush(mine: seq<Block>, more: seq<Block>, ks: seq<nat>)
    requires ks != [] && Belong(more, ks[1..])
    requires forall i :: 0 <= i < |mine| ==> !mine[i].SessionB? && CtxOfBlock(mine[i]) == CtxOf(ks[0])
    ensures Belong(mine + more, ks)
  {
    hide CtxOf, CtxOfBlock;
    var bs := mine + more;
    forall i | 0 <= i < |bs| ensures BelongsTo(bs[i], ks) {
      if i < |mine| {
        assert ks[0] in ks;
      } else {
        assert bs[i] == more[i - |mine|];
        var k :| k in ks[1..] && CtxOfBlock(bs[i]) == CtxOf(k);
        assert k in ks;
      }
    }
  }

  /** Closing writes what is buffered context by context, by session ID and then by Observation Domain ID. */
  lemma ClosedInOrder(w: Writer)
    ensures
      var bs := FlushAll(w).0.blocks;
      && w.blocks <= bs
      && (forall i :: |w.blocks| <= i < |bs| ==> !bs[i].SessionB?)
      && (forall i, j :: |w.blocks| <= i < j < |bs| ==> Before(CtxOfBlock(bs[i]), CtxOfBlock(bs[j])))
  {
    hide FlushSeq, Before;
    var ks := Sorted(CtxKeys(w));
    forall i | 0 <= i < |ks| ensures ks[i] < 0x1_0000_0000_0000 { KeyBound(w, ks[i]); }
    FlushSeqOrder(w, ks);
    var bs := FlushSeq(w, ks).0.blocks;
    assert forall i :: |w.blocks| <= i < |bs| ==> bs[i] == bs[|w.blocks|..][i - |w.blocks|];
  }

  lemma KeyBound(w: Writer, k: nat)
    requires k in CtxKeys(w)
    ensures k < 0x1_0000_0000_0000
  {
  }
}
