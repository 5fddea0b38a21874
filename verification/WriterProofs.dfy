/** What every run of the file writer keeps, and that no accepted record is lost, changed or reordered. */
module WriterProofs {
  import opened Bytes
  import opened Templates
  import opened Messages
  import opened DataBuffer
  import opened Status
  import opened Blocks
  import opened DataBlock
  import opened ContentTable
  import opened Writer

  // ----- the invariant -----

  /** Block `b` starts at offset `off` of a file with the blocks `bs`. */
  ghost predicate Holds(cd: Codec, bs: seq<Block>, off: nat, b: Block)
  {
    exists k :: 0 <= k < |bs| && bs[k] == b && off == FILE_HDR_LEN + |Render(cd, bs[..k])|
  }

  /** The Content Table that lists exactly the Session and Data Blocks of `bs`, in file order. */
  function Index(cd: Codec, bs: seq<Block>): Table
  {
    if bs == [] then Table([], []) else Listed(Index(cd, Init(bs)), cd, FILE_HDR_LEN + |Render(cd, Init(bs))|, Last(bs))
  }

  function Listed(t: Table, cd: Codec, off: nat, b: Block): Table
  {
    match b
    case SessionB(sid, _) => t.(sessions := t.sessions + [SessEntry(off, SESSION_LEN, sid)])
    case TmpltsB(_, _, _) => t
    case DataB(sid, odid, toff, _, _) => t.(blocks := t.blocks + [DataEntry(off, |EncBlock(cd, b)|, toff, odid, sid)])
  }

  /** A Data Block can be decoded: an earlier block at `toff` holds the templates its records were accepted under. */
  ghost predicate DataOk(cd: Codec, bs: seq<Block>, b: Block)
    requires b.DataB?
  {
    && TmpltsOk(b.tmplts) && b.msgs != [] && MsgsOk(b.msgs, b.tmplts)
    && BDATA_HDR_LEN + |EncMsgs(b.msgs)| <= CAPACITY
    && Holds(cd, bs, b.toff, TmpltsB(b.sid, b.odid, b.tmplts))
  }

  ghost predicate BlockOk(cd: Codec, bs: seq<Block>, sids: set<nat>, b: Block)
  {
    && (b.DataB? ==> b.sid in sids && DataOk(cd, bs, b))
    && (b.SessionB? ==> ValidSession(b.session))
  }

  ghost predicate Decodable(m: TmpltMap, b: Buf)
  {
    && TmpltsOk(m) && MsgsOk(b.msgs, m) && Written(b) <= CAPACITY && (b.recCnt == 0 <==> b.msgs == [])
  }

  /** Template binding: every buffered record was accepted under the template now stored for its ID, a
      non-zero offset names a Template Block with exactly the current templates, and the template used
      last is the current one of its ID. */
  ghost predicate OdidOk(cd: Codec, bs: seq<Block>, sids: set<nat>, c: Ctx, o: Odid)
  {
    && c.sid in sids && Decodable(o.tmplts, o.data)
    && (o.last.Some? ==> o.last.value.id as nat in o.tmplts && o.tmplts[o.last.value.id as nat] == o.last.value)
    && (o.toff != 0 ==> Holds(cd, bs, o.toff, TmpltsB(c.sid, c.odid, o.tmplts)))
  }

  /** Session IDs are exactly 1 to n, and the two session maps are inverse to each other. */
  ghost predicate SessMaps(sessions: map<nat, SessInfo>, ids: map<Session, nat>)
  {
    && |sessions| <= MAX_SESSIONS
    && (forall k :: k in sessions <==> 1 <= k <= |sessions|)
    && (forall k :: k in sessions ==> sessions[k].session in ids && ids[sessions[k].session] == k)
    && (forall s :: s in ids ==> ids[s] in sessions && sessions[ids[s]].session == s)
  }

  /** The Session Blocks are listed in the order of their IDs and stand where the table says. */
  ghost predicate SessBlocks(cd: Codec, bs: seq<Block>, sessions: map<nat, SessInfo>, list: seq<SessEntry>)
  {
    && |list| == |sessions|
    && (forall k :: k in sessions ==> 1 <= k <= |list| && k <= MAX_SESSIONS)
    && (forall k :: k in sessions ==> list[k - 1] == SessEntry(sessions[k].off, SESSION_LEN, k))
    && (forall k :: k in sessions ==> Holds(cd, bs, sessions[k].off, SessionB(k, sessions[k].session)))
  }

  ghost predicate BlocksOk(cd: Codec, bs: seq<Block>, sids: set<nat>, of: seq<Block>)
  {
    forall k :: 0 <= k < |of| ==> BlockOk(cd, bs, sids, of[k])
  }

  ghost predicate OdidsOk(cd: Codec, bs: seq<Block>, sids: set<nat>, ctxs: map<Ctx, Odid>)
  {
    forall c :: c in ctxs ==> OdidOk(cd, bs, sids, c, ctxs[c])
  }

  ghost predicate Inv(w: Writer)
  {
    && CodecOk(w.codec) && w.offset == FILE_HDR_LEN + |Render(w.codec, w.blocks)|
    && w.table == Index(w.codec, w.blocks)
    && SessMaps(w.sessions, w.ids) && SessBlocks(w.codec, w.blocks, w.sessions, w.table.sessions)
    && BlocksOk(w.codec, w.blocks, w.sessions.Keys, w.blocks)
    && OdidsOk(w.codec, w.blocks, w.sessions.Keys, w.ctxs)
    && (w.selected.Some? ==> w.selected.value in w.ctxs)
  }

  // ----- what a context holds -----

  function RecsFor(b: Block, c: Ctx): seq<Rec>
  {
    if b.DataB? && Ctx(b.sid, b.odid) == c then MsgList(b.msgs, b.tmplts) else []
  }

  /** The records of context `c` in the Data Blocks `bs`, each with the template of its block. */
  function DiskRecs(bs: seq<Block>, c: Ctx): seq<Rec>
  {
    Concat((b: Block) => RecsFor(b, c), bs)
  }

  function Buffered(w: Writer, c: Ctx): seq<Rec>
  {
    if c in w.ctxs then MsgList(w.ctxs[c].data.msgs, w.ctxs[c].tmplts) else []
  }

  /** Everything written for `c`: on disk first, then in the buffer. */
  function Contents(w: Writer, c: Ctx): seq<Rec>
  {
    DiskRecs(w.blocks, c) + Buffered(w, c)
  }

  // ----- appending a block -----

  lemma RenderPush(cd: Codec, bs: seq<Block>, b: Block)
    ensures Render(cd, bs + [b]) == Render(cd, bs) + EncBlock(cd, b)
  {
    ConcatPush((x: Block) => EncBlock(cd, x), bs, b);
  }

  lemma DiskRecsPush(bs: seq<Block>, b: Block, c: Ctx)
    ensures DiskRecs(bs + [b], c) == DiskRecs(bs, c) + RecsFor(b, c)
  {
    ConcatPush((x: Block) => RecsFor(x, c), bs, b);
  }

  lemma HoldsPush(cd: Codec, bs: seq<Block>, x: Block, off: nat, b: Block)
    requires Holds(cd, bs, off, b)
    ensures Holds(cd, bs + [x], off, b)
  {
    var k :| 0 <= k < |bs| && bs[k] == b && off == FILE_HDR_LEN + |Render(cd, bs[..k])|;
    assert (bs + [x])[..k] == bs[..k] && (bs + [x])[k] == b;
  }

  lemma HoldsLast(cd: Codec, bs: seq<Block>, b: Block)
    ensures Holds(cd, bs + [b], FILE_HDR_LEN + |Render(cd, bs)|, b)
  {
    assert (bs + [b])[..|bs|] == bs && (bs + [b])[|bs|] == b;
  }

  lemma IndexPush(cd: Codec, bs: seq<Block>, b: Block)
    ensures Index(cd, bs + [b]) == Listed(Index(cd, bs), cd, FILE_HDR_LEN + |Render(cd, bs)|, b)
  {
    assert Init(bs + [b]) == bs && Last(bs + [b]) == b;
  }

  lemma BlockOkPush(cd: Codec, bs: seq<Block>, x: Block, sids: set<nat>, b: Block)
    requires BlockOk(cd, bs, sids, b)
    ensures BlockOk(cd, bs + [x], sids, b)
  {
    if b.DataB? {
      HoldsPush(cd, bs, x, b.toff, TmpltsB(b.sid, b.odid, b.tmplts));
    }
  }

  lemma OdidOkPush(cd: Codec, bs: seq<Block>, x: Block, sids: set<nat>, c: Ctx, o: Odid)
    requires OdidOk(cd, bs, sids, c, o)
    ensures OdidOk(cd, bs + [x], sids, c, o)
  {
    if o.toff != 0 {
      HoldsPush(cd, bs, x, o.toff, TmpltsB(c.sid, c.odid, o.tmplts));
    }
  }

  lemma SessBlocksPush(cd: Codec, bs: seq<Block>, x: Block, sessions: map<nat, SessInfo>, list: seq<SessEntry>)
    requires SessBlocks(cd, bs, sessions, list)
    ensures SessBlocks(cd, bs + [x], sessions, list)
  {
    forall k | k in sessions ensures Holds(cd, bs + [x], sessions[k].off, SessionB(k, sessions[k].session)) {
      HoldsPush(cd, bs, x, sessions[k].off, SessionB(k, sessions[k].session));
    }
  }

  lemma BlocksOkPush(cd: Codec, bs: seq<Block>, x: Block, sids: set<nat>)
    requires BlocksOk(cd, bs, sids, bs) && BlockOk(cd, bs, sids, x)
    ensures BlocksOk(cd, bs + [x], sids, bs + [x])
  {
    forall k | 0 <= k < |bs + [x]| ensures BlockOk(cd, bs + [x], sids, (bs + [x])[k]) {
      BlockOkPush(cd, bs, x, sids, if k < |bs| then bs[k] else x);
    }
  }

  lemma OdidsOkPush(cd: Codec, bs: seq<Block>, x: Block, sids: set<nat>, ctxs: map<Ctx, Odid>)
    requires OdidsOk(cd, bs, sids, ctxs)
    ensures OdidsOk(cd, bs + [x], sids, ctxs)
  {
    forall c | c in ctxs ensures OdidOk(cd, bs + [x], sids, c, ctxs[c]) {
      OdidOkPush(cd, bs, x, sids, c, ctxs[c]);
    }
  }

  /** A Template or Data Block more at the end, listed in the table. */
  lemma PutKeeps(w: Writer, x: Block, t: Table)
    requires Inv(w) && !x.SessionB? && t == Listed(w.table, w.codec, w.offset, x)
    requires BlockOk(w.codec, w.blocks, w.sessions.Keys, x)
    ensures Inv(Put(w, x).(table := t))
  {
    RenderPush(w.codec, w.blocks, x);
    IndexPush(w.codec, w.blocks, x);
    SessBlocksPush(w.codec, w.blocks, x, w.sessions, w.table.sessions);
    BlocksOkPush(w.codec, w.blocks, x, w.sessions.Keys);
    OdidsOkPush(w.codec, w.blocks, x, w.sessions.Keys, w.ctxs);
  }

  lemma SetOdidKeeps(w: Writer, c: Ctx, o: Odid)
    requires Inv(w) && OdidOk(w.codec, w.blocks, w.sessions.Keys, c, o)
    ensures Inv(SetOdid(w, c, o))
  {
    var cs := w.ctxs[c := o];
    forall d | d in cs ensures OdidOk(w.codec, w.blocks, w.sessions.Keys, d, cs[d]) {
      assert d != c ==> d in w.ctxs && cs[d] == w.ctxs[d];
    }
  }

  lemma SetOdidContents(w: Writer, c: Ctx, o: Odid, d: Ctx)
    ensures Contents(SetOdid(w, c, o), d) ==
      if d == c then DiskRecs(w.blocks, c) + MsgList(o.data.msgs, o.tmplts) else Contents(w, d)
  {
  }

  // ----- flushing -----

  lemma NewTmpltsOk(cd: Codec, bs: seq<Block>, sids: set<nat>, c: Ctx, o: Odid)
    requires OdidOk(cd, bs, sids, c, o)
    ensures OdidOk(cd, bs + [TmpltsB(c.sid, c.odid, o.tmplts)], sids, c, o.(toff := FILE_HDR_LEN + |Render(cd, bs)|))
  {
    HoldsLast(cd, bs, TmpltsB(c.sid, c.odid, o.tmplts));
  }

  lemma FlushTmpltsInv(w: Writer, c: Ctx)
    requires Inv(w) && c in w.ctxs
    ensures Inv(FlushTmplts(w, c)) && FlushTmplts(w, c).ctxs[c].toff != 0
  {
    var o := w.ctxs[c];
    assert OdidOk(w.codec, w.blocks, w.sessions.Keys, c, o);
    if o.toff == 0 {
      var x := TmpltsB(c.sid, c.odid, o.tmplts);
      PutKeeps(w, x, w.table);
      NewTmpltsOk(w.codec, w.blocks, w.sessions.Keys, c, o);
      assert Put(w, x).(table := w.table) == Put(w, x);
      SetOdidKeeps(Put(w, x), c, o.(toff := w.offset));
    }
  }

  lemma FlushTmpltsFrame(w: Writer, c: Ctx)
    requires c in w.ctxs
    ensures
      var w' := FlushTmplts(w, c);
      w'.selected == w.selected && w'.ctxs == w.ctxs[c := w.ctxs[c].(toff := w'.ctxs[c].toff)]
  {
    var o := w.ctxs[c];
    if o.toff != 0 {
      assert w.ctxs == w.ctxs[c := o.(toff := o.toff)];
    }
  }

  lemma FlushTmpltsContents(w: Writer, c: Ctx, d: Ctx)
    requires c in w.ctxs
    ensures Contents(FlushTmplts(w, c), d) == Contents(w, d)
  {
    DiskRecsPush(w.blocks, TmpltsB(c.sid, c.odid, w.ctxs[c].tmplts), d);
  }

  lemma ResetOk(cd: Codec, bs: seq<Block>, sids: set<nat>, c: Ctx, o: Odid)
    requires OdidOk(cd, bs, sids, c, o)
    ensures OdidOk(cd, bs, sids, c, o.(data := Reset(o.data)))
  {
    assert EncMsgs([]) == [];
  }

  function DataBlockOf(c: Ctx, o: Odid): Block
  {
    DataB(c.sid, c.odid, o.toff, o.data.msgs, o.tmplts)
  }

  lemma NewDataOk(cd: Codec, bs: seq<Block>, sids: set<nat>, c: Ctx, o: Odid)
    requires OdidOk(cd, bs, sids, c, o) && o.toff != 0 && o.data.recCnt != 0
    ensures BlockOk(cd, bs, sids, DataBlockOf(c, o))
  {
  }

  lemma FlushDataInv(w: Writer, c: Ctx)
    requires Inv(w) && c in w.ctxs && w.ctxs[c].toff != 0 && w.ctxs[c].data.recCnt != 0
    ensures Inv(FlushData(w, c).0)
  {
    var o := w.ctxs[c];
    var w1 := SetOdid(w, c, o.(data := Reset(o.data)));
    assert OdidOk(w.codec, w.blocks, w.sessions.Keys, c, o);
    ResetOk(w.codec, w.blocks, w.sessions.Keys, c, o);
    SetOdidKeeps(w, c, o.(data := Reset(o.data)));
    if FlushData(w, c).1 == Ok {
      NewDataOk(w.codec, w.blocks, w.sessions.Keys, c, o);
      PutKeeps(w1, DataBlockOf(c, o), FlushData(w, c).0.table);
    }
  }

  lemma FlushDataContents(w: Writer, c: Ctx, d: Ctx)
    requires c in w.ctxs && FlushData(w, c).1 == Ok
    ensures Contents(FlushData(w, c).0, d) == Contents(w, d)
  {
    DiskRecsPush(w.blocks, DataBlockOf(c, w.ctxs[c]), d);
  }

  lemma FlushInv(w: Writer, c: Ctx)
    requires Inv(w) && c in w.ctxs
    ensures Inv(Flush(w, c).0)
  {
    if w.ctxs[c].data.recCnt != 0 {
      FlushTmpltsInv(w, c);
      FlushTmpltsFrame(w, c);
      FlushDataInv(FlushTmplts(w, c), c);
    }
  }

  lemma FlushDataFrame(w: Writer, c: Ctx)
    requires c in w.ctxs
    ensures
      var (w', st) := FlushData(w, c);
      && w'.selected == w.selected && (st == Ok || st == ErrInternal)
      && w'.ctxs == w.ctxs[c := w.ctxs[c].(data := Reset(w.ctxs[c].data))]
  {
  }

  /** A flush empties the buffer of one context and leaves the other contexts alone. */
  lemma FlushFrame(w: Writer, c: Ctx)
    requires c in w.ctxs && (w.ctxs[c].data.recCnt == 0 ==> w.ctxs[c].data.msgs == [])
    ensures
      var (w', st) := Flush(w, c);
      && w'.selected == w.selected && (st == Ok || st == ErrInternal) && w'.ctxs.Keys == w.ctxs.Keys
      && (forall d :: d in w.ctxs && d != c ==> w'.ctxs[d] == w.ctxs[d])
      && w'.ctxs[c] == w.ctxs[c].(toff := w'.ctxs[c].toff, data := Reset(w.ctxs[c].data))
  {
    var o := w.ctxs[c];
    if o.data.recCnt == 0 {
      assert o.data == Reset(o.data);
    } else {
      FlushTmpltsFrame(w, c);
      FlushDataFrame(FlushTmplts(w, c), c);
    }
  }

  /** A flush changes the content of no context. */
  lemma FlushContents(w: Writer, c: Ctx, d: Ctx)
    requires c in w.ctxs && Flush(w, c).1 == Ok
    ensures Contents(Flush(w, c).0, d) == Contents(w, d)
  {
    if w.ctxs[c].data.recCnt != 0 {
      FlushTmpltsContents(w, c, d);
      FlushTmpltsFrame(w, c);
      FlushDataContents(FlushTmplts(w, c), c, d);
    }
  }
}
