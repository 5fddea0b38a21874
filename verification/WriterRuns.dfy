/** Whole runs of the file writer: every operation keeps the invariant, and the content of every context is
    exactly the history of the records accepted for it. */
module WriterRuns {
  import opened Bytes
  import opened Templates
  import opened Messages
  import opened DataBuffer
  import opened Status
  import opened Blocks
  import opened DataBlock
  import opened ContentTable
  import opened Writer
  import opened WriterProofs

  // ----- adding a record -----

  lemma OkIsShaped(ms: seq<Msg>, snap: TmpltMap)
    requires MsgsOk(ms, snap)
    ensures Shaped(ms)
  {
  }

  lemma LookupCurrent(cd: Codec, bs: seq<Block>, sids: set<nat>, c: Ctx, o: Odid, tid: nat)
    requires OdidOk(cd, bs, sids, c, o)
    ensures Lookup(o, tid) == if tid in o.tmplts then Some(o.tmplts[tid]) else None
  {
  }

  lemma AddDecodable(m: TmpltMap, b: Buf, data: Octets, t: Template)
    requires Decodable(m, b) && t.id as nat in m && m[t.id as nat] == t && data != [] && |data| <= Remains(b)
    ensures Decodable(m, Add(b, data, t))
    ensures AddStatus(b, data, t) == Ok || AddStatus(b, data, t) == ErrFormat
    ensures
      AddStatus(b, data, t) == Ok ==>
        MsgList(Add(b, data, t).msgs, m) == MsgList(b.msgs, m) + [Rec(b.etimeSet, t, data)]
  {
    if AddStatus(b, data, t) == Ok {
      OkIsShaped(b.msgs, m);
      ParsedId(m, t);
      ExtendOk(b, t.id, data, m);
      ExtendLengths(b, t.id, data);
      ExtendList(b, t.id, data, m);
    }
  }

  lemma ParsedId(m: TmpltMap, t: Template)
    requires TmpltsOk(m) && t.id as nat in m && m[t.id as nat] == t
    ensures MIN_DSET_ID <= t.id
  {
    assert Parse(t.ttype, t.raw).Some?;
  }

  lemma SameDataOk(cd: Codec, bs: seq<Block>, sids: set<nat>, c: Ctx, o: Odid, data: Buf, t: Template)
    requires
      OdidOk(cd, bs, sids, c, o) && t.id as nat in o.tmplts && o.tmplts[t.id as nat] == t && Decodable(o.tmplts, data)
    ensures OdidOk(cd, bs, sids, c, o.(data := data, last := Some(t)))
  {
  }

  lemma OdidOf(w: Writer, c: Ctx)
    requires Inv(w) && c in w.ctxs
    ensures OdidOk(w.codec, w.blocks, w.sessions.Keys, c, w.ctxs[c])
    ensures Decodable(w.ctxs[c].tmplts, w.ctxs[c].data)
  {
  }

  lemma AddRecInv(w: Writer, c: Ctx, data: Octets, t: Template)
    requires Inv(w) && c in w.ctxs && w.ctxs[c].last == Some(t)
    requires data != [] && |data| <= Remains(w.ctxs[c].data)
    ensures Inv(AddRec(w, c, data, t).0)
    ensures AddRec(w, c, data, t).1 == Ok || AddRec(w, c, data, t).1 == ErrFormat
  {
    var o := w.ctxs[c];
    OdidOf(w, c);
    AddDecodable(o.tmplts, o.data, data, t);
    SameDataOk(w.codec, w.blocks, w.sessions.Keys, c, o, Add(o.data, data, t), t);
    var o' := o.(data := Add(o.data, data, t));
    assert o' == o.(data := Add(o.data, data, t), last := Some(t));
    SetOdidKeeps(w, c, o');
  }

  lemma AddRecContents(w: Writer, c: Ctx, data: Octets, t: Template, d: Ctx)
    requires Inv(w) && c in w.ctxs && w.ctxs[c].last == Some(t)
    requires data != [] && |data| <= Remains(w.ctxs[c].data)
    ensures
      var (w', st) := AddRec(w, c, data, t);
      Contents(w', d) == Contents(w, d) + (if d == c && st == Ok then [Rec(w.ctxs[c].data.etimeSet, t, data)] else [])
  {
    hide Inv, Decodable, OdidOk, AddStatus, Extend, MsgList, DiskRecs;
    var o := w.ctxs[c];
    OdidOf(w, c);
    AddDecodable(o.tmplts, o.data, data, t);
    SetOdidContents(w, c, o.(data := Add(o.data, data, t)), d);
  }

  /** The record that `WriteRec` adds for context `d`: with the Export Time of the context and the template
      now in force under its ID. */
  function Added(w: Writer, tid: nat, data: Octets, d: Ctx): seq<Rec>
  {
    if w.selected == Some(d) && d in w.ctxs && tid in w.ctxs[d].tmplts && WriteRec(w, tid, data).1 == Ok
    then [Rec(w.ctxs[d].data.etimeSet, w.ctxs[d].tmplts[tid], data)] else []
  }

  lemma SetLastInv(w: Writer, c: Ctx, t: Template)
    requires Inv(w) && c in w.ctxs && t.id as nat in w.ctxs[c].tmplts && w.ctxs[c].tmplts[t.id as nat] == t
    ensures Inv(SetOdid(w, c, w.ctxs[c].(last := Some(t))))
  {
    var o := w.ctxs[c];
    OdidOf(w, c);
    SameDataOk(w.codec, w.blocks, w.sessions.Keys, c, o, o.data, t);
    assert o.(data := o.data, last := Some(t)) == o.(last := Some(t));
    SetOdidKeeps(w, c, o.(last := Some(t)));
  }

  /** After a flush there is room for any record. */
  lemma FlushMakesRoom(w: Writer, c: Ctx, size: nat)
    requires Inv(w) && c in w.ctxs && size <= 0xFFFF
    ensures
      var (w', st) := Flush(w, c);
      && Inv(w') && w'.selected == w.selected && w'.ctxs.Keys == w.ctxs.Keys && (st == Ok || st == ErrInternal)
      && w'.ctxs[c].last == w.ctxs[c].last && w'.ctxs[c].tmplts == w.ctxs[c].tmplts
      && w'.ctxs[c].data.etimeSet == w.ctxs[c].data.etimeSet && w'.ctxs[c].data.msgs == []
      && size <= Remains(w'.ctxs[c].data)
  {
    OdidOf(w, c);
    FlushInv(w, c);
    FlushFrame(w, c);
    EmptyHasRoom(Flush(w, c).0.ctxs[c].data, size);
  }

  /** The part of `write_rec` behind the lookup. */
  function Append(w: Writer, c: Ctx, data: Octets, t: Template): (Writer, Status)
    requires c in w.ctxs
  {
    if |data| > Remains(w.ctxs[c].data) then
      var (w2, st) := Flush(w, c);
      if st != Ok then (w2, st) else AddRec(w2, c, data, t)
    else AddRec(w, c, data, t)
  }

  lemma AppendInv(w: Writer, c: Ctx, data: Data16, t: Template)
    requires Inv(w) && c in w.ctxs && w.ctxs[c].last == Some(t) && data != []
    ensures Inv(Append(w, c, data, t).0)
    ensures Append(w, c, data, t).1 == ErrInternal ==> Flush(w, c).1 == ErrInternal
  {
    hide Inv, Flush, AddRec, Remains;
    if |data| > Remains(w.ctxs[c].data) {
      FlushMakesRoom(w, c, |data|);
      if Flush(w, c).1 == Ok {
        AddRecInv(Flush(w, c).0, c, data, t);
      }
    } else {
      AddRecInv(w, c, data, t);
    }
  }

  lemma AppendContents(w: Writer, c: Ctx, data: Data16, t: Template, d: Ctx)
    requires Inv(w) && c in w.ctxs && w.ctxs[c].last == Some(t) && data != []
    requires Append(w, c, data, t).1 != ErrInternal
    ensures
      var (w', st) := Append(w, c, data, t);
      Contents(w', d) == Contents(w, d) + (if d == c && st == Ok then [Rec(w.ctxs[c].data.etimeSet, t, data)] else [])
  {
    if |data| > Remains(w.ctxs[c].data) {
      FlushMakesRoom(w, c, |data|);
      FlushContents(w, c, d);
      AddRecContents(Flush(w, c).0, c, data, t, d);
    } else {
      AddRecContents(w, c, data, t, d);
    }
  }

  lemma SelectedKnown(w: Writer)
    requires Inv(w) && w.selected.Some?
    ensures w.selected.value in w.ctxs
  {
  }

  /** The state in which `write_rec` adds its record: the template found becomes the one used last. */
  lemma WriteRecIs(w: Writer, tid: nat, data: Data16)
    requires Inv(w) && data != [] && w.selected.Some?
    ensures w.selected.value in w.ctxs
    ensures
      var c := w.selected.value;
      var o := w.ctxs[c];
      if tid !in o.tmplts then WriteRec(w, tid, data) == (w, ErrNotFound)
      else
        && o.tmplts[tid].id == tid
        && Inv(SetOdid(w, c, o.(last := Some(o.tmplts[tid]))))
        && WriteRec(w, tid, data) == Append(SetOdid(w, c, o.(last := Some(o.tmplts[tid]))), c, data, o.tmplts[tid])
  {
    hide Flush, AddRec, Remains, OdidOk, Lookup, Inv;
    assert w.selected.value in w.ctxs by { SelectedKnown(w); }
    var c := w.selected.value;
    var o := w.ctxs[c];
    OdidOf(w, c);
    LookupCurrent(w.codec, w.blocks, w.sessions.Keys, c, o, tid);
    if tid in o.tmplts {
      IdIsKey(o.tmplts, tid);
      SetLastInv(w, c, o.tmplts[tid]);
    }
  }

  lemma IdIsKey(m: TmpltMap, tid: nat)
    requires TmpltsOk(m) && tid in m
    ensures m[tid].id == tid
  {
  }

  lemma WriteRecInv(w: Writer, tid: nat, data: Data16)
    requires Inv(w)
    ensures Inv(WriteRec(w, tid, data).0)
  {
    if data != [] && w.selected.Some? {
      WriteRecIs(w, tid, data);
      var c := w.selected.value;
      var o := w.ctxs[c];
      if tid in o.tmplts {
        AppendInv(SetOdid(w, c, o.(last := Some(o.tmplts[tid]))), c, data, o.tmplts[tid]);
      }
    }
  }

  lemma WriteRecContents(w: Writer, tid: nat, data: Data16, d: Ctx)
    requires Inv(w) && WriteRec(w, tid, data).1 != ErrInternal
    ensures Contents(WriteRec(w, tid, data).0, d) == Contents(w, d) + Added(w, tid, data, d)
  {
    hide Inv, Append, MsgList, DiskRecs, Lookup, AddRec, Flush, Remains;
    if data != [] && w.selected.Some? {
      WriteRecIs(w, tid, data);
      var c := w.selected.value;
      var o := w.ctxs[c];
      if tid in o.tmplts {
        var o1 := o.(last := Some(o.tmplts[tid]));
        AppendContents(SetOdid(w, c, o1), c, data, o.tmplts[tid], d);
        SetOdidContents(w, c, o1, d);
      }
    }
  }

  /** `write_rec` fails with the internal error only when the Content Table is full: the buffer has always room. */
  lemma NeverFull(w: Writer, tid: nat, data: Data16)
    requires Inv(w) && WriteRec(w, tid, data).1 == ErrInternal
    ensures |w.table.blocks| + 1 > MAX_BLOCKS
  {
    hide Inv;
    WriteRecIs(w, tid, data);
    var c := w.selected.value;
    var o := w.ctxs[c];
    AppendInv(SetOdid(w, c, o.(last := Some(o.tmplts[tid]))), c, data, o.tmplts[tid]);
  }

  // ----- templates -----

  lemma {:induction false} SameTemplates(ms: seq<Msg>, m: TmpltMap, m': TmpltMap)
    requires MsgsOk(ms, m) && forall id :: id in m ==> id in m' && m'[id] == m[id]
    ensures MsgsOk(ms, m') && MsgList(ms, m') == MsgList(ms, m)
  {
    forall k | 0 <= k < |ms| ensures MsgOk(ms[k], m') && OneMsg(ms[k], m') == OneMsg(ms[k], m) {
      SameSets(ms[k].sets, m, m', ms[k].etime);
    }
    SameImages((x: Msg) => OneMsg(x, m'), (x: Msg) => OneMsg(x, m), ms);
  }

  lemma SameSets(ds: seq<DataSet>, m: TmpltMap, m': TmpltMap, etime: U32)
    requires forall k :: 0 <= k < |ds| ==> SetOk(ds[k], m)
    requires forall id :: id in m ==> id in m' && m'[id] == m[id]
    ensures forall k :: 0 <= k < |ds| ==> SetOk(ds[k], m')
    ensures SetList(ds, m', etime) == SetList(ds, m, etime)
  {
    forall k | 0 <= k < |ds| ensures SetOk(ds[k], m') && OneSet(ds[k], m', etime) == OneSet(ds[k], m, etime) {
      assert SetOk(ds[k], m);
    }
    SameImages((x: DataSet) => OneSet(x, m', etime), (x: DataSet) => OneSet(x, m, etime), ds);
  }

  lemma {:induction false} SameImages<T, R>(f: T -> seq<R>, g: T -> seq<R>, xs: seq<T>)
    requires forall k :: 0 <= k < |xs| ==> f(xs[k]) == g(xs[k])
    ensures Concat(f, xs) == Concat(g, xs)
  {
    if xs != [] {
      SameImages(f, g, xs[1..]);
    }
  }

  /** A template more, or one replaced while nothing is buffered. */
  lemma TmpltStored(m: TmpltMap, b: Buf, t: Template)
    requires Decodable(m, b) && Parse(t.ttype, t.raw) == Some(t) && (t.id as nat !in m || b.msgs == [])
    ensures Decodable(m[t.id as nat := t], b) && MsgList(b.msgs, m[t.id as nat := t]) == MsgList(b.msgs, m)
  {
    hide Parse, MsgOk;
    if t.id as nat !in m {
      SameTemplates(b.msgs, m, m[t.id as nat := t]);
    }
  }

  lemma StoredOk(cd: Codec, bs: seq<Block>, sids: set<nat>, c: Ctx, o: Odid, m: TmpltMap, last: Option<Template>)
    requires OdidOk(cd, bs, sids, c, o) && Decodable(m, o.data)
    requires last.Some? ==> last.value.id as nat in m && m[last.value.id as nat] == last.value
    ensures OdidOk(cd, bs, sids, c, o.(tmplts := m, toff := 0, last := last))
  {
  }

  lemma StoreTmpltKeeps(w: Writer, c: Ctx, ttype: U16, raw: Octets, keepLast: bool)
    requires Inv(w) && c in w.ctxs
    requires w.ctxs[c].data.msgs == [] || (2 <= |raw| && FromBe16(raw[..2]) as nat !in w.ctxs[c].tmplts)
    requires keepLast ==> 2 <= |raw| && FromBe16(raw[..2]) as nat !in w.ctxs[c].tmplts
    ensures Inv(StoreTmplt(w, c, ttype, raw, keepLast).0)
    ensures forall d :: Contents(StoreTmplt(w, c, ttype, raw, keepLast).0, d) == Contents(w, d)
    ensures StoreTmplt(w, c, ttype, raw, keepLast).1 == Ok || StoreTmplt(w, c, ttype, raw, keepLast).1 == ErrFormat
  {
    hide Inv, Decodable, OdidOk, ParseFields, MinLength, DiskRecs, MsgList;
    var o := w.ctxs[c];
    OdidOf(w, c);
    match Parse(ttype, raw)
    case None =>
    case Some(t) =>
      assert t.ttype == ttype && t.raw == raw && t.id == FromBe16(raw[..2]);
      TmpltStored(o.tmplts, o.data, t);
      var m := o.tmplts[t.id as nat := t];
      var last := if keepLast then o.last else None;
      LastStored(w, c, t, keepLast);
      StoredOk(w.codec, w.blocks, w.sessions.Keys, c, o, m, last);
      var o' := o.(tmplts := m, toff := 0, last := last);
      SetOdidKeeps(w, c, o');
      forall d ensures Contents(SetOdid(w, c, o'), d) == Contents(w, d) {
        SetOdidContents(w, c, o', d);
      }
  }

  /** The template used last is still current when one with another ID is added. */
  lemma LastStored(w: Writer, c: Ctx, t: Template, keepLast: bool)
    requires Inv(w) && c in w.ctxs && (keepLast ==> t.id as nat !in w.ctxs[c].tmplts)
    ensures
      var last := if keepLast then w.ctxs[c].last else None;
      var m := w.ctxs[c].tmplts[t.id as nat := t];
      last.Some? ==> last.value.id as nat in m && m[last.value.id as nat] == last.value
  {
    hide Decodable, Inv;
    OdidOf(w, c);
  }

  lemma TmpltAddKeeps(w: Writer, ttype: U16, raw: Octets)
    requires Inv(w)
    ensures Inv(TmpltAdd(w, ttype, raw).0)
    ensures
      TmpltAdd(w, ttype, raw).1 != ErrInternal ==> forall d :: Contents(TmpltAdd(w, ttype, raw).0, d) == Contents(w, d)
  {
    hide Inv, Contents, Flush, StoreTmplt;
    if raw != [] && w.selected.Some? && w.selected.value in w.ctxs && 2 <= |raw| {
      var c := w.selected.value;
      if FromBe16(raw[..2]) !in w.ctxs[c].tmplts {
        StoreTmpltKeeps(w, c, ttype, raw, true);
      } else {
        FlushMakesRoom(w, c, 0);
        var w1 := Flush(w, c).0;
        StoreTmpltKeeps(w1, c, ttype, raw, false);
        forall d ensures Flush(w, c).1 == Ok ==> Contents(w1, d) == Contents(w, d) {
          if Flush(w, c).1 == Ok { FlushContents(w, c, d); }
        }
      }
    }
  }

  lemma RemovedOk(cd: Codec, bs: seq<Block>, sids: set<nat>, c: Ctx, o: Odid, tid: nat)
    requires OdidOk(cd, bs, sids, c, o) && o.data.msgs == []
    ensures OdidOk(cd, bs, sids, c, o.(tmplts := o.tmplts - {tid}, toff := 0, last := None))
    ensures MsgList(o.data.msgs, o.tmplts - {tid}) == MsgList(o.data.msgs, o.tmplts)
  {
    hide Parse;
  }

  lemma TmpltRemoveKeeps(w: Writer, tid: nat)
    requires Inv(w)
    ensures Inv(TmpltRemove(w, tid).0)
    ensures TmpltRemove(w, tid).1 != ErrInternal ==> forall d :: Contents(TmpltRemove(w, tid).0, d) == Contents(w, d)
  {
    hide Inv, Contents, Flush, OdidOk, MsgList;
    if w.selected.Some? && w.selected.value in w.ctxs && tid in w.ctxs[w.selected.value].tmplts {
      var c := w.selected.value;
      FlushMakesRoom(w, c, 0);
      var w1 := Flush(w, c).0;
      if Flush(w, c).1 == Ok {
        var o := w1.ctxs[c];
        OdidOf(w1, c);
        RemovedOk(w1.codec, w1.blocks, w1.sessions.Keys, c, o, tid);
        var o' := o.(tmplts := o.tmplts - {tid}, toff := 0, last := None);
        SetOdidKeeps(w1, c, o');
        forall d ensures Contents(SetOdid(w1, c, o'), d) == Contents(w, d) {
          FlushContents(w, c, d);
          SetOdidContents(w1, c, o', d);
          ContentsAt(w1, c);
        }
      }
    }
  }

  lemma ContentsAt(w: Writer, c: Ctx)
    requires c in w.ctxs
    ensures Contents(w, c) == DiskRecs(w.blocks, c) + MsgList(w.ctxs[c].data.msgs, w.ctxs[c].tmplts)
  {
  }

  // ----- contexts and sessions -----

  lemma EtimeOk(cd: Codec, bs: seq<Block>, sids: set<nat>, c: Ctx, o: Odid, etime: U32)
    requires OdidOk(cd, bs, sids, c, o)
    ensures OdidOk(cd, bs, sids, c, o.(data := o.data.(etimeSet := etime)))
  {
    hide Parse;
  }

  lemma SetEtimeKeeps(w: Writer, c: Ctx, etime: U32)
    requires Inv(w) && c in w.ctxs
    ensures Inv(SetEtime(w, c, etime))
    ensures forall d :: Contents(SetEtime(w, c, etime), d) == Contents(w, d)
  {
    hide OdidOk, MsgList, DiskRecs;
    var o := w.ctxs[c].(data := w.ctxs[c].data.(etimeSet := etime));
    OdidOf(w, c);
    EtimeOk(w.codec, w.blocks, w.sessions.Keys, c, w.ctxs[c], etime);
    SetOdidKeeps(w, c, o);
  }

  lemma NewOdidOk(cd: Codec, bs: seq<Block>, sids: set<nat>, c: Ctx)
    requires c.sid in sids
    ensures OdidOk(cd, bs, sids, c, Odid(map[], 0, Empty(c.odid, MSG_DEF_SIZE), None))
    ensures MsgList(Empty(c.odid, MSG_DEF_SIZE).msgs, map[]) == []
  {
    assert EncMsgs([]) == [];
  }

  lemma SelectKeeps(w: Writer, sid: U16, odid: U32, etime: U32)
    requires Inv(w)
    ensures Inv(SelectCtx(w, sid, odid, etime).0)
    ensures forall d :: Contents(SelectCtx(w, sid, odid, etime).0, d) == Contents(w, d)
  {
    hide Inv, SetEtime, OdidOk, MsgList, DiskRecs;
    var c := Ctx(sid, odid);
    if c in w.ctxs {
      SetEtimeKeeps(w, c, etime);
    } else if sid in w.sessions {
      var o := Odid(map[], 0, Empty(odid, MSG_DEF_SIZE), None);
      NewOdidOk(w.codec, w.blocks, w.sessions.Keys, c);
      SetOdidKeeps(w, c, o);
      SetEtimeKeeps(SetOdid(w, c, o), c, etime);
      forall d ensures Contents(SetOdid(w, c, o), d) == Contents(w, d) {
        SetOdidContents(w, c, o, d);
      }
    }
  }

  lemma SessMapsPush(sessions: map<nat, SessInfo>, ids: map<Session, nat>, s: Session, off: nat)
    requires SessMaps(sessions, ids) && s !in ids && |sessions| < MAX_SESSIONS
    ensures
      var sid := |sessions| + 1;
      sid !in sessions && SessMaps(sessions[sid := SessInfo(s, off)], ids[s := sid])
  {
    var sid := |sessions| + 1;
    var ss := sessions[sid := SessInfo(s, off)];
    assert |ss| == sid;
  }

  lemma SessBlocksNew(cd: Codec, bs: seq<Block>, sessions: map<nat, SessInfo>, list: seq<SessEntry>, s: Session)
    requires SessBlocks(cd, bs, sessions, list) && (forall k :: k in sessions <==> 1 <= k <= |sessions|)
    requires |sessions| < MAX_SESSIONS
    ensures
      var sid := |sessions| + 1;
      var off := FILE_HDR_LEN + |Render(cd, bs)|;
      SessBlocks(cd, bs + [SessionB(sid, s)], sessions[sid := SessInfo(s, off)],
        list + [SessEntry(off, SESSION_LEN, sid)])
  {
    hide Render;
    var sid := |sessions| + 1;
    var x := SessionB(sid, s);
    var off := FILE_HDR_LEN + |Render(cd, bs)|;
    SessBlocksPush(cd, bs, x, sessions, list);
    HoldsLast(cd, bs, x);
    var ss := sessions[sid := SessInfo(s, off)];
    assert |ss| == sid;
    forall k | k in ss ensures Holds(cd, bs + [x], ss[k].off, SessionB(k, ss[k].session)) {
      assert k != sid ==> k in sessions;
    }
  }

  lemma MoreSids(cd: Codec, bs: seq<Block>, sids: set<nat>, sids': set<nat>, of: seq<Block>, ctxs: map<Ctx, Odid>)
    requires sids <= sids'
    ensures BlocksOk(cd, bs, sids, of) ==> BlocksOk(cd, bs, sids', of)
    ensures OdidsOk(cd, bs, sids, ctxs) ==> OdidsOk(cd, bs, sids', ctxs)
  {
    hide Decodable, DataOk, Holds;
  }

  lemma NewSessionInv(w: Writer, s: Session)
    requires Inv(w) && ValidSession(s) && s !in w.ids && |w.sessions| < MAX_SESSIONS
    ensures Inv(SessionAdd(w, s).0)
  {
    hide BlocksOk, OdidsOk, SessBlocks, SessMaps, Render, Index, EncSession, CodecOk;
    AllListed(w);
    var sid := |w.sessions| + 1;
    var x := SessionB(sid, s);
    var sessions := w.sessions[sid := SessInfo(s, w.offset)];
    SessMapsPush(w.sessions, w.ids, s, w.offset);
    assert forall k :: k in w.sessions <==> 1 <= k <= |w.sessions| by { SidsFrom(w.sessions, w.ids); }
    SessBlocksNew(w.codec, w.blocks, w.sessions, w.table.sessions, s);
    RenderPush(w.codec, w.blocks, x);
    IndexPush(w.codec, w.blocks, x);
    MoreSids(w.codec, w.blocks, w.sessions.Keys, sessions.Keys, w.blocks, w.ctxs);
    NewSessionOk(w.codec, w.blocks, sessions.Keys, sid, s);
    BlocksOkPush(w.codec, w.blocks, x, sessions.Keys);
    OdidsOkPush(w.codec, w.blocks, x, sessions.Keys, w.ctxs);
  }

  /** All sessions are listed, so that the table takes another one. */
  lemma AllListed(w: Writer)
    requires Inv(w)
    ensures |w.table.sessions| == |w.sessions| <= MAX_SESSIONS
    ensures forall s :: s in w.ids ==> w.ids[s] in w.sessions
  {
    hide BlocksOk, OdidsOk, Index, Render;
  }

  lemma SidsFrom(sessions: map<nat, SessInfo>, ids: map<Session, nat>)
    requires SessMaps(sessions, ids)
    ensures forall k :: k in sessions <==> 1 <= k <= |sessions|
  {
  }

  lemma SessionAddKeeps(w: Writer, s: Session)
    requires Inv(w)
    ensures Inv(SessionAdd(w, s).0)
    ensures SessionAdd(w, s).1 != ErrInternal
    ensures forall d :: Contents(SessionAdd(w, s).0, d) == Contents(w, d)
  {
    hide Inv, Render, DiskRecs, MsgList;
    AllListed(w);
    if ValidSession(s) && s !in w.ids && |w.sessions| < MAX_SESSIONS {
      NewSessionInv(w, s);
      forall d ensures Contents(SessionAdd(w, s).0, d) == Contents(w, d) {
        DiskRecsPush(w.blocks, SessionB(|w.sessions| + 1, s), d);
      }
    }
  }

  lemma NewSessionOk(cd: Codec, bs: seq<Block>, sids: set<nat>, sid: U16, s: Session)
    requires ValidSession(s)
    ensures BlockOk(cd, bs, sids, SessionB(sid, s))
  {
  }
}
