/** What a client sees of a file writer: sessions, contexts with templates and Export Time, and the records it was
    told are written. There are no buffers, blocks or caches here, and the writer behaves exactly like this. */
module Reference {
  import opened Bytes
  import opened Templates
  import opened Messages
  import opened DataBuffer
  import opened Status
  import opened Blocks
  import opened DataBlock
  import opened ContentTable
  import opened Writer
  import opened WriterProofs
  import opened WriterRuns
  import opened WriterHistory

  datatype Context = Context(tmplts: TmpltMap, etime: U32)

  /** The session with ID k is `sessions[k - 1]`. */
  datatype Client = Client(sessions: seq<Session>, ctxs: map<Ctx, Context>, selected: Option<Ctx>)

  const NEW_CLIENT := Client([], map[], None)

  predicate Selected(s: Client)
  {
    s.selected.Some? && s.selected.value in s.ctxs
  }

  function SetTmplts(s: Client, m: TmpltMap): Client
    requires Selected(s)
  {
    s.(ctxs := s.ctxs[s.selected.value := s.ctxs[s.selected.value].(tmplts := m)])
  }

  /** A complete definition replaces the one under its ID; a malformed one changes nothing. */
  function Define(s: Client, ttype: U16, raw: Octets): (Client, Status)
  {
    if raw == [] || !Selected(s) then (s, ErrArg)
    else
      match Parse(ttype, raw)
      case None => (s, ErrFormat)
      case Some(t) => (SetTmplts(s, s.ctxs[s.selected.value].tmplts[t.id as nat := t]), Ok)
  }

  /** What a call does and how it ends. */
  function Expect(s: Client, op: Op): (Client, Status)
  {
    match op
    case OpSession(x) =>
      if x.proto > 3 then (s, ErrFormat)
      else if x in s.sessions then (s, Ok)
      else if |s.sessions| == 65535 then (s, ErrDenied)
      else (s.(sessions := s.sessions + [x]), Ok)
    case OpSelect(sid, odid, etime) =>
      if !(1 <= sid <= |s.sessions|) then (s, ErrNotFound)
      else
        var c := Ctx(sid, odid);
        var tmplts := if c in s.ctxs then s.ctxs[c].tmplts else map[];
        (s.(ctxs := s.ctxs[c := Context(tmplts, etime)], selected := Some(c)), Ok)
    case OpTmplt(ttype, raw) => Define(s, ttype, raw)
    case OpRemove(tid) =>
      if !Selected(s) then (s, ErrArg)
      else if tid as nat !in s.ctxs[s.selected.value].tmplts then (s, ErrNotFound)
      else (SetTmplts(s, s.ctxs[s.selected.value].tmplts - {tid as nat}), Ok)
    case OpRec(tid, data) => (s, RecStatus(s, tid, data))
    case OpReopen => (Client(s.sessions, map[], None), Ok)
  }

  /** A record is accepted when it is exactly one record of the template under the ID and fits into a Message. */
  function RecStatus(s: Client, tid: nat, data: Octets): Status
  {
    if data == [] || !Selected(s) then ErrArg
    else if tid !in s.ctxs[s.selected.value].tmplts then ErrNotFound
    else if RecLen(data, s.ctxs[s.selected.value].tmplts[tid]) != Some(|data|) || |data| > 65515 then ErrFormat
    else Ok
  }

  function ExpectAll(s: Client, ops: seq<Op>): Client
    decreases |ops|
  {
    if ops == [] then s else ExpectAll(Expect(s, ops[0]).0, ops[1..])
  }

  /** The record that a call writes for `c`, with the Export Time and the template that are then in force. */
  function Record(s: Client, op: Op, c: Ctx): seq<Rec>
  {
    if op.OpRec? && s.selected == Some(c) && RecStatus(s, op.rid, op.data) == Ok
    then [Rec(s.ctxs[c].etime, s.ctxs[c].tmplts[op.rid as nat], op.data)] else []
  }

  /** All records that the calls write for `c`, in the order of the calls. */
  function Log(s: Client, ops: seq<Op>, c: Ctx): seq<Rec>
    decreases |ops|
  {
    if ops == [] then [] else Record(s, ops[0], c) + Log(Expect(s, ops[0]).0, ops[1..], c)
  }

  /** How the calls end. */
  function Outcomes(s: Client, ops: seq<Op>): (sts: seq<Status>)
    ensures |sts| == |ops|
    decreases |ops|
  {
    if ops == [] then [] else [Expect(s, ops[0]).1] + Outcomes(Expect(s, ops[0]).0, ops[1..])
  }

  // ----- the writer is such a machine -----

  function View(ctxs: map<Ctx, Odid>): map<Ctx, Context>
  {
    map c | c in ctxs :: Context(ctxs[c].tmplts, ctxs[c].data.etimeSet)
  }

  predicate Has(sessions: map<nat, SessInfo>, sid: nat, x: Session)
  {
    sid in sessions && sessions[sid].session == x
  }

  ghost predicate Listed(sessions: map<nat, SessInfo>, list: seq<Session>)
  {
    |list| == |sessions| && forall k :: 0 <= k < |list| ==> Has(sessions, k + 1, list[k])
  }

  /** The client sees the writer `w` as `s`. */
  ghost predicate Looks(w: Writer, s: Client)
  {
    Listed(w.sessions, s.sessions) && s.ctxs == View(w.ctxs) && s.selected == w.selected
  }

  lemma NewLooks(cd: Codec)
    ensures Looks(Create(cd), NEW_CLIENT)
  {
  }

  lemma ViewAt(ctxs: map<Ctx, Odid>)
    ensures View(ctxs).Keys == ctxs.Keys
    ensures forall c :: c in ctxs ==> View(ctxs)[c] == Context(ctxs[c].tmplts, ctxs[c].data.etimeSet)
  {
  }

  lemma ListedLength(sessions: map<nat, SessInfo>, list: seq<Session>)
    requires Listed(sessions, list)
    ensures |sessions| == |list|
  {
  }

  lemma Facts(w: Writer, s: Client)
    requires Inv(w) && Looks(w, s)
    ensures s.selected == w.selected && (Selected(s) <==> w.selected.Some?)
    ensures w.selected.Some? ==> w.selected.value in w.ctxs
    ensures forall c :: c in w.ctxs ==> c in s.ctxs && s.ctxs[c] == Context(w.ctxs[c].tmplts, w.ctxs[c].data.etimeSet)
    ensures s.ctxs.Keys == w.ctxs.Keys
    ensures forall k :: k in w.sessions <==> 1 <= k <= |s.sessions|
  {
    hide Inv, View, Listed, SessMaps;
    SelectedIn(w);
    MapsOf(w);
    SidsFrom(w.sessions, w.ids);
    ListedLength(w.sessions, s.sessions);
    ViewAt(w.ctxs);
  }

  lemma MapsOf(w: Writer)
    requires Inv(w)
    ensures SessMaps(w.sessions, w.ids)
  {
  }

  lemma SelectedIn(w: Writer)
    requires Inv(w)
    ensures w.selected.Some? ==> w.selected.value in w.ctxs
  {
    hide BlocksOk, OdidsOk, Index, Render, SessMaps, SessBlocks;
  }

  lemma SetOdidView(ctxs: map<Ctx, Odid>, c: Ctx, o: Odid)
    ensures View(ctxs[c := o]) == View(ctxs)[c := Context(o.tmplts, o.data.etimeSet)]
  {
  }

  /** A flush cannot be seen. */
  lemma FlushLooks(w: Writer, c: Ctx, s: Client)
    requires Inv(w) && c in w.ctxs && Looks(w, s)
    ensures Looks(Flush(w, c).0, s) && Inv(Flush(w, c).0) && c in Flush(w, c).0.ctxs
  {
    hide Inv, Flush, Listed, View;
    NoRecordNoMsg(w, c);
    FlushFrame(w, c);
    FlushSessions(w, c);
    FlushInv(w, c);
    var w' := Flush(w, c).0;
    SameView(w'.ctxs, w.ctxs);
  }

  lemma NoRecordNoMsg(w: Writer, c: Ctx)
    requires Inv(w) && c in w.ctxs
    ensures w.ctxs[c].data.recCnt == 0 ==> w.ctxs[c].data.msgs == []
  {
    hide Inv;
    OdidOf(w, c);
  }

  lemma SameView(a: map<Ctx, Odid>, b: map<Ctx, Odid>)
    requires a.Keys == b.Keys
    requires forall c :: c in a && c in b ==> a[c].tmplts == b[c].tmplts && a[c].data.etimeSet == b[c].data.etimeSet
    ensures View(a) == View(b)
  {
    ViewAt(a);
    ViewAt(b);
    hide View;
    assert forall c :: c in a ==> View(a)[c] == View(b)[c];
  }

  lemma FlushSessions(w: Writer, c: Ctx)
    requires c in w.ctxs
    ensures Flush(w, c).0.sessions == w.sessions
  {
  }

  // ----- sessions and contexts -----

  lemma KnownSession(w: Writer, list: seq<Session>, x: Session)
    requires SessMaps(w.sessions, w.ids) && Listed(w.sessions, list)
    ensures x in w.ids <==> x in list
  {
    if x in w.ids {
      assert Has(w.sessions, (w.ids[x] - 1) + 1, list[w.ids[x] - 1]);
    }
    if x in list {
      var k :| 0 <= k < |list| && list[k] == x;
      assert Has(w.sessions, k + 1, list[k]);
    }
  }

  lemma MoreListed(sessions: map<nat, SessInfo>, list: seq<Session>, x: Session, off: nat)
    requires Listed(sessions, list) && |list| + 1 !in sessions
    ensures Listed(sessions[|list| + 1 := SessInfo(x, off)], list + [x])
  {
    var ss := sessions[|list| + 1 := SessInfo(x, off)];
    assert |ss| == |sessions| + 1;
    forall k | 0 <= k < |list + [x]| ensures Has(ss, k + 1, (list + [x])[k]) {
      if k < |list| { assert Has(sessions, k + 1, list[k]); }
    }
  }

  lemma SessionLooks(w: Writer, s: Client, x: Session)
    requires Inv(w) && Looks(w, s)
    ensures Looks(SessionAdd(w, x).0, Expect(s, OpSession(x)).0) && SessionAdd(w, x).1 == Expect(s, OpSession(x)).1
  {
    hide Inv, View, Render, Index, Listed, SessMaps, EncBlock, EncSession;
    AllListed(w);
    MapsOf(w);
    Facts(w, s);
    KnownSession(w, s.sessions, x);
    ListedLength(w.sessions, s.sessions);
    if ValidSession(x) && x !in w.ids && |w.sessions| < MAX_SESSIONS {
      MoreListed(w.sessions, s.sessions, x, w.offset);
    }
  }

  lemma SelectLooks(w: Writer, s: Client, sid: U16, odid: U32, etime: U32)
    requires Inv(w) && Looks(w, s)
    ensures Looks(SelectCtx(w, sid, odid, etime).0, Expect(s, OpSelect(sid, odid, etime)).0)
    ensures SelectCtx(w, sid, odid, etime).1 == Expect(s, OpSelect(sid, odid, etime)).1
  {
    hide Inv, View, Listed;
    var c := Ctx(sid, odid);
    if c in w.ctxs { ContextHasSession(w, c); }
    Facts(w, s);
    if sid in w.sessions {
      var o := if c in w.ctxs then w.ctxs[c] else Odid(map[], 0, Empty(odid, MSG_DEF_SIZE), None);
      var o' := o.(data := o.data.(etimeSet := etime));
      assert w.ctxs[c := o][c := o'] == w.ctxs[c := o'];
      SetOdidView(w.ctxs, c, o');
    }
  }

  lemma ContextHasSession(w: Writer, c: Ctx)
    requires Inv(w) && c in w.ctxs
    ensures c.sid as nat in w.sessions
  {
    hide BlocksOk, Index, Render, SessBlocks, CodecOk, SessMaps, Decodable, Holds;
    assert OdidOk(w.codec, w.blocks, w.sessions.Keys, c, w.ctxs[c]);
  }

  // ----- templates -----

  lemma StoreLooks(w: Writer, s: Client, c: Ctx, ttype: U16, raw: Octets, keepLast: bool)
    requires Inv(w) && Looks(w, s) && w.selected == Some(c) && c in w.ctxs && raw != []
    ensures
      var (w', st) := StoreTmplt(w, c, ttype, raw, keepLast);
      Looks(w', Define(s, ttype, raw).0) && st == Define(s, ttype, raw).1
  {
    Facts(w, s);
    hide Inv, View, Listed, Parse;
    match Parse(ttype, raw)
    case None =>
    case Some(t) =>
      var o := w.ctxs[c];
      SetOdidView(w.ctxs, c,
        o.(tmplts := o.tmplts[t.id as nat := t], toff := 0, last := if keepLast then o.last else None));
  }

  lemma SameDefinition(m: TmpltMap, tid: nat, ttype: U16, raw: Octets)
    requires TmpltsOk(m) && tid in m && m[tid].ttype == ttype && m[tid].raw == raw
    ensures Parse(ttype, raw) == Some(m[tid]) && m[m[tid].id as nat := m[tid]] == m
  {
    assert Parse(m[tid].ttype, m[tid].raw) == Some(m[tid]);
    hide Parse;
  }

  /** Defining a template again as it is changes nothing. */
  lemma Redefined(w: Writer, s: Client, c: Ctx, tid: nat, ttype: U16, raw: Octets)
    requires Inv(w) && Looks(w, s) && w.selected == Some(c) && c in w.ctxs && raw != [] && tid in w.ctxs[c].tmplts
    requires w.ctxs[c].tmplts[tid].ttype == ttype && w.ctxs[c].tmplts[tid].raw == raw
    ensures Define(s, ttype, raw) == (s, Ok)
  {
    hide Inv, View, Listed, Parse, TmpltsOk;
    TmpltsOf(w, c);
    SameDefinition(w.ctxs[c].tmplts, tid, ttype, raw);
    Facts(w, s);
    assert s.ctxs[c := s.ctxs[c]] == s.ctxs;
  }

  lemma TmpltsOf(w: Writer, c: Ctx)
    requires Inv(w) && c in w.ctxs
    ensures TmpltsOk(w.ctxs[c].tmplts)
  {
    OdidOf(w, c);
    hide Inv, TmpltsOk;
  }

  lemma ShortRaw(ttype: U16, raw: Octets)
    requires |raw| < 2
    ensures Parse(ttype, raw) == None
  {
  }

  lemma TmpltLooks(w: Writer, s: Client, ttype: U16, raw: Octets)
    requires Inv(w) && Looks(w, s) && TmpltAdd(w, ttype, raw).1 != ErrInternal
    ensures
      Looks(TmpltAdd(w, ttype, raw).0, Define(s, ttype, raw).0) && TmpltAdd(w, ttype, raw).1 == Define(s, ttype, raw).1
  {
    Facts(w, s);
    hide Inv, Looks, Flush, StoreTmplt, FromBe16, Parse;
    if raw != [] && w.selected.Some? {
      var c := w.selected.value;
      if |raw| < 2 {
        ShortRaw(ttype, raw);
      } else if FromBe16(raw[..2]) !in w.ctxs[c].tmplts {
        StoreLooks(w, s, c, ttype, raw, true);
      } else if w.ctxs[c].tmplts[FromBe16(raw[..2])].ttype == ttype && w.ctxs[c].tmplts[FromBe16(raw[..2])].raw == raw {
        Redefined(w, s, c, FromBe16(raw[..2]), ttype, raw);
      } else {
        FlushLooks(w, c, s);
        SelectedKept(w, c);
        StoreLooks(Flush(w, c).0, s, c, ttype, raw, false);
      }
    }
  }

  lemma SelectedKept(w: Writer, c: Ctx)
    requires c in w.ctxs
    ensures Flush(w, c).0.selected == w.selected
    ensures Flush(w, c).1 == Ok || Flush(w, c).1 == ErrInternal
  {
  }

  lemma RemoveLooks(w: Writer, s: Client, tid: U16)
    requires Inv(w) && Looks(w, s) && TmpltRemove(w, tid).1 != ErrInternal
    ensures
      Looks(TmpltRemove(w, tid).0, Expect(s, OpRemove(tid)).0) && TmpltRemove(w, tid).1 == Expect(s, OpRemove(tid)).1
  {
    hide Inv, View, Listed, Flush, Looks;
    Facts(w, s);
    if w.selected.Some? && tid as nat in w.ctxs[w.selected.value].tmplts {
      var c := w.selected.value;
      FlushLooks(w, c, s);
      SelectedKept(w, c);
      DropLooks(Flush(w, c).0, s, c, tid);
    }
  }

  lemma DropLooks(w: Writer, s: Client, c: Ctx, tid: nat)
    requires Inv(w) && Looks(w, s) && w.selected == Some(c) && c in w.ctxs && tid in s.ctxs[c].tmplts
    ensures Looks(SetOdid(w, c, w.ctxs[c].(tmplts := w.ctxs[c].tmplts - {tid}, toff := 0, last := None)),
                  SetTmplts(s, s.ctxs[c].tmplts - {tid}))
  {
    hide Inv, View, Listed;
    Facts(w, s);
    SetOdidView(w.ctxs, c, w.ctxs[c].(tmplts := w.ctxs[c].tmplts - {tid}, toff := 0, last := None));
  }

  // ----- records -----

  lemma AddRecLooks(w: Writer, s: Client, c: Ctx, data: Octets, t: Template)
    requires Inv(w) && Looks(w, s) && c in w.ctxs && |data| <= Remains(w.ctxs[c].data)
    ensures Looks(AddRec(w, c, data, t).0, s)
    ensures
      AddRec(w, c, data, t).1 == if RecLen(data, t) != Some(|data|) || |data| > MAX_REC_SIZE then ErrFormat else Ok
  {
    hide Inv, View, Listed, RecLen, Remains, Extend;
    var o := w.ctxs[c];
    SetOdidView(w.ctxs, c, o.(data := Add(o.data, data, t)));
    ViewKept(w.ctxs, c);
  }

  lemma ViewKept(ctxs: map<Ctx, Odid>, c: Ctx)
    requires c in ctxs
    ensures View(ctxs)[c := Context(ctxs[c].tmplts, ctxs[c].data.etimeSet)] == View(ctxs)
  {
  }

  lemma AppendLooks(w: Writer, s: Client, c: Ctx, data: Data16, t: Template)
    requires Inv(w) && Looks(w, s) && c in w.ctxs && Append(w, c, data, t).1 != ErrInternal
    ensures Looks(Append(w, c, data, t).0, s)
    ensures
      Append(w, c, data, t).1 == if RecLen(data, t) != Some(|data|) || |data| > MAX_REC_SIZE then ErrFormat else Ok
  {
    hide Inv, Looks, Flush, AddRec, Remains, RecLen;
    if |data| > Remains(w.ctxs[c].data) {
      FlushMakesRoom(w, c, |data|);
      FlushLooks(w, c, s);
      AddRecLooks(Flush(w, c).0, s, c, data, t);
    } else {
      AddRecLooks(w, s, c, data, t);
    }
  }

  lemma RecLooks(w: Writer, s: Client, tid: U16, data: Data16)
    requires Inv(w) && Looks(w, s) && WriteRec(w, tid, data).1 != ErrInternal
    ensures Looks(WriteRec(w, tid, data).0, s) && WriteRec(w, tid, data).1 == RecStatus(s, tid, data)
  {
    Facts(w, s);
    hide Inv, Append, RecLen, View, Listed;
    if data != [] && w.selected.Some? {
      WriteRecIs(w, tid, data);
      var c := w.selected.value;
      var o := w.ctxs[c];
      if tid as nat in o.tmplts {
        var o1 := o.(last := Some(o.tmplts[tid as nat]));
        SetOdidView(w.ctxs, c, o1);
        ViewKept(w.ctxs, c);
        AppendLooks(SetOdid(w, c, o1), s, c, data, o.tmplts[tid as nat]);
      }
    }
  }

  // ----- whole runs -----

  lemma ReopenLooks(w: Writer, s: Client)
    requires Inv(w) && Looks(w, s) && FlushAll(w).1 != ErrInternal
    ensures Looks(Reopen(FlushAll(w).0), Expect(s, OpReopen).0) && FlushAll(w).1 == Ok
  {
    hide Inv, FlushSeq, Listed, DiskRecs, Contents, Sorted, CtxKeys;
    FlushAllKeeps(w);
    FlushSeqSessions(w, Sorted(CtxKeys(w)));
    NoView();
  }

  lemma NoView()
    ensures View(map[]) == map[]
  {
  }

  lemma {:induction false} FlushSeqSessions(w: Writer, ks: seq<nat>)
    ensures FlushSeq(w, ks).0.sessions == w.sessions
    decreases |ks|
  {
    hide Flush;
    if ks != [] {
      if CtxOf(ks[0]) !in w.ctxs {
        FlushSeqSessions(w, ks[1..]);
      } else {
        FlushSessions(w, CtxOf(ks[0]));
        FlushSeqSessions(Flush(w, CtxOf(ks[0])).0, ks[1..]);
      }
    }
  }

  /** Every call of the writer does what the client expects, ends as expected, and writes the record expected. */
  lemma StepLooks(w: Writer, s: Client, op: Op, c: Ctx)
    requires Inv(w) && Looks(w, s) && Step(w, op).1 != ErrInternal
    ensures Looks(Step(w, op).0, Expect(s, op).0) && Step(w, op).1 == Expect(s, op).1
    ensures NewRec(w, op, c) == Record(s, op, c)
  {
    hide Inv, Looks, SessionAdd, SelectCtx, TmpltAdd, TmpltRemove, WriteRec, FlushAll, Define, RecStatus, Added;
    if op.OpRec? { RecordAgrees(w, s, op.rid, op.data, c); }
    match op
    case OpSession(x) => SessionLooks(w, s, x);
    case OpSelect(sid, odid, etime) => SelectLooks(w, s, sid, odid, etime);
    case OpTmplt(ttype, raw) => TmpltLooks(w, s, ttype, raw);
    case OpRemove(tid) => RemoveLooks(w, s, tid);
    case OpRec(tid, data) => RecLooks(w, s, tid, data);
    case OpReopen => ReopenLooks(w, s);
  }

  lemma RecordAgrees(w: Writer, s: Client, tid: U16, data: Data16, c: Ctx)
    requires Inv(w) && Looks(w, s) && WriteRec(w, tid, data).1 != ErrInternal
    ensures Added(w, tid, data, c) == Record(s, OpRec(tid, data), c)
  {
    Facts(w, s);
    RecLooks(w, s, tid, data);
    hide Inv, Looks, WriteRec, RecLen;
  }

  /** In every run, what the writer holds at its end is what the calls alone say. */
  lemma {:induction false} HistoryIsLog(w: Writer, s: Client, ops: seq<Op>, c: Ctx)
    requires Inv(w) && Looks(w, s) && NoOverflow(w, ops)
    ensures History(w, ops, c) == Log(s, ops, c) && Looks(Run(w, ops), ExpectAll(s, ops))
    decreases |ops|
  {
    hide Inv, Looks, Step, Expect, NewRec, Record;
    if ops != [] {
      StepInv(w, ops[0]);
      StepLooks(w, s, ops[0], c);
      HistoryIsLog(Step(w, ops[0]).0, Expect(s, ops[0]).0, ops[1..], c);
    }
  }

  lemma {:induction false} OutcomeAt(w: Writer, s: Client, ops: seq<Op>, i: nat)
    requires Inv(w) && Looks(w, s) && NoOverflow(w, ops) && i < |ops|
    ensures Step(Run(w, ops[..i]), ops[i]).1 == Outcomes(s, ops)[i]
    decreases |ops|
  {
    hide Inv, Looks, Step, Expect, NewRec, Record;
    StepLooks(w, s, ops[0], Ctx(0, 0));
    if i > 0 {
      StepInv(w, ops[0]);
      assert ops[..i][0] == ops[0] && ops[..i][1..] == ops[1..][..i - 1];
      OutcomeAt(Step(w, ops[0]).0, Expect(s, ops[0]).0, ops[1..], i - 1);
    }
  }
}
