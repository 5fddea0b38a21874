/** The file writer as a state machine: what each public operation does to its state. */
module Writer {
  import opened Bytes
  import opened Templates
  import opened Messages
  import opened DataBuffer
  import opened Status
  import opened Blocks
  import opened DataBlock
  import opened ContentTable

  /** Size of the file header, statistics included. */
  const FILE_HDR_LEN := 184
  const MAX_SESSIONS := 0xFFFF
  const MAX_BLOCKS := 0xFFFF_FFFF

  datatype Ctx = Ctx(sid: U16, odid: U32)

  /** One block of the file. `tmplts` are the templates in force when a Data Block was written; only their
      offset `toff` is stored. */
  datatype Block =
    | SessionB(sid: U16, session: Session)
    | TmpltsB(sid: U16, odid: U32, tmplts: TmpltMap)
    | DataB(sid: U16, odid: U32, toff: nat, msgs: seq<Msg>, tmplts: TmpltMap)

  function EncBlock(c: Codec, b: Block): Octets
  {
    match b
    case SessionB(sid, s) => EncSession(sid, s)
    case TmpltsB(sid, odid, m) => EncTmplts(sid, odid, m)
    case DataB(sid, odid, toff, msgs, _) => EncData(c, sid, odid, toff, EncMsgs(msgs))
  }

  function Render(c: Codec, bs: seq<Block>): Octets
  {
    Concat((b: Block) => EncBlock(c, b), bs)
  }

  /** `odid_info`: templates, offset of their block (0: not written), buffer, template used last. */
  datatype Odid = Odid(tmplts: TmpltMap, toff: nat, data: Buf, last: Option<Template>)

  datatype SessInfo = SessInfo(session: Session, off: nat)

  datatype Writer = Writer(
    codec: Codec, blocks: seq<Block>, offset: nat, table: Table,
    sessions: map<nat, SessInfo>, ids: map<Session, nat>,
    ctxs: map<Ctx, Odid>, selected: Option<Ctx>)

  /** A writer of a new file. */
  function Create(c: Codec): Writer
  {
    Writer(c, [], FILE_HDR_LEN, Table([], []), map[], map[], map[], None)
  }

  /** A writer that appends to the closed file of `w`: its sessions are known, its templates are not. */
  function Reopen(w: Writer): Writer
  {
    w.(ctxs := map[], selected := None)
  }

  // ----- operations -----

  function Put(w: Writer, b: Block): Writer
  {
    w.(blocks := w.blocks + [b], offset := w.offset + |EncBlock(w.codec, b)|)
  }

  function SetOdid(w: Writer, c: Ctx, o: Odid): Writer
  {
    w.(ctxs := w.ctxs[c := o])
  }

  function SetEtime(w: Writer, c: Ctx, etime: U32): Writer
    requires c in w.ctxs
  {
    SetOdid(w, c, w.ctxs[c].(data := w.ctxs[c].data.(etimeSet := etime))).(selected := Some(c))
  }

  /** `session_add`: the state, the outcome and the session ID. The Content Table refuses a session too many. */
  function SessionAdd(w: Writer, s: Session): (Writer, Status, nat)
  {
    if !ValidSession(s) then (w, ErrFormat, 0)
    else if s in w.ids then
      if w.ids[s] in w.sessions then (w, Ok, w.ids[s]) else (w, ErrInternal, 0)
    else if |w.sessions| + 1 > MAX_SESSIONS then (w, ErrDenied, 0)
    else if |w.table.sessions| > MAX_SESSIONS then (w, ErrInternal, 0)
    else
      var sid := |w.sessions| + 1;
      (Put(w, SessionB(sid, s)).(
         table := w.table.(sessions := w.table.sessions + [SessEntry(w.offset, SESSION_LEN, sid)]),
         sessions := w.sessions[sid := SessInfo(s, w.offset)],
         ids := w.ids[s := sid]), Ok, sid)
  }

  function SelectCtx(w: Writer, sid: U16, odid: U32, etime: U32): (Writer, Status)
  {
    var c := Ctx(sid, odid);
    if w.selected == Some(c) && c in w.ctxs then (SetEtime(w, c, etime), Ok)
    else if sid !in w.sessions then (w, ErrNotFound)
    else if c in w.ctxs then (SetEtime(w, c, etime), Ok)
    else
      var o := Odid(map[], 0, Empty(odid, MSG_DEF_SIZE), None);
      (SetEtime(SetOdid(w, c, o), c, etime), Ok)
  }

  /** Write the Template Block of `c` unless the one on disk is still valid. */
  function FlushTmplts(w: Writer, c: Ctx): Writer
    requires c in w.ctxs
  {
    var o := w.ctxs[c];
    if o.toff != 0 then w
    else SetOdid(Put(w, TmpltsB(c.sid, c.odid, o.tmplts)), c, o.(toff := w.offset))
  }

  /** Write the Data Block of `c`. The Content Table refuses one entry too many after the buffer is gone. */
  function FlushData(w: Writer, c: Ctx): (Writer, Status)
    requires c in w.ctxs
  {
    var o := w.ctxs[c];
    var w' := SetOdid(w, c, o.(data := Reset(o.data)));
    if |w.table.blocks| + 1 > MAX_BLOCKS then (w', ErrInternal)
    else
      var b := DataB(c.sid, c.odid, o.toff, o.data.msgs, o.tmplts);
      (Put(w', b).(table := w.table.(blocks := w.table.blocks +
         [DataEntry(w.offset, |EncBlock(w.codec, b)|, o.toff, c.odid, c.sid)])), Ok)
  }

  function Flush(w: Writer, c: Ctx): (Writer, Status)
    requires c in w.ctxs
  {
    if w.ctxs[c].data.recCnt == 0 then (w, Ok) else FlushData(FlushTmplts(w, c), c)
  }

  /** The template of a record, through the one used last. */
  function Lookup(o: Odid, tid: nat): Option<Template>
  {
    if o.last.Some? && o.last.value.id == tid then o.last
    else if tid in o.tmplts then Some(o.tmplts[tid]) else None
  }

  /** Add the record to the buffer of `c`, which has room for it if any buffer has. */
  function AddRec(w: Writer, c: Ctx, data: Octets, t: Template): (Writer, Status)
    requires c in w.ctxs
  {
    var o := w.ctxs[c];
    (SetOdid(w, c, o.(data := Add(o.data, data, t))), AddStatus(o.data, data, t))
  }

  function WriteRec(w: Writer, tid: nat, data: Octets): (Writer, Status)
  {
    if data == [] || w.selected.None? || w.selected.value !in w.ctxs then (w, ErrArg)
    else
      var c := w.selected.value;
      var o := w.ctxs[c];
      match Lookup(o, tid)
      case None => (w, ErrNotFound)
      case Some(t) =>
        var w1 := SetOdid(w, c, o.(last := Some(t)));
        if |data| > Remains(o.data) then
          var (w2, st) := Flush(w1, c);
          if st != Ok then (w2, st) else AddRec(w2, c, data, t)
        else AddRec(w1, c, data, t)
  }

  /** `Block_templates::add`, after which the Template Block on disk is out of date. */
  function StoreTmplt(w: Writer, c: Ctx, ttype: U16, raw: Octets, keepLast: bool): (Writer, Status)
    requires c in w.ctxs
  {
    match Parse(ttype, raw)
    case None => (w, ErrFormat)
    case Some(t) =>
      var o := w.ctxs[c];
      var o' := o.(tmplts := o.tmplts[t.id as nat := t], toff := 0, last := if keepLast then o.last else None);
      (SetOdid(w, c, o'), Ok)
  }

  function TmpltAdd(w: Writer, ttype: U16, raw: Octets): (Writer, Status)
  {
    if raw == [] || w.selected.None? || w.selected.value !in w.ctxs then (w, ErrArg)
    else if |raw| < 2 then (w, ErrFormat)
    else
      var c := w.selected.value;
      var o := w.ctxs[c];
      var tid := FromBe16(raw[..2]);
      if tid !in o.tmplts then StoreTmplt(w, c, ttype, raw, true)
      else if o.tmplts[tid].ttype == ttype && o.tmplts[tid].raw == raw then (w, Ok)
      else
        var (w1, st) := Flush(w, c);
        if st != Ok then (w1, st) else StoreTmplt(w1, c, ttype, raw, false)
  }

  function TmpltRemove(w: Writer, tid: nat): (Writer, Status)
  {
    if w.selected.None? || w.selected.value !in w.ctxs then (w, ErrArg)
    else
      var c := w.selected.value;
      if tid !in w.ctxs[c].tmplts then (w, ErrNotFound)
      else
        var (w1, st) := Flush(w, c);
        if st != Ok then (w1, st)
        else
          var o := w1.ctxs[c];
          (SetOdid(w1, c, o.(tmplts := o.tmplts - {tid}, toff := 0, last := None)), Ok)
  }

  // ----- closing -----

  /** Position of a context in the order of the two nested maps. */
  function CtxKey(c: Ctx): nat
  {
    c.sid * 0x1_0000_0000 + c.odid
  }

  function CtxOf(k: nat): Ctx
  {
    Ctx(k / 0x1_0000_0000 % 0x1_0000, k % 0x1_0000_0000)
  }

  function CtxKeys(w: Writer): set<nat>
  {
    set c | c in w.ctxs :: CtxKey(c)
  }

  /** Flush the contexts `ks` in turn; the first failure ends it. */
  function FlushSeq(w: Writer, ks: seq<nat>): (Writer, Status)
    decreases |ks|
  {
    if ks == [] then (w, Ok)
    else if CtxOf(ks[0]) !in w.ctxs then FlushSeq(w, ks[1..])
    else
      var (w1, st) := Flush(w, CtxOf(ks[0]));
      if st != Ok then (w1, st) else FlushSeq(w1, ks[1..])
  }

  /** `flush_all` in the destructor; only when it succeeds is the Content Table written. */
  function FlushAll(w: Writer): (Writer, Status)
  {
    FlushSeq(w, Sorted(CtxKeys(w)))
  }

  // ----- runs -----

  type Data16 = s: Octets | |s| <= 0xFFFF

  datatype Op =
    | OpSession(session: Session)
    | OpSelect(sid: U16, odid: U32, etime: U32)
    | OpTmplt(ttype: U16, raw: Data16)
    | OpRemove(tid: U16)
    | OpRec(rid: U16, data: Data16)
    | OpReopen

  function Step(w: Writer, op: Op): (Writer, Status)
  {
    match op
    case OpSession(s) => var (w', st, _) := SessionAdd(w, s); (w', st)
    case OpSelect(sid, odid, etime) => SelectCtx(w, sid, odid, etime)
    case OpTmplt(ttype, raw) => TmpltAdd(w, ttype, raw)
    case OpRemove(tid) => TmpltRemove(w, tid)
    case OpRec(tid, data) => WriteRec(w, tid, data)
    case OpReopen => var (w', st) := FlushAll(w); (Reopen(w'), st)
  }

  function Run(w: Writer, ops: seq<Op>): Writer
    decreases |ops|
  {
    if ops == [] then w else Run(Step(w, ops[0]).0, ops[1..])
  }

  /** A run in which nothing ran into the limits of the file format. */
  predicate NoOverflow(w: Writer, ops: seq<Op>)
    decreases |ops|
  {
    ops != [] ==> Step(w, ops[0]).1 != ErrInternal && NoOverflow(Step(w, ops[0]).0, ops[1..])
  }
}
