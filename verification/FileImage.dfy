/** The octets of a whole file and what a reader makes of them. */
module FileImage {
  import opened Bytes
  import opened Templates
  import opened Messages
  import opened DataBuffer
  import opened Status
  import opened Blocks
  import opened DataBlock
  import opened ContentTable
  import opened Writer
  import opened WriterProofs
  import opened WriterRuns
  import opened WriterHistory

  const FILE_MAGIC := 0x31534446
  const FILE_VERSION := 1

  // ----- file header -----

  /** The two packing algorithms available to writers and readers. */
  datatype Env = Env(lz4: Codec, zstd: Codec)

  ghost predicate EnvOk(env: Env)
  {
    && env.lz4.Packed? && env.lz4.alg == ALG_LZ4 && CodecOk(env.lz4)
    && env.zstd.Packed? && env.zstd.alg == ALG_ZSTD && CodecOk(env.zstd)
  }

  function CodecFor(env: Env, alg: Byte): Codec
  {
    if alg == ALG_LZ4 then env.lz4 else if alg == ALG_ZSTD then env.zstd else Plain
  }

  function AlgOf(c: Codec): Byte
  {
    if c.Plain? then ALG_NONE else c.alg
  }

  /** The file header; the statistics behind it are not modelled and stay zero. */
  function FileHeader(alg: Byte, tableOff: nat): (b: Octets)
    ensures |b| == FILE_HDR_LEN
  {
    Le32(FILE_MAGIC) + [FILE_VERSION, alg] + Le16(0) + Le64(tableOff) + seq(168, _ => 0)
  }

  datatype HeaderInfo = HeaderInfo(version: Byte, alg: Byte, tableOff: U64)

  /** `file_hdr_load` */
  function LoadHeader(file: Octets): Option<HeaderInfo>
  {
    var b := ReadAt(file, 0, FILE_HDR_LEN);
    if |b| != FILE_HDR_LEN || FromLe32(b[..4]) != FILE_MAGIC || b[5] > ALG_ZSTD then None
    else Some(HeaderInfo(b[4], b[5], FromLe64(b[8..16])))
  }

  lemma HeaderRoundTrip(alg: Byte, tableOff: U64, rest: Octets)
    requires alg <= ALG_ZSTD
    ensures LoadHeader(FileHeader(alg, tableOff) + rest) == Some(HeaderInfo(FILE_VERSION, alg, tableOff))
  {
    var h := FileHeader(alg, tableOff);
    assert ReadAt(h + rest, 0, FILE_HDR_LEN) == h;
    assert h[..4] == Le32(FILE_MAGIC) && h[8..16] == Le64(tableOff) && h[4] == FILE_VERSION && h[5] == alg;
    Le32RoundTrip(FILE_MAGIC);
    Le64RoundTrip(tableOff);
  }

  // ----- a closed file -----

  /** Header, blocks, Content Table, and whatever may lie behind it. */
  function Image(w: Writer, rest: Octets): Octets
  {
    FileHeader(AlgOf(w.codec), w.offset) + Render(w.codec, w.blocks) + EncTable(w.table) + rest
  }

  /** The limits of the format on file offsets and on the number of Data Blocks. */
  ghost predicate Small(w: Writer)
  {
    w.offset < 0x8000_0000_0000_0000 && |w.table.blocks| <= MAX_BLOCKS
  }

  /** All limits of the format, that on the size of raw templates included. */
  ghost predicate Fits(w: Writer)
  {
    && Small(w)
    && forall k :: 0 <= k < |w.blocks| && w.blocks[k].TmpltsB? ==> RawsFit(w.blocks[k].tmplts)
  }

  lemma {:induction false} RenderSplit(cd: Codec, bs: seq<Block>, k: nat)
    requires k < |bs|
    ensures Render(cd, bs) == Render(cd, bs[..k]) + EncBlock(cd, bs[k]) + Render(cd, bs[k + 1..])
  {
    assert bs == bs[..k] + [bs[k]] + bs[k + 1..];
    RenderPush(cd, bs[..k], bs[k]);
    ConcatAppend((x: Block) => EncBlock(cd, x), bs[..k] + [bs[k]], bs[k + 1..]);
  }

  /** A block that the writer placed at `off` is found there in the file. */
  lemma HoldsAt(hdr: Octets, cd: Codec, bs: seq<Block>, rest: Octets, off: nat, b: Block)
    requires |hdr| == FILE_HDR_LEN && Holds(cd, bs, off, b)
    ensures At(hdr + Render(cd, bs) + rest, off, EncBlock(cd, b))
    ensures off + |EncBlock(cd, b)| <= FILE_HDR_LEN + |Render(cd, bs)|
  {
    var k :| 0 <= k < |bs| && bs[k] == b && off == FILE_HDR_LEN + |Render(cd, bs[..k])|;
    RenderSplit(cd, bs, k);
    PartAt(hdr, Render(cd, bs[..k]), EncBlock(cd, b), Render(cd, bs[k + 1..]), rest);
  }

  lemma PartAt(hdr: Octets, pre: Octets, part: Octets, post: Octets, rest: Octets)
    ensures At(hdr + (pre + part + post) + rest, |hdr| + |pre|, part)
  {
    assert hdr + (pre + part + post) + rest == hdr + pre + part + (post + rest);
  }

  // ----- reading one Data Block -----

  /** `get_sblock`: the first listed Session Block with this ID, which must carry it. */
  function FindSession(file: Octets, list: seq<SessEntry>, sid: U16): Option<Session>
  {
    if list == [] then None
    else if list[0].sid != sid then FindSession(file, list[1..], sid)
    else
      match LoadSession(file, list[0].off)
      case None => None
      case Some(p) => if p.0 == sid then Some(p.1) else None
  }

  /** What `scheduler_next2current` needs of a listed Data Block: its octets and its templates, after all
      cross-checks between Content Table, Session, Template and Data Block. */
  function OpenEntry(cd: Codec, file: Octets, t: Table, e: DataEntry): Option<(Octets, TmpltMap)>
  {
    if FindSession(file, t.sessions, e.sid).None? then None
    else
      match LoadTmplts(file, e.toff)
      case None => None
      case Some(tb) =>
        if tb.sid != e.sid || tb.odid != e.odid || !tb.load.Loaded? then None
        else
          match LoadData(cd, file, e.off, e.len)
          case None => None
          case Some(d) =>
            if d.sid != e.sid || d.odid != e.odid || d.toff != e.toff then None else Some((d.content, tb.load.tmplts))
  }

  /** The records of a listed block; `None` when any step raises an error. */
  function EntryRecs(cd: Codec, file: Octets, t: Table, e: DataEntry): Option<seq<Rec>>
  {
    match OpenEntry(cd, file, t, e)
    case None => None
    case Some(p) => var s := MsgsOf(p.0, p.1); if s.end == Eoc then Some(s.recs) else None
  }

  lemma {:induction false} FindSessionAt(file: Octets, list: seq<SessEntry>, k: nat, s: Session)
    requires k < |list| && (forall j :: 0 <= j < |list| ==> list[j].sid == j + 1)
    requires LoadSession(file, list[k].off) == Some((list[k].sid, s))
    ensures FindSession(file, list, list[k].sid) == Some(s)
  {
    SkipSessions(file, list, 0, k);
    assert list[k..][0] == list[k];
    assert list[0..] == list;
  }

  lemma {:induction false} SkipSessions(file: Octets, list: seq<SessEntry>, i: nat, k: nat)
    requires i <= k < |list| && (forall j :: 0 <= j < |list| ==> list[j].sid == j + 1)
    ensures FindSession(file, list[i..], list[k].sid) == FindSession(file, list[k..], list[k].sid)
    decreases k - i
  {
    if i < k {
      assert list[i..][0] == list[i] && list[i..][1..] == list[i + 1..];
      SkipSessions(file, list, i + 1, k);
    }
  }

  /** The parts of a file image around its blocks. */
  lemma ImageParts(w: Writer, rest: Octets)
    ensures
      Image(w, rest) == FileHeader(AlgOf(w.codec), w.offset) + Render(w.codec, w.blocks) + (EncTable(w.table) + rest)
  {
    hide FileHeader, Render, EncTable;
  }

  lemma TmpltsLoad(w: Writer, hdr: Octets, tail: Octets, off: nat, sid: U16, odid: U32, m: TmpltMap)
    requires Inv(w) && Small(w) && |hdr| == FILE_HDR_LEN && TmpltsOk(m) && RawsShort(m)
    requires Holds(w.codec, w.blocks, off, TmpltsB(sid, odid, m))
    ensures
      LoadTmplts(hdr + Render(w.codec, w.blocks) + tail, off) ==
        Some(TmpltBlock(sid, odid, if RawsFit(m) then Loaded(m) else Runaway))
  {
    TemplatesInside(w, off, sid, odid, m);
    hide Inv, TmpltsOk, RawsShort, RawsFit, LoadTmplts, Render, EncTmplts;
    HoldsAt(hdr, w.codec, w.blocks, tail, off, TmpltsB(sid, odid, m));
    TmpltsRoundTripExactly(hdr + Render(w.codec, w.blocks) + tail, off, sid, odid, m);
  }

  /** A block is the last one of the file, or a whole block header can be read behind it. */
  ghost predicate Bounded(w: Writer, tail: Octets, off: nat, b: Block)
  {
    var end := off + |EncBlock(w.codec, b)|;
    w.offset + |tail| == end || end + BHDR_LEN <= w.offset + |tail|
  }

  lemma DataLoads(w: Writer, hdr: Octets, tail: Octets, off: nat, b: Block)
    requires Inv(w) && Small(w) && |hdr| == FILE_HDR_LEN
    requires b.DataB? && Holds(w.codec, w.blocks, off, b)
    ensures
      LoadData(w.codec, hdr + Render(w.codec, w.blocks) + tail, off, |EncBlock(w.codec, b)|) ==
        if Bounded(w, tail, off, b) then Some(Data(b.sid, b.odid, b.toff, EncMsgs(b.msgs))) else None
  {
    BlockAtOff(w, off, b);
    TemplatesInside(w, b.toff, b.sid, b.odid, b.tmplts);
    NonEmptyMsgs(b.msgs);
    assert w.offset == |hdr| + |Render(w.codec, w.blocks)|;
    HoldsAt(hdr, w.codec, w.blocks, tail, off, b);
    var file := hdr + Render(w.codec, w.blocks) + tail;
    if Bounded(w, tail, off, b) {
      hide Inv, LoadData, Render, EncData, EncMsgs, CodecOk, DataOk;
      DataRoundTrip(w.codec, file, off, b.sid, b.odid, b.toff, EncMsgs(b.msgs));
    } else {
      hide Inv, Render, EncData, EncMsgs, CodecOk, DataOk, HeaderOf;
      TornLoad(w.codec, file, off, |EncBlock(w.codec, b)|);
    }
  }

  /** Part of a header behind the block is an error. */
  lemma TornLoad(cd: Codec, file: Octets, off: nat, len: nat)
    requires off + len < |file| < off + len + BHDR_LEN && 0 < len
    ensures LoadData(cd, file, off, len) == None
  {
    hide HeaderOf, Unstored;
  }

  function EntryOf(cd: Codec, off: nat, b: Block): DataEntry
    requires b.DataB?
  {
    DataEntry(off, |EncBlock(cd, b)|, b.toff, b.odid, b.sid)
  }

  /** A Data Block in a file that starts with the blocks of `w` is opened, by the Template Block that was in force when
      it was written, if and only if no raw definition in force was too long and the block is not followed by a part
      of a header. */
  lemma OpensIn(w: Writer, hdr: Octets, tail: Octets, off: nat, b: Block)
    requires Inv(w) && Small(w) && |hdr| == FILE_HDR_LEN
    requires b.DataB? && Holds(w.codec, w.blocks, off, b) && RawsShort(b.tmplts)
    ensures
      OpenEntry(w.codec, hdr + Render(w.codec, w.blocks) + tail, w.table, EntryOf(w.codec, off, b)) ==
        if RawsFit(b.tmplts) && Bounded(w, tail, off, b) then Some((EncMsgs(b.msgs), b.tmplts)) else None
  {
    BlockAtOff(w, off, b);
    hide Inv, Small, RawsShort, RawsFit, LoadData, LoadTmplts, FindSession;
    hide EncBlock, EncMsgs, MsgsOk, TmpltsOk, Render, Bounded;
    SessionLoads(w, hdr, tail, b.sid);
    TmpltsLoad(w, hdr, tail, b.toff, b.sid, b.odid, b.tmplts);
    DataLoads(w, hdr, tail, off, b);
  }

  /** The table of a closed file leaves room behind each block. */
  lemma BoundedByTable(w: Writer, rest: Octets, off: nat, b: Block)
    requires Inv(w) && Holds(w.codec, w.blocks, off, b)
    ensures Bounded(w, EncTable(w.table) + rest, off, b)
  {
    hide Render, EncBlock, EncTable;
    TableIsLong(w.table);
    HoldsAt(seq(FILE_HDR_LEN, _ => 0), w.codec, w.blocks, [], off, b);
  }

  /** A Data Block of a closed file is opened if and only if no raw definition that was in force when it was written
      was too long. */
  lemma OpensExactly(w: Writer, rest: Octets, off: nat, b: Block)
    requires Inv(w) && Small(w) && b.DataB? && Holds(w.codec, w.blocks, off, b) && RawsShort(b.tmplts)
    ensures OpenEntry(w.codec, Image(w, rest), w.table, EntryOf(w.codec, off, b)) ==
      if RawsFit(b.tmplts) then Some((EncMsgs(b.msgs), b.tmplts)) else None
  {
    hide Inv, Small, RawsShort, RawsFit, OpenEntry, EntryOf, EncMsgs, Image, Render, FileHeader, EncTable;
    hide Bounded, Holds;
    ImageParts(w, rest);
    BoundedByTable(w, rest, off, b);
    OpensIn(w, FileHeader(AlgOf(w.codec), w.offset), EncTable(w.table) + rest, off, b);
  }

  /** Every Data Block of a closed file within the limits is opened without error: an earlier Template Block
      decodes all its records, despite redefinitions and removals. */
  lemma OpensBlock(w: Writer, rest: Octets, off: nat, b: Block)
    requires Inv(w) && Fits(w) && b.DataB? && Holds(w.codec, w.blocks, off, b)
    ensures OpenEntry(w.codec, Image(w, rest), w.table, EntryOf(w.codec, off, b)) == Some((EncMsgs(b.msgs), b.tmplts))
    ensures MsgsOk(b.msgs, b.tmplts)
  {
    BlockAtOff(w, off, b);
    TemplatesFit(w, b.toff, b.sid, b.odid, b.tmplts);
    hide Inv, OpenEntry, EntryOf, Image, MsgsOk, TmpltsOk, Holds, EncMsgs;
    OpensExactly(w, rest, off, b);
  }

  lemma BlockAtOff(w: Writer, off: nat, b: Block)
    requires Inv(w) && b.DataB? && Holds(w.codec, w.blocks, off, b)
    ensures CodecOk(w.codec) && b.sid as nat in w.sessions && DataOk(w.codec, w.blocks, b)
  {
    var k :| 0 <= k < |w.blocks| && w.blocks[k] == b && off == FILE_HDR_LEN + |Render(w.codec, w.blocks[..k])|;
    assert BlockOk(w.codec, w.blocks, w.sessions.Keys, w.blocks[k]);
  }

  lemma TemplatesInside(w: Writer, off: nat, sid: U16, odid: U32, m: TmpltMap)
    requires Inv(w) && Holds(w.codec, w.blocks, off, TmpltsB(sid, odid, m))
    ensures off + |EncTmplts(sid, odid, m)| <= w.offset
  {
    var k :| 0 <= k < |w.blocks| && w.blocks[k] == TmpltsB(sid, odid, m) &&
      off == FILE_HDR_LEN + |Render(w.codec, w.blocks[..k])|;
    RenderSplit(w.codec, w.blocks, k);
  }

  lemma TemplatesFit(w: Writer, off: nat, sid: U16, odid: U32, m: TmpltMap)
    requires Fits(w) && Holds(w.codec, w.blocks, off, TmpltsB(sid, odid, m))
    ensures RawsFit(m)
  {
  }

  lemma TableIsLong(t: Table)
    ensures |EncTable(t)| >= TABLE_HDR_LEN
  {
  }

  lemma NonEmptyMsgs(ms: seq<Msg>)
    requires ms != []
    ensures EncMsgs(ms) != []
  {
    assert |EncMsg(ms[0])| >= MSG_HDR_LEN;
  }

  lemma SessionLoads(w: Writer, hdr: Octets, tail: Octets, sid: U16)
    requires Inv(w) && |hdr| == FILE_HDR_LEN && sid as nat in w.sessions
    ensures
      FindSession(hdr + Render(w.codec, w.blocks) + tail, w.table.sessions, sid) == Some(w.sessions[sid as nat].session)
  {
    hide Render, LoadSession, EncSession, BlocksOk, OdidsOk, Index;
    var file := hdr + Render(w.codec, w.blocks) + tail;
    var list := w.table.sessions;
    var s := w.sessions[sid as nat];
    assert Holds(w.codec, w.blocks, s.off, SessionB(sid, s.session));
    HoldsAt(hdr, w.codec, w.blocks, tail, s.off, SessionB(sid, s.session));
    SessionValid(w, s.off, sid, s.session);
    SessionRoundTrip(file, s.off, sid, s.session);
    forall j | 0 <= j < |list| ensures list[j].sid == j + 1 {
      assert j + 1 in w.sessions;
      assert list[(j + 1) - 1] == SessEntry(w.sessions[j + 1].off, SESSION_LEN, j + 1);
    }
    FindSessionAt(file, list, sid - 1, s.session);
  }

  lemma SessionValid(w: Writer, off: nat, sid: U16, s: Session)
    requires Inv(w) && Holds(w.codec, w.blocks, off, SessionB(sid, s))
    ensures ValidSession(s)
  {
    var k :| 0 <= k < |w.blocks| && w.blocks[k] == SessionB(sid, s) &&
      off == FILE_HDR_LEN + |Render(w.codec, w.blocks[..k])|;
    assert BlockOk(w.codec, w.blocks, w.sessions.Keys, w.blocks[k]);
  }
}
