/** The file writer: contexts with their own templates and buffers, and the octets that have reached the file. */
module FileWriter {
  import opened Bytes
  import opened Templates
  import opened Messages
  import opened Status
  import opened DataBuffer
  import opened Blocks
  import opened DataBlock
  import opened ContentTable
  import opened W = Writer
  import opened BlockTemplates
  import opened BlockContent
  import opened BlockDataWriter
  import opened SessionOrder
  import opened WriterProofs
  import opened FileImage
  import opened Reopening
  import Statistics

  /** The blocks `bs` are in the file, behind its header, and end at `offset`. */
  predicate OnDisk(file: Octets, cd: Codec, bs: seq<Block>, offset: nat)
  {
    && offset == FILE_HDR_LEN + |Render(cd, bs)| && offset <= |file|
    && At(file, 0, FileHeader(AlgOf(cd), 0)) && At(file, FILE_HDR_LEN, Render(cd, bs))
  }

  /** Writing a block at the write offset appends it; what lay there is lost. */
  lemma BlockAppended(file: Octets, cd: Codec, bs: seq<Block>, offset: nat, b: Block)
    requires OnDisk(file, cd, bs, offset)
    ensures offset <= |file|
    ensures
      var file' := Splice(file, offset, EncBlock(cd, b));
      OnDisk(file', cd, bs, offset) && OnDisk(file', cd, bs + [b], offset + |EncBlock(cd, b)|)
  {
    hide FileHeader, EncBlock;
    var file' := Splice(file, offset, EncBlock(cd, b));
    RenderPush(cd, bs, b);
    AtKept(file, offset, EncBlock(cd, b), 0, FileHeader(AlgOf(cd), 0));
    AtKept(file, offset, EncBlock(cd, b), FILE_HDR_LEN, Render(cd, bs));
    AtJoined(file', FILE_HDR_LEN, Render(cd, bs), EncBlock(cd, b));
  }

  lemma HeaderReplaced(file: Octets, cd: Codec, bs: seq<Block>)
    requires |file| >= FILE_HDR_LEN && At(file, FILE_HDR_LEN, Render(cd, bs))
    ensures OnDisk(Splice(file, 0, FileHeader(AlgOf(cd), 0)), cd, bs, FILE_HDR_LEN + |Render(cd, bs)|)
  {
    var hdr := FileHeader(AlgOf(cd), 0);
    hide FileHeader, Render;
    AtStored(file, 0, hdr);
    AtKept(file, 0, hdr, FILE_HDR_LEN, Render(cd, bs));
  }

  /** `append_prepare`: a file that was not closed, or whose parts do not load, is refused. */
  method OpenToAppend(env: Env, file: Octets, ghost bs: seq<Block>) returns (w: FileWriter?, st: Status)
    requires |file| >= FILE_HDR_LEN
    requires var a := AppendPrepare(env, file).0;
      a.Some? ==>
        && a.value.offset == FILE_HDR_LEN + |Render(a.value.codec, bs)|
        && At(file, FILE_HDR_LEN, Render(a.value.codec, bs))
    ensures st == AppendPrepare(env, file).1 && (w == null <==> st != Ok)
    ensures w != null ==> fresh(w.Footprint())
    ensures w != null ==> w.stats.Valid() && w.stats.facts == []
    ensures w != null ==>
      var a := AppendPrepare(env, file).0.value;
      w.Valid() && w.State() == W.Writer.Writer(a.codec, bs, a.offset, a.table, a.sessions, a.ids, map[], None)
  {
    hide LoadHeader, LoadTable, LoadSessions, Render, At, CodecFor, Ascending, AsMap;
    hide FileWriter.Footprint, FileWriter.Valid, FileWriter.State;
    var h := LoadHeader(file);
    if h.None? || h.value.version != FILE_VERSION { return null, ErrInternal; }
    if h.value.tableOff == 0 { return null, ErrDenied; }
    var content := new BlockContent();
    st := content.LoadFromFile(file, h.value.tableOff);
    if st != Ok { return null, ErrInternal; }
    var maps := LoadSessionMaps(file, content.sessions);
    if maps.None? { return null, ErrInternal; }
    w := new FileWriter.Append(file, content, CodecFor(env, h.value.alg), h.value.tableOff, maps.value.0, maps.value.1,
      bs);
    return w, Ok;
  }

  /** The session loop of `append_prepare`. */
  method LoadSessionMaps(file: Octets, list: seq<SessEntry>) returns (maps: Option<(map<nat, SessInfo>, seq<Entry>)>)
    ensures maps.Some? ==> Ascending(maps.value.1)
    ensures
      LoadSessions(file, list, map[], map[]) == if maps.None? then None else Some((maps.value.0, AsMap(maps.value.1)))
  {
    hide LoadSession, Less;
    var sessions: map<nat, SessInfo>, index: seq<Entry> := map[], [];
    var i := 0;
    assert list[0..] == list;
    while i < |list|
      invariant 0 <= i <= |list| && Ascending(index)
      invariant LoadSessions(file, list[i..], sessions, AsMap(index)) == LoadSessions(file, list, map[], map[])
    {
      assert list[i..][0] == list[i] && list[i..][1..] == list[i + 1..];
      var loaded := LoadSession(file, list[i].off);
      if loaded.None? || loaded.value.0 != list[i].sid { return None; }
      sessions := sessions[list[i].sid as nat := SessInfo(loaded.value.1, list[i].off)];
      index := Assign(index, loaded.value.1, list[i].sid as nat);
      i := i + 1;
    }
    return Some((sessions, index));
  }

  /** Appending to a closed file goes on where its writer stopped. */
  method AppendToClosed(env: Env, alg: Byte, file: Octets, ghost w0: W.Writer, ghost rest: Octets)
    returns (w: FileWriter?, st: Status)
    requires EnvOk(env) && alg <= ALG_ZSTD && Inv(w0) && Fits(w0) && w0.codec == CodecFor(env, alg)
    requires file == Image(w0, rest)
    ensures st == Ok && w != null && fresh(w.Footprint()) && w.Valid() && w.State() == Reopen(w0)
    ensures w.stats.Valid() && w.stats.facts == []
  {
    hide Inv, Fits, EnvOk, AppendPrepare, Render, EncTable, FileHeader;
    AppendResumes(env, alg, w0, rest);
    OffsetOf(w0);
    BodyAt(FileHeader(AlgOf(w0.codec), w0.offset), Render(w0.codec, w0.blocks), EncTable(w0.table) + rest);
    ImageParts(w0, rest);
    w, st := OpenToAppend(env, file, w0.blocks);
  }

  lemma BodyAt(hdr: Octets, body: Octets, tail: Octets)
    ensures At(hdr + body + tail, |hdr|, body)
  {
  }

  lemma FlushSeqStep(w: W.Writer, ks: seq<nat>, i: nat)
    requires i < |ks|
    ensures FlushSeq(w, ks[i..]) ==
      if CtxOf(ks[i]) !in w.ctxs then FlushSeq(w, ks[i + 1..])
      else
        var (w1, st) := W.Flush(w, CtxOf(ks[i]));
        if st != Ok then (w1, st) else FlushSeq(w1, ks[i + 1..])
  {
    hide W.Flush;
    assert ks[i..][0] == ks[i] && ks[i..][1..] == ks[i + 1..];
  }

  lemma FlushSeqDone(w: W.Writer, ks: seq<nat>)
    ensures FlushSeq(w, ks[|ks|..]) == (w, Ok)
  {
  }

  /** A file with its header and nothing else. */
  lemma NewFile(cd: Codec)
    ensures OnDisk(FileHeader(AlgOf(cd), 0), cd, [], FILE_HDR_LEN) && Ascending([]) && AsMap([]) == map[]
  {
  }

  /** The writer after a new session was written and listed. */
  function WithSession(w: W.Writer, sid: U16, s: Session): W.Writer
  {
    Put(w, SessionB(sid, s)).(
      table := w.table.(sessions := w.table.sessions + [SessEntry(w.offset, SESSION_LEN, sid)]),
      sessions := w.sessions[sid as nat := SessInfo(s, w.offset)],
      ids := w.ids[s := sid as nat])
  }

  lemma SessionBlock(cd: Codec, sid: U16, s: Session)
    ensures EncBlock(cd, SessionB(sid, s)) == EncSession(sid, s) && |EncSession(sid, s)| == SESSION_LEN
  {
  }

  /** What the statistics gain by a call of `write_rec`: what the record says if it is accepted, else nothing. */
  ghost function Tally(w: W.Writer, tid: nat, data: Octets): seq<Statistics.Fact>
  {
    if W.WriteRec(w, tid, data).1 != Ok then []
    else
      AcceptedRec(w, tid, data);
      [Statistics.FactOfRec(data, Lookup(w.ctxs[w.selected.value], tid).value)]
  }

  lemma AcceptedRec(w: W.Writer, tid: nat, data: Octets)
    requires W.WriteRec(w, tid, data).1 == Ok
    ensures w.selected.Some? && w.selected.value in w.ctxs
    ensures
      var t := Lookup(w.ctxs[w.selected.value], tid);
      t.Some? && RecLen(data, t.value) == Some(|data|)
  {
    hide W.Flush, RecLen;
  }

  /** `odid_info` */
  class OdidInfo {
    const c: Ctx
    const tblock: BlockTemplates
    const data: BlockDataWriter
    var toff: nat
    var last: Option<Template>

    ghost predicate Valid()
      reads this, tblock, data, data.buf
    {
      tblock.Valid() && data.Valid() && data.odid == c.odid && data.sizeMax == MSG_DEF_SIZE
    }

    ghost function Value(): Odid
      reads this, tblock, data
    {
      Odid(tblock.manager, toff, data.State(), last)
    }

    constructor (c: Ctx, codec: Codec)
      ensures Valid() && fresh(tblock) && fresh(data) && fresh(data.buf) && this.c == c && data.codec == codec
      ensures Value() == Odid(map[], 0, Empty(c.odid, MSG_DEF_SIZE), None)
    {
      this.c, toff, last := c, 0, None;
      tblock := new BlockTemplates();
      data := new BlockDataWriter(c.odid, codec, MSG_DEF_SIZE);
    }
  }

  class FileWriter {
    const codec: Codec
    /** Content of the file; behind `offset` it is out of date. */
    var file: Octets
    var offset: nat
    /** The Content Table as far as it is known. */
    const content: BlockContent
    const stats: Statistics.FileStats
    var sessions: map<nat, SessInfo>
    /** `m_session2id` */
    var index: seq<Entry>
    var infos: map<Ctx, OdidInfo>
    var selected: OdidInfo?
    ghost var blocks: seq<Block>
    /** What the contexts hold. */
    ghost var values: map<Ctx, Odid>

    /** The contexts share nothing. */
    ghost predicate Separate()
      reads this`infos
    {
      && (forall c :: c in infos ==> infos[c].c == c && infos[c].data.codec == codec)
      && (forall c, d :: c in infos && d in infos && c != d ==>
            infos[c].tblock != infos[d].tblock && infos[c].data != infos[d].data &&
              infos[c].data.buf != infos[d].data.buf)
    }

    ghost predicate InfosOk()
      reads this`infos, this`values, infos.Values, set c | c in infos :: infos[c].tblock,
        set c | c in infos :: infos[c].data, set c | c in infos :: infos[c].data.buf
    {
      infos.Keys == values.Keys && forall c :: c in infos ==> infos[c].Valid() && infos[c].Value() == values[c]
    }

    ghost predicate Valid()
      reads this, infos.Values, set c | c in infos :: infos[c].tblock,
        set c | c in infos :: infos[c].data, set c | c in infos :: infos[c].data.buf
    {
      && Separate() && InfosOk() && OnDisk(file, codec, blocks, offset) && Ascending(index)
      && (selected != null ==> selected.c in infos && infos[selected.c] == selected)
    }

    ghost function State(): W.Writer
      reads this, content
    {
      W.Writer.Writer(codec, blocks, offset, content.Entries(), sessions, AsMap(index), values,
        if selected == null then None else Some(selected.c))
    }

    /** Everything that belongs to the writer. */
    ghost function Footprint(): set<object>
      reads this`infos
    {
      {this, content, stats} + (set c | c in infos :: infos[c]) + (set c | c in infos :: infos[c].tblock)
      + (set c | c in infos :: infos[c].data) + (set c | c in infos :: infos[c].data.buf)
    }

    /** At most the context `c` is new, with objects of its own. */
    twostate predicate Grew(c: Ctx)
      reads this`infos
    {
      infos == old(infos) ||
      (&& c in infos && infos == old(infos)[c := infos[c]]
       && fresh(infos[c]) && fresh(infos[c].tblock) && fresh(infos[c].data) && fresh(infos[c].data.buf))
    }

    twostate lemma GrewFresh(c: Ctx)
      requires Grew(c)
      ensures fresh(Footprint() - old(Footprint()))
    {
      forall d | d in infos && d != c ensures d in old(infos) && infos[d] == old(infos)[d] {}
    }

    lemma OwnsSelected()
      requires Valid()
      ensures this in Footprint() && content in Footprint() && stats in Footprint()
      ensures selected != null ==>
        selected in Footprint() && selected.tblock in Footprint() && selected.data in Footprint() &&
          selected.data.buf in Footprint()
    {
      hide InfosOk, Ascending, AsMap, OnDisk, Separate;
      if selected != null { assert selected.c in infos && infos[selected.c] == selected; }
    }

    lemma SameKeys()
      requires InfosOk()
      ensures infos.Keys == values.Keys
    {
    }

    lemma Known(o: OdidInfo)
      requires InfosOk() && o.c in infos && infos[o.c] == o
      ensures o.c in values && o.Valid() && o.Value() == values[o.c]
    {
    }

    /** A writer of a new file. */
    constructor (codec: Codec)
      ensures Valid() && State() == Create(codec) && infos == map[] && fresh(content)
      ensures fresh(stats) && stats.Valid() && stats.facts == []
    {
      hide FileHeader, OnDisk, Ascending, AsMap, Statistics.FileStats.Valid;
      NewFile(codec);
      stats := new Statistics.FileStats();
      this.codec := codec;
      content := new BlockContent();
      file, offset := FileHeader(AlgOf(codec), 0), FILE_HDR_LEN;
      sessions, index, infos, selected := map[], [], map[], null;
      blocks, values := [], map[];
    }

    /** The state that `append_prepare` found in a file with the blocks `bs`; the header no longer names a
        Content Table. */
    constructor Append(file: Octets, content: BlockContent, codec: Codec, offset: nat,
        sessions: map<nat, SessInfo>, index: seq<Entry>, ghost bs: seq<Block>)
      requires |file| >= FILE_HDR_LEN && Ascending(index)
      requires offset == FILE_HDR_LEN + |Render(codec, bs)| && At(file, FILE_HDR_LEN, Render(codec, bs))
      ensures Valid() && infos == map[] && this.content == content && Footprint() == {this, content, stats}
      ensures fresh(stats) && stats.Valid() && stats.facts == []
      ensures State() == W.Writer.Writer(codec, bs, offset, content.Entries(), sessions, AsMap(index), map[], None)
    {
      hide FileHeader, At, Splice, Render;
      this.codec, this.content, this.offset := codec, content, offset;
      stats := new Statistics.FileStats();
      this.file := Splice(file, 0, FileHeader(AlgOf(codec), 0));
      this.sessions, this.index, infos, selected := sessions, index, map[], null;
      blocks, values := bs, map[];
      HeaderReplaced(file, codec, bs);
    }

    /** When only `o` has changed, so has only its context. */
    twostate lemma OneChanged(o: OdidInfo)
      requires infos == old(infos) && Separate() && o.c in infos && infos[o.c] == o
      requires old(InfosOk()) && o.Valid() && values == old(values)[o.c := o.Value()]
      requires forall c :: c in infos && c != o.c ==>
        unchanged(infos[c]) && unchanged(infos[c].tblock) && unchanged(infos[c].data) && unchanged(infos[c].data.buf)
      ensures InfosOk()
    {
      hide OdidInfo.Valid, OdidInfo.Value, Separate;
      forall c | c in infos ensures infos[c].Valid() && infos[c].Value() == values[c] {
        if c != o.c {
          assert old(infos[c].Valid()) && old(infos[c].Value()) == values[c];
        }
      }
    }

    /** A context with objects of its own shares nothing with the others. */
    twostate lemma StillSeparate(new o: OdidInfo)
      requires old(Separate()) && o.c !in old(infos) && infos == old(infos)[o.c := o] && o.data.codec == codec
      requires fresh(o.tblock) && fresh(o.data) && fresh(o.data.buf)
      ensures Separate()
    {
      forall c | c in infos && c != o.c ensures c in old(infos) && infos[c] == old(infos)[c] {}
    }

    twostate lemma ContextAdded(new o: OdidInfo)
      requires old(InfosOk()) && o.c !in old(infos) && infos == old(infos)[o.c := o]
      requires o.Valid() && values == old(values)[o.c := o.Value()]
      requires forall c :: c in old(infos) ==>
        unchanged(infos[c]) && unchanged(infos[c].tblock) && unchanged(infos[c].data) && unchanged(infos[c].data.buf)
      ensures InfosOk()
    {
      hide OdidInfo.Valid, OdidInfo.Value, Separate;
      forall c | c in infos ensures infos[c].Valid() && infos[c].Value() == values[c] {
        if c != o.c {
          assert old(infos[c].Valid()) && old(infos[c].Value()) == values[c];
        }
      }
    }

    /** `pwrite` of a block at the write offset. */
    method WriteBlock(block: Octets, ghost b: Block)
      requires OnDisk(file, codec, blocks, offset) && block == EncBlock(codec, b)
      modifies this`file
      ensures OnDisk(file, codec, blocks, offset) && OnDisk(file, codec, blocks + [b], offset + |block|)
    {
      hide OnDisk, EncBlock, Splice;
      BlockAppended(file, codec, blocks, offset, b);
      file := Splice(file, offset, block);
    }

    /** Write the Template Block of `o` unless the one on disk is still valid. */
    method FlushTmplts(o: OdidInfo)
      requires Valid() && o.c in infos && infos[o.c] == o
      modifies this`file, this`offset, this`blocks, this`values, o`toff
      ensures Valid() && State() == W.FlushTmplts(old(State()), o.c)
    {
      hide EncTmplts, OnDisk, EncMsgs, Splice, Good, InfosOk, Ascending, AsMap;
      Known(o);
      if o.toff == 0 {
        var block := o.tblock.WriteToFile(o.c.sid, o.c.odid);
        WriteBlock(block, TmpltsB(o.c.sid, o.c.odid, o.tblock.manager));
        o.toff := offset;
        offset := offset + |block|;
        blocks := blocks + [TmpltsB(o.c.sid, o.c.odid, o.tblock.manager)];
        values := values[o.c := o.Value()];
        OneChanged(o);
      }
    }

    /** The Data Block of `o`; its buffer is empty afterwards. */
    method TakeData(o: OdidInfo) returns (block: Octets)
      requires Valid() && o.c in infos && infos[o.c] == o && o.data.msgs != []
      modifies this`values, o.data, o.data.buf
      ensures Valid() && o.c in old(values)
      ensures
        var v := old(values)[o.c];
        && State() == SetOdid(old(State()), o.c, v.(data := Reset(v.data)))
        && block == EncData(codec, o.c.sid, o.c.odid, o.toff, EncMsgs(v.data.msgs))
    {
      hide EncData, OnDisk, EncMsgs, Good, InfosOk, Ascending, AsMap;
      Known(o);
      block := o.data.WriteToFile(o.c.sid, o.toff);
      values := values[o.c := o.Value()];
      OneChanged(o);
    }

    /** Write the octets of a Data Block and list it. */
    method PutData(block: Octets, c: Ctx, toff: nat, ghost b: Block) returns (st: Status)
      requires Valid() && b.DataB? && block == EncBlock(codec, b)
      modifies this`file, this`offset, content, this`blocks
      ensures Valid() && st == if |old(content.blocks)| + 1 > MAX_BLOCKS then ErrInternal else Ok
      ensures State() ==
        if st != Ok then old(State())
        else
          var w := old(State());
          var e := DataEntry(w.offset, |EncBlock(codec, b)|, toff, c.odid, c.sid);
          Put(w, b).(table := w.table.(blocks := w.table.blocks + [e]))
    {
      hide EncBlock, OnDisk, InfosOk, Ascending, AsMap, Separate;
      WriteBlock(block, b);
      st := content.AddDataBlock(DataEntry(offset, |block|, toff, c.odid, c.sid));
      if st != Ok { return; }
      offset := offset + |block|;
      blocks := blocks + [b];
    }

    /** Write the Data Block of `o` and list it. */
    method FlushData(o: OdidInfo) returns (st: Status)
      requires Valid() && o.c in infos && infos[o.c] == o && o.data.msgs != []
      modifies this`file, this`offset, content, this`blocks, this`values, o.data, o.data.buf
      ensures Valid() && (State(), st) == W.FlushData(old(State()), o.c)
    {
      hide EncData, OnDisk, EncMsgs, Good, InfosOk, Ascending, AsMap, Separate;
      Known(o);
      ghost var b := DataB(o.c.sid, o.c.odid, o.toff, o.data.msgs, o.tblock.manager);
      var block := TakeData(o);
      st := PutData(block, o.c, o.toff, b);
    }

    /** `flush` */
    method Flush(o: OdidInfo) returns (st: Status)
      requires Valid() && o.c in infos && infos[o.c] == o
      modifies this`file, this`offset, content, this`blocks, this`values, o`toff, o.data, o.data.buf
      ensures Valid() && (State(), st) == W.Flush(old(State()), o.c)
    {
      hide Separate, OnDisk, W.FlushTmplts, W.FlushData;
      if o.data.recCnt == 0 { return Ok; }
      FlushTmplts(o);
      st := FlushData(o);
    }

    /** `session_add` */
    method SessionAdd(s: Session) returns (st: Status, sid: nat)
      requires Valid()
      modifies this`file, this`offset, content, this`sessions, this`index, this`blocks
      ensures Valid() && (State(), st, sid) == W.SessionAdd(old(State()), s)
    {
      hide EncSession, OnDisk, InfosOk, Ascending, AsMap, Separate, Splice;
      sid := 0;
      if !ValidSession(s) { return ErrFormat, 0; }
      var known := Find(index, s);
      if known.Some? {
        if known.value !in sessions { return ErrInternal, 0; }
        return Ok, known.value;
      }
      var nextId := |sessions| + 1;
      if nextId > MAX_SESSIONS { return ErrDenied, 0; }
      st := NewSession(nextId, s);
      sid := if st == Ok then nextId else 0;
    }

    /** Write the description of a new session and list it. */
    method NewSession(nextId: U16, s: Session) returns (st: Status)
      requires Valid() && ValidSession(s) && nextId as nat == |sessions| + 1 <= MAX_SESSIONS
      modifies this`file, this`offset, content, this`sessions, this`index, this`blocks
      ensures Valid() && st == if |old(content.sessions)| > MAX_SESSIONS then ErrInternal else Ok
      ensures State() == if st != Ok then old(State()) else WithSession(old(State()), nextId, s)
    {
      hide EncSession, EncBlock, OnDisk, InfosOk, Ascending, AsMap, Separate, ValidSession;
      SessionBlock(codec, nextId, s);
      st := PutSession(EncSession(nextId, s), nextId, s);
      if st == Ok { index := Assign(index, s, nextId as nat); }
    }

    /** Write the octets of a Session Block and list it. */
    method PutSession(block: Octets, nextId: U16, s: Session) returns (st: Status)
      requires Valid() && block == EncBlock(codec, SessionB(nextId, s)) && |block| == SESSION_LEN
      modifies this`file, this`offset, content, this`sessions, this`blocks
      ensures Valid() && st == if |old(content.sessions)| > MAX_SESSIONS then ErrInternal else Ok
      ensures State() == if st != Ok then old(State()) else WithSession(old(State()), nextId, s).(ids := AsMap(index))
    {
      hide EncSession, EncBlock, OnDisk, InfosOk, Ascending, AsMap, Separate, ValidSession;
      WriteBlock(block, SessionB(nextId, s));
      st := content.AddSession(SessEntry(offset, |block|, nextId));
      if st != Ok { return; }
      sessions := sessions[nextId as nat := SessInfo(s, offset)];
      offset := offset + |block|;
      blocks := blocks + [SessionB(nextId, s)];
    }

    /** `select_ctx`: a context is created when it is first selected. */
    method SelectCtx(sid: U16, odid: U32, etime: U32) returns (st: Status)
      requires Valid()
      modifies this`infos, this`selected, this`values, set c | c in infos :: infos[c].data`etimeSet
      ensures Valid() && (State(), st) == W.SelectCtx(old(State()), sid, odid, etime)
      ensures Grew(Ctx(sid, odid))
    {
      hide OnDisk, Good, InfosOk, Ascending, AsMap;
      SameKeys();
      var c := Ctx(sid, odid);
      if selected == null || selected.c != c {
        if sid !in sessions { return ErrNotFound; }
        if c !in infos {
          CreateCtx(c);
        }
        selected := infos[c];
      }
      SetEtime(etime);
      return Ok;
    }

    /** Set the Export Time of the selected context. */
    method SetEtime(etime: U32)
      requires Valid() && selected != null
      modifies this`values, selected.data`etimeSet
      ensures Valid() && selected.c in old(values) && State() == W.SetEtime(old(State()), selected.c, etime)
    {
      hide OnDisk, Good, InfosOk, Ascending, AsMap;
      Known(selected);
      selected.data.SetEtime(etime);
      values := values[selected.c := selected.Value()];
      OneChanged(selected);
    }

    method CreateCtx(c: Ctx)
      requires Valid() && c !in infos
      modifies this`infos, this`values
      ensures Valid() && c in infos && fresh(infos[c]) && fresh(infos[c].data) && Grew(c)
      ensures State() == SetOdid(old(State()), c, Odid(map[], 0, Empty(c.odid, MSG_DEF_SIZE), None))
    {
      hide OnDisk, Good, InfosOk, Ascending, AsMap, Separate;
      var o := new OdidInfo(c, codec);
      infos := infos[c := o];
      values := values[c := o.Value()];
      StillSeparate(o);
      ContextAdded(o);
    }

    /** Remember the template of the record. */
    method SetLast(o: OdidInfo, t: Template)
      requires Valid() && o.c in infos && infos[o.c] == o
      modifies this`values, o`last
      ensures Valid() && o.c in old(values) && State() == SetOdid(old(State()), o.c, old(values)[o.c].(last := Some(t)))
    {
      hide OnDisk, Good, InfosOk, Ascending, AsMap;
      Known(o);
      o.last := Some(t);
      values := values[o.c := o.Value()];
      OneChanged(o);
    }

    method AddRec(o: OdidInfo, data: Octets, t: Template) returns (st: Status)
      requires Valid() && o.c in infos && infos[o.c] == o && data != []
      modifies this`values, o.data, o.data.buf
      ensures Valid() && o.c in old(values) && (State(), st) == W.AddRec(old(State()), o.c, data, t)
    {
      hide OnDisk, Good, InfosOk, Ascending, AsMap, DataBuffer.Add, DataBuffer.AddStatus;
      Known(o);
      st := o.data.Add(data, t);
      values := values[o.c := o.Value()];
      OneChanged(o);
    }

    /** `write_rec`; the public interface refuses empty records. */
    method WriteRec(tid: nat, data: Data16) returns (st: Status)
      requires Valid() && stats.Valid()
      modifies this`file, this`offset, content, this`blocks, this`values, stats
      modifies if selected == null then {} else {selected, selected.data, selected.data.buf}
      ensures Valid() && (State(), st) == W.WriteRec(old(State()), tid, data)
      ensures stats.Valid() && stats.facts == old(stats.facts) + Tally(old(State()), tid, data)
    {
      hide Valid, W.WriteRec, Lookup, RecLen, Statistics.FileStats.Valid, Statistics.FactOfRec;
      ghost var was := State();
      var tmplt;
      st, tmplt := StoreRec(tid, data);
      if st == Ok {
        AcceptedRec(was, tid, data);
        stats.UpdateRec(data, tmplt.value);
      }
    }

    /** All of `write_rec` but the statistics; also the template of an accepted record. */
    method StoreRec(tid: nat, data: Data16) returns (st: Status, tmplt: Option<Template>)
      requires Valid()
      modifies this`file, this`offset, content, this`blocks, this`values
      modifies if selected == null then {} else {selected, selected.data, selected.data.buf}
      ensures Valid() && (State(), st) == W.WriteRec(old(State()), tid, data)
      ensures
        st == Ok ==> old(selected != null && selected.c in values) && tmplt == Lookup(old(values[selected.c]), tid)
    {
      hide OnDisk, Good, InfosOk, Separate, Ascending, AsMap, W.Flush, W.AddRec, Remains, RecLen, EncMsgs, BufInv;
      hide Render;
      if data == [] || selected == null { return ErrArg, None; }
      Known(selected);
      tmplt := selected.last;
      if tmplt.None? || tmplt.value.id as nat != tid {
        tmplt := selected.tblock.Get(tid);
        if tmplt.None? { return ErrNotFound, None; }
      }
      SetLast(selected, tmplt.value);
      Known(selected);
      var room := selected.data.Remaining();
      if |data| > room {
        st := Flush(selected);
        if st != Ok { return; }
      }
      st := AddRec(selected, data, tmplt.value);
    }

    /** Store a definition; the Template Block on disk is then out of date. */
    method StoreTmplt(o: OdidInfo, ttype: U16, raw: Octets, keepLast: bool) returns (st: Status)
      requires Valid() && o.c in infos && infos[o.c] == o
      modifies this`values, o`toff, o`last, o.tblock
      ensures Valid() && o.c in old(values) && (State(), st) == W.StoreTmplt(old(State()), o.c, ttype, raw, keepLast)
    {
      hide OnDisk, Good, InfosOk, Ascending, AsMap, Parse;
      Known(o);
      st := o.tblock.Add(ttype, raw);
      if st == Ok {
        o.toff := 0;
        if !keepLast { o.last := None; }
      }
      assert values[o.c := values[o.c]] == values;
      values := values[o.c := o.Value()];
      OneChanged(o);
    }

    /** `tmplt_add`: a redefinition first flushes the records of the old definition. */
    method TmpltAdd(ttype: U16, raw: Octets) returns (st: Status)
      requires Valid()
      modifies this`file, this`offset, content, this`blocks, this`values
      modifies if selected == null then {} else {selected, selected.tblock, selected.data, selected.data.buf}
      ensures Valid() && (State(), st) == W.TmpltAdd(old(State()), ttype, raw)
    {
      hide OnDisk, Good, InfosOk, Ascending, AsMap, W.Flush, W.StoreTmplt, FromBe16;
      if raw == [] || selected == null { return ErrArg; }
      Known(selected);
      if |raw| < 2 { return ErrFormat; }
      var tid := FromBe16(raw[..2]);
      var def := selected.tblock.Get(tid);
      if def.None? {
        st := StoreTmplt(selected, ttype, raw, true);
        return;
      }
      if def.value.ttype == ttype && def.value.raw == raw { return Ok; }
      st := Flush(selected);
      if st != Ok { return; }
      st := StoreTmplt(selected, ttype, raw, false);
    }

    /** `tmplt_remove`: records that may need the template are flushed first. */
    method TmpltRemove(tid: nat) returns (st: Status)
      requires Valid()
      modifies this`file, this`offset, content, this`blocks, this`values
      modifies if selected == null then {} else {selected, selected.tblock, selected.data, selected.data.buf}
      ensures Valid() && (State(), st) == W.TmpltRemove(old(State()), tid)
    {
      hide OnDisk, Good, InfosOk, Ascending, AsMap, W.Flush;
      if selected == null { return ErrArg; }
      Known(selected);
      var def := selected.tblock.Get(tid);
      if def.None? { return ErrNotFound; }
      st := Flush(selected);
      if st != Ok { return; }
      st := DropTmplt(selected, tid);
    }

    method DropTmplt(o: OdidInfo, tid: nat) returns (st: Status)
      requires Valid() && o.c in infos && infos[o.c] == o && tid in o.tblock.manager
      modifies this`values, o`toff, o`last, o.tblock
      ensures Valid() && o.c in old(values) && st == Ok
      ensures
        var v := old(values)[o.c];
        State() == SetOdid(old(State()), o.c, v.(tmplts := v.tmplts - {tid}, toff := 0, last := None))
    {
      hide OnDisk, Good, InfosOk, Ascending, AsMap;
      Known(o);
      st := o.tblock.Remove(tid);
      o.toff := 0;
      o.last := None;
      values := values[o.c := o.Value()];
      OneChanged(o);
    }

    /** `flush_all`: the contexts in the order of their Session IDs and ODIDs. */
    method FlushAll() returns (st: Status)
      requires Valid()
      modifies this`file, this`offset, content, this`blocks, this`values
      modifies set c | c in infos :: infos[c], set c | c in infos :: infos[c].data,
        set c | c in infos :: infos[c].data.buf
      ensures Valid() && (State(), st) == W.FlushAll(old(State()))
    {
      hide OnDisk, Good, InfosOk, Ascending, AsMap, W.Flush, Sorted, FlushSeq, CtxOf, CtxKey;
      SameKeys();
      var ks := Sorted(set c | c in infos :: CtxKey(c));
      var i := 0;
      assert CtxKeys(State()) == (set c | c in infos :: CtxKey(c));
      assert ks[0..] == ks;
      while i < |ks|
        invariant 0 <= i <= |ks| && Valid() && infos == old(infos)
        invariant FlushSeq(State(), ks[i..]) == FlushSeq(old(State()), ks)
      {
        SameKeys();
        FlushSeqStep(State(), ks, i);
        var c := CtxOf(ks[i]);
        if c in infos {
          st := Flush(infos[c]);
          if st != Ok { return; }
        }
        i := i + 1;
      }
      FlushSeqDone(State(), ks);
      return Ok;
    }

    /** The destructor: only when all contexts could be flushed, the Content Table is written and its place
        entered into the file header. */
    method Close() returns (st: Status, ghost rest: Octets)
      requires Valid()
      modifies Footprint()
      ensures (State(), st) == W.FlushAll(old(State()))
      ensures st == Ok ==> file == Image(State(), rest)
    {
      hide Good, InfosOk, Ascending, AsMap, W.FlushAll, EncTable, FileHeader, Splice, OnDisk;
      rest := [];
      st := FlushAll();
      if st != Ok { return; }
      rest := ClosedImage(file, State());
      var table := content.WriteToFile();
      file := Splice(file, offset, table);
      file := Splice(file, 0, FileHeader(AlgOf(codec), offset));
    }
  }

  /** Both writes of the destructor: header, blocks, table, and what was left of a longer file. */
  lemma ClosedImage(file: Octets, w: W.Writer) returns (rest: Octets)
    requires OnDisk(file, w.codec, w.blocks, w.offset)
    ensures w.offset <= |file|
    ensures Splice(Splice(file, w.offset, EncTable(w.table)), 0, FileHeader(AlgOf(w.codec), w.offset)) == Image(w, rest)
  {
    var hdr, body, tab := FileHeader(AlgOf(w.codec), w.offset), Render(w.codec, w.blocks), EncTable(w.table);
    hide Render, EncTable, FileHeader;
    rest := if w.offset + |tab| <= |file| then file[w.offset + |tab|..] else [];
    var f1 := Splice(file, w.offset, tab);
    assert f1 == file[..w.offset] + tab + rest;
    assert f1[FILE_HDR_LEN..] == body + tab + rest by {
      assert file[..w.offset][FILE_HDR_LEN..] == body;
    }
    assert Splice(f1, 0, hdr) == hdr + f1[FILE_HDR_LEN..];
    assert hdr + (body + tab + rest) == hdr + body + tab + rest;
  }
}
