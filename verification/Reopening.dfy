/** Opening a closed file again, for reading or for appending, and the layout it relies on. */
module Reopening {
  import opened Bytes
  import opened Templates
  import opened Messages
  import opened DataBuffer
  import opened Status
  import opened Blocks
  import opened DataBlock
  import opened ContentTable
  import opened Writer
  import opened WriterProofs
  import opened WriterRuns
  import opened WriterHistory
  import opened FileImage
  import opened EndToEnd

  // ----- layout -----

  /** Offset of block `k`. */
  function Start(cd: Codec, bs: seq<Block>, k: nat): nat
    requires k <= |bs|
  {
    FILE_HDR_LEN + |Render(cd, bs[..k])|
  }

  lemma StartStep(cd: Codec, bs: seq<Block>, k: nat)
    requires k < |bs|
    ensures Start(cd, bs, k + 1) == Start(cd, bs, k) + |EncBlock(cd, bs[k])|
  {
    assert bs[..k + 1] == bs[..k] + [bs[k]];
    RenderPush(cd, bs[..k], bs[k]);
  }

  /** The blocks of a file are disjoint and lie, in order, between the file header and the write offset. */
  lemma BlocksInOrder(w: Writer, i: nat, k: nat)
    requires Inv(w) && i < k <= |w.blocks|
    ensures FILE_HDR_LEN <= Start(w.codec, w.blocks, i)
    ensures Start(w.codec, w.blocks, i) + |EncBlock(w.codec, w.blocks[i])| <= Start(w.codec, w.blocks, k) <= w.offset
  {
    hide EncBlock, SessMaps, SessBlocks, BlocksOk, OdidsOk, Index;
    if k == i + 1 {
      StartStep(w.codec, w.blocks, i);
      assert w.blocks[..k] + w.blocks[k..] == w.blocks;
      ConcatAppend((b: Block) => EncBlock(w.codec, b), w.blocks[..k], w.blocks[k..]);
    } else {
      BlocksInOrder(w, i, k - 1);
      StartStep(w.codec, w.blocks, k - 1);
      assert w.blocks[..k] + w.blocks[k..] == w.blocks;
      ConcatAppend((b: Block) => EncBlock(w.codec, b), w.blocks[..k], w.blocks[k..]);
    }
  }

  /** Position among the blocks of the entry `i` of the Data Block list. */
  lemma {:induction false} EntryBlock(cd: Codec, bs: seq<Block>, i: nat) returns (k: nat)
    requires i < |Index(cd, bs).blocks|
    ensures k < |bs| && bs[k].DataB? && Index(cd, bs).blocks[i] == EntryOf(cd, Start(cd, bs, k), bs[k])
    ensures |Index(cd, bs[..k]).blocks| == i
    decreases |bs|
  {
    hide EncBlock, Render;
    var n := |bs| - 1;
    assert Init(bs) == bs[..n];
    if i < |Index(cd, Init(bs)).blocks| {
      k := EntryBlock(cd, Init(bs), i);
      assert bs[..n][..k] == bs[..k];
    } else {
      k := n;
    }
  }

  /** Each listed Data Block lies inside the file, behind its Template Block, and in front of the next one. */
  lemma EntriesInOrder(w: Writer, i: nat)
    requires Inv(w) && i < |w.table.blocks|
    ensures
      var e := w.table.blocks[i];
      && FILE_HDR_LEN <= e.toff < w.offset && FILE_HDR_LEN <= e.off && e.off + e.len <= w.offset
      && 0 < e.len
    ensures i + 1 < |w.table.blocks| ==> w.table.blocks[i].off + w.table.blocks[i].len <= w.table.blocks[i + 1].off
  {
    hide EncBlock, Render, SessMaps, SessBlocks, OdidsOk;
    var k := EntryBlock(w.codec, w.blocks, i);
    BlocksInOrder(w, k, |w.blocks|);
    assert w.blocks[..|w.blocks|] == w.blocks;
    assert BlockOk(w.codec, w.blocks, w.sessions.Keys, w.blocks[k]);
    HoldsInside(w, w.blocks[k].toff, TmpltsB(w.blocks[k].sid, w.blocks[k].odid, w.blocks[k].tmplts));
    BlockIsLong(w.codec, w.blocks[k]);
    if i + 1 < |w.table.blocks| {
      var k' := EntryBlock(w.codec, w.blocks, i + 1);
      if k' <= k {
        IndexMono(w.codec, w.blocks, k', k);
      }
      BlocksInOrder(w, k, k');
    }
  }

  lemma BlockIsLong(cd: Codec, b: Block)
    ensures |EncBlock(cd, b)| >= TMPLTS_HDR_LEN
  {
  }

  lemma {:induction false} IndexMono(cd: Codec, bs: seq<Block>, i: nat, k: nat)
    requires i <= k <= |bs|
    ensures |Index(cd, bs[..i]).blocks| <= |Index(cd, bs[..k]).blocks|
    decreases k
  {
    hide EncBlock, Render;
    if i < k {
      assert Init(bs[..k]) == bs[..k - 1];
      IndexMono(cd, bs, i, k - 1);
    }
  }

  lemma HoldsInside(w: Writer, off: nat, b: Block)
    requires Inv(w) && Holds(w.codec, w.blocks, off, b)
    ensures FILE_HDR_LEN <= off < w.offset && off + |EncBlock(w.codec, b)| <= w.offset
  {
    hide EncBlock, SessMaps, SessBlocks, BlocksOk, OdidsOk, Index;
    var k :| 0 <= k < |w.blocks| && w.blocks[k] == b && off == FILE_HDR_LEN + |Render(w.codec, w.blocks[..k])|;
    BlocksInOrder(w, k, |w.blocks|);
    BlockIsLong(w.codec, b);
  }

  lemma ClosedTableFits(w: Writer)
    requires Inv(w) && Fits(w)
    ensures TableFits(w.table)
  {
    hide Inv, SessFits, EntryFits;
    TableCounts(w);
    forall i | 0 <= i < |w.table.blocks| ensures EntryFits(w.table.blocks[i]) { EntryIsSmall(w, i); }
    forall i | 0 <= i < |w.table.sessions| ensures SessFits(w.table.sessions[i]) { SessionFits(w, i); }
  }

  lemma TableCounts(w: Writer)
    requires Inv(w) && Fits(w)
    ensures |w.table.sessions| <= MAX_SESSIONS && |w.table.blocks| <= MAX_BLOCKS
  {
    hide Render, BlocksOk, OdidsOk, Index;
  }

  lemma EntryIsSmall(w: Writer, i: nat)
    requires Inv(w) && Fits(w) && i < |w.table.blocks|
    ensures EntryFits(w.table.blocks[i])
  {
    hide Inv;
    EntriesInOrder(w, i);
  }

  lemma SessionFits(w: Writer, i: nat)
    requires Inv(w) && Fits(w) && i < |w.table.sessions|
    ensures SessFits(w.table.sessions[i])
  {
    hide Render, BlocksOk, OdidsOk, Index, Holds;
    assert i + 1 in w.sessions;
    assert w.table.sessions[(i + 1) - 1] == SessEntry(w.sessions[i + 1].off, SESSION_LEN, i + 1);
    HoldsInside(w, w.sessions[i + 1].off, SessionB(i + 1, w.sessions[i + 1].session));
  }

  // ----- the lists of the table -----

  /** The table of the first blocks is a prefix of the table of all. */
  lemma {:induction false} IndexPrefix(cd: Codec, bs: seq<Block>, k: nat)
    requires k <= |bs|
    ensures Index(cd, bs[..k]).sessions <= Index(cd, bs).sessions && Index(cd, bs[..k]).blocks <= Index(cd, bs).blocks
    decreases |bs| - k
  {
    hide EncBlock, Render, Index;
    if k == |bs| {
      assert bs[..k] == bs;
    } else {
      IndexPrefix(cd, bs, k + 1);
      assert bs[..k + 1] == bs[..k] + [bs[k]];
      IndexPush(cd, bs[..k], bs[k]);
    }
  }

  lemma NextSid(w: Writer, k: nat)
    requires Inv(w) && k < |w.blocks| && w.blocks[k].SessionB?
    ensures w.blocks[k].sid == |Index(w.codec, w.blocks[..k]).sessions| + 1
  {
    hide Inv, EncBlock, Render, Index;
    var cd, bs := w.codec, w.blocks;
    var j := |Index(cd, bs[..k]).sessions|;
    assert bs[..k + 1] == bs[..k] + [bs[k]];
    IndexPush(cd, bs[..k], bs[k]);
    IndexPrefix(cd, bs, k + 1);
    TableOfAll(w);
    assert Index(cd, bs[..k + 1]).sessions[j].sid == bs[k].sid;
    ListedSid(w, j);
  }

  lemma ListedSid(w: Writer, j: nat)
    requires Inv(w) && j < |w.table.sessions|
    ensures w.table.sessions[j].sid == j + 1
  {
    hide EncBlock, Render, BlocksOk, OdidsOk, Index, Holds;
    assert j + 1 in w.sessions;
    assert w.table.sessions[(j + 1) - 1] == SessEntry(w.sessions[j + 1].off, SESSION_LEN, j + 1);
  }

  lemma SessionLength(cd: Codec, b: Block)
    requires b.SessionB?
    ensures |EncBlock(cd, b)| == SESSION_LEN
  {
  }

  // ----- opening -----

  /** The constructor of the file reader on a closed file: its codec and Content Table. */
  function OpenClosed(env: Env, file: Octets): Option<(Codec, Table)>
  {
    match LoadHeader(file)
    case None => None
    case Some(h) =>
      if h.tableOff == 0 then None
      else
        match LoadTable(file, h.tableOff)
        case None => None
        case Some(t) => Some((CodecFor(env, h.alg), t))
  }

  lemma AlgRoundTrip(env: Env, alg: Byte)
    requires EnvOk(env) && alg <= ALG_ZSTD
    ensures AlgOf(CodecFor(env, alg)) == alg
  {
    hide CodecOk;
  }

  lemma HeaderLoads(w: Writer, rest: Octets)
    requires w.offset < TWO64 && AlgOf(w.codec) <= ALG_ZSTD
    ensures LoadHeader(Image(w, rest)) == Some(HeaderInfo(FILE_VERSION, AlgOf(w.codec), w.offset))
  {
    hide LoadHeader, FileHeader, Render, EncTable;
    var body := Render(w.codec, w.blocks) + EncTable(w.table) + rest;
    assert Image(w, rest) == FileHeader(AlgOf(w.codec), w.offset) + body;
    HeaderRoundTrip(AlgOf(w.codec), w.offset, body);
  }

  lemma TableLoads(w: Writer, rest: Octets)
    requires TableFits(w.table) && w.offset == FILE_HDR_LEN + |Render(w.codec, w.blocks)|
    ensures LoadTable(Image(w, rest), w.offset) == Some(w.table)
  {
    hide LoadTable, FileHeader, Render, EncTable, TableFits;
    TableIn(FileHeader(AlgOf(w.codec), w.offset) + Render(w.codec, w.blocks), EncTable(w.table), rest);
    TableRoundTrip(Image(w, rest), w.offset, w.table);
  }

  lemma OffsetOf(w: Writer)
    requires Inv(w)
    ensures w.offset == FILE_HDR_LEN + |Render(w.codec, w.blocks)|
  {
  }

  /** What is found at the head of a closed file and at the place it names. */
  lemma OpensClosed(env: Env, alg: Byte, w: Writer, rest: Octets)
    requires EnvOk(env) && alg <= ALG_ZSTD && Inv(w) && Fits(w) && w.codec == CodecFor(env, alg)
    ensures LoadHeader(Image(w, rest)) == Some(HeaderInfo(FILE_VERSION, alg, w.offset))
    ensures LoadTable(Image(w, rest), w.offset) == Some(w.table)
    ensures OpenClosed(env, Image(w, rest)) == Some((w.codec, w.table))
  {
    hide Inv, LoadHeader, LoadTable, Image, Render, EnvOk, AlgOf, CodecFor, TableFits;
    ClosedTableFits(w);
    AlgRoundTrip(env, alg);
    OffsetOf(w);
    HeaderLoads(w, rest);
    TableLoads(w, rest);
  }

  lemma TableIn(pre: Octets, tab: Octets, rest: Octets)
    ensures At(pre + tab + rest, |pre|, tab)
  {
  }

  /** The session loop of `append_prepare`. */
  function LoadSessions(file: Octets, list: seq<SessEntry>, sessions: map<nat, SessInfo>, ids: map<Session, nat>)
    : Option<(map<nat, SessInfo>, map<Session, nat>)>
    decreases |list|
  {
    if list == [] then Some((sessions, ids))
    else
      match LoadSession(file, list[0].off)
      case None => None
      case Some(p) =>
        if p.0 != list[0].sid then None
        else LoadSessions(file, list[1..], sessions[list[0].sid as nat := SessInfo(p.1, list[0].off)],
          ids[p.1 := list[0].sid as nat])
  }

  /** State of a writer that opened a closed file in append mode, but for the blocks themselves. */
  datatype Appender = Appender(codec: Codec, offset: nat, table: Table,
                               sessions: map<nat, SessInfo>, ids: map<Session, nat>)

  /** `append_prepare`: refused for other versions and for files that were not closed. */
  function AppendPrepare(env: Env, file: Octets): (Option<Appender>, Status)
  {
    match LoadHeader(file)
    case None => (None, ErrInternal)
    case Some(h) =>
      if h.version != FILE_VERSION then (None, ErrInternal)
      else if h.tableOff == 0 then (None, ErrDenied)
      else
        match LoadTable(file, h.tableOff)
        case None => (None, ErrInternal)
        case Some(t) =>
          match LoadSessions(file, t.sessions, map[], map[])
          case None => (None, ErrInternal)
          case Some(p) => (Some(Appender(CodecFor(env, h.alg), h.tableOff, t, p.0, p.1)), Ok)
  }

  ghost predicate FirstSessions(w: Writer, n: nat, sessions: map<nat, SessInfo>, ids: map<Session, nat>)
  {
    && (forall k :: k in sessions <==> 1 <= k <= n)
    && (forall k :: k in sessions ==> k in w.sessions && sessions[k] == w.sessions[k])
    && (forall s :: s in ids <==> s in w.ids && w.ids[s] <= n)
    && (forall s :: s in ids ==> ids[s] == w.ids[s])
  }

  lemma {:induction false} SessionsLoad(w: Writer, hdr: Octets, tail: Octets, n: nat, sessions: map<nat, SessInfo>,
        ids: map<Session, nat>)
    requires Inv(w) && |hdr| == FILE_HDR_LEN && n <= |w.table.sessions| && FirstSessions(w, n, sessions, ids)
    ensures
      LoadSessions(hdr + Render(w.codec, w.blocks) + tail, w.table.sessions[n..], sessions, ids) ==
        Some((w.sessions, w.ids))
    decreases |w.table.sessions| - n
  {
    hide Inv, Render, LoadSession, EncSession, FirstSessions;
    var file := hdr + Render(w.codec, w.blocks) + tail;
    var list := w.table.sessions;
    if n == |list| {
      assert list[n..] == [];
      AllFirst(w, sessions, ids);
    } else {
      var sid := n + 1;
      SessionAt(w, sid);
      var s := w.sessions[sid];
      HoldsAt(hdr, w.codec, w.blocks, tail, s.off, SessionB(sid, s.session));
      SessionValid(w, s.off, sid, s.session);
      SessionRoundTrip(file, s.off, sid, s.session);
      NextSession(w, n, sessions, ids);
      assert list[n..][0] == list[n] && list[n..][1..] == list[n + 1..];
      SessionsLoad(w, hdr, tail, n + 1, sessions[sid := s], ids[s.session := sid]);
    }
  }

  lemma SessionAt(w: Writer, sid: nat)
    requires Inv(w) && 1 <= sid <= |w.table.sessions|
    ensures sid in w.sessions && sid <= MAX_SESSIONS
    ensures w.table.sessions[sid - 1] == SessEntry(w.sessions[sid].off, SESSION_LEN, sid)
    ensures Holds(w.codec, w.blocks, w.sessions[sid].off, SessionB(sid, w.sessions[sid].session))
  {
    hide Render, EncSession, BlocksOk, OdidsOk, Index, Holds;
  }

  /** When all sessions are loaded the maps are those of the writer. */
  lemma AllFirst(w: Writer, sessions: map<nat, SessInfo>, ids: map<Session, nat>)
    requires Inv(w) && FirstSessions(w, |w.table.sessions|, sessions, ids)
    ensures sessions == w.sessions && ids == w.ids
  {
    hide Render, EncSession, BlocksOk, OdidsOk, Index, Holds;
    assert forall s :: s in w.ids ==> w.ids[s] in w.sessions;
  }

  lemma NextSession(w: Writer, n: nat, sessions: map<nat, SessInfo>, ids: map<Session, nat>)
    requires Inv(w) && n + 1 in w.sessions && FirstSessions(w, n, sessions, ids)
    ensures FirstSessions(w, n + 1, sessions[n + 1 := w.sessions[n + 1]], ids[w.sessions[n + 1].session := n + 1])
  {
    hide Render, SessBlocks, BlocksOk, OdidsOk, Index;
    var s := w.sessions[n + 1].session;
    assert s in w.ids && w.ids[s] == n + 1;
    var ids' := ids[s := n + 1];
    forall x | x in w.ids && w.ids[x] <= n + 1 ensures x in ids' {
      assert w.sessions[w.ids[x]].session == x;
    }
  }

  lemma NoSessions(w: Writer)
    requires Inv(w)
    ensures FirstSessions(w, 0, map[], map[])
  {
    hide Render, SessBlocks, BlocksOk, OdidsOk, Index;
    assert forall s :: s in w.ids ==> w.ids[s] in w.sessions;
  }

  /** Appending goes on exactly where the closed writer stopped: same offset, table and sessions, so the new
      blocks overwrite nothing but the old Content Table. */
  lemma AppendResumes(env: Env, alg: Byte, w: Writer, rest: Octets)
    requires EnvOk(env) && alg <= ALG_ZSTD && Inv(w) && Fits(w) && w.codec == CodecFor(env, alg)
    ensures AppendPrepare(env, Image(w, rest)) ==
      (Some(Appender(w.codec, w.offset, w.table, w.sessions, w.ids)), Ok)
  {
    hide Inv, LoadHeader, LoadTable, LoadSessions, FileHeader, Render, EncTable, Image, EnvOk, AlgOf, CodecFor;
    OpensClosed(env, alg, w, rest);
    ImageParts(w, rest);
    OffsetOf(w);
    NoSessions(w);
    SessionsLoad(w, FileHeader(AlgOf(w.codec), w.offset), EncTable(w.table) + rest, 0, map[], map[]);
    assert w.table.sessions[0..] == w.table.sessions;
  }
}
