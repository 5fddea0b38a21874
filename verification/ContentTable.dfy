/** The Content Table: the list of Session Blocks and Data Blocks of a file. */
module ContentTable {
  import opened Bytes
  import opened Blocks

  const TABLE_HDR_LEN := 16
  const CTB_SESSION := 1
  const CTB_DATA := 2
  const SESS_REC_LEN := 20
  const DATA_REC_LEN := 32

  datatype SessEntry = SessEntry(off: nat, len: nat, sid: U16)
  datatype DataEntry = DataEntry(off: nat, len: nat, toff: nat, odid: U32, sid: U16)
  datatype Table = Table(sessions: seq<SessEntry>, blocks: seq<DataEntry>)

  // ----- records -----

  function EncSess(e: SessEntry): (b: Octets)
    ensures |b| == SESS_REC_LEN
  {
    Le64(e.off) + Le64(e.len) + Le16(e.sid) + Le16(0)
  }

  function DecSess(b: Octets): SessEntry
    requires |b| == SESS_REC_LEN
  {
    SessEntry(FromLe64(b[..8]), FromLe64(b[8..16]), FromLe16(b[16..18]))
  }

  function EncEntry(e: DataEntry): (b: Octets)
    ensures |b| == DATA_REC_LEN
  {
    Le64(e.off) + Le64(e.len) + Le64(e.toff) + Le32(e.odid) + Le16(e.sid) + Le16(0)
  }

  function DecEntry(b: Octets): DataEntry
    requires |b| == DATA_REC_LEN
  {
    DataEntry(FromLe64(b[..8]), FromLe64(b[8..16]), FromLe64(b[16..24]), FromLe32(b[24..28]), FromLe16(b[28..30]))
  }

  const TWO64 := 0x1_0000_0000_0000_0000

  predicate SessFits(e: SessEntry)
  {
    e.off < TWO64 && e.len < TWO64
  }

  predicate EntryFits(e: DataEntry)
  {
    e.off < TWO64 && e.len < TWO64 && e.toff < TWO64
  }

  lemma SessRoundTrip(e: SessEntry)
    requires SessFits(e)
    ensures DecSess(EncSess(e)) == e
  {
    var b := EncSess(e);
    assert b[..8] == Le64(e.off) && b[8..16] == Le64(e.len) && b[16..18] == Le16(e.sid);
    Le64RoundTrip(e.off);
    Le64RoundTrip(e.len);
    Le16RoundTrip(e.sid);
  }

  lemma EntryRoundTrip(e: DataEntry)
    requires EntryFits(e)
    ensures DecEntry(EncEntry(e)) == e
  {
    var b := EncEntry(e);
    assert b[..8] == Le64(e.off) && b[8..16] == Le64(e.len) && b[16..24] == Le64(e.toff);
    assert b[24..28] == Le32(e.odid);
    assert b[28..30] == Le16(e.sid);
    Le64RoundTrip(e.off);
    Le64RoundTrip(e.len);
    Le64RoundTrip(e.toff);
    Le32RoundTrip(e.odid);
    Le16RoundTrip(e.sid);
  }

  // ----- sections -----

  function EncSessions(ss: seq<SessEntry>): Octets
  {
    if ss == [] then [] else Le16(|ss|) + Concat(EncSess, ss)
  }

  function EncBlocks(ds: seq<DataEntry>): Octets
  {
    if ds == [] then [] else Le32(|ds|) + Concat(EncEntry, ds)
  }

  function Chunks<T>(dec: Octets --> T, size: nat, s: Octets, n: nat): seq<T>
    requires size * n == |s| && 0 < size && forall b: Octets :: |b| == size ==> dec.requires(b)
    decreases n
  {
    if n == 0 then []
    else
      Divide(size, n, |s|);
      [dec(s[..size])] + Chunks(dec, size, s[size..], n - 1)
  }

  lemma Divide(size: nat, n: nat, total: nat)
    requires size * n == total && 0 < n
    ensures size <= total && size * (n - 1) == total - size
  {
  }

  lemma {:induction false} ChunksRoundTrip<T>(enc: T -> Octets, dec: Octets --> T, size: nat, xs: seq<T>)
    requires 0 < size && forall b: Octets :: |b| == size ==> dec.requires(b)
    requires forall k :: 0 <= k < |xs| ==> |enc(xs[k])| == size && dec(enc(xs[k])) == xs[k]
    ensures |Concat(enc, xs)| == size * |xs|
    ensures Chunks(dec, size, Concat(enc, xs), |xs|) == xs
  {
    if xs != [] {
      var rest := Concat(enc, xs[1..]);
      ChunksRoundTrip(enc, dec, size, xs[1..]);
      var s := enc(xs[0]) + rest;
      assert s[..size] == enc(xs[0]) && s[size..] == rest;
      assert size * |xs| == size + size * (|xs| - 1);
      assert xs == [xs[0]] + xs[1..];
    }
  }

  /** `read_sessions` */
  function ReadSessions(b: Octets, rel: nat): Option<seq<SessEntry>>
  {
    if rel + 2 > |b| then None
    else
      var n := FromLe16(b[rel..rel + 2]);
      var end := rel + 2 + SESS_REC_LEN * n;
      if end > |b| then None else Some(Chunks(DecSess, SESS_REC_LEN, b[rel + 2..end], n))
  }

  /** `read_data_blocks` */
  function ReadBlocks(b: Octets, rel: nat): Option<seq<DataEntry>>
  {
    if rel + 4 > |b| then None
    else
      var n := FromLe32(b[rel..rel + 4]);
      var end := rel + 4 + DATA_REC_LEN * n;
      if end > |b| then None else Some(Chunks(DecEntry, DATA_REC_LEN, b[rel + 4..end], n))
  }

  /** What a section of at most 65536 sessions is read back as: two octets hold their number, so that 65536
      counts as none. */
  function Counted(ss: seq<SessEntry>): seq<SessEntry>
  {
    if |ss| <= 0xFFFF then ss else []
  }

  lemma SessionsRoundTrip(pre: Octets, ss: seq<SessEntry>, post: Octets)
    requires ss != [] && |ss| <= 0x1_0000 && forall k :: 0 <= k < |ss| ==> SessFits(ss[k])
    ensures ReadSessions(pre + EncSessions(ss) + post, |pre|) == Some(Counted(ss))
  {
    hide DecSess, Le16, FromLe16, Chunks;
    var body := Concat(EncSess, ss);
    var n := if |ss| <= 0xFFFF then |ss| else 0;
    SameCount(|ss|);
    if |ss| <= 0xFFFF {
      forall k | 0 <= k < |ss| ensures DecSess(EncSess(ss[k])) == ss[k] { SessRoundTrip(ss[k]); }
      ChunksRoundTrip(EncSess, DecSess, SESS_REC_LEN, ss);
    } else {
      NoChunks(pre + EncSessions(ss) + post, |pre| + 2);
    }
    SectionAt(pre, Le16(n), body, post);
    Le16RoundTrip(n);
  }

  lemma SameCount(n: nat)
    requires n <= 0x1_0000
    ensures Le16(n) == Le16(if n <= 0xFFFF then n else 0)
  {
  }

  lemma NoChunks(b: Octets, i: nat)
    ensures i <= |b| ==> |b[i..i]| == SESS_REC_LEN * 0 && Chunks(DecSess, SESS_REC_LEN, b[i..i], 0) == []
  {
  }

  lemma BlocksRoundTrip(pre: Octets, ds: seq<DataEntry>, post: Octets)
    requires ds != [] && |ds| <= 0xFFFF_FFFF && forall k :: 0 <= k < |ds| ==> EntryFits(ds[k])
    ensures ReadBlocks(pre + EncBlocks(ds) + post, |pre|) == Some(ds)
  {
    hide DecEntry, Le32, FromLe32, Chunks;
    var body := Concat(EncEntry, ds);
    forall k | 0 <= k < |ds| ensures DecEntry(EncEntry(ds[k])) == ds[k] { EntryRoundTrip(ds[k]); }
    ChunksRoundTrip(EncEntry, DecEntry, DATA_REC_LEN, ds);
    SectionAt(pre, Le32(|ds|), body, post);
    Le32RoundTrip(|ds|);
  }

  lemma SectionAt(pre: Octets, cnt: Octets, body: Octets, post: Octets)
    ensures
      var b := pre + (cnt + body) + post;
      var i := |pre| + |cnt|;
      && i + |body| <= |b| && b[|pre|..i] == cnt && b[i..i + |body|] == body
  {
  }

  // ----- the whole table -----

  function Flags(t: Table): U32
  {
    (if t.sessions == [] then 0 else CTB_SESSION) + (if t.blocks == [] then 0 else CTB_DATA)
  }

  /** Relative offset of each section that is present. */
  function Offsets(t: Table): Octets
  {
    var n := TABLE_HDR_LEN + 8 * PopCount(Flags(t));
    (if t.sessions == [] then [] else Le64(n))
    + (if t.blocks == [] then [] else Le64(n + |EncSessions(t.sessions)|))
  }

  function PopCount(n: nat): nat
  {
    if n == 0 then 0 else n % 2 + PopCount(n / 2)
  }

  lemma SmallPopCounts()
    ensures PopCount(0) == 0 && PopCount(1) == 1 && PopCount(2) == 1 && PopCount(3) == 2
  {
    assert PopCount(1) == 1 + PopCount(0);
    assert PopCount(2) == 0 + PopCount(1);
    assert PopCount(3) == 1 + PopCount(1);
  }

  function TableBlock(flags: nat, tail: Octets): (b: Octets)
    ensures |b| == TABLE_HDR_LEN + |tail|
  {
    BlockHeader(BTYPE_TABLE, 0, TABLE_HDR_LEN + |tail|) + (Le32(flags) + tail)
  }

  /** `Block_content::write_to_file` */
  function EncTable(t: Table): Octets
  {
    TableBlock(Flags(t), Offsets(t) + EncSessions(t.sessions) + EncBlocks(t.blocks))
  }

  /** Flags and octets of the Content Table at `off`. */
  function TableAt(file: Octets, off: nat): Option<(U32, Octets)>
  {
    var h := ReadAt(file, off, BHDR_LEN);
    if |h| != BHDR_LEN || FromLe16(h[..2]) != BTYPE_TABLE then None
    else
      var size := FromLe64(h[4..12]);
      var b := ReadAt(file, off, size);
      if size < TABLE_HDR_LEN || |b| != size then None else Some((FromLe32(b[12..16]), b))
  }

  /** The sections named by `flags`, at the offsets listed behind the header. */
  function Sections(flags: nat, b: Octets): Option<Table>
  {
    if |b| < TABLE_HDR_LEN + 8 * PopCount(flags) then None
    else
      var hasSessions, hasBlocks := flags % 2 == 1, flags / 2 % 2 == 1;
      if (hasSessions && |b| < 24) || (hasBlocks && |b| < (if hasSessions then 32 else 24)) then None
      else
        var ss := if hasSessions then ReadSessions(b, FromLe64(b[16..24])) else Some([]);
        var ds :=
          if !hasBlocks then Some([])
          else ReadBlocks(b, if hasSessions then FromLe64(b[24..32]) else FromLe64(b[16..24]));
        if ss.None? || ds.None? then None else Some(Table(ss.value, ds.value))
  }

  /** `Block_content::load_from_file` */
  function LoadTable(file: Octets, off: nat): Option<Table>
  {
    match TableAt(file, off)
    case None => None
    case Some(p) => Sections(p.0, p.1)
  }

  lemma TableHeader(file: Octets, off: nat, flags: U32, tail: Octets)
    requires At(file, off, TableBlock(flags, tail)) && TABLE_HDR_LEN + |tail| < TWO64
    ensures TableAt(file, off) == Some((flags, TableBlock(flags, tail)))
  {
    var b := TableBlock(flags, tail);
    ReadHeader(file, off, BTYPE_TABLE, 0, |b|, Le32(flags) + tail);
    ReadPart(file, off, b, |b|);
    assert b[..|b|] == b && b[12..16] == Le32(flags);
    Le32RoundTrip(flags);
  }

  /** What the lists accept: one session more than two octets can count. */
  predicate TableKept(t: Table)
  {
    && |t.sessions| <= 0x1_0000 && (forall k :: 0 <= k < |t.sessions| ==> SessFits(t.sessions[k]))
    && |t.blocks| <= 0xFFFF_FFFF && (forall k :: 0 <= k < |t.blocks| ==> EntryFits(t.blocks[k]))
  }

  /** The counts and values of `t` fit the fields that hold them. */
  predicate TableFits(t: Table)
  {
    |t.sessions| <= 0xFFFF && TableKept(t)
  }

  function ReadBack(t: Table): Table
  {
    t.(sessions := Counted(t.sessions))
  }

  lemma SectionsOfBoth(hdr: Octets, t: Table)
    requires |hdr| == TABLE_HDR_LEN && t.sessions != [] && t.blocks != []
    requires TableKept(t)
    ensures
      var n := 32 + |EncSessions(t.sessions)|;
      n < TWO64 ==>
        Sections(3, hdr + (Le64(32) + Le64(n)) + EncSessions(t.sessions) + EncBlocks(t.blocks)) == Some(ReadBack(t))
  {
    hide Le64, FromLe64, EncSessions, EncBlocks, ReadSessions, ReadBlocks, PopCount;
    SmallPopCounts();
    var s, d := EncSessions(t.sessions), EncBlocks(t.blocks);
    var n := 32 + |s|;
    if n < TWO64 {
      var pre := hdr + (Le64(32) + Le64(n));
      var b := pre + s + d;
      SessionsRoundTrip(pre, t.sessions, d);
      BlocksRoundTrip(pre + s, t.blocks, []);
      assert pre + s + d + [] == b;
      assert b[16..24] == Le64(32) && b[24..32] == Le64(n);
      Le64RoundTrip(32);
      Le64RoundTrip(n);
    }
  }

  lemma SectionsOfOne(hdr: Octets, t: Table)
    requires |hdr| == TABLE_HDR_LEN && (t.sessions == []) != (t.blocks == [])
    requires TableKept(t)
    ensures Sections(Flags(t), hdr + Le64(24) + EncSessions(t.sessions) + EncBlocks(t.blocks)) == Some(ReadBack(t))
  {
    SmallPopCounts();
    var s, d := EncSessions(t.sessions), EncBlocks(t.blocks);
    var pre := hdr + Le64(24);
    var b := pre + s + d;
    assert b[16..24] == Le64(24);
    Le64RoundTrip(24);
    if t.sessions != [] {
      SessionsRoundTrip(pre, t.sessions, d);
    } else {
      BlocksRoundTrip(pre + s, t.blocks, []);
      assert pre + s + d + [] == b;
    }
  }

  lemma TableSize(t: Table)
    requires TableKept(t)
    ensures |EncTable(t)| < TWO64 && |EncSessions(t.sessions)| < 0x1_0000_0000
  {
    SmallPopCounts();
    forall k | 0 <= k < |t.sessions| ensures DecSess(EncSess(t.sessions[k])) == t.sessions[k] {
      SessRoundTrip(t.sessions[k]);
    }
    forall k | 0 <= k < |t.blocks| ensures DecEntry(EncEntry(t.blocks[k])) == t.blocks[k] {
      EntryRoundTrip(t.blocks[k]);
    }
    ChunksRoundTrip(EncSess, DecSess, SESS_REC_LEN, t.sessions);
    ChunksRoundTrip(EncEntry, DecEntry, DATA_REC_LEN, t.blocks);
  }

  lemma SectionsRoundTrip(hdr: Octets, t: Table)
    requires |hdr| == TABLE_HDR_LEN && TableKept(t) && |EncSessions(t.sessions)| < 0x1_0000_0000
    ensures Sections(Flags(t), hdr + (Offsets(t) + EncSessions(t.sessions) + EncBlocks(t.blocks))) == Some(ReadBack(t))
  {
    var s, d := EncSessions(t.sessions), EncBlocks(t.blocks);
    assert hdr + (Offsets(t) + s + d) == hdr + Offsets(t) + s + d;
    SmallPopCounts();
    if t.sessions != [] && t.blocks != [] {
      SectionsOfBoth(hdr, t);
    } else if t.sessions != [] || t.blocks != [] {
      assert Offsets(t) == Le64(24);
      SectionsOfOne(hdr, t);
    }
  }

  /** A written Content Table is read back as the same two lists if and only if it has at most 65535 sessions; of
      65536 sessions none comes back. */
  lemma TableRoundTripExactly(file: Octets, off: nat, t: Table)
    requires TableKept(t) && At(file, off, EncTable(t))
    ensures LoadTable(file, off) == Some(t.(sessions := if |t.sessions| <= 0xFFFF then t.sessions else []))
    ensures LoadTable(file, off) == Some(t) <==> |t.sessions| <= 0xFFFF
  {
    var tail := Offsets(t) + EncSessions(t.sessions) + EncBlocks(t.blocks);
    TableSize(t);
    TableHeader(file, off, Flags(t), tail);
    TableBlockSplit(Flags(t), tail);
    hide Flags, Offsets, EncSessions, EncBlocks, At, TableAt, Sections;
    SectionsRoundTrip(TableBlock(Flags(t), tail)[..TABLE_HDR_LEN], t);
  }

  /** Loading a written Content Table gives back the same two lists. */
  lemma TableRoundTrip(file: Octets, off: nat, t: Table)
    requires TableFits(t) && At(file, off, EncTable(t))
    ensures LoadTable(file, off) == Some(t)
  {
    hide At, EncTable, LoadTable;
    TableRoundTripExactly(file, off, t);
  }

  lemma TableBlockSplit(flags: nat, tail: Octets)
    ensures var b := TableBlock(flags, tail); b == b[..TABLE_HDR_LEN] + tail
  {
  }
}
