/** The Content Table as it is kept, written and loaded. */
module BlockContent {
  import opened Bytes
  import opened Status
  import opened Blocks
  import opened ContentTable

  const MAX_ENTRIES := 0xFFFF_FFFF

  /** One record behind the other, from position `from` on. */
  method StoreRecords<T>(buffer: array<Byte>, from: nat, enc: T -> Octets, xs: seq<T>) returns (pos: nat)
    requires from + |Concat(enc, xs)| <= buffer.Length
    modifies buffer
    ensures pos == from + |Concat(enc, xs)|
    ensures buffer[..pos] == old(buffer[..from]) + Concat(enc, xs)
  {
    hide Concat, Splice;
    pos := from;
    var i := 0;
    NoRecords(enc);
    assert xs[..0] == [];
    while i < |xs|
      invariant 0 <= i <= |xs| && pos == from + |Concat(enc, xs[..i])| <= buffer.Length
      invariant buffer[..pos] == old(buffer[..from]) + Concat(enc, xs[..i])
    {
      NextRecord(enc, xs, i);
      var rec := enc(xs[i]);
      ghost var was := buffer[..];
      Store(buffer, pos, rec);
      SpliceKeeps(was, pos, rec, 0, pos);
      assert buffer[..pos + |rec|] == buffer[..][0..pos] + buffer[..][pos..pos + |rec|];
      assert was[0..pos] == was[..pos];
      pos := pos + |rec|;
      i := i + 1;
    }
    assert xs[..i] == xs;
  }

  lemma NoRecords<T>(enc: T -> Octets)
    ensures Concat(enc, []) == []
  {
  }

  lemma NextRecord<T>(enc: T -> Octets, xs: seq<T>, i: nat)
    requires i < |xs|
    ensures Concat(enc, xs[..i + 1]) == Concat(enc, xs[..i]) + enc(xs[i])
    ensures |Concat(enc, xs[..i])| + |enc(xs[i])| <= |Concat(enc, xs)|
  {
    assert xs[..i + 1] == xs[..i] + [xs[i]] && xs == xs[..i + 1] + xs[i + 1..];
    ConcatPush(enc, xs[..i], xs[i]);
    ConcatAppend(enc, xs[..i + 1], xs[i + 1..]);
  }

  /** A section: the number of records and the records. */
  method WriteSection<T>(count: Octets, enc: T -> Octets, size: nat, xs: seq<T>) returns (sec: Octets)
    requires forall x :: |enc(x)| == size
    ensures sec == count + Concat(enc, xs)
  {
    SameSizes(enc, size, xs);
    var buffer := new Byte[|count| + |xs| * size](_ => 0);
    Store(buffer, 0, count);
    assert buffer[..|count|] == buffer[..][0..0 + |count|];
    var pos := StoreRecords(buffer, |count|, enc, xs);
    sec := buffer[..pos];
  }

  lemma {:induction false} SameSizes<T>(enc: T -> Octets, size: nat, xs: seq<T>)
    requires forall x :: |enc(x)| == size
    ensures |Concat(enc, xs)| == |xs| * size
  {
    if xs != [] {
      SameSizes(enc, size, xs[1..]);
      assert |xs| * size == size + (|xs| - 1) * size;
    }
  }

  lemma NextSess(body: Octets, n: nat, i: nat)
    requires |body| == SESS_REC_LEN * n && i < n
    ensures Chunks(DecSess, SESS_REC_LEN, body[SESS_REC_LEN * i..], n - i) ==
      [DecSess(body[SESS_REC_LEN * i..SESS_REC_LEN * (i + 1)])]
      + Chunks(DecSess, SESS_REC_LEN, body[SESS_REC_LEN * (i + 1)..], n - (i + 1))
  {
    hide DecSess;
    var rest := body[SESS_REC_LEN * i..];
    assert rest[..SESS_REC_LEN] == body[SESS_REC_LEN * i..SESS_REC_LEN * (i + 1)];
    assert rest[SESS_REC_LEN..] == body[SESS_REC_LEN * (i + 1)..];
  }

  lemma LastSess(rest: Octets)
    requires rest == []
    ensures Chunks(DecSess, SESS_REC_LEN, rest, 0) == []
  {
  }

  lemma NextEntry(body: Octets, n: nat, i: nat)
    requires |body| == DATA_REC_LEN * n && i < n
    ensures Chunks(DecEntry, DATA_REC_LEN, body[DATA_REC_LEN * i..], n - i) ==
      [DecEntry(body[DATA_REC_LEN * i..DATA_REC_LEN * (i + 1)])]
      + Chunks(DecEntry, DATA_REC_LEN, body[DATA_REC_LEN * (i + 1)..], n - (i + 1))
  {
    hide DecEntry;
    var rest := body[DATA_REC_LEN * i..];
    assert rest[..DATA_REC_LEN] == body[DATA_REC_LEN * i..DATA_REC_LEN * (i + 1)];
    assert rest[DATA_REC_LEN..] == body[DATA_REC_LEN * (i + 1)..];
  }

  lemma LastEntry(rest: Octets)
    requires rest == []
    ensures Chunks(DecEntry, DATA_REC_LEN, rest, 0) == []
  {
  }

  class BlockContent {
    var sessions: seq<SessEntry>
    var blocks: seq<DataEntry>

    function Entries(): Table
      reads this
    {
      Table(sessions, blocks)
    }

    constructor ()
      ensures Entries() == Table([], [])
    {
      sessions, blocks := [], [];
    }

    /** `add_session` */
    method AddSession(e: SessEntry) returns (st: Status)
      modifies this`sessions
      ensures st == if |old(sessions)| > 0xFFFF then ErrInternal else Ok
      ensures sessions == if st == Ok then old(sessions) + [e] else old(sessions)
    {
      if |sessions| >= 0xFFFF + 1 { return ErrInternal; }
      sessions := sessions + [e];
      return Ok;
    }

    /** `add_data_block` */
    method AddDataBlock(e: DataEntry) returns (st: Status)
      modifies this`blocks
      ensures st == if |old(blocks)| + 1 > MAX_ENTRIES then ErrInternal else Ok
      ensures blocks == if st == Ok then old(blocks) + [e] else old(blocks)
    {
      if |blocks| + 1 > MAX_ENTRIES { return ErrInternal; }
      blocks := blocks + [e];
      return Ok;
    }

    /** `write_to_file`: header, offsets of the sections that are present, and the sections. */
    method WriteToFile() returns (block: Octets)
      ensures block == EncTable(Entries())
    {
      hide EncSess, EncEntry, Le16, Le32, Le64, BlockHeader, Concat;
      SmallPopCounts();
      var flags, count := 0, 0;
      if sessions != [] { flags, count := CTB_SESSION, 1; }
      if blocks != [] { flags, count := flags + CTB_DATA, count + 1; }
      var relOffset := TABLE_HDR_LEN + 8 * count;
      var offsets: Octets, sections: Octets := [], [];
      if sessions != [] {
        offsets := offsets + Le64(relOffset);
        var sec := WriteSection(Le16(|sessions|), EncSess, SESS_REC_LEN, sessions);
        sections := sections + sec;
        relOffset := relOffset + |sec|;
      }
      if blocks != [] {
        offsets := offsets + Le64(relOffset);
        var sec := WriteSection(Le32(|blocks|), EncEntry, DATA_REC_LEN, blocks);
        sections := sections + sec;
        relOffset := relOffset + |sec|;
      }
      block := BlockHeader(BTYPE_TABLE, 0, relOffset) + (Le32(flags) + offsets + sections);
      WholeTable(Entries(), flags, offsets, sections, block);
    }

    /** `read_sessions` */
    method LoadSessions(b: Octets, rel: nat) returns (st: Status)
      requires sessions == []
      modifies this`sessions
      ensures match ReadSessions(b, rel)
        case None => st == ErrInternal
        case Some(ss) => st == Ok && sessions == ss
    {
      hide DecSess, FromLe16, Chunks;
      if rel + 2 > |b| { return ErrInternal; }
      var n := FromLe16(b[rel..rel + 2]);
      var start, end := rel + 2, rel + 2 + SESS_REC_LEN * n;
      if end > |b| { return ErrInternal; }
      var body := b[start..end];
      var i := 0;
      assert body[SESS_REC_LEN * 0..] == body;
      while i < n
        invariant 0 <= i <= n && |sessions| == i
        invariant
          sessions + Chunks(DecSess, SESS_REC_LEN, body[SESS_REC_LEN * i..], n - i) ==
            Chunks(DecSess, SESS_REC_LEN, body, n)
      {
        NextSess(body, n, i);
        st := AddSession(DecSess(body[SESS_REC_LEN * i..SESS_REC_LEN * (i + 1)]));
        i := i + 1;
      }
      LastSess(body[SESS_REC_LEN * i..]);
      assert sessions + [] == sessions;
      return Ok;
    }

    /** `read_data_blocks` */
    method LoadBlocks(b: Octets, rel: nat) returns (st: Status)
      requires blocks == []
      modifies this`blocks
      ensures match ReadBlocks(b, rel)
        case None => st == ErrInternal
        case Some(ds) => st == Ok && blocks == ds
    {
      hide DecEntry, FromLe32, Chunks;
      if rel + 4 > |b| { return ErrInternal; }
      var n := FromLe32(b[rel..rel + 4]);
      var start, end := rel + 4, rel + 4 + DATA_REC_LEN * n;
      if end > |b| { return ErrInternal; }
      var body := b[start..end];
      var i := 0;
      assert body[DATA_REC_LEN * 0..] == body;
      while i < n
        invariant 0 <= i <= n && |blocks| == i
        invariant
          blocks + Chunks(DecEntry, DATA_REC_LEN, body[DATA_REC_LEN * i..], n - i) ==
            Chunks(DecEntry, DATA_REC_LEN, body, n)
      {
        NextEntry(body, n, i);
        st := AddDataBlock(DecEntry(body[DATA_REC_LEN * i..DATA_REC_LEN * (i + 1)]));
        i := i + 1;
      }
      LastEntry(body[DATA_REC_LEN * i..]);
      assert blocks + [] == blocks;
      return Ok;
    }

    /** `load_from_file`: what was kept is replaced by the table in the file. */
    method LoadFromFile(file: Octets, off: nat) returns (st: Status)
      modifies this
      ensures match LoadTable(file, off)
        case None => st == ErrInternal
        case Some(t) => st == Ok && Entries() == t
    {
      hide ReadSessions, ReadBlocks, TableAt, FromLe64, PopCount;
      sessions, blocks := [], [];
      var content := TableAt(file, off);
      if content.None? { return ErrInternal; }
      var flags, b := content.value.0, content.value.1;
      if |b| < TABLE_HDR_LEN + 8 * PopCount(flags) { return ErrInternal; }
      var hasSessions, hasBlocks := flags % 2 == 1, flags / 2 % 2 == 1;
      SectionsNeedRoom(flags);
      var pos := TABLE_HDR_LEN;
      var failed := false;
      if hasSessions {
        st := LoadSessions(b, FromLe64(b[pos..pos + 8]));
        failed := st != Ok;
        pos := pos + 8;
      }
      if failed { return ErrInternal; }
      if hasBlocks {
        st := LoadBlocks(b, FromLe64(b[pos..pos + 8]));
        failed := st != Ok;
      }
      return if failed then ErrInternal else Ok;
    }
  }

  /** Each section that is present has its offset in the header. */
  lemma SectionsNeedRoom(flags: nat)
    ensures PopCount(flags) >= (if flags % 2 == 1 then 1 else 0) + (if flags / 2 % 2 == 1 then 1 else 0)
  {
    if flags != 0 { assert PopCount(flags) == flags % 2 + PopCount(flags / 2); }
    if flags / 2 != 0 { assert PopCount(flags / 2) == flags / 2 % 2 + PopCount(flags / 2 / 2); }
  }

  lemma WholeTable(t: Table, flags: nat, offsets: Octets, sections: Octets, block: Octets)
    requires flags == Flags(t) && offsets == Offsets(t) && sections == EncSessions(t.sessions) + EncBlocks(t.blocks)
    requires
      block == BlockHeader(BTYPE_TABLE, 0, TABLE_HDR_LEN + |offsets| + |sections|) + (Le32(flags) + offsets + sections)
    ensures block == EncTable(t)
  {
    hide BlockHeader, Le32, Offsets, EncSessions, EncBlocks, Flags;
    assert Le32(flags) + offsets + sections == Le32(flags) + (offsets + sections);
    assert offsets + sections == offsets + EncSessions(t.sessions) + EncBlocks(t.blocks);
  }
}
