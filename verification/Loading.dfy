/** What the loaders accept and find, on any octets: each statement gives all conditions and all fields by offset. */
module Loading {
  import opened Bytes
  import opened ByteOrder
  import opened Templates
  import opened Messages
  import opened DataBuffer
  import opened Status
  import opened Blocks
  import opened ContentTable
  import opened DataBlock
  import opened Writer
  import opened FileImage
  import opened Reopening

  /** The number of `width` octets at `off`. */
  function Num(file: Octets, off: nat, width: nat): nat
    requires off + width <= |file|
  {
    Value(file[off..off + width])
  }

  lemma Inner(file: Octets, off: nat, n: nat, at: nat, width: nat)
    requires off + n <= |file| && at + width <= n
    ensures file[off..off + n][at..at + width] == file[off + at..off + at + width]
  {
    var a, b := file[off..off + n][at..at + width], file[off + at..off + at + width];
    assert |a| == |b| && forall k :: 0 <= k < |a| ==> a[k] == b[k];
  }

  lemma WholeRead(file: Octets, off: nat, n: nat)
    requires n > 0
    ensures |ReadAt(file, off, n)| == n <==> off + n <= |file|
    ensures off + n <= |file| ==> ReadAt(file, off, n) == file[off..off + n]
  {
  }

  lemma Num2(file: Octets, off: nat, n: nat, at: nat)
    requires off + n <= |file| && at + 2 <= n
    ensures FromLe16(file[off..off + n][at..at + 2]) == Num(file, off + at, 2)
  {
    Inner(file, off, n, at, 2);
    Value2(file[off + at..off + at + 2]);
  }

  lemma Num4(file: Octets, off: nat, n: nat, at: nat)
    requires off + n <= |file| && at + 4 <= n
    ensures FromLe32(file[off..off + n][at..at + 4]) == Num(file, off + at, 4)
  {
    Inner(file, off, n, at, 4);
    Value4(file[off + at..off + at + 4]);
  }

  lemma Num8(file: Octets, off: nat, n: nat, at: nat)
    requires off + n <= |file| && at + 8 <= n
    ensures FromLe64(file[off..off + n][at..at + 8]) == Num(file, off + at, 8)
  {
    Inner(file, off, n, at, 8);
    Value8(file[off + at..off + at + 8]);
  }

  // ----- file header -----

  lemma HeaderExactly(file: Octets, h: HeaderInfo)
    ensures LoadHeader(file) == Some(h) <==>
      && |file| >= 184 && h.alg <= 2
      && file[..6] == ['F' as int, 'D' as int, 'S' as int, '1' as int, h.version, h.alg]
      && Num(file, 8, 8) == h.tableOff
  {
    hide ReadAt;
    WholeRead(file, 0, 184);
    if |file| >= 184 {
      var b := file[0..184];
      Num8(file, 0, 184, 8);
      assert b[..4] == [file[0], file[1], file[2], file[3]];
      Magic(b[..4]);
    }
    hide FromLe64, FromLe32, Num;
  }

  lemma Magic(b: Octets)
    requires |b| == 4
    ensures FromLe32(b) == 0x31534446 <==> b == ['F' as int, 'D' as int, 'S' as int, '1' as int]
  {
    assert FromLe32(b) == b[0] + b[1] as int * 0x100 + b[2] as int * 0x1_0000 + b[3] as int * 0x100_0000;
  }

  // ----- blocks -----

  /** A Session Block may be longer than 56 octets; an unknown protocol is none. */
  lemma SessionExactly(file: Octets, off: nat, sid: U16, s: Session)
    ensures LoadSession(file, off) == Some((sid, s)) <==>
      && off + 56 <= |file| && Num(file, off, 2) == 1 && Num(file, off + 4, 8) >= 56 && Num(file, off + 16, 2) == sid
      && s.proto == (if Num(file, off + 18, 2) <= 3 then Num(file, off + 18, 2) else 0)
      && s.ipSrc == file[off + 20..off + 36] && s.ipDst == file[off + 36..off + 52]
      && Num(file, off + 52, 2) == s.portSrc && Num(file, off + 54, 2) == s.portDst
  {
    hide ReadAt, FromLe16, FromLe64, Num;
    WholeRead(file, off, 56);
    if off + 56 <= |file| {
      Num2(file, off, 56, 0);
      Num8(file, off, 56, 4);
      Num2(file, off, 56, 16);
      Num2(file, off, 56, 18);
      Inner(file, off, 56, 20, 16);
      Inner(file, off, 56, 36, 16);
      Num2(file, off, 56, 52);
      Num2(file, off, 56, 54);
    }
  }

  lemma TemplatesExactly(file: Octets, off: nat, sid: U16, odid: U32, body: Octets)
    ensures TmpltsAt(file, off) == Some((sid, odid, body)) <==>
      && off + 12 <= |file| && Num(file, off, 2) == 2
      && var size := Num(file, off + 4, 8);
      && size >= 18 && off + size <= |file| && Num(file, off + 12, 4) == odid && Num(file, off + 16, 2) == sid
      && body == file[off + 18..off + size]
  {
    hide ReadAt, FromLe16, FromLe32, FromLe64, Num;
    WholeRead(file, off, 12);
    if off + 12 <= |file| {
      Num2(file, off, 12, 0);
      Num8(file, off, 12, 4);
      var size := Num(file, off + 4, 8);
      if size >= 18 {
        WholeRead(file, off, size);
        if off + size <= |file| {
          Num4(file, off, size, 12);
          Num2(file, off, size, 16);
          Inner(file, off, size, 18, size - 18);
        }
      }
    }
  }

  /** A definition in front of others, with its type and its length, which includes these two. */
  lemma DefinitionFirst(ttype: U16, raw: Octets, rest: Octets, acc: TmpltMap)
    requires |raw| <= 65531
    ensures
      LoadTrecs(Le(2, ttype) + Le(2, 4 + |raw|) + raw + rest, acc) ==
        match Parse(ttype, raw) case None => Refused case Some(t) => LoadTrecs(rest, acc[t.id as nat := t])
  {
    hide Parse, Le, FromLe16;
    var s := Le(2, ttype) + Le(2, 4 + |raw|) + raw + rest;
    assert s[..2] == Le(2, ttype) && s[2..4] == Le(2, 4 + |raw|) && s[4..4 + |raw|] == raw && s[4 + |raw|..] == rest;
    Powers();
    ValueReads(2, ttype);
    ValueReads(2, 4 + |raw|);
    Value2(s[..2]);
    Value2(s[2..4]);
    hide Value, Power;
  }

  /** What is shorter than the two numbers is padding; a length beyond the block is an error, and one shorter than the
      two numbers is never got over. */
  lemma DefinitionsEnd(s: Octets, acc: TmpltMap)
    ensures |s| < 4 ==> LoadTrecs(s, acc) == Loaded(acc)
    ensures |s| >= 4 && Num(s, 2, 2) > |s| ==> LoadTrecs(s, acc) == Refused
    ensures |s| >= 4 && Num(s, 2, 2) < 4 ==> LoadTrecs(s, acc) == Runaway
  {
    if |s| >= 4 { Value2(s[2..4]); }
  }

  /** The octets from `off` on, no more than `n`. */
  function There(file: Octets, off: nat, n: nat): nat
    requires off <= |file|
  {
    if off + n <= |file| then n else |file| - off
  }

  lemma HeaderAt(file: Octets, off: nat, n: nat)
    requires off + n <= |file| && n >= 28
    ensures
      var h := HeaderOf(file[off..off + n]);
      && h.btype == Num(file, off, 2) && h.flags == Num(file, off + 2, 2) && h.size == Num(file, off + 4, 8)
      && h.sid == Num(file, off + 14, 2) && h.odid == Num(file, off + 16, 4) && h.toff == Num(file, off + 20, 8)
  {
    hide Num, FromLe16, FromLe32, FromLe64;
    Num2(file, off, n, 0);
    Num2(file, off, n, 2);
    Num8(file, off, n, 4);
    Num2(file, off, n, 14);
    Num4(file, off, n, 16);
    Num8(file, off, n, 20);
  }

  /** The header of a Data Block and its Messages, packed when the lowest flag is set. */
  ghost predicate DataAt(c: Codec, file: Octets, off: nat, len: nat, d: Data)
  {
    && len >= 28 && off + len <= |file| && Num(file, off, 2) == 3 && Num(file, off + 4, 8) == len
    && Num(file, off + 14, 2) == d.sid && Num(file, off + 16, 4) == d.odid && Num(file, off + 20, 8) == d.toff
    && var stored := file[off + 28..off + len];
    if Num(file, off + 2, 2) % 2 == 0 then d.content == stored
    else !c.Plain? && c.unpack(stored) == Some(d.content)
  }

  /** The octets that were read must be those of the block, or those and a block header. */
  lemma LoaderExactly(c: Codec, file: Octets, off: nat, n: nat, size: nat, d: Data)
    requires off + n <= |file|
    ensures Loader(c, file[off..off + n], size) == Some(d) <==>
      (n == size || n == size + 12) && (DataAt(c, file, off, n, d) || (n >= 12 && DataAt(c, file, off, n - 12, d)))
  {
    hide Num, HeaderOf;
    if n >= 28 {
      HeaderAt(file, off, n);
      var len := HeaderOf(file[off..off + n]).size;
      if 28 <= len <= n { Inner(file, off, n, 28, len - 28); }
    }
  }

  lemma ShortRead(c: Codec, b: Octets, size: nat)
    ensures |b| < 28 ==> Loader(c, b, size) == None
  {
  }

  /** With a length known from the Content Table so many octets are asked for, otherwise as many as the block says, and
      in both cases those of the next block header; they must fit the buffer of the reader. */
  lemma DataExactly(c: Codec, file: Octets, off: nat, hint: nat, d: Data)
    ensures LoadData(c, file, off, hint) == Some(d) <==>
      && off + 28 <= |file| && (hint == 0 ==> Num(file, off, 2) == 3)
      && var size := if hint != 0 then hint else Num(file, off + 4, 8);
      && size + 12 <= 40 + (if c.Plain? then 0x10_0000 else c.bound)
      && var n := There(file, off, size + 12);
      (n == size || n == size + 12) && (DataAt(c, file, off, n, d) || (n >= 12 && DataAt(c, file, off, n - 12, d)))
  {
    hide Num, Loader, DataAt, FromLe16, FromLe64;
    WholeRead(file, off, 28);
    if off + 28 <= |file| {
      Num2(file, off, 28, 0);
      Num8(file, off, 28, 4);
      var size := if hint != 0 then hint else Num(file, off + 4, 8);
      LoaderExactly(c, file, off, There(file, off, size + 12), size, d);
      assert ReadAt(file, off, size + 12) == file[off..off + There(file, off, size + 12)];
    } else {
      ShortRead(c, ReadAt(file, off, hint + 12), hint);
    }
  }

  // ----- Content Table -----

  lemma TableHeaderExactly(file: Octets, off: nat, flags: U32, b: Octets)
    ensures TableAt(file, off) == Some((flags, b)) <==>
      && off + 12 <= |file| && Num(file, off, 2) == 4
      && var size := Num(file, off + 4, 8);
      size >= 16 && off + size <= |file| && Num(file, off + 12, 4) == flags && b == file[off..off + size]
  {
    hide ReadAt, FromLe16, FromLe32, FromLe64, Num;
    WholeRead(file, off, 12);
    if off + 12 <= |file| {
      Num2(file, off, 12, 0);
      Num8(file, off, 12, 4);
      var size := Num(file, off + 4, 8);
      if size >= 16 {
        WholeRead(file, off, size);
        if off + size <= |file| { Num4(file, off, size, 12); }
      }
    }
  }

  predicate SessionEntryAt(b: Octets, at: nat, e: SessEntry)
  {
    at + 20 <= |b| && Num(b, at, 8) == e.off && Num(b, at + 8, 8) == e.len && Num(b, at + 16, 2) == e.sid
  }

  predicate DataEntryAt(b: Octets, at: nat, e: DataEntry)
  {
    && at + 32 <= |b| && Num(b, at, 8) == e.off && Num(b, at + 8, 8) == e.len && Num(b, at + 16, 8) == e.toff
    && Num(b, at + 24, 4) == e.odid && Num(b, at + 28, 2) == e.sid
  }

  lemma {:induction false} ChunkIs<T>(dec: Octets --> T, size: nat, s: Octets, n: nat, k: nat)
    requires size * n == |s| && 0 < size && k < n && forall b: Octets :: |b| == size ==> dec.requires(b)
    ensures |Chunks(dec, size, s, n)| == n && 0 <= size * k && size * k + size <= |s|
    ensures Chunks(dec, size, s, n)[k] == dec(s[size * k..size * k + size])
    decreases n
  {
    Divide(size, n, |s|);
    var rest := s[size..];
    if n == 1 {
      assert k == 0 && size * k == 0;
      assert Chunks(dec, size, rest, 0) == [];
    } else {
      ChunkIs(dec, size, rest, n - 1, if k == 0 then 0 else k - 1);
      if k > 0 {
        assert size * k == size + size * (k - 1);
        assert rest[size * (k - 1)..size * (k - 1) + size] == s[size * k..size * k + size];
      } else {
        assert size * k == 0;
      }
    }
  }

  lemma OneSession(b: Octets, at: nat, e: SessEntry)
    requires at + 20 <= |b|
    ensures DecSess(b[at..at + 20]) == e <==> SessionEntryAt(b, at, e)
  {
    hide FromLe16, FromLe64, Num;
    Num8(b, at, 20, 0);
    Num8(b, at, 20, 8);
    Num2(b, at, 20, 16);
  }

  lemma OneBlock(b: Octets, at: nat, e: DataEntry)
    requires at + 32 <= |b|
    ensures DecEntry(b[at..at + 32]) == e <==> DataEntryAt(b, at, e)
  {
    hide FromLe16, FromLe32, FromLe64, Num;
    Num8(b, at, 32, 0);
    Num8(b, at, 32, 8);
    Num8(b, at, 32, 16);
    Num4(b, at, 32, 24);
    Num2(b, at, 32, 28);
  }

  lemma SessionChunk(b: Octets, from: nat, n: nat, k: nat, e: SessEntry)
    requires from + 20 * n <= |b| && k < n
    ensures
      var list := Chunks(DecSess, 20, b[from..from + 20 * n], n);
      |list| == n && (list[k] == e <==> SessionEntryAt(b, from + 20 * k, e))
  {
    hide SessionEntryAt, DecSess;
    ChunkIs(DecSess, 20, b[from..from + 20 * n], n, k);
    Inner(b, from, 20 * n, 20 * k, 20);
    OneSession(b, from + 20 * k, e);
  }

  lemma BlockChunk(b: Octets, from: nat, n: nat, k: nat, e: DataEntry)
    requires from + 32 * n <= |b| && k < n
    ensures
      var list := Chunks(DecEntry, 32, b[from..from + 32 * n], n);
      |list| == n && (list[k] == e <==> DataEntryAt(b, from + 32 * k, e))
  {
    hide DataEntryAt, DecEntry;
    ChunkIs(DecEntry, 32, b[from..from + 32 * n], n, k);
    Inner(b, from, 32 * n, 32 * k, 32);
    OneBlock(b, from + 32 * k, e);
  }

  /** The list of sessions is found exactly where its number and all its entries lie inside the block. */
  lemma SessionsExactly(b: Octets, rel: nat, ss: seq<SessEntry>)
    ensures ReadSessions(b, rel) == Some(ss) <==>
      && rel + 2 + 20 * |ss| <= |b| && Num(b, rel, 2) == |ss|
      && forall k :: 0 <= k < |ss| ==> SessionEntryAt(b, rel + 2 + 20 * k, ss[k])
  {
    hide SessionEntryAt, DecSess, Num, FromLe16, Chunks;
    if rel + 2 <= |b| {
      SameNum(b, rel);
      var n: nat := FromLe16(b[rel..rel + 2]);
      if n == |ss| && rel + 2 + 20 * n <= |b| {
        ChunkCount(DecSess, 20, b[rel + 2..rel + 2 + 20 * n], n);
        var list := Chunks(DecSess, 20, b[rel + 2..rel + 2 + 20 * n], n);
        forall k | 0 <= k < n ensures list[k] == ss[k] <==> SessionEntryAt(b, rel + 2 + 20 * k, ss[k]) {
          SessionChunk(b, rel + 2, n, k, ss[k]);
        }
        assert list == ss <==> forall k :: 0 <= k < n ==> list[k] == ss[k];
      } else if rel + 2 + 20 * n <= |b| {
        ChunkCount(DecSess, 20, b[rel + 2..rel + 2 + 20 * n], n);
      }
    }
  }

  lemma SameNum(b: Octets, rel: nat)
    requires rel + 2 <= |b|
    ensures FromLe16(b[rel..rel + 2]) == Num(b, rel, 2)
    ensures rel + 4 <= |b| ==> FromLe32(b[rel..rel + 4]) == Num(b, rel, 4)
  {
    Value2(b[rel..rel + 2]);
    if rel + 4 <= |b| { Value4(b[rel..rel + 4]); }
  }

  /** So is the list of Data Blocks. */
  lemma BlocksExactly(b: Octets, rel: nat, ds: seq<DataEntry>)
    ensures ReadBlocks(b, rel) == Some(ds) <==>
      && rel + 4 + 32 * |ds| <= |b| && Num(b, rel, 4) == |ds|
      && forall k :: 0 <= k < |ds| ==> DataEntryAt(b, rel + 4 + 32 * k, ds[k])
  {
    hide DataEntryAt, DecEntry, Num, FromLe32, Chunks;
    if rel + 4 <= |b| {
      SameNum(b, rel);
      var n: nat := FromLe32(b[rel..rel + 4]);
      if n == |ds| && rel + 4 + 32 * n <= |b| {
        ChunkCount(DecEntry, 32, b[rel + 4..rel + 4 + 32 * n], n);
        var list := Chunks(DecEntry, 32, b[rel + 4..rel + 4 + 32 * n], n);
        forall k | 0 <= k < n ensures list[k] == ds[k] <==> DataEntryAt(b, rel + 4 + 32 * k, ds[k]) {
          BlockChunk(b, rel + 4, n, k, ds[k]);
        }
        assert list == ds <==> forall k :: 0 <= k < n ==> list[k] == ds[k];
      } else if rel + 4 + 32 * n <= |b| {
        ChunkCount(DecEntry, 32, b[rel + 4..rel + 4 + 32 * n], n);
      }
    }
  }

  lemma ChunkCount<T>(dec: Octets --> T, size: nat, s: Octets, n: nat)
    requires size * n == |s| && 0 < size && forall b: Octets :: |b| == size ==> dec.requires(b)
    ensures |Chunks(dec, size, s, n)| == n
  {
    if n > 0 { ChunkIs(dec, size, s, n, 0); }
  }

  /** The flags name the lists; the offset of each stands behind the header, one for each flag that is set. */
  lemma SectionsExactly(flags: U32, b: Octets, t: Table)
    ensures Sections(flags, b) == Some(t) <==>
      && 16 + 8 * PopCount(flags) <= |b|
      && (if flags % 2 == 1 then 24 <= |b| && ReadSessions(b, Num(b, 16, 8)) == Some(t.sessions) else t.sessions == [])
      && (if flags / 2 % 2 == 0 then t.blocks == []
          else
            var at := if flags % 2 == 1 then 24 else 16;
            at + 8 <= |b| && ReadBlocks(b, Num(b, at, 8)) == Some(t.blocks))
  {
    hide ReadSessions, ReadBlocks, PopCount, FromLe64, Num;
    if 24 <= |b| { SameNum8(b, 16); }
    if 32 <= |b| { SameNum8(b, 24); }
  }

  lemma SameNum8(b: Octets, at: nat)
    requires at + 8 <= |b|
    ensures FromLe64(b[at..at + 8]) == Num(b, at, 8)
  {
    Value8(b[at..at + 8]);
  }

  // ----- opening -----

  /** Entry `k` is the first with that ID, and its block carries the ID and the description. */
  predicate First(file: Octets, list: seq<SessEntry>, sid: U16, s: Session, k: nat)
    requires k < |list|
  {
    && list[k].sid == sid && (forall j :: 0 <= j < k ==> list[j].sid != sid)
    && LoadSession(file, list[k].off) == Some((sid, s))
  }

  /** The first listed Session Block with the ID decides. */
  lemma {:induction false} SessionFound(file: Octets, list: seq<SessEntry>, sid: U16, s: Session)
    ensures FindSession(file, list, sid) == Some(s) <==>
      exists k :: 0 <= k < |list| && First(file, list, sid, s, k)
  {
    hide LoadSession;
    if list == [] {
    } else if list[0].sid == sid {
      assert FindSession(file, list, sid) == Some(s) <==> First(file, list, sid, s, 0);
    } else {
      var rest := list[1..];
      SessionFound(file, rest, sid, s);
      if k :| 0 <= k < |rest| && First(file, rest, sid, s, k) {
        assert forall j :: 0 < j <= k + 1 ==> list[j] == rest[j - 1];
        assert First(file, list, sid, s, k + 1);
      }
      if k :| 0 <= k < |list| && First(file, list, sid, s, k) {
        assert forall j :: 0 <= j < k ==> rest[j] == list[j + 1];
        assert First(file, rest, sid, s, k - 1);
      }
    }
  }

  /** A listed Data Block can be read exactly when Content Table, Session, Template and Data Block agree. */
  lemma OpensExactly(cd: Codec, file: Octets, t: Table, e: DataEntry, content: Octets, m: TmpltMap)
    ensures OpenEntry(cd, file, t, e) == Some((content, m)) <==>
      && (exists s :: FindSession(file, t.sessions, e.sid) == Some(s))
      && LoadTmplts(file, e.toff) == Some(TmpltBlock(e.sid, e.odid, Loaded(m)))
      && LoadData(cd, file, e.off, e.len) == Some(Data(e.sid, e.odid, e.toff, content))
  {
    hide FindSession, LoadTmplts, LoadData;
    if FindSession(file, t.sessions, e.sid).Some? {
      assert FindSession(file, t.sessions, e.sid) == Some(FindSession(file, t.sessions, e.sid).value);
    }
  }

  lemma {:induction false} SessionsLoaded(file: Octets, list: seq<SessEntry>, ss: map<nat, SessInfo>,
        ids: map<Session, nat>)
    ensures LoadSessions(file, list, ss, ids).Some? <==>
      forall k :: 0 <= k < |list| ==>
        LoadSession(file, list[k].off).Some? && LoadSession(file, list[k].off).value.0 == list[k].sid
    decreases |list|
  {
    hide LoadSession;
    if list != [] && LoadSession(file, list[0].off).Some? && LoadSession(file, list[0].off).value.0 == list[0].sid {
      var s := LoadSession(file, list[0].off).value.1;
      SessionsLoaded(file, list[1..], ss[list[0].sid as nat := SessInfo(s, list[0].off)], ids[s := list[0].sid as nat]);
      assert forall k :: 0 < k < |list| ==> list[k] == list[1..][k - 1];
    }
  }

  /** A file is opened for appending exactly when it has version 1 and names a Content Table that loads and whose
      sessions all load under their IDs; only that it names none is a denial. */
  lemma AppendsExactly(env: Env, file: Octets)
    ensures
      var h, st := LoadHeader(file), AppendPrepare(env, file).1;
      && (st == ErrDenied <==> h.Some? && h.value.version == 1 && h.value.tableOff == 0)
      && (st == Ok <==>
           && h.Some? && h.value.version == 1 && h.value.tableOff != 0 && LoadTable(file, h.value.tableOff).Some?
           && forall e :: e in LoadTable(file, h.value.tableOff).value.sessions ==>
                LoadSession(file, e.off).Some? && LoadSession(file, e.off).value.0 == e.sid)
      && (st != Ok && st != ErrDenied ==> st == ErrInternal)
  {
    hide LoadHeader, LoadTable, LoadSession, LoadSessions;
    if LoadHeader(file).Some? {
      var t := LoadTable(file, LoadHeader(file).value.tableOff);
      if t.Some? { SessionsLoaded(file, t.value.sessions, map[], map[]); }
    }
  }
}
