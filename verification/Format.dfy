/** The octets of everything that is written, field by field: width and value, in the byte order of the host for the
    file and in network byte order for IPFIX (sections 3.1 and 3.3.2 of RFC 7011). */
module Format {
  import opened Bytes
  import opened ByteOrder
  import opened Templates
  import opened Messages
  import opened DataBuffer
  import opened Blocks
  import opened ContentTable
  import opened DataBlock
  import opened Writer
  import opened FileImage

  // ----- IPFIX -----

  /** Version 10, length, Export Time, Sequence Number, Observation Domain ID. */
  lemma MessageFormat(m: Msg)
    ensures EncMsg(m) ==
      Be(2, 10) + Be(2, 16 + |EncSets(m.sets)|) + Be(4, m.etime) + Be(4, m.seqNum) + Be(4, m.odid) + EncSets(m.sets)
    ensures MsgLen(m) == 16 + |EncSets(m.sets)|
  {
    hide Be, Be16, Be32;
    Be2(10);
    Be2(MsgLen(m));
    Be4(m.etime);
    Be4(m.seqNum);
    Be4(m.odid);
  }

  /** The ID of the template, the length, and the records without padding. */
  lemma SetFormat(s: DataSet)
    ensures EncSet(s) == Be(2, s.tid) + Be(2, 4 + |Join(s.recs)|) + Join(s.recs)
  {
    hide Be, Be16;
    Be2(s.tid);
    Be2(4 + |Join(s.recs)|);
  }

  // ----- blocks -----

  lemma HeaderFormat(btype: nat, flags: nat, len: nat)
    ensures BlockHeader(btype, flags, len) == Le(2, btype) + Le(2, flags) + Le(8, len)
  {
    hide Le, Le16, Le64;
    Le2(btype);
    Le2(flags);
    Le8(len);
  }

  /** "FDS1", version 1, the compression algorithm, the offset of the Content Table, and statistics. */
  lemma FileHeaderFormat(alg: Byte, tableOff: nat)
    ensures FileHeader(alg, tableOff) ==
      ['F' as int, 'D' as int, 'S' as int, '1' as int] + [1, alg] + Le(2, 0) + Le(8, tableOff) + seq(168, _ => 0)
  {
    Le2(0);
    Le8(tableOff);
    assert Le32(0x31534446) == ['F' as int, 'D' as int, 'S' as int, '1' as int];
    hide Le, Le16, Le32, Le64;
  }

  lemma SessionFormat(sid: U16, s: Session)
    ensures EncSession(sid, s) ==
      Le(2, 1) + Le(2, 0) + Le(8, 56) + Le(4, 0) + Le(2, sid) + Le(2, s.proto)
      + s.ipSrc + s.ipDst + Le(2, s.portSrc) + Le(2, s.portDst)
  {
    hide Le, Le16, Le32, Le64, BlockHeader;
    HeaderFormat(1, 0, 56);
    Le4(0);
    Le2(sid);
    Le2(s.proto);
    Le2(s.portSrc);
    Le2(s.portDst);
  }

  /** The definitions by ascending ID. */
  function Definitions(m: TmpltMap, ids: seq<nat>): Octets
    requires forall k :: 0 <= k < |ids| ==> ids[k] in m
  {
    if ids == [] then []
    else
      var t := m[ids[0]];
      Le(2, t.ttype) + Le(2, 4 + |t.raw|) + t.raw + Definitions(m, ids[1..])
  }

  ghost predicate Ascending(ids: seq<nat>, m: TmpltMap)
  {
    && (forall k :: k in ids <==> k in m)
    && (forall i, j :: 0 <= i < j < |ids| ==> ids[i] < ids[j])
  }

  lemma {:induction false} SameList(a: seq<nat>, b: seq<nat>, m: TmpltMap)
    requires Ascending(a, m) && Ascending(b, m)
    ensures a == b
  {
    if a == [] || b == [] {
      NoEntry(a, m);
      NoEntry(b, m);
    } else {
      assert a[0] in b && b[0] in a;
      assert a[0] == b[0];
      var rest := m - {a[0]};
      SameRest(a, m);
      SameRest(b, m);
      SameList(a[1..], b[1..], rest);
    }
  }

  lemma NoEntry(a: seq<nat>, m: TmpltMap)
    requires Ascending(a, m)
    ensures a == [] <==> m == map[]
  {
    if a != [] { assert a[0] in m; }
    if m != map[] {
      var k :| k in m;
      assert k in a;
    }
  }

  lemma SameRest(a: seq<nat>, m: TmpltMap)
    requires a != [] && Ascending(a, m)
    ensures Ascending(a[1..], m - {a[0]})
  {
    forall k | k in m - {a[0]} ensures k in a[1..] {
      assert k in a;
      var i :| 0 <= i < |a| && a[i] == k;
      assert a[1..][i - 1] == k;
    }
  }

  lemma {:induction false} RecordsFormat(m: TmpltMap, ids: seq<nat>, ts: seq<Template>)
    requires |ts| == |ids| && forall k :: 0 <= k < |ids| ==> ids[k] in m && ts[k] == m[ids[k]]
    ensures Concat(EncTrec, ts) == Definitions(m, ids)
    decreases |ids|
  {
    hide Le, Le16;
    if ids != [] {
      Le2(ts[0].ttype);
      Le2(4 + |ts[0].raw|);
      RecordsFormat(m, ids[1..], ts[1..]);
    }
  }

  function Zeros(n: nat): Octets
  {
    seq(n, _ => 0)
  }

  /** The definitions stand in the order of their IDs, padded with zeros to a multiple of four octets. */
  lemma TemplatesFormat(sid: U16, odid: U32, m: TmpltMap, ids: seq<nat>)
    requires Ascending(ids, m)
    ensures
      var body := Definitions(m, ids);
      var pad := Zeros((4 - (18 + |body|) % 4) % 4);
      EncTmplts(sid, odid, m) ==
        Le(2, 2) + Le(2, 0) + Le(8, 18 + |body| + |pad|) + Le(4, odid) + Le(2, sid) + body + pad
  {
    hide Le, Definitions, EncTmplts, EncTrecs, Zeros;
    BodyFormat(m, ids);
    PaddingZeros(18 + |Definitions(m, ids)|);
    TemplatesLaid(sid, odid, m);
  }

  lemma BodyFormat(m: TmpltMap, ids: seq<nat>)
    requires Ascending(ids, m)
    ensures EncTrecs(m) == Definitions(m, ids)
  {
    hide Definitions, Sorted, EncTrec;
    var ts := TmpltSeq(m);
    SameList(ids, Sorted(m.Keys), m);
    forall k | 0 <= k < |ids| ensures ids[k] in m && ts[k] == m[ids[k]] { TmpltSeqAt(m, k); }
    RecordsFormat(m, ids, ts);
  }

  lemma TemplatesLaid(sid: U16, odid: U32, m: TmpltMap)
    ensures
      var body, pad := EncTrecs(m), Padding(18 + |EncTrecs(m)|);
      EncTmplts(sid, odid, m) ==
        Le(2, 2) + Le(2, 0) + Le(8, 18 + |body| + |pad|) + Le(4, odid) + Le(2, sid) + body + pad
  {
    hide Le, Le16, Le32, Le64, BlockHeader, Padding, EncTrecs;
    var body, pad := EncTrecs(m), Padding(18 + |EncTrecs(m)|);
    var h := BlockHeader(2, 0, 18 + |body| + |pad|);
    HeaderFormat(2, 0, 18 + |body| + |pad|);
    Le4(odid);
    Le2(sid);
    Regrouped(h, Le32(odid), Le16(sid), body, pad);
    assert EncTmplts(sid, odid, m) == h + (Le32(odid) + Le16(sid) + (body + pad));
  }

  lemma Regrouped(a: Octets, b: Octets, c: Octets, d: Octets, e: Octets)
    ensures a + (b + c + (d + e)) == a + b + c + d + e
  {
  }

  lemma PaddingZeros(n: nat)
    ensures Padding(n) == Zeros((4 - n % 4) % 4)
  {
  }

  /** The header of a Data Block is never packed; the lowest flag says whether the Messages behind it are. */
  lemma DataFormat(c: Codec, sid: U16, odid: U32, toff: nat, content: Octets)
    ensures
      var stored := if c.Plain? then content else c.pack(content);
      EncData(c, sid, odid, toff, content) ==
        Le(2, 3) + Le(2, if c.Plain? then 0 else 1) + Le(8, 28 + |stored|)
        + Le(2, 0) + Le(2, sid) + Le(4, odid) + Le(8, toff) + stored
  {
    hide Le, Le16, Le32, Le64, BlockHeader;
    HeaderFormat(3, if c.Plain? then 0 else 1, 28 + |Stored(c, content)|);
    Le2(0);
    Le2(sid);
    Le4(odid);
    Le8(toff);
  }

  // ----- Content Table -----

  function SessionList(ss: seq<SessEntry>): (b: Octets)
    ensures |b| == 20 * |ss|
  {
    if ss == [] then []
    else Le(8, ss[0].off) + Le(8, ss[0].len) + Le(2, ss[0].sid) + Le(2, 0) + SessionList(ss[1..])
  }

  function BlockList(ds: seq<DataEntry>): (b: Octets)
    ensures |b| == 32 * |ds|
  {
    if ds == [] then []
    else
      Le(8, ds[0].off) + Le(8, ds[0].len) + Le(8, ds[0].toff) + Le(4, ds[0].odid) + Le(2, ds[0].sid) + Le(2, 0)
      + BlockList(ds[1..])
  }

  lemma {:induction false} SessionsFormat(ss: seq<SessEntry>)
    ensures Concat(EncSess, ss) == SessionList(ss)
  {
    hide Le, Le16, Le64;
    if ss != [] {
      Le8(ss[0].off);
      Le8(ss[0].len);
      Le2(ss[0].sid);
      Le2(0);
      SessionsFormat(ss[1..]);
    }
  }

  lemma {:induction false} BlocksFormat(ds: seq<DataEntry>)
    ensures Concat(EncEntry, ds) == BlockList(ds)
  {
    hide Le, Le16, Le32, Le64;
    if ds != [] {
      Le8(ds[0].off);
      Le8(ds[0].len);
      Le8(ds[0].toff);
      Le4(ds[0].odid);
      Le2(ds[0].sid);
      Le2(0);
      BlocksFormat(ds[1..]);
    }
  }

  function Numbered(number: Octets, list: Octets, none: bool): Octets
  {
    if none then [] else number + list
  }

  /** One flag and one offset for each list that is not empty, and then the lists with their numbers of entries. */
  lemma TableFormat(t: Table)
    ensures
      var ss := Numbered(Le(2, |t.sessions|), SessionList(t.sessions), t.sessions == []);
      var ds := Numbered(Le(4, |t.blocks|), BlockList(t.blocks), t.blocks == []);
      var flags := (if t.sessions == [] then 0 else 1) + (if t.blocks == [] then 0 else 2);
      var offs := if flags == 0 then [] else if flags < 3 then Le(8, 24) else Le(8, 32) + Le(8, 32 + |ss|);
      EncTable(t) == Le(2, 4) + Le(2, 0) + Le(8, 16 + |offs| + |ss| + |ds|) + Le(4, flags) + offs + ss + ds
  {
    hide Le, Le16, Le32, Le64, BlockHeader, SessionList, BlockList, Concat;
    SmallPopCounts();
    SessionsFormat(t.sessions);
    BlocksFormat(t.blocks);
    Le2(|t.sessions|);
    Le4(|t.blocks|);
    var ss, ds := EncSessions(t.sessions), EncBlocks(t.blocks);
    assert ss == Numbered(Le(2, |t.sessions|), SessionList(t.sessions), t.sessions == []);
    assert ds == Numbered(Le(4, |t.blocks|), BlockList(t.blocks), t.blocks == []);
    Le8(24);
    Le8(32);
    Le8(32 + |ss|);
    Le4(Flags(t));
    HeaderFormat(4, 0, 16 + |Offsets(t)| + |ss| + |ds|);
    Regroup(BlockHeader(4, 0, 16 + |Offsets(t)| + |ss| + |ds|), Le32(Flags(t)), Offsets(t), ss, ds);
    hide EncSessions, EncBlocks, Numbered;
  }

  lemma Regroup(a: Octets, b: Octets, c: Octets, d: Octets, e: Octets)
    ensures a + (b + (c + d + e)) == a + b + c + d + e
  {
  }
}
