/** Small files that were not closed, and what the reader makes of them. */
module LostFiles {
  import opened Bytes
  import opened Templates
  import opened Messages
  import opened DataBuffer
  import opened Status
  import opened Blocks
  import opened DataBlock
  import opened ContentTable
  import opened Writer
  import opened WriterProofs
  import opened WriterHistory
  import opened FileImage
  import opened EndToEnd
  import opened Reopening
  import opened Rebuild
  import opened Reading
  import opened Recovery
  import BlockContent
  import FileWriter

  // ----- calls that write one record -----

  const SOMEONE: Session := Session(seq(16, _ => 0), seq(16, _ => 0), 0, 0, 0)
  const HERE := Ctx(1, 0)

  /** The definition of template 256, which has one field of `n` octets. */
  function Definition(n: Byte): Octets { [1, 0, 0, 1, 0, 4, 0, n] }

  function OneField(n: Byte): Template { Template(TYPE_TEMPLATE, 256, [Field(0, 4, n)], Definition(n)) }

  function Zeros(n: Byte): Data16 { seq(n, _ => 0) }

  /** Select a context, define its template, and write one record. */
  function Fill(n: Byte): seq<Op>
  {
    [OpSelect(1, 0, 0), OpTmplt(TYPE_TEMPLATE, Definition(n)), OpRec(256, Zeros(n))]
  }

  /** One opening of the file. */
  function Round(n: Byte): seq<Op> { Fill(n) + [OpReopen] }

  lemma DefinitionParses(n: Byte)
    ensures Parse(TYPE_TEMPLATE, Definition(n)) == Some(OneField(n)) && FromBe16(Definition(n)[..2]) == 256
  {
    var raw, f := Definition(n), Field(0, 4, n);
    assert raw[..2] == [1, 0] && raw[2..4] == [0, 1] && raw[4..] == [0, 4, 0, n];
    var s := raw[4..];
    assert s[..2] == [0, 4] && s[2..4] == [0, n] && s[4..] == [];
    assert ParseFields(s[4..], 0) == Some(([], []));
    assert [f] + [] == [f] && [f][1..] == [];
    assert ParseFields(s, 1) == Some(([f], []));
    assert MinLength([f]) == n;
  }

  function Filled(n: Byte): seq<Msg> { [Msg(0, 0, 0, [DataSet(256, [Zeros(n)])])] }

  function Known(n: Byte): TmpltMap { map[256 := OneField(n)] }

  function Buffered(n: Byte): Odid
  {
    Odid(Known(n), 0, Buf(0, MSG_DEF_SIZE, 0, 1, 1, Filled(n)), Some(OneField(n)))
  }

  lemma ZerosFit(n: Byte)
    ensures RecLen(Zeros(n), OneField(n)) == Some(|Zeros(n)|)
  {
    var t := OneField(n);
    assert t.fields[0].length == n && t.fields[1..] == [];
    assert !t.Dynamic();
    assert MinLength(t.fields) == n + MinLength([]);
  }

  lemma Selects(w: Writer)
    requires 1 in w.sessions && w.ctxs == map[] && w.selected == None
    ensures Step(w, OpSelect(1, 0, 0)) ==
      (w.(ctxs := map[HERE := Odid(map[], 0, Empty(0, MSG_DEF_SIZE), None)], selected := Some(HERE)), Ok)
  {
    var o := Odid(map[], 0, Empty(0, MSG_DEF_SIZE), None);
    assert w.ctxs[HERE := o][HERE := o.(data := o.data.(etimeSet := 0))] == map[HERE := o];
  }

  lemma Defines(w: Writer, n: Byte)
    requires w.selected == Some(HERE) && w.ctxs == map[HERE := Odid(map[], 0, Empty(0, MSG_DEF_SIZE), None)]
    ensures Step(w, OpTmplt(TYPE_TEMPLATE, Definition(n))) ==
      (w.(ctxs := map[HERE := Odid(Known(n), 0, Empty(0, MSG_DEF_SIZE), None)]), Ok)
  {
    DefinitionParses(n);
    hide Parse;
    var o := Odid(Known(n), 0, Empty(0, MSG_DEF_SIZE), None);
    assert map[][256 := OneField(n)] == Known(n);
    assert w.ctxs[HERE := o] == map[HERE := o];
  }

  lemma Writes(w: Writer, n: Byte)
    requires w.selected == Some(HERE) && w.ctxs == map[HERE := Odid(Known(n), 0, Empty(0, MSG_DEF_SIZE), None)] && 0 < n
    ensures Step(w, OpRec(256, Zeros(n))) == (w.(ctxs := map[HERE := Buffered(n)]), Ok)
  {
    ZerosFit(n);
    var t, b := OneField(n), Empty(0, MSG_DEF_SIZE);
    assert EncMsgs([]) == [];
    assert [] + Filled(n) == Filled(n);
    assert Add(b, Zeros(n), t) == Buffered(n).data;
    hide RecLen, Add, Extend;
    var o := Odid(Known(n), 0, b, Some(t));
    assert w.ctxs[HERE := o][HERE := o.(data := Buffered(n).data)] == map[HERE := Buffered(n)];
  }

  /** The three calls put the record into the buffer of the context. */
  lemma FillRuns(w: Writer, n: Byte)
    requires 1 in w.sessions && w.ctxs == map[] && w.selected == None && 0 < n
    ensures Run(w, Fill(n)) == w.(ctxs := map[HERE := Buffered(n)], selected := Some(HERE)) && NoOverflow(w, Fill(n))
  {
    var empty := Empty(0, MSG_DEF_SIZE);
    var w1 := w.(ctxs := map[HERE := Odid(map[], 0, empty, None)], selected := Some(HERE));
    var w2 := w.(ctxs := map[HERE := Odid(Known(n), 0, empty, None)], selected := Some(HERE));
    hide Step, Definition, Zeros, OneField;
    Selects(w);
    Defines(w1, n);
    Writes(w2, n);
    RunThree(w, Fill(n), w1, w2);
  }

  lemma RunThree(w: Writer, ops: seq<Op>, w1: Writer, w2: Writer)
    requires |ops| == 3 && Step(w, ops[0]).0 == w1 && Step(w1, ops[1]).0 == w2
    ensures Run(w, ops) == Step(w2, ops[2]).0
    ensures
      Step(w, ops[0]).1 != ErrInternal && Step(w1, ops[1]).1 != ErrInternal && Step(w2, ops[2]).1 != ErrInternal ==>
        NoOverflow(w, ops)
  {
    hide Step;
    var w3 := Step(w2, ops[2]).0;
    assert ops[1..][1..] == ops[2..] && ops[2..][1..] == [];
    assert Run(w3, []) == w3 && NoOverflow(w3, []);
    assert Run(w2, ops[2..]) == w3 && Run(w1, ops[1..]) == w3;
    assert NoOverflow(w2, ops[2..]) <==> Step(w2, ops[2]).1 != ErrInternal;
    assert NoOverflow(w1, ops[1..]) <==> Step(w1, ops[1]).1 != ErrInternal && NoOverflow(w2, ops[2..]);
  }

  // ----- what they leave on disk -----

  const TMPLTS_SIZE := 32

  function DataSize(n: Byte): nat { BDATA_HDR_LEN + MSG_HDR_LEN + SET_HDR_LEN + n }

  function TmpltsOf(n: Byte): Block { TmpltsB(1, 0, Known(n)) }

  function DataOf(off: nat, n: Byte): Block { DataB(1, 0, off, Filled(n), Known(n)) }

  lemma SortedOne(k: nat)
    ensures Sorted({k}) == [k]
  {
    var r := Sorted({k});
    assert k in r;
    forall i | 0 <= i < |r| ensures r[i] == k { assert r[i] in r; }
  }

  lemma KnownSeq(n: Byte)
    ensures TmpltSeq(Known(n)) == [OneField(n)]
  {
    SortedOne(256);
    assert Known(n).Keys == {256};
  }

  lemma Sizes(off: nat, n: Byte)
    ensures |EncBlock(Plain, TmpltsOf(n))| == TMPLTS_SIZE && |EncBlock(Plain, DataOf(off, n))| == DataSize(n)
  {
    hide Le16, Le32, Le64, Be16, Be32;
    KnownSeq(n);
    ConcatOne(EncTrec, OneField(n));
    ConcatOne(EncSet, DataSet(256, [Zeros(n)]));
    ConcatOne(EncMsg, Filled(n)[0]);
    assert [Zeros(n)][1..] == [] && Join([]) == [] && Zeros(n) + [] == Zeros(n);
  }

  /** The writer after one opening with one record. */
  function Grown(w: Writer, n: Byte): Writer
  {
    w.(blocks := w.blocks + [TmpltsOf(n)] + [DataOf(w.offset, n)], offset := w.offset + TMPLTS_SIZE + DataSize(n),
       table := w.table.(blocks := w.table.blocks + [DataEntry(w.offset + TMPLTS_SIZE, DataSize(n), w.offset, 0, 1)]),
       ctxs := map[], selected := None)
  }

  lemma Flushes(w: Writer, n: Byte)
    requires w.codec == Plain && |w.table.blocks| < MAX_BLOCKS && w.ctxs == map[HERE := Buffered(n)]
    ensures Reopen(Flush(w, HERE).0) == Grown(w, n) && Flush(w, HERE).1 == Ok
  {
    Sizes(w.offset, n);
    hide EncBlock;
    var w1 := FlushTmplts(w, HERE);
    assert w1.ctxs[HERE] == Buffered(n).(toff := w.offset);
    assert Put(w, TmpltsOf(n)).blocks == w.blocks + [TmpltsOf(n)];
  }

  lemma FlushesAll(w: Writer, n: Byte)
    requires w.ctxs == map[HERE := Buffered(n)] && Flush(w, HERE).1 == Ok
    ensures FlushAll(w) == Flush(w, HERE)
  {
    hide Flush, Sorted;
    SortedOne(CtxKey(HERE));
    var k := CtxKey(HERE);
    assert HERE in w.ctxs;
    assert CtxKeys(w) == {k};
    assert [k][1..] == [] && CtxOf(k) == HERE;
    assert FlushSeq(Flush(w, HERE).0, []) == Flush(w, HERE);
    assert FlushAll(w) == FlushSeq(w, [k]);
  }

  lemma RoundRuns(w: Writer, n: Byte)
    requires w.codec == Plain && |w.table.blocks| < MAX_BLOCKS
    requires 1 in w.sessions && w.ctxs == map[] && w.selected == None && 0 < n
    ensures Run(w, Round(n)) == Grown(w, n) && NoOverflow(w, Round(n))
  {
    hide Flush, FlushAll, Grown, Fill, Buffered;
    FillRuns(w, n);
    var v := Run(w, Fill(n));
    Flushes(v, n);
    FlushesAll(v, n);
    GrownSame(w, v, n);
    RunSplit(w, Fill(n), [OpReopen]);
    RunOne(v, OpReopen);
  }

  lemma RunOne(w: Writer, op: Op)
    ensures Run(w, [op]) == Step(w, op).0 && (NoOverflow(w, [op]) <==> Step(w, op).1 != ErrInternal)
  {
    hide Step;
    assert [op][1..] == [];
    assert Run(Step(w, op).0, []) == Step(w, op).0 && NoOverflow(Step(w, op).0, []);
  }

  lemma GrownSame(w: Writer, v: Writer, n: Byte)
    requires v == w.(ctxs := v.ctxs, selected := v.selected)
    ensures Grown(v, n) == Grown(w, n)
  {
  }

  /** A new file with one session. */
  const BEGINNING: seq<Op> := [OpSession(SOMEONE)]

  lemma Begins()
    ensures
      var w := Run(Create(Plain), BEGINNING);
      && NoOverflow(Create(Plain), BEGINNING) && w.codec == Plain && w.offset == FILE_HDR_LEN + SESSION_LEN
      && |w.table.sessions| == 1 && w.table.blocks == [] && 1 in w.sessions && w.ctxs == map[] && w.selected == None
      && |w.blocks| == 1
  {
    hide EncSession;
    RunOne(Create(Plain), OpSession(SOMEONE));
  }

  function Rounds(n: Byte, k: nat): seq<Op>
  {
    if k == 0 then [] else Rounds(n, k - 1) + Round(n)
  }

  /** After `k` openings: each has left a Template Block, a Data Block, and an entry of the Content Table. */
  lemma {:induction false} RoundsRun(n: Byte, k: nat)
    requires 0 < n && k <= MAX_BLOCKS
    ensures
      var w := Run(Create(Plain), BEGINNING + Rounds(n, k));
      && NoOverflow(Create(Plain), BEGINNING + Rounds(n, k)) && w.codec == Plain
      && 1 in w.sessions && w.ctxs == map[] && w.selected == None
      && w.offset == FILE_HDR_LEN + SESSION_LEN + k * (TMPLTS_SIZE + DataSize(n))
      && |w.table.sessions| == 1 && |w.table.blocks| == k && |w.blocks| == 1 + 2 * k
      && forall i :: 0 <= i < k ==>
        var off := FILE_HDR_LEN + SESSION_LEN + i * (TMPLTS_SIZE + DataSize(n));
        w.table.blocks[i] == DataEntry(off + TMPLTS_SIZE, DataSize(n), off, 0, 1)
  {
    hide Run, NoOverflow, Round;
    if k == 0 {
      assert BEGINNING + [] == BEGINNING;
      Begins();
    } else {
      RoundsRun(n, k - 1);
      var ops := BEGINNING + Rounds(n, k - 1);
      assert BEGINNING + Rounds(n, k) == ops + Round(n);
      RunSplit(Create(Plain), ops, Round(n));
      RoundRuns(Run(Create(Plain), ops), n);
      assert k * (TMPLTS_SIZE + DataSize(n)) == (k - 1) * (TMPLTS_SIZE + DataSize(n)) + (TMPLTS_SIZE + DataSize(n));
    }
  }

  // ----- a Data Block that is missed -----

  /** A complete file with one session and one record of one octet: its only Data Block has 49 octets, and the scan
      does not list it. */
  lemma ShortBlockIsMissed()
    ensures
      var w := Run(Create(Plain), BEGINNING + Rounds(1, 1));
      && NoOverflow(Create(Plain), BEGINNING + Rounds(1, 1)) && |w.table.blocks| == 1
      && ScanFile(FileHeader(ALG_NONE, 0) + Render(Plain, w.blocks)).Rebuilt?
      && ScanFile(FileHeader(ALG_NONE, 0) + Render(Plain, w.blocks)).table.blocks == []
  {
    hide Run, Inv, Render, EncBlock, FileHeader, ScanFile, NoOverflow, Rounds;
    var w := Run(Create(Plain), BEGINNING + Rounds(1, 1));
    RoundsRun(1, 1);
    LastOfRounds(1, 1);
    Reachable(BEGINNING + Rounds(1, 1));
    ShortLastIsMissed(w, FileHeader(ALG_NONE, 0));
  }

  lemma Reachable(ops: seq<Op>)
    ensures Inv(Run(Create(Plain), ops))
  {
    hide Inv, Run;
    CreateInv(Plain);
    RunInv(Create(Plain), ops);
  }

  lemma LastOfRounds(n: Byte, k: nat)
    requires 0 < n && 0 < k <= MAX_BLOCKS
    ensures
      var w := Run(Create(Plain), BEGINNING + Rounds(n, k - 1));
      var w' := Run(Create(Plain), BEGINNING + Rounds(n, k));
      && w'.blocks == w.blocks + [TmpltsOf(n)] + [DataOf(w.offset, n)]
      && |EncBlock(Plain, TmpltsOf(n))| == TMPLTS_SIZE && |EncBlock(Plain, DataOf(w.offset, n))| == DataSize(n)
  {
    hide Run, NoOverflow, Round, EncBlock;
    var ops := BEGINNING + Rounds(n, k - 1);
    assert BEGINNING + Rounds(n, k) == ops + Round(n);
    RunSplit(Create(Plain), ops, Round(n));
    RoundsRun(n, k - 1);
    RoundRuns(Run(Create(Plain), ops), n);
    Sizes(Run(Create(Plain), ops).offset, n);
  }

  // ----- an append that was lost -----

  /** The closed file of `w`, opened to append, with two new blocks over its Content Table. */
  function Lost(w: Writer, a: Block, b: Block): Octets
    requires w.offset == FILE_HDR_LEN + |Render(w.codec, w.blocks)|
  {
    var f0 := Splice(Image(w, []), 0, FileHeader(AlgOf(w.codec), 0));
    var f1 := Splice(f0, w.offset, EncBlock(w.codec, a));
    Splice(f1, w.offset + |EncBlock(w.codec, a)|, EncBlock(w.codec, b))
  }

  /** Header and blocks are in their places, and behind them is what is left of the table. */
  lemma LostParts(w: Writer, a: Block, b: Block, i: nat, j: nat)
    requires w.offset == FILE_HDR_LEN + |Render(w.codec, w.blocks)|
    requires |EncBlock(w.codec, a)| + |EncBlock(w.codec, b)| <= i <= j <= |EncTable(w.table)|
    ensures
      var file := Lost(w, a, b);
      && |file| == w.offset + |EncTable(w.table)|
      && FileWriter.OnDisk(file, w.codec, w.blocks + [a] + [b],
                           w.offset + |EncBlock(w.codec, a)| + |EncBlock(w.codec, b)|)
      && file[w.offset + i..w.offset + j] == EncTable(w.table)[i..j]
  {
    hide FileHeader, EncBlock, EncTable, FileWriter.OnDisk, Splice, Render;
    var cd, tab := w.codec, EncTable(w.table);
    var f := Image(w, []);
    var f0 := Splice(f, 0, FileHeader(AlgOf(cd), 0));
    var f1 := Splice(f0, w.offset, EncBlock(cd, a));
    FileWriter.BodyAt(FileHeader(AlgOf(cd), w.offset), Render(cd, w.blocks), tab + []);
    ImageParts(w, []);
    FileWriter.HeaderReplaced(f, cd, w.blocks);
    FileWriter.BlockAppended(f0, cd, w.blocks, w.offset, a);
    FileWriter.BlockAppended(f1, cd, w.blocks + [a], w.offset + |EncBlock(cd, a)|, b);
    SpliceKeeps(f, 0, FileHeader(AlgOf(cd), 0), w.offset + i, w.offset + j);
    SpliceKeeps(f0, w.offset, EncBlock(cd, a), w.offset + i, w.offset + j);
    SpliceKeeps(f1, w.offset + |EncBlock(cd, a)|, EncBlock(cd, b), w.offset + i, w.offset + j);
    TableSlice(FileHeader(AlgOf(cd), w.offset) + Render(cd, w.blocks), tab, i, j);
  }

  lemma TableSlice(front: Octets, tab: Octets, i: nat, j: nat)
    requires i <= j <= |tab|
    ensures (front + tab + [])[|front| + i..|front| + j] == tab[i..j]
  {
  }

  /** Where the second entry of a table with one session says that the Template Block lies below 2^32 and that the ODID
      is zero, eight octets are zero. */
  lemma SecondEntryIsZero(t: Table)
    requires |t.sessions| == 1 && 2 <= |t.blocks| && t.blocks[1].toff < 0x1_0000_0000 && t.blocks[1].odid == 0
    ensures |EncTable(t)| == 58 + DATA_REC_LEN * |t.blocks| && EncTable(t)[110..118] == seq(8, _ => 0)
  {
    hide EncTable, EncEntry;
    TableSizes(t);
    var entries := Concat(EncEntry, t.blocks);
    EntriesSplit(t.blocks);
    assert EncTable(t)[58..] == entries && entries[32..64] == EncEntry(t.blocks[1]);
    assert EncTable(t)[110..118] == EncTable(t)[58..][52..60] == entries[32..64][20..28];
    EntryIsZero(t.blocks[1]);
  }

  lemma EntryIsZero(e: DataEntry)
    requires e.toff < 0x1_0000_0000 && e.odid == 0
    ensures EncEntry(e)[20..28] == seq(8, _ => 0)
  {
    UpperIsZero(e.toff);
    assert Le32(0) == [0, 0, 0, 0];
    hide Le64, Le32;
    assert EncEntry(e)[20..28] == Le64(e.toff)[4..8] + Le32(0);
  }

  lemma UpperIsZero(n: nat)
    requires n < 0x1_0000_0000
    ensures Le64(n)[4..8] == [0, 0, 0, 0]
  {
  }

  lemma EntriesSplit(ds: seq<DataEntry>)
    requires |ds| >= 2
    ensures
      var c := Concat(EncEntry, ds);
      |c| == DATA_REC_LEN * |ds| && c[32..64] == EncEntry(ds[1])
  {
    hide EncEntry;
    BlockContent.SameSizes(EncEntry, DATA_REC_LEN, ds);
    assert ds[1..][0] == ds[1] && ds[1..][1..] == ds[2..];
    assert Concat(EncEntry, ds) == EncEntry(ds[0]) + Concat(EncEntry, ds[1..]);
    assert Concat(EncEntry, ds[1..]) == EncEntry(ds[1]) + Concat(EncEntry, ds[2..]);
  }

  lemma TableSizes(t: Table)
    requires |t.sessions| == 1 && t.blocks != []
    ensures 58 <= |EncTable(t)| && EncTable(t)[58..] == Concat(EncEntry, t.blocks)
  {
    hide BlockHeader, Le16, Le32, Le64, EncSess, EncEntry;
    SmallPopCounts();
    assert t.sessions == [t.sessions[0]];
    ConcatOne(EncSess, t.sessions[0]);
  }

  lemma ZeroLength(s: Octets)
    requires s == seq(8, _ => 0)
    ensures FromLe64(s) == 0
  {
  }

  /** One session, at least four Data Blocks, the second of them of ODID zero with a Template Block below 2^32: when
      the two blocks that were appended have 106 octets, the rest of the table begins at the sixteenth octet of that
      entry, where the place of the length holds zero. The file is refused, although all its blocks are whole. */
  lemma LostIsRefused(w: Writer, w': Writer, a: Block, b: Block)
    requires Inv(w) && Inv(w') && Small(w') && w'.codec == w.codec && w'.blocks == w.blocks + [a] + [b]
    requires |EncBlock(w.codec, a)| + |EncBlock(w.codec, b)| == 106
    requires |w.table.sessions| == 1 && 4 <= |w.table.blocks| <= MAX_BLOCKS
    requires w.table.blocks[1].toff < 0x1_0000_0000 && w.table.blocks[1].odid == 0
    ensures w.offset == FILE_HDR_LEN + |Render(w.codec, w.blocks)| && ScanFile(Lost(w, a, b)) == Damaged
  {
    hide Inv, Small, EncBlock, EncTable, Render, Lost, ScanFile, FileHeader, Index;
    OffsetOf(w);
    OffsetOf(w');
    var file := Lost(w, a, b);
    SecondEntryIsZero(w.table);
    LostParts(w, a, b, 110, 118);
    RenderTwice(w, a, b);
    LostStarts(file, w'.codec, w'.blocks, w'.offset);
    AllScanned(w', |file|);
    SmallOffset(w');
    ZeroLength(file[w.offset + 110..w.offset + 118]);
    RemnantDecides(w', file, FileHeader(AlgOf(w.codec), 0));
  }

  lemma RenderTwice(w: Writer, a: Block, b: Block)
    ensures |Render(w.codec, w.blocks + [a] + [b])| ==
      |Render(w.codec, w.blocks)| + |EncBlock(w.codec, a)| + |EncBlock(w.codec, b)|
  {
    hide EncBlock;
    RenderPush(w.codec, w.blocks, a);
    RenderPush(w.codec, w.blocks + [a], b);
  }

  lemma LostStarts(file: Octets, cd: Codec, bs: seq<Block>, off: nat)
    requires FileWriter.OnDisk(file, cd, bs, off)
    ensures Starts(file, FileHeader(AlgOf(cd), 0), Render(cd, bs), off)
  {
    hide FileHeader, Render;
    var hdr, body := FileHeader(AlgOf(cd), 0), Render(cd, bs);
    assert file[..off] == file[0..FILE_HDR_LEN] + file[FILE_HDR_LEN..off];
    assert (hdr + body)[..off] == hdr + body;
  }

  lemma AllScanned(w: Writer, n: nat)
    requires Inv(w) && w.offset + PROBE <= n
    ensures Scanned(w.codec, w.blocks, n, 0) == |w.blocks| && ProbesFit(w.codec, w.blocks, n)
  {
    hide Inv, Start, Scanned;
    var r := Scanned(w.codec, w.blocks, n, 0);
    ScannedIs(w.codec, w.blocks, n, 0);
    forall k: nat | k < |w.blocks| ensures Start(w.codec, w.blocks, k) + PROBE <= n { StartsRise(w, k, |w.blocks|); }
    if r < |w.blocks| { StartsRise(w, r + 1, |w.blocks|); }
  }

  /** A file with one session and four records of 26 octets, each written after opening the file again, and a fifth
      such opening that was lost before the Content Table was written. */
  lemma LostFileIsRefused()
    ensures
      var w := Run(Create(Plain), BEGINNING + Rounds(26, 4));
      var w' := Run(Create(Plain), BEGINNING + Rounds(26, 5));
      && NoOverflow(Create(Plain), BEGINNING + Rounds(26, 5)) && w.offset == FILE_HDR_LEN + |Render(w.codec, w.blocks)|
      && w'.blocks == w.blocks + [TmpltsOf(26)] + [DataOf(w.offset, 26)]
      && ScanFile(Lost(w, TmpltsOf(26), DataOf(w.offset, 26))) == Damaged
  {
    hide Run, Inv, Render, EncBlock, ScanFile, NoOverflow, Rounds, Lost;
    RoundsRun(26, 4);
    RoundsRun(26, 5);
    LastOfRounds(26, 5);
    Reachable(BEGINNING + Rounds(26, 4));
    Reachable(BEGINNING + Rounds(26, 5));
    var w := Run(Create(Plain), BEGINNING + Rounds(26, 4));
    var w' := Run(Create(Plain), BEGINNING + Rounds(26, 5));
    LostIsRefused(w, w', TmpltsOf(26), DataOf(w.offset, 26));
  }

  // ----- a file that ends in a header -----

  lemma FirstThree(w: Writer, w': Writer, a: Block, b: Block)
    requires Inv(w) && w'.codec == w.codec && w'.blocks == w.blocks + [a] + [b]
    ensures Start(w.codec, w'.blocks, |w.blocks|) == w.offset
  {
    hide EncBlock, Render;
    OffsetOf(w);
    assert w'.blocks[..|w.blocks|] == w.blocks;
  }

  /** Two records in two openings, and the file cut five octets behind the first Data Block: the reader opens it and
      lists that block, which cannot be read. */
  lemma TornFileFails()
    ensures
      var w := Run(Create(Plain), BEGINNING + Rounds(26, 2));
      && NoOverflow(Create(Plain), BEGINNING + Rounds(26, 2)) && 351 <= FILE_HDR_LEN + |Render(w.codec, w.blocks)|
      && var t := TableOf(CutFile(w, 351));
      && t.Some? && |t.value.blocks| == 1 && ReadEntries(Plain, CutFile(w, 351), t.value, t.value.blocks).None?
  {
    hide Run, Inv, Render, EncBlock, ScanFile, NoOverflow, Rounds, TableOf, ReadEntries, CutFile, Index, Start;
    var w := Run(Create(Plain), BEGINNING + Rounds(26, 1));
    var w' := Run(Create(Plain), BEGINNING + Rounds(26, 2));
    RoundsRun(26, 1);
    RoundsRun(26, 2);
    LastOfRounds(26, 1);
    LastOfRounds(26, 2);
    Reachable(BEGINNING + Rounds(26, 1));
    Reachable(BEGINNING + Rounds(26, 2));
    FirstThree(w, w', TmpltsOf(26), DataOf(w.offset, 26));
    var bs := w'.blocks;
    assert bs[2] == w.blocks[2] && bs[..3] == w.blocks;
    StartStep(Plain, bs, 2);
    var first := Run(Create(Plain), BEGINNING + Rounds(26, 0));
    RoundsRun(26, 0);
    Reachable(BEGINNING + Rounds(26, 0));
    StartIs(Plain, bs, 1);
    OffsetOf(first);
    assert bs[..1] == first.blocks;
    NoStart(Plain, bs);
    ThreeScanned(bs, 351);
    RoundsSmall(26, 2);
    TableOfAll(w);
    RecoversExactly(Plain, BEGINNING + Rounds(26, 2), 351, HERE);
  }

  lemma ThreeScanned(bs: seq<Block>, n: nat)
    requires |bs| == 5 && Start(Plain, bs, 0) + PROBE <= Start(Plain, bs, 1) <= n
    requires Start(Plain, bs, 1) + PROBE <= n && Start(Plain, bs, 2) + PROBE <= Start(Plain, bs, 3) <= n
    requires n < Start(Plain, bs, 3) + PROBE
    ensures Scanned(Plain, bs, n, 0) == 3
  {
    hide Start;
    ScannedIs(Plain, bs, n, 0);
    var r := Scanned(Plain, bs, n, 0);
    assert !Cut(Plain, bs, n, 0) && !Cut(Plain, bs, n, 1) && !Cut(Plain, bs, n, 2) && Cut(Plain, bs, n, 3);
  }

  lemma {:induction false} RoundsSmall(n: Byte, k: nat)
    ensures SmallRaws(BEGINNING + Rounds(n, k))
  {
    if k > 0 {
      RoundsSmall(n, k - 1);
      assert BEGINNING + Rounds(n, k) == (BEGINNING + Rounds(n, k - 1)) + Round(n);
      forall i | 0 <= i < 4 && Round(n)[i].OpTmplt? ensures |Round(n)[i].raw| <= MAX_RAW {}
    }
  }
}
