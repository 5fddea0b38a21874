/** A whole run through the classes: a writer performs any calls, closes its file, and a reader reads its octets. */
module WholeRun {
  import opened Bytes
  import opened Status
  import opened Blocks
  import opened DataBlock
  import opened ContentTable
  import opened Writer
  import opened WriterProofs
  import opened WriterRuns
  import opened WriterHistory
  import opened Reference
  import opened FileImage
  import opened EndToEnd
  import opened Reopening
  import opened Layout
  import Rebuild
  import Statistics
  import opened FileWriter
  import opened FileReader
  import opened Reading
  import opened Recovery

  // ----- parts of a run -----

  /** The calls before number `i`, that call, and those behind it. */
  lemma RunAt(w: Writer, ops: seq<Op>, i: nat)
    requires i < |ops| && NoOverflow(w, ops)
    ensures
      var w1 := Run(w, ops[..i]);
      && Step(w1, ops[i]).1 != ErrInternal && Run(w, ops[..i + 1]) == Step(w1, ops[i]).0
      && Run(w, ops) == Run(Step(w1, ops[i]).0, ops[i + 1..])
  {
    hide Step;
    assert ops == ops[..i] + ops[i..] && ops[..i + 1] == ops[..i] + [ops[i]];
    assert ops[i..][0] == ops[i] && ops[i..][1..] == ops[i + 1..];
    assert [ops[i]][0] == ops[i] && [ops[i]][1..] == [];
    RunSplit(w, ops[..i], ops[i..]);
    RunSplit(w, ops[..i], [ops[i]]);
  }

  /** Fewer blocks take up less of the file. */
  lemma OffsetGrows(w: Writer, w': Writer)
    requires Inv(w) && Inv(w') && w.codec == w'.codec && w.blocks <= w'.blocks
    ensures w.offset <= w'.offset
  {
    hide Inv, EncBlock;
    OffsetOf(w);
    OffsetOf(w');
    hide Render;
    RenderGrows(w.codec, w.blocks, w'.blocks);
  }

  lemma RenderGrows(cd: Codec, bs: seq<Block>, bs': seq<Block>)
    requires bs <= bs'
    ensures |Render(cd, bs)| <= |Render(cd, bs')|
  {
    hide EncBlock;
    assert bs' == bs + bs'[|bs|..];
    ConcatAppend((b: Block) => EncBlock(cd, b), bs, bs'[|bs|..]);
  }

  /** What the calls before number `i` leave behind. */
  lemma PrefixKeeps(cd: Codec, ops: seq<Op>, i: nat)
    requires CodecOk(cd) && SmallRaws(ops) && i <= |ops|
    ensures
      var w := FlushAll(Run(Create(cd), ops[..i])).0;
      Inv(w) && RawInv(w) && w.codec == cd
  {
    hide Inv, FlushAll, RawInv, Run;
    var w0 := Create(cd);
    CreateInv(cd);
    RunInv(w0, ops[..i]);
    FlushAllKeeps(Run(w0, ops[..i]));
    NewRaw(cd);
    RunRaw(w0, ops[..i]);
    FlushAllRaw(Run(w0, ops[..i]));
    RunCodec(w0, ops[..i]);
    FlushSeqCodecOf(Run(w0, ops[..i]));
  }

  /** The blocks of a file that is closed in between are still there at the end. */
  lemma RoundGrows(w0: Writer, ops: seq<Op>, i: nat)
    requires i < |ops| && ops[i].OpReopen? && NoOverflow(w0, ops)
    ensures FlushAll(Run(w0, ops[..i])).1 != ErrInternal
    ensures FlushAll(Run(w0, ops[..i])).0.blocks <= FlushAll(Run(w0, ops)).0.blocks
  {
    hide FlushAll, Run;
    RunAt(w0, ops, i);
    RunGrows(Reopen(FlushAll(Run(w0, ops[..i])).0), ops[i + 1..]);
    FlushAllGrows(Run(w0, ops));
  }

  /** Wherever a run closes its file to go on with it, the file is within the limits of the format. */
  lemma RoundFits(cd: Codec, ops: seq<Op>, i: nat)
    requires Completes(cd, ops) && i < |ops| && ops[i].OpReopen?
    ensures
      var (w, st) := FlushAll(Run(Create(cd), ops[..i]));
      st == Ok && Inv(w) && Fits(w) && w.codec == cd
  {
    hide Inv, FlushAll, RawInv, Run, NoOverflow, SmallRaws, CodecOk;
    PrefixKeeps(cd, ops, i);
    PrefixKeeps(cd, ops, |ops|);
    assert ops[..|ops|] == ops;
    RoundGrows(Create(cd), ops, i);
    FlushedOk(cd, ops[..i]);
    OffsetGrows(FlushAll(Run(Create(cd), ops[..i])).0, FlushAll(Run(Create(cd), ops)).0);
    RawFits(FlushAll(Run(Create(cd), ops[..i])).0);
  }

  lemma FlushedOk(cd: Codec, ops: seq<Op>)
    requires CodecOk(cd)
    ensures FlushAll(Run(Create(cd), ops)).1 == Ok || FlushAll(Run(Create(cd), ops)).1 == ErrInternal
  {
    hide Inv, FlushAll, Run;
    CreateInv(cd);
    RunInv(Create(cd), ops);
    FlushAllKeeps(Run(Create(cd), ops));
  }

  lemma NewRaw(cd: Codec)
    ensures RawInv(Create(cd))
  {
  }

  lemma FlushSeqCodecOf(w: Writer)
    ensures FlushAll(w).0.codec == w.codec
  {
    FlushSeqCodec(w, Sorted(CtxKeys(w)));
  }

  lemma FlushAllGrows(w: Writer)
    ensures w.blocks <= FlushAll(w).0.blocks
  {
    FlushSeqGrows(w, Sorted(CtxKeys(w)));
  }

  // ----- the run -----

  method Select(w: FileWriter, sid: U16, odid: U32, etime: U32) returns (st: Status)
    requires w.Valid()
    modifies w.Footprint()
    ensures w.Valid() && (w.State(), st) == SelectCtx(old(w.State()), sid, odid, etime) && unchanged(w.stats)
    ensures forall o :: o in w.Footprint() ==> o in old(w.Footprint()) || fresh(o)
  {
    hide FileWriter.Valid, SelectCtx, FileWriter.Grew;
    st := w.SelectCtx(sid, odid, etime);
    w.GrewFresh(Ctx(sid, odid));
  }

  /** What one call adds to the statistics. */
  ghost function Tallied(w: Writer, op: Op): seq<Statistics.Fact>
  {
    match op
    case OpRec(tid, data) => Tally(w, tid, data)
    case _ => []
  }

  /** What the statistics have counted after these calls: the records accepted since the file was opened. */
  ghost function TalliedAll(w: Writer, ops: seq<Op>): seq<Statistics.Fact>
    decreases |ops|
  {
    if ops == [] then []
    else
      var before := ops[..|ops| - 1];
      if Last(ops).OpReopen? then [] else TalliedAll(w, before) + Tallied(Run(w, before), Last(ops))
  }

  lemma TalliedStep(w: Writer, ops: seq<Op>, i: nat)
    requires i < |ops|
    ensures TalliedAll(w, ops[..i + 1]) ==
      if ops[i].OpReopen? then [] else TalliedAll(w, ops[..i]) + Tallied(Run(w, ops[..i]), ops[i])
  {
    hide Tallied, Run;
    assert ops[..i + 1][..i] == ops[..i];
  }

  /** One call of the public interface. */
  method Perform(w: FileWriter, op: Op) returns (st: Status)
    requires w.Valid() && w.stats.Valid() && !op.OpReopen?
    modifies w.Footprint()
    ensures w.Valid() && (w.State(), st) == Step(old(w.State()), op)
    ensures w.stats.Valid() && w.stats.facts == old(w.stats.facts) + Tallied(old(w.State()), op)
    ensures forall o :: o in w.Footprint() ==> o in old(w.Footprint()) || fresh(o)
  {
    hide FileWriter.Valid, FileWriter.Footprint, SessionAdd, SelectCtx, TmpltAdd, TmpltRemove, WriteRec;
    hide Statistics.FileStats.Valid, Tally;
    w.OwnsSelected();
    match op
    case OpSession(s) =>
      var sid;
      st, sid := w.SessionAdd(s);
    case OpSelect(sid, odid, etime) => st := Select(w, sid, odid, etime);
    case OpTmplt(ttype, raw) => st := w.TmpltAdd(ttype, raw);
    case OpRemove(tid) => st := w.TmpltRemove(tid);
    case OpRec(tid, data) => st := w.WriteRec(tid, data);
  }

  /** Close the file and go on with a writer that appends to it. */
  method Round(env: Env, alg: Byte, w: FileWriter) returns (w': FileWriter)
    requires EnvOk(env) && alg <= ALG_ZSTD && w.Valid()
    requires var (v, st) := FlushAll(w.State()); st == Ok && Inv(v) && Fits(v) && v.codec == CodecFor(env, alg)
    modifies w.Footprint()
    ensures fresh(w'.Footprint()) && w'.Valid() && (w'.State(), Ok) == Step(old(w.State()), OpReopen)
    ensures w'.stats.Valid() && w'.stats.facts == []
  {
    hide FileWriter.Valid, FileWriter.Footprint, Inv, Fits, EnvOk, CodecFor, FlushAll, Image, Reopen;
    var st;
    ghost var rest;
    st, rest := w.Close();
    var appender: FileWriter?;
    appender, st := AppendToClosed(env, alg, w.file, w.State(), rest);
    w' := appender;
  }

  /** All calls in turn, on a new file; a re-open closes the file and appends to it. */
  method PerformAll(env: Env, alg: Byte, ops: seq<Op>) returns (w: FileWriter, sts: seq<Status>)
    requires EnvOk(env) && alg <= ALG_ZSTD && Completes(CodecFor(env, alg), ops)
    ensures fresh(w.Footprint()) && w.Valid() && w.State() == Run(Create(CodecFor(env, alg)), ops)
    ensures sts == Outcomes(NEW_CLIENT, ops)
    ensures w.stats.Valid() && w.stats.facts == TalliedAll(Create(CodecFor(env, alg)), ops)
  {
    hide Tallied, TalliedAll, Statistics.FileStats.Valid, FileWriter.State, Reopen, Render, AlgOf;
    hide FileWriter.Valid, FileWriter.Footprint, Inv, Fits, Run, Step, Completes, Outcomes, EnvOk, CodecFor;
    hide FlushAll, NoOverflow, Create;
    ghost var w0 := Create(CodecFor(env, alg));
    w := NewWriter(CodecFor(env, alg));
    RunNothing(w0);
    assert ops[..0] == [];
    sts := [];
    var i := 0;
    while i < |ops|
      invariant 0 <= i <= |ops| && w.Valid() && fresh(w.Footprint())
      invariant w.State() == Run(w0, ops[..i]) && sts == Outcomes(NEW_CLIENT, ops)[..i]
      invariant w.stats.Valid() && w.stats.facts == TalliedAll(w0, ops[..i])
    {
      TalliedStep(w0, ops, i);
      CompletesSteps(CodecFor(env, alg), ops, i);
      var st := Ok;
      if ops[i].OpReopen? {
        RoundFits(CodecFor(env, alg), ops, i);
        w := Round(env, alg, w);
      } else {
        st := Perform(w, ops[i]);
      }
      sts := sts + [st];
      i := i + 1;
    }
    assert ops[..i] == ops;
  }

  method NewWriter(cd: Codec) returns (w: FileWriter)
    ensures fresh(w.Footprint()) && w.Valid() && w.State() == Create(cd)
    ensures w.stats.Valid() && w.stats.facts == []
  {
    hide FileWriter.Valid, Create;
    w := new FileWriter(cd);
  }

  lemma RunNothing(w: Writer)
    ensures Run(w, []) == w && TalliedAll(w, []) == []
  {
  }

  lemma CompletesSteps(cd: Codec, ops: seq<Op>, i: nat)
    requires Completes(cd, ops) && i < |ops|
    ensures Run(Create(cd), ops[..i + 1]) == Step(Run(Create(cd), ops[..i]), ops[i]).0
    ensures Step(Run(Create(cd), ops[..i]), ops[i]).1 == Outcomes(NEW_CLIENT, ops)[i]
  {
    hide Step, Run, Inv, Looks, Outcomes;
    RunAt(Create(cd), ops, i);
    CreateInv(cd);
    NewLooks(cd);
    OutcomeAt(Create(cd), NEW_CLIENT, ops, i);
  }

  /** Whatever calls a client makes on a new file, redefinitions, removals, context switches, flushes and
      re-opens included: each call ends as the client expects, and from the octets of the closed file the reader
      returns, for each Session and ODID it is asked for, exactly the records that the calls alone say are written,
      in the order of the calls, each with its octets, its Export Time and the template in force when it was
      written. */
  method WriteAndRead(env: Env, alg: Byte, ops: seq<Op>, sid: Option<U16>, odid: Option<U32>)
    returns (sts: seq<Status>, known: bool, outs: seq<Out>)
    requires EnvOk(env) && alg <= ALG_ZSTD && Completes(CodecFor(env, alg), ops)
    ensures sts == Outcomes(NEW_CLIENT, ops)
    ensures known <==> sid.None? || 1 <= sid.value <= |ExpectAll(NEW_CLIENT, ops).sessions|
    ensures known ==> forall c: Ctx ::
      (Project(outs, c) ==
       if (sid.None? || sid == Some(c.sid)) && (odid.None? || odid == Some(c.odid)) then Log(NEW_CLIENT, ops, c)
       else [])
  {
    hide FileWriter.Valid, FileReader.Valid, FileReader.Left, Inv, Run, Completes, EnvOk, CodecFor, FlushAll;
    hide Create, Closed, FileWriter.State, FileWriter.Footprint, Outcomes, Rebuild.ScanFile, TableOf, FindSession;
    hide OutsFrom, AllOpen, Image, Project, Log, ExpectAll, LoadTable, LoadHeader;
    ghost var cd := CodecFor(env, alg);
    var w;
    w, sts := PerformAll(env, alg, ops);
    var st;
    ghost var rest;
    st, rest := w.Close();
    ClosedOpens(env, alg, ops, rest);
    var r := Open(env, w.file);
    st := r.SfilterConf(sid, odid);
    known := st == Ok;
    outs := [];
    if known {
      WrittenReadBack(cd, ops, rest, r.filter);
      outs := ReadAll(r);
    }
  }

  /** Whatever calls a client makes, and wherever the file ends when it is lost before it is closed: a reader object
      returns, for each Session and ODID, the records of the blocks that the scan passes over, which are the beginning
      of the log. The last of them must not be a Data Block that is followed by part of a header. */
  method LoseAndRead(env: Env, alg: Byte, ops: seq<Op>, n: nat) returns (outs: seq<Out>)
    requires EnvOk(env) && alg <= ALG_ZSTD && Completes(CodecFor(env, alg), ops)
    requires
      var w := Run(Create(CodecFor(env, alg)), ops);
      && FILE_HDR_LEN <= n <= w.offset
      && !Torn(w.codec, w.blocks, n, Rebuild.Scanned(w.codec, w.blocks, n, 0))
    ensures
      var w := Run(Create(CodecFor(env, alg)), ops);
      forall c: Ctx ::
        && Project(outs, c) == DiskRecs(w.blocks[..Rebuild.Scanned(w.codec, w.blocks, n, 0)], c)
        && Project(outs, c) <= Log(NEW_CLIENT, ops, c)
  {
    hide FileWriter.Valid, FileReader.Valid, FileReader.Left, Run, Completes, EnvOk, CodecFor, FlushAll, Create;
    hide OutsFrom, AllOpen, Project, Log, DiskRecs, TableOf, LoadHeader, CutFile, Torn, ReadEntries, Rebuild.Scanned;
    ghost var cd := CodecFor(env, alg);
    var w, sts := PerformAll(env, alg, ops);
    ghost var v := w.State();
    InsideLimits(env, alg, ops);
    WrittenPart(w, n);
    ghost var t := Index(cd, v.blocks[..Rebuild.Scanned(cd, v.blocks, n, 0)]);
    forall c: Ctx
      ensures
        && v.codec == cd && TableOf(CutFile(v, n)) == Some(t)
        && ReadEntries(cd, CutFile(v, n), t, t.blocks).Some?
        && var recs := Project(ReadEntries(cd, CutFile(v, n), t, t.blocks).value, c);
        recs == DiskRecs(v.blocks[..Rebuild.Scanned(cd, v.blocks, n, 0)], c) && recs <= Log(NEW_CLIENT, ops, c)
    {
      RecoversExactly(cd, ops, n, c);
    }
    RecoversExactly(cd, ops, n, Ctx(0, 0));
    CutHeader(v, n);
    var r := Open(env, w.file[..n]);
    AlgRoundTrip(env, alg);
    ReadableReadBack(cd, w.file[..n], t, NO_FILTER);
    outs := ReadAll(r);
  }

  /** The file of an open writer starts with an empty header and its blocks. */
  lemma WrittenPart(w: FileWriter, n: nat)
    requires w.Valid() && n <= w.State().offset
    ensures n <= |w.file| && n <= FILE_HDR_LEN + |Render(w.codec, w.blocks)| && w.file[..n] == CutFile(w.State(), n)
  {
    hide FileWriter.InfosOk, FileWriter.Separate, FileHeader, Render;
    var hdr, body := FileHeader(AlgOf(w.codec), 0), Render(w.codec, w.blocks);
    assert w.file[..w.offset] == w.file[0..FILE_HDR_LEN] + w.file[FILE_HDR_LEN..w.offset];
    assert w.file[..n] == w.file[..w.offset][..n];
  }

  lemma InsideLimits(env: Env, alg: Byte, ops: seq<Op>)
    requires EnvOk(env) && alg <= ALG_ZSTD && Completes(CodecFor(env, alg), ops)
    ensures
      var cd := CodecFor(env, alg);
      var w := Run(Create(cd), ops);
      && CodecOk(cd) && w.codec == cd && NoOverflow(Create(cd), ops) && SmallRaws(ops)
      && w.offset < 0x8000_0000_0000_0000
  {
    hide Run, FlushAll, EnvOk, CodecFor, NoOverflow, SmallRaws, CodecOk, Inv;
    var cd := CodecFor(env, alg);
    var w := Run(Create(cd), ops);
    CreateInv(cd);
    RunInv(Create(cd), ops);
    RunCodec(Create(cd), ops);
    FlushAllKeeps(w);
    FlushSeqCodecOf(w);
    FlushAllGrows(w);
    OffsetGrows(w, FlushAll(w).0);
  }

  /** A closed file is opened with the codec and the table of its writer, and all its sessions are found. */
  lemma ClosedOpens(env: Env, alg: Byte, ops: seq<Op>, rest: Octets)
    requires EnvOk(env) && alg <= ALG_ZSTD && Completes(CodecFor(env, alg), ops)
    ensures
      var cd := CodecFor(env, alg);
      var w := Closed(cd, ops);
      && FlushAll(Run(Create(cd), ops)) == (w, Ok)
      && TableOf(Image(w, rest)) == Some(w.table) && LoadHeader(Image(w, rest)).Some?
      && CodecFor(env, LoadHeader(Image(w, rest)).value.alg) == cd
      && forall sid: U16 ::
        FindSession(Image(w, rest), w.table.sessions, sid).Some? <==> 1 <= sid <= |ExpectAll(NEW_CLIENT, ops).sessions|
  {
    hide Inv, Fits, Run, EnvOk, CodecFor, FlushAll, Create, Image, LoadTable, LoadHeader, FindSession, DiskRecs;
    hide History, Log, ExpectAll, NoOverflow, Looks, Rebuild.ScanFile;
    var cd := CodecFor(env, alg);
    var w := Closed(cd, ops);
    ClosedFits(cd, ops);
    SameCodec(cd, ops);
    OffsetOf(w);
    OpensClosed(env, alg, w, rest);
    FlushAllSessions(Run(Create(cd), ops));
    CreateInv(cd);
    NewLooks(cd);
    HistoryIsLog(Create(cd), NEW_CLIENT, ops, Ctx(0, 0));
    RunInv(Create(cd), ops);
    Facts(Run(Create(cd), ops), ExpectAll(NEW_CLIENT, ops));
    forall sid: U16 ensures FindSession(Image(w, rest), w.table.sessions, sid).Some? <==> sid as nat in w.sessions {
      SessionFound(w, rest, sid);
    }
  }

  lemma SessionFound(w: Writer, rest: Octets, sid: U16)
    requires Inv(w)
    ensures FindSession(Image(w, rest), w.table.sessions, sid).Some? <==> sid as nat in w.sessions
  {
    var file := Image(w, rest);
    if sid as nat in w.sessions {
      ImageParts(w, rest);
      hide Inv, FindSession;
      SessionLoads(w, FileHeader(AlgOf(w.codec), w.offset), EncTable(w.table) + rest, sid);
    } else if FindSession(file, w.table.sessions, sid).Some? {
      hide Inv;
      var k := ListedSession(file, w.table.sessions, sid);
      ListedIsKnown(w, k);
    }
  }

  lemma ListedIsKnown(w: Writer, k: nat)
    requires Inv(w) && k < |w.table.sessions|
    ensures w.table.sessions[k].sid as nat in w.sessions
  {
    hide LoadSession, Render, BlocksOk, OdidsOk, Index;
    assert k + 1 in w.sessions;
    assert w.table.sessions[(k + 1) - 1] == SessEntry(w.sessions[k + 1].off, SESSION_LEN, k + 1);
  }

  lemma {:induction false} ListedSession(file: Octets, list: seq<SessEntry>, sid: U16) returns (k: nat)
    requires FindSession(file, list, sid).Some?
    ensures k < |list| && list[k].sid == sid
  {
    if list[0].sid == sid {
      k := 0;
    } else {
      k := ListedSession(file, list[1..], sid);
      k := k + 1;
    }
  }

  lemma FlushAllSessions(w: Writer)
    ensures FlushAll(w).0.sessions == w.sessions
  {
    FlushSeqSessions(w, Sorted(CtxKeys(w)));
  }
}
