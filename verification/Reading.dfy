/** Whole reads of a closed file, filtered or not, through the reader's own operations. */
module Reading {
  import opened Bytes
  import opened Templates
  import opened Messages
  import opened Status
  import opened Blocks
  import opened DataBlock
  import opened ContentTable
  import opened Writer
  import opened Reference
  import opened FileImage
  import opened EndToEnd
  import opened BlockContent
  import opened BlockDataReader
  import opened FileReader
  import opened Rebuild

  /** A filter selects whole contexts: each accepted one keeps all its records in order, the others vanish. */
  lemma {:induction false} FilterSelects(cd: Codec, file: Octets, t: Table, f: Filter, es: seq<DataEntry>, c: Ctx)
    requires ReadEntries(cd, file, t, es).Some?
    ensures
      var r := ReadEntries(cd, file, t, Accepted(f, es));
      && r.Some?
      && Project(r.value, c) == if Matches(f, c.sid, c.odid) then Project(ReadEntries(cd, file, t, es).value, c) else []
  {
    hide EntryRecs, Tagged, Matches;
    if es != [] {
      FilterSelects(cd, file, t, f, es[1..], c);
      var d, recs := Ctx(es[0].sid, es[0].odid), EntryRecs(cd, file, t, es[0]).value;
      var all := ReadEntries(cd, file, t, es[1..]).value;
      var some := ReadEntries(cd, file, t, Accepted(f, es[1..])).value;
      ProjectTagged(d, recs, c);
      ConcatAppend((o: Out) => OfCtx(o, c), Tagged(d, recs), all);
      if Matches(f, es[0].sid, es[0].odid) {
        assert Accepted(f, es)[1..] == Accepted(f, es[1..]);
        ConcatAppend((o: Out) => OfCtx(o, c), Tagged(d, recs), some);
      } else {
        assert Accepted(f, es) == Accepted(f, es[1..]);
      }
    }
  }

  lemma {:induction false} EachEntryOpens(cd: Codec, file: Octets, t: Table, es: seq<DataEntry>, k: nat)
    requires ReadEntries(cd, file, t, es).Some? && k < |es|
    ensures Opens(cd, file, t, es[k])
    decreases |es|
  {
    hide OpenEntry, MsgsOf, Tagged;
    if k > 0 {
      EachEntryOpens(cd, file, t, es[1..], k - 1);
    }
  }

  /** Where all listed blocks can be read, a reader delivers, without any error and each once, the records of the
      accepted contexts. */
  lemma ReadableReadBack(cd: Codec, file: Octets, t: Table, f: Filter)
    requires ReadEntries(cd, file, t, t.blocks).Some?
    ensures
      var outs := OutsFrom(cd, file, t, f, 0);
      && AllOpen(cd, file, t, f) && outs.end == Eoc
      && (forall c: Ctx ::
            Project(outs.recs, c) ==
              if Matches(f, c.sid, c.odid) then Project(ReadEntries(cd, file, t, t.blocks).value, c) else [])
  {
    hide ReadEntries, OutsOf, Opens, Project, Accepted;
    var es := t.blocks;
    FilterSelects(cd, file, t, f, es, Ctx(0, 0));
    OutsOfReadable(cd, file, t, f, es);
    assert es[0..] == es;
    forall k | 0 <= k < |es| ensures Opens(cd, file, t, es[k]) { EachEntryOpens(cd, file, t, es, k); }
    forall c: Ctx
      ensures Project(OutsFrom(cd, file, t, f, 0).recs, c) ==
        if Matches(f, c.sid, c.odid) then Project(ReadEntries(cd, file, t, es).value, c) else []
    {
      FilterSelects(cd, file, t, f, es, c);
    }
  }

  /** The first accepted block that cannot be read to its end stops the reading with an error, behind all records of the
      accepted blocks before it and those in front of what is malformed in it; other blocks do not matter. */
  lemma {:induction false} BadBlockStops(cd: Codec, file: Octets, t: Table, f: Filter, good: seq<DataEntry>,
        bad: DataEntry, rest: seq<DataEntry>)
    requires ReadEntries(cd, file, t, Accepted(f, good)).Some?
    requires Matches(f, bad.sid, bad.odid) && EntryRecs(cd, file, t, bad).None?
    ensures
      var before := ReadEntries(cd, file, t, Accepted(f, good)).value;
      var r := OutsOf(cd, file, t, f, good + [bad] + rest);
      match OpenEntry(cd, file, t, bad)
      case None => r == Outs(before, Bad)
      case Some(p) =>
        var s := MsgsOf(p.0, p.1);
        s.end != Eoc && r == Outs(before + Tagged(Ctx(bad.sid, bad.odid), s.recs), s.end)
  {
    hide OpenEntry, MsgsOf, Matches, Tagged;
    var es := good + [bad] + rest;
    if good == [] {
      assert es[0] == bad;
      assert forall x: seq<Out> :: [] + x == x;
    } else {
      assert es[0] == good[0] && es[1..] == good[1..] + [bad] + rest;
      if Matches(f, good[0].sid, good[0].odid) {
        assert Accepted(f, good)[1..] == Accepted(f, good[1..]);
        var first := Tagged(Ctx(good[0].sid, good[0].odid), EntryRecs(cd, file, t, good[0]).value);
        var before := ReadEntries(cd, file, t, Accepted(f, good[1..])).value;
        assert forall x: seq<Out> :: first + (before + x) == first + before + x;
      } else {
        assert Accepted(f, good) == Accepted(f, good[1..]);
      }
      BadBlockStops(cd, file, t, f, good[1..], bad, rest);
    }
  }

  /** From a rewind on, a reader of a written file with any filter delivers, without any error and each once,
      the records of the accepted contexts, exactly those that the calls say are written. */
  lemma WrittenReadBack(cd: Codec, ops: seq<Op>, rest: Octets, f: Filter)
    requires Completes(cd, ops)
    ensures
      var w := Closed(cd, ops);
      var outs := OutsFrom(cd, Image(w, rest), w.table, f, 0);
      && AllOpen(cd, Image(w, rest), w.table, f) && outs.end == Eoc
      && forall c: Ctx :: Project(outs.recs, c) == if Matches(f, c.sid, c.odid) then Log(NEW_CLIENT, ops, c) else []
  {
    hide Completes, Closed, Image, ReadEntries, OutsFrom, AllOpen, Log, Project, Matches;
    var w := Closed(cd, ops);
    ReadsWhatWasWritten(cd, ops, rest, Ctx(0, 0));
    ReadableReadBack(cd, Image(w, rest), w.table, f);
    forall c: Ctx
      ensures Project(OutsFrom(cd, Image(w, rest), w.table, f, 0).recs, c) ==
        if Matches(f, c.sid, c.odid) then Log(NEW_CLIENT, ops, c) else []
    {
      ReadsWhatWasWritten(cd, ops, rest, c);
    }
  }

  lemma FollowOne(out: Out, left: Outs)
    ensures Follow(Outs([out], Eoc), left) == Outs([out] + left.recs, left.end)
  {
  }

  /** A client that reads until the end of the file gets the remaining records and then the end, again and again. */
  method ReadAll(r: FileReader) returns (outs: seq<Out>)
    requires r.Valid() && r.Left().end == Eoc && AllOpen(r.codec, r.file, r.table, r.filter)
    modifies r`idles, r`current, r`next, r`nextIdx, r`tmplts, r`sessions, r.first, r.second
    ensures outs == old(r.Left()).recs && r.Valid() && r.Left() == Outs([], Eoc)
  {
    hide AllOpen, OutsFrom, Follow, FileReader.Valid, FileReader.Left;
    outs := [];
    while true
      invariant r.Valid() && r.Left().end == Eoc && outs + r.Left().recs == old(r.Left()).recs
      decreases |r.Left().recs|
    {
      ghost var left := r.Left();
      var f := r.ReadRec();
      match f
      case Broken =>
        assert false;
        return;
      case NoMore =>
        assert outs + [] == outs;
        return;
      case Found(out) =>
        FollowOne(out, r.Left());
        assert outs + ([out] + r.Left().recs) == outs + [out] + r.Left().recs;
        outs := outs + [out];
    }
  }

  /** The table a reader starts with: the one in the file, or a rebuilt one when the file was not closed. */
  function TableOf(file: Octets): Option<Table>
  {
    match LoadHeader(file)
    case None => None
    case Some(h) =>
      if h.tableOff != 0 then LoadTable(file, h.tableOff)
      else match ScanFile(file) case Rebuilt(t) => Some(t) case _ => None
  }

  /** The constructor of the file reader: only a header that names no Content Table makes it look for one. */
  method Open(env: Env, file: Octets) returns (r: FileReader?)
    ensures r != null <==> TableOf(file).Some?
    ensures r != null <==>
      && LoadHeader(file).Some?
      && var off := LoadHeader(file).value.tableOff;
      if off == 0 then ScanFile(file).Rebuilt? else LoadTable(file, off).Some?
    ensures r != null ==>
      var off := LoadHeader(file).value.tableOff;
      if off == 0 then ScanFile(file) == Rebuilt(r.table) else LoadTable(file, off) == Some(r.table)
    ensures r != null ==>
      && r.Valid() && fresh(r) && fresh(r.first) && fresh(r.second)
      && r.file == file && r.table == TableOf(file).value && r.codec == CodecFor(env, LoadHeader(file).value.alg)
      && r.filter == NO_FILTER && r.Left() == OutsFrom(r.codec, file, r.table, NO_FILTER, 0)
  {
    hide LoadHeader, LoadTable, ScanFile, OutsFrom, CodecFor;
    var h := LoadHeader(file);
    if h.None? { return null; }
    var t: Table;
    if h.value.tableOff != 0 {
      var content := new BlockContent();
      var st := content.LoadFromFile(file, h.value.tableOff);
      if st != Ok { return null; }
      t := content.Entries();
    } else {
      var scan := CtableRebuild(file);
      if !scan.Rebuilt? { return null; }
      t := scan.table;
    }
    r := new FileReader(file, t, CodecFor(env, h.value.alg));
  }
}
