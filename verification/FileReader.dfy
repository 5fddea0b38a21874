/** The file reader: it walks the Content Table with two Data Block readers, one in use and one that loads
    the next accepted block ahead. */
module FileReader {
  import opened Bytes
  import opened Templates
  import opened Messages
  import opened Status
  import opened DataBuffer
  import opened Blocks
  import opened DataBlock
  import opened ContentTable
  import opened Writer
  import opened BlockTemplates
  import opened BlockDataReader
  import opened FileImage
  import opened EndToEnd

  // ----- the session and ODID filter -----

  datatype Filter = Filter(enabled: bool, sidAll: set<U16>, odidsAll: set<U32>, combi: set<(U16, U32)>)

  const NO_FILTER := Filter(false, {}, {}, {})

  /** `sfilter_match` */
  predicate Matches(f: Filter, sid: U16, odid: U32)
  {
    !f.enabled || sid in f.sidAll || odid in f.odidsAll || (sid, odid) in f.combi
  }

  predicate Lists(es: seq<SessEntry>, sid: U16)
  {
    exists k :: 0 <= k < |es| && es[k].sid == sid
  }

  /** One more condition of `read_sfilter_conf`; without any, everything is accepted again. */
  function Widen(f: Filter, sid: Option<U16>, odid: Option<U32>): Filter
  {
    if sid.None? && odid.None? then NO_FILTER
    else if sid.None? then f.(odidsAll := f.odidsAll + {odid.value}, enabled := true)
    else if odid.None? then f.(sidAll := f.sidAll + {sid.value}, enabled := true)
    else f.(combi := f.combi + {(sid.value, odid.value)}, enabled := true)
  }

  lemma WidenMatches(f: Filter, sid: Option<U16>, odid: Option<U32>)
    requires f.enabled || f == NO_FILTER
    ensures Widen(f, sid, odid).enabled || Widen(f, sid, odid) == NO_FILTER
    ensures forall s: U16, o: U32 :: Matches(Widen(f, sid, odid), s, o) <==>
      || (sid.None? && odid.None?) || (f.enabled && Matches(f, s, o))
      || (sid == Some(s) && odid.None?) || (odid == Some(o) && (sid.None? || sid == Some(s)))
  {
  }

  function Accepted(f: Filter, es: seq<DataEntry>): seq<DataEntry>
  {
    if es == [] then []
    else (if Matches(f, es[0].sid, es[0].odid) then [es[0]] else []) + Accepted(f, es[1..])
  }

  // ----- what a reader delivers -----

  datatype Outs = Outs(recs: seq<Out>, end: End)

  function Follow(a: Outs, b: Outs): Outs
  {
    if a.end == Eoc then Outs(a.recs + b.recs, b.end) else a
  }

  function TagAll(c: Ctx, s: Stream): Outs
  {
    Outs(Tagged(c, s.recs), s.end)
  }

  /** The records of one listed block. */
  function EntryOuts(cd: Codec, file: Octets, t: Table, e: DataEntry): Outs
  {
    match OpenEntry(cd, file, t, e)
    case None => Outs([], Bad)
    case Some(p) => TagAll(Ctx(e.sid, e.odid), MsgsOf(p.0, p.1))
  }

  /** The records of the accepted blocks of `es`, in table order. */
  function OutsOf(cd: Codec, file: Octets, t: Table, f: Filter, es: seq<DataEntry>): Outs
  {
    if es == [] then Outs([], Eoc)
    else if Matches(f, es[0].sid, es[0].odid) then
      Follow(EntryOuts(cd, file, t, es[0]), OutsOf(cd, file, t, f, es[1..]))
    else OutsOf(cd, file, t, f, es[1..])
  }

  /** A block that can be opened; its size is acceptable. */
  predicate Opens(cd: Codec, file: Octets, t: Table, e: DataEntry)
  {
    OpenEntry(cd, file, t, e).Some?
  }

  predicate AllOpen(cd: Codec, file: Octets, t: Table, f: Filter)
  {
    forall k :: 0 <= k < |t.blocks| && Matches(f, t.blocks[k].sid, t.blocks[k].odid) ==> Opens(cd, file, t, t.blocks[k])
  }

  lemma FollowAssoc(a: Outs, b: Outs, c: Outs)
    ensures Follow(a, Follow(b, c)) == Follow(Follow(a, b), c)
    ensures Follow(Outs([], Eoc), a) == a
  {
    assert a.recs + (b.recs + c.recs) == a.recs + b.recs + c.recs;
    assert [] + a.recs == a.recs;
  }

  /** What one step of the first part does to the whole. */
  lemma FollowCases(f: Fetch<Out>, left: Outs, rest: Outs)
    ensures f.Found? && f.value.rec.data != [] ==>
      Follow(Follow(Outs([f.value], Eoc), left), rest) == Follow(Outs([f.value], Eoc), Follow(left, rest))
    ensures Follow(Outs([], Stuck), rest) == Outs([], Stuck) && Follow(Outs([], Bad), rest) == Outs([], Bad)
  {
    if f.Found? {
      FollowAssoc(Outs([f.value], Eoc), left, rest);
    }
  }

  lemma TagThen(c: Ctx, r: Rec, s: Stream)
    ensures TagAll(c, Then(Stream([r], Eoc), s)) == Follow(Outs([Out(c, r)], Eoc), TagAll(c, s))
  {
    assert Tagged(c, [r] + s.recs) == [Out(c, r)] + Tagged(c, s.recs);
  }

  /** A read under a filter that meets no error delivers what the accepted blocks hold. */
  lemma {:induction false} OutsOfReadable(cd: Codec, file: Octets, t: Table, f: Filter, es: seq<DataEntry>)
    requires ReadEntries(cd, file, t, Accepted(f, es)).Some?
    ensures OutsOf(cd, file, t, f, es) == Outs(ReadEntries(cd, file, t, Accepted(f, es)).value, Eoc)
  {
    hide OpenEntry, MsgsOf;
    if es != [] {
      if Matches(f, es[0].sid, es[0].odid) {
        assert Accepted(f, es)[1..] == Accepted(f, es[1..]);
      } else {
        assert Accepted(f, es) == Accepted(f, es[1..]);
      }
      OutsOfReadable(cd, file, t, f, es[1..]);
    }
  }

  /** The templates of a listed block, after the cross-checks that come before the block itself is touched. */
  function EntryTmplts(file: Octets, t: Table, e: DataEntry): Option<TmpltMap>
  {
    if FindSession(file, t.sessions, e.sid).None? then None
    else
      match LoadTmplts(file, e.toff)
      case None => None
      case Some(tb) => if tb.sid != e.sid || tb.odid != e.odid || !tb.load.Loaded? then None else Some(tb.load.tmplts)
  }

  lemma AcceptedOpens(cd: Codec, file: Octets, t: Table, f: Filter, i: nat)
    requires i < |t.blocks| && Matches(f, t.blocks[i].sid, t.blocks[i].odid)
    ensures AllOpen(cd, file, t, f) ==> Opens(cd, file, t, t.blocks[i])
  {
  }

  lemma NotRequested(cd: Codec, file: Octets, t: Table, e: DataEntry)
    requires Request(cd, file, e.off, e.len).None?
    ensures !Opens(cd, file, t, e)
  {
  }

  /** A listed block is opened when its templates are found and its octets load and agree with the list. */
  lemma OpensParts(cd: Codec, file: Octets, t: Table, e: DataEntry)
    ensures
      var m, r := EntryTmplts(file, t, e), Request(cd, file, e.off, e.len);
      OpenEntry(cd, file, t, e) ==
        if m.None? || r.None? then None
        else
          match Loader(cd, r.value.0, r.value.1)
          case None => None
          case Some(d) =>
            if d.sid != e.sid || d.odid != e.odid || d.toff != e.toff then None else Some((d.content, m.value))
  {
    hide FindSession, LoadTmplts, Request, Loader;
  }

  /** The rest of the table from index `i`. */
  function OutsFrom(cd: Codec, file: Octets, t: Table, f: Filter, i: nat): Outs
  {
    if i <= |t.blocks| then OutsOf(cd, file, t, f, t.blocks[i..]) else Outs([], Bad)
  }

  lemma OutsStep(cd: Codec, file: Octets, t: Table, f: Filter, i: nat)
    requires i <= |t.blocks|
    ensures i == |t.blocks| ==> OutsFrom(cd, file, t, f, i) == Outs([], Eoc)
    ensures i < |t.blocks| ==>
      OutsFrom(cd, file, t, f, i) ==
        if Matches(f, t.blocks[i].sid, t.blocks[i].odid) then
          Follow(EntryOuts(cd, file, t, t.blocks[i]), OutsFrom(cd, file, t, f, i + 1))
        else OutsFrom(cd, file, t, f, i + 1)
  {
    hide EntryOuts;
    if i < |t.blocks| {
      assert t.blocks[i..][0] == t.blocks[i] && t.blocks[i..][1..] == t.blocks[i + 1..];
    }
  }

  class FileReader {
    const file: Octets
    const table: Table
    const codec: Codec
    var idles: seq<BlockDataReader>
    var current: BlockDataReader?
    var next: BlockDataReader?
    var nextIdx: nat
    var filter: Filter
    /** Template Blocks and Session Blocks that were loaded before. */
    var tmplts: map<nat, TmpltBlock>
    var sessions: map<U16, Session>
    ghost const first: BlockDataReader
    ghost const second: BlockDataReader

    /** Two readers in all: idle ones, the current and the next one. */
    ghost predicate Owned()
      reads this`idles, this`current, this`next
    {
      && first != second && |idles| + (if current == null then 0 else 1) + (if next == null then 0 else 1) == 2
      && (forall k :: 0 <= k < |idles| ==> idles[k] in {first, second} && idles[k] != current && idles[k] != next)
      && (forall j, k :: 0 <= j < k < |idles| ==> idles[j] != idles[k])
      && current in {first, second, null} && next in {first, second, null} && (current == next ==> current == null)
    }

    ghost predicate ReadersOk()
      reads first, second
    {
      first.Valid() && second.Valid() && first.codec == codec && second.codec == codec
    }

    ghost predicate CachesOk()
      reads this`tmplts, this`sessions
    {
      && (forall off :: off in tmplts ==> LoadTmplts(file, off) == Some(tmplts[off]))
      && (forall sid :: sid in sessions ==> FindSession(file, table.sessions, sid) == Some(sessions[sid]))
    }

    /** The next reader has asked for the block at `nextIdx`, which the filter accepts. */
    ghost predicate NextOk()
      reads this`next, this`nextIdx, this`filter, next
    {
      && nextIdx <= |table.blocks|
      && (next != null ==>
            && nextIdx < |table.blocks|
            && var e := table.blocks[nextIdx];
            Matches(filter, e.sid, e.odid) && Request(codec, file, e.off, e.len) == next.request && next.request.Some?)
    }

    /** The current reader is inside a block whose successor, if there is one, is already being loaded. */
    ghost predicate CurrentOk()
      reads this`current, this`next, this`nextIdx, current
    {
      current != null ==>
        && current.request.None? && current.block.Some? && current.snap.Some?
        && (current.itersReady ==> current.setSeen)
        && (next == null ==> nextIdx == |table.blocks|)
    }

    ghost predicate Valid()
      reads this, first, second, current, next
    {
      Owned() && ReadersOk() && CachesOk() && NextOk() && CurrentOk() && (filter.enabled || filter == NO_FILTER)
    }

    ghost function CurrentLeft(): Outs
      reads this`current, current
    {
      if current == null || current.block.None? then Outs([], Eoc)
      else TagAll(Ctx(current.block.value.sid, current.block.value.odid), current.Left())
    }

    /** The records that are still to come. */
    ghost function Left(): Outs
      reads this, current
    {
      Follow(CurrentLeft(), OutsFrom(codec, file, table, filter, nextIdx))
    }

    constructor (file: Octets, table: Table, codec: Codec)
      ensures Valid() && fresh(first) && fresh(second)
      ensures this.file == file && this.table == table && this.codec == codec && filter == NO_FILTER
      ensures Left() == OutsFrom(codec, file, table, NO_FILTER, 0)
    {
      this.file, this.table, this.codec := file, table, codec;
      tmplts, sessions, filter := map[], map[], NO_FILTER;
      var a := new BlockDataReader(codec);
      var b := new BlockDataReader(codec);
      first, second := a, b;
      idles, current, next, nextIdx := [a, b], null, null, 0;
      new;
      FollowAssoc(OutsFrom(codec, file, table, NO_FILTER, 0), Outs([], Eoc), Outs([], Eoc));
    }

    /** `read_rewind` */
    method ReadRewind()
      requires Valid()
      modifies this`idles, this`current, this`next, this`nextIdx
      ensures
        Valid() && current == null && next == null && nextIdx == 0 && Left() == OutsFrom(codec, file, table, filter, 0)
    {
      if current != null {
        idles := idles + [current];
        current := null;
      }
      if next != null {
        idles := idles + [next];
        next := null;
      }
      nextIdx := 0;
      FollowAssoc(OutsFrom(codec, file, table, filter, 0), Outs([], Eoc), Outs([], Eoc));
    }

    /** `get_sblock` */
    method GetSession(sid: U16) returns (s: Option<Session>)
      requires CachesOk()
      modifies this`sessions
      ensures CachesOk() && s == FindSession(file, table.sessions, sid)
    {
      hide FindSession, LoadTmplts;
      if sid in sessions { return Some(sessions[sid]); }
      s := FindSession(file, table.sessions, sid);
      if s.Some? { sessions := sessions[sid := s.value]; }
    }

    /** `get_tblock` */
    method GetTmplts(off: nat) returns (b: Option<TmpltBlock>)
      requires CachesOk()
      modifies this`tmplts
      ensures CachesOk() && b == LoadTmplts(file, off)
    {
      hide FindSession, LoadTmplts;
      if off in tmplts { return Some(tmplts[off]); }
      var block := new BlockTemplates();
      b := block.LoadFromFile(file, off);
      if b.Some? { tmplts := tmplts[off := b.value]; }
    }

    /** Session and templates of a listed block. */
    method PrepareTmplts(e: DataEntry) returns (m: Option<TmpltMap>)
      requires CachesOk()
      modifies this`tmplts, this`sessions
      ensures CachesOk() && m == EntryTmplts(file, table, e)
    {
      hide FindSession, LoadTmplts, CachesOk;
      var s := GetSession(e.sid);
      if s.None? { return None; }
      var tb := GetTmplts(e.toff);
      if tb.None? || tb.value.sid != e.sid || tb.value.odid != e.odid || !tb.value.load.Loaded? { return None; }
      return Some(tb.value.load.tmplts);
    }

    /** `scheduler_next2current` */
    method Next2Current() returns (st: Status)
      requires Owned() && ReadersOk() && CachesOk() && NextOk() && next != null && current == null
      modifies this`current, this`next, this`nextIdx, this`tmplts, this`sessions, next
      ensures
        var e := table.blocks[old(nextIdx)];
        if st != Ok then !Opens(codec, file, table, e)
        else
          && Owned() && ReadersOk() && CachesOk() && next == null && nextIdx == old(nextIdx) + 1
          && current != null && current == old(next)
          && current.request.None? && current.block.Some? && current.snap.Some? && !current.itersReady
          && CurrentLeft() == EntryOuts(codec, file, table, e)
    {
      hide LoadTmplts, FindSession, Loader, TagAll, MsgsOf, CachesOk, Matches, Tagged, Then, Request;
      hide OpenEntry, EntryTmplts;
      var e := table.blocks[nextIdx];
      var m := PrepareTmplts(e);
      OpensParts(codec, file, table, e);
      if m.None? { return ErrInternal; }
      st := next.DataReady();
      if st != Ok { return; }
      var d := next.block.value;
      if d.sid != e.sid || d.odid != e.odid || d.toff != e.toff { return ErrInternal; }
      next.SetTemplates(m.value);
      current := next;
      next := null;
      nextIdx := nextIdx + 1;
      return Ok;
    }

    /** `scheduler_prepare_next`: skip blocks that the filter refuses and start loading the one behind them. */
    method PrepareNext() returns (st: Status)
      requires Owned() && ReadersOk() && nextIdx <= |table.blocks| && next == null
      modifies this`idles, this`next, this`nextIdx, idles[0]
      ensures st != Ok ==> !AllOpen(codec, file, table, filter)
      ensures st == Ok ==>
        && Owned() && ReadersOk() && NextOk() && old(nextIdx) <= nextIdx
        && (next == null ==> nextIdx == |table.blocks|) && (next != null ==> next == old(idles[0]))
        && OutsFrom(codec, file, table, filter, nextIdx) == OutsFrom(codec, file, table, filter, old(nextIdx))
    {
      hide OutsFrom, EntryOuts, Follow, Request;
      while nextIdx < |table.blocks|
        modifies this`nextIdx
        invariant old(nextIdx) <= nextIdx <= |table.blocks| && next == null && idles == old(idles)
        invariant OutsFrom(codec, file, table, filter, nextIdx) == OutsFrom(codec, file, table, filter, old(nextIdx))
      {
        var aux := table.blocks[nextIdx];
        if !Matches(filter, aux.sid, aux.odid) {
          OutsStep(codec, file, table, filter, nextIdx);
          nextIdx := nextIdx + 1;
          continue;
        }
        break;
      }
      if nextIdx == |table.blocks| { return Ok; }
      var e := table.blocks[nextIdx];
      var reader := idles[0];
      idles := idles[1..];
      next := reader;
      st := reader.LoadFromFile(file, e.off, e.len);
      if st != Ok {
        NotRequested(codec, file, table, e);
      }
    }

    /** The prepared block becomes the current one. */
    method Promote() returns (st: Status)
      requires Owned() && ReadersOk() && CachesOk() && NextOk() && next != null && current == null
      modifies this`current, this`next, this`nextIdx, this`tmplts, this`sessions, next
      ensures st != Ok ==> !AllOpen(codec, file, table, filter)
      ensures st == Ok ==>
        && Owned() && ReadersOk() && CachesOk() && NextOk() && next == null && nextIdx == old(nextIdx) + 1
        && current != null && current.request.None? && current.block.Some? && current.snap.Some? && !current.itersReady
        && Left() == OutsFrom(codec, file, table, filter, old(nextIdx))
    {
      hide EntryOuts, OutsFrom, AllOpen, Opens, Request, LoadTmplts, FindSession, Follow, Matches, TagAll;
      hide CachesOk, ReadersOk;
      OutsStep(codec, file, table, filter, nextIdx);
      AcceptedOpens(codec, file, table, filter, nextIdx);
      st := Next2Current();
    }

    /** The reader of a finished block becomes idle. */
    method Retire()
      requires Owned() && ReadersOk() && CachesOk() && NextOk()
      modifies this`idles, this`current
      ensures Owned() && ReadersOk() && CachesOk() && NextOk() && current == null
    {
      hide CachesOk, ReadersOk, Request, Matches;
      if current != null {
        idles := idles + [current];
        current := null;
      }
    }

    /** `scheduler`, when the current block has been read to its end. */
    method Scheduler() returns (st: Status)
      requires Owned() && ReadersOk() && CachesOk() && NextOk() && CurrentLeft() == Outs([], Eoc)
      requires filter.enabled || filter == NO_FILTER
      modifies this`idles, this`current, this`next, this`nextIdx, this`tmplts, this`sessions, first, second
      ensures st != Ok ==> !AllOpen(codec, file, table, filter)
      ensures st == Ok ==> Valid() && Left() == old(Left())
      ensures st == Ok ==> if current == null then Left() == Outs([], Eoc) else old(nextIdx) < nextIdx
    {
      hide OutsFrom, AllOpen, Request, LoadTmplts, FindSession, Follow, Matches, TagAll, CachesOk, ReadersOk;
      OutsStep(codec, file, table, filter, |table.blocks|);
      FollowAssoc(OutsFrom(codec, file, table, filter, nextIdx), Outs([], Eoc), Outs([], Eoc));
      Retire();
      if next != null {
        st := Promote();
        if st != Ok { return; }
      }
      st := PrepareNext();
      if st != Ok { return; }
      FollowAssoc(OutsFrom(codec, file, table, filter, nextIdx), Outs([], Eoc), Outs([], Eoc));
      if current == null && next != null {
        st := Promote();
        if st != Ok { return; }
        st := PrepareNext();
      }
    }

    /** The next record of the current block. */
    method NextOfCurrent() returns (f: Fetch<Out>)
      requires Valid() && current != null
      modifies current
      ensures match f
        case Broken => old(CurrentLeft()) == Outs([], Bad)
        case NoMore => old(CurrentLeft()) == Outs([], Eoc) == CurrentLeft() && Owned() && ReadersOk() && NextOk()
        case Found(out) =>
          && Valid()
          && old(CurrentLeft()) ==
            (if out.rec.data == [] then Outs([], Stuck) else Follow(Outs([out], Eoc), CurrentLeft()))
          && (out.rec.data == [] ==> CurrentLeft() == Outs([], Stuck))
    {
      hide EntryOuts, Request;
      var r := current.NextRec();
      match r
      case Broken => return Broken;
      case NoMore => return NoMore;
      case Found(rec) =>
        TagThen(Ctx(current.block.value.sid, current.block.value.odid), rec, current.Left());
        return Found(Out(Ctx(current.block.value.sid, current.block.value.odid), rec));
    }

    /** `read_rec`: the next record in table order, or the end of the file, at which the reader stays. It fails
        only when a block is damaged. */
    method ReadRec() returns (f: Fetch<Out>)
      requires Valid()
      modifies this`idles, this`current, this`next, this`nextIdx, this`tmplts, this`sessions, first, second
      ensures match f
        case Broken => AllOpen(codec, file, table, filter) ==> old(Left()) == Outs([], Bad)
        case NoMore => Valid() && old(Left()) == Left() == Outs([], Eoc)
        case Found(out) =>
          && Valid()
          && old(Left()) == (if out.rec.data == [] then Outs([], Stuck) else Follow(Outs([out], Eoc), Left()))
          && (out.rec.data == [] ==> Left() == Outs([], Stuck))
    {
      hide EntryOuts, OutsFrom, AllOpen, Opens, Request, LoadTmplts, FindSession, Follow, TagAll;
      ghost var rest := OutsFrom(codec, file, table, filter, nextIdx);
      if current != null {
        f := NextOfCurrent();
        FollowCases(f, CurrentLeft(), rest);
        if !f.NoMore? { return; }
      }
      while true
        invariant Owned() && ReadersOk() && CachesOk() && NextOk() && CurrentLeft() == Outs([], Eoc)
        invariant Left() == old(Left())
        decreases |table.blocks| - nextIdx
      {
        var st := Scheduler();
        if st != Ok { return Broken; }
        if current == null { return NoMore; }
        rest := OutsFrom(codec, file, table, filter, nextIdx);
        f := NextOfCurrent();
        FollowCases(f, CurrentLeft(), rest);
        if f.NoMore? { continue; }
        return;
      }
    }

    /** `read_sfilter_conf`: rewind, then widen the filter, or switch it off. */
    method SfilterConf(sid: Option<U16>, odid: Option<U32>) returns (st: Status)
      requires Valid()
      modifies this`idles, this`current, this`next, this`nextIdx, this`filter, this`sessions
      ensures Valid() && Left() == OutsFrom(codec, file, table, filter, 0)
      ensures st ==
        if sid.None? || FindSession(file, table.sessions, sid.value).Some? then Ok
        else if Lists(table.sessions, sid.value) then ErrInternal else ErrNotFound
      ensures st != Ok ==> filter == old(filter)
      ensures st == Ok ==> forall s: U16, o: U32 :: Matches(filter, s, o) <==>
        || (sid.None? && odid.None?) || (old(filter).enabled && Matches(old(filter), s, o))
        || (sid == Some(s) && odid.None?) || (odid == Some(o) && (sid.None? || sid == Some(s)))
    {
      hide OutsFrom, FindSession, LoadTmplts, Matches, Widen;
      ReadRewind();
      WidenMatches(filter, sid, odid);
      if sid.Some? {
        var session := GetSession(sid.value);
        if session.None? {
          return if Lists(table.sessions, sid.value) then ErrInternal else ErrNotFound;
        }
      }
      filter := Widen(filter, sid, odid);
      FollowAssoc(OutsFrom(codec, file, table, filter, 0), Outs([], Eoc), Outs([], Eoc));
      return Ok;
    }
  }
}
