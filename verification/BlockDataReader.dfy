/** The reader of one Data Block: three nested iterators over Messages, Sets and records. */
module BlockDataReader {
  import opened Bytes
  import opened Templates
  import opened Messages
  import opened Status
  import opened DataBuffer
  import opened Blocks
  import opened DataBlock

  /** What one of the iterators came to. */
  datatype Fetch<+T> = Found(value: T) | NoMore | Broken

  lemma ThenAssoc(a: Stream, b: Stream, c: Stream)
    ensures Then(a, Then(b, c)) == Then(Then(a, b), c)
  {
    assert a.recs + (b.recs + c.recs) == a.recs + b.recs + c.recs;
  }

  lemma ThenFirst(a: Stream)
    ensures Then(Stream([], Eoc), a) == a
  {
    assert [] + a.recs == a.recs;
  }

  lemma ThenStops(end: End, a: Stream)
    requires end != Eoc
    ensures Then(Stream([], end), a) == Stream([], end)
  {
  }

  lemma NothingIn(s: Octets, snap: TmpltMap, etime: U32)
    requires |s| == 0
    ensures SetsOf(s, snap, etime) == MsgsOf(s, snap) == Stream([], Eoc)
  {
  }

  /** A Set without a record left stays so, whatever the Export Time. */
  lemma NothingLeft(s: Octets, t: Template, e: U32, e': U32)
    requires RecsOf(s, t, e) == Stream([], Eoc)
    ensures RecsOf(s, t, e') == Stream([], Eoc)
  {
  }

  /** The Set at position `i` of the octets `c`, whose Message ends at `end`. */
  lemma SetStep(c: Octets, i: nat, end: nat, snap: TmpltMap, etime: U32)
    requires i < end <= |c|
    ensures i + SET_HDR_LEN > end ==> SetsOf(c[i..end], snap, etime) == Stream([], Bad)
    ensures i + SET_HDR_LEN <= end ==>
      var len, tid := FromBe16(c[i + 2..i + 4]), FromBe16(c[i..i + 2]);
      SetsOf(c[i..end], snap, etime) ==
        if len < SET_HDR_LEN || i + len > end then Stream([], Bad)
        else if tid < MIN_DSET_ID then SetsOf(c[i + len..end], snap, etime)
        else if tid !in snap then Stream([], Bad)
        else Then(SetRecs(c[i + SET_HDR_LEN..i + len], snap[tid], etime), SetsOf(c[i + len..end], snap, etime))
  {
    var s := c[i..end];
    if i + SET_HDR_LEN <= end {
      SliceOf(c, i, end, 2, 4);
      SliceOf(c, i, end, 0, 2);
      var len := FromBe16(s[2..4]);
      if SET_HDR_LEN <= len <= |s| {
        SliceOf(c, i, end, len, |s|);
        SliceOf(c, i, end, SET_HDR_LEN, len);
      }
    }
  }

  lemma SliceOf(c: Octets, i: nat, end: nat, a: nat, b: nat)
    requires i <= end <= |c| && a <= b <= end - i
    ensures c[i..end][a..b] == c[i + a..i + b]
  {
    var x, y := c[i..end][a..b], c[i + a..i + b];
    assert |x| == |y| && forall k :: 0 <= k < |x| ==> x[k] == y[k];
  }

  /** The Message at position `i` of the octets `c`. */
  lemma MsgStep(c: Octets, i: nat, snap: TmpltMap)
    requires i < |c|
    ensures i + MSG_HDR_LEN > |c| ==> MsgsOf(c[i..], snap) == Stream([], Bad)
    ensures i + MSG_HDR_LEN <= |c| ==>
      var len := FromBe16(c[i + 2..i + 4]);
      MsgsOf(c[i..], snap) ==
        if FromBe16(c[i..i + 2]) != IPFIX_VERSION || i + len > |c| || len < MSG_HDR_LEN then Stream([], Bad)
        else Then(SetsOf(c[i + MSG_HDR_LEN..i + len], snap, FromBe32(c[i + 4..i + 8])), MsgsOf(c[i + len..], snap))
  {
    hide SetsOf, FromBe16, FromBe32, Then;
    var s := c[i..];
    assert s == c[i..|c|];
    if i + MSG_HDR_LEN <= |c| {
      SliceOf(c, i, |c|, 2, 4);
      SliceOf(c, i, |c|, 0, 2);
      var len := FromBe16(s[2..4]);
      if MSG_HDR_LEN <= len <= |s| {
        SliceOf(s, 0, len, 4, 8);
        SliceOf(s, 0, len, MSG_HDR_LEN, len);
        SliceOf(c, i, |c|, 4, 8);
        SliceOf(c, i, |c|, MSG_HDR_LEN, len);
        SliceOf(c, i, |c|, len, |s|);
        assert s[..len] == s[0..len];
      }
    }
  }

  class BlockDataReader {
    const codec: Codec
    /** An unfinished read request: what it delivers and the size that was asked for. */
    var request: Option<(Octets, nat)>
    var block: Option<Data>
    var snap: Option<TmpltMap>
    var etime: U32
    var msgNext: nat
    var itersReady: bool
    var setsNext: nat
    var setsEnd: nat
    var dsetNext: nat
    var dsetEnd: nat
    var dsetFailed: bool
    var iterTmplt: Option<Template>
    /** Has a Data Set been prepared since the last rewind? */
    ghost var setSeen: bool

    predicate Loaded()
      reads this
    {
      request.None? && block.Some?
    }

    function Content(): Octets
      requires block.Some?
      reads this`block
    {
      block.value.content
    }

    /** Positions are in order and inside the block. */
    ghost predicate Valid()
      reads this
    {
      block.Some? ==>
        && msgNext <= |Content()|
        && (itersReady ==> setsNext <= setsEnd <= msgNext)
        && (setSeen ==> itersReady && iterTmplt.Some? && dsetNext <= dsetEnd <= |Content()|)
    }

    // ----- what is left to be read -----

    ghost function DsetLeft(): Stream
      reads this`block, this`etime, this`dsetNext, this`dsetEnd, this`dsetFailed, this`iterTmplt, this`setSeen
    {
      if !setSeen then Stream([], Eoc)
      else if dsetFailed || block.None? || iterTmplt.None? || !(dsetNext <= dsetEnd <= |Content()|) then Stream([], Bad)
      else RecsOf(Content()[dsetNext..dsetEnd], iterTmplt.value, etime)
    }

    ghost function SetsLeft(): Stream
      reads this`block, this`snap, this`etime, this`setsNext, this`setsEnd, this`itersReady
    {
      if !itersReady then Stream([], Eoc)
      else if block.None? || snap.None? || !(setsNext <= setsEnd <= |Content()|) then Stream([], Bad)
      else SetsOf(Content()[setsNext..setsEnd], snap.value, etime)
    }

    ghost function MsgsLeft(): Stream
      reads this`block, this`snap, this`msgNext
    {
      if block.None? || snap.None? || msgNext > |Content()| then Stream([], Bad)
      else MsgsOf(Content()[msgNext..], snap.value)
    }

    ghost function Left(): Stream
      reads this
    {
      Then(DsetLeft(), Then(SetsLeft(), MsgsLeft()))
    }

    constructor (codec: Codec)
      ensures Valid() && this.codec == codec && request.None? && block.None? && snap.None?
    {
      this.codec := codec;
      request, block, snap, iterTmplt := None, None, None, None;
      etime, msgNext, setsNext, setsEnd, dsetNext, dsetEnd := 0, 0, 0, 0, 0, 0;
      itersReady, dsetFailed, setSeen := false, false, false;
    }

    /** `load_from_file`: only a request is made; the block is loaded when it is first touched. */
    method LoadFromFile(file: Octets, off: nat, hint: nat) returns (st: Status)
      requires Valid()
      modifies this`request, this`block
      ensures Valid()
      ensures match Request(codec, file, off, hint)
        case None => st == ErrInternal && unchanged(this)
        case Some(r) => st == Ok && request == Some(r) && block == None
    {
      var r := Request(codec, file, off, hint);
      if r.None? { return ErrInternal; }
      request, block := r, None;
      return Ok;
    }

    /** `rewind` */
    method Rewind()
      requires block.Some? ==> msgNext <= |Content()|
      modifies this`msgNext, this`itersReady, this`setSeen
      ensures Valid() && (block.Some? ==> !itersReady && !setSeen)
      ensures block.Some? && snap.Some? ==> Left() == MsgsOf(Content(), snap.value)
    {
      if block.None? { return; }
      itersReady, msgNext, setSeen := false, 0, false;
      assert Content()[0..] == Content();
      if snap.Some? {
        ThenFirst(MsgsLeft());
      }
    }

    /** `data_ready`: wait for the request and unpack the block. */
    method DataReady() returns (st: Status)
      requires Valid()
      modifies this
      ensures Valid() && request == None && snap == old(snap)
      ensures match old(request)
        case None => st == (if old(block).Some? then Ok else ErrInternal) && unchanged(this)
        case Some(r) => block == Loader(codec, r.0, r.1) && st == if block.Some? then Ok else ErrInternal
    {
      if request.Some? {
        block := Loader(codec, request.value.0, request.value.1);
        request, msgNext := None, 0;
        itersReady, setSeen := false, false;
        Rewind();
      }
      return if block.Some? then Ok else ErrInternal;
    }

    /** `set_templates` */
    method SetTemplates(m: TmpltMap)
      requires Valid()
      modifies this`snap, this`msgNext, this`itersReady, this`setSeen
      ensures Valid() && snap == Some(m)
      ensures block.Some? ==> !itersReady && !setSeen && Left() == MsgsOf(Content(), m)
    {
      snap := Some(m);
      Rewind();
    }

    /** `prepare_record` */
    method PrepareRecord() returns (f: Fetch<Rec>)
      requires Valid() && block.Some? && setSeen
      modifies this`dsetNext
      ensures Valid()
      ensures match f
        case NoMore => old(DsetLeft()) == Stream([], Eoc) == DsetLeft()
        case Broken => old(DsetLeft()) == Stream([], Bad)
        case Found(rec) =>
          if rec.data == [] then old(DsetLeft()) == Stream([], Stuck) == DsetLeft()
          else old(DsetLeft()) == Then(Stream([rec], Eoc), DsetLeft())
    {
      if dsetFailed { return Broken; }
      if dsetNext == dsetEnd { return NoMore; }
      var tmplt := iterTmplt.value;
      if dsetNext + tmplt.DataLength() > dsetEnd { return NoMore; }
      var s := Content()[dsetNext..dsetEnd];
      var size := RecLength(s, tmplt);
      if size.None? { return Broken; }
      dsetNext := dsetNext + size.value;
      assert s[size.value..] == Content()[dsetNext..dsetEnd];
      return Found(Rec(etime, tmplt, s[..size.value]));
    }

    /** `prepare_set`: the next Data Set of the Message; other Sets are skipped. */
    method PrepareSet() returns (f: Fetch<()>)
      requires Valid() && block.Some? && snap.Some? && itersReady && DsetLeft() == Stream([], Eoc)
      modifies this`setsNext, this`dsetNext, this`dsetEnd, this`dsetFailed, this`iterTmplt, this`setSeen
      ensures Valid() && (old(setSeen) ==> setSeen)
      ensures match f
        case NoMore =>
          && old(SetsLeft()) == Stream([], Eoc) == SetsLeft() && DsetLeft() == Stream([], Eoc)
          && setSeen == old(setSeen)
        case Broken => old(SetsLeft()) == Stream([], Bad)
        case Found(_) => old(SetsLeft()) == Then(DsetLeft(), SetsLeft()) && setSeen && setsNext > old(setsNext)
    {
      hide SetsOf, RecsOf, MsgsOf, FromBe16, Then, MinLength, SetAt, MsgAt, Parse, RecLen;
      ghost var before := SetsLeft();
      var hdr, setLen, tid: U16 := setsNext, 0, 0;
      while true
        modifies this`setsNext
        invariant Valid() && setsNext >= old(setsNext) && SetsLeft() == before
        decreases setsEnd - setsNext
      {
        if setsNext == setsEnd {
          NothingIn(Content()[setsNext..setsEnd], snap.value, etime);
          return NoMore;
        }
        SetStep(Content(), setsNext, setsEnd, snap.value, etime);
        if setsNext + SET_HDR_LEN > setsEnd { return Broken; }
        hdr := setsNext;
        setLen := FromBe16(Content()[hdr + 2..hdr + 4]);
        if setLen < SET_HDR_LEN || hdr + setLen > setsEnd { return Broken; }
        setsNext := setsNext + setLen;
        tid := FromBe16(Content()[hdr..hdr + 2]);
        if tid >= MIN_DSET_ID { break; }
      }
      if tid !in snap.value { return Broken; }
      iterTmplt := Some(snap.value[tid]);
      dsetNext := hdr + SET_HDR_LEN;
      dsetEnd := hdr + setLen;
      dsetFailed := dsetNext + iterTmplt.value.DataLength() > dsetEnd;
      setSeen := true;
      return Found(());
    }

    /** `prepare_message` */
    method PrepareMessage() returns (f: Fetch<()>)
      requires Valid() && block.Some? && snap.Some? && DsetLeft() == SetsLeft() == Stream([], Eoc)
      modifies this`msgNext, this`etime, this`setsNext, this`setsEnd, this`itersReady
      ensures Valid()
      ensures match f
        case NoMore => old(MsgsLeft()) == Stream([], Eoc) && Left() == Stream([], Eoc) && itersReady == old(itersReady)
        case Broken => old(MsgsLeft()) == Stream([], Bad)
        case Found(_) =>
          && old(MsgsLeft()) == Then(SetsLeft(), MsgsLeft()) && DsetLeft() == Stream([], Eoc)
          && itersReady && msgNext > old(msgNext)
    {
      hide MsgsOf, SetsOf, RecsOf, FromBe16, FromBe32;
      var c := Content();
      if msgNext == |c| {
        NothingIn(c[msgNext..], snap.value, etime);
        return NoMore;
      }
      MsgStep(c, msgNext, snap.value);
      if msgNext + MSG_HDR_LEN > |c| { return Broken; }
      if FromBe16(c[msgNext..msgNext + 2]) != IPFIX_VERSION { return Broken; }
      var msgSize := FromBe16(c[msgNext + 2..msgNext + 4]);
      if msgNext + msgSize > |c| || msgSize == 0 { return Broken; }
      if msgSize < MSG_HDR_LEN { return Broken; }  // asserted by the Sets iterator
      if setSeen {
        NothingLeft(c[dsetNext..dsetEnd], iterTmplt.value, etime, FromBe32(c[msgNext + 4..msgNext + 8]));
      }
      etime := FromBe32(c[msgNext + 4..msgNext + 8]);
      setsNext := msgNext + MSG_HDR_LEN;
      msgNext := msgNext + msgSize;
      setsEnd := msgNext;
      itersReady := true;
      return Found(());
    }

    /** The loops of `next_rec`, on a loaded block with templates: the next record, or the end of the block, at
        which the reader then stays. The last iterator must not be asked again when the block had no Data Set. */
    method NextRec() returns (f: Fetch<Rec>)
      requires Valid() && block.Some? && snap.Some? && (itersReady ==> setSeen)
      modifies this`msgNext, this`etime, this`setsNext, this`setsEnd, this`itersReady,
        this`dsetNext, this`dsetEnd, this`dsetFailed, this`iterTmplt, this`setSeen
      ensures Valid() && (f.Found? ==> setSeen) && (old(setSeen) ==> setSeen)
      ensures match f
        case NoMore => old(Left()) == Stream([], Eoc) && Left() == Stream([], Eoc)
        case Broken => old(Left()) == Stream([], Bad)
        case Found(rec) =>
          if rec.data == [] then old(Left()) == Stream([], Stuck) && Left() == Stream([], Stuck)
          else old(Left()) == Then(Stream([rec], Eoc), Left())
    {
      hide RecsOf, SetsOf, MsgsOf, MsgsLeft, Then;
      while true
        invariant Valid() && (itersReady ==> setSeen) && Left() == old(Left()) && (old(setSeen) ==> setSeen)
        decreases |Content()| - msgNext, if itersReady then setsEnd - setsNext else 0
      {
        ghost var msg0, sets0 := msgNext, setsEnd - setsNext;
        ghost var ready0 := itersReady;
        if itersReady {
          ghost var rest := Then(SetsLeft(), MsgsLeft());
          f := PrepareRecord();
          match f
          case Found(rec) =>
            ThenAssoc(Stream([rec], Eoc), DsetLeft(), rest);
            ThenStops(Stuck, rest);
            return;
          case Broken =>
            ThenStops(Bad, rest);
            return;
          case NoMore =>
        }
        assert DsetLeft() == Stream([], Eoc);
        while true
          invariant Valid() && DsetLeft() == Stream([], Eoc) && Left() == old(Left())
          invariant
            msgNext >= msg0 &&
              (msgNext == msg0 ==> itersReady == ready0 && (itersReady ==> setsEnd - setsNext == sets0))
          invariant old(setSeen) ==> setSeen
          decreases |Content()| - msgNext
        {
          ThenFirst(Then(SetsLeft(), MsgsLeft()));
          if itersReady {
            ghost var rest := MsgsLeft();
            var s := PrepareSet();
            match s
            case Found(_) => ThenAssoc(DsetLeft(), SetsLeft(), rest); break;
            case Broken =>
              ThenStops(Bad, rest);
              return Broken;
            case NoMore =>
          }
          ThenFirst(MsgsLeft());
          var m := PrepareMessage();
          match m
          case Found(_) => ThenFirst(Then(SetsLeft(), MsgsLeft()));
          case Broken => return Broken;
          case NoMore => return NoMore;
        }
      }
    }
  }
}
