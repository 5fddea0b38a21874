/** The templates of one context and the block they are stored in. */
module BlockTemplates {
  import opened Bytes
  import opened Templates
  import opened Messages
  import opened Status
  import opened DataBuffer
  import opened Blocks

  /** The size that the write loop reserves for the records of `ts`. */
  function RawTotal(ts: seq<Template>): nat
  {
    if ts == [] then 0 else |ts[0].raw| + RawTotal(ts[1..])
  }

  lemma {:induction false} TrecsLength(ts: seq<Template>)
    ensures |Concat(EncTrec, ts)| == TREC_HDR_LEN * |ts| + RawTotal(ts)
  {
    if ts != [] {
      TrecsLength(ts[1..]);
    }
  }

  lemma {:induction false} RawTotalPush(ts: seq<Template>, t: Template)
    ensures RawTotal(ts + [t]) == RawTotal(ts) + |t.raw|
  {
    if ts == [] {
      assert [t][1..] == [] && ts + [t] == [t];
    } else {
      assert (ts + [t])[1..] == ts[1..] + [t];
      RawTotalPush(ts[1..], t);
    }
  }

  /** The records written so far and the next one behind them. */
  lemma NextRecord(s: Octets, done: Octets, pos: nat, rec: Octets)
    requires TMPLTS_HDR_LEN + |done| == pos <= |s| && s[TMPLTS_HDR_LEN..pos] == done && pos + |rec| <= |s|
    ensures
      var s' := Splice(s, pos, rec);
      s'[TMPLTS_HDR_LEN..pos + |rec|] == done + rec && s'[..TMPLTS_HDR_LEN] == s[..TMPLTS_HDR_LEN]
  {
    var s' := Splice(s, pos, rec);
    SpliceKeeps(s, pos, rec, TMPLTS_HDR_LEN, pos);
    SpliceKeeps(s, pos, rec, 0, TMPLTS_HDR_LEN);
    assert s'[TMPLTS_HDR_LEN..pos + |rec|] == s'[TMPLTS_HDR_LEN..pos] + s'[pos..pos + |rec|];
  }

  class BlockTemplates {
    /** IDs of the stored templates, kept beside the Template Manager. */
    var ids: set<nat>
    var manager: TmpltMap

    predicate Valid()
      reads this
    {
      ids == manager.Keys && forall id :: id in manager ==> manager[id].id == id
    }

    constructor ()
      ensures Valid() && manager == map[]
    {
      ids, manager := {}, map[];
    }

    /** `get` */
    method Get(tid: nat) returns (t: Option<Template>)
      requires Valid()
      ensures t == if tid in manager then Some(manager[tid]) else None
    {
      if tid !in ids { return None; }
      return Some(manager[tid]);
    }

    /** `add`: a malformed definition is refused and changes nothing. */
    method Add(ttype: U16, raw: Octets) returns (st: Status)
      requires Valid()
      modifies this
      ensures Valid()
      ensures match Parse(ttype, raw)
        case None => st == ErrFormat && manager == old(manager)
        case Some(t) => st == Ok && manager == old(manager)[t.id as nat := t]
    {
      hide Parse;
      match Parse(ttype, raw)
      case None => return ErrFormat;
      case Some(t) =>
        manager := manager[t.id as nat := t];
        ids := ids + {t.id as nat};
        return Ok;
    }

    /** `remove` */
    method Remove(tid: nat) returns (st: Status)
      requires Valid()
      modifies this
      ensures Valid() && manager == old(manager) - {tid}
      ensures st == if tid in old(manager) then Ok else ErrNotFound
    {
      if tid !in manager {
        assert manager - {tid} == manager;
        return ErrNotFound;
      }
      manager := manager - {tid};
      ids := ids - {tid};
      return Ok;
    }

    /** `write_to_file`: the octets of the Template Block, the templates by ascending ID and padded to a
        multiple of four. */
    method WriteToFile(sid: U16, odid: U32) returns (block: Octets)
      requires Valid()
      ensures block == EncTmplts(sid, odid, manager)
    {
      hide EncTrec, Le16, Le32, Le64, Padding, Splice, TmpltSeq, RawTotal;
      var list := TmpltSeq(manager);
      var dataSize := SumRaw(list);
      TrecsLength(list);
      ghost var recs := Concat(EncTrec, list);
      var size := TMPLTS_HDR_LEN + TREC_HDR_LEN * |list| + dataSize;
      var pad := Padding(size);
      var hdr := BlockHeader(BTYPE_TMPLTS, 0, size + |pad|) + Le32(odid) + Le16(sid);
      var buffer := new Byte[size + |pad|](_ => 0);
      Store(buffer, 0, hdr);
      assert buffer[..][..TMPLTS_HDR_LEN] == hdr by { assert buffer[..][0..0 + |hdr|] == hdr; }
      var recPos := StoreRecords(buffer, list);
      NextRecord(buffer[..], recs, recPos, pad);
      Store(buffer, recPos, pad);
      block := buffer[..];
      assert block == block[..TMPLTS_HDR_LEN] + block[TMPLTS_HDR_LEN..];
      assert block == hdr + (recs + pad);
      WholeBlock(sid, odid, manager, hdr, recs, pad);
    }

    /** `load_from_file`: what was stored is replaced; on failure the outcome is what the loader runs into. */
    method LoadFromFile(file: Octets, off: nat) returns (b: Option<TmpltBlock>)
      modifies this
      ensures b == LoadTmplts(file, off)
      ensures b.Some? && b.value.load.Loaded? ==> Valid() && manager == b.value.load.tmplts
    {
      hide Parse, FromLe16, LoadTrecs, TmpltsAt;
      ids, manager := {}, map[];
      var content := TmpltsAt(file, off);
      if content.None? { return None; }
      var recs, pos := content.value.2, 0;
      assert recs[0..] == recs;
      while pos + TREC_HDR_LEN <= |recs|
        invariant pos <= |recs| && Valid()
        invariant LoadTrecs(recs[pos..], manager) == LoadTrecs(recs, map[])
      {
        TrecStep(recs, pos, manager);
        var recType, recSize := FromLe16(recs[pos..pos + 2]), FromLe16(recs[pos + 2..pos + 4]);
        if pos + recSize > |recs| { return Some(TmpltBlock(content.value.0, content.value.1, Refused)); }
        if recSize < TREC_HDR_LEN { return Some(TmpltBlock(content.value.0, content.value.1, Runaway)); }
        var st := Add(recType, recs[pos + TREC_HDR_LEN..pos + recSize]);
        if st != Ok { return Some(TmpltBlock(content.value.0, content.value.1, Refused)); }
        pos := pos + recSize;
      }
      NoTrec(recs[pos..], manager);
      return Some(TmpltBlock(content.value.0, content.value.1, Loaded(manager)));
    }
  }

  lemma NoTrec(s: Octets, acc: TmpltMap)
    requires |s| < TREC_HDR_LEN
    ensures LoadTrecs(s, acc) == Loaded(acc)
  {
  }

  /** The record at position `i`. */
  lemma TrecStep(recs: Octets, i: nat, acc: TmpltMap)
    requires i + TREC_HDR_LEN <= |recs|
    ensures
      var len := FromLe16(recs[i + 2..i + 4]);
      LoadTrecs(recs[i..], acc) ==
        if i + len > |recs| then Refused
        else if len < TREC_HDR_LEN then Runaway
        else
          match Parse(FromLe16(recs[i..i + 2]), recs[i + TREC_HDR_LEN..i + len])
          case None => Refused
          case Some(t) => LoadTrecs(recs[i + len..], acc[t.id as nat := t])
  {
    hide Parse, FromLe16;
    var s := recs[i..];
    assert recs[i..i + 2] == s[..2] && recs[i + 2..i + 4] == s[2..4];
    var len := FromLe16(s[2..4]);
    if TREC_HDR_LEN <= len <= |s| {
      assert recs[i + TREC_HDR_LEN..i + len] == s[4..len];
      assert recs[i + len..] == s[len..];
    }
  }

  /** Total size of the raw templates. */
  method SumRaw(list: seq<Template>) returns (dataSize: nat)
    ensures dataSize == RawTotal(list)
  {
    dataSize := 0;
    var i := 0;
    while i < |list|
      invariant 0 <= i <= |list| && dataSize == RawTotal(list[..i])
    {
      RawTotalPush(list[..i], list[i]);
      assert list[..i + 1] == list[..i] + [list[i]];
      dataSize := dataSize + |list[i].raw|;
      i := i + 1;
    }
    assert list[..|list|] == list;
  }

  /** One record behind the other, behind the header. */
  method StoreRecords(buffer: array<Byte>, list: seq<Template>) returns (recPos: nat)
    requires TMPLTS_HDR_LEN + |Concat(EncTrec, list)| <= buffer.Length
    modifies buffer
    ensures recPos == TMPLTS_HDR_LEN + |Concat(EncTrec, list)|
    ensures buffer[..][..TMPLTS_HDR_LEN] == old(buffer[..])[..TMPLTS_HDR_LEN]
    ensures buffer[..][TMPLTS_HDR_LEN..recPos] == Concat(EncTrec, list)
  {
    hide EncTrec, Le16, Splice, Concat;
    recPos := TMPLTS_HDR_LEN;
    var i := 0;
    NoRecord();
    while i < |list|
      invariant 0 <= i <= |list| && recPos == TMPLTS_HDR_LEN + |Concat(EncTrec, list[..i])| <= buffer.Length
      invariant buffer[..][..TMPLTS_HDR_LEN] == old(buffer[..])[..TMPLTS_HDR_LEN]
      invariant buffer[..][TMPLTS_HDR_LEN..recPos] == Concat(EncTrec, list[..i])
    {
      var t := list[i];
      var rec := Le16(t.ttype) + Le16(TREC_HDR_LEN + |t.raw|) + t.raw;
      IsTrec(t, rec);
      Room(list, i);
      NextTrec(list, i);
      NextRecord(buffer[..], Concat(EncTrec, list[..i]), recPos, rec);
      Store(buffer, recPos, rec);
      recPos := recPos + |rec|;
      i := i + 1;
    }
    assert list[..|list|] == list;
  }

  lemma NoRecord()
    ensures Concat(EncTrec, []) == []
  {
  }

  lemma NextTrec(list: seq<Template>, i: nat)
    requires i < |list|
    ensures Concat(EncTrec, list[..i + 1]) == Concat(EncTrec, list[..i]) + EncTrec(list[i])
  {
    assert list[..i + 1] == list[..i] + [list[i]];
    ConcatPush(EncTrec, list[..i], list[i]);
  }

  lemma Room(list: seq<Template>, i: nat)
    requires i < |list|
    ensures |Concat(EncTrec, list[..i])| + |EncTrec(list[i])| <= |Concat(EncTrec, list)|
  {
    NextTrec(list, i);
    ConcatAppend(EncTrec, list[..i + 1], list[i + 1..]);
    assert list == list[..i + 1] + list[i + 1..];
  }

  lemma IsTrec(t: Template, rec: Octets)
    requires rec == Le16(t.ttype) + Le16(TREC_HDR_LEN + |t.raw|) + t.raw
    ensures rec == EncTrec(t)
  {
  }

  lemma WholeBlock(sid: U16, odid: U32, m: TmpltMap, hdr: Octets, recs: Octets, pad: Octets)
    requires recs == EncTrecs(m) && pad == Padding(TMPLTS_HDR_LEN + |recs|)
    requires hdr == BlockHeader(BTYPE_TMPLTS, 0, TMPLTS_HDR_LEN + |recs + pad|) + Le32(odid) + Le16(sid)
    ensures hdr + (recs + pad) == EncTmplts(sid, odid, m)
  {
    hide Le16, Le32, BlockHeader, Padding, EncTrecs;
    var a, b, c, d := BlockHeader(BTYPE_TMPLTS, 0, TMPLTS_HDR_LEN + |recs + pad|), Le32(odid), Le16(sid), recs + pad;
    assert a + b + c + d == a + (b + c + d);
  }
}
