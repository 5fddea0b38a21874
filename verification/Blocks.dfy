/** On-disk layout of the file blocks, and the loaders that read them back. */
module Blocks {
  import opened Bytes
  import opened Templates
  import opened Messages
  import opened DataBuffer

  const BHDR_LEN := 12
  const BTYPE_SESSION := 1
  const BTYPE_TMPLTS := 2
  const BTYPE_DATA := 3
  const BTYPE_TABLE := 4
  const CFLGS_COMP := 1
  const SESSION_LEN := 56
  const TMPLTS_HDR_LEN := 18
  const TREC_HDR_LEN := 4
  /** The longest raw template whose record length still fits its 16-bit field. */
  const MAX_RAW := 0xFFFF - TREC_HDR_LEN

  // ----- access to a file -----

  /** `read(2)`: at most `n` octets from offset `off`. */
  function ReadAt(file: Octets, off: nat, n: nat): (r: Octets)
    ensures |r| <= n
  {
    if off >= |file| then []
    else if off + n <= |file| then file[off..off + n]
    else file[off..]
  }

  lemma ReadPart(file: Octets, off: nat, b: Octets, n: nat)
    requires At(file, off, b) && n <= |b|
    ensures ReadAt(file, off, n) == b[..n]
  {
    assert file[off..off + n] == file[off..off + |b|][..n];
  }

  function BlockHeader(btype: nat, flags: nat, len: nat): (b: Octets)
    ensures |b| == BHDR_LEN
  {
    Le16(btype) + Le16(flags) + Le64(len)
  }

  lemma HeaderFields(btype: U16, flags: U16, len: U64, rest: Octets)
    ensures
      var b := BlockHeader(btype, flags, len) + rest;
      FromLe16(b[..2]) == btype && FromLe16(b[2..4]) == flags && FromLe64(b[4..12]) == len
  {
    var b := BlockHeader(btype, flags, len) + rest;
    assert b[..2] == Le16(btype) && b[2..4] == Le16(flags) && b[4..12] == Le64(len);
    Le16RoundTrip(btype);
    Le16RoundTrip(flags);
    Le64RoundTrip(len);
  }

  lemma ReadHeader(file: Octets, off: nat, btype: U16, flags: U16, len: U64, rest: Octets)
    requires At(file, off, BlockHeader(btype, flags, len) + rest)
    ensures
      var h := ReadAt(file, off, BHDR_LEN);
      |h| == BHDR_LEN && FromLe16(h[..2]) == btype && FromLe16(h[2..4]) == flags && FromLe64(h[4..12]) == len
  {
    var h := BlockHeader(btype, flags, len);
    ReadPart(file, off, h + rest, BHDR_LEN);
    assert (h + rest)[..BHDR_LEN] == h && h + [] == h;
    HeaderFields(btype, flags, len, []);
  }

  // ----- Session Block -----

  type Address = a: seq<Byte> | |a| == 16 witness seq(16, _ => 0)

  datatype Session = Session(ipSrc: Address, ipDst: Address, portSrc: U16, portDst: U16, proto: U16)

  /** `check_validity`: unknown, UDP, TCP or SCTP. */
  predicate ValidSession(s: Session)
  {
    s.proto <= 3
  }

  function EncSession(sid: U16, s: Session): (b: Octets)
    ensures |b| == SESSION_LEN
  {
    BlockHeader(BTYPE_SESSION, 0, SESSION_LEN) + Le32(0) + Le16(sid) + Le16(s.proto)
    + s.ipSrc + s.ipDst + Le16(s.portSrc) + Le16(s.portDst)
  }

  /** `Block_session::load_from_file`; a longer block of a later version is accepted too. */
  function LoadSession(file: Octets, off: nat): Option<(U16, Session)>
  {
    var b := ReadAt(file, off, SESSION_LEN);
    if |b| != SESSION_LEN || FromLe16(b[..2]) != BTYPE_SESSION || FromLe64(b[4..12]) < SESSION_LEN then None
    else
      var proto := FromLe16(b[18..20]);
      Some((FromLe16(b[16..18]),
            Session(b[20..36], b[36..52], FromLe16(b[52..54]), FromLe16(b[54..56]), if proto <= 3 then proto else 0)))
  }

  lemma SessionRoundTrip(file: Octets, off: nat, sid: U16, s: Session)
    requires ValidSession(s) && At(file, off, EncSession(sid, s))
    ensures LoadSession(file, off) == Some((sid, s))
  {
    var b := EncSession(sid, s);
    ReadPart(file, off, b, SESSION_LEN);
    assert b[..SESSION_LEN] == b;
    HeaderFields(BTYPE_SESSION, 0, SESSION_LEN, b[12..]);
    assert BlockHeader(BTYPE_SESSION, 0, SESSION_LEN) + b[12..] == b;
    assert b[16..18] == Le16(sid) && b[18..20] == Le16(s.proto) && b[20..36] == s.ipSrc && b[36..52] == s.ipDst
        && b[52..54] == Le16(s.portSrc) && b[54..56] == Le16(s.portDst);
    Le16RoundTrip(sid);
    Le16RoundTrip(s.proto);
    Le16RoundTrip(s.portSrc);
    Le16RoundTrip(s.portDst);
  }

  // ----- Template Block -----

  predicate Lower(s: set<nat>, m: nat)
  {
    forall k :: k in s ==> m <= k
  }

  lemma Least(s: set<nat>) returns (m: nat)
    requires s != {}
    ensures m in s && Lower(s, m)
  {
    var x :| x in s;
    var rest := s - {x};
    if rest == {} {
      m := x;
      assert s == {x};
    } else {
      var n := Least(rest);
      m := if n < x then n else x;
      forall k | k in s ensures m <= k { assert k == x || k in rest; }
    }
  }

  lemma HasLeast(s: set<nat>)
    requires s != {}
    ensures exists m :: m in s && Lower(s, m)
  {
    var m := Least(s);
  }

  function Min(s: set<nat>): (m: nat)
    requires s != {}
    ensures m in s && forall k :: k in s ==> m <= k
  {
    HasLeast(s);
    var m :| m in s && Lower(s, m);
    m
  }

  /** The members of `s` in ascending order, as a `std::set` or `std::map` is walked. */
  function Sorted(s: set<nat>): (r: seq<nat>)
    ensures |r| == |s| && forall k :: k in r <==> k in s
    ensures forall i, j :: 0 <= i < j < |r| ==> r[i] < r[j]
  {
    if s == {} then [] else [Min(s)] + Sorted(s - {Min(s)})
  }

  /** Every entry stands under its own ID, is what its raw definition parses to, and fits a record. */
  predicate TmpltsOk(m: TmpltMap)
  {
    forall id :: id in m ==> m[id].id == id && Parse(m[id].ttype, m[id].raw) == Some(m[id])
  }

  predicate RawsFit(m: TmpltMap)
  {
    forall id :: id in m ==> |m[id].raw| <= MAX_RAW
  }

  /** The templates of `m` by ascending ID. */
  function TmpltSeq(m: TmpltMap): (ts: seq<Template>)
  {
    var ids := Sorted(m.Keys);
    seq(|ids|, k requires 0 <= k < |ids| => assert ids[k] in ids; m[ids[k]])
  }

  function EncTrec(t: Template): (b: Octets)
    ensures |b| == TREC_HDR_LEN + |t.raw|
  {
    Le16(t.ttype) + Le16(TREC_HDR_LEN + |t.raw|) + t.raw
  }

  function EncTrecs(m: TmpltMap): Octets
  {
    Concat(EncTrec, TmpltSeq(m))
  }

  /** Zero to three octets that make the block a multiple of four octets long. */
  function Padding(n: nat): (p: Octets)
    ensures |p| < 4 && (n + |p|) % 4 == 0
  {
    if n % 4 == 0 then [] else seq(4 - n % 4, _ => 0)
  }

  /** All records and the padding behind them. */
  function TmpltsBody(m: TmpltMap): Octets
  {
    EncTrecs(m) + Padding(TMPLTS_HDR_LEN + |EncTrecs(m)|)
  }

  function TmpltsBlock(sid: U16, odid: U32, body: Octets): (b: Octets)
    ensures |b| == TMPLTS_HDR_LEN + |body|
  {
    BlockHeader(BTYPE_TMPLTS, 0, TMPLTS_HDR_LEN + |body|) + (Le32(odid) + Le16(sid) + body)
  }

  function EncTmplts(sid: U16, odid: U32, m: TmpltMap): Octets
  {
    TmpltsBlock(sid, odid, TmpltsBody(m))
  }

  /** Result of loading a Template Block. `Runaway`: a record shorter than its own header, at which the
      loader either never moves on or reads outside the block. */
  datatype TmpltLoad = Loaded(tmplts: TmpltMap) | Refused | Runaway

  /** The record loop of `Block_templates::load_from_file`. */
  function LoadTrecs(s: Octets, acc: TmpltMap): TmpltLoad
  {
    if |s| < TREC_HDR_LEN then Loaded(acc)
    else
      var len := FromLe16(s[2..4]);
      if len > |s| then Refused
      else if len < TREC_HDR_LEN then Runaway
      else
        match Parse(FromLe16(s[..2]), s[4..len])
        case None => Refused
        case Some(t) => LoadTrecs(s[len..], acc[t.id := t])
  }

  datatype TmpltBlock = TmpltBlock(sid: U16, odid: U32, load: TmpltLoad)

  /** Session, ODID and record octets of the Template Block at `off`. */
  function TmpltsAt(file: Octets, off: nat): Option<(U16, U32, Octets)>
  {
    var h := ReadAt(file, off, BHDR_LEN);
    if |h| != BHDR_LEN || FromLe16(h[..2]) != BTYPE_TMPLTS then None
    else
      var size := FromLe64(h[4..12]);
      var b := ReadAt(file, off, size);
      if size < TMPLTS_HDR_LEN || |b| != size then None
      else Some((FromLe16(b[16..18]), FromLe32(b[12..16]), b[18..]))
  }

  /** `Block_templates::load_from_file` */
  function LoadTmplts(file: Octets, off: nat): Option<TmpltBlock>
  {
    match TmpltsAt(file, off)
    case None => None
    case Some(p) => Some(TmpltBlock(p.0, p.1, LoadTrecs(p.2, map[])))
  }

  function AddAll(ts: seq<Template>, acc: TmpltMap): TmpltMap
  {
    if ts == [] then acc else AddAll(ts[1..], acc[ts[0].id := ts[0]])
  }

  lemma {:induction false} TrecsRoundTrip(ts: seq<Template>, pad: Octets, acc: TmpltMap)
    requires |pad| < TREC_HDR_LEN
    requires forall k :: 0 <= k < |ts| ==> Parse(ts[k].ttype, ts[k].raw) == Some(ts[k]) && |ts[k].raw| <= MAX_RAW
    ensures LoadTrecs(Concat(EncTrec, ts) + pad, acc) == Loaded(AddAll(ts, acc))
  {
    if ts != [] {
      var t, rest := ts[0], Concat(EncTrec, ts[1..]) + pad;
      var len := TREC_HDR_LEN + |t.raw|;
      var s := Le16(t.ttype) + Le16(len) + t.raw + rest;
      assert Concat(EncTrec, ts) + pad == s;
      assert s[..2] == Le16(t.ttype);
      assert s[2..4] == Le16(len);
      assert s[4..len] == t.raw && s[len..] == rest;
      Le16RoundTrip(t.ttype);
      Le16RoundTrip(len);
      TrecsRoundTrip(ts[1..], pad, acc[t.id := t]);
    }
  }

  /** An ID that no template carries keeps its entry. */
  lemma {:induction false} AddAllOther(ts: seq<Template>, acc: TmpltMap, id: nat)
    requires forall k :: 0 <= k < |ts| ==> ts[k].id != id
    ensures id in AddAll(ts, acc) <==> id in acc
    ensures id in acc ==> AddAll(ts, acc)[id] == acc[id]
  {
    if ts != [] {
      AddAllOther(ts[1..], acc[ts[0].id := ts[0]], id);
    }
  }

  lemma {:induction false} AddAllAt(ts: seq<Template>, acc: TmpltMap, k: nat)
    requires k < |ts| && forall i, j :: 0 <= i < j < |ts| ==> ts[i].id != ts[j].id
    ensures ts[k].id in AddAll(ts, acc) && AddAll(ts, acc)[ts[k].id] == ts[k]
  {
    if k == 0 {
      AddAllOther(ts[1..], acc[ts[0].id := ts[0]], ts[0].id);
    } else {
      AddAllAt(ts[1..], acc[ts[0].id := ts[0]], k - 1);
    }
  }

  lemma TmpltSeqAt(m: TmpltMap, k: nat)
    requires k < |TmpltSeq(m)|
    ensures |TmpltSeq(m)| == |Sorted(m.Keys)|
    ensures Sorted(m.Keys)[k] in m && TmpltSeq(m)[k] == m[Sorted(m.Keys)[k]]
  {
    assert Sorted(m.Keys)[k] in Sorted(m.Keys);
  }

  lemma TmpltSeqWhole(m: TmpltMap)
    requires forall id :: id in m ==> m[id].id == id
    ensures AddAll(TmpltSeq(m), map[]) == m
  {
    var ids, ts := Sorted(m.Keys), TmpltSeq(m);
    forall k | 0 <= k < |ts| ensures ts[k].id == ids[k] {
      TmpltSeqAt(m, k);
    }
    var r := AddAll(ts, map[]);
    forall id | id in m ensures id in r && r[id] == m[id] {
      assert id in ids;
      var k :| 0 <= k < |ids| && ids[k] == id;
      AddAllAt(ts, map[], k);
    }
    forall id | id !in m ensures id !in r {
      forall k | 0 <= k < |ts| ensures ts[k].id != id { TmpltSeqAt(m, k); }
      AddAllOther(ts, map[], id);
    }
  }

  lemma TmpltSeqParsed(m: TmpltMap)
    requires TmpltsOk(m) && RawsFit(m)
    ensures forall k :: 0 <= k < |TmpltSeq(m)| ==>
      var t := TmpltSeq(m)[k];
      Parse(t.ttype, t.raw) == Some(t) && |t.raw| <= MAX_RAW
  {
    forall k | 0 <= k < |TmpltSeq(m)| ensures TmpltSeq(m)[k] == m[Sorted(m.Keys)[k]] { TmpltSeqAt(m, k); }
  }

  lemma TmpltsHeader(file: Octets, off: nat, sid: U16, odid: U32, body: Octets)
    requires TMPLTS_HDR_LEN + |body| < 0x1_0000_0000_0000_0000 && At(file, off, TmpltsBlock(sid, odid, body))
    ensures TmpltsAt(file, off) == Some((sid, odid, body))
  {
    var b := TmpltsBlock(sid, odid, body);
    ReadHeader(file, off, BTYPE_TMPLTS, 0, |b|, Le32(odid) + Le16(sid) + body);
    ReadPart(file, off, b, |b|);
    assert b[..|b|] == b;
    assert b[12..16] == Le32(odid) && b[16..18] == Le16(sid) && b[18..] == body;
    Le32RoundTrip(odid);
    Le16RoundTrip(sid);
  }

  /** Loading a written Template Block gives back the same templates, whatever padding follows them. */
  lemma TmpltsRoundTrip(file: Octets, off: nat, sid: U16, odid: U32, m: TmpltMap)
    requires TmpltsOk(m) && RawsFit(m) && |EncTmplts(sid, odid, m)| < 0x1_0000_0000_0000_0000
    requires At(file, off, EncTmplts(sid, odid, m))
    ensures LoadTmplts(file, off) == Some(TmpltBlock(sid, odid, Loaded(m)))
  {
    TmpltsHeader(file, off, sid, odid, TmpltsBody(m));
    TmpltSeqParsed(m);
    TrecsRoundTrip(TmpltSeq(m), Padding(TMPLTS_HDR_LEN + |EncTrecs(m)|), map[]);
    TmpltSeqWhole(m);
  }

  /** Raw definitions come with a length of two octets. */
  predicate RawsShort(m: TmpltMap)
  {
    forall id :: id in m ==> |m[id].raw| <= 0xFFFF
  }

  lemma WrappedLength(n: nat)
    requires 0x1_0000 <= n < 0x1_0000 + TREC_HDR_LEN
    ensures FromLe16(Le16(n)) < TREC_HDR_LEN
  {
    assert n / 0x100 == 0x100 && n % 0x100 == n - 0x1_0000;
  }

  /** The record loop never gets over a record that is too long. */
  lemma {:induction false} TrecsRunAway(ts: seq<Template>, pad: Octets, acc: TmpltMap)
    requires forall k :: 0 <= k < |ts| ==> Parse(ts[k].ttype, ts[k].raw) == Some(ts[k]) && |ts[k].raw| <= 0xFFFF
    requires exists k :: 0 <= k < |ts| && |ts[k].raw| > MAX_RAW
    ensures LoadTrecs(Concat(EncTrec, ts) + pad, acc) == Runaway
  {
    hide Le16, FromLe16, Parse;
    var t, rest := ts[0], Concat(EncTrec, ts[1..]) + pad;
    var len := TREC_HDR_LEN + |t.raw|;
    var s := Le16(t.ttype) + Le16(len) + t.raw + rest;
    assert Concat(EncTrec, ts) + pad == s;
    assert s[..2] == Le16(t.ttype) && s[2..4] == Le16(len);
    if |t.raw| > MAX_RAW {
      WrappedLength(len);
    } else {
      assert s[4..len] == t.raw && s[len..] == rest;
      ParsedType(t);
      Le16RoundTrip(t.ttype);
      Le16RoundTrip(len);
      TrecsRunAway(ts[1..], pad, acc[t.id := t]);
    }
  }

  lemma ParsedType(t: Template)
    requires Parse(t.ttype, t.raw) == Some(t)
    ensures t.ttype <= TYPE_TEMPLATE_OPTS
  {
    hide ParseFields;
  }

  lemma AllShort(m: TmpltMap)
    requires TmpltsOk(m) && RawsShort(m)
    ensures forall k :: 0 <= k < |TmpltSeq(m)| ==>
      var t := TmpltSeq(m)[k];
      Parse(t.ttype, t.raw) == Some(t) && |t.raw| <= 0xFFFF
  {
    hide Parse, Sorted;
    forall k | 0 <= k < |TmpltSeq(m)|
      ensures Sorted(m.Keys)[k] in m && TmpltSeq(m)[k] == m[Sorted(m.Keys)[k]]
    {
      TmpltSeqAt(m, k);
    }
  }

  lemma TooLongIsThere(m: TmpltMap)
    requires !RawsFit(m)
    ensures exists k :: 0 <= k < |TmpltSeq(m)| && |TmpltSeq(m)[k].raw| > MAX_RAW
  {
    hide Sorted;
    var ids := Sorted(m.Keys);
    var id :| id in m && |m[id].raw| > MAX_RAW;
    assert id in ids;
    var k :| 0 <= k < |ids| && ids[k] == id;
    assert TmpltSeq(m)[k] == m[id];
  }

  /** A written Template Block is loaded again, as the same templates, if and only if no raw definition is longer
      than `MAX_RAW`: the record length of a longer one wraps to 0 to 3. */
  lemma TmpltsRoundTripExactly(file: Octets, off: nat, sid: U16, odid: U32, m: TmpltMap)
    requires TmpltsOk(m) && RawsShort(m) && |EncTmplts(sid, odid, m)| < 0x1_0000_0000_0000_0000
    requires At(file, off, EncTmplts(sid, odid, m))
    ensures LoadTmplts(file, off) == Some(TmpltBlock(sid, odid, if RawsFit(m) then Loaded(m) else Runaway))
    ensures LoadTmplts(file, off) == Some(TmpltBlock(sid, odid, Loaded(m))) <==> RawsFit(m)
  {
    hide TmpltsOk, RawsShort, RawsFit, Concat, TmpltSeq, At, TmpltsAt, LoadTrecs;
    if RawsFit(m) {
      TmpltsRoundTrip(file, off, sid, odid, m);
    } else {
      TmpltsHeader(file, off, sid, odid, TmpltsBody(m));
      AllShort(m);
      TooLongIsThere(m);
      TrecsRunAway(TmpltSeq(m), Padding(TMPLTS_HDR_LEN + |EncTrecs(m)|), map[]);
    }
  }

  // ----- a definition that is accepted and too long -----

  /** `n` fields of one octet each. */
  function ShortFields(n: nat): (r: Octets)
    ensures |r| == 4 * n
  {
    if n == 0 then [] else [0, 1, 0, 1] + ShortFields(n - 1)
  }

  lemma {:induction false} ShortFieldsParse(n: nat)
    ensures ParseFields(ShortFields(n), n).Some?
    ensures
      var p := ParseFields(ShortFields(n), n).value;
      p.1 == [] && MinLength(p.0) == n
  {
    if n > 0 {
      var s := ShortFields(n);
      assert s[..2] == [0, 1] && s[2..4] == [0, 1] && s[4..] == ShortFields(n - 1);
      ShortFieldsParse(n - 1);
    }
  }

  /** A template of 16382 fields, whose definition has 65532 octets, is accepted. */
  lemma TooLongIsAccepted() returns (t: Template)
    ensures Parse(TYPE_TEMPLATE, t.raw) == Some(t) && MAX_RAW < |t.raw| <= 0xFFFF
  {
    hide ParseFields, MinLength, ShortFields;
    var n := 0x3FFE;
    var raw := [1, 0, 0x3F, 0xFE] + ShortFields(n);
    assert raw[..2] == [1, 0] && raw[2..4] == [0x3F, 0xFE] && raw[4..] == ShortFields(n);
    ShortFieldsParse(n);
    t := Parse(TYPE_TEMPLATE, raw).value;
  }
}
