/** Data Blocks on disk: an uncompressed header and, behind it, the Messages, packed or not. */
module DataBlock {
  import opened Bytes
  import opened Templates
  import opened Messages
  import opened DataBuffer
  import opened Blocks

  const ALG_NONE := 0
  const ALG_LZ4 := 1
  const ALG_ZSTD := 2

  /** The compression algorithm of a file (`fds_file_alg`), as a pair of functions with a size bound. */
  datatype Codec = Plain | Packed(alg: Byte, pack: Octets -> Octets, unpack: Octets -> Option<Octets>, bound: nat)

  /** What is taken from LZ4 and ZSTD: unpacking undoes packing, within the documented size bound. */
  ghost predicate CodecOk(c: Codec)
  {
    c.Packed? ==>
      && (c.alg == ALG_LZ4 || c.alg == ALG_ZSTD) && c.bound < 0x1_0000_0000
      && forall x :: x != [] && |x| <= CAPACITY ==> 0 < |c.pack(x)| <= c.bound && c.unpack(c.pack(x)) == Some(x)
  }

  /** Size of the buffers of a Data Block reader (`m_alloc`). */
  function ReadAlloc(c: Codec): nat
  {
    BDATA_HDR_LEN + BHDR_LEN + if c.Plain? then CAPACITY else c.bound
  }

  function Stored(c: Codec, content: Octets): Octets
  {
    if c.Plain? then content else c.pack(content)
  }

  function DataHeader(c: Codec, len: nat, sid: U16, odid: U32, toff: nat): (b: Octets)
    ensures |b| == BDATA_HDR_LEN
  {
    BlockHeader(BTYPE_DATA, StoredFlags(c), len) + (Le16(0) + Le16(sid) + Le32(odid) + Le64(toff))
  }

  /** `Block_data_writer::write_to_file`: the octets of the block. */
  function EncData(c: Codec, sid: U16, odid: U32, toff: nat, content: Octets): (b: Octets)
    ensures |b| == BDATA_HDR_LEN + |Stored(c, content)|
  {
    DataHeader(c, BDATA_HDR_LEN + |Stored(c, content)|, sid, odid, toff) + Stored(c, content)
  }

  /** The fields of a Data Block header. */
  datatype Header = Header(btype: U16, flags: U16, size: U64, sid: U16, odid: U32, toff: U64)

  function HeaderOf(b: Octets): Header
    requires BDATA_HDR_LEN <= |b|
  {
    Header(FromLe16(b[..2]), FromLe16(b[2..4]), FromLe64(b[4..12]),
           FromLe16(b[14..16]), FromLe32(b[16..20]), FromLe64(b[20..28]))
  }

  /** A loaded Data Block: header fields and the unpacked Messages. */
  datatype Data = Data(sid: U16, odid: U32, toff: nat, content: Octets)

  /** Size of the Data Block to read: the hint or, without one, what the block header says. */
  function SizeToLoad(file: Octets, off: nat, hint: nat): Option<nat>
  {
    if hint != 0 then Some(hint)
    else
      var h := ReadAt(file, off, BDATA_HDR_LEN);
      if |h| != BDATA_HDR_LEN || FromLe16(h[..2]) != BTYPE_DATA then None else Some(FromLe64(h[4..12]))
  }

  /** `load_from_file`: the size asked for and the octets that the request delivers. */
  function Request(c: Codec, file: Octets, off: nat, hint: nat): Option<(Octets, nat)>
  {
    if hint > ReadAlloc(c) then None
    else
      match SizeToLoad(file, off, hint)
      case None => None
      case Some(size) =>
        if size + BHDR_LEN > ReadAlloc(c) then None
        else Some((ReadAt(file, off, size + BHDR_LEN), size))
  }

  /** `load_from_file`, then `data_loader`. */
  function LoadData(c: Codec, file: Octets, off: nat, hint: nat): Option<Data>
  {
    match Request(c, file, off, hint)
    case None => None
    case Some(r) => Loader(c, r.0, r.1)
  }

  /** `data_loader` on the octets that were read; behind the last block the next header is missing. */
  function Loader(c: Codec, b: Octets, hint: nat): Option<Data>
  {
    if (|b| != hint + BHDR_LEN && |b| != hint) || |b| < BDATA_HDR_LEN then None
    else
      var h := HeaderOf(b);
      if h.btype != BTYPE_DATA || h.size < BDATA_HDR_LEN || (|b| != h.size && |b| != h.size + BHDR_LEN) then None
      else
        match Unstored(c, h.flags, b[BDATA_HDR_LEN..h.size])
        case None => None
        case Some(x) => Some(Data(h.sid, h.odid, h.toff, x))
  }

  function Unstored(c: Codec, flags: U16, body: Octets): Option<Octets>
  {
    if flags % 2 == 0 then Some(body) else if c.Plain? then None else c.unpack(body)
  }

  function StoredFlags(c: Codec): U16
  {
    if c.Plain? then 0 else CFLGS_COMP
  }

  lemma DataHeaderFields(c: Codec, len: U64, sid: U16, odid: U32, toff: U64)
    ensures HeaderOf(DataHeader(c, len, sid, odid, toff)) == Header(BTYPE_DATA, StoredFlags(c), len, sid, odid, toff)
  {
    var tail := Le16(0) + Le16(sid) + Le32(odid) + Le64(toff);
    var b := DataHeader(c, len, sid, odid, toff);
    HeaderFields(BTYPE_DATA, StoredFlags(c), len, tail);
    assert b[14..16] == Le16(sid);
    assert b[16..20] == Le32(odid);
    assert b[20..28] == Le64(toff);
    Le16RoundTrip(sid);
    Le32RoundTrip(odid);
    Le64RoundTrip(toff);
  }

  lemma HeaderPrefix(hdr: Octets, rest: Octets)
    requires |hdr| == BDATA_HDR_LEN
    ensures HeaderOf(hdr + rest) == HeaderOf(hdr)
  {
    var b := hdr + rest;
    assert b[..2] == hdr[..2] && b[2..4] == hdr[2..4] && b[4..12] == hdr[4..12];
    assert b[14..16] == hdr[14..16] && b[16..20] == hdr[16..20] && b[20..28] == hdr[20..28];
  }

  lemma LoaderRoundTrip(c: Codec, hdr: Octets, h: Header, st: Octets, content: Octets, next: Octets)
    requires |hdr| == BDATA_HDR_LEN && HeaderOf(hdr) == h && h.btype == BTYPE_DATA && h.size == |hdr| + |st|
    requires Unstored(c, h.flags, st) == Some(content)
    requires |next| == 0 || |next| == BHDR_LEN
    ensures Loader(c, hdr + st + next, h.size) == Some(Data(h.sid, h.odid, h.toff, content))
  {
    var r := hdr + st + next;
    HeaderPrefix(hdr, st + next);
    assert r == hdr + (st + next);
    assert r[BDATA_HDR_LEN..h.size] == st;
  }

  /** A written Data Block is loaded with its own size as hint, whether it is the last one of the file or
      another block header follows it. */
  lemma DataRoundTrip(c: Codec, file: Octets, off: nat, sid: U16, odid: U32, toff: U64, content: Octets)
    requires CodecOk(c) && content != [] && |content| <= CAPACITY
    requires
      var b := EncData(c, sid, odid, toff, content);
      At(file, off, b) && (|file| == off + |b| || off + |b| + BHDR_LEN <= |file|)
    ensures
      LoadData(c, file, off, |EncData(c, sid, odid, toff, content)|) == Some(Data(sid, odid, toff, content))
  {
    var st := Stored(c, content);
    var len := BDATA_HDR_LEN + |st|;
    var hdr := DataHeader(c, len, sid, odid, toff);
    DataHeaderFields(c, len, sid, odid, toff);
    DataAt(c, file, off, hdr, HeaderOf(hdr), st, content);
  }

  lemma DataAt(c: Codec, file: Octets, off: nat, hdr: Octets, h: Header, st: Octets, content: Octets)
    requires |hdr| == BDATA_HDR_LEN && HeaderOf(hdr) == h && h.btype == BTYPE_DATA && h.size == |hdr| + |st|
    requires Unstored(c, h.flags, st) == Some(content) && h.size + BHDR_LEN <= ReadAlloc(c)
    requires At(file, off, hdr + st) && (|file| == off + h.size || off + h.size + BHDR_LEN <= |file|)
    ensures LoadData(c, file, off, h.size) == Some(Data(h.sid, h.odid, h.toff, content))
  {
    var end := off + h.size;
    var next := file[end..if |file| == end then end else end + BHDR_LEN];
    assert ReadAt(file, off, h.size + BHDR_LEN) == hdr + st + next;
    LoaderRoundTrip(c, hdr, h, st, content, next);
  }
}
