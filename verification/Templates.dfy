/** IPFIX (Options) Templates: parsing of a raw definition and the length of a Data Record. */
module Templates {
  import opened Bytes

  /** Field length that marks a variable-length Information Element (RFC 7011, section 7). */
  const VAR_IE_LEN: U16 := 0xFFFF
  const MIN_DSET_ID := 256
  const TYPE_TEMPLATE := 0
  const TYPE_TEMPLATE_OPTS := 1
  /** The longest Data Record that fits into a Message with one Set. */
  const MAX_REC_SIZE := 0xFFFF - 16 - 4

  datatype Field = Field(en: U32, id: U16, length: U16)

  datatype Template = Template(ttype: U16, id: U16, fields: seq<Field>, raw: Octets)
  {
    /** Length of a static record, or the least length of a dynamic one (`data_length`). */
    function DataLength(): nat { MinLength(fields) }

    /** The flag `FDS_TEMPLATE_DYNAMIC`. */
    predicate Dynamic() { exists k :: 0 <= k < |fields| && fields[k].length == VAR_IE_LEN }
  }

  function MinLength(fs: seq<Field>): nat
  {
    if fs == [] then 0
    else (if fs[0].length == VAR_IE_LEN then 1 else fs[0].length) + MinLength(fs[1..])
  }

  /** `n` Field Specifiers from the front of `s`, and the octets behind them. */
  function ParseFields(s: Octets, n: nat): (r: Option<(seq<Field>, Octets)>)
    ensures r.Some? ==> |r.value.0| == n && |r.value.1| + 4 * n <= |s|
  {
    if n == 0 then Some(([], s))
    else if |s| < 4 then None
    else
      var id, len := FromBe16(s[..2]), FromBe16(s[2..4]);
      if id < 0x8000 then
        match ParseFields(s[4..], n - 1)
        case None => None
        case Some(p) => Some(([Field(0, id, len)] + p.0, p.1))
      else if |s| < 8 then None
      else
        match ParseFields(s[8..], n - 1)
        case None => None
        case Some(p) => Some(([Field(FromBe32(s[4..8]), id - 0x8000, len)] + p.0, p.1))
  }

  /** What `Block_templates::add` accepts: a complete definition with at least one field. */
  function Parse(ttype: U16, raw: Octets): (r: Option<Template>)
    ensures r.Some? ==>
      && r.value.ttype == ttype && r.value.raw == raw
      && 4 <= |raw| && r.value.id == FromBe16(raw[..2]) && MIN_DSET_ID <= r.value.id
      && r.value.fields != [] && r.value.DataLength() <= MAX_REC_SIZE
  {
    if ttype != TYPE_TEMPLATE && ttype != TYPE_TEMPLATE_OPTS then None
    else if |raw| < 4 then None
    else
      var id, count := FromBe16(raw[..2]), FromBe16(raw[2..4]);
      if id < MIN_DSET_ID || count == 0 then None  // withdrawals are refused
      else if ttype == TYPE_TEMPLATE_OPTS && (|raw| < 6 || !(0 < FromBe16(raw[4..6]) <= count)) then None
      else
        match ParseFields(raw[if ttype == TYPE_TEMPLATE_OPTS then 6 else 4..], count)
        case None => None
        case Some(p) =>
          if p.1 != [] || MinLength(p.0) > MAX_REC_SIZE then None
          else Some(Template(ttype, id, p.0, raw))
  }

  /** Offset behind the fields `fs` that start at offset `off` of `s`; a length prefix must lie inside `s`. */
  function Walk(s: Octets, fs: seq<Field>, off: nat): (r: Option<nat>)
    ensures r.Some? ==> off + MinLength(fs) <= r.value
    decreases |fs|
  {
    if fs == [] then Some(off)
    else if fs[0].length != VAR_IE_LEN then Walk(s, fs[1..], off + fs[0].length)
    else if off + 1 > |s| then None
    else if s[off] != 255 then Walk(s, fs[1..], off + 1 + s[off])
    else if off + 3 > |s| then None
    else Walk(s, fs[1..], off + 3 + FromBe16(s[off + 1..off + 3]))
  }

  /** Length of the Data Record at the front of `s`; `None` when it does not fit. */
  function RecLen(s: Octets, t: Template): (r: Option<nat>)
    ensures r.Some? ==> r.value <= |s|
  {
    if !t.Dynamic() then
      if t.DataLength() > |s| then None else Some(t.DataLength())
    else
      match Walk(s, t.fields, 0)
      case None => None
      case Some(n) => if n <= |s| then Some(n) else None
  }

  /** `Block_data_writer::rec_length`: the same length by one pass over the fields. */
  method RecLength(data: Octets, t: Template) returns (size: Option<nat>)
    ensures size == RecLen(data, t)
  {
    if !t.Dynamic() {
      return if t.DataLength() > |data| then None else Some(t.DataLength());
    }
    var realSize: nat, idx: nat := 0, 0;
    while idx < |t.fields|
      invariant 0 <= idx <= |t.fields|
      invariant Walk(data, t.fields[idx..], realSize) == Walk(data, t.fields, 0)
    {
      assert t.fields[idx..][1..] == t.fields[idx + 1..];
      var fieldSize := t.fields[idx].length;
      if fieldSize != VAR_IE_LEN {
        realSize := realSize + fieldSize;
      } else {
        if realSize + 1 > |data| { return None; }
        fieldSize := data[realSize];
        realSize := realSize + 1;
        if fieldSize != 255 {
          realSize := realSize + fieldSize;
        } else {
          if realSize + 2 > |data| { return None; }
          realSize := realSize + 2 + FromBe16(data[realSize..realSize + 2]);
        }
      }
      idx := idx + 1;
    }
    return if realSize > |data| then None else Some(realSize);
  }

  /** Octets behind the end of a record do not change how it is walked. */
  lemma {:induction false} WalkPrefix(s: Octets, rest: Octets, fs: seq<Field>, off: nat)
    requires Walk(s, fs, off).Some? && Walk(s, fs, off).value <= |s|
    ensures Walk(s + rest, fs, off) == Walk(s, fs, off)
    decreases |fs|
  {
    if fs == [] {
    } else if fs[0].length != VAR_IE_LEN {
      WalkPrefix(s, rest, fs[1..], off + fs[0].length);
    } else if s[off] != 255 {
      WalkPrefix(s, rest, fs[1..], off + 1 + s[off]);
    } else {
      assert (s + rest)[off + 1..off + 3] == s[off + 1..off + 3];
      WalkPrefix(s, rest, fs[1..], off + 3 + FromBe16(s[off + 1..off + 3]));
    }
  }

  lemma {:induction false} StaticWalk(s: Octets, fs: seq<Field>, off: nat)
    requires forall k :: 0 <= k < |fs| ==> fs[k].length != VAR_IE_LEN
    ensures Walk(s, fs, off) == Some(off + MinLength(fs))
    decreases |fs|
  {
    if fs != [] {
      StaticWalk(s, fs[1..], off + fs[0].length);
    }
  }

  /** A record accepted with its exact size is found again, with the same size, in front of any octets. */
  lemma RecLenPrefix(data: Octets, rest: Octets, t: Template)
    requires RecLen(data, t) == Some(|data|)
    ensures RecLen(data + rest, t) == Some(|data|)
    ensures t.DataLength() <= |data|
  {
    if t.Dynamic() {
      WalkPrefix(data, rest, t.fields, 0);
    }
  }
}
