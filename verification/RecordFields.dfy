/** Access to the fields of a Data Record: search and iteration. */
module RecordFields {
  import opened Bytes
  import opened Templates

  const PADDING_IE := 210
  const PEN_FWD := 0
  const PEN_REV := 29305

  /** A field of a template, with what is known about its Information Element. */
  datatype FieldDef = FieldDef(f: Field, known: bool, reverse: bool)

  function Base(fs: seq<FieldDef>): (r: seq<Field>)
    ensures |r| == |fs|
  {
    if fs == [] then [] else [fs[0].f] + Base(fs[1..])
  }

  /** A field found in a record: its index, position and size. */
  datatype Item = Item(idx: nat, start: nat, size: nat, def: FieldDef)

  /** Length of the prefix that tells the size of the field at `off`; a field of fixed length has none. */
  function PrefixLen(s: Octets, f: Field, off: nat): nat
  {
    if f.length != VAR_IE_LEN then 0 else if off < |s| && s[off] != 255 then 1 else 3
  }

  function SizeAt(s: Octets, f: Field, off: nat): nat
    requires f.length == VAR_IE_LEN ==> off < |s| && (s[off] == 255 ==> off + 3 <= |s|)
  {
    if f.length != VAR_IE_LEN then f.length else if s[off] != 255 then s[off] else FromBe16(s[off + 1..off + 3])
  }

  /** The fields `fs` fit into `s` from `off` on. */
  predicate Holds(s: Octets, fs: seq<FieldDef>, off: nat)
  {
    var r := Walk(s, Base(fs), off);
    r.Some? && r.value <= |s|
  }

  lemma HoldsStep(s: Octets, fs: seq<FieldDef>, off: nat)
    requires fs != [] && Holds(s, fs, off)
    ensures fs[0].f.length == VAR_IE_LEN ==> off < |s| && (s[off] == 255 ==> off + 3 <= |s|)
    ensures
      var next := off + PrefixLen(s, fs[0].f, off) + SizeAt(s, fs[0].f, off);
      next <= |s| && Holds(s, fs[1..], next) && Walk(s, Base(fs[1..]), next) == Walk(s, Base(fs), off)
  {
    assert Base(fs)[0] == fs[0].f && Base(fs)[1..] == Base(fs[1..]);
    var next := off + PrefixLen(s, fs[0].f, off) + SizeAt(s, fs[0].f, off);
    assert Walk(s, Base(fs[1..]), next) == Walk(s, Base(fs), off);
  }

  /** All fields of the record, in order. */
  function Items(s: Octets, fs: seq<FieldDef>, idx: nat, off: nat): (items: seq<Item>)
    requires Holds(s, fs, off)
    ensures |items| == |fs|
    decreases |fs|
  {
    if fs == [] then []
    else
      HoldsStep(s, fs, off);
      var f := fs[0].f;
      var start := off + PrefixLen(s, f, off);
      [Item(idx, start, SizeAt(s, f, off), fs[0])] + Items(s, fs[1..], idx + 1, start + SizeAt(s, f, off))
  }

  /** Where the octets of item `k` begin, its length prefix included. */
  function Begin(items: seq<Item>, k: nat, off: nat): nat
    requires k <= |items|
  {
    if k == 0 then off else items[k - 1].start + items[k - 1].size
  }

  /** Fields and their length prefixes follow each other without gaps up to the end of the walk. */
  lemma {:induction false} ItemsTile(s: Octets, fs: seq<FieldDef>, idx: nat, off: nat, k: nat)
    requires Holds(s, fs, off) && k < |fs|
    ensures
      var items := Items(s, fs, idx, off);
      && items[k].idx == idx + k && items[k].def == fs[k]
      && items[k].start == Begin(items, k, off) + PrefixLen(s, fs[k].f, Begin(items, k, off))
      && items[k].start + items[k].size <= |s|
      && (fs[k].f.length != VAR_IE_LEN ==> items[k].size == fs[k].f.length)
    ensures Begin(Items(s, fs, idx, off), |fs|, off) == Walk(s, Base(fs), off).value
    decreases |fs|
  {
    HoldsStep(s, fs, off);
    var items := Items(s, fs, idx, off);
    var next := items[0].start + items[0].size;
    var more := Items(s, fs[1..], idx + 1, next);
    assert items == [items[0]] + more;
    if |fs| > 1 {
      ItemsTile(s, fs[1..], idx + 1, next, if k == 0 then 0 else k - 1);
      if k > 0 { assert Begin(items, k, off) == Begin(more, k - 1, next); }
      assert Begin(items, |fs|, off) == Begin(more, |fs| - 1, next);
    } else {
      assert fs[1..] == [];
    }
  }

  /** A record accepted with its exact size is tiled completely. */
  lemma AcceptedIsTiled(s: Octets, t: Template, fs: seq<FieldDef>)
    requires RecLen(s, t) == Some(|s|) && Base(fs) == t.fields
    ensures Holds(s, fs, 0) && Walk(s, Base(fs), 0) == Some(|s|)
    ensures Begin(Items(s, fs, 0, 0), |fs|, 0) == |s|
  {
    if !t.Dynamic() {
      StaticWalk(s, t.fields, 0);
    }
    if fs != [] { ItemsTile(s, fs, 0, 0, 0); }
  }

  // ----- search and iteration -----

  datatype Flags = Flags(paddingShow: bool, unknownSkip: bool, reverseSkip: bool)

  predicate Padding(d: FieldDef)
  {
    d.f.id == PADDING_IE && (d.f.en == PEN_FWD || d.f.en == PEN_REV)
  }

  /** Which fields the iterator shows. */
  predicate Shown(d: FieldDef, flags: Flags)
  {
    (flags.paddingShow || !Padding(d)) && !(flags.unknownSkip && !d.known) && !(flags.reverseSkip && d.reverse)
  }

  predicate Is(d: FieldDef, pen: U32, id: U16)
  {
    d.f.id == id && d.f.en == pen
  }

  /** The items that satisfy `p`, in order. */
  function Those(items: seq<Item>, p: FieldDef -> bool): seq<Item>
  {
    if items == [] then [] else (if p(items[0].def) then [items[0]] else []) + Those(items[1..], p)
  }

  /** Reading the length prefix: start and size of the field at `off`. */
  method ReadField(s: Octets, f: Field, off: nat) returns (start: nat, size: nat)
    requires f.length == VAR_IE_LEN ==> off < |s| && (s[off] == 255 ==> off + 3 <= |s|)
    ensures start == off + PrefixLen(s, f, off) && size == SizeAt(s, f, off)
  {
    start, size := off, f.length;
    if size == VAR_IE_LEN {
      size := s[start];
      start := start + 1;
      if size == 255 {
        size := FromBe16(s[start..start + 2]);
        start := start + 2;
      }
    }
  }

  /** `fds_drec_find`: the first field with the given ID. Its 16-bit offset never wraps. */
  method Find(s: Octets, fs: seq<FieldDef>, pen: U32, id: U16) returns (item: Option<Item>)
    requires Holds(s, fs, 0) && |s| <= 0xFFFF
    ensures
      var hits := Those(Items(s, fs, 0, 0), d => Is(d, pen, id));
      item == if hits == [] then None else Some(hits[0])
  {
    var offset: nat, idx: nat := 0, 0;
    assert fs[0..] == fs;
    ghost var p := d => Is(d, pen, id);
    while idx < |fs|
      invariant 0 <= idx <= |fs| && offset <= 0xFFFF && Holds(s, fs[idx..], offset)
      invariant Those(Items(s, fs[idx..], idx, offset), p) == Those(Items(s, fs, 0, 0), p)
    {
      ghost var rest := fs[idx..];
      assert rest[1..] == fs[idx + 1..];
      HoldsStep(s, rest, offset);
      ItemsFirst(s, rest, idx, offset, p);
      var start, size := ReadField(s, fs[idx].f, offset);
      if Is(fs[idx], pen, id) { return Some(Item(idx, start, size, fs[idx])); }
      assert start + size <= 0xFFFF;
      offset := start + size;
      idx := idx + 1;
    }
    return None;
  }

  lemma ItemsFirst(s: Octets, fs: seq<FieldDef>, idx: nat, off: nat, p: FieldDef -> bool)
    requires fs != [] && Holds(s, fs, off)
    ensures fs[0].f.length == VAR_IE_LEN ==> off < |s| && (s[off] == 255 ==> off + 3 <= |s|)
    ensures
      var start, size := off + PrefixLen(s, fs[0].f, off), SizeAt(s, fs[0].f, off);
      && Holds(s, fs[1..], start + size)
      && Those(Items(s, fs, idx, off), p) ==
           (if p(fs[0]) then [Item(idx, start, size, fs[0])] else [])
           + Those(Items(s, fs[1..], idx + 1, start + size), p)
  {
    HoldsStep(s, fs, off);
    var start, size := off + PrefixLen(s, fs[0].f, off), SizeAt(s, fs[0].f, off);
    assert Items(s, fs, idx, off)[1..] == Items(s, fs[1..], idx + 1, start + size);
  }

  /** `fds_drec_iter` over a record. */
  class RecordIterator {
    const s: Octets
    const fs: seq<FieldDef>
    const flags: Flags
    var nextOffset: nat
    var nextIdx: nat
    var field: Option<Item>

    predicate Valid()
      reads this
    {
      nextIdx <= |fs| && nextOffset <= |s| <= 0xFFFF && Holds(s, fs[nextIdx..], nextOffset)
    }

    /** The fields behind the current position. */
    ghost function Left(): seq<Item>
      requires Valid()
      reads this
    {
      Items(s, fs[nextIdx..], nextIdx, nextOffset)
    }

    /** `fds_drec_iter_init`: from the reverse point of view the reverse fields of a Biflow template are used. */
    constructor (s: Octets, fields: seq<FieldDef>, fieldsRev: seq<FieldDef>, biflow: bool, reverse: bool, flags: Flags)
      requires |s| <= 0xFFFF && Holds(s, fields, 0) && (biflow ==> Holds(s, fieldsRev, 0))
      ensures Valid() && this.s == s && this.flags == flags && fs == (if biflow && reverse then fieldsRev else fields)
      ensures Left() == Items(s, fs, 0, 0)
    {
      this.s, this.flags := s, flags;
      fs := if biflow && reverse then fieldsRev else fields;
      nextOffset, nextIdx, field := 0, 0, None;
      new;
      assert fs[0..] == fs;
    }

    /** `fds_drec_iter_rewind` */
    method Rewind()
      requires Holds(s, fs, 0) && |s| <= 0xFFFF
      modifies this`nextOffset, this`nextIdx
      ensures Valid() && Left() == Items(s, fs, 0, 0)
    {
      nextOffset, nextIdx := 0, 0;
      assert fs[0..] == fs;
    }

    /** Step over fields until one satisfies `p`. */
    method Advance(p: FieldDef -> bool) returns (found: bool)
      requires Valid()
      modifies this
      ensures Valid()
      ensures found ==> field.Some? && Those(old(Left()), p) == [field.value] + Those(Left(), p)
      ensures !found ==> Those(old(Left()), p) == [] && Left() == [] && field == old(field)
    {
      hide Items, Those, Holds;
      while nextIdx < |fs|
        invariant Valid() && field == old(field) && Those(Left(), p) == Those(old(Left()), p)
        decreases |fs| - nextIdx
      {
        ghost var rest := fs[nextIdx..];
        assert rest[1..] == fs[nextIdx + 1..];
        HoldsStep(s, rest, nextOffset);
        ItemsFirst(s, rest, nextIdx, nextOffset, p);
        var start, size := ReadField(s, fs[nextIdx].f, nextOffset);
        var def := fs[nextIdx];
        nextOffset := start + size;
        nextIdx := nextIdx + 1;
        if p(def) {
          field := Some(Item(nextIdx - 1, start, size, def));
          return true;
        }
      }
      NoItems(s, fs[nextIdx..], nextIdx, nextOffset, p);
      return false;
    }

    /** `fds_drec_iter_next`: the fields that the flags let through, in order, each once. */
    method Next() returns (found: bool)
      requires Valid()
      modifies this
      ensures Valid()
      ensures
        found ==>
          field.Some? && Those(old(Left()), d => Shown(d, flags)) == [field.value] + Those(Left(), d => Shown(d, flags))
      ensures !found ==> Those(old(Left()), d => Shown(d, flags)) == [] && Left() == []
    {
      found := Advance(d => Shown(d, flags));
    }

    /** `fds_drec_iter_find`: the next field with the given ID, whatever the flags. */
    method FindNext(pen: U32, id: U16) returns (found: bool)
      requires Valid()
      modifies this
      ensures Valid()
      ensures
        found ==>
          field.Some? && Those(old(Left()), d => Is(d, pen, id)) == [field.value] + Those(Left(), d => Is(d, pen, id))
      ensures !found ==> Those(old(Left()), d => Is(d, pen, id)) == [] && Left() == []
    {
      found := Advance(d => Is(d, pen, id));
    }
  }

  lemma NoItems(s: Octets, fs: seq<FieldDef>, idx: nat, off: nat, p: FieldDef -> bool)
    requires fs == [] && Holds(s, fs, off)
    ensures Items(s, fs, idx, off) == [] && Those(Items(s, fs, idx, off), p) == []
  {
  }

  /** With padding shown and nothing skipped, iteration shows every field. */
  lemma {:induction false} AllShown(items: seq<Item>)
    ensures Those(items, d => Shown(d, Flags(true, false, false))) == items
  {
    if items != [] {
      AllShown(items[1..]);
      assert items == [items[0]] + items[1..];
    }
  }
}
