/** Templates and Data Records as they are laid out (sections 3.2, 3.4 and 7 of RFC 7011), and what is made of them. */
module Definitions {
  import opened Bytes
  import opened Templates
  import opened RecordFields

  // ----- definitions of templates -----

  /** A Field Specifier; the long form has an Enterprise Number behind an ID with its top bit. */
  datatype Spec = Short(id: nat, length: U16) | Long(id: nat, length: U16, en: U32)

  predicate SpecsOk(sps: seq<Spec>)
  {
    forall k :: 0 <= k < |sps| ==> sps[k].id < 0x8000
  }

  function SpecOctets(sp: Spec): Octets
    requires sp.id < 0x8000
  {
    match sp
    case Short(id, length) => [id / 256, id % 256, length / 256, length % 256]
    case Long(id, length, en) =>
      [128 + id / 256, id % 256, length / 256, length % 256,
       en / 16777216, en / 65536 % 256, en / 256 % 256, en % 256]
  }

  function AllSpecs(sps: seq<Spec>): (b: Octets)
    requires SpecsOk(sps)
    ensures |b| >= 4 * |sps|
  {
    if sps == [] then [] else SpecOctets(sps[0]) + AllSpecs(sps[1..])
  }

  function FieldFor(sp: Spec): Field
    requires sp.id < 0x8000
  {
    match sp
    case Short(id, length) => Field(0, id, length)
    case Long(id, length, en) => Field(en, id, length)
  }

  function FieldsFor(sps: seq<Spec>): (fs: seq<Field>)
    requires SpecsOk(sps)
    ensures |fs| == |sps|
  {
    seq(|sps|, k requires 0 <= k < |sps| => FieldFor(sps[k]))
  }

  /** Length of the shortest record: a field of variable length (65535) has at least its prefix of one octet. */
  function Least(sps: seq<Spec>): nat
  {
    if sps == [] then 0 else (if sps[0].length == 65535 then 1 else sps[0].length) + Least(sps[1..])
  }

  lemma Digits32(a: nat, b: nat, c: nat, d: nat, n: U32)
    requires a == n / 16777216 && b == n / 65536 % 256 && c == n / 256 % 256 && d == n % 256
    ensures (a * 256 + b) * 65536 + (c * 256 + d) == n
  {
    var high, low := n / 65536, n % 65536;
    assert high / 256 == a && high == high / 256 * 256 + b;
    assert low / 256 == c && low == low / 256 * 256 + d;
  }

  lemma OneSpec(sp: Spec, rest: Octets)
    requires sp.id < 0x8000
    ensures
      var s := SpecOctets(sp) + rest;
      && FromBe16(s[2..4]) == sp.length && FromBe16(s[..2]) == (if sp.Long? then 0x8000 + sp.id else sp.id)
      && (sp.Short? ==> s[4..] == rest)
      && (sp.Long? ==> |s| >= 8 && FromBe32(s[4..8]) == sp.en && s[8..] == rest)
  {
    var s := SpecOctets(sp) + rest;
    if sp.Long? {
      assert s[4..8][..2] == [s[4], s[5]] && s[4..8][2..] == [s[6], s[7]];
      Digits32(s[4], s[5], s[6], s[7], sp.en);
    }
  }

  /** The fields come out as they were put down, in their order, and what follows them is left. */
  lemma {:induction false} FieldsAreRead(sps: seq<Spec>, rest: Octets)
    requires SpecsOk(sps)
    ensures ParseFields(AllSpecs(sps) + rest, |sps|) == Some((FieldsFor(sps), rest))
    decreases |sps|
  {
    if sps == [] {
      assert AllSpecs(sps) + rest == rest;
    } else {
      var more := AllSpecs(sps[1..]) + rest;
      assert AllSpecs(sps) + rest == SpecOctets(sps[0]) + more;
      hide SpecOctets, FromBe16, FromBe32;
      OneSpec(sps[0], more);
      FieldsAreRead(sps[1..], rest);
      assert FieldsFor(sps) == [FieldFor(sps[0])] + FieldsFor(sps[1..]);
    }
  }

  lemma Joined(s: Octets, sp: Spec, more: seq<Spec>, size: nat, rest: Octets)
    requires sp.id < 0x8000 && SpecsOk(more) && size <= |s|
    requires s[..size] == SpecOctets(sp) && s[size..] == AllSpecs(more) + rest
    ensures s == AllSpecs([sp] + more) + rest
    ensures FieldsFor([sp] + more) == [FieldFor(sp)] + FieldsFor(more)
  {
    hide SpecOctets, FieldFor;
    assert ([sp] + more)[1..] == more;
    assert s == s[..size] + s[size..];
  }

  /** Nothing else is read as fields. */
  lemma {:induction false} ReadAreFields(s: Octets, n: nat) returns (sps: seq<Spec>)
    requires ParseFields(s, n).Some?
    ensures |sps| == n && SpecsOk(sps) && ParseFields(s, n).value.0 == FieldsFor(sps)
    ensures s == AllSpecs(sps) + ParseFields(s, n).value.1
    decreases n
  {
    hide SpecOctets, FieldFor, FromBe16, FromBe32;
    if n == 0 {
      sps := [];
    } else {
      var id, length := FromBe16(s[..2]), FromBe16(s[2..4]);
      var sp := if id < 0x8000 then Short(id, length) else Long(id - 0x8000, length, FromBe32(s[4..8]));
      var size := if id < 0x8000 then 4 else 8;
      FrontIsSpec(s, sp, size);
      var more := ReadAreFields(s[size..], n - 1);
      sps := [sp] + more;
      Joined(s, sp, more, size, ParseFields(s[size..], n - 1).value.1);
    }
  }

  lemma FrontIsSpec(s: Octets, sp: Spec, size: nat)
    requires |s| >= 4 && (FromBe16(s[..2]) >= 0x8000 ==> |s| >= 8)
    requires size == if FromBe16(s[..2]) < 0x8000 then 4 else 8
    requires sp == if size == 4 then Short(FromBe16(s[..2]), FromBe16(s[2..4]))
                   else Long(FromBe16(s[..2]) - 0x8000, FromBe16(s[2..4]), FromBe32(s[4..8]))
    ensures sp.id < 0x8000 && s[..size] == SpecOctets(sp)
    ensures FieldFor(sp) == Field(if size == 8 then FromBe32(s[4..8]) else 0, sp.id, sp.length)
  {
    assert s[..2] == [s[0], s[1]] && s[2..4] == [s[2], s[3]];
    if size == 8 {
      assert s[4..8][..2] == [s[4], s[5]] && s[4..8][2..] == [s[6], s[7]];
      assert sp.en == (s[4] as int * 256 + s[5]) * 65536 + (s[6] as int * 256 + s[7]);
      Digits(s[4], s[5], s[6], s[7], sp.en);
    }
  }

  lemma Digits(a: Byte, b: Byte, c: Byte, d: Byte, n: U32)
    requires n == (a as int * 256 + b) * 65536 + (c as int * 256 + d)
    ensures a == n / 16777216 && b == n / 65536 % 256 && c == n / 256 % 256 && d == n % 256
  {
    assert n == a as int * 16777216 + (b as int * 65536 + c as int * 256 + d);
    assert n / 65536 == a as int * 256 + b;
    assert n / 256 == a as int * 65536 + b as int * 256 + c;
  }

  /** A definition: ID, number of fields, for an Options Template (type 1) the number of scope fields, and the
      fields. */
  function DefOctets(ttype: U16, id: U16, scope: U16, sps: seq<Spec>): Octets
    requires SpecsOk(sps) && |sps| <= 65535
  {
    [id / 256, id % 256, |sps| / 256, |sps| % 256]
    + (if ttype == 1 then [scope / 256, scope % 256] else [])
    + AllSpecs(sps)
  }

  lemma {:induction false} LeastIsMin(sps: seq<Spec>)
    requires SpecsOk(sps)
    ensures MinLength(FieldsFor(sps)) == Least(sps)
    decreases |sps|
  {
    if sps != [] {
      LeastIsMin(sps[1..]);
      assert FieldsFor(sps)[1..] == FieldsFor(sps[1..]);
    }
  }

  lemma DefParts(ttype: U16, id: U16, scope: U16, sps: seq<Spec>)
    requires SpecsOk(sps) && |sps| <= 65535
    ensures
      var raw, head := DefOctets(ttype, id, scope, sps), if ttype == 1 then 6 else 4;
      && |raw| >= head && FromBe16(raw[..2]) == id && FromBe16(raw[2..4]) == |sps|
      && (ttype == 1 ==> FromBe16(raw[4..6]) == scope) && raw[head..] == AllSpecs(sps) + []
  {
    hide AllSpecs;
    var raw := DefOctets(ttype, id, scope, sps);
    assert raw[..2] == [id / 256, id % 256] && raw[2..4] == [|sps| / 256, |sps| % 256];
    assert ttype == 1 ==> raw[4..6] == [scope / 256, scope % 256];
  }

  lemma PartsDef(ttype: U16, raw: Octets, scope: U16, sps: seq<Spec>, head: nat)
    requires SpecsOk(sps) && |sps| <= 65535 && head == if ttype == 1 then 6 else 4
    requires |raw| >= head && FromBe16(raw[2..4]) == |sps| && (ttype == 1 ==> FromBe16(raw[4..6]) == scope)
    requires raw[head..] == AllSpecs(sps) + []
    ensures raw == DefOctets(ttype, FromBe16(raw[..2]), scope, sps)
  {
    hide AllSpecs;
    assert raw == raw[..head] + raw[head..];
    assert raw[..2] == [raw[0], raw[1]] && raw[2..4] == [raw[2], raw[3]];
    if ttype == 1 { assert raw[4..6] == [raw[4], raw[5]]; }
  }

  /** A definition of a template (type 0) or an Options Template (type 1) is accepted, with exactly its fields, if and
      only if its ID is at least 256, it has a field, at least one and at most all of an Options Template are scope
      fields, and the shortest record fits into a Message with one Set. */
  lemma AcceptedExactly(ttype: U16, id: U16, scope: U16, sps: seq<Spec>)
    requires ttype <= 1 && SpecsOk(sps) && |sps| <= 65535
    ensures
      var raw := DefOctets(ttype, id, scope, sps);
      Parse(ttype, raw) ==
        if 256 <= id && sps != [] && (ttype == 1 ==> 0 < scope <= |sps|) && Least(sps) <= 65515
        then Some(Template(ttype, id, FieldsFor(sps), raw)) else None
  {
    hide ParseFields, AllSpecs, MinLength, Least, FieldsFor, DefOctets, FromBe16;
    DefParts(ttype, id, scope, sps);
    FieldsAreRead(sps, []);
    LeastIsMin(sps);
  }

  /** And nothing else is accepted. */
  lemma AcceptedIsDefinition(ttype: U16, raw: Octets) returns (scope: U16, sps: seq<Spec>)
    requires Parse(ttype, raw).Some?
    ensures ttype <= 1 && SpecsOk(sps) && |sps| <= 65535
    ensures raw == DefOctets(ttype, Parse(ttype, raw).value.id, scope, sps)
    ensures Parse(ttype, raw).value.fields == FieldsFor(sps)
  {
    hide ParseFields, MinLength, FieldsFor, AllSpecs, FromBe16, DefOctets;
    var head := if ttype == 1 then 6 else 4;
    sps := ReadAreFields(raw[head..], FromBe16(raw[2..4]));
    scope := if ttype == 1 then FromBe16(raw[4..6]) else 0;
    PartsDef(ttype, raw, scope, sps, head);
  }

  // ----- records -----

  /** The value of a field; `long` asks for the prefix of three octets where the length is variable. */
  datatype Val = Val(octets: Octets, long: bool)

  predicate ValOk(f: Field, v: Val)
  {
    if f.length != 65535 then |v.octets| == f.length else |v.octets| < if v.long then 65536 else 255
  }

  function ValOctets(f: Field, v: Val): Octets
    requires ValOk(f, v)
  {
    if f.length != 65535 then v.octets
    else if v.long then [255, |v.octets| / 256, |v.octets| % 256] + v.octets
    else [|v.octets|] + v.octets
  }

  predicate ValsOk(fs: seq<Field>, vs: seq<Val>)
  {
    |vs| == |fs| && forall k :: 0 <= k < |fs| ==> ValOk(fs[k], vs[k])
  }

  function RecordOctets(fs: seq<Field>, vs: seq<Val>): Octets
    requires ValsOk(fs, vs)
    decreases |fs|
  {
    if fs == [] then [] else ValOctets(fs[0], vs[0]) + RecordOctets(fs[1..], vs[1..])
  }

  lemma OneValue(s: Octets, f: Field, v: Val, off: nat)
    requires ValOk(f, v) && At(s, off, ValOctets(f, v))
    ensures f.length == VAR_IE_LEN ==> off < |s| && (s[off] == 255 ==> off + 3 <= |s|)
    ensures
      var start := off + PrefixLen(s, f, off);
      && SizeAt(s, f, off) == |v.octets| && start + |v.octets| == off + |ValOctets(f, v)|
      && At(s, start, v.octets)
  {
    var b := ValOctets(f, v);
    assert forall k :: 0 <= k < |b| ==> s[off + k] == b[k];
    if f.length == 65535 && v.long { assert s[off + 1..off + 3] == b[1..3]; }
    var prefix := PrefixLen(s, f, off);
    assert s[off + prefix..off + |b|] == b[prefix..] == v.octets;
  }

  lemma Parts(s: Octets, off: nat, b: Octets, more: Octets)
    requires At(s, off, b + more)
    ensures At(s, off, b) && At(s, off + |b|, more)
  {
    var r := s[off..off + |b| + |more|];
    assert s[off..off + |b|] == r[..|b|] == b;
    assert s[off + |b|..off + |b| + |more|] == r[|b|..] == more;
  }

  lemma WalkStep(s: Octets, fs: seq<Field>, off: nat)
    requires fs != [] && (fs[0].length == VAR_IE_LEN ==> off < |s| && (s[off] == 255 ==> off + 3 <= |s|))
    ensures Walk(s, fs, off) == Walk(s, fs[1..], off + PrefixLen(s, fs[0], off) + SizeAt(s, fs[0], off))
  {
    hide FromBe16;
  }

  lemma Rest(fs: seq<Field>, vs: seq<Val>)
    requires fs != [] && ValsOk(fs, vs)
    ensures |vs| == |fs| && ValOk(fs[0], vs[0]) && ValsOk(fs[1..], vs[1..])
    ensures RecordOctets(fs, vs) == ValOctets(fs[0], vs[0]) + RecordOctets(fs[1..], vs[1..])
  {
    hide ValOk, ValOctets;
  }

  /** The first value of a record, with what the walk makes of it. */
  lemma FirstValue(s: Octets, fs: seq<Field>, vs: seq<Val>, off: nat)
    requires fs != [] && ValsOk(fs, vs) && At(s, off, RecordOctets(fs, vs))
    ensures fs[0].length == VAR_IE_LEN ==> off < |s| && (s[off] == 255 ==> off + 3 <= |s|)
    ensures |vs| == |fs| && ValsOk(fs[1..], vs[1..])
    ensures
      var start := off + PrefixLen(s, fs[0], off);
      var next := start + |vs[0].octets|;
      && SizeAt(s, fs[0], off) == |vs[0].octets| && At(s, start, vs[0].octets)
      && At(s, next, RecordOctets(fs[1..], vs[1..])) && Walk(s, fs, off) == Walk(s, fs[1..], next)
      && next + |RecordOctets(fs[1..], vs[1..])| == off + |RecordOctets(fs, vs)|
  {
    hide Walk, ValOctets, ValOk, ValsOk, PrefixLen, SizeAt, At, RecordOctets;
    Rest(fs, vs);
    Parts(s, off, ValOctets(fs[0], vs[0]), RecordOctets(fs[1..], vs[1..]));
    OneValue(s, fs[0], vs[0], off);
    WalkStep(s, fs, off);
  }

  lemma NoValues(s: Octets, fs: seq<Field>, vs: seq<Val>, off: nat)
    requires fs == [] && ValsOk(fs, vs)
    ensures RecordOctets(fs, vs) == [] && Walk(s, fs, off) == Some(off)
  {
  }

  /** The length of a record is found, and the walk over it ends where it does. */
  lemma {:induction false} WalksOver(s: Octets, fs: seq<Field>, vs: seq<Val>, off: nat)
    requires ValsOk(fs, vs) && At(s, off, RecordOctets(fs, vs))
    ensures Walk(s, fs, off) == Some(off + |RecordOctets(fs, vs)|)
    decreases |fs|
  {
    hide ValOctets, ValOk, PrefixLen, SizeAt, FromBe16, RecordOctets, At, ValsOk, Walk;
    if fs == [] {
      NoValues(s, fs, vs, off);
    } else {
      FirstValue(s, fs, vs, off);
      WalksOver(s, fs[1..], vs[1..], off + PrefixLen(s, fs[0], off) + |vs[0].octets|);
    }
  }

  lemma RecordLengthFound(t: Template, vs: seq<Val>)
    requires ValsOk(t.fields, vs)
    ensures
      var s := RecordOctets(t.fields, vs);
      RecLen(s, t) == Some(|s|)
  {
    hide RecordOctets, Walk, ValsOk, MinLength;
    var s := RecordOctets(t.fields, vs);
    assert s[0..0 + |s|] == s;
    WalksOver(s, t.fields, vs, 0);
    if !t.Dynamic() { StaticWalk(s, t.fields, 0); }
  }

  /** Iteration finds each value where it was put, with its own field. */
  lemma {:induction false} ValuesFound(s: Octets, fs: seq<FieldDef>, vs: seq<Val>, idx: nat, off: nat, k: nat)
    requires ValsOk(Base(fs), vs) && At(s, off, RecordOctets(Base(fs), vs)) && k < |fs|
    ensures Holds(s, fs, off)
    ensures
      var item := Items(s, fs, idx, off)[k];
      item.idx == idx + k && item.def == fs[k] && item.size == |vs[k].octets| && At(s, item.start, vs[k].octets)
    decreases |fs|
  {
    hide ValOctets, ValOk, PrefixLen, SizeAt, FromBe16, RecordOctets, Walk;
    WalksOver(s, Base(fs), vs, off);
    var f := fs[0].f;
    assert Base(fs)[0] == f && Base(fs)[1..] == Base(fs[1..]);
    FirstValue(s, Base(fs), vs, off);
    HoldsStep(s, fs, off);
    hide At, ValsOk;
    var start := off + PrefixLen(s, f, off);
    var more := Items(s, fs[1..], idx + 1, start + |vs[0].octets|);
    assert Items(s, fs, idx, off) == [Item(idx, start, |vs[0].octets|, fs[0])] + more;
    if k > 0 { ValuesFound(s, fs[1..], vs[1..], idx + 1, start + |vs[0].octets|, k - 1); }
  }
}
