/** The statistics of a file: counters of records, octets and packets by protocol. */
module Statistics {
  import opened Bytes
  import opened Templates
  import opened RecordFields

  const TWO64 := 0x1_0000_0000_0000_0000
  const IE_BYTES := 1
  const IE_PACKETS := 2
  const IE_PROTO := 4

  datatype Protocol = Tcp | Udp | Icmp | Other

  /** What a record says: data of an Options Template, or a flow. */
  datatype Fact = OptionsData | Flow(proto: Protocol, bytes: nat, packets: nat, biflow: bool)

  function ClassOf(proto: nat): Protocol
  {
    if proto == 6 then Tcp else if proto == 17 then Udp else if proto == 1 || proto == 58 then Icmp else Other
  }

  /** An unsigned number of 1 to 8 octets in network byte order (`fds_get_uint_be`). */
  function UintBe(b: Octets): Option<nat>
  {
    if b == [] || |b| > 8 then None else Some(Number(b))
  }

  function Number(b: Octets): nat
  {
    if b == [] then 0 else Number(b[..|b| - 1]) * 256 + b[|b| - 1]
  }

  /** The value of the first field with the given ID, if it is a number. */
  function NumberOf(s: Octets, fs: seq<FieldDef>, pen: U32, id: U16): Option<nat>
    requires Holds(s, fs, 0)
  {
    var hits := Those(Items(s, fs, 0, 0), d => Is(d, pen, id));
    if hits == [] then None
    else if hits[0].start + hits[0].size <= |s| then UintBe(s[hits[0].start..hits[0].start + hits[0].size]) else None
  }

  function OrZero(v: Option<nat>): nat { if v.Some? then v.value else 0 }

  function FactOf(s: Octets, fs: seq<FieldDef>, options: bool): Fact
    requires Holds(s, fs, 0)
  {
    if options then OptionsData
    else
      var proto := NumberOf(s, fs, PEN_FWD, IE_PROTO);
      var revBytes, revPackets := NumberOf(s, fs, PEN_REV, IE_BYTES), NumberOf(s, fs, PEN_REV, IE_PACKETS);
      Flow(if proto.Some? then ClassOf(proto.value % 256) else Other,
           OrZero(NumberOf(s, fs, PEN_FWD, IE_BYTES)) + OrZero(revBytes),
           OrZero(NumberOf(s, fs, PEN_FWD, IE_PACKETS)) + OrZero(revPackets),
           revBytes.Some? || revPackets.Some?)
  }

  /** The fields of a template as far as the statistics look at them. */
  function Defs(fs: seq<Field>): (r: seq<FieldDef>)
    ensures Base(r) == fs
  {
    if fs == [] then [] else [FieldDef(fs[0], false, false)] + Defs(fs[1..])
  }

  /** What a record that `write_rec` has accepted says. */
  function FactOfRec(data: Octets, t: Template): Fact
    requires RecLen(data, t) == Some(|data|)
  {
    AcceptedIsTiled(data, t, Defs(t.fields));
    FactOf(data, Defs(t.fields), t.ttype == TYPE_TEMPLATE_OPTS)
  }

  /** The sum of `f` over the facts. */
  function Sum(facts: seq<Fact>, f: Fact -> nat): nat
  {
    if facts == [] then 0 else Sum(facts[..|facts| - 1], f) + f(facts[|facts| - 1])
  }

  function One(x: Fact, c: Protocol): nat { if x.Flow? && x.proto == c then 1 else 0 }
  function BytesIn(x: Fact, c: Protocol): nat { if x.Flow? && x.proto == c then x.bytes else 0 }
  function PacketsIn(x: Fact, c: Protocol): nat { if x.Flow? && x.proto == c then x.packets else 0 }
  function BiflowIn(x: Fact, c: Protocol): nat { if x.Flow? && x.proto == c && x.biflow then 1 else 0 }
  function BytesOf(x: Fact): nat { if x.Flow? then x.bytes else 0 }
  function PacketsOf(x: Fact): nat { if x.Flow? then x.packets else 0 }
  function BiflowOf(x: Fact): nat { if x.Flow? && x.biflow then 1 else 0 }
  function OptionsOf(x: Fact): nat { if x.OptionsData? then 1 else 0 }

  lemma SumPush(facts: seq<Fact>, x: Fact, f: Fact -> nat)
    ensures Sum(facts + [x], f) == Sum(facts, f) + f(x)
  {
    assert (facts + [x])[..|facts|] == facts;
  }

  /** The totals are conserved: each is the sum of its parts. */
  lemma {:induction false} Conserved(facts: seq<Fact>)
    ensures |facts| == Sum(facts, x => OptionsOf(x)) + Sum(facts, x => One(x, Tcp)) + Sum(facts, x => One(x, Udp))
                       + Sum(facts, x => One(x, Icmp)) + Sum(facts, x => One(x, Other))
    ensures Sum(facts, x => BytesOf(x)) == Sum(facts, x => BytesIn(x, Tcp)) + Sum(facts, x => BytesIn(x, Udp))
                                         + Sum(facts, x => BytesIn(x, Icmp)) + Sum(facts, x => BytesIn(x, Other))
    ensures Sum(facts, x => PacketsOf(x)) == Sum(facts, x => PacketsIn(x, Tcp)) + Sum(facts, x => PacketsIn(x, Udp))
                                           + Sum(facts, x => PacketsIn(x, Icmp)) + Sum(facts, x => PacketsIn(x, Other))
    ensures Sum(facts, x => BiflowOf(x)) == Sum(facts, x => BiflowIn(x, Tcp)) + Sum(facts, x => BiflowIn(x, Udp))
                                          + Sum(facts, x => BiflowIn(x, Icmp)) + Sum(facts, x => BiflowIn(x, Other))
  {
    if facts != [] {
      Conserved(facts[..|facts| - 1]);
    }
  }

  /** Counters by protocol, modulo 2^64 each. */
  datatype Counts = Counts(total: nat, tcp: nat, udp: nat, icmp: nat, other: nat)

  function Bump(c: Counts, proto: Protocol, n: nat): Counts
  {
    var t := c.(total := (c.total + n) % TWO64);
    match proto
    case Tcp => t.(tcp := (c.tcp + n) % TWO64)
    case Udp => t.(udp := (c.udp + n) % TWO64)
    case Icmp => t.(icmp := (c.icmp + n) % TWO64)
    case Other => t.(other := (c.other + n) % TWO64)
  }

  predicate Counted(c: Counts, facts: seq<Fact>, total: Fact -> nat, part: (Fact, Protocol) -> nat)
  {
    && c.total == Sum(facts, total) % TWO64
    && c.tcp == Sum(facts, x => part(x, Tcp)) % TWO64 && c.udp == Sum(facts, x => part(x, Udp)) % TWO64
    && c.icmp == Sum(facts, x => part(x, Icmp)) % TWO64 && c.other == Sum(facts, x => part(x, Other)) % TWO64
  }

  lemma AddMod(a: nat, b: nat, n: nat)
    requires a == b % TWO64
    ensures (a + n) % TWO64 == (b + n) % TWO64
  {
  }

  /** A fact that adds `n` to its own protocol and to the total, and nothing elsewhere. */
  lemma CountedPush(c: Counts, facts: seq<Fact>, total: Fact -> nat, part: (Fact, Protocol) -> nat, x: Fact,
        proto: Protocol, n: nat)
    requires Counted(c, facts, total, part) && total(x) == n
    requires forall d: Protocol :: part(x, d) == if d == proto then n else 0
    ensures Counted(Bump(c, proto, n), facts + [x], total, part)
  {
    SumPush(facts, x, total);
    SumPush(facts, x, y => part(y, Tcp));
    SumPush(facts, x, y => part(y, Udp));
    SumPush(facts, x, y => part(y, Icmp));
    SumPush(facts, x, y => part(y, Other));
    AddMod(c.total, Sum(facts, total), n);
    AddMod(c.tcp, Sum(facts, y => part(y, Tcp)), n);
    AddMod(c.udp, Sum(facts, y => part(y, Udp)), n);
    AddMod(c.icmp, Sum(facts, y => part(y, Icmp)), n);
    AddMod(c.other, Sum(facts, y => part(y, Other)), n);
    hide Sum;
  }

  lemma CountedSame(c: Counts, facts: seq<Fact>, total: Fact -> nat, part: (Fact, Protocol) -> nat, x: Fact)
    requires Counted(c, facts, total, part) && total(x) == 0 && forall d: Protocol :: part(x, d) == 0
    ensures Counted(c, facts + [x], total, part)
  {
    SumPush(facts, x, total);
    SumPush(facts, x, y => part(y, Tcp));
    SumPush(facts, x, y => part(y, Udp));
    SumPush(facts, x, y => part(y, Icmp));
    SumPush(facts, x, y => part(y, Other));
    hide Sum;
  }

  class FileStats {
    var recs: Counts
    var opts: nat
    var bytes: Counts
    var packets: Counts
    var biflow: Counts
    /** What was counted. */
    ghost var facts: seq<Fact>

    /** Every counter is the number of records, octets or packets that it is named after, modulo 2^64. */
    ghost predicate Valid()
      reads this
    {
      && opts == Sum(facts, x => OptionsOf(x)) % TWO64
      && Counted(recs, facts, x => 1, (x, c) => One(x, c))
      && Counted(bytes, facts, x => BytesOf(x), (x, c) => BytesIn(x, c))
      && Counted(packets, facts, x => PacketsOf(x), (x, c) => PacketsIn(x, c))
      && Counted(biflow, facts, x => BiflowOf(x), (x, c) => BiflowIn(x, c))
    }

    constructor ()
      ensures Valid() && facts == []
    {
      var zero := Counts(0, 0, 0, 0, 0);
      recs, bytes, packets, biflow, opts, facts := zero, zero, zero, zero, 0, [];
    }

    /** The value of a field, 0 when it is not there. */
    method Get(s: Octets, fs: seq<FieldDef>, pen: U32, id: U16) returns (v: Option<nat>)
      requires Holds(s, fs, 0) && |s| <= 0xFFFF
      ensures v == NumberOf(s, fs, pen, id)
    {
      hide UintBe;
      var field := Find(s, fs, pen, id);
      if field.None? { return None; }
      if field.value.start + field.value.size > |s| { return None; }
      return UintBe(s[field.value.start..field.value.start + field.value.size]);
    }

    /** `stats_update` */
    method Update(s: Octets, fs: seq<FieldDef>, options: bool)
      requires Valid() && Holds(s, fs, 0) && |s| <= 0xFFFF
      modifies this
      ensures Valid() && facts == old(facts) + [FactOf(s, fs, options)]
    {
      hide Counted, NumberOf;
      if options {
        CountOptions();
        return;
      }
      var proto := Get(s, fs, PEN_FWD, IE_PROTO);
      var b := Get(s, fs, PEN_FWD, IE_BYTES);
      var p := Get(s, fs, PEN_FWD, IE_PACKETS);
      var rb := Get(s, fs, PEN_REV, IE_BYTES);
      var rp := Get(s, fs, PEN_REV, IE_PACKETS);
      var protocol := if proto.Some? then ClassOf(proto.value % 256) else Other;
      CountFlow(protocol, OrZero(b) + OrZero(rb), OrZero(p) + OrZero(rp), rb.Some? || rp.Some?);
    }

    /** The same for an accepted record and its template. */
    method UpdateRec(data: Octets, t: Template)
      requires Valid() && RecLen(data, t) == Some(|data|) && |data| <= 0xFFFF
      modifies this
      ensures Valid() && facts == old(facts) + [FactOfRec(data, t)]
    {
      hide Counted, FactOf, Holds, RecLen;
      AcceptedIsTiled(data, t, Defs(t.fields));
      Update(data, Defs(t.fields), t.ttype == TYPE_TEMPLATE_OPTS);
    }

    method CountOptions()
      requires Valid()
      modifies this
      ensures Valid() && facts == old(facts) + [OptionsData]
    {
      hide Counted, Sum;
      ghost var x := OptionsData;
      SumPush(facts, x, y => OptionsOf(y));
      AddMod(opts, Sum(facts, y => OptionsOf(y)), 1);
      TotalOnly(recs, facts, x);
      CountedSame(bytes, facts, y => BytesOf(y), (y, c) => BytesIn(y, c), x);
      CountedSame(packets, facts, y => PacketsOf(y), (y, c) => PacketsIn(y, c), x);
      CountedSame(biflow, facts, y => BiflowOf(y), (y, c) => BiflowIn(y, c), x);
      recs := recs.(total := (recs.total + 1) % TWO64);
      opts := (opts + 1) % TWO64;
      facts := facts + [x];
    }

    method CountFlow(proto: Protocol, b: nat, p: nat, bi: bool)
      requires Valid()
      modifies this
      ensures Valid() && facts == old(facts) + [Flow(proto, b, p, bi)]
    {
      hide Counted, Sum;
      ghost var x := Flow(proto, b, p, bi);
      SumPush(facts, x, y => OptionsOf(y));
      CountedPush(recs, facts, y => 1, (y, c) => One(y, c), x, proto, 1);
      CountedPush(bytes, facts, y => BytesOf(y), (y, c) => BytesIn(y, c), x, proto, b);
      CountedPush(packets, facts, y => PacketsOf(y), (y, c) => PacketsIn(y, c), x, proto, p);
      if bi {
        CountedPush(biflow, facts, y => BiflowOf(y), (y, c) => BiflowIn(y, c), x, proto, 1);
      } else {
        CountedSame(biflow, facts, y => BiflowOf(y), (y, c) => BiflowIn(y, c), x);
      }
      recs := Bump(recs, proto, 1);
      bytes := Bump(bytes, proto, b);
      packets := Bump(packets, proto, p);
      if bi { biflow := Bump(biflow, proto, 1); }
      facts := facts + [x];
    }
  }

  lemma TotalOnly(c: Counts, facts: seq<Fact>, x: Fact)
    requires Counted(c, facts, y => 1, (y, k) => One(y, k)) && x.OptionsData?
    ensures Counted(c.(total := (c.total + 1) % TWO64), facts + [x], y => 1, (y, k) => One(y, k))
  {
    hide Sum;
    var part := (y: Fact, k: Protocol) => One(y, k);
    SumPush(facts, x, y => 1);
    AddMod(c.total, Sum(facts, y => 1), 1);
    SumPush(facts, x, y => part(y, Tcp));
    SumPush(facts, x, y => part(y, Udp));
    SumPush(facts, x, y => part(y, Icmp));
    SumPush(facts, x, y => part(y, Other));
  }
}
