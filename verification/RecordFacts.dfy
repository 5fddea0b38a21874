/** What the statistics make of a record, said about its values instead of its octets. */
module RecordFacts {
  import opened Bytes
  import opened ByteOrder
  import opened Templates
  import opened RecordFields
  import opened Definitions
  import opened Statistics

  lemma {:induction false} NumberIsWeighed(b: Octets)
    ensures Number(b) == Weighed(b)
    decreases |b|
  {
    if b == [] {
    } else {
      NumberIsWeighed(b[..|b| - 1]);
      WeighedPush(b[..|b| - 1], b[|b| - 1]);
      assert b == b[..|b| - 1] + [b[|b| - 1]];
    }
  }

  /** The first value under an ID. */
  function FirstUnder(fs: seq<FieldDef>, vs: seq<Val>, pen: U32, id: U16): Option<Octets>
    requires |vs| == |fs|
    decreases |fs|
  {
    if fs == [] then None
    else if fs[0].f.en == pen && fs[0].f.id == id then Some(vs[0].octets)
    else FirstUnder(fs[1..], vs[1..], pen, id)
  }

  /** That value as a number, if it has one to eight octets. */
  function Amount(fs: seq<FieldDef>, vs: seq<Val>, pen: U32, id: U16): Option<nat>
    requires |vs| == |fs|
  {
    var b := FirstUnder(fs, vs, pen, id);
    if b.Some? && 1 <= |b.value| <= 8 then Some(Weighed(b.value)) else None
  }

  /** The search over the octets finds that value. */
  lemma {:induction false} FirstFound(s: Octets, fs: seq<FieldDef>, vs: seq<Val>, idx: nat, off: nat, pen: U32, id: U16)
    requires ValsOk(Base(fs), vs) && At(s, off, RecordOctets(Base(fs), vs))
    ensures Holds(s, fs, off)
    ensures
      var hits, b := Those(Items(s, fs, idx, off), d => Is(d, pen, id)), FirstUnder(fs, vs, pen, id);
      if b.None? then hits == [] else hits != [] && hits[0].size == |b.value| && At(s, hits[0].start, b.value)
    decreases |fs|
  {
    hide ValOctets, ValOk, PrefixLen, SizeAt, FromBe16, RecordOctets, Walk;
    WalksOver(s, Base(fs), vs, off);
    if fs == [] {
    } else {
      var p := (d: FieldDef) => Is(d, pen, id);
      assert Base(fs)[0] == fs[0].f && Base(fs)[1..] == Base(fs[1..]);
      FirstValue(s, Base(fs), vs, off);
      hide At, ValsOk;
      ItemsFirst(s, fs, idx, off, p);
      FirstFound(s, fs[1..], vs[1..], idx + 1, off + PrefixLen(s, fs[0].f, off) + |vs[0].octets|, pen, id);
    }
  }

  lemma AmountFound(fs: seq<FieldDef>, vs: seq<Val>, pen: U32, id: U16)
    requires ValsOk(Base(fs), vs)
    ensures
      var s := RecordOctets(Base(fs), vs);
      Holds(s, fs, 0) && NumberOf(s, fs, pen, id) == Amount(fs, vs, pen, id)
  {
    hide RecordOctets, Items, Holds, Number, Weighed;
    var s := RecordOctets(Base(fs), vs);
    assert s[0..0 + |s|] == s;
    FirstFound(s, fs, vs, 0, 0, pen, id);
    var b := FirstUnder(fs, vs, pen, id);
    if b.Some? { NumberIsWeighed(b.value); }
  }

  /** A flow counts for TCP under protocol 6, for UDP under 17, for ICMP under 1 and 58, and for none of them otherwise,
      with the octets (1) and packets (2) of both directions; a record of an Options Template is no flow. */
  lemma FactOfValues(fs: seq<FieldDef>, vs: seq<Val>)
    requires ValsOk(Base(fs), vs)
    ensures
      var s := RecordOctets(Base(fs), vs);
      var proto := Amount(fs, vs, 0, 4);
      var octets, octetsRev := Amount(fs, vs, 0, 1), Amount(fs, vs, 29305, 1);
      var packets, packetsRev := Amount(fs, vs, 0, 2), Amount(fs, vs, 29305, 2);
      && Holds(s, fs, 0) && FactOf(s, fs, true) == OptionsData
      && var x := FactOf(s, fs, false);
      && x.Flow?
      && (x.proto == Tcp <==> proto.Some? && proto.value % 256 == 6)
      && (x.proto == Udp <==> proto.Some? && proto.value % 256 == 17)
      && (x.proto == Icmp <==> proto.Some? && proto.value % 256 in {1, 58})
      && x.bytes == (if octets.Some? then octets.value else 0) + (if octetsRev.Some? then octetsRev.value else 0)
      && x.packets == (if packets.Some? then packets.value else 0) + (if packetsRev.Some? then packetsRev.value else 0)
      && x.biflow == (octetsRev.Some? || packetsRev.Some?)
  {
    hide RecordOctets, Holds, NumberOf, Amount, ValsOk;
    AmountFound(fs, vs, 0, 4);
    AmountFound(fs, vs, 0, 1);
    AmountFound(fs, vs, 0, 2);
    AmountFound(fs, vs, 29305, 1);
    AmountFound(fs, vs, 29305, 2);
  }

  // ----- what iteration shows -----

  /** Which fields are shown: all but padding (210, also in reverse) unless it is asked for, unknown fields if they are
      to be skipped, and reverse fields if they are to be skipped. */
  lemma {:induction false} ShownExactly(items: seq<Item>, flags: Flags, x: Item)
    ensures
      x in Those(items, d => Shown(d, flags)) <==>
        && x in items
        && (x.def.f.id == 210 && x.def.f.en in {0, 29305} ==> flags.paddingShow)
        && (!x.def.known ==> !flags.unknownSkip)
        && (x.def.reverse ==> !flags.reverseSkip)
  {
    if items != [] {
      ShownExactly(items[1..], flags, x);
      assert items == [items[0]] + items[1..];
    }
  }

  /** In their order. */
  lemma {:induction false} ThoseInOrder(a: seq<Item>, b: seq<Item>, p: FieldDef -> bool)
    ensures Those(a + b, p) == Those(a, p) + Those(b, p)
  {
    if a == [] {
      assert a + b == b;
    } else {
      assert (a + b)[1..] == a[1..] + b;
      ThoseInOrder(a[1..], b, p);
    }
  }
}
