/** The order of Transport Session descriptions, by which the writer finds the ID of a known session. */
module SessionOrder {
  import opened Bytes
  import opened ByteOrder
  import opened Blocks

  /** `memcmp`: negative, zero or positive by the first octet that differs. */
  function Memcmp(a: Octets, b: Octets): (r: int)
    requires |a| == |b|
    ensures r == 0 <==> a == b
  {
    if a == [] then 0
    else if a[0] != b[0] then a[0] - b[0]
    else
      assert a == [a[0]] + a[1..] && b == [b[0]] + b[1..];
      Memcmp(a[1..], b[1..])
  }

  /** `operator<`: ports, protocol, addresses. */
  predicate Less(a: Session, b: Session)
  {
    if a.portSrc != b.portSrc then a.portSrc < b.portSrc
    else if a.portDst != b.portDst then a.portDst < b.portDst
    else if a.proto != b.proto then a.proto < b.proto
    else
      var src := Memcmp(a.ipSrc, b.ipSrc);
      if src != 0 then src < 0 else Memcmp(a.ipDst, b.ipDst) < 0
  }

  lemma {:induction false} MemcmpOpposite(a: Octets, b: Octets)
    requires |a| == |b|
    ensures Memcmp(a, b) < 0 <==> Memcmp(b, a) > 0
  {
    if a != [] && a[0] == b[0] {
      MemcmpOpposite(a[1..], b[1..]);
    }
  }

  lemma {:induction false} MemcmpTransitive(a: Octets, b: Octets, c: Octets)
    requires |a| == |b| == |c| && Memcmp(a, b) < 0 && Memcmp(b, c) < 0
    ensures Memcmp(a, c) < 0
  {
    if a[0] == b[0] == c[0] {
      MemcmpTransitive(a[1..], b[1..], c[1..]);
    }
  }

  /** Exactly one of: less, equal, greater. Only equal descriptions are equivalent. */
  lemma Trichotomy(a: Session, b: Session)
    ensures !(Less(a, b) && Less(b, a)) && (a == b <==> !Less(a, b) && !Less(b, a))
  {
    MemcmpOpposite(a.ipSrc, b.ipSrc);
    MemcmpOpposite(a.ipDst, b.ipDst);
  }

  lemma Transitive(a: Session, b: Session, c: Session)
    requires Less(a, b) && Less(b, c)
    ensures Less(a, c)
  {
    if Memcmp(a.ipSrc, b.ipSrc) < 0 && Memcmp(b.ipSrc, c.ipSrc) < 0 {
      MemcmpTransitive(a.ipSrc, b.ipSrc, c.ipSrc);
    }
    if Memcmp(a.ipDst, b.ipDst) < 0 && Memcmp(b.ipDst, c.ipDst) < 0 {
      MemcmpTransitive(a.ipDst, b.ipDst, c.ipDst);
    }
  }

  // ----- the order as one of numbers -----

  /** Octets of the same number compare as the numbers that they are, the first octet first. */
  lemma {:induction false} MemcmpWeighs(a: Octets, b: Octets)
    requires |a| == |b|
    ensures Memcmp(a, b) < 0 <==> Weighed(a) < Weighed(b)
    ensures a == b <==> Weighed(a) == Weighed(b)
  {
    if a != [] {
      MemcmpWeighs(a[1..], b[1..]);
      WeighedBound(a[1..]);
      WeighedBound(b[1..]);
      assert a == [a[0]] + a[1..] && b == [b[0]] + b[1..];
      if a[0] < b[0] {
        Leading(a[0], b[0], Power(|a| - 1), Weighed(a[1..]), Weighed(b[1..]));
      } else if b[0] < a[0] {
        Leading(b[0], a[0], Power(|a| - 1), Weighed(b[1..]), Weighed(a[1..]));
      }
      hide Power;
    }
  }

  lemma {:induction false} MemcmpParts(a: Octets, b: Octets, x: Octets, y: Octets)
    requires |a| == |b| && |x| == |y|
    ensures Memcmp(a + x, b + y) < 0 <==> Memcmp(a, b) < 0 || (a == b && Memcmp(x, y) < 0)
  {
    if a == [] {
      assert a + x == x && b + y == y;
    } else {
      assert (a + x)[1..] == a[1..] + x && (b + y)[1..] == b[1..] + y;
      assert a == [a[0]] + a[1..] && b == [b[0]] + b[1..];
      MemcmpParts(a[1..], b[1..], x, y);
    }
  }

  lemma MemcmpTwo(n: U16, m: U16)
    ensures Memcmp(Be(2, n), Be(2, m)) < 0 <==> n < m
    ensures Be(2, n) == Be(2, m) <==> n == m
  {
    hide Memcmp, Be, Weighed;
    WeighedTwo(n);
    WeighedTwo(m);
    MemcmpWeighs(Be(2, n), Be(2, m));
  }

  /** A description in 38 octets: ports, protocol, addresses. */
  function KeyOf(s: Session): Octets
  {
    Be(2, s.portSrc) + (Be(2, s.portDst) + (Be(2, s.proto) + (s.ipSrc + s.ipDst)))
  }

  /** One description is less than another exactly when it is so as a number of 38 octets. */
  lemma LessIsNumeric(a: Session, b: Session)
    ensures Less(a, b) <==> Weighed(KeyOf(a)) < Weighed(KeyOf(b))
  {
    hide Memcmp, Be, Weighed;
    MemcmpWeighs(KeyOf(a), KeyOf(b));
    MemcmpParts(Be(2, a.portSrc), Be(2, b.portSrc), Be(2, a.portDst) + (Be(2, a.proto) + (a.ipSrc + a.ipDst)),
                Be(2, b.portDst) + (Be(2, b.proto) + (b.ipSrc + b.ipDst)));
    MemcmpParts(Be(2, a.portDst), Be(2, b.portDst), Be(2, a.proto) + (a.ipSrc + a.ipDst),
                Be(2, b.proto) + (b.ipSrc + b.ipDst));
    MemcmpParts(Be(2, a.proto), Be(2, b.proto), a.ipSrc + a.ipDst, b.ipSrc + b.ipDst);
    MemcmpParts(a.ipSrc, b.ipSrc, a.ipDst, b.ipDst);
    MemcmpTwo(a.portSrc, b.portSrc);
    MemcmpTwo(a.portDst, b.portDst);
    MemcmpTwo(a.proto, b.proto);
  }

  // ----- the ordered map `m_session2id` -----

  datatype Entry = Entry(session: Session, sid: nat)

  predicate Ascending(es: seq<Entry>)
  {
    forall i, j :: 0 <= i < j < |es| ==> Less(es[i].session, es[j].session)
  }

  /** The map that an ordered list of entries stands for. */
  function AsMap(es: seq<Entry>): map<Session, nat>
  {
    if es == [] then map[] else AsMap(Init(es))[Last(es).session := Last(es).sid]
  }

  lemma {:induction false} AsMapHas(es: seq<Entry>, s: Session)
    requires Ascending(es)
    ensures s in AsMap(es) <==> exists k :: 0 <= k < |es| && es[k].session == s
    ensures forall k :: 0 <= k < |es| && es[k].session == s ==> AsMap(es)[s] == es[k].sid
  {
    if es != [] {
      AsMapHas(Init(es), s);
      Trichotomy(s, s);
      assert forall k :: 0 <= k < |es| - 1 ==> Init(es)[k] == es[k];
      if s == Last(es).session {
        assert es[|es| - 1].session == s;
      } else if k :| 0 <= k < |Init(es)| && Init(es)[k].session == s {
        assert es[k].session == s;
      }
    }
  }

  /** Search by `operator<` alone: the number of entries that are less than `s`. */
  method LowerBound(es: seq<Entry>, s: Session) returns (pos: nat)
    requires Ascending(es)
    ensures pos <= |es|
    ensures forall k :: 0 <= k < pos ==> Less(es[k].session, s)
    ensures forall k :: pos <= k < |es| ==> !Less(es[k].session, s)
  {
    var lo, hi := 0, |es|;
    while lo < hi
      invariant 0 <= lo <= hi <= |es|
      invariant forall k :: 0 <= k < lo ==> Less(es[k].session, s)
      invariant forall k :: hi <= k < |es| ==> !Less(es[k].session, s)
    {
      var mid := (lo + hi) / 2;
      if Less(es[mid].session, s) {
        forall k | 0 <= k < mid ensures Less(es[k].session, s) { Transitive(es[k].session, es[mid].session, s); }
        lo := mid + 1;
      } else {
        forall k | mid < k < |es| ensures !Less(es[k].session, s) {
          if Less(es[k].session, s) { Transitive(es[mid].session, es[k].session, s); }
        }
        hi := mid;
      }
    }
    return lo;
  }

  /** `find`: a description is found exactly when one with the same fields was stored. */
  method Find(es: seq<Entry>, s: Session) returns (sid: Option<nat>)
    requires Ascending(es)
    ensures sid == if s in AsMap(es) then Some(AsMap(es)[s]) else None
  {
    AsMapHas(es, s);
    var pos := LowerBound(es, s);
    if pos < |es| && !Less(s, es[pos].session) {
      Trichotomy(s, es[pos].session);
      return Some(es[pos].sid);
    }
    forall k | 0 <= k < |es| ensures es[k].session != s {
      Trichotomy(es[k].session, s);
      if k > pos { Trichotomy(es[pos].session, s); }
    }
    return None;
  }

  /** `operator[]` with an assignment: the order is kept, and only the entry of this description changes. */
  method Assign(es: seq<Entry>, s: Session, sid: nat) returns (r: seq<Entry>)
    requires Ascending(es)
    ensures Ascending(r) && AsMap(r) == AsMap(es)[s := sid]
  {
    hide AsMap;
    var pos := LowerBound(es, s);
    if pos < |es| && !Less(s, es[pos].session) {
      Trichotomy(s, es[pos].session);
      r := es[pos := Entry(s, sid)];
      AssignIs(es, pos, sid);
    } else {
      r := es[..pos] + [Entry(s, sid)] + es[pos..];
      InsertAscending(es, pos, s, sid);
      NotStored(es, pos, s);
      forall x ensures x in AsMap(r) <==> x in AsMap(es) || x == s { InsertHas(es, r, pos, s, sid, x); }
      forall x | x in AsMap(r) ensures AsMap(r)[x] == AsMap(es)[s := sid][x] { InsertHas(es, r, pos, s, sid, x); }
    }
  }

  /** Between the entries that are less and those that are not, an entry with the same description would stand
      first. */
  lemma NotStored(es: seq<Entry>, pos: nat, s: Session)
    requires Ascending(es) && pos <= |es| && (pos < |es| ==> Less(s, es[pos].session))
    requires forall k :: 0 <= k < pos ==> Less(es[k].session, s)
    ensures s !in AsMap(es)
  {
    AsMapHas(es, s);
    forall k | 0 <= k < |es| ensures es[k].session != s {
      Trichotomy(es[k].session, s);
      if k > pos { Trichotomy(es[pos].session, s); }
    }
  }

  lemma InsertAscending(es: seq<Entry>, pos: nat, s: Session, sid: nat)
    requires Ascending(es) && pos <= |es| && (pos < |es| ==> Less(s, es[pos].session))
    requires forall k :: 0 <= k < pos ==> Less(es[k].session, s)
    ensures Ascending(es[..pos] + [Entry(s, sid)] + es[pos..])
  {
    hide Less;
    forall k | pos <= k < |es| ensures Less(s, es[k].session) {
      if k > pos { Transitive(s, es[pos].session, es[k].session); }
    }
  }

  lemma AssignIs(es: seq<Entry>, pos: nat, sid: nat)
    requires Ascending(es) && pos < |es|
    ensures
      var r := es[pos := Entry(es[pos].session, sid)];
      Ascending(r) && AsMap(r) == AsMap(es)[es[pos].session := sid]
  {
    hide Less, AsMap;
    var s := es[pos].session;
    var r := es[pos := Entry(s, sid)];
    forall x ensures x in AsMap(r) <==> x in AsMap(es) || x == s { AssignHas(es, pos, sid, x); }
    forall x | x in AsMap(r) ensures AsMap(r)[x] == AsMap(es)[s := sid][x] { AssignHas(es, pos, sid, x); }
  }

  lemma AssignHas(es: seq<Entry>, pos: nat, sid: nat, x: Session)
    requires Ascending(es) && pos < |es| && Ascending(es[pos := Entry(es[pos].session, sid)])
    ensures
      var s := es[pos].session;
      var r := es[pos := Entry(s, sid)];
      && (x in AsMap(r) <==> x in AsMap(es) || x == s)
      && (x in AsMap(r) ==> AsMap(r)[x] == AsMap(es)[s := sid][x])
  {
    hide Less, AsMap, Ascending;
    var r := es[pos := Entry(es[pos].session, sid)];
    AsMapHas(es, x);
    AsMapHas(r, x);
    forall k | 0 <= k < |es| ensures r[k].session == es[k].session && (k != pos ==> r[k] == es[k]) {}
  }

  lemma InsertHas(es: seq<Entry>, r: seq<Entry>, pos: nat, s: Session, sid: nat, x: Session)
    requires pos <= |es| && r == es[..pos] + [Entry(s, sid)] + es[pos..] && Ascending(es) && Ascending(r)
    requires s !in AsMap(es)
    ensures x in AsMap(r) <==> x in AsMap(es) || x == s
    ensures x in AsMap(r) ==> AsMap(r)[x] == AsMap(es)[s := sid][x]
  {
    hide Less, AsMap, Ascending;
    AsMapHas(es, x);
    AsMapHas(r, x);
    assert r[pos] == Entry(s, sid);
    forall k | 0 <= k < |es| ensures es[k] == r[if k < pos then k else k + 1] {}
    forall k | 0 <= k < |r| && k != pos ensures r[k] == es[if k < pos then k else k - 1] {}
  }
}
