/** The rebuilt Content Table without its loop: the path of blocks through the file, and what it lists. */
module RebuildPath {
  import opened Bytes
  import opened ByteOrder
  import opened Blocks
  import opened DataBlock
  import opened ContentTable
  import opened Writer
  import opened Loading
  import opened Rebuild

  predicate Readable(file: Octets, off: int)
  {
    0 <= off && off + 56 <= |file|
  }

  function Type(file: Octets, off: int): nat
  {
    if Readable(file, off) then Num(file, off, 2) else 0
  }

  /** The length of the block as a signed number of 64 bits. */
  function Length(file: Octets, off: int): int
  {
    if !Readable(file, off) then 0
    else
      var n := Num(file, off + 4, 8);
      if n < 0x8000_0000_0000_0000 then n else n - 0x1_0000_0000_0000_0000
  }

  /** The block at `a` is followed by the one at `b`. */
  predicate Leads(file: Octets, a: int, b: int)
  {
    && Readable(file, a) && Length(file, a) != 0
    && b == a + Length(file, a) && b <= |file| && b < 0x8000_0000_0000_0000
  }

  /** From block to block. */
  predicate Path(file: Octets, offs: seq<int>)
  {
    offs != [] && offs[0] == 184 && forall i :: 0 < i < |offs| ==> Leads(file, offs[i - 1], offs[i])
  }

  /** The path ends where 56 octets are not left, or where the block goes beyond the end of the file. */
  predicate Finished(file: Octets, off: int)
  {
    || off + 56 > |file|
    || (0 <= off && Length(file, off) != 0 && |file| < off + Length(file, off) < 0x8000_0000_0000_0000)
  }

  /** The end of the block is no signed number of 64 bits. */
  predicate Overflows(file: Octets, off: int)
  {
    Readable(file, off) && Length(file, off) != 0 && off + Length(file, off) >= 0x8000_0000_0000_0000
  }

  /** What the blocks at `offs` add to the two lists, in their order. */
  function TableFor(file: Octets, offs: seq<int>): Table
  {
    if offs == [] then Table([], [])
    else
      var t, off := TableFor(file, Init(offs)), Last(offs);
      if !Readable(file, off) then t
      else if Type(file, off) == 1 && LoadSession(file, off).Some? then
        t.(sessions := t.sessions + [SessEntry(off, Num(file, off + 4, 8), LoadSession(file, off).value.0)])
      else if Type(file, off) == 3 then
        NumBound(file, off);
        t.(blocks := t.blocks +
          [DataEntry(off, Num(file, off + 4, 8), Num(file, off + 20, 8), Num(file, off + 16, 4),
                     Num(file, off + 14, 2))])
      else t
  }

  lemma NumBound(file: Octets, off: int)
    requires Readable(file, off)
    ensures Num(file, off + 16, 4) < 0x1_0000_0000 && Num(file, off + 14, 2) < 0x1_0000
  {
    HeaderAt(file, off, 56);
  }

  /** The descriptions found at `offs` by their IDs. */
  function SessionsOf(file: Octets, offs: seq<int>): map<U16, Session>
  {
    if offs == [] then map[]
    else
      var m, off := SessionsOf(file, Init(offs)), Last(offs);
      if Type(file, off) == 1 && LoadSession(file, off).Some? && LoadSession(file, off).value.0 !in m then
        m[LoadSession(file, off).value.0 := LoadSession(file, off).value.1]
      else m
  }

  /** Session Blocks load, no two of them contradict each other, and neither list overflows. */
  ghost predicate Sound(file: Octets, offs: seq<int>)
  {
    && (forall i :: 0 <= i < |offs| && Type(file, offs[i]) == 1 ==> 0 <= offs[i] && LoadSession(file, offs[i]).Some?)
    && (forall i, j :: 0 <= i < j < |offs| && Type(file, offs[i]) == 1 && Type(file, offs[j]) == 1 ==>
          Agree(LoadSession(file, offs[i]), LoadSession(file, offs[j])))
    && |TableFor(file, offs).sessions| <= 0x1_0000 && |TableFor(file, offs).blocks| <= 0xFFFF_FFFF
  }

  predicate Agree(a: Option<(U16, Session)>, b: Option<(U16, Session)>)
  {
    a.Some? && b.Some? && a.value.0 == b.value.0 ==> a.value.1 == b.value.1
  }

  lemma {:induction false} SessionsAre(file: Octets, offs: seq<int>, sid: U16)
    ensures sid in SessionsOf(file, offs) <==>
      exists i :: 0 <= i < |offs| && Carries(file, offs[i], sid)
    ensures sid in SessionsOf(file, offs) ==>
      exists i :: 0 <= i < |offs| && Carries(file, offs[i], sid)
        && SessionsOf(file, offs)[sid] == LoadSession(file, offs[i]).value.1
    decreases |offs|
  {
    hide LoadSession, Type;
    if offs != [] {
      var front, off := Init(offs), Last(offs);
      SessionsAre(file, front, sid);
      assert forall i :: 0 <= i < |front| ==> front[i] == offs[i];
    }
  }

  /** The block at `off` is a Session Block with this ID. */
  predicate Carries(file: Octets, off: int, sid: U16)
  {
    Type(file, off) == 1 && LoadSession(file, off).Some? && LoadSession(file, off).value.0 == sid
  }

  // ----- the loop follows the path -----

  function StageFor(file: Octets, offs: seq<int>): Stage
    requires offs != []
  {
    Stage(Last(offs), TableFor(file, Init(offs)), SessionsOf(file, Init(offs)))
  }

  lemma FieldsAt(file: Octets, off: int)
    requires Readable(file, off)
    ensures
      var h := HeaderOf(file[off..off + PROBE]);
      && h.btype == Type(file, off) && h.size == Num(file, off + 4, 8)
      && h.sid == Num(file, off + 14, 2) && h.odid == Num(file, off + 16, 4) && h.toff == Num(file, off + 20, 8)
    ensures Signed(LengthAt(file, off)) == Length(file, off) && (LengthAt(file, off) == 0 <==> Length(file, off) == 0)
  {
    hide HeaderOf, Num, FromLe64;
    HeaderAt(file, off, 56);
    SameNum8(file, off + 4);
  }

  lemma AgreeWithMap(file: Octets, front: seq<int>, off: int)
    requires off >= 0 && Sound(file, front) && Type(file, off) == 1 && LoadSession(file, off).Some?
    ensures
      var p, m := LoadSession(file, off).value, SessionsOf(file, front);
      (p.0 in m ==> m[p.0] == p.1) <==>
        forall i :: 0 <= i < |front| && Type(file, front[i]) == 1 ==> Agree(LoadSession(file, front[i]), Some(p))
  {
    hide LoadSession, Type, TableFor;
    var p, m := LoadSession(file, off).value, SessionsOf(file, front);
    SessionsAre(file, front, p.0);
    if p.0 in m {
      var i :| 0 <= i < |front| && Carries(file, front[i], p.0) && m[p.0] == LoadSession(file, front[i]).value.1;
      forall j | 0 <= j < |front| && Type(file, front[j]) == 1
        ensures Agree(LoadSession(file, front[j]), LoadSession(file, front[i]))
      {
      }
    } else {
      forall i | 0 <= i < |front| && Type(file, front[i]) == 1 ensures Agree(LoadSession(file, front[i]), Some(p)) {
        assert !Carries(file, front[i], p.0);
      }
    }
  }

  lemma SoundFront(file: Octets, front: seq<int>, off: int)
    requires Sound(file, front + [off])
    ensures Sound(file, front)
  {
    var offs := front + [off];
    assert Init(offs) == front;
    assert forall i :: 0 <= i < |front| ==> front[i] == offs[i];
    hide LoadSession, Type, Agree;
  }

  lemma SoundPush(file: Octets, front: seq<int>, off: int)
    requires Sound(file, front) && Readable(file, off)
    ensures Sound(file, front + [off]) <==>
      && (Type(file, off) == 1 ==>
           && LoadSession(file, off).Some? && |TableFor(file, front).sessions| < 0x1_0000
           && forall i :: 0 <= i < |front| && Type(file, front[i]) == 1 ==>
                Agree(LoadSession(file, front[i]), LoadSession(file, off)))
      && (Type(file, off) == 3 ==> |TableFor(file, front).blocks| < 0xFFFF_FFFF)
  {
    var offs := front + [off];
    assert Init(offs) == front && Last(offs) == off;
    assert forall i :: 0 <= i < |front| ==> front[i] == offs[i];
    hide LoadSession, Type, Agree, Num;
  }

  /** What a block adds is what it adds to the lists of the path; it is refused where the path is not sound. */
  lemma ProcessIs(file: Octets, front: seq<int>, off: int)
    requires Sound(file, front) && Readable(file, off)
    ensures
      Process(file, off, TableFor(file, front), SessionsOf(file, front)) ==
        if Sound(file, front + [off]) then Some((TableFor(file, front + [off]), SessionsOf(file, front + [off])))
        else None
  {
    var offs := front + [off];
    assert Init(offs) == front && Last(offs) == off;
    FieldsAt(file, off);
    SoundPush(file, front, off);
    if Type(file, off) == 1 && LoadSession(file, off).Some? { AgreeWithMap(file, front, off); }
    hide LoadSession, Type, Agree, Num, HeaderOf, Sound, Readable;
  }

  lemma TurnIs(file: Octets, offs: seq<int>)
    requires offs != [] && Sound(file, Init(offs))
    ensures
      var off := Last(offs);
      var next := off + Length(file, off);
      match Turn(file, StageFor(file, offs))
      case Goes(s) => Leads(file, off, next) && Sound(file, offs) && s == StageFor(file, offs + [next])
      case Ends(r) =>
        && (r.Rebuilt? <==> Finished(file, off)) && (r.Rebuilt? ==> r.table == TableFor(file, Init(offs)))
        && (r == Overflow <==> Overflows(file, off))
        && !(Leads(file, off, next) && Sound(file, offs)) && r != Endless
  {
    var off := Last(offs);
    var next := off + Length(file, off);
    assert offs == Init(offs) + [off] && Init(offs + [next]) == offs;
    if Readable(file, off) {
      FieldsAt(file, off);
      ProcessIs(file, Init(offs), off);
    }
    hide Process, Sound, TableFor, SessionsOf, Length, LengthAt, Signed;
  }

  lemma PathPush(file: Octets, offs: seq<int>, next: int)
    requires Path(file, offs) && Leads(file, Last(offs), next)
    ensures Path(file, offs + [next])
  {
    hide Leads;
  }

  lemma PathFront(file: Octets, offs: seq<int>)
    requires Path(file, offs) && |offs| > 1
    ensures
      var front := Init(offs);
      && front != [] && Path(file, front) && Leads(file, Last(front), Last(offs))
      && Last(offs) == Last(front) + Length(file, Last(front)) && offs == front + [Last(offs)]
  {
    hide Length, Readable;
    var front := Init(offs);
    assert offs[|offs| - 1 - 1] == Last(front);
    assert forall i :: 0 <= i < |front| ==> front[i] == offs[i];
  }

  lemma BeginStage(file: Octets)
    ensures StageFor(file, [184]) == BEGIN && Path(file, [184]) && Sound(file, Init([184]))
    ensures Reached(file, 0) == Some(BEGIN)
  {
    assert Init([184]) == [];
  }

  lemma {:induction false} ReachedPath(file: Octets, n: nat) returns (offs: seq<int>)
    requires Reached(file, n).Some?
    ensures Path(file, offs) && Sound(file, Init(offs)) && Reached(file, n) == Some(StageFor(file, offs))
    decreases n
  {
    hide Turn, StageFor, Path, Sound, Leads;
    if n == 0 {
      offs := [184];
      BeginStage(file);
    } else {
      LastRound(file, n);
      var front := ReachedPath(file, n - 1);
      PathNotEmpty(file, front);
      TurnIs(file, front);
      var next := Last(front) + Length(file, Last(front));
      PathPush(file, front, next);
      offs := front + [next];
      assert Init(offs) == front;
    }
  }

  lemma PathNotEmpty(file: Octets, offs: seq<int>)
    requires Path(file, offs)
    ensures offs != []
  {
  }

  lemma {:induction false} PathReached(file: Octets, offs: seq<int>)
    requires Path(file, offs) && Sound(file, Init(offs))
    ensures Reached(file, |offs| - 1) == Some(StageFor(file, offs))
    decreases |offs|
  {
    hide Turn, StageFor, Sound, Leads;
    if |offs| == 1 {
      assert offs == [184];
      BeginStage(file);
    } else {
      hide Path;
      PathFront(file, offs);
      var front := Init(offs);
      assert front == Init(front) + [Last(front)];
      SoundFront(file, Init(front), Last(front));
      PathReached(file, front);
      TurnIs(file, front);
      NextReached(file, |offs| - 2, StageFor(file, front), StageFor(file, offs));
    }
  }

  lemma NextReached(file: Octets, n: nat, s: Stage, next: Stage)
    requires Reached(file, n) == Some(s) && Turn(file, s) == Goes(next)
    ensures Reached(file, n + 1) == Some(next)
  {
    hide Turn;
  }

  /** The rounds end with `r` exactly where some round does. */
  lemma {:induction false} RoundsEnd(file: Octets, s: Stage, m: nat) returns (n: nat)
    requires ScanRounds(file, s, m) != Endless
    ensures Iter(StepOf(file), s, n).Some?
    ensures Turn(file, Iter(StepOf(file), s, n).value) == Ends(ScanRounds(file, s, m))
    decreases m
  {
    hide Turn;
    match Turn(file, s)
    case Ends(r) =>
      n := 0;
    case Goes(t) =>
      n := RoundsEnd(file, t, m - 1);
      IterFront(StepOf(file), s, n);
      n := n + 1;
  }

  lemma {:induction false} EndsRounds(file: Octets, s: Stage, n: nat, m: nat)
    requires n < m && Iter(StepOf(file), s, n).Some? && Turn(file, Iter(StepOf(file), s, n).value).Ends?
    ensures ScanRounds(file, s, m) == Turn(file, Iter(StepOf(file), s, n).value).scan
    decreases n
  {
    hide Turn;
    if n > 0 {
      IterFront(StepOf(file), s, n - 1);
      EndsRounds(file, Turn(file, s).at, n - 1, m - 1);
    }
  }

  /** The scan ends as the round that ends it. */
  lemma ScanEnds(file: Octets, n: nat)
    requires Reached(file, n).Some? && Turn(file, Reached(file, n).value).Ends?
    ensures ScanFile(file) == Turn(file, Reached(file, n).value).scan
  {
    hide Turn, ScanRounds;
    EndsInTime(file, n);
    EndsRounds(file, BEGIN, n, Limit(file));
  }

  lemma EndsInTime(file: Octets, n: nat)
    requires Reached(file, n).Some? && Turn(file, Reached(file, n).value).Ends?
    ensures n < Limit(file)
  {
    hide Turn, ScanRounds, ScanFile, Repeats, Iter, StepOf;
    IsReached(file, n);
    IsReached(file, Limit(file));
    if n >= Limit(file) {
      IterEarlier(StepOf(file), BEGIN, Limit(file), n);
      AllReached(file);
      GoesOn(file, n);
    }
  }

  lemma AllReached(file: Octets)
    requires Reached(file, Limit(file)).Some?
    ensures forall k :: Reached(file, k).Some?
  {
    hide Turn, ScanRounds, Repeats;
    RoundsIter(file, BEGIN, Limit(file));
    EndlessExactly(file);
  }

  lemma GoesOn(file: Octets, n: nat)
    requires forall k :: Reached(file, k).Some?
    ensures Reached(file, n).Some? && Turn(file, Reached(file, n).value).Goes?
  {
    hide Turn;
    LastRound(file, n + 1);
  }

  /** The path of which `t` lists the blocks. */
  ghost predicate Lists(file: Octets, offs: seq<int>, t: Table)
  {
    Path(file, offs) && Finished(file, Last(offs)) && Sound(file, Init(offs)) && t == TableFor(file, Init(offs))
  }

  /** A Content Table is rebuilt if and only if a path of blocks leads from behind the file header to where it is
      finished and is sound before that; the table lists the Session and Data Blocks on the path, each with the offset
      where it was met. */
  lemma RebuiltExactly(file: Octets, t: Table)
    ensures ScanFile(file) == Rebuilt(t) <==> exists offs :: Lists(file, offs, t)
  {
    hide Turn, StageFor, Sound, TableFor, Finished, Reached, ScanRounds;
    if ScanFile(file) == Rebuilt(t) {
      var n := RoundsEnd(file, BEGIN, Limit(file));
      IsReached(file, n);
      var offs := ReachedPath(file, n);
      TurnIs(file, offs);
      assert Lists(file, offs, t);
    }
    if offs :| Lists(file, offs, t) {
      PathReached(file, offs);
      TurnIs(file, offs);
      FinishedStops(file, Last(offs));
      ScanEnds(file, |offs| - 1);
    }
  }

  /** The sum of offset and length overflows if and only if a sound path leads to a block where it does. */
  lemma OverflowExactly(file: Octets)
    ensures ScanFile(file) == Overflow <==>
      exists offs :: Path(file, offs) && Sound(file, Init(offs)) && Overflows(file, Last(offs))
  {
    hide Turn, StageFor, Sound, TableFor, Overflows, Reached, ScanRounds, Leads;
    if ScanFile(file) == Overflow {
      var n := RoundsEnd(file, BEGIN, Limit(file));
      IsReached(file, n);
      var offs := ReachedPath(file, n);
      TurnIs(file, offs);
    }
    if offs :| Path(file, offs) && Sound(file, Init(offs)) && Overflows(file, Last(offs)) {
      PathReached(file, offs);
      TurnIs(file, offs);
      FinishedStops(file, Last(offs));
      ScanEnds(file, |offs| - 1);
    }
  }

  lemma FinishedStops(file: Octets, off: int)
    requires Finished(file, off) || Overflows(file, off)
    ensures !Leads(file, off, off + Length(file, off))
  {
  }

  lemma IsReached(file: Octets, n: nat)
    ensures Reached(file, n) == Iter(StepOf(file), BEGIN, n)
  {
  }
}
