/** Rebuilding the Content Table of a file that was not closed, by walking over its blocks. */
module Rebuild {
  import opened Bytes
  import opened Messages
  import opened DataBuffer
  import opened Blocks
  import opened DataBlock
  import opened ContentTable
  import opened Status
  import opened BlockContent
  import opened W = Writer
  import opened WriterProofs
  import opened FileImage
  import opened EndToEnd
  import opened Reopening

  /** Octets read at the start of each block: a whole Session Block. */
  const PROBE := SESSION_LEN
  const TWO63 := 0x8000_0000_0000_0000
  const MAX_LISTED_SESSIONS := 0x1_0000
  /** More than the two lists can hold together. */
  const ENTRIES := 0x2_0000_0000

  /** What becomes of a scan: a table, an error, a sum of offset and length that leaves the signed type (which C++
      does not define), or nothing at all. */
  datatype Scan = Rebuilt(table: Table) | Damaged | Overflow | Endless

  /** The variables of the loop. */
  datatype Stage = Stage(off: int, table: Table, sessions: map<U16, Session>)

  datatype Round = Goes(at: Stage) | Ends(scan: Scan)

  const BEGIN := Stage(FILE_HDR_LEN, Table([], []), map[])

  function LengthAt(file: Octets, off: nat): U64
    requires off + PROBE <= |file|
  {
    FromLe64(file[off + 4..off + 12])
  }

  /** The cast to `off_t` */
  function Signed(n: U64): int
  {
    if n < TWO63 then n else n - TWO64
  }

  /** A block adds its entry unless a list is full; a Session Block must load and must not contradict another one
      with its ID. */
  function Process(file: Octets, off: nat, t: Table, sessions: map<U16, Session>): Option<(Table, map<U16, Session>)>
    requires off + PROBE <= |file|
  {
    var h := HeaderOf(file[off..off + PROBE]);
    if h.btype == BTYPE_SESSION then
      match LoadSession(file, off)
      case None => None
      case Some(p) =>
        if |t.sessions| >= MAX_LISTED_SESSIONS then None
        else
          var t' := t.(sessions := t.sessions + [SessEntry(off, h.size, p.0)]);
          if p.0 !in sessions then Some((t', sessions[p.0 := p.1]))
          else if sessions[p.0] == p.1 then Some((t', sessions)) else None
    else if h.btype == BTYPE_DATA then
      if |t.blocks| + 1 > MAX_ENTRIES then None
      else Some((t.(blocks := t.blocks + [DataEntry(off, h.size, h.toff, h.odid, h.sid)]), sessions))
    else Some((t, sessions))
  }

  /** One round of the loop of `ctable_rebuild`. Reading at a negative offset fails. */
  function Turn(file: Octets, s: Stage): Round
  {
    if s.off + PROBE > |file| then Ends(Rebuilt(s.table))
    else if s.off < 0 || LengthAt(file, s.off) == 0 then Ends(Damaged)
    else
      var next := s.off + Signed(LengthAt(file, s.off));
      if next >= TWO63 then Ends(Overflow)
      else if next > |file| then Ends(Rebuilt(s.table))
      else
        match Process(file, s.off, s.table, s.sessions)
        case None => Ends(Damaged)
        case Some(p) => Goes(Stage(next, p.0, p.1))
  }

  /** The scan from `s`, given up after `n` rounds. */
  function ScanRounds(file: Octets, s: Stage, n: nat): Scan
    decreases n
  {
    if n == 0 then Endless
    else
      match Turn(file, s)
      case Ends(r) => r
      case Goes(t) => ScanRounds(file, t, n - 1)
  }

  /** A scan that goes on for so many rounds goes on for ever (`EndlessExactly`). */
  function Limit(file: Octets): nat
  {
    (|file| + 1) * ENTRIES + 1
  }

  function ScanFile(file: Octets): Scan
  {
    ScanRounds(file, BEGIN, Limit(file))
  }

  /** `ctable_rebuild`; where it would not end, the method gives up. */
  method CtableRebuild(file: Octets) returns (r: Scan)
    ensures r == ScanFile(file)
  {
    hide LoadSession, HeaderOf, FromLe64;
    var content := new BlockContent();
    var sessions: map<U16, Session> := map[];
    var off: int := FILE_HDR_LEN;
    var round: nat, limit := 0, Limit(file);
    while round < limit && off + PROBE <= |file|
      invariant round <= limit && fresh(content)
      invariant ScanRounds(file, Stage(off, content.Entries(), sessions), limit - round) == ScanFile(file)
      decreases limit - round
    {
      if off < 0 { return Damaged; }
      var blockLen := FromLe64(file[off + 4..off + 12]);
      if blockLen == 0 { return Damaged; }
      if off + Signed(blockLen) >= TWO63 { return Overflow; }
      if off + Signed(blockLen) > |file| { break; }
      var h := HeaderOf(file[off..off + PROBE]);
      if h.btype == BTYPE_SESSION {
        var loaded := LoadSession(file, off);
        if loaded.None? { return Damaged; }
        var sid, session := loaded.value.0, loaded.value.1;
        var st := content.AddSession(SessEntry(off, h.size, sid));
        if st != Ok || (sid in sessions && sessions[sid] != session) { return Damaged; }
        if sid !in sessions { sessions := sessions[sid := session]; }
      } else if h.btype == BTYPE_DATA {
        var st := content.AddDataBlock(DataEntry(off, h.size, h.toff, h.odid, h.sid));
        if st != Ok { return Damaged; }
      }
      off := off + Signed(blockLen);
      round := round + 1;
    }
    return if round == limit then Endless else Rebuilt(content.Entries());
  }

  // ----- iteration of a step that may stop -----

  function Iter<S>(f: S -> Option<S>, s: S, n: nat): Option<S>
  {
    if n == 0 then Some(s)
    else
      match Iter(f, s, n - 1)
      case None => None
      case Some(t) => f(t)
  }

  lemma {:induction false} IterEarlier<S>(f: S -> Option<S>, s: S, i: nat, n: nat)
    requires i <= n && Iter(f, s, n).Some?
    ensures Iter(f, s, i).Some?
  {
    if i < n { IterEarlier(f, s, i, n - 1); }
  }

  lemma {:induction false} IterFront<S>(f: S -> Option<S>, s: S, n: nat)
    ensures Iter(f, s, n + 1) == match f(s) case None => None case Some(t) => Iter(f, t, n)
  {
    if n > 0 { IterFront(f, s, n - 1); }
    assert n == 0 ==> Iter(f, s, 1) == f(s);
  }

  lemma {:induction false} IterShift<S>(f: S -> Option<S>, s: S, i: nat, j: nat, m: nat)
    requires Iter(f, s, i) == Iter(f, s, j)
    ensures Iter(f, s, i + m) == Iter(f, s, j + m)
  {
    if m > 0 { IterShift(f, s, i, j, m - 1); }
  }

  /** What comes to the same state twice never stops. */
  lemma {:induction false} IterCycle<S>(f: S -> Option<S>, s: S, i: nat, j: nat, n: nat)
    requires i < j && Iter(f, s, j).Some? && Iter(f, s, i) == Iter(f, s, j)
    ensures Iter(f, s, n).Some?
  {
    if n <= j {
      IterEarlier(f, s, n, j);
    } else {
      IterShift(f, s, i, j, n - j);
      IterCycle(f, s, i, j, i + (n - j));
    }
  }

  /** More numbers than there are values: two of them are equal. */
  lemma {:induction false} Pigeonhole(xs: seq<nat>, bound: nat) returns (i: nat, j: nat)
    requires |xs| > bound && forall k :: 0 <= k < |xs| ==> xs[k] < bound
    ensures i < j < |xs| && xs[i] == xs[j]
    decreases bound
  {
    var top := bound - 1;
    assert xs[0] < bound;
    if p :| 0 <= p < |xs| && xs[p] == top {
      if q :| 0 <= q < |xs| && q != p && xs[q] == top {
        i, j := if p < q then p else q, if p < q then q else p;
      } else {
        var rest := xs[..p] + xs[p + 1..];
        i, j := Pigeonhole(rest, top);
        i, j := if i < p then i else i + 1, if j < p then j else j + 1;
      }
    } else {
      i, j := Pigeonhole(xs, top);
    }
  }

  // ----- when a scan ends -----

  /** The stage after `n` rounds, if the scan goes on so long. */
  function Reached(file: Octets, n: nat): Option<Stage>
  {
    Iter(StepOf(file), BEGIN, n)
  }

  function StepOf(file: Octets): Stage -> Option<Stage>
  {
    (s: Stage) => match Turn(file, s) case Goes(t) => Some(t) case Ends(_) => None
  }

  lemma LastRound(file: Octets, n: nat)
    requires n > 0 && Reached(file, n).Some?
    ensures Reached(file, n - 1).Some? && Turn(file, Reached(file, n - 1).value) == Goes(Reached(file, n).value)
  {
    hide Turn;
  }

  lemma {:induction false} RoundsIter(file: Octets, s: Stage, n: nat)
    ensures ScanRounds(file, s, n) == Endless <==> Iter(StepOf(file), s, n).Some?
    decreases n
  {
    hide Turn;
    TurnEnds(file, s);
    if n > 0 {
      IterFront(StepOf(file), s, n - 1);
      match Turn(file, s)
      case Ends(_) =>
      case Goes(t) => RoundsIter(file, t, n - 1);
    }
  }

  lemma TurnEnds(file: Octets, s: Stage)
    ensures Turn(file, s) != Ends(Endless)
  {
  }

  predicate ListedAt(file: Octets, off: int)
  {
    0 <= off && off + PROBE <= |file| &&
    var btype := HeaderOf(file[off..off + PROBE]).btype;
    btype == BTYPE_SESSION || btype == BTYPE_DATA
  }

  function Count(t: Table): nat { |t.sessions| + |t.blocks| }

  /** One round: it starts inside the file, and adds one entry for a listed block and none for another. */
  lemma TurnFacts(file: Octets, s: Stage)
    requires Turn(file, s).Goes?
    ensures
      var t := Turn(file, s).at;
      && 0 <= s.off && s.off + PROBE <= |file| && t.off == s.off + Signed(LengthAt(file, s.off)) <= |file|
      && (if ListedAt(file, s.off) then Count(t.table) == Count(s.table) + 1
          else t.table == s.table && t.sessions == s.sessions)
      && (|s.table.sessions| <= MAX_LISTED_SESSIONS ==> |t.table.sessions| <= MAX_LISTED_SESSIONS)
      && (|s.table.blocks| <= MAX_ENTRIES ==> |t.table.blocks| <= MAX_ENTRIES)
  {
    hide LoadSession, HeaderOf, FromLe64;
  }

  lemma {:induction false} CountBound(file: Octets, n: nat)
    requires Reached(file, n).Some?
    ensures
      var t := Reached(file, n).value.table;
      |t.sessions| <= MAX_LISTED_SESSIONS && |t.blocks| <= MAX_ENTRIES && Count(t) < ENTRIES
  {
    if n > 0 {
      hide Turn;
      LastRound(file, n);
      CountBound(file, n - 1);
      TurnFacts(file, Reached(file, n - 1).value);
    }
  }

  /** No listed block is visited in the rounds from `i` to `j`. */
  ghost predicate Quiet(file: Octets, i: nat, j: nat)
  {
    forall k :: i <= k < j && Reached(file, k).Some? ==> !ListedAt(file, Reached(file, k).value.off)
  }

  /** Entries are never lost; where none is added, table and sessions stay as they are. */
  lemma {:induction false} Between(file: Octets, i: nat, j: nat)
    requires i <= j && Reached(file, j).Some?
    ensures
      && Reached(file, i).Some?
      && var s, t := Reached(file, i).value, Reached(file, j).value;
      && Count(s.table) <= Count(t.table)
      && (Count(s.table) == Count(t.table) <==> Quiet(file, i, j))
      && (Quiet(file, i, j) ==> s.table == t.table && s.sessions == t.sessions)
    decreases j
  {
    hide Turn, ListedAt, Count, Reached;
    if i < j {
      LastRound(file, j);
      Between(file, i, j - 1);
      TurnFacts(file, Reached(file, j - 1).value);
      assert Quiet(file, i, j) <==> Quiet(file, i, j - 1) && !ListedAt(file, Reached(file, j - 1).value.off);
    }
  }

  /** In the rounds from `i` to `j` the scan comes back to the same offset without listing anything. */
  ghost predicate Repeats(file: Octets, i: nat, j: nat)
  {
    i < j && Reached(file, i).Some? && Reached(file, j).Some? &&
      Reached(file, i).value.off == Reached(file, j).value.off && Quiet(file, i, j)
  }

  /** Offset and number of entries in one number. */
  function Code(s: Stage): nat
    requires 0 <= s.off
  {
    s.off * ENTRIES + Count(s.table)
  }

  lemma CodeOf(file: Octets, n: nat)
    requires Reached(file, n + 1).Some?
    ensures
      Reached(file, n).Some? && Reached(file, n).value.off >= 0 && Code(Reached(file, n).value) < (|file| + 1) * ENTRIES
    ensures Count(Reached(file, n).value.table) < ENTRIES
  {
    hide Turn, ListedAt, Reached;
    LastRound(file, n + 1);
    CountBound(file, n);
    TurnFacts(file, Reached(file, n).value);
  }

  lemma SameCode(s: Stage, t: Stage)
    requires 0 <= s.off && 0 <= t.off && Count(s.table) < ENTRIES && Count(t.table) < ENTRIES && Code(s) == Code(t)
    ensures s.off == t.off && Count(s.table) == Count(t.table)
  {
    hide Count;
  }

  /** Rounds enough that some offset has come twice with the same number of entries. */
  lemma Collision(file: Octets) returns (i: nat, j: nat)
    requires Reached(file, Limit(file)).Some?
    ensures Repeats(file, i, j)
  {
    hide Turn, ListedAt, Count, Quiet, Code;
    var n := Limit(file);
    forall k: nat | k < n
      ensures Reached(file, k).Some? && Reached(file, k).value.off >= 0 && Code(Reached(file, k).value) < n - 1
    {
      IterEarlier(StepOf(file), BEGIN, k + 1, n);
      CodeOf(file, k);
    }
    var codes := seq(n, k requires 0 <= k < n => Code(Reached(file, k).value));
    i, j := Pigeonhole(codes, n - 1);
    assert Code(Reached(file, i).value) == codes[i] == codes[j] == Code(Reached(file, j).value);
    CodeOf(file, i);
    CodeOf(file, j);
    SameCode(Reached(file, i).value, Reached(file, j).value);
    Between(file, i, j);
  }

  /** `ctable_rebuild` does not end if and only if it comes back to an offset without having met a Session Block or
      a Data Block in between. */
  lemma EndlessExactly(file: Octets)
    ensures (forall n :: Reached(file, n).Some?) <==> exists i, j :: Repeats(file, i, j)
    ensures ScanFile(file) == Endless <==> exists i, j :: Repeats(file, i, j)
  {
    hide ScanRounds, Turn;
    RoundsIter(file, BEGIN, Limit(file));
    if Reached(file, Limit(file)).Some? {
      var i, j := Collision(file);
    }
    if i, j :| Repeats(file, i, j) {
      Between(file, i, j);
      forall n ensures Reached(file, n).Some? { IterCycle(StepOf(file), BEGIN, i, j, n); }
    }
  }

  /** Lengths below 2^63 lead forward. */
  lemma {:induction false} Forward(file: Octets, i: nat, j: nat)
    requires i < j && Reached(file, j).Some?
    requires forall k: nat :: k < j && Reached(file, k).Some? && Inside(file, Reached(file, k).value.off) ==>
      LengthAt(file, Reached(file, k).value.off) < TWO63
    ensures Reached(file, i).Some? && Reached(file, i).value.off < Reached(file, j).value.off
    decreases j
  {
    hide Turn, ListedAt, Count, Reached;
    LastRound(file, j);
    TurnFacts(file, Reached(file, j - 1).value);
    LengthNotZero(file, Reached(file, j - 1).value);
    if i < j - 1 { Forward(file, i, j - 1); }
  }

  predicate Inside(file: Octets, off: int) { 0 <= off && off + PROBE <= |file| }

  lemma LengthNotZero(file: Octets, s: Stage)
    requires Turn(file, s).Goes?
    ensures LengthAt(file, s.off) != 0
  {
  }

  /** A scan that meets only lengths below 2^63 ends. */
  lemma EndsOnShortLengths(file: Octets)
    requires forall k :: Reached(file, k).Some? && Inside(file, Reached(file, k).value.off) ==>
      LengthAt(file, Reached(file, k).value.off) < TWO63
    ensures ScanFile(file) != Endless
  {
    EndlessExactly(file);
    if i, j :| Repeats(file, i, j) {
      Forward(file, i, j);
    }
  }

  // ----- the offsets alone -----

  /** Where the scan goes from an offset when the lists are ignored. */
  function Leap(file: Octets, off: int): Option<int>
  {
    if off + PROBE > |file| || off < 0 || LengthAt(file, off) == 0 then None
    else
      var next := off + Signed(LengthAt(file, off));
      if next > |file| || next >= TWO63 then None else Some(next)
  }

  function LeapOf(file: Octets): int -> Option<int>
  {
    (off: int) => Leap(file, off)
  }

  /** Offset after `n` blocks from `off` on. */
  function After(file: Octets, off: int, n: nat): Option<int>
  {
    Iter(LeapOf(file), off, n)
  }

  /** From any offset of any file the walk does not end if and only if it comes to some offset twice. */
  lemma WalkEndlessExactly(file: Octets, off: int)
    ensures (forall n :: After(file, off, n).Some?) <==>
      exists i: nat, j: nat :: i < j && After(file, off, j).Some? && After(file, off, i) == After(file, off, j)
  {
    hide Leap;
    if forall n :: After(file, off, n).Some? {
      var n := |file| + 1;
      forall k: nat | k < n ensures After(file, off, k).Some? && 0 <= After(file, off, k).value < |file| {
        assert After(file, off, k + 1).Some?;
        LeapInside(file, After(file, off, k).value);
      }
      var offs := seq(n, k requires 0 <= k < n => After(file, off, k).value);
      var i, j := Pigeonhole(offs, |file|);
      assert After(file, off, i).value == offs[i] == offs[j] == After(file, off, j).value;
    }
    if i: nat, j: nat :| i < j && After(file, off, j).Some? && After(file, off, i) == After(file, off, j) {
      forall n ensures After(file, off, n).Some? { IterCycle(LeapOf(file), off, i, j, n); }
    }
  }

  lemma LeapInside(file: Octets, off: int)
    requires Leap(file, off).Some?
    ensures 0 <= off < |file|
  {
  }

  /** The scan follows the walk as long as it lasts. */
  lemma {:induction false} ScanFollowsWalk(file: Octets, s: Stage, n: nat)
    requires Iter(StepOf(file), s, n).Some?
    ensures After(file, s.off, n) == Some(Iter(StepOf(file), s, n).value.off)
  {
    hide Turn, Leap;
    if n > 0 {
      ScanFollowsWalk(file, s, n - 1);
      TurnLeaps(file, Iter(StepOf(file), s, n - 1).value);
    }
  }

  lemma TurnLeaps(file: Octets, s: Stage)
    requires Turn(file, s).Goes?
    ensures Leap(file, s.off) == Some(Turn(file, s).at.off)
  {
    hide Process, LengthAt;
  }

  // ----- a file that is scanned for ever -----

  /** A file that was not closed, with two blocks of an unknown type, the second of which leads back to the first. */
  function Trap(): Octets
  {
    FileHeader(ALG_NONE, 0) + (BlockHeader(9, 0, PROBE) + seq(PROBE - BHDR_LEN, _ => 0))
    + (BlockHeader(9, 0, TWO64 - PROBE) + seq(PROBE - BHDR_LEN, _ => 0))
  }

  /** Its header is accepted and names no Content Table, so that the table is rebuilt. */
  lemma TrapOpens()
    ensures LoadHeader(Trap()) == Some(HeaderInfo(FILE_VERSION, ALG_NONE, 0))
  {
    hide FileHeader, LoadHeader, BlockHeader;
    var body := (BlockHeader(9, 0, PROBE) + seq(PROBE - BHDR_LEN, _ => 0))
      + (BlockHeader(9, 0, TWO64 - PROBE) + seq(PROBE - BHDR_LEN, _ => 0));
    assert Trap() == FileHeader(ALG_NONE, 0) + body;
    HeaderRoundTrip(ALG_NONE, 0, body);
  }

  lemma TrapBlock(off: nat, len: U64)
    requires (off == FILE_HDR_LEN && len == PROBE) || (off == FILE_HDR_LEN + PROBE && len == TWO64 - PROBE)
    ensures off + PROBE <= |Trap()| && LengthAt(Trap(), off) == len && !ListedAt(Trap(), off)
  {
    hide Le64, FromLe64, Le16, FromLe16, FileHeader;
    var probe := Trap()[off..off + PROBE];
    var rest := seq(PROBE - BHDR_LEN, _ => 0);
    assert probe == BlockHeader(9, 0, len) + rest;
    HeaderFields(9, 0, len, rest);
    assert Trap()[off + 4..off + 12] == probe[4..12];
    assert HeaderOf(probe).btype == 9;
  }

  lemma TrapTurn(s: Stage)
    requires s.off == FILE_HDR_LEN || s.off == FILE_HDR_LEN + PROBE
    ensures Turn(Trap(), s) == Goes(s.(off := 2 * FILE_HDR_LEN + PROBE - s.off))
  {
    TrapBlock(s.off, if s.off == FILE_HDR_LEN then PROBE else TWO64 - PROBE);
    hide Trap, LengthAt, HeaderOf;
  }

  /** Rejecting lengths of zero is not enough for termination: the reader never gets past this file. */
  lemma ScanNeverEnds()
    ensures ScanFile(Trap()) == Endless && forall n :: Reached(Trap(), n).Some?
  {
    hide Trap, Turn, ListedAt;
    TrapTurn(BEGIN);
    var s1 := BEGIN.(off := FILE_HDR_LEN + PROBE);
    TrapTurn(s1);
    assert Reached(Trap(), 0) == Some(BEGIN) && Reached(Trap(), 1) == Some(s1) && Reached(Trap(), 2) == Some(BEGIN);
    TrapBlock(FILE_HDR_LEN, PROBE);
    TrapBlock(FILE_HDR_LEN + PROBE, TWO64 - PROBE);
    assert Repeats(Trap(), 0, 2);
    EndlessExactly(Trap());
  }

  // ----- a file of the writer -----

  lemma {:induction false} RoundsFrom(file: Octets, s: Stage, n: nat, m: nat)
    requires Iter(StepOf(file), s, n).Some?
    ensures ScanRounds(file, s, n + m) == ScanRounds(file, Iter(StepOf(file), s, n).value, m)
    decreases n
  {
    hide Turn;
    if n > 0 {
      IterFront(StepOf(file), s, n - 1);
      RoundsFrom(file, Turn(file, s).at, n - 1, m);
    }
  }

  /** A scan that comes to a round that ends it ends with what that round says. */
  lemma EndsWith(file: Octets, n: nat)
    requires Reached(file, n).Some? && Turn(file, Reached(file, n).value).Ends? && n < Limit(file)
    ensures ScanFile(file) == Turn(file, Reached(file, n).value).scan
  {
    hide Turn;
    RoundsFrom(file, BEGIN, n, Limit(file) - n);
  }

  function TypeOf(b: Block): U16
  {
    match b
    case SessionB(_, _) => BTYPE_SESSION
    case TmpltsB(_, _, _) => BTYPE_TMPLTS
    case DataB(_, _, _, _, _) => BTYPE_DATA
  }

  /** The header of every block names its type and its length. */
  lemma BlockHead(cd: Codec, b: Block, tail: Octets)
    requires |EncBlock(cd, b)| < TWO63 && BDATA_HDR_LEN <= |EncBlock(cd, b) + tail|
    requires b.DataB? ==> b.toff < TWO64
    ensures
      var h := HeaderOf(EncBlock(cd, b) + tail);
      && h.btype == TypeOf(b) && h.size == |EncBlock(cd, b)|
      && (b.DataB? ==> h.sid == b.sid && h.odid == b.odid && h.toff == b.toff)
  {
    hide Le16, Le32, Le64, FromLe16, FromLe32, FromLe64, EncMsgs, TmpltsBody, Stored;
    var f := EncBlock(cd, b) + tail;
    var len := |EncBlock(cd, b)|;
    var rest := f[BHDR_LEN..];
    match b
    case SessionB(sid, s) =>
      assert f == BlockHeader(BTYPE_SESSION, 0, len) + rest;
      HeaderFields(BTYPE_SESSION, 0, len, rest);
    case TmpltsB(sid, odid, m) =>
      assert f == BlockHeader(BTYPE_TMPLTS, 0, len) + rest;
      HeaderFields(BTYPE_TMPLTS, 0, len, rest);
    case DataB(sid, odid, toff, msgs, _) =>
      DataHeaderFields(cd, len, sid, odid, toff);
      var st := Stored(cd, EncMsgs(msgs));
      assert f == DataHeader(cd, len, sid, odid, toff) + (st + tail);
      HeaderPrefix(DataHeader(cd, len, sid, odid, toff), st + tail);
  }

  /** The probe shows the same header fields as the file behind `off`. */
  lemma ProbeHead(file: Octets, off: nat)
    requires off + PROBE <= |file|
    ensures HeaderOf(file[off..off + PROBE]) == HeaderOf(file[off..])
    ensures HeaderOf(file[off..]).size == LengthAt(file, off)
  {
    var h := file[off..off + BDATA_HDR_LEN];
    HeaderPrefix(h, file[off + BDATA_HDR_LEN..off + PROBE]);
    HeaderPrefix(h, file[off + BDATA_HDR_LEN..]);
    assert file[off..off + PROBE] == h + file[off + BDATA_HDR_LEN..off + PROBE];
    assert file[off..] == h + file[off + BDATA_HDR_LEN..];
    assert h[4..12] == file[off + 4..off + 12];
  }

  lemma StartEnds(w: W.Writer)
    requires Inv(w)
    ensures Start(w.codec, w.blocks, |w.blocks|) == w.offset == FILE_HDR_LEN + |Render(w.codec, w.blocks)|
  {
    OffsetOf(w);
    assert w.blocks[..|w.blocks|] == w.blocks;
  }

  lemma StartsRise(w: W.Writer, i: nat, k: nat)
    requires Inv(w) && i <= k <= |w.blocks|
    ensures FILE_HDR_LEN + i <= Start(w.codec, w.blocks, i) <= Start(w.codec, w.blocks, k) <= w.offset
    decreases i + k
  {
    hide Inv, EncBlock, Render, Start;
    StartEnds(w);
    if i < k { BlocksInOrder(w, i, k); }
    if k < |w.blocks| { BlocksInOrder(w, k, |w.blocks|); }
    if i > 0 {
      StartsRise(w, i - 1, i - 1);
      StartStep(w.codec, w.blocks, i - 1);
      BlockIsLong(w.codec, w.blocks[i - 1]);
    } else {
      NoStart(w.codec, w.blocks);
    }
  }

  lemma NoStart(cd: Codec, bs: seq<Block>)
    ensures Start(cd, bs, 0) == FILE_HDR_LEN && Index(cd, bs[..0]) == Table([], [])
  {
    hide EncBlock;
    assert bs[..0] == [] && Render(cd, []) == [];
  }

  ghost predicate Seen(sessions: map<U16, Session>, n: nat)
  {
    forall sid :: sid in sessions ==> sid <= n
  }

  lemma StartIs(cd: Codec, bs: seq<Block>, k: nat)
    requires k <= |bs|
    ensures Start(cd, bs, k) == FILE_HDR_LEN + |Render(cd, bs[..k])|
  {
  }

  /** What the invariant says of block `k`: its Template Block lies before the end, its ID is the next one. */
  lemma BlockFacts(w: W.Writer, k: nat)
    requires Inv(w) && Small(w) && k < |w.blocks|
    ensures
      var b := w.blocks[k];
      && (b.DataB? ==> b.toff < TWO63) && |EncBlock(w.codec, b)| < TWO63
      && (b.SessionB? ==>
            ValidSession(b.session) && b.sid == |Index(w.codec, w.blocks[..k]).sessions| + 1
            && EncBlock(w.codec, b) == EncSession(b.sid, b.session))
  {
    var cd, bs := w.codec, w.blocks;
    var b := bs[k];
    BlocksInOrder(w, k, |bs|);
    assert bs[..|bs|] == bs;
    assert BlockOk(cd, bs, w.sessions.Keys, b);
    if b.DataB? {
      HoldsInside(w, b.toff, TmpltsB(b.sid, b.odid, b.tmplts));
    }
    if b.SessionB? {
      hide Inv;
      NextSid(w, k);
    }
  }

  /** Block `k` leaves room for its entry in the lists. */
  lemma EntryFits(w: W.Writer, k: nat)
    requires Inv(w) && Small(w) && k < |w.blocks|
    ensures |Index(w.codec, w.blocks[..k]).sessions| <= MAX_SESSIONS
    ensures w.blocks[k].DataB? ==> |Index(w.codec, w.blocks[..k]).blocks| < MAX_BLOCKS
  {
    hide EncBlock, Render, BlocksOk, OdidsOk, Index;
    var cd, bs := w.codec, w.blocks;
    assert bs[..k + 1] == bs[..k] + [bs[k]];
    IndexPush(cd, bs[..k], bs[k]);
    IndexPrefix(cd, bs, k);
    IndexPrefix(cd, bs, k + 1);
  }

  /** Block `k` of the writer stands in the file, and the probe can be read. */
  predicate Whole(file: Octets, cd: Codec, bs: seq<Block>, k: nat)
    requires k < |bs|
  {
    Start(cd, bs, k) + PROBE <= |file| && At(file, Start(cd, bs, k), EncBlock(cd, bs[k]))
  }

  /** What the probe shows of block `k`. */
  lemma ProbeOf(w: W.Writer, file: Octets, k: nat)
    requires Inv(w) && Small(w) && k < |w.blocks| && Whole(file, w.codec, w.blocks, k)
    ensures
      var b, off, next := w.blocks[k], Start(w.codec, w.blocks, k), Start(w.codec, w.blocks, k + 1);
      var h := HeaderOf(file[off..off + PROBE]);
      && off < next <= |file| && next < TWO63 && LengthAt(file, off) == h.size == next - off == |EncBlock(w.codec, b)|
      && h.btype == TypeOf(b) && (b.DataB? ==> h.sid == b.sid && h.odid == b.odid && h.toff == b.toff)
  {
    hide Inv, Small, EncBlock, HeaderOf, Start, LengthAt, Index;
    var cd, bs := w.codec, w.blocks;
    var off := Start(cd, bs, k);
    StartStep(cd, bs, k);
    StartsRise(w, k + 1, |bs|);
    SmallOffset(w);
    BlockFacts(w, k);
    BlockIsLong(cd, bs[k]);
    ProbeHead(file, off);
    var tail := file[off + |EncBlock(cd, bs[k])|..];
    assert file[off..] == EncBlock(cd, bs[k]) + tail;
    BlockHead(cd, bs[k], tail);
  }

  lemma SmallOffset(w: W.Writer)
    requires Small(w)
    ensures w.offset < TWO63
  {
  }

  /** One block of the writer is listed by the scan as the writer listed it. */
  lemma ScanBlock(w: W.Writer, file: Octets, k: nat, sessions: map<U16, Session>)
    requires Inv(w) && Small(w) && k < |w.blocks| && Whole(file, w.codec, w.blocks, k)
    requires Seen(sessions, |Index(w.codec, w.blocks[..k]).sessions|)
    ensures
      var r := Turn(file, Stage(Start(w.codec, w.blocks, k), Index(w.codec, w.blocks[..k]), sessions));
      && r.Goes? && r.at.off == Start(w.codec, w.blocks, k + 1) && r.at.table == Index(w.codec, w.blocks[..k + 1])
      && Seen(r.at.sessions, |Index(w.codec, w.blocks[..k + 1]).sessions|)
  {
    hide Inv, Small, EncBlock, Render, HeaderOf, LoadSession, Index, Start, LengthAt;
    var cd, bs := w.codec, w.blocks;
    var b := bs[k];
    ProbeOf(w, file, k);
    BlockFacts(w, k);
    EntryFits(w, k);
    assert bs[..k + 1] == bs[..k] + [b];
    IndexPush(cd, bs[..k], b);
    StartIs(cd, bs, k);
    if b.SessionB? {
      SessionRoundTrip(file, Start(cd, bs, k), b.sid, b.session);
    }
  }

  /** The scan comes to block `k` with the table of the blocks before. */
  lemma {:induction false} ComesTo(w: W.Writer, file: Octets, k: nat)
    requires Inv(w) && Small(w) && k <= |w.blocks|
    requires forall j: nat :: j < k ==> Whole(file, w.codec, w.blocks, j)
    ensures
      && Reached(file, k).Some?
      && var s := Reached(file, k).value;
      && s.off == Start(w.codec, w.blocks, k) && s.table == Index(w.codec, w.blocks[..k])
      && Seen(s.sessions, |Index(w.codec, w.blocks[..k]).sessions|)
  {
    hide Inv, Small, Index, Start, Whole, Seen, Turn;
    if k == 0 {
      NoStart(w.codec, w.blocks);
      assert Seen(map[], 0) by { NoneSeen(); }
    } else {
      ComesTo(w, file, k - 1);
      ScanBlock(w, file, k - 1, Reached(file, k - 1).value.sessions);
    }
  }

  lemma NoneSeen()
    ensures Seen(map[], 0)
  {
  }

  /** Number of the block at which the scan of a file of `n` octets stops, from block `k` on: the first one that
      is shorter than the probe or not complete. */
  function Scanned(cd: Codec, bs: seq<Block>, n: nat, k: nat): (r: nat)
    requires k <= |bs|
    ensures k <= r <= |bs|
    decreases |bs| - k
  {
    if k == |bs| || Cut(cd, bs, n, k) then k else Scanned(cd, bs, n, k + 1)
  }

  predicate Cut(cd: Codec, bs: seq<Block>, n: nat, k: nat)
    requires k < |bs|
  {
    Start(cd, bs, k) + PROBE > n || Start(cd, bs, k + 1) > n
  }

  lemma {:induction false} ScannedIs(cd: Codec, bs: seq<Block>, n: nat, k: nat)
    requires k <= |bs|
    ensures
      var r := Scanned(cd, bs, n, k);
      (forall j :: k <= j < r ==> !Cut(cd, bs, n, j)) && (r < |bs| ==> Cut(cd, bs, n, r))
    decreases |bs| - k
  {
    hide Cut;
    if k < |bs| && !Cut(cd, bs, n, k) { ScannedIs(cd, bs, n, k + 1); }
  }

  /** The first `n` octets of the file are those the writer wrote. */
  predicate Starts(file: Octets, hdr: Octets, body: Octets, n: nat)
  {
    n <= |file| && n <= |hdr| + |body| && file[..n] == (hdr + body)[..n]
  }

  /** Block `k` in a file that ends somewhere behind it. */
  lemma BlockInCut(w: W.Writer, file: Octets, hdr: Octets, n: nat, k: nat)
    requires Inv(w) && |hdr| == FILE_HDR_LEN && k < |w.blocks| && Starts(file, hdr, Render(w.codec, w.blocks), n)
    requires Start(w.codec, w.blocks, k + 1) <= n && Start(w.codec, w.blocks, k) + PROBE <= |file|
    ensures Whole(file, w.codec, w.blocks, k)
  {
    var cd, bs := w.codec, w.blocks;
    StartStep(cd, bs, k);
    RenderSplit(cd, bs, k);
    OffsetOf(w);
    hide Inv, EncBlock, Render;
    var pre, part, post := Render(cd, bs[..k]), EncBlock(cd, bs[k]), Render(cd, bs[k + 1..]);
    CutParts(file, hdr, pre, part, post, n);
  }

  lemma CutParts(file: Octets, hdr: Octets, pre: Octets, part: Octets, post: Octets, n: nat)
    requires Starts(file, hdr, pre + part + post, n) && |hdr| + |pre| + |part| <= n
    ensures At(file, |hdr| + |pre|, part)
  {
    var off := |hdr| + |pre|;
    var all := hdr + (pre + part + post);
    assert all[off..off + |part|] == part;
    assert file[off..off + |part|] == file[..n][off..off + |part|] == all[..n][off..off + |part|] ==
      all[off..off + |part|];
  }

  /** A block that the cut leaves incomplete ends the scan. */
  lemma CutBlock(w: W.Writer, hdr: Octets, n: nat, k: nat, s: Stage)
    requires Inv(w) && Small(w) && |hdr| == FILE_HDR_LEN && k < |w.blocks| && n <= w.offset
    requires Cut(w.codec, w.blocks, n, k) && s.off == Start(w.codec, w.blocks, k)
    ensures n <= |hdr + Render(w.codec, w.blocks)|
    ensures Turn((hdr + Render(w.codec, w.blocks))[..n], s) == Ends(Rebuilt(s.table))
  {
    hide Inv, Small, EncBlock, Render, HeaderOf, Start, Process;
    var cd, bs := w.codec, w.blocks;
    var all, off := hdr + Render(cd, bs), Start(cd, bs, k);
    StartEnds(w);
    if off + PROBE <= n {
      StartsRise(w, k + 1, |bs|);
      BlockInCut(w, all, hdr, |all|, k);
      ProbeOf(w, all, k);
      assert all[..n][off + 4..off + 12] == all[off + 4..off + 12];
    }
  }

  /** Whatever the length `n` at which a file of the writer ends, the rebuilt table is a prefix of the
      writer's table, with the blocks that are complete and not cut off by the size of the probe. */
  lemma RebuildsPrefix(w: W.Writer, hdr: Octets, n: nat)
    requires Inv(w) && Small(w) && |hdr| == FILE_HDR_LEN && n <= w.offset
    ensures n <= |hdr + Render(w.codec, w.blocks)|
    ensures
      var r := ScanFile((hdr + Render(w.codec, w.blocks))[..n]);
      && r == Rebuilt(Index(w.codec, w.blocks[..Scanned(w.codec, w.blocks, n, 0)]))
      && r.table.sessions <= w.table.sessions && r.table.blocks <= w.table.blocks
  {
    hide Inv, Small, Render, Start, Index, Turn, Whole, Cut, ScanFile, EncBlock;
    var cd, bs := w.codec, w.blocks;
    TableOfAll(w);
    StartEnds(w);
    var file := (hdr + Render(cd, bs))[..n];
    var r := Scanned(cd, bs, n, 0);
    ScannedIs(cd, bs, n, 0);
    forall j: nat | j < r ensures Whole(file, cd, bs, j) {
      NotCut(cd, bs, n, j);
      BlockInCut(w, file, hdr, n, j);
    }
    ComesTo(w, file, r);
    var s := Reached(file, r).value;
    if r < |bs| {
      CutBlock(w, hdr, n, r, s);
    } else {
      ShortRest(file, s);
    }
    if r > 0 {
      NotCut(cd, bs, n, r - 1);
      StartsRise(w, r, r);
    }
    EndsWith(file, r);
    IndexPrefix(cd, bs, r);
  }

  lemma NotCut(cd: Codec, bs: seq<Block>, n: nat, k: nat)
    requires k < |bs| && !Cut(cd, bs, n, k)
    ensures Start(cd, bs, k) + PROBE <= n && Start(cd, bs, k + 1) <= n
  {
  }

  lemma ShortRest(file: Octets, s: Stage)
    requires s.off + PROBE > |file|
    ensures Turn(file, s) == Ends(Rebuilt(s.table))
  {
  }

  // ----- when nothing is missing -----

  /** The first `k` blocks have the table of all exactly when the others are not listed. */
  lemma {:induction false} SameIndex(cd: Codec, bs: seq<Block>, k: nat)
    requires k <= |bs|
    ensures Index(cd, bs[..k]) == Index(cd, bs) <==> forall j :: k <= j < |bs| ==> bs[j].TmpltsB?
    decreases |bs| - k
  {
    hide EncBlock, Render, Index;
    if k == |bs| {
      assert bs[..k] == bs;
    } else {
      SameIndex(cd, bs, k + 1);
      IndexPrefix(cd, bs, k + 1);
      assert bs[..k + 1] == bs[..k] + [bs[k]];
      IndexPush(cd, bs[..k], bs[k]);
    }
  }

  /** The probe can be read at every block that is listed. */
  ghost predicate ProbesFit(cd: Codec, bs: seq<Block>, n: nat)
  {
    forall k: nat :: k < |bs| && !bs[k].TmpltsB? ==> Start(cd, bs, k) + PROBE <= n
  }

  lemma ScansListed(w: W.Writer, n: nat)
    requires Inv(w) && w.offset <= n
    ensures Index(w.codec, w.blocks[..Scanned(w.codec, w.blocks, n, 0)]) == w.table <==> ProbesFit(w.codec, w.blocks, n)
  {
    hide Inv, Start, Index;
    var cd, bs := w.codec, w.blocks;
    TableOfAll(w);
    var r := Scanned(cd, bs, n, 0);
    ScannedIs(cd, bs, n, 0);
    SameIndex(cd, bs, r);
    if r < |bs| { StartsRise(w, r + 1, |bs|); }
    forall j: nat | r <= j < |bs| ensures Start(cd, bs, j) + PROBE > n { StartsRise(w, r, j); }
    forall j: nat | j < r ensures Start(cd, bs, j) + PROBE <= n { NotCut(cd, bs, n, j); }
    if ProbesFit(cd, bs, n) {
      forall j | r <= j < |bs| ensures bs[j].TmpltsB? { assert Start(cd, bs, j) + PROBE > n; }
    }
  }

  /** Nothing is missing in an uncut file exactly when 56 octets follow from the start of every Session Block and
      Data Block on. */
  lemma RebuildsWhole(w: W.Writer, hdr: Octets)
    requires Inv(w) && Small(w) && |hdr| == FILE_HDR_LEN
    ensures ScanFile(hdr + Render(w.codec, w.blocks)) == Rebuilt(w.table) <==> ProbesFit(w.codec, w.blocks, w.offset)
  {
    hide Inv, Small, ScanFile, Render, Index, ProbesFit, Scanned;
    var all := hdr + Render(w.codec, w.blocks);
    StartEnds(w);
    RebuildsPrefix(w, hdr, w.offset);
    assert all[..w.offset] == all;
    ScansListed(w, w.offset);
  }

  /** When the last block is one that is listed, its own length decides. */
  lemma RebuildsWholeByLast(w: W.Writer, hdr: Octets)
    requires Inv(w) && Small(w) && |hdr| == FILE_HDR_LEN && w.blocks != [] && !Last(w.blocks).TmpltsB?
    ensures
      ScanFile(hdr + Render(w.codec, w.blocks)) == Rebuilt(w.table) <==> |EncBlock(w.codec, Last(w.blocks))| >= PROBE
  {
    hide Inv, Small, ScanFile, Render, Start, EncBlock;
    var n := |w.blocks| - 1;
    RebuildsWhole(w, hdr);
    StartEnds(w);
    StartStep(w.codec, w.blocks, n);
    forall k: nat | k <= n ensures Start(w.codec, w.blocks, k) <= Start(w.codec, w.blocks, n) { StartsRise(w, k, n); }
  }

  /** A last Data Block that is shorter than the probe is missed. */
  lemma ShortLastIsMissed(w: W.Writer, hdr: Octets)
    requires Inv(w) && Small(w) && |hdr| == FILE_HDR_LEN && w.blocks != []
    requires Last(w.blocks).DataB? && |EncBlock(w.codec, Last(w.blocks))| < PROBE
    ensures
      var r := ScanFile(hdr + Render(w.codec, w.blocks));
      r.Rebuilt? && w.table.blocks != [] && r.table.blocks <= w.table.blocks[..|w.table.blocks| - 1]
  {
    hide Inv, Small, ScanFile, Render, EncBlock, Index, Scanned;
    var cd, bs, n := w.codec, w.blocks, |w.blocks| - 1;
    var all := hdr + Render(cd, bs);
    StartEnds(w);
    TableOfAll(w);
    RebuildsWholeByLast(w, hdr);
    RebuildsPrefix(w, hdr, w.offset);
    assert all[..w.offset] == all && bs[..n + 1] == bs;
    var r := Scanned(cd, bs, w.offset, 0);
    assert bs == bs[..n] + [bs[n]];
    IndexPush(cd, bs[..n], bs[n]);
    assert bs[..n][..r] == bs[..r];
    IndexPrefix(cd, bs[..n], r);
  }

  // ----- a file that was opened again and not closed -----

  /** Later rounds only add entries. */
  lemma {:induction false} RoundsExtend(file: Octets, s: Stage, n: nat)
    requires ScanRounds(file, s, n).Rebuilt?
    ensures s.table.sessions <= ScanRounds(file, s, n).table.sessions
    ensures s.table.blocks <= ScanRounds(file, s, n).table.blocks
    decreases n
  {
    hide LengthAt, LoadSession, HeaderOf;
    match Turn(file, s)
    case Ends(_) =>
    case Goes(t) => RoundsExtend(file, t, n - 1);
  }

  /** The file that lies behind the blocks of the writer, whatever it holds there, cannot spoil what the scan finds
      of them: it stops at the first block that is cut off from the probe, or it comes to the end of the blocks
      with the writer's table. From there it goes on over the octets that were left behind. */
  lemma RebuildsInFront(w: W.Writer, file: Octets, hdr: Octets) returns (ss: map<U16, Session>)
    requires Inv(w) && Small(w) && |hdr| == FILE_HDR_LEN && Starts(file, hdr, Render(w.codec, w.blocks), w.offset)
    ensures
      var r := Scanned(w.codec, w.blocks, |file|, 0);
      && |w.blocks| + 1 < Limit(file)
      && (r < |w.blocks| ==> ScanFile(file) == Rebuilt(Index(w.codec, w.blocks[..r])))
      && (r == |w.blocks| ==>
            && Reached(file, r) == Some(Stage(w.offset, w.table, ss))
            && ScanFile(file) == ScanRounds(file, Stage(w.offset, w.table, ss), Limit(file) - r))
    ensures ProbesFit(w.codec, w.blocks, |file|) && ScanFile(file).Rebuilt? ==>
      w.table.sessions <= ScanFile(file).table.sessions && w.table.blocks <= ScanFile(file).table.blocks
  {
    hide Inv, Small, Render, Start, Index, Turn, Whole, ProbesFit;
    var cd, bs := w.codec, w.blocks;
    TableOfAll(w);
    StartEnds(w);
    var r := Scanned(cd, bs, |file|, 0);
    ScannedIs(cd, bs, |file|, 0);
    forall j: nat | j < r ensures Whole(file, cd, bs, j) {
      StartsRise(w, j + 1, |bs|);
      NotCut(cd, bs, |file|, j);
      BlockInCut(w, file, hdr, w.offset, j);
    }
    ComesTo(w, file, r);
    ScansListed(w, |file|);
    StartsRise(w, r, |bs|);
    StartsRise(w, |bs|, |bs|);
    ss := Reached(file, r).value.sessions;
    if r < |bs| {
      StartsRise(w, r + 1, |bs|);
      ShortRest(file, Reached(file, r).value);
      EndsWith(file, r);
    } else {
      assert bs[..r] == bs;
      RoundsFrom(file, BEGIN, r, Limit(file) - r);
      if ScanFile(file).Rebuilt? { RoundsExtend(file, Stage(w.offset, w.table, ss), Limit(file) - r); }
    }
  }

  /** What is left of an older Content Table is read as one more block. The table of the writer comes out if the
      remnant is shorter than the probe, or if the place of its length leads behind the end of the file; the file
      is refused if that place is zero. */
  lemma RemnantDecides(w: W.Writer, file: Octets, hdr: Octets)
    requires Inv(w) && Small(w) && |hdr| == FILE_HDR_LEN && Starts(file, hdr, Render(w.codec, w.blocks), w.offset)
    requires ProbesFit(w.codec, w.blocks, |file|)
    ensures w.offset + PROBE > |file| ==> ScanFile(file) == Rebuilt(w.table)
    ensures Scanned(w.codec, w.blocks, |file|, 0) == |w.blocks| && w.offset + PROBE <= |file| ==>
      && (LengthAt(file, w.offset) == 0 ==> ScanFile(file) == Damaged)
      && (|file| < w.offset + Signed(LengthAt(file, w.offset)) < TWO63 ==> ScanFile(file) == Rebuilt(w.table))
  {
    hide Inv, Small, Index, Render, ProbesFit, Process, LengthAt, ScanFile, ScanRounds, Reached, Limit;
    var ss := RebuildsInFront(w, file, hdr);
    ScansListed(w, |file|);
    if Scanned(w.codec, w.blocks, |file|, 0) == |w.blocks| && Turn(file, Stage(w.offset, w.table, ss)).Ends? {
      EndsWith(file, |w.blocks|);
    }
  }

  /** The scan ends regularly at this offset: the probe does not fit, or the length leads behind the end. */
  predicate Stops(file: Octets, off: int)
  {
    || off + PROBE > |file|
    || (0 <= off && LengthAt(file, off) != 0 && |file| < off + Signed(LengthAt(file, off)) < TWO63)
  }

  lemma StopsTurn(file: Octets, s: Stage)
    ensures Turn(file, s) == Ends(Rebuilt(s.table)) <==> Stops(file, s.off)
    ensures Turn(file, s).Ends? && Turn(file, s).scan.Rebuilt? ==> Turn(file, s) == Ends(Rebuilt(s.table))
  {
    hide Process, LengthAt;
  }

  /** A step of the walk over a block that is not listed is a round of the scan that changes the offset only. */
  lemma QuietTurn(file: Octets, s: Stage)
    requires Leap(file, s.off).Some? && !ListedAt(file, s.off)
    ensures Turn(file, s) == Goes(s.(off := Leap(file, s.off).value))
  {
    hide LoadSession, HeaderOf, LengthAt;
  }

  lemma {:induction false} QuietWalk(file: Octets, s: Stage, n: nat)
    requires After(file, s.off, n).Some?
    requires forall k: nat :: k < n && After(file, s.off, k).Some? ==> !ListedAt(file, After(file, s.off, k).value)
    ensures Iter(StepOf(file), s, n) == Some(s.(off := After(file, s.off, n).value))
  {
    hide Turn, Leap, ListedAt;
    if n > 0 {
      QuietWalk(file, s, n - 1);
      QuietTurn(file, s.(off := After(file, s.off, n - 1).value));
    }
  }

  /** A scan that comes to a result has a last stage. */
  lemma {:induction false} LastStage(file: Octets, s: Stage, n: nat) returns (m: nat)
    requires ScanRounds(file, s, n) != Endless
    ensures Iter(StepOf(file), s, m).Some?
    ensures Turn(file, Iter(StepOf(file), s, m).value) == Ends(ScanRounds(file, s, n))
    decreases n
  {
    hide Turn;
    match Turn(file, s)
    case Ends(_) => m := 0;
    case Goes(t) =>
      m := LastStage(file, t, n - 1);
      IterFront(StepOf(file), s, m);
      m := m + 1;
  }

  lemma {:induction false} ReachedFrom(file: Octets, r: nat, m: nat)
    requires Reached(file, r).Some?
    ensures Reached(file, r + m) == Iter(StepOf(file), Reached(file, r).value, m)
  {
    hide Turn;
    if m > 0 { ReachedFrom(file, r, m - 1); }
  }

  /** A stage of the scan at which a round ends it. */
  lemma EndsThere(file: Octets, n: nat)
    requires Reached(file, n).Some? && Turn(file, Reached(file, n).value).Ends?
    ensures ScanFile(file) == Turn(file, Reached(file, n).value).scan
  {
    hide Turn, ScanRounds;
    NoRoundAfter(file, n);
    EndlessExactly(file);
    RoundsIter(file, BEGIN, Limit(file));
    if n >= Limit(file) {
      IterEarlier(StepOf(file), BEGIN, Limit(file), n);
    } else {
      EndsWith(file, n);
    }
  }

  lemma NoRoundAfter(file: Octets, n: nat)
    requires Reached(file, n).Some? && Turn(file, Reached(file, n).value).Ends?
    ensures Reached(file, n + 1).None?
  {
    hide Turn;
  }

  /** The walk from `off` on comes to an offset at which the scan ends, without a listed block on its way. */
  ghost predicate EndsQuietly(file: Octets, off: int, n: nat)
  {
    && After(file, off, n).Some? && Stops(file, After(file, off, n).value)
    && forall k: nat :: k < n && After(file, off, k).Some? ==> !ListedAt(file, After(file, off, k).value)
  }

  /** From a stage of the scan: its table is what comes out if and only if the walk ends quietly. */
  lemma QuietExactly(file: Octets, r: nat)
    requires Reached(file, r).Some?
    ensures
      var s := Reached(file, r).value;
      ScanFile(file) == Rebuilt(s.table) <==> exists n :: EndsQuietly(file, s.off, n)
  {
    hide Turn, ListedAt, Stops, ScanRounds, Limit;
    var s := Reached(file, r).value;
    if n :| EndsQuietly(file, s.off, n) {
      QuietWalk(file, s, n);
      ReachedFrom(file, r, n);
      StopsTurn(file, Reached(file, r + n).value);
      EndsThere(file, r + n);
    }
    if ScanFile(file) == Rebuilt(s.table) {
      var m := LastStage(file, BEGIN, Limit(file));
      StopsTurn(file, Reached(file, m).value);
      if m < r {
        IterEarlier(StepOf(file), BEGIN, m + 1, r);
        LastRound(file, m + 1);
      }
      QuietFromTo(file, r, m);
    }
  }

  lemma QuietFromTo(file: Octets, r: nat, m: nat)
    requires r <= m && Reached(file, r).Some? && Reached(file, m).Some? && Stops(file, Reached(file, m).value.off)
    requires Reached(file, m).value.table == Reached(file, r).value.table
    ensures EndsQuietly(file, Reached(file, r).value.off, m - r)
  {
    hide Turn, ListedAt, Stops;
    var s := Reached(file, r).value;
    Between(file, r, m);
    ReachedFrom(file, r, m - r);
    ScanFollowsWalk(file, s, m - r);
    forall k: nat | k < m - r ensures After(file, s.off, k).Some? && !ListedAt(file, After(file, s.off, k).value) {
      IterEarlier(StepOf(file), BEGIN, r + k, m);
      ReachedFrom(file, r, k);
      ScanFollowsWalk(file, s, k);
    }
  }

  /** What lies behind the blocks of a writer leaves its table as it is if and only if the octets there make up blocks
      that are not listed, the last of which is cut off or leads behind the end of the file. */
  lemma RemnantExactly(w: W.Writer, file: Octets, hdr: Octets)
    requires Inv(w) && Small(w) && |hdr| == FILE_HDR_LEN && Starts(file, hdr, Render(w.codec, w.blocks), w.offset)
    requires Scanned(w.codec, w.blocks, |file|, 0) == |w.blocks|
    ensures ScanFile(file) == Rebuilt(w.table) <==> exists n :: EndsQuietly(file, w.offset, n)
  {
    hide Inv, Small, Render, Scanned, Starts, ScanFile, Reached, EndsQuietly;
    var ss := RebuildsInFront(w, file, hdr);
    QuietExactly(file, |w.blocks|);
  }

  lemma TableLength(t: Table)
    ensures |EncTable(t)| >= TABLE_HDR_LEN
    ensures t.blocks != [] ==> |EncTable(t)| >= PROBE
  {
    hide Le16, Le32, Le64, BlockHeader, Flags;
  }

  lemma TableHead(t: Table, tail: Octets)
    requires |EncTable(t)| < TWO64 && BDATA_HDR_LEN <= |EncTable(t) + tail|
    ensures
      var h := HeaderOf(EncTable(t) + tail);
      h.btype == BTYPE_TABLE && h.size == |EncTable(t)|
  {
    hide Le16, Le32, Le64, FromLe16, FromLe32, FromLe64, Flags, Offsets, EncSessions, EncBlocks;
    var f := EncTable(t) + tail;
    var rest := f[BHDR_LEN..];
    assert f == BlockHeader(BTYPE_TABLE, 0, |EncTable(t)|) + rest;
    HeaderFields(BTYPE_TABLE, 0, |EncTable(t)|, rest);
  }

  lemma NextReached(file: Octets, n: nat)
    requires Reached(file, n).Some? && Turn(file, Reached(file, n).value).Goes?
    ensures Reached(file, n + 1) == Some(Turn(file, Reached(file, n).value).at)
  {
    hide Turn;
  }

  /** Room for the probe at every listed block: a Session Block is as long, and a Data Block is followed by a
      Content Table that is long enough because of it. */
  lemma ListedProbes(w: W.Writer)
    requires Inv(w)
    ensures ProbesFit(w.codec, w.blocks, w.offset + |EncTable(w.table)|)
  {
    hide Inv, Render, Start, Index, EncTable;
    var cd, bs := w.codec, w.blocks;
    TableOfAll(w);
    TableLength(w.table);
    forall k: nat | k < |bs| && !bs[k].TmpltsB? ensures Start(cd, bs, k) + PROBE <= w.offset + |EncTable(w.table)| {
      StartsRise(w, k + 1, |bs|);
      StartStep(cd, bs, k);
      if bs[k].DataB? {
        assert bs[..k + 1] == bs[..k] + [bs[k]];
        IndexPush(cd, bs[..k], bs[k]);
        IndexPrefix(cd, bs, k + 1);
      } else {
        SessionLength(cd, bs[k]);
      }
    }
  }

  /** A closed file that was opened to append and lost before the first write, when only its header has changed, is
      rebuilt as it was: the old Content Table is passed over like a block. */
  lemma RebuildsReopened(w: W.Writer, hdr: Octets)
    requires Inv(w) && Small(w) && |hdr| == FILE_HDR_LEN
    requires |hdr + Render(w.codec, w.blocks) + EncTable(w.table)| < TWO63
    ensures ScanFile(hdr + Render(w.codec, w.blocks) + EncTable(w.table)) == Rebuilt(w.table)
  {
    hide Inv, Small, Index, ProbesFit, HeaderOf, LengthAt, ScanFile, ScanRounds, Reached, Limit, Render;
    hide EncTable, Scanned;
    var tab := EncTable(w.table);
    var file := hdr + Render(w.codec, w.blocks) + tab;
    StartEnds(w);
    assert Starts(file, hdr, Render(w.codec, w.blocks), w.offset);
    TableLength(w.table);
    ListedProbes(w);
    var ss := RebuildsInFront(w, file, hdr);
    ScansListed(w, |file|);
    if Scanned(w.codec, w.blocks, |file|, 0) == |w.blocks| {
      var s := Stage(w.offset, w.table, ss);
      if w.offset + PROBE <= |file| {
        ProbeHead(file, w.offset);
        assert file[w.offset..] == tab + [];
        TableHead(w.table, []);
        assert Turn(file, s) == Goes(Stage(|file|, w.table, ss));
        ShortRest(file, Stage(|file|, w.table, ss));
        NextReached(file, |w.blocks|);
        EndsWith(file, |w.blocks| + 1);
      } else {
        ShortRest(file, s);
        EndsWith(file, |w.blocks|);
      }
    }
  }
}
