/** The language of the parser: which token lists are filters, and of which tree. Parentheses may stand wherever they
    like; without them the operators on both sides decide how far an operand reaches. */
module FilterGrammar {
  import opened Bytes
  import opened Parser
  import opened ShortestForm

  /** `ts` is the expression `e` where operators below `prec` belong to others and an operator of precedence `next`
      follows (-1: none). */
  ghost predicate Written(ts: seq<Token>, e: Expr, prec: int, next: int)
    decreases |ts|, 2
  {
    Alone(ts, e, next) || (e.Bin? && exists i :: 0 < i < |ts| && Joined(ts, i, e.op, e.l, e.r, prec, next))
  }

  /** Where the right operand begins; the implicit operator is not written. */
  function Behind(op: Sym, i: nat): nat
  {
    if op == Implicit then i else i + 1
  }

  /** Two operands with their operator at position `i`. It binds the left operand at least as tightly as all operators
      in it and more tightly than what follows. */
  ghost predicate Joined(ts: seq<Token>, i: nat, op: Sym, l: Expr, r: Expr, prec: int, next: int)
    requires 0 < i < |ts|
    decreases |ts|, 1
  {
    var p := InfixPrec(op);
    && 0 <= p && prec <= p && next <= p && Behind(op, i) < |ts|
    && (if op == Implicit then !IsInfix(ts[i]) else ts[i] == Symbol(op))
    && Written(ts[..i], l, prec, p) && Written(ts[Behind(op, i)..], r, p + 1, next)
  }

  /** An expression in parentheses, a name, a value, a list, or a prefix operator with its operand. */
  ghost predicate Alone(ts: seq<Token>, e: Expr, next: int)
    decreases |ts|, 1
  {
    || Enclosed(ts, e)
    || match e
       case NameE(None, n) => ts == [NameT(n)]
       case NameE(Some(s), n) => ts == [Symbol(s), NameT(n)] && IsNamePrefix(s)
       case LitE(v) => ts == [Literal(v)]
       case ListE(items) =>
         |ts| >= 2 && ts[0] == Symbol(LBracket) && Last(ts) == Symbol(RBracket) && Items(ts[1..|ts| - 1], items)
       case Pre(op, x) =>
         && |ts| >= 2 && ts[0] == Symbol(op) && 0 <= PrefixPrec(op) && next <= PrefixPrec(op)
         && Written(ts[1..], x, PrefixPrec(op) + 1, next)
       case Bin(_, _, _) => false
  }

  ghost predicate Enclosed(ts: seq<Token>, e: Expr)
    decreases |ts|, 0
  {
    |ts| >= 2 && ts[0] == Symbol(LParen) && Last(ts) == Symbol(RParen) && Written(ts[1..|ts| - 1], e, 0, -1)
  }

  /** The items of a list with commas between them, and perhaps one behind the last. */
  ghost predicate Items(ts: seq<Token>, items: seq<Expr>)
    decreases |ts|, 4
  {
    if items == [] then ts == []
    else exists i :: 0 < i <= |ts| && FirstItem(ts, i, items)
  }

  ghost predicate FirstItem(ts: seq<Token>, i: nat, items: seq<Expr>)
    requires 0 < i <= |ts| && items != []
    decreases |ts|, 3
  {
    && Written(ts[..i], items[0], 0, -1)
    && (if i == |ts| then |items| == 1 else ts[i] == Symbol(Comma) && Items(ts[i + 1..], items[1..]))
  }

  // ----- what is written is parsed -----

  /** It begins with a token that can begin an expression. */
  lemma {:induction false} FirstWritten(ts: seq<Token>, e: Expr, prec: int, next: int)
    requires Written(ts, e, prec, next)
    ensures ts != [] && ts[0] != Illegal && (ts[0].Symbol? ==> !IsTrailing(ts[0].s))
    decreases |ts|
  {
    hide Alone;
    if Alone(ts, e, next) {
      FirstAlone(ts, e, next);
    } else {
      var i :| 0 < i < |ts| && Joined(ts, i, e.op, e.l, e.r, prec, next);
      FirstWritten(ts[..i], e.l, prec, InfixPrec(e.op));
    }
  }

  lemma FirstAlone(ts: seq<Token>, e: Expr, next: int)
    requires Alone(ts, e, next)
    ensures ts != [] && ts[0] != Illegal && (ts[0].Symbol? ==> !IsTrailing(ts[0].s))
  {
    hide Written, Items;
    if !Enclosed(ts, e) {
      match e
      case NameE(p, _) => if p.Some? { assert ts[0] == Symbol(p.value); } else { assert ts[0].NameT?; }
      case _ =>
    }
  }

  lemma {:induction false} WrittenParses(ts: seq<Token>, e: Expr, prec: int, next: int, tail: seq<Token>)
    requires Written(ts, e, prec, next) && NextPrec(tail) <= next && Legal(tail)
    ensures ParseInfix(ts + tail, prec) == Loop(e, tail, prec)
    decreases |ts|, 2
  {
    hide Loop, ParsePrefix, Alone, NextPrec, Legal;
    if Alone(ts, e, next) {
      AloneParses(ts, e, next, tail);
    } else {
      hide ParseInfix;
      var i :| 0 < i < |ts| && Joined(ts, i, e.op, e.l, e.r, prec, next);
      JoinedParses(ts, i, e, prec, next, tail);
    }
  }

  lemma {:induction false} JoinedParses(ts: seq<Token>, i: nat, e: Expr, prec: int, next: int, tail: seq<Token>)
    requires 0 < i < |ts| && e.Bin? && Joined(ts, i, e.op, e.l, e.r, prec, next)
    requires NextPrec(tail) <= next && Legal(tail)
    ensures ParseInfix(ts + tail, prec) == Loop(e, tail, prec)
    decreases |ts|, 1
  {
    var op, p, k := e.op, InfixPrec(e.op), Behind(e.op, i);
    var right := ts[k..] + tail;
    var middle := Operator(op) + right;
    assert ts + tail == ts[..i] + middle by { Cut(ts, i, k, op, tail); }
    FirstWritten(ts[k..], e.r, p + 1, next);
    assert right[0] == ts[k];
    NextIs(op, right);
    WrittenParses(ts[..i], e.l, prec, p, middle);
    WrittenParses(ts[k..], e.r, p + 1, next, tail);
    LoopStops(e.r, tail, p + 1);
    LoopTakes(op, e.l, e.r, right, tail, prec);
  }

  lemma Cut(ts: seq<Token>, i: nat, k: nat, op: Sym, tail: seq<Token>)
    requires 0 < i < |ts| && k == Behind(op, i) && (op != Implicit ==> ts[i] == Symbol(op))
    ensures ts + tail == ts[..i] + (Operator(op) + (ts[k..] + tail))
  {
    assert ts == ts[..i] + ts[i..];
    assert ts[i..] == Operator(op) + ts[k..];
  }

  lemma {:induction false} AloneParses(ts: seq<Token>, e: Expr, next: int, tail: seq<Token>)
    requires Alone(ts, e, next) && NextPrec(tail) <= next && Legal(tail)
    ensures ParsePrefix(ts + tail) == Ok(e, tail)
    decreases |ts|, 1
  {
    hide Loop, ParseInfix, ParseItems, Written, Items, Enclosed;
    var all := ts + tail;
    if Enclosed(ts, e) {
      EnclosedParses(ts, e, tail);
    } else {
      match e
      case NameE(_, _) =>
        assert all[|ts|..] == tail;
      case LitE(_) =>
        assert all[1..] == tail;
      case ListE(items) => WrittenListParses(ts, items, tail);
      case Pre(op, x) =>
        assert all[1..] == ts[1..] + tail;
        WrittenParses(ts[1..], x, PrefixPrec(op) + 1, next, tail);
        LoopStops(x, tail, PrefixPrec(op) + 1);
    }
  }

  lemma {:induction false} EnclosedParses(ts: seq<Token>, e: Expr, tail: seq<Token>)
    requires Enclosed(ts, e)
    ensures ParsePrefix(ts + tail) == Ok(e, tail)
    decreases |ts|, 0
  {
    hide Loop, ParseInfix, ParseItems, Written;
    var close := [Symbol(RParen)] + tail;
    assert (ts + tail)[1..] == ts[1..|ts| - 1] + close && close[1..] == tail;
    WrittenParses(ts[1..|ts| - 1], e, 0, -1, close);
    LoopStops(e, close, 0);
  }

  lemma {:induction false} WrittenListParses(ts: seq<Token>, items: seq<Expr>, tail: seq<Token>)
    requires |ts| >= 2 && ts[0] == Symbol(LBracket) && Last(ts) == Symbol(RBracket) && Items(ts[1..|ts| - 1], items)
    ensures ParsePrefix(ts + tail) == Ok(ListE(items), tail)
    decreases |ts|, 0
  {
    hide Loop, ParseInfix, ParseItems, Items;
    var close := [Symbol(RBracket)] + tail;
    assert (ts + tail)[1..] == ts[1..|ts| - 1] + close && close[1..] == tail;
    WrittenItemsParse(ts[1..|ts| - 1], items, close);
  }

  lemma {:induction false} WrittenItemsParse(ts: seq<Token>, items: seq<Expr>, close: seq<Token>)
    requires Items(ts, items) && close != [] && close[0] == Symbol(RBracket)
    ensures ParseItems(ts + close) == Ok(items, close[1..])
    decreases |ts|, 3
  {
    hide Loop, ParseInfix, Written;
    if items == [] {
      assert ts + close == close;
    } else {
      var i :| 0 < i <= |ts| && FirstItem(ts, i, items);
      var rest := ts[i..] + close;
      assert ts + close == ts[..i] + rest;
      FirstWritten(ts[..i], items[0], 0, -1);
      WrittenParses(ts[..i], items[0], 0, -1, rest);
      LoopStops(items[0], rest, 0);
      if i < |ts| {
        assert rest[1..] == ts[i + 1..] + close;
        WrittenItemsParse(ts[i + 1..], items[1..], close);
        assert items == [items[0]] + items[1..];
      } else {
        assert items == [items[0]] && rest == close;
      }
    }
  }

  // ----- what is parsed is written so -----

  /** `rest` is the end of `ts`. */
  predicate Left(ts: seq<Token>, rest: seq<Token>)
  {
    |rest| <= |ts| && ts[|ts| - |rest|..] == rest
  }

  /** The tokens in front of `rest`. */
  function Taken(ts: seq<Token>, rest: seq<Token>): seq<Token>
    requires |rest| <= |ts|
  {
    ts[..|ts| - |rest|]
  }

  lemma TakenIs(us: seq<Token>, rest: seq<Token>)
    ensures Left(us + rest, rest) && Taken(us + rest, rest) == us
  {
  }

  lemma WholeIs(ts: seq<Token>, rest: seq<Token>)
    requires Left(ts, rest)
    ensures ts == Taken(ts, rest) + rest
  {
  }

  lemma AloneIsWritten(ts: seq<Token>, e: Expr, prec: int, next: int)
    requires Alone(ts, e, next)
    ensures Written(ts, e, prec, next)
  {
    hide Alone;
  }

  lemma {:induction false} InfixWritten(ts: seq<Token>, prec: int)
    requires Scanned(ts) && prec >= 0 && ParseInfix(ts, prec).Ok?
    ensures
      var r := ParseInfix(ts, prec);
      && Left(ts, r.rest) && NextPrec(r.rest) < prec && Written(Taken(ts, r.rest), r.value, prec, NextPrec(r.rest))
    decreases |ts|, 2
  {
    hide Loop, ParsePrefix, Alone, Written, Left, Taken, NextPrec;
    var p := ParsePrefix(ts);
    InfixIs(ts, prec);
    PrefixWritten(ts);
    WholeIs(ts, p.rest);
    ScannedParts(Taken(ts, p.rest), p.rest);
    AloneIsWritten(Taken(ts, p.rest), p.value, prec, NextPrec(p.rest));
    LoopWritten(Taken(ts, p.rest), p.value, p.rest, prec);
  }

  lemma ScannedParts(us: seq<Token>, ts: seq<Token>)
    requires Scanned(us + ts)
    ensures Scanned(ts)
  {
    assert forall k :: 0 <= k < |ts| ==> ts[k] == (us + ts)[|us| + k];
  }

  lemma {:induction false} PrefixWritten(ts: seq<Token>)
    requires Scanned(ts) && ParsePrefix(ts).Ok?
    ensures
      var r := ParsePrefix(ts);
      Left(ts, r.rest) && r.rest != ts && Alone(Taken(ts, r.rest), r.value, NextPrec(r.rest))
    decreases |ts|, 1
  {
    hide Loop, ParseInfix, ParseItems, Written, Items, NextPrec;
    if ts[0].Symbol? {
      var s := ts[0].s;
      if s == LParen {
        ParenWritten(ts);
      } else if IsNamePrefix(s) {
      } else if s == LBracket {
        ListWritten(ts);
      } else {
        PreWritten(ts);
      }
    }
  }

  lemma {:induction false} ParenWritten(ts: seq<Token>)
    requires Scanned(ts) && ParsePrefix(ts).Ok? && ts[0] == Symbol(LParen)
    ensures
      var r := ParsePrefix(ts);
      Left(ts, r.rest) && r.rest != ts && Enclosed(Taken(ts, r.rest), r.value)
    decreases |ts|, 0
  {
    hide Loop, ParseInfix, ParseItems, Written, NextPrec;
    InfixWritten(ts[1..], 0);
    var inner := ParseInfix(ts[1..], 0);
    var us := Taken(ts[1..], inner.rest);
    Closed(ts, us, inner.rest);
    NextIsNone(inner.rest);
  }

  lemma NextIsNone(rest: seq<Token>)
    requires NextPrec(rest) < 0
    ensures NextPrec(rest) == -1
  {
  }

  /** An opening token, `us`, and a closing token. */
  lemma Closed(ts: seq<Token>, us: seq<Token>, rest: seq<Token>)
    requires ts != [] && rest != [] && Left(ts[1..], rest) && us == Taken(ts[1..], rest)
    ensures Left(ts, rest[1..]) && Taken(ts, rest[1..]) == [ts[0]] + us + [rest[0]]
    ensures
      var t := Taken(ts, rest[1..]);
      |t| >= 2 && t[0] == ts[0] && Last(t) == rest[0] && t[1..|t| - 1] == us
  {
    assert ts == [ts[0]] + us + rest;
  }

  lemma {:induction false} PreWritten(ts: seq<Token>)
    requires Scanned(ts) && ParsePrefix(ts).Ok? && ts[0].Symbol? && PrefixPrec(ts[0].s) >= 0
    ensures
      var r := ParsePrefix(ts);
      Left(ts, r.rest) && r.rest != ts && Alone(Taken(ts, r.rest), r.value, NextPrec(r.rest))
    decreases |ts|, 0
  {
    hide Loop, ParseInfix, ParsePrefix, Written, NextPrec, Alone;
    var p := PrefixPrec(ts[0].s) + 1;
    PreIs(ts);
    InfixWritten(ts[1..], p);
    var inner := ParseInfix(ts[1..], p);
    var us := Taken(ts[1..], inner.rest);
    WrittenNotEmpty(us, inner.value, p, NextPrec(inner.rest));
    assert ts == [ts[0]] + us + inner.rest;
    assert Taken(ts, inner.rest) == [ts[0]] + us;
    PreIsAlone(ts[0].s, us, inner.value, NextPrec(inner.rest));
  }

  lemma PreIs(ts: seq<Token>)
    requires ParsePrefix(ts).Ok? && ts[0].Symbol? && PrefixPrec(ts[0].s) >= 0
    ensures
      var r := ParseInfix(ts[1..], PrefixPrec(ts[0].s) + 1);
      r.Ok? && ParsePrefix(ts) == Ok(Pre(ts[0].s, r.value), r.rest)
  {
    hide ParseInfix;
  }

  lemma PreIsAlone(op: Sym, us: seq<Token>, x: Expr, next: int)
    requires us != [] && 0 <= PrefixPrec(op) && next < PrefixPrec(op) + 1 && Written(us, x, PrefixPrec(op) + 1, next)
    ensures Alone([Symbol(op)] + us, Pre(op, x), next)
  {
    hide Written, Enclosed;
    assert ([Symbol(op)] + us)[1..] == us;
  }

  lemma WrittenNotEmpty(ts: seq<Token>, e: Expr, prec: int, next: int)
    requires Written(ts, e, prec, next)
    ensures ts != []
  {
    FirstWritten(ts, e, prec, next);
  }

  lemma {:induction false} ListWritten(ts: seq<Token>)
    requires Scanned(ts) && ParsePrefix(ts).Ok? && ts[0] == Symbol(LBracket)
    ensures
      var r := ParsePrefix(ts);
      Left(ts, r.rest) && r.rest != ts && Alone(Taken(ts, r.rest), r.value, NextPrec(r.rest))
    decreases |ts|, 0
  {
    hide Loop, ParseInfix, ParseItems, Items, NextPrec, Enclosed;
    var close := ItemsWritten(ts[1..]);
    Closed(ts, Taken(ts[1..], close), close);
  }

  lemma {:induction false} ItemsWritten(ts: seq<Token>) returns (close: seq<Token>)
    requires Scanned(ts) && ParseItems(ts).Ok?
    ensures close != [] && close[0] == Symbol(RBracket) && close[1..] == ParseItems(ts).rest
    ensures Left(ts, close) && Items(Taken(ts, close), ParseItems(ts).value)
    decreases |ts|, 3
  {
    hide Loop, ParseInfix, ParseItems, Written, NextPrec, Items, Left, Taken;
    if ts != [] && ts[0] == Symbol(RBracket) {
      close := ts;
      NoItemsWritten(ts);
    } else {
      ItemsAre(ts);
      InfixWritten(ts, 0);
      var first := ParseInfix(ts, 0);
      var us := Taken(ts, first.rest);
      NextIsNone(first.rest);
      WrittenNotEmpty(us, first.value, 0, -1);
      WholeIs(ts, first.rest);
      if first.rest[0] == Symbol(Comma) {
        ScannedParts(us + [first.rest[0]], first.rest[1..]) by { Regrouped(us, first.rest); }
        close := ItemsWritten(first.rest[1..]);
        CommaWritten(ts, us, first.rest, close, first.value, ParseItems(first.rest[1..]).value);
      } else {
        close := first.rest;
        OnlyItem(us, first.value);
      }
    }
  }

  lemma NoItemsWritten(ts: seq<Token>)
    requires ts != [] && ts[0] == Symbol(RBracket)
    ensures ParseItems(ts) == Ok([], ts[1..]) && Left(ts, ts) && Items(Taken(ts, ts), [])
  {
    assert Taken(ts, ts) == [];
  }

  lemma ItemsAre(ts: seq<Token>)
    requires ParseItems(ts).Ok? && !(ts != [] && ts[0] == Symbol(RBracket))
    ensures
      var first := ParseInfix(ts, 0);
      && first.Ok? && first.rest != []
      && (if first.rest[0] == Symbol(Comma) then
            && ParseItems(first.rest[1..]).Ok?
            && ParseItems(ts) == Ok([first.value] + ParseItems(first.rest[1..]).value, ParseItems(first.rest[1..]).rest)
          else first.rest[0] == Symbol(RBracket) && ParseItems(ts) == Ok([first.value], first.rest[1..]))
  {
    hide ParseInfix;
  }

  lemma Regrouped(us: seq<Token>, rest: seq<Token>)
    requires rest != []
    ensures us + rest == us + [rest[0]] + rest[1..]
  {
  }

  lemma CommaWritten(ts: seq<Token>, us: seq<Token>, rest: seq<Token>, close: seq<Token>, e: Expr, more: seq<Expr>)
    requires rest != [] && rest[0] == Symbol(Comma) && ts == us + rest && Left(rest[1..], close)
    requires us != [] && Written(us, e, 0, -1) && Items(Taken(rest[1..], close), more)
    ensures Left(ts, close) && Items(Taken(ts, close), [e] + more)
  {
    hide Written, Items;
    var vs := Taken(rest[1..], close);
    WholeIs(rest[1..], close);
    assert ts == us + [Symbol(Comma)] + vs + close;
    TakenIs(us + [Symbol(Comma)] + vs, close);
    FirstAnd(us, vs, e, more);
  }

  lemma FirstAnd(us: seq<Token>, vs: seq<Token>, e: Expr, more: seq<Expr>)
    requires us != [] && Written(us, e, 0, -1) && Items(vs, more)
    ensures Items(us + [Symbol(Comma)] + vs, [e] + more)
  {
    hide Written, Items;
    var ts, items := us + [Symbol(Comma)] + vs, [e] + more;
    assert ts[..|us|] == us && ts[|us| + 1..] == vs && items[1..] == more;
    assert FirstItem(ts, |us|, items);
    ItemsFrom(ts, |us|, items);
  }

  lemma OnlyItem(us: seq<Token>, e: Expr)
    requires us != [] && Written(us, e, 0, -1)
    ensures Items(us, [e])
  {
    hide Written;
    assert us[..|us|] == us;
    assert FirstItem(us, |us|, [e]);
  }

  lemma ItemsFrom(ts: seq<Token>, i: nat, items: seq<Expr>)
    requires 0 < i <= |ts| && items != [] && FirstItem(ts, i, items)
    ensures Items(ts, items)
  {
    hide FirstItem;
  }

  /** The loop, with the expression in hand that is written as `us`. */
  lemma {:induction false} LoopWritten(us: seq<Token>, ast: Expr, ts: seq<Token>, prec: int)
    requires Scanned(ts) && prec >= 0 && Written(us, ast, prec, NextPrec(ts)) && Loop(ast, ts, prec).Ok?
    ensures
      var r := Loop(ast, ts, prec);
      && Left(us + ts, r.rest) && NextPrec(r.rest) < prec
      && Written(Taken(us + ts, r.rest), r.value, prec, NextPrec(r.rest))
    decreases |ts|, 3
  {
    hide ParseInfix, Written, Left, Taken, Loop, NextPrec, Operator, IsTrailing;
    TakenIs(us, ts);
    if ts == [] || (!IsInfix(ts[0]) && ts[0].Symbol? && IsTrailing(ts[0].s)) {
      LoopEnds(ast, ts, prec);
    } else {
      var op := if IsInfix(ts[0]) then ts[0].s else Implicit;
      var right := if IsInfix(ts[0]) then ts[1..] else ts;
      LoopGoes(ast, ts, prec, op, right);
      if InfixPrec(op) >= prec {
        ScannedParts(Operator(op), right);
        InfixWritten(right, InfixPrec(op) + 1);
        var r := ParseInfix(right, InfixPrec(op) + 1);
        var vs := Taken(right, r.rest);
        WholeIs(right, r.rest);
        ScannedParts(vs, r.rest);
        JoinedIsWritten(us, vs, op, ast, r.value, prec, NextPrec(r.rest), right[0]);
        Rejoined(us, Operator(op), vs, r.rest);
        LoopWritten(us + Operator(op) + vs, Bin(op, ast, r.value), r.rest, prec);
      }
    }
  }

  lemma Rejoined(a: seq<Token>, b: seq<Token>, c: seq<Token>, d: seq<Token>)
    ensures a + (b + (c + d)) == a + b + c + d
  {
  }

  lemma LoopEnds(ast: Expr, ts: seq<Token>, prec: int)
    requires Loop(ast, ts, prec).Ok? && prec >= 0
    requires ts == [] || (!IsInfix(ts[0]) && ts[0].Symbol? && IsTrailing(ts[0].s))
    ensures Loop(ast, ts, prec) == Ok(ast, ts) && NextPrec(ts) < prec
  {
  }

  lemma LoopGoes(ast: Expr, ts: seq<Token>, prec: int, op: Sym, right: seq<Token>)
    requires Loop(ast, ts, prec).Ok? && Scanned(ts)
    requires ts != [] && (IsInfix(ts[0]) || !(ts[0].Symbol? && IsTrailing(ts[0].s)))
    requires op == if IsInfix(ts[0]) then ts[0].s else Implicit
    requires right == if IsInfix(ts[0]) then ts[1..] else ts
    ensures ts == Operator(op) + right && NextPrec(ts) == InfixPrec(op) >= 0
    ensures InfixPrec(op) < prec ==> Loop(ast, ts, prec) == Ok(ast, ts)
    ensures InfixPrec(op) >= prec ==>
      && ParseInfix(right, InfixPrec(op) + 1).Ok? && right != [] && (op == Implicit ==> !IsInfix(right[0]))
      && var r := ParseInfix(right, InfixPrec(op) + 1);
      Loop(ast, ts, prec) == Loop(Bin(op, ast, r.value), r.rest, prec)
  {
    hide ParsePrefix;
  }

  lemma JoinedIsWritten(us: seq<Token>, vs: seq<Token>, op: Sym, l: Expr, r: Expr, prec: int, next: int, second: Token)
    requires 0 <= InfixPrec(op) && prec <= InfixPrec(op) && next < InfixPrec(op) + 1
    requires Written(us, l, prec, InfixPrec(op)) && Written(vs, r, InfixPrec(op) + 1, next)
    requires (vs != [] ==> vs[0] == second) && (op == Implicit ==> !IsInfix(second))
    ensures Written(us + Operator(op) + vs, Bin(op, l, r), prec, next)
  {
    hide Alone, Written;
    WrittenNotEmpty(us, l, prec, InfixPrec(op));
    WrittenNotEmpty(vs, r, InfixPrec(op) + 1, next);
    var ts, i := us + Operator(op) + vs, |us|;
    assert ts[..i] == us && ts[Behind(op, i)..] == vs;
    assert Joined(ts, i, op, l, r, prec, next);
    JoinedAt(ts, i, op, l, r, prec, next);
  }

  lemma JoinedAt(ts: seq<Token>, i: nat, op: Sym, l: Expr, r: Expr, prec: int, next: int)
    requires 0 < i < |ts| && Joined(ts, i, op, l, r, prec, next)
    ensures Written(ts, Bin(op, l, r), prec, next)
  {
    hide Joined, Alone;
  }

  /** Exactly the lists of tokens that the grammar has for a tree are parsed, and as that tree. */
  lemma ParsesExactly(ts: seq<Token>, e: Expr)
    requires Scanned(ts)
    ensures ParseFilter(ts) == Some(e) <==> Written(ts, e, 0, -1)
  {
    hide ParseInfix, Loop, Written;
    assert ts + [] == ts;
    if Written(ts, e, 0, -1) {
      WrittenParses(ts, e, 0, -1, []);
      LoopStops(e, [], 0);
    }
    if ParseFilter(ts) == Some(e) {
      InfixWritten(ts, 0);
      assert Taken(ts, []) == ts;
    }
  }
}
