/** The printed form of a filter is the shortest one: parentheses stand only where the operator table needs them. */
module ShortestForm {
  import opened Bytes
  import opened Parser

  /** The empty operator is not a token: it is never scanned. */
  predicate Scanned(ts: seq<Token>)
  {
    forall k :: 0 <= k < |ts| ==> ts[k] != Symbol(Implicit)
  }

  predicate IsInfix(t: Token) { t.Symbol? && InfixPrec(t.s) >= 0 }

  /** Two tokens when the expression can only have stood there in parentheses: its operator binds too weakly,
      its right end would take what follows, or it would begin with an infix operator but does not. */
  function Parens(e: Expr, prec: int, first: Token, rest: seq<Token>): nat
  {
    if !Fits(e, prec) || NextPrec(rest) >= Swallow(e) || (StartsInfix(e) && !IsInfix(first)) then 2 else 0
  }

  /** Parsing an expression consumes at least as many tokens as its printed form has. */
  lemma {:induction false} InfixCost(ts: seq<Token>, prec: int)
    requires Scanned(ts) && prec >= 0 && ParseInfix(ts, prec).Ok?
    ensures
      var r := ParseInfix(ts, prec);
      && |ts| - |r.rest| >= |Render(r.value)| + Parens(r.value, prec, ts[0], r.rest)
      && NextPrec(r.rest) < prec && Scanned(r.rest)
    decreases |ts|, 1
  {
    hide Render, Swallow, StartsInfix, Loop, ParsePrefix;
    var p := ParsePrefix(ts);
    InfixIs(ts, prec);
    PrefixCost(ts);
    LoopCost(p.value, p.rest, prec, |ts| - |p.rest|, ts[0]);
  }

  lemma {:induction false} PrefixCost(ts: seq<Token>)
    requires Scanned(ts) && ParsePrefix(ts).Ok?
    ensures
      var r := ParsePrefix(ts);
      && |ts| - |r.rest| >= |Render(r.value)| + Parens(r.value, 7, ts[0], r.rest)
      && Scanned(r.rest)
    decreases |ts|, 0
  {
    hide Loop, ParseInfix, ParseItems;
    if ts[0].Symbol? {
      var s := ts[0].s;
      if s == LParen {
        InfixCost(ts[1..], 0);
      } else if IsNamePrefix(s) {
      } else if s == LBracket {
        ItemsCost(ts[1..]);
      } else {
        InfixCost(ts[1..], PrefixPrec(s) + 1);
      }
    }
  }

  lemma {:induction false} ItemsCost(ts: seq<Token>)
    requires Scanned(ts) && ParseItems(ts).Ok?
    ensures |ts| - |ParseItems(ts).rest| >= |RenderItems(ParseItems(ts).value)| + 1 && Scanned(ParseItems(ts).rest)
    decreases |ts|, 2
  {
    hide Loop, ParseInfix, ParsePrefix, Render;
    if ts[0] == Symbol(RBracket) {
    } else {
      InfixCost(ts, 0);
      var first := ParseInfix(ts, 0);
      if first.rest[0] == Symbol(Comma) {
        ItemsCost(first.rest[1..]);
        var more := ParseItems(first.rest[1..]).value;
        assert ([first.value] + more)[1..] == more;
      }
    }
  }

  /** The loop, with an expression in hand for which `n` tokens, beginning with `first`, were consumed. */
  lemma {:induction false} LoopCost(ast: Expr, ts: seq<Token>, prec: int, n: nat, first: Token)
    requires Scanned(ts) && prec >= 0 && Loop(ast, ts, prec).Ok?
    requires n >= |Render(ast)| + Parens(ast, 7, first, ts) || n >= |Render(ast)| + Parens(ast, prec, first, ts)
    ensures
      var r := Loop(ast, ts, prec);
      && n + |ts| - |r.rest| >= |Render(r.value)| + Parens(r.value, prec, first, r.rest)
      && NextPrec(r.rest) < prec && Scanned(r.rest)
    decreases |ts|, 2
  {
    hide Render, Swallow, StartsInfix, ParseInfix;
    if ts == [] || (!IsInfix(ts[0]) && ts[0].Symbol? && IsTrailing(ts[0].s)) {
    } else {
      var op := if IsInfix(ts[0]) then ts[0].s else Implicit;
      var right := if IsInfix(ts[0]) then ts[1..] else ts;
      if InfixPrec(op) >= prec {
        InfixCost(right, InfixPrec(op) + 1);
        var r := ParseInfix(right, InfixPrec(op) + 1);
        BinCost(op, ast, r.value, prec, first, right[0], ts, r.rest, n, |right| - |r.rest|);
        LoopCost(Bin(op, ast, r.value), r.rest, prec, n + (|ts| - |r.rest|), first);
      }
    }
  }

  /** Both operands and the operator between them. */
  lemma BinCost(op: Sym, l: Expr, r: Expr, prec: int, first: Token, second: Token, mid: seq<Token>, rest: seq<Token>,
        n: nat, m: nat)
    requires InfixPrec(op) >= prec && InfixPrec(op) >= 0 && NextPrec(mid) == InfixPrec(op)
    requires NextPrec(rest) < InfixPrec(op) + 1 && (op == Implicit ==> !IsInfix(second))
    requires n >= |Render(l)| + (if InfixPrec(op) >= Swallow(l) || (StartsInfix(l) && !IsInfix(first)) then 2 else 0)
    requires m >= |Render(r)| + Parens(r, InfixPrec(op) + 1, second, rest)
    ensures
      n + m + (if op == Implicit then 0 else 1) >= |Render(Bin(op, l, r))| + Parens(Bin(op, l, r), prec, first, rest)
  {
    var p := InfixPrec(op);
    var lb, rb := Swallow(l) > p, RightBare(op, r);
    assert |Render(Bin(op, l, r))| == |Wrapped(l, lb)| + |Operator(op)| + |Wrapped(r, rb)|;
  }

  /** The printed form of what was parsed parses to the same tree, and no list of tokens that does is shorter. */
  lemma NothingShorter(ts: seq<Token>)
    requires Scanned(ts) && ParseFilter(ts).Some?
    ensures ParseFilter(Render(ParseFilter(ts).value)) == ParseFilter(ts)
    ensures |Render(ParseFilter(ts).value)| <= |ts|
  {
    hide Render, Swallow;
    Reprint(ts);
    InfixCost(ts, 0);
  }
}
