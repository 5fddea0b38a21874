/** The filter grammar: precedence climbing over tokens, and its inverse, a printer that uses parentheses
    only where the operator table needs them. */
module Parser {
  import opened Bytes

  datatype Sym =
    | Plus | Minus | Star | Slash | Percent | ShiftLeft | ShiftRight | Tilde | Amp | Bar | Caret
    | ExistsS | InS | ContainsS | StartsWithS | EndsWithS
    | Implicit | Eq | Ne | Lt | Gt | Le | Ge | NotS | AndS | OrS
    | LParen | RParen | LBracket | RBracket | Comma
    | OutS | IngressS | EgressS | SrcS | DstS

  /** The end of the input is the end of the sequence; at an illegal token the scanner reports an error. */
  datatype Token = Symbol(s: Sym) | NameT(name: string) | Literal(value: int) | Illegal

  datatype Expr =
    | NameE(prefix: Option<Sym>, name: string)
    | LitE(value: int)
    | ListE(items: seq<Expr>)
    | Pre(op: Sym, x: Expr)
    | Bin(op: Sym, l: Expr, r: Expr)

  // ----- the operator table -----

  /** Precedence of an infix operator; all of them associate to the left. -1: not an infix operator. */
  function InfixPrec(s: Sym): (p: int)
    ensures -1 <= p <= 6
  {
    match s
    case Star => 6 case Slash => 6 case Percent => 6
    case Plus => 5 case Minus => 5
    case ShiftLeft => 4 case ShiftRight => 4
    case Amp => 3 case Bar => 3 case Caret => 3
    case InS => 2 case ContainsS => 2 case StartsWithS => 2 case EndsWithS => 2
    case Implicit => 1 case Eq => 1 case Ne => 1 case Lt => 1 case Gt => 1 case Le => 1 case Ge => 1
    case AndS => 0 case OrS => 0
    case _ => -1
  }

  function PrefixPrec(s: Sym): (p: int)
    ensures -1 <= p <= 7
  {
    match s
    case Plus => 7 case Minus => 7
    case Tilde => 3
    case ExistsS => 2
    case NotS => 0
    case _ => -1
  }

  predicate IsNamePrefix(s: Sym)
  {
    s == InS || s == OutS || s == IngressS || s == EgressS || s == SrcS || s == DstS
  }

  predicate IsTrailing(s: Sym)
  {
    s == RParen || s == Comma || s == RBracket
  }

  // ----- the parser -----

  datatype Parsed<+T> = Ok(value: T, rest: seq<Token>) | SyntaxError

  /** `parse_infix_expr` */
  function ParseInfix(ts: seq<Token>, prec: int): (r: Parsed<Expr>)
    ensures r.Ok? ==> |r.rest| < |ts|
    decreases |ts|, 1
  {
    match ParsePrefix(ts)
    case SyntaxError => SyntaxError
    case Ok(e, rest) => Loop(e, rest, prec)
  }

  /** The loop of `parse_infix_expr`, with the expression `ast` parsed so far. */
  function Loop(ast: Expr, ts: seq<Token>, prec: int): (r: Parsed<Expr>)
    ensures r.Ok? ==> |r.rest| <= |ts|
    decreases |ts|, 2
  {
    if ts == [] then Ok(ast, ts)
    else if ts[0] == Illegal then SyntaxError
    else if ts[0].Symbol? && InfixPrec(ts[0].s) >= 0 then
      if InfixPrec(ts[0].s) < prec then Ok(ast, ts)
      else
        match ParseInfix(ts[1..], InfixPrec(ts[0].s) + 1)
        case SyntaxError => SyntaxError
        case Ok(right, rest) => Loop(Bin(ts[0].s, ast, right), rest, prec)
    else if ts[0].Symbol? && IsTrailing(ts[0].s) then Ok(ast, ts)
    else if InfixPrec(Implicit) < prec then Ok(ast, ts)
    else
      match ParseInfix(ts, InfixPrec(Implicit) + 1)
      case SyntaxError => SyntaxError
      case Ok(right, rest) => Loop(Bin(Implicit, ast, right), rest, prec)
  }

  /** `parse_prefix_expr` */
  function ParsePrefix(ts: seq<Token>): (r: Parsed<Expr>)
    ensures r.Ok? ==> |r.rest| < |ts|
    decreases |ts|, 0
  {
    if ts == [] then SyntaxError
    else
      match ts[0]
      case Symbol(s) =>
        if s == LParen then
          (match ParseInfix(ts[1..], 0)
           case SyntaxError => SyntaxError
           case Ok(e, rest) => if rest != [] && rest[0] == Symbol(RParen) then Ok(e, rest[1..]) else SyntaxError)
        else if IsNamePrefix(s) then
          if |ts| > 1 && ts[1].NameT? then Ok(NameE(Some(s), ts[1].name), ts[2..]) else SyntaxError
        else if s == LBracket then
          (match ParseItems(ts[1..])
           case SyntaxError => SyntaxError
           case Ok(items, rest) => Ok(ListE(items), rest))
        else if PrefixPrec(s) >= 0 then
          (match ParseInfix(ts[1..], PrefixPrec(s) + 1)
           case SyntaxError => SyntaxError
           case Ok(x, rest) => Ok(Pre(s, x), rest))
        else SyntaxError
      case NameT(n) => Ok(NameE(None, n), ts[1..])
      case Literal(v) => Ok(LitE(v), ts[1..])
      case Illegal => SyntaxError
  }

  /** The rest of a list, up to and including the closing bracket; a comma before it is allowed. */
  function ParseItems(ts: seq<Token>): (r: Parsed<seq<Expr>>)
    ensures r.Ok? ==> |r.rest| < |ts|
    decreases |ts|, 2
  {
    if ts != [] && ts[0] == Symbol(RBracket) then Ok([], ts[1..])
    else
      match ParseInfix(ts, 0)
      case SyntaxError => SyntaxError
      case Ok(e, rest) =>
        if rest == [] then SyntaxError
        else if rest[0] == Symbol(Comma) then
          match ParseItems(rest[1..])
          case SyntaxError => SyntaxError
          case Ok(items, rest2) => Ok([e] + items, rest2)
        else if rest[0] == Symbol(RBracket) then Ok([e], rest[1..])
        else SyntaxError
  }

  /** `parse_filter` */
  function ParseFilter(ts: seq<Token>): Option<Expr>
  {
    match ParseInfix(ts, 0)
    case SyntaxError => None
    case Ok(e, rest) => if rest == [] then Some(e) else None
  }

  // ----- the printer -----

  /** Operators stand where the table has them, and only name prefixes in front of names. */
  predicate WellFormed(e: Expr)
  {
    match e
    case NameE(p, _) => p.Some? ==> IsNamePrefix(p.value)
    case LitE(_) => true
    case ListE(items) => forall k :: 0 <= k < |items| ==> WellFormed(items[k])
    case Pre(op, x) => PrefixPrec(op) >= 0 && WellFormed(x)
    case Bin(op, l, r) => InfixPrec(op) >= 0 && WellFormed(l) && WellFormed(r)
  }

  /** May the expression stand, without parentheses, where operators from precedence `prec` on are parsed? */
  predicate Fits(e: Expr, prec: int)
  {
    e.Bin? ==> InfixPrec(e.op) >= prec
  }

  /** The lowest precedence of a following operator that the right end of the printed expression would take
      for itself; 8 when there is none. */
  function Swallow(e: Expr): (p: int)
    ensures p <= 8
  {
    match e
    case Pre(op, x) => Min(PrefixPrec(op) + 1, if Fits(x, PrefixPrec(op) + 1) then Swallow(x) else 8)
    case Bin(op, _, r) => Min(InfixPrec(op) + 1, if RightBare(op, r) then Swallow(r) else 8)
    case _ => 8
  }

  function Min(a: int, b: int): int { if a < b then a else b }

  /** Needs the right operand no parentheses? Behind the implicit operator it must not look like an infix operator. */
  predicate RightBare(op: Sym, r: Expr)
    decreases r, 1
  {
    Fits(r, InfixPrec(op) + 1) && (op == Implicit ==> !StartsInfix(r))
  }

  /** Is the first token of the printed expression an infix operator as well? */
  predicate StartsInfix(e: Expr)
    decreases e, 0
  {
    match e
    case NameE(p, _) => p == Some(InS)
    case Pre(op, _) => op == Plus || op == Minus
    case Bin(op, l, _) => Swallow(l) > InfixPrec(op) && StartsInfix(l)
    case _ => false
  }

  function Wrapped(e: Expr, bare: bool): seq<Token>
    decreases e, 1
  {
    if bare then Render(e) else [Symbol(LParen)] + Render(e) + [Symbol(RParen)]
  }

  function Operator(op: Sym): seq<Token>
  {
    if op == Implicit then [] else [Symbol(op)]
  }

  function Render(e: Expr): (ts: seq<Token>)
    ensures ts != []
    decreases e, 0
  {
    match e
    case NameE(p, n) => (if p.Some? then [Symbol(p.value)] else []) + [NameT(n)]
    case LitE(v) => [Literal(v)]
    case ListE(items) => [Symbol(LBracket)] + RenderItems(items) + [Symbol(RBracket)]
    case Pre(op, x) => [Symbol(op)] + Wrapped(x, Fits(x, PrefixPrec(op) + 1))
    case Bin(op, l, r) => Wrapped(l, Swallow(l) > InfixPrec(op)) + Operator(op) + Wrapped(r, RightBare(op, r))
  }

  function RenderItems(items: seq<Expr>): seq<Token>
    decreases items, 0
  {
    if items == [] then []
    else if |items| == 1 then Render(items[0])
    else Render(items[0]) + [Symbol(Comma)] + RenderItems(items[1..])
  }

  // ----- the parser undoes the printer -----

  /** The precedence with which the tokens `ts` would go on an expression; -1 when they end it. */
  function NextPrec(ts: seq<Token>): int
  {
    if ts == [] then -1
    else if ts[0].Symbol? && InfixPrec(ts[0].s) >= 0 then InfixPrec(ts[0].s)
    else if ts[0].Symbol? && IsTrailing(ts[0].s) then -1
    else InfixPrec(Implicit)
  }

  predicate Legal(ts: seq<Token>)
  {
    ts != [] ==> ts[0] != Illegal
  }

  lemma LoopStops(e: Expr, ts: seq<Token>, prec: int)
    requires NextPrec(ts) < prec && Legal(ts)
    ensures Loop(e, ts, prec) == Ok(e, ts)
  {
  }

  /** The first token of a printed expression never ends an expression, and looks like an infix operator
      only where `StartsInfix` says so. */
  lemma {:induction false} FirstToken(e: Expr)
    requires WellFormed(e)
    ensures
      var t := Render(e)[0];
      && t != Illegal && (t.Symbol? ==> !IsTrailing(t.s))
      && (t.Symbol? && InfixPrec(t.s) >= 0 <==> StartsInfix(e))
    decreases e
  {
    if e.Bin? {
      if Swallow(e.l) > InfixPrec(e.op) {
        FirstToken(e.l);
        assert Render(e)[0] == Render(e.l)[0];
      }
    }
  }

  lemma WrappedFirst(e: Expr, bare: bool, tail: seq<Token>)
    requires WellFormed(e)
    ensures
      var t := (Wrapped(e, bare) + tail)[0];
      && t != Illegal && (t.Symbol? ==> !IsTrailing(t.s))
      && (bare && StartsInfix(e) <==> t.Symbol? && InfixPrec(t.s) >= 0)
  {
    FirstToken(e);
  }

  /** In parentheses anything is a prefix expression. */
  lemma ParenParses(e: Expr, tail: seq<Token>)
    requires ParseInfix(Render(e) + [Symbol(RParen)] + tail, 0) == Ok(e, [Symbol(RParen)] + tail)
    ensures ParsePrefix(Wrapped(e, false) + tail) == Ok(e, tail)
  {
    var ts := Wrapped(e, false) + tail;
    hide Render, ParseInfix;
    assert ts[0] == Symbol(LParen) && ts[1..] == Render(e) + [Symbol(RParen)] + tail;
    assert ([Symbol(RParen)] + tail)[1..] == tail;
  }

  /** A printed operand, bare or in parentheses, in front of `tail`: parsing goes on with the loop. */
  lemma {:induction false} OperandParses(e: Expr, bare: bool, prec: int, tail: seq<Token>)
    requires WellFormed(e) && Legal(tail) && (bare ==> Fits(e, prec) && NextPrec(tail) < Swallow(e))
    ensures ParseInfix(Wrapped(e, bare) + tail, prec) == Loop(e, tail, prec)
    decreases e, 2
  {
    hide Loop, ParseInfix, ParsePrefix, Swallow, Render;
    if bare {
      PrintedParses(e, prec, tail);
    } else {
      var close := [Symbol(RParen)] + tail;
      SwallowPositive(e);
      PrintedParses(e, 0, close);
      LoopStops(e, close, 0);
      assert Render(e) + [Symbol(RParen)] + tail == Render(e) + close;
      ParenParses(e, tail);
      InfixIs(Wrapped(e, false) + tail, prec);
    }
  }

  lemma InfixIs(ts: seq<Token>, prec: int)
    ensures ParseInfix(ts, prec) ==
      match ParsePrefix(ts)
      case SyntaxError => SyntaxError
      case Ok(e, rest) => Loop(e, rest, prec)
  {
  }

  lemma {:induction false} PrintedParses(e: Expr, prec: int, tail: seq<Token>)
    requires WellFormed(e) && Legal(tail) && Fits(e, prec) && NextPrec(tail) < Swallow(e)
    ensures ParseInfix(Render(e) + tail, prec) == Loop(e, tail, prec)
    decreases e, 1
  {
    match e
    case NameE(_, _) => AtomParses(e, prec, tail);
    case LitE(_) => AtomParses(e, prec, tail);
    case ListE(items) => ListParses(items, prec, tail);
    case Pre(op, x) => PreParses(op, x, prec, tail);
    case Bin(op, l, r) => BinParses(op, l, r, prec, tail);
  }

  lemma AtomParses(e: Expr, prec: int, tail: seq<Token>)
    requires WellFormed(e) && (e.NameE? || e.LitE?)
    ensures ParseInfix(Render(e) + tail, prec) == Loop(e, tail, prec)
  {
    var ts := Render(e) + tail;
    if e.NameE? && e.prefix.Some? {
      assert ts[0] == Symbol(e.prefix.value) && ts[1] == NameT(e.name) && ts[2..] == tail;
    } else {
      assert ts[1..] == tail;
    }
  }

  lemma {:induction false} PreParses(op: Sym, x: Expr, prec: int, tail: seq<Token>)
    requires WellFormed(Pre(op, x)) && Legal(tail) && NextPrec(tail) < Swallow(Pre(op, x))
    ensures ParseInfix(Render(Pre(op, x)) + tail, prec) == Loop(Pre(op, x), tail, prec)
    decreases x, 3
  {
    var p := PrefixPrec(op) + 1;
    var w := Wrapped(x, Fits(x, p));
    var ts := Render(Pre(op, x)) + tail;
    assert ts[0] == Symbol(op) && ts[1..] == w + tail;
    OperandParses(x, Fits(x, p), p, tail);
    LoopStops(x, tail, p);
    hide Loop, Render, Swallow, Fits;
  }

  lemma {:induction false} BinParses(op: Sym, l: Expr, r: Expr, prec: int, tail: seq<Token>)
    requires
      WellFormed(Bin(op, l, r)) && Legal(tail) && InfixPrec(op) >= prec && NextPrec(tail) < Swallow(Bin(op, l, r))
    ensures ParseInfix(Render(Bin(op, l, r)) + tail, prec) == Loop(Bin(op, l, r), tail, prec)
    decreases Bin(op, l, r), 0
  {
    var p := InfixPrec(op);
    var lb, rb := Swallow(l) > p, RightBare(op, r);
    SwallowBin(op, l, r);
    hide Loop, ParseInfix, Swallow, RightBare, StartsInfix, Fits;
    var right := Wrapped(r, rb) + tail;
    var middle := Operator(op) + right;
    assert Render(Bin(op, l, r)) + tail == Wrapped(l, lb) + middle;
    WrappedFirst(r, rb, tail);
    NextIs(op, right);
    if lb { LeftFits(l, p, prec); }
    OperandParses(l, lb, prec, middle);
    OperandParses(r, rb, p + 1, tail);
    LoopStops(r, tail, p + 1);
    LoopTakes(op, l, r, right, tail, prec);
  }

  /** Behind the left operand comes the operator, also the one that is not written. */
  lemma NextIs(op: Sym, right: seq<Token>)
    requires InfixPrec(op) >= 0 && right != [] && right[0] != Illegal
    requires op == Implicit && right[0].Symbol? ==> InfixPrec(right[0].s) < 0 && !IsTrailing(right[0].s)
    ensures NextPrec(Operator(op) + right) == InfixPrec(op) && Legal(Operator(op) + right)
  {
    if op == Implicit {
      assert Operator(op) + right == right;
    } else {
      assert (Operator(op) + right)[0] == Symbol(op);
    }
  }

  lemma SwallowBin(op: Sym, l: Expr, r: Expr)
    ensures Swallow(Bin(op, l, r)) <= InfixPrec(op) + 1
    ensures RightBare(op, r) ==> Swallow(Bin(op, l, r)) <= Swallow(r) && Fits(r, InfixPrec(op) + 1)
    ensures RightBare(op, r) && op == Implicit ==> !StartsInfix(r)
  {
  }

  lemma LeftFits(l: Expr, p: int, prec: int)
    requires Swallow(l) > p >= prec
    ensures Fits(l, prec)
  {
  }

  /** One turn of the loop. */
  lemma LoopTakes(op: Sym, l: Expr, r: Expr, right: seq<Token>, tail: seq<Token>, prec: int)
    requires InfixPrec(op) >= prec && InfixPrec(op) >= 0 && right != [] && right[0] != Illegal
    requires op == Implicit && right[0].Symbol? ==> InfixPrec(right[0].s) < 0 && !IsTrailing(right[0].s)
    requires ParseInfix(right, InfixPrec(op) + 1) == Ok(r, tail)
    ensures Loop(l, Operator(op) + right, prec) == Loop(Bin(op, l, r), tail, prec)
  {
    if op == Implicit {
      assert Operator(op) + right == right;
    } else {
      assert (Operator(op) + right)[0] == Symbol(op) && (Operator(op) + right)[1..] == right;
    }
  }

  lemma {:induction false} ListParses(items: seq<Expr>, prec: int, tail: seq<Token>)
    requires WellFormed(ListE(items))
    ensures ParseInfix(Render(ListE(items)) + tail, prec) == Loop(ListE(items), tail, prec)
    decreases items, 3
  {
    var ts := Render(ListE(items)) + tail;
    assert ts[0] == Symbol(LBracket) && ts[1..] == RenderItems(items) + ([Symbol(RBracket)] + tail);
    ItemsParse(items, tail);
  }

  lemma {:induction false} ItemsParse(items: seq<Expr>, tail: seq<Token>)
    requires forall k :: 0 <= k < |items| ==> WellFormed(items[k])
    ensures ParseItems(RenderItems(items) + ([Symbol(RBracket)] + tail)) == Ok(items, tail)
    decreases items, 2
  {
    hide Render, RenderItems, ParseInfix, Loop, Swallow, ParseItems, StartsInfix, ParsePrefix;
    ItemsPrinted(items);
    var close := [Symbol(RBracket)] + tail;
    assert close[1..] == tail;
    if items == [] {
      NoItems(close);
      assert RenderItems(items) + close == close;
    } else {
      FirstToken(items[0]);
      SwallowPositive(items[0]);
      if |items| == 1 {
        PrintedParses(items[0], 0, close);
        LoopStops(items[0], close, 0);
        ItemsEnd(items[0], close);
        assert items == [items[0]];
      } else {
        var more := RenderItems(items[1..]) + close;
        var rest := [Symbol(Comma)] + more;
        ItemsParse(items[1..], tail);
        PrintedParses(items[0], 0, rest);
        LoopStops(items[0], rest, 0);
        ItemsComma(items[0], more, items[1..], tail);
        Regroup(Render(items[0]), [Symbol(Comma)], RenderItems(items[1..]), close);
        assert items == [items[0]] + items[1..];
      }
    }
  }

  lemma Regroup(a: seq<Token>, b: seq<Token>, c: seq<Token>, d: seq<Token>)
    ensures a + b + c + d == a + (b + (c + d))
  {
  }

  lemma ItemsPrinted(items: seq<Expr>)
    ensures RenderItems(items) ==
      if items == [] then []
      else if |items| == 1 then Render(items[0])
      else Render(items[0]) + [Symbol(Comma)] + RenderItems(items[1..])
  {
    hide Render;
  }

  lemma ItemsComma(e: Expr, more: seq<Token>, items: seq<Expr>, tail: seq<Token>)
    requires ParseInfix(Render(e) + ([Symbol(Comma)] + more), 0) == Ok(e, [Symbol(Comma)] + more)
    requires Render(e)[0] != Symbol(RBracket) && ParseItems(more) == Ok(items, tail)
    ensures ParseItems(Render(e) + ([Symbol(Comma)] + more)) == Ok([e] + items, tail)
  {
    hide Render, ParseInfix;
    assert ([Symbol(Comma)] + more)[1..] == more;
  }

  lemma NoItems(close: seq<Token>)
    requires close != [] && close[0] == Symbol(RBracket)
    ensures ParseItems(close) == Ok([], close[1..])
  {
  }

  lemma ItemsEnd(e: Expr, close: seq<Token>)
    requires ParseInfix(Render(e) + close, 0) == Ok(e, close) && close != [] && close[0] == Symbol(RBracket)
    requires Render(e)[0] != Symbol(RBracket)
    ensures ParseItems(Render(e) + close) == Ok([e], close[1..])
  {
    hide Render, ParseInfix;
  }

  /** Parsing what was printed gives back the same tree, whatever the operators in it. */
  lemma PrintParse(e: Expr)
    requires WellFormed(e)
    ensures ParseFilter(Render(e)) == Some(e)
  {
    SwallowPositive(e);
    PrintedParses(e, 0, []);
    LoopStops(e, [], 0);
    assert Render(e) + [] == Render(e);
  }

  lemma {:induction false} SwallowPositive(e: Expr)
    requires WellFormed(e)
    ensures Swallow(e) >= 1
    decreases e
  {
    match e
    case Pre(op, x) => SwallowPositive(x);
    case Bin(op, l, r) => SwallowPositive(r);
    case _ =>
  }

  // ----- what else the parser guarantees -----

  lemma {:induction false} PrefixOutput(ts: seq<Token>)
    requires ParsePrefix(ts).Ok?
    ensures WellFormed(ParsePrefix(ts).value)
    decreases |ts|, 0
  {
    if ts[0].Symbol? {
      var s := ts[0].s;
      if s == LParen {
        InfixOutput(ts[1..], 0);
      } else if IsNamePrefix(s) {
      } else if s == LBracket {
        ItemsOutput(ts[1..]);
      } else {
        InfixOutput(ts[1..], PrefixPrec(s) + 1);
      }
    }
  }

  lemma {:induction false} ItemsOutput(ts: seq<Token>)
    requires ParseItems(ts).Ok?
    ensures forall k :: 0 <= k < |ParseItems(ts).value| ==> WellFormed(ParseItems(ts).value[k])
    decreases |ts|, 2
  {
    if ts != [] && ts[0] == Symbol(RBracket) {
    } else {
      InfixOutput(ts, 0);
      var rest := ParseInfix(ts, 0).rest;
      if rest[0] == Symbol(Comma) { ItemsOutput(rest[1..]); }
    }
  }

  lemma {:induction false} LoopOutput(ast: Expr, ts: seq<Token>, prec: int)
    requires WellFormed(ast) && Loop(ast, ts, prec).Ok?
    ensures WellFormed(Loop(ast, ts, prec).value)
    decreases |ts|, 2
  {
    if ts == [] || (ts[0].Symbol? && InfixPrec(ts[0].s) < 0 && IsTrailing(ts[0].s)) {
    } else if ts[0].Symbol? && InfixPrec(ts[0].s) >= 0 {
      if InfixPrec(ts[0].s) >= prec {
        InfixOutput(ts[1..], InfixPrec(ts[0].s) + 1);
        var right := ParseInfix(ts[1..], InfixPrec(ts[0].s) + 1);
        LoopOutput(Bin(ts[0].s, ast, right.value), right.rest, prec);
      }
    } else if InfixPrec(Implicit) >= prec {
      InfixOutput(ts, InfixPrec(Implicit) + 1);
      var right := ParseInfix(ts, InfixPrec(Implicit) + 1);
      LoopOutput(Bin(Implicit, ast, right.value), right.rest, prec);
    }
  }

  /** Everything the parser builds can be printed. */
  lemma {:induction false} InfixOutput(ts: seq<Token>, prec: int)
    requires ParseInfix(ts, prec).Ok?
    ensures WellFormed(ParseInfix(ts, prec).value)
    decreases |ts|, 1
  {
    PrefixOutput(ts);
    LoopOutput(ParsePrefix(ts).value, ParsePrefix(ts).rest, prec);
  }

  /** Printing normalises: the printed form of an accepted filter is accepted, with the same meaning. */
  lemma Reprint(ts: seq<Token>)
    requires ParseFilter(ts).Some?
    ensures ParseFilter(Render(ParseFilter(ts).value)) == ParseFilter(ts)
  {
    InfixOutput(ts, 0);
    PrintParse(ParseFilter(ts).value);
  }

  predicate Atom(e: Expr) { e.NameE? || e.LitE? }

  lemma AtomBin(op: Sym, a: Expr, b: Expr)
    requires Atom(a) && Atom(b) && (op == Implicit ==> !StartsInfix(b))
    ensures Render(Bin(op, a, b)) == Render(a) + Operator(op) + Render(b)
    ensures Swallow(Bin(op, a, b)) == InfixPrec(op) + 1
  {
  }

  lemma BinRender(op: Sym, l: Expr, r: Expr)
    requires Swallow(l) > InfixPrec(op) && RightBare(op, r)
    ensures Render(Bin(op, l, r)) == Render(l) + Operator(op) + Render(r)
  {
  }

  /** Of two operators in a row the one with the higher precedence binds first, and of equal ones, the
      implicit one included, the left one. */
  lemma HigherBindsFirst(a: Expr, op1: Sym, b: Expr, op2: Sym, c: Expr)
    requires WellFormed(Bin(op2, Bin(op1, a, b), c)) && Atom(a) && Atom(b) && Atom(c)
    requires op1 == Implicit ==> !StartsInfix(b)
    requires op2 == Implicit ==> !StartsInfix(c)
    ensures ParseFilter(Render(a) + Operator(op1) + Render(b) + Operator(op2) + Render(c)) ==
      Some(if InfixPrec(op1) >= InfixPrec(op2) then Bin(op2, Bin(op1, a, b), c) else Bin(op1, a, Bin(op2, b, c)))
  {
    AtomBin(op1, a, b);
    AtomBin(op2, b, c);
    var x, y, z, o1, o2 := Render(a), Render(b), Render(c), Operator(op1), Operator(op2);
    assert x + o1 + (y + o2 + z) == x + o1 + y + o2 + z;
    if InfixPrec(op1) >= InfixPrec(op2) {
      BinRender(op2, Bin(op1, a, b), c);
      PrintParse(Bin(op2, Bin(op1, a, b), c));
    } else {
      BinRender(op1, a, Bin(op2, b, c));
      PrintParse(Bin(op1, a, Bin(op2, b, c)));
    }
    hide Render, ParseFilter;
  }
}
