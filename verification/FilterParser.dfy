/** The parser as it works: a scanner that is consumed token by token, and a loop that rebuilds the tree. */
module FilterParser {
  import opened Bytes
  import opened Parser

  /** What `next_token` finds. */
  datatype Look = End | Next(t: Token) | Failed

  class FilterParser {
    /** Tokens that are not consumed yet. */
    var rest: seq<Token>

    constructor (tokens: seq<Token>)
      ensures rest == tokens
    {
      rest := tokens;
    }

    /** `next_token`: look at the next token without consuming it. */
    method NextToken() returns (l: Look)
      ensures l == if rest == [] then End else if rest[0] == Illegal then Failed else Next(rest[0])
    {
      if rest == [] { return End; }
      return if rest[0] == Illegal then Failed else Next(rest[0]);
    }

    method ConsumeToken()
      requires rest != []
      modifies this
      ensures rest == old(rest)[1..]
    {
      rest := rest[1..];
    }

    /** `parse_infix_expr` */
    method ParseInfixExpr(prec: int) returns (e: Option<Expr>)
      modifies this
      ensures match ParseInfix(old(rest), prec)
        case SyntaxError => e == None
        case Ok(v, ts) => e == Some(v) && rest == ts
      decreases |rest|, 1
    {
      hide ParsePrefix, ParseItems;
      var first := ParsePrefixExpr();
      if first.None? { return None; }
      var ast := first.value;
      while true
        invariant |rest| < |old(rest)| && Loop(ast, rest, prec) == ParseInfix(old(rest), prec)
        decreases |rest|
      {
        ghost var ts := rest;
        var token := NextToken();
        if token.Failed? { return None; }
        var op, opPrec := Implicit, InfixPrec(Implicit);
        if token.Next? && token.t.Symbol? && InfixPrec(token.t.s) >= 0 {
          op, opPrec := token.t.s, InfixPrec(token.t.s);
          if opPrec < prec { return Some(ast); }
          ConsumeToken();
        } else {
          if token.End? || (token.t.Symbol? && IsTrailing(token.t.s)) { return Some(ast); }
          if opPrec < prec { return Some(ast); }
        }
        var right := ParseInfixExpr(opPrec + 1);
        if right.None? { return None; }
        ast := Bin(op, ast, right.value);
      }
    }

    /** `parse_prefix_expr` */
    method ParsePrefixExpr() returns (e: Option<Expr>)
      modifies this
      ensures match ParsePrefix(old(rest))
        case SyntaxError => e == None
        case Ok(v, ts) => e == Some(v) && rest == ts
      decreases |rest|, 0
    {
      hide Loop, ParseInfix, ParseItems;
      var token := NextToken();
      if !token.Next? { return None; }
      if token.t == Symbol(LParen) {
        ConsumeToken();
        var inner := ParseInfixExpr(0);
        if inner.None? { return None; }
        token := NextToken();
        if token != Next(Symbol(RParen)) { return None; }
        ConsumeToken();
        return inner;
      }
      if token.t.Symbol? && IsNamePrefix(token.t.s) {
        var prefix := token.t.s;
        ConsumeToken();
        token := NextToken();
        if !token.Next? || !token.t.NameT? { return None; }
        ConsumeToken();
        return Some(NameE(Some(prefix), token.t.name));
      }
      if token.t == Symbol(LBracket) {
        ConsumeToken();
        var items := ParseListItems();
        return if items.None? then None else Some(ListE(items.value));
      }
      if token.t.Symbol? {
        var op := token.t.s;
        if PrefixPrec(op) < 0 { return None; }
        ConsumeToken();
        var x := ParseInfixExpr(PrefixPrec(op) + 1);
        return if x.None? then None else Some(Pre(op, x.value));
      }
      ConsumeToken();
      return Some(if token.t.NameT? then NameE(None, token.t.name) else LitE(token.t.value));
    }

    /** The list loop, behind the opening bracket. */
    method ParseListItems() returns (items: Option<seq<Expr>>)
      modifies this
      ensures match ParseItems(old(rest))
        case SyntaxError => items == None
        case Ok(v, ts) => items == Some(v) && rest == ts
      decreases |rest|, 2
    {
      hide Loop, ParseInfix, ParsePrefix;
      var list: seq<Expr> := [];
      var token := NextToken();
      if token.Failed? {
        IllegalItems(rest);
        return None;
      }
      NoItemsSoFar(ParseItems(rest));
      while token != Next(Symbol(RBracket))
        invariant |rest| <= |old(rest)| && token == if rest == [] then End else Next(rest[0])
        invariant ItemsSoFar(list, ParseItems(rest)) == ParseItems(old(rest))
        decreases |rest|
      {
        var e := ParseInfixExpr(0);
        if e.None? { return None; }
        ghost var before := list;
        list := list + [e.value];
        token := NextToken();
        if token == Next(Symbol(Comma)) {
          ConsumeToken();
          ItemsPush(before, e.value, ParseItems(rest));
          token := NextToken();
          if token.Failed? {
            IllegalItems(rest);
            return None;
          }
        } else if token != Next(Symbol(RBracket)) {
          return None;
        } else {
          ItemsPush(before, e.value, Ok([], rest[1..]));
          assert [e.value] + [] == [e.value];
        }
      }
      ConsumeToken();
      assert list + [] == list;
      return Some(list);
    }

    /** `parse_filter` */
    method ParseFilterExpr() returns (e: Option<Expr>)
      modifies this
      ensures e == ParseFilter(old(rest))
    {
      hide ParseInfix;
      var ast := ParseInfixExpr(0);
      if ast.None? { return None; }
      var token := NextToken();
      return if token.End? then ast else None;
    }
  }

  /** The items parsed before, in front of those to come. */
  ghost function ItemsSoFar(list: seq<Expr>, more: Parsed<seq<Expr>>): Parsed<seq<Expr>>
  {
    match more
    case SyntaxError => SyntaxError
    case Ok(items, rest) => Ok(list + items, rest)
  }

  lemma ItemsPush(list: seq<Expr>, e: Expr, more: Parsed<seq<Expr>>)
    ensures ItemsSoFar(list + [e], more) == ItemsSoFar(list, ItemsSoFar([e], more))
  {
    if more.Ok? {
      assert list + [e] + more.value == list + ([e] + more.value);
    }
  }

  lemma NoItemsSoFar(more: Parsed<seq<Expr>>)
    ensures ItemsSoFar([], more) == more
  {
    if more.Ok? {
      assert [] + more.value == more.value;
    }
  }

  lemma IllegalItems(ts: seq<Token>)
    requires ts != [] && ts[0] == Illegal
    ensures ParseItems(ts) == SyntaxError
  {
    assert ParsePrefix(ts) == SyntaxError;
    assert ParseInfix(ts, 0) == SyntaxError;
  }
}
