/** What the operator table means for filters as they are written: which operator takes its operands first. */
module OperatorTable {
  import opened Bytes
  import opened Parser

  /** The infix operators in groups, those that bind first in front. */
  const GROUPS: seq<set<Sym>> := [
    {Star, Slash, Percent},
    {Plus, Minus},
    {ShiftLeft, ShiftRight},
    {Amp, Bar, Caret},
    {InS, ContainsS, StartsWithS, EndsWithS},
    {Implicit, Eq, Ne, Lt, Gt, Le, Ge},
    {AndS, OrS}
  ]

  /** How many of these groups an operand of a prefix operator takes in. */
  const REACH: map<Sym, nat> := map[Plus := 0, Minus := 0, Tilde := 3, ExistsS := 4, NotS := 6]

  const NAME_PREFIXES: set<Sym> := {InS, OutS, IngressS, EgressS, SrcS, DstS}

  /** A name, with or without one of the six prefixes, or a literal. */
  predicate IsOperand(e: Expr)
  {
    match e
    case NameE(p, _) => p.Some? ==> p.value in NAME_PREFIXES
    case LitE(_) => true
    case _ => false
  }

  function Spelled(e: Expr): seq<Token>
    requires IsOperand(e)
  {
    match e
    case NameE(None, n) => [NameT(n)]
    case NameE(Some(p), n) => [Symbol(p), NameT(n)]
    case LitE(v) => [Literal(v)]
  }

  /** The implicit operator is not written. */
  function Sign(op: Sym): seq<Token>
  {
    if op == Implicit then [] else [Symbol(op)]
  }

  /** The word `in` behind the implicit operator would be read as an operator. */
  predicate MayFollow(op: Sym, e: Expr)
  {
    op == Implicit ==> !(e.NameE? && e.prefix == Some(InS))
  }

  lemma InGroup(i: nat, op: Sym)
    requires i < |GROUPS| && op in GROUPS[i]
    ensures InfixPrec(op) == 6 - i
  {
  }

  lemma Spelling(e: Expr)
    requires IsOperand(e)
    ensures
      Spelled(e) == Render(e) && Atom(e) && WellFormed(e) && (StartsInfix(e) <==> e.NameE? && e.prefix == Some(InS))
  {
  }

  /** Of two infix operators in a row the one of the tighter group has the operand between them; within a group it is
      the left one. */
  lemma TighterFirst(a: Expr, i: nat, op1: Sym, b: Expr, j: nat, op2: Sym, c: Expr)
    requires IsOperand(a) && IsOperand(b) && IsOperand(c) && i < |GROUPS| && j < |GROUPS|
    requires op1 in GROUPS[i] && op2 in GROUPS[j] && MayFollow(op1, b) && MayFollow(op2, c)
    ensures ParseFilter(Spelled(a) + Sign(op1) + Spelled(b) + Sign(op2) + Spelled(c)) ==
      Some(if i <= j then Bin(op2, Bin(op1, a, b), c) else Bin(op1, a, Bin(op2, b, c)))
  {
    InGroup(i, op1);
    InGroup(j, op2);
    Spelling(a);
    Spelling(b);
    Spelling(c);
    hide ParseFilter, Render;
    HigherBindsFirst(a, op1, b, op2, c);
  }

  /** A prefix operator in front of an infix one applies to the whole if the group of that is within its reach, and to
      the first operand alone if it is not. */
  lemma PrefixReaches(op: Sym, a: Expr, i: nat, infix: Sym, b: Expr)
    requires op in REACH && IsOperand(a) && IsOperand(b) && i < |GROUPS| && infix in GROUPS[i] && MayFollow(infix, b)
    ensures ParseFilter([Symbol(op)] + Spelled(a) + Sign(infix) + Spelled(b)) ==
      Some(if i < REACH[op] then Pre(op, Bin(infix, a, b)) else Bin(infix, Pre(op, a), b))
  {
    hide ParseFilter, Render, Swallow, RightBare, Fits;
    InGroup(i, infix);
    PrefixIs(op);
    Spelling(a);
    Spelling(b);
    AtomBin(infix, a, b);
    var x, o, y := Render(a), Operator(infix), Render(b);
    assert [Symbol(op)] + (x + o + y) == [Symbol(op)] + x + o + y;
    if i < REACH[op] {
      PrePrinted(op, Bin(infix, a, b));
      PrintParse(Pre(op, Bin(infix, a, b)));
    } else {
      PrePrinted(op, a);
      AtomBare(infix, b);
      BinRender(infix, Pre(op, a), b);
      PrintParse(Bin(infix, Pre(op, a), b));
    }
  }

  lemma PrePrinted(op: Sym, x: Expr)
    requires Fits(x, PrefixPrec(op) + 1)
    ensures Render(Pre(op, x)) == [Symbol(op)] + Render(x)
    ensures Atom(x) ==> Swallow(Pre(op, x)) == Min(PrefixPrec(op) + 1, 8)
  {
  }

  lemma AtomBare(infix: Sym, b: Expr)
    requires Atom(b) && (infix == Implicit ==> !StartsInfix(b))
    ensures RightBare(infix, b)
  {
  }

  lemma PrefixIs(op: Sym)
    requires op in REACH
    ensures PrefixPrec(op) == 6 - REACH[op] || (PrefixPrec(op) == 7 && REACH[op] == 0)
  {
  }

  /** Behind an infix operator a prefix operator applies to what follows, whatever their groups. */
  lemma PrefixAsOperand(a: Expr, i: nat, infix: Sym, op: Sym, b: Expr)
    requires op in REACH && IsOperand(a) && IsOperand(b) && i < |GROUPS| && infix in GROUPS[i]
    requires infix == Implicit ==> op != Plus && op != Minus
    ensures ParseFilter(Spelled(a) + Sign(infix) + [Symbol(op)] + Spelled(b)) == Some(Bin(infix, a, Pre(op, b)))
  {
    InGroup(i, infix);
    PrefixIs(op);
    Spelling(a);
    Spelling(b);
    assert Render(Pre(op, b)) == [Symbol(op)] + Render(b);
    BinRender(infix, a, Pre(op, b));
    var x, o, y := Render(a), Operator(infix), Render(b);
    assert x + o + ([Symbol(op)] + y) == x + o + [Symbol(op)] + y;
    PrintParse(Bin(infix, a, Pre(op, b)));
    hide ParseFilter, Render;
  }

  /** What a symbol in front of a name makes of it: a longer name, an operation, or an error. */
  lemma SymbolAndName(s: Sym, n: string)
    ensures ParseFilter([Symbol(s), NameT(n)]) ==
      if s in NAME_PREFIXES then Some(NameE(Some(s), n))
      else if s in REACH then Some(Pre(s, NameE(None, n)))
      else None
  {
    var ts, e := [Symbol(s), NameT(n)], NameE(None, n);
    assert ts[1..] == [NameT(n)] && ts[2..] == [] && [NameT(n)][1..] == [];
    InfixIs(ts, 0);
    InfixIs([NameT(n)], 0);
    InfixIs([NameT(n)], PrefixPrec(s) + 1);
    assert ParsePrefix([NameT(n)]) == Ok(e, []);
    assert ParseInfix([NameT(n)], 0) == Ok(e, []) && ParseInfix([NameT(n)], PrefixPrec(s) + 1) == Ok(e, []);
    if s in NAME_PREFIXES {
      assert ParsePrefix(ts) == Ok(NameE(Some(s), n), []);
    } else if s in REACH {
      assert ParsePrefix(ts) == Ok(Pre(s, e), []);
    } else {
      assert ParsePrefix(ts) == SyntaxError;
    }
  }
}
