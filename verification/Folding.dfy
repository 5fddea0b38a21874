/** Generation of an evaluation tree from a typed syntax tree, with constant subtrees folded into literals. */
module Folding {
  import opened Bytes
  import opened Evaluator

  function Bool(b: bool): Value { Value(b, 0) }

  /** Typed syntax tree. Names are resolved; `Construct` makes a value of another type, or fails. */
  datatype Ast =
    | Lit(v: Value)
    | Name(isConst: bool, id: nat)
    | List(items: seq<Ast>)
    | Construct(mk: Value -> Option<Value>, a: Ast)
    | Fun1(cast: bool, f: Value -> Value, a: Ast)
    | Fun2(g: (Value, Value) -> Value, a: Ast, b: Ast)
    | And(a: Ast, b: Ast)
    | Or(a: Ast, b: Ast)
    | Not(a: Ast)
    | Exists(id: nat)
    | Root(a: Ast)

  /** The flag `FDS_FAF_CONST_SUBTREE`: set for literals and constants, and where all children have it. */
  predicate IsConst(t: Ast)
  {
    match t
    case Lit(_) => true
    case Name(c, _) => c
    case List(items) => items != [] && forall k :: 0 <= k < |items| ==> IsConst(items[k])
    case Exists(_) => false
    case Fun2(_, a, b) => IsConst(a) && IsConst(b)
    case And(a, b) => IsConst(a) && IsConst(b)
    case Or(a, b) => IsConst(a) && IsConst(b)
    case _ => IsConst(t.a)
  }

  /** The flag `FDS_FAF_MULTIPLE_EVAL_SUBTREE`: a field below, without a logical operation in between. */
  predicate Multiple(t: Ast)
  {
    match t
    case Name(c, _) => !c
    case Exists(_) => true
    case List(items) => exists k :: 0 <= k < |items| && Multiple(items[k])
    case Construct(_, a) => Multiple(a)
    case Fun1(_, _, a) => Multiple(a)
    case Fun2(_, a, b) => Multiple(a) || Multiple(b)
    case _ => false
  }

  /** What semantic analysis guarantees: list items and arguments of constructors are constant. */
  predicate Typed(t: Ast)
  {
    match t
    case Lit(_) => true
    case Name(_, _) => true
    case Exists(_) => true
    case List(items) => forall k :: 0 <= k < |items| ==> Typed(items[k]) && IsConst(items[k])
    case Construct(_, a) => Typed(a) && IsConst(a)
    case Fun2(_, a, b) => Typed(a) && Typed(b)
    case And(a, b) => Typed(a) && Typed(b)
    case Or(a, b) => Typed(a) && Typed(b)
    case _ => Typed(t.a)
  }

  // ----- evaluation, with one value for each field -----

  /** What the data callback gives for a field: whether it is there, and its value or the default. */
  datatype Answer = Answer(found: bool, v: Value)

  function Run(c: Tree, env: nat -> Answer): Value
  {
    match c
    case Const(v) => v
    case Field(id) => env(id).v
    case ExistsT(id) => Bool(env(id).found)
    case Call1(_, f, a) => f(Run(a, env))
    case Call2(g, a, b) => g(Run(a, env), Run(b, env))
    case AnyT(a) => Bool(Run(a, env).b)
    case AndT(a, b) => if !Run(a, env).b then Bool(false) else Bool(Run(b, env).b)
    case OrT(a, b) => if Run(a, env).b then Bool(true) else Bool(Run(b, env).b)
    case NotT(a) => Bool(!Run(a, env).b)
  }

  /** At compile time there is no record. */
  const NO_RECORD: nat -> Answer := _ => Answer(false, Bool(false))

  // ----- generation -----

  function OnOne(a: Option<Tree>, f: Tree -> Tree): Option<Tree>
  {
    if a.None? then None else Some(f(a.value))
  }

  function OnTwo(a: Option<Tree>, b: Option<Tree>, f: (Tree, Tree) -> Tree): Option<Tree>
  {
    if a.None? || b.None? then None else Some(f(a.value, b.value))
  }

  /** `generate_eval_tree`; `None` when a value could not be constructed. Without a second run a constant
      subtree below a node that is not constant becomes a literal. */
  function Generate(t: Ast, consts: nat -> Value, secondRun: bool, parentConst: bool): Option<Tree>
    decreases t, if secondRun then 0 else 3
  {
    if !secondRun && IsConst(t) && !parentConst then
      match Literal(t, consts)
      case None => None
      case Some(v) => Some(Const(v))
    else NodeOf(t, consts, secondRun)
  }

  /** The node for `t` itself (`process_*`). */
  function NodeOf(t: Ast, consts: nat -> Value, secondRun: bool): Option<Tree>
    decreases t, if secondRun then -1 else 2
  {
    var here := IsConst(t);
    match t
    case Lit(v) => Some(Const(v))
    case Name(c, id) => Some(if c then Const(consts(id)) else Field(id))
    case Exists(id) => Some(ExistsT(id))
    case List(items) =>
      (match Literals(items, consts) case None => None case Some(vs) => Some(Const(Value(false, 0, vs))))
    case Construct(mk, a) =>
      (match Literal(a, consts)
       case None => None
       case Some(v) => match mk(v) case None => None case Some(r) => Some(Const(r)))
    case Fun1(cast, f, a) => OnOne(Generate(a, consts, secondRun, here), c => Call1(cast, f, c))
    case Fun2(g, a, b) => OnTwo(Generate(a, consts, secondRun, here), Generate(b, consts, secondRun, here),
      (c, d) => Call2(g, c, d))
    case And(a, b) => OnTwo(Generate(a, consts, secondRun, here), Generate(b, consts, secondRun, here),
      (c, d) => AndT(c, d))
    case Or(a, b) => OnTwo(Generate(a, consts, secondRun, here), Generate(b, consts, secondRun, here),
      (c, d) => OrT(c, d))
    case Not(a) => OnOne(Generate(a, consts, secondRun, here), c => NotT(c))
    case Root(a) => OnOne(Generate(a, consts, secondRun, here), c => if Multiple(a) then AnyT(c) else c)
  }

  /** `ast_to_literal`: generate without folding and evaluate once. */
  function Literal(t: Ast, consts: nat -> Value): Option<Value>
    decreases t, 1
  {
    match Generate(t, consts, true, false)
    case None => None
    case Some(c) => Some(Run(c, NO_RECORD))
  }

  /** `list_to_literal` */
  function Literals(items: seq<Ast>, consts: nat -> Value): Option<seq<Value>>
    decreases items, 0
  {
    if items == [] then Some([])
    else
      match Literal(items[0], consts)
      case None => None
      case Some(v) => match Literals(items[1..], consts) case None => None case Some(vs) => Some([v] + vs)
  }

  // ----- folding keeps the meaning -----

  /** The code of a constant subtree reads no field. */
  lemma {:induction false} ConstRuns(t: Ast, consts: nat -> Value, env: nat -> Answer)
    requires Typed(t) && IsConst(t) && NodeOf(t, consts, true).Some?
    ensures Run(NodeOf(t, consts, true).value, env) == Run(NodeOf(t, consts, true).value, NO_RECORD)
    decreases t
  {
    if t.Fun2? || t.And? || t.Or? {
      ConstRuns(t.a, consts, env);
      ConstRuns(t.b, consts, env);
    } else if t.Fun1? || t.Not? || t.Root? {
      ConstRuns(t.a, consts, env);
    }
  }

  /** Whatever the fields are, the tree generated with folding and the one without evaluate to the same
      value, and one cannot be generated exactly when the other cannot. */
  lemma {:induction false} FoldingKeepsMeaning(t: Ast, consts: nat -> Value, env: nat -> Answer)
    requires Typed(t)
    ensures
      var folded, plain := Generate(t, consts, false, false), Generate(t, consts, true, false);
      && (folded.None? <==> plain.None?)
      && (folded.Some? ==> Run(folded.value, env) == Run(plain.value, env))
    decreases t
  {
    if IsConst(t) {
      if NodeOf(t, consts, true).Some? { ConstRuns(t, consts, env); }
    } else if t.Fun2? || t.And? || t.Or? {
      FoldingKeepsMeaning(t.a, consts, env);
      FoldingKeepsMeaning(t.b, consts, env);
    } else if t.Fun1? || t.Not? || t.Root? {
      FoldingKeepsMeaning(t.a, consts, env);
    }
  }

  /** Folding leaves a literal in place of each largest constant subtree: no function call whose operands are
      all literals remains, except under a node that itself reads a field. */
  predicate Reads(c: Tree)
  {
    match c
    case Const(_) => false
    case Field(_) => true
    case ExistsT(_) => true
    case Call2(_, a, b) => Reads(a) || Reads(b)
    case AndT(a, b) => Reads(a) || Reads(b)
    case OrT(a, b) => Reads(a) || Reads(b)
    case _ => Reads(c.a)
  }

  predicate FullyFolded(c: Tree)
  {
    match c
    case Const(_) => true
    case Field(_) => true
    case ExistsT(_) => true
    case Call2(_, a, b) => Reads(c) && FullyFolded(a) && FullyFolded(b)
    case AndT(a, b) => Reads(c) && FullyFolded(a) && FullyFolded(b)
    case OrT(a, b) => Reads(c) && FullyFolded(a) && FullyFolded(b)
    case _ => Reads(c) && FullyFolded(c.a)
  }

  /** Every typed tree that is not constant reads a field, unless what is not constant is only an empty list. */
  predicate NoEmptyList(t: Ast)
  {
    match t
    case List(items) => items != []
    case Lit(_) => true
    case Name(_, _) => true
    case Exists(_) => true
    case Fun2(_, a, b) => NoEmptyList(a) && NoEmptyList(b)
    case And(a, b) => NoEmptyList(a) && NoEmptyList(b)
    case Or(a, b) => NoEmptyList(a) && NoEmptyList(b)
    case _ => NoEmptyList(t.a)
  }

  lemma {:induction false} FoldingIsComplete(t: Ast, consts: nat -> Value)
    requires Typed(t) && NoEmptyList(t) && Generate(t, consts, false, false).Some?
    ensures
      var c := Generate(t, consts, false, false).value;
      FullyFolded(c) && (Reads(c) <==> !IsConst(t))
    decreases t
  {
    if IsConst(t) {
    } else if t.Fun2? || t.And? || t.Or? {
      FoldingIsComplete(t.a, consts);
      FoldingIsComplete(t.b, consts);
    } else if t.Fun1? || t.Not? || t.Root? {
      FoldingIsComplete(t.a, consts);
    }
  }

  // ----- folding keeps what a filter finds in records with several values -----

  lemma {:induction false} ConstHasNoField(t: Ast, consts: nat -> Value)
    requires Typed(t) && IsConst(t) && NodeOf(t, consts, true).Some?
    ensures Fields(NodeOf(t, consts, true).value) == 0
    decreases t
  {
    if t.Fun2? || t.And? || t.Or? {
      ConstHasNoField(t.a, consts);
      ConstHasNoField(t.b, consts);
    } else if t.Fun1? || t.Not? || t.Root? {
      ConstHasNoField(t.a, consts);
    }
  }

  lemma {:induction false} FilterHasField(c: Tree)
    requires IsFormula(c) || IsRoot(c)
    ensures Fields(c) > 0
  {
    match c
    case AndT(a, b) => FilterHasField(a);
    case OrT(a, b) => FilterHasField(a);
    case NotT(a) => FilterHasField(a);
    case _ =>
  }

  lemma {:induction false} ExprRuns(c: Tree, v: Value)
    requires IsExpr(c) && Fields(c) == 0
    ensures Eval(c, v) == Run(c, NO_RECORD)
  {
    match c
    case Call1(_, _, a) => ExprRuns(a, v);
    case Call2(_, a, b) =>
      ExprRuns(a, v);
      ExprRuns(b, v);
    case _ =>
  }

  /** An expression and the folded one read the same field and have the same value for each value of it. */
  ghost predicate SameExpr(c: Tree, d: Tree)
  {
    && IsExpr(c) && IsExpr(d) && Fields(c) == Fields(d) && (c.Field? <==> d.Field?)
    && (Fields(c) == 1 ==> FieldOf(c) == FieldOf(d))
    && forall v :: Eval(c, v) == Eval(d, v)
  }

  lemma {:induction false} FoldedExpr(t: Ast, consts: nat -> Value)
    requires Typed(t) && NodeOf(t, consts, true).Some? && IsExpr(NodeOf(t, consts, true).value)
    ensures Generate(t, consts, false, false).Some?
    ensures SameExpr(Generate(t, consts, false, false).value, NodeOf(t, consts, true).value)
    decreases t
  {
    hide SameExpr;
    var plain := NodeOf(t, consts, true).value;
    if IsConst(t) {
      ConstHasNoField(t, consts);
      forall v ensures Eval(plain, v) == Run(plain, NO_RECORD) { ExprRuns(plain, v); }
      SameConst(Run(plain, NO_RECORD), plain);
      assert Generate(t, consts, true, false) == Some(plain);
      assert Literal(t, consts) == Some(Run(plain, NO_RECORD));
    } else if t.Fun2? {
      FoldedExpr(t.a, consts);
      FoldedExpr(t.b, consts);
      SameCall2(t.g, Generate(t.a, consts, false, false).value, Generate(t.b, consts, false, false).value, plain);
    } else if t.Fun1? {
      FoldedExpr(t.a, consts);
      SameCall1(t.cast, t.f, Generate(t.a, consts, false, false).value, plain);
    } else if t.Root? {
      FoldedExpr(t.a, consts);
    } else {
      SameSelf(plain);
    }
  }

  lemma SameConst(v: Value, d: Tree)
    requires IsExpr(d) && Fields(d) == 0 && forall x :: Eval(d, x) == v
    ensures SameExpr(Const(v), d)
  {
  }

  lemma SameSelf(c: Tree)
    requires IsExpr(c)
    ensures SameExpr(c, c)
  {
  }

  lemma SameCall1(cast: bool, f: Value -> Value, a: Tree, d: Tree)
    requires d.Call1? && d.cast == cast && d.f == f && IsExpr(d) && SameExpr(a, d.a)
    ensures SameExpr(Tree.Call1(cast, f, a), d)
  {
    forall v ensures Eval(Tree.Call1(cast, f, a), v) == Eval(d, v) { assert Eval(a, v) == Eval(d.a, v); }
  }

  lemma SameCall2(g: (Value, Value) -> Value, a: Tree, b: Tree, d: Tree)
    requires d.Call2? && d.g == g && IsExpr(d) && SameExpr(a, d.a) && SameExpr(b, d.b)
    ensures SameExpr(Tree.Call2(g, a, b), d)
  {
    forall v ensures Eval(Tree.Call2(g, a, b), v) == Eval(d, v) {
      assert Eval(a, v) == Eval(d.a, v) && Eval(b, v) == Eval(d.b, v);
    }
  }

  lemma SameFound(c: Tree, d: Tree, data: FieldData)
    requires IsCmp(d) && SameExpr(c, d)
    ensures Found(c, data) == Found(d, data) && SomeValue(c, data) == SomeValue(d, data)
  {
    assert Eval(c, data.dflt) == Eval(d, data.dflt);
    assert forall k :: 0 <= k < |data.values| ==> Eval(c, data.values[k]) == Eval(d, data.values[k]);
  }

  /** Whatever values the fields of a record have, the folded filter, which is the one that is evaluated, has the
      result and the meaning of the filter as it was written. */
  lemma {:induction false} FoldedFilterKeepsResult(t: Ast, consts: nat -> Value, data: nat -> FieldData)
    requires Typed(t) && NodeOf(t, consts, true).Some?
    requires var plain := NodeOf(t, consts, true).value; IsFormula(plain) || IsRoot(plain)
    ensures Generate(t, consts, false, false).Some?
    ensures
      var plain, folded := NodeOf(t, consts, true).value, Generate(t, consts, false, false).value;
      && (IsFormula(plain) ==> IsFormula(folded)) && (IsRoot(plain) ==> IsRoot(folded))
      && Result(folded, data) == Result(plain, data) && Meaning(folded, data) == Meaning(plain, data)
    decreases t
  {
    hide SameExpr, Found, SomeValue;
    var plain := NodeOf(t, consts, true).value;
    FilterHasField(plain);
    if IsConst(t) {
      ConstHasNoField(t, consts);
    } else if t.And? || t.Or? {
      FoldedFilterKeepsResult(t.a, consts, data);
      FoldedFilterKeepsResult(t.b, consts, data);
    } else if t.Not? {
      FoldedFilterKeepsResult(t.a, consts, data);
    } else if t.Root? && !Multiple(t.a) {
      FoldedFilterKeepsResult(t.a, consts, data);
    } else {
      var e := if t.Root? then t.a else t;
      var d := NodeOf(e, consts, true).value;
      FoldedExpr(e, consts);
      var c := Generate(e, consts, false, false).value;
      SameFields(c, d);
      SameFound(c, d, data(FieldOf(d)));
    }
  }

  lemma SameFields(c: Tree, d: Tree)
    requires IsCmp(d) && SameExpr(c, d)
    ensures IsCmp(c) && FieldOf(c) == FieldOf(d)
  {
  }
}
