/** What a filter says, read off its typed syntax tree; the tree that is generated from it evaluates to that. */
module FilterMeaning {
  import opened Bytes
  import opened Evaluator
  import opened Folding

  /** The value of a typed syntax tree, with one value for each field. What cannot be constructed has no truth. */
  function Says(t: Ast, consts: nat -> Value, env: nat -> Answer): Value
    decreases t
  {
    match t
    case Lit(v) => v
    case Name(isConst, id) => if isConst then consts(id) else env(id).v
    case Exists(id) => Bool(env(id).found)
    case List(items) =>
      Value(false, 0, seq(|items|, k requires 0 <= k < |items| => Says(items[k], consts, env)))
    case Construct(mk, a) =>
      var made := mk(Says(a, consts, env));
      if made.Some? then made.value else Bool(false)
    case Fun1(_, f, a) => f(Says(a, consts, env))
    case Fun2(g, a, b) => g(Says(a, consts, env), Says(b, consts, env))
    case And(a, b) => Bool(Says(a, consts, env).b && Says(b, consts, env).b)
    case Or(a, b) => Bool(Says(a, consts, env).b || Says(b, consts, env).b)
    case Not(a) => Bool(!Says(a, consts, env).b)
    case Root(a) => if Multiple(a) then Bool(Says(a, consts, env).b) else Says(a, consts, env)
  }

  /** Every constructor below `t` makes a value of its constant. */
  predicate Constructible(t: Ast, consts: nat -> Value)
    decreases t
  {
    match t
    case Lit(_) => true
    case Name(_, _) => true
    case Exists(_) => true
    case List(items) => forall k :: 0 <= k < |items| ==> Constructible(items[k], consts)
    case Construct(mk, a) => Constructible(a, consts) && mk(Says(a, consts, NO_RECORD)).Some?
    case Fun2(_, a, b) => Constructible(a, consts) && Constructible(b, consts)
    case And(a, b) => Constructible(a, consts) && Constructible(b, consts)
    case Or(a, b) => Constructible(a, consts) && Constructible(b, consts)
    case _ => Constructible(t.a, consts)
  }

  // ----- generation with one value for each field -----

  /** Every typed tree can be generated if and only if its constructors succeed, and evaluates to what it says. */
  lemma {:induction false} GeneratedSays(t: Ast, consts: nat -> Value, env: nat -> Answer)
    requires Typed(t)
    ensures NodeOf(t, consts, true).Some? <==> Constructible(t, consts)
    ensures Constructible(t, consts) ==> Run(NodeOf(t, consts, true).value, env) == Says(t, consts, env)
    decreases t, 2
  {
    match t
    case List(items) => ListSays(items, consts, env);
    case Construct(_, a) =>
      GeneratedSays(a, consts, env);
      LiteralSays(a, consts, env);
      LiteralSays(a, consts, NO_RECORD);
    case Fun1(_, _, a) => GeneratedSays(a, consts, env);
    case Fun2(_, a, b) =>
      GeneratedSays(a, consts, env);
      GeneratedSays(b, consts, env);
    case And(a, b) =>
      GeneratedSays(a, consts, env);
      GeneratedSays(b, consts, env);
    case Or(a, b) =>
      GeneratedSays(a, consts, env);
      GeneratedSays(b, consts, env);
    case Not(a) => GeneratedSays(a, consts, env);
    case Root(a) => GeneratedSays(a, consts, env);
    case _ =>
  }

  lemma {:induction false} LiteralSays(t: Ast, consts: nat -> Value, env: nat -> Answer)
    requires Typed(t) && IsConst(t)
    ensures Literal(t, consts).Some? <==> Constructible(t, consts)
    ensures Constructible(t, consts) ==> Literal(t, consts).value == Says(t, consts, env)
    decreases t, 3
  {
    hide Says, Constructible, Typed, Run;
    GeneratedSays(t, consts, env);
    GeneratedSays(t, consts, NO_RECORD);
    assert Generate(t, consts, true, false) == NodeOf(t, consts, true);
    if Constructible(t, consts) { ConstRuns(t, consts, env); }
  }

  lemma {:induction false} ListSays(items: seq<Ast>, consts: nat -> Value, env: nat -> Answer)
    requires forall k :: 0 <= k < |items| ==> Typed(items[k]) && IsConst(items[k])
    ensures Literals(items, consts).Some? <==> forall k :: 0 <= k < |items| ==> Constructible(items[k], consts)
    ensures Literals(items, consts).Some? ==>
      Literals(items, consts).value == seq(|items|, k requires 0 <= k < |items| => Says(items[k], consts, env))
    decreases items
  {
    if items != [] {
      hide Says, Constructible, Typed, NodeOf, Literal, IsConst;
      LiteralSays(items[0], consts, env);
      ListSays(items[1..], consts, env);
      assert forall k :: 0 < k < |items| ==> items[k] == items[1..][k - 1];
    }
  }

  /** So does the tree with folding. */
  lemma FoldedSays(t: Ast, consts: nat -> Value, env: nat -> Answer)
    requires Typed(t)
    ensures Generate(t, consts, false, false).Some? <==> Constructible(t, consts)
    ensures Constructible(t, consts) ==> Run(Generate(t, consts, false, false).value, env) == Says(t, consts, env)
  {
    hide Says, Constructible, Run;
    GeneratedSays(t, consts, env);
    FoldingKeepsMeaning(t, consts, env);
    assert Generate(t, consts, true, false) == NodeOf(t, consts, true);
  }

  // ----- filters, with any number of values for a field -----

  /** Calls of functions over constants and fields. */
  predicate Expression(t: Ast)
  {
    match t
    case Fun1(_, _, a) => Expression(a)
    case Fun2(_, a, b) => Expression(a) && Expression(b)
    case _ => t.Lit? || t.Name? || t.List? || t.Construct?
  }

  /** The fields that an expression reads, from left to right. */
  function FieldsRead(t: Ast): seq<nat>
  {
    match t
    case Name(false, id) => [id]
    case Fun1(_, _, a) => FieldsRead(a)
    case Fun2(_, a, b) => FieldsRead(a) + FieldsRead(b)
    case _ => []
  }

  predicate Comparison(t: Ast)
  {
    Expression(t) && |FieldsRead(t)| == 1
  }

  predicate Combination(t: Ast)
  {
    match t
    case And(a, b) => Combination(a) && Combination(b)
    case Or(a, b) => Combination(a) && Combination(b)
    case _ => Comparison(t)
  }

  /** Comparisons of one field each under `and` and `or`, with at most one `not`, at the top. */
  predicate WholeFilter(t: Ast)
  {
    t.Root? && (Combination(t.a) || (t.a.Not? && Combination(t.a.a)))
  }

  /** The boolean combination of comparisons that hold or not. */
  predicate Combined(t: Ast, holds: Ast -> bool)
  {
    match t
    case Root(a) => Combined(a, holds)
    case And(a, b) => Combined(a, holds) && Combined(b, holds)
    case Or(a, b) => Combined(a, holds) || Combined(b, holds)
    case Not(a) => !Combined(a, holds)
    case _ => holds(t)
  }

  /** What a comparison says of one value of its field. */
  predicate SaysOf(t: Ast, consts: nat -> Value, v: Value)
  {
    Says(t, consts, _ => Answer(true, v)).b
  }

  function DataOf(t: Ast, record: nat -> FieldData): FieldData
  {
    if FieldsRead(t) == [] then FieldData([], false, Bool(false)) else record(FieldsRead(t)[0])
  }

  /** A comparison is satisfied by one of the values of its field, or by the default value when there is none. */
  predicate Satisfied(t: Ast, consts: nat -> Value, record: nat -> FieldData)
  {
    var d := DataOf(t, record);
    if d.values == [] then SaysOf(t, consts, d.dflt)
    else exists k :: 0 <= k < |d.values| && SaysOf(t, consts, d.values[k])
  }

  /** A field that stands for itself is left with a default value that is true. */
  predicate DefaultLeft(t: Ast, record: nat -> FieldData)
  {
    t.Name? && var d := DataOf(t, record); d.values != [] && !d.lastIsOk && d.dflt.b
  }

  /** The meaning of a filter. */
  predicate Means(t: Ast, consts: nat -> Value, record: nat -> FieldData)
  {
    Combined(t, c => Satisfied(c, consts, record))
  }

  /** The answer of the evaluator, to which a default value that is left behind contributes. */
  predicate Answers(t: Ast, consts: nat -> Value, record: nat -> FieldData)
  {
    Combined(t, c => Satisfied(c, consts, record) || DefaultLeft(c, record))
  }

  /** No default value that is true is left behind anywhere. */
  predicate NothingLeft(t: Ast, record: nat -> FieldData)
  {
    match t
    case Root(a) => NothingLeft(a, record)
    case And(a, b) => NothingLeft(a, record) && NothingLeft(b, record)
    case Or(a, b) => NothingLeft(a, record) && NothingLeft(b, record)
    case Not(a) => NothingLeft(a, record)
    case _ => !DefaultLeft(t, record)
  }

  lemma {:induction false} AnswersMean(t: Ast, consts: nat -> Value, record: nat -> FieldData)
    requires NothingLeft(t, record)
    ensures Answers(t, consts, record) == Means(t, consts, record)
  {
    hide Satisfied, DefaultLeft;
    match t
    case Root(a) => AnswersMean(a, consts, record);
    case And(a, b) =>
      AnswersMean(a, consts, record);
      AnswersMean(b, consts, record);
    case Or(a, b) =>
      AnswersMean(a, consts, record);
      AnswersMean(b, consts, record);
    case Not(a) => AnswersMean(a, consts, record);
    case _ =>
  }

  // ----- generation of such filters -----

  /** Evaluation of an expression for one value of its field is evaluation with that value everywhere. */
  lemma {:induction false} EvalIsRun(c: Tree, v: Value)
    requires IsExpr(c)
    ensures Eval(c, v) == Run(c, _ => Answer(true, v))
  {
    match c
    case Call1(_, _, a) => EvalIsRun(a, v);
    case Call2(_, a, b) =>
      EvalIsRun(a, v);
      EvalIsRun(b, v);
    case _ =>
  }

  /** The node of an expression reads the same fields. */
  lemma {:induction false} ExpressionNode(t: Ast, consts: nat -> Value)
    requires Typed(t) && Expression(t) && |FieldsRead(t)| <= 1 && NodeOf(t, consts, true).Some?
    ensures
      var c := NodeOf(t, consts, true).value;
      && IsExpr(c) && Fields(c) == |FieldsRead(t)| && (c.Field? ==> t.Name?) && (t.Name? && !t.isConst ==> c.Field?)
      && (Fields(c) == 1 ==> FieldOf(c) == FieldsRead(t)[0] && Multiple(t))
  {
    match t
    case Fun1(_, _, a) => ExpressionNode(a, consts);
    case Fun2(_, a, b) =>
      ExpressionNode(a, consts);
      ExpressionNode(b, consts);
    case _ =>
  }

  /** The node of a comparison finds what the evaluator is to find. */
  lemma ComparisonNode(t: Ast, consts: nat -> Value, record: nat -> FieldData)
    requires Typed(t) && Comparison(t) && Constructible(t, consts)
    ensures NodeOf(t, consts, true).Some?
    ensures
      var c := NodeOf(t, consts, true).value;
      && IsCmp(c) && Multiple(t)
      && Found(c, record(FieldOf(c))) == (Satisfied(t, consts, record) || DefaultLeft(t, record))
  {
    hide NodeOf, Says, Constructible, Run, Eval, Typed;
    GeneratedSays(t, consts, NO_RECORD);
    ExpressionNode(t, consts);
    var c := NodeOf(t, consts, true).value;
    forall v ensures Eval(c, v).b == SaysOf(t, consts, v) {
      EvalIsRun(c, v);
      GeneratedSays(t, consts, _ => Answer(true, v));
    }
  }

  lemma {:induction false} CombinationNode(t: Ast, consts: nat -> Value, record: nat -> FieldData)
    requires Typed(t) && Combination(t) && Constructible(t, consts)
    ensures NodeOf(t, consts, true).Some?
    ensures
      var c := NodeOf(t, consts, true).value;
      IsFormula(c) && Result(c, record) == Answers(t, consts, record)
    decreases t
  {
    if t.And? || t.Or? {
      CombinationNode(t.a, consts, record);
      CombinationNode(t.b, consts, record);
    } else {
      ComparisonNode(t, consts, record);
    }
  }

  /** The tree generated from a filter is of the class that the evaluator handles and has the result of the filter. */
  lemma FilterNode(t: Ast, consts: nat -> Value, record: nat -> FieldData)
    requires Typed(t) && WholeFilter(t) && Constructible(t, consts)
    ensures NodeOf(t, consts, true).Some?
    ensures
      var c := NodeOf(t, consts, true).value;
      IsRoot(c) && Result(c, record) == Answers(t, consts, record)
  {
    hide Satisfied, DefaultLeft, Found, FieldOf, Says;
    assert Answers(t, consts, record) == Answers(t.a, consts, record);
    if t.a.Not? {
      CombinationNode(t.a.a, consts, record);
      assert NodeOf(t.a, consts, true) == Some(NotT(NodeOf(t.a.a, consts, true).value));
      assert NodeOf(t, consts, true) == NodeOf(t.a, consts, true);
    } else if t.a.And? || t.a.Or? {
      CombinationNode(t.a, consts, record);
      assert NodeOf(t, consts, true) == NodeOf(t.a, consts, true);
    } else {
      ComparisonNode(t.a, consts, record);
      assert NodeOf(t, consts, true) == Some(AnyT(NodeOf(t.a, consts, true).value));
    }
  }
}
