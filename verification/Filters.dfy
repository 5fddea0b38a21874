/** A filter from its typed syntax tree to its results: generated with folding, laid out in memory, evaluated. */
module Filters {
  import opened Bytes
  import opened Evaluator
  import opened EvalTree
  import opened Folding
  import opened FilterMeaning

  class Filter {
    const runtime: Runtime
    const root: nat
    /** The tree in memory. */
    ghost const tree: Tree

    ghost predicate Valid()
      reads runtime.vals
    {
      && runtime.Ready() && IsRoot(tree) && Rep(runtime.nodes, 0, root, tree)
      && ConstsOk(runtime.nodes, runtime.vals[..], 0, root, tree)
    }

    /** The nodes of a generated tree, with the values that constants start with. */
    constructor (tree: Tree)
      requires IsRoot(tree)
      ensures Valid() && this.tree == tree && fresh(runtime) && fresh(runtime.vals)
    {
      hide Generated, Initial, Rep, ConstsOk, IsRoot;
      var nodes, initial := Generated(tree, 0, 0), Initial(tree);
      this.tree, root := tree, Size(tree) - 1;
      runtime := new Runtime(nodes, initial);
      new;
      WholePlaced(nodes);
      WholePlaced(initial);
      GeneratedRep(nodes, 0, tree, 0);
      InitialConsts(nodes, initial, 0, tree);
    }

    /** `fds_filter_eval` */
    method Eval(record: nat -> FieldData) returns (b: bool)
      requires Valid()
      modifies runtime, runtime.vals
      ensures Valid() && b == Result(tree, record)
    {
      hide Rep, ConstsOk, IsRoot, Result, Meaning, FalseDefaults;
      b := runtime.Evaluate(root, record, tree);
    }
  }

  lemma WholePlaced<T>(all: seq<T>)
    ensures Placed(all, 0, all)
  {
  }

  /** `fds_filter_create` behind the semantic analysis: there is a filter unless a constructor fails on its constant,
      and the tree that it is made of answers for every record what the filter as it is written answers. */
  method Create(t: Ast, consts: nat -> Value) returns (f: Filter?)
    requires Typed(t) && WholeFilter(t)
    ensures f == null <==> !Constructible(t, consts)
    ensures
      f != null ==> fresh(f) && fresh(f.runtime) && fresh(f.runtime.vals) && f.Valid() && Stands(f.tree, t, consts)
  {
    hide IsRoot, Result, Meaning, FalseDefaults, Typed, WholeFilter, Constructible, Answers, NodeOf, Generate, Run;
    FoldedSays(t, consts, NO_RECORD);
    var folded := Generate(t, consts, false, false);
    if folded.None? { return null; }
    forall record: nat -> FieldData
      ensures IsRoot(folded.value) && Result(folded.value, record) == Answers(t, consts, record)
    {
      FoldedAnswers(t, consts, record);
    }
    FoldedAnswers(t, consts, _ => FieldData([], false, Bool(false)));
    f := new Filter(folded.value);
  }

  lemma FoldedAnswers(t: Ast, consts: nat -> Value, record: nat -> FieldData)
    requires Typed(t) && WholeFilter(t) && Constructible(t, consts)
    ensures Generate(t, consts, false, false).Some?
    ensures
      var folded := Generate(t, consts, false, false).value;
      IsRoot(folded) && Result(folded, record) == Answers(t, consts, record)
  {
    hide IsRoot, Result, Meaning, Typed, WholeFilter, Constructible, Answers, NodeOf, Generate;
    FilterNode(t, consts, record);
    FoldedFilterKeepsResult(t, consts, record);
  }

  /** The tree answers what the filter as it is written answers. */
  ghost predicate Stands(tree: Tree, t: Ast, consts: nat -> Value)
  {
    IsRoot(tree) && forall record: nat -> FieldData :: Result(tree, record) == Answers(t, consts, record)
  }

  /** One record after the other through one filter: each gets the answer of the filter as it is written, and that is
      its meaning where no true default value is left behind; what earlier records left in memory does not matter. */
  method FilterAll(t: Ast, consts: nat -> Value, records: seq<nat -> FieldData>) returns (bs: seq<bool>)
    requires Typed(t) && WholeFilter(t) && Constructible(t, consts)
    ensures |bs| == |records|
    ensures forall k :: 0 <= k < |bs| ==>
      && bs[k] == Answers(t, consts, records[k])
      && (NothingLeft(t, records[k]) ==> bs[k] == Means(t, consts, records[k]))
  {
    hide IsRoot, Result, Answers, NothingLeft, Means, Typed, WholeFilter, Constructible, Filter.Valid;
    var f := Create(t, consts);
    bs := [];
    var i := 0;
    while i < |records|
      invariant 0 <= i == |bs| <= |records| && f.Valid() && fresh(f.runtime) && fresh(f.runtime.vals)
      invariant forall k :: 0 <= k < i ==>
        && bs[k] == Answers(t, consts, records[k])
        && (NothingLeft(t, records[k]) ==> bs[k] == Means(t, consts, records[k]))
    {
      var b := f.Eval(records[i]);
      if NothingLeft(t, records[i]) { AnswersMean(t, consts, records[i]); }
      bs := bs + [b];
      i := i + 1;
    }
  }
}
