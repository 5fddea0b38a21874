/** The filter evaluator: re-evaluation of only the path above a field with several values. */
module Evaluator {
  import opened Bytes

  /** `fds_filter_value_u`: the truth value of a result, and whatever else the union may hold. */
  datatype Value = Value(b: bool, other: int, items: seq<Value> := [])

  datatype Opcode = None_ | Data | Unary | Binary | Cast | Exists | Any | And | Or | Not

  /** `eval_node_s` without its value. Nodes are numbered; a tree takes up the numbers `lo` to its root, with
      the left subtree first and the root last. */
  datatype Node = Node(op: Opcode, id: nat, fn1: Value -> Value, fn2: (Value, Value) -> Value,
                       parent: nat, left: nat, right: nat)

  // ----- the trees and what they mean -----

  datatype Tree =
    | Const(v: Value)
    | Field(id: nat)
    | ExistsT(id: nat)
    | Call1(cast: bool, f: Value -> Value, a: Tree)
    | Call2(g: (Value, Value) -> Value, a: Tree, b: Tree)
    | AnyT(a: Tree)
    | AndT(a: Tree, b: Tree)
    | OrT(a: Tree, b: Tree)
    | NotT(a: Tree)

  /** What the data callback delivers for a field: its values in order, whether the last one is announced as
      the last, and the default value of a field that is not there. */
  datatype FieldData = FieldData(values: seq<Value>, lastIsOk: bool, dflt: Value)

  function Fields(t: Tree): nat
  {
    match t
    case Const(_) => 0
    case Field(_) => 1
    case ExistsT(_) => 0
    case Call1(_, _, a) => Fields(a)
    case Call2(_, a, b) => Fields(a) + Fields(b)
    case AnyT(a) => Fields(a)
    case AndT(a, b) => Fields(a) + Fields(b)
    case OrT(a, b) => Fields(a) + Fields(b)
    case NotT(a) => Fields(a)
  }

  /** Function calls over constants and at most one field. */
  predicate IsExpr(t: Tree)
  {
    Fields(t) <= 1 &&
    match t
    case Const(_) => true
    case Field(_) => true
    case Call1(_, _, a) => IsExpr(a)
    case Call2(_, a, b) => IsExpr(a) && IsExpr(b)
    case _ => false
  }

  /** A comparison reads exactly one field. */
  predicate IsCmp(t: Tree)
  {
    IsExpr(t) && Fields(t) == 1
  }

  /** Combinations of comparisons by `and` and `or`. */
  predicate IsFormula(t: Tree)
  {
    match t
    case AndT(a, b) => IsFormula(a) && IsFormula(b)
    case OrT(a, b) => IsFormula(a) && IsFormula(b)
    case _ => IsCmp(t)
  }

  /** Whole filters: a single comparison gets an `any` node, and there may be one `not` at the top. */
  predicate IsRoot(t: Tree)
  {
    match t
    case AnyT(a) => IsCmp(a)
    case NotT(a) => IsFormula(a)
    case AndT(_, _) => IsFormula(t)
    case OrT(_, _) => IsFormula(t)
    case _ => false
  }

  /** The value of an expression whose field has the value `v`. */
  function Eval(t: Tree, v: Value): Value
    requires IsExpr(t)
  {
    match t
    case Const(c) => c
    case Field(_) => v
    case Call1(_, f, a) => f(Eval(a, v))
    case Call2(g, a, b) => g(Eval(a, v), Eval(b, v))
  }

  function FieldOf(t: Tree): nat
    requires IsCmp(t)
  {
    match t
    case Field(id) => id
    case Call1(_, _, a) => FieldOf(a)
    case Call2(_, a, b) => if Fields(a) == 1 then FieldOf(a) else FieldOf(b)
  }

  /** A comparison holds when one of the delivered values satisfies it, or the default value when there is none. */
  predicate SomeValue(t: Tree, d: FieldData)
    requires IsCmp(t)
  {
    if d.values == [] then Eval(t, d.dflt).b else exists k :: 0 <= k < |d.values| && Eval(t, d.values[k]).b
  }

  /** The meaning of a filter: the boolean combination of its comparisons. */
  predicate Meaning(t: Tree, data: nat -> FieldData)
    requires IsFormula(t) || IsRoot(t)
  {
    match t
    case AndT(a, b) => Meaning(a, data) && Meaning(b, data)
    case OrT(a, b) => Meaning(a, data) || Meaning(b, data)
    case NotT(a) => !Meaning(a, data)
    case AnyT(a) => SomeValue(a, data(FieldOf(a)))
    case _ => SomeValue(t, data(FieldOf(t)))
  }

  /** A field that stands for itself is overwritten with the default value when its values run out. */
  predicate DefaultCounts(t: Tree, d: FieldData)
  {
    t.Field? && d.values != [] && !d.lastIsOk && d.dflt.b
  }

  /** What the evaluator finds for a comparison. */
  predicate Found(t: Tree, d: FieldData)
    requires IsCmp(t)
  {
    SomeValue(t, d) || DefaultCounts(t, d)
  }

  predicate Result(t: Tree, data: nat -> FieldData)
    requires IsFormula(t) || IsRoot(t)
  {
    match t
    case AndT(a, b) => Result(a, data) && Result(b, data)
    case OrT(a, b) => Result(a, data) || Result(b, data)
    case NotT(a) => !Result(a, data)
    case AnyT(a) => Found(a, data(FieldOf(a)))
    case _ => Found(t, data(FieldOf(t)))
  }

  lemma ValueDecides(t: Tree, d: FieldData, pos: nat)
    requires IsCmp(t) && 1 <= pos <= |d.values| && forall k :: 0 <= k < pos - 1 ==> !Eval(t, d.values[k]).b
    ensures Eval(t, d.values[pos - 1]).b ==> Found(t, d)
    ensures pos == |d.values| && !Eval(t, d.values[pos - 1]).b ==> !SomeValue(t, d)
  {
  }

  /** For one comparison the result is the documented one, whatever values the record delivers, if and only if the
      comparison is not a bare field whose search ends without a success and leaves a true default behind. */
  lemma FoundIsDocumented(t: Tree, ok: bool, dflt: Value)
    requires IsCmp(t)
    ensures
      (forall vs :: Found(t, FieldData(vs, ok, dflt)) == SomeValue(t, FieldData(vs, ok, dflt)))
      <==> !(t.Field? && !ok && dflt.b)
  {
    if t.Field? && !ok && dflt.b {
      var d := FieldData([Value(false, 0)], ok, dflt);
      assert Found(t, d) && !SomeValue(t, d);
    }
  }

  /** The documented result is missed: the only value is false, but the default that is left behind is true. */
  lemma DefaultSlipsIn()
    ensures
      var data: nat -> FieldData := _ => FieldData([Value(false, 0)], false, Value(true, 0));
      Result(AnyT(Field(1)), data) && !Meaning(AnyT(Field(1)), data)
  {
  }

  /** No field is used as a truth value by itself with a default that is true. */
  predicate FalseDefaults(t: Tree, data: nat -> FieldData)
  {
    match t
    case Field(id) => !DefaultCounts(t, data(id))
    case AndT(a, b) => FalseDefaults(a, data) && FalseDefaults(b, data)
    case OrT(a, b) => FalseDefaults(a, data) && FalseDefaults(b, data)
    case NotT(a) => FalseDefaults(a, data)
    case AnyT(a) => FalseDefaults(a, data)
    case _ => true
  }

  lemma {:induction false} ResultIsMeaning(t: Tree, data: nat -> FieldData)
    requires (IsFormula(t) || IsRoot(t)) && FalseDefaults(t, data)
    ensures Result(t, data) == Meaning(t, data)
  {
    match t
    case AndT(a, b) =>
      ResultIsMeaning(a, data);
      ResultIsMeaning(b, data);
    case OrT(a, b) =>
      ResultIsMeaning(a, data);
      ResultIsMeaning(b, data);
    case NotT(a) => ResultIsMeaning(a, data);
    case _ =>
  }

  // ----- trees in memory -----

  predicate Leaf(t: Tree) { t.Const? || t.Field? || t.ExistsT? }
  predicate OneChild(t: Tree) { t.Call1? || t.AnyT? || t.NotT? }

  ghost predicate OpOk(n: Node, t: Tree)
  {
    match t
    case Const(_) => n.op == None_
    case Field(id) => n.op == Data && n.id == id
    case ExistsT(id) => n.op == Exists && n.id == id
    case Call1(cast, f, _) => n.op == (if cast then Cast else Unary) && n.fn1 == f
    case Call2(g, _, _) => n.op == Binary && n.fn2 == g
    case AnyT(_) => n.op == Any
    case AndT(_, _) => n.op == And
    case OrT(_, _) => n.op == Or
    case NotT(_) => n.op == Not
  }

  /** The nodes `lo` to `i` are the tree `t` with its parent links; `i` is its root. */
  ghost predicate Rep(nodes: seq<Node>, lo: nat, i: nat, t: Tree)
    decreases t
  {
    && lo <= i < |nodes| && OpOk(nodes[i], t)
    && var n := nodes[i];
    if Leaf(t) then lo == i
    else if OneChild(t) then lo <= n.left == i - 1 && Rep(nodes, lo, n.left, t.a) && nodes[n.left].parent == i
    else
      && lo <= n.left < n.right == i - 1
      && Rep(nodes, lo, n.left, t.a) && nodes[n.left].parent == i
      && Rep(nodes, n.left + 1, n.right, t.b) && nodes[n.right].parent == i
  }

  /** The constants of a tree hold their values. */
  ghost predicate ConstsOk(nodes: seq<Node>, vals: seq<Value>, lo: nat, i: nat, t: Tree)
    requires Rep(nodes, lo, i, t) && |vals| == |nodes|
    decreases t
  {
    if t.Const? then vals[i] == t.v
    else if Leaf(t) then true
    else if OneChild(t) then ConstsOk(nodes, vals, lo, nodes[i].left, t.a)
    else ConstsOk(nodes, vals, lo, nodes[i].left, t.a) && ConstsOk(nodes, vals, nodes[i].left + 1, nodes[i].right, t.b)
  }

  /** Every node of an expression has the value that a full evaluation with the field value `v` gives it. */
  ghost predicate Fresh(nodes: seq<Node>, vals: seq<Value>, lo: nat, i: nat, t: Tree, v: Value)
    requires Rep(nodes, lo, i, t) && |vals| == |nodes| && IsExpr(t)
    decreases t
  {
    && vals[i] == Eval(t, v)
    && if Leaf(t) then true
       else if OneChild(t) then Fresh(nodes, vals, lo, nodes[i].left, t.a, v)
       else
         && Fresh(nodes, vals, lo, nodes[i].left, t.a, v)
         && Fresh(nodes, vals, nodes[i].left + 1, nodes[i].right, t.b, v)
  }

  /** Below and at the node `cur`, which lies on the path from the field to the root, every node is as a full
      evaluation leaves it; the nodes above it are still to be computed. */
  ghost predicate FreshUpTo(nodes: seq<Node>, vals: seq<Value>, lo: nat, i: nat, t: Tree, v: Value, cur: nat)
    requires Rep(nodes, lo, i, t) && |vals| == |nodes| && IsExpr(t)
    decreases t
  {
    if cur == i then Fresh(nodes, vals, lo, i, t, v) && Fields(t) == 1
    else if Leaf(t) then false
    else if OneChild(t) then FreshUpTo(nodes, vals, lo, nodes[i].left, t.a, v, cur)
    else if cur <= nodes[i].left then
      FreshUpTo(nodes, vals, lo, nodes[i].left, t.a, v, cur) &&
        Fresh(nodes, vals, nodes[i].left + 1, nodes[i].right, t.b, v)
    else
      FreshUpTo(nodes, vals, nodes[i].left + 1, nodes[i].right, t.b, v, cur) &&
        Fresh(nodes, vals, lo, nodes[i].left, t.a, v)
  }

  /** The node of the field that an expression reads. */
  ghost function FieldNode(nodes: seq<Node>, lo: nat, i: nat, t: Tree): (k: nat)
    requires Rep(nodes, lo, i, t) && IsCmp(t)
    ensures lo <= k <= i && nodes[k].op == Data && nodes[k].id == FieldOf(t) && (k == i <==> t.Field?)
    decreases t
  {
    if Leaf(t) then i
    else if OneChild(t) then FieldNode(nodes, lo, nodes[i].left, t.a)
    else if Fields(t.a) == 1 then FieldNode(nodes, lo, nodes[i].left, t.a)
    else FieldNode(nodes, nodes[i].left + 1, nodes[i].right, t.b)
  }

  // ----- how the state of a tree depends on the values in memory -----

  lemma {:induction false} FreshFrame(nodes: seq<Node>, vals: seq<Value>, vals': seq<Value>, lo: nat, i: nat, t: Tree,
        v: Value)
    requires Rep(nodes, lo, i, t) && |vals| == |vals'| == |nodes| && IsExpr(t) && Fresh(nodes, vals, lo, i, t, v)
    requires forall k :: lo <= k <= i ==> vals'[k] == vals[k]
    ensures Fresh(nodes, vals', lo, i, t, v)
    decreases t
  {
    if OneChild(t) {
      FreshFrame(nodes, vals, vals', lo, nodes[i].left, t.a, v);
    } else if !Leaf(t) {
      FreshFrame(nodes, vals, vals', lo, nodes[i].left, t.a, v);
      FreshFrame(nodes, vals, vals', nodes[i].left + 1, nodes[i].right, t.b, v);
    }
  }

  lemma {:induction false} ConstsFrame(nodes: seq<Node>, vals: seq<Value>, vals': seq<Value>, lo: nat, i: nat, t: Tree)
    requires Rep(nodes, lo, i, t) && |vals| == |vals'| == |nodes| && ConstsOk(nodes, vals, lo, i, t)
    requires forall k :: lo <= k <= i && nodes[k].op == None_ ==> vals'[k] == vals[k]
    ensures ConstsOk(nodes, vals', lo, i, t)
    decreases t
  {
    if OneChild(t) {
      ConstsFrame(nodes, vals, vals', lo, nodes[i].left, t.a);
    } else if !Leaf(t) {
      ConstsFrame(nodes, vals, vals', lo, nodes[i].left, t.a);
      ConstsFrame(nodes, vals, vals', nodes[i].left + 1, nodes[i].right, t.b);
    }
  }

  /** An expression without a field has the same value whatever the field value is. */
  lemma {:induction false} NoField(nodes: seq<Node>, vals: seq<Value>, lo: nat, i: nat, t: Tree, v: Value, v': Value)
    requires Rep(nodes, lo, i, t) && |vals| == |nodes| && IsExpr(t) && Fields(t) == 0 && Fresh(nodes, vals, lo, i, t, v)
    ensures Fresh(nodes, vals, lo, i, t, v')
    decreases t
  {
    if OneChild(t) {
      NoField(nodes, vals, lo, nodes[i].left, t.a, v, v');
    } else if !Leaf(t) {
      NoField(nodes, vals, lo, nodes[i].left, t.a, v, v');
      NoField(nodes, vals, nodes[i].left + 1, nodes[i].right, t.b, v, v');
    }
  }

  /** A new value at the field node, nothing else changed. */
  lemma {:induction false} StartsAtField(nodes: seq<Node>, vals: seq<Value>, vals': seq<Value>, lo: nat, i: nat,
        t: Tree, v: Value, v': Value)
    requires Rep(nodes, lo, i, t) && |vals| == |vals'| == |nodes| && IsCmp(t) && Fresh(nodes, vals, lo, i, t, v)
    requires vals'[FieldNode(nodes, lo, i, t)] == v'
    requires forall k :: lo <= k <= i && k != FieldNode(nodes, lo, i, t) ==> vals'[k] == vals[k]
    ensures FreshUpTo(nodes, vals', lo, i, t, v', FieldNode(nodes, lo, i, t))
    decreases t
  {
    if Leaf(t) {
    } else if OneChild(t) {
      StartsAtField(nodes, vals, vals', lo, nodes[i].left, t.a, v, v');
    } else if Fields(t.a) == 1 {
      StartsAtField(nodes, vals, vals', lo, nodes[i].left, t.a, v, v');
      FreshFrame(nodes, vals, vals', nodes[i].left + 1, nodes[i].right, t.b, v);
      NoField(nodes, vals', nodes[i].left + 1, nodes[i].right, t.b, v, v');
    } else {
      StartsAtField(nodes, vals, vals', nodes[i].left + 1, nodes[i].right, t.b, v, v');
      FreshFrame(nodes, vals, vals', lo, nodes[i].left, t.a, v);
      NoField(nodes, vals', lo, nodes[i].left, t.a, v, v');
    }
  }

  /** The value that a function node gets from its children. */
  function Recomputed(nodes: seq<Node>, vals: seq<Value>, i: nat): Value
    requires i < |nodes| == |vals| && nodes[i].left < |nodes| && (nodes[i].op == Binary ==> nodes[i].right < |nodes|)
  {
    if nodes[i].op == Binary then nodes[i].fn2(vals[nodes[i].left], vals[nodes[i].right])
    else nodes[i].fn1(vals[nodes[i].left])
  }

  predicate IsFunction(n: Node) { n.op == Unary || n.op == Cast || n.op == Binary }

  lemma OneUpTop(nodes: seq<Node>, vals: seq<Value>, vals': seq<Value>, lo: nat, i: nat, t: Tree, v: Value, cur: nat)
    requires Rep(nodes, lo, i, t) && |vals| == |vals'| == |nodes| && IsExpr(t) && !Leaf(t) && lo <= cur < i
    requires FreshUpTo(nodes, vals, lo, i, t, v, cur) && vals' == vals[i := Recomputed(nodes, vals, i)]
    requires cur == nodes[i].left || (!OneChild(t) && cur == nodes[i].right)
    ensures FreshUpTo(nodes, vals', lo, i, t, v, i)
  {
    FreshFrame(nodes, vals, vals', lo, nodes[i].left, t.a, v);
    if !OneChild(t) { FreshFrame(nodes, vals, vals', nodes[i].left + 1, nodes[i].right, t.b, v); }
  }

  /** Recomputing the parent of `cur` moves the boundary up by one node. */
  lemma {:induction false} OneUp(nodes: seq<Node>, vals: seq<Value>, vals': seq<Value>, lo: nat, i: nat, t: Tree,
        v: Value, cur: nat)
    requires Rep(nodes, lo, i, t) && |vals| == |vals'| == |nodes| && IsExpr(t)
    requires FreshUpTo(nodes, vals, lo, i, t, v, cur) && lo <= cur < i
    requires
      var p := nodes[cur].parent;
      && p < |nodes| && nodes[p].left < |nodes| && (nodes[p].op == Binary ==> nodes[p].right < |nodes|)
      && vals' == vals[p := Recomputed(nodes, vals, p)]
    ensures FreshUpTo(nodes, vals', lo, i, t, v, nodes[cur].parent)
    decreases t
  {
    hide Eval;
    var l, r := nodes[i].left, nodes[i].right;
    Climbs(nodes, vals, lo, i, t, v, cur);
    if cur == l || (!OneChild(t) && cur == r) {
      OneUpTop(nodes, vals, vals', lo, i, t, v, cur);
    } else if OneChild(t) {
      Climbs(nodes, vals, lo, l, t.a, v, cur);
      OneUp(nodes, vals, vals', lo, l, t.a, v, cur);
    } else if cur < l {
      Climbs(nodes, vals, lo, l, t.a, v, cur);
      OneUp(nodes, vals, vals', lo, l, t.a, v, cur);
      FreshFrame(nodes, vals, vals', l + 1, r, t.b, v);
    } else {
      Climbs(nodes, vals, l + 1, r, t.b, v, cur);
      OneUp(nodes, vals, vals', l + 1, r, t.b, v, cur);
      FreshFrame(nodes, vals, vals', lo, l, t.a, v);
    }
  }

  /** The parent of a node on the path is a function node on the path, between it and the root. */
  lemma {:induction false} Climbs(nodes: seq<Node>, vals: seq<Value>, lo: nat, i: nat, t: Tree, v: Value, cur: nat)
    requires Rep(nodes, lo, i, t) && |vals| == |nodes| && IsExpr(t)
    requires FreshUpTo(nodes, vals, lo, i, t, v, cur) && lo <= cur < i
    ensures
      var p := nodes[cur].parent;
      cur < p <= i && IsFunction(nodes[p]) && nodes[p].left < p && (nodes[p].op == Binary ==> nodes[p].right < p)
    decreases t
  {
    var l, r := nodes[i].left, nodes[i].right;
    if OneChild(t) {
      if cur != l { Climbs(nodes, vals, lo, l, t.a, v, cur); }
    } else if cur <= l {
      if cur != l { Climbs(nodes, vals, lo, l, t.a, v, cur); }
    } else if cur != r {
      Climbs(nodes, vals, l + 1, r, t.b, v, cur);
    }
  }

  lemma UnaryFresh(nodes: seq<Node>, s: seq<Value>, s': seq<Value>, lo: nat, i: nat, t: Tree, v: Value)
    requires Rep(nodes, lo, i, t) && |s| == |s'| == |nodes| && IsExpr(t) && t.Call1?
    requires Fresh(nodes, s, lo, nodes[i].left, t.a, v) && s' == s[i := t.f(s[nodes[i].left])]
    ensures Fresh(nodes, s', lo, i, t, v)
    ensures Fields(t) == 1 ==> FieldNode(nodes, lo, i, t) == FieldNode(nodes, lo, nodes[i].left, t.a)
  {
    FreshFrame(nodes, s, s', lo, nodes[i].left, t.a, v);
  }

  /** The operation after both operands. */
  lemma BinaryFresh(nodes: seq<Node>, s: seq<Value>, s': seq<Value>, lo: nat, i: nat, t: Tree, va: Value, vb: Value)
    requires Rep(nodes, lo, i, t) && |s| == |s'| == |nodes| && IsExpr(t) && t.Call2?
    requires Fresh(nodes, s, lo, nodes[i].left, t.a, va)
    requires Fresh(nodes, s, nodes[i].left + 1, nodes[i].right, t.b, vb)
    requires s' == s[i := t.g(s[nodes[i].left], s[nodes[i].right])]
    ensures Fresh(nodes, s', lo, i, t, if Fields(t.a) == 1 then va else vb)
  {
    var v := if Fields(t.a) == 1 then va else vb;
    var l, r := nodes[i].left, nodes[i].right;
    FreshFrame(nodes, s, s', lo, l, t.a, va);
    FreshFrame(nodes, s, s', l + 1, r, t.b, vb);
    if Fields(t.a) == 0 { NoField(nodes, s', lo, l, t.a, va, v); }
    if Fields(t.b) == 0 { NoField(nodes, s', l + 1, r, t.b, vb, v); }
  }

  lemma Operands(t: Tree)
    requires IsExpr(t) && t.Call2?
    ensures IsExpr(t.a) && IsExpr(t.b) && Fields(t) == Fields(t.a) + Fields(t.b) <= 1
    ensures Fields(t) == 1 ==> FieldOf(t) == if Fields(t.a) == 1 then FieldOf(t.a) else FieldOf(t.b)
  {
  }

  lemma OperandNode(nodes: seq<Node>, lo: nat, i: nat, t: Tree)
    requires Rep(nodes, lo, i, t) && IsExpr(t) && t.Call2?
    ensures Fields(t.a) == 1 ==> FieldNode(nodes, lo, i, t) == FieldNode(nodes, lo, nodes[i].left, t.a)
    ensures Fields(t.a) == 0 && Fields(t.b) == 1 ==>
      FieldNode(nodes, lo, i, t) == FieldNode(nodes, nodes[i].left + 1, nodes[i].right, t.b)
  {
  }

  // ----- the runtime -----

  /** `FDS_OK`, `FDS_OK_MORE` and `FDS_ERR_NOTFOUND` */
  datatype Code = LastValue | MoreValues | NotFound

  class Runtime {
    const nodes: seq<Node>
    const vals: array<Value>
    var data: nat -> FieldData
    /** The field whose further values may be asked for. */
    var reevaluate: Option<nat>
    var resetLookup: bool
    /** The iterator of the data callback: the field of the last reset and the number of its values delivered. */
    var curId: nat
    var pos: nat

    predicate Ready()
    {
      vals.Length == |nodes|
    }

    constructor (nodes: seq<Node>, initial: seq<Value>)
      requires |nodes| == |initial|
      ensures this.nodes == nodes && vals[..] == initial && fresh(vals) && Ready()
    {
      this.nodes := nodes;
      var memory := new Value[|initial|](k requires 0 <= k < |initial| => initial[k]);
      vals := memory;
      data, reevaluate, resetLookup, curId, pos := _ => FieldData([], false, Value(false, 0)), None, false, 0, 0;
      new;
      assert vals[..] == initial;
    }

    /** The data callback. It has one iterator only, so that it can go on with the last field alone. */
    method DataCb(reset: bool, id: nat) returns (rc: Code, v: Value)
      requires reset || id == curId
      modifies this`curId, this`pos
      ensures curId == id
      ensures
        var from, d := if reset then 0 else old(pos), data(id);
        if from < |d.values| then
          && v == d.values[from] && pos == from + 1
          && rc == if pos == |d.values| && d.lastIsOk then LastValue else MoreValues
        else v == d.dflt && pos == from && rc == NotFound
    {
      if reset { curId, pos := id, 0; }
      var d := data(id);
      if pos >= |d.values| { return NotFound, d.dflt; }
      v := d.values[pos];
      pos := pos + 1;
      rc := if pos == |d.values| && d.lastIsOk then LastValue else MoreValues;
    }

    /** The state in which the first value of the field of `t`, delivered to the node `k`, leaves the runtime. */
    ghost predicate First(id: nat, k: nat, v: Value)
      reads this
    {
      var d := data(id);
      if d.values == [] then v == d.dflt && reevaluate == None && pos == 0
      else
        && v == d.values[0] && curId == id && pos == 1
        && reevaluate == if |d.values| == 1 && d.lastIsOk then None else Some(k)
    }

    /** `reevaluate_upwards`: the next value of the field, and then only the nodes on the path to `top` are
        computed again. The tree is then as a full evaluation with that value leaves it. */
    method ReevaluateUpwards(bottom: nat, top: nat, ghost lo: nat, ghost t: Tree, ghost v0: Value)
      returns (ghost v: Option<Value>)
      requires Ready() && Rep(nodes, lo, top, t) && IsCmp(t) && bottom == FieldNode(nodes, lo, top, t)
      requires Fresh(nodes, vals[..], lo, top, t, v0) && curId == FieldOf(t) && reevaluate == Some(bottom)
      modifies this`reevaluate, this`curId, this`pos, vals
      ensures curId == old(curId)
      ensures forall k :: 0 <= k < |nodes| && (k < lo || top < k || nodes[k].op == None_) ==> vals[k] == old(vals[k])
      ensures
        var d := data(FieldOf(t));
        if old(pos) < |d.values| then
          && v == Some(d.values[old(pos)]) && pos == old(pos) + 1 && Fresh(nodes, vals[..], lo, top, t, v.value)
          && reevaluate == if pos == |d.values| && d.lastIsOk then None else Some(bottom)
        else
          && v == None && pos == old(pos) && reevaluate == None
          && vals[top] == if bottom == top then d.dflt else old(vals[top])
    {
      ghost var before := vals[..];
      var rc, val := DataCb(false, nodes[bottom].id);
      vals[bottom] := val;
      v := None;
      if rc == NotFound {
        reevaluate := None;
        return;
      }
      if rc == LastValue { reevaluate := None; }
      v := Some(val);
      StartsAtField(nodes, before, vals[..], lo, top, t, v0, val);
      ComputeUpwards(bottom, top, lo, t, val);
    }

    /** The loop over the parents, from the node above `bottom` to `top`. */
    method ComputeUpwards(bottom: nat, top: nat, ghost lo: nat, ghost t: Tree, ghost v: Value)
      requires Ready() && Rep(nodes, lo, top, t) && IsExpr(t) && lo <= bottom <= top < |nodes|
      requires FreshUpTo(nodes, vals[..], lo, top, t, v, bottom)
      modifies vals
      ensures Fresh(nodes, vals[..], lo, top, t, v)
      ensures forall k :: 0 <= k < |nodes| && (k < lo || top < k || nodes[k].op == None_) ==> vals[k] == old(vals[k])
    {
      hide FreshUpTo, Rep;
      var node := bottom;
      while node != top
        invariant lo <= node <= top < |nodes| && FreshUpTo(nodes, vals[..], lo, top, t, v, node)
        invariant
          forall k :: 0 <= k < |nodes| && (k < lo || top < k || nodes[k].op == None_) ==> vals[k] == old(vals[k])
        decreases top - node
      {
        Climbs(nodes, vals[..], lo, top, t, v, node);
        ghost var s := vals[..];
        ghost var below := node;
        node := nodes[node].parent;
        var n := nodes[node];
        if n.op == Binary {
          vals[node] := n.fn2(vals[n.left], vals[n.right]);
        } else {
          vals[node] := n.fn1(vals[n.left]);
        }
        assert vals[..] == s[node := Recomputed(nodes, s, node)];
        OneUp(nodes, s, vals[..], lo, top, t, v, below);
      }
      ReachedTop(nodes, vals[..], lo, top, t, v);
    }

    /** What evaluating a tree changes: its own nodes, but no constant. */
    twostate predicate OnlyTree(lo: nat, node: nat)
      reads this, vals
    {
      forall k :: 0 <= k < |nodes| == vals.Length && (k < lo || node < k || nodes[k].op == None_) ==>
        vals[k] == old(vals[k])
    }

    /** The expression `t` has been computed in full with the first value of its field. */
    twostate predicate Evaluated(lo: nat, node: nat, t: Tree, v: Value)
      requires Ready() && Rep(nodes, lo, node, t) && IsExpr(t)
      reads this, vals
    {
      && OnlyTree(lo, node) && Fresh(nodes, vals[..], lo, node, t, v)
      && if Fields(t) == 0 then reevaluate == old(reevaluate) && curId == old(curId) && pos == old(pos)
         else First(FieldOf(t), FieldNode(nodes, lo, node, t), v)
    }

    /** `evaluate_recursively` on function calls, the field and constants. */
    method EvaluateExpr(node: nat, ghost lo: nat, ghost t: Tree) returns (ghost v: Value)
      requires Ready() && Rep(nodes, lo, node, t) && IsExpr(t) && ConstsOk(nodes, vals[..], lo, node, t)
      modifies this`reevaluate, this`resetLookup, this`curId, this`pos, vals
      ensures Evaluated(lo, node, t, v)
      decreases t, 2
    {
      match nodes[node].op
      case None_ => v := vals[node];
      case Data => v := EvaluateField(node, lo, t);
      case Unary => v := EvaluateUnary(node, lo, t);
      case Cast => v := EvaluateUnary(node, lo, t);
      case Binary => v := EvaluateBinary(node, lo, t);
    }

    method EvaluateField(node: nat, ghost lo: nat, ghost t: Tree) returns (ghost v: Value)
      requires Ready() && Rep(nodes, lo, node, t) && t.Field?
      modifies this`reevaluate, this`resetLookup, this`curId, this`pos, vals
      ensures Evaluated(lo, node, t, v)
      decreases t, 0
    {
      var rc, val := DataCb(true, nodes[node].id);
      vals[node] := val;
      reevaluate := if rc == MoreValues then Some(node) else None;
      resetLookup := rc != MoreValues;
      v := val;
    }

    method EvaluateUnary(node: nat, ghost lo: nat, ghost t: Tree) returns (ghost v: Value)
      requires Ready() && Rep(nodes, lo, node, t) && IsExpr(t) && t.Call1? && ConstsOk(nodes, vals[..], lo, node, t)
      modifies this`reevaluate, this`resetLookup, this`curId, this`pos, vals
      ensures Evaluated(lo, node, t, v)
      decreases t, 0
    {
      hide FieldNode, Fresh, ConstsOk;
      var n := nodes[node];
      ConstsBelow(nodes, vals[..], lo, node, t);
      v := EvaluateExpr(n.left, lo, t.a);
      ghost var s := vals[..];
      vals[node] := n.fn1(vals[n.left]);
      UnaryFresh(nodes, s, vals[..], lo, node, t, v);
    }

    method EvaluateBinary(node: nat, ghost lo: nat, ghost t: Tree) returns (ghost v: Value)
      requires Ready() && Rep(nodes, lo, node, t) && IsExpr(t) && t.Call2? && ConstsOk(nodes, vals[..], lo, node, t)
      modifies this`reevaluate, this`resetLookup, this`curId, this`pos, vals
      ensures Evaluated(lo, node, t, v)
      decreases t, 1
    {
      hide FieldNode, Fresh, ConstsOk, Rep, FreshUpTo, Eval, OpOk, Found, IsExpr, FieldOf, Fields;
      Operands(t);
      RepBelow(nodes, lo, node, t);
      var n := nodes[node];
      OpFn(n, t);
      ghost var va, vb := EvaluateOperands(node, lo, t);
      ghost var s := vals[..];
      vals[node] := n.fn2(vals[n.left], vals[n.right]);
      BinaryFresh(nodes, s, vals[..], lo, node, t, va, vb);
      v := if Fields(t.a) == 1 then va else vb;
    }

    /** Both operands in turn; at most one of them reads a field. */
    method EvaluateOperands(node: nat, ghost lo: nat, ghost t: Tree) returns (ghost va: Value, ghost vb: Value)
      requires Ready() && Rep(nodes, lo, node, t) && IsExpr(t) && t.Call2? && ConstsOk(nodes, vals[..], lo, node, t)
      modifies this`reevaluate, this`resetLookup, this`curId, this`pos, vals
      ensures OnlyTree(lo, nodes[node].right)
      ensures Fresh(nodes, vals[..], lo, nodes[node].left, t.a, va)
      ensures Fresh(nodes, vals[..], nodes[node].left + 1, nodes[node].right, t.b, vb)
      ensures if Fields(t) == 0 then reevaluate == old(reevaluate) && curId == old(curId) && pos == old(pos)
              else First(FieldOf(t), FieldNode(nodes, lo, node, t), if Fields(t.a) == 1 then va else vb)
      decreases t, 0
    {
      hide FieldNode, Fresh, ConstsOk, Rep, FreshUpTo, Eval, OpOk, Found, IsExpr, FieldOf, Fields;
      Operands(t);
      RepBelow(nodes, lo, node, t);
      var n := nodes[node];
      ghost var s0 := vals[..];
      ConstsBelow(nodes, s0, lo, node, t);
      va := EvaluateExpr(n.left, lo, t.a);
      ghost var s1 := vals[..];
      ConstsFrame(nodes, s0, s1, n.left + 1, n.right, t.b);
      vb := EvaluateExpr(n.right, n.left + 1, t.b);
      FreshFrame(nodes, s1, vals[..], lo, n.left, t.a, va);
      OperandNode(nodes, lo, node, t);
    }

    /** `evaluate_while_not_true`: one value after the other until the tree is true or none is left. Of a
        formula only a comparison is ever repeated: a false `and` or `or` leaves no field to go on with. */
    method EvaluateWhileNotTrue(node: nat, ghost lo: nat, ghost t: Tree)
      requires Ready() && Rep(nodes, lo, node, t) && IsFormula(t) && ConstsOk(nodes, vals[..], lo, node, t)
      modifies this`reevaluate, this`resetLookup, this`curId, this`pos, vals
      ensures OnlyTree(lo, node) && vals[node].b == Result(t, data)
      ensures !vals[node].b ==> reevaluate == None
      decreases t, 2
    {
      hide FieldNode, Fresh, SomeValue, Rep, ConstsOk;
      OpIs(nodes, lo, node, t);
      ghost var d := if IsCmp(t) then data(FieldOf(t)) else FieldData([], false, Value(false, 0));
      ghost var v := EvaluateTree(node, lo, t);
      while !vals[node].b && reevaluate != None
        invariant
          OnlyTree(lo, node) &&
            (!IsCmp(t) ==> vals[node].b == Result(t, data) && (!vals[node].b ==> reevaluate == None))
        invariant IsCmp(t) ==> d == data(FieldOf(t)) && pos <= |d.values| && Trying(lo, node, t, d, v)
        decreases |d.values| - pos, if reevaluate == None then 0 else 1
      {
        v := TryNext(node, lo, t, v);
      }
      if IsCmp(t) && reevaluate != None {
        FreshTop(nodes, vals[..], lo, node, t, v);
        ValueDecides(t, d, pos);
      }
    }

    /** The next value of a comparison that is still false. */
    method TryNext(node: nat, ghost lo: nat, ghost t: Tree, ghost v0: Value) returns (ghost v: Value)
      requires Ready() && Rep(nodes, lo, node, t) && IsCmp(t) && !vals[node].b && reevaluate != None
      requires pos <= |data(FieldOf(t)).values| && Trying(lo, node, t, data(FieldOf(t)), v0)
      modifies this`reevaluate, this`curId, this`pos, vals
      ensures old(pos) <= pos <= |data(FieldOf(t)).values| && Trying(lo, node, t, data(FieldOf(t)), v)
      ensures reevaluate == None || old(pos) < pos
      ensures OnlyTree(lo, node)
    {
      hide FieldNode, Fresh, SomeValue, Rep;
      OpIs(nodes, lo, node, t);
      ghost var d := data(FieldOf(t));
      v := v0;
      ValueDecides(t, d, pos);
      FreshTop(nodes, vals[..], lo, node, t, v);
      ghost var r := ReevaluateUpwards(reevaluate.value, node, lo, t, v);
      if r.Some? {
        v := r.value;
        FreshTop(nodes, vals[..], lo, node, t, v);
        ValueDecides(t, d, pos);
      }
    }

    /** All values before the current one are false; when none is left, the value of the tree is final. */
    ghost predicate Trying(lo: nat, node: nat, t: Tree, d: FieldData, v: Value)
      requires Ready() && Rep(nodes, lo, node, t) && IsCmp(t)
      reads this, vals
    {
      if reevaluate == None then vals[node].b == Found(t, d)
      else
        && curId == FieldOf(t) && reevaluate == Some(FieldNode(nodes, lo, node, t)) &&
          Fresh(nodes, vals[..], lo, node, t, v)
        && 1 <= pos <= |d.values| && v == d.values[pos - 1] && (pos == |d.values| ==> !d.lastIsOk)
        && forall k :: 0 <= k < pos - 1 ==> !Eval(t, d.values[k]).b
    }

    /** `evaluate_recursively` */
    method EvaluateTree(node: nat, ghost lo: nat, ghost t: Tree) returns (ghost v: Value)
      requires
        Ready() && Rep(nodes, lo, node, t) && (IsFormula(t) || IsRoot(t)) && ConstsOk(nodes, vals[..], lo, node, t)
      modifies this`reevaluate, this`resetLookup, this`curId, this`pos, vals
      ensures OnlyTree(lo, node)
      ensures IsCmp(t) ==> pos <= |data(FieldOf(t)).values| && Trying(lo, node, t, data(FieldOf(t)), v)
      ensures !IsCmp(t) ==> vals[node].b == Result(t, data) && (IsFormula(t) && !vals[node].b ==> reevaluate == None)
      decreases t, 1
    {
      hide FieldNode, Fresh, SomeValue, Rep, ConstsOk;
      v := Value(false, 0);
      OpIs(nodes, lo, node, t);
      if nodes[node].op == And {
        EvaluateAnd(node, lo, t);
      } else if nodes[node].op == Or {
        EvaluateOr(node, lo, t);
      } else if nodes[node].op == Not {
        ConstsBelow(nodes, vals[..], lo, node, t);
        EvaluateWhileNotTrue(nodes[node].left, lo, t.a);
        vals[node] := vals[node].(b := !vals[nodes[node].left].b);
      } else if nodes[node].op == Any {
        ConstsBelow(nodes, vals[..], lo, node, t);
        EvaluateWhileNotTrue(nodes[node].left, lo, t.a);
        vals[node] := vals[node].(b := vals[nodes[node].left].b);
      } else {
        v := EvaluateExpr(node, lo, t);
        FreshTop(nodes, vals[..], lo, node, t, v);
        FirstDecides(t, data(FieldOf(t)));
      }
    }

    method EvaluateAnd(node: nat, ghost lo: nat, ghost t: Tree)
      requires Ready() && Rep(nodes, lo, node, t) && IsFormula(t) && t.AndT? && ConstsOk(nodes, vals[..], lo, node, t)
      modifies this`reevaluate, this`resetLookup, this`curId, this`pos, vals
      ensures OnlyTree(lo, node) && vals[node].b == Result(t, data) && (!vals[node].b ==> reevaluate == None)
      decreases t, 0
    {
      hide ConstsOk, Found, Rep;
      RepBelow(nodes, lo, node, t);
      var n := nodes[node];
      ghost var s0 := vals[..];
      ConstsBelow(nodes, s0, lo, node, t);
      EvaluateWhileNotTrue(n.left, lo, t.a);
      ConstsFrame(nodes, s0, vals[..], n.left + 1, n.right, t.b);
      if !vals[n.left].b {
        vals[node] := vals[node].(b := false);
        return;
      }
      EvaluateWhileNotTrue(n.right, n.left + 1, t.b);
      vals[node] := vals[node].(b := vals[n.right].b);
    }

    method EvaluateOr(node: nat, ghost lo: nat, ghost t: Tree)
      requires Ready() && Rep(nodes, lo, node, t) && IsFormula(t) && t.OrT? && ConstsOk(nodes, vals[..], lo, node, t)
      modifies this`reevaluate, this`resetLookup, this`curId, this`pos, vals
      ensures OnlyTree(lo, node) && vals[node].b == Result(t, data) && (!vals[node].b ==> reevaluate == None)
      decreases t, 0
    {
      hide ConstsOk, Found, Rep;
      RepBelow(nodes, lo, node, t);
      var n := nodes[node];
      ghost var s0 := vals[..];
      ConstsBelow(nodes, s0, lo, node, t);
      EvaluateWhileNotTrue(n.left, lo, t.a);
      ConstsFrame(nodes, s0, vals[..], n.left + 1, n.right, t.b);
      if vals[n.left].b {
        vals[node] := vals[node].(b := true);
        return;
      }
      EvaluateWhileNotTrue(n.right, n.left + 1, t.b);
      vals[node] := vals[node].(b := vals[n.right].b);
    }

    /** `fds_filter_eval`: a filter can be evaluated again and again, for one record after the other. */
    method Evaluate(root: nat, record: nat -> FieldData, ghost t: Tree) returns (b: bool)
      requires Ready() && Rep(nodes, 0, root, t) && IsRoot(t) && ConstsOk(nodes, vals[..], 0, root, t)
      modifies this`data, this`reevaluate, this`resetLookup, this`curId, this`pos, vals
      ensures b == Result(t, record) && (FalseDefaults(t, record) ==> b == Meaning(t, record))
      ensures ConstsOk(nodes, vals[..], 0, root, t)
    {
      hide Rep, ConstsOk, Result, Meaning, FalseDefaults;
      ghost var s0 := vals[..];
      data := record;
      RootInside(nodes, root, t);
      ghost var v := EvaluateTree(root, 0, t);
      b := vals[root].b;
      ConstsFrame(nodes, s0, vals[..], 0, root, t);
      if FalseDefaults(t, record) { ResultIsMeaning(t, record); }
    }
  }

  lemma RootInside(nodes: seq<Node>, root: nat, t: Tree)
    requires Rep(nodes, 0, root, t) && IsRoot(t)
    ensures root < |nodes| && !IsCmp(t)
  {
  }

  lemma OpIs(nodes: seq<Node>, lo: nat, i: nat, t: Tree)
    requires Rep(nodes, lo, i, t)
    ensures i < |nodes| && (nodes[i].op == And <==> t.AndT?) && (nodes[i].op == Or <==> t.OrT?)
    ensures (nodes[i].op == Not <==> t.NotT?) && (nodes[i].op == Any <==> t.AnyT?)
    ensures t.NotT? || t.AnyT? ==> lo <= nodes[i].left < i && Rep(nodes, lo, nodes[i].left, t.a)
  {
  }

  lemma FirstDecides(t: Tree, d: FieldData)
    requires IsCmp(t)
    ensures d.values == [] ==> Found(t, d) == Eval(t, d.dflt).b
    ensures d.values != [] && Eval(t, d.values[0]).b ==> Found(t, d)
    ensures |d.values| == 1 && d.lastIsOk ==> Found(t, d) == Eval(t, d.values[0]).b
  {
  }

  lemma FreshTop(nodes: seq<Node>, vals: seq<Value>, lo: nat, i: nat, t: Tree, v: Value)
    requires Rep(nodes, lo, i, t) && |vals| == |nodes| && IsExpr(t) && Fresh(nodes, vals, lo, i, t, v)
    ensures vals[i] == Eval(t, v)
  {
  }

  lemma OpFn(n: Node, t: Tree)
    requires OpOk(n, t) && t.Call2?
    ensures n.fn2 == t.g && n.op == Binary
  {
  }

  /** The two subtrees below a node with two children. */
  lemma RepBelow(nodes: seq<Node>, lo: nat, i: nat, t: Tree)
    requires Rep(nodes, lo, i, t) && !Leaf(t) && !OneChild(t)
    ensures lo <= nodes[i].left < nodes[i].right == i - 1 && i < |nodes|
    ensures Rep(nodes, lo, nodes[i].left, t.a) && Rep(nodes, nodes[i].left + 1, nodes[i].right, t.b)
    ensures OpOk(nodes[i], t)
  {
  }

  lemma ConstsBelow(nodes: seq<Node>, vals: seq<Value>, lo: nat, i: nat, t: Tree)
    requires Rep(nodes, lo, i, t) && |vals| == |nodes| && ConstsOk(nodes, vals, lo, i, t)
    ensures OneChild(t) ==> ConstsOk(nodes, vals, lo, nodes[i].left, t.a)
    ensures !Leaf(t) && !OneChild(t) ==>
      ConstsOk(nodes, vals, lo, nodes[i].left, t.a) && ConstsOk(nodes, vals, nodes[i].left + 1, nodes[i].right, t.b)
  {
  }

  lemma ReachedTop(nodes: seq<Node>, vals: seq<Value>, lo: nat, i: nat, t: Tree, v: Value)
    requires Rep(nodes, lo, i, t) && |vals| == |nodes| && IsExpr(t) && FreshUpTo(nodes, vals, lo, i, t, v, i)
    ensures Fresh(nodes, vals, lo, i, t, v)
  {
  }
}
