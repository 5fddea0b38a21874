/** How the nodes of an evaluation tree are created and linked, so that the evaluator can walk them. */
module EvalTree {
  import opened Evaluator

  function Size(t: Tree): (n: nat)
    ensures n > 0
  {
    if Leaf(t) then 1 else if OneChild(t) then Size(t.a) + 1 else Size(t.a) + Size(t.b) + 1
  }

  function NodeFor(t: Tree, parent: nat, left: nat, right: nat): Node
  {
    match t
    case Const(_) => Node(None_, 0, v => v, (v, w) => v, parent, left, right)
    case ExistsT(id) => Node(Exists, id, v => v, (v, w) => v, parent, left, right)
    case Field(id) => Node(Data, id, v => v, (v, w) => v, parent, left, right)
    case Call1(cast, f, _) => Node(if cast then Cast else Unary, 0, f, (v, w) => v, parent, left, right)
    case Call2(g, _, _) => Node(Binary, 0, v => v, g, parent, left, right)
    case AnyT(_) => Node(Any, 0, v => v, (v, w) => v, parent, left, right)
    case AndT(_, _) => Node(And, 0, v => v, (v, w) => v, parent, left, right)
    case OrT(_, _) => Node(Or, 0, v => v, (v, w) => v, parent, left, right)
    case NotT(_) => Node(Not, 0, v => v, (v, w) => v, parent, left, right)
  }

  /** The nodes of `t`, numbered from `base` on; the root gets the parent link `parent`. */
  function Generated(t: Tree, base: nat, parent: nat): (ns: seq<Node>)
    ensures |ns| == Size(t)
  {
    var root := base + Size(t) - 1;
    if Leaf(t) then [NodeFor(t, parent, 0, 0)]
    else if OneChild(t) then Generated(t.a, base, root) + [NodeFor(t, parent, root - 1, 0)]
    else
      Generated(t.a, base, root) + Generated(t.b, base + Size(t.a), root)
      + [NodeFor(t, parent, base + Size(t.a) - 1, root - 1)]
  }

  /** The initial values: those of the constants, and zero. */
  function Initial(t: Tree): (vs: seq<Value>)
    ensures |vs| == Size(t)
  {
    if t.Const? then [t.v]
    else if Leaf(t) then [Value(false, 0)]
    else if OneChild(t) then Initial(t.a) + [Value(false, 0)]
    else Initial(t.a) + Initial(t.b) + [Value(false, 0)]
  }

  ghost predicate Placed<T>(all: seq<T>, base: nat, part: seq<T>)
  {
    base + |part| <= |all| && forall k :: 0 <= k < |part| ==> all[base + k] == part[k]
  }

  lemma PlacedParts<T>(all: seq<T>, base: nat, a: seq<T>, b: seq<T>)
    requires Placed(all, base, a + b)
    ensures Placed(all, base, a) && Placed(all, base + |a|, b)
  {
    forall k | 0 <= k < |a| ensures all[base + k] == a[k] { assert (a + b)[k] == a[k]; }
    forall k | 0 <= k < |b| ensures all[base + |a| + k] == b[k] { assert (a + b)[|a| + k] == b[k]; }
  }

  lemma NodeForOk(t: Tree, parent: nat, left: nat, right: nat)
    ensures
      var n := NodeFor(t, parent, left, right);
      OpOk(n, t) && n.parent == parent && n.left == left && n.right == right
  {
  }

  lemma RepOfLeaf(nodes: seq<Node>, root: nat, t: Tree)
    requires root < |nodes| && Leaf(t) && OpOk(nodes[root], t)
    ensures Rep(nodes, root, root, t)
  {
  }

  lemma RepOfOne(nodes: seq<Node>, base: nat, root: nat, t: Tree)
    requires base < root < |nodes| && OneChild(t) && OpOk(nodes[root], t) && nodes[root].left == root - 1
    requires Rep(nodes, base, root - 1, t.a) && nodes[root - 1].parent == root
    ensures Rep(nodes, base, root, t)
  {
  }

  lemma RepOfTwo(nodes: seq<Node>, base: nat, mid: nat, root: nat, t: Tree)
    requires base < mid < root < |nodes| && !Leaf(t) && !OneChild(t) && OpOk(nodes[root], t)
    requires nodes[root].left == mid - 1 && nodes[root].right == root - 1
    requires Rep(nodes, base, mid - 1, t.a) && nodes[mid - 1].parent == root
    requires Rep(nodes, mid, root - 1, t.b) && nodes[root - 1].parent == root
    ensures Rep(nodes, base, root, t)
  {
  }

  lemma GeneratedParts(t: Tree, base: nat, parent: nat)
    ensures
      var ns, root := Generated(t, base, parent), base + Size(t) - 1;
      if Leaf(t) then ns == [NodeFor(t, parent, 0, 0)] && Size(t) == 1
      else if OneChild(t) then
        ns == Generated(t.a, base, root) + [NodeFor(t, parent, root - 1, 0)] && Size(t) == Size(t.a) + 1
      else
        var mid := base + Size(t.a);
        && Size(t) == Size(t.a) + Size(t.b) + 1
        && ns == Generated(t.a, base, root) + Generated(t.b, mid, root) + [NodeFor(t, parent, mid - 1, root - 1)]
  {
    hide NodeFor;
  }

  lemma InitialParts(t: Tree)
    ensures
      if t.Const? then Initial(t) == [t.v] && Size(t) == 1
      else if Leaf(t) then Initial(t) == [Value(false, 0)] && Size(t) == 1
      else if OneChild(t) then Initial(t) == Initial(t.a) + [Value(false, 0)] && Size(t) == Size(t.a) + 1
      else Initial(t) == Initial(t.a) + Initial(t.b) + [Value(false, 0)] && Size(t) == Size(t.a) + Size(t.b) + 1
  {
  }

  /** Every tree is represented in memory by what the generator makes of it, wherever it is placed. */
  lemma {:induction false} GeneratedRep(nodes: seq<Node>, base: nat, t: Tree, parent: nat)
    requires Placed(nodes, base, Generated(t, base, parent))
    ensures
      var root := base + Size(t) - 1;
      Rep(nodes, base, root, t) && nodes[root].parent == parent
    decreases t
  {
    hide Placed, NodeFor, OpOk, Rep, Generated, Size;
    GeneratedParts(t, base, parent);
    var root := base + Size(t) - 1;
    if Leaf(t) {
      assert [] + [NodeFor(t, parent, 0, 0)] == [NodeFor(t, parent, 0, 0)];
      RootPlaced(nodes, base, [], NodeFor(t, parent, 0, 0));
      NodeForOk(t, parent, 0, 0);
      RepOfLeaf(nodes, root, t);
    } else if OneChild(t) {
      var a := Generated(t.a, base, root);
      RootPlaced(nodes, base, a, NodeFor(t, parent, root - 1, 0));
      NodeForOk(t, parent, root - 1, 0);
      GeneratedRep(nodes, base, t.a, root);
      RepOfOne(nodes, base, root, t);
    } else {
      var mid := base + Size(t.a);
      var a, b := Generated(t.a, base, root), Generated(t.b, mid, root);
      TwoPlaced(nodes, base, a, b, NodeFor(t, parent, mid - 1, root - 1));
      NodeForOk(t, parent, mid - 1, root - 1);
      GeneratedRep(nodes, base, t.a, root);
      GeneratedRep(nodes, mid, t.b, root);
      RepOfTwo(nodes, base, mid, root, t);
    }
  }

  lemma RootPlaced<T>(all: seq<T>, base: nat, below: seq<T>, root: T)
    requires Placed(all, base, below + [root])
    ensures base + |below| < |all| && all[base + |below|] == root && Placed(all, base, below)
  {
    assert (below + [root])[|below|] == root;
    PlacedParts(all, base, below, [root]);
  }

  lemma TwoPlaced<T>(all: seq<T>, base: nat, a: seq<T>, b: seq<T>, root: T)
    requires Placed(all, base, a + b + [root])
    ensures Placed(all, base, a) && Placed(all, base + |a|, b)
    ensures base + |a| + |b| < |all| && all[base + |a| + |b|] == root
  {
    RootPlaced(all, base, a + b, root);
    PlacedParts(all, base, a, b);
  }

  /** The constants then hold their values. */
  lemma {:induction false} InitialConsts(nodes: seq<Node>, vals: seq<Value>, base: nat, t: Tree)
    requires |vals| == |nodes| && Rep(nodes, base, base + Size(t) - 1, t) && Placed(vals, base, Initial(t))
    ensures ConstsOk(nodes, vals, base, base + Size(t) - 1, t)
    decreases t
  {
    hide Placed, OpOk, Generated, Initial, Size;
    InitialParts(t);
    var root := base + Size(t) - 1;
    if t.Const? {
      assert [] + [t.v] == [t.v];
      RootPlaced(vals, base, [], t.v);
    } else if Leaf(t) {
    } else if OneChild(t) {
      SizeOf(nodes, base, nodes[root].left, t.a);
      RootPlaced(vals, base, Initial(t.a), Value(false, 0));
      InitialConsts(nodes, vals, base, t.a);
    } else {
      SizeOf(nodes, base, nodes[root].left, t.a);
      SizeOf(nodes, nodes[root].left + 1, nodes[root].right, t.b);
      var mid := base + Size(t.a);
      assert nodes[root].left == mid - 1 && nodes[root].right == mid + Size(t.b) - 1;
      TwoPlaced(vals, base, Initial(t.a), Initial(t.b), Value(false, 0));
      InitialConsts(nodes, vals, base, t.a);
      InitialConsts(nodes, vals, mid, t.b);
    }
  }

  /** A represented tree takes up exactly as many nodes as it has. */
  lemma {:induction false} SizeOf(nodes: seq<Node>, lo: nat, i: nat, t: Tree)
    requires Rep(nodes, lo, i, t)
    ensures i == lo + Size(t) - 1
    decreases t
  {
    if Leaf(t) {
    } else if OneChild(t) {
      SizeOf(nodes, lo, nodes[i].left, t.a);
    } else {
      SizeOf(nodes, lo, nodes[i].left, t.a);
      SizeOf(nodes, nodes[i].left + 1, nodes[i].right, t.b);
    }
  }
}
