/** The static structure of a behaviour tree (roguelike/sources/behTree.cpp,
    roguelike/sources/gameplay/behTreeLibrary.cpp). A tree built by the factory
    functions is a `Template`; BehTree stores it as an arena: the nodes in preorder, each
    with its kind, the indices of its children, the end of its subtree and its owner
    (the INodeCaller that `connect` gave it). */
module BehTreeShape {

  /** What a node does; the payloads are the factory arguments the model keeps. */
  datatype NodeKind =
    | Sequence
    | Select
    | Parallel
    | Race
      /** `predicate(pred, node)`: `guard` names the predicate; the world says which hold. */
    | Predicate(guard: nat)
    | WaitEvent(event: string)
    | Fail
      /** `get_closest(query, filter, bb_name)`: `query` names the query and its filter. */
    | GetClosest(query: nat, bbVar: nat)
    | MoveTo(bbVar: nat, flee: bool)
  {
    predicate IsComposite() {
      Sequence? || Select? || Parallel? || Race?
    }

    /** Nodes that register themselves and wait for `act`. */
    predicate IsActor() {
      WaitEvent? || MoveTo?
    }
  }

  /** A tree as the factories build it. */
  datatype Template = Node(kind: NodeKind, children: seq<Template>)

  /** Composites take any number of children, a predicate adapts exactly one node, and
      leaves have none. */
  predicate ArityOk(kind: NodeKind, n: nat) {
    if kind.IsComposite() then true else if kind.Predicate? then n == 1 else n == 0
  }

  ghost predicate Buildable(t: Template)
    decreases t
  {
    && ArityOk(t.kind, |t.children|)
    && forall i :: 0 <= i < |t.children| ==> Buildable(t.children[i])
  }

  /** The caller a node reports to: the tree's root callback or slot `slot` of node `node`. */
  datatype Owner = Root | Parent(node: nat, slot: nat)

  /** One arena entry; `span` is one past the last node of its subtree. */
  datatype NodeInfo = NodeInfo(kind: NodeKind, children: seq<nat>, span: nat, owner: Owner)

  type Shape = seq<NodeInfo>

  function Size(t: Template): nat
    decreases t, 1
  {
    1 + SizeAll(t.children)
  }

  function SizeAll(ts: seq<Template>): nat
    decreases ts, 0
  {
    if ts == [] then 0 else SizeAll(ts[..|ts| - 1]) + Size(ts[|ts| - 1])
  }

  /** Where each child's subtree starts when the children are laid out from `start`. */
  function ChildStarts(ts: seq<Template>, start: nat): (r: seq<nat>)
    ensures |r| == |ts|
  {
    seq(|ts|, k requires 0 <= k < |ts| => start + SizeAll(ts[..k]))
  }

  /** Preorder layout of `t` at index `base`, owned by `own` (clone + connect). */
  function Flatten(t: Template, base: nat, own: Owner): (r: Shape)
    decreases t, 1
    ensures |r| == Size(t)
  {
    [NodeInfo(t.kind, ChildStarts(t.children, base + 1), base + Size(t), own)]
      + FlattenAll(t.children, base + 1, base)
  }

  /** The children's layouts one after another from `start`, child k owned by slot k of
      node `parent`. */
  function FlattenAll(ts: seq<Template>, start: nat, parent: nat): (r: Shape)
    decreases ts, 0
    ensures |r| == SizeAll(ts)
  {
    if ts == [] then []
    else
      var front := ts[..|ts| - 1];
      FlattenAll(front, start, parent) + Flatten(ts[|ts| - 1], start + SizeAll(front), Parent(parent, |front|))
  }

  /** The arena of a whole tree. */
  function Build(t: Template): Shape {
    Flatten(t, 0, Root)
  }

  /** Node `m` of a block laid out from `base`. */
  function At(xs: Shape, base: nat, m: nat): NodeInfo
    requires base <= m < base + |xs|
  {
    xs[m - base]
  }

  /** Child `k` of node `m` lies inside m's subtree, its own subtree nests in m's, it
      reports to slot k of m, and it starts after the previous child's subtree ends. */
  ghost predicate ChildOk(xs: Shape, base: nat, m: nat, k: nat)
    requires base <= m < base + |xs| && k < |At(xs, base, m).children|
    requires At(xs, base, m).span <= base + |xs|
  {
    var ch := At(xs, base, m).children;
    var c := ch[k];
    && m < c < At(xs, base, m).span
    && At(xs, base, c).span <= At(xs, base, m).span
    && At(xs, base, c).owner == Parent(m, k)
    && (k > 0 ==> base <= ch[k - 1] < base + |xs| && At(xs, base, ch[k - 1]).span <= c)
  }

  /** Node `m` reports to an earlier node of the block, which lists m as that child. */
  ghost predicate OwnerIn(xs: Shape, base: nat, m: nat)
    requires base <= m < base + |xs|
  {
    var o := At(xs, base, m).owner;
    && o.Parent? && base <= o.node < m
    && o.slot < |At(xs, base, o.node).children| && At(xs, base, o.node).children[o.slot] == m
  }

  /** Node `m` is a well-formed node of the layout: its subtree stays in the layout,
      it has the children its kind allows, each child is placed as ChildOk says, and
      every node of its subtree reports to m or to a node below m. */
  ghost predicate NodeOk(xs: Shape, base: nat, m: nat)
    requires base <= m < base + |xs|
  {
    var n := At(xs, base, m);
    && m < n.span <= base + |xs|
    && ArityOk(n.kind, |n.children|)
    && (forall k :: 0 <= k < |n.children| ==> ChildOk(xs, base, m, k))
    && (forall m' :: m < m' < n.span ==> At(xs, base, m').owner.Parent? && m <= At(xs, base, m').owner.node)
  }

  ghost predicate Nodes(xs: Shape, base: nat) {
    forall m :: base <= m < base + |xs| ==> NodeOk(xs, base, m)
  }

  /** A layout of one subtree rooted at `base`. */
  ghost predicate Block(xs: Shape, base: nat) {
    && |xs| > 0 && Nodes(xs, base) && xs[0].span == base + |xs|
    && (forall m :: base < m < base + |xs| ==> OwnerIn(xs, base, m))
  }

  /** A layout of sibling subtrees rooted at `roots`, each reporting to `parent`. */
  ghost predicate Forest(ys: Shape, start: nat, parent: nat, roots: seq<nat>) {
    var hi := start + |ys|;
    && parent < start && Nodes(ys, start)
    && (|roots| == 0 <==> |ys| == 0)
    && (|roots| > 0 ==> roots[0] == start)
    && (forall k :: 0 <= k < |roots| ==> start <= roots[k] < hi)
    && (forall k :: 0 <= k < |roots| ==> At(ys, start, roots[k]).owner == Parent(parent, k))
    && (forall k :: 0 <= k < |roots| - 1 ==> At(ys, start, roots[k]).span == roots[k + 1])
    && (|roots| > 0 ==> At(ys, start, roots[|roots| - 1]).span == hi)
    && (forall m :: start <= m < hi ==> ForestOwner(ys, start, parent, m))
  }

  /** In a forest, a node reports either to the forest's parent or inside the forest. */
  ghost predicate ForestOwner(ys: Shape, start: nat, parent: nat, m: nat)
    requires start <= m < start + |ys|
  {
    At(ys, start, m).owner.Parent? && (At(ys, start, m).owner.node == parent || OwnerIn(ys, start, m))
  }

  /** The arena of a connected tree: a block at 0 whose root reports to the tree. */
  ghost predicate WellFormed(sh: Shape) {
    Block(sh, 0) && sh[0].owner == Root
  }

  /** `xs`, laid out from `base`, occurs inside `zs`, laid out from `zbase`. */
  ghost predicate Within(xs: Shape, base: nat, zs: Shape, zbase: nat) {
    zbase <= base && base + |xs| <= zbase + |zs| && zs[base - zbase..base - zbase + |xs|] == xs
  }

  lemma WithinAt(xs: Shape, base: nat, zs: Shape, zbase: nat)
    requires Within(xs, base, zs, zbase)
    ensures forall j :: base <= j < base + |xs| ==> At(zs, zbase, j) == At(xs, base, j)
  {
    forall j | base <= j < base + |xs| ensures At(zs, zbase, j) == At(xs, base, j) {
      assert zs[base - zbase..base - zbase + |xs|][j - base] == zs[j - zbase];
    }
  }

  /** A well-formed node stays well formed inside any larger layout. */
  lemma EmbedNode(xs: Shape, base: nat, zs: Shape, zbase: nat, m: nat)
    requires Within(xs, base, zs, zbase) && base <= m < base + |xs| && NodeOk(xs, base, m)
    ensures NodeOk(zs, zbase, m)
  {
    WithinAt(xs, base, zs, zbase);
    var n := At(xs, base, m);
    forall k | 0 <= k < |n.children| ensures ChildOk(zs, zbase, m, k) {
      assert ChildOk(xs, base, m, k);
    }
  }

  lemma EmbedOwner(xs: Shape, base: nat, zs: Shape, zbase: nat, m: nat)
    requires Within(xs, base, zs, zbase) && base <= m < base + |xs| && OwnerIn(xs, base, m)
    ensures OwnerIn(zs, zbase, m)
  {
    WithinAt(xs, base, zs, zbase);
  }

  /** Appending the layout of one more sibling keeps a forest. */
  lemma ForestAppend(ys: Shape, b: Shape, start: nat, parent: nat, roots: seq<nat>)
    requires Forest(ys, start, parent, roots)
    requires parent < start && Block(b, start + |ys|) && b[0].owner == Parent(parent, |roots|)
    ensures Forest(ys + b, start, parent, roots + [start + |ys|])
  {
    var xs := ys + b;
    var mid := start + |ys|;
    var hi := start + |xs|;
    assert xs[0..|ys|] == ys;
    assert xs[|ys|..|ys| + |b|] == b;
    assert Within(ys, start, xs, start) && Within(b, mid, xs, start);
    WithinAt(ys, start, xs, start);
    WithinAt(b, mid, xs, start);
    forall m | start <= m < hi ensures NodeOk(xs, start, m) && ForestOwner(xs, start, parent, m) {
      if m < mid {
        EmbedNode(ys, start, xs, start, m);
        assert ForestOwner(ys, start, parent, m);
        if At(ys, start, m).owner.node != parent {
          EmbedOwner(ys, start, xs, start, m);
        }
      } else {
        EmbedNode(b, mid, xs, start, m);
        if m > mid {
          EmbedOwner(b, mid, xs, start, m);
        }
      }
    }
    var roots' := roots + [mid];
    forall k | 0 <= k < |roots'| - 1
      ensures At(xs, start, roots'[k]).span == roots'[k + 1]
    {
      if k == |roots| - 1 {
        assert At(ys, start, roots[|roots| - 1]).span == mid;
      }
    }
  }

  /** The children of a node, laid out in order, form a forest rooted at their starts. */
  lemma {:induction false} FlattenAllForest(ts: seq<Template>, start: nat, parent: nat)
    requires parent < start && forall i :: 0 <= i < |ts| ==> Buildable(ts[i])
    ensures Forest(FlattenAll(ts, start, parent), start, parent, ChildStarts(ts, start))
    decreases ts, 0
  {
    if ts != [] {
      var front := ts[..|ts| - 1];
      var last := ts[|ts| - 1];
      var ys := FlattenAll(front, start, parent);
      var b := Flatten(last, start + SizeAll(front), Parent(parent, |front|));
      FlattenAllForest(front, start, parent);
      FlattenBlock(last, start + SizeAll(front), Parent(parent, |front|));
      ForestAppend(ys, b, start, parent, ChildStarts(front, start));
      ChildStartsSnoc(ts, start);
      assert FlattenAll(ts, start, parent) == ys + b;
    } else {
      assert FlattenAll(ts, start, parent) == [];
      assert ChildStarts(ts, start) == [];
    }
  }

  /** The layout of a buildable tree is a block whose root is the tree's root. */
  lemma {:induction false} FlattenBlock(t: Template, base: nat, own: Owner)
    requires Buildable(t)
    ensures Block(Flatten(t, base, own), base)
    ensures Flatten(t, base, own)[0] == NodeInfo(t.kind, ChildStarts(t.children, base + 1), base + Size(t), own)
    decreases t, 1
  {
    var xs := Flatten(t, base, own);
    var ys := FlattenAll(t.children, base + 1, base);
    FlattenAllForest(t.children, base + 1, base);
    assert xs[1..] == ys;
    RootedForest(xs, base, ys, ChildStarts(t.children, base + 1));
  }

  /** A root followed by the forest of its children is a block. */
  lemma RootedForest(xs: Shape, base: nat, ys: Shape, roots: seq<nat>)
    requires |xs| == 1 + |ys| && xs[1..] == ys && Forest(ys, base + 1, base, roots)
    requires xs[0].children == roots && xs[0].span == base + |xs| && ArityOk(xs[0].kind, |roots|)
    ensures Block(xs, base)
  {
    var hi := base + |xs|;
    assert xs[1..1 + |ys|] == ys;
    assert Within(ys, base + 1, xs, base);
    WithinAt(ys, base + 1, xs, base);
    forall m | base < m < hi ensures NodeOk(xs, base, m) && OwnerIn(xs, base, m) {
      EmbedNode(ys, base + 1, xs, base, m);
      assert ForestOwner(ys, base + 1, base, m);
      if At(ys, base + 1, m).owner.node != base {
        EmbedOwner(ys, base + 1, xs, base, m);
      } else {
        RootOfOwner(ys, base + 1, base, roots, m);
      }
    }
    RootNode(xs, base, ys, roots);
  }

  /** The root of a layout is well formed when its children are the roots of the
      forest that follows it. */
  lemma RootNode(xs: Shape, base: nat, ys: Shape, roots: seq<nat>)
    requires |xs| == 1 + |ys| && xs[1..] == ys && Forest(ys, base + 1, base, roots)
    requires xs[0].children == roots && xs[0].span == base + |xs| && ArityOk(xs[0].kind, |roots|)
    ensures NodeOk(xs, base, base)
  {
    assert xs[1..1 + |ys|] == ys;
    WithinAt(ys, base + 1, xs, base);
    forall k | 0 <= k < |roots| ensures ChildOk(xs, base, base, k) {
      assert NodeOk(ys, base + 1, roots[k]);
    }
    forall m' | base < m' < base + |xs|
      ensures At(xs, base, m').owner.Parent? && base <= At(xs, base, m').owner.node
    {
      assert ForestOwner(ys, base + 1, base, m');
    }
  }

  /** A node of p's subtree is p itself or reports to p or below it. */
  lemma BelowOrSelf(xs: Shape, base: nat, p: nat, m: nat)
    requires base <= p <= m < base + |xs| && NodeOk(xs, base, p) && m < At(xs, base, p).span
    ensures m == p || (At(xs, base, m).owner.Parent? && p <= At(xs, base, m).owner.node)
  {
  }

  /** Where the children start, one child at a time. */
  lemma ChildStartsSnoc(ts: seq<Template>, start: nat)
    requires ts != []
    ensures ChildStarts(ts, start) == ChildStarts(ts[..|ts| - 1], start) + [start + SizeAll(ts[..|ts| - 1])]
  {
    var front := ts[..|ts| - 1];
    forall k | 0 <= k < |front| ensures ts[..k] == front[..k] {
    }
  }

  /** A node reporting to the forest's parent is one of its roots. */
  lemma RootOfOwner(ys: Shape, start: nat, parent: nat, roots: seq<nat>, m: nat)
    requires Forest(ys, start, parent, roots) && start <= m < start + |ys|
    requires At(ys, start, m).owner.Parent? && At(ys, start, m).owner.node == parent
    ensures At(ys, start, m).owner.slot < |roots| && roots[At(ys, start, m).owner.slot] == m
  {
    var k := 0;
    while At(ys, start, roots[k]).span <= m
      invariant k < |roots| && roots[k] <= m
      decreases m - roots[k]
    {
      assert NodeOk(ys, start, roots[k]);
      k := k + 1;
    }
    BelowOrSelf(ys, start, roots[k], m);
    assert At(ys, start, roots[k]).owner == Parent(parent, k);
  }

  /** Connect: the arena of any buildable tree is well formed; in particular every child
      reports to its own parent and the root reports to the tree. */
  lemma BuildWellFormed(t: Template)
    requires Buildable(t)
    ensures WellFormed(Build(t)) && |Build(t)| == Size(t)
    ensures Build(t)[0].kind == t.kind && |Build(t)[0].children| == |t.children|
  {
    FlattenBlock(t, 0, Root);
  }
}
