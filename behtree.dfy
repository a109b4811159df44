/** A behaviour tree attached to one entity (roguelike/sources/behTree.hpp BehTree, the
    nodes of roguelike/sources/behTree.cpp and the get_closest / move_to leaves of
    roguelike/sources/gameplay/behTreeLibrary.cpp). The node objects live in an arena
    indexed in preorder; `shape` is the structure clone + connect produced and `nodes`
    holds each node's mutable fields. Every method is proved to do exactly what the
    function of the same behaviour in BehTreeSemantics describes. */
module BehTree {
  import Actions
  import opened BehTreeShape
  import opened BehTreeLibrary
  import opened Wrappers
  import opened BehTreeSemantics
  import Blackboard

  /** The node fields a freshly built tree has: all idle, and each Parallel's `running`
      vector resized to its number of children by the factory. */
  function InitialNodes(sh: Shape): (r: seq<NodeState>)
    ensures |r| == |sh|
    ensures forall i :: 0 <= i < |sh| ==> !r[i].running && r[i].current == 0 && r[i].finished == 0
  {
    seq(|sh|, i requires 0 <= i < |sh| =>
      NodeState(false, 0, 0, if sh[i].kind.Parallel? then Falses(|sh[i].children|) else []))
  }

  /** The node fields of a clone: composite and adapter nodes are built anew (their
      Parallel `running` vector left empty), while leaves are copy-constructed and
      keep every field of the original, `running_` included. */
  function ClonedNodes(sh: Shape, nodes: seq<NodeState>): (r: seq<NodeState>)
    requires |nodes| == |sh|
    ensures |r| == |sh|
    ensures forall i :: 0 <= i < |sh| && (sh[i].kind.IsComposite() || sh[i].kind.Predicate?) ==>
      r[i] == NodeState(false, 0, 0, [])
    ensures forall i :: 0 <= i < |sh| && !(sh[i].kind.IsComposite() || sh[i].kind.Predicate?) ==> r[i] == nodes[i]
  {
    seq(|sh|, i requires 0 <= i < |sh| =>
      if sh[i].kind.IsComposite() || sh[i].kind.Predicate? then NodeState(false, 0, 0, []) else nodes[i])
  }

  class Tree {
    const shape: Shape
    var nodes: seq<NodeState>
    /** The entity's ActingNodes component. */
    var acting: set<nat>
    /** The entity's ReactingNodes component. */
    var reacting: multiset<(string, nat)>
    /** BehTree::running_. */
    var treeRunning: bool
    /** The entity's Blackboard component. */
    const bb: Blackboard.Blackboard

    ghost predicate Valid()
      reads this, bb
    {
      WellFormed(shape) && |nodes| == |shape| && bb.Valid() && bb.positions.default == PositionDefault
    }

    ghost function Snap(): State
      reads this, bb, bb.positions
    {
      State(nodes, acting, reacting, bb.positions.data, treeRunning)
    }

    /** BehTree(entity, root): connect the factory-built tree to the entity and give
        the entity empty EventList, Blackboard, ActingNodes and ReactingNodes. */
    constructor FromTemplate(t: Template)
      requires Buildable(t)
      ensures Valid() && shape == Build(t) && fresh(bb) && fresh(bb.positions)
      ensures Snap() == State(InitialNodes(shape), {}, multiset{}, [], false)
    {
      BuildWellFormed(t);
      shape := Build(t);
      nodes := InitialNodes(Build(t));
      acting := {};
      reacting := multiset{};
      treeRunning := false;
      bb := new Blackboard.Blackboard();
    }

    /** copy_to(entity): BehTree(entity, root_->clone()) for another entity. */
    constructor Clone(other: Tree)
      requires other.Valid()
      ensures Valid() && shape == other.shape && fresh(bb) && fresh(bb.positions)
      ensures Snap() == State(ClonedNodes(other.shape, other.nodes), {}, multiset{}, [], false)
    {
      shape := other.shape;
      nodes := ClonedNodes(other.shape, other.nodes);
      acting := {};
      reacting := multiset{};
      treeRunning := false;
      bb := new Blackboard.Blackboard();
    }

    /** Node::succeed / Node::fail with the body's final fields `v`. */
    method FinishNode(n: nat, v: NodeState, out: Outcome) returns (o: Outcome)
      requires Valid() && n < |shape|
      modifies this
      ensures Valid() && Res(Snap(), o) == Finish(old(Snap()), n, v, out)
    {
      if !nodes[n].running {
        o := Aborted;
      } else {
        nodes := nodes[n := v.(running := false)];
        o := out;
      }
    }

    // -------------------------------------------------------------- execute

    /** Node::execute. */
    method NodeExecute(w: World, n: nat) returns (o: Outcome)
      requires Valid() && n < |shape|
      modifies this, bb.positions
      ensures Valid() && Res(Snap(), o) == Exec(shape, w, old(Snap()), n)
      decreases |shape| - n, 4, 0
    {
      if nodes[n].running {
        o := Aborted;
        return;
      }
      nodes := nodes[n := nodes[n].(running := true)];
      match shape[n].kind {
        case Sequence => o := SequenceExecute(w, n);
        case Select => o := SelectExecute(w, n);
        case Parallel => o := ParallelExecute(w, n);
        case Race => o := ExecuteChildren(w, n);
        case Predicate(g) => o := PredicateExecute(w, n, g);
        case WaitEvent(e) =>
          if e in w.events {
            o := FinishNode(n, nodes[n], Success);
          } else {
            reacting := reacting + multiset{(e, n)};
            o := Pending;
          }
        case Fail => o := FinishNode(n, nodes[n], Failure);
        case GetClosest(q, v) =>
          var closest := FindClosest(w.position, w.queries(q));
          match closest {
            case None => o := FinishNode(n, nodes[n], Failure);
            case Some(pos) =>
              bb.SetPosition(v, pos);
              o := FinishNode(n, nodes[n], Success);
          }
        case MoveTo(_, _) =>
          acting := acting + {n};
          o := Pending;
      }
    }

    method SequenceExecute(w: World, n: nat) returns (o: Outcome)
      requires Valid() && n < |shape| && shape[n].kind.Sequence? && nodes[n].running
      modifies this, bb.positions
      ensures Valid() && Res(Snap(), o) == ExecSequence(shape, w, old(Snap()), n)
      decreases |shape| - n, 3, 0
    {
      if nodes[n].current != 0 {
        o := Aborted;
      } else if |shape[n].children| == 0 {
        o := FinishNode(n, nodes[n], Success);
      } else {
        o := NodeExecute(w, Child(shape, n, 0));
        if o.Finished() {
          o := SequenceSignal(w, n, o.Success?);
        }
      }
    }

    method SelectExecute(w: World, n: nat) returns (o: Outcome)
      requires Valid() && n < |shape| && shape[n].kind.Select? && nodes[n].running
      modifies this, bb.positions
      ensures Valid() && Res(Snap(), o) == ExecSelect(shape, w, old(Snap()), n)
      decreases |shape| - n, 3, 0
    {
      if nodes[n].current != 0 {
        o := Aborted;
      } else if |shape[n].children| == 0 {
        o := FinishNode(n, nodes[n], Failure);
      } else {
        o := NodeExecute(w, Child(shape, n, 0));
        if o.Finished() {
          o := SelectSignal(w, n, o.Success?);
        }
      }
    }

    method ParallelExecute(w: World, n: nat) returns (o: Outcome)
      requires Valid() && n < |shape| && shape[n].kind.Parallel? && nodes[n].running
      modifies this, bb.positions
      ensures Valid() && Res(Snap(), o) == ExecParallel(shape, w, old(Snap()), n)
      decreases |shape| - n, 3, 0
    {
      if nodes[n].finished != 0 {
        o := Aborted;
      } else if |shape[n].children| == 0 {
        o := FinishNode(n, nodes[n], Success);
      } else {
        nodes := nodes[n := nodes[n].(childRunning := Trues(|shape[n].children|))];
        o := ExecuteChildren(w, n);
      }
    }

    method PredicateExecute(w: World, n: nat, g: nat) returns (o: Outcome)
      requires Valid() && n < |shape| && shape[n].kind == Predicate(g) && nodes[n].running
      modifies this, bb.positions
      ensures Valid() && Res(Snap(), o) == ExecPredicate(shape, w, old(Snap()), n, g)
      decreases |shape| - n, 3, 0
    {
      NodeFacts(shape, n);
      if g !in w.guards {
        o := FinishNode(n, nodes[n], Failure);
      } else {
        o := NodeExecute(w, Child(shape, n, 0));
        if o.Finished() {
          o := FinishNode(n, nodes[n], if o.Success? then Success else Failure);
        }
      }
    }

    /** The execute loop of Parallel and Race. */
    method ExecuteChildren(w: World, p: nat) returns (o: Outcome)
      requires Valid() && p < |shape| && (shape[p].kind.Parallel? || shape[p].kind.Race?)
      modifies this, bb.positions
      ensures Valid() && Res(Snap(), o) == ExecFrom(shape, w, old(Snap()), p, 0, Pending)
      decreases |shape| - p, 2, 0
    {
      var sig := Pending;
      var i := 0;
      while i < |shape[p].children|
        invariant Valid() && i <= |shape[p].children|
        invariant !sig.Aborted? && (sig.Finished() ==> !nodes[p].running)
        invariant ExecFrom(shape, w, Snap(), p, i, sig) == ExecFrom(shape, w, old(Snap()), p, 0, Pending)
        decreases |shape[p].children| - i
      {
        var r := NodeExecute(w, Child(shape, p, i));
        if r.Aborted? {
          o := r;
          return;
        }
        if r.Finished() {
          var d := Signal(w, p, i, r.Success?);
          if d.Aborted? {
            o := d;
            return;
          }
          if d.Finished() {
            sig := d;
          }
        }
        i := i + 1;
      }
      o := sig;
    }

    // -------------------------------------------------------------- signals

    /** INodeCaller::succeeded / failed of node p from the child in slot k. */
    method Signal(w: World, p: nat, k: nat, success: bool) returns (o: Outcome)
      requires Valid() && p < |shape| && k < |shape[p].children|
      modifies this, bb.positions
      ensures Valid() && Res(Snap(), o) == Done(shape, w, old(Snap()), p, k, success)
      decreases |shape| - p, 1, 0
    {
      NodeFacts(shape, p);
      match shape[p].kind {
        case Sequence => o := SequenceSignal(w, p, success);
        case Select => o := SelectSignal(w, p, success);
        case Parallel => o := ParallelSignal(w, p, k, success);
        case Race =>
          var ok := RaceCancelChildren(p, Some(Child(shape, p, k)), Some(k));
          if !ok {
            o := Aborted;
          } else {
            o := FinishNode(p, nodes[p], if success then Success else Failure);
          }
        case Predicate(_) =>
          o := FinishNode(p, nodes[p], if success then Success else Failure);
      }
    }

    method SequenceSignal(w: World, p: nat, success: bool) returns (o: Outcome)
      requires Valid() && p < |shape| && shape[p].kind.Sequence?
      modifies this, bb.positions
      ensures Valid() && Res(Snap(), o) == DoneSequence(shape, w, old(Snap()), p, success)
      decreases |shape| - p, 0, |shape[p].children| - nodes[p].current
    {
      var ns := nodes[p];
      if !success {
        o := FinishNode(p, ns.(current := 0), Failure);
        return;
      }
      var c := ns.current + 1;
      if c > |shape[p].children| {
        o := Aborted;
      } else if c == |shape[p].children| {
        o := FinishNode(p, ns.(current := 0), Success);
      } else {
        nodes := nodes[p := ns.(current := c)];
        o := NodeExecute(w, Child(shape, p, c));
        if o.Finished() {
          o := SequenceSignal(w, p, o.Success?);
        }
      }
    }

    method SelectSignal(w: World, p: nat, success: bool) returns (o: Outcome)
      requires Valid() && p < |shape| && shape[p].kind.Select?
      modifies this, bb.positions
      ensures Valid() && Res(Snap(), o) == DoneSelect(shape, w, old(Snap()), p, success)
      decreases |shape| - p, 0, |shape[p].children| - nodes[p].current
    {
      var ns := nodes[p];
      if success {
        o := FinishNode(p, ns.(current := 0), Success);
        return;
      }
      var c := ns.current + 1;
      if c > |shape[p].children| {
        o := Aborted;
      } else if c == |shape[p].children| {
        o := FinishNode(p, ns.(current := 0), Failure);
      } else {
        nodes := nodes[p := ns.(current := c)];
        o := NodeExecute(w, Child(shape, p, c));
        if o.Finished() {
          o := SelectSignal(w, p, o.Success?);
        }
      }
    }

    method ParallelSignal(w: World, p: nat, k: nat, success: bool) returns (o: Outcome)
      requires Valid() && p < |shape| && shape[p].kind.Parallel? && k < |shape[p].children|
      modifies this, bb.positions
      ensures Valid() && Res(Snap(), o) == DoneParallel(shape, w, old(Snap()), p, k, success)
      decreases |shape| - p, 0, 0
    {
      var ns := nodes[p];
      var size := |shape[p].children|;
      if |ns.childRunning| != size {
        o := Aborted;
        return;
      }
      ChildFinished(p, Child(shape, p, k), k);
      if success {
        if ns.finished + 1 == size {
          var v := nodes[p].(finished := 0, childRunning := Falses(size));
          o := FinishNode(p, v, Success);
        } else {
          nodes := nodes[p := nodes[p].(finished := ns.finished + 1)];
          o := Pending;
        }
      } else {
        var ok := ParallelCancelChildren(p);
        if !ok {
          o := Aborted;
        } else {
          o := FinishNode(p, nodes[p].(finished := 0, childRunning := Falses(size)), Failure);
        }
      }
    }

    /** ParallelNode::childFinished: clear the `running` entry of the child `which`. */
    method ChildFinished(p: nat, which: nat, ghost k: nat)
      requires Valid() && p < |shape| && k < |shape[p].children| && which == shape[p].children[k]
      requires |nodes[p].childRunning| == |shape[p].children|
      modifies this
      ensures Valid()
      ensures nodes == old(nodes)[p := old(nodes)[p].(childRunning := old(nodes)[p].childRunning[k := false])]
      ensures Snap() == SetNode(old(Snap()), p, old(nodes)[p].(childRunning := old(nodes)[p].childRunning[k := false]))
      ensures acting == old(acting) && reacting == old(reacting) && treeRunning == old(treeRunning)
    {
      var i := 0;
      while i < |shape[p].children|
        invariant i <= |shape[p].children|
        invariant nodes == old(nodes)[p := old(nodes)[p].(childRunning :=
          if k < i then old(nodes)[p].childRunning[k := false] else old(nodes)[p].childRunning)]
        invariant acting == old(acting) && reacting == old(reacting) && treeRunning == old(treeRunning)
      {
        if shape[p].children[i] == which {
          SlotsDistinct(shape, p, i, k);
          nodes := nodes[p := nodes[p].(childRunning := nodes[p].childRunning[i := false])];
        }
        i := i + 1;
      }
    }

    // -------------------------------------------------------------- cancel

    /** Node::cancel. */
    method NodeCancel(n: nat) returns (ok: bool)
      requires Valid() && n < |shape|
      modifies this
      ensures Valid() && Step(Snap(), ok) == Cancel(shape, old(Snap()), n)
      decreases |shape| - n, 2, 0
    {
      var ns := nodes[n];
      if !ns.running {
        ok := false;
        return;
      }
      nodes := nodes[n := ns.(running := false)];
      match shape[n].kind {
        case Sequence => ok := CancelCurrentChild(n);
        case Select => ok := CancelCurrentChild(n);
        case Parallel =>
          var size := |shape[n].children|;
          if |ns.childRunning| != size {
            ok := false;
          } else {
            ok := ParallelCancelChildren(n);
            if ok {
              nodes := nodes[n := ns.(running := false, finished := 0, childRunning := Falses(size))];
            }
          }
        case Race => ok := RaceCancelChildren(n, None, None);
        case Predicate(_) => ok := true;
        case WaitEvent(e) =>
          if (e, n) in reacting {
            reacting := reacting - multiset{(e, n)};
            ok := true;
          } else {
            ok := false;
          }
        case Fail => ok := true;
        case GetClosest(_, _) => ok := true;
        case MoveTo(_, _) =>
          acting := acting - {n};
          ok := true;
      }
    }

    /** Sequence/Select cancel body. */
    method CancelCurrentChild(n: nat) returns (ok: bool)
      requires Valid() && n < |shape| && (shape[n].kind.Sequence? || shape[n].kind.Select?)
      modifies this
      ensures Valid() && Step(Snap(), ok) == CancelCurrent(shape, old(Snap()), n)
      decreases |shape| - n, 1, 0
    {
      var c := nodes[n].current;
      if c >= |shape[n].children| {
        ok := false;
        return;
      }
      ok := NodeCancel(Child(shape, n, c));
      if ok {
        nodes := nodes[n := nodes[n].(current := 0)];
      }
    }

    /** ParallelNode::cancelChildren. */
    method ParallelCancelChildren(p: nat) returns (ok: bool)
      requires Valid() && p < |shape| && |nodes[p].childRunning| == |shape[p].children|
      modifies this
      ensures Valid() && Step(Snap(), ok) == CancelRunning(shape, old(Snap()), p, 0)
      decreases |shape| - p, 1, 0
    {
      var i := 0;
      while i < |shape[p].children|
        invariant Valid() && i <= |shape[p].children| && |nodes[p].childRunning| == |shape[p].children|
        invariant CancelRunning(shape, Snap(), p, i) == CancelRunning(shape, old(Snap()), p, 0)
        decreases |shape[p].children| - i
      {
        if nodes[p].childRunning[i] {
          ok := NodeCancel(Child(shape, p, i));
          if !ok {
            return;
          }
        }
        i := i + 1;
      }
      ok := true;
    }

    /** RaceNode::cancelChildren(except): `except` is the signalling child, None for
        nullptr; the ghost `slot` is its position among the children. */
    method RaceCancelChildren(p: nat, except: Option<nat>, ghost slot: Option<nat>) returns (ok: bool)
      requires Valid() && p < |shape|
      requires except.None? <==> slot.None?
      requires slot.Some? ==> slot.value < |shape[p].children| && except == Some(shape[p].children[slot.value])
      modifies this
      ensures Valid() && Step(Snap(), ok) == CancelOthers(shape, old(Snap()), p, 0, slot)
      decreases |shape| - p, 1, 0
    {
      var i := 0;
      while i < |shape[p].children|
        invariant Valid() && i <= |shape[p].children|
        invariant CancelOthers(shape, Snap(), p, i, slot) == CancelOthers(shape, old(Snap()), p, 0, slot)
        decreases |shape[p].children| - i
      {
        if slot.Some? && shape[p].children[i] == except.value {
          SlotsDistinct(shape, p, i, slot.value);
        }
        if Some(shape[p].children[i]) != except {
          ok := NodeCancel(Child(shape, p, i));
          if !ok {
            return;
          }
        }
        i := i + 1;
      }
      ok := true;
    }

    // -------------------------------------------------------------- act and the tree

    /** IActor::act. */
    method NodeAct(w: World, n: nat) returns (o: Outcome, action: Option<Actions.ActionType>)
      requires Valid() && n < |shape| && shape[n].kind.IsActor()
      modifies this
      ensures Valid() && ActRes(Snap(), o, action) == Act(shape, w, old(Snap()), n)
    {
      action := None;
      match shape[n].kind {
        case WaitEvent(e) =>
          if (e, n) !in reacting {
            o := Aborted;
          } else {
            reacting := reacting - multiset{(e, n)};
            o := FinishNode(n, nodes[n], Success);
          }
        case MoveTo(v, flee) =>
          var tgt := bb.GetPosition(v);
          if tgt.OutOfRange? {
            o := Aborted;
          } else {
            var step := MoveToStep(w.position, tgt.value, flee);
            if step.None? {
              acting := acting - {n};
              o := FinishNode(n, nodes[n], Success);
            } else {
              action := step;
              o := Pending;
            }
          }
      }
    }

    /** Deliver n's outcome to its owner and further up while nodes finish. */
    method Report(w: World, n: nat, o: Outcome) returns (top: Outcome)
      requires Valid() && n < |shape|
      modifies this, bb.positions
      ensures Valid() && Res(Snap(), top) == Propagate(shape, w, old(Snap()), n, o)
      decreases n
    {
      if !o.Finished() {
        top := o;
        return;
      }
      match OwnerOf(shape, n) {
        case Root =>
          treeRunning := false;
          top := o;
        case Parent(p, k) =>
          var d := Signal(w, p, k, o.Success?);
          top := Report(w, p, d);
      }
    }

    /** BehTree::execute. */
    method Execute(w: World) returns (o: Outcome)
      requires Valid()
      modifies this, bb.positions
      ensures Valid() && Res(Snap(), o) == TreeExecute(shape, w, old(Snap()))
    {
      if treeRunning {
        o := Pending;
        return;
      }
      treeRunning := true;
      var r := NodeExecute(w, 0);
      o := Report(w, 0, r);
    }

    /** A system calling act on node n of this tree. */
    method ActOn(w: World, n: nat) returns (o: Outcome, action: Option<Actions.ActionType>)
      requires Valid() && n < |shape| && shape[n].kind.IsActor()
      modifies this, bb.positions
      ensures Valid() && ActRes(Snap(), o, action) == TreeAct(shape, w, old(Snap()), n)
    {
      var a;
      a, action := NodeAct(w, n);
      o := Report(w, n, a);
    }
  }
}
