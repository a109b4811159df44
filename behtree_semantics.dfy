/** What executing, cancelling and signalling do to a behaviour tree
    (roguelike/sources/behTree.hpp, roguelike/sources/behTree.cpp and the two leaves of
    roguelike/sources/gameplay/behTreeLibrary.cpp), as functions on a snapshot of the
    per-node bookkeeping, the entity's registries and its blackboard.

    A node's success or failure travels to its owner as the Outcome of the call that
    caused it: `Exec` of a child that finishes at once returns Success or Failure and
    the parent then runs its `succeeded`/`failed` body (`Done`); a node that is still
    waiting returns Pending. An NG_ASSERT that fails, an uncaught exception and an
    out-of-range vector index all end the program: they are the outcome Aborted, and
    nothing is promised about the state then. */
module BehTreeSemantics {
  import opened Actions
  import opened BehTreeShape
  import opened BehTreeLibrary
  import opened Wrappers
  import Blackboard

  datatype Outcome = Success | Failure | Pending | Aborted
  {
    predicate Finished() {
      Success? || Failure?
    }
  }

  /** The mutable fields of one node: `running_` of every node, `current` of
      Sequence/Select, `finished` and the `running` vector of Parallel. */
  datatype NodeState = NodeState(running: bool, current: nat, finished: nat, childRunning: seq<bool>)

  /** The per-entity state a tree works on: its nodes' fields, ActingNodes (a set),
      ReactingNodes (a multimap from event to node, i.e. a multiset of pairs), the
      blackboard's vector slots and BehTree::running_. */
  datatype State = State(
    nodes: seq<NodeState>,
    acting: set<nat>,
    reacting: multiset<(string, nat)>,
    positions: seq<Vec2>,
    treeRunning: bool)

  /** What the nodes read from the world during one call: the entity's EventList, which
      predicates hold, what each query yields, and the entity's position. */
  datatype World = World(events: set<string>, guards: set<nat>, queries: nat -> seq<Candidate>, position: Vec2)

  datatype Res = Res(s: State, o: Outcome)

  /** The result of a cancel: the new state and whether no assertion failed. */
  datatype Step = Step(s: State, ok: bool)

  /** The result of act: also the action written into the entity's Action, if any. */
  datatype ActRes = ActRes(s: State, o: Outcome, action: Option<ActionType>)

  /** Value-initialised ivec2, what a grown blackboard slot holds. */
  const PositionDefault := Vec2(0, 0)

  ghost predicate Ready(sh: Shape, s: State) {
    WellFormed(sh) && |s.nodes| == |sh|
  }

  function Trues(n: nat): (r: seq<bool>)
    ensures |r| == n && forall i :: 0 <= i < n ==> r[i]
  {
    seq(n, _ => true)
  }

  function Falses(n: nat): (r: seq<bool>)
    ensures |r| == n && forall i :: 0 <= i < n ==> !r[i]
  {
    seq(n, _ => false)
  }

  function SetNode(s: State, n: nat, v: NodeState): State
    requires n < |s.nodes|
  {
    s.(nodes := s.nodes[n := v])
  }

  /** Child k of node p, with the placement facts a well-formed arena guarantees. */
  function Child(sh: Shape, p: nat, k: nat): (c: nat)
    requires WellFormed(sh) && p < |sh| && k < |sh[p].children|
    ensures c == sh[p].children[k]
    ensures p < c < sh[p].span <= |sh| && c < sh[c].span <= sh[p].span && sh[c].owner == Parent(p, k)
  {
    assert NodeOk(sh, 0, p);
    assert ChildOk(sh, 0, p, k);
    assert NodeOk(sh, 0, sh[p].children[k]);
    sh[p].children[k]
  }

  /** The owner `connect` gave node n: the tree for the root, its parent otherwise. */
  function OwnerOf(sh: Shape, n: nat): (o: Owner)
    requires WellFormed(sh) && n < |sh|
    ensures o == sh[n].owner && (o.Root? <==> n == 0)
    ensures o.Parent? ==> o.node < n && o.slot < |sh[o.node].children| && sh[o.node].children[o.slot] == n
  {
    assert n > 0 ==> OwnerIn(sh, 0, n);
    sh[n].owner
  }

  lemma NodeFacts(sh: Shape, n: nat)
    requires WellFormed(sh) && n < |sh|
    ensures n < sh[n].span <= |sh| && ArityOk(sh[n].kind, |sh[n].children|)
  {
    assert NodeOk(sh, 0, n);
  }

  /** Distinct slots of a node hold distinct children: each child's owner names its slot. */
  lemma SlotsDistinct(sh: Shape, p: nat, i: nat, k: nat)
    requires WellFormed(sh) && p < |sh| && i < |sh[p].children| && k < |sh[p].children|
    requires sh[p].children[i] == sh[p].children[k]
    ensures i == k
  {
    var ci := Child(sh, p, i);
    var ck := Child(sh, p, k);
    assert sh[ci].owner == Parent(p, i) && sh[ck].owner == Parent(p, k);
  }

  /** Only nodes of n's subtree [n, span) changed, no node was added or removed, no
      node outside the subtree gained or lost a registration (each node emplaces and
      erases only itself), and the tree's own running flag is untouched: only the root
      callback writes it. */
  ghost predicate Frame(sh: Shape, s: State, t: State, n: nat)
    requires n < |sh|
  {
    && |t.nodes| == |s.nodes| && t.treeRunning == s.treeRunning
    && (forall m :: 0 <= m < |s.nodes| && (m < n || sh[n].span <= m) ==> t.nodes[m] == s.nodes[m])
    && (forall m: nat :: (m < n || sh[n].span <= m) ==> (m in t.acting <==> m in s.acting))
    && (forall e: string, m: nat :: (m < n || sh[n].span <= m) ==> t.reacting[(e, m)] == s.reacting[(e, m)])
  }

  /** Executing node n: only its subtree changes; Pending leaves it running, and a
      finished node has stopped (it called succeed or fail). */
  ghost predicate ExecEffect(sh: Shape, s: State, r: Res, n: nat)
    requires n < |sh|
  {
    && |r.s.nodes| == |sh| && Frame(sh, s, r.s, n)
    && (r.o.Pending? ==> r.s.nodes[n].running)
    && (r.o.Finished() ==> !r.s.nodes[n].running)
  }

  /** Node p handling a signal: only its subtree changes; Pending leaves its flag as it
      was, and a finished node has stopped. */
  ghost predicate DoneEffect(sh: Shape, s: State, r: Res, p: nat)
    requires p < |sh| && |s.nodes| == |sh|
  {
    && |r.s.nodes| == |sh| && Frame(sh, s, r.s, p)
    && (r.o.Pending? ==> r.s.nodes[p].running == s.nodes[p].running)
    && (r.o.Finished() ==> !r.s.nodes[p].running)
  }

  /** Cancelling node n: only its subtree changes and, without an assertion failure, n
      is no longer running. */
  ghost predicate CancelEffect(sh: Shape, s: State, r: Step, n: nat)
    requires n < |sh|
  {
    |r.s.nodes| == |sh| && Frame(sh, s, r.s, n) && (r.ok ==> !r.s.nodes[n].running)
  }

  /** succeed()/fail(): stop() asserts the node is running and clears the flag; the
      outcome is the signal the owner receives. `v` is the node's fields as the body
      leaves them. */
  function Finish(s: State, n: nat, v: NodeState, o: Outcome): (r: Res)
    requires n < |s.nodes|
    ensures s.nodes[n].running ==> r == Res(SetNode(s, n, v.(running := false)), o)
    ensures !s.nodes[n].running ==> r == Res(s, Aborted)
  {
    if !s.nodes[n].running then Res(s, Aborted) else Res(SetNode(s, n, v.(running := false)), o)
  }

  // ---------------------------------------------------------------- execute

  /** Node::execute: start() asserts the node is idle and sets running_, then the
      node's own execute body runs. */
  function Exec(sh: Shape, w: World, s: State, n: nat): (r: Res)
    requires Ready(sh, s) && n < |sh|
    ensures ExecEffect(sh, s, r, n)
    ensures s.nodes[n].running ==> r == Res(s, Aborted)
    decreases |sh| - n, 4, 0
  {
    NodeFacts(sh, n);
    if s.nodes[n].running then Res(s, Aborted)
    else
      var s1 := SetNode(s, n, s.nodes[n].(running := true));
      match sh[n].kind
      case Sequence => ExecSequence(sh, w, s1, n)
      case Select => ExecSelect(sh, w, s1, n)
      case Parallel => ExecParallel(sh, w, s1, n)
      case Race => ExecFrom(sh, w, s1, n, 0, Pending)
      case Predicate(g) => ExecPredicate(sh, w, s1, n, g)
      case WaitEvent(e) =>
        if e in w.events then Finish(s1, n, s1.nodes[n], Success)
        else Res(s1.(reacting := s1.reacting + multiset{(e, n)}), Pending)
      case Fail => Finish(s1, n, s1.nodes[n], Failure)
      case GetClosest(q, v) =>
        (match ClosestPos(w.position, w.queries(q))
         case None => Finish(s1, n, s1.nodes[n], Failure)
         case Some(pos) =>
           Finish(s1.(positions := Blackboard.Assign(s1.positions, PositionDefault, v, pos)), n, s1.nodes[n], Success))
      case MoveTo(_, _) => Res(s1.(acting := s1.acting + {n}), Pending)
  }

  /** SequenceNode::execute: asserts current == 0; no children succeeds, otherwise the
      first child runs. */
  function ExecSequence(sh: Shape, w: World, s: State, n: nat): (r: Res)
    requires Ready(sh, s) && n < |sh| && sh[n].kind.Sequence? && s.nodes[n].running
    ensures ExecEffect(sh, s, r, n)
    decreases |sh| - n, 3, 0
  {
    NodeFacts(sh, n);
    if s.nodes[n].current != 0 then Res(s, Aborted)
    else if |sh[n].children| == 0 then Finish(s, n, s.nodes[n], Success)
    else
      var r := Exec(sh, w, s, Child(sh, n, 0));
      if r.o.Finished() then DoneSequence(sh, w, r.s, n, r.o.Success?) else r
  }

  /** SelectNode::execute: asserts current == 0; no children fails, otherwise the first
      child runs. */
  function ExecSelect(sh: Shape, w: World, s: State, n: nat): (r: Res)
    requires Ready(sh, s) && n < |sh| && sh[n].kind.Select? && s.nodes[n].running
    ensures ExecEffect(sh, s, r, n)
    decreases |sh| - n, 3, 0
  {
    NodeFacts(sh, n);
    if s.nodes[n].current != 0 then Res(s, Aborted)
    else if |sh[n].children| == 0 then Finish(s, n, s.nodes[n], Failure)
    else
      var r := Exec(sh, w, s, Child(sh, n, 0));
      if r.o.Finished() then DoneSelect(sh, w, r.s, n, r.o.Success?) else r
  }

  /** ParallelNode::execute: asserts finished == 0; no children succeeds, otherwise
      every child is marked running and executed in order. */
  function ExecParallel(sh: Shape, w: World, s: State, n: nat): (r: Res)
    requires Ready(sh, s) && n < |sh| && sh[n].kind.Parallel? && s.nodes[n].running
    ensures ExecEffect(sh, s, r, n)
    decreases |sh| - n, 3, 0
  {
    NodeFacts(sh, n);
    var ns := s.nodes[n];
    if ns.finished != 0 then Res(s, Aborted)
    else if |sh[n].children| == 0 then Finish(s, n, ns, Success)
    else ExecFrom(sh, w, SetNode(s, n, ns.(childRunning := Trues(|sh[n].children|))), n, 0, Pending)
  }

  /** PredicateNode::execute: a false predicate fails, otherwise the adapted node runs. */
  function ExecPredicate(sh: Shape, w: World, s: State, n: nat, g: nat): (r: Res)
    requires Ready(sh, s) && n < |sh| && sh[n].kind == Predicate(g) && s.nodes[n].running
    ensures ExecEffect(sh, s, r, n)
    decreases |sh| - n, 3, 0
  {
    NodeFacts(sh, n);
    if g !in w.guards then Finish(s, n, s.nodes[n], Failure)
    else
      var r := Exec(sh, w, s, Child(sh, n, 0));
      if r.o.Finished() then Finish(r.s, n, r.s.nodes[n], if r.o.Success? then Success else Failure) else r
  }

  /** The `for (child : children) child->execute()` loop of Parallel and Race from child
      i on. A child that finishes at once is handled by the parent's body right away;
      `sig` is the signal the parent has already given its owner, Pending if none. */
  function ExecFrom(sh: Shape, w: World, s: State, p: nat, i: nat, sig: Outcome): (r: Res)
    requires Ready(sh, s) && p < |sh| && (sh[p].kind.Parallel? || sh[p].kind.Race?) && i <= |sh[p].children|
    requires !sig.Aborted? && (sig.Finished() ==> !s.nodes[p].running)
    ensures DoneEffect(sh, s, r, p)
    ensures sig.Finished() ==> !r.o.Pending?
    decreases |sh| - p, 2, |sh[p].children| - i
  {
    NodeFacts(sh, p);
    if i == |sh[p].children| then Res(s, sig)
    else
      var r := Exec(sh, w, s, Child(sh, p, i));
      if r.o.Aborted? then r
      else if r.o.Pending? then ExecFrom(sh, w, r.s, p, i + 1, sig)
      else
        var d := Done(sh, w, r.s, p, i, r.o.Success?);
        if d.o.Aborted? then d
        else ExecFrom(sh, w, d.s, p, i + 1, if d.o.Pending? then sig else d.o)
  }

  // ---------------------------------------------------------------- signals

  /** INodeCaller::succeeded / failed of node p, called by its child in slot k. */
  function Done(sh: Shape, w: World, s: State, p: nat, k: nat, success: bool): (r: Res)
    requires Ready(sh, s) && p < |sh| && k < |sh[p].children|
    ensures DoneEffect(sh, s, r, p)
    decreases |sh| - p, 1, 0
  {
    NodeFacts(sh, p);
    match sh[p].kind
    case Sequence => DoneSequence(sh, w, s, p, success)
    case Select => DoneSelect(sh, w, s, p, success)
    case Parallel => DoneParallel(sh, w, s, p, k, success)
    case Race =>
      var c := CancelOthers(sh, s, p, 0, Some(k));
      if !c.ok then Res(c.s, Aborted)
      else Finish(c.s, p, c.s.nodes[p], if success then Success else Failure)
    case Predicate(_) => Finish(s, p, s.nodes[p], if success then Success else Failure)
  }

  /** SequenceNode::succeeded advances `current` and runs the next child, succeeding
      after the last one; failed fails. Both reset `current` when the node finishes. */
  function DoneSequence(sh: Shape, w: World, s: State, p: nat, success: bool): (r: Res)
    requires Ready(sh, s) && p < |sh| && sh[p].kind.Sequence?
    ensures DoneEffect(sh, s, r, p)
    decreases |sh| - p, 0, |sh[p].children| - s.nodes[p].current
  {
    NodeFacts(sh, p);
    var ns := s.nodes[p];
    if !success then Finish(s, p, ns.(current := 0), Failure)
    else
      var c := ns.current + 1;
      if c > |sh[p].children| then Res(s, Aborted)
      else if c == |sh[p].children| then Finish(s, p, ns.(current := 0), Success)
      else
        var r := Exec(sh, w, SetNode(s, p, ns.(current := c)), Child(sh, p, c));
        if r.o.Finished() then DoneSequence(sh, w, r.s, p, r.o.Success?) else r
  }

  /** SelectNode: the dual of DoneSequence. */
  function DoneSelect(sh: Shape, w: World, s: State, p: nat, success: bool): (r: Res)
    requires Ready(sh, s) && p < |sh| && sh[p].kind.Select?
    ensures DoneEffect(sh, s, r, p)
    decreases |sh| - p, 0, |sh[p].children| - s.nodes[p].current
  {
    NodeFacts(sh, p);
    var ns := s.nodes[p];
    if success then Finish(s, p, ns.(current := 0), Success)
    else
      var c := ns.current + 1;
      if c > |sh[p].children| then Res(s, Aborted)
      else if c == |sh[p].children| then Finish(s, p, ns.(current := 0), Failure)
      else
        var r := Exec(sh, w, SetNode(s, p, ns.(current := c)), Child(sh, p, c));
        if r.o.Finished() then DoneSelect(sh, w, r.s, p, r.o.Success?) else r
  }

  /** ParallelNode: the signalling child is no longer running; a success counts towards
      `finished` and the node succeeds when every child has; a failure cancels the
      children still marked running and fails. Finishing clears the bookkeeping. */
  function DoneParallel(sh: Shape, w: World, s: State, p: nat, k: nat, success: bool): (r: Res)
    requires Ready(sh, s) && p < |sh| && sh[p].kind.Parallel? && k < |sh[p].children|
    ensures DoneEffect(sh, s, r, p)
    decreases |sh| - p, 0, 0
  {
    NodeFacts(sh, p);
    var ns := s.nodes[p];
    var size := |sh[p].children|;
    if |ns.childRunning| != size then Res(s, Aborted)
    else
      var ns1 := ns.(childRunning := ns.childRunning[k := false]);
      if success then
        if ns.finished + 1 == size then Finish(SetNode(s, p, ns1), p, ns1.(finished := 0, childRunning := Falses(size)), Success)
        else Res(SetNode(s, p, ns1.(finished := ns.finished + 1)), Pending)
      else
        var c := CancelRunning(sh, SetNode(s, p, ns1), p, 0);
        if !c.ok then Res(c.s, Aborted)
        else Finish(c.s, p, ns1.(finished := 0, childRunning := Falses(size)), Failure)
  }

  // ---------------------------------------------------------------- cancel

  /** Node::cancel: stop() asserts the node is running and clears the flag, then the
      node's own cancel body runs. The owner is never signalled. */
  function Cancel(sh: Shape, s: State, n: nat): (r: Step)
    requires Ready(sh, s) && n < |sh|
    ensures CancelEffect(sh, s, r, n)
    ensures !s.nodes[n].running ==> !r.ok
    decreases |sh| - n, 2, 0
  {
    NodeFacts(sh, n);
    var ns := s.nodes[n];
    if !ns.running then Step(s, false)
    else
      var s1 := SetNode(s, n, ns.(running := false));
      match sh[n].kind
      case Sequence => CancelCurrent(sh, s1, n)
      case Select => CancelCurrent(sh, s1, n)
      case Parallel =>
        var size := |sh[n].children|;
        if |ns.childRunning| != size then Step(s1, false)
        else
          var c := CancelRunning(sh, s1, n, 0);
          if !c.ok then c
          else Step(SetNode(c.s, n, ns.(running := false, finished := 0, childRunning := Falses(size))), true)
      case Race => CancelOthers(sh, s1, n, 0, None)
      case Predicate(_) => Step(s1, true)
      case WaitEvent(e) =>
        if (e, n) in s1.reacting then Step(s1.(reacting := s1.reacting - multiset{(e, n)}), true)
        else Step(s1, false)
      case Fail => Step(s1, true)
      case GetClosest(_, _) => Step(s1, true)
      case MoveTo(_, _) => Step(s1.(acting := s1.acting - {n}), true)
  }

  /** Sequence/Select cancel body: cancel children[current], then current = 0. */
  function CancelCurrent(sh: Shape, s: State, n: nat): (r: Step)
    requires Ready(sh, s) && n < |sh| && (sh[n].kind.Sequence? || sh[n].kind.Select?)
    ensures |r.s.nodes| == |sh| && Frame(sh, s, r.s, n) && r.s.nodes[n].running == s.nodes[n].running
    decreases |sh| - n, 1, 0
  {
    NodeFacts(sh, n);
    var c := s.nodes[n].current;
    if c >= |sh[n].children| then Step(s, false)
    else
      var r := Cancel(sh, s, Child(sh, n, c));
      if !r.ok then r
      else Step(SetNode(r.s, n, r.s.nodes[n].(current := 0)), true)
  }

  /** ParallelNode::cancelChildren from child i on: cancel each child whose `running`
      entry is set. */
  function CancelRunning(sh: Shape, s: State, p: nat, i: nat): (r: Step)
    requires Ready(sh, s) && p < |sh| && i <= |sh[p].children| && |s.nodes[p].childRunning| == |sh[p].children|
    ensures |r.s.nodes| == |sh| && Frame(sh, s, r.s, p) && r.s.nodes[p] == s.nodes[p]
    decreases |sh| - p, 1, |sh[p].children| - i
  {
    if i == |sh[p].children| then Step(s, true)
    else if s.nodes[p].childRunning[i] then
      var c := Cancel(sh, s, Child(sh, p, i));
      if !c.ok then c else CancelRunning(sh, c.s, p, i + 1)
    else CancelRunning(sh, s, p, i + 1)
  }

  /** RaceNode::cancelChildren(except) from child i on: cancel every child but the one
      in slot `except`, whether it is running or not. */
  function CancelOthers(sh: Shape, s: State, p: nat, i: nat, except: Option<nat>): (r: Step)
    requires Ready(sh, s) && p < |sh| && i <= |sh[p].children|
    ensures |r.s.nodes| == |sh| && Frame(sh, s, r.s, p) && r.s.nodes[p] == s.nodes[p]
    decreases |sh| - p, 1, |sh[p].children| - i
  {
    if i == |sh[p].children| then Step(s, true)
    else if except == Some(i) then CancelOthers(sh, s, p, i + 1, except)
    else
      var c := Cancel(sh, s, Child(sh, p, i));
      if !c.ok then c else CancelOthers(sh, c.s, p, i + 1, except)
  }

  // ---------------------------------------------------------------- act and the tree

  /** IActor::act of a registered leaf. WaitEvent: remove its ReactingNodes entry (an
      assertion checks there is one), then succeed. MoveTo: read the target from the
      blackboard (an unset slot throws); at the target deregister and succeed, otherwise
      write the step towards (or, fleeing, away from) it and keep waiting. */
  function Act(sh: Shape, w: World, s: State, n: nat): (r: ActRes)
    requires Ready(sh, s) && n < |sh| && sh[n].kind.IsActor()
    ensures DoneEffect(sh, s, Res(r.s, r.o), n)
    decreases 0
  {
    NodeFacts(sh, n);
    match sh[n].kind
    case WaitEvent(e) =>
      if (e, n) !in s.reacting then ActRes(s, Aborted, None)
      else
        var s1 := s.(reacting := s.reacting - multiset{(e, n)});
        var f := Finish(s1, n, s1.nodes[n], Success);
        ActRes(f.s, f.o, None)
    case MoveTo(v, flee) =>
      if v >= |s.positions| then ActRes(s, Aborted, None)
      else
        match MoveToStep(w.position, s.positions[v], flee)
        case None =>
          var s1 := s.(acting := s.acting - {n});
          var f := Finish(s1, n, s1.nodes[n], Success);
          ActRes(f.s, f.o, None)
        case Some(a) => ActRes(s, Pending, Some(a))
  }

  /** Deliver node n's outcome to its owner, and so on up while nodes finish; the
      root's owner is the tree's callback, which clears BehTree::running_. */
  function Propagate(sh: Shape, w: World, s: State, n: nat, o: Outcome): (r: Res)
    requires Ready(sh, s) && n < |sh|
    ensures |r.s.nodes| == |sh|
    ensures !o.Finished() ==> r == Res(s, o)
    ensures r.o.Finished() ==> !r.s.treeRunning
    ensures r.o.Pending? ==> r.s.treeRunning == s.treeRunning
    decreases n
  {
    if !o.Finished() then Res(s, o)
    else
      match OwnerOf(sh, n)
      case Root => Res(s.(treeRunning := false), o)
      case Parent(p, k) =>
        var d := Done(sh, w, s, p, k, o.Success?);
        Propagate(sh, w, d.s, p, d.o)
  }

  /** BehTree::execute: nothing while the tree is running; otherwise mark it running
      and execute the root. */
  function TreeExecute(sh: Shape, w: World, s: State): (r: Res)
    requires Ready(sh, s)
    ensures |r.s.nodes| == |sh|
    ensures s.treeRunning ==> r == Res(s, Pending)
    ensures !s.treeRunning && r.o.Pending? ==> r.s.treeRunning
    ensures r.o.Finished() ==> !r.s.treeRunning
  {
    if s.treeRunning then Res(s, Pending)
    else
      var r := Exec(sh, w, s.(treeRunning := true), 0);
      Propagate(sh, w, r.s, 0, r.o)
  }

  /** A system calling act on a registered node: the node acts, then its outcome
      travels up. */
  function TreeAct(sh: Shape, w: World, s: State, n: nat): (r: ActRes)
    requires Ready(sh, s) && n < |sh| && sh[n].kind.IsActor()
    ensures |r.s.nodes| == |sh|
  {
    var a := Act(sh, w, s, n);
    var p := Propagate(sh, w, a.s, n, a.o);
    ActRes(p.s, p.o, a.action)
  }
}
