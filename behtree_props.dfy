/** Properties of the behaviour-tree semantics: what each node kind promises when it is
    executed, signalled, cancelled or asked to act, stated on BehTreeSemantics. */
module BehTreeProperties {
  import Actions
  import opened BehTreeShape
  import opened BehTreeLibrary
  import opened Wrappers
  import opened BehTreeSemantics
  import Blackboard

  /** The state with node n marked running and nothing else changed. */
  function Started(s: State, n: nat): (t: State)
    requires n < |s.nodes|
    ensures |t.nodes| == |s.nodes| && t.nodes[n].running
    ensures forall m :: 0 <= m < |s.nodes| && m != n ==> t.nodes[m] == s.nodes[m]
  {
    SetNode(s, n, s.nodes[n].(running := true))
  }

  /** The state with node n's flag cleared and nothing else changed. */
  function Stopped(s: State, n: nat): (t: State)
    requires n < |s.nodes|
    ensures |t.nodes| == |s.nodes| && !t.nodes[n].running
    ensures forall m :: 0 <= m < |s.nodes| && m != n ==> t.nodes[m] == s.nodes[m]
  {
    SetNode(s, n, s.nodes[n].(running := false))
  }

  // ---------------------------------------------------------------- structure

  /** The node a Predicate adapts: its only child. */
  function Adapted(sh: Shape, n: nat): (c: nat)
    requires WellFormed(sh) && n < |sh| && sh[n].kind.Predicate?
    ensures |sh[n].children| == 1 && c == sh[n].children[0] && n < c < |sh|
  {
    NodeFacts(sh, n);
    Child(sh, n, 0)
  }

  /** Later children of a node start after the whole subtree of an earlier one ends, so
      the subtrees of distinct children are disjoint. */
  lemma {:induction false} SiblingsDisjoint(sh: Shape, p: nat, j: nat, k: nat)
    requires WellFormed(sh) && p < |sh| && j < k < |sh[p].children|
    ensures sh[Child(sh, p, j)].span <= Child(sh, p, k)
    decreases k - j
  {
    NodeFacts(sh, p);
    var c := Child(sh, p, k);
    assert NodeOk(sh, 0, p);
    assert ChildOk(sh, 0, p, k);
    if j < k - 1 {
      SiblingsDisjoint(sh, p, j, k - 1);
      var prev := Child(sh, p, k - 1);
    }
  }

  // ---------------------------------------------------------------- node protocol

  /** Node::execute (the header's wrapper): executing a node that is already running is
      the failed `start` assertion, and it changes nothing. */
  lemma ExecRunningAborts(sh: Shape, w: World, s: State, n: nat)
    requires Ready(sh, s) && n < |sh| && s.nodes[n].running
    ensures Exec(sh, w, s, n) == Res(s, Aborted)
  {
  }

  /** Cancelling a node never reaches its owner: the owner's fields, every node outside
      the cancelled subtree and the tree's running flag stay as they were. */
  lemma CancelNeverSignals(sh: Shape, s: State, n: nat)
    requires Ready(sh, s) && 0 < n < |sh|
    ensures OwnerOf(sh, n).Parent?
    ensures Cancel(sh, s, n).s.nodes[OwnerOf(sh, n).node] == s.nodes[OwnerOf(sh, n).node]
    ensures Cancel(sh, s, n).s.treeRunning == s.treeRunning
  {
    var o := OwnerOf(sh, n);
    NodeFacts(sh, n);
    assert o.node < n;
  }

  /** InstantActionNode (Fail, get_closest): cancel only clears the node's flag. */
  lemma InstantCancel(sh: Shape, s: State, n: nat)
    requires Ready(sh, s) && n < |sh| && (sh[n].kind.Fail? || sh[n].kind.GetClosest?)
    ensures s.nodes[n].running ==> Cancel(sh, s, n) == Step(Stopped(s, n), true)
    ensures !s.nodes[n].running ==> Cancel(sh, s, n) == Step(s, false)
  {
  }

  // ---------------------------------------------------------------- Sequence and Select

  /** An empty Sequence succeeds as soon as it is executed, an empty Select fails, and
      either ends exactly where it started. */
  lemma EmptyComposites(sh: Shape, w: World, s: State, n: nat)
    requires Ready(sh, s) && n < |sh| && |sh[n].children| == 0
    requires !s.nodes[n].running && s.nodes[n].current == 0
    ensures sh[n].kind.Sequence? ==> Exec(sh, w, s, n) == Res(s, Success)
    ensures sh[n].kind.Select? ==> Exec(sh, w, s, n) == Res(s, Failure)
  {
    assert SetNode(Started(s, n), n, s.nodes[n]) == s;
  }

  /** What SequenceNode and SelectNode promise about `current` when handling a signal:
      while the node waits, `current` has moved forward and is a valid child index; when
      it finishes it has stopped and reset `current` to 0. */
  ghost predicate Progressed(sh: Shape, s: State, p: nat, r: Res)
    requires p < |sh| && p < |s.nodes| && p < |r.s.nodes|
  {
    && (r.o.Pending? ==> s.nodes[p].current < r.s.nodes[p].current < |sh[p].children| && r.s.nodes[p].running)
    && (r.o.Finished() ==> r.s.nodes[p].current == 0 && !r.s.nodes[p].running)
  }

  /** One step of SequenceNode::succeeded: the next child runs with `current` advanced,
      and the Sequence goes on only when that child finished at once. */
  lemma SequenceStep(sh: Shape, w: World, s: State, p: nat) returns (t: State, o: Outcome)
    requires Ready(sh, s) && p < |sh| && sh[p].kind.Sequence?
    requires s.nodes[p].current + 1 < |sh[p].children|
    ensures Ready(sh, t) && t.nodes[p] == s.nodes[p].(current := s.nodes[p].current + 1)
    ensures DoneSequence(sh, w, s, p, true) == if o.Finished() then DoneSequence(sh, w, t, p, o.Success?) else Res(t, o)
  {
    var ns := s.nodes[p].(current := s.nodes[p].current + 1);
    var r := Exec(sh, w, SetNode(s, p, ns), Child(sh, p, ns.current));
    t, o := r.s, r.o;
  }

  /** SequenceNode::failed, and succeeded after the last child: the node finishes, stopped
      and with `current` reset. */
  lemma SequenceEnd(sh: Shape, w: World, s: State, p: nat, success: bool)
    requires Ready(sh, s) && p < |sh| && sh[p].kind.Sequence? && s.nodes[p].running
    requires !success || s.nodes[p].current + 1 >= |sh[p].children|
    ensures Progressed(sh, s, p, DoneSequence(sh, w, s, p, success))
  {
    var ns := s.nodes[p];
    if !success {
      assert DoneSequence(sh, w, s, p, success) == Finish(s, p, ns.(current := 0), Failure);
    } else if ns.current + 1 == |sh[p].children| {
      assert DoneSequence(sh, w, s, p, success) == Finish(s, p, ns.(current := 0), Success);
    } else {
      assert DoneSequence(sh, w, s, p, success) == Res(s, Aborted);
    }
  }

  /** SequenceNode::succeeded/failed: while the Sequence waits, `current` only ever
      moves forward and stays a valid child index; when it finishes it has stopped and
      reset `current` to 0. */
  lemma {:induction false} SequenceProgress(sh: Shape, w: World, s: State, p: nat, success: bool)
    requires Ready(sh, s) && p < |sh| && sh[p].kind.Sequence? && s.nodes[p].running
    ensures Progressed(sh, s, p, DoneSequence(sh, w, s, p, success))
    decreases |sh[p].children| - s.nodes[p].current
  {
    var ns := s.nodes[p];
    if success && ns.current + 1 < |sh[p].children| {
      var t, o := SequenceStep(sh, w, s, p);
      if o.Finished() {
        SequenceProgress(sh, w, t, p, o.Success?);
      }
    } else {
      SequenceEnd(sh, w, s, p, success);
    }
  }

  /** One step of SelectNode::failed: the dual of SequenceStep. */
  lemma SelectStep(sh: Shape, w: World, s: State, p: nat) returns (t: State, o: Outcome)
    requires Ready(sh, s) && p < |sh| && sh[p].kind.Select?
    requires s.nodes[p].current + 1 < |sh[p].children|
    ensures Ready(sh, t) && t.nodes[p] == s.nodes[p].(current := s.nodes[p].current + 1)
    ensures DoneSelect(sh, w, s, p, false) == if o.Finished() then DoneSelect(sh, w, t, p, o.Success?) else Res(t, o)
  {
    var ns := s.nodes[p].(current := s.nodes[p].current + 1);
    var r := Exec(sh, w, SetNode(s, p, ns), Child(sh, p, ns.current));
    t, o := r.s, r.o;
  }

  /** SelectNode::succeeded, and failed after the last child: the dual of SequenceEnd. */
  lemma SelectEnd(sh: Shape, w: World, s: State, p: nat, success: bool)
    requires Ready(sh, s) && p < |sh| && sh[p].kind.Select? && s.nodes[p].running
    requires success || s.nodes[p].current + 1 >= |sh[p].children|
    ensures Progressed(sh, s, p, DoneSelect(sh, w, s, p, success))
  {
    var ns := s.nodes[p];
    if success {
      assert DoneSelect(sh, w, s, p, success) == Finish(s, p, ns.(current := 0), Success);
    } else if ns.current + 1 == |sh[p].children| {
      assert DoneSelect(sh, w, s, p, success) == Finish(s, p, ns.(current := 0), Failure);
    } else {
      assert DoneSelect(sh, w, s, p, success) == Res(s, Aborted);
    }
  }

  /** SelectNode: the dual of SequenceProgress. */
  lemma {:induction false} SelectProgress(sh: Shape, w: World, s: State, p: nat, success: bool)
    requires Ready(sh, s) && p < |sh| && sh[p].kind.Select? && s.nodes[p].running
    ensures Progressed(sh, s, p, DoneSelect(sh, w, s, p, success))
    decreases |sh[p].children| - s.nodes[p].current
  {
    var ns := s.nodes[p];
    if !success && ns.current + 1 < |sh[p].children| {
      var t, o := SelectStep(sh, w, s, p);
      if o.Finished() {
        SelectProgress(sh, w, t, p, o.Success?);
      }
    } else {
      SelectEnd(sh, w, s, p, success);
    }
  }

  /** A failing child fails its Sequence at once: no later child is executed and nothing
      but the Sequence's own fields changes. A succeeding child does the same to a
      Select. */
  lemma DecisiveChild(sh: Shape, w: World, s: State, p: nat)
    requires Ready(sh, s) && p < |sh| && s.nodes[p].running
    ensures sh[p].kind.Sequence? ==>
      DoneSequence(sh, w, s, p, false) == Res(SetNode(s, p, s.nodes[p].(running := false, current := 0)), Failure)
    ensures sh[p].kind.Select? ==>
      DoneSelect(sh, w, s, p, true) == Res(SetNode(s, p, s.nodes[p].(running := false, current := 0)), Success)
  {
  }

  /** After its last child succeeds a Sequence succeeds, once, and resets `current`;
      after its last child fails a Select fails and resets `current`. */
  lemma LastChild(sh: Shape, w: World, s: State, p: nat)
    requires Ready(sh, s) && p < |sh| && s.nodes[p].running
    requires s.nodes[p].current + 1 == |sh[p].children|
    ensures sh[p].kind.Sequence? ==>
      DoneSequence(sh, w, s, p, true) == Res(SetNode(s, p, s.nodes[p].(running := false, current := 0)), Success)
    ensures sh[p].kind.Select? ==>
      DoneSelect(sh, w, s, p, false) == Res(SetNode(s, p, s.nodes[p].(running := false, current := 0)), Failure)
  {
  }

  // ---------------------------------------------------------------- Parallel and Race

  /** ParallelNode::succeeded: the Parallel succeeds exactly when this success brings
      `finished` up to the number of children; otherwise it counts the success, clears
      the child's `running` entry and keeps waiting. Succeeding clears the bookkeeping. */
  lemma ParallelSuccessCounts(sh: Shape, w: World, s: State, p: nat, k: nat)
    requires Ready(sh, s) && p < |sh| && sh[p].kind.Parallel? && k < |sh[p].children|
    requires s.nodes[p].running && |s.nodes[p].childRunning| == |sh[p].children|
    ensures var r := DoneParallel(sh, w, s, p, k, true);
      && (r.o == Success <==> s.nodes[p].finished + 1 == |sh[p].children|)
      && (r.o == Pending <==> s.nodes[p].finished + 1 != |sh[p].children|)
      && (r.o == Success ==> r.s == SetNode(s, p,
            s.nodes[p].(running := false, finished := 0, childRunning := Falses(|sh[p].children|))))
      && (r.o == Pending ==> r.s == SetNode(s, p,
            s.nodes[p].(finished := s.nodes[p].finished + 1, childRunning := s.nodes[p].childRunning[k := false])))
  {
  }

  /** Nodes lo .. hi-1 are the same in t as in s. */
  ghost predicate Untouched(s: State, t: State, lo: nat, hi: nat)
    requires |t.nodes| == |s.nodes|
  {
    forall m :: lo <= m < hi && m < |s.nodes| ==> t.nodes[m] == s.nodes[m]
  }

  /** ParallelNode::cancelChildren from child i on leaves every node before child i as it
      was. */
  lemma {:induction false} CancelRunningBefore(sh: Shape, s: State, p: nat, i: nat, m: nat)
    requires Ready(sh, s) && p < |sh| && i < |sh[p].children| && |s.nodes[p].childRunning| == |sh[p].children|
    requires m < Child(sh, p, i)
    ensures CancelRunning(sh, s, p, i).s.nodes[m] == s.nodes[m]
    decreases |sh[p].children| - i
  {
    var c := Child(sh, p, i);
    var s1 := if s.nodes[p].childRunning[i] then Cancel(sh, s, c).s else s;
    if s.nodes[p].childRunning[i] && !Cancel(sh, s, c).ok {
      assert CancelRunning(sh, s, p, i) == Cancel(sh, s, c);
    } else {
      assert CancelRunning(sh, s, p, i) == CancelRunning(sh, s1, p, i + 1);
      assert s1.nodes[m] == s.nodes[m] && s1.nodes[p] == s.nodes[p];
      if i + 1 < |sh[p].children| {
        SiblingsDisjoint(sh, p, i, i + 1);
        CancelRunningBefore(sh, s1, p, i + 1, m);
      }
    }
  }

  /** ParallelNode::cancelChildren from child i on does not touch the subtree of a later
      child j whose `running` entry is clear. */
  lemma {:induction false} CancelRunningSkips(sh: Shape, s: State, p: nat, i: nat, j: nat, m: nat)
    requires Ready(sh, s) && p < |sh| && i <= j < |sh[p].children| && |s.nodes[p].childRunning| == |sh[p].children|
    requires !s.nodes[p].childRunning[j]
    requires Child(sh, p, j) <= m < sh[Child(sh, p, j)].span
    ensures CancelRunning(sh, s, p, i).s.nodes[m] == s.nodes[m]
    decreases |sh[p].children| - i
  {
    var c := Child(sh, p, i);
    if i == j {
      assert CancelRunning(sh, s, p, i) == CancelRunning(sh, s, p, i + 1);
      if i + 1 < |sh[p].children| {
        SiblingsDisjoint(sh, p, i, i + 1);
        CancelRunningBefore(sh, s, p, i + 1, m);
      }
    } else {
      SiblingsDisjoint(sh, p, i, j);
      var s1 := if s.nodes[p].childRunning[i] then Cancel(sh, s, c).s else s;
      if s.nodes[p].childRunning[i] && !Cancel(sh, s, c).ok {
        assert CancelRunning(sh, s, p, i) == Cancel(sh, s, c);
      } else {
        assert CancelRunning(sh, s, p, i) == CancelRunning(sh, s1, p, i + 1);
        assert s1.nodes[m] == s.nodes[m] && s1.nodes[p] == s.nodes[p];
        CancelRunningSkips(sh, s1, p, i + 1, j, m);
      }
    }
  }

  /** ParallelNode::cancelChildren from child i on, without a failed assertion, stops a
      later child j whose `running` entry is set. */
  lemma {:induction false} CancelRunningStops(sh: Shape, s: State, p: nat, i: nat, j: nat)
    requires Ready(sh, s) && p < |sh| && i <= j < |sh[p].children| && |s.nodes[p].childRunning| == |sh[p].children|
    requires s.nodes[p].childRunning[j]
    ensures CancelRunning(sh, s, p, i).ok ==> !CancelRunning(sh, s, p, i).s.nodes[Child(sh, p, j)].running
    decreases |sh[p].children| - i
  {
    var c := Child(sh, p, i);
    var s1 := if s.nodes[p].childRunning[i] then Cancel(sh, s, c).s else s;
    if s.nodes[p].childRunning[i] && !Cancel(sh, s, c).ok {
      assert CancelRunning(sh, s, p, i) == Cancel(sh, s, c);
    } else {
      assert CancelRunning(sh, s, p, i) == CancelRunning(sh, s1, p, i + 1);
      assert s1.nodes[p] == s.nodes[p];
      if i == j {
        assert !s1.nodes[c].running;
        if i + 1 < |sh[p].children| {
          SiblingsDisjoint(sh, p, i, i + 1);
          CancelRunningBefore(sh, s1, p, i + 1, c);
        }
      } else {
        SiblingsDisjoint(sh, p, i, j);
        CancelRunningStops(sh, s1, p, i + 1, j);
      }
    }
  }

  /** ParallelNode::cancelChildren from child i on: nothing before child i changes, the
      children whose `running` entry is clear are not touched at all, and without a
      failed assertion every child whose entry is set has stopped. */
  lemma CancelRunningEffect(sh: Shape, s: State, p: nat, i: nat)
    requires Ready(sh, s) && p < |sh| && i <= |sh[p].children| && |s.nodes[p].childRunning| == |sh[p].children|
    ensures var r := CancelRunning(sh, s, p, i);
      && (i < |sh[p].children| ==> Untouched(s, r.s, 0, Child(sh, p, i)))
      && (forall j :: i <= j < |sh[p].children| && !s.nodes[p].childRunning[j] ==>
            Untouched(s, r.s, Child(sh, p, j), sh[Child(sh, p, j)].span))
      && (r.ok ==> forall j :: i <= j < |sh[p].children| && s.nodes[p].childRunning[j] ==>
            !r.s.nodes[Child(sh, p, j)].running)
  {
    var r := CancelRunning(sh, s, p, i);
    if i < |sh[p].children| {
      forall m | 0 <= m < Child(sh, p, i) && m < |s.nodes| ensures r.s.nodes[m] == s.nodes[m] {
        CancelRunningBefore(sh, s, p, i, m);
      }
    }
    forall j | i <= j < |sh[p].children| && !s.nodes[p].childRunning[j]
      ensures Untouched(s, r.s, Child(sh, p, j), sh[Child(sh, p, j)].span)
    {
      forall m | Child(sh, p, j) <= m < sh[Child(sh, p, j)].span && m < |s.nodes|
        ensures r.s.nodes[m] == s.nodes[m]
      {
        CancelRunningSkips(sh, s, p, i, j, m);
      }
    }
    forall j | i <= j < |sh[p].children| && s.nodes[p].childRunning[j]
      ensures r.ok ==> !r.s.nodes[Child(sh, p, j)].running
    {
      CancelRunningStops(sh, s, p, i, j);
    }
  }

  /** ParallelNode::failed: the Parallel cancels exactly the children still marked
      running (the failing one is no longer marked), fails and clears its bookkeeping. */
  lemma ParallelFailure(sh: Shape, w: World, s: State, p: nat, k: nat)
    requires Ready(sh, s) && p < |sh| && sh[p].kind.Parallel? && k < |sh[p].children|
    requires s.nodes[p].running && |s.nodes[p].childRunning| == |sh[p].children|
    ensures var r := DoneParallel(sh, w, s, p, k, false);
      && (r.o == Failure || r.o == Aborted)
      && (r.o == Failure ==>
            r.s.nodes[p] == s.nodes[p].(running := false, finished := 0, childRunning := Falses(|sh[p].children|)))
      && (forall j :: 0 <= j < |sh[p].children| && (j == k || !s.nodes[p].childRunning[j]) ==>
            Untouched(s, r.s, Child(sh, p, j), sh[Child(sh, p, j)].span))
      && (r.o == Failure ==> forall j :: 0 <= j < |sh[p].children| && j != k && s.nodes[p].childRunning[j] ==>
            !r.s.nodes[Child(sh, p, j)].running)
  {
    var ns := s.nodes[p];
    var s1 := SetNode(s, p, ns.(childRunning := ns.childRunning[k := false]));
    CancelRunningEffect(sh, s1, p, 0);
    forall j | 0 <= j < |sh[p].children| ensures p < Child(sh, p, j) {
    }
  }

  /** Cancelling a Parallel leaves `finished` at 0 and no child marked running. */
  lemma ParallelCancelResets(sh: Shape, s: State, n: nat)
    requires Ready(sh, s) && n < |sh| && sh[n].kind.Parallel?
    ensures var r := Cancel(sh, s, n);
      r.ok ==> r.s.nodes[n] == s.nodes[n].(running := false, finished := 0, childRunning := Falses(|sh[n].children|))
  {
  }

  /** RaceNode::cancelChildren from child i on leaves every node before child i as it
      was. */
  lemma {:induction false} CancelOthersBefore(sh: Shape, s: State, p: nat, i: nat, except: Option<nat>, m: nat)
    requires Ready(sh, s) && p < |sh| && i < |sh[p].children|
    requires m < Child(sh, p, i)
    ensures CancelOthers(sh, s, p, i, except).s.nodes[m] == s.nodes[m]
    decreases |sh[p].children| - i
  {
    var c := Child(sh, p, i);
    var s1 := if except == Some(i) then s else Cancel(sh, s, c).s;
    if except != Some(i) && !Cancel(sh, s, c).ok {
      assert CancelOthers(sh, s, p, i, except) == Cancel(sh, s, c);
    } else {
      assert CancelOthers(sh, s, p, i, except) == CancelOthers(sh, s1, p, i + 1, except);
      assert s1.nodes[m] == s.nodes[m];
      if i + 1 < |sh[p].children| {
        SiblingsDisjoint(sh, p, i, i + 1);
        CancelOthersBefore(sh, s1, p, i + 1, except, m);
      }
    }
  }

  /** RaceNode::cancelChildren from child i on does not touch the subtree of the
      excepted child. */
  lemma {:induction false} CancelOthersSpares(sh: Shape, s: State, p: nat, i: nat, j: nat, m: nat)
    requires Ready(sh, s) && p < |sh| && i <= j < |sh[p].children|
    requires Child(sh, p, j) <= m < sh[Child(sh, p, j)].span
    ensures CancelOthers(sh, s, p, i, Some(j)).s.nodes[m] == s.nodes[m]
    decreases |sh[p].children| - i
  {
    var c := Child(sh, p, i);
    if i == j {
      assert CancelOthers(sh, s, p, i, Some(j)) == CancelOthers(sh, s, p, i + 1, Some(j));
      if i + 1 < |sh[p].children| {
        SiblingsDisjoint(sh, p, i, i + 1);
        CancelOthersBefore(sh, s, p, i + 1, Some(j), m);
      }
    } else {
      SiblingsDisjoint(sh, p, i, j);
      if !Cancel(sh, s, c).ok {
        assert CancelOthers(sh, s, p, i, Some(j)) == Cancel(sh, s, c);
      } else {
        var s1 := Cancel(sh, s, c).s;
        assert CancelOthers(sh, s, p, i, Some(j)) == CancelOthers(sh, s1, p, i + 1, Some(j));
        assert s1.nodes[m] == s.nodes[m];
        CancelOthersSpares(sh, s1, p, i + 1, j, m);
      }
    }
  }

  /** RaceNode::cancelChildren from child i on changes nothing before child i and does
      not touch the excepted child. */
  lemma CancelOthersFrame(sh: Shape, s: State, p: nat, i: nat, except: Option<nat>)
    requires Ready(sh, s) && p < |sh| && i <= |sh[p].children|
    ensures var r := CancelOthers(sh, s, p, i, except);
      && (i < |sh[p].children| ==> Untouched(s, r.s, 0, Child(sh, p, i)))
      && (except.Some? && i <= except.value < |sh[p].children| ==>
            Untouched(s, r.s, Child(sh, p, except.value), sh[Child(sh, p, except.value)].span))
  {
    var r := CancelOthers(sh, s, p, i, except);
    if i < |sh[p].children| {
      forall m | 0 <= m < Child(sh, p, i) && m < |s.nodes| ensures r.s.nodes[m] == s.nodes[m] {
        CancelOthersBefore(sh, s, p, i, except, m);
      }
    }
    if except.Some? && i <= except.value < |sh[p].children| {
      var j := except.value;
      forall m | Child(sh, p, j) <= m < sh[Child(sh, p, j)].span && m < |s.nodes|
        ensures r.s.nodes[m] == s.nodes[m]
      {
        CancelOthersSpares(sh, s, p, i, j, m);
      }
    }
  }

  /** The step of RaceNode::cancelChildren at child i itself: without a failed assertion
      later on, child i was running and is stopped at the end. */
  lemma CancelOthersStopsHere(sh: Shape, s: State, p: nat, i: nat, except: Option<nat>)
    requires Ready(sh, s) && p < |sh| && i < |sh[p].children| && except != Some(i)
    ensures CancelOthers(sh, s, p, i, except).ok ==>
      s.nodes[Child(sh, p, i)].running && !CancelOthers(sh, s, p, i, except).s.nodes[Child(sh, p, i)].running
  {
    var c := Child(sh, p, i);
    var r1 := Cancel(sh, s, c);
    if r1.ok {
      assert CancelOthers(sh, s, p, i, except) == CancelOthers(sh, r1.s, p, i + 1, except);
      assert s.nodes[c].running && !r1.s.nodes[c].running;
      if i + 1 < |sh[p].children| {
        SiblingsDisjoint(sh, p, i, i + 1);
        CancelOthersBefore(sh, r1.s, p, i + 1, except, c);
      }
    } else {
      assert CancelOthers(sh, s, p, i, except) == r1;
    }
  }

  /** RaceNode::cancelChildren from child i on, without a failed assertion: a later child
      j other than the excepted one was running and has stopped, since it is cancelled
      without looking at whether it runs. */
  lemma {:induction false} CancelOthersStops(sh: Shape, s: State, p: nat, i: nat, j: nat, except: Option<nat>)
    requires Ready(sh, s) && p < |sh| && i <= j < |sh[p].children| && except != Some(j)
    ensures CancelOthers(sh, s, p, i, except).ok ==>
      s.nodes[Child(sh, p, j)].running && !CancelOthers(sh, s, p, i, except).s.nodes[Child(sh, p, j)].running
    decreases |sh[p].children| - i
  {
    if i == j {
      CancelOthersStopsHere(sh, s, p, i, except);
    } else {
      var c := Child(sh, p, i);
      var s1 := if except == Some(i) then s else Cancel(sh, s, c).s;
      if except != Some(i) && !Cancel(sh, s, c).ok {
        assert CancelOthers(sh, s, p, i, except) == Cancel(sh, s, c);
      } else {
        assert CancelOthers(sh, s, p, i, except) == CancelOthers(sh, s1, p, i + 1, except);
        SiblingsDisjoint(sh, p, i, j);
        assert s1.nodes[Child(sh, p, j)] == s.nodes[Child(sh, p, j)];
        CancelOthersStops(sh, s1, p, i + 1, j, except);
      }
    }
  }

  /** RaceNode::cancelChildren from child i on cancels every child but the excepted one
      whether or not it is running, so without a failed assertion all of them were
      running and have stopped. */
  lemma CancelOthersEffect(sh: Shape, s: State, p: nat, i: nat, except: Option<nat>)
    requires Ready(sh, s) && p < |sh| && i <= |sh[p].children|
    ensures var r := CancelOthers(sh, s, p, i, except);
      r.ok ==> forall j :: i <= j < |sh[p].children| && except != Some(j) ==>
        s.nodes[Child(sh, p, j)].running && !r.s.nodes[Child(sh, p, j)].running
  {
    forall j | i <= j < |sh[p].children| && except != Some(j)
      ensures var r := CancelOthers(sh, s, p, i, except);
        r.ok ==> s.nodes[Child(sh, p, j)].running && !r.s.nodes[Child(sh, p, j)].running
    {
      CancelOthersStops(sh, s, p, i, j, except);
    }
  }

  /** A Race finishes with its first finishing child: it cancels every other child and
      forwards that child's outcome. Its cancel stops every child. */
  lemma RaceFinishes(sh: Shape, w: World, s: State, p: nat, k: nat, success: bool)
    requires Ready(sh, s) && p < |sh| && sh[p].kind.Race? && k < |sh[p].children|
    ensures var r := Done(sh, w, s, p, k, success);
      && (r.o.Finished() ==> r.o == (if success then Success else Failure) && !r.s.nodes[p].running)
      && (r.o.Finished() ==> forall j :: 0 <= j < |sh[p].children| && j != k ==> !r.s.nodes[Child(sh, p, j)].running)
    ensures var r := Cancel(sh, s, p);
      r.ok ==> forall j :: 0 <= j < |sh[p].children| ==> !r.s.nodes[Child(sh, p, j)].running
  {
    CancelOthersEffect(sh, s, p, 0, Some(k));
    if s.nodes[p].running {
      CancelOthersEffect(sh, Stopped(s, p), p, 0, None);
    }
    forall j | 0 <= j < |sh[p].children| ensures p < sh[p].children[j] {
      var c := Child(sh, p, j);
    }
  }

  /** The Race's assertion on a sibling that was never started: when the first child of
      a Race finishes at once, succeeding or failing, the cancel of the idle second child
      fails `stop`'s assertion, so race([instant, x]) aborts. */
  lemma RaceInstantFirstChildAborts(sh: Shape, w: World, s: State, p: nat, success: bool)
    requires Ready(sh, s) && p < |sh| && sh[p].kind.Race? && |sh[p].children| >= 2
    requires forall j :: 0 <= j < |sh[p].children| ==> !s.nodes[Child(sh, p, j)].running
    ensures Done(sh, w, s, p, 0, success).o == Aborted
  {
    CancelOthersEffect(sh, s, p, 0, Some(0));
  }

  // ---------------------------------------------------------------- Predicate

  /** PredicateNode::execute: a false predicate fails without executing (or otherwise
      touching) the adapted node; a true one executes it and forwards what it reports. */
  lemma PredicateGate(sh: Shape, w: World, s: State, n: nat, g: nat)
    requires Ready(sh, s) && n < |sh| && sh[n].kind == Predicate(g) && !s.nodes[n].running
    ensures g !in w.guards ==> Exec(sh, w, s, n) == Res(s, Failure)
    ensures g in w.guards ==>
      var c := Exec(sh, w, Started(s, n), Adapted(sh, n));
      var r := Exec(sh, w, s, n);
      && (c.o.Finished() ==> r == Res(Stopped(c.s, n), c.o))
      && (!c.o.Finished() ==> r == c)
  {
    NodeFacts(sh, n);
    assert SetNode(Started(s, n), n, s.nodes[n]) == s;
    if g in w.guards {
      var c := Exec(sh, w, Started(s, n), Child(sh, n, 0));
      assert c.s.nodes[n] == Started(s, n).nodes[n];
    }
  }

  /** PredicateNode::cancel does nothing to the adapted node. */
  lemma PredicateCancel(sh: Shape, s: State, n: nat)
    requires Ready(sh, s) && n < |sh| && sh[n].kind.Predicate? && s.nodes[n].running
    ensures Cancel(sh, s, n) == Step(Stopped(s, n), true)
  {
  }

  /** The consequence: cancelling a Predicate whose adapted node is still waiting leaves
      that node running, and executing the Predicate again then fails the adapted node's
      `start` assertion. */
  lemma PredicateStaleChild(sh: Shape, w: World, s: State, n: nat, g: nat)
    requires Ready(sh, s) && n < |sh| && sh[n].kind == Predicate(g) && g in w.guards
    requires s.nodes[n].running && s.nodes[Adapted(sh, n)].running
    ensures Cancel(sh, s, n).ok
    ensures Exec(sh, w, Cancel(sh, s, n).s, n).o == Aborted
  {
    NodeFacts(sh, n);
    var c := Child(sh, n, 0);
    assert Started(Stopped(s, n), n).nodes[c].running;
  }

  // ---------------------------------------------------------------- WaitEvent

  /** WaitEventNode::execute: with the event already in the EventList it succeeds and
      registers nothing; otherwise it adds exactly one (event, node) entry to
      ReactingNodes and waits. */
  lemma WaitEventExecute(sh: Shape, w: World, s: State, n: nat, e: string)
    requires Ready(sh, s) && n < |sh| && sh[n].kind == WaitEvent(e) && !s.nodes[n].running
    ensures e in w.events ==> Exec(sh, w, s, n) == Res(s, Success)
    ensures e !in w.events ==>
      var r := Exec(sh, w, s, n);
      && r.o == Pending && r.s.nodes == Started(s, n).nodes
      && r.s.reacting[(e, n)] == s.reacting[(e, n)] + 1
      && (forall x :: x != (e, n) ==> r.s.reacting[x] == s.reacting[x])
      && r.s.acting == s.acting && r.s.positions == s.positions
  {
    assert SetNode(Started(s, n), n, s.nodes[n]) == s;
  }

  /** WaitEventNode::cancel removes exactly one (event, node) entry, and the missing
      entry is a failed assertion. */
  lemma WaitEventCancel(sh: Shape, s: State, n: nat, e: string)
    requires Ready(sh, s) && n < |sh| && sh[n].kind == WaitEvent(e) && s.nodes[n].running
    ensures var r := Cancel(sh, s, n);
      && (r.ok <==> (e, n) in s.reacting)
      && (r.ok ==> r.s.reacting[(e, n)] + 1 == s.reacting[(e, n)] && r.s.nodes == Stopped(s, n).nodes)
      && (r.ok ==> forall x :: x != (e, n) ==> r.s.reacting[x] == s.reacting[x])
  {
  }

  /** WaitEventNode::act is its cancel followed by success: it removes the node's
      entry, stops the node and succeeds; a missing entry is a failed assertion. */
  lemma WaitEventAct(sh: Shape, w: World, s: State, n: nat, e: string)
    requires Ready(sh, s) && n < |sh| && sh[n].kind == WaitEvent(e) && s.nodes[n].running
    ensures var a := Act(sh, w, s, n);
      && ((e, n) in s.reacting <==> a.o == Success)
      && ((e, n) !in s.reacting ==> a.o == Aborted)
      && (a.o == Success ==> a.s == Stopped(s, n).(reacting := s.reacting - multiset{(e, n)}) && a.action.None?)
  {
  }

  /** Waiting and then being woken by act brings an idle WaitEvent node back to the very
      state it started from, ReactingNodes included. */
  lemma {:induction false} WaitEventRoundTrip(sh: Shape, w: World, s: State, n: nat, e: string)
    requires Ready(sh, s) && n < |sh| && sh[n].kind == WaitEvent(e) && !s.nodes[n].running
    requires e !in w.events
    ensures Act(sh, w, Exec(sh, w, s, n).s, n) == ActRes(s, Success, None)
  {
    var r := Exec(sh, w, s, n);
    assert r.s == Started(s, n).(reacting := s.reacting + multiset{(e, n)});
    assert r.s.reacting - multiset{(e, n)} == s.reacting;
    assert SetNode(Started(s, n), n, Started(s, n).nodes[n].(running := false)) == s;
  }

  // ---------------------------------------------------------------- leaves of the library

  /** GetClosestNode::execute with no accepted candidate fails and leaves everything, the
      blackboard included, as it was. */
  lemma GetClosestFails(sh: Shape, w: World, s: State, n: nat, q: nat, v: nat)
    requires Ready(sh, s) && n < |sh| && sh[n].kind == GetClosest(q, v) && !s.nodes[n].running
    requires forall i :: 0 <= i < |w.queries(q)| ==> !w.queries(q)[i].passes
    ensures Exec(sh, w, s, n) == Res(s, Failure)
  {
    assert SetNode(Started(s, n), n, s.nodes[n]) == s;
  }

  /** GetClosestNode::execute with an accepted candidate succeeds and writes into slot v
      the position of the first accepted candidate of least distance; every other slot
      and every node's fields stay as they were. */
  lemma GetClosestStores(sh: Shape, w: World, s: State, n: nat, q: nat, v: nat)
    requires Ready(sh, s) && n < |sh| && sh[n].kind == GetClosest(q, v) && !s.nodes[n].running
    requires exists i :: 0 <= i < |w.queries(q)| && w.queries(q)[i].passes
    ensures var r := Exec(sh, w, s, n);
      var cands := w.queries(q);
      && r.o == Success && r.s.nodes == s.nodes && r.s.acting == s.acting && r.s.reacting == s.reacting
      && v < |r.s.positions|
      && (exists i :: 0 <= i < |cands| && cands[i].passes && cands[i].pos == r.s.positions[v]
            && (forall j :: 0 <= j < i && cands[j].passes ==>
                  DistSq(w.position, cands[i].pos) < DistSq(w.position, cands[j].pos)))
      && (forall j :: 0 <= j < |cands| && cands[j].passes ==>
            DistSq(w.position, r.s.positions[v]) <= DistSq(w.position, cands[j].pos))
      && (forall i :: 0 <= i < |s.positions| && i != v ==> r.s.positions[i] == s.positions[i])
  {
    var i := Closest(w.position, w.queries(q)).value;
    assert ClosestPos(w.position, w.queries(q)) == Some(w.queries(q)[i].pos);
  }

  /** MoveToNode::execute registers the node in ActingNodes and reports nothing. */
  lemma MoveToRegisters(sh: Shape, w: World, s: State, n: nat)
    requires Ready(sh, s) && n < |sh| && sh[n].kind.MoveTo? && !s.nodes[n].running
    ensures Exec(sh, w, s, n) == Res(Started(s, n).(acting := s.acting + {n}), Pending)
  {
  }

  /** MoveToNode::act: on the target the node leaves ActingNodes and succeeds; elsewhere
      it writes one step towards the target (away from it when fleeing), stays
      registered and changes nothing else. It never fails. */
  lemma MoveToAct(sh: Shape, w: World, s: State, n: nat, v: nat, flee: bool)
    requires Ready(sh, s) && n < |sh| && sh[n].kind == MoveTo(v, flee) && s.nodes[n].running
    requires v < |s.positions|
    ensures Act(sh, w, s, n).o != Failure
    ensures w.position == s.positions[v] ==>
      Act(sh, w, s, n) == ActRes(Stopped(s, n).(acting := s.acting - {n}), Success, None)
    ensures w.position != s.positions[v] ==>
      var d := Actions.MoveTowards(w.position, s.positions[v]);
      Act(sh, w, s, n) == ActRes(s, Pending, Some(if flee then Actions.InverseMove(d) else d))
  {
  }

  /** MoveToNode::cancel erases the node from ActingNodes. */
  lemma MoveToCancel(sh: Shape, s: State, n: nat)
    requires Ready(sh, s) && n < |sh| && sh[n].kind.MoveTo? && s.nodes[n].running
    ensures Cancel(sh, s, n) == Step(Stopped(s, n).(acting := s.acting - {n}), true)
  {
  }

  // ---------------------------------------------------------------- the tree

  /** A system's act on a node: when the outcome reaches the root callback the tree is no
      longer running; while it waits the flag is unchanged. */
  lemma TreeActFlag(sh: Shape, w: World, s: State, n: nat)
    requires Ready(sh, s) && n < |sh| && sh[n].kind.IsActor()
    ensures var r := TreeAct(sh, w, s, n);
      && (r.o.Finished() ==> !r.s.treeRunning)
      && (r.o.Pending? ==> r.s.treeRunning == s.treeRunning)
  {
    var a := Act(sh, w, s, n);
    assert a.s.treeRunning == s.treeRunning;
  }
}
