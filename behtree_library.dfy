/** The decision logic of the leaf nodes in roguelike/sources/gameplay/behTreeLibrary.cpp:
    the closest-target scan of get_closest and the step choice of move_to. */
module BehTreeLibrary {
  import opened Actions
  import opened Wrappers

  /** One entity the query yields: its position and whether the filter accepts it. */
  datatype Candidate = Candidate(pos: Vec2, passes: bool)

  /** Squared Euclidean distance; it orders candidates as glm::length does. */
  function DistSq(a: Vec2, b: Vec2): nat {
    (a.x - b.x) * (a.x - b.x) + (a.y - b.y) * (a.y - b.y)
  }

  /** The index the scan keeps after visiting `cands`: the first accepted candidate of
      least distance, or None when no candidate is accepted. */
  function Closest(mypos: Vec2, cands: seq<Candidate>): (r: Option<nat>)
    ensures r.None? <==> forall i :: 0 <= i < |cands| ==> !cands[i].passes
    ensures r.Some? ==> r.value < |cands| && cands[r.value].passes
    ensures r.Some? ==> forall j :: 0 <= j < |cands| && cands[j].passes ==>
      DistSq(mypos, cands[r.value].pos) <= DistSq(mypos, cands[j].pos)
    ensures r.Some? ==> forall j :: 0 <= j < r.value && cands[j].passes ==>
      DistSq(mypos, cands[r.value].pos) < DistSq(mypos, cands[j].pos)
  {
    if cands == [] then None
    else
      var prev := Closest(mypos, cands[..|cands| - 1]);
      var last := cands[|cands| - 1];
      if !last.passes then prev
      else if prev.None? || DistSq(mypos, last.pos) < DistSq(mypos, cands[prev.value].pos) then Some(|cands| - 1)
      else prev
  }

  /** The position get_closest stores: that of the candidate Closest picks. */
  function ClosestPos(mypos: Vec2, cands: seq<Candidate>): (r: Option<Vec2>)
    ensures r.None? <==> forall i :: 0 <= i < |cands| ==> !cands[i].passes
    ensures r.Some? ==> exists i :: 0 <= i < |cands| && cands[i].passes && cands[i].pos == r.value
    ensures r.Some? ==> forall j :: 0 <= j < |cands| && cands[j].passes ==>
      DistSq(mypos, r.value) <= DistSq(mypos, cands[j].pos)
  {
    match Closest(mypos, cands)
    case None => None
    case Some(i) => Some(cands[i].pos)
  }

  /** GetClosestNode's scan over the query: keep a candidate when the filter accepts it
      and it is strictly closer than the one kept so far. */
  method FindClosest(mypos: Vec2, cands: seq<Candidate>) returns (closest: Option<Vec2>)
    ensures closest == ClosestPos(mypos, cands)
  {
    closest := None;
    var closestLength := 0;
    ghost var at: nat := 0;
    var i := 0;
    while i < |cands|
      invariant 0 <= i <= |cands|
      invariant Closest(mypos, cands[..i]).None? ==> closest == None
      invariant Closest(mypos, cands[..i]).Some? ==>
        at == Closest(mypos, cands[..i]).value && closest == Some(cands[at].pos)
        && closestLength == DistSq(mypos, cands[at].pos)
    {
      assert cands[..i + 1][..i] == cands[..i];
      var c := cands[i];
      if c.passes {
        var length := DistSq(mypos, c.pos);
        if closest.None? || length < closestLength {
          closest := Some(c.pos);
          closestLength := length;
          at := i;
        }
      }
      i := i + 1;
    }
    assert cands[..|cands|] == cands;
  }

  /** MoveToNode::act's choice: None when standing on the target (the node succeeds),
      otherwise the move toward the target, inverted when fleeing. */
  function MoveToStep(pos: Vec2, tgt: Vec2, flee: bool): (r: Option<ActionType>)
    ensures r.None? <==> pos == tgt
    ensures r.Some? ==> r.value.IsMove()
    ensures r.Some? && !flee ==> Manhattan(Step(pos, r.value), tgt) + 1 == Manhattan(pos, tgt)
    ensures r.Some? && flee ==> Manhattan(Step(pos, r.value), tgt) == Manhattan(pos, tgt) + 1
  {
    if pos == tgt then None
    else
      var dir := MoveTowards(pos, tgt);
      MoveTowardsApproaches(pos, tgt);
      InverseMoveRetreats(pos, tgt);
      Some(if flee then InverseMove(dir) else dir)
  }
}
