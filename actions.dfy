/** Agent actions and the two direction helpers used by movement leaves
    (roguelike/sources/gameplay/actions.hpp). */
module Actions {

  /** The action an agent intends to take this turn. */
  datatype ActionType = Nop | MoveLeft | MoveRight | MoveDown | MoveUp | Regen | Heal {
    predicate IsMove() {
      MoveLeft? || MoveRight? || MoveDown? || MoveUp?
    }
  }

  /** An integer grid position or offset (glm::ivec2). */
  datatype Vec2 = Vec2(x: int, y: int)

  function Abs(n: int): nat {
    if n < 0 then -n else n
  }

  /** The cardinal move that brings `from` closer to `to`: along the axis with the
      strictly larger offset, preferring the vertical axis on a tie. */
  function MoveTowards(from: Vec2, to: Vec2): (r: ActionType)
    ensures r.IsMove()
    ensures (r == MoveLeft || r == MoveRight) <==> Abs(to.x - from.x) > Abs(to.y - from.y)
    ensures r == MoveRight <==> Abs(to.x - from.x) > Abs(to.y - from.y) && to.x - from.x > 0
    ensures r == MoveUp <==> Abs(to.x - from.x) <= Abs(to.y - from.y) && to.y - from.y > 0
  {
    var dx := to.x - from.x;
    var dy := to.y - from.y;
    if Abs(dx) > Abs(dy) then
      (if dx > 0 then MoveRight else MoveLeft)
    else
      (if dy > 0 then MoveUp else MoveDown)
  }

  /** The opposite move; any action that is not a move is returned unchanged. */
  function InverseMove(a: ActionType): (r: ActionType)
    ensures a.IsMove() <==> r.IsMove()
    ensures !a.IsMove() ==> r == a
  {
    match a
    case MoveLeft => MoveRight
    case MoveRight => MoveLeft
    case MoveUp => MoveDown
    case MoveDown => MoveUp
    case _ => a
  }

  /** The grid offset a move stands for, as move_towards implies it:
      RIGHT raises x and UP raises y. */
  function Offset(a: ActionType): (d: Vec2)
    ensures a.IsMove() ==> Abs(d.x) + Abs(d.y) == 1
    ensures !a.IsMove() ==> d == Vec2(0, 0)
  {
    match a
    case MoveLeft => Vec2(-1, 0)
    case MoveRight => Vec2(1, 0)
    case MoveUp => Vec2(0, 1)
    case MoveDown => Vec2(0, -1)
    case _ => Vec2(0, 0)
  }

  function Step(p: Vec2, a: ActionType): Vec2 {
    Vec2(p.x + Offset(a).x, p.y + Offset(a).y)
  }

  function Manhattan(a: Vec2, b: Vec2): nat {
    Abs(b.x - a.x) + Abs(b.y - a.y)
  }

  /** Standing on the target, the tie rule picks MOVE_DOWN. */
  lemma MoveTowardsSelf(p: Vec2)
    ensures MoveTowards(p, p) == MoveDown
  {
  }

  /** inverse_move is an involution. */
  lemma InverseMoveInvolution(a: ActionType)
    ensures InverseMove(InverseMove(a)) == a
  {
  }

  /** The inverse of a move is its opposite offset. */
  lemma InverseMoveOpposite(a: ActionType)
    ensures Offset(InverseMove(a)) == Vec2(-Offset(a).x, -Offset(a).y)
  {
  }

  /** Taking the chosen move from any other cell gets exactly one step closer to the target. */
  lemma MoveTowardsApproaches(from: Vec2, to: Vec2)
    requires from != to
    ensures Manhattan(Step(from, MoveTowards(from, to)), to) == Manhattan(from, to) - 1
  {
  }

  /** Taking the inverted move (fleeing) gets exactly one step farther from the target. */
  lemma InverseMoveRetreats(from: Vec2, to: Vec2)
    ensures Manhattan(Step(from, InverseMove(MoveTowards(from, to))), to) == Manhattan(from, to) + 1
  {
  }
}
