/** The drunk-walk dungeon generator (roguelike/sources/gameplay/dungeon/dungeonGenerator.cpp).
    The random engine is replaced by the draws it would produce: one start column and
    row per walk and one sequence of direction draws per walk. */
module DungeonGenerator {
  import opened Actions
  import opened DungeonUtils

  /** Number of walks (numIter). */
  const NumIter: nat := 4
  /** Wall tiles each walk turns into Floor (maxExcavations). */
  const MaxExcavations: nat := 200

  /** `dirs[dir]`: 0 right, 1 up, 2 left, 3 down. */
  function DirOffset(dir: nat): (o: Vec2)
    requires dir < 4
    ensures Abs(o.x) + Abs(o.y) == 1
  {
    [Vec2(1, 0), Vec2(0, 1), Vec2(-1, 0), Vec2(0, -1)][dir]
  }

  /** A cell off the outer ring: column in [1, extent1 - 2], row in [1, extent0 - 2]. */
  predicate Interior(d: Dungeon, p: Vec2) {
    1 <= p.x <= d.extent1 - 2 && 1 <= p.y <= d.extent0 - 2
  }

  /** min(max(v, lo), hi). */
  function Clamp(v: int, lo: int, hi: int): (r: int)
    requires lo <= hi
    ensures lo <= r <= hi
    ensures lo <= v <= hi ==> r == v
    ensures v < lo ==> r == lo
    ensures v > hi ==> r == hi
  {
    if v < lo then lo else if v > hi then hi else v
  }

  /** One step of a walk: move by the drawn offset, clamped back into the interior. */
  function WalkStep(d: Dungeon, p: Vec2, dir: nat): (q: Vec2)
    requires d.extent0 >= 3 && d.extent1 >= 3 && dir < 4
    ensures Interior(d, q)
    ensures Interior(d, p) ==> Manhattan(p, q) <= 1
    ensures Interior(d, Vec2(p.x + DirOffset(dir).x, p.y + DirOffset(dir).y))
            ==> q == Vec2(p.x + DirOffset(dir).x, p.y + DirOffset(dir).y)
  {
    Vec2(Clamp(p.x + DirOffset(dir).x, 1, d.extent1 - 2), Clamp(p.y + DirOffset(dir).y, 1, d.extent0 - 2))
  }

  /** One corridor step: one cell toward `epos` along the axis with the strictly larger
      offset, vertically on a tie. */
  function CorridorStep(pos: Vec2, epos: Vec2): (r: Vec2)
    requires pos != epos
    ensures Manhattan(r, epos) + 1 == Manhattan(pos, epos)
    ensures r == Step(pos, MoveTowards(pos, epos))
  {
    var delta := Vec2(epos.x - pos.x, epos.y - pos.y);
    if Abs(delta.x) > Abs(delta.y) then Vec2(pos.x + (if delta.x > 0 then 1 else -1), pos.y)
    else Vec2(pos.x, pos.y + (if delta.y > 0 then 1 else -1))
  }

  /** The cells a corridor from `pos` to `epos` writes, in order: every cell it steps
      onto, ending with `epos` itself (the start cell is not written). */
  ghost function Path(pos: Vec2, epos: Vec2): seq<Vec2>
    decreases Manhattan(pos, epos)
  {
    if pos == epos then [] else [CorridorStep(pos, epos)] + Path(CorridorStep(pos, epos), epos)
  }

  /** A corridor has one cell per unit of Manhattan distance and ends at its target. */
  lemma {:induction false} PathShape(pos: Vec2, epos: Vec2)
    ensures |Path(pos, epos)| == Manhattan(pos, epos)
    ensures pos != epos ==> Path(pos, epos)[|Path(pos, epos)| - 1] == epos
    decreases Manhattan(pos, epos)
  {
    if pos != epos {
      var next := CorridorStep(pos, epos);
      PathShape(next, epos);
      if next != epos {
        assert Path(pos, epos)[|Path(pos, epos)| - 1] == Path(next, epos)[|Path(next, epos)| - 1];
      }
    }
  }

  /** A corridor between two interior cells stays in the interior. */
  lemma {:induction false} PathInterior(d: Dungeon, pos: Vec2, epos: Vec2)
    requires Interior(d, pos) && Interior(d, epos)
    ensures forall q :: q in Path(pos, epos) ==> Interior(d, q)
    decreases Manhattan(pos, epos)
  {
    if pos != epos {
      PathInterior(d, CorridorStep(pos, epos), epos);
    }
  }

  /** One corridor step moves the next path cell from the path still to go onto the
      cells already walked, and stays in the interior. */
  lemma PathAdvance(d: Dungeon, spos: Vec2, pos: Vec2, epos: Vec2, visited: seq<Vec2>)
    requires Interior(d, pos) && Interior(d, epos) && pos != epos
    requires visited + Path(pos, epos) == Path(spos, epos)
    ensures Interior(d, CorridorStep(pos, epos))
    ensures (visited + [CorridorStep(pos, epos)]) + Path(CorridorStep(pos, epos), epos) == Path(spos, epos)
  {
    var next := CorridorStep(pos, epos);
    assert Path(pos, epos) == [next] + Path(next, epos);
    PathInterior(d, pos, epos);
    assert next in Path(pos, epos);
  }

  /** Every listed cell is on the grid and is Floor in the snapshot `tiles`. */
  ghost predicate Carved(d: Dungeon, tiles: seq<Tile>, cells: seq<Vec2>)
    requires d.Valid() && |tiles| == d.data.Length
  {
    forall q :: q in cells ==> d.InBounds(q) && tiles[d.Index(q.y, q.x)] == Floor
  }

  /** Cells that were Floor stay Floor when tiles only ever become Floor. */
  lemma CarvedStable(d: Dungeon, s0: seq<Tile>, s: seq<Tile>, cells: seq<Vec2>)
    requires d.Valid() && |s0| == d.data.Length && |s| == d.data.Length
    requires forall i :: 0 <= i < |s| ==> s[i] == s0[i] || s[i] == Floor
    requires Carved(d, s0, cells)
    ensures Carved(d, s, cells)
  {
  }

  /** Flooring one more cell adds it to the carved cells. */
  lemma CarvedExtend(d: Dungeon, s: seq<Tile>, cells: seq<Vec2>, p: Vec2)
    requires d.Valid() && |s| == d.data.Length && d.InBounds(p)
    requires Carved(d, s, cells)
    ensures Carved(d, s[d.Index(p.y, p.x) := Floor], cells + [p])
  {
    var t := s[d.Index(p.y, p.x) := Floor];
    forall q | q in cells + [p] ensures d.InBounds(q) && t[d.Index(q.y, q.x)] == Floor {
      if q != p {
        assert q in cells;
      }
    }
  }

  /** Row `row` and column `col` lie on the outer ring of the grid. */
  predicate OnBorder(d: Dungeon, row: nat, col: nat) {
    row < d.extent0 && col < d.extent1 && !Interior(d, Vec2(col, row))
  }

  /** Every tile on the outer ring of the snapshot `tiles` is Wall. */
  ghost predicate BorderIsWall(d: Dungeon, tiles: seq<Tile>)
    requires d.Valid() && |tiles| == d.data.Length
  {
    forall row: nat, col: nat :: OnBorder(d, row, col) ==> tiles[d.Index(row, col)] == Wall
  }

  /** No tile on the outer ring differs between the two snapshots. */
  ghost predicate BorderKept(d: Dungeon, before: seq<Tile>, after: seq<Tile>)
    requires d.Valid() && |before| == d.data.Length && |after| == d.data.Length
  {
    forall row: nat, col: nat :: OnBorder(d, row, col) ==> after[d.Index(row, col)] == before[d.Index(row, col)]
  }

  /** A walk's effect from snapshot `s0` to `s`: only Wall tiles became Floor, exactly
      `excavations` of them, and the outer ring is untouched. */
  ghost predicate WalkEffect(d: Dungeon, s0: seq<Tile>, s: seq<Tile>, excavations: nat)
    requires d.Valid() && |s0| == d.data.Length && |s| == d.data.Length
  {
    && (forall i :: 0 <= i < |s| ==> s[i] == s0[i] || (s0[i] == Wall && s[i] == Floor))
    && multiset(s)[Wall] + excavations == multiset(s0)[Wall]
    && multiset(s)[Floor] == multiset(s0)[Floor] + excavations
    && BorderKept(d, s0, s)
  }

  /** A corridor's effect from snapshot `s0` to `s`: tiles only became Floor, there are
      no fewer Floor tiles, and the outer ring is untouched. */
  ghost predicate CarveEffect(d: Dungeon, s0: seq<Tile>, s: seq<Tile>)
    requires d.Valid() && |s0| == d.data.Length && |s| == d.data.Length
  {
    && (forall i :: 0 <= i < |s| ==> s[i] == s0[i] || s[i] == Floor)
    && multiset(s)[Floor] >= multiset(s0)[Floor]
    && BorderKept(d, s0, s)
  }

  /** Writing any tile of the interior leaves the outer ring as it was. */
  lemma WriteInteriorKeepsBorder(d: Dungeon, s: seq<Tile>, p: Vec2, t: Tile)
    requires d.Valid() && |s| == d.data.Length && Interior(d, p)
    ensures BorderKept(d, s, s[d.Index(p.y, p.x) := t])
  {
    forall row: nat, col: nat | OnBorder(d, row, col)
      ensures s[d.Index(p.y, p.x) := t][d.Index(row, col)] == s[d.Index(row, col)]
    {
      IndexDistinct(row, col, p.y, p.x, d.extent1);
    }
  }

  /** Digging one interior Wall extends a walk's effect by one excavation. */
  lemma DigStep(d: Dungeon, s0: seq<Tile>, s: seq<Tile>, excavations: nat, p: Vec2)
    requires d.Valid() && |s0| == d.data.Length && |s| == d.data.Length && Interior(d, p)
    requires WalkEffect(d, s0, s, excavations) && s[d.Index(p.y, p.x)] == Wall
    ensures WalkEffect(d, s0, s[d.Index(p.y, p.x) := Floor], excavations + 1)
  {
    var i := d.Index(p.y, p.x);
    var t := s[i := Floor];
    assert multiset(t) == multiset(s) - multiset{Wall} + multiset{Floor};
    WriteInteriorKeepsBorder(d, s, p, Floor);
  }

  /** Flooring one interior cell extends a corridor's effect. */
  lemma FloorStep(d: Dungeon, s0: seq<Tile>, s: seq<Tile>, p: Vec2)
    requires d.Valid() && |s0| == d.data.Length && |s| == d.data.Length && Interior(d, p)
    requires CarveEffect(d, s0, s)
    ensures CarveEffect(d, s0, s[d.Index(p.y, p.x) := Floor])
  {
    var i := d.Index(p.y, p.x);
    var t := s[i := Floor];
    assert multiset(t) == multiset(s) - multiset{s[i]} + multiset{Floor};
    WriteInteriorKeepsBorder(d, s, p, Floor);
  }

  /** One drunk walk from `start`: dig the current cell if it is Wall, then step in a
      drawn direction, until MaxExcavations cells were dug. The walk stops early when
      the draws run out (`used == |dirs|`). */
  method DrunkWalk(d: Dungeon, start: Vec2, dirs: seq<nat>) returns (excavations: nat, used: nat)
    requires d.Valid() && d.extent0 >= 3 && d.extent1 >= 3 && Interior(d, start)
    requires forall i :: 0 <= i < |dirs| ==> dirs[i] < 4
    modifies d.data
    ensures excavations <= MaxExcavations && used <= |dirs|
    ensures excavations < MaxExcavations ==> used == |dirs|
    ensures WalkEffect(d, old(d.data[..]), d.data[..], excavations)
    ensures old(d.At(start.y, start.x)) != Blank ==> d.At(start.y, start.x) == Floor
  {
    var x := start.x;
    var y := start.y;
    excavations := 0;
    used := 0;
    while excavations < MaxExcavations
      invariant Interior(d, Vec2(x, y))
      invariant excavations <= MaxExcavations && used <= |dirs|
      invariant WalkEffect(d, old(d.data[..]), d.data[..], excavations)
      invariant used > 0 && old(d.At(start.y, start.x)) != Blank ==> d.At(start.y, start.x) == Floor
      invariant used == 0 ==> x == start.x && y == start.y && excavations == 0 && d.data[..] == old(d.data[..])
      decreases |dirs| - used, MaxExcavations - excavations
    {
      var idx := d.Index(y, x);
      if d.data[idx] == Wall {
        DigStep(d, old(d.data[..]), d.data[..], excavations, Vec2(x, y));
        excavations := excavations + 1;
        d.data[idx] := Floor;
      }
      if used == |dirs| {
        return;
      }
      var next := WalkStep(d, Vec2(x, y), dirs[used]);
      used := used + 1;
      x := next.x;
      y := next.y;
    }
  }

  /** One corridor: walk from `spos` toward `epos` one cell at a time, making every cell
      stepped onto Floor. */
  method CarveCorridor(d: Dungeon, spos: Vec2, epos: Vec2)
    requires d.Valid() && Interior(d, spos) && Interior(d, epos)
    modifies d.data
    ensures Carved(d, d.data[..], Path(spos, epos))
    ensures CarveEffect(d, old(d.data[..]), d.data[..])
  {
    var pos := spos;
    ghost var visited: seq<Vec2> := [];
    while pos != epos
      invariant Interior(d, pos)
      invariant visited + Path(pos, epos) == Path(spos, epos)
      invariant Carved(d, d.data[..], visited)
      invariant CarveEffect(d, old(d.data[..]), d.data[..])
      decreases Manhattan(pos, epos)
    {
      ghost var prev := pos;
      var delta := Vec2(epos.x - pos.x, epos.y - pos.y);
      if Abs(delta.x) > Abs(delta.y) {
        pos := Vec2(pos.x + (if delta.x > 0 then 1 else -1), pos.y);
      } else {
        pos := Vec2(pos.x, pos.y + (if delta.y > 0 then 1 else -1));
      }
      PathAdvance(d, spos, prev, epos, visited);
      assert pos == CorridorStep(prev, epos);
      var idx := d.Index(pos.y, pos.x);
      ghost var snap := d.data[..];
      FloorStep(d, old(d.data[..]), snap, pos);
      CarvedExtend(d, snap, visited, pos);
      d.data[idx] := Floor;
      assert d.data[..] == snap[idx := Floor];
      visited := visited + [pos];
    }
  }

  /** Only Wall and Floor tiles, as after the initial fill. */
  ghost predicate WallOrFloor(tiles: seq<Tile>) {
    forall i :: 0 <= i < |tiles| ==> tiles[i] == Wall || tiles[i] == Floor
  }

  /** The corridors from ps[i] to ps[j] are carved for every pair (i, j) before (a, b)
      in the order the carving loops visit them. */
  ghost predicate PairsCarved(d: Dungeon, tiles: seq<Tile>, ps: seq<Vec2>, a: nat, b: nat)
    requires d.Valid() && |tiles| == d.data.Length
  {
    forall i, j :: 0 <= i < |ps| && 0 <= j < |ps| && (i < a || (i == a && j < b))
      ==> Carved(d, tiles, Path(ps[i], ps[j]))
  }

  lemma PairsCarvedStable(d: Dungeon, s0: seq<Tile>, s: seq<Tile>, ps: seq<Vec2>, a: nat, b: nat)
    requires d.Valid() && |s0| == d.data.Length && |s| == d.data.Length
    requires forall i :: 0 <= i < |s| ==> s[i] == s0[i] || s[i] == Floor
    requires PairsCarved(d, s0, ps, a, b)
    ensures PairsCarved(d, s, ps, a, b)
  {
    forall i, j | 0 <= i < |ps| && 0 <= j < |ps| && (i < a || (i == a && j < b))
      ensures Carved(d, s, Path(ps[i], ps[j]))
    {
      CarvedStable(d, s0, s, Path(ps[i], ps[j]));
    }
  }

  /** Carving the corridor for pair (a, b) moves the frontier to (a, b + 1). */
  lemma PairsCarvedNext(d: Dungeon, s: seq<Tile>, ps: seq<Vec2>, a: nat, b: nat)
    requires d.Valid() && |s| == d.data.Length && a < |ps| && b < |ps|
    requires PairsCarved(d, s, ps, a, b) && Carved(d, s, Path(ps[a], ps[b]))
    ensures PairsCarved(d, s, ps, a, b + 1)
  {
  }

  /** Finishing row a of the pairs moves the frontier to (a + 1, 0). */
  lemma PairsCarvedRow(d: Dungeon, s: seq<Tile>, ps: seq<Vec2>, a: nat)
    requires d.Valid() && |s| == d.data.Length
    requires PairsCarved(d, s, ps, a, |ps|)
    ensures PairsCarved(d, s, ps, a + 1, 0)
  {
  }

  /** A walk from a grid of Wall and Floor with a Wall ring keeps both facts. */
  lemma WalkKeepsShape(d: Dungeon, s0: seq<Tile>, s: seq<Tile>, excavations: nat)
    requires d.Valid() && |s0| == d.data.Length && |s| == d.data.Length
    requires WallOrFloor(s0) && BorderIsWall(d, s0) && WalkEffect(d, s0, s, excavations)
    ensures WallOrFloor(s) && BorderIsWall(d, s)
  {
  }

  lemma CarveEffectTrans(d: Dungeon, s0: seq<Tile>, s1: seq<Tile>, s2: seq<Tile>)
    requires d.Valid() && |s0| == d.data.Length && |s1| == d.data.Length && |s2| == d.data.Length
    requires CarveEffect(d, s0, s1) && CarveEffect(d, s1, s2)
    ensures CarveEffect(d, s0, s2)
  {
  }

  /** A corridor on a grid of Wall and Floor with a Wall ring keeps both facts. */
  lemma CarveKeepsShape(d: Dungeon, s0: seq<Tile>, s: seq<Tile>)
    requires d.Valid() && |s0| == d.data.Length && |s| == d.data.Length
    requires WallOrFloor(s0) && BorderIsWall(d, s0) && CarveEffect(d, s0, s)
    ensures WallOrFloor(s) && BorderIsWall(d, s)
  {
  }

  /** The memset: every tile becomes Wall. */
  method FillWalls(d: Dungeon)
    requires d.Valid()
    modifies d.data
    ensures forall i :: 0 <= i < d.data.Length ==> d.data[i] == Wall
    ensures WallOrFloor(d.data[..]) && BorderIsWall(d, d.data[..])
    ensures multiset(d.data[..])[Floor] == 0
  {
    var i := 0;
    while i < d.data.Length
      invariant 0 <= i <= d.data.Length
      invariant forall j :: 0 <= j < i ==> d.data[j] == Wall
    {
      d.data[i] := Wall;
      i := i + 1;
    }
    assert Floor !in d.data[..];
  }

  /** The walk loop: record each drawn start cell and walk from it. Stops with
      `complete` false at the first walk whose draws ran out. */
  method RunWalks(d: Dungeon, startX: seq<int>, startY: seq<int>, dirDraws: seq<seq<nat>>)
    returns (startPos: seq<Vec2>, complete: bool)
    requires d.Valid() && d.extent0 >= 3 && d.extent1 >= 3
    requires |startX| == NumIter && |startY| == NumIter && |dirDraws| == NumIter
    requires forall k :: 0 <= k < NumIter ==> 1 <= startX[k] <= d.extent1 - 2 && 1 <= startY[k] <= d.extent0 - 2
    requires forall k, i :: 0 <= k < |dirDraws| && 0 <= i < |dirDraws[k]| ==> dirDraws[k][i] < 4
    requires WallOrFloor(d.data[..]) && BorderIsWall(d, d.data[..]) && multiset(d.data[..])[Floor] == 0
    modifies d.data
    ensures WallOrFloor(d.data[..]) && BorderIsWall(d, d.data[..])
    ensures |startPos| <= NumIter
    ensures forall k :: 0 <= k < |startPos| ==> startPos[k] == Vec2(startX[k], startY[k])
    ensures complete ==> |startPos| == NumIter
    ensures complete ==> Carved(d, d.data[..], startPos)
    ensures complete ==> multiset(d.data[..])[Floor] == NumIter * MaxExcavations
  {
    startPos := [];
    var k := 0;
    while k < NumIter
      invariant 0 <= k <= NumIter && |startPos| == k
      invariant forall j :: 0 <= j < k ==> startPos[j] == Vec2(startX[j], startY[j])
      invariant WallOrFloor(d.data[..]) && BorderIsWall(d, d.data[..])
      invariant multiset(d.data[..])[Floor] == k * MaxExcavations
      invariant Carved(d, d.data[..], startPos)
    {
      var p := Vec2(startX[k], startY[k]);
      ghost var before := d.data[..];
      assert before[d.Index(p.y, p.x)] != Blank;
      var excavations, used := DrunkWalk(d, p, dirDraws[k]);
      WalkKeepsShape(d, before, d.data[..], excavations);
      CarvedStable(d, before, d.data[..], startPos);
      CarvedExtend(d, d.data[..], startPos, p);
      assert d.data[..][d.Index(p.y, p.x) := Floor] == d.data[..];
      startPos := startPos + [p];
      if excavations < MaxExcavations {
        complete := false;
        return;
      }
      k := k + 1;
    }
    complete := true;
  }

  /** The carving loops: a corridor from every start cell to every start cell. */
  method CarveAll(d: Dungeon, startPos: seq<Vec2>)
    requires d.Valid() && forall k :: 0 <= k < |startPos| ==> Interior(d, startPos[k])
    requires WallOrFloor(d.data[..]) && BorderIsWall(d, d.data[..])
    modifies d.data
    ensures WallOrFloor(d.data[..]) && BorderIsWall(d, d.data[..])
    ensures CarveEffect(d, old(d.data[..]), d.data[..])
    ensures PairsCarved(d, d.data[..], startPos, |startPos|, 0)
  {
    assert CarveEffect(d, d.data[..], d.data[..]);
    var a := 0;
    while a < |startPos|
      invariant 0 <= a <= |startPos|
      invariant WallOrFloor(d.data[..]) && BorderIsWall(d, d.data[..])
      invariant CarveEffect(d, old(d.data[..]), d.data[..])
      invariant PairsCarved(d, d.data[..], startPos, a, 0)
    {
      var b := 0;
      while b < |startPos|
        invariant 0 <= b <= |startPos|
        invariant WallOrFloor(d.data[..]) && BorderIsWall(d, d.data[..])
        invariant CarveEffect(d, old(d.data[..]), d.data[..])
        invariant PairsCarved(d, d.data[..], startPos, a, b)
      {
        ghost var before := d.data[..];
        CarveCorridor(d, startPos[a], startPos[b]);
        CarveKeepsShape(d, before, d.data[..]);
        PairsCarvedStable(d, before, d.data[..], startPos, a, b);
        CarveEffectTrans(d, old(d.data[..]), before, d.data[..]);
        PairsCarvedNext(d, d.data[..], startPos, a, b);
        b := b + 1;
      }
      PairsCarvedRow(d, d.data[..], startPos, a);
      a := a + 1;
    }
  }

  /** The number of Floor tiles among tiles[lo..hi]. */
  ghost function FloorCount(tiles: seq<Tile>, lo: nat, hi: nat): (c: nat)
    requires lo <= hi <= |tiles|
    ensures c <= hi - lo
    decreases hi - lo
  {
    if lo == hi then 0 else FloorCount(tiles, lo, hi - 1) + (if tiles[hi - 1] == Floor then 1 else 0)
  }

  /** FloorCount over a prefix is the multiplicity of Floor in that prefix. */
  lemma {:induction false} FloorCountMultiset(tiles: seq<Tile>, k: nat)
    requires k <= |tiles|
    ensures FloorCount(tiles, 0, k) == multiset(tiles[..k])[Floor]
  {
    if k > 0 {
      FloorCountMultiset(tiles, k - 1);
      assert tiles[..k] == tiles[..k - 1] + [tiles[k - 1]];
    }
  }

  /** Counting over [lo, hi) is counting over [lo, m) and then over [m, hi). */
  lemma {:induction false} FloorCountSplit(tiles: seq<Tile>, lo: nat, m: nat, hi: nat)
    requires lo <= m <= hi <= |tiles|
    ensures FloorCount(tiles, lo, hi) == FloorCount(tiles, lo, m) + FloorCount(tiles, m, hi)
    decreases hi - m
  {
    if m < hi {
      FloorCountSplit(tiles, lo, m, hi - 1);
    }
  }

  /** A range holding no Floor tile counts zero. */
  lemma {:induction false} FloorCountNone(tiles: seq<Tile>, lo: nat, hi: nat)
    requires lo <= hi <= |tiles|
    requires forall i :: lo <= i < hi ==> tiles[i] != Floor
    ensures FloorCount(tiles, lo, hi) == 0
    decreases hi - lo
  {
    if lo < hi {
      FloorCountNone(tiles, lo, hi - 1);
    }
  }

  /** With the outer ring Wall, row `row` holds no Floor tile when it is the first or the
      last row, and at most extent1 - 2 otherwise. */
  lemma RowFloorBound(d: Dungeon, tiles: seq<Tile>, row: nat)
    requires d.Valid() && |tiles| == d.data.Length && BorderIsWall(d, tiles)
    requires row < d.extent0 && d.extent1 >= 2
    ensures row * d.extent1 + d.extent1 <= |tiles|
    ensures FloorCount(tiles, row * d.extent1, row * d.extent1 + d.extent1)
      <= if row == 0 || row == d.extent0 - 1 then 0 else d.extent1 - 2
  {
    var lo := row * d.extent1;
    var hi := lo + d.extent1;
    IndexInRange(row, d.extent1 - 1, d.extent0, d.extent1);
    assert d.Index(row, 0) == lo && d.Index(row, d.extent1 - 1) == hi - 1;
    if row == 0 || row == d.extent0 - 1 {
      forall i | lo <= i < hi ensures tiles[i] != Floor {
        assert OnBorder(d, row, i - lo) && d.Index(row, i - lo) == i;
      }
      FloorCountNone(tiles, lo, hi);
    } else {
      assert OnBorder(d, row, 0) && OnBorder(d, row, d.extent1 - 1);
      FloorCountSplit(tiles, lo, lo + 1, hi);
      FloorCountSplit(tiles, lo + 1, hi - 1, hi);
      FloorCountNone(tiles, lo, lo + 1);
      FloorCountNone(tiles, hi - 1, hi);
    }
  }

  /** (a + 1) * b == a * b + b, the step the row counts take. */
  lemma MulSucc(a: nat, b: nat)
    ensures (a + 1) * b == a * b + b
  {
  }

  /** The first k rows (k below extent0) hold at most (k - 1) * (extent1 - 2) Floor tiles. */
  lemma {:induction false} RowsFloorBound(d: Dungeon, tiles: seq<Tile>, k: nat)
    requires d.Valid() && |tiles| == d.data.Length && BorderIsWall(d, tiles)
    requires 1 <= k < d.extent0 && d.extent1 >= 2
    ensures k * d.extent1 <= |tiles|
    ensures FloorCount(tiles, 0, k * d.extent1) <= (k - 1) * (d.extent1 - 2)
  {
    RowFloorBound(d, tiles, k - 1);
    MulSucc(k - 1, d.extent1);
    if k > 1 {
      RowsFloorBound(d, tiles, k - 1);
      FloorCountSplit(tiles, 0, (k - 1) * d.extent1, k * d.extent1);
      MulSucc(k - 2, d.extent1 - 2);
    }
  }

  /** With the outer ring Wall, every Floor tile is an interior one, so there are at most
      (extent0 - 2) * (extent1 - 2) of them. */
  lemma FloorsFitInterior(d: Dungeon, tiles: seq<Tile>)
    requires d.Valid() && |tiles| == d.data.Length && BorderIsWall(d, tiles)
    requires d.extent0 >= 2 && d.extent1 >= 2
    ensures multiset(tiles)[Floor] <= (d.extent0 - 2) * (d.extent1 - 2)
  {
    var k, e1 := d.extent0 - 1, d.extent1;
    RowsFloorBound(d, tiles, k);
    RowFloorBound(d, tiles, k);
    MulSucc(k, e1);
    assert k * e1 + e1 == |tiles|;
    FloorCountSplit(tiles, 0, k * e1, |tiles|);
    FloorCountMultiset(tiles, |tiles|);
    assert tiles[..|tiles|] == tiles;
    assert FloorCount(tiles, 0, |tiles|) <= (k - 1) * (e1 - 2);
  }

  /** gen_drunk_dungeon: fill the grid with Wall; run NumIter walks from the drawn start
      cells, recording each start; then carve a corridor from every start cell to every
      start cell. `complete` is false when some walk's direction draws ran out before it
      dug MaxExcavations tiles; generation stops there. */
  method GenDrunkDungeon(d: Dungeon, startX: seq<int>, startY: seq<int>, dirDraws: seq<seq<nat>>)
    returns (startPos: seq<Vec2>, complete: bool)
    requires d.Valid() && d.extent0 >= 3 && d.extent1 >= 3
    requires |startX| == NumIter && |startY| == NumIter && |dirDraws| == NumIter
    requires forall k :: 0 <= k < NumIter ==> 1 <= startX[k] <= d.extent1 - 2 && 1 <= startY[k] <= d.extent0 - 2
    requires forall k, i :: 0 <= k < |dirDraws| && 0 <= i < |dirDraws[k]| ==> dirDraws[k][i] < 4
    modifies d.data
    ensures WallOrFloor(d.data[..])
    ensures BorderIsWall(d, d.data[..])
    ensures |startPos| <= NumIter
    ensures forall k :: 0 <= k < |startPos| ==> startPos[k] == Vec2(startX[k], startY[k])
    ensures complete ==> |startPos| == NumIter
    ensures complete ==> Carved(d, d.data[..], startPos)
    ensures complete ==> PairsCarved(d, d.data[..], startPos, NumIter, 0)
    ensures complete ==> multiset(d.data[..])[Floor] >= NumIter * MaxExcavations
    ensures complete ==> (d.extent0 - 2) * (d.extent1 - 2) >= NumIter * MaxExcavations
  {
    FillWalls(d);
    startPos, complete := RunWalks(d, startX, startY, dirDraws);
    if complete {
      ghost var before := d.data[..];
      CarveAll(d, startPos);
      CarvedStable(d, before, d.data[..], startPos);
      FloorsFitInterior(d, d.data[..]);
    }
  }
}
