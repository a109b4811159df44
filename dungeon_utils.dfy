/** The dungeon grid and its queries (roguelike/sources/gameplay/dungeon/dungeonUtils.cpp,
    dungeon.hpp). The grid is a row-major array viewed with extents (extent0, extent1);
    a position (x, y) names row y and column x. */
module DungeonUtils {
  import opened Actions
  import opened Wrappers

  /** A tile. `Blank` is the zero character a freshly allocated grid holds: it is
      neither Wall ('#') nor Floor (' '). */
  datatype Tile = Blank | Wall | Floor

  /** row * cols + col is a valid index of a rows-by-cols grid. */
  lemma IndexInRange(row: nat, col: nat, rows: nat, cols: nat)
    requires row < rows && col < cols
    ensures row * cols + col < rows * cols
  {
    calc {
      row * cols + col;
    <
      row * cols + cols;
    ==
      (row + 1) * cols;
    <=
      rows * cols;
    }
  }

  /** Distinct cells of a grid with `cols` columns have distinct indices. */
  lemma IndexDistinct(row: nat, col: nat, row2: nat, col2: nat, cols: nat)
    requires col < cols && col2 < cols && (row != row2 || col != col2)
    ensures row * cols + col != row2 * cols + col2
  {
    if row < row2 {
      calc {
        row * cols + col;
      <
        (row + 1) * cols;
      <=
        row2 * cols;
      <=
        row2 * cols + col2;
      }
    } else if row2 < row {
      calc {
        row2 * cols + col2;
      <
        (row2 + 1) * cols;
      <=
        row * cols;
      <=
        row * cols + col;
      }
    }
  }

  class Dungeon {
    const data: array<Tile>
    /** The first extent: the number of rows (make_dungeon passes `width` here). */
    const extent0: nat
    /** The second extent: the number of columns (make_dungeon passes `height` here). */
    const extent1: nat

    ghost predicate Valid() {
      data.Length == extent0 * extent1
    }

    predicate InBounds(pos: Vec2) {
      0 <= pos.x < extent1 && 0 <= pos.y < extent0
    }

    function Index(row: nat, col: nat): (i: nat)
      requires Valid() && row < extent0 && col < extent1
      ensures i < data.Length
    {
      IndexInRange(row, col, extent0, extent1);
      row * extent1 + col
    }

    /** view(row, col). */
    function At(row: nat, col: nat): Tile
      reads data
      requires Valid() && row < extent0 && col < extent1
    {
      data[Index(row, col)]
    }

    /** make_dungeon(width, height): width * height tiles, all zero, viewed as
        (width, height). */
    constructor MakeDungeon(width: nat, height: nat)
      ensures Valid() && fresh(data)
      ensures extent0 == width && extent1 == height && data.Length == width * height
      ensures forall i :: 0 <= i < data.Length ==> data[i] == Blank
    {
      data := new Tile[width * height](_ => Blank);
      extent0 := width;
      extent1 := height;
    }

    /** is_tile_walkable: false off the grid, otherwise whether the tile is Floor. */
    predicate IsTileWalkable(pos: Vec2)
      reads data
      requires Valid()
    {
      InBounds(pos) && At(pos.y, pos.x) == Floor
    }

    /** Floor cells of row `row` in columns 0 .. cols-1, left to right. */
    ghost function RowFloors(row: nat, cols: nat): (r: seq<Vec2>)
      reads data
      requires Valid() && row < extent0 && cols <= extent1
      ensures forall p :: p in r <==> p.y == row && 0 <= p.x < cols && At(row, p.x) == Floor
    {
      if cols == 0 then []
      else RowFloors(row, cols - 1) + (if At(row, cols - 1) == Floor then [Vec2(cols - 1, row)] else [])
    }

    /** Floor cells of rows 0 .. rows-1 in row-major order. */
    ghost function FloorsBefore(rows: nat): (r: seq<Vec2>)
      reads data
      requires Valid() && rows <= extent0
      ensures forall p :: p in r <==> 0 <= p.y < rows && 0 <= p.x < extent1 && At(p.y, p.x) == Floor
    {
      if rows == 0 then [] else FloorsBefore(rows - 1) + RowFloors(rows - 1, extent1)
    }

    /** Every Floor cell of the grid, row by row. */
    ghost function FloorCells(): seq<Vec2>
      reads data
      requires Valid()
    {
      FloorsBefore(extent0)
    }

    /** The inner loop of find_walkable_tile: append row `row`'s Floor cells. */
    method AppendRowFloors(row: nat, posList: seq<Vec2>) returns (r: seq<Vec2>)
      requires Valid() && row < extent0
      ensures r == posList + RowFloors(row, extent1)
    {
      r := posList;
      var x := 0;
      while x < extent1
        invariant 0 <= x <= extent1
        invariant r == posList + RowFloors(row, x)
      {
        if At(row, x) == Floor {
          r := r + [Vec2(x, row)];
        }
        x := x + 1;
      }
    }

    /** find_walkable_tile with the random draw passed in: list the Floor cells in
        row-major order and return the one at index `draw`. A draw outside the list
        (in the source: an empty list) has no tile to return. */
    method FindWalkableTile(draw: nat) returns (res: Option<Vec2>)
      requires Valid()
      ensures draw < |FloorCells()| ==> res == Some(FloorCells()[draw])
      ensures draw >= |FloorCells()| ==> res == None
      ensures res.Some? ==> IsTileWalkable(res.value)
    {
      var posList: seq<Vec2> := [];
      var y := 0;
      while y < extent0
        invariant 0 <= y <= extent0
        invariant posList == FloorsBefore(y)
      {
        posList := AppendRowFloors(y, posList);
        y := y + 1;
      }
      if draw < |posList| {
        assert posList[draw] in FloorsBefore(extent0);
        res := Some(posList[draw]);
      } else {
        res := None;
      }
    }
  }

  /** A cell is listed exactly when it is walkable: the list is the walkable set. */
  lemma FloorCellsAreWalkable(d: Dungeon, p: Vec2)
    requires d.Valid()
    ensures p in d.FloorCells() <==> d.IsTileWalkable(p)
  {
  }

  /** A new grid has no walkable tile: its tiles are zero, not Floor. */
  lemma FreshGridNotWalkable(d: Dungeon, p: Vec2)
    requires d.Valid() && forall i :: 0 <= i < d.data.Length ==> d.data[i] == Blank
    ensures !d.IsTileWalkable(p)
  {
  }
}
