/** The static tile layout of the world and the rule that turns it into bodies. */
module TileMap {

  /** Side of one square cell, in world units. */
  const TILE_SIZE: int := 32
  /** Number of cells in a row. */
  const MAP_WIDTH: int := 30
  /** Number of rows. */
  const MAP_HEIGHT: int := 25

  // Cell kinds, as stored in MAP_DATA.
  const GRASS: int := 0
  const FLOOR: int := 1
  const WALL: int := 2
  const ITEM: int := 3

  /** The layout, row by row: MAP_DATA[y][x] is the kind of cell (x, y). */
  const MAP_DATA: seq<seq<int>> := [
    [2, 2, 2, 2, 2, 2, 2, 2, 2, 2, 2, 2, 2, 2, 2, 2, 2, 2, 2, 2, 2, 2, 2, 2, 2, 2, 2, 2, 2, 2],
    [2, 0, 0, 0, 0, 0, 0, 0, 0, 0, 0, 0, 0, 0, 0, 0, 0, 0, 0, 0, 0, 0, 0, 0, 0, 0, 0, 0, 0, 2],
    [2, 0, 0, 0, 0, 0, 0, 0, 0, 0, 0, 0, 0, 0, 0, 0, 0, 0, 0, 0, 0, 0, 0, 0, 0, 0, 0, 0, 0, 2],
    [2, 0, 0, 2, 2, 2, 2, 2, 2, 2, 0, 0, 0, 0, 0, 0, 0, 2, 2, 2, 2, 2, 2, 0, 0, 0, 0, 0, 0, 2],
    [2, 0, 0, 2, 1, 1, 1, 1, 1, 2, 0, 0, 0, 0, 0, 0, 0, 2, 1, 1, 1, 1, 2, 0, 0, 0, 0, 0, 0, 2],
    [2, 0, 0, 2, 1, 1, 3, 1, 1, 2, 0, 0, 0, 0, 0, 0, 0, 2, 1, 1, 1, 1, 2, 0, 0, 0, 0, 0, 0, 2],
    [2, 0, 0, 2, 1, 1, 1, 1, 1, 2, 2, 2, 0, 0, 0, 0, 0, 2, 1, 1, 3, 1, 2, 0, 0, 0, 0, 0, 0, 2],
    [2, 0, 0, 2, 1, 1, 1, 1, 1, 1, 1, 2, 0, 0, 0, 0, 0, 2, 2, 1, 2, 2, 2, 0, 0, 0, 0, 0, 0, 2],
    [2, 0, 0, 2, 2, 2, 1, 2, 2, 2, 1, 2, 0, 0, 0, 0, 0, 0, 0, 0, 0, 0, 0, 0, 0, 0, 0, 0, 0, 2],
    [2, 0, 0, 0, 0, 0, 0, 0, 0, 2, 1, 2, 0, 0, 0, 0, 0, 0, 0, 0, 0, 0, 0, 0, 0, 0, 0, 0, 0, 2],
    [2, 0, 0, 0, 0, 0, 0, 0, 0, 2, 2, 2, 0, 0, 0, 0, 0, 0, 0, 0, 0, 0, 0, 0, 0, 0, 0, 0, 0, 2],
    [2, 0, 0, 0, 0, 0, 0, 0, 0, 0, 0, 0, 0, 0, 0, 0, 0, 0, 0, 0, 0, 0, 0, 0, 0, 0, 0, 0, 0, 2],
    [2, 0, 0, 0, 0, 0, 0, 0, 0, 0, 0, 0, 0, 0, 0, 0, 0, 0, 0, 0, 0, 0, 0, 0, 0, 0, 0, 0, 0, 2],
    [2, 0, 0, 0, 0, 0, 0, 0, 0, 0, 0, 0, 0, 2, 2, 2, 2, 2, 2, 2, 2, 0, 0, 0, 0, 0, 0, 0, 0, 2],
    [2, 0, 0, 0, 0, 0, 0, 0, 0, 0, 0, 0, 0, 2, 1, 1, 1, 1, 1, 1, 2, 0, 0, 0, 0, 0, 0, 0, 0, 2],
    [2, 0, 0, 0, 0, 0, 0, 0, 0, 0, 0, 0, 0, 2, 1, 3, 1, 1, 3, 1, 2, 0, 0, 0, 0, 0, 0, 0, 0, 2],
    [2, 0, 0, 2, 2, 2, 2, 2, 0, 0, 0, 0, 0, 2, 1, 1, 1, 1, 1, 1, 2, 0, 0, 0, 0, 0, 0, 0, 0, 2],
    [2, 0, 0, 2, 1, 1, 1, 2, 0, 0, 0, 0, 0, 2, 1, 1, 1, 1, 1, 1, 2, 0, 0, 0, 0, 0, 0, 0, 0, 2],
    [2, 0, 0, 2, 1, 3, 1, 2, 2, 2, 0, 0, 0, 2, 2, 2, 2, 1, 2, 2, 2, 0, 0, 0, 0, 0, 0, 0, 0, 2],
    [2, 0, 0, 2, 1, 1, 1, 1, 1, 2, 0, 0, 0, 0, 0, 0, 0, 0, 0, 0, 0, 0, 0, 0, 0, 0, 0, 0, 0, 2],
    [2, 0, 0, 2, 2, 2, 1, 2, 2, 2, 0, 0, 0, 0, 0, 0, 0, 0, 0, 0, 0, 0, 0, 0, 0, 0, 0, 0, 0, 2],
    [2, 0, 0, 0, 0, 0, 0, 0, 0, 0, 0, 0, 0, 0, 0, 0, 0, 0, 0, 0, 0, 0, 0, 0, 0, 0, 0, 0, 0, 2],
    [2, 0, 0, 0, 0, 0, 0, 0, 0, 0, 0, 0, 0, 0, 0, 0, 0, 0, 0, 0, 0, 0, 0, 0, 0, 0, 0, 0, 0, 2],
    [2, 0, 0, 0, 0, 0, 0, 0, 0, 0, 0, 0, 0, 0, 0, 0, 0, 0, 0, 0, 0, 0, 0, 0, 0, 0, 0, 0, 0, 2],
    [2, 2, 2, 2, 2, 2, 2, 2, 2, 2, 2, 2, 2, 2, 2, 2, 2, 2, 2, 2, 2, 2, 2, 2, 2, 2, 2, 2, 2, 2]
  ]

  /** A point in world units; cell centres have whole-number coordinates. */
  datatype Point = Point(x: int, y: int)

  /** Width and height of the world rectangle, whose corner is at (0, 0). */
  const WORLD_WIDTH: int := MAP_WIDTH * TILE_SIZE
  const WORLD_HEIGHT: int := MAP_HEIGHT * TILE_SIZE

  /** The grid holds MAP_HEIGHT rows of MAP_WIDTH cells each. */
  lemma MapShape()
    ensures |MAP_DATA| == MAP_HEIGHT
    ensures forall y :: 0 <= y < MAP_HEIGHT ==> |MAP_DATA[y]| == MAP_WIDTH
    ensures IsGrid(MAP_DATA)
  {
  }

  predicate InMap(x: int, y: int) {
    0 <= x < MAP_WIDTH && 0 <= y < MAP_HEIGHT
  }

  /** The kind of cell (x, y): one of the four kinds, and a wall all along the border. */
  function CellAt(x: int, y: int): (kind: int)
    requires InMap(x, y)
    ensures kind in {GRASS, FLOOR, WALL, ITEM}
    ensures x == 0 || x == MAP_WIDTH - 1 || y == 0 || y == MAP_HEIGHT - 1 ==> kind == WALL
  {
    MAP_DATA[y][x]
  }

  /** The world position at which a body for cell (x, y) is placed: the middle of that cell. */
  function Centre(x: int, y: int): Point
  {
    Point(x * TILE_SIZE + TILE_SIZE / 2, y * TILE_SIZE + TILE_SIZE / 2)
  }

  /** The centre of cell (x, y) lies in that cell, half a tile from its top-left corner on both axes. */
  lemma CentreInCell(x: int, y: int)
    ensures Centre(x, y).x / TILE_SIZE == x && Centre(x, y).y / TILE_SIZE == y
    ensures Centre(x, y).x % TILE_SIZE == TILE_SIZE / 2 && Centre(x, y).y % TILE_SIZE == TILE_SIZE / 2
  {
  }

  /** Two cells never share a centre. */
  lemma CentreInjective(x: int, y: int, x': int, y': int)
    requires Centre(x, y) == Centre(x', y')
    ensures x == x' && y == y'
  {
    CentreInCell(x, y);
    CentreInCell(x', y');
  }

  /** The centre of every cell of the map lies strictly inside the world rectangle. */
  lemma CentreInsideWorld(x: int, y: int)
    requires InMap(x, y)
    ensures 0 < Centre(x, y).x < WORLD_WIDTH && 0 < Centre(x, y).y < WORLD_HEIGHT
  {
  }

  /** `grid` has the dimensions of the map. */
  predicate IsGrid(grid: seq<seq<int>>) {
    |grid| == MAP_HEIGHT && forall y :: 0 <= y < MAP_HEIGHT ==> |grid[y]| == MAP_WIDTH
  }

  /** Centres of the cells of `kind` among the first `n` cells of row `y`, left to right. */
  function RowBodies(grid: seq<seq<int>>, kind: int, y: int, n: int): seq<Point>
    requires IsGrid(grid) && 0 <= y < MAP_HEIGHT && 0 <= n <= MAP_WIDTH
  {
    if n == 0 then []
    else RowBodies(grid, kind, y, n - 1) + (if grid[y][n - 1] == kind then [Centre(n - 1, y)] else [])
  }

  /** Centres of the cells of `kind` in the first `rows` rows, in the order createMap visits them. */
  function MapBodies(grid: seq<seq<int>>, kind: int, rows: int): seq<Point>
    requires IsGrid(grid) && 0 <= rows <= MAP_HEIGHT
  {
    if rows == 0 then []
    else MapBodies(grid, kind, rows - 1) + RowBodies(grid, kind, rows - 1, MAP_WIDTH)
  }

  /** Number of cells of `kind` in the first `rows` rows, counted row by row. */
  function CellCount(grid: seq<seq<int>>, kind: int, rows: int): nat
    requires IsGrid(grid) && 0 <= rows <= MAP_HEIGHT
  {
    if rows == 0 then 0 else CellCount(grid, kind, rows - 1) + multiset(grid[rows - 1])[kind]
  }

  /** A row prefix yields one body per cell of `kind` in it. */
  lemma {:induction false} RowBodiesCount(grid: seq<seq<int>>, kind: int, y: int, n: int)
    requires IsGrid(grid) && 0 <= y < MAP_HEIGHT && 0 <= n <= MAP_WIDTH
    ensures |RowBodies(grid, kind, y, n)| == multiset(grid[y][..n])[kind]
  {
    if n > 0 {
      RowBodiesCount(grid, kind, y, n - 1);
      assert grid[y][..n] == grid[y][..n - 1] + [grid[y][n - 1]];
    }
  }

  /** The map yields exactly as many bodies of a kind as it has cells of that kind. */
  lemma {:induction false} MapBodiesCount(grid: seq<seq<int>>, kind: int, rows: int)
    requires IsGrid(grid) && 0 <= rows <= MAP_HEIGHT
    ensures |MapBodies(grid, kind, rows)| == CellCount(grid, kind, rows)
  {
    if rows > 0 {
      MapBodiesCount(grid, kind, rows - 1);
      RowBodiesCount(grid, kind, rows - 1, MAP_WIDTH);
      assert grid[rows - 1][..MAP_WIDTH] == grid[rows - 1];
    }
  }

  /** A point is among the row's bodies exactly when it is the centre of a cell of that kind. */
  lemma {:induction false} RowBodiesExactly(grid: seq<seq<int>>, kind: int, y: int, n: int)
    requires IsGrid(grid) && 0 <= y < MAP_HEIGHT && 0 <= n <= MAP_WIDTH
    ensures forall p :: p in RowBodies(grid, kind, y, n) <==>
      exists x :: 0 <= x < n && grid[y][x] == kind && p == Centre(x, y)
  {
    if n > 0 {
      RowBodiesExactly(grid, kind, y, n - 1);
    }
  }

  /** A point is among the map's bodies exactly when it is the centre of a cell of that kind. */
  lemma {:induction false} MapBodiesExactly(grid: seq<seq<int>>, kind: int, rows: int)
    requires IsGrid(grid) && 0 <= rows <= MAP_HEIGHT
    ensures forall p :: p in MapBodies(grid, kind, rows) <==>
      exists x, y :: 0 <= x < MAP_WIDTH && 0 <= y < rows && grid[y][x] == kind && p == Centre(x, y)
  {
    if rows > 0 {
      MapBodiesExactly(grid, kind, rows - 1);
      RowBodiesExactly(grid, kind, rows - 1, MAP_WIDTH);
    }
  }

  /**
   * createMap: one pass over the grid, row by row and left to right, that adds a static wall
   * body for every WALL cell and an item for every ITEM cell, each at the cell's centre.
   * GRASS and FLOOR cells only get an image, which is not modelled.
   */
  method CreateMap(grid: seq<seq<int>>) returns (walls: seq<Point>, items: seq<Point>)
    requires IsGrid(grid)
    ensures walls == MapBodies(grid, WALL, MAP_HEIGHT)
    ensures items == MapBodies(grid, ITEM, MAP_HEIGHT)
  {
    walls, items := [], [];
    for y := 0 to MAP_HEIGHT
      invariant walls == MapBodies(grid, WALL, y)
      invariant items == MapBodies(grid, ITEM, y)
    {
      for x := 0 to MAP_WIDTH
        invariant walls == MapBodies(grid, WALL, y) + RowBodies(grid, WALL, y, x)
        invariant items == MapBodies(grid, ITEM, y) + RowBodies(grid, ITEM, y, x)
      {
        var tileType := grid[y][x];
        var pos := Centre(x, y);
        if tileType == WALL {
          walls := walls + [pos];
        } else if tileType == ITEM {
          items := items + [pos];
        }
      }
    }
  }

  /** A wall body is created at a cell's centre exactly when the cell is a WALL; likewise items. */
  lemma BodiesExactlyForKind(kind: int, x: int, y: int)
    requires InMap(x, y)
    ensures Centre(x, y) in MapBodies(MAP_DATA, kind, MAP_HEIGHT) <==> CellAt(x, y) == kind
  {
    MapShape();
    MapBodiesExactly(MAP_DATA, kind, MAP_HEIGHT);
    if Centre(x, y) in MapBodies(MAP_DATA, kind, MAP_HEIGHT) {
      var x', y' :| 0 <= x' < MAP_WIDTH && 0 <= y' < MAP_HEIGHT && MAP_DATA[y'][x'] == kind && Centre(x, y) == Centre(x', y');
      CentreInjective(x, y, x', y');
    }
  }

  /** Cells in columns [m, n) of row y that are not of `kind` add no body. */
  lemma {:induction false} RowSkip(grid: seq<seq<int>>, kind: int, y: int, m: int, n: int)
    requires IsGrid(grid) && 0 <= y < MAP_HEIGHT && 0 <= m <= n <= MAP_WIDTH
    requires forall x :: m <= x < n ==> grid[y][x] != kind
    ensures RowBodies(grid, kind, y, n) == RowBodies(grid, kind, y, m)
  {
    if m < n {
      RowSkip(grid, kind, y, m, n - 1);
    }
  }

  /** Rows [m, n) without a cell of `kind` add no body. */
  lemma {:induction false} MapSkip(grid: seq<seq<int>>, kind: int, m: int, n: int)
    requires IsGrid(grid) && 0 <= m <= n <= MAP_HEIGHT
    requires forall y, x :: m <= y < n && 0 <= x < MAP_WIDTH ==> grid[y][x] != kind
    ensures MapBodies(grid, kind, n) == MapBodies(grid, kind, m)
  {
    if m < n {
      MapSkip(grid, kind, m, n - 1);
      RowSkip(grid, kind, n - 1, 0, MAP_WIDTH);
    }
  }

  /** A row whose only cell of `kind` is in column c yields the one body at that cell's centre. */
  lemma OneInRow(grid: seq<seq<int>>, kind: int, y: int, c: int)
    requires IsGrid(grid) && 0 <= y < MAP_HEIGHT && 0 <= c < MAP_WIDTH && grid[y][c] == kind
    requires forall x :: 0 <= x < MAP_WIDTH && x != c ==> grid[y][x] != kind
    ensures RowBodies(grid, kind, y, MAP_WIDTH) == [Centre(c, y)]
  {
    RowSkip(grid, kind, y, 0, c);
    assert RowBodies(grid, kind, y, c + 1) == [Centre(c, y)];
    RowSkip(grid, kind, y, c + 1, MAP_WIDTH);
  }

  /** A row whose only cells of `kind` are in columns c < d yields two bodies, left one first. */
  lemma TwoInRow(grid: seq<seq<int>>, kind: int, y: int, c: int, d: int)
    requires IsGrid(grid) && 0 <= y < MAP_HEIGHT && 0 <= c < d < MAP_WIDTH
    requires grid[y][c] == kind && grid[y][d] == kind
    requires forall x :: 0 <= x < MAP_WIDTH && x != c && x != d ==> grid[y][x] != kind
    ensures RowBodies(grid, kind, y, MAP_WIDTH) == [Centre(c, y), Centre(d, y)]
  {
    RowSkip(grid, kind, y, 0, c);
    assert RowBodies(grid, kind, y, c + 1) == [Centre(c, y)];
    RowSkip(grid, kind, y, c + 1, d);
    assert RowBodies(grid, kind, y, d) == [Centre(c, y)];
    assert RowBodies(grid, kind, y, d + 1) == [Centre(c, y)] + [Centre(d, y)];
    RowSkip(grid, kind, y, d + 1, MAP_WIDTH);
  }

  lemma ItemRow5()
    ensures IsGrid(MAP_DATA) && RowBodies(MAP_DATA, ITEM, 5, MAP_WIDTH) == [Centre(6, 5)]
  {
    OneInRow(MAP_DATA, ITEM, 5, 6);
  }

  lemma ItemRow6()
    ensures IsGrid(MAP_DATA) && RowBodies(MAP_DATA, ITEM, 6, MAP_WIDTH) == [Centre(20, 6)]
  {
    OneInRow(MAP_DATA, ITEM, 6, 20);
  }

  lemma ItemRow15()
    ensures IsGrid(MAP_DATA) && RowBodies(MAP_DATA, ITEM, 15, MAP_WIDTH) == [Centre(15, 15), Centre(18, 15)]
  {
    TwoInRow(MAP_DATA, ITEM, 15, 15, 18);
  }

  lemma ItemRow18()
    ensures IsGrid(MAP_DATA) && RowBodies(MAP_DATA, ITEM, 18, MAP_WIDTH) == [Centre(5, 18)]
  {
    OneInRow(MAP_DATA, ITEM, 18, 5);
  }

  /** Rows 0 to 4 hold no item. */
  lemma ItemFreeTop()
    ensures IsGrid(MAP_DATA) && MapBodies(MAP_DATA, ITEM, 5) == []
  {
    MapSkip(MAP_DATA, ITEM, 0, 5);
  }

  /** Rows 7 to 14 hold no item. */
  lemma ItemFreeMiddle()
    ensures IsGrid(MAP_DATA) && MapBodies(MAP_DATA, ITEM, 15) == MapBodies(MAP_DATA, ITEM, 7)
  {
    ItemFreeRows7To10();
    ItemFreeRows11To14();
  }

  /** Rows 7 to 10 hold no item. */
  lemma ItemFreeRows7To10()
    ensures IsGrid(MAP_DATA) && MapBodies(MAP_DATA, ITEM, 11) == MapBodies(MAP_DATA, ITEM, 7)
  {
    MapSkip(MAP_DATA, ITEM, 7, 11);
  }

  /** Rows 11 to 14 hold no item. */
  lemma ItemFreeRows11To14()
    ensures IsGrid(MAP_DATA) && MapBodies(MAP_DATA, ITEM, 15) == MapBodies(MAP_DATA, ITEM, 11)
  {
    MapSkip(MAP_DATA, ITEM, 11, 15);
  }

  /** Rows 16 and 17 hold no item. */
  lemma ItemFreeLower()
    ensures IsGrid(MAP_DATA) && MapBodies(MAP_DATA, ITEM, 18) == MapBodies(MAP_DATA, ITEM, 16)
  {
    MapSkip(MAP_DATA, ITEM, 16, 18);
  }

  /** Rows 19 to 24 hold no item. */
  lemma ItemFreeBottom()
    ensures IsGrid(MAP_DATA) && MapBodies(MAP_DATA, ITEM, MAP_HEIGHT) == MapBodies(MAP_DATA, ITEM, 19)
  {
    ItemFreeRows19To21();
    ItemFreeRows22To24();
  }

  /** Rows 22 to 24 hold no item. */
  lemma ItemFreeRows22To24()
    ensures IsGrid(MAP_DATA) && MapBodies(MAP_DATA, ITEM, MAP_HEIGHT) == MapBodies(MAP_DATA, ITEM, 22)
  {
    MapSkip(MAP_DATA, ITEM, 22, MAP_HEIGHT);
  }

  /** Rows 19 to 21 hold no item. */
  lemma ItemFreeRows19To21()
    ensures IsGrid(MAP_DATA) && MapBodies(MAP_DATA, ITEM, 22) == MapBodies(MAP_DATA, ITEM, 19)
  {
    MapSkip(MAP_DATA, ITEM, 19, 22);
  }

  /**
   * Puts per-row facts together, for any grid that has them: a grid whose cells of `kind`
   * lie only in rows y1 < y2 < y3 < y4 (one, one, two and one of them) yields those bodies in row order.
   */
  lemma AssembleItems(g: seq<seq<int>>, kind: int, y1: int, y2: int, y3: int, y4: int, a: Point, b: Point, c: Point, d: Point, e: Point)
    requires IsGrid(g) && 0 <= y1 < y2 < y3 < y4 < MAP_HEIGHT
    requires MapBodies(g, kind, y1) == []
    requires RowBodies(g, kind, y1, MAP_WIDTH) == [a]
    requires MapBodies(g, kind, y2) == MapBodies(g, kind, y1 + 1)
    requires RowBodies(g, kind, y2, MAP_WIDTH) == [b]
    requires MapBodies(g, kind, y3) == MapBodies(g, kind, y2 + 1)
    requires RowBodies(g, kind, y3, MAP_WIDTH) == [c, d]
    requires MapBodies(g, kind, y4) == MapBodies(g, kind, y3 + 1)
    requires RowBodies(g, kind, y4, MAP_WIDTH) == [e]
    requires MapBodies(g, kind, MAP_HEIGHT) == MapBodies(g, kind, y4 + 1)
    ensures MapBodies(g, kind, MAP_HEIGHT) == [a, b, c, d, e]
  {
    FirstTwoRows(g, kind, y1, y2, y3, a, b);
    ExtendByRow(g, kind, y3, y4, [a, b], [c, d], [a, b, c, d]);
    ExtendByRow(g, kind, y4, MAP_HEIGHT, [a, b, c, d], [e], [a, b, c, d, e]);
  }

  /** The first two rows of AssembleItems: one body in row y1, one in row y2, none elsewhere above y3. */
  lemma FirstTwoRows(g: seq<seq<int>>, kind: int, y1: int, y2: int, y3: int, a: Point, b: Point)
    requires IsGrid(g) && 0 <= y1 < y2 < y3 <= MAP_HEIGHT
    requires MapBodies(g, kind, y1) == []
    requires RowBodies(g, kind, y1, MAP_WIDTH) == [a]
    requires MapBodies(g, kind, y2) == MapBodies(g, kind, y1 + 1)
    requires RowBodies(g, kind, y2, MAP_WIDTH) == [b]
    requires MapBodies(g, kind, y3) == MapBodies(g, kind, y2 + 1)
    ensures MapBodies(g, kind, y3) == [a, b]
  {
    ExtendByRow(g, kind, y1, y2, [], [a], [a]);
    ExtendByRow(g, kind, y2, y3, [a], [b], [a, b]);
  }

  /**
   * The bodies of the first `next` rows are those of the first `rows` rows, then those of row
   * `rows`, when the rows in between add none.
   */
  lemma ExtendByRow(g: seq<seq<int>>, kind: int, rows: int, next: int, before: seq<Point>, row: seq<Point>, after: seq<Point>)
    requires IsGrid(g) && 0 <= rows < next <= MAP_HEIGHT
    requires MapBodies(g, kind, rows) == before && RowBodies(g, kind, rows, MAP_WIDTH) == row
    requires MapBodies(g, kind, next) == MapBodies(g, kind, rows + 1)
    requires before + row == after
    ensures MapBodies(g, kind, next) == after
  {
  }

  /** The layout holds five items, and createMap places them at these cells, in this order. */
  lemma ItemBodies()
    ensures MapBodies(MAP_DATA, ITEM, MAP_HEIGHT) ==
      [Centre(6, 5), Centre(20, 6), Centre(15, 15), Centre(18, 15), Centre(5, 18)]
  {
    ItemFreeTop();
    ItemRow5();
    ItemRow6();
    ItemFreeMiddle();
    ItemRow15();
    ItemFreeLower();
    ItemRow18();
    ItemFreeBottom();
    AssembleItems(MAP_DATA, ITEM, 5, 6, 15, 18, Centre(6, 5), Centre(20, 6), Centre(15, 15), Centre(18, 15), Centre(5, 18));
  }
}
