/**
 * The maze of the maze-chase game: the fixed character grid, the walkability
 * query, the marker search and the extraction of the collectible cells.
 */
module PacmanMaze {

  datatype Option<T> = None | Some(value: T)

  /** A grid cell; `x` is the column, `y` the row. */
  datatype Pos = Pos(x: int, y: int)

  /** A movement step `{x, y}`, as stored in `direction` and `nextDirection`. */
  datatype Delta = Delta(dx: int, dy: int)

  const Still := Delta(0, 0)

  function Add(p: Pos, d: Delta): Pos {
    Pos(p.x + d.dx, p.y + d.dy)
  }

  /**
   * The maze: '#' wall, '.' dot, 'P' power pellet, 'G' ghost home,
   * 'F' fruit, 'S' player spawn, ' ' open floor.
   */
  const Maze: seq<string> := [
    "######################",
    "#..........##........#",
    "#.####.###.##.###.####",
    "#P..................P#",
    "#.####.#.######.#.####",
    "#......#...##...#....#",
    "######.###.##.###.####",
    "     #.#..........#   ",
    "######.#.###  ###.####",
    "#........#GGGG#......#",
    "######.#.######.#.####",
    "     #.#........#     ",
    "######.#.######.#.####",
    "#..........##........#",
    "#.####.###.##.###.####",
    "#...##.......F.......#",
    "###.##.#.######.#.##.#",
    "#......#...##...#....#",
    "#.##########.#########",
    "#S...................#",
    "######################"
  ]

  predicate InBounds(x: int, y: int) {
    0 <= y < |Maze| && 0 <= x < |Maze[y]|
  }

  /** A cell may be entered iff it lies inside the grid and is not a wall. */
  predicate IsValidMove(x: int, y: int) {
    InBounds(x, y) && Maze[y][x] != '#'
  }

  predicate IsOpen(p: Pos) {
    IsValidMove(p.x, p.y)
  }

  /** The character under `p`, or none outside the grid (`maze[y] && maze[y][x]`). */
  function CellAt(p: Pos): (r: Option<char>)
    ensures r.Some? <==> InBounds(p.x, p.y)
    ensures r.Some? ==> (r.value == '#' <==> !IsOpen(p))
  {
    if InBounds(p.x, p.y) then Some(Maze[p.y][p.x]) else None
  }

  /** The four unit steps in the order the ghosts try them: Up, Down, Left, Right. */
  const Directions: seq<Delta> := [Delta(0, -1), Delta(0, 1), Delta(-1, 0), Delta(1, 0)]

  /** Position of a unit step within `Directions`. */
  function DirIndex(d: Delta): (k: nat)
    ensures d in Directions ==> k < |Directions| && Directions[k] == d
  {
    if d == Delta(0, -1) then 0
    else if d == Delta(0, 1) then 1
    else if d == Delta(-1, 0) then 2
    else 3
  }

  /** Some unit step from `p` reaches an open cell. */
  predicate HasLegalMove(p: Pos) {
    exists d :: d in Directions && IsOpen(Add(p, d))
  }

  /** A step into an open cell can be undone: the cell it came from is a legal move back. */
  lemma StepBack(p: Pos, d: Delta)
    requires d in Directions && IsOpen(p)
    ensures HasLegalMove(Add(p, d))
  {
    var back := Delta(-d.dx, -d.dy);
    assert back in Directions && Add(Add(p, d), back) == p;
  }

  /** Where a captured ghost `i` is sent: (10 + i, 9), inside the ghost house. */
  function HomeCell(i: int): Pos {
    Pos(10 + i, 9)
  }

  /** The ghost-house cells (10..13, 9) are open and can be left. */
  lemma HomeCellOpen(i: int)
    requires 0 <= i < 4
    ensures IsOpen(HomeCell(i)) && HasLegalMove(HomeCell(i))
  {
    HomeRowOpen();
    var d := if i == 0 then Directions[3] else Directions[2];
    assert Add(HomeCell(i), d) == Pos(if i == 0 then 11 else 9 + i, 9);
  }

  /** The ghost house row: (10..13, 9) are open. */
  lemma HomeRowOpen()
    ensures IsOpen(Pos(10, 9)) && IsOpen(Pos(11, 9)) && IsOpen(Pos(12, 9)) && IsOpen(Pos(13, 9))
  {
  }

  /**
   * Ghost 0 spawns at (9, 9), a wall cell; its open neighbours are
   * (8, 9) and (10, 9), and both can be left again.
   */
  lemma WallSpawn()
    ensures !IsOpen(Pos(9, 9)) && HasLegalMove(Pos(9, 9))
    ensures forall d :: d in Directions && IsOpen(Add(Pos(9, 9), d)) ==> HasLegalMove(Add(Pos(9, 9), d))
  {
    assert !IsOpen(Pos(9, 9));
    WallSpawnNeighbours();
    assert Add(Pos(9, 9), Directions[2]) == Pos(8, 9);
    forall d | d in Directions && IsOpen(Add(Pos(9, 9), d))
      ensures HasLegalMove(Add(Pos(9, 9), d))
    {
      if d == Directions[2] {
        assert Add(Pos(8, 9), Directions[2]) == Pos(7, 9) && IsOpen(Pos(7, 9));
      } else if d == Directions[3] {
        HomeCellOpen(0);
      } else {
        assert false;
      }
    }
  }

  /** Around (9, 9) only the cells to the left and right are open. */
  lemma WallSpawnNeighbours()
    ensures !IsOpen(Pos(9, 8)) && !IsOpen(Pos(9, 10))
    ensures IsOpen(Pos(8, 9)) && IsOpen(Pos(10, 9))
  {
  }

  // ---------------------------------------------------------------------
  // Marker search (findPos)
  // ---------------------------------------------------------------------

  /** The first index of `c` in `row`, or -1 (string `indexOf`). */
  function IndexOf(row: string, c: char): (r: int)
    ensures -1 <= r < |row|
    ensures r == -1 <==> c !in row
    ensures r >= 0 ==> row[r] == c && c !in row[..r]
  {
    if row == [] then -1
    else if row[0] == c then 0
    else
      var k := IndexOf(row[1..], c);
      if k == -1 then -1 else k + 1
  }

  /** The first occurrence of `c` in row-major order from row `y` on. */
  function FirstFrom(c: char, y: nat): (r: Option<Pos>)
    ensures r.Some? ==>
      && y <= r.value.y < |Maze| && 0 <= r.value.x < |Maze[r.value.y]|
      && Maze[r.value.y][r.value.x] == c
      && c !in Maze[r.value.y][..r.value.x]
      && forall yy :: y <= yy < r.value.y ==> c !in Maze[yy]
    ensures r.None? ==> forall yy :: y <= yy < |Maze| ==> c !in Maze[yy]
    decreases |Maze| - y
  {
    if y >= |Maze| then None
    else
      var x := IndexOf(Maze[y], c);
      if x != -1 then Some(Pos(x, y)) else FirstFrom(c, y + 1)
  }

  /** Where `findPos(c)` puts an entity: the first `c` cell, else (1, 19). */
  function FirstPos(c: char): Pos {
    match FirstFrom(c, 0)
    case Some(p) => p
    case None => Pos(1, 19)
  }

  /** `findPos`: scan the rows top to bottom with `indexOf`. */
  method FindPos(c: char) returns (p: Pos)
    ensures p == FirstPos(c)
  {
    var y := 0;
    while y < |Maze|
      invariant 0 <= y <= |Maze|
      invariant FirstFrom(c, 0) == FirstFrom(c, y)
    {
      var x := IndexOf(Maze[y], c);
      if x != -1 {
        return Pos(x, y);
      }
      y := y + 1;
    }
    return Pos(1, 19);
  }

  lemma SpawnRow()
    ensures |Maze| == 21 && |Maze[19]| == 22
    ensures Maze[19][1] == 'S' && Maze[19][0] == '#'
  {
  }

  /** No row above row 19 holds the spawn marker. */
  lemma NoSpawnAbove(y: int)
    requires 0 <= y < 19
    ensures 'S' !in Maze[y]
  {
  }

  lemma SpawnColumn()
    ensures IndexOf(Maze[19], 'S') == 1
  {
    SpawnRow();
    var row := Maze[19];
    assert row[1] in row;
    assert forall k :: 1 < k <= |row| ==> row[..k][1] == 'S';
  }

  lemma {:induction false} SkipRowsAboveSpawn(y: nat)
    requires y <= 19
    ensures FirstFrom('S', y) == FirstFrom('S', 19)
    decreases 19 - y
  {
    if y < 19 {
      NoSpawnAbove(y);
      SkipRowsAboveSpawn(y + 1);
    }
  }

  /** The player's spawn cell, written out; `SpawnCell` shows it is where `findPos('S')` points. */
  const Spawn := Pos(1, 19)

  /** `findPos('S')` yields `Spawn`, an open cell. */
  lemma SpawnCell()
    ensures FirstPos('S') == Spawn
    ensures IsOpen(Spawn)
  {
    SpawnRow();
    SkipRowsAboveSpawn(0);
    SpawnColumn();
  }

  // ---------------------------------------------------------------------
  // Collectibles (initializeDots)
  // ---------------------------------------------------------------------

  /** 'S' is stored in the dot set along with '.'. */
  predicate IsDotChar(c: char) {
    c == '.' || c == 'S'
  }

  predicate IsPelletChar(c: char) {
    c == 'P'
  }

  /** Whether a cell character belongs to the dot set (`dot`) or to the pellet set. */
  predicate OfKind(dot: bool, c: char) {
    if dot then IsDotChar(c) else IsPelletChar(c)
  }

  /** The cells of `grid` of one kind that come before (x, y) in row-major order. */
  ghost function CellsBefore(grid: seq<string>, dot: bool, y: int, x: int): set<Pos> {
    set yy, xx | 0 <= yy < |grid| && 0 <= xx < |grid[yy]|
                 && (yy < y || (yy == y && xx < x)) && OfKind(dot, grid[yy][xx])
      :: Pos(xx, yy)
  }

  /** All cells of `grid` of one kind. */
  function CellsOf(grid: seq<string>, dot: bool): set<Pos> {
    set yy, xx | 0 <= yy < |grid| && 0 <= xx < |grid[yy]| && OfKind(dot, grid[yy][xx]) :: Pos(xx, yy)
  }

  /** Every cell holding a dot at the start of a level. */
  function DotCells(): set<Pos> {
    CellsOf(Maze, true)
  }

  /** Every cell holding a power pellet at the start of a level. */
  function PelletCells(): set<Pos> {
    CellsOf(Maze, false)
  }

  /** The row-major scan of `initializeDots` over any grid. */
  method CollectCells(grid: seq<string>) returns (dots: set<Pos>, powerPellets: set<Pos>)
    ensures dots == CellsOf(grid, true) && powerPellets == CellsOf(grid, false)
  {
    dots, powerPellets := {}, {};
    var y := 0;
    while y < |grid|
      invariant 0 <= y <= |grid|
      invariant dots == CellsBefore(grid, true, y, 0)
      invariant powerPellets == CellsBefore(grid, false, y, 0)
    {
      var x := 0;
      while x < |grid[y]|
        invariant 0 <= x <= |grid[y]|
        invariant dots == CellsBefore(grid, true, y, x)
        invariant powerPellets == CellsBefore(grid, false, y, x)
      {
        var cell := grid[y][x];
        if cell == '.' || cell == 'S' {
          dots := dots + {Pos(x, y)};
        } else if cell == 'P' {
          powerPellets := powerPellets + {Pos(x, y)};
        }
        assert CellsBefore(grid, true, y, x + 1) == CellsBefore(grid, true, y, x) + (if IsDotChar(cell) then {Pos(x, y)} else {});
        assert CellsBefore(grid, false, y, x + 1) == CellsBefore(grid, false, y, x) + (if IsPelletChar(cell) then {Pos(x, y)} else {});
        x := x + 1;
      }
      assert CellsBefore(grid, true, y + 1, 0) == CellsBefore(grid, true, y, |grid[y]|);
      assert CellsBefore(grid, false, y + 1, 0) == CellsBefore(grid, false, y, |grid[y]|);
      y := y + 1;
    }
    assert CellsBefore(grid, true, |grid|, 0) == CellsOf(grid, true);
    assert CellsBefore(grid, false, |grid|, 0) == CellsOf(grid, false);
  }

  /** `initializeDots`: the dot and pellet sets of the maze. */
  method InitializeDots() returns (dots: set<Pos>, powerPellets: set<Pos>)
    ensures dots == DotCells() && powerPellets == PelletCells()
  {
    dots, powerPellets := CollectCells(Maze);
  }

  /**
   * The two collectible sets are disjoint, hold only open cells, and
   * the spawn cell is a dot.
   */
  lemma CollectiblesWellFormed()
    ensures DotCells() !! PelletCells()
    ensures forall p :: p in DotCells() ==> IsOpen(p) && CellAt(p) in {Some('.'), Some('S')}
    ensures forall p :: p in PelletCells() ==> IsOpen(p) && CellAt(p) == Some('P')
    ensures forall x, y :: InBounds(x, y) && Maze[y][x] == '.' ==> Pos(x, y) in DotCells()
    ensures Pos(1, 19) in DotCells()
  {
    assert Maze[19][1] == 'S';
  }
}
