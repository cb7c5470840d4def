/** The arena layout of environment.js: a rows x cols grid over the arena
    bounds, jittered positions inside a cell, and the placement of pillars
    and orbs in distinct cells. `Math.random()` is the draw parameters. */
module Environment {
  import opened Wrappers

  datatype Bounds = Bounds(minX: real, maxX: real, minZ: real, maxZ: real)

  /** A grid cell `{ minX, maxX, minZ, maxZ }`. */
  datatype Cell = Cell(minX: real, maxX: real, minZ: real, maxZ: real)

  /** A position `[x, y, z]`. */
  datatype Point3 = Point3(x: real, y: real, z: real)

  /** The spacing `(max - min) / count` of one axis; unused when the count is
      not positive, since no cell is then built. */
  function Spacing(lo: real, hi: real, count: int): real
  {
    if count > 0 then (hi - lo) / (count as real) else 0.0
  }

  /** The `k`-th grid line `lo + k * spacing` of one axis. */
  function Edge(lo: real, k: int, spacing: real): real
  {
    lo + (k as real) * spacing
  }

  /** The cell at row `row` and column `col`: between grid lines `col` and
      `col + 1` across, `row` and `row + 1` deep. */
  function CellAt(b: Bounds, rows: int, cols: int, row: int, col: int): (c: Cell)
    ensures c.minX == Edge(b.minX, col, Spacing(b.minX, b.maxX, cols))
    ensures c.maxX == Edge(b.minX, col + 1, Spacing(b.minX, b.maxX, cols))
    ensures c.minZ == Edge(b.minZ, row, Spacing(b.minZ, b.maxZ, rows))
    ensures c.maxZ == Edge(b.minZ, row + 1, Spacing(b.minZ, b.maxZ, rows))
  {
    var w := Spacing(b.minX, b.maxX, cols);
    var h := Spacing(b.minZ, b.maxZ, rows);
    Cell(Edge(b.minX, col, w), Edge(b.minX, col + 1, w), Edge(b.minZ, row, h), Edge(b.minZ, row + 1, h))
  }

  /** The first `n` cells of row `row`, left to right. */
  function RowCells(b: Bounds, rows: int, cols: int, row: int, n: nat): (s: seq<Cell>)
    ensures |s| == n
    ensures forall c :: 0 <= c < n ==> s[c] == CellAt(b, rows, cols, row, c)
  {
    if n == 0 then [] else RowCells(b, rows, cols, row, n - 1) + [CellAt(b, rows, cols, row, n - 1)]
  }

  /** The first `n` full rows, top to bottom: the row-major order. */
  function GridRows(b: Bounds, rows: int, cols: nat, n: nat): (s: seq<Cell>)
  {
    if n == 0 then [] else GridRows(b, rows, cols, n - 1) + RowCells(b, rows, cols, n - 1, cols)
  }

  /** The whole grid; empty when either count is not positive. */
  function Grid(b: Bounds, rows: int, cols: int): seq<Cell>
  {
    if rows > 0 && cols > 0 then GridRows(b, rows, cols, rows) else []
  }

  /** `generateGrid(bounds, rows, cols)`. */
  method GenerateGrid(b: Bounds, rows: int, cols: int) returns (grid: seq<Cell>)
    ensures grid == Grid(b, rows, cols)
  {
    var cellWidth := Spacing(b.minX, b.maxX, cols);
    var cellHeight := Spacing(b.minZ, b.maxZ, rows);
    grid := [];
    if rows <= 0 || cols <= 0 {
      return;
    }
    var row := 0;
    while row < rows
      invariant 0 <= row <= rows
      invariant grid == GridRows(b, rows, cols, row)
    {
      var col := 0;
      while col < cols
        invariant 0 <= col <= cols
        invariant grid == GridRows(b, rows, cols, row) + RowCells(b, rows, cols, row, col)
      {
        var cell := Cell(Edge(b.minX, col, cellWidth), Edge(b.minX, col + 1, cellWidth),
                         Edge(b.minZ, row, cellHeight), Edge(b.minZ, row + 1, cellHeight));
        assert cell == CellAt(b, rows, cols, row, col);
        assert RowCells(b, rows, cols, row, col + 1) == RowCells(b, rows, cols, row, col) + [cell];
        grid := grid + [cell];
        col := col + 1;
      }
      row := row + 1;
    }
  }

  lemma {:induction false} GridRowsLength(b: Bounds, rows: int, cols: nat, n: nat)
    ensures |GridRows(b, rows, cols, n)| == n * cols
  {
    if n > 0 {
      GridRowsLength(b, rows, cols, n - 1);
      assert (n - 1) * cols + cols == n * cols;
    }
  }

  lemma {:induction false} GridRowsIndex(b: Bounds, rows: int, cols: nat, n: nat, r: nat, c: nat)
    requires r < n && c < cols
    ensures r * cols + c < |GridRows(b, rows, cols, n)|
    ensures GridRows(b, rows, cols, n)[r * cols + c] == CellAt(b, rows, cols, r, c)
  {
    GridRowsLength(b, rows, cols, n - 1);
    GridRowsLength(b, rows, cols, n);
    if r == n - 1 {
      assert r * cols == |GridRows(b, rows, cols, n - 1)|;
    } else {
      assert r * cols + c < (r + 1) * cols <= (n - 1) * cols by {
        MulMonotone(r + 1, n - 1, cols);
      }
      GridRowsIndex(b, rows, cols, n - 1, r, c);
    }
  }

  lemma MulMonotone(a: nat, b: nat, k: nat)
    requires a <= b
    ensures a * k <= b * k
  {
  }

  /** The grid has `rows * cols` cells, in row-major order. */
  lemma GridIsRowMajor(b: Bounds, rows: nat, cols: nat, r: nat, c: nat)
    requires r < rows && c < cols
    ensures |Grid(b, rows, cols)| == rows * cols
    ensures Grid(b, rows, cols)[r * cols + c] == CellAt(b, rows, cols, r, c)
  {
    GridRowsLength(b, rows, cols, rows);
    GridRowsIndex(b, rows, cols, rows, r, c);
  }

  /** Neighbouring cells share an edge: the right edge of `(r, c)` is the
      left edge of `(r, c + 1)`, the far edge of `(r, c)` the near edge of
      `(r + 1, c)`. */
  lemma NeighboursShareEdges(b: Bounds, rows: int, cols: int, r: int, c: int)
    ensures CellAt(b, rows, cols, r, c).maxX == CellAt(b, rows, cols, r, c + 1).minX
    ensures CellAt(b, rows, cols, r, c).maxZ == CellAt(b, rows, cols, r + 1, c).minZ
    ensures CellAt(b, rows, cols, r, c).minZ == CellAt(b, rows, cols, r, c + 1).minZ
    ensures CellAt(b, rows, cols, r, c).minX == CellAt(b, rows, cols, r + 1, c).minX
  {
  }

  /** The outer cells reach the bounds exactly, and every cell of a grid over
      non-empty bounds stays inside them. */
  lemma GridTilesBounds(b: Bounds, rows: nat, cols: nat, r: nat, c: nat)
    requires 0 < rows && 0 < cols && b.minX <= b.maxX && b.minZ <= b.maxZ
    requires r < rows && c < cols
    ensures CellAt(b, rows, cols, r, 0).minX == b.minX
    ensures CellAt(b, rows, cols, r, cols - 1).maxX == b.maxX
    ensures CellAt(b, rows, cols, 0, c).minZ == b.minZ
    ensures CellAt(b, rows, cols, rows - 1, c).maxZ == b.maxZ
    ensures b.minX <= CellAt(b, rows, cols, r, c).minX <= CellAt(b, rows, cols, r, c).maxX <= b.maxX
    ensures b.minZ <= CellAt(b, rows, cols, r, c).minZ <= CellAt(b, rows, cols, r, c).maxZ <= b.maxZ
  {
    AxisTiles(b.minX, b.maxX, cols, c);
    AxisTiles(b.minZ, b.maxZ, rows, r);
  }

  lemma AxisTiles(lo: real, hi: real, count: nat, i: nat)
    requires 0 < count && lo <= hi && i < count
    ensures Edge(lo, 0, Spacing(lo, hi, count)) == lo
    ensures Edge(lo, count, Spacing(lo, hi, count)) == hi
    ensures lo <= Edge(lo, i, Spacing(lo, hi, count)) <= Edge(lo, i + 1, Spacing(lo, hi, count)) <= hi
  {
    var w := Spacing(lo, hi, count);
    assert 0.0 <= w;
    assert (count as real) * w == hi - lo;
    assert ((i + 1) as real) * w <= (count as real) * w by {
      RealMulMonotone((i + 1) as real, count as real, w);
    }
    assert (i as real) * w <= ((i + 1) as real) * w by {
      RealMulMonotone(i as real, (i + 1) as real, w);
    }
    assert 0.0 <= (i as real) * w by {
      RealMulMonotone(0.0, i as real, w);
    }
  }

  lemma RealMulMonotone(a: real, b: real, k: real)
    requires a <= b && 0.0 <= k
    ensures a * k <= b * k
  {
  }
}

module Placement {
  import opened Wrappers
  import opened Environment

  /** `bounds`, `rows` and `cols` of `createEnvironment`. */
  const Arena: Bounds := Bounds(-14.0, 14.0, -14.0, 14.0)
  const Rows: nat := 4
  const Cols: nat := 4
  const Padding: real := 1.0
  const NumPillars: nat := 6
  const NumCollectibles: nat := 8
  const PillarHeight: real := 2.0
  const CollectibleHeight: real := 1.0

  /** The draw `r` scaled to a span. */
  function Offset(r: real, span: real): real
  {
    r * span
  }

  /** `getRandomPositionInCell(cell, padding)` with the two draws for the
      `x` and the `z` coordinate. */
  function PositionInCell(cell: Cell, padding: real, rx: real, rz: real): (p: Point3)
    ensures p.y == 0.0
    ensures 0.0 <= rx < 1.0 && cell.maxX - cell.minX > 2.0 * padding ==>
              cell.minX + padding <= p.x < cell.maxX - padding
    ensures 0.0 <= rz < 1.0 && cell.maxZ - cell.minZ > 2.0 * padding ==>
              cell.minZ + padding <= p.z < cell.maxZ - padding
  {
    Jitter(cell.maxX - cell.minX - 2.0 * padding, rx);
    Jitter(cell.maxZ - cell.minZ - 2.0 * padding, rz);
    Point3(Offset(rx, cell.maxX - cell.minX - 2.0 * padding) + cell.minX + padding, 0.0,
           Offset(rz, cell.maxZ - cell.minZ - 2.0 * padding) + cell.minZ + padding)
  }

  /** A draw in `[0, 1)` scaled to a positive span stays in `[0, span)`. */
  lemma Jitter(span: real, r: real)
    ensures 0.0 <= r < 1.0 && span > 0.0 ==> 0.0 <= Offset(r, span) < span
  {
    if 0.0 <= r < 1.0 && span > 0.0 {
      assert (1.0 - r) * span > 0.0;
      assert span - r * span == (1.0 - r) * span;
    }
  }

  /** `Math.floor(Math.random() * grid.length)`. */
  function CellIndex(r: real, n: nat): int
  {
    (r * (n as real)).Floor
  }

  lemma CellIndexInRange(r: real, n: nat)
    requires 0.0 <= r < 1.0 && n > 0
    ensures 0 <= CellIndex(r, n) < n
  {
    var x := r * (n as real);
    assert 0.0 <= x < n as real;
  }

  /** A cell wider than twice the padding on both axes. */
  predicate Roomy(cell: Cell)
  {
    cell.maxX - cell.minX > 2.0 * Padding && cell.maxZ - cell.minZ > 2.0 * Padding
  }

  datatype Piece = Pillar | Orb

  /** A placed mesh: its kind, the index of its cell in the grid and its
      position. */
  datatype Placed = Placed(piece: Piece, cell: nat, pos: Point3)

  function CellsOf(placed: seq<Placed>): set<nat>
  {
    set i | 0 <= i < |placed| :: placed[i].cell
  }

  predicate AllDraws(draws: seq<real>)
  {
    forall k :: 0 <= k < |draws| ==> 0.0 <= draws[k] < 1.0
  }

  /** A placement inside its cell at the given height. */
  predicate FitsCell(grid: seq<Cell>, p: Placed, height: real)
  {
    p.cell < |grid| && p.pos.y == height &&
    (Roomy(grid[p.cell]) ==>
       grid[p.cell].minX + Padding <= p.pos.x < grid[p.cell].maxX - Padding &&
       grid[p.cell].minZ + Padding <= p.pos.z < grid[p.cell].maxZ - Padding)
  }

  /** The first draw from `c` on that lands on a cell outside `used`. */
  function FirstFreeDraw(n: nat, used: set<nat>, draws: seq<real>, c: nat): (k: Option<nat>)
    requires c <= |draws|
    ensures k.Some? ==> c <= k.value < |draws| && CellIndex(draws[k.value], n) !in used &&
                        forall j :: c <= j < k.value ==> CellIndex(draws[j], n) in used
    ensures k.None? ==> forall j :: c <= j < |draws| ==> CellIndex(draws[j], n) in used
    decreases |draws| - c
  {
    if c == |draws| then None
    else if CellIndex(draws[c], n) !in used then Some(c)
    else FirstFreeDraw(n, used, draws, c + 1)
  }

  /** From cursor `c`, the draws run out before one more mesh is placed:
      every remaining draw hits a used cell, or fewer than two draws are
      left for the position after the first free cell. */
  predicate Starved(n: nat, used: set<nat>, draws: seq<real>, c: nat)
    requires c <= |draws|
  {
    var k := FirstFreeDraw(n, used, draws, c);
    k.None? || k.value + 3 > |draws|
  }

  /** Placement from `c` fails exactly when no draw that still has two
      draws after it lands on a free cell. */
  lemma StarvedIff(n: nat, used: set<nat>, draws: seq<real>, c: nat)
    requires c <= |draws|
    ensures Starved(n, used, draws, c) <==>
              forall j :: c <= j && j + 3 <= |draws| ==> CellIndex(draws[j], n) in used
  {
    var k := FirstFreeDraw(n, used, draws, c);
    if k.Some? && k.value + 3 <= |draws| {
      assert CellIndex(draws[k.value], n) !in used;
    }
  }

  /** One placement from cursor `c`: the cell of the first free draw, the
      position from the two draws after it, and the cursor past them. */
  function PlaceStep(grid: seq<Cell>, piece: Piece, height: real,
                     used: set<nat>, draws: seq<real>, c: nat): (r: Option<(Placed, nat)>)
    requires |grid| > 0 && AllDraws(draws) && c <= |draws|
    ensures r.None? <==> Starved(|grid|, used, draws, c)
    ensures r.Some? ==> c < r.value.1 <= |draws| && r.value.0.cell !in used && FitsCell(grid, r.value.0, height)
  {
    var k := FirstFreeDraw(|grid|, used, draws, c);
    if k.None? || k.value + 3 > |draws| then None
    else
      CellIndexInRange(draws[k.value], |grid|);
      var cell := CellIndex(draws[k.value], |grid|) as nat;
      var pos := PositionInCell(grid[cell], Padding, draws[k.value + 1], draws[k.value + 2]);
      Some((Placed(piece, cell, pos.(y := height)), k.value + 3))
  }

  /** `count` placements one after the other, each marking its cell used;
      `None` as soon as one of them is starved. */
  function GroupFrom(grid: seq<Cell>, piece: Piece, height: real,
                     used: set<nat>, draws: seq<real>, c: nat, count: nat): (r: Option<(seq<Placed>, nat)>)
    requires |grid| > 0 && AllDraws(draws) && c <= |draws|
    ensures r.Some? ==> |r.value.0| == count && c <= r.value.1 <= |draws|
    decreases count
  {
    if count == 0 then Some(([], c))
    else match PlaceStep(grid, piece, height, used, draws, c)
      case None => None
      case Some((p, c')) => Prepend([p], GroupFrom(grid, piece, height, used + {p.cell}, draws, c', count - 1))
  }

  function Prepend(ps: seq<Placed>, r: Option<(seq<Placed>, nat)>): Option<(seq<Placed>, nat)>
  {
    match r
    case None => None
    case Some((rest, c)) => Some((ps + rest, c))
  }

  /** The whole of `createEnvironment`'s placement: six pillars from the
      first draw on, then eight orbs from where the pillars stopped, avoiding
      the pillars' cells. */
  function Layout(grid: seq<Cell>, draws: seq<real>): Option<seq<Placed>>
    requires |grid| > 0 && AllDraws(draws)
  {
    match GroupFrom(grid, Pillar, PillarHeight, {}, draws, 0, NumPillars)
    case None => None
    case Some((pillars, c)) =>
      match GroupFrom(grid, Orb, CollectibleHeight, CellsOf(pillars), draws, c, NumCollectibles)
      case None => None
      case Some((orbs, _)) => Some(pillars + orbs)
  }

  /** The cell drawn for the `i`-th placement from cursor `c` when no draw
      is rejected: every third draw picks a cell. */
  function Head(n: nat, draws: seq<real>, c: nat, i: nat): int
    requires c + 3 * i < |draws|
  {
    CellIndex(draws[c + 3 * i], n)
  }

  /** A group succeeds, using exactly three draws per placement, when every
      third draw from the cursor lands on a distinct cell not used before. */
  lemma {:induction false} GroupFromSucceeds(grid: seq<Cell>, piece: Piece, height: real,
                                             used: set<nat>, draws: seq<real>, c: nat, count: nat)
    requires |grid| > 0 && AllDraws(draws) && c + 3 * count <= |draws|
    requires forall i :: 0 <= i < count ==> Head(|grid|, draws, c, i) !in used
    requires forall i, j :: 0 <= i < j < count ==> Head(|grid|, draws, c, i) != Head(|grid|, draws, c, j)
    ensures GroupFrom(grid, piece, height, used, draws, c, count).Some?
    ensures GroupFrom(grid, piece, height, used, draws, c, count).value.1 == c + 3 * count
    ensures forall i :: 0 <= i < count ==>
              GroupFrom(grid, piece, height, used, draws, c, count).value.0[i].cell == Head(|grid|, draws, c, i)
    decreases count
  {
    if count > 0 {
      var p := FirstPlacement(grid, piece, height, used, draws, c);
      var used', c' := used + {p.cell}, c + 3;
      HeadsAfterFirst(|grid|, used, used', p.cell, draws, c, c', count);
      GroupFromSucceeds(grid, piece, height, used', draws, c', count - 1);
      GroupFromStep(grid, piece, height, used, draws, c, count);
      var rest := GroupFrom(grid, piece, height, used', draws, c', count - 1).value;
      assert GroupFrom(grid, piece, height, used, draws, c, count) == Some(([p] + rest.0, rest.1));
    }
  }

  /** When the draw at the cursor hits a free cell and two draws follow it,
      the placement takes that cell and moves the cursor by three. */
  lemma FirstPlacement(grid: seq<Cell>, piece: Piece, height: real, used: set<nat>, draws: seq<real>, c: nat)
      returns (p: Placed)
    requires |grid| > 0 && AllDraws(draws) && c + 3 <= |draws|
    requires Head(|grid|, draws, c, 0) !in used
    ensures PlaceStep(grid, piece, height, used, draws, c) == Some((p, c + 3))
    ensures p.cell == Head(|grid|, draws, c, 0)
  {
    assert FirstFreeDraw(|grid|, used, draws, c) == Some(c);
    p := PlaceStep(grid, piece, height, used, draws, c).value.0;
  }

  /** After the first placement, the remaining cell draws are the same ones
      shifted by three, and still fresh and distinct. */
  lemma HeadsAfterFirst(n: nat, used: set<nat>, used': set<nat>, cell: nat, draws: seq<real>,
                        c: nat, c': nat, count: nat)
    requires c + 3 * count <= |draws| && count > 0 && c' == c + 3
    requires cell == Head(n, draws, c, 0) && used' == used + {cell}
    requires forall i :: 0 <= i < count ==> Head(n, draws, c, i) !in used
    requires forall i, j :: 0 <= i < j < count ==> Head(n, draws, c, i) != Head(n, draws, c, j)
    ensures forall i :: 0 <= i < count - 1 ==> Head(n, draws, c', i) == Head(n, draws, c, i + 1)
    ensures forall i :: 0 <= i < count - 1 ==> Head(n, draws, c', i) !in used'
    ensures forall i, j :: 0 <= i < j < count - 1 ==> Head(n, draws, c', i) != Head(n, draws, c', j)
  {
    forall i | 0 <= i < count - 1
      ensures Head(n, draws, c', i) == Head(n, draws, c, i + 1)
    {
      assert c' + 3 * i == c + 3 * (i + 1);
    }
    forall i | 0 <= i < count - 1 ensures Head(n, draws, c', i) != cell {
      assert Head(n, draws, c, 0) != Head(n, draws, c, i + 1);
    }
  }

  /** The whole layout is produced from 42 draws when every third one lands
      on a different cell: the rejection loops then never reject. */
  lemma LayoutSucceeds(grid: seq<Cell>, draws: seq<real>)
    requires |grid| > 0 && AllDraws(draws) && 3 * (NumPillars + NumCollectibles) <= |draws|
    requires forall i, j :: 0 <= i < j < NumPillars + NumCollectibles ==>
               Head(|grid|, draws, 0, i) != Head(|grid|, draws, 0, j)
    ensures Layout(grid, draws).Some?
  {
    GroupFromSucceeds(grid, Pillar, PillarHeight, {}, draws, 0, NumPillars);
    var (pillars, c) := GroupFrom(grid, Pillar, PillarHeight, {}, draws, 0, NumPillars).value;
    assert c == 3 * NumPillars;
    forall i | 0 <= i < NumCollectibles
      ensures Head(|grid|, draws, c, i) == Head(|grid|, draws, 0, NumPillars + i)
    {
      assert c + 3 * i == 3 * (NumPillars + i);
    }
    forall i, j | 0 <= i < j < NumCollectibles ensures Head(|grid|, draws, c, i) != Head(|grid|, draws, c, j) {
      assert Head(|grid|, draws, 0, NumPillars + i) != Head(|grid|, draws, 0, NumPillars + j);
    }
    GroupFromSucceeds(grid, Orb, CollectibleHeight, CellsOf(pillars), draws, c, NumCollectibles);
  }

  /** The rejection loop `do { cell = grid[...] } while (usedCells.has(cell))`,
      reading draws from `cursor` on. `None` when the draws run out first. */
  method PickFreeCell(grid: seq<Cell>, used: set<nat>, draws: seq<real>, cursor: nat)
      returns (found: Option<nat>, next: nat)
    requires |grid| > 0 && AllDraws(draws) && cursor <= |draws|
    ensures cursor <= next <= |draws|
    ensures forall k :: cursor <= k < next - 1 ==> CellIndex(draws[k], |grid|) in used
    ensures found.Some? ==> cursor < next && found.value == CellIndex(draws[next - 1], |grid|) &&
                            found.value < |grid| && found.value !in used
    ensures found.None? ==> next == |draws| && forall k :: cursor <= k < |draws| ==> CellIndex(draws[k], |grid|) in used
    ensures found.None? <==> FirstFreeDraw(|grid|, used, draws, cursor).None?
    ensures found.Some? ==> next - 1 == FirstFreeDraw(|grid|, used, draws, cursor).value
  {
    next := cursor;
    while next < |draws|
      invariant cursor <= next <= |draws|
      invariant forall k :: cursor <= k < next ==> CellIndex(draws[k], |grid|) in used
    {
      var index := CellIndex(draws[next], |grid|);
      CellIndexInRange(draws[next], |grid|);
      next := next + 1;
      if index !in used {
        return Some(index as nat), next;
      }
    }
    return None, next;
  }

  /** One iteration of a placement loop: pick a free cell, then draw the
      position in it and set its height. `None` when the draws run out. */
  method PlaceOne(grid: seq<Cell>, piece: Piece, height: real,
                  used: set<nat>, draws: seq<real>, cursor: nat)
      returns (placed: Option<Placed>, next: nat)
    requires |grid| > 0 && AllDraws(draws) && cursor <= |draws|
    ensures cursor <= next <= |draws|
    ensures placed.Some? ==> placed.value.piece == piece && placed.value.cell !in used &&
                             FitsCell(grid, placed.value, height)
    ensures placed.None? ==> next == |draws|
    ensures placed.None? <==> Starved(|grid|, used, draws, cursor)
    ensures placed.Some? ==>
              var k := FirstFreeDraw(|grid|, used, draws, cursor).value;
              next == k + 3 && placed.value.cell == CellIndex(draws[k], |grid|) &&
              placed.value.pos == PositionInCell(grid[placed.value.cell], Padding, draws[k + 1], draws[k + 2]).(y := height)
    ensures PlaceStep(grid, piece, height, used, draws, cursor) ==
              if placed.Some? then Some((placed.value, next)) else None
  {
    var cell;
    cell, next := PickFreeCell(grid, used, draws, cursor);
    if cell.None? || next + 2 > |draws| {
      return None, |draws|;
    }
    var pos := PositionInCell(grid[cell.value], Padding, draws[next], draws[next + 1]);
    next := next + 2;
    pos := pos.(y := height);
    return Some(Placed(piece, cell.value, pos)), next;
  }

  /** Every placement of a group is of its kind, in a cell not used before
      the group, and fits its cell at the group's height. */
  predicate GroupFits(grid: seq<Cell>, piece: Piece, height: real, used: set<nat>, placed: seq<Placed>)
  {
    forall i :: 0 <= i < |placed| ==> placed[i].piece == piece && placed[i].cell !in used &&
                                      FitsCell(grid, placed[i], height)
  }

  /** What a placement loop keeps: the used cells are those before the
      group plus the group's own, one per placement, and the group fits. */
  predicate GroupProgress(grid: seq<Cell>, piece: Piece, height: real, used: set<nat>,
                          usedAfter: set<nat>, placed: seq<Placed>)
  {
    usedAfter == used + CellsOf(placed) && |usedAfter| == |used| + |placed| &&
    GroupFits(grid, piece, height, used, placed) && DistinctCells(placed)
  }

  /** No two placements share a cell. */
  predicate DistinctCells(placed: seq<Placed>)
  {
    forall i, j :: 0 <= i < j < |placed| ==> placed[i].cell != placed[j].cell
  }

  /** One of the two placement loops: `count` meshes at height `height`,
      each in a cell not used before, each marking its cell used. */
  method PlaceGroup(grid: seq<Cell>, piece: Piece, count: nat, height: real,
                    used: set<nat>, draws: seq<real>, cursor: nat)
      returns (ok: bool, placed: seq<Placed>, usedAfter: set<nat>, next: nat)
    requires |grid| > 0 && AllDraws(draws) && cursor <= |draws|
    ensures cursor <= next <= |draws|
    ensures usedAfter == used + CellsOf(placed)
    ensures GroupFits(grid, piece, height, used, placed)
    ensures DistinctCells(placed)
    ensures |usedAfter| == |used| + |placed|
    ensures ok ==> |placed| == count
    ensures !ok ==> next == |draws| && |placed| < count
    ensures GroupFrom(grid, piece, height, used, draws, cursor, count) ==
              if ok then Some((placed, next)) else None
  {
    placed := [];
    usedAfter := used;
    next := cursor;
    ghost var whole := GroupFrom(grid, piece, height, used, draws, cursor, count);
    PrependEmpty(whole);
    assert whole == Prepend(placed, GroupFrom(grid, piece, height, usedAfter, draws, next, count - |placed|));
    while |placed| < count
      invariant |placed| <= count
      invariant cursor <= next <= |draws|
      invariant GroupProgress(grid, piece, height, used, usedAfter, placed)
      invariant whole == Prepend(placed, GroupFrom(grid, piece, height, usedAfter, draws, next, count - |placed|))
    {
      var more;
      ghost var m := count - |placed|;
      more, placed, usedAfter, next := PlaceInGroup(grid, piece, height, used, usedAfter, placed, draws, next, m, whole);
      if !more {
        return false, placed, usedAfter, next;
      }
      assert count - |placed| == m - 1;
    }
    assert GroupFrom(grid, piece, height, usedAfter, draws, next, 0) == Some(([], next));
    assert placed + [] == placed;
    return true, placed, usedAfter, next;
  }

  /** The body of a placement loop: `PlaceOne` on the cells used so far,
      then the new placement recorded, keeping the loop's invariant. */
  method PlaceInGroup(grid: seq<Cell>, piece: Piece, height: real, used: set<nat>,
                      usedAfter: set<nat>, placed: seq<Placed>, draws: seq<real>, at: nat,
                      ghost m: nat, ghost whole: Option<(seq<Placed>, nat)>)
      returns (ok: bool, placed': seq<Placed>, usedAfter': set<nat>, next: nat)
    requires |grid| > 0 && AllDraws(draws) && at <= |draws| && m > 0
    requires GroupProgress(grid, piece, height, used, usedAfter, placed)
    requires whole == Prepend(placed, GroupFrom(grid, piece, height, usedAfter, draws, at, m))
    ensures at <= next <= |draws|
    ensures !ok ==> next == |draws| && whole == None && placed' == placed && usedAfter' == usedAfter
    ensures ok ==> |placed'| == |placed| + 1 && GroupProgress(grid, piece, height, used, usedAfter', placed')
    ensures ok ==> whole == Prepend(placed', GroupFrom(grid, piece, height, usedAfter', draws, next, m - 1))
  {
    var p;
    p, next := PlaceOne(grid, piece, height, usedAfter, draws, at);
    GroupFromStep(grid, piece, height, usedAfter, draws, at, m);
    if p.None? {
      return false, placed, usedAfter, next;
    }
    PrependStep(placed, p.value, GroupFrom(grid, piece, height, usedAfter + {p.value.cell}, draws, next, m - 1));
    ProgressGrows(grid, piece, height, used, usedAfter, placed, p.value);
    return true, placed + [p.value], usedAfter + {p.value.cell}, next;
  }

  /** A fitting placement in a cell not yet used extends the loop's progress. */
  lemma ProgressGrows(grid: seq<Cell>, piece: Piece, height: real, used: set<nat>,
                      usedAfter: set<nat>, placed: seq<Placed>, p: Placed)
    requires GroupProgress(grid, piece, height, used, usedAfter, placed)
    requires p.piece == piece && p.cell !in usedAfter && FitsCell(grid, p, height)
    ensures GroupProgress(grid, piece, height, used, usedAfter + {p.cell}, placed + [p])
  {
    Extend(grid, piece, height, used, placed, p);
  }

  /** One unfolding of `GroupFrom`. */
  lemma GroupFromStep(grid: seq<Cell>, piece: Piece, height: real,
                      used: set<nat>, draws: seq<real>, c: nat, count: nat)
    requires |grid| > 0 && AllDraws(draws) && c <= |draws| && count > 0
    ensures PlaceStep(grid, piece, height, used, draws, c).None? ==>
              GroupFrom(grid, piece, height, used, draws, c, count) == None
    ensures PlaceStep(grid, piece, height, used, draws, c).Some? ==>
              var (p, c') := PlaceStep(grid, piece, height, used, draws, c).value;
              GroupFrom(grid, piece, height, used, draws, c, count) ==
                Prepend([p], GroupFrom(grid, piece, height, used + {p.cell}, draws, c', count - 1))
  {
  }

  lemma PrependEmpty(r: Option<(seq<Placed>, nat)>)
    ensures Prepend([], r) == r
  {
    if r.Some? {
      assert [] + r.value.0 == r.value.0;
    }
  }

  lemma PrependStep(ps: seq<Placed>, p: Placed, r: Option<(seq<Placed>, nat)>)
    ensures Prepend(ps, Prepend([p], r)) == Prepend(ps + [p], r)
  {
    if r.Some? {
      assert ps + ([p] + r.value.0) == (ps + [p]) + r.value.0;
    }
  }

  /** Adding a fitting placement in a fresh cell keeps the group fitting and
      its cells distinct. */
  lemma Extend(grid: seq<Cell>, piece: Piece, height: real, used: set<nat>, placed: seq<Placed>, p: Placed)
    requires p.cell !in used + CellsOf(placed)
    requires p.piece == piece && FitsCell(grid, p, height)
    requires GroupFits(grid, piece, height, used, placed) && DistinctCells(placed)
    ensures CellsOf(placed + [p]) == CellsOf(placed) + {p.cell}
    ensures GroupFits(grid, piece, height, used, placed + [p]) && DistinctCells(placed + [p])
  {
    var q := placed + [p];
    forall i, j | 0 <= i < j < |q| ensures q[i].cell != q[j].cell {
      if j == |placed| {
        assert q[i].cell in CellsOf(placed);
      }
    }
    forall i | 0 <= i < |q| ensures q[i].piece == piece && q[i].cell !in used && FitsCell(grid, q[i], height) {
      if i < |placed| {
        assert q[i] == placed[i];
      }
    }
    assert CellsOf(q) == CellsOf(placed) + {p.cell} by {
      forall x ensures x in CellsOf(q) <==> x in CellsOf(placed) + {p.cell} {
        if x in CellsOf(q) {
          var i :| 0 <= i < |q| && q[i].cell == x;
          if i < |placed| { assert placed[i].cell == x; }
        }
        if x in CellsOf(placed) {
          var i :| 0 <= i < |placed| && placed[i].cell == x;
          assert q[i].cell == x;
        }
        if x == p.cell { assert q[|placed|].cell == x; }
      }
    }
  }

  /** The pillars then the orbs of `createEnvironment`, each group from its
      own rejection loop over the shared `usedCells`. */
  method PlaceOnGrid(grid: seq<Cell>, draws: seq<real>) returns (layout: Option<seq<Placed>>)
    requires |grid| > 0 && AllDraws(draws)
    requires forall k :: 0 <= k < |grid| ==> Roomy(grid[k])
    ensures layout.Some? ==> |layout.value| == NumPillars + NumCollectibles
    ensures layout.Some? ==> forall i :: 0 <= i < NumPillars ==>
              layout.value[i].piece == Pillar && layout.value[i].pos.y == PillarHeight
    ensures layout.Some? ==> forall i :: NumPillars <= i < |layout.value| ==>
              layout.value[i].piece == Orb && layout.value[i].pos.y == CollectibleHeight
    ensures layout.Some? ==> forall i :: 0 <= i < |layout.value| ==> Inside(grid, layout.value[i])
    ensures layout.Some? ==> forall i, j :: 0 <= i < j < |layout.value| ==> layout.value[i].cell != layout.value[j].cell
    ensures layout == Layout(grid, draws)
  {
    var ok1, pillars, used1, next1 := PlaceGroup(grid, Pillar, NumPillars, PillarHeight, {}, draws, 0);
    if !ok1 {
      return None;
    }
    assert {} + CellsOf(pillars) == CellsOf(pillars);
    var ok2, orbs, used2, next2 := PlaceGroup(grid, Orb, NumCollectibles, CollectibleHeight, used1, draws, next1);
    if !ok2 {
      return None;
    }
    JoinGroups(grid, pillars, orbs, used1);
    return Some(pillars + orbs);
  }

  /** Six fitting pillars and eight fitting orbs in cells the pillars left
      free make a valid layout. */
  lemma JoinGroups(grid: seq<Cell>, pillars: seq<Placed>, orbs: seq<Placed>, used1: set<nat>)
    requires forall k :: 0 <= k < |grid| ==> Roomy(grid[k])
    requires |pillars| == NumPillars && |orbs| == NumCollectibles
    requires used1 == {} + CellsOf(pillars)
    requires GroupFits(grid, Pillar, PillarHeight, {}, pillars) && DistinctCells(pillars)
    requires GroupFits(grid, Orb, CollectibleHeight, used1, orbs) && DistinctCells(orbs)
    ensures var all := pillars + orbs;
            && |all| == NumPillars + NumCollectibles
            && (forall i :: 0 <= i < NumPillars ==> all[i].piece == Pillar && all[i].pos.y == PillarHeight)
            && (forall i :: NumPillars <= i < |all| ==> all[i].piece == Orb && all[i].pos.y == CollectibleHeight)
            && (forall i :: 0 <= i < |all| ==> Inside(grid, all[i]))
            && (forall i, j :: 0 <= i < j < |all| ==> all[i].cell != all[j].cell)
  {
    var all := pillars + orbs;
    forall i, j | 0 <= i < j < |all| ensures all[i].cell != all[j].cell {
      if i < |pillars| && |pillars| <= j {
        assert all[i].cell in CellsOf(pillars);
      }
    }
  }

  /** The placement on the 4 x 4 grid over the arena bounds. */
  method PlaceArenaObjects(draws: seq<real>) returns (layout: Option<seq<Placed>>)
    requires AllDraws(draws)
    ensures layout.Some? ==> |layout.value| == NumPillars + NumCollectibles
    ensures layout.Some? ==> forall i :: 0 <= i < NumPillars ==>
              layout.value[i].piece == Pillar && layout.value[i].pos.y == PillarHeight
    ensures layout.Some? ==> forall i :: NumPillars <= i < |layout.value| ==>
              layout.value[i].piece == Orb && layout.value[i].pos.y == CollectibleHeight
    ensures layout.Some? ==> forall i :: 0 <= i < |layout.value| ==> Inside(Grid(Arena, Rows, Cols), layout.value[i])
    ensures layout.Some? ==> forall i, j :: 0 <= i < j < |layout.value| ==> layout.value[i].cell != layout.value[j].cell
    ensures layout == Layout(Grid(Arena, Rows, Cols), draws)
  {
    var grid := GenerateGrid(Arena, Rows, Cols);
    ArenaCellsAreRoomy();
    layout := PlaceOnGrid(grid, draws);
  }

  /** A placement strictly inside the padded interior of its cell. */
  predicate Inside(grid: seq<Cell>, p: Placed)
  {
    p.cell < |grid| &&
    grid[p.cell].minX + Padding <= p.pos.x < grid[p.cell].maxX - Padding &&
    grid[p.cell].minZ + Padding <= p.pos.z < grid[p.cell].maxZ - Padding
  }

  /** Every cell of the 4 x 4 arena grid is 7 x 7, so the jitter stays
      inside it. */
  lemma ArenaCellsAreRoomy()
    ensures |Grid(Arena, Rows, Cols)| == Rows * Cols
    ensures forall k :: 0 <= k < |Grid(Arena, Rows, Cols)| ==> Roomy(Grid(Arena, Rows, Cols)[k])
  {
    GridRowsLength(Arena, Rows, Cols, Rows);
    assert Spacing(-14.0, 14.0, 4) == 7.0;
    GridRowsUniform(Arena, Rows, Cols, Rows);
  }

  /** All cells of a grid have the same extent. */
  lemma {:induction false} GridRowsUniform(b: Bounds, rows: int, cols: nat, n: nat)
    ensures forall k :: 0 <= k < |GridRows(b, rows, cols, n)| ==>
              GridRows(b, rows, cols, n)[k].maxX - GridRows(b, rows, cols, n)[k].minX == Spacing(b.minX, b.maxX, cols) &&
              GridRows(b, rows, cols, n)[k].maxZ - GridRows(b, rows, cols, n)[k].minZ == Spacing(b.minZ, b.maxZ, rows)
  {
    if n > 0 {
      GridRowsUniform(b, rows, cols, n - 1);
      var row := RowCells(b, rows, cols, n - 1, cols);
      forall c | 0 <= c < cols
        ensures row[c].maxX - row[c].minX == Spacing(b.minX, b.maxX, cols)
        ensures row[c].maxZ - row[c].minZ == Spacing(b.minZ, b.maxZ, rows)
      {
        NextMultiple(b.minX, c, Spacing(b.minX, b.maxX, cols));
        NextMultiple(b.minZ, n - 1, Spacing(b.minZ, b.maxZ, rows));
      }
    }
  }

  lemma NextMultiple(lo: real, i: int, w: real)
    ensures Edge(lo, i + 1, w) - Edge(lo, i, w) == w
  {
    assert ((i + 1) as real) == (i as real) + 1.0;
  }

  /** Whenever fewer cells are used than the grid has, a free one exists, so
      each rejection loop can stop: 6 + 8 = 14 placements on 16 cells. */
  lemma FreeCellExists(n: nat, used: set<nat>)
    requires |used| < n
    ensures exists k :: 0 <= k < n && k !in used
  {
    if forall k :: 0 <= k < n ==> k in used {
      assert Range(n) <= used;
      SubsetSize(Range(n), used);
      assert false;
    }
  }

  /** The cell indices `0 .. n - 1`. */
  function Range(n: nat): (r: set<nat>)
    ensures |r| == n
    ensures forall k: nat :: k in r <==> k < n
  {
    if n == 0 then {} else Range(n - 1) + {n - 1}
  }

  lemma {:induction false} SubsetSize(a: set<nat>, b: set<nat>)
    requires a <= b
    ensures |a| <= |b|
    decreases |a|
  {
    if a != {} {
      var x :| x in a;
      SubsetSize(a - {x}, b - {x});
    }
  }

  /** The arena grid has room for every placement. */
  lemma ArenaHasRoom(used: set<nat>)
    requires |used| < NumPillars + NumCollectibles
    ensures exists k :: 0 <= k < Rows * Cols && k !in used
  {
    FreeCellExists(Rows * Cols, used);
  }
}
