/**
  The walk cache of a creature (creature.cpp): a 23 by 23 window of booleans centred on the creature,
  shifted in place on every step and refreshed along the border that came into view.
*/
module WalkCache {

  const VIEW := 11 // maxWalkCacheWidth and maxWalkCacheHeight
  const SIZE := 23 // mapWalkWidth and mapWalkHeight

  type Coord = c: int | 0 <= c < 0x1_0000

  datatype Position = Position(x: Coord, y: Coord, z: nat)

  /** Which positions hold a tile that the creature may enter, as `queryAdd` answers at some moment. */
  type World = Position -> bool

  /** The contents of `localMapCache`, row by row. */
  type Grid = g: seq<seq<bool>> | |g| == SIZE && forall r :: 0 <= r < SIZE ==> |g[r]| == SIZE
    ghost witness seq(SIZE, _ => seq(SIZE, _ => false))

  /** Conversion of a coordinate to `uint16_t`. */
  function Wrap(v: int): Coord {
    v % 0x1_0000
  }

  function Abs(v: int): nat {
    if v < 0 then -v else v
  }

  /** The tile that the code looks up for the cell at offset (dx, dy). */
  function TileAt(me: Position, dx: int, dy: int): Position {
    Position(Wrap(me.x + dx), Wrap(me.y + dy), me.z)
  }

  // ---------------------------------------------------------------- the code's steps, on values

  function ShiftRowsDown(g: Grid): Grid {
    [g[0]] + g[..SIZE - 1]
  }

  function ShiftRowsUp(g: Grid): Grid {
    g[1..] + [g[SIZE - 1]]
  }

  /** Moves the rows lo..hi one column to the west; the last column stays. */
  function ShiftColsWest(g: Grid, lo: int, hi: int): Grid {
    seq(SIZE, r requires 0 <= r < SIZE => if lo <= r <= hi then g[r][1..] + [g[r][SIZE - 1]] else g[r])
  }

  /** Moves the rows lo..hi one column to the east; the first column stays. */
  function ShiftColsEast(g: Grid, lo: int, hi: int): Grid {
    seq(SIZE, r requires 0 <= r < SIZE => if lo <= r <= hi then [g[r][0]] + g[r][..SIZE - 1] else g[r])
  }

  function Blank(): Grid {
    var row := seq(SIZE, _ => false);
    seq(SIZE, _ => row)
  }

  function SetCell(g: Grid, r: int, c: int, v: bool): Grid
    requires 0 <= r < SIZE && 0 <= c < SIZE
  {
    g[r := g[r][c := v]]
  }

  function RefreshRow(g: Grid, w: World, me: Position, dy: int): Grid
    requires Abs(dy) <= VIEW
  {
    g[VIEW + dy := seq(SIZE, c => w(TileAt(me, c - VIEW, dy)))]
  }

  function RefreshColumn(g: Grid, w: World, me: Position, dx: int): Grid
    requires Abs(dx) <= VIEW
  {
    var g' := seq(SIZE, r requires 0 <= r < SIZE => g[r][VIEW + dx := w(TileAt(me, dx, r - VIEW))]);
    assert forall r :: 0 <= r < SIZE ==> |g'[r]| == SIZE;
    g'
  }

  predicate InWindow(me: Position, pos: Position) {
    pos.z == me.z && Abs(pos.x - me.x) <= VIEW && Abs(pos.y - me.y) <= VIEW
  }

  /** updateTileCache for a position: only a cell inside the window on the same floor is written. */
  function RefreshTile(g: Grid, w: World, me: Position, at: Position): Grid {
    if InWindow(me, at) then SetCell(g, VIEW + at.y - me.y, VIEW + at.x - me.x, w(at)) else g
  }

  predicate OnMap(me: Position, dx: int, dy: int) {
    0 <= me.x + dx < 0x1_0000 && 0 <= me.y + dy < 0x1_0000
  }

  /** updateMapCache: cells whose coordinates wrap around name a far-away tile and are left alone. */
  function Recomputed(g: Grid, w: World, me: Position): Grid {
    seq(SIZE, r requires 0 <= r < SIZE =>
      seq(SIZE, c requires 0 <= c < SIZE =>
        if OnMap(me, c - VIEW, r - VIEW) then w(TileAt(me, c - VIEW, r - VIEW)) else g[r][c]))
  }

  /** The rows that the column shift touches, given the value that the code computes for `dy`. */
  function FirstRow(dy: int): int {
    if dy > 0 then dy else 0
  }

  function LastRow(dy: int): int {
    if dy < 0 then SIZE - 1 + dy else SIZE - 1
  }

  function MovedRows(g: Grid, w: World, from: Position, to: Position): Grid {
    if from.y > to.y then RefreshRow(ShiftRowsDown(g), w, to, -VIEW)
    else if from.y < to.y then RefreshRow(ShiftRowsUp(g), w, to, VIEW)
    else g
  }

  function MovedColumns(g: Grid, w: World, from: Position, to: Position, dy: int): Grid {
    if from.x < to.x then RefreshColumn(ShiftColsWest(g, FirstRow(dy), LastRow(dy)), w, to, VIEW)
    else if from.x > to.x then RefreshColumn(ShiftColsEast(g, FirstRow(dy), LastRow(dy)), w, to, -VIEW)
    else g
  }

  /** The cache after an ordinary step, for a given value of `dy`. */
  function MovedBy(g: Grid, w: World, from: Position, to: Position, dy: int): Grid {
    RefreshTile(MovedColumns(MovedRows(g, w, from, to), w, from, to, dy), w, to, from)
  }

  /** The code passes the distance between the two rows, which is never negative. */
  function Moved(g: Grid, w: World, from: Position, to: Position): Grid {
    MovedBy(g, w, from, to, Abs(from.y - to.y))
  }

  // ---------------------------------------------------------------- what a reader of the cache sees

  /** getWalkCache for a creature that uses the cache. */
  function Answer(g: Grid, me: Position, pos: Position): int {
    if me.z != pos.z then 0
    else if pos == me then 1
    else if InWindow(me, pos) then
      if g[VIEW + pos.y - me.y][VIEW + pos.x - me.x] then 1 else 0
    else 2
  }

  /** The answer without any cache. */
  function Truth(w: World, me: Position, pos: Position): int {
    if me.z != pos.z then 0
    else if pos == me then 1
    else if InWindow(me, pos) then if w(pos) then 1 else 0
    else 2
  }

  ghost predicate Faithful(g: Grid, w: World, me: Position) {
    forall pos :: Answer(g, me, pos) == Truth(w, me, pos)
  }

  /** A step that the map reports without the teleport mark: same floor, at most one tile per axis. */
  predicate IsStep(from: Position, to: Position) {
    from.z == to.z && Abs(from.x - to.x) <= 1 && Abs(from.y - to.y) <= 1
  }

  predicate SouthDiagonal(from: Position, to: Position) {
    from.y < to.y && from.x != to.x
  }

  /** Only the two given tiles may have changed. */
  ghost predicate SameExcept(w: World, w': World, a: Position, b: Position) {
    forall pos :: pos != a && pos != b ==> w(pos) == w'(pos)
  }

  // ---------------------------------------------------------------- theorems about one event

  function CellOf(g: Grid, me: Position, pos: Position): bool
    requires InWindow(me, pos)
  {
    g[VIEW + pos.y - me.y][VIEW + pos.x - me.x]
  }

  lemma AnswerByCell(g: Grid, w: World, me: Position, pos: Position)
    requires InWindow(me, pos) && pos != me
    ensures Answer(g, me, pos) == Truth(w, me, pos) <==> CellOf(g, me, pos) == w(pos)
  {
  }

  lemma WrongCell(g: Grid, w: World, me: Position, pos: Position)
    requires InWindow(me, pos) && pos != me && CellOf(g, me, pos) != w(pos)
    ensures !Faithful(g, w, me)
  {
    AnswerByCell(g, w, me, pos);
  }

  lemma AnswerOutside(g: Grid, w: World, me: Position, pos: Position)
    requires !(InWindow(me, pos) && pos != me)
    ensures Answer(g, me, pos) == Truth(w, me, pos)
  {
  }

  /** A cache is faithful when every cell on the map, the centre aside, is up to date. */
  lemma FaithfulByCells(g: Grid, w: World, me: Position)
    ensures Faithful(g, w, me) <==> forall pos :: InWindow(me, pos) && pos != me ==> CellOf(g, me, pos) == w(pos)
  {
    if Faithful(g, w, me) {
      forall pos | InWindow(me, pos) && pos != me ensures CellOf(g, me, pos) == w(pos) {
        assert Answer(g, me, pos) == Truth(w, me, pos);
      }
    }
  }

  lemma RecomputedIsFaithful(g: Grid, w: World, me: Position)
    ensures Faithful(Recomputed(g, w, me), w, me)
  {
    forall pos | InWindow(me, pos) && pos != me ensures CellOf(Recomputed(g, w, me), me, pos) == w(pos) {
      var r, c := VIEW + pos.y - me.y, VIEW + pos.x - me.x;
      assert OnMap(me, c - VIEW, r - VIEW) && TileAt(me, c - VIEW, r - VIEW) == pos;
      assert Recomputed(g, w, me)[r][c] == w(pos);
    }
    FaithfulByCells(Recomputed(g, w, me), w, me);
  }

  ghost predicate CellsUpToDate(g: Grid, w: World, me: Position) {
    forall pos :: InWindow(me, pos) && pos != me ==> CellOf(g, me, pos) == w(pos)
  }

  /** The row that MovedRows has filled from scratch. */
  predicate FreshRow(from: Position, to: Position, r: int) {
    (from.y > to.y && r == 0) || (from.y < to.y && r == SIZE - 1)
  }

  predicate FreshColumn(from: Position, to: Position, c: int) {
    (from.x > to.x && c == 0) || (from.x < to.x && c == SIZE - 1)
  }

  /** What the row phase does to each cell. */
  ghost predicate RowsDone(g: Grid, g': Grid, w: World, from: Position, to: Position) {
    forall r, c :: 0 <= r < SIZE && 0 <= c < SIZE ==> RowDone(g, g', w, from, to, r, c)
  }

  ghost predicate RowDone(g: Grid, g': Grid, w: World, from: Position, to: Position, r: int, c: int)
    requires 0 <= r < SIZE && 0 <= c < SIZE
  {
    if FreshRow(from, to, r) then g'[r][c] == w(TileAt(to, c - VIEW, r - VIEW))
    else 0 <= r + to.y - from.y < SIZE && g'[r][c] == g[r + to.y - from.y][c]
  }

  /** What the column phase does to each cell. */
  ghost predicate ColumnsDone(g: Grid, g': Grid, w: World, from: Position, to: Position, dy: int) {
    forall r, c :: 0 <= r < SIZE && 0 <= c < SIZE ==> ColumnDone(g, g', w, from, to, dy, r, c)
  }

  ghost predicate ColumnDone(g: Grid, g': Grid, w: World, from: Position, to: Position, dy: int, r: int, c: int)
    requires 0 <= r < SIZE && 0 <= c < SIZE
  {
    if FreshColumn(from, to, c) then g'[r][c] == w(TileAt(to, c - VIEW, r - VIEW))
    else
      0 <= c + to.x - from.x < SIZE &&
      g'[r][c] == g[r][if FirstRow(dy) <= r <= LastRow(dy) then c + to.x - from.x else c]
  }

  lemma MovedRowsCells(g: Grid, w: World, from: Position, to: Position)
    requires IsStep(from, to)
    ensures RowsDone(g, MovedRows(g, w, from, to), w, from, to)
  {
    var s := if from.y > to.y then ShiftRowsDown(g) else if from.y < to.y then ShiftRowsUp(g) else g;
    var g' := MovedRows(g, w, from, to);
    forall r, c | 0 <= r < SIZE && 0 <= c < SIZE
      ensures if FreshRow(from, to, r) then g'[r][c] == w(TileAt(to, c - VIEW, r - VIEW)) else g'[r][c] == s[r][c]
      ensures FreshRow(from, to, r) || (0 <= r + to.y - from.y < SIZE && s[r][c] == g[r + to.y - from.y][c])
    {
    }
  }

  lemma ShiftedColumnsCells(g: Grid, lo: int, hi: int, r: int, c: int)
    requires 0 <= r < SIZE && 0 <= c < SIZE
    ensures c < SIZE - 1 ==> ShiftColsWest(g, lo, hi)[r][c] == g[r][if lo <= r <= hi then c + 1 else c]
    ensures 0 < c ==> ShiftColsEast(g, lo, hi)[r][c] == g[r][if lo <= r <= hi then c - 1 else c]
  {
  }

  lemma RefreshedColumnCells(g: Grid, w: World, me: Position, dx: int, r: int, c: int)
    requires 0 <= r < SIZE && 0 <= c < SIZE && Abs(dx) <= VIEW
    ensures RefreshColumn(g, w, me, dx)[r][c] == if c == VIEW + dx then w(TileAt(me, dx, r - VIEW)) else g[r][c]
  {
  }

  lemma MovedColumnsCells(g: Grid, w: World, from: Position, to: Position, dy: int)
    requires IsStep(from, to)
    ensures ColumnsDone(g, MovedColumns(g, w, from, to, dy), w, from, to, dy)
  {
    forall r, c | 0 <= r < SIZE && 0 <= c < SIZE
      ensures ColumnDone(g, MovedColumns(g, w, from, to, dy), w, from, to, dy, r, c) {
      MovedColumnCell(g, w, from, to, dy, r, c);
    }
  }

  lemma MovedColumnCell(g: Grid, w: World, from: Position, to: Position, dy: int, r: int, c: int)
    requires IsStep(from, to) && 0 <= r < SIZE && 0 <= c < SIZE
    ensures ColumnDone(g, MovedColumns(g, w, from, to, dy), w, from, to, dy, r, c)
  {
    var lo, hi := FirstRow(dy), LastRow(dy);
    ShiftedColumnsCells(g, lo, hi, r, c);
    if from.x < to.x {
      RefreshedColumnCells(ShiftColsWest(g, lo, hi), w, to, VIEW, r, c);
    } else if from.x > to.x {
      RefreshedColumnCells(ShiftColsEast(g, lo, hi), w, to, -VIEW, r, c);
    }
  }

  /** One more row of the shift. */
  lemma RowUp(g: Grid, y: nat)
    requires y <= SIZE - 2
    ensures (g[1..y + 1] + g[y..])[y + 1] == g[y + 1]
    ensures (g[1..y + 1] + g[y..])[y := g[y + 1]] == g[1..y + 2] + g[y + 1..]
  {
  }

  lemma CellAfterRefresh(g: Grid, w: World, me: Position, at: Position, pos: Position)
    requires InWindow(me, pos) && InWindow(me, at)
    ensures CellOf(RefreshTile(g, w, me, at), me, pos) == if pos == at then w(at) else CellOf(g, me, pos)
  {
  }

  /** `dy` leaves out of the column shift exactly the row that is fresh. */
  predicate Skips(from: Position, to: Position, dy: int, r: int) {
    from.x == to.x || (FreshRow(from, to, r) <==> !(FirstRow(dy) <= r <= LastRow(dy)))
  }

  /**
   * The cell from which the column phase takes its value: of a fresh row, or one that was up to date before the step.
   */
  lemma CellAfterRows(
      g: Grid, g1: Grid, w: World, w': World, from: Position, to: Position, pos: Position, r: int, c: int)
    requires IsStep(from, to) && SameExcept(w, w', from, to) && CellsUpToDate(g, w, from)
    requires 0 <= r < SIZE && 0 <= c < SIZE && RowDone(g, g1, w', from, to, r, c)
    requires InWindow(to, pos) && pos != to && pos != from && r == VIEW + pos.y - to.y
    requires c == VIEW + pos.x - if FreshRow(from, to, r) then to.x else from.x
    ensures g1[r][c] == w'(pos)
  {
    if FreshRow(from, to, r) {
      assert TileAt(to, c - VIEW, r - VIEW) == pos;
    } else {
      assert InWindow(from, pos) && g1[r][c] == CellOf(g, from, pos);
    }
  }

  lemma CellAfterPhases(
      g: Grid, g1: Grid, g2: Grid, w: World, w': World, from: Position, to: Position, dy: int, pos: Position)
    requires IsStep(from, to) && SameExcept(w, w', from, to) && CellsUpToDate(g, w, from)
    requires RowsDone(g, g1, w', from, to) && ColumnsDone(g1, g2, w', from, to, dy)
    requires InWindow(to, pos) && pos != to && pos != from && Skips(from, to, dy, VIEW + pos.y - to.y)
    ensures CellOf(g2, to, pos) == w'(pos)
  {
    var r, c := VIEW + pos.y - to.y, VIEW + pos.x - to.x;
    assert ColumnDone(g1, g2, w', from, to, dy, r, c);
    if FreshColumn(from, to, c) {
      assert TileAt(to, c - VIEW, r - VIEW) == pos;
    } else {
      var c1 := if FirstRow(dy) <= r <= LastRow(dy) then c + to.x - from.x else c;
      assert 0 <= c1 < SIZE && RowDone(g, g1, w', from, to, r, c1);
      CellAfterRows(g, g1, w, w', from, to, pos, r, c1);
    }
  }

  lemma CellAfterStep(g: Grid, w: World, w': World, from: Position, to: Position, dy: int, pos: Position)
    requires IsStep(from, to) && SameExcept(w, w', from, to) && CellsUpToDate(g, w, from)
    requires InWindow(to, pos) && pos != to && Skips(from, to, dy, VIEW + pos.y - to.y)
    ensures CellOf(MovedBy(g, w', from, to, dy), to, pos) == w'(pos)
  {
    var g1 := MovedRows(g, w', from, to);
    var g2 := MovedColumns(g1, w', from, to, dy);
    CellAfterRefresh(g2, w', to, from, pos);
    if pos != from {
      MovedRowsCells(g, w', from, to);
      MovedColumnsCells(g1, w', from, to, dy);
      CellAfterPhases(g, g1, g2, w, w', from, to, dy, pos);
    }
  }

  lemma StepIsFaithful(g: Grid, w: World, w': World, from: Position, to: Position, dy: int)
    requires IsStep(from, to) && SameExcept(w, w', from, to) && Faithful(g, w, from)
    requires dy == from.y - to.y || (dy == Abs(from.y - to.y) && !SouthDiagonal(from, to))
    ensures Faithful(MovedBy(g, w', from, to, dy), w', to)
  {
    FaithfulByCells(g, w, from);
    forall pos | InWindow(to, pos) && pos != to ensures CellOf(MovedBy(g, w', from, to, dy), to, pos) == w'(pos) {
      CellAfterStep(g, w, w', from, to, dy, pos);
    }
    FaithfulByCells(MovedBy(g, w', from, to, dy), w', to);
  }

  /** What a southward diagonal step spoils lies in the first and the last row of the window. */
  lemma SouthDiagonalDamage(g: Grid, w: World, w': World, from: Position, to: Position, pos: Position)
    requires IsStep(from, to) && SameExcept(w, w', from, to) && Faithful(g, w, from)
    requires SouthDiagonal(from, to)
    ensures Abs(pos.y - to.y) != VIEW ==> Answer(Moved(g, w', from, to), to, pos) == Truth(w', to, pos)
  {
    if InWindow(to, pos) && pos != to {
      if Abs(pos.y - to.y) != VIEW {
        FaithfulByCells(g, w, from);
        CellAfterStep(g, w, w', from, to, Abs(from.y - to.y), pos);
        AnswerByCell(Moved(g, w', from, to), w', to, pos);
      }
    } else {
      AnswerOutside(Moved(g, w', from, to), w', to, pos);
    }
  }

  function ColumnWorld(x: Coord): World {
    (p: Position) => p.x == x
  }

  /**
   * A tile that is answered wrongly after a southward diagonal step in the world where exactly the column `to.x` can be
   * entered.
   */
  function Misread(from: Position, to: Position): (pos: Position)
    requires SouthDiagonal(from, to) && IsStep(from, to)
  {
    if to.y + VIEW < 0x1_0000 then Position(from.x, to.y + VIEW, to.z) else Position(to.x, to.y - VIEW, to.z)
  }

  lemma MisreadCell(g: Grid, g1: Grid, g2: Grid, from: Position, to: Position)
    requires IsStep(from, to) && SouthDiagonal(from, to) && CellsUpToDate(g, ColumnWorld(to.x), from)
    requires RowsDone(g, g1, ColumnWorld(to.x), from, to) && ColumnsDone(g1, g2, ColumnWorld(to.x), from, to, 1)
    ensures InWindow(to, Misread(from, to)) && CellOf(g2, to, Misread(from, to)) != (Misread(from, to).x == to.x)
  {
    var pos := Misread(from, to);
    var r, c := VIEW + pos.y - to.y, VIEW + pos.x - to.x;
    assert !FreshColumn(from, to, c) && ColumnDone(g1, g2, ColumnWorld(to.x), from, to, 1, r, c);
    assert RowDone(g, g1, ColumnWorld(to.x), from, to, r, VIEW);
    if to.y + VIEW < 0x1_0000 {
      assert FreshRow(from, to, r) && g2[r][c] == g1[r][VIEW];
      assert TileAt(to, 0, VIEW).x == to.x;
    } else {
      assert r == 0 && g2[r][c] == g1[r][VIEW] == g[1][VIEW];
      assert g[1][VIEW] == CellOf(g, from, Position(from.x, from.y + 1 - VIEW, from.z));
    }
  }

  lemma SouthDiagonalMisreads(g: Grid, from: Position, to: Position)
    requires IsStep(from, to) && SouthDiagonal(from, to) && CellsUpToDate(g, ColumnWorld(to.x), from)
    ensures !Faithful(Moved(g, ColumnWorld(to.x), from, to), ColumnWorld(to.x), to)
  {
    var w, pos := ColumnWorld(to.x), Misread(from, to);
    var g1 := MovedRows(g, w, from, to);
    var g2 := MovedColumns(g1, w, from, to, 1);
    MovedRowsCells(g, w, from, to);
    MovedColumnsCells(g1, w, from, to, 1);
    MisreadCell(g, g1, g2, from, to);
    CellAfterRefresh(g2, w, to, from, pos);
    WrongCell(Moved(g, w, from, to), w, to, pos);
  }

  ghost predicate AlwaysKeepsFaith(from: Position, to: Position) {
    forall g, w, w' :: SameExcept(w, w', from, to) && Faithful(g, w, from) ==> Faithful(Moved(g, w', from, to), w', to)
  }

  lemma SouthDiagonalLosesFaith(from: Position, to: Position)
    requires IsStep(from, to) && SouthDiagonal(from, to)
    ensures !AlwaysKeepsFaith(from, to)
  {
    var w := ColumnWorld(to.x);
    var g := Recomputed(Blank(), w, from);
    RecomputedIsFaithful(Blank(), w, from);
    FaithfulByCells(g, w, from);
    SouthDiagonalMisreads(g, from, to);
    assert SameExcept(w, w, from, to);
  }

  lemma OwnStepIsFaithful(g: Grid, w: World, w': World, from: Position, to: Position)
    requires IsStep(from, to) && !SouthDiagonal(from, to) && SameExcept(w, w', from, to) && Faithful(g, w, from)
    ensures Faithful(Moved(g, w', from, to), w', to)
  {
    StepIsFaithful(g, w, w', from, to, Abs(from.y - to.y));
  }

  lemma OtherStepsKeepFaith(from: Position, to: Position)
    requires IsStep(from, to) && !SouthDiagonal(from, to)
    ensures AlwaysKeepsFaith(from, to)
  {
    forall g, w, w' | SameExcept(w, w', from, to) && Faithful(g, w, from)
      ensures Faithful(Moved(g, w', from, to), w', to) {
      OwnStepIsFaithful(g, w, w', from, to);
    }
  }

  /** The ordinary step keeps every faithful cache faithful exactly when it is not a southward diagonal. */
  lemma StepKeepsFaithIff(from: Position, to: Position)
    requires IsStep(from, to)
    ensures AlwaysKeepsFaith(from, to) <==> !SouthDiagonal(from, to)
  {
    if SouthDiagonal(from, to) {
      SouthDiagonalLosesFaith(from, to);
    } else {
      OtherStepsKeepFaith(from, to);
    }
  }

  // ---------------------------------------------------------------- whole runs

  /** What the hooks look at in the type of an item. */
  datatype ItemKind = ItemKind(blockSolid: bool, blockPathFind: bool, groundTile: bool)

  /** The hook that tells the creature of an item. */
  datatype Hook = Add | Update(oldKind: ItemKind, newKind: ItemKind) | Remove(kind: ItemKind)

  predicate Blocks(k: ItemKind) {
    k.blockSolid || k.blockPathFind
  }

  /** Whether a hook refreshes its tile: the one for updates and the one for removals look at the types first. */
  predicate Refreshes(h: Hook) {
    match h
    case Add => true
    case Update(oldKind, newKind) => Blocks(oldKind) || Blocks(newKind)
    case Remove(kind) => Blocks(kind) || kind.groundTile
  }

  datatype Walker = Walker(grid: Grid, me: Position, world: World)

  /** What the creature is told; `after` is the world once it has happened. */
  datatype Event =
    | Step(to: Position, after: World) // it walks
    | Jump(to: Position, after: World) // it is teleported or changes floor
    | Other(was: Position, now: Position, after: World) // another creature moves, appears or disappears
    | TileChange(at: Position, hook: Hook, after: World) // an item changes

  ghost predicate Legal(s: Walker, e: Event) {
    match e
    case Step(to, after) => IsStep(s.me, to) && SameExcept(s.world, after, s.me, to)
    case Jump(_, _) => true
    case Other(was, now, after) => SameExcept(s.world, after, was, now)
    case TileChange(at, _, after) => SameExcept(s.world, after, at, at)
  }

  function Next(s: Walker, e: Event): Walker {
    match e
    case Step(to, after) => Walker(Moved(s.grid, after, s.me, to), to, after)
    case Jump(to, after) => Walker(Recomputed(s.grid, after, to), to, after)
    case Other(was, now, after) =>
      Walker(RefreshTile(RefreshTile(s.grid, after, s.me, now), after, s.me, was), s.me, after)
    case TileChange(at, hook, after) =>
      Walker(if Refreshes(hook) then RefreshTile(s.grid, after, s.me, at) else s.grid, s.me, after)
  }

  function Final(s: Walker, run: seq<Event>): Walker
    decreases |run|
  {
    if run == [] then s else Final(Next(s, run[0]), run[1..])
  }

  ghost predicate LegalRun(s: Walker, run: seq<Event>)
    decreases |run|
  {
    run == [] || (Legal(s, run[0]) && LegalRun(Next(s, run[0]), run[1..]))
  }

  /** A change of a tile that a reader could ask about, of which the cache does not learn. */
  predicate Missed(s: Walker, at: Position, hook: Hook, after: World) {
    !Refreshes(hook) && InWindow(s.me, at) && at != s.me && after(at) != s.world(at)
  }

  /** The events that can spoil a faithful cache: a southward diagonal, and a missed change. */
  predicate Spoils(s: Walker, e: Event) {
    match e
    case Step(to, _) => SouthDiagonal(s.me, to)
    case TileChange(at, hook, after) => Missed(s, at, hook, after)
    case _ => false
  }

  /** Whether a cache of trust `trust` can be trusted after the run: nothing spoilt it since the last full update. */
  function Trusted(s: Walker, run: seq<Event>, trust: bool): bool
    decreases |run|
  {
    if run == [] then trust else Trusted(Next(s, run[0]), run[1..], TrustAfter(s, run[0], trust))
  }

  predicate TrustAfter(s: Walker, e: Event, trust: bool) {
    e.Jump? || (trust && !Spoils(s, e))
  }

  lemma RefreshIsFaithful(g: Grid, w: World, w': World, me: Position, a: Position, b: Position)
    requires Faithful(g, w, me) && SameExcept(w, w', a, b)
    ensures Faithful(RefreshTile(RefreshTile(g, w', me, a), w', me, b), w', me)
  {
    FaithfulByCells(g, w, me);
    var g1 := RefreshTile(g, w', me, a);
    var g2 := RefreshTile(g1, w', me, b);
    forall pos | InWindow(me, pos) && pos != me ensures CellOf(g2, me, pos) == w'(pos) {
      if InWindow(me, a) {
        CellAfterRefresh(g, w', me, a, pos);
      }
      if InWindow(me, b) {
        CellAfterRefresh(g1, w', me, b, pos);
      }
    }
    FaithfulByCells(g2, w', me);
  }

  lemma RefreshOneIsFaithful(g: Grid, w: World, w': World, me: Position, at: Position)
    requires Faithful(g, w, me) && SameExcept(w, w', at, at)
    ensures Faithful(RefreshTile(g, w', me, at), w', me)
  {
    FaithfulByCells(g, w, me);
    var g' := RefreshTile(g, w', me, at);
    forall pos | InWindow(me, pos) && pos != me ensures CellOf(g', me, pos) == w'(pos) {
      if InWindow(me, at) {
        CellAfterRefresh(g, w', me, at, pos);
      }
    }
    FaithfulByCells(g', w', me);
  }

  /**
   * A faithful cache stays faithful under a change of a tile exactly if the hook refreshes the tile, or the answer
   * of the tile is the same, or nobody asks the cache about it.
   */
  lemma TileChangeIff(s: Walker, at: Position, hook: Hook, after: World)
    requires Legal(s, TileChange(at, hook, after)) && Faithful(s.grid, s.world, s.me)
    ensures var s' := Next(s, TileChange(at, hook, after));
      Faithful(s'.grid, s'.world, s'.me) <==>
      Refreshes(hook) || after(at) == s.world(at) || !InWindow(s.me, at) || at == s.me
  {
    if Refreshes(hook) {
      RefreshOneIsFaithful(s.grid, s.world, after, s.me, at);
    } else {
      FaithfulByCells(s.grid, s.world, s.me);
      FaithfulByCells(s.grid, after, s.me);
    }
  }

  ghost predicate AlwaysLearns(me: Position, at: Position, hook: Hook) {
    forall g, w, w' :: SameExcept(w, w', at, at) && Faithful(g, w, me) ==>
      Faithful(Next(Walker(g, me, w), TileChange(at, hook, w')).grid, w', me)
  }

  function OnlyTile(at: Position): World {
    pos => pos == at
  }

  /** A hook for a tile that readers ask about keeps every faithful cache faithful exactly if it always refreshes. */
  lemma HookLearnsIff(me: Position, at: Position, hook: Hook)
    requires InWindow(me, at) && at != me
    ensures AlwaysLearns(me, at, hook) <==> Refreshes(hook)
  {
    if Refreshes(hook) {
      forall g, w, w' | SameExcept(w, w', at, at) && Faithful(g, w, me)
        ensures Faithful(Next(Walker(g, me, w), TileChange(at, hook, w')).grid, w', me)
      {
        TileChangeIff(Walker(g, me, w), at, hook, w');
      }
    } else {
      var w' := OnlyTile(at);
      var closed: World := _ => false;
      var g := Recomputed(Blank(), closed, me);
      RecomputedIsFaithful(Blank(), closed, me);
      assert SameExcept(closed, w', at, at);
      TileChangeIff(Walker(g, me, closed), at, hook, w');
    }
  }

  /** What queryAdd asks of a tile for a path: no floor change, no teleport, and then everything else. */
  datatype TileState = TileState(floorChange: bool, teleport: bool, otherwiseFree: bool)

  predicate CanEnter(t: TileState) {
    !t.floorChange && !t.teleport && t.otherwiseFree
  }

  /** Taking a teleport that does not block off a tile that is free otherwise goes unseen. */
  lemma TeleportRemovalUnseen(s: Walker, at: Position, t: TileState, kind: ItemKind, after: World)
    requires Faithful(s.grid, s.world, s.me) && InWindow(s.me, at) && at != s.me && SameExcept(s.world, after, at, at)
    requires t.teleport && !t.floorChange && t.otherwiseFree && !Blocks(kind) && !kind.groundTile
    requires s.world(at) == CanEnter(t) && after(at) == CanEnter(t.(teleport := false))
    ensures var s' := Next(s, TileChange(at, Remove(kind), after)); !Faithful(s'.grid, s'.world, s'.me)
  {
    TileChangeIff(s, at, Remove(kind), after);
  }

  /** So does turning an item that does not block into one that changes the floor and does not block either. */
  lemma FloorChangeUnseen(s: Walker, at: Position, t: TileState, oldKind: ItemKind, newKind: ItemKind, after: World)
    requires Faithful(s.grid, s.world, s.me) && InWindow(s.me, at) && at != s.me && SameExcept(s.world, after, at, at)
    requires CanEnter(t) && !Blocks(oldKind) && !Blocks(newKind)
    requires s.world(at) == CanEnter(t) && after(at) == CanEnter(t.(floorChange := true))
    ensures var s' := Next(s, TileChange(at, Update(oldKind, newKind), after)); !Faithful(s'.grid, s'.world, s'.me)
  {
    TileChangeIff(s, at, Update(oldKind, newKind), after);
  }

  lemma EventIsFaithful(s: Walker, e: Event)
    requires Legal(s, e) && (e.Jump? || Faithful(s.grid, s.world, s.me)) && TrustAfter(s, e, true)
    ensures Faithful(Next(s, e).grid, Next(s, e).world, Next(s, e).me)
  {
    match e
    case Step(to, after) => OwnStepIsFaithful(s.grid, s.world, after, s.me, to);
    case Jump(to, after) => RecomputedIsFaithful(s.grid, after, to);
    case Other(was, now, after) => RefreshIsFaithful(s.grid, s.world, after, s.me, now, was);
    case TileChange(at, hook, after) => TileChangeIff(s, at, hook, after);
  }

  /** Over every legal run, a trusted cache answers every query like a cache computed from scratch. */
  lemma {:induction false} RunIsFaithful(s: Walker, run: seq<Event>, trust: bool)
    requires LegalRun(s, run) && (trust ==> Faithful(s.grid, s.world, s.me)) && Trusted(s, run, trust)
    ensures var f := Final(s, run);
      && Faithful(f.grid, f.world, f.me)
      && forall pos :: Answer(f.grid, f.me, pos) == Answer(Recomputed(f.grid, f.world, f.me), f.me, pos)
    decreases |run|
  {
    if run == [] {
      RecomputedIsFaithful(s.grid, s.world, s.me);
    } else {
      if TrustAfter(s, run[0], trust) {
        EventIsFaithful(s, run[0]);
      }
      RunIsFaithful(Next(s, run[0]), run[1..], TrustAfter(s, run[0], trust));
    }
  }

  // ---------------------------------------------------------------- the code

  ghost predicate SameCells(g: Grid, g': Grid) {
    forall r, c :: 0 <= r < SIZE && 0 <= c < SIZE ==> g[r][c] == g'[r][c]
  }

  lemma SameGrid(g: Grid, g': Grid)
    requires SameCells(g, g')
    ensures g == g'
  {
    assert forall r :: 0 <= r < SIZE ==> g[r] == g'[r];
  }

  /** updateMapCache, stopped before the cell in row `rows` and column `cols`. */
  ghost predicate RecomputedUpTo(g: Grid, g': Grid, w: World, me: Position, rows: int, cols: int) {
    forall r, c :: 0 <= r < SIZE && 0 <= c < SIZE ==>
      g'[r][c] == if r < rows || (r == rows && c < cols) then Recomputed(g, w, me)[r][c] else g[r][c]
  }

  lemma WrappedTileIsFar(me: Position, x: int, y: int)
    requires Abs(x) <= VIEW && Abs(y) <= VIEW
    ensures OnMap(me, x, y) ==> TileAt(me, x, y) == Position(me.x + x, me.y + y, me.z)
    ensures !OnMap(me, x, y) ==> !InWindow(me, TileAt(me, x, y))
  {
  }

  lemma RecomputeOne(g: Grid, g': Grid, w: World, me: Position, x: int, y: int)
    requires Abs(x) <= VIEW && Abs(y) <= VIEW
    requires RecomputedUpTo(g, g', w, me, VIEW + y, VIEW + x)
    ensures RecomputedUpTo(g, RefreshTile(g', w, me, TileAt(me, x, y)), w, me, VIEW + y, VIEW + x + 1)
  {
    WrappedTileIsFar(me, x, y);
    var g'' := RefreshTile(g', w, me, TileAt(me, x, y));
    var here := Recomputed(g, w, me)[VIEW + y][VIEW + x];
    assert here == if OnMap(me, x, y) then w(TileAt(me, x, y)) else g[VIEW + y][VIEW + x];
    if !OnMap(me, x, y) {
      assert g'[VIEW + y][VIEW + x] == here;
    }
  }

  class Creature {
    var position: Position
    var useCacheMap: bool
    var isMapLoaded: bool
    const localMapCache: array2<bool>
    ghost var grid: Grid

    ghost predicate Valid()
      reads this, localMapCache
    {
      localMapCache.Length0 == SIZE && localMapCache.Length1 == SIZE &&
      forall r, c :: 0 <= r < SIZE && 0 <= c < SIZE ==> localMapCache[r, c] == grid[r][c]
    }

    constructor (position: Position, useCacheMap: bool)
      ensures Valid() && fresh(localMapCache) && !isMapLoaded
      ensures this.position == position && this.useCacheMap == useCacheMap
    {
      this.position := position;
      this.useCacheMap := useCacheMap;
      isMapLoaded := false;
      localMapCache := new bool[SIZE, SIZE]((r, c) => false);
      grid := Blank();
    }

    /** updateTileCache for a tile already looked up, at an offset from the creature. */
    method UpdateTileCacheAt(canEnter: bool, dx: int, dy: int)
      requires Valid()
      modifies localMapCache, `grid
      ensures Valid()
      ensures grid ==
        if Abs(dx) <= VIEW && Abs(dy) <= VIEW then
          SetCell(old(grid), VIEW + dy, VIEW + dx, canEnter)
        else old(grid)
    {
      if Abs(dx) <= VIEW && Abs(dy) <= VIEW {
        localMapCache[VIEW + dy, VIEW + dx] := canEnter;
        grid := SetCell(grid, VIEW + dy, VIEW + dx, canEnter);
      }
    }

    method UpdateTileCache(w: World, pos: Position)
      requires Valid()
      modifies localMapCache, `grid
      ensures Valid() && grid == RefreshTile(old(grid), w, position, pos)
    {
      if pos.z == position.z {
        UpdateTileCacheAt(w(pos), pos.x - position.x, pos.y - position.y);
      }
    }

    method UpdateMapCache(w: World)
      requires Valid()
      modifies localMapCache, `grid
      ensures Valid() && grid == Recomputed(old(grid), w, position)
    {
      ghost var g0 := grid;
      var y := -VIEW;
      while y <= VIEW
        invariant Valid() && -VIEW <= y <= VIEW + 1
        invariant RecomputedUpTo(g0, grid, w, position, VIEW + y, 0)
      {
        var x := -VIEW;
        while x <= VIEW
          invariant Valid() && -VIEW <= x <= VIEW + 1
          invariant RecomputedUpTo(g0, grid, w, position, VIEW + y, VIEW + x)
        {
          RecomputeOne(g0, grid, w, position, x, y);
          UpdateTileCache(w, TileAt(position, x, y));
          x := x + 1;
        }
        y := y + 1;
      }
      SameGrid(grid, Recomputed(g0, w, position));
    }

    /** memcpy of one row of the cache over another. */
    method CopyRow(dst: nat, src: nat)
      requires Valid() && dst < SIZE && src < SIZE && dst != src
      modifies localMapCache, `grid
      ensures Valid() && grid == old(grid)[dst := old(grid)[src]]
    {
      for x := 0 to SIZE
        invariant localMapCache.Length0 == SIZE && localMapCache.Length1 == SIZE && grid == old(grid)
        invariant forall r, c :: 0 <= r < SIZE && 0 <= c < SIZE ==>
          localMapCache[r, c] == grid[if r == dst && c < x then src else r][c]
      {
        localMapCache[dst, x] := localMapCache[src, x];
      }
      grid := grid[dst := grid[src]];
    }

    method ShiftSouth()
      requires Valid()
      modifies localMapCache, `grid
      ensures Valid() && grid == ShiftRowsDown(old(grid))
    {
      ghost var g0 := grid;
      var y := SIZE - 1;
      while y > 0
        invariant Valid() && 0 <= y < SIZE
        invariant grid == g0[..y + 1] + g0[y..SIZE - 1]
      {
        y := y - 1;
        CopyRow(y + 1, y);
      }
    }

    method ShiftNorth()
      requires Valid()
      modifies localMapCache, `grid
      ensures Valid() && grid == ShiftRowsUp(old(grid))
    {
      ghost var g0 := grid;
      var y := 0;
      while y <= SIZE - 2
        invariant Valid() && 0 <= y <= SIZE - 1
        invariant grid == g0[1..y + 1] + g0[y..]
      {
        RowUp(g0, y);
        CopyRow(y, y + 1);
        y := y + 1;
      }
    }

    /** The rows from starty up to y have been shifted to the west. */
    ghost predicate ShiftedWest(starty: int, y: int)
      reads this, localMapCache
    {
      localMapCache.Length0 == SIZE && localMapCache.Length1 == SIZE &&
      forall r, c :: 0 <= r < SIZE && 0 <= c < SIZE ==>
        localMapCache[r, c] == grid[r][if starty <= r < y && c < SIZE - 1 then c + 1 else c]
    }

    method ShiftRowWest(y: int, ghost starty: int)
      requires 0 <= starty <= y < SIZE && ShiftedWest(starty, y)
      modifies localMapCache
      ensures ShiftedWest(starty, y + 1)
    {
      for x := 0 to SIZE - 1
        invariant localMapCache.Length0 == SIZE && localMapCache.Length1 == SIZE
        invariant forall r, c :: 0 <= r < SIZE && 0 <= c < SIZE ==>
          localMapCache[r, c] == grid[r][if (starty <= r < y && c < SIZE - 1) || (r == y && c < x) then c + 1 else c]
      {
        localMapCache[y, x] := localMapCache[y, x + 1];
      }
    }

    method ShiftWest(starty: int, endy: int)
      requires Valid() && 0 <= starty && endy < SIZE
      modifies localMapCache, `grid
      ensures Valid() && grid == ShiftColsWest(old(grid), starty, endy)
    {
      for y := starty to if starty <= endy then endy + 1 else starty
        invariant ShiftedWest(starty, y) && grid == old(grid)
      {
        ShiftRowWest(y, starty);
      }
      grid := ShiftColsWest(grid, starty, endy);
    }

    /** The rows from starty up to y have been shifted to the east. */
    ghost predicate ShiftedEast(starty: int, y: int)
      reads this, localMapCache
    {
      localMapCache.Length0 == SIZE && localMapCache.Length1 == SIZE &&
      forall r, c :: 0 <= r < SIZE && 0 <= c < SIZE ==>
        localMapCache[r, c] == grid[r][if starty <= r < y && 0 < c then c - 1 else c]
    }

    method ShiftRowEast(y: int, ghost starty: int)
      requires 0 <= starty <= y < SIZE && ShiftedEast(starty, y)
      modifies localMapCache
      ensures ShiftedEast(starty, y + 1)
    {
      var x := SIZE - 1;
      while x > 0
        invariant 0 <= x < SIZE && localMapCache.Length0 == SIZE && localMapCache.Length1 == SIZE
        invariant forall r, c :: 0 <= r < SIZE && 0 <= c < SIZE ==>
          localMapCache[r, c] == grid[r][if (starty <= r < y && 0 < c) || (r == y && c > x) then c - 1 else c]
      {
        x := x - 1;
        localMapCache[y, x + 1] := localMapCache[y, x];
      }
    }

    method ShiftEast(starty: int, endy: int)
      requires Valid() && 0 <= starty && endy < SIZE
      modifies localMapCache, `grid
      ensures Valid() && grid == ShiftColsEast(old(grid), starty, endy)
    {
      for y := starty to if starty <= endy then endy + 1 else starty
        invariant ShiftedEast(starty, y) && grid == old(grid)
      {
        ShiftRowEast(y, starty);
      }
      grid := ShiftColsEast(grid, starty, endy);
    }

    method RefreshRowAt(w: World, dy: int)
      requires Valid() && Abs(dy) <= VIEW
      modifies localMapCache, `grid
      ensures Valid() && grid == RefreshRow(old(grid), w, position, dy)
    {
      ghost var g0 := grid;
      var x := -VIEW;
      while x <= VIEW
        invariant Valid() && -VIEW <= x <= VIEW + 1
        invariant forall r, c :: 0 <= r < SIZE && 0 <= c < SIZE ==>
          grid[r][c] == if r == VIEW + dy && c < VIEW + x then RefreshRow(g0, w, position, dy)[r][c] else g0[r][c]
      {
        UpdateTileCacheAt(w(TileAt(position, x, dy)), x, dy);
        x := x + 1;
      }
      SameGrid(grid, RefreshRow(g0, w, position, dy));
    }

    method RefreshColumnAt(w: World, dx: int)
      requires Valid() && Abs(dx) <= VIEW
      modifies localMapCache, `grid
      ensures Valid() && grid == RefreshColumn(old(grid), w, position, dx)
    {
      ghost var g0 := grid;
      var y := -VIEW;
      while y <= VIEW
        invariant Valid() && -VIEW <= y <= VIEW + 1
        invariant forall r, c :: 0 <= r < SIZE && 0 <= c < SIZE ==>
          grid[r][c] == if c == VIEW + dx && r < VIEW + y then RefreshColumn(g0, w, position, dx)[r][c] else g0[r][c]
      {
        UpdateTileCacheAt(w(TileAt(position, dx, y)), dx, y);
        y := y + 1;
      }
      SameGrid(grid, RefreshColumn(g0, w, position, dx));
    }

    method MoveRows(w: World, newPos: Position, oldPos: Position)
      requires Valid() && position == newPos
      modifies localMapCache, `grid
      ensures Valid() && grid == MovedRows(old(grid), w, oldPos, newPos)
    {
      if oldPos.y > newPos.y { // north
        ShiftSouth();
        RefreshRowAt(w, -VIEW);
      } else if oldPos.y < newPos.y { // south
        ShiftNorth();
        RefreshRowAt(w, VIEW);
      }
    }

    method MoveColumns(w: World, newPos: Position, oldPos: Position)
      requires Valid() && position == newPos
      modifies localMapCache, `grid
      ensures Valid() && grid == MovedColumns(old(grid), w, oldPos, newPos, Abs(oldPos.y - newPos.y))
    {
      var starty, endy := 0, SIZE - 1;
      var dy := Abs(oldPos.y - newPos.y); // Position::getDistanceY
      if dy < 0 {
        endy := endy + dy;
      } else if dy > 0 {
        starty := dy;
      }
      if oldPos.x < newPos.x { // east
        ShiftWest(starty, endy);
        RefreshColumnAt(w, VIEW);
      } else if oldPos.x > newPos.x { // west
        ShiftEast(starty, endy);
        RefreshColumnAt(w, -VIEW);
      }
    }

    /** onCreatureMove for the creature itself, its position already being the new one. */
    method OnOwnMove(w: World, newPos: Position, oldPos: Position, teleport: bool)
      requires Valid() && position == newPos
      modifies localMapCache, `grid
      ensures Valid()
      ensures grid ==
        if !isMapLoaded then old(grid)
        else if teleport || oldPos.z != newPos.z then Recomputed(old(grid), w, newPos)
        else Moved(old(grid), w, oldPos, newPos)
    {
      if isMapLoaded {
        if teleport || oldPos.z != newPos.z {
          UpdateMapCache(w);
        } else {
          MoveRows(w, newPos, oldPos);
          MoveColumns(w, newPos, oldPos);
          UpdateTileCache(w, oldPos);
        }
      }
    }

    /** onCreatureMove for another creature. */
    method OnOtherMove(w: World, newPos: Position, oldPos: Position)
      requires Valid()
      modifies localMapCache, `grid
      ensures Valid()
      ensures grid ==
        if isMapLoaded then RefreshTile(RefreshTile(old(grid), w, position, newPos), w, position, oldPos) else old(grid)
    {
      if isMapLoaded {
        if newPos.z == position.z {
          UpdateTileCache(w, newPos);
        }
        if oldPos.z == position.z {
          UpdateTileCache(w, oldPos);
        }
      }
    }

    method OnAddTileItem(w: World, pos: Position)
      requires Valid()
      modifies localMapCache, `grid
      ensures Valid() && grid == if isMapLoaded then RefreshTile(old(grid), w, position, pos) else old(grid)
    {
      if isMapLoaded && pos.z == position.z {
        UpdateTileCache(w, pos);
      }
    }

    method OnUpdateTileItem(w: World, pos: Position, oldKind: ItemKind, newKind: ItemKind)
      requires Valid()
      modifies localMapCache, `grid
      ensures Valid()
      ensures grid ==
        if isMapLoaded && Refreshes(Update(oldKind, newKind)) then RefreshTile(old(grid), w, position, pos)
          else old(grid)
    {
      if !isMapLoaded {
        return;
      }
      if oldKind.blockSolid || oldKind.blockPathFind || newKind.blockPathFind || newKind.blockSolid {
        if pos.z == position.z {
          UpdateTileCache(w, pos);
        }
      }
    }

    method OnRemoveTileItem(w: World, pos: Position, kind: ItemKind)
      requires Valid()
      modifies localMapCache, `grid
      ensures Valid()
      ensures grid == if isMapLoaded && Refreshes(Remove(kind)) then RefreshTile(old(grid), w, position, pos)
              else old(grid)
    {
      if !isMapLoaded {
        return;
      }
      if kind.blockSolid || kind.blockPathFind || kind.groundTile {
        if pos.z == position.z {
          UpdateTileCache(w, pos);
        }
      }
    }

    /** onCreatureAppear and onRemoveCreature for another creature. */
    method OnOtherAt(w: World, pos: Position)
      requires Valid()
      modifies localMapCache, `grid
      ensures Valid() && grid == if isMapLoaded then RefreshTile(old(grid), w, position, pos) else old(grid)
    {
      if isMapLoaded {
        if pos.z == position.z {
          UpdateTileCache(w, pos);
        }
      }
    }

    /** onCreatureAppear for the creature itself. */
    method OnOwnAppear(w: World)
      requires Valid()
      modifies localMapCache, `grid, `isMapLoaded
      ensures Valid()
      ensures useCacheMap ==> isMapLoaded && Faithful(grid, w, position)
      ensures !useCacheMap ==> isMapLoaded == old(isMapLoaded) && grid == old(grid)
    {
      if useCacheMap {
        isMapLoaded := true;
        UpdateMapCache(w);
        RecomputedIsFaithful(old(grid), w, position);
      }
    }

    method GetWalkCache(pos: Position) returns (r: int)
      requires Valid()
      ensures r == if useCacheMap then Answer(grid, position, pos) else 2
    {
      if !useCacheMap {
        return 2;
      }
      if position.z != pos.z {
        return 0;
      }
      if pos == position {
        return 1;
      }
      var dx := pos.x - position.x;
      if Abs(dx) <= VIEW {
        var dy := pos.y - position.y;
        if Abs(dy) <= VIEW {
          if localMapCache[VIEW + dy, VIEW + dx] {
            return 1;
          } else {
            return 0;
          }
        }
      }
      return 2;
    }
  }
}
