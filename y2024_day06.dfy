/** 2024/day06: a guard walks a grid. She marks every cell she stands on
    with 'X', steps forward, turns right once when the next cell holds an
    obstacle '#', and stops when the next cell is off the grid. Part 1 is
    the number of cells she marked.

    The Go walk recurses without bound (a guard caught in a loop never
    leaves), so the model's walk takes a fuel bound on the number of
    steps. An index that Go would take out of range ends the walk as
    Crashed. */
module Y2024Day06 {
  import opened Text
  import opened GoMath

  /** The rows of the grid; parseInput does not make them equal in length. */
  type Grid = seq<seq<char>>

  /** The fields of ProblemInput as one value: the grid, the count of
      marked cells, the direction (0 up, 1 right, 2 down, 3 left) and the
      guard's cell. */
  datatype Guard = Guard(grid: Grid, visitedCount: int, direction: int, row: int, col: int)

  /** How a walk ends: the guard left the grid (in this final state), an
      index was out of range, or the fuel ran out first. */
  datatype Outcome = Exited(final: Guard) | Crashed | OutOfFuel

  /** Grid[row][col] can be read without a panic. */
  predicate HasCell(grid: Grid, row: int, col: int) {
    0 <= row < |grid| && 0 <= col < |grid[row]|
  }

  /** The bounds check of VisitGrid: rows by the grid's height, columns by
      the width of the first row. */
  predicate OffGrid(grid: Grid, row: int, col: int)
    requires |grid| > 0
  {
    row < 0 || row >= |grid| || col < 0 || col >= |grid[0]|
  }

  // ---------------------------------------------------------------------
  // NextRowCol

  /** pi.NextRowCol: the cell in front of the guard; (-1, -1) for a
      direction outside 0..3. */
  function NextRowCol(direction: int, row: int, col: int): (int, int) {
    match direction
    case 0 => (row - 1, col)
    case 1 => (row, col + 1)
    case 2 => (row + 1, col)
    case 3 => (row, col - 1)
    case _ => (-1, -1)
  }

  /** The Go direction update, (Direction + 1) % 4 with a truncating %. */
  function TurnRight(direction: int): int {
    TMod(direction + 1, 4)
  }

  /** For each direction in 0..3 the next cell is one orthogonal step away,
      and turning right keeps the direction in 0..3 and rotates that step
      clockwise: (dRow, dCol) becomes (dCol, -dRow). */
  lemma NextRowColSteps(direction: int, row: int, col: int)
    requires 0 <= direction <= 3
    ensures var (r1, c1) := NextRowCol(direction, row, col);
      var (r2, c2) := NextRowCol(TurnRight(direction), row, col);
      && Abs(r1 - row) + Abs(c1 - col) == 1
      && 0 <= TurnRight(direction) <= 3
      && r2 - row == c1 - col && c2 - col == -(r1 - row)
  {
    assert TurnRight(direction) == (direction + 1) % 4;
  }

  // ---------------------------------------------------------------------
  // One step of VisitGrid

  /** The guard's cell becomes 'X'; the count grows only when the cell was
      not 'X' already. */
  function Mark(g: Guard): (m: Guard)
    requires HasCell(g.grid, g.row, g.col)
    ensures m.direction == g.direction && m.row == g.row && m.col == g.col
    ensures |m.grid| == |g.grid| && forall r :: 0 <= r < |g.grid| ==> |m.grid[r]| == |g.grid[r]|
    ensures m.grid[g.row][g.col] == 'X'
    ensures forall r, c :: HasCell(g.grid, r, c) && (r != g.row || c != g.col) ==> m.grid[r][c] == g.grid[r][c]
    ensures m.visitedCount == g.visitedCount + (if g.grid[g.row][g.col] == 'X' then 0 else 1)
  {
    if g.grid[g.row][g.col] != 'X' then
      g.(grid := g.grid[g.row := g.grid[g.row][g.col := 'X']], visitedCount := g.visitedCount + 1)
    else g
  }

  /** Where the guard goes next: off the grid, into a panic (a row shorter
      than the first), or to a new cell. */
  datatype Move = Leaves | Crash | MovesTo(next: Guard)

  /** The move after marking. In front of an obstacle the guard turns right
      once and steps to the cell in the new direction without looking at
      it. */
  function NextMove(m: Guard): Move
    requires |m.grid| > 0
  {
    var (nextRow, nextCol) := NextRowCol(m.direction, m.row, m.col);
    if OffGrid(m.grid, nextRow, nextCol) then Leaves
    else if nextCol >= |m.grid[nextRow]| then Crash
    else if m.grid[nextRow][nextCol] == '#' then
      var d := TurnRight(m.direction);
      var (r, c) := NextRowCol(d, m.row, m.col);
      MovesTo(m.(direction := d, row := r, col := c))
    else MovesTo(m.(row := nextRow, col := nextCol))
  }

  /** A move changes only the guard's cell and direction; it turns exactly
      when the cell in front holds '#', and then to the right. */
  lemma NextMoveMeaning(m: Guard)
    requires |m.grid| > 0 && 0 <= m.direction <= 3
    ensures var (nr, nc) := NextRowCol(m.direction, m.row, m.col);
      match NextMove(m)
      case Leaves => OffGrid(m.grid, nr, nc)
      case Crash => !OffGrid(m.grid, nr, nc) && !HasCell(m.grid, nr, nc)
      case MovesTo(n) =>
        && HasCell(m.grid, nr, nc)
        && n.grid == m.grid && n.visitedCount == m.visitedCount
        && 0 <= n.direction <= 3
        && (m.grid[nr][nc] == '#' ==>
              (n.direction == TurnRight(m.direction) && (n.row, n.col) == NextRowCol(n.direction, m.row, m.col)))
        && (m.grid[nr][nc] != '#' ==> n.direction == m.direction && (n.row, n.col) == (nr, nc))
  {
    NextRowColSteps(m.direction, m.row, m.col);
  }

  /** The whole walk from g, with at most fuel moves. Every call marks the
      guard's cell first; reading that cell panics when the previous move
      (a turn that was not checked) took her off the grid. */
  function Walk(g: Guard, fuel: nat): Outcome
    decreases fuel
  {
    if !HasCell(g.grid, g.row, g.col) then Crashed
    else
      var m := Mark(g);
      match NextMove(m)
      case Leaves => Exited(m)
      case Crash => Crashed
      case MovesTo(n) => if fuel == 0 then OutOfFuel else Walk(n, fuel - 1)
  }

  // ---------------------------------------------------------------------
  // The count of marked cells

  function RowMarks(row: seq<char>): nat {
    if row == [] then 0 else (if row[0] == 'X' then 1 else 0) + RowMarks(row[1..])
  }

  /** The number of 'X' cells in the grid. */
  function Marks(grid: Grid): nat {
    if grid == [] then 0 else RowMarks(grid[0]) + Marks(grid[1..])
  }

  lemma {:induction false} RowMarksUpdate(row: seq<char>, c: nat)
    requires c < |row|
    ensures RowMarks(row[c := 'X']) == RowMarks(row) + (if row[c] == 'X' then 0 else 1)
  {
    if c > 0 {
      assert row[c := 'X'][1..] == row[1..][c - 1 := 'X'];
      RowMarksUpdate(row[1..], c - 1);
    } else {
      assert row[c := 'X'][1..] == row[1..];
    }
  }

  lemma {:induction false} MarksUpdate(grid: Grid, r: nat, newRow: seq<char>)
    requires r < |grid|
    ensures Marks(grid[r := newRow]) == Marks(grid) - RowMarks(grid[r]) + RowMarks(newRow)
  {
    if r > 0 {
      assert grid[r := newRow][1..] == grid[1..][r - 1 := newRow];
      MarksUpdate(grid[1..], r - 1, newRow);
    } else {
      assert grid[r := newRow][1..] == grid[1..];
    }
  }

  /** Marking keeps the count of marked cells in step with the counter:
      both grow by one, or neither does. */
  lemma MarkCounts(g: Guard)
    requires HasCell(g.grid, g.row, g.col)
    ensures Mark(g).visitedCount - Marks(Mark(g).grid) == g.visitedCount - Marks(g.grid)
  {
    if g.grid[g.row][g.col] != 'X' {
      RowMarksUpdate(g.grid[g.row], g.col);
      MarksUpdate(g.grid, g.row, g.grid[g.row][g.col := 'X']);
    }
  }

  // ---------------------------------------------------------------------
  // What a finished walk promises

  /** b has the shape of a, and every cell that differs holds 'X' in b. */
  ghost predicate OnlyMarks(a: Grid, b: Grid) {
    && |b| == |a| && (forall r :: 0 <= r < |a| ==> |b[r]| == |a[r]|)
    && (forall r, c :: HasCell(a, r, c) && b[r][c] != a[r][c] ==> b[r][c] == 'X')
  }

  lemma MarkOnlyMarks(g: Guard)
    requires HasCell(g.grid, g.row, g.col)
    ensures OnlyMarks(g.grid, Mark(g).grid)
  {
  }

  lemma OnlyMarksTrans(a: Grid, b: Grid, c: Grid)
    requires OnlyMarks(a, b) && OnlyMarks(b, c)
    ensures OnlyMarks(a, c)
  {
    forall r, k | HasCell(a, r, k) && c[r][k] != a[r][k]
      ensures c[r][k] == 'X'
    {
      assert HasCell(b, r, k);
    }
  }

  lemma MovesKeepGrid(m: Guard)
    requires |m.grid| > 0 && NextMove(m).MovesTo?
    ensures NextMove(m).next.grid == m.grid
  {
  }

  /** When the guard leaves the grid, the grid keeps its shape and the
      only cells that changed were turned into 'X'. */
  lemma {:induction false} WalkOnlyMarks(g: Guard, fuel: nat)
    requires Walk(g, fuel).Exited?
    ensures OnlyMarks(g.grid, Walk(g, fuel).final.grid)
    decreases fuel
  {
    var m := Mark(g);
    MarkOnlyMarks(g);
    match NextMove(m)
    case Leaves =>
    case MovesTo(n) =>
      if fuel > 0 {
        MovesKeepGrid(m);
        WalkOnlyMarks(n, fuel - 1);
        OnlyMarksTrans(g.grid, m.grid, Walk(n, fuel - 1).final.grid);
      }
  }

  /** When the guard leaves the grid, her last cell is marked, the cell in
      front of it is off the grid, and her direction is still in 0..3. */
  lemma {:induction false} WalkEndsAtEdge(g: Guard, fuel: nat)
    requires 0 <= g.direction <= 3
    requires Walk(g, fuel).Exited?
    ensures var f := Walk(g, fuel).final;
      && HasCell(f.grid, f.row, f.col) && f.grid[f.row][f.col] == 'X'
      && OffGrid(f.grid, NextRowCol(f.direction, f.row, f.col).0, NextRowCol(f.direction, f.row, f.col).1)
      && 0 <= f.direction <= 3
    decreases fuel
  {
    var m := Mark(g);
    match NextMove(m)
    case Leaves =>
    case MovesTo(n) =>
      if fuel > 0 {
        NextMoveMeaning(m);
        WalkEndsAtEdge(n, fuel - 1);
      }
  }

  /** The counter the walk returns grew by exactly the number of cells it
      newly marked. */
  lemma {:induction false} WalkCounts(g: Guard, fuel: nat)
    requires Walk(g, fuel).Exited?
    ensures var f := Walk(g, fuel).final;
      f.visitedCount - Marks(f.grid) == g.visitedCount - Marks(g.grid)
    decreases fuel
  {
    var m := Mark(g);
    MarkCounts(g);
    match NextMove(m)
    case Leaves =>
    case MovesTo(n) =>
      if fuel > 0 {
        WalkCounts(n, fuel - 1);
      }
  }

  /** The turn is not checked: facing an obstacle with another one to her
      right, the guard turns and steps onto that second obstacle, marking
      it. */
  lemma TurnIsNotChecked()
    ensures var g := Guard([".#.", ".^#", "..."], 0, 0, 1, 1);
      && Walk(g, 1).Exited?
      && Walk(g, 1).final.grid[1][2] == 'X'
      && Walk(g, 1).final.visitedCount == 2
  {
    var g := Guard([".#.", ".^#", "..."], 0, 0, 1, 1);
    var m := Mark(g);
    assert m.grid[0] == ".#." && m.visitedCount == 1;
    assert TurnRight(0) == 1;
    var n := m.(direction := 1, row := 1, col := 2);
    assert NextMove(m) == MovesTo(n);
    assert n.grid[1][2] == '#';
    assert Walk(n, 0) == Exited(Mark(n));
  }

  // ---------------------------------------------------------------------
  // ProblemInput

  class ProblemInput {
    var grid: Grid
    var visitedCount: int
    var direction: int
    var curRow: int
    var curCol: int

    function State(): Guard
      reads this
    {
      Guard(grid, visitedCount, direction, curRow, curCol)
    }

    constructor(g: Guard)
      ensures State() == g
    {
      grid := g.grid;
      visitedCount := g.visitedCount;
      direction := g.direction;
      curRow := g.row;
      curCol := g.col;
    }

    /** pi.VisitGrid: marks the guard's cell, then stops off the grid or
        turns and moves and goes on; at most fuel moves. */
    method VisitGrid(fuel: nat) returns (outcome: Outcome)
      modifies this
      ensures outcome == Walk(old(State()), fuel)
      ensures outcome.Exited? ==> State() == outcome.final
      decreases fuel
    {
      var nextRow, nextCol := NextRowCol(direction, curRow, curCol).0, NextRowCol(direction, curRow, curCol).1;
      if !(0 <= curRow < |grid| && 0 <= curCol < |grid[curRow]|) {
        return Crashed;
      }
      var currentElement := grid[curRow][curCol];
      if currentElement != 'X' {
        grid := grid[curRow := grid[curRow][curCol := 'X']];
        visitedCount := visitedCount + 1;
      }
      assert State() == Mark(old(State()));
      if nextRow < 0 || nextRow >= |grid| || nextCol < 0 || nextCol >= |grid[0]| {
        return Exited(State());
      }
      if nextCol >= |grid[nextRow]| {
        return Crashed;
      }
      if grid[nextRow][nextCol] == '#' {
        direction := TurnRight(direction);
        nextRow, nextCol := NextRowCol(direction, curRow, curCol).0, NextRowCol(direction, curRow, curCol).1;
      }
      curRow, curCol := nextRow, nextCol;
      if fuel == 0 {
        return OutOfFuel;
      }
      outcome := VisitGrid(fuel - 1);
    }
  }

  // ---------------------------------------------------------------------
  // parseInput

  predicate IsArrow(c: char) { c == '^' || c == '>' || c == 'v' || c == '<' }

  function ArrowDirection(c: char): int
    requires IsArrow(c)
  {
    match c
    case '^' => 0
    case '>' => 1
    case 'v' => 2
    case '<' => 3
  }

  /** (r, c) comes before cell (i, j) in row-major order. */
  predicate Before(r: int, c: int, i: int, j: int) {
    r < i || (r == i && c < j)
  }

  /** The start that a row-major scan of the cells before (i, j) leaves:
      the last arrow seen, with its direction, or the zero values when
      there was none. */
  ghost predicate StartSoFar(grid: Grid, i: int, j: int, row: int, col: int, direction: int) {
    if exists r, c :: Before(r, c, i, j) && HasCell(grid, r, c) && IsArrow(grid[r][c]) then
      && Before(row, col, i, j) && HasCell(grid, row, col) && IsArrow(grid[row][col])
      && direction == ArrowDirection(grid[row][col])
      && forall r, c :: Before(r, c, i, j) && HasCell(grid, r, c) && IsArrow(grid[r][c]) ==> Before(r, c, row, col + 1)
    else row == 0 && col == 0 && direction == 0
  }

  /** parseInput: the grid is the trimmed input's lines; the guard starts
      on the last arrow of the grid in row-major order (the only one in a
      puzzle input), facing the way it points; with no arrow she starts at
      (0, 0) facing up. */
  ghost predicate Parsed(input: string, g: Guard) {
    && g.grid == Split(TrimSpace(input), '\n') && g.visitedCount == 0
    && StartSoFar(g.grid, |g.grid|, 0, g.row, g.col, g.direction)
  }

  /** The row-major scan of parseInput up to cell (i, j): the last arrow
      seen and its direction, or zeros. */
  function Scan(grid: Grid, i: nat, j: nat): (int, int, int)
    requires i < |grid| ==> j <= |grid[i]|
    requires i <= |grid| && (i == |grid| ==> j == 0)
    decreases i, j
  {
    if j > 0 then
      if IsArrow(grid[i][j - 1]) then (i, j - 1, ArrowDirection(grid[i][j - 1]))
      else Scan(grid, i, j - 1)
    else if i > 0 then Scan(grid, i - 1, |grid[i - 1]|)
    else (0, 0, 0)
  }

  /** The scan leaves the last arrow before (i, j). */
  lemma {:induction false} ScanMeaning(grid: Grid, i: nat, j: nat)
    requires i < |grid| ==> j <= |grid[i]|
    requires i <= |grid| && (i == |grid| ==> j == 0)
    ensures var (row, col, direction) := Scan(grid, i, j); StartSoFar(grid, i, j, row, col, direction)
    decreases i, j
  {
    if j > 0 {
      ScanMeaning(grid, i, j - 1);
      var (row, col, direction) := Scan(grid, i, j - 1);
      if IsArrow(grid[i][j - 1]) {
        ScanArrow(grid, i, j - 1);
      } else {
        ScanOther(grid, i, j - 1, row, col, direction);
      }
    } else if i > 0 {
      ScanMeaning(grid, i - 1, |grid[i - 1]|);
      var (row, col, direction) := Scan(grid, i - 1, |grid[i - 1]|);
      ScanRow(grid, i - 1, row, col, direction);
    } else {
      assert forall r, c :: HasCell(grid, r, c) ==> !Before(r, c, 0, 0);
    }
  }

  method ParseInput(input: string) returns (g: Guard)
    ensures Parsed(input, g)
  {
    var lines := Split(TrimSpace(input), '\n');
    var row, col, direction := 0, 0, 0;
    for i := 0 to |lines|
      invariant (row, col, direction) == Scan(lines, i, 0)
    {
      for j := 0 to |lines[i]|
        invariant (row, col, direction) == Scan(lines, i, j)
      {
        var element := lines[i][j];
        if IsArrow(element) {
          row, col := i, j;
          direction := ArrowDirection(element);
        }
      }
    }
    ScanMeaning(lines, |lines|, 0);
    g := Guard(lines, 0, direction, row, col);
  }

  lemma ScanArrow(grid: Grid, i: int, j: int)
    requires 0 <= i < |grid| && 0 <= j < |grid[i]| && IsArrow(grid[i][j])
    ensures StartSoFar(grid, i, j + 1, i, j, ArrowDirection(grid[i][j]))
  {
    assert Before(i, j, i, j + 1) && HasCell(grid, i, j);
  }

  lemma ScanOther(grid: Grid, i: int, j: int, row: int, col: int, direction: int)
    requires 0 <= i < |grid| && 0 <= j < |grid[i]| && !IsArrow(grid[i][j])
    requires StartSoFar(grid, i, j, row, col, direction)
    ensures StartSoFar(grid, i, j + 1, row, col, direction)
  {
    assert forall r, c :: Before(r, c, i, j + 1) <==> Before(r, c, i, j) || (r == i && c == j);
  }

  lemma ScanRow(grid: Grid, i: int, row: int, col: int, direction: int)
    requires 0 <= i < |grid| && StartSoFar(grid, i, |grid[i]|, row, col, direction)
    ensures StartSoFar(grid, i + 1, 0, row, col, direction)
  {
    assert forall r, c :: HasCell(grid, r, c) ==> (Before(r, c, i + 1, 0) <==> Before(r, c, i, |grid[i]|));
  }

  /** The scan's result is determined by the input: the last arrow. */
  lemma ParsedUnique(input: string, g1: Guard, g2: Guard)
    requires Parsed(input, g1) && Parsed(input, g2)
    ensures g1 == g2
  {
    var grid := g1.grid;
    assert g2.grid == grid;
    if exists r, c :: Before(r, c, |grid|, 0) && HasCell(grid, r, c) && IsArrow(grid[r][c]) {
      LastArrowUnique(grid, g1.row, g1.col, g1.direction, g2.row, g2.col, g2.direction);
    }
  }

  lemma LastArrowUnique(grid: Grid, r1: int, c1: int, d1: int, r2: int, c2: int, d2: int)
    requires exists r, c :: Before(r, c, |grid|, 0) && HasCell(grid, r, c) && IsArrow(grid[r][c])
    requires StartSoFar(grid, |grid|, 0, r1, c1, d1) && StartSoFar(grid, |grid|, 0, r2, c2, d2)
    ensures r1 == r2 && c1 == c2 && d1 == d2
  {
    assert Before(r2, c2, r1, c1 + 1);
    assert Before(r1, c1, r2, c2 + 1);
  }

  /** A puzzle input with exactly one arrow starts the guard there. */
  lemma SingleArrowStart(grid: Grid, row: int, col: int, direction: int, r0: int, c0: int)
    requires StartSoFar(grid, |grid|, 0, row, col, direction)
    requires HasCell(grid, r0, c0) && IsArrow(grid[r0][c0])
    requires forall r, c :: HasCell(grid, r, c) && IsArrow(grid[r][c]) ==> r == r0 && c == c0
    ensures row == r0 && col == c0 && direction == ArrowDirection(grid[r0][c0])
  {
    assert Before(r0, c0, |grid|, 0);
  }

  // ---------------------------------------------------------------------
  // The solver

  /** SolvePart1: the number of cells the guard marks before leaving, in
      decimal; None when the walk panics or does not end within fuel
      moves. */
  method SolvePart1(input: string, fuel: nat) returns (answer: Option<string>)
    ensures forall g :: Parsed(input, g) ==>
      match Walk(g, fuel)
      case Exited(f) => answer == Some(Itoa(f.visitedCount))
      case _ => answer == None
  {
    var g := ParseInput(input);
    forall g' | Parsed(input, g') ensures g' == g {
      ParsedUnique(input, g, g');
    }
    var problemInput := new ProblemInput(g);
    var outcome := problemInput.VisitGrid(fuel);
    if outcome.Exited? {
      return Some(Itoa(outcome.final.visitedCount));
    }
    return None;
  }
}
