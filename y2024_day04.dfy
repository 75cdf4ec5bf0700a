/** 2024/day04: a word search. Part 1 counts every XMAS read in any of the
    eight directions; part 2 counts every X drawn by two crossing MAS. */
module Y2024Day04 {
  import opened Text

  /** The rows of the puzzle, not necessarily of equal length. */
  type Grid = seq<seq<char>>

  predicate InBounds(grid: Grid, row: int, col: int) {
    0 <= row < |grid| && 0 <= col < |grid[row]|
  }

  /** E: the letter at (row, col) is letter; nothing outside the grid is. */
  function E(grid: Grid, row: int, col: int, letter: char): (b: bool)
    ensures b <==> InBounds(grid, row, col) && grid[row][col] == letter
  {
    if row < 0 || row >= |grid| then false
    else if col < 0 || col >= |grid[row]| then false
    else grid[row][col] == letter
  }

  // ---------------------------------------------------------------------
  // The eight Check functions

  /** The direction of each Check function, as a step in rows and columns. */
  datatype Direction =
    | Vertical | VerticalBackwards | DiagonalUR | DiagonalUL
    | DiagonalDR | DiagonalDL | Horizontal | HorizontalBackwards

  function Delta(d: Direction): (int, int) {
    match d
    case Vertical => (1, 0)
    case VerticalBackwards => (-1, 0)
    case DiagonalUR => (-1, 1)
    case DiagonalUL => (-1, -1)
    case DiagonalDR => (1, 1)
    case DiagonalDL => (1, -1)
    case Horizontal => (0, 1)
    case HorizontalBackwards => (0, -1)
  }

  /** The test of every Check function: X, M, A and S on four consecutive
      cells from (row, col), stepping dr rows and dc columns at a time. */
  predicate XmasCells(grid: Grid, row: int, col: int, dr: int, dc: int) {
    E(grid, row, col, 'X') && E(grid, row + dr, col + dc, 'M')
    && E(grid, row + 2 * dr, col + 2 * dc, 'A') && E(grid, row + 3 * dr, col + 3 * dc, 'S')
  }

  /** CheckVertical, CheckDiagonalUR and the rest: 1 when XMAS is spelled
      from (row, col) in the direction. */
  function Check(grid: Grid, row: int, col: int, d: Direction): (n: int)
    ensures n == 0 || n == 1
  {
    if XmasCells(grid, row, col, Delta(d).0, Delta(d).1) then 1 else 0
  }

  /** The word read from (row, col) in steps of (dr, dc): the four cells are
      in the grid and hold the letters of "XMAS" in order. */
  predicate ReadsXmas(grid: Grid, row: int, col: int, dr: int, dc: int) {
    forall k :: 0 <= k < 4 ==>
      InBounds(grid, row + k * dr, col + k * dc) && grid[row + k * dr][col + k * dc] == "XMAS"[k]
  }

  /** A Check function counts one exactly when XMAS is read in its direction. */
  lemma CheckMeansXmas(grid: Grid, row: int, col: int, d: Direction)
    ensures Check(grid, row, col, d) == 1 <==> ReadsXmas(grid, row, col, Delta(d).0, Delta(d).1)
  {
    XmasCellsMeaning(grid, row, col, Delta(d).0, Delta(d).1);
  }

  lemma XmasCellsMeaning(grid: Grid, row: int, col: int, dr: int, dc: int)
    ensures XmasCells(grid, row, col, dr, dc) <==> ReadsXmas(grid, row, col, dr, dc)
  {
    if ReadsXmas(grid, row, col, dr, dc) {
      assert InBounds(grid, row + 0 * dr, col + 0 * dc) && grid[row + 0 * dr][col + 0 * dc] == 'X';
      assert InBounds(grid, row + 1 * dr, col + 1 * dc) && grid[row + 1 * dr][col + 1 * dc] == 'M';
      assert InBounds(grid, row + 2 * dr, col + 2 * dc) && grid[row + 2 * dr][col + 2 * dc] == 'A';
      assert InBounds(grid, row + 3 * dr, col + 3 * dc) && grid[row + 3 * dr][col + 3 * dc] == 'S';
    }
    if XmasCells(grid, row, col, dr, dc) {
      forall k | 0 <= k < 4
        ensures InBounds(grid, row + k * dr, col + k * dc) && grid[row + k * dr][col + k * dc] == "XMAS"[k]
      {
        if k == 0 {} else if k == 1 {} else if k == 2 {} else {}
      }
    }
  }

  /** CountAtLocation: the number of directions in which XMAS starts here. */
  function CountAtLocation(grid: Grid, row: int, col: int): (n: int)
  {
    Check(grid, row, col, Vertical) + Check(grid, row, col, VerticalBackwards)
    + Check(grid, row, col, DiagonalDR) + Check(grid, row, col, DiagonalDL)
    + Check(grid, row, col, Horizontal) + Check(grid, row, col, HorizontalBackwards)
    + Check(grid, row, col, DiagonalUR) + Check(grid, row, col, DiagonalUL)
  }

  /** At most one word per direction, and none unless the cell is an X. */
  lemma CountAtLocationBounds(grid: Grid, row: int, col: int)
    ensures 0 <= CountAtLocation(grid, row, col) <= 8
    ensures !E(grid, row, col, 'X') ==> CountAtLocation(grid, row, col) == 0
  {
  }

  // ---------------------------------------------------------------------
  // CountX

  /** CountX: 1 when both diagonals through (row, col) read MAS one way or
      the other; the centre itself is not looked at. */
  function CountX(grid: Grid, row: int, col: int): (n: int)
    ensures n == 0 || n == 1
  {
    var masOnDiagonalLeft :=
      (E(grid, row - 1, col - 1, 'M') && E(grid, row + 1, col + 1, 'S'))
      || (E(grid, row - 1, col - 1, 'S') && E(grid, row + 1, col + 1, 'M'));
    var masOnDiagonalRight :=
      (E(grid, row - 1, col + 1, 'M') && E(grid, row + 1, col - 1, 'S'))
      || (E(grid, row - 1, col + 1, 'S') && E(grid, row + 1, col - 1, 'M'));
    if masOnDiagonalLeft && masOnDiagonalRight then 1 else 0
  }

  /** The letters at the ends of a diagonal through (row, col) are M and S,
      in either order. */
  predicate MasAcross(grid: Grid, row: int, col: int, dc: int) {
    InBounds(grid, row - 1, col - dc) && InBounds(grid, row + 1, col + dc)
    && {grid[row - 1][col - dc], grid[row + 1][col + dc]} == {'M', 'S'}
  }

  /** CountX is 1 exactly when both diagonals hold an M and an S at their ends. */
  lemma CountXMeaning(grid: Grid, row: int, col: int)
    ensures CountX(grid, row, col) == 1 <==> MasAcross(grid, row, col, 1) && MasAcross(grid, row, col, -1)
  {
    if MasAcross(grid, row, col, 1) {
      var a, b := grid[row - 1][col - 1], grid[row + 1][col + 1];
      assert a in {'M', 'S'} && b in {'M', 'S'} && a != b;
    }
    if MasAcross(grid, row, col, -1) {
      var a, b := grid[row - 1][col + 1], grid[row + 1][col - 1];
      assert a in {'M', 'S'} && b in {'M', 'S'} && a != b;
    }
  }

  /** The centre of the X does not matter to CountX. */
  lemma CountXIgnoresCentre(grid: Grid, row: int, col: int, letter: char)
    requires InBounds(grid, row, col)
    ensures var g := grid[row := grid[row][col := letter]];
      CountX(g, row, col) == CountX(grid, row, col)
  {
    var g := grid[row := grid[row][col := letter]];
    forall r, c, l | (r, c) != (row, col)
      ensures E(g, r, c, l) == E(grid, r, c, l)
    {
    }
    assert E(g, row - 1, col - 1, 'M') == E(grid, row - 1, col - 1, 'M');
  }

  // ---------------------------------------------------------------------
  // SolvePart1 and SolvePart2

  /** The counts f(r, c) summed over the cells holding letter, rows
      [0, rows) only, and in row `rows` the columns [0, cols). */
  function SumOver(grid: Grid, letter: char, f: (int, int) -> int, rows: nat, cols: nat): int
    requires rows < |grid| && cols <= |grid[rows]|
    decreases rows, cols
  {
    if cols > 0 then
      SumOver(grid, letter, f, rows, cols - 1) + (if grid[rows][cols - 1] == letter then f(rows, cols - 1) else 0)
    else if rows > 0 then SumOver(grid, letter, f, rows - 1, |grid[rows - 1]|)
    else 0
  }

  /** The sum over the whole grid. */
  function SumAll(grid: Grid, letter: char, f: (int, int) -> int): int {
    if grid == [] then 0 else SumOver(grid, letter, f, |grid| - 1, |grid[|grid| - 1]|)
  }

  /** The count of the cells holding letter, over the same range. */
  function Occurrences(grid: Grid, letter: char, rows: nat, cols: nat): nat
    requires rows < |grid| && cols <= |grid[rows]|
    decreases rows, cols
  {
    if cols > 0 then Occurrences(grid, letter, rows, cols - 1) + (if grid[rows][cols - 1] == letter then 1 else 0)
    else if rows > 0 then Occurrences(grid, letter, rows - 1, |grid[rows - 1]|)
    else 0
  }

  lemma BoundStep(s: int, o: int, v: int, m: int)
    requires 0 <= s <= m * o && 0 <= v <= m
    ensures 0 <= s + v <= m * (o + 1)
  {
    assert m * (o + 1) == m * o + m;
  }

  /** A sum of counts of at most m per cell is at most m per matching cell. */
  lemma {:induction false} SumOverBound(grid: Grid, letter: char, f: (int, int) -> int, m: int, rows: nat, cols: nat)
    requires rows < |grid| && cols <= |grid[rows]|
    requires forall r, c :: InBounds(grid, r, c) ==> 0 <= f(r, c) <= m
    ensures 0 <= SumOver(grid, letter, f, rows, cols) <= m * Occurrences(grid, letter, rows, cols)
    decreases rows, cols
  {
    if cols > 0 {
      SumOverBound(grid, letter, f, m, rows, cols - 1);
      assert InBounds(grid, rows, cols - 1);
      var s, o := SumOver(grid, letter, f, rows, cols - 1), Occurrences(grid, letter, rows, cols - 1);
      if grid[rows][cols - 1] == letter {
        BoundStep(s, o, f(rows, cols - 1), m);
      }
    } else if rows > 0 {
      SumOverBound(grid, letter, f, m, rows - 1, |grid[rows - 1]|);
    }
  }

  function Part1Counts(grid: Grid): (int, int) -> int {
    (r: int, c: int) => CountAtLocation(grid, r, c)
  }

  function Part2Counts(grid: Grid): (int, int) -> int {
    (r: int, c: int) => CountX(grid, r, c)
  }

  /** Part 1 finds at most eight words per X, part 2 at most one X per A. */
  lemma AnswersBounded(grid: Grid)
    requires grid != []
    ensures var rows, cols := |grid| - 1, |grid[|grid| - 1]|;
      && 0 <= SumAll(grid, 'X', Part1Counts(grid)) <= 8 * Occurrences(grid, 'X', rows, cols)
      && 0 <= SumAll(grid, 'A', Part2Counts(grid)) <= Occurrences(grid, 'A', rows, cols)
  {
    forall r, c | InBounds(grid, r, c)
      ensures 0 <= Part1Counts(grid)(r, c) <= 8
    {
      CountAtLocationBounds(grid, r, c);
    }
    SumOverBound(grid, 'X', Part1Counts(grid), 8, |grid| - 1, |grid[|grid| - 1]|);
    SumOverBound(grid, 'A', Part2Counts(grid), 1, |grid| - 1, |grid[|grid| - 1]|);
  }

  /** The double loop of SolvePart1 and SolvePart2: f summed over the cells
      holding letter, row by row. */
  method SumAtLetter(grid: Grid, letter: char, f: (int, int) -> int) returns (total: int)
    ensures total == SumAll(grid, letter, f)
  {
    total := 0;
    if grid == [] {
      return;
    }
    for r := 0 to |grid|
      invariant r == 0 ==> total == 0
      invariant r > 0 ==> total == SumOver(grid, letter, f, r - 1, |grid[r - 1]|)
    {
      for c := 0 to |grid[r]|
        invariant total == SumOver(grid, letter, f, r, c)
      {
        if grid[r][c] == letter {
          total := total + f(r, c);
        }
      }
    }
  }

  /** SolvePart1: the XMAS words starting at every X. */
  method SolvePart1(input: string) returns (answer: string)
    ensures var grid := ParseInput(input); answer == Itoa(SumAll(grid, 'X', Part1Counts(grid)))
  {
    var grid := ParseInput(input);
    var wordCount := SumAtLetter(grid, 'X', Part1Counts(grid));
    answer := Itoa(wordCount);
  }

  /** SolvePart2: the crossed MAS pairs centred on every A. */
  method SolvePart2(input: string) returns (answer: string)
    ensures var grid := ParseInput(input); answer == Itoa(SumAll(grid, 'A', Part2Counts(grid)))
  {
    var grid := ParseInput(input);
    var xCount := SumAtLetter(grid, 'A', Part2Counts(grid));
    answer := Itoa(xCount);
  }

  /** parseInput: the rows of the trimmed input, letter by letter. */
  function ParseInput(input: string): (grid: Grid)
    ensures |grid| >= 1 && forall r :: 0 <= r < |grid| ==> '\n' !in grid[r]
  {
    Split(TrimSpace(input), '\n')
  }
}
