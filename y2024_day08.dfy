/** 2024/day08: antennas of the same frequency create antinodes. Part 1
    marks, for each ordered pair of distinct antennas of one frequency, the
    two points that continue the pair's step beyond either antenna; part 2
    marks every grid point on the line through the pair in whole steps.
    Marks go into a second grid, AntinodeLocations, and each answer is the
    number of cells that turned from '.' to '#'.

    Go visits the frequencies in map order; the model picks them in an
    arbitrary order, and the results do not depend on it. */
module Y2024Day08 {
  import opened Text

  /** The rows of a grid; parseInput does not make them equal in length. */
  type Grid = seq<seq<char>>

  datatype Point = Point(row: int, col: int)

  /** pi.IsInGrid: the row is a row of the grid and the column lies inside
      that row. */
  predicate IsInGrid(grid: Grid, p: Point) {
    0 <= p.row < |grid| && 0 <= p.col < |grid[p.row]|
  }

  predicate SameShape(a: Grid, b: Grid) {
    |a| == |b| && forall r :: 0 <= r < |a| ==> |a[r]| == |b[r]|
  }

  function Elements(s: seq<Point>): set<Point> {
    if s == [] then {} else Elements(s[..|s| - 1]) + {s[|s| - 1]}
  }

  lemma ElementsSnoc(s: seq<Point>, p: Point)
    ensures Elements(s + [p]) == Elements(s) + {p}
  {
    assert (s + [p])[..|s|] == s;
  }

  lemma {:induction false} ElementsCons(p: Point, s: seq<Point>)
    ensures Elements([p] + s) == {p} + Elements(s)
  {
    if s != [] {
      var init := s[..|s| - 1];
      assert [p] + s == ([p] + init) + [s[|s| - 1]];
      ElementsSnoc([p] + init, s[|s| - 1]);
      ElementsCons(p, init);
    } else {
      assert [p] + s == [] + [p];
      ElementsSnoc([], p);
    }
  }

  lemma {:induction false} ElementsMeaning(s: seq<Point>, p: Point)
    ensures p in Elements(s) <==> exists i :: 0 <= i < |s| && s[i] == p
  {
    if s != [] {
      ElementsMeaning(s[..|s| - 1], p);
      if p in Elements(s[..|s| - 1]) {
        var i :| 0 <= i < |s| - 1 && s[..|s| - 1][i] == p;
        assert s[i] == p;
      }
    }
  }

  // ---------------------------------------------------------------------
  // Marking one cell

  /** The cell at row r, column c. Annotated quantifies over this
      function rather than over indexing, so that its facts are used only
      where a proof asks for a cell this way. */
  function Cell(g: Grid, r: int, c: int): char
    requires 0 <= r < |g| && 0 <= c < |g[r]|
  {
    g[r][c]
  }

  /** cur is base with every '.' cell whose point is in s turned into '#'. */
  ghost predicate Annotated(base: Grid, cur: Grid, s: set<Point>) {
    && SameShape(base, cur)
    && forall r, c {:trigger Cell(cur, r, c)} :: 0 <= r < |base| && 0 <= c < |base[r]| ==>
         Cell(cur, r, c) == if Point(r, c) in s && base[r][c] == '.' then '#' else base[r][c]
  }

  /** The number of '#' cells in a row. */
  function RowMarks(row: seq<char>): nat {
    if row == [] then 0 else (if row[0] == '#' then 1 else 0) + RowMarks(row[1..])
  }

  /** The number of '#' cells in a grid. */
  function Marks(grid: Grid): nat {
    if grid == [] then 0 else RowMarks(grid[0]) + Marks(grid[1..])
  }

  lemma {:induction false} RowMarksUpdate(row: seq<char>, c: nat)
    requires c < |row| && row[c] == '.'
    ensures RowMarks(row[c := '#']) == RowMarks(row) + 1
  {
    if c > 0 {
      assert row[c := '#'][1..] == row[1..][c - 1 := '#'];
      RowMarksUpdate(row[1..], c - 1);
    } else {
      assert row[c := '#'][1..] == row[1..];
    }
  }

  lemma {:induction false} MarksUpdate(grid: Grid, r: nat, newRow: seq<char>)
    requires r < |grid|
    ensures Marks(grid[r := newRow]) == Marks(grid) - RowMarks(grid[r]) + RowMarks(newRow)
  {
    if r > 0 {
      assert grid[r := newRow][1..] == grid[1..][r - 1 := newRow];
      MarksUpdate(grid[1..], r - 1, newRow);
    } else {
      assert grid[r := newRow][1..] == grid[1..];
    }
  }

  /** Marking a point inside the grid: the cell flips exactly when it is
      still '.', and then the number of '#' cells grows by one. */
  lemma MarkStep(base: Grid, cur: Grid, s: set<Point>, p: Point)
    requires Annotated(base, cur, s) && IsInGrid(base, p)
    ensures cur[p.row][p.col] == '.' ==>
      && Annotated(base, cur[p.row := cur[p.row][p.col := '#']], s + {p})
      && Marks(cur[p.row := cur[p.row][p.col := '#']]) == Marks(cur) + 1
    ensures cur[p.row][p.col] != '.' ==> Annotated(base, cur, s + {p})
  {
    var next := if cur[p.row][p.col] == '.' then cur[p.row := cur[p.row][p.col := '#']] else cur;
    assert Cell(cur, p.row, p.col) == cur[p.row][p.col];
    forall r, c | 0 <= r < |base| && 0 <= c < |base[r]|
      ensures Cell(next, r, c) == if Point(r, c) in s + {p} && base[r][c] == '.' then '#' else base[r][c]
    {
      assert Cell(cur, r, c) == if Point(r, c) in s && base[r][c] == '.' then '#' else base[r][c];
    }
    if cur[p.row][p.col] == '.' {
      RowMarksUpdate(cur[p.row], p.col);
      MarksUpdate(cur, p.row, cur[p.row][p.col := '#']);
    }
  }

  /** A point outside the grid is marked by doing nothing. */
  lemma SkipOutside(base: Grid, cur: Grid, s: set<Point>, p: Point)
    requires Annotated(base, cur, s) && !IsInGrid(base, p)
    ensures Annotated(base, cur, s + {p})
  {
    forall r, c | 0 <= r < |base| && 0 <= c < |base[r]|
      ensures Cell(cur, r, c) == if Point(r, c) in s + {p} && base[r][c] == '.' then '#' else base[r][c]
    {
      assert Cell(cur, r, c) == if Point(r, c) in s && base[r][c] == '.' then '#' else base[r][c];
    }
  }

  /** With a base of '.' cells only, a cell holds '#' exactly when its
      point was marked. */
  lemma AnnotatedBlank(base: Grid, cur: Grid, s: set<Point>, p: Point)
    requires Annotated(base, cur, s) && IsInGrid(base, p)
    requires forall r, c :: 0 <= r < |base| && 0 <= c < |base[r]| ==> base[r][c] == '.'
    ensures cur[p.row][p.col] == '#' <==> p in s
  {
    assert Cell(cur, p.row, p.col) == cur[p.row][p.col];
  }

  // ---------------------------------------------------------------------
  // The points each part marks

  /** The two part 1 candidates of an ordered pair: second + delta and
      first - delta, with delta = second - first; none when the two
      antennas are the same point. */
  function Part1Pair(first: Point, second: Point): set<Point> {
    if first == second then {}
    else
      var deltaRow, deltaCol := second.row - first.row, second.col - first.col;
      {Point(second.row + deltaRow, second.col + deltaCol), Point(first.row - deltaRow, first.col - deltaCol)}
  }

  /** The points of PairPoints(rule, first, locs[k]) for k < j. */
  ghost function PairsRow(rule: Rule, locs: seq<Point>, first: Point, j: nat): set<Point>
    requires j <= |locs|
  {
    if j == 0 then {} else PairsRow(rule, locs, first, j - 1) + PairPoints(rule, first, locs[j - 1])
  }

  /** The points of PairPoints(rule, locs[i], locs[k]) for i < n and every k. */
  ghost function PairsRows(rule: Rule, locs: seq<Point>, n: nat): set<Point>
    requires n <= |locs|
  {
    if n == 0 then {} else PairsRows(rule, locs, n - 1) + PairsRow(rule, locs, locs[n - 1], |locs|)
  }

  /** The points of every ordered pair of antennas of the frequencies in keys. */
  ghost function AllPairs(rule: Rule, antennas: map<char, seq<Point>>, keys: set<char>): set<Point> {
    set f, p | f in keys && f in antennas && p in PairsRows(rule, antennas[f], |antennas[f]|) :: p
  }

  /** A point of PairsRow comes from some k < j. */
  lemma {:induction false} PairsRowSound(rule: Rule, locs: seq<Point>, first: Point, j: nat, p: Point) returns (k: nat)
    requires j <= |locs| && p in PairsRow(rule, locs, first, j)
    ensures k < j && p in PairPoints(rule, first, locs[k])
  {
    if p in PairPoints(rule, first, locs[j - 1]) {
      k := j - 1;
    } else {
      k := PairsRowSound(rule, locs, first, j - 1, p);
    }
  }

  /** Every k < j contributes its points to PairsRow. */
  lemma {:induction false} PairsRowComplete(rule: Rule, locs: seq<Point>, first: Point, j: nat, k: nat, p: Point)
    requires k < j <= |locs| && p in PairPoints(rule, first, locs[k])
    ensures p in PairsRow(rule, locs, first, j)
  {
    if k < j - 1 {
      PairsRowComplete(rule, locs, first, j - 1, k, p);
    }
  }

  /** A point of PairsRows comes from some ordered pair (i, k), i < n. */
  lemma {:induction false} PairsRowsSound(rule: Rule, locs: seq<Point>, n: nat, p: Point) returns (i: nat, k: nat)
    requires n <= |locs| && p in PairsRows(rule, locs, n)
    ensures i < n && k < |locs| && p in PairPoints(rule, locs[i], locs[k])
  {
    if p in PairsRow(rule, locs, locs[n - 1], |locs|) {
      i := n - 1;
      k := PairsRowSound(rule, locs, locs[i], |locs|, p);
    } else {
      i, k := PairsRowsSound(rule, locs, n - 1, p);
    }
  }

  /** Every ordered pair (i, k), i < n, contributes its points to PairsRows. */
  lemma {:induction false} PairsRowsComplete(rule: Rule, locs: seq<Point>, n: nat, i: nat, k: nat, p: Point)
    requires i < n <= |locs| && k < |locs| && p in PairPoints(rule, locs[i], locs[k])
    ensures p in PairsRows(rule, locs, n)
  {
    if i < n - 1 {
      PairsRowsComplete(rule, locs, n - 1, i, k, p);
    } else {
      PairsRowComplete(rule, locs, locs[i], |locs|, k, p);
    }
  }

  /** The marked points of a whole map: those of some ordered pair of
      antennas of one frequency. */
  lemma AllPairsMeaning(rule: Rule, antennas: map<char, seq<Point>>, p: Point)
    ensures p in AllPairs(rule, antennas, antennas.Keys) <==>
      exists f, i, k :: f in antennas && 0 <= i < |antennas[f]| && 0 <= k < |antennas[f]|
        && p in PairPoints(rule, antennas[f][i], antennas[f][k])
  {
    if p in AllPairs(rule, antennas, antennas.Keys) {
      var f :| f in antennas && p in PairsRows(rule, antennas[f], |antennas[f]|);
      var i, k := PairsRowsSound(rule, antennas[f], |antennas[f]|, p);
    }
    if exists f, i, k :: f in antennas && 0 <= i < |antennas[f]| && 0 <= k < |antennas[f]|
        && p in PairPoints(rule, antennas[f][i], antennas[f][k]) {
      var f, i, k :| f in antennas && 0 <= i < |antennas[f]| && 0 <= k < |antennas[f]|
        && p in PairPoints(rule, antennas[f][i], antennas[f][k]);
      PairsRowsComplete(rule, antennas[f], |antennas[f]|, i, k, p);
    }
  }

  lemma AllPairsAdd(rule: Rule, antennas: map<char, seq<Point>>, done: set<char>, f: char)
    requires f in antennas
    ensures AllPairs(rule, antennas, done + {f}) ==
      AllPairs(rule, antennas, done) + PairsRows(rule, antennas[f], |antennas[f]|)
  {
  }

  /** Part 1 marks exactly the points second + (second - first) of the
      ordered pairs of distinct antennas of one frequency (the other
      candidate, first - delta, is that of the reversed pair). */
  lemma Part1Antinodes(antennas: map<char, seq<Point>>, p: Point)
    ensures p in AllPairs(Part1, antennas, antennas.Keys) <==>
      exists f, i, k :: f in antennas && 0 <= i < |antennas[f]| && 0 <= k < |antennas[f]|
        && antennas[f][i] != antennas[f][k]
        && p == Point(2 * antennas[f][k].row - antennas[f][i].row, 2 * antennas[f][k].col - antennas[f][i].col)
  {
    AllPairsMeaning(Part1, antennas, p);
    if p in AllPairs(Part1, antennas, antennas.Keys) {
      var f, i, k :| f in antennas && 0 <= i < |antennas[f]| && 0 <= k < |antennas[f]|
        && p in PairPoints(Part1, antennas[f][i], antennas[f][k]);
      var a, b := antennas[f][i], antennas[f][k];
      if p != Point(2 * b.row - a.row, 2 * b.col - a.col) {
        assert p == Point(2 * a.row - b.row, 2 * a.col - b.col);
        assert p in Part1Pair(antennas[f][k], antennas[f][i]);
      }
    }
  }

  // ---------------------------------------------------------------------
  // Part 2 rays

  /** A bound on the steps a ray can still take inside the grid. */
  function RayMeasure(grid: Grid, p: Point, dr: int, dc: int): nat {
    if dr > 0 then (if p.row < |grid| then |grid| - p.row else 0)
    else if dr < 0 then (if p.row >= 0 then p.row + 1 else 0)
    else if dc > 0 then (if 0 <= p.row < |grid| && p.col < |grid[p.row]| then |grid[p.row]| - p.col else 0)
    else (if p.col >= 0 then p.col + 1 else 0)
  }

  /** The points p + k*(dr, dc), k = 1, 2, ..., up to the first that is
      off the grid: the cells the inner loop of part 2 visits. */
  function Ray(grid: Grid, p: Point, dr: int, dc: int): seq<Point>
    requires dr != 0 || dc != 0
    decreases RayMeasure(grid, p, dr, dc)
  {
    var next := Point(p.row + dr, p.col + dc);
    if !IsInGrid(grid, next) then [] else [next] + Ray(grid, next, dr, dc)
  }

  /** The cells of the ray as a set: what the inner loop of part 2 marks. */
  function RayCells(grid: Grid, p: Point, dr: int, dc: int): set<Point>
    requires dr != 0 || dc != 0
    decreases RayMeasure(grid, p, dr, dc)
  {
    var next := Point(p.row + dr, p.col + dc);
    if !IsInGrid(grid, next) then {} else {next} + RayCells(grid, next, dr, dc)
  }

  /** Where the walk along a ray stops: the last point of the ray, or p
      itself when the ray is empty. */
  function RayEnd(grid: Grid, p: Point, dr: int, dc: int): Point
    requires dr != 0 || dc != 0
    decreases RayMeasure(grid, p, dr, dc)
  {
    var next := Point(p.row + dr, p.col + dc);
    if !IsInGrid(grid, next) then p else RayEnd(grid, next, dr, dc)
  }

  /** One step of a ray: when the next point is on the grid, it starts the
      rest of the ray, the walk ends where the walk from it ends, and the
      measure drops. */
  lemma RayStep(grid: Grid, p: Point, dr: int, dc: int)
    requires dr != 0 || dc != 0
    ensures var next := Point(p.row + dr, p.col + dc);
      && (IsInGrid(grid, next) ==> RayEnd(grid, p, dr, dc) == RayEnd(grid, next, dr, dc))
      && (IsInGrid(grid, next) ==> RayMeasure(grid, next, dr, dc) < RayMeasure(grid, p, dr, dc))
      && (IsInGrid(grid, next) ==> Ray(grid, p, dr, dc) == [next] + Ray(grid, next, dr, dc))
      && (!IsInGrid(grid, next) ==> Ray(grid, p, dr, dc) == [] && RayCells(grid, p, dr, dc) == {})
      && (!IsInGrid(grid, next) ==> RayEnd(grid, p, dr, dc) == p)
  {
  }

  /** The cells of a ray are the elements of its sequence. */
  lemma {:induction false} RayCellsElements(grid: Grid, p: Point, dr: int, dc: int)
    requires dr != 0 || dc != 0
    ensures RayCells(grid, p, dr, dc) == Elements(Ray(grid, p, dr, dc))
    decreases RayMeasure(grid, p, dr, dc)
  {
    var next := Point(p.row + dr, p.col + dc);
    RayStep(grid, p, dr, dc);
    if IsInGrid(grid, next) {
      RayCellsElements(grid, next, dr, dc);
      ElementsCons(next, Ray(grid, next, dr, dc));
    } else {
      assert Ray(grid, p, dr, dc) == [];
    }
  }

  /** The directions of part 2: backwards from the first antenna, then
      forwards. */
  const Directions: seq<int> := [-1, 1]

  /** The part 2 points of an ordered pair: the first antenna, the walk
      backwards from it, then the walk forwards from where that stopped.
      The walk does not return to the antenna between directions. */
  function Part2Pair(grid: Grid, first: Point, second: Point): set<Point> {
    if first == second then {}
    else
      var dr, dc := second.row - first.row, second.col - first.col;
      var mid := RayEnd(grid, first, -dr, -dc);
      {first} + RayCells(grid, first, -dr, -dc) + RayCells(grid, mid, dr, dc)
  }

  /** Part2Pair added to a set of marked points, spelled out the way the
      part 2 loop adds them. */
  lemma Part2Parts(grid: Grid, first: Point, second: Point, s: set<Point>, dr: int, dc: int)
    requires first != second && dr == second.row - first.row && dc == second.col - first.col
    ensures s + {first} + RayCells(grid, first, -dr, -dc) + RayCells(grid, RayEnd(grid, first, -dr, -dc), dr, dc)
        == s + Part2Pair(grid, first, second)
  {
  }

  /** Which points an ordered pair of antennas marks: part 1's two
      candidates, or part 2's lines in a given grid. */
  datatype Rule = Part1 | Part2(grid: Grid)

  function PairPoints(rule: Rule, first: Point, second: Point): set<Point> {
    match rule
    case Part1 => Part1Pair(first, second)
    case Part2(grid) => Part2Pair(grid, first, second)
  }

  // ---------------------------------------------------------------------
  // Part 2 on a rectangular grid: the whole line

  /** p + k*(dr, dc). */
  function Along(p: Point, dr: int, dc: int, k: int): Point {
    Point(p.row + k * dr, p.col + k * dc)
  }

  lemma AlongShift(p: Point, dr: int, dc: int, a: int, b: int)
    ensures Along(Along(p, dr, dc, a), dr, dc, b) == Along(p, dr, dc, a + b)
  {
    assert a * dr + b * dr == (a + b) * dr;
    assert a * dc + b * dc == (a + b) * dc;
  }

  lemma AlongBack(p: Point, dr: int, dc: int, k: int)
    ensures Along(p, -dr, -dc, k) == Along(p, dr, dc, -k)
  {
    assert k * -dr == -k * dr;
    assert k * -dc == -k * dc;
  }

  /** The points of a ray are p + i*(dr, dc) for i = 1 .. |ray|, all on
      the grid. */
  lemma {:induction false} RayPoints(grid: Grid, p: Point, dr: int, dc: int, i: nat)
    requires dr != 0 || dc != 0
    requires i < |Ray(grid, p, dr, dc)|
    ensures Ray(grid, p, dr, dc)[i] == Along(p, dr, dc, i + 1)
    ensures IsInGrid(grid, Ray(grid, p, dr, dc)[i])
    decreases RayMeasure(grid, p, dr, dc)
  {
    var next := Point(p.row + dr, p.col + dc);
    RayStep(grid, p, dr, dc);
    if i > 0 {
      RayPoints(grid, next, dr, dc, i - 1);
      AlongShift(p, dr, dc, 1, i);
    }
  }

  /** The point after the last one of a ray is off the grid, and the
      walk ends at p + |ray|*(dr, dc). */
  lemma {:induction false} RayStops(grid: Grid, p: Point, dr: int, dc: int)
    requires dr != 0 || dc != 0
    ensures !IsInGrid(grid, Along(p, dr, dc, |Ray(grid, p, dr, dc)| + 1))
    ensures RayEnd(grid, p, dr, dc) == Along(p, dr, dc, |Ray(grid, p, dr, dc)|)
    decreases RayMeasure(grid, p, dr, dc)
  {
    var next := Point(p.row + dr, p.col + dc);
    RayStep(grid, p, dr, dc);
    if IsInGrid(grid, next) {
      RayStops(grid, next, dr, dc);
      var n := |Ray(grid, next, dr, dc)|;
      assert |Ray(grid, p, dr, dc)| == n + 1;
      AlongShift(p, dr, dc, 1, n + 1);
      AlongShift(p, dr, dc, 1, n);
    } else {
      assert p == Along(p, dr, dc, 0);
    }
  }

  /** Every row of the grid has the width of the first. */
  predicate Rectangular(grid: Grid) {
    forall r :: 0 <= r < |grid| ==> |grid[r]| == |grid[0]|
  }

  lemma Between(a: int, j: int, b: int, d: int)
    requires a <= j <= b
    ensures a * d <= j * d <= b * d || b * d <= j * d <= a * d
  {
    if d >= 0 {
      assert (j - a) * d >= 0 && (b - j) * d >= 0;
    } else {
      assert (j - a) * -d >= 0 && (b - j) * -d >= 0;
    }
  }

  /** On a rectangular grid, the points of a line that lie on the grid
      form one unbroken run. */
  lemma Convex(grid: Grid, p: Point, dr: int, dc: int, a: int, j: int, b: int)
    requires Rectangular(grid) && a <= j <= b
    requires IsInGrid(grid, Along(p, dr, dc, a)) && IsInGrid(grid, Along(p, dr, dc, b))
    ensures IsInGrid(grid, Along(p, dr, dc, j))
  {
    Between(a, j, b, dr);
    Between(a, j, b, dc);
  }

  /** On a rectangular grid, a ray from a grid point holds exactly the
      grid points p + k*(dr, dc) with k >= 1. */
  lemma RayOnRectangle(grid: Grid, p: Point, dr: int, dc: int, k: int)
    requires dr != 0 || dc != 0
    requires Rectangular(grid) && IsInGrid(grid, p) && k >= 1
    ensures IsInGrid(grid, Along(p, dr, dc, k)) <==> k <= |Ray(grid, p, dr, dc)|
  {
    RayStops(grid, p, dr, dc);
    var ray := Ray(grid, p, dr, dc);
    if k <= |ray| {
      RayPoints(grid, p, dr, dc, k - 1);
    } else if IsInGrid(grid, Along(p, dr, dc, k)) {
      assert p == Along(p, dr, dc, 0);
      Convex(grid, p, dr, dc, 0, |ray| + 1, k);
      assert false;
    }
  }

  /** The mid point of part 2: where the backward walk from first stops,
      first - |back|*(dr, dc), which is on the grid. */
  lemma MidPoint(grid: Grid, first: Point, dr: int, dc: int)
    requires (dr != 0 || dc != 0) && IsInGrid(grid, first)
    ensures var back := Ray(grid, first, -dr, -dc);
      var mid := RayEnd(grid, first, -dr, -dc);
      mid == Along(first, dr, dc, -|back|) && IsInGrid(grid, mid)
  {
    var back := Ray(grid, first, -dr, -dc);
    RayStops(grid, first, -dr, -dc);
    AlongBack(first, dr, dc, |back|);
    if |back| > 0 {
      RayPoints(grid, first, -dr, -dc, |back| - 1);
    }
  }

  /** Each cell of a ray is on the grid, at p + i*(dr, dc) for some
      i >= 1. */
  lemma RayCellOnLine(grid: Grid, p: Point, dr: int, dc: int, q: Point)
    requires (dr != 0 || dc != 0) && q in RayCells(grid, p, dr, dc)
    ensures IsInGrid(grid, q)
    ensures exists i :: i >= 1 && q == Along(p, dr, dc, i)
  {
    var ray := Ray(grid, p, dr, dc);
    RayCellsElements(grid, p, dr, dc);
    ElementsMeaning(ray, q);
    var i :| 0 <= i < |ray| && ray[i] == q;
    RayPoints(grid, p, dr, dc, i);
  }

  /** On a rectangular grid, every grid point p + k*(dr, dc) with k >= 1
      is a cell of the ray from a grid point p. */
  lemma RayCellComplete(grid: Grid, p: Point, dr: int, dc: int, k: int)
    requires (dr != 0 || dc != 0) && Rectangular(grid) && IsInGrid(grid, p) && k >= 1
    requires IsInGrid(grid, Along(p, dr, dc, k))
    ensures Along(p, dr, dc, k) in RayCells(grid, p, dr, dc)
  {
    var ray := Ray(grid, p, dr, dc);
    RayOnRectangle(grid, p, dr, dc, k);
    RayPoints(grid, p, dr, dc, k - 1);
    RayCellsElements(grid, p, dr, dc);
    ElementsMeaning(ray, Along(p, dr, dc, k));
  }

  /** Each point the two walks of part 2 reach lies on the line. */
  lemma LineSound(grid: Grid, first: Point, dr: int, dc: int, q: Point)
    requires (dr != 0 || dc != 0) && IsInGrid(grid, first)
    requires var mid := RayEnd(grid, first, -dr, -dc);
      q == first || q in RayCells(grid, first, -dr, -dc) || q in RayCells(grid, mid, dr, dc)
    ensures IsInGrid(grid, q) && exists k :: q == Along(first, dr, dc, k)
  {
    var back := Ray(grid, first, -dr, -dc);
    var mid := RayEnd(grid, first, -dr, -dc);
    if q == first {
      assert q == Along(first, dr, dc, 0);
    } else if q in RayCells(grid, first, -dr, -dc) {
      RayCellOnLine(grid, first, -dr, -dc, q);
      var i :| i >= 1 && q == Along(first, -dr, -dc, i);
      AlongBack(first, dr, dc, i);
    } else {
      MidPoint(grid, first, dr, dc);
      RayCellOnLine(grid, mid, dr, dc, q);
      var i :| i >= 1 && q == Along(mid, dr, dc, i);
      AlongShift(first, dr, dc, -|back|, i);
    }
  }

  /** On a rectangular grid, the two walks of part 2 reach every grid
      point of the line. */
  lemma LineComplete(grid: Grid, first: Point, dr: int, dc: int, k: int)
    requires (dr != 0 || dc != 0) && Rectangular(grid) && IsInGrid(grid, first)
    requires IsInGrid(grid, Along(first, dr, dc, k))
    ensures var q, mid := Along(first, dr, dc, k), RayEnd(grid, first, -dr, -dc);
      q == first || q in RayCells(grid, first, -dr, -dc) || q in RayCells(grid, mid, dr, dc)
  {
    var back := Ray(grid, first, -dr, -dc);
    var mid := RayEnd(grid, first, -dr, -dc);
    if k < 0 {
      AlongBack(first, dr, dc, -k);
      RayCellComplete(grid, first, -dr, -dc, -k);
    } else if k == 0 {
      assert Along(first, dr, dc, k) == first;
    } else {
      MidPoint(grid, first, dr, dc);
      AlongShift(first, dr, dc, -|back|, k + |back|);
      RayCellComplete(grid, mid, dr, dc, k + |back|);
    }
  }

  /** Part 2 on a rectangular grid: an ordered pair of distinct antennas,
      the first on the grid, marks exactly the grid points
      first + k*(second - first) for every integer k. */
  lemma Part2Line(grid: Grid, first: Point, second: Point, q: Point)
    requires Rectangular(grid) && IsInGrid(grid, first) && first != second
    ensures var dr, dc := second.row - first.row, second.col - first.col;
      q in Part2Pair(grid, first, second) <==>
        IsInGrid(grid, q) && exists k :: q == Along(first, dr, dc, k)
  {
    var dr, dc := second.row - first.row, second.col - first.col;
    if q in Part2Pair(grid, first, second) {
      LineSound(grid, first, dr, dc, q);
    } else if IsInGrid(grid, q) && exists k :: q == Along(first, dr, dc, k) {
      var k :| q == Along(first, dr, dc, k);
      LineComplete(grid, first, dr, dc, k);
    }
  }

  // ---------------------------------------------------------------------
  // ProblemInput and its marking loops

  /** cur is base with the points of s marked, both of the grid's shape,
      and count is the number of '#' cells the marking added. */
  ghost predicate Tracks(grid: Grid, base: Grid, cur: Grid, s: set<Point>, count: nat) {
    SameShape(base, grid) && Annotated(base, cur, s) && count + Marks(base) == Marks(cur)
  }

  /** The marking step both parts repeat: a '.' cell becomes '#' and the
      count grows by one; any other cell is left alone. */
  method Mark(grid: Grid, cur: Grid, p: Point, ghost base: Grid, ghost s: set<Point>, count: nat)
    returns (next: Grid, newCount: nat)
    requires IsInGrid(grid, p) && Tracks(grid, base, cur, s, count)
    ensures Tracks(grid, base, next, s + {p}, newCount)
  {
    MarkStep(base, cur, s, p);
    next, newCount := cur, count;
    if cur[p.row][p.col] == '.' {
      next := cur[p.row := cur[p.row][p.col := '#']];
      newCount := newCount + 1;
    }
  }

  /** The two pair loops of part 1 over the antennas of one frequency. */
  method Part1Frequency(grid: Grid, cur: Grid, antennaLocs: seq<Point>, ghost base: Grid, ghost s: set<Point>, count: nat)
    returns (next: Grid, newCount: nat)
    requires Tracks(grid, base, cur, s, count)
    ensures Tracks(grid, base, next, s + PairsRows(Part1, antennaLocs, |antennaLocs|), newCount)
  {
    next, newCount := cur, count;
    ghost var marked := s;
    for i := 0 to |antennaLocs|
      invariant marked == s + PairsRows(Part1, antennaLocs, i)
      invariant Tracks(grid, base, next, marked, newCount)
    {
      var firstAntenna := antennaLocs[i];
      ghost var t := marked;
      for j := 0 to |antennaLocs|
        invariant marked == t + PairsRow(Part1, antennaLocs, firstAntenna, j)
        invariant Tracks(grid, base, next, marked, newCount)
      {
        var secondAntenna := antennaLocs[j];
        if firstAntenna == secondAntenna {
          continue;
        }
        next, newCount := MarkPair(grid, next, firstAntenna, secondAntenna, base, marked, newCount);
        marked := marked + Part1Pair(firstAntenna, secondAntenna);
      }
    }
  }

  /** The body of the pair loop of part 1: both candidates, each marked
      when it is inside the grid. */
  method MarkPair(grid: Grid, cur: Grid, firstAntenna: Point, secondAntenna: Point, ghost base: Grid, ghost s: set<Point>, count: nat)
    returns (next: Grid, newCount: nat)
    requires firstAntenna != secondAntenna && Tracks(grid, base, cur, s, count)
    ensures Tracks(grid, base, next, s + Part1Pair(firstAntenna, secondAntenna), newCount)
  {
    var deltaRow := secondAntenna.row - firstAntenna.row;
    var deltaCol := secondAntenna.col - firstAntenna.col;
    var possibleAntinode1 := Point(secondAntenna.row + deltaRow, secondAntenna.col + deltaCol);
    var possibleAntinode2 := Point(firstAntenna.row - deltaRow, firstAntenna.col - deltaCol);
    next, newCount := MarkIfInside(grid, cur, possibleAntinode1, base, s, count);
    next, newCount := MarkIfInside(grid, next, possibleAntinode2, base, s + {possibleAntinode1}, newCount);
    assert s + {possibleAntinode1} + {possibleAntinode2} == s + Part1Pair(firstAntenna, secondAntenna);
  }

  /** The test-and-mark of one part 1 candidate: marked when inside the
      grid, skipped otherwise; either way it is accounted for. */
  method MarkIfInside(grid: Grid, cur: Grid, p: Point, ghost base: Grid, ghost s: set<Point>, count: nat)
    returns (next: Grid, newCount: nat)
    requires Tracks(grid, base, cur, s, count)
    ensures Tracks(grid, base, next, s + {p}, newCount)
  {
    if IsInGrid(grid, p) {
      next, newCount := Mark(grid, cur, p, base, s, count);
    } else {
      SkipOutside(base, cur, s, p);
      next, newCount := cur, count;
    }
  }

  /** The outer pair loop of part 2 over the antennas of one frequency. */
  method Part2Frequency(grid: Grid, cur: Grid, antennaLocs: seq<Point>, ghost base: Grid, ghost s: set<Point>, count: nat)
    returns (next: Grid, newCount: nat)
    requires forall k :: 0 <= k < |antennaLocs| ==> IsInGrid(grid, antennaLocs[k])
    requires Tracks(grid, base, cur, s, count)
    ensures Tracks(grid, base, next, s + PairsRows(Part2(grid), antennaLocs, |antennaLocs|), newCount)
  {
    next, newCount := cur, count;
    ghost var marked := s;
    for i := 0 to |antennaLocs|
      invariant marked == s + PairsRows(Part2(grid), antennaLocs, i)
      invariant Tracks(grid, base, next, marked, newCount)
    {
      next, newCount := Part2Row(grid, next, antennaLocs[i], antennaLocs, base, marked, newCount);
      marked := marked + PairsRow(Part2(grid), antennaLocs, antennaLocs[i], |antennaLocs|);
    }
  }

  /** The inner pair loop of part 2: firstAntenna with every antenna of
      its frequency. */
  method Part2Row(grid: Grid, cur: Grid, firstAntenna: Point, antennaLocs: seq<Point>, ghost base: Grid, ghost s: set<Point>, count: nat)
    returns (next: Grid, newCount: nat)
    requires IsInGrid(grid, firstAntenna) && Tracks(grid, base, cur, s, count)
    ensures Tracks(grid, base, next, s + PairsRow(Part2(grid), antennaLocs, firstAntenna, |antennaLocs|), newCount)
  {
    next, newCount := cur, count;
    ghost var marked := s;
    for j := 0 to |antennaLocs|
      invariant marked == s + PairsRow(Part2(grid), antennaLocs, firstAntenna, j)
      invariant Tracks(grid, base, next, marked, newCount)
    {
      var secondAntenna := antennaLocs[j];
      if firstAntenna == secondAntenna {
        continue;
      }
      next, newCount := MarkLine(grid, next, firstAntenna, secondAntenna, base, marked, newCount);
      marked := marked + Part2Pair(grid, firstAntenna, secondAntenna);
    }
  }

  /** The body of the pair loop of part 2: the first antenna is marked
      without a grid test, then one walk per direction, each starting
      where the previous one stopped. */
  method MarkLine(grid: Grid, cur: Grid, firstAntenna: Point, secondAntenna: Point, ghost base: Grid, ghost s: set<Point>, count: nat)
    returns (next: Grid, newCount: nat)
    requires firstAntenna != secondAntenna && IsInGrid(grid, firstAntenna) && Tracks(grid, base, cur, s, count)
    ensures Tracks(grid, base, next, s + Part2Pair(grid, firstAntenna, secondAntenna), newCount)
  {
    var deltaRow := secondAntenna.row - firstAntenna.row;
    var deltaCol := secondAntenna.col - firstAntenna.col;
    ghost var mid := RayEnd(grid, firstAntenna, -deltaRow, -deltaCol);
    ghost var back := RayCells(grid, firstAntenna, -deltaRow, -deltaCol);
    ghost var fwd := RayCells(grid, mid, deltaRow, deltaCol);
    var lastAntinode := firstAntenna;
    next, newCount := Mark(grid, cur, lastAntinode, base, s, count);
    var directions := Directions;
    for k := 0 to |directions|
      invariant k == 0 ==> lastAntinode == firstAntenna && Tracks(grid, base, next, s + {firstAntenna}, newCount)
      invariant k == 1 ==> lastAntinode == mid && Tracks(grid, base, next, s + {firstAntenna} + back, newCount)
      invariant k == 2 ==> Tracks(grid, base, next, s + {firstAntenna} + back + fwd, newCount)
    {
      var direction := directions[k];
      ghost var marked := if k == 0 then s + {firstAntenna} else s + {firstAntenna} + back;
      if k == 0 {
        assert direction * deltaRow == -deltaRow && direction * deltaCol == -deltaCol;
      } else {
        assert direction * deltaRow == deltaRow && direction * deltaCol == deltaCol;
      }
      lastAntinode, next, newCount := WalkRay(grid, next, lastAntinode, direction * deltaRow, direction * deltaCol, base, marked, newCount);
    }
    assert |directions| == 2;
    Part2Parts(grid, firstAntenna, secondAntenna, s, deltaRow, deltaCol);
  }

  /** The inner `for` loop of part 2: from start, marks cell after cell
      in steps of (dr, dc) until the next one is off the grid, and
      returns the last one reached. */
  method WalkRay(grid: Grid, cur: Grid, start: Point, dr: int, dc: int, ghost base: Grid, ghost s: set<Point>, count: nat)
    returns (last: Point, next: Grid, newCount: nat)
    requires (dr != 0 || dc != 0) && Tracks(grid, base, cur, s, count)
    ensures last == RayEnd(grid, start, dr, dc)
    ensures Tracks(grid, base, next, s + RayCells(grid, start, dr, dc), newCount)
  {
    last, next, newCount := start, cur, count;
    ghost var marked := s;
    ghost var all := s + RayCells(grid, start, dr, dc);
    while true
      invariant RayEnd(grid, last, dr, dc) == RayEnd(grid, start, dr, dc)
      invariant marked + RayCells(grid, last, dr, dc) == all
      invariant Tracks(grid, base, next, marked, newCount)
      decreases RayMeasure(grid, last, dr, dc)
    {
      var nextAntinode := Point(last.row + dr, last.col + dc);
      RayStep(grid, last, dr, dc);
      if !IsInGrid(grid, nextAntinode) {
        assert marked == all;
        break;
      }
      next, newCount := Mark(grid, next, nextAntinode, base, marked, newCount);
      marked := marked + {nextAntinode};
      last := nextAntinode;
    }
  }

  class ProblemInput {
    const grid: Grid
    var antinodeLocations: Grid
    var antennaLocations: map<char, seq<Point>>

    /** The two grids have one shape and every antenna is in the grid. */
    ghost predicate Valid()
      reads this
    {
      && SameShape(grid, antinodeLocations)
      && forall f, k :: f in antennaLocations && 0 <= k < |antennaLocations[f]| ==> IsInGrid(grid, antennaLocations[f][k])
    }

    constructor(grid: Grid, antinodeLocations: Grid, antennaLocations: map<char, seq<Point>>)
      ensures this.grid == grid && this.antinodeLocations == antinodeLocations
      ensures this.antennaLocations == antennaLocations
    {
      this.grid := grid;
      this.antinodeLocations := antinodeLocations;
      this.antennaLocations := antennaLocations;
    }

    /** pi.AnnotateAntinodesPart1: marks the in-grid part 1 candidates of
        every ordered pair of distinct antennas of each frequency; the
        count is the number of '#' cells added. */
    method AnnotateAntinodesPart1() returns (count: nat)
      requires Valid()
      modifies this`antinodeLocations
      ensures Valid()
      ensures Tracks(grid, old(antinodeLocations), antinodeLocations, AllPairs(Part1, antennaLocations, antennaLocations.Keys), count)
    {
      ghost var base := antinodeLocations;
      ghost var s: set<Point> := {};
      count := 0;
      var rest := antennaLocations.Keys;
      while rest != {}
        invariant rest <= antennaLocations.Keys
        invariant s == AllPairs(Part1, antennaLocations, antennaLocations.Keys - rest)
        invariant Tracks(grid, base, antinodeLocations, s, count)
        decreases |rest|
      {
        var f :| f in rest;
        var antennaLocs := antennaLocations[f];
        antinodeLocations, count := Part1Frequency(grid, antinodeLocations, antennaLocs, base, s, count);
        AllPairsAdd(Part1, antennaLocations, antennaLocations.Keys - rest, f);
        assert antennaLocations.Keys - (rest - {f}) == (antennaLocations.Keys - rest) + {f};
        s := s + PairsRows(Part1, antennaLocs, |antennaLocs|);
        rest := rest - {f};
      }
      assert antennaLocations.Keys - rest == antennaLocations.Keys;
    }

    /** pi.AnnotateAntinodesPart2: for every ordered pair of distinct
        antennas of each frequency, marks the first antenna and then the
        walks of Part2Pair; the count is the number of '#' cells added. */
    method AnnotateAntinodesPart2() returns (count: nat)
      requires Valid()
      modifies this`antinodeLocations
      ensures Valid()
      ensures Tracks(grid, old(antinodeLocations), antinodeLocations, AllPairs(Part2(grid), antennaLocations, antennaLocations.Keys), count)
    {
      ghost var base := antinodeLocations;
      ghost var s: set<Point> := {};
      count := 0;
      var rest := antennaLocations.Keys;
      while rest != {}
        invariant rest <= antennaLocations.Keys
        invariant s == AllPairs(Part2(grid), antennaLocations, antennaLocations.Keys - rest)
        invariant Tracks(grid, base, antinodeLocations, s, count)
        decreases |rest|
      {
        var f :| f in rest;
        var antennaLocs := antennaLocations[f];
        antinodeLocations, count := Part2Frequency(grid, antinodeLocations, antennaLocs, base, s, count);
        AllPairsAdd(Part2(grid), antennaLocations, antennaLocations.Keys - rest, f);
        assert antennaLocations.Keys - (rest - {f}) == (antennaLocations.Keys - rest) + {f};
        s := s + PairsRows(Part2(grid), antennaLocs, |antennaLocs|);
        rest := rest - {f};
      }
      assert antennaLocations.Keys - rest == antennaLocations.Keys;
    }
  }

  // ---------------------------------------------------------------------
  // parseInput

  /** The characters that are antennas: ASCII letters and digits. */
  predicate IsAntenna(c: char) {
    ('a' <= c <= 'z') || ('A' <= c <= 'Z') || ('0' <= c <= '9')
  }

  /** The points (r, c), c < j, of line with character f, left to right. */
  function RowPositions(line: string, r: int, f: char, j: nat): seq<Point>
    requires j <= |line|
  {
    if j == 0 then [] else RowPositions(line, r, f, j - 1) + (if line[j - 1] == f then [Point(r, j - 1)] else [])
  }

  /** The points of the first i lines with character f, in row-major order. */
  function GridPositions(lines: Grid, f: char, i: nat): seq<Point>
    requires i <= |lines|
  {
    if i == 0 then [] else GridPositions(lines, f, i - 1) + RowPositions(lines[i - 1], i - 1, f, |lines[i - 1]|)
  }

  /** The points of the grid with character f, in row-major order. */
  function Positions(lines: Grid, f: char): seq<Point> {
    GridPositions(lines, f, |lines|)
  }

  /** The antenna characters that occur in the grid. */
  function AntennaKeys(lines: Grid): set<char> {
    set r, c | 0 <= r < |lines| && 0 <= c < |lines[r]| && IsAntenna(lines[r][c]) :: lines[r][c]
  }

  /** The AntennaLocations parseInput builds: each antenna character of the
      grid mapped to the points where it occurs. */
  function AntennaMap(lines: Grid): map<char, seq<Point>> {
    map f | f in AntennaKeys(lines) :: Positions(lines, f)
  }

  /** The AntinodeLocations parseInput builds: a '.' for every cell. */
  function Blank(lines: Grid): (b: Grid)
    ensures SameShape(lines, b)
    ensures forall r, c :: 0 <= r < |b| && 0 <= c < |b[r]| ==> b[r][c] == '.'
  {
    seq(|lines|, r requires 0 <= r < |lines| => seq(|lines[r]|, c => '.'))
  }

  /** base with every '.' cell whose point is in s turned into '#': the
      only grid Annotated allows. */
  function Annotate(base: Grid, s: set<Point>): Grid {
    seq(|base|, r requires 0 <= r < |base| =>
      seq(|base[r]|, c requires 0 <= c < |base[r]| => if Point(r, c) in s && base[r][c] == '.' then '#' else base[r][c]))
  }

  lemma AnnotatedUnique(base: Grid, cur: Grid, s: set<Point>)
    requires Annotated(base, cur, s)
    ensures cur == Annotate(base, s)
  {
    var a := Annotate(base, s);
    forall r | 0 <= r < |base|
      ensures cur[r] == a[r]
    {
      forall c | 0 <= c < |base[r]|
        ensures cur[r][c] == a[r][c]
      {
        assert Cell(cur, r, c) == if Point(r, c) in s && base[r][c] == '.' then '#' else base[r][c];
      }
    }
  }

  lemma {:induction false} RowMarksNone(row: seq<char>)
    requires forall c :: 0 <= c < |row| ==> row[c] != '#'
    ensures RowMarks(row) == 0
  {
    if row != [] {
      RowMarksNone(row[1..]);
    }
  }

  /** A grid without '#' cells has no marks; in particular Blank(lines). */
  lemma {:induction false} MarksNone(grid: Grid)
    requires forall r, c :: 0 <= r < |grid| && 0 <= c < |grid[r]| ==> grid[r][c] != '#'
    ensures Marks(grid) == 0
  {
    if grid != [] {
      RowMarksNone(grid[0]);
      assert forall r, c :: 0 <= r < |grid[1..]| && 0 <= c < |grid[1..][r]| ==> grid[1..][r][c] == grid[r + 1][c];
      MarksNone(grid[1..]);
    }
  }

  /** The points of RowPositions are the cells c < j of line with f. */
  lemma {:induction false} RowPositionsMeaning(line: string, r: int, f: char, j: nat, p: Point)
    requires j <= |line|
    ensures p in RowPositions(line, r, f, j) <==> p.row == r && 0 <= p.col < j && line[p.col] == f
  {
    if j > 0 {
      RowPositionsMeaning(line, r, f, j - 1, p);
    }
  }

  /** The points of GridPositions are the cells of the first i rows with f. */
  lemma {:induction false} GridPositionsMeaning(lines: Grid, f: char, i: nat, p: Point)
    requires i <= |lines|
    ensures p in GridPositions(lines, f, i) <==>
      0 <= p.row < i && IsInGrid(lines, p) && lines[p.row][p.col] == f
  {
    if i > 0 {
      GridPositionsMeaning(lines, f, i - 1, p);
      RowPositionsMeaning(lines[i - 1], i - 1, f, |lines[i - 1]|, p);
    }
  }

  /** Positions lists exactly the grid points holding f. */
  lemma PositionsMeaning(lines: Grid, f: char, p: Point)
    ensures p in Positions(lines, f) <==> IsInGrid(lines, p) && lines[p.row][p.col] == f
  {
    GridPositionsMeaning(lines, f, |lines|, p);
  }

  /** The positions of f seen by the parse loops before cell (i, j). */
  function SoFar(lines: Grid, f: char, i: nat, j: nat): seq<Point>
    requires i < |lines| ==> j <= |lines[i]|
    requires i <= |lines|
  {
    GridPositions(lines, f, i) + (if i < |lines| then RowPositions(lines[i], i, f, j) else [])
  }

  /** antennas holds, for every antenna character seen before cell (i, j),
      its points in the order seen. */
  ghost predicate AntennasSoFar(lines: Grid, antennas: map<char, seq<Point>>, i: nat, j: nat)
    requires i <= |lines| && (i < |lines| ==> j <= |lines[i]|)
  {
    forall f {:trigger SoFar(lines, f, i, j)} :: (f in antennas <==> IsAntenna(f) && SoFar(lines, f, i, j) != [])
      && (f in antennas ==> antennas[f] == SoFar(lines, f, i, j))
  }

  /** The antennas of the grid are the map parseInput builds. */
  lemma AntennasDone(lines: Grid, antennas: map<char, seq<Point>>)
    requires AntennasSoFar(lines, antennas, |lines|, 0)
    ensures antennas == AntennaMap(lines)
  {
    var m := AntennaMap(lines);
    forall f
      ensures f in antennas <==> f in m
    {
      assert SoFar(lines, f, |lines|, 0) == Positions(lines, f);
      if f in antennas {
        var p := antennas[f][0];
        PositionsMeaning(lines, f, p);
      }
      if f in m {
        var r, c :| 0 <= r < |lines| && 0 <= c < |lines[r]| && IsAntenna(lines[r][c]) && lines[r][c] == f;
        PositionsMeaning(lines, f, Point(r, c));
      }
    }
    forall f | f in antennas
      ensures antennas[f] == m[f]
    {
      assert SoFar(lines, f, |lines|, 0) == Positions(lines, f);
    }
  }

  /** One cell of the inner parse loop: an antenna is appended to the list
      of its character, any other cell leaves the map alone. */
  lemma ParseCell(lines: Grid, antennas: map<char, seq<Point>>, next: map<char, seq<Point>>, i: nat, j: nat)
    requires i < |lines| && j < |lines[i]| && AntennasSoFar(lines, antennas, i, j)
    requires IsAntenna(lines[i][j]) ==>
      next == antennas[lines[i][j] := (if lines[i][j] in antennas then antennas[lines[i][j]] else []) + [Point(i, j)]]
    requires !IsAntenna(lines[i][j]) ==> next == antennas
    ensures AntennasSoFar(lines, next, i, j + 1)
  {
    var e := lines[i][j];
    forall f
      ensures (f in next <==> IsAntenna(f) && SoFar(lines, f, i, j + 1) != [])
        && (f in next ==> next[f] == SoFar(lines, f, i, j + 1))
    {
      assert SoFar(lines, f, i, j + 1) == SoFar(lines, f, i, j) + (if e == f then [Point(i, j)] else []);
    }
  }

  /** The end of a row of the parse loop. */
  lemma ParseRow(lines: Grid, antennas: map<char, seq<Point>>, i: nat)
    requires i < |lines| && AntennasSoFar(lines, antennas, i, |lines[i]|)
    ensures AntennasSoFar(lines, antennas, i + 1, 0)
  {
    forall f
      ensures (f in antennas <==> IsAntenna(f) && SoFar(lines, f, i + 1, 0) != [])
        && (f in antennas ==> antennas[f] == SoFar(lines, f, i + 1, 0))
    {
      if i + 1 < |lines| {
        assert RowPositions(lines[i + 1], i + 1, f, 0) == [];
      }
      assert SoFar(lines, f, i + 1, 0) == SoFar(lines, f, i, |lines[i]|);
    }
  }

  /** Every point of AntennaMap is on the grid. */
  lemma AntennaMapInGrid(lines: Grid)
    ensures forall f, k :: f in AntennaMap(lines) && 0 <= k < |AntennaMap(lines)[f]| ==> IsInGrid(lines, AntennaMap(lines)[f][k])
  {
    forall f, k | f in AntennaMap(lines) && 0 <= k < |AntennaMap(lines)[f]|
      ensures IsInGrid(lines, AntennaMap(lines)[f][k])
    {
      PositionsMeaning(lines, f, Positions(lines, f)[k]);
    }
  }

  /** parseInput: the trimmed input's lines become the grid, a grid of '.'
      of the same shape the antinode grid, and every letter or digit is
      appended, as a point, to the list of its character. */
  method ParseInput(input: string) returns (pi: ProblemInput)
    ensures fresh(pi) && pi.Valid()
    ensures pi.grid == ParseGrid(input)
    ensures pi.antinodeLocations == Blank(pi.grid)
    ensures pi.antennaLocations == AntennaMap(pi.grid)
  {
    var lines := Split(TrimSpace(input), '\n');
    var antinodeLocations: Grid := [];
    var antennaLocations: map<char, seq<Point>> := map[];
    for i := 0 to |lines|
      invariant antinodeLocations == Blank(lines)[..i]
      invariant AntennasSoFar(lines, antennaLocations, i, 0)
    {
      var row := lines[i];
      var marks: seq<char> := [];
      for j := 0 to |row|
        invariant marks == Blank(lines)[i][..j]
        invariant AntennasSoFar(lines, antennaLocations, i, j)
      {
        var element := row[j];
        marks := marks + ['.'];
        ghost var before := antennaLocations;
        if IsAntenna(element) {
          var locs := if element in antennaLocations then antennaLocations[element] else [];
          antennaLocations := antennaLocations[element := locs + [Point(i, j)]];
        }
        ParseCell(lines, before, antennaLocations, i, j);
      }
      ParseRow(lines, antennaLocations, i);
      assert marks == Blank(lines)[i];
      antinodeLocations := antinodeLocations + [marks];
      assert antinodeLocations == Blank(lines)[..i + 1];
    }
    AntennasDone(lines, antennaLocations);
    AntennaMapInGrid(lines);
    pi := new ProblemInput(lines, antinodeLocations, antennaLocations);
  }

  /** The number of '#' cells in the antinode grid after marking: by
      AnnotatedBlank, the grid points of the marked set. */
  function AntinodeCount(grid: Grid, s: set<Point>): nat {
    Marks(Annotate(Blank(grid), s))
  }

  /** The grid parseInput reads: the lines of the trimmed input. */
  function ParseGrid(input: string): Grid {
    Split(TrimSpace(input), '\n')
  }

  /** The answer of a part: the antinode count for the rule's points of
      every ordered pair of the grid's antennas. */
  ghost function Answer(rule: Rule, grid: Grid): nat {
    AntinodeCount(grid, AllPairs(rule, AntennaMap(grid), AntennaMap(grid).Keys))
  }

  /** SolvePart1: parse, mark the part 1 antinodes, and print their count. */
  method SolvePart1(input: string) returns (answer: string)
    ensures answer == Itoa(Answer(Part1, ParseGrid(input)))
  {
    var problemInput := ParseInput(input);
    var antinodeCount := problemInput.AnnotateAntinodesPart1();
    CountIsMarks(problemInput.grid, problemInput.antinodeLocations, AllPairs(Part1, problemInput.antennaLocations, problemInput.antennaLocations.Keys), antinodeCount);
    answer := Itoa(antinodeCount);
  }

  /** SolvePart2: parse, mark the part 2 antinodes, and print their count. */
  method SolvePart2(input: string) returns (answer: string)
    ensures answer == Itoa(Answer(Part2(ParseGrid(input)), ParseGrid(input)))
  {
    var problemInput := ParseInput(input);
    var antinodeCount := problemInput.AnnotateAntinodesPart2();
    CountIsMarks(problemInput.grid, problemInput.antinodeLocations, AllPairs(Part2(problemInput.grid), problemInput.antennaLocations, problemInput.antennaLocations.Keys), antinodeCount);
    answer := Itoa(antinodeCount);
  }

  /** From a blank start, the count the marking loops return is the number
      of '#' cells of the blank grid annotated with the marked set. */
  lemma CountIsMarks(grid: Grid, cur: Grid, s: set<Point>, count: nat)
    requires Tracks(grid, Blank(grid), cur, s, count)
    ensures count == AntinodeCount(grid, s)
  {
    MarksNone(Blank(grid));
    AnnotatedUnique(Blank(grid), cur, s);
  }
}
