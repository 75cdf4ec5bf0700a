/** 2024/day15: a robot '@' in a warehouse of walls '#' and boxes 'O'
    follows a list of moves. A move pushes the whole run of boxes in front
    of the robot one cell on, unless the run ends at a wall, in which case
    nothing moves. Part 1 sums 100 * row + column over the boxes at the end.

    The grid is read in place without bounds checks; the model asks for the
    walled rectangular room the puzzle gives, in which no push leaves the
    grid. The input is taken as its list of lines; common.ReadAsLines is not
    part of this model. */
module Y2024Day15 {
  import opened Text

  type Grid = seq<seq<char>>

  datatype Point = Point(row: int, col: int)

  /** moveVectors: the four move runes and their steps; any other rune is
      rejected. */
  function MoveVector(m: char): (r: Option<Point>)
    ensures r.Some? <==> m == '<' || m == 'v' || m == '^' || m == '>'
    ensures r.Some? ==> IsDirection(r.value)
  {
    match m
    case '<' => Some(Point(0, -1))
    case 'v' => Some(Point(1, 0))
    case '^' => Some(Point(-1, 0))
    case '>' => Some(Point(0, 1))
    case _ => None
  }

  predicate IsDirection(d: Point) {
    d == Point(0, -1) || d == Point(1, 0) || d == Point(-1, 0) || d == Point(0, 1)
  }

  function Step(p: Point, d: Point): Point {
    Point(p.row + d.row, p.col + d.col)
  }

  /** k * x for a step component x in {-1, 0, 1}, without multiplication. */
  function Scale(k: int, x: int): int {
    if x == 1 then k else if x == -1 then -k else 0
  }

  /** The point k steps of d from p. */
  function Ahead(p: Point, d: Point, k: int): Point {
    Point(p.row + Scale(k, d.row), p.col + Scale(k, d.col))
  }

  /** How many steps of d lead from p to q, when q lies on that line. */
  function Offset(p: Point, d: Point, q: Point): int {
    Scale(q.row - p.row, d.row) + Scale(q.col - p.col, d.col)
  }

  lemma AheadShift(p: Point, d: Point)
    requires IsDirection(d)
    ensures forall k :: Ahead(Step(p, d), d, k) == Ahead(p, d, k + 1)
    ensures forall q :: Offset(Step(p, d), d, q) == Offset(p, d, q) - 1
    ensures Ahead(p, d, 0) == p && Ahead(p, d, 1) == Step(p, d)
  {
  }

  predicate Rectangular(g: Grid) {
    |g| > 0 && forall r :: 0 <= r < |g| ==> |g[r]| == |g[0]|
  }

  predicate InGrid(g: Grid, p: Point) {
    0 <= p.row < |g| && 0 <= p.col < |g[p.row]|
  }

  function At(g: Grid, p: Point): char
    requires InGrid(g, p)
  {
    g[p.row][p.col]
  }

  /** A cell in the first or last row or column. */
  predicate OnBorder(g: Grid, r: int, c: int) {
    0 <= r < |g| && 0 <= c < |g[r]| && (r == 0 || r == |g| - 1 || c == 0 || c == |g[r]| - 1)
  }

  /** A rectangular room whose border cells are all walls. */
  predicate Walled(g: Grid) {
    && Rectangular(g)
    && forall r, c {:trigger OnBorder(g, r, c)} :: 0 <= r < |g| && 0 <= c < |g[r]| && OnBorder(g, r, c) ==> g[r][c] == '#'
  }

  /** A cell off the border. */
  predicate Interior(g: Grid, p: Point)
    requires Rectangular(g)
  {
    0 < p.row < |g| - 1 && 0 < p.col < |g[0]| - 1
  }

  /** The number of steps of d left before p leaves the grid. */
  function Room(g: Grid, p: Point, d: Point): int
    requires Rectangular(g)
  {
    if d.row == 1 then |g| - p.row
    else if d.row == -1 then p.row
    else if d.col == 1 then |g[0]| - p.col
    else p.col
  }

  /** A step from an interior cell stays on the grid, and lands on an
      interior cell unless it meets a wall. */
  lemma StepInside(g: Grid, p: Point, d: Point)
    requires Walled(g) && Interior(g, p) && IsDirection(d)
    ensures InGrid(g, Step(p, d)) && Room(g, Step(p, d), d) == Room(g, p, d) - 1
    ensures At(g, Step(p, d)) != '#' ==> Interior(g, Step(p, d))
  {
    var q := Step(p, d);
    assert |g[q.row]| == |g[0]|;
    assert OnBorder(g, q.row, q.col) ==> At(g, q) == '#';
  }

  /** The number of boxes in the unbroken run that starts next to p in
      direction d; the cell beyond it holds something else. */
  function Run(g: Grid, p: Point, d: Point): (n: nat)
    requires Walled(g) && Interior(g, p) && IsDirection(d)
    ensures InGrid(g, Ahead(p, d, n + 1)) && At(g, Ahead(p, d, n + 1)) != 'O'
    decreases Room(g, p, d)
  {
    var next := Step(p, d);
    StepInside(g, p, d);
    AheadShift(p, d);
    if At(g, next) == 'O' then 1 + Run(g, next, d) else 0
  }

  /** Every cell of the run holds a box, off the border. */
  lemma {:induction false} RunCells(g: Grid, p: Point, d: Point, k: int)
    requires Walled(g) && Interior(g, p) && IsDirection(d) && 1 <= k <= Run(g, p, d)
    ensures Interior(g, Ahead(p, d, k)) && At(g, Ahead(p, d, k)) == 'O'
    decreases k
  {
    var next := Step(p, d);
    StepInside(g, p, d);
    AheadShift(p, d);
    if k > 1 {
      RunCells(g, next, d, k - 1);
      assert Ahead(next, d, k - 1) == Ahead(p, d, k);
    }
  }

  /** The n cells after p in direction d hold boxes and the one after
      them, on the grid, does not. */
  predicate IsRun(g: Grid, p: Point, d: Point, n: nat) {
    (forall k :: 1 <= k <= n ==> InGrid(g, Ahead(p, d, k)) && At(g, Ahead(p, d, k)) == 'O') &&
    InGrid(g, Ahead(p, d, n + 1)) && At(g, Ahead(p, d, n + 1)) != 'O'
  }

  lemma RunIsRun(g: Grid, p: Point, d: Point)
    requires Walled(g) && Interior(g, p) && IsDirection(d)
    ensures IsRun(g, p, d, Run(g, p, d))
  {
    forall k | 1 <= k <= Run(g, p, d)
      ensures InGrid(g, Ahead(p, d, k)) && At(g, Ahead(p, d, k)) == 'O'
    {
      RunCells(g, p, d, k);
    }
  }

  /** pi.CanMakeMove: the robot or box at start can move one step of
      `move` exactly when the run of boxes in front of it ends at a cell
      that is not a wall. */
  function CanMakeMove(g: Grid, start: Point, move: Point): (b: bool)
    requires Walled(g) && Interior(g, start) && IsDirection(move)
    ensures b <==> At(g, Ahead(start, move, Run(g, start, move) + 1)) != '#'
    decreases Room(g, start, move)
  {
    var next := Step(start, move);
    StepInside(g, start, move);
    AheadShift(start, move);
    if At(g, next) == '#' then false
    else if At(g, next) == 'O' then CanMakeMove(g, next, move)
    else true
  }

  /** g with cell p set to v. */
  function Set(g: Grid, p: Point, v: char): Grid
    requires InGrid(g, p)
  {
    g[p.row := g[p.row][p.col := v]]
  }

  lemma SetAt(g: Grid, p: Point, v: char, q: Point)
    requires InGrid(g, p) && InGrid(g, q)
    ensures InGrid(Set(g, p, v), q) && At(Set(g, p, v), q) == if q == p then v else At(g, q)
  {
  }

  /** The grid after pi.MakeMove(start, d): the run of boxes in front of
      start is pushed first, then start's value moves one cell on and start
      becomes '.'. The walled room keeps every write on the grid. */
  function Pushed(g: Grid, start: Point, d: Point): (h: Grid)
    requires Walled(g) && Interior(g, start) && IsDirection(d)
    ensures |h| == |g| && forall r :: 0 <= r < |g| ==> |h[r]| == |g[r]|
    decreases Room(g, start, d)
  {
    var next := Step(start, d);
    StepInside(g, start, d);
    var rest := if At(g, next) == 'O' then Pushed(g, next, d) else g;
    var startValue := At(rest, start);
    Set(Set(rest, start, '.'), next, startValue)
  }

  /** The value of cell q, on the grid, after the push of a run of n
      boxes: start becomes '.', the cell in front takes start's value, the
      cells beyond it up to the one after the last box hold boxes, and every
      other cell keeps its value. */
  function PushedCell(g: Grid, start: Point, d: Point, n: nat, q: Point): char
    requires InGrid(g, q) && InGrid(g, start)
  {
    var k := Offset(start, d, q);
    if q == start then '.'
    else if q == Step(start, d) then At(g, start)
    else if q == Ahead(start, d, k) && 2 <= k <= n + 1 then 'O'
    else At(g, q)
  }

  /** Off start and the cell in front of it, a cell's PushedCell value in
      the push from start is its value in the push from the cell in front
      when that cell holds a box, and its old value otherwise. */
  lemma PushCell(g: Grid, start: Point, d: Point, q: Point)
    requires Walled(g) && Interior(g, start) && IsDirection(d) && InGrid(g, q)
    requires q != start && q != Step(start, d)
    requires At(g, Step(start, d)) == 'O' ==> Interior(g, Step(start, d))
    ensures PushedCell(g, start, d, Run(g, start, d), q) ==
      if At(g, Step(start, d)) == 'O' then PushedCell(g, Step(start, d), d, Run(g, Step(start, d), d), q)
      else At(g, q)
  {
    var next := Step(start, d);
    StepInside(g, start, d);
    AheadShift(start, d);
    var k := Offset(start, d, q);
    assert Offset(next, d, q) == k - 1;
    assert Ahead(next, d, k - 1) == Ahead(start, d, k);
  }

  /** The cell behind the start of a push keeps its value. */
  lemma PushCellBehind(g: Grid, start: Point, d: Point, n: nat)
    requires InGrid(g, start) && InGrid(g, Step(start, d)) && IsDirection(d)
    ensures PushedCell(g, Step(start, d), d, n, start) == At(g, start)
  {
    AheadShift(start, d);
    assert Offset(Step(start, d), d, start) == -1;
  }

  /** The last two writes of pi.MakeMove, on the grid `rest` left by the
      recursive push. */
  lemma PushedTop(g: Grid, start: Point, d: Point, rest: Grid, q: Point)
    requires Walled(g) && Interior(g, start) && IsDirection(d) && InGrid(g, q)
    requires InGrid(rest, q) && InGrid(rest, start) && InGrid(rest, Step(start, d))
    requires At(g, Step(start, d)) == 'O' ==> Interior(g, Step(start, d))
    requires rest == if At(g, Step(start, d)) == 'O' then Pushed(g, Step(start, d), d) else g
    ensures InGrid(Pushed(g, start, d), q)
    ensures At(Pushed(g, start, d), q) ==
      if q == Step(start, d) then At(rest, start) else if q == start then '.' else At(rest, q)
  {
    var next := Step(start, d);
    StepInside(g, start, d);
    assert Pushed(g, start, d) == Set(Set(rest, start, '.'), next, At(rest, start));
    SetAt(rest, start, '.', q);
    SetAt(Set(rest, start, '.'), next, At(rest, start), q);
  }

  /** The recursive writes of pi.MakeMove give every cell its PushedCell
      value. */
  lemma {:induction false} PushedAt(g: Grid, start: Point, d: Point, q: Point)
    requires Walled(g) && Interior(g, start) && IsDirection(d) && InGrid(g, q)
    ensures InGrid(Pushed(g, start, d), q)
    ensures At(Pushed(g, start, d), q) == PushedCell(g, start, d, Run(g, start, d), q)
    decreases Room(g, start, d)
  {
    var next := Step(start, d);
    StepInside(g, start, d);
    if At(g, next) == 'O' {
      PushedAt(g, next, d, start);
      PushedAt(g, next, d, q);
      PushedAt(g, next, d, next);
      PushedTop(g, start, d, Pushed(g, next, d), q);
      PushCellBehind(g, start, d, Run(g, next, d));
    } else {
      PushedTop(g, start, d, g, q);
    }
    if q != start && q != next {
      PushCell(g, start, d, q);
    }
  }

  /** The cells holding a box. */
  function Boxes(g: Grid): set<Point> {
    set r, c | 0 <= r < |g| && 0 <= c < |g[r]| && g[r][c] == 'O' :: Point(r, c)
  }

  /** The cells holding a wall. */
  function Walls(g: Grid): set<Point> {
    set r, c | 0 <= r < |g| && 0 <= c < |g[r]| && g[r][c] == '#' :: Point(r, c)
  }

  lemma BoxCell(g: Grid, q: Point)
    ensures q in Boxes(g) <==> InGrid(g, q) && At(g, q) == 'O'
  {
    if InGrid(g, q) && At(g, q) == 'O' {
      assert q == Point(q.row, q.col);
    }
  }

  lemma WallCell(g: Grid, q: Point)
    ensures q in Walls(g) <==> InGrid(g, q) && At(g, q) == '#'
  {
    if InGrid(g, q) && At(g, q) == '#' {
      assert q == Point(q.row, q.col);
    }
  }

  /** After a push a cell holds a box when it held one before and is not
      the first cell of the run, or when it is the cell beyond a nonempty
      run. */
  lemma PushedBoxKind(g: Grid, start: Point, d: Point, n: nat, q: Point)
    requires InGrid(g, start) && IsDirection(d) && InGrid(g, q)
    requires At(g, start) != 'O' && IsRun(g, start, d, n)
    ensures PushedCell(g, start, d, n, q) == 'O' <==> (At(g, q) == 'O' && q != Step(start, d)) || (n > 0 && q == Ahead(start, d, n + 1))
  {
    var next, end := Step(start, d), Ahead(start, d, n + 1);
    var v := PushedCell(g, start, d, n, q);
    AheadShift(start, d);
    assert Offset(start, d, end) == n + 1 && Offset(start, d, next) == 1;
    var k := Offset(start, d, q);
    if q == start {
      assert v == '.' && q != end;
    } else if q == next {
      if n > 0 {
        assert At(g, Ahead(start, d, 1)) == 'O';
      }
    } else if q == Ahead(start, d, k) && 2 <= k <= n + 1 {
      if k <= n {
        assert At(g, Ahead(start, d, k)) == 'O';
      }
    } else {
      assert v == At(g, q) && q != end;
    }
  }

  /** When the run ends at a free cell, a push leaves the walls where they
      were. */
  lemma PushedWallKind(g: Grid, start: Point, d: Point, n: nat, q: Point)
    requires InGrid(g, start) && IsDirection(d) && InGrid(g, q) && IsRun(g, start, d, n)
    requires At(g, Ahead(start, d, n + 1)) != '#'
    requires At(g, start) != 'O' && At(g, start) != '#'
    ensures PushedCell(g, start, d, n, q) == '#' <==> At(g, q) == '#'
  {
    var next := Step(start, d);
    var v := PushedCell(g, start, d, n, q);
    AheadShift(start, d);
    var k := Offset(start, d, q);
    if q == start {
      assert v == '.';
    } else if q == next {
      assert v == At(g, start);
      if n > 0 {
        assert At(g, Ahead(start, d, 1)) == 'O';
      } else {
        assert q == Ahead(start, d, n + 1);
      }
    } else if q == Ahead(start, d, k) && 2 <= k <= n + 1 {
      assert v == 'O';
      if k <= n {
        assert At(g, Ahead(start, d, k)) == 'O';
      } else {
        assert q == Ahead(start, d, n + 1);
      }
    } else {
      assert v == At(g, q);
    }
  }

  lemma PushedWallOnGrid(g: Grid, start: Point, d: Point, q: Point)
    requires Walled(g) && Interior(g, start) && IsDirection(d) && InGrid(g, q)
    requires CanMakeMove(g, start, d) && At(g, start) != 'O' && At(g, start) != '#'
    ensures InGrid(Pushed(g, start, d), q)
    ensures At(Pushed(g, start, d), q) == '#' <==> At(g, q) == '#'
  {
    var n := Run(g, start, d);
    RunIsRun(g, start, d);
    assert At(g, Ahead(start, d, n + 1)) != '#';
    PushedWallKind(g, start, d, n, q);
    PushedAt(g, start, d, q);
  }

  lemma PushedBoxOnGrid(g: Grid, start: Point, d: Point, q: Point)
    requires Walled(g) && Interior(g, start) && IsDirection(d) && InGrid(g, q)
    requires At(g, start) != 'O'
    ensures InGrid(Pushed(g, start, d), q)
    ensures At(Pushed(g, start, d), q) == 'O' <==>
      (At(g, q) == 'O' && q != Step(start, d)) || (Run(g, start, d) > 0 && q == Ahead(start, d, Run(g, start, d) + 1))
  {
    PushedAt(g, start, d, q);
    RunIsRun(g, start, d);
    PushedBoxKind(g, start, d, Run(g, start, d), q);
  }

  /** Two grids of one shape whose boxes differ at most by a box taken from
      a and, when n > 0, one put at b. */
  lemma BoxesFrom(g: Grid, h: Grid, a: Point, b: Point, n: nat)
    requires |h| == |g| && forall r :: 0 <= r < |g| ==> |h[r]| == |g[r]|
    requires forall q :: InGrid(g, q) ==> InGrid(h, q) && (At(h, q) == 'O' <==> (At(g, q) == 'O' && q != a) || (n > 0 && q == b))
    requires n > 0 ==> InGrid(g, b)
    requires n == 0 ==> a !in Boxes(g)
    ensures Boxes(h) == if n == 0 then Boxes(g) else Boxes(g) - {a} + {b}
  {
    var B := if n == 0 then Boxes(g) else Boxes(g) - {a} + {b};
    forall q
      ensures q in Boxes(h) <==> q in B
    {
      BoxCell(g, q);
      BoxCell(h, q);
    }
  }

  /** Two grids of one shape with their walls in the same cells. */
  lemma WallsFrom(g: Grid, h: Grid)
    requires |h| == |g| && forall r :: 0 <= r < |g| ==> |h[r]| == |g[r]|
    requires forall q :: InGrid(g, q) ==> InGrid(h, q) && (At(h, q) == '#' <==> At(g, q) == '#')
    ensures Walls(h) == Walls(g)
  {
    forall q
      ensures q in Walls(h) <==> q in Walls(g)
    {
      WallCell(g, q);
      WallCell(h, q);
    }
  }

  lemma PushedBoxGrid(g: Grid, start: Point, d: Point, h: Grid, n: nat, e: Point)
    requires Walled(g) && Interior(g, start) && IsDirection(d) && At(g, start) != 'O'
    requires h == Pushed(g, start, d) && n == Run(g, start, d) && e == Ahead(start, d, n + 1)
    ensures forall q :: InGrid(g, q) ==> InGrid(h, q) && (At(h, q) == 'O' <==> (At(g, q) == 'O' && q != Step(start, d)) || (n > 0 && q == e))
  {
    forall q | InGrid(g, q)
      ensures InGrid(h, q) && (At(h, q) == 'O' <==> (At(g, q) == 'O' && q != Step(start, d)) || (n > 0 && q == e))
    {
      PushedBoxOnGrid(g, start, d, q);
    }
  }

  /** The first cell of a nonempty run holds a box and the cell beyond it
      does not; the first cell of an empty run holds no box. */
  lemma RunEnds(g: Grid, start: Point, d: Point, n: nat, e: Point)
    requires Walled(g) && Interior(g, start) && IsDirection(d)
    requires n == Run(g, start, d) && e == Ahead(start, d, n + 1)
    ensures n > 0 ==> Step(start, d) in Boxes(g) && e !in Boxes(g)
    ensures n == 0 ==> Step(start, d) !in Boxes(g)
    ensures InGrid(g, e)
  {
    AheadShift(start, d);
    BoxCell(g, Step(start, d));
    BoxCell(g, e);
    if n > 0 {
      RunCells(g, start, d, 1);
    }
  }

  /** A push h of the run of n boxes in front of start moves the first box
      of the run to e, the cell beyond the last one, and leaves every other
      box in place. */
  lemma PushedBoxes(g: Grid, start: Point, d: Point, h: Grid, n: nat, e: Point)
    requires Walled(g) && Interior(g, start) && IsDirection(d) && At(g, start) != 'O'
    requires h == Pushed(g, start, d) && n == Run(g, start, d) && e == Ahead(start, d, n + 1)
    ensures Boxes(h) == if n == 0 then Boxes(g) else Boxes(g) - {Step(start, d)} + {e}
    ensures n > 0 ==> Step(start, d) in Boxes(g) && e !in Boxes(g)
  {
    PushedBoxGrid(g, start, d, h, n, e);
    RunEnds(g, start, d, n, e);
    BoxesFrom(g, h, Step(start, d), e, n);
  }

  /** A push that can be made leaves every wall in place. */
  lemma PushedWalls(g: Grid, start: Point, d: Point, h: Grid)
    requires Walled(g) && Interior(g, start) && IsDirection(d) && CanMakeMove(g, start, d)
    requires At(g, start) != 'O' && At(g, start) != '#'
    requires h == Pushed(g, start, d)
    ensures Walls(h) == Walls(g)
  {
    forall q | InGrid(g, q)
      ensures InGrid(h, q) && (At(h, q) == '#' <==> At(g, q) == '#')
    {
      PushedWallOnGrid(g, start, d, q);
    }
    WallsFrom(g, h);
  }

  /** The robot's cell and position, the part of ProblemInput a move
      changes. */
  datatype Warehouse = Warehouse(grid: Grid, robot: Point)

  /** A walled room with the robot on an interior '@' cell. */
  predicate Ready(w: Warehouse) {
    Walled(w.grid) && Interior(w.grid, w.robot) && At(w.grid, w.robot) == '@'
  }

  /** One move of the robot: the push when it can be made, otherwise
      nothing changes. */
  function Move(w: Warehouse, d: Point): Warehouse
    requires Ready(w) && IsDirection(d)
  {
    if CanMakeMove(w.grid, w.robot, d) then Warehouse(Pushed(w.grid, w.robot, d), Step(w.robot, d)) else w
  }

  /** A move keeps the room walled and the robot on its '@' cell one step
      on, or in place when blocked. */
  lemma MoveReady(w: Warehouse, d: Point)
    requires Ready(w) && IsDirection(d)
    ensures Ready(Move(w, d))
    ensures Move(w, d).robot == if CanMakeMove(w.grid, w.robot, d) then Step(w.robot, d) else w.robot
  {
    if CanMakeMove(w.grid, w.robot, d) {
      var g, start := w.grid, w.robot;
      var h := Pushed(g, start, d);
      var next := Step(start, d);
      AheadShift(start, d);
      StepInside(g, start, d);
      forall r, c | OnBorder(h, r, c)
        ensures h[r][c] == '#'
      {
        assert OnBorder(g, r, c);
        PushedWallOnGrid(g, start, d, Point(r, c));
      }
      PushedAt(g, start, d, next);
    }
  }

  /** A move keeps the number of boxes. */
  lemma MoveKeepsBoxCount(w: Warehouse, d: Point)
    requires Ready(w) && IsDirection(d)
    ensures |Boxes(Move(w, d).grid)| == |Boxes(w.grid)|
    ensures Walls(Move(w, d).grid) == Walls(w.grid)
  {
    if CanMakeMove(w.grid, w.robot, d) {
      PushedBoxCount(w.grid, w.robot, d, Pushed(w.grid, w.robot, d));
      PushedWalls(w.grid, w.robot, d, Pushed(w.grid, w.robot, d));
    }
  }

  lemma PushedBoxCount(g: Grid, start: Point, d: Point, h: Grid)
    requires Walled(g) && Interior(g, start) && IsDirection(d) && At(g, start) != 'O'
    requires h == Pushed(g, start, d)
    ensures |Boxes(h)| == |Boxes(g)|
  {
    var n := Run(g, start, d);
    PushedBoxes(g, start, d, h, n, Ahead(start, d, n + 1));
  }

  // ---------------------------------------------------------------------
  // SumBoxGPSValues

  /** A box's GPS coordinate. */
  function Gps(p: Point): int {
    100 * p.row + p.col
  }

  ghost function GpsSum(S: set<Point>): int {
    if S == {} then 0 else var p :| p in S; Gps(p) + GpsSum(S - {p})
  }

  /** Any box may be taken out of the sum first. */
  lemma {:induction false} GpsSumRemove(S: set<Point>, p: Point)
    requires p in S
    ensures GpsSum(S) == Gps(p) + GpsSum(S - {p})
    decreases |S|
  {
    var x :| x in S && GpsSum(S) == Gps(x) + GpsSum(S - {x});
    if x != p {
      GpsSumRemove(S - {x}, p);
      GpsSumRemove(S - {p}, x);
      assert S - {x} - {p} == S - {p} - {x};
    }
  }

  /** Moving one box from a to a free cell b moves its term in the sum. */
  lemma GpsSumMove(S: set<Point>, a: Point, b: Point)
    requires a in S && b !in S
    ensures GpsSum(S - {a} + {b}) == GpsSum(S) - Gps(a) + Gps(b)
  {
    var rest := S - {a};
    GpsSumRemove(S, a);
    GpsSumRemove(rest + {b}, b);
    assert rest + {b} - {b} == rest;
  }

  /** The GPS coordinates of all boxes, summed. */
  ghost function GPS(g: Grid): int {
    GpsSum(Boxes(g))
  }

  /** The total after a push h of the run of n boxes in front of start. */
  lemma PushedGPS(g: Grid, start: Point, d: Point, h: Grid, n: nat, e: Point)
    requires Walled(g) && Interior(g, start) && IsDirection(d) && At(g, start) != 'O'
    requires h == Pushed(g, start, d) && n == Run(g, start, d) && e == Ahead(start, d, n + 1)
    ensures GPS(h) == if n == 0 then GPS(g) else GPS(g) - Gps(Step(start, d)) + Gps(e)
  {
    PushedBoxes(g, start, d, h, n, e);
    if n > 0 {
      GpsSumMove(Boxes(g), Step(start, d), e);
    }
  }

  /** A move that pushes boxes changes the total by moving the first box of
      the run to the free cell beyond it; a blocked move, or one with no
      box in front, leaves it alone. */
  lemma MoveGPS(w: Warehouse, d: Point, n: nat)
    requires Ready(w) && IsDirection(d) && n == Run(w.grid, w.robot, d)
    ensures GPS(Move(w, d).grid) ==
      if CanMakeMove(w.grid, w.robot, d) && n > 0
      then GPS(w.grid) - Gps(Step(w.robot, d)) + Gps(Ahead(w.robot, d, n + 1))
      else GPS(w.grid)
  {
    if CanMakeMove(w.grid, w.robot, d) {
      PushedGPS(w.grid, w.robot, d, Pushed(w.grid, w.robot, d), n, Ahead(w.robot, d, n + 1));
    }
  }

  /** The boxes before cell (i, j) in row-major order. */
  function BoxesBefore(g: Grid, i: int, j: int): set<Point> {
    set r, c | 0 <= r < |g| && 0 <= c < |g[r]| && g[r][c] == 'O' && (r < i || (r == i && c < j)) :: Point(r, c)
  }

  lemma BoxesBeforeStep(g: Grid, i: nat, j: nat)
    requires i < |g| && j < |g[i]|
    ensures BoxesBefore(g, i, j + 1) == BoxesBefore(g, i, j) + (if g[i][j] == 'O' then {Point(i, j)} else {})
    ensures Point(i, j) !in BoxesBefore(g, i, j)
  {
  }

  /** The running total gains 100 * r + c at a box. */
  lemma GpsSumStep(g: Grid, r: nat, c: nat)
    requires r < |g| && c < |g[r]|
    ensures GpsSum(BoxesBefore(g, r, c + 1)) == GpsSum(BoxesBefore(g, r, c)) + if g[r][c] == 'O' then 100 * r + c else 0
  {
    BoxesBeforeStep(g, r, c);
    if g[r][c] == 'O' {
      GpsSumRemove(BoxesBefore(g, r, c + 1), Point(r, c));
      assert BoxesBefore(g, r, c + 1) - {Point(r, c)} == BoxesBefore(g, r, c);
    } else {
      assert BoxesBefore(g, r, c + 1) == BoxesBefore(g, r, c);
    }
  }

  lemma BoxesBeforeRow(g: Grid, i: nat)
    requires i < |g|
    ensures BoxesBefore(g, i, |g[i]|) == BoxesBefore(g, i + 1, 0)
  {
  }

  lemma BoxesBeforeEnd(g: Grid)
    ensures BoxesBefore(g, |g|, 0) == Boxes(g)
  {
  }

  // ---------------------------------------------------------------------
  // ApplyMoveSequence

  /** The moves applied left to right; None at the first rune that is not
      a move, where pi.ApplyMove panics. */
  function MoveAll(w: Warehouse, moves: seq<char>): Option<Warehouse>
    requires Ready(w)
    decreases |moves|
  {
    if moves == [] then Some(w)
    else match MoveVector(moves[0])
      case None => None
      case Some(d) =>
        MoveReady(w, d);
        MoveAll(Move(w, d), moves[1..])
  }

  /** Moves keep the room walled, the robot ready, the walls in place and
      the number of boxes. */
  lemma {:induction false} MoveAllKeeps(w: Warehouse, moves: seq<char>)
    requires Ready(w)
    ensures MoveAll(w, moves).Some? ==> Ready(MoveAll(w, moves).value)
    ensures MoveAll(w, moves).Some? ==> |Boxes(MoveAll(w, moves).value.grid)| == |Boxes(w.grid)|
    ensures MoveAll(w, moves).Some? ==> Walls(MoveAll(w, moves).value.grid) == Walls(w.grid)
    decreases |moves|
  {
    if moves != [] && MoveVector(moves[0]).Some? {
      var d := MoveVector(moves[0]).value;
      MoveReady(w, d);
      MoveKeepsBoxCount(w, d);
      MoveAllKeeps(Move(w, d), moves[1..]);
    }
  }

  /** A list of moves succeeds exactly when every rune is a move. */
  lemma {:induction false} MoveAllSucceeds(w: Warehouse, moves: seq<char>)
    requires Ready(w)
    ensures MoveAll(w, moves).Some? <==> forall i :: 0 <= i < |moves| ==> MoveVector(moves[i]).Some?
    decreases |moves|
  {
    if moves != [] && MoveVector(moves[0]).Some? {
      var d := MoveVector(moves[0]).value;
      MoveReady(w, d);
      MoveAllSucceeds(Move(w, d), moves[1..]);
      assert forall i :: 1 <= i < |moves| ==> moves[i] == moves[1..][i - 1];
    }
  }

  /** Moving by a + b is moving by a, then by b. */
  lemma {:induction false} MoveAllAppend(w: Warehouse, a: seq<char>, b: seq<char>)
    requires Ready(w)
    ensures MoveAll(w, a + b) == match MoveAll(w, a)
      case None => None
      case Some(v) => (MoveAllKeeps(w, a); MoveAll(v, b))
    decreases |a|
  {
    MoveAllKeeps(w, a);
    if a == [] {
      assert a + b == b;
    } else {
      assert (a + b)[0] == a[0] && (a + b)[1..] == a[1..] + b;
      match MoveVector(a[0])
      case None =>
      case Some(d) =>
        MoveReady(w, d);
        MoveAllAppend(Move(w, d), a[1..], b);
    }
  }

  // ---------------------------------------------------------------------
  // ProblemInput

  class ProblemInput {
    var grid: Grid
    var robotPosition: Point
    var moveSequence: seq<char>

    constructor (grid: Grid, robotPosition: Point, moveSequence: seq<char>)
      ensures this.grid == grid && this.robotPosition == robotPosition && this.moveSequence == moveSequence
    {
      this.grid := grid;
      this.robotPosition := robotPosition;
      this.moveSequence := moveSequence;
    }

    function State(): Warehouse
      reads this
    {
      Warehouse(grid, robotPosition)
    }

    /** pi.SumBoxGPSValues: 100 * row + column summed over the boxes. */
    method SumBoxGPSValues() returns (sum: int)
      ensures sum == GPS(grid)
    {
      sum := 0;
      for r := 0 to |grid|
        invariant sum == GpsSum(BoxesBefore(grid, r, 0))
      {
        var row := grid[r];
        for c := 0 to |row|
          invariant sum == GpsSum(BoxesBefore(grid, r, c))
        {
          GpsSumStep(grid, r, c);
          if row[c] == 'O' {
            sum := sum + 100 * r + c;
          }
        }
        BoxesBeforeRow(grid, r);
      }
      BoxesBeforeEnd(grid);
    }

    /** pi.MakeMove: pushes the robot or box at start, and the run of boxes
        in front of it, one step of move. */
    method MakeMove(start: Point, move: Point)
      requires Walled(grid) && Interior(grid, start) && IsDirection(move)
      modifies this
      ensures grid == Pushed(old(grid), start, move)
      ensures robotPosition == old(robotPosition) && moveSequence == old(moveSequence)
      decreases Room(grid, start, move)
    {
      ghost var g := grid;
      var next := Step(start, move);
      StepInside(grid, start, move);
      if grid[next.row][next.col] == 'O' {
        MakeMove(next, move);
      }
      var startValue := grid[start.row][start.col];
      grid := Set(grid, start, '.');
      grid := Set(grid, next, startValue);
    }

    /** pi.ApplyMove: rejects a rune that is not a move; otherwise makes the
        move when the run in front of the robot can be pushed and steps the
        robot, and leaves everything alone when it cannot. */
    method ApplyMove(moveType: char) returns (ok: bool)
      requires Ready(State())
      modifies this
      ensures ok <==> MoveVector(moveType).Some?
      ensures ok ==> State() == Move(old(State()), MoveVector(moveType).value)
      ensures !ok ==> grid == old(grid) && robotPosition == old(robotPosition)
      ensures Ready(State()) && moveSequence == old(moveSequence)
    {
      var vector := MoveVector(moveType);
      if vector.None? {
        return false;
      }
      var move := vector.value;
      MoveReady(State(), move);
      if CanMakeMove(grid, robotPosition, move) {
        MakeMove(robotPosition, move);
        robotPosition := Step(robotPosition, move);
      }
      ok := true;
    }

    /** pi.ApplyMoveSequence: the moves in order; false at the first rune
        that is not a move. */
    method ApplyMoveSequence() returns (ok: bool)
      requires Ready(State())
      modifies this
      ensures ok <==> MoveAll(old(State()), old(moveSequence)).Some?
      ensures ok ==> State() == MoveAll(old(State()), old(moveSequence)).value
      ensures Ready(State())
    {
      var moves := moveSequence;
      for i := 0 to |moves|
        invariant Ready(State()) && moveSequence == moves
        invariant MoveAll(old(State()), moves) == MoveAll(State(), moves[i..])
      {
        assert moves[i..][1..] == moves[i + 1..];
        ok := ApplyMove(moves[i]);
        if !ok {
          return;
        }
      }
      ok := true;
    }
  }

  // ---------------------------------------------------------------------
  // parseInput

  /** A line of white space only. */
  predicate IsBlank(line: string) {
    forall i :: 0 <= i < |line| ==> IsSpace(line[i])
  }

  /** The test parseInput makes, len(strings.TrimSpace(line)) == 0, picks
      out exactly the blank lines. */
  lemma BlankMeaning(line: string)
    ensures IsBlank(line) <==> |TrimSpace(line)| == 0
  {
    TrimSpaceShape(line);
  }

  /** The index of the first blank line, which ends the grid. */
  function FirstBlank(lines: seq<string>): (i: nat)
    ensures i <= |lines|
    ensures forall j :: 0 <= j < i ==> !IsBlank(lines[j])
    ensures i < |lines| ==> IsBlank(lines[i])
  {
    if lines == [] then 0
    else if IsBlank(lines[0]) then 0
    else
      var i := 1 + FirstBlank(lines[1..]);
      assert forall j :: 1 <= j < i ==> lines[j] == lines[1..][j - 1];
      i
  }

  /** The lines after the grid, blank ones dropped, run together. */
  function MoveRunes(lines: seq<string>): seq<char> {
    if lines == [] then []
    else MoveRunes(lines[..|lines| - 1]) + (if IsBlank(lines[|lines| - 1]) then [] else lines[|lines| - 1])
  }

  lemma MoveRunesStep(lines: seq<string>, fb: nat, r: nat)
    requires fb < r < |lines|
    ensures IsBlank(lines[r]) ==> MoveRunes(lines[fb + 1..r + 1]) == MoveRunes(lines[fb + 1..r])
    ensures !IsBlank(lines[r]) ==> MoveRunes(lines[fb + 1..r + 1]) == MoveRunes(lines[fb + 1..r]) + lines[r]
  {
    var s := lines[fb + 1..r + 1];
    assert s[..|s| - 1] == lines[fb + 1..r] && s[|s| - 1] == lines[r];
  }

  /** The last '@' of a line. */
  function LastRobotCol(line: string): (r: Option<nat>)
    ensures r.Some? ==> r.value < |line| && line[r.value] == '@' && forall j :: r.value < j < |line| ==> line[j] != '@'
    ensures r.None? ==> forall j :: 0 <= j < |line| ==> line[j] != '@'
  {
    if line == [] then None
    else if line[|line| - 1] == '@' then Some(|line| - 1)
    else LastRobotCol(line[..|line| - 1])
  }

  /** The last '@' of the grid in row-major order; Point(0, 0), the zero
      value, when there is none. */
  function LastRobot(rows: seq<string>): (p: Point)
    ensures || (p == Point(0, 0) && forall r :: 0 <= r < |rows| ==> LastRobotCol(rows[r]).None?)
            || (&& 0 <= p.row < |rows| && LastRobotCol(rows[p.row]) == Some(p.col)
                && forall r :: p.row < r < |rows| ==> LastRobotCol(rows[r]).None?)
  {
    if rows == [] then Point(0, 0)
    else
      var last := |rows| - 1;
      match LastRobotCol(rows[last])
      case Some(c) => Point(last, c)
      case None =>
        var p := LastRobot(rows[..last]);
        assert forall r :: 0 <= r < last ==> rows[r] == rows[..last][r];
        p
  }

  /** The grid lines: those before the first blank line. */
  function GridLines(lines: seq<string>): Grid {
    lines[..FirstBlank(lines)]
  }

  /** The move runes: every rune of the non-blank lines after the grid. */
  function MoveLines(lines: seq<string>): seq<char> {
    var fb := FirstBlank(lines);
    if fb == |lines| then [] else MoveRunes(lines[fb + 1..])
  }

  /** The '@' scan over one grid line r: the last '@' of the line, or
      robotPosition unchanged when it has none. */
  method ScanRow(line: string, r: int, robotPosition: Point) returns (p: Point)
    ensures p == match LastRobotCol(line) case Some(k) => Point(r, k) case None => robotPosition
  {
    p := robotPosition;
    for c := 0 to |line|
      invariant p == match LastRobotCol(line[..c]) case Some(k) => Point(r, k) case None => robotPosition
    {
      assert line[..c + 1][..c] == line[..c];
      if line[c] == '@' {
        p := Point(r, c);
      }
    }
    assert line[..|line|] == line;
  }

  lemma LastRobotStep(lines: seq<string>, r: nat)
    requires r < |lines|
    ensures LastRobot(lines[..r + 1]) == match LastRobotCol(lines[r]) case Some(k) => Point(r, k) case None => LastRobot(lines[..r])
  {
    assert lines[..r + 1][..r] == lines[..r];
  }

  /** parseInput: the lines up to the first blank line are the grid, the
      robot stands at the last '@', and the runes of the remaining
      non-blank lines are the moves. */
  method ParseInput(lines: seq<string>) returns (pi: ProblemInput)
    ensures fresh(pi)
    ensures pi.grid == GridLines(lines)
    ensures pi.robotPosition == LastRobot(GridLines(lines))
    ensures pi.moveSequence == MoveLines(lines)
  {
    var grid: Grid := [];
    var robotPosition := Point(0, 0);
    var moveSequence: seq<char> := [];
    var gridMode := true;
    ghost var fb := FirstBlank(lines);
    for r := 0 to |lines|
      invariant gridMode <==> r <= fb
      invariant grid == lines[..if gridMode then r else fb]
      invariant robotPosition == LastRobot(grid)
      invariant moveSequence == if gridMode then [] else MoveRunes(lines[fb + 1..r])
    {
      var line := lines[r];
      if r > fb {
        MoveRunesStep(lines, fb, r);
      }
      if IsBlank(line) {
        if gridMode {
          assert r == fb;
          assert lines[fb + 1..r + 1] == [];
        }
        gridMode := false;
        continue;
      }
      if gridMode {
        assert lines[..r + 1] == lines[..r] + [line];
        grid := grid + [line];
        LastRobotStep(lines, r);
        robotPosition := ScanRow(line, r, robotPosition);
      } else {
        moveSequence := moveSequence + line;
      }
    }
    if gridMode {
      assert lines[..|lines|] == lines[..fb];
    } else {
      assert lines[fb + 1..|lines|] == lines[fb + 1..];
    }
    pi := new ProblemInput(grid, robotPosition, moveSequence);
  }

  /** SolvePart1: the GPS total after every move; None when the grid is not
      a walled room with the robot inside, or a rune is not a move. */
  method SolvePart1(lines: seq<string>) returns (answer: Option<string>)
    ensures var w := Warehouse(GridLines(lines), LastRobot(GridLines(lines)));
      answer.Some? <==> Ready(w) && MoveAll(w, MoveLines(lines)).Some?
    ensures var w := Warehouse(GridLines(lines), LastRobot(GridLines(lines)));
      answer.Some? ==> Ready(w) && answer == Some(Itoa(GPS(MoveAll(w, MoveLines(lines)).value.grid)))
  {
    var problemInput := ParseInput(lines);
    if !Ready(problemInput.State()) {
      return None;
    }
    var ok := problemInput.ApplyMoveSequence();
    if !ok {
      return None;
    }
    var sum := problemInput.SumBoxGPSValues();
    answer := Some(Itoa(sum));
  }
}
