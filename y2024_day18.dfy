/** 2024/day18: bytes fall onto a square memory grid one after another. A
    breadth-first search finds the fewest steps from the top-left corner to
    the exit, going round the bytes fallen so far; part 2 looks for the
    first number of fallen bytes after which the exit cannot be reached.

    The input is taken as its list of lines; common.ReadAsLines is not part
    of this model. */
module Y2024Day18 {
  import opened Text
  import opened LineFold

  /** A cell. X is the row and Y the column: parseInput stores the input's
      "x,y" as Point{y, x}. */
  datatype Point = Point(x: int, y: int)

  /** The fallen bytes in order, and the index of each cell's byte. */
  datatype ProblemInput = ProblemInput(start: Point, exit: Point, obstacles: seq<Point>, obstacleMap: map<Point, int>)

  const ExampleExit: Point := Point(6, 6)
  const RealExit: Point := Point(70, 70)

  // ---------------------------------------------------------------------
  // The grid and its moves

  /** Inside the grid: 0 <= X <= Exit.X and 0 <= Y <= Exit.Y. */
  predicate InBounds(pi: ProblemInput, p: Point) {
    0 <= p.x <= pi.exit.x && 0 <= p.y <= pi.exit.y
  }

  /** Only a byte whose index is below maxObstacleIdx blocks its cell. */
  predicate Blocked(pi: ProblemInput, maxObstacleIdx: int, p: Point) {
    p in pi.obstacleMap && pi.obstacleMap[p] < maxObstacleIdx
  }

  /** The directions in the order the search tries them: right, left, down,
      up. */
  const Directions: seq<Point> := [Point(0, 1), Point(0, -1), Point(1, 0), Point(-1, 0)]

  function Add(p: Point, d: Point): Point {
    Point(p.x + d.x, p.y + d.y)
  }

  /** q is one row or one column away from p. */
  predicate Adjacent(p: Point, q: Point) {
    || (p.x == q.x && (q.y == p.y + 1 || q.y == p.y - 1))
    || (p.y == q.y && (q.x == p.x + 1 || q.x == p.x - 1))
  }

  /** One move of the search: to an adjacent cell inside the grid whose byte
      has not fallen yet. */
  predicate Step(pi: ProblemInput, maxObstacleIdx: int, p: Point, q: Point) {
    Adjacent(p, q) && InBounds(pi, q) && !Blocked(pi, maxObstacleIdx, q)
  }

  /** A sequence of cells, each reached from the one before by a move. */
  predicate IsPath(pi: ProblemInput, maxObstacleIdx: int, w: seq<Point>) {
    |w| >= 1 && forall i :: 0 <= i < |w| - 1 ==> Step(pi, maxObstacleIdx, w[i], w[i + 1])
  }

  predicate FromStart(pi: ProblemInput, maxObstacleIdx: int, w: seq<Point>) {
    IsPath(pi, maxObstacleIdx, w) && w[0] == pi.start
  }

  ghost predicate Unreachable(pi: ProblemInput, maxObstacleIdx: int) {
    forall w {:trigger FromStart(pi, maxObstacleIdx, w)} ::
      FromStart(pi, maxObstacleIdx, w) ==> w[|w| - 1] != pi.exit
  }

  /** path goes from the start to the exit, and no path doing so is
      shorter. */
  ghost predicate IsShortest(pi: ProblemInput, maxObstacleIdx: int, path: seq<Point>) {
    && FromStart(pi, maxObstacleIdx, path) && path[|path| - 1] == pi.exit
    && forall w {:trigger FromStart(pi, maxObstacleIdx, w)} ::
         FromStart(pi, maxObstacleIdx, w) && w[|w| - 1] == pi.exit ==> |path| <= |w|
  }

  /** The four directions reach exactly the adjacent cells. */
  lemma DirectionsAdjacent(p: Point, q: Point)
    ensures Adjacent(p, q) <==> exists j :: 0 <= j < 4 && q == Add(p, Directions[j])
  {
    if Adjacent(p, q) {
      if q == Add(p, Directions[0]) {
      } else if q == Add(p, Directions[1]) {
        assert q == Add(p, Directions[1]);
      } else if q == Add(p, Directions[2]) {
        assert q == Add(p, Directions[2]);
      } else {
        assert q == Add(p, Directions[3]);
      }
    }
  }

  lemma DirectionAdjacent(p: Point, i: int)
    requires 0 <= i < 4
    ensures Adjacent(p, Add(p, Directions[i]))
  {
  }

  /** A path at a later step is a path at any earlier one: bytes only ever
      add to the blocked cells. */
  lemma PathAtFewerBytes(pi: ProblemInput, m: int, m': int, w: seq<Point>)
    requires m <= m' && IsPath(pi, m', w)
    ensures IsPath(pi, m, w)
  {
    forall i | 0 <= i < |w| - 1
      ensures Step(pi, m, w[i], w[i + 1])
    {
      assert Step(pi, m', w[i], w[i + 1]);
    }
  }

  /** Once the exit is cut off it stays cut off. */
  lemma UnreachableStays(pi: ProblemInput, m: int, m': int)
    requires m <= m' && Unreachable(pi, m)
    ensures Unreachable(pi, m')
  {
    forall w | FromStart(pi, m', w)
      ensures w[|w| - 1] != pi.exit
    {
      PathAtFewerBytes(pi, m, m', w);
      assert FromStart(pi, m, w);
    }
  }

  lemma PathPrefix(pi: ProblemInput, m: int, w: seq<Point>)
    requires IsPath(pi, m, w) && |w| >= 2
    ensures IsPath(pi, m, w[..|w| - 1])
  {
    var p := w[..|w| - 1];
    forall i | 0 <= i < |p| - 1
      ensures Step(pi, m, p[i], p[i + 1])
    {
      assert p[i] == w[i] && p[i + 1] == w[i + 1];
    }
  }

  lemma PathSnoc(pi: ProblemInput, m: int, w: seq<Point>, q: Point)
    requires IsPath(pi, m, w) && Step(pi, m, w[|w| - 1], q)
    ensures IsPath(pi, m, w + [q])
  {
    var v := w + [q];
    forall i | 0 <= i < |v| - 1
      ensures Step(pi, m, v[i], v[i + 1])
    {
      if i < |w| - 1 {
        assert v[i] == w[i] && v[i + 1] == w[i + 1];
      }
    }
  }

  // ---------------------------------------------------------------------
  // The search's invariants

  datatype QueueItem = QueueItem(pos: Point, dist: int, path: seq<Point>)

  ghost function Queued(queue: seq<QueueItem>): set<Point> {
    set it | it in queue :: it.pos
  }

  /** The cells a search can ever record: the grid and the start. */
  ghost function Grid(pi: ProblemInput): set<Point> {
    (set x, y | 0 <= x <= pi.exit.x && 0 <= y <= pi.exit.y :: Point(x, y)) + {pi.start}
  }

  /** A queued item: recorded at its distance, not expanded, at the current
      level or one above, and carrying a path of that length from the
      start. */
  ghost predicate ItemOk(pi: ProblemInput, m: int, it: QueueItem, costs: map<Point, int>, expanded: set<Point>,
                         level: int) {
    && it.pos in costs && costs[it.pos] == it.dist && it.pos !in expanded
    && level <= it.dist <= level + 1
    && FromStart(pi, m, it.path) && it.path[|it.path| - 1] == it.pos && |it.path| == it.dist + 1
  }

  /** No path from the start to a recorded cell is shorter than its
      record. */
  ghost predicate Optimal(pi: ProblemInput, m: int, costs: map<Point, int>) {
    forall w {:trigger FromStart(pi, m, w)} ::
      FromStart(pi, m, w) && w[|w| - 1] in costs ==> costs[w[|w| - 1]] <= |w| - 1
  }

  /** Every move out of an expanded cell leads to a recorded cell. */
  ghost predicate Frontier(pi: ProblemInput, m: int, expanded: set<Point>, costs: map<Point, int>) {
    forall e, n {:trigger Step(pi, m, e, n)} :: e in expanded && Step(pi, m, e, n) ==> n in costs
  }

  /** The invariants of the search loop, apart from Frontier. The recorded
      cells are the expanded ones and the queued ones; the queue is ordered
      by distance and holds each cell once. */
  ghost predicate Core(pi: ProblemInput, m: int, queue: seq<QueueItem>, costs: map<Point, int>,
                       expanded: set<Point>, level: int) {
    && pi.start in costs && costs[pi.start] == 0
    && (forall i {:trigger queue[i]} :: 0 <= i < |queue| ==> ItemOk(pi, m, queue[i], costs, expanded, level))
    && (forall i, j {:trigger queue[i], queue[j]} :: 0 <= i < j < |queue| ==>
          queue[i].dist <= queue[j].dist && queue[i].pos != queue[j].pos)
    && costs.Keys == expanded + Queued(queue)
    && (forall e {:trigger e in expanded} :: e in expanded ==> costs[e] <= level)
    && Optimal(pi, m, costs)
    && pi.exit !in expanded
    && costs.Keys <= Grid(pi)
  }

  /** The first four directions of p already tried leave no move unrecorded. */
  ghost predicate Tried(pi: ProblemInput, m: int, p: Point, i: int, costs: map<Point, int>) {
    forall j {:trigger Add(p, Directions[j])} :: 0 <= j < i && j < 4 && Step(pi, m, p, Add(p, Directions[j])) ==>
      Add(p, Directions[j]) in costs
  }

  /** A path from the start to a cell not expanded leaves the expanded cells
      at a recorded one, no earlier than its record. */
  lemma {:induction false} FirstOut(pi: ProblemInput, m: int, costs: map<Point, int>, expanded: set<Point>,
                                    w: seq<Point>) returns (k: nat)
    requires FromStart(pi, m, w) && w[|w| - 1] !in expanded
    requires pi.start in costs && costs[pi.start] == 0
    requires Frontier(pi, m, expanded, costs) && Optimal(pi, m, costs)
    ensures k < |w| && w[k] in costs && w[k] !in expanded && costs[w[k]] <= k
    decreases |w|
  {
    if |w| == 1 {
      k := 0;
    } else {
      var p := w[..|w| - 1];
      PathPrefix(pi, m, w);
      assert Step(pi, m, w[|w| - 2], w[|w| - 1]);
      if w[|w| - 2] in expanded {
        k := |w| - 1;
      } else {
        assert p[|p| - 1] == w[|w| - 2] && p[0] == w[0];
        k := FirstOut(pi, m, costs, expanded, p);
        assert p[k] == w[k];
      }
    }
  }

  lemma QueuedSnoc(queue: seq<QueueItem>, it: QueueItem)
    ensures Queued(queue + [it]) == Queued(queue) + {it.pos}
  {
    assert forall x :: x in queue + [it] <==> x in queue || x == it;
  }

  lemma QueuedCons(queue: seq<QueueItem>)
    requires |queue| > 0
    ensures Queued(queue) == {queue[0].pos} + Queued(queue[1..])
  {
    assert forall x :: x in queue <==> x == queue[0] || x in queue[1..];
  }

  /** The first iteration's state. */
  lemma InitStep(pi: ProblemInput, m: int)
    ensures var costs := map[pi.start := 0];
      Core(pi, m, [QueueItem(pi.start, 0, [pi.start])], costs, {}, 0) && Frontier(pi, m, {}, costs)
  {
    var queue := [QueueItem(pi.start, 0, [pi.start])];
    assert FromStart(pi, m, [pi.start]);
    assert Queued(queue) == {pi.start} by {
      QueuedSnoc([], queue[0]);
      assert [] + [queue[0]] == queue;
    }
  }

  /** Every recorded distance is at most one above the level. */
  lemma CostBound(pi: ProblemInput, m: int, queue: seq<QueueItem>, costs: map<Point, int>, expanded: set<Point>,
                  level: int, p: Point)
    requires Core(pi, m, queue, costs, expanded, level) && p in costs
    ensures costs[p] <= level + 1
  {
    if p !in expanded {
      var it :| it in queue && it.pos == p;
      var i :| 0 <= i < |queue| && queue[i] == it;
      assert ItemOk(pi, m, queue[i], costs, expanded, level);
    }
  }

  /** Popping the head, not the exit: the head is expanded at its distance,
      which becomes the level. */
  lemma PopStep(pi: ProblemInput, m: int, queue: seq<QueueItem>, costs: map<Point, int>, expanded: set<Point>,
                level: int)
    requires Core(pi, m, queue, costs, expanded, level) && |queue| > 0 && queue[0].pos != pi.exit
    ensures Core(pi, m, queue[1..], costs, expanded + {queue[0].pos}, queue[0].dist)
  {
    var cur, rest := queue[0], queue[1..];
    var expanded', level' := expanded + {cur.pos}, cur.dist;
    assert ItemOk(pi, m, queue[0], costs, expanded, level);
    QueuedCons(queue);
    forall i | 0 <= i < |rest|
      ensures ItemOk(pi, m, rest[i], costs, expanded', level')
    {
      assert rest[i] == queue[i + 1];
      assert ItemOk(pi, m, queue[i + 1], costs, expanded, level);
      assert queue[0].dist <= queue[i + 1].dist && queue[0].pos != queue[i + 1].pos;
    }
    forall i, j | 0 <= i < j < |rest|
      ensures rest[i].dist <= rest[j].dist && rest[i].pos != rest[j].pos
    {
      assert rest[i] == queue[i + 1] && rest[j] == queue[j + 1];
    }
  }

  /** A recorded cell not expanded is queued, at the level or above. */
  lemma Floor(pi: ProblemInput, m: int, queue: seq<QueueItem>, costs: map<Point, int>, expanded: set<Point>,
              level: int, q: Point)
    requires Core(pi, m, queue, costs, expanded, level) && q in costs && q !in expanded
    ensures costs[q] >= level
  {
    var x :| x in queue && x.pos == q;
    var i :| 0 <= i < |queue| && queue[i] == x;
    assert ItemOk(pi, m, queue[i], costs, expanded, level);
  }

  /** No path reaches a cell not yet recorded in fewer than c + 1 steps,
      when every recorded cell outside the expanded ones is at c or
      above. */
  lemma NewBound(pi: ProblemInput, m: int, costs: map<Point, int>, before: set<Point>, c: int, w: seq<Point>)
    requires pi.start in costs && costs[pi.start] == 0
    requires Optimal(pi, m, costs) && Frontier(pi, m, before, costs) && before <= costs.Keys
    requires forall q {:trigger costs[q]} :: q in costs && q !in before ==> costs[q] >= c
    requires FromStart(pi, m, w) && w[|w| - 1] !in costs
    ensures c + 1 <= |w| - 1
  {
    var k := FirstOut(pi, m, costs, before, w);
    assert costs[w[k]] >= c;
  }

  /** Recording a new cell one move from the expanded head at level + 1
      keeps every record optimal. */
  lemma AddOptimal(pi: ProblemInput, m: int, queue: seq<QueueItem>, costs: map<Point, int>, expanded: set<Point>,
                   before: set<Point>, cur: QueueItem, next: Point)
    requires Core(pi, m, queue, costs, expanded, cur.dist) && Frontier(pi, m, before, costs)
    requires expanded == before + {cur.pos} && costs[cur.pos] == cur.dist && next !in costs
    ensures Optimal(pi, m, costs[next := cur.dist + 1])
  {
    var c := cur.dist;
    forall q | q in costs && q !in before
      ensures costs[q] >= c
    {
      if q != cur.pos {
        Floor(pi, m, queue, costs, expanded, c, q);
      }
    }
    var costs' := costs[next := c + 1];
    forall w | FromStart(pi, m, w) && w[|w| - 1] in costs'
      ensures costs'[w[|w| - 1]] <= |w| - 1
    {
      if w[|w| - 1] == next {
        NewBound(pi, m, costs, before, c, w);
      }
    }
  }

  /** The queue with the new cell's item appended. */
  lemma AddQueue(pi: ProblemInput, m: int, queue: seq<QueueItem>, costs: map<Point, int>, expanded: set<Point>,
                 c: int, it: QueueItem)
    requires forall i {:trigger queue[i]} :: 0 <= i < |queue| ==> ItemOk(pi, m, queue[i], costs, expanded, c)
    requires forall i, j {:trigger queue[i], queue[j]} :: 0 <= i < j < |queue| ==>
      queue[i].dist <= queue[j].dist && queue[i].pos != queue[j].pos
    requires it.pos !in costs && it.pos !in expanded && it.dist == c + 1
    requires FromStart(pi, m, it.path) && it.path[|it.path| - 1] == it.pos && |it.path| == it.dist + 1
    ensures var queue', costs' := queue + [it], costs[it.pos := c + 1];
      && (forall i {:trigger queue'[i]} :: 0 <= i < |queue'| ==> ItemOk(pi, m, queue'[i], costs', expanded, c))
      && (forall i, j {:trigger queue'[i], queue'[j]} :: 0 <= i < j < |queue'| ==>
            queue'[i].dist <= queue'[j].dist && queue'[i].pos != queue'[j].pos)
  {
    var queue', costs' := queue + [it], costs[it.pos := c + 1];
    forall i | 0 <= i < |queue'|
      ensures ItemOk(pi, m, queue'[i], costs', expanded, c)
    {
      if i < |queue| {
        assert queue'[i] == queue[i];
        assert ItemOk(pi, m, queue[i], costs, expanded, c);
      }
    }
    forall i, j | 0 <= i < j < |queue'|
      ensures queue'[i].dist <= queue'[j].dist && queue'[i].pos != queue'[j].pos
    {
      assert queue'[i] == queue[i];
      assert ItemOk(pi, m, queue[i], costs, expanded, c);
      if j < |queue| {
        assert queue'[j] == queue[j];
      }
    }
  }

  /** Recording a new cell one move from the expanded head keeps the
      invariants. */
  lemma AddStep(pi: ProblemInput, m: int, queue: seq<QueueItem>, costs: map<Point, int>, expanded: set<Point>,
                before: set<Point>, cur: QueueItem, next: Point)
    requires Core(pi, m, queue, costs, expanded, cur.dist) && Frontier(pi, m, before, costs)
    requires expanded == before + {cur.pos} && costs[cur.pos] == cur.dist
    requires FromStart(pi, m, cur.path) && cur.path[|cur.path| - 1] == cur.pos && |cur.path| == cur.dist + 1
    requires Step(pi, m, cur.pos, next) && next !in costs
    ensures var costs' := costs[next := cur.dist + 1];
      && Core(pi, m, queue + [QueueItem(next, cur.dist + 1, cur.path + [next])], costs', expanded, cur.dist)
      && Frontier(pi, m, before, costs')
  {
    var it := QueueItem(next, cur.dist + 1, cur.path + [next]);
    PathSnoc(pi, m, cur.path, next);
    QueuedSnoc(queue, it);
    AddOptimal(pi, m, queue, costs, expanded, before, cur, next);
    AddQueue(pi, m, queue, costs, expanded, cur.dist, it);
  }

  /** One more direction tried: its cell, if a move, is recorded. */
  lemma TriedNext(pi: ProblemInput, m: int, p: Point, i: int, costs: map<Point, int>, costs': map<Point, int>)
    requires 0 <= i < 4 && Tried(pi, m, p, i, costs) && costs.Keys <= costs'.Keys
    requires Step(pi, m, p, Add(p, Directions[i])) ==> Add(p, Directions[i]) in costs'
    ensures Tried(pi, m, p, i + 1, costs')
  {
  }

  /** All four directions tried: the head's moves are recorded too. */
  lemma FinishStep(pi: ProblemInput, m: int, before: set<Point>, p: Point, costs: map<Point, int>)
    requires Frontier(pi, m, before, costs) && Tried(pi, m, p, 4, costs)
    ensures Frontier(pi, m, before + {p}, costs)
  {
    forall e, n | e in before + {p} && Step(pi, m, e, n)
      ensures n in costs
    {
      if e == p {
        DirectionsAdjacent(p, n);
      }
    }
  }

  /** The exit at the head of the queue: its path is a shortest one. */
  lemma ExitStep(pi: ProblemInput, m: int, queue: seq<QueueItem>, costs: map<Point, int>, expanded: set<Point>,
                 level: int)
    requires Core(pi, m, queue, costs, expanded, level) && |queue| > 0 && queue[0].pos == pi.exit
    ensures IsShortest(pi, m, queue[0].path) && |queue[0].path| == queue[0].dist + 1
  {
    assert ItemOk(pi, m, queue[0], costs, expanded, level);
  }

  /** An empty queue: no path reaches the exit. */
  lemma EmptyStep(pi: ProblemInput, m: int, costs: map<Point, int>, expanded: set<Point>, level: int)
    requires Core(pi, m, [], costs, expanded, level) && Frontier(pi, m, expanded, costs)
    ensures Unreachable(pi, m)
  {
    assert Queued([]) == {};
    forall w | FromStart(pi, m, w) && w[|w| - 1] == pi.exit
      ensures false
    {
      var k := FirstOut(pi, m, costs, expanded, w);
    }
  }

  lemma Shrinks(grid: set<Point>, expanded: set<Point>, x: Point)
    requires x in grid && x !in expanded
    ensures |grid - (expanded + {x})| < |grid - expanded|
  {
    assert grid - (expanded + {x}) == (grid - expanded) - {x};
  }

  // ---------------------------------------------------------------------
  // pi.FindShortestPath

  /** pi.FindShortestPath: breadth-first from the start, recording each
      cell's distance when first reached; the distance and path of the exit
      when it is popped, or (-1, nil) when the queue runs dry. */
  method FindShortestPath(pi: ProblemInput, maxObstacleIdx: int) returns (dist: int, path: seq<Point>)
    ensures dist == -1 ==> path == [] && Unreachable(pi, maxObstacleIdx)
    ensures dist != -1 ==> dist >= 0 && |path| == dist + 1 && IsShortest(pi, maxObstacleIdx, path)
  {
    ghost var m := maxObstacleIdx;
    var queue := [QueueItem(pi.start, 0, [pi.start])];
    var costs := map[pi.start := 0];
    ghost var expanded: set<Point> := {};
    ghost var level := 0;
    InitStep(pi, m);
    while |queue| > 0
      invariant Core(pi, m, queue, costs, expanded, level) && Frontier(pi, m, expanded, costs)
      decreases |Grid(pi) - expanded|
    {
      ghost var queue0, before := queue, expanded;
      var current := queue[0];
      queue := queue[1..];
      if current.pos == pi.exit {
        ExitStep(pi, m, queue0, costs, expanded, level);
        return current.dist, current.path;
      }
      assert ItemOk(pi, m, queue0[0], costs, expanded, level);
      PopStep(pi, m, queue0, costs, expanded, level);
      expanded, level := expanded + {current.pos}, current.dist;

      for i := 0 to 4
        invariant Core(pi, m, queue, costs, expanded, level) && Frontier(pi, m, before, costs)
        invariant Tried(pi, m, current.pos, i, costs)
        invariant current.pos in costs && costs[current.pos] == level && current.dist == level
        invariant FromStart(pi, m, current.path) && current.path[|current.path| - 1] == current.pos
        invariant |current.path| == current.dist + 1
      {
        var next := Add(current.pos, Directions[i]);
        ghost var costs0 := costs;
        if next.x < 0 || next.y < 0 || next.x > pi.exit.x || next.y > pi.exit.y {
          // out of the grid
        } else if next in pi.obstacleMap && pi.obstacleMap[next] < maxObstacleIdx {
          // a byte has fallen here
        } else if next in costs && current.dist + 1 >= costs[next] {
          // reached before, no later than this
        } else {
          if next in costs {
            CostBound(pi, m, queue, costs, expanded, level, next);
          }
          DirectionAdjacent(current.pos, i);
          assert InBounds(pi, next) && !Blocked(pi, m, next) && next !in costs;
          AddStep(pi, m, queue, costs, expanded, before, current, next);
          costs := costs[next := current.dist + 1];
          queue := queue + [QueueItem(next, current.dist + 1, current.path + [next])];
        }
        TriedNext(pi, m, current.pos, i, costs0, costs);
      }
      FinishStep(pi, m, before, current.pos, costs);
      Shrinks(Grid(pi), before, current.pos);
    }
    EmptyStep(pi, m, costs, expanded, level);
    return -1, [];
  }

  /** Two shortest paths have the same length, and none exists once the
      exit is cut off: the answer of a search is determined by the input. */
  ghost predicate ShortestLength(pi: ProblemInput, m: int, d: int) {
    || (d == -1 && Unreachable(pi, m))
    || (d >= 0 && exists path {:trigger IsShortest(pi, m, path)} :: |path| == d + 1 && IsShortest(pi, m, path))
  }

  lemma ShortestLengthUnique(pi: ProblemInput, m: int, d1: int, d2: int)
    requires ShortestLength(pi, m, d1) && ShortestLength(pi, m, d2)
    ensures d1 == d2
  {
    if d1 >= 0 && d2 >= 0 {
      var p1 :| |p1| == d1 + 1 && IsShortest(pi, m, p1);
      var p2 :| |p2| == d2 + 1 && IsShortest(pi, m, p2);
      assert FromStart(pi, m, p1) && FromStart(pi, m, p2);
    }
  }

  /** What FindShortestPath answers is the length of a shortest path, or -1
      when there is none. */
  method ShortestLen(pi: ProblemInput, maxObstacleIdx: int) returns (d: int)
    ensures ShortestLength(pi, maxObstacleIdx, d)
  {
    var path;
    d, path := FindShortestPath(pi, maxObstacleIdx);
  }

  // ---------------------------------------------------------------------
  // pi.FindUnreachableStep

  /** What parseInput produces: the start is the top-left corner, the exit
      is not above or left of it, and every byte index is a line index. */
  predicate WellFormed(pi: ProblemInput) {
    && pi.start == Point(0, 0) && pi.exit.x >= 0 && pi.exit.y >= 0
    && forall p :: p in pi.obstacleMap ==> pi.obstacleMap[p] >= 0
  }

  /** A walk from the corner to (x, y): along the top row, then down. */
  function Stairs(x: nat, y: nat): (w: seq<Point>)
    decreases x + y
    ensures |w| == x + y + 1 && w[0] == Point(0, 0) && w[|w| - 1] == Point(x, y)
  {
    if x == 0 && y == 0 then [Point(0, 0)]
    else if x > 0 then Stairs(x - 1, y) + [Point(x, y)]
    else Stairs(0, y - 1) + [Point(0, y)]
  }

  /** Before any byte falls the walk to any cell of the grid is a path. */
  lemma {:induction false} StairsPath(pi: ProblemInput, x: nat, y: nat)
    requires WellFormed(pi) && x <= pi.exit.x && y <= pi.exit.y
    ensures FromStart(pi, 0, Stairs(x, y))
  {
    if x > 0 {
      StairsPath(pi, x - 1, y);
      PathSnoc(pi, 0, Stairs(x - 1, y), Point(x, y));
    } else if y > 0 {
      StairsPath(pi, 0, y - 1);
      PathSnoc(pi, 0, Stairs(0, y - 1), Point(0, y));
    }
  }

  /** With no byte fallen the exit is reachable. */
  lemma ReachableAtZero(pi: ProblemInput)
    requires WellFormed(pi)
    ensures !Unreachable(pi, 0)
  {
    StairsPath(pi, pi.exit.x, pi.exit.y);
    var w := Stairs(pi.exit.x, pi.exit.y);
    assert FromStart(pi, 0, w) && w[|w| - 1] == pi.exit;
  }

  /** step bytes cut the exit off and no fewer do. */
  ghost predicate FirstCutOff(pi: ProblemInput, step: int) {
    0 <= step && Unreachable(pi, step) && forall s :: 0 <= s < step ==> !Unreachable(pi, s)
  }

  /** The answer of FindUnreachableStep: the byte that first cuts the exit
      off, when that happens after fewer than len(Obstacles) - 1 bytes;
      otherwise (-1, -1), every one of those searches reaching the exit. */
  ghost predicate CutOffAnswer(pi: ProblemInput, p: Point) {
    || (exists step {:trigger FirstCutOff(pi, step)} ::
          1 <= step < |pi.obstacles| - 1 && FirstCutOff(pi, step) && p == pi.obstacles[step - 1])
    || (p == Point(-1, -1) && forall s :: 0 <= s < |pi.obstacles| - 1 ==> !Unreachable(pi, s))
  }

  /** pi.FindUnreachableStep: searches after 0, 1, ... bytes, below
      len(Obstacles) - 1 of them, and answers the last byte fallen at the
      first search that fails. Indexing Obstacles[step - 1] cannot panic,
      as the search with no byte fallen always succeeds. */
  method FindUnreachableStep(pi: ProblemInput) returns (p: Point)
    requires WellFormed(pi)
    ensures CutOffAnswer(pi, p)
  {
    ReachableAtZero(pi);
    var maxStep := |pi.obstacles| - 1;
    var step := 0;
    while step < maxStep
      invariant 0 <= step && (step <= maxStep || step == 0)
      invariant forall s :: 0 <= s < step ==> !Unreachable(pi, s)
    {
      var shortestLen, path := FindShortestPath(pi, step);
      if shortestLen == -1 {
        assert FirstCutOff(pi, step);
        return pi.obstacles[step - 1];
      }
      assert FromStart(pi, step, path) && path[|path| - 1] == pi.exit;
      step := step + 1;
    }
    return Point(-1, -1);
  }

  /** The first cut-off is unique, and every later step stays cut off. */
  lemma FirstCutOffUnique(pi: ProblemInput, s1: int, s2: int)
    requires FirstCutOff(pi, s1) && FirstCutOff(pi, s2)
    ensures s1 == s2 && forall s :: s1 <= s ==> Unreachable(pi, s)
  {
    forall s | s1 <= s
      ensures Unreachable(pi, s)
    {
      UnreachableStays(pi, s1, s);
    }
  }

  // ---------------------------------------------------------------------
  // Point.String and parseInput

  /** Point.String: "%d,%d" of Y then X, the order of the input. */
  function PointString(p: Point): string {
    Itoa(p.y) + "," + Itoa(p.x)
  }

  /** One input line "x,y": trimmed, split at commas, the first two pieces
      read as numbers and stored as Point{y, x}. None where the line
      panics: fewer than two pieces, or a piece that is not a number. Any
      further pieces are ignored. */
  function ParseObstacle(line: string): Option<Point> {
    var parts := Split(TrimSpace(line), ',');
    if |parts| < 2 then None
    else match (Atoi(parts[0]), Atoi(parts[1]))
      case (Some(x), Some(y)) => Some(Point(y, x))
      case _ => None
  }

  lemma PointStringIsWord(p: Point)
    ensures |PointString(p)| > 0 && NoSpace(PointString(p))
  {
    var a, b := Itoa(p.y), Itoa(p.x);
    var t := PointString(p);
    ItoaIsWord(p.y);
    ItoaIsWord(p.x);
    forall i | 0 <= i < |t|
      ensures !IsSpace(t[i])
    {
      if i < |a| {
        assert t[i] == a[i];
      } else if i > |a| {
        assert t[i] == b[i - |a| - 1];
      }
    }
  }

  lemma PointStringTrimmed(p: Point)
    ensures TrimSpace(PointString(p)) == PointString(p)
  {
    PointStringIsWord(p);
    TrimSpaceWord(PointString(p));
  }

  lemma PointStringSplit(p: Point)
    ensures Split(PointString(p), ',') == [Itoa(p.y), Itoa(p.x)]
  {
    ItoaNoSeparator(p.y, ',');
    ItoaNoSeparator(p.x, ',');
    SplitTwo(Itoa(p.y), Itoa(p.x), ',');
    assert PointString(p) == Itoa(p.y) + [','] + Itoa(p.x);
  }

  /** A line whose trimmed pieces start with two numbers reads as the point
      of those numbers. */
  lemma ParseObstacleOf(line: string, x: int, y: int)
    requires Split(TrimSpace(line), ',') == [Itoa(x), Itoa(y)]
    ensures ParseObstacle(line) == Some(Point(y, x))
  {
    AtoiItoa(x);
    AtoiItoa(y);
  }

  /** The text of a point reads back as that point. */
  lemma ParsePointString(p: Point)
    ensures ParseObstacle(PointString(p)) == Some(p)
  {
    PointStringTrimmed(p);
    PointStringSplit(p);
    ParseObstacleOf(PointString(p), p.y, p.x);
  }

  /** The ObstacleMap parseInput builds: each byte's cell mapped to its
      index, a later byte on the same cell overwriting an earlier one. */
  function IndexOf(obstacles: seq<Point>): map<Point, int> {
    if obstacles == [] then map[]
    else IndexOf(obstacles[..|obstacles| - 1])[obstacles[|obstacles| - 1] := |obstacles| - 1]
  }

  lemma IndexOfSnoc(obstacles: seq<Point>, o: Point)
    ensures IndexOf(obstacles + [o]) == IndexOf(obstacles)[o := |obstacles|]
  {
    assert (obstacles + [o])[..|obstacles|] == obstacles;
  }

  /** Exactly the cells of the bytes are mapped, each to the index of the
      last byte that falls on it. */
  lemma {:induction false} IndexOfMeaning(obstacles: seq<Point>)
    ensures forall p :: p in IndexOf(obstacles) <==> p in obstacles
    ensures forall p :: p in IndexOf(obstacles) ==>
      var k := IndexOf(obstacles)[p];
      0 <= k < |obstacles| && obstacles[k] == p && forall j :: k < j < |obstacles| ==> obstacles[j] != p
  {
    if obstacles != [] {
      var n := |obstacles| - 1;
      var init := obstacles[..n];
      IndexOfMeaning(init);
      assert obstacles == init + [obstacles[n]];
    }
  }

  /** The exit parseInput picks from the number of lines. */
  function ExitFor(lineCount: nat): Point {
    if lineCount > 30 then RealExit else ExampleExit
  }

  /** The problem parseInput builds from the bytes read. */
  function InputOf(lineCount: nat, obstacles: seq<Point>): ProblemInput {
    ProblemInput(Point(0, 0), ExitFor(lineCount), obstacles, IndexOf(obstacles))
  }

  /** Whatever the lines, what parseInput builds is well formed. */
  lemma InputOfWellFormed(lineCount: nat, obstacles: seq<Point>)
    ensures WellFormed(InputOf(lineCount, obstacles))
  {
    IndexOfMeaning(obstacles);
  }

  /** parseInput: the exit from the line count, then one byte per line, in
      order, each recorded in ObstacleMap at its index; None where a line
      panics. */
  method ParseInput(lines: seq<string>) returns (r: Option<ProblemInput>)
    ensures r.None? <==> ReadAll(lines, ParseObstacle).None?
    ensures r.Some? ==> r.value == InputOf(|lines|, ReadAll(lines, ParseObstacle).value)
  {
    var obstacles := [];
    var obstacleMap := map[];
    for i := 0 to |lines|
      invariant ReadAll(lines[..i], ParseObstacle) == Some(obstacles)
      invariant |obstacles| == i && obstacleMap == IndexOf(obstacles)
    {
      FoldStep(lines, i, [], Append(ParseObstacle));
      var obs := ParseObstacle(lines[i]);
      if obs.None? {
        FoldFailureSticks(lines, i + 1, [], Append(ParseObstacle));
        return None;
      }
      IndexOfSnoc(obstacles, obs.value);
      obstacleMap := obstacleMap[obs.value := i];
      obstacles := obstacles + [obs.value];
    }
    assert lines[..|lines|] == lines;
    r := Some(ProblemInput(Point(0, 0), ExitFor(|lines|), obstacles, obstacleMap));
  }

  /** Points written one per line read back as those points. */
  lemma ReadPoints(points: seq<Point>)
    ensures ReadAll(seq(|points|, i requires 0 <= i < |points| => PointString(points[i])), ParseObstacle) == Some(points)
  {
    var lines := seq(|points|, i requires 0 <= i < |points| => PointString(points[i]));
    forall i | 0 <= i < |lines|
      ensures ParseObstacle(lines[i]) == Some(points[i])
    {
      ParsePointString(points[i]);
    }
    ReadAllOf(lines, ParseObstacle, points);
  }

  // ---------------------------------------------------------------------
  // The solver

  /** The number of fallen bytes part 1 searches with. */
  function StepsFor(obstacleCount: nat): int {
    if obstacleCount > 30 then 1024 else 12
  }

  /** SolvePart1: the fewest steps to the exit after 12 bytes, or 1024 for
      more than 30 bytes, printed in decimal; -1 when it is cut off. None
      where parsing panics. PrettyPrint only draws the grid and is not part
      of this model. */
  method SolvePart1(lines: seq<string>) returns (answer: Option<string>)
    ensures answer.None? <==> ReadAll(lines, ParseObstacle).None?
    ensures answer.Some? ==>
      var obstacles := ReadAll(lines, ParseObstacle).value;
      exists d {:trigger Itoa(d)} ::
        answer.value == Itoa(d) && ShortestLength(InputOf(|lines|, obstacles), StepsFor(|obstacles|), d)
  {
    var problemInput := ParseInput(lines);
    if problemInput.None? {
      return None;
    }
    var pi := problemInput.value;
    var steps := StepsFor(|pi.obstacles|);
    var shortestLen := ShortestLen(pi, steps);
    answer := Some(Itoa(shortestLen));
  }

  /** SolvePart2: the byte that first cuts the exit off, printed as "x,y";
      None where parsing panics. */
  method SolvePart2(lines: seq<string>) returns (answer: Option<string>)
    ensures answer.None? <==> ReadAll(lines, ParseObstacle).None?
    ensures answer.Some? ==>
      var obstacles := ReadAll(lines, ParseObstacle).value;
      exists p {:trigger PointString(p)} ::
        answer.value == PointString(p) && CutOffAnswer(InputOf(|lines|, obstacles), p)
  {
    var problemInput := ParseInput(lines);
    if problemInput.None? {
      return None;
    }
    var pi := problemInput.value;
    InputOfWellFormed(|lines|, pi.obstacles);
    var p := FindUnreachableStep(pi);
    answer := Some(PointString(p));
  }
}
