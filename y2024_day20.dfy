/** 2024/day20: a race track on a grid whose walls are '#'. A breadth-first
    search from the start gives every reachable cell its distance; a cheat
    jumps from one reached cell to another at most cheatDistance apart
    (Manhattan distance) and counts when it saves at least goalTimeSave
    picoseconds. */
module Y2024Day20 {
  import opened Text
  import opened GoMath

  /** image.Point: X is the column and Y the row. */
  datatype Point = Point(x: int, y: int)

  datatype ProblemInput = ProblemInput(grid: map<Point, char>, start: Point, end: Point)

  /** pi.Grid[n]: a cell missing from the map reads as rune 0. */
  function At(grid: map<Point, char>, p: Point): (r: char)
    ensures p !in grid ==> r == 0 as char
  {
    if p in grid then grid[p] else 0 as char
  }

  predicate Open(grid: map<Point, char>, p: Point) {
    At(grid, p) != '#'
  }

  /** The directions in the order the search tries them: up, right, down,
      left. */
  const Directions: seq<Point> := [Point(0, -1), Point(1, 0), Point(0, 1), Point(-1, 0)]

  /** image.Point.Add */
  function Add(p: Point, d: Point): Point {
    Point(p.x + d.x, p.y + d.y)
  }

  /** q is one row or one column away from p. */
  predicate Adjacent(p: Point, q: Point) {
    || (p.x == q.x && (q.y == p.y + 1 || q.y == p.y - 1))
    || (p.y == q.y && (q.x == p.x + 1 || q.x == p.x - 1))
  }

  /** One move of the search: to an adjacent cell that is not a wall. */
  predicate Step(grid: map<Point, char>, p: Point, q: Point) {
    Adjacent(p, q) && Open(grid, q)
  }

  predicate IsPath(grid: map<Point, char>, w: seq<Point>) {
    |w| >= 1 && forall i :: 0 <= i < |w| - 1 ==> Step(grid, w[i], w[i + 1])
  }

  predicate FromStart(pi: ProblemInput, w: seq<Point>) {
    IsPath(pi.grid, w) && w[0] == pi.start
  }

  ghost predicate Reachable(pi: ProblemInput, p: Point) {
    exists w {:trigger FromStart(pi, w)} :: FromStart(pi, w) && w[|w| - 1] == p
  }

  /** d is the number of moves of a shortest path from the start to p. */
  ghost predicate ShortestTo(pi: ProblemInput, p: Point, d: int) {
    && (exists w {:trigger FromStart(pi, w)} :: FromStart(pi, w) && w[|w| - 1] == p && |w| == d + 1)
    && (forall w {:trigger FromStart(pi, w)} :: FromStart(pi, w) && w[|w| - 1] == p ==> d + 1 <= |w|)
  }

  /** The distances the search should find: exactly the reachable cells,
      each at its shortest distance. */
  ghost predicate IsDistanceMap(pi: ProblemInput, dist: map<Point, int>) {
    && (forall p {:trigger Reachable(pi, p)} {:trigger p in dist} :: p in dist <==> Reachable(pi, p))
    && (forall p {:trigger p in dist} :: p in dist ==> ShortestTo(pi, p, dist[p]))
  }

  /** The search ends only on a track walled in by '#': the start and every
      cell that is not a wall have all four neighbours in the map, since a
      missing neighbour reads as open. */
  ghost predicate Enclosed(pi: ProblemInput) {
    && pi.start in pi.grid
    && forall p {:trigger p in pi.grid} :: p in pi.grid && (p == pi.start || Open(pi.grid, p)) ==>
         forall j {:trigger Directions[j]} :: 0 <= j < 4 ==> Add(p, Directions[j]) in pi.grid
  }

  // ---------------------------------------------------------------------
  // Paths

  lemma DirectionAdjacent(p: Point, i: int)
    requires 0 <= i < 4
    ensures Adjacent(p, Add(p, Directions[i]))
  {
  }

  /** Each adjacent cell is reached by one of the four directions. */
  lemma DirectionsCover(p: Point, q: Point)
    requires Adjacent(p, q)
    ensures exists j :: 0 <= j < 4 && q == Add(p, Directions[j])
  {
    if q == Add(p, Directions[0]) {
    } else if q == Add(p, Directions[1]) {
      assert q == Add(p, Directions[1]);
    } else if q == Add(p, Directions[2]) {
      assert q == Add(p, Directions[2]);
    } else {
      assert q == Add(p, Directions[3]);
    }
  }

  lemma PathPrefix(grid: map<Point, char>, w: seq<Point>)
    requires IsPath(grid, w) && |w| >= 2
    ensures IsPath(grid, w[..|w| - 1])
  {
    var p := w[..|w| - 1];
    forall i | 0 <= i < |p| - 1
      ensures Step(grid, p[i], p[i + 1])
    {
      assert p[i] == w[i] && p[i + 1] == w[i + 1];
    }
  }

  lemma PathSnoc(grid: map<Point, char>, w: seq<Point>, q: Point)
    requires IsPath(grid, w) && Step(grid, w[|w| - 1], q)
    ensures IsPath(grid, w + [q])
  {
    var v := w + [q];
    forall i | 0 <= i < |v| - 1
      ensures Step(grid, v[i], v[i + 1])
    {
      if i < |w| - 1 {
        assert v[i] == w[i] && v[i + 1] == w[i + 1];
      }
    }
  }

  // ---------------------------------------------------------------------
  // The search's invariants

  ghost function Elements(queue: seq<Point>): set<Point> {
    set p | p in queue
  }

  /** No path from the start to a recorded cell is shorter than its
      record. */
  ghost predicate Optimal(pi: ProblemInput, dist: map<Point, int>) {
    forall w {:trigger FromStart(pi, w)} ::
      FromStart(pi, w) && w[|w| - 1] in dist ==> dist[w[|w| - 1]] <= |w| - 1
  }

  /** Every recorded cell has a path of its record's length. */
  ghost predicate Witnessed(pi: ProblemInput, dist: map<Point, int>, paths: map<Point, seq<Point>>) {
    forall p {:trigger p in dist} :: p in dist ==>
      p in paths && FromStart(pi, paths[p]) && paths[p][|paths[p]| - 1] == p && |paths[p]| == dist[p] + 1
  }

  /** Every move out of an expanded cell leads to a recorded cell. */
  ghost predicate Frontier(pi: ProblemInput, expanded: set<Point>, dist: map<Point, int>) {
    forall e, n {:trigger Step(pi.grid, e, n)} :: e in expanded && Step(pi.grid, e, n) ==> n in dist
  }

  /** The invariants of the search loop, apart from Frontier. The recorded
      cells are the expanded ones and the queued ones; the queue is ordered
      by distance, holds each cell once, and spans the level and the one
      above; every recorded cell is the start or open, and in the map. */
  ghost predicate Core(pi: ProblemInput, queue: seq<Point>, dist: map<Point, int>, paths: map<Point, seq<Point>>,
                       expanded: set<Point>, level: int) {
    && pi.start in dist && dist[pi.start] == 0
    && (forall i {:trigger queue[i]} :: 0 <= i < |queue| ==>
          queue[i] in dist && queue[i] !in expanded && level <= dist[queue[i]] <= level + 1)
    && (forall i, j {:trigger queue[i], queue[j]} :: 0 <= i < j < |queue| ==>
          dist[queue[i]] <= dist[queue[j]] && queue[i] != queue[j])
    && dist.Keys == expanded + Elements(queue)
    && (forall e {:trigger e in expanded} :: e in expanded ==> dist[e] <= level)
    && Optimal(pi, dist)
    && Witnessed(pi, dist, paths)
    && dist.Keys <= pi.grid.Keys
    && (forall p {:trigger p in dist} :: p in dist ==> p == pi.start || Open(pi.grid, p))
  }

  /** The first i directions out of p leave no move unrecorded. */
  ghost predicate Tried(pi: ProblemInput, p: Point, i: int, dist: map<Point, int>) {
    forall j {:trigger Add(p, Directions[j])} :: 0 <= j < i && j < 4 && Step(pi.grid, p, Add(p, Directions[j])) ==>
      Add(p, Directions[j]) in dist
  }

  /** A path from the start to a cell not expanded leaves the expanded cells
      at a recorded one, no earlier than its record. */
  lemma {:induction false} FirstOut(pi: ProblemInput, dist: map<Point, int>, expanded: set<Point>,
                                    w: seq<Point>) returns (k: nat)
    requires FromStart(pi, w) && w[|w| - 1] !in expanded
    requires pi.start in dist && dist[pi.start] == 0
    requires Frontier(pi, expanded, dist) && Optimal(pi, dist)
    ensures k < |w| && w[k] in dist && w[k] !in expanded && dist[w[k]] <= k
    decreases |w|
  {
    if |w| == 1 {
      k := 0;
    } else {
      var p := w[..|w| - 1];
      PathPrefix(pi.grid, w);
      assert Step(pi.grid, w[|w| - 2], w[|w| - 1]);
      if w[|w| - 2] in expanded {
        k := |w| - 1;
      } else {
        assert p[|p| - 1] == w[|w| - 2] && p[0] == w[0];
        k := FirstOut(pi, dist, expanded, p);
        assert p[k] == w[k];
      }
    }
  }

  lemma ElementsSnoc(queue: seq<Point>, n: Point)
    ensures Elements(queue + [n]) == Elements(queue) + {n}
  {
    assert forall x :: x in queue + [n] <==> x in queue || x == n;
  }

  lemma ElementsCons(queue: seq<Point>)
    requires |queue| > 0
    ensures Elements(queue) == {queue[0]} + Elements(queue[1..])
  {
    assert forall x :: x in queue <==> x == queue[0] || x in queue[1..];
  }

  /** The first iteration's state. */
  lemma InitStep(pi: ProblemInput)
    requires pi.start in pi.grid
    ensures var dist := map[pi.start := 0];
      Core(pi, [pi.start], dist, map[pi.start := [pi.start]], {}, 0) && Frontier(pi, {}, dist)
  {
    assert FromStart(pi, [pi.start]);
    assert Elements([pi.start]) == {pi.start} by {
      ElementsSnoc([], pi.start);
      assert [] + [pi.start] == [pi.start];
    }
  }

  /** Popping the head: it is expanded at its distance, which becomes the
      level. */
  lemma PopStep(pi: ProblemInput, queue: seq<Point>, dist: map<Point, int>, paths: map<Point, seq<Point>>,
                expanded: set<Point>, level: int)
    requires Core(pi, queue, dist, paths, expanded, level) && |queue| > 0
    ensures queue[0] in dist && queue[0] in paths && queue[0] !in expanded
    ensures Core(pi, queue[1..], dist, paths, expanded + {queue[0]}, dist[queue[0]])
  {
    var cur, rest := queue[0], queue[1..];
    var expanded', level' := expanded + {cur}, dist[cur];
    ElementsCons(queue);
    forall i | 0 <= i < |rest|
      ensures rest[i] in dist && rest[i] !in expanded' && level' <= dist[rest[i]] <= level' + 1
    {
      assert rest[i] == queue[i + 1];
      assert dist[queue[0]] <= dist[queue[i + 1]] && queue[0] != queue[i + 1];
    }
    forall i, j | 0 <= i < j < |rest|
      ensures dist[rest[i]] <= dist[rest[j]] && rest[i] != rest[j]
    {
      assert rest[i] == queue[i + 1] && rest[j] == queue[j + 1];
    }
  }

  /** A recorded cell not expanded is queued, at the level or above. */
  lemma Floor(pi: ProblemInput, queue: seq<Point>, dist: map<Point, int>, paths: map<Point, seq<Point>>,
              expanded: set<Point>, level: int, q: Point)
    requires Core(pi, queue, dist, paths, expanded, level) && q in dist && q !in expanded
    ensures dist[q] >= level
  {
    var i :| 0 <= i < |queue| && queue[i] == q;
  }

  /** No path reaches a cell not yet recorded in fewer than c + 1 moves,
      when every recorded cell outside the expanded ones is at c or
      above. */
  lemma NewBound(pi: ProblemInput, dist: map<Point, int>, before: set<Point>, c: int, w: seq<Point>)
    requires pi.start in dist && dist[pi.start] == 0
    requires Optimal(pi, dist) && Frontier(pi, before, dist) && before <= dist.Keys
    requires forall q {:trigger dist[q]} :: q in dist && q !in before ==> dist[q] >= c
    requires FromStart(pi, w) && w[|w| - 1] !in dist
    ensures c + 1 <= |w| - 1
  {
    var k := FirstOut(pi, dist, before, w);
    assert dist[w[k]] >= c;
  }

  /** Recording a new cell at level + 1 keeps every record optimal. */
  lemma AddOptimal(pi: ProblemInput, queue: seq<Point>, dist: map<Point, int>, paths: map<Point, seq<Point>>,
                   expanded: set<Point>, before: set<Point>, p: Point, n: Point)
    requires p in dist && Core(pi, queue, dist, paths, expanded, dist[p]) && Frontier(pi, before, dist)
    requires expanded == before + {p} && n !in dist
    ensures Optimal(pi, dist[n := dist[p] + 1])
  {
    var c := dist[p];
    forall q | q in dist && q !in before
      ensures dist[q] >= c
    {
      if q != p {
        Floor(pi, queue, dist, paths, expanded, c, q);
      }
    }
    var dist' := dist[n := c + 1];
    forall w | FromStart(pi, w) && w[|w| - 1] in dist'
      ensures dist'[w[|w| - 1]] <= |w| - 1
    {
      if w[|w| - 1] == n {
        NewBound(pi, dist, before, c, w);
      }
    }
  }

  /** The queue with the new cell appended. */
  lemma AddQueue(queue: seq<Point>, dist: map<Point, int>, expanded: set<Point>, c: int, n: Point)
    requires forall i {:trigger queue[i]} :: 0 <= i < |queue| ==>
      queue[i] in dist && queue[i] !in expanded && c <= dist[queue[i]] <= c + 1
    requires forall i, j {:trigger queue[i], queue[j]} :: 0 <= i < j < |queue| ==>
      dist[queue[i]] <= dist[queue[j]] && queue[i] != queue[j]
    requires n !in dist && n !in expanded
    ensures var queue', dist' := queue + [n], dist[n := c + 1];
      && (forall i {:trigger queue'[i]} :: 0 <= i < |queue'| ==>
            queue'[i] in dist' && queue'[i] !in expanded && c <= dist'[queue'[i]] <= c + 1)
      && (forall i, j {:trigger queue'[i], queue'[j]} :: 0 <= i < j < |queue'| ==>
            dist'[queue'[i]] <= dist'[queue'[j]] && queue'[i] != queue'[j])
  {
    var queue', dist' := queue + [n], dist[n := c + 1];
    forall i | 0 <= i < |queue'|
      ensures queue'[i] in dist' && queue'[i] !in expanded && c <= dist'[queue'[i]] <= c + 1
    {
      if i < |queue| {
        assert queue'[i] == queue[i];
      }
    }
    forall i, j | 0 <= i < j < |queue'|
      ensures dist'[queue'[i]] <= dist'[queue'[j]] && queue'[i] != queue'[j]
    {
      assert queue'[i] == queue[i];
      if j < |queue| {
        assert queue'[j] == queue[j];
      }
    }
  }

  /** The new cell's path is the head's path and one more move. */
  lemma AddWitnessed(pi: ProblemInput, dist: map<Point, int>, paths: map<Point, seq<Point>>, p: Point, n: Point)
    requires Witnessed(pi, dist, paths) && p in dist && Step(pi.grid, p, n) && n !in dist
    ensures Witnessed(pi, dist[n := dist[p] + 1], paths[n := paths[p] + [n]])
  {
    PathSnoc(pi.grid, paths[p], n);
    var dist', paths' := dist[n := dist[p] + 1], paths[n := paths[p] + [n]];
    forall q | q in dist'
      ensures q in paths' && FromStart(pi, paths'[q]) && paths'[q][|paths'[q]| - 1] == q
      ensures |paths'[q]| == dist'[q] + 1
    {
      if q != n {
        assert paths'[q] == paths[q];
      }
    }
  }

  /** Recording the open, unrecorded neighbour n of the expanded head p
      keeps the invariants. */
  lemma AddStep(pi: ProblemInput, queue: seq<Point>, dist: map<Point, int>, paths: map<Point, seq<Point>>,
                expanded: set<Point>, before: set<Point>, p: Point, i: int)
    requires Enclosed(pi) && 0 <= i < 4
    requires p in dist && Core(pi, queue, dist, paths, expanded, dist[p]) && Frontier(pi, before, dist)
    requires expanded == before + {p}
    requires Add(p, Directions[i]) !in dist && Open(pi.grid, Add(p, Directions[i]))
    ensures var n := Add(p, Directions[i]);
      var dist' := dist[n := dist[p] + 1];
      && Core(pi, queue + [n], dist', paths[n := paths[p] + [n]], expanded, dist[p])
      && Frontier(pi, before, dist')
  {
    var n := Add(p, Directions[i]);
    var c := dist[p];
    DirectionAdjacent(p, i);
    assert n in pi.grid by {
      assert p in pi.grid && (p == pi.start || Open(pi.grid, p));
    }
    AddWitnessed(pi, dist, paths, p, n);
    ElementsSnoc(queue, n);
    AddOptimal(pi, queue, dist, paths, expanded, before, p, n);
    AddQueue(queue, dist, expanded, c, n);
  }

  /** One more direction tried. */
  lemma TriedNext(pi: ProblemInput, p: Point, i: int, dist: map<Point, int>, dist': map<Point, int>)
    requires 0 <= i < 4 && Tried(pi, p, i, dist) && dist.Keys <= dist'.Keys
    requires Step(pi.grid, p, Add(p, Directions[i])) ==> Add(p, Directions[i]) in dist'
    ensures Tried(pi, p, i + 1, dist')
  {
  }

  /** All four directions tried: the head's moves are recorded too. */
  lemma FinishStep(pi: ProblemInput, before: set<Point>, p: Point, dist: map<Point, int>)
    requires Frontier(pi, before, dist) && Tried(pi, p, 4, dist)
    ensures Frontier(pi, before + {p}, dist)
  {
    forall e, n | e in before + {p} && Step(pi.grid, e, n)
      ensures n in dist
    {
      if e == p {
        DirectionsCover(p, n);
      }
    }
  }

  /** The queue empty: the records are the distance map. */
  lemma EmptyStep(pi: ProblemInput, dist: map<Point, int>, paths: map<Point, seq<Point>>, expanded: set<Point>,
                  level: int)
    requires Core(pi, [], dist, paths, expanded, level) && Frontier(pi, expanded, dist)
    ensures IsDistanceMap(pi, dist)
  {
    assert Elements([]) == {};
    forall p | Reachable(pi, p)
      ensures p in dist
    {
      var w :| FromStart(pi, w) && w[|w| - 1] == p;
      if p !in dist {
        var k := FirstOut(pi, dist, expanded, w);
      }
    }
    forall p | p in dist
      ensures Reachable(pi, p) && ShortestTo(pi, p, dist[p])
    {
      assert FromStart(pi, paths[p]);
    }
  }

  lemma Shrinks(keys: set<Point>, expanded: set<Point>, x: Point)
    requires x in keys && x !in expanded
    ensures |keys - (expanded + {x})| < |keys - expanded|
  {
    assert keys - (expanded + {x}) == (keys - expanded) - {x};
  }

  // ---------------------------------------------------------------------
  // The distances of pi.CountCheats

  /** The breadth-first search at the head of pi.CountCheats: each cell
      popped from the queue records every neighbour not yet recorded and
      not a wall at its own distance plus one. */
  method Distances(pi: ProblemInput) returns (dist: map<Point, int>)
    requires Enclosed(pi)
    ensures IsDistanceMap(pi, dist)
  {
    var queue := [pi.start];
    dist := map[pi.start := 0];
    ghost var paths := map[pi.start := [pi.start]];
    ghost var expanded: set<Point> := {};
    ghost var level := 0;
    InitStep(pi);
    while |queue| > 0
      invariant Core(pi, queue, dist, paths, expanded, level) && Frontier(pi, expanded, dist)
      decreases |pi.grid.Keys - expanded|
    {
      ghost var before := expanded;
      var p := queue[0];
      PopStep(pi, queue, dist, paths, expanded, level);
      queue := queue[1..];
      expanded, level := expanded + {p}, dist[p];
      for i := 0 to 4
        invariant Core(pi, queue, dist, paths, expanded, level) && Frontier(pi, before, dist)
        invariant Tried(pi, p, i, dist)
        invariant expanded == before + {p} && p in dist && dist[p] == level && p in paths
      {
        var n := Add(p, Directions[i]);
        ghost var dist0 := dist;
        if n !in dist && At(pi.grid, n) != '#' {
          AddStep(pi, queue, dist, paths, expanded, before, p, i);
          paths := paths[n := paths[p] + [n]];
          queue, dist := queue + [n], dist[n := dist[p] + 1];
        }
        TriedNext(pi, p, i, dist0, dist);
      }
      FinishStep(pi, before, p, dist);
      Shrinks(pi.grid.Keys, before, p);
    }
    EmptyStep(pi, dist, paths, expanded, level);
  }

  /** The distance map is determined by the input. */
  lemma DistanceMapUnique(pi: ProblemInput, d1: map<Point, int>, d2: map<Point, int>)
    requires IsDistanceMap(pi, d1) && IsDistanceMap(pi, d2)
    ensures d1 == d2
  {
    forall p | p in d1
      ensures p in d2 && d1[p] == d2[p]
    {
      assert ShortestTo(pi, p, d1[p]) && ShortestTo(pi, p, d2[p]);
      var w1 :| FromStart(pi, w1) && w1[|w1| - 1] == p && |w1| == d1[p] + 1;
      var w2 :| FromStart(pi, w2) && w2[|w2| - 1] == p && |w2| == d2[p] + 1;
    }
    assert d1.Keys == d2.Keys;
  }

  // ---------------------------------------------------------------------
  // Counting the cheats

  function Manhattan(p1: Point, p2: Point): (d: int)
    ensures d >= 0 && (d == 0 <==> p1 == p2)
  {
    AbsInt(p2.x - p1.x) + AbsInt(p2.y - p1.y)
  }

  /** Jumping from p1 to p2 is within reach and saves enough time. */
  predicate IsCheat(dist: map<Point, int>, cheatDistance: int, goalTimeSave: int, p1: Point, p2: Point)
    requires p1 in dist && p2 in dist
  {
    var d := Manhattan(p1, p2);
    d <= cheatDistance && dist[p2] >= dist[p1] + d + goalTimeSave
  }

  /** The ordered pairs of recorded cells, the first one from s1, that are
      cheats. */
  function PairsFrom(dist: map<Point, int>, cheatDistance: int, goalTimeSave: int, s1: set<Point>): set<(Point, Point)> {
    set p1, p2 | p1 in s1 && p1 in dist && p2 in dist && IsCheat(dist, cheatDistance, goalTimeSave, p1, p2) :: (p1, p2)
  }

  /** All the cheats. */
  function Cheats(dist: map<Point, int>, cheatDistance: int, goalTimeSave: int): set<(Point, Point)> {
    PairsFrom(dist, cheatDistance, goalTimeSave, dist.Keys)
  }

  /** The recorded cells of s2 a cheat from p1 reaches. */
  function TargetsFrom(dist: map<Point, int>, cheatDistance: int, goalTimeSave: int, p1: Point, s2: set<Point>): set<Point>
    requires p1 in dist
  {
    set p2 | p2 in s2 && p2 in dist && IsCheat(dist, cheatDistance, goalTimeSave, p1, p2)
  }

  function Tag(p1: Point, s: set<Point>): set<(Point, Point)> {
    set p2 | p2 in s :: (p1, p2)
  }

  lemma {:induction false} TagSize(p1: Point, s: set<Point>)
    ensures |Tag(p1, s)| == |s|
    decreases |s|
  {
    if s != {} {
      var x :| x in s;
      TagSize(p1, s - {x});
      assert Tag(p1, s) == Tag(p1, s - {x}) + {(p1, x)};
    }
  }

  /** One more target considered: the one the inner loop takes out of
      what is left. */
  lemma TargetsStep(dist: map<Point, int>, cheatDistance: int, goalTimeSave: int, p1: Point, left: set<Point>, p2: Point)
    requires p1 in dist && p2 in left && left <= dist.Keys
    ensures |TargetsFrom(dist, cheatDistance, goalTimeSave, p1, dist.Keys - (left - {p2}))|
      == |TargetsFrom(dist, cheatDistance, goalTimeSave, p1, dist.Keys - left)|
         + (if IsCheat(dist, cheatDistance, goalTimeSave, p1, p2) then 1 else 0)
  {
    var seen := dist.Keys - left;
    assert dist.Keys - (left - {p2}) == seen + {p2};
    var t := TargetsFrom(dist, cheatDistance, goalTimeSave, p1, seen);
    if IsCheat(dist, cheatDistance, goalTimeSave, p1, p2) {
      assert TargetsFrom(dist, cheatDistance, goalTimeSave, p1, seen + {p2}) == t + {p2};
    } else {
      assert TargetsFrom(dist, cheatDistance, goalTimeSave, p1, seen + {p2}) == t;
    }
  }

  /** One more source considered: its cheats are those to its targets. */
  lemma PairsStep(dist: map<Point, int>, cheatDistance: int, goalTimeSave: int, left: set<Point>, p1: Point)
    requires p1 in left && left <= dist.Keys
    ensures |PairsFrom(dist, cheatDistance, goalTimeSave, dist.Keys - (left - {p1}))|
      == |PairsFrom(dist, cheatDistance, goalTimeSave, dist.Keys - left)|
         + |TargetsFrom(dist, cheatDistance, goalTimeSave, p1, dist.Keys)|
  {
    var seen := dist.Keys - left;
    assert dist.Keys - (left - {p1}) == seen + {p1};
    var targets := TargetsFrom(dist, cheatDistance, goalTimeSave, p1, dist.Keys);
    var before := PairsFrom(dist, cheatDistance, goalTimeSave, seen);
    assert PairsFrom(dist, cheatDistance, goalTimeSave, seen + {p1}) == before + Tag(p1, targets);
    assert before * Tag(p1, targets) == {};
    TagSize(p1, targets);
  }

  /** The inner loop of pi.CountCheats: over every recorded cell p2 in map
      order, a count of the cheats from p1 to it. */
  method CountTargets(dist: map<Point, int>, cheatDistance: int, goalTimeSave: int, p1: Point) returns (count: int)
    requires p1 in dist
    ensures count == |TargetsFrom(dist, cheatDistance, goalTimeSave, p1, dist.Keys)|
  {
    count := 0;
    var inner := dist.Keys;
    while inner != {}
      invariant inner <= dist.Keys
      invariant count == |TargetsFrom(dist, cheatDistance, goalTimeSave, p1, dist.Keys - inner)|
      decreases |inner|
    {
      var p2 :| p2 in inner;
      var d := AbsInt(p2.x - p1.x) + AbsInt(p2.y - p1.y);
      if d <= cheatDistance && dist[p2] >= dist[p1] + d + goalTimeSave {
        count := count + 1;
      }
      TargetsStep(dist, cheatDistance, goalTimeSave, p1, inner, p2);
      inner := inner - {p2};
    }
    assert dist.Keys - inner == dist.Keys;
  }

  /** The outer loop of pi.CountCheats: over every recorded cell p1 in map
      order, the cheats from it added up. */
  method CountPairs(dist: map<Point, int>, cheatDistance: int, goalTimeSave: int) returns (count: int)
    ensures count == |Cheats(dist, cheatDistance, goalTimeSave)|
  {
    count := 0;
    var outer := dist.Keys;
    while outer != {}
      invariant outer <= dist.Keys
      invariant count == |PairsFrom(dist, cheatDistance, goalTimeSave, dist.Keys - outer)|
      decreases |outer|
    {
      var p1 :| p1 in outer;
      var n := CountTargets(dist, cheatDistance, goalTimeSave, p1);
      PairsStep(dist, cheatDistance, goalTimeSave, outer, p1);
      count := count + n;
      outer := outer - {p1};
    }
    assert dist.Keys - outer == dist.Keys;
  }

  /** pi.CountCheats: the distances of the search, then the cheats over
      every ordered pair of recorded cells. */
  method CountCheats(pi: ProblemInput, cheatDistance: int, goalTimeSave: int) returns (count: int)
    requires Enclosed(pi)
    ensures exists dist {:trigger IsDistanceMap(pi, dist)} ::
      IsDistanceMap(pi, dist) && count == |Cheats(dist, cheatDistance, goalTimeSave)|
  {
    var dist := Distances(pi);
    count := CountPairs(dist, cheatDistance, goalTimeSave);
  }

  /** A longer cheat allowed never counts fewer cheats, and neither does a
      smaller saving asked for. */
  lemma CheatsMonotone(dist: map<Point, int>, c: int, c': int, g: int, g': int)
    requires c <= c' && g' <= g
    ensures Cheats(dist, c, g) <= Cheats(dist, c', g')
    ensures |Cheats(dist, c, g)| <= |Cheats(dist, c', g')|
  {
    SubsetSize(Cheats(dist, c, g), Cheats(dist, c', g'));
  }

  // ---------------------------------------------------------------------
  // parseInput

  /** Cell (x, y) is rune x of row y. */
  predicate InRows(rows: seq<string>, p: Point) {
    0 <= p.y < |rows| && 0 <= p.x < |rows[p.y]|
  }

  /** The cells of one row, by index. */
  function RowMap(row: string, y: int): map<Point, char> {
    if row == [] then map[]
    else RowMap(row[..|row| - 1], y)[Point(|row| - 1, y) := row[|row| - 1]]
  }

  /** The map parseInput builds: every rune of every row at its (x, y). */
  function GridOf(rows: seq<string>): map<Point, char> {
    if rows == [] then map[]
    else GridOf(rows[..|rows| - 1]) + RowMap(rows[|rows| - 1], |rows| - 1)
  }

  lemma {:induction false} RowMapMeaning(row: string, y: int)
    ensures forall p {:trigger p in RowMap(row, y)} :: p in RowMap(row, y) <==> p.y == y && 0 <= p.x < |row|
    ensures forall p {:trigger RowMap(row, y)[p]} :: p in RowMap(row, y) ==> RowMap(row, y)[p] == row[p.x]
  {
    if row != [] {
      RowMapMeaning(row[..|row| - 1], y);
    }
  }

  /** Exactly the cells of the rows are mapped, each to its rune. */
  lemma {:induction false} GridOfMeaning(rows: seq<string>)
    ensures forall p {:trigger p in GridOf(rows)} :: p in GridOf(rows) <==> InRows(rows, p)
    ensures forall p {:trigger GridOf(rows)[p]} :: p in GridOf(rows) ==> InRows(rows, p) && GridOf(rows)[p] == rows[p.y][p.x]
  {
    if rows != [] {
      var n := |rows| - 1;
      GridOfMeaning(rows[..n]);
      RowMapMeaning(rows[n], n);
    }
  }

  /** The index of the last c in row. */
  function LastInRow(row: string, c: char): (r: Option<int>)
    ensures r.Some? ==> 0 <= r.value < |row|
  {
    if row == [] then None
    else if row[|row| - 1] == c then Some(|row| - 1)
    else LastInRow(row[..|row| - 1], c)
  }

  /** The last cell holding c, in reading order. */
  function LastCell(rows: seq<string>, c: char): (r: Option<Point>)
    ensures r.Some? ==> InRows(rows, r.value)
  {
    if rows == [] then None
    else match LastInRow(rows[|rows| - 1], c)
      case Some(x) => Some(Point(x, |rows| - 1))
      case None => LastCell(rows[..|rows| - 1], c)
  }

  /** q comes after p in reading order. */
  predicate ReadsAfter(p: Point, q: Point) {
    p.y < q.y || (p.y == q.y && p.x < q.x)
  }

  lemma {:induction false} LastInRowMeaning(row: string, c: char)
    ensures LastInRow(row, c).None? <==> c !in row
    ensures LastInRow(row, c).Some? ==>
      var x := LastInRow(row, c).value;
      row[x] == c && forall k :: x < k < |row| ==> row[k] != c
  {
    if row != [] {
      var n := |row| - 1;
      LastInRowMeaning(row[..n], c);
      assert row == row[..n] + [row[n]];
    }
  }

  /** LastCell finds the last c, and None only when there is none. */
  lemma {:induction false} LastCellMeaning(rows: seq<string>, c: char)
    ensures LastCell(rows, c).None? <==> forall p :: InRows(rows, p) ==> rows[p.y][p.x] != c
    ensures LastCell(rows, c).Some? ==>
      var p := LastCell(rows, c).value;
      rows[p.y][p.x] == c && forall q :: InRows(rows, q) && ReadsAfter(p, q) ==> rows[q.y][q.x] != c
  {
    if rows != [] {
      var n := |rows| - 1;
      LastCellMeaning(rows[..n], c);
      LastInRowMeaning(rows[n], c);
      if LastInRow(rows[n], c).None? {
        forall p | InRows(rows, p) && p.y == n
          ensures rows[p.y][p.x] != c
        {
          assert rows[n][p.x] in rows[n];
        }
      }
    }
  }

  function OrOrigin(o: Option<Point>): Point {
    if o.Some? then o.value else Point(0, 0)
  }

  /** What parseInput builds from the fields of the input: the grid, and
      the last 'S' and 'E' in reading order, (0, 0) when there is none. */
  function Parsed(rows: seq<string>): ProblemInput {
    ProblemInput(GridOf(rows), OrOrigin(LastCell(rows, 'S')), OrOrigin(LastCell(rows, 'E')))
  }

  /** The last c found after rows[..y] and the runes of row y before x. */
  function Found(rows: seq<string>, y: int, x: int, c: char): Point
    requires 0 <= y < |rows| && 0 <= x <= |rows[y]|
  {
    match LastInRow(rows[y][..x], c)
    case Some(k) => Point(k, y)
    case None => OrOrigin(LastCell(rows[..y], c))
  }

  lemma FoundStep(rows: seq<string>, y: int, x: int, c: char)
    requires 0 <= y < |rows| && 0 <= x < |rows[y]|
    ensures Found(rows, y, x + 1, c) == if rows[y][x] == c then Point(x, y) else Found(rows, y, x, c)
  {
    assert rows[y][..x + 1][..x] == rows[y][..x];
  }

  lemma FoundRow(rows: seq<string>, y: int, c: char)
    requires 0 <= y < |rows|
    ensures Found(rows, y, 0, c) == OrOrigin(LastCell(rows[..y], c))
    ensures Found(rows, y, |rows[y]|, c) == OrOrigin(LastCell(rows[..y + 1], c))
  {
    assert rows[y][..|rows[y]|] == rows[y];
    assert rows[..y + 1][..y] == rows[..y];
  }

  lemma GridStep(rows: seq<string>, y: int, x: int)
    requires 0 <= y < |rows| && 0 <= x < |rows[y]|
    ensures GridOf(rows[..y]) + RowMap(rows[y][..x + 1], y)
      == (GridOf(rows[..y]) + RowMap(rows[y][..x], y))[Point(x, y) := rows[y][x]]
  {
    assert rows[y][..x + 1][..x] == rows[y][..x];
  }

  lemma GridRow(rows: seq<string>, y: int)
    requires 0 <= y < |rows|
    ensures GridOf(rows[..y]) + RowMap(rows[y][..0], y) == GridOf(rows[..y])
    ensures GridOf(rows[..y]) + RowMap(rows[y][..|rows[y]|], y) == GridOf(rows[..y + 1])
  {
    assert rows[y][..|rows[y]|] == rows[y];
    assert rows[..y + 1][..y] == rows[..y];
  }

  /** parseInput: every rune of every field of the input recorded at
      (x, y), and the last 'S' and 'E' met as the start and the end. */
  method ParseInput(input: string) returns (pi: ProblemInput)
    ensures pi == Parsed(Fields(input))
  {
    var rows := Fields(input);
    var grid: map<Point, char> := map[];
    var start, end := Point(0, 0), Point(0, 0);
    assert rows[..0] == [];
    for y := 0 to |rows|
      invariant grid == GridOf(rows[..y])
      invariant start == OrOrigin(LastCell(rows[..y], 'S')) && end == OrOrigin(LastCell(rows[..y], 'E'))
    {
      var s := rows[y];
      GridRow(rows, y);
      FoundRow(rows, y, 'S');
      FoundRow(rows, y, 'E');
      for x := 0 to |s|
        invariant grid == GridOf(rows[..y]) + RowMap(s[..x], y)
        invariant start == Found(rows, y, x, 'S') && end == Found(rows, y, x, 'E')
      {
        var r := s[x];
        if r == 'S' {
          start := Point(x, y);
        }
        if r == 'E' {
          end := Point(x, y);
        }
        GridStep(rows, y, x);
        FoundStep(rows, y, x, 'S');
        FoundStep(rows, y, x, 'E');
        grid := grid[Point(x, y) := r];
      }
    }
    assert rows[..|rows|] == rows;
    pi := ProblemInput(grid, start, end);
  }

  // ---------------------------------------------------------------------
  // The solver

  /** The answer of a part: the number of cheats of at most cheatDistance
      saving at least 100 picoseconds. */
  ghost predicate IsAnswer(pi: ProblemInput, cheatDistance: int, answer: string) {
    exists dist {:trigger IsDistanceMap(pi, dist)} ::
      IsDistanceMap(pi, dist) && answer == Itoa(|Cheats(dist, cheatDistance, 100)|)
  }

  /** SolvePart1: the cheats of at most 2 picoseconds. */
  method SolvePart1(input: string) returns (answer: string)
    requires Enclosed(Parsed(Fields(input)))
    ensures IsAnswer(Parsed(Fields(input)), 2, answer)
  {
    var problemInput := ParseInput(input);
    var count := CountCheats(problemInput, 2, 100);
    answer := Itoa(count);
  }

  /** SolvePart2: the cheats of at most 20 picoseconds. */
  method SolvePart2(input: string) returns (answer: string)
    requires Enclosed(Parsed(Fields(input)))
    ensures IsAnswer(Parsed(Fields(input)), 20, answer)
  {
    var problemInput := ParseInput(input);
    var count := CountCheats(problemInput, 20, 100);
    answer := Itoa(count);
  }
}
