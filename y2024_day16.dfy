/** 2024/day16: a reindeer walks a maze of walls '#' from 'S', facing
    right, to 'E'. A step forward costs 1 and a quarter turn in place costs
    1000; part 1 is the lowest score of a walk that reaches 'E', found by a
    Dijkstra search over (cell, direction) positions.

    The search pops the lowest-scored queue item (sort.Slice and queue[0]
    pick one of the lowest; which one among equal scores is left open by
    the model), skips positions it has already expanded and queues every
    possible move. The maze is indexed without bounds checks beyond its
    first row's width, so the model asks for a rectangular maze. */
module Y2024Day16 {
  import opened Text
  import opened GoMath

  type Maze = seq<seq<char>>

  const MoveCost := 1
  const Turn90Cost := 1000

  datatype Point = Point(row: int, col: int)

  /** A cell and a direction: 0 = up, 1 = right, 2 = down, 3 = left. */
  datatype Position = Position(point: Point, direction: int)

  datatype ProblemInput = ProblemInput(maze: Maze, start: Position, goal: Point)

  datatype QueueItem = QueueItem(position: Position, score: int)

  predicate Rectangular(maze: Maze) {
    forall r :: 0 <= r < |maze| ==> |maze[r]| == |maze[0]|
  }

  /** pi.IsInMaze: inside the rows and the first row's width. */
  predicate IsInMaze(maze: Maze, p: Point) {
    0 <= p.row < |maze| && 0 <= p.col < |maze[0]|
  }

  /** The cell one step ahead; a direction outside 0..3 stays put. */
  function Forward(from: Position): Point {
    var p := from.point;
    match from.direction
    case 0 => Point(p.row - 1, p.col)
    case 1 => Point(p.row, p.col + 1)
    case 2 => Point(p.row + 1, p.col)
    case 3 => Point(p.row, p.col - 1)
    case _ => p
  }

  /** (direction + turn) % 4 with Go's truncating remainder, moved into
      0..3 when negative. */
  function Turn(direction: int, turn: int): (d: int)
    ensures d == (direction + turn) % 4
  {
    var d := TMod(direction + turn, 4);
    NormalisedMod(direction + turn, 4);
    if d < 0 then d + 4 else d
  }

  /** A cell the reindeer can step onto. The width check against the
      cell's own row only matters in a ragged maze, where pi.PossibleMoves
      would index out of range; every search below asks for a rectangular
      one. */
  predicate Open(maze: Maze, p: Point) {
    IsInMaze(maze, p) && p.col < |maze[p.row]| && maze[p.row][p.col] != '#'
  }

  /** pi.PossibleMoves: the forward step when it stays in the maze off a
      wall, then the two quarter turns in place, each with its cost. */
  function PossibleMoves(maze: Maze, from: Position): map<Position, int> {
    var ahead := Forward(from);
    var forward := if Open(maze, ahead) then map[Position(ahead, from.direction) := MoveCost] else map[];
    var right := forward[Position(from.point, Turn(from.direction, 1)) := Turn90Cost];
    right[Position(from.point, Turn(from.direction, -1)) := Turn90Cost]
  }

  predicate IsDirection(d: int) { 0 <= d < 4 }

  /** The two quarter turns from direction d, as remainders. */
  lemma TurnsApart(d: int)
    ensures Turn(d, 1) == (d + 1) % 4 && Turn(d, -1) == (d + 3) % 4
    ensures (d + 1) % 4 != (d + 3) % 4
  {
    ModAdd(d - 1, 4, 4);
    ModAdd(d + 1, 2, 4);
  }

  /** The moves are exactly the forward step, when open, and both turns:
      two or three of them, never a step back. */
  lemma PossibleMovesMeaning(maze: Maze, from: Position)
    ensures var m := PossibleMoves(maze, from);
      var ahead, left, right := Position(Forward(from), from.direction),
        Position(from.point, (from.direction + 3) % 4), Position(from.point, (from.direction + 1) % 4);
      && (forall n :: n in m <==> (n == ahead && Open(maze, ahead.point)) || n == left || n == right)
      && (Open(maze, ahead.point) ==> m[ahead] == MoveCost)
      && m[left] == Turn90Cost && m[right] == Turn90Cost
      && |m| == if Open(maze, ahead.point) then 3 else 2
  {
    var d := from.direction;
    var m := PossibleMoves(maze, from);
    var ahead, left, right := Position(Forward(from), d), Position(from.point, (d + 3) % 4), Position(from.point, (d + 1) % 4);
    TurnsApart(d);
    var turns := map[right := Turn90Cost][left := Turn90Cost];
    assert turns.Keys == {right, left};
    if Open(maze, ahead.point) {
      assert ahead != left && ahead != right;
      assert m == map[ahead := MoveCost][right := Turn90Cost][left := Turn90Cost];
      assert m.Keys == {ahead} + {right, left};
    } else {
      assert m == turns;
    }
  }

  /** From a position facing one of the four ways, no move faces back. */
  lemma PossibleMovesNeverBack(maze: Maze, from: Position, n: Position)
    requires IsDirection(from.direction) && n in PossibleMoves(maze, from)
    ensures n.direction != (from.direction + 2) % 4
    ensures IsDirection(n.direction)
  {
    var d := from.direction;
    assert n.direction in {d, Turn(d, 1), Turn(d, -1)};
    assert Turn(d, 1) != (d + 2) % 4 && Turn(d, -1) != (d + 2) % 4 by {
      ModAdd(d + 1, 1, 4);
      ModAdd(d - 1, 3, 4);
    }
  }

  /** The moves of every position, as one function. */
  function Moves(maze: Maze): Position -> map<Position, int> {
    p => PossibleMoves(maze, p)
  }

  /** Every move costs at least 1. */
  lemma MovesPositive(maze: Maze)
    ensures PositiveCosts(Moves(maze))
  {
    forall p, n | n in Moves(maze)(p)
      ensures Moves(maze)(p)[n] >= 1
    {
      assert Moves(maze)(p) == PossibleMoves(maze, p);
    }
  }

  // ---------------------------------------------------------------------
  // Walks and their scores, for any move function

  type MoveFn = Position -> map<Position, int>

  ghost predicate PositiveCosts(moves: MoveFn) {
    forall p, n :: n in moves(p) ==> moves(p)[n] >= 1
  }

  /** A walk: each position is a possible move from the one before it. */
  ghost predicate IsWalk(moves: MoveFn, w: seq<Position>) {
    |w| >= 1 && forall i :: 0 <= i < |w| - 1 ==> w[i + 1] in moves(w[i])
  }

  lemma WalkPrefix(moves: MoveFn, w: seq<Position>)
    requires IsWalk(moves, w) && |w| > 1
    ensures IsWalk(moves, w[..|w| - 1])
  {
    var p := w[..|w| - 1];
    forall i | 0 <= i < |p| - 1
      ensures p[i + 1] in moves(p[i])
    {
      assert p[i] == w[i] && p[i + 1] == w[i + 1];
    }
  }

  /** The score of a walk: the sum of its moves' costs. */
  ghost function WalkCost(moves: MoveFn, w: seq<Position>): int
    requires IsWalk(moves, w)
    decreases |w|
  {
    if |w| == 1 then 0
    else
      WalkPrefix(moves, w);
      WalkCost(moves, w[..|w| - 1]) + moves(w[|w| - 2])[w[|w| - 1]]
  }

  /** A walk extended by one possible move. */
  lemma WalkSnoc(moves: MoveFn, w: seq<Position>, n: Position)
    requires IsWalk(moves, w) && n in moves(w[|w| - 1])
    ensures IsWalk(moves, w + [n])
    ensures WalkCost(moves, w + [n]) == WalkCost(moves, w) + moves(w[|w| - 1])[n]
  {
    var v := w + [n];
    forall i | 0 <= i < |v| - 1
      ensures v[i + 1] in moves(v[i])
    {
      if i < |w| - 1 {
        assert v[i] == w[i] && v[i + 1] == w[i + 1];
      }
    }
    assert v[..|v| - 1] == w;
  }

  lemma {:induction false} WalkCostNonNegative(moves: MoveFn, w: seq<Position>)
    requires IsWalk(moves, w) && PositiveCosts(moves)
    ensures WalkCost(moves, w) >= 0
    decreases |w|
  {
    if |w| > 1 {
      WalkPrefix(moves, w);
      WalkCostNonNegative(moves, w[..|w| - 1]);
    }
  }

  ghost predicate FromStart(moves: MoveFn, start: Position, w: seq<Position>) {
    IsWalk(moves, w) && w[0] == start
  }

  ghost predicate ReachesGoal(moves: MoveFn, start: Position, goal: Point, w: seq<Position>) {
    FromStart(moves, start, w) && w[|w| - 1].point == goal
  }

  /** s is the lowest score of a walk from start to the goal cell. */
  ghost predicate IsLeastScore(moves: MoveFn, start: Position, goal: Point, s: int) {
    && (exists w :: ReachesGoal(moves, start, goal, w) && WalkCost(moves, w) == s)
    && (forall w {:trigger ReachesGoal(moves, start, goal, w)} :: ReachesGoal(moves, start, goal, w) ==> s <= WalkCost(moves, w))
  }

  ghost predicate Unreachable(moves: MoveFn, start: Position, goal: Point) {
    forall w {:trigger ReachesGoal(moves, start, goal, w)} :: !ReachesGoal(moves, start, goal, w)
  }

  /** There is at most one least score. */
  lemma LeastScoreUnique(moves: MoveFn, start: Position, goal: Point, s: int, t: int)
    requires IsLeastScore(moves, start, goal, s) && IsLeastScore(moves, start, goal, t)
    ensures s == t
  {
    var ws :| ReachesGoal(moves, start, goal, ws) && WalkCost(moves, ws) == s;
    var wt :| ReachesGoal(moves, start, goal, wt) && WalkCost(moves, wt) == t;
  }

  /** Starting on the goal, the least score is 0. */
  lemma StartAtGoal(moves: MoveFn, start: Position, goal: Point)
    requires PositiveCosts(moves) && start.point == goal
    ensures IsLeastScore(moves, start, goal, 0) && !Unreachable(moves, start, goal)
  {
    var w := [start];
    assert ReachesGoal(moves, start, goal, w) && WalkCost(moves, w) == 0;
    forall v | ReachesGoal(moves, start, goal, v)
      ensures 0 <= WalkCost(moves, v)
    {
      WalkCostNonNegative(moves, v);
    }
  }

  // ---------------------------------------------------------------------
  // The search's invariants

  /** Every expanded position's score is at most the score of any walk to
      it. */
  ghost predicate Optimal(moves: MoveFn, start: Position, best: map<Position, int>) {
    forall w {:trigger FromStart(moves, start, w)} :: FromStart(moves, start, w) && w[|w| - 1] in best ==> best[w[|w| - 1]] <= WalkCost(moves, w)
  }

  /** Every move from an expanded position to one not yet expanded is queued
      with the expanded score plus its cost. */
  ghost predicate Frontier(moves: MoveFn, best: map<Position, int>, queue: multiset<QueueItem>) {
    forall v, n {:trigger moves(v)[n]} :: v in best && n in moves(v) && n !in best ==> QueueItem(n, best[v] + moves(v)[n]) in queue
  }

  ghost predicate StartCovered(start: Position, best: map<Position, int>, queue: multiset<QueueItem>) {
    start in best || QueueItem(start, 0) in queue
  }

  /** Every queued item is scored by a walk from start to its position and
      lies in the universe. */
  ghost predicate Witnessed(moves: MoveFn, start: Position, universe: set<Position>, queue: multiset<QueueItem>,
                            ws: map<QueueItem, seq<Position>>) {
    forall it {:trigger queue[it]} :: it in queue ==>
      && it.position in universe && it in ws && FromStart(moves, start, ws[it])
      && ws[it][|ws[it]| - 1] == it.position && WalkCost(moves, ws[it]) == it.score
  }

  ghost predicate Closed(moves: MoveFn, universe: set<Position>) {
    forall p, n {:trigger n in moves(p)} :: p in universe && n in moves(p) ==> n in universe
  }

  predicate IsLowest(it: QueueItem, queue: multiset<QueueItem>) {
    forall o {:trigger queue[o]} :: o in queue ==> it.score <= o.score
  }

  lemma {:induction false} LowestExists(queue: multiset<QueueItem>) returns (m: QueueItem)
    requires |queue| > 0
    ensures m in queue && IsLowest(m, queue)
    decreases |queue|
  {
    var x :| x in queue;
    var rest := queue - multiset{x};
    assert queue == rest + multiset{x};
    if |rest| == 0 {
      m := x;
    } else {
      var m' := LowestExists(rest);
      m := if x.score < m'.score then x else m';
    }
  }

  /** A walk from start to a position not yet expanded passes a queued item
      whose score is at most the walk's. */
  lemma {:induction false} FrontierItem(moves: MoveFn, start: Position, best: map<Position, int>,
                                        queue: multiset<QueueItem>, w: seq<Position>) returns (it: QueueItem)
    requires PositiveCosts(moves) && FromStart(moves, start, w) && w[|w| - 1] !in best
    requires Optimal(moves, start, best) && Frontier(moves, best, queue) && StartCovered(start, best, queue)
    ensures it in queue && it.score <= WalkCost(moves, w)
    decreases |w|
  {
    if |w| == 1 {
      it := QueueItem(start, 0);
    } else {
      var p := w[..|w| - 1];
      WalkPrefix(moves, w);
      assert FromStart(moves, start, p) && p[|p| - 1] == w[|w| - 2];
      var v, n := w[|w| - 2], w[|w| - 1];
      assert n in moves(v);
      if v in best {
        it := QueueItem(n, best[v] + moves(v)[n]);
      } else {
        it := FrontierItem(moves, start, best, queue, p);
      }
    }
  }

  /** Popping a lowest item for a position not yet expanded gives that
      position its least score. */
  lemma VisitOptimal(moves: MoveFn, start: Position, best: map<Position, int>, queue: multiset<QueueItem>,
                     current: QueueItem)
    requires PositiveCosts(moves) && current in queue && IsLowest(current, queue) && current.position !in best
    requires Optimal(moves, start, best) && Frontier(moves, best, queue) && StartCovered(start, best, queue)
    ensures Optimal(moves, start, best[current.position := current.score])
  {
    forall w | FromStart(moves, start, w) && w[|w| - 1] == current.position
      ensures current.score <= WalkCost(moves, w)
    {
      var it := FrontierItem(moves, start, best, queue, w);
    }
  }

  /** The moves of the newly expanded position are queued; the rest of the
      frontier stays queued. */
  lemma VisitFrontier(moves: MoveFn, start: Position, best: map<Position, int>, queue: multiset<QueueItem>,
                      current: QueueItem, step: map<Position, int>, next: set<QueueItem>)
    requires current in queue && current.position !in best && step == moves(current.position)
    requires Frontier(moves, best, queue) && StartCovered(start, best, queue)
    requires forall n :: n in step ==> QueueItem(n, current.score + step[n]) in next
    ensures Frontier(moves, best[current.position := current.score], queue - multiset{current} + multiset(next))
    ensures StartCovered(start, best[current.position := current.score], queue - multiset{current} + multiset(next))
  {
    var best', queue' := best[current.position := current.score], queue - multiset{current} + multiset(next);
    forall v, n | v in best' && n in moves(v) && n !in best'
      ensures QueueItem(n, best'[v] + moves(v)[n]) in queue'
    {
      if v == current.position {
        assert QueueItem(n, best'[v] + moves(v)[n]) in next;
      } else {
        assert QueueItem(n, best[v] + moves(v)[n]) in queue;
      }
    }
  }

  /** Popping an item for an expanded position loses nothing. */
  lemma SkipFrontier(moves: MoveFn, start: Position, best: map<Position, int>, queue: multiset<QueueItem>,
                     current: QueueItem)
    requires current in queue && current.position in best
    requires Frontier(moves, best, queue) && StartCovered(start, best, queue)
    ensures Frontier(moves, best, queue - multiset{current}) && StartCovered(start, best, queue - multiset{current})
  {
  }

  /** The witness walks of the new items: w extended by the item's
      position. */
  ghost function Extended(ws: map<QueueItem, seq<Position>>, next: set<QueueItem>, w: seq<Position>)
    : map<QueueItem, seq<Position>>
  {
    ws + map it | it in next :: w + [it.position]
  }

  /** The queued walks extended by the new moves. */
  lemma VisitWitnessed(moves: MoveFn, start: Position, universe: set<Position>, queue: multiset<QueueItem>,
                       ws: map<QueueItem, seq<Position>>, current: QueueItem, step: map<Position, int>,
                       next: set<QueueItem>)
    requires current in queue && Witnessed(moves, start, universe, queue, ws) && Closed(moves, universe)
    requires step == moves(current.position)
    requires forall it {:trigger it in next} :: it in next ==> it.position in step && it.score == current.score + step[it.position]
    ensures Witnessed(moves, start, universe, queue - multiset{current} + multiset(next),
      Extended(ws, next, ws[current]))
  {
    var w := ws[current];
    var ws' := Extended(ws, next, w);
    forall it | it in next
      ensures it.position in universe && FromStart(moves, start, ws'[it])
      ensures ws'[it][|ws'[it]| - 1] == it.position && WalkCost(moves, ws'[it]) == it.score
    {
      WalkSnoc(moves, w, it.position);
    }
  }

  /** The goal item popped first holds the least score. */
  lemma GoalLeast(moves: MoveFn, start: Position, goal: Point, best: map<Position, int>, queue: multiset<QueueItem>,
                  current: QueueItem, w: seq<Position>)
    requires PositiveCosts(moves) && current in queue && IsLowest(current, queue)
    requires Optimal(moves, start, best) && Frontier(moves, best, queue) && StartCovered(start, best, queue)
    requires forall v {:trigger v in best} :: v in best ==> v.point != goal
    requires ReachesGoal(moves, start, goal, w) && WalkCost(moves, w) == current.score
    ensures IsLeastScore(moves, start, goal, current.score)
  {
    forall v | ReachesGoal(moves, start, goal, v)
      ensures current.score <= WalkCost(moves, v)
    {
      var it := FrontierItem(moves, start, best, queue, v);
    }
  }

  /** An empty queue leaves the goal unreached by any walk. */
  lemma EmptyUnreachable(moves: MoveFn, start: Position, goal: Point, best: map<Position, int>)
    requires PositiveCosts(moves)
    requires Optimal(moves, start, best) && Frontier(moves, best, multiset{}) && StartCovered(start, best, multiset{})
    requires forall v {:trigger v in best} :: v in best ==> v.point != goal
    ensures Unreachable(moves, start, goal)
  {
    forall v | ReachesGoal(moves, start, goal, v)
      ensures false
    {
      var it := FrontierItem(moves, start, best, multiset{}, v);
    }
  }

  // ---------------------------------------------------------------------
  // pi.Solve

  /** The directions a search from the start can face. */
  function Directions(pi: ProblemInput): set<int> {
    {0, 1, 2, 3, pi.start.direction}
  }

  /** The cells a search from the start can stand on. */
  function Cells(pi: ProblemInput): set<Point> {
    (set r, c | 0 <= r < |pi.maze| && 0 <= c < |pi.maze[0]| :: Point(r, c)) + {pi.start.point}
  }

  /** Every position the search can queue: a finite set, so the search
      ends. */
  function Universe(pi: ProblemInput): set<Position> {
    set p, d | p in Cells(pi) && d in Directions(pi) :: Position(p, d)
  }

  lemma InUniverse(pi: ProblemInput, p: Point, d: int)
    requires p in Cells(pi) && d in Directions(pi)
    ensures Position(p, d) in Universe(pi)
  {
  }

  lemma UniverseMember(pi: ProblemInput, x: Position)
    ensures x in Universe(pi) <==> x.point in Cells(pi) && x.direction in Directions(pi)
  {
    if x.point in Cells(pi) && x.direction in Directions(pi) {
      assert x == Position(x.point, x.direction);
    }
  }

  lemma CellMember(pi: ProblemInput, p: Point)
    requires IsInMaze(pi.maze, p)
    ensures p in Cells(pi)
  {
    assert p == Point(p.row, p.col);
  }

  /** A move is the forward step onto an open cell, or a turn in place to
      one of the four directions. */
  lemma MoveKinds(maze: Maze, from: Position, n: Position)
    requires n in PossibleMoves(maze, from)
    ensures || (n == Position(Forward(from), from.direction) && Open(maze, Forward(from)))
            || (n.point == from.point && IsDirection(n.direction))
  {
  }

  lemma MovesStayInUniverse(pi: ProblemInput, from: Position, n: Position)
    requires from in Universe(pi) && n in PossibleMoves(pi.maze, from)
    ensures n in Universe(pi)
  {
    UniverseMember(pi, from);
    UniverseMember(pi, n);
    MoveKinds(pi.maze, from, n);
    if n.point != from.point || !IsDirection(n.direction) {
      if IsDirection(from.direction) {
        CellMember(pi, n.point);
      }
    }
  }

  lemma UniverseClosed(pi: ProblemInput)
    ensures Closed(Moves(pi.maze), Universe(pi))
  {
    forall p, n | p in Universe(pi) && n in Moves(pi.maze)(p)
      ensures n in Universe(pi)
    {
      MovesStayInUniverse(pi, p, n);
    }
  }

  predicate Distinct(s: seq<Position>) {
    forall i, j :: 0 <= i < j < |s| ==> s[i] != s[j]
  }

  /** The invariants of pi.Solve's loop. */
  ghost predicate SearchInvariant(moveFn: MoveFn, start: Position, goal: Point, universe: set<Position>,
                                  queue: multiset<QueueItem>, visited: set<Position>, best: map<Position, int>,
                                  ws: map<QueueItem, seq<Position>>, expanded: seq<Position>) {
    && visited == best.Keys && visited <= universe
    && Witnessed(moveFn, start, universe, queue, ws)
    && Optimal(moveFn, start, best) && Frontier(moveFn, best, queue) && StartCovered(start, best, queue)
    && (forall v {:trigger v in best} :: v in best ==> v.point != goal)
    && Distinct(expanded) && (forall v :: v in expanded <==> v in visited)
  }

  /** The bookkeeping of an expansion: the visited set, the scores, the
      expansion order. */
  lemma VisitBook(goal: Point, universe: set<Position>, visited: set<Position>, best: map<Position, int>,
                  expanded: seq<Position>, x: Position, score: int)
    requires visited == best.Keys && visited <= universe && x in universe && x !in visited && x.point != goal
    requires forall v {:trigger v in best} :: v in best ==> v.point != goal
    requires Distinct(expanded) && forall v :: v in expanded <==> v in visited
    ensures visited + {x} == best[x := score].Keys && visited + {x} <= universe
    ensures forall v :: v in best[x := score] ==> v.point != goal
    ensures Distinct(expanded + [x]) && forall v :: v in expanded + [x] <==> v in visited + {x}
  {
  }

  /** Expanding the lowest item's position, not yet expanded, keeps the
      invariants. The primed parameters are the state after the
      expansion. */
  lemma VisitStep(moveFn: MoveFn, start: Position, goal: Point, universe: set<Position>,
                  queue: multiset<QueueItem>, visited: set<Position>, best: map<Position, int>,
                  ws: map<QueueItem, seq<Position>>, expanded: seq<Position>,
                  current: QueueItem, moves: map<Position, int>, next: set<QueueItem>,
                  queue': multiset<QueueItem>, visited': set<Position>, best': map<Position, int>,
                  ws': map<QueueItem, seq<Position>>, expanded': seq<Position>)
    requires SearchInvariant(moveFn, start, goal, universe, queue, visited, best, ws, expanded)
    requires PositiveCosts(moveFn) && Closed(moveFn, universe)
    requires current in queue && IsLowest(current, queue) && current.position !in visited
    requires current.position.point != goal
    requires moves == moveFn(current.position)
    requires forall n :: n in moves ==> QueueItem(n, current.score + moves[n]) in next
    requires forall it {:trigger it in next} :: it in next ==> it.position in moves && it.score == current.score + moves[it.position]
    requires queue' == queue - multiset{current} + multiset(next)
    requires visited' == visited + {current.position} && best' == best[current.position := current.score]
    requires ws' == Extended(ws, next, ws[current]) && expanded' == expanded + [current.position]
    ensures SearchInvariant(moveFn, start, goal, universe, queue', visited', best', ws', expanded')
  {
    VisitBook(goal, universe, visited, best, expanded, current.position, current.score);
    VisitOptimal(moveFn, start, best, queue, current);
    VisitFrontier(moveFn, start, best, queue, current, moves, next);
    VisitWitnessed(moveFn, start, universe, queue, ws, current, moves, next);
  }

  /** The invariants hold before the first iteration. */
  lemma InitStep(moveFn: MoveFn, start: Position, goal: Point, universe: set<Position>)
    requires start in universe
    ensures SearchInvariant(moveFn, start, goal, universe, multiset{QueueItem(start, 0)}, {}, map[],
      map[QueueItem(start, 0) := [start]], [])
  {
    assert FromStart(moveFn, start, [start]) && WalkCost(moveFn, [start]) == 0;
  }

  /** Popping the goal: its score is the least one, and 0 when the start is
      on the goal. */
  lemma GoalStep(moveFn: MoveFn, start: Position, goal: Point, universe: set<Position>,
                 queue: multiset<QueueItem>, visited: set<Position>, best: map<Position, int>,
                 ws: map<QueueItem, seq<Position>>, expanded: seq<Position>, current: QueueItem)
    requires SearchInvariant(moveFn, start, goal, universe, queue, visited, best, ws, expanded)
    requires PositiveCosts(moveFn) && current in queue && IsLowest(current, queue)
    requires current.position.point == goal
    ensures current.score >= 0 && IsLeastScore(moveFn, start, goal, current.score)
    ensures start.point == goal ==> current.score == 0
  {
    GoalLeast(moveFn, start, goal, best, queue, current, ws[current]);
    WalkCostNonNegative(moveFn, ws[current]);
    if start.point == goal {
      StartAtGoal(moveFn, start, goal);
      LeastScoreUnique(moveFn, start, goal, 0, current.score);
    }
  }

  /** Popping an item whose position is already expanded keeps the
      invariants. */
  lemma SkipStep(moveFn: MoveFn, start: Position, goal: Point, universe: set<Position>,
                 queue: multiset<QueueItem>, visited: set<Position>, best: map<Position, int>,
                 ws: map<QueueItem, seq<Position>>, expanded: seq<Position>, current: QueueItem)
    requires SearchInvariant(moveFn, start, goal, universe, queue, visited, best, ws, expanded)
    requires current in queue && current.position in visited
    ensures SearchInvariant(moveFn, start, goal, universe, queue - multiset{current}, visited, best, ws, expanded)
  {
    SkipFrontier(moveFn, start, best, queue, current);
  }

  /** An empty queue: the goal is unreachable, so the start is not on it. */
  lemma EmptyStep(moveFn: MoveFn, start: Position, goal: Point, universe: set<Position>,
                  visited: set<Position>, best: map<Position, int>,
                  ws: map<QueueItem, seq<Position>>, expanded: seq<Position>)
    requires SearchInvariant(moveFn, start, goal, universe, multiset{}, visited, best, ws, expanded)
    requires PositiveCosts(moveFn)
    ensures Unreachable(moveFn, start, goal) && start.point != goal
  {
    EmptyUnreachable(moveFn, start, goal, best);
    if start.point == goal {
      StartAtGoal(moveFn, start, goal);
    }
  }

  /** Expanding a new position of the universe shrinks what is left of it. */
  lemma Shrinks(universe: set<Position>, visited: set<Position>, x: Position)
    requires x in universe && x !in visited
    ensures |universe - (visited + {x})| < |universe - visited|
  {
    assert universe - (visited + {x}) == (universe - visited) - {x};
  }

  /** pi.Solve: the lowest score of a walk from the start to the goal, or
      -1 when the queue runs dry first. Each position is expanded at most
      once (`expanded` lists them in order). moveFn stands for
      pi.PossibleMoves (SolvePart1 passes Moves(pi.maze)); the search is
      proved for any move function with positive costs. The ghost universe
      is a finite set of positions closed under the moves that holds the
      start, the bound on the search. */
  method Solve(pi: ProblemInput, moveFn: MoveFn, ghost universe: set<Position>)
      returns (score: int, ghost expanded: seq<Position>)
    requires PositiveCosts(moveFn)
    requires Closed(moveFn, universe) && pi.start in universe
    ensures score == -1 || score >= 0
    ensures score >= 0 ==> IsLeastScore(moveFn, pi.start, pi.goal, score)
    ensures score == -1 ==> Unreachable(moveFn, pi.start, pi.goal)
    ensures pi.start.point == pi.goal ==> score == 0
    ensures Distinct(expanded)
  {
    var queue := multiset{QueueItem(pi.start, 0)};
    var visited: set<Position> := {};
    ghost var best: map<Position, int> := map[];
    ghost var ws: map<QueueItem, seq<Position>> := map[QueueItem(pi.start, 0) := [pi.start]];
    expanded := [];
    InitStep(moveFn, pi.start, pi.goal, universe);
    while |queue| > 0
      invariant SearchInvariant(moveFn, pi.start, pi.goal, universe, queue, visited, best, ws, expanded)
      decreases |universe - visited|, |queue|
    {
      ghost var lowest := LowestExists(queue);
      var current :| current in queue && IsLowest(current, queue);
      ghost var before := queue;
      queue := queue - multiset{current};

      if current.position.point == pi.goal {
        GoalStep(moveFn, pi.start, pi.goal, universe, before, visited, best, ws, expanded, current);
        return current.score, expanded;
      }
      if current.position in visited {
        SkipStep(moveFn, pi.start, pi.goal, universe, before, visited, best, ws, expanded, current);
        continue;
      }

      var moves := moveFn(current.position);
      // One item per move, scored by the move's cost on top; the order in
      // which the moves are appended does not matter to a multiset.
      var next := set n | n in moves :: QueueItem(n, current.score + moves[n]);
      ghost var visited0, best0, ws0, expanded0 := visited, best, ws, expanded;
      visited := visited + {current.position};
      best := best[current.position := current.score];
      queue := queue + multiset(next);
      ws := Extended(ws, next, ws[current]);
      expanded := expanded + [current.position];
      VisitStep(moveFn, pi.start, pi.goal, universe, before, visited0, best0, ws0, expanded0, current, moves, next,
                queue, visited, best, ws, expanded);
      Shrinks(universe, visited0, current.position);
    }
    EmptyStep(moveFn, pi.start, pi.goal, universe, visited, best, ws, expanded);
    return -1, expanded;
  }

  // ---------------------------------------------------------------------
  // parseInput

  /** The last column of line holding ch. */
  function LastCol(line: string, ch: char): (r: Option<nat>)
    ensures r.Some? ==> r.value < |line| && line[r.value] == ch && forall k :: r.value < k < |line| ==> line[k] != ch
    ensures r.None? ==> forall k :: 0 <= k < |line| ==> line[k] != ch
  {
    if line == [] then None
    else if line[|line| - 1] == ch then Some(|line| - 1)
    else
      var r := LastCol(line[..|line| - 1], ch);
      assert forall k :: 0 <= k < |line| - 1 ==> line[k] == line[..|line| - 1][k];
      r
  }

  /** The last cell, in row-major order, holding ch, or dflt when there is
      none. */
  function LastCell(rows: seq<string>, ch: char, dflt: Point): (p: Point)
    ensures || (p == dflt && forall r :: 0 <= r < |rows| ==> LastCol(rows[r], ch).None?)
            || (&& 0 <= p.row < |rows| && LastCol(rows[p.row], ch) == Some(p.col)
                && forall r :: p.row < r < |rows| ==> LastCol(rows[r], ch).None?)
  {
    if rows == [] then dflt
    else
      var last := |rows| - 1;
      match LastCol(rows[last], ch)
      case Some(c) => Point(last, c)
      case None =>
        var p := LastCell(rows[..last], ch, dflt);
        assert forall r :: 0 <= r < last ==> rows[r] == rows[..last][r];
        p
  }

  lemma LastCellStep(rows: seq<string>, ch: char, dflt: Point, i: nat)
    requires i < |rows|
    ensures LastCell(rows[..i + 1], ch, dflt) ==
      match LastCol(rows[i], ch) case Some(c) => Point(i, c) case None => LastCell(rows[..i], ch, dflt)
  {
    assert rows[..i + 1][..i] == rows[..i];
  }

  lemma LastColStep(line: string, ch: char, j: nat)
    requires j < |line|
    ensures LastCol(line[..j + 1], ch) == if line[j] == ch then Some(j) else LastCol(line[..j], ch)
  {
    assert line[..j + 1][..j] == line[..j];
  }

  /** The maze, start and goal that parseInput reads from the lines. */
  function Parsed(lines: seq<string>): ProblemInput {
    ProblemInput(lines, Position(LastCell(lines, 'S', Point(0, 0)), 1), LastCell(lines, 'E', Point(0, 0)))
  }

  /** The scan of row i up to column j on top of the rows before it. */
  function RowScan(line: string, i: int, ch: char, before: Point, j: nat): Point
    requires j <= |line|
  {
    match LastCol(line[..j], ch) case Some(c) => Point(i, c) case None => before
  }

  /** One more column of the row scan. */
  lemma RowScanStep(line: string, i: int, ch: char, before: Point, j: nat)
    requires j < |line|
    ensures RowScan(line, i, ch, before, j + 1) == if line[j] == ch then Point(i, j) else RowScan(line, i, ch, before, j)
  {
    LastColStep(line, ch, j);
  }

  /** The whole row scanned on top of the rows before it is the last cell of
      the rows up to it. */
  lemma RowScanDone(lines: seq<string>, i: nat, ch: char, dflt: Point)
    requires i < |lines|
    ensures RowScan(lines[i], i, ch, LastCell(lines[..i], ch, dflt), |lines[i]|) == LastCell(lines[..i + 1], ch, dflt)
  {
    assert lines[i][..|lines[i]|] == lines[i];
    LastCellStep(lines, ch, dflt, i);
  }

  /** parseInput: the maze is the trimmed input's lines; the start is the
      last 'S' in row-major order, facing right, and the goal the last 'E';
      either is (0, 0) when missing. */
  method ParseInput(input: string) returns (pi: ProblemInput)
    ensures pi == Parsed(Split(TrimSpace(input), '\n'))
  {
    var lines := Split(TrimSpace(input), '\n');
    var start := Position(Point(0, 0), 1);
    var goal := Point(0, 0);
    for i := 0 to |lines|
      invariant start == Position(LastCell(lines[..i], 'S', Point(0, 0)), 1)
      invariant goal == LastCell(lines[..i], 'E', Point(0, 0))
    {
      ghost var startBefore, goalBefore := start.point, goal;
      var line := lines[i];
      for j := 0 to |line|
        invariant start == Position(RowScan(line, i, 'S', startBefore, j), 1)
        invariant goal == RowScan(line, i, 'E', goalBefore, j)
      {
        RowScanStep(line, i, 'S', startBefore, j);
        RowScanStep(line, i, 'E', goalBefore, j);
        if line[j] == 'S' {
          start := Position(Point(i, j), 1);
        }
        if line[j] == 'E' {
          goal := Point(i, j);
        }
      }
      RowScanDone(lines, i, 'S', Point(0, 0));
      RowScanDone(lines, i, 'E', Point(0, 0));
    }
    assert lines[..|lines|] == lines;
    pi := ProblemInput(lines, start, goal);
  }

  /** SolvePart1: the least score in decimal, "-1" when the goal cannot be
      reached; None when the maze is not rectangular. */
  method SolvePart1(input: string) returns (answer: Option<string>)
    ensures var pi := Parsed(Split(TrimSpace(input), '\n'));
      answer.Some? <==> Rectangular(pi.maze)
    ensures var pi := Parsed(Split(TrimSpace(input), '\n'));
      answer.Some? ==>
        (answer == Some("-1") && Unreachable(Moves(pi.maze), pi.start, pi.goal)) ||
        (exists s :: s >= 0 && answer == Some(Itoa(s)) && IsLeastScore(Moves(pi.maze), pi.start, pi.goal, s))
  {
    var pi := ParseInput(input);
    if !Rectangular(pi.maze) {
      return None;
    }
    MovesPositive(pi.maze);
    UniverseClosed(pi);
    UniverseMember(pi, pi.start);
    var score, _ := Solve(pi, Moves(pi.maze), Universe(pi));
    answer := Some(Itoa(score));
    if score == -1 {
      assert Itoa(score) == "-1";
    }
  }
}
