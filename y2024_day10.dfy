/** 2024/day10: a topographic map of heights. A trail starts at a height 0
    cell and climbs by exactly one height per orthogonal step up to a height
    9 cell. Part 1 scores a trailhead by the distinct peaks it reaches, part
    2 by the number of trails; each answer sums the scores of all
    trailheads. */
module Y2024Day10 {
  import opened Text

  /** The heights, row by row. */
  type Topology = seq<seq<int>>

  datatype Point = Point(row: int, col: int)

  /** pi.IsInBounds measures every column against the width of row 0, so
      the model asks for rows of one width. */
  predicate Rectangular(topo: Topology) {
    forall r :: 0 <= r < |topo| ==> |topo[r]| == |topo[0]|
  }

  /** pi.IsInBounds */
  predicate IsInBounds(topo: Topology, p: Point) {
    0 <= p.row < |topo| && 0 <= p.col < |topo[0]|
  }

  /** The largest height of the map (0 for a map without cells). */
  function RowMax(row: seq<int>): int {
    if row == [] then 0 else if row[0] > RowMax(row[1..]) then row[0] else RowMax(row[1..])
  }

  function TopMax(topo: Topology): int {
    if topo == [] then 0 else if RowMax(topo[0]) > TopMax(topo[1..]) then RowMax(topo[0]) else TopMax(topo[1..])
  }

  lemma {:induction false} RowMaxBound(row: seq<int>, c: nat)
    requires c < |row|
    ensures row[c] <= RowMax(row)
  {
    if c > 0 {
      RowMaxBound(row[1..], c - 1);
    }
  }

  lemma {:induction false} TopMaxBound(topo: Topology, r: nat, c: nat)
    requires r < |topo| && c < |topo[r]|
    ensures topo[r][c] <= TopMax(topo)
  {
    if r == 0 {
      RowMaxBound(topo[0], c);
    } else {
      TopMaxBound(topo[1..], r - 1, c);
    }
  }

  /** The height of an in-bounds point; no height exceeds TopMax. */
  function Height(topo: Topology, p: Point): (h: int)
    requires Rectangular(topo) && IsInBounds(topo, p)
    ensures h <= TopMax(topo)
  {
    TopMaxBound(topo, p.row, p.col);
    topo[p.row][p.col]
  }

  /** How many more climbing steps a height leaves at most: every step
      raises the height by one, and no height exceeds TopMax. */
  function Rank(topo: Topology, h: int): nat {
    if h <= TopMax(topo) + 1 then TopMax(topo) + 1 - h else 0
  }

  // ---------------------------------------------------------------------
  // GetPossibleMoves

  /** The moves tried, in order: up, down, left, right. */
  const Offsets: seq<Point> := [Point(-1, 0), Point(1, 0), Point(0, -1), Point(0, 1)]

  function Neighbour(p: Point, k: nat): Point
    requires k < |Offsets|
  {
    Point(p.row + Offsets[k].row, p.col + Offsets[k].col)
  }

  /** q is one orthogonal step away from p. */
  predicate Adjacent(p: Point, q: Point) {
    || (q.row == p.row && (q.col == p.col - 1 || q.col == p.col + 1))
    || (q.col == p.col && (q.row == p.row - 1 || q.row == p.row + 1))
  }

  /** A trail may go from p to q: q is in bounds and one height higher. */
  predicate Climbs(topo: Topology, p: Point, q: Point)
    requires Rectangular(topo) && IsInBounds(topo, p)
  {
    IsInBounds(topo, q) && Height(topo, q) == Height(topo, p) + 1
  }

  /** The moves kept among the first k tried. */
  function MovesUpTo(topo: Topology, p: Point, k: nat): (r: seq<Point>)
    requires Rectangular(topo) && IsInBounds(topo, p) && k <= |Offsets|
    ensures forall q :: q in r ==> Climbs(topo, p, q)
  {
    if k == 0 then []
    else MovesUpTo(topo, p, k - 1) + (if Climbs(topo, p, Neighbour(p, k - 1)) then [Neighbour(p, k - 1)] else [])
  }

  /** The moves GetPossibleMoves returns. */
  function Moves(topo: Topology, p: Point): seq<Point>
    requires Rectangular(topo) && IsInBounds(topo, p)
  {
    MovesUpTo(topo, p, |Offsets|)
  }

  lemma {:induction false} MovesUpToMeaning(topo: Topology, p: Point, k: nat, q: Point)
    requires Rectangular(topo) && IsInBounds(topo, p) && k <= |Offsets|
    ensures q in MovesUpTo(topo, p, k) <==> (exists i :: 0 <= i < k && q == Neighbour(p, i)) && Climbs(topo, p, q)
    ensures |MovesUpTo(topo, p, k)| <= k
  {
    if k > 0 {
      MovesUpToMeaning(topo, p, k - 1, q);
    }
  }

  /** GetPossibleMoves keeps exactly the in-bounds orthogonal neighbours
      one height higher, at most four of them. */
  lemma MovesMeaning(topo: Topology, p: Point, q: Point)
    requires Rectangular(topo) && IsInBounds(topo, p)
    ensures q in Moves(topo, p) <==> Adjacent(p, q) && Climbs(topo, p, q)
    ensures |Moves(topo, p)| <= 4
  {
    MovesUpToMeaning(topo, p, |Offsets|, q);
    if Adjacent(p, q) {
      if q.row == p.row - 1 {
        assert q == Neighbour(p, 0);
      } else if q.row == p.row + 1 {
        assert q == Neighbour(p, 1);
      } else if q.col == p.col - 1 {
        assert q == Neighbour(p, 2);
      } else {
        assert q == Neighbour(p, 3);
      }
    }
  }

  /** pi.GetPossibleMoves; h is passed by the callers and not read. */
  method GetPossibleMoves(topo: Topology, th: Point, h: int) returns (possibleMoves: seq<Point>)
    requires Rectangular(topo) && IsInBounds(topo, th)
    ensures possibleMoves == Moves(topo, th)
  {
    possibleMoves := [];
    var height := topo[th.row][th.col];
    var moves := Offsets;
    for k := 0 to |moves|
      invariant possibleMoves == MovesUpTo(topo, th, k)
    {
      var move := moves[k];
      var possibleNextPoint := Point(th.row + move.row, th.col + move.col);
      assert possibleNextPoint == Neighbour(th, k);
      if !IsInBounds(topo, possibleNextPoint) {
        assert !Climbs(topo, th, possibleNextPoint);
        continue;
      }
      var nextHeight := topo[possibleNextPoint.row][possibleNextPoint.col];
      if nextHeight == height + 1 {
        assert Climbs(topo, th, possibleNextPoint);
        possibleMoves := possibleMoves + [possibleNextPoint];
      } else {
        assert !Climbs(topo, th, possibleNextPoint);
      }
    }
  }

  // ---------------------------------------------------------------------
  // ScoreTrailheadPart2 and GetReachablePeaks

  /** Every point of ps is in bounds at height h. */
  predicate AllAt(topo: Topology, ps: seq<Point>, h: int)
    requires Rectangular(topo)
  {
    forall q :: q in ps ==> IsInBounds(topo, q) && Height(topo, q) == h
  }

  /** ScoreTrailheadPart2's value: 1 at height 9, otherwise the sum over
      the moves. */
  function Paths(topo: Topology, p: Point): nat
    requires Rectangular(topo) && IsInBounds(topo, p)
    decreases Rank(topo, Height(topo, p)), 0, 0
  {
    if Height(topo, p) == 9 then 1 else PathsAll(topo, Moves(topo, p), Height(topo, p) + 1)
  }

  /** The sum of Paths over ps, all at height h. */
  function PathsAll(topo: Topology, ps: seq<Point>, h: int): nat
    requires Rectangular(topo) && AllAt(topo, ps, h)
    decreases Rank(topo, h), 1, |ps|
  {
    if ps == [] then 0 else PathsAll(topo, ps[..|ps| - 1], h) + Paths(topo, ps[|ps| - 1])
  }

  /** GetReachablePeaks' value: [p] at height 9, otherwise the peaks of the
      moves, one after the other. */
  function Peaks(topo: Topology, p: Point): seq<Point>
    requires Rectangular(topo) && IsInBounds(topo, p)
    decreases Rank(topo, Height(topo, p)), 0, 0
  {
    if Height(topo, p) == 9 then [p] else PeaksAll(topo, Moves(topo, p), Height(topo, p) + 1)
  }

  function PeaksAll(topo: Topology, ps: seq<Point>, h: int): seq<Point>
    requires Rectangular(topo) && AllAt(topo, ps, h)
    decreases Rank(topo, h), 1, |ps|
  {
    if ps == [] then [] else PeaksAll(topo, ps[..|ps| - 1], h) + Peaks(topo, ps[|ps| - 1])
  }

  /** pi.ScoreTrailheadPart2 */
  method ScoreTrailheadPart2(topo: Topology, th: Point) returns (score: nat)
    requires Rectangular(topo) && IsInBounds(topo, th)
    ensures score == Paths(topo, th) == |Trails(topo, th)|
    decreases Rank(topo, Height(topo, th))
  {
    TrailsCount(topo, th);
    score := 0;
    var height := topo[th.row][th.col];
    if height == 9 {
      return 1;
    }
    var moves := GetPossibleMoves(topo, th, height);
    assert AllAt(topo, moves, height + 1);
    for i := 0 to |moves|
      invariant score == PathsAll(topo, moves[..i], height + 1)
    {
      var nextScore := ScoreTrailheadPart2(topo, moves[i]);
      assert moves[..i + 1][..i] == moves[..i];
      score := score + nextScore;
    }
    assert moves[..|moves|] == moves;
  }

  /** pi.GetReachablePeaks */
  method GetReachablePeaks(topo: Topology, p: Point) returns (peaks: seq<Point>)
    requires Rectangular(topo) && IsInBounds(topo, p)
    ensures peaks == Peaks(topo, p)
    decreases Rank(topo, Height(topo, p))
  {
    peaks := [];
    var height := topo[p.row][p.col];
    if height == 9 {
      return [p];
    }
    var moves := GetPossibleMoves(topo, p, height);
    assert AllAt(topo, moves, height + 1);
    for i := 0 to |moves|
      invariant peaks == PeaksAll(topo, moves[..i], height + 1)
    {
      var more := GetReachablePeaks(topo, moves[i]);
      assert moves[..i + 1][..i] == moves[..i];
      peaks := peaks + more;
    }
    assert moves[..|moves|] == moves;
  }

  // ---------------------------------------------------------------------
  // What the scores count

  /** There is one peak per path: len(GetReachablePeaks(p)) equals
      ScoreTrailheadPart2(p). */
  lemma {:induction false} PeaksCount(topo: Topology, p: Point)
    requires Rectangular(topo) && IsInBounds(topo, p)
    ensures |Peaks(topo, p)| == Paths(topo, p)
    decreases Rank(topo, Height(topo, p)), 0, 0
  {
    if Height(topo, p) != 9 {
      PeaksAllCount(topo, Moves(topo, p), Height(topo, p) + 1);
    }
  }

  lemma {:induction false} PeaksAllCount(topo: Topology, ps: seq<Point>, h: int)
    requires Rectangular(topo) && AllAt(topo, ps, h)
    ensures |PeaksAll(topo, ps, h)| == PathsAll(topo, ps, h)
    decreases Rank(topo, h), 1, |ps|
  {
    if ps != [] {
      PeaksAllCount(topo, ps[..|ps| - 1], h);
      PeaksCount(topo, ps[|ps| - 1]);
    }
  }

  /** A trail: in-bounds points, each an orthogonal step from the one
      before and one height higher. */
  predicate Trail(topo: Topology, path: seq<Point>)
    requires Rectangular(topo)
  {
    && |path| >= 1
    && (forall i :: 0 <= i < |path| ==> IsInBounds(topo, path[i]))
    && forall i :: 0 <= i < |path| - 1 ==> Adjacent(path[i], path[i + 1]) && Height(topo, path[i + 1]) == Height(topo, path[i]) + 1
  }

  lemma TrailCons(topo: Topology, p: Point, path: seq<Point>)
    requires Rectangular(topo) && IsInBounds(topo, p) && Trail(topo, path)
    requires Adjacent(p, path[0]) && Height(topo, path[0]) == Height(topo, p) + 1
    ensures Trail(topo, [p] + path)
  {
    var t := [p] + path;
    forall i | 0 <= i < |t| - 1
      ensures Adjacent(t[i], t[i + 1]) && Height(topo, t[i + 1]) == Height(topo, t[i]) + 1
    {
      if i > 0 {
        assert t[i] == path[i - 1] && t[i + 1] == path[i];
      }
    }
  }

  /** A point of PeaksAll comes from the peaks of one of ps. */
  lemma {:induction false} PeaksAllSound(topo: Topology, ps: seq<Point>, h: int, q: Point) returns (m: Point)
    requires Rectangular(topo) && AllAt(topo, ps, h) && q in PeaksAll(topo, ps, h)
    ensures m in ps && q in Peaks(topo, m)
  {
    if q in Peaks(topo, ps[|ps| - 1]) {
      m := ps[|ps| - 1];
    } else {
      m := PeaksAllSound(topo, ps[..|ps| - 1], h, q);
    }
  }

  /** The peaks of each of ps are among those of PeaksAll. */
  lemma {:induction false} PeaksAllComplete(topo: Topology, ps: seq<Point>, h: int, m: Point, q: Point)
    requires Rectangular(topo) && AllAt(topo, ps, h) && m in ps && q in Peaks(topo, m)
    ensures q in PeaksAll(topo, ps, h)
  {
    if m != ps[|ps| - 1] {
      PeaksAllComplete(topo, ps[..|ps| - 1], h, m, q);
    }
  }

  /** Each peak GetReachablePeaks lists ends a trail from p and has height 9. */
  lemma {:induction false} PeakTrail(topo: Topology, p: Point, q: Point) returns (path: seq<Point>)
    requires Rectangular(topo) && IsInBounds(topo, p) && q in Peaks(topo, p)
    ensures Trail(topo, path) && path[0] == p && path[|path| - 1] == q
    ensures Height(topo, q) == 9
    decreases Rank(topo, Height(topo, p))
  {
    if Height(topo, p) == 9 {
      path := [p];
    } else {
      var m := PeaksAllSound(topo, Moves(topo, p), Height(topo, p) + 1, q);
      MovesMeaning(topo, p, m);
      var rest := PeakTrail(topo, m, q);
      TrailCons(topo, p, rest);
      path := [p] + rest;
    }
  }

  /** Every trail from p to a height 9 point ends at a peak
      GetReachablePeaks lists. */
  lemma {:induction false} TrailPeak(topo: Topology, path: seq<Point>)
    requires Rectangular(topo) && Trail(topo, path) && Height(topo, path[|path| - 1]) == 9
    ensures path[|path| - 1] in Peaks(topo, path[0])
    decreases |path|
  {
    var p := path[0];
    TrailHeights(topo, path, |path| - 1);
    if |path| > 1 {
      var m := path[1];
      MovesMeaning(topo, p, m);
      TrailTail(topo, path);
      TrailPeak(topo, path[1..]);
      PeaksAllComplete(topo, Moves(topo, p), Height(topo, p) + 1, m, path[|path| - 1]);
    }
  }

  /** Along a trail, heights go up by one per step. */
  lemma {:induction false} TrailHeights(topo: Topology, path: seq<Point>, i: nat)
    requires Rectangular(topo) && Trail(topo, path) && i < |path|
    ensures Height(topo, path[i]) == Height(topo, path[0]) + i
  {
    if i > 0 {
      TrailHeights(topo, path, i - 1);
    }
  }

  /** Dropping the first point of a trail leaves a trail. */
  lemma TrailTail(topo: Topology, path: seq<Point>)
    requires Rectangular(topo) && Trail(topo, path) && |path| > 1
    ensures Trail(topo, path[1..])
  {
    forall i | 0 <= i < |path[1..]| - 1
      ensures Adjacent(path[1..][i], path[1..][i + 1]) && Height(topo, path[1..][i + 1]) == Height(topo, path[1..][i]) + 1
    {
      assert path[1..][i] == path[i + 1] && path[1..][i + 1] == path[i + 2];
    }
  }

  // ---------------------------------------------------------------------
  // The trails the part 2 score counts

  /** p in front of each of ts. */
  function Prepend(p: Point, ts: seq<seq<Point>>): (r: seq<seq<Point>>)
    ensures |r| == |ts| && forall i :: 0 <= i < |ts| ==> r[i] == [p] + ts[i]
  {
    seq(|ts|, i requires 0 <= i < |ts| => [p] + ts[i])
  }

  /** The trails the recursion of ScoreTrailheadPart2 walks from p, one per
      unit it adds: [p] at height 9, otherwise p in front of the trails of
      each move, in the order of the moves. */
  function Trails(topo: Topology, p: Point): seq<seq<Point>>
    requires Rectangular(topo) && IsInBounds(topo, p)
    decreases Rank(topo, Height(topo, p)), 0, 0
  {
    if Height(topo, p) == 9 then [[p]] else Prepend(p, TrailsAll(topo, Moves(topo, p), Height(topo, p) + 1))
  }

  function TrailsAll(topo: Topology, ps: seq<Point>, h: int): seq<seq<Point>>
    requires Rectangular(topo) && AllAt(topo, ps, h)
    decreases Rank(topo, h), 1, |ps|
  {
    if ps == [] then [] else TrailsAll(topo, ps[..|ps| - 1], h) + Trails(topo, ps[|ps| - 1])
  }

  /** The part 2 score of p is the number of trails listed from p. */
  lemma {:induction false} TrailsCount(topo: Topology, p: Point)
    requires Rectangular(topo) && IsInBounds(topo, p)
    ensures |Trails(topo, p)| == Paths(topo, p)
    decreases Rank(topo, Height(topo, p)), 0, 0
  {
    if Height(topo, p) != 9 {
      TrailsAllCount(topo, Moves(topo, p), Height(topo, p) + 1);
    }
  }

  lemma {:induction false} TrailsAllCount(topo: Topology, ps: seq<Point>, h: int)
    requires Rectangular(topo) && AllAt(topo, ps, h)
    ensures |TrailsAll(topo, ps, h)| == PathsAll(topo, ps, h)
    decreases Rank(topo, h), 1, |ps|
  {
    if ps != [] {
      TrailsAllCount(topo, ps[..|ps| - 1], h);
      TrailsCount(topo, ps[|ps| - 1]);
    }
  }

  /** A trail from p that ends at height 9. */
  predicate TrailToPeak(topo: Topology, p: Point, t: seq<Point>)
    requires Rectangular(topo)
  {
    Trail(topo, t) && t[0] == p && Height(topo, t[|t| - 1]) == 9
  }

  /** Every trail listed from p is a trail from p that ends at height 9. */
  lemma {:induction false} TrailsSound(topo: Topology, p: Point)
    requires Rectangular(topo) && IsInBounds(topo, p)
    ensures forall t :: t in Trails(topo, p) ==> TrailToPeak(topo, p, t)
    decreases Rank(topo, Height(topo, p)), 0, 0
  {
    if Height(topo, p) != 9 {
      var ps := Moves(topo, p);
      var ts := TrailsAll(topo, ps, Height(topo, p) + 1);
      TrailsAllSound(topo, ps, Height(topo, p) + 1);
      forall i | 0 <= i < |ts|
        ensures TrailToPeak(topo, p, [p] + ts[i])
      {
        assert ts[i] in ts;
        MovesMeaning(topo, p, ts[i][0]);
        TrailCons(topo, p, ts[i]);
        assert ([p] + ts[i])[|[p] + ts[i]| - 1] == ts[i][|ts[i]| - 1];
      }
    }
  }

  lemma {:induction false} TrailsAllSound(topo: Topology, ps: seq<Point>, h: int)
    requires Rectangular(topo) && AllAt(topo, ps, h)
    ensures forall t :: t in TrailsAll(topo, ps, h) ==> t != [] && t[0] in ps && TrailToPeak(topo, t[0], t)
    decreases Rank(topo, h), 1, |ps|
  {
    if ps != [] {
      TrailsAllSound(topo, ps[..|ps| - 1], h);
      TrailsSound(topo, ps[|ps| - 1]);
    }
  }

  /** Every trail from p that ends at height 9 is listed from p. */
  lemma {:induction false} TrailsComplete(topo: Topology, p: Point, t: seq<Point>)
    requires Rectangular(topo) && IsInBounds(topo, p) && TrailToPeak(topo, p, t)
    ensures t in Trails(topo, p)
    decreases |t|
  {
    TrailHeights(topo, t, |t| - 1);
    if |t| == 1 {
      assert t == [p];
    } else {
      var m := t[1];
      TrailTail(topo, t);
      MovesMeaning(topo, p, m);
      TrailsComplete(topo, m, t[1..]);
      var ts := TrailsAll(topo, Moves(topo, p), Height(topo, p) + 1);
      TrailsAllComplete(topo, Moves(topo, p), Height(topo, p) + 1, m, t[1..]);
      var i :| 0 <= i < |ts| && ts[i] == t[1..];
      assert Prepend(p, ts)[i] == t;
    }
  }

  lemma {:induction false} TrailsAllComplete(topo: Topology, ps: seq<Point>, h: int, m: Point, t: seq<Point>)
    requires Rectangular(topo) && AllAt(topo, ps, h) && m in ps && t in Trails(topo, m)
    ensures t in TrailsAll(topo, ps, h)
  {
    if m != ps[|ps| - 1] {
      TrailsAllComplete(topo, ps[..|ps| - 1], h, m, t);
    }
  }

  predicate NoDuplicates<T(==)>(s: seq<T>) {
    forall i, j :: 0 <= i < j < |s| ==> s[i] != s[j]
  }

  /** The four neighbours tried are four different points. */
  lemma {:induction false} MovesUpToDistinct(topo: Topology, p: Point, k: nat)
    requires Rectangular(topo) && IsInBounds(topo, p) && k <= |Offsets|
    ensures NoDuplicates(MovesUpTo(topo, p, k))
  {
    if k > 0 {
      MovesUpToDistinct(topo, p, k - 1);
      var q := Neighbour(p, k - 1);
      forall i | 0 <= i < k - 1
        ensures q != Neighbour(p, i)
      {
      }
      MovesUpToMeaning(topo, p, k - 1, q);
    }
  }

  /** Two lists without duplicates and with no entry in common make one. */
  lemma AppendDistinct<T>(a: seq<T>, b: seq<T>)
    requires NoDuplicates(a) && NoDuplicates(b) && forall x :: x in a ==> x !in b
    ensures NoDuplicates(a + b)
  {
    var s := a + b;
    forall i, j | 0 <= i < j < |s|
      ensures s[i] != s[j]
    {
      if j < |a| {
        assert s[i] == a[i] && s[j] == a[j];
      } else if i >= |a| {
        assert s[i] == b[i - |a|] && s[j] == b[j - |a|];
      } else {
        assert s[i] in a && s[j] in b;
      }
    }
  }

  /** No trail is listed twice, so the part 2 score counts distinct trails. */
  lemma {:induction false} TrailsDistinct(topo: Topology, p: Point)
    requires Rectangular(topo) && IsInBounds(topo, p)
    ensures NoDuplicates(Trails(topo, p))
    decreases Rank(topo, Height(topo, p)), 0, 0
  {
    if Height(topo, p) != 9 {
      MovesUpToDistinct(topo, p, |Offsets|);
      var ts := TrailsAll(topo, Moves(topo, p), Height(topo, p) + 1);
      TrailsAllDistinct(topo, Moves(topo, p), Height(topo, p) + 1);
      forall i, j | 0 <= i < j < |ts|
        ensures [p] + ts[i] != [p] + ts[j]
      {
        assert ([p] + ts[i])[1..] == ts[i] && ([p] + ts[j])[1..] == ts[j];
      }
    }
  }

  lemma {:induction false} TrailsAllDistinct(topo: Topology, ps: seq<Point>, h: int)
    requires Rectangular(topo) && AllAt(topo, ps, h) && NoDuplicates(ps)
    ensures NoDuplicates(TrailsAll(topo, ps, h))
    decreases Rank(topo, h), 1, |ps|
  {
    if ps != [] {
      var init, last := ps[..|ps| - 1], ps[|ps| - 1];
      TrailsAllDistinct(topo, init, h);
      TrailsDistinct(topo, last);
      TrailsAllSound(topo, init, h);
      TrailsSound(topo, last);
      forall t | t in TrailsAll(topo, init, h)
        ensures t !in Trails(topo, last)
      {
        assert last !in init by {
          forall i | 0 <= i < |init|
            ensures init[i] != last
          {
            assert init[i] == ps[i];
          }
        }
      }
      AppendDistinct(TrailsAll(topo, init, h), Trails(topo, last));
    }
  }

  /** The i-th peak is the end of the i-th trail. */
  predicate EndsOf(peaks: seq<Point>, ts: seq<seq<Point>>) {
    |peaks| == |ts| && forall i :: 0 <= i < |ts| ==> ts[i] != [] && peaks[i] == ts[i][|ts[i]| - 1]
  }

  lemma EndsOfAppend(a: seq<Point>, s: seq<seq<Point>>, b: seq<Point>, u: seq<seq<Point>>)
    requires EndsOf(a, s) && EndsOf(b, u)
    ensures EndsOf(a + b, s + u)
  {
    forall i | 0 <= i < |s + u|
      ensures (s + u)[i] != [] && (a + b)[i] == (s + u)[i][|(s + u)[i]| - 1]
    {
      if i >= |s| {
        assert (s + u)[i] == u[i - |s|] && (a + b)[i] == b[i - |s|];
      }
    }
  }

  /** GetReachablePeaks lists, one for one and in order, the ends of the
      trails the part 2 score counts: one peak per trail. */
  lemma {:induction false} PeaksEndTrails(topo: Topology, p: Point)
    requires Rectangular(topo) && IsInBounds(topo, p)
    ensures EndsOf(Peaks(topo, p), Trails(topo, p))
    decreases Rank(topo, Height(topo, p)), 0, 0
  {
    if Height(topo, p) != 9 {
      var ts := TrailsAll(topo, Moves(topo, p), Height(topo, p) + 1);
      PeaksAllEndTrails(topo, Moves(topo, p), Height(topo, p) + 1);
      forall i | 0 <= i < |ts|
        ensures ([p] + ts[i])[|[p] + ts[i]| - 1] == ts[i][|ts[i]| - 1]
      {
      }
    }
  }

  lemma {:induction false} PeaksAllEndTrails(topo: Topology, ps: seq<Point>, h: int)
    requires Rectangular(topo) && AllAt(topo, ps, h)
    ensures EndsOf(PeaksAll(topo, ps, h), TrailsAll(topo, ps, h))
    decreases Rank(topo, h), 1, |ps|
  {
    if ps != [] {
      PeaksAllEndTrails(topo, ps[..|ps| - 1], h);
      PeaksEndTrails(topo, ps[|ps| - 1]);
      EndsOfAppend(PeaksAll(topo, ps[..|ps| - 1], h), TrailsAll(topo, ps[..|ps| - 1], h),
                   Peaks(topo, ps[|ps| - 1]), Trails(topo, ps[|ps| - 1]));
    }
  }

  /** What the part 2 score counts: the trails listed from p are exactly the
      trails from p that end at height 9, none twice, and there are as many
      as the score. */
  lemma PathsCountTrails(topo: Topology, p: Point)
    requires Rectangular(topo) && IsInBounds(topo, p)
    ensures forall t :: t in Trails(topo, p) <==> TrailToPeak(topo, p, t)
    ensures NoDuplicates(Trails(topo, p))
    ensures Paths(topo, p) == |Trails(topo, p)|
  {
    TrailsSound(topo, p);
    forall t | TrailToPeak(topo, p, t)
      ensures t in Trails(topo, p)
    {
      TrailsComplete(topo, p, t);
    }
    TrailsDistinct(topo, p);
    TrailsCount(topo, p);
  }

  // ---------------------------------------------------------------------
  // ScoreTrailheadPart1

  /** The distinct points of a list. */
  function Distinct(s: seq<Point>): set<Point> {
    set q | q in s
  }

  lemma {:induction false} DistinctAtMost(s: seq<Point>)
    ensures |Distinct(s)| <= |s|
  {
    if s != [] {
      var init := s[..|s| - 1];
      DistinctAtMost(init);
      assert Distinct(s) == Distinct(init) + {s[|s| - 1]};
    }
  }

  /** pi.ScoreTrailheadPart1: the peaks, counted once each with a seen map. */
  method ScoreTrailheadPart1(topo: Topology, th: Point) returns (score: nat)
    requires Rectangular(topo) && IsInBounds(topo, th)
    ensures score == |Distinct(Peaks(topo, th))|
  {
    score := 0;
    var peaks := GetReachablePeaks(topo, th);
    var seen: map<Point, bool> := map[];
    for i := 0 to |peaks|
      invariant seen.Keys == Distinct(peaks[..i])
      invariant forall q :: q in seen ==> seen[q]
      invariant score == |seen.Keys|
    {
      var peak := peaks[i];
      assert Distinct(peaks[..i + 1]) == Distinct(peaks[..i]) + {peak} by {
        assert peaks[..i + 1] == peaks[..i] + [peak];
      }
      var ok := peak in seen && seen[peak];
      if !ok {
        assert seen[peak := true].Keys == seen.Keys + {peak};
        seen := seen[peak := true];
        score := score + 1;
      }
    }
    assert peaks[..|peaks|] == peaks;
  }

  /** Part 1 never scores a trailhead above part 2. */
  lemma Part1AtMostPart2(topo: Topology, th: Point)
    requires Rectangular(topo) && IsInBounds(topo, th)
    ensures |Distinct(Peaks(topo, th))| <= Paths(topo, th)
  {
    DistinctAtMost(Peaks(topo, th));
    PeaksCount(topo, th);
  }

  // ---------------------------------------------------------------------
  // ScoreTopology

  datatype ProblemInput = ProblemInput(topology: Topology, trailheads: seq<Point>)

  predicate TrailheadsInBounds(pi: ProblemInput) {
    Rectangular(pi.topology) && forall k :: 0 <= k < |pi.trailheads| ==> IsInBounds(pi.topology, pi.trailheads[k])
  }

  function TrailheadScore(topo: Topology, th: Point, part1: bool): nat
    requires Rectangular(topo) && IsInBounds(topo, th)
  {
    if part1 then |Distinct(Peaks(topo, th))| else Paths(topo, th)
  }

  /** The sum of the scores of the first n trailheads. */
  function TotalScore(pi: ProblemInput, n: nat, part1: bool): nat
    requires TrailheadsInBounds(pi) && n <= |pi.trailheads|
  {
    if n == 0 then 0 else TotalScore(pi, n - 1, part1) + TrailheadScore(pi.topology, pi.trailheads[n - 1], part1)
  }

  /** pi.ScoreTopology */
  method ScoreTopology(pi: ProblemInput, part1: bool) returns (score: nat)
    requires TrailheadsInBounds(pi)
    ensures score == TotalScore(pi, |pi.trailheads|, part1)
  {
    score := 0;
    for k := 0 to |pi.trailheads|
      invariant score == TotalScore(pi, k, part1)
    {
      var th := pi.trailheads[k];
      var s;
      if part1 {
        s := ScoreTrailheadPart1(pi.topology, th);
      } else {
        s := ScoreTrailheadPart2(pi.topology, th);
      }
      score := score + s;
    }
  }

  /** Part 1 never totals above part 2. */
  lemma {:induction false} TotalPart1AtMostPart2(pi: ProblemInput, n: nat)
    requires TrailheadsInBounds(pi) && n <= |pi.trailheads|
    ensures TotalScore(pi, n, true) <= TotalScore(pi, n, false)
  {
    if n > 0 {
      TotalPart1AtMostPart2(pi, n - 1);
      Part1AtMostPart2(pi.topology, pi.trailheads[n - 1]);
    }
  }

  // ---------------------------------------------------------------------
  // parseInput

  /** int(element - '0') for each character of a line. */
  function RowHeights(line: string): (r: seq<int>)
    ensures |r| == |line| && forall j :: 0 <= j < |line| ==> r[j] == line[j] as int - '0' as int
  {
    seq(|line|, j requires 0 <= j < |line| => line[j] as int - '0' as int)
  }

  function Heights(lines: seq<string>): (t: Topology)
    ensures |t| == |lines| && forall i :: 0 <= i < |lines| ==> t[i] == RowHeights(lines[i])
  {
    seq(|lines|, i requires 0 <= i < |lines| => RowHeights(lines[i]))
  }

  /** The '0' cells of line r before column j, left to right. */
  function RowZeros(line: string, r: int, j: nat): seq<Point>
    requires j <= |line|
  {
    if j == 0 then [] else RowZeros(line, r, j - 1) + (if line[j - 1] == '0' then [Point(r, j - 1)] else [])
  }

  /** The '0' cells of the first i lines, in row-major order. */
  function Zeros(lines: seq<string>, i: nat): seq<Point>
    requires i <= |lines|
  {
    if i == 0 then [] else Zeros(lines, i - 1) + RowZeros(lines[i - 1], i - 1, |lines[i - 1]|)
  }

  /** Row-major order: earlier row, or same row and earlier column. */
  predicate Before(a: Point, b: Point) {
    a.row < b.row || (a.row == b.row && a.col < b.col)
  }

  predicate RowMajor(s: seq<Point>) {
    forall a, b :: 0 <= a < b < |s| ==> Before(s[a], s[b])
  }

  lemma {:induction false} RowZerosMeaning(line: string, r: int, j: nat, p: Point)
    requires j <= |line|
    ensures p in RowZeros(line, r, j) <==> p.row == r && 0 <= p.col < j && line[p.col] == '0'
  {
    if j > 0 {
      RowZerosMeaning(line, r, j - 1, p);
    }
  }

  lemma {:induction false} ZerosMeaning(lines: seq<string>, i: nat, p: Point)
    requires i <= |lines|
    ensures p in Zeros(lines, i) <==> 0 <= p.row < i && 0 <= p.col < |lines[p.row]| && lines[p.row][p.col] == '0'
  {
    if i > 0 {
      ZerosMeaning(lines, i - 1, p);
      RowZerosMeaning(lines[i - 1], i - 1, |lines[i - 1]|, p);
    }
  }

  lemma RowMajorAppend(a: seq<Point>, b: seq<Point>)
    requires RowMajor(a) && RowMajor(b)
    requires forall x, y :: x in a && y in b ==> Before(x, y)
    ensures RowMajor(a + b)
  {
    var s := a + b;
    forall i, k | 0 <= i < k < |s|
      ensures Before(s[i], s[k])
    {
      if k < |a| {
        assert s[i] == a[i] && s[k] == a[k];
      } else if i >= |a| {
        assert s[i] == b[i - |a|] && s[k] == b[k - |a|];
      } else {
        assert s[i] in a && s[k] in b;
      }
    }
  }

  lemma {:induction false} RowZerosSorted(line: string, r: int, j: nat)
    requires j <= |line|
    ensures RowMajor(RowZeros(line, r, j))
  {
    if j > 0 {
      RowZerosSorted(line, r, j - 1);
      var tail := if line[j - 1] == '0' then [Point(r, j - 1)] else [];
      forall x, y | x in RowZeros(line, r, j - 1) && y in tail
        ensures Before(x, y)
      {
        RowZerosMeaning(line, r, j - 1, x);
      }
      RowMajorAppend(RowZeros(line, r, j - 1), tail);
    }
  }

  /** The trailheads are listed in row-major order. */
  lemma {:induction false} ZerosSorted(lines: seq<string>, i: nat)
    requires i <= |lines|
    ensures RowMajor(Zeros(lines, i))
  {
    if i > 0 {
      ZerosSorted(lines, i - 1);
      RowZerosSorted(lines[i - 1], i - 1, |lines[i - 1]|);
      forall x, y | x in Zeros(lines, i - 1) && y in RowZeros(lines[i - 1], i - 1, |lines[i - 1]|)
        ensures Before(x, y)
      {
        ZerosMeaning(lines, i - 1, x);
        RowZerosMeaning(lines[i - 1], i - 1, |lines[i - 1]|, y);
      }
      RowMajorAppend(Zeros(lines, i - 1), RowZeros(lines[i - 1], i - 1, |lines[i - 1]|));
    }
  }

  /** The lines parseInput reads. */
  function Lines(input: string): seq<string> {
    Split(TrimSpace(input), '\n')
  }

  /** What parseInput builds from a list of lines. */
  function Parsed(lines: seq<string>): ProblemInput {
    ProblemInput(Heights(lines), Zeros(lines, |lines|))
  }

  /** parseInput: the heights row by row, and the '0' cells as
      trailheads in row-major order. */
  method ParseInput(input: string) returns (pi: ProblemInput)
    ensures pi == Parsed(Lines(input))
  {
    var lines := Split(TrimSpace(input), '\n');
    pi := ParseLines(lines);
  }

  /** The loops of parseInput over the lines. */
  method ParseLines(lines: seq<string>) returns (pi: ProblemInput)
    ensures pi == Parsed(lines)
  {
    var topology: Topology := [];
    var trailheads: seq<Point> := [];
    for i := 0 to |lines|
      invariant topology == Heights(lines)[..i]
      invariant trailheads == Zeros(lines, i)
    {
      var heights;
      heights, trailheads := ParseRow(lines[i], i, trailheads);
      HeightsPrefix(lines, i);
      topology := topology + [heights];
    }
    assert Heights(lines)[..|lines|] == Heights(lines);
    pi := ProblemInput(topology, trailheads);
  }

  /** The inner loop of parseInput over one line: its heights, and its '0'
      cells appended to the trailheads. */
  method ParseRow(row: string, i: int, start: seq<Point>) returns (heights: seq<int>, trailheads: seq<Point>)
    ensures heights == RowHeights(row)
    ensures trailheads == start + RowZeros(row, i, |row|)
  {
    heights := [];
    trailheads := start;
    for j := 0 to |row|
      invariant |heights| == j && forall k :: 0 <= k < j ==> heights[k] == row[k] as int - '0' as int
      invariant trailheads == start + RowZeros(row, i, j)
    {
      var element := row[j];
      heights := heights + [element as int - '0' as int];
      if element == '0' {
        trailheads := trailheads + [Point(i, j)];
      }
    }
  }

  lemma HeightsPrefix(lines: seq<string>, i: nat)
    requires i < |lines|
    ensures Heights(lines)[..i + 1] == Heights(lines)[..i] + [RowHeights(lines[i])]
  {
    var h := Heights(lines);
    assert h[..i + 1] == h[..i] + [h[i]];
  }

  /** With rows of one width every trailhead is in bounds. */
  lemma ParsedInBounds(lines: seq<string>)
    requires Rectangular(Heights(lines))
    ensures TrailheadsInBounds(Parsed(lines))
  {
    var pi := Parsed(lines);
    forall k | 0 <= k < |pi.trailheads|
      ensures IsInBounds(pi.topology, pi.trailheads[k])
    {
      ZerosMeaning(lines, |lines|, pi.trailheads[k]);
    }
  }

  function IsRectangular(topo: Topology): (b: bool)
    ensures b == Rectangular(topo)
  {
    forall r :: 0 <= r < |topo| ==> |topo[r]| == |topo[0]|
  }

  /** SolvePart1: the total part 1 score, or None for rows of different
      widths. */
  method SolvePart1(input: string) returns (answer: Option<string>)
    ensures var pi := Parsed(Lines(input));
      Rectangular(pi.topology) ==> TrailheadsInBounds(pi) && answer == Some(Itoa(TotalScore(pi, |pi.trailheads|, true)))
    ensures answer.Some? <==> Rectangular(Parsed(Lines(input)).topology)
  {
    var problemInput := ParseInput(input);
    if !IsRectangular(problemInput.topology) {
      return None;
    }
    ParsedInBounds(Lines(input));
    var score := ScoreTopology(problemInput, true);
    answer := Some(Itoa(score));
  }

  /** SolvePart2: the total part 2 score, or None for rows of different
      widths. */
  method SolvePart2(input: string) returns (answer: Option<string>)
    ensures var pi := Parsed(Lines(input));
      Rectangular(pi.topology) ==> TrailheadsInBounds(pi) && answer == Some(Itoa(TotalScore(pi, |pi.trailheads|, false)))
    ensures answer.Some? <==> Rectangular(Parsed(Lines(input)).topology)
  {
    var problemInput := ParseInput(input);
    if !IsRectangular(problemInput.topology) {
      return None;
    }
    ParsedInBounds(Lines(input));
    var score := ScoreTopology(problemInput, false);
    answer := Some(Itoa(score));
  }
}
