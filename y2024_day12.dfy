/** 2024/day12: a garden of plots, one plant type per plot. A region is a
    maximal set of plots of one type joined by orthogonal steps; fencing it
    costs its area times its perimeter, and part 1 totals the cost over all
    regions. */
module Y2024Day12 {
  import opened Text

  /** The plant types, row by row. */
  type Garden = seq<seq<char>>

  datatype Point = Point(row: int, col: int)

  /** A region: a plant type and its plots in the order they were found. */
  datatype Region = Region(plantType: char, points: seq<Point>)

  /** pi.IsInBounds measures every column against the width of row 0, so
      the model asks for rows of one width. */
  predicate Rectangular(g: Garden) {
    forall r :: 0 <= r < |g| ==> |g[r]| == |g[0]|
  }

  /** pi.IsInBounds */
  predicate IsInBounds(g: Garden, p: Point) {
    p.row >= 0 && p.row < |g| && p.col >= 0 && p.col < |g[0]|
  }

  function Width(g: Garden): nat {
    if |g| == 0 then 0 else |g[0]|
  }

  /** Every plot of the garden. */
  function Cells(g: Garden): set<Point> {
    set r, c | 0 <= r < |g| && 0 <= c < Width(g) :: Point(r, c)
  }

  /** IsInBounds accepts exactly the plots of the garden. */
  lemma CellsMeaning(g: Garden, p: Point)
    ensures p in Cells(g) <==> IsInBounds(g, p)
  {
    if IsInBounds(g, p) {
      assert Point(p.row, p.col) in Cells(g);
    }
  }

  /** p is in bounds and grows plant t. */
  predicate SamePlant(g: Garden, t: char, p: Point)
    requires Rectangular(g)
  {
    IsInBounds(g, p) && g[p.row][p.col] == t
  }

  /** The plant type of a plot. */
  function Plant(g: Garden, p: Point): char
    requires Rectangular(g) && IsInBounds(g, p)
  {
    g[p.row][p.col]
  }

  // ---------------------------------------------------------------------
  // Neighbours, walks and closed sets

  /** The neighbours looked at, in order: up, down, left, right. */
  const Offsets: seq<Point> := [Point(-1, 0), Point(1, 0), Point(0, -1), Point(0, 1)]

  function Neighbour(p: Point, k: nat): Point
    requires k < |Offsets|
  {
    Point(p.row + Offsets[k].row, p.col + Offsets[k].col)
  }

  /** q is one orthogonal step away from p. */
  predicate Adjacent(p: Point, q: Point) {
    || (q.row == p.row && (q.col == p.col - 1 || q.col == p.col + 1))
    || (q.col == p.col && (q.row == p.row - 1 || q.row == p.row + 1))
  }

  /** The four neighbours are exactly the adjacent points. */
  lemma NeighbourIndex(p: Point, q: Point) returns (k: nat)
    requires Adjacent(p, q)
    ensures k < |Offsets| && q == Neighbour(p, k)
  {
    if q.row == p.row - 1 {
      k := 0;
    } else if q.row == p.row + 1 {
      k := 1;
    } else if q.col == p.col - 1 {
      k := 2;
    } else {
      k := 3;
    }
  }

  /** A walk through plots of plant t, one orthogonal step at a time. */
  predicate IsWalk(g: Garden, t: char, w: seq<Point>)
    requires Rectangular(g)
  {
    && |w| > 0
    && (forall i :: 0 <= i < |w| ==> SamePlant(g, t, w[i]))
    && (forall i :: 0 <= i < |w| - 1 ==> Adjacent(w[i], w[i + 1]))
  }

  /** b can be reached from a by a walk through plots of plant t. */
  ghost predicate Connected(g: Garden, t: char, a: Point, b: Point)
    requires Rectangular(g)
  {
    exists w :: IsWalk(g, t, w) && w[0] == a && w[|w| - 1] == b
  }

  lemma ConnectedPlant(g: Garden, t: char, a: Point, b: Point)
    requires Rectangular(g) && Connected(g, t, a, b)
    ensures SamePlant(g, t, a) && SamePlant(g, t, b)
  {
    var w :| IsWalk(g, t, w) && w[0] == a && w[|w| - 1] == b;
    assert SamePlant(g, t, w[|w| - 1]);
  }

  lemma ConnectedSelf(g: Garden, t: char, a: Point)
    requires Rectangular(g) && SamePlant(g, t, a)
    ensures Connected(g, t, a, a)
  {
    assert IsWalk(g, t, [a]);
  }

  /** A walk read backwards is a walk. */
  lemma ConnectedSymmetric(g: Garden, t: char, a: Point, b: Point)
    requires Rectangular(g) && Connected(g, t, a, b)
    ensures Connected(g, t, b, a)
  {
    var w :| IsWalk(g, t, w) && w[0] == a && w[|w| - 1] == b;
    var v := seq(|w|, i requires 0 <= i < |w| => w[|w| - 1 - i]);
    forall i | 0 <= i < |v| - 1
      ensures Adjacent(v[i], v[i + 1])
    {
      assert Adjacent(w[|w| - 2 - i], w[|w| - 1 - i]);
    }
    assert IsWalk(g, t, v);
  }

  /** Two walks that meet make one. */
  lemma ConnectedTransitive(g: Garden, t: char, a: Point, b: Point, c: Point)
    requires Rectangular(g) && Connected(g, t, a, b) && Connected(g, t, b, c)
    ensures Connected(g, t, a, c)
  {
    var u :| IsWalk(g, t, u) && u[0] == a && u[|u| - 1] == b;
    var v :| IsWalk(g, t, v) && v[0] == b && v[|v| - 1] == c;
    var w := u + v[1..];
    forall i | 0 <= i < |w| - 1
      ensures Adjacent(w[i], w[i + 1])
    {
      if i < |u| - 1 {
        assert w[i] == u[i] && w[i + 1] == u[i + 1];
      } else {
        assert w[i] == v[i - |u| + 1] && w[i + 1] == v[i - |u| + 2];
      }
    }
    assert IsWalk(g, t, w);
  }

  /** A walk extended by one step to a neighbour of the same plant. */
  lemma ConnectedStep(g: Garden, t: char, a: Point, b: Point, c: Point)
    requires Rectangular(g) && Connected(g, t, a, b) && Adjacent(b, c) && SamePlant(g, t, c)
    ensures Connected(g, t, a, c)
  {
    var w :| IsWalk(g, t, w) && w[0] == a && w[|w| - 1] == b;
    var v := w + [c];
    assert v[..|w|] == w;
    assert IsWalk(g, t, v);
  }

  /** S contains every plot of plant t next to one of its points: the
      search has nothing left to add. */
  predicate Closed(g: Garden, t: char, S: set<Point>)
    requires Rectangular(g)
  {
    forall p, k :: p in S && 0 <= k < |Offsets| && SamePlant(g, t, Neighbour(p, k)) ==> Neighbour(p, k) in S
  }

  /** A closed set holds the end of every walk that starts in it. */
  lemma {:induction false} WalkStaysIn(g: Garden, t: char, S: set<Point>, w: seq<Point>)
    requires Rectangular(g) && Closed(g, t, S) && IsWalk(g, t, w) && w[0] in S
    ensures w[|w| - 1] in S
  {
    if |w| > 1 {
      var v := w[..|w| - 1];
      assert IsWalk(g, t, v);
      WalkStaysIn(g, t, S, v);
      var k := NeighbourIndex(w[|w| - 2], w[|w| - 1]);
      assert SamePlant(g, t, w[|w| - 1]);
    }
  }

  lemma ClosedHoldsConnected(g: Garden, t: char, S: set<Point>, a: Point, b: Point)
    requires Rectangular(g) && Closed(g, t, S) && a in S && Connected(g, t, a, b)
    ensures b in S
  {
    var w :| IsWalk(g, t, w) && w[0] == a && w[|w| - 1] == b;
    WalkStaysIn(g, t, S, w);
  }

  function Elements(s: seq<Point>): set<Point> {
    set x | x in s
  }

  predicate Distinct(s: seq<Point>) {
    forall i, j :: 0 <= i < j < |s| ==> s[i] != s[j]
  }

  /** What Regions promises of each region it returns: its plots are
      distinct, all reached from the first, and nothing of the same plant
      next to them is left out. */
  ghost predicate IsRegion(g: Garden, t: char, pts: seq<Point>)
    requires Rectangular(g)
  {
    && |pts| > 0
    && Distinct(pts)
    && (forall q :: q in pts ==> Connected(g, t, pts[0], q))
    && Closed(g, t, Elements(pts))
  }

  /** A region is the connected component of any of its plots: the plots
      of plant t reachable from a are exactly the plots of the region. */
  lemma RegionIsComponent(g: Garden, t: char, pts: seq<Point>, a: Point, q: Point)
    requires Rectangular(g) && IsRegion(g, t, pts) && a in pts
    ensures q in pts <==> Connected(g, t, a, q)
  {
    if q in pts {
      ConnectedSymmetric(g, t, pts[0], a);
      ConnectedTransitive(g, t, a, pts[0], q);
    }
    if Connected(g, t, a, q) {
      ClosedHoldsConnected(g, t, Elements(pts), a, q);
    }
  }

  /** Two regions of one plant are disjoint as soon as the first plot of
      the second is not in the first. */
  lemma RegionsApart(g: Garden, t: char, earlier: seq<Point>, later: seq<Point>, q: Point)
    requires Rectangular(g) && IsRegion(g, t, earlier) && IsRegion(g, t, later)
    requires later[0] !in earlier
    ensures !(q in earlier && q in later)
  {
    if q in earlier && q in later {
      ConnectedSymmetric(g, t, later[0], q);
      ClosedHoldsConnected(g, t, Elements(earlier), q, later[0]);
    }
  }

  // ---------------------------------------------------------------------
  // Regions: a breadth-first search from each unseen plot

  /** The inner loop of pi.Regions: every neighbour of point that grows
      plant t and is not processed yet joins the queue. */
  method QueueNeighbours(g: Garden, t: char, ghost start: Point, point: Point, pointsProcessed: set<Point>, pointsToProcess: seq<Point>)
    returns (queue: seq<Point>)
    requires Rectangular(g) && Connected(g, t, start, point)
    requires forall q :: q in pointsToProcess ==> SamePlant(g, t, q) && Connected(g, t, start, q)
    ensures |pointsToProcess| <= |queue| && queue[..|pointsToProcess|] == pointsToProcess
    ensures forall q :: q in queue[|pointsToProcess|..] ==> Adjacent(point, q) && q !in pointsProcessed
    ensures forall q :: q in queue ==> SamePlant(g, t, q) && Connected(g, t, start, q)
    ensures forall k :: 0 <= k < |Offsets| && SamePlant(g, t, Neighbour(point, k)) ==>
      Neighbour(point, k) in pointsProcessed || Neighbour(point, k) in queue
  {
    queue := pointsToProcess;
    for k := 0 to |Offsets|
      invariant |pointsToProcess| <= |queue| && queue[..|pointsToProcess|] == pointsToProcess
      invariant forall q :: q in queue[|pointsToProcess|..] ==> Adjacent(point, q) && q !in pointsProcessed
      invariant forall q :: q in queue ==> SamePlant(g, t, q) && Connected(g, t, start, q)
      invariant forall k' :: 0 <= k' < k && SamePlant(g, t, Neighbour(point, k')) ==>
        Neighbour(point, k') in pointsProcessed || Neighbour(point, k') in queue
    {
      var neighbor := Offsets[k];
      var nextPoint := Point(point.row + neighbor.row, point.col + neighbor.col);
      assert nextPoint == Neighbour(point, k);
      if IsInBounds(g, nextPoint) && g[nextPoint.row][nextPoint.col] == t {
        if nextPoint !in pointsProcessed {
          ConnectedStep(g, t, start, point, nextPoint);
          queue := queue + [nextPoint];
        }
      }
    }
  }

  /** The search of pi.Regions from one plot: a queue that may hold a plot
      more than once, and the set of plots already processed. */
  method GrowRegion(g: Garden, t: char, start: Point) returns (region: Region)
    requires Rectangular(g) && SamePlant(g, t, start)
    ensures region.plantType == t && IsRegion(g, t, region.points) && region.points[0] == start
  {
    var points: seq<Point> := [];
    var pointsToProcess := [start];
    var pointsProcessed: set<Point> := {};
    ConnectedSelf(g, t, start);
    while |pointsToProcess| > 0
      invariant pointsProcessed == Elements(points) && Distinct(points)
      invariant if |points| == 0 then pointsToProcess == [start] else points[0] == start
      invariant forall q :: q in pointsToProcess ==> SamePlant(g, t, q) && Connected(g, t, start, q)
      invariant forall q :: q in points ==> Connected(g, t, start, q)
      invariant pointsProcessed <= Cells(g)
      invariant forall p, k :: p in pointsProcessed && 0 <= k < |Offsets| && SamePlant(g, t, Neighbour(p, k)) ==>
        Neighbour(p, k) in pointsProcessed || Neighbour(p, k) in pointsToProcess
      decreases Cells(g) - pointsProcessed, |pointsToProcess|
    {
      var point := pointsToProcess[0];
      assert SamePlant(g, t, point) && Connected(g, t, start, point);
      pointsToProcess := pointsToProcess[1..];
      if point in pointsProcessed {
        continue;
      }
      CellsMeaning(g, point);
      ghost var unprocessed := Cells(g) - pointsProcessed;
      points := points + [point];
      pointsProcessed := pointsProcessed + {point};
      assert point in unprocessed && point !in Cells(g) - pointsProcessed;
      pointsToProcess := QueueNeighbours(g, t, start, point, pointsProcessed, pointsToProcess);
    }
    region := Region(t, points);
  }

  /** The plots covered by a list of regions. */
  function Covered(rs: seq<Region>): set<Point> {
    if rs == [] then {} else Covered(rs[..|rs| - 1]) + Elements(rs[|rs| - 1].points)
  }

  lemma {:induction false} CoveredHas(rs: seq<Region>, i: nat, q: Point)
    requires i < |rs| && q in rs[i].points
    ensures q in Covered(rs)
  {
    if i < |rs| - 1 {
      CoveredHas(rs[..|rs| - 1], i, q);
    }
  }

  lemma {:induction false} CoveredWitness(rs: seq<Region>, q: Point) returns (i: nat)
    requires q in Covered(rs)
    ensures i < |rs| && q in rs[i].points
  {
    if q in Elements(rs[|rs| - 1].points) {
      i := |rs| - 1;
    } else {
      i := CoveredWitness(rs[..|rs| - 1], q);
    }
  }

  ghost predicate AreRegions(g: Garden, t: char, rs: seq<Region>)
    requires Rectangular(g)
  {
    forall i :: 0 <= i < |rs| ==> rs[i].plantType == t && IsRegion(g, t, rs[i].points)
  }

  /** No plot is in two of the regions. */
  predicate Disjoint(rs: seq<Region>) {
    forall i, j, q :: 0 <= i < j < |rs| && q in rs[i].points ==> q !in rs[j].points
  }

  /** What parseInput builds; the Visited map of the source is never read
      and is not modelled, and PlantProcessedMap, whose values are never
      read, is the set of its keys. */
  datatype ProblemInput = ProblemInput(garden: Garden, plantTypes: set<char>, positions: map<char, seq<Point>>)

  /** The plant types are the keys of the position map, and each holds
      exactly the plots of its type. */
  ghost predicate Valid(pi: ProblemInput) {
    && Rectangular(pi.garden)
    && pi.positions.Keys == pi.plantTypes
    && (forall t, p {:trigger SamePlant(pi.garden, t, p)} :: t in pi.positions ==> (p in pi.positions[t] <==> SamePlant(pi.garden, t, p)))
    && (forall p :: IsInBounds(pi.garden, p) ==> pi.garden[p.row][p.col] in pi.positions)
  }

  /** The regions found so far by pi.Regions, one at a time: each a whole
      component of plant t apart from those before it. */
  ghost predicate Grown(g: Garden, t: char, rs: seq<Region>)
    requires Rectangular(g)
  {
    if rs == [] then true
    else
      var init, last := rs[..|rs| - 1], rs[|rs| - 1];
      && Grown(g, t, init)
      && last.plantType == t && IsRegion(g, t, last.points)
      && Elements(last.points) !! Covered(init)
  }

  /** Regions found one at a time are regions and pairwise disjoint. */
  lemma {:induction false} GrownMeaning(g: Garden, t: char, rs: seq<Region>)
    requires Rectangular(g) && Grown(g, t, rs)
    ensures AreRegions(g, t, rs) && Disjoint(rs)
  {
    if rs != [] {
      var init := rs[..|rs| - 1];
      GrownMeaning(g, t, init);
      assert forall i :: 0 <= i < |init| ==> rs[i] == init[i];
      forall i, j, q | 0 <= i < j < |rs| && q in rs[i].points
        ensures q !in rs[j].points
      {
        if j == |rs| - 1 {
          CoveredHas(init, i, q);
        }
      }
    }
  }

  /** A region grown from a plot not yet seen extends the regions found. */
  lemma AddRegion(g: Garden, t: char, regions: seq<Region>, seen: set<Point>, region: Region)
    requires Rectangular(g) && Grown(g, t, regions) && seen == Covered(regions)
    requires forall q :: q in seen ==> SamePlant(g, t, q)
    requires region.plantType == t && IsRegion(g, t, region.points) && region.points[0] !in seen
    ensures Grown(g, t, regions + [region]) && Covered(regions + [region]) == seen + Elements(region.points)
    ensures forall q :: q in seen + Elements(region.points) ==> SamePlant(g, t, q)
  {
    var rs := regions + [region];
    assert rs[..|rs| - 1] == regions;
    GrownMeaning(g, t, regions);
    forall q | q in Covered(regions)
      ensures q !in region.points
    {
      var i := CoveredWitness(regions, q);
      if region.points[0] in regions[i].points {
        CoveredHas(regions, i, region.points[0]);
      }
      RegionsApart(g, t, regions[i].points, region.points, q);
    }
    forall q | q in region.points
      ensures SamePlant(g, t, q)
    {
      ConnectedPlant(g, t, region.points[0], q);
    }
  }

  /** The last loop of pi.Regions: every plot of the new region is marked
      as seen. */
  method MarkSeen(seen: set<Point>, points: seq<Point>) returns (marked: set<Point>)
    ensures marked == seen + Elements(points)
  {
    marked := seen;
    for k := 0 to |points|
      invariant marked == seen + Elements(points[..k])
    {
      assert points[..k + 1] == points[..k] + [points[k]];
      marked := marked + {points[k]};
    }
    assert points[..|points|] == points;
  }

  /** pi.Regions: one search from each plot of the plant type not yet in
      a region. The regions are whole components, pairwise disjoint, and
      together cover exactly the plots of that type. */
  method Regions(pi: ProblemInput, plantType: char) returns (regions: seq<Region>)
    requires Valid(pi)
    ensures AreRegions(pi.garden, plantType, regions) && Disjoint(regions)
    ensures forall q :: q in Covered(regions) <==> SamePlant(pi.garden, plantType, q)
  {
    var g := pi.garden;
    regions := [];
    var points := if plantType in pi.positions then pi.positions[plantType] else [];
    var seen: set<Point> := {};
    for idx := 0 to |points|
      invariant Grown(g, plantType, regions) && seen == Covered(regions)
      invariant forall q :: q in seen ==> SamePlant(g, plantType, q)
      invariant Elements(points[..idx]) <= seen
    {
      var point := points[idx];
      assert points[..idx + 1] == points[..idx] + [point];
      if point in seen {
        continue;
      }
      var region := GrowRegion(g, plantType, point);
      AddRegion(g, plantType, regions, seen, region);
      regions := regions + [region];
      seen := MarkSeen(seen, region.points);
    }
    GrownMeaning(g, plantType, regions);
    forall q | SamePlant(g, plantType, q)
      ensures q in seen
    {
      assert points[..|points|] == points;
      assert q in points;
    }
  }

  // ---------------------------------------------------------------------
  // ComputeCostForRegion

  /** Among the first k sides of p, those facing out of the garden or a
      plot of another plant. */
  function Sides(g: Garden, t: char, p: Point, k: nat): nat
    requires Rectangular(g) && k <= |Offsets|
  {
    if k == 0 then 0 else Sides(g, t, p, k - 1) + (if !SamePlant(g, t, Neighbour(p, k - 1)) then 1 else 0)
  }

  /** The sides of all the points that need a fence. */
  function Perimeter(g: Garden, t: char, pts: seq<Point>): nat
    requires Rectangular(g)
  {
    if pts == [] then 0 else Perimeter(g, t, pts[..|pts| - 1]) + Sides(g, t, pts[|pts| - 1], |Offsets|)
  }

  /** pi.ComputeCostForRegion: the area times the perimeter. */
  method ComputeCostForRegion(g: Garden, region: Region) returns (cost: int)
    requires Rectangular(g)
    ensures cost == Perimeter(g, region.plantType, region.points) * |region.points|
  {
    var area := |region.points|;
    var perimeter := 0;
    for i := 0 to |region.points|
      invariant perimeter == Perimeter(g, region.plantType, region.points[..i])
    {
      var point := region.points[i];
      var contribution := 0;
      for k := 0 to |Offsets|
        invariant contribution == Sides(g, region.plantType, point, k)
      {
        var neighbor := Offsets[k];
        var nextPoint := Point(point.row + neighbor.row, point.col + neighbor.col);
        assert nextPoint == Neighbour(point, k);
        if !IsInBounds(g, nextPoint) || g[nextPoint.row][nextPoint.col] != region.plantType {
          contribution := contribution + 1;
        }
      }
      assert region.points[..i + 1][..i] == region.points[..i];
      perimeter := perimeter + contribution;
    }
    assert region.points[..|region.points|] == region.points;
    cost := perimeter * area;
  }

  lemma {:induction false} SidesBound(g: Garden, t: char, p: Point, k: nat)
    requires Rectangular(g) && k <= |Offsets|
    ensures Sides(g, t, p, k) <= k
  {
    if k > 0 {
      SidesBound(g, t, p, k - 1);
    }
  }

  /** Each plot adds at most four sides to the perimeter. */
  lemma {:induction false} PerimeterBound(g: Garden, t: char, pts: seq<Point>)
    requires Rectangular(g)
    ensures Perimeter(g, t, pts) <= 4 * |pts|
  {
    if pts != [] {
      PerimeterBound(g, t, pts[..|pts| - 1]);
      SidesBound(g, t, pts[|pts| - 1], |Offsets|);
    }
  }

  /** Among the first k neighbours of p, those outside S. */
  function Exposed(S: set<Point>, p: Point, k: nat): nat
    requires k <= |Offsets|
  {
    if k == 0 then 0 else Exposed(S, p, k - 1) + (if Neighbour(p, k - 1) !in S then 1 else 0)
  }

  /** For a plot of a region, the sides counted are exactly those facing
      a plot outside the region. */
  lemma {:induction false} SidesOfRegion(g: Garden, t: char, pts: seq<Point>, p: Point, k: nat)
    requires Rectangular(g) && IsRegion(g, t, pts) && p in pts && k <= |Offsets|
    ensures Sides(g, t, p, k) == Exposed(Elements(pts), p, k)
  {
    if k > 0 {
      SidesOfRegion(g, t, pts, p, k - 1);
      var n := Neighbour(p, k - 1);
      if n in pts {
        ConnectedPlant(g, t, pts[0], n);
      }
    }
  }

  // ---------------------------------------------------------------------
  // ComputeFenceCost

  /** The plots reachable from p through its own plant: p's region. */
  ghost function Component(g: Garden, p: Point): set<Point>
    requires Rectangular(g) && IsInBounds(g, p)
  {
    set q | q in Cells(g) && Connected(g, Plant(g, p), p, q)
  }

  /** A plot's share of the price: its fenced sides times the area of its
      region. */
  ghost function CellPrice(g: Garden, p: Point): int
    requires Rectangular(g) && IsInBounds(g, p)
  {
    Sides(g, Plant(g, p), p, |Offsets|) * |Component(g, p)|
  }

  /** The share of every plot of the garden. */
  ghost function Prices(g: Garden): map<Point, int>
    requires Rectangular(g)
  {
    map p | p in Cells(g) :: (CellsMeaning(g, p); CellPrice(g, p))
  }

  /** The sum of prices[p] over the plots p of S, in no particular order. */
  ghost function Sum(prices: map<Point, int>, S: set<Point>): int
    requires S <= prices.Keys
  {
    if S == {} then 0 else var p :| p in S; prices[p] + Sum(prices, S - {p})
  }

  /** Any plot may be taken out of the sum first. */
  lemma {:induction false} SumRemove(prices: map<Point, int>, S: set<Point>, p: Point)
    requires S <= prices.Keys && p in S
    ensures Sum(prices, S) == prices[p] + Sum(prices, S - {p})
    decreases |S|
  {
    var x :| x in S && Sum(prices, S) == prices[x] + Sum(prices, S - {x});
    if x != p {
      SumRemove(prices, S - {x}, p);
      SumRemove(prices, S - {p}, x);
      assert S - {x} - {p} == S - {p} - {x};
    }
  }

  /** The sum over two disjoint sets of plots is the sum of the sums. */
  lemma {:induction false} SumUnion(prices: map<Point, int>, A: set<Point>, B: set<Point>)
    requires A <= prices.Keys && B <= prices.Keys && A !! B
    ensures Sum(prices, A + B) == Sum(prices, A) + Sum(prices, B)
    decreases |A|
  {
    if A != {} {
      var a :| a in A;
      SumRemove(prices, A + B, a);
      SumRemove(prices, A, a);
      assert A + B - {a} == (A - {a}) + B;
      SumUnion(prices, A - {a}, B);
    } else {
      assert A + B == B;
    }
  }

  /** The shares of a set of plots. */
  ghost function SumPrices(g: Garden, S: set<Point>): int
    requires Rectangular(g) && S <= Cells(g)
  {
    Sum(Prices(g), S)
  }

  lemma {:induction false} DistinctSize(s: seq<Point>)
    requires Distinct(s)
    ensures |Elements(s)| == |s|
  {
    if s != [] {
      var init := s[..|s| - 1];
      assert Elements(s) == Elements(init) + {s[|s| - 1]};
      DistinctSize(init);
    }
  }

  /** The region of a plot of a region is that region. */
  lemma ComponentOfRegion(g: Garden, t: char, pts: seq<Point>, q: Point)
    requires Rectangular(g) && IsRegion(g, t, pts) && q in pts
    ensures q in Cells(g) && IsInBounds(g, q) && Plant(g, q) == t
    ensures Component(g, q) == Elements(pts)
  {
    ConnectedPlant(g, t, pts[0], q);
    CellsMeaning(g, q);
    forall r
      ensures r in Component(g, q) <==> r in Elements(pts)
    {
      RegionIsComponent(g, t, pts, q, r);
      if r in pts {
        ConnectedPlant(g, t, pts[0], r);
        CellsMeaning(g, r);
      }
    }
  }

  /** A plot of a region pays its sides times the region's area. */
  lemma RegionPlotPrice(g: Garden, t: char, pts: seq<Point>, q: Point)
    requires Rectangular(g) && IsRegion(g, t, pts) && q in pts
    ensures q in Prices(g) && Prices(g)[q] == Sides(g, t, q, |Offsets|) * |pts|
  {
    ComponentOfRegion(g, t, pts, q);
    DistinctSize(pts);
  }

  /** The arithmetic of one step of PartPrice, kept apart from the rest. */
  lemma Combine(total: int, rest: int, before: int, sides: int, n: int, perimeter: int)
    requires total == sides * n + rest && rest == before * n && perimeter == before + sides
    ensures total == perimeter * n
  {
  }

  /** Over part of a region the shares add up to the part's perimeter
      times the region's area. */
  lemma {:induction false} PartPrice(g: Garden, t: char, pts: seq<Point>, part: seq<Point>)
    requires Rectangular(g) && IsRegion(g, t, pts)
    requires Distinct(part) && forall q :: q in part ==> q in pts
    ensures Elements(part) <= Cells(g)
    ensures SumPrices(g, Elements(part)) == Perimeter(g, t, part) * |pts|
  {
    if part != [] {
      var init, last := part[..|part| - 1], part[|part| - 1];
      assert Elements(part) == Elements(init) + {last};
      assert last !in Elements(init);
      PartPrice(g, t, pts, init);
      RegionPlotPrice(g, t, pts, last);
      ComponentOfRegion(g, t, pts, last);
      var m := Prices(g);
      SumRemove(m, Elements(part), last);
      assert Elements(part) - {last} == Elements(init);
      var before, sides := Perimeter(g, t, init), Sides(g, t, last, |Offsets|);
      assert Sum(m, Elements(part)) == m[last] + Sum(m, Elements(init));
      Combine(SumPrices(g, Elements(part)), Sum(m, Elements(init)), before, sides, |pts|, Perimeter(g, t, part));
    } else {
      assert Elements(part) == {};
    }
  }

  /** A region's cost is the sum of its plots' shares. */
  lemma RegionPrice(g: Garden, t: char, pts: seq<Point>)
    requires Rectangular(g) && IsRegion(g, t, pts)
    ensures Elements(pts) <= Cells(g)
    ensures Perimeter(g, t, pts) * |pts| == SumPrices(g, Elements(pts))
  {
    PartPrice(g, t, pts, pts);
  }

  /** The costs of a list of regions, as ComputeFenceCost adds them. */
  function RegionsCost(g: Garden, rs: seq<Region>): int
    requires Rectangular(g)
  {
    if rs == [] then 0
    else RegionsCost(g, rs[..|rs| - 1]) + Perimeter(g, rs[|rs| - 1].plantType, rs[|rs| - 1].points) * |rs[|rs| - 1].points|
  }

  /** Disjoint regions cost the sum of the shares of the plots they cover. */
  lemma {:induction false} RegionsPrice(g: Garden, t: char, rs: seq<Region>)
    requires Rectangular(g) && AreRegions(g, t, rs) && Disjoint(rs)
    ensures Covered(rs) <= Cells(g)
    ensures RegionsCost(g, rs) == SumPrices(g, Covered(rs))
  {
    if rs != [] {
      var init, last := rs[..|rs| - 1], rs[|rs| - 1];
      assert AreRegions(g, t, init) && Disjoint(init) by {
        assert forall i :: 0 <= i < |init| ==> init[i] == rs[i];
      }
      RegionsPrice(g, t, init);
      RegionPrice(g, t, last.points);
      forall q | q in Covered(init)
        ensures q !in Elements(last.points)
      {
        var i := CoveredWitness(init, q);
        assert rs[i] == init[i];
      }
      SumUnion(Prices(g), Covered(init), Elements(last.points));
    }
  }

  /** The plots whose plant is one of ts. */
  function PlantCells(g: Garden, ts: set<char>): set<Point>
    requires Rectangular(g)
  {
    set r, c | 0 <= r < |g| && 0 <= c < Width(g) && g[r][c] in ts :: Point(r, c)
  }

  lemma PlantCellsMeaning(g: Garden, ts: set<char>, p: Point)
    requires Rectangular(g)
    ensures p in PlantCells(g, ts) <==> IsInBounds(g, p) && Plant(g, p) in ts
  {
    if IsInBounds(g, p) && Plant(g, p) in ts {
      assert Point(p.row, p.col) in PlantCells(g, ts);
    }
  }

  /** Adding one plant type to those done adds the shares of the plots its
      regions cover. */
  lemma OnePlant(g: Garden, done: set<char>, t: char, regions: seq<Region>)
    requires Rectangular(g) && t !in done && PlantCells(g, done) <= Cells(g)
    requires Covered(regions) <= Cells(g)
    requires forall q :: q in Covered(regions) <==> SamePlant(g, t, q)
    ensures PlantCells(g, done + {t}) <= Cells(g)
    ensures SumPrices(g, PlantCells(g, done + {t})) == SumPrices(g, PlantCells(g, done)) + SumPrices(g, Covered(regions))
  {
    forall q
      ensures q in PlantCells(g, done + {t}) <==> q in PlantCells(g, done) + Covered(regions)
      ensures q in PlantCells(g, done) ==> q !in Covered(regions)
    {
      PlantCellsMeaning(g, done + {t}, q);
      PlantCellsMeaning(g, done, q);
    }
    assert PlantCells(g, done + {t}) == PlantCells(g, done) + Covered(regions);
    SumUnion(Prices(g), PlantCells(g, done), Covered(regions));
  }

  /** pi.ComputeFenceCost: the cost of every region of every plant type.
      The source visits the plant types in map order, which Go leaves
      unspecified; the total is the same in any order, the shares of all
      the plots of the garden. */
  method ComputeFenceCost(pi: ProblemInput) returns (cost: int)
    requires Valid(pi)
    ensures cost == SumPrices(pi.garden, Cells(pi.garden))
  {
    var g := pi.garden;
    cost := 0;
    var remaining := pi.plantTypes;
    ghost var done: set<char> := {};
    while remaining != {}
      invariant remaining + done == pi.plantTypes && remaining !! done
      invariant PlantCells(g, done) <= Cells(g)
      invariant cost == SumPrices(g, PlantCells(g, done))
      decreases remaining
    {
      var plantType :| plantType in remaining;
      var regions := Regions(pi, plantType);
      ghost var start := cost;
      for i := 0 to |regions|
        invariant cost == start + RegionsCost(g, regions[..i])
      {
        var regionCost := ComputeCostForRegion(g, regions[i]);
        assert regions[..i + 1][..i] == regions[..i];
        cost := cost + regionCost;
      }
      assert regions[..|regions|] == regions;
      RegionsPrice(g, plantType, regions);
      OnePlant(g, done, plantType, regions);
      remaining := remaining - {plantType};
      done := done + {plantType};
    }
    assert done == pi.plantTypes;
    forall p
      ensures p in Cells(g) <==> p in PlantCells(g, done)
    {
      CellsMeaning(g, p);
      PlantCellsMeaning(g, done, p);
    }
    assert PlantCells(g, done) == Cells(g);
  }

  // ---------------------------------------------------------------------
  // parseInput

  /** The points (r, c), c < j, of line with plant t, left to right. */
  function RowPositions(line: string, r: int, t: char, j: nat): seq<Point>
    requires j <= |line|
  {
    if j == 0 then [] else RowPositions(line, r, t, j - 1) + (if line[j - 1] == t then [Point(r, j - 1)] else [])
  }

  /** The points of the first i lines with plant t, in row-major order. */
  function GridPositions(lines: seq<string>, t: char, i: nat): seq<Point>
    requires i <= |lines|
  {
    if i == 0 then [] else GridPositions(lines, t, i - 1) + RowPositions(lines[i - 1], i - 1, t, |lines[i - 1]|)
  }

  /** The plots of plant t, in row-major order. */
  function Positions(lines: seq<string>, t: char): seq<Point> {
    GridPositions(lines, t, |lines|)
  }

  /** Every character of the garden. */
  function PlantTypes(lines: seq<string>): set<char> {
    set r, c | 0 <= r < |lines| && 0 <= c < |lines[r]| :: lines[r][c]
  }

  /** Every plant type mapped to its plots. */
  function PositionMap(lines: seq<string>): map<char, seq<Point>> {
    map t | t in PlantTypes(lines) :: Positions(lines, t)
  }

  /** The lines parseInput reads. */
  function Lines(input: string): seq<string> {
    Split(TrimSpace(input), '\n')
  }

  /** What parseInput builds from a list of lines. */
  function Parsed(lines: seq<string>): ProblemInput {
    ProblemInput(lines, PlantTypes(lines), PositionMap(lines))
  }

  lemma {:induction false} RowPositionsMeaning(line: string, r: int, t: char, j: nat, p: Point)
    requires j <= |line|
    ensures p in RowPositions(line, r, t, j) <==> p.row == r && 0 <= p.col < j && line[p.col] == t
  {
    if j > 0 {
      RowPositionsMeaning(line, r, t, j - 1, p);
    }
  }

  lemma {:induction false} GridPositionsMeaning(lines: seq<string>, t: char, i: nat, p: Point)
    requires i <= |lines|
    ensures p in GridPositions(lines, t, i) <==>
      0 <= p.row < i && 0 <= p.col < |lines[p.row]| && lines[p.row][p.col] == t
  {
    if i > 0 {
      GridPositionsMeaning(lines, t, i - 1, p);
      RowPositionsMeaning(lines[i - 1], i - 1, t, |lines[i - 1]|, p);
    }
  }

  /** Positions lists exactly the plots holding t. */
  lemma PositionsMeaning(lines: seq<string>, t: char, p: Point)
    ensures p in Positions(lines, t) <==>
      0 <= p.row < |lines| && 0 <= p.col < |lines[p.row]| && lines[p.row][p.col] == t
  {
    GridPositionsMeaning(lines, t, |lines|, p);
  }

  /** A parsed rectangular garden is one pi.ComputeFenceCost accepts: its
      plant types are the keys of the position map and each list holds
      exactly the plots of its type. */
  lemma ParsedValid(lines: seq<string>)
    requires Rectangular(lines)
    ensures Valid(Parsed(lines))
  {
    var pi := Parsed(lines);
    forall t, p | t in pi.positions
      ensures p in pi.positions[t] <==> SamePlant(lines, t, p)
    {
      PositionsMeaning(lines, t, p);
    }
    forall p | IsInBounds(lines, p)
      ensures lines[p.row][p.col] in pi.positions
    {
      assert lines[p.row][p.col] in PlantTypes(lines);
    }
  }

  /** The plots of t seen by the parse loops before cell (i, j). */
  function SoFar(lines: seq<string>, t: char, i: nat, j: nat): seq<Point>
    requires i <= |lines| && (i < |lines| ==> j <= |lines[i]|)
  {
    GridPositions(lines, t, i) + (if i < |lines| then RowPositions(lines[i], i, t, j) else [])
  }

  /** positions holds, for every plant type seen before cell (i, j), its
      plots in the order seen, and plantTypes is its key set. */
  ghost predicate PositionsSoFar(lines: seq<string>, plantTypes: set<char>, positions: map<char, seq<Point>>, i: nat, j: nat)
    requires i <= |lines| && (i < |lines| ==> j <= |lines[i]|)
  {
    && plantTypes == positions.Keys
    && (forall t {:trigger SoFar(lines, t, i, j)} ::
          && (t in positions <==> SoFar(lines, t, i, j) != [])
          && (t in positions ==> positions[t] == SoFar(lines, t, i, j)))
  }

  /** Cell (i, j) extends the plots seen of its own plant type only. */
  lemma SoFarStep(lines: seq<string>, t: char, i: nat, j: nat)
    requires i < |lines| && j < |lines[i]|
    ensures SoFar(lines, t, i, j + 1) == SoFar(lines, t, i, j) + (if lines[i][j] == t then [Point(i, j)] else [])
  {
  }

  /** One cell of the inner parse loop: its plot is appended to the list
      of its plant type. */
  lemma ParseCell(lines: seq<string>, plantTypes: set<char>, positions: map<char, seq<Point>>,
                  nextTypes: set<char>, next: map<char, seq<Point>>, i: nat, j: nat)
    requires i < |lines| && j < |lines[i]| && PositionsSoFar(lines, plantTypes, positions, i, j)
    requires nextTypes == plantTypes + {lines[i][j]}
    requires next == positions[lines[i][j] := (if lines[i][j] in positions then positions[lines[i][j]] else []) + [Point(i, j)]]
    ensures PositionsSoFar(lines, nextTypes, next, i, j + 1)
  {
    var e := lines[i][j];
    forall t
      ensures (t in next <==> SoFar(lines, t, i, j + 1) != [])
        && (t in next ==> next[t] == SoFar(lines, t, i, j + 1))
    {
      SoFarStep(lines, t, i, j);
      if t == e {
        assert next[t] == SoFar(lines, t, i, j + 1);
      } else {
        assert SoFar(lines, t, i, j + 1) == SoFar(lines, t, i, j);
      }
    }
  }

  /** The end of a row of the parse loop. */
  lemma ParseRow(lines: seq<string>, plantTypes: set<char>, positions: map<char, seq<Point>>, i: nat)
    requires i < |lines| && PositionsSoFar(lines, plantTypes, positions, i, |lines[i]|)
    ensures PositionsSoFar(lines, plantTypes, positions, i + 1, 0)
  {
    forall t
      ensures (t in positions <==> SoFar(lines, t, i + 1, 0) != [])
        && (t in positions ==> positions[t] == SoFar(lines, t, i + 1, 0))
    {
      if i + 1 < |lines| {
        assert RowPositions(lines[i + 1], i + 1, t, 0) == [];
      }
      assert SoFar(lines, t, i + 1, 0) == SoFar(lines, t, i, |lines[i]|);
    }
  }

  /** After the last row the maps are the ones Parsed describes. */
  lemma PositionsDone(lines: seq<string>, plantTypes: set<char>, positions: map<char, seq<Point>>)
    requires PositionsSoFar(lines, plantTypes, positions, |lines|, 0)
    ensures plantTypes == PlantTypes(lines) && positions == PositionMap(lines)
  {
    var m := PositionMap(lines);
    forall t
      ensures t in positions <==> t in m
    {
      assert SoFar(lines, t, |lines|, 0) == Positions(lines, t);
      if t in positions {
        PositionsMeaning(lines, t, positions[t][0]);
      }
      if t in m {
        var r, c :| 0 <= r < |lines| && 0 <= c < |lines[r]| && lines[r][c] == t;
        PositionsMeaning(lines, t, Point(r, c));
      }
    }
    forall t | t in positions
      ensures positions[t] == m[t]
    {
      assert SoFar(lines, t, |lines|, 0) == Positions(lines, t);
    }
  }

  /** parseInput: the trimmed input's lines become the garden, every
      character a plant type, and every plot is appended to the list of
      its type. */
  method ParseInput(input: string) returns (pi: ProblemInput)
    ensures pi == Parsed(Lines(input))
  {
    var lines := Split(TrimSpace(input), '\n');
    var plantTypes: set<char> := {};
    var positions: map<char, seq<Point>> := map[];
    for i := 0 to |lines|
      invariant PositionsSoFar(lines, plantTypes, positions, i, 0)
    {
      var row := lines[i];
      for j := 0 to |row|
        invariant PositionsSoFar(lines, plantTypes, positions, i, j)
      {
        var element := row[j];
        ghost var beforeTypes, before := plantTypes, positions;
        plantTypes := plantTypes + {element};
        var locs := if element in positions then positions[element] else [];
        positions := positions[element := locs + [Point(i, j)]];
        ParseCell(lines, beforeTypes, before, plantTypes, positions, i, j);
      }
      ParseRow(lines, plantTypes, positions, i);
    }
    PositionsDone(lines, plantTypes, positions);
    pi := ProblemInput(lines, plantTypes, positions);
  }

  function IsRectangular(g: Garden): (b: bool)
    ensures b == Rectangular(g)
  {
    forall r :: 0 <= r < |g| ==> |g[r]| == |g[0]|
  }

  /** SolvePart1: the fence cost of the whole garden, each plot's share
      being its exposed sides times the area of its region; None for rows
      of different widths. */
  method SolvePart1(input: string) returns (answer: Option<string>)
    ensures var g := Lines(input);
      Rectangular(g) ==> answer == Some(Itoa(SumPrices(g, Cells(g))))
    ensures answer.Some? <==> Rectangular(Lines(input))
  {
    var problemInput := ParseInput(input);
    if !IsRectangular(problemInput.garden) {
      return None;
    }
    ParsedValid(Lines(input));
    var cost := ComputeFenceCost(problemInput);
    answer := Some(Itoa(cost));
  }
}
