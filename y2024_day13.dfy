/** 2024/day13: claw machines with two buttons. Button A costs 3 tokens and
    button B costs 1; each press moves the claw by the button's vector, and
    the prize is won when the claw lands exactly on it. Part 1 searches the
    presses recursively with a memo table; part 2 moves every prize by
    10^13 and solves the two linear equations by Cramer's rule.

    Go computes with int64; integers here are unbounded. */
module Y2024Day13 {
  import opened Text
  import opened GoMath
  import opened LineFold

  datatype Point = Point(x: int, y: int)
  datatype Vector = Vector(x: int, y: int)

  const CostOfAButton: int := 3
  const CostOfBButton: int := 1

  datatype ClawGame = ClawGame(buttonA: Vector, buttonB: Vector, prize: Point)

  datatype ProblemInput = ProblemInput(clawGames: seq<ClawGame>)

  function Add(p: Point, v: Vector): Point {
    Point(p.x + v.x, p.y + v.y)
  }

  /** A button that never moves the claw back and always moves it on, as
      the buttons of the puzzle do. */
  predicate Forward(v: Vector) {
    v.x >= 0 && v.y >= 0 && v.x + v.y > 0
  }

  predicate Moves(cg: ClawGame) {
    Forward(cg.buttonA) && Forward(cg.buttonB)
  }

  predicate Past(cg: ClawGame, p: Point) {
    p.x > cg.prize.x || p.y > cg.prize.y
  }

  /** The two points where CostToPrize returns without pressing anything:
      past the prize on either axis, or on it. */
  predicate Stops(cg: ClawGame, p: Point) {
    Past(cg, p) || p == cg.prize
  }

  function Dot(w: Vector, v: Vector): int {
    w.x * v.x + w.y * v.y
  }

  /** Non-negative weights under which every press of either button gains
      at least 1. */
  predicate Weighs(w: Vector, cg: ClawGame) {
    w.x >= 0 && w.y >= 0 && Dot(w, cg.buttonA) >= 1 && Dot(w, cg.buttonB) >= 1
  }

  /** Weights for a game: an axis, the diagonal, or the weights that
      balance what one button gains on its axis against what the other
      loses there. WeightsComplete shows that these are found whenever any
      weights exist. */
  function Weights(cg: ClawGame): (r: Option<Vector>)
    ensures r.Some? ==> Weighs(r.value, cg)
  {
    var a, b := cg.buttonA, cg.buttonB;
    if Weighs(Vector(1, 0), cg) then Some(Vector(1, 0))
    else if Weighs(Vector(0, 1), cg) then Some(Vector(0, 1))
    else if Weighs(Vector(1, 1), cg) then Some(Vector(1, 1))
    else if Weighs(Vector(b.y - a.y, a.x - b.x), cg) then Some(Vector(b.y - a.y, a.x - b.x))
    else if Weighs(Vector(a.y - b.y, b.x - a.x), cg) then Some(Vector(a.y - b.y, b.x - a.x))
    else None
  }

  /** A game in which the weighted distance to the prize shrinks with every
      press. Every point the recursion of CostToPrize visits short of the
      prize has a non-negative weighted distance, so the recursion ends. */
  predicate Advances(cg: ClawGame) {
    Weights(cg).Some?
  }

  lemma MovesAdvances(cg: ClawGame)
    requires Moves(cg)
    ensures Advances(cg)
  {
    assert Weighs(Vector(1, 1), cg);
  }

  /** A press gains under non-negative weights only if it moves the claw
      on along some axis. */
  lemma GainHasPositiveAxis(w: Vector, v: Vector)
    requires w.x >= 0 && w.y >= 0 && Dot(w, v) >= 1
    ensures v.x >= 1 || v.y >= 1
  {
    if v.x <= 0 {
      assert w.x * v.x <= 0;
      assert w.y * v.y >= 1;
    }
  }

  /** When A gains only along x and B only along y, weights under which both
      gain make the determinant A.x * B.y - A.y * B.x positive. */
  lemma CrossingGains(w: Vector, a: Vector, b: Vector)
    requires w.x >= 0 && w.y >= 0 && Dot(w, a) >= 1 && Dot(w, b) >= 1
    requires a.x >= 1 && a.y <= 0 && b.x <= 0 && b.y >= 1
    ensures a.x * b.y - a.y * b.x >= 1
  {
    var p, q := w.x * a.x, w.y * -a.y;
    var r, t := w.y * b.y, w.x * -b.x;
    MulNonNegative(w.y, -a.y);
    MulNonNegative(w.x, -b.x);
    ProductGap(p, q, r, t);
    assert p * r - q * t == (w.x * w.y) * (a.x * b.y - a.y * b.x);
    MulNonNegative(w.x, w.y);
    PositiveFactor(w.x * w.y, a.x * b.y - a.y * b.x);
  }

  /** Any weights under which both presses gain mean that Weights finds
      some. */
  lemma WeightsFound(cg: ClawGame, w: Vector)
    requires Weighs(w, cg)
    ensures Advances(cg)
  {
    var a, b := cg.buttonA, cg.buttonB;
    GainHasPositiveAxis(w, a);
    GainHasPositiveAxis(w, b);
    if a.x >= 1 && b.x >= 1 {
      assert Weighs(Vector(1, 0), cg);
    } else if a.y >= 1 && b.y >= 1 {
      assert Weighs(Vector(0, 1), cg);
    } else if a.x >= 1 {
      CrossingGains(w, a, b);
      assert Weighs(Vector(b.y - a.y, a.x - b.x), cg);
    } else {
      CrossingGains(Vector(w.y, w.x), Vector(a.y, a.x), Vector(b.y, b.x));
      assert Weighs(Vector(a.y - b.y, b.x - a.x), cg);
    }
  }

  /** Weights is complete: a game has weights under which both presses gain
      exactly when Weights finds some. */
  lemma WeightsComplete(cg: ClawGame)
    ensures Advances(cg) <==> exists w :: Weighs(w, cg)
  {
    if exists w :: Weighs(w, cg) {
      var w :| Weighs(w, cg);
      WeightsFound(cg, w);
    }
    if Advances(cg) {
      assert Weighs(Weights(cg).value, cg);
    }
  }

  /** The weighted distance from p to the prize. */
  function Measure(cg: ClawGame, p: Point): int {
    match Weights(cg)
    case Some(w) => w.x * (cg.prize.x - p.x) + w.y * (cg.prize.y - p.y)
    case None => 0
  }

  /** Short of the prize the weighted distance is non-negative, and each
      press makes it smaller. */
  lemma MeasureDecreases(cg: ClawGame, p: Point)
    requires Advances(cg) && !Past(cg, p)
    ensures 0 <= Measure(cg, p)
    ensures Measure(cg, Add(p, cg.buttonA)) < Measure(cg, p)
    ensures Measure(cg, Add(p, cg.buttonB)) < Measure(cg, p)
  {
    var w := Weights(cg).value;
    var dx, dy := cg.prize.x - p.x, cg.prize.y - p.y;
    var a, b := cg.buttonA, cg.buttonB;
    assert w.x * dx >= 0 && w.y * dy >= 0;
    assert w.x * (dx - a.x) + w.y * (dy - a.y) == w.x * dx + w.y * dy - Dot(w, a);
    assert w.x * (dx - b.x) + w.y * (dy - b.y) == w.x * dx + w.y * dy - Dot(w, b);
  }

  function Distance(cg: ClawGame, p: Point): int {
    (cg.prize.x - p.x) + (cg.prize.y - p.y)
  }

  /** a presses of A and b presses of B take the claw from p to the prize. */
  predicate Reaches(cg: ClawGame, p: Point, a: int, b: int) {
    && a >= 0 && b >= 0
    && p.x + a * cg.buttonA.x + b * cg.buttonB.x == cg.prize.x
    && p.y + a * cg.buttonA.y + b * cg.buttonB.y == cg.prize.y
  }

  // ---------------------------------------------------------------------
  // CostToPrize

  /** The last step of CostToPrize, from the costs of the two routes (-1
      when a route cannot reach the prize). As written (byTotal false) it
      compares the two routes' own costs and adds the price of the button
      afterwards; byTotal compares the totals, button included. */
  function Choose(costOfARoute: int, costOfBRoute: int, byTotal: bool): int {
    if costOfARoute == -1 && costOfBRoute == -1 then -1
    else if costOfARoute == -1 then costOfBRoute + CostOfBButton
    else if costOfBRoute == -1 then costOfARoute + CostOfAButton
    else if byTotal then
      (if costOfARoute + CostOfAButton < costOfBRoute + CostOfBButton then costOfARoute + CostOfAButton
       else costOfBRoute + CostOfBButton)
    else if costOfARoute < costOfBRoute then costOfARoute + CostOfAButton
    else costOfBRoute + CostOfBButton
  }

  /** The cost CostToPrize returns from p: -1 past the prize on either
      axis, 0 on it, and otherwise the choice between pressing A and
      pressing B. */
  function CostWith(cg: ClawGame, p: Point, byTotal: bool): (c: int)
    requires Advances(cg) || Stops(cg, p)
    ensures c >= -1
    ensures Past(cg, p) ==> c == -1
    ensures p == cg.prize ==> c == 0
    decreases Measure(cg, p)
  {
    if Past(cg, p) then -1
    else if p == cg.prize then 0
    else
      MeasureDecreases(cg, p);
      Choose(CostWith(cg, Add(p, cg.buttonA), byTotal), CostWith(cg, Add(p, cg.buttonB), byTotal), byTotal)
  }

  /** CostToPrize as written. */
  function Cost(cg: ClawGame, p: Point): int
    requires Advances(cg) || Stops(cg, p)
  {
    CostWith(cg, p, false)
  }

  lemma ReachesAfter(cg: ClawGame, p: Point, a: int, b: int)
    ensures Reaches(cg, Add(p, cg.buttonA), a, b) ==> Reaches(cg, p, a + 1, b)
    ensures Reaches(cg, Add(p, cg.buttonB), a, b) ==> Reaches(cg, p, a, b + 1)
  {
    assert (a + 1) * cg.buttonA.x == a * cg.buttonA.x + cg.buttonA.x;
    assert (a + 1) * cg.buttonA.y == a * cg.buttonA.y + cg.buttonA.y;
    assert (b + 1) * cg.buttonB.x == b * cg.buttonB.x + cg.buttonB.x;
    assert (b + 1) * cg.buttonB.y == b * cg.buttonB.y + cg.buttonB.y;
  }

  /** A cost other than -1 is the price of presses that take the claw from
      p to the prize. */
  lemma {:induction false} CostIsRoute(cg: ClawGame, p: Point, byTotal: bool)
    requires (Advances(cg) || Stops(cg, p)) && CostWith(cg, p, byTotal) >= 0
    ensures exists a, b :: Reaches(cg, p, a, b) && CostWith(cg, p, byTotal) == 3 * a + b
    decreases Measure(cg, p)
  {
    if p == cg.prize {
      assert Reaches(cg, p, 0, 0);
    } else {
      MeasureDecreases(cg, p);
      var pa, pb := Add(p, cg.buttonA), Add(p, cg.buttonB);
      var costA, costB := CostWith(cg, pa, byTotal), CostWith(cg, pb, byTotal);
      if CostWith(cg, p, byTotal) == costA + CostOfAButton && costA != -1 {
        CostIsRoute(cg, pa, byTotal);
        var a, b :| Reaches(cg, pa, a, b) && costA == 3 * a + b;
        ReachesAfter(cg, p, a, b);
        assert Reaches(cg, p, a + 1, b);
      } else {
        CostIsRoute(cg, pb, byTotal);
        var a, b :| Reaches(cg, pb, a, b) && costB == 3 * a + b;
        ReachesAfter(cg, p, a, b);
        assert Reaches(cg, p, a, b + 1);
      }
    }
  }

  lemma ReachesBefore(cg: ClawGame, p: Point, a: int, b: int)
    requires Moves(cg) && Reaches(cg, p, a, b)
    ensures !Past(cg, p)
    ensures a > 0 ==> Reaches(cg, Add(p, cg.buttonA), a - 1, b)
    ensures b > 0 ==> Reaches(cg, Add(p, cg.buttonB), a, b - 1)
    ensures a == 0 && b == 0 ==> p == cg.prize
  {
    var va, vb := cg.buttonA, cg.buttonB;
    assert a * va.x >= 0 && b * vb.x >= 0 && a * va.y >= 0 && b * vb.y >= 0;
    if a > 0 {
      assert a * va.x == (a - 1) * va.x + va.x;
      assert a * va.y == (a - 1) * va.y + va.y;
    }
    if b > 0 {
      assert b * vb.x == (b - 1) * vb.x + vb.x;
      assert b * vb.y == (b - 1) * vb.y + vb.y;
    }
  }

  /** When some presses reach the prize the cost is not -1; comparing the
      totals it is also no more than the price of those presses. */
  lemma {:induction false} RouteIsCosted(cg: ClawGame, p: Point, a: int, b: int, byTotal: bool)
    requires Moves(cg) && Reaches(cg, p, a, b)
    ensures CostWith(cg, p, byTotal) >= 0
    ensures byTotal ==> CostWith(cg, p, byTotal) <= 3 * a + b
    decreases Distance(cg, p)
  {
    ReachesBefore(cg, p, a, b);
    if p != cg.prize {
      var pa, pb := Add(p, cg.buttonA), Add(p, cg.buttonB);
      if a > 0 {
        RouteIsCosted(cg, pa, a - 1, b, byTotal);
      }
      if b > 0 {
        RouteIsCosted(cg, pb, a, b - 1, byTotal);
      }
    }
  }

  /** The prize is unreachable (-1) exactly when no presses reach it. */
  lemma CostUnreachable(cg: ClawGame, p: Point, byTotal: bool)
    requires Moves(cg)
    ensures CostWith(cg, p, byTotal) == -1 <==> forall a, b :: !Reaches(cg, p, a, b)
  {
    if CostWith(cg, p, byTotal) != -1 {
      CostIsRoute(cg, p, byTotal);
    } else {
      forall a, b
        ensures !Reaches(cg, p, a, b)
      {
        if Reaches(cg, p, a, b) {
          RouteIsCosted(cg, p, a, b, byTotal);
        }
      }
    }
  }

  // ---------------------------------------------------------------------
  // The memo table

  /** Every entry of the table holds the cost of its point. */
  ghost predicate Memoizes(cg: ClawGame, seen: map<Point, int>) {
    forall p :: p in seen ==> (Advances(cg) || Stops(cg, p)) && seen[p] == Cost(cg, p)
  }

  /** The seen map that the calls of one search share and fill in. */
  class Memo {
    var seen: map<Point, int>

    constructor()
      ensures seen == map[]
    {
      seen := map[];
    }
  }

  /** cg.CostToPrize: the cost from startingPoint, looking the two next
      points up in the shared table and filling it in where they are
      missing. */
  method CostToPrize(cg: ClawGame, startingPoint: Point, memo: Memo) returns (cost: int)
    requires (Advances(cg) || Stops(cg, startingPoint)) && Memoizes(cg, memo.seen)
    modifies memo
    ensures cost == Cost(cg, startingPoint)
    ensures Memoizes(cg, memo.seen)
    decreases Measure(cg, startingPoint)
  {
    if startingPoint.x > cg.prize.x || startingPoint.y > cg.prize.y {
      return -1;
    }
    if startingPoint.x == cg.prize.x && startingPoint.y == cg.prize.y {
      return 0;
    }
    MeasureDecreases(cg, startingPoint);
    var nextAfterA := Add(startingPoint, cg.buttonA);
    if nextAfterA !in memo.seen {
      var c := CostToPrize(cg, nextAfterA, memo);
      memo.seen := memo.seen[nextAfterA := c];
    }
    var costOfARoute := memo.seen[nextAfterA];
    var nextAfterB := Add(startingPoint, cg.buttonB);
    if nextAfterB !in memo.seen {
      var c := CostToPrize(cg, nextAfterB, memo);
      memo.seen := memo.seen[nextAfterB := c];
    }
    var costOfBRoute := memo.seen[nextAfterB];
    if costOfARoute == -1 && costOfBRoute == -1 {
      return -1;
    }
    if costOfARoute == -1 {
      return costOfBRoute + CostOfBButton;
    }
    if costOfBRoute == -1 {
      return costOfARoute + CostOfAButton;
    }
    if costOfARoute < costOfBRoute {
      return costOfARoute + CostOfAButton;
    }
    return costOfBRoute + CostOfBButton;
  }

  // ---------------------------------------------------------------------
  // Part 2: Cramer's rule

  const ConversionError: int := 10000000000000

  /** The presses Cramer's rule gives for a prize, each quotient truncated
      toward zero; None where a divisor is zero (Go panics). */
  function Cramer(cg: ClawGame, prize: Point): Option<(int, int)> {
    var a, b := cg.buttonA, cg.buttonB;
    var det := a.y * b.x - a.x * b.y;
    if det == 0 || b.x == 0 then None
    else
      var aPresses := TDiv(prize.y * b.x - prize.x * b.y, det);
      Some((aPresses, TDiv(prize.x - aPresses * a.x, b.x)))
  }

  /** With a non-zero determinant, presses that hit the prize exactly are
      what Cramer's rule finds. */
  lemma CramerFinds(cg: ClawGame, prize: Point, n: int, m: int)
    requires cg.buttonA.y * cg.buttonB.x - cg.buttonA.x * cg.buttonB.y != 0 && cg.buttonB.x != 0
    requires n * cg.buttonA.x + m * cg.buttonB.x == prize.x
    requires n * cg.buttonA.y + m * cg.buttonB.y == prize.y
    ensures Cramer(cg, prize) == Some((n, m))
  {
    var a, b := cg.buttonA, cg.buttonB;
    var det := a.y * b.x - a.x * b.y;
    CramerNumerator(a, b, prize, n, m);
    TDivExact(n, det);
    assert prize.x - n * a.x == m * b.x;
    TDivExact(m, b.x);
  }

  lemma CramerNumerator(a: Vector, b: Vector, prize: Point, n: int, m: int)
    requires n * a.x + m * b.x == prize.x && n * a.y + m * b.y == prize.y
    ensures prize.y * b.x - prize.x * b.y == n * (a.y * b.x - a.x * b.y)
  {
    assert prize.y * b.x == n * a.y * b.x + m * b.y * b.x;
    assert prize.x * b.y == n * a.x * b.y + m * b.x * b.y;
  }

  /** The cost one game adds in part 2: the prize moved by 10^13 on both
      axes, and the price of Cramer's presses when they land exactly on it,
      else nothing. None where Go divides by zero. */
  function ConversionCost(cg: ClawGame): Option<int> {
    var prize := Point(cg.prize.x + ConversionError, cg.prize.y + ConversionError);
    match Cramer(cg, prize)
    case None => None
    case Some((n, m)) =>
      var tx := n * cg.buttonA.x + m * cg.buttonB.x;
      var ty := n * cg.buttonA.y + m * cg.buttonB.y;
      Some(if tx == prize.x && ty == prize.y then n * CostOfAButton + m * CostOfBButton else 0)
  }

  /** In part 2 a game with an exact solution adds its price, and one whose
      truncated presses miss the prize adds nothing. */
  lemma ConversionCostMeaning(cg: ClawGame, n: int, m: int)
    requires cg.buttonA.y * cg.buttonB.x - cg.buttonA.x * cg.buttonB.y != 0 && cg.buttonB.x != 0
    ensures var prize := Point(cg.prize.x + ConversionError, cg.prize.y + ConversionError);
      n * cg.buttonA.x + m * cg.buttonB.x == prize.x && n * cg.buttonA.y + m * cg.buttonB.y == prize.y
      ==> ConversionCost(cg) == Some(3 * n + m)
    ensures ConversionCost(cg).Some?
    ensures ConversionCost(cg).value != 0 ==> exists n', m' :: (
      && ConversionCost(cg) == Some(3 * n' + m')
      && n' * cg.buttonA.x + m' * cg.buttonB.x == cg.prize.x + ConversionError
      && n' * cg.buttonA.y + m' * cg.buttonB.y == cg.prize.y + ConversionError)
  {
    var prize := Point(cg.prize.x + ConversionError, cg.prize.y + ConversionError);
    if n * cg.buttonA.x + m * cg.buttonB.x == prize.x && n * cg.buttonA.y + m * cg.buttonB.y == prize.y {
      CramerFinds(cg, prize, n, m);
    }
    var pair := Cramer(cg, prize).value;
    if ConversionCost(cg).value != 0 {
      assert ConversionCost(cg) == Some(3 * pair.0 + pair.1);
    }
  }

  // ---------------------------------------------------------------------
  // TotalCostToPrizes

  /** What one game adds: in part 1 the cost from (0, 0), nothing when the
      prize is unreachable; in part 2 the Cramer cost. None where Go panics,
      and, in part 1, for a game that starts neither past nor on the prize
      and has no weights under which both presses gain (GameCostNone); the
      games on which Go's recursion runs forever are among these. */
  function GameCost(cg: ClawGame, withConversionError: bool): Option<int> {
    if withConversionError then ConversionCost(cg)
    else if !Advances(cg) && !Stops(cg, Point(0, 0)) then None
    else
      var cost := Cost(cg, Point(0, 0));
      Some(if cost == -1 then 0 else cost)
  }

  /** The sum over the games, in order; None once one of them fails. */
  function TotalCost(games: seq<ClawGame>, withConversionError: bool): Option<int> {
    if games == [] then Some(0)
    else match (TotalCost(games[..|games| - 1], withConversionError), GameCost(games[|games| - 1], withConversionError))
      case (Some(t), Some(c)) => Some(t + c)
      case _ => None
  }

  /** In part 1 a game that Go's recursion can finish adds the price of
      presses that win its prize, or nothing. An unreachable prize adds
      nothing. With buttons that both move forward, a reachable prize adds
      the price of presses that win it. */
  lemma GameCostPart1(cg: ClawGame)
    requires Advances(cg) || Stops(cg, Point(0, 0))
    ensures GameCost(cg, false).Some?
    ensures (forall a, b :: !Reaches(cg, Point(0, 0), a, b)) ==> GameCost(cg, false) == Some(0)
    ensures GameCost(cg, false) == Some(0) || exists a, b :: Reaches(cg, Point(0, 0), a, b) && GameCost(cg, false) == Some(3 * a + b)
    ensures Moves(cg) && (exists a, b :: Reaches(cg, Point(0, 0), a, b)) ==>
      exists a, b :: Reaches(cg, Point(0, 0), a, b) && GameCost(cg, false) == Some(3 * a + b)
  {
    if Cost(cg, Point(0, 0)) >= 0 {
      CostIsRoute(cg, Point(0, 0), false);
    }
    if Moves(cg) {
      MovesAdvances(cg);
      CostUnreachable(cg, Point(0, 0), false);
    }
  }

  /** Part 1 fails on a game exactly when the claw starts neither past nor
      on the prize and no non-negative weights make both presses gain. */
  lemma GameCostNone(cg: ClawGame)
    ensures GameCost(cg, false).None? <==> !Stops(cg, Point(0, 0)) && forall w :: !Weighs(w, cg)
  {
    WeightsComplete(cg);
  }

  /** Buttons that do not both move forward: A = (1, -1), B = (1, 1) and the
      prize at (2, 0) cost 4 (A, then B). */
  lemma DiagonalButtons()
    ensures GameCost(ClawGame(Vector(1, -1), Vector(1, 1), Point(2, 0)), false) == Some(4)
  {
    var cg := ClawGame(Vector(1, -1), Vector(1, 1), Point(2, 0));
    assert Weights(cg) == Some(Vector(1, 0));
    assert Cost(cg, Point(2, -2)) == -1;
    assert Cost(cg, Point(1, -1)) == 1;
  }

  /** Buttons that undo each other: from (0, 0), A = (1, -1) then
      B = (-1, 1) returns to (0, 0), so Go's recursion never ends, and
      part 1 fails. */
  lemma UndoingButtons()
    ensures GameCost(ClawGame(Vector(1, -1), Vector(-1, 1), Point(1, 0)), false).None?
  {
    var cg := ClawGame(Vector(1, -1), Vector(-1, 1), Point(1, 0));
    forall w ensures !Weighs(w, cg) {
      assert Dot(w, cg.buttonA) + Dot(w, cg.buttonB) == 0;
    }
    GameCostNone(cg);
  }

  /** Once a game fails, the total fails. */
  lemma {:induction false} TotalCostFailureSticks(games: seq<ClawGame>, k: nat, withConversionError: bool)
    requires k <= |games| && TotalCost(games[..k], withConversionError).None?
    ensures TotalCost(games, withConversionError).None?
    decreases |games| - k
  {
    if k == |games| {
      assert games[..k] == games;
    } else {
      assert games[..k + 1][..k] == games[..k];
      TotalCostFailureSticks(games, k + 1, withConversionError);
    }
  }

  /** pi.TotalCostToPrizes: the loop over the games. Each game is a copy,
      so moving its prize in part 2 leaves pi as it was. */
  method TotalCostToPrizes(pi: ProblemInput, withConversionError: bool) returns (totalCost: Option<int>)
    ensures totalCost == TotalCost(pi.clawGames, withConversionError)
  {
    var games := pi.clawGames;
    var total := 0;
    for i := 0 to |games|
      invariant TotalCost(games[..i], withConversionError) == Some(total)
    {
      assert games[..i + 1][..i] == games[..i];
      var cost := CostOfGame(games[i], withConversionError);
      if cost.None? {
        TotalCostFailureSticks(games, i + 1, withConversionError);
        return None;
      }
      total := total + cost.value;
    }
    assert games[..|games|] == games;
    return Some(total);
  }

  /** The body of the loop of TotalCostToPrizes for one game. */
  method CostOfGame(cg: ClawGame, withConversionError: bool) returns (cost: Option<int>)
    ensures cost == GameCost(cg, withConversionError)
  {
    var game := cg;
    if withConversionError {
      game := game.(prize := Point(game.prize.x + ConversionError, game.prize.y + ConversionError));
      var a, b := game.buttonA, game.buttonB;
      if a.y * b.x - a.x * b.y == 0 || b.x == 0 {
        return None;
      }
      var aPresses := TDiv(game.prize.y * b.x - game.prize.x * b.y, a.y * b.x - a.x * b.y);
      var bPresses := TDiv(game.prize.x - aPresses * a.x, b.x);
      var tx := aPresses * a.x + bPresses * b.x;
      var ty := aPresses * a.y + bPresses * b.y;
      if tx == game.prize.x && ty == game.prize.y {
        return Some(aPresses * CostOfAButton + bPresses * CostOfBButton);
      }
      return Some(0);
    }
    if !Advances(game) && !Stops(game, Point(0, 0)) {
      return None;
    }
    var memo := new Memo();
    var c := CostToPrize(game, Point(0, 0), memo);
    if c == -1 {
      return Some(0);
    }
    return Some(c);
  }

  // ---------------------------------------------------------------------
  // parseInput

  /** The parse so far: the finished games and the one being filled in. */
  datatype ParseState = ParseState(games: seq<ClawGame>, current: ClawGame)

  const NoGame: ClawGame := ClawGame(Vector(0, 0), Vector(0, 0), Point(0, 0))

  /** "X+1, Y+2" (or "X=1, Y=2"): split on ", " into exactly two parts,
      each trimmed and stripped of its prefix and read as a number; None
      where Go panics. */
  function ParseVector(secondHalf: string, xPrefix: string, yPrefix: string): Option<(int, int)> {
    var parts := SplitOn(secondHalf, ", ");
    if |parts| != 2 then None
    else match (Atoi(TrimPrefix(TrimSpace(parts[0]), xPrefix)), Atoi(TrimPrefix(TrimSpace(parts[1]), yPrefix)))
      case (Some(x), Some(y)) => Some((x, y))
      case _ => None
  }

  /** One line of parseInput: an empty line is skipped; a button line sets
      that button of the game being read; a prize line sets its prize,
      appends the game and starts a new one; other lines are ignored. */
  function ParseLine(st: ParseState, line: string): Option<ParseState> {
    if |line| == 0 then Some(st)
    else if HasPrefix(line, "Button A: ") then
      match ParseVector(TrimPrefix(line, "Button A: "), "X+", "Y+")
      case None => None
      case Some((x, y)) => Some(st.(current := st.current.(buttonA := Vector(x, y))))
    else if HasPrefix(line, "Button B: ") then
      match ParseVector(TrimPrefix(line, "Button B: "), "X+", "Y+")
      case None => None
      case Some((x, y)) => Some(st.(current := st.current.(buttonB := Vector(x, y))))
    else if HasPrefix(line, "Prize: ") then
      match ParseVector(TrimPrefix(line, "Prize: "), "X=", "Y=")
      case None => None
      case Some((x, y)) => Some(ParseState(st.games + [st.current.(prize := Point(x, y))], NoGame))
    else Some(st)
  }

  function ParseLines(lines: seq<string>): Option<ParseState> {
    Fold(lines, ParseState([], NoGame), ParseLine)
  }

  /** parseInput: the lines of the input, read in order. */
  method ParseInput(input: string) returns (pi: Option<ProblemInput>)
    ensures pi.None? <==> ParseLines(Split(input, '\n')).None?
    ensures pi.Some? ==> pi.value.clawGames == ParseLines(Split(input, '\n')).value.games
  {
    var st := FoldLines(Split(input, '\n'), ParseState([], NoGame), ParseLine);
    if st.None? {
      return None;
    }
    return Some(ProblemInput(st.value.games));
  }

  /** The text of a vector, as the puzzle writes it. */
  function VectorText(xPrefix: string, yPrefix: string, x: int, y: int): string {
    (xPrefix + Itoa(x)) + ", " + (yPrefix + Itoa(y))
  }

  lemma PrefixedNumber(prefix: string, n: int)
    requires NoSpace(prefix) && ',' !in prefix
    ensures |prefix + Itoa(n)| > 0 && NoSpace(prefix + Itoa(n)) && ',' !in prefix + Itoa(n)
  {
    ItoaIsWord(n);
    ItoaNoSeparator(n, ',');
    var t := prefix + Itoa(n);
    forall i | 0 <= i < |t|
      ensures !IsSpace(t[i]) && t[i] != ','
    {
      if i >= |prefix| {
        assert t[i] == Itoa(n)[i - |prefix|];
      }
    }
  }

  /** Both parts read as their numbers. */
  lemma ParseVectorOf(secondHalf: string, xPrefix: string, yPrefix: string, p0: string, p1: string, x: int, y: int)
    requires SplitOn(secondHalf, ", ") == [p0, p1]
    requires TrimPrefix(TrimSpace(p0), xPrefix) == Itoa(x) && TrimPrefix(TrimSpace(p1), yPrefix) == Itoa(y)
    ensures ParseVector(secondHalf, xPrefix, yPrefix) == Some((x, y))
  {
    AtoiItoa(x);
    AtoiItoa(y);
  }

  /** A prefixed number is a word and trims back to the number. */
  lemma PrefixedTrim(prefix: string, n: int)
    requires NoSpace(prefix) && ',' !in prefix
    ensures TrimPrefix(TrimSpace(prefix + Itoa(n)), prefix) == Itoa(n)
    ensures ',' !in prefix + Itoa(n)
  {
    PrefixedNumber(prefix, n);
    TrimSpaceWord(prefix + Itoa(n));
    TrimPrefixOf(prefix, Itoa(n));
  }

  /** The text of a vector reads back as the vector. */
  lemma ParseVectorText(xPrefix: string, yPrefix: string, x: int, y: int)
    requires NoSpace(xPrefix) && ',' !in xPrefix && NoSpace(yPrefix) && ',' !in yPrefix
    ensures ParseVector(VectorText(xPrefix, yPrefix, x, y), xPrefix, yPrefix) == Some((x, y))
  {
    var p0, p1 := xPrefix + Itoa(x), yPrefix + Itoa(y);
    PrefixedTrim(xPrefix, x);
    PrefixedTrim(yPrefix, y);
    SplitOnTwo(p0, p1, ", ");
    ParseVectorOf(VectorText(xPrefix, yPrefix, x, y), xPrefix, yPrefix, p0, p1, x, y);
  }

  /** The three lines of a game, as the puzzle writes them. */
  function GameLines(cg: ClawGame): seq<string> {
    ["Button A: " + VectorText("X+", "Y+", cg.buttonA.x, cg.buttonA.y),
     "Button B: " + VectorText("X+", "Y+", cg.buttonB.x, cg.buttonB.y),
     "Prize: " + VectorText("X=", "Y=", cg.prize.x, cg.prize.y)]
  }

  /** A button A line sets button A of the game being read. */
  lemma ParseButtonALine(st: ParseState, body: string, x: int, y: int)
    requires ParseVector(body, "X+", "Y+") == Some((x, y))
    ensures ParseLine(st, "Button A: " + body) == Some(st.(current := st.current.(buttonA := Vector(x, y))))
  {
    TrimPrefixOf("Button A: ", body);
  }

  /** A button B line sets button B of the game being read. */
  lemma ParseButtonBLine(st: ParseState, body: string, x: int, y: int)
    requires ParseVector(body, "X+", "Y+") == Some((x, y))
    ensures ParseLine(st, "Button B: " + body) == Some(st.(current := st.current.(buttonB := Vector(x, y))))
  {
    var line := "Button B: " + body;
    TrimPrefixOf("Button B: ", body);
    NotPrefix(line, "Button A: ", 7);
  }

  /** A prize line sets the prize and closes the game. */
  lemma ParsePrizeLine(st: ParseState, body: string, x: int, y: int)
    requires ParseVector(body, "X=", "Y=") == Some((x, y))
    ensures ParseLine(st, "Prize: " + body) == Some(ParseState(st.games + [st.current.(prize := Point(x, y))], NoGame))
  {
    var line := "Prize: " + body;
    TrimPrefixOf("Prize: ", body);
    NotPrefix(line, "Button A: ", 0);
    NotPrefix(line, "Button B: ", 0);
  }

  /** The game's three lines, each read in turn. */
  lemma ParseGameLine0(st: ParseState, cg: ClawGame)
    ensures ParseLine(st, GameLines(cg)[0]) == Some(st.(current := st.current.(buttonA := cg.buttonA)))
  {
    ParseVectorText("X+", "Y+", cg.buttonA.x, cg.buttonA.y);
    ParseButtonALine(st, VectorText("X+", "Y+", cg.buttonA.x, cg.buttonA.y), cg.buttonA.x, cg.buttonA.y);
  }

  lemma ParseGameLine1(st: ParseState, cg: ClawGame)
    ensures ParseLine(st, GameLines(cg)[1]) == Some(st.(current := st.current.(buttonB := cg.buttonB)))
  {
    ParseVectorText("X+", "Y+", cg.buttonB.x, cg.buttonB.y);
    ParseButtonBLine(st, VectorText("X+", "Y+", cg.buttonB.x, cg.buttonB.y), cg.buttonB.x, cg.buttonB.y);
  }

  lemma ParseGameLine2(st: ParseState, cg: ClawGame)
    ensures ParseLine(st, GameLines(cg)[2]) == Some(ParseState(st.games + [st.current.(prize := cg.prize)], NoGame))
  {
    ParseVectorText("X=", "Y=", cg.prize.x, cg.prize.y);
    ParsePrizeLine(st, VectorText("X=", "Y=", cg.prize.x, cg.prize.y), cg.prize.x, cg.prize.y);
  }

  /** Read from any state, the three lines of a game append that game and
      start a new one. */
  lemma ParseGameLines(st: ParseState, cg: ClawGame)
    ensures Fold(GameLines(cg), st, ParseLine) == Some(ParseState(st.games + [cg], NoGame))
  {
    var lines := GameLines(cg);
    var st1 := st.(current := st.current.(buttonA := cg.buttonA));
    var st2 := st1.(current := st1.current.(buttonB := cg.buttonB));
    ParseGameLine0(st, cg);
    ParseGameLine1(st1, cg);
    ParseGameLine2(st2, cg);
    assert st2.current.(prize := cg.prize) == cg;
    assert lines == [lines[0], lines[1], lines[2]];
    FoldThree(lines[0], lines[1], lines[2], st, st1, st2, ParseLine);
  }

  /** The lines of several games, each followed by an empty line. */
  function GamesLines(games: seq<ClawGame>): seq<string> {
    if games == [] then [] else GamesLines(games[..|games| - 1]) + GameLines(games[|games| - 1]) + [""]
  }

  /** The text of some games reads back as those games. */
  lemma {:induction false} ParseGamesLines(games: seq<ClawGame>)
    ensures ParseLines(GamesLines(games)) == Some(ParseState(games, NoGame))
  {
    if games != [] {
      var init, last := games[..|games| - 1], games[|games| - 1];
      assert init + [last] == games;
      var before, block := GamesLines(init), GameLines(last);
      var start, mid, fin := ParseState([], NoGame), ParseState(init, NoGame), ParseState(games, NoGame);
      ParseGamesLines(init);
      ParseGameLines(mid, last);
      ReadOn(before, block, start, mid, fin, ParseLine);
      FoldOne("", fin, ParseLine);
      assert ParseLine(fin, "") == Some(fin);
      ReadOn(before + block, [""], start, fin, fin, ParseLine);
    }
  }

  // ---------------------------------------------------------------------
  // The solver

  /** SolvePart1: the total cost of the reachable prizes, in decimal. */
  method SolvePart1(input: string) returns (answer: Option<string>)
    ensures var st := ParseLines(Split(input, '\n'));
      answer.Some? <==> st.Some? && TotalCost(st.value.games, false).Some?
    ensures answer.Some? ==> answer.value == Itoa(TotalCost(ParseLines(Split(input, '\n')).value.games, false).value)
  {
    var pi := ParseInput(input);
    if pi.None? {
      return None;
    }
    var cost := TotalCostToPrizes(pi.value, false);
    if cost.None? {
      return None;
    }
    return Some(Itoa(cost.value));
  }

  /** SolvePart2: the same with the prizes moved by 10^13. */
  method SolvePart2(input: string) returns (answer: Option<string>)
    ensures var st := ParseLines(Split(input, '\n'));
      answer.Some? <==> st.Some? && TotalCost(st.value.games, true).Some?
    ensures answer.Some? ==> answer.value == Itoa(TotalCost(ParseLines(Split(input, '\n')).value.games, true).value)
  {
    var pi := ParseInput(input);
    if pi.None? {
      return None;
    }
    var cost := TotalCostToPrizes(pi.value, true);
    if cost.None? {
      return None;
    }
    return Some(Itoa(cost.value));
  }

  // ---------------------------------------------------------------------
  // Finding: CostToPrize is not the lowest cost

  /** With A = (2, 2), B = (1, 1) and the prize at (2, 2), one press of A
      costs 3 and two presses of B cost 2, but CostToPrize picks A because
      the cost left after A (0) is below the cost left after B (1). */
  lemma CostNotLowest()
    ensures var cg := ClawGame(Vector(2, 2), Vector(1, 1), Point(2, 2));
      Cost(cg, Point(0, 0)) == 3 && Reaches(cg, Point(0, 0), 0, 2) && CostWith(cg, Point(0, 0), true) == 2
  {
    var cg := ClawGame(Vector(2, 2), Vector(1, 1), Point(2, 2));
    assert CostWith(cg, Point(3, 3), false) == -1 && CostWith(cg, Point(3, 3), true) == -1;
    assert CostWith(cg, Point(2, 2), false) == 0 && CostWith(cg, Point(2, 2), true) == 0;
    assert CostWith(cg, Point(1, 1), false) == 1 && CostWith(cg, Point(1, 1), true) == 1;
  }

  /** Comparing the totals, the cost is the lowest price of any presses that
      win the prize, and -1 only when none do. */
  lemma CostIntendedLowest(cg: ClawGame, p: Point, a: int, b: int)
    requires Moves(cg) && Reaches(cg, p, a, b)
    ensures 0 <= CostWith(cg, p, true) <= 3 * a + b
    ensures exists a', b' :: Reaches(cg, p, a', b') && CostWith(cg, p, true) == 3 * a' + b'
  {
    RouteIsCosted(cg, p, a, b, true);
    CostIsRoute(cg, p, true);
  }
}
