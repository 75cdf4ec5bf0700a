/** 2024/day14: robots move on a room that wraps around at its edges. After
    a number of steps every robot is assigned to one of four quadrants (or
    to none, when it sits on a middle line), and the safety factor is the
    product of the four quadrant counts.

    The input is taken as its list of lines; common.ReadAsLines is not part
    of this model. */
module Y2024Day14 {
  import opened Text
  import opened GoMath
  import opened LineFold

  datatype RoomDimensions = RoomDimensions(width: int, height: int)

  const ExampleDimensions: RoomDimensions := RoomDimensions(11, 7)
  const RealDimensions: RoomDimensions := RoomDimensions(101, 103)

  datatype Point = Point(x: int, y: int)
  datatype Velocity = Velocity(dx: int, dy: int)
  datatype Robot = Robot(position: Point, velocity: Velocity)

  predicate InRoom(dims: RoomDimensions, p: Point) {
    0 <= p.x < dims.width && 0 <= p.y < dims.height
  }

  // ---------------------------------------------------------------------
  // Step

  /** One robot after Step(n), as the loop body computes it: X moves by n
      times Dx and wraps, Y is set to n times Dy and wraps, and a negative
      remainder is lifted by the room size. Go's % truncates toward zero. */
  function MoveRobot(r: Robot, dims: RoomDimensions, n: int): Robot
    requires dims.width != 0 && dims.height != 0
  {
    var x := TMod(r.position.x + n * r.velocity.dx, dims.width);
    var y := TMod(n * r.velocity.dy, dims.height);
    Robot(Point(if x < 0 then x + dims.width else x, if y < 0 then y + dims.height else y), r.velocity)
  }

  /** In a room of positive size the moved robot is in the room, at the
      Euclidean remainders of X + n*Dx and of n*Dy, with its velocity kept:
      the start Y plays no part. */
  lemma MoveRobotMeaning(r: Robot, dims: RoomDimensions, n: int)
    requires dims.width > 0 && dims.height > 0
    ensures var m := MoveRobot(r, dims, n);
      && m.position == Point((r.position.x + n * r.velocity.dx) % dims.width, (n * r.velocity.dy) % dims.height)
      && InRoom(dims, m.position)
      && m.velocity == r.velocity
  {
    NormalisedMod(r.position.x + n * r.velocity.dx, dims.width);
    NormalisedMod(n * r.velocity.dy, dims.height);
  }

  /** Every robot moved by n steps, in order. */
  function StepAll(robots: seq<Robot>, dims: RoomDimensions, n: int): seq<Robot>
    requires dims.width != 0 && dims.height != 0
  {
    seq(|robots|, i requires 0 <= i < |robots| => MoveRobot(robots[i], dims, n))
  }

  // ---------------------------------------------------------------------
  // WhichQuadrant

  /** pi.WhichQuadrant: 0 top left, 1 top right, 2 bottom left, 3 bottom
      right, 4 on a middle line. The middle is Go's Width/2 and Height/2. */
  function WhichQuadrant(dims: RoomDimensions, p: Point): (q: int)
    ensures 0 <= q <= 4
    ensures dims.height != 0 && p.y == TDiv(dims.height, 2) ==> q == 4
  {
    var midX := if dims.width == 0 then 0 else TDiv(dims.width, 2);
    var midY := if dims.height == 0 then 0 else TDiv(dims.height, 2);
    if p.x < midX && p.y < midY then 0
    else if p.x >= midX && p.y < midY then 1
    else if p.x < midX && p.y > midY then 2
    else if p.x > midX && p.y > midY then 3
    else 4
  }

  /** Above the middle row every point is in quadrant 0 or 1, the middle
      column included in 1; below it the middle column is in no quadrant. */
  lemma QuadrantHalves(dims: RoomDimensions, p: Point)
    requires dims.width > 0 && dims.height > 0
    ensures var q := WhichQuadrant(dims, p);
      && (p.y < dims.height / 2 ==> (q == 0 <==> p.x < dims.width / 2) && (q == 1 <==> p.x >= dims.width / 2))
      && (p.y > dims.height / 2 ==>
            (q == 2 <==> p.x < dims.width / 2) && (q == 3 <==> p.x > dims.width / 2) && (q == 4 <==> p.x == dims.width / 2))
  {
    TDivMatchesEuclid(dims.width, 2);
    TDivMatchesEuclid(dims.height, 2);
  }

  // ---------------------------------------------------------------------
  // ComputeSafetyfactor

  /** How many of the robots stand in quadrant q. */
  function QuadrantCount(dims: RoomDimensions, robots: seq<Robot>, q: int): nat {
    if robots == [] then 0
    else
      var last := robots[|robots| - 1];
      QuadrantCount(dims, robots[..|robots| - 1], q) + (if WhichQuadrant(dims, last.position) == q then 1 else 0)
  }

  /** The safety factor: the product of the counts of the four quadrants. */
  function SafetyFactor(dims: RoomDimensions, robots: seq<Robot>): int {
    QuadrantCount(dims, robots, 0) * QuadrantCount(dims, robots, 1)
      * QuadrantCount(dims, robots, 2) * QuadrantCount(dims, robots, 3)
  }

  /** Every robot is counted in exactly one of the five slots. */
  lemma {:induction false} QuadrantCountsTotal(dims: RoomDimensions, robots: seq<Robot>)
    ensures QuadrantCount(dims, robots, 0) + QuadrantCount(dims, robots, 1) + QuadrantCount(dims, robots, 2)
      + QuadrantCount(dims, robots, 3) + QuadrantCount(dims, robots, 4) == |robots|
  {
    if robots != [] {
      QuadrantCountsTotal(dims, robots[..|robots| - 1]);
    }
  }

  /** A robot on a middle line leaves the safety factor as it was. */
  lemma SafetyIgnoresMiddle(dims: RoomDimensions, robots: seq<Robot>, r: Robot)
    requires WhichQuadrant(dims, r.position) == 4
    ensures SafetyFactor(dims, robots + [r]) == SafetyFactor(dims, robots)
  {
    assert (robots + [r])[..|robots|] == robots;
  }

  // ---------------------------------------------------------------------
  // The problem input

  class ProblemInput {
    var dimensions: RoomDimensions
    var robots: seq<Robot>

    constructor(dimensions: RoomDimensions, robots: seq<Robot>)
      ensures this.dimensions == dimensions && this.robots == robots
    {
      this.dimensions := dimensions;
      this.robots := robots;
    }

    /** pi.Step: moves every robot numSteps times, in place. */
    method Step(numSteps: int)
      requires dimensions.width != 0 && dimensions.height != 0
      modifies this
      ensures dimensions == old(dimensions)
      ensures robots == StepAll(old(robots), dimensions, numSteps)
      ensures |robots| == |old(robots)|
      ensures dimensions.width > 0 && dimensions.height > 0 ==>
        forall i :: 0 <= i < |robots| ==>
          && robots[i].velocity == old(robots)[i].velocity
          && InRoom(dimensions, robots[i].position)
          && robots[i].position.x == (old(robots)[i].position.x + numSteps * old(robots)[i].velocity.dx) % dimensions.width
          && robots[i].position.y == (numSteps * old(robots)[i].velocity.dy) % dimensions.height
    {
      ghost var start := robots;
      for i := 0 to |robots|
        invariant dimensions == old(dimensions)
        invariant |robots| == |start|
        invariant forall j :: 0 <= j < i ==> robots[j] == MoveRobot(start[j], dimensions, numSteps)
        invariant forall j :: i <= j < |robots| ==> robots[j] == start[j]
      {
        var r := robots[i];
        var x := r.position.x + numSteps * r.velocity.dx;
        x := TMod(x, dimensions.width);
        var y := numSteps * r.velocity.dy;
        y := TMod(y, dimensions.height);
        if x < 0 {
          x := x + dimensions.width;
        }
        if y < 0 {
          y := y + dimensions.height;
        }
        robots := robots[i := Robot(Point(x, y), r.velocity)];
      }
      if dimensions.width > 0 && dimensions.height > 0 {
        forall i | 0 <= i < |robots|
          ensures robots[i].velocity == start[i].velocity && InRoom(dimensions, robots[i].position)
          ensures robots[i].position.x == (start[i].position.x + numSteps * start[i].velocity.dx) % dimensions.width
          ensures robots[i].position.y == (numSteps * start[i].velocity.dy) % dimensions.height
        {
          MoveRobotMeaning(start[i], dimensions, numSteps);
        }
      }
    }

    /** pi.ComputeSafetyfactor: counts the robots per quadrant in a table of
        five and multiplies the first four counts. */
    method ComputeSafetyfactor() returns (safetyFactor: int)
      ensures safetyFactor == SafetyFactor(dimensions, robots)
    {
      var counts := new int[5](_ => 0);
      for i := 0 to |robots|
        invariant forall q :: 0 <= q < 5 ==> counts[q] == QuadrantCount(dimensions, robots[..i], q)
      {
        assert robots[..i + 1][..i] == robots[..i];
        var quadrant := WhichQuadrant(dimensions, robots[i].position);
        counts[quadrant] := counts[quadrant] + 1;
      }
      assert robots[..|robots|] == robots;
      safetyFactor := counts[0] * counts[1] * counts[2] * counts[3];
    }
  }

  // ---------------------------------------------------------------------
  // parseInput

  /** One "p=X,Y" or "v=DX,DY" field: trimmed, the prefix dropped, split on
      commas; the first two pieces are read as numbers. Fewer than two
      pieces (an index out of range) or a piece that is not a number (a
      MustAtoi panic) gives None. */
  function ParsePair(part: string, prefix: string): Option<(int, int)> {
    var pieces := Split(TrimPrefix(TrimSpace(part), prefix), ',');
    if |pieces| < 2 then None
    else match (Atoi(pieces[0]), Atoi(pieces[1]))
      case (Some(a), Some(b)) => Some((a, b))
      case _ => None
  }

  /** One line of parseInput: exactly two fields, the position and the
      velocity; any other number of fields panics. */
  function ParseRobot(line: string): Option<Robot> {
    var parts := Fields(line);
    if |parts| != 2 then None
    else match (ParsePair(parts[0], "p="), ParsePair(parts[1], "v="))
      case (Some((x, y)), Some((dx, dy))) => Some(Robot(Point(x, y), Velocity(dx, dy)))
      case _ => None
  }

  /** The field text of a pair of numbers. */
  function PairText(prefix: string, a: int, b: int): string {
    prefix + (Itoa(a) + [','] + Itoa(b))
  }

  /** The line of a robot, as the puzzle writes it. */
  function RobotText(r: Robot): string {
    PairText("p=", r.position.x, r.position.y) + " " + PairText("v=", r.velocity.dx, r.velocity.dy)
  }

  lemma PairTextIsWord(prefix: string, a: int, b: int)
    requires NoSpace(prefix)
    ensures |PairText(prefix, a, b)| > 0 && NoSpace(PairText(prefix, a, b))
  {
    ItoaIsWord(a);
    ItoaIsWord(b);
    var t := PairText(prefix, a, b);
    forall i | 0 <= i < |t|
      ensures !IsSpace(t[i])
    {
      if i < |prefix| {
        assert t[i] == prefix[i];
      } else if i < |prefix| + |Itoa(a)| {
        assert t[i] == Itoa(a)[i - |prefix|];
      } else if i > |prefix| + |Itoa(a)| {
        assert t[i] == Itoa(b)[i - |prefix| - |Itoa(a)| - 1];
      }
    }
  }

  /** A field whose trimmed, unprefixed text splits into two numbers reads
      as those numbers. */
  lemma ParsePairOf(part: string, prefix: string, body: string, a: int, b: int)
    requires TrimPrefix(TrimSpace(part), prefix) == body
    requires Split(body, ',') == [Itoa(a), Itoa(b)]
    ensures ParsePair(part, prefix) == Some((a, b))
  {
    AtoiItoa(a);
    AtoiItoa(b);
  }

  /** Trimmed and unprefixed, the text of a pair is the two numbers around
      a comma. */
  lemma PairBody(prefix: string, a: int, b: int)
    requires NoSpace(prefix)
    ensures TrimPrefix(TrimSpace(PairText(prefix, a, b)), prefix) == Itoa(a) + [','] + Itoa(b)
  {
    var t := PairText(prefix, a, b);
    PairTextIsWord(prefix, a, b);
    TrimSpaceWord(t);
    TrimPrefixOf(prefix, Itoa(a) + [','] + Itoa(b));
  }

  /** The text of a pair reads back as the pair. */
  lemma ParsePairText(prefix: string, a: int, b: int)
    requires NoSpace(prefix)
    ensures ParsePair(PairText(prefix, a, b), prefix) == Some((a, b))
  {
    PairBody(prefix, a, b);
    ItoaNoSeparator(a, ',');
    ItoaNoSeparator(b, ',');
    SplitTwo(Itoa(a), Itoa(b), ',');
    ParsePairOf(PairText(prefix, a, b), prefix, Itoa(a) + [','] + Itoa(b), a, b);
  }

  /** A line of two fields that read as a position and a velocity reads as
      that robot. */
  lemma ParseRobotOf(line: string, p: string, v: string, r: Robot)
    requires Fields(line) == [p, v]
    requires ParsePair(p, "p=") == Some((r.position.x, r.position.y))
    requires ParsePair(v, "v=") == Some((r.velocity.dx, r.velocity.dy))
    ensures ParseRobot(line) == Some(r)
  {
  }

  /** The line of a robot reads back as that robot. */
  lemma ParseRobotText(r: Robot)
    ensures ParseRobot(RobotText(r)) == Some(r)
  {
    var p := PairText("p=", r.position.x, r.position.y);
    var v := PairText("v=", r.velocity.dx, r.velocity.dy);
    PairTextIsWord("p=", r.position.x, r.position.y);
    PairTextIsWord("v=", r.velocity.dx, r.velocity.dy);
    JoinTwo(p, v, ' ');
    FieldsOfJoin([p, v]);
    ParsePairText("p=", r.position.x, r.position.y);
    ParsePairText("v=", r.velocity.dx, r.velocity.dy);
    ParseRobotOf(RobotText(r), p, v, r);
  }

  /** The room size parseInput picks from the number of lines. */
  function DimensionsFor(lineCount: nat): RoomDimensions {
    if lineCount > 20 then RealDimensions else ExampleDimensions
  }

  /** parseInput: the room size from the line count, then one robot per
      line, in order; null where a line panics. */
  method ParseInput(lines: seq<string>) returns (pi: ProblemInput?)
    ensures pi == null <==> ReadAll(lines, ParseRobot).None?
    ensures pi != null ==> fresh(pi) && pi.robots == ReadAll(lines, ParseRobot).value
    ensures pi != null && |lines| > 20 ==> pi.dimensions == RoomDimensions(101, 103)
    ensures pi != null && |lines| <= 20 ==> pi.dimensions == RoomDimensions(11, 7)
  {
    var acc := [];
    for i := 0 to |lines|
      invariant ReadAll(lines[..i], ParseRobot) == Some(acc)
    {
      FoldStep(lines, i, [], Append(ParseRobot));
      var robot := ParseRobot(lines[i]);
      if robot.None? {
        FoldFailureSticks(lines, i + 1, [], Append(ParseRobot));
        return null;
      }
      acc := acc + [robot.value];
    }
    assert lines[..|lines|] == lines;
    pi := new ProblemInput(DimensionsFor(|lines|), acc);
  }

  // ---------------------------------------------------------------------
  // The solver

  /** The answer of part 1 for parsed robots: their safety factor after a
      hundred steps. */
  function Part1Answer(lineCount: nat, robots: seq<Robot>): string {
    var dims := DimensionsFor(lineCount);
    Itoa(SafetyFactor(dims, StepAll(robots, dims, 100)))
  }

  /** SolvePart1: parse, step a hundred times, and print the safety factor;
      None where parsing panics. The call into the separate d14 package and
      the progress prints are not part of this model. */
  method SolvePart1(lines: seq<string>) returns (answer: Option<string>)
    ensures answer.None? <==> ReadAll(lines, ParseRobot).None?
    ensures answer.Some? ==> answer.value == Part1Answer(|lines|, ReadAll(lines, ParseRobot).value)
  {
    var pi := ParseInput(lines);
    if pi == null {
      return None;
    }
    pi.Step(100);
    var safetyFactor := pi.ComputeSafetyfactor();
    answer := Some(Itoa(safetyFactor));
  }

  // ---------------------------------------------------------------------
  // Finding: Step discards the start Y

  /** After Step the Y of a robot does not depend on where it started. */
  lemma MoveRobotForgetsY(r: Robot, dims: RoomDimensions, n: int, y: int)
    requires dims.width != 0 && dims.height != 0
    ensures MoveRobot(r, dims, n) == MoveRobot(r.(position := r.position.(y := y)), dims, n)
  {
  }

  /** So moving is not additive: a robot at (0, 0) moving one cell down per
      step is at row 2 after 100 steps, again at row 2 after a further 100,
      but at row 4 after 200; and a robot standing still at (0, 1) is moved
      to (0, 0). */
  lemma MoveRobotNotAdditive()
    ensures var r := Robot(Point(0, 0), Velocity(0, 1));
      && MoveRobot(MoveRobot(r, ExampleDimensions, 100), ExampleDimensions, 100).position == Point(0, 2)
      && MoveRobot(r, ExampleDimensions, 200).position == Point(0, 4)
    ensures MoveRobot(Robot(Point(0, 1), Velocity(0, 0)), ExampleDimensions, 100).position == Point(0, 0)
  {
    var r := Robot(Point(0, 0), Velocity(0, 1));
    var d := ExampleDimensions;
    assert TMod(100, 7) == 2 && TMod(2 + 100, 7) != 2 && TMod(200, 7) == 4;
    assert TMod(0, 11) == 0 && TMod(0, 7) == 0;
  }

  /** The evidently intended move: both coordinates advance by n times the
      velocity and wrap. */
  function MoveRobotIntended(r: Robot, dims: RoomDimensions, n: int): (m: Robot)
    requires dims.width > 0 && dims.height > 0
    ensures InRoom(dims, m.position) && m.velocity == r.velocity
    ensures m.position == Point((r.position.x + n * r.velocity.dx) % dims.width, (r.position.y + n * r.velocity.dy) % dims.height)
  {
    var x := TMod(r.position.x + n * r.velocity.dx, dims.width);
    var y := TMod(r.position.y + n * r.velocity.dy, dims.height);
    NormalisedMod(r.position.x + n * r.velocity.dx, dims.width);
    NormalisedMod(r.position.y + n * r.velocity.dy, dims.height);
    Robot(Point(if x < 0 then x + dims.width else x, if y < 0 then y + dims.height else y), r.velocity)
  }

  /** Moving a steps and then b steps is moving a + b steps, and a robot in
      the room that takes no step stays where it is. */
  lemma MoveRobotIntendedAdditive(r: Robot, dims: RoomDimensions, a: int, b: int)
    requires dims.width > 0 && dims.height > 0
    ensures MoveRobotIntended(MoveRobotIntended(r, dims, a), dims, b) == MoveRobotIntended(r, dims, a + b)
    ensures InRoom(dims, r.position) ==> MoveRobotIntended(r, dims, 0) == r
  {
    var p, v := r.position, r.velocity;
    ModAdd(p.x + a * v.dx, b * v.dx, dims.width);
    ModAdd(p.y + a * v.dy, b * v.dy, dims.height);
    assert p.x + a * v.dx + b * v.dx == p.x + (a + b) * v.dx;
    assert p.y + a * v.dy + b * v.dy == p.y + (a + b) * v.dy;
    if InRoom(dims, p) {
      ModUnique(p.x, dims.width, 0, p.x);
      ModUnique(p.y, dims.height, 0, p.y);
    }
  }

  // ---------------------------------------------------------------------
  // Finding: the middle column counts in quadrant 1

  /** In the 11 by 7 room the middle column is in quadrant 1 above the
      middle row but in no quadrant below it. */
  lemma QuadrantMiddleColumn()
    ensures WhichQuadrant(ExampleDimensions, Point(5, 0)) == 1
    ensures WhichQuadrant(ExampleDimensions, Point(5, 6)) == 4
  {
  }

  /** The evidently intended quadrant: both middle lines are in none. */
  function QuadrantIntended(dims: RoomDimensions, p: Point): (q: int)
    requires dims.width > 0 && dims.height > 0
    ensures 0 <= q <= 4
    ensures q == 4 <==> p.x == dims.width / 2 || p.y == dims.height / 2
  {
    var midX, midY := dims.width / 2, dims.height / 2;
    if p.x == midX || p.y == midY then 4
    else if p.x < midX && p.y < midY then 0
    else if p.x > midX && p.y < midY then 1
    else if p.x < midX then 2
    else 3
  }

  /** The quadrant of the mirror image across the vertical middle line. */
  function MirrorQuadrant(q: int): int {
    if q == 0 then 1 else if q == 1 then 0 else if q == 2 then 3 else if q == 3 then 2 else q
  }

  /** In a room of odd width the intended quadrants are symmetric about the
      middle column; the quadrants as written are not (QuadrantMiddleColumn:
      (5, 0) is its own mirror image, yet lies in quadrant 1). */
  lemma QuadrantIntendedMirror(dims: RoomDimensions, p: Point)
    requires dims.width > 0 && dims.height > 0 && dims.width % 2 == 1
    ensures QuadrantIntended(dims, Point(dims.width - 1 - p.x, p.y)) == MirrorQuadrant(QuadrantIntended(dims, p))
  {
    assert dims.width - 1 == 2 * (dims.width / 2);
  }

  lemma QuadrantAsWrittenNotMirrored()
    ensures WhichQuadrant(ExampleDimensions, Point(10 - 5, 0)) != MirrorQuadrant(WhichQuadrant(ExampleDimensions, Point(5, 0)))
  {
  }
}
