/** 2023/day06: boat races. Holding the button for s of a race's t
    milliseconds gives speed s for the remaining t - s, so distance
    s * (t - s); a race is won by beating its record distance. */
module Y2023Day06 {
  import opened Text

  datatype RaceTiming = RaceTiming(time: int, distance: int)

  // ---------------------------------------------------------------------
  // CalculateNumberOfWaysToWin

  /** Holding for speed ms beats the record. */
  predicate Wins(rt: RaceTiming, speed: int) {
    speed * (rt.time - speed) > rt.distance
  }

  /** The number of winning hold times among 1..n. */
  function CountWins(rt: RaceTiming, n: int): nat
    decreases n
  {
    if n <= 0 then 0 else CountWins(rt, n - 1) + (if Wins(rt, n) then 1 else 0)
  }

  /** The number of ways to win: winning hold times among 1..time. */
  function Ways(rt: RaceTiming): nat {
    CountWins(rt, rt.time)
  }

  /** CalculateNumberOfWaysToWin: the loop over the hold times. */
  method CalculateNumberOfWaysToWin(rt: RaceTiming) returns (result: nat)
    ensures result == Ways(rt)
  {
    result := 0;
    var speed := 1;
    while speed <= rt.time
      invariant 1 <= speed <= if rt.time >= 0 then rt.time + 1 else 1
      invariant result == CountWins(rt, speed - 1)
      decreases rt.time - speed
    {
      var timeToTravel := rt.time - speed;
      var distance := speed * timeToTravel;
      if distance > rt.distance {
        result := result + 1;
      }
      speed := speed + 1;
    }
    if rt.time >= 0 {
      assert speed == rt.time + 1;
    }
  }

  /** The winning hold times among 1..n. */
  function WinningTimes(rt: RaceTiming, n: int): set<int> {
    set s | 1 <= s <= n && Wins(rt, s)
  }

  /** The count is the number of hold times s in 1..time that win. */
  lemma {:induction false} CountWinsIsSize(rt: RaceTiming, n: int)
    ensures CountWins(rt, n) == |WinningTimes(rt, n)|
    decreases n
  {
    if n <= 0 {
      assert WinningTimes(rt, n) == {};
    } else {
      CountWinsIsSize(rt, n - 1);
      var before := WinningTimes(rt, n - 1);
      if Wins(rt, n) {
        assert WinningTimes(rt, n) == before + {n};
        assert n !in before;
      } else {
        assert WinningTimes(rt, n) == before;
      }
    }
  }

  lemma WaysMeaning(rt: RaceTiming)
    ensures Ways(rt) == |WinningTimes(rt, rt.time)|
  {
    CountWinsIsSize(rt, rt.time);
  }

  /** There are at most time ways to win, and none without time. */
  lemma {:induction false} CountWinsBound(rt: RaceTiming, n: int)
    ensures CountWins(rt, n) <= if n < 0 then 0 else n
    decreases n
  {
    if n > 0 {
      CountWinsBound(rt, n - 1);
    }
  }

  /** Holding for the whole race never wins a race whose record is not
      negative, and holding s or time - s travels the same distance. */
  lemma WinsShape(rt: RaceTiming, s: int)
    ensures rt.distance >= 0 ==> !Wins(rt, rt.time)
    ensures Wins(rt, s) <==> Wins(rt, rt.time - s)
  {
    assert s * (rt.time - s) == (rt.time - s) * (rt.time - (rt.time - s));
  }

  /** Counting the hold times from both ends gives the same number. */
  lemma {:induction false} CountWinsMirror(rt: RaceTiming, n: int)
    requires 0 <= n <= rt.time
    ensures CountWins(rt, n) == |set s | rt.time - n <= s <= rt.time - 1 && Wins(rt, s)|
    decreases n
  {
    var t := rt.time;
    if n == 0 {
      assert (set s | t - n <= s <= t - 1 && Wins(rt, s)) == {};
    } else {
      CountWinsMirror(rt, n - 1);
      var before := set s | t - (n - 1) <= s <= t - 1 && Wins(rt, s);
      WinsShape(rt, n);
      if Wins(rt, n) {
        assert (set s | t - n <= s <= t - 1 && Wins(rt, s)) == before + {t - n};
      } else {
        assert (set s | t - n <= s <= t - 1 && Wins(rt, s)) == before;
      }
    }
  }

  // ---------------------------------------------------------------------
  // SolvePart1

  /** The product of the ways to win over the races; 1 for none. */
  function Product(races: seq<RaceTiming>): int {
    if races == [] then 1 else Product(races[..|races| - 1]) * Ways(races[|races| - 1])
  }

  method MultiplyWays(races: seq<RaceTiming>) returns (result: int)
    ensures result == Product(races)
  {
    result := 1;
    for i := 0 to |races|
      invariant result == Product(races[..i])
    {
      assert races[..i + 1][..i] == races[..i];
      var ways := CalculateNumberOfWaysToWin(races[i]);
      result := result * ways;
    }
    assert races[..|races|] == races;
  }

  /** The product is zero exactly when some race cannot be won, and never
      negative. */
  lemma {:induction false} ProductZero(races: seq<RaceTiming>)
    ensures Product(races) >= 0
    ensures Product(races) == 0 <==> exists i :: 0 <= i < |races| && Ways(races[i]) == 0
  {
    if races != [] {
      var n := |races| - 1;
      var init := races[..n];
      ProductZero(init);
      assert forall i :: 0 <= i < n ==> init[i] == races[i];
      if Product(races) == 0 {
        if Product(init) != 0 {
          assert Ways(races[n]) == 0;
        }
      }
    }
  }

  /** SolvePart1: the product of the ways to win; None where parseInput
      panics. */
  method SolvePart1(input: string) returns (answer: Option<string>)
    ensures answer == match ParseRaces(input)
      case None => None
      case Some(races) => Some(Itoa(Product(races)))
  {
    var races := ParseInput(input);
    if races.None? {
      return None;
    }
    var result := MultiplyWays(races.value);
    return Some(Itoa(result));
  }

  // ---------------------------------------------------------------------
  // parseInput

  /** space.ReplaceAllString(s, " "): every run of \s becomes one space. */
  function CollapseSpace(s: string): (r: string)
    decreases |s|
  {
    if s == [] then []
    else if RegexSpace(s[0]) then
      var k := SpaceRun(s);
      " " + CollapseSpace(s[k..])
    else [s[0]] + CollapseSpace(s[1..])
  }

  /** The races from the pieces of the two lines: piece i >= 1 of the times
      with piece i of the distances; None where MustAtoi or the index into
      the distances panics. */
  function ReadRaces(times: seq<string>, durations: seq<string>, n: nat): Option<seq<RaceTiming>>
    requires n <= |times|
  {
    if n <= 1 then Some([])
    else match ReadRaces(times, durations, n - 1)
      case None => None
      case Some(races) =>
        var i := n - 1;
        match Atoi(times[i])
        case None => None
        case Some(time) =>
          if i >= |durations| then None
          else match Atoi(durations[i])
            case None => None
            case Some(distance) => Some(races + [RaceTiming(time, distance)])
  }

  /** parseInput: the first line holds the times and the second the
      distances, each after a title; None where the Go code panics (fewer
      than two lines, a piece that is not a number, too few distances). */
  function ParseRaces(input: string): Option<seq<RaceTiming>> {
    var lines := Split(input, '\n');
    if |lines| < 2 then None
    else
      var times := Split(CollapseSpace(lines[0]), ' ');
      var durations := Split(CollapseSpace(lines[1]), ' ');
      ReadRaces(times, durations, |times|)
  }

  method ParseInput(input: string) returns (races: Option<seq<RaceTiming>>)
    ensures races == ParseRaces(input)
  {
    var lines := Split(input, '\n');
    if |lines| < 2 {
      return None;
    }
    var times := Split(CollapseSpace(lines[0]), ' ');
    var durations := Split(CollapseSpace(lines[1]), ' ');
    var result: seq<RaceTiming> := [];
    for i := 0 to |times|
      invariant ReadRaces(times, durations, if i == 0 then 1 else i) == Some(result)
    {
      if i == 0 {
        continue;
      }
      var time := Atoi(times[i]);
      if time.None? || i >= |durations| {
        ReadRacesFailureSticks(times, durations, i + 1);
        return None;
      }
      var distance := Atoi(durations[i]);
      if distance.None? {
        ReadRacesFailureSticks(times, durations, i + 1);
        return None;
      }
      result := result + [RaceTiming(time.value, distance.value)];
    }
    return Some(result);
  }

  lemma {:induction false} ReadRacesFailureSticks(times: seq<string>, durations: seq<string>, n: nat)
    requires n <= |times| && ReadRaces(times, durations, n).None?
    ensures ReadRaces(times, durations, |times|).None?
    decreases |times| - n
  {
    if n < |times| {
      ReadRacesFailureSticks(times, durations, n + 1);
    }
  }

  /** Race i pairs the (i+1)-th time with the (i+1)-th distance, the title
      piece of each line being skipped. */
  lemma {:induction false} ReadRacesMeaning(times: seq<string>, durations: seq<string>, n: nat)
    requires n <= |times|
    ensures var r := ReadRaces(times, durations, n);
      r.Some? ==> (|r.value| == (if n == 0 then 0 else n - 1)
        && forall i :: 0 <= i < |r.value| ==>
          i + 1 < |durations|
          && Atoi(times[i + 1]) == Some(r.value[i].time)
          && Atoi(durations[i + 1]) == Some(r.value[i].distance))
  {
    if n > 1 {
      ReadRacesMeaning(times, durations, n - 1);
    }
  }

  /** A line of words separated by single spaces. */
  predicate IsWord(w: string) {
    |w| > 0 && forall i :: 0 <= i < |w| ==> !RegexSpace(w[i])
  }

  /** Collapsing leaves a line of words separated by single spaces as it is. */
  lemma {:induction false} CollapseWords(words: seq<string>)
    requires |words| >= 1
    requires forall i :: 0 <= i < |words| ==> IsWord(words[i])
    ensures CollapseSpace(Join(words, ' ')) == Join(words, ' ')
  {
    if |words| == 1 {
      CollapseWord(words[0], []);
      assert words[0] + [] == words[0];
    } else {
      var rest := Join(words[1..], ' ');
      CollapseWords(words[1..]);
      JoinEnds(words[1..], ' ');
      CollapseSpaceOne(rest);
      CollapseWord(words[0], " " + rest);
      assert Join(words, ' ') == words[0] + (" " + rest);
    }
  }

  lemma CollapseSpaceOne(t: string)
    requires t != [] && !RegexSpace(t[0])
    ensures CollapseSpace(" " + t) == " " + CollapseSpace(t)
  {
    var s := " " + t;
    assert SpaceRun(s) == 1 + SpaceRun(t);
    assert s[1..] == t;
  }

  lemma {:induction false} CollapseWord(w: string, tail: string)
    requires forall i :: 0 <= i < |w| ==> !RegexSpace(w[i])
    ensures CollapseSpace(w + tail) == w + CollapseSpace(tail)
    decreases |w|
  {
    if w != [] {
      var s := w + tail;
      assert s[0] == w[0] && s[1..] == w[1..] + tail;
      assert CollapseSpace(s) == [w[0]] + CollapseSpace(s[1..]);
      CollapseWord(w[1..], tail);
      assert w == [w[0]] + w[1..];
    } else {
      assert w + tail == tail;
    }
  }

  /** The decimal text of a number has no \s in it. */
  lemma ItoaWord(n: int)
    ensures IsWord(Itoa(n))
  {
    ItoaIsWord(n);
  }

  /** A line: a title, then the numbers, separated by single spaces. */
  function RaceLine(title: string, values: seq<int>): string {
    Join([title] + ItoaAll(values), ' ')
  }

  /** The pieces of a race line after collapsing: the title and the numbers. */
  lemma RaceLinePieces(title: string, values: seq<int>)
    requires IsWord(title)
    ensures Split(CollapseSpace(RaceLine(title, values)), ' ') == [title] + ItoaAll(values)
  {
    var words := [title] + ItoaAll(values);
    forall i | 0 <= i < |words|
      ensures IsWord(words[i]) && ' ' !in words[i]
    {
      if i > 0 {
        ItoaWord(values[i - 1]);
      }
    }
    CollapseWords(words);
    SplitJoin(words, ' ');
  }

  /** parseInput reads back the races of two such lines, followed by a
      newline. */
  lemma ParseRacesText(timeTitle: string, distanceTitle: string, races: seq<RaceTiming>)
    requires IsWord(timeTitle) && IsWord(distanceTitle)
    ensures ParseRaces(RaceLine(timeTitle, Times(races)) + "\n" + RaceLine(distanceTitle, Distances(races)) + "\n")
      == Some(races)
  {
    var l0, l1 := RaceLine(timeTitle, Times(races)), RaceLine(distanceTitle, Distances(races));
    RaceLineNoNewline(timeTitle, Times(races));
    RaceLineNoNewline(distanceTitle, Distances(races));
    TwoLines(l0, l1);
    RaceLinePieces(timeTitle, Times(races));
    RaceLinePieces(distanceTitle, Distances(races));
    forall i | 0 <= i < |races|
      ensures Atoi(Itoa(races[i].time)) == Some(races[i].time)
      ensures Atoi(Itoa(races[i].distance)) == Some(races[i].distance)
    {
      AtoiItoa(races[i].time);
      AtoiItoa(races[i].distance);
    }
    ReadRacesOf([timeTitle] + ItoaAll(Times(races)), [distanceTitle] + ItoaAll(Distances(races)), races);
  }

  lemma RaceLineNoNewline(title: string, values: seq<int>)
    requires IsWord(title)
    ensures '\n' !in RaceLine(title, values)
  {
    var words := [title] + ItoaAll(values);
    forall i | 0 <= i < |words|
      ensures '\n' !in words[i]
    {
      if i > 0 {
        ItoaNoSeparator(values[i - 1], '\n');
      }
    }
    JoinHasNo(words, ' ', '\n');
  }

  lemma TwoLines(l0: string, l1: string)
    requires '\n' !in l0 && '\n' !in l1
    ensures Split(l0 + "\n" + l1 + "\n", '\n') == [l0, l1, ""]
  {
    assert [l0, l1, ""][1..] == [l1, ""];
    assert [l1, ""][1..] == [""];
    assert Join([l1, ""], '\n') == l1 + "\n" + "";
    assert Join([l0, l1, ""], '\n') == l0 + "\n" + (l1 + "\n" + "");
    assert l0 + "\n" + (l1 + "\n" + "") == l0 + "\n" + l1 + "\n";
    SplitJoin([l0, l1, ""], '\n');
  }

  function Times(races: seq<RaceTiming>): (r: seq<int>)
    ensures |r| == |races| && forall i :: 0 <= i < |races| ==> r[i] == races[i].time
  {
    seq(|races|, i requires 0 <= i < |races| => races[i].time)
  }

  function Distances(races: seq<RaceTiming>): (r: seq<int>)
    ensures |r| == |races| && forall i :: 0 <= i < |races| ==> r[i] == races[i].distance
  {
    seq(|races|, i requires 0 <= i < |races| => races[i].distance)
  }

  lemma {:induction false} ReadRacesOf(times: seq<string>, durations: seq<string>, races: seq<RaceTiming>)
    requires |times| == |durations| == |races| + 1
    requires forall i :: 0 <= i < |races| ==> Atoi(times[i + 1]) == Some(races[i].time)
    requires forall i :: 0 <= i < |races| ==> Atoi(durations[i + 1]) == Some(races[i].distance)
    ensures ReadRaces(times, durations, |times|) == Some(races)
  {
    ReadRacesPrefix(times, durations, races, |races|);
    assert races[..|races|] == races;
  }

  lemma {:induction false} ReadRacesPrefix(times: seq<string>, durations: seq<string>, races: seq<RaceTiming>, k: nat)
    requires |times| == |durations| == |races| + 1 && k <= |races|
    requires forall i :: 0 <= i < |races| ==> Atoi(times[i + 1]) == Some(races[i].time)
    requires forall i :: 0 <= i < |races| ==> Atoi(durations[i + 1]) == Some(races[i].distance)
    ensures ReadRaces(times, durations, k + 1) == Some(races[..k])
  {
    if k > 0 {
      ReadRacesPrefix(times, durations, races, k - 1);
      assert races[..k] == races[..k - 1] + [RaceTiming(races[k - 1].time, races[k - 1].distance)];
    }
  }
}
