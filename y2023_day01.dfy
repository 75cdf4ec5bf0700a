/** 2023/day01: the first, self-contained solver. Each line's calibration
    value is the two-digit number made of its first and last digit, and the
    answer is their sum. The solver also formats its own input URL and
    cache path, and reads session cookies as common/problemsolver.go does
    (see Harness.ReadCookies). */
module Y2023Day01 {
  import opened Text

  // ---------------------------------------------------------------------
  // NewProblemSolver and Solve

  /** The settings NewProblemSolver derives from its arguments. */
  datatype ProblemSolver = ProblemSolver(
    part: int, baseUrl: string, inputUrl: string, cacheKey: string, cookieFilePath: string)

  /** "%s/%d/day/%d/input" */
  function InputUrl(baseUrl: string, year: int, day: int): string {
    baseUrl + "/" + Itoa(year) + "/day/" + Itoa(day) + "/input"
  }

  /** "%s/input-%d-%d-%d.txt" */
  function CacheKey(cacheDir: string, year: int, day: int, part: int): string {
    cacheDir + "/input-" + Join([Itoa(year), Itoa(day), Itoa(part)], '-') + ".txt"
  }

  function NewProblemSolver(cookieFilePath: string, baseUrl: string, cacheDir: string,
                            year: int, day: int, part: int): (ps: ProblemSolver)
    ensures ps.part == part && ps.baseUrl == baseUrl && ps.cookieFilePath == cookieFilePath
    ensures ps.inputUrl == InputUrl(baseUrl, year, day)
    ensures ps.cacheKey == CacheKey(cacheDir, year, day, part)
  {
    ProblemSolver(part, baseUrl, InputUrl(baseUrl, year, day), CacheKey(cacheDir, year, day, part), cookieFilePath)
  }

  lemma NonNegativeHasNoDash(n: int)
    requires n >= 0
    ensures '-' !in Itoa(n)
  {
    assert AllDigits(Itoa(n));
  }

  /** Within one cache directory, the cache path tells the year, the day and
      the part apart (for non-negative values); unlike common/flags.go, the
      part is part of the key. */
  lemma CacheKeyInjective(cacheDir: string, y1: int, d1: int, p1: int, y2: int, d2: int, p2: int)
    requires y1 >= 0 && d1 >= 0 && p1 >= 0 && y2 >= 0 && d2 >= 0 && p2 >= 0
    ensures CacheKey(cacheDir, y1, d1, p1) == CacheKey(cacheDir, y2, d2, p2) <==> y1 == y2 && d1 == d2 && p1 == p2
  {
    if CacheKey(cacheDir, y1, d1, p1) == CacheKey(cacheDir, y2, d2, p2) {
      var prefix := cacheDir + "/input-";
      var j1 := Join([Itoa(y1), Itoa(d1), Itoa(p1)], '-');
      var j2 := Join([Itoa(y2), Itoa(d2), Itoa(p2)], '-');
      StripAround(prefix, j1, j2, ".txt");
      NonNegativeHasNoDash(y1); NonNegativeHasNoDash(d1); NonNegativeHasNoDash(p1);
      NonNegativeHasNoDash(y2); NonNegativeHasNoDash(d2); NonNegativeHasNoDash(p2);
      SplitJoin([Itoa(y1), Itoa(d1), Itoa(p1)], '-');
      SplitJoin([Itoa(y2), Itoa(d2), Itoa(p2)], '-');
      ItoaInjective(y1, y2);
      ItoaInjective(d1, d2);
      ItoaInjective(p1, p2);
    }
  }

  lemma StripAround(prefix: string, a: string, b: string, suffix: string)
    requires prefix + a + suffix == prefix + b + suffix
    ensures a == b
  {
    var s1, s2 := prefix + a + suffix, prefix + b + suffix;
    assert |a| == |b|;
    assert a == s1[|prefix|..|prefix| + |a|];
    assert b == s2[|prefix|..|prefix| + |b|];
  }

  /** The input URL lies under the base URL. */
  lemma InputUrlUnderBase(baseUrl: string, year: int, day: int)
    ensures HasPrefix(InputUrl(baseUrl, year, day), baseUrl + "/")
  {
    var url := InputUrl(baseUrl, year, day);
    assert url == (baseUrl + "/") + (Itoa(year) + "/day/" + Itoa(day) + "/input");
  }

  /** Solve: part 1 when part is 1, and the constant of SolvePart2 otherwise. */
  function Solve(ps: ProblemSolver, input: string): (r: Option<string>)
    ensures ps.part != 1 ==> r == Some("Solving problem")
    ensures ps.part == 1 ==> r == SumOfLines(Split(input, '\n'))
  {
    if ps.part == 1 then SumOfLines(Split(input, '\n')) else Some("Solving problem")
  }

  // ---------------------------------------------------------------------
  // SolvePart1

  /** The digits of a line, in order. */
  function DigitsOf(s: string): (d: string)
    ensures |d| <= |s| && AllDigits(d)
  {
    if s == [] then []
    else DigitsOf(s[..|s| - 1]) + if IsDigit(s[|s| - 1]) then [s[|s| - 1]] else []
  }

  /** The calibration value: first digit then last digit read as a number;
      a line without digits makes Atoi fail. */
  function LineValue(line: string): (v: Option<int>)
    ensures v.Some? <==> DigitsOf(line) != []
  {
    var d := DigitsOf(line);
    if d == [] then None else Some(10 * DigitValue(d[0]) + DigitValue(d[|d| - 1]))
  }

  /** A calibration value is a two-digit number (possibly with a leading
      zero); a line with one digit uses it twice. */
  lemma LineValueBounds(line: string)
    ensures LineValue(line).Some? ==> 0 <= LineValue(line).value <= 99
    ensures |DigitsOf(line)| == 1 ==> LineValue(line) == Some(11 * DigitValue(DigitsOf(line)[0]))
  {
  }

  /** Characters that are not digits do not change a line's value. */
  lemma {:induction false} DigitsOfSkips(x: string, c: char, y: string)
    requires !IsDigit(c)
    ensures DigitsOf(x + [c] + y) == DigitsOf(x + y)
    decreases |y|
  {
    if y == [] {
      assert (x + [c] + y)[..|x|] == x;
      assert x + y == x;
    } else {
      var n := |y| - 1;
      assert (x + [c] + y)[..|x| + 1 + n] == x + [c] + y[..n];
      assert (x + y)[..|x| + n] == x + y[..n];
      DigitsOfSkips(x, c, y[..n]);
    }
  }

  /** Atoi on the two runes firstDigit and lastDigit. */
  lemma AtoiTwoDigits(a: char, b: char)
    ensures IsDigit(a) && IsDigit(b) ==> Atoi([a, b]) == Some(10 * DigitValue(a) + DigitValue(b))
    ensures a == '\0' ==> Atoi([a, b]).None?
  {
    if IsDigit(a) && IsDigit(b) {
      assert [a, b][..1] == [a];
      assert [a][..0] == [];
      assert DigitsValue([a]) == DigitValue(a);
    }
  }

  /** The digit scan of one trimmed line: firstDigit and lastDigit start as
      the zero rune, and Atoi of the two fails when no digit was seen. */
  method CalibrationValue(cleanLine: string) returns (val: Option<int>)
    ensures val == LineValue(cleanLine)
  {
    var firstDigit, lastDigit := '\0', '\0';
    for i := 0 to |cleanLine|
      invariant var d := DigitsOf(cleanLine[..i]);
        && (d == [] ==> firstDigit == '\0' && lastDigit == '\0')
        && (d != [] ==> firstDigit == d[0] && lastDigit == d[|d| - 1])
    {
      assert cleanLine[..i + 1][..i] == cleanLine[..i];
      var r := cleanLine[i];
      if IsDigit(r) {
        if firstDigit == '\0' {
          firstDigit := r;
          lastDigit := firstDigit;
        } else {
          lastDigit := r;
        }
      }
    }
    assert cleanLine[..|cleanLine|] == cleanLine;
    AtoiTwoDigits(firstDigit, lastDigit);
    val := Atoi([firstDigit, lastDigit]);
  }

  /** What one line adds to the sum: nothing when it is blank after
      trimming, its calibration value otherwise; None when it has no digit. */
  function Contribution(line: string): (c: Option<int>)
    ensures c.Some? ==> 0 <= c.value <= 99
  {
    var clean := TrimSpace(line);
    if clean == "" then Some(0)
    else
      LineValueBounds(clean);
      LineValue(clean)
  }

  /** The sum of what each line adds; None once a line adds None. */
  function SumWith(lines: seq<string>, add: string -> Option<int>): Option<int> {
    if lines == [] then Some(0)
    else
      var rest := SumWith(lines[..|lines| - 1], add);
      var c := add(lines[|lines| - 1]);
      if rest.None? || c.None? then None else Some(rest.value + c.value)
  }

  /** The sum over the lines; None once a line has no digit. */
  function SumValues(lines: seq<string>): Option<int> {
    SumWith(lines, Contribution)
  }

  function SumOfLines(lines: seq<string>): Option<string> {
    match SumValues(lines)
    case None => None
    case Some(sum) => Some(Itoa(sum))
  }

  /** The sum over a file is the sum over its first part plus the sum over
      the rest. */
  lemma {:induction false} SumWithAppend(a: seq<string>, b: seq<string>, add: string -> Option<int>)
    requires SumWith(a, add).Some? && SumWith(b, add).Some?
    ensures SumWith(a + b, add) == Some(SumWith(a, add).value + SumWith(b, add).value)
    decreases |b|
  {
    if b == [] {
      assert a + b == a;
    } else {
      var n := |b| - 1;
      assert (a + b)[..|a + b| - 1] == a + b[..n];
      assert (a + b)[|a + b| - 1] == b[n];
      SumWithAppend(a, b[..n], add);
    }
  }

  /** Lines that each add at most most add up to at most most per line. */
  lemma {:induction false} SumWithBound(lines: seq<string>, add: string -> Option<int>, most: nat)
    requires forall l :: add(l).Some? ==> 0 <= add(l).value <= most
    ensures SumWith(lines, add).Some? ==> 0 <= SumWith(lines, add).value <= most * |lines|
  {
    if lines != [] {
      SumWithBound(lines[..|lines| - 1], add, most);
    }
  }

  /** Blank lines add nothing; every other line adds at most 99. */
  lemma {:induction false} SumValuesBound(lines: seq<string>)
    ensures SumValues(lines).Some? ==> 0 <= SumValues(lines).value <= 99 * |lines|
  {
    SumWithBound(lines, Contribution, 99);
  }

  /** The function a proof uses in place of Contribution: equal to it on
      every line, but unfolded only where a proof names Contribution. */
  ghost predicate Adds(add: string -> Option<int>) {
    forall line {:trigger Contribution(line)} :: add(line) == Contribution(line)
  }

  lemma SumWithStep(lines: seq<string>, i: nat, add: string -> Option<int>)
    requires i < |lines|
    ensures SumWith(lines[..i + 1], add)
      == if SumWith(lines[..i], add).None? || add(lines[i]).None? then None
         else Some(SumWith(lines[..i], add).value + add(lines[i]).value)
  {
    assert lines[..i + 1][..i] == lines[..i];
  }

  lemma AddsContribution()
    ensures Adds(Contribution)
  {
  }

  /** SolvePart1's loop over the lines of the input; the ghost add is
      Contribution (see Adds). */
  method SumCalibrationValues(lines: seq<string>, ghost add: string -> Option<int>) returns (sum: Option<int>)
    requires Adds(add)
    ensures sum == SumWith(lines, add)
  {
    var total := 0;
    for i := 0 to |lines|
      invariant SumWith(lines[..i], add) == Some(total)
    {
      SumWithStep(lines, i, add);
      assert add(lines[i]) == Contribution(lines[i]);
      var cleanLine := TrimSpace(lines[i]);
      if cleanLine == "" {
        continue;
      }
      var val := CalibrationValue(cleanLine);
      if val.None? {
        SumWithFailureSticks(lines, i + 1, add);
        return None;
      }
      total := total + val.value;
    }
    assert lines[..|lines|] == lines;
    return Some(total);
  }

  lemma {:induction false} SumWithFailureSticks(lines: seq<string>, k: nat, add: string -> Option<int>)
    requires k <= |lines| && SumWith(lines[..k], add).None?
    ensures SumWith(lines, add).None?
    decreases |lines| - k
  {
    if k < |lines| {
      assert lines[..k + 1][..k] == lines[..k];
      SumWithFailureSticks(lines, k + 1, add);
    } else {
      assert lines[..k] == lines;
    }
  }

  /** SolvePart1 on the fetched input: the lines are split without trimming
      the input first. */
  method SolvePart1(input: string) returns (answer: Option<string>)
    ensures answer == SumOfLines(Split(input, '\n'))
  {
    AddsContribution();
    var sum := SumCalibrationValues(Split(input, '\n'), Contribution);
    if sum.None? {
      return None;
    }
    return Some(Itoa(sum.value));
  }
}
