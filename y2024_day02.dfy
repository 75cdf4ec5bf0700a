/** 2024/day02: reactor reports, one row of levels each. A report is safe
    when its levels move in one direction by steps of 1 to 3. */
module Y2024Day02 {
  import opened Text
  import opened GoMath
  import opened LineFold

  // ---------------------------------------------------------------------
  // isReportSafe

  /** The safety rule as isReportSafe applies it: every step between
      neighbours is 1 to 3 in size and goes the way of the first step. */
  predicate Safe(report: seq<int>)
    requires |report| >= 2
  {
    forall i :: 1 <= i < |report| ==>
      1 <= Abs(report[i] - report[i - 1]) <= 3 && (report[i] > report[i - 1] <==> report[1] > report[0])
  }

  predicate StepsWithin(report: seq<int>, lo: int, hi: int) {
    forall i :: 1 <= i < |report| ==> lo <= report[i] - report[i - 1] <= hi
  }

  /** Safe means strictly increasing by 1 to 3 at every step, or strictly
      decreasing by 1 to 3 at every step. */
  lemma SafeIsMonotone(report: seq<int>)
    requires |report| >= 2
    ensures Safe(report) <==> StepsWithin(report, 1, 3) || StepsWithin(report, -3, -1)
  {
    if StepsWithin(report, 1, 3) || StepsWithin(report, -3, -1) {
      assert 1 <= report[1] - report[0] <= 3 || -3 <= report[1] - report[0] <= -1;
    }
  }

  /** isReportSafe: a walk over the levels that stops at the first step of
      the wrong size or direction. Reading report[1] needs two levels. */
  method IsReportSafe(report: seq<int>) returns (safe: bool)
    requires |report| >= 2
    ensures safe == Safe(report)
  {
    var lastNumber := report[0];
    var isIncreasing := report[1] > lastNumber;
    for i := 1 to |report|
      invariant lastNumber == report[i - 1]
      invariant forall k :: 1 <= k < i ==>
        1 <= Abs(report[k] - report[k - 1]) <= 3 && (report[k] > report[k - 1] <==> isIncreasing)
    {
      var number := report[i];
      var diff := AbsInt(number - lastNumber);
      if diff < 1 || diff > 3 {
        return false;
      }
      var numberIncreased := number > lastNumber;
      if numberIncreased != isIncreasing {
        return false;
      }
      lastNumber := number;
    }
    return true;
  }

  // ---------------------------------------------------------------------
  // parseInput

  /** One row: its whitespace-separated levels; a level that is not an
      integer is an error. */
  function AddReport(reports: seq<seq<int>>, line: string): Option<seq<seq<int>>> {
    match AtoiAll(Fields(line))
    case None => None
    case Some(levels) => Some(reports + [levels])
  }

  function ParseReports(input: string): Option<seq<seq<int>>> {
    Fold(Split(TrimSpace(input), '\n'), [], AddReport)
  }

  /** The reports are the rows in order: report i holds the levels of line i. */
  lemma {:induction false} ParseReportsMeaning(lines: seq<string>)
    ensures var r := Fold(lines, [], AddReport);
      && (r.Some? <==> forall i :: 0 <= i < |lines| ==> AtoiAll(Fields(lines[i])).Some?)
      && (r.Some? ==> |r.value| == |lines|
                      && forall i :: 0 <= i < |lines| ==> AtoiAll(Fields(lines[i])) == Some(r.value[i]))
  {
    if lines != [] {
      var n := |lines| - 1;
      ParseReportsMeaning(lines[..n]);
      FoldStep(lines, n, [], AddReport);
      assert lines[..n + 1] == lines;
      assert forall i :: 0 <= i < n ==> lines[..n][i] == lines[i];
    }
  }

  /** A row of levels written in decimal and separated by spaces reads back. */
  lemma AddReportRender(reports: seq<seq<int>>, levels: seq<int>)
    requires |levels| >= 1
    ensures AddReport(reports, Join(ItoaAll(levels), ' ')) == Some(reports + [levels])
  {
    var words := ItoaAll(levels);
    forall i | 0 <= i < |words|
      ensures |words[i]| > 0 && NoSpace(words[i])
    {
      ItoaIsWord(levels[i]);
    }
    FieldsOfJoin(words);
    AtoiAllItoaAll(levels);
  }

  method ParseInput(input: string) returns (reports: Option<seq<seq<int>>>)
    ensures reports == ParseReports(input)
  {
    reports := FoldLines(Split(TrimSpace(input), '\n'), [], AddReport);
  }

  // ---------------------------------------------------------------------
  // SolvePart1

  /** The number of safe reports; None once a report is too short for
      isReportSafe. */
  function CountSafe(reports: seq<seq<int>>): (r: Option<nat>)
    ensures r.Some? ==> r.value <= |reports|
    ensures r.Some? <==> forall i :: 0 <= i < |reports| ==> |reports[i]| >= 2
  {
    if reports == [] then Some(0)
    else
      var last := reports[|reports| - 1];
      var init := CountSafe(reports[..|reports| - 1]);
      assert forall i :: 0 <= i < |reports| - 1 ==> reports[..|reports| - 1][i] == reports[i];
      if init.None? || |last| < 2 then None
      else Some(init.value + if Safe(last) then 1 else 0)
  }

  /** Safe reports are counted once each: a set of all-safe reports counts
      fully, a set of all-unsafe ones counts zero. */
  lemma {:induction false} CountSafeExtremes(reports: seq<seq<int>>)
    requires forall i :: 0 <= i < |reports| ==> |reports[i]| >= 2
    ensures (forall i :: 0 <= i < |reports| ==> Safe(reports[i])) ==> CountSafe(reports) == Some(|reports|)
    ensures (forall i :: 0 <= i < |reports| ==> !Safe(reports[i])) ==> CountSafe(reports) == Some(0)
  {
    if reports != [] {
      var n := |reports| - 1;
      assert forall i :: 0 <= i < n ==> reports[..n][i] == reports[i];
      CountSafeExtremes(reports[..n]);
    }
  }

  method CountSafeReports(reports: seq<seq<int>>) returns (count: Option<nat>)
    ensures count == CountSafe(reports)
  {
    var safeCount := 0;
    for i := 0 to |reports|
      invariant CountSafe(reports[..i]) == Some(safeCount)
    {
      assert reports[..i + 1][..i] == reports[..i];
      if |reports[i]| < 2 {
        assert CountSafe(reports[..i + 1]).None?;
        CountSafePrefixFails(reports, i + 1);
        return None;
      }
      var safe := IsReportSafe(reports[i]);
      if safe {
        safeCount := safeCount + 1;
      }
    }
    assert reports[..|reports|] == reports;
    return Some(safeCount);
  }

  lemma CountSafePrefixFails(reports: seq<seq<int>>, k: nat)
    requires k <= |reports| && CountSafe(reports[..k]).None?
    ensures CountSafe(reports).None?
  {
    var i :| 0 <= i < k && |reports[..k][i]| < 2;
    assert reports[i] == reports[..k][i];
  }

  /** SolvePart1: the number of safe reports in decimal. */
  method SolvePart1(input: string) returns (answer: Option<string>)
    ensures var reports := ParseReports(input);
      && (answer.Some? <==> reports.Some? && CountSafe(reports.value).Some?)
      && (answer.Some? ==> answer.value == Itoa(CountSafe(reports.value).value))
  {
    var reports := ParseInput(input);
    if reports.None? {
      return None;
    }
    var count := CountSafeReports(reports.value);
    if count.None? {
      return None;
    }
    return Some(Itoa(count.value));
  }
}
