/** 2024/day01: two columns of location ids. Part 1 pairs the columns after
    sorting each and sums the distances of the pairs; part 2 weighs every
    left id by how often it occurs in the right column. */
module Y2024Day01 {
  import opened Text
  import opened GoMath
  import opened LineFold

  datatype ProblemInput = ProblemInput(left: seq<int>, right: seq<int>)

  // ---------------------------------------------------------------------
  // parseInput

  /** One line: exactly two whitespace-separated integers. */
  function ParseLine(line: string): (r: Option<(int, int)>)
  {
    var parts := Fields(line);
    if |parts| != 2 then None
    else match (Atoi(parts[0]), Atoi(parts[1]))
      case (Some(l), Some(r)) => Some((l, r))
      case _ => None
  }

  /** The loop body of parseInput: the pair of one line appended to the
      two columns. */
  function AddLine(pi: ProblemInput, line: string): Option<ProblemInput> {
    match ParseLine(line)
    case None => None
    case Some((l, r)) => Some(ProblemInput(pi.left + [l], pi.right + [r]))
  }

  /** The two columns of the given lines; None where parseInput panics. */
  function ParseLines(lines: seq<string>): (r: Option<ProblemInput>)
    ensures r.Some? ==> |r.value.left| == |lines| == |r.value.right|
  {
    ColumnsAsLongAsInput(lines);
    Fold(lines, ProblemInput([], []), AddLine)
  }

  /** Every line read adds one id to each column. */
  lemma {:induction false} ColumnsAsLongAsInput(lines: seq<string>)
    ensures var r := Fold(lines, ProblemInput([], []), AddLine);
      r.Some? ==> |r.value.left| == |lines| == |r.value.right|
  {
    if lines != [] {
      var n := |lines| - 1;
      ColumnsAsLongAsInput(lines[..n]);
      FoldStep(lines, n, ProblemInput([], []), AddLine);
      assert lines[..n + 1] == lines;
    }
  }

  /** The columns are read line by line: the input parses exactly when every
      line does, and then line i gives the i-th entry of both columns. */
  lemma {:induction false} ParseLinesMeaning(lines: seq<string>)
    ensures ParseLines(lines).Some? <==> forall i :: 0 <= i < |lines| ==> ParseLine(lines[i]).Some?
    ensures ParseLines(lines).Some? ==> forall i :: 0 <= i < |lines| ==>
        ParseLine(lines[i]) == Some((ParseLines(lines).value.left[i], ParseLines(lines).value.right[i]))
  {
    if lines != [] {
      var n := |lines| - 1;
      var init := lines[..n];
      ParseLinesMeaning(init);
      FoldStep(lines, n, ProblemInput([], []), AddLine);
      assert lines[..n + 1] == lines;
      assert forall i :: 0 <= i < n ==> init[i] == lines[i];
    }
  }

  /** A line written as two decimal numbers separated by a space is read back. */
  lemma ParseLineRender(l: int, r: int)
    ensures ParseLine(Itoa(l) + " " + Itoa(r)) == Some((l, r))
  {
    ItoaIsWord(l);
    ItoaIsWord(r);
    assert Join([Itoa(l), Itoa(r)], ' ') == Itoa(l) + " " + Itoa(r);
    FieldsOfJoin([Itoa(l), Itoa(r)]);
    AtoiItoa(l);
    AtoiItoa(r);
  }

  /** parseInput: the trimmed input split into lines, each read as a pair. */
  method ParseInput(input: string) returns (pi: Option<ProblemInput>)
    ensures pi == ParseLines(Split(TrimSpace(input), '\n'))
  {
    var lines := Split(TrimSpace(input), '\n');
    pi := FoldLines(lines, ProblemInput([], []), AddLine);
  }

  // ---------------------------------------------------------------------
  // sort.Ints, as the library promises it: an ascending permutation

  predicate Sorted(s: seq<int>) {
    forall i, j :: 0 <= i < j < |s| ==> s[i] <= s[j]
  }

  function InsertSorted(x: int, s: seq<int>): (r: seq<int>)
    requires Sorted(s)
    ensures Sorted(r) && multiset(r) == multiset(s) + multiset{x} && |r| == |s| + 1
    ensures forall e :: e in r ==> e == x || e in s
  {
    if s == [] then [x]
    else if x <= s[0] then [x] + s
    else
      var r := InsertSorted(x, s[1..]);
      assert s == [s[0]] + s[1..];
      assert forall e :: e in r ==> s[0] <= e;
      ConsSorted(s[0], r);
      [s[0]] + r
  }

  lemma ConsSorted(h: int, r: seq<int>)
    requires Sorted(r) && forall e :: e in r ==> h <= e
    ensures Sorted([h] + r)
  {
    forall i, j | 0 <= i < j < |[h] + r|
      ensures ([h] + r)[i] <= ([h] + r)[j]
    {
      assert ([h] + r)[j] == r[j - 1];
      if i > 0 {
        assert ([h] + r)[i] == r[i - 1];
      } else {
        assert r[j - 1] in r;
      }
    }
  }

  function SortInts(s: seq<int>): (r: seq<int>)
    ensures Sorted(r) && multiset(r) == multiset(s) && |r| == |s|
  {
    if s == [] then []
    else
      assert s == [s[0]] + s[1..];
      InsertSorted(s[0], SortInts(s[1..]))
  }

  /** An ascending order of a multiset is unique. */
  lemma {:induction false} SortedUnique(a: seq<int>, b: seq<int>)
    requires Sorted(a) && Sorted(b) && multiset(a) == multiset(b)
    ensures a == b
    decreases |a|
  {
    if a == [] {
      assert |b| == |multiset(b)| == 0;
    } else {
      assert |b| == |multiset(b)| == |a|;
      HeadIsLeast(a, b[0]);
      HeadIsLeast(b, a[0]);
      SameTails(a, b);
      SortedUnique(a[1..], b[1..]);
      assert a == [a[0]] + a[1..] && b == [b[0]] + b[1..];
    }
  }

  lemma SameTails(a: seq<int>, b: seq<int>)
    requires |a| > 0 && |b| > 0 && a[0] == b[0] && multiset(a) == multiset(b)
    requires Sorted(a) && Sorted(b)
    ensures multiset(a[1..]) == multiset(b[1..])
    ensures Sorted(a[1..]) && Sorted(b[1..])
  {
    var a', b' := a[1..], b[1..];
    assert a == [a[0]] + a';
    assert b == [b[0]] + b';
    assert multiset(a) == multiset{a[0]} + multiset(a');
    assert multiset(b) == multiset{a[0]} + multiset(b');
    assert multiset(a') == multiset(a) - multiset{a[0]};
    assert multiset(b') == multiset(b) - multiset{a[0]};
  }

  lemma HeadIsLeast(a: seq<int>, x: int)
    requires Sorted(a) && x in multiset(a)
    ensures a[0] <= x
  {
    var j :| 0 <= j < |a| && a[j] == x;
  }

  /** Sorting forgets the order of its input. */
  lemma SortIntsOfPermutation(a: seq<int>, b: seq<int>)
    requires multiset(a) == multiset(b)
    ensures SortInts(a) == SortInts(b)
  {
    SortedUnique(SortInts(a), SortInts(b));
  }

  // ---------------------------------------------------------------------
  // Part 1

  /** The summed distance of the pairs of two equally long columns. */
  function PairDistance(left: seq<int>, right: seq<int>): (d: nat)
    requires |left| == |right|
  {
    if left == [] then 0
    else PairDistance(left[..|left| - 1], right[..|right| - 1]) + Abs(left[|left| - 1] - right[|right| - 1])
  }

  /** The answer of part 1: the columns sorted, then paired. */
  function TotalDistance(pi: ProblemInput): nat
    requires |pi.left| == |pi.right|
  {
    PairDistance(SortInts(pi.left), SortInts(pi.right))
  }

  /** Pairing is by rank, not by position: reordering either column does not
      change the answer. */
  lemma TotalDistanceIgnoresOrder(pi: ProblemInput, left: seq<int>, right: seq<int>)
    requires |pi.left| == |pi.right|
    requires multiset(left) == multiset(pi.left) && multiset(right) == multiset(pi.right)
    ensures |left| == |right| && TotalDistance(ProblemInput(left, right)) == TotalDistance(pi)
  {
    assert |left| == |multiset(left)| == |multiset(pi.left)| == |pi.left|;
    assert |right| == |multiset(right)| == |multiset(pi.right)| == |pi.right|;
    SortIntsOfPermutation(left, pi.left);
    SortIntsOfPermutation(right, pi.right);
  }

  /** The distance is zero exactly when both columns hold the same ids. */
  lemma {:induction false} PairDistanceZero(left: seq<int>, right: seq<int>)
    requires |left| == |right|
    ensures PairDistance(left, right) == 0 <==> left == right
  {
    if left != [] {
      var n := |left| - 1;
      PairDistanceZero(left[..n], right[..n]);
      if left == right {
        assert left[..n] == right[..n];
      }
      if left[..n] == right[..n] && left[n] == right[n] {
        assert left == left[..n] + [left[n]];
        assert right == right[..n] + [right[n]];
      }
    }
  }

  lemma PairDistanceSnoc(left: seq<int>, right: seq<int>, i: nat)
    requires i < |left| == |right|
    ensures PairDistance(left[..i + 1], right[..i + 1])
      == PairDistance(left[..i], right[..i]) + Abs(left[i] - right[i])
  {
    assert left[..i + 1][..i] == left[..i];
    assert right[..i + 1][..i] == right[..i];
  }

  /** SolvePart1's loop: the distances of the sorted copies, summed. */
  method SortedDistance(pi: ProblemInput) returns (diff: int)
    requires |pi.left| == |pi.right|
    ensures diff == TotalDistance(pi)
  {
    var sortedLeft := SortInts(pi.left);
    var sortedRight := SortInts(pi.right);
    diff := 0;
    for i := 0 to |sortedLeft|
      invariant diff == PairDistance(sortedLeft[..i], sortedRight[..i])
    {
      PairDistanceSnoc(sortedLeft, sortedRight, i);
      diff := diff + AbsInt(sortedLeft[i] - sortedRight[i]);
    }
    assert sortedLeft[..|sortedLeft|] == sortedLeft;
    assert sortedRight[..|sortedRight|] == sortedRight;
  }

  method SolvePart1(input: string) returns (answer: Option<string>)
    ensures var pi := ParseLines(Split(TrimSpace(input), '\n'));
      && (answer.Some? <==> pi.Some?)
      && (answer.Some? ==> answer.value == Itoa(TotalDistance(pi.value)))
  {
    var pi := ParseInput(input);
    if pi.None? {
      return None;
    }
    var diff := SortedDistance(pi.value);
    return Some(Itoa(diff));
  }

  // ---------------------------------------------------------------------
  // Part 2

  /** Every left id times its number of occurrences in the right column. */
  function Similarity(left: seq<int>, right: seq<int>): int {
    if left == [] then 0
    else
      var x := left[|left| - 1];
      Similarity(left[..|left| - 1], right) + x * multiset(right)[x]
  }

  /** Ids missing from the right column contribute nothing, and the score
      depends only on how many times each id occurs on either side. */
  lemma {:induction false} SimilarityOfDisjoint(left: seq<int>, right: seq<int>)
    requires forall i :: 0 <= i < |left| ==> left[i] !in right
    ensures Similarity(left, right) == 0
  {
    if left != [] {
      var n := |left| - 1;
      assert forall i :: 0 <= i < n ==> left[..n][i] == left[i];
      SimilarityOfDisjoint(left[..n], right);
    }
  }

  lemma RemoveOne(s: seq<int>, i: nat)
    requires i < |s|
    ensures multiset(s[..i] + s[i + 1..]) == multiset(s) - multiset{s[i]}
  {
    assert s == s[..i] + [s[i]] + s[i + 1..];
  }

  /** Two left columns that are permutations of each other score alike. */
  lemma {:induction false} SimilarityIgnoresLeftOrder(left: seq<int>, left': seq<int>, right: seq<int>)
    requires multiset(left) == multiset(left')
    ensures Similarity(left, right) == Similarity(left', right)
    decreases |left'|
  {
    if left' != [] {
      var n := |left'| - 1;
      var x := left'[n];
      assert left' == left'[..n] + [x];
      assert x in multiset(left);
      var i :| 0 <= i < |left| && left[i] == x;
      var rest := left[..i] + left[i + 1..];
      RemoveOne(left, i);
      RemoveOne(left', n);
      assert left'[..n] + left'[n + 1..] == left'[..n];
      SimilarityRemove(left, i, right);
      SimilarityIgnoresLeftOrder(rest, left'[..n], right);
    } else {
      assert |left| == |multiset(left)| == 0;
    }
  }

  /** The contribution of any one left id can be taken out of the sum. */
  lemma {:induction false} SimilarityRemove(left: seq<int>, i: nat, right: seq<int>)
    requires i < |left|
    ensures Similarity(left, right)
      == Similarity(left[..i] + left[i + 1..], right) + left[i] * multiset(right)[left[i]]
  {
    var n := |left| - 1;
    var init := left[..n];
    if i == n {
      assert left[..i] + left[i + 1..] == init;
    } else {
      SimilarityRemove(init, i, right);
      assert left[..i] + left[i + 1..] == (init[..i] + init[i + 1..]) + [left[n]];
      assert (init[..i] + init[i + 1..] + [left[n]])[..n - 1] == init[..i] + init[i + 1..];
    }
  }

  /** Go's map read: a missing key reads as zero. */
  function Lookup(occurrences: map<int, int>, x: int): int {
    if x in occurrences then occurrences[x] else 0
  }

  /** The occurrence map of SolvePart2: every id of the column mapped to its
      number of occurrences. */
  method CountOccurrences(column: seq<int>) returns (occurrences: map<int, int>)
    ensures forall x :: Lookup(occurrences, x) == multiset(column)[x]
  {
    occurrences := map[];
    for i := 0 to |column|
      invariant forall x :: Lookup(occurrences, x) == multiset(column[..i])[x]
    {
      var num := column[i];
      assert column[..i + 1] == column[..i] + [num];
      if num !in occurrences {
        occurrences := occurrences[num := 0];
      }
      occurrences := occurrences[num := occurrences[num] + 1];
    }
    assert column[..|column|] == column;
  }

  /** SolvePart2's loops: the occurrence map of the right column, then the
      weighted sum over the left column. */
  method SimilarityScore(pi: ProblemInput) returns (score: int)
    ensures score == Similarity(pi.left, pi.right)
  {
    var occurrences := CountOccurrences(pi.right);
    score := 0;
    for i := 0 to |pi.left|
      invariant score == Similarity(pi.left[..i], pi.right)
    {
      var num := pi.left[i];
      var count := if num in occurrences then occurrences[num] else 0;
      assert count == Lookup(occurrences, num);
      assert pi.left[..i + 1][..i] == pi.left[..i];
      score := score + count * num;
    }
    assert pi.left[..|pi.left|] == pi.left;
  }

  method SolvePart2(input: string) returns (answer: Option<string>)
    ensures var pi := ParseLines(Split(TrimSpace(input), '\n'));
      && (answer.Some? <==> pi.Some?)
      && (answer.Some? ==> answer.value == Itoa(Similarity(pi.value.left, pi.value.right)))
  {
    var pi := ParseInput(input);
    if pi.None? {
      return None;
    }
    var score := SimilarityScore(pi.value);
    return Some(Itoa(score));
  }
}
