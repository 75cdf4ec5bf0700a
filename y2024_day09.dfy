/** 2024/day09: a disk map of digits alternately gives the length of a file
    and the length of the free space after it. Expanding it writes one cell
    per block, the file's id or -1 for free space; compacting moves file
    blocks from the end of the disk into the first free cells; the checksum
    sums position times id over the files at the front. */
module Y2024Day09 {
  import opened Text

  const Free: int := -1

  /** n copies of v. */
  function Repeat(v: int, n: int): (r: seq<int>)
    ensures |r| == if n < 0 then 0 else n
    ensures forall i :: 0 <= i < |r| ==> r[i] == v
    decreases n
  {
    if n <= 0 then [] else Repeat(v, n - 1) + [v]
  }

  /** How many files the digits describe: only an even-index digit greater
      than zero starts a file (and takes an id). */
  function FileCount(diskMap: seq<int>): nat {
    if diskMap == [] then 0
    else
      var i := |diskMap| - 1;
      FileCount(diskMap[..i]) + (if i % 2 == 0 && diskMap[i] > 0 then 1 else 0)
  }

  /** The blocks of a disk map: even-index digits are files, numbered in
      order, odd-index digits are free space; a digit below zero writes no
      block. */
  function Expand(diskMap: seq<int>): seq<int> {
    if diskMap == [] then []
    else
      var i := |diskMap| - 1;
      var id := if i % 2 == 0 then FileCount(diskMap[..i]) else Free;
      Expand(diskMap[..i]) + Repeat(id, diskMap[i])
  }

  /** One more digit appends its run of blocks, and a non-empty file run
      takes the next id. */
  lemma ExpandStep(diskMap: seq<int>, i: nat)
    requires i < |diskMap|
    ensures Expand(diskMap[..i + 1]) == Expand(diskMap[..i])
      + Repeat(if i % 2 == 0 then FileCount(diskMap[..i]) else Free, diskMap[i])
    ensures FileCount(diskMap[..i + 1]) == FileCount(diskMap[..i]) + (if i % 2 == 0 && diskMap[i] > 0 then 1 else 0)
  {
    assert diskMap[..i + 1][..i] == diskMap[..i];
  }

  function Positive(n: int): nat { if n > 0 then n else 0 }

  /** The total length of the digits, and of the odd-index (free) ones. */
  function TotalLength(diskMap: seq<int>): nat {
    if diskMap == [] then 0 else TotalLength(diskMap[..|diskMap| - 1]) + Positive(diskMap[|diskMap| - 1])
  }

  function FreeLength(diskMap: seq<int>): nat {
    if diskMap == [] then 0
    else
      var i := |diskMap| - 1;
      FreeLength(diskMap[..i]) + (if i % 2 == 1 then Positive(diskMap[i]) else 0)
  }

  function CountFree(s: seq<int>): nat {
    if s == [] then 0 else CountFree(s[..|s| - 1]) + (if s[|s| - 1] == Free then 1 else 0)
  }

  lemma {:induction false} CountFreeAppend(a: seq<int>, b: seq<int>)
    ensures CountFree(a + b) == CountFree(a) + CountFree(b)
    decreases |b|
  {
    if b == [] {
      assert a + b == a;
    } else {
      assert (a + b)[..|a + b| - 1] == a + b[..|b| - 1];
      CountFreeAppend(a, b[..|b| - 1]);
    }
  }

  lemma {:induction false} CountFreeRepeat(v: int, n: int)
    ensures CountFree(Repeat(v, n)) == if v == Free then Positive(n) else 0
    decreases n
  {
    if n > 0 {
      CountFreeRepeat(v, n - 1);
      assert Repeat(v, n)[..n - 1] == Repeat(v, n - 1);
    }
  }

  /** The expansion has one cell per block, and exactly the blocks of the
      odd-index digits are free. */
  lemma {:induction false} ExpandCounts(diskMap: seq<int>)
    ensures |Expand(diskMap)| == TotalLength(diskMap)
    ensures CountFree(Expand(diskMap)) == FreeLength(diskMap)
  {
    if diskMap != [] {
      var i := |diskMap| - 1;
      var id := if i % 2 == 0 then FileCount(diskMap[..i]) else Free;
      ExpandCounts(diskMap[..i]);
      CountFreeAppend(Expand(diskMap[..i]), Repeat(id, diskMap[i]));
      CountFreeRepeat(id, diskMap[i]);
    }
  }

  /** Every cell is free or the id of a file, ids start at 0, and the ids of
      file cells never decrease along the disk. */
  lemma {:induction false} ExpandIdsOrdered(diskMap: seq<int>)
    ensures forall k :: 0 <= k < |Expand(diskMap)| ==>
      Expand(diskMap)[k] == Free || 0 <= Expand(diskMap)[k] < FileCount(diskMap)
    ensures forall j, k ::
      (0 <= j < k < |Expand(diskMap)| && Expand(diskMap)[j] != Free && Expand(diskMap)[k] != Free) ==>
        Expand(diskMap)[j] <= Expand(diskMap)[k]
  {
    if diskMap != [] {
      var i := |diskMap| - 1;
      var init := diskMap[..i];
      var id := if i % 2 == 0 then FileCount(init) else Free;
      ExpandIdsOrdered(init);
      var e0 := Expand(init);
      var e := Expand(diskMap);
      assert e == e0 + Repeat(id, diskMap[i]);
      var block := Repeat(id, diskMap[i]);
      assert FileCount(diskMap) == FileCount(init) + (if i % 2 == 0 && diskMap[i] > 0 then 1 else 0);
      forall k | 0 <= k < |e|
        ensures e[k] == Free || 0 <= e[k] < FileCount(diskMap)
      {
        if k < |e0| {
          assert e[k] == e0[k];
          assert e0[k] == Free || 0 <= e0[k] < FileCount(init);
        } else {
          assert e[k] == block[k - |e0|] == id;
          assert diskMap[i] > 0;
          assert id == Free || 0 <= id < FileCount(diskMap);
        }
      }
      forall j, k | 0 <= j < k < |e| && e[j] != Free && e[k] != Free
        ensures e[j] <= e[k]
      {
        if k < |e0| {
          assert e[j] == e0[j] && e[k] == e0[k];
        } else if j < |e0| {
          assert e[j] == e0[j] && e[k] == block[k - |e0|] == id;
        } else {
          assert e[j] == block[j - |e0|] && e[k] == block[k - |e0|];
        }
      }
    }
  }

  // ---------------------------------------------------------------------
  // Compaction

  /** No free cell comes before a file cell. */
  predicate Compacted(s: seq<int>) {
    forall i, j :: 0 <= i < j < |s| && s[i] == Free ==> s[j] == Free
  }

  /** The two-pointer loop of Compact: a free cell at the end pointer is
      skipped, a file cell at the start pointer is kept, and otherwise the
      two cells are swapped. */
  function CompactLoop(s: seq<int>, start: int, end: int): (r: seq<int>)
    requires 0 <= start && end < |s| && start <= end + 1
    ensures |r| == |s|
    decreases end - start, if start < |s| && s[start] == Free then 1 else 0
  {
    if start >= end then s
    else if s[end] == Free then CompactLoop(s, start, end - 1)
    else if s[start] != Free then CompactLoop(s, start + 1, end)
    else CompactLoop(s[start := s[end]][end := s[start]], start, end)
  }

  /** Compact's result for an expanded disk map. */
  function CompactOf(s: seq<int>): seq<int> {
    CompactLoop(s, 0, |s| - 1)
  }

  /** The loop only swaps cells, so the result is a permutation. */
  lemma {:induction false} CompactLoopPermutes(s: seq<int>, start: int, end: int)
    requires 0 <= start && end < |s| && start <= end + 1
    ensures multiset(CompactLoop(s, start, end)) == multiset(s)
    decreases end - start, if start < |s| && s[start] == Free then 1 else 0
  {
    if start < end {
      if s[end] == Free {
        CompactLoopPermutes(s, start, end - 1);
      } else if s[start] != Free {
        CompactLoopPermutes(s, start + 1, end);
      } else {
        var t := s[start := s[end]][end := s[start]];
        CompactLoopPermutes(t, start, end);
        assert multiset(t) == multiset(s);
      }
    }
  }

  /** Cells before the start pointer hold files, cells after the end
      pointer are free; at the end of the loop the disk is compacted. */
  lemma {:induction false} CompactLoopCompacts(s: seq<int>, start: int, end: int)
    requires 0 <= start && end < |s| && start <= end + 1
    requires forall i :: 0 <= i < start ==> s[i] != Free
    requires forall i :: end < i < |s| ==> s[i] == Free
    ensures Compacted(CompactLoop(s, start, end))
    decreases end - start, if start < |s| && s[start] == Free then 1 else 0
  {
    if start < end {
      if s[end] == Free {
        CompactLoopCompacts(s, start, end - 1);
      } else if s[start] != Free {
        CompactLoopCompacts(s, start + 1, end);
      } else {
        var t := s[start := s[end]][end := s[start]];
        CompactLoopCompacts(t, start, end);
      }
    }
  }

  /** A disk that is already compacted is left as it is. */
  lemma {:induction false} CompactLoopKeepsCompacted(s: seq<int>, start: int, end: int)
    requires 0 <= start && end < |s| && start <= end + 1
    requires Compacted(s)
    ensures CompactLoop(s, start, end) == s
    decreases end - start, if start < |s| && s[start] == Free then 1 else 0
  {
    if start < end {
      if s[end] == Free {
        CompactLoopKeepsCompacted(s, start, end - 1);
      } else {
        assert s[start] != Free;
        CompactLoopKeepsCompacted(s, start + 1, end);
      }
    }
  }

  /** Compaction yields a compacted permutation of the disk, and compacting
      twice is compacting once. */
  lemma CompactOfProperties(s: seq<int>)
    ensures |CompactOf(s)| == |s|
    ensures multiset(CompactOf(s)) == multiset(s)
    ensures Compacted(CompactOf(s))
    ensures CompactOf(CompactOf(s)) == CompactOf(s)
  {
    CompactLoopPermutes(s, 0, |s| - 1);
    CompactLoopCompacts(s, 0, |s| - 1);
    CompactLoopKeepsCompacted(CompactOf(s), 0, |s| - 1);
  }

  // ---------------------------------------------------------------------
  // Checksum

  /** The cells before the first free one. */
  function FilePrefix(s: seq<int>): (r: seq<int>)
    ensures |r| <= |s| && r == s[..|r|]
    ensures forall i :: 0 <= i < |r| ==> r[i] != Free
    ensures |r| < |s| ==> s[|r|] == Free
  {
    if s == [] || s[0] == Free then [] else [s[0]] + FilePrefix(s[1..])
  }

  /** The sum of position times value. */
  function WeightedSum(s: seq<int>): int {
    if s == [] then 0 else WeightedSum(s[..|s| - 1]) + (|s| - 1) * s[|s| - 1]
  }

  /** On a compacted disk the prefix before the first free cell holds
      every file cell. */
  lemma FilePrefixOfCompacted(s: seq<int>)
    requires Compacted(s)
    ensures |FilePrefix(s)| == |s| - CountFree(s)
  {
    var p := FilePrefix(s);
    var rest := s[|p|..];
    assert s == p + rest;
    CountFreeAppend(p, rest);
    NoFree(p);
    AllFree(rest);
  }

  lemma {:induction false} NoFree(s: seq<int>)
    requires forall i :: 0 <= i < |s| ==> s[i] != Free
    ensures CountFree(s) == 0
  {
    if s != [] {
      NoFree(s[..|s| - 1]);
    }
  }

  lemma {:induction false} AllFree(s: seq<int>)
    requires forall i :: 0 <= i < |s| ==> s[i] == Free
    ensures CountFree(s) == |s|
  {
    if s != [] {
      AllFree(s[..|s| - 1]);
    }
  }

  // ---------------------------------------------------------------------
  // parseInput

  /** The digits of the trimmed input, each character minus '0'. */
  function DigitsOf(text: string): (r: seq<int>)
    ensures |r| == |text|
    ensures forall i :: 0 <= i < |text| ==> r[i] == text[i] as int - '0' as int
  {
    if text == [] then [] else DigitsOf(text[..|text| - 1]) + [text[|text| - 1] as int - '0' as int]
  }

  /** parseInput: one value per character of the trimmed input. */
  method ParseInput(input: string) returns (diskMap: seq<int>)
    ensures diskMap == DigitsOf(TrimSpace(input))
    ensures AllDigits(TrimSpace(input)) ==> forall i :: 0 <= i < |diskMap| ==> 0 <= diskMap[i] <= 9
  {
    var clean := TrimSpace(input);
    diskMap := [];
    for i := 0 to |clean|
      invariant diskMap == DigitsOf(clean[..i])
    {
      diskMap := diskMap + [clean[i] as int - '0' as int];
      assert clean[..i + 1][..i] == clean[..i];
    }
    assert clean[..|clean|] == clean;
  }

  /** ProblemInput: the disk map, its expansion and the compacted copy. */
  class Disk {
    var diskMap: seq<int>
    var expanded: seq<int>
    var compact: array<int>

    constructor (diskMap: seq<int>)
      ensures this.diskMap == diskMap && expanded == [] && compact.Length == 0
    {
      this.diskMap := diskMap;
      expanded := [];
      compact := new int[0];
    }

    /** ExpandDiskMap appends the expansion to whatever is already there. */
    method ExpandDiskMap()
      modifies this
      ensures expanded == old(expanded) + Expand(diskMap)
      ensures diskMap == old(diskMap) && compact == old(compact)
    {
      ghost var start := expanded;
      var currentFileIdx := 0;
      for i := 0 to |diskMap|
        invariant diskMap == old(diskMap) && compact == old(compact)
        invariant expanded == start + Expand(diskMap[..i])
        invariant currentFileIdx == FileCount(diskMap[..i])
      {
        var diskValue := diskMap[i];
        var isFiles := i % 2 == 0;
        ExpandStep(diskMap, i);
        AppendRun(if isFiles then currentFileIdx else Free, diskValue);
        if isFiles && diskValue > 0 {
          currentFileIdx := currentFileIdx + 1;
        }
      }
      assert diskMap[..|diskMap|] == diskMap;
    }

    /** The inner loop of ExpandDiskMap: `count` copies of `value` appended. */
    method AppendRun(value: int, count: int)
      modifies this
      ensures expanded == old(expanded) + Repeat(value, count)
      ensures diskMap == old(diskMap) && compact == old(compact)
    {
      var j := 0;
      while j < count
        invariant diskMap == old(diskMap) && compact == old(compact)
        invariant 0 <= j && (count >= 0 ==> j <= count) && (count < 0 ==> j == 0)
        invariant expanded == old(expanded) + Repeat(value, j)
      {
        expanded := expanded + [value];
        j := j + 1;
      }
    }

    /** Compact copies the expansion into a new array and runs the two
        pointers over the copy. */
    method Compact()
      modifies this
      ensures fresh(compact)
      ensures compact[..] == CompactOf(expanded)
      ensures diskMap == old(diskMap) && expanded == old(expanded)
    {
      var n := |expanded|;
      var a := new int[n];
      for k := 0 to n
        invariant diskMap == old(diskMap) && expanded == old(expanded)
        invariant a[..k] == expanded[..k]
      {
        a[k] := expanded[k];
      }
      assert a[..] == expanded;
      var startPtr := 0;
      var endPtr := n - 1;
      while startPtr < endPtr
        invariant diskMap == old(diskMap) && expanded == old(expanded)
        invariant 0 <= startPtr && endPtr < n && startPtr <= endPtr + 1
        invariant CompactLoop(a[..], startPtr, endPtr) == CompactOf(expanded)
        decreases endPtr - startPtr, if startPtr < n && a[startPtr] == Free then 1 else 0
      {
        if a[endPtr] == -1 {
          endPtr := endPtr - 1;
          continue;
        }
        if a[startPtr] != -1 {
          startPtr := startPtr + 1;
          continue;
        }
        a[startPtr], a[endPtr] := a[endPtr], a[startPtr];
      }
      compact := a;
    }

    /** ComputeChecksum: position times id, up to the first free cell. */
    method ComputeChecksum() returns (sum: int)
      ensures sum == WeightedSum(FilePrefix(compact[..]))
    {
      sum := 0;
      var s := compact[..];
      var p := FilePrefix(s);
      var idx := 0;
      while idx < compact.Length
        invariant 0 <= idx <= |p|
        invariant sum == WeightedSum(p[..idx])
        decreases compact.Length - idx
      {
        var fileId := compact[idx];
        if fileId == -1 {
          break;
        }
        assert p[..idx + 1][..idx] == p[..idx];
        sum := sum + idx * fileId;
        idx := idx + 1;
      }
      assert p[..idx] == p;
    }
  }

  /** SolvePart1: parse, expand, compact and sum. */
  method SolvePart1(input: string) returns (answer: string)
    ensures var e := Expand(DigitsOf(TrimSpace(input)));
      answer == Itoa(WeightedSum(FilePrefix(CompactOf(e))))
  {
    var diskMap := ParseInput(input);
    var disk := new Disk(diskMap);
    disk.ExpandDiskMap();
    assert disk.expanded == Expand(diskMap);
    disk.Compact();
    assert disk.compact[..] == CompactOf(Expand(diskMap));
    var checksum := disk.ComputeChecksum();
    answer := Itoa(checksum);
  }
}
