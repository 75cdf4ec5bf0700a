/** 2024/day19: towels are strings of colour letters, made by laying
    available patterns end to end. Part 1 counts the towels that can be
    made at all; part 2 sums, over the towels, the number of ordered ways
    to make each, with a memo table shared by the recursive calls.

    Both recursions shorten the towel by the matched pattern, so they end
    only when every available pattern is non-empty; the model requires
    that. The input is taken as its list of lines; common.ReadAsLines is
    not part of this model. */
module Y2024Day19 {
  import opened Text

  type Pattern = seq<char>

  predicate NonEmptyPatterns(patterns: seq<Pattern>) {
    forall k :: 0 <= k < |patterns| ==> |patterns[k]| > 0
  }

  /** The pattern p lies at the start of the towel t. */
  predicate Fits(p: Pattern, t: Pattern) {
    |p| <= |t| && t[..|p|] == p
  }

  // ---------------------------------------------------------------------
  // Equals

  /** Equals: compares the lengths, then the runes one by one. */
  method Equals(a: Pattern, b: Pattern) returns (equal: bool)
    ensures equal <==> |a| == |b| && forall i :: 0 <= i < |a| ==> a[i] == b[i]
    ensures equal <==> a == b
  {
    if |a| != |b| {
      return false;
    }
    for i := 0 to |a|
      invariant forall j :: 0 <= j < i ==> a[j] == b[j]
    {
      if a[i] != b[i] {
        return false;
      }
    }
    return true;
  }

  /** The loop that checks a pattern against the start of the towel. */
  method StartsWith(t: Pattern, p: Pattern) returns (matches: bool)
    requires |p| <= |t|
    ensures matches <==> Fits(p, t)
  {
    matches := true;
    var i := 0;
    while i < |p|
      invariant 0 <= i <= |p|
      invariant matches <==> forall j :: 0 <= j < i ==> p[j] == t[j]
      invariant !matches ==> i == |p|
    {
      if p[i] != t[i] {
        matches := false;
        break;
      }
      i := i + 1;
    }
    assert matches ==> t[..|p|] == p;
  }

  // ---------------------------------------------------------------------
  // IsPossible

  /** towel.IsPossible: the empty towel is possible; otherwise some
      pattern, tried in order, fits at the start and the rest of the towel
      is possible. */
  function IsPossible(t: Pattern, patterns: seq<Pattern>): bool
    requires NonEmptyPatterns(patterns)
    decreases |t|, |patterns| + 1
  {
    |t| == 0 || PossibleFrom(t, patterns, 0)
  }

  /** Whether one of the patterns from index k on leads to a way. */
  function PossibleFrom(t: Pattern, patterns: seq<Pattern>, k: nat): bool
    requires NonEmptyPatterns(patterns) && k <= |patterns|
    decreases |t|, |patterns| - k
  {
    if k == |patterns| then false
    else (Fits(patterns[k], t) && IsPossible(t[|patterns[k]|..], patterns)) || PossibleFrom(t, patterns, k + 1)
  }

  // ---------------------------------------------------------------------
  // The number of ways

  /** The number of ways to make t: one for the empty towel, otherwise the
      sum over the patterns that fit at its start of the ways to make the
      rest. */
  function Ways(t: Pattern, patterns: seq<Pattern>): nat
    requires NonEmptyPatterns(patterns)
    decreases |t|, |patterns| + 1
  {
    if |t| == 0 then 1 else WaysFrom(t, patterns, |patterns|)
  }

  /** The ways that start with one of the first n patterns. */
  function WaysFrom(t: Pattern, patterns: seq<Pattern>, n: nat): nat
    requires NonEmptyPatterns(patterns) && n <= |patterns|
    decreases |t|, n
  {
    if n == 0 then 0
    else
      var p := patterns[n - 1];
      WaysFrom(t, patterns, n - 1) + (if Fits(p, t) then Ways(t[|p|..], patterns) else 0)
  }

  /** Some pattern from index k on leads to a way exactly when one of them
      fits and leaves a rest that can be made. */
  lemma {:induction false} PossibleFromMeaning(t: Pattern, patterns: seq<Pattern>, k: nat)
    requires NonEmptyPatterns(patterns) && k <= |patterns|
    ensures PossibleFrom(t, patterns, k) <==>
      exists j :: k <= j < |patterns| && Fits(patterns[j], t) && IsPossible(t[|patterns[j]|..], patterns)
    decreases |patterns| - k
  {
    if k < |patterns| {
      PossibleFromMeaning(t, patterns, k + 1);
    }
  }

  /** The first n patterns give a way exactly when one of them fits and
      leaves a rest with a way. */
  lemma {:induction false} WaysFromPositive(t: Pattern, patterns: seq<Pattern>, n: nat)
    requires NonEmptyPatterns(patterns) && n <= |patterns|
    ensures WaysFrom(t, patterns, n) > 0 <==>
      exists j :: 0 <= j < n && Fits(patterns[j], t) && Ways(t[|patterns[j]|..], patterns) > 0
  {
    if n > 0 {
      WaysFromPositive(t, patterns, n - 1);
    }
  }

  /** A towel is possible exactly when it has at least one way. */
  lemma {:induction false} PossibleIffWays(t: Pattern, patterns: seq<Pattern>)
    requires NonEmptyPatterns(patterns)
    ensures IsPossible(t, patterns) <==> Ways(t, patterns) > 0
    decreases |t|
  {
    if |t| > 0 {
      PossibleFromMeaning(t, patterns, 0);
      WaysFromPositive(t, patterns, |patterns|);
      forall j | 0 <= j < |patterns| && Fits(patterns[j], t)
        ensures IsPossible(t[|patterns[j]|..], patterns) <==> Ways(t[|patterns[j]|..], patterns) > 0
      {
        PossibleIffWays(t[|patterns[j]|..], patterns);
      }
    }
  }

  // ---------------------------------------------------------------------
  // Ways as decompositions

  /** The towel made by laying the patterns with the given indices end to
      end. */
  function Flatten(patterns: seq<Pattern>, idx: seq<nat>): Pattern
    requires forall i :: 0 <= i < |idx| ==> idx[i] < |patterns|
  {
    if idx == [] then [] else patterns[idx[0]] + Flatten(patterns, idx[1..])
  }

  /** idx lists available patterns, by index and in order, that make t. */
  predicate IsDecomposition(t: Pattern, patterns: seq<Pattern>, idx: seq<nat>) {
    (forall i :: 0 <= i < |idx| ==> idx[i] < |patterns|) && Flatten(patterns, idx) == t
  }

  function Prepend(k: nat, ds: seq<seq<nat>>): (r: seq<seq<nat>>)
    ensures |r| == |ds| && forall i :: 0 <= i < |ds| ==> r[i] == [k] + ds[i]
  {
    seq(|ds|, i requires 0 <= i < |ds| => [k] + ds[i])
  }

  /** Every decomposition of t, grouped by the index of its first pattern. */
  function Decompositions(t: Pattern, patterns: seq<Pattern>): seq<seq<nat>>
    requires NonEmptyPatterns(patterns)
    decreases |t|, |patterns| + 1
  {
    if |t| == 0 then [[]] else DecompositionsFrom(t, patterns, |patterns|)
  }

  /** The decompositions whose first pattern is one of the first n. */
  function DecompositionsFrom(t: Pattern, patterns: seq<Pattern>, n: nat): seq<seq<nat>>
    requires NonEmptyPatterns(patterns) && n <= |patterns|
    decreases |t|, n
  {
    if n == 0 then []
    else
      var p := patterns[n - 1];
      DecompositionsFrom(t, patterns, n - 1)
        + (if Fits(p, t) then Prepend(n - 1, Decompositions(t[|p|..], patterns)) else [])
  }

  /** There are as many decompositions as ways. */
  lemma {:induction false} DecompositionsCount(t: Pattern, patterns: seq<Pattern>)
    requires NonEmptyPatterns(patterns)
    ensures |Decompositions(t, patterns)| == Ways(t, patterns)
    decreases |t|, |patterns| + 1
  {
    if |t| > 0 {
      DecompositionsFromCount(t, patterns, |patterns|);
    }
  }

  lemma {:induction false} DecompositionsFromCount(t: Pattern, patterns: seq<Pattern>, n: nat)
    requires NonEmptyPatterns(patterns) && n <= |patterns|
    ensures |DecompositionsFrom(t, patterns, n)| == WaysFrom(t, patterns, n)
    decreases |t|, n
  {
    if n > 0 {
      DecompositionsFromCount(t, patterns, n - 1);
      var p := patterns[n - 1];
      if Fits(p, t) {
        DecompositionsCount(t[|p|..], patterns);
      }
    }
  }

  lemma FlattenCons(patterns: seq<Pattern>, k: nat, e: seq<nat>)
    requires k < |patterns| && forall i :: 0 <= i < |e| ==> e[i] < |patterns|
    ensures Flatten(patterns, [k] + e) == patterns[k] + Flatten(patterns, e)
  {
    assert ([k] + e)[1..] == e;
  }

  /** Every listed decomposition makes t. */
  lemma {:induction false} DecompositionsSound(t: Pattern, patterns: seq<Pattern>)
    requires NonEmptyPatterns(patterns)
    ensures forall d :: d in Decompositions(t, patterns) ==> IsDecomposition(t, patterns, d)
    decreases |t|, |patterns| + 1
  {
    if |t| > 0 {
      DecompositionsFromSound(t, patterns, |patterns|);
    }
  }

  lemma {:induction false} DecompositionsFromSound(t: Pattern, patterns: seq<Pattern>, n: nat)
    requires NonEmptyPatterns(patterns) && n <= |patterns|
    ensures forall d :: d in DecompositionsFrom(t, patterns, n) ==> IsDecomposition(t, patterns, d)
    decreases |t|, n
  {
    if n > 0 {
      DecompositionsFromSound(t, patterns, n - 1);
      var p := patterns[n - 1];
      if Fits(p, t) {
        var rest := t[|p|..];
        DecompositionsSound(rest, patterns);
        var ds := Decompositions(rest, patterns);
        forall i | 0 <= i < |ds|
          ensures IsDecomposition(t, patterns, [n - 1] + ds[i])
        {
          assert ds[i] in ds;
          FlattenCons(patterns, n - 1, ds[i]);
          assert t == p + rest;
        }
      }
    }
  }

  lemma FlattenLength(patterns: seq<Pattern>, idx: seq<nat>)
    requires NonEmptyPatterns(patterns) && forall i :: 0 <= i < |idx| ==> idx[i] < |patterns|
    ensures idx != [] ==> |Flatten(patterns, idx)| >= |patterns[idx[0]]| > 0
  {
  }

  /** Every decomposition of t is listed. */
  lemma {:induction false} DecompositionsComplete(t: Pattern, patterns: seq<Pattern>, d: seq<nat>)
    requires NonEmptyPatterns(patterns) && IsDecomposition(t, patterns, d)
    ensures d in Decompositions(t, patterns)
    decreases |t|
  {
    FlattenLength(patterns, d);
    if |t| == 0 {
      assert d == [];
    } else {
      var k := d[0];
      var e := d[1..];
      assert d == [k] + e;
      FlattenCons(patterns, k, e);
      var p := patterns[k];
      assert t[..|p|] == p && t[|p|..] == Flatten(patterns, e);
      DecompositionsComplete(t[|p|..], patterns, e);
      DecompositionsFromComplete(t, patterns, |patterns|, d);
    }
  }

  lemma {:induction false} DecompositionsFromComplete(t: Pattern, patterns: seq<Pattern>, n: nat, d: seq<nat>)
    requires NonEmptyPatterns(patterns) && n <= |patterns|
    requires d != [] && d[0] < n && Fits(patterns[d[0]], t)
    requires d[1..] in Decompositions(t[|patterns[d[0]]|..], patterns)
    ensures d in DecompositionsFrom(t, patterns, n)
  {
    if d[0] == n - 1 {
      assert d == [n - 1] + d[1..];
      InPrepend(n - 1, Decompositions(t[|patterns[n - 1]|..], patterns), d[1..]);
    } else {
      DecompositionsFromComplete(t, patterns, n - 1, d);
    }
  }

  lemma InPrepend(k: nat, ds: seq<seq<nat>>, e: seq<nat>)
    requires e in ds
    ensures [k] + e in Prepend(k, ds)
  {
    var i :| 0 <= i < |ds| && ds[i] == e;
    assert Prepend(k, ds)[i] == [k] + e;
  }

  predicate NoDuplicates(s: seq<seq<nat>>) {
    forall i, j :: 0 <= i < j < |s| ==> s[i] != s[j]
  }

  /** For a non-empty towel every listed decomposition of the first n
      patterns starts with an index below n. */
  lemma {:induction false} DecompositionsFromFirst(t: Pattern, patterns: seq<Pattern>, n: nat)
    requires NonEmptyPatterns(patterns) && n <= |patterns|
    ensures forall d :: d in DecompositionsFrom(t, patterns, n) ==> d != [] && d[0] < n
  {
    if n > 0 {
      DecompositionsFromFirst(t, patterns, n - 1);
    }
  }

  /** No decomposition is listed twice, so the ways count distinct
      decompositions; two equal patterns at different indices give
      different decompositions. */
  lemma {:induction false} DecompositionsDistinct(t: Pattern, patterns: seq<Pattern>)
    requires NonEmptyPatterns(patterns)
    ensures NoDuplicates(Decompositions(t, patterns))
    decreases |t|, |patterns| + 1
  {
    if |t| > 0 {
      DecompositionsFromDistinct(t, patterns, |patterns|);
    }
  }

  lemma {:induction false} DecompositionsFromDistinct(t: Pattern, patterns: seq<Pattern>, n: nat)
    requires NonEmptyPatterns(patterns) && n <= |patterns|
    ensures NoDuplicates(DecompositionsFrom(t, patterns, n))
    decreases |t|, n
  {
    if n > 0 {
      DecompositionsFromDistinct(t, patterns, n - 1);
      DecompositionsFromFirst(t, patterns, n - 1);
      var p := patterns[n - 1];
      var a := DecompositionsFrom(t, patterns, n - 1);
      var b := if Fits(p, t) then Prepend(n - 1, Decompositions(t[|p|..], patterns)) else [];
      if Fits(p, t) {
        var ds := Decompositions(t[|p|..], patterns);
        DecompositionsDistinct(t[|p|..], patterns);
        forall i, j | 0 <= i < j < |b|
          ensures b[i] != b[j]
        {
          assert b[i][1..] == ds[i] && b[j][1..] == ds[j];
        }
      }
      forall i, j | 0 <= i < |a| && 0 <= j < |b|
        ensures a[i] != b[j]
      {
        assert a[i] in a;
      }
      NoDuplicatesAppend(a, b);
    }
  }

  lemma NoDuplicatesAppend(a: seq<seq<nat>>, b: seq<seq<nat>>)
    requires NoDuplicates(a) && NoDuplicates(b)
    requires forall i, j :: 0 <= i < |a| && 0 <= j < |b| ==> a[i] != b[j]
    ensures NoDuplicates(a + b)
  {
    forall i, j | 0 <= i < j < |a + b|
      ensures (a + b)[i] != (a + b)[j]
    {
      if j < |a| {
      } else if i < |a| {
        assert (a + b)[j] == b[j - |a|];
      } else {
        assert (a + b)[i] == b[i - |a|] && (a + b)[j] == b[j - |a|];
      }
    }
  }

  /** A towel is possible exactly when it is some available patterns laid
      end to end. */
  lemma PossibleIffDecomposable(t: Pattern, patterns: seq<Pattern>)
    requires NonEmptyPatterns(patterns)
    ensures IsPossible(t, patterns) <==> exists d :: IsDecomposition(t, patterns, d)
  {
    PossibleIffWays(t, patterns);
    DecompositionsCount(t, patterns);
    DecompositionsSound(t, patterns);
    var ds := Decompositions(t, patterns);
    if |ds| > 0 {
      assert ds[0] in ds;
    }
    if exists d :: IsDecomposition(t, patterns, d) {
      var d :| IsDecomposition(t, patterns, d);
      DecompositionsComplete(t, patterns, d);
    }
  }

  // ---------------------------------------------------------------------
  // NumPossibleWaysToMakeTowel

  /** The cache a towel shares with the towels made from its rests. */
  class Cache {
    var entries: map<Pattern, int>

    constructor()
      ensures entries == map[]
    {
      entries := map[];
    }
  }

  /** Every cached entry is the number of ways of its key. */
  ghost predicate Caches(entries: map<Pattern, int>, patterns: seq<Pattern>)
    requires NonEmptyPatterns(patterns)
  {
    forall key :: key in entries ==> entries[key] == Ways(key, patterns)
  }

  class Towel {
    var pattern: Pattern
    var cache: Cache

    /** NewTowel: a towel with an empty cache of its own. */
    constructor(pattern: Pattern)
      ensures this.pattern == pattern && fresh(cache) && cache.entries == map[]
    {
      this.pattern := pattern;
      cache := new Cache();
    }

    /** towel.NumPossibleWaysToMakeTowel: looks the towel up in the cache,
        else sums the ways of the rests over the patterns that fit, each
        rest a new towel sharing this cache, and caches the sum. */
    method NumPossibleWaysToMakeTowel(patterns: seq<Pattern>) returns (count: int)
      requires NonEmptyPatterns(patterns) && Caches(cache.entries, patterns)
      modifies cache
      ensures count == Ways(pattern, patterns)
      ensures Caches(cache.entries, patterns)
      decreases |pattern|
    {
      var key := pattern;
      if key in cache.entries {
        return cache.entries[key];
      }
      if |pattern| == 0 {
        return 1;
      }
      count := 0;
      for k := 0 to |patterns|
        invariant count == WaysFrom(pattern, patterns, k)
        invariant Caches(cache.entries, patterns)
      {
        var p := patterns[k];
        if |p| > |pattern| {
          continue;
        }
        var matches := StartsWith(pattern, p);
        if matches {
          var remainingTowel := new Towel(pattern[|p|..]);
          remainingTowel.cache := cache;
          var ways := remainingTowel.NumPossibleWaysToMakeTowel(patterns);
          count := count + ways;
        }
      }
      cache.entries := cache.entries[key := count];
    }
  }

  // ---------------------------------------------------------------------
  // The problem input

  datatype ProblemInput = ProblemInput(availablePatterns: seq<Pattern>, towels: seq<Pattern>)

  /** How many of the towels are possible. */
  function CountPossible(towels: seq<Pattern>, patterns: seq<Pattern>): (r: nat)
    requires NonEmptyPatterns(patterns)
    ensures r <= |towels|
  {
    if towels == [] then 0
    else CountPossible(towels[..|towels| - 1], patterns) + (if IsPossible(towels[|towels| - 1], patterns) then 1 else 0)
  }

  /** The ways of all the towels together. */
  function TotalWays(towels: seq<Pattern>, patterns: seq<Pattern>): nat
    requires NonEmptyPatterns(patterns)
  {
    if towels == [] then 0 else TotalWays(towels[..|towels| - 1], patterns) + Ways(towels[|towels| - 1], patterns)
  }

  /** Possible towels are those with a way, so every possible towel adds at
      least one to the total. */
  lemma {:induction false} CountBelowTotal(towels: seq<Pattern>, patterns: seq<Pattern>)
    requires NonEmptyPatterns(patterns)
    ensures CountPossible(towels, patterns) <= TotalWays(towels, patterns)
  {
    if towels != [] {
      CountBelowTotal(towels[..|towels| - 1], patterns);
      PossibleIffWays(towels[|towels| - 1], patterns);
    }
  }

  /** pi.CountPossibleTowels */
  method CountPossibleTowels(pi: ProblemInput) returns (count: int)
    requires NonEmptyPatterns(pi.availablePatterns)
    ensures count == CountPossible(pi.towels, pi.availablePatterns)
    ensures 0 <= count <= |pi.towels|
  {
    count := 0;
    var towels := pi.towels;
    for i := 0 to |towels|
      invariant count == CountPossible(towels[..i], pi.availablePatterns)
    {
      assert towels[..i + 1][..i] == towels[..i];
      if IsPossible(towels[i], pi.availablePatterns) {
        count := count + 1;
      }
    }
    assert towels[..|towels|] == towels;
  }

  /** pi.NumPossibleWaysToMakeTowels: each towel with its own empty
      cache. */
  method NumPossibleWaysToMakeTowels(pi: ProblemInput) returns (count: int)
    requires NonEmptyPatterns(pi.availablePatterns)
    ensures count == TotalWays(pi.towels, pi.availablePatterns)
  {
    count := 0;
    var towels := pi.towels;
    for i := 0 to |towels|
      invariant count == TotalWays(towels[..i], pi.availablePatterns)
    {
      assert towels[..i + 1][..i] == towels[..i];
      var towel := new Towel(towels[i]);
      var ways := towel.NumPossibleWaysToMakeTowel(pi.availablePatterns);
      count := count + ways;
    }
    assert towels[..|towels|] == towels;
  }

  // ---------------------------------------------------------------------
  // parseInput

  /** The patterns of the first line: split on commas, each trimmed. */
  function PatternsOf(line: string): seq<Pattern> {
    TrimAll(Split(line, ','))
  }

  /** Every part, trimmed. */
  function TrimAll(parts: seq<string>): seq<string> {
    if parts == [] then [] else TrimAll(parts[..|parts| - 1]) + [TrimSpace(parts[|parts| - 1])]
  }

  /** Parts that are words already are kept as they are. */
  lemma {:induction false} TrimAllWords(parts: seq<string>)
    requires forall k :: 0 <= k < |parts| ==> |parts[k]| > 0 && NoSpace(parts[k])
    ensures TrimAll(parts) == parts
  {
    if parts != [] {
      var n := |parts| - 1;
      var init, last := parts[..n], parts[n];
      assert parts == init + [last];
      TrimAllWords(init);
      TrimSpaceWord(last);
    }
  }

  /** parseInput on the first n lines: empty lines are skipped; the first
      line, when not empty, gives the patterns; every other line is a
      towel, trimmed. */
  function ParseLines(lines: seq<string>, n: nat): ProblemInput
    requires n <= |lines|
  {
    if n == 0 then ProblemInput([], [])
    else
      var pi := ParseLines(lines, n - 1);
      var line := lines[n - 1];
      if |line| == 0 then pi
      else if n - 1 == 0 then pi.(availablePatterns := pi.availablePatterns + PatternsOf(line))
      else pi.(towels := pi.towels + [TrimSpace(line)])
  }

  function ParseInput(lines: seq<string>): ProblemInput {
    ParseLines(lines, |lines|)
  }

  lemma TrimAllPrefix(parts: seq<string>, j: nat)
    requires j < |parts|
    ensures TrimAll(parts[..j + 1]) == TrimAll(parts[..j]) + [TrimSpace(parts[j])]
  {
    assert parts[..j + 1][..j] == parts[..j];
  }

  /** The inner loop of parseInput over the first line's comma-separated
      patterns. */
  method ReadPatterns(line: string) returns (patterns: seq<Pattern>)
    ensures patterns == PatternsOf(line)
  {
    var patternStrs := Split(line, ',');
    patterns := [];
    for j := 0 to |patternStrs|
      invariant patterns == TrimAll(patternStrs[..j])
    {
      TrimAllPrefix(patternStrs, j);
      patterns := patterns + [TrimSpace(patternStrs[j])];
    }
    assert patternStrs[..|patternStrs|] == patternStrs;
  }

  /** The loop of parseInput. */
  method ParseInputLines(lines: seq<string>) returns (pi: ProblemInput)
    ensures pi == ParseInput(lines)
  {
    pi := ProblemInput([], []);
    for i := 0 to |lines|
      invariant pi == ParseLines(lines, i)
    {
      var line := lines[i];
      if |line| == 0 {
        continue;
      }
      if i == 0 {
        var patterns := ReadPatterns(line);
        pi := pi.(availablePatterns := pi.availablePatterns + patterns);
        continue;
      }
      pi := pi.(towels := pi.towels + [TrimSpace(line)]);
    }
  }

  /** The patterns, joined by commas, then an empty line, then the towels,
      one per line, read back as those patterns and towels. */
  lemma ParseInputText(patterns: seq<Pattern>, towels: seq<Pattern>)
    requires |patterns| >= 1
    requires forall k :: 0 <= k < |patterns| ==> |patterns[k]| > 0 && NoSpace(patterns[k]) && ',' !in patterns[k]
    requires forall k :: 0 <= k < |towels| ==> |towels[k]| > 0 && NoSpace(towels[k])
    ensures ParseInput([Join(patterns, ',')] + [""] + towels) == ProblemInput(patterns, towels)
  {
    var line := Join(patterns, ',');
    var lines := [line] + [""] + towels;
    assert lines[0] == line && lines[1] == "";
    assert lines[2..] == towels;
    assert towels[..|lines| - 2] == towels;
    forall k | 0 <= k < |towels|
      ensures lines[k + 2] == towels[k] && TrimSpace(towels[k]) == towels[k]
    {
      assert lines[k + 2] == lines[2..][k];
      TrimSpaceWord(towels[k]);
    }
    PatternsOfJoin(patterns);
    ParseHead(lines, patterns);
    ParseTail(lines, patterns, towels, |lines|);
  }

  /** The first line joins the patterns, so it is not empty and reads back
      as the patterns. */
  lemma PatternsOfJoin(patterns: seq<Pattern>)
    requires |patterns| >= 1
    requires forall k :: 0 <= k < |patterns| ==> |patterns[k]| > 0 && NoSpace(patterns[k]) && ',' !in patterns[k]
    ensures |Join(patterns, ',')| > 0 && PatternsOf(Join(patterns, ',')) == patterns
  {
    SplitJoin(patterns, ',');
    PatternsOfWords(Join(patterns, ','), patterns);
    JoinStarts(patterns, ',');
  }

  /** A line that splits into words reads back as those words. */
  lemma PatternsOfWords(line: string, patterns: seq<Pattern>)
    requires Split(line, ',') == patterns
    requires forall k :: 0 <= k < |patterns| ==> |patterns[k]| > 0 && NoSpace(patterns[k])
    ensures PatternsOf(line) == patterns
  {
    TrimAllWords(patterns);
  }

  lemma ParseHead(lines: seq<string>, patterns: seq<Pattern>)
    requires |lines| >= 2 && |lines[0]| > 0 && PatternsOf(lines[0]) == patterns && lines[1] == ""
    ensures ParseLines(lines, 2) == ProblemInput(patterns, [])
  {
    assert ParseLines(lines, 1) == ProblemInput(patterns, []);
  }

  lemma {:induction false} ParseTail(lines: seq<string>, patterns: seq<Pattern>, towels: seq<Pattern>, n: nat)
    requires 2 <= n <= |lines| == |towels| + 2
    requires ParseLines(lines, 2) == ProblemInput(patterns, [])
    requires forall k :: 0 <= k < |towels| ==> lines[k + 2] == towels[k]
    requires forall k :: 0 <= k < |towels| ==> |towels[k]| > 0 && TrimSpace(towels[k]) == towels[k]
    ensures ParseLines(lines, n) == ProblemInput(patterns, towels[..n - 2])
  {
    if n > 2 {
      var t := towels[n - 3];
      assert towels[..n - 2] == towels[..n - 3] + [t];
      assert lines[n - 1] == t && |t| > 0 && TrimSpace(t) == t;
      ParseTail(lines, patterns, towels, n - 1);
      ParseTowelLine(lines, n - 1, t);
    }
  }

  /** A later line holding one word adds that word as a towel. */
  lemma ParseTowelLine(lines: seq<string>, i: nat, t: Pattern)
    requires 1 <= i < |lines| && lines[i] == t && |t| > 0 && TrimSpace(t) == t
    ensures ParseLines(lines, i + 1) == ParseLines(lines, i).(towels := ParseLines(lines, i).towels + [t])
  {
  }

  lemma JoinStarts(parts: seq<string>, sep: char)
    requires |parts| >= 1
    ensures |Join(parts, sep)| >= |parts[0]|
  {
    if |parts| > 1 {
      assert Join(parts, sep) == parts[0] + [sep] + Join(parts[1..], sep);
    }
  }

  // ---------------------------------------------------------------------
  // The solver

  /** SolvePart1: the number of possible towels, in decimal; None when an
      available pattern is empty (the recursion need not end). */
  method SolvePart1(lines: seq<string>) returns (answer: Option<string>)
    ensures var pi := ParseInput(lines);
      answer == if NonEmptyPatterns(pi.availablePatterns)
        then Some(Itoa(CountPossible(pi.towels, pi.availablePatterns))) else None
  {
    var pi := ParseInputLines(lines);
    if exists k :: 0 <= k < |pi.availablePatterns| && |pi.availablePatterns[k]| == 0 {
      return None;
    }
    var count := CountPossibleTowels(pi);
    return Some(Itoa(count));
  }

  /** SolvePart2: the total number of ways, in decimal. */
  method SolvePart2(lines: seq<string>) returns (answer: Option<string>)
    ensures var pi := ParseInput(lines);
      answer == if NonEmptyPatterns(pi.availablePatterns)
        then Some(Itoa(TotalWays(pi.towels, pi.availablePatterns))) else None
  {
    var pi := ParseInputLines(lines);
    if exists k :: 0 <= k < |pi.availablePatterns| && |pi.availablePatterns[k]| == 0 {
      return None;
    }
    var count := NumPossibleWaysToMakeTowels(pi);
    return Some(Itoa(count));
  }

  /** An example, not a general property: with patterns "r", "b" and
      "rb", the towel "rb" has two ways and "g" none. */
  lemma SmallExample()
    ensures Ways("rb", ["r", "b", "rb"]) == 2
    ensures !IsPossible("g", ["r", "b", "rb"])
  {
    var pats: seq<Pattern> := ["r", "b", "rb"];
    assert Ways("b", pats) == 1 by {
      assert "b"[1..] == [];
      assert Fits("b", "b") && !Fits("r", "b") && !Fits("rb", "b");
      assert WaysFrom("b", pats, 3) == 1;
    }
    assert Fits("r", "rb") && !Fits("b", "rb") && Fits("rb", "rb");
    assert "rb"[1..] == "b" && "rb"[2..] == [];
    assert !Fits("r", "g") && !Fits("b", "g") && !Fits("rb", "g");
  }
}
