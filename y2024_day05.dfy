/** 2024/day05: page orders checked against precedence rules. A rule "X|Y"
    says that when both X and Y are printed, X comes first; it is stored as
    rules[Y] containing X. An order is checked page by page, remembering
    which pages may no longer appear, and an invalid order is repaired by
    moving the offending page in front of the page that required it, over
    and over until the order is valid. */
module Y2024Day05 {
  import opened Text
  import opened Utils

  /** Y -> the pages X of the rules "X|Y", in input order. */
  type Rules = map<int, seq<int>>

  datatype PageOrder = PageOrder(pages: seq<int>)

  datatype Validity = Validity(isValid: bool, invalidPageIndex: int, shouldComeBeforePageIndex: int)

  datatype ProblemInput = ProblemInput(rules: Rules, pageOrders: seq<PageOrder>)

  /** The pages that must precede `page` (none when it has no rule). */
  function RulesFor(rules: Rules, page: int): seq<int> {
    if page in rules then rules[page] else []
  }

  // ---------------------------------------------------------------------
  // IsValid

  /** Page x gets marked at index i: a rule "x|pages[i]" exists and x has
      not been seen among pages[..i + 1]. */
  predicate Marked(pages: seq<int>, rules: Rules, i: int, x: int)
    requires 0 <= i < |pages|
  {
    x in RulesFor(rules, pages[i]) && x !in pages[..i + 1]
  }

  /** The inner loop of IsValid: every page of xs not yet seen is marked
      with index i (a later mark overwrites an earlier one). */
  function Mark(marks: map<int, int>, xs: seq<int>, seen: set<int>, i: int): map<int, int> {
    if xs == [] then marks
    else
      var m := Mark(marks, xs[..|xs| - 1], seen, i);
      var x := xs[|xs| - 1];
      if x !in seen then m[x := i] else m
  }

  /** After the inner loop, x is marked iff it was before or it is among xs
      and unseen; in the latter case its index is i. */
  lemma {:induction false} MarkMeaning(marks: map<int, int>, xs: seq<int>, seen: set<int>, i: int, x: int)
    ensures x in Mark(marks, xs, seen, i) <==> x in marks || (x in xs && x !in seen)
    ensures x in Mark(marks, xs, seen, i) ==>
      Mark(marks, xs, seen, i)[x] == (if x in xs && x !in seen then i else marks[x])
  {
    if xs != [] {
      MarkMeaning(marks, xs[..|xs| - 1], seen, i, x);
      assert xs == xs[..|xs| - 1] + [xs[|xs| - 1]];
    }
  }

  /** The set of the pages of s. */
  function Elements(s: seq<int>): set<int> {
    set x | x in s
  }

  /** ifSeenInvalid after the first n pages. */
  function Marks(pages: seq<int>, rules: Rules, n: nat): map<int, int>
    requires n <= |pages|
  {
    if n == 0 then map[]
    else Mark(Marks(pages, rules, n - 1), RulesFor(rules, pages[n - 1]), Elements(pages[..n]), n - 1)
  }

  /** After the first n pages, x may no longer appear iff some index i < n
      marked it, and the index recorded is the last such i. */
  lemma {:induction false} MarksMeaning(pages: seq<int>, rules: Rules, n: nat, x: int)
    requires n <= |pages|
    ensures x in Marks(pages, rules, n) <==> exists i :: 0 <= i < n && Marked(pages, rules, i, x)
    ensures x in Marks(pages, rules, n) ==>
      var i := Marks(pages, rules, n)[x];
      0 <= i < n && Marked(pages, rules, i, x)
      && forall k :: i < k < n ==> !Marked(pages, rules, k, x)
  {
    if n > 0 {
      MarksMeaning(pages, rules, n - 1, x);
      var xs := RulesFor(rules, pages[n - 1]);
      MarkMeaning(Marks(pages, rules, n - 1), xs, Elements(pages[..n]), n - 1, x);
      assert Marked(pages, rules, n - 1, x) <==> x in xs && x !in Elements(pages[..n]);
    }
  }

  /** IsValid from index j on: the first page that some earlier page
      forbade makes the order invalid. */
  function CheckFrom(pages: seq<int>, rules: Rules, j: nat): (v: Validity)
    requires j <= |pages|
    ensures v.isValid ==> v.invalidPageIndex == -1 && v.shouldComeBeforePageIndex == -1
    ensures !v.isValid ==> j <= v.invalidPageIndex < |pages| && 0 <= v.shouldComeBeforePageIndex < v.invalidPageIndex
    decreases |pages| - j
  {
    if j == |pages| then Validity(true, -1, -1)
    else
      var marks := Marks(pages, rules, j);
      if pages[j] in marks then
        MarksMeaning(pages, rules, j, pages[j]);
        Validity(false, j, marks[pages[j]])
      else CheckFrom(pages, rules, j + 1)
  }

  /** An invalid verdict names a page that the pages before it forbid, and
      the index recorded for it. */
  lemma {:induction false} CheckFromMarks(pages: seq<int>, rules: Rules, j: nat)
    requires j <= |pages|
    ensures var v := CheckFrom(pages, rules, j);
      !v.isValid ==>
        (pages[v.invalidPageIndex] in Marks(pages, rules, v.invalidPageIndex)
         && v.shouldComeBeforePageIndex == Marks(pages, rules, v.invalidPageIndex)[pages[v.invalidPageIndex]])
    decreases |pages| - j
  {
    if j < |pages| && pages[j] !in Marks(pages, rules, j) {
      CheckFromMarks(pages, rules, j + 1);
    }
  }

  /** CheckFrom finds the first forbidden page from j on, and none before it. */
  lemma {:induction false} CheckFromFirst(pages: seq<int>, rules: Rules, j: nat, k: nat)
    requires j <= k < |pages|
    ensures var v := CheckFrom(pages, rules, j);
      pages[k] in Marks(pages, rules, k) ==> !v.isValid && v.invalidPageIndex <= k
    ensures var v := CheckFrom(pages, rules, j);
      !v.isValid && k < v.invalidPageIndex ==> pages[k] !in Marks(pages, rules, k)
    decreases k - j
  {
    if j < k && pages[j] !in Marks(pages, rules, j) {
      CheckFromFirst(pages, rules, j + 1, k);
    }
  }

  /** The verdict of IsValid on an order. */
  function ValidityOf(pages: seq<int>, rules: Rules): (v: Validity)
    ensures v.isValid ==> v.invalidPageIndex == -1 && v.shouldComeBeforePageIndex == -1
    ensures !v.isValid ==> 0 <= v.shouldComeBeforePageIndex < v.invalidPageIndex < |pages|
  {
    CheckFrom(pages, rules, 0)
  }

  /** An invalid verdict names a page and the earlier page that forbade it. */
  lemma ValidityOfMarked(pages: seq<int>, rules: Rules)
    ensures var v := ValidityOf(pages, rules);
      !v.isValid ==> Marked(pages, rules, v.shouldComeBeforePageIndex, pages[v.invalidPageIndex])
  {
    var v := ValidityOf(pages, rules);
    CheckFromMarks(pages, rules, 0);
    if !v.isValid {
      MarksMeaning(pages, rules, v.invalidPageIndex, pages[v.invalidPageIndex]);
    }
  }

  /** PageOrder.IsValid: `seen` holds the pages met so far and
      `ifSeenInvalid` maps each page that may no longer appear to the index
      of the page that forbade it. */
  method IsValid(po: PageOrder, rules: Rules) returns (v: Validity)
    ensures v == ValidityOf(po.pages, rules)
  {
    var pages := po.pages;
    var seen: set<int> := {};
    var ifSeenInvalid: map<int, int> := map[];
    var i := 0;
    while i < |pages|
      invariant 0 <= i <= |pages|
      invariant seen == Elements(pages[..i])
      invariant ifSeenInvalid == Marks(pages, rules, i)
      invariant CheckFrom(pages, rules, 0) == CheckFrom(pages, rules, i)
    {
      var page := pages[i];
      if page in ifSeenInvalid {
        return Validity(false, i, ifSeenInvalid[page]);
      }
      seen := seen + {page};
      assert pages[..i + 1] == pages[..i] + [page];
      assert seen == Elements(pages[..i + 1]);
      if page in rules {
        var xs := rules[page];
        ghost var before := ifSeenInvalid;
        for k := 0 to |xs|
          invariant ifSeenInvalid == Mark(before, xs[..k], seen, i)
        {
          assert xs[..k + 1][..k] == xs[..k];
          if xs[k] !in seen {
            ifSeenInvalid := ifSeenInvalid[xs[k] := i];
          }
        }
        assert xs[..|xs|] == xs;
      }
      assert ifSeenInvalid == Marks(pages, rules, i + 1);
      i := i + 1;
    }
    return Validity(true, -1, -1);
  }

  /** "p|q" with q earlier than p in the order: pages[i] == q must follow
      pages[j] == p, so rules[q] holds p. */
  predicate Violation(pages: seq<int>, rules: Rules, i: int, j: int) {
    0 <= i < j < |pages| && pages[j] in RulesFor(rules, pages[i])
  }

  predicate NoRepeats(pages: seq<int>) {
    forall i, j :: 0 <= i < j < |pages| ==> pages[i] != pages[j]
  }

  lemma MarkedIsViolation(pages: seq<int>, rules: Rules, i: int, j: int)
    requires NoRepeats(pages) && 0 <= i < j < |pages|
    ensures Marked(pages, rules, i, pages[j]) <==> Violation(pages, rules, i, j)
  {
    assert pages[j] !in pages[..i + 1] by {
      forall k | 0 <= k <= i
        ensures pages[k] != pages[j]
      {
      }
    }
  }

  /** For an order without repeated pages: it is invalid exactly when some
      page comes after a page that a rule says it must precede. Then
      invalidPageIndex is the first page with such an earlier page, and
      shouldComeBeforePageIndex the last of those earlier pages. */
  lemma ValidityMeaning(pages: seq<int>, rules: Rules)
    requires NoRepeats(pages)
    ensures var v := ValidityOf(pages, rules);
      v.isValid <==> !exists i, j :: Violation(pages, rules, i, j)
    ensures var v := ValidityOf(pages, rules);
      !v.isValid ==>
        (Violation(pages, rules, v.shouldComeBeforePageIndex, v.invalidPageIndex)
         && (forall i, j :: Violation(pages, rules, i, j) ==> v.invalidPageIndex <= j)
         && (forall i :: v.shouldComeBeforePageIndex < i < v.invalidPageIndex ==>
               !Violation(pages, rules, i, v.invalidPageIndex)))
  {
    var v := ValidityOf(pages, rules);
    forall i, j | Violation(pages, rules, i, j)
      ensures !v.isValid && v.invalidPageIndex <= j
    {
      MarkedIsViolation(pages, rules, i, j);
      MarksMeaning(pages, rules, j, pages[j]);
      CheckFromFirst(pages, rules, 0, j);
    }
    if !v.isValid {
      var j := v.invalidPageIndex;
      CheckFromMarks(pages, rules, 0);
      MarksMeaning(pages, rules, j, pages[j]);
      ValidityOfMarked(pages, rules);
      MarkedIsViolation(pages, rules, v.shouldComeBeforePageIndex, j);
      forall i | v.shouldComeBeforePageIndex < i < j
        ensures !Violation(pages, rules, i, j)
      {
        MarkedIsViolation(pages, rules, i, j);
      }
    }
  }

  // ---------------------------------------------------------------------
  // Correct

  /** One repair: the page at invalidPageIndex moves in front of the page at
      shouldComeBeforePageIndex, and the pages in between shift one place to
      the right; nothing else moves. */
  function Repair(pages: seq<int>, v: Validity): (r: seq<int>)
    requires 0 <= v.shouldComeBeforePageIndex < v.invalidPageIndex < |pages|
    ensures |r| == |pages|
  {
    var i, j := v.shouldComeBeforePageIndex, v.invalidPageIndex;
    pages[..i] + [pages[j]] + pages[i..j] + pages[j + 1..]
  }

  /** Removing the offending page and inserting it at the earlier index, as
      Correct does, is the repair. */
  lemma RepairShape(pages: seq<int>, v: Validity)
    requires 0 <= v.shouldComeBeforePageIndex < v.invalidPageIndex < |pages|
    ensures var i, j := v.shouldComeBeforePageIndex, v.invalidPageIndex;
      Insert(RemoveIndex(pages, j), i, pages[j]) == Repair(pages, v)
  {
    var i, j := v.shouldComeBeforePageIndex, v.invalidPageIndex;
    var r := RemoveIndex(pages, j);
    assert r == pages[..j] + pages[j + 1..];
    assert r[..i] == pages[..i];
    assert r[i..] == pages[i..j] + pages[j + 1..];
  }

  /** A repair keeps the pages of the order. */
  lemma RepairPermutes(pages: seq<int>, v: Validity)
    requires 0 <= v.shouldComeBeforePageIndex < v.invalidPageIndex < |pages|
    ensures multiset(Repair(pages, v)) == multiset(pages)
  {
    var i, j := v.shouldComeBeforePageIndex, v.invalidPageIndex;
    assert pages == pages[..i] + pages[i..j] + [pages[j]] + pages[j + 1..];
  }

  /** The shape of IsValid's verdict: -1/-1 for a valid order, otherwise a
      page and an earlier page of the order. */
  predicate WellFormed(pages: seq<int>, v: Validity) {
    if v.isValid then v.invalidPageIndex == -1 && v.shouldComeBeforePageIndex == -1
    else 0 <= v.shouldComeBeforePageIndex < v.invalidPageIndex < |pages|
  }

  /** A verdict function on orders. */
  type Checker = seq<int> -> Validity

  ghost predicate Sound(check: Checker) {
    forall p :: WellFormed(p, check(p))
  }

  /** `check` gives IsValid's verdict on every order. The equation is
      instantiated only where a ValidityOf term occurs, so a proof that is
      handed `check` reasons about its verdicts without unfolding them. */
  ghost predicate Decides(check: Checker, rules: Rules) {
    Sound(check) && forall p {:trigger ValidityOf(p, rules)} :: check(p) == ValidityOf(p, rules)
  }

  /** IsValid as a verdict function. */
  function Verdict(rules: Rules): (check: Checker)
    ensures Decides(check, rules)
  {
    p => ValidityOf(p, rules)
  }

  /** Correct, for any verdict function of IsValid's shape: a valid order is
      the result, an invalid one is repaired and corrected again, with at
      most `fuel` repairs (None where the fuel runs out: with cyclic rules
      the repairs may never end). */
  function CorrectWith(pages: seq<int>, check: Checker, fuel: nat): (r: Option<seq<int>>)
    requires Sound(check)
    ensures r.Some? ==> |r.value| == |pages|
    ensures check(pages).isValid ==> r == Some(pages)
    decreases fuel
  {
    var v := check(pages);
    if v.isValid then Some(pages)
    else if fuel == 0 then None
    else CorrectWith(Repair(pages, v), check, fuel - 1)
  }

  /** What CorrectWith returns is a rearrangement of its input. */
  lemma {:induction false} CorrectWithPermutes(pages: seq<int>, check: Checker, fuel: nat)
    requires Sound(check)
    ensures var r := CorrectWith(pages, check, fuel);
      r.Some? ==> multiset(r.value) == multiset(pages)
    decreases fuel
  {
    var v := check(pages);
    if !v.isValid && fuel > 0 {
      var next := Repair(pages, v);
      RepairPermutes(pages, v);
      CorrectWithPermutes(next, check, fuel - 1);
      var r := CorrectWith(next, check, fuel - 1);
      assert CorrectWith(pages, check, fuel) == r;
      if r.Some? {
        assert multiset(r.value) == multiset(next);
      }
    }
  }

  /** What CorrectWith returns is accepted by the verdict function. */
  lemma {:induction false} CorrectWithAccepted(pages: seq<int>, check: Checker, fuel: nat)
    requires Sound(check)
    ensures var r := CorrectWith(pages, check, fuel);
      r.Some? ==> check(r.value).isValid
    decreases fuel
  {
    var v := check(pages);
    if !v.isValid && fuel > 0 {
      var next := Repair(pages, v);
      assert CorrectWith(pages, check, fuel) == CorrectWith(next, check, fuel - 1);
      CorrectWithAccepted(next, check, fuel - 1);
      var r := CorrectWith(next, check, fuel - 1);
      assert r.Some? ==> check(r.value).isValid;
    }
  }

  /** Correct on the verdicts of IsValid. */
  function CorrectSpec(pages: seq<int>, rules: Rules, fuel: nat): (r: Option<seq<int>>)
    ensures r.Some? ==> |r.value| == |pages|
    ensures ValidityOf(pages, rules).isValid ==> r == Some(pages)
  {
    CorrectWith(pages, Verdict(rules), fuel)
  }

  /** What Correct returns is a valid rearrangement of its input. */
  lemma CorrectSpecPermutes(pages: seq<int>, rules: Rules, fuel: nat)
    ensures var r := CorrectSpec(pages, rules, fuel);
      r.Some? ==> multiset(r.value) == multiset(pages) && ValidityOf(r.value, rules).isValid
  {
    CorrectWithPermutes(pages, Verdict(rules), fuel);
    CorrectWithAccepted(pages, Verdict(rules), fuel);
  }

  /** A repair keeps an order free of repeats. */
  lemma RepairNoRepeats(pages: seq<int>, v: Validity)
    requires NoRepeats(pages)
    requires 0 <= v.shouldComeBeforePageIndex < v.invalidPageIndex < |pages|
    ensures NoRepeats(Repair(pages, v))
  {
    RepairPermutes(pages, v);
    var r := Repair(pages, v);
    forall a, b | 0 <= a < b < |r|
      ensures r[a] != r[b]
    {
      CountPair(r, a, b);
      NoRepeatsCount(pages, r[a]);
    }
  }

  /** An order without repeats holds each page at most once. */
  lemma {:induction false} NoRepeatsCount(s: seq<int>, x: int)
    requires NoRepeats(s)
    ensures multiset(s)[x] <= 1
  {
    if s != [] {
      var init := s[..|s| - 1];
      NoRepeatsCount(init, x);
      assert s == init + [s[|s| - 1]];
      assert forall k :: 0 <= k < |init| ==> init[k] != s[|s| - 1];
    }
  }

  /** The page at index a occurs at least once, twice when index b holds it too. */
  lemma CountPair(r: seq<int>, a: int, b: int)
    requires 0 <= a < b < |r|
    ensures multiset(r)[r[a]] >= (if r[a] == r[b] then 2 else 1)
  {
    assert r == r[..b] + [r[b]] + r[b + 1..];
    assert r[..b][a] == r[a];
  }

  /** PageOrder.Correct: a valid order is returned as is; otherwise a copy
      is repaired once and corrected again. The verdict function `check`
      only names, for the proof, the verdicts IsValid computes. */
  method Correct(po: PageOrder, rules: Rules, ghost check: Checker, fuel: nat) returns (r: Option<PageOrder>)
    requires Decides(check, rules)
    ensures r.Some? <==> CorrectWith(po.pages, check, fuel).Some?
    ensures r.Some? ==> r.value.pages == CorrectWith(po.pages, check, fuel).value
    decreases fuel
  {
    var validity := IsValid(po, rules);
    assert validity == check(po.pages);
    if validity.isValid {
      return Some(po);
    }
    if fuel == 0 {
      return None;
    }
    var badPage := po.pages[validity.invalidPageIndex];
    var pagesCopy := po.pages;
    var newPages := RemoveIndex(pagesCopy, validity.invalidPageIndex);
    newPages := Insert(newPages, validity.shouldComeBeforePageIndex, badPage);
    RepairShape(po.pages, validity);
    r := Correct(PageOrder(newPages), rules, check, fuel - 1);
  }

  // ---------------------------------------------------------------------
  // ValidPageOrders and InvalidPageOrders

  function IsValidOrder(po: PageOrder, rules: Rules): bool {
    ValidityOf(po.pages, rules).isValid
  }

  /** IsValidOrder as a test on orders. */
  function ValidityTest(rules: Rules): (keep: PageOrder -> bool)
    ensures forall o :: keep(o) == IsValidOrder(o, rules)
  {
    o => IsValidOrder(o, rules)
  }

  /** The orders o with keep(o) == want, in their original order. */
  function Filter(orders: seq<PageOrder>, keep: PageOrder -> bool, want: bool): (r: seq<PageOrder>)
    ensures forall k :: 0 <= k < |r| ==> keep(r[k]) == want && r[k] in orders
  {
    if orders == [] then []
    else
      var init := orders[..|orders| - 1];
      var last := orders[|orders| - 1];
      var r := Filter(init, keep, want) + (if keep(last) == want then [last] else []);
      assert forall o :: o in init ==> o in orders;
      r
  }

  /** Filtering two blocks of orders filters each in turn. */
  lemma {:induction false} FilterAppend(a: seq<PageOrder>, b: seq<PageOrder>, keep: PageOrder -> bool, want: bool)
    ensures Filter(a + b, keep, want) == Filter(a, keep, want) + Filter(b, keep, want)
    decreases |b|
  {
    if b == [] {
      assert a + b == a;
    } else {
      var b' := b[..|b| - 1];
      assert (a + b)[..|a + b| - 1] == a + b';
      FilterAppend(a, b', keep, want);
    }
  }

  /** The kept and the dropped orders together are all the orders. */
  lemma {:induction false} FilterPartitions(orders: seq<PageOrder>, keep: PageOrder -> bool)
    ensures multiset(Filter(orders, keep, true)) + multiset(Filter(orders, keep, false)) == multiset(orders)
    ensures |Filter(orders, keep, true)| + |Filter(orders, keep, false)| == |orders|
  {
    if orders != [] {
      var init := orders[..|orders| - 1];
      var last := orders[|orders| - 1];
      FilterPartitions(init, keep);
      assert orders == init + [last];
    }
  }

  /** The orders whose validity is `valid`, in their original order. */
  function Select(orders: seq<PageOrder>, rules: Rules, valid: bool): (r: seq<PageOrder>)
    ensures forall k :: 0 <= k < |r| ==> IsValidOrder(r[k], rules) == valid && r[k] in orders
  {
    Filter(orders, ValidityTest(rules), valid)
  }

  /** Selecting from two blocks of orders selects from each in turn. */
  lemma SelectAppend(a: seq<PageOrder>, b: seq<PageOrder>, rules: Rules, valid: bool)
    ensures Select(a + b, rules, valid) == Select(a, rules, valid) + Select(b, rules, valid)
  {
    FilterAppend(a, b, ValidityTest(rules), valid);
  }

  /** The valid and the invalid orders together are all the orders. */
  lemma SelectPartitions(orders: seq<PageOrder>, rules: Rules)
    ensures multiset(Select(orders, rules, true)) + multiset(Select(orders, rules, false)) == multiset(orders)
    ensures |Select(orders, rules, true)| + |Select(orders, rules, false)| == |orders|
  {
    FilterPartitions(orders, ValidityTest(rules));
  }

  /** ProblemInput.ValidPageOrders (valid == true) and InvalidPageOrders
      (valid == false). */
  method SelectOrders(pi: ProblemInput, valid: bool) returns (r: seq<PageOrder>)
    ensures r == Select(pi.pageOrders, pi.rules, valid)
  {
    var orders := pi.pageOrders;
    r := [];
    for i := 0 to |orders|
      invariant r == Select(orders[..i], pi.rules, valid)
    {
      var v := IsValid(orders[i], pi.rules);
      assert orders[..i + 1][..i] == orders[..i];
      if v.isValid == valid {
        r := r + [orders[i]];
      }
    }
    assert orders[..|orders|] == orders;
  }

  // ---------------------------------------------------------------------
  // parseInput

  /** Adding the rule "left|right": rules[right] gets left appended. */
  function AddRule(rules: Rules, left: int, right: int): (r: Rules)
    ensures RulesFor(r, right) == RulesFor(rules, right) + [left]
    ensures forall y :: y != right ==> RulesFor(r, y) == RulesFor(rules, y)
    ensures r.Keys == rules.Keys + {right}
  {
    rules[right := RulesFor(rules, right) + [left]]
  }

  /** One line: blank lines are skipped, a line with '|' is a rule of two
      numbers, any other line a comma-separated page order. None where the
      source panics. */
  function ParseLine(pi: ProblemInput, line: string): Option<ProblemInput> {
    if TrimSpace(line) == [] then Some(pi)
    else if '|' in line then
      var parts := Split(line, '|');
      if |parts| != 2 then None
      else match (Atoi(TrimSpace(parts[0])), Atoi(TrimSpace(parts[1])))
        case (Some(left), Some(right)) => Some(pi.(rules := AddRule(pi.rules, left, right)))
        case _ => None
    else match AtoiAll(Split(line, ','))
      case Some(pages) => Some(pi.(pageOrders := pi.pageOrders + [PageOrder(pages)]))
      case None => None
  }

  /** The input read line by line with a per-line step, stopping at the
      first line the step rejects. */
  function ParseLinesWith(lines: seq<string>, step: LineStep): Option<ProblemInput> {
    if lines == [] then Some(ProblemInput(map[], []))
    else match ParseLinesWith(lines[..|lines| - 1], step)
      case None => None
      case Some(pi) => step(pi, lines[|lines| - 1])
  }

  type LineStep = (ProblemInput, string) -> Option<ProblemInput>

  /** The step is parseInput's treatment of one line. The trigger keeps
      ParseLine folded until a proof names it. */
  ghost predicate ReadsLines(step: LineStep) {
    forall pi, line {:trigger ParseLine(pi, line)} :: step(pi, line) == ParseLine(pi, line)
  }

  function ParseLines(lines: seq<string>): Option<ProblemInput> {
    ParseLinesWith(lines, ParseLine)
  }

  lemma {:induction false} ParseLinesWithFailureSticks(lines: seq<string>, step: LineStep, k: nat)
    requires k <= |lines| && ParseLinesWith(lines[..k], step) == None
    ensures ParseLinesWith(lines, step) == None
    decreases |lines| - k
  {
    if k == |lines| {
      assert lines[..k] == lines;
    } else {
      assert lines[..k + 1][..k] == lines[..k];
      ParseLinesWithFailureSticks(lines, step, k + 1);
    }
  }

  /** A malformed line makes the whole input malformed, whatever follows. */
  lemma ParseLinesFailureSticks(lines: seq<string>, k: nat)
    requires k <= |lines| && ParseLines(lines[..k]) == None
    ensures ParseLines(lines) == None
  {
    ParseLinesWithFailureSticks(lines, ParseLine, k);
  }

  /** Every page order read from text holds at least one page. */
  lemma {:induction false} ParsedOrdersNonEmpty(lines: seq<string>)
    requires ParseLines(lines).Some?
    ensures AllNonEmpty(ParseLines(lines).value.pageOrders)
  {
    if lines != [] {
      var init := lines[..|lines| - 1];
      ParsedOrdersNonEmpty(init);
      ParseLineNonEmpty(ParseLines(init).value, lines[|lines| - 1]);
    }
  }

  /** A page order line holds at least one number. */
  lemma ParseLineNonEmpty(pi: ProblemInput, line: string)
    requires AllNonEmpty(pi.pageOrders)
    ensures ParseLine(pi, line).Some? ==> AllNonEmpty(ParseLine(pi, line).value.pageOrders)
  {
    var r := ParseLine(pi, line);
    if r.Some? && TrimSpace(line) != [] && '|' !in line {
      var pages := AtoiAll(Split(line, ',')).value;
      assert |pages| >= 1;
      assert r.value.pageOrders == pi.pageOrders + [PageOrder(pages)];
    }
  }

  /** parseInput: the lines of the trimmed input, one by one. */
  method ParseInput(input: string) returns (pi: Option<ProblemInput>)
    ensures pi == ParseLines(Split(TrimSpace(input), '\n'))
  {
    var lines := Split(TrimSpace(input), '\n');
    pi := ParseAllLines(lines, ParseLine);
  }

  /** parseInput's loop over the lines; step is ParseLine, passed as a ghost
      so that the loop's proof does not unfold it. */
  method ParseAllLines(lines: seq<string>, ghost step: LineStep) returns (result: Option<ProblemInput>)
    requires ReadsLines(step)
    ensures result == ParseLinesWith(lines, step)
  {
    var pi := ProblemInput(map[], []);
    for i := 0 to |lines|
      invariant ParseLinesWith(lines[..i], step) == Some(pi)
    {
      assert lines[..i + 1][..i] == lines[..i];
      var next := ParseStep(pi, lines[i], step);
      if next.None? {
        ParseLinesWithFailureSticks(lines, step, i + 1);
        return None;
      }
      pi := next.value;
    }
    assert lines[..|lines|] == lines;
    return Some(pi);
  }

  method ParseStep(pi: ProblemInput, line: string, ghost step: LineStep) returns (result: Option<ProblemInput>)
    requires ReadsLines(step)
    ensures result == step(pi, line)
  {
    result := ParseOneLine(pi, line);
  }

  /** The body of parseInput's loop for one line: a blank line is skipped,
      a rule is added, a page order appended. */
  method ParseOneLine(pi: ProblemInput, line: string) returns (result: Option<ProblemInput>)
    ensures result == ParseLine(pi, line)
  {
    if TrimSpace(line) == [] {
      return Some(pi);
    }
    if '|' in line {
      var parts := Split(line, '|');
      if |parts| != 2 {
        return None;
      }
      var left := Atoi(TrimSpace(parts[0]));
      var right := Atoi(TrimSpace(parts[1]));
      if left.None? || right.None? {
        return None;
      }
      return Some(pi.(rules := AddRule(pi.rules, left.value, right.value)));
    }
    var pages := AtoiAll(Split(line, ','));
    if pages.None? {
      return None;
    }
    return Some(pi.(pageOrders := pi.pageOrders + [PageOrder(pages.value)]));
  }

  /** A rule line "X|Y" written in decimal is read as the rule X|Y: rules[Y]
      gets X appended and nothing else changes. */
  lemma ParseRuleLine(pi: ProblemInput, x: int, y: int)
    ensures ParseLine(pi, Itoa(x) + "|" + Itoa(y)) == Some(pi.(rules := AddRule(pi.rules, x, y)))
  {
    var line := Itoa(x) + "|" + Itoa(y);
    RuleLineShape(x, y);
    TrimmedNumber(x);
    TrimmedNumber(y);
    AtoiItoa(x);
    AtoiItoa(y);
    ParseRuleFields(pi, line, Itoa(x), Itoa(y));
  }

  lemma RuleLineShape(x: int, y: int)
    ensures var line := Itoa(x) + "|" + Itoa(y);
      Split(line, '|') == [Itoa(x), Itoa(y)] && '|' in line && TrimSpace(line) != []
  {
    var line := Itoa(x) + "|" + Itoa(y);
    ItoaNoSeparator(x, '|');
    ItoaNoSeparator(y, '|');
    assert line == Join([Itoa(x), Itoa(y)], '|');
    SplitJoin([Itoa(x), Itoa(y)], '|');
    assert line[|Itoa(x)|] == '|';
    TrimSpaceShape(line);
    ItoaIsWord(x);
    assert !IsSpace(line[0]);
  }

  lemma ParseRuleFields(pi: ProblemInput, line: string, a: string, b: string)
    requires Split(line, '|') == [a, b] && '|' in line && TrimSpace(line) != []
    requires Atoi(TrimSpace(a)).Some? && Atoi(TrimSpace(b)).Some?
    ensures ParseLine(pi, line) ==
      Some(pi.(rules := AddRule(pi.rules, Atoi(TrimSpace(a)).value, Atoi(TrimSpace(b)).value)))
  {
  }

  /** The decimal text of a number has nothing to trim. */
  lemma TrimmedNumber(n: int)
    ensures TrimSpace(Itoa(n)) == Itoa(n)
  {
    ItoaIsWord(n);
    TrimSpaceWord(Itoa(n));
  }

  // ---------------------------------------------------------------------
  // Solving

  function Middle(po: PageOrder): int
    requires |po.pages| >= 1
  {
    po.pages[|po.pages| / 2]
  }

  predicate AllNonEmpty(orders: seq<PageOrder>) {
    forall k :: 0 <= k < |orders| ==> |orders[k].pages| >= 1
  }

  /** The sum of the middle pages of the orders. */
  function SumMiddles(orders: seq<PageOrder>): int
    requires AllNonEmpty(orders)
  {
    if orders == [] then 0
    else SumMiddles(orders[..|orders| - 1]) + Middle(orders[|orders| - 1])
  }

  /** Every order picked out of non-empty orders is non-empty. */
  lemma SelectNonEmpty(orders: seq<PageOrder>, rules: Rules, valid: bool)
    requires AllNonEmpty(orders)
    ensures AllNonEmpty(Select(orders, rules, valid))
  {
    var r := Select(orders, rules, valid);
    forall k | 0 <= k < |r|
      ensures |r[k].pages| >= 1
    {
      var m :| 0 <= m < |orders| && orders[m] == r[k];
    }
  }

  method SumMiddlePages(orders: seq<PageOrder>) returns (result: int)
    requires AllNonEmpty(orders)
    ensures result == SumMiddles(orders)
  {
    result := 0;
    for i := 0 to |orders|
      invariant result == SumMiddles(orders[..i])
    {
      assert orders[..i + 1][..i] == orders[..i];
      result := result + orders[i].pages[|orders[i].pages| / 2];
    }
    assert orders[..|orders|] == orders;
  }

  /** SolvePart1: the middle pages of the valid orders, summed. */
  method SolvePart1(input: string) returns (answer: Option<string>)
    ensures answer.Some? <==> ParseLines(Split(TrimSpace(input), '\n')).Some?
    ensures answer.Some? ==>
      var pi := ParseLines(Split(TrimSpace(input), '\n')).value;
      var valid := Select(pi.pageOrders, pi.rules, true);
      AllNonEmpty(valid) && answer.value == Itoa(SumMiddles(valid))
  {
    var parsed := ParseInput(input);
    if parsed.None? {
      return None;
    }
    var pi := parsed.value;
    ParsedOrdersNonEmpty(Split(TrimSpace(input), '\n'));
    var valid := SelectOrders(pi, true);
    SelectNonEmpty(pi.pageOrders, pi.rules, true);
    var result := SumMiddlePages(valid);
    answer := Some(Itoa(result));
  }

  /** The middle page of an order once corrected; None where the correction
      runs out of fuel. */
  function CorrectedMiddle(pages: seq<int>, check: Checker, fuel: nat): Option<int>
    requires |pages| >= 1 && Sound(check)
  {
    var fixed := CorrectWith(pages, check, fuel);
    if fixed.None? then None else Some(fixed.value[|fixed.value| / 2])
  }

  /** The middle pages of the corrected invalid orders, summed; None where
      some correction runs out of fuel. */
  function SumCorrectedMiddles(orders: seq<PageOrder>, check: Checker, fuel: nat): Option<int>
    requires AllNonEmpty(orders) && Sound(check)
  {
    if orders == [] then Some(0)
    else
      var sum := SumCorrectedMiddles(orders[..|orders| - 1], check, fuel);
      var middle := CorrectedMiddle(orders[|orders| - 1].pages, check, fuel);
      if sum.None? || middle.None? then None
      else Some(sum.value + middle.value)
  }

  /** The body of SolvePart2's loop for one order: correct it, take its
      middle page. */
  method CorrectMiddle(po: PageOrder, rules: Rules, ghost check: Checker, fuel: nat) returns (middle: Option<int>)
    requires |po.pages| >= 1 && Decides(check, rules)
    ensures middle == CorrectedMiddle(po.pages, check, fuel)
  {
    var corrected := Correct(po, rules, check, fuel);
    if corrected.None? {
      return None;
    }
    var pages := corrected.value.pages;
    return Some(pages[|pages| / 2]);
  }

  /** A function from an order to its middle page. */
  type MiddleOf = seq<int> -> Option<int>

  /** The middle pages the given function picks, summed; None where it
      gives None for some order. */
  function SumMiddlesWith(orders: seq<PageOrder>, middle: MiddleOf): Option<int> {
    if orders == [] then Some(0)
    else
      var sum := SumMiddlesWith(orders[..|orders| - 1], middle);
      var m := middle(orders[|orders| - 1].pages);
      if sum.None? || m.None? then None
      else Some(sum.value + m.value)
  }

  /** middle picks the corrected middle page of every non-empty order. The
      trigger keeps CorrectedMiddle folded until a proof names it. */
  ghost predicate FindsCorrectedMiddle(middle: MiddleOf, check: Checker, fuel: nat) {
    Sound(check) &&
    forall p {:trigger CorrectedMiddle(p, check, fuel)} ::
      |p| >= 1 ==> middle(p) == CorrectedMiddle(p, check, fuel)
  }

  lemma {:induction false} SumMiddlesWithCorrected(orders: seq<PageOrder>, middle: MiddleOf, check: Checker, fuel: nat)
    requires AllNonEmpty(orders) && FindsCorrectedMiddle(middle, check, fuel)
    ensures SumMiddlesWith(orders, middle) == SumCorrectedMiddles(orders, check, fuel)
  {
    if orders != [] {
      var init := orders[..|orders| - 1];
      SumMiddlesWithCorrected(init, middle, check, fuel);
      var last := orders[|orders| - 1].pages;
      assert middle(last) == CorrectedMiddle(last, check, fuel);
    }
  }

  /** The loop of SolvePart2; middle is the corrected middle page, passed as
      a ghost so that the loop's proof does not unfold the correction. */
  method SumCorrectedPages(orders: seq<PageOrder>, rules: Rules, ghost check: Checker,
                           ghost middle: MiddleOf, fuel: nat)
    returns (result: Option<int>)
    requires AllNonEmpty(orders) && Decides(check, rules) && FindsCorrectedMiddle(middle, check, fuel)
    ensures result == SumMiddlesWith(orders, middle)
  {
    var sum := 0;
    for i := 0 to |orders|
      invariant SumMiddlesWith(orders[..i], middle) == Some(sum)
    {
      assert orders[..i + 1][..i] == orders[..i];
      var m := MiddleStep(orders[i], rules, check, middle, fuel);
      if m.None? {
        SumMiddlesFailureSticks(orders, middle, i + 1);
        return None;
      }
      sum := sum + m.value;
    }
    assert orders[..|orders|] == orders;
    return Some(sum);
  }

  method MiddleStep(po: PageOrder, rules: Rules, ghost check: Checker, ghost middle: MiddleOf, fuel: nat)
    returns (m: Option<int>)
    requires |po.pages| >= 1 && Decides(check, rules) && FindsCorrectedMiddle(middle, check, fuel)
    ensures m == middle(po.pages)
  {
    m := CorrectMiddle(po, rules, check, fuel);
  }

  lemma {:induction false} SumMiddlesFailureSticks(orders: seq<PageOrder>, middle: MiddleOf, k: nat)
    requires k <= |orders| && SumMiddlesWith(orders[..k], middle) == None
    ensures SumMiddlesWith(orders, middle) == None
    decreases |orders| - k
  {
    if k == |orders| {
      assert orders[..k] == orders;
    } else {
      assert orders[..k + 1][..k] == orders[..k];
      SumMiddlesFailureSticks(orders, middle, k + 1);
    }
  }

  /** SolvePart2: each invalid order is corrected and its middle page added. */
  method SolvePart2(input: string, fuel: nat) returns (answer: Option<string>)
    ensures ParseLines(Split(TrimSpace(input), '\n')).None? ==> answer.None?
    ensures ParseLines(Split(TrimSpace(input), '\n')).Some? ==>
      var pi := ParseLines(Split(TrimSpace(input), '\n')).value;
      var invalid := Select(pi.pageOrders, pi.rules, false);
      AllNonEmpty(invalid)
      && (answer.Some? <==> SumCorrectedMiddles(invalid, Verdict(pi.rules), fuel).Some?)
      && (answer.Some? ==> answer.value == Itoa(SumCorrectedMiddles(invalid, Verdict(pi.rules), fuel).value))
  {
    var parsed := ParseInput(input);
    if parsed.None? {
      return None;
    }
    var pi := parsed.value;
    ParsedOrdersNonEmpty(Split(TrimSpace(input), '\n'));
    var invalid := SelectOrders(pi, false);
    SelectNonEmpty(pi.pageOrders, pi.rules, false);
    ghost var check := Verdict(pi.rules);
    ghost var middle: MiddleOf := p => if |p| >= 1 then CorrectedMiddle(p, check, fuel) else None;
    var result := SumCorrectedPages(invalid, pi.rules, check, middle, fuel);
    SumMiddlesWithCorrected(invalid, middle, check, fuel);
    if result.None? {
      return None;
    }
    answer := Some(Itoa(result.value));
  }
}
