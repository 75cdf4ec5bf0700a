/** 2024/day07: calibration equations. An equation holds when some choice of
    + and * between its numbers, evaluated strictly left to right, gives its
    test value; the choices are enumerated as the bits of a mask. */
module Y2024Day07 {
  import opened Text
  import opened GoMath
  import opened LineFold

  datatype Equation = Equation(value: int, numbers: seq<int>)

  // ---------------------------------------------------------------------
  // Left-to-right evaluation

  /** The numbers combined from left to right, multiplying where mul says
      so and adding elsewhere. */
  function Evaluate(numbers: seq<int>, mul: seq<bool>): int
    requires |numbers| >= 1 && |mul| == |numbers| - 1
  {
    if |numbers| == 1 then numbers[0]
    else
      var n := |numbers| - 1;
      var acc := Evaluate(numbers[..n], mul[..n - 1]);
      if mul[n - 1] then acc * numbers[n] else acc + numbers[n]
  }

  /** An equation can be made true by some choice of operators. */
  ghost predicate Solvable(e: Equation)
    requires |e.numbers| >= 1
  {
    exists mul: seq<bool> :: |mul| == |e.numbers| - 1 && Evaluate(e.numbers, mul) == e.value
  }

  // ---------------------------------------------------------------------
  // Operator masks

  /** i >> j & 1 for a non-negative i. */
  function Bit(i: nat, j: nat): (b: nat)
    ensures b == 0 || b == 1
  {
    if j == 0 then i % 2 else Bit(i / 2, j - 1)
  }

  /** The operators mask i stands for: bit j set means the j-th operator is *. */
  function Operators(i: nat, count: nat): (mul: seq<bool>)
    ensures |mul| == count && forall j :: 0 <= j < count ==> mul[j] == (Bit(i, j) == 1)
  {
    seq(count, j requires 0 <= j => Bit(i, j) == 1)
  }

  /** The mask that stands for a choice of operators. */
  function MaskOf(mul: seq<bool>): nat {
    if mul == [] then 0 else (if mul[0] then 1 else 0) + 2 * MaskOf(mul[1..])
  }

  /** 1 << count */
  function Pow2(count: nat): (p: nat)
    ensures p >= 1
  {
    if count == 0 then 1 else 2 * Pow2(count - 1)
  }

  /** Every choice of operators is the meaning of one of the masks that
      HasSolution tries, 0 <= mask < 2^(count of operators). */
  lemma MaskOfOperators(mul: seq<bool>)
    ensures MaskOf(mul) < Pow2(|mul|)
    ensures Operators(MaskOf(mul), |mul|) == mul
  {
    MaskOfBound(mul);
    forall j | 0 <= j < |mul|
      ensures (Bit(MaskOf(mul), j) == 1) == mul[j]
    {
      MaskOfBit(mul, j);
    }
  }

  lemma {:induction false} MaskOfBound(mul: seq<bool>)
    ensures MaskOf(mul) < Pow2(|mul|)
  {
    if mul != [] {
      MaskOfBound(mul[1..]);
    }
  }

  lemma {:induction false} MaskOfBit(mul: seq<bool>, j: nat)
    requires j < |mul|
    ensures Bit(MaskOf(mul), j) == if mul[j] then 1 else 0
  {
    MaskHalves(mul);
    if j > 0 {
      MaskOfBit(mul[1..], j - 1);
    }
  }

  lemma MaskHalves(mul: seq<bool>)
    requires mul != []
    ensures MaskOf(mul) % 2 == (if mul[0] then 1 else 0)
    ensures MaskOf(mul) / 2 == MaskOf(mul[1..])
  {
  }

  /** Some mask below 2^(count of operators) evaluates to the test value. */
  predicate SomeMaskSolves(e: Equation, below: nat)
    requires |e.numbers| >= 1
  {
    exists i :: 0 <= i < below && MaskResult(e.numbers, i) == e.value
  }

  /** The value of the numbers under the operators of mask i. */
  function MaskResult(numbers: seq<int>, i: nat): int
    requires |numbers| >= 1
  {
    Evaluate(numbers, Operators(i, |numbers| - 1))
  }

  /** Trying every mask is trying every choice of operators. */
  lemma MasksCoverChoices(e: Equation)
    requires |e.numbers| >= 1
    ensures Solvable(e) <==> SomeMaskSolves(e, Pow2(|e.numbers| - 1))
  {
    var k := |e.numbers| - 1;
    if Solvable(e) {
      var mul :| |mul| == k && Evaluate(e.numbers, mul) == e.value;
      MaskOfOperators(mul);
      var i := MaskOf(mul);
      assert MaskResult(e.numbers, i) == e.value;
    }
    if SomeMaskSolves(e, Pow2(k)) {
      var i :| 0 <= i < Pow2(k) && MaskResult(e.numbers, i) == e.value;
      assert |Operators(i, k)| == k;
    }
  }

  /** With a single number there is no operator: it must equal the value. */
  lemma SingleNumber(value: int, x: int)
    ensures Solvable(Equation(value, [x])) <==> x == value
  {
    if x == value {
      assert Evaluate([x], []) == value;
    }
  }

  // ---------------------------------------------------------------------
  // HasSolution

  lemma EvaluateStep(numbers: seq<int>, i: nat, j: nat)
    requires j + 1 < |numbers|
    ensures Evaluate(numbers[..j + 2], Operators(i, j + 1))
      == if Bit(i, j) == 1 then Evaluate(numbers[..j + 1], Operators(i, j)) * numbers[j + 1]
         else Evaluate(numbers[..j + 1], Operators(i, j)) + numbers[j + 1]
  {
    assert numbers[..j + 2][..j + 1] == numbers[..j + 1];
    assert Operators(i, j + 1)[..j] == Operators(i, j);
  }

  /** The result of one mask: the inner loop of HasSolution. */
  method EvaluateMask(numbers: seq<int>, i: nat) returns (result: int)
    requires |numbers| >= 1
    ensures result == MaskResult(numbers, i)
  {
    result := numbers[0];
    assert numbers[..1] == [numbers[0]];
    for j := 0 to |numbers| - 1
      invariant result == Evaluate(numbers[..j + 1], Operators(i, j))
    {
      EvaluateStep(numbers, i, j);
      var num := numbers[j + 1];
      var operatorIndex := Bit(i, j);
      if operatorIndex == 0 {
        result := result + num;
      } else {
        result := result * num;
      }
    }
    assert numbers[..|numbers|] == numbers;
  }

  /** HasSolution: every mask below 2^(count of operators) is tried; the
      first that hits the value answers true. Numbers[0] must exist. */
  method HasSolution(e: Equation) returns (found: bool)
    requires |e.numbers| >= 1
    ensures found == Solvable(e)
  {
    var numOperators := |e.numbers| - 1;
    var numPossibleEquations := Pow2(numOperators);
    MasksCoverChoices(e);
    for i := 0 to numPossibleEquations
      invariant !SomeMaskSolves(e, i)
    {
      var result := EvaluateMask(e.numbers, i);
      if result == e.value {
        return true;
      }
    }
    return false;
  }

  // ---------------------------------------------------------------------
  // EquationsWithSolutions and SolvePart1

  predicate AllHaveNumbers(eqs: seq<Equation>) {
    forall k :: 0 <= k < |eqs| ==> |eqs[k].numbers| >= 1
  }

  /** The solvable equations, in input order. */
  ghost function WithSolutions(eqs: seq<Equation>): seq<Equation>
    requires AllHaveNumbers(eqs)
  {
    if eqs == [] then []
    else
      var n := |eqs| - 1;
      WithSolutions(eqs[..n]) + if Solvable(eqs[n]) then [eqs[n]] else []
  }

  /** The filter keeps exactly the solvable equations and adds nothing. */
  lemma {:induction false} WithSolutionsMembers(eqs: seq<Equation>)
    requires AllHaveNumbers(eqs)
    ensures |WithSolutions(eqs)| <= |eqs|
    ensures forall e :: e in WithSolutions(eqs) <==> e in eqs && Solvable(e)
  {
    if eqs != [] {
      var n := |eqs| - 1;
      WithSolutionsMembers(eqs[..n]);
      assert eqs == eqs[..n] + [eqs[n]];
    }
  }

  method EquationsWithSolutions(eqs: seq<Equation>) returns (equations: seq<Equation>)
    requires AllHaveNumbers(eqs)
    ensures equations == WithSolutions(eqs)
  {
    equations := [];
    for k := 0 to |eqs|
      invariant equations == WithSolutions(eqs[..k])
    {
      assert eqs[..k + 1][..k] == eqs[..k];
      var ok := HasSolution(eqs[k]);
      if ok {
        equations := equations + [eqs[k]];
      }
    }
    assert eqs[..|eqs|] == eqs;
  }

  function SumValues(eqs: seq<Equation>): int {
    if eqs == [] then 0 else SumValues(eqs[..|eqs| - 1]) + eqs[|eqs| - 1].value
  }

  method SumOfValues(eqs: seq<Equation>) returns (sum: int)
    ensures sum == SumValues(eqs)
  {
    sum := 0;
    for k := 0 to |eqs|
      invariant sum == SumValues(eqs[..k])
    {
      assert eqs[..k + 1][..k] == eqs[..k];
      sum := sum + eqs[k].value;
    }
    assert eqs[..|eqs|] == eqs;
  }

  /** SolvePart1: the summed test values of the solvable equations. An
      equation without numbers makes HasSolution panic. */
  method SolvePart1(input: string) returns (answer: Option<string>)
    ensures var eqs := ParseEquations(input);
      && (answer.Some? <==> eqs.Some? && AllHaveNumbers(eqs.value))
      && (answer.Some? ==> answer.value == Itoa(SumValues(WithSolutions(eqs.value))))
  {
    var eqs := ParseInput(input);
    if eqs.None? {
      return None;
    }
    var ok := EveryEquationHasNumbers(eqs.value);
    if !ok {
      return None;
    }
    var equations := EquationsWithSolutions(eqs.value);
    var sum := SumOfValues(equations);
    return Some(Itoa(sum));
  }

  method EveryEquationHasNumbers(eqs: seq<Equation>) returns (ok: bool)
    ensures ok == AllHaveNumbers(eqs)
  {
    for k := 0 to |eqs|
      invariant AllHaveNumbers(eqs[..k])
    {
      if |eqs[k].numbers| == 0 {
        return false;
      }
    }
    assert eqs[..|eqs|] == eqs;
    return true;
  }

  // ---------------------------------------------------------------------
  // parseInput

  /** parseEquation: exactly one ':', the value before it, the numbers after
      it separated by white space; None where it panics. */
  function ParseEquation(line: string): Option<Equation> {
    var parts := Split(line, ':');
    if |parts| != 2 then None
    else match (Atoi(TrimSpace(parts[0])), AtoiAll(Fields(TrimSpace(parts[1]))))
      case (Some(value), Some(numbers)) => Some(Equation(value, numbers))
      case _ => None
  }

  /** An equation written as "value: n1 n2 ..." reads back. */
  lemma ParseEquationRender(e: Equation)
    requires |e.numbers| >= 1
    ensures ParseEquation(Itoa(e.value) + ": " + Join(ItoaAll(e.numbers), ' ')) == Some(e)
  {
    RenderedParts(e);
    TrimSpaceWord(Itoa(e.value));
    AtoiItoa(e.value);
    ParseEquationOfParts(Itoa(e.value) + ": " + Join(ItoaAll(e.numbers), ' '), Itoa(e.value),
                         " " + Join(ItoaAll(e.numbers), ' '), e);
  }

  lemma ParseEquationOfParts(line: string, before: string, after: string, e: Equation)
    requires Split(line, ':') == [before, after]
    requires Atoi(TrimSpace(before)) == Some(e.value)
    requires AtoiAll(Fields(TrimSpace(after))) == Some(e.numbers)
    ensures ParseEquation(line) == Some(e)
  {
  }

  /** The text of a rendered equation: the value before the colon, the
      numbers as words after it. */
  lemma RenderedParts(e: Equation)
    requires |e.numbers| >= 1
    ensures var rest := Join(ItoaAll(e.numbers), ' ');
      && Split(Itoa(e.value) + ": " + rest, ':') == [Itoa(e.value), " " + rest]
      && |Itoa(e.value)| > 0 && NoSpace(Itoa(e.value))
      && AtoiAll(Fields(TrimSpace(" " + rest))) == Some(e.numbers)
  {
    var rest := Join(ItoaAll(e.numbers), ' ');
    RenderedNumbers(e.numbers);
    ItoaNoSeparator(e.value, ':');
    ItoaIsWord(e.value);
    ColonSplit(Itoa(e.value), rest);
  }

  lemma ColonSplit(value: string, rest: string)
    requires ':' !in value && ':' !in rest
    ensures Split(value + ": " + rest, ':') == [value, " " + rest]
  {
    assert value + ": " + rest == Join([value, " " + rest], ':');
    SplitJoin([value, " " + rest], ':');
  }

  lemma RenderedNumbers(numbers: seq<int>)
    requires |numbers| >= 1
    ensures var rest := Join(ItoaAll(numbers), ' ');
      ':' !in rest && AtoiAll(Fields(TrimSpace(" " + rest))) == Some(numbers)
  {
    var words := ItoaAll(numbers);
    forall i | 0 <= i < |words|
      ensures |words[i]| > 0 && NoSpace(words[i]) && ':' !in words[i]
    {
      ItoaIsWord(numbers[i]);
      ItoaNoSeparator(numbers[i], ':');
    }
    JoinNoSeparator(words, ' ', ':');
    TrimSpaceOfWords(words);
    FieldsOfJoin(words);
    AtoiAllItoaAll(numbers);
  }

  /** A separator that no part contains is not in their join. */
  lemma {:induction false} JoinNoSeparator(parts: seq<string>, sep: char, c: char)
    requires |parts| >= 1 && c != sep && forall i :: 0 <= i < |parts| ==> c !in parts[i]
    ensures c !in Join(parts, sep)
  {
    if |parts| > 1 {
      JoinNoSeparator(parts[1..], sep, c);
    }
  }

  /** parseInput: one equation per line of the trimmed input, in order. */
  function ParseEquations(input: string): Option<seq<Equation>> {
    ReadAll(Split(TrimSpace(input), '\n'), ParseEquation)
  }

  method ParseInput(input: string) returns (eqs: Option<seq<Equation>>)
    ensures eqs == ParseEquations(input)
  {
    eqs := FoldLines(Split(TrimSpace(input), '\n'), [], Append(ParseEquation));
  }
}
