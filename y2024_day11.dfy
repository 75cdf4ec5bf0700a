/** 2024/day11: a row of numbered stones that changes at every blink. A 0
    becomes 1, a number with an even count of digits splits into its two
    halves, and any other number is multiplied by 2024. The split works on
    the decimal text (strconv.Itoa, halves read back with MustAtoi); for a
    negative stone the sign is part of that text. */
module Y2024Day11 {
  import opened Text
  import opened GoMath

  /** One stone after a blink; None where MustAtoi panics (a half that is
      only a sign). */
  function BlinkStone(stone: int): (r: Option<seq<int>>)
    ensures r.Some? ==> 1 <= |r.value| <= 2
  {
    if stone == 0 then Some([1])
    else
      var d := DigitCount(Abs(stone));
      NatToStringLength(Abs(stone));
      if d % 2 == 0 then
        var s := Itoa(stone);
        match (Atoi(s[..d / 2]), Atoi(s[d / 2..]))
        case (Some(left), Some(right)) => Some([left, right])
        case _ => None
      else Some([stone * 2024])
  }

  lemma DivModUnique(n: int, q: int, r: int, m: int)
    requires m > 0 && 0 <= r < m && n == q * m + r
    ensures n / m == q && n % m == r
  {
    var q2, r2 := n / m, n % m;
    assert n == q2 * m + r2;
    var k := q - q2;
    assert k * m == r2 - r;
    if k >= 1 {
      MulAtLeast(k, m);
    } else if k <= -1 {
      MulAtLeast(-k, m);
    }
  }

  lemma MulAtLeast(k: int, m: int)
    requires k >= 1 && m > 0
    ensures k * m >= m
  {
  }

  lemma {:induction false} DigitsValueBound(s: string)
    requires AllDigits(s)
    ensures DigitsValue(s) < Pow(10, |s|)
  {
    if s != [] {
      DigitsValueBound(s[..|s| - 1]);
    }
  }

  lemma AtoiOfDigits(s: string)
    requires |s| > 0 && AllDigits(s)
    ensures Atoi(s) == Some(DigitsValue(s))
  {
  }

  /** The three rules: 0 becomes 1; a positive number with an even count d
      of digits becomes its first and last d/2 digits, that is n / 10^(d/2)
      and n % 10^(d/2) (leading zeros of the right half vanish); any other
      number is multiplied by 2024. No non-negative stone fails. */
  lemma BlinkStoneRules(stone: int)
    ensures stone == 0 ==> BlinkStone(stone) == Some([1])
    ensures stone != 0 && DigitCount(Abs(stone)) % 2 == 1 ==> BlinkStone(stone) == Some([stone * 2024])
    ensures stone > 0 && DigitCount(stone) % 2 == 0 ==>
      var h := DigitCount(stone) / 2;
      Pow(10, h) > 0 && BlinkStone(stone) == Some([stone / Pow(10, h), stone % Pow(10, h)])
    ensures stone >= 0 ==> BlinkStone(stone).Some?
  {
    if stone > 0 && DigitCount(stone) % 2 == 0 {
      var d := DigitCount(stone);
      var h := d / 2;
      var s := NatToString(stone);
      NatToStringLength(stone);
      var x, y := s[..h], s[h..];
      assert s == x + y;
      assert AllDigits(x) && AllDigits(y);
      DigitsValueAppend(x, y);
      DigitsValueOfNatToString(stone);
      DigitsValueBound(y);
      PowPositive(10, h);
      DivModUnique(stone, DigitsValue(x), DigitsValue(y), Pow(10, h));
      AtoiOfDigits(x);
      AtoiOfDigits(y);
    }
  }

  /** The stones after one blink, each replaced in place by its one or two
      successors. */
  function BlinkAll(stones: seq<int>): Option<seq<int>> {
    if stones == [] then Some([])
    else match (BlinkAll(stones[..|stones| - 1]), BlinkStone(stones[|stones| - 1]))
      case (Some(init), Some(last)) => Some(init + last)
      case _ => None
  }

  predicate NonNegative(stones: seq<int>) {
    forall i :: 0 <= i < |stones| ==> stones[i] >= 0
  }

  lemma NonNegativeStoneStaysNonNegative(stone: int)
    requires stone >= 0
    ensures BlinkStone(stone).Some? && NonNegative(BlinkStone(stone).value)
  {
    BlinkStoneRules(stone);
    if stone > 0 && DigitCount(stone) % 2 == 0 {
      var h := DigitCount(stone) / 2;
      PowPositive(10, h);
    }
  }

  /** A blink keeps the stones' order: blinking two rows side by side is
      blinking each. */
  lemma {:induction false} BlinkAllAppend(a: seq<int>, b: seq<int>)
    ensures BlinkAll(a + b) ==
      match (BlinkAll(a), BlinkAll(b))
      case (Some(x), Some(y)) => Some(x + y)
      case _ => None
    decreases |b|
  {
    if b == [] {
      assert a + b == a;
      if BlinkAll(a).Some? {
        assert BlinkAll(a).value + [] == BlinkAll(a).value;
      }
    } else {
      var b' := b[..|b| - 1];
      assert (a + b)[..|a + b| - 1] == a + b';
      assert (a + b)[|a + b| - 1] == b[|b| - 1];
      BlinkAllAppend(a, b');
      match (BlinkAll(a), BlinkAll(b'), BlinkStone(b[|b| - 1]))
      case (Some(x), Some(y), Some(z)) => assert x + y + z == x + (y + z);
      case _ =>
    }
  }

  /** Non-negative stones never make a blink fail; each yields one or two
      non-negative stones, so the row grows by at most a factor of two. */
  lemma {:induction false} BlinkAllBounds(stones: seq<int>)
    requires NonNegative(stones)
    ensures BlinkAll(stones).Some?
    ensures |stones| <= |BlinkAll(stones).value| <= 2 * |stones|
    ensures NonNegative(BlinkAll(stones).value)
  {
    if stones != [] {
      var init := stones[..|stones| - 1];
      BlinkAllBounds(init);
      NonNegativeStoneStaysNonNegative(stones[|stones| - 1]);
      var x := BlinkAll(init).value;
      var y := BlinkStone(stones[|stones| - 1]).value;
      assert BlinkAll(stones).value == x + y;
      forall i | 0 <= i < |x + y|
        ensures (x + y)[i] >= 0
      {
        if i < |x| { assert (x + y)[i] == x[i]; } else { assert (x + y)[i] == y[i - |x|]; }
      }
    }
  }

  /** Blink(times): SingleBlink applied `times` times in a row. */
  function BlinkTimes(stones: seq<int>, times: nat): Option<seq<int>> {
    if times == 0 then Some(stones)
    else match BlinkTimes(stones, times - 1)
      case None => None
      case Some(s) => BlinkAll(s)
  }

  /** Blinking non-negative stones any number of times never fails and
      keeps them non-negative. */
  lemma {:induction false} BlinkTimesBounds(stones: seq<int>, times: nat)
    requires NonNegative(stones)
    ensures BlinkTimes(stones, times).Some?
    ensures NonNegative(BlinkTimes(stones, times).value)
  {
    if times == 0 {
      assert BlinkTimes(stones, 0) == Some(stones);
    } else {
      BlinkTimesBounds(stones, times - 1);
      var prev := BlinkTimes(stones, times - 1).value;
      BlinkTimesNext(stones, times - 1, prev);
      BlinkAllBounds(prev);
    }
  }

  /** ProblemInput: the row of stones. */
  class ProblemInput {
    var stones: seq<int>

    constructor (stones: seq<int>)
      ensures this.stones == stones
    {
      this.stones := stones;
    }

    /** SingleBlink: build the new row stone by stone and replace the old
        one. A panicking stone leaves the row as it was. */
    method SingleBlink() returns (ok: bool)
      modifies this
      ensures ok <==> BlinkAll(old(stones)).Some?
      ensures ok ==> stones == BlinkAll(old(stones)).value
      ensures !ok ==> stones == old(stones)
    {
      var current := stones;
      var newStones := [];
      for i := 0 to |current|
        invariant stones == current == old(stones)
        invariant BlinkAll(current[..i]) == Some(newStones)
      {
        var stone := current[i];
        BlinkAllStep(current, i);
        if stone == 0 {
          assert BlinkStone(stone) == Some([1]);
          newStones := newStones + [1];
        } else {
          var numDigits := NumDigits(stone);
          NatToStringLength(Abs(stone));
          if numDigits % 2 == 0 {
            var strNum := Itoa(stone);
            var leftStone := Atoi(strNum[..numDigits / 2]);
            var rightStone := Atoi(strNum[numDigits / 2..]);
            if leftStone.None? || rightStone.None? {
              BlinkAllFailureSticks(current, i + 1);
              return false;
            }
            assert BlinkStone(stone) == Some([leftStone.value, rightStone.value]);
            ghost var prev := newStones;
            newStones := newStones + [leftStone.value];
            newStones := newStones + [rightStone.value];
            assert newStones == prev + [leftStone.value, rightStone.value];
          } else {
            assert BlinkStone(stone) == Some([stone * 2024]);
            newStones := newStones + [stone * 2024];
          }
        }
      }
      assert current[..|current|] == current;
      stones := newStones;
      return true;
    }

    /** Blink: SingleBlink `times` times (a failing blink panics, which
        ends the loop here). */
    method Blink(times: int) returns (ok: bool)
      modifies this
      ensures ok <==> BlinkTimes(old(stones), if times < 0 then 0 else times).Some?
      ensures ok ==> Some(stones) == BlinkTimes(old(stones), if times < 0 then 0 else times)
    {
      ghost var n: nat := if times < 0 then 0 else times;
      var i := 0;
      while i < times
        invariant 0 <= i <= n
        invariant BlinkTimes(old(stones), i) == Some(stones)
      {
        ghost var before := stones;
        ok := SingleBlink();
        BlinkTimesNext(old(stones), i, before);
        if !ok {
          BlinkTimesFailureSticks(old(stones), i + 1, n);
          assert BlinkTimes(old(stones), n) == None;
          return false;
        }
        i := i + 1;
      }
      assert i == n;
      assert BlinkTimes(old(stones), n) == Some(stones);
      return true;
    }
  }

  lemma BlinkTimesNext(stones: seq<int>, i: nat, row: seq<int>)
    requires BlinkTimes(stones, i) == Some(row)
    ensures BlinkTimes(stones, i + 1) == BlinkAll(row)
  {
  }

  lemma BlinkAllStep(stones: seq<int>, i: nat)
    requires i < |stones|
    ensures BlinkAll(stones[..i + 1]) ==
      match (BlinkAll(stones[..i]), BlinkStone(stones[i]))
      case (Some(init), Some(last)) => Some(init + last)
      case _ => None
  {
    assert stones[..i + 1][..i] == stones[..i];
  }

  lemma {:induction false} BlinkAllFailureSticks(stones: seq<int>, k: nat)
    requires k <= |stones| && BlinkAll(stones[..k]) == None
    ensures BlinkAll(stones) == None
    decreases |stones| - k
  {
    if k == |stones| {
      assert stones[..k] == stones;
    } else {
      assert stones[..k + 1][..k] == stones[..k];
      BlinkAllFailureSticks(stones, k + 1);
    }
  }

  lemma {:induction false} BlinkTimesFailureSticks(stones: seq<int>, k: nat, times: nat)
    requires k <= times && BlinkTimes(stones, k) == None
    ensures BlinkTimes(stones, times) == None
    decreases times - k
  {
    if k < times {
      BlinkTimesFailureSticks(stones, k + 1, times);
    }
  }

  /** parseInput: the whitespace-separated numbers of the input. */
  method ParseInput(input: string) returns (stones: Option<seq<int>>)
    ensures stones == AtoiAll(Fields(TrimSpace(input)))
  {
    var strStones := Fields(TrimSpace(input));
    var values := [];
    for i := 0 to |strStones|
      invariant AtoiAll(strStones[..i]) == Some(values)
    {
      var v := Atoi(strStones[i]);
      AtoiAllSnoc(strStones[..i], strStones[i]);
      assert strStones[..i + 1] == strStones[..i] + [strStones[i]];
      if v.None? {
        AtoiAllFailureSticks(strStones, i + 1);
        return None;
      }
      values := values + [v.value];
    }
    assert strStones[..|strStones|] == strStones;
    stones := Some(values);
  }

  lemma {:induction false} AtoiAllSnoc(ss: seq<string>, s: string)
    ensures AtoiAll(ss + [s]) ==
      match (AtoiAll(ss), Atoi(s))
      case (Some(vs), Some(v)) => Some(vs + [v])
      case _ => None
  {
    if ss != [] {
      assert (ss + [s])[1..] == ss[1..] + [s];
      AtoiAllSnoc(ss[1..], s);
      match (Atoi(ss[0]), AtoiAll(ss[1..]), Atoi(s))
      case (Some(x), Some(xs), Some(v)) => assert [x] + (xs + [v]) == [x] + xs + [v];
      case _ =>
    } else {
      assert ss + [s] == [s];
      assert [s][1..] == [];
      assert AtoiAll([s][1..]) == Some([]);
      if Atoi(s).Some? {
        assert [Atoi(s).value] + [] == [] + [Atoi(s).value];
      }
    }
  }

  lemma {:induction false} AtoiAllFailureSticks(ss: seq<string>, k: nat)
    requires k <= |ss| && AtoiAll(ss[..k]) == None
    ensures AtoiAll(ss) == None
    decreases |ss| - k
  {
    if k == |ss| {
      assert ss[..k] == ss;
    } else {
      AtoiAllSnoc(ss[..k], ss[k]);
      assert ss[..k + 1] == ss[..k] + [ss[k]];
      AtoiAllFailureSticks(ss, k + 1);
    }
  }

  /** parseInput reads back stones written in decimal, separated by spaces. */
  lemma ParseStones(stones: seq<int>)
    requires |stones| >= 1
    ensures AtoiAll(Fields(TrimSpace(Join(ItoaAll(stones), ' ')))) == Some(stones)
  {
    var words := ItoaAll(stones);
    forall i | 0 <= i < |words|
      ensures |words[i]| > 0 && NoSpace(words[i])
    {
      ItoaIsWord(stones[i]);
    }
    var text := Join(words, ' ');
    FieldsOfJoin(words);
    JoinTrimmed(words);
    AtoiAllItoaAll(stones);
  }

  /** Text joined from non-empty words has no space at either end. */
  lemma JoinTrimmed(words: seq<string>)
    requires |words| >= 1
    requires forall i :: 0 <= i < |words| ==> |words[i]| > 0 && NoSpace(words[i])
    ensures TrimSpace(Join(words, ' ')) == Join(words, ' ')
  {
    var text := Join(words, ' ');
    JoinEnds(words);
    assert TrimLeft(text) == text;
  }

  lemma {:induction false} JoinEnds(words: seq<string>)
    requires |words| >= 1
    requires forall i :: 0 <= i < |words| ==> |words[i]| > 0 && NoSpace(words[i])
    ensures var t := Join(words, ' ');
      |t| > 0 && !IsSpace(t[0]) && !IsSpace(t[|t| - 1])
  {
    if |words| > 1 {
      JoinEnds(words[1..]);
      var t := Join(words, ' ');
      var rest := Join(words[1..], ' ');
      assert t == words[0] + [' '] + rest;
      assert t[|t| - 1] == rest[|rest| - 1];
    }
  }

  /** SolvePart1: the number of stones after 25 blinks. */
  method SolvePart1(input: string) returns (answer: Option<string>)
    ensures var s := AtoiAll(Fields(TrimSpace(input)));
      answer.Some? <==> s.Some? && BlinkTimes(s.value, 25).Some?
    ensures answer.Some? ==> answer.value == Itoa(|BlinkTimes(AtoiAll(Fields(TrimSpace(input))).value, 25).value|)
  {
    var stones := ParseInput(input);
    if stones.None? {
      return None;
    }
    var pi := new ProblemInput(stones.value);
    var ok := pi.Blink(25);
    if !ok {
      return None;
    }
    answer := Some(Itoa(|pi.stones|));
  }
}
