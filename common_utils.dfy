/** common/utils.go: set intersection of several slices, GCD/LCM, integer
    powers, slice insertion and removal, and decimal concatenation.
    MustAtoi is Text.Atoi, whose None stands for the panic. */
module Utils {
  import opened Text
  import opened GoMath

  // ---------------------------------------------------------------------
  // SetIntersection

  /** In how many of the slices v occurs. */
  function Occurrences<T(==,!new)>(ps: seq<seq<T>>, v: T): nat {
    if ps == [] then 0
    else Occurrences(ps[..|ps| - 1], v) + (if v in ps[|ps| - 1] then 1 else 0)
  }

  predicate NoDuplicates<T(==,!new)>(s: seq<T>) {
    forall i, j :: 0 <= i < j < |s| ==> s[i] != s[j]
  }

  /** The first occurrence of each value of s, in order. */
  function Dedup<T(==,!new)>(s: seq<T>): seq<T> {
    if s == [] then []
    else
      var d := Dedup(s[..|s| - 1]);
      if s[|s| - 1] in s[..|s| - 1] then d else d + [s[|s| - 1]]
  }

  /** Whether, while scanning slice k, meeting v for the first time in that
      slice pushes its counter to the number of slices: it must have been
      counted before (a first sighting only sets the counter to 1) and be
      found in every slice up to k. */
  predicate Completes<T(==,!new)>(pS: seq<seq<T>>, k: nat, v: T)
    requires k <= |pS|
  {
    var before := Occurrences(pS[..k], v);
    before >= 1 && before + 1 >= |pS|
  }

  /** The values of s that complete their counter while slice k is scanned. */
  function Completing<T(==,!new)>(pS: seq<seq<T>>, k: nat, s: seq<T>): seq<T>
    requires k <= |pS|
  {
    if s == [] then []
    else
      var last := if Completes(pS, k, s[|s| - 1]) then [s[|s| - 1]] else [];
      Completing(pS, k, s[..|s| - 1]) + last
  }

  /** What SetIntersection has appended after scanning the first k slices. */
  function Collected<T(==,!new)>(pS: seq<seq<T>>, k: nat): seq<T>
    requires k <= |pS|
  {
    if k == 0 then [] else Collected(pS, k - 1) + Completing(pS, k - 1, Dedup(pS[k - 1]))
  }

  /** common.SetIntersection: counts, per value, the slices it occurs in and
      appends the value when that count reaches the number of slices. */
  method SetIntersection<T(==,!new)>(pS: seq<seq<T>>) returns (result: seq<T>)
    ensures result == Collected(pS, |pS|)
  {
    var hash: map<T, nat> := map[];
    result := [];
    var k := 0;
    while k < |pS|
      invariant 0 <= k <= |pS|
      invariant forall v :: v in hash <==> Occurrences(pS[..k], v) > 0
      invariant forall v :: v in hash ==> hash[v] == Occurrences(pS[..k], v)
      invariant result == Collected(pS, k)
    {
      hash, result := CountSlice(pS, k, hash, result);
      k := k + 1;
    }
    assert pS[..k] == pS;
  }

  /** The inner loop of SetIntersection over slice k, with its own set of the
      values already met in that slice. */
  method CountSlice<T(==,!new)>(pS: seq<seq<T>>, k: nat, hash0: map<T, nat>, result0: seq<T>)
    returns (hash: map<T, nat>, result: seq<T>)
    requires k < |pS|
    requires forall v :: v in hash0 <==> Occurrences(pS[..k], v) > 0
    requires forall v :: v in hash0 ==> hash0[v] == Occurrences(pS[..k], v)
    ensures forall v :: v in hash <==> Occurrences(pS[..k + 1], v) > 0
    ensures forall v :: v in hash ==> hash[v] == Occurrences(pS[..k + 1], v)
    ensures result == result0 + Completing(pS, k, Dedup(pS[k]))
  {
    hash, result := hash0, result0;
    var slice := pS[k];
    ghost var before := pS[..k];
    var dup: set<T> := {};
    var i := 0;
    assert Counted(hash, before, dup);
    while i < |slice|
      invariant 0 <= i <= |slice|
      invariant dup == Elements(slice[..i])
      invariant Counted(hash, before, dup)
      invariant result == result0 + Completing(pS, k, Dedup(slice[..i]))
    {
      var value := slice[i];
      ResultStep(pS, k, slice, i, hash, dup, result, result0);
      ghost var appended := value !in dup && value in hash && hash[value] + 1 >= |pS|;
      ghost var expected := result + (if appended then [value] else []);
      if value !in dup {
        CountedStep(hash, before, dup, value);
        if value in hash {
          hash := hash[value := hash[value] + 1];
          if hash[value] >= |pS| {
            result := result + [value];
          }
        } else {
          hash := hash[value := 1];
        }
        dup := dup + {value};
      }
      assert result == expected;
      ElementsSnoc(slice[..i], value);
      assert slice[..i + 1] == slice[..i] + [value];
      i := i + 1;
    }
    assert slice[..i] == slice;
    CountedFinal(hash, pS, k, dup);
  }

  lemma ResultStep<T(!new)>(pS: seq<seq<T>>, k: nat, slice: seq<T>, i: nat,
                            hash: map<T, nat>, dup: set<T>, result: seq<T>, result0: seq<T>)
    requires k < |pS| && i < |slice|
    requires dup == Elements(slice[..i]) && Counted(hash, pS[..k], dup)
    requires result == result0 + Completing(pS, k, Dedup(slice[..i]))
    ensures var value := slice[i];
      var appended := value !in dup && value in hash && hash[value] + 1 >= |pS|;
      result + (if appended then [value] else [])
        == result0 + Completing(pS, k, Dedup(slice[..i + 1]))
  {
    NextCompleting(pS, k, slice, i);
    ElementsMembers(slice[..i]);
    if slice[i] !in dup {
      CompletesByCount(pS, k, hash, dup, slice[i]);
    }
  }

  lemma NextCompleting<T(!new)>(pS: seq<seq<T>>, k: nat, slice: seq<T>, i: nat)
    requires k <= |pS| && i < |slice|
    ensures Completing(pS, k, Dedup(slice[..i + 1]))
      == Completing(pS, k, Dedup(slice[..i]))
         + (if slice[i] !in slice[..i] && Completes(pS, k, slice[i]) then [slice[i]] else [])
  {
    assert slice[..i + 1] == slice[..i] + [slice[i]];
    DedupSnoc(slice[..i], slice[i]);
    if slice[i] !in slice[..i] {
      CompletingSnoc(pS, k, Dedup(slice[..i]), slice[i]);
    }
  }

  lemma CompletesByCount<T(!new)>(pS: seq<seq<T>>, k: nat, hash: map<T, nat>, dup: set<T>, value: T)
    requires k < |pS| && Counted(hash, pS[..k], dup) && value !in dup
    ensures Completes(pS, k, value) <==> value in hash && hash[value] + 1 >= |pS|
  {
  }

  /** The set of the values of s, gathered left to right. */
  function Elements<T(!new)>(s: seq<T>): set<T> {
    if s == [] then {} else Elements(s[..|s| - 1]) + {s[|s| - 1]}
  }

  lemma ElementsSnoc<T(!new)>(s: seq<T>, v: T)
    ensures Elements(s + [v]) == Elements(s) + {v}
  {
    assert (s + [v])[..|s|] == s;
  }

  lemma {:induction false} ElementsMembers<T(!new)>(s: seq<T>)
    ensures forall x :: x in Elements(s) <==> x in s
  {
    if s != [] {
      ElementsMembers(s[..|s| - 1]);
      assert s == s[..|s| - 1] + [s[|s| - 1]];
    }
  }

  lemma CountedFinal<T(!new)>(hash: map<T, nat>, pS: seq<seq<T>>, k: nat, dup: set<T>)
    requires k < |pS|
    requires Counted(hash, pS[..k], dup)
    requires dup == Elements(pS[k])
    ensures forall v :: v in hash <==> Occurrences(pS[..k + 1], v) > 0
    ensures forall v :: v in hash ==> hash[v] == Occurrences(pS[..k + 1], v)
  {
    ElementsMembers(pS[k]);
    OccurrencesSnoc(pS, k);
  }

  /** hash counts, for every value, the slices of before it occurs in, plus
      one if it has been met in the current slice already (dup). */
  ghost predicate Counted<T(!new)>(hash: map<T, nat>, before: seq<seq<T>>, dup: set<T>) {
    forall v ::
      && (v in hash <==> Occurrences(before, v) > 0 || v in dup)
      && (v in hash ==> hash[v] == Occurrences(before, v) + (if v in dup then 1 else 0))
  }

  lemma CountedStep<T(!new)>(hash: map<T, nat>, before: seq<seq<T>>, dup: set<T>, value: T)
    requires Counted(hash, before, dup) && value !in dup
    ensures value in hash ==> Counted(hash[value := hash[value] + 1], before, dup + {value})
    ensures value !in hash ==> Counted(hash[value := 1], before, dup + {value})
    ensures value in hash <==> Occurrences(before, value) > 0
    ensures value in hash ==> hash[value] == Occurrences(before, value)
  {
  }

  lemma DedupSnoc<T(!new)>(s: seq<T>, v: T)
    ensures Dedup(s + [v]) == if v in s then Dedup(s) else Dedup(s) + [v]
  {
    assert (s + [v])[..|s|] == s;
  }

  lemma CompletingSnoc<T(!new)>(pS: seq<seq<T>>, k: nat, s: seq<T>, v: T)
    requires k <= |pS|
    ensures Completing(pS, k, s + [v])
      == Completing(pS, k, s) + (if Completes(pS, k, v) then [v] else [])
  {
    assert (s + [v])[..|s|] == s;
  }

  lemma OccurrencesSnoc<T(!new)>(pS: seq<seq<T>>, k: nat)
    requires k < |pS|
    ensures forall v ::
      Occurrences(pS[..k + 1], v) == Occurrences(pS[..k], v) + (if v in pS[k] then 1 else 0)
  {
    assert pS[..k + 1][..k] == pS[..k];
  }

  lemma {:induction false} OccurrencesBound<T(!new)>(ps: seq<seq<T>>, v: T)
    ensures Occurrences(ps, v) <= |ps|
    ensures Occurrences(ps, v) == |ps| <==> forall j :: 0 <= j < |ps| ==> v in ps[j]
  {
    if ps != [] {
      var init := ps[..|ps| - 1];
      OccurrencesBound(init, v);
      if forall j :: 0 <= j < |ps| ==> v in ps[j] {
        assert forall j :: 0 <= j < |init| ==> v in init[j] by {
          forall j | 0 <= j < |init| ensures v in init[j] { assert init[j] == ps[j]; }
        }
      } else if Occurrences(ps, v) == |ps| {
        forall j | 0 <= j < |ps| ensures v in ps[j] {
          if j < |init| { assert init[j] == ps[j]; }
        }
      }
    }
  }

  /** Dedup keeps every value once: the same members, no repetition. */
  lemma {:induction false} DedupMembers<T(!new)>(s: seq<T>)
    ensures forall x :: x in Dedup(s) <==> x in s
    ensures NoDuplicates(Dedup(s))
  {
    if s != [] {
      var init := s[..|s| - 1];
      DedupMembers(init);
      assert s == init + [s[|s| - 1]];
    }
  }

  lemma {:induction false} CompletingMembers<T(!new)>(pS: seq<seq<T>>, k: nat, s: seq<T>)
    requires k <= |pS|
    ensures forall x :: x in Completing(pS, k, s) <==> x in s && Completes(pS, k, x)
  {
    if s != [] {
      var init := s[..|s| - 1];
      CompletingMembers(pS, k, init);
      assert s == init + [s[|s| - 1]];
    }
  }

  lemma {:induction false} CompletingNoDuplicates<T(!new)>(pS: seq<seq<T>>, k: nat, s: seq<T>)
    requires k <= |pS| && NoDuplicates(s)
    ensures NoDuplicates(Completing(pS, k, s))
  {
    if s != [] {
      var init := s[..|s| - 1];
      CompletingNoDuplicates(pS, k, init);
      CompletingMembers(pS, k, init);
      assert s[|s| - 1] !in init;
    }
  }

  lemma {:induction false} CollectedBeforeLast<T(!new)>(pS: seq<seq<T>>, k: nat)
    requires k < |pS|
    ensures Collected(pS, k) == []
  {
    if k > 0 {
      CollectedBeforeLast(pS, k - 1);
      var d := Dedup(pS[k - 1]);
      forall x | x in d
        ensures !Completes(pS, k - 1, x)
      {
        OccurrencesBound(pS[..k - 1], x);
      }
      CompletingEmpty(pS, k - 1, d);
    }
  }

  /** Nothing is appended while no value completes its counter. */
  lemma {:induction false} CompletingEmpty<T(!new)>(pS: seq<seq<T>>, k: nat, s: seq<T>)
    requires k <= |pS|
    requires forall x :: x in s ==> !Completes(pS, k, x)
    ensures Completing(pS, k, s) == []
  {
    if s != [] {
      CompletingEmpty(pS, k, s[..|s| - 1]);
    }
  }

  /** While the last slice is scanned, a value of that slice completes its
      counter exactly when there are two slices or more and it is in all. */
  lemma LastCompletes<T(!new)>(pS: seq<seq<T>>, x: T)
    requires |pS| >= 1
    ensures (Completes(pS, |pS| - 1, x) && x in pS[|pS| - 1])
      <==> |pS| >= 2 && forall j :: 0 <= j < |pS| ==> x in pS[j]
  {
    var n := |pS|;
    var init := pS[..n - 1];
    OccurrencesBound(init, x);
    if n >= 2 && forall j :: 0 <= j < n ==> x in pS[j] {
      forall j | 0 <= j < |init| ensures x in init[j] {
        assert init[j] == pS[j];
      }
    }
    if Completes(pS, n - 1, x) && x in pS[n - 1] {
      forall j | 0 <= j < n ensures x in pS[j] {
        if j < n - 1 { assert init[j] == pS[j]; }
      }
    }
  }

  /** SetIntersection returns, without repetition, exactly the values found
      in every slice, provided there are at least two slices; with fewer it
      returns nothing. */
  lemma SetIntersectionMembers<T(!new)>(pS: seq<seq<T>>)
    ensures var r := Collected(pS, |pS|);
      && NoDuplicates(r)
      && (|pS| < 2 ==> r == [])
      && forall x :: x in r <==> |pS| >= 2 && forall j :: 0 <= j < |pS| ==> x in pS[j]
  {
    if |pS| > 0 {
      CollectedLastMembers(pS);
      CollectedLastNoDuplicates(pS);
      if |pS| == 1 {
        var d := Dedup(pS[0]);
        assert forall x :: x in d ==> !Completes(pS, 0, x);
        CompletingEmpty(pS, 0, d);
      }
    }
  }

  /** The values SetIntersection returns are those found in every slice. */
  lemma CollectedLastMembers<T(!new)>(pS: seq<seq<T>>)
    requires |pS| > 0
    ensures var r := Collected(pS, |pS|);
      forall x :: x in r <==> |pS| >= 2 && forall j :: 0 <= j < |pS| ==> x in pS[j]
  {
    forall x
      ensures x in Collected(pS, |pS|) <==> |pS| >= 2 && forall j :: 0 <= j < |pS| ==> x in pS[j]
    {
      CollectedLastMember(pS, x);
    }
  }

  lemma CollectedLastMember<T(!new)>(pS: seq<seq<T>>, x: T)
    requires |pS| > 0
    ensures x in Collected(pS, |pS|) <==> |pS| >= 2 && forall j :: 0 <= j < |pS| ==> x in pS[j]
  {
    var n := |pS|;
    CollectedBeforeLast(pS, n - 1);
    var d := Dedup(pS[n - 1]);
    assert Collected(pS, n) == Completing(pS, n - 1, d);
    DedupMembers(pS[n - 1]);
    CompletingMembers(pS, n - 1, d);
    assert x in Collected(pS, n) <==> x in pS[n - 1] && Completes(pS, n - 1, x);
    LastCompletes(pS, x);
  }

  /** SetIntersection returns each value at most once. */
  lemma CollectedLastNoDuplicates<T(!new)>(pS: seq<seq<T>>)
    requires |pS| > 0
    ensures NoDuplicates(Collected(pS, |pS|))
  {
    var n := |pS|;
    CollectedBeforeLast(pS, n - 1);
    var d := Dedup(pS[n - 1]);
    DedupMembers(pS[n - 1]);
    CompletingNoDuplicates(pS, n - 1, d);
  }

  // ---------------------------------------------------------------------
  // GCD and LCM

  function Mul(d: int, k: int): int { d * k }

  /** d divides n (0 divides only 0). */
  ghost predicate Divides(d: int, n: int) {
    exists k :: Mul(d, k) == n
  }

  /** The value Go's Euclidean loop computes, with truncating remainder. */
  function Gcd(a: int, b: int): int
    decreases Abs(b)
  {
    if b == 0 then a else Gcd(b, TMod(a, b))
  }

  /** common.GCD */
  method GCD(a: int, b: int) returns (g: int)
    ensures g == Gcd(a, b)
  {
    var x, y := a, b;
    while y != 0
      invariant Gcd(x, y) == Gcd(a, b)
      decreases Abs(y)
    {
      var t := y;
      y := TMod(x, y);
      x := t;
    }
    g := x;
  }

  lemma MulAwayFromZero(g: int, t: int)
    requires g > 0
    ensures t >= 1 ==> g * t >= g
    ensures t <= -1 ==> g * t <= -g
  {
  }

  lemma MulDivCancel(x: int, g: int)
    requires g > 0
    ensures (x * g) / g == x
  {
    var q, r := (x * g) / g, (x * g) % g;
    assert x * g == g * q + r;
    assert g * (x - q) == r;
    MulAwayFromZero(g, x - q);
  }

  /** Divisibility is kept by adding a multiple: d | x and d | y give d | x - y*q. */
  lemma DividesCombination(d: int, x: int, y: int, q: int)
    requires Divides(d, x) && Divides(d, y)
    ensures Divides(d, x - y * q)
  {
    var kx :| Mul(d, kx) == x;
    var ky :| Mul(d, ky) == y;
    assert y * q == d * (ky * q);
    assert Mul(d, kx - ky * q) == x - y * q;
  }

  lemma DividesTransitive(a: int, b: int, c: int)
    requires Divides(a, b) && Divides(b, c)
    ensures Divides(a, c)
  {
    var k1 :| Mul(a, k1) == b;
    var k2 :| Mul(b, k2) == c;
    assert Mul(a, k1 * k2) == c;
  }

  /** Gcd(a, b) divides a and b, and every common divisor of a and b divides it:
      it is a greatest common divisor (up to sign). */
  lemma {:induction false} GcdIsGreatestCommonDivisor(a: int, b: int)
    ensures Divides(Gcd(a, b), a) && Divides(Gcd(a, b), b)
    ensures forall d :: Divides(d, a) && Divides(d, b) ==> Divides(d, Gcd(a, b))
    decreases Abs(b)
  {
    if b == 0 {
      assert Mul(a, 1) == a && Mul(a, 0) == 0;
    } else {
      var r := TMod(a, b);
      var q := TDiv(a, b);
      assert a == b * q + r;
      GcdIsGreatestCommonDivisor(b, r);
      var g := Gcd(b, r);
      DividesCombination(g, r, b, -q);
      assert r - b * (-q) == a;
      forall d | Divides(d, a) && Divides(d, b) ensures Divides(d, g) {
        DividesCombination(d, a, b, q);
        assert a - b * q == r;
      }
    }
  }

  /** Gcd(a, b) is zero exactly when both arguments are. */
  lemma GcdZero(a: int, b: int)
    ensures Gcd(a, b) == 0 <==> a == 0 && b == 0
  {
    GcdIsGreatestCommonDivisor(a, b);
  }

  /** For non-negative arguments Gcd is non-negative. */
  lemma {:induction false} GcdNonNegative(a: int, b: int)
    requires a >= 0 && b >= 0
    ensures Gcd(a, b) >= 0
    decreases b
  {
    if b != 0 { GcdNonNegative(b, TMod(a, b)); }
  }

  /** Go's a*b/GCD(a,b) for two numbers; None where GCD is 0 and the division panics. */
  function Lcm(a: int, b: int): Option<int> {
    var g := Gcd(a, b);
    if g == 0 then None else Some(TDiv(a * b, g))
  }

  /** LCM folded over its further arguments, left to right. */
  function LcmFold(acc: Option<int>, integers: seq<int>): Option<int>
    decreases |integers|
  {
    if integers == [] then acc
    else match acc
      case None => None
      case Some(v) => LcmFold(Lcm(v, integers[0]), integers[1..])
  }

  /** common.LCM(a, b, integers...): the loop over the further arguments. */
  method LCM(a: int, b: int, integers: seq<int>) returns (result: Option<int>)
    ensures result == LcmFold(Lcm(a, b), integers)
  {
    result := Lcm(a, b);
    var i := 0;
    while i < |integers| && result.Some?
      invariant 0 <= i <= |integers|
      invariant LcmFold(result, integers[i..]) == LcmFold(Lcm(a, b), integers)
    {
      assert integers[i..][1..] == integers[i + 1..];
      result := Lcm(result.value, integers[i]);
      i := i + 1;
    }
  }

  lemma PositiveCofactor(g: int, k: int, x: int)
    requires g > 0 && x > 0 && x == g * k
    ensures 0 < k <= x
  {
    MulAwayFromZero(g, k);
    if k > 0 {
      assert x == k + (g - 1) * k;
      assert (g - 1) * k >= 0;
    }
  }

  lemma DivideProduct(a: int, b: int, g: int, kb: int)
    requires a > 0 && b > 0 && g > 0 && b == g * kb
    ensures TDiv(a * b, g) == a * kb
  {
    assert a * b > 0;
    assert a * b == (a * kb) * g;
    MulDivCancel(a * kb, g);
    TDivMatchesEuclid(a * b, g);
  }

  lemma MulMonotone(a: int, x: int, y: int)
    requires a > 0 && 0 < x <= y
    ensures 0 < a * x <= a * y
  {
    assert a * y == a * x + a * (y - x);
  }

  lemma CrossProduct(g: int, ka: int, kb: int)
    ensures (g * ka) * kb == (g * kb) * ka
  {
  }

  lemma LcmOfPositives(a: int, b: int) returns (g: int, ka: int, kb: int)
    requires a > 0 && b > 0
    ensures g == Gcd(a, b) && g > 0 && ka > 0 && kb > 0
    ensures a == g * ka && b == g * kb
    ensures Lcm(a, b) == Some(a * kb)
    ensures a * kb == b * ka && kb <= b
  {
    GcdZero(a, b);
    GcdIsGreatestCommonDivisor(a, b);
    GcdNonNegative(a, b);
    g := Gcd(a, b);
    ka :| Mul(g, ka) == a;
    kb :| Mul(g, kb) == b;
    PositiveCofactor(g, ka, a);
    PositiveCofactor(g, kb, b);
    DivideProduct(a, b, g, kb);
    CrossProduct(g, ka, kb);
  }

  /** For positive a and b, Lcm is a positive common multiple no larger than a*b;
      it fails exactly when both arguments are zero. */
  lemma LcmCommonMultiple(a: int, b: int)
    ensures Lcm(a, b).None? <==> a == 0 && b == 0
    ensures a > 0 && b > 0 ==>
      var m := Lcm(a, b).value;
      0 < m <= a * b && Divides(a, m) && Divides(b, m)
  {
    GcdZero(a, b);
    if a > 0 && b > 0 {
      var g, ka, kb := LcmOfPositives(a, b);
      var m := a * kb;
      assert Mul(a, kb) == m;
      assert Mul(b, ka) == m;
      MulMonotone(a, kb, b);
    }
  }

  /** Folding LCM over positive numbers yields a positive multiple of every one of them. */
  lemma {:induction false} LcmFoldCommonMultiple(acc: int, integers: seq<int>)
    requires acc > 0
    requires forall i :: 0 <= i < |integers| ==> integers[i] > 0
    ensures LcmFold(Some(acc), integers).Some?
    ensures var m := LcmFold(Some(acc), integers).value;
      m > 0 && Divides(acc, m) && forall i :: 0 <= i < |integers| ==> Divides(integers[i], m)
    decreases |integers|
  {
    if integers == [] {
      assert Mul(acc, 1) == acc;
    } else {
      LcmCommonMultiple(acc, integers[0]);
      var l := Lcm(acc, integers[0]).value;
      LcmFoldCommonMultiple(l, integers[1..]);
      var m := LcmFold(Some(acc), integers).value;
      DividesTransitive(acc, l, m);
      DividesTransitive(integers[0], l, m);
      forall i | 1 <= i < |integers| ensures Divides(integers[i], m) {
        assert integers[i] == integers[1..][i - 1];
      }
    }
  }

  // ---------------------------------------------------------------------
  // IntPow

  /** common.IntPow: exponentiation by squaring; 1 when exp <= 0. */
  method IntPow(base: int, exp: int) returns (result: int)
    ensures exp <= 0 ==> result == 1
    ensures exp > 0 ==> result == Pow(base, exp)
  {
    result := 1;
    var b, e := base, exp;
    while e > 0
      invariant exp <= 0 ==> result == 1 && e == exp
      decreases e
      invariant exp > 0 ==> e >= 0 && result * Pow(b, e) == Pow(base, exp)
    {
      var half := e / 2;
      assert e == 2 * half + e % 2;
      PowSquare(b, half);
      PowAdd(b, 2 * half, e % 2);
      ghost var rest := Pow(b * b, half);
      if e % 2 == 1 {
        assert Pow(b, e) == rest * b;
        assert result * Pow(b, e) == (result * b) * rest;
        result := result * b;
      } else {
        assert Pow(b, e) == rest;
      }
      b := b * b;
      e := half;
    }
  }

  // ---------------------------------------------------------------------
  // RemoveIndex, Insert, ConcatInts

  /** common.RemoveIndex; indices outside the slice panic in Go. */
  function RemoveIndex<T>(s: seq<T>, i: int): (r: seq<T>)
    requires 0 <= i < |s|
    ensures |r| == |s| - 1
    ensures forall j :: 0 <= j < i ==> r[j] == s[j]
    ensures forall j :: i <= j < |r| ==> r[j] == s[j + 1]
  {
    s[..i] + s[i + 1..]
  }

  /** common.Insert; an index beyond the end panics in Go. */
  function Insert<T>(s: seq<T>, index: int, element: T): (r: seq<T>)
    requires 0 <= index <= |s|
    ensures |r| == |s| + 1 && r[index] == element
    ensures forall j :: 0 <= j < index ==> r[j] == s[j]
    ensures forall j :: index < j < |r| ==> r[j] == s[j - 1]
  {
    s[..index] + [element] + s[index..]
  }

  /** Inserting a removed element back at its index restores the slice, and
      removing an inserted element restores the slice. */
  lemma InsertRemoveInverse<T>(s: seq<T>, i: int, x: T)
    requires 0 <= i < |s|
    ensures Insert(RemoveIndex(s, i), i, s[i]) == s
    ensures RemoveIndex(Insert(s, i, x), i) == s
  {
  }

  lemma InsertMultiset<T>(s: seq<T>, i: int, x: T)
    requires 0 <= i <= |s|
    ensures multiset(Insert(s, i, x)) == multiset(s) + multiset{x}
  {
    assert s == s[..i] + s[i..];
  }

  /** common.ConcatInts: the decimal texts of a and b written one after the
      other and read back; None where that text does not parse. */
  function ConcatInts(a: int, b: int): Option<int> {
    Atoi(Itoa(a) + Itoa(b))
  }

  /** For non-negative a and b, concatenation shifts a left by the number of
      digits of b. */
  lemma ConcatIntsValue(a: int, b: int)
    requires a >= 0 && b >= 0
    ensures ConcatInts(a, b) == Some(a * Pow(10, |Itoa(b)|) + b)
  {
    var x, y := NatToString(a), NatToString(b);
    assert Itoa(a) == x && Itoa(b) == y;
    assert (x + y)[0] == x[0];
    var p := Pow(10, |y|);
    DigitsValueAppend(x, y);
    assert Atoi(x + y) == Some(DigitsValue(x + y));
    DigitsValueOfNatToString(a);
    DigitsValueOfNatToString(b);
    assert DigitsValue(x + y) == a * p + b;
  }

  /** A negative b puts a minus sign inside the text, which does not parse. */
  lemma ConcatIntsNegative(a: int, b: int)
    requires b < 0
    ensures ConcatInts(a, b).None?
  {
    var s := Itoa(a) + Itoa(b);
    var j := |Itoa(a)|;
    assert s[j] == '-';
    if s[0] == '-' || s[0] == '+' {
      assert !IsDigit(s[1..][j - 1]);
    } else {
      assert !IsDigit(s[j]);
    }
  }
}
