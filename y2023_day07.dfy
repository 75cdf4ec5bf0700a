/** Advent of Code 2023, day 7 (Camel Cards): hands of cards with a bid are
    classified by how often their card values repeat, ordered by type and
    then card by card, and part 1 sums bid * rank over the ascending order. */
module Y2023Day07 {
  import opened Text
  import opened LineFold
  import opened GoMath

  // ---------------------------------------------------------------------
  // Hands

  /** HandType; the Go constants are iota in this order, so a smaller
      constant is a stronger hand. */
  datatype HandType = FiveOfAKind | FourOfAKind | FullHouse | ThreeOfAKind | TwoPairs | OnePair | HighCard

  function Ordinal(t: HandType): (n: nat)
    ensures n <= 6
  {
    match t
    case FiveOfAKind => 0
    case FourOfAKind => 1
    case FullHouse => 2
    case ThreeOfAKind => 3
    case TwoPairs => 4
    case OnePair => 5
    case HighCard => 6
  }

  /** Distinct types have distinct constants. */
  lemma OrdinalInjective(s: HandType, t: HandType)
    ensures Ordinal(s) == Ordinal(t) <==> s == t
  {
  }

  /** The bid is a float64 in the source; every bid it reads comes from
      MustAtoi, so it is an integer here. */
  datatype Hand = Hand(cards: string, cardValues: seq<int>, bid: int, handType: HandType)

  // ---------------------------------------------------------------------
  // Card values

  /** The switch in parseHand: picture cards have fixed values and any
      other rune is read by MustAtoi (None where that panics). */
  function CardValue(c: char): Option<int> {
    match c
    case 'A' => Some(14)
    case 'K' => Some(13)
    case 'Q' => Some(12)
    case 'J' => Some(11)
    case 'T' => Some(10)
    case _ => Atoi([c])
  }

  /** The cards that have a value are A, K, Q, J, T and the ten digits; a
      digit counts its face value, so every value lies in 0..14. */
  lemma CardValueMeaning(c: char)
    ensures CardValue(c).Some? <==> c in "AKQJT" || IsDigit(c)
    ensures IsDigit(c) ==> CardValue(c) == Some(DigitValue(c))
    ensures CardValue(c).Some? ==> 0 <= CardValue(c).value <= 14
  {
    if IsDigit(c) {
      assert AllDigits([c]);
      assert [c][..0] == [];
      assert DigitsValue([c]) == DigitValue(c);
    }
  }

  /** Different cards never share a value. */
  lemma CardValueInjective(c: char, d: char)
    requires CardValue(c).Some? && CardValue(c) == CardValue(d)
    ensures c == d
  {
    CardValueMeaning(c);
    CardValueMeaning(d);
  }

  /** The values of a card string, or None once a card has none. */
  function Values(s: string): Option<seq<int>> {
    if s == [] then Some([])
    else match Values(s[..|s| - 1])
      case None => None
      case Some(vs) =>
        match CardValue(s[|s| - 1])
        case None => None
        case Some(v) => Some(vs + [v])
  }

  /** A card string has values exactly when every card has one, and then
      value i is the value of card i. */
  lemma {:induction false} ValuesMeaning(s: string)
    ensures Values(s).Some? <==> forall i :: 0 <= i < |s| ==> CardValue(s[i]).Some?
    ensures Values(s).Some? ==> (|Values(s).value| == |s|
      && forall i :: 0 <= i < |s| ==> CardValue(s[i]) == Some(Values(s).value[i]))
  {
    if s != [] {
      var n := |s| - 1;
      ValuesMeaning(s[..n]);
      assert forall i :: 0 <= i < n ==> s[..n][i] == s[i];
    }
  }

  /** The values determine the cards. */
  lemma ValuesInjective(s: string, t: string)
    requires Values(s).Some? && Values(s) == Values(t)
    ensures s == t
  {
    ValuesMeaning(s);
    ValuesMeaning(t);
    forall i | 0 <= i < |s| ensures s[i] == t[i] {
      CardValueInjective(s[i], t[i]);
    }
  }

  /** The loop over the runes of cardStr. */
  method CardValues(cardStr: string) returns (values: Option<seq<int>>)
    ensures values == Values(cardStr)
  {
    var acc := [];
    for i := 0 to |cardStr|
      invariant Values(cardStr[..i]) == Some(acc)
    {
      assert cardStr[..i + 1][..i] == cardStr[..i];
      var v := CardValue(cardStr[i]);
      if v.None? {
        ValuesFailureSticks(cardStr, i + 1);
        return None;
      }
      acc := acc + [v.value];
    }
    assert cardStr[..|cardStr|] == cardStr;
    return Some(acc);
  }

  lemma {:induction false} ValuesFailureSticks(s: string, k: nat)
    requires k <= |s| && Values(s[..k]).None?
    ensures Values(s).None?
    decreases |s| - k
  {
    if k < |s| {
      assert s[..k + 1][..k] == s[..k];
      ValuesFailureSticks(s, k + 1);
    } else {
      assert s[..k] == s;
    }
  }

  // ---------------------------------------------------------------------
  // Classification

  /** A Go map lookup: a missing key reads as zero. */
  function Get(m: map<int, int>, k: int): int {
    if k in m then m[k] else 0
  }

  /** valCountMap after `valCountMap[val]++` over the values. */
  function ValCounts(values: seq<int>): map<int, int> {
    if values == [] then map[]
    else
      var m := ValCounts(values[..|values| - 1]);
      var v := values[|values| - 1];
      m[v := Get(m, v) + 1]
  }

  /** valCountMap holds every value of the hand, with how often it occurs. */
  lemma {:induction false} ValCountsMeaning(values: seq<int>)
    ensures forall v :: Get(ValCounts(values), v) == multiset(values)[v]
    ensures forall v :: v in ValCounts(values) <==> v in values
  {
    if values != [] {
      var n := |values| - 1;
      ValCountsMeaning(values[..n]);
      assert values == values[..n] + [values[n]];
      assert multiset(values) == multiset(values[..n]) + multiset{values[n]};
    }
  }

  /** The first counting loop of parseHand. */
  method CountValues(values: seq<int>) returns (valCountMap: map<int, int>)
    ensures valCountMap == ValCounts(values)
  {
    valCountMap := map[];
    for i := 0 to |values|
      invariant valCountMap == ValCounts(values[..i])
    {
      assert values[..i + 1][..i] == values[..i];
      valCountMap := valCountMap[values[i] := Get(valCountMap, values[i]) + 1];
    }
    assert values[..|values|] == values;
  }

  /** How many distinct values occur exactly k times. */
  function NumWith(vc: map<int, int>, k: int): nat {
    |set v | v in vc && vc[v] == k|
  }

  lemma NumWithBound(vc: map<int, int>, k: int)
    ensures NumWith(vc, k) <= |vc.Keys|
  {
    SubsetSize((set v | v in vc && vc[v] == k), vc.Keys);
  }

  lemma NumWithRemove(vc: map<int, int>, v: int, k: int)
    requires v in vc
    ensures NumWith(vc - {v}, k) == NumWith(vc, k) - (if vc[v] == k then 1 else 0)
  {
    var s := set u | u in vc && vc[u] == k;
    var s' := set u | u in vc - {v} && (vc - {v})[u] == k;
    if vc[v] == k {
      assert s' == s - {v};
    } else {
      assert s' == s;
    }
  }

  /** The second counting loop of parseHand; Go ranges over the map in no
      fixed order, so the key is picked arbitrarily. */
  method CountCounts(valCountMap: map<int, int>) returns (countMap: map<int, int>)
    ensures forall k :: Get(countMap, k) == NumWith(valCountMap, k)
  {
    countMap := map[];
    var rest := valCountMap;
    while |rest| > 0
      invariant forall v :: v in rest ==> v in valCountMap && rest[v] == valCountMap[v]
      invariant forall k :: Get(countMap, k) + NumWith(rest, k) == NumWith(valCountMap, k)
      decreases |rest|
    {
      assert exists x :: x in rest by {
        if forall x :: x !in rest {
          assert false;
        }
      }
      var v :| v in rest;
      var count := rest[v];
      forall k ensures NumWith(rest - {v}, k) == NumWith(rest, k) - (if count == k then 1 else 0) {
        NumWithRemove(rest, v, k);
      }
      countMap := countMap[count := Get(countMap, count) + 1];
      rest := rest - {v};
    }
    forall k ensures NumWith(rest, k) == 0 {
      NumWithBound(rest, k);
    }
  }

  /** The chain of ifs after the counting loops, given countMap[2..5]. */
  function Classify(c2: int, c3: int, c4: int, c5: int): HandType {
    var t0 := HighCard;
    var t1 := if c5 == 1 then FiveOfAKind else t0;
    var t2 := if c4 == 1 then FourOfAKind else t1;
    if c3 == 1 then (if c2 == 1 then FullHouse else ThreeOfAKind)
    else if c2 == 2 then TwoPairs
    else if c2 == 1 then OnePair
    else t2
  }

  /** The type parseHand gives to a hand with these values. */
  function TypeOf(values: seq<int>): HandType {
    var vc := ValCounts(values);
    Classify(NumWith(vc, 2), NumWith(vc, 3), NumWith(vc, 4), NumWith(vc, 5))
  }

  /** For a five-card hand the counts-of-counts weigh five in total, and
      then the ifs pick the poker category: five or four of a kind, a full
      house (one triple and one pair), three of a kind, two pairs, one pair
      or five different cards. */
  lemma ClassifyCounts(c1: nat, c2: nat, c3: nat, c4: nat, c5: nat)
    requires c1 + 2 * c2 + 3 * c3 + 4 * c4 + 5 * c5 == 5
    ensures var t := Classify(c2, c3, c4, c5);
      && (t == FiveOfAKind <==> c5 == 1)
      && (t == FourOfAKind <==> c4 == 1)
      && (t == FullHouse <==> c3 == 1 && c2 == 1)
      && (t == ThreeOfAKind <==> c3 == 1 && c2 == 0)
      && (t == TwoPairs <==> c2 == 2)
      && (t == OnePair <==> c2 == 1 && c3 == 0)
      && (t == HighCard <==> c1 == 5)
  {
  }

  /** The weight of the counts-of-counts, up to five of a kind. */
  function Weight(vc: map<int, int>): int {
    NumWith(vc, 1) + 2 * NumWith(vc, 2) + 3 * NumWith(vc, 3) + 4 * NumWith(vc, 4) + 5 * NumWith(vc, 5)
  }

  lemma NumWithUpdate(vc: map<int, int>, v: int, n: int, k: int)
    ensures NumWith(vc[v := n], k)
      == NumWith(vc, k) - (if v in vc && vc[v] == k then 1 else 0) + (if n == k then 1 else 0)
  {
    var m := vc[v := n];
    var t := (set u | u in vc && vc[u] == k) - {v};
    assert (set u | u in m && m[u] == k) - {v} == t;
    NumWithSplit(m, v, k);
    NumWithSplit(vc, v, k);
  }

  /** The keys with count k other than v, and possibly v. */
  lemma NumWithSplit(vc: map<int, int>, v: int, k: int)
    ensures NumWith(vc, k) == |(set u | u in vc && vc[u] == k) - {v}| + (if v in vc && vc[v] == k then 1 else 0)
  {
    var s := set u | u in vc && vc[u] == k;
    if v in vc && vc[v] == k {
      assert s == (s - {v}) + {v};
    } else {
      assert s == s - {v};
    }
  }

  /** Up to five cards, every value occurs between once and |values| times
      and the counts-of-counts weigh exactly the number of cards. */
  lemma {:induction false} WeightIsLength(values: seq<int>)
    requires |values| <= 5
    ensures forall v :: v in ValCounts(values) ==> 1 <= ValCounts(values)[v] <= |values|
    ensures Weight(ValCounts(values)) == |values|
  {
    if values == [] {
      var vc := ValCounts(values);
      assert |vc.Keys| == 0;
      NumWithBound(vc, 1);
      NumWithBound(vc, 2);
      NumWithBound(vc, 3);
      NumWithBound(vc, 4);
      NumWithBound(vc, 5);
    } else {
      var n := |values| - 1;
      var vc := ValCounts(values[..n]);
      var v := values[n];
      WeightIsLength(values[..n]);
      var c := Get(vc, v);
      forall k ensures NumWith(vc[v := c + 1], k)
        == NumWith(vc, k) - (if v in vc && vc[v] == k then 1 else 0) + (if c + 1 == k then 1 else 0)
      {
        NumWithUpdate(vc, v, c + 1, k);
      }
    }
  }

  /** The type of a five-card hand is its poker category (see ClassifyCounts). */
  lemma TypeOfFiveCards(values: seq<int>)
    requires |values| == 5
    ensures var vc := ValCounts(values); var t := TypeOf(values);
      && (t == FiveOfAKind <==> NumWith(vc, 5) == 1)
      && (t == FourOfAKind <==> NumWith(vc, 4) == 1)
      && (t == FullHouse <==> NumWith(vc, 3) == 1 && NumWith(vc, 2) == 1)
      && (t == ThreeOfAKind <==> NumWith(vc, 3) == 1 && NumWith(vc, 2) == 0)
      && (t == TwoPairs <==> NumWith(vc, 2) == 2)
      && (t == OnePair <==> NumWith(vc, 2) == 1 && NumWith(vc, 3) == 0)
      && (t == HighCard <==> NumWith(vc, 1) == 5)
  {
    var vc := ValCounts(values);
    WeightIsLength(values);
    ClassifyCounts(NumWith(vc, 1), NumWith(vc, 2), NumWith(vc, 3), NumWith(vc, 4), NumWith(vc, 5));
  }

  // ---------------------------------------------------------------------
  // Parsing

  /** parseHand: the cards are the trimmed first space-separated piece, the
      bid the trimmed second; None where Go panics (a card without a value,
      no second piece, a bid that is not a number). */
  function ParseHand(line: string): Option<Hand> {
    HandOf(Split(line, ' '))
  }

  /** parseHand once the line is split at its spaces. */
  function HandOf(pieces: seq<string>): (r: Option<Hand>)
    requires |pieces| >= 1
    ensures r.Some? ==> (Values(r.value.cards) == Some(r.value.cardValues)
      && r.value.handType == TypeOf(r.value.cardValues))
  {
    var cardStr := TrimSpace(pieces[0]);
    match Values(cardStr)
    case None => None
    case Some(values) =>
      if |pieces| < 2 then None
      else
        match Atoi(TrimSpace(pieces[1]))
        case None => None
        case Some(bid) => Some(Hand(cardStr, values, bid, TypeOf(values)))
  }

  method ParseHandLine(line: string) returns (r: Option<Hand>)
    ensures r == ParseHand(line)
  {
    var pieces := Split(line, ' ');
    var cardStr := TrimSpace(pieces[0]);
    var values := CardValues(cardStr);
    if values.None? {
      return None;
    }
    var valCountMap := CountValues(values.value);
    var countMap := CountCounts(valCountMap);
    var handType := Classify(Get(countMap, 2), Get(countMap, 3), Get(countMap, 4), Get(countMap, 5));
    if |pieces| < 2 {
      return None;
    }
    var bid := Atoi(TrimSpace(pieces[1]));
    if bid.None? {
      return None;
    }
    return Some(Hand(cardStr, values.value, bid.value, handType));
  }

  /** The line of a hand: its cards, one space and its bid. */
  predicate IsCards(cards: string) {
    |cards| > 0 && forall i :: 0 <= i < |cards| ==> CardValue(cards[i]).Some?
  }

  lemma CardsNoSpace(cards: string)
    requires IsCards(cards)
    ensures NoSpace(cards) && ' ' !in cards
  {
    forall i | 0 <= i < |cards| ensures !IsSpace(cards[i]) {
      CardValueMeaning(cards[i]);
    }
  }

  /** A hand written as its cards, a space and its bid reads back as that hand. */
  lemma ParseHandText(cards: string, bid: int)
    requires IsCards(cards)
    ensures var values := Values(cards);
      values.Some? && ParseHand(cards + " " + Itoa(bid)) == Some(Hand(cards, values.value, bid, TypeOf(values.value)))
  {
    ValuesMeaning(cards);
    CardsNoSpace(cards);
    ItoaNoSeparator(bid, ' ');
    var line := cards + " " + Itoa(bid);
    SplitTwo(cards, Itoa(bid), ' ');
    assert line == cards + [' '] + Itoa(bid);
    TrimSpaceWord(cards);
    ItoaIsWord(bid);
    TrimSpaceWord(Itoa(bid));
    AtoiItoa(bid);
    ParseHandPieces(line, cards, Itoa(bid), bid);
  }

  lemma ParseHandPieces(line: string, cards: string, bidText: string, bid: int)
    requires Split(line, ' ') == [cards, bidText]
    requires TrimSpace(cards) == cards && TrimSpace(bidText) == bidText
    requires Values(cards).Some? && Atoi(bidText) == Some(bid)
    ensures ParseHand(line) == Some(Hand(cards, Values(cards).value, bid, TypeOf(Values(cards).value)))
  {
    HandOfPieces([cards, bidText], cards, Values(cards).value, bid);
  }

  lemma HandOfPieces(pieces: seq<string>, cards: string, values: seq<int>, bid: int)
    requires |pieces| == 2 && TrimSpace(pieces[0]) == cards && Values(cards) == Some(values)
    requires Atoi(TrimSpace(pieces[1])) == Some(bid)
    ensures HandOf(pieces) == Some(Hand(cards, values, bid, TypeOf(values)))
  {
  }

  /** parseCamelCardInput: one hand per line, every line read. */
  function ParseHands(input: string): Option<seq<Hand>> {
    ReadAll(Split(input, '\n'), ParseHand)
  }

  method ParseCamelCardInput(input: string) returns (hands: Option<seq<Hand>>)
    ensures hands == ParseHands(input)
  {
    var lines := Split(input, '\n');
    var acc := [];
    for i := 0 to |lines|
      invariant ReadAll(lines[..i], ParseHand) == Some(acc)
    {
      FoldStep(lines, i, [], Append(ParseHand));
      var h := ParseHandLine(lines[i]);
      if h.None? {
        FoldFailureSticks(lines, i + 1, [], Append(ParseHand));
        return None;
      }
      acc := acc + [h.value];
    }
    assert lines[..|lines|] == lines;
    return Some(acc);
  }

  /** Lines without a newline, joined by newlines, read as the hands they each read as. */
  lemma ParseHandsOfLines(lines: seq<string>)
    requires |lines| >= 1 && forall i :: 0 <= i < |lines| ==> '\n' !in lines[i]
    ensures ParseHands(Join(lines, '\n')) == ReadAll(lines, ParseHand)
  {
    SplitJoin(lines, '\n');
  }

  // ---------------------------------------------------------------------
  // Hand.Compare

  /** The loop of Compare from index i on; None where other.CardValues[i]
      is out of range. */
  function CompareFrom(a: seq<int>, b: seq<int>, i: nat): Option<int>
    decreases |a| - i
  {
    if i >= |a| then Some(0)
    else if i >= |b| then None
    else if a[i] == b[i] then CompareFrom(a, b, i + 1)
    else Some(if a[i] > b[i] then 1 else -1)
  }

  /** Hand.Compare: 1 when h is stronger, -1 when weaker, 0 when equal. */
  function Compare(h: Hand, other: Hand): Option<int> {
    if h.handType == other.handType then CompareFrom(h.cardValues, other.cardValues, 0)
    else Some(if Ordinal(h.handType) < Ordinal(other.handType) then 1 else -1)
  }

  method CompareHands(h: Hand, other: Hand) returns (r: Option<int>)
    ensures r == Compare(h, other)
  {
    if h.handType == other.handType {
      var a, b := h.cardValues, other.cardValues;
      for i := 0 to |a|
        invariant CompareFrom(a, b, i) == CompareFrom(a, b, 0)
      {
        if i >= |b| {
          return None;
        }
        if a[i] == b[i] {
          continue;
        }
        if a[i] > b[i] {
          return Some(1);
        } else {
          return Some(-1);
        }
      }
      return Some(0);
    } else {
      if Ordinal(h.handType) < Ordinal(other.handType) {
        return Some(1);
      } else {
        return Some(-1);
      }
    }
  }

  /** Lexicographic comparison of integer sequences, a prefix first. */
  function LexCompare(a: seq<int>, b: seq<int>): (r: int)
    ensures -1 <= r <= 1
  {
    if a == [] then (if b == [] then 0 else -1)
    else if b == [] then 1
    else if a[0] != b[0] then (if a[0] > b[0] then 1 else -1)
    else LexCompare(a[1..], b[1..])
  }

  lemma {:induction false} LexCompareZero(a: seq<int>, b: seq<int>)
    ensures LexCompare(a, b) == 0 <==> a == b
  {
    if a != [] && b != [] && a[0] == b[0] {
      LexCompareZero(a[1..], b[1..]);
      assert a == [a[0]] + a[1..] && b == [b[0]] + b[1..];
    }
  }

  lemma {:induction false} LexCompareAntisymmetric(a: seq<int>, b: seq<int>)
    ensures LexCompare(b, a) == -LexCompare(a, b)
  {
    if a != [] && b != [] && a[0] == b[0] {
      LexCompareAntisymmetric(a[1..], b[1..]);
    }
  }

  lemma {:induction false} LexCompareTransitive(a: seq<int>, b: seq<int>, c: seq<int>)
    requires LexCompare(a, b) <= 0 && LexCompare(b, c) <= 0
    ensures LexCompare(a, c) <= 0
  {
    if a != [] && b != [] && c != [] && a[0] == b[0] == c[0] {
      LexCompareTransitive(a[1..], b[1..], c[1..]);
    }
  }

  /** The order Compare follows: the type (a stronger type first) and then
      the card values. */
  function Key(h: Hand): seq<int> {
    var strength: int := -(Ordinal(h.handType) as int);
    [strength] + h.cardValues
  }

  lemma {:induction false} CompareFromIsLex(a: seq<int>, b: seq<int>, i: nat)
    requires |a| == |b| && i <= |a|
    ensures CompareFrom(a, b, i) == Some(LexCompare(a[i..], b[i..]))
    decreases |a| - i
  {
    if i < |a| {
      CompareFromIsLex(a, b, i + 1);
      assert a[i..][1..] == a[i + 1..] && b[i..][1..] == b[i + 1..];
    }
  }

  /** For hands with as many cards as each other, Compare never panics and
      is the lexicographic order of the keys: a stronger type wins (the
      smaller constant returns 1), and equal types go card by card. */
  lemma CompareIsLex(h: Hand, other: Hand)
    requires |h.cardValues| == |other.cardValues|
    ensures Compare(h, other) == Some(LexCompare(Key(h), Key(other)))
  {
    var kh, ko := Key(h), Key(other);
    assert kh[0] == -(Ordinal(h.handType) as int) && kh[1..] == h.cardValues;
    assert ko[0] == -(Ordinal(other.handType) as int) && ko[1..] == other.cardValues;
    OrdinalInjective(h.handType, other.handType);
    CompareFromIsLex(h.cardValues, other.cardValues, 0);
    assert h.cardValues[0..] == h.cardValues && other.cardValues[0..] == other.cardValues;
  }

  lemma {:induction false} CompareFromPanics(a: seq<int>, b: seq<int>, i: nat)
    requires i <= |b|
    ensures CompareFrom(a, b, i) == None <==> i <= |b| < |a| && a[i..|b|] == b[i..]
    decreases |a| - i
  {
    if i < |a| && i < |b| {
      CompareFromPanics(a, b, i + 1);
      if a[i] == b[i] {
        if i + 1 <= |b| < |a| {
          assert a[i..|b|] == [a[i]] + a[i + 1..|b|];
          assert b[i..] == [b[i]] + b[i + 1..];
        }
      } else if |b| < |a| {
        assert a[i..|b|][0] != b[i..][0];
      }
    }
  }

  /** Compare panics exactly when the types are equal and the other hand's
      cards are a proper prefix of h's. */
  lemma ComparePanics(h: Hand, other: Hand)
    ensures Compare(h, other) == None <==>
      h.handType == other.handType && |other.cardValues| < |h.cardValues|
      && h.cardValues[..|other.cardValues|] == other.cardValues
  {
    CompareFromPanics(h.cardValues, other.cardValues, 0);
    if |other.cardValues| <= |h.cardValues| {
      assert h.cardValues[0..|other.cardValues|] == h.cardValues[..|other.cardValues|];
    }
    assert other.cardValues[0..] == other.cardValues;
  }

  /** Every hand compares equal to itself. */
  lemma CompareReflexive(h: Hand)
    ensures Compare(h, h) == Some(0)
  {
    CompareIsLex(h, h);
    LexCompareZero(Key(h), Key(h));
  }

  /** Swapping the hands negates the result, and only the same type and
      cards compare equal. */
  lemma CompareAntisymmetric(h: Hand, other: Hand)
    requires |h.cardValues| == |other.cardValues|
    ensures Compare(h, other).Some? && Compare(other, h) == Some(-Compare(h, other).value)
    ensures Compare(h, other) == Some(0) <==> h.handType == other.handType && h.cardValues == other.cardValues
  {
    CompareIsLex(h, other);
    CompareIsLex(other, h);
    LexCompareAntisymmetric(Key(h), Key(other));
    LexCompareZero(Key(h), Key(other));
    OrdinalInjective(h.handType, other.handType);
    if Key(h) == Key(other) {
      assert Key(h)[1..] == h.cardValues && Key(other)[1..] == other.cardValues;
    }
  }

  /** Among hands of one size, "not stronger than" is transitive. */
  lemma CompareTransitive(a: Hand, b: Hand, c: Hand)
    requires |a.cardValues| == |b.cardValues| == |c.cardValues|
    requires Compare(a, b) != Some(1) && Compare(b, c) != Some(1)
    ensures Compare(a, c) != Some(1)
  {
    CompareIsLex(a, b);
    CompareIsLex(b, c);
    CompareIsLex(a, c);
    LexCompareTransitive(Key(a), Key(b), Key(c));
  }

  // ---------------------------------------------------------------------
  // Part 1

  /** sort.Slice with less(i, j) = Compare == -1 leaves the weakest hand
      first; an insertion sort by the key is such an order. */
  predicate Sorted(hands: seq<Hand>) {
    forall i, j :: 0 <= i < j < |hands| ==> LexCompare(Key(hands[i]), Key(hands[j])) <= 0
  }

  function InsertHand(h: Hand, s: seq<Hand>): seq<Hand> {
    if s == [] || LexCompare(Key(h), Key(s[0])) <= 0 then [h] + s
    else [s[0]] + InsertHand(h, s[1..])
  }

  function SortHands(hands: seq<Hand>): seq<Hand> {
    if hands == [] then [] else InsertHand(hands[0], SortHands(hands[1..]))
  }

  /** h comes no later than any hand of s. */
  predicate NoStronger(h: Hand, s: seq<Hand>) {
    forall x :: x in s ==> LexCompare(Key(h), Key(x)) <= 0
  }

  lemma SortedCons(h: Hand, s: seq<Hand>)
    requires Sorted(s) && NoStronger(h, s)
    ensures Sorted([h] + s)
  {
    var r := [h] + s;
    forall i, j | 0 <= i < j < |r| ensures LexCompare(Key(r[i]), Key(r[j])) <= 0 {
      assert r[j] == s[j - 1];
      if i > 0 { assert r[i] == s[i - 1]; }
    }
  }

  lemma {:induction false} InsertHandMultiset(h: Hand, s: seq<Hand>)
    ensures multiset(InsertHand(h, s)) == multiset(s) + multiset{h}
  {
    if s != [] && LexCompare(Key(h), Key(s[0])) > 0 {
      InsertHandMultiset(h, s[1..]);
      assert s == [s[0]] + s[1..];
    }
  }

  /** Inserting into an ascending slice keeps it ascending. */
  lemma {:induction false} InsertHandSorted(h: Hand, s: seq<Hand>)
    requires Sorted(s)
    ensures Sorted(InsertHand(h, s))
  {
    if s == [] {
    } else if LexCompare(Key(h), Key(s[0])) <= 0 {
      forall x | x in s ensures LexCompare(Key(h), Key(x)) <= 0 {
        var j :| 0 <= j < |s| && s[j] == x;
        if j > 0 { LexCompareTransitive(Key(h), Key(s[0]), Key(s[j])); }
      }
      SortedCons(h, s);
    } else {
      var t := s[1..];
      SortedTail(s);
      InsertHandSorted(h, t);
      InsertHandMultiset(h, t);
      LexCompareAntisymmetric(Key(h), Key(s[0]));
      forall x | x in InsertHand(h, t) ensures LexCompare(Key(s[0]), Key(x)) <= 0 {
        assert x in multiset(InsertHand(h, t));
        if x != h {
          assert x in multiset(t);
          var j :| 0 <= j < |t| && t[j] == x;
          assert s[j + 1] == x;
        }
      }
      SortedCons(s[0], InsertHand(h, t));
    }
  }

  /** SortHands orders the hands ascending and keeps every hand. */
  lemma {:induction false} SortHandsSorted(hands: seq<Hand>)
    ensures Sorted(SortHands(hands)) && multiset(SortHands(hands)) == multiset(hands)
  {
    if hands != [] {
      SortHandsSorted(hands[1..]);
      InsertHandSorted(hands[0], SortHands(hands[1..]));
      InsertHandMultiset(hands[0], SortHands(hands[1..]));
      assert hands == [hands[0]] + hands[1..];
    }
  }

  /** Every hand of a sorted slice of one-size hands is "less" (in the sense
      of the sort.Slice callback) than no hand before it. */
  lemma SortedForSortSlice(hands: seq<Hand>)
    requires Sorted(hands)
    requires forall i :: 0 <= i < |hands| ==> |hands[i].cardValues| == |hands[0].cardValues|
    ensures forall i, j :: 0 <= i < j < |hands| ==> Compare(hands[j], hands[i]) != Some(-1)
  {
    forall i, j | 0 <= i < j < |hands| ensures Compare(hands[j], hands[i]) != Some(-1) {
      CompareIsLex(hands[j], hands[i]);
      LexCompareAntisymmetric(Key(hands[i]), Key(hands[j]));
    }
  }

  /** The head of an ascending slice comes no later than any of its hands. */
  lemma HeadFirst(a: seq<Hand>, x: Hand)
    requires Sorted(a) && x in multiset(a)
    ensures LexCompare(Key(a[0]), Key(x)) <= 0
  {
    var j :| 0 <= j < |a| && a[j] == x;
    if j == 0 { LexCompareZero(Key(x), Key(x)); }
  }

  lemma SameTails(a: seq<Hand>, b: seq<Hand>)
    requires |a| > 0 && |b| > 0 && a[0] == b[0] && multiset(a) == multiset(b)
    requires Sorted(a) && Sorted(b)
    ensures multiset(a[1..]) == multiset(b[1..])
    ensures Sorted(a[1..]) && Sorted(b[1..])
  {
    var a', b' := a[1..], b[1..];
    assert a == [a[0]] + a';
    assert b == [b[0]] + b';
    assert multiset(a') == multiset(a) - multiset{a[0]};
    assert multiset(b') == multiset(b) - multiset{a[0]};
    SortedTail(a);
    SortedTail(b);
  }

  lemma SortedTail(a: seq<Hand>)
    requires |a| > 0 && Sorted(a)
    ensures Sorted(a[1..])
  {
    var t := a[1..];
    forall i, j | 0 <= i < j < |t| ensures LexCompare(Key(t[i]), Key(t[j])) <= 0 {
      assert t[i] == a[i + 1] && t[j] == a[j + 1];
    }
  }

  /** When no two different hands share a key, the ascending order is unique:
      whatever order sort.Slice leaves, it is SortHands. */
  lemma {:induction false} SortedUnique(a: seq<Hand>, b: seq<Hand>)
    requires Sorted(a) && Sorted(b) && multiset(a) == multiset(b)
    requires forall x, y :: x in a && y in a && Key(x) == Key(y) ==> x == y
    ensures a == b
    decreases |a|
  {
    if a == [] {
      assert |b| == |multiset(b)| == 0;
    } else {
      SameHead(a, b);
      SameTails(a, b);
      forall x, y | x in a[1..] && y in a[1..] && Key(x) == Key(y) ensures x == y {
        assert x in a && y in a;
      }
      SortedUnique(a[1..], b[1..]);
      assert a == [a[0]] + a[1..] && b == [b[0]] + b[1..];
    }
  }

  lemma SameHead(a: seq<Hand>, b: seq<Hand>)
    requires |a| > 0 && Sorted(a) && Sorted(b) && multiset(a) == multiset(b)
    requires forall x, y :: x in a && y in a && Key(x) == Key(y) ==> x == y
    ensures |b| > 0 && a[0] == b[0]
  {
    assert |b| == |multiset(b)| == |a|;
    HeadFirst(a, b[0]);
    HeadFirst(b, a[0]);
    LexCompareAntisymmetric(Key(a[0]), Key(b[0]));
    LexCompareZero(Key(a[0]), Key(b[0]));
    assert b[0] in multiset(a);
  }

  /** The winnings: the sum of bid * rank, ranks counted from 1. */
  function Winnings(hands: seq<Hand>): int {
    if hands == [] then 0
    else Winnings(hands[..|hands| - 1]) + hands[|hands| - 1].bid * |hands|
  }

  /** Raising one bid raises the winnings by that much times the hand's rank. */
  lemma {:induction false} WinningsBid(hands: seq<Hand>, i: nat, extra: int)
    requires i < |hands|
    ensures Winnings(hands[i := hands[i].(bid := hands[i].bid + extra)]) == Winnings(hands) + extra * (i + 1)
  {
    var h' := hands[i := hands[i].(bid := hands[i].bid + extra)];
    var n := |hands| - 1;
    if i < n {
      WinningsBid(hands[..n], i, extra);
      assert h'[..n] == hands[..n][i := hands[i].(bid := hands[i].bid + extra)];
    } else {
      assert h'[..n] == hands[..n];
    }
  }

  method SumWinnings(hands: seq<Hand>) returns (result: int)
    ensures result == Winnings(hands)
  {
    result := 0;
    for rank := 0 to |hands|
      invariant result == Winnings(hands[..rank])
    {
      assert hands[..rank + 1][..rank] == hands[..rank];
      result := result + hands[rank].bid * (rank + 1);
    }
    assert hands[..|hands|] == hands;
  }

  /** All hands hold as many cards as the first. */
  predicate SameSize(hands: seq<Hand>) {
    forall i :: 0 <= i < |hands| ==> |hands[i].cardValues| == |hands[0].cardValues|
  }

  /** SolvePart1: the winnings of the hands in ascending order. Hands of
      different sizes are treated as a panic of Compare. */
  method SolvePart1(input: string) returns (answer: Option<string>)
    ensures answer == match ParseHands(input)
      case None => None
      case Some(hands) => if SameSize(hands) then Some(Itoa(Winnings(SortHands(hands)))) else None
  {
    var hands := ParseCamelCardInput(input);
    if hands.None? || !SameSize(hands.value) {
      return None;
    }
    var sorted := SortHands(hands.value);
    SortHandsSorted(hands.value);
    var result := SumWinnings(sorted);
    return Some(Itoa(result));
  }
}
