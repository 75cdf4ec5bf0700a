/** 2023/day04: scratchcards. Each card lists the numbers you have and the
    winning numbers; a card with k matching numbers is worth 2^(k-1)
    points, and nothing when none match. */
module Y2023Day04 {
  import opened Text
  import opened LineFold
  import opened GoMath
  import opened Utils

  /** One scratchcard; the id is kept as the digits of the card header. */
  datatype Card = Card(id: string, numsYouHave: seq<int>, winningNumbers: seq<int>)

  // ---------------------------------------------------------------------
  // MustStringToInts

  /** One piece of the split: trimmed, skipped when blank, otherwise read
      as an integer (None where MustAtoi panics). */
  function IntsStep(ints: seq<int>, num: string): Option<seq<int>> {
    var cleanNum := TrimSpace(num);
    if cleanNum == "" then Some(ints)
    else match Atoi(cleanNum)
      case None => None
      case Some(v) => Some(ints + [v])
  }

  /** The integers of str, separated by sep. */
  function StringToInts(str: string, sep: char): Option<seq<int>> {
    Fold(Split(str, sep), [], IntsStep)
  }

  /** MustStringToInts: the loop over the pieces of str. */
  method MustStringToInts(str: string, sep: char) returns (ints: Option<seq<int>>)
    ensures ints == StringToInts(str, sep)
  {
    ints := FoldLines(Split(str, sep), [], IntsStep);
  }

  /** A blank piece, such as the one between two consecutive separators,
      changes nothing: runs of separators are tolerated. */
  lemma BlankPieceSkipped(pieces: seq<string>, i: nat)
    requires i < |pieces| && TrimSpace(pieces[i]) == ""
    ensures Fold(pieces, [], IntsStep) == Fold(pieces[..i] + pieces[i + 1..], [], IntsStep)
  {
    FoldSkip(pieces, i, [], IntsStep);
  }

  /** The integers written in decimal, separated by single spaces. */
  function Render(values: seq<int>): string {
    if values == [] then "" else Join(ItoaAll(values), ' ')
  }

  /** MustStringToInts reads back the integers Render writes. */
  lemma StringToIntsRender(values: seq<int>)
    ensures StringToInts(Render(values), ' ') == Some(values)
  {
    if values != [] {
      var parts := ItoaAll(values);
      forall i | 0 <= i < |parts|
        ensures ' ' !in parts[i]
      {
        ItoaNoSeparator(values[i], ' ');
      }
      SplitJoin(parts, ' ');
      FoldNumbers(values);
    }
  }

  lemma FoldNumbers(values: seq<int>)
    ensures Fold(ItoaAll(values), [], IntsStep) == Some(values)
  {
    var parts := ItoaAll(values);
    forall acc, i | 0 <= i < |parts|
      ensures IntsStep(acc, parts[i]) == Some(acc + [values[i]])
    {
      NumberPiece(acc, values[i]);
    }
    FoldAppends(parts, values, IntsStep);
  }

  /** A number in decimal is read and appended. */
  lemma NumberPiece(ints: seq<int>, v: int)
    ensures IntsStep(ints, Itoa(v)) == Some(ints + [v])
  {
    ItoaIsWord(v);
    TrimSpaceWord(Itoa(v));
    AtoiItoa(v);
  }

  /** Render writes digits, minus signs and spaces only. */
  lemma RenderHasNo(values: seq<int>, c: char)
    requires !IsDigit(c) && c != '-' && c != ' '
    ensures c !in Render(values)
  {
    if values != [] {
      var parts := ItoaAll(values);
      forall i | 0 <= i < |parts|
        ensures c !in parts[i]
      {
        ItoaNoSeparator(values[i], c);
      }
      JoinHasNo(parts, ' ', c);
    }
  }

  /** Render leaves nothing to trim. */
  lemma RenderEnds(values: seq<int>)
    ensures var r := Render(values); r == [] || (!IsSpace(r[0]) && !IsSpace(r[|r| - 1]))
  {
    if values != [] {
      var parts := ItoaAll(values);
      forall i | 0 <= i < |parts|
        ensures |parts[i]| > 0 && NoSpace(parts[i])
      {
        ItoaIsWord(values[i]);
      }
      JoinOfWordsEnds(parts);
    }
  }

  // ---------------------------------------------------------------------
  // parseCard

  /** The regular expression `Card\s+(\d+):` matched at the start of s: the
      digits. The runs of \s and of digits must be read in full, as the
      next character of each may not belong to it, so a match is unique. */
  function CardIdAt(s: string): Option<string> {
    if !HasPrefix(s, "Card") then None
    else
      var rest := s[4..];
      var k := SpaceRun(rest);
      if k == 0 then None
      else
        var digits := rest[k..];
        var d := DigitRun(digits);
        if 1 <= d < |digits| && digits[d] == ':' then Some(digits[..d]) else None
  }

  /** The leftmost match of `Card\s+(\d+):` in s; None when there is none,
      where FindStringSubmatch returns nil and indexing it panics. */
  function FindCardId(s: string): (id: Option<string>)
    ensures id.Some? ==> |id.value| > 0 && AllDigits(id.value)
  {
    if CardIdAt(s).Some? then CardIdAt(s)
    else if s == [] then None
    else FindCardId(s[1..])
  }

  /** parseCard: the id from the header, the numbers before '|' as yours
      and those after it as the winning ones. None where the Go code
      panics: no header, no ':' or '|', or a number that does not parse. */
  function ParseCard(line: string): Option<Card> {
    match FindCardId(line)
    case None => None
    case Some(id) =>
      var parts := Split(line, ':');
      if |parts| < 2 then None
      else
        var pieces := Split(parts[1], '|');
        if |pieces| < 2 then None
        else
          match (StringToInts(TrimSpace(pieces[0]), ' '), StringToInts(TrimSpace(pieces[1]), ' '))
          case (Some(yours), Some(winning)) => Some(Card(id, yours, winning))
          case _ => None
  }

  /** A card as the puzzle writes it. */
  function CardText(c: Card): string {
    "Card " + c.id + ": " + Render(c.numsYouHave) + " | " + Render(c.winningNumbers)
  }

  /** A card id is a non-empty run of digits. */
  predicate ValidCard(c: Card) {
    |c.id| > 0 && AllDigits(c.id)
  }

  /** parseCard reads back every card written in the puzzle's format. */
  lemma ParseCardText(c: Card)
    requires ValidCard(c)
    ensures ParseCard(CardText(c)) == Some(c)
  {
    var yours, winning := Render(c.numsYouHave), Render(c.winningNumbers);
    var p, q := " " + yours + " ", " " + winning;
    var nums := p + ['|'] + q;
    CardTextShape(c, nums);
    CardHeader(c.id, nums);
    RenderHasNo(c.numsYouHave, ':');
    RenderHasNo(c.winningNumbers, ':');
    RenderHasNo(c.numsYouHave, '|');
    RenderHasNo(c.winningNumbers, '|');
    CardSplits(c.id, p, q);
    CardPieces(c);
    ParseCardParts(CardText(c), c.id, nums, p, q, c.numsYouHave, c.winningNumbers);
  }

  lemma CardTextShape(c: Card, nums: string)
    requires nums == " " + Render(c.numsYouHave) + " " + ['|'] + (" " + Render(c.winningNumbers))
    ensures CardText(c) == "Card " + c.id + ":" + nums
  {
  }

  /** The header and the two lists split apart at ':' and '|'. */
  lemma CardSplits(id: string, p: string, q: string)
    requires AllDigits(id)
    requires ':' !in p && ':' !in q && '|' !in p && '|' !in q
    ensures Split("Card " + id + ":" + (p + ['|'] + q), ':') == ["Card " + id, p + ['|'] + q]
    ensures Split(p + ['|'] + q, '|') == [p, q]
  {
    var nums := p + ['|'] + q;
    assert ':' !in "Card " + id;
    assert ':' !in nums;
    assert "Card " + id + ":" + nums == ("Card " + id) + [':'] + nums;
    SplitTwo("Card " + id, nums, ':');
    SplitTwo(p, q, '|');
  }

  /** parseCard assembled from its parts. */
  lemma ParseCardParts(line: string, id: string, nums: string, p: string, q: string, yours: seq<int>, winning: seq<int>)
    requires FindCardId(line) == Some(id)
    requires |Split(line, ':')| >= 2 && Split(line, ':')[1] == nums
    requires Split(nums, '|') == [p, q]
    requires StringToInts(TrimSpace(p), ' ') == Some(yours)
    requires StringToInts(TrimSpace(q), ' ') == Some(winning)
    ensures ParseCard(line) == Some(Card(id, yours, winning))
  {
  }

  /** The numbers on each side of '|' read back. */
  lemma CardPieces(c: Card)
    ensures var yours, winning := Render(c.numsYouHave), Render(c.winningNumbers);
      StringToInts(TrimSpace(" " + yours + " "), ' ') == Some(c.numsYouHave)
      && StringToInts(TrimSpace(" " + winning), ' ') == Some(c.winningNumbers)
  {
    var yours, winning := Render(c.numsYouHave), Render(c.winningNumbers);
    RenderEnds(c.numsYouHave);
    TrimSpacePadded(yours);
    StringToIntsRender(c.numsYouHave);
    RenderEnds(c.winningNumbers);
    TrimSpaceLead(winning);
    StringToIntsRender(c.winningNumbers);
  }

  lemma TrimSpaceLead(w: string)
    requires w == [] || (!IsSpace(w[0]) && !IsSpace(w[|w| - 1]))
    ensures TrimSpace(" " + w) == w
  {
    if w == [] {
      assert " " + w == " " && " "[1..] == [];
      assert TrimLeft(" ") == TrimLeft([]) == [];
      assert TrimRight([]) == [];
    } else {
      TrimSpaceOfEnds(w);
    }
  }

  /** A line that starts "Card <id>:" has that id. */
  lemma CardHeader(id: string, rest: string)
    requires |id| > 0 && AllDigits(id)
    ensures FindCardId("Card " + id + ":" + rest) == Some(id)
  {
    var s := "Card " + id + ":" + rest;
    assert s[..4] == "Card";
    var after := s[4..];
    assert after == " " + (id + ":" + rest);
    assert SpaceRun(after) == 1 + SpaceRun(id + ":" + rest);
    assert !RegexSpace((id + ":" + rest)[0]);
    var digits := after[1..];
    assert digits == id + (":" + rest);
    DigitRunOf(id, ":" + rest);
    assert digits[..|id|] == id;
  }

  /** No header, no card. */
  lemma NoHeaderNoCard(line: string)
    requires FindCardId(line).None?
    ensures ParseCard(line).None?
  {
  }

  // ---------------------------------------------------------------------
  // parseInput

  /** parseInput: blank lines are skipped, and any other line is a card. */
  function ParseCards(input: string): Option<seq<Card>> {
    Fold(Split(input, '\n'), [], SkipBlank(ParseCard))
  }

  method ParseInput(input: string) returns (cards: Option<seq<Card>>)
    ensures cards == ParseCards(input)
  {
    cards := FoldLines(Split(input, '\n'), [], SkipBlank(ParseCard));
  }

  /** parseInput reads one card from each line that is not blank, in
      order (ReadAllMeaning: it fails exactly when one of them is not a
      card). */
  lemma CardsOfLines(input: string)
    ensures ParseCards(input) == ReadAll(NonBlank(Split(input, '\n')), ParseCard)
  {
    SkipBlankReadAll(Split(input, '\n'), ParseCard);
  }

  // ---------------------------------------------------------------------
  // SolvePart1

  /** math.Pow(2, k-1) for k >= 1 matches, and 0 without a match. */
  function Points(k: nat): int {
    if k == 0 then 0 else Pow(2, k - 1)
  }

  /** The score of a card, from common.SetIntersection of its two lists. */
  function Score(c: Card): int {
    Points(|Collected([c.numsYouHave, c.winningNumbers], 2)|)
  }

  /** The values on both lists of a card. */
  function Matching(c: Card): set<int> {
    set x | x in c.numsYouHave && x in c.winningNumbers
  }

  /** A card's score counts its distinct matching numbers: 2^(k-1) for k
      of them, 0 for none. */
  lemma ScoreMeaning(c: Card)
    ensures Score(c) == Points(|Matching(c)|)
  {
    var pS := [c.numsYouHave, c.winningNumbers];
    var r := Collected(pS, 2);
    SetIntersectionMembers(pS);
    assert forall x :: x in r <==> x in c.numsYouHave && x in c.winningNumbers by {
      forall x ensures x in r <==> x in c.numsYouHave && x in c.winningNumbers {
        assert (forall j :: 0 <= j < |pS| ==> x in pS[j]) <==> x in pS[0] && x in pS[1];
      }
    }
    DistinctCount(r);
    assert (set x | x in r) == Matching(c);
  }

  /** A sequence without repetition has as many elements as its set. */
  lemma {:induction false} DistinctCount(s: seq<int>)
    requires NoDuplicates(s)
    ensures |set x | x in s| == |s|
  {
    if s != [] {
      var init := s[..|s| - 1];
      assert NoDuplicates(init);
      DistinctCount(init);
      assert (set x | x in s) == (set x | x in init) + {s[|s| - 1]};
      assert s[|s| - 1] !in init;
    }
  }

  /** Each further match doubles the score. */
  lemma PointsDouble(k: nat)
    requires k >= 1
    ensures Points(k + 1) == 2 * Points(k)
  {
  }

  /** The sum of the scores of the cards. */
  function TotalScore(cards: seq<Card>): int {
    if cards == [] then 0 else TotalScore(cards[..|cards| - 1]) + Score(cards[|cards| - 1])
  }

  /** The loop of SolvePart1. */
  method SumScores(cards: seq<Card>) returns (sum: int)
    ensures sum == TotalScore(cards)
  {
    sum := 0;
    for i := 0 to |cards|
      invariant sum == TotalScore(cards[..i])
    {
      var card := cards[i];
      assert cards[..i + 1][..i] == cards[..i];
      var intersection := SetIntersection([card.numsYouHave, card.winningNumbers]);
      if |intersection| == 0 {
        continue;
      }
      sum := sum + Pow(2, |intersection| - 1);
    }
    assert cards[..|cards|] == cards;
  }

  /** SolvePart1: the total score; None where parsing panics. */
  method SolvePart1(input: string) returns (answer: Option<string>)
    ensures answer == match ParseCards(input)
      case None => None
      case Some(cards) => Some(Itoa(TotalScore(cards)))
  {
    var cards := ParseInput(input);
    if cards.None? {
      return None;
    }
    var sum := SumScores(cards.value);
    return Some(Itoa(sum));
  }
}
