/** 2023/day02: games of cubes drawn from a bag. Each game records rounds,
    each round how many blue, red and green cubes were shown; a game is
    possible for a bag when no round shows more of a colour than the bag
    holds. */
module Y2023Day02 {
  import opened Text
  import opened LineFold

  // ---------------------------------------------------------------------
  // Round and Game

  datatype Round = Round(blue: int, red: int, green: int)

  datatype Game = Game(id: int, rounds: seq<Round>)

  /** Round.IsPossible(red, green, blue) */
  predicate RoundPossible(r: Round, red: int, green: int, blue: int) {
    blue >= r.blue && red >= r.red && green >= r.green
  }

  /** What Game.IsPossible decides: every round is possible. */
  predicate GamePossible(g: Game, red: int, green: int, blue: int) {
    forall i :: 0 <= i < |g.rounds| ==> RoundPossible(g.rounds[i], red, green, blue)
  }

  /** Game.IsPossible: the first impossible round ends the search; a game
      without rounds is possible. */
  method IsPossible(g: Game, red: int, green: int, blue: int) returns (possible: bool)
    ensures possible == GamePossible(g, red, green, blue)
    ensures g.rounds == [] ==> possible
  {
    for i := 0 to |g.rounds|
      invariant forall k :: 0 <= k < i ==> RoundPossible(g.rounds[k], red, green, blue)
    {
      if !RoundPossible(g.rounds[i], red, green, blue) {
        return false;
      }
    }
    return true;
  }

  /** A bag with at least as many cubes of every colour makes no possible
      game impossible. */
  lemma PossibleWithMore(g: Game, red: int, green: int, blue: int, red': int, green': int, blue': int)
    requires red <= red' && green <= green' && blue <= blue'
    ensures GamePossible(g, red, green, blue) ==> GamePossible(g, red', green', blue')
  {
  }

  /** A game is possible exactly when the bag holds, of every colour, at
      least the largest count any round shows. */
  lemma PossibleIffAboveEveryRound(g: Game, red: int, green: int, blue: int)
    ensures GamePossible(g, red, green, blue) <==>
      forall i :: 0 <= i < |g.rounds| ==>
        g.rounds[i].red <= red && g.rounds[i].green <= green && g.rounds[i].blue <= blue
  {
  }

  // ---------------------------------------------------------------------
  // parseRound

  predicate IsColour(c: string) {
    c == "blue" || c == "red" || c == "green"
  }

  /** The switch on the colour name: the named count is overwritten, and an
      unknown name is an error. */
  function SetColour(r: Round, colour: string, quantity: int): (r': Option<Round>)
    ensures r'.Some? <==> IsColour(colour)
  {
    match colour
    case "blue" => Some(r.(blue := quantity))
    case "red" => Some(r.(red := quantity))
    case "green" => Some(r.(green := quantity))
    case _ => None
  }

  /** One "<quantity> <colour>" entry of a round: trimmed, split on single
      spaces; a quantity that is not an integer or a missing colour is an
      error, and pieces after the colour are ignored. */
  function SetBlock(r: Round, blockInfo: string): Option<Round> {
    var pieces := Split(TrimSpace(blockInfo), ' ');
    match Atoi(pieces[0])
    case None => None
    case Some(quantity) =>
      if |pieces| < 2 then None else SetColour(r, pieces[1], quantity)
  }

  /** parseRound: the entries between commas, applied in order to an empty
      round. */
  function RoundOf(input: string): Option<Round> {
    Fold(Split(input, ','), Round(0, 0, 0), SetBlock)
  }

  method ParseRound(input: string) returns (r: Option<Round>)
    ensures r == RoundOf(input)
  {
    r := FoldLines(Split(input, ','), Round(0, 0, 0), SetBlock);
  }

  /** A repeated colour keeps the last quantity. */
  lemma LastQuantityWins(r: Round, colour: string, q1: int, q2: int)
    requires IsColour(colour)
    ensures SetColour(SetColour(r, colour, q1).value, colour, q2) == SetColour(r, colour, q2)
  {
  }

  /** Setting one colour leaves the other two counts as they were. */
  lemma SetColourKeepsOthers(r: Round, colour: string, q: int)
    requires IsColour(colour)
    ensures var r' := SetColour(r, colour, q).value;
      && (colour == "blue" ==> r'.blue == q)
      && (colour == "red" ==> r'.red == q)
      && (colour == "green" ==> r'.green == q)
      && (colour != "blue" ==> r'.blue == r.blue)
      && (colour != "red" ==> r'.red == r.red)
      && (colour != "green" ==> r'.green == r.green)
  {
  }

  /** The text of one entry. */
  function Block(quantity: int, colour: string): string {
    Join([Itoa(quantity), colour], ' ')
  }

  /** An entry reads back as its quantity and colour. */
  lemma BlockReads(r: Round, blockInfo: string, quantity: int, colour: string)
    requires IsColour(colour)
    requires TrimSpace(blockInfo) == Block(quantity, colour)
    ensures SetBlock(r, blockInfo) == SetColour(r, colour, quantity)
  {
    ItoaNoSeparator(quantity, ' ');
    SplitJoin([Itoa(quantity), colour], ' ');
    AtoiItoa(quantity);
  }

  lemma BlockTrimmed(quantity: int, colour: string)
    requires IsColour(colour)
    ensures TrimSpace(Block(quantity, colour)) == Block(quantity, colour)
    ensures TrimSpace(" " + Block(quantity, colour)) == Block(quantity, colour)
  {
    ItoaIsWord(quantity);
    TrimSpaceOfWords([Itoa(quantity), colour]);
  }

  lemma BlockHasNo(quantity: int, colour: string, c: char)
    requires IsColour(colour) && !IsDigit(c) && c != '-' && c != ' '
    requires c !in "blue" && c !in "red" && c !in "green"
    ensures c !in Block(quantity, colour) && c !in " " + Block(quantity, colour)
  {
    ItoaNoSeparator(quantity, c);
    BlockIsJoin(quantity, colour);
  }

  lemma BlockIsJoin(quantity: int, colour: string)
    ensures Block(quantity, colour) == Itoa(quantity) + " " + colour
  {
    var parts := [Itoa(quantity), colour];
    assert parts[1..] == [colour];
    assert Join(parts[1..], ' ') == colour;
  }

  /** The text of a round, "<b> blue, <r> red, <g> green". */
  function RoundText(r: Round): string {
    Join([Block(r.blue, "blue"), " " + Block(r.red, "red"), " " + Block(r.green, "green")], ',')
  }

  /** An entry reads back with or without one space before it. */
  lemma EntryReads(r: Round, quantity: int, colour: string)
    requires IsColour(colour)
    ensures SetBlock(r, Block(quantity, colour)) == SetColour(r, colour, quantity)
    ensures SetBlock(r, " " + Block(quantity, colour)) == SetColour(r, colour, quantity)
  {
    BlockTrimmed(quantity, colour);
    BlockReads(r, Block(quantity, colour), quantity, colour);
    BlockReads(r, " " + Block(quantity, colour), quantity, colour);
  }

  /** Every round reads back from its text. */
  lemma RoundOfRoundText(r: Round)
    ensures RoundOf(RoundText(r)) == Some(r)
  {
    var b, rd, g := Block(r.blue, "blue"), " " + Block(r.red, "red"), " " + Block(r.green, "green");
    RoundTextPieces(r);
    var zero := Round(0, 0, 0);
    EntryReads(zero, r.blue, "blue");
    EntryReads(zero.(blue := r.blue), r.red, "red");
    EntryReads(zero.(blue := r.blue, red := r.red), r.green, "green");
    RoundOfThree(RoundText(r), b, rd, g, r);
  }

  lemma RoundTextPieces(r: Round)
    ensures Split(RoundText(r), ',') == [Block(r.blue, "blue"), " " + Block(r.red, "red"), " " + Block(r.green, "green")]
  {
    BlockHasNo(r.blue, "blue", ',');
    BlockHasNo(r.red, "red", ',');
    BlockHasNo(r.green, "green", ',');
    SplitJoin([Block(r.blue, "blue"), " " + Block(r.red, "red"), " " + Block(r.green, "green")], ',');
  }

  lemma RoundOfThree(s: string, b: string, rd: string, g: string, r: Round)
    requires Split(s, ',') == [b, rd, g]
    requires SetBlock(Round(0, 0, 0), b) == Some(Round(r.blue, 0, 0))
    requires SetBlock(Round(r.blue, 0, 0), rd) == Some(Round(r.blue, r.red, 0))
    requires SetBlock(Round(r.blue, r.red, 0), g) == Some(r)
    ensures RoundOf(s) == Some(r)
  {
    FoldThree(b, rd, g, Round(0, 0, 0), Round(r.blue, 0, 0), Round(r.blue, r.red, 0), SetBlock);
  }

  /** A round naming one colour leaves the other two at zero. */
  lemma UnmentionedColoursAreZero(quantity: int, colour: string)
    requires IsColour(colour)
    ensures RoundOf(Block(quantity, colour)) == SetColour(Round(0, 0, 0), colour, quantity)
  {
    var s := Block(quantity, colour);
    BlockHasNo(quantity, colour, ',');
    SplitJoin([s], ',');
    EntryReads(Round(0, 0, 0), quantity, colour);
    RoundOfOne(s, s);
  }

  lemma RoundOfOne(s: string, b: string)
    requires Split(s, ',') == [b]
    ensures RoundOf(s) == SetBlock(Round(0, 0, 0), b)
  {
    FoldOne(b, Round(0, 0, 0), SetBlock);
  }

  /** An unknown colour name makes the entry an error. */
  lemma UnknownColourFails(r: Round, quantity: int, colour: string)
    requires !IsColour(colour) && |colour| > 0 && NoSpace(colour) && ' ' !in colour
    ensures SetBlock(r, Block(quantity, colour)).None?
  {
    ItoaIsWord(quantity);
    TrimSpaceOfWords([Itoa(quantity), colour]);
    ItoaNoSeparator(quantity, ' ');
    SplitJoin([Itoa(quantity), colour], ' ');
  }

  // ---------------------------------------------------------------------
  // parseGame

  /** The regular expression `Game (\d+):` matched at the start of s: the
      digits, read as a number. */
  function GameIdAt(s: string): Option<int> {
    if !HasPrefix(s, "Game ") then None
    else
      var rest := s[5..];
      var k := DigitRun(rest);
      if 1 <= k < |rest| && rest[k] == ':' then Some(DigitsValue(rest[..k])) else None
  }

  /** The leftmost match of `Game (\d+):` in s; None when there is none,
      where FindStringSubmatch returns nil and indexing it panics. */
  function FindGameId(s: string): (id: Option<int>)
    ensures id.Some? ==> id.value >= 0
  {
    if GameIdAt(s).Some? then GameIdAt(s)
    else if s == [] then None
    else FindGameId(s[1..])
  }

  /** A line that starts "Game <id>:" has that id. */
  lemma GameIdOfHeader(id: nat, rest: string)
    ensures FindGameId("Game " + Itoa(id) + ":" + rest) == Some(id)
  {
    var s := "Game " + Itoa(id) + ":" + rest;
    var digits := Itoa(id);
    assert s[..5] == "Game ";
    assert s[5..] == digits + (":" + rest);
    DigitRunOf(digits, ":" + rest);
    assert s[5..][..|digits|] == digits;
    DigitsValueOfNatToString(id);
  }

  /** One round of the game text: trimmed, then parsed. */
  function ReadRound(roundStr: string): Option<Round> {
    RoundOf(TrimSpace(roundStr))
  }

  /** parseGame: the id from the header, and the rounds between semicolons
      of the text after the first colon. */
  function ParseGame(input: string): Option<Game> {
    match FindGameId(input)
    case None => None
    case Some(id) =>
      var parts := Split(input, ':');
      if |parts| < 2 then None
      else match ReadAll(Split(TrimSpace(parts[1]), ';'), ReadRound)
        case None => None
        case Some(rounds) => Some(Game(id, rounds))
  }

  method ParseGameLine(input: string) returns (g: Option<Game>)
    ensures g == ParseGame(input)
  {
    var id := FindGameId(input);
    if id.None? {
      return None;
    }
    var parts := Split(input, ':');
    if |parts| < 2 {
      return None;
    }
    var rounds := FoldLines(Split(TrimSpace(parts[1]), ';'), [], Append(ReadRound));
    if rounds.None? {
      return None;
    }
    return Some(Game(id.value, rounds.value));
  }

  /** A game's rounds are read in order: round i is what the i-th piece
      between semicolons reads as. */
  lemma ParseGameRounds(input: string)
    requires ParseGame(input).Some?
    ensures var pieces := Split(TrimSpace(Split(input, ':')[1]), ';');
      var g := ParseGame(input).value;
      && |g.rounds| == |pieces|
      && forall i :: 0 <= i < |pieces| ==> ReadRound(pieces[i]) == Some(g.rounds[i])
  {
    ReadAllMeaning(Split(TrimSpace(Split(input, ':')[1]), ';'), ReadRound);
  }

  /** The text of the rounds of a game: round texts between "; ". */
  function RoundPieces(rounds: seq<Round>): (pieces: seq<string>)
    ensures |pieces| == |rounds|
    ensures forall i :: 0 <= i < |rounds| ==>
      pieces[i] == (if i == 0 then "" else " ") + RoundText(rounds[i])
  {
    seq(|rounds|, i requires 0 <= i < |rounds| => (if i == 0 then "" else " ") + RoundText(rounds[i]))
  }

  /** The text of a game, "Game <id>: <round>; <round>; ...". */
  function GameText(g: Game): string
    requires |g.rounds| >= 1
  {
    "Game " + Itoa(g.id) + ":" + (" " + Join(RoundPieces(g.rounds), ';'))
  }

  lemma RoundTextEnds(r: Round)
    ensures var t := RoundText(r); |t| > 0 && !IsSpace(t[0]) && !IsSpace(t[|t| - 1])
    ensures var t := RoundText(r); ':' !in t && ';' !in t
  {
    var b, g := Block(r.blue, "blue"), " " + Block(r.green, "green");
    BlockIsJoin(r.blue, "blue");
    BlockIsJoin(r.green, "green");
    ItoaIsWord(r.blue);
    assert b[0] == Itoa(r.blue)[0];
    assert g[|g| - 1] == 'n';
    JoinEnds([b, " " + Block(r.red, "red"), g], ',');
    BlockHasNo(r.blue, "blue", ':');
    BlockHasNo(r.red, "red", ':');
    BlockHasNo(r.green, "green", ':');
    JoinHasNo([b, " " + Block(r.red, "red"), g], ',', ':');
    BlockHasNo(r.blue, "blue", ';');
    BlockHasNo(r.red, "red", ';');
    BlockHasNo(r.green, "green", ';');
    JoinHasNo([b, " " + Block(r.red, "red"), g], ',', ';');
  }

  /** Each piece of the rounds text reads as its round. */
  lemma PieceReads(rounds: seq<Round>, i: nat)
    requires i < |rounds|
    ensures ReadRound(RoundPieces(rounds)[i]) == Some(rounds[i])
    ensures ':' !in RoundPieces(rounds)[i] && ';' !in RoundPieces(rounds)[i]
  {
    RoundTextEnds(rounds[i]);
    TrimSpaceOfEnds(RoundText(rounds[i]));
    assert "" + RoundText(rounds[i]) == RoundText(rounds[i]);
    RoundOfRoundText(rounds[i]);
  }

  /** The rounds text splits into its pieces, which read back as the rounds. */
  lemma RoundsReadBack(rounds: seq<Round>)
    requires |rounds| >= 1
    ensures ReadAll(Split(Join(RoundPieces(rounds), ';'), ';'), ReadRound) == Some(rounds)
    ensures ':' !in Join(RoundPieces(rounds), ';')
  {
    var pieces := RoundPieces(rounds);
    forall i | 0 <= i < |pieces|
      ensures ReadRound(pieces[i]) == Some(rounds[i]) && ':' !in pieces[i] && ';' !in pieces[i]
    {
      PieceReads(rounds, i);
    }
    SplitJoin(pieces, ';');
    ReadAllOf(pieces, ReadRound, rounds);
    JoinHasNo(pieces, ';', ':');
  }

  lemma PieceEnds(rounds: seq<Round>, i: nat)
    requires i < |rounds|
    ensures var p := RoundPieces(rounds)[i];
      |p| > 0 && !IsSpace(p[|p| - 1]) && (i == 0 ==> !IsSpace(p[0]))
  {
    var t := RoundText(rounds[i]);
    RoundTextEnds(rounds[i]);
    var p := (if i == 0 then "" else " ") + t;
    assert p[|p| - 1] == t[|t| - 1];
    if i == 0 { assert p == t; }
  }

  lemma RoundsTextEnds(rounds: seq<Round>)
    requires |rounds| >= 1
    ensures var j := Join(RoundPieces(rounds), ';'); |j| > 0 && !IsSpace(j[0]) && !IsSpace(j[|j| - 1])
  {
    PieceEnds(rounds, 0);
    PieceEnds(rounds, |rounds| - 1);
    JoinEnds(RoundPieces(rounds), ';');
  }

  /** Every game with a non-negative id and at least one round reads back
      from its text. */
  lemma ParseGameText(g: Game)
    requires g.id >= 0 && |g.rounds| >= 1
    ensures ParseGame(GameText(g)) == Some(g)
  {
    var j := Join(RoundPieces(g.rounds), ';');
    var header := "Game " + Itoa(g.id);
    RoundsReadBack(g.rounds);
    RoundsTextEnds(g.rounds);
    GameIdOfHeader(g.id, " " + j);
    ItoaNoSeparator(g.id, ':');
    JoinTwo(header, " " + j, ':');
    SplitJoin([header, " " + j], ':');
    TrimSpaceOfEnds(j);
    GameOfParts(GameText(g), g.id, " " + j, j, g.rounds);
  }

  lemma GameOfParts(text: string, id: int, after: string, j: string, rounds: seq<Round>)
    requires FindGameId(text) == Some(id)
    requires |Split(text, ':')| >= 2 && Split(text, ':')[1] == after
    requires TrimSpace(after) == j
    requires ReadAll(Split(j, ';'), ReadRound) == Some(rounds)
    ensures ParseGame(text) == Some(Game(id, rounds))
  {
  }

  // ---------------------------------------------------------------------
  // parseInput

  /** One line of the input: blank lines are skipped, any other is a game. */
  function AddGame(games: seq<Game>, line: string): Option<seq<Game>> {
    var cleanLine := TrimSpace(line);
    if cleanLine == "" then Some(games)
    else match ParseGame(cleanLine)
      case None => None
      case Some(g) => Some(games + [g])
  }

  function ParseGames(input: string): Option<seq<Game>> {
    Fold(Split(input, '\n'), [], AddGame)
  }

  method ParseInput(input: string) returns (games: Option<seq<Game>>)
    ensures games == ParseGames(input)
  {
    games := FoldLines(Split(input, '\n'), [], AddGame);
  }

  /** Blank lines add no game and every other line adds one. */
  lemma {:induction false} GamesAtMostLines(lines: seq<string>)
    ensures Fold(lines, [], AddGame).Some? ==> |Fold(lines, [], AddGame).value| <= |lines|
  {
    if lines != [] {
      var n := |lines| - 1;
      GamesAtMostLines(lines[..n]);
      FoldStep(lines, n, [], AddGame);
      assert lines[..n + 1] == lines;
    }
  }

  // ---------------------------------------------------------------------
  // SolvePart1

  /** The sum of the ids of the games possible with the given bag. */
  function PossibleIdSum(games: seq<Game>, red: int, green: int, blue: int): int {
    if games == [] then 0
    else
      var g := games[|games| - 1];
      PossibleIdSum(games[..|games| - 1], red, green, blue) + if GamePossible(g, red, green, blue) then g.id else 0
  }

  function SumIds(games: seq<Game>): int {
    if games == [] then 0 else SumIds(games[..|games| - 1]) + games[|games| - 1].id
  }

  /** With non-negative ids, the sum lies between zero and the sum of all
      ids; it is all of them when every game is possible, and zero when
      none is. */
  lemma {:induction false} PossibleIdSumBounds(games: seq<Game>, red: int, green: int, blue: int)
    requires forall i :: 0 <= i < |games| ==> games[i].id >= 0
    ensures 0 <= PossibleIdSum(games, red, green, blue) <= SumIds(games)
    ensures (forall i :: 0 <= i < |games| ==> GamePossible(games[i], red, green, blue))
      ==> PossibleIdSum(games, red, green, blue) == SumIds(games)
    ensures (forall i :: 0 <= i < |games| ==> !GamePossible(games[i], red, green, blue))
      ==> PossibleIdSum(games, red, green, blue) == 0
  {
    if games != [] {
      var n := |games| - 1;
      assert forall i :: 0 <= i < n ==> games[..n][i] == games[i];
      PossibleIdSumBounds(games[..n], red, green, blue);
    }
  }

  method SumPossibleIds(games: seq<Game>, red: int, green: int, blue: int) returns (sum: int)
    ensures sum == PossibleIdSum(games, red, green, blue)
  {
    sum := 0;
    for i := 0 to |games|
      invariant sum == PossibleIdSum(games[..i], red, green, blue)
    {
      assert games[..i + 1][..i] == games[..i];
      var possible := IsPossible(games[i], red, green, blue);
      if possible {
        sum := sum + games[i].id;
      }
    }
    assert games[..|games|] == games;
  }

  /** SolvePart1: the ids of the games possible with 12 red, 13 green and 14
      blue cubes, summed; None when the input does not parse. */
  method SolvePart1(input: string) returns (answer: Option<string>)
    ensures var games := ParseGames(input);
      && (answer.Some? <==> games.Some?)
      && (answer.Some? ==> answer.value == Itoa(PossibleIdSum(games.value, 12, 13, 14)))
  {
    var games := ParseInput(input);
    if games.None? {
      return None;
    }
    var sum := SumPossibleIds(games.value, 12, 13, 14);
    return Some(Itoa(sum));
  }
}
