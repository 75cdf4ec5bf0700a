# Advent of Code solutions (jhh3/aoc), modelled in Dafny

This project models the puzzle solvers of the `jhh3/aoc` Go repository and
the small `common` package they share. There are 2023 days 1-4 and 6-8, and
2024 days 1-2 and 4-20. Each solver reads the puzzle input as text, parses
it into the puzzle's entities (grids, robots, reports, equations, towels,
hands of cards, …) and computes a part 1 or part 2 answer, which it renders
as a decimal string. The `common` package parses the command-line flags,
builds the cache path and download URL of a day's input, reads the session
cookies, fetches or re-reads the input, and dispatches to the requested
part. It also provides small integer and slice helpers: GCD, LCM, integer
powers, concatenation of numbers, set intersection, insert and remove at an
index.

There is one Dafny module per Go file, named after the package
(`Y2024Day18` for `2024/day18/main.go`, `Utils` for `common/utils.go`).
Two support modules cover what the solvers use from Go's standard library:
`Text` (strings.Split, strings.Fields, strings.TrimSpace, strconv.Atoi and
strconv.Itoa on decimal text) and `LineFold` (the "for each line, parse and
accumulate, stop at the first error" loop that most parsers share).

Modelling conventions:

- Go's `int` is an unbounded `int`. Go's `/` and `%` truncate towards zero.
  They are written as `GoMath.TDiv` and `GoMath.TMod` wherever an operand
  can be negative.
- A panic becomes an error value (`None`, `Crashed`, `Failed`) when an input
  can cause it, for example `MustAtoi` on text that is not a number. It
  becomes a precondition when it is an index error that the solver's own
  callers already rule out.
- Several Go loops need not terminate: the guard walk, the 3-bit computer
  and the 2023 ghost walk. These loops take a `fuel` bound, and running out
  of fuel is a separate outcome.
- A grid that Go mutates in place is a class whose `seq<seq<char>>` field is
  reassigned cell by cell. The disk compactor keeps an `array`, because it
  swaps blocks in place.
- Answers are stated twice. A method or function computes the answer the
  way the Go loop does. A separate definition (a shortest-path predicate, a
  set of antinodes, the multiset of distances, and so on) says what that
  answer means, and lemmas connect the two.

## Model

| member | source | states |
|---|---|---|
| GoMath.AbsInt | common/math.go:3-8 | the result is non-negative and is either n or -n |
| GoMath.NumDigits | common/math.go:10-17 | the division loop returns the number of decimal digits of abs(n), and 0 for n = 0, including for negative n with Go's truncating division |
| GoMath.DigitCountBounds | common/math.go:10-17 | the digit count d of a positive n satisfies 10^(d-1) <= n < 10^d |
| GoMath.TDiv | common/math.go:13 | Go's truncating division: abs(q) = abs(n) div abs(d), and a non-zero quotient is positive exactly when n and d have the same sign |
| GoMath.TMod | common/utils.go:42 | Go's remainder: n == d*TDiv(n,d) + r, abs(r) < abs(d), and a non-zero r has the sign of n |
| GoMath.TruncatedDivision | common/utils.go:42 | the truncating remainder is the Euclidean remainder of abs(n) with the sign of n |
| GoMath.TDivMatchesEuclid | common/math.go:13 | for n >= 0 and d > 0, Go's / and % agree with Dafny's |
| GoMath.NormalisedMod | 2024/day14/main.go:82-94 | the Go idiom "((n % d) + d when negative)" equals the Euclidean n mod d |
| GoMath.PowAdd | common/utils.go:73-83 | b^(e1+e2) = b^e1 * b^e2, the identity the squaring loop relies on |
| Utils.SetIntersection | common/utils.go:16-36 | the counting loop returns Collected(pS, len(pS)): per slice, the first occurrence of each value bumps its counter, and a value is appended when its counter reaches len(pS) |
| Utils.SetIntersectionMembers | common/utils.go:16-36 | the result has no repeated value and holds exactly the values found in every slice, provided there are at least two slices; with fewer than two it is empty, because a value's first occurrence never compares its counter |
| Utils.CollectedLastMember | common/utils.go:16-36 | x is returned iff there are at least two slices and x occurs in each of them |
| Utils.CollectedLastNoDuplicates | common/utils.go:16-36 | no value is returned twice |
| Utils.GCD | common/utils.go:39-46 | Euclid's loop with Go's remainder returns Gcd(a, b) |
| Utils.GcdIsGreatestCommonDivisor | common/utils.go:39-46 | Gcd(a, b) divides a and b, and every common divisor of a and b divides it |
| Utils.GcdZero | common/utils.go:39-46 | Gcd(a, b) is 0 exactly when a and b are both 0 |
| Utils.GcdNonNegative | common/utils.go:39-46 | for non-negative arguments the result is non-negative |
| Utils.LCM | common/utils.go:49-57 | returns LcmFold(Lcm(a, b), integers): a*b/GCD(a,b), folded left to right over the extra arguments; None marks the division by zero that Go panics on |
| Utils.LcmCommonMultiple | common/utils.go:49-57 | Lcm fails exactly when both arguments are 0; for positive a and b it is a positive common multiple no larger than a*b |
| Utils.LcmOfPositives | common/utils.go:49-57 | for positive a and b, Lcm(a, b) = a*kb = b*ka, where a = g*ka, b = g*kb and g = Gcd(a, b) > 0 |
| Utils.LcmFoldCommonMultiple | common/utils.go:49-57 | folding LCM over positive numbers succeeds with a positive multiple of the first argument and of every further one |
| Utils.IntPow | common/utils.go:73-83 | exponentiation by squaring returns base^exp for exp > 0 and 1 for exp <= 0 |
| Utils.RemoveIndex | common/utils.go:60-62 | the result is one shorter, keeps the elements before i and shifts those after i down by one |
| Utils.Insert | common/utils.go:65-70 | the result is one longer, holds element at index, and keeps the elements before it and shifts the rest up by one |
| Utils.InsertRemoveInverse | common/utils.go:60-70 | inserting the removed element at its index restores the slice, and removing an inserted element restores it too |
| Utils.InsertMultiset | common/utils.go:65-70 | Insert adds exactly one occurrence of element and changes nothing else |
| Utils.ConcatIntsValue | common/utils.go:86-89 | for a, b >= 0, concatenating the decimal texts gives a*10^digits(b) + b |
| Utils.ConcatIntsNegative | common/utils.go:86-89 | a negative b puts a '-' in the middle of the text, so MustAtoi fails (None) |
| Text.AtoiItoa | common/utils.go:10-14 | the decimal text of every integer parses back to it |
| Text.JoinSplit | common/problemsolver.go:142-146 | splitting on a separator and joining with it restores the text |
| Text.SplitJoin | common/problemsolver.go:142-146 | splitting a join of separator-free parts returns those parts |
| Text.FieldsOfJoin | 2024/day01/main.go:84-90 | strings.Fields of non-empty space-free words joined by blanks returns those words |
| Flags.SolverFlags | common/flags.go:12-28 | the parsed part is the -part value, or 1 when the flag is absent |
| Flags.InputGetterFlagsOf | common/flags.go:43-65 | each field is its flag's value, or its default (2023, 1, "cookie.txt", the site's base URL) when the flag is absent |
| Flags.Pad2 | common/flags.go:77-80 | the %02d rendering of a day d >= 0 has at least two characters and reads back as d |
| Flags.CacheKeyInjective | common/flags.go:77-80 | two non-negative days give the same cache path "year/dd/input.txt" exactly when year and day are equal |
| Flags.InputUrlDeterminesPuzzle | common/flags.go:73-75 | the URL starts with the base URL and a slash, and with the base URL fixed it determines year and day |
| Harness.ReadCookies | common/problemsolver.go:136-157 | a missing file is an error with no cookies; otherwise the cookies are, in order, the 6th and 7th fields of every line with exactly seven tab-separated fields |
| Harness.CookiesOfQualifying | common/problemsolver.go:145-154 | there is one cookie per qualifying line, and every cookie comes from some line |
| Harness.CookieOfFields | common/problemsolver.go:146-152 | a line of seven tab-free fields yields the cookie named by field 6 with value field 7 |
| Harness.NoCookieOfOtherFields | common/problemsolver.go:147 | a line with any other number of fields yields no cookie |
| Harness.ProblemReader.GetInput | common/problemsolver.go:82-99 | a cached file is returned without a request; otherwise exactly one request is made to the input URL, a failure returns "" with the error and leaves the files alone, and a success is cached (when the write works) and returned |
| Harness.NewProblemReader | common/problemsolver.go:70-74 | a reader is created exactly when the cookie file exists, starting with no requests and the cookies read from that file; otherwise the result is the file error |
| Harness.CacheHitMakesNoRequest | common/problemsolver.go:84-87 | a cache hit returns the cached text and changes nothing |
| Harness.SecondReadHitsCache | common/problemsolver.go:82-99 | after a successful, cached fetch, a second read returns the same text with no request; a read makes at most one request, and none exactly when the input is cached |
| Harness.Dispatch | common/problemsolver.go:47-51 | part 1 runs exactly when Part == 1, and any other value runs part 2 |
| Harness.Run | common/problemsolver.go:41-53 | the input is read as GetInput reads it; a read error ends the run, and otherwise the dispatched part's answer is the result |
| Text.NatToString | 2024/day17/main.go:42 | strconv.Itoa of a natural number is a non-empty digit text, one digit exactly below 10 and without a leading zero from 10 on |
| Text.ItoaInjective | 2024/day17/main.go:42 | different numbers print differently |
| Text.Split | 2024/day17/main.go:222 | strings.Split on one separator gives at least one piece and no piece holds the separator |
| Text.SplitOn | 2024/day13/main.go:155 | strings.Split on a longer separator gives at least one piece |
| Text.Fields | 2024/day01/main.go:85 | strings.Fields gives non-empty pieces without white space |
| Text.TrimLeft | 2024/day01/main.go:80 | the left half of strings.TrimSpace leaves no leading white space and never grows the text |
| Text.TrimLeftSuffix | 2024/day01/main.go:80 | what is left is a suffix of the text |
| Text.TrimRight | 2024/day01/main.go:80 | the right half of strings.TrimSpace leaves no trailing white space and never grows the text |
| Text.TrimRightPrefix | 2024/day01/main.go:80 | what is left is a prefix of the text |
| Text.TrimSpaceShape | 2024/day01/main.go:80 | strings.TrimSpace gives a slice of the text that starts after its leading white space |
| Text.TrimPrefix | 2024/day17/main.go:212 | strings.TrimPrefix removes the prefix when the text starts with it, and otherwise returns the text unchanged |
| Text.AtoiAll | 2024/day17/main.go:223-226 | reading every piece as a number keeps their number |
| Text.AtoiAllMeaning | 2024/day17/main.go:223-226 | it succeeds exactly when every piece is a number, and each value is that piece's number |
| Text.ItoaAll | 2024/day17/main.go:38-43 | every number is printed in decimal, in order |
| Text.AtoiAllItoaAll | 2024/day17/main.go:38-43 | printed numbers read back as themselves |
| LineFold.FoldStep | 2024/day01/main.go:84-96 | each pass of a parse loop continues from the lines before, unless they already failed |
| LineFold.FoldFailureSticks | 2024/day01/main.go:86-93 | once a line panics the whole parse fails |
| LineFold.FoldAppend | 2024/day01/main.go:84-96 | parsing two runs of lines is parsing the first and going on with the second |
| LineFold.FoldLines | 2024/day01/main.go:84-96 | the loop gives the fold of the step over the lines |
| LineFold.ReadAllMeaning | 2024/day01/main.go:84-96 | reading one item per line succeeds exactly when every line reads, giving the items in line order |
| LineFold.ReadAllOf | 2024/day01/main.go:84-96 | lines that read as given items give those items |
| LineFold.SkipBlankReadAll | 2023/day04/main.go:50-57 | a loop that skips empty lines reads the non-empty lines |
| LineFold.SkipBlankMeaning | 2023/day04/main.go:50-57 | such a loop succeeds exactly when every non-empty line reads |
| Y2023Day01.NewProblemSolver | 2023/day01/main.go:55-62 | the solver keeps part, base URL and cookie path, and builds the input URL "base/year/day/day/input" and the cache path "dir/input-year-day-part.txt" |
| Y2023Day01.CacheKeyInjective | 2023/day01/main.go:57 | for non-negative numbers, two cache paths in one directory are equal exactly when year, day and part are |
| Y2023Day01.InputUrlUnderBase | 2023/day01/main.go:56 | the input URL lies under the base URL |
| Y2023Day01.Solve | 2023/day01/main.go:64-70 | part 1 sums the lines' calibration values, and every other part returns the fixed text of SolvePart2 |
| Y2023Day01.LineValue | 2023/day01/main.go:88-104 | a line has a value exactly when it holds a digit |
| Y2023Day01.LineValueBounds | 2023/day01/main.go:88-104 | a calibration value lies in 0..99, and a line with a single digit d is worth 11*d |
| Y2023Day01.DigitsOfSkips | 2023/day01/main.go:90-100 | a non-digit anywhere in a line does not change its calibration value |
| Y2023Day01.AtoiTwoDigits | 2023/day01/main.go:103 | two digit characters parse as 10*first + last, and the zero rune left by a digitless line makes Atoi fail |
| Y2023Day01.CalibrationValue | 2023/day01/main.go:88-104 | the first/last digit scan returns LineValue: 10 * first digit + last digit, and None when the line has no digit |
| Y2023Day01.Contribution | 2023/day01/main.go:81-106 | a line adds 0 when blank after trimming, and otherwise a value in 0..99 |
| Y2023Day01.SumWithAppend | 2023/day01/main.go:81-107 | the sum over a concatenation of lines is the sum of the sums of its parts |
| Y2023Day01.SumValuesBound | 2023/day01/main.go:81-107 | the sum is between 0 and 99 times the number of lines |
| Y2023Day01.SumWithFailureSticks | 2023/day01/main.go:103-104 | once a line without digits is met the whole answer fails (Go panics) |
| Y2023Day01.SumCalibrationValues | 2023/day01/main.go:78-107 | the loop over the lines returns the sum of their contributions, or None once one fails |
| Y2023Day01.SolvePart1 | 2023/day01/main.go:72-110 | the answer is the decimal text of the sum of the calibration values of the lines of the input |
| Y2023Day02.IsPossible | 2023/day02/main.go:57-80 | the round loop returns GamePossible: every round fits within the given red, green and blue counts; a game without rounds is possible |
| Y2023Day02.PossibleIffAboveEveryRound | 2023/day02/main.go:57-80 | a game is possible iff every round's red, green and blue counts are at most the limits |
| Y2023Day02.PossibleWithMore | 2023/day02/main.go:73-80 | a game possible with some cube counts stays possible with more of each colour |
| Y2023Day02.SetColour | 2023/day02/main.go:127-136 | setting a colour succeeds exactly for "blue", "red" and "green"; any other colour is the panic |
| Y2023Day02.SetColourKeepsOthers | 2023/day02/main.go:127-136 | the named colour takes the quantity, and the other two keep their values |
| Y2023Day02.LastQuantityWins | 2023/day02/main.go:127-136 | when a colour is mentioned twice in a round, the later quantity overwrites the earlier one |
| Y2023Day02.ParseRound | 2023/day02/main.go:118-140 | the block loop returns RoundOf(input): each comma-separated "quantity colour" block, trimmed, sets its colour, starting from zero |
| Y2023Day02.UnmentionedColoursAreZero | 2023/day02/main.go:119-139 | a round naming one colour leaves the other two at zero |
| Y2023Day02.UnknownColourFails | 2023/day02/main.go:134-135 | a block with an unknown colour makes the round fail |
| Y2023Day02.RoundOfRoundText | 2023/day02/main.go:118-140 | the round text "b blue, r red, g green" reads back as the same round |
| Y2023Day02.FindGameId | 2023/day02/main.go:49 | the id of the leftmost match of `Game (\d+):` is a non-negative number; no match is the nil-index panic (None) |
| Y2023Day02.GameIdOfHeader | 2023/day02/main.go:49 | a line starting "Game <id>:" has that id |
| Y2023Day02.ParseGameLine | 2023/day02/main.go:98-116 | the line parser returns ParseGame: the id from the header, and one round per ';'-separated piece after the first colon |
| Y2023Day02.ParseGameRounds | 2023/day02/main.go:105-110 | a parsed game has one round per ';'-separated piece, and each round is that piece read as a round |
| Y2023Day02.ParseGameText | 2023/day02/main.go:98-116 | rendering a game with at least one round as "Game id: round; round" and parsing it returns the game |
| Y2023Day02.ParseInput | 2023/day02/main.go:82-96 | the line loop returns ParseGames: the games of the non-blank trimmed lines, in order, or None if one fails |
| Y2023Day02.GamesAtMostLines | 2023/day02/main.go:82-96 | there are at most as many games as lines |
| Y2023Day02.SumPossibleIds | 2023/day02/main.go:23-29 | the loop returns PossibleIdSum: the sum of the ids of the possible games |
| Y2023Day02.PossibleIdSumBounds | 2023/day02/main.go:23-29 | for non-negative ids the sum lies between 0 and the sum of all ids, equals that sum when all games are possible, and is 0 when none is |
| Y2023Day02.SolvePart1 | 2023/day02/main.go:21-32 | the answer exists exactly when the input parses, and is the sum of the ids of the games possible with 12 red, 13 green and 14 blue |
| Y2023Day03.IsSpecialChar | 2023/day03/main.go:174-184 | the search of the symbol list returns Special(c) |
| Y2023Day03.SpecialCharsListed | 2023/day03/main.go:174 | the symbols are exactly # ~ \| * / % $ = @ & - +; '.', digits and letters are not symbols |
| Y2023Day03.FirstMatchCell | 2023/day03/main.go:136-150 | a match found by the neighbourhood scan is an in-bounds cell that passes the symbol test |
| Y2023Day03.OkayMeaning | 2023/day03/main.go:136-150 | IsOkay holds iff some in-bounds cell among the 3x3 block around (r, c) passes the symbol test |
| Y2023Day03.OkayKeyMeaning | 2023/day03/main.go:152-166 | GetOkayKey is non-empty exactly when IsOkay holds, and the cell it names is the first match in row-major order |
| Y2023Day03.KeyOf | 2023/day03/main.go:161-165 | the key is "" exactly when no cell matched |
| Y2023Day03.ScanRow | 2023/day03/main.go:138-147 | the inner column loop finds the first match in its row of the block, or continues the scan into the following rows |
| Y2023Day03.ScanBlock | 2023/day03/main.go:137-149 | the nested loops return the first match of the 3x3 block in row-major order |
| Y2023Day03.IsOkay | 2023/day03/main.go:136-150 | returns Okay(grid, r, c, check) |
| Y2023Day03.GetOkayKey | 2023/day03/main.go:152-166 | returns "row,col" of the first matching cell, or "" when none matches |
| Y2023Day03.ParseGrid | 2023/day03/main.go:190-201 | a parsed grid has one row fewer than the input has lines |
| Y2023Day03.Trimmed | 2023/day03/main.go:190-201 | row i is line i trimmed, for every line but the last; a blank line leaves an empty row |
| Y2023Day03.TrimRows | 2023/day03/main.go:192-200 | the filling loop returns RowsOf(lines): a last line that is not blank writes past the end of the rows (None) |
| Y2023Day03.ParseInput | 2023/day03/main.go:190-201 | returns ParseGrid(input) |
| Y2023Day03.ParseGridOfRows | 2023/day03/main.go:190-201 | rows without surrounding blanks, written one per line with a final newline, parse back to themselves |
| Y2023Day03.RunStart | 2023/day03/main.go:38-40 | the digit run ending before column j starts at st: line[st..j] is all digits and the character before st is not a digit |
| Y2023Day03.RunOkayStep | 2023/day03/main.go:41 | a run touches a symbol when its earlier digits do or its newest digit does, the `currentNumberOkay \|\| IsOkay` update |
| Y2023Day03.RunReads | 2023/day03/main.go:46-58 | MustAtoi on a digit run returns its decimal value and never fails |
| Y2023Day03.SumPartNumbers | 2023/day03/main.go:29-66 | the row and column scan returns GridSum: the sum of every maximal digit run that has a symbol in the 3x3 block of one of its digits, including runs at the end of a row |
| Y2023Day03.SolvePart1 | 2023/day03/main.go:27-69 | None when parsing fails, and otherwise the decimal text of the sum of the part numbers |
| Y2023Day03.NoSymbolNoParts | 2023/day03/main.go:29-66 | a grid without symbols has part-number sum 0 |
| Y2023Day03.RunGearKeyEmpty | 2023/day03/main.go:85-87 | a run gets no gear key exactly when none of its digits has a '*' in its 3x3 block |
| Y2023Day03.RunGearKeyFirst | 2023/day03/main.go:85-87 | a run's gear key is the key found at its first digit that touches a '*', later digits not changing it |
| Y2023Day03.GroupMeaning | 2023/day03/main.go:93-96 | the gear map holds exactly the keys with at least one number, each with all its numbers in scan order |
| Y2023Day03.MapTotalRemove | 2023/day03/main.go:123-127 | the sum of the ratios does not depend on the order in which the map is visited |
| Y2023Day03.AppendValue | 2023/day03/main.go:93-96 | appends val to the list of key, creating an empty list first |
| Y2023Day03.BuildGearMap | 2023/day03/main.go:74-120 | the scan returns the gear map of the grid's attachments: each digit run with a gear key adds its value under that key |
| Y2023Day03.SumRatios | 2023/day03/main.go:122-127 | the loop over the map sums values[0]*values[1] over the keys with exactly two numbers |
| Y2023Day03.SolvePart2 | 2023/day03/main.go:71-130 | None when parsing fails, and otherwise the decimal text of the sum of the ratios of the gear map |
| Y2023Day04.MustStringToInts | 2023/day04/main.go:77-87 | the loop returns StringToInts: the numbers of the non-blank pieces between separators, in order, or None when one does not parse |
| Y2023Day04.BlankPieceSkipped | 2023/day04/main.go:80-83 | a blank piece (two adjacent spaces) contributes nothing |
| Y2023Day04.StringToIntsRender | 2023/day04/main.go:77-87 | numbers written with single spaces read back as the same numbers |
| Y2023Day04.FindCardId | 2023/day04/main.go:39 | the id captured by the leftmost match of `Card\s+(\d+):` is a non-empty run of digits; no match is the nil-index panic (None) |
| Y2023Day04.CardHeader | 2023/day04/main.go:39 | a line starting "Card <digits>:" has those digits as its id |
| Y2023Day04.ParseCardText | 2023/day04/main.go:61-74 | a card with a digit id written "Card id: yours \| winning" parses back to the same card |
| Y2023Day04.NoHeaderNoCard | 2023/day04/main.go:62 | a line without the header is not a card |
| Y2023Day04.ParseInput | 2023/day04/main.go:47-59 | returns ParseCards(input): one card per line that is not blank, blank lines skipped |
| Y2023Day04.CardsOfLines | 2023/day04/main.go:47-59 | parsing fails exactly when a non-blank line is not a card, and otherwise reads each non-blank line in order |
| Y2023Day04.ScoreMeaning | 2023/day04/main.go:23-27 | a card's score is 2^(k-1) for its k distinct numbers found on both lists, and 0 for none |
| Y2023Day04.PointsDouble | 2023/day04/main.go:27 | each extra matching number doubles the score |
| Y2023Day04.SumScores | 2023/day04/main.go:20-28 | the loop returns the sum of the cards' scores |
| Y2023Day04.SolvePart1 | 2023/day04/main.go:18-31 | None when parsing fails, and otherwise the decimal text of the total score |
| Y2023Day06.CalculateNumberOfWaysToWin | 2023/day06/main.go:50-60 | the loop over hold times 1..time returns Ways(rt), the number of hold times s with s*(time-s) > distance |
| Y2023Day06.WaysMeaning | 2023/day06/main.go:50-60 | the count equals the size of the set of winning hold times in 1..time |
| Y2023Day06.CountWinsBound | 2023/day06/main.go:52-58 | there are at most n winning hold times among 1..n, and none for n < 0 |
| Y2023Day06.WinsShape | 2023/day06/main.go:53-55 | holding s wins iff holding time-s wins, and with a non-negative record holding for the whole race never wins |
| Y2023Day06.CountWinsMirror | 2023/day06/main.go:52-58 | counting up from 1 gives the same number as counting the mirrored hold times down from time-1 |
| Y2023Day06.MultiplyWays | 2023/day06/main.go:28-32 | the loop returns the product of the races' numbers of ways, 1 for no races |
| Y2023Day06.ProductZero | 2023/day06/main.go:28-32 | the product is non-negative, and zero exactly when some race cannot be won |
| Y2023Day06.SolvePart1 | 2023/day06/main.go:27-35 | None when parsing fails, and otherwise the decimal text of the product |
| Y2023Day06.ParseInput | 2023/day06/main.go:72-91 | returns ParseRaces(input): the first two lines with every run of \s collapsed to one space and split on spaces; piece i >= 1 of the times pairs with piece i of the distances; None for fewer than two lines, a non-number or a missing distance |
| Y2023Day06.ReadRacesMeaning | 2023/day06/main.go:79-88 | a parsed list has one race per piece after the title, and race i is (piece i+1 of the times, piece i+1 of the distances) |
| Y2023Day06.ReadRacesFailureSticks | 2023/day06/main.go:85-86 | once a piece fails to parse, the whole parse fails |
| Y2023Day06.CollapseWords | 2023/day06/main.go:70-76 | collapsing whitespace leaves words separated by single spaces unchanged |
| Y2023Day06.ParseRacesText | 2023/day06/main.go:72-91 | a "Time: t1 t2 …" line and a "Distance: d1 d2 …" line parse back to the races |
| Y2023Day07.Ordinal | 2023/day07/main.go:57-67 | the iota constants run from 0 (five of a kind) to 6 (high card) |
| Y2023Day07.OrdinalInjective | 2023/day07/main.go:57-67 | distinct hand types have distinct constants |
| Y2023Day07.CardValueMeaning | 2023/day07/main.go:126-140 | a card has a value exactly when it is one of A K Q J T or a digit; a digit is worth itself, and every value lies in 0..14 |
| Y2023Day07.CardValueInjective | 2023/day07/main.go:126-140 | two cards with a value and the same value are the same card |
| Y2023Day07.ValuesMeaning | 2023/day07/main.go:126-141 | the card values exist exactly when every card has a value, and then they list the cards' values in order |
| Y2023Day07.ValuesInjective | 2023/day07/main.go:126-141 | two card strings with the same values are equal |
| Y2023Day07.CardValues | 2023/day07/main.go:125-141 | the loop returns Values(cardStr); a card without a value is MustAtoi's panic (None) |
| Y2023Day07.ValuesFailureSticks | 2023/day07/main.go:139 | once a card has no value, the whole hand fails |
| Y2023Day07.ValCountsMeaning | 2023/day07/main.go:144-147 | valCountMap maps each value of the hand to its number of occurrences, and holds no other key |
| Y2023Day07.CountValues | 2023/day07/main.go:144-147 | the loop returns ValCounts(values) |
| Y2023Day07.CountCounts | 2023/day07/main.go:148-151 | countMap[k] (0 when absent) is the number of values that occur exactly k times |
| Y2023Day07.NumWithBound | 2023/day07/main.go:148-151 | no count is shared by more values than there are distinct values |
| Y2023Day07.WeightIsLength | 2023/day07/main.go:144-151 | each value occurs between 1 and len(values) times, and the occurrence counts add up to the number of cards |
| Y2023Day07.ClassifyCounts | 2023/day07/main.go:153-172 | for counts-of-counts that weigh five cards, the ifs give five of a kind iff one value occurs 5 times, four of a kind iff one occurs 4 times, a full house iff one triple and one pair, three of a kind iff a triple and no pair, two pairs iff two pairs, one pair iff one pair and no triple, and high card iff five singles |
| Y2023Day07.TypeOfFiveCards | 2023/day07/main.go:143-172 | the type of a five-card hand is its poker category, as in ClassifyCounts |
| Y2023Day07.HandOf | 2023/day07/main.go:122-180 | a parsed hand's values are those of its trimmed first piece, and its type is the classification of those values |
| Y2023Day07.ParseHandLine | 2023/day07/main.go:122-180 | returns ParseHand(line): None for a card without a value, a missing second piece or a bid that is not a number |
| Y2023Day07.ParseHandText | 2023/day07/main.go:122-180 | "cards bid", with cards from A K Q J T and the digits, parses to the hand with those cards, their values, the bid and its type |
| Y2023Day07.ParseCamelCardInput | 2023/day07/main.go:108-120 | returns ParseHands(input): one hand per line, blank lines included, or None when one fails |
| Y2023Day07.ParseHandsOfLines | 2023/day07/main.go:108-120 | lines joined by newlines read as the hands of the lines, in order |
| Y2023Day07.CompareHands | 2023/day07/main.go:76-99 | the comparison loop returns Compare(h, other): a smaller type constant is stronger (1), and the same type compares card values left to right; None is the index panic |
| Y2023Day07.LexCompareZero | 2023/day07/main.go:76-99 | the lexicographic comparison is 0 exactly for equal sequences |
| Y2023Day07.LexCompareAntisymmetric | 2023/day07/main.go:76-99 | swapping the arguments negates the comparison |
| Y2023Day07.LexCompareTransitive | 2023/day07/main.go:76-99 | a <= b and b <= c give a <= c |
| Y2023Day07.CompareIsLex | 2023/day07/main.go:76-99 | for hands of the same size, Compare is the lexicographic order on (strength of type, card values) |
| Y2023Day07.ComparePanics | 2023/day07/main.go:79-80 | Compare panics exactly when the types are equal and the other hand has fewer cards |
| Y2023Day07.CompareReflexive | 2023/day07/main.go:76-99 | a hand compares equal to itself |
| Y2023Day07.CompareAntisymmetric | 2023/day07/main.go:76-99 | for hands of the same size, Compare(other, h) = -Compare(h, other), and it is 0 exactly for the same type and values |
| Y2023Day07.CompareTransitive | 2023/day07/main.go:76-99 | for hands of the same size, a <= b and b <= c give a <= c |
| Y2023Day07.SortHandsSorted | 2023/day07/main.go:37-39 | the sorted hands are in ascending order of strength and are a permutation of the input |
| Y2023Day07.SortedForSortSlice | 2023/day07/main.go:37-39 | in that order no hand is less, by the sort.Slice callback, than a hand before it |
| Y2023Day07.SortedUnique | 2023/day07/main.go:37-39 | when no two different hands share type and values, every ascending permutation is the same sequence, so the winnings do not depend on the sort |
| Y2023Day07.WinningsBid | 2023/day07/main.go:41-44 | raising the bid of the hand at rank i+1 by x raises the winnings by x*(i+1) |
| Y2023Day07.SumWinnings | 2023/day07/main.go:41-44 | the loop returns the sum of bid * rank, with ranks counted from 1 |
| Y2023Day07.SolvePart1 | 2023/day07/main.go:33-47 | None when parsing fails or hands differ in size, and otherwise the decimal text of the winnings of the sorted hands |
| Y2023Day08.Go | 2023/day08/main.go:65-70 | instruction "L" takes the left neighbour, and any other instruction the right one |
| Y2023Day08.UpperRun | 2023/day08/main.go:102 | the `[A-Z]+` group at the start of a text is its maximal run of capitals |
| Y2023Day08.FindFirstNone | 2023/day08/main.go:107 | FindStringSubmatch fails only when no position of the line starts a match |
| Y2023Day08.FindFirstLeftmost | 2023/day08/main.go:107 | the match found is the one at the leftmost position that matches |
| Y2023Day08.ParseNodeMeaning | 2023/day08/main.go:104-113 | parseNode fails (the nil-index panic) exactly when no position matches `([A-Z]+) = \(([A-Z]+), ([A-Z]+)\)`, and otherwise returns the leftmost match's three names |
| Y2023Day08.MatchNames | 2023/day08/main.go:102 | the three captured names are non-empty runs of capitals |
| Y2023Day08.ParseNodeText | 2023/day08/main.go:104-113 | a node with capital-letter names written "V = (L, R)" parses back to itself |
| Y2023Day08.CleanLines | 2023/day08/main.go:83-85 | line i, trimmed, for every line |
| Y2023Day08.ParseInput | 2023/day08/main.go:78-100 | the line loop returns ParseInputSpec(input): blank lines skipped, line 0 the instructions, every later line a node stored under its name |
| Y2023Day08.ParsedFailureSticks | 2023/day08/main.go:95 | once a node line fails to match, parsing fails |
| Y2023Day08.ParseInputMeaning | 2023/day08/main.go:78-100 | parsing fails exactly when a non-blank line after the first does not match; otherwise the instructions are the trimmed first line, and each name maps to the node of the last line defining it |
| Y2023Day08.CycleNext | 2023/day08/main.go:33-45 | the instruction index advances by one and wraps to 0 at the end of the instructions |
| Y2023Day08.Pass | 2023/day08/main.go:34-44 | one pass of the inner loop stops at the first step that reaches "ZZZ", and otherwise ends after all instructions at a position other than "ZZZ" |
| Y2023Day08.Walk | 2023/day08/main.go:30-45 | a returned count k >= 1 is the first step at which the walk from "AAA" stands on "ZZZ"; giving up means no step within the given number of passes reaches it |
| Y2023Day08.SolvePart1 | 2023/day08/main.go:27-48 | an answer is the decimal text of the first step count k >= 1 at which the walk from "AAA" reaches "ZZZ" |
| Y2023Day08.ExampleTakesTwoSteps | 2023/day08/main_test.go:25-30 | example: on the puzzle's first example network with instructions RL, the walk first reaches ZZZ after 2 steps |
| Y2024Day01.ParseLines | 2024/day01/main.go:84-96 | two parsed columns are each as long as the list of lines |
| Y2024Day01.ParseLinesMeaning | 2024/day01/main.go:84-96 | parsing succeeds exactly when every line holds exactly two integer fields, and then line i gives (left[i], right[i]) |
| Y2024Day01.ParseLineRender | 2024/day01/main.go:85-95 | the line "l r" reads as the pair (l, r) |
| Y2024Day01.ParseInput | 2024/day01/main.go:79-102 | the loop over the lines of the trimmed input returns ParseLines |
| Y2024Day01.InsertSorted | 2024/day01/main.go:41-42 | inserting into a sorted list keeps it sorted and adds exactly that element |
| Y2024Day01.SortInts | 2024/day01/main.go:41-42 | sort.Ints gives an ascending permutation of its argument |
| Y2024Day01.SortedUnique | 2024/day01/main.go:41-42 | two ascending permutations of the same multiset are equal, so any sort gives the same list |
| Y2024Day01.SortIntsOfPermutation | 2024/day01/main.go:41-42 | permutations of each other sort to the same list |
| Y2024Day01.TotalDistanceIgnoresOrder | 2024/day01/main.go:33-52 | reordering either column does not change the total distance |
| Y2024Day01.PairDistanceZero | 2024/day01/main.go:45-49 | the summed pair distance is zero exactly when the two lists are equal |
| Y2024Day01.SortedDistance | 2024/day01/main.go:37-49 | the copy, sort and pair loop returns TotalDistance: the sum of abs(left - right) over the columns paired by rank |
| Y2024Day01.SolvePart1 | 2024/day01/main.go:33-52 | the answer exists exactly when the input parses, and is the decimal text of the total distance |
| Y2024Day01.SimilarityOfDisjoint | 2024/day01/main.go:64-69 | left ids that never occur on the right contribute nothing |
| Y2024Day01.SimilarityIgnoresLeftOrder | 2024/day01/main.go:64-69 | the similarity does not depend on the order of the left column |
| Y2024Day01.SimilarityRemove | 2024/day01/main.go:64-69 | each left id contributes id * (its number of occurrences on the right) |
| Y2024Day01.CountOccurrences | 2024/day01/main.go:56-62 | the count map gives, for every id (0 when absent), its number of occurrences in the right column |
| Y2024Day01.SimilarityScore | 2024/day01/main.go:64-69 | the loop returns the sum over the left ids of id * occurrences on the right |
| Y2024Day01.SolvePart2 | 2024/day01/main.go:54-72 | the answer exists exactly when the input parses, and is the decimal text of the similarity score |
| Y2024Day02.SafeIsMonotone | 2024/day02/main.go:45-66 | a report is safe iff every step is an increase of 1 to 3, or every step is a decrease of 1 to 3 |
| Y2024Day02.IsReportSafe | 2024/day02/main.go:45-66 | the walk over the levels returns Safe(report): every step has size 1 to 3 and goes the way of the first step |
| Y2024Day02.ParseReportsMeaning | 2024/day02/main.go:77-96 | parsing succeeds exactly when every field of every line is an integer, and report i holds the fields of line i |
| Y2024Day02.AddReportRender | 2024/day02/main.go:84-92 | levels written with single spaces read back as the same report |
| Y2024Day02.ParseInput | 2024/day02/main.go:77-96 | returns ParseReports: one report per line of the trimmed input |
| Y2024Day02.CountSafe | 2024/day02/main.go:36-40 | the count fails exactly when some report has fewer than two levels (the index panic), and is at most the number of reports |
| Y2024Day02.CountSafeExtremes | 2024/day02/main.go:36-40 | all reports safe gives the number of reports, and none safe gives 0 |
| Y2024Day02.CountSafeReports | 2024/day02/main.go:34-40 | the loop returns CountSafe(reports) |
| Y2024Day02.CountSafePrefixFails | 2024/day02/main.go:49-50 | one report with fewer than two levels makes the whole count fail |
| Y2024Day02.SolvePart1 | 2024/day02/main.go:32-43 | the answer exists exactly when parsing and counting succeed, and is the decimal text of the number of safe reports |
| Y2024Day04.E | 2024/day04/main.go:146-156 | true exactly when (row, col) lies in the grid, rows of different lengths included, and holds letter |
| Y2024Day04.Check | 2024/day04/main.go:82-144 | each of the eight Check functions returns 0 or 1 |
| Y2024Day04.CheckMeansXmas | 2024/day04/main.go:82-144 | a Check function returns 1 exactly when the four cells from (row, col) in its direction are in the grid and spell X, M, A, S |
| Y2024Day04.CountAtLocationBounds | 2024/day04/main.go:78-80 | a cell starts between 0 and 8 words, and none unless it holds an X |
| Y2024Day04.CountX | 2024/day04/main.go:66-76 | CountX returns 0 or 1 |
| Y2024Day04.CountXMeaning | 2024/day04/main.go:66-76 | CountX is 1 exactly when both diagonals through the cell have an M at one end and an S at the other |
| Y2024Day04.CountXIgnoresCentre | 2024/day04/main.go:66-76 | the letter at the centre does not affect CountX |
| Y2024Day04.AnswersBounded | 2024/day04/main.go:32-60 | the part 1 count is between 0 and 8 times the number of X's, and the part 2 count is between 0 and the number of A's |
| Y2024Day04.SumAtLetter | 2024/day04/main.go:36-57 | the double loop sums the per-cell count over the cells holding the letter, row by row |
| Y2024Day04.SolvePart1 | 2024/day04/main.go:32-45 | the answer is the decimal text of CountAtLocation summed over the cells holding 'X' |
| Y2024Day04.SolvePart2 | 2024/day04/main.go:47-60 | the answer is the decimal text of CountX summed over the cells holding 'A' |
| Y2024Day04.ParseInput | 2024/day04/main.go:158-172 | the grid has one row per line of the trimmed input, and no row holds a newline |
| Y2024Day05.MarkMeaning | 2024/day05/main.go:97-105 | after the inner loop, x is forbidden iff it was before or it is listed for the page and not yet seen, and then its index is i |
| Y2024Day05.MarksMeaning | 2024/day05/main.go:84-107 | after n pages, x is forbidden iff some page i < n has a rule "x\|page" while x is unseen up to i, and the index kept is the last such i |
| Y2024Day05.CheckFrom | 2024/day05/main.go:87-109 | a valid verdict carries -1/-1, and an invalid one names a page and an earlier page of the order |
| Y2024Day05.CheckFromFirst | 2024/day05/main.go:89-91 | the verdict names the first page that an earlier page forbade |
| Y2024Day05.ValidityOf | 2024/day05/main.go:83-110 | -1/-1 for a valid order; otherwise 0 <= shouldComeBeforePageIndex < invalidPageIndex < len(pages) |
| Y2024Day05.ValidityOfMarked | 2024/day05/main.go:89-91 | for an invalid verdict, the page at invalidPageIndex was forbidden by the page at shouldComeBeforePageIndex |
| Y2024Day05.IsValid | 2024/day05/main.go:83-110 | the loops return ValidityOf(pages, rules) |
| Y2024Day05.MarkedIsViolation | 2024/day05/main.go:97-105 | in an order without repeated pages, being forbidden by page i is exactly a rule "p\|q" with q at i and p after it |
| Y2024Day05.ValidityMeaning | 2024/day05/main.go:83-110 | for an order without repeated pages, IsValid holds iff no rule is violated; otherwise invalidPageIndex is the first page that violates a rule, and shouldComeBeforePageIndex the last earlier page it violates a rule with |
| Y2024Day05.Repair | 2024/day05/main.go:64-72 | a repair keeps the length of the order |
| Y2024Day05.RepairShape | 2024/day05/main.go:64-72 | RemoveIndex then Insert moves the offending page in front of the page it must precede, shifting the pages in between one place right |
| Y2024Day05.RepairPermutes | 2024/day05/main.go:64-72 | a repair keeps the multiset of pages |
| Y2024Day05.RepairNoRepeats | 2024/day05/main.go:64-72 | a repair keeps an order free of repeated pages |
| Y2024Day05.Verdict | 2024/day05/main.go:83-110 | the verdict function agrees with IsValid on every order |
| Y2024Day05.CorrectWith | 2024/day05/main.go:56-75 | a valid order is returned unchanged, and a corrected order has the same length |
| Y2024Day05.CorrectWithPermutes | 2024/day05/main.go:56-75 | a corrected order is a permutation of the input |
| Y2024Day05.CorrectWithAccepted | 2024/day05/main.go:56-75 | a corrected order passes IsValid |
| Y2024Day05.CorrectSpecPermutes | 2024/day05/main.go:56-75 | Correct returns a valid permutation of the order (when it terminates within the fuel) |
| Y2024Day05.Correct | 2024/day05/main.go:56-75 | the recursive method returns CorrectWith: a valid order as it is, otherwise the repaired order corrected again; running out of fuel is None |
| Y2024Day05.ValidityTest | 2024/day05/main.go:124-135 | the filter test is IsValid's verdict |
| Y2024Day05.FilterPartitions | 2024/day05/main.go:121-141 | the valid and the invalid orders together are a permutation of all orders |
| Y2024Day05.Select | 2024/day05/main.go:121-141 | every order picked has the requested validity and comes from the input |
| Y2024Day05.SelectAppend | 2024/day05/main.go:121-141 | selecting from a concatenation concatenates the selections, so input order is kept |
| Y2024Day05.SelectPartitions | 2024/day05/main.go:121-141 | ValidPageOrders and InvalidPageOrders split the orders between them |
| Y2024Day05.SelectOrders | 2024/day05/main.go:121-141 | the loop returns Select(orders, rules, valid) |
| Y2024Day05.AddRule | 2024/day05/main.go:173-177 | rule X\|Y appends X to the list of Y, and leaves the other lists alone |
| Y2024Day05.ParseOneLine | 2024/day05/main.go:151-193 | returns ParseLine: blank lines are skipped, a line with '\|' adds a rule of two numbers, and any other line adds a comma-separated order; None where Go panics |
| Y2024Day05.ParseRuleLine | 2024/day05/main.go:159-177 | the line "X\|Y" adds the rule X\|Y and changes nothing else |
| Y2024Day05.ParseLinesFailureSticks | 2024/day05/main.go:143-197 | once a line fails to parse, the whole input fails |
| Y2024Day05.ParsedOrdersNonEmpty | 2024/day05/main.go:180-191 | every parsed page order has at least one page |
| Y2024Day05.ParseInput | 2024/day05/main.go:143-197 | the loop over the lines of the trimmed input returns ParseLines |
| Y2024Day05.SumMiddlePages | 2024/day05/main.go:35-38 | the loop returns the sum of the middle pages pages[len/2] |
| Y2024Day05.SolvePart1 | 2024/day05/main.go:32-40 | the answer exists exactly when the input parses, and is the decimal text of the sum of the middle pages of the valid orders |
| Y2024Day05.CorrectMiddle | 2024/day05/main.go:46-47 | the middle page of the corrected order |
| Y2024Day05.SumCorrectedPages | 2024/day05/main.go:45-48 | the loop sums the middle pages of the corrected orders, and fails once a correction runs out of fuel |
| Y2024Day05.SolvePart2 | 2024/day05/main.go:42-50 | None when parsing fails; otherwise the answer exists exactly when every invalid order's correction finishes within the fuel, and is the decimal text of the sum of the middle pages of the corrected invalid orders |
| Y2024Day06.NextRowColSteps | 2024/day06/main.go:73-97 | each direction 0..3 steps to an orthogonal neighbour, and turning right keeps the direction in 0..3 and rotates the step clockwise |
| Y2024Day06.Mark | 2024/day06/main.go:57-62 | the guard's cell becomes 'X', every other cell is kept, and the count grows by one exactly when the cell was not already 'X' |
| Y2024Day06.NextMoveMeaning | 2024/day06/main.go:64-79 | the guard leaves when the cell ahead is off the grid; otherwise she keeps the grid and count, turns right exactly when that cell is '#', and moves to the cell ahead in her (new) direction |
| Y2024Day06.RowMarksUpdate | 2024/day06/main.go:59-62 | marking a cell raises the row's count of 'X' by one exactly when it was not 'X' |
| Y2024Day06.MarksUpdate | 2024/day06/main.go:59-62 | replacing one row changes the grid's 'X' count by that row's difference |
| Y2024Day06.MarkCounts | 2024/day06/main.go:57-62 | marking keeps visitedCount minus the number of 'X' cells in the grid |
| Y2024Day06.MarkOnlyMarks | 2024/day06/main.go:57-62 | marking changes no cell except to 'X' and keeps the grid's shape |
| Y2024Day06.WalkOnlyMarks | 2024/day06/main.go:53-83 | a finished walk changes no cell except to 'X' |
| Y2024Day06.WalkEndsAtEdge | 2024/day06/main.go:64-68 | a finished walk ends on a marked cell whose cell ahead is off the grid |
| Y2024Day06.WalkCounts | 2024/day06/main.go:53-83 | a finished walk keeps visitedCount minus the number of 'X' cells, so visitedCount counts exactly the cells marked during the walk |
| Y2024Day06.TurnIsNotChecked | 2024/day06/main.go:70-79 | on the grid ".#." ".^#" "..." the guard turns right onto the second obstacle, marks it, and leaves with two cells marked |
| Y2024Day06.ProblemInput.constructor | 2024/day06/main.go:44-51 | the object holds the given grid, count, direction and position |
| Y2024Day06.ProblemInput.VisitGrid | 2024/day06/main.go:53-83 | the loop ends as the recursive Walk does, and on leaving the grid the object holds Walk's final state |
| Y2024Day06.ScanMeaning | 2024/day06/main.go:120-143 | the scan up to (i, j) yields the last arrow before (i, j) and its direction, or zeros when there is none |
| Y2024Day06.ParseInput | 2024/day06/main.go:113-146 | the grid is the lines of the trimmed input, the count is 0, and the guard starts at the last arrow in row-major order facing its way (0, 0 and up when there is none) |
| Y2024Day06.ScanArrow | 2024/day06/main.go:126-139 | an arrow cell becomes the start, with the direction it points |
| Y2024Day06.ScanOther | 2024/day06/main.go:122-126 | any other cell leaves the start as it was |
| Y2024Day06.ParsedUnique | 2024/day06/main.go:113-146 | parsing determines one guard state |
| Y2024Day06.SingleArrowStart | 2024/day06/main.go:126-139 | a grid with one arrow starts the guard on that arrow, facing its way |
| Y2024Day06.SolvePart1 | 2024/day06/main.go:32-37 | the answer is the decimal count of cells the guard marked when the walk from the parsed state leaves the grid, and None when it panics or exceeds the fuel |
| Y2024Day07.Bit | 2024/day07/main.go:60 | i >> j & 1 is 0 or 1 |
| Y2024Day07.Operators | 2024/day07/main.go:58-61 | mask i picks '*' for operator j exactly when bit j of i is set |
| Y2024Day07.MaskOfOperators | 2024/day07/main.go:55-61 | every choice of operators is the choice of some mask below 1 << numOperators |
| Y2024Day07.MaskOfBit | 2024/day07/main.go:60 | bit j of the mask built from a choice is that choice's operator j |
| Y2024Day07.MasksCoverChoices | 2024/day07/main.go:52-75 | some mask below 1 << numOperators evaluates to the test value iff some choice of + and * does |
| Y2024Day07.SingleNumber | 2024/day07/main.go:52-75 | a one-number equation holds iff that number is the value |
| Y2024Day07.EvaluateStep | 2024/day07/main.go:62-66 | one more number is added, or multiplied when the mask's bit is set, onto the left-to-right result so far |
| Y2024Day07.EvaluateMask | 2024/day07/main.go:57-67 | the inner loop evaluates the numbers left to right under mask i |
| Y2024Day07.HasSolution | 2024/day07/main.go:52-75 | true iff some choice of + and * between the numbers, evaluated left to right, gives the value |
| Y2024Day07.WithSolutionsMembers | 2024/day07/main.go:81-89 | the filtered list holds exactly the solvable equations of the input and is no longer than it |
| Y2024Day07.EquationsWithSolutions | 2024/day07/main.go:81-89 | the loop keeps the solvable equations in input order |
| Y2024Day07.SumOfValues | 2024/day07/main.go:35-38 | the loop sums the test values |
| Y2024Day07.SolvePart1 | 2024/day07/main.go:32-40 | an answer exists iff the input parses and every equation has a number; it is the decimal sum of the values of the solvable equations |
| Y2024Day07.EveryEquationHasNumbers | 2024/day07/main.go:54-57 | true iff no equation is empty (an empty one panics at the shift and at Numbers[0]) |
| Y2024Day07.ParseEquationRender | 2024/day07/main.go:105-127 | an equation written as "value: n1 n2 ..." parses back to itself |
| Y2024Day07.ParseEquationOfParts | 2024/day07/main.go:105-127 | a line split at its one ':' into a value and white-space separated numbers parses to that equation |
| Y2024Day07.ColonSplit | 2024/day07/main.go:107 | splitting "value: rest" at ':' gives the value and " rest" when neither holds a ':' |
| Y2024Day07.RenderedNumbers | 2024/day07/main.go:116-121 | joined decimal numbers hold no ':' and read back through Fields and Atoi |
| Y2024Day07.ParseInput | 2024/day07/main.go:91-103 | the loop parses every line of the trimmed input, failing when one line fails |
| Y2024Day08.ElementsMeaning | 2024/day08/main.go:63-65 | a point is among a location list's elements iff it is at some index of the list |
| Y2024Day08.RowMarksUpdate | 2024/day08/main.go:80-83 | turning a '.' into '#' raises the row's '#' count by one |
| Y2024Day08.MarksUpdate | 2024/day08/main.go:80-83 | replacing one row changes the grid's '#' count by that row's difference |
| Y2024Day08.MarkStep | 2024/day08/main.go:79-84 | marking a grid point keeps "cur is base with exactly the points of s marked", now for s plus that point |
| Y2024Day08.SkipOutside | 2024/day08/main.go:79 | a point off the grid changes nothing and may be added to the marked set |
| Y2024Day08.AnnotatedBlank | 2024/day08/main.go:166-176 | on a blank grid, a cell is '#' iff its point was marked |
| Y2024Day08.PairsRowSound | 2024/day08/main.go:65-86 | every point the inner loop over second antennas marks comes from a pair with an earlier antenna of the list |
| Y2024Day08.PairsRowComplete | 2024/day08/main.go:65-86 | every point of a pair with an antenna of the list is marked by the inner loop |
| Y2024Day08.PairsRowsSound | 2024/day08/main.go:64-87 | every point the two loops mark comes from a pair of antennas of the list |
| Y2024Day08.PairsRowsComplete | 2024/day08/main.go:64-87 | every point of every pair of the list is marked |
| Y2024Day08.AllPairsMeaning | 2024/day08/main.go:63-88 | the points of the whole map are those of the pairs of antennas of one frequency |
| Y2024Day08.AllPairsAdd | 2024/day08/main.go:63 | handling one more frequency adds its pairs' points, so the order of the map range does not matter |
| Y2024Day08.Part1Antinodes | 2024/day08/main.go:59-91 | part 1 marks exactly the points second + (second - first) of two distinct antennas of one frequency |
| Y2024Day08.RayStep | 2024/day08/main.go:119-131 | a ray from a grid point continues from the next point to the same end |
| Y2024Day08.RayCellsElements | 2024/day08/main.go:119-131 | the set of ray cells is the set of the ray's points |
| Y2024Day08.Part2Parts | 2024/day08/main.go:109-131 | the first antenna, the backward ray from it and the forward ray from where that ray stopped make up the pair's part 2 points |
| Y2024Day08.RayPoints | 2024/day08/main.go:119-131 | point i of a ray is i + 1 steps from the start, and lies on the grid |
| Y2024Day08.RayStops | 2024/day08/main.go:121-123 | the step after a ray's end is off the grid, and the end is the last point reached |
| Y2024Day08.Convex | 2024/day08/main.go:140-142 | on a rectangular grid, a point between two grid points of a line is on the grid |
| Y2024Day08.RayOnRectangle | 2024/day08/main.go:119-131 | on a rectangular grid, the point k >= 1 steps along lies on the grid iff k is at most the ray's length |
| Y2024Day08.MidPoint | 2024/day08/main.go:117-131 | the backward ray leaves lastAntinode at the far end of the line on the grid, and the forward walk starts there |
| Y2024Day08.RayCellOnLine | 2024/day08/main.go:119-131 | every ray cell is on the grid and a positive number of steps along |
| Y2024Day08.RayCellComplete | 2024/day08/main.go:119-131 | on a rectangular grid every grid point a positive number of steps along is a ray cell |
| Y2024Day08.LineSound | 2024/day08/main.go:109-131 | every point part 2 marks for a pair is on the grid and on the line through the antennas |
| Y2024Day08.LineComplete | 2024/day08/main.go:109-131 | on a rectangular grid, every grid point of that line is marked |
| Y2024Day08.Part2Line | 2024/day08/main.go:93-138 | on a rectangular grid, part 2 marks for a pair exactly the grid points k * (second - first) away from the first antenna, for any integer k |
| Y2024Day08.Mark | 2024/day08/main.go:80-128 | the marking step keeps the antinode grid equal to the base with the marked set added, and the count equal to the '#' cells added |
| Y2024Day08.Part1Frequency | 2024/day08/main.go:64-87 | the loops over one frequency's antennas add the points of all its pairs |
| Y2024Day08.MarkPair | 2024/day08/main.go:67-85 | one pair adds its two part 1 points (those on the grid) |
| Y2024Day08.MarkIfInside | 2024/day08/main.go:79-84 | a candidate point is added; only a grid point changes a cell |
| Y2024Day08.Part2Frequency | 2024/day08/main.go:98-134 | the loops over one frequency's antennas add the part 2 points of all its pairs |
| Y2024Day08.Part2Row | 2024/day08/main.go:99-133 | the inner loop adds the part 2 points of the first antenna with every other |
| Y2024Day08.MarkLine | 2024/day08/main.go:101-132 | one pair adds its part 2 points: the first antenna and both rays |
| Y2024Day08.WalkRay | 2024/day08/main.go:119-131 | the walk in one direction ends at the ray's end and adds the ray's cells |
| Y2024Day08.ProblemInput.constructor | 2024/day08/main.go:52-57 | the object holds the given grid, antinode grid and antenna map |
| Y2024Day08.ProblemInput.AnnotateAntinodesPart1 | 2024/day08/main.go:59-91 | the antinode grid becomes the old one with every part 1 point marked, and the count is the number of '#' cells added |
| Y2024Day08.ProblemInput.AnnotateAntinodesPart2 | 2024/day08/main.go:93-138 | the antinode grid becomes the old one with every part 2 point marked, and the count is the number of '#' cells added |
| Y2024Day08.Blank | 2024/day08/main.go:172-175 | the antinode grid has the shape of the input and is all '.' |
| Y2024Day08.AnnotatedUnique | 2024/day08/main.go:80-83 | the marked grid is determined by the base and the marked set |
| Y2024Day08.MarksNone | 2024/day08/main.go:175 | a grid without '#' counts zero |
| Y2024Day08.RowPositionsMeaning | 2024/day08/main.go:173-183 | the positions of a frequency in row r up to column j are its cells there |
| Y2024Day08.GridPositionsMeaning | 2024/day08/main.go:170-185 | the positions of a frequency in rows before i are its cells there |
| Y2024Day08.PositionsMeaning | 2024/day08/main.go:170-185 | a point is listed for a frequency iff the grid holds that character there |
| Y2024Day08.AntennasDone | 2024/day08/main.go:170-185 | after the scan the map lists, for every letter or digit present, its cells in row-major order |
| Y2024Day08.ParseCell | 2024/day08/main.go:177-183 | a letter or digit cell is appended to its frequency's list, and any other cell leaves the map alone |
| Y2024Day08.AntennaMapInGrid | 2024/day08/main.go:170-185 | every listed antenna is a grid point |
| Y2024Day08.ParseInput | 2024/day08/main.go:162-188 | the grid is the lines of the trimmed input, the antinode grid is all '.', and the map lists every antenna by frequency |
| Y2024Day08.SolvePart1 | 2024/day08/main.go:32-36 | the answer is the decimal count of the part 1 antinodes on the grid |
| Y2024Day08.SolvePart2 | 2024/day08/main.go:38-42 | the answer is the decimal count of the part 2 antinodes on the grid |
| Y2024Day08.CountIsMarks | 2024/day08/main.go:59-91 | from a blank antinode grid, the count returned equals the number of '#' cells after marking |
| Y2024Day09.Repeat | 2024/day09/main.go:100-106 | the run has diskValue cells (none for a negative value), each holding the value |
| Y2024Day09.ExpandStep | 2024/day09/main.go:98-110 | each digit appends its run, a file id for an even index and -1 for an odd one, and a non-empty file run takes the next id |
| Y2024Day09.CountFreeAppend | 2024/day09/main.go:102-104 | free cells of a concatenation add up |
| Y2024Day09.ExpandCounts | 2024/day09/main.go:96-111 | the expansion is as long as the digits' total, and its free cells are the odd-index digits' total |
| Y2024Day09.ExpandIdsOrdered | 2024/day09/main.go:96-111 | every expanded cell is free or an id below the file count, and ids never decrease along the disk |
| Y2024Day09.CompactLoop | 2024/day09/main.go:77-93 | the two-pointer loop keeps the disk's length |
| Y2024Day09.CompactLoopPermutes | 2024/day09/main.go:77-93 | the loop only swaps cells, so the result is a permutation of the disk |
| Y2024Day09.CompactLoopCompacts | 2024/day09/main.go:77-93 | with files before the start pointer and free space after the end pointer, the loop leaves no free cell before a file cell |
| Y2024Day09.CompactLoopKeepsCompacted | 2024/day09/main.go:77-93 | a disk already compacted is left unchanged |
| Y2024Day09.CompactOfProperties | 2024/day09/main.go:69-94 | compaction keeps the length and the multiset of cells, leaves every free cell after every file cell, and is idempotent |
| Y2024Day09.FilePrefix | 2024/day09/main.go:60-63 | the cells up to the first free one: a prefix of the disk, with no free cell, followed by a free cell or the end |
| Y2024Day09.FilePrefixOfCompacted | 2024/day09/main.go:58-67 | on a compacted disk the checksum sees every file cell: the prefix length is the length minus the free cells |
| Y2024Day09.NoFree | 2024/day09/main.go:61 | a disk without -1 has no free cells |
| Y2024Day09.AllFree | 2024/day09/main.go:61 | a disk of -1 cells is all free |
| Y2024Day09.DigitsOf | 2024/day09/main.go:121-123 | one value per character, the character minus '0' |
| Y2024Day09.ParseInput | 2024/day09/main.go:113-126 | the disk map is the trimmed input's characters minus '0', and lies in 0..9 when they are digits |
| Y2024Day09.Disk.constructor | 2024/day09/main.go:114-118 | the disk map as given, with empty expansion and compacted copy |
| Y2024Day09.Disk.ExpandDiskMap | 2024/day09/main.go:96-111 | the expansion of the disk map is appended to ExpandedDiskMap and nothing else changes |
| Y2024Day09.Disk.AppendRun | 2024/day09/main.go:100-106 | the inner loop appends count copies of the value |
| Y2024Day09.Disk.Compact | 2024/day09/main.go:69-94 | the compacted copy is a fresh array holding the loop's result on the expansion, which is compacted and a permutation of it |
| Y2024Day09.Disk.ComputeChecksum | 2024/day09/main.go:58-67 | the sum of index times id over the cells before the first free one |
| Y2024Day09.SolvePart1 | 2024/day09/main.go:32-45 | the decimal checksum of the compacted expansion of the digits of the trimmed input |
| Y2024Day10.TopMaxBound | 2024/day10/main.go:70-80 | no height exceeds the map's maximum, which bounds how far a climbing trail can recurse |
| Y2024Day10.Height | 2024/day10/main.go:70-103 | a cell's height is at most the map's maximum |
| Y2024Day10.MovesUpTo | 2024/day10/main.go:122-133 | every move kept among the first k tried climbs by one to an in-bounds cell |
| Y2024Day10.MovesUpToMeaning | 2024/day10/main.go:122-133 | a point is kept among the first k tries iff it is one of those neighbours and climbs by one; at most k are kept |
| Y2024Day10.MovesMeaning | 2024/day10/main.go:118-136 | the possible moves are exactly the orthogonal neighbours in bounds and one higher, at most four |
| Y2024Day10.GetPossibleMoves | 2024/day10/main.go:118-136 | the loop returns the moves up, down, left, right that are in bounds and one higher, in that order |
| Y2024Day10.ScoreTrailheadPart2 | 2024/day10/main.go:67-83 | the recursion returns 1 at height 9 and otherwise the sum over the possible moves, which is the number of trails listed from the trailhead |
| Y2024Day10.GetReachablePeaks | 2024/day10/main.go:100-116 | the recursion returns [p] at height 9 and otherwise the peaks of the moves, concatenated |
| Y2024Day10.PeaksCount | 2024/day10/main.go:67-116 | the list of reachable peaks is as long as the part 2 score |
| Y2024Day10.TrailCons | 2024/day10/main.go:122-133 | a climbing step in front of a trail gives a trail |
| Y2024Day10.PeaksAllSound | 2024/day10/main.go:111-113 | every peak collected from the moves is a peak of one of them |
| Y2024Day10.PeaksAllComplete | 2024/day10/main.go:111-113 | every peak of every move is collected |
| Y2024Day10.PeakTrail | 2024/day10/main.go:100-116 | every reachable peak has height 9 and ends a trail from the start climbing by one per orthogonal step |
| Y2024Day10.TrailPeak | 2024/day10/main.go:100-116 | every trail from p that ends at height 9 ends at a reachable peak of p |
| Y2024Day10.TrailTail | 2024/day10/main.go:77-79 | a trail without its first point is a trail |
| Y2024Day10.TrailsCount | 2024/day10/main.go:66-83 | the part 2 score of a point is the number of trails listed from it |
| Y2024Day10.TrailsSound | 2024/day10/main.go:66-83 | every listed trail starts at the point, climbs by one per orthogonal step and ends at height 9 |
| Y2024Day10.TrailsComplete | 2024/day10/main.go:66-83 | every trail from the point that ends at height 9 is listed |
| Y2024Day10.MovesUpToDistinct | 2024/day10/main.go:118-136 | no possible move is returned twice |
| Y2024Day10.TrailsDistinct | 2024/day10/main.go:66-83 | no trail is listed twice |
| Y2024Day10.PeaksEndTrails | 2024/day10/main.go:100-116 | the reachable peaks are, one for one and in order, the ends of the listed trails: one peak per trail |
| Y2024Day10.PathsCountTrails | 2024/day10/main.go:66-83 | the part 2 score counts the trails: the listed trails are exactly the trails from the point to height 9, none twice, and there are as many as the score |
| Y2024Day10.TrailHeights | 2024/day10/main.go:129 | the i-th point of a trail is i higher than its start |
| Y2024Day10.DistinctAtMost | 2024/day10/main.go:89-95 | there are at most as many distinct peaks as peaks |
| Y2024Day10.ScoreTrailheadPart1 | 2024/day10/main.go:86-98 | the score is the number of distinct reachable peaks |
| Y2024Day10.Part1AtMostPart2 | 2024/day10/main.go:66-98 | a trailhead's part 1 score is at most its part 2 score |
| Y2024Day10.ScoreTopology | 2024/day10/main.go:52-64 | the loop sums the chosen part's scores over the trailheads |
| Y2024Day10.TotalPart1AtMostPart2 | 2024/day10/main.go:52-64 | the part 1 total is at most the part 2 total |
| Y2024Day10.RowHeights | 2024/day10/main.go:150-153 | each character becomes its code minus '0' |
| Y2024Day10.Heights | 2024/day10/main.go:146-157 | one row of heights per line |
| Y2024Day10.RowZerosMeaning | 2024/day10/main.go:153-155 | the trailheads of a row up to column j are its '0' cells there |
| Y2024Day10.ZerosMeaning | 2024/day10/main.go:149-157 | the trailheads of the rows before i are the '0' cells there |
| Y2024Day10.RowMajorAppend | 2024/day10/main.go:154 | appending a later row's trailheads keeps row-major order |
| Y2024Day10.ZerosSorted | 2024/day10/main.go:149-157 | the trailheads come in row-major order |
| Y2024Day10.ParseInput | 2024/day10/main.go:142-160 | the heights of every line of the trimmed input and the '0' cells in row-major order |
| Y2024Day10.ParseLines | 2024/day10/main.go:149-157 | the loop over the lines builds the heights and the trailheads |
| Y2024Day10.ParseRow | 2024/day10/main.go:150-156 | one row's heights, and its '0' cells appended to the trailheads so far |
| Y2024Day10.ParsedInBounds | 2024/day10/main.go:138-140 | on a rectangular map every trailhead is in bounds |
| Y2024Day10.IsRectangular | 2024/day10/main.go:139 | true iff every row is as wide as row 0 |
| Y2024Day10.SolvePart1 | 2024/day10/main.go:32-35 | on a rectangular map, the decimal sum over the trailheads of the distinct reachable peaks; None exactly when a row is of another width |
| Y2024Day10.SolvePart2 | 2024/day10/main.go:37-40 | on a rectangular map, the decimal sum over the trailheads of the trail counts (each the number of distinct trails from that trailhead to height 9, by Y2024Day10.PathsCountTrails); None exactly when a row is of another width |
| Y2024Day11.BlinkStone | 2024/day11/main.go:61-80 | one stone becomes one or two stones; None where MustAtoi panics on a half of a negative stone's text |
| Y2024Day11.DigitsValueBound | 2024/day11/main.go:69-73 | a k-digit decimal text is worth less than 10^k |
| Y2024Day11.AtoiOfDigits | 2024/day11/main.go:72-73 | MustAtoi reads a non-empty digit text as its decimal value, leading zeros included |
| Y2024Day11.BlinkStoneRules | 2024/day11/main.go:54-80 | 0 becomes 1; a number with an odd digit count becomes itself times 2024; a positive number with 2h digits becomes n / 10^h and n % 10^h; a non-negative stone never fails |
| Y2024Day11.NonNegativeStoneStaysNonNegative | 2024/day11/main.go:61-80 | a non-negative stone blinks into non-negative stones |
| Y2024Day11.BlinkAllAppend | 2024/day11/main.go:61-81 | blinking a concatenation concatenates the blinks of the parts, so each stone changes on its own |
| Y2024Day11.BlinkAllBounds | 2024/day11/main.go:58-84 | a blink of non-negative stones never fails, keeps them non-negative, and at most doubles their number without shrinking it |
| Y2024Day11.BlinkTimesBounds | 2024/day11/main.go:48-52 | any number of blinks of non-negative stones succeeds and keeps them non-negative |
| Y2024Day11.ProblemInput.constructor | 2024/day11/main.go:44-46 | the object holds the given stones |
| Y2024Day11.ProblemInput.SingleBlink | 2024/day11/main.go:58-84 | Stones becomes the blink of the old stones, and stays unchanged when that blink panics |
| Y2024Day11.ProblemInput.Blink | 2024/day11/main.go:48-52 | after the loop Stones is the old stones blinked times times (none for a negative count), when no blink panics |
| Y2024Day11.BlinkTimesNext | 2024/day11/main.go:49-51 | one more blink blinks the stones reached so far |
| Y2024Day11.BlinkAllStep | 2024/day11/main.go:61-81 | the loop's next stone appends its blink, or fails |
| Y2024Day11.BlinkAllFailureSticks | 2024/day11/main.go:61-81 | once a stone fails the whole blink fails |
| Y2024Day11.BlinkTimesFailureSticks | 2024/day11/main.go:48-52 | once a blink fails every later count fails |
| Y2024Day11.ParseInput | 2024/day11/main.go:86-98 | the stones are the Atoi of the white-space separated words of the trimmed input, failing where one word fails |
| Y2024Day11.AtoiAllFailureSticks | 2024/day11/main.go:93-95 | once one word fails the parse fails |
| Y2024Day11.ParseStones | 2024/day11/main.go:86-98 | stones written in decimal and joined by spaces parse back to themselves |
| Y2024Day11.JoinTrimmed | 2024/day11/main.go:87 | trimming leaves joined non-empty words without spaces unchanged |
| Y2024Day11.SolvePart1 | 2024/day11/main.go:32-37 | an answer exists iff the input parses and 25 blinks do not fail; it is the decimal count of the stones after 25 blinks |
| Y2024Day12.CellsMeaning | 2024/day12/main.go:146-148 | IsInBounds accepts exactly the plots of the garden |
| Y2024Day12.NeighbourIndex | 2024/day12/main.go:124-125 | every orthogonal neighbour is one of the four offsets tried |
| Y2024Day12.ConnectedPlant | 2024/day12/main.go:54-58 | two connected plots both hold the region's plant |
| Y2024Day12.ConnectedSelf | 2024/day12/main.go:54-58 | a plot is connected to itself |
| Y2024Day12.ConnectedSymmetric | 2024/day12/main.go:54-58 | connection is symmetric |
| Y2024Day12.ConnectedTransitive | 2024/day12/main.go:54-58 | connection is transitive |
| Y2024Day12.ConnectedStep | 2024/day12/main.go:124-130 | a same-plant neighbour of a connected plot is connected |
| Y2024Day12.WalkStaysIn | 2024/day12/main.go:124-130 | a walk through one plant stays inside a set closed under same-plant steps |
| Y2024Day12.ClosedHoldsConnected | 2024/day12/main.go:109-132 | a set closed under same-plant steps holds every plot connected to one of its plots |
| Y2024Day12.RegionIsComponent | 2024/day12/main.go:54-58 | the plots of a region are exactly those connected to any of its plots |
| Y2024Day12.RegionsApart | 2024/day12/main.go:99-103 | a region started outside an earlier region shares no plot with it |
| Y2024Day12.QueueNeighbours | 2024/day12/main.go:124-131 | the queue gains same-plant neighbours not yet processed, keeps its old entries first, holds only connected plots of the plant, and every same-plant neighbour ends up processed or queued |
| Y2024Day12.GrowRegion | 2024/day12/main.go:105-132 | the flood fill from a plot returns a region of its plant starting at it: distinct plots, all connected to it, closed under same-plant steps |
| Y2024Day12.CoveredHas | 2024/day12/main.go:137-140 | a plot of any region found is marked seen |
| Y2024Day12.CoveredWitness | 2024/day12/main.go:137-140 | every seen plot belongs to some region found |
| Y2024Day12.GrownMeaning | 2024/day12/main.go:94-144 | the regions found so far are regions of the plant and pairwise disjoint |
| Y2024Day12.AddRegion | 2024/day12/main.go:135-140 | adding a region started at an unseen plot keeps the regions disjoint, and the seen set grows by its plots |
| Y2024Day12.MarkSeen | 2024/day12/main.go:138-140 | the seen set gains the region's plots |
| Y2024Day12.Regions | 2024/day12/main.go:94-144 | the regions of a plant are pairwise disjoint regions that together cover exactly the plots of that plant |
| Y2024Day12.ComputeCostForRegion | 2024/day12/main.go:73-92 | the cost is the number of fenced sides of the region's plots times its area |
| Y2024Day12.SidesBound | 2024/day12/main.go:79-87 | a plot contributes at most one side per offset tried |
| Y2024Day12.PerimeterBound | 2024/day12/main.go:78-89 | the perimeter is at most four times the area |
| Y2024Day12.SidesOfRegion | 2024/day12/main.go:81-87 | for a plot of a region, the sides counted are exactly those facing a plot outside the region |
| Y2024Day12.SumRemove | 2024/day12/main.go:60-71 | any plot may be taken out of a sum over a set first |
| Y2024Day12.SumUnion | 2024/day12/main.go:60-71 | a sum over two disjoint sets is the sum of the two sums |
| Y2024Day12.DistinctSize | 2024/day12/main.go:115-121 | a list without repeats has as many elements as entries |
| Y2024Day12.ComponentOfRegion | 2024/day12/main.go:54-58 | a region is the component of each of its plots |
| Y2024Day12.RegionPlotPrice | 2024/day12/main.go:73-92 | each plot of a region is priced at its fenced sides times the region's area |
| Y2024Day12.PartPrice | 2024/day12/main.go:78-91 | the per-plot prices over a part of a region add up to the part's perimeter times the region's area |
| Y2024Day12.RegionPrice | 2024/day12/main.go:73-92 | a region's cost, perimeter times area, is the sum of its plots' prices |
| Y2024Day12.RegionsPrice | 2024/day12/main.go:65-67 | the cost of disjoint regions is the sum of the prices of the plots they cover |
| Y2024Day12.PlantCellsMeaning | 2024/day12/main.go:63 | the plots of a set of plant types are the plots holding one of them |
| Y2024Day12.OnePlant | 2024/day12/main.go:63-68 | handling one more plant adds the prices of its plots, so the order of the map range does not matter |
| Y2024Day12.ComputeFenceCost | 2024/day12/main.go:60-71 | the total cost is the sum, over every plot, of its fenced sides times the area of its region, that is the sum of area times perimeter over all regions |
| Y2024Day12.RowPositionsMeaning | 2024/day12/main.go:162-169 | the positions of a plant in row r up to column j are its plots there |
| Y2024Day12.GridPositionsMeaning | 2024/day12/main.go:160-170 | the positions of a plant in rows before i are its plots there |
| Y2024Day12.PositionsMeaning | 2024/day12/main.go:160-170 | a point is listed for a plant iff the line holds that plant there |
| Y2024Day12.ParsedValid | 2024/day12/main.go:150-173 | a rectangular garden parses into consistent maps: every plant type present is listed with exactly its plots |
| Y2024Day12.SoFarStep | 2024/day12/main.go:165-168 | each plot is appended to its plant's list |
| Y2024Day12.ParseCell | 2024/day12/main.go:163-168 | one plot adds its plant to the types and appends itself to the plant's positions |
| Y2024Day12.PositionsDone | 2024/day12/main.go:160-170 | after the scan the types are the plants present and the map lists each plant's plots in row-major order |
| Y2024Day12.ParseInput | 2024/day12/main.go:150-173 | the garden is the lines of the trimmed input, with its plant types and positions |
| Y2024Day12.IsRectangular | 2024/day12/main.go:147 | true iff every row is as wide as row 0 |
| Y2024Day12.SolvePart1 | 2024/day12/main.go:32-36 | on a rectangular garden, the decimal total fence cost; None exactly when a row is of another width |
| Y2024Day13.Weights | 2024/day13/main.go:66-104 | weights it returns are non-negative and make every press of either button gain at least 1 |
| Y2024Day13.MovesAdvances | 2024/day13/main.go:66-104 | buttons that both move forward have such weights |
| Y2024Day13.WeightsFound | 2024/day13/main.go:66-104 | whenever any such weights exist, Weights returns some |
| Y2024Day13.WeightsComplete | 2024/day13/main.go:66-104 | Weights returns weights iff such weights exist |
| Y2024Day13.MeasureDecreases | 2024/day13/main.go:66-104 | short of the prize the weighted distance is non-negative and each press lowers it, so the recursion ends |
| Y2024Day13.CostWith | 2024/day13/main.go:66-104 | for any game with such weights (or a start past or on the prize) the cost from a point is at least -1, is -1 past the prize on either axis and 0 on the prize |
| Y2024Day13.ReachesAfter | 2024/day13/main.go:77-87 | presses that win from the point after A (or B) win from here with one more A (or B) |
| Y2024Day13.CostIsRoute | 2024/day13/main.go:66-104 | for any game the recursion finishes, a cost other than -1 is 3a + b for some a presses of A and b of B that land on the prize |
| Y2024Day13.ReachesBefore | 2024/day13/main.go:66-104 | with buttons that both move forward, from a point from which some presses win, the claw is not past the prize, and pressing A (or B) first leaves a winning rest |
| Y2024Day13.RouteIsCosted | 2024/day13/main.go:66-104 | with buttons that both move forward, when some presses win, the cost is not -1 (and, comparing totals, at most their price) |
| Y2024Day13.CostUnreachable | 2024/day13/main.go:64-65 | with buttons that both move forward, the cost is -1 iff no presses of A and B land on the prize |
| Y2024Day13.Memo.constructor | 2024/day13/main.go:131 | the shared table starts empty |
| Y2024Day13.CostToPrize | 2024/day13/main.go:66-104 | for any game with such weights, or a start past or on the prize, the memoised recursion returns the cost from the starting point and keeps every table entry equal to its point's cost |
| Y2024Day13.CramerFinds | 2024/day13/main.go:120-121 | with a non-zero determinant and B.X, presses that hit the prize exactly are the ones the two truncating divisions compute |
| Y2024Day13.CramerNumerator | 2024/day13/main.go:120 | for presses that hit the prize, the numerator of aPresses is aPresses times the determinant |
| Y2024Day13.ConversionCostMeaning | 2024/day13/main.go:115-128 | after moving the prize by 10^13, an exact solution adds its price 3n + m, and anything added is the price of presses that hit the moved prize exactly |
| Y2024Day13.GameCostPart1 | 2024/day13/main.go:130-136 | for any game the recursion finishes, part 1 answers; an unreachable prize adds 0, and anything else added is the price 3a + b of presses that win it; with forward buttons a reachable prize adds such a price |
| Y2024Day13.GameCostNone | 2024/day13/main.go:130-136 | part 1 fails on a game exactly when the claw starts neither past nor on the prize and no non-negative weights make both presses gain |
| Y2024Day13.DiagonalButtons | 2024/day13/main.go:66-104 | example: A = (1, -1), B = (1, 1) and the prize at (2, 0) cost 4 |
| Y2024Day13.UndoingButtons | 2024/day13/main.go:66-104 | example: A = (1, -1) and B = (-1, 1) undo each other, and part 1 fails |
| Y2024Day13.TotalCostFailureSticks | 2024/day13/main.go:110-139 | once a game panics the total fails |
| Y2024Day13.TotalCostToPrizes | 2024/day13/main.go:110-139 | the loop sums each game's cost in order, failing where Go divides by zero (part 2) or where a game has no weights under which both presses gain (part 1) |
| Y2024Day13.CostOfGame | 2024/day13/main.go:115-136 | one game's cost: Cramer's price with the conversion error, otherwise the recursive cost from (0, 0) or nothing when unreachable; None for a game without weights that starts short of the prize |
| Y2024Day13.ParseInput | 2024/day13/main.go:141-195 | the games are those of the line fold over the raw input lines; None exactly where the fold fails |
| Y2024Day13.PrefixedNumber | 2024/day13/main.go:160-161 | a prefixed decimal number holds no space and no comma |
| Y2024Day13.ParseVectorOf | 2024/day13/main.go:155-161 | a part split at ", " into two prefixed numbers reads as that pair |
| Y2024Day13.PrefixedTrim | 2024/day13/main.go:160-161 | trimming and dropping the prefix leaves the number's text |
| Y2024Day13.ParseVectorText | 2024/day13/main.go:155-161 | "X+x, Y+y" (or with '=') reads back as (x, y) |
| Y2024Day13.ParseButtonALine | 2024/day13/main.go:153-163 | a "Button A: " line sets button A of the game being read |
| Y2024Day13.ParseButtonBLine | 2024/day13/main.go:165-175 | a "Button B: " line sets button B of the game being read |
| Y2024Day13.ParsePrizeLine | 2024/day13/main.go:177-191 | a "Prize: " line sets the prize, appends the game and starts a new zero game |
| Y2024Day13.ParseGameLines | 2024/day13/main.go:148-192 | the three lines of a game append that game |
| Y2024Day13.ParseGamesLines | 2024/day13/main.go:141-195 | games written out in the puzzle's format parse back to the same games |
| Y2024Day13.SolvePart1 | 2024/day13/main.go:32-36 | an answer exists iff the input parses and no game fails; it is the decimal sum of the part 1 costs |
| Y2024Day13.SolvePart2 | 2024/day13/main.go:38-42 | an answer exists iff the input parses and no game divides by zero; it is the decimal sum of the part 2 costs |
| Y2024Day13.CostNotLowest | 2024/day13/main.go:100-103 | with A = (2, 2), B = (1, 1) and the prize at (2, 2), the code's cost is 3 although two presses of B cost 2 |
| Y2024Day13.CostIntendedLowest | 2024/day13/main.go:64-65 | with buttons that both move forward, comparing totals with the button price included, the cost is the price of some winning presses and at most the price of any winning presses |
| Y2024Day14.MoveRobotMeaning | 2024/day14/main.go:82-94 | in a room of positive size the moved robot is in the room, at the Euclidean remainders of X + n*Dx and of n*Dy, with its velocity kept |
| Y2024Day14.WhichQuadrant | 2024/day14/main.go:113-131 | the quadrant is one of 0..4, and a point on the middle row is in none (4) |
| Y2024Day14.QuadrantHalves | 2024/day14/main.go:113-131 | above the middle row a point is in quadrant 0 iff left of the middle column and in 1 otherwise, the middle column included; below it, 2 left, 3 right, and none on the middle column |
| Y2024Day14.QuadrantCountsTotal | 2024/day14/main.go:99-104 | the five counts add up to the number of robots |
| Y2024Day14.SafetyIgnoresMiddle | 2024/day14/main.go:106 | a robot in no quadrant leaves the safety factor as it was |
| Y2024Day14.ProblemInput.constructor | 2024/day14/main.go:74-77 | the object holds the given dimensions and robots |
| Y2024Day14.ProblemInput.Step | 2024/day14/main.go:79-96 | every robot is replaced by its moved self, in order and nothing else changes; in a room of positive size each lands in the room |
| Y2024Day14.ProblemInput.ComputeSafetyfactor | 2024/day14/main.go:98-111 | the product of the numbers of robots in quadrants 0 to 3 |
| Y2024Day14.PairTextIsWord | 2024/day14/main.go:163 | "p=X,Y" is one white-space free word |
| Y2024Day14.ParsePairOf | 2024/day14/main.go:167-172 | a field whose body after the prefix splits at ',' into two numbers reads as that pair |
| Y2024Day14.ParsePairText | 2024/day14/main.go:167-172 | "p=X,Y" (or "v=DX,DY") reads back as its pair |
| Y2024Day14.ParseRobotOf | 2024/day14/main.go:163-174 | a line of two fields, a position and a velocity, reads as that robot |
| Y2024Day14.ParseRobotText | 2024/day14/main.go:162-175 | a robot written as "p=X,Y v=DX,DY" parses back to itself |
| Y2024Day14.ParseInput | 2024/day14/main.go:152-178 | the robots are those of the lines, in order, with the 101 by 103 room for more than 20 lines and the 11 by 7 room otherwise; no object where a line panics |
| Y2024Day14.SolvePart1 | 2024/day14/main.go:34-45 | None exactly when a line does not parse; otherwise the decimal safety factor of the robots after Step(100) in the chosen room |
| Y2024Day14.MoveRobotForgetsY | 2024/day14/main.go:85 | a robot's Y after Step does not depend on its start Y |
| Y2024Day14.MoveRobotNotAdditive | 2024/day14/main.go:85 | in the 11 by 7 room, a robot at (0, 0) moving (0, 1) is at (0, 2) after 100 steps twice but at (0, 4) after 200, and one at (0, 1) standing still is moved to (0, 0) |
| Y2024Day14.MoveRobotIntended | 2024/day14/main.go:82-94 | with Y advanced like X, the robot lands in the room at the Euclidean remainders of both start-plus-displacement coordinates |
| Y2024Day14.MoveRobotIntendedAdditive | 2024/day14/main.go:79-96 | the intended move of a then b steps is the move of a + b steps, and no step keeps a robot in the room where it is |
| Y2024Day14.QuadrantMiddleColumn | 2024/day14/main.go:118 | in the 11 by 7 room, (5, 0) on the middle column is in quadrant 1, while (5, 6) is in none |
| Y2024Day14.QuadrantIntended | 2024/day14/main.go:113-131 | the intended quadrant is 4 exactly on the middle row or the middle column |
| Y2024Day14.QuadrantIntendedMirror | 2024/day14/main.go:113-131 | in a room of odd width the intended quadrants are symmetric about the middle column |
| Y2024Day14.QuadrantAsWrittenNotMirrored | 2024/day14/main.go:118 | the quadrants as written are not: (5, 0) is its own mirror image yet lies in quadrant 1 |
| Y2024Day15.MoveVector | 2024/day15/main.go:79-88 | exactly the runes '<', 'v', '^' and '>' have a vector, each a unit step; any other rune panics |
| Y2024Day15.AheadShift | 2024/day15/main.go:97-121 | looking k cells ahead of the next cell is looking k + 1 cells ahead of this one |
| Y2024Day15.StepInside | 2024/day15/main.go:112-119 | from an interior cell of a walled room the next cell is on the grid, and it is interior unless it is a wall |
| Y2024Day15.Run | 2024/day15/main.go:110-125 | the cell just past the run of boxes in front of a cell is on the grid and holds no box |
| Y2024Day15.RunCells | 2024/day15/main.go:119-122 | every cell of the run is an interior box |
| Y2024Day15.RunIsRun | 2024/day15/main.go:119-122 | the run is the maximal row of boxes ahead |
| Y2024Day15.CanMakeMove | 2024/day15/main.go:110-125 | the move can be made iff the cell past the run of boxes ahead is not a wall |
| Y2024Day15.SetAt | 2024/day15/main.go:106-107 | writing one cell changes that cell only |
| Y2024Day15.Pushed | 2024/day15/main.go:95-108 | a push keeps the grid's shape |
| Y2024Day15.PushCell | 2024/day15/main.go:97-100 | away from the start and the next cell, a push from a box in front is the push from that box |
| Y2024Day15.PushedAt | 2024/day15/main.go:95-108 | each cell after the recursive push is the cell the run shifts onto it: the start becomes '.', each cell of the run takes the value behind it, and the rest is kept |
| Y2024Day15.BoxCell | 2024/day15/main.go:63 | a point is a box iff its cell holds 'O' |
| Y2024Day15.WallCell | 2024/day15/main.go:112 | a point is a wall iff its cell holds '#' |
| Y2024Day15.PushedWallOnGrid | 2024/day15/main.go:95-125 | a push that can be made leaves every wall cell a wall and makes no new one |
| Y2024Day15.PushedBoxOnGrid | 2024/day15/main.go:95-108 | after a push a cell is a box iff it was one other than the first cell of the run, or it is the cell past a non-empty run |
| Y2024Day15.BoxesFrom | 2024/day15/main.go:95-108 | such a cellwise change moves one box from the front of the run to its end |
| Y2024Day15.RunEnds | 2024/day15/main.go:119-122 | a non-empty run starts with a box and ends before a cell without one |
| Y2024Day15.PushedBoxes | 2024/day15/main.go:95-108 | pushing a run of boxes takes the box off the run's first cell and puts one past its last, the rest kept |
| Y2024Day15.PushedWalls | 2024/day15/main.go:95-125 | a push that can be made keeps the set of walls |
| Y2024Day15.MoveReady | 2024/day15/main.go:89-92 | a move keeps the room walled and the robot on its '@' cell, one step on when it can move and in place otherwise |
| Y2024Day15.MoveKeepsBoxCount | 2024/day15/main.go:77-93 | a move keeps the number of boxes and the walls |
| Y2024Day15.PushedBoxCount | 2024/day15/main.go:95-108 | a push keeps the number of boxes |
| Y2024Day15.GpsSumRemove | 2024/day15/main.go:59-69 | any box may be taken out of the GPS sum first |
| Y2024Day15.GpsSumMove | 2024/day15/main.go:59-69 | moving one box changes the GPS sum by the difference of its two coordinates' values |
| Y2024Day15.PushedGPS | 2024/day15/main.go:95-108 | a push of a non-empty run changes the GPS sum by moving the run's first box past its end |
| Y2024Day15.MoveGPS | 2024/day15/main.go:77-93 | a move changes the GPS sum only when it pushes boxes, and then by one box's move |
| Y2024Day15.BoxesBeforeStep | 2024/day15/main.go:61-66 | each cell of the row-major scan adds itself when it is a box |
| Y2024Day15.GpsSumStep | 2024/day15/main.go:63-65 | each box adds 100 * row + column |
| Y2024Day15.BoxesBeforeEnd | 2024/day15/main.go:61-67 | the finished scan covers every box |
| Y2024Day15.MoveAllKeeps | 2024/day15/main.go:71-75 | the moves keep the room ready, the walls and the number of boxes |
| Y2024Day15.MoveAllSucceeds | 2024/day15/main.go:71-87 | the moves succeed iff every rune is one of the four move runes |
| Y2024Day15.MoveAllAppend | 2024/day15/main.go:71-75 | applying a + b is applying a and then b |
| Y2024Day15.ProblemInput.constructor | 2024/day15/main.go:52-57 | the object holds the given grid, robot position and moves |
| Y2024Day15.ProblemInput.SumBoxGPSValues | 2024/day15/main.go:59-69 | the sum of 100 * row + column over the boxes |
| Y2024Day15.ProblemInput.MakeMove | 2024/day15/main.go:95-108 | the grid becomes the pushed grid, and the robot position and moves are kept |
| Y2024Day15.ProblemInput.ApplyMove | 2024/day15/main.go:77-93 | a move rune applies Move to the state; any other rune fails and changes nothing |
| Y2024Day15.ProblemInput.ApplyMoveSequence | 2024/day15/main.go:71-75 | the state becomes the moves applied in order; failure exactly when a rune is not a move |
| Y2024Day15.BlankMeaning | 2024/day15/main.go:144 | a line counts as empty iff trimming leaves nothing |
| Y2024Day15.FirstBlank | 2024/day15/main.go:141-147 | the index of the first empty line, or the number of lines |
| Y2024Day15.MoveRunesStep | 2024/day15/main.go:156-159 | after the first empty line, each non-empty line adds its runes to the moves and an empty one adds nothing |
| Y2024Day15.LastRobotCol | 2024/day15/main.go:151-155 | the column of the last '@' of a line, if any |
| Y2024Day15.LastRobot | 2024/day15/main.go:149-155 | the last '@' of the grid rows in row-major order, or (0, 0) when there is none |
| Y2024Day15.ScanRow | 2024/day15/main.go:151-155 | the row scan moves the robot position to the row's last '@' and keeps it otherwise |
| Y2024Day15.LastRobotStep | 2024/day15/main.go:149-155 | each grid row updates the position by its last '@' |
| Y2024Day15.ParseInput | 2024/day15/main.go:134-164 | the grid is the lines before the first empty line, the robot its last '@', and the moves the runes of the later non-empty lines |
| Y2024Day15.SolvePart1 | 2024/day15/main.go:33-41 | an answer exists iff the grid is a walled room with the robot inside and every move rune is valid; it is the decimal GPS sum after all moves |
| Y2024Day16.Turn | 2024/day16/main.go:184-187 | the truncating remainder lifted by 4 when negative is the Euclidean (direction + turn) mod 4 |
| Y2024Day16.TurnsApart | 2024/day16/main.go:183-190 | the two turns give the directions d + 1 and d + 3 mod 4, which differ |
| Y2024Day16.PossibleMovesMeaning | 2024/day16/main.go:161-193 | the moves are exactly the forward step when its cell is in the maze and not a wall (cost 1) and both quarter turns in place (cost 1000): three moves or two |
| Y2024Day16.PossibleMovesNeverBack | 2024/day16/main.go:161-193 | no move faces back, and every move keeps a direction in 0..3 |
| Y2024Day16.MovesPositive | 2024/day16/main.go:45-46 | every move costs at least 1 |
| Y2024Day16.WalkSnoc | 2024/day16/main.go:99-102 | extending a walk by a possible move adds that move's cost |
| Y2024Day16.WalkCostNonNegative | 2024/day16/main.go:101 | with positive move costs a walk's score is not negative |
| Y2024Day16.LeastScoreUnique | 2024/day16/main.go:77-106 | there is at most one lowest score |
| Y2024Day16.StartAtGoal | 2024/day16/main.go:91-93 | starting on the goal, the lowest score is 0 |
| Y2024Day16.LowestExists | 2024/day16/main.go:84-89 | a non-empty queue has an item with the lowest score |
| Y2024Day16.FrontierItem | 2024/day16/main.go:82-103 | any walk from the start to an unexpanded position passes a queued item scored no higher than the walk |
| Y2024Day16.VisitOptimal | 2024/day16/main.go:94-97 | the lowest queued item of an unexpanded position holds that position's lowest score |
| Y2024Day16.VisitFrontier | 2024/day16/main.go:97-102 | expanding a position and queuing its moves keeps every expanded position's moves queued or expanded |
| Y2024Day16.SkipFrontier | 2024/day16/main.go:94-96 | dropping an item of an already expanded position keeps that frontier property |
| Y2024Day16.VisitWitnessed | 2024/day16/main.go:99-102 | every queued item keeps a walk from the start of its score |
| Y2024Day16.GoalLeast | 2024/day16/main.go:91-93 | the first goal item popped holds the lowest score of a walk to the goal |
| Y2024Day16.EmptyUnreachable | 2024/day16/main.go:105 | an empty queue with no goal expanded means no walk reaches the goal |
| Y2024Day16.UniverseMember | 2024/day16/main.go:195-197 | the bounded set of positions is the maze's cells in the four directions |
| Y2024Day16.MoveKinds | 2024/day16/main.go:165-190 | a move is the open step forward or a turn in place |
| Y2024Day16.MovesStayInUniverse | 2024/day16/main.go:161-193 | moves keep a position inside the maze |
| Y2024Day16.UniverseClosed | 2024/day16/main.go:161-197 | the maze's positions are closed under the moves, so the search is finite |
| Y2024Day16.VisitStep | 2024/day16/main.go:94-102 | one expansion keeps the search invariant |
| Y2024Day16.InitStep | 2024/day16/main.go:78-80 | the queue holding only the start at score 0 satisfies the search invariant |
| Y2024Day16.GoalStep | 2024/day16/main.go:91-93 | reaching the goal returns the lowest score, and 0 when the start is on the goal |
| Y2024Day16.SkipStep | 2024/day16/main.go:94-96 | skipping an expanded position keeps the search invariant |
| Y2024Day16.EmptyStep | 2024/day16/main.go:105 | exhausting the queue means the goal is unreachable |
| Y2024Day16.Shrinks | 2024/day16/main.go:97 | each expansion leaves fewer unexpanded positions |
| Y2024Day16.Solve | 2024/day16/main.go:77-106 | the score is -1 exactly when no walk reaches the goal, and otherwise the lowest score of a walk from the start to the goal; 0 when the start is on the goal |
| Y2024Day16.LastCol | 2024/day16/main.go:211-219 | the last column of a line holding the character, if any |
| Y2024Day16.LastCell | 2024/day16/main.go:209-220 | the last cell holding the character in row-major order, or the default when there is none |
| Y2024Day16.LastCellStep | 2024/day16/main.go:209-220 | each row updates the cell by its last occurrence |
| Y2024Day16.RowScanDone | 2024/day16/main.go:211-219 | the column scan of a row ends at the cell so far |
| Y2024Day16.ParseInput | 2024/day16/main.go:199-223 | the maze is the lines of the trimmed input, the start the last 'S' facing right, and the goal the last 'E' |
| Y2024Day16.SolvePart1 | 2024/day16/main.go:33-37 | on a rectangular maze, "-1" when no walk reaches 'E', otherwise the decimal lowest score; None exactly when a row is of another width |
| Y2024Day17.PowersOfTwo | 2024/day17/main.go:157 | 2^63 and 2^64 are the constants the 64-bit shift works with |
| Y2024Day17.XorBitsBound | 2024/day17/main.go:161-173 | the exclusive or of two k-bit numbers is a k-bit number |
| Y2024Day17.Xor64 | 2024/day17/main.go:161-173 | Go's `^` on int is a signed 64-bit value |
| Y2024Day17.Xor64NonNegative | 2024/day17/main.go:161-173 | the exclusive or of two non-negative 63-bit values is non-negative |
| Y2024Day17.ShiftOne | 2024/day17/main.go:157-184 | `1 << k` panics for a negative k, is 2^k below 63 and 0 from 64 on |
| Y2024Day17.Combo | 2024/day17/main.go:68-82 | combo operands 0..3 are literals, 4, 5 and 6 read A, B and C, and any operand above 6 panics |
| Y2024Day17.DivideA | 2024/day17/main.go:157-185 | A divided (truncating) by 2 to the combo operand; a negative shift or a zero denominator panics, and a bad combo operand fails as Combo does |
| Y2024Day17.ExecuteEffects | 2024/day17/main.go:155-188 | each opcode's effect: only out prints, one value mod 8; only jnz with A != 0 jumps to the operand, every other instruction advances by 2; adv writes only A, bxl/bst/bxc/bdv only B, cdv only C; only combo-reading instructions can panic |
| Y2024Day17.Step | 2024/day17/main.go:151-153 | reading the opcode and operand panics when the pointer or the pointer + 1 is out of range, otherwise executes that pair |
| Y2024Day17.Exec | 2024/day17/main.go:148-192 | a halted run has left the program, a crashed or unfinished one has not; an unfinished run printed at most one value per instruction |
| Y2024Day17.ExecMoreFuel | 2024/day17/main.go:151-189 | once a run halts or crashes, more fuel changes nothing |
| Y2024Day17.ExecuteKeepsNonNegative | 2024/day17/main.go:155-186 | with non-negative registers and operand an instruction keeps the registers non-negative and prints only octal digits |
| Y2024Day17.DivideANonNegative | 2024/day17/main.go:157-158 | dividing a non-negative A gives a value between 0 and A |
| Y2024Day17.StepKeepsNonNegative | 2024/day17/main.go:151-188 | a step of a non-negative program from non-negative registers keeps them non-negative |
| Y2024Day17.OutputsAreOctalDigits | 2024/day17/main.go:175-177 | every value a non-negative program prints from non-negative registers is in 0..7 |
| Y2024Day17.RunOutputsOctal | 2024/day17/main.go:148-192 | the same for any runner that behaves as Exec |
| Y2024Day17.RunUnfold | 2024/day17/main.go:151-189 | a run that takes a step prints that step's output followed by the rest of the run |
| Y2024Day17.RunStopsSilent | 2024/day17/main.go:151 | a run that cannot take a step prints nothing |
| Y2024Day17.ExecUnfold | 2024/day17/main.go:151-189 | Exec takes one step and continues from the new registers |
| Y2024Day17.ExecStops | 2024/day17/main.go:151-191 | Exec halts when the pointer is past the end, runs out of fuel at 0, and crashes with the step's fault |
| Y2024Day17.Computer.constructor | 2024/day17/main.go:326-334 | the registers are the given values, the pointer is 0 and the program is the given one |
| Y2024Day17.Computer.ComboOperand | 2024/day17/main.go:68-82 | the result is Combo of the current registers |
| Y2024Day17.Computer.ExecuteInstruction | 2024/day17/main.go:155-188 | the registers become those of Execute and the output is its output; a fault is reported exactly when Execute fails |
| Y2024Day17.Computer.Run | 2024/day17/main.go:148-192 | the outputs, final registers and status are those of Exec from the old registers |
| Y2024Day17.Computer.RunLoop | 2024/day17/main.go:151-189 | the loop agrees with any runner that behaves as Exec |
| Y2024Day17.Computer.Tick | 2024/day17/main.go:151-188 | one pass of the loop: either it stops with the state unchanged and the run's status, or it prints the step's output and the run continues from the new state |
| Y2024Day17.RunnerOfRuns | 2024/day17/main.go:148-192 | Exec as a function value behaves as Exec |
| Y2024Day17.HaltsPastEnd | 2024/day17/main.go:151 | a pointer past the program halts at once without output |
| Y2024Day17.RunProgram | 2024/day17/main.go:325-336 | the output and status are those of Exec from A, B, C and pointer 0 |
| Y2024Day17.TrialsOfTries | 2024/day17/main.go:355 | the trial outcomes are runs with the candidate in A and B = C = 0 |
| Y2024Day17.SearchFromSound | 2024/day17/main.go:352-367 | a value the search finds makes the program print exactly itself and halt |
| Y2024Day17.QuineCandidatesSound | 2024/day17/main.go:352-367 | the same on the machine's own runs |
| Y2024Day17.SearchFromNotFoundAtFirst | 2024/day17/main.go:353-359 | when the search at the first value finds nothing, no remaining candidate in that octal digit prints the program |
| Y2024Day17.QuineNotFoundAtFirst | 2024/day17/main.go:353-359 | the same on the machine's own runs |
| Y2024Day17.Trial | 2024/day17/main.go:354-355 | the trial's output and status are the outcome for that value of A |
| Y2024Day17.GetBestQuineInput | 2024/day17/main.go:352-367 | the loop's answer is SearchFrom from candidate 0 |
| Y2024Day17.RecoverRegisterA | 2024/day17/main.go:338-350 | a returned value other than -1 prints the program and halts; -1 is returned exactly when the search finds nothing |
| Y2024Day17.QuineFoundNonNegative | 2024/day17/main.go:352-367 | from a non-negative prefix every found value is non-negative, so -1 never clashes with a found value |
| Y2024Day17.JoinOutputs | 2024/day17/main.go:37-45 | the text is the outputs in decimal separated by commas |
| Y2024Day17.CommaSeparatedStep | 2024/day17/main.go:38-43 | each pass of the loop adds a comma (not before the first) and the next value |
| Y2024Day17.CommaSeparatedIsJoin | 2024/day17/main.go:37-45 | the loop builds the same text as joining the decimal values with commas |
| Y2024Day17.CommaSeparatedRoundTrip | 2024/day17/main.go:37-45 | splitting the printed outputs at commas and reading each back gives the outputs |
| Y2024Day17.ParseLine | 2024/day17/main.go:206-227 | a blank line changes nothing, and a line never shortens the program |
| Y2024Day17.ParseLineReadsLines | 2024/day17/main.go:206-227 | ParseLine as a function value is the line step |
| Y2024Day17.ParseLinesStep | 2024/day17/main.go:206-228 | each line continues the parse of the lines before it, unless that already failed |
| Y2024Day17.ParseLinesFailureSticks | 2024/day17/main.go:213-224 | once a value fails to parse the whole input fails |
| Y2024Day17.ParseInput | 2024/day17/main.go:201-230 | the listing is the parse of the input's lines |
| Y2024Day17.ParseListing | 2024/day17/main.go:206-228 | the loop agrees with the line-by-line parse |
| Y2024Day17.ParseOneLine | 2024/day17/main.go:208-227 | one pass of the loop is one line step |
| Y2024Day17.RegisterLineA | 2024/day17/main.go:211-213 | a "Register A: v" line sets A to v |
| Y2024Day17.RegisterLineB | 2024/day17/main.go:214-216 | a "Register B: v" line sets B to v |
| Y2024Day17.RegisterLineC | 2024/day17/main.go:217-219 | a "Register C: v" line sets C to v |
| Y2024Day17.ProgramLine | 2024/day17/main.go:220-226 | a "Program: " line with comma-separated values appends those values |
| Y2024Day17.ParseRegisterLines | 2024/day17/main.go:206-219 | the three register lines give a listing with those registers and no program |
| Y2024Day17.ParseRender | 2024/day17/main.go:201-230 | a listing written out as its three register lines and its program line parses back to itself |
| Y2024Day17.BlankLine | 2024/day17/main.go:208-210 | an empty line is skipped |
| Y2024Day17.SolvePart1 | 2024/day17/main.go:33-46 | an answer exists iff the input parses and the program halts; it is the comma-separated outputs of the run |
| Y2024Day17.SolvePart2 | 2024/day17/main.go:48-52 | an answer other than "-1" is the decimal text of a value of A whose run prints the parsed program |
| Y2024Day18.DirectionsAdjacent | 2024/day18/main.go:134-135 | the four directions reach exactly the cells one row or one column away |
| Y2024Day18.DirectionAdjacent | 2024/day18/main.go:134-135 | each direction reaches an adjacent cell |
| Y2024Day18.PathAtFewerBytes | 2024/day18/main.go:143-147 | a path with more bytes fallen is a path with fewer |
| Y2024Day18.UnreachableStays | 2024/day18/main.go:70-80 | once the exit is cut off, more fallen bytes keep it cut off |
| Y2024Day18.PathPrefix | 2024/day18/main.go:157-159 | dropping the last cell of a path leaves a path |
| Y2024Day18.PathSnoc | 2024/day18/main.go:134-159 | a path extended by one allowed move is a path |
| Y2024Day18.InitStep | 2024/day18/main.go:121-123 | the queue holding only the start at distance 0 satisfies the search invariant |
| Y2024Day18.PopStep | 2024/day18/main.go:125-127 | popping the front of the queue keeps the search invariant, the popped cell now expanded at its distance |
| Y2024Day18.AddStep | 2024/day18/main.go:150-159 | recording a cheaper cost for a neighbour and queueing it keeps the search invariant |
| Y2024Day18.ExitStep | 2024/day18/main.go:129-131 | the first queue item at the exit carries a shortest path from the start, of length its distance + 1 |
| Y2024Day18.EmptyStep | 2024/day18/main.go:125-163 | when the queue empties without reaching the exit, no path reaches it |
| Y2024Day18.FindShortestPath | 2024/day18/main.go:113-164 | -1 with no path exactly when no path avoiding the fallen bytes reaches the exit; otherwise the distance of the returned path, which is a shortest path from the start to the exit |
| Y2024Day18.ShortestLengthUnique | 2024/day18/main.go:113-164 | the length the search answers is determined by the grid and the fallen bytes |
| Y2024Day18.ShortestLen | 2024/day18/main.go:39-73 | the length the search answers is the shortest path's length, or -1 when there is none |
| Y2024Day18.Stairs | 2024/day18/main.go:134-138 | a walk from the corner to (x, y) has x + y + 1 cells |
| Y2024Day18.StairsPath | 2024/day18/main.go:134-147 | with no byte fallen, that walk is a path |
| Y2024Day18.ReachableAtZero | 2024/day18/main.go:72-76 | with no byte fallen the exit is reachable, so Obstacles[step - 1] is never read at step 0 |
| Y2024Day18.FindUnreachableStep | 2024/day18/main.go:70-82 | the answer is the byte that fell last before the first search that fails, when one of the searches below len(Obstacles) - 1 fails; otherwise (-1, -1) and every such search reaches the exit |
| Y2024Day18.FirstCutOffUnique | 2024/day18/main.go:70-82 | the first step that cuts the exit off is unique, and every later step stays cut off |
| Y2024Day18.PointStringIsWord | 2024/day18/main.go:58-60 | a point's text is non-empty and has no white space |
| Y2024Day18.PointStringTrimmed | 2024/day18/main.go:58-60 | trimming a point's text leaves it unchanged |
| Y2024Day18.PointStringSplit | 2024/day18/main.go:58-60 | a point's text splits at its comma into Y then X |
| Y2024Day18.ParseObstacleOf | 2024/day18/main.go:186-189 | the line "x,y" is read as the point with row y and column x |
| Y2024Day18.ParsePointString | 2024/day18/main.go:186-189 | a point printed by String reads back as itself |
| Y2024Day18.IndexOfSnoc | 2024/day18/main.go:190-191 | each new byte maps its cell to its line index |
| Y2024Day18.IndexOfMeaning | 2024/day18/main.go:185-192 | exactly the cells of the bytes are mapped, each to the index of the last byte on that cell |
| Y2024Day18.InputOfWellFormed | 2024/day18/main.go:171-195 | what parseInput builds starts at the corner, has its exit inside the grid and only non-negative byte indices |
| Y2024Day18.ParseInput | 2024/day18/main.go:171-195 | None exactly when a line panics; otherwise the exit is (6, 6), or (70, 70) for more than 30 lines, with one byte per line in order and the index map of those bytes |
| Y2024Day18.ReadPoints | 2024/day18/main.go:185-192 | points printed one per line parse back to those points |
| Y2024Day18.SolvePart1 | 2024/day18/main.go:33-44 | None exactly when parsing panics; otherwise the decimal length of a shortest path after 12 bytes (1024 for more than 30 bytes), or -1 |
| Y2024Day18.SolvePart2 | 2024/day18/main.go:46-50 | None exactly when parsing panics; otherwise the "x,y" text of the first byte that cuts the exit off, as FindUnreachableStep answers |
| Y2024Day19.Equals | 2024/day19/main.go:55-65 | true exactly when the lengths agree and every rune agrees, that is, when the patterns are equal |
| Y2024Day19.StartsWith | 2024/day19/main.go:81-87 | the rune loop matches exactly when the pattern lies at the start of the towel |
| Y2024Day19.PossibleFromMeaning | 2024/day19/main.go:74-102 | trying the patterns from index k on succeeds exactly when one of them fits at the start and leaves a possible rest |
| Y2024Day19.WaysFromPositive | 2024/day19/main.go:119-143 | the ways over the first n patterns are positive exactly when one of them fits and leaves a rest with a way |
| Y2024Day19.PossibleIffWays | 2024/day19/main.go:67-148 | a towel is possible exactly when it has at least one way, so the two parts agree |
| Y2024Day19.Prepend | 2024/day19/main.go:135-141 | each listed decomposition gains the chosen pattern in front |
| Y2024Day19.DecompositionsCount | 2024/day19/main.go:105-148 | the number of ways equals the number of listed decompositions |
| Y2024Day19.DecompositionsFromCount | 2024/day19/main.go:119-143 | the same for the patterns tried so far |
| Y2024Day19.FlattenCons | 2024/day19/main.go:137 | a decomposition that starts with pattern k spells that pattern followed by the rest |
| Y2024Day19.DecompositionsSound | 2024/day19/main.go:105-148 | every listed decomposition spells the towel out of available patterns |
| Y2024Day19.DecompositionsFromSound | 2024/day19/main.go:119-143 | the same for the patterns tried so far |
| Y2024Day19.FlattenLength | 2024/day19/main.go:121 | a non-empty decomposition spells at least its first pattern, which is not empty |
| Y2024Day19.DecompositionsComplete | 2024/day19/main.go:105-148 | every way of spelling the towel out of available patterns is listed |
| Y2024Day19.DecompositionsFromComplete | 2024/day19/main.go:119-143 | a decomposition whose first pattern was tried is listed among those tried so far |
| Y2024Day19.InPrepend | 2024/day19/main.go:141 | a decomposition of the rest leads to one of the whole |
| Y2024Day19.DecompositionsFromFirst | 2024/day19/main.go:119-143 | every decomposition listed so far starts with a pattern tried so far |
| Y2024Day19.DecompositionsDistinct | 2024/day19/main.go:105-148 | no decomposition is listed twice, so the count counts distinct ways |
| Y2024Day19.DecompositionsFromDistinct | 2024/day19/main.go:119-143 | the same for the patterns tried so far |
| Y2024Day19.NoDuplicatesAppend | 2024/day19/main.go:141 | two duplicate-free lists with nothing in common join into a duplicate-free list |
| Y2024Day19.PossibleIffDecomposable | 2024/day19/main.go:67-103 | a towel is possible exactly when some sequence of available patterns spells it |
| Y2024Day19.Cache.constructor | 2024/day19/main.go:51 | a new cache is empty |
| Y2024Day19.Towel.constructor | 2024/day19/main.go:48-53 | NewTowel holds the pattern and a fresh empty cache |
| Y2024Day19.Towel.NumPossibleWaysToMakeTowel | 2024/day19/main.go:105-148 | the count is the number of ways to make the towel, and every cache entry stays the number of ways of its key |
| Y2024Day19.CountPossible | 2024/day19/main.go:156-164 | no more towels are possible than there are towels |
| Y2024Day19.CountBelowTotal | 2024/day19/main.go:156-172 | the number of possible towels is at most the total number of ways |
| Y2024Day19.CountPossibleTowels | 2024/day19/main.go:156-164 | the count is the number of possible towels, between 0 and the number of towels |
| Y2024Day19.NumPossibleWaysToMakeTowels | 2024/day19/main.go:166-172 | the count is the sum of the ways of the towels |
| Y2024Day19.TrimAllWords | 2024/day19/main.go:189-191 | trimming parts that are words already changes nothing |
| Y2024Day19.TrimAllPrefix | 2024/day19/main.go:189-191 | the loop over the parts trims one more part each time |
| Y2024Day19.ReadPatterns | 2024/day19/main.go:188-192 | the patterns of the first line are its comma-separated parts, each trimmed |
| Y2024Day19.ParseInputLines | 2024/day19/main.go:174-201 | the loop over the lines builds the parse: empty lines skipped, the first line the patterns, every other line a trimmed towel |
| Y2024Day19.ParseInputText | 2024/day19/main.go:174-201 | patterns joined by commas, an empty line and one towel per line parse back to those patterns and towels |
| Y2024Day19.PatternsOfJoin | 2024/day19/main.go:188-192 | patterns joined by commas read back as themselves |
| Y2024Day19.PatternsOfWords | 2024/day19/main.go:188-192 | a line whose comma-separated parts are words gives exactly those parts |
| Y2024Day19.ParseHead | 2024/day19/main.go:182-194 | a pattern line followed by an empty line gives those patterns and no towels |
| Y2024Day19.ParseTail | 2024/day19/main.go:182-198 | each later trimmed towel line appends that towel |
| Y2024Day19.ParseTowelLine | 2024/day19/main.go:196-197 | a non-empty trimmed line after the first appends itself as a towel |
| Y2024Day19.SolvePart1 | 2024/day19/main.go:31-34 | the decimal number of possible towels; None when an available pattern is empty |
| Y2024Day19.SolvePart2 | 2024/day19/main.go:36-39 | the decimal total number of ways; None when an available pattern is empty |
| Y2024Day19.SmallExample | 2024/day19/main.go:67-148 | example: with patterns r, b and rb the towel rb has two ways and g is impossible |
| Y2024Day20.At | 2024/day20/main.go:77 | a cell missing from the grid reads as rune 0, so it counts as open |
| Y2024Day20.DirectionAdjacent | 2024/day20/main.go:75-76 | each of the four directions reaches an adjacent cell |
| Y2024Day20.DirectionsCover | 2024/day20/main.go:75-76 | every adjacent cell is reached by one of the four directions |
| Y2024Day20.PathPrefix | 2024/day20/main.go:78 | dropping the last cell of a path leaves a path |
| Y2024Day20.PathSnoc | 2024/day20/main.go:75-79 | a path extended by a move to an adjacent open cell is a path |
| Y2024Day20.InitStep | 2024/day20/main.go:71 | the queue holding only the start at distance 0 satisfies the search invariant |
| Y2024Day20.PopStep | 2024/day20/main.go:73-74 | popping the front of the queue keeps the search invariant, the popped cell now expanded at its distance |
| Y2024Day20.AddStep | 2024/day20/main.go:76-79 | recording a new open neighbour at one more than the current distance and queueing it keeps the search invariant |
| Y2024Day20.EmptyStep | 2024/day20/main.go:72-81 | when the queue empties, the recorded cells are exactly the reachable ones, each at its shortest distance |
| Y2024Day20.Distances | 2024/day20/main.go:70-81 | on a walled-in track the search records exactly the cells reachable from the start, each at the length of a shortest path to it |
| Y2024Day20.DistanceMapUnique | 2024/day20/main.go:70-81 | there is only one such distance map, so the map-iteration order of the count cannot change it |
| Y2024Day20.Manhattan | 2024/day20/main.go:88 | the Manhattan distance is non-negative and 0 exactly for the same cell |
| Y2024Day20.TagSize | 2024/day20/main.go:87-92 | pairing each target with the same first cell keeps their number |
| Y2024Day20.TargetsStep | 2024/day20/main.go:87-92 | each pass of the inner loop adds one exactly when the new cell is a cheat target |
| Y2024Day20.PairsStep | 2024/day20/main.go:86-93 | each pass of the outer loop adds the cheats from the new first cell |
| Y2024Day20.CountTargets | 2024/day20/main.go:87-92 | the inner loop counts the recorded cells a cheat from p1 reaches: within cheatDistance and saving at least goalTimeSave |
| Y2024Day20.CountPairs | 2024/day20/main.go:85-95 | the two loops count the ordered pairs of recorded cells that are cheats |
| Y2024Day20.CountCheats | 2024/day20/main.go:69-96 | the answer is the number of cheats over the distance map of the track |
| Y2024Day20.CheatsMonotone | 2024/day20/main.go:88-89 | a longer cheat distance or a smaller goal keeps every cheat, so the count can only grow; part 2 counts at least as many as part 1 |
| Y2024Day20.RowMapMeaning | 2024/day20/main.go:51-60 | a row gives exactly its cells, each with its rune |
| Y2024Day20.GridOfMeaning | 2024/day20/main.go:50-61 | the grid holds exactly the cells of the fields, each with its rune |
| Y2024Day20.LastInRow | 2024/day20/main.go:51-57 | a found column lies inside the row |
| Y2024Day20.LastCell | 2024/day20/main.go:50-61 | a found cell lies inside the fields |
| Y2024Day20.LastInRowMeaning | 2024/day20/main.go:51-57 | None exactly when the rune is missing from the row; otherwise the rune is at the column and not after it |
| Y2024Day20.LastCellMeaning | 2024/day20/main.go:50-61 | None exactly when no cell holds the rune; otherwise the cell holds it and no later cell in reading order does, since each later find overwrites the earlier |
| Y2024Day20.FoundStep | 2024/day20/main.go:52-57 | each rune of the row overwrites the found cell when it matches |
| Y2024Day20.FoundRow | 2024/day20/main.go:50-61 | at the start of a row the found cell is the last one in the rows before, and at its end the last one up to that row |
| Y2024Day20.GridStep | 2024/day20/main.go:59 | each rune adds its cell to the grid |
| Y2024Day20.GridRow | 2024/day20/main.go:50-61 | a finished row adds all of its cells |
| Y2024Day20.ParseInput | 2024/day20/main.go:48-67 | the grid of the white-space separated fields with the last S as start and the last E as end, (0, 0) when missing |
| Y2024Day20.SolvePart1 | 2024/day20/main.go:32-35 | the decimal number of cheats of at most 2 that save at least 100 |
| Y2024Day20.SolvePart2 | 2024/day20/main.go:37-40 | the decimal number of cheats of at most 20 that save at least 100 |

## Left out

- The HTTP client, the cookie jar and the file reads and writes (common/problemsolver.go:101-133): the cache is a map from path to contents and the fetch is a function from URL to body or error, both passed in.
- 2023/day01's own copies of the input plumbing: GetInput, GetInputFromWebsite, initHttpClient and check (2023/day01/main.go:116-199). They are the same I/O as the shared reader; the cookie parsing they share is modelled once, as Harness.ReadCookies.
- 2023/day01 SolvePart2 only returns the placeholder text "Solving problem" and is not modelled.
- Command-line parsing through the flag library (common/flags.go): a flag that was given is Some(value), an absent one None, and only the documented defaults are kept. The defaults taken from `time.Now()` are parameters, because the clock is not modelled.
- common/errors.go reports errors by panicking. A panic becomes a None or error result, or a precondition where it is an index error that callers avoid.
- common/testing.go and the test drivers: the test harness is not modelled. Only the part 1 answer of 2023/day08 appears, as Y2023Day08.ExampleTakesTwoSteps; the expected answers of the other test drivers are not stated.
- The skeleton generator, its templates and scripts/cmd: code generation and file-system access.
- 2024/day03 is a single call into the regular-expression library, whose matching rules are not part of this model. 2023/day05 consists of empty stubs.
- Solvers whose part 2 is a stub returning "" are modelled for part 1 only: 2023 days 02, 04, 06 and 08, and 2024 days 02, 06, 07, 09, 11, 12, 14 and 15.
- 2023/day07 part 2 panics with "not implemented" and is not modelled.
- 2024/day16 part 2 (Solve2, the count of cells on all best paths) is not modelled. Its path bookkeeping and its handling of ties are not captured; only part 1, the lowest score, is. The PENALTY constant is unused by the code and is not modelled.
- 2024/day17 ComputeOutputFormulas builds symbolic strings that nothing uses; the commented-out concurrent brute force is not code. Neither is modelled.
- The call into the external d14 package in 2024/day14 is not modelled, because that package is not part of this model.
- Debug output (PrettyPrint, Println, Printf) is not modelled.
- Regular-expression splitting in 2023 days 02, 04, 06 and 08 is replaced by hand-written splitters. They agree with the expressions on the separators those expressions match (runs of spaces, ": ", " | ", "Game n:").
- 2023/day07 bids are float64 values printed with `%.0f`. Here they are integers, so the total is an exact integer.
- 2023/day04 computes a card's points with `math.Pow` on floats. Here they are an integer power of two.
- unicode.IsDigit and similar are modelled on ASCII only. Strings are sequences of characters, so the byte offsets that Go's `range` yields are character indices here. The two agree on ASCII input.
- Go map iteration order and the order sort.Slice leaves equal elements in are not modelled. Every result that iterates a map is proved independent of the order. 2023/day07's sort is modelled as an insertion sort; sort.Slice may order hands of equal strength differently, which changes the answer only when their bids differ.
- Go's 64-bit `int` and `int64` are unbounded integers here. The model does not capture the overflow of `1 << n` in 2024/day07 with more than 63 operators, of the int64 totals in 2024/day13, or of large stone values in 2024/day11. 2024/day17 does model `1 << k` and `^` at Go's 64-bit width; its register values are otherwise unbounded.
- Y2024Day20.SolvePart1: requires the track to be enclosed by walls (every open cell has all four neighbours inside the grid). This is stronger than the Go code needs: its breadth-first search reads only the neighbours of cells it reaches from the start, so a grid with an open cell on its border that the search never reaches is answered by Go and refused here. The same holds for Y2024Day20.SolvePart2, Y2024Day20.Distances and Y2024Day20.CountCheats.
- Y2024Day20.ParseInput: when S or E is missing, the start or end is (0, 0), as in the Go zero value. The end point is parsed but not used by the code.
- Y2024Day19.SolvePart1: returns None when an available pattern is empty. The Go recursion may not terminate in that case, but it sometimes does: with the patterns "r" and "" (in that order) the towel "r" is matched by "r" before the empty pattern is tried, so Go answers true. The same holds for Y2024Day19.SolvePart2.
- Y2024Day15.SolvePart1: returns None unless the room is rectangular and walled in by '#', and the robot is found in it. The Go code indexes the grid without bounds checks and relies on that wall.
- Y2024Day10.SolvePart1: returns None for a ragged grid (rows of different lengths). This over-approximates Go's failure: the Go code bounds columns by the length of the first row (2024/day10/main.go:138-140, 2024/day12/main.go:146-147, 2024/day16/main.go:195-196), so a row longer than the first never panics, and a shorter one panics only when a walk reaches a missing cell. The same holds for Y2024Day10.SolvePart2, Y2024Day12.SolvePart1 and Y2024Day16.SolvePart1.
- Y2023Day07.SolvePart1: returns None whenever two hands differ in size. The Go comparison panics only when one hand is a proper prefix of the other, so this over-approximates the panic.
- Y2024Day05.SolvePart2: the recursive correction takes a fuel bound. A None answer can also mean that the fuel ran out; the code recurses without a bound.
- Y2024Day06.SolvePart1: the guard's walk takes a fuel bound. None covers an index panic and also a guard still walking when the fuel runs out, such as one caught in a loop, where the Go recursion never returns.
- Y2023Day08.SolvePart1: the walk takes a bound on the number of passes over the instructions. Only an answer that is given is characterised; None covers both a parse failure and a walk that has not reached "ZZZ" within the bound, where the Go loop runs on.
- Y2024Day17.SolvePart1: the machine runs with a fuel bound on executed instructions; a program that does not halt within it yields None.
- Y2024Day17.SolvePart2: states only what an answer other than "-1" means (a value of A whose run prints the program). The search's -1 case is characterised on Y2024Day17.RecoverRegisterA.
- Y2024Day13.SolvePart2: the Go totals are int64, and the 10000000000000 offset added in part 2 is modelled without overflow.
- Y2024Day13.SolvePart1: part 1 answers every game whose buttons admit non-negative weights under which each press gains (Y2024Day13.Weights), or where the claw starts past or on the prize; every other game makes it return None (Y2024Day13.GameCostNone). The Go recursion runs forever on some of those games, for example A = (1, -1), B = (-1, 1) with the prize at (1, 0) (Y2024Day13.UndoingButtons), but termination is not shown to fail for every one of them, so Go may answer some games this model refuses. The same holds for Y2024Day13.TotalCostToPrizes and Y2024Day13.CostOfGame.
- Y2024Day13.GameCostPart1: that a reachable prize adds the price of some winning presses is proved only for buttons that both move forward. With a backward component, Go's "past the prize" test can give up on a point from which presses still reach the prize, and the game then adds 0. The same restriction applies to Y2024Day13.ReachesBefore, Y2024Day13.RouteIsCosted, Y2024Day13.CostUnreachable and Y2024Day13.CostIntendedLowest.
- common.ReadAsLines and common.Itoa are called by the solvers but are not part of common/ as it stands, so they are not part of this model. ReadAsLines is used by 2024 days 14, 15, 17, 18 and 19, and Itoa by 2024 days 19 and 20. The models take the lines as given (split at "\n"); 2024/day17 assumes strings.Split on "\n", and 2024/day18's room size depends on the number of lines, so a different line splitting would change its answer. Itoa is taken to be the decimal rendering of strconv.Itoa.
- Utils.RemoveIndex: is a pure function on sequences. The Go version builds its result with append on the caller's slice, so it overwrites the caller's backing array from the removed index on; Utils.Insert likewise shifts the caller's elements with copy. That aliasing is not modelled. Its one caller, the 2024/day05 correction, passes a fresh copy of the pages (2024/day05/main.go:65-69) and uses only the returned slices, so its answer does not depend on the overwrite.

## Findings

Each finding below is modelled twice. The member that models the solver keeps the code's behaviour as written, and a lemma exhibits the input where it departs from the evident intent. A corrected definition then carries the intended property, proved for all inputs.

| source | as written | input that shows it | evidently intended | confidence | as-written member | corrected member |
|---|---|---|---|---|---|---|
| 2024/day14/main.go:85 | Step sets the robot's Y to steps times Dy and drops its starting Y | a robot at (0, 0) moving (0, 1) in the 11 by 7 room is at (0, 2) after two rounds of 100 steps, but at (0, 4) after 200 steps | Y advances like X, from the starting Y, modulo the height, so that moves compose | not executed | Y2024Day14.MoveRobotNotAdditive | Y2024Day14.MoveRobotIntendedAdditive |
| 2024/day14/main.go:118 | WhichQuadrant puts X >= Width/2 on the right only above the middle row, so the upper half of the middle column is counted in quadrant 1 and the lower half in none | the point (5, 0) in the 11 by 7 room lies on the middle column but is counted in quadrant 1 | robots on the middle column are in no quadrant, and the quadrants mirror each other about it | not executed | Y2024Day14.QuadrantAsWrittenNotMirrored | Y2024Day14.QuadrantIntendedMirror |
| 2024/day13/main.go:100-103 | CostToPrize keeps the branch with the smaller remaining cost without adding the price of the press that led to it | with A = (2, 2), B = (1, 1) and the prize at (2, 2), the code answers 3 (one A press) although two B presses cost 2 | the comparison includes each button's price, so the answer is the cheapest way to reach the prize | not executed | Y2024Day13.CostNotLowest | Y2024Day13.CostIntendedLowest |
