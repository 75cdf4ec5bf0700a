/** 2023/day03: the engine schematic. Numbers are maximal runs of digits in
    a row of the grid; a part number touches a symbol in one of the eight
    neighbouring cells, and a gear is a '*' touched by exactly two numbers. */
module Y2023Day03 {
  import opened Text

  /** The schematic, one row per line. */
  type Grid = seq<string>

  predicate InBounds(grid: Grid, row: int, col: int) {
    0 <= row < |grid| && 0 <= col < |grid[row]|
  }

  // ---------------------------------------------------------------------
  // IsSpecialChar and IsGear

  const SpecialChars: seq<char> := ['#', '~', '|', '*', '/', '%', '$', '=', '@', '&', '-', '+']

  predicate Special(c: char) {
    c in SpecialChars
  }

  /** IsSpecialChar: a search of the list of symbols. */
  method IsSpecialChar(c: char) returns (special: bool)
    ensures special == Special(c)
  {
    for i := 0 to |SpecialChars|
      invariant c !in SpecialChars[..i]
    {
      if c == SpecialChars[i] {
        return true;
      }
    }
    assert SpecialChars[..|SpecialChars|] == SpecialChars;
    return false;
  }

  /** The twelve symbols are special; '.', the digits and the letters are not. */
  lemma SpecialCharsListed(c: char)
    ensures Special(c) <==> c in {'#', '~', '|', '*', '/', '%', '$', '=', '@', '&', '-', '+'}
    ensures c == '.' || IsDigit(c) || 'a' <= c <= 'z' || 'A' <= c <= 'Z' ==> !Special(c)
  {
  }

  predicate Gear(c: char) {
    c == '*'
  }

  // ---------------------------------------------------------------------
  // IsOkay and GetOkayKey

  /** The k-th cell of the 3x3 block around (r, c), in row-major order,
      lies in the grid and satisfies check. */
  predicate Matches(grid: Grid, r: int, c: int, check: char -> bool, k: nat) {
    var row, col := r - 1 + k / 3, c - 1 + k % 3;
    InBounds(grid, row, col) && check(grid[row][col])
  }

  /** The first cell of the 3x3 block around (r, c), from the k-th on in
      row-major order, that lies in the grid and satisfies check. */
  function FirstMatch(grid: Grid, r: int, c: int, check: char -> bool, k: nat): (p: Option<(int, int)>)
    decreases 9 - k
  {
    if k >= 9 then None
    else if Matches(grid, r, c, check, k) then Some((r - 1 + k / 3, c - 1 + k % 3))
    else FirstMatch(grid, r, c, check, k + 1)
  }

  /** A cell found lies in the block and in the grid, and satisfies check. */
  lemma {:induction false} FirstMatchCell(grid: Grid, r: int, c: int, check: char -> bool, k: nat)
    ensures var p := FirstMatch(grid, r, c, check, k);
      p.Some? ==> (InBounds(grid, p.value.0, p.value.1) && check(grid[p.value.0][p.value.1])
        && r - 1 <= p.value.0 <= r + 1 && c - 1 <= p.value.1 <= c + 1)
    decreases 9 - k
  {
    if k < 9 && !Matches(grid, r, c, check, k) {
      FirstMatchCell(grid, r, c, check, k + 1);
    }
  }

  /** What IsOkay decides. */
  predicate Okay(grid: Grid, r: int, c: int, check: char -> bool) {
    FirstMatch(grid, r, c, check, 0).Some?
  }

  /** "row,col" of a cell, and "" for none. */
  function KeyOf(p: Option<(int, int)>): (key: string)
    ensures key == "" <==> p.None?
  {
    match p
    case None => ""
    case Some((row, col)) => Itoa(row) + "," + Itoa(col)
  }

  lemma BlockCell(a: int, b: int)
    requires 0 <= a < 3 && 0 <= b < 3
    ensures (3 * a + b) / 3 == a && (3 * a + b) % 3 == b
  {
  }

  lemma {:induction false} FirstMatchFinds(grid: Grid, r: int, c: int, check: char -> bool, k: nat, row: int, col: int)
    requires k <= 3 * (row - r + 1) + (col - c + 1)
    requires r - 1 <= row <= r + 1 && c - 1 <= col <= c + 1
    requires InBounds(grid, row, col) && check(grid[row][col])
    ensures FirstMatch(grid, r, c, check, k).Some?
    decreases 9 - k
  {
    if k < 3 * (row - r + 1) + (col - c + 1) {
      FirstMatchFinds(grid, r, c, check, k + 1, row, col);
    } else {
      BlockCell(row - r + 1, col - c + 1);
      assert Matches(grid, r, c, check, k);
    }
  }

  /** One step of the scan: the cell at block row a and block column b. */
  lemma FirstMatchStep(grid: Grid, r: int, c: int, check: char -> bool, a: int, b: int)
    requires 0 <= a < 3 && 0 <= b < 3
    ensures var row, col := r - 1 + a, c - 1 + b;
      FirstMatch(grid, r, c, check, 3 * a + b)
        == if InBounds(grid, row, col) && check(grid[row][col]) then Some((row, col))
           else FirstMatch(grid, r, c, check, 3 * a + b + 1)
  {
    BlockCell(a, b);
  }

  /** IsOkay holds exactly when some cell of the 3x3 block around (r, c)
      lies in the grid and satisfies check. */
  lemma OkayMeaning(grid: Grid, r: int, c: int, check: char -> bool)
    ensures Okay(grid, r, c, check) <==>
      exists row, col :: r - 1 <= row <= r + 1 && c - 1 <= col <= c + 1
        && InBounds(grid, row, col) && check(grid[row][col])
  {
    if exists row, col :: r - 1 <= row <= r + 1 && c - 1 <= col <= c + 1
        && InBounds(grid, row, col) && check(grid[row][col]) {
      var row, col :| r - 1 <= row <= r + 1 && c - 1 <= col <= c + 1
        && InBounds(grid, row, col) && check(grid[row][col]);
      FirstMatchFinds(grid, r, c, check, 0, row, col);
    }
  }

  /** The index of a cell of the block in row-major order. */
  function BlockIndex(r: int, c: int, p: (int, int)): int {
    3 * (p.0 - r + 1) + (p.1 - c + 1)
  }

  /** GetOkayKey names a cell exactly when IsOkay holds, and that cell is
      the first match in row-major order: every cell before it in the block
      is outside the grid or fails check. */
  lemma OkayKeyMeaning(grid: Grid, r: int, c: int, check: char -> bool)
    ensures KeyOf(FirstMatch(grid, r, c, check, 0)) != "" <==> Okay(grid, r, c, check)
    ensures var p := FirstMatch(grid, r, c, check, 0);
      p.Some? ==> forall k :: 0 <= k < BlockIndex(r, c, p.value) ==> !Matches(grid, r, c, check, k)
  {
    FirstMatchSkips(grid, r, c, check, 0);
  }

  lemma {:induction false} FirstMatchSkips(grid: Grid, r: int, c: int, check: char -> bool, k: nat)
    ensures var p := FirstMatch(grid, r, c, check, k);
      p.Some? ==> (k <= BlockIndex(r, c, p.value)
        && forall k' :: k <= k' < BlockIndex(r, c, p.value) ==> !Matches(grid, r, c, check, k'))
    decreases 9 - k
  {
    if k < 9 {
      if Matches(grid, r, c, check, k) {
        BlockCell(k / 3, k % 3);
        assert BlockIndex(r, c, FirstMatch(grid, r, c, check, k).value) == k;
      } else {
        FirstMatchSkips(grid, r, c, check, k + 1);
        assert FirstMatch(grid, r, c, check, k) == FirstMatch(grid, r, c, check, k + 1);
      }
    }
  }

  /** The inner loop of IsOkay and GetOkayKey over one row of the block:
      it stops at the first matching cell of that row. */
  method ScanRow(grid: Grid, r: int, c: int, check: char -> bool, row: int) returns (p: Option<(int, int)>)
    requires r - 1 <= row <= r + 1
    ensures var k := 3 * (row - r + 1);
      (if p.Some? then p == FirstMatch(grid, r, c, check, k)
       else FirstMatch(grid, r, c, check, k) == FirstMatch(grid, r, c, check, k + 3))
  {
    ghost var a := row - r + 1;
    for col := c - 1 to c + 2
      invariant FirstMatch(grid, r, c, check, 3 * a) == FirstMatch(grid, r, c, check, 3 * a + (col - c + 1))
    {
      FirstMatchStep(grid, r, c, check, a, col - c + 1);
      if row < 0 || row >= |grid| || col < 0 || col >= |grid[row]| {
        continue;
      }
      var candidate := grid[row][col];
      if check(candidate) {
        return Some((row, col));
      }
    }
    return None;
  }

  /** The nested loops of IsOkay and GetOkayKey, which stop at the first
      matching cell. */
  method ScanBlock(grid: Grid, r: int, c: int, check: char -> bool) returns (p: Option<(int, int)>)
    ensures p == FirstMatch(grid, r, c, check, 0)
  {
    for row := r - 1 to r + 2
      invariant FirstMatch(grid, r, c, check, 0) == FirstMatch(grid, r, c, check, 3 * (row - r + 1))
    {
      p := ScanRow(grid, r, c, check, row);
      if p.Some? {
        return;
      }
    }
    return None;
  }

  method IsOkay(grid: Grid, r: int, c: int, check: char -> bool) returns (okay: bool)
    ensures okay == Okay(grid, r, c, check)
  {
    var p := ScanBlock(grid, r, c, check);
    return p.Some?;
  }

  method GetOkayKey(grid: Grid, r: int, c: int, check: char -> bool) returns (key: string)
    ensures key == KeyOf(FirstMatch(grid, r, c, check, 0))
  {
    var p := ScanBlock(grid, r, c, check);
    if p.None? {
      return "";
    }
    return Itoa(p.value.0) + "," + Itoa(p.value.1);
  }

  // ---------------------------------------------------------------------
  // parseInput

  /** parseInput: one row per line except the last, which must be blank
      (the input ends with a newline); a row is its line trimmed, and a
      blank line leaves an empty row. A last line that is not blank writes
      past the end of the rows, which is an error. */
  function ParseGrid(input: string): (grid: Option<Grid>)
    ensures var lines := Split(input, '\n');
      grid.Some? ==> |grid.value| == |lines| - 1
  {
    RowsOf(Split(input, '\n'))
  }

  /** The rows that parseInput makes of the input's lines. */
  function RowsOf(lines: seq<string>): (grid: Option<Grid>)
    requires |lines| >= 1
  {
    if TrimSpace(lines[|lines| - 1]) != "" then None else Some(Trimmed(lines))
  }

  /** Every line but the last, trimmed. */
  function Trimmed(lines: seq<string>): (rows: seq<string>)
    requires |lines| >= 1
    ensures |rows| == |lines| - 1 && forall i :: 0 <= i < |rows| ==> rows[i] == TrimSpace(lines[i])
  {
    seq(|lines| - 1, i requires 0 <= i < |lines| - 1 => TrimSpace(lines[i]))
  }

  method ParseInput(input: string) returns (grid: Option<Grid>)
    ensures grid == ParseGrid(input)
  {
    grid := TrimRows(Split(input, '\n'));
  }

  /** The loop of parseInput: a row per line, the last line left out. */
  method TrimRows(lines: seq<string>) returns (grid: Option<Grid>)
    requires |lines| >= 1
    ensures grid == RowsOf(lines)
  {
    ghost var rows := Trimmed(lines);
    var result: seq<string> := seq(|lines| - 1, _ => "");
    for i := 0 to |lines|
      invariant |result| == |rows|
      invariant forall k :: 0 <= k < |result| ==> result[k] == if k < i then rows[k] else ""
      invariant i == |lines| ==> TrimSpace(lines[|lines| - 1]) == ""
    {
      var cleanLine := TrimSpace(lines[i]);
      if cleanLine == "" {
        if i < |result| {
          FillRow(result, rows, i, cleanLine);
          assert result[i := cleanLine] == result;
        }
        continue;
      }
      if i >= |result| {
        assert lines[i] == lines[|lines| - 1];
        return None;
      }
      FillRow(result, rows, i, cleanLine);
      result := result[i := cleanLine];
    }
    assert result == rows;
    return Some(result);
  }

  /** The step of parseInput's loop: row i gets its trimmed line. */
  lemma FillRow(result: seq<string>, rows: seq<string>, i: int, row: string)
    requires |result| == |rows| && 0 <= i < |rows| && rows[i] == row
    requires forall k :: 0 <= k < |result| ==> result[k] == if k < i then rows[k] else ""
    ensures forall k :: 0 <= k < |result| ==> result[i := row][k] == if k < i + 1 then rows[k] else ""
  {
  }

  /** Trimmed rows, each followed by a newline, read back as the grid. */
  lemma ParseGridOfRows(rows: seq<string>)
    requires |rows| >= 1
    requires forall i :: 0 <= i < |rows| ==> '\n' !in rows[i] && TrimSpace(rows[i]) == rows[i]
    ensures ParseGrid(Join(rows, '\n') + "\n") == Some(rows)
  {
    RowsLines(rows);
    GridOfLines(Join(rows, '\n') + "\n", rows);
  }

  lemma RowsLines(rows: seq<string>)
    requires |rows| >= 1
    requires forall i :: 0 <= i < |rows| ==> '\n' !in rows[i]
    ensures Split(Join(rows, '\n') + "\n", '\n') == rows + [""]
  {
    JoinSnoc(rows, "", '\n');
    assert Join(rows, '\n') + "\n" == Join(rows + [""], '\n');
    var lines := rows + [""];
    assert forall i :: 0 <= i < |lines| ==> '\n' !in lines[i];
    SplitJoin(lines, '\n');
  }

  lemma GridOfLines(input: string, rows: seq<string>)
    requires Split(input, '\n') == rows + [""]
    requires forall i :: 0 <= i < |rows| ==> TrimSpace(rows[i]) == rows[i]
    ensures ParseGrid(input) == Some(rows)
  {
    var lines := rows + [""];
    assert lines[|lines| - 1] == "";
    assert TrimSpace("") == "";
    var g := ParseGrid(input).value;
    forall i | 0 <= i < |rows|
      ensures g[i] == rows[i]
    {
      assert g[i] == TrimSpace(lines[i]);
      assert lines[i] == rows[i];
    }
    assert g == rows;
  }
  // ---------------------------------------------------------------------
  // SolvePart1: the part numbers

  /** The start of the run of digits that ends just before column j: j
      itself when column j-1 is not a digit. */
  function RunStart(line: string, j: nat): (st: nat)
    requires j <= |line|
    ensures st <= j && AllDigits(line[st..j])
    ensures st == 0 || !IsDigit(line[st - 1])
    ensures j > 0 && IsDigit(line[j - 1]) ==> st < j
  {
    if j == 0 || !IsDigit(line[j - 1]) then j
    else
      var st := RunStart(line, j - 1);
      assert line[st..j] == line[st..j - 1] + [line[j - 1]];
      st
  }

  /** Some cell in columns st..j-1 of row r touches a symbol. */
  predicate RunOkay(grid: Grid, r: int, st: nat, j: nat) {
    exists k :: st <= k < j && Okay(grid, r, k, Special)
  }

  /** The run st..j touches a symbol when st..j-1 does or column j does. */
  lemma RunOkayStep(grid: Grid, r: int, st: nat, j: nat)
    requires st <= j
    ensures RunOkay(grid, r, st, j + 1) == (RunOkay(grid, r, st, j) || Okay(grid, r, j, Special))
  {
    if RunOkay(grid, r, st, j + 1) && !Okay(grid, r, j, Special) {
      var k :| st <= k < j + 1 && Okay(grid, r, k, Special);
      assert k < j;
    }
  }

  /** The sum of the part numbers of row r within columns 0..j-1, a run
      reaching column j-1 counting as ending there. */
  function RowSum(grid: Grid, r: nat, j: nat): int
    requires r < |grid| && j <= |grid[r]|
    decreases j
  {
    var line := grid[r];
    if j == 0 then 0
    else if !IsDigit(line[j - 1]) then RowSum(grid, r, j - 1)
    else
      var st := RunStart(line, j);
      RowSum(grid, r, st) + (if RunOkay(grid, r, st, j) then DigitsValue(line[st..j]) else 0)
  }

  /** The sum of the part numbers of rows 0..r-1. */
  function GridSum(grid: Grid, r: nat): int
    requires r <= |grid|
  {
    if r == 0 then 0 else GridSum(grid, r - 1) + RowSum(grid, r - 1, |grid[r - 1]|)
  }

  /** A digit at column j extends the current run. */
  lemma DigitStep(grid: Grid, r: nat, j: nat)
    requires r < |grid| && j < |grid[r]| && IsDigit(grid[r][j])
    ensures var st := RunStart(grid[r], j);
      RunStart(grid[r], j + 1) == st && grid[r][st..j + 1] == grid[r][st..j] + [grid[r][j]]
      && RunOkay(grid, r, st, j + 1) == (RunOkay(grid, r, st, j) || Okay(grid, r, j, Special))
  {
    RunOkayStep(grid, r, RunStart(grid[r], j), j);
  }

  /** A non-digit at column j ends the current run, which RowSum then counts
      if it touches a symbol; the next run starts after column j. */
  lemma NonDigitStep(grid: Grid, r: nat, j: nat)
    requires r < |grid| && j < |grid[r]| && !IsDigit(grid[r][j])
    ensures var st := RunStart(grid[r], j);
      RunStart(grid[r], j + 1) == j + 1
      && RowSum(grid, r, j + 1) == RowSum(grid, r, st)
        + (if RunOkay(grid, r, st, j) then DigitsValue(grid[r][st..j]) else 0)
  {
    RowSumEnd(grid, r, j);
  }

  /** RowSum at any column: the finished runs before the current one, plus
      the current one if it touches a symbol. */
  lemma RowSumEnd(grid: Grid, r: nat, j: nat)
    requires r < |grid| && j <= |grid[r]|
    ensures var st := RunStart(grid[r], j);
      RowSum(grid, r, j) == RowSum(grid, r, st)
        + (if RunOkay(grid, r, st, j) then DigitsValue(grid[r][st..j]) else 0)
  {
  }

  /** The current number, when there is one, reads as its digits' value. */
  lemma RunReads(line: string, j: nat)
    requires j <= |line|
    ensures var st := RunStart(line, j);
      st < j ==> Atoi(line[st..j]) == Some(DigitsValue(line[st..j]))
  {
    var st := RunStart(line, j);
    if st < j {
      assert IsDigit(line[st..j][0]);
    }
  }

  /** The scan of SolvePart1: the current number and whether it touches a
      symbol, added to the result when the number ends (at a non-digit or at
      the end of the row). */
  method SumPartNumbers(grid: Grid) returns (result: int)
    ensures result == GridSum(grid, |grid|)
  {
    result := 0;
    var isOnNumber := false;
    var currentNumber := "";
    var currentNumberOkay := false;
    for rowIdx := 0 to |grid|
      invariant result == GridSum(grid, rowIdx)
      invariant !isOnNumber && currentNumber == "" && !currentNumberOkay
    {
      var line := grid[rowIdx];
      ghost var st: nat := 0;
      for colIdx := 0 to |line|
        invariant st == RunStart(line, colIdx)
        invariant result == GridSum(grid, rowIdx) + RowSum(grid, rowIdx, st)
        invariant isOnNumber == (st < colIdx)
        invariant currentNumber == line[st..colIdx]
        invariant currentNumberOkay == RunOkay(grid, rowIdx, st, colIdx)
      {
        var ch := line[colIdx];
        if IsDigit(ch) {
          DigitStep(grid, rowIdx, colIdx);
          isOnNumber := true;
          currentNumber := currentNumber + [ch];
          if !currentNumberOkay {
            currentNumberOkay := IsOkay(grid, rowIdx, colIdx, Special);
          }
        } else {
          NonDigitStep(grid, rowIdx, colIdx);
          RunReads(line, colIdx);
          if isOnNumber {
            if currentNumberOkay {
              result := result + Atoi(currentNumber).value;
            }
            isOnNumber := false;
            currentNumber := "";
            currentNumberOkay := false;
          }
          st := colIdx + 1;
        }
      }
      RowSumEnd(grid, rowIdx, |line|);
      RunReads(line, |line|);
      assert GridSum(grid, rowIdx + 1) == GridSum(grid, rowIdx) + RowSum(grid, rowIdx, |line|);
      if isOnNumber {
        if currentNumberOkay {
          result := result + Atoi(currentNumber).value;
        }
        isOnNumber := false;
        currentNumber := "";
        currentNumberOkay := false;
      }
    }
  }

  /** SolvePart1: the sum of the part numbers; None where parseInput fails. */
  method SolvePart1(input: string) returns (answer: Option<string>)
    ensures answer == match ParseGrid(input)
      case None => None
      case Some(grid) => Some(Itoa(GridSum(grid, |grid|)))
  {
    var grid := ParseInput(input);
    if grid.None? {
      return None;
    }
    var result := SumPartNumbers(grid.value);
    return Some(Itoa(result));
  }

  /** Without a symbol in the grid there are no part numbers. */
  lemma {:induction false} NoSymbolNoParts(grid: Grid, r: nat)
    requires r <= |grid|
    requires forall row, col :: InBounds(grid, row, col) ==> !Special(grid[row][col])
    ensures GridSum(grid, r) == 0
  {
    if r > 0 {
      NoSymbolNoParts(grid, r - 1);
      NoSymbolRow(grid, r - 1, |grid[r - 1]|);
    }
  }

  lemma {:induction false} NoSymbolRow(grid: Grid, r: nat, j: nat)
    requires r < |grid| && j <= |grid[r]|
    requires forall row, col :: InBounds(grid, row, col) ==> !Special(grid[row][col])
    ensures RowSum(grid, r, j) == 0
    decreases j
  {
    if j > 0 {
      var st := RunStart(grid[r], j);
      if IsDigit(grid[r][j - 1]) {
        NoSymbolRow(grid, r, st);
        forall k | st <= k < j
          ensures !Okay(grid, r, k, Special)
        {
          OkayMeaning(grid, r, k, Special);
        }
      } else {
        NoSymbolRow(grid, r, j - 1);
      }
    }
  }
  // ---------------------------------------------------------------------
  // SolvePart2: the gear ratios

  /** GetOkayKey with IsGear at column k of row r. */
  function GearKey(grid: Grid, r: int, k: int): string {
    KeyOf(FirstMatch(grid, r, k, Gear, 0))
  }

  /** The first non-empty key among keyAt(st), ..., keyAt(j-1); "" when
      all are empty. */
  function FirstKey(keyAt: int -> string, st: nat, j: nat): string
    decreases j
  {
    if j <= st then ""
    else
      var prev := FirstKey(keyAt, st, j - 1);
      if prev != "" then prev else keyAt(j - 1)
  }

  lemma {:induction false} FirstKeyEmpty(keyAt: int -> string, st: nat, j: nat)
    ensures FirstKey(keyAt, st, j) == "" <==> forall k :: st <= k < j ==> keyAt(k) == ""
    decreases j
  {
    if st < j {
      FirstKeyEmpty(keyAt, st, j - 1);
    }
  }

  lemma {:induction false} FirstKeyFirst(keyAt: int -> string, st: nat, j: nat) returns (k: nat)
    requires FirstKey(keyAt, st, j) != ""
    ensures st <= k < j && FirstKey(keyAt, st, j) == keyAt(k)
    ensures forall k' :: st <= k' < k ==> keyAt(k') == ""
    decreases j
  {
    if FirstKey(keyAt, st, j - 1) != "" {
      k := FirstKeyFirst(keyAt, st, j - 1);
    } else {
      FirstKeyEmpty(keyAt, st, j - 1);
      k := j - 1;
    }
  }

  /** The gear key of the run in columns st..j-1: the key of the first
      column, left to right, that touches a '*'; "" when none does. */
  function RunGearKey(grid: Grid, r: int, st: nat, j: nat): string {
    FirstKey(k => GearKey(grid, r, k), st, j)
  }

  /** The run has no key exactly when none of its columns touches a '*'. */
  lemma RunGearKeyEmpty(grid: Grid, r: int, st: nat, j: nat)
    ensures RunGearKey(grid, r, st, j) == "" <==> forall k :: st <= k < j ==> GearKey(grid, r, k) == ""
  {
    var keyAt := k => GearKey(grid, r, k);
    assert RunGearKey(grid, r, st, j) == FirstKey(keyAt, st, j);
    FirstKeyEmpty(keyAt, st, j);
    assert forall k :: keyAt(k) == GearKey(grid, r, k);
  }

  /** A key found is that of the first column of the run touching a '*'. */
  lemma RunGearKeyFirst(grid: Grid, r: int, st: nat, j: nat) returns (k: nat)
    requires RunGearKey(grid, r, st, j) != ""
    ensures st <= k < j && RunGearKey(grid, r, st, j) == GearKey(grid, r, k)
    ensures forall k' :: st <= k' < k ==> GearKey(grid, r, k') == ""
  {
    var keyAt := k => GearKey(grid, r, k);
    assert RunGearKey(grid, r, st, j) == FirstKey(keyAt, st, j);
    k := FirstKeyFirst(keyAt, st, j);
    assert forall k :: keyAt(k) == GearKey(grid, r, k);
  }

  /** The numbers attached to a gear key, in scan order. */
  type Attachment = (string, int)

  /** The attachments of row r within columns 0..j-1: each run with a gear
      key contributes (key, value), a run reaching column j-1 counting as
      ending there. */
  function RowAttach(grid: Grid, r: nat, j: nat): seq<Attachment>
    requires r < |grid| && j <= |grid[r]|
    decreases j
  {
    var line := grid[r];
    if j == 0 then []
    else if !IsDigit(line[j - 1]) then RowAttach(grid, r, j - 1)
    else
      var st := RunStart(line, j);
      var key := RunGearKey(grid, r, st, j);
      RowAttach(grid, r, st) + (if key != "" then [(key, DigitsValue(line[st..j]))] else [])
  }

  /** The attachments of rows 0..r-1. */
  function GridAttach(grid: Grid, r: nat): seq<Attachment>
    requires r <= |grid|
  {
    if r == 0 then [] else GridAttach(grid, r - 1) + RowAttach(grid, r - 1, |grid[r - 1]|)
  }

  /** value appended to the list of key, which starts empty. */
  function AddTo(m: map<string, seq<int>>, key: string, value: int): map<string, seq<int>> {
    m[key := (if key in m then m[key] else []) + [value]]
  }

  /** gearMap after the attachments att, appended in order. */
  function Group(att: seq<Attachment>): map<string, seq<int>> {
    if att == [] then map[]
    else AddTo(Group(att[..|att| - 1]), att[|att| - 1].0, att[|att| - 1].1)
  }

  /** The values attached to key, in order. */
  function ValuesOf(att: seq<Attachment>, key: string): seq<int> {
    if att == [] then []
    else ValuesOf(att[..|att| - 1], key) + (if att[|att| - 1].0 == key then [att[|att| - 1].1] else [])
  }

  /** gearMap holds exactly the keys that have a value, each with all its
      values in order. */
  lemma {:induction false} GroupMeaning(att: seq<Attachment>)
    ensures forall key :: key in Group(att) <==> ValuesOf(att, key) != []
    ensures forall key :: key in Group(att) ==> Group(att)[key] == ValuesOf(att, key)
  {
    if att != [] {
      GroupMeaning(att[..|att| - 1]);
    }
  }

  /** A gear's ratio: the product of its two numbers, or 0 for any other count. */
  function Ratio(values: seq<int>): int {
    if |values| == 2 then values[0] * values[1] else 0
  }

  /** Some key of a non-empty gear map. */
  ghost function Pick(m: map<string, seq<int>>): (key: string)
    requires m != map[]
    ensures key in m
  {
    assert m.Keys != {};
    var key :| key in m;
    key
  }

  /** The sum of the ratios of a gear map, in no particular order. */
  ghost function MapTotal(m: map<string, seq<int>>): int
    decreases |m|
  {
    if m == map[] then 0
    else
      var key := Pick(m);
      Ratio(m[key]) + MapTotal(m - {key})
  }

  /** The total does not depend on the key taken first. */
  lemma {:induction false} MapTotalRemove(m: map<string, seq<int>>, key: string)
    requires key in m
    ensures MapTotal(m) == Ratio(m[key]) + MapTotal(m - {key})
    decreases |m|
  {
    var first := Pick(m);
    if first != key {
      var rest := m - {first};
      MapTotalRemove(rest, key);
      MapTotalRemove(m - {key}, first);
      assert rest - {key} == (m - {key}) - {first};
    }
  }

  /** A digit at column j extends the current run and may set its key. */
  lemma GearDigitStep(grid: Grid, r: nat, j: nat)
    requires r < |grid| && j < |grid[r]| && IsDigit(grid[r][j])
    ensures var st := RunStart(grid[r], j);
      RunStart(grid[r], j + 1) == st && grid[r][st..j + 1] == grid[r][st..j] + [grid[r][j]]
      && RunGearKey(grid, r, st, j + 1)
        == if RunGearKey(grid, r, st, j) != "" then RunGearKey(grid, r, st, j) else GearKey(grid, r, j)
  {
  }

  /** RowAttach at any column: the finished runs before the current one,
      plus the current one if it has a key. */
  lemma RowAttachEnd(grid: Grid, r: nat, j: nat)
    requires r < |grid| && j <= |grid[r]|
    ensures var st := RunStart(grid[r], j);
      var key := RunGearKey(grid, r, st, j);
      RowAttach(grid, r, j) == RowAttach(grid, r, st)
        + (if key != "" then [(key, DigitsValue(grid[r][st..j]))] else [])
  {
  }

  /** A non-digit at column j ends the current run. */
  lemma GearNonDigitStep(grid: Grid, r: nat, j: nat)
    requires r < |grid| && j < |grid[r]| && !IsDigit(grid[r][j])
    ensures RunStart(grid[r], j + 1) == j + 1 && RowAttach(grid, r, j + 1) == RowAttach(grid, r, j)
  {
  }

  /** Ending the number in columns st..j-1 of row r adds it to gearMap under
      its key, if it has one. */
  lemma GroupRunEnd(done: seq<Attachment>, grid: Grid, r: nat, j: nat)
    requires r < |grid| && j <= |grid[r]|
    ensures var st := RunStart(grid[r], j);
      var key := RunGearKey(grid, r, st, j);
      var before := Group(done + RowAttach(grid, r, st));
      Group(done + RowAttach(grid, r, j))
        == if key != "" then AddTo(before, key, DigitsValue(grid[r][st..j])) else before
  {
    RowAttachEnd(grid, r, j);
    var st := RunStart(grid[r], j);
    var key := RunGearKey(grid, r, st, j);
    if key != "" {
      var att := done + RowAttach(grid, r, st) + [(key, DigitsValue(grid[r][st..j]))];
      assert att[..|att| - 1] == done + RowAttach(grid, r, st);
      assert done + RowAttach(grid, r, j) == att;
    } else {
      assert done + RowAttach(grid, r, j) == done + RowAttach(grid, r, st);
    }
  }

  /** Appending val to the list of key in gearMap, creating the list first. */
  method AppendValue(gearMap: map<string, seq<int>>, key: string, val: int) returns (m: map<string, seq<int>>)
    ensures m == AddTo(gearMap, key, val)
  {
    m := gearMap;
    if key !in m {
      m := m[key := []];
    }
    m := m[key := m[key] + [val]];
  }

  /** The scan of SolvePart2: each number's gear key is that of its first
      digit touching a '*'; at the end of the number its value is appended
      to that key's list in gearMap. */
  method BuildGearMap(grid: Grid) returns (gearMap: map<string, seq<int>>)
    ensures gearMap == Group(GridAttach(grid, |grid|))
  {
    var isOnNumber := false;
    var currentNumber := "";
    gearMap := map[];
    var gearKey := "";
    for rowIdx := 0 to |grid|
      invariant gearMap == Group(GridAttach(grid, rowIdx))
      invariant !isOnNumber && currentNumber == "" && gearKey == ""
    {
      var line := grid[rowIdx];
      ghost var st: nat := 0;
      ghost var done := GridAttach(grid, rowIdx);
      assert done + RowAttach(grid, rowIdx, 0) == done;
      for colIdx := 0 to |line|
        invariant st == RunStart(line, colIdx)
        invariant gearMap == Group(done + RowAttach(grid, rowIdx, st))
        invariant isOnNumber == (st < colIdx)
        invariant currentNumber == line[st..colIdx]
        invariant gearKey == RunGearKey(grid, rowIdx, st, colIdx)
      {
        var ch := line[colIdx];
        if IsDigit(ch) {
          GearDigitStep(grid, rowIdx, colIdx);
          isOnNumber := true;
          currentNumber := currentNumber + [ch];
          if gearKey == "" {
            gearKey := GetOkayKey(grid, rowIdx, colIdx, Gear);
          }
        } else {
          GearNonDigitStep(grid, rowIdx, colIdx);
          GroupRunEnd(done, grid, rowIdx, colIdx);
          RunReads(line, colIdx);
          if isOnNumber {
            if gearKey != "" {
              var val := Atoi(currentNumber).value;
              gearMap := AppendValue(gearMap, gearKey, val);
            }
            isOnNumber := false;
            gearKey := "";
            currentNumber := "";
          }
          st := colIdx + 1;
        }
      }
      GroupRunEnd(done, grid, rowIdx, |line|);
      RunReads(line, |line|);
      assert GridAttach(grid, rowIdx + 1) == done + RowAttach(grid, rowIdx, |line|);
      if isOnNumber {
        if gearKey != "" {
          var val := Atoi(currentNumber).value;
          gearMap := AppendValue(gearMap, gearKey, val);
        }
        isOnNumber := false;
        currentNumber := "";
        gearKey := "";
      }
    }
  }

  /** The final loop of SolvePart2, over the gear map in any order. */
  method SumRatios(gearMap: map<string, seq<int>>) returns (result: int)
    ensures result == MapTotal(gearMap)
  {
    result := 0;
    var rest := gearMap;
    while rest != map[]
      invariant result + MapTotal(rest) == MapTotal(gearMap)
      decreases |rest|
    {
      var key :| key in rest;
      var values := rest[key];
      if |values| == 2 {
        result := result + values[0] * values[1];
      }
      MapTotalRemove(rest, key);
      rest := rest - {key};
    }
  }

  /** SolvePart2: the sum of the gear ratios; None where parseInput fails. */
  method SolvePart2(input: string) returns (answer: Option<string>)
    ensures answer == match ParseGrid(input)
      case None => None
      case Some(grid) => Some(Itoa(MapTotal(Group(GridAttach(grid, |grid|)))))
  {
    var grid := ParseInput(input);
    if grid.None? {
      return None;
    }
    var gearMap := BuildGearMap(grid.value);
    var result := SumRatios(gearMap);
    return Some(Itoa(result));
  }
}
