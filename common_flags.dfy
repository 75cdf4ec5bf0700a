/** common/flags.go: the solver and input-getter settings with their
    documented defaults, and the two strings derived from them — the puzzle
    input URL and the cache path. Parsing the command line itself is not
    modelled: a flag that was given is Some(value), an absent one None. */
module Flags {
  import opened Text

  datatype ProblemSolverFlags = ProblemSolverFlags(part: int)

  datatype InputGetterFlags = InputGetterFlags(
    year: int,
    day: int,
    cookieFilePath: string,
    baseUrl: string)

  const DefaultPart := 1
  const DefaultYear := 2023
  const DefaultDay := 1
  const DefaultCookieFilePath := "cookie.txt"

  function OrElse<T>(given: Option<T>, default: T): T {
    if given.Some? then given.value else default
  }

  /** ParseSolverFlags: -part, 1 by default. */
  function SolverFlags(part: Option<int>): (f: ProblemSolverFlags)
    ensures part.None? ==> f.part == 1
    ensures part.Some? ==> f.part == part.value
  {
    ProblemSolverFlags(OrElse(part, DefaultPart))
  }

  /** ParseInputGetterFlags: -year 2023, -day 1, -cookie "cookie.txt" and
      -baseurl AOCBaseURL by default. AOCBaseURL is defined outside the
      files of this model, so it is a parameter. */
  function InputGetterFlagsOf(year: Option<int>, day: Option<int>, cookie: Option<string>,
                              baseUrl: Option<string>, aocBaseUrl: string): (f: InputGetterFlags)
    ensures f.year == (if year.Some? then year.value else 2023)
    ensures f.day == (if day.Some? then day.value else 1)
    ensures f.cookieFilePath == (if cookie.Some? then cookie.value else "cookie.txt")
    ensures f.baseUrl == (if baseUrl.Some? then baseUrl.value else aocBaseUrl)
  {
    InputGetterFlags(OrElse(year, DefaultYear), OrElse(day, DefaultDay),
                     OrElse(cookie, DefaultCookieFilePath), OrElse(baseUrl, aocBaseUrl))
  }

  /** InputUrl: "%s/%d/day/%d/input". */
  function InputUrl(f: InputGetterFlags): string {
    f.baseUrl + "/" + Join([Itoa(f.year), "day", Itoa(f.day), "input"], '/')
  }

  /** Go's "%02d": non-negative numbers below ten get a leading zero; every
      other number is written as is (a sign already makes "-5" two wide). */
  function Pad2(d: int): (s: string)
    ensures d >= 0 ==> |s| >= 2
    ensures d >= 0 ==> Atoi(s) == Some(d)
  {
    AtoiItoa(d);
    if 0 <= d < 10 then
      assert AllDigits(Itoa(d));
      DigitsValueAppend("0", Itoa(d));
      "0" + Itoa(d)
    else Itoa(d)
  }

  /** CacheKey: "%d/%02d/input.txt". */
  function CacheKey(f: InputGetterFlags): string {
    Join([Itoa(f.year), Pad2(f.day), "input.txt"], '/')
  }

  lemma NoSlash(n: int)
    ensures '/' !in Itoa(n) && '/' !in Pad2(n)
  {
    ItoaNoSeparator(n, '/');
    if 0 <= n < 10 {
      assert Pad2(n) == "0" + Itoa(n);
    }
  }

  /** The input URL always lies under the base URL and ends in "/input"; for
      a fixed base URL it determines the year and the day. */
  lemma InputUrlDeterminesPuzzle(f: InputGetterFlags, g: InputGetterFlags)
    ensures HasPrefix(InputUrl(f), f.baseUrl + "/")
    ensures f.baseUrl == g.baseUrl && InputUrl(f) == InputUrl(g) ==>
      f.year == g.year && f.day == g.day
  {
    var pf := [Itoa(f.year), "day", Itoa(f.day), "input"];
    var pg := [Itoa(g.year), "day", Itoa(g.day), "input"];
    assert (f.baseUrl + "/" + Join(pf, '/'))[..|f.baseUrl + "/"|] == f.baseUrl + "/";
    if f.baseUrl == g.baseUrl && InputUrl(f) == InputUrl(g) {
      var prefix := f.baseUrl + "/";
      assert Join(pf, '/') == InputUrl(f)[|prefix|..];
      assert Join(pg, '/') == InputUrl(g)[|prefix|..];
      NoSlash(f.year); NoSlash(f.day); NoSlash(g.year); NoSlash(g.day);
      SplitJoin(pf, '/');
      SplitJoin(pg, '/');
      ItoaInjective(f.year, g.year);
      ItoaInjective(f.day, g.day);
    }
  }

  /** Distinct puzzles (non-negative days) have distinct cache paths; the
      cookie path and the base URL play no part in it. */
  lemma CacheKeyInjective(f: InputGetterFlags, g: InputGetterFlags)
    requires f.day >= 0 && g.day >= 0
    ensures CacheKey(f) == CacheKey(g) <==> f.year == g.year && f.day == g.day
  {
    if CacheKey(f) == CacheKey(g) {
      var pf := [Itoa(f.year), Pad2(f.day), "input.txt"];
      var pg := [Itoa(g.year), Pad2(g.day), "input.txt"];
      NoSlash(f.year); NoSlash(f.day); NoSlash(g.year); NoSlash(g.day);
      SplitJoin(pf, '/');
      SplitJoin(pg, '/');
      assert pf == pg;
      ItoaInjective(f.year, g.year);
      assert Atoi(Pad2(f.day)) == Some(f.day) && Atoi(Pad2(g.day)) == Some(g.day);
    }
  }
}
