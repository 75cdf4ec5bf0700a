/** common/problemsolver.go: reading session cookies from a Netscape cookie
    file, the cache-first input reader, and the runner that dispatches to
    part 1 or part 2. The file system is a map from path to contents, the
    HTTP fetch an oracle from URL to body or error. */
module Harness {
  import opened Text
  import opened Flags

  datatype Cookie = Cookie(name: string, value: string)

  datatype Error = FileError(path: string) | NetworkError(url: string)

  /** The settings the reader and the runner consult: the part to solve and
      the year, day, cookie path and base URL of the input. */
  datatype Config = Config(part: int, input: InputGetterFlags)

  // ---------------------------------------------------------------------
  // readCookies

  /** A line of the cookie file yields a cookie when it has exactly seven
      tab-separated fields; the sixth is the name, the seventh the value. */
  function CookieOfLine(line: string): Option<Cookie> {
    var parts := Split(line, '\t');
    if |parts| == 7 then Some(Cookie(parts[5], parts[6])) else None
  }

  /** The cookies of the qualifying lines, in line order. */
  function CookiesOf(lines: seq<string>): seq<Cookie> {
    if lines == [] then []
    else
      var last := lines[|lines| - 1];
      var c := CookieOfLine(last);
      CookiesOf(lines[..|lines| - 1]) + (if c.Some? then [c.value] else [])
  }

  function QualifyingLines(lines: seq<string>): nat {
    if lines == [] then 0
    else QualifyingLines(lines[..|lines| - 1]) + (if CookieOfLine(lines[|lines| - 1]).Some? then 1 else 0)
  }

  /** readCookies: the file is split into lines and every qualifying line
      appends its cookie. A file that cannot be read is an error. */
  method ReadCookies(files: map<string, string>, path: string)
    returns (cookies: seq<Cookie>, err: Option<Error>)
    ensures path !in files ==> err == Some(FileError(path)) && cookies == []
    ensures path in files ==> err == None && cookies == CookiesOf(Split(files[path], '\n'))
  {
    if path !in files {
      return [], Some(FileError(path));
    }
    var lines := Split(files[path], '\n');
    cookies := [];
    var i := 0;
    while i < |lines|
      invariant 0 <= i <= |lines|
      invariant cookies == CookiesOf(lines[..i])
    {
      var parts := Split(lines[i], '\t');
      if |parts| == 7 {
        cookies := cookies + [Cookie(parts[5], parts[6])];
      }
      assert lines[..i + 1][..i] == lines[..i];
      i := i + 1;
    }
    assert lines[..i] == lines;
    err := None;
  }

  /** Cookies keep the order of their lines: the cookies of two blocks of
      lines are the cookies of the first block followed by those of the second. */
  lemma {:induction false} CookiesOfAppend(a: seq<string>, b: seq<string>)
    ensures CookiesOf(a + b) == CookiesOf(a) + CookiesOf(b)
    decreases |b|
  {
    if b == [] {
      assert a + b == a;
    } else {
      var b' := b[..|b| - 1];
      assert (a + b)[..|a + b| - 1] == a + b';
      CookiesOfAppend(a, b');
    }
  }

  /** One cookie per qualifying line: as many cookies as lines with seven
      fields, each taken from such a line, and every such line contributing. */
  lemma {:induction false} CookiesOfQualifying(lines: seq<string>)
    ensures |CookiesOf(lines)| == QualifyingLines(lines)
    ensures forall c :: c in CookiesOf(lines) <==>
      exists i :: 0 <= i < |lines| && CookieOfLine(lines[i]) == Some(c)
  {
    if lines != [] {
      var init := lines[..|lines| - 1];
      CookiesOfQualifying(init);
      forall c
        ensures c in CookiesOf(lines) <==>
          exists i :: 0 <= i < |lines| && CookieOfLine(lines[i]) == Some(c)
      {
        if c in CookiesOf(init) {
          var i :| 0 <= i < |init| && CookieOfLine(init[i]) == Some(c);
          assert lines[i] == init[i];
        }
        if exists i :: 0 <= i < |lines| && CookieOfLine(lines[i]) == Some(c) {
          var i :| 0 <= i < |lines| && CookieOfLine(lines[i]) == Some(c);
          if i < |init| { assert init[i] == lines[i]; }
        }
      }
    }
  }

  /** A line of a cookie file in the Netscape layout, seven tab-free fields
      joined by tabs, yields the cookie named by its sixth field with the
      value of its seventh. */
  lemma CookieOfFields(fields: seq<string>)
    requires |fields| == 7 && forall i :: 0 <= i < 7 ==> '\t' !in fields[i]
    ensures CookieOfLine(Join(fields, '\t')) == Some(Cookie(fields[5], fields[6]))
  {
    SplitJoin(fields, '\t');
  }

  /** A line with fewer or more than seven fields yields no cookie. */
  lemma NoCookieOfOtherFields(fields: seq<string>)
    requires |fields| >= 1 && |fields| != 7 && forall i :: 0 <= i < |fields| ==> '\t' !in fields[i]
    ensures CookieOfLine(Join(fields, '\t')) == None
  {
    SplitJoin(fields, '\t');
  }

  // ---------------------------------------------------------------------
  // The cache-first reader

  /** What one GetInput call returns and leaves behind. */
  datatype ReadResult = ReadResult(
    text: string,
    err: Option<Error>,
    files: map<string, string>,
    requests: seq<string>)

  /** GetInput over a file system and a fetch oracle: a cache hit is returned
      verbatim without a request; otherwise the URL is fetched once, a failure
      returns "" with the error, and a success is written to the cache path
      (when writing succeeds; its outcome is ignored) and returned. */
  function GetInputSpec(cfg: Config, files: map<string, string>,
                        fetch: string -> Option<string>, writeSucceeds: bool): ReadResult
  {
    var key := CacheKey(cfg.input);
    var url := InputUrl(cfg.input);
    if key in files then ReadResult(files[key], None, files, [])
    else match fetch(url)
      case None => ReadResult("", Some(NetworkError(url)), files, [url])
      case Some(body) =>
        ReadResult(body, None, if writeSucceeds then files[key := body] else files, [url])
  }

  /** baseProblemReaderImpl: its settings, the session cookies read when it
      was created, the file system it caches in and the requests it has made. */
  class ProblemReader {
    const cfg: Config
    const cookies: seq<Cookie>
    const fetch: string -> Option<string>
    var files: map<string, string>
    var requests: seq<string>

    constructor (cfg: Config, cookies: seq<Cookie>, files: map<string, string>,
                 fetch: string -> Option<string>)
      ensures this.cfg == cfg && this.cookies == cookies && this.fetch == fetch
      ensures this.files == files && this.requests == []
    {
      this.cfg := cfg;
      this.cookies := cookies;
      this.fetch := fetch;
      this.files := files;
      this.requests := [];
    }

    /** GetInput: cache first, then the website. */
    method GetInput(writeSucceeds: bool) returns (text: string, err: Option<Error>)
      modifies this
      ensures var r := GetInputSpec(cfg, old(files), fetch, writeSucceeds);
        && text == r.text && err == r.err
        && files == r.files && requests == old(requests) + r.requests
    {
      var key := CacheKey(cfg.input);
      if key in files {
        return files[key], None;
      }
      var url := InputUrl(cfg.input);
      requests := requests + [url];
      var body := fetch(url);
      if body.None? {
        return "", Some(NetworkError(url));
      }
      if writeSucceeds {
        files := files[key := body.value];
      }
      return body.value, None;
    }
  }

  /** NewProblemReader: the cookies are read when the reader is created, and
      a cookie file that cannot be read is fatal, even if the input is cached. */
  method NewProblemReader(cfg: Config, files: map<string, string>, fetch: string -> Option<string>)
    returns (reader: ProblemReader?, err: Option<Error>)
    ensures cfg.input.cookieFilePath !in files <==> reader == null
    ensures reader == null ==> err == Some(FileError(cfg.input.cookieFilePath))
    ensures reader != null ==> (err == None && fresh(reader)
      && reader.cfg == cfg && reader.files == files && reader.requests == []
      && reader.cookies == CookiesOf(Split(files[cfg.input.cookieFilePath], '\n')))
  {
    var cookies;
    cookies, err := ReadCookies(files, cfg.input.cookieFilePath);
    if err.Some? {
      return null, err;
    }
    reader := new ProblemReader(cfg, cookies, files, fetch);
  }

  /** A cache hit is returned verbatim and makes no request. */
  lemma CacheHitMakesNoRequest(cfg: Config, files: map<string, string>,
                               fetch: string -> Option<string>, w: bool)
    requires CacheKey(cfg.input) in files
    ensures var r := GetInputSpec(cfg, files, fetch, w);
      r == ReadResult(files[CacheKey(cfg.input)], None, files, [])
  {
  }

  /** A second read after a successful, cached fetch returns the same text
      and makes no request; a failed fetch changes nothing on disk. */
  lemma SecondReadHitsCache(cfg: Config, files: map<string, string>,
                            fetch: string -> Option<string>, w: bool)
    ensures var first := GetInputSpec(cfg, files, fetch, true);
      var second := GetInputSpec(cfg, first.files, fetch, w);
      (first.err == None ==> second == ReadResult(first.text, None, first.files, []))
    ensures var first := GetInputSpec(cfg, files, fetch, w);
      (first.err.Some? ==> first.files == files && first.text == "" && |first.requests| == 1)
    ensures var first := GetInputSpec(cfg, files, fetch, w);
      |first.requests| <= 1 && (first.requests == [] <==> CacheKey(cfg.input) in files)
  {
  }

  // ---------------------------------------------------------------------
  // The runner

  /** A puzzle solver: one function per part, from input text to answer. */
  datatype Solver = Solver(part1: string -> string, part2: string -> string)

  datatype RunOutcome = Solved(partRun: nat, result: string) | Failed(err: Error)

  /** The part dispatch of baseProblemRunnerImpl.Run: part 1 only for Part == 1. */
  function Dispatch(part: int, solver: Solver, input: string): (o: RunOutcome)
    ensures o.Solved? && (o.partRun == 1 || o.partRun == 2)
    ensures o.partRun == 1 <==> part == 1
    ensures o.result == (if o.partRun == 1 then solver.part1(input) else solver.part2(input))
  {
    if part == 1 then Solved(1, solver.part1(input)) else Solved(2, solver.part2(input))
  }

  /** baseProblemRunnerImpl.Run: fetch the input (MustGetInput, whose failure
      ends the run), then solve the configured part. */
  method Run(reader: ProblemReader, solver: Solver, writeSucceeds: bool) returns (o: RunOutcome)
    modifies reader
    ensures var r := GetInputSpec(reader.cfg, old(reader.files), reader.fetch, writeSucceeds);
      && reader.files == r.files && reader.requests == old(reader.requests) + r.requests
      && o == (if r.err.Some? then Failed(r.err.value) else Dispatch(reader.cfg.part, solver, r.text))
  {
    var input, err := reader.GetInput(writeSucceeds);
    if err.Some? {
      return Failed(err.value);
    }
    o := Dispatch(reader.cfg.part, solver, input);
  }
}
