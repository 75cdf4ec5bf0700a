/** The loop shared by the parseInput functions: the lines of the input are
    read one after another into an accumulated value, and the first line
    that cannot be read ends the parse with an error. */
module LineFold {
  import opened Text

  /** The value after reading every line in order; None once a line fails. */
  function Fold<S>(lines: seq<string>, init: S, step: (S, string) -> Option<S>): Option<S> {
    if lines == [] then Some(init)
    else match Fold(lines[..|lines| - 1], init, step)
      case None => None
      case Some(acc) => step(acc, lines[|lines| - 1])
  }

  /** Reading one more line. */
  lemma FoldStep<S>(lines: seq<string>, i: nat, init: S, step: (S, string) -> Option<S>)
    requires i < |lines|
    ensures Fold(lines[..i + 1], init, step)
      == if Fold(lines[..i], init, step).None? then None else step(Fold(lines[..i], init, step).value, lines[i])
  {
    assert lines[..i + 1][..i] == lines[..i];
  }

  /** A failure in a prefix of the lines is a failure of the whole. */
  lemma {:induction false} FoldFailureSticks<S>(lines: seq<string>, k: nat, init: S, step: (S, string) -> Option<S>)
    requires k <= |lines| && Fold(lines[..k], init, step).None?
    ensures Fold(lines, init, step).None?
    decreases |lines| - k
  {
    if k < |lines| {
      FoldStep(lines, k, init, step);
      FoldFailureSticks(lines, k + 1, init, step);
    } else {
      assert lines[..k] == lines;
    }
  }

  /** Reading a block of lines after another. */
  lemma {:induction false} FoldAppend<S>(a: seq<string>, b: seq<string>, init: S, step: (S, string) -> Option<S>)
    ensures Fold(a + b, init, step)
      == if Fold(a, init, step).None? then None else Fold(b, Fold(a, init, step).value, step)
    decreases |b|
  {
    if b == [] {
      assert a + b == a;
    } else {
      var n := |b| - 1;
      assert (a + b)[..|a + b| - 1] == a + b[..n];
      FoldAppend(a, b[..n], init, step);
    }
  }

  /** The loop over the lines. */
  method FoldLines<S>(lines: seq<string>, init: S, step: (S, string) -> Option<S>) returns (r: Option<S>)
    ensures r == Fold(lines, init, step)
  {
    var acc := init;
    for i := 0 to |lines|
      invariant Fold(lines[..i], init, step) == Some(acc)
    {
      FoldStep(lines, i, init, step);
      var next := step(acc, lines[i]);
      if next.None? {
        FoldFailureSticks(lines, i + 1, init, step);
        return None;
      }
      acc := next.value;
    }
    assert lines[..|lines|] == lines;
    return Some(acc);
  }

  /** The step of a parse that reads one item per line. */
  function Append<T>(read: string -> Option<T>): (seq<T>, string) -> Option<seq<T>> {
    (acc: seq<T>, line: string) => match read(line) case None => None case Some(x) => Some(acc + [x])
  }

  /** One item per line, in line order; None once a line cannot be read. */
  function ReadAll<T>(lines: seq<string>, read: string -> Option<T>): Option<seq<T>> {
    Fold(lines, [], Append(read))
  }

  /** Reading one item per line succeeds exactly when every line can be
      read, and then item i is what line i reads as. */
  lemma {:induction false} ReadAllMeaning<T>(lines: seq<string>, read: string -> Option<T>)
    ensures var r := ReadAll(lines, read);
      && (r.Some? <==> forall i :: 0 <= i < |lines| ==> read(lines[i]).Some?)
      && (r.Some? ==> |r.value| == |lines| && forall i :: 0 <= i < |lines| ==> read(lines[i]) == Some(r.value[i]))
  {
    if lines != [] {
      var n := |lines| - 1;
      ReadAllMeaning(lines[..n], read);
      FoldStep(lines, n, [], Append(read));
      assert lines[..n + 1] == lines;
      assert forall i :: 0 <= i < n ==> lines[..n][i] == lines[i];
    }
  }

  /** Lines that each read as the matching item read as those items. */
  lemma ReadAllOf<T>(lines: seq<string>, read: string -> Option<T>, items: seq<T>)
    requires |lines| == |items|
    requires forall i :: 0 <= i < |lines| ==> read(lines[i]) == Some(items[i])
    ensures ReadAll(lines, read) == Some(items)
  {
    ReadAllMeaning(lines, read);
    var r := ReadAll(lines, read).value;
    assert forall i :: 0 <= i < |lines| ==> Some(r[i]) == read(lines[i]) == Some(items[i]);
    assert r == items;
  }

  /** Reading a single line. */
  lemma FoldOne<S>(x: string, init: S, step: (S, string) -> Option<S>)
    ensures Fold([x], init, step) == step(init, x)
  {
    assert [x][..0] == [];
  }

  /** Reading three lines that each succeed. */
  lemma FoldThree<S>(x: string, y: string, z: string, init: S, s1: S, s2: S, step: (S, string) -> Option<S>)
    requires step(init, x) == Some(s1) && step(s1, y) == Some(s2)
    ensures Fold([x, y, z], init, step) == step(s2, z)
  {
    var lines := [x, y, z];
    FoldOne(x, init, step);
    assert lines[..1] == [x];
    FoldStep(lines, 1, init, step);
    FoldStep(lines, 2, init, step);
    assert lines[..3] == lines;
  }

  /** Reading on from where a first block of lines left off. */
  lemma ReadOn<S>(a: seq<string>, b: seq<string>, init: S, mid: S, fin: S, step: (S, string) -> Option<S>)
    requires Fold(a, init, step) == Some(mid) && Fold(b, mid, step) == Some(fin)
    ensures Fold(a + b, init, step) == Some(fin)
  {
    FoldAppend(a, b, init, step);
  }

  /** A line that leaves every value as it is can be dropped. */
  lemma FoldSkip<S>(lines: seq<string>, i: nat, init: S, step: (S, string) -> Option<S>)
    requires i < |lines|
    requires forall acc :: step(acc, lines[i]) == Some(acc)
    ensures Fold(lines, init, step) == Fold(lines[..i] + lines[i + 1..], init, step)
  {
    var before, x, after := lines[..i], lines[i], lines[i + 1..];
    assert lines == (before + [x]) + after;
    FoldAppend(before, [x], init, step);
    var first := Fold(before, init, step);
    if first.Some? {
      FoldOne(x, first.value, step);
      assert step(first.value, x) == Some(first.value);
    }
    assert Fold(before + [x], init, step) == first;
    FoldAppend(before + [x], after, init, step);
    FoldAppend(before, after, init, step);
  }

  /** Lines each of which appends its own item read as those items. */
  lemma {:induction false} FoldAppends<T>(lines: seq<string>, items: seq<T>, step: (seq<T>, string) -> Option<seq<T>>)
    requires |lines| == |items|
    requires forall acc, i :: 0 <= i < |lines| ==> step(acc, lines[i]) == Some(acc + [items[i]])
    ensures Fold(lines, [], step) == Some(items)
  {
    if lines != [] {
      var n := |lines| - 1;
      FoldAppends(lines[..n], items[..n], step);
      assert items[..n] + [items[n]] == items;
    }
  }

  /** The step of a parse that skips blank lines and reads one item from
      each other line. */
  function SkipBlank<T>(read: string -> Option<T>): (seq<T>, string) -> Option<seq<T>> {
    (acc: seq<T>, line: string) =>
      if TrimSpace(line) == "" then Some(acc)
      else match read(line) case None => None case Some(x) => Some(acc + [x])
  }

  /** The lines that are not blank, in order. */
  function NonBlank(lines: seq<string>): seq<string> {
    if lines == [] then []
    else NonBlank(lines[..|lines| - 1]) + (if TrimSpace(lines[|lines| - 1]) == "" then [] else [lines[|lines| - 1]])
  }

  /** Skipping blank lines is reading one item from each line that is not
      blank. */
  lemma {:induction false} SkipBlankReadAll<T>(lines: seq<string>, read: string -> Option<T>)
    ensures Fold(lines, [], SkipBlank(read)) == ReadAll(NonBlank(lines), read)
  {
    if lines != [] {
      var n := |lines| - 1;
      var init, line := lines[..n], lines[n];
      assert lines == init + [line];
      SkipBlankReadAll(init, read);
      var r0 := Fold(init, [], SkipBlank(read));
      assert Fold(lines, [], SkipBlank(read)) == if r0.None? then None else SkipBlank(read)(r0.value, line);
      if TrimSpace(line) != "" {
        assert NonBlank(lines) == NonBlank(init) + [line];
        ReadAllSnoc(NonBlank(init), line, read);
      } else {
        assert NonBlank(lines) == NonBlank(init);
      }
    }
  }

  /** Reading one item per line, one line more. */
  lemma ReadAllSnoc<T>(lines: seq<string>, line: string, read: string -> Option<T>)
    ensures ReadAll(lines + [line], read)
      == if ReadAll(lines, read).None? then None else Append(read)(ReadAll(lines, read).value, line)
  {
    assert (lines + [line])[..|lines|] == lines;
  }

  /** Skipping blank lines, the parse succeeds exactly when every other line
      can be read, and then holds one item per such line, in order. */
  lemma SkipBlankMeaning<T>(lines: seq<string>, read: string -> Option<T>)
    ensures var r := Fold(lines, [], SkipBlank(read)); var kept := NonBlank(lines);
      && (r.Some? <==> forall i :: 0 <= i < |kept| ==> read(kept[i]).Some?)
      && (r.Some? ==> (|r.value| == |kept|
            && forall i :: 0 <= i < |kept| ==> read(kept[i]) == Some(r.value[i])))
  {
    SkipBlankReadAll(lines, read);
    ReadAllMeaning(NonBlank(lines), read);
  }
}
