/** Go's string and decimal helpers that every solver leans on: strings.Split,
    strings.Fields, strings.TrimSpace, strings.HasPrefix/TrimPrefix and
    strconv.Atoi/Itoa, restricted to ASCII text. */
module Text {
  import opened GoMath

  datatype Option<T> = None | Some(value: T)

  predicate IsDigit(c: char) { '0' <= c <= '9' }

  /** The ASCII part of unicode.IsSpace: ' ' and '\t', '\n', '\v', '\f', '\r'
      (code points 9 to 13). */
  predicate IsSpace(c: char) {
    c == ' ' || '\t' <= c <= '\r'
  }

  predicate AllDigits(s: string) { forall i :: 0 <= i < |s| ==> IsDigit(s[i]) }

  predicate NoSpace(s: string) { forall i :: 0 <= i < |s| ==> !IsSpace(s[i]) }

  function DigitValue(c: char): nat
    requires IsDigit(c)
  {
    c as int - '0' as int
  }

  function DigitChar(d: nat): (c: char)
    requires d < 10
    ensures IsDigit(c) && DigitValue(c) == d
  {
    ('0' as int + d) as char
  }

  /** Value of a decimal digit string read left to right (leading zeros allowed). */
  function DigitsValue(s: string): nat
    requires AllDigits(s)
  {
    if s == [] then 0 else DigitsValue(s[..|s| - 1]) * 10 + DigitValue(s[|s| - 1])
  }

  /** Decimal rendering of a natural number without leading zeros. */
  function NatToString(n: nat): (s: string)
    ensures 1 <= |s| && AllDigits(s)
    ensures n < 10 <==> |s| == 1
    ensures n >= 10 ==> s[0] != '0'
  {
    if n < 10 then [DigitChar(n)] else NatToString(n / 10) + [DigitChar(n % 10)]
  }

  /** strconv.Itoa */
  function Itoa(n: int): string {
    if n < 0 then "-" + NatToString(-n) else NatToString(n)
  }

  /** strconv.Atoi: an optional sign followed by at least one decimal digit;
      anything else is an error. */
  function Atoi(s: string): Option<int> {
    if |s| > 0 && (s[0] == '-' || s[0] == '+') then
      if |s| > 1 && AllDigits(s[1..]) then
        var v: int := DigitsValue(s[1..]);
        Some(if s[0] == '-' then -v else v)
      else None
    else if |s| > 0 && AllDigits(s) then Some(DigitsValue(s))
    else None
  }

  lemma {:induction false} DigitsValueOfNatToString(n: nat)
    ensures DigitsValue(NatToString(n)) == n
  {
    var s := NatToString(n);
    if n >= 10 {
      DigitsValueOfNatToString(n / 10);
      assert s[..|s| - 1] == NatToString(n / 10);
    }
  }

  /** Atoi inverts Itoa: the decimal text of every integer reads back as itself. */
  lemma AtoiItoa(n: int)
    ensures Atoi(Itoa(n)) == Some(n)
  {
    if n < 0 {
      var d := NatToString(-n);
      DigitsValueOfNatToString(-n);
      var s := Itoa(n);
      assert s[0] == '-' && |s| > 1;
      assert s[1..] == d;
      assert AllDigits(s[1..]) && DigitsValue(s[1..]) == -n;
      assert Atoi(s) == Some(n);
    } else {
      var s := NatToString(n);
      DigitsValueOfNatToString(n);
      assert IsDigit(s[0]);
      assert Atoi(s) == Some(DigitsValue(s));
    }
  }

  lemma AllDigitsAppend(x: string, y: string)
    requires AllDigits(x) && AllDigits(y)
    ensures AllDigits(x + y)
  {
    var s := x + y;
    forall i | 0 <= i < |s| ensures IsDigit(s[i]) {
      if i >= |x| { assert s[i] == y[i - |x|]; }
    }
  }

  /** Reading the concatenation of two digit strings. */
  lemma {:induction false} DigitsValueAppend(x: string, y: string)
    requires AllDigits(x) && AllDigits(y)
    ensures AllDigits(x + y)
    ensures DigitsValue(x + y) == DigitsValue(x) * Pow(10, |y|) + DigitsValue(y)
    decreases |y|
  {
    var s := x + y;
    AllDigitsAppend(x, y);
    if y == [] {
      assert s == x;
    } else {
      var y' := y[..|y| - 1];
      assert s[..|s| - 1] == x + y';
      DigitsValueAppend(x, y');
      var vx, vy', d, p' := DigitsValue(x), DigitsValue(y'), DigitValue(y[|y| - 1]), Pow(10, |y'|);
      assert DigitsValue(s) == DigitsValue(x + y') * 10 + d;
      assert DigitsValue(x + y') == vx * p' + vy';
      assert DigitsValue(y) == vy' * 10 + d;
      assert Pow(10, |y|) == 10 * p';
      ShiftDigit(vx, p', vy', d);
    }
  }

  /** Appending a digit d to a reading vx * p + vy multiplies it by ten. */
  lemma ShiftDigit(vx: int, p: int, vy: int, d: int)
    ensures (vx * p + vy) * 10 + d == vx * (10 * p) + (vy * 10 + d)
  {
  }

  /** Itoa writes exactly DigitCount(n) digits for a positive n. */
  lemma {:induction false} NatToStringLength(n: nat)
    requires n > 0
    ensures |NatToString(n)| == DigitCount(n)
  {
    if n >= 10 { NatToStringLength(n / 10); }
  }

  lemma ItoaInjective(a: int, b: int)
    requires Itoa(a) == Itoa(b)
    ensures a == b
  {
    AtoiItoa(a);
    AtoiItoa(b);
  }

  lemma ItoaNoSeparator(n: int, c: char)
    requires !IsDigit(c) && c != '-'
    ensures c !in Itoa(n)
  {
    var s := Itoa(n);
    forall i | 0 <= i < |s|
      ensures s[i] == '-' || IsDigit(s[i])
    {
      if n < 0 && i > 0 { assert s[i] == NatToString(-n)[i - 1]; }
    }
  }

  // ---------------------------------------------------------------------
  // strings.Split with a one-character separator, and its inverse Join

  /** strings.Split(s, sep): the pieces between separators; always at least one. */
  function Split(s: string, sep: char): (r: seq<string>)
    ensures |r| >= 1
    ensures forall i :: 0 <= i < |r| ==> sep !in r[i]
  {
    if s == [] then [""]
    else if s[0] == sep then [""] + Split(s[1..], sep)
    else
      var rest := Split(s[1..], sep);
      [[s[0]] + rest[0]] + rest[1..]
  }

  /** strings.Join(parts, sep) */
  function Join(parts: seq<string>, sep: char): string
    requires |parts| >= 1
  {
    if |parts| == 1 then parts[0] else parts[0] + [sep] + Join(parts[1..], sep)
  }

  lemma {:induction false} JoinSplit(s: string, sep: char)
    ensures Join(Split(s, sep), sep) == s
  {
    if s != [] {
      JoinSplit(s[1..], sep);
      var rest := Split(s[1..], sep);
      if s[0] != sep {
        if |rest| == 1 {
        } else {
          assert Join([[s[0]] + rest[0]] + rest[1..], sep)
              == [s[0]] + rest[0] + [sep] + Join(rest[1..], sep);
        }
      }
    }
  }

  lemma {:induction false} SplitPrefix(w: string, tail: string, sep: char)
    requires sep !in w
    ensures Split(w + tail, sep) == [w + Split(tail, sep)[0]] + Split(tail, sep)[1..]
    decreases |w|
  {
    if w == [] {
      var T := Split(tail, sep);
      assert w + tail == tail;
      assert w + T[0] == T[0];
      assert [T[0]] + T[1..] == T;
    } else {
      var T := Split(tail, sep);
      assert (w + tail)[0] == w[0] != sep;
      assert (w + tail)[1..] == w[1..] + tail;
      SplitPrefix(w[1..], tail, sep);
      var rest := Split(w[1..] + tail, sep);
      assert rest[0] == w[1..] + T[0] && rest[1..] == T[1..];
      assert [w[0]] + rest[0] == w + T[0];
    }
  }

  lemma {:induction false} SplitJoin(parts: seq<string>, sep: char)
    requires |parts| >= 1
    requires forall i :: 0 <= i < |parts| ==> sep !in parts[i]
    ensures Split(Join(parts, sep), sep) == parts
  {
    if |parts| == 1 {
      SplitPrefix(parts[0], [], sep);
      assert parts[0] + [] == parts[0];
    } else {
      SplitJoin(parts[1..], sep);
      var tail := [sep] + Join(parts[1..], sep);
      assert Join(parts, sep) == parts[0] + tail;
      SplitPrefix(parts[0], tail, sep);
      assert tail[1..] == Join(parts[1..], sep);
      assert Split(tail, sep) == [""] + parts[1..];
      assert parts[0] + "" == parts[0];
      assert parts == [parts[0]] + parts[1..];
    }
  }

  // ---------------------------------------------------------------------
  // strings.Fields and strings.TrimSpace

  /** The longest prefix of s without white space. */
  function Word(s: string): (w: string)
    ensures |w| <= |s| && w == s[..|w|] && NoSpace(w)
    ensures |w| < |s| ==> IsSpace(s[|w|])
  {
    if s == [] || IsSpace(s[0]) then [] else [s[0]] + Word(s[1..])
  }

  /** strings.Fields: the maximal runs of non-space characters, in order. */
  function Fields(s: string): (r: seq<string>)
    ensures forall i :: 0 <= i < |r| ==> |r[i]| > 0 && NoSpace(r[i])
    decreases |s|
  {
    if s == [] then []
    else if IsSpace(s[0]) then Fields(s[1..])
    else
      var w := Word(s);
      [w] + Fields(s[|w|..])
  }

  lemma {:induction false} WordPrefix(w: string, tail: string)
    requires NoSpace(w)
    requires tail == [] || IsSpace(tail[0])
    ensures Word(w + tail) == w
    decreases |w|
  {
    if w != [] {
      assert (w + tail)[1..] == w[1..] + tail;
      WordPrefix(w[1..], tail);
    }
  }

  /** Fields splits text whose words are separated by single spaces back into
      those words. */
  lemma {:induction false} FieldsOfJoin(words: seq<string>)
    requires |words| >= 1
    requires forall i :: 0 <= i < |words| ==> |words[i]| > 0 && NoSpace(words[i])
    ensures Fields(Join(words, ' ')) == words
  {
    if |words| == 1 {
      FieldsCons(words[0], []);
      assert words[0] + [] == words[0];
      assert words == [words[0]] + [];
    } else {
      var rest := Join(words[1..], ' ');
      assert Join(words, ' ') == words[0] + ([' '] + rest);
      FieldsCons(words[0], [' '] + rest);
      assert ([' '] + rest)[1..] == rest;
      FieldsOfJoin(words[1..]);
      assert words == [words[0]] + words[1..];
    }
  }

  /** A word followed by nothing or by white space is the first field. */
  lemma FieldsCons(w: string, tail: string)
    requires |w| > 0 && NoSpace(w)
    requires tail == [] || IsSpace(tail[0])
    ensures Fields(w + tail) == [w] + Fields(tail)
  {
    var s := w + tail;
    assert s[0] == w[0];
    WordPrefix(w, tail);
    assert s[|w|..] == tail;
  }

  function TrimLeft(s: string): (r: string)
    ensures |r| <= |s|
    ensures r == [] || !IsSpace(r[0])
  {
    if s != [] && IsSpace(s[0]) then TrimLeft(s[1..]) else s
  }

  /** TrimLeft keeps a suffix of s. */
  lemma {:induction false} TrimLeftSuffix(s: string)
    ensures TrimLeft(s) == s[|s| - |TrimLeft(s)|..]
  {
    if s != [] && IsSpace(s[0]) {
      TrimLeftSuffix(s[1..]);
      assert s[1..][|s| - 1 - |TrimLeft(s)|..] == s[|s| - |TrimLeft(s)|..];
    }
  }

  /** TrimLeft drops only white space. */
  lemma {:induction false} TrimLeftDropsSpace(s: string)
    ensures forall i :: 0 <= i < |s| - |TrimLeft(s)| ==> IsSpace(s[i])
  {
    if s != [] && IsSpace(s[0]) {
      TrimLeftDropsSpace(s[1..]);
      forall i | 1 <= i < |s| - |TrimLeft(s)|
        ensures IsSpace(s[i])
      {
        assert s[i] == s[1..][i - 1];
      }
    }
  }

  function TrimRight(s: string): (r: string)
    ensures |r| <= |s|
    ensures r == [] || !IsSpace(r[|r| - 1])
  {
    if s != [] && IsSpace(s[|s| - 1]) then TrimRight(s[..|s| - 1]) else s
  }

  /** TrimRight keeps a prefix of s. */
  lemma {:induction false} TrimRightPrefix(s: string)
    ensures TrimRight(s) == s[..|TrimRight(s)|]
  {
    if s != [] && IsSpace(s[|s| - 1]) {
      TrimRightPrefix(s[..|s| - 1]);
      assert s[..|s| - 1][..|TrimRight(s)|] == s[..|TrimRight(s)|];
    }
  }

  /** TrimRight drops only white space. */
  lemma {:induction false} TrimRightDropsSpace(s: string)
    ensures forall i :: |TrimRight(s)| <= i < |s| ==> IsSpace(s[i])
  {
    if s != [] && IsSpace(s[|s| - 1]) {
      TrimRightDropsSpace(s[..|s| - 1]);
      forall i | |TrimRight(s)| <= i < |s| - 1
        ensures IsSpace(s[i])
      {
        assert s[i] == s[..|s| - 1][i];
      }
    }
  }

  /** strings.TrimSpace */
  function TrimSpace(s: string): string {
    TrimRight(TrimLeft(s))
  }

  /** TrimSpace keeps the middle of s, drops only white space around it, and
      leaves no white space at either end. */
  lemma TrimSpaceShape(s: string)
    ensures var t := TrimSpace(s); var k := |s| - |TrimLeft(s)|;
      && k + |t| <= |s| && t == s[k..k + |t|]
      && (forall i :: 0 <= i < k ==> IsSpace(s[i]))
      && (forall i :: k + |t| <= i < |s| ==> IsSpace(s[i]))
      && (t == [] || (!IsSpace(t[0]) && !IsSpace(t[|t| - 1])))
  {
    TrimSpaceMiddle(s);
    TrimLeftDropsSpace(s);
    TrimSpaceTrailing(s);
    TrimSpaceEnds(s);
  }

  lemma TrimSpaceMiddle(s: string)
    ensures var k := |s| - |TrimLeft(s)|; var t := TrimSpace(s);
      k + |t| <= |s| && t == s[k..k + |t|]
  {
    var l := TrimLeft(s);
    var k := |s| - |l|;
    TrimLeftSuffix(s);
    TrimRightPrefix(l);
    assert l == s[k..];
  }

  lemma TrimSpaceTrailing(s: string)
    ensures var k := |s| - |TrimLeft(s)|; var t := TrimSpace(s);
      forall i :: k + |t| <= i < |s| ==> IsSpace(s[i])
  {
    var l := TrimLeft(s);
    var k := |s| - |l|;
    TrimLeftSuffix(s);
    TrimRightDropsSpace(l);
    forall i | k + |TrimRight(l)| <= i < |s|
      ensures IsSpace(s[i])
    {
      assert s[i] == l[i - k];
    }
  }

  lemma TrimSpaceEnds(s: string)
    ensures var t := TrimSpace(s);
      t == [] || (!IsSpace(t[0]) && !IsSpace(t[|t| - 1]))
  {
    var l := TrimLeft(s);
    var t := TrimRight(l);
    TrimRightPrefix(l);
    if t != [] {
      assert t[0] == l[0];
    }
  }

  /** A word has nothing to trim. */
  lemma TrimSpaceWord(s: string)
    requires |s| > 0 && NoSpace(s)
    ensures TrimSpace(s) == s
  {
    assert !IsSpace(s[0]) && TrimLeft(s) == s;
    assert !IsSpace(s[|s| - 1]) && TrimRight(s) == s;
  }

  predicate HasPrefix(s: string, p: string) { |p| <= |s| && s[..|p|] == p }

  /** strings.TrimPrefix */
  function TrimPrefix(s: string, p: string): (r: string)
    ensures HasPrefix(s, p) ==> p + r == s
    ensures !HasPrefix(s, p) ==> r == s
  {
    if HasPrefix(s, p) then s[|p|..] else s
  }

  /** Text that differs from p at some position of p does not start with p. */
  lemma NotPrefix(s: string, p: string, i: nat)
    requires i < |p| && i < |s| && s[i] != p[i]
    ensures !HasPrefix(s, p)
  {
    if |p| <= |s| {
      assert s[..|p|][i] == s[i];
    }
  }

  /** A prefix in front of some text is trimmed back off. */
  lemma TrimPrefixOf(prefix: string, body: string)
    ensures HasPrefix(prefix + body, prefix) && TrimPrefix(prefix + body, prefix) == body
  {
    assert (prefix + body)[..|prefix|] == prefix;
  }

  /** strings.Split with a separator of several characters. */
  function SplitOn(s: string, sep: string): (r: seq<string>)
    requires |sep| > 0
    ensures |r| >= 1
    decreases |s|
  {
    if |s| < |sep| then [s]
    else if s[..|sep|] == sep then [""] + SplitOn(s[|sep|..], sep)
    else
      var rest := SplitOn(s[1..], sep);
      [[s[0]] + rest[0]] + rest[1..]
  }

  /** Text without the separator's first character is one piece. */
  lemma {:induction false} SplitOnNone(s: string, sep: string)
    requires |sep| > 0 && sep[0] !in s
    ensures SplitOn(s, sep) == [s]
    decreases |s|
  {
    if |s| >= |sep| {
      assert s[..|sep|][0] == s[0] != sep[0];
      SplitOnNone(s[1..], sep);
      assert [s[0]] + s[1..] == s;
    }
  }

  /** Text before which the separator cannot start joins the first piece. */
  lemma {:induction false} SplitOnPrefix(a: string, tail: string, sep: string)
    requires |sep| > 0 && sep[0] !in a
    ensures var rest := SplitOn(tail, sep);
      SplitOn(a + tail, sep) == [a + rest[0]] + rest[1..]
    decreases |a|
  {
    if a == [] {
      assert a + tail == tail;
      var rest := SplitOn(tail, sep);
      assert a + rest[0] == rest[0];
      assert rest == [rest[0]] + rest[1..];
    } else {
      var s := a + tail;
      assert s[0] == a[0] != sep[0];
      assert s[1..] == a[1..] + tail;
      SplitOnPrefix(a[1..], tail, sep);
      if |s| >= |sep| {
        assert s[..|sep|][0] != sep[0];
      } else {
        assert SplitOn(tail, sep) == [tail];
        assert SplitOn(a[1..] + tail, sep) == [a[1..] + tail];
      }
      assert [a[0]] + (a[1..] + SplitOn(tail, sep)[0]) == a + SplitOn(tail, sep)[0];
    }
  }

  /** Two pieces around the only separator. */
  lemma SplitOnTwo(a: string, b: string, sep: string)
    requires |sep| > 0 && sep[0] !in a && sep[0] !in b
    ensures SplitOn(a + sep + b, sep) == [a, b]
  {
    var t := sep + b;
    assert t[..|sep|] == sep && t[|sep|..] == b;
    SplitOnNone(b, sep);
    assert SplitOn(t, sep) == ["", b];
    SplitOnPrefix(a, t, sep);
    assert a + sep + b == a + t;
    assert a + "" == a;
  }

  /** Parses every string of a list as an integer; fails if any fails. */
  function AtoiAll(ss: seq<string>): (r: Option<seq<int>>)
    ensures r.Some? ==> |r.value| == |ss|
  {
    if ss == [] then Some([])
    else match (Atoi(ss[0]), AtoiAll(ss[1..]))
      case (Some(x), Some(xs)) => Some([x] + xs)
      case _ => None
  }

  /** AtoiAll succeeds exactly when every string parses, and then holds
      their values in order. */
  lemma {:induction false} AtoiAllMeaning(ss: seq<string>)
    ensures AtoiAll(ss).Some? <==> forall i :: 0 <= i < |ss| ==> Atoi(ss[i]).Some?
    ensures AtoiAll(ss).Some? ==> forall i :: 0 <= i < |ss| ==> Atoi(ss[i]) == Some(AtoiAll(ss).value[i])
  {
    if ss != [] {
      var tail := ss[1..];
      AtoiAllMeaning(tail);
      assert forall i :: 1 <= i < |ss| ==> ss[i] == tail[i - 1];
      if forall i :: 0 <= i < |ss| ==> Atoi(ss[i]).Some? {
        assert forall i :: 0 <= i < |tail| ==> Atoi(tail[i]).Some?;
      }
    }
  }

  /** Every value in decimal. */
  function ItoaAll(values: seq<int>): (r: seq<string>)
    ensures |r| == |values| && forall i :: 0 <= i < |values| ==> r[i] == Itoa(values[i])
  {
    if values == [] then [] else ItoaAll(values[..|values| - 1]) + [Itoa(values[|values| - 1])]
  }

  lemma AtoiAllItoaAll(values: seq<int>)
    ensures AtoiAll(ItoaAll(values)) == Some(values)
  {
    var parts := ItoaAll(values);
    forall i | 0 <= i < |values|
      ensures Atoi(parts[i]) == Some(values[i])
    {
      AtoiItoa(values[i]);
    }
    AtoiAllMeaning(parts);
    assert AtoiAll(parts).value == values;
  }

  lemma {:induction false} JoinSnoc(parts: seq<string>, last: string, sep: char)
    requires |parts| >= 1
    ensures Join(parts + [last], sep) == Join(parts, sep) + [sep] + last
    decreases |parts|
  {
    if |parts| == 1 {
      assert (parts + [last])[1..] == [last];
    } else {
      assert (parts + [last])[1..] == parts[1..] + [last];
      JoinSnoc(parts[1..], last, sep);
    }
  }

  /** The decimal text of a number is a single word. */
  lemma ItoaIsWord(n: int)
    ensures |Itoa(n)| > 0 && NoSpace(Itoa(n))
  {
    var s := Itoa(n);
    forall i | 0 <= i < |s|
      ensures s[i] == '-' || IsDigit(s[i])
    {
      if n < 0 && i > 0 { assert s[i] == NatToString(-n)[i - 1]; }
    }
  }

  /** Words joined by single spaces have nothing to trim, and neither does
      that text after one leading space once trimmed. */
  lemma TrimSpaceOfWords(words: seq<string>)
    requires |words| >= 1
    requires forall i :: 0 <= i < |words| ==> |words[i]| > 0 && NoSpace(words[i])
    ensures TrimSpace(Join(words, ' ')) == Join(words, ' ')
    ensures TrimSpace(" " + Join(words, ' ')) == Join(words, ' ')
  {
    JoinOfWordsEnds(words);
    TrimSpaceOfEnds(Join(words, ' '));
  }

  lemma JoinOfWordsEnds(words: seq<string>)
    requires |words| >= 1
    requires forall i :: 0 <= i < |words| ==> |words[i]| > 0 && NoSpace(words[i])
    ensures var j := Join(words, ' '); |j| > 0 && !IsSpace(j[0]) && !IsSpace(j[|j| - 1])
  {
    var j := Join(words, ' ');
    var n := |words| - 1;
    if n > 0 {
      assert j == words[0] + ([' '] + Join(words[1..], ' '));
      assert j[0] == words[0][0];
      JoinSnoc(words[..n], words[n], ' ');
      assert words[..n] + [words[n]] == words;
      assert j[|j| - 1] == words[n][|words[n]| - 1];
    }
  }

  lemma TrimSpaceOfEnds(j: string)
    requires |j| > 0 && !IsSpace(j[0]) && !IsSpace(j[|j| - 1])
    ensures TrimSpace(j) == j && TrimSpace(" " + j) == j
  {
    assert TrimLeft(j) == j;
    assert TrimRight(j) == j;
    assert (" " + j)[1..] == j;
    assert TrimLeft(" " + j) == TrimLeft(j);
  }

  /** The first character of a join is that of the first part, and its last
      that of the last part. */
  lemma JoinEnds(parts: seq<string>, sep: char)
    requires |parts| >= 1 && |parts[0]| > 0 && |parts[|parts| - 1]| > 0
    ensures var j := Join(parts, sep); var last := parts[|parts| - 1];
      |j| > 0 && j[0] == parts[0][0] && j[|j| - 1] == last[|last| - 1]
  {
    var n := |parts| - 1;
    if n > 0 {
      assert Join(parts, sep) == parts[0] + ([sep] + Join(parts[1..], sep));
      JoinSnoc(parts[..n], parts[n], sep);
      assert parts[..n] + [parts[n]] == parts;
    }
  }

  /** A character in no part, other than the separator, is not in the join. */
  lemma {:induction false} JoinHasNo(parts: seq<string>, sep: char, c: char)
    requires |parts| >= 1 && c != sep
    requires forall i :: 0 <= i < |parts| ==> c !in parts[i]
    ensures c !in Join(parts, sep)
  {
    if |parts| > 1 {
      JoinHasNo(parts[1..], sep, c);
      assert c !in parts[0];
    }
  }

  lemma JoinTwo(a: string, b: string, sep: char)
    ensures Join([a, b], sep) == a + [sep] + b
  {
    assert [a, b][1..] == [b];
  }

  /** The length of the run of decimal digits at the start of s. */
  function DigitRun(s: string): (k: nat)
    ensures k <= |s| && AllDigits(s[..k])
    ensures k < |s| ==> !IsDigit(s[k])
  {
    if s != [] && IsDigit(s[0]) then
      var k := 1 + DigitRun(s[1..]);
      assert forall i :: 1 <= i < k ==> s[..k][i] == s[1..][..k - 1][i - 1];
      k
    else 0
  }

  /** A run of digits followed by a non-digit is read in full. */
  lemma {:induction false} DigitRunOf(digits: string, tail: string)
    requires AllDigits(digits)
    requires tail == [] || !IsDigit(tail[0])
    ensures DigitRun(digits + tail) == |digits|
    decreases |digits|
  {
    if digits == [] {
      assert digits + tail == tail;
    } else {
      assert (digits + tail)[1..] == digits[1..] + tail;
      DigitRunOf(digits[1..], tail);
    }
  }

  /** Two pieces around the only separator. */
  lemma SplitTwo(a: string, b: string, sep: char)
    requires sep !in a && sep !in b
    ensures Split(a + [sep] + b, sep) == [a, b]
  {
    JoinTwo(a, b, sep);
    SplitJoin([a, b], sep);
  }

  /** Text with no white space at either end, padded by one space on each
      side, trims back to itself. */
  lemma TrimSpacePadded(j: string)
    requires j == [] || (!IsSpace(j[0]) && !IsSpace(j[|j| - 1]))
    ensures TrimSpace(" " + j + " ") == j
  {
    var s := " " + j + " ";
    assert s[0] == ' ' && s[1..] == j + " ";
    assert TrimLeft(s) == TrimLeft(j + " ");
    if j == [] {
      assert j + " " == " ";
      assert TrimLeft(" ") == TrimLeft("");
      assert TrimLeft(s) == "";
    } else {
      assert (j + " ")[0] == j[0];
      assert TrimLeft(j + " ") == j + " ";
      var u := j + " ";
      assert u[..|u| - 1] == j;
      assert TrimRight(u) == TrimRight(j);
      assert TrimRight(j) == j;
    }
  }

  /** The white space of a regular expression's \s: tab, newline, form
      feed, carriage return and space. */
  predicate RegexSpace(c: char) {
    c == '\t' || c == '\n' || c == '\U{000C}' || c == '\r' || c == ' '
  }

  /** The length of the run of \s at the start of s. */
  function SpaceRun(s: string): (k: nat)
    ensures k <= |s|
    ensures k < |s| ==> !RegexSpace(s[k])
  {
    if s != [] && RegexSpace(s[0]) then 1 + SpaceRun(s[1..]) else 0
  }
}
