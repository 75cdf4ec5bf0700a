/** Advent of Code 2023, day 8 (Haunted Wasteland): a network of nodes, each
    with a left and a right neighbour, is walked from "AAA" following a
    repeating string of L/R instructions until "ZZZ" is reached. */
module Y2023Day08 {
  import opened Text

  // ---------------------------------------------------------------------
  // Nodes

  datatype Node = Node(value: string, left: string, right: string)

  /** Node.Go: "L" goes left, any other instruction goes right. */
  function Go(n: Node, instruction: string): (next: string)
    ensures instruction == "L" ==> next == n.left
    ensures instruction != "L" ==> next == n.right
  {
    if instruction == "L" then n.left else n.right
  }

  datatype Input = Input(instructions: string, nodeToNeighbors: map<string, Node>)

  /** A Go map lookup: a name that is not in the map reads as the zero Node. */
  function Lookup(nodes: map<string, Node>, name: string): Node {
    if name in nodes then nodes[name] else Node("", "", "")
  }

  // ---------------------------------------------------------------------
  // parseNode: the regular expression ([A-Z]+) = \(([A-Z]+), ([A-Z]+)\)

  predicate IsUpper(c: char) { 'A' <= c <= 'Z' }

  predicate AllUpper(s: string) { forall i :: 0 <= i < |s| ==> IsUpper(s[i]) }

  /** The length of the run of capital letters at the start of s. */
  function UpperRun(s: string): (k: nat)
    ensures k <= |s| && AllUpper(s[..k])
    ensures k < |s| ==> !IsUpper(s[k])
  {
    if s != [] && IsUpper(s[0]) then
      var k := 1 + UpperRun(s[1..]);
      assert forall i :: 1 <= i < k ==> s[..k][i] == s[1..][..k - 1][i - 1];
      k
    else 0
  }

  /** A run of capitals followed by something else is read in full. */
  lemma {:induction false} UpperRunOf(w: string, tail: string)
    requires AllUpper(w)
    requires tail == [] || !IsUpper(tail[0])
    ensures UpperRun(w + tail) == |w|
    decreases |w|
  {
    if w == [] {
      assert w + tail == tail;
    } else {
      assert (w + tail)[1..] == w[1..] + tail;
      UpperRunOf(w[1..], tail);
    }
  }

  /** The match of the pattern that starts at the beginning of t, if any.
      Every group is followed by a character that is not a capital, so a
      group is the whole run of capitals where it starts. */
  function MatchFrom(t: string): Option<Node> {
    var a := UpperRun(t);
    var t1 := t[a..];
    if a == 0 || !HasPrefix(t1, " = (") then None
    else
      var t2 := t1[4..];
      var b := UpperRun(t2);
      var t3 := t2[b..];
      if b == 0 || !HasPrefix(t3, ", ") then None
      else
        var t4 := t3[2..];
        var c := UpperRun(t4);
        if c == 0 || !HasPrefix(t4[c..], ")") then None
        else Some(Node(t[..a], t2[..b], t4[..c]))
  }

  /** The leftmost match in s at or after position p, for a pattern whose
      match at the start of a text is matchAt. */
  function FindFirst(matchAt: string -> Option<Node>, s: string, p: nat): Option<Node>
    requires p <= |s|
    decreases |s| - p
  {
    match matchAt(s[p..])
    case Some(n) => Some(n)
    case None => if p == |s| then None else FindFirst(matchAt, s, p + 1)
  }

  /** FindFirst fails only when no position has a match. */
  lemma {:induction false} FindFirstNone(matchAt: string -> Option<Node>, s: string, p: nat)
    requires p <= |s|
    ensures FindFirst(matchAt, s, p).None? <==> forall q :: p <= q <= |s| ==> matchAt(s[q..]).None?
    decreases |s| - p
  {
    if matchAt(s[p..]).None? && p < |s| {
      FindFirstNone(matchAt, s, p + 1);
    }
  }

  /** FindFirst returns the match at the first position that has one. */
  lemma {:induction false} FindFirstLeftmost(matchAt: string -> Option<Node>, s: string, p: nat)
    requires p <= |s| && FindFirst(matchAt, s, p).Some?
    ensures exists q :: (p <= q <= |s| && matchAt(s[q..]) == FindFirst(matchAt, s, p)
      && forall q' :: p <= q' < q ==> matchAt(s[q'..]).None?)
    decreases |s| - p
  {
    if matchAt(s[p..]).None? {
      FindFirstLeftmost(matchAt, s, p + 1);
      var q :| p + 1 <= q <= |s| && matchAt(s[q..]) == FindFirst(matchAt, s, p)
        && (forall q' :: p + 1 <= q' < q ==> matchAt(s[q'..]).None?);
      assert forall q' :: p <= q' < q ==> matchAt(s[q'..]).None?;
    }
  }

  /** parseNode (FindStringSubmatch): None where the line does not match and
      Go indexes a nil slice of matches. */
  function ParseNode(line: string): Option<Node> {
    FindFirst(MatchFrom, line, 0)
  }

  /** A parsed node is three names, taken from the leftmost match in the
      line; there is none only when no position of the line matches. */
  lemma ParseNodeMeaning(line: string)
    ensures var r := ParseNode(line);
      && (r.None? <==> forall q :: 0 <= q <= |line| ==> MatchFrom(line[q..]).None?)
      && (r.Some? ==> (IsName(r.value.value) && IsName(r.value.left) && IsName(r.value.right)
        && exists q :: (0 <= q <= |line| && MatchFrom(line[q..]) == r
          && forall q' :: 0 <= q' < q ==> MatchFrom(line[q'..]).None?)))
  {
    FindFirstNone(MatchFrom, line, 0);
    if ParseNode(line).Some? {
      FindFirstLeftmost(MatchFrom, line, 0);
      var q :| 0 <= q <= |line| && MatchFrom(line[q..]) == ParseNode(line);
      MatchNames(line[q..]);
    }
  }

  lemma MatchNames(t: string)
    requires MatchFrom(t).Some?
    ensures IsName(MatchFrom(t).value.value) && IsName(MatchFrom(t).value.left) && IsName(MatchFrom(t).value.right)
  {
  }

  /** The line of a node in the puzzle input. */
  function NodeText(n: Node): string {
    n.value + " = (" + n.left + ", " + n.right + ")"
  }

  predicate IsName(s: string) { |s| > 0 && AllUpper(s) }

  /** A node written as "AAA = (BBB, CCC)" is read back by the pattern. */
  lemma ParseNodeText(n: Node)
    requires IsName(n.value) && IsName(n.left) && IsName(n.right)
    ensures ParseNode(NodeText(n)) == Some(n)
  {
    var t := NodeText(n);
    var rest := ", " + n.right + ")";
    MatchText(t, n.value, n.left, n.right, " = (" + n.left + rest, n.left + rest, rest, n.right + ")");
    assert t[0..] == t;
    assert ParseNode(t) == FindFirst(MatchFrom, t, 0);
  }

  lemma MatchText(t: string, v: string, l: string, r: string, t1: string, t2: string, t3: string, t4: string)
    requires IsName(v) && IsName(l) && IsName(r)
    requires t4 == r + ")" && t3 == ", " + t4 && t2 == l + t3 && t1 == " = (" + t2 && t == v + t1
    ensures MatchFrom(t) == Some(Node(v, l, r))
  {
    GroupOf(t, v, t1);
    PrefixOf(t1, " = (", t2);
    GroupOf(t2, l, t3);
    PrefixOf(t3, ", ", t4);
    GroupOf(t4, r, ")");
    PrefixOf(")", ")", "");
  }

  /** A name followed by something else is the group where it starts. */
  lemma GroupOf(t: string, w: string, tail: string)
    requires IsName(w) && t == w + tail && tail != [] && !IsUpper(tail[0])
    ensures UpperRun(t) == |w| && t[..|w|] == w && t[|w|..] == tail
  {
    UpperRunOf(w, tail);
  }

  lemma PrefixOf(t: string, p: string, rest: string)
    requires t == p + rest
    ensures HasPrefix(t, p) && t[|p|..] == rest
  {
  }

  // ---------------------------------------------------------------------
  // parseInput

  /** The lines of the input, each trimmed. */
  function CleanLines(lines: seq<string>): (cl: seq<string>)
    ensures |cl| == |lines| && forall i :: 0 <= i < |lines| ==> cl[i] == TrimSpace(lines[i])
  {
    seq(|lines|, i requires 0 <= i < |lines| => TrimSpace(lines[i]))
  }

  /** One iteration of the loop of parseInput: blank lines are skipped, the
      first line is the instruction string and every later one a node. */
  function ParseLine(parse: string -> Option<Node>, acc: Input, idx: nat, cleanLine: string): Option<Input> {
    if cleanLine == "" then Some(acc)
    else if idx == 0 then Some(acc.(instructions := cleanLine))
    else match parse(cleanLine)
      case None => None
      case Some(node) => Some(acc.(nodeToNeighbors := acc.nodeToNeighbors[node.value := node]))
  }

  /** The result after the first n trimmed lines, nodes read by parse. */
  function Parsed(parse: string -> Option<Node>, cl: seq<string>, n: nat): Option<Input>
    requires n <= |cl|
  {
    if n == 0 then Some(Input("", map[]))
    else match Parsed(parse, cl, n - 1)
      case None => None
      case Some(acc) => ParseLine(parse, acc, n - 1, cl[n - 1])
  }

  /** parseInput */
  function ParseInputSpec(input: string): Option<Input> {
    var cl := CleanLines(Split(input, '\n'));
    Parsed(ParseNode, cl, |cl|)
  }

  method ParseInput(input: string) returns (result: Option<Input>)
    ensures result == ParseInputSpec(input)
  {
    var lines := Split(input, '\n');
    ghost var cl := CleanLines(lines);
    var acc := Input("", map[]);
    for idx := 0 to |lines|
      invariant Parsed(ParseNode, cl, idx) == Some(acc)
    {
      var cleanLine := TrimSpace(lines[idx]);
      if cleanLine == "" {
        continue;
      }
      if idx == 0 {
        acc := acc.(instructions := cleanLine);
        continue;
      }
      var node := ParseNode(cleanLine);
      if node.None? {
        ParsedFailureSticks(ParseNode, cl, idx + 1);
        return None;
      }
      acc := acc.(nodeToNeighbors := acc.nodeToNeighbors[node.value.value := node.value]);
    }
    return Some(acc);
  }

  lemma {:induction false} ParsedFailureSticks(parse: string -> Option<Node>, cl: seq<string>, k: nat)
    requires k <= |cl| && Parsed(parse, cl, k).None?
    ensures Parsed(parse, cl, |cl|).None?
    decreases |cl| - k
  {
    if k < |cl| {
      ParsedFailureSticks(parse, cl, k + 1);
    }
  }

  /** Trimmed line i (after the first) describes a node. */
  predicate NodeLine(cl: seq<string>, i: int) {
    1 <= i < |cl| && cl[i] != ""
  }

  /** The parse fails exactly when a node line cannot be read. */
  lemma {:induction false} ParsedSucceeds(parse: string -> Option<Node>, cl: seq<string>, n: nat)
    requires n <= |cl|
    ensures Parsed(parse, cl, n).Some? <==> forall i :: 0 <= i < n && NodeLine(cl, i) ==> parse(cl[i]).Some?
  {
    if n > 0 {
      ParsedSucceeds(parse, cl, n - 1);
    }
  }

  /** The instruction string is the trimmed first line. */
  lemma {:induction false} ParsedInstructions(parse: string -> Option<Node>, cl: seq<string>, n: nat)
    requires n <= |cl| && Parsed(parse, cl, n).Some?
    ensures Parsed(parse, cl, n).value.instructions == if n == 0 then "" else cl[0]
  {
    if n > 0 {
      ParsedSucceeds(parse, cl, n);
      ParsedInstructions(parse, cl, n - 1);
    }
  }

  /** Every node line's node is in the map under its name, and each name
      maps to the node of the last line that defines it. */
  lemma {:induction false} ParsedNodes(parse: string -> Option<Node>, cl: seq<string>, n: nat)
    requires n <= |cl| && Parsed(parse, cl, n).Some?
    ensures var m := Parsed(parse, cl, n).value.nodeToNeighbors;
      && (forall i :: 0 <= i < n && NodeLine(cl, i) ==> parse(cl[i]).Some? && parse(cl[i]).value.value in m)
      && (forall k :: k in m ==> m[k].value == k && LastDefinition(parse, cl, n, k, m[k]))
  {
    if n > 0 {
      ParsedNodes(parse, cl, n - 1);
      ParsedSucceeds(parse, cl, n);
      var m0 := Parsed(parse, cl, n - 1).value.nodeToNeighbors;
      var m := Parsed(parse, cl, n).value.nodeToNeighbors;
      if NodeLine(cl, n - 1) {
        var node := parse(cl[n - 1]).value;
        assert m == m0[node.value := node];
        forall k | k in m ensures m[k].value == k && LastDefinition(parse, cl, n, k, m[k]) {
          if k == node.value {
            assert NodeLine(cl, n - 1) && parse(cl[n - 1]) == Some(m[k]);
          } else {
            LastDefinitionStep(parse, cl, n, k, m[k]);
          }
        }
      } else {
        assert m == m0;
        forall k | k in m ensures LastDefinition(parse, cl, n, k, m[k]) {
          LastDefinitionStep(parse, cl, n, k, m[k]);
        }
      }
    }
  }

  /** Some node line before n reads as node, and no later one before n
      defines the name k. */
  ghost predicate LastDefinition(parse: string -> Option<Node>, cl: seq<string>, n: nat, k: string, node: Node) {
    exists i :: 0 <= i < n && NodeLine(cl, i) && parse(cl[i]) == Some(node)
      && forall j :: i < j < n && NodeLine(cl, j) ==> parse(cl[j]).Some? && parse(cl[j]).value.value != k
  }

  lemma LastDefinitionStep(parse: string -> Option<Node>, cl: seq<string>, n: nat, k: string, node: Node)
    requires 0 < n <= |cl| && LastDefinition(parse, cl, n - 1, k, node)
    requires NodeLine(cl, n - 1) ==> parse(cl[n - 1]).Some? && parse(cl[n - 1]).value.value != k
    ensures LastDefinition(parse, cl, n, k, node)
  {
    var i :| 0 <= i < n - 1 && NodeLine(cl, i) && parse(cl[i]) == Some(node)
      && forall j :: i < j < n - 1 && NodeLine(cl, j) ==> parse(cl[j]).Some? && parse(cl[j]).value.value != k;
    assert forall j :: i < j < n && NodeLine(cl, j) ==> parse(cl[j]).Some? && parse(cl[j]).value.value != k;
  }

  /** parseInput takes the trimmed first line as the instructions and maps
      each node name of a later line to the node of the last line naming it;
      it fails exactly when some later non-blank line does not match. */
  lemma ParseInputMeaning(input: string)
    ensures var cl := CleanLines(Split(input, '\n')); var r := ParseInputSpec(input);
      && (r.Some? <==> forall i :: 0 <= i < |cl| && NodeLine(cl, i) ==> ParseNode(cl[i]).Some?)
      && (r.Some? ==> (r.value.instructions == cl[0]
        && (forall i :: 0 <= i < |cl| && NodeLine(cl, i) ==> ParseNode(cl[i]).value.value in r.value.nodeToNeighbors)
        && forall k :: k in r.value.nodeToNeighbors ==>
             (r.value.nodeToNeighbors[k].value == k && LastDefinition(ParseNode, cl, |cl|, k, r.value.nodeToNeighbors[k]))))
  {
    var cl := CleanLines(Split(input, '\n'));
    ParsedSucceeds(ParseNode, cl, |cl|);
    if ParseInputSpec(input).Some? {
      ParsedInstructions(ParseNode, cl, |cl|);
      ParsedNodes(ParseNode, cl, |cl|);
    }
  }

  // ---------------------------------------------------------------------
  // Part 1: the walk

  /** k mod n, counted out by repeated subtraction. */
  function Cycle(k: nat, n: nat): (i: nat)
    requires n > 0
    ensures i < n
  {
    if k < n then k else Cycle(k - n, n)
  }

  /** One more step moves to the next instruction, wrapping to the first. */
  lemma {:induction false} CycleNext(k: nat, n: nat)
    requires n > 0
    ensures Cycle(k + 1, n) == if Cycle(k, n) + 1 < n then Cycle(k, n) + 1 else 0
  {
    if k + 1 > n {
      CycleNext(k - n, n);
      assert k + 1 - n == (k - n) + 1;
    }
  }

  /** Where the walk stands after k steps; step k + 1 follows instruction
      k mod |instructions|, and a name missing from the map leads to "". */
  function Position(nodes: map<string, Node>, instructions: string, k: nat): string
    requires |instructions| > 0
  {
    if k == 0 then "AAA"
    else
      var here := Position(nodes, instructions, k - 1);
      Go(Lookup(nodes, here), [instructions[Cycle(k - 1, |instructions|)]])
  }

  /** SolvePart1's two loops: the outer loop restarts the instructions, the
      inner one takes a step per instruction and stops at the first "ZZZ".
      The Go loop may run forever (empty instructions, or "ZZZ" never
      reached), so the model runs at most `rounds` passes over the
      instructions and then gives up with None. */
  method Walk(nodes: map<string, Node>, instructions: string, rounds: nat) returns (steps: Option<nat>)
    ensures steps.Some? ==> (|instructions| > 0 && steps.value >= 1
      && Position(nodes, instructions, steps.value) == "ZZZ"
      && forall j :: 1 <= j < steps.value ==> Position(nodes, instructions, j) != "ZZZ")
    ensures steps.None? && |instructions| > 0 ==>
      forall j :: 1 <= j <= rounds * |instructions| ==> Position(nodes, instructions, j) != "ZZZ"
  {
    if |instructions| == 0 {
      // the outer loop would spin without taking a step
      return None;
    }
    var current := "AAA";
    var numSteps := 0;
    var round := 0;
    while current != "ZZZ" && round < rounds
      invariant round <= rounds
      invariant numSteps == round * |instructions| && Cycle(numSteps, |instructions|) == 0
      invariant current == Position(nodes, instructions, numSteps)
      invariant forall j :: 1 <= j <= numSteps ==> Position(nodes, instructions, j) != "ZZZ"
      invariant current != "ZZZ"
      decreases rounds - round
    {
      var arrived;
      arrived, numSteps, current := Pass(nodes, instructions, numSteps, current);
      if arrived {
        return Some(numSteps);
      }
      assert numSteps == (round + 1) * |instructions|;
      round := round + 1;
    }
    return None;
  }

  /** The inner loop: one pass over the instructions from step `start`,
      stopping as soon as "ZZZ" is reached. */
  method Pass(nodes: map<string, Node>, instructions: string, start: nat, from: string)
    returns (arrived: bool, numSteps: nat, current: string)
    requires |instructions| > 0 && Cycle(start, |instructions|) == 0
    requires from == Position(nodes, instructions, start)
    requires forall j :: 1 <= j <= start ==> Position(nodes, instructions, j) != "ZZZ"
    ensures arrived ==> numSteps > start && Position(nodes, instructions, numSteps) == "ZZZ"
    ensures numSteps <= start + |instructions|
    ensures forall j :: 1 <= j < numSteps ==> Position(nodes, instructions, j) != "ZZZ"
    ensures !arrived ==> (numSteps == start + |instructions| && Cycle(numSteps, |instructions|) == 0
      && current == Position(nodes, instructions, numSteps) && current != "ZZZ")
  {
    current := from;
    numSteps := start;
    for idx := 0 to |instructions|
      invariant numSteps == start + idx
      invariant idx < |instructions| ==> Cycle(numSteps, |instructions|) == idx
      invariant idx == |instructions| ==> Cycle(numSteps, |instructions|) == 0
      invariant current == Position(nodes, instructions, numSteps)
      invariant forall j :: 1 <= j <= numSteps ==> Position(nodes, instructions, j) != "ZZZ"
    {
      CycleNext(numSteps, |instructions|);
      numSteps := numSteps + 1;
      current := Go(Lookup(nodes, current), [instructions[idx]]);
      if current == "ZZZ" {
        return true, numSteps, current;
      }
    }
    return false, numSteps, current;
  }

  /** SolvePart1: the number of steps from "AAA" to "ZZZ", or None where the
      Go program panics or the walk does not arrive within `rounds` passes. */
  method SolvePart1(input: string, rounds: nat) returns (answer: Option<string>)
    ensures answer.Some? ==> (ParseInputSpec(input).Some?
      && var data := ParseInputSpec(input).value;
      exists k: nat :: answer == Some(Itoa(k)) && k >= 1 && |data.instructions| > 0
        && Position(data.nodeToNeighbors, data.instructions, k) == "ZZZ"
        && forall j :: 1 <= j < k ==> Position(data.nodeToNeighbors, data.instructions, j) != "ZZZ")
  {
    var data := ParseInput(input);
    if data.None? {
      return None;
    }
    var steps := Walk(data.value.nodeToNeighbors, data.value.instructions, rounds);
    if steps.None? {
      return None;
    }
    return Some(Itoa(steps.value));
  }

  /** The example network: RL from AAA goes right to CCC and left to ZZZ. */
  function ExampleNodes(): map<string, Node> {
    map[
      "AAA" := Node("AAA", "BBB", "CCC"),
      "BBB" := Node("BBB", "DDD", "EEE"),
      "CCC" := Node("CCC", "ZZZ", "GGG"),
      "DDD" := Node("DDD", "DDD", "DDD"),
      "EEE" := Node("EEE", "EEE", "EEE"),
      "GGG" := Node("GGG", "GGG", "GGG"),
      "ZZZ" := Node("ZZZ", "ZZZ", "ZZZ")]
  }

  /** An example, not a general property: on the first example network
      the walk first reaches ZZZ after 2 steps. */
  lemma ExampleTakesTwoSteps()
    ensures Position(ExampleNodes(), "RL", 1) != "ZZZ"
    ensures Position(ExampleNodes(), "RL", 2) == "ZZZ"
  {
    assert Position(ExampleNodes(), "RL", 1) == "CCC";
  }
}
