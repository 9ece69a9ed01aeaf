/** Day 8: a network of nodes, each naming a left and a right destination,
    walked by repeating a string of L/R instructions. Part 1 counts the steps
    from AAA to ZZZ. Part 2 measures, from every node whose third letter is
    A, the gap between its first two arrivals at nodes whose third letter is
    Z, and answers with the lcm of those gaps. */
module Day08 {
  import opened Text
  import opened Numbers

  /** `DestinationPair`. */
  datatype Destinations = Destinations(left: string, right: string)

  /** `Node`: a name and its destinations. */
  datatype Node = Node(name: string, destinations: Destinations)

  /** How an operation of the network ends: with a value, or with the
      Python exception it raises. `OutOfFuel` is a walk that has not
      finished within the step bound the model is given. */
  datatype Outcome<T> = Done(value: T) | KeyError | IndexError | ZeroDivisionError | OutOfFuel

  // ---------------------------------------------------------------------
  // Parsing

  /** `DestinationPair.__init__`: "(BBB, CCC)" split at ", ", with the
      parentheses removed; `None` is the IndexError of a missing ", ". */
  function ParseDestinations(description: string): Option<Destinations>
  {
    var parts := Split(description, ", ");
    if |parts| < 2 then None
    else Some(Destinations(Remove(parts[0], '('), Remove(parts[1], ')')))
  }

  /** `Node.__init__`: "AAA = (BBB, CCC)" split at " = ". */
  function ParseNode(description: string): Option<Node>
  {
    var elements := Split(description, " = ");
    if |elements| < 2 then None
    else match ParseDestinations(elements[1])
      case None => None
      case Some(d) => Some(Node(elements[0], d))
  }

  /** A name free of the characters the node syntax uses. */
  predicate Plain(s: string)
  {
    forall i :: 0 <= i < |s| ==> s[i] != ' ' && s[i] != ',' && s[i] != '=' && s[i] != '(' && s[i] != ')'
  }

  /** The line a node is written as. */
  function NodeLine(node: Node): string
  {
    node.name + " = " + ("(" + node.destinations.left + ", " + (node.destinations.right + ")"))
  }

  /** Parsing reads back every node with plain names. */
  lemma {:induction false} ParseNodeLine(node: Node)
    requires Plain(node.name) && Plain(node.destinations.left) && Plain(node.destinations.right)
    ensures ParseNode(NodeLine(node)) == Some(node)
  {
    var left, right := node.destinations.left, node.destinations.right;
    ParsePair(left, right);
    NodeLineSplits(node.name, "(" + left + ", " + (right + ")"));
  }

  lemma {:induction false} NodeLineSplits(name: string, pair: string)
    requires Plain(name) && '=' !in pair
    ensures Split(name + " = " + pair, " = ") == [name, pair]
  {
    assert ' ' !in name;
    SplitFirst(name, " = ", pair);
    SplitAbsent(pair, " = ", 1);
  }

  lemma {:induction false} ParsePair(left: string, right: string)
    requires Plain(left) && Plain(right)
    ensures ParseDestinations("(" + left + ", " + (right + ")")) == Some(Destinations(left, right))
  {
    assert ',' !in "(" + left;
    SplitFirst("(" + left, ", ", right + ")");
    assert ',' !in right + ")";
    SplitAbsent(right + ")", ", ", 0);
    var parts := Split("(" + left + ", " + (right + ")"), ", ");
    assert parts == ["(" + left, right + ")"];
    RemoveAppend("(", left, '(');
    RemoveAbsent(left, '(');
    assert Remove("(", '(') == [];
    assert Remove(parts[0], '(') == left;
    RemoveAppend(right, ")", ')');
    RemoveAbsent(right, ')');
    assert Remove(")", ')') == [];
    assert Remove(parts[1], ')') == right;
  }

  /** `find_next_node`: left for "L", right for anything else. */
  function FindNextNode(node: Node, direction: char): string
  {
    if direction == 'L' then node.destinations.left else node.destinations.right
  }

  // ---------------------------------------------------------------------
  // The network

  /** `Network`: the instructions, the nodes by name, and the names in the
      order the dictionary keeps them (first insertion). */
  datatype Network = Network(instructions: string, nodes: map<string, Node>, names: seq<string>)

  /** Each node is filed under its own name, and `names` lists every name
      once. */
  ghost predicate Valid(net: Network)
  {
    && (forall k :: k in net.nodes ==> net.nodes[k].name == k)
    && (forall k :: k in net.nodes <==> k in net.names)
    && (forall i, j :: 0 <= i < j < |net.names| ==> net.names[i] != net.names[j])
  }

  /** The lines parsed in turn; `None` if one fails. */
  function ParseNodes(lines: seq<string>): (r: Option<seq<Node>>)
    ensures r.Some? ==> |r.value| == |lines|
  {
    if lines == [] then Some([])
    else match (ParseNodes(lines[..|lines| - 1]), ParseNode(lines[|lines| - 1]))
      case (Some(ns), Some(n)) => Some(ns + [n])
      case _ => None
  }

  /** `nodes[node.name] = node` for each node in turn: a later node of a
      name replaces the earlier one and keeps its place. */
  function Table(ns: seq<Node>): (map<string, Node>, seq<string>)
  {
    if ns == [] then (map[], [])
    else
      var (nodes, names) := Table(ns[..|ns| - 1]);
      var n := ns[|ns| - 1];
      (nodes[n.name := n], if n.name in nodes then names else names + [n.name])
  }

  /** What the table holds: a name is a key iff some node has it, the node
      kept is the last of that name, and the names are listed once each. */
  lemma TableMeaning(ns: seq<Node>)
    ensures var (nodes, names) := Table(ns);
      && Valid(Network("", nodes, names))
      && (forall k :: k in nodes <==> exists i :: 0 <= i < |ns| && ns[i].name == k)
      && (forall k :: k in nodes ==> exists i :: 0 <= i < |ns| && nodes[k] == ns[i]
                                        && forall j :: i < j < |ns| ==> ns[j].name != k)
  {
    TableValid(ns);
    TableKeys(ns);
    TableLast(ns);
  }

  /** The table files each node under its name and lists each name once. */
  lemma {:induction false} TableValid(ns: seq<Node>)
    ensures Valid(Network("", Table(ns).0, Table(ns).1))
    decreases |ns|
  {
    if ns != [] {
      TableValid(ns[..|ns| - 1]);
    }
  }

  /** A name is a key of the table iff some node has it. */
  lemma {:induction false} TableKeys(ns: seq<Node>)
    ensures forall k :: k in Table(ns).0 <==> exists i :: 0 <= i < |ns| && ns[i].name == k
    decreases |ns|
  {
    if ns != [] {
      var init := ns[..|ns| - 1];
      var n := ns[|ns| - 1];
      TableKeys(init);
      var nodes := Table(init).0;
      var nodes' := Table(ns).0;
      assert nodes' == nodes[n.name := n];
      forall k ensures k in nodes' <==> exists i :: 0 <= i < |ns| && ns[i].name == k {
        if k in nodes && k != n.name {
          var i :| 0 <= i < |init| && init[i].name == k;
          assert ns[i] == init[i];
        }
        if exists i :: 0 <= i < |ns| && ns[i].name == k {
          var i :| 0 <= i < |ns| && ns[i].name == k;
          if i < |init| {
            assert init[i] == ns[i];
          }
        }
      }
    }
  }

  /** The node kept under a name is the last node of that name. */
  lemma {:induction false} TableLast(ns: seq<Node>)
    ensures forall k :: k in Table(ns).0 ==> exists i :: 0 <= i < |ns| && Table(ns).0[k] == ns[i]
                                               && forall j :: i < j < |ns| ==> ns[j].name != k
    decreases |ns|
  {
    if ns != [] {
      var init := ns[..|ns| - 1];
      var n := ns[|ns| - 1];
      TableLast(init);
      var nodes := Table(init).0;
      var nodes' := Table(ns).0;
      assert nodes' == nodes[n.name := n];
      forall k | k in nodes'
        ensures exists i :: 0 <= i < |ns| && nodes'[k] == ns[i] && forall j :: i < j < |ns| ==> ns[j].name != k
      {
        if k == n.name {
          assert nodes'[k] == ns[|ns| - 1];
        } else {
          assert k in nodes;
          var i :| 0 <= i < |init| && nodes[k] == init[i] && forall j :: i < j < |init| ==> init[j].name != k;
          assert nodes'[k] == ns[i];
          forall j | i < j < |ns| ensures ns[j].name != k {
            if j < |init| {
              assert ns[j] == init[j];
            }
          }
        }
      }
    }
  }

  /** `Network.__init__` with `determine_nodes`: the instructions, and the
      node lines parsed into the table in turn. A line that does not parse
      is the IndexError the constructor raises. */
  method BuildNetwork(instructions: string, lines: seq<string>) returns (net: Outcome<Network>)
    ensures ParseNodes(lines).None? <==> net.IndexError?
    ensures ParseNodes(lines).Some? ==>
      net == Done(Network(instructions, Table(ParseNodes(lines).value).0, Table(ParseNodes(lines).value).1))
    ensures net.Done? ==> Valid(net.value)
  {
    var nodes: map<string, Node> := map[];
    var names: seq<string> := [];
    ghost var parsed: seq<Node> := [];
    for i := 0 to |lines|
      invariant ParseNodes(lines[..i]) == Some(parsed)
      invariant (nodes, names) == Table(parsed)
    {
      assert lines[..i + 1][..i] == lines[..i];
      match ParseNode(lines[i]) {
        case None =>
          ParseNodesFails(lines, i + 1);
          return IndexError;
        case Some(node) =>
          NodesStep(lines[..i + 1], parsed, node);
          if node.name !in nodes {
            names := names + [node.name];
          }
          nodes := nodes[node.name := node];
          parsed := parsed + [node];
      }
    }
    assert lines[..|lines|] == lines;
    TableMeaning(parsed);
    net := Done(Network(instructions, nodes, names));
  }

  /** One more parsed line adds its node to the list and to the table. */
  lemma {:induction false} NodesStep(lines: seq<string>, parsed: seq<Node>, node: Node)
    requires lines != [] && ParseNodes(lines[..|lines| - 1]) == Some(parsed)
    requires ParseNode(lines[|lines| - 1]) == Some(node)
    ensures ParseNodes(lines) == Some(parsed + [node])
    ensures var (nodes, names) := Table(parsed);
      Table(parsed + [node]) == (nodes[node.name := node], if node.name in nodes then names else names + [node.name])
  {
    assert (parsed + [node])[..|parsed|] == parsed;
  }

  /** A line that does not parse makes every longer prefix fail. */
  lemma {:induction false} ParseNodesFails(lines: seq<string>, n: nat)
    requires 0 < n <= |lines| && ParseNode(lines[n - 1]).None?
    ensures ParseNodes(lines).None?
    decreases |lines|
  {
    if n < |lines| {
      ParseNodesFails(lines[..|lines| - 1], n);
    }
  }

  // ---------------------------------------------------------------------
  // Walking the network

  /** One step: the instruction at `step` (cyclically) picks the next name,
      which must be a node; `None` is the KeyError. */
  function Move(net: Network, node: Node, step: nat): Option<Node>
    requires |net.instructions| > 0
  {
    var next := FindNextNode(node, net.instructions[step % |net.instructions|]);
    if next in net.nodes then Some(net.nodes[next]) else None
  }

  /** Where `k` steps from `start` lead. */
  function Walk(net: Network, start: Node, k: nat): Option<Node>
    requires |net.instructions| > 0
  {
    if k == 0 then Some(start)
    else match Walk(net, start, k - 1)
      case None => None
      case Some(node) => Move(net, node, k - 1)
  }

  predicate Named(at: Option<Node>, name: string)
  {
    at.Some? && at.value.name == name
  }

  /** `n` steps lead from `start` to `target`, and no fewer do. */
  ghost predicate ReachesFirst(net: Network, start: Node, target: string, n: nat)
    requires |net.instructions| > 0
  {
    Named(Walk(net, start, n), target) && forall k :: 0 <= k < n ==> !Named(Walk(net, start, k), target)
  }

  /** The first `n` steps from `start` all exist and none stands on `target`. */
  ghost predicate Unreached(net: Network, start: Node, target: string, n: nat)
    requires |net.instructions| > 0
  {
    forall k :: 0 <= k < n ==> Walk(net, start, k).Some? && !Named(Walk(net, start, k), target)
  }

  /** Within `fuel` steps the walk from `start` breaks off before reaching `target`. */
  ghost predicate StuckBefore(net: Network, start: Node, target: string, fuel: nat)
    requires |net.instructions| > 0
  {
    exists k :: 0 < k <= fuel && Walk(net, start, k).None? && Unreached(net, start, target, k)
  }

  /** One step of a walk: the lookup `self.nodes[next_node]`. */
  method Step(net: Network, ghost start: Node, steps: nat, current: Node) returns (next: Option<Node>)
    requires |net.instructions| > 0 && Walk(net, start, steps) == Some(current)
    ensures next == Walk(net, start, steps + 1)
  {
    var name := FindNextNode(current, net.instructions[steps % |net.instructions|]);
    next := if name in net.nodes then Some(net.nodes[name]) else None;
  }

  /** `count_steps_from_start_to_finish`, with at most `fuel` steps. */
  method CountStepsFromStartToFinish(net: Network, fuel: nat) returns (outcome: Outcome<nat>)
    requires Valid(net)
    ensures outcome.Done? ==>
      && "AAA" in net.nodes && |net.instructions| > 0 && 1 <= outcome.value <= fuel
      && ReachesFirst(net, net.nodes["AAA"], "ZZZ", outcome.value)
    ensures outcome.KeyError? ==> (
      || "AAA" !in net.nodes
      || (|net.instructions| > 0 && StuckBefore(net, net.nodes["AAA"], "ZZZ", fuel)))
    ensures outcome.ZeroDivisionError? <==> "AAA" in net.nodes && |net.instructions| == 0
    ensures outcome.OutOfFuel? ==> (
      && "AAA" in net.nodes && |net.instructions| > 0
      && Walk(net, net.nodes["AAA"], fuel).Some? && Unreached(net, net.nodes["AAA"], "ZZZ", fuel + 1))
    ensures !outcome.IndexError?
  {
    if "AAA" !in net.nodes {
      return KeyError;
    }
    var start := net.nodes["AAA"];
    var current := start;
    var steps: nat := 0;
    if |net.instructions| == 0 {
      // the first `steps % len(self.instructions)`: AAA is not ZZZ
      return ZeroDivisionError;
    }
    while current.name != "ZZZ"
      invariant steps <= fuel
      invariant Walk(net, start, steps) == Some(current)
      invariant Unreached(net, start, "ZZZ", steps)
      decreases fuel - steps
    {
      if steps == fuel {
        return OutOfFuel;
      }
      var next := Step(net, start, steps, current);
      if next.None? {
        assert Unreached(net, start, "ZZZ", steps + 1);
        return KeyError;
      }
      current := next.value;
      steps := steps + 1;
    }
    return Done(steps);
  }

  /** After a whole number of passes through the instructions the walk
      starts afresh from where it stands. */
  lemma {:induction false} WalkRestarts(net: Network, start: Node, a: nat, b: nat)
    requires |net.instructions| > 0 && a % |net.instructions| == 0
    requires Walk(net, start, a).Some?
    ensures Walk(net, start, a + b) == Walk(net, Walk(net, start, a).value, b)
    decreases b
  {
    if b > 0 {
      WalkRestarts(net, start, a, b - 1);
      ModShift(a, b - 1, |net.instructions|);
      assert (a + b - 1) % |net.instructions| == (b - 1) % |net.instructions|;
    }
  }

  /** Hence a walk that comes back to a node after a whole number of passes
      repeats itself with that period from then on. */
  lemma {:induction false} WalkPeriodic(net: Network, start: Node, a: nat, p: nat, b: nat)
    requires |net.instructions| > 0 && a % |net.instructions| == 0 && p % |net.instructions| == 0
    requires Walk(net, start, a).Some? && Walk(net, start, a + p) == Walk(net, start, a)
    ensures Walk(net, start, a + p + b) == Walk(net, start, a + b)
  {
    var l := |net.instructions|;
    assert (a + p) % l == 0 by {
      ModShift(p, a, l);
    }
    WalkRestarts(net, start, a + p, b);
    WalkRestarts(net, start, a, b);
  }

  // ---------------------------------------------------------------------
  // Start nodes

  /** The nodes, in dictionary order, whose third letter is A. */
  function StartNodes(net: Network, n: nat): (r: seq<Node>)
    requires n <= |net.names| && forall i :: 0 <= i < n ==> net.names[i] in net.nodes && |net.names[i]| >= 3
  {
    if n == 0 then []
    else
      var name := net.names[n - 1];
      StartNodes(net, n - 1) + if name[2] == 'A' then [net.nodes[name]] else []
  }

  /** The start nodes are exactly the nodes whose name has A third. */
  lemma {:induction false} StartNodesMeaning(net: Network, n: nat)
    requires Valid(net) && n <= |net.names| && forall i :: 0 <= i < |net.names| ==> |net.names[i]| >= 3
    ensures forall node :: node in StartNodes(net, n) <==>
      exists i :: 0 <= i < n && node == net.nodes[net.names[i]] && net.names[i][2] == 'A'
    decreases n
  {
    if n > 0 {
      StartNodesMeaning(net, n - 1);
    }
  }

  /** `find_all_start_nodes`: `name[2]` raises IndexError on a name of
      fewer than three characters. */
  method FindAllStartNodes(net: Network) returns (starts: Outcome<seq<Node>>)
    requires Valid(net)
    ensures starts.IndexError? <==> exists i :: 0 <= i < |net.names| && |net.names[i]| < 3
    ensures starts.Done? ==> starts.value == StartNodes(net, |net.names|)
    ensures starts.IndexError? || starts.Done?
  {
    var found: seq<Node> := [];
    for i := 0 to |net.names|
      invariant forall j :: 0 <= j < i ==> |net.names[j]| >= 3
      invariant found == StartNodes(net, i)
    {
      var node := net.nodes[net.names[i]];
      if |node.name| < 3 {
        return IndexError;
      }
      if node.name[2] == 'A' {
        found := found + [node];
      }
    }
    return Done(found);
  }

  // ---------------------------------------------------------------------
  // Pattern lengths

  /** A node whose third letter is Z. */
  predicate AtZ(at: Option<Node>)
  {
    at.Some? && |at.value.name| >= 3 && at.value.name[2] == 'Z'
  }

  /** The pattern entries of the first `k` iterations: iteration `i` moves
      to step `i + 1` and records `i` when it lands on a Z node. */
  function Hits(net: Network, start: Node, k: nat): (r: seq<int>)
    requires |net.instructions| > 0
    ensures forall i :: 0 <= i < |r| ==> 0 <= r[i] < k
  {
    if k == 0 then [] else Hits(net, start, k - 1) + if AtZ(Walk(net, start, k)) then [k - 1] else []
  }

  lemma {:induction false} HitsMeaning(net: Network, start: Node, k: nat)
    requires |net.instructions| > 0
    ensures forall i :: i in Hits(net, start, k) <==> 0 <= i < k && AtZ(Walk(net, start, i + 1))
    ensures forall a, b :: 0 <= a < b < |Hits(net, start, k)| ==> Hits(net, start, k)[a] < Hits(net, start, k)[b]
    decreases k
  {
    if k > 0 {
      HitsMeaning(net, start, k - 1);
      var h := Hits(net, start, k - 1);
      assert forall a :: 0 <= a < |h| ==> h[a] < k - 1;
    }
  }

  /** No later gap between entries equals the first. */
  predicate GapsDiffer(pattern: seq<int>)
  {
    forall j :: 2 <= j < |pattern| ==> pattern[j] - pattern[j - 1] != pattern[1] - pattern[0]
  }

  /** The first `k` iterations settle the pattern: its last gap is the
      first to repeat the first gap. */
  predicate Settled(hits: seq<int>)
  {
    && |hits| >= 3
    && GapsDiffer(hits[..|hits| - 1])
    && hits[|hits| - 1] - hits[|hits| - 2] == hits[1] - hits[0]
  }

  /** `t1` and `t2` are the first two step counts at which the walk from
      `start` stands on a Z node. */
  ghost predicate FirstTwoArrivals(net: Network, start: Node, t1: nat, t2: nat)
    requires |net.instructions| > 0
  {
    && 1 <= t1 < t2 && AtZ(Walk(net, start, t1)) && AtZ(Walk(net, start, t2))
    && forall t :: 1 <= t < t2 && t != t1 ==> !AtZ(Walk(net, start, t))
  }

  /** What `determine_steps_pattern_length_from_semi_start_to_semi_finish`
      answers: the gap between the first two arrivals at Z nodes, found
      once a later gap repeats it within `fuel` steps. */
  ghost predicate IsPatternLength(net: Network, start: Node, length: nat, fuel: nat)
    requires |net.instructions| > 0
  {
    && (exists t1: nat, t2: nat :: FirstTwoArrivals(net, start, t1, t2) && length == t2 - t1)
    && exists k :: 0 <= k <= fuel && Settled(Hits(net, start, k))
  }

  lemma {:induction false} FirstTwoHits(net: Network, start: Node, k: nat)
    requires |net.instructions| > 0 && |Hits(net, start, k)| >= 2
    ensures FirstTwoArrivals(net, start, Hits(net, start, k)[0] + 1, Hits(net, start, k)[1] + 1)
  {
    var h := Hits(net, start, k);
    HitsMeaning(net, start, k);
    assert h[0] in h && h[1] in h;
    forall t | 1 <= t < h[1] + 1 && t != h[0] + 1 ensures !AtZ(Walk(net, start, t)) {
      forall j | 0 <= j < |h| ensures h[j] != t - 1 {
        if j >= 2 {
          assert h[1] < h[j];
        }
      }
      assert (t - 1 in h) <==> 0 <= t - 1 < k && AtZ(Walk(net, start, t - 1 + 1));
    }
  }

  /** No number of iterations up to `n` settles the pattern. */
  ghost predicate Unsettled(net: Network, start: Node, n: nat)
    requires |net.instructions| > 0
  {
    forall k :: 0 <= k <= n ==> !Settled(Hits(net, start, k))
  }

  /** Within `fuel` steps the walk from `start` lands on a node whose name
      has no third character. */
  ghost predicate ShortNameWithin(net: Network, start: Node, fuel: nat)
    requires |net.instructions| > 0
  {
    exists k :: 0 < k <= fuel && Walk(net, start, k).Some? && |Walk(net, start, k).value.name| < 3
  }

  /** Within `fuel` steps the walk from `start` breaks off. */
  ghost predicate BreaksWithin(net: Network, start: Node, fuel: nat)
    requires |net.instructions| > 0
  {
    exists k :: 0 < k <= fuel && Walk(net, start, k).None?
  }

  /** `determine_steps_pattern_length_from_semi_start_to_semi_finish`,
      with at most `fuel` iterations. */
  method PatternLength(net: Network, start: Node, fuel: nat) returns (outcome: Outcome<nat>)
    ensures outcome.Done? ==> (
      && |net.instructions| > 0 && outcome.value >= 1
      && IsPatternLength(net, start, outcome.value, fuel))
    ensures outcome.ZeroDivisionError? <==> |net.instructions| == 0
    ensures outcome.KeyError? ==> |net.instructions| > 0 && BreaksWithin(net, start, fuel)
    ensures outcome.IndexError? ==> |net.instructions| > 0 && ShortNameWithin(net, start, fuel)
    ensures outcome.OutOfFuel? ==> |net.instructions| > 0 && Unsettled(net, start, fuel)
  {
    if |net.instructions| == 0 {
      // the first `steps % len(self.instructions)`
      return ZeroDivisionError;
    }
    var current := start;
    var steps: nat := 0;
    var pattern: seq<int> := [];
    var determined := false;
    while !determined
      invariant steps <= fuel
      invariant Walk(net, start, steps) == Some(current)
      invariant !determined ==> pattern == Hits(net, start, steps) && GapsDiffer(pattern)
      invariant determined ==> (
        && Settled(Hits(net, start, steps)) && |pattern| >= 2
        && pattern[0] == Hits(net, start, steps)[0] && pattern[1] == Hits(net, start, steps)[1])
      invariant !determined ==> Unsettled(net, start, steps)
      decreases fuel - steps
    {
      if steps == fuel {
        return OutOfFuel;
      }
      var next := Step(net, start, steps, current);
      if next.None? {
        BreaksAt(net, start, steps + 1, fuel);
        return KeyError;
      }
      current := next.value;
      if |current.name| < 3 {
        ShortNameAt(net, start, steps + 1, fuel);
        return IndexError;
      }
      pattern, determined := Record(net, start, steps, current, pattern);
      steps := steps + 1;
    }
    SettledLength(net, start, steps, fuel);
    return Done(pattern[1] - pattern[0]);
  }

  lemma {:induction false} BreaksAt(net: Network, start: Node, k: nat, fuel: nat)
    requires |net.instructions| > 0 && 0 < k <= fuel && Walk(net, start, k).None?
    ensures BreaksWithin(net, start, fuel)
  {
  }

  lemma {:induction false} ShortNameAt(net: Network, start: Node, k: nat, fuel: nat)
    requires |net.instructions| > 0 && 0 < k <= fuel && Walk(net, start, k).Some? && |Walk(net, start, k).value.name| < 3
    ensures ShortNameWithin(net, start, fuel)
  {
  }

  /** One landing of the pattern loop: a Z node extends the pattern, or
      settles it when the gap since the last entry repeats the first gap. */
  method Record(net: Network, start: Node, steps: nat, current: Node, pattern: seq<int>)
    returns (pattern': seq<int>, determined: bool)
    requires |net.instructions| > 0 && |current.name| >= 3
    requires Walk(net, start, steps + 1) == Some(current)
    requires pattern == Hits(net, start, steps) && GapsDiffer(pattern)
    requires Unsettled(net, start, steps)
    ensures !determined ==> pattern' == Hits(net, start, steps + 1) && GapsDiffer(pattern')
    ensures !determined ==> Unsettled(net, start, steps + 1)
    ensures determined ==> (
      && Settled(Hits(net, start, steps + 1)) && |pattern'| >= 2
      && pattern'[0] == Hits(net, start, steps + 1)[0] && pattern'[1] == Hits(net, start, steps + 1)[1])
  {
    pattern', determined := pattern, false;
    var h := Hits(net, start, steps + 1);
    if current.name[2] == 'Z' {
      assert h == pattern + [steps];
      assert h[..|h| - 1] == pattern;
      var startingIndex := if |pattern| == 0 then 0 else pattern[|pattern| - 1];
      var changeInDistance := steps - startingIndex;
      if |pattern| > 1 {
        if changeInDistance != pattern[1] - pattern[0] {
          pattern' := pattern + [steps];
          GapsDifferAppend(pattern, steps);
        } else {
          determined := true;
        }
      } else {
        pattern' := pattern + [steps];
      }
    } else {
      assert h == pattern;
    }
    if !determined {
      assert !Settled(h);
      UnsettledStep(net, start, steps);
    }
  }

  lemma {:induction false} GapsDifferAppend(pattern: seq<int>, x: int)
    requires |pattern| >= 2 && GapsDiffer(pattern) && x - pattern[|pattern| - 1] != pattern[1] - pattern[0]
    ensures GapsDiffer(pattern + [x])
  {
    var p := pattern + [x];
    forall j | 2 <= j < |p| ensures p[j] - p[j - 1] != p[1] - p[0] {
      if j < |pattern| {
        assert p[j] == pattern[j] && p[j - 1] == pattern[j - 1];
      }
    }
  }

  lemma {:induction false} UnsettledStep(net: Network, start: Node, steps: nat)
    requires |net.instructions| > 0 && Unsettled(net, start, steps) && !Settled(Hits(net, start, steps + 1))
    ensures Unsettled(net, start, steps + 1)
  {
  }

  /** A settled pattern answers the gap between its first two entries,
      which is the gap between the first two arrivals at Z nodes. */
  lemma {:induction false} SettledLength(net: Network, start: Node, k: nat, fuel: nat)
    requires |net.instructions| > 0 && k <= fuel && Settled(Hits(net, start, k))
    ensures var h := Hits(net, start, k); h[1] - h[0] >= 1 && IsPatternLength(net, start, h[1] - h[0], fuel)
  {
    var h := Hits(net, start, k);
    HitsMeaning(net, start, k);
    FirstTwoHits(net, start, k);
    assert FirstTwoArrivals(net, start, h[0] + 1, h[1] + 1) && h[1] - h[0] == (h[1] + 1) - (h[0] + 1);
  }

  /** `determine_steps_pattern_lengths_for_all_semi_starts`: the first
      start whose walk fails decides the error. */
  method PatternLengths(net: Network, starts: seq<Node>, fuel: nat) returns (lengths: Outcome<seq<nat>>)
    ensures lengths.Done? ==> |lengths.value| == |starts| && forall i :: 0 <= i < |starts| ==>
      |net.instructions| > 0 && lengths.value[i] >= 1 && IsPatternLength(net, starts[i], lengths.value[i], fuel)
    ensures lengths.ZeroDivisionError? <==> |net.instructions| == 0 && |starts| > 0
    ensures lengths.KeyError? ==>
      |net.instructions| > 0 && exists i :: 0 <= i < |starts| && BreaksWithin(net, starts[i], fuel)
    ensures lengths.IndexError? ==>
      |net.instructions| > 0 && exists i :: 0 <= i < |starts| && ShortNameWithin(net, starts[i], fuel)
    ensures lengths.OutOfFuel? ==>
      |net.instructions| > 0 && exists i :: 0 <= i < |starts| && Unsettled(net, starts[i], fuel)
  {
    var found: seq<nat> := [];
    for i := 0 to |starts|
      invariant |found| == i
      invariant i > 0 ==> |net.instructions| > 0
      invariant forall j :: 0 <= j < i ==> found[j] >= 1 && IsPatternLength(net, starts[j], found[j], fuel)
    {
      var length := PatternLength(net, starts[i], fuel);
      match length {
        case Done(n) => found := found + [n];
        case KeyError => return KeyError;
        case IndexError => return IndexError;
        case ZeroDivisionError => return ZeroDivisionError;
        case OutOfFuel => return OutOfFuel;
      }
    }
    return Done(found);
  }

  /** `overlap` is the least positive common multiple of `lengths`, each of
      which is the pattern length of the start node at its place. */
  ghost predicate IsFirstOverlap(net: Network, starts: seq<Node>, lengths: seq<nat>, overlap: nat, fuel: nat)
  {
    && (|starts| > 0 ==> |net.instructions| > 0) && |lengths| == |starts|
    && (forall i :: 0 <= i < |starts| ==> lengths[i] >= 1 && IsPatternLength(net, starts[i], lengths[i], fuel))
    && overlap > 0
    && (forall i :: 0 <= i < |lengths| ==> Divides(lengths[i], overlap) && lengths[i] <= overlap)
    && (forall m: nat :: (forall i :: 0 <= i < |lengths| ==> Divides(lengths[i], m)) ==> Divides(overlap, m))
  }

  /** `find_first_overlap_in_patterns`: the lcm of the pattern lengths of
      all start nodes (1 when there are none, as `lcm()` gives). */
  method FindFirstOverlap(net: Network, fuel: nat) returns (overlap: Outcome<nat>, ghost lengths: seq<nat>)
    requires Valid(net)
    ensures overlap.Done? ==>
      && (forall i :: 0 <= i < |net.names| ==> |net.names[i]| >= 3)
      && IsFirstOverlap(net, StartNodes(net, |net.names|), lengths, overlap.value, fuel)
    ensures (exists i :: 0 <= i < |net.names| && |net.names[i]| < 3) ==> overlap.IndexError?
    ensures overlap.ZeroDivisionError? ==> |net.instructions| == 0
  {
    lengths := [];
    var starts := FindAllStartNodes(net);
    if !starts.Done? {
      return IndexError, lengths;
    }
    var found := PatternLengths(net, starts.value, fuel);
    match found {
      case Done(ls) =>
        lengths := ls;
        LcmAllLeast(ls);
        forall i | 0 <= i < |ls| ensures ls[i] <= LcmAll(ls) {
          DividesBound(ls[i], LcmAll(ls));
        }
        return Done(LcmAll(ls)), lengths;
      case KeyError => return KeyError, lengths;
      case IndexError => return IndexError, lengths;
      case ZeroDivisionError => return ZeroDivisionError, lengths;
      case OutOfFuel => return OutOfFuel, lengths;
    }
  }

  /** `solve_problem`: build the network, then answer both parts; the first
      exception raised ends the whole run. */
  method SolveProblem(instructions: string, lines: seq<string>, fuel: nat)
    returns (answers: Outcome<(nat, nat)>, ghost lengths: seq<nat>)
    ensures ParseNodes(lines).None? ==> answers.IndexError?
    ensures answers.Done? ==>
      && ParseNodes(lines).Some?
      && var net := Network(instructions, Table(ParseNodes(lines).value).0, Table(ParseNodes(lines).value).1);
      && Valid(net) && "AAA" in net.nodes && |instructions| > 0
      && ReachesFirst(net, net.nodes["AAA"], "ZZZ", answers.value.0)
      && (forall i :: 0 <= i < |net.names| ==> |net.names[i]| >= 3)
      && IsFirstOverlap(net, StartNodes(net, |net.names|), lengths, answers.value.1, fuel)
  {
    lengths := [];
    var built := BuildNetwork(instructions, lines);
    if !built.Done? {
      return IndexError, lengths;
    }
    var net := built.value;
    var part1 := CountStepsFromStartToFinish(net, fuel);
    if !part1.Done? {
      return match part1 case KeyError => KeyError case ZeroDivisionError => ZeroDivisionError case _ => OutOfFuel, lengths;
    }
    var part2;
    part2, lengths := FindFirstOverlap(net, fuel);
    if !part2.Done? {
      return match part2
        case KeyError => KeyError case IndexError => IndexError case ZeroDivisionError => ZeroDivisionError case _ => OutOfFuel,
        lengths;
    }
    return Done((part1.value, part2.value)), lengths;
  }
}
