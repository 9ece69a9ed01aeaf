/** Day 18: a dig plan. Each line "D n (#rrggbb)" moves a digger `n`
    steps in direction D from the previous vertex; the plan remembers each
    vertex reached (in order of first arrival) with the colour of the last
    step that reached it. The lagoon's area is the shoelace formula plus
    half the perimeter plus one; as written, the perimeter goes inside the
    signed shoelace sum, which is right only for a plan that goes round
    clockwise (`CounterClockwiseRectangle`, `CorrectedArea`). Part 2 reads
    each colour as a hexadecimal length and a direction code instead. */
module Day18 {
  import opened Text
  import opened Sums

  /** A vertex `(x, y)`, with y growing downwards. */
  type Vertex = (int, int)

  function Abs(n: int): nat
  {
    if n < 0 then -n else n
  }

  /** The four directions a move can take. */
  datatype Direction = Right | Down | Left | Up

  /** A plan's direction letter: "R", "D", "L", and any other text counts
      as up. */
  function DirectionOf(letter: string): Direction
  {
    if letter == "R" then Right
    else if letter == "D" then Down
    else if letter == "L" then Left
    else Up
  }

  /** `determine_next_vertex`: right adds the length to x, down adds it to
      y, left subtracts it from x and up subtracts it from y. */
  function NextVertex(current: Vertex, direction: Direction, length: int): Vertex
  {
    match direction
    case Right => (current.0 + length, current.1)
    case Down => (current.0, current.1 + length)
    case Left => (current.0 - length, current.1)
    case Up => (current.0, current.1 - length)
  }

  /** The direction that undoes a move. */
  function Opposite(direction: Direction): Direction
  {
    match direction
    case Right => Left
    case Down => Up
    case Left => Right
    case Up => Down
  }

  /** A move changes exactly one coordinate, by the length, and the opposite
      move of the same length comes back. */
  lemma {:induction false} NextVertexMoves(current: Vertex, direction: Direction, length: int)
    ensures var r := NextVertex(current, direction, length);
      && (r.0 == current.0 || r.1 == current.1)
      && Abs(r.0 - current.0) + Abs(r.1 - current.1) == Abs(length)
      && NextVertex(r, Opposite(direction), length) == current
  {
  }

  /** One line of the plan. */
  datatype Step = Step(direction: Direction, length: int, color: string)

  /** Python's `s[1:-1]`: the text without its first and last characters,
      empty when there are fewer than two. */
  function Inner(s: string): (r: string)
    ensures |s| >= 2 ==> |r| == |s| - 2 && s == s[..1] + r + s[|s| - 1..]
    ensures |s| < 2 ==> r == ""
  {
    if |s| >= 2 then s[1..|s| - 1] else ""
  }

  /** A line split on spaces: the direction, `int` of the length and the
      colour without its parentheses; a missing field or a length that is
      not an integer is the exception case, `None`. */
  function ParseStep(line: string): (r: Option<Step>)
    ensures r.Some? <==> |Split(line, " ")| >= 3 && ParseInt(Split(line, " ")[1]).Some?
    ensures r.Some? ==>
      && r.value.direction == DirectionOf(Split(line, " ")[0])
      && Some(r.value.length) == ParseInt(Split(line, " ")[1])
      && r.value.color == Inner(Split(line, " ")[2])
  {
    var elements := Split(line, " ");
    if |elements| < 3 then None
    else match ParseInt(elements[1])
      case None => None
      case Some(length) => Some(Step(DirectionOf(elements[0]), length, Inner(elements[2])))
  }

  /** The lines parsed in order, `None` when one of them fails. */
  function ParseSteps(lines: seq<string>): (r: Option<seq<Step>>)
    ensures r.Some? <==> forall i :: 0 <= i < |lines| ==> ParseStep(lines[i]).Some?
    ensures r.Some? ==>
      && |r.value| == |lines|
      && forall i :: 0 <= i < |lines| ==> ParseStep(lines[i]) == Some(r.value[i])
  {
    if lines == [] then Some([])
    else
      var n := |lines| - 1;
      assert forall i :: 0 <= i < n ==> lines[..n][i] == lines[i];
      match (ParseSteps(lines[..n]), ParseStep(lines[n]))
      case (Some(steps), Some(step)) => Some(steps + [step])
      case _ => None
  }

  /** Where the digger stands after the given steps, from `(0, 0)`. */
  function Walk(steps: seq<Step>): Vertex
  {
    if steps == [] then (0, 0)
    else
      var last := steps[|steps| - 1];
      NextVertex(Walk(steps[..|steps| - 1]), last.direction, last.length)
  }

  /** The plan: a dictionary from vertex to colour whose keys keep the order
      of first insertion. */
  datatype Plan = Plan(keys: seq<Vertex>, colors: map<Vertex, string>)

  /** The keys are distinct and are exactly the dictionary's keys. */
  ghost predicate Valid(plan: Plan)
  {
    && (forall i, j :: 0 <= i < j < |plan.keys| ==> plan.keys[i] != plan.keys[j])
    && (forall v :: v in plan.colors <==> v in plan.keys)
  }

  /** `plan[vertex] = color`: a known vertex keeps its position and takes
      the new colour; a new vertex goes last. */
  function Insert(plan: Plan, vertex: Vertex, color: string): (r: Plan)
    ensures Valid(plan) ==> Valid(r)
    ensures r.colors == plan.colors[vertex := color]
    ensures vertex in plan.colors ==> r.keys == plan.keys
    ensures vertex !in plan.colors ==> r.keys == plan.keys + [vertex]
  {
    if vertex in plan.colors then Plan(plan.keys, plan.colors[vertex := color])
    else Plan(plan.keys + [vertex], plan.colors[vertex := color])
  }

  /** The plan after the given steps. */
  function DigPlan(steps: seq<Step>): (r: Plan)
    ensures Valid(r)
  {
    if steps == [] then Plan([], map[])
    else Insert(DigPlan(steps[..|steps| - 1]), Walk(steps), steps[|steps| - 1].color)
  }

  /** The positions the walk reaches after one or more steps. */
  function Reached(steps: seq<Step>): set<Vertex>
  {
    if steps == [] then {} else Reached(steps[..|steps| - 1]) + {Walk(steps)}
  }

  /** A position is reached exactly when some non-empty prefix of the steps
      ends there. */
  lemma {:induction false} ReachedMeaning(steps: seq<Step>)
    ensures forall v :: v in Reached(steps) <==>
      (exists k :: 1 <= k <= |steps| && Walk(steps[..k]) == v)
  {
    if steps != [] {
      var n := |steps| - 1;
      var front := steps[..n];
      ReachedMeaning(front);
      assert steps[..|steps|] == steps;
      forall v | v in Reached(steps)
        ensures exists k :: 1 <= k <= |steps| && Walk(steps[..k]) == v
      {
        if v != Walk(steps) {
          assert v in Reached(front);
          var k :| 1 <= k <= n && Walk(front[..k]) == v;
          assert front[..k] == steps[..k];
        }
      }
      forall v | exists k :: 1 <= k <= |steps| && Walk(steps[..k]) == v
        ensures v in Reached(steps)
      {
        var k :| 1 <= k <= |steps| && Walk(steps[..k]) == v;
        if k <= n {
          assert front[..k] == steps[..k];
        }
      }
    }
  }

  /** The plan's vertices are exactly the positions the walk reaches
      after one or more steps. */
  lemma {:induction false} DigPlanFacts(steps: seq<Step>)
    ensures DigPlan(steps).colors.Keys == Reached(steps)
    ensures forall v :: v in DigPlan(steps).colors <==>
      (exists k :: 1 <= k <= |steps| && Walk(steps[..k]) == v)
  {
    DigPlanKeys(steps);
    ReachedMeaning(steps);
  }

  lemma {:induction false} DigPlanKeys(steps: seq<Step>)
    ensures DigPlan(steps).colors.Keys == Reached(steps)
  {
    if steps != [] {
      DigPlanKeys(steps[..|steps| - 1]);
    }
  }

  /** A revisited vertex keeps the colour of the last step that reached it:
      the last step's colour is the colour of where it ends. */
  lemma {:induction false} DigPlanLastColor(steps: seq<Step>)
    requires steps != []
    ensures Walk(steps) in DigPlan(steps).colors
    ensures DigPlan(steps).colors[Walk(steps)] == steps[|steps| - 1].color
  {
  }

  /** `create_dig_plan`. */
  method CreateDigPlan(lines: seq<string>) returns (plan: Option<Plan>)
    ensures plan.None? <==> ParseSteps(lines).None?
    ensures plan.Some? ==> plan.value == DigPlan(ParseSteps(lines).value)
  {
    var current: Vertex := (0, 0);
    var dict := Plan([], map[]);
    var steps: seq<Step> := [];
    for i := 0 to |lines|
      invariant ParseSteps(lines[..i]) == Some(steps)
      invariant current == Walk(steps) && dict == DigPlan(steps)
    {
      var step := ParseStep(lines[i]);
      if step.None? {
        return None;
      }
      ParseStepsNext(lines, i, steps);
      StepTaken(steps, step.value);
      current := NextVertex(current, step.value.direction, step.value.length);
      steps := steps + [step.value];
      dict := Insert(dict, current, step.value.color);
    }
    assert lines[..|lines|] == lines;
    plan := Some(dict);
  }

  /** A line that parses extends the steps of the lines before it. */
  lemma {:induction false} ParseStepsNext(lines: seq<string>, i: nat, steps: seq<Step>)
    requires i < |lines| && ParseSteps(lines[..i]) == Some(steps) && ParseStep(lines[i]).Some?
    ensures ParseSteps(lines[..i + 1]) == Some(steps + [ParseStep(lines[i]).value])
  {
    assert lines[..i + 1][..i] == lines[..i];
  }

  /** One more step moves the walk by that step and inserts its colour at
      the vertex reached. */
  lemma {:induction false} StepTaken(steps: seq<Step>, step: Step)
    ensures Walk(steps + [step]) == NextVertex(Walk(steps), step.direction, step.length)
    ensures DigPlan(steps + [step]) == Insert(DigPlan(steps), Walk(steps + [step]), step.color)
  {
    assert (steps + [step])[..|steps|] == steps;
  }

  /** A line that does not parse makes the whole plan fail. */
  lemma {:induction false} ParsePrefixFails(lines: seq<string>, k: nat)
    requires k <= |lines| && ParseSteps(lines[..k]).None?
    ensures ParseSteps(lines).None?
  {
    var i :| 0 <= i < k && ParseStep(lines[..k][i]).None?;
    assert lines[..k][i] == lines[i];
  }

  /** The direction a colour's last digit codes: 0 right, 1 down, 2 left
      and any other digit up. */
  function CodeDirection(code: nat): (r: Direction)
    ensures r == Up <==> code > 2
  {
    if code == 0 then Right else if code == 1 then Down else if code == 2 then Left else Up
  }

  /** Part 2's reading of a colour "#hhhhhd": the direction from the last
      character and the length from the hexadecimal digits between '#' and
      it. `int` of a single character succeeds exactly on a decimal digit;
      a colour that is empty, ends in a non-digit or has no hexadecimal
      length is the exception case, `None`. */
  function ColorMove(color: string): Option<(Direction, nat)>
  {
    if |color| == 0 || !IsDigit(color[|color| - 1]) then None
    else match ParseHex(Inner(color))
      case Some(length) => Some((CodeDirection(DigitValue(color[|color| - 1])), length))
      case None => None
  }

  /** The colours read as moves, `None` when one of them fails. */
  function ColorMoves(colors: seq<string>): (r: Option<seq<(Direction, nat)>>)
    ensures r.Some? <==> forall i :: 0 <= i < |colors| ==> ColorMove(colors[i]).Some?
    ensures r.Some? ==> |r.value| == |colors|
    ensures r.Some? ==> forall i :: 0 <= i < |colors| ==> ColorMove(colors[i]) == Some(r.value[i])
  {
    ParseLines(ColorMove, colors)
  }

  /** The vertices the moves reach, in order, from `(0, 0)`. */
  function Trace(moves: seq<(Direction, nat)>): (r: seq<Vertex>)
    ensures |r| == |moves|
    ensures forall i :: 0 < i < |moves| ==> r[i] == NextVertex(r[i - 1], moves[i].0, moves[i].1)
    ensures moves != [] ==> r[0] == NextVertex((0, 0), moves[0].0, moves[0].1)
  {
    if moves == [] then []
    else
      var previous := Trace(moves[..|moves| - 1]);
      var current := if previous == [] then (0, 0) else previous[|previous| - 1];
      previous + [NextVertex(current, moves[|moves| - 1].0, moves[|moves| - 1].1)]
  }

  /** The vertices reached by the colour moves. */
  function ColorVertices(colors: seq<string>): Option<seq<Vertex>>
  {
    match ColorMoves(colors)
    case Some(moves) => Some(Trace(moves))
    case None => None
  }

  /** `plan.values()`: the colours in key order. */
  function Values(plan: Plan): (r: seq<string>)
    requires Valid(plan)
    ensures |r| == |plan.keys|
    ensures forall i :: 0 <= i < |r| ==> r[i] == plan.colors[plan.keys[i]]
  {
    seq(|plan.keys|, i requires 0 <= i < |plan.keys| => plan.colors[plan.keys[i]])
  }

  /** `convert_colors_to_vertices`. */
  method ConvertColorsToVertices(plan: Plan) returns (vertices: Option<seq<Vertex>>)
    requires Valid(plan)
    ensures vertices == ColorVertices(Values(plan))
  {
    vertices := TraceColors(Values(plan));
  }

  /** The loop of `convert_colors_to_vertices` over the plan's colours. */
  method TraceColors(colors: seq<string>) returns (vertices: Option<seq<Vertex>>)
    ensures vertices == ColorVertices(colors)
  {
    var current: Vertex := (0, 0);
    var found: seq<Vertex> := [];
    ghost var moves: seq<(Direction, nat)> := [];
    for i := 0 to |colors|
      invariant ColorMoves(colors[..i]) == Some(moves) && found == Trace(moves)
      invariant current == if found == [] then (0, 0) else found[|found| - 1]
    {
      var move := ColorMove(colors[i]);
      ParseLinesSnoc(ColorMove, colors, i);
      if move.None? {
        ParseLinesPrefix(ColorMove, colors, i + 1);
        return None;
      }
      TraceStep(moves, move.value);
      current := NextVertex(current, move.value.0, move.value.1);
      found := found + [current];
      moves := moves + [move.value];
    }
    assert colors[..|colors|] == colors;
    vertices := Some(found);
  }

  /** One more move appends the vertex it reaches from the last one. */
  lemma {:induction false} TraceStep(moves: seq<(Direction, nat)>, move: (Direction, nat))
    ensures var previous := Trace(moves);
      var current := if previous == [] then (0, 0) else previous[|previous| - 1];
      Trace(moves + [move]) == previous + [NextVertex(current, move.0, move.1)]
  {
    assert (moves + [move])[..|moves|] == moves;
  }

  /** The shoelace term of an edge from `a` to `b`: twice the signed area
      it sweeps plus its length. */
  function Term(a: Vertex, b: Vertex): int
  {
    a.0 * b.1 - b.0 * a.1 + Abs(b.0 - a.0) + Abs(b.1 - a.1)
  }

  /** The term of every edge, the last vertex joined back to the first
      (the successor index `Succ` is `(i + 1) % n`, see `Successor`). */
  function Terms(vs: seq<Vertex>): (r: seq<int>)
    ensures |r| == |vs|
  {
    seq(|vs|, i requires 0 <= i < |vs| => Term(vs[i], vs[Succ(i, |vs|)]))
  }

  /** The lagoon's area: one more than half the absolute sum of the terms. */
  function Area(vs: seq<Vertex>): int
  {
    1 + Abs(Sum(Terms(vs))) / 2
  }

  /** `calculate_area_with_shoelace`. */
  method CalculateAreaWithShoelace(vertices: seq<Vertex>) returns (area: int)
    ensures area == Area(vertices) && area >= 1
  {
    var total := 0;
    var size := |vertices|;
    for index := 0 to size
      invariant total == Sum(Terms(vertices)[..index])
    {
      var (x1, y1) := vertices[index];
      Successor(index, size);
      var (x2, y2) := vertices[(index + 1) % size];
      assert Terms(vertices)[..index + 1][..index] == Terms(vertices)[..index];
      total := total + x1 * y2 - x2 * y1 + Abs(x2 - x1) + Abs(y2 - y1);
    }
    assert Terms(vertices)[..size] == Terms(vertices);
    area := 1 + Abs(total) / 2;
  }

  /** The list read from its `k`th element round to the one before. */
  function Rotate<T>(s: seq<T>, k: nat): (r: seq<T>)
    requires k <= |s|
    ensures |r| == |s|
  {
    s[k..] + s[..k]
  }

  /** Where element `i` of a rotated list of length `n` comes from. */
  function RotatedIndex(i: nat, k: nat, n: nat): nat
    requires i < n && k <= n
  {
    if i < n - k then k + i else i - (n - k)
  }

  /** The index after `i` in a cyclic list of length `n`. */
  function Succ(i: nat, n: nat): nat
    requires i < n
  {
    if i + 1 < n then i + 1 else 0
  }

  lemma {:induction false} RotateAt<T>(s: seq<T>, k: nat, i: nat)
    requires k <= |s| && i < |s|
    ensures RotatedIndex(i, k, |s|) < |s|
    ensures Rotate(s, k)[i] == s[RotatedIndex(i, k, |s|)]
    ensures RotatedIndex(Succ(i, |s|), k, |s|) == Succ(RotatedIndex(i, k, |s|), |s|)
  {
  }

  /** Each term joins a vertex to the next one, the last to the first. */
  lemma {:induction false} Successor(i: nat, n: nat)
    requires i < n
    ensures (i + 1) % n == Succ(i, n)
  {
    if i + 1 == n {
      assert (i + 1) % n == 0;
    }
  }

  /** The terms of a rotated list are the rotated terms. */
  lemma {:induction false} TermsRotate(vs: seq<Vertex>, k: nat)
    requires k <= |vs|
    ensures Terms(Rotate(vs, k)) == Rotate(Terms(vs), k)
  {
    var n := |vs|;
    var r, t := Rotate(vs, k), Terms(vs);
    forall i | 0 <= i < n
      ensures Terms(r)[i] == Rotate(t, k)[i]
    {
      var j := RotatedIndex(i, k, n);
      RotateAt(vs, k, i);
      RotateAt(vs, k, Succ(i, n));
      RotateAt(t, k, i);
    }
  }

  /** The area does not depend on which vertex the list starts at. */
  lemma {:induction false} AreaRotate(vs: seq<Vertex>, k: nat)
    requires k <= |vs|
    ensures Area(Rotate(vs, k)) == Area(vs)
  {
    TermsRotate(vs, k);
    SumRotate(Terms(vs), k);
  }

  lemma {:induction false} SumRotate(t: seq<int>, k: nat)
    requires k <= |t|
    ensures Sum(Rotate(t, k)) == Sum(t)
  {
    SumAppend(t[k..], t[..k]);
    SumAppend(t[..k], t[k..]);
    assert t[..k] + t[k..] == t;
  }

  /** The rectangle dug as R w, D h, L w, U h from (0, 0) covers its
      (w + 1) by (h + 1) cells, trench included. */
  lemma {:induction false} RectangleArea(w: nat, h: nat)
    ensures Area([(w, 0), (w, h), (0, h), (0, 0)]) == (w + 1) * (h + 1)
  {
    var vs := [(w, 0), (w, h), (0, h), (0, 0)];
    var t := Terms(vs);
    assert t[0] == w * h + h;
    assert t[1] == w * h + w;
    assert t[2] == h && t[3] == w;
    var a, b := w * h + h, w * h + w;
    assert t == [a, b, h, w];
    assert t[..3] == [a, b, h] && t[..3][..2] == [a, b];
    assert [a, b][..1] == [a] && [a][..0] == [];
    assert Sum([a]) == a;
    assert Sum([a, b]) == a + b;
    assert Sum([a, b, h]) == a + b + h;
    assert Sum(t) == a + b + h + w;
  }

  // ---------------------------------------------------------------------
  // Which way round the trench goes

  /** The same rectangle dug the other way round, as D h, R w, U h, L w:
      the written formula subtracts the trench where it should add it, so
      the area falls short of the (w + 1) by (h + 1) cells. */
  lemma {:induction false} CounterClockwiseRectangle(w: nat, h: nat)
    ensures Area([(0, h), (w, h), (w, 0), (0, 0)]) == 1 + Abs(w * h - w - h)
    ensures w >= 1 && h >= 1 ==> Area([(0, h), (w, h), (w, 0), (0, 0)]) < (w + 1) * (h + 1)
  {
    var vs := [(0, h), (w, h), (w, 0), (0, 0)];
    var t := Terms(vs);
    var a, b := w - w * h, h - w * h;
    assert t[0] == a && t[1] == b;
    assert t[2] == w && t[3] == h;
    assert t == [a, b, w, h];
    assert t[..3] == [a, b, w] && t[..3][..2] == [a, b];
    assert [a, b][..1] == [a] && [a][..0] == [];
    assert Sum([a]) == a;
    assert Sum([a, b]) == a + b;
    assert Sum([a, b, w]) == a + b + w;
    assert Sum(t) == 2 * (w + h - w * h);
    if w >= 1 && h >= 1 {
      assert w * h >= 1 by {
        assert w * h >= 1 * h;
      }
    }
  }

  /** A 10 by 10 square dug that way round: 81 cells where there are 121. */
  lemma TenByTenCounterClockwise()
    ensures Area([(0, 10), (10, 10), (10, 0), (0, 0)]) == 81
  {
    CounterClockwiseRectangle(10, 10);
  }

  /** The shoelace part of an edge's term: twice the signed area it sweeps. */
  function Cross(a: Vertex, b: Vertex): int
  {
    a.0 * b.1 - b.0 * a.1
  }

  /** The perimeter part of an edge's term: the edge's length. */
  function EdgeLength(a: Vertex, b: Vertex): int
  {
    Abs(b.0 - a.0) + Abs(b.1 - a.1)
  }

  /** `f` of every edge, the last vertex joined back to the first. */
  function Edgewise(f: (Vertex, Vertex) -> int, vs: seq<Vertex>): (r: seq<int>)
    ensures |r| == |vs|
  {
    seq(|vs|, i requires 0 <= i < |vs| => f(vs[i], vs[Succ(i, |vs|)]))
  }

  /** The area with the absolute value taken of the shoelace sum alone,
      and half the perimeter added after it: the trench counts the same
      whichever way round the plan goes. */
  function CorrectedArea(vs: seq<Vertex>): int
  {
    1 + (Abs(Sum(Edgewise(Cross, vs))) + Sum(Edgewise(EdgeLength, vs))) / 2
  }

  /** Each written term is its edge's shoelace part plus its length, and
      the lengths never sum below 0. */
  lemma {:induction false} TermsSplit(vs: seq<Vertex>)
    ensures Sum(Terms(vs)) == Sum(Edgewise(Cross, vs)) + Sum(Edgewise(EdgeLength, vs))
    ensures Sum(Edgewise(EdgeLength, vs)) >= 0
  {
    SumPointwise(Edgewise(Cross, vs), Edgewise(EdgeLength, vs), Terms(vs));
    SumNonNegative(Edgewise(EdgeLength, vs));
  }

  /** Going round backwards takes the same edges in reverse order, each
      the other way: `g` is `f` with its ends swapped. */
  lemma {:induction false} EdgewiseReverse(f: (Vertex, Vertex) -> int, g: (Vertex, Vertex) -> int, vs: seq<Vertex>)
    requires |vs| >= 1
    requires forall a, b :: g(a, b) == f(b, a)
    ensures Edgewise(f, Reverse(vs)) == Rotate(Reverse(Edgewise(g, vs)), 1)
  {
    var n := |vs|;
    var e := Reverse(Edgewise(g, vs));
    forall i | 0 <= i < n
      ensures Edgewise(f, Reverse(vs))[i] == Rotate(e, 1)[i]
    {
      RotateAt(e, 1, i);
      var j := n - 1 - Succ(i, n);
      assert Succ(j, n) == n - 1 - i;
    }
  }

  /** The sum of `f` over the edges taken backwards is the sum of `g`. */
  lemma {:induction false} ReversedSum(f: (Vertex, Vertex) -> int, g: (Vertex, Vertex) -> int, vs: seq<Vertex>)
    requires forall a, b :: g(a, b) == f(b, a)
    ensures Sum(Edgewise(f, Reverse(vs))) == Sum(Edgewise(g, vs))
  {
    if vs != [] {
      EdgewiseReverse(f, g, vs);
      SumRotate(Reverse(Edgewise(g, vs)), 1);
      SumReverse(Edgewise(g, vs));
    }
  }

  /** The corrected area does not depend on which way round the plan goes. */
  lemma {:induction false} CorrectedAreaReverse(vs: seq<Vertex>)
    ensures CorrectedArea(Reverse(vs)) == CorrectedArea(vs)
  {
    var back := (a: Vertex, b: Vertex) => -Cross(a, b);
    ReversedSum(Cross, back, vs);
    SumNegate(Edgewise(Cross, vs), Edgewise(back, vs));
    ReversedSum(EdgeLength, EdgeLength, vs);
  }

  /** The written area is the corrected one exactly where the shoelace sum
      is not negative: clockwise, with y growing downwards. */
  lemma {:induction false} CorrectedAgrees(vs: seq<Vertex>)
    ensures Sum(Edgewise(Cross, vs)) >= 0 ==> Area(vs) == CorrectedArea(vs)
  {
    TermsSplit(vs);
  }

  /** The corrected area is the written area of the plan or of the plan
      reversed, whichever goes round clockwise. */
  lemma {:induction false} CorrectedAreaWritten(vs: seq<Vertex>)
    ensures CorrectedArea(vs) == Area(vs) || CorrectedArea(vs) == Area(Reverse(vs))
  {
    if Sum(Edgewise(Cross, vs)) >= 0 {
      CorrectedAgrees(vs);
    } else {
      var back := (a: Vertex, b: Vertex) => -Cross(a, b);
      ReversedSum(Cross, back, vs);
      SumNegate(Edgewise(Cross, vs), Edgewise(back, vs));
      CorrectedAgrees(Reverse(vs));
      CorrectedAreaReverse(vs);
    }
  }

  /** The shoelace parts of the clockwise rectangle sum to twice its
      w by h interior. */
  lemma {:induction false} ClockwiseCross(w: nat, h: nat)
    ensures Sum(Edgewise(Cross, [(w, 0), (w, h), (0, h), (0, 0)])) == 2 * (w * h)
  {
    var vs := [(w, 0), (w, h), (0, h), (0, 0)];
    var c := Edgewise(Cross, vs);
    assert Succ(0, 4) == 1 && Succ(1, 4) == 2 && Succ(2, 4) == 3 && Succ(3, 4) == 0;
    assert c[0] == Cross(vs[0], vs[1]) == w * h;
    assert c[1] == Cross(vs[1], vs[2]) == w * h;
    assert c[2] == Cross(vs[2], vs[3]) == 0;
    assert c[3] == Cross(vs[3], vs[0]) == 0;
    var a := w * h;
    assert c == [a, a, 0, 0];
    assert c[..3] == [a, a, 0] && c[..3][..2] == [a, a];
    assert [a, a][..1] == [a] && [a][..0] == [];
    assert Sum([a]) == a;
    assert Sum([a, a]) == 2 * a;
    assert Sum([a, a, 0]) == 2 * a;
  }

  /** Corrected, the rectangle covers (w + 1) by (h + 1) cells whichever
      way round it is dug. */
  lemma {:induction false} CorrectedRectangle(w: nat, h: nat)
    ensures CorrectedArea([(w, 0), (w, h), (0, h), (0, 0)]) == (w + 1) * (h + 1)
    ensures CorrectedArea([(0, h), (w, h), (w, 0), (0, 0)]) == (w + 1) * (h + 1)
  {
    var vs: seq<Vertex> := [(w, 0), (w, h), (0, h), (0, 0)];
    ClockwiseCross(w, h);
    CorrectedAgrees(vs);
    RectangleArea(w, h);
    // The other way round is the reverse of `vs`, started one vertex on.
    var back: seq<Vertex> := [(0, h), (w, h), (w, 0), (0, 0)];
    assert back == Rotate(Reverse(vs), 1);
    CorrectedAreaReverse(vs);
    CorrectedRotate(Reverse(vs), 1);
  }

  /** The corrected area does not depend on the vertex the list starts at. */
  lemma {:induction false} CorrectedRotate(vs: seq<Vertex>, k: nat)
    requires k <= |vs|
    ensures CorrectedArea(Rotate(vs, k)) == CorrectedArea(vs)
  {
    EdgewiseRotate(Cross, vs, k);
    SumRotate(Edgewise(Cross, vs), k);
    EdgewiseRotate(EdgeLength, vs, k);
    SumRotate(Edgewise(EdgeLength, vs), k);
  }

  lemma {:induction false} EdgewiseRotate(f: (Vertex, Vertex) -> int, vs: seq<Vertex>, k: nat)
    requires k <= |vs|
    ensures Edgewise(f, Rotate(vs, k)) == Rotate(Edgewise(f, vs), k)
  {
    var n := |vs|;
    forall i | 0 <= i < n
      ensures Edgewise(f, Rotate(vs, k))[i] == Rotate(Edgewise(f, vs), k)[i]
    {
      RotateAt(vs, k, i);
      RotateAt(vs, k, Succ(i, n));
      RotateAt(Edgewise(f, vs), k, i);
    }
  }

  /** `solve_problem`: part 1 is the area of the plan's vertices, part 2
      the area of the vertices its colours describe. */
  method SolveProblem(lines: seq<string>) returns (result: Option<(int, int)>)
    ensures result.None? <==>
      ParseSteps(lines).None? || ColorVertices(Values(DigPlan(ParseSteps(lines).value))).None?
    ensures result.Some? ==>
      var plan := DigPlan(ParseSteps(lines).value);
      && result.value.0 == Area(plan.keys)
      && result.value.1 == Area(ColorVertices(Values(plan)).value)
      && result.value.0 >= 1 && result.value.1 >= 1
  {
    var plan := CreateDigPlan(lines);
    if plan.None? {
      return None;
    }
    DigPlanFacts(ParseSteps(lines).value);
    var colorVertices := ConvertColorsToVertices(plan.value);
    if colorVertices.None? {
      return None;
    }
    var part1 := CalculateAreaWithShoelace(plan.value.keys);
    var part2 := CalculateAreaWithShoelace(colorVertices.value);
    result := Some((part1, part2));
  }
}
