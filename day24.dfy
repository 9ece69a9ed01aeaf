/** Day 24: hailstones "px, py, pz @ vx, vy, vz", each moving along a
    straight line. Part 1 pairs up their paths in the x-y plane and solves
    each pair of line equations; part 2 narrows down the velocity of a rock
    that hits every hailstone, axis by axis, from hailstones sharing a
    velocity, and then finds its starting position by Cramer's rule. Only
    the exact integer parts are modelled here. */
module Day24 {
  import opened Text
  import Day22
  import Numbers
  import Sums

  /** One parsed line, `[xc, yc, zc, xv, yv, zv]`. */
  datatype Hailstone = Hailstone(px: int, py: int, pz: int, vx: int, vy: int, vz: int)

  /** The coordinate along axis 0, 1 or 2: the element at `velocity_index - 3`. */
  function Position(h: Hailstone, axis: nat): int
    requires axis < 3
  {
    if axis == 0 then h.px else if axis == 1 then h.py else h.pz
  }

  /** The velocity along axis 0, 1 or 2: the element at `velocity_index`. */
  function Velocity(h: Hailstone, axis: nat): int
    requires axis < 3
  {
    if axis == 0 then h.vx else if axis == 1 then h.vy else h.vz
  }

  // ---------------------------------------------------------------------
  // determine_linear_equation_elements

  /** One line with its spaces removed, split at "@" and then at ",";
      `None` is the IndexError of a missing "@" or of fewer than three
      numbers on a side, or the ValueError of a piece that is not an
      integer. Pieces after the third are never read. */
  function ParseHailstone(line: string): Option<Hailstone>
  {
    var parts := Split(Remove(line, ' '), "@");
    if |parts| < 2 then None
    else
      var constants := Split(parts[0], ",");
      var velocities := Split(parts[1], ",");
      if |constants| < 3 || |velocities| < 3 then None
      else
        match (ParseInts(constants[..3]), ParseInts(velocities[..3]))
        case (Some(c), Some(v)) => Some(Hailstone(c[0], c[1], c[2], v[0], v[1], v[2]))
        case _ => None
  }

  /** Three integers as the puzzle writes them: "x, y, z". */
  function Triple(x: int, y: int, z: int, separator: string): string
  {
    IntToString(x) + separator + IntToString(y) + separator + IntToString(z)
  }

  /** A hailstone as the puzzle writes it. */
  function Format(h: Hailstone): string
  {
    Triple(h.px, h.py, h.pz, ", ") + " @ " + Triple(h.vx, h.vy, h.vz, ", ")
  }

  /** A written integer holds only digits and a sign. */
  lemma {:induction false} NotInNumber(value: int, c: char)
    requires !IsDigit(c) && c != '-'
    ensures c !in IntToString(value)
  {
    var digits := NatToString(if value < 0 then -value else value);
    assert forall i :: 0 <= i < |digits| ==> IsDigit(digits[i]);
  }

  /** Removing a character from three joined texts removes it from each. */
  lemma {:induction false} RemoveJoined(a: string, b: string, c: string, d: char)
    ensures Remove(a + b + c, d) == Remove(a, d) + Remove(b, d) + Remove(c, d)
  {
    RemoveAppend(a + b, c, d);
    RemoveAppend(a, b, d);
  }

  /** Removing the spaces of "x, y, z" leaves "x,y,z". */
  lemma {:induction false} RemoveSpaces(x: int, y: int, z: int)
    ensures Remove(Triple(x, y, z, ", "), ' ') == Triple(x, y, z, ",")
  {
    var sx, sy, sz := IntToString(x), IntToString(y), IntToString(z);
    NotInNumber(x, ' ');
    NotInNumber(y, ' ');
    NotInNumber(z, ' ');
    RemoveAbsent(sx, ' ');
    RemoveAbsent(sy, ' ');
    RemoveAbsent(sz, ' ');
    assert Remove(", ", ' ') == "," by {
      RemoveAbsent(",", ' ');
      RemoveAppend(",", " ", ' ');
      assert ", " == "," + " ";
    }
    RemoveJoined(sx + ", " + sy, ", ", sz, ' ');
    RemoveJoined(sx, ", ", sy, ' ');
  }

  /** Removing the spaces of a written hailstone leaves "x,y,z@a,b,c". */
  lemma {:induction false} RemoveFormatSpaces(h: Hailstone)
    ensures Remove(Format(h), ' ') == Triple(h.px, h.py, h.pz, ",") + "@" + Triple(h.vx, h.vy, h.vz, ",")
  {
    RemoveSpaces(h.px, h.py, h.pz);
    RemoveSpaces(h.vx, h.vy, h.vz);
    RemoveAtSpaces();
    RemoveJoined(Triple(h.px, h.py, h.pz, ", "), " @ ", Triple(h.vx, h.vy, h.vz, ", "), ' ');
  }

  lemma {:induction false} RemoveAtSpaces()
    ensures Remove(" @ ", ' ') == "@"
  {
    RemoveJoined(" ", "@", " ", ' ');
    assert " @ " == " " + "@" + " ";
  }

  /** "x,y,z@a,b,c" splits at "@" into its two triples. */
  lemma {:induction false} SplitAt(h: Hailstone)
    ensures var first, second := Triple(h.px, h.py, h.pz, ","), Triple(h.vx, h.vy, h.vz, ",");
      Split(first + "@" + second, "@") == [first, second]
  {
    var first, second := Triple(h.px, h.py, h.pz, ","), Triple(h.vx, h.vy, h.vz, ",");
    NotInNumber(h.px, '@');
    NotInNumber(h.py, '@');
    NotInNumber(h.pz, '@');
    NotInNumber(h.vx, '@');
    NotInNumber(h.vy, '@');
    NotInNumber(h.vz, '@');
    SplitFirst(first, "@", second);
    SplitAbsent(second, "@", 0);
  }

  /** Reading back a written hailstone gives the same hailstone. */
  lemma {:induction false} ParseFormat(h: Hailstone)
    ensures ParseHailstone(Format(h)) == Some(h)
  {
    RemoveFormatSpaces(h);
    SplitAt(h);
    ReadTriple(h.px, h.py, h.pz);
    ReadTriple(h.vx, h.vy, h.vz);
  }

  /** The first three pieces of "x,y,z" split at "," read back as x, y, z. */
  lemma ReadTriple(x: int, y: int, z: int)
    ensures var pieces := Split(Triple(x, y, z, ","), ",");
      |pieces| >= 3 && ParseInts(pieces[..3]) == Some([x, y, z])
  {
    var pieces := Split(Triple(x, y, z, ","), ",");
    Day22.SplitTriple(x, y, z);
    Day22.ParseTriple(x, y, z);
    assert pieces[..3] == pieces;
  }

  /** A line without "@" is refused. */
  lemma {:induction false} ParseWithoutAt(line: string)
    requires '@' !in line
    ensures ParseHailstone(line).None?
  {
    assert forall i :: 0 <= i < |Remove(line, ' ')| ==> Remove(line, ' ')[i] != '@' by {
      RemoveKeeps(line, ' ');
    }
    SplitAbsent(Remove(line, ' '), "@", 0);
  }

  /** Removing a character keeps only characters of the text. */
  lemma {:induction false} RemoveKeeps(s: string, c: char)
    ensures forall d :: d in Remove(s, c) ==> d in s
  {
    if s != [] {
      RemoveKeeps(s[..|s| - 1], c);
      assert forall d :: d in s[..|s| - 1] ==> d in s;
    }
  }

  /** `determine_linear_equation_elements`: the hailstones of the lines,
      in order. */
  method DetermineLinearEquationElements(lines: seq<string>) returns (elements: Option<seq<Hailstone>>)
    ensures elements == ParseLines(ParseHailstone, lines)
  {
    var parsed: seq<Hailstone> := [];
    for index := 0 to |lines|
      invariant ParseLines(ParseHailstone, lines[..index]) == Some(parsed)
    {
      assert lines[..index + 1][..index] == lines[..index];
      var hailstone := ParseHailstone(lines[index]);
      if hailstone.None? {
        ParseLinesPrefix(ParseHailstone, lines, index + 1);
        return None;
      }
      parsed := parsed + [hailstone.value];
    }
    assert lines[..|lines|] == lines;
    return Some(parsed);
  }

  // ---------------------------------------------------------------------
  // Part 1: paths in the x-y plane

  /** The line a * x + b * y == e that the path of `h` follows in the x-y
      plane: coefficients `[vy, -vx]` and constant `vy * px - vx * py`. */
  datatype Line = Line(a: int, b: int, e: int)

  function LineOf(h: Hailstone): Line
  {
    Line(h.vy, -h.vx, h.vy * h.px - h.vx * h.py)
  }

  /** Wherever the hailstone is at time `t`, it is on its line. */
  lemma {:induction false} PathOnLine(h: Hailstone, t: int)
    ensures var line := LineOf(h);
      line.a * (h.px + t * h.vx) + line.b * (h.py + t * h.vy) == line.e
  {
    assert h.vy * (h.px + t * h.vx) == h.vy * h.px + t * (h.vx * h.vy);
    assert h.vx * (h.py + t * h.vy) == h.vx * h.py + t * (h.vx * h.vy);
  }

  /** The 2x2 determinant `a * d - b * c`. */
  function Determinant(a: int, b: int, c: int, d: int): int
  {
    a * d - b * c
  }

  /** `calculate_2d_matrix_inverse` without the division by the
      determinant: the adjugate of [[a, b], [c, d]] and the determinant,
      or `None` exactly when the determinant is 0. The adjugate times the
      matrix is the determinant times the identity, so dividing it by the
      determinant gives the inverse. */
  function ScaledInverse(a: int, b: int, c: int, d: int): (r: Option<(int, int, int, int, int)>)
    ensures r.None? <==> Determinant(a, b, c, d) == 0
    ensures r.Some? ==>
      var (p, q, s, t, det) := r.value;
      && det == Determinant(a, b, c, d) != 0
      && p * a + q * c == det && p * b + q * d == 0
      && s * a + t * c == 0 && s * b + t * d == det
  {
    var det := a * d - b * c;
    if det != 0 then Some((d, -b, -c, a, det)) else None
  }

  /** `determine_2d_intersection_point` without the division by the
      determinant: the numerators of the crossing point of two lines and
      their common denominator, or `None` when the lines are parallel. The
      point solves both line equations. */
  function ScaledIntersection(first: Line, second: Line): (r: Option<(int, int, int)>)
    ensures r.None? <==> Determinant(first.a, first.b, second.a, second.b) == 0
    ensures r.Some? ==>
      var (x, y, det) := r.value;
      && det != 0
      && first.a * x + first.b * y == det * first.e
      && second.a * x + second.b * y == det * second.e
  {
    match ScaledInverse(first.a, first.b, second.a, second.b)
    case None => None
    case Some((p, q, s, t, det)) =>
      var x := p * first.e + q * second.e;
      var y := s * first.e + t * second.e;
      assert first.a * x + first.b * y == (p * first.a + s * first.b) * first.e + (q * first.a + t * first.b) * second.e;
      assert second.a * x + second.b * y == (p * second.a + s * second.b) * first.e + (q * second.a + t * second.b) * second.e;
      Some((x, y, det))
  }

  /** Two paths' lines have no single crossing exactly when their velocities
      in the plane are parallel. */
  lemma {:induction false} ParallelPaths(h1: Hailstone, h2: Hailstone)
    ensures ScaledIntersection(LineOf(h1), LineOf(h2)).None? <==> h1.vx * h2.vy == h2.vx * h1.vy
  {
  }

  /** The crossing point is the only point on both lines: any point on
      both, scaled by the determinant, is the one found. */
  lemma {:induction false} CrossingUnique(first: Line, second: Line, x: int, y: int)
    requires ScaledIntersection(first, second).Some?
    requires first.a * x + first.b * y == first.e && second.a * x + second.b * y == second.e
    ensures var (px, py, det) := ScaledIntersection(first, second).value;
      px == det * x && py == det * y
  {
    var (p, q, s, t, det) := ScaledInverse(first.a, first.b, second.a, second.b).value;
    var e1, e2 := first.e, second.e;
    assert p * e1 + q * e2 == (p * first.a + q * second.a) * x + (p * first.b + q * second.b) * y;
    assert s * e1 + t * e2 == (s * first.a + t * second.a) * x + (s * first.b + t * second.b) * y;
  }

  /** Pair `p` comes before pair `q`: the order of the two nested loops. */
  predicate PairBefore(p: (nat, nat), q: (nat, nat))
  {
    p.0 < q.0 || (p.0 == q.0 && p.1 < q.1)
  }

  /** Hailstones `i` and `j` have paths that cross at a single point. */
  predicate Crossing(elements: seq<Hailstone>, i: nat, j: nat)
    requires i < |elements| && j < |elements|
  {
    ScaledIntersection(LineOf(elements[i]), LineOf(elements[j])).Some?
  }

  /** The pair enumeration of `find_all_2d_intersections_within_interval`:
      every pair `i < j` is examined once, in order, and the pairs whose
      paths cross at a single point are the ones whose crossing is then
      compared with the window. */
  method CrossingPairs(elements: seq<Hailstone>) returns (pairs: seq<(nat, nat)>)
    ensures forall i: nat, j: nat :: (i, j) in pairs <==> i < j < |elements| && Crossing(elements, i, j)
    ensures forall k, l :: 0 <= k < l < |pairs| ==> PairBefore(pairs[k], pairs[l])
  {
    pairs := [];
    var index := 0;
    while index < |elements| - 1
      invariant 0 <= index <= |elements| || (index == 0 && |elements| == 0)
      invariant forall i: nat, j: nat :: (i, j) in pairs <==> i < index && i < j < |elements| && Crossing(elements, i, j)
      invariant forall k, l :: 0 <= k < l < |pairs| ==> PairBefore(pairs[k], pairs[l])
      invariant forall k :: 0 <= k < |pairs| ==> pairs[k].0 < index
    {
      var first := LineOf(elements[index]);
      for secondIndex := index + 1 to |elements|
        invariant forall i: nat, j: nat :: (i, j) in pairs <==>
          (i < index || (i == index && j < secondIndex)) && i < j < |elements| && Crossing(elements, i, j)
        invariant forall k, l :: 0 <= k < l < |pairs| ==> PairBefore(pairs[k], pairs[l])
        invariant forall k :: 0 <= k < |pairs| ==> PairBefore(pairs[k], (index, secondIndex))
      {
        var second := LineOf(elements[secondIndex]);
        var intersectionPoint := ScaledIntersection(first, second);
        if intersectionPoint.Some? {
          pairs := pairs + [(index, secondIndex)];
        }
      }
      index := index + 1;
    }
  }

  // ---------------------------------------------------------------------
  // Part 2: find_velocity_for_dimension_with_parallels

  /** `10**m`. */
  function Pow10(m: nat): (r: int)
    ensures r >= 1
  {
    if m == 0 then 1 else 10 * Pow10(m - 1)
  }

  /** The absolute value. */
  function Abs(n: int): nat
  {
    if n < 0 then -n else n
  }

  /** The velocities `v - f` for every non-zero `f` in [-10^m, 10^m) that
      divides the gap `d`, leaving out 0. Python's `d % f == 0` holds for
      a negative `f` exactly when `f` divides `d`, as Dafny's does. */
  function Candidates(v: int, d: int, m: nat): (r: set<int>)
    ensures forall x :: x in r <==>
      x != 0 && v - x != 0 && -Pow10(m) <= v - x < Pow10(m) && d % (v - x) == 0
  {
    var bound := Pow10(m);
    set f | -bound <= f < bound && f != 0 && d % f == 0 && v - f != 0 :: v - f
  }

  /** `velocities &= sub_velocities` when some velocities are known, and
      `velocities = sub_velocities` otherwise. */
  function Combine(velocities: set<int>, sub: set<int>): (r: set<int>)
    ensures r <= sub
  {
    if |velocities| > 0 then velocities * sub else sub
  }

  /** The candidate velocities after pairing hailstone `i` with each of
      hailstones `i + 1` to `j - 1` along `axis`. */
  function RowScan(elements: seq<Hailstone>, axis: nat, m: nat, velocities: set<int>, i: nat, j: nat): set<int>
    requires axis < 3 && i < j <= |elements|
    decreases j
  {
    if j == i + 1 then velocities
    else
      var before := RowScan(elements, axis, m, velocities, i, j - 1);
      var v1, v2 := Velocity(elements[i], axis), Velocity(elements[j - 1], axis);
      if v1 == v2 then
        Combine(before, Candidates(v1, Abs(Position(elements[j - 1], axis) - Position(elements[i], axis)), m))
      else before
  }

  /** The candidate velocities once the outer loop stops: it goes on while
      there is not exactly one candidate and a first hailstone is left. */
  function Narrowed(elements: seq<Hailstone>, axis: nat, m: nat, velocities: set<int>, index: nat): set<int>
    requires axis < 3
    decreases |elements| - index
  {
    if |velocities| != 1 && index < |elements| - 1 then
      Narrowed(elements, axis, m, RowScan(elements, axis, m, velocities, index, |elements|), index + 1)
    else velocities
  }

  /** The candidates `find_velocity_for_dimension_with_parallels` ends
      with, along `axis` (`velocity_index - 3`), for magnitude `m`. */
  function FinalVelocities(elements: seq<Hailstone>, axis: nat, m: nat): set<int>
    requires axis < 3
  {
    Narrowed(elements, axis, m, {}, 0)
  }

  /** `find_velocity_for_dimension_with_parallels`, with the magnitude `m`
      given: one of the remaining candidates, or `None` for the KeyError of
      popping an empty set. */
  method FindVelocityForDimensionWithParallels(elements: seq<Hailstone>, axis: nat, m: nat) returns (velocity: Option<int>)
    requires axis < 3
    ensures velocity.None? <==> FinalVelocities(elements, axis, m) == {}
    ensures velocity.Some? ==> velocity.value in FinalVelocities(elements, axis, m)
  {
    var velocities: set<int> := {};
    var index := 0;
    while |velocities| != 1 && index < |elements| - 1
      invariant Narrowed(elements, axis, m, velocities, index) == FinalVelocities(elements, axis, m)
      decreases |elements| - index
    {
      velocities := PairWithLater(elements, axis, m, velocities, index);
      index := index + 1;
    }
    if velocities == {} {
      return None;
    }
    var x := Pop(velocities);
    return Some(x);
  }

  /** `set.pop()` on a non-empty set: some element of it. */
  method Pop(s: set<int>) returns (x: int)
    requires s != {}
    ensures x in s
  {
    ghost var _ := Sums.HasElement(s);
    x :| x in s;
  }

  /** The inner loop: hailstone `index` paired with each later one; a
      pair with the same velocity narrows the candidates, or sets them when
      there are none. */
  method PairWithLater(elements: seq<Hailstone>, axis: nat, m: nat, velocities: set<int>, index: nat)
    returns (narrowed: set<int>)
    requires axis < 3 && index < |elements|
    ensures narrowed == RowScan(elements, axis, m, velocities, index, |elements|)
  {
    narrowed := velocities;
    var v1 := Velocity(elements[index], axis);
    for secondIndex := index + 1 to |elements|
      invariant narrowed == RowScan(elements, axis, m, velocities, index, secondIndex)
    {
      var v2 := Velocity(elements[secondIndex], axis);
      if v1 == v2 {
        var c1 := Position(elements[index], axis);
        var c2 := Position(elements[secondIndex], axis);
        var subVelocities := Candidates(v1, Abs(c2 - c1), m);
        if |narrowed| > 0 {
          narrowed := narrowed * subVelocities;
        } else {
          narrowed := subVelocities;
        }
      }
    }
  }

  /** `x` is a candidate from some pair of hailstones with the same
      velocity along `axis`. */
  ghost predicate FromParallels(elements: seq<Hailstone>, axis: nat, m: nat, x: int)
    requires axis < 3
  {
    exists i, j :: 0 <= i < j < |elements| && Velocity(elements[i], axis) == Velocity(elements[j], axis)
      && x in Candidates(Velocity(elements[i], axis), Abs(Position(elements[j], axis) - Position(elements[i], axis)), m)
  }

  lemma {:induction false} RowScanFromParallels(elements: seq<Hailstone>, axis: nat, m: nat, velocities: set<int>, i: nat, j: nat)
    requires axis < 3 && i < j <= |elements|
    requires forall x :: x in velocities ==> FromParallels(elements, axis, m, x)
    ensures forall x :: x in RowScan(elements, axis, m, velocities, i, j) ==> FromParallels(elements, axis, m, x)
    decreases j
  {
    if j > i + 1 {
      RowScanFromParallels(elements, axis, m, velocities, i, j - 1);
      var v1 := Velocity(elements[i], axis);
      if v1 == Velocity(elements[j - 1], axis) {
        var sub := Candidates(v1, Abs(Position(elements[j - 1], axis) - Position(elements[i], axis)), m);
        forall x | x in sub ensures FromParallels(elements, axis, m, x) {
          assert 0 <= i < j - 1 < |elements|;
        }
      }
    }
  }

  lemma {:induction false} NarrowedFromParallels(elements: seq<Hailstone>, axis: nat, m: nat, velocities: set<int>, index: nat)
    requires axis < 3
    requires forall x :: x in velocities ==> FromParallels(elements, axis, m, x)
    ensures forall x :: x in Narrowed(elements, axis, m, velocities, index) ==> FromParallels(elements, axis, m, x)
    decreases |elements| - index
  {
    if |velocities| != 1 && index < |elements| - 1 {
      RowScanFromParallels(elements, axis, m, velocities, index, |elements|);
      NarrowedFromParallels(elements, axis, m, RowScan(elements, axis, m, velocities, index, |elements|), index + 1);
    }
  }

  /** Every velocity the search can return is non-zero, differs from the
      shared velocity of some pair of hailstones, and that difference,
      within the magnitude, divides the pair's gap. */
  lemma {:induction false} FinalFromParallels(elements: seq<Hailstone>, axis: nat, m: nat)
    requires axis < 3
    ensures forall x :: x in FinalVelocities(elements, axis, m) ==> FromParallels(elements, axis, m, x)
  {
    NarrowedFromParallels(elements, axis, m, {}, 0);
  }

  /** Why the candidates are right: a rock with velocity `x` that meets,
      at times `t1` and `t2`, two hailstones moving with the same velocity
      `v` must cover their gap at relative speed `v - x`, so `v - x`
      divides the gap and `x` is a candidate when it is within the
      magnitude. */
  lemma {:induction false} RockVelocityIsCandidate(v: int, x: int, rock: int, c1: int, c2: int, t1: int, t2: int, m: nat)
    requires rock + x * t1 == c1 + v * t1 && rock + x * t2 == c2 + v * t2
    requires x != 0 && v - x != 0 && -Pow10(m) <= v - x < Pow10(m)
    ensures x in Candidates(v, Abs(c2 - c1), m)
  {
    var f := v - x;
    assert c2 - c1 == f * (t1 - t2);
    var k := if c2 - c1 < 0 then t2 - t1 else t1 - t2;
    assert Abs(c2 - c1) == f * k;
    MultipleMod(f, k);
  }

  /** A multiple of a non-zero `f` leaves remainder 0. */
  lemma {:induction false} MultipleMod(f: int, k: int)
    requires f != 0
    ensures (f * k) % f == 0
  {
    var n := f * k;
    var q, r := n / f, n % f;
    assert f * (k - q) == r;
    if k - q > 0 {
      Numbers.MulAtLeast(Abs(f), k - q);
    } else if k - q < 0 {
      Numbers.MulAtLeast(Abs(f), q - k);
    }
  }


  // ---------------------------------------------------------------------
  // Part 2: calculate_initial_positions_with_cramers_rule

  /** Three integers: a row of coefficients, a column or a point. */
  datatype Row = Row(a: int, b: int, c: int)

  /** A 3x3 matrix by rows. */
  datatype Matrix = Matrix(r0: Row, r1: Row, r2: Row)

  function Coordinate(p: Row, k: nat): int
    requires k < 3
  {
    if k == 0 then p.a else if k == 1 then p.b else p.c
  }

  function Dot(r: Row, p: Row): int
  {
    r.a * p.a + r.b * p.b + r.c * p.c
  }

  /** The matrix times the point. */
  function Apply(m: Matrix, p: Row): Row
  {
    Row(Dot(m.r0, p), Dot(m.r1, p), Dot(m.r2, p))
  }

  /** The determinant by cofactor expansion along the first row. */
  function Det(m: Matrix): int
  {
    m.r0.a * (m.r1.b * m.r2.c - m.r1.c * m.r2.b)
    - m.r0.b * (m.r1.a * m.r2.c - m.r1.c * m.r2.a)
    + m.r0.c * (m.r1.a * m.r2.b - m.r1.b * m.r2.a)
  }

  /** Column `k` of the matrix. */
  function ColumnOf(m: Matrix, k: nat): Row
    requires k < 3
  {
    Row(Coordinate(m.r0, k), Coordinate(m.r1, k), Coordinate(m.r2, k))
  }

  /** Row `r` with entry `k` replaced by `v`. */
  function SetCoordinate(r: Row, k: nat, v: int): Row
    requires k < 3
  {
    if k == 0 then r.(a := v) else if k == 1 then r.(b := v) else r.(c := v)
  }

  /** The matrix with column `k` replaced by `e`: the x, y and z matrices
      of Cramer's rule for k = 0, 1, 2. */
  function WithColumn(m: Matrix, k: nat, e: Row): (r: Matrix)
    requires k < 3
    ensures ColumnOf(r, k) == e
  {
    Matrix(SetCoordinate(m.r0, k, e.a), SetCoordinate(m.r1, k, e.b), SetCoordinate(m.r2, k, e.c))
  }

  /** The cofactors of column `k`: they do not involve column `k`. */
  function Cofactors(m: Matrix, k: nat): Row
    requires k < 3
  {
    var (a0, b0, c0) := (m.r0.a, m.r0.b, m.r0.c);
    var (a1, b1, c1) := (m.r1.a, m.r1.b, m.r1.c);
    var (a2, b2, c2) := (m.r2.a, m.r2.b, m.r2.c);
    if k == 0 then Row(b1 * c2 - c1 * b2, c0 * b2 - b0 * c2, b0 * c1 - c0 * b1)
    else if k == 1 then Row(c1 * a2 - a1 * c2, a0 * c2 - c0 * a2, c0 * a1 - a0 * c1)
    else Row(a1 * b2 - b1 * a2, b0 * a2 - a0 * b2, a0 * b1 - b0 * a1)
  }

  /** The determinant of the matrix with rows (a0, b0, c0), (a1, b1, c1)
      and (a2, b2, c2). */
  function Det9(a0: int, b0: int, c0: int, a1: int, b1: int, c1: int, a2: int, b2: int, c2: int): int
  {
    a0 * (b1 * c2 - c1 * b2) - b0 * (a1 * c2 - c1 * a2) + c0 * (a1 * b2 - b1 * a2)
  }

  /** Expansion along each column, written out. */
  lemma {:induction false} Expand9(a0: int, b0: int, c0: int, a1: int, b1: int, c1: int, a2: int, b2: int, c2: int)
    ensures var d := Det9(a0, b0, c0, a1, b1, c1, a2, b2, c2);
      && d == a0 * (b1 * c2 - c1 * b2) + a1 * (c0 * b2 - b0 * c2) + a2 * (b0 * c1 - c0 * b1)
      && d == b0 * (c1 * a2 - a1 * c2) + b1 * (a0 * c2 - c0 * a2) + b2 * (c0 * a1 - a0 * c1)
      && d == c0 * (a1 * b2 - b1 * a2) + c1 * (b0 * a2 - a0 * b2) + c2 * (a0 * b1 - b0 * a1)
  {
  }

  /** Expansion along any column gives the same determinant. */
  lemma {:induction false} ExpandColumn(m: Matrix, k: nat)
    requires k < 3
    ensures Det(m) == Dot(ColumnOf(m, k), Cofactors(m, k))
  {
    Expand9(m.r0.a, m.r0.b, m.r0.c, m.r1.a, m.r1.b, m.r1.c, m.r2.a, m.r2.b, m.r2.c);
  }

  /** A column against another column's cofactors gives 0: the
      determinant of a matrix with two equal columns. */
  lemma {:induction false} AlienColumn(m: Matrix, j: nat, k: nat)
    requires j < 3 && k < 3 && j != k
    ensures Dot(ColumnOf(m, j), Cofactors(m, k)) == 0
  {
    var (a0, b0, c0) := (m.r0.a, m.r0.b, m.r0.c);
    var (a1, b1, c1) := (m.r1.a, m.r1.b, m.r1.c);
    var (a2, b2, c2) := (m.r2.a, m.r2.b, m.r2.c);
    if k == 0 {
      if j == 1 {
        Expand9(b0, b0, c0, b1, b1, c1, b2, b2, c2);
      } else {
        Expand9(c0, b0, c0, c1, b1, c1, c2, b2, c2);
      }
    } else if k == 1 {
      if j == 0 {
        Expand9(a0, a0, c0, a1, a1, c1, a2, a2, c2);
      } else {
        Expand9(a0, c0, c0, a1, c1, c1, a2, c2, c2);
      }
    } else {
      if j == 0 {
        Expand9(a0, b0, a0, a1, b1, a1, a2, b2, a2);
      } else {
        Expand9(a0, b0, b0, a1, b1, b1, a2, b2, b2);
      }
    }
  }

  /** Replacing column `k` leaves its cofactors alone. */
  lemma {:induction false} CofactorsKeep(m: Matrix, k: nat, e: Row)
    requires k < 3
    ensures Cofactors(WithColumn(m, k, e), k) == Cofactors(m, k)
  {
  }

  /** The column of `m` times `p`, against some cofactors, splits into the
      columns of `m` against them. */
  lemma {:induction false} ApplyDot(m: Matrix, p: Row, q: Row)
    ensures Dot(Apply(m, p), q)
      == p.a * Dot(ColumnOf(m, 0), q) + p.b * Dot(ColumnOf(m, 1), q) + p.c * Dot(ColumnOf(m, 2), q)
  {
  }

  /** Column `k` replaced by the matrix times `p` has determinant
      `p[k] * Det(m)`. */
  lemma {:induction false} ReplacedByImage(m: Matrix, p: Row, k: nat)
    requires k < 3
    ensures Det(WithColumn(m, k, Apply(m, p))) == Coordinate(p, k) * Det(m)
  {
    var q := Cofactors(m, k);
    ExpandColumn(WithColumn(m, k, Apply(m, p)), k);
    CofactorsKeep(m, k, Apply(m, p));
    ApplyDot(m, p, q);
    ExpandColumn(m, k);
    if k == 0 {
      AlienColumn(m, 1, 0);
      AlienColumn(m, 2, 0);
    } else if k == 1 {
      AlienColumn(m, 0, 1);
      AlienColumn(m, 2, 1);
    } else {
      AlienColumn(m, 0, 2);
      AlienColumn(m, 1, 2);
    }
  }

  /** A row against the three columns of cofactors picks out the
      determinant at its own position and 0 elsewhere. */
  lemma {:induction false} RowCofactors(m: Matrix, i: nat)
    requires i < 3
    ensures var r := if i == 0 then m.r0 else if i == 1 then m.r1 else m.r2;
      var (k, l, n) := (Cofactors(m, 0), Cofactors(m, 1), Cofactors(m, 2));
      && r.a * k.a + r.b * l.a + r.c * n.a == (if i == 0 then Det(m) else 0)
      && r.a * k.b + r.b * l.b + r.c * n.b == (if i == 1 then Det(m) else 0)
      && r.a * k.c + r.b * l.c + r.c * n.c == (if i == 2 then Det(m) else 0)
  {
    var (a0, b0, c0) := (m.r0.a, m.r0.b, m.r0.c);
    var (a1, b1, c1) := (m.r1.a, m.r1.b, m.r1.c);
    var (a2, b2, c2) := (m.r2.a, m.r2.b, m.r2.c);
    assert Det(m) == Det9(a0, b0, c0, a1, b1, c1, a2, b2, c2);
    if i == 0 {
      Row0Cofactors(a0, b0, c0, a1, b1, c1, a2, b2, c2);
    } else if i == 1 {
      Row1Cofactors(a0, b0, c0, a1, b1, c1, a2, b2, c2);
    } else {
      Row2Cofactors(a0, b0, c0, a1, b1, c1, a2, b2, c2);
    }
  }

  /** Each row against the cofactor columns, written out: the determinant
      at its own position, and 0 (two equal rows) elsewhere. */
  lemma {:induction false} Row0Cofactors(a0: int, b0: int, c0: int, a1: int, b1: int, c1: int, a2: int, b2: int, c2: int)
    ensures var d := Det9(a0, b0, c0, a1, b1, c1, a2, b2, c2);
      && a0 * (b1 * c2 - c1 * b2) + b0 * (c1 * a2 - a1 * c2) + c0 * (a1 * b2 - b1 * a2) == d
      && a0 * (c0 * b2 - b0 * c2) + b0 * (a0 * c2 - c0 * a2) + c0 * (b0 * a2 - a0 * b2) == 0
      && a0 * (b0 * c1 - c0 * b1) + b0 * (c0 * a1 - a0 * c1) + c0 * (a0 * b1 - b0 * a1) == 0
  {
  }

  lemma {:induction false} Row1Cofactors(a0: int, b0: int, c0: int, a1: int, b1: int, c1: int, a2: int, b2: int, c2: int)
    ensures var d := Det9(a0, b0, c0, a1, b1, c1, a2, b2, c2);
      && a1 * (b1 * c2 - c1 * b2) + b1 * (c1 * a2 - a1 * c2) + c1 * (a1 * b2 - b1 * a2) == 0
      && a1 * (c0 * b2 - b0 * c2) + b1 * (a0 * c2 - c0 * a2) + c1 * (b0 * a2 - a0 * b2) == d
      && a1 * (b0 * c1 - c0 * b1) + b1 * (c0 * a1 - a0 * c1) + c1 * (a0 * b1 - b0 * a1) == 0
  {
  }

  lemma {:induction false} Row2Cofactors(a0: int, b0: int, c0: int, a1: int, b1: int, c1: int, a2: int, b2: int, c2: int)
    ensures var d := Det9(a0, b0, c0, a1, b1, c1, a2, b2, c2);
      && a2 * (b1 * c2 - c1 * b2) + b2 * (c1 * a2 - a1 * c2) + c2 * (a1 * b2 - b1 * a2) == 0
      && a2 * (c0 * b2 - b0 * c2) + b2 * (a0 * c2 - c0 * a2) + c2 * (b0 * a2 - a0 * b2) == 0
      && a2 * (b0 * c1 - c0 * b1) + b2 * (c0 * a1 - a0 * c1) + c2 * (a0 * b1 - b0 * a1) == d
  {
  }

  /** A row against the three Cramer determinants gives the constant times
      the determinant. */
  lemma {:induction false} RowDeterminants(m: Matrix, e: Row, i: nat)
    requires i < 3
    ensures var r := if i == 0 then m.r0 else if i == 1 then m.r1 else m.r2;
      Dot(r, Row(Det(WithColumn(m, 0, e)), Det(WithColumn(m, 1, e)), Det(WithColumn(m, 2, e))))
        == Coordinate(e, i) * Det(m)
  {
    var r := if i == 0 then m.r0 else if i == 1 then m.r1 else m.r2;
    var (k, l, n) := (Cofactors(m, 0), Cofactors(m, 1), Cofactors(m, 2));
    var dx, dy, dz := Det(WithColumn(m, 0, e)), Det(WithColumn(m, 1, e)), Det(WithColumn(m, 2, e));
    assert dx == Dot(e, k) by {
      ExpandColumn(WithColumn(m, 0, e), 0);
      CofactorsKeep(m, 0, e);
    }
    assert dy == Dot(e, l) by {
      ExpandColumn(WithColumn(m, 1, e), 1);
      CofactorsKeep(m, 1, e);
    }
    assert dz == Dot(e, n) by {
      ExpandColumn(WithColumn(m, 2, e), 2);
      CofactorsKeep(m, 2, e);
    }
    Regroup(r, e, k, l, n);
    RowCofactors(m, i);
  }

  lemma {:induction false} Regroup(r: Row, e: Row, k: Row, l: Row, n: Row)
    ensures r.a * Dot(e, k) + r.b * Dot(e, l) + r.c * Dot(e, n)
      == e.a * (r.a * k.a + r.b * l.a + r.c * n.a)
       + e.b * (r.a * k.b + r.b * l.b + r.c * n.b)
       + e.c * (r.a * k.c + r.b * l.c + r.c * n.c)
  {
  }

  /** Python's floor division `n // d`: Dafny's division rounds towards
      minus infinity only for a positive divisor. */
  function FloorDiv(n: int, d: int): (q: int)
    requires d != 0
    ensures d > 0 ==> d * q <= n < d * q + d
    ensures d < 0 ==> d * q + d < n <= d * q
  {
    if d > 0 then n / d else (-n) / (-d)
  }

  /** An exact division gives back the dividend. */
  lemma {:induction false} FloorDivExact(n: int, d: int)
    requires d != 0 && n % d == 0
    ensures d * FloorDiv(n, d) == n
  {
    var q := n / d;
    assert n == d * q;
    if d < 0 {
      assert -n == (-d) * q;
      Numbers.ModUnique(-n, -d, q, 0);
      assert -n == (-d) * ((-n) / (-d)) + 0;
      Numbers.Cancel(-d, q, (-n) / (-d));
    }
  }

  /** `d * u == d * v` with `d != 0` gives `u == v`. */
  lemma {:induction false} CancelNonZero(d: int, u: int, v: int)
    requires d != 0 && d * u == d * v
    ensures u == v
  {
    if d > 0 {
      Numbers.Cancel(d, u, v);
    } else {
      Numbers.Cancel(-d, u, v);
    }
  }

  /** What `calculate_initial_positions_with_cramers_rule` does once it has
      the coefficients and constants: each coordinate is its Cramer
      determinant floor-divided by the determinant, which must not be 0. */
  function Solve(m: Matrix, e: Row): Outcome<Row>
  {
    var det := Det(m);
    if det == 0 then ZeroDivisionError
    else Done(Row(FloorDiv(Det(WithColumn(m, 0, e)), det),
                  FloorDiv(Det(WithColumn(m, 1, e)), det),
                  FloorDiv(Det(WithColumn(m, 2, e)), det)))
  }

  /** What the computation ends with. */
  datatype Outcome<T> = Done(value: T) | KeyError | IndexError | ZeroDivisionError

  /** Cramer's rule: when the determinant is not 0 and every division is
      exact, the result solves the system. */
  lemma {:induction false} CramerSolves(m: Matrix, e: Row)
    requires Det(m) != 0
    requires forall k :: 0 <= k < 3 ==> Det(WithColumn(m, k, e)) % Det(m) == 0
    ensures Solve(m, e).Done? && Apply(m, Solve(m, e).value) == e
  {
    var det := Det(m);
    var p := Solve(m, e).value;
    var cramer := Row(Det(WithColumn(m, 0, e)), Det(WithColumn(m, 1, e)), Det(WithColumn(m, 2, e)));
    FloorDivExact(cramer.a, det);
    FloorDivExact(cramer.b, det);
    FloorDivExact(cramer.c, det);
    assert cramer == Row(det * p.a, det * p.b, det * p.c);
    SolvedRow(m, e, p, 0);
    SolvedRow(m, e, p, 1);
    SolvedRow(m, e, p, 2);
  }

  /** One row of the system holds at `p` when the Cramer determinants are
      the determinant times `p`. */
  lemma {:induction false} SolvedRow(m: Matrix, e: Row, p: Row, i: nat)
    requires i < 3 && Det(m) != 0
    requires Row(Det(WithColumn(m, 0, e)), Det(WithColumn(m, 1, e)), Det(WithColumn(m, 2, e)))
      == Row(Det(m) * p.a, Det(m) * p.b, Det(m) * p.c)
    ensures Dot(if i == 0 then m.r0 else if i == 1 then m.r1 else m.r2, p) == Coordinate(e, i)
  {
    var r := if i == 0 then m.r0 else if i == 1 then m.r1 else m.r2;
    RowDeterminants(m, e, i);
    ScaleDot(r, p, Det(m));
    CancelNonZero(Det(m), Dot(r, p), Coordinate(e, i));
  }

  lemma {:induction false} ScaleDot(r: Row, p: Row, d: int)
    ensures Dot(r, Row(d * p.a, d * p.b, d * p.c)) == d * Dot(r, p)
  {
  }

  /** And the solution is the only one: a system whose constants are the
      image of `p` under a matrix with determinant other than 0 gives `p`
      back. */
  lemma {:induction false} CramerUnique(m: Matrix, p: Row)
    requires Det(m) != 0
    ensures Solve(m, Apply(m, p)) == Done(p)
  {
    var det := Det(m);
    var e := Apply(m, p);
    ReplacedByImage(m, p, 0);
    ReplacedByImage(m, p, 1);
    ReplacedByImage(m, p, 2);
    forall k | 0 <= k < 3 ensures FloorDiv(Coordinate(p, k) * det, det) == Coordinate(p, k) {
      var n := Coordinate(p, k) * det;
      MultipleMod(det, Coordinate(p, k));
      assert det * Coordinate(p, k) == n;
      FloorDivExact(n, det);
      CancelNonZero(det, FloorDiv(n, det), Coordinate(p, k));
    }
  }

  /** The starting point and velocity of a hailstone, as points. */
  function Start(h: Hailstone): Row
  {
    Row(h.px, h.py, h.pz)
  }

  function Motion(h: Hailstone): Row
  {
    Row(h.vx, h.vy, h.vz)
  }

  /** The coefficients for a hailstone given the rock's velocity `w`: with
      the relative velocity t = v - w, the row [ty * tz, tx * tz,
      -2 * tx * ty]. */
  function SystemRow(h: Hailstone, w: Row): Row
  {
    var (tx, ty, tz) := (h.vx - w.a, h.vy - w.b, h.vz - w.c);
    Row(ty * tz, tx * tz, -2 * tx * ty)
  }

  /** The system of the first three hailstones. */
  function SystemOf(elements: seq<Hailstone>, w: Row): Matrix
    requires |elements| >= 3
  {
    Matrix(SystemRow(elements[0], w), SystemRow(elements[1], w), SystemRow(elements[2], w))
  }

  /** Each constant is the row against the hailstone's own start. */
  function ConstantsOf(elements: seq<Hailstone>, w: Row): Row
    requires |elements| >= 3
  {
    Row(Dot(SystemRow(elements[0], w), Start(elements[0])),
        Dot(SystemRow(elements[1], w), Start(elements[1])),
        Dot(SystemRow(elements[2], w), Start(elements[2])))
  }

  /** The rock, starting at `rock` with velocity `w`, is where the
      hailstone is at time `t`. */
  predicate Hits(rock: Row, w: Row, h: Hailstone, t: int)
  {
    && rock.a + t * w.a == h.px + t * h.vx
    && rock.b + t * w.b == h.py + t * h.vy
    && rock.c + t * w.c == h.pz + t * h.vz
  }

  /** A rock that hits the hailstone satisfies the hailstone's equation:
      the gap between their starts is a multiple of the relative velocity,
      and the row is orthogonal to the relative velocity. */
  lemma {:induction false} RockOnRow(rock: Row, w: Row, h: Hailstone, t: int)
    requires Hits(rock, w, h, t)
    ensures Dot(SystemRow(h, w), rock) == Dot(SystemRow(h, w), Start(h))
  {
    var (tx, ty, tz) := (h.vx - w.a, h.vy - w.b, h.vz - w.c);
    assert rock.a == h.px + t * tx && rock.b == h.py + t * ty && rock.c == h.pz + t * tz;
    var row := SystemRow(h, w);
    assert Dot(row, rock) == Dot(row, Start(h)) + (ty * tz) * (t * tx) + (tx * tz) * (t * ty) + (-2 * tx * ty) * (t * tz);
    assert (ty * tz) * (t * tx) == t * (tx * ty * tz);
    assert (tx * tz) * (t * ty) == t * (tx * ty * tz);
    assert (-2 * tx * ty) * (t * tz) == -2 * (t * (tx * ty * tz));
  }

  /** With the rock's true velocity, a rock that hits the first three
      hailstones is found, unless the system is singular. */
  lemma {:induction false} RockFound(elements: seq<Hailstone>, rock: Row, w: Row, t0: int, t1: int, t2: int)
    requires |elements| >= 3
    requires Hits(rock, w, elements[0], t0) && Hits(rock, w, elements[1], t1) && Hits(rock, w, elements[2], t2)
    requires Det(SystemOf(elements, w)) != 0
    ensures Solve(SystemOf(elements, w), ConstantsOf(elements, w)) == Done(rock)
  {
    RockOnRow(rock, w, elements[0], t0);
    RockOnRow(rock, w, elements[1], t1);
    RockOnRow(rock, w, elements[2], t2);
    assert ConstantsOf(elements, w) == Apply(SystemOf(elements, w), rock);
    CramerUnique(SystemOf(elements, w), rock);
  }

  /** The `while index < 3` loop: the coefficients and constant of each of
      the first three hailstones. */
  method BuildSystem(elements: seq<Hailstone>, w: Row) returns (coefficients: seq<Row>, constants: seq<int>)
    requires |elements| >= 3
    ensures |coefficients| == 3 && |constants| == 3
    ensures Matrix(coefficients[0], coefficients[1], coefficients[2]) == SystemOf(elements, w)
    ensures Row(constants[0], constants[1], constants[2]) == ConstantsOf(elements, w)
  {
    coefficients, constants := [], [];
    var index := 0;
    while index < 3
      invariant 0 <= index <= 3 && |coefficients| == index && |constants| == index
      invariant forall i :: 0 <= i < index ==> coefficients[i] == SystemRow(elements[i], w)
      invariant forall i :: 0 <= i < index ==> constants[i] == Dot(coefficients[i], Start(elements[i]))
    {
      var h := elements[index];
      var totalXv, totalYv, totalZv := h.vx - w.a, h.vy - w.b, h.vz - w.c;
      var xCoefficient := totalYv * totalZv;
      var yCoefficient := totalXv * totalZv;
      var zCoefficient := -2 * totalXv * totalYv;
      var row := Row(xCoefficient, yCoefficient, zCoefficient);
      var constant := h.px * xCoefficient + h.py * yCoefficient + h.pz * zCoefficient;
      assert row == SystemRow(h, w) && constant == Dot(row, Start(h));
      coefficients := coefficients + [row];
      constants := constants + [constant];
      index := index + 1;
    }
  }

  /** The `for column in range(3)` loop: the x, y and z matrices, each the
      coefficients with one column replaced by the constants. */
  method ColumnMatrices(m: Matrix, e: Row) returns (x: Matrix, y: Matrix, z: Matrix)
    ensures x == WithColumn(m, 0, e) && y == WithColumn(m, 1, e) && z == WithColumn(m, 2, e)
  {
    x, y, z := m, m, m;
    for column := 0 to 3
      invariant column > 0 ==> x == WithColumn(m, 0, e)
      invariant column > 1 ==> y == WithColumn(m, 1, e)
      invariant column > 2 ==> z == WithColumn(m, 2, e)
    {
      if column == 0 {
        x := Matrix(Row(e.a, m.r0.b, m.r0.c), Row(e.b, m.r1.b, m.r1.c), Row(e.c, m.r2.b, m.r2.c));
      } else if column == 1 {
        y := Matrix(Row(m.r0.a, e.a, m.r0.c), Row(m.r1.a, e.b, m.r1.c), Row(m.r2.a, e.c, m.r2.c));
      } else {
        z := Matrix(Row(m.r0.a, m.r0.b, e.a), Row(m.r1.a, m.r1.b, e.b), Row(m.r2.a, m.r2.b, e.c));
      }
    }
  }

  /** The outcomes `calculate_initial_positions_with_cramers_rule` may
      give: KeyError exactly when some axis has no velocity left,
      IndexError exactly when there are fewer than three hailstones, and
      otherwise Cramer's rule for velocities left on every axis. */
  ghost predicate Answers(elements: seq<Hailstone>, mx: nat, my: nat, mz: nat, result: Outcome<Row>)
  {
    var (fx, fy, fz) := (FinalVelocities(elements, 0, mx), FinalVelocities(elements, 1, my), FinalVelocities(elements, 2, mz));
    && (result.KeyError? <==> fx == {} || fy == {} || fz == {})
    && (!result.KeyError? ==> (result.IndexError? <==> |elements| < 3))
    && (!result.KeyError? && |elements| >= 3 ==>
          exists w: Row :: w.a in fx && w.b in fy && w.c in fz && result == Solve(SystemOf(elements, w), ConstantsOf(elements, w)))
  }

  /** The sum of the coordinates, with errors passed on. */
  function Summed(outcome: Outcome<Row>): Outcome<int>
  {
    match outcome
    case Done(p) => Done(p.a + p.b + p.c)
    case KeyError => KeyError
    case IndexError => IndexError
    case ZeroDivisionError => ZeroDivisionError
  }

  /** `calculate_initial_positions_with_cramers_rule`, with the magnitude
      of each axis given: the velocity along each axis is one left by the
      search (KeyError when none is), the first three hailstones give the
      system (IndexError when there are fewer), and Cramer's rule gives the
      rock's start (ZeroDivisionError for a singular system). */
  method CalculateInitialPositionsWithCramersRule(elements: seq<Hailstone>, mx: nat, my: nat, mz: nat)
    returns (result: Outcome<Row>)
    ensures Answers(elements, mx, my, mz, result)
  {
    var xVelocity := FindVelocityForDimensionWithParallels(elements, 0, mx);
    var yVelocity := FindVelocityForDimensionWithParallels(elements, 1, my);
    var zVelocity := FindVelocityForDimensionWithParallels(elements, 2, mz);
    if xVelocity.None? || yVelocity.None? || zVelocity.None? {
      return KeyError;
    }
    if |elements| < 3 {
      return IndexError;
    }
    var w := Row(xVelocity.value, yVelocity.value, zVelocity.value);
    var coefficients, constants := BuildSystem(elements, w);
    var m := Matrix(coefficients[0], coefficients[1], coefficients[2]);
    var e := Row(constants[0], constants[1], constants[2]);
    var xMatrix, yMatrix, zMatrix := ColumnMatrices(m, e);
    var determinant := Det(m);
    if determinant == 0 {
      result := ZeroDivisionError;
    } else {
      result := Done(Row(FloorDiv(Det(xMatrix), determinant), FloorDiv(Det(yMatrix), determinant), FloorDiv(Det(zMatrix), determinant)));
    }
    assert result == Solve(SystemOf(elements, w), ConstantsOf(elements, w));
  }

  /** Part 2 of `solve_problem`: the sum of the rock's coordinates; `None`
      when a line does not parse. */
  method SolveProblem(lines: seq<string>, mx: nat, my: nat, mz: nat) returns (part2: Option<Outcome<int>>)
    ensures part2.None? <==> ParseLines(ParseHailstone, lines).None?
    ensures part2.Some? ==>
      exists outcome :: Answers(ParseLines(ParseHailstone, lines).value, mx, my, mz, outcome) && part2.value == Summed(outcome)
  {
    var elements := DetermineLinearEquationElements(lines);
    if elements.None? {
      return None;
    }
    var positions := CalculateInitialPositionsWithCramersRule(elements.value, mx, my, mz);
    return Some(Summed(positions));
  }
}
