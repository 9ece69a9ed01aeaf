/** Day 11: distances between galaxies in an image whose empty rows and
    columns expand. A galaxy is a '#' cell; every empty row or column between
    two galaxies adds `factor - 1` to their Manhattan distance. */
module Day11 {
  import opened Sums
  import opened Grids

  /** A galaxy at column `x`, row `y`. */
  datatype Galaxy = Galaxy(x: int, y: int)

  function Abs(n: int): nat
  {
    if n < 0 then -n else n
  }

  /** `calculate_initial_distance`: the Manhattan distance of a pair. */
  function InitialDistance(a: Galaxy, b: Galaxy): nat
  {
    Abs(a.x - b.x) + Abs(a.y - b.y)
  }

  /** The Manhattan distance is a metric on galaxies. */
  lemma {:induction false} InitialDistanceMetric(a: Galaxy, b: Galaxy, c: Galaxy)
    ensures InitialDistance(a, b) == InitialDistance(b, a)
    ensures InitialDistance(a, b) == 0 <==> a == b
    ensures InitialDistance(a, c) <= InitialDistance(a, b) + InitialDistance(b, c)
  {
  }

  /** Whether `g` lies in Python's `range(*sorted([p, q]))`. */
  predicate InRange(g: int, p: int, q: int)
  {
    if p <= q then p <= g < q else q <= g < p
  }

  /** The number of known gaps (with repetition) in `range(*sorted([p, q]))`. */
  function GapsBetween(gaps: seq<int>, p: int, q: int): (r: nat)
    ensures r <= |gaps|
  {
    if gaps == [] then 0
    else GapsBetween(gaps[..|gaps| - 1], p, q) + (if InRange(gaps[|gaps| - 1], p, q) then 1 else 0)
  }

  /** The number of known gaps (with repetition) strictly before `x`. */
  function CountBelow(gaps: seq<int>, x: int): (r: nat)
    ensures r <= |gaps|
  {
    if gaps == [] then 0
    else CountBelow(gaps[..|gaps| - 1], x) + (if gaps[|gaps| - 1] < x then 1 else 0)
  }

  /** The gaps between two coordinates are those below the larger one and
      not below the smaller one. */
  lemma {:induction false} GapsBetweenBelow(gaps: seq<int>, p: int, q: int)
    requires p <= q
    ensures GapsBetween(gaps, p, q) == CountBelow(gaps, q) - CountBelow(gaps, p)
    ensures GapsBetween(gaps, q, p) == GapsBetween(gaps, p, q)
    decreases |gaps|
  {
    if gaps != [] {
      GapsBetweenBelow(gaps[..|gaps| - 1], p, q);
    }
  }

  /** `determine_gaps_along_dimension`. */
  method DetermineGapsAlongDimension(knownGaps: seq<int>, p: int, q: int) returns (count: nat)
    ensures count == GapsBetween(knownGaps, p, q)
  {
    var low, high := if p <= q then p else q, if p <= q then q else p;
    count := 0;
    for i := 0 to |knownGaps|
      invariant count == GapsBetween(knownGaps[..i], p, q)
    {
      assert knownGaps[..i + 1][..i] == knownGaps[..i];
      if low <= knownGaps[i] < high {
        count := count + 1;
      }
    }
    assert knownGaps[..|knownGaps|] == knownGaps;
  }

  /** `calculate_expanded_distance`: the Manhattan distance plus
      `factor - 1` for every gap crossed, horizontal gaps counted along x and
      vertical gaps along y. */
  function ExpandedDistance(a: Galaxy, b: Galaxy, horizontalGaps: seq<int>, verticalGaps: seq<int>, factor: int): int
  {
    InitialDistance(a, b)
      + (GapsBetween(verticalGaps, a.y, b.y) + GapsBetween(horizontalGaps, a.x, b.x)) * (factor - 1)
  }

  /** Where coordinate `x` lands once each gap before it has grown to
      `factor` lines. */
  function Expand(x: int, gaps: seq<int>, factor: int): int
  {
    x + CountBelow(gaps, x) * (factor - 1)
  }

  lemma {:induction false} Distribute(a: int, b: int, d: int)
    ensures (a + b) * d == a * d + b * d
  {
  }

  lemma {:induction false} MulNat(a: nat, d: nat)
    ensures a * d >= 0
  {
  }

  /** With `low <= high`, the higher coordinate stays at least as far
      along once expanded, by the plain distance plus `factor - 1` per gap
      crossed. */
  lemma {:induction false} ExpandOrdered(gaps: seq<int>, low: int, high: int, factor: int)
    requires factor >= 1 && low <= high
    ensures Expand(high, gaps, factor) - Expand(low, gaps, factor)
      == (high - low) + GapsBetween(gaps, low, high) * (factor - 1)
    ensures GapsBetween(gaps, low, high) * (factor - 1) >= 0
  {
    GapsBetweenBelow(gaps, low, high);
    var n, d := GapsBetween(gaps, low, high), factor - 1;
    var cl, ch := CountBelow(gaps, low), CountBelow(gaps, high);
    assert ch == cl + n;
    Distribute(cl, n, d);
    MulNat(n, d);
  }

  /** Along one axis, the distance of the expanded coordinates is the plain
      distance plus `factor - 1` per gap crossed. */
  lemma {:induction false} ExpandAxis(gaps: seq<int>, p: int, q: int, factor: int)
    requires factor >= 1
    ensures Abs(Expand(p, gaps, factor) - Expand(q, gaps, factor))
      == Abs(p - q) + GapsBetween(gaps, p, q) * (factor - 1)
    ensures GapsBetween(gaps, p, q) * (factor - 1) >= 0
  {
    if p <= q {
      ExpandOrdered(gaps, p, q, factor);
    } else {
      ExpandOrdered(gaps, q, p, factor);
      GapsBetweenBelow(gaps, q, p);
    }
  }

  /** The expanded distance is the Manhattan distance of the galaxies'
      expanded positions; it is symmetric, and factor 1 gives the plain
      Manhattan distance. */
  lemma {:induction false} ExpandedDistanceMeaning(a: Galaxy, b: Galaxy, horizontalGaps: seq<int>, verticalGaps: seq<int>, factor: int)
    requires factor >= 1
    ensures ExpandedDistance(a, b, horizontalGaps, verticalGaps, factor)
      == Abs(Expand(a.x, horizontalGaps, factor) - Expand(b.x, horizontalGaps, factor))
       + Abs(Expand(a.y, verticalGaps, factor) - Expand(b.y, verticalGaps, factor))
    ensures ExpandedDistance(a, b, horizontalGaps, verticalGaps, factor)
      == ExpandedDistance(b, a, horizontalGaps, verticalGaps, factor)
    ensures ExpandedDistance(a, b, horizontalGaps, verticalGaps, factor) >= InitialDistance(a, b)
    ensures factor == 1 ==> ExpandedDistance(a, b, horizontalGaps, verticalGaps, factor) == InitialDistance(a, b)
  {
    ExpandAxis(horizontalGaps, a.x, b.x, factor);
    ExpandAxis(verticalGaps, a.y, b.y, factor);
    var h, v := GapsBetween(horizontalGaps, a.x, b.x), GapsBetween(verticalGaps, a.y, b.y);
    Distribute(v, h, factor - 1);
    assert GapsBetween(horizontalGaps, b.x, a.x) == h by {
      if a.x <= b.x { GapsBetweenBelow(horizontalGaps, a.x, b.x); } else { GapsBetweenBelow(horizontalGaps, b.x, a.x); }
    }
    assert GapsBetween(verticalGaps, b.y, a.y) == v by {
      if a.y <= b.y { GapsBetweenBelow(verticalGaps, a.y, b.y); } else { GapsBetweenBelow(verticalGaps, b.y, a.y); }
    }
  }

  /** `GalaxyPair`: the constructor stores the expanded distance. */
  method CalculateExpandedDistance(a: Galaxy, b: Galaxy, horizontalGaps: seq<int>, verticalGaps: seq<int>, factor: int)
    returns (distance: int)
    ensures distance == ExpandedDistance(a, b, horizontalGaps, verticalGaps, factor)
  {
    var vertical := DetermineGapsAlongDimension(verticalGaps, a.y, b.y);
    var horizontal := DetermineGapsAlongDimension(horizontalGaps, a.x, b.x);
    distance := InitialDistance(a, b) + (vertical + horizontal) * (factor - 1);
  }

  /** The image can be read: there is a first row, and no row is shorter
      than it (the width is the first row's length and every row is indexed
      up to it). */
  predicate Readable(rows: seq<string>)
  {
    |rows| > 0 && forall i :: 0 <= i < |rows| ==> |rows[0]| <= |rows[i]|
  }

  /** The indices, ascending, of the rows or columns with no galaxy. */
  function EmptyIndices(elements: seq<string>): (r: seq<int>)
    ensures forall k :: 0 <= k < |r| ==> 0 <= r[k] < |elements| && '#' !in elements[r[k]]
    ensures forall i :: 0 <= i < |elements| && '#' !in elements[i] ==> i in r
    ensures forall k, l :: 0 <= k < l < |r| ==> r[k] < r[l]
  {
    if elements == [] then []
    else
      var n := |elements| - 1;
      var prefix := EmptyIndices(elements[..n]);
      assert forall i :: 0 <= i < n ==> elements[..n][i] == elements[i];
      prefix + (if '#' !in elements[n] then [n] else [])
  }

  /** `determine_elements_without_galaxies`. */
  method DetermineElementsWithoutGalaxies(elements: seq<string>) returns (indices: seq<int>)
    ensures indices == EmptyIndices(elements)
  {
    indices := [];
    for i := 0 to |elements|
      invariant indices == EmptyIndices(elements[..i])
    {
      assert elements[..i + 1][..i] == elements[..i];
      if '#' !in elements[i] {
        indices := indices + [i];
      }
    }
    assert elements[..|elements|] == elements;
  }

  /** On a readable image the transpose has one column per character of
      the first row. */
  lemma {:induction false} ReadableWidth(rows: seq<string>)
    requires Readable(rows)
    ensures MinLength(rows) == |rows[0]|
  {
    MinLengthAttained(rows);
  }

  /** `create_initial_columns`: column `j` is the `j`th character of every
      row, for every `j` below the width. */
  method CreateInitialColumns(rows: seq<string>) returns (columns: seq<string>)
    requires Readable(rows)
    ensures columns == Transpose(rows)
  {
    var width := |rows[0]|;
    columns := [];
    for column := 0 to width
      invariant |columns| == column
      invariant forall c :: 0 <= c < column ==> columns[c] == Column(rows, c)
    {
      var columnValues := "";
      for row := 0 to |rows|
        invariant |columnValues| == row
        invariant forall i :: 0 <= i < row ==> columnValues[i] == rows[i][column]
      {
        columnValues := columnValues + [rows[row][column]];
      }
      columns := columns + [columnValues];
    }
    ReadableWidth(rows);
    var t := Transpose(rows);
    assert forall c :: 0 <= c < width ==> columns[c] == t[c];
  }

  /** The galaxies in the first `x` cells of a row, left to right. */
  function RowGalaxies(row: string, y: int, x: nat): (r: seq<Galaxy>)
    requires x <= |row|
    ensures forall k :: 0 <= k < |r| ==> r[k].y == y && 0 <= r[k].x < x && row[r[k].x] == '#'
    ensures forall k, l :: 0 <= k < l < |r| ==> r[k].x < r[l].x
  {
    if x == 0 then []
    else RowGalaxies(row, y, x - 1) + (if row[x - 1] == '#' then [Galaxy(x - 1, y)] else [])
  }

  /** ... and every '#' of the first `x` cells is among them. */
  lemma {:induction false} RowGalaxiesComplete(row: string, y: int, x: nat, c: nat)
    requires x <= |row| && c < x && row[c] == '#'
    ensures Galaxy(c, y) in RowGalaxies(row, y, x)
  {
    if c < x - 1 {
      RowGalaxiesComplete(row, y, x - 1, c);
    }
  }

  /** Row-major order on galaxies. */
  predicate Before(a: Galaxy, b: Galaxy)
  {
    a.y < b.y || (a.y == b.y && a.x < b.x)
  }

  /** The galaxies of the first `y` rows, row by row. */
  function Galaxies(rows: seq<string>, w: nat, y: nat): seq<Galaxy>
    requires y <= |rows| && forall i :: 0 <= i < |rows| ==> w <= |rows[i]|
  {
    if y == 0 then []
    else Galaxies(rows, w, y - 1) + RowGalaxies(rows[y - 1], y - 1, w)
  }

  /** The galaxies are exactly the '#' cells below the width, in row-major
      order, so each appears once. */
  lemma {:induction false} GalaxiesFacts(rows: seq<string>, w: nat, y: nat)
    requires y <= |rows| && forall i :: 0 <= i < |rows| ==> w <= |rows[i]|
    ensures var r := Galaxies(rows, w, y);
      && (forall k :: 0 <= k < |r| ==> 0 <= r[k].y < y && 0 <= r[k].x < w && rows[r[k].y][r[k].x] == '#')
      && (forall i, c :: 0 <= i < y && 0 <= c < w && rows[i][c] == '#' ==> Galaxy(c, i) in r)
      && RowMajor(r)
  {
    GalaxiesCells(rows, w, y);
    forall i, c | 0 <= i < y && 0 <= c < w && rows[i][c] == '#' ensures Galaxy(c, i) in Galaxies(rows, w, y) {
      GalaxyFound(rows, w, y, i, c);
    }
    GalaxiesOrdered(rows, w, y);
    var r := Galaxies(rows, w, y);
    assert forall k :: 0 <= k < |r| ==> r[k] in r;
  }

  lemma {:induction false} GalaxiesCells(rows: seq<string>, w: nat, y: nat)
    requires y <= |rows| && forall i :: 0 <= i < |rows| ==> w <= |rows[i]|
    ensures forall g: Galaxy :: g in Galaxies(rows, w, y) ==> 0 <= g.y < y && 0 <= g.x < w && rows[g.y][g.x] == '#'
  {
    if y > 0 {
      GalaxiesCells(rows, w, y - 1);
      var p, q := Galaxies(rows, w, y - 1), RowGalaxies(rows[y - 1], y - 1, w);
      assert p + q == Galaxies(rows, w, y);
      forall g: Galaxy | g in p + q ensures 0 <= g.y < y && 0 <= g.x < w && rows[g.y][g.x] == '#' {
        if g !in p {
          var k :| 0 <= k < |q| && q[k] == g;
        }
      }
    }
  }

  lemma {:induction false} GalaxyFound(rows: seq<string>, w: nat, y: nat, i: nat, c: nat)
    requires y <= |rows| && forall i :: 0 <= i < |rows| ==> w <= |rows[i]|
    requires i < y && c < w && rows[i][c] == '#'
    ensures Galaxy(c, i) in Galaxies(rows, w, y)
  {
    var p, q := Galaxies(rows, w, y - 1), RowGalaxies(rows[y - 1], y - 1, w);
    assert p + q == Galaxies(rows, w, y);
    if i < y - 1 {
      GalaxyFound(rows, w, y - 1, i, c);
      assert Galaxy(c, i) in p;
    } else {
      RowGalaxiesComplete(rows[y - 1], y - 1, w, c);
      assert Galaxy(c, i) in q;
    }
  }

  lemma {:induction false} GalaxiesOrdered(rows: seq<string>, w: nat, y: nat)
    requires y <= |rows| && forall i :: 0 <= i < |rows| ==> w <= |rows[i]|
    ensures RowMajor(Galaxies(rows, w, y))
  {
    if y > 0 {
      GalaxiesOrdered(rows, w, y - 1);
      GalaxiesCells(rows, w, y - 1);
      var p, q := Galaxies(rows, w, y - 1), RowGalaxies(rows[y - 1], y - 1, w);
      assert p + q == Galaxies(rows, w, y);
      RowMajorAppend(p, q, y - 1);
    }
  }

  /** The galaxies in row-major order. */
  ghost predicate RowMajor(r: seq<Galaxy>)
  {
    forall k, l :: 0 <= k < l < |r| ==> Before(r[k], r[l])
  }

  /** A row of galaxies, left to right, after galaxies of earlier rows in
      row-major order keeps the order. */
  lemma {:induction false} RowMajorAppend(p: seq<Galaxy>, q: seq<Galaxy>, y: int)
    requires RowMajor(p) && forall g :: g in p ==> g.y < y
    requires forall k :: 0 <= k < |q| ==> q[k].y == y
    requires forall k, l :: 0 <= k < l < |q| ==> q[k].x < q[l].x
    ensures RowMajor(p + q)
  {
    var r := p + q;
    forall k, l | 0 <= k < l < |r| ensures Before(r[k], r[l]) {
      if l < |p| {
        assert r[k] == p[k] && r[l] == p[l];
      } else if k < |p| {
        assert r[k] == p[k] && r[l] == q[l - |p|];
        assert p[k] in p;
      } else {
        assert r[k] == q[k - |p|] && r[l] == q[l - |p|];
      }
    }
  }

  /** The inner loop of `create_galaxies`: the galaxies of one row. */
  method ScanRow(row: string, y: int, width: nat) returns (found: seq<Galaxy>)
    requires width <= |row|
    ensures found == RowGalaxies(row, y, width)
  {
    found := [];
    for column := 0 to width
      invariant found == RowGalaxies(row, y, column)
    {
      if row[column] == '#' {
        found := found + [Galaxy(column, y)];
      }
    }
  }

  /** `create_galaxies`. */
  method CreateGalaxies(rows: seq<string>) returns (galaxies: seq<Galaxy>)
    requires Readable(rows)
    ensures galaxies == Galaxies(rows, |rows[0]|, |rows|)
  {
    var width := |rows[0]|;
    galaxies := [];
    for row := 0 to |rows|
      invariant galaxies == Galaxies(rows, width, row)
    {
      var found := ScanRow(rows[row], row, width);
      galaxies := galaxies + found;
    }
  }

  /** An image with its derived fields. */
  datatype Image = Image(
    rows: seq<string>,
    height: nat,
    width: nat,
    columns: seq<string>,
    emptyRows: seq<int>,
    emptyColumns: seq<int>,
    galaxies: seq<Galaxy>)

  /** `Image.__init__`. */
  method CreateImage(rows: seq<string>) returns (image: Image)
    requires Readable(rows)
    ensures image.rows == rows && image.height == |rows| && image.width == |rows[0]|
    ensures image.columns == Transpose(rows)
    ensures image.emptyRows == EmptyIndices(rows)
    ensures image.emptyColumns == EmptyIndices(Transpose(rows))
    ensures image.galaxies == Galaxies(rows, |rows[0]|, |rows|)
  {
    var columns := CreateInitialColumns(rows);
    var emptyRows := DetermineElementsWithoutGalaxies(rows);
    var emptyColumns := DetermineElementsWithoutGalaxies(columns);
    var galaxies := CreateGalaxies(rows);
    image := Image(rows, |rows|, |rows[0]|, columns, emptyRows, emptyColumns, galaxies);
  }

  /** Empty columns of a readable image are the columns below the width
      with no '#' in any row. */
  lemma {:induction false} EmptyColumnsMeaning(rows: seq<string>, x: int)
    requires Readable(rows)
    ensures x in EmptyIndices(Transpose(rows)) <==>
      0 <= x < |rows[0]| && forall i :: 0 <= i < |rows| ==> rows[i][x] != '#'
  {
    ReadableWidth(rows);
    var t := Transpose(rows);
    if 0 <= x < |rows[0]| && forall i :: 0 <= i < |rows| ==> rows[i][x] != '#' {
      assert '#' !in t[x] by {
        forall k | 0 <= k < |t[x]| ensures t[x][k] != '#' {
          assert t[x][k] == rows[k][x];
        }
      }
    }
    if x in EmptyIndices(t) {
      forall i | 0 <= i < |rows| ensures rows[i][x] != '#' {
        assert t[x][i] == rows[i][x];
      }
    }
  }

  /** The distances from galaxy `i` to galaxies `i + 1 .. j - 1`, in order. */
  function RowDistances(gs: seq<Galaxy>, i: nat, j: nat, horizontalGaps: seq<int>, verticalGaps: seq<int>, factor: int): (r: seq<int>)
    requires i < j <= |gs|
    ensures |r| == j - i - 1
    ensures forall k :: i < k < j ==> r[k - i - 1] == ExpandedDistance(gs[i], gs[k], horizontalGaps, verticalGaps, factor)
  {
    if j == i + 1 then []
    else
      RowDistances(gs, i, j - 1, horizontalGaps, verticalGaps, factor)
        + [ExpandedDistance(gs[i], gs[j - 1], horizontalGaps, verticalGaps, factor)]
  }

  /** The distances of all pairs whose first galaxy is among the first `m`,
      pair `(i, j)` with `i < j` once each, ordered by `i` and then `j`. */
  function PairDistances(gs: seq<Galaxy>, m: nat, horizontalGaps: seq<int>, verticalGaps: seq<int>, factor: int): seq<int>
    requires m <= |gs|
  {
    if m == 0 then []
    else
      PairDistances(gs, m - 1, horizontalGaps, verticalGaps, factor)
        + RowDistances(gs, m - 1, |gs|, horizontalGaps, verticalGaps, factor)
  }

  /** There are `n (n - 1) / 2` pair distances for `n` galaxies. */
  lemma {:induction false} PairDistancesCount(gs: seq<Galaxy>, m: nat, horizontalGaps: seq<int>, verticalGaps: seq<int>, factor: int)
    requires m <= |gs|
    ensures 2 * |PairDistances(gs, m, horizontalGaps, verticalGaps, factor)| == m * (2 * |gs| - m - 1)
  {
    if m > 0 {
      PairDistancesCount(gs, m - 1, horizontalGaps, verticalGaps, factor);
      var front := PairDistances(gs, m - 1, horizontalGaps, verticalGaps, factor);
      var row := RowDistances(gs, m - 1, |gs|, horizontalGaps, verticalGaps, factor);
      assert |front + row| == |front| + (|gs| - m);
      CountStep(m, |gs|, |front|);
    }
  }

  lemma CountStep(m: int, n: int, f: int)
    requires 2 * f == (m - 1) * (2 * n - (m - 1) - 1)
    ensures 2 * (f + (n - m)) == m * (2 * n - m - 1)
  {
  }

  /** Every pair `i < j` contributes its expanded distance. */
  lemma {:induction false} PairDistancesInclude(gs: seq<Galaxy>, m: nat, horizontalGaps: seq<int>, verticalGaps: seq<int>, factor: int, i: nat, j: nat)
    requires m <= |gs| && i < m && i < j < |gs|
    ensures ExpandedDistance(gs[i], gs[j], horizontalGaps, verticalGaps, factor)
      in PairDistances(gs, m, horizontalGaps, verticalGaps, factor)
  {
    var row := RowDistances(gs, m - 1, |gs|, horizontalGaps, verticalGaps, factor);
    if i < m - 1 {
      PairDistancesInclude(gs, m - 1, horizontalGaps, verticalGaps, factor, i, j);
    } else {
      assert row[j - i - 1] == ExpandedDistance(gs[i], gs[j], horizontalGaps, verticalGaps, factor);
    }
  }

  /** `find_distances_between_galaxy_pairs_with_expansion`: the empty
      columns are the horizontal gaps and the empty rows the vertical ones. */
  method FindDistancesBetweenGalaxyPairsWithExpansion(image: Image, factor: int) returns (distances: seq<int>)
    ensures distances == PairDistances(image.galaxies, |image.galaxies|, image.emptyColumns, image.emptyRows, factor)
  {
    var gs := image.galaxies;
    distances := [];
    for index := 0 to |gs|
      invariant distances == PairDistances(gs, index, image.emptyColumns, image.emptyRows, factor)
    {
      distances := AppendRowDistances(gs, index, image.emptyColumns, image.emptyRows, factor, distances);
    }
  }

  /** The inner loop of `find_distances_between_galaxy_pairs_with_expansion`:
      galaxy `index` paired with each later galaxy in turn. */
  method AppendRowDistances(gs: seq<Galaxy>, index: nat, horizontalGaps: seq<int>, verticalGaps: seq<int>, factor: int, before: seq<int>)
    returns (distances: seq<int>)
    requires index < |gs|
    ensures distances == before + RowDistances(gs, index, |gs|, horizontalGaps, verticalGaps, factor)
  {
    distances := before;
    var matchingIndex := index + 1;
    while matchingIndex < |gs|
      invariant index + 1 <= matchingIndex <= |gs|
      invariant distances == before + RowDistances(gs, index, matchingIndex, horizontalGaps, verticalGaps, factor)
      decreases |gs| - matchingIndex
    {
      var distance := CalculateExpandedDistance(gs[index], gs[matchingIndex], horizontalGaps, verticalGaps, factor);
      distances := distances + [distance];
      matchingIndex := matchingIndex + 1;
    }
  }

  /** `calculate_total_distances_with_expansion`. */
  method CalculateTotalDistancesWithExpansion(image: Image, factor: int) returns (total: int)
    ensures total == Sum(PairDistances(image.galaxies, |image.galaxies|, image.emptyColumns, image.emptyRows, factor))
  {
    var distances := FindDistancesBetweenGalaxyPairsWithExpansion(image, factor);
    total := 0;
    for i := 0 to |distances|
      invariant total == Sum(distances[..i])
    {
      assert distances[..i + 1][..i] == distances[..i];
      total := total + distances[i];
    }
    assert distances[..|distances|] == distances;
  }

  /** `solve_problem`: the totals with factors 2 and 1000000. */
  method SolveProblem(rows: seq<string>) returns (part1: int, part2: int)
    requires Readable(rows)
    ensures var gs := Galaxies(rows, |rows[0]|, |rows|);
      var columns, empty := EmptyIndices(Transpose(rows)), EmptyIndices(rows);
      && part1 == Sum(PairDistances(gs, |gs|, columns, empty, 2))
      && part2 == Sum(PairDistances(gs, |gs|, columns, empty, 1000000))
  {
    var image := CreateImage(rows);
    part1 := CalculateTotalDistancesWithExpansion(image, 2);
    part2 := CalculateTotalDistancesWithExpansion(image, 1000000);
  }
}
