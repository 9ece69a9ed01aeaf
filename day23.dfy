/** Day 23: the longest hike across a map of paths ('.'), forest ('#') and
    steep slopes ('>', '<', 'v', '^'), never visiting a tile twice, found
    by a depth-first search over an explicit stack of paths. */
module Day23 {
  import opened Text
  import opened Grids

  /** A Python dict from (column, row) to the tile's character, with the
      order its keys were inserted in. */
  datatype HikingMap = HikingMap(tiles: map<Pos, char>, order: seq<Pos>)

  /** What every dict satisfies: each key is inserted once, and the keys
      are exactly the inserted ones. */
  ghost predicate Ordered(hikingMap: HikingMap)
  {
    && (forall i, j :: 0 <= i < j < |hikingMap.order| ==> hikingMap.order[i] != hikingMap.order[j])
    && (forall p :: p in hikingMap.tiles <==> p in hikingMap.order)
  }

  /** `p` comes before `q` in row-major order. */
  predicate Before(p: Pos, q: Pos)
  {
    p.y < q.y || (p.y == q.y && p.x < q.x)
  }

  /** The keys were inserted row by row, left to right, from row 0 on. */
  ghost predicate RowMajor(order: seq<Pos>)
  {
    && (forall i, j :: 0 <= i < j < |order| ==> Before(order[i], order[j]))
    && (forall i :: 0 <= i < |order| ==> order[i].y >= 0)
  }

  // ---------------------------------------------------------------------
  // create_hiking_map

  /** Every row up to `row` is at least `width` long, and row `row` has
      its first `column` characters. */
  ghost predicate LongEnough(rows: seq<string>, width: nat, row: nat, column: nat)
  {
    && row <= |rows| && column <= width && (row == |rows| ==> column == 0)
    && (forall r :: 0 <= r < row ==> |rows[r]| >= width)
    && (row < |rows| ==> |rows[row]| >= column)
  }

  /** The map once `create_hiking_map` reaches column `column` of row
      `row`: every cell before it, in row-major order. */
  ghost function MapBefore(rows: seq<string>, width: nat, row: nat, column: nat): HikingMap
    requires LongEnough(rows, width, row, column)
    decreases row, column
  {
    if column > 0 then
      var before := MapBefore(rows, width, row, column - 1);
      HikingMap(before.tiles[Pos(column - 1, row) := rows[row][column - 1]], before.order + [Pos(column - 1, row)])
    else if row > 0 then MapBefore(rows, width, row - 1, width)
    else HikingMap(map[], [])
  }

  /** The width `create_hiking_map` reads: that of row 0. */
  function Width(rows: seq<string>): nat
  {
    if rows == [] then 0 else |rows[0]|
  }

  /** The whole map of a grid whose rows are all as long as row 0: a
      well-formed dict, filled in row-major order. */
  ghost function Grid(rows: seq<string>): (m: HikingMap)
    requires Rectangular(rows, Width(rows))
    ensures Ordered(m) && RowMajor(m.order)
  {
    MapBeforeMeaning(rows, Width(rows), |rows|, 0);
    RowMajorDistinct(MapBefore(rows, Width(rows), |rows|, 0).order);
    MapBefore(rows, Width(rows), |rows|, 0)
  }

  /** Keys inserted in row-major order are inserted once each. */
  lemma {:induction false} RowMajorDistinct(order: seq<Pos>)
    requires RowMajor(order)
    ensures forall i, j :: 0 <= i < j < |order| ==> order[i] != order[j]
  {
    forall i, j | 0 <= i < j < |order| ensures order[i] != order[j] {
      assert Before(order[i], order[j]);
    }
  }

  /** `m` holds exactly the cells before `bound`, each with its
      character, inserted in row-major order. */
  ghost predicate Filled(rows: seq<string>, width: nat, bound: Pos, m: HikingMap)
  {
    && (forall p :: p in m.tiles <==> 0 <= p.x < width && 0 <= p.y && Before(p, bound))
    && (forall p :: p in m.tiles ==> p.y < |rows| && p.x < |rows[p.y]| && m.tiles[p] == rows[p.y][p.x])
    && (forall p :: p in m.tiles <==> p in m.order)
    && RowMajor(m.order)
    && (forall i :: 0 <= i < |m.order| ==> Before(m.order[i], bound))
  }

  /** The map so far holds exactly the cells before (`column`, `row`),
      each with its character, inserted in row-major order. */
  lemma {:induction false} MapBeforeMeaning(rows: seq<string>, width: nat, row: nat, column: nat)
    requires LongEnough(rows, width, row, column)
    ensures Filled(rows, width, Pos(column, row), MapBefore(rows, width, row, column))
    decreases row, column
  {
    if column > 0 {
      var before := MapBefore(rows, width, row, column - 1);
      MapBeforeMeaning(rows, width, row, column - 1);
      CellFilled(rows, width, row, column, before);
    } else if row > 0 {
      var before := MapBefore(rows, width, row - 1, width);
      MapBeforeMeaning(rows, width, row - 1, width);
      RowFilled(rows, width, row, before);
    }
  }

  /** One step of `MapBeforeMeaning`: inserting cell (`column` - 1, `row`)
      into the map of the cells before it. */
  lemma CellFilled(rows: seq<string>, width: nat, row: nat, column: nat, before: HikingMap)
    requires LongEnough(rows, width, row, column) && column > 0
    requires Filled(rows, width, Pos(column - 1, row), before)
    ensures var q := Pos(column - 1, row);
      Filled(rows, width, Pos(column, row), HikingMap(before.tiles[q := rows[row][column - 1]], before.order + [q]))
  {
    var q := Pos(column - 1, row);
    CellAppended(before.order, q);
  }

  /** The cells before the end of a row of `width` cells are the cells
      before the start of the next row. */
  lemma RowFilled(rows: seq<string>, width: nat, row: nat, m: HikingMap)
    requires 0 < row
    requires Filled(rows, width, Pos(width, row - 1), m)
    ensures Filled(rows, width, Pos(0, row), m)
  {
    forall p ensures Before(p, Pos(width, row - 1)) && 0 <= p.x < width <==> Before(p, Pos(0, row)) && 0 <= p.x < width {
    }
  }

  /** Inserting a cell after every key in row-major order keeps the order
      row-major. */
  lemma CellAppended(order: seq<Pos>, q: Pos)
    requires q.y >= 0
    requires RowMajor(order)
    requires forall i :: 0 <= i < |order| ==> Before(order[i], q)
    ensures RowMajor(order + [q])
  {
    var longer := order + [q];
    forall i, j | 0 <= i < j < |longer| ensures Before(longer[i], longer[j]) {
      if j < |order| {
        assert longer[i] == order[i] && longer[j] == order[j];
      }
    }
  }

  /** The grid's map has an entry for each cell, holding its character. */
  lemma {:induction false} GridMeaning(rows: seq<string>)
    requires Rectangular(rows, Width(rows))
    ensures forall p :: p in Grid(rows).tiles <==> 0 <= p.x < Width(rows) && 0 <= p.y < |rows|
    ensures forall p :: p in Grid(rows).tiles ==> Grid(rows).tiles[p] == rows[p.y][p.x]
  {
    MapBeforeMeaning(rows, Width(rows), |rows|, 0);
  }

  /** `create_hiking_map`: one entry per cell, reading `len(rows[0])`
      characters of every row; `None` is the IndexError of a row shorter
      than the first. */
  method CreateHikingMap(rows: seq<string>) returns (hikingMap: Option<HikingMap>)
    ensures hikingMap.None? <==> !Rectangular(rows, Width(rows))
    ensures hikingMap.Some? ==> Rectangular(rows, Width(rows)) && hikingMap.value == Grid(rows)
  {
    var width := Width(rows);
    var built := HikingMap(map[], []);
    for row := 0 to |rows|
      invariant LongEnough(rows, width, row, 0)
      invariant built == MapBefore(rows, width, row, 0)
    {
      for column := 0 to width
        invariant LongEnough(rows, width, row, column)
        invariant built == MapBefore(rows, width, row, column)
      {
        if column >= |rows[row]| {
          return None;
        }
        built := HikingMap(built.tiles[Pos(column, row) := rows[row][column]], built.order + [Pos(column, row)]);
      }
    }
    return Some(built);
  }

  // ---------------------------------------------------------------------
  // find_traversable_neighbors

  /** A step from `p` to the adjacent `n` is allowed: `n` is on the map,
      is not forest, and is not a slope pointing back against the step. */
  predicate Traversable(tiles: map<Pos, char>, p: Pos, n: Pos)
  {
    && n in tiles && tiles[n] != '#'
    && ((n.x < p.x && tiles[n] != '>') || (n.x > p.x && tiles[n] != '<')
        || (n.y < p.y && tiles[n] != 'v') || (n.y > p.y && tiles[n] != '^'))
  }

  /** The four neighbours, in the order right, left, down, up. */
  function Around(p: Pos): (r: seq<Pos>)
    ensures |r| == 4
  {
    [Pos(p.x + 1, p.y), Pos(p.x - 1, p.y), Pos(p.x, p.y + 1), Pos(p.x, p.y - 1)]
  }

  /** The positions among `candidates`, in their order, that a step from
      `p` may enter. */
  function Steps(tiles: map<Pos, char>, p: Pos, candidates: seq<Pos>): (r: seq<Pos>)
    ensures forall n :: n in r <==> n in candidates && Traversable(tiles, p, n)
  {
    if candidates == [] then []
    else
      var last := candidates[|candidates| - 1];
      Steps(tiles, p, candidates[..|candidates| - 1]) + (if Traversable(tiles, p, last) then [last] else [])
  }

  /** For a step in one direction only one comparison of the slope rule
      holds: moving left onto '>', right onto '<', up onto 'v' or down
      onto '^' is refused, and any other open tile may be entered. */
  lemma {:induction false} SlopeRule(tiles: map<Pos, char>, p: Pos, i: nat)
    requires i < 4
    ensures var n := Around(p)[i];
      Traversable(tiles, p, n) <==>
        n in tiles && tiles[n] != '#' && tiles[n] != ['<', '>', '^', 'v'][i]
  {
  }

  /** `find_traversable_neighbors`. */
  method FindTraversableNeighbors(position: Pos, hikingMap: HikingMap) returns (neighbors: seq<Pos>)
    ensures neighbors == Steps(hikingMap.tiles, position, Around(position))
  {
    var tiles := hikingMap.tiles;
    var candidates := Around(position);
    neighbors := [];
    for i := 0 to 4
      invariant neighbors == Steps(tiles, position, candidates[..i])
    {
      var next := candidates[i];
      assert candidates[..i + 1] == candidates[..i] + [next];
      if next in tiles && tiles[next] != '#' {
        var c := tiles[next];
        if (next.x < position.x && c != '>') || (next.x > position.x && c != '<')
          || (next.y < position.y && c != 'v') || (next.y > position.y && c != '^')
        {
          neighbors := neighbors + [next];
        }
      }
    }
    assert candidates[..4] == candidates;
  }

  // ---------------------------------------------------------------------
  // find_start_and_end

  /** The state of the scan of `find_start_and_end`: the start and end
      found so far, and the largest row met. */
  datatype Scan = Scan(start: Option<Pos>, end: Option<Pos>, maxY: int)

  /** The scan after the first `n` entries of the map, in insertion
      order: the start is replaced by every '.' in row 0, and the end by
      every '.' in the largest row met so far. */
  ghost function Scanned(hikingMap: HikingMap, n: nat): Scan
    requires Ordered(hikingMap) && n <= |hikingMap.order|
  {
    if n == 0 then Scan(None, None, 0)
    else
      var before := Scanned(hikingMap, n - 1);
      var k := hikingMap.order[n - 1];
      var v := hikingMap.tiles[k];
      var maxY := if k.y > before.maxY then k.y else before.maxY;
      Scan(if k.y == 0 && v == '.' then Some(k) else before.start,
           if k.y == maxY && v == '.' then Some(k) else before.end,
           maxY)
  }

  /** `p` is a '.' tile, in row 0 when `topRow` is set. */
  predicate Marked(tiles: map<Pos, char>, topRow: bool, p: Pos)
  {
    p in tiles && tiles[p] == '.' && (topRow ==> p.y == 0)
  }

  /** `found` is the last of the first `n` keys of `order` that is
      marked, or `None` when none is. */
  ghost predicate LastMarked(tiles: map<Pos, char>, topRow: bool, order: seq<Pos>, n: nat, found: Option<Pos>)
    requires n <= |order|
  {
    match found
    case None => forall i :: 0 <= i < n ==> !Marked(tiles, topRow, order[i])
    case Some(s) =>
      exists i :: 0 <= i < n && order[i] == s && Marked(tiles, topRow, s)
                  && forall j :: i < j < n ==> !Marked(tiles, topRow, order[j])
  }

  /** The start is the last '.' of row 0 in insertion order. */
  lemma {:induction false} ScannedStart(hikingMap: HikingMap, n: nat)
    requires Ordered(hikingMap) && n <= |hikingMap.order|
    ensures LastMarked(hikingMap.tiles, true, hikingMap.order, n, Scanned(hikingMap, n).start)
  {
    if n > 0 {
      ScannedStart(hikingMap, n - 1);
      var k := hikingMap.order[n - 1];
      if Marked(hikingMap.tiles, true, k) {
        assert Scanned(hikingMap, n).start == Some(k);
      } else {
        assert Scanned(hikingMap, n).start == Scanned(hikingMap, n - 1).start;
      }
      LastMarkedStep(hikingMap.tiles, true, hikingMap.order, n, Scanned(hikingMap, n - 1).start);
    }
  }

  /** Scanning one more key: it becomes the last marked one when it is
      marked, and otherwise the last marked one stays. */
  lemma LastMarkedStep(tiles: map<Pos, char>, topRow: bool, order: seq<Pos>, n: nat, found: Option<Pos>)
    requires 0 < n <= |order|
    requires LastMarked(tiles, topRow, order, n - 1, found)
    ensures LastMarked(tiles, topRow, order, n, if Marked(tiles, topRow, order[n - 1]) then Some(order[n - 1]) else found)
  {
    if !Marked(tiles, topRow, order[n - 1]) && found.Some? {
      var i :| 0 <= i < n - 1 && order[i] == found.value && Marked(tiles, topRow, found.value)
               && forall j :: i < j < n - 1 ==> !Marked(tiles, topRow, order[j]);
      assert forall j :: i < j < n ==> !Marked(tiles, topRow, order[j]);
    }
  }

  /** In row-major order the largest row met is the current one. */
  lemma {:induction false} ScannedRow(hikingMap: HikingMap, n: nat)
    requires Ordered(hikingMap) && 0 < n <= |hikingMap.order| && RowMajor(hikingMap.order)
    ensures Scanned(hikingMap, n).maxY == hikingMap.order[n - 1].y
  {
    if n > 1 {
      ScannedRow(hikingMap, n - 1);
      assert Before(hikingMap.order[n - 2], hikingMap.order[n - 1]);
    }
  }

  /** So in row-major order the end is the last '.' of the whole map: the
      last '.' of the bottom row when that row has one. */
  lemma {:induction false} ScannedEnd(hikingMap: HikingMap, n: nat)
    requires Ordered(hikingMap) && n <= |hikingMap.order| && RowMajor(hikingMap.order)
    ensures LastMarked(hikingMap.tiles, false, hikingMap.order, n, Scanned(hikingMap, n).end)
  {
    if n > 0 {
      ScannedEnd(hikingMap, n - 1);
      ScannedRow(hikingMap, n);
      var k := hikingMap.order[n - 1];
      if Marked(hikingMap.tiles, false, k) {
        assert Scanned(hikingMap, n).end == Some(k);
      } else {
        assert Scanned(hikingMap, n).end == Scanned(hikingMap, n - 1).end;
      }
      LastMarkedStep(hikingMap.tiles, false, hikingMap.order, n, Scanned(hikingMap, n - 1).end);
    }
  }

  /** `find_start_and_end`, over the entries in insertion order. */
  method FindStartAndEnd(hikingMap: HikingMap) returns (startAndEnd: Scan)
    requires Ordered(hikingMap)
    ensures startAndEnd == Scanned(hikingMap, |hikingMap.order|)
  {
    startAndEnd := Scan(None, None, 0);
    for i := 0 to |hikingMap.order|
      invariant startAndEnd == Scanned(hikingMap, i)
    {
      var k := hikingMap.order[i];
      assert k in hikingMap.tiles;
      var v := hikingMap.tiles[k];
      var y := k.y;
      if y > startAndEnd.maxY {
        startAndEnd := startAndEnd.(maxY := y);
      }
      if y == 0 && v == '.' {
        startAndEnd := startAndEnd.(start := Some(k));
      }
      if y == startAndEnd.maxY && v == '.' {
        startAndEnd := startAndEnd.(end := Some(k));
      }
    }
  }

  // ---------------------------------------------------------------------
  // determine_longest_path_length

  /** A hike: it begins at `start`, never repeats a position, and takes
      only allowed steps to a neighbour. */
  ghost predicate Hike(tiles: map<Pos, char>, start: Pos, path: seq<Pos>)
  {
    && |path| > 0 && path[0] == start
    && (forall i, j :: 0 <= i < j < |path| ==> path[i] != path[j])
    && (forall i :: 0 <= i < |path| - 1 ==> path[i + 1] in Around(path[i]) && Traversable(tiles, path[i], path[i + 1]))
  }

  /** A hike that ends at `end`. */
  ghost predicate Finished(tiles: map<Pos, char>, start: Pos, end: Pos, path: seq<Pos>)
  {
    Hike(tiles, start, path) && path[|path| - 1] == end
  }

  /** The largest of a non-empty list: `sorted(values)[-1]`. */
  function Largest(values: seq<int>): (r: int)
    requires |values| > 0
    ensures r in values && forall v :: v in values ==> v <= r
  {
    if |values| == 1 then values[0]
    else
      var front := Largest(values[..|values| - 1]);
      var last := values[|values| - 1];
      assert values == values[..|values| - 1] + [last];
      if last > front then last else front
  }

  /** What `determine_longest_path_length` ends with. */
  datatype Outcome<T> = Done(value: T) | KeyError | IndexError | OutOfFuel

  /** `path` followed by one of `neighbors` that is not yet on it. */
  ghost predicate ExtensionOf(path: seq<Pos>, neighbors: seq<Pos>, longer: seq<Pos>)
  {
    |longer| == |path| + 1 && longer[..|path|] == path
    && longer[|path|] in neighbors && longer[|path|] !in path
  }

  /** The stack with the extension of `path` by each of `neighbors` not
      yet on it pushed, in order. */
  function Pushed(stack: seq<seq<Pos>>, path: seq<Pos>, neighbors: seq<Pos>): (r: seq<seq<Pos>>)
    ensures |stack| <= |r| && r[..|stack|] == stack
    ensures forall n :: n in neighbors && n !in path ==> path + [n] in r[|stack|..]
    ensures forall i :: |stack| <= i < |r| ==> ExtensionOf(path, neighbors, r[i])
  {
    if neighbors == [] then stack
    else
      var front := Pushed(stack, path, neighbors[..|neighbors| - 1]);
      var n := neighbors[|neighbors| - 1];
      assert forall m :: m in neighbors ==> m in neighbors[..|neighbors| - 1] || m == n;
      assert (path + [n])[..|path|] == path;
      if n in path then front
      else
        assert (front + [path + [n]])[|stack|..] == front[|stack|..] + [path + [n]];
        front + [path + [n]]
  }

  /** Every hike to the end that has a pushed or recorded prefix, or whose
      length is recorded. */
  ghost predicate Covered(path: seq<Pos>, stack: seq<seq<Pos>>, lengths: seq<int>)
  {
    (|path| - 1) in lengths || Pending(path, stack)
  }

  /** Some path on the stack is a prefix of `path`. */
  ghost predicate Pending(path: seq<Pos>, stack: seq<seq<Pos>>)
  {
    exists i :: 0 <= i < |stack| && stack[i] <= path
  }

  /** A hike to the end with a prefix ending at the end is that prefix. */
  lemma {:induction false} EndsOnce(tiles: map<Pos, char>, start: Pos, end: Pos, prefix: seq<Pos>, path: seq<Pos>)
    requires Finished(tiles, start, end, path) && prefix <= path && |prefix| > 0 && prefix[|prefix| - 1] == end
    ensures prefix == path
  {
  }

  /** A hike that goes past a prefix continues with an allowed step to a
      position not on the prefix. */
  lemma {:induction false} NextStep(tiles: map<Pos, char>, start: Pos, prefix: seq<Pos>, path: seq<Pos>)
    requires Hike(tiles, start, path) && prefix <= path && 0 < |prefix| < |path|
    ensures path[|prefix|] in Around(prefix[|prefix| - 1])
    ensures Traversable(tiles, prefix[|prefix| - 1], path[|prefix|])
    ensures path[|prefix|] !in prefix
    ensures prefix + [path[|prefix|]] <= path
  {
    assert path[|prefix| - 1] == prefix[|prefix| - 1];
    assert forall i :: 0 <= i < |prefix| ==> prefix[i] == path[i];
    assert (prefix + [path[|prefix|]]) == path[..|prefix| + 1];
  }

  /** A hike extended by an allowed step to a new position is a hike. */
  lemma {:induction false} Extend(tiles: map<Pos, char>, start: Pos, path: seq<Pos>, n: Pos)
    requires Hike(tiles, start, path) && n !in path
    requires n in Around(path[|path| - 1]) && Traversable(tiles, path[|path| - 1], n)
    ensures Hike(tiles, start, path + [n])
  {
    var longer := path + [n];
    forall i, j | 0 <= i < j < |longer| ensures longer[i] != longer[j] {
      if j == |path| {
        assert longer[i] == path[i];
      }
    }
  }

  /** The state of the search: every path on the stack is a hike, every
      recorded length is that of a finished hike, and every finished hike
      is recorded or has a prefix on the stack. */
  ghost predicate Searching(tiles: map<Pos, char>, start: Pos, end: Pos,
                            stack: seq<seq<Pos>>, lengths: seq<int>, finished: seq<seq<Pos>>)
  {
    && (forall i :: 0 <= i < |stack| ==> Hike(tiles, start, stack[i]))
    && |finished| == |lengths|
    && (forall i :: 0 <= i < |lengths| ==> Finished(tiles, start, end, finished[i]) && lengths[i] == |finished[i]| - 1)
    && (forall path :: Finished(tiles, start, end, path) ==> Covered(path, stack, lengths))
  }

  /** Popping a path that ends at the end and recording its length keeps
      the search state. */
  lemma {:induction false} RecordKeeps(tiles: map<Pos, char>, start: Pos, end: Pos,
                    stack: seq<seq<Pos>>, lengths: seq<int>, finished: seq<seq<Pos>>)
    requires Searching(tiles, start, end, stack, lengths, finished)
    requires |stack| > 0 && stack[|stack| - 1][|stack[|stack| - 1]| - 1] == end
    ensures var path := stack[|stack| - 1];
      Searching(tiles, start, end, stack[..|stack| - 1], lengths + [|path| - 1], finished + [path])
  {
    var path := stack[|stack| - 1];
    var rest := stack[..|stack| - 1];
    var lengths' := lengths + [|path| - 1];
    forall hike | Finished(tiles, start, end, hike) ensures Covered(hike, rest, lengths') {
      if (|hike| - 1) !in lengths {
        var i :| 0 <= i < |stack| && stack[i] <= hike;
        if i == |stack| - 1 {
          EndsOnce(tiles, start, end, path, hike);
        } else {
          assert rest[i] == stack[i];
        }
      }
    }
  }

  /** Pushing allowed extensions of a hike pushes hikes. */
  lemma {:induction false} PushedHikes(tiles: map<Pos, char>, start: Pos, rest: seq<seq<Pos>>, path: seq<Pos>)
    requires forall i :: 0 <= i < |rest| ==> Hike(tiles, start, rest[i])
    requires Hike(tiles, start, path)
    ensures var last := path[|path| - 1];
      var next := Pushed(rest, path, Steps(tiles, last, Around(last)));
      forall i :: 0 <= i < |next| ==> Hike(tiles, start, next[i])
  {
    var last := path[|path| - 1];
    var neighbors := Steps(tiles, last, Around(last));
    var next := Pushed(rest, path, neighbors);
    forall i | 0 <= i < |next| ensures Hike(tiles, start, next[i]) {
      if i < |rest| {
        assert next[i] == next[..|rest|][i];
      } else {
        var n := next[i][|path|];
        assert next[i] == path + [n];
        Extend(tiles, start, path, n);
      }
    }
  }

  /** A finished hike that had the popped path as a prefix, when that path
      does not end at the end, has one of the pushed extensions as a
      prefix. */
  lemma {:induction false} PushedCovers(tiles: map<Pos, char>, start: Pos, end: Pos, rest: seq<seq<Pos>>, path: seq<Pos>, hike: seq<Pos>)
    requires Hike(tiles, start, path) && path[|path| - 1] != end
    requires Finished(tiles, start, end, hike) && path <= hike
    ensures var last := path[|path| - 1];
      var next := Pushed(rest, path, Steps(tiles, last, Around(last)));
      Pending(hike, next)
  {
    var last := path[|path| - 1];
    var next := Pushed(rest, path, Steps(tiles, last, Around(last)));
    NextStep(tiles, start, path, hike);
    var n := hike[|path|];
    assert n in Around(last);
    assert path + [n] in next[|rest|..];
    var k :| 0 <= k < |next[|rest|..]| && next[|rest|..][k] == path + [n];
    var i := |rest| + k;
    assert 0 <= i < |next| && next[i] <= hike;
  }

  /** Popping a path that does not end at the end and pushing its allowed
      extensions keeps the search state. */
  lemma {:induction false} ExtendKeeps(tiles: map<Pos, char>, start: Pos, end: Pos,
                    stack: seq<seq<Pos>>, lengths: seq<int>, finished: seq<seq<Pos>>)
    requires Searching(tiles, start, end, stack, lengths, finished)
    requires |stack| > 0 && stack[|stack| - 1][|stack[|stack| - 1]| - 1] != end
    ensures var path := stack[|stack| - 1];
      var neighbors := Steps(tiles, path[|path| - 1], Around(path[|path| - 1]));
      Searching(tiles, start, end, Pushed(stack[..|stack| - 1], path, neighbors), lengths, finished)
  {
    var path := stack[|stack| - 1];
    var rest := stack[..|stack| - 1];
    var last := path[|path| - 1];
    var next := Pushed(rest, path, Steps(tiles, last, Around(last)));
    PushedHikes(tiles, start, rest, path);
    forall hike | Finished(tiles, start, end, hike) ensures Covered(hike, next, lengths) {
      if (|hike| - 1) !in lengths {
        var i :| 0 <= i < |stack| && stack[i] <= hike;
        if i == |stack| - 1 {
          PushedCovers(tiles, start, end, rest, path, hike);
        } else {
          assert next[i] == next[..|rest|][i] == rest[i];
        }
      }
    }
  }

  /** When the stack is empty every finished hike has its length
      recorded. */
  lemma {:induction false} SearchDone(tiles: map<Pos, char>, start: Pos, end: Pos, lengths: seq<int>, finished: seq<seq<Pos>>, path: seq<Pos>)
    requires Searching(tiles, start, end, [], lengths, finished)
    requires Finished(tiles, start, end, path)
    ensures (|path| - 1) in lengths
  {
  }

  /** `determine_longest_path_length`, with at most `fuel` paths popped:
      the length of the longest hike from the start to the end. A missing
      start or end is the KeyError of the lookup, and no hike reaching the
      end is the IndexError of `sorted([])[-1]`. */
  method DetermineLongestPathLength(hikingMap: HikingMap, fuel: nat) returns (result: Outcome<int>)
    requires Ordered(hikingMap)
    ensures var ends := Scanned(hikingMap, |hikingMap.order|);
      result.KeyError? <==> ends.start.None? || ends.end.None?
    ensures var ends := Scanned(hikingMap, |hikingMap.order|);
      result.Done? ==>
        && (exists path :: Finished(hikingMap.tiles, ends.start.value, ends.end.value, path) && |path| - 1 == result.value)
        && (forall path :: Finished(hikingMap.tiles, ends.start.value, ends.end.value, path) ==> |path| - 1 <= result.value)
    ensures var ends := Scanned(hikingMap, |hikingMap.order|);
      result.IndexError? ==> forall path :: !Finished(hikingMap.tiles, ends.start.value, ends.end.value, path)
  {
    var startAndEnd := FindStartAndEnd(hikingMap);
    if startAndEnd.start.None? || startAndEnd.end.None? {
      return KeyError;
    }
    var start := startAndEnd.start.value;
    var end := startAndEnd.end.value;
    var tiles := hikingMap.tiles;
    var pathLengths: seq<int> := [];
    ghost var finished: seq<seq<Pos>> := [];
    var stack: seq<seq<Pos>> := [[start]];
    var remaining := fuel;
    forall path | Finished(tiles, start, end, path) ensures Covered(path, stack, pathLengths) {
      assert stack[0] <= path;
    }
    while |stack| > 0
      invariant Searching(tiles, start, end, stack, pathLengths, finished)
      decreases remaining
    {
      if remaining == 0 {
        return OutOfFuel;
      }
      remaining := remaining - 1;
      var path := stack[|stack| - 1];
      var currentLocation := path[|path| - 1];
      if currentLocation == end {
        RecordKeeps(tiles, start, end, stack, pathLengths, finished);
        stack := stack[..|stack| - 1];
        pathLengths := pathLengths + [|path| - 1];
        finished := finished + [path];
      } else {
        ExtendKeeps(tiles, start, end, stack, pathLengths, finished);
        var neighbors := FindTraversableNeighbors(currentLocation, hikingMap);
        stack := PushPaths(stack[..|stack| - 1], path, neighbors);
      }
    }
    if pathLengths == [] {
      forall path | Finished(tiles, start, end, path) ensures false {
        SearchDone(tiles, start, end, pathLengths, finished, path);
      }
      return IndexError;
    }
    var longest := Largest(pathLengths);
    forall path | Finished(tiles, start, end, path) ensures |path| - 1 <= longest {
      SearchDone(tiles, start, end, pathLengths, finished, path);
    }
    var k :| 0 <= k < |pathLengths| && pathLengths[k] == longest;
    assert Finished(tiles, start, end, finished[k]);
    return Done(longest);
  }

  /** The inner loop of `determine_longest_path_length`: each neighbour
      not on the path is pushed as the path extended by it. */
  method PushPaths(stack: seq<seq<Pos>>, path: seq<Pos>, neighbors: seq<Pos>) returns (pushed: seq<seq<Pos>>)
    ensures pushed == Pushed(stack, path, neighbors)
  {
    pushed := stack;
    for i := 0 to |neighbors|
      invariant pushed == Pushed(stack, path, neighbors[..i])
    {
      assert neighbors[..i + 1][..i] == neighbors[..i];
      var neighbor := neighbors[i];
      if neighbor !in path {
        pushed := pushed + [path + [neighbor]];
      }
    }
    assert neighbors[..|neighbors|] == neighbors;
  }

  /** On the grid of the puzzle the start is the last '.' of the top row
      and the end the last '.' of the whole grid, in row-major order. */
  lemma {:induction false} GridEnds(rows: seq<string>)
    requires Rectangular(rows, Width(rows))
    ensures var m := Grid(rows);
      LastMarked(m.tiles, true, m.order, |m.order|, Scanned(m, |m.order|).start)
    ensures var m := Grid(rows);
      LastMarked(m.tiles, false, m.order, |m.order|, Scanned(m, |m.order|).end)
  {
    var m := Grid(rows);
    ScannedStart(m, |m.order|);
    ScannedEnd(m, |m.order|);
  }

  /** Part 1 of `solve_problem`: the map of the lines, then its longest
      hike; a row shorter than the first is an IndexError. */
  method SolveProblem(rows: seq<string>, fuel: nat) returns (part1: Outcome<int>)
    ensures !Rectangular(rows, Width(rows)) ==> part1.IndexError?
    ensures Rectangular(rows, Width(rows)) ==>
      var m := Grid(rows);
      var ends := Scanned(m, |m.order|);
      && (part1.KeyError? <==> ends.start.None? || ends.end.None?)
      && (part1.Done? ==>
          && (exists path :: Finished(m.tiles, ends.start.value, ends.end.value, path) && |path| - 1 == part1.value)
          && (forall path :: Finished(m.tiles, ends.start.value, ends.end.value, path) ==> |path| - 1 <= part1.value))
      && (part1.IndexError? ==> forall path :: !Finished(m.tiles, ends.start.value, ends.end.value, path))
  {
    var hikingMap := CreateHikingMap(rows);
    if hikingMap.None? {
      return IndexError;
    }
    part1 := DetermineLongestPathLength(hikingMap.value, fuel);
  }
}
