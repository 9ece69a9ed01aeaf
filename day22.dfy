/** Day 22: bricks given by two corner coordinates "x,y,z~x,y,z". Each brick
    lies along one axis (its orientation) and has a length along it. The
    stack sorts the bricks by starting height, measures the space they take
    and marks the points they occupy. */
module Day22 {
  import opened Text

  /** `Brick`: the two ends, the axis it lies along and its length there. */
  datatype Brick = Brick(start: seq<int>, end: seq<int>, orientation: nat, length: int)

  // ---------------------------------------------------------------------
  // One brick

  /** `create_coordinates`: the integers of the comma-separated pieces;
      `None` is the ValueError of a piece that is not an integer. */
  function ParseCoordinates(description: string): (r: Option<seq<int>>)
    ensures r.Some? ==> |r.value| == |Split(description, ",")| >= 1
  {
    ParseInts(Split(description, ","))
  }

  /** Writing three integers with commas and reading them back gives the
      same triple. */
  lemma {:induction false} ParseCoordinatesTriple(x: int, y: int, z: int)
    ensures ParseCoordinates(IntToString(x) + "," + IntToString(y) + "," + IntToString(z)) == Some([x, y, z])
  {
    SplitTriple(x, y, z);
    ParseTriple(x, y, z);
  }

  lemma {:induction false} SplitTriple(x: int, y: int, z: int)
    ensures var sx, sy, sz := IntToString(x), IntToString(y), IntToString(z);
      Split(sx + "," + sy + "," + sz, ",") == [sx, sy, sz]
  {
    var sx, sy, sz := IntToString(x), IntToString(y), IntToString(z);
    NoComma(x);
    NoComma(y);
    NoComma(z);
    assert sx + "," + sy + "," + sz == sx + "," + (sy + "," + sz);
    SplitFirst(sx, ",", sy + "," + sz);
    SplitFirst(sy, ",", sz);
    SplitAbsent(sz, ",", 0);
  }

  lemma {:induction false} ParseTriple(x: int, y: int, z: int)
    ensures ParseInts([IntToString(x), IntToString(y), IntToString(z)]) == Some([x, y, z])
  {
    var sx, sy, sz := IntToString(x), IntToString(y), IntToString(z);
    ParseIntRoundTrip(x);
    ParseIntRoundTrip(y);
    ParseIntRoundTrip(z);
    ParseIntsCons(sz, []);
    assert [sz] + [] == [sz] && [z] + [] == [z];
    assert ParseInts([]) == Some([]);
    assert ParseInt(sz) == Some(z);
    assert ParseInts([sz]) == Some([z]);
    ParseIntsCons(sy, [sz]);
    assert [sy] + [sz] == [sy, sz] && [y] + [z] == [y, z];
    assert ParseInts([sy, sz]) == Some([y, z]);
    ParseIntsCons(sx, [sy, sz]);
    assert [sx] + [sy, sz] == [sx, sy, sz] && [x] + [y, z] == [x, y, z];
  }

  lemma {:induction false} NoComma(value: int)
    ensures ',' !in IntToString(value)
  {
    var digits := NatToString(if value < 0 then -value else value);
    assert forall i :: 0 <= i < |digits| ==> IsDigit(digits[i]);
  }

  /** The largest axis below `n` along which `end` exceeds `start`, or 0
      when there is none. */
  function LastRise(start: seq<int>, end: seq<int>, n: nat): (r: nat)
    requires n <= |start| && n <= |end|
    ensures r == 0 || r < n
    ensures r < n ==> (end[r] > start[r] || r == 0)
    ensures (exists i :: 0 <= i < n && end[i] > start[i]) ==> r < n && end[r] > start[r]
    ensures forall i :: r < i < n ==> end[i] <= start[i]
  {
    if n == 0 then 0
    else if end[n - 1] > start[n - 1] then n - 1
    else LastRise(start, end, n - 1)
  }

  /** `determine_orientation`: the index loop keeps the last axis seen to
      rise; `None` is the IndexError of an end shorter than the start. */
  method DetermineOrientation(start: seq<int>, end: seq<int>) returns (orientation: Option<nat>)
    ensures orientation.None? <==> |end| < |start|
    ensures orientation.Some? ==> orientation.value == LastRise(start, end, |start|)
  {
    var found := 0;
    for index := 0 to |start|
      invariant index <= |end| && found == LastRise(start, end, index)
    {
      if index >= |end| {
        return None;
      }
      if end[index] > start[index] {
        found := index;
      }
    }
    return Some(found);
  }

  /** `Brick.__init__`: the text split at "~" into the two ends. `None` is
      the IndexError of a missing "~", of an end shorter than the start, or
      the ValueError of a coordinate that is not an integer. */
  function ParseBrick(snapshot: string): (r: Option<Brick>)
    ensures r.Some? ==> |r.value.start| >= 1 && |r.value.start| <= |r.value.end|
    ensures r.Some? ==> r.value.orientation == LastRise(r.value.start, r.value.end, |r.value.start|)
    ensures r.Some? ==> r.value.length == r.value.end[r.value.orientation] - r.value.start[r.value.orientation]
  {
    var ends := Split(snapshot, "~");
    if |ends| < 2 then None
    else match (ParseCoordinates(ends[0]), ParseCoordinates(ends[1]))
      case (Some(start), Some(end)) =>
        if |end| < |start| then None
        else
          var orientation := LastRise(start, end, |start|);
          Some(Brick(start, end, orientation, end[orientation] - start[orientation]))
      case _ => None
  }

  /** `Brick.__init__` run on one snapshot. */
  method NewBrick(snapshot: string) returns (brick: Option<Brick>)
    ensures brick == ParseBrick(snapshot)
  {
    var ends := Split(snapshot, "~");
    if |ends| < 2 {
      return None;
    }
    var start := ParseCoordinates(ends[0]);
    var end := ParseCoordinates(ends[1]);
    if start.None? || end.None? {
      return None;
    }
    var orientation := DetermineOrientation(start.value, end.value);
    if orientation.None? {
      return None;
    }
    var length := end.value[orientation.value] - start.value[orientation.value];
    return Some(Brick(start.value, end.value, orientation.value, length));
  }

  /** A brick that rises along some axis lies along such an axis and has a
      positive length; one that rises along none lies along axis 0. */
  lemma {:induction false} LengthPositive(snapshot: string)
    requires ParseBrick(snapshot).Some?
    ensures var b := ParseBrick(snapshot).value;
      (exists i :: 0 <= i < |b.start| && b.end[i] > b.start[i]) <==> b.length > 0
    ensures var b := ParseBrick(snapshot).value;
      (forall i :: 0 <= i < |b.start| ==> b.end[i] <= b.start[i]) ==> b.orientation == 0
  {
  }

  // ---------------------------------------------------------------------
  // Sorting by starting height

  /** The height a brick starts at, which `create_bricks` sorts by. */
  function Height(brick: Brick): int
    requires |brick.start| >= 3
  {
    brick.start[2]
  }

  predicate AllHigh(bricks: seq<Brick>)
  {
    forall i :: 0 <= i < |bricks| ==> |bricks[i].start| >= 3
  }

  predicate SortedByHeight(bricks: seq<Brick>)
    requires AllHigh(bricks)
  {
    forall i, j :: 0 <= i < j < |bricks| ==> Height(bricks[i]) <= Height(bricks[j])
  }

  /** Inserts `brick` after every brick at the end whose height is at most
      its own: where a stable sort places an element that came after them. */
  function InsertBrick(brick: Brick, bricks: seq<Brick>): (r: seq<Brick>)
    requires |brick.start| >= 3 && AllHigh(bricks)
    ensures AllHigh(r) && multiset(r) == multiset(bricks) + multiset{brick}
  {
    if bricks == [] || Height(bricks[|bricks| - 1]) <= Height(brick) then bricks + [brick]
    else
      var n := |bricks| - 1;
      assert bricks == bricks[..n] + [bricks[n]];
      InsertBrick(brick, bricks[..n]) + [bricks[n]]
  }

  /** `sorted(..., key=lambda x: x.start[2])`, as a stable insertion sort. */
  function SortBricks(bricks: seq<Brick>): (r: seq<Brick>)
    requires AllHigh(bricks)
    ensures AllHigh(r) && multiset(r) == multiset(bricks)
  {
    if bricks == [] then []
    else
      var n := |bricks| - 1;
      assert bricks == bricks[..n] + [bricks[n]];
      InsertBrick(bricks[n], SortBricks(bricks[..n]))
  }

  lemma {:induction false} InsertBrickSorted(brick: Brick, bricks: seq<Brick>)
    requires |brick.start| >= 3 && AllHigh(bricks) && SortedByHeight(bricks)
    ensures SortedByHeight(InsertBrick(brick, bricks))
  {
    if bricks != [] && Height(bricks[|bricks| - 1]) > Height(brick) {
      var n := |bricks| - 1;
      var last, front := bricks[n], bricks[..n];
      InsertBrickSorted(brick, front);
      var rest := InsertBrick(brick, front);
      assert forall j :: 0 <= j < |front| ==> Height(front[j]) <= Height(last);
      NotAbove(brick, front, rest, Height(last));
      var r := InsertBrick(brick, bricks);
      assert r == rest + [last];
      forall i, j | 0 <= i < j < |r| ensures Height(r[i]) <= Height(r[j]) {
        if j < |rest| {
          assert r[i] == rest[i] && r[j] == rest[j];
        } else {
          assert r[i] == rest[i];
        }
      }
    }
  }

  /** Bricks drawn from `front` and `brick`, none above `top`, are none
      above `top`. */
  lemma NotAbove(brick: Brick, front: seq<Brick>, rest: seq<Brick>, top: int)
    requires |brick.start| >= 3 && AllHigh(front) && AllHigh(rest)
    requires multiset(rest) == multiset(front) + multiset{brick}
    requires Height(brick) <= top
    requires forall j :: 0 <= j < |front| ==> Height(front[j]) <= top
    ensures forall i :: 0 <= i < |rest| ==> Height(rest[i]) <= top
  {
    forall i | 0 <= i < |rest| ensures Height(rest[i]) <= top {
      assert rest[i] in multiset(rest);
      if rest[i] != brick {
        assert rest[i] in multiset(front);
        var j :| 0 <= j < |front| && front[j] == rest[i];
      }
    }
  }

  /** The bricks of a given height, in their order. */
  function AtHeight(bricks: seq<Brick>, z: int): (r: seq<Brick>)
    requires AllHigh(bricks)
  {
    if bricks == [] then []
    else AtHeight(bricks[..|bricks| - 1], z) + (if Height(bricks[|bricks| - 1]) == z then [bricks[|bricks| - 1]] else [])
  }

  lemma {:induction false} AtHeightAppend(a: seq<Brick>, b: seq<Brick>, z: int)
    requires AllHigh(a) && AllHigh(b)
    ensures AllHigh(a + b) && AtHeight(a + b, z) == AtHeight(a, z) + AtHeight(b, z)
    decreases |b|
  {
    if b == [] {
      assert a + b == a;
    } else {
      var n := |b| - 1;
      AtHeightAppend(a, b[..n], z);
      assert (a + b)[..|a + b| - 1] == a + b[..n];
    }
  }

  /** One brick more at the end adds it to its height's bricks. */
  lemma {:induction false} AtHeightLast(bricks: seq<Brick>, brick: Brick, z: int)
    requires AllHigh(bricks) && |brick.start| >= 3
    ensures AllHigh(bricks + [brick])
    ensures AtHeight(bricks + [brick], z) == AtHeight(bricks, z) + (if Height(brick) == z then [brick] else [])
  {
    assert (bricks + [brick])[..|bricks|] == bricks;
  }

  lemma {:induction false} InsertBrickStable(brick: Brick, bricks: seq<Brick>, z: int)
    requires |brick.start| >= 3 && AllHigh(bricks)
    ensures AtHeight(InsertBrick(brick, bricks), z) == AtHeight(bricks, z) + (if Height(brick) == z then [brick] else [])
  {
    if bricks == [] || Height(bricks[|bricks| - 1]) <= Height(brick) {
      AtHeightLast(bricks, brick, z);
    } else {
      var n := |bricks| - 1;
      var last, front := bricks[n], bricks[..n];
      var rest := InsertBrick(brick, front);
      var mine := if Height(brick) == z then [brick] else [];
      var lasts := if Height(last) == z then [last] else [];
      InsertBrickStable(brick, front, z);
      AtHeightLast(rest, last, z);
      AtHeightLast(front, last, z);
      assert bricks == front + [last];
      assert mine == [] || lasts == [];
      assert InsertBrick(brick, bricks) == rest + [last];
      SwapEmpty(AtHeight(InsertBrick(brick, bricks), z), AtHeight(bricks, z), AtHeight(rest, z),
                AtHeight(front, z), mine, lasts);
    }
  }

  /** With `inserted` the front followed by `mine` and then `lasts`, and
      `whole` the front followed by `lasts`, where one of the two pieces is
      empty, `inserted` is `whole` followed by `mine`. */
  lemma {:induction false} SwapEmpty<T>(inserted: seq<T>, whole: seq<T>, rest: seq<T>, front: seq<T>, mine: seq<T>, lasts: seq<T>)
    requires inserted == rest + lasts && rest == front + mine && whole == front + lasts
    requires mine == [] || lasts == []
    ensures inserted == whole + mine
  {
  }

  /** The sort is stable: the bricks of each height keep their order. */
  lemma {:induction false} SortBricksStable(bricks: seq<Brick>, z: int)
    requires AllHigh(bricks)
    ensures AtHeight(SortBricks(bricks), z) == AtHeight(bricks, z)
  {
    if bricks != [] {
      var n := |bricks| - 1;
      SortBricksStable(bricks[..n], z);
      InsertBrickStable(bricks[n], SortBricks(bricks[..n]), z);
    }
  }

  /** The sort orders the bricks by starting height and keeps every brick. */
  lemma {:induction false} SortBricksSorted(bricks: seq<Brick>)
    requires AllHigh(bricks)
    ensures SortedByHeight(SortBricks(bricks)) && multiset(SortBricks(bricks)) == multiset(bricks)
  {
    if bricks != [] {
      var n := |bricks| - 1;
      SortBricksSorted(bricks[..n]);
      InsertBrickSorted(bricks[n], SortBricks(bricks[..n]));
    }
  }

  /** `Stack.create_bricks`: one brick per line, sorted stably by starting
      height. `None` is a line that does not parse, or the IndexError of a
      brick with fewer than three coordinates. */
  function CreateBricks(snapshots: seq<string>): (r: Option<seq<Brick>>)
    ensures r.Some? ==> AllHigh(r.value) && SortedByHeight(r.value)
  {
    match ParseLines(ParseBrick, snapshots)
      case None => None
      case Some(bricks) =>
        if AllHigh(bricks) then
          SortBricksSorted(bricks);
          Some(SortBricks(bricks))
        else None
  }

  // ---------------------------------------------------------------------
  // The space the stack takes

  /** The bricks of a stack: three coordinates each, as the unpacking
      `x, y, z = brick.start` demands. */
  predicate Spatial(bricks: seq<Brick>)
  {
    forall i :: 0 <= i < |bricks| ==> |bricks[i].start| == 3
  }

  datatype Dimensions = Dimensions(x: int, y: int, z: int)

  /** The point `determine_dimensions` reaches for a brick: its start moved
      along its axis by its length. */
  function Reach(brick: Brick): Dimensions
    requires |brick.start| == 3
  {
    var o, l := brick.orientation, brick.length;
    Dimensions(brick.start[0] + (if o == 0 then l else 0),
               brick.start[1] + (if o == 1 then l else 0),
               brick.start[2] + (if o == 2 then l else 0))
  }

  function Max(a: int, b: int): int
  {
    if a >= b then a else b
  }

  /** The per-axis maxima of the bricks' reaches, starting from 0. */
  function DimensionsOf(bricks: seq<Brick>): Dimensions
    requires Spatial(bricks)
  {
    if bricks == [] then Dimensions(0, 0, 0)
    else
      var before, reach := DimensionsOf(bricks[..|bricks| - 1]), Reach(bricks[|bricks| - 1]);
      Dimensions(Max(before.x, reach.x), Max(before.y, reach.y), Max(before.z, reach.z))
  }

  /** `Stack.determine_dimensions`. */
  method DetermineDimensions(bricks: seq<Brick>) returns (dimensions: Dimensions)
    requires Spatial(bricks)
    ensures dimensions == DimensionsOf(bricks)
  {
    var xMax, yMax, zMax := 0, 0, 0;
    for index := 0 to |bricks|
      invariant Dimensions(xMax, yMax, zMax) == DimensionsOf(bricks[..index])
    {
      var brick := bricks[index];
      assert bricks[..index + 1][..index] == bricks[..index];
      var x, y, z := brick.start[0], brick.start[1], brick.start[2];
      var orientation, length := brick.orientation, brick.length;
      if orientation == 0 {
        x := x + length;
      }
      if orientation == 1 {
        y := y + length;
      }
      if orientation == 2 {
        z := z + length;
      }
      if x > xMax {
        xMax := x;
      }
      if y > yMax {
        yMax := y;
      }
      if z > zMax {
        zMax := z;
      }
    }
    assert bricks[..|bricks|] == bricks;
    dimensions := Dimensions(xMax, yMax, zMax);
  }

  /** The dimensions are the least non-negative bounds on every brick's
      reach: each is at least 0 and at least every reach, and each is 0 or
      the reach of some brick. */
  lemma {:induction false} DimensionsBound(bricks: seq<Brick>)
    requires Spatial(bricks)
    ensures var d := DimensionsOf(bricks); d.x >= 0 && d.y >= 0 && d.z >= 0
    ensures forall i :: 0 <= i < |bricks| ==> var d, r := DimensionsOf(bricks), Reach(bricks[i]);
      r.x <= d.x && r.y <= d.y && r.z <= d.z
    ensures var d := DimensionsOf(bricks);
      && (d.x == 0 || exists i :: 0 <= i < |bricks| && d.x == Reach(bricks[i]).x)
      && (d.y == 0 || exists i :: 0 <= i < |bricks| && d.y == Reach(bricks[i]).y)
      && (d.z == 0 || exists i :: 0 <= i < |bricks| && d.z == Reach(bricks[i]).z)
  {
    if bricks != [] {
      var n := |bricks| - 1;
      var front := bricks[..n];
      DimensionsBound(front);
      assert forall i :: 0 <= i < n ==> front[i] == bricks[i];
      var d, before, reach := DimensionsOf(bricks), DimensionsOf(front), Reach(bricks[n]);
      if d.x != 0 && d.x != reach.x {
        var i :| 0 <= i < n && before.x == Reach(front[i]).x;
        assert d.x == Reach(bricks[i]).x;
      }
      if d.y != 0 && d.y != reach.y {
        var i :| 0 <= i < n && before.y == Reach(front[i]).y;
        assert d.y == Reach(bricks[i]).y;
      }
      if d.z != 0 && d.z != reach.z {
        var i :| 0 <= i < n && before.z == Reach(front[i]).z;
        assert d.z == Reach(bricks[i]).z;
      }
    }
  }

  // ---------------------------------------------------------------------
  // The points

  /** The point `index` steps from a brick's start along its axis. An
      axis past z marks no new point, which is the start itself. */
  function Along(brick: Brick, index: int): seq<int>
    requires |brick.start| == 3
  {
    var s, o := brick.start, brick.orientation;
    if o == 0 then [s[0] + index, s[1], s[2]]
    else if o == 1 then [s[0], s[1] + index, s[2]]
    else if o == 2 then [s[0], s[1], s[2] + index]
    else s
  }

  type Points = map<seq<int>, bool>

  /** `points[x, y, z] = False` for z below `n`. */
  function FillColumn(points: Points, x: int, y: int, n: nat): Points
  {
    if n == 0 then points else FillColumn(points, x, y, n - 1)[[x, y, n - 1] := false]
  }

  /** The middle loop: every column below `n` of plane `x`. */
  function FillPlane(points: Points, x: int, n: nat, zMax: nat): Points
  {
    if n == 0 then points else FillColumn(FillPlane(points, x, n - 1, zMax), x, n - 1, zMax)
  }

  /** The outer loop: every plane below `n`. */
  function FillBox(points: Points, n: nat, yMax: nat, zMax: nat): Points
  {
    if n == 0 then points else FillPlane(FillBox(points, n - 1, yMax, zMax), n - 1, yMax, zMax)
  }

  /** `points[...] = True` for the first `n` steps along a brick. */
  function MarkAlong(points: Points, brick: Brick, n: nat): Points
    requires |brick.start| == 3
  {
    if n == 0 then points else MarkAlong(points, brick, n - 1)[Along(brick, n - 1) := true]
  }

  /** One brick: its start, its end and each step along it. */
  function MarkBrick(points: Points, brick: Brick): Points
    requires |brick.start| == 3
  {
    MarkAlong(points[brick.start := true][brick.end := true], brick, if brick.length > 0 then brick.length else 0)
  }

  function MarkBricks(points: Points, bricks: seq<Brick>): Points
    requires Spatial(bricks)
  {
    if bricks == [] then points else MarkBrick(MarkBricks(points, bricks[..|bricks| - 1]), bricks[|bricks| - 1])
  }

  /** What `create_points` builds. */
  function PointsOf(dimensions: Dimensions, bricks: seq<Brick>): Points
    requires Spatial(bricks)
  {
    var box := FillBox(map[], Clamp(dimensions.x), Clamp(dimensions.y), Clamp(dimensions.z));
    MarkBricks(box, bricks)
  }

  /** `range(n)` is empty for a negative `n`. */
  function Clamp(n: int): nat
  {
    if n > 0 then n else 0
  }

  /** `Stack.create_points`. */
  method CreatePoints(dimensions: Dimensions, bricks: seq<Brick>) returns (points: Points)
    requires Spatial(bricks)
    ensures points == PointsOf(dimensions, bricks)
  {
    points := map[];
    var xMax, yMax, zMax := Clamp(dimensions.x), Clamp(dimensions.y), Clamp(dimensions.z);
    for x := 0 to xMax
      invariant points == FillBox(map[], x, yMax, zMax)
    {
      ghost var plane := points;
      for y := 0 to yMax
        invariant points == FillPlane(plane, x, y, zMax)
      {
        ghost var column := points;
        for z := 0 to zMax
          invariant points == FillColumn(column, x, y, z)
        {
          points := points[[x, y, z] := false];
        }
      }
    }
    ghost var box := points;
    for index := 0 to |bricks|
      invariant points == MarkBricks(box, bricks[..index])
    {
      assert bricks[..index + 1][..index] == bricks[..index];
      points := MarkOneBrick(points, bricks[index]);
    }
    assert bricks[..|bricks|] == bricks;
  }

  /** The body of the brick loop of `create_points`. */
  method MarkOneBrick(points: Points, brick: Brick) returns (marked: Points)
    requires |brick.start| == 3
    ensures marked == MarkBrick(points, brick)
  {
    marked := points[brick.start := true];
    marked := marked[brick.end := true];
    ghost var ends := marked;
    for index := 0 to if brick.length > 0 then brick.length else 0
      invariant marked == MarkAlong(ends, brick, index)
      invariant brick.start in marked && marked[brick.start]
    {
      var s := brick.start;
      // Marking the start again changes nothing: `Along` of an axis past z.
      assert marked[s := true] == marked;
      if brick.orientation == 0 {
        marked := marked[[s[0] + index, s[1], s[2]] := true];
      }
      if brick.orientation == 1 {
        marked := marked[[s[0], s[1] + index, s[2]] := true];
      }
      if brick.orientation == 2 {
        marked := marked[[s[0], s[1], s[2] + index] := true];
      }
    }
  }

  /** The points a brick occupies: its ends and the steps along it. */
  predicate Occupies(brick: Brick, p: seq<int>)
    requires |brick.start| == 3
  {
    p == brick.start || p == brick.end || exists i :: 0 <= i < brick.length && p == Along(brick, i)
  }

  /** A point of the box the dimensions span. */
  predicate InBox(dimensions: Dimensions, p: seq<int>)
  {
    |p| == 3 && 0 <= p[0] < dimensions.x && 0 <= p[1] < dimensions.y && 0 <= p[2] < dimensions.z
  }

  lemma {:induction false} FillColumnAt(points: Points, x: int, y: int, n: nat, p: seq<int>)
    ensures p in FillColumn(points, x, y, n) <==> p in points || (|p| == 3 && p[0] == x && p[1] == y && 0 <= p[2] < n)
    ensures p in FillColumn(points, x, y, n) && !(|p| == 3 && p[0] == x && p[1] == y && 0 <= p[2] < n)
      ==> FillColumn(points, x, y, n)[p] == points[p]
    ensures (|p| == 3 && p[0] == x && p[1] == y && 0 <= p[2] < n) ==> !FillColumn(points, x, y, n)[p]
  {
    if n > 0 {
      FillColumnAt(points, x, y, n - 1, p);
      assert (|p| == 3 && p[0] == x && p[1] == y && p[2] == n - 1) <==> p == [x, y, n - 1];
    }
  }

  lemma {:induction false} FillPlaneAt(points: Points, x: int, n: nat, zMax: nat, p: seq<int>)
    ensures p in FillPlane(points, x, n, zMax) <==> p in points || (|p| == 3 && p[0] == x && 0 <= p[1] < n && 0 <= p[2] < zMax)
    ensures p in FillPlane(points, x, n, zMax) && !(|p| == 3 && p[0] == x && 0 <= p[1] < n && 0 <= p[2] < zMax)
      ==> FillPlane(points, x, n, zMax)[p] == points[p]
    ensures (|p| == 3 && p[0] == x && 0 <= p[1] < n && 0 <= p[2] < zMax) ==> !FillPlane(points, x, n, zMax)[p]
  {
    if n > 0 {
      FillPlaneAt(points, x, n - 1, zMax, p);
      FillColumnAt(FillPlane(points, x, n - 1, zMax), x, n - 1, zMax, p);
      var inner := FillPlane(points, x, n - 1, zMax);
      if p in inner && !(|p| == 3 && p[0] == x && 0 <= p[1] < n && 0 <= p[2] < zMax) {
        assert FillPlane(points, x, n, zMax)[p] == inner[p];
      }
    }
  }

  /** The box loops cover exactly the points of the box, all unmarked. */
  lemma {:induction false} FillBoxAt(n: nat, yMax: nat, zMax: nat, p: seq<int>)
    ensures p in FillBox(map[], n, yMax, zMax) <==> InBox(Dimensions(n, yMax, zMax), p)
    ensures p in FillBox(map[], n, yMax, zMax) ==> !FillBox(map[], n, yMax, zMax)[p]
  {
    if n > 0 {
      FillBoxAt(n - 1, yMax, zMax, p);
      FillPlaneAt(FillBox(map[], n - 1, yMax, zMax), n - 1, yMax, zMax, p);
    }
  }

  lemma {:induction false} MarkAlongAt(points: Points, brick: Brick, n: nat, p: seq<int>)
    requires |brick.start| == 3
    ensures p in MarkAlong(points, brick, n) <==> p in points || exists i :: 0 <= i < n && p == Along(brick, i)
    ensures p in MarkAlong(points, brick, n) ==>
      (MarkAlong(points, brick, n)[p] <==> (p in points && points[p]) || exists i :: 0 <= i < n && p == Along(brick, i))
  {
    if n > 0 {
      MarkAlongAt(points, brick, n - 1, p);
      if p == Along(brick, n - 1) {
        assert exists i :: 0 <= i < n && p == Along(brick, i);
      } else if exists i :: 0 <= i < n && p == Along(brick, i) {
        var i :| 0 <= i < n && p == Along(brick, i);
        assert i < n - 1;
      }
    }
  }

  lemma {:induction false} MarkBrickAt(points: Points, brick: Brick, p: seq<int>)
    requires |brick.start| == 3
    ensures p in MarkBrick(points, brick) <==> p in points || Occupies(brick, p)
    ensures p in MarkBrick(points, brick) ==> (MarkBrick(points, brick)[p] <==> (p in points && points[p]) || Occupies(brick, p))
  {
    var n := if brick.length > 0 then brick.length else 0;
    MarkAlongAt(points[brick.start := true][brick.end := true], brick, n, p);
  }

  lemma {:induction false} MarkBricksAt(points: Points, bricks: seq<Brick>, p: seq<int>)
    requires Spatial(bricks)
    ensures p in MarkBricks(points, bricks) <==> p in points || exists i :: 0 <= i < |bricks| && Occupies(bricks[i], p)
    ensures p in MarkBricks(points, bricks) ==>
      (MarkBricks(points, bricks)[p] <==> (p in points && points[p]) || exists i :: 0 <= i < |bricks| && Occupies(bricks[i], p))
  {
    if bricks != [] {
      var n := |bricks| - 1;
      var front := bricks[..n];
      MarkBricksAt(points, front, p);
      MarkBrickAt(MarkBricks(points, front), bricks[n], p);
      assert forall i :: 0 <= i < n ==> front[i] == bricks[i];
    }
  }

  /** `create_points` covers every point of the box and every point a brick
      occupies, and marks a point True exactly when some brick occupies
      it. */
  lemma {:induction false} PointsMeaning(dimensions: Dimensions, bricks: seq<Brick>, p: seq<int>)
    requires Spatial(bricks)
    ensures p in PointsOf(dimensions, bricks) <==>
      InBox(dimensions, p) || exists i :: 0 <= i < |bricks| && Occupies(bricks[i], p)
    ensures p in PointsOf(dimensions, bricks) ==>
      (PointsOf(dimensions, bricks)[p] <==> exists i :: 0 <= i < |bricks| && Occupies(bricks[i], p))
  {
    var xMax, yMax, zMax := Clamp(dimensions.x), Clamp(dimensions.y), Clamp(dimensions.z);
    FillBoxAt(xMax, yMax, zMax, p);
    MarkBricksAt(FillBox(map[], xMax, yMax, zMax), bricks, p);
  }

  // ---------------------------------------------------------------------
  // The stack

  /** `Stack`: the sorted bricks, their dimensions and the marked points. */
  datatype Stack = Stack(bricks: seq<Brick>, dimensions: Dimensions, points: Points)

  /** `Stack.__init__` on the snapshot lines. `None` is a line that does
      not parse, or a brick whose start is not three coordinates (the
      IndexError of the sort key or the ValueError of the unpacking). */
  method NewStack(snapshots: seq<string>) returns (stack: Option<Stack>)
    ensures stack.Some? <==> CreateBricks(snapshots).Some? && Spatial(CreateBricks(snapshots).value)
    ensures stack.Some? ==> stack.value.bricks == CreateBricks(snapshots).value
    ensures stack.Some? ==> stack.value.dimensions == DimensionsOf(stack.value.bricks)
    ensures stack.Some? ==> stack.value.points == PointsOf(stack.value.dimensions, stack.value.bricks)
  {
    var bricks := CreateBricks(snapshots);
    if bricks.None? || !Spatial(bricks.value) {
      return None;
    }
    var dimensions := DetermineDimensions(bricks.value);
    var points := CreatePoints(dimensions, bricks.value);
    return Some(Stack(bricks.value, dimensions, points));
  }
}
