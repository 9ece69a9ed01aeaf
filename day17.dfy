/** Day 17: a crucible crosses a city of blocks, each of which costs a
    digit's worth of heat, from the top-left block to the bottom-right
    one. A path turns left or right or goes straight on, at most three
    blocks in a row in one direction, and never enters a block along a
    direction it has already entered it along. A depth-first search over
    an explicit stack of paths keeps the heat loss of the last path that
    reaches the end, and drops paths that can no longer beat it. */
module Day17 {
  import opened Text
  import opened Grids

  /** The keys ">", "<", "^" and "v" of a tracked block. */
  datatype Direction = Right | Left | Up | Down

  /** A city block: its column, its row and its heat loss. */
  datatype Block = Block(x: int, y: int, heatLoss: int)

  /** One counter of `tracked_blocks`: the block at `cell`, entered along
      `direction`. */
  datatype Track = Track(cell: Pos, direction: Direction)

  /** A path of the search. `direction` is `None` for the start's empty
      direction; `end` is the block it stands on; `trackedBlocks` holds,
      per block and direction, the step at which this path entered that
      block that way, or 0. */
  datatype Path = Path(direction: Option<Direction>, currentStepsInDirection: int, heatLoss: int,
                       latestTotalStep: int, highestX: int, highestY: int, end: Block,
                       trackedBlocks: map<Track, int>)

  /** The city: its rows, `height` rows of `width` blocks, and the start
      and end blocks. */
  datatype City = City(rows: seq<string>, height: nat, width: nat, blocks: map<Pos, Block>, start: Block, end: Block)

  /** What building the city or searching it ends with: a value, or the
      Python exception raised on the way. */
  datatype Outcome<T> = Done(value: T) | IndexError | ValueError | KeyError

  /** At most three blocks in a row in one direction. */
  const MaxInDirection := 3

  // ---------------------------------------------------------------------
  // City.create_blocks

  /** `p` is one of the cells a scan of `width` columns visits before
      column `column` of row `row`. */
  predicate Earlier(p: Pos, width: nat, row: nat, column: nat)
  {
    0 <= p.x < width && 0 <= p.y && (p.y < row || (p.y == row && p.x < column))
  }

  /** The character at `p` exists and is a digit, so `int` accepts it. */
  predicate Readable(rows: seq<string>, p: Pos)
  {
    0 <= p.y < |rows| && 0 <= p.x < |rows[p.y]| && IsDigit(rows[p.y][p.x])
  }

  /** The blocks once `create_blocks` reaches column `column` of row `row`:
      a row too short for column `column` is an IndexError and a character
      that is not a digit a ValueError, whichever the scan meets first. */
  function BlocksBefore(rows: seq<string>, width: nat, row: nat, column: nat): Outcome<map<Pos, Block>>
    requires row <= |rows| && column <= width && (row == |rows| ==> column == 0)
    decreases row, column
  {
    if column > 0 then
      var before := BlocksBefore(rows, width, row, column - 1);
      if !before.Done? then before
      else if column - 1 >= |rows[row]| then IndexError
      else if !IsDigit(rows[row][column - 1]) then ValueError
      else Done(before.value[Pos(column - 1, row) := Block(column - 1, row, DigitValue(rows[row][column - 1]))])
    else if row > 0 then BlocksBefore(rows, width, row - 1, width)
    else Done(map[])
  }

  /** The blocks of every row, `width` columns each. */
  function Blocks(rows: seq<string>, width: nat): Outcome<map<Pos, Block>>
  {
    BlocksBefore(rows, width, |rows|, 0)
  }

  /** The scan succeeds exactly when every cell it visits holds a digit,
      and then it holds one block per visited cell, at that cell, losing
      the digit's value in heat. */
  lemma {:induction false} BlocksBeforeMeaning(rows: seq<string>, width: nat, row: nat, column: nat)
    requires row <= |rows| && column <= width && (row == |rows| ==> column == 0)
    ensures !BlocksBefore(rows, width, row, column).KeyError?
    ensures BlocksBefore(rows, width, row, column).Done? <==>
      (forall p :: Earlier(p, width, row, column) ==> Readable(rows, p))
    ensures BlocksBefore(rows, width, row, column).Done? ==>
      var m := BlocksBefore(rows, width, row, column).value;
      && (forall p :: p in m <==> Earlier(p, width, row, column))
      && (forall p :: p in m ==> m[p] == Block(p.x, p.y, DigitValue(rows[p.y][p.x])))
    decreases row, column
  {
    if column > 0 {
      BlocksBeforeMeaning(rows, width, row, column - 1);
      var q := Pos(column - 1, row);
      assert Earlier(q, width, row, column);
      forall p ensures Earlier(p, width, row, column) <==> Earlier(p, width, row, column - 1) || p == q {
      }
    } else if row > 0 {
      BlocksBeforeMeaning(rows, width, row - 1, width);
      forall p ensures Earlier(p, width, row, 0) <==> Earlier(p, width, row - 1, width) {
      }
    }
  }

  /** Once the scan fails, it ends with that failure. */
  lemma {:induction false} FailureStays(rows: seq<string>, width: nat, row: nat, column: nat, row2: nat, column2: nat)
    requires row <= |rows| && column <= width && (row == |rows| ==> column == 0)
    requires row2 <= |rows| && column2 <= width && (row2 == |rows| ==> column2 == 0)
    requires row < row2 || (row == row2 && column <= column2)
    requires !BlocksBefore(rows, width, row, column).Done?
    ensures BlocksBefore(rows, width, row2, column2) == BlocksBefore(rows, width, row, column)
    decreases row2, column2
  {
    if row == row2 && column == column2 {
    } else if column2 > 0 {
      FailureStays(rows, width, row, column, row2, column2 - 1);
    } else {
      FailureStays(rows, width, row, column, row2 - 1, width);
    }
  }

  /** `City.create_blocks`: one block per cell of `width` columns in each
      row, holding its digit as heat loss. */
  method CreateBlocks(rows: seq<string>, width: nat) returns (blocks: Outcome<map<Pos, Block>>)
    ensures blocks == Blocks(rows, width)
  {
    var built: map<Pos, Block> := map[];
    for row := 0 to |rows|
      invariant BlocksBefore(rows, width, row, 0) == Done(built)
    {
      for column := 0 to width
        invariant BlocksBefore(rows, width, row, column) == Done(built)
      {
        if column >= |rows[row]| {
          FailureStays(rows, width, row, column + 1, |rows|, 0);
          return IndexError;
        }
        var heatLoss := rows[row][column];
        if !IsDigit(heatLoss) {
          FailureStays(rows, width, row, column + 1, |rows|, 0);
          return ValueError;
        }
        built := built[Pos(column, row) := Block(column, row, DigitValue(heatLoss))];
      }
    }
    return Done(built);
  }

  // ---------------------------------------------------------------------
  // City.__init__

  /** `p` is a cell of a city of `height` rows of `width` blocks. */
  predicate InCity(p: Pos, width: nat, height: nat)
  {
    0 <= p.x < width && 0 <= p.y < height
  }

  /** What a constructed city satisfies: one block per cell, each at its
      own cell and losing a non-negative amount of heat, and the start and
      end are the blocks at (0, 0) and (width − 1, height − 1). */
  ghost predicate WellFormed(city: City)
  {
    && city.width > 0 && city.height > 0
    && (forall p :: p in city.blocks <==> InCity(p, city.width, city.height))
    && (forall p :: p in city.blocks ==>
          city.blocks[p].x == p.x && city.blocks[p].y == p.y && city.blocks[p].heatLoss >= 0)
    && city.start == city.blocks[Pos(0, 0)]
    && city.end == city.blocks[Pos(city.width - 1, city.height - 1)]
  }

  /** `City.__init__`: the height is the number of rows and the width the
      length of the first; no rows is the IndexError of `rows[0]`, and an
      empty first row the KeyError of looking up the block at (0, 0). */
  method NewCity(rows: seq<string>) returns (city: Outcome<City>)
    ensures city.Done? <==>
      rows != [] && |rows[0]| > 0 && forall p :: InCity(p, |rows[0]|, |rows|) ==> Readable(rows, p)
    ensures city.Done? ==>
      && WellFormed(city.value)
      && city.value.rows == rows && city.value.height == |rows| && city.value.width == |rows[0]|
      && (forall p :: p in city.value.blocks ==> city.value.blocks[p].heatLoss == DigitValue(rows[p.y][p.x]))
    ensures city.KeyError? <==> rows != [] && |rows[0]| == 0
    ensures city.IndexError? <==> rows == [] || Blocks(rows, |rows[0]|).IndexError?
    ensures city.ValueError? <==> rows != [] && Blocks(rows, |rows[0]|).ValueError?
  {
    if rows == [] {
      return IndexError;
    }
    var height := |rows|;
    var width := |rows[0]|;
    var blocks := CreateBlocks(rows, width);
    BlocksBeforeMeaning(rows, width, |rows|, 0);
    forall p ensures Earlier(p, width, |rows|, 0) <==> InCity(p, width, height) {
    }
    if blocks.IndexError? {
      return IndexError;
    } else if blocks.ValueError? {
      return ValueError;
    }
    if Pos(0, 0) !in blocks.value {
      return KeyError;
    }
    assert InCity(Pos(width - 1, height - 1), width, height);
    var start := blocks.value[Pos(0, 0)];
    var end := blocks.value[Pos(width - 1, height - 1)];
    city := Done(City(rows, height, width, blocks.value, start, end));
  }

  // ---------------------------------------------------------------------
  // City.create_tracked_blocks

  /** `City.create_tracked_blocks`: a counter of 0 for each of the four
      directions of every cell of the city. */
  method CreateTrackedBlocks(height: nat, width: nat) returns (tracked: map<Track, int>)
    ensures forall k :: k in tracked <==> InCity(k.cell, width, height)
    ensures forall k :: k in tracked ==> tracked[k] == 0
  {
    tracked := map[];
    for row := 0 to height
      invariant forall k :: k in tracked <==> Earlier(k.cell, width, row, 0)
      invariant forall k :: k in tracked ==> tracked[k] == 0
    {
      for column := 0 to width
        invariant forall k :: k in tracked <==> Earlier(k.cell, width, row, column)
        invariant forall k :: k in tracked ==> tracked[k] == 0
      {
        var name := Pos(column, row);
        tracked := tracked[Track(name, Right) := 0][Track(name, Left) := 0][Track(name, Up) := 0][Track(name, Down) := 0];
        forall k ensures k in tracked <==> Earlier(k.cell, width, row, column) || k.cell == name {
          if k.cell == name {
            match k.direction
            case Right => assert k == Track(name, Right);
            case Left => assert k == Track(name, Left);
            case Up => assert k == Track(name, Up);
            case Down => assert k == Track(name, Down);
          }
        }
      }
    }
  }

  // ---------------------------------------------------------------------
  // The move rules of City.minimize_heat_loss

  predicate Horizontal(d: Direction)
  {
    d == Right || d == Left
  }

  /** The cell one block from `p` along `d`. */
  function Step(p: Pos, d: Direction): Pos
  {
    match d
    case Right => Pos(p.x + 1, p.y)
    case Left => Pos(p.x - 1, p.y)
    case Up => Pos(p.x, p.y - 1)
    case Down => Pos(p.x, p.y + 1)
  }

  /** The two turns tried from a path going along `direction`: up, then
      down, after a horizontal move; right, then left, after a vertical
      one; right, then down, from the start. */
  function Turns(direction: Option<Direction>): (Direction, Direction)
  {
    match direction
    case Some(d) => if Horizontal(d) then (Up, Down) else (Right, Left)
    case None => (Right, Down)
  }

  /** After a move, the turns are the two directions across it, and step
      to opposite sides; from the start they lead right and down. */
  lemma {:induction false} TurnsAcross(direction: Option<Direction>, p: Pos)
    ensures direction.Some? ==>
      var (first, second) := Turns(direction);
      && Horizontal(first) == Horizontal(second) != Horizontal(direction.value)
      && Step(Step(p, first), second) == p
    ensures direction.None? ==> Step(p, Turns(direction).0) == Pos(p.x + 1, p.y) && Step(p, Turns(direction).1) == Pos(p.x, p.y + 1)
  {
  }

  function Max(a: int, b: int): int
  {
    if a > b then a else b
  }

  /** The cell of a path's end block. */
  function At(path: Path): Pos
  {
    Pos(path.end.x, path.end.y)
  }

  /** A path's counters are exactly those of the city's blocks, in all
      four directions. */
  ghost predicate Tracks(city: City, tracked: map<Track, int>)
  {
    forall k :: k in tracked <==> k.cell in city.blocks
  }

  /** The path one block along `d` from `path`, when the search allows
      it: the block exists, this path has not entered it along `d`, it is
      at most one column left of and one row above the furthest this path
      reached, and a straight move keeps below three blocks in a row. The
      new path has lost the block's heat too, records this step in its own
      copy of the counters, and raises the furthest column and row. */
  function Move(city: City, path: Path, d: Direction, straight: bool): Option<Path>
    requires Tracks(city, path.trackedBlocks)
  {
    var cell := Step(At(path), d);
    if cell in city.blocks && path.trackedBlocks[Track(cell, d)] == 0
       && (straight ==> path.currentStepsInDirection + 1 < MaxInDirection)
       && city.blocks[cell].x >= path.highestX - 1 && city.blocks[cell].y >= path.highestY - 1
    then
      var block := city.blocks[cell];
      Some(Path(Some(d), if straight then path.currentStepsInDirection + 1 else 0,
                path.heatLoss + block.heatLoss, path.latestTotalStep + 1,
                Max(block.x, path.highestX), Max(block.y, path.highestY), block,
                path.trackedBlocks[Track(cell, d) := path.latestTotalStep + 1]))
    else None
  }

  /** A new path is pushed when it ends elsewhere than its parent, and no
      path has reached the end yet (`total` is 0) or its heat loss plus
      its distance to the end is below `total`. */
  predicate Worth(city: City, path: Path, next: Path, total: int)
  {
    At(next) != At(path)
    && (total == 0 || next.heatLoss + city.end.x - next.end.x + city.end.y - next.end.y < total)
  }

  /** `next` is one of the moves from `path`: a turn, or a straight move
      when `path` has a direction. */
  ghost predicate Follows(city: City, path: Path, next: Path)
    requires Tracks(city, path.trackedBlocks)
  {
    var (first, second) := Turns(path.direction);
    || Move(city, path, first, false) == Some(next)
    || Move(city, path, second, false) == Some(next)
    || (path.direction.Some? && Move(city, path, path.direction.value, true) == Some(next))
  }

  /** The path the search starts from: no direction, no heat lost, at the
      start, with every counter 0. */
  ghost predicate Initial(city: City, path: Path)
  {
    && path.direction == None && path.currentStepsInDirection == 0 && path.heatLoss == 0
    && path.latestTotalStep == 0 && path.highestX == 0 && path.highestY == 0 && path.end == city.start
    && Tracks(city, path.trackedBlocks)
    && forall k :: k in path.trackedBlocks ==> path.trackedBlocks[k] == 0
  }

  /** A route: the initial path followed by moves, none of them from a
      path that already stands on the end. */
  ghost predicate Route(city: City, route: seq<Path>)
  {
    && |route| > 0 && Initial(city, route[0])
    && forall i :: 0 <= i < |route| - 1 ==>
         && Tracks(city, route[i].trackedBlocks) && route[i].end != city.end
         && Follows(city, route[i], route[i + 1])
  }

  /** The heat lost by the blocks entered up to step `n` of a route. */
  function EnteredHeat(route: seq<Path>, n: nat): int
    requires n < |route|
  {
    if n == 0 then 0 else EnteredHeat(route, n - 1) + route[n].end.heatLoss
  }

  /** The counter a route set at step `n`: its block at that step, along
      the direction it entered it. */
  function Entered(route: seq<Path>, n: nat): Track
    requires n < |route| && route[n].direction.Some?
  {
    Track(At(route[n]), route[n].direction.value)
  }

  /** What one move makes of a path. */
  lemma {:induction false} MoveFacts(city: City, path: Path, d: Direction, straight: bool)
    requires WellFormed(city) && Tracks(city, path.trackedBlocks)
    requires Move(city, path, d, straight).Some?
    ensures var next := Move(city, path, d, straight).value;
      && next.direction == Some(d)
      && At(next) == Step(At(path), d) && At(next) in city.blocks && city.blocks[At(next)] == next.end
      && next.heatLoss == path.heatLoss + next.end.heatLoss
      && next.latestTotalStep == path.latestTotalStep + 1
      && next.highestX >= path.highestX && next.highestY >= path.highestY
      && next.currentStepsInDirection == (if straight then path.currentStepsInDirection + 1 else 0)
      && (straight ==> next.currentStepsInDirection < MaxInDirection)
      && Track(At(next), d) in path.trackedBlocks && path.trackedBlocks[Track(At(next), d)] == 0
      && next.trackedBlocks == path.trackedBlocks[Track(At(next), d) := path.latestTotalStep + 1]
      && Tracks(city, next.trackedBlocks)
  {
  }

  /** `next` follows `path` by a move along its direction. */
  lemma {:induction false} FollowsBy(city: City, path: Path, next: Path) returns (straight: bool)
    requires Tracks(city, path.trackedBlocks) && Follows(city, path, next)
    ensures next.direction.Some? && Move(city, path, next.direction.value, straight) == Some(next)
    ensures straight ==> path.direction == next.direction
  {
    var (first, second) := Turns(path.direction);
    if Move(city, path, first, false) == Some(next) {
      straight := false;
    } else if Move(city, path, second, false) == Some(next) {
      straight := false;
    } else {
      straight := true;
    }
  }

  /** Step `n` of a route: it has taken `n` steps, its heat loss is that
      of the blocks it entered, it stands on a block of the city, it has a
      direction after the first move, it has gone at most three blocks in
      a row, and its counter for the block it entered records step `n`. */
  lemma {:induction false} RouteStep(city: City, route: seq<Path>, n: nat)
    requires WellFormed(city) && Route(city, route) && n < |route|
    ensures var path := route[n];
      && Tracks(city, path.trackedBlocks)
      && path.latestTotalStep == n
      && path.heatLoss == EnteredHeat(route, n) && path.heatLoss >= 0
      && At(path) in city.blocks && city.blocks[At(path)] == path.end
      && (path.direction.Some? <==> n > 0)
      && 0 <= path.currentStepsInDirection < MaxInDirection
      && (n > 0 ==> path.trackedBlocks[Entered(route, n)] == n)
  {
    if n > 0 {
      RouteStep(city, route, n - 1);
      var straight := FollowsBy(city, route[n - 1], route[n]);
      MoveFacts(city, route[n - 1], route[n].direction.value, straight);
    } else {
      assert city.blocks[Pos(0, 0)] == city.start;
    }
  }

  /** A counter a route has set keeps its value for the rest of the
      route. */
  lemma {:induction false} CounterKept(city: City, route: seq<Path>, i: nat, k: nat)
    requires WellFormed(city) && Route(city, route) && 0 < i <= k < |route|
    ensures route[i].direction.Some?
    ensures Entered(route, i) in route[k].trackedBlocks && route[k].trackedBlocks[Entered(route, i)] == i
    decreases k
  {
    if k > i {
      CounterKept(city, route, i, k - 1);
      RouteStep(city, route, k - 1);
      var straight := FollowsBy(city, route[k - 1], route[k]);
      MoveFacts(city, route[k - 1], route[k].direction.value, straight);
    } else {
      RouteStep(city, route, i);
    }
  }

  /** A route never enters the same block along the same direction
      twice. */
  lemma {:induction false} EnteredOnce(city: City, route: seq<Path>, i: nat, j: nat)
    requires WellFormed(city) && Route(city, route) && 0 < i < j < |route|
    ensures route[i].direction.Some? && route[j].direction.Some?
    ensures Entered(route, i) != Entered(route, j)
  {
    CounterKept(city, route, i, j - 1);
    RouteStep(city, route, j - 1);
    RouteStep(city, route, j);
    var straight := FollowsBy(city, route[j - 1], route[j]);
    MoveFacts(city, route[j - 1], route[j].direction.value, straight);
  }

  /** A route followed by a move from its last path, which is not at the
      end, is a route. */
  lemma {:induction false} RouteExtends(city: City, route: seq<Path>, next: Path)
    requires Route(city, route)
    requires Tracks(city, route[|route| - 1].trackedBlocks) && route[|route| - 1].end != city.end
    requires Follows(city, route[|route| - 1], next)
    ensures Route(city, route + [next])
  {
    var longer := route + [next];
    forall i | 0 <= i < |longer| - 1
      ensures Tracks(city, longer[i].trackedBlocks) && longer[i].end != city.end
      ensures Follows(city, longer[i], longer[i + 1])
    {
      assert longer[i] == route[i];
      if i < |route| - 1 {
        assert longer[i + 1] == route[i + 1];
      }
    }
  }

  // ---------------------------------------------------------------------
  // Termination: every move turns one zero counter into a step number

  /** The counters still at 0. */
  function Zeros(tracked: map<Track, int>): set<Track>
  {
    set k | k in tracked && tracked[k] == 0
  }

  function Pow4(n: nat): (r: nat)
    ensures r >= 1
  {
    if n == 0 then 1 else 4 * Pow4(n - 1)
  }

  /** A path weighs 4 to the number of its zero counters: more than its
      at most three children together. */
  function Weight(path: Path): nat
  {
    Pow4(|Zeros(path.trackedBlocks)|)
  }

  function StackWeight(stack: seq<Path>): nat
  {
    if stack == [] then 0 else StackWeight(stack[..|stack| - 1]) + Weight(stack[|stack| - 1])
  }

  lemma {:induction false} StackWeightPush(stack: seq<Path>, path: Path)
    ensures StackWeight(stack + [path]) == StackWeight(stack) + Weight(path)
  {
    assert (stack + [path])[..|stack|] == stack;
  }

  /** A move from a path that has taken at least 0 steps weighs a quarter
      of it. */
  lemma {:induction false} MoveWeight(city: City, path: Path, d: Direction, straight: bool)
    requires WellFormed(city) && Tracks(city, path.trackedBlocks) && path.latestTotalStep >= 0
    requires Move(city, path, d, straight).Some?
    ensures 4 * Weight(Move(city, path, d, straight).value) == Weight(path)
  {
    MoveFacts(city, path, d, straight);
    var next := Move(city, path, d, straight).value;
    var k := Track(At(next), d);
    assert Zeros(next.trackedBlocks) == Zeros(path.trackedBlocks) - {k};
    assert k in Zeros(path.trackedBlocks);
  }

  // ---------------------------------------------------------------------
  // City.minimize_heat_loss

  /** The stack holds the last paths of routes, each recorded in
      `routes`. */
  ghost predicate Searched(city: City, stack: seq<Path>, routes: seq<seq<Path>>)
  {
    |routes| == |stack|
    && forall i :: 0 <= i < |stack| ==> Route(city, routes[i]) && routes[i][|routes[i]| - 1] == stack[i]
  }

  /** Popping the top path leaves the rest searched, lightens the stack
      by the path's weight, and the top path ends its own route. */
  lemma {:induction false} SearchedPop(city: City, paths: seq<Path>, routes: seq<seq<Path>>)
    requires Searched(city, paths, routes) && paths != []
    ensures var n := |paths| - 1;
      && Searched(city, paths[..n], routes[..n])
      && StackWeight(paths) == StackWeight(paths[..n]) + Weight(paths[n])
      && Route(city, routes[n]) && routes[n][|routes[n]| - 1] == paths[n]
  {
    var n := |paths| - 1;
    var rest, restRoutes := paths[..n], routes[..n];
    forall i | 0 <= i < |rest|
      ensures Route(city, restRoutes[i]) && restRoutes[i][|restRoutes[i]| - 1] == rest[i]
    {
      assert restRoutes[i] == routes[i] && rest[i] == paths[i];
    }
  }

  /** `total` is 0 or the heat loss of a route ending at the end. */
  ghost predicate Reached(city: City, total: int, route: seq<Path>)
  {
    total != 0 ==> Route(city, route) && route[|route| - 1].end == city.end && route[|route| - 1].heatLoss == total
  }

  /** One of the three move blocks of `minimize_heat_loss`: if the move
      along `d` is allowed, make it on a copy of the path's counters, and
      push the new path when it is worth pursuing. */
  method TryMove(city: City, path: Path, d: Direction, straight: bool, total: int, paths: seq<Path>)
    returns (pushed: seq<Path>)
    requires WellFormed(city) && Tracks(city, path.trackedBlocks)
    ensures var next := Move(city, path, d, straight);
      pushed == paths + (if next.Some? && Worth(city, path, next.value, total) then [next.value] else [])
  {
    pushed := paths;
    var name := Step(At(path), d);
    if name in city.blocks {
      var block := city.blocks[name];
      var trackedBlocks := path.trackedBlocks;
      if trackedBlocks[Track(name, d)] == 0
         && (straight ==> path.currentStepsInDirection + 1 < MaxInDirection)
         && block.x >= path.highestX - 1 && block.y >= path.highestY - 1
      {
        var heatLoss := path.heatLoss + block.heatLoss;
        trackedBlocks := trackedBlocks[Track(name, d) := path.latestTotalStep + 1];
        var next := Path(Some(d), if straight then path.currentStepsInDirection + 1 else 0,
                         heatLoss, path.latestTotalStep + 1,
                         if block.x > path.highestX then block.x else path.highestX,
                         if block.y > path.highestY then block.y else path.highestY,
                         block, trackedBlocks);
        assert Some(next) == Move(city, path, d, straight);
        if At(next) != At(path)
           && (total == 0 || (total != 0 && heatLoss + city.end.x - block.x + city.end.y - block.y < total))
        {
          pushed := pushed + [next];
        }
      }
    }
  }

  /** A pushed move keeps the search's invariant and weighs a quarter of
      the path it came from. */
  lemma {:induction false} PushKeeps(city: City, stack: seq<Path>, routes: seq<seq<Path>>, route: seq<Path>,
                  d: Direction, straight: bool, total: int, pushed: seq<Path>)
    returns (routes': seq<seq<Path>>)
    requires WellFormed(city) && Searched(city, stack, routes) && Route(city, route)
    requires var path := route[|route| - 1];
      path.end != city.end && Tracks(city, path.trackedBlocks) && path.latestTotalStep >= 0
    requires var path := route[|route| - 1];
      straight ==> path.direction == Some(d)
    requires var path := route[|route| - 1];
      !straight ==> d == Turns(path.direction).0 || d == Turns(path.direction).1
    requires var path := route[|route| - 1]; var next := Move(city, path, d, straight);
      pushed == stack + (if next.Some? && Worth(city, path, next.value, total) then [next.value] else [])
    ensures Searched(city, pushed, routes')
    ensures 4 * (StackWeight(pushed) - StackWeight(stack)) <= Weight(route[|route| - 1])
    ensures pushed != stack ==> 4 * (StackWeight(pushed) - StackWeight(stack)) == Weight(route[|route| - 1])
  {
    var path := route[|route| - 1];
    var next := Move(city, path, d, straight);
    if next.Some? && Worth(city, path, next.value, total) {
      RouteExtends(city, route, next.value);
      StackWeightPush(stack, next.value);
      MoveWeight(city, path, d, straight);
      routes' := routes + [route + [next.value]];
      forall i | 0 <= i < |pushed|
        ensures Route(city, routes'[i]) && routes'[i][|routes'[i]| - 1] == pushed[i]
      {
        if i < |stack| {
          assert routes'[i] == routes[i] && pushed[i] == stack[i];
        }
      }
    } else {
      assert pushed == stack;
      routes' := routes;
    }
  }

  /** The moves of `minimize_heat_loss` from a path that is not at the
      end: the two turns, then the straight move when the path has a
      direction, each pushed when allowed and worth pursuing. The stack
      keeps holding routes, and weighs less than before the path was
      popped. */
  method ExpandPath(city: City, path: Path, totalHeatLoss: int, paths: seq<Path>,
                    ghost route: seq<Path>, ghost routes: seq<seq<Path>>)
    returns (pushed: seq<Path>, ghost routes': seq<seq<Path>>)
    requires WellFormed(city) && Searched(city, paths, routes) && Route(city, route)
    requires route[|route| - 1] == path && path.end != city.end
    ensures Searched(city, pushed, routes')
    ensures StackWeight(pushed) < StackWeight(paths) + Weight(path)
  {
    RouteStep(city, route, |route| - 1);
    var (firstDirection, secondDirection) := Turns(path.direction);
    var first := TryMove(city, path, firstDirection, false, totalHeatLoss, paths);
    var firstRoutes := PushKeeps(city, paths, routes, route, firstDirection, false, totalHeatLoss, first);
    var second := TryMove(city, path, secondDirection, false, totalHeatLoss, first);
    routes' := PushKeeps(city, first, firstRoutes, route, secondDirection, false, totalHeatLoss, second);
    pushed := second;
    if path.direction.Some? {
      pushed := TryMove(city, path, path.direction.value, true, totalHeatLoss, second);
      routes' := PushKeeps(city, second, routes', route, path.direction.value, true, totalHeatLoss, pushed);
    }
  }

  /** `City.minimize_heat_loss`: a depth-first search from the start over
      a stack of paths. A popped path at the end sets the answer to its
      heat loss; any other is replaced by the moves from it worth
      pursuing. The answer is 0, or the heat loss of a route from the
      start to the end. */
  method MinimizeHeatLoss(city: City) returns (totalHeatLoss: int)
    requires WellFormed(city)
    ensures totalHeatLoss >= 0
    ensures totalHeatLoss != 0 ==> exists route: seq<Path> :: (Route(city, route)
      && route[|route| - 1].end == city.end && route[|route| - 1].heatLoss == totalHeatLoss)
  {
    totalHeatLoss := 0;
    var trackedBlocks := CreateTrackedBlocks(city.height, city.width);
    var paths := [Path(None, 0, 0, 0, 0, 0, city.start, trackedBlocks)];
    ghost var routes := [paths];
    ghost var best: seq<Path> := [];
    assert Route(city, routes[0]);
    while |paths| != 0
      invariant Searched(city, paths, routes)
      invariant Reached(city, totalHeatLoss, best) && totalHeatLoss >= 0
      decreases StackWeight(paths)
    {
      var path := paths[|paths| - 1];
      ghost var route := routes[|routes| - 1];
      var rest := paths[..|paths| - 1];
      ghost var restRoutes := routes[..|routes| - 1];
      SearchedPop(city, paths, routes);
      paths := rest;
      routes := restRoutes;
      if path.end == city.end {
        RouteStep(city, route, |route| - 1);
        totalHeatLoss := path.heatLoss;
        best := route;
      } else {
        paths, routes := ExpandPath(city, path, totalHeatLoss, paths, route, routes);
      }
    }
    if totalHeatLoss != 0 {
      assert Route(city, best);
    }
  }

  /** The city `City.__init__` builds from `rows`: the grid's blocks with
      each digit's heat loss. */
  ghost predicate CityOf(city: City, rows: seq<string>)
  {
    && WellFormed(city) && rows != []
    && city.rows == rows && city.height == |rows| && city.width == |rows[0]|
    && forall p :: p in city.blocks ==> Readable(rows, p) && city.blocks[p].heatLoss == DigitValue(rows[p.y][p.x])
  }

  /** Part 1 of `solve_problem`: build the city from the lines, then
      search it. A non-zero answer is the heat loss of a route through the
      city of the lines that reaches the end block. */
  method SolveProblem(rows: seq<string>) returns (part1: Outcome<int>)
    ensures part1.Done? <==>
      rows != [] && |rows[0]| > 0 && forall p :: InCity(p, |rows[0]|, |rows|) ==> Readable(rows, p)
    ensures part1.Done? ==> part1.value >= 0
    ensures part1.Done? && part1.value != 0 ==>
      exists city: City, route: seq<Path> :: CityOf(city, rows) && Route(city, route) &&
        route[|route| - 1].end == city.end && route[|route| - 1].heatLoss == part1.value
  {
    var city := NewCity(rows);
    match city
    case Done(c) =>
      var heatLoss := MinimizeHeatLoss(c);
      assert CityOf(c, rows);
      if heatLoss != 0 {
        ghost var route: seq<Path> :| Route(c, route) && route[|route| - 1].end == c.end && route[|route| - 1].heatLoss == heatLoss;
        assert CityOf(c, rows) && Route(c, route) && route[|route| - 1].end == c.end && route[|route| - 1].heatLoss == heatLoss;
      }
      return Done(heatLoss);
    case IndexError => return IndexError;
    case ValueError => return ValueError;
    case KeyError => return KeyError;
  }
}
