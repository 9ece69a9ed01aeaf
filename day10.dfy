/** Day 10: a maze of pipes. Every cell of the grid is a tile; a pipe
    connects two of its four neighbours. The start tile 'S' is given the
    shape of the pipe that its linked neighbours imply, the loop through it
    is walked in breadth-first layers, and the tiles enclosed by the loop
    are counted row by row. A tile's name `x{x}y{y}` is injective in
    (x, y), so tiles are keyed by position. */
module Day10 {
  import opened Text
  import opened Grids

  datatype Direction = North | South | East | West

  /** The order of `determine_all_adjacent_tile_names`. */
  const Directions: seq<Direction> := [North, South, East, West]

  /** A tile: its character, whether it is known to be on the loop, its
      distance from the start and the positions its pipe connects to, as
      computed from its character when it was created. */
  datatype Tile = Tile(content: char, inLoop: bool, distance: int, connecting: seq<Pos>)

  // ---------------------------------------------------------------------
  // Neighbours and pipes

  /** `determine_adjacent_tile_name_in_direction`: north is y - 1, south
      y + 1, east x + 1 and west x - 1. */
  function Adjacent(p: Pos, d: Direction): Pos
  {
    match d
    case North => Pos(p.x, p.y - 1)
    case South => Pos(p.x, p.y + 1)
    case East => Pos(p.x + 1, p.y)
    case West => Pos(p.x - 1, p.y)
  }

  function Opposite(d: Direction): Direction
  {
    match d
    case North => South
    case South => North
    case East => West
    case West => East
  }

  /** Stepping in a direction and back returns to the tile, and the four
      neighbours are distinct from the tile and from each other. */
  lemma {:induction false} AdjacentMeaning(p: Pos, d: Direction, e: Direction)
    ensures Adjacent(Adjacent(p, d), Opposite(d)) == p
    ensures Adjacent(p, d) != p
    ensures Adjacent(p, d) == Adjacent(p, e) <==> d == e
  {
  }

  /** The directions a pipe opens to: | north and south, - east and west,
      L north and east, J north and west, 7 south and west, F south and
      east; any other character none. */
  function Openings(content: char): seq<Direction>
  {
    match content
    case '|' => [North, South]
    case '-' => [East, West]
    case 'L' => [North, East]
    case 'J' => [North, West]
    case '7' => [South, West]
    case 'F' => [South, East]
    case _ => []
  }

  /** `determine_connecting_tile_names`: the neighbours a tile at `p`
      holding `content` connects to. */
  function Connections(content: char, p: Pos): (r: seq<Pos>)
    ensures |r| == |Openings(content)|
    ensures forall i :: 0 <= i < |r| ==> r[i] == Adjacent(p, Openings(content)[i])
  {
    var openings := Openings(content);
    if openings == [] then [] else [Adjacent(p, openings[0]), Adjacent(p, openings[1])]
  }

  predicate IsPipe(c: char)
  {
    c in {'|', '-', 'L', 'J', '7', 'F'}
  }

  /** A pipe connects exactly two distinct neighbours; anything else
      connects none. */
  lemma {:induction false} ConnectionsMeaning(content: char, p: Pos)
    ensures IsPipe(content) ==>
      |Connections(content, p)| == 2 && Connections(content, p)[0] != Connections(content, p)[1]
    ensures !IsPipe(content) ==> Connections(content, p) == []
  {
  }

  /** The shape given to the start tile from the directions of the
      neighbours linked to it, the first matching pair in this order. */
  function StartShape(keys: seq<Direction>): Option<char>
  {
    if North in keys && South in keys then Some('|')
    else if East in keys && West in keys then Some('-')
    else if North in keys && East in keys then Some('L')
    else if North in keys && West in keys then Some('J')
    else if South in keys && West in keys then Some('7')
    else if South in keys && East in keys then Some('F')
    else None
  }

  /** Two distinct linked directions give the one pipe that opens exactly
      to them, and reading a pipe's openings gives the pipe back. */
  lemma {:induction false} StartShapeMeaning(keys: seq<Direction>, c: char)
    requires |keys| == 2 && keys[0] != keys[1]
    ensures StartShape(keys).Some?
    ensures (set d | d in Openings(StartShape(keys).value)) == (set d | d in keys)
    ensures IsPipe(c) ==> StartShape(Openings(c)) == Some(c)
  {
    var openings := Openings(StartShape(keys).value);
    assert (set d | d in openings) == {openings[0], openings[1]};
    assert (set d | d in keys) == {keys[0], keys[1]};
  }

  // ---------------------------------------------------------------------
  // The tiles of a grid

  /** `Tile.__init__` for the character at column x of row y, marked as on
      the loop when it is an 'S', as `create_tiles` does. */
  function NewTile(rows: seq<string>, x: nat, y: nat): (t: Tile)
    requires y < |rows| && x < |rows[y]|
    ensures t.content == rows[y][x] && t.distance == 0
    ensures t.inLoop <==> rows[y][x] == 'S'
    ensures t.connecting == Connections(rows[y][x], Pos(x, y))
  {
    Tile(rows[y][x], rows[y][x] == 'S', 0, Connections(rows[y][x], Pos(x, y)))
  }

  /** Row-major order, the order `create_tiles` visits the grid in. */
  predicate Before(p: Pos, q: Pos)
  {
    p.y < q.y || (p.y == q.y && p.x < q.x)
  }

  /** The tiles of the first `row` rows and the first `column` cells of row
      `row`, in the order `create_tiles` makes them. */
  ghost function TilesBefore(rows: seq<string>, width: nat, row: nat, column: nat): map<Pos, Tile>
    requires Rectangular(rows, width) && row <= |rows| && column <= width
    requires row == |rows| ==> column == 0
    decreases row, column
  {
    if column > 0 then TilesBefore(rows, width, row, column - 1)[Pos(column - 1, row) := NewTile(rows, column - 1, row)]
    else if row > 0 then TilesBefore(rows, width, row - 1, width)
    else map[]
  }

  /** The tiles made so far are exactly the cells before (`row`, `column`)
      in row-major order. */
  lemma {:induction false} TilesBeforeMeaning(rows: seq<string>, width: nat, row: nat, column: nat, p: Pos)
    requires Rectangular(rows, width) && row <= |rows| && column <= width
    requires row == |rows| ==> column == 0
    ensures p in TilesBefore(rows, width, row, column) <==>
      0 <= p.x < width && 0 <= p.y && Before(p, Pos(column, row))
    ensures p in TilesBefore(rows, width, row, column) ==>
      TilesBefore(rows, width, row, column)[p] == NewTile(rows, p.x, p.y)
    decreases row, column
  {
    if column > 0 {
      TilesBeforeMeaning(rows, width, row, column - 1, p);
    } else if row > 0 {
      TilesBeforeMeaning(rows, width, row - 1, width, p);
    }
  }

  /** `tiles` holds exactly one tile per cell of a grid `width` wide with
      a row per line, as `Tile.__init__` makes it from the cell's
      character. */
  ghost predicate GridTiles(tiles: map<Pos, Tile>, rows: seq<string>, width: nat)
    requires Rectangular(rows, width)
  {
    && (forall p {:trigger p in tiles} :: p in tiles <==> 0 <= p.x < width && 0 <= p.y < |rows|)
    && (forall p {:trigger tiles[p]} :: p in tiles ==> tiles[p] == NewTile(rows, p.x, p.y))
  }

  /** The tiles of the whole grid, as `create_tiles` builds them. */
  ghost function Grid(rows: seq<string>, width: nat): map<Pos, Tile>
    requires Rectangular(rows, width)
  {
    TilesBefore(rows, width, |rows|, 0)
  }

  /** Once every row is done, the tiles made are those of the grid. */
  lemma {:induction false} AllTilesMade(rows: seq<string>, width: nat)
    requires Rectangular(rows, width)
    ensures GridTiles(Grid(rows, width), rows, width)
  {
    forall p
      ensures p in TilesBefore(rows, width, |rows|, 0) <==> 0 <= p.x < width && 0 <= p.y < |rows|
      ensures p in TilesBefore(rows, width, |rows|, 0) ==> TilesBefore(rows, width, |rows|, 0)[p] == NewTile(rows, p.x, p.y)
    {
      TilesBeforeMeaning(rows, width, |rows|, 0, p);
    }
  }

  /** The start is the last 'S' in row-major order, and `None` when there
      is no 'S'. */
  ghost predicate LastStart(tiles: map<Pos, Tile>, start: Option<Pos>)
  {
    match start
    case None => forall p :: p in tiles ==> tiles[p].content != 'S'
    case Some(s) =>
      && s in tiles && tiles[s].content == 'S'
      && forall p :: p in tiles && Before(s, p) ==> tiles[p].content != 'S'
  }

  /** A grid holding an 'S' has a start, and it is one of its tiles. */
  lemma {:induction false} StartFound(rows: seq<string>, width: nat, start: Option<Pos>)
    requires Rectangular(rows, width) && LastStart(Grid(rows, width), start)
    requires exists x, y :: 0 <= y < |rows| && 0 <= x < width && rows[y][x] == 'S'
    ensures start.Some? && start.value in Grid(rows, width)
  {
    AllTilesMade(rows, width);
    var x, y :| 0 <= y < |rows| && 0 <= x < width && rows[y][x] == 'S';
    assert Pos(x, y) in Grid(rows, width);
  }

  // ---------------------------------------------------------------------
  // Linking the start

  /** The directions, among `dirs`, whose neighbour is a tile that lists
      `s` among its connections. */
  function StartLinks(tiles: map<Pos, Tile>, s: Pos, dirs: seq<Direction>): (r: seq<Direction>)
    ensures |r| <= |dirs|
    decreases |dirs|
  {
    if dirs == [] then []
    else
      var d := dirs[|dirs| - 1];
      var n := Adjacent(s, d);
      StartLinks(tiles, s, dirs[..|dirs| - 1]) +
        (if n in tiles && s in tiles[n].connecting then [d] else [])
  }

  /** A direction is linked exactly when its neighbour is a tile listing
      the start; the links keep the order of `dirs`. */
  lemma {:induction false} StartLinksMeaning(tiles: map<Pos, Tile>, s: Pos, dirs: seq<Direction>)
    ensures forall d :: d in StartLinks(tiles, s, dirs) <==>
      d in dirs && Adjacent(s, d) in tiles && s in tiles[Adjacent(s, d)].connecting
    decreases |dirs|
  {
    if dirs != [] {
      StartLinksMeaning(tiles, s, dirs[..|dirs| - 1]);
      assert dirs == dirs[..|dirs| - 1] + [dirs[|dirs| - 1]];
    }
  }

  /** The tiles once the start `s` holds the shape its links imply, when
      they imply one. */
  ghost function Relinked(tiles: map<Pos, Tile>, s: Pos): (r: map<Pos, Tile>)
    requires s in tiles
    ensures r.Keys == tiles.Keys && Links(r) == Links(tiles)
  {
    match StartShape(StartLinks(tiles, s, Directions))
    case Some(c) => tiles[s := tiles[s].(content := c)]
    case None => tiles
  }

  /** The neighbours of `s` in the given directions. */
  function Neighbours(s: Pos, dirs: seq<Direction>): (r: seq<Pos>)
    ensures |r| == |dirs|
    ensures forall i :: 0 <= i < |dirs| ==> r[i] == Adjacent(s, dirs[i])
  {
    seq(|dirs|, i requires 0 <= i < |dirs| => Adjacent(s, dirs[i]))
  }

  // ---------------------------------------------------------------------
  // Walking the loop

  /** The index of the last layer holding `p`, -1 when none does. */
  function LastLayer(layers: seq<seq<Pos>>, p: Pos): (r: int)
    ensures -1 <= r < |layers|
    ensures r >= 0 ==> p in layers[r] && forall i :: r < i < |layers| ==> p !in layers[i]
    ensures r == -1 ==> forall i :: 0 <= i < |layers| ==> p !in layers[i]
  {
    if layers == [] then -1
    else if p in layers[|layers| - 1] then |layers| - 1
    else LastLayer(layers[..|layers| - 1], p)
  }

  /** Adding a layer makes it the last one for its tiles and leaves the
      others alone. */
  lemma {:induction false} LastLayerStep(layers: seq<seq<Pos>>, layer: seq<Pos>, p: Pos)
    ensures LastLayer(layers + [layer], p) == if p in layer then |layers| else LastLayer(layers, p)
  {
    assert (layers + [layer])[..|layers|] == layers;
  }

  /** The connections of the tiles of `layer`, in order. */
  function Linked(links: map<Pos, seq<Pos>>, layer: seq<Pos>): seq<Pos>
    decreases |layer|
  {
    if layer == [] then []
    else
      var q := layer[|layer| - 1];
      Linked(links, layer[..|layer| - 1]) + (if q in links then links[q] else [])
  }

  /** What each tile connects to. */
  ghost function Links(tiles: map<Pos, Tile>): map<Pos, seq<Pos>>
  {
    map p | p in tiles :: tiles[p].connecting
  }

  /** A position in `Linked` is a connection of some tile of the layer. */
  lemma {:induction false} LinkedMeaning(links: map<Pos, seq<Pos>>, layer: seq<Pos>, r: Pos)
    requires r in Linked(links, layer)
    ensures exists q :: q in layer && q in links && r in links[q]
    decreases |layer|
  {
    var init := layer[..|layer| - 1];
    var q := layer[|layer| - 1];
    if r in Linked(links, init) {
      LinkedMeaning(links, init, r);
      var w :| w in init && w in links && r in links[w];
      assert w in layer;
    } else {
      assert q in layer;
    }
  }

  /** The tiles as the walk leaves them: a tile of some layer is on the
      loop with the number of its last layer (counting from 1) as its
      distance; every other tile is as it was. Characters and connections
      never change. */
  ghost predicate Walked(before: map<Pos, Tile>, after: map<Pos, Tile>, layers: seq<seq<Pos>>)
  {
    && after.Keys == before.Keys
    && forall p :: p in before ==>
         if LastLayer(layers, p) >= 0 then
           after[p] == before[p].(inLoop := true, distance := LastLayer(layers, p) + 1)
         else after[p] == before[p]
  }

  /** One round of the walk: the tiles of `current` are put on the loop at
      distance `layer`; the others stay as they were. */
  ghost predicate Marks(before: map<Pos, Tile>, after: map<Pos, Tile>, current: seq<Pos>, layer: int)
  {
    && after.Keys == before.Keys
    && forall p :: p in after ==>
         after[p] == if p in current then before[p].(inLoop := true, distance := layer) else before[p]
  }

  /** Every tile of a layer after the first is a connection of a tile of
      the layer before. */
  ghost predicate Chained(links: map<Pos, seq<Pos>>, layers: seq<seq<Pos>>)
  {
    forall i :: 0 <= i < |layers| - 1 ==> forall r :: r in layers[i + 1] ==> r in Linked(links, layers[i])
  }

  lemma {:induction false} ChainedStep(links: map<Pos, seq<Pos>>, layers: seq<seq<Pos>>, current: seq<Pos>)
    requires Chained(links, layers)
    requires |layers| > 0 ==> forall r :: r in current ==> r in Linked(links, layers[|layers| - 1])
    ensures Chained(links, layers + [current])
  {
    var extended := layers + [current];
    forall i | 0 <= i < |extended| - 1
      ensures forall r :: r in extended[i + 1] ==> r in Linked(links, extended[i])
    {
      assert extended[i] == layers[i];
      if i + 1 < |layers| {
        assert extended[i + 1] == layers[i + 1];
      }
    }
  }

  /** What holds between the rounds of the walk: the layers so far are
      non-empty, start with `first` and are chained by connections, the
      pending layer continues the chain, and the tiles are as the layers
      so far leave them. */
  ghost predicate WalkState(initial: map<Pos, Tile>, tiles: map<Pos, Tile>, layers: seq<seq<Pos>>,
                            current: seq<Pos>, first: seq<Pos>)
  {
    && (forall i :: 0 <= i < |layers| ==> layers[i] != [])
    && (|layers| > 0 ==> layers[0] == first)
    && (layers == [] ==> current == first)
    && (forall p :: p in current ==> p in tiles)
    && (|layers| > 0 ==> forall r :: r in current ==> r in Linked(Links(initial), layers[|layers| - 1]))
    && Chained(Links(initial), layers)
    && Walked(initial, tiles, layers)
    && Links(tiles) == Links(initial)
  }

  /** A round of the walk keeps `WalkState`. */
  lemma {:induction false} WalkRound(initial: map<Pos, Tile>, before: map<Pos, Tile>, after: map<Pos, Tile>,
                  layers: seq<seq<Pos>>, current: seq<Pos>, first: seq<Pos>, next: seq<Pos>)
    requires WalkState(initial, before, layers, current, first) && current != []
    requires Marks(before, after, current, |layers| + 1)
    requires forall r :: r in next ==> r in after && r in Linked(Links(before), current)
    ensures WalkState(initial, after, layers + [current], next, first)
  {
    WalkedStep(initial, before, after, layers, current);
    MarksKeepLinks(before, after, current, |layers| + 1);
    ChainedStep(Links(initial), layers, current);
  }

  /** Every tile of `current` is on the loop. */
  ghost predicate OnLoop(tiles: map<Pos, Tile>, current: seq<Pos>)
  {
    forall t :: t in current && t in tiles ==> tiles[t].inLoop
  }

  /** A round of the walk changes no tile's connections. */
  lemma {:induction false} MarksKeepLinks(before: map<Pos, Tile>, after: map<Pos, Tile>, current: seq<Pos>, layer: int)
    requires Marks(before, after, current, layer)
    ensures Links(after) == Links(before)
  {
  }

  /** A round of the walk extends the walk by its layer. */
  lemma {:induction false} WalkedStep(initial: map<Pos, Tile>, before: map<Pos, Tile>, after: map<Pos, Tile>,
                   layers: seq<seq<Pos>>, current: seq<Pos>)
    requires Walked(initial, before, layers)
    requires Marks(before, after, current, |layers| + 1)
    ensures Walked(initial, after, layers + [current])
  {
    forall p | p in initial
      ensures LastLayer(layers + [current], p) == if p in current then |layers| else LastLayer(layers, p)
    {
      LastLayerStep(layers, current, p);
    }
  }

  /** Each round of the walk either puts some tile on the loop, or finds
      every tile of its layer already there, changes nothing and hands on
      only tiles off the loop. */
  lemma {:induction false} WalkProgress(before: map<Pos, Tile>, after: map<Pos, Tile>, current: seq<Pos>, layer: int, next: seq<Pos>)
    requires current != [] && Marks(before, after, current, layer)
    requires forall r :: r in next ==> r in after
    requires OnLoop(before, current) ==> forall r :: r in next ==> !after[r].inLoop
    ensures OffLoop(after) < OffLoop(before) ||
      (OffLoop(after) == OffLoop(before) && Pending(before, current) == 1 && Pending(after, next) == 0)
  {
    assert OffLoop(after) <= OffLoop(before);
    if Pending(before, current) == 0 {
      var t :| t in current && t in before && !before[t].inLoop;
      assert t in OffLoop(before) && t !in OffLoop(after);
    } else {
      assert OffLoop(after) == OffLoop(before);
      if next != [] {
        assert next[0] in next && next[0] in after && !after[next[0]].inLoop;
      }
    }
  }

  /** The tiles of `names` that are not yet on the loop, in order. */
  function Unvisited(tiles: map<Pos, Tile>, names: seq<Pos>): (r: seq<Pos>)
    ensures forall n :: n in r ==> n in names && n in tiles && !tiles[n].inLoop
    decreases |names|
  {
    if names == [] then []
    else
      var n := names[|names| - 1];
      Unvisited(tiles, names[..|names| - 1]) + (if n in tiles && !tiles[n].inLoop then [n] else [])
  }

  /** The tiles off the loop. */
  ghost function OffLoop(tiles: map<Pos, Tile>): set<Pos>
  {
    set p | p in tiles && !tiles[p].inLoop
  }

  /** Whether some tile of the layer is still off the loop (or the layer
      is empty): then the walk makes progress on it. */
  ghost function Pending(tiles: map<Pos, Tile>, layer: seq<Pos>): int
  {
    if layer == [] || exists t :: t in layer && t in tiles && !tiles[t].inLoop then 0 else 1
  }

  /** One round of `traverse_loop`'s layer loop: the tiles of `current` are
      put on the loop at distance `layer` one after the other, and after
      each, its connections that are tiles off the loop at that moment are
      collected. Returns the tiles and the next layer. */
  function Round(tiles: map<Pos, Tile>, current: seq<Pos>, layer: int): (map<Pos, Tile>, seq<Pos>)
    decreases |current|
  {
    if current == [] then (tiles, [])
    else
      var (before, collected) := Round(tiles, current[..|current| - 1], layer);
      var p := current[|current| - 1];
      if p in before then
        var after := before[p := before[p].(inLoop := true, distance := layer)];
        (after, collected + Unvisited(after, after[p].connecting))
      else (before, collected)
  }

  /** A round marks exactly its layer, finds only connections of the layer
      that are tiles, and, when its layer was on the loop already, finds only
      tiles off the loop. */
  lemma {:induction false} RoundFacts(tiles: map<Pos, Tile>, current: seq<Pos>, layer: int)
    ensures Marks(tiles, Round(tiles, current, layer).0, current, layer)
    ensures forall r :: r in Round(tiles, current, layer).1 ==>
      r in Round(tiles, current, layer).0 && r in Linked(Links(tiles), current)
    ensures OnLoop(tiles, current) ==>
      forall r :: r in Round(tiles, current, layer).1 ==> !Round(tiles, current, layer).0[r].inLoop
    decreases |current|
  {
    if current != [] {
      var init := current[..|current| - 1];
      var p := current[|current| - 1];
      RoundFacts(tiles, init, layer);
      var (before, collected) := Round(tiles, init, layer);
      var (after, next) := Round(tiles, current, layer);
      assert current == init + [p];
      assert Linked(Links(tiles), current) ==
        Linked(Links(tiles), init) + (if p in Links(tiles) then Links(tiles)[p] else []);
      assert forall q :: q in current <==> q in init || q == p;
      if p in before {
        assert after == before[p := before[p].(inLoop := true, distance := layer)];
        assert before[p].connecting == tiles[p].connecting;
        assert next == collected + Unvisited(after, after[p].connecting);
      }
    }
  }

  /** `traverse_loop`'s layer loop from layer `current` on, the rounds so far
      being `layer`: rounds follow each other until one finds no tile.
      Returns the final tiles and the layers walked. It ends because each
      round puts a tile on the loop, or, when every tile of its layer
      already was, hands on only tiles off the loop. */
  ghost function Walk(tiles: map<Pos, Tile>, current: seq<Pos>, layer: nat): (map<Pos, Tile>, seq<seq<Pos>>)
    decreases OffLoop(tiles), Pending(tiles, current)
  {
    if current == [] then (tiles, [])
    else
      var (after, next) := Round(tiles, current, layer + 1);
      RoundFacts(tiles, current, layer + 1);
      WalkProgress(tiles, after, current, layer + 1, next);
      var (final, rest) := Walk(after, next, layer + 1);
      (final, [current] + rest)
  }

  /** A walk from a non-empty layer is that layer followed by the walk from
      the layer its round finds. */
  lemma {:induction false} WalkUnfold(tiles: map<Pos, Tile>, current: seq<Pos>, layer: nat,
                                      after: map<Pos, Tile>, next: seq<Pos>)
    requires current != [] && (after, next) == Round(tiles, current, layer + 1)
    ensures Walk(tiles, current, layer) ==
      (Walk(after, next, layer + 1).0, [current] + Walk(after, next, layer + 1).1)
  {
  }

  lemma {:induction false} AppendLayer(layers: seq<seq<Pos>>, current: seq<Pos>, rest: seq<seq<Pos>>)
    ensures layers + ([current] + rest) == (layers + [current]) + rest
  {
  }

  // ---------------------------------------------------------------------
  // Counting the inside

  /** A loop tile shaped |, J or L: passing it crosses the loop. */
  predicate Crosses(t: Tile)
  {
    t.inLoop && (t.content == '|' || t.content == 'J' || t.content == 'L')
  }

  /** The crossing tiles among the first `x` columns of row `y`. */
  function Crossings(tiles: map<Pos, Tile>, y: int, x: nat): nat
  {
    if x == 0 then 0
    else Crossings(tiles, y, x - 1) + (if Pos(x - 1, y) in tiles && Crosses(tiles[Pos(x - 1, y)]) then 1 else 0)
  }

  /** The tiles among the first `x` columns of row `y` that are off the
      loop with an odd number of crossings to their left. */
  function InsideInRow(tiles: map<Pos, Tile>, y: int, x: nat): (r: nat)
    ensures r <= x
  {
    if x == 0 then 0
    else
      var p := Pos(x - 1, y);
      InsideInRow(tiles, y, x - 1) +
        (if p in tiles && !tiles[p].inLoop && Crossings(tiles, y, x - 1) % 2 == 1 then 1 else 0)
  }

  /** The inside tiles of the first `rows` rows of a grid `width` wide. */
  function Inside(tiles: map<Pos, Tile>, width: nat, rows: nat): (r: nat)
    ensures r <= width * rows
  {
    if rows == 0 then 0 else Inside(tiles, width, rows - 1) + InsideInRow(tiles, rows - 1, width)
  }

  /** A row with no crossing tile has nothing inside. */
  lemma {:induction false} NoCrossingNothingInside(tiles: map<Pos, Tile>, y: int, x: nat)
    requires forall c :: 0 <= c < x && Pos(c, y) in tiles ==> !Crosses(tiles[Pos(c, y)])
    ensures Crossings(tiles, y, x) == 0 && InsideInRow(tiles, y, x) == 0
  {
    if x > 0 {
      NoCrossingNothingInside(tiles, y, x - 1);
    }
  }

  // ---------------------------------------------------------------------
  // The maze

  class Maze {
    var rows: seq<string>
    var height: nat
    var width: nat
    var tiles: map<Pos, Tile>
    var start: Option<Pos>
    var maximumDistanceFromStart: nat
    var totalInsideCount: nat
    /** The tiles as `create_tiles` made them, and the layers of the walk
        along the loop. */
    ghost var created: map<Pos, Tile>
    ghost var layers: seq<seq<Pos>>

    /** `Maze.__init__`: the tiles of the grid, the loop walked from the
        start, then the inside counted. The source reads `rows[0]` for the
        width and every row up to that width, and needs an 'S'. */
    constructor (lines: seq<string>)
      requires |lines| > 0 && Rectangular(lines, |lines[0]|)
      requires exists x, y :: 0 <= y < |lines| && 0 <= x < |lines[0]| && lines[y][x] == 'S'
      ensures rows == lines && height == |lines| && width == |lines[0]|
      ensures created == Grid(lines, width)
      ensures start.Some? && LastStart(created, start)
      ensures maximumDistanceFromStart == |layers|
      ensures (tiles, layers) == Walk(Relinked(created, start.value),
        Neighbours(start.value, StartLinks(created, start.value, Directions)), 0)
      ensures |layers| > 0 ==>
        layers[0] == Neighbours(start.value, StartLinks(created, start.value, Directions))
      ensures Chained(Links(created), layers)
      ensures Walked(Relinked(created, start.value), tiles, layers)
      ensures totalInsideCount == Inside(tiles, width, height)
    {
      rows := lines;
      height := |lines|;
      width := |lines[0]|;
      tiles := map[];
      start := None;
      created := map[];
      layers := [];
      maximumDistanceFromStart := 0;
      totalInsideCount := 0;
      new;
      CreateTiles();
      StartFound(lines, width, start);
      created := tiles;
      Explore();
    }

    /** The rest of `Maze.__init__` once the tiles exist: the loop is
        walked from the start and the inside is counted. */
    method Explore()
      requires start.Some? && start.value in tiles
      modifies this`tiles, this`maximumDistanceFromStart, this`totalInsideCount, this`layers
      ensures maximumDistanceFromStart == |layers|
      ensures (tiles, layers) == Walk(Relinked(old(tiles), start.value),
        Neighbours(start.value, StartLinks(old(tiles), start.value, Directions)), 0)
      ensures |layers| > 0 ==>
        layers[0] == Neighbours(start.value, StartLinks(old(tiles), start.value, Directions))
      ensures Chained(Links(old(tiles)), layers)
      ensures Walked(Relinked(old(tiles), start.value), tiles, layers)
      ensures totalInsideCount == Inside(tiles, width, height)
    {
      maximumDistanceFromStart, layers := TraverseLoop();
      totalInsideCount := TraverseMazeForInsideCount();
    }

    /** `create_tiles`: one tile per cell of the grid; the start is the last
        'S' met in row-major order. */
    method CreateTiles()
      requires Rectangular(rows, width) && height == |rows|
      modifies this`tiles, this`start
      ensures tiles == Grid(rows, width)
      ensures LastStart(tiles, start)
    {
      var made: map<Pos, Tile> := map[];
      var found: Option<Pos> := None;
      for row := 0 to height
        invariant made == TilesBefore(rows, width, row, 0)
        invariant LastStart(made, found)
      {
        for column := 0 to width
          invariant made == TilesBefore(rows, width, row, column)
          invariant LastStart(made, found)
        {
          var tile := NewTile(rows, column, row);
          forall p | p in made
            ensures Before(p, Pos(column, row))
          {
            TilesBeforeMeaning(rows, width, row, column, p);
          }
          made := made[Pos(column, row) := tile];
          if rows[row][column] == 'S' {
            found := Some(Pos(column, row));
          }
        }
      }
      tiles := made;
      start := found;
    }

    /** `find_tiles_connected_to_start`: the neighbours, in the order
        north, south, east, west, that list the start among their
        connections; the start's character becomes the pipe those
        directions imply, when they imply one. */
    method FindTilesConnectedToStart() returns (connected: seq<Pos>)
      requires start.Some? && start.value in tiles
      modifies this`tiles
      ensures connected == Neighbours(start.value, StartLinks(old(tiles), start.value, Directions))
      ensures tiles == Relinked(old(tiles), start.value)
    {
      var s := start.value;
      var keys: seq<Direction> := [];
      connected := [];
      for i := 0 to 4
        invariant keys == StartLinks(tiles, s, Directions[..i])
        invariant connected == Neighbours(s, keys)
      {
        assert Directions[..i + 1][..i] == Directions[..i];
        var n := Adjacent(s, Directions[i]);
        if n in tiles && s in tiles[n].connecting {
          connected := connected + [n];
          keys := keys + [Directions[i]];
        }
      }
      assert Directions[..4] == Directions;
      var shape := StartShape(keys);
      if shape.Some? {
        tiles := tiles[s := tiles[s].(content := shape.value)];
      }
    }

    /** `traverse_loop`: the layers of the walk, the first being the tiles
        linked to the start; each tile of a layer is put on the loop with
        the layer's number as its distance, and its connections that are
        tiles not yet on the loop form the next layer. Returns the number of
        layers. */
    method TraverseLoop() returns (layer: nat, ghost layers: seq<seq<Pos>>)
      requires start.Some? && start.value in tiles
      modifies this`tiles
      ensures layer == |layers| && (forall i :: 0 <= i < |layers| ==> layers[i] != [])
      ensures (tiles, layers) == Walk(Relinked(old(tiles), start.value),
        Neighbours(start.value, StartLinks(old(tiles), start.value, Directions)), 0)
      ensures |layers| > 0 ==>
        layers[0] == Neighbours(start.value, StartLinks(old(tiles), start.value, Directions))
      ensures Chained(Links(old(tiles)), layers)
      ensures Walked(Relinked(old(tiles), start.value), tiles, layers)
    {
      var first := FindTilesConnectedToStart();
      StartLinksMeaning(old(tiles), start.value, Directions);
      layer, layers := WalkLayers(first);
    }

    /** The layer loop of `traverse_loop`, from the first layer on. */
    method WalkLayers(first: seq<Pos>) returns (layer: nat, ghost layers: seq<seq<Pos>>)
      requires forall p :: p in first ==> p in tiles
      modifies this`tiles
      ensures (tiles, layers) == Walk(old(tiles), first, 0) && layer == |layers|
      ensures forall i :: 0 <= i < |layers| ==> layers[i] != []
      ensures |layers| > 0 ==> layers[0] == first
      ensures Chained(Links(old(tiles)), layers)
      ensures Walked(old(tiles), tiles, layers)
    {
      ghost var initial := tiles;
      var current := first;
      layer := 0;
      layers := [];
      assert layers + Walk(tiles, current, layer).1 == Walk(tiles, current, layer).1;
      while current != []
        invariant layer == |layers| && WalkState(initial, tiles, layers, current, first)
        invariant Walk(initial, first, 0) == (Walk(tiles, current, layer).0, layers + Walk(tiles, current, layer).1)
        decreases OffLoop(tiles), Pending(tiles, current)
      {
        ghost var before := tiles;
        var next := VisitLayer(current, layer + 1);
        RoundFacts(before, current, layer + 1);
        WalkProgress(before, tiles, current, layer + 1, next);
        WalkRound(initial, before, tiles, layers, current, first, next);
        WalkUnfold(before, current, layer, tiles, next);
        ghost var rest := Walk(tiles, next, layer + 1).1;
        AppendLayer(layers, current, rest);
        layer := layer + 1;
        layers := layers + [current];
        current := next;
      }
      assert Walk(tiles, current, layer) == (tiles, []);
      assert layers + [] == layers;
    }

    /** One round of the layer loop: every tile of `current` is put on the
        loop at distance `layer`, and the connections of each that are tiles
        not (yet) on the loop are collected, in order. */
    method VisitLayer(current: seq<Pos>, layer: nat) returns (next: seq<Pos>)
      requires forall p :: p in current ==> p in tiles
      modifies this`tiles
      ensures (tiles, next) == Round(old(tiles), current, layer)
    {
      next := [];
      for j := 0 to |current|
        invariant tiles.Keys == old(tiles).Keys
        invariant (tiles, next) == Round(old(tiles), current[..j], layer)
      {
        assert current[..j + 1][..j] == current[..j];
        var found := VisitTile(current[j], layer);
        next := next + found;
      }
      assert current[..|current|] == current;
    }

    /** One tile of a layer: it is put on the loop at distance `layer`, and
        its connections that are tiles off the loop are returned. */
    method VisitTile(p: Pos, layer: nat) returns (found: seq<Pos>)
      requires p in tiles
      modifies this`tiles
      ensures tiles == old(tiles)[p := old(tiles)[p].(inLoop := true, distance := layer)]
      ensures found == Unvisited(tiles, tiles[p].connecting)
    {
      tiles := tiles[p := tiles[p].(inLoop := true, distance := layer)];
      found := UnvisitedConnections(p);
    }

    /** The inner loop over a tile's connections: those that are tiles not
        on the loop. */
    method UnvisitedConnections(p: Pos) returns (found: seq<Pos>)
      requires p in tiles
      ensures found == Unvisited(tiles, tiles[p].connecting)
    {
      var names := tiles[p].connecting;
      found := [];
      for i := 0 to |names|
        invariant found == Unvisited(tiles, names[..i])
      {
        assert names[..i + 1][..i] == names[..i];
        if names[i] in tiles && !tiles[names[i]].inLoop {
          found := found + [names[i]];
        }
      }
      assert names[..|names|] == names;
    }

    /** `traverse_maze_for_inside_count`: row by row, a running count of
        the crossing tiles passed; a tile off the loop is inside when that
        count is odd. */
    method TraverseMazeForInsideCount() returns (insideCount: nat)
      ensures insideCount == Inside(tiles, width, height)
    {
      insideCount := 0;
      for row := 0 to height
        invariant insideCount == Inside(tiles, width, row)
      {
        var crossedLoopCount := 0;
        var inRow := 0;
        for column := 0 to width
          invariant crossedLoopCount == Crossings(tiles, row, column)
          invariant inRow == InsideInRow(tiles, row, column)
        {
          var p := Pos(column, row);
          if p in tiles {
            if tiles[p].inLoop {
              if tiles[p].content == '|' || tiles[p].content == 'J' || tiles[p].content == 'L' {
                crossedLoopCount := crossedLoopCount + 1;
              }
            } else {
              if crossedLoopCount % 2 == 1 {
                inRow := inRow + 1;
              }
            }
          }
        }
        insideCount := insideCount + inRow;
      }
    }
  }
}
