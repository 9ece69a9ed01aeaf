/** Day 16: a beam of light crosses a grid of mirrors ('/' and '\'),
    splitters ('|' and '-') and empty space ('.'). Every tile remembers,
    per heading, whether a beam has already passed it that way; a beam
    stops when it leaves the grid or repeats a (tile, heading) pair, and
    a splitter fires two new beams. The answer is the number of tiles a
    beam has crossed. */
module Day16 {
  import opened Grids
  import opened Sums

  /** The keys of `beams_tracker`: ">", "<", "^" and "v". */
  datatype Heading = Right | Left | Up | Down

  /** A beam about to act on the tile at `at`, travelling along `heading`. */
  datatype Ray = Ray(at: Pos, heading: Heading)

  /** A tile: its character, whether a beam has crossed it, and the
      headings its `beams_tracker` has set to 1. */
  datatype Tile = Tile(content: char, energized: bool, tracker: set<Heading>)

  const AllHeadings: set<Heading> := {Right, Left, Up, Down}

  // ---------------------------------------------------------------------
  // Headings and moves

  /** The heading of a beam moving along the given axis, one cell per step
      by `increment` (1 or -1). */
  function HeadingOf(horizontal: bool, increment: int): Heading
  {
    if horizontal && increment == 1 then Right
    else if horizontal && increment == -1 then Left
    else if !horizontal && increment == -1 then Up
    else Down
  }

  predicate Horizontal(h: Heading)
  {
    h == Right || h == Left
  }

  function Increment(h: Heading): int
  {
    if h == Right || h == Down then 1 else -1
  }

  /** The heading names the axis and the increment it was made from. */
  lemma {:induction false} HeadingOfMeaning(horizontal: bool, increment: int)
    requires increment == 1 || increment == -1
    ensures Horizontal(HeadingOf(horizontal, increment)) == horizontal
    ensures Increment(HeadingOf(horizontal, increment)) == increment
    ensures HeadingOf(Horizontal(HeadingOf(horizontal, increment)), Increment(HeadingOf(horizontal, increment)))
      == HeadingOf(horizontal, increment)
  {
  }

  function Opposite(h: Heading): Heading
  {
    match h
    case Right => Left
    case Left => Right
    case Up => Down
    case Down => Up
  }

  /** The cell one step along `h`. */
  function Step(p: Pos, h: Heading): Pos
  {
    if Horizontal(h) then Pos(p.x + Increment(h), p.y) else Pos(p.x, p.y + Increment(h))
  }

  /** A mirror swaps the axis of motion; '/' also reverses the increment. */
  function Turn(h: Heading, c: char): Heading
  {
    HeadingOf(!Horizontal(h), if c == '/' then -Increment(h) else Increment(h))
  }

  /** '.', a '|' met vertically and a '-' met horizontally let the beam on. */
  predicate PassesThrough(c: char, h: Heading)
  {
    c == '.' || (c == '|' && !Horizontal(h)) || (c == '-' && Horizontal(h))
  }

  /** The beams leaving a tile holding `c` that `r` has just reached: the
      same beam one step on, the two beams a splitter fires, or the beam
      turned by a mirror and moved one step. */
  function Next(r: Ray, c: char): set<Ray>
  {
    var h := r.heading;
    if PassesThrough(c, h) then {Ray(Step(r.at, h), h)}
    else if c == '|' then {Ray(Pos(r.at.x, r.at.y + 1), Down), Ray(Pos(r.at.x, r.at.y - 1), Up)}
    else if c == '-' then {Ray(Pos(r.at.x + 1, r.at.y), Right), Ray(Pos(r.at.x - 1, r.at.y), Left)}
    else {Ray(Step(r.at, Turn(h, c)), Turn(h, c))}
  }

  /** Every beam leaving a tile starts next to it; a splitter met across
      its axis sends two beams out of its ends, the ones along its axis,
      and no beam leaves a tile back the way it came in except through a
      splitter. */
  lemma {:induction false} NextMeaning(r: Ray, c: char)
    ensures forall n :: n in Next(r, c) ==> n.at == Step(r.at, n.heading)
    ensures !PassesThrough(c, r.heading) && (c == '|' || c == '-') ==>
      |Next(r, c)| == 2 && forall n :: n in Next(r, c) ==> Horizontal(n.heading) == (c == '-')
    ensures !(c in {'.', '|', '-'}) ==>
      |Next(r, c)| == 1 && forall n :: n in Next(r, c) ==> Horizontal(n.heading) != Horizontal(r.heading)
    ensures PassesThrough(c, r.heading) ==> Next(r, c) == {Ray(Step(r.at, r.heading), r.heading)}
  {
  }

  /** A mirror undoes itself: turning twice on the same mirror restores
      the heading, and a beam sent back along its way out leaves along its
      way in, reversed. */
  lemma {:induction false} TurnReversible(h: Heading, c: char)
    ensures Turn(Turn(h, c), c) == h
    ensures Turn(Opposite(Turn(h, c)), c) == Opposite(h)
  {
  }

  // ---------------------------------------------------------------------
  // The tiles of a grid

  predicate OnGrid(rows: seq<string>, width: nat, p: Pos)
  {
    0 <= p.x < width && 0 <= p.y < |rows|
  }

  /** Row-major order, the order `create_tiles` visits the grid in. */
  predicate Before(p: Pos, q: Pos)
  {
    p.y < q.y || (p.y == q.y && p.x < q.x)
  }

  /** `Tile.__init__`: not energized, every tracker at 0. */
  function NewTile(rows: seq<string>, width: nat, p: Pos): Tile
    requires Rectangular(rows, width) && OnGrid(rows, width, p)
  {
    Tile(rows[p.y][p.x], false, {})
  }

  /** The tiles of the first `row` rows and the first `column` cells of row
      `row`, in the order `create_tiles` makes them. */
  ghost function TilesBefore(rows: seq<string>, width: nat, row: nat, column: nat): map<Pos, Tile>
    requires Rectangular(rows, width) && row <= |rows| && column <= width
    requires row == |rows| ==> column == 0
    decreases row, column
  {
    if column > 0 then
      TilesBefore(rows, width, row, column - 1)[Pos(column - 1, row) := NewTile(rows, width, Pos(column - 1, row))]
    else if row > 0 then TilesBefore(rows, width, row - 1, width)
    else map[]
  }

  /** The tiles made so far are exactly the cells before (`row`, `column`)
      in row-major order, one per cell. */
  lemma {:induction false} TilesBeforeMeaning(rows: seq<string>, width: nat, row: nat, column: nat, p: Pos)
    requires Rectangular(rows, width) && row <= |rows| && column <= width
    requires row == |rows| ==> column == 0
    ensures p in TilesBefore(rows, width, row, column) <==>
      0 <= p.x < width && 0 <= p.y && Before(p, Pos(column, row))
    ensures p in TilesBefore(rows, width, row, column) ==>
      OnGrid(rows, width, p) && TilesBefore(rows, width, row, column)[p] == NewTile(rows, width, p)
    decreases row, column
  {
    if column > 0 {
      TilesBeforeMeaning(rows, width, row, column - 1, p);
    } else if row > 0 {
      TilesBeforeMeaning(rows, width, row - 1, width, p);
    }
  }

  /** One tile per cell made so far. */
  lemma {:induction false} TilesBeforeCount(rows: seq<string>, width: nat, row: nat, column: nat)
    requires Rectangular(rows, width) && row <= |rows| && column <= width
    requires row == |rows| ==> column == 0
    ensures |TilesBefore(rows, width, row, column)| == row * width + column
    decreases row, column
  {
    if column > 0 {
      TilesBeforeCount(rows, width, row, column - 1);
      TilesBeforeMeaning(rows, width, row, column - 1, Pos(column - 1, row));
    } else if row > 0 {
      TilesBeforeCount(rows, width, row - 1, width);
      assert (row - 1) * width + width == row * width;
    }
  }

  /** The tiles of the whole grid, as `create_tiles` builds them. */
  ghost function Grid(rows: seq<string>, width: nat): map<Pos, Tile>
    requires Rectangular(rows, width)
  {
    TilesBefore(rows, width, |rows|, 0)
  }

  /** The grid has a tile for each of its `width` * `height` cells, each
      holding the cell's character, not energized, with no tracker set. */
  lemma {:induction false} GridMeaning(rows: seq<string>, width: nat)
    requires Rectangular(rows, width)
    ensures |Grid(rows, width)| == |rows| * width
    ensures forall p :: p in Grid(rows, width) <==> OnGrid(rows, width, p)
    ensures forall p :: p in Grid(rows, width) ==> Grid(rows, width)[p] == NewTile(rows, width, p)
    ensures Cleared(Grid(rows, width))
  {
    TilesBeforeCount(rows, width, |rows|, 0);
    forall p
      ensures p in Grid(rows, width) <==> OnGrid(rows, width, p)
      ensures p in Grid(rows, width) ==> Grid(rows, width)[p] == NewTile(rows, width, p)
    {
      TilesBeforeMeaning(rows, width, |rows|, 0, p);
    }
  }

  /** The characters of the tiles: what the beams see. */
  ghost function Contents(tiles: map<Pos, Tile>): map<Pos, char>
  {
    map p | p in tiles :: tiles[p].content
  }

  /** Every tile is as `reset_energized_values` leaves it. */
  ghost predicate Cleared(tiles: map<Pos, Tile>)
  {
    forall p :: p in tiles ==> !tiles[p].energized && tiles[p].tracker == {}
  }

  /** A tile is energized exactly when some tracker of it is set. */
  ghost predicate WellFormed(tiles: map<Pos, Tile>)
  {
    forall p :: p in tiles ==> (tiles[p].energized <==> tiles[p].tracker != {})
  }

  /** `reset_energized_values` applied to `tiles`. */
  ghost function Reset(tiles: map<Pos, Tile>): (r: map<Pos, Tile>)
    ensures Cleared(r) && Contents(r) == Contents(tiles)
  {
    map p | p in tiles :: Tile(tiles[p].content, false, {})
  }

  /** Resetting cleared tiles changes nothing. */
  lemma {:induction false} ResetCleared(before: map<Pos, Tile>, after: map<Pos, Tile>)
    requires Cleared(before) && Contents(after) == Contents(before)
    ensures Reset(after) == before
  {
    forall p | p in before
      ensures p in Reset(after) && Reset(after)[p] == before[p]
    {
      assert Contents(after)[p] == Contents(before)[p];
    }
  }

  // ---------------------------------------------------------------------
  // Where the beams go

  /** A tracker of the tile at `r.at` records a beam along `r.heading`. */
  ghost predicate Lit(tiles: map<Pos, Tile>, r: Ray)
  {
    r.at in tiles && r.heading in tiles[r.at].tracker
  }

  /** Lit in `after` and not in `before`. */
  ghost predicate Fresh(before: map<Pos, Tile>, after: map<Pos, Tile>, r: Ray)
  {
    Lit(after, r) && !Lit(before, r)
  }

  /** `after` is `before` with more trackers set, nothing else changed. */
  ghost predicate Grown(before: map<Pos, Tile>, after: map<Pos, Tile>)
  {
    && Contents(after) == Contents(before)
    && forall p :: p in before ==> p in after && before[p].tracker <= after[p].tracker
  }

  /** A set of beams closed under `Next` on the grid of characters `grid`:
      every beam in it is on the grid, and so is every beam it sends on to
      a cell of the grid. */
  ghost predicate ClosedIn(grid: map<Pos, char>, beams: set<Ray>)
  {
    forall r :: r in beams ==>
      r.at in grid && forall n :: n in Next(r, grid[r.at]) && n.at in grid ==> n in beams
  }

  /** `beams` is everywhere a beam fired as `start` goes on `grid`: the
      least set closed under `Next` that holds `start` when `start` is on
      the grid. */
  ghost predicate Least(grid: map<Pos, char>, start: Ray, beams: set<Ray>)
  {
    && ClosedIn(grid, beams)
    && (start.at in grid ==> start in beams)
    && forall others :: ClosedIn(grid, others) && (start.at in grid ==> start in others) ==> beams <= others
  }

  /** There is one such set. */
  lemma {:induction false} LeastUnique(grid: map<Pos, char>, start: Ray, a: set<Ray>, b: set<Ray>)
    requires Least(grid, start, a) && Least(grid, start, b)
    ensures a == b
  {
  }

  /** The cells the beams cross. */
  function Cells(beams: set<Ray>): set<Pos>
  {
    set r | r in beams :: r.at
  }

  /** A beam fired onto the grid crosses at least its first cell and at
      most every cell. */
  lemma {:induction false} LeastBounds(grid: map<Pos, char>, start: Ray, beams: set<Ray>)
    requires Least(grid, start, beams)
    ensures Cells(beams) <= grid.Keys && |Cells(beams)| <= |grid|
    ensures start.at in grid ==> |Cells(beams)| >= 1
    ensures start.at !in grid ==> beams == {}
  {
    assert Cells(beams) <= grid.Keys;
    Cardinality(Cells(beams), grid.Keys);
    if start.at in grid {
      assert start.at in Cells(beams);
    } else {
      assert ClosedIn(grid, {});
    }
  }

  lemma {:induction false} Cardinality<T>(a: set<T>, b: set<T>)
    requires a <= b
    ensures |a| <= |b|
  {
    assert b == a + (b - a);
  }

  /** The progress of a firing of `start` that began on `before`: the
      beams lit since, the beams still `pending` (on their way but not
      yet processed), and the facts kept until nothing is pending: the
      start is lit or pending, every beam lit since sends its beams to lit
      or pending rays, and every beam lit or pending belongs to any closed
      set holding the start. */
  ghost predicate Beaming(before: map<Pos, Tile>, tiles: map<Pos, Tile>, start: Ray, pending: set<Ray>)
  {
    && WellFormed(tiles) && Grown(before, tiles)
    && (start.at in before ==> Lit(tiles, start) || start in pending)
    && (forall r :: Fresh(before, tiles, r) ==>
          forall n :: n in Next(r, tiles[r.at].content) && n.at in tiles ==> Lit(tiles, n) || n in pending)
    && (forall others :: ClosedIn(Contents(before), others) && (start.at in before ==> start in others) ==>
          && (forall r :: Fresh(before, tiles, r) ==> r in others)
          && (forall q :: q in pending && q.at in before ==> q in others))
  }

  /** The whole firing, once nothing is pending, from cleared tiles: the
      rays lit are where the beam goes, and the energized tiles its cells. */
  lemma {:induction false} BeamingDone(before: map<Pos, Tile>, tiles: map<Pos, Tile>, start: Ray)
    requires Cleared(before) && Beaming(before, tiles, start, {})
    ensures Least(Contents(before), start, LitRays(tiles))
    ensures Cells(LitRays(tiles)) == Energized(tiles)
  {
    var grid := Contents(before);
    forall r | r in LitRays(tiles)
      ensures Fresh(before, tiles, r)
    {
      LitRaysMeaning(tiles, r);
    }
    forall r | r in LitRays(tiles)
      ensures r.at in grid && forall n :: n in Next(r, grid[r.at]) && n.at in grid ==> n in LitRays(tiles)
    {
      assert Contents(tiles)[r.at] == grid[r.at];
      forall n | n in Next(r, grid[r.at]) && n.at in grid
        ensures n in LitRays(tiles)
      {
        LitRaysMeaning(tiles, n);
      }
    }
    if start.at in grid {
      LitRaysMeaning(tiles, start);
    }
    forall others | ClosedIn(grid, others) && (start.at in grid ==> start in others)
      ensures LitRays(tiles) <= others
    {
      forall r | r in LitRays(tiles) ensures r in others {
        assert Fresh(before, tiles, r);
      }
    }
    forall p | p in Energized(tiles)
      ensures p in Cells(LitRays(tiles))
    {
      var h :| h in tiles[p].tracker;
      LitRaysMeaning(tiles, Ray(p, h));
    }
  }

  /** What `count_energized_tiles_for_configuration` relies on once the
      beam is fired from cleared tiles of a grid: the lit rays are where
      the beam goes, the energized tiles are the cells it crosses, at most
      one per cell and at least the first when it starts on the grid, and
      resetting gives back the tiles fired on. */
  lemma {:induction false} FiringDone(rows: seq<string>, width: nat, before: map<Pos, Tile>, tiles: map<Pos, Tile>, start: Ray)
    requires Rectangular(rows, width) && Contents(before) == Contents(Grid(rows, width))
    requires Cleared(before) && Beaming(before, tiles, start, {})
    ensures Least(Contents(before), start, LitRays(tiles))
    ensures |Energized(tiles)| == |Cells(LitRays(tiles))| <= width * |rows|
    ensures OnGrid(rows, width, start.at) ==> |Energized(tiles)| >= 1
    ensures Reset(tiles) == before
  {
    BeamingDone(before, tiles, start);
    ResetCleared(before, tiles);
    GridMeaning(rows, width);
    assert |Contents(before)| == width * |rows| by {
      assert Contents(before).Keys == Grid(rows, width).Keys;
    }
    LeastBounds(Contents(before), start, LitRays(tiles));
  }

  /** The rays the trackers record. */
  ghost function LitRays(tiles: map<Pos, Tile>): set<Ray>
  {
    set p, h | p in tiles && h in tiles[p].tracker :: Ray(p, h)
  }

  lemma {:induction false} LitRaysMeaning(tiles: map<Pos, Tile>, r: Ray)
    ensures r in LitRays(tiles) <==> Lit(tiles, r)
  {
    if Lit(tiles, r) {
      assert Ray(r.at, r.heading) == r;
    }
  }

  /** The energized tiles. */
  ghost function Energized(tiles: map<Pos, Tile>): set<Pos>
  {
    set p | p in tiles && tiles[p].energized
  }

  /** `beams_tracker[heading] = 1` and `energized = True` on the tile at
      `r.at`. */
  function Mark(tiles: map<Pos, Tile>, r: Ray): map<Pos, Tile>
    requires r.at in tiles
  {
    tiles[r.at := Tile(tiles[r.at].content, true, tiles[r.at].tracker + {r.heading})]
  }

  /** Before anything happens, the start is pending. */
  lemma {:induction false} BeamingStart(tiles: map<Pos, Tile>, start: Ray)
    requires WellFormed(tiles)
    ensures Beaming(tiles, tiles, start, {start})
  {
  }

  /** Processing a pending ray whose tile is off the grid or already has
      its heading lit drops it. */
  lemma {:induction false} BeamingSkip(before: map<Pos, Tile>, tiles: map<Pos, Tile>, start: Ray, pending: set<Ray>, r: Ray)
    requires Beaming(before, tiles, start, pending) && r in pending
    requires r.at !in tiles || Lit(tiles, r)
    ensures Beaming(before, tiles, start, pending - {r})
  {
  }

  /** Lighting a pending ray makes the beams it sends on pending. */
  lemma {:induction false} BeamingMark(before: map<Pos, Tile>, tiles: map<Pos, Tile>, start: Ray, pending: set<Ray>, r: Ray)
    requires Beaming(before, tiles, start, pending) && r in pending
    requires r.at in tiles && !Lit(tiles, r)
    ensures Beaming(before, Mark(tiles, r), start, pending - {r} + Next(r, tiles[r.at].content))
  {
    var after := Mark(tiles, r);
    var c := tiles[r.at].content;
    var more := pending - {r} + Next(r, c);
    assert Contents(after) == Contents(tiles) by {
      forall p | p in tiles ensures Contents(after)[p] == Contents(tiles)[p] { }
    }
    forall q | Fresh(before, after, q)
      ensures forall n :: n in Next(q, after[q.at].content) && n.at in after ==> Lit(after, n) || n in more
    {
      if q != r {
        assert Fresh(before, tiles, q);
      }
    }
    forall others | ClosedIn(Contents(before), others) && (start.at in before ==> start in others)
      ensures forall q :: Fresh(before, after, q) ==> q in others
      ensures forall q :: q in more && q.at in before ==> q in others
    {
      assert Contents(before)[r.at] == c by {
        assert Contents(tiles)[r.at] == c;
      }
      forall q | Fresh(before, after, q) ensures q in others {
        if q != r {
          assert Fresh(before, tiles, q);
        }
      }
    }
  }

  /** A pending ray fired off as a beam of its own, once that beam is
      done. */
  lemma {:induction false} BeamingCall(before: map<Pos, Tile>, middle: map<Pos, Tile>, after: map<Pos, Tile>,
                    start: Ray, pending: set<Ray>, a: Ray)
    requires Beaming(before, middle, start, pending) && a in pending
    requires Beaming(middle, after, a, {})
    ensures Beaming(before, after, start, pending - {a})
  {
    forall r | Fresh(before, after, r)
      ensures forall n :: n in Next(r, after[r.at].content) && n.at in after ==> Lit(after, n) || n in pending - {a}
    {
      assert Contents(after)[r.at] == Contents(middle)[r.at];
      if !Fresh(middle, after, r) {
        assert Fresh(before, middle, r);
        forall n | n in Next(r, after[r.at].content) && n.at in after
          ensures Lit(after, n) || n in pending - {a}
        {
          assert n.at in Contents(middle);
        }
      }
    }
    forall others | ClosedIn(Contents(before), others) && (start.at in before ==> start in others)
      ensures forall r :: Fresh(before, after, r) ==> r in others
    {
      assert ClosedIn(Contents(middle), others) && (a.at in middle ==> a in others);
      forall r | Fresh(before, after, r) ensures r in others {
        if !Fresh(middle, after, r) {
          assert Fresh(before, middle, r);
        }
      }
    }
  }

  /** Where each beam of `starts` goes: `beams[i]` for `starts[i]`. */
  ghost predicate AllLeast(grid: map<Pos, char>, starts: seq<Ray>, beams: seq<set<Ray>>)
  {
    |starts| == |beams| && forall i :: 0 <= i < |starts| ==> Least(grid, starts[i], beams[i])
  }

  /** `beams[i]` is where a beam fired as `starts[i]` goes and
      `counts[i]` is the number of cells it crosses, built up entry by
      entry. */
  ghost predicate Counted(grid: map<Pos, char>, starts: seq<Ray>, beams: seq<set<Ray>>, counts: seq<nat>)
    decreases |starts|
  {
    && |starts| == |beams| == |counts|
    && (|starts| > 0 ==>
         var n := |starts| - 1;
         && Counted(grid, starts[..n], beams[..n], counts[..n])
         && Least(grid, starts[n], beams[n])
         && counts[n] == |Cells(beams[n])|)
  }

  lemma {:induction false} CountedStep(grid: map<Pos, char>, starts: seq<Ray>, beams: seq<set<Ray>>, counts: seq<nat>,
                    a: Ray, forA: set<Ray>, countA: nat)
    requires Counted(grid, starts, beams, counts)
    requires Least(grid, a, forA) && countA == |Cells(forA)|
    ensures Counted(grid, starts + [a], beams + [forA], counts + [countA])
  {
    assert (starts + [a])[..|starts|] == starts;
    assert (beams + [forA])[..|beams|] == beams;
    assert (counts + [countA])[..|counts|] == counts;
  }

  lemma {:induction false} CountedAppend(grid: map<Pos, char>, starts: seq<Ray>, beams: seq<set<Ray>>, counts: seq<nat>,
                                         more: seq<Ray>, moreBeams: seq<set<Ray>>, moreCounts: seq<nat>)
    requires Counted(grid, starts, beams, counts)
    requires Counted(grid, more, moreBeams, moreCounts)
    ensures Counted(grid, starts + more, beams + moreBeams, counts + moreCounts)
    decreases |more|
  {
    if |more| > 0 {
      var n := |more| - 1;
      CountedAppend(grid, starts, beams, counts, more[..n], moreBeams[..n], moreCounts[..n]);
      CountedStep(grid, starts + more[..n], beams + moreBeams[..n], counts + moreCounts[..n],
        more[n], moreBeams[n], moreCounts[n]);
      assert starts + more[..n] + [more[n]] == starts + more;
      assert beams + moreBeams[..n] + [moreBeams[n]] == beams + moreBeams;
      assert counts + moreCounts[..n] + [moreCounts[n]] == counts + moreCounts;
    } else {
      assert starts + more == starts && beams + moreBeams == beams && counts + moreCounts == counts;
    }
  }

  /** What `Counted` says, entry by entry. */
  lemma {:induction false} CountedMeaning(grid: map<Pos, char>, starts: seq<Ray>, beams: seq<set<Ray>>, counts: seq<nat>)
    requires Counted(grid, starts, beams, counts)
    ensures AllLeast(grid, starts, beams) && |counts| == |beams|
    ensures forall i :: 0 <= i < |counts| ==> counts[i] == |Cells(beams[i])|
    decreases |starts|
  {
    if |starts| > 0 {
      var n := |starts| - 1;
      CountedMeaning(grid, starts[..n], beams[..n], counts[..n]);
      forall i | 0 <= i < |starts|
        ensures Least(grid, starts[i], beams[i]) && counts[i] == |Cells(beams[i])|
      {
        if i < n {
          assert starts[i] == starts[..n][i] && beams[i] == beams[..n][i] && counts[i] == counts[..n][i];
        }
      }
    }
  }

  /** The entries from the top and the bottom of the first `n` columns,
      column by column. */
  function ColumnEntries(height: nat, n: nat): (r: seq<Ray>)
    ensures |r| == 2 * n
  {
    if n == 0 then [] else ColumnEntries(height, n - 1) + [Ray(Pos(n - 1, 0), Down), Ray(Pos(n - 1, height - 1), Up)]
  }

  /** The entries from the left and the right of the first `n` rows, row
      by row. */
  function RowEntries(width: nat, n: nat): (r: seq<Ray>)
    ensures |r| == 2 * n
  {
    if n == 0 then [] else RowEntries(width, n - 1) + [Ray(Pos(0, n - 1), Right), Ray(Pos(width - 1, n - 1), Left)]
  }

  /** Column `n` adds the beams `maximize_energized_tiles` fires down
      and up it. */
  lemma {:induction false} ColumnEntriesStep(height: nat, n: nat)
    ensures ColumnEntries(height, n + 1) == ColumnEntries(height, n)
      + [RayOf(NewBeam(n, 0, false, true))] + [RayOf(NewBeam(n, height - 1, false, false))]
  {
  }

  /** Row `n` adds the beams fired right and left along it. */
  lemma {:induction false} RowEntriesStep(width: nat, n: nat)
    ensures RowEntries(width, n + 1) == RowEntries(width, n)
      + [RayOf(NewBeam(0, n, true, true))] + [RayOf(NewBeam(width - 1, n, true, false))]
  {
  }

  /** Every edge entry `maximize_energized_tiles` tries, in its order. */
  function Entries(width: nat, height: nat): seq<Ray>
  {
    ColumnEntries(height, width) + RowEntries(width, height)
  }

  /** Each entry starts on an edge cell, heading into the grid. */
  lemma {:induction false} EntriesOnEdge(rows: seq<string>, width: nat)
    requires |rows| > 0 && width > 0
    ensures forall r :: r in Entries(width, |rows|) ==>
      && OnGrid(rows, width, r.at)
      && (r.heading == Down ==> r.at.y == 0)
      && (r.heading == Up ==> r.at.y == |rows| - 1)
      && (r.heading == Right ==> r.at.x == 0)
      && (r.heading == Left ==> r.at.x == width - 1)
  {
    forall r | r in Entries(width, |rows|)
      ensures OnGrid(rows, width, r.at)
      ensures (r.heading == Down ==> r.at.y == 0) && (r.heading == Up ==> r.at.y == |rows| - 1)
      ensures (r.heading == Right ==> r.at.x == 0) && (r.heading == Left ==> r.at.x == width - 1)
    {
      if r in ColumnEntries(|rows|, width) {
        ColumnEntriesMeaning(|rows|, width, r);
      } else {
        RowEntriesMeaning(width, |rows|, r);
      }
    }
  }

  lemma {:induction false} ColumnEntriesMeaning(height: nat, n: nat, r: Ray)
    requires r in ColumnEntries(height, n)
    ensures 0 <= r.at.x < n
    ensures (r.heading == Down && r.at.y == 0) || (r.heading == Up && r.at.y == height - 1)
  {
    if r !in ColumnEntries(height, n)[2 * n - 2..] {
      assert ColumnEntries(height, n) == ColumnEntries(height, n - 1) + ColumnEntries(height, n)[2 * n - 2..];
      ColumnEntriesMeaning(height, n - 1, r);
    }
  }

  lemma {:induction false} RowEntriesMeaning(width: nat, n: nat, r: Ray)
    requires r in RowEntries(width, n)
    ensures 0 <= r.at.y < n
    ensures (r.heading == Right && r.at.x == 0) || (r.heading == Left && r.at.x == width - 1)
  {
    if r !in RowEntries(width, n)[2 * n - 2..] {
      assert RowEntries(width, n) == RowEntries(width, n - 1) + RowEntries(width, n)[2 * n - 2..];
      RowEntriesMeaning(width, n - 1, r);
    }
  }

  /** `sorted(counts)[-1]`: the largest count. */
  function Largest(counts: seq<nat>): (r: nat)
    requires |counts| > 0
    ensures r in counts && forall i :: 0 <= i < |counts| ==> counts[i] <= r
  {
    if |counts| == 1 then counts[0]
    else
      var rest := Largest(counts[1..]);
      assert forall i :: 1 <= i < |counts| ==> counts[i] == counts[1..][i - 1];
      if counts[0] >= rest then counts[0] else rest
  }

  // ---------------------------------------------------------------------
  // Termination: the trackers not yet set

  ghost function Gaps(tiles: map<Pos, Tile>): map<Pos, int>
  {
    map p | p in tiles :: |AllHeadings - tiles[p].tracker|
  }

  /** How many (tile, heading) pairs are still unlit: at most 4 per tile,
      one fewer with each mark, so a firing does at most 4 * width *
      height marks. */
  ghost function Unlit(tiles: map<Pos, Tile>): nat
  {
    SumValuesNonNegative(Gaps(tiles));
    SumValues(Gaps(tiles))
  }

  lemma {:induction false} MarkUnlit(tiles: map<Pos, Tile>, r: Ray)
    requires r.at in tiles && !Lit(tiles, r)
    ensures Unlit(Mark(tiles, r)) == Unlit(tiles) - 1
  {
    var t := tiles[r.at].tracker;
    assert r.heading in AllHeadings by {
      match r.heading
      case Right =>
      case Left =>
      case Up =>
      case Down =>
    }
    assert AllHeadings - t == (AllHeadings - (t + {r.heading})) + {r.heading};
    assert Gaps(Mark(tiles, r)) == Gaps(tiles)[r.at := Gaps(tiles)[r.at] - 1];
    SumValuesUpdate(Gaps(tiles), r.at, Gaps(tiles)[r.at] - 1);
  }

  // ---------------------------------------------------------------------
  // The beam

  /** `Beam`: where it is, the axis it moves along, its increment (1 or
      -1) and whether it is still going. */
  datatype Beam = Beam(x: int, y: int, horizontal: bool, increment: int, active: bool)

  /** `Beam.__init__`. */
  function NewBeam(x: int, y: int, horizontal: bool, increasing: bool): Beam
  {
    Beam(x, y, horizontal, if increasing then 1 else -1, true)
  }

  function RayOf(beam: Beam): Ray
  {
    Ray(Pos(beam.x, beam.y), HeadingOf(beam.horizontal, beam.increment))
  }

  /** An active beam is the one ray still to process. */
  function Pending(beam: Beam): set<Ray>
  {
    if beam.active then {RayOf(beam)} else {}
  }

  /** A splitter met across its axis sends the two beams `fire_beam` is
      called with. */
  lemma {:induction false} SplitSends(beam: Beam, c: char, first: Beam, second: Beam)
    requires beam.increment == 1 || beam.increment == -1
    requires (c == '|' && beam.horizontal) || (c == '-' && !beam.horizontal)
    requires c == '|' ==> first == NewBeam(beam.x, beam.y + 1, false, true) && second == NewBeam(beam.x, beam.y - 1, false, false)
    requires c == '-' ==> first == NewBeam(beam.x + 1, beam.y, true, true) && second == NewBeam(beam.x - 1, beam.y, true, false)
    ensures Next(RayOf(beam), c) == {RayOf(first), RayOf(second)} && RayOf(first) != RayOf(second)
    ensures first.active && second.active
    ensures (first.increment == 1 || first.increment == -1) && (second.increment == 1 || second.increment == -1)
  {
    HeadingOfMeaning(beam.horizontal, beam.increment);
  }

  /** One step along the beam's axis by its increment. */
  function Moved(beam: Beam): Beam
  {
    beam.(x := if !beam.horizontal then beam.x else beam.x + beam.increment,
          y := if beam.horizontal then beam.y else beam.y + beam.increment)
  }

  /** Any other tile sends the beam on as `fire_beam` moves it: along the
      same axis, or along the other one with the increment reversed by
      '/'. */
  lemma {:induction false} MoveSends(beam: Beam, c: char, turned: Beam)
    requires beam.active && (beam.increment == 1 || beam.increment == -1)
    requires !((c == '|' && beam.horizontal) || (c == '-' && !beam.horizontal))
    requires var pass := c == '.' || c == '|' || c == '-';
      && turned.active && turned.x == beam.x && turned.y == beam.y
      && turned.horizontal == (if pass then beam.horizontal else !beam.horizontal)
      && turned.increment == (if !pass && c == '/' then -beam.increment else beam.increment)
    ensures Next(RayOf(beam), c) == Pending(Moved(turned))
    ensures Moved(turned).increment == 1 || Moved(turned).increment == -1
  {
    HeadingOfMeaning(beam.horizontal, beam.increment);
    HeadingOfMeaning(turned.horizontal, turned.increment);
  }

  // ---------------------------------------------------------------------
  // The contraption

  class Contraption {
    const rows: seq<string>
    const height: nat
    const width: nat
    var tiles: map<Pos, Tile>

    ghost predicate Valid()
      reads this
    {
      && |rows| > 0 && height == |rows| && width == |rows[0]| && Rectangular(rows, width)
      && Contents(tiles) == Contents(Grid(rows, width))
      && WellFormed(tiles)
    }

    /** `Contraption.__init__`: the rows, their count and the length of
        the first, and one fresh tile per cell. */
    constructor (lines: seq<string>)
      requires |lines| > 0 && Rectangular(lines, |lines[0]|)
      ensures rows == lines && height == |lines| && width == |lines[0]|
      ensures tiles == Grid(rows, width)
      ensures Valid() && Cleared(tiles)
    {
      rows := lines;
      height := |lines|;
      width := |lines[0]|;
      new;
      tiles := CreateTiles();
      GridMeaning(rows, width);
    }

    /** `create_tiles`: one tile per cell, in row-major order. */
    method CreateTiles() returns (made: map<Pos, Tile>)
      requires Rectangular(rows, width) && height == |rows|
      ensures made == Grid(rows, width)
    {
      made := map[];
      for row := 0 to height
        invariant made == TilesBefore(rows, width, row, 0)
      {
        for column := 0 to width
          invariant made == TilesBefore(rows, width, row, column)
        {
          made := made[Pos(column, row) := NewTile(rows, width, Pos(column, row))];
        }
      }
    }

    /** `fire_beam`: the beam moves cell by cell, lighting the tracker of
        each tile for its heading, and stops off the grid or on a tracker
        already lit; a splitter fires two beams and stops this one. The
        firing ends with nothing pending: the start is lit if it is on the
        grid, every beam lit sends its beams to lit rays, and only beams in
        every closed set holding the start were lit. */
    method FireBeam(x: int, y: int, horizontal: bool, increasing: bool)
      requires WellFormed(tiles)
      modifies this`tiles
      ensures Beaming(old(tiles), tiles, RayOf(NewBeam(x, y, horizontal, increasing)), {})
      ensures Unlit(tiles) <= old(Unlit(tiles))
      decreases Unlit(tiles), 1
    {
      var beam := NewBeam(x, y, horizontal, increasing);
      ghost var before, start := tiles, RayOf(beam);
      BeamingStart(tiles, start);
      while beam.active
        invariant beam.increment == 1 || beam.increment == -1
        invariant Beaming(before, tiles, start, Pending(beam))
        invariant Unlit(tiles) <= Unlit(before)
        decreases Unlit(tiles), beam.active
      {
        var p := Pos(beam.x, beam.y);
        var heading := HeadingOf(beam.horizontal, beam.increment);
        if p in tiles && heading !in tiles[p].tracker {
          beam := Cross(before, start, beam);
        } else {
          BeamingSkip(before, tiles, start, {RayOf(beam)}, RayOf(beam));
          beam := beam.(active := false);
        }
      }
    }

    /** One round of the loop of `fire_beam` on a beam reaching a tile of
        the grid whose tracker for its heading is still 0. */
    method Cross(ghost before: map<Pos, Tile>, ghost start: Ray, beam: Beam) returns (next: Beam)
      requires beam.active && (beam.increment == 1 || beam.increment == -1)
      requires Beaming(before, tiles, start, Pending(beam))
      requires Pos(beam.x, beam.y) in tiles
      requires HeadingOf(beam.horizontal, beam.increment) !in tiles[Pos(beam.x, beam.y)].tracker
      modifies this`tiles
      ensures next.increment == 1 || next.increment == -1
      ensures Beaming(before, tiles, start, Pending(next))
      ensures Unlit(tiles) < old(Unlit(tiles))
      decreases Unlit(tiles), 0
    {
      ghost var ray := RayOf(beam);
      ghost var content := tiles[ray.at].content;
      BeamingMark(before, tiles, start, {ray}, ray);
      assert {ray} - {ray} + Next(ray, content) == Next(ray, content);
      var c := Light(beam);
      if (c == '|' && beam.horizontal) || (c == '-' && !beam.horizontal) {
        Split(before, start, beam, c);
        next := Moved(beam.(active := false));
      } else {
        var turned := beam;
        if c != '.' && c != '|' && c != '-' {
          turned := turned.(horizontal := !turned.horizontal);
          if c == '/' {
            turned := turned.(increment := -turned.increment);
          }
        }
        next := Moved(turned);
        MoveSends(beam, c, turned);
      }
    }

    /** `beams_tracker[heading] = 1` and `energized = True` on the tile the
        beam reaches; its character is returned. */
    method Light(beam: Beam) returns (c: char)
      requires Pos(beam.x, beam.y) in tiles
      requires HeadingOf(beam.horizontal, beam.increment) !in tiles[Pos(beam.x, beam.y)].tracker
      modifies this`tiles
      ensures c == old(tiles)[Pos(beam.x, beam.y)].content
      ensures tiles == Mark(old(tiles), RayOf(beam))
      ensures Unlit(tiles) < old(Unlit(tiles))
    {
      var p := Pos(beam.x, beam.y);
      var heading := HeadingOf(beam.horizontal, beam.increment);
      var tile := tiles[p];
      c := tile.content;
      MarkUnlit(tiles, RayOf(beam));
      tiles := tiles[p := Tile(c, true, tile.tracker + {heading})];
    }

    /** A splitter met across its axis: `fire_beam` from the two cells
        beside it along its axis, one after the other, moving away from
        it. */
    method Split(ghost before: map<Pos, Tile>, ghost start: Ray, beam: Beam, c: char)
      requires beam.increment == 1 || beam.increment == -1
      requires (c == '|' && beam.horizontal) || (c == '-' && !beam.horizontal)
      requires Beaming(before, tiles, start, Next(RayOf(beam), c))
      modifies this`tiles
      ensures Beaming(before, tiles, start, {})
      ensures Unlit(tiles) <= old(Unlit(tiles))
      decreases Unlit(tiles), 2
    {
      var first, second;
      if c == '|' {
        first, second := NewBeam(beam.x, beam.y + 1, false, true), NewBeam(beam.x, beam.y - 1, false, false);
      } else {
        first, second := NewBeam(beam.x + 1, beam.y, true, true), NewBeam(beam.x - 1, beam.y, true, false);
      }
      SplitSends(beam, c, first, second);
      ghost var middle := tiles;
      FireBeam(first.x, first.y, first.horizontal, first.increment == 1);
      BeamingCall(before, middle, tiles, start, {RayOf(first), RayOf(second)}, RayOf(first));
      middle := tiles;
      FireBeam(second.x, second.y, second.horizontal, second.increment == 1);
      BeamingCall(before, middle, tiles, start, {RayOf(second)}, RayOf(second));
    }

    /** `count_energized_tiles_for_configuration`: fire the beam, count
        the energized tiles, reset them. The count is the number of cells
        the beam crosses: between 1 and `width` * `height` when it starts
        on the grid, 0 otherwise. */
    method CountEnergizedTilesForConfiguration(x: int, y: int, horizontal: bool, increasing: bool)
      returns (count: nat, ghost beams: set<Ray>)
      requires Valid() && Cleared(tiles)
      modifies this`tiles
      ensures tiles == old(tiles)
      ensures Least(Contents(tiles), RayOf(NewBeam(x, y, horizontal, increasing)), beams)
      ensures count == |Cells(beams)|
      ensures count <= width * height
      ensures OnGrid(rows, width, Pos(x, y)) ==> count >= 1
    {
      FireBeam(x, y, horizontal, increasing);
      FiringDone(rows, width, old(tiles), tiles, RayOf(NewBeam(x, y, horizontal, increasing)));
      beams := LitRays(tiles);
      count := CountEnergized();
      ResetEnergizedValues();
    }

    /** The loop of `count_energized_tiles_for_configuration` over the
        tiles. */
    method CountEnergized() returns (count: nat)
      ensures count == |Energized(tiles)|
    {
      count := 0;
      var rest := tiles.Keys;
      while rest != {}
        invariant rest <= tiles.Keys
        invariant count == |Energized(tiles) - rest|
        decreases rest
      {
        var p :| p in rest;
        if tiles[p].energized {
          assert Energized(tiles) - (rest - {p}) == (Energized(tiles) - rest) + {p};
          count := count + 1;
        } else {
          assert Energized(tiles) - (rest - {p}) == Energized(tiles) - rest;
        }
        rest := rest - {p};
      }
    }

    /** `reset_energized_values`: every tile loses its energy and its
        trackers. */
    method ResetEnergizedValues()
      modifies this`tiles
      ensures tiles == Reset(old(tiles))
    {
      var rest := tiles.Keys;
      while rest != {}
        invariant tiles.Keys == old(tiles).Keys && rest <= tiles.Keys
        invariant forall p :: p in tiles ==>
          tiles[p] == if p in rest then old(tiles)[p] else Tile(old(tiles)[p].content, false, {})
        decreases rest
      {
        var p :| p in rest;
        tiles := tiles[p := Tile(tiles[p].content, false, {})];
        rest := rest - {p};
      }
    }

    /** One entry of `maximize_energized_tiles`: the count for the beam
        fired from (x, y), appended to the counts so far. */
    method CountEntry(x: int, y: int, horizontal: bool, increasing: bool, ghost grid: map<Pos, char>,
                      ghost starts: seq<Ray>, counts: seq<nat>, ghost beams: seq<set<Ray>>)
      returns (counts': seq<nat>, ghost beams': seq<set<Ray>>)
      requires Valid() && Cleared(tiles) && grid == Contents(tiles)
      requires Counted(grid, starts, beams, counts)
      modifies this`tiles
      ensures tiles == old(tiles)
      ensures Counted(grid, starts + [RayOf(NewBeam(x, y, horizontal, increasing))], beams', counts')
    {
      var count, fired := CountEnergizedTilesForConfiguration(x, y, horizontal, increasing);
      CountedStep(grid, starts, beams, counts, RayOf(NewBeam(x, y, horizontal, increasing)), fired, count);
      counts', beams' := counts + [count], beams + [fired];
    }

    /** One round of the first loop of `maximize_energized_tiles`: down
        from the top and up from the bottom of `column`. */
    method CountColumn(column: nat, ghost grid: map<Pos, char>, counts: seq<nat>, ghost beams: seq<set<Ray>>)
      returns (counts': seq<nat>, ghost beams': seq<set<Ray>>)
      requires Valid() && Cleared(tiles) && grid == Contents(tiles)
      requires Counted(grid, ColumnEntries(height, column), beams, counts)
      modifies this`tiles
      ensures tiles == old(tiles)
      ensures Counted(grid, ColumnEntries(height, column + 1), beams', counts')
    {
      ghost var before := ColumnEntries(height, column);
      ghost var down := RayOf(NewBeam(column, 0, false, true));
      ColumnEntriesStep(height, column);
      counts', beams' := CountEntry(column, 0, false, true, grid, before, counts, beams);
      counts', beams' := CountEntry(column, height - 1, false, false, grid, before + [down], counts', beams');
    }

    /** The first loop of `maximize_energized_tiles`, over the columns. */
    method CountColumns() returns (counts: seq<nat>, ghost beams: seq<set<Ray>>)
      requires Valid() && Cleared(tiles)
      modifies this`tiles
      ensures tiles == old(tiles)
      ensures Counted(Contents(tiles), ColumnEntries(height, width), beams, counts)
    {
      ghost var grid := Contents(tiles);
      counts, beams := [], [];
      for column := 0 to width
        invariant tiles == old(tiles)
        invariant Counted(grid, ColumnEntries(height, column), beams, counts)
      {
        counts, beams := CountColumn(column, grid, counts, beams);
      }
    }

    /** One round of the second loop of `maximize_energized_tiles`: right
        from the left and left from the right of `row`. */
    method CountRow(row: nat, ghost grid: map<Pos, char>, counts: seq<nat>, ghost beams: seq<set<Ray>>)
      returns (counts': seq<nat>, ghost beams': seq<set<Ray>>)
      requires Valid() && Cleared(tiles) && grid == Contents(tiles) && width > 0
      requires Counted(grid, RowEntries(width, row), beams, counts)
      modifies this`tiles
      ensures tiles == old(tiles)
      ensures Counted(grid, RowEntries(width, row + 1), beams', counts')
    {
      ghost var before := RowEntries(width, row);
      ghost var right := RayOf(NewBeam(0, row, true, true));
      RowEntriesStep(width, row);
      counts', beams' := CountEntry(0, row, true, true, grid, before, counts, beams);
      counts', beams' := CountEntry(width - 1, row, true, false, grid, before + [right], counts', beams');
    }

    /** The second loop of `maximize_energized_tiles`, over the rows. */
    method CountRows() returns (counts: seq<nat>, ghost beams: seq<set<Ray>>)
      requires Valid() && Cleared(tiles) && width > 0
      modifies this`tiles
      ensures tiles == old(tiles)
      ensures Counted(Contents(tiles), RowEntries(width, height), beams, counts)
    {
      ghost var grid := Contents(tiles);
      counts, beams := [], [];
      for row := 0 to height
        invariant tiles == old(tiles)
        invariant Counted(grid, RowEntries(width, row), beams, counts)
      {
        counts, beams := CountRow(row, grid, counts, beams);
      }
    }

    /** `maximize_energized_tiles`: the beam is fired into every cell of
        the edge, down from the top and up from the bottom of every column,
        then right from the left and left from the right of every row; the
        answer is the largest count. */
    method MaximizeEnergizedTiles() returns (largest: nat, ghost beams: seq<set<Ray>>)
      requires Valid() && Cleared(tiles) && width > 0
      modifies this`tiles
      ensures tiles == old(tiles)
      ensures |beams| == |Entries(width, height)| == 2 * width + 2 * height
      ensures AllLeast(Contents(tiles), Entries(width, height), beams)
      ensures exists i :: 0 <= i < |beams| && largest == |Cells(beams[i])|
      ensures forall i :: 0 <= i < |beams| ==> |Cells(beams[i])| <= largest
    {
      var columnCounts, columnBeams := CountColumns();
      var rowCounts, rowBeams := CountRows();
      CountedAppend(Contents(tiles), ColumnEntries(height, width), columnBeams, columnCounts,
        RowEntries(width, height), rowBeams, rowCounts);
      var counts := columnCounts + rowCounts;
      CountedMeaning(Contents(tiles), Entries(width, height), columnBeams + rowBeams, counts);
      beams := columnBeams + rowBeams;
      largest := Largest(counts);
      ghost var k :| 0 <= k < |counts| && counts[k] == largest;
    }
  }

  /** `solve_problem`: part 1 fires from the top-left corner to the right,
      part 2 is the best edge entry. */
  method SolveProblem(lines: seq<string>)
    returns (part1: nat, part2: nat, ghost first: set<Ray>, ghost edges: seq<set<Ray>>)
    requires |lines| > 0 && |lines[0]| > 0 && Rectangular(lines, |lines[0]|)
    ensures Least(Contents(Grid(lines, |lines[0]|)), Ray(Pos(0, 0), Right), first)
    ensures part1 == |Cells(first)|
    ensures AllLeast(Contents(Grid(lines, |lines[0]|)), Entries(|lines[0]|, |lines|), edges)
    ensures exists i :: 0 <= i < |edges| && part2 == |Cells(edges[i])|
    ensures forall i :: 0 <= i < |edges| ==> |Cells(edges[i])| <= part2
  {
    var grid := new Contraption(lines);
    part1, first := grid.CountEnergizedTilesForConfiguration(0, 0, true, true);
    part2, edges := grid.MaximizeEnergizedTiles();
  }
}
