/** Day 21: a gardener's steps on a farm map that repeats forever in every
    direction. The map is kept as a dictionary over a window that grows:
    whenever a step leaves the window, the window is tripled across and
    down by copying its entries eight times. */
module Day21 {
  import opened Text
  import opened Grids
  import Numbers

  /** '.' and 'S' are garden plots; anything else is rock. */
  predicate IsPlot(c: char)
  {
    c == '.' || c == 'S'
  }

  /** Whether the endless repetition of `rows` has a plot at `p`: the cell
      (p.x mod width, p.y mod height) of the map as written. */
  function Plot(rows: seq<string>, p: Pos): bool
  {
    if |rows| == 0 || |rows[0]| == 0 then false
    else
      var y := p.y % |rows|;
      var x := p.x % |rows[0]|;
      x < |rows[y]| && IsPlot(rows[y][x])
  }

  /** Adding whole periods leaves a remainder unchanged. */
  lemma {:induction false} ModPeriodic(a: int, w: int, k: int)
    requires w > 0
    ensures (a + w * k) % w == a % w
  {
    assert a == w * (a / w) + a % w;
    Numbers.Distribute(w, a / w, k);
    Numbers.ModUnique(a + w * k, w, a / w + k, a % w);
  }

  /** A cell of the map as written is its own remainder. */
  lemma {:induction false} ModSmall(a: int, w: int)
    requires 0 <= a < w
    ensures a % w == a
  {
    Numbers.ModUnique(a, w, 0, a);
  }

  /** Moving by whole copies of the map does not change what is there. */
  lemma {:induction false} PlotPeriodic(rows: seq<string>, p: Pos, i: int, j: int)
    requires |rows| > 0
    ensures Plot(rows, Pos(p.x + |rows[0]| * i, p.y + |rows| * j)) == Plot(rows, p)
  {
    if |rows[0]| > 0 {
      ModPeriodic(p.x, |rows[0]|, i);
      ModPeriodic(p.y, |rows|, j);
    }
  }

  /** Inside the map as written, the repetition shows the cell itself. */
  lemma {:induction false} PlotInGrid(rows: seq<string>, p: Pos)
    requires |rows| > 0 && Rectangular(rows, |rows[0]|)
    requires 0 <= p.x < |rows[0]| && 0 <= p.y < |rows|
    ensures Plot(rows, p) == IsPlot(rows[p.y][p.x])
  {
    ModSmall(p.x, |rows[0]|);
    ModSmall(p.y, |rows|);
  }

  // ---------------------------------------------------------------------
  // The map as `create_positions` reads it

  /** `p` comes before column `column` of row `row` in row-major order. */
  predicate Earlier(p: Pos, row: int, column: int)
  {
    p.y < row || (p.y == row && p.x < column)
  }

  /** The entries `create_positions` has made once it reaches column
      `column` of row `row`: one per cell before it, True for a plot. */
  ghost function CellsBefore(rows: seq<string>, width: nat, row: nat, column: nat): map<Pos, bool>
    requires Rectangular(rows, width) && row <= |rows| && column <= width
    requires row == |rows| ==> column == 0
    decreases row, column
  {
    if column > 0 then CellsBefore(rows, width, row, column - 1)[Pos(column - 1, row) := IsPlot(rows[row][column - 1])]
    else if row > 0 then CellsBefore(rows, width, row - 1, width)
    else map[]
  }

  /** The entries made so far are exactly the cells before (`column`,
      `row`), each True exactly for '.' and 'S'. */
  lemma {:induction false} CellsBeforeMeaning(rows: seq<string>, width: nat, row: nat, column: nat, p: Pos)
    requires Rectangular(rows, width) && row <= |rows| && column <= width
    requires row == |rows| ==> column == 0
    ensures p in CellsBefore(rows, width, row, column) <==>
      0 <= p.x < width && 0 <= p.y && Earlier(p, row, column)
    ensures p in CellsBefore(rows, width, row, column) ==>
      CellsBefore(rows, width, row, column)[p] == IsPlot(rows[p.y][p.x])
    decreases row, column
  {
    if column > 0 {
      CellsBeforeMeaning(rows, width, row, column - 1, p);
    } else if row > 0 {
      CellsBeforeMeaning(rows, width, row - 1, width, p);
    }
  }

  /** The entries of the whole map, as `create_positions` makes them. */
  ghost function Grid(rows: seq<string>, width: nat): map<Pos, bool>
    requires Rectangular(rows, width)
  {
    CellsBefore(rows, width, |rows|, 0)
  }

  /** The map as read has an entry for exactly the cells of the map, and
      each entry is what the endless repetition shows there. */
  lemma {:induction false} GridPlots(rows: seq<string>)
    requires |rows| > 0 && Rectangular(rows, |rows[0]|)
    ensures forall p :: p in Grid(rows, |rows[0]|) <==> 0 <= p.x < |rows[0]| && 0 <= p.y < |rows|
    ensures forall p :: p in Grid(rows, |rows[0]|) ==> Grid(rows, |rows[0]|)[p] == Plot(rows, p)
  {
    forall p
      ensures p in Grid(rows, |rows[0]|) <==> 0 <= p.x < |rows[0]| && 0 <= p.y < |rows|
      ensures p in Grid(rows, |rows[0]|) ==> Grid(rows, |rows[0]|)[p] == Plot(rows, p)
    {
      CellsBeforeMeaning(rows, |rows[0]|, |rows|, 0, p);
      if 0 <= p.x < |rows[0]| && 0 <= p.y < |rows| {
        PlotInGrid(rows, p);
      }
    }
  }

  /** A cell of the map holding 'S'. */
  predicate IsStartCell(rows: seq<string>, width: nat, p: Pos)
    requires Rectangular(rows, width)
  {
    0 <= p.y < |rows| && 0 <= p.x < width && rows[p.y][p.x] == 'S'
  }

  /** `start` is the last 'S' before (`column`, `row`) in row-major order,
      and `None` when there is none there. */
  ghost predicate LastStartBefore(rows: seq<string>, width: nat, row: int, column: int, start: Option<Pos>)
    requires Rectangular(rows, width)
  {
    match start
    case None => forall p :: IsStartCell(rows, width, p) ==> !Earlier(p, row, column)
    case Some(s) =>
      && IsStartCell(rows, width, s) && Earlier(s, row, column)
      && forall p :: IsStartCell(rows, width, p) && Earlier(p, row, column) ==> p == s || Earlier(p, s.y, s.x)
  }

  /** `start` is the last 'S' of the whole map, and `None` when it has no
      'S' (the source then never sets `self.start`). */
  ghost predicate LastStart(rows: seq<string>, width: nat, start: Option<Pos>)
    requires Rectangular(rows, width)
  {
    LastStartBefore(rows, width, |rows|, 0, start)
  }

  // ---------------------------------------------------------------------
  // Steps and the window's growth

  /** The four orthogonal neighbours, in the order left, right, up, down. */
  function Neighbours(p: Pos): (r: seq<Pos>)
    ensures |r| == 4
  {
    [Pos(p.x - 1, p.y), Pos(p.x + 1, p.y), Pos(p.x, p.y - 1), Pos(p.x, p.y + 1)]
  }

  /** The positions among `candidates`, in their order, where the
      repeated map has a plot. */
  function PlotsAmong(rows: seq<string>, candidates: seq<Pos>): (r: seq<Pos>)
    ensures forall q :: q in r <==> q in candidates && Plot(rows, q)
    ensures |r| <= |candidates|
  {
    if candidates == [] then []
    else
      var last := candidates[|candidates| - 1];
      PlotsAmong(rows, candidates[..|candidates| - 1]) + (if Plot(rows, last) then [last] else [])
  }

  /** The plots one step away from some position of `from`. */
  ghost function Successors(rows: seq<string>, from: set<Pos>): set<Pos>
  {
    set p, q | p in from && q in Neighbours(p) && Plot(rows, q) :: q
  }

  /** The positions reachable in exactly `n` steps from `start`. */
  ghost function Reach(rows: seq<string>, start: Pos, n: nat): set<Pos>
  {
    if n == 0 then {start} else Successors(rows, Reach(rows, start, n - 1))
  }

  /** One more starting position adds its own plot neighbours. */
  lemma {:induction false} SuccessorsAdd(rows: seq<string>, from: set<Pos>, p: Pos)
    ensures Successors(rows, from + {p}) == Successors(rows, from) + (set q | q in PlotsAmong(rows, Neighbours(p)))
  {
    var left := Successors(rows, from + {p});
    var right := Successors(rows, from) + (set q | q in PlotsAmong(rows, Neighbours(p)));
    forall q | q in left ensures q in right {
      var p' :| p' in from + {p} && q in Neighbours(p') && Plot(rows, q);
      if p' != p {
        assert q in Successors(rows, from);
      }
    }
    forall q | q in right ensures q in left {
      if q in Successors(rows, from) {
        var p' :| p' in from && q in Neighbours(p') && Plot(rows, q);
        assert p' in from + {p};
      } else {
        assert p in from + {p};
      }
    }
  }

  /** The Manhattan distance between two positions. */
  function Distance(p: Pos, q: Pos): (r: nat)
    ensures r == 0 <==> p == q
  {
    (if p.x < q.x then q.x - p.x else p.x - q.x) + (if p.y < q.y then q.y - p.y else p.y - q.y)
  }

  /** A position reached in `n` steps is at most `n` away, and its
      distance has the parity of `n`: each step moves one cell. */
  lemma {:induction false} ReachDistance(rows: seq<string>, start: Pos, n: nat, q: Pos)
    requires q in Reach(rows, start, n)
    ensures Distance(start, q) <= n && (n - Distance(start, q)) % 2 == 0
  {
    if n > 0 {
      var p := SuccessorFrom(rows, Reach(rows, start, n - 1), q);
      ReachDistance(rows, start, n - 1, p);
      StepDistance(start, p, q);
      Parity(n, Distance(start, p), Distance(start, q));
    }
  }

  /** One step more, one cell nearer or further: the bound and the parity
      carry over. */
  lemma {:induction false} Parity(n: nat, dp: nat, dq: nat)
    requires n > 0 && dp <= n - 1 && (n - 1 - dp) % 2 == 0
    requires dq == dp + 1 || dq == dp - 1
    ensures dq <= n && (n - dq) % 2 == 0
  {
    if dq == dp - 1 {
      assert n - dq == (n - 1 - dp) + 2;
    }
  }

  /** A successor is a neighbour of one of the positions it comes from. */
  lemma {:induction false} SuccessorFrom(rows: seq<string>, from: set<Pos>, q: Pos) returns (p: Pos)
    requires q in Successors(rows, from)
    ensures p in from && q in Neighbours(p) && Plot(rows, q)
  {
    p :| p in from && q in Neighbours(p) && Plot(rows, q);
  }

  /** A step changes the distance from any fixed position by one. */
  lemma {:induction false} StepDistance(s: Pos, p: Pos, q: Pos)
    requires q in Neighbours(p)
    ensures Distance(s, q) == Distance(s, p) + 1 || Distance(s, q) == Distance(s, p) - 1
  {
  }

  /** From the start every position reached is a plot, since 'S' is one. */
  lemma {:induction false} ReachPlots(rows: seq<string>, start: Pos, n: nat)
    requires |rows| > 0 && Rectangular(rows, |rows[0]|) && IsStartCell(rows, |rows[0]|, start)
    ensures forall q :: q in Reach(rows, start, n) ==> Plot(rows, q)
  {
    if n == 0 {
      PlotInGrid(rows, start);
    }
  }

  /** The eight offsets of `expand_positions`: x outer and y inner over
      [-width, width, 0] and [-height, height, 0], leaving out (0, 0). */
  function Shifts(width: int, height: int): (r: seq<Pos>)
    ensures forall d :: d in r ==> d != Pos(0, 0) && IsOffset(d.x, width) && IsOffset(d.y, height)
  {
    Without([Pos(-width, -height), Pos(-width, height), Pos(-width, 0),
             Pos(width, -height), Pos(width, height), Pos(width, 0),
             Pos(0, -height), Pos(0, height), Pos(0, 0)], Pos(0, 0))
  }

  /** Every combination of the offsets but (0, 0) is among the eight. */
  lemma {:induction false} ShiftsComplete(width: int, height: int, d: Pos)
    requires d != Pos(0, 0) && IsOffset(d.x, width) && IsOffset(d.y, height)
    ensures d in Shifts(width, height)
  {
    var all := [Pos(-width, -height), Pos(-width, height), Pos(-width, 0),
                Pos(width, -height), Pos(width, height), Pos(width, 0),
                Pos(0, -height), Pos(0, height), Pos(0, 0)];
    assert d in all;
  }

  /** `ps` without the occurrences of `z`, in order. */
  function Without(ps: seq<Pos>, z: Pos): (r: seq<Pos>)
    ensures forall d :: d in r <==> d in ps && d != z
  {
    if ps == [] then []
    else
      var last := ps[|ps| - 1];
      Without(ps[..|ps| - 1], z) + (if last == z then [] else [last])
  }

  /** Where an entry shifted by `d` came from. */
  function Back(q: Pos, d: Pos): Pos
  {
    Pos(q.x - d.x, q.y - d.y)
  }

  /** `shifted` is `source` with every key moved by `d`. */
  ghost predicate ShiftedBy(shifted: map<Pos, bool>, source: map<Pos, bool>, d: Pos)
  {
    && (forall q :: q in shifted <==> Back(q, d) in source)
    && (forall q :: q in shifted ==> shifted[q] == source[Back(q, d)])
  }

  /** One `shifted_map` of `expand_positions`: every entry of `source`
      moved by `d`, keeping its value. */
  method ShiftMap(source: map<Pos, bool>, d: Pos) returns (shifted: map<Pos, bool>)
    ensures ShiftedBy(shifted, source, d)
  {
    shifted := map[];
    var remaining := source.Keys;
    while remaining != {}
      invariant remaining <= source.Keys
      invariant forall q :: q in shifted <==> Back(q, d) in source && Back(q, d) !in remaining
      invariant forall q :: q in shifted ==> shifted[q] == source[Back(q, d)]
      decreases remaining
    {
      var coordinates :| coordinates in remaining;
      var moved := Pos(coordinates.x + d.x, coordinates.y + d.y);
      assert Back(moved, d) == coordinates;
      shifted := shifted[moved := source[coordinates]];
      remaining := remaining - {coordinates};
    }
  }

  /** Tripling a window of `k` copies gives `3 * k` copies. */
  lemma {:induction false} Triple(w: int, k: int)
    ensures 3 * (w * k) == w * (3 * k)
  {
  }

  /** `ShiftMap` for each offset of `shifts`, in order. */
  method ShiftMaps(source: map<Pos, bool>, shifts: seq<Pos>) returns (newMaps: seq<map<Pos, bool>>)
    ensures |newMaps| == |shifts|
    ensures forall j :: 0 <= j < |shifts| ==> ShiftedBy(newMaps[j], source, shifts[j])
  {
    newMaps := [];
    for i := 0 to |shifts|
      invariant |newMaps| == i
      invariant forall j :: 0 <= j < i ==> ShiftedBy(newMaps[j], source, shifts[j])
    {
      var shifted := ShiftMap(source, shifts[i]);
      newMaps := newMaps + [shifted];
    }
  }

  /** `positions.update(new_map)` for each of `newMaps` in turn: every
      entry of `source` and of the new maps is kept or overwritten by a
      later one. When all show the repeated map, so does the result, and
      it stays within any bounds they all keep to. */
  method MergeMaps(rows: seq<string>, source: map<Pos, bool>, newMaps: seq<map<Pos, bool>>,
                   x0: int, x1: int, y0: int, y1: int) returns (merged: map<Pos, bool>)
    requires forall p :: p in source ==> source[p] == Plot(rows, p) && Within(p, x0, x1, y0, y1)
    requires forall j, q :: 0 <= j < |newMaps| && q in newMaps[j] ==>
      newMaps[j][q] == Plot(rows, q) && Within(q, x0, x1, y0, y1)
    ensures forall p :: p in source ==> p in merged
    ensures forall j, q :: 0 <= j < |newMaps| && q in newMaps[j] ==> q in merged
    ensures forall p :: p in merged ==> merged[p] == Plot(rows, p) && Within(p, x0, x1, y0, y1)
  {
    merged := source;
    for i := 0 to |newMaps|
      invariant forall p :: p in source ==> p in merged
      invariant forall j, q :: 0 <= j < i && q in newMaps[j] ==> q in merged
      invariant forall p :: p in merged ==> merged[p] == Plot(rows, p) && Within(p, x0, x1, y0, y1)
    {
      merged := merged + newMaps[i];
    }
  }

  /** A cell of the tripled window comes from the old window moved by
      one of the offsets `expand_positions` combines. */
  lemma {:induction false} Cover(q: Pos, x0: int, x1: int, y0: int, y1: int) returns (d: Pos)
    requires x0 <= x1 && y0 <= y1
    requires x0 - (x1 - x0 + 1) <= q.x <= x1 + (x1 - x0 + 1)
    requires y0 - (y1 - y0 + 1) <= q.y <= y1 + (y1 - y0 + 1)
    ensures x0 <= Back(q, d).x <= x1 && y0 <= Back(q, d).y <= y1
    ensures d.x == -(x1 - x0 + 1) || d.x == x1 - x0 + 1 || d.x == 0
    ensures d.y == -(y1 - y0 + 1) || d.y == y1 - y0 + 1 || d.y == 0
  {
    var w, h := x1 - x0 + 1, y1 - y0 + 1;
    d := Pos(if q.x < x0 then -w else if q.x > x1 then w else 0,
             if q.y < y0 then -h else if q.y > y1 then h else 0);
  }

  /** The entries of the tripled window that `expand_positions` makes
      from those of the window [x0, x1] by [y0, y1], which spans whole
      copies of the map: the window's own entries, then its copies moved
      by each of the eight offsets in turn. */
  method ExpandedEntries(rows: seq<string>, source: map<Pos, bool>, x0: int, x1: int, y0: int, y1: int,
                         ghost across: int, ghost down: int) returns (merged: map<Pos, bool>)
    requires |rows| > 0 && x1 - x0 + 1 == |rows[0]| * across && y1 - y0 + 1 == |rows| * down
    requires forall p :: p in source <==> Within(p, x0, x1, y0, y1)
    requires forall p :: p in source ==> source[p] == Plot(rows, p)
    ensures forall p :: p in merged <==> Within(p, x0 - (x1 - x0 + 1), x1 + (x1 - x0 + 1), y0 - (y1 - y0 + 1), y1 + (y1 - y0 + 1))
    ensures forall p :: p in merged ==> merged[p] == Plot(rows, p)
  {
    var currentWidth, currentHeight := x1 - x0 + 1, y1 - y0 + 1;
    var shifts, newMaps := ShiftedCopies(source, currentWidth, currentHeight);
    CopiesShowPlots(rows, source, shifts, newMaps, x0, x1, y0, y1, across, down);
    merged := MergeMaps(rows, source, newMaps, x0 - currentWidth, x1 + currentWidth, y0 - currentHeight, y1 + currentHeight);
    Covered(source, shifts, newMaps, merged, x0, x1, y0, y1);
  }

  /** The offsets `expand_positions` combines and the window's entries
      moved by each of them, in order: every offset but (0, 0), and only
      those. */
  method ShiftedCopies(source: map<Pos, bool>, w: int, h: int)
    returns (shifts: seq<Pos>, newMaps: seq<map<Pos, bool>>)
    ensures forall d :: d in shifts ==> d != Pos(0, 0) && IsOffset(d.x, w) && IsOffset(d.y, h)
    ensures OffsetsIn(shifts, w, h)
    ensures |newMaps| == |shifts| && forall j :: 0 <= j < |shifts| ==> ShiftedBy(newMaps[j], source, shifts[j])
  {
    shifts := Shifts(w, h);
    forall d: Pos | d != Pos(0, 0) && IsOffset(d.x, w) && IsOffset(d.y, h)
      ensures d in shifts
    {
      ShiftsComplete(w, h, d);
    }
    newMaps := ShiftMaps(source, shifts);
  }

  /** All eight copies show the repeated map and lie within the tripled
      window. */
  lemma {:induction false} CopiesShowPlots(rows: seq<string>, source: map<Pos, bool>, shifts: seq<Pos>,
                       newMaps: seq<map<Pos, bool>>, x0: int, x1: int, y0: int, y1: int, across: int, down: int)
    requires |rows| > 0 && x1 - x0 + 1 == |rows[0]| * across && y1 - y0 + 1 == |rows| * down
    requires forall p :: p in source <==> Within(p, x0, x1, y0, y1)
    requires forall p :: p in source ==> source[p] == Plot(rows, p)
    requires forall d :: d in shifts ==> IsOffset(d.x, x1 - x0 + 1) && IsOffset(d.y, y1 - y0 + 1)
    requires |newMaps| == |shifts| && forall j :: 0 <= j < |shifts| ==> ShiftedBy(newMaps[j], source, shifts[j])
    ensures forall j, q :: 0 <= j < |newMaps| && q in newMaps[j] ==>
      newMaps[j][q] == Plot(rows, q) && Within(q, x0 - (x1 - x0 + 1), x1 + (x1 - x0 + 1), y0 - (y1 - y0 + 1), y1 + (y1 - y0 + 1))
  {
    forall j | 0 <= j < |newMaps|
      ensures forall q :: q in newMaps[j] ==>
        newMaps[j][q] == Plot(rows, q) && Within(q, x0 - (x1 - x0 + 1), x1 + (x1 - x0 + 1), y0 - (y1 - y0 + 1), y1 + (y1 - y0 + 1))
    {
      CopyShowsPlots(rows, source, newMaps[j], shifts[j], x0, x1, y0, y1, across, down);
    }
  }

  /** A copy of the window moved by one of the eight offsets shows the
      repeated map and lies within the tripled window. */
  lemma {:induction false} CopyShowsPlots(rows: seq<string>, source: map<Pos, bool>, shifted: map<Pos, bool>, d: Pos,
                       x0: int, x1: int, y0: int, y1: int, across: int, down: int)
    requires |rows| > 0 && x1 - x0 + 1 == |rows[0]| * across && y1 - y0 + 1 == |rows| * down
    requires forall p :: p in source <==> Within(p, x0, x1, y0, y1)
    requires forall p :: p in source ==> source[p] == Plot(rows, p)
    requires IsOffset(d.x, x1 - x0 + 1) && IsOffset(d.y, y1 - y0 + 1)
    requires ShiftedBy(shifted, source, d)
    ensures forall q :: q in shifted ==>
      shifted[q] == Plot(rows, q) && Within(q, x0 - (x1 - x0 + 1), x1 + (x1 - x0 + 1), y0 - (y1 - y0 + 1), y1 + (y1 - y0 + 1))
  {
    var a := WholeCopies(|rows[0]|, across, x1 - x0 + 1, d.x);
    var b := WholeCopies(|rows|, down, y1 - y0 + 1, d.y);
    ShiftedPlots(rows, source, shifted, d, a, b);
    forall q | q in shifted
      ensures Within(q, x0 - (x1 - x0 + 1), x1 + (x1 - x0 + 1), y0 - (y1 - y0 + 1), y1 + (y1 - y0 + 1))
    {
      assert Back(q, d) in source;
    }
  }

  /** `q` lies within the bounds [x0, x1] by [y0, y1]. */
  predicate Within(q: Pos, x0: int, x1: int, y0: int, y1: int)
  {
    x0 <= q.x <= x1 && y0 <= q.y <= y1
  }

  /** The eight shifted copies and the window itself cover the tripled
      window. */
  lemma {:induction false} Covered(source: map<Pos, bool>, shifts: seq<Pos>, newMaps: seq<map<Pos, bool>>, merged: map<Pos, bool>,
                x0: int, x1: int, y0: int, y1: int)
    requires forall p :: p in source <==> Within(p, x0, x1, y0, y1)
    requires OffsetsIn(shifts, x1 - x0 + 1, y1 - y0 + 1)
    requires |newMaps| == |shifts| && forall j :: 0 <= j < |shifts| ==> ShiftedBy(newMaps[j], source, shifts[j])
    requires forall p :: p in source ==> p in merged
    requires forall j, q :: 0 <= j < |newMaps| && q in newMaps[j] ==> q in merged
    ensures forall q: Pos :: Within(q, x0 - (x1 - x0 + 1), x1 + (x1 - x0 + 1), y0 - (y1 - y0 + 1), y1 + (y1 - y0 + 1)) ==> q in merged
  {
    forall q: Pos | Within(q, x0 - (x1 - x0 + 1), x1 + (x1 - x0 + 1), y0 - (y1 - y0 + 1), y1 + (y1 - y0 + 1))
      ensures q in merged
    {
      var j := CoveredAt(source, shifts, newMaps, q, x0, x1, y0, y1);
    }
  }

  /** A cell of the tripled window is in the window itself (`j == -1`) or
      in the copy `j`. */
  lemma {:induction false} CoveredAt(source: map<Pos, bool>, shifts: seq<Pos>, newMaps: seq<map<Pos, bool>>, q: Pos,
                x0: int, x1: int, y0: int, y1: int) returns (j: int)
    requires forall p :: p in source <==> Within(p, x0, x1, y0, y1)
    requires OffsetsIn(shifts, x1 - x0 + 1, y1 - y0 + 1)
    requires |newMaps| == |shifts| && forall j :: 0 <= j < |shifts| ==> ShiftedBy(newMaps[j], source, shifts[j])
    requires Within(q, x0 - (x1 - x0 + 1), x1 + (x1 - x0 + 1), y0 - (y1 - y0 + 1), y1 + (y1 - y0 + 1))
    ensures j == -1 ==> q in source
    ensures j != -1 ==> 0 <= j < |newMaps| && q in newMaps[j]
  {
    NonEmptyWindow(x0, x1, q.x);
    NonEmptyWindow(y0, y1, q.y);
    var d := Cover(q, x0, x1, y0, y1);
    if d != Pos(0, 0) {
      j := CoveringCopy(source, shifts, newMaps, q, d);
    } else {
      assert Back(q, d) == q;
      j := -1;
    }
  }

  /** `v` is one of the offsets `-span`, `span` and `0`. */
  predicate IsOffset(v: int, span: int)
  {
    v == -span || v == span || v == 0
  }

  /** Every combination of offsets but (0, 0) is among `shifts`. */
  ghost predicate OffsetsIn(shifts: seq<Pos>, w: int, h: int)
  {
    forall d: Pos :: d != Pos(0, 0) && IsOffset(d.x, w) && IsOffset(d.y, h) ==> d in shifts
  }

  /** Only a window with cells has cells in its tripled window. */
  lemma {:induction false} NonEmptyWindow(lo: int, hi: int, v: int)
    requires lo - (hi - lo + 1) <= v <= hi + (hi - lo + 1)
    ensures lo <= hi
  {
  }

  /** A cell outside the window is in the copy moved by the offset that
      brings it back into the window. */
  lemma {:induction false} CoveringCopy(source: map<Pos, bool>, shifts: seq<Pos>, newMaps: seq<map<Pos, bool>>, q: Pos, d: Pos)
    returns (j: int)
    requires |newMaps| == |shifts| && forall j :: 0 <= j < |shifts| ==> ShiftedBy(newMaps[j], source, shifts[j])
    requires d in shifts && Back(q, d) in source
    ensures 0 <= j < |newMaps| && q in newMaps[j]
  {
    j :| 0 <= j < |shifts| && shifts[j] == d;
    assert q in newMaps[j];
  }

  /** Entries that show the repeated map still show it when moved by whole
      copies of the map. */
  lemma {:induction false} ShiftedPlots(rows: seq<string>, source: map<Pos, bool>, shifted: map<Pos, bool>, d: Pos, i: int, j: int)
    requires |rows| > 0 && d == Pos(|rows[0]| * i, |rows| * j)
    requires forall p :: p in source ==> source[p] == Plot(rows, p)
    requires ShiftedBy(shifted, source, d)
    ensures forall q :: q in shifted ==> shifted[q] == Plot(rows, q)
  {
    forall q | q in shifted ensures shifted[q] == Plot(rows, q) {
      var b := Back(q, d);
      PlotPeriodic(rows, b, i, j);
      assert Pos(b.x + |rows[0]| * i, b.y + |rows| * j) == q;
    }
  }

  /** The `-span`, `span` or `0` of a shift, as a number of copies of a
      map `size` wide, when `span` is `copies` of them. */
  lemma {:induction false} WholeCopies(size: int, copies: int, span: int, offset: int) returns (k: int)
    requires span == size * copies
    requires offset == -span || offset == span || offset == 0
    ensures offset == size * k
  {
    if offset == span {
      k := copies;
    } else if offset == -span {
      k := -copies;
    } else {
      k := 0;
    }
  }

  /** `FarmMap`: the map as written, its entries over the current window,
      the window's bounds, and the start. */
  class FarmMap {
    var rows: seq<string>
    var height: nat
    var width: nat
    var positions: map<Pos, bool>
    var start: Option<Pos>
    var xMin: int
    var xMax: int
    var yMin: int
    var yMax: int
    /** How many copies of the map the window spans across and down. */
    ghost var across: nat
    ghost var down: nat

    /** The window spans whole copies of the map and contains the map as
        written; `positions` has an entry for exactly the cells of the
        window, each saying whether the repeated map has a plot there. */
    ghost predicate Valid()
      reads this
    {
      && height == |rows| > 0 && width == |rows[0]| && Rectangular(rows, width)
      && xMin <= 0 && width - 1 <= xMax && xMax - xMin + 1 == width * across
      && yMin <= 0 && height - 1 <= yMax && yMax - yMin + 1 == height * down
      && (forall p :: p in positions <==> InWindow(p))
      && (forall p :: p in positions ==> positions[p] == Plot(rows, p))
      && (start.Some? ==> IsStartCell(rows, width, start.value))
    }

    /** `p` lies within the bounds of the window. */
    predicate InWindow(p: Pos)
      reads this
    {
      xMin <= p.x <= xMax && yMin <= p.y <= yMax
    }

    /** `FarmMap.__init__`: the entries of the map as written, the window
        being the map itself. The source reads `rows[0]` for the width and
        every row up to that width. */
    constructor (lines: seq<string>)
      requires |lines| > 0 && Rectangular(lines, |lines[0]|)
      ensures Valid()
      ensures rows == lines && height == |lines| && width == |lines[0]|
      ensures positions == Grid(lines, width) && LastStart(lines, width, start)
      ensures xMin == 0 && xMax == width - 1 && yMin == 0 && yMax == height - 1
    {
      rows := lines;
      height := |lines|;
      width := |lines[0]|;
      positions := map[];
      start := None;
      new;
      CreatePositions();
      yMin := 0;
      yMax := height - 1;
      xMin := 0;
      xMax := width - 1;
      across := 1;
      down := 1;
      GridPlots(lines);
    }

    /** `create_positions`: an entry per cell, True for '.' and 'S'; the
        start is the last 'S' met in row-major order. */
    method CreatePositions()
      requires Rectangular(rows, width) && height == |rows|
      modifies this`positions, this`start
      ensures positions == Grid(rows, width)
      ensures LastStart(rows, width, start)
    {
      var made: map<Pos, bool> := map[];
      var found: Option<Pos> := None;
      for row := 0 to height
        invariant made == CellsBefore(rows, width, row, 0)
        invariant LastStartBefore(rows, width, row, 0, found)
      {
        for column := 0 to width
          invariant made == CellsBefore(rows, width, row, column)
          invariant LastStartBefore(rows, width, row, column, found)
        {
          var representation := rows[row][column];
          made := made[Pos(column, row) := IsPlot(representation)];
          if representation == 'S' {
            found := Some(Pos(column, row));
          }
        }
        assert forall p :: IsStartCell(rows, width, p) ==> (Earlier(p, row, width) <==> Earlier(p, row + 1, 0));
      }
      positions := made;
      start := found;
    }

    /** `expand_positions`: every bound moves out by the window's current
        width or height, and the window's entries are copied to the eight
        neighbouring windows; the existing entries stay as they were. */
    method ExpandPositions()
      requires Valid()
      modifies this`positions, this`xMin, this`xMax, this`yMin, this`yMax, this`across, this`down
      ensures Valid()
      ensures xMin == old(xMin) - old(xMax - xMin + 1) && xMax == old(xMax) + old(xMax - xMin + 1)
      ensures yMin == old(yMin) - old(yMax - yMin + 1) && yMax == old(yMax) + old(yMax - yMin + 1)
      ensures forall p :: p in old(positions) ==> p in positions && positions[p] == old(positions)[p]
    {
      ghost var (across0, down0) := (across, down);
      var expanded := ExpandedEntries(rows, positions, xMin, xMax, yMin, yMax, across, down);
      var currentHeight := yMax - yMin + 1;
      var currentWidth := xMax - xMin + 1;
      yMax := yMax + currentHeight;
      yMin := yMin - currentHeight;
      xMax := xMax + currentWidth;
      xMin := xMin - currentWidth;
      across := 3 * across;
      down := 3 * down;
      Triple(width, across0);
      Triple(height, down0);
      positions := expanded;
    }

    /** `find_possible_positions_after_step`: the neighbours, left, right,
        up and down, whose entry is a plot; a neighbour outside the window
        first makes the window expand. From a position inside the window
        the expansion is invisible: the result is the neighbours where the
        repeated map has a plot. */
    method FindPossiblePositionsAfterStep(position: Pos) returns (possible: seq<Pos>)
      requires Valid()
      modifies this`positions, this`xMin, this`xMax, this`yMin, this`yMax, this`across, this`down
      ensures Valid()
      ensures xMin <= old(xMin) && old(xMax) <= xMax && yMin <= old(yMin) && old(yMax) <= yMax
      ensures old(InWindow(position)) ==> possible == PlotsAmong(rows, Neighbours(position))
      ensures forall q :: q in possible ==> q in Neighbours(position) && InWindow(q) && Plot(rows, q)
    {
      possible := [];
      var candidates := Neighbours(position);
      ghost var inside := InWindow(position);
      for i := 0 to 4
        invariant Valid()
        invariant xMin <= old(xMin) && old(xMax) <= xMax && yMin <= old(yMin) && old(yMax) <= yMax
        invariant inside ==> possible == PlotsAmong(rows, candidates[..i])
        invariant forall q :: q in possible ==> q in candidates && InWindow(q) && Plot(rows, q)
      {
        var coordinates := candidates[i];
        if !(xMin <= coordinates.x <= xMax) || !(yMin <= coordinates.y <= yMax) {
          ExpandPositions();
        }
        assert candidates[..i + 1] == candidates[..i] + [coordinates];
        assert candidates[..i + 1][..i] == candidates[..i];
        if coordinates in positions && positions[coordinates] {
          possible := possible + [coordinates];
        }
      }
      assert candidates[..4] == candidates;
    }

    /** `find_all_possible_positions_after_step_with_multiple_starts`: the
        union of the steps from every position of `startingPositions`. */
    method FindAllPossiblePositionsAfterStepWithMultipleStarts(startingPositions: set<Pos>) returns (endingPositions: set<Pos>)
      requires Valid()
      modifies this`positions, this`xMin, this`xMax, this`yMin, this`yMax, this`across, this`down
      ensures Valid()
      ensures xMin <= old(xMin) && old(xMax) <= xMax && yMin <= old(yMin) && old(yMax) <= yMax
      ensures (forall p :: p in startingPositions ==> old(InWindow(p))) ==>
        endingPositions == Successors(rows, startingPositions)
      ensures forall q :: q in endingPositions ==> InWindow(q) && Plot(rows, q)
    {
      endingPositions := {};
      var remaining := startingPositions;
      ghost var done: set<Pos> := {};
      ghost var inside := forall p :: p in startingPositions ==> InWindow(p);
      while remaining != {}
        invariant Valid()
        invariant xMin <= old(xMin) && old(xMax) <= xMax && yMin <= old(yMin) && old(yMax) <= yMax
        invariant done + remaining == startingPositions
        invariant inside ==> forall p :: p in remaining ==> InWindow(p)
        invariant inside ==> endingPositions == Successors(rows, done)
        invariant forall q :: q in endingPositions ==> InWindow(q) && Plot(rows, q)
        decreases remaining
      {
        var position :| position in remaining;
        endingPositions := StepFrom(position, endingPositions, done, inside);
        remaining := remaining - {position};
        done := done + {position};
      }
    }

    /** One round of the loop over the starting positions: add the steps
        from `position` to those found so far. */
    method StepFrom(position: Pos, found: set<Pos>, ghost done: set<Pos>, ghost inside: bool) returns (extended: set<Pos>)
      requires Valid()
      requires inside ==> InWindow(position) && found == Successors(rows, done)
      requires forall q :: q in found ==> InWindow(q) && Plot(rows, q)
      modifies this`positions, this`xMin, this`xMax, this`yMin, this`yMax, this`across, this`down
      ensures Valid()
      ensures xMin <= old(xMin) && old(xMax) <= xMax && yMin <= old(yMin) && old(yMax) <= yMax
      ensures inside ==> extended == Successors(rows, done + {position})
      ensures forall q :: q in extended ==> InWindow(q) && Plot(rows, q)
    {
      var possible := FindPossiblePositionsAfterStep(position);
      if inside {
        SuccessorsAdd(rows, done, position);
      }
      extended := found + (set q | q in possible);
    }

    /** `determine_reachable_plots_after_certain_steps`: the number of
        positions reachable in exactly `steps` steps from the start (the
        start alone when `steps` is not positive); `None` is the
        AttributeError of a map without an 'S'. */
    method DetermineReachablePlotsAfterCertainSteps(steps: int) returns (count: Option<nat>)
      requires Valid()
      modifies this`positions, this`xMin, this`xMax, this`yMin, this`yMax, this`across, this`down
      ensures Valid()
      ensures count.None? <==> start.None?
      ensures count.Some? ==> count.value == |Reach(rows, start.value, if steps < 0 then 0 else steps)|
      ensures steps <= 0 && count.Some? ==> count.value == 1
    {
      if start.None? {
        return None;
      }
      var currentStep := 0;
      var currentPositions := {start.value};
      while currentStep < steps
        invariant Valid()
        invariant 0 <= currentStep <= (if steps < 0 then 0 else steps)
        invariant currentPositions == Reach(rows, start.value, currentStep)
        invariant forall p :: p in currentPositions ==> InWindow(p)
        decreases steps - currentStep
      {
        currentPositions := Advance(currentPositions, currentStep);
        currentStep := currentStep + 1;
      }
      assert currentStep == if steps < 0 then 0 else steps;
      return Some(|currentPositions|);
    }

    /** One round of the step loop: the positions reached in one more
        step. */
    method Advance(current: set<Pos>, ghost n: nat) returns (next: set<Pos>)
      requires Valid() && start.Some?
      requires current == Reach(rows, start.value, n)
      requires forall p :: p in current ==> InWindow(p)
      modifies this`positions, this`xMin, this`xMax, this`yMin, this`yMax, this`across, this`down
      ensures Valid()
      ensures next == Reach(rows, start.value, n + 1)
      ensures forall p :: p in next ==> InWindow(p)
    {
      next := FindAllPossiblePositionsAfterStepWithMultipleStarts(current);
    }
  }
}
