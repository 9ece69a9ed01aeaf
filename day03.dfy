/** Day 3: an engine schematic. Numbers written across a row are part
    numbers when one of their digits is adjacent to a special character; a
    '*' next to exactly two part numbers is a gear whose ratio is their
    product. The grid's own cell lookups (utils.Grid, utils.Cell) are not
    part of this model: the rows give each cell's content, the left and
    right neighbours are the cells one column over in the same row, and the
    cells the grid reports as adjacent are a parameter, of which only those
    that are cells of the grid are used. */
module Day03 {
  import opened Text
  import opened Grids
  import opened Sums

  /** The characters that mark a part number, `special_character_values`. */
  const SpecialCharacterValues: string := "@#$%&*-+=/"

  predicate IsSpecial(c: char)
  {
    c in SpecialCharacterValues
  }

  /** The schematic's rows, and the cells the grid reports as adjacent to
      each cell. */
  datatype Grid = Grid(rows: seq<string>, adjacent: Pos -> set<Pos>)

  predicate InGrid(grid: Grid, p: Pos)
  {
    0 <= p.y < |grid.rows| && 0 <= p.x < |grid.rows[p.y]|
  }

  function Content(grid: Grid, p: Pos): char
    requires InGrid(grid, p)
  {
    grid.rows[p.y][p.x]
  }

  /** A cell of the grid holding a digit (`content.isdigit()`). */
  predicate IsNumeral(grid: Grid, p: Pos)
  {
    InGrid(grid, p) && IsDigit(Content(grid, p))
  }

  /** `grid.get_left_cell`: the cell one column to the left, if any. */
  function LeftCell(grid: Grid, p: Pos): (r: Option<Pos>)
    ensures r.Some? ==> InGrid(grid, r.value)
  {
    if InGrid(grid, Pos(p.x - 1, p.y)) then Some(Pos(p.x - 1, p.y)) else None
  }

  /** `grid.get_right_cell`: the cell one column to the right, if any. */
  function RightCell(grid: Grid, p: Pos): (r: Option<Pos>)
    ensures r.Some? ==> InGrid(grid, r.value)
  {
    if InGrid(grid, Pos(p.x + 1, p.y)) then Some(Pos(p.x + 1, p.y)) else None
  }

  /** Row-major order: the order the grid's cells are visited in. */
  predicate Before(p: Pos, q: Pos)
  {
    p.y < q.y || (p.y == q.y && p.x < q.x)
  }

  // ---------------------------------------------------------------------
  // Special characters

  /** `Schematic.find_all_special_characters`: the special cells, in
      row-major order. */
  method FindAllSpecialCharacters(grid: Grid) returns (specials: seq<Pos>)
    ensures forall p :: p in specials <==> InGrid(grid, p) && IsSpecial(Content(grid, p))
    ensures forall i, j :: 0 <= i < j < |specials| ==> Before(specials[i], specials[j])
  {
    specials := [];
    for y := 0 to |grid.rows|
      invariant forall p :: p in specials <==> InGrid(grid, p) && IsSpecial(Content(grid, p)) && p.y < y
      invariant forall i, j :: 0 <= i < j < |specials| ==> Before(specials[i], specials[j])
      invariant forall i :: 0 <= i < |specials| ==> specials[i].y < y
    {
      for x := 0 to |grid.rows[y]|
        invariant forall p :: p in specials <==> InGrid(grid, p) && IsSpecial(Content(grid, p)) && Before(p, Pos(x, y))
        invariant forall i, j :: 0 <= i < j < |specials| ==> Before(specials[i], specials[j])
        invariant forall i :: 0 <= i < |specials| ==> Before(specials[i], Pos(x, y))
      {
        if IsSpecial(grid.rows[y][x]) {
          specials := specials + [Pos(x, y)];
        }
      }
    }
  }

  // ---------------------------------------------------------------------
  // Adjacent numerals

  /** The digit cells among those adjacent to `core`. */
  function AdjacentNumerals(grid: Grid, core: Pos): set<Pos>
  {
    set q | q in grid.adjacent(core) && IsNumeral(grid, q)
  }

  method Pick(s: set<Pos>) returns (p: Pos)
    requires s != {}
    ensures p in s
  {
    ghost var _ := HasElement(s);
    p :| p in s;
  }

  /** `Schematic.find_all_adjacent_numeral_cells`: the loop over the
      adjacent cells keeping those that hold a digit, as a set. */
  method FindAllAdjacentNumeralCells(grid: Grid, core: Pos) returns (numerals: set<Pos>)
    ensures forall q :: q in numerals <==> q in grid.adjacent(core) && IsNumeral(grid, q)
  {
    numerals := {};
    var remaining := grid.adjacent(core);
    while remaining != {}
      invariant remaining <= grid.adjacent(core)
      invariant forall q :: q in numerals <==> q in grid.adjacent(core) - remaining && IsNumeral(grid, q)
      decreases |remaining|
    {
      var cell := Pick(remaining);
      if InGrid(grid, cell) && IsDigit(grid.rows[cell.y][cell.x]) {
        numerals := numerals + {cell};
      }
      remaining := remaining - {cell};
    }
  }

  /** The cells listed in `cells`. */
  function Elements(cells: seq<Pos>): set<Pos>
  {
    set c | c in cells
  }

  /** The digit cells adjacent to some cell of `specials`. */
  function NumeralsNear(grid: Grid, specials: set<Pos>): set<Pos>
  {
    set c, q | c in specials && q in AdjacentNumerals(grid, c) :: q
  }

  /** `Schematic.find_all_numeral_cells_adjacent_to_special_character`:
      every digit cell adjacent to one of `specials`, each once. */
  method FindAllNumeralCellsAdjacentToSpecialCharacter(grid: Grid, specials: seq<Pos>) returns (numerals: set<Pos>)
    ensures forall q :: q in numerals <==>
      IsNumeral(grid, q) && exists i :: 0 <= i < |specials| && q in grid.adjacent(specials[i])
    ensures numerals == NumeralsNear(grid, Elements(specials))
  {
    numerals := {};
    for k := 0 to |specials|
      invariant numerals == NumeralsNear(grid, Elements(specials[..k]))
    {
      var adjacent := FindAllAdjacentNumeralCells(grid, specials[k]);
      assert adjacent == AdjacentNumerals(grid, specials[k]);
      NumeralsNearAdd(grid, Elements(specials[..k]), specials[k]);
      assert Elements(specials[..k + 1]) == Elements(specials[..k]) + {specials[k]} by {
        assert specials[..k + 1] == specials[..k] + [specials[k]];
      }
      numerals := numerals + adjacent;
    }
    assert specials[..|specials|] == specials;
    forall q | q in numerals
      ensures IsNumeral(grid, q) && exists i :: 0 <= i < |specials| && q in grid.adjacent(specials[i])
    {
      var c :| c in specials && q in AdjacentNumerals(grid, c);
      var i :| 0 <= i < |specials| && specials[i] == c;
    }
    forall q, i | IsNumeral(grid, q) && 0 <= i < |specials| && q in grid.adjacent(specials[i])
      ensures q in numerals
    {
      assert q in AdjacentNumerals(grid, specials[i]);
    }
  }

  lemma {:induction false} NumeralsNearAdd(grid: Grid, specials: set<Pos>, c: Pos)
    ensures NumeralsNear(grid, specials + {c}) == NumeralsNear(grid, specials) + AdjacentNumerals(grid, c)
  {
  }

  // ---------------------------------------------------------------------
  // Runs of digits

  /** The first column of the run of digits that reaches `p` from the
      left. */
  function RunStart(grid: Grid, p: Pos): (x: int)
    requires InGrid(grid, p)
    ensures 0 <= x <= p.x
    decreases p.x
  {
    if IsNumeral(grid, Pos(p.x - 1, p.y)) then RunStart(grid, Pos(p.x - 1, p.y)) else p.x
  }

  /** The column just past the run of digits that reaches `p` from the
      right. */
  function RunEnd(grid: Grid, p: Pos): (x: int)
    requires InGrid(grid, p)
    ensures p.x < x <= |grid.rows[p.y]|
    decreases |grid.rows[p.y]| - p.x
  {
    if IsNumeral(grid, Pos(p.x + 1, p.y)) then RunEnd(grid, Pos(p.x + 1, p.y)) else p.x + 1
  }

  /** The cells of row `y` from column `start` up to, not including, `end`. */
  function Span(y: int, start: int, end: int): (r: seq<Pos>)
    requires start <= end
    ensures |r| == end - start
    ensures forall i :: 0 <= i < |r| ==> r[i] == Pos(start + i, y)
  {
    seq(end - start, i => Pos(start + i, y))
  }

  /** The cells `find_part_number` collects from `core`. */
  function Run(grid: Grid, core: Pos): seq<Pos>
    requires InGrid(grid, core)
  {
    Span(core.y, RunStart(grid, core), RunEnd(grid, core))
  }

  /** Walking left from `p` over digits ends at the run's start: every cell
      passed is a digit, and the cell before the start is not. */
  lemma {:induction false} RunStartMaximal(grid: Grid, p: Pos)
    requires InGrid(grid, p)
    ensures forall x :: RunStart(grid, p) <= x < p.x ==> IsNumeral(grid, Pos(x, p.y))
    ensures !IsNumeral(grid, Pos(RunStart(grid, p) - 1, p.y))
    decreases p.x
  {
    if IsNumeral(grid, Pos(p.x - 1, p.y)) {
      RunStartMaximal(grid, Pos(p.x - 1, p.y));
    }
  }

  /** Walking right from `p` over digits ends at the run's end. */
  lemma {:induction false} RunEndMaximal(grid: Grid, p: Pos)
    requires InGrid(grid, p)
    ensures forall x :: p.x < x < RunEnd(grid, p) ==> IsNumeral(grid, Pos(x, p.y))
    ensures !IsNumeral(grid, Pos(RunEnd(grid, p), p.y))
    decreases |grid.rows[p.y]| - p.x
  {
    if IsNumeral(grid, Pos(p.x + 1, p.y)) {
      RunEndMaximal(grid, Pos(p.x + 1, p.y));
    }
  }

  /** The run through `core` is the maximal stretch of consecutive cells of
      its row that holds `core` and whose other cells are all digits: the
      cells just outside it are not digits (or not cells). */
  lemma {:induction false} RunMaximal(grid: Grid, core: Pos)
    requires InGrid(grid, core)
    ensures var run := Run(grid, core);
      core in run &&
      (forall i :: 0 <= i < |run| ==> run[i].y == core.y && (run[i] != core ==> IsNumeral(grid, run[i]))) &&
      (forall i :: 0 < i < |run| ==> run[i].x == run[i - 1].x + 1) &&
      !IsNumeral(grid, Pos(run[0].x - 1, core.y)) &&
      !IsNumeral(grid, Pos(run[|run| - 1].x + 1, core.y))
  {
    RunStartMaximal(grid, core);
    RunEndMaximal(grid, core);
    var run := Run(grid, core);
    assert run[core.x - RunStart(grid, core)] == core;
  }

  /** A stretch of digits bounded by non-digits is the run of each of its
      cells. */
  lemma {:induction false} RunUnique(grid: Grid, q: Pos, start: int, end: int)
    requires start <= q.x < end
    requires forall x :: start <= x < end ==> IsNumeral(grid, Pos(x, q.y))
    requires !IsNumeral(grid, Pos(start - 1, q.y)) && !IsNumeral(grid, Pos(end, q.y))
    ensures InGrid(grid, q) && RunStart(grid, q) == start && RunEnd(grid, q) == end
  {
    assert IsNumeral(grid, Pos(q.x, q.y));
    RunStartUnique(grid, q, start, end);
    RunEndUnique(grid, q, start, end);
  }

  lemma {:induction false} RunStartUnique(grid: Grid, q: Pos, start: int, end: int)
    requires start <= q.x < end
    requires forall x :: start <= x < end ==> IsNumeral(grid, Pos(x, q.y))
    requires !IsNumeral(grid, Pos(start - 1, q.y))
    ensures InGrid(grid, q) && RunStart(grid, q) == start
    decreases q.x - start
  {
    assert IsNumeral(grid, Pos(q.x, q.y));
    if q.x > start {
      RunStartUnique(grid, Pos(q.x - 1, q.y), start, end);
    }
  }

  lemma {:induction false} RunEndUnique(grid: Grid, q: Pos, start: int, end: int)
    requires start <= q.x < end
    requires forall x :: start <= x < end ==> IsNumeral(grid, Pos(x, q.y))
    requires !IsNumeral(grid, Pos(end, q.y))
    ensures InGrid(grid, q) && RunEnd(grid, q) == end
    decreases end - q.x
  {
    assert IsNumeral(grid, Pos(q.x, q.y));
    if q.x + 1 < end {
      RunEndUnique(grid, Pos(q.x + 1, q.y), start, end);
    }
  }

  /** Every cell of a digit's run is a digit with the same run. */
  lemma {:induction false} RunShared(grid: Grid, p: Pos, q: Pos)
    requires IsNumeral(grid, p) && q in Run(grid, p)
    ensures IsNumeral(grid, q) && Run(grid, q) == Run(grid, p)
  {
    RunStartMaximal(grid, p);
    RunEndMaximal(grid, p);
    RunUnique(grid, q, RunStart(grid, p), RunEnd(grid, p));
  }

  /** Two digits whose runs start at the same cell have the same run: the
      equality of part numbers by their first cell is the equality of their
      runs. */
  lemma {:induction false} FirstCellDetermines(grid: Grid, p: Pos, q: Pos)
    requires IsNumeral(grid, p) && IsNumeral(grid, q)
    requires Run(grid, p)[0] == Run(grid, q)[0]
    ensures Run(grid, p) == Run(grid, q)
  {
    var first := Run(grid, p)[0];
    RunShared(grid, p, first);
    RunShared(grid, q, first);
  }

  // ---------------------------------------------------------------------
  // Part numbers

  datatype PartNumber = PartNumber(cells: seq<Pos>, value: int)

  /** The contents of `cells`, concatenated in order. */
  function Digits(grid: Grid, cells: seq<Pos>): string
    requires forall i :: 0 <= i < |cells| ==> InGrid(grid, cells[i])
  {
    if cells == [] then "" else Digits(grid, cells[..|cells| - 1]) + [Content(grid, cells[|cells| - 1])]
  }

  /** The contents of a stretch of a row are that slice of the row. */
  lemma {:induction false} DigitsSpan(grid: Grid, y: int, start: int, end: int)
    requires 0 <= y < |grid.rows| && 0 <= start <= end <= |grid.rows[y]|
    ensures Digits(grid, Span(y, start, end)) == grid.rows[y][start..end]
    decreases end - start
  {
    if start < end {
      DigitsSpan(grid, y, start, end - 1);
      var cells := Span(y, start, end);
      assert cells[..end - start - 1] == Span(y, start, end - 1);
      assert cells[end - start - 1] == Pos(end - 1, y);
      assert Digits(grid, cells) == Digits(grid, cells[..end - start - 1]) + [Content(grid, Pos(end - 1, y))];
      assert grid.rows[y][start..end] == grid.rows[y][start..end - 1] + [grid.rows[y][end - 1]];
    }
  }

  /** The text of the run through `core`: the slice of its row between the
      run's ends. */
  lemma {:induction false} RunText(grid: Grid, core: Pos)
    requires InGrid(grid, core)
    ensures Digits(grid, Run(grid, core)) == grid.rows[core.y][RunStart(grid, core)..RunEnd(grid, core)]
  {
    DigitsSpan(grid, core.y, RunStart(grid, core), RunEnd(grid, core));
  }

  /** The run through a digit is all digits. */
  lemma {:induction false} RunDigits(grid: Grid, core: Pos)
    requires IsNumeral(grid, core)
    ensures |Digits(grid, Run(grid, core))| > 0 && AllDigits(Digits(grid, Run(grid, core)))
  {
    RunText(grid, core);
    RunStartMaximal(grid, core);
    RunEndMaximal(grid, core);
    var s, e := RunStart(grid, core), RunEnd(grid, core);
    forall i | 0 <= i < e - s
      ensures IsDigit(grid.rows[core.y][s..e][i])
    {
      assert IsNumeral(grid, Pos(s + i, core.y));
    }
  }

  /** The part number `find_part_number` builds from a digit. */
  function PartOf(grid: Grid, core: Pos): PartNumber
    requires IsNumeral(grid, core)
  {
    RunDigits(grid, core);
    PartNumber(Run(grid, core), DigitsValue(Digits(grid, Run(grid, core))))
  }

  /** `PartNumber.get_value_of_chain`: `int` of the concatenated contents,
      `None` for its ValueError. */
  method GetValueOfChain(grid: Grid, cells: seq<Pos>) returns (value: Option<int>)
    requires forall i :: 0 <= i < |cells| ==> InGrid(grid, cells[i])
    ensures value == ParseInt(Digits(grid, cells))
    ensures AllDigits(Digits(grid, cells)) && cells != [] ==> value == Some(DigitsValue(Digits(grid, cells)))
  {
    var digits := "";
    for k := 0 to |cells|
      invariant digits == Digits(grid, cells[..k])
    {
      assert cells[..k + 1][..k] == cells[..k];
      digits := digits + [grid.rows[cells[k].y][cells[k].x]];
    }
    assert cells[..|cells|] == cells;
    value := ParseInt(digits);
  }

  /** `Schematic.find_part_number`: the cells from `core` leftwards and
      rightwards while they hold digits, and their value; `None` is the
      ValueError of a run whose text is not an integer. From a digit it is
      the run's part number. */
  method FindPartNumber(grid: Grid, core: Pos) returns (part: Option<PartNumber>)
    requires InGrid(grid, core)
    ensures part.Some? <==> ParseInt(Digits(grid, Run(grid, core))).Some?
    ensures part.Some? ==> (part.value.cells == Run(grid, core)
      && part.value.value == ParseInt(Digits(grid, Run(grid, core))).value)
    ensures IsNumeral(grid, core) ==> part == Some(PartOf(grid, core))
  {
    var cells := [core];
    var left := LeftCell(grid, core);
    var right := RightCell(grid, core);
    ghost var start := core.x;
    ghost var end := core.x + 1;
    while left.Some? && IsDigit(grid.rows[left.value.y][left.value.x])
      invariant 0 <= start <= core.x
      invariant cells == Span(core.y, start, end)
      invariant RunStart(grid, core) == RunStart(grid, Pos(start, core.y))
      invariant left == LeftCell(grid, Pos(start, core.y))
      decreases start
    {
      cells := [left.value] + cells;
      start := start - 1;
      left := LeftCell(grid, left.value);
    }
    while right.Some? && IsDigit(grid.rows[right.value.y][right.value.x])
      invariant core.x < end <= |grid.rows[core.y]|
      invariant cells == Span(core.y, start, end)
      invariant RunEnd(grid, core) == RunEnd(grid, Pos(end - 1, core.y))
      invariant right == RightCell(grid, Pos(end - 1, core.y))
      decreases |grid.rows[core.y]| - end
    {
      cells := cells + [right.value];
      end := end + 1;
      right := RightCell(grid, right.value);
    }
    assert cells == Run(grid, core);
    var value := GetValueOfChain(grid, cells);
    if IsNumeral(grid, core) {
      RunPart(grid, core);
    }
    if value.None? {
      return None;
    }
    return Some(PartNumber(cells, value.value));
  }

  lemma {:induction false} RunPart(grid: Grid, core: Pos)
    requires IsNumeral(grid, core)
    ensures ParseInt(Digits(grid, Run(grid, core))) == Some(PartOf(grid, core).value)
    ensures PartOf(grid, core).cells == Run(grid, core)
  {
    RunDigits(grid, core);
  }

  /** The part numbers of the digits in `cells`. */
  ghost function PartsOf(grid: Grid, cells: set<Pos>): set<PartNumber>
    requires forall q :: q in cells ==> IsNumeral(grid, q)
  {
    set q | q in cells :: PartOf(grid, q)
  }

  /** The part numbers: one per run of digits that touches a cell of
      `specials`. */
  ghost function PartNumbers(grid: Grid, specials: set<Pos>): set<PartNumber>
  {
    PartsOf(grid, NumeralsNear(grid, specials))
  }

  /** `Schematic.find_all_part_numbers`: the part number of every digit
      adjacent to a special cell, each once. */
  method FindAllPartNumbers(grid: Grid, specials: seq<Pos>) returns (parts: set<PartNumber>)
    ensures parts == PartNumbers(grid, Elements(specials))
  {
    var numerals := FindAllNumeralCellsAdjacentToSpecialCharacter(grid, specials);
    parts := {};
    var remaining := numerals;
    while remaining != {}
      invariant remaining <= numerals
      invariant parts == PartsOf(grid, numerals - remaining)
      decreases |remaining|
    {
      var cell := Pick(remaining);
      var part := FindPartNumber(grid, cell);
      assert PartsOf(grid, numerals - (remaining - {cell})) == PartsOf(grid, numerals - remaining) + {PartOf(grid, cell)};
      parts := parts + {part.value};
      remaining := remaining - {cell};
    }
    assert numerals - remaining == numerals;
  }

  /** Each part number is the maximal run of digits through a digit
      adjacent to a special cell, its value is the integer its digits
      spell, and two part numbers with the same first cell are the same:
      the list has each run once. */
  lemma {:induction false} PartNumbersMeaning(grid: Grid, specials: set<Pos>, part: PartNumber, other: PartNumber)
    requires part in PartNumbers(grid, specials) && other in PartNumbers(grid, specials)
    ensures exists q, c :: (c in specials && q in grid.adjacent(c) && IsNumeral(grid, q)
      && q in part.cells && part.cells == Run(grid, q))
    ensures part.cells != [] && AllDigits(Digits(grid, part.cells))
      && part.value == DigitsValue(Digits(grid, part.cells))
    ensures part.cells[0] == other.cells[0] ==> part == other
  {
    var q :| q in NumeralsNear(grid, specials) && part == PartOf(grid, q);
    var r :| r in NumeralsNear(grid, specials) && other == PartOf(grid, r);
    var c :| c in specials && q in AdjacentNumerals(grid, c);
    RunMaximal(grid, q);
    RunDigits(grid, q);
    if part.cells[0] == other.cells[0] {
      FirstCellDetermines(grid, q, r);
    }
  }

  // ---------------------------------------------------------------------
  // Gears

  /** The part numbers holding one of `numerals`, as `set(adjacent_parts)`. */
  function AdjacentParts(parts: set<PartNumber>, numerals: set<Pos>): set<PartNumber>
  {
    set part | part in parts && Touches(part, numerals)
  }

  /** One of `numerals` is a cell of `part`. */
  predicate Touches(part: PartNumber, numerals: set<Pos>)
  {
    exists a :: a in numerals && a in part.cells
  }

  /** A '*' cell with at least two adjacent digits and exactly two distinct
      part numbers holding them. */
  predicate IsGear(grid: Grid, parts: set<PartNumber>, c: Pos)
  {
    InGrid(grid, c) && Content(grid, c) == '*'
    && |AdjacentNumerals(grid, c)| >= 2
    && |AdjacentParts(parts, AdjacentNumerals(grid, c))| == 2
  }

  datatype Gear = Gear(cell: Pos, partNumbers: seq<PartNumber>, ratio: int)

  /** The product of the values of `parts`. */
  function Product(parts: seq<PartNumber>): int
  {
    if parts == [] then 1 else Product(parts[..|parts| - 1]) * parts[|parts| - 1].value
  }

  /** `Gear.get_ratio`: the product of the part numbers' values. */
  method GetRatio(parts: seq<PartNumber>) returns (ratio: int)
    ensures ratio == Product(parts)
    ensures |parts| == 2 ==> ratio == parts[0].value * parts[1].value
  {
    ratio := 1;
    for k := 0 to |parts|
      invariant ratio == Product(parts[..k])
    {
      assert parts[..k + 1][..k] == parts[..k];
      ratio := ratio * parts[k].value;
    }
    assert parts[..|parts|] == parts;
    if |parts| == 2 {
      assert parts[..1][..0] == [];
    }
  }

  /** The triple loop of `find_all_gears`: every part number holding one
      of `numerals`, collected into a set. */
  method CollectAdjacentParts(parts: set<PartNumber>, numerals: set<Pos>) returns (adjacent: set<PartNumber>)
    ensures adjacent == AdjacentParts(parts, numerals)
  {
    adjacent := {};
    var remaining := numerals;
    while remaining != {}
      invariant remaining <= numerals
      invariant adjacent == AdjacentParts(parts, numerals - remaining)
      decreases |remaining|
    {
      var adjacency := Pick(remaining);
      adjacent := adjacent + set part | part in parts && adjacency in part.cells;
      remaining := remaining - {adjacency};
    }
    assert numerals - remaining == numerals;
  }

  /** `list(set)` of two elements. */
  method ListPair(s: set<PartNumber>) returns (listed: seq<PartNumber>)
    requires |s| == 2
    ensures |listed| == 2 && listed[0] != listed[1] && s == {listed[0], listed[1]}
  {
    var first :| first in s;
    var rest := s - {first};
    assert |rest| == 1;
    var second :| second in rest;
    assert |rest - {second}| == 0;
    assert rest == {second} by {
      assert rest - {second} == {};
    }
    assert s == rest + {first};
    listed := [first, second];
  }

  /** `Schematic.find_all_gears`: a gear for each special cell that is one,
      in the order of `specials`, with its two part numbers and their
      product. */
  method FindAllGears(grid: Grid, specials: seq<Pos>, parts: set<PartNumber>) returns (gears: seq<Gear>)
    requires forall i :: 0 <= i < |specials| ==> InGrid(grid, specials[i])
    requires forall i, j :: 0 <= i < j < |specials| ==> Before(specials[i], specials[j])
    ensures forall g :: g in gears ==> ListedGear(grid, parts, Elements(specials), g)
    ensures forall c :: c in specials && IsGear(grid, parts, c) ==> exists g :: g in gears && g.cell == c
    ensures forall i, j :: 0 <= i < j < |gears| ==> Before(gears[i].cell, gears[j].cell)
  {
    gears := [];
    for k := 0 to |specials|
      invariant forall g :: g in gears ==> ListedGear(grid, parts, Elements(specials), g) && g.cell in specials[..k]
      invariant forall c :: c in specials[..k] && IsGear(grid, parts, c) ==> exists g :: g in gears && g.cell == c
      invariant forall i, j :: 0 <= i < j < |gears| ==> Before(gears[i].cell, gears[j].cell)
    {
      var cell := specials[k];
      assert specials[..k + 1] == specials[..k] + [cell];
      assert cell in Elements(specials);
      forall g | g in gears ensures Before(g.cell, cell) {
        var j :| 0 <= j < k && specials[j] == g.cell;
      }
      var gear := GearAt(grid, parts, cell);
      if gear.Some? {
        gears := gears + [gear.value];
      }
    }
    assert specials[..|specials|] == specials;
  }

  /** One round of the loop of `find_all_gears`: the gear at `cell`, when
      it is a '*' next to exactly two part numbers. */
  method GearAt(grid: Grid, parts: set<PartNumber>, cell: Pos) returns (gear: Option<Gear>)
    requires InGrid(grid, cell)
    ensures gear.Some? <==> IsGear(grid, parts, cell)
    ensures gear.Some? ==> gear.value.cell == cell && ListedGear(grid, parts, {cell}, gear.value)
  {
    gear := None;
    if grid.rows[cell.y][cell.x] == '*' {
      var numerals := FindAllAdjacentNumeralCells(grid, cell);
      assert numerals == AdjacentNumerals(grid, cell);
      if |numerals| >= 2 {
        var unique := CollectAdjacentParts(parts, numerals);
        if |unique| == 2 {
          var listed := ListPair(unique);
          var ratio := GetRatio(listed);
          gear := Some(Gear(cell, listed, ratio));
        }
      }
    }
  }

  // ---------------------------------------------------------------------
  // The schematic and its sums

  /** The part numbers keyed by themselves, with their values. */
  function Values(parts: set<PartNumber>): map<PartNumber, int>
  {
    map part | part in parts :: part.value
  }

  /** `Schematic.calculate_part_numbers_sum`: the sum of the values of the
      part numbers, each counted once. */
  method CalculatePartNumbersSum(parts: set<PartNumber>) returns (total: int)
    ensures total == SumValues(Values(parts))
  {
    total := 0;
    var remaining := parts;
    while remaining != {}
      invariant remaining <= parts
      invariant total + SumValues(Values(remaining)) == SumValues(Values(parts))
      decreases |remaining|
    {
      var part :| part in remaining;
      SumValuesRemove(Values(remaining), part);
      assert Values(remaining) - {part} == Values(remaining - {part});
      total := total + part.value;
      remaining := remaining - {part};
    }
    assert Values(remaining) == map[];
  }

  /** The gears' ratios, in order. */
  function Ratios(gears: seq<Gear>): (r: seq<int>)
    ensures |r| == |gears|
  {
    seq(|gears|, i requires 0 <= i < |gears| => gears[i].ratio)
  }

  /** `Schematic.calculate_gear_ratios_sum`: the sum of the gears' ratios. */
  method CalculateGearRatiosSum(gears: seq<Gear>) returns (total: int)
    ensures total == Sum(Ratios(gears))
  {
    total := 0;
    for k := 0 to |gears|
      invariant total == Sum(Ratios(gears[..k]))
    {
      assert Ratios(gears[..k + 1]) == Ratios(gears[..k]) + [gears[k].ratio];
      SumAppend(Ratios(gears[..k]), [gears[k].ratio]);
      total := total + gears[k].ratio;
    }
    assert gears[..|gears|] == gears;
  }

  /** Two distinct members of a two-element set are all of it. */
  lemma {:induction false} PairOf(s: set<PartNumber>, a: PartNumber, b: PartNumber)
    requires |s| == 2 && a in s && b in s && a != b
    ensures s == {a, b}
  {
    assert |s - {a}| == 1;
    assert |(s - {a}) - {b}| == 0;
    assert (s - {a}) - {b} == {};
  }

  /** The product of the values of a two-element set, whichever order its
      elements are listed in. */
  ghost function PairProduct(s: set<PartNumber>): (r: int)
    requires |s| == 2
    ensures forall a, b :: a in s && b in s && a != b ==> r == a.value * b.value
  {
    var a :| a in s;
    assert |s - {a}| == 1;
    var b :| b in s - {a};
    PairProductAny(s, a, b);
    a.value * b.value
  }

  lemma {:induction false} PairProductAny(s: set<PartNumber>, a: PartNumber, b: PartNumber)
    requires |s| == 2 && a in s && b in s && a != b
    ensures forall x, y :: x in s && y in s && x != y ==> x.value * y.value == a.value * b.value
  {
    forall x, y | x in s && y in s && x != y
      ensures x.value * y.value == a.value * b.value
    {
      PairOf(s, a, b);
      PairOf(s, x, y);
    }
  }

  /** The special cells of the grid. */
  ghost function SpecialCells(grid: Grid): (r: set<Pos>)
    ensures forall p :: p in r <==> InGrid(grid, p) && IsSpecial(Content(grid, p))
  {
    set y, x | 0 <= y < |grid.rows| && 0 <= x < |grid.rows[y]| && IsSpecial(grid.rows[y][x]) :: Pos(x, y)
  }

  /** The gears among `specials`, each with its ratio. */
  ghost function GearRatiosOf(grid: Grid, parts: set<PartNumber>, specials: set<Pos>): map<Pos, int>
  {
    map c | c in specials && IsGear(grid, parts, c) :: PairProduct(AdjacentParts(parts, AdjacentNumerals(grid, c)))
  }

  /** The gears of the grid, each with its ratio. */
  ghost function GearRatios(grid: Grid): map<Pos, int>
  {
    GearRatiosOf(grid, PartNumbers(grid, SpecialCells(grid)), SpecialCells(grid))
  }

  /** The gears keyed by their cells. */
  function GearMap(gears: seq<Gear>): map<Pos, int>
  {
    if gears == [] then map[] else GearMap(gears[..|gears| - 1])[gears[|gears| - 1].cell := gears[|gears| - 1].ratio]
  }

  /** With distinct cells, the gears' map has each gear's ratio at its
      cell and no other keys. */
  lemma {:induction false} GearMapAt(gears: seq<Gear>)
    requires forall i, j :: 0 <= i < j < |gears| ==> gears[i].cell != gears[j].cell
    ensures forall c :: c in GearMap(gears) <==> exists i :: 0 <= i < |gears| && gears[i].cell == c
    ensures forall i :: 0 <= i < |gears| ==> GearMap(gears)[gears[i].cell] == gears[i].ratio
  {
    if gears != [] {
      var front := gears[..|gears| - 1];
      var last := gears[|gears| - 1];
      GearMapAt(front);
      forall c | c in GearMap(gears)
        ensures exists i :: 0 <= i < |gears| && gears[i].cell == c
      {
        if c != last.cell {
          assert c in GearMap(front);
          var i :| 0 <= i < |front| && front[i].cell == c;
          assert gears[i].cell == c;
        } else {
          assert gears[|gears| - 1].cell == c;
        }
      }
      forall i | 0 <= i < |gears|
        ensures gears[i].cell in GearMap(gears) && GearMap(gears)[gears[i].cell] == gears[i].ratio
      {
        if i < |front| {
          assert front[i] == gears[i];
        }
      }
    }
  }

  /** With distinct cells, the gears' map sums to the sum of the ratios. */
  lemma {:induction false} GearMapSum(gears: seq<Gear>)
    requires forall i, j :: 0 <= i < j < |gears| ==> gears[i].cell != gears[j].cell
    ensures SumValues(GearMap(gears)) == Sum(Ratios(gears))
  {
    if gears != [] {
      var front := gears[..|gears| - 1];
      var last := gears[|gears| - 1];
      GearMapSum(front);
      GearMapAt(front);
      assert Ratios(gears) == Ratios(front) + [last.ratio];
      SumAppend(Ratios(front), [last.ratio]);
      forall i | 0 <= i < |front| ensures front[i].cell != last.cell {
        assert front[i] == gears[i];
      }
      assert last.cell !in GearMap(front);
      SumValuesUpdate(GearMap(front), last.cell, last.ratio);
    }
  }

  /** A listed gear: a gear of `specials` with its two part numbers and
      their product. */
  predicate ListedGear(grid: Grid, parts: set<PartNumber>, specials: set<Pos>, g: Gear)
  {
    g.cell in specials && IsGear(grid, parts, g.cell)
    && |g.partNumbers| == 2 && g.partNumbers[0] != g.partNumbers[1]
    && {g.partNumbers[0], g.partNumbers[1]} == AdjacentParts(parts, AdjacentNumerals(grid, g.cell))
    && g.ratio == g.partNumbers[0].value * g.partNumbers[1].value
  }

  /** A listed gear's ratio is the one of its cell. */
  lemma {:induction false} ListedRatio(grid: Grid, parts: set<PartNumber>, specials: set<Pos>, g: Gear)
    requires ListedGear(grid, parts, specials, g)
    ensures g.cell in GearRatiosOf(grid, parts, specials)
    ensures GearRatiosOf(grid, parts, specials)[g.cell] == g.ratio
  {
    var adjacent := AdjacentParts(parts, AdjacentNumerals(grid, g.cell));
    assert g.partNumbers[0] in adjacent && g.partNumbers[1] in adjacent;
  }

  /** Gears listed once each, each a gear of `specials` with its two part
      numbers, and every gear of `specials` listed, are keyed by cell
      exactly those gears with their ratios. */
  lemma {:induction false} GearsMatch(grid: Grid, parts: set<PartNumber>, specials: set<Pos>, gears: seq<Gear>)
    requires forall g :: g in gears ==> ListedGear(grid, parts, specials, g)
    requires forall c :: c in specials && IsGear(grid, parts, c) ==> exists g :: g in gears && g.cell == c
    requires forall i, j :: 0 <= i < j < |gears| ==> gears[i].cell != gears[j].cell
    ensures GearMap(gears) == GearRatiosOf(grid, parts, specials)
  {
    GearMapAt(gears);
    var found := GearMap(gears);
    var expected := GearRatiosOf(grid, parts, specials);
    forall c | c in found
      ensures c in expected && found[c] == expected[c]
    {
      var i :| 0 <= i < |gears| && gears[i].cell == c;
      assert gears[i] in gears;
      ListedRatio(grid, parts, specials, gears[i]);
    }
    forall c | c in expected
      ensures c in found
    {
      var g :| g in gears && g.cell == c;
      var i :| 0 <= i < |gears| && gears[i] == g;
    }
    SameEntries(found, expected);
  }

  lemma {:induction false} SameEntries(m: map<Pos, int>, n: map<Pos, int>)
    requires forall k :: k in m ==> k in n && m[k] == n[k]
    requires forall k :: k in n ==> k in m
    ensures m == n
  {
  }

  /** What the schematic's constructor computes. */
  datatype Schematic = Schematic(grid: Grid, specialCharacters: seq<Pos>, partNumbers: set<PartNumber>, gears: seq<Gear>)

  /** `Schematic.__init__`: the special cells in row-major order, the part
      numbers, and the gears with their ratios, each once. */
  method NewSchematic(rows: seq<string>, adjacent: Pos -> set<Pos>) returns (schematic: Schematic)
    ensures schematic.grid == Grid(rows, adjacent)
    ensures Elements(schematic.specialCharacters) == SpecialCells(schematic.grid)
    ensures forall i, j :: 0 <= i < j < |schematic.specialCharacters| ==>
      Before(schematic.specialCharacters[i], schematic.specialCharacters[j])
    ensures schematic.partNumbers == PartNumbers(schematic.grid, SpecialCells(schematic.grid))
    ensures GearMap(schematic.gears) == GearRatios(schematic.grid)
    ensures forall i, j :: 0 <= i < j < |schematic.gears| ==> schematic.gears[i].cell != schematic.gears[j].cell
  {
    var grid := Grid(rows, adjacent);
    var specials := FindAllSpecialCharacters(grid);
    assert Elements(specials) == SpecialCells(grid);
    var parts := FindAllPartNumbers(grid, specials);
    var gears := FindAllGears(grid, specials, parts);
    assert forall c :: c in specials <==> c in Elements(specials);
    schematic := Schematic(grid, specials, parts, gears);
    forall i, j | 0 <= i < j < |gears| ensures gears[i].cell != gears[j].cell {
      assert Before(gears[i].cell, gears[j].cell);
    }
    GearsMatch(grid, parts, Elements(specials), gears);
  }

  /** `solve_problem`: the sum of the values of the part numbers, each run
      counted once, and the sum of the ratios of the gears. */
  method SolveProblem(rows: seq<string>, adjacent: Pos -> set<Pos>) returns (part1: int, part2: int)
    ensures part1 == SumValues(Values(PartNumbers(Grid(rows, adjacent), SpecialCells(Grid(rows, adjacent)))))
    ensures part2 == SumValues(GearRatios(Grid(rows, adjacent)))
    ensures part1 >= 0
  {
    var schematic := NewSchematic(rows, adjacent);
    part1 := CalculatePartNumbersSum(schematic.partNumbers);
    part2 := CalculateGearRatiosSum(schematic.gears);
    GearMapSum(schematic.gears);
    forall part | part in Values(schematic.partNumbers)
      ensures Values(schematic.partNumbers)[part] >= 0
    {
      PartNumbersMeaning(schematic.grid, SpecialCells(schematic.grid), part, part);
    }
    SumValuesNonNegative(Values(schematic.partNumbers));
  }
}
