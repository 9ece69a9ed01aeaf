/** Day 13: lines of reflection in patterns of ash and rocks. A pattern's
    rows are its lines; its columns are the transposed rows. A line of
    symmetry after index `p` of a dimension (rows or columns) needs the
    entries at `p` and `p + 1` to be equal and every pair further out,
    as far as both sides reach, to be equal as well. */
module Day13 {
  import opened Text
  import opened Sums
  import opened Grids

  /** `determine_rows`: the notes split at each newline. */
  function Rows(notes: string): seq<string>
  {
    Split(notes, "\n")
  }

  /** `determine_columns`. */
  function Columns(notes: string): seq<string>
  {
    Transpose(Rows(notes))
  }

  /** Index `p` starts a candidate line: the entries at `p` and `p + 1` agree. */
  predicate IsCandidate(dimension: seq<string>, p: int)
  {
    0 <= p < |dimension| - 1 && dimension[p] == dimension[p + 1]
  }

  /** The candidates below `n`, ascending. */
  function CandidatesBelow(dimension: seq<string>, n: nat): (r: seq<int>)
    requires n <= |dimension| - 1 || n == 0
    ensures forall a, b :: 0 <= a < b < |r| ==> r[a] < r[b]
    ensures forall x :: x in r <==> x < n && IsCandidate(dimension, x)
  {
    if n == 0 then []
    else
      var prev := CandidatesBelow(dimension, n - 1);
      assert forall a :: 0 <= a < |prev| ==> prev[a] in prev && prev[a] < n - 1;
      prev + (if dimension[n - 1] == dimension[n] then [n - 1] else [])
  }

  function Candidates(dimension: seq<string>): seq<int>
  {
    if |dimension| <= 1 then [] else CandidatesBelow(dimension, |dimension| - 1)
  }

  /** The candidates are exactly the indices whose entry equals the next
      one, in ascending order. */
  lemma {:induction false} CandidatesExact(dimension: seq<string>)
    ensures forall a, b :: 0 <= a < b < |Candidates(dimension)| ==>
      Candidates(dimension)[a] < Candidates(dimension)[b]
    ensures forall x :: x in Candidates(dimension) <==> IsCandidate(dimension, x)
    ensures forall a :: 0 <= a < |Candidates(dimension)| ==> Candidates(dimension)[a] >= 0
  {
    var c := Candidates(dimension);
    assert forall a :: 0 <= a < |c| ==> c[a] in c;
  }

  /** `find_potential_indices_of_symmetry`. */
  method FindPotentialIndices(dimension: seq<string>) returns (indices: seq<int>)
    ensures indices == Candidates(dimension)
  {
    indices := [];
    if |dimension| <= 1 {
      return;
    }
    var index := 0;
    while index < |dimension| - 1
      invariant 0 <= index <= |dimension| - 1
      invariant indices == CandidatesBelow(dimension, index)
    {
      if dimension[index] == dimension[index + 1] {
        indices := indices + [index];
      }
      index := index + 1;
    }
  }

  /** The pair `k` steps out from the line after `p` agrees, or one side has
      run off the dimension. */
  predicate Reflects(dimension: seq<string>, p: int, k: int)
  {
    0 <= p - k <= p + 1 + k < |dimension| ==> dimension[p - k] == dimension[p + 1 + k]
  }

  /** Every pair beyond the candidate pair agrees. */
  predicate MirrorAt(dimension: seq<string>, p: int)
  {
    forall k :: 1 <= k <= p ==> Reflects(dimension, p, k)
  }

  /** `check_if_fully_symmetric`: walks two indices outwards from the pair
      at `p`, `p + 1` until they disagree or one leaves the dimension. */
  method CheckIfFullySymmetric(p: int, dimension: seq<string>) returns (fullySymmetric: bool)
    ensures fullySymmetric <==> MirrorAt(dimension, p)
  {
    fullySymmetric := true;
    var preceding := p - 1;
    var succeeding := p + 2;
    while fullySymmetric && preceding >= 0 && succeeding < |dimension|
      invariant preceding <= p - 1
      invariant succeeding == p + 1 + (p - preceding)
      invariant fullySymmetric ==> forall k :: 1 <= k < p - preceding ==> Reflects(dimension, p, k)
      invariant !fullySymmetric ==> !Reflects(dimension, p, p - preceding)
      decreases preceding + 1, if fullySymmetric then 1 else 0
    {
      if dimension[preceding] != dimension[succeeding] {
        fullySymmetric := false;
      } else {
        preceding := preceding - 1;
        succeeding := succeeding + 1;
      }
    }
    if fullySymmetric {
      forall k | 1 <= k <= p ensures Reflects(dimension, p, k) {
        if k >= p - preceding {
          assert p - k < 0 || p + 1 + k >= |dimension|;
        }
      }
    }
  }

  /** The last candidate in `candidates` that is a full mirror, or 0. */
  function LastMirror(candidates: seq<int>, dimension: seq<string>): int
  {
    if candidates == [] then 0
    else if MirrorAt(dimension, candidates[|candidates| - 1]) then candidates[|candidates| - 1]
    else LastMirror(candidates[..|candidates| - 1], dimension)
  }

  /** The line of symmetry the solver reports for one dimension. */
  function LineOfSymmetry(dimension: seq<string>): int
  {
    LastMirror(Candidates(dimension), dimension)
  }

  lemma {:induction false} LastMirrorFacts(candidates: seq<int>, dimension: seq<string>)
    requires forall a, b :: 0 <= a < b < |candidates| ==> candidates[a] < candidates[b]
    requires forall a :: 0 <= a < |candidates| ==> candidates[a] >= 0
    ensures var r := LastMirror(candidates, dimension);
      (r == 0 || (r in candidates && MirrorAt(dimension, r))) &&
      forall x :: x in candidates && MirrorAt(dimension, x) ==> x <= r || r == 0
    ensures var r := LastMirror(candidates, dimension);
      r == 0 ==> forall x :: x in candidates && MirrorAt(dimension, x) ==> x == 0
  {
    if candidates != [] {
      var front := candidates[..|candidates| - 1];
      var last := candidates[|candidates| - 1];
      LastMirrorFacts(front, dimension);
      assert candidates == front + [last];
      if !MirrorAt(dimension, last) {
        forall x | x in candidates && MirrorAt(dimension, x) ensures x in front {
        }
      } else {
        forall x | x in candidates ensures x <= last {
          var a :| 0 <= a < |candidates| && candidates[a] == x;
          if a < |candidates| - 1 {
            assert candidates[a] < candidates[|candidates| - 1];
          }
        }
      }
    }
  }

  /** The reported line is 0 or a fully symmetric candidate, and no fully
      symmetric candidate lies beyond it; it is 0 only when no candidate
      other than 0 is fully symmetric. */
  lemma {:induction false} LineOfSymmetryIsLargest(dimension: seq<string>)
    ensures var r := LineOfSymmetry(dimension);
      (r == 0 || (IsCandidate(dimension, r) && MirrorAt(dimension, r))) &&
      forall x :: IsCandidate(dimension, x) && MirrorAt(dimension, x) ==> x <= r || r == 0
    ensures LineOfSymmetry(dimension) == 0 ==>
      forall x :: IsCandidate(dimension, x) && MirrorAt(dimension, x) ==> x == 0
  {
    CandidatesExact(dimension);
    LastMirrorFacts(Candidates(dimension), dimension);
  }

  /** `find_line_of_symmetry`: keeps the last fully symmetric candidate. */
  method FindLineOfSymmetry(dimension: seq<string>) returns (lineIndex: int)
    ensures lineIndex == LineOfSymmetry(dimension)
  {
    lineIndex := 0;
    var candidates := FindPotentialIndices(dimension);
    var i := 0;
    while i < |candidates|
      invariant 0 <= i <= |candidates|
      invariant lineIndex == LastMirror(candidates[..i], dimension)
    {
      var fullySymmetric := CheckIfFullySymmetric(candidates[i], dimension);
      assert candidates[..i + 1][..i] == candidates[..i];
      if fullySymmetric {
        lineIndex := candidates[i];
      }
      i := i + 1;
    }
    assert candidates[..i] == candidates;
  }

  /** The value of a pattern: 100 times one more than the horizontal line,
      unless that line is 0, in which case one more than the vertical line. */
  function Value(notes: string): int
  {
    var horizontal := LineOfSymmetry(Rows(notes));
    var vertical := LineOfSymmetry(Columns(notes));
    if horizontal != 0 then 100 * (horizontal + 1) else vertical + 1
  }

  /** `calculate_value_of_symmetry`. */
  method ValueOfSymmetry(notes: string) returns (value: int)
    ensures value == Value(notes)
    ensures value >= 1
  {
    var rows := Rows(notes);
    var horizontal := FindLineOfSymmetry(rows);
    var vertical := FindLineOfSymmetry(Columns(notes));
    LineOfSymmetryIsLargest(rows);
    LineOfSymmetryIsLargest(Columns(notes));
    if horizontal != 0 {
      value := 100 * (horizontal + 1);
    } else {
      value := vertical + 1;
    }
  }

  /** The values of the patterns, one per block. */
  function Values(blocks: seq<string>): (r: seq<int>)
    ensures |r| == |blocks|
    ensures forall k :: 0 <= k < |blocks| ==> r[k] == Value(blocks[k])
  {
    if blocks == [] then [] else Values(blocks[..|blocks| - 1]) + [Value(blocks[|blocks| - 1])]
  }

  /** `Collection.determine_patterns` and `calculate_total_values_of_symmetry`:
      the blocks are separated by blank lines, and the total is the sum of
      their values, at least one per block. */
  method TotalValuesOfSymmetry(description: string) returns (total: int)
    ensures total == Sum(Values(Split(description, "\n\n")))
    ensures total >= |Split(description, "\n\n")|
  {
    var blocks := Split(description, "\n\n");
    total := 0;
    var i := 0;
    while i < |blocks|
      invariant 0 <= i <= |blocks|
      invariant total == Sum(Values(blocks[..i]))
      invariant total >= i
    {
      var value := ValueOfSymmetry(blocks[i]);
      assert blocks[..i + 1][..i] == blocks[..i];
      total := total + value;
      i := i + 1;
    }
    assert blocks[..i] == blocks;
  }

  // ---------------------------------------------------------------------
  // A mirror line after the first row or column

  /** As written, a horizontal line after row 0 is read as "no horizontal
      line": the two-row pattern below mirrors after row 0, yet its value
      is 1, the value of a vertical line after column 0, instead of 100. */
  lemma {:induction false} FirstRowMirrorMisread()
    ensures IsCandidate(Rows(TwoRowNotes), 0) && MirrorAt(Rows(TwoRowNotes), 0)
    ensures Value(TwoRowNotes) == 1
  {
    TwoRowShape();
    TwoRowLines();
  }

  /** The rows of the two-row pattern mirror after row 0 and its columns
      have no candidate, so both lines of symmetry read 0. */
  lemma {:induction false} TwoRowLines()
    ensures IsCandidate(["#.", "#."], 0) && MirrorAt(["#.", "#."], 0)
    ensures LineOfSymmetry(["#.", "#."]) == 0 && LineOfSymmetry(["##", ".."]) == 0
  {
    var rows: seq<string> := ["#.", "#."];
    var columns: seq<string> := ["##", ".."];
    assert CandidatesBelow(rows, 0) == [] && CandidatesBelow(columns, 0) == [];
    assert rows[0] == rows[1] && columns[0] != columns[1];
    assert Candidates(rows) == [0];
    assert Candidates(columns) == [];
    assert LastMirror([0], rows) == 0;
  }

  const TwoRowNotes: string := "#.\n#."

  lemma {:induction false} TwoRowShape()
    ensures Rows(TwoRowNotes) == ["#.", "#."]
    ensures Columns(TwoRowNotes) == ["##", ".."]
  {
    var notes := TwoRowNotes;
    assert FindFrom(notes, "\n", 0) == 2 by {
      assert notes[0..1][0] != '\n' && notes[1..2][0] != '\n' && notes[2..3] == "\n";
    }
    assert Split("#.", "\n") == ["#."] by {
      assert "#."[0..1][0] != '\n' && "#."[1..2][0] != '\n';
      assert FindFrom("#.", "\n", 0) == -1;
    }
    assert notes[..2] == "#." && notes[3..] == "#.";
    var rows := Rows(notes);
    assert rows == ["#.", "#."];
    assert MinLength(rows) == 2;
    var columns := Columns(notes);
    assert columns[0] == "##" && columns[1] == "..";
  }

  /** The last fully symmetric candidate, or `None` when there is none. */
  function LastMirrorOrNone(candidates: seq<int>, dimension: seq<string>): (r: Option<int>)
    ensures r.Some? ==> r.value in candidates && MirrorAt(dimension, r.value)
    ensures r.None? ==> forall x :: x in candidates ==> !MirrorAt(dimension, x)
  {
    if candidates == [] then None
    else if MirrorAt(dimension, candidates[|candidates| - 1]) then Some(candidates[|candidates| - 1])
    else LastMirrorOrNone(candidates[..|candidates| - 1], dimension)
  }

  /** The value with "no line" kept apart from "a line after index 0":
      a horizontal line counts 100 times one more than its index, otherwise
      a vertical line counts one more than its index. */
  function CorrectedValue(notes: string): Option<int>
  {
    var horizontal := LastMirrorOrNone(Candidates(Rows(notes)), Rows(notes));
    var vertical := LastMirrorOrNone(Candidates(Columns(notes)), Columns(notes));
    if horizontal.Some? then Some(100 * (horizontal.value + 1))
    else if vertical.Some? then Some(vertical.value + 1)
    else None
  }

  /** Whenever the pattern has a horizontal mirror line, the corrected value
      is 100 times one more than a mirror line's index, at least 100; and
      it agrees with the value as written whenever the horizontal line is
      not after row 0. */
  lemma {:induction false} CorrectedValueHorizontal(notes: string)
    requires exists x :: IsCandidate(Rows(notes), x) && MirrorAt(Rows(notes), x)
    ensures CorrectedValue(notes).Some? && CorrectedValue(notes).value >= 100
    ensures exists x :: (IsCandidate(Rows(notes), x) && MirrorAt(Rows(notes), x) &&
                         CorrectedValue(notes) == Some(100 * (x + 1)))
    ensures LineOfSymmetry(Rows(notes)) != 0 ==> CorrectedValue(notes) == Some(Value(notes))
  {
    var rows := Rows(notes);
    var x :| IsCandidate(rows, x) && MirrorAt(rows, x);
    CandidatesExact(rows);
    var h := LastMirrorOrNone(Candidates(rows), rows);
    assert h.Some?;
    assert IsCandidate(rows, h.value) && MirrorAt(rows, h.value);
    LastMirrorAgrees(Candidates(rows), rows);
  }

  /** The two readings pick the same candidate whenever it is not 0. */
  lemma {:induction false} LastMirrorAgrees(candidates: seq<int>, dimension: seq<string>)
    ensures LastMirror(candidates, dimension) != 0 ==>
      LastMirrorOrNone(candidates, dimension) == Some(LastMirror(candidates, dimension))
  {
    if candidates != [] && !MirrorAt(dimension, candidates[|candidates| - 1]) {
      LastMirrorAgrees(candidates[..|candidates| - 1], dimension);
    }
  }
}
