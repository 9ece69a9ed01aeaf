/** Day 14: rounded rocks ('O') rolling on a platform of empty cells ('.')
    and fixed cube rocks ('#'). A tilt works line by line: the line is cut at
    its '#'s, each segment's 'O's and '.'s are regrouped at one end, and the
    '#'s are put back. A spin cycle tilts north, west, south and east. */
module Day14 {
  import opened Text
  import opened Sums
  import opened Grids

  // ---------------------------------------------------------------------
  // One line

  /** A segment rolled: its '.'s then its 'O's when `emptiesFirst`, else the
      other way round; any other character is dropped. */
  function Roll(segment: string, emptiesFirst: bool): string
  {
    if emptiesFirst then Repeat('.', Count(segment, '.')) + Repeat('O', Count(segment, 'O'))
    else Repeat('O', Count(segment, 'O')) + Repeat('.', Count(segment, '.'))
  }

  /** The segment loop of a tilt: after each rolled segment a '#' is added
      while the output is still shorter than the line (`n` characters). */
  function Assemble(pieces: seq<string>, n: int, emptiesFirst: bool, acc: string): string
  {
    if pieces == [] then acc
    else
      var a := acc + Roll(pieces[0], emptiesFirst);
      Assemble(pieces[1..], n, emptiesFirst, if |a| < n then a + "#" else a)
  }

  /** A tilt of one line towards its end ('O's last) when `emptiesFirst`, or
      towards its start. The segments are the pieces between '#'s. */
  function TiltLine(line: string, emptiesFirst: bool): string
  {
    Assemble(Split(line, "#"), |line|, emptiesFirst, "")
  }

  /** `for _ in range(n): s += c`. */
  method AppendRepeated(s: string, c: char, n: nat) returns (r: string)
    ensures r == s + Repeat(c, n)
  {
    r := s;
    var k := 0;
    while k < n
      invariant 0 <= k <= n
      invariant r == s + Repeat(c, k)
    {
      r := r + [c];
      k := k + 1;
    }
  }

  /** The next '#' at or after `p` in a text that ends in '#'. */
  lemma {:induction false} NextCubeIn(column: string, p: nat, cube: int)
    requires p < |column| && column[|column| - 1] == '#'
    requires cube == FindFrom(column, "#", p)
    ensures p <= cube < |column| && column[cube] == '#'
    ensures forall j :: p <= j < cube ==> column[j] != '#'
  {
    assert OccursAt(column, "#", |column| - 1) by {
      assert column[|column| - 1..|column|] == "#";
    }
    assert column[cube..cube + 1] == "#";
    forall j | p <= j < cube ensures column[j] != '#' {
      assert !OccursAt(column, "#", j);
      assert column[j..j + 1] == [column[j]];
    }
  }

  /** The same, read on the line before its sentinel '#'. */
  lemma {:induction false} NextCube(line: string, p: nat, cube: int)
    requires p <= |line|
    requires cube == FindFrom(line + "#", "#", p)
    ensures p <= cube <= |line|
    ensures cube < |line| ==> line[cube] == '#'
    ensures forall j :: p <= j < cube ==> line[j] != '#'
  {
    var column := line + "#";
    NextCubeIn(column, p, cube);
    forall j | p <= j < cube ensures line[j] != '#' {
      assert column[j] == line[j];
    }
  }

  /** How the rest of the line from `p` splits at the next cube. */
  lemma {:induction false} SplitAtCube(line: string, p: nat, cube: nat)
    requires p <= cube <= |line|
    requires cube < |line| ==> line[cube] == '#'
    requires forall j :: p <= j < cube ==> line[j] != '#'
    ensures cube < |line| ==> Split(line[p..], "#") == [line[p..cube]] + Split(line[cube + 1..], "#")
    ensures cube == |line| ==> Split(line[p..], "#") == [line[p..]]
  {
    var x := line[p..];
    assert '#' !in x[..cube - p];
    if cube < |line| {
      FindCharAt(x, '#', 0, cube - p);
      assert x[..cube - p] == line[p..cube];
      assert x[cube - p + 1..] == line[cube + 1..];
    } else {
      FindCharNone(x, '#', 0);
      assert x[0..] == x;
    }
  }

  /** The segment between two cubes counts like the piece of the line it
      covers: the leading '#' counts for neither 'O' nor '.'. */
  lemma {:induction false} SegmentCounts(column: string, lastCube: nat, p: nat, cube: nat, c: char)
    requires lastCube <= p <= cube <= |column|
    requires lastCube == p || (lastCube + 1 == p && column[lastCube] == '#')
    requires c != '#'
    ensures Count(column[lastCube..cube], c) == Count(column[p..cube], c)
  {
    if lastCube + 1 == p {
      assert column[lastCube..cube] == [column[lastCube]] + column[p..cube];
      CountAppend([column[lastCube]], column[p..cube], c);
      assert [column[lastCube]][..0] == [];
    }
  }

  /** One round of the segment loop: the rolled segment, then a '#' while
      the output is shorter than the line. */
  function AssembleOne(acc: string, segment: string, n: int, emptiesFirst: bool): string
  {
    var a := acc + Roll(segment, emptiesFirst);
    if |a| < n then a + "#" else a
  }

  lemma {:induction false} AssembleStep(line: string, p: nat, cube: nat, emptiesFirst: bool, acc: string)
    requires p <= cube <= |line|
    requires cube < |line| ==> line[cube] == '#'
    requires forall j :: p <= j < cube ==> line[j] != '#'
    ensures cube < |line| ==>
      Assemble(Split(line[p..], "#"), |line|, emptiesFirst, acc) ==
      Assemble(Split(line[cube + 1..], "#"), |line|, emptiesFirst, AssembleOne(acc, line[p..cube], |line|, emptiesFirst))
    ensures cube == |line| ==>
      Assemble(Split(line[p..], "#"), |line|, emptiesFirst, acc) == AssembleOne(acc, line[p..], |line|, emptiesFirst)
  {
    SplitAtCube(line, p, cube);
    if cube < |line| {
      var pieces := Split(line[p..], "#");
      assert pieces[1..] == Split(line[cube + 1..], "#");
    }
  }

  /** The two inner loops: append the segment's '.'s and 'O's in order. */
  method RollInto(acc: string, subColumn: string, emptiesFirst: bool) returns (r: string)
    ensures r == acc + Roll(subColumn, emptiesFirst)
  {
    var spheres := Count(subColumn, 'O');
    var empties := Count(subColumn, '.');
    if emptiesFirst {
      r := AppendRepeated(acc, '.', empties);
      r := AppendRepeated(r, 'O', spheres);
    } else {
      r := AppendRepeated(acc, 'O', spheres);
      r := AppendRepeated(r, '.', empties);
    }
  }

  /** `cube` is the first '#' at or after `p` in the line with its sentinel
      '#' (so `|line|` when the line has no further '#'). */
  predicate IsNextCube(line: string, p: nat, cube: int)
  {
    && p <= cube <= |line|
    && (cube < |line| ==> line[cube] == '#')
    && (forall j :: p <= j < cube ==> line[j] != '#')
  }

  /** `column.find("#", start)` on the line with its sentinel '#'. */
  method FindCube(line: string, column: string, start: nat) returns (cube: int)
    requires column == line + "#"
    ensures start <= |line| ==> IsNextCube(line, start, cube)
    ensures start > |line| ==> cube == -1
  {
    cube := Find(column, "#", start);
    if start <= |line| {
      NextCube(line, start, cube);
    }
  }

  /** One round of the tilt loop, from the cube at `cube` to the next. */
  lemma {:induction false} TiltLoopStep(line: string, emptiesFirst: bool, p: nat, cube: nat, target: string,
                     before: string, after: string)
    requires IsNextCube(line, p, cube)
    requires target == Assemble(Split(line[p..], "#"), |line|, emptiesFirst, before)
    requires after == AssembleOne(before, line[p..cube], |line|, emptiesFirst)
    ensures cube == |line| ==> target == after
    ensures cube < |line| ==> target == Assemble(Split(line[cube + 1..], "#"), |line|, emptiesFirst, after)
  {
    AssembleStep(line, p, cube, emptiesFirst, before);
    if cube == |line| {
      assert line[p..cube] == line[p..];
    }
  }

  /** Where the tilt loop stands: while a cube is still to be reached,
      the text from `p` on still assembles to `target`; once none is, the
      output is `target`. */
  ghost predicate TiltProgress(line: string, column: string, emptiesFirst: bool, p: nat, lastCube: nat,
                               cube: int, finalLine: string, target: string)
  {
    if cube == -1 then target == finalLine
    else
      && IsNextCube(line, p, cube)
      && (lastCube == p || (lastCube + 1 == p && lastCube < |column| && column[lastCube] == '#'))
      && target == Assemble(Split(line[p..], "#"), |line|, emptiesFirst, finalLine)
  }

  /** The body of the tilt loop: roll the text since the previous cube,
      find the next cube, and add a '#' while the output is short. */
  method TiltRound(line: string, column: string, lastCube: nat, cube: nat, finalLine: string,
                   emptiesFirst: bool, ghost p: nat, ghost target: string)
    returns (nextFinal: string, nextCube: int, ghost nextP: nat)
    requires column == line + "#"
    requires p <= cube <= |line|
    requires TiltProgress(line, column, emptiesFirst, p, lastCube, cube, finalLine, target)
    ensures nextP == cube + 1
    ensures nextCube == -1 || nextP <= nextCube <= |line|
    ensures TiltProgress(line, column, emptiesFirst, nextP, cube, nextCube, nextFinal, target)
  {
    nextP := cube + 1;
    assert column[p..cube] == line[p..cube];
    var subColumn := column[lastCube..cube];
    SegmentCounts(column, lastCube, p, cube, 'O');
    SegmentCounts(column, lastCube, p, cube, '.');
    nextFinal := RollInto(finalLine, subColumn, emptiesFirst);
    nextCube := FindCube(line, column, cube + 1);
    if |nextFinal| < |column| - 1 {
      nextFinal := nextFinal + "#";
    }
    TiltLoopStep(line, emptiesFirst, p, cube, target, finalLine, nextFinal);
  }

  lemma {:induction false} TiltStart(line: string, column: string, emptiesFirst: bool, cube: int)
    requires IsNextCube(line, 0, cube)
    ensures TiltProgress(line, column, emptiesFirst, 0, 0, cube, "", TiltLine(line, emptiesFirst))
  {
    assert line[0..] == line;
  }

  /** The loop of a tilt on one line, as written: find the next '#', roll the
      text since the previous one, append '#' while the output is short. */
  method TiltLineLoop(line: string, emptiesFirst: bool) returns (finalLine: string)
    ensures finalLine == TiltLine(line, emptiesFirst)
  {
    var column := line + "#";
    var cube := FindCube(line, column, 0);
    TiltStart(line, column, emptiesFirst, cube);
    finalLine := TiltRounds(line, column, emptiesFirst, cube, TiltLine(line, emptiesFirst));
  }

  /** The rounds of the tilt loop, from the first cube on. */
  method TiltRounds(line: string, column: string, emptiesFirst: bool, firstCube: int, ghost target: string)
    returns (finalLine: string)
    requires column == line + "#"
    requires firstCube == -1 || firstCube <= |line|
    requires TiltProgress(line, column, emptiesFirst, 0, 0, firstCube, "", target)
    ensures finalLine == target
  {
    var lastCube: nat := 0;
    var cube := firstCube;
    finalLine := "";
    ghost var p: nat := 0;
    while cube > -1
      invariant cube == -1 || p <= cube <= |line|
      invariant TiltProgress(line, column, emptiesFirst, p, lastCube, cube, finalLine, target)
      decreases |line| + 1 - p
    {
      var nextCube;
      finalLine, nextCube, p := TiltRound(line, column, lastCube, cube, finalLine, emptiesFirst, p, target);
      lastCube := cube;
      cube := nextCube;
    }
  }

  // ---------------------------------------------------------------------
  // One line made only of 'O', '.' and '#'

  predicate IsRockOrEmpty(c: char)
  {
    c == 'O' || c == '.'
  }

  /** A line of the platform: only 'O', '.' and '#'. */
  predicate CleanLine(s: string)
  {
    forall i :: 0 <= i < |s| ==> IsRockOrEmpty(s[i]) || s[i] == '#'
  }

  /** A segment between cubes: only 'O' and '.'. */
  predicate CleanSegment(s: string)
  {
    forall i :: 0 <= i < |s| ==> IsRockOrEmpty(s[i])
  }

  lemma {:induction false} CountSegment(s: string)
    requires CleanSegment(s)
    ensures Count(s, 'O') + Count(s, '.') == |s|
  {
    if s != [] {
      CountSegment(s[..|s| - 1]);
    }
  }

  /** Rolling a segment keeps its length and its counts, leaves no '#' in
      it, and rolling twice is rolling once. */
  lemma {:induction false} RollFacts(s: string, emptiesFirst: bool)
    requires CleanSegment(s)
    ensures |Roll(s, emptiesFirst)| == |s|
    ensures CleanSegment(Roll(s, emptiesFirst))
    ensures Count(Roll(s, emptiesFirst), 'O') == Count(s, 'O')
    ensures Count(Roll(s, emptiesFirst), '.') == Count(s, '.')
    ensures Roll(Roll(s, emptiesFirst), emptiesFirst) == Roll(s, emptiesFirst)
  {
    CountSegment(s);
    var dots, rocks := Repeat('.', Count(s, '.')), Repeat('O', Count(s, 'O'));
    CountRepeat('.', Count(s, '.'), 'O');
    CountRepeat('.', Count(s, '.'), '.');
    CountRepeat('O', Count(s, 'O'), 'O');
    CountRepeat('O', Count(s, 'O'), '.');
    CountAppend(dots, rocks, 'O');
    CountAppend(dots, rocks, '.');
    CountAppend(rocks, dots, 'O');
    CountAppend(rocks, dots, '.');
  }

  /** Every segment, rolled. */
  function RollAll(pieces: seq<string>, emptiesFirst: bool): (r: seq<string>)
    ensures |r| == |pieces|
    ensures forall k :: 0 <= k < |r| ==> r[k] == Roll(pieces[k], emptiesFirst)
  {
    seq(|pieces|, k requires 0 <= k < |pieces| => Roll(pieces[k], emptiesFirst))
  }

  /** A tilt of a clean line: its segments rolled and joined with '#'. */
  function TiltSegments(line: string, emptiesFirst: bool): string
  {
    Join(RollAll(Split(line, "#"), emptiesFirst), "#")
  }

  predicate CleanPieces(pieces: seq<string>)
  {
    forall k :: 0 <= k < |pieces| ==> CleanSegment(pieces[k])
  }

  lemma {:induction false} AssembleClean(pieces: seq<string>, n: int, emptiesFirst: bool, acc: string)
    requires |pieces| > 0 && CleanPieces(pieces)
    requires |acc| + |Join(pieces, "#")| == n
    ensures Assemble(pieces, n, emptiesFirst, acc) == acc + Join(RollAll(pieces, emptiesFirst), "#")
    decreases |pieces|
  {
    RollFacts(pieces[0], emptiesFirst);
    var r := Roll(pieces[0], emptiesFirst);
    var a := acc + r;
    var rolled := RollAll(pieces, emptiesFirst);
    if |pieces| == 1 {
      assert Assemble(pieces, n, emptiesFirst, acc) == Assemble([], n, emptiesFirst, a);
      assert Join(rolled, "#") == r;
    } else {
      var rest := pieces[1..];
      assert Join(pieces, "#") == pieces[0] + "#" + Join(rest, "#");
      assert Assemble(pieces, n, emptiesFirst, acc) == Assemble(rest, n, emptiesFirst, a + "#");
      assert CleanPieces(rest) by {
        forall k | 0 <= k < |rest| ensures CleanSegment(rest[k]) {
          assert rest[k] == pieces[k + 1];
        }
      }
      AssembleClean(rest, n, emptiesFirst, a + "#");
      assert rolled[1..] == RollAll(rest, emptiesFirst);
      assert Join(rolled, "#") == r + "#" + Join(rolled[1..], "#");
      Regroup(acc, r, "#", Join(rolled[1..], "#"));
    }
  }

  lemma {:induction false} Regroup(acc: string, r: string, sep: string, tail: string)
    ensures acc + r + sep + tail == acc + (r + sep + tail)
  {
  }

  lemma {:induction false} CharOfJoin(pieces: seq<string>, sep: string, k: nat, i: nat)
    requires k < |pieces| && i < |pieces[k]|
    ensures pieces[k][i] in Join(pieces, sep)
    decreases |pieces|
  {
    if |pieces| > 1 {
      var rest := Join(pieces[1..], sep);
      assert Join(pieces, sep) == pieces[0] + sep + rest;
      if k == 0 {
        assert Join(pieces, sep)[i] == pieces[0][i];
      } else {
        CharOfJoin(pieces[1..], sep, k - 1, i);
        var m :| 0 <= m < |rest| && rest[m] == pieces[k][i];
        assert Join(pieces, sep)[|pieces[0]| + |sep| + m] == rest[m];
      }
    }
  }

  lemma {:induction false} SplitClean(line: string)
    requires CleanLine(line)
    ensures CleanPieces(Split(line, "#"))
  {
    var pieces := Split(line, "#");
    SplitJoin(line, "#");
    SplitPiecesFree(line, '#');
    forall k, i | 0 <= k < |pieces| && 0 <= i < |pieces[k]| ensures IsRockOrEmpty(pieces[k][i]) {
      CharOfJoin(pieces, "#", k, i);
      assert pieces[k][i] != '#' by {
        assert pieces[k][i] in pieces[k];
      }
    }
  }

  /** On a clean line the tilt is exactly "roll every segment, keep the
      cubes". */
  lemma {:induction false} TiltLineClean(line: string, emptiesFirst: bool)
    requires CleanLine(line)
    ensures TiltLine(line, emptiesFirst) == TiltSegments(line, emptiesFirst)
  {
    SplitClean(line);
    SplitJoin(line, "#");
    AssembleClean(Split(line, "#"), |line|, emptiesFirst, "");
  }

  /** Joining pieces of the same lengths puts the separators at the same
      places. */
  lemma {:induction false} JoinSameShape(ps: seq<string>, qs: seq<string>)
    requires |ps| == |qs| > 0
    requires forall k :: 0 <= k < |ps| ==> |ps[k]| == |qs[k]| && '#' !in ps[k] && '#' !in qs[k]
    ensures |Join(ps, "#")| == |Join(qs, "#")|
    ensures forall i :: 0 <= i < |Join(ps, "#")| ==> (Join(ps, "#")[i] == '#' <==> Join(qs, "#")[i] == '#')
    decreases |ps|
  {
    if |ps| > 1 {
      JoinSameShape(ps[1..], qs[1..]);
      var a, b := Join(ps, "#"), Join(qs, "#");
      var ra, rb := Join(ps[1..], "#"), Join(qs[1..], "#");
      assert a == ps[0] + "#" + ra;
      assert b == qs[0] + "#" + rb;
      var n := |ps[0]|;
      forall i | 0 <= i < |a| ensures a[i] == '#' <==> b[i] == '#' {
        if i < n {
          assert a[i] == ps[0][i] && b[i] == qs[0][i];
          assert ps[0][i] in ps[0] && qs[0][i] in qs[0];
        } else if i > n {
          assert a[i] == ra[i - n - 1] && b[i] == rb[i - n - 1];
        }
      }
    } else {
      forall i | 0 <= i < |ps[0]| ensures ps[0][i] != '#' && qs[0][i] != '#' {
        assert ps[0][i] in ps[0] && qs[0][i] in qs[0];
      }
    }
  }

  lemma {:induction false} JoinCount(ps: seq<string>, qs: seq<string>, c: char)
    requires |ps| == |qs| > 0
    requires forall k :: 0 <= k < |ps| ==> Count(ps[k], c) == Count(qs[k], c)
    ensures Count(Join(ps, "#"), c) == Count(Join(qs, "#"), c)
    decreases |ps|
  {
    if |ps| > 1 {
      JoinCount(ps[1..], qs[1..], c);
      CountAppend(ps[0] + "#", Join(ps[1..], "#"), c);
      CountAppend(qs[0] + "#", Join(qs[1..], "#"), c);
      CountAppend(ps[0], "#", c);
      CountAppend(qs[0], "#", c);
    }
  }

  /** No `a` directly followed by `b`. */
  predicate NoPair(s: string, a: char, b: char)
  {
    forall i :: 0 <= i < |s| - 1 ==> !(s[i] == a && s[i + 1] == b)
  }

  lemma {:induction false} JoinNoPair(ps: seq<string>, a: char, b: char)
    requires |ps| > 0 && a != '#' && b != '#'
    requires forall k :: 0 <= k < |ps| ==> NoPair(ps[k], a, b)
    ensures NoPair(Join(ps, "#"), a, b)
    decreases |ps|
  {
    if |ps| > 1 {
      JoinNoPair(ps[1..], a, b);
      var s, rest := Join(ps, "#"), Join(ps[1..], "#");
      assert s == ps[0] + "#" + rest;
      var n := |ps[0]|;
      forall i | 0 <= i < |s| - 1 ensures !(s[i] == a && s[i + 1] == b) {
        if i + 1 < n {
          assert s[i] == ps[0][i] && s[i + 1] == ps[0][i + 1];
        } else if i > n {
          assert s[i] == rest[i - n - 1] && s[i + 1] == rest[i - n];
        }
      }
    }
  }

  lemma {:induction false} RollNoPair(s: string, emptiesFirst: bool)
    ensures emptiesFirst ==> NoPair(Roll(s, emptiesFirst), 'O', '.')
    ensures !emptiesFirst ==> NoPair(Roll(s, emptiesFirst), '.', 'O')
  {
  }

  /** Each rolled segment of a clean line keeps its length and 'O' count,
      holds no '#', has its rocks at one end and rolls to itself. */
  lemma {:induction false} RolledPieces(line: string, emptiesFirst: bool)
    requires CleanLine(line)
    ensures var pieces := Split(line, "#");
      var rolled := RollAll(pieces, emptiesFirst);
      && CleanPieces(pieces) && CleanPieces(rolled)
      && forall k :: 0 <= k < |pieces| ==>
        && |rolled[k]| == |pieces[k]| && '#' !in rolled[k] && '#' !in pieces[k]
        && Count(rolled[k], 'O') == Count(pieces[k], 'O')
        && (emptiesFirst ==> NoPair(rolled[k], 'O', '.'))
        && (!emptiesFirst ==> NoPair(rolled[k], '.', 'O'))
        && Roll(rolled[k], emptiesFirst) == rolled[k]
  {
    SplitClean(line);
    SplitPiecesFree(line, '#');
    var pieces := Split(line, "#");
    var rolled := RollAll(pieces, emptiesFirst);
    forall k | 0 <= k < |pieces|
      ensures |rolled[k]| == |pieces[k]| && '#' !in rolled[k] && '#' !in pieces[k]
      ensures Count(rolled[k], 'O') == Count(pieces[k], 'O')
      ensures emptiesFirst ==> NoPair(rolled[k], 'O', '.')
      ensures !emptiesFirst ==> NoPair(rolled[k], '.', 'O')
      ensures CleanSegment(rolled[k])
      ensures Roll(rolled[k], emptiesFirst) == rolled[k]
    {
      RollFacts(pieces[k], emptiesFirst);
      RollNoPair(pieces[k], emptiesFirst);
    }
  }

  /** A tilt keeps a clean line clean, keeps its length and leaves every '#'
      where it was. */
  lemma {:induction false} TiltLineShape(line: string, emptiesFirst: bool)
    requires CleanLine(line)
    ensures var t := TiltLine(line, emptiesFirst);
      && CleanLine(t)
      && |t| == |line|
      && (forall i :: 0 <= i < |line| ==> (t[i] == '#' <==> line[i] == '#'))
  {
    TiltLineClean(line, emptiesFirst);
    RolledPieces(line, emptiesFirst);
    SplitJoin(line, "#");
    var rolled := RollAll(Split(line, "#"), emptiesFirst);
    JoinSameShape(rolled, Split(line, "#"));
    var t := Join(rolled, "#");
    forall i | 0 <= i < |t| ensures IsRockOrEmpty(t[i]) || t[i] == '#' {
      TiltCharClean(rolled, i);
    }
  }

  /** A tilt keeps the number of rounded rocks. */
  lemma {:induction false} TiltLineCount(line: string, emptiesFirst: bool)
    requires CleanLine(line)
    ensures Count(TiltLine(line, emptiesFirst), 'O') == Count(line, 'O')
  {
    TiltLineClean(line, emptiesFirst);
    RolledPieces(line, emptiesFirst);
    SplitJoin(line, "#");
    JoinCount(RollAll(Split(line, "#"), emptiesFirst), Split(line, "#"), 'O');
  }

  /** After a tilt every 'O' has rolled as far as it can: towards the end no
      'O' sits just before a '.', towards the start no '.' just before an
      'O'. */
  lemma {:induction false} TiltLineRolled(line: string, emptiesFirst: bool)
    requires CleanLine(line)
    ensures emptiesFirst ==> NoPair(TiltLine(line, emptiesFirst), 'O', '.')
    ensures !emptiesFirst ==> NoPair(TiltLine(line, emptiesFirst), '.', 'O')
  {
    TiltLineClean(line, emptiesFirst);
    RolledPieces(line, emptiesFirst);
    var rolled := RollAll(Split(line, "#"), emptiesFirst);
    if emptiesFirst {
      JoinNoPair(rolled, 'O', '.');
    } else {
      JoinNoPair(rolled, '.', 'O');
    }
  }

  /** Tilting a tilted line changes nothing. */
  lemma {:induction false} TiltLineIdempotent(line: string, emptiesFirst: bool)
    requires CleanLine(line)
    ensures TiltLine(TiltLine(line, emptiesFirst), emptiesFirst) == TiltLine(line, emptiesFirst)
  {
    TiltLineClean(line, emptiesFirst);
    TiltLineShape(line, emptiesFirst);
    RolledPieces(line, emptiesFirst);
    var rolled := RollAll(Split(line, "#"), emptiesFirst);
    var t := Join(rolled, "#");
    JoinSplit(rolled, '#');
    TiltLineClean(t, emptiesFirst);
    assert RollAll(rolled, emptiesFirst) == rolled;
  }

  lemma {:induction false} TiltCharClean(ps: seq<string>, i: nat)
    requires |ps| > 0 && CleanPieces(ps)
    requires i < |Join(ps, "#")|
    ensures IsRockOrEmpty(Join(ps, "#")[i]) || Join(ps, "#")[i] == '#'
    decreases |ps|
  {
    if |ps| > 1 {
      var rest := Join(ps[1..], "#");
      assert Join(ps, "#") == ps[0] + "#" + rest;
      if i > |ps[0]| {
        TiltCharClean(ps[1..], i - |ps[0]| - 1);
      }
    }
  }

  // ---------------------------------------------------------------------
  // The platform

  predicate CleanGrid(rows: seq<string>)
  {
    forall i :: 0 <= i < |rows| ==> CleanLine(rows[i])
  }

  /** Every line tilted on its own. */
  function TiltEach(lines: seq<string>, emptiesFirst: bool): (r: seq<string>)
    ensures |r| == |lines|
    ensures forall k :: 0 <= k < |lines| ==> r[k] == TiltLine(lines[k], emptiesFirst)
  {
    seq(|lines|, k requires 0 <= k < |lines| => TiltLine(lines[k], emptiesFirst))
  }

  /** The columns, each read from bottom to top and tilted as a line. */
  function TiltedColumns(rows: seq<string>, emptiesFirst: bool): seq<string>
  {
    var columns := Transpose(rows);
    TiltEach(seq(|columns|, j requires 0 <= j < |columns| => Reverse(columns[j])), emptiesFirst)
  }

  /** A tilt along the columns: the tilted columns turned back into rows.
      With `emptiesFirst` the rocks go to the top (north), otherwise to the
      bottom (south). */
  function Vertical(rows: seq<string>, emptiesFirst: bool): seq<string>
  {
    Reverse(Transpose(TiltedColumns(rows, emptiesFirst)))
  }

  /** A horizontal tilt: each row tilted as a line. With `emptiesFirst` the
      rocks go to the end (east), otherwise to the start (west). */
  function Horizontal(rows: seq<string>, emptiesFirst: bool): seq<string>
  {
    TiltEach(rows, emptiesFirst)
  }

  lemma {:induction false} ColumnClean(rows: seq<string>, h: nat, w: nat, j: nat)
    requires Shape(rows, h, w) && j < w && CleanGrid(rows)
    ensures CleanLine(Reverse(Column(rows, j)))
  {
    var c := Column(rows, j);
    forall k | 0 <= k < h ensures IsRockOrEmpty(Reverse(c)[k]) || Reverse(c)[k] == '#' {
      assert Reverse(c)[k] == rows[h - 1 - k][j];
    }
  }

  lemma {:induction false} TiltedColumnsShape(rows: seq<string>, h: nat, w: nat, emptiesFirst: bool)
    requires Shape(rows, h, w) && h > 0 && CleanGrid(rows)
    ensures Shape(TiltedColumns(rows, emptiesFirst), w, h)
    ensures forall j :: 0 <= j < w ==>
      TiltedColumns(rows, emptiesFirst)[j] == TiltLine(Reverse(Column(rows, j)), emptiesFirst)
  {
    TransposeShape(rows, h, w);
    var tilted := TiltedColumns(rows, emptiesFirst);
    forall j | 0 <= j < w
      ensures tilted[j] == TiltLine(Reverse(Column(rows, j)), emptiesFirst)
      ensures |tilted[j]| == h
    {
      ColumnClean(rows, h, w, j);
      TiltLineShape(Reverse(Column(rows, j)), emptiesFirst);
    }
  }

  /** Cell by cell, a vertical tilt of a clean grid is the tilt of the
      cell's column read from the bottom. */
  lemma {:induction false} VerticalCells(rows: seq<string>, h: nat, w: nat, emptiesFirst: bool)
    requires Shape(rows, h, w) && h > 0 && w > 0 && CleanGrid(rows)
    ensures Shape(Vertical(rows, emptiesFirst), h, w)
    ensures forall j :: 0 <= j < w ==>
      Column(Vertical(rows, emptiesFirst), j) == Reverse(TiltLine(Reverse(Column(rows, j)), emptiesFirst))
  {
    TiltedColumnsShape(rows, h, w, emptiesFirst);
    RowsOfColumns(TiltedColumns(rows, emptiesFirst), w, h);
  }

  /** Turning columns (each read from the bottom) back into rows. */
  lemma {:induction false} RowsOfColumns(columns: seq<string>, w: nat, h: nat)
    requires Shape(columns, w, h) && w > 0
    ensures Shape(Reverse(Transpose(columns)), h, w)
    ensures forall j :: 0 <= j < w ==> Column(Reverse(Transpose(columns)), j) == Reverse(columns[j])
  {
    TransposeShape(columns, w, h);
    var t := Reverse(Transpose(columns));
    forall j | 0 <= j < w
      ensures Column(t, j) == Reverse(columns[j])
    {
      forall i | 0 <= i < h ensures Column(t, j)[i] == Reverse(columns[j])[i] {
        assert t[i] == Transpose(columns)[h - 1 - i];
      }
    }
  }

  /** A tilted line read backwards: its shape, its '#'s, its rock count and
      the order it leaves behind. */
  lemma {:induction false} ReversedTiltFacts(r: string, emptiesFirst: bool)
    requires CleanLine(r)
    ensures var t := Reverse(TiltLine(r, emptiesFirst));
      && |t| == |r| && CleanLine(t)
      && (forall i :: 0 <= i < |r| ==> (t[i] == '#' <==> r[|r| - 1 - i] == '#'))
      && Count(t, 'O') == Count(r, 'O')
      && (if emptiesFirst then NoPair(t, '.', 'O') else NoPair(t, 'O', '.'))
  {
    TiltLineShape(r, emptiesFirst);
    TiltLineCount(r, emptiesFirst);
    TiltLineRolled(r, emptiesFirst);
    ReverseTilted(r, TiltLine(r, emptiesFirst), emptiesFirst);
  }

  /** Reading a tilted line backwards mirrors its cubes and turns its order
      of 'O's and '.'s around. */
  lemma {:induction false} ReverseTilted(r: string, line: string, emptiesFirst: bool)
    requires |line| == |r| && CleanLine(line)
    requires forall i :: 0 <= i < |r| ==> (line[i] == '#' <==> r[i] == '#')
    requires Count(line, 'O') == Count(r, 'O')
    requires if emptiesFirst then NoPair(line, 'O', '.') else NoPair(line, '.', 'O')
    ensures var t := Reverse(line);
      && |t| == |r| && CleanLine(t)
      && (forall i :: 0 <= i < |r| ==> (t[i] == '#' <==> r[|r| - 1 - i] == '#'))
      && Count(t, 'O') == Count(r, 'O')
      && (if emptiesFirst then NoPair(t, '.', 'O') else NoPair(t, 'O', '.'))
  {
    CountReverse(line, 'O');
    var t := Reverse(line);
    var h := |r|;
    forall i | 0 <= i < h ensures (IsRockOrEmpty(t[i]) || t[i] == '#') && (t[i] == '#' <==> r[h - 1 - i] == '#') {
      assert t[i] == line[h - 1 - i];
    }
    forall i | 0 <= i < h - 1
      ensures if emptiesFirst then !(t[i] == '.' && t[i + 1] == 'O') else !(t[i] == 'O' && t[i + 1] == '.')
    {
      assert t[i] == line[h - 1 - i] && t[i + 1] == line[h - 2 - i];
    }
  }

  /** Column facts of a tilted line read back from the bottom. */
  lemma {:induction false} TiltedColumnFacts(rows: seq<string>, h: nat, w: nat, emptiesFirst: bool, j: nat)
    requires Shape(rows, h, w) && j < w && CleanGrid(rows)
    ensures var c := Column(rows, j);
      var t := Reverse(TiltLine(Reverse(c), emptiesFirst));
      && |t| == h && CleanLine(t)
      && (forall i :: 0 <= i < h ==> (t[i] == '#' <==> c[i] == '#'))
      && Count(t, 'O') == Count(c, 'O')
      && (if emptiesFirst then NoPair(t, '.', 'O') else NoPair(t, 'O', '.'))
  {
    var c := Column(rows, j);
    ColumnClean(rows, h, w, j);
    ReversedTiltFacts(Reverse(c), emptiesFirst);
    CountReverse(c, 'O');
    MirroredCubes(c, Reverse(TiltLine(Reverse(c), emptiesFirst)));
  }

  /** Cubes placed mirror-wise on the reversed text sit where the text has them. */
  lemma {:induction false} MirroredCubes(c: string, t: string)
    requires |t| == |c|
    requires forall i :: 0 <= i < |c| ==> (t[i] == '#' <==> Reverse(c)[|c| - 1 - i] == '#')
    ensures forall i :: 0 <= i < |c| ==> (t[i] == '#' <==> c[i] == '#')
  {
    forall i | 0 <= i < |c| ensures t[i] == '#' <==> c[i] == '#' {
      assert Reverse(c)[|c| - 1 - i] == c[i];
    }
  }

  /** A vertical tilt keeps the grid's shape and cleanliness, every '#' in
      its cell and the number of 'O's in every column. */
  lemma {:induction false} VerticalShape(rows: seq<string>, h: nat, w: nat, emptiesFirst: bool)
    requires Shape(rows, h, w) && h > 0 && w > 0 && CleanGrid(rows)
    ensures var t := Vertical(rows, emptiesFirst);
      && Shape(t, h, w) && CleanGrid(t)
      && (forall i, j :: 0 <= i < h && 0 <= j < w ==> (t[i][j] == '#' <==> rows[i][j] == '#'))
      && forall j :: 0 <= j < w ==> Count(Column(t, j), 'O') == Count(Column(rows, j), 'O')
  {
    VerticalCells(rows, h, w, emptiesFirst);
    var t := Vertical(rows, emptiesFirst);
    forall i, j | 0 <= i < h && 0 <= j < w
      ensures IsRockOrEmpty(t[i][j]) || t[i][j] == '#'
      ensures t[i][j] == '#' <==> rows[i][j] == '#'
    {
      TiltedColumnFacts(rows, h, w, emptiesFirst, j);
      assert t[i][j] == Column(t, j)[i];
    }
    forall j | 0 <= j < w ensures Count(Column(t, j), 'O') == Count(Column(rows, j), 'O') {
      TiltedColumnFacts(rows, h, w, emptiesFirst, j);
    }
  }

  /** After a tilt north no empty cell sits directly above an 'O'; after a
      tilt south no 'O' sits directly above an empty cell. */
  lemma {:induction false} VerticalRolled(rows: seq<string>, h: nat, w: nat, emptiesFirst: bool)
    requires Shape(rows, h, w) && h > 0 && w > 0 && CleanGrid(rows)
    ensures Shape(Vertical(rows, emptiesFirst), h, w)
    ensures forall j :: 0 <= j < w ==>
      var c := Column(Vertical(rows, emptiesFirst), j);
      if emptiesFirst then NoPair(c, '.', 'O') else NoPair(c, 'O', '.')
  {
    VerticalCells(rows, h, w, emptiesFirst);
    forall j | 0 <= j < w
      ensures var c := Column(Vertical(rows, emptiesFirst), j);
        if emptiesFirst then NoPair(c, '.', 'O') else NoPair(c, 'O', '.')
    {
      TiltedColumnFacts(rows, h, w, emptiesFirst, j);
    }
  }

  /** Tilting twice the same way is tilting once. */
  lemma {:induction false} VerticalIdempotent(rows: seq<string>, h: nat, w: nat, emptiesFirst: bool)
    requires Shape(rows, h, w) && h > 0 && w > 0 && CleanGrid(rows)
    ensures Vertical(Vertical(rows, emptiesFirst), emptiesFirst) == Vertical(rows, emptiesFirst)
  {
    var t := Vertical(rows, emptiesFirst);
    assert Shape(t, h, w) && CleanGrid(t) by {
      VerticalShape(rows, h, w, emptiesFirst);
    }
    var t2 := Vertical(t, emptiesFirst);
    assert Shape(t2, h, w) by {
      VerticalCells(t, h, w, emptiesFirst);
    }
    forall j | 0 <= j < w ensures Column(t2, j) == Column(t, j) {
      VerticalColumnIdempotent(rows, h, w, emptiesFirst, j);
      VerticalCells(t, h, w, emptiesFirst);
    }
    SameColumns(t2, t, h, w);
  }

  lemma {:induction false} VerticalColumnIdempotent(rows: seq<string>, h: nat, w: nat, emptiesFirst: bool, j: nat)
    requires Shape(rows, h, w) && h > 0 && j < w && CleanGrid(rows)
    ensures Shape(Vertical(rows, emptiesFirst), h, w)
    ensures var c := Column(Vertical(rows, emptiesFirst), j);
      Reverse(TiltLine(Reverse(c), emptiesFirst)) == c
  {
    VerticalCells(rows, h, w, emptiesFirst);
    var line := TiltLine(Reverse(Column(rows, j)), emptiesFirst);
    ColumnClean(rows, h, w, j);
    TiltLineIdempotent(Reverse(Column(rows, j)), emptiesFirst);
    ReverseReverse(line);
  }

  /** Two grids of one shape with the same columns are equal. */
  lemma {:induction false} SameColumns(a: seq<string>, b: seq<string>, h: nat, w: nat)
    requires Shape(a, h, w) && Shape(b, h, w)
    requires forall j :: 0 <= j < w ==> Column(a, j) == Column(b, j)
    ensures a == b
  {
    forall i | 0 <= i < h ensures a[i] == b[i] {
      forall j | 0 <= j < w ensures a[i][j] == b[i][j] {
        assert a[i][j] == Column(a, j)[i] && b[i][j] == Column(b, j)[i];
      }
    }
  }

  /** A horizontal tilt keeps the grid's shape and cleanliness, every '#' in
      its cell and the number of 'O's in every row. */
  lemma {:induction false} HorizontalShape(rows: seq<string>, h: nat, w: nat, emptiesFirst: bool)
    requires Shape(rows, h, w) && CleanGrid(rows)
    ensures var t := Horizontal(rows, emptiesFirst);
      && Shape(t, h, w) && CleanGrid(t)
      && (forall i, j :: 0 <= i < h && 0 <= j < w ==> (t[i][j] == '#' <==> rows[i][j] == '#'))
      && forall i :: 0 <= i < h ==> Count(t[i], 'O') == Count(rows[i], 'O')
  {
    forall i | 0 <= i < h
      ensures var t := TiltLine(rows[i], emptiesFirst);
        CleanLine(t) && |t| == w && Count(t, 'O') == Count(rows[i], 'O')
        && forall j :: 0 <= j < w ==> (t[j] == '#' <==> rows[i][j] == '#')
    {
      TiltLineShape(rows[i], emptiesFirst);
      TiltLineCount(rows[i], emptiesFirst);
    }
  }

  /** After a tilt west no empty cell sits just left of an 'O'; after a tilt
      east no 'O' sits just left of an empty cell. Tilting again changes
      nothing. */
  lemma {:induction false} HorizontalRolled(rows: seq<string>, h: nat, w: nat, emptiesFirst: bool)
    requires Shape(rows, h, w) && CleanGrid(rows)
    ensures var t := Horizontal(rows, emptiesFirst);
      forall i :: 0 <= i < h ==>
        if emptiesFirst then NoPair(t[i], 'O', '.') else NoPair(t[i], '.', 'O')
    ensures Horizontal(Horizontal(rows, emptiesFirst), emptiesFirst) == Horizontal(rows, emptiesFirst)
  {
    forall i | 0 <= i < h
      ensures var t := TiltLine(rows[i], emptiesFirst);
        (if emptiesFirst then NoPair(t, 'O', '.') else NoPair(t, '.', 'O'))
        && TiltLine(t, emptiesFirst) == t
    {
      TiltLineRolled(rows[i], emptiesFirst);
      TiltLineIdempotent(rows[i], emptiesFirst);
    }
  }

  /** The tilt loop run on every line in turn. */
  method TiltLines(lines: seq<string>, emptiesFirst: bool) returns (tilted: seq<string>)
    ensures tilted == TiltEach(lines, emptiesFirst)
  {
    tilted := [];
    var k := 0;
    while k < |lines|
      invariant 0 <= k <= |lines|
      invariant tilted == TiltEach(lines[..k], emptiesFirst)
    {
      var line := TiltLineLoop(lines[k], emptiesFirst);
      tilted := tilted + [line];
      k := k + 1;
    }
    assert lines[..k] == lines;
  }

  /** `tilt_north`: columns read from the bottom, rocks rolled to their end. */
  method TiltNorth(rows: seq<string>) returns (finalRows: seq<string>)
    ensures finalRows == Vertical(rows, true)
  {
    var columns := Transpose(rows);
    var finalColumns := TiltLines(seq(|columns|, j requires 0 <= j < |columns| => Reverse(columns[j])), true);
    finalRows := Reverse(Transpose(finalColumns));
  }

  /** `tilt_south`: columns read from the bottom, rocks rolled to their start. */
  method TiltSouth(rows: seq<string>) returns (finalRows: seq<string>)
    ensures finalRows == Vertical(rows, false)
  {
    var columns := Transpose(rows);
    var finalColumns := TiltLines(seq(|columns|, j requires 0 <= j < |columns| => Reverse(columns[j])), false);
    finalRows := Reverse(Transpose(finalColumns));
  }

  /** `tilt_west`: the rows are processed last to first and put back in
      order; the rocks roll to the start of each row. */
  method TiltWest(rows: seq<string>) returns (finalRows: seq<string>)
    ensures finalRows == Horizontal(rows, false)
    ensures forall i :: 0 <= i < |rows| ==> finalRows[i] == TiltLine(rows[i], false)
  {
    var tilted := TiltLines(Reverse(rows), false);
    finalRows := Reverse(tilted);
  }

  /** `tilt_east`: as `tilt_west` with the rocks rolled to the end. */
  method TiltEast(rows: seq<string>) returns (finalRows: seq<string>)
    ensures finalRows == Horizontal(rows, true)
    ensures forall i :: 0 <= i < |rows| ==> finalRows[i] == TiltLine(rows[i], true)
  {
    var tilted := TiltLines(Reverse(rows), true);
    finalRows := Reverse(tilted);
  }

  // ---------------------------------------------------------------------
  // Spin cycles and the load

  /** One spin cycle: north, then west, then south, then east. */
  function Spin(rows: seq<string>): seq<string>
  {
    Horizontal(Vertical(Horizontal(Vertical(rows, true), false), false), true)
  }

  /** `step` applied `k` times. */
  function Iterate(step: seq<string> -> seq<string>, rows: seq<string>, k: nat): seq<string>
  {
    if k == 0 then rows else step(Iterate(step, rows, k - 1))
  }

  method SpinCycle(rows: seq<string>) returns (after: seq<string>)
    ensures after == Spin(rows)
  {
    var afterNorth := TiltNorth(rows);
    var afterWest := TiltWest(afterNorth);
    var afterSouth := TiltSouth(afterWest);
    after := TiltEast(afterSouth);
  }

  /** `after` is a clean grid of the same shape as `before`, with every '#'
      where it was. */
  predicate SameCubes(before: seq<string>, after: seq<string>, h: nat, w: nat)
  {
    && Shape(before, h, w) && Shape(after, h, w) && CleanGrid(after)
    && forall i, j :: 0 <= i < h && 0 <= j < w ==> (after[i][j] == '#' <==> before[i][j] == '#')
  }

  /** A spin cycle keeps a clean grid's shape and every '#' in its cell. */
  lemma {:induction false} SpinShape(rows: seq<string>, h: nat, w: nat)
    requires Shape(rows, h, w) && h > 0 && w > 0 && CleanGrid(rows)
    ensures SameCubes(rows, Spin(rows), h, w)
  {
    var a := Vertical(rows, true);
    VerticalShape(rows, h, w, true);
    var b := Horizontal(a, false);
    HorizontalShape(a, h, w, false);
    var c := Vertical(b, false);
    VerticalShape(b, h, w, false);
    HorizontalShape(c, h, w, true);
  }

  /** The load on the north beams: every 'O' weighs its row's distance from
      the bottom edge, the bottom row counting as 1. */
  function NorthLoad(rows: seq<string>): nat
  {
    if rows == [] then 0 else Count(rows[0], 'O') * |rows| + NorthLoad(rows[1..])
  }

  /** `calculate_north_load`: the rows from the bottom up, weighted 1, 2, ... */
  method CalculateNorthLoad(rows: seq<string>) returns (total: int)
    ensures total == NorthLoad(rows)
  {
    var reversedRows := Reverse(rows);
    var h := |rows|;
    total := 0;
    var index := 0;
    while index < h
      invariant 0 <= index <= h
      invariant total == NorthLoad(rows[h - index..])
    {
      assert rows[h - index - 1..][1..] == rows[h - index..];
      total := total + Count(reversedRows[index], 'O') * (index + 1);
      index := index + 1;
    }
    assert rows[0..] == rows;
  }

  /** The number of 'O's on the platform. */
  function RockCount(rows: seq<string>): nat
  {
    if rows == [] then 0 else Count(rows[0], 'O') + RockCount(rows[1..])
  }

  /** Every rock weighs between 1 and the number of rows. */
  lemma {:induction false} NorthLoadBounds(rows: seq<string>)
    ensures RockCount(rows) <= NorthLoad(rows) <= |rows| * RockCount(rows)
  {
    if rows != [] {
      var rest := rows[1..];
      NorthLoadBounds(rest);
      LoadStep(Count(rows[0], 'O'), |rows|, RockCount(rest), NorthLoad(rest));
    }
  }

  lemma {:induction false} LoadStep(c: nat, h: nat, r: nat, l: nat)
    requires h >= 1 && r <= l <= (h - 1) * r
    ensures c + r <= c * h + l <= h * (c + r)
  {
    assert c <= c * h;
    assert (h - 1) * r == h * r - r;
    assert h * (c + r) == h * c + h * r;
  }

  // ---------------------------------------------------------------------
  // Finding a repeating pattern in the loads

  /** `target` is the slice of `xs` that starts at `j`. */
  predicate SliceAt(xs: seq<int>, j: int, target: seq<int>)
  {
    0 <= j && j + |target| <= |xs| && xs[j..j + |target|] == target
  }

  /** `integers[start:start+length]` twice in a row occurs somewhere in
      `integers`. */
  ghost predicate RepeatsAt(integers: seq<int>, start: int, length: int)
  {
    0 <= start && 0 <= length && start + length <= |integers| &&
    var pattern := integers[start..start + length];
    exists j :: SliceAt(integers, j, pattern + pattern)
  }

  /** The inner test of `find_pattern`: is `pattern * 2` a slice of
      `integers`? */
  method OccursTwice(integers: seq<int>, pattern: seq<int>) returns (found: bool)
    ensures found <==> exists j :: SliceAt(integers, j, pattern + pattern)
  {
    var repeated := pattern + pattern;
    var n := |integers|;
    var r := |repeated|;
    found := false;
    var j := 0;
    while j < n - r + 1
      invariant 0 <= j && (j == 0 || j <= n - r + 1)
      invariant found <==> exists k :: k < j && SliceAt(integers, k, repeated)
    {
      if integers[j..j + r] == repeated {
        found := true;
        assert SliceAt(integers, j, repeated);
      }
      j := j + 1;
    }
  }

  /** A proper divisor is at most half. */
  lemma {:induction false} DivisorAtMostHalf(n: int, d: int)
    requires 0 < d < n && n % d == 0
    ensures 2 * d <= n
  {
    var q := n / d;
    assert n == d * q;
  }

  /** `find_pattern`: tries every slice `integers[start:end]` with
      `start < ci` and `end < start + ci`, for every `ci` dividing the
      length, keeping the last one that occurs twice in a row, until one of
      at least 3 elements is found. */
  method FindPattern(integers: seq<int>) returns (startIndex: int, patternLength: int)
    ensures (startIndex, patternLength) == (-1, -1) || RepeatsAt(integers, startIndex, patternLength)
    ensures |integers| < 2 ==> (startIndex, patternLength) == (-1, -1)
  {
    var n := |integers|;
    var currentIndex := 1;
    startIndex, patternLength := -1, -1;
    while currentIndex < n && patternLength < 3
      invariant 1 <= currentIndex
      invariant (startIndex, patternLength) == (-1, -1) || RepeatsAt(integers, startIndex, patternLength)
      invariant n < 2 ==> (startIndex, patternLength) == (-1, -1)
      decreases n - currentIndex
    {
      var start := 0;
      while start < currentIndex && patternLength < 3
        invariant (startIndex, patternLength) == (-1, -1) || RepeatsAt(integers, startIndex, patternLength)
        decreases currentIndex - start
      {
        var end := start;
        while end < start + currentIndex && patternLength < 3
          invariant start <= end
          invariant (startIndex, patternLength) == (-1, -1) || RepeatsAt(integers, startIndex, patternLength)
          decreases start + currentIndex - end
        {
          if n % currentIndex == 0 {
            DivisorAtMostHalf(n, currentIndex);
            var pattern := integers[start..end];
            var found := OccursTwice(integers, pattern);
            if found {
              startIndex := start;
              patternLength := |pattern|;
            }
          }
          end := end + 1;
        }
        start := start + 1;
      }
      currentIndex := currentIndex + 1;
    }
  }

  /** Python's `xs[i]`, where a negative `i` counts from the end. */
  function PyIndex(xs: seq<int>, i: int): int
    requires -|xs| <= i < |xs|
  {
    if i < 0 then xs[|xs| + i] else xs[i]
  }

  /** The loads after 1, 2, ..., `n` steps. */
  function Loads(step: seq<string> -> seq<string>, rows: seq<string>, n: nat): (r: seq<int>)
    ensures |r| == n
  {
    if n == 0 then [] else Loads(step, rows, n - 1) + [NorthLoad(Iterate(step, rows, n))]
  }

  lemma {:induction false} LoadsAt(step: seq<string> -> seq<string>, rows: seq<string>, n: nat, k: nat)
    requires k < n
    ensures Loads(step, rows, n)[k] == NorthLoad(Iterate(step, rows, k + 1))
  {
    if k < n - 1 {
      LoadsAt(step, rows, n - 1, k);
    }
  }

  /** The answer the driver reads off the loads: with a pattern longer than
      3, the load at `(cycles - start) % length + start - 1` (Python
      indexing); otherwise the last load, which fails on an empty list. */
  function ReadLoad(loads: seq<int>, cycles: int, start: int, length: int): Option<int>
    requires length > 3 ==> 0 <= start && start + length <= |loads|
  {
    if length > 3 then
      var m := (cycles - start) % length;
      assert 0 <= m < length;
      Some(PyIndex(loads, m + start - 1))
    else if loads == [] then None
    else Some(loads[|loads| - 1])
  }

  /** One more step extends the iterates and their loads. */
  lemma {:induction false} LoadsStep(step: seq<string> -> seq<string>, rows: seq<string>, loads: seq<int>,
                  current: seq<string>, next: seq<string>, l: int)
    requires current == Iterate(step, rows, |loads|) && loads == Loads(step, rows, |loads|)
    requires next == step(current) && l == NorthLoad(next)
    ensures next == Iterate(step, rows, |loads| + 1)
    ensures loads + [l] == Loads(step, rows, |loads| + 1)
  {
  }

  /** Whatever it reads is the load after some number of steps up to
      `cycles`, and without a pattern it is the load after exactly
      `cycles` steps. */
  lemma {:induction false} ReadLoadIsLoad(step: seq<string> -> seq<string>, rows: seq<string>, loads: seq<int>,
                       cycles: int, start: int, length: int)
    requires loads == Loads(step, rows, |loads|)
    requires length > 3 ==> 0 <= start && start + length <= |loads| <= cycles
    requires length <= 3 ==> |loads| == if cycles < 0 then 0 else cycles
    ensures ReadLoad(loads, cycles, start, length).None? <==> cycles <= 0
    ensures var r := ReadLoad(loads, cycles, start, length);
      r.Some? ==> exists k :: 1 <= k <= cycles && r.value == NorthLoad(Iterate(step, rows, k))
    ensures length <= 3 && cycles >= 1 ==>
      ReadLoad(loads, cycles, start, length) == Some(NorthLoad(Iterate(step, rows, cycles)))
  {
    var r := ReadLoad(loads, cycles, start, length);
    if length > 3 {
      var i := (cycles - start) % length + start - 1;
      var k := if i < 0 then |loads| - 1 else i;
      LoadsAt(step, rows, |loads|, k);
      assert r.value == NorthLoad(Iterate(step, rows, k + 1));
    } else if loads != [] {
      LoadsAt(step, rows, |loads|, |loads| - 1);
    }
  }

  /** The loop of `calculate_north_load_after_multiple_spin_cycles`: spins
      until `cycles` spins are done or the loads so far hold a repeating
      pattern longer than 3. Returns the final values of the source's
      `loads`, `start_index` and `pattern_length`. */
  method SpinUntilPattern(rows: seq<string>, cycles: int)
    returns (loads: seq<int>, startIndex: int, patternLength: int)
    ensures loads == Loads(Spin, rows, |loads|)
    ensures patternLength > 3 ==> RepeatsAt(loads, startIndex, patternLength) && |loads| <= cycles
    ensures patternLength <= 3 ==> |loads| == if cycles < 0 then 0 else cycles
  {
    var finalRows := rows;
    loads := [];
    var currentCycle := 0;
    patternLength, startIndex := -1, -1;
    while currentCycle < cycles && patternLength < 3
      invariant 0 <= currentCycle
      invariant patternLength == -1 || patternLength > 3
      invariant patternLength == -1 ==> |loads| == currentCycle && (currentCycle <= cycles || currentCycle == 0)
      invariant patternLength > 3 ==> |loads| == currentCycle + 1 && currentCycle < cycles
      invariant patternLength > 3 ==> RepeatsAt(loads, startIndex, patternLength)
      invariant finalRows == Iterate(Spin, rows, |loads|)
      invariant loads == Loads(Spin, rows, |loads|)
      decreases cycles - currentCycle + (if patternLength < 3 then 1 else 0)
    {
      finalRows, loads := SpinOnce(rows, finalRows, loads);
      var s, found := FindPattern(loads);
      if found > 3 {
        patternLength, startIndex := found, s;
      } else {
        currentCycle := currentCycle + 1;
      }
    }
  }

  /** One round of the spin loop: spin the platform once and record its
      load. */
  method SpinOnce(rows: seq<string>, current: seq<string>, loads: seq<int>)
    returns (next: seq<string>, extended: seq<int>)
    requires current == Iterate(Spin, rows, |loads|) && loads == Loads(Spin, rows, |loads|)
    ensures |extended| == |loads| + 1
    ensures next == Iterate(Spin, rows, |extended|) && extended == Loads(Spin, rows, |extended|)
  {
    next := SpinCycle(current);
    var l := CalculateNorthLoad(next);
    LoadsStep(Spin, rows, loads, current, next, l);
    extended := loads + [l];
  }

  /** `calculate_north_load_after_multiple_spin_cycles`: reads the load off
      the pattern found by the spin loop, or takes the last load. */
  method NorthLoadAfterSpins(rows: seq<string>, cycles: int) returns (load: Option<int>)
    ensures load.None? <==> cycles <= 0
    ensures load.Some? ==> exists k :: 1 <= k <= cycles && load.value == NorthLoad(Iterate(Spin, rows, k))
  {
    var loads, startIndex, patternLength := SpinUntilPattern(rows, cycles);
    load := ReadLoad(loads, cycles, startIndex, patternLength);
    ReadLoadIsLoad(Spin, rows, loads, cycles, startIndex, patternLength);
  }

  /** Part 1 is the load after one tilt north; part 2 the load after a
      billion spin cycles. */
  method SolveProblem(rows: seq<string>) returns (part1: int, part2: Option<int>)
    ensures part1 == NorthLoad(Vertical(rows, true))
    ensures part2.Some?
    ensures exists k :: 1 <= k <= 1000000000 && part2.value == NorthLoad(Iterate(Spin, rows, k))
  {
    var tilted := TiltNorth(rows);
    part1 := CalculateNorthLoad(tilted);
    part2 := NorthLoadAfterSpins(rows, 1000000000);
  }
}
