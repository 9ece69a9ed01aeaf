/** Day 15: an 8-bit string hash and a table of 256 boxes of labelled lenses.
    Each box maps a name to its focal length and its slot index; the indices
    of a box are kept dense (0..k-1) as lenses are inserted and removed. */
module Day15 {
  import opened Text
  import opened Sums

  /** The hash as a left fold over the characters:
      hash("") = 0 and hash(s + c) = ((hash(s) + ord(c)) * 17) mod 256. */
  function Hash(s: string): (r: int)
    ensures 0 <= r < 256
  {
    if s == [] then 0 else ((Hash(s[..|s| - 1]) + s[|s| - 1] as int) * 17) % 256
  }

  /** `apply_hash_algorithm`: the loop that updates `value` per character. */
  method ApplyHashAlgorithm(input: string) returns (value: int)
    ensures value == Hash(input)
    ensures 0 <= value < 256
  {
    value := 0;
    var i := 0;
    while i < |input|
      invariant 0 <= i <= |input|
      invariant value == Hash(input[..i])
    {
      assert input[..i + 1][..i] == input[..i];
      value := value + input[i] as int;
      value := value * 17;
      value := value % 256;
      i := i + 1;
    }
    assert input[..|input|] == input;
  }

  datatype Lens = Lens(focalLength: int, index: int)

  type Box = map<string, Lens>

  /** The table: box number to box. */
  type Boxes = map<int, Box>

  /** A parsed step: "name=n" or "name-". */
  datatype Step = Insert(name: string, focalLength: int) | Delete(name: string)

  /** Parsing a step as `move_lenses` does: text with an '=' is split on it
      and the focal length read with `int`; any other text loses its last
      character to give the name. `None` is the ValueError of `int`. */
  function ParseStep(step: string): (r: Option<Step>)
    ensures Find(step, "=", 0) == -1 ==> r == Some(Delete(if step == [] then [] else step[..|step| - 1]))
  {
    if Find(step, "=", 0) != -1 then
      var parts := Split(step, "=");
      var name := parts[0];
      if |parts| < 2 then None
      else match ParseInt(parts[1])
        case Some(n) => Some(Insert(name, n))
        case None => None
    else Some(Delete(if step == [] then [] else step[..|step| - 1]))
  }

  /** The box numbers below `n`. */
  function BoxNumbers(n: nat): (r: set<int>)
    ensures forall b :: b in r <==> 0 <= b < n
  {
    if n == 0 then {} else BoxNumbers(n - 1) + {n - 1}
  }

  /** The 256 empty boxes `move_lenses` starts from. */
  function EmptyBoxes(): (r: Boxes)
    ensures forall b :: b in r <==> 0 <= b < 256
    ensures forall b :: b in r ==> r[b] == map[]
  {
    map b | b in BoxNumbers(256) :: map[]
  }

  /** Every box's indices are exactly 0..k-1, each used once. */
  predicate DenseIndices(box: Box)
  {
    && (forall l :: l in box ==> 0 <= box[l].index < |box|)
    && (forall l1, l2 :: l1 in box && l2 in box && l1 != l2 ==> box[l1].index != box[l2].index)
  }

  /** The table invariant: exactly boxes 0..255, every lens in the box its
      name hashes to, and dense indices in every box. */
  ghost predicate ValidBoxes(boxes: Boxes)
  {
    && (forall b :: b in boxes <==> 0 <= b < 256)
    && (forall b, l :: b in boxes && l in boxes[b] ==> Hash(l) == b)
    && (forall b :: b in boxes ==> DenseIndices(boxes[b]))
  }

  /** An index after the lens at `removed` leaves the box. */
  function Shifted(lens: Lens, removed: int): Lens
  {
    if lens.index > removed then lens.(index := lens.index - 1) else lens
  }

  /** One step on the table. */
  function ApplyStep(boxes: Boxes, step: Step): Boxes
    requires ValidBoxes(boxes)
  {
    var b := Hash(step.name);
    var box := boxes[b];
    match step
    case Insert(name, f) =>
      if name in box then boxes[b := box[name := Lens(f, box[name].index)]]
      else boxes[b := box[name := Lens(f, |box|)]]
    case Delete(name) =>
      if name in box then
        var removed := box[name].index;
        boxes[b := map l | l in box && l != name :: Shifted(box[l], removed)]
      else boxes
  }

  lemma {:induction false} InsertKeepsDense(box: Box, name: string, f: int)
    requires DenseIndices(box)
    ensures name in box ==> DenseIndices(box[name := Lens(f, box[name].index)])
    ensures name !in box ==> DenseIndices(box[name := Lens(f, |box|)])
  {
    if name !in box {
      assert |box[name := Lens(f, |box|)]| == |box| + 1;
    } else {
      assert |box[name := Lens(f, box[name].index)]| == |box|;
    }
  }

  lemma {:induction false} DeleteKeepsDense(box: Box, name: string)
    requires DenseIndices(box) && name in box
    ensures DenseIndices(map l | l in box && l != name :: Shifted(box[l], box[name].index))
  {
    var removed := box[name].index;
    var nb := map l | l in box && l != name :: Shifted(box[l], removed);
    assert nb.Keys == box.Keys - {name};
    assert |nb| == |box| - 1;
    forall l | l in nb ensures 0 <= nb[l].index < |nb| {
      assert box[l].index != removed;
    }
  }

  /** Every step keeps the table invariant. */
  lemma {:induction false} ApplyStepValid(boxes: Boxes, step: Step)
    requires ValidBoxes(boxes)
    ensures ValidBoxes(ApplyStep(boxes, step))
  {
    var b := Hash(step.name);
    var box := boxes[b];
    match step
    case Insert(name, f) =>
      InsertKeepsDense(box, name, f);
    case Delete(name) =>
      if name in box {
        DeleteKeepsDense(box, name);
      }
  }

  /** What an "L=n" step does: L's focal length becomes n; an existing L keeps
      its index, a new one takes the box's previous lens count; no other lens
      and no other box changes. */
  lemma {:induction false} InsertEffect(boxes: Boxes, name: string, f: int)
    requires ValidBoxes(boxes)
    ensures var after := ApplyStep(boxes, Insert(name, f));
      var b := Hash(name);
      && after.Keys == boxes.Keys
      && name in after[b]
      && after[b][name].focalLength == f
      && after[b][name].index == (if name in boxes[b] then boxes[b][name].index else |boxes[b]|)
      && (forall l :: l in boxes[b] && l != name ==> l in after[b] && after[b][l] == boxes[b][l])
      && after[b].Keys == boxes[b].Keys + {name}
      && (forall c :: c in boxes && c != b ==> after[c] == boxes[c])
  {
  }

  /** What an "L-" step does: L leaves its box, every lens of that box with a
      larger index moves down by one, and no other box changes; an absent L
      changes nothing. */
  lemma {:induction false} DeleteEffect(boxes: Boxes, name: string)
    requires ValidBoxes(boxes)
    ensures var after := ApplyStep(boxes, Delete(name));
      var b := Hash(name);
      && (name !in boxes[b] ==> after == boxes)
      && (name in boxes[b] ==>
            && after[b].Keys == boxes[b].Keys - {name}
            && (forall l :: l in after[b] ==>
                  after[b][l].focalLength == boxes[b][l].focalLength &&
                  after[b][l].index ==
                    (if boxes[b][l].index > boxes[b][name].index then boxes[b][l].index - 1 else boxes[b][l].index))
            && (forall c :: c in boxes && c != b ==> after[c] == boxes[c]))
  {
  }

  /** The whole sequence of steps, from the empty table. */
  function ApplySteps(boxes: Boxes, steps: seq<Step>): (r: Boxes)
    requires ValidBoxes(boxes)
    ensures ValidBoxes(r)
    decreases |steps|
  {
    if steps == [] then boxes
    else
      ApplyStepValid(boxes, steps[0]);
      ApplySteps(ApplyStep(boxes, steps[0]), steps[1..])
  }

  lemma {:induction false} EmptyBoxesValid()
    ensures ValidBoxes(EmptyBoxes())
  {
  }

  /** The decrement loop of a removal: every lens whose index is above the
      removed one moves down by one. */
  method ShiftIndicesAbove(box: Box, removed: int) returns (shifted: Box)
    ensures shifted == map l | l in box :: Shifted(box[l], removed)
  {
    shifted := box;
    var remaining := box.Keys;
    while remaining != {}
      invariant remaining <= box.Keys
      invariant shifted.Keys == box.Keys
      invariant forall l :: l in box ==> shifted[l] == if l in remaining then box[l] else Shifted(box[l], removed)
      decreases remaining
    {
      var other :| other in remaining;
      if shifted[other].index > removed {
        shifted := shifted[other := shifted[other].(index := shifted[other].index - 1)];
      }
      remaining := remaining - {other};
    }
  }

  /** The first loop of `move_lenses`: box numbers 0..255, each empty. */
  method NewBoxes() returns (boxes: Boxes)
    ensures boxes == EmptyBoxes()
  {
    boxes := map[];
    var boxNumber := 0;
    while boxNumber < 256
      invariant 0 <= boxNumber <= 256
      invariant forall b :: b in boxes <==> 0 <= b < boxNumber
      invariant forall b :: b in boxes ==> boxes[b] == map[]
    {
      boxes := boxes[boxNumber := map[]];
      boxNumber := boxNumber + 1;
    }
  }

  /** The body of the step loop of `move_lenses`, on a parsed step. */
  method MoveLens(boxes: Boxes, step: Step) returns (after: Boxes)
    requires ValidBoxes(boxes)
    ensures after == ApplyStep(boxes, step)
    ensures ValidBoxes(after)
  {
    ApplyStepValid(boxes, step);
    var correctBox := ApplyHashAlgorithm(step.name);
    var box := boxes[correctBox];
    match step {
      case Insert(name, focalLength) =>
        if name in box {
          after := boxes[correctBox := box[name := Lens(focalLength, box[name].index)]];
        } else {
          after := boxes[correctBox := box[name := Lens(focalLength, |box|)]];
        }
      case Delete(name) =>
        if name in box {
          var currentIndex := box[name].index;
          var shifted := ShiftIndicesAbove(box, currentIndex);
          after := boxes[correctBox := map l | l in shifted && l != name :: shifted[l]];
          assert after[correctBox] == map l | l in box && l != name :: Shifted(box[l], currentIndex);
        } else {
          after := boxes;
        }
    }
  }

  /** Parsing every step; `None` when one of them does not parse. */
  function ParseSteps(steps: seq<string>): (r: Option<seq<Step>>)
    ensures r.Some? ==> |r.value| == |steps|
    ensures r.Some? <==> forall k :: 0 <= k < |steps| ==> ParseStep(steps[k]).Some?
    ensures r.Some? ==> forall k :: 0 <= k < |steps| ==> ParseStep(steps[k]) == Some(r.value[k])
  {
    if steps == [] then Some([])
    else match (ParseStep(steps[0]), ParseSteps(steps[1..]))
      case (Some(st), Some(rest)) => Some([st] + rest)
      case (None, _) => None
      case (_, None) =>
        assert ParseStep(steps[1..][0]).None? || exists k :: 1 <= k < |steps| && ParseStep(steps[k]).None? by {
          var k :| 0 <= k < |steps[1..]| && ParseStep(steps[1..][k]).None?;
          assert steps[1..][k] == steps[k + 1];
        }
        None
  }

  lemma {:induction false} ParseStepsSnoc(steps: seq<string>, i: nat, parsed: seq<Step>, step: Step)
    requires i < |steps|
    requires ParseSteps(steps[..i]) == Some(parsed)
    requires ParseStep(steps[i]) == Some(step)
    ensures ParseSteps(steps[..i + 1]) == Some(parsed + [step])
  {
    assert forall k :: 0 <= k < i + 1 ==> steps[..i + 1][k] == steps[k];
    assert forall k :: 0 <= k < i ==> steps[..i][k] == steps[k];
    var r := ParseSteps(steps[..i + 1]);
    assert r.value == parsed + [step];
  }

  /** Applying one more step extends the run by that step. */
  lemma {:induction false} ApplyStepsSnoc(boxes: Boxes, steps: seq<Step>, step: Step)
    requires ValidBoxes(boxes)
    ensures ValidBoxes(ApplySteps(boxes, steps))
    ensures ApplySteps(boxes, steps + [step]) == ApplyStep(ApplySteps(boxes, steps), step)
    decreases |steps|
  {
    if steps != [] {
      ApplyStepValid(boxes, steps[0]);
      ApplyStepsSnoc(ApplyStep(boxes, steps[0]), steps[1..], step);
      assert (steps + [step])[1..] == steps[1..] + [step];
    } else {
      assert [step][1..] == [];
    }
  }

  lemma {:induction false} ParseStepFails(steps: seq<string>, i: nat)
    requires i < |steps| && ParseStep(steps[i]).None?
    ensures MoveLensesSpec(steps).None?
  {
    assert !ParseStep(steps[i]).Some?;
  }

  /** What `move_lenses` computes from the text of the steps: the final table,
      or `None` where a focal length is not a number. */
  function MoveLensesSpec(steps: seq<string>): (r: Option<Boxes>)
    ensures r.Some? ==> ValidBoxes(r.value)
  {
    EmptyBoxesValid();
    match ParseSteps(steps)
    case Some(parsed) => Some(ApplySteps(EmptyBoxes(), parsed))
    case None => None
  }

  /** `move_lenses`: each step is parsed and applied to the table in place. */
  method MoveLenses(steps: seq<string>) returns (result: Option<Boxes>)
    ensures result == MoveLensesSpec(steps)
  {
    var boxes := NewBoxes();
    EmptyBoxesValid();
    ghost var parsed: seq<Step> := [];
    var i := 0;
    while i < |steps|
      invariant 0 <= i <= |steps|
      invariant ValidBoxes(boxes)
      invariant ParseSteps(steps[..i]) == Some(parsed)
      invariant boxes == ApplySteps(EmptyBoxes(), parsed)
    {
      var step := ParseStep(steps[i]);
      if step.None? {
        ParseStepFails(steps, i);
        return None;
      }
      ApplyStepsSnoc(EmptyBoxes(), parsed, step.value);
      boxes := MoveLens(boxes, step.value);
      ParseStepsSnoc(steps, i, parsed, step.value);
      parsed := parsed + [step.value];
      i := i + 1;
    }
    assert steps[..i] == steps;
    return Some(boxes);
  }

  /** The focusing power of one lens in box `b`: box number plus one, times
      slot plus one, times focal length. */
  function LensPower(b: int, lens: Lens): int
  {
    (b + 1) * (lens.index + 1) * lens.focalLength
  }

  ghost function LensPowers(b: int, box: Box): map<string, int>
  {
    map l | l in box :: LensPower(b, box[l])
  }

  /** A box's focusing power: the sum over its lenses, in any order. */
  ghost function BoxPower(b: int, box: Box): int
  {
    SumValues(LensPowers(b, box))
  }

  ghost function BoxPowers(boxes: Boxes): map<int, int>
  {
    map b | b in boxes :: BoxPower(b, boxes[b])
  }

  /** The table's focusing power: the sum over its boxes, in any order. */
  ghost function TotalPower(boxes: Boxes): int
  {
    SumValues(BoxPowers(boxes))
  }

  lemma {:induction false} BoxPowerRemove(b: int, box: Box, l: string)
    requires l in box
    ensures BoxPower(b, box) == LensPower(b, box[l]) + BoxPower(b, box - {l})
  {
    SumValuesRemove(LensPowers(b, box), l);
    assert LensPowers(b, box) - {l} == LensPowers(b, box - {l});
  }

  lemma {:induction false} TotalPowerRemove(boxes: Boxes, b: int)
    requires b in boxes
    ensures TotalPower(boxes) == BoxPower(b, boxes[b]) + TotalPower(boxes - {b})
  {
    SumValuesRemove(BoxPowers(boxes), b);
    assert BoxPowers(boxes) - {b} == BoxPowers(boxes - {b});
  }

  /** The inner loop of `calculate_total_focusing_power`. */
  method CalculateBoxFocusingPower(b: int, lenses: Box) returns (power: int)
    ensures power == BoxPower(b, lenses)
  {
    power := 0;
    var todo := lenses;
    while todo != map[]
      invariant power + BoxPower(b, todo) == BoxPower(b, lenses)
      decreases todo.Keys
    {
      var l :| l in todo;
      BoxPowerRemove(b, todo, l);
      power := power + LensPower(b, todo[l]);
      todo := todo - {l};
    }
    SumValuesZero(LensPowers(b, todo));
  }

  /** `calculate_total_focusing_power`: the outer loop over the boxes. */
  method CalculateTotalFocusingPower(boxes: Boxes) returns (total: int)
    ensures total == TotalPower(boxes)
  {
    total := 0;
    var todo := boxes;
    while todo != map[]
      invariant total + TotalPower(todo) == TotalPower(boxes)
      decreases todo.Keys
    {
      var b :| b in todo;
      TotalPowerRemove(todo, b);
      var boxPower := CalculateBoxFocusingPower(b, todo[b]);
      total := total + boxPower;
      todo := todo - {b};
    }
    SumValuesZero(BoxPowers(todo));
  }

  /** The empty table has no focusing power. */
  lemma {:induction false} EmptyBoxesPower()
    ensures TotalPower(EmptyBoxes()) == 0
  {
    var powers := BoxPowers(EmptyBoxes());
    forall b | b in powers ensures powers[b] == 0 {
      SumValuesZero(LensPowers(b, map[]));
    }
    SumValuesZero(powers);
  }

  /** An "L=n" step changes the focusing power by the power of the new lens,
      less the power of the lens it replaces (same slot, old focal length). */
  lemma {:induction false} InsertPower(boxes: Boxes, name: string, f: int)
    requires ValidBoxes(boxes)
    ensures var b := Hash(name);
      var box := boxes[b];
      var slot := if name in box then box[name].index else |box|;
      TotalPower(ApplyStep(boxes, Insert(name, f))) ==
        TotalPower(boxes) + LensPower(b, Lens(f, slot)) - (if name in box then LensPower(b, box[name]) else 0)
  {
    var b := Hash(name);
    var box := boxes[b];
    var slot := if name in box then box[name].index else |box|;
    var newBox := box[name := Lens(f, slot)];
    assert ApplyStep(boxes, Insert(name, f)) == boxes[b := newBox];
    BoxPowerUpdate(b, box, name, Lens(f, slot));
    TotalPowerUpdate(boxes, b, newBox);
  }

  /** Putting a lens in a box adds its power, less that of the lens it
      replaces. */
  lemma BoxPowerUpdate(b: int, box: Box, name: string, lens: Lens)
    ensures BoxPower(b, box[name := lens]) ==
      BoxPower(b, box) + LensPower(b, lens) - (if name in box then LensPower(b, box[name]) else 0)
  {
    assert LensPowers(b, box[name := lens]) == LensPowers(b, box)[name := LensPower(b, lens)];
    SumValuesUpdate(LensPowers(b, box), name, LensPower(b, lens));
  }

  /** Replacing a box changes the total by the change of its power. */
  lemma TotalPowerUpdate(boxes: Boxes, b: int, box: Box)
    requires b in boxes
    ensures TotalPower(boxes[b := box]) == TotalPower(boxes) + BoxPower(b, box) - BoxPower(b, boxes[b])
  {
    assert BoxPowers(boxes[b := box]) == BoxPowers(boxes)[b := BoxPower(b, box)];
    SumValuesUpdate(BoxPowers(boxes), b, BoxPower(b, box));
  }

  /** Part 1: the sum of the hashes of the steps, as written. */
  method SumHashValues(steps: seq<string>) returns (sum: int)
    ensures sum == Sum(seq(|steps|, k requires 0 <= k < |steps| => Hash(steps[k])))
    ensures 0 <= sum <= 255 * |steps|
  {
    ghost var hashes := seq(|steps|, k requires 0 <= k < |steps| => Hash(steps[k]));
    sum := 0;
    var i := 0;
    while i < |steps|
      invariant 0 <= i <= |steps|
      invariant sum == Sum(hashes[..i])
      invariant 0 <= sum <= 255 * i
    {
      var h := ApplyHashAlgorithm(steps[i]);
      assert hashes[..i + 1] == hashes[..i] + [h];
      SumAppend(hashes[..i], [h]);
      sum := sum + h;
      i := i + 1;
    }
    assert hashes[..i] == hashes;
  }

  /** `solve_problem`: the steps are the comma-separated pieces of the input;
      part 1 sums their hashes, part 2 is the focusing power after all of
      them. `None` where a focal length does not parse. */
  method SolveProblem(data: string) returns (result: Option<(int, int)>)
    ensures var steps := Split(data, ",");
      match MoveLensesSpec(steps)
      case None => result == None
      case Some(boxes) =>
        (result.Some? && result.value.1 == TotalPower(boxes) &&
         result.value.0 == Sum(seq(|steps|, k requires 0 <= k < |steps| => Hash(steps[k]))))
  {
    var steps := Split(data, ",");
    var part1 := SumHashValues(steps);
    var finalBoxes := MoveLenses(steps);
    if finalBoxes.None? {
      return None;
    }
    var part2 := CalculateTotalFocusingPower(finalBoxes.value);
    return Some((part1, part2));
  }
}
