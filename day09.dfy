/** Day 9: extrapolating a history by repeated differences. The layers of a
    history are its values, their differences, the differences of those, and
    so on until a layer is all zero; the next value is the sum of the last
    elements of the layers, the previous value their alternating sum of first
    elements. */
module Day09 {
  import opened Text
  import opened Sums

  /** The successive differences of a layer. */
  function Differences(layer: seq<int>): (r: seq<int>)
    ensures |r| == if |layer| <= 1 then 0 else |layer| - 1
  {
    if |layer| <= 1 then [] else [layer[1] - layer[0]] + Differences(layer[1..])
  }

  /** Each difference is a later value minus the one before it. */
  lemma {:induction false} DifferencesAt(layer: seq<int>, i: nat)
    requires i < |Differences(layer)|
    ensures Differences(layer)[i] == layer[i + 1] - layer[i]
    decreases i
  {
    if i > 0 {
      DifferencesAt(layer[1..], i - 1);
    }
  }

  /** A final layer is all zeros (vacuously so when empty). */
  predicate IsFinal(layer: seq<int>)
  {
    forall i :: 0 <= i < |layer| ==> layer[i] == 0
  }

  /** The layers after `layer`, up to and including the first final one. */
  function LayersAfter(layer: seq<int>): (r: seq<seq<int>>)
    ensures |r| >= 1
    decreases |layer|
  {
    var d := Differences(layer);
    if IsFinal(d) then [d] else [d] + LayersAfter(d)
  }

  /** All layers of a history: its values, then the layers after them. */
  function AllLayers(values: seq<int>): seq<seq<int>>
  {
    [values] + LayersAfter(values)
  }

  /** The layers after `layer`: each is the differences of the one before;
      the last is final and none before it is. */
  lemma {:induction false} LayersAfterShape(layer: seq<int>)
    ensures var r := LayersAfter(layer);
      && r[0] == Differences(layer)
      && (forall i :: 0 <= i < |r| - 1 ==> r[i + 1] == Differences(r[i]))
      && IsFinal(r[|r| - 1])
      && (forall i :: 0 <= i < |r| - 1 ==> !IsFinal(r[i]))
    decreases |layer|
  {
    var d := Differences(layer);
    if !IsFinal(d) {
      LayersAfterShape(d);
      var r := LayersAfter(layer);
      var t := LayersAfter(d);
      assert r == [d] + t;
      assert t[0] == Differences(d);
      forall i | 0 <= i < |r| - 1 ensures r[i + 1] == Differences(r[i]) {
        if i > 0 {
          assert r[i + 1] == t[i] && r[i] == t[i - 1];
        }
      }
      forall i | 0 <= i < |r| - 1 ensures !IsFinal(r[i]) {
        if i > 0 {
          assert r[i] == t[i - 1];
        }
      }
      assert r[|r| - 1] == t[|t| - 1];
    }
  }

  /** `generate_all_layers`: the layers start with the values, each later
      layer is the differences of the one before, the last layer is all zero
      and no layer strictly between the first and the last is. */
  lemma {:induction false} AllLayersShape(values: seq<int>)
    ensures var r := AllLayers(values);
      && |r| >= 2
      && r[0] == values
      && (forall i :: 0 <= i < |r| - 1 ==> r[i + 1] == Differences(r[i]))
      && IsFinal(r[|r| - 1])
      && (forall i :: 0 < i < |r| - 1 ==> !IsFinal(r[i]))
  {
    LayersAfterShape(values);
    var r := AllLayers(values);
    assert r[1..] == LayersAfter(values);
  }

  /** `calculate_differences_at_layer`. */
  method CalculateDifferencesAtLayer(layer: seq<int>) returns (differences: seq<int>)
    ensures differences == Differences(layer)
  {
    differences := [];
    var index := 0;
    while index < |layer| - 1
      invariant 0 <= index <= if |layer| <= 1 then 0 else |layer| - 1
      invariant |differences| == index
      invariant forall i :: 0 <= i < index ==> differences[i] == layer[i + 1] - layer[i]
    {
      differences := differences + [layer[index + 1] - layer[index]];
      index := index + 1;
    }
    var d := Differences(layer);
    assert |d| == |differences|;
    forall i | 0 <= i < |d| ensures differences[i] == d[i] {
      DifferencesAt(layer, i);
    }
  }

  /** `check_if_final_layer`: counts the zeros and compares with the length. */
  method CheckIfFinalLayer(layer: seq<int>) returns (isFinal: bool)
    ensures isFinal <==> IsFinal(layer)
  {
    var zeroes := 0;
    var i := 0;
    while i < |layer|
      invariant 0 <= i <= |layer|
      invariant 0 <= zeroes <= i
      invariant zeroes == i <==> IsFinal(layer[..i])
    {
      if layer[i] == 0 {
        zeroes := zeroes + 1;
      }
      i := i + 1;
    }
    assert layer[..i] == layer;
    isFinal := zeroes == |layer|;
  }

  /** `generate_all_layers`: append differences until a final layer. */
  method GenerateAllLayers(values: seq<int>) returns (layers: seq<seq<int>>)
    ensures layers == AllLayers(values)
  {
    layers := [values];
    var isFinal := false;
    while !isFinal
      invariant |layers| >= 1
      invariant !isFinal ==> AllLayers(values) == layers + LayersAfter(layers[|layers| - 1])
      invariant isFinal ==> AllLayers(values) == layers
      decreases if isFinal then 0 else |layers[|layers| - 1]| + 1
    {
      var last := layers[|layers| - 1];
      var d;
      d, isFinal := NextLayer(last);
      layers := layers + [d];
    }
  }

  /** One round of `generate_all_layers`: the next layer and whether it is
      the final one. */
  method NextLayer(last: seq<int>) returns (d: seq<int>, isFinal: bool)
    ensures d == Differences(last) && |d| < |last| + 1
    ensures isFinal <==> IsFinal(d)
    ensures isFinal ==> LayersAfter(last) == [d]
    ensures !isFinal ==> LayersAfter(last) == [d] + LayersAfter(d)
  {
    d := CalculateDifferencesAtLayer(last);
    isFinal := CheckIfFinalLayer(d);
  }

  /** The next value extrapolated from layers: the sum of their last
      elements. */
  function NextFrom(layers: seq<seq<int>>): int
    requires forall i :: 0 <= i < |layers| ==> |layers[i]| > 0
  {
    if layers == [] then 0 else layers[0][|layers[0]| - 1] + NextFrom(layers[1..])
  }

  /** The previous value extrapolated from layers: the alternating sum of
      their first elements. */
  function PreviousFrom(layers: seq<seq<int>>): int
    requires forall i :: 0 <= i < |layers| ==> |layers[i]| > 0
  {
    if layers == [] then 0 else layers[0][0] - PreviousFrom(layers[1..])
  }

  predicate NoEmptyLayer(layers: seq<seq<int>>)
  {
    forall i :: 0 <= i < |layers| ==> |layers[i]| > 0
  }

  /** `predict_next_value`: `None` is the IndexError of `layer[-1]` on an
      empty layer. */
  function PredictNext(layers: seq<seq<int>>): Option<int>
  {
    if NoEmptyLayer(layers) then Some(NextFrom(layers)) else None
  }

  /** `predict_previous_value`: `None` is the IndexError of `layer[0]` on an
      empty layer. */
  function PredictPrevious(layers: seq<seq<int>>): Option<int>
  {
    if NoEmptyLayer(layers) then Some(PreviousFrom(layers)) else None
  }

  /** `(-1) ** i`. */
  function Sign(i: nat): (r: int)
    ensures r == 1 || r == -1
  {
    if i == 0 then 1 else -Sign(i - 1)
  }

  /** The loop of `predict_next_value`. */
  method PredictNextValue(layers: seq<seq<int>>) returns (prediction: Option<int>)
    ensures prediction == PredictNext(layers)
  {
    var sum := 0;
    var i := 0;
    while i < |layers|
      invariant 0 <= i <= |layers|
      invariant NoEmptyLayer(layers[..i])
      invariant NoEmptyLayer(layers) ==> sum + NextFrom(layers[i..]) == NextFrom(layers)
    {
      if |layers[i]| == 0 {
        return None;
      }
      sum := sum + layers[i][|layers[i]| - 1];
      assert layers[i..][1..] == layers[i + 1..];
      assert layers[..i + 1] == layers[..i] + [layers[i]];
      i := i + 1;
    }
    assert layers[..i] == layers;
    return Some(sum);
  }

  /** The loop of `predict_previous_value`: adds `layers[i][0] * (-1) ** i`. */
  method PredictPreviousValue(layers: seq<seq<int>>) returns (prediction: Option<int>)
    ensures prediction == PredictPrevious(layers)
  {
    var sum := 0;
    var i := 0;
    while i < |layers|
      invariant 0 <= i <= |layers|
      invariant NoEmptyLayer(layers[..i])
      invariant NoEmptyLayer(layers) ==> sum + Sign(i) * PreviousFrom(layers[i..]) == PreviousFrom(layers)
    {
      if |layers[i]| == 0 {
        return None;
      }
      sum := sum + layers[i][0] * Sign(i);
      assert layers[i..][1..] == layers[i + 1..];
      assert layers[..i + 1] == layers[..i] + [layers[i]];
      i := i + 1;
    }
    assert layers[..i] == layers;
    return Some(sum);
  }

  lemma {:induction false} DifferencesSnoc(s: seq<int>, x: int)
    requires |s| > 0
    ensures Differences(s + [x]) == Differences(s) + [x - s[|s| - 1]]
    decreases |s|
  {
    var t := s + [x];
    if |s| == 1 {
      assert t == [s[0], x];
      assert t[1..] == [x];
    } else {
      assert t[0] == s[0] && t[1] == s[1];
      assert t[1..] == s[1..] + [x];
      DifferencesSnoc(s[1..], x);
      calc {
        Differences(t);
        [t[1] - t[0]] + Differences(t[1..]);
        [s[1] - s[0]] + (Differences(s[1..]) + [x - s[|s| - 1]]);
        ([s[1] - s[0]] + Differences(s[1..])) + [x - s[|s| - 1]];
        Differences(s) + [x - s[|s| - 1]];
      }
    }
  }

  lemma {:induction false} DifferencesCons(x: int, s: seq<int>)
    requires |s| > 0
    ensures Differences([x] + s) == [s[0] - x] + Differences(s)
  {
    assert ([x] + s)[1..] == s;
  }

  /** What the prediction means: extending every layer with its own
      predicted next value keeps each layer the differences of the one
      before, and the final layer all zero. */
  lemma {:induction false} NextExtendsLayers(values: seq<int>, i: nat)
    requires NoEmptyLayer(AllLayers(values))
    requires i < |AllLayers(values)|
    ensures var r := AllLayers(values);
      i < |r| - 1 ==>
        Differences(r[i] + [NextFrom(r[i..])]) == r[i + 1] + [NextFrom(r[i + 1..])]
    ensures var r := AllLayers(values);
      i == |r| - 1 ==> IsFinal(r[i] + [NextFrom(r[i..])])
  {
    var r := AllLayers(values);
    AllLayersShape(values);
    assert r[i..][1..] == r[i + 1..];
    DifferencesSnoc(r[i], NextFrom(r[i..]));
    if i == |r| - 1 {
      assert r[i + 1..] == [];
    }
  }

  /** The same for the previous value, extending every layer at its front. */
  lemma {:induction false} PreviousExtendsLayers(values: seq<int>, i: nat)
    requires NoEmptyLayer(AllLayers(values))
    requires i < |AllLayers(values)|
    ensures var r := AllLayers(values);
      i < |r| - 1 ==>
        Differences([PreviousFrom(r[i..])] + r[i]) == [PreviousFrom(r[i + 1..])] + r[i + 1]
    ensures var r := AllLayers(values);
      i == |r| - 1 ==> IsFinal([PreviousFrom(r[i..])] + r[i])
  {
    var r := AllLayers(values);
    AllLayersShape(values);
    assert r[i..][1..] == r[i + 1..];
    DifferencesCons(PreviousFrom(r[i..]), r[i]);
    if i == |r| - 1 {
      assert r[i + 1..] == [];
    }
  }

  /** A single value always ends in an empty layer, so neither prediction
      exists for it. */
  lemma {:induction false} SingleValueFails(v: int)
    ensures PredictNext(AllLayers([v])).None?
    ensures PredictPrevious(AllLayers([v])).None?
  {
    assert AllLayers([v]) == [[v], []];
    assert !NoEmptyLayer(AllLayers([v])) by {
      assert |AllLayers([v])[1]| == 0;
    }
  }

  datatype History = History(values: seq<int>, layers: seq<seq<int>>, predictedNext: int, predictedPrevious: int)

  /** `History.__init__`: values from the space-separated summary, then the
      layers and both predictions. `None` where a value does not parse or a
      prediction indexes an empty layer. */
  function HistoryOf(summary: string): Option<History>
  {
    match ParseInts(Split(summary, " "))
    case None => None
    case Some(values) =>
      var layers := AllLayers(values);
      if NoEmptyLayer(layers) then
        Some(History(values, layers, NextFrom(layers), PreviousFrom(layers)))
      else None
  }

  /** `History.__init__`, step by step. */
  method NewHistory(summary: string) returns (history: Option<History>)
    ensures history == HistoryOf(summary)
    ensures history.Some? ==>
      && history.value.layers == AllLayers(history.value.values)
      && Some(history.value.predictedNext) == PredictNext(history.value.layers)
      && Some(history.value.predictedPrevious) == PredictPrevious(history.value.layers)
  {
    var values := ParseInts(Split(summary, " "));
    if values.None? {
      return None;
    }
    var layers := GenerateAllLayers(values.value);
    var next := PredictNextValue(layers);
    if next.None? {
      return None;
    }
    var previous := PredictPreviousValue(layers);
    if previous.None? {
      return None;
    }
    return Some(History(values.value, layers, next.value, previous.value));
  }

  function NextValues(histories: seq<History>): seq<int>
  {
    seq(|histories|, k requires 0 <= k < |histories| => histories[k].predictedNext)
  }

  function PreviousValues(histories: seq<History>): seq<int>
  {
    seq(|histories|, k requires 0 <= k < |histories| => histories[k].predictedPrevious)
  }

  /** `Report.determine_histories`: one history per line. */
  method DetermineHistories(lines: seq<string>) returns (histories: Option<seq<History>>)
    ensures histories.Some? <==> forall k :: 0 <= k < |lines| ==> HistoryOf(lines[k]).Some?
    ensures histories.Some? ==> |histories.value| == |lines|
    ensures histories.Some? ==> forall k :: 0 <= k < |lines| ==> HistoryOf(lines[k]) == Some(histories.value[k])
  {
    var result: seq<History> := [];
    var i := 0;
    while i < |lines|
      invariant 0 <= i <= |lines|
      invariant |result| == i
      invariant forall k :: 0 <= k < i ==> HistoryOf(lines[k]) == Some(result[k])
    {
      var history := NewHistory(lines[i]);
      if history.None? {
        return None;
      }
      result := result + [history.value];
      i := i + 1;
    }
    return Some(result);
  }

  /** `sum_extrapolated_next_values`. */
  method SumExtrapolatedNextValues(histories: seq<History>) returns (total: int)
    ensures total == Sum(NextValues(histories))
  {
    total := 0;
    var i := 0;
    while i < |histories|
      invariant 0 <= i <= |histories|
      invariant total == Sum(NextValues(histories)[..i])
    {
      assert NextValues(histories)[..i + 1] == NextValues(histories)[..i] + [histories[i].predictedNext];
      SumAppend(NextValues(histories)[..i], [histories[i].predictedNext]);
      total := total + histories[i].predictedNext;
      i := i + 1;
    }
    assert NextValues(histories)[..i] == NextValues(histories);
  }

  /** `sum_extrapolated_previous_values`. */
  method SumExtrapolatedPreviousValues(histories: seq<History>) returns (total: int)
    ensures total == Sum(PreviousValues(histories))
  {
    total := 0;
    var i := 0;
    while i < |histories|
      invariant 0 <= i <= |histories|
      invariant total == Sum(PreviousValues(histories)[..i])
    {
      assert PreviousValues(histories)[..i + 1] == PreviousValues(histories)[..i] + [histories[i].predictedPrevious];
      SumAppend(PreviousValues(histories)[..i], [histories[i].predictedPrevious]);
      total := total + histories[i].predictedPrevious;
      i := i + 1;
    }
    assert PreviousValues(histories)[..i] == PreviousValues(histories);
  }

  /** The histories of lines that all parse. */
  function Histories(lines: seq<string>): seq<History>
    requires forall k :: 0 <= k < |lines| ==> HistoryOf(lines[k]).Some?
  {
    seq(|lines|, k requires 0 <= k < |lines| => HistoryOf(lines[k]).value)
  }

  /** Both parts: the sums of the extrapolated next and previous values of
      all histories; `None` when some line has no history. */
  method SolveProblem(lines: seq<string>) returns (answers: Option<(int, int)>)
    ensures answers.Some? <==> forall k :: 0 <= k < |lines| ==> HistoryOf(lines[k]).Some?
    ensures answers.Some? ==>
      answers.value == (Sum(NextValues(Histories(lines))), Sum(PreviousValues(Histories(lines))))
  {
    var histories := DetermineHistories(lines);
    if histories.None? {
      return None;
    }
    assert histories.value == Histories(lines);
    var part1 := SumExtrapolatedNextValues(histories.value);
    var part2 := SumExtrapolatedPreviousValues(histories.value);
    return Some((part1, part2));
  }
}
