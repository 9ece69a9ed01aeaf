/** Day 5: the almanac. Each map ("seed-to-soil", ...) is a list of
    conversions; a conversion shifts every value in its range
    `[minimum, maximum]` by its increment, and a value no conversion covers
    is kept. A seed's location is found by applying seven maps in turn. */
module Day05 {
  import opened Text

  datatype Conversion = Conversion(minimum: int, maximum: int, increment: int)

  datatype TypeConversions = TypeConversions(source: string, destination: string, conversions: seq<Conversion>)

  datatype Almanac = Almanac(seeds: seq<int>, typeConversions: map<string, TypeConversions>)

  // ---------------------------------------------------------------------
  // Conversions

  /** `Conversion.__init__`: "destination source length". */
  function ParseConversion(description: string): Option<Conversion>
  {
    var elements := Split(description, " ");
    if |elements| < 3 then None
    else match (ParseInt(elements[0]), ParseInt(elements[1]), ParseInt(elements[2]))
      case (Some(destination), Some(source), Some(length)) =>
        Some(Conversion(source, source + length - 1, (source - destination) * -1))
      case _ => None
  }

  predicate Covers(c: Conversion, input: int)
  {
    input >= c.minimum && input <= c.maximum
  }

  /** A parsed conversion covers exactly the `length` values from the source
      start and sends them, in order, onto the values from the destination
      start. */
  lemma {:induction false} ParseConversionMeaning(description: string, destination: int, source: int, length: int)
    requires var elements := Split(description, " ");
      |elements| >= 3 && ParseInt(elements[0]) == Some(destination) &&
      ParseInt(elements[1]) == Some(source) && ParseInt(elements[2]) == Some(length)
    ensures ParseConversion(description).Some?
    ensures forall x :: Covers(ParseConversion(description).value, x) <==> source <= x < source + length
    ensures forall x :: Covers(ParseConversion(description).value, x) ==>
      x + ParseConversion(description).value.increment == destination + (x - source)
  {
  }

  predicate SortedByMinimum(cs: seq<Conversion>)
  {
    forall i, j :: 0 <= i < j < |cs| ==> cs[i].minimum <= cs[j].minimum
  }

  /** Inserts `c` before the first conversion whose minimum is not below
      its own, so that earlier conversions stay ahead of later ones with the
      same minimum. */
  function InsertByMinimum(c: Conversion, sorted: seq<Conversion>): (r: seq<Conversion>)
    requires SortedByMinimum(sorted)
    ensures SortedByMinimum(r)
    ensures multiset(r) == multiset(sorted) + multiset{c}
    ensures forall x :: x in r ==> x == c || x in sorted
  {
    if sorted == [] then [c]
    else if sorted[0].minimum >= c.minimum then [c] + sorted
    else
      var rest := InsertByMinimum(c, sorted[1..]);
      HeadFirst(c, sorted, rest);
      assert sorted == [sorted[0]] + sorted[1..];
      [sorted[0]] + rest
  }

  /** The head of a sorted list, below `c`, is not above anything drawn
      from `c` and the rest of the list. */
  lemma HeadFirst(c: Conversion, sorted: seq<Conversion>, rest: seq<Conversion>)
    requires SortedByMinimum(sorted) && sorted != [] && sorted[0].minimum < c.minimum
    requires forall x :: x in rest ==> x == c || x in sorted[1..]
    ensures forall x :: x in rest ==> sorted[0].minimum <= x.minimum
  {
    forall x | x in rest ensures sorted[0].minimum <= x.minimum {
      if x != c {
        var k :| 1 <= k < |sorted| && sorted[k] == x;
      }
    }
  }

  /** `sorted(conversions, key=minimum)`: a stable sort by minimum. */
  function SortByMinimum(cs: seq<Conversion>): (r: seq<Conversion>)
    ensures SortedByMinimum(r)
    ensures multiset(r) == multiset(cs)
  {
    if cs == [] then []
    else
      assert cs == [cs[0]] + cs[1..];
      InsertByMinimum(cs[0], SortByMinimum(cs[1..]))
  }

  /** The conversions of a map, one per line, sorted by minimum. */
  function ParseConversions(lines: seq<string>): (r: Option<seq<Conversion>>)
    ensures r.Some? ==> |r.value| == |lines|
  {
    if lines == [] then Some([])
    else match (ParseConversion(lines[0]), ParseConversions(lines[1..]))
      case (Some(c), Some(cs)) => Some([c] + cs)
      case _ => None
  }

  /** `TypeConversions.__init__`: a header "a-to-b map:", then the
      conversion lines; the conversions are kept sorted by minimum. */
  function ParseTypeConversions(description: string): (r: Option<TypeConversions>)
    ensures r.Some? ==> SortedByMinimum(r.value.conversions)
  {
    var elements := Split(description, ":\n");
    var names := Split(Split(elements[0], " ")[0], "-to-");
    if |elements| < 2 || |names| < 2 then None
    else match ParseConversions(Split(elements[1], "\n"))
      case None => None
      case Some(cs) => Some(TypeConversions(names[0], names[1], SortByMinimum(cs)))
  }

  // ---------------------------------------------------------------------
  // Converting one value

  /** The last conversion covering `input`, if any. */
  function LastCovering(cs: seq<Conversion>, input: int): (r: Option<Conversion>)
    ensures r.Some? ==> r.value in cs && Covers(r.value, input)
    ensures r.None? <==> forall k :: 0 <= k < |cs| ==> !Covers(cs[k], input)
  {
    if cs == [] then None
    else if Covers(cs[|cs| - 1], input) then Some(cs[|cs| - 1])
    else
      var r := LastCovering(cs[..|cs| - 1], input);
      assert forall k :: 0 <= k < |cs| - 1 ==> cs[..|cs| - 1][k] == cs[k];
      r
  }

  /** The value the scan over the conversions leaves in `result`: the
      shifted input for the last covering conversion, or the starting 0. */
  function Scan(cs: seq<Conversion>, input: int): int
  {
    if cs == [] then 0
    else if Covers(cs[|cs| - 1], input) then input + cs[|cs| - 1].increment
    else Scan(cs[..|cs| - 1], input)
  }

  /** `convert_value` as written: a scan result of 0 stands for "no
      conversion", so a value shifted exactly to 0 comes back unchanged. */
  function Convert(cs: seq<Conversion>, input: int): int
  {
    var r := Scan(cs, input);
    if r == 0 then input else r
  }

  lemma {:induction false} ScanIsLastCovering(cs: seq<Conversion>, input: int)
    ensures Scan(cs, input) == match LastCovering(cs, input)
      case None => 0
      case Some(c) => input + c.increment
  {
    if cs != [] && !Covers(cs[|cs| - 1], input) {
      ScanIsLastCovering(cs[..|cs| - 1], input);
    }
  }

  /** `convert_value`: the outer while loop runs the inner for loop once,
      which counts every conversion, so it stops after one pass. `passes`
      counts the outer loop's iterations. */
  method ConvertValue(conversions: seq<Conversion>, input: int) returns (result: int, ghost passes: nat)
    ensures result == Convert(conversions, input)
    ensures passes == if |conversions| == 0 then 0 else 1
  {
    result := 0;
    passes := 0;
    var searchedConversions := 0;
    while searchedConversions < |conversions|
      invariant searchedConversions == 0 || searchedConversions == |conversions|
      invariant passes == if searchedConversions == 0 then 0 else 1
      invariant result == if searchedConversions == 0 then 0 else Scan(conversions, input)
      decreases |conversions| - searchedConversions
    {
      var i := 0;
      while i < |conversions|
        invariant 0 <= i <= |conversions|
        invariant searchedConversions == i
        invariant result == Scan(conversions[..i], input)
      {
        assert conversions[..i + 1][..i] == conversions[..i];
        if input >= conversions[i].minimum && input <= conversions[i].maximum {
          result := input + conversions[i].increment;
        }
        searchedConversions := searchedConversions + 1;
        i := i + 1;
      }
      assert conversions[..i] == conversions;
      passes := passes + 1;
    }
    if result == 0 {
      result := input;
    }
  }

  /** A value no conversion covers is kept; otherwise it is shifted by the
      last covering conversion's increment, unless that gives exactly 0. */
  lemma {:induction false} ConvertMeaning(cs: seq<Conversion>, input: int)
    ensures (forall k :: 0 <= k < |cs| ==> !Covers(cs[k], input)) ==> Convert(cs, input) == input
    ensures LastCovering(cs, input).Some? && input + LastCovering(cs, input).value.increment != 0 ==>
      Convert(cs, input) == input + LastCovering(cs, input).value.increment
  {
    ScanIsLastCovering(cs, input);
  }

  /** As written, a value the conversions send to 0 is kept: the
      conversion "0 5 10" maps 5 to 0, yet 5 comes back. */
  lemma {:induction false} ShiftToZeroKept()
    ensures ParseConversion("0 5 10") == Some(Conversion(5, 14, -5))
    ensures Convert([Conversion(5, 14, -5)], 5) == 5
    ensures Converted([Conversion(5, 14, -5)], 5) == 0
  {
    ExampleParses();
    var cs := [Conversion(5, 14, -5)];
    assert Scan(cs, 5) == 0;
    assert LastCovering(cs, 5) == Some(cs[0]);
  }

  lemma {:induction false} ExampleParses()
    ensures ParseConversion("0 5 10") == Some(Conversion(5, 14, -5))
  {
    ExampleSplits();
    ExampleNumbers();
  }

  lemma {:induction false} ExampleSplits()
    ensures Split("0 5 10", " ") == ["0", "5", "10"]
  {
    var pieces := ["0", "5", "10"];
    assert Join(pieces, " ") == "0 5 10";
    JoinSplit(pieces, ' ');
  }

  lemma {:induction false} ExampleNumbers()
    ensures ParseInt("0") == Some(0) && ParseInt("5") == Some(5) && ParseInt("10") == Some(10)
  {
    assert DigitsValue("10") == 10 by {
      assert "10"[..1] == "1";
    }
  }

  /** The intended conversion: the last covering conversion's shift, or
      the value itself when none covers it. */
  function Converted(cs: seq<Conversion>, input: int): (r: int)
    ensures (forall k :: 0 <= k < |cs| ==> !Covers(cs[k], input)) ==> r == input
    ensures LastCovering(cs, input).Some? ==> r == input + LastCovering(cs, input).value.increment
  {
    match LastCovering(cs, input)
    case None => input
    case Some(c) => input + c.increment
  }

  /** Each value the conversions cover lands in the image of a covering
      conversion: it is shifted by the increment of one whose range holds
      it, and by no other amount. The written conversion differs from it
      only on values shifted to 0. */
  lemma {:induction false} ConvertedAgrees(cs: seq<Conversion>, input: int)
    ensures Converted(cs, input) == input ||
      exists k :: 0 <= k < |cs| && Covers(cs[k], input) && Converted(cs, input) == input + cs[k].increment
    ensures Convert(cs, input) != Converted(cs, input) ==> Converted(cs, input) == 0 && Convert(cs, input) == input
  {
    ScanIsLastCovering(cs, input);
    var l := LastCovering(cs, input);
    if l.Some? {
      var k :| 0 <= k < |cs| && cs[k] == l.value;
    }
  }

  // ---------------------------------------------------------------------
  // The almanac

  /** `determine_seeds`: the integers after ": ", separated by single
      spaces. */
  function ParseSeeds(description: string): Option<seq<int>>
  {
    var sections := Split(description, ": ");
    if |sections| < 2 then None else ParseInts(Split(sections[1], " "))
  }

  /** `determine_type_conversions`: each map keyed by its source; a later
      map with the same source replaces an earlier one. */
  function ParseTypeConversionsList(elements: seq<string>): (r: Option<map<string, TypeConversions>>)
    ensures r.Some? ==> forall key :: key in r.value ==> r.value[key].source == key
  {
    if elements == [] then Some(map[])
    else match (ParseTypeConversionsList(elements[..|elements| - 1]), ParseTypeConversions(elements[|elements| - 1]))
      case (Some(m), Some(t)) => Some(m[t.source := t])
      case _ => None
  }

  /** `Almanac.__init__`: the seeds block, then one block per map. */
  function ParseAlmanac(description: string): Option<Almanac>
  {
    var elements := Split(description, "\n\n");
    match (ParseSeeds(elements[0]), ParseTypeConversionsList(elements[1..]))
    case (Some(seeds), Some(m)) => Some(Almanac(seeds, m))
    case _ => None
  }

  /** The sources of the maps a seed goes through, in order. */
  const Categories: seq<string> := ["seed", "soil", "fertilizer", "water", "light", "temperature", "humidity"]

  /** The value after the maps keyed by `keys`, in order; `None` when a key
      has no map (the KeyError). */
  function ApplyMaps(typeConversions: map<string, TypeConversions>, keys: seq<string>, value: int): Option<int>
  {
    if keys == [] then Some(value)
    else if keys[0] !in typeConversions then None
    else ApplyMaps(typeConversions, keys[1..], Convert(typeConversions[keys[0]].conversions, value))
  }

  /** Applying a list of maps is applying its first part, then the rest. */
  lemma {:induction false} ApplyMapsAppend(typeConversions: map<string, TypeConversions>, a: seq<string>, b: seq<string>, value: int)
    ensures ApplyMaps(typeConversions, a + b, value) ==
      match ApplyMaps(typeConversions, a, value)
      case None => None
      case Some(v) => ApplyMaps(typeConversions, b, v)
  {
    if a != [] {
      assert (a + b)[1..] == a[1..] + b;
      if a[0] in typeConversions {
        ApplyMapsAppend(typeConversions, a[1..], b, Convert(typeConversions[a[0]].conversions, value));
      }
    } else {
      assert a + b == b;
    }
  }

  /** `determine_location_for_seed`: seed to soil to fertilizer to water to
      light to temperature to humidity to location. */
  method DetermineLocationForSeed(almanac: Almanac, seed: int) returns (location: Option<int>)
    ensures location == ApplyMaps(almanac.typeConversions, Categories, seed)
  {
    var value := seed;
    var i := 0;
    while i < |Categories|
      invariant 0 <= i <= |Categories|
      invariant ApplyMaps(almanac.typeConversions, Categories, seed) == ApplyMaps(almanac.typeConversions, Categories[i..], value)
    {
      var key := Categories[i];
      if key !in almanac.typeConversions {
        return None;
      }
      assert Categories[i..][1..] == Categories[i + 1..];
      ghost var passes;
      value, passes := ConvertValue(almanac.typeConversions[key].conversions, value);
      i := i + 1;
    }
    location := Some(value);
  }

  function Locations(almanac: Almanac, seeds: seq<int>): Option<seq<int>>
  {
    if seeds == [] then Some([])
    else match (Locations(almanac, seeds[..|seeds| - 1]), ApplyMaps(almanac.typeConversions, Categories, seeds[|seeds| - 1]))
      case (Some(ls), Some(l)) => Some(ls + [l])
      case _ => None
  }

  /** `determine_locations_for_all_seeds`. */
  method DetermineLocationsForAllSeeds(almanac: Almanac) returns (locations: Option<seq<int>>)
    ensures locations == Locations(almanac, almanac.seeds)
  {
    var found: seq<int> := [];
    var i := 0;
    while i < |almanac.seeds|
      invariant 0 <= i <= |almanac.seeds|
      invariant Locations(almanac, almanac.seeds[..i]) == Some(found)
    {
      var location := DetermineLocationForSeed(almanac, almanac.seeds[i]);
      assert almanac.seeds[..i + 1][..i] == almanac.seeds[..i];
      if location.None? {
        LocationsFail(almanac, almanac.seeds, i + 1);
        return None;
      }
      found := found + [location.value];
      i := i + 1;
    }
    assert almanac.seeds[..i] == almanac.seeds;
    locations := Some(found);
  }

  lemma {:induction false} LocationsFail(almanac: Almanac, seeds: seq<int>, n: nat)
    requires n <= |seeds|
    requires Locations(almanac, seeds[..n]).None?
    ensures Locations(almanac, seeds).None?
    decreases |seeds| - n
  {
    if n < |seeds| {
      assert seeds[..n + 1][..n] == seeds[..n];
      LocationsFail(almanac, seeds, n + 1);
    } else {
      assert seeds[..n] == seeds;
    }
  }

  /** The smallest of a non-empty list: `sorted(xs)[0]`. */
  function Minimum(xs: seq<int>): (r: int)
    requires |xs| > 0
    ensures r in xs
    ensures forall k :: 0 <= k < |xs| ==> r <= xs[k]
  {
    if |xs| == 1 then xs[0]
    else
      var m := Minimum(xs[..|xs| - 1]);
      assert forall k :: 0 <= k < |xs| - 1 ==> xs[..|xs| - 1][k] == xs[k];
      if xs[|xs| - 1] < m then xs[|xs| - 1] else m
  }

  /** `determine_lowest_location`: the least location of any seed; `None`
      without seeds (the IndexError) or when a map is missing. */
  method DetermineLowestLocation(almanac: Almanac) returns (lowest: Option<int>)
    ensures lowest.Some? <==> Locations(almanac, almanac.seeds).Some? && |almanac.seeds| > 0
    ensures lowest.Some? ==>
      var ls := Locations(almanac, almanac.seeds).value;
      lowest.value in ls && forall k :: 0 <= k < |ls| ==> lowest.value <= ls[k]
  {
    var locations := DetermineLocationsForAllSeeds(almanac);
    if locations.None? || |locations.value| == 0 {
      LocationsLength(almanac, almanac.seeds);
      return None;
    }
    lowest := Some(Minimum(locations.value));
  }

  lemma {:induction false} LocationsLength(almanac: Almanac, seeds: seq<int>)
    ensures Locations(almanac, seeds).Some? ==> |Locations(almanac, seeds).value| == |seeds|
  {
    if seeds != [] {
      LocationsLength(almanac, seeds[..|seeds| - 1]);
    }
  }

  /** Part 1: the lowest location of the almanac's seeds. */
  method SolveProblem(description: string) returns (part1: Option<int>)
    ensures ParseAlmanac(description).None? ==> part1.None?
    ensures part1.Some? ==>
      var almanac := ParseAlmanac(description).value;
      exists k :: 0 <= k < |almanac.seeds| && ApplyMaps(almanac.typeConversions, Categories, almanac.seeds[k]) == part1
    ensures part1.Some? ==>
      var almanac := ParseAlmanac(description).value;
      forall k :: 0 <= k < |almanac.seeds| ==>
        ApplyMaps(almanac.typeConversions, Categories, almanac.seeds[k]).Some? &&
        part1.value <= ApplyMaps(almanac.typeConversions, Categories, almanac.seeds[k]).value
    ensures ParseAlmanac(description).Some? ==>
      var almanac := ParseAlmanac(description).value;
      (part1.Some? <==> |almanac.seeds| > 0 && Locations(almanac, almanac.seeds).Some?)
  {
    var almanac := ParseAlmanac(description);
    if almanac.None? {
      return None;
    }
    part1 := DetermineLowestLocation(almanac.value);
    if part1.Some? {
      LocationsElements(almanac.value, almanac.value.seeds);
    }
  }

  lemma {:induction false} LocationsElements(almanac: Almanac, seeds: seq<int>)
    requires Locations(almanac, seeds).Some?
    ensures |Locations(almanac, seeds).value| == |seeds|
    ensures forall k :: 0 <= k < |seeds| ==>
      ApplyMaps(almanac.typeConversions, Categories, seeds[k]) == Some(Locations(almanac, seeds).value[k])
  {
    if seeds != [] {
      LocationsElements(almanac, seeds[..|seeds| - 1]);
      assert forall k :: 0 <= k < |seeds| - 1 ==> seeds[..|seeds| - 1][k] == seeds[k];
    }
  }
}
