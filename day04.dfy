/** Day 4: scratchcards. A card has an id, its winning numbers and the
    numbers provided; its matches are the provided numbers (with
    repetition) found among the winning ones. Each match wins a copy of
    one of the following cards, and copies win copies in turn. */
module Day04 {
  import opened Text
  import opened Sums

  datatype Card = Card(id: int, winningNumbers: seq<int>, providedNumbers: seq<int>)

  // ---------------------------------------------------------------------
  // Parsing

  /** `determine_numbers_list`: the integers of the non-empty pieces of
      `raw.split(" ")`. */
  function NumbersList(raw: string): Option<seq<int>>
  {
    ParseInts(NonEmpty(Split(raw, " ")))
  }

  /** Empty pieces left by extra spaces do not change the numbers: a
      leading space is ignored. */
  lemma {:induction false} NumbersListLeadingSpace(raw: string)
    ensures NumbersList(" " + raw) == NumbersList(raw)
  {
    var s := " " + raw;
    assert OccursAt(s, " ", 0) by {
      assert s[0..1] == " ";
    }
    assert FindFrom(s, " ", 0) == 0;
    assert s[0 + 1..] == raw && s[..0] == "";
    var pieces := Split(s, " ");
    assert pieces == [""] + Split(raw, " ");
    assert pieces[1..] == Split(raw, " ");
    assert NonEmpty(pieces) == NonEmpty(Split(raw, " "));
  }

  /** `determine_id`: the second whitespace-separated word, as an integer. */
  function ParseId(introduction: string): Option<int>
  {
    var words := Words(introduction);
    if |words| < 2 then None else ParseInt(words[1])
  }

  /** `Card.__init__`: the text before ':' holds the id, the text after it
      the two lists separated by '|'. A missing ':' or '|', a missing id or
      a piece that is not an integer is the error case. */
  function ParseCard(description: string): (r: Option<Card>)
    ensures r.Some? <==>
      var sections := Split(description, ":");
      |sections| >= 2 &&
      var numberSections := Split(sections[1], "|");
      |numberSections| >= 2 &&
      ParseId(sections[0]).Some? &&
      NumbersList(numberSections[0]).Some? && NumbersList(numberSections[1]).Some?
    ensures r.Some? ==> ParseId(Split(description, ":")[0]) == Some(r.value.id)
    ensures r.Some? ==>
      var numberSections := Split(Split(description, ":")[1], "|");
      NumbersList(numberSections[0]) == Some(r.value.winningNumbers) &&
      NumbersList(numberSections[1]) == Some(r.value.providedNumbers)
  {
    var sections := Split(description, ":");
    if |sections| < 2 then None
    else
      var numberSections := Split(sections[1], "|");
      if |numberSections| < 2 then None
      else
        match (ParseId(sections[0]), NumbersList(numberSections[0]), NumbersList(numberSections[1]))
        case (Some(id), Some(winning), Some(provided)) => Some(Card(id, winning, provided))
        case _ => None
  }

  /** `Pile.create_cards`: one card per line; any bad line is an error. */
  function ParseCards(lines: seq<string>): (r: Option<seq<Card>>)
    ensures r.Some? ==> |r.value| == |lines|
    ensures r.Some? ==> forall k :: 0 <= k < |lines| ==> ParseCard(lines[k]) == Some(r.value[k])
    ensures r.None? ==> exists k :: 0 <= k < |lines| && ParseCard(lines[k]).None?
  {
    ParseLines(ParseCard, lines)
  }

  // ---------------------------------------------------------------------
  // One card

  /** How many of `provided` occur in `winning`, counted with repetition. */
  function MatchCount(provided: seq<int>, winning: seq<int>): (r: nat)
    ensures r <= |provided|
  {
    if provided == [] then 0
    else MatchCount(provided[..|provided| - 1], winning) + (if provided[|provided| - 1] in winning then 1 else 0)
  }

  /** Every provided number matches exactly when the count is the number
      of provided numbers, and none does exactly when it is 0. */
  lemma {:induction false} MatchCountExtremes(provided: seq<int>, winning: seq<int>)
    ensures MatchCount(provided, winning) == |provided| <==> forall i :: 0 <= i < |provided| ==> provided[i] in winning
    ensures MatchCount(provided, winning) == 0 <==> forall i :: 0 <= i < |provided| ==> provided[i] !in winning
  {
    if provided != [] {
      var front := provided[..|provided| - 1];
      MatchCountExtremes(front, winning);
      assert forall i :: 0 <= i < |front| ==> front[i] == provided[i];
    }
  }

  /** Only which numbers win matters, not their order or repetition. */
  lemma {:induction false} MatchCountSameWinners(provided: seq<int>, w1: seq<int>, w2: seq<int>)
    requires forall x :: x in w1 <==> x in w2
    ensures MatchCount(provided, w1) == MatchCount(provided, w2)
  {
    if provided != [] {
      MatchCountSameWinners(provided[..|provided| - 1], w1, w2);
    }
  }

  function Matches(card: Card): nat
  {
    MatchCount(card.providedNumbers, card.winningNumbers)
  }

  /** `determine_matches`. */
  method DetermineMatches(card: Card) returns (matches: int)
    ensures matches == Matches(card)
  {
    matches := 0;
    var provided := card.providedNumbers;
    var i := 0;
    while i < |provided|
      invariant 0 <= i <= |provided|
      invariant matches == MatchCount(provided[..i], card.winningNumbers)
    {
      assert provided[..i + 1][..i] == provided[..i];
      if provided[i] in card.winningNumbers {
        matches := matches + 1;
      }
      i := i + 1;
    }
    assert provided[..i] == provided;
  }

  function Pow2(n: nat): (r: nat)
    ensures r >= 1
  {
    if n == 0 then 1 else 2 * Pow2(n - 1)
  }

  /** `calculate_points`: 0 without a match, 2^(matches - 1) otherwise. */
  function Points(matches: int): (r: nat)
    ensures r > 0 <==> matches > 0
  {
    if matches > 0 then Pow2(matches - 1) else 0
  }

  /** The first match is worth one point and each further match doubles
      the points. */
  lemma {:induction false} PointsDouble(matches: int)
    ensures Points(1) == 1
    ensures matches >= 1 ==> Points(matches + 1) == 2 * Points(matches)
  {
  }

  /** `determine_ids_of_copies`: the ids of the `matches` following cards. */
  method DetermineIdsOfCopies(card: Card) returns (ids: seq<int>)
    ensures |ids| == Matches(card)
    ensures forall k :: 0 <= k < |ids| ==> ids[k] == card.id + k + 1
  {
    var matches := DetermineMatches(card);
    ids := [];
    var value := 0;
    while value < matches
      invariant 0 <= value <= matches
      invariant |ids| == value
      invariant forall k :: 0 <= k < value ==> ids[k] == card.id + k + 1
    {
      ids := ids + [card.id + value + 1];
      value := value + 1;
    }
  }

  /** The ids of the cards a card wins copies of, as `DetermineIdsOfCopies`
      computes them. */
  function CopyIds(card: Card): seq<int>
  {
    seq(Matches(card), k requires 0 <= k < Matches(card) => card.id + k + 1)
  }

  // ---------------------------------------------------------------------
  // The pile

  function PointsList(cards: seq<Card>): (r: seq<int>)
    ensures |r| == |cards|
    ensures forall k :: 0 <= k < |cards| ==> r[k] == Points(Matches(cards[k]))
  {
    if cards == [] then [] else PointsList(cards[..|cards| - 1]) + [Points(Matches(cards[|cards| - 1]))]
  }

  function Ids(cards: seq<Card>): set<int>
  {
    set k | 0 <= k < |cards| :: cards[k].id
  }

  /** Adding `amount`, the count of card `source`, to the count of each id
      in turn; `None` when an id or `source` has no count (the KeyError). */
  function AddCopies(counts: map<int, int>, ids: seq<int>, source: int): Option<map<int, int>>
  {
    if ids == [] then Some(counts)
    else if ids[0] !in counts || source !in counts then None
    else AddCopies(counts[ids[0] := counts[ids[0]] + counts[source]], ids[1..], source)
  }

  /** The cards processed in order, each adding its count to its copies. */
  function ProcessCards(counts: map<int, int>, cards: seq<Card>): Option<map<int, int>>
    decreases |cards|
  {
    if cards == [] then Some(counts)
    else match AddCopies(counts, CopyIds(cards[0]), cards[0].id)
      case None => None
      case Some(next) => ProcessCards(next, cards[1..])
  }

  /** Every id that follows `card`'s, up to its number of matches, has a
      count. */
  predicate CopiesKnown(card: Card, counts: map<int, int>)
  {
    forall id :: card.id < id <= card.id + Matches(card) ==> id in counts
  }

  /** The copy ids are those following ids. */
  lemma {:induction false} CopyIdsKnown(card: Card, counts: map<int, int>)
    ensures CopiesKnown(card, counts) <==>
      forall k :: 0 <= k < |CopyIds(card)| ==> CopyIds(card)[k] in counts
  {
    var ids := CopyIds(card);
    if forall k :: 0 <= k < |ids| ==> ids[k] in counts {
      forall id | card.id < id <= card.id + Matches(card) ensures id in counts {
        assert ids[id - card.id - 1] == id;
      }
    }
  }

  predicate AllPositive(counts: map<int, int>)
  {
    forall id :: id in counts ==> counts[id] >= 1
  }

  /** Adding copies keeps the ids, never lowers a count and keeps every
      count at least 1; it fails exactly when an id is unknown. */
  lemma {:induction false} AddCopiesFacts(counts: map<int, int>, ids: seq<int>, source: int)
    requires AllPositive(counts)
    ensures AddCopies(counts, ids, source).Some? <==>
      ids == [] || (source in counts && forall k :: 0 <= k < |ids| ==> ids[k] in counts)
    ensures var r := AddCopies(counts, ids, source);
      r.Some? ==> (r.value.Keys == counts.Keys && AllPositive(r.value) &&
                   forall id :: id in counts ==> r.value[id] >= counts[id])
    decreases |ids|
  {
    if ids != [] && ids[0] in counts && source in counts {
      var next := counts[ids[0] := counts[ids[0]] + counts[source]];
      AddCopiesFacts(next, ids[1..], source);
      assert forall k :: 1 <= k < |ids| ==> ids[k] == ids[1..][k - 1];
    }
  }

  /** Processing keeps the ids and every count at least 1, and never lowers
      a count; it succeeds exactly when every copy id has a count. */
  lemma {:induction false} ProcessCardsFacts(counts: map<int, int>, cards: seq<Card>)
    requires AllPositive(counts)
    requires Ids(cards) <= counts.Keys
    ensures ProcessCards(counts, cards).Some? <==>
      forall k :: 0 <= k < |cards| ==> CopiesKnown(cards[k], counts)
    ensures var r := ProcessCards(counts, cards);
      r.Some? ==> (r.value.Keys == counts.Keys && AllPositive(r.value) &&
                   forall id :: id in counts ==> r.value[id] >= counts[id])
    decreases |cards|
  {
    if cards != [] {
      var card := cards[0];
      assert card.id in Ids(cards);
      AddCopiesFacts(counts, CopyIds(card), card.id);
      CopyIdsKnown(card, counts);
      var step := AddCopies(counts, CopyIds(card), card.id);
      assert Ids(cards[1..]) <= Ids(cards) by {
        forall id | id in Ids(cards[1..]) ensures id in Ids(cards) {
          var k :| 0 <= k < |cards[1..]| && cards[1..][k].id == id;
          assert cards[k + 1].id == id;
        }
      }
      if step.Some? {
        ProcessCardsFacts(step.value, cards[1..]);
        assert forall k :: 0 <= k < |cards| - 1 ==> cards[1..][k] == cards[k + 1];
        forall k | 1 <= k < |cards|
          ensures CopiesKnown(cards[k], step.value) <==> CopiesKnown(cards[k], counts)
        {
        }
        if !(forall k :: 0 <= k < |cards| ==> CopiesKnown(cards[k], counts)) {
          var k :| 0 <= k < |cards| && !CopiesKnown(cards[k], counts);
          if k != 0 {
            assert cards[1..][k - 1] == cards[k];
          }
        }
      } else {
        assert !CopiesKnown(card, counts);
      }
    }
  }

  /** The counts the pile starts with: 1 for each card id. */
  function InitialCounts(cards: seq<Card>): (r: map<int, int>)
    ensures r.Keys == Ids(cards)
    ensures AllPositive(r)
  {
    map id | id in Ids(cards) :: 1
  }

  /** A sum of counts that are all at least 1 is at least the number of
      ids counted. */
  lemma {:induction false} SumAtLeastKeys(counts: map<int, int>)
    requires AllPositive(counts)
    ensures SumValues(counts) >= |counts.Keys|
    decreases |counts.Keys|
  {
    if counts != map[] {
      var _ := HasElement(counts.Keys);
      var key :| key in counts;
      SumValuesRemove(counts, key);
      SumAtLeastKeys(counts - {key});
      assert (counts - {key}).Keys == counts.Keys - {key};
    }
  }

  class Pile {
    var cards: seq<Card>
    var cardCounts: map<int, int>
    var totalPoints: int

    /** `Pile.__init__`, given the parsed cards. */
    constructor (cards: seq<Card>)
      ensures this.cards == cards
      ensures cardCounts == InitialCounts(cards)
      ensures totalPoints == Sum(PointsList(cards))
    {
      this.cards := cards;
      var counts := InitializeCountsOfCards(cards);
      var points := CalculateTotalPoints(cards);
      cardCounts := counts;
      totalPoints := points;
    }

    /** `increment_card_counts_iteratively`: for each card in order, adds
        its current count to the count of each of its copies. `ok` is false
        where the source raises KeyError; the counts then hold whatever the
        loop reached. */
    method IncrementCardCountsIteratively() returns (ok: bool)
      modifies this
      ensures cards == old(cards) && totalPoints == old(totalPoints)
      ensures ok <==> ProcessCards(old(cardCounts), cards).Some?
      ensures ok ==> ProcessCards(old(cardCounts), cards) == Some(cardCounts)
    {
      var i := 0;
      while i < |cards|
        invariant 0 <= i <= |cards|
        invariant cards == old(cards) && totalPoints == old(totalPoints)
        invariant ProcessCards(old(cardCounts), cards) == ProcessCards(cardCounts, cards[i..])
      {
        var card := cards[i];
        var added := AddCopiesOfCard(card);
        if !added {
          return false;
        }
        assert cards[i..][1..] == cards[i + 1..];
        i := i + 1;
      }
      return true;
    }

    /** The inner loop of `increment_card_counts_iteratively`: `card`'s
        current count is added to the count of each of its copies. `added`
        is false where the source raises KeyError. */
    method AddCopiesOfCard(card: Card) returns (added: bool)
      modifies this
      ensures cards == old(cards) && totalPoints == old(totalPoints)
      ensures added <==> AddCopies(old(cardCounts), CopyIds(card), card.id).Some?
      ensures added ==> AddCopies(old(cardCounts), CopyIds(card), card.id) == Some(cardCounts)
    {
      var ids := DetermineIdsOfCopies(card);
      assert ids == CopyIds(card);
      var j := 0;
      while j < |ids|
        invariant 0 <= j <= |ids|
        invariant cards == old(cards) && totalPoints == old(totalPoints)
        invariant AddCopies(old(cardCounts), ids, card.id) == AddCopies(cardCounts, ids[j..], card.id)
      {
        var id := ids[j];
        if id !in cardCounts || card.id !in cardCounts {
          return false;
        }
        assert ids[j..][1..] == ids[j + 1..];
        cardCounts := cardCounts[id := cardCounts[id] + cardCounts[card.id]];
        j := j + 1;
      }
      return true;
    }

    /** `determine_total_card_count`: the sum of all counts. */
    method DetermineTotalCardCount() returns (total: int)
      ensures total == SumValues(cardCounts)
    {
      total := 0;
      var remaining := cardCounts;
      while remaining != map[]
        invariant total + SumValues(remaining) == SumValues(cardCounts)
        decreases |remaining.Keys|
      {
        ghost var _ := HasElement(remaining.Keys);
        var key :| key in remaining;
        SumValuesRemove(remaining, key);
        total := total + remaining[key];
        remaining := remaining - {key};
      }
    }
  }

  /** `initialize_counts_of_cards`. */
  method InitializeCountsOfCards(cards: seq<Card>) returns (counts: map<int, int>)
    ensures counts.Keys == Ids(cards)
    ensures forall id :: id in counts ==> counts[id] == 1
  {
    counts := map[];
    var i := 0;
    while i < |cards|
      invariant 0 <= i <= |cards|
      invariant counts.Keys == Ids(cards[..i])
      invariant forall id :: id in counts ==> counts[id] == 1
    {
      assert Ids(cards[..i + 1]) == Ids(cards[..i]) + {cards[i].id} by {
        assert forall k :: 0 <= k < i ==> cards[..i + 1][k] == cards[..i][k];
      }
      counts := counts[cards[i].id := 1];
      i := i + 1;
    }
    assert cards[..i] == cards;
  }

  /** `calculate_total_points`: the sum of the cards' points. */
  method CalculateTotalPoints(cards: seq<Card>) returns (total: int)
    ensures total == Sum(PointsList(cards))
    ensures total >= 0
  {
    total := 0;
    var i := 0;
    while i < |cards|
      invariant 0 <= i <= |cards|
      invariant total == Sum(PointsList(cards[..i]))
      invariant total >= 0
    {
      assert cards[..i + 1][..i] == cards[..i];
      total := total + Points(Matches(cards[i]));
      i := i + 1;
    }
    assert cards[..i] == cards;
  }

  /** Part 1 is the total points; part 2, after the copies are counted, the
      total number of cards, which is at least the number of distinct ids.
      `None` when a line does not parse or a copy id has no card. */
  method SolveProblem(lines: seq<string>) returns (result: Option<(int, int)>)
    ensures ParseCards(lines).None? ==> result.None?
    ensures ParseCards(lines).Some? ==>
      var cards := ParseCards(lines).value;
      var counts := ProcessCards(InitialCounts(cards), cards);
      (result.Some? <==> counts.Some?) &&
      (result.Some? ==> result.value.0 == Sum(PointsList(cards)) &&
                        result.value.1 == SumValues(counts.value) &&
                        result.value.1 >= |Ids(cards)|)
  {
    var parsed := ParseCards(lines);
    if parsed.None? {
      return None;
    }
    var cards := parsed.value;
    var pile := new Pile(cards);
    var ok := pile.IncrementCardCountsIteratively();
    if !ok {
      return None;
    }
    ProcessCardsFacts(InitialCounts(cards), cards);
    var count := pile.DetermineTotalCardCount();
    SumAtLeastKeys(pile.cardCounts);
    result := Some((pile.totalPoints, count));
  }
}
