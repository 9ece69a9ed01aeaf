/** Day 7: camel cards. A hand's value comes from its groups of equal
    cards: each group of `k >= 2` equal cards adds `k^k`, and a hand with no
    group is worth 1. Hands are ranked by value and then card by card in the
    order 2..9, T, J, Q, K, A; the winnings are each bid times its rank. */
module Day07 {
  import opened Text
  import opened Sums

  /** `k^k` and the like. */
  function Pow(b: nat, e: nat): nat
  {
    if e == 0 then 1 else b * Pow(b, e - 1)
  }

  /** Characters in non-decreasing order. */
  predicate SortedChars(s: string)
  {
    forall i, j :: 0 <= i < j < |s| ==> s[i] <= s[j]
  }

  /** Inserts `c` into a sorted string before its first larger character. */
  function InsertChar(c: char, s: string): (r: string)
    requires SortedChars(s)
    ensures SortedChars(r) && multiset(r) == multiset(s) + multiset{c}
    ensures |r| == |s| + 1 && (r[0] == c || (s != [] && r[0] == s[0]))
  {
    if s == [] then [c]
    else if c <= s[0] then [c] + s
    else
      var rest := InsertChar(c, s[1..]);
      assert multiset(s) == multiset{s[0]} + multiset(s[1..]) by {
        assert s == [s[0]] + s[1..];
      }
      SortedCons(s[0], rest);
      [s[0]] + rest
  }

  /** A character no larger than the first of a sorted string keeps it
      sorted when put in front. */
  lemma {:induction false} SortedCons(x: char, t: string)
    requires SortedChars(t) && (t == [] || x <= t[0])
    ensures SortedChars([x] + t)
  {
    var u := [x] + t;
    forall i, j | 0 <= i < j < |u| ensures u[i] <= u[j] {
      if i > 0 {
        assert u[i] == t[i - 1] && u[j] == t[j - 1];
      } else {
        assert u[j] == t[j - 1];
      }
    }
  }

  /** Python's `sorted` on the characters of a string. */
  function SortChars(s: string): (r: string)
    ensures SortedChars(r) && multiset(r) == multiset(s)
  {
    if s == [] then []
    else
      assert s == s[..|s| - 1] + [s[|s| - 1]];
      InsertChar(s[|s| - 1], SortChars(s[..|s| - 1]))
  }

  /** The groups of a hand: each card occurring `k >= 2` times maps to
      `k^k`. */
  ghost function Groups(cards: string): map<char, int>
  {
    var m := multiset(cards);
    map c | c in m && m[c] >= 2 :: Pow(m[c], m[c])
  }

  /** The value of a hand: 1 with no group, otherwise the sum over its
      groups. */
  ghost function Value(cards: string): int
  {
    if Groups(cards) == map[] then 1 else SumValues(Groups(cards))
  }

  /** The value depends only on which cards a hand holds, not their order. */
  lemma {:induction false} ValueOfSameCards(a: string, b: string)
    requires multiset(a) == multiset(b)
    ensures Value(a) == Value(b)
  {
    assert Groups(a) == Groups(b);
  }

  /** The running state of `calculate_value`'s first loop: `matches` maps
      each card seen at least twice in `t` to how often it was seen. */
  ghost predicate MatchesOf(matches: map<char, int>, t: string)
  {
    && (forall c :: c in matches <==> c in multiset(t) && multiset(t)[c] >= 2)
    && (forall c :: c in matches ==> matches[c] == multiset(t)[c])
  }

  /** One step of the first loop, comparing the next card with the one
      before it in the sorted hand. */
  lemma {:induction false} MatchesStep(matches: map<char, int>, s: string, index: nat, next: map<char, int>)
    requires SortedChars(s) && index + 1 < |s|
    requires MatchesOf(matches, s[..index + 1])
    requires s[index] == s[index + 1] ==>
      next == matches[s[index] := if s[index] in matches then matches[s[index]] + 1 else 2]
    requires s[index] != s[index + 1] ==> next == matches
    ensures MatchesOf(next, s[..index + 2])
  {
    var t, d := s[..index + 1], s[index + 1];
    assert s[..index + 2] == t + [d];
    if s[index] == d {
      assert t[index] == d;
      assert d in multiset(t);
    } else {
      forall k | 0 <= k < |t| ensures t[k] != d {
        assert s[k] <= s[index];
      }
      assert d !in t;
    }
  }

  /** The first loop of `calculate_value`: how often each card that occurs
      at least twice occurs, read off the sorted cards. */
  method CountMatches(sortedCards: string) returns (matches: map<char, int>)
    requires SortedChars(sortedCards)
    ensures MatchesOf(matches, sortedCards)
  {
    matches := map[];
    if sortedCards == [] {
      return;
    }
    var index := 0;
    while index + 1 < |sortedCards|
      invariant index + 1 <= |sortedCards|
      invariant MatchesOf(matches, sortedCards[..index + 1])
    {
      var next := matches;
      if sortedCards[index] == sortedCards[index + 1] {
        var card := sortedCards[index];
        if card in matches {
          next := matches[card := matches[card] + 1];
        } else {
          next := matches[card := 2];
        }
      }
      MatchesStep(matches, sortedCards, index, next);
      matches := next;
      index := index + 1;
    }
    assert sortedCards[..index + 1] == sortedCards;
  }

  /** The groups built from the counted matches are the hand's groups. */
  lemma {:induction false} MatchesGroups(matches: map<char, int>, groups: map<char, int>, cards: string, sortedCards: string)
    requires MatchesOf(matches, sortedCards) && multiset(sortedCards) == multiset(cards)
    requires groups == map c | c in matches :: Pow(matches[c], matches[c])
    ensures |matches| == 0 ==> Value(cards) == 1
    ensures |matches| != 0 ==> Value(cards) == SumValues(groups)
  {
    assert groups == Groups(cards);
    if |matches| != 0 {
      var c :| c in matches;
      assert c in Groups(cards);
    } else {
      assert matches == map[];
    }
  }

  /** `calculate_value`: sort the cards, count each run of equal cards, and
      add `k^k` per run of length `k >= 2`. */
  method CalculateValue(cards: string) returns (value: int)
    ensures value == Value(cards)
  {
    var sortedCards := SortChars(cards);
    var matches := CountMatches(sortedCards);
    var groups := map c | c in matches :: Pow(matches[c], matches[c]);
    MatchesGroups(matches, groups, cards, sortedCards);
    if |matches| == 0 {
      value := 1;
    } else {
      value := SumGroups(groups);
    }
  }

  /** The second loop of `calculate_value`: the groups' values summed in
      the dictionary's order. */
  method SumGroups(groups: map<char, int>) returns (total: int)
    ensures total == SumValues(groups)
  {
    total := 0;
    var remaining := groups;
    while remaining != map[]
      invariant total + SumValues(remaining) == SumValues(groups)
      decreases |remaining.Keys|
    {
      var key :| key in remaining;
      SumValuesRemove(remaining, key);
      total := total + remaining[key];
      remaining := remaining - {key};
    }
  }

  /** A map with one entry sums to that entry. */
  lemma {:induction false} SumOne(a: char, x: int)
    ensures SumValues(map[a := x]) == x
  {
    SumValuesRemove(map[a := x], a);
    assert map[a := x] - {a} == map[];
  }

  /** A map with two entries sums to both. */
  lemma {:induction false} SumTwo(a: char, x: int, b: char, y: int)
    requires a != b
    ensures SumValues(map[a := x, b := y]) == x + y
  {
    SumValuesRemove(map[a := x, b := y], a);
    assert map[a := x, b := y] - {a} == map[b := y];
    SumOne(b, y);
  }

  /** Groups read off the counts of each card. */
  lemma {:induction false} GroupsAre(cards: string, g: map<char, int>)
    requires forall c :: c in g <==> multiset(cards)[c] >= 2
    requires forall c :: c in g ==> g[c] == Pow(multiset(cards)[c], multiset(cards)[c])
    ensures Groups(cards) == g
  {
  }

  /** The table of hand types. Five of a kind is worth 3125. */
  lemma {:induction false} FiveOfAKind(cards: string, a: char)
    requires multiset(cards) == multiset{a, a, a, a, a}
    ensures Value(cards) == 3125
  {
    assert Pow(5, 5) == 3125;
    GroupsAre(cards, map[a := 3125]);
    SumOne(a, 3125);
  }

  /** Four of a kind is worth 256. */
  lemma {:induction false} FourOfAKind(cards: string, a: char, b: char)
    requires a != b && multiset(cards) == multiset{a, a, a, a, b}
    ensures Value(cards) == 256
  {
    assert Pow(4, 4) == 256;
    GroupsAre(cards, map[a := 256]);
    SumOne(a, 256);
  }

  /** A full house is worth 27 + 4 = 31. */
  lemma {:induction false} FullHouse(cards: string, a: char, b: char)
    requires a != b && multiset(cards) == multiset{a, a, a, b, b}
    ensures Value(cards) == 31
  {
    assert Pow(3, 3) == 27 && Pow(2, 2) == 4;
    GroupsAre(cards, map[a := 27, b := 4]);
    SumTwo(a, 27, b, 4);
  }

  /** Three of a kind is worth 27. */
  lemma {:induction false} ThreeOfAKind(cards: string, a: char, b: char, c: char)
    requires a != b && a != c && b != c && multiset(cards) == multiset{a, a, a, b, c}
    ensures Value(cards) == 27
  {
    assert Pow(3, 3) == 27;
    GroupsAre(cards, map[a := 27]);
    SumOne(a, 27);
  }

  /** Two pairs are worth 4 + 4 = 8. */
  lemma {:induction false} TwoPair(cards: string, a: char, b: char, c: char)
    requires a != b && a != c && b != c && multiset(cards) == multiset{a, a, b, b, c}
    ensures Value(cards) == 8
  {
    assert Pow(2, 2) == 4;
    GroupsAre(cards, map[a := 4, b := 4]);
    SumTwo(a, 4, b, 4);
  }

  /** One pair is worth 4. */
  lemma {:induction false} OnePair(cards: string, a: char, b: char, c: char, d: char)
    requires a != b && a != c && a != d && b != c && b != d && c != d
    requires multiset(cards) == multiset{a, a, b, c, d}
    ensures Value(cards) == 4
  {
    assert Pow(2, 2) == 4;
    GroupsAre(cards, map[a := 4]);
    SumOne(a, 4);
  }

  /** A hand of distinct cards is worth 1. */
  lemma {:induction false} HighCard(cards: string)
    requires forall i, j :: 0 <= i < j < |cards| ==> cards[i] != cards[j]
    ensures Value(cards) == 1
  {
    forall c | c in multiset(cards) ensures multiset(cards)[c] < 2 {
      DistinctCount(cards, c);
    }
    assert Groups(cards) == map[];
  }

  lemma {:induction false} DistinctCount(s: string, c: char)
    requires forall i, j :: 0 <= i < j < |s| ==> s[i] != s[j]
    ensures multiset(s)[c] <= 1
  {
    if s != [] {
      var t := s[..|s| - 1];
      assert s == t + [s[|s| - 1]];
      DistinctCount(t, c);
      if s[|s| - 1] == c {
        assert c !in t;
      }
    }
  }

  /** A hand: its cards, its bid and its value. */
  datatype Hand = Hand(cards: string, bid: int, value: int)

  /** `Hand(description)`: the cards before the first space and `int` of
      the text after it; a missing bid or one that is not an integer is the
      exception case, `None`. */
  ghost function HandOf(description: string): (r: Option<Hand>)
    ensures r.Some? ==> r.value.value == Value(r.value.cards) && r.value.value >= 1
  {
    var elements := Split(description, " ");
    if |elements| < 2 then None
    else match ParseInt(elements[1])
      case None => None
      case Some(bid) =>
        ValuePositive(elements[0]);
        Some(Hand(elements[0], bid, Value(elements[0])))
  }

  /** Every hand is worth at least 1. */
  lemma {:induction false} ValuePositive(cards: string)
    ensures Value(cards) >= 1
  {
    var g := Groups(cards);
    if g != map[] {
      forall c | c in g ensures g[c] >= 1 {
        PowPositive(multiset(cards)[c], multiset(cards)[c]);
      }
      SumValuesPositive(g);
    }
  }

  lemma {:induction false} PowPositive(b: nat, e: nat)
    requires b >= 1
    ensures Pow(b, e) >= 1
  {
    if e > 0 {
      PowPositive(b, e - 1);
      MulPositive(b, Pow(b, e - 1));
    }
  }

  lemma {:induction false} MulPositive(x: int, y: int)
    requires x >= 1 && y >= 1
    ensures x * y >= 1
  {
  }

  lemma {:induction false} SumValuesPositive(m: map<char, int>)
    requires m != map[] && forall c :: c in m ==> m[c] >= 1
    ensures SumValues(m) >= 1
    decreases m.Keys
  {
    var c :| c in m;
    SumValuesRemove(m, c);
    if m - {c} != map[] {
      SumValuesPositive(m - {c});
    } else {
      assert SumValues(m - {c}) == 0;
    }
  }

  method CreateHand(description: string) returns (hand: Option<Hand>)
    ensures hand == HandOf(description)
  {
    var elements := Split(description, " ");
    if |elements| < 2 {
      return None;
    }
    var bid := ParseInt(elements[1]);
    if bid.None? {
      return None;
    }
    var value := CalculateValue(elements[0]);
    hand := Some(Hand(elements[0], bid.value, value));
  }

  /** The lines read as hands, `None` when one of them fails. */
  ghost function HandsOf(lines: seq<string>): (r: Option<seq<Hand>>)
    ensures r.Some? ==> |r.value| == |lines|
    ensures r.Some? ==> forall i :: 0 <= i < |lines| ==> HandOf(lines[i]) == Some(r.value[i])
  {
    if lines == [] then Some([])
    else
      var n := |lines| - 1;
      assert forall i :: 0 <= i < n ==> lines[..n][i] == lines[i];
      match (HandsOf(lines[..n]), HandOf(lines[n]))
      case (Some(hands), Some(hand)) => Some(hands + [hand])
      case _ => None
  }

  /** `determine_hands`. */
  method DetermineHands(lines: seq<string>) returns (hands: Option<seq<Hand>>)
    ensures hands == HandsOf(lines)
  {
    var found: seq<Hand> := [];
    for i := 0 to |lines|
      invariant HandsOf(lines[..i]) == Some(found)
    {
      var hand := CreateHand(lines[i]);
      assert lines[..i + 1][..i] == lines[..i] && lines[..i + 1][i] == lines[i];
      if hand.None? {
        HandsOfPrefix(lines, i + 1);
        return None;
      }
      found := found + [hand.value];
    }
    assert lines[..|lines|] == lines;
    hands := Some(found);
  }

  lemma {:induction false} HandsOfStep(lines: seq<string>)
    requires lines != [] && HandsOf(lines[..|lines| - 1]).None?
    ensures HandsOf(lines).None?
  {
  }

  lemma {:induction false} HandsOfPrefix(lines: seq<string>, k: nat)
    requires k <= |lines| && HandsOf(lines[..k]).None?
    ensures HandsOf(lines).None?
    decreases |lines|
  {
    if k < |lines| {
      var front := lines[..|lines| - 1];
      assert front[..k] == lines[..k];
      assert HandsOf(front[..k]).None?;
      HandsOfPrefix(front, k);
      HandsOfStep(lines);
    } else {
      assert lines[..k] == lines;
    }
  }

  /** `card_orders`: the ranks of the cards, weakest first. */
  const CardOrders: string := "23456789TJQKA"

  /** `card_orders.index(c)`, `None` for a card not in the list. */
  function Rank(c: char): Option<nat>
  {
    RankFrom(c, 0)
  }

  function RankFrom(c: char, i: nat): Option<nat>
    requires i <= |CardOrders|
    decreases |CardOrders| - i
  {
    if i == |CardOrders| then None
    else if CardOrders[i] == c then Some(i)
    else RankFrom(c, i + 1)
  }

  /** A card's rank is its position in `card_orders`; only cards outside
      the list have none. */
  lemma {:induction false} RankMeaning(c: char)
    ensures Rank(c).Some? ==> Rank(c).value < |CardOrders| && CardOrders[Rank(c).value] == c
    ensures Rank(c).None? <==> c !in CardOrders
  {
    RankFromMeaning(c, 0);
  }

  lemma {:induction false} RankFromMeaning(c: char, i: nat)
    requires i <= |CardOrders|
    ensures RankFrom(c, i).Some? ==>
      i <= RankFrom(c, i).value < |CardOrders| && CardOrders[RankFrom(c, i).value] == c
    ensures RankFrom(c, i).None? <==> forall k :: i <= k < |CardOrders| ==> CardOrders[k] != c
    decreases |CardOrders| - i
  {
    if i < |CardOrders| && CardOrders[i] != c {
      RankFromMeaning(c, i + 1);
    }
  }

  /** The ranks of the given cards, `None` when one is not a card. */
  function Ranks(cards: string): (r: Option<seq<int>>)
    ensures r.Some? ==> |r.value| == |cards|
  {
    if cards == [] then Some([])
    else
      var n := |cards| - 1;
      match (Ranks(cards[..n]), Rank(cards[n]))
      case (Some(rs), Some(rank)) => Some(rs + [rank])
      case _ => None
  }

  lemma {:induction false} RanksDefined(cards: string)
    ensures Ranks(cards).Some? <==> forall i :: 0 <= i < |cards| ==> cards[i] in CardOrders
  {
    if cards != [] {
      var n := |cards| - 1;
      RanksDefined(cards[..n]);
      RankMeaning(cards[n]);
      assert forall i :: 0 <= i < n ==> cards[..n][i] == cards[i];
    }
  }

  /** The sort key of a hand: its value and the ranks of its first five
      cards; `None` when a hand is shorter or one of those cards is not a
      card, where `card_orders.index` raises. */
  function Key(hand: Hand): (r: Option<seq<int>>)
    ensures r.Some? ==> |r.value| == 6 && r.value[0] == hand.value
  {
    if |hand.cards| < 5 then None
    else match Ranks(hand.cards[..5])
      case None => None
      case Some(ranks) => Some([hand.value] + ranks)
  }

  /** A hand has a key exactly when it has five cards from `card_orders`
      to start with. */
  lemma {:induction false} KeyDefined(hand: Hand)
    ensures Key(hand).Some? <==>
      |hand.cards| >= 5 && forall i :: 0 <= i < 5 ==> hand.cards[i] in CardOrders
  {
    if |hand.cards| >= 5 {
      RanksDefined(hand.cards[..5]);
      assert forall i :: 0 <= i < 5 ==> hand.cards[..5][i] == hand.cards[i];
    }
  }

  /** Python's tuple order: lexicographic, a prefix first. */
  predicate KeyLe(a: seq<int>, b: seq<int>)
  {
    a == [] || (b != [] && (a[0] < b[0] || (a[0] == b[0] && KeyLe(a[1..], b[1..]))))
  }

  lemma {:induction false} KeyLeTotal(a: seq<int>, b: seq<int>)
    requires |a| == |b|
    ensures KeyLe(a, b) || KeyLe(b, a)
  {
    if a != [] && a[0] == b[0] {
      KeyLeTotal(a[1..], b[1..]);
    }
  }

  lemma {:induction false} KeyLeTransitive(a: seq<int>, b: seq<int>, c: seq<int>)
    requires KeyLe(a, b) && KeyLe(b, c)
    ensures KeyLe(a, c)
  {
    if a != [] && a[0] == b[0] && b[0] == c[0] {
      KeyLeTransitive(a[1..], b[1..], c[1..]);
    }
  }

  /** Every hand has a key. */
  predicate AllKeyed(hands: seq<Hand>)
  {
    forall i :: 0 <= i < |hands| ==> Key(hands[i]).Some?
  }

  /** Hands in order: every earlier hand's key is at most every later
      one's. */
  predicate InOrder(hands: seq<Hand>)
    requires AllKeyed(hands)
  {
    forall i, j :: 0 <= i < j < |hands| ==> KeyLe(Key(hands[i]).value, Key(hands[j]).value)
  }

  /** Inserts `hand` after every hand at the end whose key is at most its
      own: the place a stable sort gives an element that came after them. */
  function InsertHand(hand: Hand, hands: seq<Hand>): (r: seq<Hand>)
    requires Key(hand).Some? && AllKeyed(hands)
    ensures AllKeyed(r) && multiset(r) == multiset(hands) + multiset{hand}
  {
    if hands == [] || KeyLe(Key(hands[|hands| - 1]).value, Key(hand).value) then hands + [hand]
    else
      var n := |hands| - 1;
      assert hands == hands[..n] + [hands[n]];
      InsertHand(hand, hands[..n]) + [hands[n]]
  }

  lemma {:induction false} InsertHandInOrder(hand: Hand, hands: seq<Hand>)
    requires Key(hand).Some? && AllKeyed(hands) && InOrder(hands)
    ensures InOrder(InsertHand(hand, hands))
  {
    var key := Key(hand).value;
    if hands == [] {
    } else if KeyLe(Key(hands[|hands| - 1]).value, key) {
      var last := Key(hands[|hands| - 1]).value;
      forall i | 0 <= i < |hands| - 1 ensures KeyLe(Key(hands[i]).value, key) {
        KeyLeTransitive(Key(hands[i]).value, last, key);
      }
    } else {
      var n := |hands| - 1;
      var last, front := hands[n], hands[..n];
      assert hands == front + [last];
      InsertHandInOrder(hand, front);
      var rest := InsertHand(hand, front);
      KeyLeTotal(Key(last).value, key);
      forall i | 0 <= i < |rest| ensures KeyLe(Key(rest[i]).value, Key(last).value) {
        assert rest[i] in multiset(rest);
        if rest[i] != hand {
          assert rest[i] in multiset(front);
          var j :| 0 <= j < |front| && front[j] == rest[i];
          assert hands[j] == front[j];
        }
      }
      assert InsertHand(hand, hands) == rest + [last];
    }
  }

  /** A stable insertion sort by key. */
  function SortHands(hands: seq<Hand>): (r: seq<Hand>)
    requires AllKeyed(hands)
    ensures AllKeyed(r) && multiset(r) == multiset(hands)
  {
    if hands == [] then []
    else
      var n := |hands| - 1;
      assert hands == hands[..n] + [hands[n]];
      InsertHand(hands[n], SortHands(hands[..n]))
  }

  lemma {:induction false} SortHandsInOrder(hands: seq<Hand>)
    requires AllKeyed(hands)
    ensures InOrder(SortHands(hands))
  {
    if hands != [] {
      var n := |hands| - 1;
      SortHandsInOrder(hands[..n]);
      InsertHandInOrder(hands[n], SortHands(hands[..n]));
    }
  }

  /** `order_hands`: the hands sorted stably by value and then by the ranks
      of their cards in turn; `None` when some hand's key cannot be
      formed. */
  function OrderHands(hands: seq<Hand>): (r: Option<seq<Hand>>)
    ensures r.Some? <==> AllKeyed(hands)
    ensures r.Some? ==> AllKeyed(r.value) && multiset(r.value) == multiset(hands)
  {
    if AllKeyed(hands) then Some(SortHands(hands)) else None
  }

  /** `order_hands` fails exactly when some hand has fewer than five cards
      or one outside `card_orders` among its first five; otherwise it
      returns the same hands, in order. */
  lemma {:induction false} OrderHandsFacts(hands: seq<Hand>)
    ensures OrderHands(hands).Some? <==> forall i :: 0 <= i < |hands| ==>
      |hands[i].cards| >= 5 && forall k :: 0 <= k < 5 ==> hands[i].cards[k] in CardOrders
    ensures OrderHands(hands).Some? ==>
      multiset(OrderHands(hands).value) == multiset(hands) && InOrder(OrderHands(hands).value)
  {
    forall i | 0 <= i < |hands| {
      KeyDefined(hands[i]);
    }
    if AllKeyed(hands) {
      SortHandsInOrder(hands);
    }
  }

  /** The winnings of ordered hands: each bid times its position, counting
      from 1. */
  function Winnings(ordered: seq<Hand>): int
  {
    if ordered == [] then 0
    else Winnings(ordered[..|ordered| - 1]) + |ordered| * ordered[|ordered| - 1].bid
  }

  /** With every bid equal to `b`, the winnings are `b * n (n + 1) / 2`. */
  lemma {:induction false} WinningsEqualBids(ordered: seq<Hand>, b: int)
    requires forall i :: 0 <= i < |ordered| ==> ordered[i].bid == b
    ensures 2 * Winnings(ordered) == b * |ordered| * (|ordered| + 1)
  {
    if ordered != [] {
      var n := |ordered|;
      WinningsEqualBids(ordered[..n - 1], b);
      assert b * (n - 1) * n + 2 * n * b == b * n * (n + 1);
    }
  }

  /** `calculate_winnings`. */
  method CalculateWinnings(hands: seq<Hand>) returns (winnings: Option<int>)
    ensures winnings.None? <==> OrderHands(hands).None?
    ensures winnings.Some? ==> winnings.value == Winnings(OrderHands(hands).value)
  {
    var ordered := OrderHands(hands);
    if ordered.None? {
      return None;
    }
    var total := SumWinnings(ordered.value);
    winnings := Some(total);
  }

  /** The loop of `calculate_winnings` over hands already in order. */
  method SumWinnings(ordered: seq<Hand>) returns (total: int)
    ensures total == Winnings(ordered)
  {
    total := 0;
    for index := 0 to |ordered|
      invariant total == Winnings(ordered[..index])
    {
      assert ordered[..index + 1][..index] == ordered[..index];
      total := total + (index + 1) * ordered[index].bid;
    }
    assert ordered[..|ordered|] == ordered;
  }

  /** `solve_problem`'s part 1: the winnings of the hands read from the
      lines. */
  method SolveProblem(lines: seq<string>) returns (part1: Option<int>)
    ensures part1.Some? <==> HandsOf(lines).Some? && OrderHands(HandsOf(lines).value).Some?
    ensures part1.Some? ==> part1.value == Winnings(OrderHands(HandsOf(lines).value).value)
  {
    var hands := DetermineHands(lines);
    if hands.None? {
      return None;
    }
    part1 := CalculateWinnings(hands.value);
  }
}
