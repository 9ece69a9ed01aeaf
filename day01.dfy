/** Day 1: trebuchet calibration. Every occurrence of a digit token in a
    line is found (the numerals 1 to 9 and, in the second part, the words
    "one" to "nine", overlapping ones included); the line's value is the
    first and last token's digits written side by side, and the calibration
    sum adds the values of all lines. */
module Day01 {
  import opened Text
  import opened Sums

  /** A token searched for: a numeral or a spelled-out digit. */
  datatype Token = Numeral(n: nat) | Word(w: string)

  const NumeralDigits: seq<nat> := [1, 2, 3, 4, 5, 6, 7, 8, 9]
  const WordDigits: seq<string> := ["one", "two", "three", "four", "five", "six", "seven", "eight", "nine"]

  /** `str(digit)`: the text searched for. */
  function TokenText(t: Token): string
  {
    match t
    case Numeral(n) => NatToString(n)
    case Word(w) => w
  }

  /** The tokens searched for, numerals first, then the words when they
      count. */
  function Digits(wordsPossible: bool): (r: seq<Token>)
    ensures forall i :: 0 <= i < |r| ==> TokenText(r[i]) != []
  {
    var numerals := seq(9, i requires 0 <= i < 9 => Numeral(NumeralDigits[i]));
    var words := seq(9, i requires 0 <= i < 9 => Word(WordDigits[i]));
    numerals + (if wordsPossible then words else [])
  }

  /** An occurrence of a token: the token and where it starts. */
  datatype NumberInLine = NumberInLine(value: Token, index: int)

  // ---------------------------------------------------------------------
  // Finding the tokens

  /** The positions of `sub` in `line` at or after `i`, found by repeated
      `find` calls that resume one past the last hit. */
  function Occurrences(line: string, sub: string, i: nat): seq<int>
    requires |sub| > 0
    decreases |line| + 1 - i
  {
    var j := FindFrom(line, sub, i);
    if j == -1 then [] else [j] + Occurrences(line, sub, j + 1)
  }

  /** Every position where `sub` occurs at or after `i` is reported,
      overlapping ones included, in increasing order. */
  lemma OccurrencesMeaning(line: string, sub: string, i: nat)
    requires |sub| > 0
    ensures forall k :: k in Occurrences(line, sub, i) <==> i <= k && OccursAt(line, sub, k)
    ensures forall a, b :: 0 <= a < b < |Occurrences(line, sub, i)| ==>
      Occurrences(line, sub, i)[a] < Occurrences(line, sub, i)[b]
  {
    OccurrencesFound(line, sub, i);
    OccurrencesIncreasing(line, sub, i);
  }

  /** The reported positions are exactly those at or after `i` where `sub`
      occurs. */
  lemma OccurrencesFound(line: string, sub: string, i: nat)
    requires |sub| > 0
    ensures forall k :: k in Occurrences(line, sub, i) <==> i <= k && OccursAt(line, sub, k)
  {
    forall k ensures k in Occurrences(line, sub, i) <==> i <= k && OccursAt(line, sub, k) {
      OccurrenceAt(line, sub, i, k);
    }
  }

  /** One position is reported exactly when `sub` occurs there, at or
      after `i`. */
  lemma {:induction false} OccurrenceAt(line: string, sub: string, i: nat, k: int)
    requires |sub| > 0
    ensures k in Occurrences(line, sub, i) <==> i <= k && OccursAt(line, sub, k)
    decreases |line| + 1 - i
  {
    var j := FindFrom(line, sub, i);
    if j != -1 {
      OccurrenceAt(line, sub, j + 1, k);
    }
  }

  /** The reported positions are at or after `i` and strictly increasing. */
  lemma {:induction false} OccurrencesIncreasing(line: string, sub: string, i: nat)
    requires |sub| > 0
    ensures forall a :: 0 <= a < |Occurrences(line, sub, i)| ==> Occurrences(line, sub, i)[a] >= i
    ensures forall a, b :: 0 <= a < b < |Occurrences(line, sub, i)| ==>
      Occurrences(line, sub, i)[a] < Occurrences(line, sub, i)[b]
    decreases |line| + 1 - i
  {
    var j := FindFrom(line, sub, i);
    if j != -1 {
      OccurrencesIncreasing(line, sub, j + 1);
      var rest := Occurrences(line, sub, j + 1);
      var all := Occurrences(line, sub, i);
      assert all == [j] + rest;
      forall a, b | 0 <= a < b < |all| ensures all[a] < all[b] {
        if a > 0 {
          assert all[a] == rest[a - 1] && all[b] == rest[b - 1];
        } else {
          assert all[b] == rest[b - 1];
        }
      }
    }
  }

  /** The occurrences of one token at the given positions. */
  function Place(t: Token, ks: seq<int>): seq<NumberInLine>
  {
    seq(|ks|, i requires 0 <= i < |ks| => NumberInLine(t, ks[i]))
  }

  /** What `find_all_numbers_in_line` collects: for each token in turn,
      all its positions in increasing order. */
  function AllNumbers(line: string, tokens: seq<Token>): seq<NumberInLine>
    requires forall i :: 0 <= i < |tokens| ==> TokenText(tokens[i]) != []
  {
    if tokens == [] then []
    else
      var n := |tokens| - 1;
      AllNumbers(line, tokens[..n]) + Place(tokens[n], Occurrences(line, TokenText(tokens[n]), 0))
  }

  /** An occurrence is collected exactly when its token is searched for and
      its text starts at that position. */
  lemma {:induction false} AllNumbersMeaning(line: string, tokens: seq<Token>, x: NumberInLine)
    requires forall i :: 0 <= i < |tokens| ==> TokenText(tokens[i]) != []
    ensures x in AllNumbers(line, tokens) <==>
      x.value in tokens && 0 <= x.index && OccursAt(line, TokenText(x.value), x.index)
  {
    if tokens != [] {
      var n := |tokens| - 1;
      var t := tokens[n];
      AllNumbersMeaning(line, tokens[..n], x);
      OccurrenceAt(line, TokenText(t), 0, x.index);
      PlaceMeaning(t, Occurrences(line, TokenText(t), 0), x);
      assert tokens == tokens[..n] + [t];
    }
  }

  /** An occurrence is placed exactly when it is of the token at one of
      the positions. */
  lemma PlaceMeaning(t: Token, ks: seq<int>, x: NumberInLine)
    ensures x in Place(t, ks) <==> x.value == t && x.index in ks
  {
    if x in Place(t, ks) {
      var i :| 0 <= i < |ks| && Place(t, ks)[i] == x;
    }
    if x.value == t && x.index in ks {
      var i :| 0 <= i < |ks| && ks[i] == x.index;
      assert Place(t, ks)[i] == x;
    }
  }

  /** What the search still has to report when the last `find` call
      returned `index`: nothing after a miss, the hit and the positions
      after it otherwise. */
  ghost predicate Pending(line: string, text: string, index: int, rest: seq<int>)
    requires |text| > 0
  {
    if index == -1 then rest == []
    else 0 <= index < |line| && rest == [index] + Occurrences(line, text, index + 1)
  }

  /** One `line.find(text, start)` call: no hit ends the positions, a hit
      is the next position. */
  method FindNext(line: string, text: string, start: nat) returns (index: int)
    requires |text| > 0
    ensures index == -1 || start <= index
    ensures Pending(line, text, index, Occurrences(line, text, start))
  {
    index := Find(line, text, start);
  }

  lemma {:induction false} PlaceAppend(numbers: seq<NumberInLine>, t: Token, ks: seq<int>, k: int)
    ensures numbers + Place(t, ks + [k]) == (numbers + Place(t, ks)) + [NumberInLine(t, k)]
  {
    assert Place(t, ks + [k]) == Place(t, ks) + [NumberInLine(t, k)];
  }

  lemma {:induction false} MoveHead(done: seq<int>, rest: seq<int>)
    requires rest != []
    ensures (done + [rest[0]]) + rest[1..] == done + rest
  {
    assert rest == [rest[0]] + rest[1..];
  }

  /** The `while` loop for one token: every position of its text, in
      order. */
  method FindPositions(line: string, t: Token, numbers: seq<NumberInLine>) returns (found: seq<NumberInLine>)
    requires TokenText(t) != []
    ensures found == numbers + Place(t, Occurrences(line, TokenText(t), 0))
  {
    var text := TokenText(t);
    found := numbers;
    ghost var done: seq<int> := [];
    var index := FindNext(line, text, 0);
    ghost var rest := Occurrences(line, text, 0);
    while index != -1
      invariant Occurrences(line, text, 0) == done + rest
      invariant Pending(line, text, index, rest)
      invariant found == numbers + Place(t, done)
      decreases if index == -1 then 0 else |line| + 1 - index
    {
      PlaceAppend(numbers, t, done, index);
      MoveHead(done, rest);
      found := found + [NumberInLine(t, index)];
      done := done + [index];
      rest := rest[1..];
      index := FindNext(line, text, index + 1);
    }
    assert done + [] == done;
  }

  /** `find_all_numbers_in_line`. */
  method FindAllNumbersInLine(line: string, wordsPossible: bool) returns (numbers: seq<NumberInLine>)
    ensures numbers == AllNumbers(line, Digits(wordsPossible))
  {
    var digits := Digits(wordsPossible);
    numbers := [];
    for i := 0 to |digits|
      invariant numbers == AllNumbers(line, digits[..i])
    {
      assert digits[..i + 1][..i] == digits[..i];
      numbers := FindPositions(line, digits[i], numbers);
    }
    assert digits[..|digits|] == digits;
  }

  // ---------------------------------------------------------------------
  // First and last

  /** Inserts `x` after every entry at the end with no larger index: the
      place a stable sort gives an element that came after them. */
  function InsertByIndex(x: NumberInLine, xs: seq<NumberInLine>): (r: seq<NumberInLine>)
    ensures multiset(r) == multiset(xs) + multiset{x}
  {
    if xs == [] || xs[|xs| - 1].index <= x.index then xs + [x]
    else
      var n := |xs| - 1;
      assert xs == xs[..n] + [xs[n]];
      InsertByIndex(x, xs[..n]) + [xs[n]]
  }

  predicate SortedByIndex(xs: seq<NumberInLine>)
  {
    forall i, j :: 0 <= i < j < |xs| ==> xs[i].index <= xs[j].index
  }

  lemma {:induction false} InsertByIndexSorted(x: NumberInLine, xs: seq<NumberInLine>)
    requires SortedByIndex(xs)
    ensures SortedByIndex(InsertByIndex(x, xs))
  {
    if xs != [] && xs[|xs| - 1].index > x.index {
      var n := |xs| - 1;
      var front, last := xs[..n], xs[n];
      InsertByIndexSorted(x, front);
      var rest := InsertByIndex(x, front);
      InsertByIndexBounded(x, front, last.index);
      var r := rest + [last];
      assert InsertByIndex(x, xs) == r;
      forall i, j | 0 <= i < j < |r| ensures r[i].index <= r[j].index {
        if j < |rest| {
          assert r[i] == rest[i] && r[j] == rest[j];
        } else {
          assert r[i] == rest[i];
        }
      }
    }
  }

  /** Inserting below a bound every entry respects keeps every entry
      below it. */
  lemma {:induction false} InsertByIndexBounded(x: NumberInLine, xs: seq<NumberInLine>, bound: int)
    requires x.index <= bound && forall j :: 0 <= j < |xs| ==> xs[j].index <= bound
    ensures forall i :: 0 <= i < |InsertByIndex(x, xs)| ==> InsertByIndex(x, xs)[i].index <= bound
  {
    var r := InsertByIndex(x, xs);
    forall i | 0 <= i < |r| ensures r[i].index <= bound {
      assert r[i] in multiset(r);
      if r[i] != x {
        assert r[i] in multiset(xs);
      }
    }
  }

  /** `sorted(numbers_array, key=lambda x: x.index)`: a stable insertion
      sort by position. */
  function SortByIndex(xs: seq<NumberInLine>): (r: seq<NumberInLine>)
    ensures multiset(r) == multiset(xs) && |r| == |xs|
  {
    if xs == [] then []
    else
      var n := |xs| - 1;
      assert xs == xs[..n] + [xs[n]];
      var r := InsertByIndex(xs[n], SortByIndex(xs[..n]));
      assert |r| == |multiset(r)|;
      r
  }

  lemma {:induction false} SortByIndexSorted(xs: seq<NumberInLine>)
    ensures SortedByIndex(SortByIndex(xs))
  {
    if xs != [] {
      var n := |xs| - 1;
      SortByIndexSorted(xs[..n]);
      InsertByIndexSorted(xs[n], SortByIndex(xs[..n]));
    }
  }

  /** After sorting, the first occurrence has the smallest position and the
      last one the largest, and both are among the occurrences. */
  lemma {:induction false} SortedEnds(xs: seq<NumberInLine>)
    requires xs != []
    ensures var r := SortByIndex(xs);
      && r[0] in xs && r[|r| - 1] in xs
      && forall x :: x in xs ==> r[0].index <= x.index <= r[|r| - 1].index
  {
    var r := SortByIndex(xs);
    SortByIndexSorted(xs);
    assert r[0] in multiset(r) && r[|r| - 1] in multiset(r);
    forall x | x in xs ensures r[0].index <= x.index <= r[|r| - 1].index {
      assert x in multiset(xs);
      assert x in multiset(r);
      var j :| 0 <= j < |r| && r[j] == x;
    }
  }

  /** `word_digits.index(digit)`, `None` for a word not in the list. */
  function WordIndex(word: string, i: nat): (r: Option<nat>)
    requires i <= 9
    ensures r.Some? ==> i <= r.value < 9 && WordDigits[r.value] == word
    decreases 9 - i
  {
    if i == 9 then None
    else if WordDigits[i] == word then Some(i)
    else WordIndex(word, i + 1)
  }

  /** `convert_string_to_number`: the word's place in the list, counted
      from 1; a word not in the list is the ValueError case, `None`. */
  function ConvertStringToNumber(digit: string): (r: Option<nat>)
  {
    match WordIndex(digit, 0)
    case None => None
    case Some(index) => Some(index + 1)
  }

  /** Each of the nine words converts to its digit. */
  lemma {:induction false} ConvertWords()
    ensures forall i :: 0 <= i < 9 ==> ConvertStringToNumber(WordDigits[i]) == Some(i + 1)
  {
    assert ConvertStringToNumber("one") == Some(1);
    assert ConvertStringToNumber("two") == Some(2);
    assert ConvertStringToNumber("three") == Some(3);
    assert ConvertStringToNumber("four") == Some(4);
    assert ConvertStringToNumber("five") == Some(5);
    assert ConvertStringToNumber("six") == Some(6);
    assert ConvertStringToNumber("seven") == Some(7);
    assert ConvertStringToNumber("eight") == Some(8);
    assert ConvertStringToNumber("nine") == Some(9);
  }

  /** The digit an occurrence stands for: a numeral is its own value, any
      other text goes through `convert_string_to_number`. */
  function TokenValue(t: Token): Option<nat>
  {
    var text := TokenText(t);
    if |text| > 0 && AllDigits(text) then Some(DigitsValue(text))
    else match t
      case Numeral(n) => Some(n)
      case Word(w) => ConvertStringToNumber(w)
  }

  /** Every token searched for stands for a digit from 1 to 9. */
  lemma {:induction false} TokenValues(wordsPossible: bool, t: Token)
    requires t in Digits(wordsPossible)
    ensures TokenValue(t).Some? && 1 <= TokenValue(t).value <= 9
  {
    var ts := Digits(wordsPossible);
    var i :| 0 <= i < |ts| && ts[i] == t;
    if i < 9 {
      var n := NumeralDigits[i];
      assert t == Numeral(n) && 1 <= n <= 9;
      assert TokenText(t) == [DigitChar(n)];
      assert TokenText(t)[..0] == [];
    } else {
      var w := WordDigits[i - 9];
      assert t == Word(w);
      assert !IsDigit(w[0]);
      ConvertWords();
    }
  }

  /** `determine_first_and_last_numbers_for_line`: the digits of the
      occurrences with the smallest and the largest position; an empty list
      is the IndexError case, `None`. */
  function FirstAndLast(numbers: seq<NumberInLine>): Option<(nat, nat)>
  {
    if numbers == [] then None
    else
      var sorted := SortByIndex(numbers);
      match (TokenValue(sorted[0].value), TokenValue(sorted[|sorted| - 1].value))
      case (Some(first), Some(last)) => Some((first, last))
      case _ => None
  }

  /** The number written by the digits of `first` followed by those of
      `last`. */
  function Combine(first: nat, last: nat): nat
  {
    if last < 10 then 10 * first + last else 10 * Combine(first, last / 10) + last % 10
  }

  lemma {:induction false} CombineText(first: nat, last: nat)
    ensures AllDigits(NatToString(first) + NatToString(last))
    ensures DigitsValue(NatToString(first) + NatToString(last)) == Combine(first, last)
  {
    var a := NatToString(first);
    if last < 10 {
      NatToStringValue(first);
      DigitsValueSnoc(a, DigitChar(last));
    } else {
      var b := NatToString(last / 10);
      CombineText(first, last / 10);
      assert a + NatToString(last) == (a + b) + [DigitChar(last % 10)];
      DigitsValueSnoc(a + b, DigitChar(last % 10));
    }
  }

  /** `int(str(first) + str(last))` reads back `Combine(first, last)`. */
  lemma {:induction false} CombineReadsBack(first: nat, last: nat)
    ensures ParseInt(NatToString(first) + NatToString(last)) == Some(Combine(first, last))
  {
    CombineText(first, last);
  }

  /** Two digits from 1 to 9 combine to ten times the first plus the last,
      between 11 and 99. */
  lemma {:induction false} CombineDigits(first: nat, last: nat)
    requires 1 <= first <= 9 && 1 <= last <= 9
    ensures Combine(first, last) == 10 * first + last
    ensures 11 <= 10 * first + last <= 99
  {
  }

  /** `combine_first_and_last_numbers_from_line_into_new_number` applied to
      what `find_all_numbers_in_line` finds. */
  function LineValue(line: string, wordsPossible: bool): Option<int>
  {
    match FirstAndLast(AllNumbers(line, Digits(wordsPossible)))
    case None => None
    case Some((first, last)) => Some(Combine(first, last))
  }

  /** A line fails exactly when no token occurs in it; otherwise its value
      is ten times the digit of the earliest occurrence plus the digit of
      the latest, between 11 and 99. */
  lemma {:induction false} LineValueMeaning(line: string, wordsPossible: bool)
    ensures LineValue(line, wordsPossible).None? <==> AllNumbers(line, Digits(wordsPossible)) == []
    ensures LineValue(line, wordsPossible).Some? ==>
      var numbers := AllNumbers(line, Digits(wordsPossible));
      var sorted := SortByIndex(numbers);
      && LineValue(line, wordsPossible).value ==
           10 * TokenValue(sorted[0].value).value + TokenValue(sorted[|sorted| - 1].value).value
      && 11 <= LineValue(line, wordsPossible).value <= 99
  {
    var numbers := AllNumbers(line, Digits(wordsPossible));
    if numbers != [] {
      var sorted := SortByIndex(numbers);
      SortedEnds(numbers);
      AllNumbersMeaning(line, Digits(wordsPossible), sorted[0]);
      AllNumbersMeaning(line, Digits(wordsPossible), sorted[|sorted| - 1]);
      TokenValues(wordsPossible, sorted[0].value);
      TokenValues(wordsPossible, sorted[|sorted| - 1].value);
      CombineDigits(TokenValue(sorted[0].value).value, TokenValue(sorted[|sorted| - 1].value).value);
    }
  }

  /** A line whose only digit is 7, such as "treb7uchet", has 7 as both
      its first and its last digit and reads 77. */
  lemma {:induction false} ExampleNumeral()
    ensures ParseInt(NatToString(7) + NatToString(7)) == Some(77)
  {
    CombineReadsBack(7, 7);
    CombineDigits(7, 7);
  }

  // ---------------------------------------------------------------------
  // The calibration sum

  /** Every line's value, `None` when some line has no token. */
  function LineValues(lines: seq<string>, wordsPossible: bool): (r: Option<seq<int>>)
    ensures r.Some? ==> |r.value| == |lines|
  {
    if lines == [] then Some([])
    else
      var n := |lines| - 1;
      var values := LineValues(lines[..n], wordsPossible);
      if values.None? then None
      else match LineValue(lines[n], wordsPossible)
        case None => None
        case Some(v) => Some(values.value + [v])
  }

  lemma {:induction false} LineValuesPrefix(lines: seq<string>, wordsPossible: bool, k: nat)
    requires k <= |lines| && LineValues(lines[..k], wordsPossible).None?
    ensures LineValues(lines, wordsPossible).None?
    decreases |lines| - k
  {
    if k < |lines| {
      assert lines[..k + 1][..k] == lines[..k];
      assert LineValues(lines[..k + 1], wordsPossible).None?;
      LineValuesPrefix(lines, wordsPossible, k + 1);
    } else {
      assert lines[..k] == lines;
    }
  }

  /** `combine_first_and_last_numbers_from_line_into_new_number`: the two
      digits written side by side and read back with `int`. */
  method CombineFirstAndLast(numbers: seq<NumberInLine>) returns (value: Option<int>)
    ensures value == (match FirstAndLast(numbers) case None => None case Some((f, l)) => Some(Combine(f, l)))
  {
    var firstAndLast := FirstAndLast(numbers);
    if firstAndLast.None? {
      return None;
    }
    var (first, last) := firstAndLast.value;
    var compositeString := NatToString(first) + NatToString(last);
    value := ParseInt(compositeString);
    CombineReadsBack(first, last);
  }

  /** The body of the loop of `get_calibration_sum_based_on_word_possibility`:
      one line's value. */
  method CalibrationValue(line: string, wordsPossible: bool) returns (value: Option<int>)
    ensures value == LineValue(line, wordsPossible)
  {
    var numbers := FindAllNumbersInLine(line, wordsPossible);
    value := CombineFirstAndLast(numbers);
  }

  /** `get_calibration_sum_based_on_word_possibility` on the text of the
      input: the lines are the pieces between "\n". */
  method GetCalibrationSum(chunk: string, wordsPossible: bool) returns (total: Option<int>)
    ensures total.Some? <==> LineValues(Split(chunk, "\n"), wordsPossible).Some?
    ensures total.Some? ==> total.value == Sum(LineValues(Split(chunk, "\n"), wordsPossible).value)
  {
    total := SumLines(Split(chunk, "\n"), wordsPossible);
  }

  /** The loop of `get_calibration_sum_based_on_word_possibility`: the
      values of the lines added up, stopping at the first line that fails. */
  method SumLines(lines: seq<string>, wordsPossible: bool) returns (total: Option<int>)
    ensures total.Some? <==> LineValues(lines, wordsPossible).Some?
    ensures total.Some? ==> total.value == Sum(LineValues(lines, wordsPossible).value)
  {
    var sum := 0;
    for i := 0 to |lines|
      invariant LineValues(lines[..i], wordsPossible).Some?
      invariant sum == Sum(LineValues(lines[..i], wordsPossible).value)
    {
      var ok;
      ok, sum := AddLine(lines, wordsPossible, i, sum);
      if !ok {
        LineValuesPrefix(lines, wordsPossible, i + 1);
        return None;
      }
    }
    assert lines[..|lines|] == lines;
    total := Some(sum);
  }

  /** One round of the loop: the value of line `i` added to the total. */
  method AddLine(lines: seq<string>, wordsPossible: bool, i: nat, sum: int) returns (ok: bool, newSum: int)
    requires i < |lines| && LineValues(lines[..i], wordsPossible).Some?
    requires sum == Sum(LineValues(lines[..i], wordsPossible).value)
    ensures ok <==> LineValues(lines[..i + 1], wordsPossible).Some?
    ensures ok ==> newSum == Sum(LineValues(lines[..i + 1], wordsPossible).value)
  {
    var finalDigit := CalibrationValue(lines[i], wordsPossible);
    LineValuesStep(lines, wordsPossible, i);
    if finalDigit.None? {
      return false, sum;
    }
    SumSnoc(LineValues(lines[..i], wordsPossible).value, finalDigit.value);
    return true, sum + finalDigit.value;
  }

  /** One more line: its value is appended, or the values fail with it. */
  lemma {:induction false} LineValuesStep(lines: seq<string>, wordsPossible: bool, i: nat)
    requires i < |lines| && LineValues(lines[..i], wordsPossible).Some?
    ensures LineValues(lines[..i + 1], wordsPossible) ==
      match LineValue(lines[i], wordsPossible)
      case None => None
      case Some(v) => Some(LineValues(lines[..i], wordsPossible).value + [v])
  {
    assert lines[..i + 1][..i] == lines[..i];
  }

  /** A calibration sum lies between 11 and 99 times the number of lines. */
  lemma {:induction false} CalibrationBounds(lines: seq<string>, wordsPossible: bool)
    requires LineValues(lines, wordsPossible).Some?
    ensures 11 * |lines| <= Sum(LineValues(lines, wordsPossible).value) <= 99 * |lines|
  {
    if lines != [] {
      var n := |lines| - 1;
      var values := LineValues(lines, wordsPossible).value;
      CalibrationBounds(lines[..n], wordsPossible);
      LineValueMeaning(lines[n], wordsPossible);
      assert values[..n] == LineValues(lines[..n], wordsPossible).value;
    }
  }

  /** `solution`: the first part reads numerals only, the second numerals
      and words; each part has its own input text. */
  method Solution(part1Chunk: string, part2Chunk: string) returns (result: Option<(int, int)>)
    ensures result.Some? <==>
      LineValues(Split(part1Chunk, "\n"), false).Some? && LineValues(Split(part2Chunk, "\n"), true).Some?
    ensures result.Some? ==> result.value == (
      Sum(LineValues(Split(part1Chunk, "\n"), false).value),
      Sum(LineValues(Split(part2Chunk, "\n"), true).value))
  {
    var part1 := GetCalibrationSum(part1Chunk, false);
    var part2 := GetCalibrationSum(part2Chunk, true);
    if part1.None? || part2.None? {
      return None;
    }
    result := Some((part1.value, part2.value));
  }
}
