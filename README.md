# Advent of Code 2023 solvers, modelled in Dafny

This project models the solvers of a collection of Advent of Code 2023
puzzles (days 1 to 5 and 7 to 25) and the C helper `get_list_of_lines`,
and proves properties of the model. Each puzzle solver is its own module
(`Day01` … `Day25`, one file per day). The C line splitter is the module
`LineSplitter`. A few modules are shared:

- `Text` holds the string operations the solvers rely on: `str.split`, `str.find`, `int()` and `int(x, 16)`.
- `Grids` holds `zip(*rows)` transposes.
- `Numbers` holds gcd and lcm.
- `Sums` holds sums over sequences and dictionaries.

Code that loops or updates state is modelled as methods with loops. Classes
whose fields are updated in place are modelled as Dafny classes:

- `Day04.Pile`
- `Day10.Maze`
- `Day16.Contraption`
- `Day20.Configuration`
- `Day21.FarmMap`

Each method is proved against a specification function, and the lemmas
beside that function state what the solver promises. Examples: round trips
of the parsers, orderings and permutations of the sorts, the dense slot
indices of the day 15 hash table, the least-closed-set meaning of the
day 16 beam search, completeness of the day 23 depth-first search, and
Cramer's rule on day 24.

Python exceptions that the source lets escape (IndexError, KeyError,
ValueError, ZeroDivisionError) are modelled as error values: `Option` or an
`Outcome` datatype. The source's unbounded `while` loops that can run
forever on some inputs take a `fuel` bound, and running out of it is an
outcome of its own.

## Model

| member | source | states |
|---|---|---|
| Day01.OccurrencesMeaning | day_1/solution.py:76-80 | the repeated `line.find(text, index + 1)` reports every position where the text occurs, overlapping ones included, in strictly increasing order |
| Day01.FindNext | day_1/solution.py:76-80 | one `find` call: -1 exactly when no occurrence remains, otherwise the next occurrence, after which the rest follow |
| Day01.FindPositions | day_1/solution.py:77-80 | the `while` loop for one token appends every occurrence of its text, in order |
| Day01.FindAllNumbersInLine | day_1/solution.py:72-81 | the numbers found are all occurrences of the numerals, then of the words when they count, in that token order |
| Day01.AllNumbersMeaning | day_1/solution.py:72-81 | a (token, index) pair is found exactly when the token is searched for and its text occurs at that index |
| Day01.SortByIndex | day_1/solution.py:56 | sorting by position keeps the multiset of occurrences |
| Day01.SortByIndexSorted | day_1/solution.py:56 | the sorted occurrences are in non-decreasing position order |
| Day01.SortedEnds | day_1/solution.py:56-58 | the first sorted occurrence has the smallest position and the last one the largest, and both are occurrences |
| Day01.ConvertWords | day_1/solution.py:66-69 | each of the nine words converts to its position in the word list plus 1 |
| Day01.TokenValues | day_1/solution.py:59-62 | every token searched for stands for a digit from 1 to 9 |
| Day01.CombineDigits | day_1/solution.py:50-51 | `int(str(first) + str(last))` of two digits is ten times the first plus the last, between 11 and 99 |
| Day01.CombineFirstAndLast | day_1/solution.py:45-63 | the value of a line is built from its first and last occurrence; no occurrence is the IndexError of `sorted_substrings[0]` |
| Day01.LineValueMeaning | day_1/solution.py:45-63 | a line fails exactly when no token occurs in it; otherwise its value is 10 times the digit of the earliest occurrence plus that of the latest, between 11 and 99 |
| Day01.ExampleNumeral | day_1/solution.py:50-51 | an example of the doubled digit: a line whose only number is the numeral 7 reads 77 |
| Day01.CalibrationValue | day_1/solution.py:38-41 | one loop round adds the line's value |
| Day01.AddLine | day_1/solution.py:38-41 | one round of the loop fails exactly when the line has no value, and otherwise adds that value to the running total of the lines before it |
| Day01.SumLines | day_1/solution.py:37-42 | the `for` loop over the lines totals their values, failing exactly when some line has no value |
| Day01.GetCalibrationSum | day_1/solution.py:32-42 | the total is the sum of the values of the lines split at "\n", and fails exactly when some line fails |
| Day01.CalibrationBounds | day_1/solution.py:32-42 | a calibration sum lies between 11 and 99 times the number of lines |
| Day01.Solution | day_1/solution.py:25-29 | part one reads numerals only and part two numerals and words, each the calibration sum of its own text |
| Day02.TallyAppend | day_2/solution.py:128-137 | a later "count colour" piece overrides the earlier count of its colour and leaves the other colours alone; a piece with another colour word changes nothing |
| Day02.UnmentionedIsZero | day_2/solution.py:125-127 | a colour that no piece names counts 0 |
| Day02.DetermineBlockDetailsForScenario | day_2/solution.py:123-139 | a handful is its ", "-separated pieces, each setting its colour's count; a piece without two words or with a count that is not an integer is the exception case |
| Day02.DetermineBlockScenariosForGame | day_2/solution.py:114-120 | the handfuls are the "; "-separated pieces, parsed in order; one failure fails the game |
| Day02.ScenariosOf | day_2/solution.py:114-120 | a successful parse yields one handful per piece |
| Day02.DetermineGameId | day_2/solution.py:142-145 | the id is the integer of the second space-separated word, failing when it is missing or not an integer |
| Day02.CompileGameInfo | day_2/solution.py:106-111 | a game is its id before ": " and its handfuls after it |
| Day02.CompileInfoForAllGames | day_2/solution.py:98-103 | every game compiled in order; one failure fails all |
| Day02.MaximaBound | day_2/solution.py:24-36 | the per-colour maxima are never negative, no handful exceeds them, and each is 0 or shown by some handful |
| Day02.DetermineMinimumBlocksRequired | day_2/solution.py:24-36 | the loop's running maxima are the maxima over all handfuls |
| Day02.ColorProductAll | day_2/solution.py:20-21 | multiplying 1 by each colour's minimum in turn gives red × green × blue |
| Day02.CalculatePowerOfGame | day_2/solution.py:17-22 | the power is the product of the three minimum counts |
| Day02.PowerSign | day_2/solution.py:17-22 | a power is never negative, and it is 0 exactly when some colour's minimum is 0 |
| Day02.CheckIfAnyMaximumExceededInScenarios | day_2/solution.py:44-50 | the result is true exactly when some handful exceeds some colour's limit |
| Day02.PossibleIffMaximaFit | day_2/solution.py:24-50 | under non-negative limits a game is possible exactly when its minimum cubes fit within them |
| Day02.GetGameIdIfAllScenariosPossible | day_2/solution.py:38-42 | the game's id when no handful exceeds the limits, else 0 |
| Day02.PossibleIdsFit | day_2/solution.py:89-95 | under 12 red, 13 green and 14 blue each game contributes its id exactly when the minimum cubes it needs fit those limits, and 0 otherwise |
| Day02.SumAllIdsPossibleWithRules | day_2/solution.py:89-95 | the sum of those entries under 12 red, 13 green and 14 blue |
| Day02.PowersSum | day_2/solution.py:81-86 | the sum of the powers is never negative, and it is 0 exactly when every game leaves some colour unshown |
| Day02.SumPowersOfAllGames | day_2/solution.py:81-86 | the sum of the games' powers |
| Day02.Solution | day_2/solution.py:68-78 | the games are the lines of the text; the answers are the possible-id sum and the power sum, and fail exactly when some game fails to parse |
| Day03.FindAllSpecialCharacters | day_3/solution.py:94-99 | a cell is listed exactly when it is in the grid and holds one of @ # $ % & * - + = /, in row-major order |
| Day03.FindAllAdjacentNumeralCells | day_3/solution.py:115-121 | the cells returned are exactly the adjacent cells of the core that hold a digit |
| Day03.FindAllNumeralCellsAdjacentToSpecialCharacter | day_3/solution.py:108-113 | a cell is returned exactly when it holds a digit and is adjacent to some special cell |
| Day03.NumeralsNearAdd | day_3/solution.py:110-112 | extending by one special cell's adjacent digits adds exactly that cell's contribution |
| Day03.RunStartMaximal | day_3/solution.py:125-129 | every cell from the run's start up to the core holds a digit, and the cell before the start does not |
| Day03.RunEndMaximal | day_3/solution.py:126-132 | every cell after the core up to the run's end holds a digit, and the cell at the end does not |
| Day03.RunMaximal | day_3/solution.py:123-134 | the run contains the core, lies in its row, is contiguous left to right, holds digits apart from the core, and is bounded on both sides by non-digits |
| Day03.RunUnique | day_3/solution.py:123-134 | any maximal digit span through a cell is the run computed from that cell |
| Day03.RunShared | day_3/solution.py:123-134 | every digit cell of a run computes the same run |
| Day03.FirstCellDetermines | day_3/solution.py:20-30 | two runs with the same first cell are the same run |
| Day03.RunText | day_3/solution.py:33-35 | the concatenated contents of a run are the row's slice from its start to its end |
| Day03.RunDigits | day_3/solution.py:32-37 | a run through a digit cell spells a non-empty string of digits |
| Day03.GetValueOfChain | day_3/solution.py:32-37 | the value is `int` of the cells' concatenated contents, which is their decimal value when they are all digits |
| Day03.FindPartNumber | day_3/solution.py:123-134 | the part number's cells are the maximal run through the core and its value the integer they spell; it fails exactly when they do not spell an integer, never from a digit cell |
| Day03.RunPart | day_3/solution.py:123-134 | from a digit cell the part number is the run and the decimal value of its digits |
| Day03.FindAllPartNumbers | day_3/solution.py:101-106 | the part numbers are those of the runs through the digit cells adjacent to the special cells |
| Day03.PartNumbersMeaning | day_3/solution.py:101-106 | each part number contains a digit cell adjacent to a special cell and is that cell's run, its value is the decimal value of its digits, and two with the same first cell are equal |
| Day03.GetRatio | day_3/solution.py:61-65 | the ratio is the product of the part values; for two parts, their product |
| Day03.CollectAdjacentParts | day_3/solution.py:82-87 | the parts collected are exactly those with a cell among the adjacent digit cells |
| Day03.ListPair | day_3/solution.py:88 | a two-element set lists as its two distinct elements |
| Day03.FindAllGears | day_3/solution.py:75-92 | every gear is a listed '*' cell touching exactly two distinct part numbers with their product as ratio, every such cell yields a gear, and the gears come in row-major order |
| Day03.GearAt | day_3/solution.py:77-91 | one pass of the loop over special cells yields a gear exactly when the cell is a '*' touching exactly two distinct part numbers, and that gear is the cell with those parts and their product as ratio |
| Day03.PairProductAny | day_3/solution.py:87-90 | the ratio of a two-part set does not depend on the order the set is listed in |
| Day03.GearMapSum | day_3/solution.py:142-146 | summing the ratios over the gear list equals summing the cell-to-ratio map |
| Day03.GearsMatch | day_3/solution.py:75-92 | the gears found map each gear cell to its ratio, exactly as the specification of gears does |
| Day03.CalculatePartNumbersSum | day_3/solution.py:136-140 | the total is the sum of the values of the distinct part numbers |
| Day03.CalculateGearRatiosSum | day_3/solution.py:142-146 | the total is the sum of the gear ratios |
| Day03.NewSchematic | day_3/solution.py:68-73 | the special cells are exactly the grid's special cells in row-major order, the part numbers are those of the whole grid, and the gears map every gear cell of the grid to its ratio |
| Day03.SolveProblem | day_3/solution.py:149-159 | part one is the sum of the part-number values and part two the sum of the gear ratios over the grid, and part one is non-negative |
| Day04.NumbersListLeadingSpace | day_4/solution.py:26-29 | the empty pieces left by an extra space are filtered out, so a leading space does not change the parsed numbers |
| Day04.ParseCard | day_4/solution.py:9-16 | a card parses exactly when the text has a ':', the text after the first ':' has a '\|', the second word before the ':' is an integer and both '\|'-pieces hold only integers; its id is that integer and its winning and provided numbers the integers of the first two '\|'-pieces |
| Day04.ParseCards | day_4/solution.py:65-71 | one card per line, in order, each the parse of its line; the pile fails exactly when some line fails to parse |
| Day04.MatchCount | day_4/solution.py:31-36 | the matches never exceed the count of provided numbers |
| Day04.MatchCountExtremes | day_4/solution.py:31-36 | every provided number matches exactly when the count equals their number, and none matches exactly when it is zero |
| Day04.MatchCountSameWinners | day_4/solution.py:31-36 | the count depends only on which numbers win, not on their order or repetition |
| Day04.DetermineMatches | day_4/solution.py:31-36 | the loop counts the provided numbers found among the winning ones |
| Day04.Points | day_4/solution.py:38-43 | a card scores exactly when it has a match |
| Day04.PointsDouble | day_4/solution.py:38-43 | one match scores 1 and each further match doubles the score |
| Day04.DetermineIdsOfCopies | day_4/solution.py:45-49 | one copy per match, the k-th being the card id plus k plus one |
| Day04.CopyIdsKnown | day_4/solution.py:45-49 | every copy id has a count exactly when every id following the card's own, up to its number of matches, has one |
| Day04.PointsList | day_4/solution.py:73-77 | one score per card, in order, each that card's points |
| Day04.AddCopiesFacts | day_4/solution.py:87-89 | adding one card's copies succeeds exactly when the card and every id it wins are in the pile (no KeyError); the keys stay, counts stay positive and never decrease |
| Day04.ProcessCardsFacts | day_4/solution.py:85-89 | processing the cards in order succeeds exactly when every card's copies are known ids, keeps the keys and never decreases a count |
| Day04.InitialCounts | day_4/solution.py:79-83 | one positive count per card id, and no other key |
| Day04.SumAtLeastKeys | day_4/solution.py:91-95 | with positive counts the total is at least the number of distinct cards |
| Day04.Pile.constructor | day_4/solution.py:53-56 | the pile keeps its cards, starts every id at count 1 and totals the cards' points |
| Day04.Pile.IncrementCardCountsIteratively | day_4/solution.py:85-89 | the nested loops succeed exactly when the card-by-card specification does and leave exactly its counts; cards and points are unchanged |
| Day04.Pile.AddCopiesOfCard | day_4/solution.py:86-89 | the inner loop adds one card's count to each of its copies' counts, succeeding exactly when the specification of one card does and leaving its counts; cards and points are unchanged |
| Day04.Pile.DetermineTotalCardCount | day_4/solution.py:91-95 | the total is the sum of all the counts |
| Day04.InitializeCountsOfCards | day_4/solution.py:79-83 | the keys are the card ids and each count is 1 |
| Day04.CalculateTotalPoints | day_4/solution.py:73-77 | the total is the sum of the cards' points and is never negative |
| Day04.SolveProblem | day_4/solution.py:98-108 | a bad line fails; otherwise part 1 is the total points, part 2 the total card count after all copies, at least the number of distinct cards, and it fails exactly when a copy id is unknown |
| Day05.ParseConversionMeaning | day_5/solution.py:8-12 | a "destination source length" line covers exactly the length values from the source start and sends each one to the same offset from the destination start |
| Day05.InsertByMinimum | day_5/solution.py:35 | inserting keeps the list sorted by range minimum and adds exactly the new conversion |
| Day05.SortByMinimum | day_5/solution.py:35 | the conversions come out sorted by range minimum and are a permutation of the input |
| Day05.ParseConversions | day_5/solution.py:29-34 | one conversion per line |
| Day05.ParseTypeConversions | day_5/solution.py:19-24 | a parsed map's conversions are sorted by range minimum |
| Day05.LastCovering | day_5/solution.py:42-44 | the conversion found is in the list and covers the value; none is found exactly when no conversion covers it |
| Day05.ScanIsLastCovering | day_5/solution.py:39-45 | the scan's result is 0 when nothing covers the value, otherwise the value shifted by the last covering conversion |
| Day05.ConvertValue | day_5/solution.py:38-48 | the while loop makes exactly one pass over the conversions (none when the map is empty) and returns the specified conversion |
| Day05.ConvertMeaning | day_5/solution.py:38-48 | an uncovered value is kept; a covered one is shifted by the last covering conversion's increment unless that gives 0 |
| Day05.ShiftToZeroKept | day_5/solution.py:46-47 | the conversion "0 5 10" sends 5 to 0, yet the written conversion returns 5 |
| Day05.Converted | day_5/solution.py:38-48 | the intended conversion: uncovered values are kept and covered ones are shifted by the last covering conversion |
| Day05.ConvertedAgrees | day_5/solution.py:38-48 | the intended result is the value or its shift by a conversion covering it, and the written one differs from it only when the shift gives 0 |
| Day05.ParseTypeConversionsList | day_5/solution.py:71-76 | each map is filed under its own source category |
| Day05.ApplyMapsAppend | day_5/solution.py:78-86 | applying a chain of maps is applying its first part and then the rest, and a missing map stops the chain |
| Day05.DetermineLocationForSeed | day_5/solution.py:78-86 | the loop applies the seven maps from seed to humidity in order, and fails exactly when one is missing |
| Day05.DetermineLocationsForAllSeeds | day_5/solution.py:88-93 | the locations are the specified ones, seed by seed |
| Day05.LocationsFail | day_5/solution.py:88-93 | if some prefix of the seeds fails then the whole list fails |
| Day05.LocationsElements | day_5/solution.py:88-93 | one location per seed, in order, each that seed's chain of maps |
| Day05.Minimum | day_5/solution.py:95-98 | the minimum is an element and no element is smaller |
| Day05.DetermineLowestLocation | day_5/solution.py:95-98 | there is an answer exactly when there are seeds and all locations exist; it is one of them and no location is lower |
| Day05.SolveProblem | day_5/solution.py:101-110 | part 1 is the location of some seed and no seed's location is lower; it fails exactly when the almanac does not parse, there are no seeds or a map is missing |
| Day07.SortChars | day_7/solution.py:22 | the cards come out in ascending order and are a permutation of the hand |
| Day07.ValueOfSameCards | day_7/solution.py:20-36 | a hand's value depends only on which cards it holds, not their order |
| Day07.MatchesStep | day_7/solution.py:24-30 | one loop step keeps the table of runs: each card seen two or more times maps to its count so far |
| Day07.CountMatches | day_7/solution.py:21-30 | after the loop each card of the sorted hand occurring twice or more maps to its number of occurrences, and no other card is a key |
| Day07.MatchesGroups | day_7/solution.py:31-35 | with no repeated card the value is 1, otherwise the sum of n to the power n over the repeated cards' counts n |
| Day07.CalculateValue | day_7/solution.py:20-36 | the method computes the specified value of the hand |
| Day07.SumGroups | day_7/solution.py:34-35 | the loop sums the powers of all groups |
| Day07.FiveOfAKind | day_7/solution.py:20-36 | five equal cards are worth 3125 |
| Day07.FourOfAKind | day_7/solution.py:20-36 | four of a kind is worth 256 |
| Day07.FullHouse | day_7/solution.py:20-36 | a full house is worth 31 |
| Day07.ThreeOfAKind | day_7/solution.py:20-36 | three of a kind is worth 27 |
| Day07.TwoPair | day_7/solution.py:20-36 | two pairs are worth 8 |
| Day07.OnePair | day_7/solution.py:20-36 | one pair is worth 4 |
| Day07.HighCard | day_7/solution.py:31-32 | five distinct cards are worth 1 |
| Day07.ValuePositive | day_7/solution.py:20-36 | every hand is worth at least 1 |
| Day07.HandOf | day_7/solution.py:11-15 | a parsed hand's value is the value of its cards, at least 1 |
| Day07.CreateHand | day_7/solution.py:11-15 | the cards are the text before the first space and the bid the integer after it; a missing bid or non-integer bid is an error |
| Day07.HandsOf | day_7/solution.py:49-55 | one hand per line, each the parse of its line |
| Day07.DetermineHands | day_7/solution.py:49-55 | the loop builds the specified hands and fails exactly when some line fails |
| Day07.HandsOfPrefix | day_7/solution.py:52-54 | a line that fails to parse makes the whole set fail |
| Day07.RankMeaning | day_7/solution.py:7 | a card's rank is its position in 2 3 4 5 6 7 8 9 T J Q K A; a card outside that list has none (the ValueError of `index`) |
| Day07.RanksDefined | day_7/solution.py:58 | a hand's ranks exist exactly when every card is in the card order |
| Day07.Key | day_7/solution.py:58 | the sort key has six entries, the first being the hand's value |
| Day07.KeyDefined | day_7/solution.py:58 | the key exists exactly when the hand has at least five cards, each in the card order (no IndexError or ValueError) |
| Day07.KeyLeTotal | day_7/solution.py:58 | any two keys are comparable |
| Day07.KeyLeTransitive | day_7/solution.py:58 | the key order is transitive |
| Day07.InsertHandInOrder | day_7/solution.py:58 | inserting a hand into hands in key order keeps them in key order |
| Day07.InsertHand | day_7/solution.py:58 | inserting a keyed hand keeps every hand keyed and adds exactly that hand to the multiset of hands |
| Day07.SortHands | day_7/solution.py:58 | sorting returns a permutation of the hands |
| Day07.SortHandsInOrder | day_7/solution.py:58 | the sorted hands are in ascending key order |
| Day07.OrderHands | day_7/solution.py:57-58 | ordering succeeds exactly when every hand has a key, and returns a permutation of the hands |
| Day07.OrderHandsFacts | day_7/solution.py:57-58 | ordering succeeds exactly when every hand has five ranked cards, and returns a permutation of the hands in ascending key order |
| Day07.WinningsEqualBids | day_7/solution.py:60-65 | when all bids equal b the winnings are b times the sum of the ranks 1..n |
| Day07.CalculateWinnings | day_7/solution.py:60-65 | the winnings are those of the ordered hands, and fail exactly when ordering fails |
| Day07.SumWinnings | day_7/solution.py:63-64 | the loop sums rank times bid over the ordered hands |
| Day07.SolveProblem | day_7/solution.py:68-77 | part 1 succeeds exactly when every line parses and every hand is ordered, and is then the winnings of the ordered hands |
| Day08.ParseNodeLine | day_8/solution.py:9-20 | a node written as "NAME = (LEFT, RIGHT)" parses back to the same node |
| Day08.NodeLineSplits | day_8/solution.py:18 | splitting a node line at " = " gives its name and its pair |
| Day08.ParsePair | day_8/solution.py:10-13 | "(LEFT, RIGHT)" parses to the left and right destinations |
| Day08.ParseNodes | day_8/solution.py:45-51 | one node per line |
| Day08.TableMeaning | day_8/solution.py:45-51 | the dictionary's keys are exactly the parsed names, each holding the last node of that name, and the names are listed once each in first-insertion order |
| Day08.BuildNetwork | day_8/solution.py:34-37 | the network fails exactly when a node line does not parse; otherwise it holds the instructions and the table of the nodes |
| Day08.ParseNodesFails | day_8/solution.py:48-50 | a node line that does not parse makes the whole network fail |
| Day08.Step | day_8/solution.py:64-67 | one iteration takes the node one instruction further along the walk |
| Day08.CountStepsFromStartToFinish | day_8/solution.py:60-68 | the answer is the least positive number of steps from AAA to ZZZ; a missing AAA or a missing destination is a KeyError, empty instructions are a ZeroDivisionError, and running past the fuel bound means every earlier step exists and misses ZZZ |
| Day08.WalkRestarts | day_8/solution.py:64 | after a whole number of instruction rounds the walk continues as a fresh walk from where it stands |
| Day08.WalkPeriodic | day_8/solution.py:64 | if the walk returns to the same node after a whole number of rounds then it repeats from there |
| Day08.StartNodesMeaning | day_8/solution.py:53-58 | a node is a start node exactly when its name's third letter is A |
| Day08.FindAllStartNodes | day_8/solution.py:53-58 | the start nodes are listed in insertion order, and a name shorter than three letters is an IndexError |
| Day08.Hits | day_8/solution.py:76-79 | every recorded step count lies below the steps taken |
| Day08.HitsMeaning | day_8/solution.py:76-89 | the recorded counts are exactly the steps before a Z node is reached, strictly increasing |
| Day08.FirstTwoHits | day_8/solution.py:80-90 | the first two recorded counts are the first two arrivals at Z nodes |
| Day08.PatternLength | day_8/solution.py:70-91 | the length is the gap between the first two arrivals at Z nodes, found when a later gap repeats it; the KeyError, IndexError, ZeroDivisionError and fuel cases each have their cause |
| Day08.BreaksAt | day_8/solution.py:78 | a missing destination within the fuel bound breaks the walk |
| Day08.ShortNameAt | day_8/solution.py:79 | a node name shorter than three letters within the fuel bound is an IndexError |
| Day08.Record | day_8/solution.py:79-88 | one arrival at a Z node either extends the pattern, whose later gaps still differ from the first, or settles it |
| Day08.GapsDifferAppend | day_8/solution.py:83-84 | appending a count whose gap differs from the first keeps all later gaps different |
| Day08.UnsettledStep | day_8/solution.py:75 | a step that does not settle the pattern keeps it unsettled |
| Day08.SettledLength | day_8/solution.py:90-91 | once settled, the first gap is positive and is the pattern length |
| Day08.PatternLengths | day_8/solution.py:93-99 | one positive pattern length per start node; each failure names the start node that caused it |
| Day08.FindFirstOverlap | day_8/solution.py:101-104 | the overlap is the least positive common multiple of the start nodes' pattern lengths; a short name is an IndexError |
| Day08.SolveProblem | day_8/solution.py:107-116 | part 1 is the least number of steps from AAA to ZZZ and part 2 the least common multiple of all start nodes' pattern lengths |
| Day09.Differences | day_9/solution.py:22-26 | one difference per adjacent pair: none for fewer than two values, one fewer than the values otherwise |
| Day09.DifferencesAt | day_9/solution.py:22-26 | each difference is the later value of its pair minus the earlier |
| Day09.LayersAfterShape | day_9/solution.py:36-42 | each layer is the differences of the one before, the last layer is all zeros and no earlier one is |
| Day09.AllLayersShape | day_9/solution.py:36-42 | the layers start with the values, each next one is the differences of the previous, and the loop stops at the first all-zero layer after the values |
| Day09.CalculateDifferencesAtLayer | day_9/solution.py:22-26 | the loop computes the differences of the layer |
| Day09.CheckIfFinalLayer | day_9/solution.py:28-34 | a layer is final exactly when every value is zero |
| Day09.GenerateAllLayers | day_9/solution.py:36-42 | the loop builds exactly the specified layers |
| Day09.NextLayer | day_9/solution.py:39-42 | one round of the loop: the next layer is the differences of the last one, and the loop stops exactly when it is all zeros, which makes it the last layer |
| Day09.PredictNextValue | day_9/solution.py:44-48 | the prediction is the sum of the layers' last values, and fails exactly when some layer is empty (IndexError) |
| Day09.PredictPreviousValue | day_9/solution.py:50-54 | the prediction is the alternating sum of the layers' first values, and fails exactly when some layer is empty |
| Day09.DifferencesSnoc | day_9/solution.py:22-26 | appending a value appends its difference from the old last value |
| Day09.DifferencesCons | day_9/solution.py:22-26 | prepending a value prepends the old first value's difference from it |
| Day09.NextExtendsLayers | day_9/solution.py:44-48 | extending every layer by its predicted next value keeps each layer the differences of the one above and the last one all zeros: the prediction continues the sequence |
| Day09.PreviousExtendsLayers | day_9/solution.py:50-54 | extending every layer at the front by its predicted previous value keeps the same difference structure |
| Day09.SingleValueFails | day_9/solution.py:44-54 | a history with one value gets an empty difference layer, so both predictions fail |
| Day09.NewHistory | day_9/solution.py:9-20 | the history holds the parsed values, their layers and both predictions, and fails when a value does not parse or a prediction fails |
| Day09.DetermineHistories | day_9/solution.py:61-66 | one history per line, each that line's history; fails exactly when some line fails |
| Day09.SumExtrapolatedNextValues | day_9/solution.py:68-72 | the loop sums the histories' next predictions |
| Day09.SumExtrapolatedPreviousValues | day_9/solution.py:74-78 | the loop sums the histories' previous predictions |
| Day09.SolveProblem | day_9/solution.py:81-90 | the answers exist exactly when every line has a history, and are the sums of the next and the previous predictions |
| Day10.AdjacentMeaning | day_10/solution.py:22-39 | stepping in a direction and back returns to the tile, and the four neighbours differ from the tile and from each other |
| Day10.Connections | day_10/solution.py:41-61 | a tile connects to the neighbours in its pipe's opening directions, in the source's order |
| Day10.ConnectionsMeaning | day_10/solution.py:41-61 | each of the six pipes connects to two distinct neighbours, and any other character to none |
| Day10.StartShapeMeaning | day_10/solution.py:101-112 | two distinct linked directions give the one pipe opening exactly towards them, and a pipe's own openings give that pipe back |
| Day10.NewTile | day_10/solution.py:9-17 | a new tile holds the cell's character at distance 0, is on the loop exactly when it is the start and connects as its pipe does |
| Day10.TilesBeforeMeaning | day_10/solution.py:79-90 | after the loops reach a cell, exactly the cells before it in row-major order have tiles, each made from its character |
| Day10.AllTilesMade | day_10/solution.py:79-90 | the finished dictionary has one tile per cell of the grid |
| Day10.StartFound | day_10/solution.py:87-89 | when the grid holds an 'S' a start tile is found in the grid |
| Day10.StartLinks | day_10/solution.py:96-100 | at most one link per direction |
| Day10.StartLinksMeaning | day_10/solution.py:96-100 | a direction links the start exactly when its neighbour exists and connects back to the start |
| Day10.Relinked | day_10/solution.py:101-112 | reshaping the start keeps every tile and every connection |
| Day10.Neighbours | day_10/solution.py:99 | one neighbour per linked direction, in order |
| Day10.LastLayer | day_10/solution.py:121-123 | a tile's last layer holds it and no later layer does; -1 when no layer holds it |
| Day10.LastLayerStep | day_10/solution.py:121-123 | a new layer becomes a tile's last layer exactly when it holds the tile |
| Day10.LinkedMeaning | day_10/solution.py:124-128 | every tile found from a layer is a connection of some tile of that layer |
| Day10.ChainedStep | day_10/solution.py:118-129 | a layer found from the previous one keeps every layer linked to the one before |
| Day10.WalkRound | day_10/solution.py:118-129 | one round of the while loop keeps the walk's invariant: layers non-empty and chained, tiles marked by their last layer |
| Day10.MarksKeepLinks | day_10/solution.py:122-123 | marking tiles does not change any connection |
| Day10.WalkedStep | day_10/solution.py:121-123 | marking a layer updates each tile to its last layer's distance |
| Day10.WalkProgress | day_10/solution.py:118-129 | each round puts a new tile on the loop or, when its whole layer was already on it, hands on only tiles off the loop: the walk terminates |
| Day10.Unvisited | day_10/solution.py:125-128 | only existing tiles off the loop are kept |
| Day10.InsideInRow | day_10/solution.py:136-145 | a row prefix holds no more inside tiles than columns |
| Day10.Inside | day_10/solution.py:132-146 | the inside count is at most the number of cells |
| Day10.NoCrossingNothingInside | day_10/solution.py:141-145 | a row with no crossing pipe (\|, J or L on the loop) has nothing inside |
| Day10.Maze.constructor | day_10/solution.py:65-71 | the maze holds the rows, their count and the first row's width, tiles for the whole grid and the last 'S' as start; its tiles and layers are exactly `Walk` from the start's linked neighbours, the maximum distance is the number of layers, and the inside count is computed from the walked tiles |
| Day10.Maze.Explore | day_10/solution.py:70-71 | the tiles and layers are exactly `Walk` from the start's linked neighbours, the maximum distance is its number of layers, and the inside count is computed from the walked tiles |
| Day10.Maze.CreateTiles | day_10/solution.py:79-90 | the tiles are those of the grid and the start is the last 'S' in row-major order, or none |
| Day10.Maze.FindTilesConnectedToStart | day_10/solution.py:92-113 | the connected tiles are the linked neighbours in north, south, east, west order, and the start is reshaped keeping all connections |
| Day10.Maze.TraverseLoop | day_10/solution.py:115-130 | the tiles and layers are exactly `Walk` from the start's linked neighbours with the start reshaped; the result is the number of layers, which are non-empty and chained, and each tile ends marked by its last layer |
| Day10.Maze.WalkLayers | day_10/solution.py:118-129 | the while loop performs exactly `Walk`: rounds from the first layer until one finds nothing; the layers are non-empty and chained, and each tile ends marked by its last layer |
| Day10.Maze.VisitLayer | day_10/solution.py:121-128 | the for loop performs one `Round` over the current layer: the new tiles and the next layer are equal to the round's |
| Day10.Maze.VisitTile | day_10/solution.py:122-128 | the tile is marked as on the loop at the given distance and no other tile changes; the tiles found are its connections that are tiles still off the loop once it is marked, in order |
| Day10.RoundFacts | day_10/solution.py:121-128 | a round marks exactly its layer at the layer's distance, finds only tiles connected to the layer, and finds only tiles off the loop when its layer was already on it |
| Day10.WalkUnfold | day_10/solution.py:118-129 | a walk from a non-empty layer is that layer followed by the walk from the layer its round finds |
| Day10.Maze.UnvisitedConnections | day_10/solution.py:124-128 | the tiles found are the tile's connections that exist and are off the loop |
| Day10.Maze.TraverseMazeForInsideCount | day_10/solution.py:132-146 | the count is the number of tiles off the loop with an odd number of crossings to their left |
| Day11.InitialDistanceMetric | day_11/solution.py:23-27 | the unexpanded distance is symmetric, zero exactly for the same galaxy, and obeys the triangle inequality |
| Day11.GapsBetween | day_11/solution.py:29-36 | no more gaps are counted than are known |
| Day11.CountBelow | day_11/solution.py:33-35 | no more gaps lie below a coordinate than are known |
| Day11.GapsBetweenBelow | day_11/solution.py:29-36 | the gaps between two coordinates are those below the larger minus those below the smaller, whichever galaxy comes first |
| Day11.DetermineGapsAlongDimension | day_11/solution.py:29-36 | the loop counts the known gaps in the half-open range between the sorted endpoints |
| Day11.ExpandOrdered | day_11/solution.py:47-51 | after expansion two ordered coordinates are their old distance plus (factor - 1) per gap between them apart |
| Day11.ExpandAxis | day_11/solution.py:47-51 | along one axis the expanded distance is the old distance plus (factor - 1) per gap between, in either order |
| Day11.ExpandedDistanceMeaning | day_11/solution.py:47-51 | the pair distance is the distance between the galaxies' expanded positions, symmetric, never below the unexpanded distance and equal to it for factor 1 |
| Day11.CalculateExpandedDistance | day_11/solution.py:47-51 | the method computes the expanded distance of the pair |
| Day11.EmptyIndices | day_11/solution.py:94-99 | exactly the indices of the elements without '#', in increasing order |
| Day11.DetermineElementsWithoutGalaxies | day_11/solution.py:94-99 | the loop lists exactly the empty elements' indices |
| Day11.ReadableWidth | day_11/solution.py:67-68 | when no row is shorter than the first, the first row's length is the shortest |
| Day11.CreateInitialColumns | day_11/solution.py:70-77 | the columns are the transpose of the rows |
| Day11.RowGalaxies | day_11/solution.py:82-85 | only '#' cells of the row prefix, left to right |
| Day11.RowGalaxiesComplete | day_11/solution.py:82-85 | every '#' cell of the row prefix is found |
| Day11.GalaxiesFacts | day_11/solution.py:79-86 | exactly the '#' cells of the grid, in row-major order |
| Day11.GalaxyFound | day_11/solution.py:81-85 | every '#' cell of the rows scanned so far is a galaxy found |
| Day11.ScanRow | day_11/solution.py:82-85 | the inner loop finds the row's galaxies |
| Day11.CreateGalaxies | day_11/solution.py:79-86 | the nested loops find the galaxies of the grid |
| Day11.CreateImage | day_11/solution.py:55-62 | the image holds the rows, height, width, columns, empty rows, empty columns and galaxies as specified |
| Day11.EmptyColumnsMeaning | day_11/solution.py:91-92 | a column is empty exactly when it is within the width and no row has '#' there |
| Day11.RowDistances | day_11/solution.py:104-108 | the inner loop's distances are those from galaxy i to each later galaxy, in order |
| Day11.PairDistancesCount | day_11/solution.py:101-109 | the first m galaxies contribute m(2n - m - 1)/2 distances, so all n give n(n - 1)/2, one per unordered pair |
| Day11.PairDistancesInclude | day_11/solution.py:101-109 | the distance of every pair i < j is among the distances |
| Day11.FindDistancesBetweenGalaxyPairsWithExpansion | day_11/solution.py:101-109 | the nested loops list the specified pair distances |
| Day11.AppendRowDistances | day_11/solution.py:104-108 | the inner loop appends the distances from galaxy i to each later galaxy, in order, to those already found |
| Day11.CalculateTotalDistancesWithExpansion | day_11/solution.py:111-116 | the total is the sum of all pair distances |
| Day11.SolveProblem | day_11/solution.py:119-128 | the two parts are the sums of pair distances with expansion factors 2 and 1000000 |
| Day12.ParseIntsSnoc | day_12/solution.py:17-18 | parsing one more group appends its value, and a bad piece makes the whole list fail |
| Day12.DetermineContiguousGroups | day_12/solution.py:14-19 | the loop parses the comma-separated groups exactly as the specification does |
| Day12.ParseIntsNone | day_12/solution.py:17-18 | a failure within a prefix of the groups fails the whole list |
| Day12.ParseIntsFails | day_12/solution.py:17-18 | a failed list has some piece that is not an integer |
| Day12.GroupTexts | day_12/solution.py:14-19 | one decimal text per group |
| Day12.GroupsRoundTrip | day_12/solution.py:14-19 | writing a non-empty group list with commas and parsing it gives the list back |
| Day12.IntTextChars | day_12/solution.py:18 | an integer's text holds only digits and '-' |
| Day12.TextsParse | day_12/solution.py:17-18 | the decimal texts of a group list parse back to that list |
| Day12.JoinFree | day_12/solution.py:10 | joining texts free of a character with a separator free of it gives a text free of it |
| Day12.RecordRoundTrip | day_12/solution.py:9-12 | a record written as "conditions groups" parses back to the same record |
| Day12.NewConditionsRecord | day_12/solution.py:9-12 | the conditions are the text before the first space and the groups the list after it; a missing part or bad group fails |
| Day12.CreateRecords | day_12/solution.py:99-103 | one record per line, failing exactly when some line fails |
| Day12.FindNextUnknownCondition | day_12/solution.py:53-55 | the result is -1 or the first '?' at or after the start (negative starts count from the end) |
| Day12.FindCharMeaning | day_12/solution.py:53-55 | a one-character find returns -1 when the character does not occur from the start on, otherwise its first position there |
| Day12.NoUnknownFind | day_12/solution.py:54 | a text without '?' has no unknown to find |
| Day12.NoUnknownGroup | day_12/solution.py:57-71 | in a text without '?' the group search reports length 1 and end -1 |
| Day12.NegativeLength | day_12/solution.py:62-66 | on "?#" the group search reports length -1 and end -1, as the minimum of raw find results gives |
| Day12.CheckIfMeetsCriteria | day_12/solution.py:73-92 | the while loop computes the specified scan of the filled-in description |
| Day12.ScanWithMeaning | day_12/solution.py:80-90 | the scan from group k passes exactly when every group from k on is reached within the conditions with a run no longer than its size |
| Day12.CriteriaMeaning | day_12/solution.py:73-92 | a beginning meets the criteria exactly when every group passes at the index where the previous group's run ended |
| Day12.CriteriaWithoutUnknowns | day_12/solution.py:73-92 | for a description without '?' the criteria hold exactly when there are no groups, or the conditions are non-empty and every group is at least 1 |
| Day12.NoUnknownIndex | day_12/solution.py:80-88 | without '?' the scan index is 0 and then -1, and every search reports length 1 and end -1 |
| Day12.Possibilities | day_12/solution.py:41-44 | the two possibilities each extend to the next '?' and one more character |
| Day12.Children | day_12/solution.py:40-48 | at most two children, each longer than its parent and no longer than the conditions |
| Day12.AcceptedIn | day_12/solution.py:45-48 | the accepted possibilities are among the possibilities, and no more of them |
| Day12.PossibilityIsCandidate | day_12/solution.py:41-44 | each possibility extends the beginning, copies the known conditions, and puts '#' or '.' where the next '?' was |
| Day12.ChildrenAreCandidates | day_12/solution.py:40-48 | every accepted child extends its parent and copies the known conditions |
| Day12.PendingAppend | day_12/solution.py:35-48 | the arrangements and visits still pending on a stack add up over its parts |
| Day12.PendingTotal | day_12/solution.py:45-48 | the arrangements and visits pending on a parent's children are those counted under that parent |
| Day12.Expand | day_12/solution.py:39-48 | replacing a popped beginning by its accepted children keeps the pending arrangements, and uses up one visit |
| Day12.ExpandCandidates | day_12/solution.py:45-48 | pushing children keeps every stacked beginning a candidate |
| Day12.Pop | day_12/solution.py:36 | popping the last beginning splits the pending arrangements and visits into the rest and that beginning's |
| Day12.ChildrenAt | day_12/solution.py:39-48 | when a '?' follows the beginning it lies within the conditions, and the children are the accepted possibilities there |
| Day12.Leaf | day_12/solution.py:49-50 | a beginning with no '?' after it counts one arrangement in one visit |
| Day12.PushAccepted | day_12/solution.py:45-48 | the loop pushes exactly the possibilities that meet the criteria, in order |
| Day12.CountAcceptableArrangements | day_12/solution.py:21-51 | the count is 1 plus the arrangements reached from the empty beginning when the conditions contain a '?', and exactly 1 otherwise |
| Day12.ExpandLast | day_12/solution.py:36-50 | popping the last beginning and pushing its accepted children keeps every stacked beginning a candidate, counts one arrangement exactly when the popped beginning had no '?' after it, keeps the pending arrangements and uses up a visit |
| Day12.LeafIsArrangement | day_12/solution.py:49-50 | a counted beginning fills in every '?' of the conditions and keeps every known condition |
| Day13.CandidatesBelow | day_13/solution.py:46-51 | the candidates below n are exactly the indices i < n whose line equals the next one, in increasing order |
| Day13.CandidatesExact | day_13/solution.py:46-51 | the candidates are exactly the non-negative indices whose line equals the next one, in increasing order |
| Day13.FindPotentialIndices | day_13/solution.py:46-51 | the loop lists exactly the candidates |
| Day13.CheckIfFullySymmetric | day_13/solution.py:53-63 | the loop answers true exactly when every pair of lines mirrored about the candidate, within the pattern, is equal |
| Day13.LastMirrorFacts | day_13/solution.py:37-44 | the scan returns 0 or a fully symmetric candidate, and no symmetric candidate is larger unless the answer is 0 |
| Day13.LineOfSymmetryIsLargest | day_13/solution.py:37-44 | the line of symmetry is 0 or the largest fully symmetric candidate; 0 means no candidate other than 0 is symmetric |
| Day13.FindLineOfSymmetry | day_13/solution.py:37-44 | the loop computes the specified line of symmetry |
| Day13.ValueOfSymmetry | day_13/solution.py:22-29 | the value is 100 times one more than the horizontal line when it is not 0, otherwise one more than the vertical line, and so at least 1 |
| Day13.Values | day_13/solution.py:79-83 | one value per pattern |
| Day13.TotalValuesOfSymmetry | day_13/solution.py:79-83 | the total is the sum of the patterns' values, at least the number of patterns |
| Day13.FirstRowMirrorMisread | day_13/solution.py:25-28 | the pattern "#.\n#." mirrors after row 0, yet its value is 1 instead of 100 |
| Day13.TwoRowShape | day_13/solution.py:13-20 | that pattern's rows are "#." twice and its columns "##" and ".." |
| Day13.LastMirrorOrNone | day_13/solution.py:37-44 | the intended scan returns a fully symmetric candidate, or nothing when none is symmetric |
| Day13.CorrectedValueHorizontal | day_13/solution.py:22-29 | with the correction, a pattern with a horizontal mirror is worth 100 times one more than a mirror line, and agrees with the written value whenever that line is not after row 0 |
| Day13.LastMirrorAgrees | day_13/solution.py:37-44 | a non-zero written answer is the intended one |
| Day14.AppendRepeated | day_14/solution.py:19-22 | the loop appends the character n times |
| Day14.NextCubeIn | day_14/solution.py:24 | in a column ending with '#', the next cube found is a '#' with none before it from the search start |
| Day14.NextCube | day_14/solution.py:13 | with the sentinel '#', the next cube is the first '#' from the start, or the sentinel |
| Day14.SplitAtCube | day_14/solution.py:15-24 | the segment up to the next cube is the first piece of the line split at '#' |
| Day14.SegmentCounts | day_14/solution.py:16-18 | counting rocks or spaces from the previous cube itself or just after it gives the same number |
| Day14.AssembleStep | day_14/solution.py:15-26 | one iteration of the while loop consumes exactly the first piece of the split line |
| Day14.RollInto | day_14/solution.py:16-22 | the for loops append the segment rolled: spaces then rocks, or rocks then spaces |
| Day14.FindCube | day_14/solution.py:13 | the search returns the next cube of the line with its sentinel, or -1 past the end |
| Day14.TiltLoopStep | day_14/solution.py:15-26 | a round of the loop keeps the final text equal to the specified tilt of the rest |
| Day14.TiltRound | day_14/solution.py:15-26 | one round appends the rolled segment and a '#' while the output is short, and finds the next cube; it stops exactly at the sentinel |
| Day14.TiltLineLoop | day_14/solution.py:11-27 | the while loop produces the specified tilt of the line |
| Day14.TiltRounds | day_14/solution.py:15-26 | from the first cube on, the rounds of the loop end with the output the rest of the line assembles to, and stop at the sentinel cube |
| Day14.CountSegment | day_14/solution.py:17-18 | a segment of a clean line is all rocks and spaces |
| Day14.RollFacts | day_14/solution.py:16-22 | rolling keeps a segment's length, rocks and spaces, and rolling twice is rolling once |
| Day14.RollAll | day_14/solution.py:15-26 | each piece rolled in place |
| Day14.AssembleClean | day_14/solution.py:15-26 | on a clean line the loop output is the rolled pieces joined by '#' |
| Day14.CharOfJoin | day_14/solution.py:15-26 | every character of a piece occurs in the joined text |
| Day14.SplitClean | day_14/solution.py:15-26 | the pieces of a clean line hold only rocks and spaces |
| Day14.TiltLineClean | day_14/solution.py:15-26 | tilting a clean line rolls each segment between cubes and keeps the cubes |
| Day14.JoinSameShape | day_14/solution.py:15-26 | joining pieces of the same lengths gives texts of the same length with '#' at the same places |
| Day14.JoinCount | day_14/solution.py:15-26 | pieces with the same counts join to texts with the same count |
| Day14.JoinNoPair | day_14/solution.py:15-26 | a pair of characters absent from every piece is absent from their join |
| Day14.RollNoPair | day_14/solution.py:16-22 | after rolling, no rock is followed by a space (or the reverse), depending on the direction |
| Day14.RolledPieces | day_14/solution.py:15-26 | the rolled pieces keep each piece's length and rocks, hold no '#', and have their rocks together at one end |
| Day14.TiltLineShape | day_14/solution.py:11-27 | a tilted clean line is clean, as long as the line, with cubes exactly where they were |
| Day14.TiltLineCount | day_14/solution.py:11-27 | a tilt keeps the number of rocks |
| Day14.TiltLineRolled | day_14/solution.py:11-27 | after a tilt no rock can roll further: no rock is followed by a space in the tilt direction |
| Day14.TiltLineIdempotent | day_14/solution.py:11-27 | tilting twice in the same direction is tilting once |
| Day14.TiltCharClean | day_14/solution.py:15-26 | every character of the joined pieces is a rock, a space or a cube |
| Day14.TiltEach | day_14/solution.py:59-75 | each line tilted |
| Day14.ColumnClean | day_14/solution.py:9 | each reversed column of a clean grid is a clean line |
| Day14.TiltedColumnsShape | day_14/solution.py:9-27 | the tilted columns are one per column, each the tilt of the column read bottom-up |
| Day14.VerticalCells | day_14/solution.py:8-29 | after a vertical tilt each column is the tilted bottom-up column read back top-down |
| Day14.RowsOfColumns | day_14/solution.py:28 | turning the tilted columns back into rows gives each column back, reversed |
| Day14.TiltedColumnFacts | day_14/solution.py:8-29 | each tilted column keeps its length, cubes and rocks, and has no rock that could roll further |
| Day14.VerticalShape | day_14/solution.py:8-29 | a north or south tilt keeps the grid's shape, cleanliness and cubes, and each column's rock count |
| Day14.VerticalRolled | day_14/solution.py:8-29 | after a north tilt no rock lies directly below a space in a column, and after a south tilt none lies directly above one |
| Day14.VerticalIdempotent | day_14/solution.py:8-29 | tilting north (or south) twice is tilting once |
| Day14.VerticalColumnIdempotent | day_14/solution.py:8-29 | each column of a tilted grid is unchanged by tilting again |
| Day14.SameColumns | day_14/solution.py:28 | two grids of one shape with the same columns are equal |
| Day14.HorizontalShape | day_14/solution.py:56-99 | a west or east tilt keeps the grid's shape, cleanliness and cubes, and each row's rock count |
| Day14.HorizontalRolled | day_14/solution.py:56-99 | after a west or east tilt no rock can roll further along its row, and tilting again changes nothing |
| Day14.TiltLines | day_14/solution.py:57-76 | the loop tilts each row |
| Day14.TiltNorth | day_14/solution.py:8-29 | the rocks are tilted to the top of each column |
| Day14.TiltSouth | day_14/solution.py:32-53 | the rocks are tilted to the bottom of each column |
| Day14.TiltWest | day_14/solution.py:56-76 | the row order is kept and each row's rocks are tilted to its start |
| Day14.TiltEast | day_14/solution.py:79-99 | the row order is kept and each row's rocks are tilted to its end |
| Day14.SpinCycle | day_14/solution.py:102-107 | one cycle tilts north, west, south and east in turn |
| Day14.SpinShape | day_14/solution.py:102-107 | a cycle keeps the grid's shape and every cube in place |
| Day14.CalculateNorthLoad | day_14/solution.py:110-115 | the loop sums each rock's row distance from the bottom, the bottom row counting 1 |
| Day14.NorthLoadBounds | day_14/solution.py:110-115 | the load is at least the number of rocks and at most the rocks times the height |
| Day14.LoadStep | day_14/solution.py:113-114 | adding a row above keeps the load within those bounds |
| Day14.OccursTwice | day_14/solution.py:157-160 | the loop finds the pattern twice in a row exactly when it occurs so somewhere |
| Day14.DivisorAtMostHalf | day_14/solution.py:153 | a proper divisor of a length is at most half of it |
| Day14.FindPattern | day_14/solution.py:142-170 | the result is (-1, -1) or a start and length whose slice occurs twice in a row; lists shorter than 2 give (-1, -1) |
| Day14.Loads | day_14/solution.py:126-127 | one load per cycle |
| Day14.LoadsAt | day_14/solution.py:126-127 | the k-th recorded load is the north load after k + 1 cycles |
| Day14.LoadsStep | day_14/solution.py:126-127 | one more cycle appends the load after it |
| Day14.ReadLoadIsLoad | day_14/solution.py:134-138 | the answer read off fails exactly when no cycle ran, is otherwise the load after some cycle count up to cycles, and without a pattern is the load after exactly cycles cycles |
| Day14.SpinUntilPattern | day_14/solution.py:125-133 | the loop records the load after each cycle, and stops at a pattern longer than 3 or after all cycles |
| Day14.SpinOnce | day_14/solution.py:126-127 | one round of the loop spins the grid once more and appends the new grid's north load, keeping the grid the specified number of cycles from the start and the loads those of every cycle so far |
| Day14.NorthLoadAfterSpins | day_14/solution.py:118-139 | there is an answer exactly when cycles is positive, and it is the north load after some number of cycles from 1 to cycles |
| Day14.SolveProblem | day_14/solution.py:173-182 | part 1 is the north load after tilting north; part 2 the north load after some number of cycles up to 10^9 |
| Day15.Hash | day_15/solution.py:7-13 | the hash is always in 0..255 |
| Day15.ApplyHashAlgorithm | day_15/solution.py:7-13 | the loop computes the hash (add the code, times 17, modulo 256 per character), in 0..255 |
| Day15.ParseStep | day_15/solution.py:21-37 | a step without '=' removes the lens labelled by all but its last character |
| Day15.BoxNumbers | day_15/solution.py:18-19 | exactly the box numbers below n |
| Day15.EmptyBoxes | day_15/solution.py:17-19 | the 256 boxes 0..255, all empty |
| Day15.InsertKeepsDense | day_15/solution.py:26-35 | replacing a lens in place or appending a new one at the end keeps a box's slots numbered 0..n-1 without gaps |
| Day15.DeleteKeepsDense | day_15/solution.py:39-44 | removing a lens and shifting the later ones down keeps the slots numbered without gaps |
| Day15.ApplyStepValid | day_15/solution.py:20-44 | every step keeps the 256 boxes with gap-free slots and each lens in the box its label hashes to |
| Day15.InsertEffect | day_15/solution.py:21-35 | an "=" step sets the lens's focal length in its label's box, keeping its slot if present and taking the next slot otherwise; every other lens and box is unchanged |
| Day15.DeleteEffect | day_15/solution.py:36-44 | a "-" step changes nothing when the label is absent; otherwise it removes the lens, moves the later lenses one slot forward, and leaves everything else unchanged |
| Day15.ApplySteps | day_15/solution.py:20-44 | applying steps in order keeps the boxes valid |
| Day15.EmptyBoxesValid | day_15/solution.py:17-19 | the empty boxes are valid |
| Day15.ShiftIndicesAbove | day_15/solution.py:41-43 | the loop moves each lens after the removed slot one slot forward and leaves the rest |
| Day15.NewBoxes | day_15/solution.py:17-19 | the loop makes the 256 empty boxes |
| Day15.MoveLens | day_15/solution.py:21-44 | one iteration applies the step's specified effect and keeps the boxes valid |
| Day15.ParseSteps | day_15/solution.py:20-25 | one step per text, failing exactly when some text's focal length is not an integer |
| Day15.ParseStepsSnoc | day_15/solution.py:20 | parsing one more step appends it |
| Day15.ApplyStepsSnoc | day_15/solution.py:20 | applying one more step applies it to the boxes so far |
| Day15.ParseStepFails | day_15/solution.py:25 | one bad focal length makes the whole sequence fail |
| Day15.MoveLensesSpec | day_15/solution.py:16-45 | the final boxes are valid |
| Day15.MoveLenses | day_15/solution.py:16-45 | the loop computes the specified final boxes and fails exactly when a step does |
| Day15.BoxPowerRemove | day_15/solution.py:52-53 | a box's power is any one lens's power plus that of the others |
| Day15.TotalPowerRemove | day_15/solution.py:50-54 | the total is any one box's power plus that of the others |
| Day15.CalculateBoxFocusingPower | day_15/solution.py:51-53 | the loop sums (box + 1) times (slot + 1) times focal length over the box's lenses |
| Day15.CalculateTotalFocusingPower | day_15/solution.py:48-55 | the loop sums the boxes' powers |
| Day15.EmptyBoxesPower | day_15/solution.py:48-55 | empty boxes have no power |
| Day15.InsertPower | day_15/solution.py:26-35 | an "=" step changes the total power by the new lens's power minus the replaced lens's power, if any |
| Day15.SumHashValues | day_15/solution.py:62-64 | the loop sums the steps' hashes, at most 255 per step |
| Day15.SolveProblem | day_15/solution.py:58-72 | the steps are the comma-separated pieces; part 1 is the sum of their hashes and part 2 the total power of the final boxes; it fails exactly when a focal length is not an integer |
| Day16.HeadingOfMeaning | day_16/solution.py:60-67 | the heading symbol chosen from (horizontal, increment) gives both back, so no information is lost |
| Day16.NextMeaning | day_16/solution.py:71-86 | every next beam starts one step along its heading; a splitter hit across splits into two beams along it; a mirror turns the beam to the other axis; '.' or a splitter hit along passes straight on |
| Day16.TurnReversible | day_16/solution.py:81-84 | a mirror undoes its own turn, and a beam sent back the way it left is turned back the way it came |
| Day16.TilesBeforeMeaning | day_16/solution.py:44-52 | after the loops reach a cell, exactly the cells before it in row-major order have tiles, each made from its character |
| Day16.TilesBeforeCount | day_16/solution.py:44-52 | that many tiles: one per cell passed |
| Day16.GridMeaning | day_16/solution.py:44-52 | the grid has height times width tiles, one per cell, each from its character, none energized |
| Day16.Reset | day_16/solution.py:101-109 | resetting clears every tracker and keeps every character |
| Day16.ResetCleared | day_16/solution.py:101-109 | resetting a lit copy of a cleared grid gives that grid back |
| Day16.LeastUnique | day_16/solution.py:54-90 | where a beam goes is uniquely determined |
| Day16.LeastBounds | day_16/solution.py:92-99 | the lit cells lie in the grid; a start on the grid lights at least one cell and a start off it lights none |
| Day16.BeamingDone | day_16/solution.py:54-90 | when nothing is pending, the lit rays are exactly where the beam goes and the energized cells are their cells |
| Day16.FiringDone | day_16/solution.py:92-99 | after firing on a fresh grid the energized count is the number of cells the beam reaches, at most the grid's size, at least 1 from a cell on the grid, and resetting restores the grid |
| Day16.LitRaysMeaning | day_16/solution.py:68-70 | a ray is collected exactly when its tile's tracker records its heading |
| Day16.BeamingStart | day_16/solution.py:55 | before the loop only the start is pending |
| Day16.BeamingSkip | day_16/solution.py:87-90 | a beam off the grid or on a tile already crossed that way stops, keeping the invariant |
| Day16.BeamingMark | day_16/solution.py:68-86 | crossing a tile a new way records it and makes the next beams pending |
| Day16.BeamingCall | day_16/solution.py:74-79 | a completed recursive firing discharges its start from the caller's pending beams |
| Day16.CountedStep | day_16/solution.py:111-118 | one more entry's count extends the list of counts |
| Day16.CountedAppend | day_16/solution.py:111-118 | the counts of two lists of entries concatenate |
| Day16.CountedMeaning | day_16/solution.py:111-118 | each count is the number of cells its entry's beam reaches |
| Day16.ColumnEntries | day_16/solution.py:113-115 | two entries per column |
| Day16.RowEntries | day_16/solution.py:116-118 | two entries per row |
| Day16.ColumnEntriesStep | day_16/solution.py:113-115 | each column adds the entry down from the top and then up from the bottom |
| Day16.RowEntriesStep | day_16/solution.py:116-118 | each row adds the entry right from the left and then left from the right |
| Day16.EntriesOnEdge | day_16/solution.py:111-118 | every entry is on the grid, at the edge it enters from, heading inwards |
| Day16.ColumnEntriesMeaning | day_16/solution.py:113-115 | the column entries head down from row 0 or up from the last row |
| Day16.RowEntriesMeaning | day_16/solution.py:116-118 | the row entries head right from column 0 or left from the last column |
| Day16.Largest | day_16/solution.py:119 | the largest count is a count and no count exceeds it |
| Day16.MarkUnlit | day_16/solution.py:68-70 | recording a new crossing leaves one fewer unrecorded crossing: firing terminates |
| Day16.SplitSends | day_16/solution.py:73-80 | a splitter hit across fires two distinct beams, each one step off along the splitter |
| Day16.MoveSends | day_16/solution.py:81-86 | a beam that is not split moves one step along its (possibly turned) heading |
| Day16.Contraption.constructor | day_16/solution.py:32-36 | the contraption holds the rows, the height, the first row's width and a fresh tile per cell |
| Day16.Contraption.CreateTiles | day_16/solution.py:44-52 | the loops make one fresh tile per cell |
| Day16.Contraption.FireBeam | day_16/solution.py:54-90 | after firing, the tiles record exactly where the beam goes from the start, and no recorded crossing is lost |
| Day16.Contraption.Cross | day_16/solution.py:68-86 | one new crossing is recorded and the beam moves on or splits, keeping the invariant |
| Day16.Contraption.Light | day_16/solution.py:68-70 | the tile's tracker records the beam's heading and the tile becomes energized |
| Day16.Contraption.Split | day_16/solution.py:73-80 | the two recursive firings complete every pending beam |
| Day16.Contraption.CountEnergizedTilesForConfiguration | day_16/solution.py:92-99 | the count is the number of cells a beam fired from the given entry reaches, at most the grid's size, at least 1 from a cell on the grid; the tiles end reset |
| Day16.Contraption.CountEnergized | day_16/solution.py:94-97 | the loop counts the energized tiles |
| Day16.Contraption.ResetEnergizedValues | day_16/solution.py:101-109 | every tile is cleared |
| Day16.Contraption.CountEntry | day_16/solution.py:114-118 | one entry's count is appended and the tiles are restored |
| Day16.Contraption.CountColumn | day_16/solution.py:113-115 | one column's two entries are counted |
| Day16.Contraption.CountColumns | day_16/solution.py:113-115 | the counts of all column entries, in order |
| Day16.Contraption.CountRow | day_16/solution.py:116-118 | one row's two entries are counted |
| Day16.Contraption.CountRows | day_16/solution.py:116-118 | the counts of all row entries, in order |
| Day16.Contraption.MaximizeEnergizedTiles | day_16/solution.py:111-119 | the answer is the largest number of cells reached over all 2(width + height) edge entries, and the tiles end as they were |
| Day16.SolveProblem | day_16/solution.py:122-131 | part 1 is the number of cells reached from the top-left going right; part 2 the largest over all edge entries |
| Day17.BlocksBeforeMeaning | day_17/solution.py:59-67 | the loops up to a cell never raise KeyError; they succeed exactly when every earlier cell is readable and then hold one block per earlier cell in row-major order, its heat loss the cell's digit |
| Day17.FailureStays | day_17/solution.py:59-67 | once a cell fails, the loops end with that same failure |
| Day17.CreateBlocks | day_17/solution.py:59-67 | the nested loops compute the specified blocks or the first failure |
| Day17.NewCity | day_17/solution.py:45-51 | the city is built exactly when there is a first row, it is non-empty and every cell within its width is a digit; then it holds the rows, height, width and a block per cell; an empty first row is the KeyError of the end block, and a short row or non-digit the IndexError or ValueError |
| Day17.CreateTrackedBlocks | day_17/solution.py:69-81 | a zero counter for every cell of the city in every direction, and no other |
| Day17.TurnsAcross | day_17/solution.py:108-142 | after a move the two turns are opposite directions across it; from the start they are right and down |
| Day17.MoveFacts | day_17/solution.py:143-178 | a move steps one block in its direction within the city, adds that block's heat loss, counts one more step, never lowers the furthest column or row, and counts straight steps or restarts the count after a turn |
| Day17.FollowsBy | day_17/solution.py:155-178 | every next path is a turn or a straight move, straight only along the path's own direction |
| Day17.RouteStep | day_17/solution.py:85-178 | the n-th path of a route has taken n steps, has lost the heat of the blocks entered, stands on a block of the city, has a direction exactly after the first step, and has fewer than three straight steps |
| Day17.CounterKept | day_17/solution.py:158-174 | each step's counter, once set, is kept by every later path of the route |
| Day17.EnteredOnce | day_17/solution.py:155-171 | a route never enters the same block in the same direction twice |
| Day17.RouteExtends | day_17/solution.py:155-178 | a move from the last path of a route that is not at the end extends the route |
| Day17.Pow4 | day_17/solution.py:155-178 | every weight is positive |
| Day17.StackWeightPush | day_17/solution.py:162-178 | pushing a path adds its weight to the stack's |
| Day17.MoveWeight | day_17/solution.py:155-178 | a moved path weighs a quarter of its parent, since it has one more counter set |
| Day17.TryMove | day_17/solution.py:152-178 | one of the three blocks pushes the moved path exactly when the move is allowed and worth pursuing |
| Day17.PushKeeps | day_17/solution.py:155-178 | the pushed path is the end of a route, and the push adds at most a quarter of its parent's weight |
| Day17.ExpandPath | day_17/solution.py:91-178 | every path pushed is the end of a route, and the stack weighs less than before the pop |
| Day17.MinimizeHeatLoss | day_17/solution.py:83-179 | the search terminates; the answer is never negative, and a non-zero answer is the heat loss of a route from the start to the end block |
| Day17.SolveProblem | day_17/solution.py:182-191 | part 1 exists exactly when the city is built; it is never negative, and when non-zero it is the heat loss of a route through the city of the lines that reaches the end block |
| Day18.NextVertexMoves | day_18/solution.py:40-51 | the next vertex lies on the same row or column, the length away, and the opposite move with the same length comes back |
| Day18.Inner | day_18/solution.py:15 | the colour is the text without its first and last characters (empty when shorter than two) |
| Day18.ParseStep | day_18/solution.py:12-15 | a step parses exactly when it has three space-separated parts and the second is an integer; it holds the direction, that length and the inner colour |
| Day18.ParseSteps | day_18/solution.py:11-15 | one step per line, each the parse of its line; the plan fails exactly when some line fails |
| Day18.Insert | day_18/solution.py:17 | storing a colour at a vertex keeps the insertion order: a new vertex is appended and an existing one keeps its place with the new colour |
| Day18.DigPlan | day_18/solution.py:8-18 | the plan's keys and colours stay consistent |
| Day18.DigPlanFacts | day_18/solution.py:8-18 | the plan's vertices are exactly the points reached after each step from (0, 0) |
| Day18.DigPlanLastColor | day_18/solution.py:16-17 | the last vertex reached holds the last step's colour |
| Day18.CreateDigPlan | day_18/solution.py:8-18 | the loop builds the specified plan and fails exactly when some step fails to parse |
| Day18.ParsePrefixFails | day_18/solution.py:11-15 | a bad line makes the whole plan fail |
| Day18.ParseStepsNext | day_18/solution.py:11-15 | a line that parses adds its step after the steps of the lines before it |
| Day18.StepTaken | day_18/solution.py:16-17 | one more step moves the current vertex by that step's direction and length and stores its colour at the vertex reached |
| Day18.CodeDirection | day_18/solution.py:33 | the direction is up exactly for a code above 2 (0, 1 and 2 are right, down and left) |
| Day18.ColorMoves | day_18/solution.py:31-34 | one move per colour, each that colour's move, failing exactly when some colour fails |
| Day18.Trace | day_18/solution.py:30-36 | each vertex is the previous one moved, starting from (0, 0) |
| Day18.Values | day_18/solution.py:31 | the colours in the plan's insertion order |
| Day18.ConvertColorsToVertices | day_18/solution.py:28-37 | the vertices traced from the plan's colours in insertion order |
| Day18.TraceColors | day_18/solution.py:30-36 | the loop traces the colours' moves, failing exactly when a colour fails |
| Day18.Terms | day_18/solution.py:57-60 | one shoelace term per vertex |
| Day18.CalculateAreaWithShoelace | day_18/solution.py:54-61 | the loop computes 1 + \|sum of terms\| // 2, at least 1 |
| Day18.Rotate | day_18/solution.py:57-60 | rotating keeps the length |
| Day18.RotateAt | day_18/solution.py:57-60 | a rotated list's element i is the original's at the shifted index, and successors correspond |
| Day18.Successor | day_18/solution.py:59 | (i + 1) % n is the next index, wrapping round |
| Day18.TermsRotate | day_18/solution.py:57-60 | the terms of a rotated polygon are the rotated terms |
| Day18.AreaRotate | day_18/solution.py:54-61 | the area does not depend on which vertex the polygon starts from |
| Day18.SumRotate | day_18/solution.py:57-60 | a rotation keeps the sum |
| Day18.RectangleArea | day_18/solution.py:54-61 | the rectangle dug as R w, D h, L w, U h covers (w + 1) × (h + 1) cells, its trench included |
| Day18.CounterClockwiseRectangle | day_18/solution.py:54-61 | the same rectangle dug the other way round, as D h, R w, U h, L w, gets 1 + \|w·h − w − h\| from the written formula, fewer than its (w + 1) × (h + 1) cells whenever w, h ≥ 1 |
| Day18.TenByTenCounterClockwise | day_18/solution.py:54-61 | an example: a 10 by 10 square dug that way round gets 81 where it covers 121 cells |
| Day18.TermsSplit | day_18/solution.py:58-60 | each written term is its edge's shoelace part plus the edge's length, and the lengths never sum below 0 |
| Day18.CorrectedAgrees | day_18/solution.py:54-61 | the written area equals the corrected one whenever the shoelace sum is not negative, that is when the plan goes round clockwise with y growing downwards |
| Day18.CorrectedAreaReverse | day_18/solution.py:54-61 | the corrected area (absolute shoelace sum plus half the perimeter plus one) is the same whichever way round the plan goes |
| Day18.CorrectedAreaWritten | day_18/solution.py:54-61 | the corrected area is the written area of the plan or of the plan reversed, whichever goes round clockwise |
| Day18.CorrectedRotate | day_18/solution.py:54-61 | the corrected area does not depend on which vertex the list starts at |
| Day18.CorrectedRectangle | day_18/solution.py:54-61 | corrected, the rectangle covers (w + 1) × (h + 1) cells whichever way round it is dug |
| Day18.SolveProblem | day_18/solution.py:64-76 | part 1 is the area of the plan's vertices and part 2 that of the colour-traced vertices, both at least 1; it fails exactly when a step or a colour fails |
| Day19.Inner | day_19/solution.py:10 | the ratings text without its braces (empty when shorter than two) |
| Day19.AfterTwo | day_19/solution.py:11-14 | a field without its two-character "c=" prefix |
| Day19.DropLast | day_19/solution.py:39 | the rule list without its closing brace |
| Day19.ParsePartLine | day_19/solution.py:9-14 | a part written as "{x=..,m=..,a=..,s=..}" parses back to the same part |
| Day19.SplitFields | day_19/solution.py:10 | splitting the written fields on commas gives the four fields back |
| Day19.NoCommaInNumber | day_19/solution.py:10 | a written integer holds no comma and no colon, so splitting cannot cut it |
| Day19.NoCommaInField | day_19/solution.py:10 | a written field holds no comma |
| Day19.FieldValue | day_19/solution.py:11-14 | the value after a field's prefix is the field's integer |
| Day19.ParseCondition | day_19/solution.py:23-32 | the category is the expression's first character, and the condition is "always" exactly for the text "True" |
| Day19.ParseRule | day_19/solution.py:21-26 | a rule's category is the first character before the colon and its destination the text after it |
| Day19.ParseRuleText | day_19/solution.py:21-32 | a canonical rule written as text parses back to itself |
| Day19.ParseConditionText | day_19/solution.py:28-32 | a condition written as text parses back to itself and holds no colon |
| Day19.FallbackRule | day_19/solution.py:46 | the last stage becomes a rule that always holds with that stage as destination |
| Day19.ParseEach | day_19/solution.py:44-45 | one rule per stage, each the parse of its stage; failing exactly when some stage fails |
| Day19.ParseWorkflow | day_19/solution.py:36-39 | the name is the text before the brace, the rules one per comma-separated stage, and the workflow is well formed |
| Day19.CreateRules | day_19/solution.py:41-47 | the loop builds the specified rules: each stage but the last parsed, the last made an always-holding rule |
| Day19.NewWorkflow | day_19/solution.py:36-39 | the workflow built is the specified parse |
| Day19.ParseRuleCanonical | day_19/solution.py:21-32 | every parsed rule is canonical |
| Day19.ParseWorkflowCanonical | day_19/solution.py:36-47 | every parsed workflow ends with an always-holding rule, so evaluation always finds a rule |
| Day19.Decide | day_19/solution.py:76-96 | the chosen rule is the first one at or after the start that holds for the part |
| Day19.RouteMoreFuel | day_19/solution.py:71-97 | once a part is routed, more fuel does not change the verdict |
| Day19.RouteStep | day_19/solution.py:88-94 | a destination that names no workflow ends the route, accepting exactly for "A" |
| Day19.FirstHoldingRule | day_19/solution.py:76-96 | the inner loop finds the first rule that holds |
| Day19.ProcessPart | day_19/solution.py:71-97 | the loops route the part from "in" as specified, failing when "in" is missing |
| Day19.SystemOf | day_19/solution.py:56-62 | every workflow's name is a key of the system |
| Day19.SystemOfLastWins | day_19/solution.py:59-61 | a name maps to the last workflow with that name |
| Day19.SystemOfSnoc | day_19/solution.py:59-61 | adding a workflow to the list adds or replaces its name's entry and leaves the others |
| Day19.Workflows | day_19/solution.py:59-60 | every parsed workflow is valid |
| Day19.CreateSystem | day_19/solution.py:56-62 | the loop builds the specified dictionary, failing exactly when some line fails to parse |
| Day19.AddWorkflow | day_19/solution.py:59-61 | one round of the loop fails only when the line does not parse, and otherwise extends the parsed workflows by that line's and the dictionary by its entry |
| Day19.PuzzleOf | day_19/solution.py:51-69 | the puzzle's system is valid and its pile has one part per line |
| Day19.AcceptedOfMeaning | day_19/solution.py:99-105 | the accepted parts are exactly the pile's parts that the workflows accept |
| Day19.FindAllAcceptedParts | day_19/solution.py:99-105 | the loop keeps the accepted parts in pile order |
| Day19.AcceptedFails | day_19/solution.py:99-105 | a part that cannot be routed stops the whole search |
| Day19.Ratings | day_19/solution.py:16-17 | each rating is x + m + a + s of its part |
| Day19.AcceptedSum | day_19/solution.py:107-112 | the sum of the accepted parts' ratings is the sum over the pile of the accepted parts' ratings |
| Day19.SumAllAcceptedRatings | day_19/solution.py:107-112 | the loop computes that sum, failing exactly when some part cannot be routed |
| Day20.ParseModule | day_20/solution.py:61-73 | a parsed module is never the button; a flip-flop starts off (-1) and a conjunction starts with no inputs |
| Day20.ParseModuleMeaning | day_20/solution.py:61-73 | a line parses exactly when it has " -> " with a non-empty name; the kind is broadcaster, flip-flop ('%'), conjunction ('&') or plain by the name, and the destinations are the ", "-separated list |
| Day20.ParseModuleText | day_20/solution.py:61-63 | the line begins with the module's label, " -> " and its destinations joined by ", " |
| Day20.ParseModules | day_20/solution.py:60-73 | one module per line, each the parse of its line |
| Day20.ParseModulesFails | day_20/solution.py:60-73 | the modules fail exactly when some line fails to parse |
| Day20.DeclareFrom | day_20/solution.py:74 | every module in the dictionary is stored under its own name and comes from some line |
| Day20.DeclareLast | day_20/solution.py:74 | every line's module name is a key, and the last line with a name wins |
| Day20.ModulesOfInitial | day_20/solution.py:58-76 | the created modules are in their initial state and include the button |
| Day20.CreateModules | day_20/solution.py:58-76 | the loop builds the specified dictionary, adding the button last |
| Day20.ParseFailureStays | day_20/solution.py:60-73 | a line that fails to parse makes the whole input fail |
| Day20.WithInputsMeaning | day_20/solution.py:89-95 | after populating, a conjunction's inputs are exactly the modules that send to it, each remembered low, and nothing else changes |
| Day20.InputsFromNext | day_20/solution.py:92-95 | one more sender adds itself, low, to the inputs of the conjunctions it sends to |
| Day20.WithInputsFromNone | day_20/solution.py:89-95 | with no senders processed nothing changes |
| Day20.RegisterAppend | day_20/solution.py:92-95 | one more destination adds the sender to that destination's inputs when it is a conjunction |
| Day20.RegisterNext | day_20/solution.py:90-95 | registering one more module's destinations is the same as populating with one more sender |
| Day20.Track | day_20/solution.py:86-87 | tracking a pulse keeps the tracker's levels |
| Day20.TrackCounts | day_20/solution.py:86-87 | a high pulse adds 1 to the high count, a low pulse subtracts 1 from the low count, and a plain pulse adds nothing |
| Day20.Respond | day_20/solution.py:103-117 | a module's response keeps its name, destinations and kind |
| Day20.RespondOk | day_20/solution.py:103-117 | a response keeps the module well formed and sends a pulse within -1 to 1 |
| Day20.FlipFlopResponse | day_20/solution.py:106-108 | a low pulse flips a flip-flop's status, a high pulse leaves it, and it sends its status |
| Day20.ConjunctionResponse | day_20/solution.py:109-115 | a conjunction remembers the pulse from its source and sends low exactly when every input is high, high otherwise |
| Day20.StatelessResponse | day_20/solution.py:104-105 | the button and broadcaster send low, a plain module sends 0, and neither changes |
| Day20.AllHighMeaning | day_20/solution.py:42-47 | summing the inputs equals their count exactly when every input is high |
| Day20.CheckIfAllInputsHigh | day_20/solution.py:42-47 | the loop decides whether every input is high |
| Day20.Dispatch | day_20/solution.py:118-127 | sending keeps the modules and the tracker's levels, and every queued pulse targets a known module |
| Day20.DispatchSends | day_20/solution.py:118-123 | every queued pulse carries the sender's pulse and name |
| Day20.DispatchQueues | day_20/solution.py:119-123 | one pulse is queued per known destination, in order, unless a flip-flop got a high pulse, which queues nothing |
| Day20.DispatchCounts | day_20/solution.py:124-125 | each unknown destination counts the pulse in the tracker |
| Day20.DispatchHitsRx | day_20/solution.py:126-127 | rx is hit exactly when a low pulse goes to an unknown "rx" |
| Day20.DispatchGrows | day_20/solution.py:118-127 | sending never lowers the high count nor raises the low count |
| Day20.Known | day_20/solution.py:120-121 | the known destinations are at most the destinations |
| Day20.Unknown | day_20/solution.py:124 | known and unknown destinations add up to all of them |
| Day20.KnownMeaning | day_20/solution.py:120-121 | a destination is known exactly when it names a module |
| Day20.ProcessOk | day_20/solution.py:101-127 | processing one pulse keeps the state valid, the modules' shape and the queue well formed |
| Day20.RunStep | day_20/solution.py:100-101 | draining a queue takes its head, then drains the rest with what the head sent appended |
| Day20.RunEnd | day_20/solution.py:100 | an empty queue leaves the state as it is |
| Day20.ProcessHeadOk | day_20/solution.py:101-127 | processing the head keeps the state and the rest of the queue valid |
| Day20.RunKeepsValid | day_20/solution.py:100-127 | a drained queue leaves a valid state |
| Day20.RunKeeps | day_20/solution.py:100-127 | a drained queue keeps the modules' shape and only grows the counts |
| Day20.PushesKeep | day_20/solution.py:129-131 | any number of pushes keeps the state valid and its shape |
| Day20.PushesFailureStays | day_20/solution.py:129-131 | a push that does not finish within the fuel stops every later count too |
| Day20.ProductOfCounts | day_20/solution.py:132 | the product is high count times minus the low count |
| Day20.Configuration.constructor | day_20/solution.py:51-56 | the configuration starts from the created modules with every count 0, populated inputs and rx not hit |
| Day20.Configuration.PopulateAllInputsMemos | day_20/solution.py:89-95 | the loops give every conjunction its inputs as specified and change nothing else |
| Day20.Configuration.RegisterWithDestinations | day_20/solution.py:91-95 | the inner loop registers one module with its destinations |
| Day20.Configuration.RegisterSource | day_20/solution.py:90-95 | registering one more module's destinations extends the populated inputs by that sender, and nothing else changes |
| Day20.Configuration.UpdatePulsesTracker | day_20/solution.py:86-87 | the tracker is updated as specified and nothing else changes |
| Day20.Configuration.SendPulses | day_20/solution.py:118-127 | the loop over destinations is the specified dispatch |
| Day20.Configuration.ProcessPulse | day_20/solution.py:101-127 | one pulse is processed as specified |
| Day20.Configuration.PropagatePulsesWithSinglePush | day_20/solution.py:97-127 | one push drains its queue as specified, or the fuel runs out |
| Day20.Configuration.ProcessHead | day_20/solution.py:100-127 | one iteration of the queue loop keeps the drain's result |
| Day20.Configuration.CalculatePulsesProductForPushes | day_20/solution.py:129-132 | after the pushes the state is the specified one and the result is the product of its counts |
| Day20.Configuration.FindMinimalNumberOfPushesForRx | day_20/solution.py:134-139 | the result is the least number of pushes after which rx is hit |
| Day20.SolveProblem | day_20/solution.py:142-152 | part 1 is the product after 1000 pushes and part 2 the least number of pushes that hits rx, each on a fresh configuration |
| Day21.ModPeriodic | day_21/solution.py:76-83 | adding whole widths does not change a coordinate's place in the tile |
| Day21.PlotPeriodic | day_21/solution.py:65-83 | the map repeats: shifting a position by whole tiles keeps whether it is a plot |
| Day21.PlotInGrid | day_21/solution.py:29-30 | inside the tile, a position is a plot exactly when its cell is '.' or 'S' |
| Day21.CellsBeforeMeaning | day_21/solution.py:27-32 | after the loops reach a cell, the dictionary holds exactly the earlier cells, each a plot when it is '.' or 'S' |
| Day21.GridPlots | day_21/solution.py:25-35 | the positions are exactly the tile's cells, each marked as a plot or not |
| Day21.Neighbours | day_21/solution.py:40 | four neighbours, left, right, up and down |
| Day21.PlotsAmong | day_21/solution.py:41-47 | the kept candidates are exactly those that are plots |
| Day21.SuccessorsAdd | day_21/solution.py:52-54 | one more start adds its neighbouring plots to the endings |
| Day21.Distance | day_21/solution.py:40 | the taxicab distance is 0 exactly between equal positions |
| Day21.ReachDistance | day_21/solution.py:57-63 | a plot reachable in n steps lies at most n away with the difference even |
| Day21.SuccessorFrom | day_21/solution.py:50-55 | every ending is a neighbouring plot of some start |
| Day21.StepDistance | day_21/solution.py:40 | one step changes the distance from any point by exactly 1 |
| Day21.ReachPlots | day_21/solution.py:57-63 | every position reached is a plot |
| Day21.Shifts | day_21/solution.py:72-74 | the eight shifts combine -width, width or 0 with -height, height or 0, never both 0 |
| Day21.ShiftsComplete | day_21/solution.py:72-74 | every such combination other than (0, 0) is among the shifts |
| Day21.Without | day_21/solution.py:74 | dropping (0, 0) keeps every other shift |
| Day21.ShiftMap | day_21/solution.py:77-80 | the loop moves every entry of the map by the shift |
| Day21.ShiftMaps | day_21/solution.py:75-81 | one shifted copy of the map per shift |
| Day21.MergeMaps | day_21/solution.py:82-83 | the merge keeps every original and copied position, each still marked as the repeating map marks it |
| Day21.Cover | day_21/solution.py:65-83 | every position in the expanded window lies one shift away from the old window |
| Day21.ExpandedEntries | day_21/solution.py:72-83 | after the copies, the positions are exactly the expanded window, each marked as the repeating map marks it |
| Day21.CopyShowsPlots | day_21/solution.py:76-81 | every copy marks its positions as the repeating map does and lies in the expanded window |
| Day21.Covered | day_21/solution.py:72-83 | the copies cover the whole expanded window |
| Day21.CoveringCopy | day_21/solution.py:76-81 | the copy for a shift holds each position shifted back into the old window |
| Day21.ShiftedPlots | day_21/solution.py:76-81 | a copy shifted by whole tiles still marks plots correctly |
| Day21.WholeCopies | day_21/solution.py:72-73 | every shift is a whole number of tiles |
| Day21.FarmMap.constructor | day_21/solution.py:9-17 | the map keeps its rows, height and width, the tile's positions, the last 'S' as start, and a window covering the tile |
| Day21.FarmMap.CreatePositions | day_21/solution.py:25-35 | the loops give the tile's positions and the last 'S' as start |
| Day21.FarmMap.ExpandPositions | day_21/solution.py:65-83 | the window grows by its own size on every side, keeping every old position and the map valid |
| Day21.ShiftedCopies | day_21/solution.py:66-80 | the shifts are every combination of -size, 0 and +size on each axis except (0, 0), and each new map is the old window moved by its shift |
| Day21.FarmMap.FindPossiblePositionsAfterStep | day_21/solution.py:37-48 | from a position in the window, the result is its neighbouring plots, and the window only grows |
| Day21.FarmMap.FindAllPossiblePositionsAfterStepWithMultipleStarts | day_21/solution.py:50-55 | the endings are exactly the neighbouring plots of the starts |
| Day21.FarmMap.StepFrom | day_21/solution.py:52-54 | one round of the loop adds the start's neighbouring plots to the endings found so far, and the window only grows |
| Day21.FarmMap.DetermineReachablePlotsAfterCertainSteps | day_21/solution.py:57-63 | the count is the number of plots reached in exactly that many steps, 1 for no steps, and it fails exactly when there is no start |
| Day21.FarmMap.Advance | day_21/solution.py:60-62 | one round of the loop takes the plots reached in n steps to those reached in n + 1 |
| Day22.ParseCoordinates | day_22/solution.py:16-19 | one coordinate per comma-separated part |
| Day22.ParseCoordinatesTriple | day_22/solution.py:16-19 | three integers written with commas parse back to themselves |
| Day22.SplitTriple | day_22/solution.py:17 | splitting three written integers on commas gives them back |
| Day22.ParseTriple | day_22/solution.py:18 | the three written integers each parse back |
| Day22.NoComma | day_22/solution.py:17 | a written integer holds no comma |
| Day22.LastRise | day_22/solution.py:21-26 | the orientation is the last axis where the end exceeds the start, or 0 when there is none |
| Day22.DetermineOrientation | day_22/solution.py:21-26 | the loop finds that axis, failing when the end has fewer coordinates than the start |
| Day22.ParseBrick | day_22/solution.py:9-14 | a brick's orientation is the last rising axis and its length the rise along it |
| Day22.NewBrick | day_22/solution.py:9-30 | the brick built is the specified parse |
| Day22.LengthPositive | day_22/solution.py:21-30 | the length is positive exactly when some axis rises; with none the orientation is 0 |
| Day22.InsertBrick | day_22/solution.py:46 | inserting adds the brick to the list's contents |
| Day22.SortBricks | day_22/solution.py:46 | sorting keeps the same bricks |
| Day22.InsertBrickSorted | day_22/solution.py:46 | inserting into a list ordered by starting height keeps it ordered |
| Day22.AtHeightAppend | day_22/solution.py:46 | the bricks at a height in two joined lists are those of the first then those of the second |
| Day22.AtHeightLast | day_22/solution.py:46 | appending a brick adds it to its own height only |
| Day22.InsertBrickStable | day_22/solution.py:46 | inserting places the brick after the bricks of its height already there |
| Day22.SortBricksStable | day_22/solution.py:46 | sorting keeps the input order among bricks of equal height |
| Day22.SortBricksSorted | day_22/solution.py:46 | the sorted bricks are ordered by starting height and are a permutation of the input |
| Day22.CreateBricks | day_22/solution.py:41-47 | the bricks come out ordered by starting height |
| Day22.DetermineDimensions | day_22/solution.py:49-69 | the loop computes the specified dimensions |
| Day22.DimensionsBound | day_22/solution.py:49-69 | each dimension is at least 0, at least every brick's far end along that axis, and 0 or one brick's far end |
| Day22.CreatePoints | day_22/solution.py:71-91 | the loops build the specified points |
| Day22.MarkOneBrick | day_22/solution.py:78-90 | marking one brick sets its cells as specified |
| Day22.FillColumnAt | day_22/solution.py:76-77 | the innermost loop adds one column of free cells |
| Day22.FillPlaneAt | day_22/solution.py:75-77 | the middle loop adds one plane of free cells |
| Day22.FillBoxAt | day_22/solution.py:74-77 | the first loops mark exactly the box's cells free |
| Day22.MarkAlongAt | day_22/solution.py:84-90 | the loop along a brick marks exactly its first cells occupied |
| Day22.MarkBrickAt | day_22/solution.py:79-90 | a brick marks its start, its end and the cells along it, and keeps every other point |
| Day22.MarkBricksAt | day_22/solution.py:78-90 | after all bricks, a point is marked occupied exactly when it was or some brick occupies it |
| Day22.PointsMeaning | day_22/solution.py:71-91 | the points are the box's cells and the bricks' cells, occupied exactly when some brick occupies them |
| Day22.NewStack | day_22/solution.py:34-39 | the stack holds the sorted bricks, their dimensions and their points, failing exactly when a brick fails to parse or is not three-dimensional |
| Day23.Grid | day_23/solution.py:8-14 | the map's positions are listed in row-major order |
| Day23.RowMajorDistinct | day_23/solution.py:11-13 | a row-major listing never repeats a position |
| Day23.MapBeforeMeaning | day_23/solution.py:11-13 | after the loops reach a cell, the map holds exactly the earlier cells, each with its character, in row-major order |
| Day23.GridMeaning | day_23/solution.py:8-14 | the map holds exactly the grid's cells, each with its character |
| Day23.CreateHikingMap | day_23/solution.py:8-14 | the loops build the specified map, failing exactly when a row is shorter than the first |
| Day23.Around | day_23/solution.py:20 | four neighbours, right, left, down and up |
| Day23.Steps | day_23/solution.py:20-25 | the kept neighbours are exactly the traversable ones |
| Day23.SlopeRule | day_23/solution.py:22-24 | a neighbour is traversable exactly when it is on the map, not '#', and not a slope pointing back |
| Day23.FindTraversableNeighbors | day_23/solution.py:17-26 | the loop keeps the traversable neighbours in order |
| Day23.ScannedStart | day_23/solution.py:32-37 | the start is the last '.' met on row 0 |
| Day23.ScannedRow | day_23/solution.py:33-35 | the largest row met so far is the current tile's row |
| Day23.ScannedEnd | day_23/solution.py:32-39 | the end is the last '.' met on the largest row seen so far |
| Day23.FindStartAndEnd | day_23/solution.py:29-40 | the loop computes the specified start and end |
| Day23.Largest | day_23/solution.py:59 | the last of the sorted lengths is one of them and at least every one |
| Day23.Pushed | day_23/solution.py:56-58 | pushing keeps the stack below and adds the path extended by every neighbour not yet on it |
| Day23.EndsOnce | day_23/solution.py:52-53 | a finished hike reaches the end only at its last step |
| Day23.NextStep | day_23/solution.py:55-58 | every longer hike extends a prefix by a traversable neighbour not yet visited |
| Day23.Extend | day_23/solution.py:56-58 | extending a hike by a traversable unvisited neighbour gives a hike |
| Day23.RecordKeeps | day_23/solution.py:52-53 | recording a path that reached the end keeps the search invariant |
| Day23.PushedHikes | day_23/solution.py:55-58 | every path pushed is a hike |
| Day23.PushedCovers | day_23/solution.py:55-58 | every finished hike through the popped path stays pending on the stack |
| Day23.ExtendKeeps | day_23/solution.py:54-58 | expanding a path keeps the search invariant |
| Day23.SearchDone | day_23/solution.py:49-59 | once the stack is empty every finished hike's length has been recorded |
| Day23.DetermineLongestPathLength | day_23/solution.py:43-59 | the result is the length of a finished hike and no finished hike is longer; a missing start or end is a key error and no hike at all an index error |
| Day23.PushPaths | day_23/solution.py:56-58 | the loop pushes as specified |
| Day23.GridEnds | day_23/solution.py:29-40 | on a rectangular grid the start is the last '.' of the top row and the end the last '.' of the whole grid in row-major order, since every '.' met is on the lowest row seen so far |
| Day23.SolveProblem | day_23/solution.py:62-71 | part 1 is the longest hike's length on the grid, with the same error cases |
| Day24.ParseFormat | day_24/solution.py:12-23 | a hailstone written as "px, py, pz @ vx, vy, vz" parses back to itself |
| Day24.ParseWithoutAt | day_24/solution.py:14-16 | a line without '@' fails to parse |
| Day24.RemoveFormatSpaces | day_24/solution.py:13 | removing the spaces from a written hailstone leaves its comma- and '@'-separated numbers |
| Day24.RemoveSpaces | day_24/solution.py:13 | removing spaces turns ", " into "," |
| Day24.RemoveJoined | day_24/solution.py:13 | removing a character from joined text removes it from each piece |
| Day24.RemoveAtSpaces | day_24/solution.py:13 | removing spaces turns " @ " into "@" |
| Day24.RemoveKeeps | day_24/solution.py:13 | removing a character adds no new character |
| Day24.SplitAt | day_24/solution.py:14 | splitting on '@' gives the position part and the velocity part |
| Day24.NotInNumber | day_24/solution.py:14-16 | a written integer holds no separator |
| Day24.DetermineLinearEquationElements | day_24/solution.py:9-24 | the loop parses every line, failing exactly when some line fails |
| Day24.PathOnLine | day_24/solution.py:62-67 | every point of a hailstone's x-y path satisfies its line equation vy * x - vx * y = vy * px - vx * py |
| Day24.ScaledInverse | day_24/solution.py:27-39 | there is no inverse exactly when the determinant is 0; otherwise the result times the matrix is the determinant times the identity |
| Day24.ScaledIntersection | day_24/solution.py:42-55 | there is no crossing exactly when the determinant is 0; otherwise the scaled point satisfies both line equations |
| Day24.ParallelPaths | day_24/solution.py:58-79 | two paths have no single crossing exactly when their x-y velocities are parallel |
| Day24.CrossingUnique | day_24/solution.py:42-55 | any point on both lines is the crossing found |
| Day24.CrossingPairs | day_24/solution.py:58-79 | the loops examine every pair i < j in order and keep exactly those whose paths cross at a single point |
| Day24.Pow10 | day_24/solution.py:115 | 10 to a power is at least 1 |
| Day24.Candidates | day_24/solution.py:110-119 | the candidate velocities are exactly v - f for every non-zero f in [-10^m, 10^m) dividing the gap, other than 0 |
| Day24.Combine | day_24/solution.py:120-123 | narrowing never adds a velocity outside the new candidates |
| Day24.FindVelocityForDimensionWithParallels | day_24/solution.py:99-125 | the loops end with the specified candidates and return one of them, failing exactly when none is left |
| Day24.Pop | day_24/solution.py:125 | popping returns a member of the set |
| Day24.PairWithLater | day_24/solution.py:106-123 | the inner loop narrows the candidates as specified |
| Day24.RowScanFromParallels | day_24/solution.py:106-123 | every candidate kept after a row comes from some pair of hailstones sharing a velocity |
| Day24.NarrowedFromParallels | day_24/solution.py:103-124 | every candidate kept after the outer loop comes from such a pair |
| Day24.FinalFromParallels | day_24/solution.py:99-125 | every velocity returned comes from some pair of hailstones sharing a velocity |
| Day24.RockVelocityIsCandidate | day_24/solution.py:109-119 | a rock velocity that meets two hailstones sharing a velocity is among that pair's candidates, when it lies in the searched range |
| Day24.WithColumn | day_24/solution.py:146-179 | replacing a column puts the new values in that column |
| Day24.ExpandColumn | day_24/solution.py:180 | the determinant expands along any column by its cofactors |
| Day24.AlienColumn | day_24/solution.py:180 | a column against another column's cofactors gives 0 |
| Day24.CofactorsKeep | day_24/solution.py:146-183 | replacing a column keeps that column's cofactors |
| Day24.ApplyDot | day_24/solution.py:143-144 | a product with the matrix image splits over the columns |
| Day24.ReplacedByImage | day_24/solution.py:181-183 | replacing column k by the image of p multiplies the determinant by p's k-th coordinate |
| Day24.RowCofactors | day_24/solution.py:180-183 | a row against the cofactor columns gives the determinant on the diagonal and 0 elsewhere |
| Day24.RowDeterminants | day_24/solution.py:181-183 | a row against the three replaced determinants gives the determinant times that row's constant |
| Day24.FloorDiv | day_24/solution.py:184-186 | Python's floor division: the quotient rounds towards minus infinity for either sign of divisor |
| Day24.FloorDivExact | day_24/solution.py:184-186 | an exact division gives the exact quotient |
| Day24.CramerSolves | day_24/solution.py:180-187 | when the determinant is non-zero and divides every replaced determinant, Cramer's rule gives a solution of the system |
| Day24.SolvedRow | day_24/solution.py:184-187 | each equation holds for the solution found |
| Day24.CramerUnique | day_24/solution.py:180-187 | for a non-singular system, Cramer's rule gives back the point that produced the constants |
| Day24.RockOnRow | day_24/solution.py:136-144 | a rock that hits a hailstone satisfies that hailstone's row of the system |
| Day24.RockFound | day_24/solution.py:128-187 | a rock with the chosen velocity that hits the first three hailstones is exactly what Cramer's rule returns, when the system is non-singular |
| Day24.BuildSystem | day_24/solution.py:132-145 | the loop builds the system's coefficients and constants from the first three hailstones |
| Day24.ColumnMatrices | day_24/solution.py:146-179 | the three matrices are the system with column x, y and z replaced by the constants |
| Day24.CalculateInitialPositionsWithCramersRule | day_24/solution.py:128-187 | the result follows from velocities left on every axis by Cramer's rule, failing when an axis has none, when fewer than three hailstones exist or when the system is singular |
| Day24.SolveProblem | day_24/solution.py:190-201 | part 2 is the sum of the rock's coordinates, failing exactly when a line fails to parse |
| Day25.Elements | day_25/solution.py:11 | the set of connections holds exactly the listed names |
| Day25.AddConnections | day_25/solution.py:28-43 | one pass of the loop adds the line's names to its component and the component to each name, as specified |
| Day25.CreateComponents | day_25/solution.py:25-44 | the loop builds the specified diagram, failing exactly when some line has no ": " |
| Day25.AddLineSymmetric | day_25/solution.py:31-43 | adding a line keeps the connections symmetric and every connection a component |
| Day25.DiagramSymmetric | day_25/solution.py:25-44 | in the diagram, a connects to b exactly when b connects to a, and every connection is a component |
| Day25.DiagramHasLines | day_25/solution.py:29-43 | every listed connection is joined to its line's component in both directions |
| Day25.LinkBackAt | day_25/solution.py:37-43 | the inner loop gives each listed name the line's component and changes nothing else |
| Day25.AddLineAt | day_25/solution.py:31-43 | one line widens its own component by the listed names and each listed name by the component |
| Day25.DiagramConnections | day_25/solution.py:25-44 | a name is a component exactly when some line mentions it, and a connects to b exactly when some line joins them |
| LineSplitter.LastStart | utils/c/get_list_of_lines.c:17-26 | the last piece of a text starts just after a newline (or at 0) and holds no newline before the final character |
| LineSplitter.LastStartAt | utils/c/get_list_of_lines.c:19-24 | any position just after a newline with no newline up to the final character is where the last piece starts |
| LineSplitter.PiecesLast | utils/c/get_list_of_lines.c:19-24 | the pieces of a text are the pieces before a boundary followed by the rest as one piece |
| LineSplitter.PiecesConcat | utils/c/get_list_of_lines.c:17-26 | the pieces joined back together give the whole text |
| LineSplitter.PiecesShape | utils/c/get_list_of_lines.c:19-24 | every piece is non-empty, has no newline before its last character, and every piece but the last ends in a newline |
| LineSplitter.PiecesCount | utils/c/get_list_of_lines.c:6-27 | the number of pieces is the number of newlines, plus one when the text does not end in a newline |
| LineSplitter.NoNewlineCount | utils/c/get_list_of_lines.c:7-13 | a text without newlines counts none |
| LineSplitter.CountPrefixMonotone | utils/c/get_list_of_lines.c:7-13 | a longer prefix counts at least as many newlines |
| LineSplitter.StoreStep | utils/c/get_list_of_lines.c:19-25 | the pieces of the text through `c` are those through `start` followed by the piece from `start` through `c` |
| LineSplitter.Store | utils/c/get_list_of_lines.c:19-25 | storing at a newline or the last character appends that piece, uses up one newline when not at the end, and leaves `start` at a boundary |
| LineSplitter.Skip | utils/c/get_list_of_lines.c:17-19 | passing a character that is not a newline keeps the open piece free of newlines |
| LineSplitter.LastPieceNewline | utils/c/get_list_of_lines.c:19-24 | the last piece of a text ending in a newline ends in that newline |
| LineSplitter.StoreStepCount | utils/c/get_list_of_lines.c:19-25 | storing before the last character uses up one newline |
| LineSplitter.PrefixCountBound | utils/c/get_list_of_lines.c:7-13 | a prefix counts no more newlines than the whole text |
| LineSplitter.StoreCount | utils/c/get_list_of_lines.c:7-13 | a piece ending at a newline counts one more |
| LineSplitter.CountSlots | utils/c/get_list_of_lines.c:6-13 | the first loop counts one slot per newline plus one |
| LineSplitter.GetListOfLines | utils/c/get_list_of_lines.c:4-29 | the array has room for one line more than the newlines, and the stored entries are exactly the pieces, each followed by NUL |
| LineSplitter.ScanCharacter | utils/c/get_list_of_lines.c:17-26 | one pass of the scanning loop keeps the stored entries equal to the pieces of the text up to the last boundary passed, each followed by NUL, with the open piece after it free of newlines |
| Grids.Transpose | day_13/solution.py:17-18 | `zip(*rows)`: as many columns as the shortest row, each with one character per row, column j holding every row's j-th character |
| Grids.MinLength | day_13/solution.py:18 | the shortest row's length is at most every row's |
| Grids.MinLengthAttained | day_13/solution.py:18 | some row has exactly the shortest length |
| Grids.Column | day_14/solution.py:9 | a column holds the j-th character of every row |
| Grids.TransposeShape | day_14/solution.py:9 | the transpose of an h by w grid is w by h, its rows being the grid's columns |
| Numbers.Gcd | day_8/solution.py:103 | the gcd of two numbers not both 0 is positive |
| Numbers.GcdDivides | day_8/solution.py:103 | the gcd divides both numbers |
| Numbers.GcdGreatest | day_8/solution.py:103 | every common divisor divides the gcd |
| Numbers.LcmCommonMultiple | day_8/solution.py:103 | the lcm of two positive numbers is a positive common multiple |
| Numbers.LcmLeast | day_8/solution.py:103 | the lcm divides every common multiple |
| Numbers.LcmAllLeast | day_8/solution.py:103 | `lcm(*lengths)` is positive, a multiple of every length, and divides every common multiple |
| Text.Find | day_1/solution.py:76-80 | `str.find`: -1 exactly when the text does not occur from the start on, otherwise its first occurrence there |
| Text.SplitJoin | day_25/solution.py:28-30 | `str.split` cuts the text into pieces that, joined back with the separator, give the text |
| Text.ParseInt | day_24/solution.py:17-22 | `int()` of a string of digits is its decimal value, and fails on the empty string |
| Text.ParseIntRoundTrip | day_24/solution.py:17-22 | `int()` reads back any integer written in decimal |
| Text.ParseHex | day_18/solution.py:34 | `int(x, 16)` succeeds exactly on non-empty strings of hexadecimal digits |
| Text.ParseLines | day_24/solution.py:12-23 | one parsed value per line, each the parse of its line, failing exactly when some line fails |
| Text.ParseLinesPrefix | day_24/solution.py:12-23 | a line that fails makes all the lines fail |

## Left out

- Reading the puzzle input from files, `main.c`, `day_1/solution.c`, the command-line dispatch in `solutions.py` and the module-level `print(solution())` calls: I/O only.
- The `time.time()` timing, the `SolutionResults` record and every `__repr__`: timing and output only.
- Debug `print` calls, including the `records[1]` arrangement count that day 12's `solve_problem` prints and the diagram day 25 prints: output only.
- Placeholder answers of the form `2 if data else 0` (part 2 of days 5, 7, 12, 13, 17, 19, 22, 23 and 25, and part 1 of days 12, 22 and 25): they do not depend on the puzzle.
- The Python `utils.get_list_of_lines` and `utils.extract_data_from_file` are not part of this model. The solvers that use them take their input already split into lines.
- Day 6 (`day_6/solution.py`, `day_6/solution.c`): it works with square roots and ceil/floor on doubles.
- Day 3's `utils.Grid` and `utils.Cell` are not part of this model. The grid is its rows, left and right are the cells one column over, and the adjacency the grid reports is a parameter. The grid's iteration order is taken as row-major. Lists built from `list(set(...))` are modelled as sets.
- Day 19's `eval` of a rule's text: a condition is modelled as a comparison of the category's rating with an integer threshold (`<` or `>`), or as always true.
- Day 21's `check_if_perfect`, `check_if_perfect_square` and `check_if_perfect_cube`: floating-point powers and roots.
- Day 21's `solve_problem` is not modelled as a member. It calls `determine_reachable_plots_after_certain_steps` with fixed step counts, and that method is modelled.
- Day 24's reciprocal-based inverse, intersection coordinates, crossing times and window test: floating point. Part 1 is modelled up to the pair enumeration and the non-zero determinant test.
- Day 24's `get_velocity_magnitude_for_dimension` uses `log10`, so the magnitude of each axis is a parameter.
- Running time, for example day 21's 26501365-step part 2 or the long day 17 search.
- Day08.SolveProblem, Day08.CountStepsFromStartToFinish, Day08.PatternLength: the walks take a `fuel` bound on their steps, and a walk longer than the bound ends as `OutOfFuel`.
- Day19.ProcessPart, Day19.FindAllAcceptedParts, Day19.SumAllAcceptedRatings: routing takes a `fuel` bound on the workflows visited, because a cycle of workflows would loop forever.
- Day20.Configuration.PropagatePulsesWithSinglePush: draining the queue takes a `fuel` bound on the pulses processed.
- Day20.Configuration.FindMinimalNumberOfPushesForRx: the search stops after `maxPushes` pushes and then reports no answer. The source pushes for as long as rx is not hit.
- Day23.DetermineLongestPathLength, Day23.SolveProblem: the search takes a `fuel` bound on the paths popped.
- Text.ParseInt: Python's `int()` also accepts white space around the number (such as a trailing "\r"), `_` between digits and non-ASCII decimal digits; here those inputs are the error case, so the model accepts only an optional sign followed by ASCII digits.
- Text.ParseHex: `int(x, 16)` also accepts a sign, a "0x" prefix, white space around the number and `_` between digits; here only hexadecimal digits are accepted.
- Text.Words: Python's `split()` with no argument also splits at tabs, line breaks and other white space; here only spaces separate words.
- Text.IsDigit: Python's `isdigit()` is also true of non-ASCII digits such as superscripts; here only '0' to '9' are digits.
- Day08.SolveProblem: it takes the instructions and the node lines already separated. The `description.split("\n\n")` of `Network.__init__`, its IndexError when the text has no blank line, and the line splitting of the second section are not modelled.
- Day19.PuzzleOf: it takes the workflow lines and the part lines already separated. The `data.split("\n\n")` of `Puzzle.__init__`, its IndexError when the text has no blank line, and the line splitting of each section are not modelled.
- Day07.SortHandsInOrder: it does not state stability, that is, that hands with equal keys keep their input order as Python's `sorted` does.
- Day10.Maze.constructor: it requires rectangular rows and an 'S'. The source raises IndexError or AttributeError otherwise.
- Day11.SolveProblem, Day11.CreateImage: they require a non-empty image with no row shorter than the first. The source raises IndexError otherwise.
- Day14.FindPattern: it states that the pattern found repeats, not that it is the first one the loops meet.
- Day14.NorthLoadAfterSpins, Day14.SolveProblem: they state that the answer is the north load after some number of spin cycles up to the number asked for, read off the detected pattern. A repeat detected in the loads alone does not make it the load after exactly that many cycles.
- Day16.SolveProblem: requires a non-empty rectangular grid; with no lines the source's `rows[0]` is an IndexError, and a row shorter than the first is one in `create_tiles`; neither error path is modelled.
- Day16.Contraption.constructor: requires a non-empty rectangular grid; with no lines the source's `rows[0]` is an IndexError, and a row shorter than the first is one in `create_tiles`; neither error path is modelled.
- Day16.Contraption.MaximizeEnergizedTiles: requires a non-empty rectangular grid; with no lines the source's `rows[0]` is an IndexError, and a row shorter than the first is one in `create_tiles`; neither error path is modelled.
- Day17.MinimizeHeatLoss: it states that the result is at least 0, and that a non-zero result is the heat loss of a route that reaches the end. It does not state that the result is the last such route popped, nor that it is a minimum; a depth-first search with this pruning does not find the minimum in general.
- Day17.SolveProblem: part 1 is stated as `MinimizeHeatLoss` states it, a non-zero value being the heat loss of some route to the end, not the minimum.
- Day17: the tracker's nested dictionaries are flattened into one map keyed by block and direction. Blocks are compared by value, which is what object identity amounts to here because there is one block per cell.
- Day21.FarmMap.constructor: it requires non-empty rectangular rows. The source accepts rows longer than the first and ignores their extra cells.
- Day24.FindVelocityForDimensionWithParallels: the magnitude `m` is given, not computed with `log10`.
- Part 2 of day 24 is stated for the velocities the search leaves. That the rock's true velocity survives the search is proved only per pair (`Day24.RockVelocityIsCandidate`).

## Findings

| source | as written | input that shows it | evidently intended | confidence | as-written member | corrected member |
|---|---|---|---|---|---|---|
| day_13/solution.py:25-28 | a horizontal line after the first row has index 0, which the value calculation reads as "no horizontal line" | the pattern "#.\n#." (two equal rows) has its line after row 0 and scores 1 instead of 100 | any horizontal line scores 100 times its row count, and only the absence of one falls back to the vertical line | not executed | Day13.FirstRowMirrorMisread | Day13.CorrectedValueHorizontal |
| day_5/solution.py:46-47 | a result of 0 is read as "no conversion applied", so a value converted to 0 is returned unchanged | the conversion "0 5 10" (destination 0, source 5, length 10) sends 5 to 0, yet 5 is returned | a covered value is shifted even when the result is 0, and only uncovered values are kept | not executed | Day05.ShiftToZeroKept | Day05.Converted |
| day_18/solution.py:58-61 | the trench's length is added inside the signed shoelace sum before the absolute value is taken, so it counts against the area when the plan goes round counter-clockwise | the plan "D 10, R 10, U 10, L 10" gets area 81 although it covers 11 × 11 = 121 cells | the absolute value of the shoelace sum, plus half the perimeter, plus one: the same area whichever way round the plan goes | not executed | Day18.CounterClockwiseRectangle | Day18.CorrectedAreaReverse |
