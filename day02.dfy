/** Day 2: cube conundrum. Each game shows several handfuls of red, green
    and blue cubes; a game is possible under a limit when no handful shows
    more of a colour than the limit allows, and its power is the product of
    the fewest cubes of each colour that make it possible. */
module Day02 {
  import opened Text
  import opened Sums

  /** How many cubes of each colour one handful showed. */
  datatype Scenario = Scenario(red: int, green: int, blue: int)

  /** A game: its id and its handfuls. */
  datatype GameInfo = GameInfo(id: int, scenarios: seq<Scenario>)

  datatype Color = Red | Green | Blue

  /** The colours in the order the handful's attributes are visited. */
  const Colors: seq<Color> := [Red, Green, Blue]

  function Get(scenario: Scenario, color: Color): int
  {
    match color
    case Red => scenario.red
    case Green => scenario.green
    case Blue => scenario.blue
  }

  // ---------------------------------------------------------------------
  // Parsing

  /** The colour a name stands for; other names are ignored. */
  function ColorNamed(name: string): Option<Color>
  {
    if name == "red" then Some(Red)
    else if name == "green" then Some(Green)
    else if name == "blue" then Some(Blue)
    else None
  }

  /** One "count colour" piece of a handful, its colour already looked up. */
  datatype Cube = Cube(color: Option<Color>, count: int)

  /** A piece split at the spaces: a missing colour word or a count that is
      not an integer is the exception case, `None`. */
  function ParseCube(description: string): Option<Cube>
  {
    var pieces := Split(description, " ");
    if |pieces| < 2 then None
    else match ParseInt(pieces[0])
      case None => None
      case Some(count) => Some(Cube(ColorNamed(pieces[1]), count))
  }

  /** Every piece parsed, `None` when one of them fails. */
  function ParseCubes(descriptions: seq<string>): (r: Option<seq<Cube>>)
    ensures r.Some? ==> |r.value| == |descriptions|
  {
    if descriptions == [] then Some([])
    else
      var n := |descriptions| - 1;
      match (ParseCubes(descriptions[..n]), ParseCube(descriptions[n]))
      case (Some(cubes), Some(cube)) => Some(cubes + [cube])
      case _ => None
  }

  lemma {:induction false} ParseCubesPrefix(descriptions: seq<string>, k: nat)
    requires k <= |descriptions| && ParseCubes(descriptions[..k]).None?
    ensures ParseCubes(descriptions).None?
    decreases |descriptions|
  {
    if k < |descriptions| {
      var n := |descriptions| - 1;
      assert descriptions[..n][..k] == descriptions[..k];
      ParseCubesPrefix(descriptions[..n], k);
    } else {
      assert descriptions[..k] == descriptions;
    }
  }

  /** The count of the last piece naming `color`, 0 when none does. */
  function LastCount(cubes: seq<Cube>, color: Color): int
  {
    if cubes == [] then 0
    else if cubes[|cubes| - 1].color == Some(color) then cubes[|cubes| - 1].count
    else LastCount(cubes[..|cubes| - 1], color)
  }

  /** The handful the pieces describe: per colour, the last count given. */
  function Tally(cubes: seq<Cube>): Scenario
  {
    Scenario(LastCount(cubes, Red), LastCount(cubes, Green), LastCount(cubes, Blue))
  }

  /** A colour no piece names counts 0. */
  lemma {:induction false} UnmentionedIsZero(cubes: seq<Cube>, color: Color)
    requires forall i :: 0 <= i < |cubes| ==> cubes[i].color != Some(color)
    ensures Get(Tally(cubes), color) == 0
  {
    LastCountZero(cubes, color);
  }

  lemma {:induction false} LastCountZero(cubes: seq<Cube>, color: Color)
    requires forall i :: 0 <= i < |cubes| ==> cubes[i].color != Some(color)
    ensures LastCount(cubes, color) == 0
  {
    if cubes != [] {
      var n := |cubes| - 1;
      assert forall i :: 0 <= i < n ==> cubes[..n][i] == cubes[i];
      LastCountZero(cubes[..n], color);
    }
  }

  /** A later piece naming a colour overrides the earlier ones; a piece
      with an unknown colour changes nothing. */
  lemma {:induction false} TallyAppend(cubes: seq<Cube>, cube: Cube)
    ensures cube.color.Some? ==>
      && Get(Tally(cubes + [cube]), cube.color.value) == cube.count
      && forall c :: c != cube.color.value ==> Get(Tally(cubes + [cube]), c) == Get(Tally(cubes), c)
    ensures cube.color.None? ==> Tally(cubes + [cube]) == Tally(cubes)
  {
    assert (cubes + [cube])[..|cubes|] == cubes;
  }

  /** `determine_block_details_for_scenario`: a handful's pieces are
      separated by ", "; each sets its colour's count. */
  function ScenarioOf(singleSet: string): Option<Scenario>
  {
    match ParseCubes(Split(singleSet, ", "))
    case None => None
    case Some(cubes) => Some(Tally(cubes))
  }

  method DetermineBlockDetailsForScenario(singleSet: string) returns (details: Option<Scenario>)
    ensures details == ScenarioOf(singleSet)
  {
    var cubes := Split(singleSet, ", ");
    var redCount, greenCount, blueCount := 0, 0, 0;
    ghost var parsed: seq<Cube> := [];
    for i := 0 to |cubes|
      invariant ParseCubes(cubes[..i]) == Some(parsed)
      invariant redCount == LastCount(parsed, Red)
      invariant greenCount == LastCount(parsed, Green)
      invariant blueCount == LastCount(parsed, Blue)
    {
      var cube := ParseCube(cubes[i]);
      assert cubes[..i + 1][..i] == cubes[..i];
      if cube.None? {
        ParseCubesPrefix(cubes, i + 1);
        return None;
      }
      var color, count := cube.value.color, cube.value.count;
      if color == Some(Red) {
        redCount := count;
      } else if color == Some(Green) {
        greenCount := count;
      } else if color == Some(Blue) {
        blueCount := count;
      }
      TallyAppend(parsed, cube.value);
      parsed := parsed + [cube.value];
    }
    assert cubes[..|cubes|] == cubes;
    details := Some(Scenario(redCount, greenCount, blueCount));
  }

  /** `determine_block_scenarios_for_game`: the handfuls are separated by
      "; ". */
  function ScenariosOf(sets: seq<string>): (r: Option<seq<Scenario>>)
    ensures r.Some? ==> |r.value| == |sets|
  {
    if sets == [] then Some([])
    else
      var n := |sets| - 1;
      match (ScenariosOf(sets[..n]), ScenarioOf(sets[n]))
      case (Some(scenarios), Some(scenario)) => Some(scenarios + [scenario])
      case _ => None
  }

  lemma {:induction false} ScenariosOfStep(sets: seq<string>)
    requires sets != [] && ScenariosOf(sets[..|sets| - 1]).None?
    ensures ScenariosOf(sets).None?
  {
  }

  lemma {:induction false} ScenariosOfPrefix(sets: seq<string>, k: nat)
    requires k <= |sets| && ScenariosOf(sets[..k]).None?
    ensures ScenariosOf(sets).None?
    decreases |sets|
  {
    if k < |sets| {
      var front := sets[..|sets| - 1];
      assert front[..k] == sets[..k];
      assert ScenariosOf(front[..k]).None?;
      ScenariosOfPrefix(front, k);
      ScenariosOfStep(sets);
    } else {
      assert sets[..k] == sets;
    }
  }

  method DetermineBlockScenariosForGame(collectedSets: string) returns (scenarios: Option<seq<Scenario>>)
    ensures scenarios == ScenariosOf(Split(collectedSets, "; "))
  {
    var sets := Split(collectedSets, "; ");
    var found: seq<Scenario> := [];
    for i := 0 to |sets|
      invariant ScenariosOf(sets[..i]) == Some(found)
    {
      var details := DetermineBlockDetailsForScenario(sets[i]);
      assert sets[..i + 1][..i] == sets[..i];
      if details.None? {
        ScenariosOfPrefix(sets, i + 1);
        return None;
      }
      found := found + [details.value];
    }
    assert sets[..|sets|] == sets;
    scenarios := Some(found);
  }

  /** `determine_game_id`: the integer after the first space. */
  function DetermineGameId(description: string): (r: Option<int>)
    ensures r.Some? ==> |Split(description, " ")| >= 2 && ParseInt(Split(description, " ")[1]) == r
  {
    var sections := Split(description, " ");
    if |sections| < 2 then None else ParseInt(sections[1])
  }

  /** `compile_game_info`: the text before ": " names the game, the text
      after it holds the handfuls. */
  ghost function GameOf(game: string): Option<GameInfo>
  {
    var mainSections := Split(game, ": ");
    match DetermineGameId(mainSections[0])
    case None => None
    case Some(id) =>
      if |mainSections| < 2 then None
      else match ScenariosOf(Split(mainSections[1], "; "))
        case None => None
        case Some(scenarios) => Some(GameInfo(id, scenarios))
  }

  method CompileGameInfo(game: string) returns (info: Option<GameInfo>)
    ensures info == GameOf(game)
  {
    var mainSections := Split(game, ": ");
    var id := DetermineGameId(mainSections[0]);
    if id.None? || |mainSections| < 2 {
      return None;
    }
    var scenarios := DetermineBlockScenariosForGame(mainSections[1]);
    if scenarios.None? {
      return None;
    }
    info := Some(GameInfo(id.value, scenarios.value));
  }

  /** Every game compiled, `None` when one of them fails. */
  ghost function GamesOf(games: seq<string>): (r: Option<seq<GameInfo>>)
    ensures r.Some? ==> |r.value| == |games|
  {
    if games == [] then Some([])
    else
      var n := |games| - 1;
      var infos := GamesOf(games[..n]);
      if infos.None? then None
      else match GameOf(games[n])
        case None => None
        case Some(info) => Some(infos.value + [info])
  }

  lemma {:induction false} GamesOfStep(games: seq<string>)
    requires games != [] && GamesOf(games[..|games| - 1]).None?
    ensures GamesOf(games).None?
  {
  }

  lemma {:induction false} GamesOfPrefix(games: seq<string>, k: nat)
    requires k <= |games| && GamesOf(games[..k]).None?
    ensures GamesOf(games).None?
    decreases |games|
  {
    if k < |games| {
      var front := games[..|games| - 1];
      assert front[..k] == games[..k];
      assert GamesOf(front[..k]).None?;
      GamesOfPrefix(front, k);
      GamesOfStep(games);
    } else {
      assert games[..k] == games;
    }
  }

  /** `compile_info_for_all_games`. */
  method CompileInfoForAllGames(games: seq<string>) returns (infos: Option<seq<GameInfo>>)
    ensures infos == GamesOf(games)
  {
    var found: seq<GameInfo> := [];
    for i := 0 to |games|
      invariant GamesOf(games[..i]) == Some(found)
    {
      var info := CompileGameInfo(games[i]);
      assert games[..i + 1][..i] == games[..i];
      if info.None? {
        GamesOfPrefix(games, i + 1);
        return None;
      }
      found := found + [info.value];
    }
    assert games[..|games|] == games;
    infos := Some(found);
  }

  // ---------------------------------------------------------------------
  // Minimum cubes and power

  function Max(a: int, b: int): int
  {
    if a < b then b else a
  }

  /** Per colour, the largest count over the handfuls, starting from 0. */
  function Maxima(scenarios: seq<Scenario>): Scenario
  {
    if scenarios == [] then Scenario(0, 0, 0)
    else
      var m := Maxima(scenarios[..|scenarios| - 1]);
      var s := scenarios[|scenarios| - 1];
      Scenario(Max(m.red, s.red), Max(m.green, s.green), Max(m.blue, s.blue))
  }

  /** The maxima are the fewest cubes that fit every handful: no handful
      exceeds them, none is negative, and each is 0 or reached by some
      handful. */
  lemma {:induction false} MaximaBound(scenarios: seq<Scenario>, color: Color)
    ensures Get(Maxima(scenarios), color) >= 0
    ensures forall i :: 0 <= i < |scenarios| ==> Get(scenarios[i], color) <= Get(Maxima(scenarios), color)
    ensures Get(Maxima(scenarios), color) == 0 ||
      exists i :: 0 <= i < |scenarios| && Get(scenarios[i], color) == Get(Maxima(scenarios), color)
  {
    if scenarios != [] {
      var n := |scenarios| - 1;
      MaximaBound(scenarios[..n], color);
      assert forall i :: 0 <= i < n ==> scenarios[..n][i] == scenarios[i];
      if Get(Maxima(scenarios), color) != Get(Maxima(scenarios[..n]), color) {
        assert Get(scenarios[n], color) == Get(Maxima(scenarios), color);
      } else if Get(Maxima(scenarios), color) != 0 {
        var i :| 0 <= i < n && Get(scenarios[..n][i], color) == Get(Maxima(scenarios[..n]), color);
        assert Get(scenarios[i], color) == Get(Maxima(scenarios), color);
      }
    }
  }

  /** `determine_minimum_blocks_required_across_all_scenarios`. */
  method DetermineMinimumBlocksRequired(game: GameInfo) returns (minimum: Scenario)
    ensures minimum == Maxima(game.scenarios)
  {
    var maxRed, maxGreen, maxBlue := 0, 0, 0;
    for i := 0 to |game.scenarios|
      invariant Maxima(game.scenarios[..i]) == Scenario(maxRed, maxGreen, maxBlue)
    {
      var scenario := game.scenarios[i];
      assert game.scenarios[..i + 1][..i] == game.scenarios[..i];
      if scenario.red > maxRed {
        maxRed := scenario.red;
      }
      if scenario.green > maxGreen {
        maxGreen := scenario.green;
      }
      if scenario.blue > maxBlue {
        maxBlue := scenario.blue;
      }
    }
    assert game.scenarios[..|game.scenarios|] == game.scenarios;
    minimum := Scenario(maxRed, maxGreen, maxBlue);
  }

  /** The power of a game: the product of its minimum cubes. */
  function Power(game: GameInfo): int
  {
    var m := Maxima(game.scenarios);
    m.red * m.green * m.blue
  }

  /** The product of the counts of the given colours, taken in turn. */
  function ColorProduct(scenario: Scenario, colors: seq<Color>): int
  {
    if colors == [] then 1
    else ColorProduct(scenario, colors[..|colors| - 1]) * Get(scenario, colors[|colors| - 1])
  }

  /** Over all three colours the product is red times green times blue. */
  lemma {:induction false} ColorProductAll(scenario: Scenario)
    ensures ColorProduct(scenario, Colors) == scenario.red * scenario.green * scenario.blue
  {
    assert Colors[..2] == [Red, Green] && Colors[..2][..1] == [Red] && Colors[..1][..0] == [];
    var r, g, b := scenario.red, scenario.green, scenario.blue;
    assert ColorProduct(scenario, [Red]) == r;
    assert ColorProduct(scenario, [Red, Green]) == r * g;
  }

  /** `calculate_power_of_game`: 1 multiplied by each minimum count in
      turn. */
  method CalculatePowerOfGame(game: GameInfo) returns (power: int)
    ensures power == Power(game)
  {
    var counts := DetermineMinimumBlocksRequired(game);
    power := 1;
    for i := 0 to |Colors|
      invariant power == ColorProduct(counts, Colors[..i])
    {
      assert Colors[..i + 1][..i] == Colors[..i];
      power := power * Get(counts, Colors[i]);
    }
    assert Colors[..3] == Colors;
    ColorProductAll(counts);
  }

  /** A power is never negative, and it is 0 exactly when some colour never
      appears with a positive count. */
  lemma {:induction false} PowerSign(game: GameInfo)
    ensures Power(game) >= 0
    ensures Power(game) == 0 <==> exists c :: Get(Maxima(game.scenarios), c) == 0
  {
    var m := Maxima(game.scenarios);
    MaximaBound(game.scenarios, Red);
    MaximaBound(game.scenarios, Green);
    MaximaBound(game.scenarios, Blue);
    ProductSign(m.red, m.green, m.blue);
    if m.red == 0 {
      assert Get(m, Red) == 0;
    } else if m.green == 0 {
      assert Get(m, Green) == 0;
    } else if m.blue == 0 {
      assert Get(m, Blue) == 0;
    }
  }

  lemma {:induction false} ProductSign(a: int, b: int, c: int)
    requires a >= 0 && b >= 0 && c >= 0
    ensures a * b * c >= 0
    ensures a * b * c == 0 <==> a == 0 || b == 0 || c == 0
  {
    if a > 0 && b > 0 && c > 0 {
      assert a * b >= 1;
      assert a * b * c >= 1;
    }
  }

  // ---------------------------------------------------------------------
  // Possible games

  /** True when some handful shows more of some colour than the rules
      allow. */
  predicate AnyExceeded(scenarios: seq<Scenario>, rules: Scenario)
  {
    exists i, c :: 0 <= i < |scenarios| && Get(scenarios[i], c) > Get(rules, c)
  }

  /** `check_if_maximum_exceeded_in_scenario`. */
  predicate CheckIfMaximumExceededInScenario(scenario: Scenario, color: Color, maximum: int)
  {
    Get(scenario, color) > maximum
  }

  /** `check_if_any_maximum_exceeded_in_scenarios`: every handful against
      every colour of the rules. */
  method CheckIfAnyMaximumExceededInScenarios(game: GameInfo, rules: Scenario) returns (exceeded: bool)
    ensures exceeded <==> AnyExceeded(game.scenarios, rules)
  {
    exceeded := false;
    for i := 0 to |game.scenarios|
      invariant exceeded <==> AnyExceeded(game.scenarios[..i], rules)
    {
      var scenario := game.scenarios[i];
      var inThis := false;
      for k := 0 to |Colors|
        invariant inThis <==> exists j :: 0 <= j < k && Get(scenario, Colors[j]) > Get(rules, Colors[j])
      {
        if CheckIfMaximumExceededInScenario(scenario, Colors[k], Get(rules, Colors[k])) {
          inThis := true;
        }
      }
      ExceededStep(game.scenarios, i, rules, inThis);
      exceeded := exceeded || inThis;
    }
    assert game.scenarios[..|game.scenarios|] == game.scenarios;
  }

  lemma {:induction false} ExceededStep(scenarios: seq<Scenario>, i: nat, rules: Scenario, inThis: bool)
    requires i < |scenarios|
    requires inThis <==> exists j :: 0 <= j < 3 && Get(scenarios[i], Colors[j]) > Get(rules, Colors[j])
    ensures AnyExceeded(scenarios[..i + 1], rules) <==> AnyExceeded(scenarios[..i], rules) || inThis
  {
    var t := scenarios[..i + 1];
    assert t[i] == scenarios[i];
    assert forall j :: 0 <= j < i ==> t[j] == scenarios[..i][j];
    if AnyExceeded(t, rules) {
      var j, c :| 0 <= j < |t| && Get(t[j], c) > Get(rules, c);
      if j == i {
        var k := if c == Red then 0 else if c == Green then 1 else 2;
        assert Colors[k] == c;
      }
    }
    if inThis {
      var k :| 0 <= k < 3 && Get(scenarios[i], Colors[k]) > Get(rules, Colors[k]);
      assert Get(t[i], Colors[k]) > Get(rules, Colors[k]);
    }
  }

  /** Under limits that are not negative, a game is possible exactly when
      its minimum cubes fit within them. */
  lemma {:induction false} PossibleIffMaximaFit(game: GameInfo, rules: Scenario)
    requires rules.red >= 0 && rules.green >= 0 && rules.blue >= 0
    ensures !AnyExceeded(game.scenarios, rules) <==>
      forall c :: Get(Maxima(game.scenarios), c) <= Get(rules, c)
  {
    var m := Maxima(game.scenarios);
    MaximaBound(game.scenarios, Red);
    MaximaBound(game.scenarios, Green);
    MaximaBound(game.scenarios, Blue);
    if AnyExceeded(game.scenarios, rules) {
      var i, c :| 0 <= i < |game.scenarios| && Get(game.scenarios[i], c) > Get(rules, c);
      assert Get(m, c) > Get(rules, c);
    } else {
      forall c ensures Get(m, c) <= Get(rules, c) {
        if Get(m, c) != 0 {
          var i :| 0 <= i < |game.scenarios| && Get(game.scenarios[i], c) == Get(m, c);
        }
      }
    }
  }

  /** `get_game_id_if_all_scenarios_possible`. */
  method GetGameIdIfAllScenariosPossible(game: GameInfo, rules: Scenario) returns (gameId: int)
    ensures gameId == (if AnyExceeded(game.scenarios, rules) then 0 else game.id)
  {
    gameId := game.id;
    var exceeded := CheckIfAnyMaximumExceededInScenarios(game, rules);
    if exceeded {
      gameId := 0;
    }
  }

  // ---------------------------------------------------------------------
  // The two sums

  /** The limits the first part checks against: 12 red, 13 green, 14 blue. */
  const Rules: Scenario := Scenario(12, 13, 14)

  /** The ids of the possible games, in order. */
  function PossibleIds(games: seq<GameInfo>, rules: Scenario): seq<int>
  {
    seq(|games|, i requires 0 <= i < |games| =>
      if AnyExceeded(games[i].scenarios, rules) then 0 else games[i].id)
  }

  /** Under 12 red, 13 green and 14 blue, each game contributes its id
      exactly when its minimum cubes fit those limits, and 0 otherwise. */
  lemma {:induction false} PossibleIdsFit(games: seq<GameInfo>)
    ensures |PossibleIds(games, Rules)| == |games|
    ensures forall i :: 0 <= i < |games| ==>
      PossibleIds(games, Rules)[i] ==
        (if forall c :: Get(Maxima(games[i].scenarios), c) <= Get(Rules, c) then games[i].id else 0)
  {
    forall i | 0 <= i < |games|
      ensures PossibleIds(games, Rules)[i] ==
        (if forall c :: Get(Maxima(games[i].scenarios), c) <= Get(Rules, c) then games[i].id else 0)
    {
      PossibleIffMaximaFit(games[i], Rules);
    }
  }

  /** `sum_all_ids_possible_with_rules`. */
  method SumAllIdsPossibleWithRules(games: seq<GameInfo>) returns (idSum: int)
    ensures idSum == Sum(PossibleIds(games, Rules))
  {
    idSum := 0;
    var rules := Rules;
    var ids := PossibleIds(games, rules);
    for i := 0 to |games|
      invariant idSum == Sum(ids[..i])
    {
      var gameId := GetGameIdIfAllScenariosPossible(games[i], rules);
      assert ids[..i + 1][..i] == ids[..i];
      idSum := idSum + gameId;
    }
    assert ids[..|games|] == ids;
  }

  /** The powers of the games, in order. */
  function Powers(games: seq<GameInfo>): seq<int>
  {
    seq(|games|, i requires 0 <= i < |games| => Power(games[i]))
  }

  /** Some colour never appears in any of the game's handfuls. */
  predicate LeavesColorUnshown(game: GameInfo)
  {
    exists c :: Get(Maxima(game.scenarios), c) == 0
  }

  /** The sum of the powers is never negative, and it is 0 exactly when
      every game leaves some colour unshown. */
  lemma {:induction false} PowersSum(games: seq<GameInfo>)
    ensures Sum(Powers(games)) >= 0
    ensures Sum(Powers(games)) == 0 <==> forall i :: 0 <= i < |games| ==> LeavesColorUnshown(games[i])
  {
    var powers := Powers(games);
    forall i | 0 <= i < |games|
      ensures powers[i] >= 0
      ensures powers[i] == 0 <==> LeavesColorUnshown(games[i])
    {
      PowerSign(games[i]);
    }
    SumNonNegative(powers);
  }

  /** `sum_powers_of_all_games`. */
  method SumPowersOfAllGames(games: seq<GameInfo>) returns (powerSum: int)
    ensures powerSum == Sum(Powers(games))
  {
    powerSum := 0;
    var powers := Powers(games);
    for i := 0 to |games|
      invariant powerSum == Sum(powers[..i])
    {
      var gamePower := CalculatePowerOfGame(games[i]);
      assert powers[..i + 1][..i] == powers[..i];
      powerSum := powerSum + gamePower;
    }
    assert powers[..|games|] == powers;
  }

  /** `solution`: the games are the lines of the text (split at "\n"); part
      one sums the ids of the games possible with 12 red, 13 green and 14
      blue cubes, part two sums the powers. */
  method Solution(data: string) returns (result: Option<(int, int)>)
    ensures result.Some? <==> GamesOf(Split(data, "\n")).Some?
    ensures result.Some? ==>
      var games := GamesOf(Split(data, "\n")).value;
      result.value == (Sum(PossibleIds(games, Rules)), Sum(Powers(games)))
  {
    var games := Split(data, "\n");
    var infos := CompileInfoForAllGames(games);
    if infos.None? {
      return None;
    }
    var idSum := SumAllIdsPossibleWithRules(infos.value);
    var powerSum := SumPowersOfAllGames(infos.value);
    result := Some((idSum, powerSum));
  }
}
