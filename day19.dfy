/** Day 19: parts rated in four categories (x, m, a, s) are routed through
    named workflows of rules. Each rule compares one rating with a
    threshold and names a destination; the first rule that holds decides
    where the part goes next. A destination that names no workflow ends the
    route, accepting the part when it is "A". The answer sums the ratings of
    the accepted parts. */
module Day19 {
  import opened Text
  import opened Sums

  // ---------------------------------------------------------------------
  // Python slicing on strings

  /** `s[1:-1]`: empty when there are fewer than two characters. */
  function Inner(s: string): (r: string)
    ensures |s| >= 2 ==> r == s[1..|s| - 1]
    ensures |s| < 2 ==> r == []
  {
    if |s| >= 2 then s[1..|s| - 1] else []
  }

  /** `s[2:]`. */
  function AfterTwo(s: string): (r: string)
    ensures |s| >= 2 ==> r == s[2..]
    ensures |s| < 2 ==> r == []
  {
    if |s| >= 2 then s[2..] else []
  }

  /** `s[:-1]`. */
  function DropLast(s: string): (r: string)
    ensures |s| > 0 ==> r == s[..|s| - 1]
    ensures |s| == 0 ==> r == []
  {
    if |s| > 0 then s[..|s| - 1] else []
  }

  // ---------------------------------------------------------------------
  // Parts

  /** `Part`: the four ratings. */
  datatype Part = Part(x: int, m: int, a: int, s: int)

  /** `Part.__init__`: "{x=..,m=..,a=..,s=..}" with the braces dropped,
      split at ",", and each piece read from its third character on; `None`
      is the IndexError of fewer than four pieces or the ValueError of a
      piece that is not an integer. */
  function ParsePart(ratings: string): Option<Part>
  {
    var categories := Split(Inner(ratings), ",");
    if |categories| < 4 then None
    else match (ParseInt(AfterTwo(categories[0])), ParseInt(AfterTwo(categories[1])),
                ParseInt(AfterTwo(categories[2])), ParseInt(AfterTwo(categories[3])))
      case (Some(x), Some(m), Some(a), Some(s)) => Some(Part(x, m, a, s))
      case _ => None
  }

  /** `Part.sum_ratings`. */
  function Rating(part: Part): int
  {
    part.x + part.m + part.a + part.s
  }

  /** One "c=value" field of a part's line. */
  function Field(c: char, value: int): string
  {
    [c, '='] + IntToString(value)
  }

  /** The line a part is written as. */
  function PartLine(part: Part): string
  {
    "{" + (Field('x', part.x) + "," + (Field('m', part.m) + "," + (Field('a', part.a) + "," + Field('s', part.s)))) + "}"
  }

  lemma {:induction false} NoCommaInNumber(value: int)
    ensures ',' !in IntToString(value) && ':' !in IntToString(value)
  {
    var digits := NatToString(if value < 0 then -value else value);
    assert forall i :: 0 <= i < |digits| ==> IsDigit(digits[i]);
  }

  /** Reading a part's line gives back its four ratings, in the order x, m, a, s. */
  lemma {:induction false} ParsePartLine(part: Part)
    ensures ParsePart(PartLine(part)) == Some(part)
  {
    var fx, fm, fa, fs := Field('x', part.x), Field('m', part.m), Field('a', part.a), Field('s', part.s);
    var inner := fx + "," + (fm + "," + (fa + "," + fs));
    assert Inner(PartLine(part)) == inner;
    SplitFields(part);
    FieldValue('x', part.x);
    FieldValue('m', part.m);
    FieldValue('a', part.a);
    FieldValue('s', part.s);
  }

  lemma {:induction false} SplitFields(part: Part)
    ensures
      var fx, fm, fa, fs := Field('x', part.x), Field('m', part.m), Field('a', part.a), Field('s', part.s);
      Split(fx + "," + (fm + "," + (fa + "," + fs)), ",") == [fx, fm, fa, fs]
  {
    NoCommaInField('x', part.x);
    NoCommaInField('m', part.m);
    NoCommaInField('a', part.a);
    NoCommaInField('s', part.s);
    SplitFour(Field('x', part.x), Field('m', part.m), Field('a', part.a), Field('s', part.s));
  }

  /** Comma-free fields joined by commas split back into the fields. */
  lemma {:induction false} SplitTwo(c: string, d: string)
    requires ',' !in c && ',' !in d
    ensures Split(c + "," + d, ",") == [c, d]
  {
    SplitAbsent(d, ",", 0);
    SplitFirst(c, ",", d);
  }

  lemma {:induction false} SplitThree(b: string, c: string, d: string)
    requires ',' !in b && ',' !in c && ',' !in d
    ensures Split(b + "," + (c + "," + d), ",") == [b, c, d]
  {
    SplitTwo(c, d);
    SplitFirst(b, ",", c + "," + d);
  }

  lemma {:induction false} SplitFour(a: string, b: string, c: string, d: string)
    requires ',' !in a && ',' !in b && ',' !in c && ',' !in d
    ensures Split(a + "," + (b + "," + (c + "," + d)), ",") == [a, b, c, d]
  {
    SplitThree(b, c, d);
    SplitFirst(a, ",", b + "," + (c + "," + d));
  }

  lemma {:induction false} NoCommaInField(c: char, value: int)
    requires c != ','
    ensures ',' !in Field(c, value)
  {
    NoCommaInNumber(value);
  }

  lemma {:induction false} FieldValue(c: char, value: int)
    ensures ParseInt(AfterTwo(Field(c, value))) == Some(value)
  {
    assert AfterTwo(Field(c, value)) == IntToString(value);
    ParseIntRoundTrip(value);
  }

  // ---------------------------------------------------------------------
  // Rules and workflows

  /** What a rule's expression tests: "True", or one rating against a threshold. */
  datatype Condition = Always | Less(threshold: int) | Greater(threshold: int)

  /** `Rule`: the category is the expression's first character ('T' for "True"). */
  datatype Rule = Rule(category: char, condition: Condition, destination: string)

  /** `Workflow`. */
  datatype Workflow = Workflow(name: string, rules: seq<Rule>)

  predicate IsCategory(c: char)
  {
    c == 'x' || c == 'm' || c == 'a' || c == 's'
  }

  /** The expression of a rule: "True", or a category, '<' or '>', and an
      integer. `None` is any other text. */
  function ParseCondition(expression: string): (r: Option<(char, Condition)>)
    ensures r.Some? ==> |expression| > 0 && r.value.0 == expression[0]
    ensures r.Some? && r.value.1.Always? <==> expression == "True"
  {
    if expression == "True" then Some(('T', Always))
    else if |expression| >= 3 && IsCategory(expression[0]) && (expression[1] == '<' || expression[1] == '>') then
      match ParseInt(expression[2..])
        case None => None
        case Some(t) => Some((expression[0], if expression[1] == '<' then Less(t) else Greater(t)))
    else None
  }

  /** `Rule.__init__`: the text before the first ':' is the expression and
      the text after it, up to any next ':', the destination; `None` is the
      IndexError of a missing ':' or of an empty expression, or an
      expression outside the model. */
  function ParseRule(description: string): (r: Option<Rule>)
    ensures r.Some? ==> (
      && |Split(description, ":")| >= 2 && |Split(description, ":")[0]| > 0
      && r.value.category == Split(description, ":")[0][0]
      && r.value.destination == Split(description, ":")[1])
  {
    var elements := Split(description, ":");
    if |elements| < 2 then None
    else match ParseCondition(elements[0])
      case None => None
      case Some(parsed) => Some(Rule(parsed.0, parsed.1, elements[1]))
  }

  /** A rule as a parsed rule can be: "True" goes with 'T', a comparison
      with a category, and the destination holds no ':'. */
  predicate Canonical(rule: Rule)
  {
    && (rule.condition.Always? <==> rule.category == 'T')
    && (!rule.condition.Always? ==> IsCategory(rule.category))
    && ':' !in rule.destination
  }

  function ConditionText(category: char, condition: Condition): string
  {
    match condition
      case Always => "True"
      case Less(t) => [category, '<'] + IntToString(t)
      case Greater(t) => [category, '>'] + IntToString(t)
  }

  /** The text a rule is written as. */
  function RuleText(rule: Rule): string
  {
    ConditionText(rule.category, rule.condition) + ":" + rule.destination
  }

  /** Reading a rule's text gives the rule back. */
  lemma {:induction false} ParseRuleText(rule: Rule)
    requires Canonical(rule)
    ensures ParseRule(RuleText(rule)) == Some(rule)
  {
    var expression := ConditionText(rule.category, rule.condition);
    ParseConditionText(rule.category, rule.condition);
    SplitFirst(expression, ":", rule.destination);
    SplitAbsent(rule.destination, ":", 0);
    assert Split(RuleText(rule), ":") == [expression, rule.destination];
  }

  lemma {:induction false} ParseConditionText(category: char, condition: Condition)
    requires condition.Always? <==> category == 'T'
    requires !condition.Always? ==> IsCategory(category)
    ensures ParseCondition(ConditionText(category, condition)) == Some((category, condition))
    ensures ':' !in ConditionText(category, condition)
  {
    var expression := ConditionText(category, condition);
    match condition {
      case Always =>
      case Less(t) =>
        NoCommaInNumber(t);
        assert expression[2..] == IntToString(t);
        ParseIntRoundTrip(t);
      case Greater(t) =>
        NoCommaInNumber(t);
        assert expression[2..] == IntToString(t);
        ParseIntRoundTrip(t);
    }
  }

  /** The rule `create_rules` appends last always parses, to "True" with
      category 'T' and the destination up to any ':'. */
  lemma {:induction false} FallbackRule(destination: string)
    ensures ParseRule("True:" + destination) == Some(Rule('T', Always, Split(destination, ":")[0]))
  {
    assert "True:" + destination == "True" + ":" + destination;
    SplitFirst("True", ":", destination);
    var elements := Split("True:" + destination, ":");
    assert elements[0] == "True" && elements[1] == Split(destination, ":")[0];
    assert ParseCondition("True") == Some(('T', Always));
  }

  /** The rules of the stages before the last, each parsed in turn. */
  function ParseEach(stages: seq<string>): (r: Option<seq<Rule>>)
    ensures r.Some? ==> |r.value| == |stages|
    ensures r.Some? <==> forall i :: 0 <= i < |stages| ==> ParseRule(stages[i]).Some?
    ensures r.Some? ==> forall i :: 0 <= i < |stages| ==> r.value[i] == ParseRule(stages[i]).value
  {
    if stages == [] then Some([])
    else match (ParseEach(stages[..|stages| - 1]), ParseRule(stages[|stages| - 1]))
      case (Some(rs), Some(rule)) => Some(rs + [rule])
      case _ => None
  }

  /** What `create_rules` gives for the stages of a workflow. */
  function ParseRules(stages: seq<string>): Option<seq<Rule>>
    requires |stages| > 0
  {
    match ParseEach(stages[..|stages| - 1])
      case None => None
      case Some(rs) => Some(rs + [Rule('T', Always, Split(stages[|stages| - 1], ":")[0])])
  }

  /** A workflow some rule of which always holds: its last rule is "True". */
  predicate WellFormed(workflow: Workflow)
  {
    |workflow.rules| > 0 && workflow.rules[|workflow.rules| - 1].condition.Always?
  }

  /** `Workflow.__init__`: the name before the first '{', and the rules of
      the text after it with its last character dropped. */
  function ParseWorkflow(description: string): (r: Option<Workflow>)
    ensures r.Some? ==> |Split(description, "{")| >= 2 && r.value.name == Split(description, "{")[0]
    ensures r.Some? ==> WellFormed(r.value)
    ensures r.Some? ==> |r.value.rules| == |Split(DropLast(Split(description, "{")[1]), ",")|
  {
    var elements := Split(description, "{");
    if |elements| < 2 then None
    else match ParseRules(Split(DropLast(elements[1]), ","))
      case None => None
      case Some(rules) => Some(Workflow(elements[0], rules))
  }

  /** `Workflow.create_rules`: every stage but the last is a rule of its
      own, and the last is the destination of a rule that always holds. */
  method CreateRules(description: string) returns (rules: Option<seq<Rule>>)
    ensures rules == ParseRules(Split(description, ","))
  {
    var stages := Split(description, ",");
    var found: seq<Rule> := [];
    for index := 0 to |stages| - 1
      invariant ParseEach(stages[..index]) == Some(found)
    {
      assert stages[..index + 1][..index] == stages[..index];
      var rule := ParseRule(stages[index]);
      if rule.None? {
        assert !ParseEach(stages[..|stages| - 1]).Some? by {
          assert stages[..|stages| - 1][index] == stages[index];
        }
        return None;
      }
      found := found + [rule.value];
    }
    FallbackRule(stages[|stages| - 1]);
    var last := ParseRule("True:" + stages[|stages| - 1]);
    return Some(found + [last.value]);
  }

  /** `Workflow.__init__` run on one line. */
  method NewWorkflow(description: string) returns (workflow: Option<Workflow>)
    ensures workflow == ParseWorkflow(description)
  {
    var elements := Split(description, "{");
    if |elements| < 2 {
      return None;
    }
    var rules := CreateRules(DropLast(elements[1]));
    if rules.None? {
      return None;
    }
    return Some(Workflow(elements[0], rules.value));
  }

  /** A rule's destination never holds ':'. */
  lemma {:induction false} ParseRuleCanonical(description: string)
    requires ParseRule(description).Some?
    ensures Canonical(ParseRule(description).value)
  {
    SplitPiecesFree(description, ':');
  }

  /** Every rule of a parsed workflow is canonical. */
  lemma {:induction false} ParseWorkflowCanonical(description: string)
    requires ParseWorkflow(description).Some?
    ensures ValidWorkflow(ParseWorkflow(description).value)
  {
    var elements := Split(description, "{");
    var stages := Split(DropLast(elements[1]), ",");
    var rules := ParseWorkflow(description).value.rules;
    var front := ParseEach(stages[..|stages| - 1]).value;
    forall i | 0 <= i < |rules| ensures Canonical(rules[i]) {
      if i < |rules| - 1 {
        assert stages[..|stages| - 1][i] == stages[i];
        ParseRuleCanonical(stages[i]);
      } else {
        SplitPiecesFree(stages[|stages| - 1], ':');
      }
    }
  }

  // ---------------------------------------------------------------------
  // Routing a part

  /** A workflow as parsing builds it: some rule always holds, and every
      rule is canonical. */
  predicate ValidWorkflow(workflow: Workflow)
  {
    WellFormed(workflow) && forall i :: 0 <= i < |workflow.rules| ==> Canonical(workflow.rules[i])
  }

  /** The system of workflows, keyed by name. */
  predicate ValidSystem(system: map<string, Workflow>)
  {
    forall name :: name in system ==> ValidWorkflow(system[name]) && system[name].name == name
  }

  /** `getattr(part, category)`. */
  function Value(part: Part, category: char): int
    requires IsCategory(category)
  {
    if category == 'x' then part.x
    else if category == 'm' then part.m
    else if category == 'a' then part.a
    else part.s
  }

  /** `rule.evaluation(value)`. */
  predicate Evaluate(condition: Condition, value: int)
  {
    match condition
      case Always => true
      case Less(t) => value < t
      case Greater(t) => value > t
  }

  /** A rule holds of a part: its condition holds of the part's rating in
      the rule's category, or of 0 for "True". */
  predicate Holds(rule: Rule, part: Part)
    requires Canonical(rule)
  {
    Evaluate(rule.condition, if rule.category != 'T' then Value(part, rule.category) else 0)
  }

  /** The first rule at or after `i` that holds of the part. */
  function Decide(workflow: Workflow, part: Part, i: nat): (r: nat)
    requires ValidWorkflow(workflow) && i < |workflow.rules|
    ensures i <= r < |workflow.rules| && Holds(workflow.rules[r], part)
    ensures forall j :: i <= j < r ==> !Holds(workflow.rules[j], part)
    decreases |workflow.rules| - i
  {
    if Holds(workflow.rules[i], part) then i else Decide(workflow, part, i + 1)
  }

  /** The destination a workflow sends a part to. */
  function Destination(workflow: Workflow, part: Part): string
    requires ValidWorkflow(workflow)
  {
    workflow.rules[Decide(workflow, part, 0)].destination
  }

  /** Where the part ends when it enters `current` with `fuel` workflows
      left to visit: `Some(accepted)` once a destination names no
      workflow, `None` if the fuel runs out first. */
  function Route(system: map<string, Workflow>, current: Workflow, part: Part, fuel: nat): Option<bool>
    requires ValidSystem(system) && ValidWorkflow(current)
    decreases fuel
  {
    if fuel == 0 then None
    else
      var destination := Destination(current, part);
      if destination in system then Route(system, system[destination], part, fuel - 1)
      else Some(destination == "A")
  }

  /** A route that ends within some fuel ends the same way with more. */
  lemma {:induction false} RouteMoreFuel(system: map<string, Workflow>, current: Workflow, part: Part, fuel: nat, more: nat)
    requires ValidSystem(system) && ValidWorkflow(current)
    requires fuel <= more && Route(system, current, part, fuel).Some?
    ensures Route(system, current, part, more) == Route(system, current, part, fuel)
    decreases fuel
  {
    var destination := Destination(current, part);
    if destination in system {
      RouteMoreFuel(system, system[destination], part, fuel - 1, more - 1);
    }
  }

  /** A route ends accepted exactly when the last destination it reaches
      is "A": following one step and ending there agree. */
  lemma {:induction false} RouteStep(system: map<string, Workflow>, current: Workflow, part: Part, fuel: nat)
    requires ValidSystem(system) && ValidWorkflow(current) && fuel > 0
    requires Destination(current, part) !in system
    ensures Route(system, current, part, fuel) == Some(Destination(current, part) == "A")
  {
  }

  /** How processing ends: with a value, with the KeyError of a system
      without an "in" workflow, or unfinished within the fuel. */
  datatype Outcome<T> = Done(value: T) | KeyError | OutOfFuel

  /** `process_part` as a function of the puzzle. */
  function Processed(system: map<string, Workflow>, part: Part, fuel: nat): Outcome<bool>
    requires ValidSystem(system)
  {
    if "in" !in system then KeyError
    else match Route(system, system["in"], part, fuel)
      case None => OutOfFuel
      case Some(accepted) => Done(accepted)
  }

  /** The index of the first rule of `workflow` that holds, found the way
      `process_part`'s inner loop steps through the rules. */
  method FirstHoldingRule(workflow: Workflow, part: Part) returns (ruleIndex: nat)
    requires ValidWorkflow(workflow)
    ensures ruleIndex == Decide(workflow, part, 0)
  {
    ruleIndex := 0;
    while true
      invariant ruleIndex <= Decide(workflow, part, 0)
      decreases |workflow.rules| - ruleIndex
    {
      var rule := workflow.rules[ruleIndex];
      var value := if rule.category != 'T' then Value(part, rule.category) else 0;
      if Evaluate(rule.condition, value) {
        return;
      }
      ruleIndex := ruleIndex + 1;
    }
  }

  /** `Puzzle.process_part`, visiting at most `fuel` workflows: starts at
      "in", follows the first rule that holds, continues while the
      destination names a workflow, and accepts iff the last destination
      is "A". */
  method ProcessPart(system: map<string, Workflow>, part: Part, fuel: nat) returns (outcome: Outcome<bool>)
    requires ValidSystem(system)
    ensures outcome == Processed(system, part, fuel)
  {
    if "in" !in system {
      return KeyError;
    }
    var current := system["in"];
    var remaining := fuel;
    while true
      invariant ValidWorkflow(current)
      invariant Route(system, current, part, remaining) == Route(system, system["in"], part, fuel)
      decreases remaining
    {
      if remaining == 0 {
        return OutOfFuel;
      }
      var ruleIndex := FirstHoldingRule(current, part);
      var destination := current.rules[ruleIndex].destination;
      if destination in system {
        current := system[destination];
        remaining := remaining - 1;
      } else {
        return Done(destination == "A");
      }
    }
  }

  // ---------------------------------------------------------------------
  // The puzzle

  /** `Puzzle`: the workflows by name and the pile of parts. */
  datatype Puzzle = Puzzle(system: map<string, Workflow>, pile: seq<Part>)

  /** `create_system` once every line is parsed: each workflow stored
      under its name, a later one replacing an earlier one of the same name. */
  function SystemOf(workflows: seq<Workflow>): (r: map<string, Workflow>)
    requires forall i :: 0 <= i < |workflows| ==> ValidWorkflow(workflows[i])
    ensures ValidSystem(r)
    ensures forall i :: 0 <= i < |workflows| ==> workflows[i].name in r
  {
    if workflows == [] then map[]
    else
      var last := workflows[|workflows| - 1];
      SystemOf(workflows[..|workflows| - 1])[last.name := last]
  }

  /** No workflow after the `i`-th is called `name`. */
  predicate NoLaterName(workflows: seq<Workflow>, name: string, i: nat)
  {
    forall j :: i < j < |workflows| ==> workflows[j].name != name
  }

  /** Each workflow of the system is the last one of its name: a later line
      replaces an earlier one. */
  lemma {:induction false} SystemOfLastWins(workflows: seq<Workflow>, name: string)
    requires forall i :: 0 <= i < |workflows| ==> ValidWorkflow(workflows[i])
    requires name in SystemOf(workflows)
    ensures exists i :: 0 <= i < |workflows| && workflows[i] == SystemOf(workflows)[name] && NoLaterName(workflows, name, i)
  {
    var front := workflows[..|workflows| - 1];
    var last := |workflows| - 1;
    if name == workflows[last].name {
      assert NoLaterName(workflows, name, last);
    } else {
      SystemOfLastWins(front, name);
      var i :| 0 <= i < |front| && front[i] == SystemOf(front)[name] && NoLaterName(front, name, i);
      assert NoLaterName(workflows, name, i) by {
        forall j | i < j < |workflows| ensures workflows[j].name != name {
          if j < last {
            assert front[j] == workflows[j];
          }
        }
      }
    }
  }

  /** The workflows of the lines, parsed one by one. */
  function Workflows(lines: seq<string>): (r: Option<seq<Workflow>>)
    ensures r.Some? ==> forall i :: 0 <= i < |r.value| ==> ValidWorkflow(r.value[i])
  {
    var parsed := ParseLines(ParseWorkflow, lines);
    if parsed.Some? then
      forall i | 0 <= i < |parsed.value| ensures ValidWorkflow(parsed.value[i]) {
        ParseWorkflowCanonical(lines[i]);
      }
      parsed
    else None
  }

  /** `Puzzle.create_system`. */
  method CreateSystem(lines: seq<string>) returns (system: Option<map<string, Workflow>>)
    ensures system.None? <==> Workflows(lines).None?
    ensures system.Some? ==> system.value == SystemOf(Workflows(lines).value)
  {
    var workflows: map<string, Workflow> := map[];
    ghost var parsed: seq<Workflow> := [];
    for index := 0 to |lines|
      invariant ParseLines(ParseWorkflow, lines[..index]) == Some(parsed)
      invariant forall i :: 0 <= i < |parsed| ==> ValidWorkflow(parsed[i])
      invariant workflows == SystemOf(parsed)
    {
      var ok;
      ok, parsed, workflows := AddWorkflow(lines, index, parsed, workflows);
      if !ok {
        return None;
      }
    }
    assert lines[..|lines|] == lines;
    return Some(workflows);
  }

  /** Filing one more valid workflow updates the system under its name. */
  lemma {:induction false} SystemOfSnoc(workflows: seq<Workflow>, w: Workflow)
    requires forall i :: 0 <= i < |workflows| ==> ValidWorkflow(workflows[i])
    requires ValidWorkflow(w)
    ensures forall i :: 0 <= i < |workflows + [w]| ==> ValidWorkflow((workflows + [w])[i])
    ensures SystemOf(workflows + [w]) == SystemOf(workflows)[w.name := w]
  {
    var extended := workflows + [w];
    assert extended[..|workflows|] == workflows && extended[|workflows|] == w;
  }

  /** One round of `Puzzle.create_system`: parse the next line and file its
      workflow under its name; fails when the line does not parse. */
  method AddWorkflow(lines: seq<string>, index: nat, ghost parsed: seq<Workflow>, workflows: map<string, Workflow>)
    returns (ok: bool, ghost extended: seq<Workflow>, system: map<string, Workflow>)
    requires index < |lines| && ParseLines(ParseWorkflow, lines[..index]) == Some(parsed)
    requires forall i :: 0 <= i < |parsed| ==> ValidWorkflow(parsed[i])
    requires workflows == SystemOf(parsed)
    ensures !ok ==> ParseLines(ParseWorkflow, lines).None?
    ensures ok ==> ParseLines(ParseWorkflow, lines[..index + 1]) == Some(extended)
    ensures ok ==> (forall i :: 0 <= i < |extended| ==> ValidWorkflow(extended[i])) && system == SystemOf(extended)
  {
    var workflow := NewWorkflow(lines[index]);
    ParseLinesSnoc(ParseWorkflow, lines, index);
    if workflow.None? {
      ParseLinesPrefix(ParseWorkflow, lines, index + 1);
      return false, parsed, workflows;
    }
    ParseWorkflowCanonical(lines[index]);
    extended := parsed + [workflow.value];
    SystemOfSnoc(parsed, workflow.value);
    system := workflows[workflow.value.name := workflow.value];
    ok := true;
  }

  /** `Puzzle.create_pile`: one part per line, in order. */
  function PileOf(lines: seq<string>): Option<seq<Part>>
  {
    ParseLines(ParsePart, lines)
  }

  /** `Puzzle.__init__` over the workflow lines and the part lines. */
  function PuzzleOf(workflowLines: seq<string>, partLines: seq<string>): (r: Option<Puzzle>)
    ensures r.Some? ==> ValidSystem(r.value.system) && |r.value.pile| == |partLines|
  {
    match (Workflows(workflowLines), PileOf(partLines))
      case (Some(workflows), Some(pile)) => Some(Puzzle(SystemOf(workflows), pile))
      case _ => None
  }

  /** The parts of `pile` that processing accepts, in pile order; the
      first part that fails decides the failure. */
  function AcceptedOf(system: map<string, Workflow>, pile: seq<Part>, fuel: nat): Outcome<seq<Part>>
    requires ValidSystem(system)
  {
    if pile == [] then Done([])
    else match (AcceptedOf(system, pile[..|pile| - 1], fuel), Processed(system, pile[|pile| - 1], fuel))
      case (Done(parts), Done(accepted)) => Done(if accepted then parts + [pile[|pile| - 1]] else parts)
      case (Done(_), KeyError) => KeyError
      case (Done(_), OutOfFuel) => OutOfFuel
      case (failure, _) => failure
  }

  /** The accepted parts are exactly the parts of the pile that processing
      accepts: each accepted part is in the pile and is accepted, and every
      part of the pile is processed to an end. */
  lemma {:induction false} AcceptedOfMeaning(system: map<string, Workflow>, pile: seq<Part>, fuel: nat)
    requires ValidSystem(system) && AcceptedOf(system, pile, fuel).Done?
    ensures forall i :: 0 <= i < |pile| ==> Processed(system, pile[i], fuel).Done?
    ensures forall p :: p in AcceptedOf(system, pile, fuel).value ==> p in pile && Processed(system, p, fuel) == Done(true)
    ensures forall p :: p in pile && Processed(system, p, fuel) == Done(true) ==> p in AcceptedOf(system, pile, fuel).value
  {
    if pile != [] {
      var front := pile[..|pile| - 1];
      AcceptedOfMeaning(system, front, fuel);
      assert forall i :: 0 <= i < |front| ==> front[i] == pile[i];
      assert pile == front + [pile[|pile| - 1]];
    }
  }

  /** `Puzzle.find_all_accepted_parts`. */
  method FindAllAcceptedParts(puzzle: Puzzle, fuel: nat) returns (outcome: Outcome<seq<Part>>)
    requires ValidSystem(puzzle.system)
    ensures outcome == AcceptedOf(puzzle.system, puzzle.pile, fuel)
  {
    var acceptedParts: seq<Part> := [];
    for index := 0 to |puzzle.pile|
      invariant AcceptedOf(puzzle.system, puzzle.pile[..index], fuel) == Done(acceptedParts)
    {
      var part := puzzle.pile[index];
      assert puzzle.pile[..index + 1][..index] == puzzle.pile[..index];
      var accepted := ProcessPart(puzzle.system, part, fuel);
      if !accepted.Done? {
        AcceptedFails(puzzle.system, puzzle.pile, fuel, index + 1);
        return if accepted.KeyError? then KeyError else OutOfFuel;
      }
      if accepted.value {
        acceptedParts := acceptedParts + [part];
      }
    }
    assert puzzle.pile[..|puzzle.pile|] == puzzle.pile;
    return Done(acceptedParts);
  }

  /** A failure among the first parts is the failure of the whole pile. */
  lemma {:induction false} AcceptedFails(system: map<string, Workflow>, pile: seq<Part>, fuel: nat, n: nat)
    requires ValidSystem(system) && n <= |pile| && !AcceptedOf(system, pile[..n], fuel).Done?
    ensures AcceptedOf(system, pile, fuel) == AcceptedOf(system, pile[..n], fuel)
    decreases |pile| - n
  {
    if n < |pile| {
      assert pile[..n + 1][..n] == pile[..n];
      AcceptedFails(system, pile, fuel, n + 1);
    } else {
      assert pile[..n] == pile;
    }
  }

  function Ratings(parts: seq<Part>): (r: seq<int>)
    ensures |r| == |parts|
    ensures forall i :: 0 <= i < |parts| ==> r[i] == Rating(parts[i])
  {
    seq(|parts|, i requires 0 <= i < |parts| => Rating(parts[i]))
  }

  /** The sum over the whole pile of each accepted part's rating, and 0
      for every other part. */
  function AcceptedRatingSum(system: map<string, Workflow>, pile: seq<Part>, fuel: nat): int
    requires ValidSystem(system)
  {
    if pile == [] then 0
    else
      var last := pile[|pile| - 1];
      AcceptedRatingSum(system, pile[..|pile| - 1], fuel) + (if Processed(system, last, fuel) == Done(true) then Rating(last) else 0)
  }

  /** Summing the accepted parts' ratings is summing, over the pile, the
      ratings of the parts processing accepts. */
  lemma {:induction false} AcceptedSum(system: map<string, Workflow>, pile: seq<Part>, fuel: nat)
    requires ValidSystem(system) && AcceptedOf(system, pile, fuel).Done?
    ensures Sum(Ratings(AcceptedOf(system, pile, fuel).value)) == AcceptedRatingSum(system, pile, fuel)
  {
    if pile != [] {
      var front := pile[..|pile| - 1];
      var last := pile[|pile| - 1];
      AcceptedSum(system, front, fuel);
      var parts := AcceptedOf(system, front, fuel).value;
      if Processed(system, last, fuel) == Done(true) {
        assert Ratings(parts + [last]) == Ratings(parts) + [Rating(last)];
        SumAppend(Ratings(parts), [Rating(last)]);
      }
    }
  }

  /** `Puzzle.sum_all_accepted_ratings`. */
  method SumAllAcceptedRatings(puzzle: Puzzle, fuel: nat) returns (outcome: Outcome<int>)
    requires ValidSystem(puzzle.system)
    ensures outcome.Done? <==> AcceptedOf(puzzle.system, puzzle.pile, fuel).Done?
    ensures outcome.Done? ==> outcome.value == AcceptedRatingSum(puzzle.system, puzzle.pile, fuel)
  {
    var acceptedParts := FindAllAcceptedParts(puzzle, fuel);
    if !acceptedParts.Done? {
      return if acceptedParts.KeyError? then KeyError else OutOfFuel;
    }
    var parts := acceptedParts.value;
    var total := 0;
    for index := 0 to |parts|
      invariant total == Sum(Ratings(parts[..index]))
    {
      assert Ratings(parts[..index + 1]) == Ratings(parts[..index]) + [Rating(parts[index])];
      SumAppend(Ratings(parts[..index]), [Rating(parts[index])]);
      total := total + Rating(parts[index]);
    }
    assert parts[..|parts|] == parts;
    AcceptedSum(puzzle.system, puzzle.pile, fuel);
    return Done(total);
  }
}
