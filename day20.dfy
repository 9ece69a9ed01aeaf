/** Day 20: pulse propagation. Modules pass low (-1) and high (1) pulses
    through a FIFO queue: a flip-flop multiplies its status by the incoming
    pulse and forwards only after a low pulse, a conjunction remembers the
    last pulse from each input and sends low exactly when all of them are
    high, the button and broadcaster send low, and any other module sends 0.
    Module objects live in one dictionary keyed by name that never changes
    after construction, so the queue holds names and the mutable module state
    is a map of values the methods reassign. */
module Day20 {
  import opened Text
  import opened Sums

  datatype Kind =
    | Plain
    | Button
    | Broadcaster
    | FlipFlop(status: int)
    | Conjunction(inputs: map<string, int>)

  datatype Module = Module(name: string, destinations: seq<string>, kind: Kind)

  /** A queued pulse: its destination, its level and the sending module. */
  datatype Pulse = Pulse(target: string, level: int, source: string)

  /** Everything a push can change: the modules, the pulse tracker and
      `rx_hit`. */
  datatype State = State(modules: map<string, Module>, pulses: map<int, int>, rxHit: bool)

  const ButtonModule := Module("button", ["broadcaster"], Button)

  // ---------------------------------------------------------------------
  // Parsing: `create_modules`
  // ---------------------------------------------------------------------

  /** The text a module is declared under: its name behind its prefix. */
  function Label(m: Module): string
  {
    match m.kind
    case FlipFlop(_) => "%" + m.name
    case Conjunction(_) => "&" + m.name
    case _ => m.name
  }

  /** One description `name -> a, b, c`. `None` where the source raises
      IndexError: no ` -> ` in the line, or an empty name. */
  function ParseModule(description: string): (r: Option<Module>)
    ensures r.Some? ==> !r.value.kind.Button?
    ensures r.Some? && r.value.kind.FlipFlop? ==> r.value.kind.status == -1
    ensures r.Some? && r.value.kind.Conjunction? ==> r.value.kind.inputs == map[]
  {
    var elements := Split(description, " -> ");
    if |elements| < 2 then None
    else
      var name := elements[0];
      var destinations := Split(elements[1], ", ");
      if name == "broadcaster" then Some(Module(name, destinations, Broadcaster))
      else if |name| == 0 then None
      else if name[0] == '%' then
        Some(Module(name[1..], destinations, FlipFlop(-1)))
      else if name[0] == '&' then
        Some(Module(name[1..], destinations, Conjunction(map[])))
      else Some(Module(name, destinations, Plain))
  }

  /** A line parses iff it has a ` -> ` and a non-empty name; the module's
      label is the text before the arrow, its destinations the `, `-pieces
      after it, and the label's prefix decides the kind. */
  lemma {:induction false} ParseModuleMeaning(description: string)
    ensures ParseModule(description).Some? <==>
      |Split(description, " -> ")| >= 2 && Split(description, " -> ")[0] != ""
    ensures ParseModule(description).Some? ==>
      var m := ParseModule(description).value;
      && Label(m) == Split(description, " -> ")[0]
      && m.destinations == Split(Split(description, " -> ")[1], ", ")
      && (m.kind.Broadcaster? <==> Label(m) == "broadcaster")
      && (m.kind.FlipFlop? <==> Label(m) != "broadcaster" && Label(m)[0] == '%')
      && (m.kind.Conjunction? <==> Label(m) != "broadcaster" && Label(m)[0] == '&')
  {
    var elements := Split(description, " -> ");
    if |elements| >= 2 && elements[0] != "" {
      var name := elements[0];
      if name != "broadcaster" && name[0] == '%' {
        assert "%" + name[1..] == name;
      } else if name != "broadcaster" && name[0] == '&' {
        assert "&" + name[1..] == name;
      }
    }
  }

  /** A parsed line reads back as its label, ` -> `, its destinations joined
      by `, `, and whatever followed a second ` -> `. */
  lemma {:induction false} ParseModuleText(description: string, m: Module)
    requires ParseModule(description) == Some(m)
    ensures exists rest :: description == Label(m) + " -> " + Join(m.destinations, ", ") + rest
  {
    var elements := Split(description, " -> ");
    ParseModuleMeaning(description);
    var head, tail := elements[0], elements[1..];
    assert Label(m) == head;
    assert Join(m.destinations, ", ") == elements[1] by {
      SplitJoin(elements[1], ", ");
    }
    assert description == head + " -> " + Join(tail, " -> ") by {
      SplitJoin(description, " -> ");
      assert elements == [head] + tail;
      JoinCons(head, tail, " -> ");
    }
    var rest := if |tail| == 1 then "" else " -> " + Join(tail[1..], " -> ");
    assert Join(tail, " -> ") == tail[0] + rest by {
      if |tail| > 1 {
        assert tail == [tail[0]] + tail[1..];
        JoinCons(tail[0], tail[1..], " -> ");
      }
    }
    assert description == Label(m) + " -> " + Join(m.destinations, ", ") + rest;
  }

  /** Every description parsed, in order; `None` as soon as one fails. */
  function ParseModules(descriptions: seq<string>): (r: Option<seq<Module>>)
    ensures r.Some? ==> |r.value| == |descriptions|
    ensures r.Some? ==> forall k :: 0 <= k < |descriptions| ==> ParseModule(descriptions[k]) == Some(r.value[k])
  {
    if descriptions == [] then Some([])
    else
      var prefix := ParseModules(descriptions[..|descriptions| - 1]);
      if prefix.None? then None
      else match ParseModule(descriptions[|descriptions| - 1])
        case None => None
        case Some(m) => Some(prefix.value + [m])
  }

  /** The dictionary the loop of `create_modules` fills: each module stored
      under its name, later modules replacing earlier ones. */
  function Declare(mods: seq<Module>): map<string, Module>
  {
    if mods == [] then map[]
    else Declare(mods[..|mods| - 1])[mods[|mods| - 1].name := mods[|mods| - 1]]
  }

  /** `create_modules`: the declared modules plus the button, which always
      targets the broadcaster. */
  function ModulesOf(descriptions: seq<string>): Option<map<string, Module>>
  {
    match ParseModules(descriptions)
    case None => None
    case Some(mods) => Some(Declare(mods)["button" := ButtonModule])
  }

  /** Every key names its own module. */
  ghost predicate Named(ms: map<string, Module>)
  {
    forall k :: k in ms ==> ms[k].name == k
  }

  /** A flip-flop's status and a conjunction's memory hold -1, 0 or 1. */
  ghost predicate ModuleOk(m: Module)
  {
    match m.kind
    case FlipFlop(status) => -1 <= status <= 1
    case Conjunction(inputs) => forall n :: n in inputs ==> -1 <= inputs[n] <= 1
    case _ => true
  }

  /** The modules as `create_modules` leaves them. */
  ghost predicate Initial(ms: map<string, Module>)
  {
    && "button" in ms && ms["button"] == ButtonModule
    && Named(ms)
    && (forall k :: k in ms && ms[k].kind.FlipFlop? ==> ms[k].kind.status == -1)
    && (forall k :: k in ms && ms[k].kind.Conjunction? ==> ms[k].kind.inputs == map[])
  }

  /** Parsing fails exactly when some line fails. */
  lemma {:induction false} ParseModulesFails(descriptions: seq<string>)
    ensures ParseModules(descriptions).None? <==>
      exists k :: 0 <= k < |descriptions| && ParseModule(descriptions[k]).None?
    decreases |descriptions|
  {
    if descriptions != [] {
      var n := |descriptions| - 1;
      var init := descriptions[..n];
      ParseModulesFails(init);
      if ParseModules(init).None? {
        var k :| 0 <= k < n && ParseModule(init[k]).None?;
        assert init[k] == descriptions[k];
      } else if ParseModules(descriptions).Some? {
        forall k | 0 <= k < |descriptions|
          ensures ParseModule(descriptions[k]).Some?
        {
        }
      }
    }
  }

  /** Every stored module is keyed by its name and is one of the modules. */
  lemma {:induction false} DeclareFrom(mods: seq<Module>)
    ensures Named(Declare(mods))
    ensures forall k :: k in Declare(mods) ==> exists i :: 0 <= i < |mods| && mods[i] == Declare(mods)[k]
    decreases |mods|
  {
    if mods != [] {
      var n := |mods| - 1;
      var init := mods[..n];
      DeclareFrom(init);
      var ms := Declare(mods);
      forall k | k in ms
        ensures exists i :: 0 <= i < |mods| && mods[i] == ms[k]
      {
        if k == mods[n].name {
          assert mods[n] == ms[k];
        } else {
          var i :| 0 <= i < n && init[i] == Declare(init)[k];
          assert mods[i] == ms[k];
        }
      }
    }
  }

  /** No module after `i` has the same name. */
  ghost predicate LastDeclaration(mods: seq<Module>, i: nat)
    requires i < |mods|
  {
    forall j :: i < j < |mods| ==> mods[j].name != mods[i].name
  }

  /** Every module's name is a key, and a module no later one redeclares is
      the one stored. */
  lemma {:induction false} DeclareLast(mods: seq<Module>)
    ensures forall i :: 0 <= i < |mods| ==> mods[i].name in Declare(mods)
    ensures forall i :: 0 <= i < |mods| && LastDeclaration(mods, i) ==> Declare(mods)[mods[i].name] == mods[i]
    decreases |mods|
  {
    if mods != [] {
      var n := |mods| - 1;
      var init := mods[..n];
      DeclareLast(init);
      forall i | 0 <= i < n && LastDeclaration(mods, i)
        ensures LastDeclaration(init, i)
      {
      }
    }
  }

  /** What `create_modules` returns satisfies `Initial`. */
  lemma {:induction false} ModulesOfInitial(descriptions: seq<string>)
    requires ModulesOf(descriptions).Some?
    ensures Initial(ModulesOf(descriptions).value)
  {
    var mods := ParseModules(descriptions).value;
    DeclareFrom(mods);
    var ms := Declare(mods);
    forall k | k in ms && (ms[k].kind.FlipFlop? || ms[k].kind.Conjunction?)
      ensures ms[k].kind.FlipFlop? ==> ms[k].kind.status == -1
      ensures ms[k].kind.Conjunction? ==> ms[k].kind.inputs == map[]
    {
      var i :| 0 <= i < |mods| && mods[i] == ms[k];
      assert ParseModule(descriptions[i]) == Some(mods[i]);
    }
  }

  /** `create_modules` as a loop over the descriptions. */
  method CreateModules(descriptions: seq<string>) returns (r: Option<map<string, Module>>)
    ensures r == ModulesOf(descriptions)
  {
    var modules: map<string, Module> := map[];
    ghost var mods: seq<Module> := [];
    for i := 0 to |descriptions|
      invariant ParseModules(descriptions[..i]) == Some(mods)
      invariant modules == Declare(mods)
    {
      assert descriptions[..i + 1][..i] == descriptions[..i];
      var parsed := ParseModule(descriptions[i]);
      if parsed.None? {
        ParseFailureStays(descriptions, i + 1);
        return None;
      }
      modules := modules[parsed.value.name := parsed.value];
      assert (mods + [parsed.value])[..|mods|] == mods;
      mods := mods + [parsed.value];
    }
    assert descriptions[..|descriptions|] == descriptions;
    modules := modules["button" := ButtonModule];
    r := Some(modules);
  }

  /** Once a prefix fails to parse, so does every longer one. */
  lemma {:induction false} ParseFailureStays(descriptions: seq<string>, k: nat)
    requires k <= |descriptions|
    requires ParseModules(descriptions[..k]).None?
    ensures ParseModules(descriptions).None?
    decreases |descriptions| - k
  {
    if k < |descriptions| {
      assert descriptions[..k + 1][..k] == descriptions[..k];
      assert ParseModules(descriptions[..k + 1]).None?;
      ParseFailureStays(descriptions, k + 1);
    } else {
      assert descriptions[..k] == descriptions;
    }
  }

  // ---------------------------------------------------------------------
  // Conjunction memories: `populate_all_inputs_memos`
  // ---------------------------------------------------------------------

  /** The memory entries `populate_all_inputs_memos` gives conjunction `c`
      from the modules in `sources`: -1 for each one listing `c` as a
      destination. */
  function InputsFrom(ms: map<string, Module>, c: string, sources: set<string>): map<string, int>
  {
    map n | n in sources && n in ms && c in ms[n].destinations :: -1
  }

  /** The modules after the sources in `sources` registered themselves with
      the conjunctions they target. */
  function WithInputsFrom(ms: map<string, Module>, sources: set<string>): map<string, Module>
  {
    map k | k in ms ::
      if ms[k].kind.Conjunction? then
        ms[k].(kind := Conjunction(ms[k].kind.inputs + InputsFrom(ms, k, sources)))
      else ms[k]
  }

  /** The modules after `populate_all_inputs_memos`. */
  function WithInputs(ms: map<string, Module>): map<string, Module>
  {
    WithInputsFrom(ms, ms.Keys)
  }

  /** The modules after `source` registered itself, under its name, with
      the conjunctions among `destinations`. */
  function Register(ms: map<string, Module>, source: string, destinations: seq<string>): map<string, Module>
  {
    map k | k in ms ::
      if ms[k].kind.Conjunction? && k in destinations then
        ms[k].(kind := Conjunction(ms[k].kind.inputs[source := -1]))
      else ms[k]
  }

  /** Each conjunction's memory holds, initialised to -1, exactly the
      modules that list it as a destination; nothing else changes. */
  lemma {:induction false} WithInputsMeaning(ms: map<string, Module>)
    requires Initial(ms)
    ensures WithInputs(ms).Keys == ms.Keys
    ensures forall k :: k in ms ==>
      && WithInputs(ms)[k].name == ms[k].name
      && WithInputs(ms)[k].destinations == ms[k].destinations
      && (ms[k].kind.Conjunction? <==> WithInputs(ms)[k].kind.Conjunction?)
      && (!ms[k].kind.Conjunction? ==> WithInputs(ms)[k] == ms[k])
    ensures forall c, n :: c in ms && ms[c].kind.Conjunction? ==>
      (n in WithInputs(ms)[c].kind.inputs <==> n in ms && c in ms[n].destinations)
    ensures forall c, n :: c in ms && ms[c].kind.Conjunction? && n in WithInputs(ms)[c].kind.inputs ==>
      WithInputs(ms)[c].kind.inputs[n] == -1
  {
  }

  /** One more source adds its entry to the memory of each conjunction it
      targets. */
  lemma {:induction false} InputsFromNext(ms: map<string, Module>, c: string, sources: set<string>, n: string)
    requires n in ms
    ensures InputsFrom(ms, c, sources + {n}) ==
      if c in ms[n].destinations then InputsFrom(ms, c, sources)[n := -1] else InputsFrom(ms, c, sources)
  {
  }

  lemma {:induction false} UnionUpdate(a: map<string, int>, b: map<string, int>, n: string, v: int)
    ensures (a + b)[n := v] == a + b[n := v]
  {
  }

  /** Before any source registered, nothing has changed. */
  lemma {:induction false} WithInputsFromNone(ms: map<string, Module>)
    ensures WithInputsFrom(ms, {}) == ms
  {
    forall k | k in ms && ms[k].kind.Conjunction?
      ensures ms[k].kind.inputs + InputsFrom(ms, k, {}) == ms[k].kind.inputs
    {
      assert InputsFrom(ms, k, {}) == map[];
    }
  }

  /** Registering one more destination. */
  lemma {:induction false} RegisterAppend(ms: map<string, Module>, source: string, ds: seq<string>, d: string)
    ensures Register(ms, source, ds + [d]) ==
      var r := Register(ms, source, ds);
      if d in r && r[d].kind.Conjunction? then r[d := r[d].(kind := Conjunction(r[d].kind.inputs[source := -1]))]
      else r
  {
    var r := Register(ms, source, ds);
    var r2 := Register(ms, source, ds + [d]);
    if d in r && r[d].kind.Conjunction? {
      var inputs := ms[d].kind.inputs;
      assert d in ds ==> inputs[source := -1][source := -1] == inputs[source := -1];
      assert r2 == r[d := r[d].(kind := Conjunction(r[d].kind.inputs[source := -1]))];
    } else {
      assert r2 == r;
    }
  }

  /** Registering one more source extends the memories by its entries. */
  lemma {:induction false} RegisterNext(ms: map<string, Module>, sources: set<string>, n: string)
    requires n in ms
    ensures Register(WithInputsFrom(ms, sources), n, ms[n].destinations) == WithInputsFrom(ms, sources + {n})
  {
    var before := WithInputsFrom(ms, sources);
    var after := WithInputsFrom(ms, sources + {n});
    var registered := Register(before, n, ms[n].destinations);
    forall k | k in ms
      ensures registered[k] == after[k]
    {
      if ms[k].kind.Conjunction? {
        InputsFromNext(ms, k, sources, n);
        if k in ms[n].destinations {
          UnionUpdate(ms[k].kind.inputs, InputsFrom(ms, k, sources), n, -1);
        }
      }
    }
    assert registered.Keys == after.Keys;
  }

  // ---------------------------------------------------------------------
  // One push: the pulses a queue of pulses sets off
  // ---------------------------------------------------------------------

  /** `update_pulses_tracker`: `pulses[level] += level`, so entry 1 counts
      the high pulses and entry -1 the low ones, negated. The tracker of a
      valid state has every level a pulse can carry, so the source's
      KeyError cannot arise and a missing key is left alone. */
  function Track(pulses: map<int, int>, level: int): (r: map<int, int>)
    ensures r.Keys == pulses.Keys
  {
    if level in pulses then pulses[level := pulses[level] + level] else pulses
  }

  /** `check_if_all_inputs_high`: the remembered pulses sum to their
      number. */
  ghost predicate AllHigh(inputs: map<string, int>)
  {
    SumValues(inputs) == |inputs|
  }

  lemma {:induction false} UnitProduct(a: int, b: int)
    requires -1 <= a <= 1 && -1 <= b <= 1
    ensures -1 <= a * b <= 1
  {
    if a == 0 {
    } else if a == 1 {
    } else {
    }
  }

  /** The same variant, whatever its state. */
  predicate SameKind(a: Kind, b: Kind)
  {
    match a
    case Plain => b.Plain?
    case Button => b.Button?
    case Broadcaster => b.Broadcaster?
    case FlipFlop(_) => b.FlipFlop?
    case Conjunction(_) => b.Conjunction?
  }

  /** What a module does with a pulse of `level` from `source`: its new
      state and the level it sends on. */
  ghost function Respond(m: Module, level: int, source: string): (r: (Module, int))
    ensures r.0.name == m.name && r.0.destinations == m.destinations
    ensures SameKind(m.kind, r.0.kind)
  {
    match m.kind
    case Button => (m, -1)
    case Broadcaster => (m, -1)
    case FlipFlop(status) => (m.(kind := FlipFlop(status * level)), status * level)
    case Conjunction(inputs) =>
      var remembered := inputs[source := level];
      (m.(kind := Conjunction(remembered)), if AllHigh(remembered) then -1 else 1)
    case Plain => (m, 0)
  }

  /** A module keeps its state in -1..1 and sends -1, 0 or 1. */
  lemma {:induction false} RespondOk(m: Module, level: int, source: string)
    requires ModuleOk(m) && -1 <= level <= 1
    ensures ModuleOk(Respond(m, level, source).0)
    ensures -1 <= Respond(m, level, source).1 <= 1
  {
    if m.kind.FlipFlop? {
      UnitProduct(m.kind.status, level);
    }
  }

  /** The mutable state keeps its shape: the button is there, every key
      names its module, flip-flop statuses and memories hold -1, 0 or 1,
      and the tracker has its three entries, with 1 counting up and -1
      counting down. */
  ghost predicate ValidState(s: State)
  {
    && "button" in s.modules && s.modules["button"].kind.Button?
    && Named(s.modules)
    && (forall k :: k in s.modules ==> ModuleOk(s.modules[k]))
    && s.pulses.Keys == {-1, 0, 1}
    && s.pulses[1] >= 0 && s.pulses[-1] <= 0
  }

  /** Every queued pulse goes to a known module. */
  ghost predicate TargetsKnown(ms: map<string, Module>, queue: seq<Pulse>)
  {
    forall i :: 0 <= i < |queue| ==> queue[i].target in ms
  }

  /** Every queued pulse goes to a known module with level -1, 0 or 1. */
  ghost predicate QueueOk(s: State, queue: seq<Pulse>)
  {
    TargetsKnown(s.modules, queue) && forall i :: 0 <= i < |queue| ==> -1 <= queue[i].level <= 1
  }

  /** The same modules with the same names, destinations and variants. */
  ghost predicate SameShape(a: map<string, Module>, b: map<string, Module>)
  {
    && a.Keys == b.Keys
    && forall k :: k in a ==>
         b[k].name == a[k].name && b[k].destinations == a[k].destinations && SameKind(a[k].kind, b[k].kind)
  }

  /** The counts only grow and `rx_hit` is never cleared. */
  ghost predicate Grows(s: State, t: State)
    requires 1 in s.pulses && -1 in s.pulses && 1 in t.pulses && -1 in t.pulses
  {
    t.pulses[1] >= s.pulses[1] && t.pulses[-1] <= s.pulses[-1] && (s.rxHit ==> t.rxHit)
  }

  /** The loop over `destinations` after a module sent `next` having
      received `received`: a known destination is queued, unless the sender
      is a flip-flop that did not receive low; an unknown one is counted in
      the tracker and, for a low pulse to `rx`, sets `rx_hit`. */
  function Dispatch(s: State, sender: Module, received: int, next: int, dests: seq<string>): (r: (State, seq<Pulse>))
    ensures r.0.modules == s.modules && r.0.pulses.Keys == s.pulses.Keys
    ensures TargetsKnown(s.modules, r.1)
    decreases |dests|
  {
    if dests == [] then (s, [])
    else
      var (t, sent) := Dispatch(s, sender, received, next, dests[..|dests| - 1]);
      var d := dests[|dests| - 1];
      if d in s.modules then
        (t, if !sender.kind.FlipFlop? || received == -1 then sent + [Pulse(d, next, sender.name)] else sent)
      else
        (t.(pulses := Track(t.pulses, next), rxHit := t.rxHit || (d == "rx" && next == -1)), sent)
  }

  /** Every queued pulse carries `next` from the sender. */
  lemma {:induction false} DispatchSends(s: State, sender: Module, received: int, next: int, dests: seq<string>)
    ensures forall i :: 0 <= i < |Dispatch(s, sender, received, next, dests).1| ==>
      Dispatch(s, sender, received, next, dests).1[i].level == next &&
      Dispatch(s, sender, received, next, dests).1[i].source == sender.name
    decreases |dests|
  {
    if dests != [] {
      DispatchSends(s, sender, received, next, dests[..|dests| - 1]);
    }
  }

  /** Counting only ever adds to entry 1 and subtracts from entry -1. */
  lemma {:induction false} DispatchGrows(s: State, sender: Module, received: int, next: int, dests: seq<string>)
    requires 1 in s.pulses && -1 in s.pulses
    ensures Grows(s, Dispatch(s, sender, received, next, dests).0)
    decreases |dests|
  {
    if dests != [] {
      DispatchGrows(s, sender, received, next, dests[..|dests| - 1]);
    }
  }

  /** One iteration of the queue loop: count the pulse, let its target
      respond, and dispatch what it sends. */
  ghost function Process(s: State, p: Pulse): (r: (State, seq<Pulse>))
  {
    if p.target !in s.modules then (s, [])
    else
      var (m, next) := Respond(s.modules[p.target], p.level, p.source);
      var s2 := State(s.modules[p.target := m], Track(s.pulses, p.level), s.rxHit);
      Dispatch(s2, m, p.level, next, m.destinations)
  }

  /** Processing a pulse keeps the state valid and its shape, only adds to
      the counts, and queues valid pulses. */
  lemma {:induction false} ProcessOk(s: State, p: Pulse)
    requires ValidState(s) && p.target in s.modules && -1 <= p.level <= 1
    ensures ValidState(Process(s, p).0) && QueueOk(Process(s, p).0, Process(s, p).1)
    ensures SameShape(s.modules, Process(s, p).0.modules)
    ensures Grows(s, Process(s, p).0)
  {
    var old_module := s.modules[p.target];
    var (m, next) := Respond(old_module, p.level, p.source);
    RespondOk(old_module, p.level, p.source);
    var s2 := State(s.modules[p.target := m], Track(s.pulses, p.level), s.rxHit);
    DispatchGrows(s2, m, p.level, next, m.destinations);
    DispatchSends(s2, m, p.level, next, m.destinations);
    var r := Dispatch(s2, m, p.level, next, m.destinations);
    assert r == Process(s, p);
    assert forall k :: k in r.0.modules ==> ModuleOk(r.0.modules[k]);
  }

  lemma {:induction false} SameShapeTrans(a: map<string, Module>, b: map<string, Module>, c: map<string, Module>)
    requires SameShape(a, b) && SameShape(b, c)
    ensures SameShape(a, c)
  {
    forall k | k in a ensures SameKind(a[k].kind, c[k].kind) {
      match a[k].kind
      case Plain =>
      case Button =>
      case Broadcaster =>
      case FlipFlop(_) =>
      case Conjunction(_) =>
    }
  }

  /** Drains the queue first in, first out, handing each pulse to `step`;
      `None` when `fuel` pulses were processed and the queue is still not
      empty. */
  ghost function Run(step: (State, Pulse) -> (State, seq<Pulse>), s: State, queue: seq<Pulse>, fuel: nat): Option<State>
    decreases fuel
  {
    if queue == [] then Some(s)
    else if fuel == 0 then None
    else
      var (t, sent) := step(s, queue[0]);
      Run(step, t, queue[1..] + sent, fuel - 1)
  }

  /** One step of the run: the head of the queue is processed and what it
      sends joins the tail. */
  lemma {:induction false} RunStep(step: (State, Pulse) -> (State, seq<Pulse>), s: State, queue: seq<Pulse>, fuel: nat, t: State, sent: seq<Pulse>)
    requires queue != [] && fuel > 0
    requires (t, sent) == step(s, queue[0])
    ensures Run(step, s, queue, fuel) == Run(step, t, queue[1..] + sent, fuel - 1)
  {
  }

  /** The run stops with the queue empty or the fuel spent. */
  lemma {:induction false} RunEnd(step: (State, Pulse) -> (State, seq<Pulse>), s: State, queue: seq<Pulse>, fuel: nat)
    requires queue == [] || fuel == 0
    ensures Run(step, s, queue, fuel) == if queue == [] then Some(s) else None
  {
  }

  /** Processing the head of a valid queue leaves a valid state and queue. */
  lemma {:induction false} ProcessHeadOk(s: State, queue: seq<Pulse>, t: State, sent: seq<Pulse>)
    requires ValidState(s) && QueueOk(s, queue) && queue != []
    requires (t, sent) == Process(s, queue[0])
    ensures ValidState(t) && QueueOk(t, queue[1..] + sent)
    ensures SameShape(s.modules, t.modules) && Grows(s, t)
  {
    ProcessOk(s, queue[0]);
  }

  /** A run keeps the state valid. */
  lemma {:induction false} RunKeepsValid(s: State, queue: seq<Pulse>, fuel: nat)
    requires ValidState(s) && QueueOk(s, queue)
    ensures Run(Process, s, queue, fuel).Some? ==> ValidState(Run(Process, s, queue, fuel).value)
    decreases fuel
  {
    if queue != [] && fuel > 0 {
      var (t, sent) := Process(s, queue[0]);
      ProcessHeadOk(s, queue, t, sent);
      RunStep(Process, s, queue, fuel, t, sent);
      RunKeepsValid(t, queue[1..] + sent, fuel - 1);
    }
  }

  /** A run keeps the modules' names, destinations and variants, only adds
      to the counts, and never clears `rx_hit`. */
  lemma {:induction false} RunKeeps(s: State, queue: seq<Pulse>, fuel: nat)
    requires ValidState(s) && QueueOk(s, queue)
    ensures Run(Process, s, queue, fuel).Some? ==>
      && SameShape(s.modules, Run(Process, s, queue, fuel).value.modules)
      && 1 in Run(Process, s, queue, fuel).value.pulses && -1 in Run(Process, s, queue, fuel).value.pulses
      && Grows(s, Run(Process, s, queue, fuel).value)
    decreases fuel
  {
    if queue != [] && fuel > 0 {
      var (t, sent) := Process(s, queue[0]);
      ProcessHeadOk(s, queue, t, sent);
      RunStep(Process, s, queue, fuel, t, sent);
      RunKeeps(t, queue[1..] + sent, fuel - 1);
      var r := Run(Process, s, queue, fuel);
      if r.Some? {
        SameShapeTrans(s.modules, t.modules, r.value.modules);
      }
    } else if queue == [] {
      SameShapeTrans(s.modules, s.modules, s.modules);
    }
  }

  /** The pulse a push of the button starts with. */
  const Push0 := Pulse("button", 0, "")

  /** `propagate_pulses_with_single_push`. */
  ghost function Push(s: State, fuel: nat): Option<State>
  {
    Run(Process, s, [Push0], fuel)
  }

  /** The state after `n` pushes, or `None` when one of them did not drain
      within `fuel` pulses. */
  ghost function Pushes(s: State, n: nat, fuel: nat): Option<State>
  {
    if n == 0 then Some(s)
    else
      var before := Pushes(s, n - 1, fuel);
      if before.None? then None
      else Push(before.value, fuel)
  }

  /** Pushes keep the state valid and the modules' shape, only add to the
      counts and never clear `rx_hit`. */
  lemma {:induction false} PushesKeep(s: State, n: nat, fuel: nat)
    requires ValidState(s)
    ensures Pushes(s, n, fuel).Some? ==>
      && ValidState(Pushes(s, n, fuel).value)
      && SameShape(s.modules, Pushes(s, n, fuel).value.modules)
      && Grows(s, Pushes(s, n, fuel).value)
  {
    if n == 0 {
      SameShapeTrans(s.modules, s.modules, s.modules);
    } else {
      PushesKeep(s, n - 1, fuel);
      var before := Pushes(s, n - 1, fuel);
      if before.Some? {
        RunKeepsValid(before.value, [Push0], fuel);
        RunKeeps(before.value, [Push0], fuel);
        var r := Push(before.value, fuel);
        if r.Some? {
          SameShapeTrans(s.modules, before.value.modules, r.value.modules);
        }
      }
    }
  }

  /** Once a push fails to drain, every later count of pushes fails too. */
  lemma {:induction false} PushesFailureStays(s: State, n: nat, m: nat, fuel: nat)
    requires n <= m
    requires Pushes(s, n, fuel).None?
    ensures Pushes(s, m, fuel).None?
    decreases m - n
  {
    if n < m {
      PushesFailureStays(s, n + 1, m, fuel);
    }
  }

  /** The state `Configuration.__init__` builds from the modules. */
  ghost function InitialState(ms: map<string, Module>): State
  {
    State(WithInputs(ms), map[1 := 0, 0 := 0, -1 := 0], false)
  }

  /** Part 1's answer from a tracker: `abs(pulses[1] * pulses[-1])`. */
  function PulsesProduct(pulses: map<int, int>): int
    requires 1 in pulses && -1 in pulses
  {
    var product := pulses[1] * pulses[-1];
    if product < 0 then -product else product
  }

  /** Every remembered pulse is high. */
  ghost predicate EveryInputHigh(inputs: map<string, int>)
  {
    forall n :: n in inputs ==> inputs[n] == 1
  }

  /** A conjunction's memory is all high exactly when every remembered
      pulse is 1, given that none is above 1. */
  lemma {:induction false} AllHighMeaning(inputs: map<string, int>)
    requires forall n :: n in inputs ==> inputs[n] <= 1
    ensures SumValues(inputs) <= |inputs|
    ensures AllHigh(inputs) <==> EveryInputHigh(inputs)
    decreases inputs.Keys
  {
    if inputs != map[] {
      var k :| k in inputs;
      var rest := inputs - {k};
      assert rest.Keys == inputs.Keys - {k};
      assert |rest| == |inputs| - 1;
      SumValuesRemove(inputs, k);
      AllHighMeaning(rest);
      if AllHigh(inputs) {
        assert inputs[k] == 1 && AllHigh(rest);
        forall n | n in inputs
          ensures inputs[n] == 1
        {
          if n != k {
            assert n in rest;
          }
        }
      }
      if EveryInputHigh(inputs) {
        assert EveryInputHigh(rest);
      }
    }
  }

  /** A flip-flop holding -1 or 1 toggles on a low pulse and keeps its
      status on a high one; either way it still holds -1 or 1 and sends its
      new status. */
  lemma {:induction false} FlipFlopResponse(m: Module, level: int, source: string)
    requires m.kind.FlipFlop? && (m.kind.status == -1 || m.kind.status == 1)
    requires level == -1 || level == 1
    ensures Respond(m, level, source).0.kind.FlipFlop?
    ensures Respond(m, level, source).1 == Respond(m, level, source).0.kind.status
    ensures level == -1 ==> Respond(m, level, source).0.kind.status == -m.kind.status
    ensures level == 1 ==> Respond(m, level, source).0 == m
    ensures Respond(m, level, source).0.kind.status in {-1, 1}
  {
    if level == 1 {
      assert m.kind.status * level == m.kind.status;
      assert m.(kind := FlipFlop(m.kind.status)) == m;
    } else {
      assert m.kind.status * level == -m.kind.status;
    }
  }

  /** A conjunction stores the pulse under its source, then sends low
      exactly when every remembered pulse is high, and high otherwise. */
  lemma {:induction false} ConjunctionResponse(m: Module, level: int, source: string)
    requires m.kind.Conjunction? && ModuleOk(m) && -1 <= level <= 1
    ensures Respond(m, level, source).0.kind == Conjunction(m.kind.inputs[source := level])
    ensures Respond(m, level, source).1 in {-1, 1}
    ensures Respond(m, level, source).1 == -1 <==> EveryInputHigh(m.kind.inputs[source := level])
  {
    AllHighMeaning(m.kind.inputs[source := level]);
  }

  /** The button and the broadcaster send low and a plain module sends 0;
      none of them changes. */
  lemma {:induction false} StatelessResponse(m: Module, level: int, source: string)
    requires !m.kind.FlipFlop? && !m.kind.Conjunction?
    ensures Respond(m, level, source).0 == m
    ensures Respond(m, level, source).1 == if m.kind.Plain? then 0 else -1
  {
  }

  /** Counting a pulse adds one to entry 1 for a high pulse, takes one from
      entry -1 for a low pulse, and leaves entry 0 at its value. */
  lemma {:induction false} TrackCounts(pulses: map<int, int>, level: int)
    requires pulses.Keys == {-1, 0, 1} && -1 <= level <= 1
    ensures Track(pulses, level)[1] == pulses[1] + (if level == 1 then 1 else 0)
    ensures Track(pulses, level)[-1] == pulses[-1] - (if level == -1 then 1 else 0)
    ensures Track(pulses, level)[0] == pulses[0]
  {
  }

  /** Part 1's product is the number of high pulses times the number of
      low pulses. */
  lemma {:induction false} ProductOfCounts(s: State)
    requires ValidState(s)
    ensures PulsesProduct(s.pulses) == s.pulses[1] * -s.pulses[-1]
  {
    var h, l := s.pulses[1], -s.pulses[-1];
    assert h * l >= 0 by {
      NonNegativeProduct(h, l);
    }
    assert s.pulses[1] * s.pulses[-1] == -(h * l);
  }

  lemma {:induction false} NonNegativeProduct(a: int, b: int)
    requires a >= 0 && b >= 0
    ensures a * b >= 0
  {
  }

  /** The destinations that name a module, in order. */
  function Known(ms: map<string, Module>, dests: seq<string>): (r: seq<string>)
    ensures |r| <= |dests|
    decreases |dests|
  {
    if dests == [] then []
    else
      var d := dests[|dests| - 1];
      Known(ms, dests[..|dests| - 1]) + (if d in ms then [d] else [])
  }

  /** How many destinations name no module. */
  function Unknown(ms: map<string, Module>, dests: seq<string>): (r: nat)
    ensures r + |Known(ms, dests)| == |dests|
    decreases |dests|
  {
    if dests == [] then 0
    else Unknown(ms, dests[..|dests| - 1]) + (if dests[|dests| - 1] in ms then 0 else 1)
  }

  /** `Known` keeps exactly the destinations that are modules. */
  lemma {:induction false} KnownMeaning(ms: map<string, Module>, dests: seq<string>)
    ensures forall d :: d in Known(ms, dests) <==> d in dests && d in ms
    decreases |dests|
  {
    if dests != [] {
      var init := dests[..|dests| - 1];
      KnownMeaning(ms, init);
      assert dests == init + [dests[|dests| - 1]];
    }
  }

  /** The pulses queued by the destination loop: one per known destination,
      in order, carrying `next` from the sender, unless the sender is a
      flip-flop that did not receive low, which queues nothing. */
  lemma {:induction false} DispatchQueues(s: State, sender: Module, received: int, next: int, dests: seq<string>)
    ensures !sender.kind.FlipFlop? || received == -1 ==>
      && |Dispatch(s, sender, received, next, dests).1| == |Known(s.modules, dests)|
      && forall i :: 0 <= i < |Known(s.modules, dests)| ==>
           Dispatch(s, sender, received, next, dests).1[i] == Pulse(Known(s.modules, dests)[i], next, sender.name)
    ensures sender.kind.FlipFlop? && received != -1 ==> Dispatch(s, sender, received, next, dests).1 == []
    decreases |dests|
  {
    if dests != [] {
      DispatchQueues(s, sender, received, next, dests[..|dests| - 1]);
    }
  }

  /** Each destination that is not a module counts `next` once in the
      tracker, whoever the sender. */
  lemma {:induction false} DispatchCounts(s: State, sender: Module, received: int, next: int, dests: seq<string>)
    requires next in s.pulses
    ensures Dispatch(s, sender, received, next, dests).0.pulses ==
      s.pulses[next := s.pulses[next] + next * Unknown(s.modules, dests)]
    decreases |dests|
  {
    if dests != [] {
      var init := dests[..|dests| - 1];
      DispatchCounts(s, sender, received, next, init);
      var u := Unknown(s.modules, init);
      if dests[|dests| - 1] !in s.modules {
        MulSucc(next, u);
      }
    }
  }

  lemma {:induction false} MulSucc(a: int, n: nat)
    ensures a * (n + 1) == a * n + a
  {
  }

  /** `rx_hit` ends up set exactly when it was set before or a low pulse
      goes to an "rx" that is not a module. */
  lemma {:induction false} DispatchHitsRx(s: State, sender: Module, received: int, next: int, dests: seq<string>)
    ensures Dispatch(s, sender, received, next, dests).0.rxHit <==>
      s.rxHit || (next == -1 && "rx" in dests && "rx" !in s.modules)
    decreases |dests|
  {
    if dests != [] {
      var init := dests[..|dests| - 1];
      DispatchHitsRx(s, sender, received, next, init);
      assert dests == init + [dests[|dests| - 1]];
    }
  }

  // ---------------------------------------------------------------------
  // The configuration
  // ---------------------------------------------------------------------

  /** `check_if_all_inputs_high`, summing the remembered pulses in the
      dictionary's order. */
  method CheckIfAllInputsHigh(inputs: map<string, int>) returns (allHigh: bool)
    ensures allHigh == AllHigh(inputs)
  {
    var pulses := 0;
    var remaining := inputs;
    while remaining != map[]
      invariant pulses + SumValues(remaining) == SumValues(inputs)
      decreases |remaining.Keys|
    {
      var key :| key in remaining;
      SumValuesRemove(remaining, key);
      pulses := pulses + remaining[key];
      remaining := remaining - {key};
    }
    allHigh := pulses == |inputs.Keys|;
  }

  class Configuration {
    var modules: map<string, Module>
    var pulses: map<int, int>
    var rxHit: bool

    ghost function Snapshot(): State
      reads this
    {
      State(modules, pulses, rxHit)
    }

    ghost predicate Valid()
      reads this
    {
      ValidState(Snapshot())
    }

    /** `Configuration.__init__`, given the modules `create_modules` built:
        a fresh tracker, the conjunction memories filled in, `rx_hit`
        false. */
    constructor (ms: map<string, Module>)
      requires Initial(ms)
      ensures Snapshot() == InitialState(ms)
      ensures Valid()
    {
      modules := ms;
      pulses := map[1 := 0, 0 := 0, -1 := 0];
      rxHit := false;
      new;
      PopulateAllInputsMemos();
      WithInputsMeaning(ms);
      assert forall k :: k in modules ==> ModuleOk(modules[k]);
    }

    /** `populate_all_inputs_memos`: every module, in any order, registers
        its name with each conjunction among its destinations. */
    method PopulateAllInputsMemos()
      requires Named(modules)
      modifies this
      ensures modules == WithInputs(old(modules))
      ensures pulses == old(pulses) && rxHit == old(rxHit)
    {
      ghost var ms := modules;
      var remaining := modules.Keys;
      ghost var done: set<string> := {};
      WithInputsFromNone(ms);
      while remaining != {}
        invariant remaining !! done && remaining + done == ms.Keys
        invariant modules == WithInputsFrom(ms, done)
        invariant pulses == old(pulses) && rxHit == old(rxHit)
        decreases |remaining|
      {
        var n :| n in remaining;
        RegisterSource(ms, done, n);
        remaining := remaining - {n};
        done := done + {n};
      }
    }

    /** One round of the outer loop of `populate_all_inputs_memos`: module
        `n` registers with the conjunctions it targets. */
    method RegisterSource(ghost ms: map<string, Module>, ghost done: set<string>, n: string)
      requires Named(ms) && n in ms
      requires modules == WithInputsFrom(ms, done)
      modifies this
      ensures modules == WithInputsFrom(ms, done + {n})
      ensures pulses == old(pulses) && rxHit == old(rxHit)
    {
      var source := modules[n];
      assert source.name == n && source.destinations == ms[n].destinations;
      RegisterWithDestinations(source);
      RegisterNext(ms, done, n);
    }

    /** The inner loop of `populate_all_inputs_memos`: `source` adds itself
        to the memory of each conjunction among its destinations. */
    method RegisterWithDestinations(source: Module)
      modifies this
      ensures modules == Register(old(modules), source.name, source.destinations)
      ensures pulses == old(pulses) && rxHit == old(rxHit)
    {
      for j := 0 to |source.destinations|
        invariant modules == Register(old(modules), source.name, source.destinations[..j])
        invariant pulses == old(pulses) && rxHit == old(rxHit)
      {
        var d := source.destinations[j];
        RegisterAppend(old(modules), source.name, source.destinations[..j], d);
        assert source.destinations[..j + 1] == source.destinations[..j] + [d];
        if d in modules && modules[d].kind.Conjunction? {
          modules := modules[d := modules[d].(kind := Conjunction(modules[d].kind.inputs[source.name := -1]))];
        }
      }
      assert source.destinations[..|source.destinations|] == source.destinations;
    }

    /** `update_pulses_tracker`. */
    method UpdatePulsesTracker(level: int)
      requires level in pulses
      modifies this
      ensures pulses == Track(old(pulses), level)
      ensures modules == old(modules) && rxHit == old(rxHit)
    {
      pulses := pulses[level := pulses[level] + level];
    }
  
    /** The loop over the responding module's destinations. */
    method SendPulses(sender: Module, received: int, next: int) returns (sent: seq<Pulse>)
      requires next in pulses
      modifies this
      ensures (Snapshot(), sent) == Dispatch(old(Snapshot()), sender, received, next, sender.destinations)
    {
      sent := [];
      for j := 0 to |sender.destinations|
        invariant (Snapshot(), sent) == Dispatch(old(Snapshot()), sender, received, next, sender.destinations[..j])
      {
        var destination := sender.destinations[j];
        assert sender.destinations[..j + 1][..j] == sender.destinations[..j];
        if destination in modules {
          if !sender.kind.FlipFlop? || received == -1 {
            sent := sent + [Pulse(destination, next, sender.name)];
          }
        } else {
          UpdatePulsesTracker(next);
          if destination == "rx" && next == -1 {
            rxHit := true;
          }
        }
      }
      assert sender.destinations[..|sender.destinations|] == sender.destinations;
    }

    /** One iteration of the loop of `propagate_pulses_with_single_push`:
        the pulse taken from the queue is counted, its module updated, and
        the pulses it sends returned for the queue. */
    method ProcessPulse(p: Pulse) returns (sent: seq<Pulse>)
      requires Valid() && p.target in modules && -1 <= p.level <= 1
      modifies this
      ensures (Snapshot(), sent) == Process(old(Snapshot()), p)
    {
      UpdatePulsesTracker(p.level);
      var current := modules[p.target];
      var next: int;
      match current.kind {
        case Button =>
          next := -1;
        case Broadcaster =>
          next := -1;
        case FlipFlop(status) =>
          current := current.(kind := FlipFlop(status * p.level));
          next := status * p.level;
        case Conjunction(inputs) =>
          var remembered := inputs[p.source := p.level];
          current := current.(kind := Conjunction(remembered));
          var allHigh := CheckIfAllInputsHigh(remembered);
          next := if allHigh then -1 else 1;
        case Plain =>
          next := 0;
      }
      assert (current, next) == Respond(old(modules)[p.target], p.level, p.source);
      modules := modules[p.target := current];
      sent := SendPulses(current, p.level, next);
    }

    /** `propagate_pulses_with_single_push`: the button's pulse and every
        pulse it sets off, first in, first out. `drained` is false when
        `fuel` pulses were processed and the queue still held some; the
        source would go on. */
    method PropagatePulsesWithSinglePush(fuel: nat) returns (drained: bool)
      requires Valid()
      modifies this
      ensures Valid()
      ensures drained <==> Push(old(Snapshot()), fuel).Some?
      ensures drained ==> Snapshot() == Push(old(Snapshot()), fuel).value
    {
      ghost var result := Push(Snapshot(), fuel);
      var queue := [Push0];
      var remaining: nat := fuel;
      while queue != [] && remaining > 0
        invariant Valid() && QueueOk(Snapshot(), queue)
        invariant Run(Process, Snapshot(), queue, remaining) == result
        decreases remaining
      {
        remaining := remaining - 1;
        queue := ProcessHead(queue, remaining, result);
      }
      RunEnd(Process, Snapshot(), queue, remaining);
      drained := queue == [];
    }

    /** One turn of the queue loop: the head is taken off and processed,
        and the pulses it sends are put at the back. */
    method ProcessHead(queue: seq<Pulse>, ghost fuel: nat, ghost result: Option<State>) returns (rest: seq<Pulse>)
      requires Valid() && QueueOk(Snapshot(), queue) && queue != []
      requires Run(Process, Snapshot(), queue, fuel + 1) == result
      modifies this
      ensures Valid() && QueueOk(Snapshot(), rest)
      ensures Run(Process, Snapshot(), rest, fuel) == result
    {
      ghost var before := Snapshot();
      var sent := ProcessPulse(queue[0]);
      rest := queue[1..] + sent;
      ProcessHeadOk(before, queue, Snapshot(), sent);
      RunStep(Process, before, queue, fuel + 1, Snapshot(), sent);
    }

    /** `calculate_pulses_product_for_pushes`: `pushes` pushes, then
        `abs(pulses[1] * pulses[-1])`. `None` when a push does not drain
        within `fuel` pulses. */
    method CalculatePulsesProductForPushes(pushes: nat, fuel: nat) returns (product: Option<int>)
      requires Valid()
      modifies this
      ensures Valid()
      ensures product.Some? <==> Pushes(old(Snapshot()), pushes, fuel).Some?
      ensures product.Some? ==>
        Snapshot() == Pushes(old(Snapshot()), pushes, fuel).value &&
        product.value == PulsesProduct(pulses)
    {
      for i := 0 to pushes
        invariant Valid()
        invariant Pushes(old(Snapshot()), i, fuel) == Some(Snapshot())
      {
        var drained := PropagatePulsesWithSinglePush(fuel);
        if !drained {
          PushesFailureStays(old(Snapshot()), i + 1, pushes, fuel);
          return None;
        }
      }
      product := Some(PulsesProduct(pulses));
    }

    /** `find_minimal_number_of_pushes_for_rx`: pushes until `rx_hit`.
        The source loops without bound; here at most `maxPushes` pushes of
        at most `fuel` pulses each are made, and `None` means none of them
        set `rx_hit`. */
    method FindMinimalNumberOfPushesForRx(maxPushes: nat, fuel: nat) returns (pushes: Option<nat>)
      requires Valid()
      modifies this
      ensures Valid()
      ensures pushes.Some? ==>
        && Pushes(old(Snapshot()), pushes.value, fuel).Some?
        && Pushes(old(Snapshot()), pushes.value, fuel).value.rxHit
        && forall i :: 0 <= i < pushes.value ==>
             Pushes(old(Snapshot()), i, fuel).Some? && !Pushes(old(Snapshot()), i, fuel).value.rxHit
      ensures pushes.None? ==> forall i :: 0 <= i <= maxPushes && Pushes(old(Snapshot()), i, fuel).Some? ==>
        !Pushes(old(Snapshot()), i, fuel).value.rxHit
    {
      var count := 0;
      while !rxHit && count < maxPushes
        invariant Valid() && count <= maxPushes
        invariant Pushes(old(Snapshot()), count, fuel) == Some(Snapshot())
        invariant forall i :: 0 <= i < count ==>
          Pushes(old(Snapshot()), i, fuel).Some? && !Pushes(old(Snapshot()), i, fuel).value.rxHit
        decreases maxPushes - count
      {
        assert !Pushes(old(Snapshot()), count, fuel).value.rxHit;
        count := count + 1;
        var drained := PropagatePulsesWithSinglePush(fuel);
        if !drained {
          forall i | count <= i <= maxPushes
            ensures Pushes(old(Snapshot()), i, fuel).None?
          {
            PushesFailureStays(old(Snapshot()), count, i, fuel);
          }
          return None;
        }
      }
      if rxHit {
        pushes := Some(count);
      } else {
        pushes := None;
      }
    }
  }

  /** `solve_problem`: two configurations built from the same lines, part 1
      after 1000 pushes, part 2 the first push that sets `rx_hit`. Both are
      `None` when a line does not parse; the fuel and push bounds are as in
      the methods above. */
  method SolveProblem(descriptions: seq<string>, fuel: nat, maxPushes: nat) returns (part1: Option<int>, part2: Option<nat>)
    ensures ModulesOf(descriptions).None? ==> part1.None? && part2.None?
    ensures ModulesOf(descriptions).Some? ==>
      var start := InitialState(ModulesOf(descriptions).value);
      && (part1.Some? <==> Pushes(start, 1000, fuel).Some?)
      && (part1.Some? ==>
            && ValidState(Pushes(start, 1000, fuel).value)
            && part1.value == PulsesProduct(Pushes(start, 1000, fuel).value.pulses))
    ensures ModulesOf(descriptions).Some? && part2.Some? ==>
      var start := InitialState(ModulesOf(descriptions).value);
      && Pushes(start, part2.value, fuel).Some? && Pushes(start, part2.value, fuel).value.rxHit
      && forall i :: 0 <= i < part2.value ==> Pushes(start, i, fuel).Some? && !Pushes(start, i, fuel).value.rxHit
  {
    var modules := CreateModules(descriptions);
    if modules.None? {
      return None, None;
    }
    ModulesOfInitial(descriptions);
    var first := new Configuration(modules.value);
    PushesKeep(first.Snapshot(), 1000, fuel);
    var second := new Configuration(modules.value);
    part1 := first.CalculatePulsesProductForPushes(1000, fuel);
    part2 := second.FindMinimalNumberOfPushesForRx(maxPushes, fuel);
  }
}
