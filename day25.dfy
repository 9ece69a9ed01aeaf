/** Day 25: a wiring diagram. Each line "name: a b c" connects a component
    to the components listed after it; the connections are undirected, so
    every connection is recorded on both of its ends. */
module Day25 {
  import opened Text

  /** The components by name, each with the set of names it connects to. */
  type Components = map<string, set<string>>

  /** The connections of `name`, or none when it is not a component yet. */
  function ConnectionsOf(components: Components, name: string): set<string>
  {
    if name in components then components[name] else {}
  }

  /** The elements of a sequence, as Python's `set(...)` gives them. */
  function Elements(xs: seq<string>): (r: set<string>)
    ensures forall x :: x in r <==> x in xs
  {
    set i | 0 <= i < |xs| :: xs[i]
  }

  /** One line of the diagram: the name before ": " and the names after it,
      split at every space. */
  datatype Line = Line(name: string, connections: seq<string>)

  /** `description.split(": ")`; `None` is the IndexError of a line
      without ": ". */
  function ParseLine(description: string): Option<Line>
  {
    var parts := Split(description, ": ");
    if |parts| < 2 then None else Some(Line(parts[0], Split(parts[1], " ")))
  }

  /** Each of `connections` gets `name` among its connections, creating
      the component when it is new. */
  function LinkBack(components: Components, name: string, connections: seq<string>): Components
  {
    if connections == [] then components
    else
      var before := LinkBack(components, name, connections[..|connections| - 1]);
      var c := connections[|connections| - 1];
      before[c := ConnectionsOf(before, c) + {name}]
  }

  /** What one line does to the components: the line's component is
      created or widened by the listed names, and each listed name gets the
      line's component. */
  function AddLine(components: Components, line: Line): Components
  {
    var widened := components[line.name := ConnectionsOf(components, line.name) + Elements(line.connections)];
    LinkBack(widened, line.name, line.connections)
  }

  /** The components the lines build, one line after another, starting
      from none. */
  function Diagram(lines: seq<Line>): Components
  {
    if lines == [] then map[] else AddLine(Diagram(lines[..|lines| - 1]), lines[|lines| - 1])
  }

  /** One line of the loop of `create_components`: the line's own component
      is created or widened, then each listed name gets `name` added. */
  method AddConnections(components: Components, line: Line) returns (updated: Components)
    ensures updated == AddLine(components, line)
  {
    var name := line.name;
    var connections := line.connections;
    ghost var widened := components[name := ConnectionsOf(components, name) + Elements(connections)];
    updated := components;
    if name in updated {
      updated := updated[name := updated[name] + Elements(connections)];
    } else {
      updated := updated[name := Elements(connections)];
      assert ConnectionsOf(components, name) + Elements(connections) == Elements(connections);
    }
    assert connections[..0] == [];
    for index := 0 to |connections|
      invariant updated == LinkBack(widened, name, connections[..index])
    {
      var connection := connections[index];
      assert connections[..index + 1][..index] == connections[..index];
      assert connections[..index + 1][index] == connection;
      ghost var before := LinkBack(widened, name, connections[..index]);
      assert LinkBack(widened, name, connections[..index + 1]) == before[connection := ConnectionsOf(before, connection) + {name}];
      if connection in updated {
        updated := updated[connection := updated[connection] + {name}];
      } else {
        assert ConnectionsOf(before, connection) + {name} == {name};
        updated := updated[connection := {name}];
      }
    }
    assert connections[..|connections|] == connections;
  }

  /** `WiringDiagram.create_components`: `None` is the IndexError of a line
      without ": ". */
  method CreateComponents(descriptions: seq<string>) returns (components: Option<Components>)
    ensures components.None? <==> ParseLines(ParseLine, descriptions).None?
    ensures components.Some? ==> components.value == Diagram(ParseLines(ParseLine, descriptions).value)
  {
    var built: Components := map[];
    ghost var lines: seq<Line> := [];
    for index := 0 to |descriptions|
      invariant ParseLines(ParseLine, descriptions[..index]) == Some(lines)
      invariant built == Diagram(lines)
    {
      assert descriptions[..index + 1][..index] == descriptions[..index];
      var line := ParseLine(descriptions[index]);
      if line.None? {
        ParseLinesPrefix(ParseLine, descriptions, index + 1);
        return None;
      }
      built := AddConnections(built, line.value);
      assert (lines + [line.value])[..|lines|] == lines;
      lines := lines + [line.value];
    }
    assert descriptions[..|descriptions|] == descriptions;
    return Some(built);
  }

  // ---------------------------------------------------------------------
  // Properties

  /** b is among a's connections exactly when a is among b's. */
  predicate Symmetric(components: Components)
  {
    forall a, b :: a in components && b in components[a] ==> b in components && a in components[b]
  }

  /** Every connection names a component. */
  predicate Closed(components: Components)
  {
    forall a, b :: a in components && b in components[a] ==> b in components
  }

  /** A line keeps the connections symmetric and closed. */
  lemma {:induction false} AddLineSymmetric(components: Components, line: Line)
    requires Symmetric(components) && Closed(components)
    ensures Symmetric(AddLine(components, line)) && Closed(AddLine(components, line))
  {
    var r := AddLine(components, line);
    forall a, b | a in r && b in r[a] ensures b in r && a in r[b] {
      AddLineAt(components, line, a);
      AddLineAt(components, line, b);
      if !(a == line.name && b in line.connections) && !(a in line.connections && b == line.name) {
        assert a in components && b in components[a];
      }
    }
  }

  /** The diagram is symmetric, and every connection is a component. */
  lemma {:induction false} DiagramSymmetric(lines: seq<Line>)
    ensures Symmetric(Diagram(lines))
    ensures Closed(Diagram(lines))
  {
    if lines != [] {
      DiagramSymmetric(lines[..|lines| - 1]);
      AddLineSymmetric(Diagram(lines[..|lines| - 1]), lines[|lines| - 1]);
    }
  }

  /** Every name on a line becomes a component, and every pair written on a
      line is connected both ways in the diagram, whatever lines follow. */
  lemma {:induction false} DiagramHasLines(lines: seq<Line>, i: nat, b: string)
    requires i < |lines| && b in lines[i].connections
    ensures lines[i].name in Diagram(lines) && b in Diagram(lines)
    ensures b in Diagram(lines)[lines[i].name] && lines[i].name in Diagram(lines)[b]
  {
    DiagramConnections(lines, lines[i].name, b);
    DiagramConnections(lines, b, lines[i].name);
    assert Joins(lines[i], lines[i].name, b) && Joins(lines[i], b, lines[i].name);
  }

  /** After linking back, a component has what it had before, plus `name`
      when it is listed. */
  lemma {:induction false} LinkBackAt(components: Components, name: string, connections: seq<string>, k: string)
    ensures k in LinkBack(components, name, connections) <==> k in components || k in connections
    ensures ConnectionsOf(LinkBack(components, name, connections), k)
      == ConnectionsOf(components, k) + (if k in connections then {name} else {})
  {
    if connections != [] {
      var front := connections[..|connections| - 1];
      LinkBackAt(components, name, front, k);
      assert connections == front + [connections[|connections| - 1]];
    }
  }

  /** A component after one line: what it had before, plus the line's
      names when it is the line's component, plus the line's component when
      the line lists it. */
  lemma {:induction false} AddLineAt(components: Components, line: Line, k: string)
    ensures k in AddLine(components, line) <==> k in components || k == line.name || k in line.connections
    ensures ConnectionsOf(AddLine(components, line), k) == ConnectionsOf(components, k)
      + (if k == line.name then Elements(line.connections) else {})
      + (if k in line.connections then {line.name} else {})
  {
    var widened := components[line.name := ConnectionsOf(components, line.name) + Elements(line.connections)];
    LinkBackAt(widened, line.name, line.connections, k);
  }

  /** Several lines for the same name union their sets: a name's
      connections are exactly the names listed on its own lines and the
      names of the lines that list it, and a name is a component exactly
      when some line mentions it. */
  lemma {:induction false} DiagramConnections(lines: seq<Line>, a: string, b: string)
    ensures a in Diagram(lines) <==> exists i :: 0 <= i < |lines| && Mentions(lines[i], a)
    ensures b in ConnectionsOf(Diagram(lines), a) <==> exists i :: 0 <= i < |lines| && Joins(lines[i], a, b)
    decreases |lines|
  {
    if lines != [] {
      var front := lines[..|lines| - 1];
      var last := lines[|lines| - 1];
      AddLineAt(Diagram(front), last, a);
      DiagramConnections(front, a, b);
      if exists i :: 0 <= i < |lines| && Mentions(lines[i], a) {
        var i :| 0 <= i < |lines| && Mentions(lines[i], a);
        if i < |front| {
          assert front[i] == lines[i];
        }
      }
      if exists i :: 0 <= i < |lines| && Joins(lines[i], a, b) {
        var i :| 0 <= i < |lines| && Joins(lines[i], a, b);
        if i < |front| {
          assert front[i] == lines[i];
        }
      }
      if exists i :: 0 <= i < |front| && Mentions(front[i], a) {
        var i :| 0 <= i < |front| && Mentions(front[i], a);
        assert front[i] == lines[i];
      }
      if exists i :: 0 <= i < |front| && Joins(front[i], a, b) {
        var i :| 0 <= i < |front| && Joins(front[i], a, b);
        assert front[i] == lines[i];
      }
    }
  }

  /** A line names `a` on either side of ": ". */
  predicate Mentions(line: Line, a: string)
  {
    line.name == a || a in line.connections
  }

  /** A line connects `a` to `b`, in one direction or the other. */
  predicate Joins(line: Line, a: string, b: string)
  {
    (line.name == a && b in line.connections) || (line.name == b && a in line.connections)
  }
}
