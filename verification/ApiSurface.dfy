/**
  Two algorithms of the tool that lists a box's HTTP API: which action names a
  handler dispatches on, helpers included, and what has changed between two lists.
*/
module ApiSurface {
  import opened Options

  // -------------------------------------------------------------------------
  // Handlers
  // -------------------------------------------------------------------------

  /** A collection of names: written out, or a table of the module. */
  datatype Collection = Literal(names: set<string>) | Table(name: string)

  /** What matters of a function's syntax tree, node by node. */
  datatype Node =
    | Equals(name: Option<string>)                     // action == "name"
    | Among(names: Collection)                         // action in NAMES
    | Indexes(table: Collection)                       // TABLE[action]
    | Gets(table: Collection)                          // TABLE.get(action)
    | Calls(callee: string, withAction: bool)          // helper(..., action, ...)
    | Other

  datatype Func = Func(name: string, nodes: seq<Node>)

  type Tables = map<string, set<string>>

  /** The functions of a module, under their names. */
  type Functions = map<string, Func>

  ghost predicate WellNamed(functions: Functions) {
    forall name <- functions :: functions[name].name == name
  }

  function NamesIn(names: Collection, tables: Tables): set<string> {
    match names
    case Literal(all) => all
    case Table(name) => if name in tables then tables[name] else {}
  }

  function NodeNames(node: Node, tables: Tables): set<string> {
    match node
    case Equals(name) => if name.Some? then {name.value} else {}
    case Among(names) => NamesIn(names, tables)
    case Indexes(table) => NamesIn(table, tables)
    case Gets(table) => NamesIn(table, tables)
    case _ => {}
  }

  /** The names that some nodes dispatch on themselves. */
  function Direct(nodes: seq<Node>, tables: Tables): set<string> {
    if nodes == [] then {} else Direct(nodes[..|nodes| - 1], tables) + NodeNames(nodes[|nodes| - 1], tables)
  }

  predicate Passes(node: Node, functions: Functions) {
    node.Calls? && node.withAction && node.callee in functions
  }

  /** The functions of the module that some nodes pass the action to. */
  function Callees(nodes: seq<Node>, functions: Functions): (callees: set<string>)
    ensures callees <= functions.Keys
  {
    if nodes == [] then {}
    else
      var last := nodes[|nodes| - 1];
      Callees(nodes[..|nodes| - 1], functions) + if Passes(last, functions) then {last.callee} else {}
  }

  /** A collection holds a name, written out or in a table that there is. */
  predicate Holds(collection: Collection, tables: Tables, name: string) {
    match collection
    case Literal(all) => name in all
    case Table(t) => t in tables && name in tables[t]
  }

  /** A node compares the action with a name, or looks it up among names. */
  predicate Mentions(node: Node, tables: Tables, name: string) {
    || node == Equals(Some(name))
    || (node.Among? && Holds(node.names, tables, name))
    || ((node.Indexes? || node.Gets?) && Holds(node.table, tables, name))
  }

  lemma {:induction false} DirectIff(nodes: seq<Node>, tables: Tables, name: string)
    ensures name in Direct(nodes, tables) <==> exists k :: 0 <= k < |nodes| && Mentions(nodes[k], tables, name)
  {
    if nodes != [] {
      var n := |nodes| - 1;
      DirectIff(nodes[..n], tables, name);
      assert forall k :: 0 <= k < n ==> nodes[..n][k] == nodes[k];
      assert name in NodeNames(nodes[n], tables) <==> Mentions(nodes[n], tables, name);
      hide NodeNames, Mentions;
    }
  }

  lemma {:induction false} CalleesIff(nodes: seq<Node>, functions: Functions, callee: string)
    ensures callee in Callees(nodes, functions) <==> callee in functions && Calls(callee, true) in nodes
  {
    if nodes != [] {
      var n := |nodes| - 1;
      CalleesIff(nodes[..n], functions, callee);
      assert nodes == nodes[..n] + [nodes[n]];
    }
  }

  /** A chain of calls that pass the action on, from one function, through none of those to avoid. */
  predicate Chain(functions: Functions, from: Func, path: seq<string>, avoid: set<string>)
    decreases |path|
  {
    && path != [] && path[0] in Callees(from.nodes, functions) && path[0] !in avoid
    && (|path| > 1 ==> Chain(functions, functions[path[0]], path[1..], avoid))
  }

  ghost predicate Reaches(functions: Functions, from: Func, name: string, avoid: set<string>) {
    exists path :: Chain(functions, from, path, avoid) && path[|path| - 1] == name
  }

  /** The names that a set of functions dispatch on. */
  function Under(functions: Functions, tables: Tables, those: set<string>): set<string> {
    set f, n | f in those && f in functions && n in Direct(functions[f].nodes, tables) :: n
  }

  /** The names of the functions that have been looked at. */
  class Seen {
    var names: set<string>

    constructor ()
      ensures names == {}
    {
      names := {};
    }
  }

  /** Every function that the ones looked at pass the action to has been looked at. */
  ghost predicate Closed(functions: Functions, those: set<string>, seen: set<string>) {
    forall f <- those :: f in functions ==> Callees(functions[f].nodes, functions) <= seen
  }

  lemma ChainLonger(functions: Functions, from: Func, callee: string, name: string, avoid: set<string>, more: set<string>)
    requires callee in Callees(from.nodes, functions) && callee !in avoid && avoid <= more
    requires Reaches(functions, functions[callee], name, more)
    ensures Reaches(functions, from, name, avoid)
  {
    var path :| Chain(functions, functions[callee], path, more) && path[|path| - 1] == name;
    ChainAvoidsLess(functions, functions[callee], path, avoid, more);
    assert ([callee] + path)[1..] == path;
    assert Chain(functions, from, [callee] + path, avoid);
  }

  lemma {:induction false} ChainAvoidsLess(functions: Functions, from: Func, path: seq<string>, avoid: set<string>, more: set<string>)
    requires Chain(functions, from, path, more) && avoid <= more
    ensures Chain(functions, from, path, avoid)
    decreases |path|
  {
    if |path| > 1 {
      ChainAvoidsLess(functions, functions[path[0]], path[1..], avoid, more);
    }
  }

  /** What one depth-first visit adds to those seen: functions that are reached, and all that these reach. */
  ghost predicate Visited(functions: Functions, func: Func, nodes: seq<Node>, before: set<string>, after: set<string>) {
    && before + {func.name} <= after
    && (forall f <- after - before - {func.name} :: f in functions && Reaches(functions, func, f, before + {func.name}))
    && Callees(nodes, functions) <= after
    && Closed(functions, after - before - {func.name}, after)
  }

  lemma VisitOneMore(functions: Functions, func: Func, nodes: seq<Node>, node: Node,
                     before: set<string>, middle: set<string>, after: set<string>)
    requires WellNamed(functions) && Visited(functions, func, nodes, before, middle)
    requires Passes(node, functions) && node.callee in Callees(func.nodes, functions) && node.callee !in middle
    requires Visited(functions, functions[node.callee], functions[node.callee].nodes, middle, after)
    ensures Visited(functions, func, nodes + [node], before, after)
  {
    assert (nodes + [node])[..|nodes|] == nodes;
    var callee := functions[node.callee];
    forall f | f in after - before - {func.name}
      ensures f in functions && Reaches(functions, func, f, before + {func.name})
    {
      if f !in middle {
        if f == node.callee {
          assert Chain(functions, func, [f], before + {func.name});
        } else {
          ChainLonger(functions, func, node.callee, f, before + {func.name}, middle + {callee.name});
        }
      }
    }
  }

  lemma VisitNoMore(functions: Functions, func: Func, nodes: seq<Node>, node: Node, before: set<string>, after: set<string>)
    requires Visited(functions, func, nodes, before, after) && (Passes(node, functions) ==> node.callee in after)
    ensures Visited(functions, func, nodes + [node], before, after)
  {
    assert (nodes + [node])[..|nodes|] == nodes;
  }

  lemma {:induction false} CalleeOfNode(nodes: seq<Node>, k: nat, functions: Functions)
    requires k < |nodes| && Passes(nodes[k], functions)
    ensures nodes[k].callee in Callees(nodes, functions)
  {
    if k < |nodes| - 1 {
      CalleeOfNode(nodes[..|nodes| - 1], k, functions);
    }
  }

  lemma VisitStarts(functions: Functions, tables: Tables, func: Func, before: set<string>)
    ensures Visited(functions, func, func.nodes[..0], before, before + {func.name})
    ensures Direct(func.nodes[..0], tables) == {}
    ensures Under(functions, tables, before + {func.name} - before - {func.name}) == {}
  {
  }

  /** The depth-first search, over whatever is called, in a circle or not. */
  method Search(func: Func, tables: Tables, functions: Functions, seen: Seen) returns (names: set<string>)
    requires WellNamed(functions) && func.name !in seen.names
    modifies seen
    ensures Visited(functions, func, func.nodes, old(seen.names), seen.names)
    ensures names == Direct(func.nodes, tables) + Under(functions, tables, seen.names - old(seen.names) - {func.name})
    decreases functions.Keys + {func.name} - seen.names
  {
    hide Visited, Under, NodeNames, Direct, Callees;
    ghost var before := seen.names;
    seen.names := seen.names + {func.name};
    names := {};
    var k := 0;
    VisitStarts(functions, tables, func, before);
    while k < |func.nodes|
      invariant 0 <= k <= |func.nodes|
      invariant Visited(functions, func, func.nodes[..k], before, seen.names)
      invariant names == Direct(func.nodes[..k], tables) + Under(functions, tables, seen.names - before - {func.name})
    {
      var node := func.nodes[k];
      assert func.nodes[..k + 1] == func.nodes[..k] + [node];
      ghost var middle := seen.names;
      if Passes(node, functions) && node.callee !in seen.names {
        CalleeOfNode(func.nodes, k, functions);
        SeenGrows(functions, func, func.nodes[..k], before, middle);
        var more := Search(functions[node.callee], tables, functions, seen);
        VisitOneMore(functions, func, func.nodes[..k], node, before, middle, seen.names);
        SeenGrows(functions, functions[node.callee], functions[node.callee].nodes, middle, seen.names);
        UnderMore(functions, tables, func.name, node.callee, before, middle, seen.names);
        names := names + more;
      } else {
        VisitNoMore(functions, func, func.nodes[..k], node, before, seen.names);
        names := names + NodeNames(node, tables);
      }
      DirectOneMore(func.nodes[..k], node, tables);
      k := k + 1;
    }
    assert func.nodes[..k] == func.nodes;
  }

  lemma SeenGrows(functions: Functions, func: Func, nodes: seq<Node>, before: set<string>, after: set<string>)
    requires Visited(functions, func, nodes, before, after)
    ensures before + {func.name} <= after
  {
  }

  lemma DirectOneMore(nodes: seq<Node>, node: Node, tables: Tables)
    ensures Direct(nodes + [node], tables) == Direct(nodes, tables) + NodeNames(node, tables)
    ensures node.Calls? ==> NodeNames(node, tables) == {}
  {
    assert (nodes + [node])[..|nodes|] == nodes;
  }

  lemma UnderMore(functions: Functions, tables: Tables, name: string, callee: string,
                  before: set<string>, middle: set<string>, after: set<string>)
    requires before + {name} <= middle && middle + {callee} <= after && callee !in middle && callee in functions
    ensures Under(functions, tables, after - before - {name})
         == Under(functions, tables, middle - before - {name}) + Direct(functions[callee].nodes, tables)
            + Under(functions, tables, after - middle - {callee})
  {
  }

  /** A function dispatches on a name itself, or passes the action on to one that does. */
  ghost predicate Dispatches(root: Func, tables: Tables, functions: Functions, avoid: set<string>, name: string) {
    || name in Direct(root.nodes, tables)
    || exists f :: f in functions && Reaches(functions, root, f, avoid) && name in Direct(functions[f].nodes, tables)
  }

  lemma {:induction false} ChainIsSeen(functions: Functions, from: Func, path: seq<string>, root: string, after: set<string>)
    requires Chain(functions, from, path, {root}) && Callees(from.nodes, functions) <= after
    requires Closed(functions, after - {root}, after)
    ensures path[|path| - 1] in after - {root} && path[|path| - 1] in functions
    decreases |path|
  {
    if |path| > 1 {
      ChainIsSeen(functions, functions[path[0]], path[1..], root, after);
    }
  }

  /**
    Exactly the names that the function and its helpers dispatch on, over every
    chain of calls that does not come back to the function's own name.
  */
  method ActionNames(root: Func, tables: Tables, functions: Functions) returns (names: set<string>)
    requires WellNamed(functions)
    ensures forall name :: name in names <==> Dispatches(root, tables, functions, {root.name}, name)
  {
    var seen := new Seen();
    names := Search(root, tables, functions, seen);
    ghost var after := seen.names;
    assert {} + {root.name} == {root.name} && after - {} - {root.name} == after - {root.name};
    forall f | f in functions && Reaches(functions, root, f, {root.name})
      ensures f in after - {root.name}
    {
      var path :| Chain(functions, root, path, {root.name}) && path[|path| - 1] == f;
      ChainIsSeen(functions, root, path, root.name, after);
    }
    hide Direct, Reaches;
  }

  /** A chain that comes back to a name goes on from whatever has that name. */
  lemma {:induction false} ChainPast(functions: Functions, root: string, from: Func, path: seq<string>)
    requires Chain(functions, from, path, {})
    ensures path[|path| - 1] == root
            || (root in functions && Reaches(functions, functions[root], path[|path| - 1], {root}))
            || Chain(functions, from, path, {root})
    ensures !Chain(functions, from, path, {root}) ==> Reaches(functions, from, root, {})
    decreases |path|
  {
    if |path| > 1 {
      ChainPast(functions, root, functions[path[0]], path[1..]);
      if path[0] == root {
        assert Chain(functions, from, [root], {});
      } else if !Chain(functions, from, path, {root}) {
        ChainLonger(functions, from, path[0], root, {}, {});
      }
    } else if path[0] == root {
      assert Chain(functions, from, [root], {});
    }
  }

  lemma {:induction false} ChainsJoin(functions: Functions, from: Func, path: seq<string>, more: seq<string>)
    requires Chain(functions, from, path, {}) && path[|path| - 1] in functions
    requires Chain(functions, functions[path[|path| - 1]], more, {})
    ensures Chain(functions, from, path + more, {})
    decreases |path|
  {
    assert (path + more)[1..] == path[1..] + more;
    if |path| > 1 {
      ChainsJoin(functions, functions[path[0]], path[1..], more);
    }
  }

  /** All names over all chains. */
  ghost predicate FindsAll(root: Func, tables: Tables, functions: Functions) {
    forall name :: Dispatches(root, tables, functions, {root.name}, name) <==> Dispatches(root, tables, functions, {}, name)
  }

  /** Whatever has the function's own name, if the search comes back to it, adds nothing. */
  ghost predicate NamesakeAddsNothing(root: Func, tables: Tables, functions: Functions) {
    root.name in functions && Reaches(functions, root, root.name, {}) ==>
      forall name :: Dispatches(functions[root.name], tables, functions, {root.name}, name) ==>
                       Dispatches(root, tables, functions, {root.name}, name)
  }

  lemma FewerAreAll(root: Func, tables: Tables, functions: Functions, avoid: set<string>, name: string)
    requires Dispatches(root, tables, functions, avoid, name)
    ensures Dispatches(root, tables, functions, {}, name)
  {
    if name !in Direct(root.nodes, tables) {
      var f :| f in functions && Reaches(functions, root, f, avoid) && name in Direct(functions[f].nodes, tables);
      var path :| Chain(functions, root, path, avoid) && path[|path| - 1] == f;
      ChainAvoidsLess(functions, root, path, {}, avoid);
    }
  }

  lemma AllAreFewer(root: Func, tables: Tables, functions: Functions, name: string)
    requires NamesakeAddsNothing(root, tables, functions) && Dispatches(root, tables, functions, {}, name)
    ensures Dispatches(root, tables, functions, {root.name}, name)
  {
    if name !in Direct(root.nodes, tables) {
      var f :| f in functions && Reaches(functions, root, f, {}) && name in Direct(functions[f].nodes, tables);
      var path :| Chain(functions, root, path, {}) && path[|path| - 1] == f;
      ChainPast(functions, root.name, root, path);
      if !Chain(functions, root, path, {root.name}) {
        assert Dispatches(functions[root.name], tables, functions, {root.name}, name);
      }
    }
  }

  lemma NamesakeIsOneOfAll(root: Func, tables: Tables, functions: Functions, name: string)
    requires root.name in functions && Reaches(functions, root, root.name, {})
    requires Dispatches(functions[root.name], tables, functions, {root.name}, name)
    ensures Dispatches(root, tables, functions, {}, name)
  {
    if name !in Direct(functions[root.name].nodes, tables) {
      var f :| f in functions && Reaches(functions, functions[root.name], f, {root.name})
               && name in Direct(functions[f].nodes, tables);
      var more :| Chain(functions, functions[root.name], more, {root.name}) && more[|more| - 1] == f;
      var path :| Chain(functions, root, path, {}) && path[|path| - 1] == root.name;
      ChainAvoidsLess(functions, functions[root.name], more, {}, {root.name});
      ChainsJoin(functions, root, path, more);
      assert (path + more)[|path + more| - 1] == f;
    }
  }

  /**
    Those are all the names there are exactly if whatever else has the function's
    name adds none of its own.  It adds none where it is the function itself.
  */
  lemma AllNamesAreFound(root: Func, tables: Tables, functions: Functions)
    ensures FindsAll(root, tables, functions) <==> NamesakeAddsNothing(root, tables, functions)
    ensures (root.name in functions ==> functions[root.name] == root) ==> FindsAll(root, tables, functions)
  {
    forall name
      ensures Dispatches(root, tables, functions, {root.name}, name) ==> Dispatches(root, tables, functions, {}, name)
      ensures NamesakeAddsNothing(root, tables, functions) && Dispatches(root, tables, functions, {}, name) ==>
                Dispatches(root, tables, functions, {root.name}, name)
    {
      if Dispatches(root, tables, functions, {root.name}, name) {
        FewerAreAll(root, tables, functions, {root.name}, name);
      }
      if NamesakeAddsNothing(root, tables, functions) && Dispatches(root, tables, functions, {}, name) {
        AllAreFewer(root, tables, functions, name);
      }
    }
    if FindsAll(root, tables, functions) && root.name in functions && Reaches(functions, root, root.name, {}) {
      forall name | Dispatches(functions[root.name], tables, functions, {root.name}, name)
        ensures Dispatches(root, tables, functions, {root.name}, name)
      {
        NamesakeIsOneOfAll(root, tables, functions, name);
      }
    }
  }

  /** But a nested function is not found under its name; and a helper that has the same name is passed over. */
  lemma NamesakeIsPassedOver(tables: Tables)
    ensures var root := Func("f", [Calls("f", true)]);
            var functions := map["f" := Func("f", [Equals(Some("x"))])];
            Dispatches(root, tables, functions, {}, "x") && !Dispatches(root, tables, functions, {root.name}, "x")
  {
    var root := Func("f", [Calls("f", true)]);
    var functions := map["f" := Func("f", [Equals(Some("x"))])];
    CalleeOfNode(root.nodes, 0, functions);
    assert Chain(functions, root, ["f"], {});
    DirectOneMore([], Equals(Some("x")), tables);
    DirectOneMore([], Calls("f", true), tables);
    assert [] + [Equals(Some("x"))] == functions["f"].nodes && [] + [Calls("f", true)] == root.nodes;
    forall path
      ensures !Chain(functions, root, path, {root.name})
    {
      if path != [] && path[0] != "f" {
        assert Callees(root.nodes, functions) <= functions.Keys == {"f"};
      }
    }
  }

  // -------------------------------------------------------------------------
  // What has changed
  // -------------------------------------------------------------------------

  /** A list of names, in which order and repetition do not count. */
  function SetOf(names: seq<string>): set<string> {
    set name | name in names
  }

  type Keyed = map<string, seq<string>>

  datatype Surface = Surface(
    routes: seq<string>, routeActions: Keyed, netCommand: Keyed, socketio: Keyed,
    debugRoutes: seq<string>, debugFeatures: seq<string>, capabilities: seq<string>)

  datatype Change = Change(added: set<string>, removed: set<string>)

  datatype Row = NewKey(names: set<string>) | GoneKey | ChangedKey(change: Change)

  datatype Report = Report(
    routes: Change, routeActions: map<string, Row>, netCommand: map<string, Row>, socketio: map<string, Row>,
    debugRoutes: Change, debugFeatures: Change, capabilities: Change)

  const NO_CHANGE := Change({}, {})

  predicate SameNames(a: seq<string>, b: seq<string>) {
    SetOf(a) == SetOf(b)
  }

  predicate SameKeyed(a: Keyed, b: Keyed) {
    a.Keys == b.Keys && forall key :: key in a && key in b ==> SameNames(a[key], b[key])
  }

  predicate SameSurface(a: Surface, b: Surface) {
    && SameNames(a.routes, b.routes) && SameKeyed(a.routeActions, b.routeActions)
    && SameKeyed(a.netCommand, b.netCommand) && SameKeyed(a.socketio, b.socketio)
    && SameNames(a.debugRoutes, b.debugRoutes) && SameNames(a.debugFeatures, b.debugFeatures)
    && SameNames(a.capabilities, b.capabilities)
  }

  /** Nothing is removed that was not there, or added that was; and the change leads from the old names to the new. */
  predicate ChangeLeads(was: seq<string>, now: seq<string>, change: Change) {
    && change.removed <= SetOf(was) && change.added !! SetOf(was)
    && SetOf(was) - change.removed + change.added == SetOf(now)
  }

  /** The report on one list says what to add to the old one and what to take away to get the new one. */
  method SetLines(was: seq<string>, now: seq<string>) returns (change: Change)
    ensures change == NO_CHANGE <==> SameNames(was, now)
    ensures ChangeLeads(was, now, change)
  {
    var before, after := SetOf(was), SetOf(now);
    change := Change(after - before, before - after);
  }

  /** The old names of a key, after a row of the report. */
  predicate RowLeads(was: Keyed, now: Keyed, key: string, row: Row) {
    match row
    case NewKey(names) => key !in was && key in now && names == SetOf(now[key])
    case GoneKey => key in was && key !in now
    case ChangedKey(change) => key in was && key in now && change != NO_CHANGE && ChangeLeads(was[key], now[key], change)
  }

  predicate NeedsRow(was: Keyed, now: Keyed, key: string) {
    (key in was || key in now) && (key in was && key in now ==> !SameNames(was[key], now[key]))
  }

  /** One row for each key that differs, and it leads from the old names to the new. */
  method KeyedLines(was: Keyed, now: Keyed) returns (rows: map<string, Row>)
    ensures KeyedLeads(was, now, rows)
    ensures rows == map[] <==> SameKeyed(was, now)
  {
    rows := map[];
    var left := was.Keys + now.Keys;
    while left != {}
      invariant left <= was.Keys + now.Keys
      invariant forall key :: key in rows <==> key !in left && NeedsRow(was, now, key)
      invariant forall key <- rows :: RowLeads(was, now, key, rows[key])
      decreases left
    {
      var key :| key in left;
      left := left - {key};
      if key !in was {
        rows := rows[key := NewKey(SetOf(now[key]))];
      } else if key !in now {
        rows := rows[key := GoneKey];
      } else {
        var change := SetLines(was[key], now[key]);
        if change != NO_CHANGE {
          rows := rows[key := ChangedKey(change)];
        }
      }
    }
    NoRowsNeeded(was, now, rows);
  }

  lemma NoRowsNeeded(was: Keyed, now: Keyed, rows: map<string, Row>)
    requires forall key :: key in rows <==> NeedsRow(was, now, key)
    ensures rows == map[] <==> SameKeyed(was, now)
  {
    if rows == map[] {
      forall key
        ensures (key in was.Keys <==> key in now.Keys) && (key in was && key in now ==> SameNames(was[key], now[key]))
      {
        assert key !in rows;
      }
      assert was.Keys == now.Keys;
    }
    if SameKeyed(was, now) {
      forall key
        ensures key !in rows
      {
        assert key in was.Keys <==> key in now.Keys;
      }
      assert rows == map[];
    }
  }

  ghost predicate KeyedLeads(was: Keyed, now: Keyed, rows: map<string, Row>) {
    && (forall key :: key in rows <==> NeedsRow(was, now, key))
    && (forall key <- rows :: RowLeads(was, now, key, rows[key]))
  }

  /** Every section of the report leads from the old surface to the new. */
  ghost predicate Leads(was: Surface, now: Surface, report: Report) {
    && ChangeLeads(was.routes, now.routes, report.routes)
    && KeyedLeads(was.routeActions, now.routeActions, report.routeActions)
    && KeyedLeads(was.netCommand, now.netCommand, report.netCommand)
    && KeyedLeads(was.socketio, now.socketio, report.socketio)
    && ChangeLeads(was.debugRoutes, now.debugRoutes, report.debugRoutes)
    && ChangeLeads(was.debugFeatures, now.debugFeatures, report.debugFeatures)
    && ChangeLeads(was.capabilities, now.capabilities, report.capabilities)
  }

  /** There is a report exactly if something differs, section by section and key by key. */
  method Diff(was: Surface, now: Surface) returns (report: Option<Report>)
    ensures report == None <==> SameSurface(was, now)
    ensures report.Some? ==> Leads(was, now, report.value)
  {
    var routes := SetLines(was.routes, now.routes);
    var routeActions := KeyedLines(was.routeActions, now.routeActions);
    var netCommand := KeyedLines(was.netCommand, now.netCommand);
    var socketio := KeyedLines(was.socketio, now.socketio);
    var debugRoutes := SetLines(was.debugRoutes, now.debugRoutes);
    var debugFeatures := SetLines(was.debugFeatures, now.debugFeatures);
    var capabilities := SetLines(was.capabilities, now.capabilities);
    var all := Report(routes, routeActions, netCommand, socketio, debugRoutes, debugFeatures, capabilities);
    report := if all == Report(NO_CHANGE, map[], map[], map[], NO_CHANGE, NO_CHANGE, NO_CHANGE) then None else Some(all);
  }
}
