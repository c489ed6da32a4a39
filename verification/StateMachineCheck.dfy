/** The contract check. */
module StateMachineCheck {
  // The check of the publisher's state-machine contract and its error tables.

  import opened Sets

  type Name = string

  datatype Edge = Edge(source: Name, target: Name)

  /** `states` says of each state whether it is terminal. */
  datatype Machine = Machine(states: map<Name, bool>, initial: Name, transitions: seq<Edge>)

  datatype Tables = Tables(exitCodes: map<int, Name>, taxonomy: map<Name, int>)

  datatype Verdict =
    | Pass | InitialMissing | InvalidTransition | UnreachableStates | TerminalLeaves
    | DuplicateSymbols | UnknownExitCode | SymbolMismatch

  // --------------------------------------------------------------- reachability

  predicate IsPath(edges: seq<Edge>, path: seq<Name>, from: Name, to: Name) {
    && path != [] && path[0] == from && path[|path| - 1] == to
    && forall i | 0 <= i < |path| - 1 :: Edge(path[i], path[i + 1]) in edges
  }

  ghost predicate Reaches(edges: seq<Edge>, from: Name, to: Name) {
    exists path :: IsPath(edges, path, from, to)
  }

  ghost predicate Closed(edges: seq<Edge>, s: set<Name>) {
    forall e | e in edges && e.source in s :: e.target in s
  }

  lemma OneStep(edges: seq<Edge>, from: Name, mid: Name, to: Name)
    requires Reaches(edges, from, mid) && Edge(mid, to) in edges
    ensures Reaches(edges, from, to)
  {
    var path :| IsPath(edges, path, from, mid);
    var longer := path + [to];
    forall i | 0 <= i < |longer| - 1 ensures Edge(longer[i], longer[i + 1]) in edges {
      if i == |path| - 1 {
        assert longer[i] == mid && longer[i + 1] == to;
      }
    }
    assert IsPath(edges, longer, from, to);
  }

  lemma Start(edges: seq<Edge>, from: Name)
    ensures Reaches(edges, from, from)
  {
    assert IsPath(edges, [from], from, from);
  }

  /** A set of states that no edge leaves holds every state reachable from its members. */
  lemma {:induction false} ClosedHoldsPath(edges: seq<Edge>, s: set<Name>, path: seq<Name>, from: Name, to: Name)
    requires Closed(edges, s) && from in s && IsPath(edges, path, from, to)
    ensures to in s
    decreases |path|
  {
    if |path| > 1 {
      assert Edge(path[0], path[1]) in edges;
      forall i | 0 <= i < |path| - 2 ensures Edge(path[1..][i], path[1..][i + 1]) in edges {
        assert Edge(path[i + 1], path[i + 2]) in edges;
      }
      ClosedHoldsPath(edges, s, path[1..], path[1], to);
    }
  }

  ghost predicate WithinStates(m: Machine) {
    && m.initial in m.states
    && forall e | e in m.transitions :: e.source in m.states && e.target in m.states
  }

  /** The successor sets, one entry per state. */
  ghost predicate IsGraph(m: Machine, graph: map<Name, set<Name>>) {
    && graph.Keys == m.states.Keys
    && forall a, b | a in graph :: b in graph[a] <==> Edge(a, b) in m.transitions
  }

  method Graph(m: Machine) returns (graph: map<Name, set<Name>>, ok: bool)
    ensures ok <==> forall e | e in m.transitions :: e.source in m.states && e.target in m.states
    ensures ok ==> IsGraph(m, graph)
  {
    graph := map name | name in m.states :: {};
    ok := true;
    for i := 0 to |m.transitions|
      invariant ok && graph.Keys == m.states.Keys
      invariant forall e | e in m.transitions[..i] :: e.source in m.states && e.target in m.states
      invariant forall a, b | a in graph :: b in graph[a] <==> Edge(a, b) in m.transitions[..i]
    {
      var e := m.transitions[i];
      assert m.transitions[..i + 1] == m.transitions[..i] + [e];
      if e.source !in m.states || e.target !in m.states {
        assert e in m.transitions;
        ok := false;
        return;
      }
      graph := graph[e.source := graph[e.source] + {e.target}];
    }
    assert m.transitions[..|m.transitions|] == m.transitions;
  }

  /** Found so far: all of it reachable, and every edge out of it leads back into it, except for what
      still waits in the queue. */
  ghost predicate SearchFits(m: Machine, reached: set<Name>, queue: seq<Name>) {
    && m.initial in reached && reached <= m.states.Keys
    && (forall s | s in reached :: Reaches(m.transitions, m.initial, s))
    && (forall s | s in queue :: s in reached)
    && forall e | e in m.transitions && e.source in reached && e.source !in queue :: e.target in reached
  }

  /** Breadth-first search from the initial state. */
  method Search(m: Machine, graph: map<Name, set<Name>>) returns (reached: set<Name>)
    requires WithinStates(m) && IsGraph(m, graph)
    ensures forall s :: s in reached <==> Reaches(m.transitions, m.initial, s)
  {
    reached := {m.initial};
    var queue := [m.initial];
    Start(m.transitions, m.initial);
    while queue != []
      invariant SearchFits(m, reached, queue)
      decreases |m.states.Keys - reached|, |queue|
    {
      var current := queue[0];
      reached, queue := Expand(m, graph, current, reached, queue);
    }
    ReachedExactly(m, reached);
  }

  lemma ReachedExactly(m: Machine, reached: set<Name>)
    requires SearchFits(m, reached, [])
    ensures forall s :: s in reached <==> Reaches(m.transitions, m.initial, s)
  {
    forall s | Reaches(m.transitions, m.initial, s) ensures s in reached {
      var path :| IsPath(m.transitions, path, m.initial, s);
      ClosedHoldsPath(m.transitions, reached, path, m.initial, s);
    }
  }

  /** While one state is expanded: what was added to the states found is also waiting. */
  ghost predicate Growing(m: Machine, reached: set<Name>, tail: seq<Name>, after: set<Name>, left: seq<Name>) {
    && reached <= after <= m.states.Keys
    && (forall s | s in after :: Reaches(m.transitions, m.initial, s))
    && (forall s | s in left :: s in after)
    && (forall s | s in tail :: s in left)
    && (forall s | s in after && s !in reached :: s in left)
    && (after == reached ==> left == tail)
  }

  lemma GrowOne(
    m: Machine, reached: set<Name>, tail: seq<Name>, after: set<Name>, left: seq<Name>, current: Name, target: Name)
    requires Growing(m, reached, tail, after, left) && target !in after && target in m.states
    requires Reaches(m.transitions, m.initial, current) && Edge(current, target) in m.transitions
    ensures Growing(m, reached, tail, after + {target}, left + [target])
  {
    OneStep(m.transitions, m.initial, current, target);
  }

  /** Takes the first state off the queue and puts its new successors at the end. */
  method Expand(m: Machine, graph: map<Name, set<Name>>, current: Name, reached: set<Name>, queue: seq<Name>)
    returns (after: set<Name>, left: seq<Name>)
    requires WithinStates(m) && IsGraph(m, graph) && queue != [] && current == queue[0]
    requires SearchFits(m, reached, queue)
    ensures SearchFits(m, after, left)
    ensures |m.states.Keys - after| < |m.states.Keys - reached| || (after == reached && |left| < |queue|)
  {
    after, left := reached, queue[1..];
    var targets := graph[current];
    while targets != {}
      invariant targets <= graph[current] <= after + targets
      invariant Growing(m, reached, queue[1..], after, left)
      decreases |targets|
    {
      var target :| target in targets;
      targets := targets - {target};
      assert Edge(current, target) in m.transitions;
      if target !in after {
        GrowOne(m, reached, queue[1..], after, left, current, target);
        after, left := after + {target}, left + [target];
      }
    }
    ExpandFits(m, graph, current, reached, queue, after, left);
    if after != reached {
      Smaller(m.states.Keys, reached, after);
    }
  }

  /** The invariant after one state was expanded: a state off the queue is the one just expanded or was
      off it before. */
  lemma ExpandFits(
    m: Machine, graph: map<Name, set<Name>>, current: Name, reached: set<Name>, queue: seq<Name>,
    after: set<Name>, left: seq<Name>)
    requires IsGraph(m, graph) && queue != [] && current == queue[0] && SearchFits(m, reached, queue)
    requires Growing(m, reached, queue[1..], after, left) && graph[current] <= after
    ensures SearchFits(m, after, left)
  {
    forall e | e in m.transitions && e.source in after && e.source !in left ensures e.target in after {
      assert e == Edge(e.source, e.target);
      if e.source != current {
        assert queue == [current] + queue[1..];
        assert e.source in reached && e.source !in queue;
      }
    }
  }

  lemma Smaller(all: set<Name>, a: set<Name>, b: set<Name>)
    requires a < b <= all
    ensures |all - b| < |all - a|
  {
    var x :| x in b && x !in a;
    assert x in all - a && x !in all - b;
    assert all - b <= (all - a) - {x};
    SubsetSize(all - b, (all - a) - {x});
  }

  // --------------------------------------------------------------- the whole check

  ghost predicate AllReachable(m: Machine) {
    forall s :: s in m.states <==> Reaches(m.transitions, m.initial, s)
  }

  ghost predicate TerminalsEnd(m: Machine) {
    forall e | e in m.transitions && e.source in m.states :: !m.states[e.source]
  }

  ghost predicate OneSymbolEach(t: Tables) {
    forall a, b | a in t.exitCodes && b in t.exitCodes && t.exitCodes[a] == t.exitCodes[b] :: a == b
  }

  ghost predicate TablesAgree(t: Tables) {
    forall code | code in t.taxonomy ::
      t.taxonomy[code] in t.exitCodes && t.exitCodes[t.taxonomy[code]] == code
  }

  /** An error of the taxonomy whose exit code the second table lacks, or gives to another error. */
  ghost predicate NoExitCode(t: Tables, code: Name) {
    code in t.taxonomy && t.taxonomy[code] !in t.exitCodes
  }

  ghost predicate LeadsElsewhere(t: Tables, code: Name) {
    code in t.taxonomy && t.taxonomy[code] in t.exitCodes && t.exitCodes[t.taxonomy[code]] != code
  }

  /** What is checked of the machine itself, before the two tables. */
  ghost predicate MachineHolds(m: Machine) {
    WithinStates(m) && AllReachable(m) && TerminalsEnd(m)
  }

  method TerminalLeft(m: Machine, graph: map<Name, set<Name>>) returns (left: bool)
    requires IsGraph(m, graph)
    ensures left <==> !TerminalsEnd(m)
  {
    var names := m.states.Keys;
    left := false;
    while names != {}
      invariant names <= m.states.Keys && !left
      invariant forall s | s in m.states && s !in names && m.states[s] :: graph[s] == {}
      decreases |names|
    {
      var name :| name in names;
      names := names - {name};
      if m.states[name] && graph[name] != {} {
        var to :| to in graph[name];
        assert Edge(name, to) in m.transitions;
        left := true;
        return;
      }
    }
    forall e | e in m.transitions && e.source in m.states ensures !m.states[e.source] {
      assert e == Edge(e.source, e.target);
      assert e.target in graph[e.source];
    }
  }

  /** len(set(values)) against len(dict). */
  method DuplicateSymbol(exitCodes: map<int, Name>) returns (duplicate: bool)
    ensures duplicate <==>
      exists a, b :: a in exitCodes && b in exitCodes && a != b && exitCodes[a] == exitCodes[b]
  {
    duplicate := |exitCodes.Values| != |exitCodes|;
    ValuesSize(exitCodes);
  }

  lemma AnyKey<K>(m: map<K, Name>) returns (k: K)
    requires m.Keys != {}
    ensures k in m
  {
    k :| k in m.Keys;
  }

  lemma KeyOf<K>(m: map<K, Name>, v: Name) returns (k: K)
    requires v in m.Values
    ensures k in m && m[k] == v
  {
    k :| k in m && m[k] == v;
  }

  lemma {:induction false} ValuesSize(m: map<int, Name>)
    ensures |m.Values| <= |m|
    ensures |m.Values| < |m| <==> exists a, b :: a in m && b in m && a != b && m[a] == m[b]
    decreases |m|
  {
    if m.Keys == {} {
      assert m == map[] && m.Values == {};
    } else {
      var k := AnyKey(m);
      var rest := m - {k};
      ValuesSize(rest);
      assert m == rest[k := m[k]] && |m| == |rest| + 1;
      assert m.Values == rest.Values + {m[k]};
      if m[k] in rest.Values {
        var a := KeyOf(rest, m[k]);
        assert a in m && a != k && m[a] == m[k];
      } else {
        forall a | a in rest ensures m[a] != m[k] {
          assert rest[a] in rest.Values;
        }
      }
    }
  }

  method CompareTables(t: Tables) returns (v: Verdict)
    ensures v == Pass <==> TablesAgree(t)
    ensures v == Pass || v == UnknownExitCode || v == SymbolMismatch
    ensures v == UnknownExitCode ==> exists code :: NoExitCode(t, code)
    ensures v == SymbolMismatch ==> exists code :: LeadsElsewhere(t, code)
  {
    var codes := t.taxonomy.Keys;
    while codes != {}
      invariant codes <= t.taxonomy.Keys
      invariant forall c | c in t.taxonomy && c !in codes ::
        t.taxonomy[c] in t.exitCodes && t.exitCodes[t.taxonomy[c]] == c
      decreases |codes|
    {
      var code :| code in codes;
      codes := codes - {code};
      if t.taxonomy[code] !in t.exitCodes {
        assert NoExitCode(t, code);
        return UnknownExitCode;
      }
      if t.exitCodes[t.taxonomy[code]] != code {
        assert LeadsElsewhere(t, code);
        return SymbolMismatch;
      }
    }
    v := Pass;
  }

  ghost predicate Acceptable(m: Machine, t: Tables) {
    MachineHolds(m) && OneSymbolEach(t) && TablesAgree(t)
  }

  /** The checks in the order the code makes them; the verdict names the first that fails. */
  method Validate(m: Machine, t: Tables) returns (v: Verdict)
    ensures v == Pass <==> Acceptable(m, t)
    ensures v == InitialMissing <==> m.initial !in m.states
    ensures v == InvalidTransition <==> m.initial in m.states && !WithinStates(m)
    ensures v == UnreachableStates <==> WithinStates(m) && !AllReachable(m)
    ensures v == TerminalLeaves <==> WithinStates(m) && AllReachable(m) && !TerminalsEnd(m)
    ensures v == DuplicateSymbols <==> MachineHolds(m) && !OneSymbolEach(t)
    ensures v == UnknownExitCode || v == SymbolMismatch <==>
      MachineHolds(m) && OneSymbolEach(t) && !TablesAgree(t)
    ensures v == UnknownExitCode ==> exists code :: NoExitCode(t, code)
    ensures v == SymbolMismatch ==> exists code :: LeadsElsewhere(t, code)
  {
    if m.initial !in m.states {
      return InitialMissing;
    }
    var graph, ok := Graph(m);
    if !ok {
      return InvalidTransition;
    }
    var reached := Search(m, graph);
    if reached != m.states.Keys {
      assert exists s :: (s in reached) != (s in m.states);
      return UnreachableStates;
    }
    var left := TerminalLeft(m, graph);
    if left {
      return TerminalLeaves;
    }
    var duplicate := DuplicateSymbol(t.exitCodes);
    if duplicate {
      return DuplicateSymbols;
    }
    v := CompareTables(t);
  }

  // -------------------------------------------------------------- what a pass means

  /** A run of an accepted machine never leaves its states, and stops at a terminal one for good. */
  lemma {:induction false} RunsStayInside(m: Machine, t: Tables, path: seq<Name>, to: Name)
    requires Acceptable(m, t) && IsPath(m.transitions, path, m.initial, to)
    ensures forall i | 0 <= i < |path| :: path[i] in m.states
    ensures forall i | 0 <= i < |path| - 1 :: path[i] in m.states && !m.states[path[i]]
  {
    forall i | 0 <= i < |path| ensures path[i] in m.states {
      if i > 0 {
        assert Edge(path[i - 1], path[i]) in m.transitions;
      }
    }
    forall i | 0 <= i < |path| - 1 ensures path[i] in m.states && !m.states[path[i]] {
      assert Edge(path[i], path[i + 1]) in m.transitions;
    }
  }

  /** Distinct errors have distinct exit codes, and an exit code leads back to its error. */
  lemma ExitCodesIdentifyErrors(m: Machine, t: Tables, a: Name, b: Name)
    requires Acceptable(m, t) && a in t.taxonomy && b in t.taxonomy
    ensures t.taxonomy[a] == t.taxonomy[b] <==> a == b
    ensures t.exitCodes[t.taxonomy[a]] == a
  {
  }
}
