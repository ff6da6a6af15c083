/** How the simulator of src/components/AutomatonSimulator.tsx prepares its own copy of
    the canvas: every node id, and every edge's id, source and target, gets the suffix
    "-sim", and the schematic is rebuilt from the renamed graph. The start marker then
    becomes "initialNode-sim", which the builder no longer drops; the lemmas here show
    what that changes and what it does not. */
module SimRenaming {
  import opened Types
  import opened Flow
  import opened Automaton
  import opened Acceptance

  /** The suffix the simulator appends to every id. */
  const Sim: string := "-sim"

  function SimId(id: string): string
  {
    id + Sim
  }

  function RenameNode(n: Node): Node
  {
    n.(id := SimId(n.id))
  }

  function RenameEdge(e: Edge): Edge
  {
    e.(id := SimId(e.id), source := SimId(e.source), target := SimId(e.target))
  }

  /** Every node renamed, in place in the list, with nothing but its id changed. */
  function RenameNodes(nodes: seq<Node>): (r: seq<Node>)
    ensures |r| == |nodes|
    ensures forall i :: 0 <= i < |nodes| ==> r[i].id == nodes[i].id + "-sim" && r[i].(id := nodes[i].id) == nodes[i]
  {
    seq(|nodes|, i requires 0 <= i < |nodes| => RenameNode(nodes[i]))
  }

  /** Every edge renamed, in place in the list, with its id and both endpoints suffixed
      and nothing else changed. */
  function RenameEdges(edges: seq<Edge>): (r: seq<Edge>)
    ensures |r| == |edges|
    ensures forall i :: 0 <= i < |edges| ==>
              && r[i].id == edges[i].id + "-sim"
              && r[i].source == edges[i].source + "-sim"
              && r[i].target == edges[i].target + "-sim"
              && r[i].(id := edges[i].id, source := edges[i].source, target := edges[i].target) == edges[i]
  {
    seq(|edges|, i requires 0 <= i < |edges| => RenameEdge(edges[i]))
  }

  // ---------------------------------------------------------------------------
  // The suffix
  // ---------------------------------------------------------------------------

  /** Appending the suffix is injective, so renamed ids match exactly when the
      originals did. */
  lemma SimIdInjective(x: string, y: string)
    ensures SimId(x) == SimId(y) <==> x == y
  {
    if SimId(x) == SimId(y) {
      assert x == SimId(x)[..|x|];
      assert y == SimId(y)[..|y|];
    }
  }

  /** No renamed id is the start marker's id, and none is empty. */
  lemma SimIdNotMarker(x: string)
    ensures SimId(x) != InitialNodeId
    ensures SimId(x) != ""
  {
    assert SimId(x)[|SimId(x)| - 1] == 'm';
    assert InitialNodeId[|InitialNodeId| - 1] == 'e';
  }

  // ---------------------------------------------------------------------------
  // Renaming a schematic
  // ---------------------------------------------------------------------------

  function RenameTransition(t: TransitionSchematic): TransitionSchematic
  {
    t.(target := SimId(t.target))
  }

  function RenameTransitions(ts: seq<TransitionSchematic>): seq<TransitionSchematic>
  {
    seq(|ts|, i requires 0 <= i < |ts| => RenameTransition(ts[i]))
  }

  function RenameState(s: StateSchematic): StateSchematic
  {
    StateSchematic(SimId(s.id), s.isAccepting, s.isStarting, RenameTransitions(s.transitions))
  }

  function RenameStates(states: seq<StateSchematic>): seq<StateSchematic>
  {
    seq(|states|, i requires 0 <= i < |states| => RenameState(states[i]))
  }

  function RenameSchematic(a: AutomatonSchematic): AutomatonSchematic
  {
    AutomatonSchematic(RenameStates(a.states))
  }

  /** One state per node, the start marker included: what the builder would make if it
      dropped nothing. */
  function AllStates(nodes: seq<Node>, edges: seq<Edge>): seq<StateSchematic>
  {
    seq(|nodes|, i requires 0 <= i < |nodes| => StateOf(nodes[i], edges))
  }

  /** A renamed state collects the renamed versions of the original's transitions. */
  lemma {:induction false} RenamedTransitions(id: string, edges: seq<Edge>)
    ensures TransitionsFrom(SimId(id), RenameEdges(edges)) == RenameTransitions(TransitionsFrom(id, edges))
    decreases |edges|
  {
    if |edges| > 0 {
      var n := |edges|;
      var init := edges[..n - 1];
      RenamedTransitions(id, init);
      assert RenameEdges(edges)[..n - 1] == RenameEdges(init);
      SimIdInjective(edges[n - 1].source, id);
      var tail := if edges[n - 1].source == id then [EdgeTransition(edges[n - 1])] else [];
      assert RenameTransitions(TransitionsFrom(id, init) + tail)
          == RenameTransitions(TransitionsFrom(id, init)) + RenameTransitions(tail);
    }
  }

  /** The builder run on the renamed graph keeps every node, the start marker included
      (as "initialNode-sim"), and gives the renamed version of each node's state. */
  lemma RenamedBuild(nodes: seq<Node>, edges: seq<Edge>)
    ensures BuildStates(RenameNodes(nodes), RenameEdges(edges)) == RenameStates(AllStates(nodes, edges))
  {
    var rn, re := RenameNodes(nodes), RenameEdges(edges);
    forall i | 0 <= i < |rn| ensures rn[i].id != InitialNodeId {
      SimIdNotMarker(nodes[i].id);
    }
    BuildStatesWithoutMarker(rn, re);
    forall i | 0 <= i < |nodes| ensures StateOf(rn[i], re) == RenameState(StateOf(nodes[i], edges)) {
      RenamedTransitions(nodes[i].id, edges);
    }
  }

  /** The builder drops the one start marker of the original graph, but keeps it in
      the renamed graph, where it is the state "initialNode-sim". */
  lemma MarkerSurvivesRenaming(nodes: seq<Node>, edges: seq<Edge>, m: nat)
    requires m < |nodes| && nodes[m].id == InitialNodeId
    ensures |BuildStates(nodes, edges)| < |nodes|
    ensures |BuildStates(RenameNodes(nodes), RenameEdges(edges))| == |nodes|
    ensures BuildStates(RenameNodes(nodes), RenameEdges(edges))[m].id == "initialNode-sim"
  {
    RenamedBuild(nodes, edges);
    BuildStatesDropsOne(nodes, edges, m);
  }

  /** The state list around one start marker. */
  lemma BuildStatesDropsOne(nodes: seq<Node>, edges: seq<Edge>, m: nat)
    requires m < |nodes| && nodes[m].id == InitialNodeId
    ensures BuildStates(nodes, edges) == BuildStates(nodes[..m], edges) + BuildStates(nodes[m + 1..], edges)
  {
    assert nodes == nodes[..m] + ([nodes[m]] + nodes[m + 1..]);
    BuildStatesAppend(nodes[..m], [nodes[m]] + nodes[m + 1..], edges);
    BuildStatesCons(nodes[m], nodes[m + 1..], edges);
  }

  /** With a single start marker at `m`, the builder's states are all the nodes' states
      but the marker's. */
  lemma BuildStatesSkipsMarker(nodes: seq<Node>, edges: seq<Edge>, m: nat)
    requires m < |nodes| && nodes[m].id == InitialNodeId
    requires forall i :: 0 <= i < |nodes| && i != m ==> nodes[i].id != InitialNodeId
    ensures BuildStates(nodes, edges) == RemoveState(AllStates(nodes, edges), m)
  {
    var all := AllStates(nodes, edges);
    BuildStatesDropsOne(nodes, edges, m);
    BuildStatesWithoutMarker(nodes[..m], edges);
    BuildStatesWithoutMarker(nodes[m + 1..], edges);
    assert BuildStates(nodes[..m], edges) == all[..m];
    assert BuildStates(nodes[m + 1..], edges) == all[m + 1..];
  }

  // ---------------------------------------------------------------------------
  // Renaming keeps every verdict
  // ---------------------------------------------------------------------------

  /** Looking up a renamed id in the renamed states finds the renamed state. */
  lemma RenamedLookup(states: seq<StateSchematic>, q: string)
    ensures StateIndex(RenameStates(states), SimId(q)) == StateIndex(states, q)
  {
    var rs := RenameStates(states);
    forall i | 0 <= i < |states| ensures rs[i].id == SimId(q) <==> states[i].id == q {
      SimIdInjective(states[i].id, q);
    }
  }

  /** Renaming keeps every transition's symbols, so the first match keeps its place. */
  lemma RenamedTransitionLookup(ts: seq<TransitionSchematic>, symbol: string)
    ensures TransitionIndex(RenameTransitions(ts), symbol) == TransitionIndex(ts, symbol)
  {
    var rts := RenameTransitions(ts);
    assert forall i :: 0 <= i < |ts| ==> rts[i].symbols == ts[i].symbols;
  }

  /** The renamed schematic gives from a renamed state the verdict the original gives
      from the original state. */
  lemma {:induction false} RenamedVerdict(a: AutomatonSchematic, input: string, q: string)
    ensures RenameSchematic(a).VerifyInputString(input, SimId(q)) == a.VerifyInputString(input, q)
    decreases |input|
  {
    var b := RenameSchematic(a);
    RenamedLookup(a.states, q);
    var k := StateIndex(a.states, q);
    if k < |a.states| && |input| > 0 {
      var s := a.states[k];
      assert b.GetStateSchematic(SimId(q)) == Some(RenameState(s));
      RenamedTransitionLookup(s.transitions, input[..1]);
      var j := TransitionIndex(s.transitions, input[..1]);
      if j < |s.transitions| {
        assert b.GetStateTransition(input[..1], RenameState(s)) == Some(RenameTransition(s.transitions[j]));
        RenamedVerdict(a, input[1..], s.transitions[j].target);
      }
    }
  }

  /** The renamed schematic starts from the renamed starting state, or from "" when
      there is none. */
  lemma RenamedInitialState(a: AutomatonSchematic)
    ensures (exists s :: s in a.states && s.isStarting) ==>
              RenameSchematic(a).GetInitialState() == SimId(a.GetInitialState())
    ensures (forall s :: s in a.states ==> !s.isStarting) ==> RenameSchematic(a).GetInitialState() == ""
  {
    var rs := RenameStates(a.states);
    assert forall i :: 0 <= i < |rs| ==> rs[i].isStarting == a.states[i].isStarting;
    assert StartingIndex(rs) == StartingIndex(a.states);
  }

  /** The simulator's verdict is the editor's verdict: for a graph with at most one
      start marker, which is not starting and which no edge enters, and no node with an
      empty id, the schematic built from the renamed graph accepts exactly the inputs
      the schematic built from the graph itself accepts, each from its initial state. */
  lemma SimulationKeepsVerdict(nodes: seq<Node>, edges: seq<Edge>, input: string)
    requires forall i, j :: 0 <= i < j < |nodes| && nodes[i].id == InitialNodeId ==> nodes[j].id != InitialNodeId
    requires forall i :: 0 <= i < |nodes| && nodes[i].id == InitialNodeId ==> !nodes[i].isStarting
    requires forall i :: 0 <= i < |edges| ==> edges[i].target != InitialNodeId
    requires forall i :: 0 <= i < |nodes| ==> nodes[i].id != ""
    ensures var sim := AutomatonSchematic(BuildStates(RenameNodes(nodes), RenameEdges(edges)));
            var ed := AutomatonSchematic(BuildStates(nodes, edges));
            sim.VerifyInputString(input, sim.GetInitialState()) == ed.VerifyInputString(input, ed.GetInitialState())
  {
    RenamedBuild(nodes, edges);
    if m :| 0 <= m < |nodes| && nodes[m].id == InitialNodeId {
      VerdictAroundMarker(nodes, edges, input, m);
    } else {
      VerdictWithoutMarker(nodes, edges, input);
    }
  }

  /** The case of SimulationKeepsVerdict where the graph has no start marker. */
  lemma VerdictWithoutMarker(nodes: seq<Node>, edges: seq<Edge>, input: string)
    requires forall i :: 0 <= i < |nodes| ==> nodes[i].id != InitialNodeId
    requires forall i :: 0 <= i < |nodes| ==> nodes[i].id != ""
    ensures var all := AutomatonSchematic(AllStates(nodes, edges));
            var ed := AutomatonSchematic(BuildStates(nodes, edges));
            RenameSchematic(all).VerifyInputString(input, RenameSchematic(all).GetInitialState())
              == ed.VerifyInputString(input, ed.GetInitialState())
  {
    BuildStatesWithoutMarker(nodes, edges);
    var all := AutomatonSchematic(AllStates(nodes, edges));
    assert BuildStates(nodes, edges) == all.states;
    RenamedInitialState(all);
    if exists s :: s in all.states && s.isStarting {
      RenamedVerdict(all, input, all.GetInitialState());
    } else {
      SimStatesNamed(all);
    }
  }

  /** The case of SimulationKeepsVerdict where the graph has its start marker at `m`. */
  lemma VerdictAroundMarker(nodes: seq<Node>, edges: seq<Edge>, input: string, m: nat)
    requires m < |nodes| && nodes[m].id == InitialNodeId && !nodes[m].isStarting
    requires forall i :: 0 <= i < |nodes| && i != m ==> nodes[i].id != InitialNodeId
    requires forall i :: 0 <= i < |edges| ==> edges[i].target != InitialNodeId
    requires forall i :: 0 <= i < |nodes| ==> nodes[i].id != ""
    ensures var all := AutomatonSchematic(AllStates(nodes, edges));
            var ed := AutomatonSchematic(BuildStates(nodes, edges));
            RenameSchematic(all).VerifyInputString(input, RenameSchematic(all).GetInitialState())
              == ed.VerifyInputString(input, ed.GetInitialState())
  {
    var all := AutomatonSchematic(AllStates(nodes, edges));
    var ed := AutomatonSchematic(BuildStates(nodes, edges));
    BuildStatesSkipsMarker(nodes, edges, m);
    RemoveNonStartingKeepsInitial(all.states, m);
    RenamedInitialState(all);
    var q := all.GetInitialState();
    if exists s :: s in all.states && s.isStarting {
      var k := StartingIndex(all.states);
      assert k != m && q == nodes[k].id;
      RenamedVerdict(all, input, q);
      NoEdgeEntersMarker(nodes, edges, m);
      UnreachableStateIrrelevant(all, m, input, q);
    } else {
      SimStatesNamed(all);
      assert forall s :: s in ed.states ==> s in all.states;
      assert forall i :: 0 <= i < |all.states| ==> all.states[i].id != "";
    }
  }

  /** No state's transition leads to the start marker when no edge enters it. */
  lemma NoEdgeEntersMarker(nodes: seq<Node>, edges: seq<Edge>, m: nat)
    requires m < |nodes| && nodes[m].id == InitialNodeId
    requires forall i :: 0 <= i < |edges| ==> edges[i].target != InitialNodeId
    ensures var states := AllStates(nodes, edges);
            forall i, t :: 0 <= i < |states| && i != m && t in states[i].transitions ==>
              t.target != states[m].id
  {
    var states := AllStates(nodes, edges);
    forall i, t | 0 <= i < |states| && i != m && t in states[i].transitions
      ensures t.target != states[m].id
    {
      TransitionsFromMembers(nodes[i].id, edges, t);
    }
  }

  /** Every state of a renamed schematic has a non-empty id. */
  lemma SimStatesNamed(a: AutomatonSchematic)
    ensures forall s :: s in RenameSchematic(a).states ==> s.id != ""
  {
    forall s | s in RenameSchematic(a).states ensures s.id != "" {
      var i :| 0 <= i < |a.states| && RenameSchematic(a).states[i] == s;
      SimIdNotMarker(a.states[i].id);
    }
  }
}
