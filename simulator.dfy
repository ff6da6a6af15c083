/** The playback component of src/components/AutomatonSimulator.tsx: a cursor over a
    run's path that steps forwards and backwards while the play flag is set, painting
    the occupied node and animating the edge taken. */
module Simulator {
  import opened Types
  import opened Flow
  import opened Automaton
  import opened SimRenaming

  /** The component's current run: the schematic, the verdict with its path (the
      source's `witness`), the cursor, and the states and symbols already passed. */
  datatype AnimationState = AnimationState(
    automaton: AutomatonSchematic,
    outcome: Witness,
    index: nat,
    pastStates: seq<string>,
    pastSymbols: seq<string>)

  // ---------------------------------------------------------------------------
  // The colour rule
  // ---------------------------------------------------------------------------

  /** The background a node gets when the cursor is at `index`: transparent when
      resetting, otherwise green or red on the last step depending on whether the state
      accepts what is left there, and light blue before it. */
  function NodeColor(a: AutomatonSchematic, path: seq<Step>, index: nat, state: StateSchematic, reset: bool): (color: string)
    requires index < |path|
    ensures color == "transparent" <==> reset
    ensures color == "lightblue" <==> !reset && index < |path| - 1
    ensures color == "green" <==> !reset && index == |path| - 1 && path[index].symbol == "" && state.isAccepting
    ensures color == "red" <==> !reset && index == |path| - 1 && (path[index].symbol != "" || !state.isAccepting)
  {
    var color := if index == |path| - 1 then
                   (if a.StateAcceptsInput(path[index].symbol, state) then "green" else "red")
                 else "lightblue";
    if reset then "transparent" else color
  }

  /** On the step's own state, the last node turns green exactly when the schematic
      accepts the step's remaining input from there and that input is empty. */
  lemma GreenIffAccepted(a: AutomatonSchematic, path: seq<Step>, index: nat, reset: bool)
    requires index < |path| && a.GetStateSchematic(path[index].state).Some?
    ensures var s := a.GetStateSchematic(path[index].state).value;
            NodeColor(a, path, index, s, reset) == "green" <==>
              !reset && index == |path| - 1 && path[index].symbol == "" &&
              a.VerifyInputString(path[index].symbol, path[index].state)
  {
  }

  // ---------------------------------------------------------------------------
  // Painting nodes and animating edges
  // ---------------------------------------------------------------------------

  function PaintNode(n: Node, id: string, color: string): Node
  {
    if n.id == id then n.(background := Some(color)) else n
  }

  /** The nodes with the one whose id is `id` given the background `color`. */
  function PaintNodes(nodes: seq<Node>, id: string, color: string): (r: seq<Node>)
    ensures |r| == |nodes|
    ensures forall i :: 0 <= i < |nodes| ==>
              && r[i].id == nodes[i].id
              && r[i].isStarting == nodes[i].isStarting
              && r[i].isAccepting == nodes[i].isAccepting
              && (nodes[i].id == id ==> r[i].background == Some(color))
              && (nodes[i].id != id ==> r[i] == nodes[i])
  {
    seq(|nodes|, i requires 0 <= i < |nodes| => PaintNode(nodes[i], id, color))
  }

  function AnimateEdge(e: Edge, id: string, on: bool): Edge
  {
    if e.id == id then e.(animated := on) else e
  }

  /** The edges with the one whose id is `id` animated or stopped. */
  function AnimateEdges(edges: seq<Edge>, id: string, on: bool): (r: seq<Edge>)
    ensures |r| == |edges|
    ensures forall i :: 0 <= i < |edges| ==>
              && r[i] == edges[i].(animated := r[i].animated)
              && (edges[i].id == id ==> r[i].animated == on)
              && (edges[i].id != id ==> r[i] == edges[i])
  {
    seq(|edges|, i requires 0 <= i < |edges| => AnimateEdge(edges[i], id, on))
  }

  /** What colouring the node of step `index` does to `nodes`: nothing without a run or
      when the step's state is unknown, otherwise paint that state's node. */
  function ColorNodeEffect(nodes: seq<Node>, current: Option<AnimationState>, index: nat, reset: bool): seq<Node>
    requires current.Some? ==> index < |current.value.outcome.path|
  {
    match current
    case None => nodes
    case Some(c) =>
      var step := c.outcome.path[index];
      match c.automaton.GetStateSchematic(step.state)
      case None => nodes
      case Some(s) => PaintNodes(nodes, step.state, NodeColor(c.automaton, c.outcome.path, index, s, reset))
  }

  /** What colouring the edge of step `index` does to `edges`: nothing without a run or
      when the step names no edge, otherwise animate it, or stop it when resetting. */
  function ColorEdgeEffect(edges: seq<Edge>, current: Option<AnimationState>, index: nat, reset: bool): seq<Edge>
    requires current.Some? ==> index < |current.value.outcome.path|
  {
    match current
    case None => edges
    case Some(c) =>
      var id := c.outcome.path[index].edge;
      if Present(id) then AnimateEdges(edges, id.value, !reset) else edges
  }

  /** Painting never changes the schematic the nodes describe. */
  lemma {:induction false} PaintKeepsSchematic(nodes: seq<Node>, edges: seq<Edge>, id: string, color: string)
    ensures BuildStates(PaintNodes(nodes, id, color), edges) == BuildStates(nodes, edges)
    decreases |nodes|
  {
    if |nodes| > 0 {
      var n := |nodes|;
      PaintKeepsSchematic(nodes[..n - 1], edges, id, color);
      assert PaintNodes(nodes, id, color)[..n - 1] == PaintNodes(nodes[..n - 1], id, color);
    }
  }

  /** Animating an edge never changes any state's transitions. */
  lemma {:induction false} AnimateKeepsTransitions(from: string, edges: seq<Edge>, id: string, on: bool)
    ensures TransitionsFrom(from, AnimateEdges(edges, id, on)) == TransitionsFrom(from, edges)
    decreases |edges|
  {
    if |edges| > 0 {
      var n := |edges|;
      AnimateKeepsTransitions(from, edges[..n - 1], id, on);
      assert AnimateEdges(edges, id, on)[..n - 1] == AnimateEdges(edges[..n - 1], id, on);
    }
  }

  /** Animating edges never changes the schematic the graph describes. */
  lemma {:induction false} AnimateKeepsSchematic(nodes: seq<Node>, edges: seq<Edge>, id: string, on: bool)
    ensures BuildStates(nodes, AnimateEdges(edges, id, on)) == BuildStates(nodes, edges)
    decreases |nodes|
  {
    if |nodes| > 0 {
      AnimateKeepsSchematic(nodes[..|nodes| - 1], edges, id, on);
      AnimateKeepsTransitions(nodes[|nodes| - 1].id, edges, id, on);
    }
  }

  // ---------------------------------------------------------------------------
  // The cursor
  // ---------------------------------------------------------------------------

  function StatesOf(steps: seq<Step>): seq<string>
  {
    seq(|steps|, i requires 0 <= i < |steps| => steps[i].state)
  }

  function SymbolsOf(steps: seq<Step>): seq<string>
  {
    seq(|steps|, i requires 0 <= i < |steps| => steps[i].symbol)
  }

  /** The cursor stays on the path (or at 0 on an empty one), and the histories hold
      the states and symbols of exactly the steps before it. */
  predicate CursorInvariant(c: AnimationState)
  {
    && (c.index == 0 || c.index < |c.outcome.path|)
    && c.pastStates == StatesOf(c.outcome.path[..c.index])
    && c.pastSymbols == SymbolsOf(c.outcome.path[..c.index])
  }

  /** A run as it starts: cursor at 0, nothing passed. */
  function StartCursor(a: AutomatonSchematic, w: Witness): (c: AnimationState)
    ensures CursorInvariant(c)
  {
    AnimationState(a, w, 0, [], [])
  }

  /** Array.prototype.pop on its receiver: the last element removed, [] left as it is. */
  function Pop(s: seq<string>): (r: seq<string>)
    ensures |s| > 0 ==> r + [s[|s| - 1]] == s
    ensures |s| == 0 ==> r == []
  {
    if |s| == 0 then s else s[..|s| - 1]
  }

  /** One step forwards: record the current step, move the cursor. */
  function Advance(c: AnimationState): (r: AnimationState)
    requires c.index + 1 < |c.outcome.path|
    ensures r.automaton == c.automaton && r.outcome == c.outcome && r.index == c.index + 1
    ensures |r.pastStates| == |c.pastStates| + 1 && |r.pastSymbols| == |c.pastSymbols| + 1
    ensures r.pastStates[..|c.pastStates|] == c.pastStates && r.pastStates[|c.pastStates|] == c.outcome.path[c.index].state
    ensures r.pastSymbols[..|c.pastSymbols|] == c.pastSymbols && r.pastSymbols[|c.pastSymbols|] == c.outcome.path[c.index].symbol
  {
    var step := c.outcome.path[c.index];
    c.(index := c.index + 1, pastStates := c.pastStates + [step.state], pastSymbols := c.pastSymbols + [step.symbol])
  }

  /** One step back: forget the last recorded step, move the cursor. */
  function Retreat(c: AnimationState): (r: AnimationState)
    requires c.index > 0
    ensures r.automaton == c.automaton && r.outcome == c.outcome && r.index == c.index - 1
    ensures |c.pastStates| > 0 ==> r.pastStates + [c.pastStates[|c.pastStates| - 1]] == c.pastStates
    ensures |c.pastSymbols| > 0 ==> r.pastSymbols + [c.pastSymbols[|c.pastSymbols| - 1]] == c.pastSymbols
  {
    c.(index := c.index - 1, pastStates := Pop(c.pastStates), pastSymbols := Pop(c.pastSymbols))
  }

  lemma AdvanceKeepsInvariant(c: AnimationState)
    requires CursorInvariant(c) && c.index + 1 < |c.outcome.path|
    ensures CursorInvariant(Advance(c))
  {
    var p := c.outcome.path;
    assert p[..c.index + 1] == p[..c.index] + [p[c.index]];
  }

  lemma RetreatKeepsInvariant(c: AnimationState)
    requires CursorInvariant(c) && c.index > 0
    ensures CursorInvariant(Retreat(c))
  {
    var p := c.outcome.path;
    assert p[..c.index] == p[..c.index - 1] + [p[c.index - 1]];
  }

  /** Stepping back undoes a step forwards. */
  lemma RetreatUndoesAdvance(c: AnimationState)
    requires c.index + 1 < |c.outcome.path|
    ensures Retreat(Advance(c)) == c
  {
    assert (c.pastStates + [c.outcome.path[c.index].state])[..|c.pastStates|] == c.pastStates;
    assert (c.pastSymbols + [c.outcome.path[c.index].symbol])[..|c.pastSymbols|] == c.pastSymbols;
  }

  /** On a well-formed cursor, stepping forwards undoes a step back. */
  lemma AdvanceUndoesRetreat(c: AnimationState)
    requires CursorInvariant(c) && c.index > 0
    ensures Advance(Retreat(c)) == c
  {
    var p := c.outcome.path;
    assert p[..c.index] == p[..c.index - 1] + [p[c.index - 1]];
  }

  // ---------------------------------------------------------------------------
  // The component
  // ---------------------------------------------------------------------------

  /** The component's state: the canvas it draws, the current run and the play flag. */
  class Simulator {
    var animatedNodes: seq<Node>
    var animatedEdges: seq<Edge>
    var current: Option<AnimationState>
    var play: bool

    predicate Valid()
      reads this
    {
      current.Some? ==> CursorInvariant(current.value)
    }

    /** Mounting: the canvas shows the initial elements, no run, not playing. */
    constructor(initialNodes: seq<Node>, initialEdges: seq<Edge>)
      ensures Valid()
      ensures animatedNodes == initialNodes && animatedEdges == initialEdges
      ensures current == None && !play
    {
      animatedNodes := initialNodes;
      animatedEdges := initialEdges;
      current := None;
      play := false;
    }

    /** The mount effect: on the first call, show the renamed copy of the editor's graph,
        build its schematic, check `input` from its initial state and start the run at
        step 0. The verdict is stored with the run's `path`. Later calls do nothing. */
    method Start(nodes: seq<Node>, edges: seq<Edge>, input: string, path: seq<Step>)
      modifies this
      requires Valid()
      ensures Valid()
      ensures old(current).Some? ==> unchanged(this)
      ensures old(current).None? ==>
                var a := AutomatonSchematic(BuildStates(RenameNodes(nodes), RenameEdges(edges)));
                && animatedNodes == RenameNodes(nodes)
                && animatedEdges == RenameEdges(edges)
                && play == old(play)
                && current == Some(StartCursor(a, Witness(a.VerifyInputString(input, a.GetInitialState()), path)))
    {
      if current.Some? {
        return;
      }
      var updatedNodes := RenameNodes(nodes);
      var updatedEdges := RenameEdges(edges);
      animatedEdges := updatedEdges;
      animatedNodes := updatedNodes;
      var automaton := Build(updatedNodes, updatedEdges);
      var initialState := automaton.GetInitialState();
      var outcome := Witness(automaton.VerifyInputString(input, initialState), path);
      current := Some(AnimationState(automaton, outcome, 0, [], []));
    }

    /** Paint the node of step `index`, one node at a time. */
    method ColorNode(index: nat, reset: bool)
      modifies this
      requires current.Some? ==> index < |current.value.outcome.path|
      ensures animatedNodes == ColorNodeEffect(old(animatedNodes), old(current), index, reset)
      ensures animatedEdges == old(animatedEdges) && current == old(current) && play == old(play)
    {
      if current.None? {
        return;
      }
      var c := current.value;
      var state := c.outcome.path[index].state;
      var stateSchematic := c.automaton.GetStateSchematic(state);
      if stateSchematic.None? {
        return;
      }
      var color := NodeColor(c.automaton, c.outcome.path, index, stateSchematic.value, reset);
      var nds := animatedNodes;
      var painted: seq<Node> := [];
      for i := 0 to |nds|
        invariant painted == PaintNodes(nds[..i], state, color)
      {
        assert nds[..i + 1] == nds[..i] + [nds[i]];
        painted := painted + [PaintNode(nds[i], state, color)];
      }
      assert nds[..|nds|] == nds;
      animatedNodes := painted;
    }

    /** Animate (or, when resetting, stop) the edge of step `index`, one edge at a time. */
    method ColorEdge(index: nat, reset: bool)
      modifies this
      requires current.Some? ==> index < |current.value.outcome.path|
      ensures animatedEdges == ColorEdgeEffect(old(animatedEdges), old(current), index, reset)
      ensures animatedNodes == old(animatedNodes) && current == old(current) && play == old(play)
    {
      if current.None? {
        return;
      }
      var id := current.value.outcome.path[index].edge;
      if !Present(id) {
        return;
      }
      var eds := animatedEdges;
      var animated: seq<Edge> := [];
      for i := 0 to |eds|
        invariant animated == AnimateEdges(eds[..i], id.value, !reset)
      {
        assert eds[..i + 1] == eds[..i] + [eds[i]];
        animated := animated + [AnimateEdge(eds[i], id.value, !reset)];
      }
      assert eds[..|eds|] == eds;
      animatedEdges := animated;
    }

    /** Play: with a run, set the flag and paint the current node. */
    method HandlePlay()
      modifies this
      requires Valid()
      requires current.Some? ==> current.value.index < |current.value.outcome.path|
      ensures Valid()
      ensures old(current).None? ==> unchanged(this)
      ensures old(current).Some? ==>
                && play
                && current == old(current)
                && animatedNodes == ColorNodeEffect(old(animatedNodes), current, current.value.index, false)
                && animatedEdges == old(animatedEdges)
    {
      if current.None? {
        return;
      }
      play := true;
      ColorNode(current.value.index, false);
    }

    /** Pause: clear the flag. */
    method HandlePause()
      modifies this
      ensures !play
      ensures animatedNodes == old(animatedNodes) && animatedEdges == old(animatedEdges) && current == old(current)
    {
      play := false;
    }

    /** Next: while playing and before the last step, paint the next node, animate the
        edge just taken and advance the cursor; otherwise nothing. */
    method HandleNext()
      modifies this
      requires Valid()
      requires play && current.Some? ==> current.value.index < |current.value.outcome.path|
      ensures Valid()
      ensures (old(current).None? || !old(play) || old(current).value.index + 1 == |old(current).value.outcome.path|)
                ==> unchanged(this)
      ensures old(current).Some? && old(play) && old(current).value.index + 1 < |old(current).value.outcome.path| ==>
                var c := old(current).value;
                && current == Some(Advance(c))
                && animatedNodes == ColorNodeEffect(old(animatedNodes), old(current), c.index + 1, false)
                && animatedEdges == ColorEdgeEffect(old(animatedEdges), old(current), c.index, false)
                && play
    {
      if current.None? || !play {
        return;
      }
      var c := current.value;
      if c.index == |c.outcome.path| - 1 {
        return;
      }
      ColorNode(c.index + 1, false);
      ColorEdge(c.index, false);
      AdvanceKeepsInvariant(c);
      current := Some(Advance(c));
    }

    /** Previous: while playing and past the first step, reset the current node, paint
        the previous one, stop the edge that led here and move the cursor back;
        otherwise nothing. */
    method HandlePrevious()
      modifies this
      requires Valid()
      ensures Valid()
      ensures (old(current).None? || !old(play) || old(current).value.index == 0) ==> unchanged(this)
      ensures old(current).Some? && old(play) && old(current).value.index > 0 ==>
                var c := old(current).value;
                && current == Some(Retreat(c))
                && animatedNodes == ColorNodeEffect(ColorNodeEffect(old(animatedNodes), old(current), c.index, true),
                                                    old(current), c.index - 1, false)
                && animatedEdges == ColorEdgeEffect(old(animatedEdges), old(current), c.index - 1, true)
                && play
    {
      if current.None? || !play {
        return;
      }
      var c := current.value;
      if c.index == 0 {
        return;
      }
      ghost var nodes0 := animatedNodes;
      ColorNode(c.index, true);
      ghost var nodes1 := animatedNodes;
      assert nodes1 == ColorNodeEffect(nodes0, Some(c), c.index, true);
      ColorNode(c.index - 1, false);
      assert animatedNodes == ColorNodeEffect(nodes1, Some(c), c.index - 1, false);
      ColorEdge(c.index - 1, true);
      RetreatKeepsInvariant(c);
      current := Some(Retreat(c));
    }
  }
}
