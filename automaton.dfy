/** The automaton schematic of src/helpers/automaton.ts: how the canvas graph becomes a
    list of states with labelled transitions, and the input verification over it. */
module Automaton {
  import opened Types
  import opened Flow

  /** Id of the synthetic node that anchors the start arrow on the canvas. */
  const InitialNodeId: string := "initialNode"

  // ---------------------------------------------------------------------------
  // Splitting a label on ',' (String.prototype.split with a one-character separator)
  // ---------------------------------------------------------------------------

  /** The pieces of `s` between commas, as `s.split(',')` returns them: never empty,
      "" gives [""], and a leading, trailing or doubled comma gives an empty piece. */
  function Split(s: string): (parts: seq<string>)
    ensures |parts| >= 1
    ensures forall i :: 0 <= i < |parts| ==> ',' !in parts[i]
    decreases |s|
  {
    if |s| == 0 then [""]
    else
      var rest := Split(s[1..]);
      if s[0] == ',' then [""] + rest
      else [[s[0]] + rest[0]] + rest[1..]
  }

  /** The pieces glued back together with ',' between them. */
  function Join(parts: seq<string>): string
  {
    if |parts| == 0 then ""
    else if |parts| == 1 then parts[0]
    else parts[0] + "," + Join(parts[1..])
  }

  /** Splitting loses nothing: gluing the pieces back gives the label. */
  lemma {:induction false} JoinSplit(s: string)
    ensures Join(Split(s)) == s
    decreases |s|
  {
    if |s| > 0 {
      var rest := Split(s[1..]);
      JoinSplit(s[1..]);
      if s[0] == ',' {
        assert Split(s) == [""] + rest;
        assert Join(Split(s)) == "" + "," + Join(rest);
        assert s == [s[0]] + s[1..];
      } else if |rest| == 1 {
        assert Split(s) == [[s[0]] + rest[0]];
        assert s == [s[0]] + s[1..];
      } else {
        assert Split(s) == [[s[0]] + rest[0]] + rest[1..];
        assert Join(rest) == rest[0] + "," + Join(rest[1..]);
        assert s == [s[0]] + s[1..];
      }
    }
  }

  /** A piece without a comma splits to itself. */
  lemma {:induction false} SplitNoComma(p: string)
    requires ',' !in p
    ensures Split(p) == [p]
    decreases |p|
  {
    if |p| > 0 {
      SplitNoComma(p[1..]);
      assert [p[0]] + p[1..] == p;
    }
  }

  /** Splitting `p + "," + r` peels off `p` when `p` has no comma. */
  lemma {:induction false} SplitAfterPiece(p: string, r: string)
    requires ',' !in p
    ensures Split(p + "," + r) == [p] + Split(r)
    decreases |p|
  {
    var s := p + "," + r;
    if |p| == 0 {
      assert s == "," + r;
      assert s[1..] == r;
    } else {
      assert s[1..] == p[1..] + "," + r;
      SplitAfterPiece(p[1..], r);
      assert [p[0]] + p[1..] == p;
    }
  }

  /** Splitting undoes gluing, for pieces without commas. */
  lemma {:induction false} SplitJoin(parts: seq<string>)
    requires |parts| >= 1
    requires forall i :: 0 <= i < |parts| ==> ',' !in parts[i]
    ensures Split(Join(parts)) == parts
    decreases |parts|
  {
    if |parts| == 1 {
      SplitNoComma(parts[0]);
    } else {
      SplitJoin(parts[1..]);
      SplitAfterPiece(parts[0], Join(parts[1..]));
      assert [parts[0]] + parts[1..] == parts;
    }
  }

  /** The symbols of an edge label: `edge.label?.toString()?.split(',') || []`.
      An absent label gives no symbol at all; a present one is cut at its commas. */
  function LabelSymbols(text: Option<string>): (symbols: seq<string>)
    ensures text.None? ==> symbols == []
    ensures text.Some? ==> |symbols| >= 1 && Join(symbols) == text.value
    ensures forall i :: 0 <= i < |symbols| ==> ',' !in symbols[i]
  {
    match text
    case None => []
    case Some(l) => JoinSplit(l); Split(l)
  }

  /** Only a one-character piece can equal the one-character symbol the acceptance
      check reads: an absent label, an empty label and every longer piece never match. */
  lemma {:induction false} OnlySingleCharacterPiecesMatch(text: Option<string>, c: char)
    ensures [c] in LabelSymbols(text) ==> text.Some? && text.value != "" && c != ','
    ensures text == Some([c]) ==> ([c] in LabelSymbols(text) <==> c != ',')
  {
    if text.Some? && text.value == "" {
      assert Split("") == [""];
    }
    if text == Some([c]) && c != ',' {
      SplitNoComma([c]);
    }
  }

  // ---------------------------------------------------------------------------
  // Building the schematic
  // ---------------------------------------------------------------------------

  /** The transition one edge contributes to its source state. */
  function EdgeTransition(e: Edge): TransitionSchematic
  {
    TransitionSchematic(LabelSymbols(e.text), e.target)
  }

  /** The transitions `edges` contribute to the state `id`, in edge order. */
  function TransitionsFrom(id: string, edges: seq<Edge>): (ts: seq<TransitionSchematic>)
    ensures |ts| <= |edges|
  {
    if |edges| == 0 then []
    else
      var last := edges[|edges| - 1];
      TransitionsFrom(id, edges[..|edges| - 1]) + (if last.source == id then [EdgeTransition(last)] else [])
  }

  /** The state a retained node becomes. */
  function StateOf(node: Node, edges: seq<Edge>): StateSchematic
  {
    StateSchematic(node.id, node.isAccepting, node.isStarting, TransitionsFrom(node.id, edges))
  }

  /** The states the constructor stores: one per node other than the start marker,
      in node order. */
  function BuildStates(nodes: seq<Node>, edges: seq<Edge>): (states: seq<StateSchematic>)
    ensures |states| <= |nodes|
  {
    if |nodes| == 0 then []
    else
      var last := nodes[|nodes| - 1];
      BuildStates(nodes[..|nodes| - 1], edges) + (if last.id == InitialNodeId then [] else [StateOf(last, edges)])
  }

  /** The constructor: for each node but the start marker, one state whose transitions
      are pushed one edge at a time. */
  method Build(nodes: seq<Node>, edges: seq<Edge>) returns (automaton: AutomatonSchematic)
    ensures automaton.states == BuildStates(nodes, edges)
  {
    var states: seq<StateSchematic> := [];
    for i := 0 to |nodes|
      invariant states == BuildStates(nodes[..i], edges)
    {
      var node := nodes[i];
      assert nodes[..i + 1][..i] == nodes[..i];
      if node.id != InitialNodeId {
        var transitions: seq<TransitionSchematic> := [];
        for j := 0 to |edges|
          invariant transitions == TransitionsFrom(node.id, edges[..j])
        {
          var edge := edges[j];
          assert edges[..j + 1][..j] == edges[..j];
          if edge.source == node.id {
            transitions := transitions + [TransitionSchematic(LabelSymbols(edge.text), edge.target)];
          }
        }
        assert edges[..|edges|] == edges;
        states := states + [StateSchematic(node.id, node.isAccepting, node.isStarting, transitions)];
      }
    }
    assert nodes[..|nodes|] == nodes;
    automaton := AutomatonSchematic(states);
  }

  /** Transitions distribute over a split of the edge list. */
  lemma {:induction false} TransitionsFromAppend(id: string, a: seq<Edge>, b: seq<Edge>)
    ensures TransitionsFrom(id, a + b) == TransitionsFrom(id, a) + TransitionsFrom(id, b)
    decreases |b|
  {
    if |b| == 0 {
      assert a + b == a;
    } else {
      var b' := b[..|b| - 1];
      assert (a + b)[..|a + b| - 1] == a + b';
      TransitionsFromAppend(id, a, b');
    }
  }

  /** A state's transitions are exactly the edges leaving it, each aimed at the edge's
      target and labelled with the edge's symbols. */
  lemma {:induction false} TransitionsFromMembers(id: string, edges: seq<Edge>, t: TransitionSchematic)
    ensures t in TransitionsFrom(id, edges) <==>
            exists e :: e in edges && e.source == id && t == EdgeTransition(e)
    decreases |edges|
  {
    if |edges| > 0 {
      var init := edges[..|edges| - 1];
      TransitionsFromMembers(id, init, t);
      assert edges == init + [edges[|edges| - 1]];
      if exists e :: e in edges && e.source == id && t == EdgeTransition(e) {
        var e :| e in edges && e.source == id && t == EdgeTransition(e);
        if e != edges[|edges| - 1] {
          assert e in init;
        }
      }
    }
  }

  /** The first edge's transition comes first. */
  lemma TransitionsFromCons(id: string, e: Edge, rest: seq<Edge>)
    ensures TransitionsFrom(id, [e] + rest) ==
            (if e.source == id then [EdgeTransition(e)] else []) + TransitionsFrom(id, rest)
  {
    TransitionsFromAppend(id, [e], rest);
    assert [e][..0] == [];
  }

  /** States distribute over a split of the node list. */
  lemma {:induction false} BuildStatesAppend(a: seq<Node>, b: seq<Node>, edges: seq<Edge>)
    ensures BuildStates(a + b, edges) == BuildStates(a, edges) + BuildStates(b, edges)
    decreases |b|
  {
    if |b| == 0 {
      assert a + b == a;
    } else {
      var b' := b[..|b| - 1];
      assert (a + b)[..|a + b| - 1] == a + b';
      BuildStatesAppend(a, b', edges);
    }
  }

  /** The first node's state comes first. */
  lemma BuildStatesCons(n: Node, rest: seq<Node>, edges: seq<Edge>)
    ensures BuildStates([n] + rest, edges) ==
            (if n.id == InitialNodeId then [] else [StateOf(n, edges)]) + BuildStates(rest, edges)
  {
    BuildStatesAppend([n], rest, edges);
    assert [n][..0] == [];
  }

  /** With no start marker among the nodes, the k-th state is built from the k-th node,
      copying its id and flags. */
  lemma {:induction false} BuildStatesWithoutMarker(nodes: seq<Node>, edges: seq<Edge>)
    requires forall i :: 0 <= i < |nodes| ==> nodes[i].id != InitialNodeId
    ensures |BuildStates(nodes, edges)| == |nodes|
    ensures forall i :: 0 <= i < |nodes| ==> BuildStates(nodes, edges)[i] == StateOf(nodes[i], edges)
    decreases |nodes|
  {
    if |nodes| > 0 {
      BuildStatesWithoutMarker(nodes[..|nodes| - 1], edges);
    }
  }

  /** Exactly the nodes other than the start marker become states. */
  lemma {:induction false} BuildStatesMembers(nodes: seq<Node>, edges: seq<Edge>, s: StateSchematic)
    ensures s in BuildStates(nodes, edges) <==>
            exists n :: n in nodes && n.id != InitialNodeId && s == StateOf(n, edges)
    decreases |nodes|
  {
    if |nodes| > 0 {
      var init := nodes[..|nodes| - 1];
      BuildStatesMembers(init, edges, s);
      assert nodes == init + [nodes[|nodes| - 1]];
      if exists n :: n in nodes && n.id != InitialNodeId && s == StateOf(n, edges) {
        var n :| n in nodes && n.id != InitialNodeId && s == StateOf(n, edges);
        if n != nodes[|nodes| - 1] {
          assert n in init;
        }
      }
    }
  }

  /** An edge whose source is no retained node contributes nothing: dropping it leaves
      every state as it was. */
  lemma {:induction false} DanglingEdgeIgnored(nodes: seq<Node>, edges: seq<Edge>, k: nat)
    requires k < |edges|
    requires forall i :: 0 <= i < |nodes| && nodes[i].id != InitialNodeId ==> nodes[i].id != edges[k].source
    ensures BuildStates(nodes, edges) == BuildStates(nodes, edges[..k] + edges[k + 1..])
    decreases |nodes|
  {
    if |nodes| > 0 {
      var init, last := nodes[..|nodes| - 1], nodes[|nodes| - 1];
      DanglingEdgeIgnored(init, edges, k);
      if last.id != InitialNodeId {
        DroppedEdgeKeepsTransitions(last.id, edges, k);
      }
    }
  }

  /** Dropping an edge that leaves another state keeps this state's transitions. */
  lemma DroppedEdgeKeepsTransitions(id: string, edges: seq<Edge>, k: nat)
    requires k < |edges| && edges[k].source != id
    ensures TransitionsFrom(id, edges) == TransitionsFrom(id, edges[..k] + edges[k + 1..])
  {
    assert edges == edges[..k] + [edges[k]] + edges[k + 1..];
    TransitionsFromAppend(id, edges[..k] + [edges[k]], edges[k + 1..]);
    TransitionsFromAppend(id, edges[..k], [edges[k]]);
    TransitionsFromAppend(id, edges[..k], edges[k + 1..]);
    assert [edges[k]][..0] == [];
  }

  // ---------------------------------------------------------------------------
  // First-match searches behind the lookups
  // ---------------------------------------------------------------------------

  /** Index of the first state with id `id`; |states| when there is none. */
  function StateIndex(states: seq<StateSchematic>, id: string): (k: nat)
    ensures k <= |states|
    ensures k < |states| ==> states[k].id == id
    ensures forall j :: 0 <= j < k ==> states[j].id != id
  {
    if |states| == 0 then 0
    else if states[0].id == id then 0
    else 1 + StateIndex(states[1..], id)
  }

  /** Index of the first transition whose symbols include `symbol`; |ts| when none does. */
  function TransitionIndex(ts: seq<TransitionSchematic>, symbol: string): (k: nat)
    ensures k <= |ts|
    ensures k < |ts| ==> symbol in ts[k].symbols
    ensures forall j :: 0 <= j < k ==> symbol !in ts[j].symbols
  {
    if |ts| == 0 then 0
    else if symbol in ts[0].symbols then 0
    else 1 + TransitionIndex(ts[1..], symbol)
  }

  /** Index of the first starting state; |states| when none is starting. */
  function StartingIndex(states: seq<StateSchematic>): (k: nat)
    ensures k <= |states|
    ensures k < |states| ==> states[k].isStarting
    ensures forall j :: 0 <= j < k ==> !states[j].isStarting
  {
    if |states| == 0 then 0
    else if states[0].isStarting then 0
    else 1 + StartingIndex(states[1..])
  }

  // ---------------------------------------------------------------------------
  // The schematic and its queries
  // ---------------------------------------------------------------------------

  /** The schematic: its state list is fixed once built, so it is a value here. */
  datatype AutomatonSchematic = AutomatonSchematic(states: seq<StateSchematic>)
  {
    /** The first state with the given id, or None when no state has it. */
    function GetStateSchematic(id: string): (r: Option<StateSchematic>)
      ensures r.None? <==> forall s :: s in states ==> s.id != id
      ensures r.Some? ==> r.value.id == id &&
                          exists k :: 0 <= k < |states| && states[k] == r.value &&
                                      forall j :: 0 <= j < k ==> states[j].id != id
    {
      var k := StateIndex(states, id);
      if k < |states| then Some(states[k]) else None
    }

    /** The earliest transition of `state` whose symbols include `symbol`, or None. */
    function GetStateTransition(symbol: string, state: StateSchematic): (r: Option<TransitionSchematic>)
      ensures r.None? <==> forall t :: t in state.transitions ==> symbol !in t.symbols
      ensures r.Some? ==> symbol in r.value.symbols &&
                          exists k :: 0 <= k < |state.transitions| && state.transitions[k] == r.value &&
                                      forall j :: 0 <= j < k ==> symbol !in state.transitions[j].symbols
    {
      var k := TransitionIndex(state.transitions, symbol);
      if k < |state.transitions| then Some(state.transitions[k]) else None
    }

    /** The input verification as written: a deterministic run that follows the first
        enabled transition on each character, without backtracking. */
    function VerifyInputString(input: string, currentState: string): (r: bool)
      ensures r ==> GetStateSchematic(currentState).Some?
      ensures |input| == 0 ==>
                (r <==> GetStateSchematic(currentState).Some? && GetStateSchematic(currentState).value.isAccepting)
      ensures r && |input| > 0 ==>
                GetStateTransition(input[..1], GetStateSchematic(currentState).value).Some?
      decreases |input|
    {
      match GetStateSchematic(currentState)
      case None => false
      case Some(state) =>
        if StateAcceptsInput(input, state) then true
        else if StateRejectsInput(input, state) then false
        else
          match GetStateTransition(input[..1], state)
          case None => false
          case Some(t) => VerifyInputString(input[1..], t.target)
    }

    /** No input is left and the state is accepting. */
    predicate StateAcceptsInput(input: string, state: StateSchematic): (r: bool)
      ensures r ==> |input| == 0
    {
      |input| == 0 && state.isAccepting
    }

    /** No input is left and the state is not accepting. */
    predicate StateRejectsInput(input: string, state: StateSchematic): (r: bool)
      ensures r <==> |input| == 0 && !StateAcceptsInput(input, state)
    {
      |input| == 0 && !state.isAccepting
    }

    /** The id of the first starting state, or "" when no state is starting. */
    function GetInitialState(): (id: string)
      ensures (forall s :: s in states ==> !s.isStarting) ==> id == ""
      ensures (exists s :: s in states && s.isStarting) ==>
                exists k :: 0 <= k < |states| && states[k].isStarting && states[k].id == id &&
                            forall j :: 0 <= j < k ==> !states[j].isStarting
    {
      var k := StartingIndex(states);
      if k < |states| then states[k].id else ""
    }
  }
}
