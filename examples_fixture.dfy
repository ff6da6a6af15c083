/** The example automaton of src/constants/automaton-examples.js (states S0, S1, S2 over
    the alphabet {a, b}), drawn on a canvas together with the start marker, and the
    verdicts the input verification gives on it. */
module Fixture {
  import opened Types
  import opened Flow
  import opened Automaton

  /** The start marker followed by S0 (starting, accepting), S1 and S2 (accepting). */
  function FixtureNodes(): seq<Node>
  {
    [ Node(InitialNodeId, false, false, None),
      Node("S0", true, true, None),
      Node("S1", false, false, None),
      Node("S2", false, true, None) ]
  }

  function FixtureEdge(id: string, source: string, target: string, text: string): Edge
  {
    Edge(id, source, target, Some(text), None, None, false, false)
  }

  /** The four labelled transitions of the example. */
  function FixtureEdges(): seq<Edge>
  {
    [ FixtureEdge("e1", "S0", "S1", "a"),
      FixtureEdge("e2", "S0", "S2", "b"),
      FixtureEdge("e3", "S1", "S0", "a"),
      FixtureEdge("e4", "S1", "S2", "b") ]
  }

  /** The schematic of the example, written out. */
  function FixtureSchematic(): AutomatonSchematic
  {
    AutomatonSchematic([
      StateSchematic("S0", true, true, [TransitionSchematic(["a"], "S1"), TransitionSchematic(["b"], "S2")]),
      StateSchematic("S1", false, false, [TransitionSchematic(["a"], "S0"), TransitionSchematic(["b"], "S2")]),
      StateSchematic("S2", true, false, []) ])
  }

  /** Each state keeps its outgoing edges, in edge order. */
  lemma FixtureTransitions(id: string)
    ensures TransitionsFrom(id, FixtureEdges()) ==
      (if id == "S0" then [TransitionSchematic(["a"], "S1")] else []) +
      (if id == "S0" then [TransitionSchematic(["b"], "S2")] else []) +
      (if id == "S1" then [TransitionSchematic(["a"], "S0")] else []) +
      (if id == "S1" then [TransitionSchematic(["b"], "S2")] else [])
  {
    var es := FixtureEdges();
    SplitNoComma("a");
    SplitNoComma("b");
    assert es == [es[0]] + [es[1], es[2], es[3]];
    assert [es[1], es[2], es[3]] == [es[1]] + [es[2], es[3]];
    assert [es[2], es[3]] == [es[2]] + [es[3]] && [es[3]] == [es[3]] + [];
    TransitionsFromCons(id, es[3], []);
    TransitionsFromCons(id, es[2], [es[3]]);
    TransitionsFromCons(id, es[1], [es[2], es[3]]);
    TransitionsFromCons(id, es[0], [es[1], es[2], es[3]]);
    assert TransitionsFrom(id, []) == [];
    assert LabelSymbols(Some("a")) == ["a"];
    assert LabelSymbols(Some("b")) == ["b"];
  }

  /** The builder drops the marker and gives each state its outgoing edges in order. */
  lemma FixtureBuilds()
    ensures AutomatonSchematic(BuildStates(FixtureNodes(), FixtureEdges())) == FixtureSchematic()
  {
    var ns, es := FixtureNodes(), FixtureEdges();
    FixtureTransitions("S0");
    FixtureTransitions("S1");
    FixtureTransitions("S2");
    var st := FixtureSchematic().states;
    assert StateOf(ns[1], es) == st[0];
    assert StateOf(ns[2], es) == st[1];
    assert StateOf(ns[3], es) == st[2];
    assert ns == [ns[0]] + [ns[1], ns[2], ns[3]];
    assert [ns[1], ns[2], ns[3]] == [ns[1]] + [ns[2], ns[3]];
    assert [ns[2], ns[3]] == [ns[2]] + [ns[3]] && [ns[3]] == [ns[3]] + [];
    assert BuildStates([], es) == [];
    BuildStatesCons(ns[3], [], es);
    BuildStatesCons(ns[2], [ns[3]], es);
    BuildStatesCons(ns[1], [ns[2], ns[3]], es);
    BuildStatesCons(ns[0], [ns[1], ns[2], ns[3]], es);
  }

  /** The lookups the example's runs make. */
  lemma FixtureLookups()
    ensures var a := FixtureSchematic();
            && a.GetInitialState() == "S0"
            && a.GetStateSchematic("S0") == Some(a.states[0])
            && a.GetStateSchematic("S1") == Some(a.states[1])
            && a.GetStateSchematic("S2") == Some(a.states[2])
            && a.GetStateTransition("a", a.states[0]) == Some(TransitionSchematic(["a"], "S1"))
            && a.GetStateTransition("b", a.states[0]) == Some(TransitionSchematic(["b"], "S2"))
            && a.GetStateTransition("c", a.states[0]) == None
            && a.GetStateTransition("a", a.states[1]) == Some(TransitionSchematic(["a"], "S0"))
            && a.GetStateTransition("b", a.states[1]) == Some(TransitionSchematic(["b"], "S2"))
            && a.GetStateTransition("a", a.states[2]) == None
  {
    var a := FixtureSchematic();
    assert a.states[1..][1..] == [a.states[2]];
    assert a.states[0].transitions[1..] == [TransitionSchematic(["b"], "S2")];
    assert a.states[1].transitions[1..] == [TransitionSchematic(["b"], "S2")];
  }

  /** From its starting state S0 (the schematic the builder makes of the example, by
      FixtureBuilds), the example accepts "", "b", "aa" and "ab". */
  lemma FixtureAccepts()
    ensures var a := FixtureSchematic();
            var q := a.GetInitialState();
            && q == "S0"
            && a.VerifyInputString("", q)
            && a.VerifyInputString("b", q)
            && a.VerifyInputString("aa", q)
            && a.VerifyInputString("ab", q)
  {
    FixtureLookups();
    var a := FixtureSchematic();
    assert "b"[..1] == "b" && "b"[1..] == "";
    assert "aa"[..1] == "a" && "aa"[1..] == "a" && "ab"[..1] == "a" && "ab"[1..] == "b";
    assert "a"[..1] == "a" && "a"[1..] == "";
    assert a.VerifyInputString("", "S0");
    assert a.VerifyInputString("", "S2");
    assert a.VerifyInputString("b", "S0");
    assert a.VerifyInputString("a", "S1");
    assert a.VerifyInputString("aa", "S0");
    assert a.VerifyInputString("b", "S1");
    assert a.VerifyInputString("ab", "S0");
  }

  /** From S0 the example rejects "a" (it stops in S1), "ba" (S2 has no transitions)
      and "c" (no transition reads it). */
  lemma FixtureRejects()
    ensures var a := FixtureSchematic();
            var q := a.GetInitialState();
            && !a.VerifyInputString("a", q)
            && !a.VerifyInputString("ba", q)
            && !a.VerifyInputString("c", q)
  {
    FixtureLookups();
    var a := FixtureSchematic();
    assert "a"[..1] == "a" && "a"[1..] == "";
    assert "ba"[..1] == "b" && "ba"[1..] == "a" && "c"[..1] == "c";
    assert !a.VerifyInputString("", "S1");
    assert !a.VerifyInputString("a", "S0");
    assert !a.VerifyInputString("a", "S2");
    assert !a.VerifyInputString("ba", "S0");
    assert !a.VerifyInputString("c", "S0");
  }
}
