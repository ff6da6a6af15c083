/** What the input verification of src/helpers/automaton.ts decides, stated against
    independent definitions: the run it follows, the paths an automaton has, and the
    parts of a schematic its verdict depends on. */
module Acceptance {
  import opened Types
  import opened Automaton

  // ---------------------------------------------------------------------------
  // Runs and paths
  // ---------------------------------------------------------------------------

  /** From the state `from`, reading `c` takes the first enabled transition, to `to`. */
  ghost predicate FollowsFirst(a: AutomatonSchematic, from: string, c: char, to: string)
  {
    match a.GetStateSchematic(from)
    case None => false
    case Some(s) =>
      var t := a.GetStateTransition([c], s);
      t.Some? && t.value.target == to
  }

  /** From the state `from`, some transition enabled by `c` leads to `to`. */
  ghost predicate CanStep(a: AutomatonSchematic, from: string, c: char, to: string)
  {
    match a.GetStateSchematic(from)
    case None => false
    case Some(s) => exists t :: t in s.transitions && [c] in t.symbols && t.target == to
  }

  /** The last state of `run` is known and accepting. */
  ghost predicate EndsAccepting(a: AutomatonSchematic, run: seq<string>)
    requires |run| > 0
  {
    var last := a.GetStateSchematic(run[|run| - 1]);
    last.Some? && last.value.isAccepting
  }

  /** `run` reads `input` one character at a time, always taking the first enabled
      transition, and ends in an accepting state. */
  ghost predicate FirstMatchRun(a: AutomatonSchematic, input: string, run: seq<string>)
  {
    && |run| == |input| + 1
    && (forall i :: 0 <= i < |input| ==> FollowsFirst(a, run[i], input[i], run[i + 1]))
    && EndsAccepting(a, run)
  }

  /** `run` reads `input` one character at a time along any enabled transitions and
      ends in an accepting state: acceptance as a nondeterministic automaton. */
  ghost predicate AcceptingPath(a: AutomatonSchematic, input: string, run: seq<string>)
  {
    && |run| == |input| + 1
    && (forall i :: 0 <= i < |input| ==> CanStep(a, run[i], input[i], run[i + 1]))
    && EndsAccepting(a, run)
  }

  /** No state has two transitions that share a symbol. */
  ghost predicate Deterministic(a: AutomatonSchematic)
  {
    forall s, i, j, x :: s in a.states && 0 <= i < j < |s.transitions| && x in s.transitions[i].symbols
      ==> x !in s.transitions[j].symbols
  }

  // ---------------------------------------------------------------------------
  // The verdict is exactly the existence of a first-match run
  // ---------------------------------------------------------------------------

  lemma {:induction false} VerifyYieldsRun(a: AutomatonSchematic, input: string, q: string)
    requires a.VerifyInputString(input, q)
    ensures exists run :: FirstMatchRun(a, input, run) && run[0] == q
    decreases |input|
  {
    var s := a.GetStateSchematic(q).value;
    if |input| == 0 {
      assert FirstMatchRun(a, input, [q]);
    } else {
      var t := a.GetStateTransition(input[..1], s).value;
      VerifyYieldsRun(a, input[1..], t.target);
      var rest :| FirstMatchRun(a, input[1..], rest) && rest[0] == t.target;
      assert input[..1] == [input[0]];
      assert FollowsFirst(a, q, input[0], t.target);
      ExtendRun(a, input, q, rest);
    }
  }

  /** A first step followed by a run over the rest of the input is a run. */
  lemma ExtendRun(a: AutomatonSchematic, input: string, q: string, rest: seq<string>)
    requires |input| > 0 && FirstMatchRun(a, input[1..], rest)
    requires FollowsFirst(a, q, input[0], rest[0])
    ensures FirstMatchRun(a, input, [q] + rest)
  {
    var run := [q] + rest;
    forall i | 0 <= i < |input| ensures FollowsFirst(a, run[i], input[i], run[i + 1]) {
      if i > 0 {
        assert input[i] == input[1..][i - 1];
        assert run[i] == rest[i - 1] && run[i + 1] == rest[i];
      }
    }
    assert run[|run| - 1] == rest[|rest| - 1];
  }

  lemma {:induction false} RunYieldsVerify(a: AutomatonSchematic, input: string, run: seq<string>)
    requires FirstMatchRun(a, input, run)
    ensures a.VerifyInputString(input, run[0])
    decreases |input|
  {
    if |input| > 0 {
      var rest := run[1..];
      forall i | 0 <= i < |input[1..]| ensures FollowsFirst(a, rest[i], input[1..][i], rest[i + 1]) {
        assert FollowsFirst(a, run[i + 1], input[i + 1], run[i + 2]);
      }
      assert FirstMatchRun(a, input[1..], rest);
      RunYieldsVerify(a, input[1..], rest);
      assert input[..1] == [input[0]];
      assert FollowsFirst(a, run[0], input[0], run[1]);
    }
  }

  /** The verification holds exactly when the first-match run from `q` over
      `input` exists and ends in an accepting state. */
  lemma VerifyIffFirstMatchRun(a: AutomatonSchematic, input: string, q: string)
    ensures a.VerifyInputString(input, q) <==> exists run :: FirstMatchRun(a, input, run) && run[0] == q
  {
    if a.VerifyInputString(input, q) {
      VerifyYieldsRun(a, input, q);
    }
    if exists run :: FirstMatchRun(a, input, run) && run[0] == q {
      var run :| FirstMatchRun(a, input, run) && run[0] == q;
      RunYieldsVerify(a, input, run);
    }
  }

  // ---------------------------------------------------------------------------
  // Against nondeterministic acceptance
  // ---------------------------------------------------------------------------

  /** A first-match run is one of the automaton's accepting paths. */
  lemma FirstMatchRunIsPath(a: AutomatonSchematic, input: string, run: seq<string>)
    requires FirstMatchRun(a, input, run)
    ensures AcceptingPath(a, input, run)
  {
    forall i | 0 <= i < |input| ensures CanStep(a, run[i], input[i], run[i + 1]) {
      assert FollowsFirst(a, run[i], input[i], run[i + 1]);
      var s := a.GetStateSchematic(run[i]).value;
      var t := a.GetStateTransition([input[i]], s).value;
      assert t in s.transitions;
    }
  }

  /** In a deterministic schematic every enabled step is the first-match step. */
  lemma DeterministicStepIsFirst(a: AutomatonSchematic, from: string, c: char, to: string)
    requires Deterministic(a)
    requires CanStep(a, from, c, to)
    ensures FollowsFirst(a, from, c, to)
  {
    var s := a.GetStateSchematic(from).value;
    assert s in a.states;
    var t :| t in s.transitions && [c] in t.symbols && t.target == to;
    var m :| 0 <= m < |s.transitions| && s.transitions[m] == t;
    var k := TransitionIndex(s.transitions, [c]);
    assert k == m;
  }

  /** Acceptance by the check implies acceptance as a nondeterministic automaton. */
  lemma VerifySound(a: AutomatonSchematic, input: string, q: string)
    requires a.VerifyInputString(input, q)
    ensures exists run :: AcceptingPath(a, input, run) && run[0] == q
  {
    VerifyYieldsRun(a, input, q);
    var run :| FirstMatchRun(a, input, run) && run[0] == q;
    FirstMatchRunIsPath(a, input, run);
  }

  /** For a deterministic schematic the check decides nondeterministic acceptance
      exactly: it accepts iff some accepting path from `q` reads `input`. */
  lemma DeterministicVerifyComplete(a: AutomatonSchematic, input: string, q: string)
    requires Deterministic(a)
    ensures a.VerifyInputString(input, q) <==> exists run :: AcceptingPath(a, input, run) && run[0] == q
  {
    if a.VerifyInputString(input, q) {
      VerifySound(a, input, q);
    }
    if exists run :: AcceptingPath(a, input, run) && run[0] == q {
      var run :| AcceptingPath(a, input, run) && run[0] == q;
      forall i | 0 <= i < |input| ensures FollowsFirst(a, run[i], input[i], run[i + 1]) {
        DeterministicStepIsFirst(a, run[i], input[i], run[i + 1]);
      }
      assert FirstMatchRun(a, input, run);
      RunYieldsVerify(a, input, run);
    }
  }

  /** A schematic with two transitions on 'a' out of S0: the later one reaches the
      accepting S2, the earlier one the rejecting S1. */
  function SharedSymbolSchematic(): AutomatonSchematic
  {
    AutomatonSchematic([
      StateSchematic("S0", false, true, [TransitionSchematic(["a"], "S1"), TransitionSchematic(["a"], "S2")]),
      StateSchematic("S1", false, false, []),
      StateSchematic("S2", true, false, [])])
  }

  /** Without backtracking, a string with an accepting path can be rejected: the later
      of two transitions sharing a symbol is never followed. */
  lemma SharedSymbolRejected()
    ensures AcceptingPath(SharedSymbolSchematic(), "a", ["S0", "S2"])
    ensures !SharedSymbolSchematic().VerifyInputString("a", "S0")
  {
    var a := SharedSymbolSchematic();
    var s0 := a.states[0];
    assert a.GetStateSchematic("S0") == Some(s0);
    assert a.GetStateSchematic("S2") == Some(a.states[2]);
    assert a.GetStateSchematic("S1") == Some(a.states[1]);
    assert s0.transitions[1] in s0.transitions;
    assert CanStep(a, "S0", 'a', "S2");
    assert a.GetStateTransition("a", s0) == Some(s0.transitions[0]);
    assert "a"[..1] == "a" && "a"[1..] == "";
  }

  // ---------------------------------------------------------------------------
  // What the verdict depends on
  // ---------------------------------------------------------------------------

  /** Whether the state named `id` is known, and if so whether it is accepting. */
  function Accepting(a: AutomatonSchematic, id: string): Option<bool>
  {
    match a.GetStateSchematic(id)
    case None => None
    case Some(s) => Some(s.isAccepting)
  }

  /** Where the first transition enabled by `symbol` out of the state named `id` leads. */
  function NextState(a: AutomatonSchematic, id: string, symbol: string): Option<string>
  {
    match a.GetStateSchematic(id)
    case None => None
    case Some(s) =>
      match a.GetStateTransition(symbol, s)
      case None => None
      case Some(t) => Some(t.target)
  }

  /** Two schematics whose states agree on acceptance and on the first enabled
      transition for every symbol give the same verdict on every input. */
  lemma {:induction false} VerdictDependsOnFirstMatches(a: AutomatonSchematic, b: AutomatonSchematic, input: string, q: string)
    requires forall id :: Accepting(a, id) == Accepting(b, id)
    requires forall id, symbol :: NextState(a, id, symbol) == NextState(b, id, symbol)
    ensures a.VerifyInputString(input, q) == b.VerifyInputString(input, q)
    decreases |input|
  {
    assert Accepting(a, q) == Accepting(b, q);
    if |input| > 0 {
      assert NextState(a, q, input[..1]) == NextState(b, q, input[..1]);
      if NextState(a, q, input[..1]).Some? {
        VerdictDependsOnFirstMatches(a, b, input[1..], NextState(a, q, input[..1]).value);
      }
    }
  }

  /** `states` with the transition `j` of state `m` removed. */
  function RemoveTransition(states: seq<StateSchematic>, m: nat, j: nat): (r: seq<StateSchematic>)
    requires m < |states| && j < |states[m].transitions|
    ensures |r| == |states|
  {
    var s := states[m];
    states[m := s.(transitions := s.transitions[..j] + s.transitions[j + 1..])]
  }

  /** Removing a transition every symbol of which an earlier transition of the same
      state already has leaves every verdict unchanged: such a transition is never
      followed. */
  lemma ShadowedTransitionIrrelevant(a: AutomatonSchematic, m: nat, j: nat, input: string, q: string)
    requires m < |a.states| && j < |a.states[m].transitions|
    requires forall x :: x in a.states[m].transitions[j].symbols ==>
               exists i :: 0 <= i < j && x in a.states[m].transitions[i].symbols
    ensures AutomatonSchematic(RemoveTransition(a.states, m, j)).VerifyInputString(input, q)
            == a.VerifyInputString(input, q)
  {
    var b := AutomatonSchematic(RemoveTransition(a.states, m, j));
    forall id ensures StateIndex(b.states, id) == StateIndex(a.states, id) {
      SameIdsSameIndex(a.states, b.states, id);
    }
    forall id ensures Accepting(a, id) == Accepting(b, id) {
    }
    forall id, symbol ensures NextState(a, id, symbol) == NextState(b, id, symbol) {
      var k := StateIndex(a.states, id);
      if k == m {
        ShadowedFirstMatch(a.states[m].transitions, j, symbol);
      }
    }
    VerdictDependsOnFirstMatches(a, b, input, q);
  }

  /** Two state lists with the same ids in the same order find the same index. */
  lemma {:induction false} SameIdsSameIndex(xs: seq<StateSchematic>, ys: seq<StateSchematic>, id: string)
    requires |xs| == |ys|
    requires forall i :: 0 <= i < |xs| ==> xs[i].id == ys[i].id
    ensures StateIndex(xs, id) == StateIndex(ys, id)
    decreases |xs|
  {
    if |xs| > 0 && xs[0].id != id {
      SameIdsSameIndex(xs[1..], ys[1..], id);
    }
  }

  /** Removing a shadowed transition does not change the first match for any symbol. */
  lemma ShadowedFirstMatch(ts: seq<TransitionSchematic>, j: nat, symbol: string)
    requires j < |ts|
    requires forall x :: x in ts[j].symbols ==> exists i :: 0 <= i < j && x in ts[i].symbols
    ensures var k := TransitionIndex(ts, symbol);
            var ts' := ts[..j] + ts[j + 1..];
            var k' := TransitionIndex(ts', symbol);
            (k < |ts| <==> k' < |ts'|) && (k < |ts| ==> ts[k] == ts'[k'])
  {
    var ts' := ts[..j] + ts[j + 1..];
    var k := TransitionIndex(ts, symbol);
    var k' := TransitionIndex(ts', symbol);
    assert forall i :: 0 <= i < j ==> ts'[i] == ts[i];
    assert forall i :: j <= i < |ts'| ==> ts'[i] == ts[i + 1];
    assert symbol in ts[j].symbols ==> k < j;
    if k < j {
      assert k' == k;
    } else if k < |ts| {
      assert k > j && ts'[k - 1] == ts[k];
      assert forall i :: 0 <= i < k - 1 ==> symbol !in ts'[i].symbols by {
        forall i | 0 <= i < k - 1 ensures symbol !in ts'[i].symbols {
          if i >= j {
            assert ts'[i] == ts[i + 1];
          }
        }
      }
      assert k' == k - 1;
    } else {
      assert k' == |ts'|;
    }
  }

  // ---------------------------------------------------------------------------
  // Boundary cases
  // ---------------------------------------------------------------------------

  /** An unknown state rejects; on empty input the verdict is the state's flag; a
      character with no enabled transition rejects. */
  lemma VerifyBoundaries(a: AutomatonSchematic, input: string, q: string)
    ensures a.GetStateSchematic(q).None? ==> !a.VerifyInputString(input, q)
    ensures |input| == 0 && a.GetStateSchematic(q).Some? ==>
              (a.VerifyInputString(input, q) <==> a.GetStateSchematic(q).value.isAccepting)
    ensures |input| > 0 && NextState(a, q, input[..1]).None? ==> !a.VerifyInputString(input, q)
  {
  }

  /** The two terminal predicates never both hold; on empty input exactly one does,
      and on non-empty input neither. */
  lemma AcceptRejectExclusive(a: AutomatonSchematic, input: string, s: StateSchematic)
    ensures !(a.StateAcceptsInput(input, s) && a.StateRejectsInput(input, s))
    ensures |input| == 0 ==> a.StateAcceptsInput(input, s) != a.StateRejectsInput(input, s)
    ensures |input| > 0 ==> !a.StateAcceptsInput(input, s) && !a.StateRejectsInput(input, s)
  {
  }

  /** With no starting state the check runs from "", which rejects every input unless
      some state is named "". */
  lemma NoStartRejects(a: AutomatonSchematic, input: string)
    requires forall s :: s in a.states ==> !s.isStarting
    requires forall s :: s in a.states ==> s.id != ""
    ensures a.GetInitialState() == ""
    ensures !a.VerifyInputString(input, a.GetInitialState())
  {
  }

  // ---------------------------------------------------------------------------
  // Removing a state no transition enters
  // ---------------------------------------------------------------------------

  /** `states` without the one at index `k`. */
  function RemoveState(states: seq<StateSchematic>, k: nat): (r: seq<StateSchematic>)
    requires k < |states|
    ensures |r| == |states| - 1
  {
    states[..k] + states[k + 1..]
  }

  /** Removing a state with another id leaves the lookup of `q` as it was. */
  lemma RemoveOtherKeepsLookup(states: seq<StateSchematic>, k: nat, q: string)
    requires k < |states| && states[k].id != q
    ensures var r := RemoveState(states, k);
            var i := StateIndex(states, q);
            var i' := StateIndex(r, q);
            (i < |states| <==> i' < |r|) && (i < |states| ==> i != k && states[i] == r[i'])
  {
    var r := RemoveState(states, k);
    var i := StateIndex(states, q);
    assert forall j :: 0 <= j < k ==> r[j] == states[j];
    assert forall j :: k <= j < |r| ==> r[j] == states[j + 1];
    if i < k {
      assert StateIndex(r, q) == i;
    } else if i < |states| {
      assert r[i - 1] == states[i];
      assert forall j :: 0 <= j < i - 1 ==> r[j].id != q by {
        forall j | 0 <= j < i - 1 ensures r[j].id != q {
          if j >= k {
            assert r[j] == states[j + 1];
          }
        }
      }
      assert StateIndex(r, q) == i - 1;
    } else {
      assert forall j :: 0 <= j < |r| ==> r[j].id != q;
      assert StateIndex(r, q) == |r|;
    }
  }

  /** Removing a state that is not starting leaves the initial state as it was. */
  lemma RemoveNonStartingKeepsInitial(states: seq<StateSchematic>, k: nat)
    requires k < |states| && !states[k].isStarting
    ensures AutomatonSchematic(RemoveState(states, k)).GetInitialState() == AutomatonSchematic(states).GetInitialState()
  {
    var r := RemoveState(states, k);
    var i := StartingIndex(states);
    assert forall j :: 0 <= j < k ==> r[j] == states[j];
    assert forall j :: k <= j < |r| ==> r[j] == states[j + 1];
    if i < k {
      assert StartingIndex(r) == i;
    } else if i < |states| {
      assert r[i - 1] == states[i];
      assert forall j :: 0 <= j < i - 1 ==> !r[j].isStarting by {
        forall j | 0 <= j < i - 1 ensures !r[j].isStarting {
          if j >= k {
            assert r[j] == states[j + 1];
          }
        }
      }
      assert StartingIndex(r) == i - 1;
    } else {
      assert forall j :: 0 <= j < |r| ==> !r[j].isStarting;
      assert StartingIndex(r) == |r|;
    }
  }

  /** A state that no other state's transition leads to is never visited from any other
      state, so removing it leaves every verdict from another state as it was. */
  lemma {:induction false} UnreachableStateIrrelevant(a: AutomatonSchematic, k: nat, input: string, q: string)
    requires k < |a.states| && q != a.states[k].id
    requires forall i, t :: 0 <= i < |a.states| && i != k && t in a.states[i].transitions ==>
               t.target != a.states[k].id
    ensures AutomatonSchematic(RemoveState(a.states, k)).VerifyInputString(input, q) == a.VerifyInputString(input, q)
    decreases |input|
  {
    var b := AutomatonSchematic(RemoveState(a.states, k));
    RemoveOtherKeepsLookup(a.states, k, q);
    var i := StateIndex(a.states, q);
    if i < |a.states| && |input| > 0 {
      var s := a.states[i];
      assert b.GetStateSchematic(q) == Some(s);
      var t := a.GetStateTransition(input[..1], s);
      if t.Some? {
        assert t.value in s.transitions;
        UnreachableStateIrrelevant(a, k, input[1..], t.value.target);
      }
    }
  }
}
