# Finite-automaton editor core, modelled in Dafny

The application lets a user draw a finite automaton on a canvas, check an input string
against it and replay a run step by step. Its core has three parts:

- **The automaton schematic** (`src/helpers/automaton.ts`). It turns the canvas graph
  into a list of states. Each state has labelled transitions, and a label is split on
  `,`. The schematic answers lookups and decides whether an input string is accepted.
- **The simulator** (`src/components/AutomatonSimulator.tsx`). It copies the canvas with
  every id suffixed by `-sim` and rebuilds the schematic from that copy. It then moves a
  cursor forwards and backwards over a run's path, painting the occupied node and
  animating the edge taken.
- **The editor callbacks** (`src/components/AutomatonEditor.tsx`). These are `getId`, the
  start marker following the first state `S0` when it is dragged, relabelling an edge,
  and connecting two states. Connecting adds an edge and keeps a map (`edgePairs`) of the
  targets each source already reaches.

## Layout

| file | module | models |
|---|---|---|
| `types.dfy` | `Types` | the records of `src/helpers/types.ts` and an `Option` for `null`/optional fields |
| `flow.dfy` | `Flow` | the parts of the canvas library's node, edge, connection and node-change records that the core reads or writes |
| `automaton.dfy` | `Automaton` | the schematic: the builder (a method with the source's loops, proved equal to a recursive specification), the lookups and the input check |
| `acceptance.dfy` | `Acceptance` | what the input check decides, against independent definitions (first-match runs, nondeterministic accepting paths) |
| `examples_fixture.dfy` | `Fixture` | the example automaton of `src/constants/automaton-examples.js` and its verdicts |
| `sim_renaming.dfy` | `SimRenaming` | the `-sim` renaming and why the simulator's verdict equals the editor's |
| `simulator.dfy` | `Simulator` | the colour rule, the cursor, and the component as a class with the source's handlers |
| `editor.dfy` | `Editor` | `getId` as a counter class, the node-change handler, and the editor as a class with the label and connect handlers |

## How the code differs from its own types and callers

The repository's own types and callers expect more from the input check than the code
delivers. `src/helpers/types.ts` declares a `Witness` (a verdict together with a path of
`Step`s) and gives each transition an `id`, and the components read the check's result
as a `Witness`. The check itself does neither, and the model follows the code:

- `verifyInputString` (`src/helpers/automaton.ts:62-86`) returns a plain boolean. It
  follows only the first transition whose symbols contain the next character.
  Because of that first match, `Acceptance.SharedSymbolRejected` exhibits an automaton
  and an input that has an accepting path through its transitions but is rejected.
  `Acceptance.DeterministicVerifyComplete` shows that the two notions agree when no state
  has two transitions sharing a symbol.
- Transitions are built without the `id` that `TransitionSchematic` declares
  (`src/helpers/automaton.ts:26-29`).
- Its callers read the result as a `Witness`:
  - `witness.isAccepting` in `src/components/AutomatonEditorSpeedDial.tsx:72`;
  - `witness.path[index]` in `src/components/AutomatonSimulator.tsx:63-64, 97, 168-169`.

  On a boolean both properties are `undefined`, so the speed dial's test `!witness.isAccepting` is
  true whatever the verdict. The simulator's path reads would fail.
- The simulator is modelled with its evident intent. `Simulator.Simulator.Start` stores
  the boolean verdict together with a run path the caller supplies.

## Model

| member | source | states |
|---|---|---|
| Automaton.Split | src/helpers/automaton.ts:28 | `split(',')` never returns an empty list and no piece contains a comma |
| Automaton.JoinSplit | src/helpers/automaton.ts:28 | joining the pieces of a label with commas gives the label back |
| Automaton.SplitJoin | src/helpers/automaton.ts:28 | splitting comma-free pieces joined by commas gives the pieces back |
| Automaton.SplitNoComma | src/helpers/automaton.ts:28 | a label without commas is a single symbol, so "" gives [""] |
| Automaton.SplitAfterPiece | src/helpers/automaton.ts:28 | a leading piece and comma split off as one symbol |
| Automaton.LabelSymbols | src/helpers/automaton.ts:28 | an absent label gives no symbols; a present one gives at least one, comma-free, joining back to the label |
| Automaton.OnlySingleCharacterPiecesMatch | src/helpers/automaton.ts:28-77 | a one-character symbol matches only a non-empty label, and never the character ','; the label "c" matches exactly when c is not a comma |
| Automaton.TransitionsFrom | src/helpers/automaton.ts:22-31 | a state has no more transitions than there are edges |
| Automaton.BuildStates | src/helpers/automaton.ts:8-34 | the builder never makes more states than there are nodes |
| Automaton.Build | src/helpers/automaton.ts:7-35 | the constructor's loops build exactly the states of the specification `BuildStates` |
| Automaton.TransitionsFromMembers | src/helpers/automaton.ts:22-31 | a state's transitions are exactly those of the edges whose source is its id, aimed at the edge's target |
| Automaton.TransitionsFromAppend | src/helpers/automaton.ts:22-31 | transitions keep edge order across any split of the edge list |
| Automaton.TransitionsFromCons | src/helpers/automaton.ts:22-31 | the first edge's transition comes first |
| Automaton.BuildStatesAppend | src/helpers/automaton.ts:8-34 | states keep node order across any split of the node list |
| Automaton.BuildStatesCons | src/helpers/automaton.ts:8-34 | the first node's state comes first, unless it is the start marker |
| Automaton.BuildStatesWithoutMarker | src/helpers/automaton.ts:8-34 | without the start marker there is one state per node, in order, copying id and flags |
| Automaton.BuildStatesMembers | src/helpers/automaton.ts:8-34 | the states are exactly those of the nodes other than the start marker |
| Automaton.DanglingEdgeIgnored | src/helpers/automaton.ts:22-31 | an edge whose source is no retained node contributes nothing |
| Automaton.DroppedEdgeKeepsTransitions | src/helpers/automaton.ts:22-31 | dropping an edge that leaves another state keeps a state's transitions |
| Automaton.StateIndex | src/helpers/automaton.ts:38-46 | the index found holds the id and no earlier state does |
| Automaton.TransitionIndex | src/helpers/automaton.ts:53-59 | the index found contains the symbol and no earlier transition does |
| Automaton.StartingIndex | src/helpers/automaton.ts:99-104 | the index found is starting and no earlier state is |
| Automaton.AutomatonSchematic.GetStateSchematic | src/helpers/automaton.ts:37-47 | the first state with the id, and None exactly when no state has it |
| Automaton.AutomatonSchematic.GetStateTransition | src/helpers/automaton.ts:49-60 | the earliest transition containing the symbol, and None exactly when none does |
| Automaton.AutomatonSchematic.VerifyInputString | src/helpers/automaton.ts:62-86 | acceptance needs a known state, on empty input is that state's accepting flag, and on a non-empty input needs a transition enabled by its first character; Acceptance.VerifyIffFirstMatchRun, VerifySound and DeterministicVerifyComplete characterise it in full |
| Automaton.AutomatonSchematic.StateAcceptsInput | src/helpers/automaton.ts:88-90 | a state accepts only when no input is left; Acceptance.AcceptRejectExclusive relates it to the rejecting test |
| Automaton.AutomatonSchematic.StateRejectsInput | src/helpers/automaton.ts:92-94 | a state rejects exactly when no input is left and it does not accept |
| Automaton.AutomatonSchematic.GetInitialState | src/helpers/automaton.ts:96-107 | the id of the first starting state, or "" when none is starting |
| Acceptance.VerifyYieldsRun | src/helpers/automaton.ts:62-86 | an accepted input has a run that takes the first enabled transition at every character and ends accepting |
| Acceptance.ExtendRun | src/helpers/automaton.ts:77-82 | a first-match step followed by a run over the rest of the input is a run over the whole input |
| Acceptance.RunYieldsVerify | src/helpers/automaton.ts:62-86 | every such run makes the check accept |
| Acceptance.VerifyIffFirstMatchRun | src/helpers/automaton.ts:62-86 | the check accepts exactly when such a run exists |
| Acceptance.FirstMatchRunIsPath | src/helpers/automaton.ts:79-82 | a first-match run is an accepting path of the automaton read nondeterministically |
| Acceptance.VerifySound | src/helpers/automaton.ts:62-86 | an accepted input has an accepting path |
| Acceptance.DeterministicStepIsFirst | src/helpers/automaton.ts:49-60 | without shared symbols, any enabled transition is the first one |
| Acceptance.DeterministicVerifyComplete | src/helpers/automaton.ts:62-86 | without shared symbols, the check accepts exactly the inputs with an accepting path |
| Acceptance.SharedSymbolRejected | src/helpers/automaton.ts:79-82 | with two transitions on the same symbol, an input with an accepting path through the later one is rejected |
| Acceptance.VerdictDependsOnFirstMatches | src/helpers/automaton.ts:62-86 | the verdict depends only on each state's flag and first enabled transition per symbol |
| Acceptance.ShadowedTransitionIrrelevant | src/helpers/automaton.ts:49-82 | a transition whose symbols all occur earlier in the same state is never followed; removing it changes no verdict |
| Acceptance.ShadowedFirstMatch | src/helpers/automaton.ts:53-59 | removing a shadowed transition keeps the first match for every symbol |
| Acceptance.SameIdsSameIndex | src/helpers/automaton.ts:38-46 | the lookup depends only on the sequence of ids |
| Acceptance.VerifyBoundaries | src/helpers/automaton.ts:62-86 | an unknown state rejects; on empty input the verdict is the state's flag; a character with no enabled transition rejects |
| Acceptance.AcceptRejectExclusive | src/helpers/automaton.ts:88-94 | the two terminal tests never both hold; on empty input exactly one does, otherwise neither |
| Acceptance.NoStartRejects | src/helpers/automaton.ts:96-107 | with no starting state the check runs from "" and rejects unless some state is named "" |
| Fixture.FixtureTransitions | src/helpers/automaton.ts:22-31 | in the example, each state keeps its outgoing edges in edge order |
| Fixture.FixtureBuilds | src/helpers/automaton.ts:7-35 | the example's canvas, marker included, builds the written-out schematic |
| Fixture.FixtureLookups | src/helpers/automaton.ts:37-107 | the lookups on the example give the expected states and transitions |
| Fixture.FixtureAccepts | src/helpers/automaton.ts:62-86 | the example starts in S0 and accepts "", "b", "aa" and "ab" from it |
| Fixture.FixtureRejects | src/helpers/automaton.ts:62-86 | from S0 the example rejects "a", "ba" and "c" |
| SimRenaming.RenameNodes | src/components/AutomatonSimulator.tsx:116-119 | every node keeps its place in the list and gets its id suffixed with "-sim", and nothing else about it changes |
| SimRenaming.RenameEdges | src/components/AutomatonSimulator.tsx:121-126 | every edge keeps its place and gets its id, source and target suffixed with "-sim", and nothing else about it changes |
| SimRenaming.SimIdInjective | src/components/AutomatonSimulator.tsx:116-126 | renamed ids are equal exactly when the originals are |
| SimRenaming.SimIdNotMarker | src/components/AutomatonSimulator.tsx:116-119 | no renamed id is "initialNode" or "" |
| SimRenaming.RenamedTransitions | src/components/AutomatonSimulator.tsx:121-126 | in the renamed graph a state's transitions are the renamed originals, because source matching survives the suffix |
| SimRenaming.RenamedBuild | src/components/AutomatonSimulator.tsx:116-131 | building from the renamed graph gives one renamed state per node, the marker included |
| SimRenaming.MarkerSurvivesRenaming | src/components/AutomatonSimulator.tsx:116-131 | the builder drops the marker of the original graph, but the renamed graph keeps every node, with the marker as "initialNode-sim" |
| SimRenaming.BuildStatesDropsOne | src/helpers/automaton.ts:8-11 | the builder's states are those of the nodes before and after a marker |
| SimRenaming.BuildStatesSkipsMarker | src/helpers/automaton.ts:8-34 | with a single marker, the builder's states are all nodes' states but the marker's |
| SimRenaming.RenamedLookup | src/helpers/automaton.ts:37-47 | looking up a renamed id in renamed states finds the renamed state |
| SimRenaming.RenamedTransitionLookup | src/helpers/automaton.ts:49-60 | renaming keeps the first match for every symbol |
| SimRenaming.RenamedVerdict | src/components/AutomatonSimulator.tsx:131-136 | the renamed schematic accepts from a renamed state exactly what the original accepts from the original state |
| SimRenaming.RenamedInitialState | src/components/AutomatonSimulator.tsx:132 | the renamed schematic starts from the renamed starting state, or "" when none is starting |
| Acceptance.RemoveOtherKeepsLookup | src/helpers/automaton.ts:37-47 | removing a state with another id keeps the lookup's result |
| Acceptance.RemoveNonStartingKeepsInitial | src/helpers/automaton.ts:96-107 | removing a non-starting state keeps the initial state |
| Acceptance.UnreachableStateIrrelevant | src/helpers/automaton.ts:62-86 | a state that no other state's transition enters changes no verdict from another state |
| SimRenaming.NoEdgeEntersMarker | src/helpers/automaton.ts:22-31 | when no edge targets the marker, no transition does |
| SimRenaming.SimulationKeepsVerdict | src/components/AutomatonSimulator.tsx:116-136 | the simulator's schematic gives the editor's verdict, provided there is at most one marker, it is not starting, no edge enters it and no id is "" |
| SimRenaming.VerdictWithoutMarker | src/components/AutomatonSimulator.tsx:116-136 | the same, for a graph with no marker |
| SimRenaming.VerdictAroundMarker | src/components/AutomatonSimulator.tsx:116-136 | the same, for a graph with its marker at a given index |
| SimRenaming.SimStatesNamed | src/components/AutomatonSimulator.tsx:116-119 | no renamed state has the id "" |
| Simulator.NodeColor | src/components/AutomatonSimulator.tsx:68-76 | transparent iff resetting; else light blue before the last step; on it green iff nothing is left and the state accepts, else red |
| Simulator.GreenIffAccepted | src/components/AutomatonSimulator.tsx:68-76 | the last node turns green exactly when the schematic accepts the empty remainder from that state |
| Simulator.PaintNodes | src/components/AutomatonSimulator.tsx:78-90 | only nodes with the step's id change, and only in their background |
| Simulator.AnimateEdges | src/components/AutomatonSimulator.tsx:100-108 | only edges with the step's edge id change, and only in `animated` |
| Simulator.PaintKeepsSchematic | src/components/AutomatonSimulator.tsx:78-90 | painting never changes the schematic the nodes describe |
| Simulator.AnimateKeepsTransitions | src/components/AutomatonSimulator.tsx:100-108 | animating never changes any state's transitions |
| Simulator.AnimateKeepsSchematic | src/components/AutomatonSimulator.tsx:100-108 | animating never changes the schematic |
| Simulator.Advance | src/components/AutomatonSimulator.tsx:176-182 | Next moves the cursor one step on the same run and appends the step's state and symbol to the histories; AdvanceKeepsInvariant and RetreatUndoesAdvance relate it to the path and to Previous |
| Simulator.Retreat | src/components/AutomatonSimulator.tsx:195-209 | Previous moves the cursor one step back on the same run and drops the last entry of each history; RetreatKeepsInvariant and AdvanceUndoesRetreat relate it to the path and to Next |
| Simulator.StartCursor | src/components/AutomatonSimulator.tsx:138-144 | a run starts at index 0 with empty histories, which satisfies the cursor invariant |
| Simulator.Pop | src/components/AutomatonSimulator.tsx:195-199 | `pop` drops the last element, and leaves [] as it is |
| Simulator.AdvanceKeepsInvariant | src/components/AutomatonSimulator.tsx:171-183 | stepping forwards keeps the cursor on the path and the histories equal to the steps before it |
| Simulator.RetreatKeepsInvariant | src/components/AutomatonSimulator.tsx:191-210 | stepping back does the same |
| Simulator.RetreatUndoesAdvance | src/components/AutomatonSimulator.tsx:164-211 | a step back undoes a step forwards |
| Simulator.AdvanceUndoesRetreat | src/components/AutomatonSimulator.tsx:164-211 | on a well-formed cursor, a step forwards undoes a step back |
| Simulator.Simulator.constructor | src/components/AutomatonSimulator.tsx:50-57 | the canvas shows the initial elements, there is no run and play is off |
| Simulator.Simulator.Start | src/components/AutomatonSimulator.tsx:111-146 | the first call shows the renamed graph and stores the renamed schematic, its verdict from its initial state, and a cursor at 0; later calls change nothing |
| Simulator.Simulator.ColorNode | src/components/AutomatonSimulator.tsx:59-91 | nothing without a run or for an unknown state; otherwise the step's node gets the colour of the rule |
| Simulator.Simulator.ColorEdge | src/components/AutomatonSimulator.tsx:93-109 | nothing without a run or edge id; otherwise the step's edge is animated, or stopped when resetting |
| Simulator.Simulator.HandlePlay | src/components/AutomatonSimulator.tsx:150-158 | with a run, play is set and the current node painted; the cursor is unchanged |
| Simulator.Simulator.HandlePause | src/components/AutomatonSimulator.tsx:160-162 | play is cleared and nothing else changes |
| Simulator.Simulator.HandleNext | src/components/AutomatonSimulator.tsx:164-184 | no-op unless playing before the last step; otherwise paints the next node, animates the edge taken and advances, keeping the invariant |
| Simulator.Simulator.HandlePrevious | src/components/AutomatonSimulator.tsx:186-211 | no-op unless playing past step 0; otherwise resets the current node, paints the previous one, stops the edge and steps back, keeping the invariant |
| Editor.NatToString | src/components/AutomatonEditor.tsx:22 | a numeral is non-empty and made of digits |
| Editor.ParseNatToString | src/components/AutomatonEditor.tsx:22 | reading a numeral back gives the number |
| Editor.FormattedIdsDistinct | src/components/AutomatonEditor.tsx:21-22 | different counter values give different ids, and only 0 gives "S0" |
| Editor.IdCounter.constructor | src/components/AutomatonEditor.tsx:21 | the counter starts at 1 |
| Editor.IdCounter.GetId | src/components/AutomatonEditor.tsx:21-22 | returns "S" and the counter, then increments it; never "S0", and never an id any later call returns |
| Editor.FirstStartMove | src/components/AutomatonEditor.tsx:53-56 | the index found is a position change of S0 and no earlier change is |
| Editor.MarkerChange | src/components/AutomatonEditor.tsx:57-75 | the marker's change keeps kind and dragging; while dragging it is shifted by (-40, +20), otherwise it has no position |
| Editor.OnNodesChange | src/components/AutomatonEditor.tsx:50-79 | the incoming changes are kept, and one marker change is appended exactly when S0 moves, built from its first move |
| Editor.Relabel | src/components/AutomatonEditor.tsx:84-94 | only the edge with the id changes, and only in its label |
| Editor.RelabelLastWins | src/components/AutomatonEditor.tsx:84-94 | relabelling twice is relabelling with the last label |
| Editor.RelabelledSymbols | src/components/AutomatonEditor.tsx:84-94 | the relabelled edge's transition carries the new label's pieces, which join back to it |
| Editor.Classify | src/components/AutomatonEditor.tsx:97-161 | missing endpoint, then duplicate (target recorded for source), then mirror (source recorded for target), then self-loop, else plain |
| Editor.SelfLoopNeverMirror | src/components/AutomatonEditor.tsx:108-161 | a self-loop is a duplicate or a self-loop, never a mirror |
| Editor.NewEdge | src/components/AutomatonEditor.tsx:99-191 | the new edge joins the endpoints, is labelled "e", is arched iff mirroring, and enters on "left" iff a self-loop |
| Editor.ArchMirrors | src/components/AutomatonEditor.tsx:122-135 | exactly the edges running from target back to source get `arch`, and nothing else changes |
| Editor.RecordKeepsNoDuplicates | src/components/AutomatonEditor.tsx:149-198 | recording a target not yet recorded keeps every list free of duplicates |
| Editor.ConnectKeepsPairsBacked | src/components/AutomatonEditor.tsx:120-198 | after a connection every recorded pair, the new one included, has an edge |
| Editor.ConnectTwiceIsDuplicate | src/components/AutomatonEditor.tsx:106-198 | connecting the same endpoints again is a duplicate, so a second connect changes nothing |
| Editor.EndpointsKeepPairsBacked | src/components/AutomatonEditor.tsx:84-94 | changing edges without moving their endpoints keeps an edge behind every recorded pair |
| Editor.Editor.constructor | src/components/AutomatonEditor.tsx:44-48 | the initial edges and an empty pair map |
| Editor.Editor.OnLabelChange | src/components/AutomatonEditor.tsx:84-94 | relabels the edge with the id, keeps the pair map and the invariant |
| Editor.Editor.OnConnect | src/components/AutomatonEditor.tsx:96-199 | a missing endpoint or duplicate changes nothing; otherwise arches mirrors (mirror case), appends the new edge and records the target once for the source, other keys untouched, keeping no duplicates and an edge behind every pair |

## Left out

- Simulator.Simulator.Start: takes the run's path as a parameter. The source's input check returns no path, so the path the simulator reads does not exist in the code.
- Editor.Editor.OnConnect: the graph library's `addEdge` is modelled as an append, and the new edge's id is a parameter. The library's own id scheme and its check against an identical existing connection are not part of this model.
- Editor.OnNodesChange: returns the extended list rather than pushing onto the caller's array, which the source aliases. Applying the changes to the nodes (the library's `applyNodeChanges`) is not part of this model.
- Editor.Editor.OnLabelChange and Simulator.Simulator.ColorNode/ColorEdge: produce new sequences. The source overwrites fields of the existing node and edge objects in place, so copies held elsewhere would also change. That aliasing is not modelled.
- Simulator.Simulator.HandlePrevious: pops copies of the histories. The source pops the arrays of the current state object in place, before replacing it.
- Simulator.Simulator: `src/hooks/useInterval.ts` defines an interval hook, but the simulator does not use it. Playback moves only when the Next and Previous buttons are clicked, so no timer is modelled.
- Simulator.Simulator.ColorNode: requires the cursor to lie inside the run's path. With an empty path, the source's `path[index]` is `undefined`, and reading `.state` from it throws a TypeError. That error is not modelled.
- Simulator.Simulator.ColorEdge: requires the cursor to lie inside the run's path. With an empty path, reading `.edge` of `path[index]` throws in the source, and that error is not modelled.
- Simulator.Simulator.HandlePlay: requires a stored run's cursor to lie inside its path. With an empty path, the source's colour updates throw a TypeError, and that error is not modelled.
- Simulator.Simulator.HandleNext: requires, while playing, a stored run's cursor to lie inside its path. With an empty path, reading `path[index]` throws in the source, and that error is not modelled.
- Editor.MarkerChange: requires a position whenever the change is a drag. A drag change without `position` makes the source's `node.position.x` throw, and that error is not modelled.
- Editor.OnNodesChange: requires the first start-state drag to carry a position, for the same reason as Editor.MarkerChange.
- Editor.IdCounter.GetId: counts with an unbounded natural number. The source's `id++` works on a JavaScript number, which stops changing at 2^53, so the source repeats ids from there on. The model's promise that ids never repeat holds only below that bound.
- Automaton.LabelSymbols: assumes labels are strings. The source calls `toString()` on whatever the label holds.
- Strings are sequences of Dafny characters. JavaScript's UTF-16 code units, as `substring(0, 1)` takes them, are not distinguished.
- Positions are integers. The source's floating-point canvas coordinates are not modelled.
- React mechanics are reduced to plain field updates: `setState` batching and rendering, context providers, and the `useCallback` closures. The closure in `onConnect` holds the first `edgePairs` map, but that map is mutated in place, so the field model matches it.
- Not part of this model:
  - edge deletion (`onEdgesChange`, which never updates `edgePairs`);
  - dropping a new node (`onDrop`, apart from its use of `getId`);
  - the initial elements (`generateInitialElements`);
  - the geometry in `src/helpers/bezierPath.ts` and `src/components/FloatingEdge.tsx`;
  - the converter stubs in `src/helpers/automaton-converter.js`;
  - all rendering.
