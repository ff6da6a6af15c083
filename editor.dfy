/** The editing callbacks of src/components/AutomatonEditor.tsx: fresh state ids, the
    start marker following the first state when it is dragged, relabelling an edge, and
    adding the edge for a connection the user drew while keeping a record of which
    targets each source already reaches. */
module Editor {
  import opened Types
  import opened Flow
  import opened Automaton

  /** The id of the state the editor starts with; the start marker is attached to it. */
  const StartStateId: string := "S0"

  // ---------------------------------------------------------------------------
  // Fresh ids
  // ---------------------------------------------------------------------------

  function Digit(d: nat): char
    requires d < 10
  {
    (48 + d) as char
  }

  function DigitValue(c: char): int
  {
    c as int - 48
  }

  /** The decimal numeral of `n`, as a template literal writes a number. */
  function NatToString(n: nat): (s: string)
    ensures |s| >= 1
    ensures forall i :: 0 <= i < |s| ==> '0' <= s[i] <= '9'
    decreases n
  {
    if n < 10 then [Digit(n)] else NatToString(n / 10) + [Digit(n % 10)]
  }

  /** The value of a decimal numeral. */
  function ParseNat(s: string): int
    decreases |s|
  {
    if |s| == 0 then 0 else 10 * ParseNat(s[..|s| - 1]) + DigitValue(s[|s| - 1])
  }

  /** Reading a numeral back gives the number written. */
  lemma {:induction false} ParseNatToString(n: nat)
    ensures ParseNat(NatToString(n)) == n
    decreases n
  {
    if n >= 10 {
      ParseNatToString(n / 10);
      var s := NatToString(n);
      assert s[..|s| - 1] == NatToString(n / 10);
    }
  }

  /** Different counter values give different ids, and only 0 gives "S0". */
  lemma FormattedIdsDistinct(m: nat, n: nat)
    ensures "S" + NatToString(m) == "S" + NatToString(n) <==> m == n
    ensures "S" + NatToString(m) == StartStateId <==> m == 0
  {
    if "S" + NatToString(m) == "S" + NatToString(n) {
      assert NatToString(m) == ("S" + NatToString(m))[1..];
      assert NatToString(n) == ("S" + NatToString(n))[1..];
      ParseNatToString(m);
      ParseNatToString(n);
    }
    if "S" + NatToString(m) == StartStateId {
      assert NatToString(m) == ("S" + NatToString(m))[1..] == "0";
      ParseNatToString(m);
    }
  }

  /** The module-level counter behind `getId`. */
  class IdCounter {
    var id: nat

    predicate Valid()
      reads this
    {
      id >= 1
    }

    constructor()
      ensures Valid() && id == 1
    {
      id := 1;
    }

    /** "S" followed by the counter, which then moves on: S1, S2, ... */
    method GetId() returns (newId: string)
      modifies this
      requires Valid()
      ensures Valid()
      ensures newId == "S" + NatToString(old(id)) && id == old(id) + 1
      ensures newId != StartStateId
      ensures forall n: nat :: n >= id ==> "S" + NatToString(n) != newId
    {
      newId := "S" + NatToString(id);
      FormattedIdsDistinct(id, 0);
      forall n: nat | n >= id + 1 ensures "S" + NatToString(n) != newId {
        FormattedIdsDistinct(n, id);
      }
      id := id + 1;
    }
  }

  // ---------------------------------------------------------------------------
  // The start marker follows the first state
  // ---------------------------------------------------------------------------

  /** A position change of the first state. */
  predicate IsStartMove(c: NodeChange)
  {
    c.id == StartStateId && c.kind == "position"
  }

  /** Index of the first position change of the first state; |changes| when none. */
  function FirstStartMove(changes: seq<NodeChange>): (k: nat)
    ensures k <= |changes|
    ensures k < |changes| ==> IsStartMove(changes[k])
    ensures forall j :: 0 <= j < k ==> !IsStartMove(changes[j])
  {
    if |changes| == 0 then 0
    else if IsStartMove(changes[0]) then 0
    else 1 + FirstStartMove(changes[1..])
  }

  /** The change the marker gets for the first state's change `c`: the same kind and
      dragging flag; while dragging, the position 40 to the left and 20 down. */
  function MarkerChange(c: NodeChange): (r: NodeChange)
    requires c.dragging == Some(true) ==> c.position.Some?
    ensures r.id == InitialNodeId && r.kind == c.kind && r.dragging == c.dragging
    ensures c.dragging == Some(true) ==>
              r.position == Some(Position(c.position.value.x - 40, c.position.value.y + 20))
    ensures c.dragging != Some(true) ==> r.position == None
  {
    if c.dragging == Some(true) then
      NodeChange(InitialNodeId, c.kind, Some(Position(c.position.value.x - 40, c.position.value.y + 20)), c.dragging)
    else
      NodeChange(InitialNodeId, c.kind, None, c.dragging)
  }

  /** The changes passed on to the canvas: the incoming ones, followed, when the first
      state moves, by one change for the marker built from the first such move. */
  method OnNodesChange(changes: seq<NodeChange>) returns (finalChanges: seq<NodeChange>)
    requires var k := FirstStartMove(changes);
             k < |changes| && changes[k].dragging == Some(true) ==> changes[k].position.Some?
    ensures |changes| <= |finalChanges| <= |changes| + 1
    ensures finalChanges[..|changes|] == changes
    ensures |finalChanges| == |changes| <==> forall i :: 0 <= i < |changes| ==> !IsStartMove(changes[i])
    ensures |finalChanges| == |changes| + 1 ==>
              exists k :: 0 <= k < |changes| && IsStartMove(changes[k]) &&
                          (forall j :: 0 <= j < k ==> !IsStartMove(changes[j])) &&
                          finalChanges[|changes|] == MarkerChange(changes[k])
  {
    finalChanges := changes;
    ghost var k := FirstStartMove(changes);
    var i := 0;
    while i < |changes|
      invariant 0 <= i <= k
      invariant finalChanges == changes
    {
      var node := changes[i];
      if node.id == StartStateId && node.kind == "position" {
        if node.dragging == Some(true) {
          var p := node.position.value;
          finalChanges := finalChanges + [NodeChange(InitialNodeId, node.kind, Some(Position(p.x - 40, p.y + 20)), node.dragging)];
          break;
        }
        finalChanges := finalChanges + [NodeChange(InitialNodeId, node.kind, None, node.dragging)];
        break;
      }
      i := i + 1;
    }
    assert finalChanges == changes || finalChanges == changes + [MarkerChange(changes[k])];
    assert finalChanges[..|changes|] == changes;
  }

  // ---------------------------------------------------------------------------
  // Relabelling
  // ---------------------------------------------------------------------------

  function RelabelEdge(e: Edge, id: string, l: string): Edge
  {
    if e.id == id then e.(text := Some(l)) else e
  }

  /** The edges with the one whose id is `id` labelled `l`. */
  function Relabel(edges: seq<Edge>, id: string, l: string): (r: seq<Edge>)
    ensures |r| == |edges|
    ensures forall i :: 0 <= i < |edges| ==>
              && r[i] == edges[i].(text := r[i].text)
              && (edges[i].id == id ==> r[i].text == Some(l))
              && (edges[i].id != id ==> r[i] == edges[i])
  {
    seq(|edges|, i requires 0 <= i < |edges| => RelabelEdge(edges[i], id, l))
  }

  /** The last label written wins. */
  lemma RelabelLastWins(edges: seq<Edge>, id: string, l1: string, l2: string)
    ensures Relabel(Relabel(edges, id, l1), id, l2) == Relabel(edges, id, l2)
  {
  }

  /** After relabelling, the edge's transition carries the pieces of the new label. */
  lemma RelabelledSymbols(edges: seq<Edge>, id: string, l: string, i: nat)
    requires i < |edges| && edges[i].id == id
    ensures EdgeTransition(Relabel(edges, id, l)[i]).symbols == Split(l)
    ensures Join(EdgeTransition(Relabel(edges, id, l)[i]).symbols) == l
  {
    JoinSplit(l);
  }

  // ---------------------------------------------------------------------------
  // Connecting
  // ---------------------------------------------------------------------------

  /** Which branch of the connect handler a connection takes. */
  datatype ConnectKind = MissingEndpoint | Duplicate | Mirror | SelfLoop | Plain

  /** The targets recorded for `source`, or none. */
  function TargetsOf(pairs: map<string, seq<string>>, source: string): seq<string>
  {
    if source in pairs then pairs[source] else []
  }

  /** A connection without a (non-empty) source or target is ignored; one already
      recorded is a duplicate; one whose reverse is recorded is a mirror; otherwise it
      is a self-loop or a plain edge. */
  function Classify(pairs: map<string, seq<string>>, connection: Connection): (kind: ConnectKind)
    ensures kind == MissingEndpoint <==> !Present(connection.source) || !Present(connection.target)
    ensures kind != MissingEndpoint ==>
              var s, t := connection.source.value, connection.target.value;
              && (kind == Duplicate <==> t in TargetsOf(pairs, s))
              && (kind == Mirror <==> t !in TargetsOf(pairs, s) && s in TargetsOf(pairs, t))
              && (kind == SelfLoop <==> t !in TargetsOf(pairs, s) && s !in TargetsOf(pairs, t) && s == t)
              && (kind == Plain <==> t !in TargetsOf(pairs, s) && s !in TargetsOf(pairs, t) && s != t)
  {
    if !Present(connection.target) || !Present(connection.source) then MissingEndpoint
    else
      var s, t := connection.source.value, connection.target.value;
      if s in pairs && t in pairs[s] then Duplicate
      else if t in pairs && s in pairs[t] then Mirror
      else if s == t then SelfLoop
      else Plain
  }

  /** A self-loop's mirror test is its duplicate test, so it never takes the mirror
      branch. */
  lemma SelfLoopNeverMirror(pairs: map<string, seq<string>>, connection: Connection)
    requires Present(connection.source) && connection.source == connection.target
    ensures Classify(pairs, connection) in {Duplicate, SelfLoop}
  {
  }

  /** The edge added for a connection: labelled "e", arched when it mirrors an existing
      edge, and entering on the left handle when it is a self-loop. */
  function NewEdge(connection: Connection, newId: string, kind: ConnectKind): (e: Edge)
    requires Present(connection.source) && Present(connection.target)
    ensures e.source == connection.source.value && e.target == connection.target.value
    ensures e.text == Some("e") && e.id == newId && !e.animated
    ensures e.arch <==> kind == Mirror
    ensures e.sourceHandle == connection.sourceHandle
    ensures e.targetHandle == if kind == SelfLoop then Some("left") else connection.targetHandle
  {
    Edge(newId, connection.source.value, connection.target.value, Some("e"),
         connection.sourceHandle, if kind == SelfLoop then Some("left") else connection.targetHandle,
         kind == Mirror, false)
  }

  function ArchEdge(e: Edge, source: string, target: string): Edge
  {
    if e.source == target && e.target == source then e.(arch := true) else e
  }

  /** The edges with every edge from `target` back to `source` arched. */
  function ArchMirrors(edges: seq<Edge>, source: string, target: string): (r: seq<Edge>)
    ensures |r| == |edges|
    ensures forall i :: 0 <= i < |edges| ==>
              && r[i] == edges[i].(arch := r[i].arch)
              && (edges[i].source == target && edges[i].target == source ==> r[i].arch)
              && (edges[i].source != target || edges[i].target != source ==> r[i] == edges[i])
  {
    seq(|edges|, i requires 0 <= i < |edges| => ArchEdge(edges[i], source, target))
  }

  predicate NoDuplicates(xs: seq<string>)
  {
    forall i, j :: 0 <= i < j < |xs| ==> xs[i] != xs[j]
  }

  /** No source records the same target twice. */
  predicate NoDuplicateTargets(pairs: map<string, seq<string>>)
  {
    forall s :: s in pairs ==> NoDuplicates(pairs[s])
  }

  /** Every recorded pair has an edge from its source to its target. */
  ghost predicate PairsHaveEdges(pairs: map<string, seq<string>>, edges: seq<Edge>)
  {
    forall s, t :: s in pairs && t in pairs[s] ==> exists e :: e in edges && e.source == s && e.target == t
  }

  /** Recording `t` for `s` when it is not yet there keeps every list free of duplicates. */
  lemma RecordKeepsNoDuplicates(pairs: map<string, seq<string>>, s: string, t: string)
    requires NoDuplicateTargets(pairs) && t !in TargetsOf(pairs, s)
    ensures NoDuplicateTargets(pairs[s := TargetsOf(pairs, s) + [t]])
  {
    var xs := TargetsOf(pairs, s) + [t];
    assert NoDuplicates(xs) by {
      forall i, j | 0 <= i < j < |xs| ensures xs[i] != xs[j] {
        if j == |xs| - 1 {
          assert xs[i] in TargetsOf(pairs, s);
        }
      }
    }
  }

  /** Arching edges and appending one from `s` to `t` keeps an edge behind every
      recorded pair, the new pair included. */
  lemma ConnectKeepsPairsBacked(pairs: map<string, seq<string>>, edges: seq<Edge>, arched: seq<Edge>, e: Edge)
    requires PairsHaveEdges(pairs, edges)
    requires |arched| == |edges|
    requires forall i :: 0 <= i < |edges| ==> arched[i].source == edges[i].source && arched[i].target == edges[i].target
    ensures PairsHaveEdges(pairs[e.source := TargetsOf(pairs, e.source) + [e.target]], arched + [e])
  {
    var pairs' := pairs[e.source := TargetsOf(pairs, e.source) + [e.target]];
    var edges' := arched + [e];
    forall s, t | s in pairs' && t in pairs'[s]
      ensures exists x :: x in edges' && x.source == s && x.target == t
    {
      if s == e.source && t == e.target {
        assert edges'[|arched|] == e;
      } else {
        assert s in pairs && t in pairs[s];
        var x :| x in edges && x.source == s && x.target == t;
        var i :| 0 <= i < |edges| && edges[i] == x;
        assert edges'[i] == arched[i];
      }
    }
  }

  /** Connecting the same endpoints again is a duplicate: the handler is idempotent. */
  lemma ConnectTwiceIsDuplicate(pairs: map<string, seq<string>>, connection: Connection)
    requires Present(connection.source) && Present(connection.target)
    ensures var s, t := connection.source.value, connection.target.value;
            Classify(pairs[s := TargetsOf(pairs, s) + [t]], connection) == Duplicate
  {
    var s, t := connection.source.value, connection.target.value;
    assert (TargetsOf(pairs, s) + [t])[|TargetsOf(pairs, s)|] == t;
  }

  /** The editor's edges and its record of connected pairs. */
  class Editor {
    var edges: seq<Edge>
    var edgePairs: map<string, seq<string>>

    ghost predicate Valid()
      reads this
    {
      NoDuplicateTargets(edgePairs) && PairsHaveEdges(edgePairs, edges)
    }

    /** The initial edges, and no pair recorded. */
    constructor(initialEdges: seq<Edge>)
      ensures Valid()
      ensures edges == initialEdges && edgePairs == map[]
    {
      edges := initialEdges;
      edgePairs := map[];
    }

    /** Set the label of the edge with id `id`, one edge at a time. */
    method OnLabelChange(id: string, l: string)
      modifies this
      requires Valid()
      ensures Valid()
      ensures edges == Relabel(old(edges), id, l) && edgePairs == old(edgePairs)
    {
      var eds := edges;
      var relabelled: seq<Edge> := [];
      for i := 0 to |eds|
        invariant relabelled == Relabel(eds[..i], id, l)
      {
        assert eds[..i + 1] == eds[..i] + [eds[i]];
        relabelled := relabelled + [RelabelEdge(eds[i], id, l)];
      }
      assert eds[..|eds|] == eds;
      edges := relabelled;
      EndpointsKeepPairsBacked(edgePairs, eds, relabelled);
    }

    /** Add the edge for `connection` (with the id the graph library gives it), unless
        an endpoint is missing or the pair is already recorded; a mirror also arches
        every edge running the other way. The pair is then recorded. */
    method OnConnect(connection: Connection, newId: string)
      modifies this
      requires Valid()
      ensures Valid()
      ensures var kind := Classify(old(edgePairs), connection);
              kind in {MissingEndpoint, Duplicate} ==> edges == old(edges) && edgePairs == old(edgePairs)
      ensures var kind := Classify(old(edgePairs), connection);
              kind !in {MissingEndpoint, Duplicate} ==>
                var s, t := connection.source.value, connection.target.value;
                && edgePairs == old(edgePairs)[s := TargetsOf(old(edgePairs), s) + [t]]
                && edges == (if kind == Mirror then ArchMirrors(old(edges), s, t) else old(edges))
                            + [NewEdge(connection, newId, kind)]
    {
      var kind := Classify(edgePairs, connection);
      if kind == MissingEndpoint || kind == Duplicate {
        return;
      }
      var s, t := connection.source.value, connection.target.value;
      var eds := edges;
      if kind == Mirror {
        var arched: seq<Edge> := [];
        for i := 0 to |eds|
          invariant arched == ArchMirrors(eds[..i], s, t)
        {
          assert eds[..i + 1] == eds[..i] + [eds[i]];
          arched := arched + [ArchEdge(eds[i], s, t)];
        }
        assert eds[..|eds|] == eds;
        eds := arched;
      }
      var e := NewEdge(connection, newId, kind);
      ConnectKeepsPairsBacked(edgePairs, edges, eds, e);
      RecordKeepsNoDuplicates(edgePairs, s, t);
      edges := eds + [e];
      edgePairs := edgePairs[s := TargetsOf(edgePairs, s) + [t]];
    }
  }

  /** Changing edges without moving their endpoints keeps an edge behind every pair. */
  lemma EndpointsKeepPairsBacked(pairs: map<string, seq<string>>, edges: seq<Edge>, changed: seq<Edge>)
    requires PairsHaveEdges(pairs, edges)
    requires |changed| == |edges|
    requires forall i :: 0 <= i < |edges| ==> changed[i].source == edges[i].source && changed[i].target == edges[i].target
    ensures PairsHaveEdges(pairs, changed)
  {
    forall s, t | s in pairs && t in pairs[s]
      ensures exists x :: x in changed && x.source == s && x.target == t
    {
      var x :| x in edges && x.source == s && x.target == t;
      var i :| 0 <= i < |edges| && edges[i] == x;
      assert changed[i] in changed;
    }
  }
}
