/** The parts of the graph library's node, edge, connection and node-change records
    that the editor, the simulator and the schematic builder read or write. Everything
    else those records carry (types, handles' geometry, marker styles, callbacks) is
    presentation only. */
module Flow {
  import opened Types

  /** A canvas position. */
  datatype Position = Position(x: int, y: int)

  /** A canvas node: its id, the flags kept in `node.data`, and the background colour
      kept in `node.style` (None until the simulator paints it). */
  datatype Node = Node(id: string, isStarting: bool, isAccepting: bool, background: Option<string>)

  /** A canvas edge. `text` is the optional label; `arch` lives in `edge.data` and bends an edge
      away from its mirror; `animated` is toggled by the simulator. */
  datatype Edge = Edge(
    id: string,
    source: string,
    target: string,
    text: Option<string>,
    sourceHandle: Option<string>,
    targetHandle: Option<string>,
    arch: bool,
    animated: bool)

  /** A connection the user drew; either endpoint may be missing. */
  datatype Connection = Connection(
    source: Option<string>,
    target: Option<string>,
    sourceHandle: Option<string>,
    targetHandle: Option<string>)

  /** A node change reported by the canvas. `dragging` is optional, so it has three
      values: absent, false and true; only `Some(true)` is truthy. */
  datatype NodeChange = NodeChange(
    id: string,
    kind: string,
    position: Option<Position>,
    dragging: Option<bool>)

  /** JavaScript truthiness of an optional string: absent and "" are both falsy. */
  predicate Present(s: Option<string>)
  {
    s.Some? && s.value != ""
  }
}
