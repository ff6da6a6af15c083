/** The records of src/helpers/types.ts, plus the Option wrapper that stands for
    `T | null` and for optional (`?`) properties. */
module Types {

  datatype Option<+T> = None | Some(value: T)

  /** One outgoing transition of a state. The source type also declares an `id`,
      but the schematic builder never fills it in, so it is not part of the model. */
  datatype TransitionSchematic = TransitionSchematic(symbols: seq<string>, target: string)

  /** One state of the automaton, with its outgoing transitions in edge order. */
  datatype StateSchematic = StateSchematic(
    id: string,
    isAccepting: bool,
    isStarting: bool,
    transitions: seq<TransitionSchematic>)

  /** One step of a replayed run: the state occupied, the symbol read there and,
      except on the last step, the id of the edge taken to leave it. */
  datatype Step = Step(state: string, symbol: string, edge: Option<string>)

  /** A verdict together with the path that justifies it. */
  datatype Witness = Witness(isAccepting: bool, path: seq<Step>)
}
