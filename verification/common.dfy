/** Shared vocabulary of the recurrent-network model: the outcome types, the
    closed set of cell modes, the per-layer state, the feature slices a cell
    consumes and the shape of an uninterpreted cell. */
module Common {

  datatype Option<+T> = None | Some(value: T)

  /** The ways construction or a forward pass can fail. */
  datatype Error =
    | UnknownMode(name: string) // the mode string is not a key of the mode table
    | EmptySequence             // no timestep was produced, so there is nothing to stack
    | UnboundHidden             // no cell ran, so the last hidden state was never bound

  datatype Result<+T> = Ok(value: T) | Err(error: Error)

  /** The two cell kinds the mode table knows about. */
  datatype Mode = RNN | LSTM

  /** The literal under which a mode is registered in the mode table. */
  function ModeName(m: Mode): (s: string)
    ensures ParseMode(s) == Some(m)
  {
    match m
    case RNN => "RNN"
    case LSTM => "LSTM"
  }

  /** Looks a mode string up in the mode table; an unknown key finds nothing. */
  function ParseMode(name: string): (r: Option<Mode>)
    ensures r == Some(RNN) <==> name == "RNN"
    ensures r == Some(LSTM) <==> name == "LSTM"
  {
    if name == "RNN" then Some(RNN)
    else if name == "LSTM" then Some(LSTM)
    else None
  }

  /** Which of the two stacks of cells a call goes to. */
  datatype Direction = Fwd | Bwd

  /** A layer's recurrent state for one batch: a hidden value alone (plain
      RNN), or a hidden value together with the cell memory (LSTM). Both
      variants expose the hidden component as `h`. */
  datatype State<V> = Single(h: V) | Pair(h: V, c: V)

  /** The features a cell consumes at one timestep: one slice (a column of the
      input or a hidden value), or a forward and a backward hidden value
      joined along the feature axis. */
  datatype Feature<V> = Plain(v: V) | Concat(f: V, b: V)

  /** An uninterpreted cell: given its direction, its layer, the features of
      one timestep and its previous state, it yields the new state. */
  type Cell<!V> = (Direction, nat, Feature<V>, State<V>) -> State<V>

  /** A cell that returns a state of the same kind as the one it was given,
      as the cell of each mode does. */
  ghost predicate KeepsKind<V(!new)>(cell: Cell<V>)
  {
    forall d, k, x, s :: cell(d, k, x, s).Pair? == s.Pair?
  }

  /** What a forward pass returns: the output sequence, one feature slice per
      timestep, and the final state, absent when no cell was ever run. */
  datatype Output<V> = Output(outputs: seq<Feature<V>>, final: Option<State<V>>)

  /** The hidden components of a sequence of states, in order. */
  function Hiddens<V>(ss: seq<State<V>>): (r: seq<V>)
    ensures |r| == |ss|
    ensures forall i :: 0 <= i < |ss| ==> r[i] == ss[i].h
  {
    seq(|ss|, i requires 0 <= i < |ss| => ss[i].h)
  }
}
