/** The per-layer initial states a forward pass starts from. */
module Init {
  import opened Common

  /** The all-zero state of a mode: the zero value alone for a plain RNN, the
      zero value twice (hidden and memory) for an LSTM. */
  function ZeroState<V>(mode: Mode, zero: V): (s: State<V>)
    ensures s.h == zero
    ensures s.Pair? <==> mode == LSTM
    ensures s.Pair? ==> s.c == zero
  {
    if mode == LSTM then Pair(zero, zero) else Single(zero)
  }

  /** One zero state per layer. A layer count below one repeats the list zero
      times and so yields no states at all. A forward pass rebuilds this list
      on every call, so no state survives from one call to the next. */
  function InitialStates<V>(mode: Mode, numLayers: int, zero: V): (r: seq<State<V>>)
    ensures |r| == if numLayers > 0 then numLayers else 0
    ensures forall k :: 0 <= k < |r| ==> r[k].h == zero && (r[k].Pair? <==> mode == LSTM)
    ensures forall k :: 0 <= k < |r| ==> r[k] == ZeroState(mode, zero)
  {
    seq(if numLayers > 0 then numLayers else 0, _ => ZeroState(mode, zero))
  }
}
