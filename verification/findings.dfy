/** Concrete inputs for three behaviours of the bidirectional path and the
    constructor: the join of the backward buffer in visiting order and the
    declared cell widths, each beside its corrected form, and the dropped
    forward final state, which the model keeps as written. */
module Findings {
  import opened Common
  import opened Construction
  import opened Init
  import opened Bidirectional
  import opened ForwardPass

  /** A cell that forgets its state and reports the timestep value it was
      given, so that every output says which timestep produced it. */
  function TagCell(): Cell<int>
  {
    (d: Direction, k: nat, x: Feature<int>, s: State<int>) => Single(if x.Plain? then x.v else x.f)
  }

  /** As written, over timesteps tagged 0 and 1 the backward half of position
      0 comes from timestep 1 and that of position 1 from timestep 0. */
  lemma MisalignedPairs()
    ensures BiLayer(TagCell(), 0, Single(0), Single(0), [Plain(0), Plain(1)])
            == Ok(Output([Concat(0, 1), Concat(1, 0)], Some(Single(0))))
  {
    var ys := [Plain(0), Plain(1)];
    assert Reverse(ys) == [Plain(1), Plain(0)];
    BiLayerPairs(TagCell(), 0, Single(0), Single(0), ys);
    var r := BiLayer(TagCell(), 0, Single(0), Single(0), ys).value;
    assert r.outputs == [r.outputs[0], r.outputs[1]];
  }

  /** With the backward buffer put back in time order, both halves of every
      position come from the same timestep. */
  lemma AlignedPairs()
    ensures BiLayerAligned(TagCell(), 0, Single(0), Single(0), [Plain(0), Plain(1)])
            == Ok(Output([Concat(0, 0), Concat(1, 1)], Some(Single(0))))
  {
    var r := BiLayerAligned(TagCell(), 0, Single(0), Single(0), [Plain(0), Plain(1)]).value;
    assert r.outputs == [r.outputs[0], r.outputs[1]];
  }

  /** The state a bidirectional pass returns is the backward cell's, which
      last saw timestep 0; the forward cell's final state, which saw the last
      timestep, is not returned. */
  lemma ForwardFinalDropped(net: Net)
    requires net.config.bidirectional && net.config.numLayers == 1
    ensures var ys := [Plain(0), Plain(1)];
            && Forward(net, TagCell(), 0, [0, 1]).value.final == Some(Single(0))
            && FwdState(TagCell(), 0, ZeroState(net.mode, 0), ys, 1) == Single(1)
  {
    BiForwardLast(net, TagCell(), 0, [0, 1]);
    assert Columns([0, 1]) == [Plain(0), Plain(1)];
  }

  /** A bidirectional two-layer module with input width 4 and hidden width 3
      declares its first backward cell with width 3 although it is fed width
      4, and its second-layer cells with width 3 although they are fed 6. */
  lemma DeclaredWidthMismatch()
    ensures var cfg := Config(4, 3, 2, None, true, None, false, true);
            var net := Build("LSTM", cfg).value;
            && Build("LSTM", cfg).Ok?
            && net.backCells[0].inputSize == 3 && FedWidth(cfg, 0) == 4
            && net.cells[1].inputSize == 3 && net.backCells[1].inputSize == 3 && FedWidth(cfg, 1) == 6
  {
  }

  /** The intended construction declares those cells with widths 4 and 6. */
  lemma IntendedWidths()
    ensures var cfg := Config(4, 3, 2, None, true, None, false, true);
            var net := BuildIntended("LSTM", cfg).value;
            && BuildIntended("LSTM", cfg).Ok?
            && net.cells[0].inputSize == 4 && net.backCells[0].inputSize == 4
            && net.cells[1].inputSize == 6 && net.backCells[1].inputSize == 6
  {
  }
}
