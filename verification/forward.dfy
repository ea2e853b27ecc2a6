/** The forward pass of a constructed module: fresh zero states for every
    call, then the unidirectional or the bidirectional unrolling, then the
    result assembled from the recorded states. */
module ForwardPass {
  import opened Common
  import opened Construction
  import opened Init
  import opened Unidirectional
  import opened Bidirectional

  /** The columns of the input, one plain feature slice per timestep. */
  function Columns<V>(xs: seq<V>): (r: seq<Feature<V>>)
    ensures |r| == |xs|
    ensures forall t :: 0 <= t < |xs| ==> r[t] == Plain(xs[t])
  {
    seq(|xs|, t requires 0 <= t < |xs| => Plain(xs[t]))
  }

  /** The unidirectional result: the hidden components of the recorded
      states, stacked over time, and the last recorded state as it is. Nothing
      recorded means
      there is nothing to stack and no last element. */
  function UniOutput<V>(run: Run<V>): (r: Result<Output<V>>)
    ensures r.Ok? <==> |run.outputs| > 0
    ensures r.Err? ==> r.error == EmptySequence
    ensures r.Ok? ==> |r.value.outputs| == |run.outputs|
    ensures r.Ok? ==> forall t :: 0 <= t < |run.outputs| ==> r.value.outputs[t] == Plain(run.outputs[t].h)
    ensures r.Ok? ==> r.value.final == Some(run.outputs[|run.outputs| - 1])
  {
    if |run.outputs| == 0 then Err(EmptySequence)
    else Ok(Output(Columns(Hiddens(run.outputs)), Some(run.outputs[|run.outputs| - 1])))
  }

  /** One call of the forward pass on the input columns `xs`, with `zero`
      standing for the zero value of one batch and `cell` for the module's
      cells. */
  function Forward<V>(net: Net, cell: Cell<V>, zero: V, xs: seq<V>): (r: Result<Output<V>>)
    ensures var n := net.config.numLayers;
            r.Ok? <==> if net.config.bidirectional then n <= 0 || |xs| > 0 else n > 0 && |xs| > 0
    ensures r.Err? ==> r.error == if |xs| == 0 then EmptySequence else UnboundHidden
    ensures r.Ok? ==> |r.value.outputs| == |xs|
    ensures r.Ok? ==> (r.value.final.None? <==> net.config.bidirectional && net.config.numLayers <= 0)
    ensures r.Ok? && !net.config.bidirectional ==>
              forall t :: 0 <= t < |xs| ==> r.value.outputs[t].Plain?
    ensures r.Ok? && !net.config.bidirectional ==>
              r.value.outputs[|xs| - 1] == Plain(r.value.final.value.h)
    ensures r.Ok? && net.config.bidirectional && net.config.numLayers <= 0 ==>
              r.value.outputs == Columns(xs)
    ensures r.Ok? && net.config.bidirectional && net.config.numLayers > 0 ==>
              forall t :: 0 <= t < |xs| ==> r.value.outputs[t].Concat?
  {
    var init := InitialStates(net.mode, net.config.numLayers, zero);
    if net.config.bidirectional then
      UnrollBi(cell, init, InitialStates(net.mode, net.config.numLayers, zero), Columns(xs), |init|)
    else
      match UnrollUni(cell, init, xs)
      case Err(e) => Err(e)
      case Ok(run) => UniOutput(run)
  }

  /** The forward method as written: zero states built afresh, then the
      loops of one of the two paths. */
  method RunForward<V>(net: Net, cell: Cell<V>, zero: V, xs: seq<V>) returns (r: Result<Output<V>>)
    ensures r == Forward(net, cell, zero, xs)
  {
    var states := InitialStates(net.mode, net.config.numLayers, zero);
    if net.config.bidirectional {
      var statesB := InitialStates(net.mode, net.config.numLayers, zero);
      r := BiLoop(cell, states, statesB, Columns(xs), |states|);
    } else {
      var run := UniLoop(cell, states, xs);
      if run.Err? {
        return Err(run.error);
      }
      r := UniOutput(run.value);
    }
  }

  /** Unidirectional results in terms of the reference grid over the zero
      initial states: entry `t` of the output is the hidden value of the last
      layer's state right after timestep `t`, and the returned state is the
      last layer's state after the last timestep. */
  lemma UniForwardGrid<V>(net: Net, cell: Cell<V>, zero: V, xs: seq<V>)
    requires !net.config.bidirectional && net.config.numLayers > 0 && |xs| > 0
    ensures var init := InitialStates(net.mode, net.config.numLayers, zero);
            var r := Forward(net, cell, zero, xs);
            && r.Ok?
            && (forall t :: 0 <= t < |xs| ==>
                  r.value.outputs[t] == Plain(Grid(cell, init, xs, net.config.numLayers - 1, t).h))
            && r.value.final == Some(Grid(cell, init, xs, net.config.numLayers - 1, |xs| - 1))
  {
    var init := InitialStates(net.mode, net.config.numLayers, zero);
    UnrollUniMatchesGrid(cell, init, xs);
  }

  /** With cells that keep the kind of their state, the unidirectional pass
      returns an (h, c) pair in LSTM mode, and in plain-RNN mode exactly the
      last element of the output sequence. */
  lemma UniFinalState<V(!new)>(net: Net, cell: Cell<V>, zero: V, xs: seq<V>)
    requires KeepsKind(cell) && !net.config.bidirectional && Forward(net, cell, zero, xs).Ok?
    ensures var r := Forward(net, cell, zero, xs).value;
            && (net.mode == LSTM ==> r.final.value.Pair?)
            && (net.mode == RNN ==> r.outputs[|xs| - 1] == Plain(r.final.value.h) && r.final == Some(Single(r.final.value.h)))
  {
    var n := net.config.numLayers;
    var init := InitialStates(net.mode, n, zero);
    UniForwardGrid(net, cell, zero, xs);
    GridKind(cell, init, xs, n - 1, |xs| - 1);
  }

  /** Bidirectional results: the returned state is the last layer's backward
      cell state after consuming timestep 0, and output position `j` joins
      the last layer's forward hidden value of timestep `j` with its backward
      hidden value of timestep T-1-j; for more than one layer, that layer
      consumes the joined pairs of the layer below. */
  lemma BiForwardLast<V>(net: Net, cell: Cell<V>, zero: V, xs: seq<V>)
    requires net.config.bidirectional && net.config.numLayers > 0 && |xs| > 0
    ensures var n := net.config.numLayers;
            var init := InitialStates(net.mode, n, zero);
            var ys := UnrollBi(cell, init, init, Columns(xs), n - 1).value.outputs;
            var r := Forward(net, cell, zero, xs);
            && r.Ok?
            && |ys| == |xs|
            && (n == 1 ==> ys == Columns(xs))
            && (n > 1 ==> forall j :: 0 <= j < |ys| ==> ys[j].Concat?)
            && r.value.final == Some(BwdState(cell, n - 1, ZeroState(net.mode, zero), ys, 0))
            && forall j :: 0 <= j < |xs| ==>
                 r.value.outputs[j] == Concat(FwdState(cell, n - 1, ZeroState(net.mode, zero), ys, j).h,
                                              BwdState(cell, n - 1, ZeroState(net.mode, zero), ys, |xs| - 1 - j).h)
  {
    var n := net.config.numLayers;
    var init := InitialStates(net.mode, n, zero);
    assert |init| == n && init[n - 1] == ZeroState(net.mode, zero);
    assert Forward(net, cell, zero, xs) == UnrollBi(cell, init, init, Columns(xs), n);
    UnrollBiLast(cell, init, init, Columns(xs), n);
  }

  /** A one-layer unidirectional pass over a single timestep is one cell
      step from the zero state. */
  lemma SingleStep<V>(net: Net, cell: Cell<V>, zero: V, xs: seq<V>)
    requires !net.config.bidirectional && net.config.numLayers == 1 && |xs| == 1
    ensures var s := cell(Fwd, 0, Plain(xs[0]), ZeroState(net.mode, zero));
            Forward(net, cell, zero, xs) == Ok(Output([Plain(s.h)], Some(s)))
  {
    var init := InitialStates(net.mode, 1, zero);
    UnrollUniMatchesGrid(cell, init, xs);
    var r := Forward(net, cell, zero, xs).value;
    assert r.outputs == [r.outputs[0]];
  }
}
