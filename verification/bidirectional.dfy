/** The bidirectional forward pass: layers in the outer loop; per layer a
    forward sweep over the timesteps, a backward sweep over them in reverse,
    and the two hidden-value buffers joined position by position. */
module Bidirectional {
  import opened Common

  /** Reference definition: the state of the forward cell of layer `k` right
      after consuming timestep `t` of `ys`, starting from `s0`. */
  function FwdState<V>(cell: Cell<V>, k: nat, s0: State<V>, ys: seq<Feature<V>>, t: nat): State<V>
    requires t < |ys|
    decreases t
  {
    cell(Fwd, k, ys[t], if t == 0 then s0 else FwdState(cell, k, s0, ys, t - 1))
  }

  /** Reference definition: the state of the backward cell of layer `k` right
      after consuming timestep `t`, having consumed the later timesteps
      before it, starting from `s0`. */
  function BwdState<V>(cell: Cell<V>, k: nat, s0: State<V>, ys: seq<Feature<V>>, t: nat): State<V>
    requires t < |ys|
    decreases |ys| - t
  {
    cell(Bwd, k, ys[t], if t == |ys| - 1 then s0 else BwdState(cell, k, s0, ys, t + 1))
  }

  /** A sequence reversed: the timesteps in the order the backward sweep
      visits them. */
  function Reverse<T>(s: seq<T>): (r: seq<T>)
    ensures |r| == |s|
    ensures forall j :: 0 <= j < |s| ==> r[j] == s[|s| - 1 - j]
  {
    seq(|s|, j requires 0 <= j < |s| => s[|s| - 1 - j])
  }

  /** The states one cell produces while consuming `zs` in the given order,
      starting from `s0`: each step continues from the state before it. */
  function Sweep<V>(cell: Cell<V>, d: Direction, k: nat, s0: State<V>, zs: seq<Feature<V>>): (r: seq<State<V>>)
    ensures |r| == |zs|
    ensures |zs| > 0 ==> r[0] == cell(d, k, zs[0], s0)
    ensures forall i :: 0 < i < |zs| ==> r[i] == cell(d, k, zs[i], r[i - 1])
    decreases |zs|
  {
    if |zs| == 0 then []
    else
      var p := Sweep(cell, d, k, s0, zs[..|zs| - 1]);
      p + [cell(d, k, zs[|zs| - 1], if |p| == 0 then s0 else p[|p| - 1])]
  }

  /** The forward sweep visits the timesteps in order 0 .. T-1. */
  lemma {:induction false} ForwardSweep<V>(cell: Cell<V>, k: nat, s0: State<V>, ys: seq<Feature<V>>)
    ensures forall t :: 0 <= t < |ys| ==> Sweep(cell, Fwd, k, s0, ys)[t] == FwdState(cell, k, s0, ys, t)
  {
    var r := Sweep(cell, Fwd, k, s0, ys);
    forall t | 0 <= t < |ys|
      ensures r[t] == FwdState(cell, k, s0, ys, t)
    {
      ForwardSweepAt(cell, k, s0, ys, t);
    }
  }

  lemma {:induction false} ForwardSweepAt<V>(cell: Cell<V>, k: nat, s0: State<V>, ys: seq<Feature<V>>, t: nat)
    requires t < |ys|
    ensures Sweep(cell, Fwd, k, s0, ys)[t] == FwdState(cell, k, s0, ys, t)
    decreases t
  {
    if t > 0 {
      ForwardSweepAt(cell, k, s0, ys, t - 1);
    }
  }

  /** The backward sweep visits the timesteps in order T-1 .. 0: its `j`-th
      state is the one produced at timestep T-1-j. */
  lemma {:induction false} BackwardSweep<V>(cell: Cell<V>, k: nat, s0: State<V>, ys: seq<Feature<V>>)
    ensures forall j :: 0 <= j < |ys| ==>
              Sweep(cell, Bwd, k, s0, Reverse(ys))[j] == BwdState(cell, k, s0, ys, |ys| - 1 - j)
  {
    var r := Sweep(cell, Bwd, k, s0, Reverse(ys));
    forall j | 0 <= j < |ys|
      ensures r[j] == BwdState(cell, k, s0, ys, |ys| - 1 - j)
    {
      BackwardSweepAt(cell, k, s0, ys, j);
    }
  }

  lemma {:induction false} BackwardSweepAt<V>(cell: Cell<V>, k: nat, s0: State<V>, ys: seq<Feature<V>>, j: nat)
    requires j < |ys|
    ensures Sweep(cell, Bwd, k, s0, Reverse(ys))[j] == BwdState(cell, k, s0, ys, |ys| - 1 - j)
    decreases j
  {
    if j > 0 {
      BackwardSweepAt(cell, k, s0, ys, j - 1);
    }
  }

  /** Joins the two hidden-value buffers along the feature axis, position by
      position. */
  function Join<V>(fs: seq<V>, bs: seq<V>): (r: seq<Feature<V>>)
    requires |fs| == |bs|
    ensures |r| == |fs|
    ensures forall j :: 0 <= j < |fs| ==> r[j] == Concat(fs[j], bs[j])
  {
    seq(|fs|, j requires 0 <= j < |fs| => Concat(fs[j], bs[j]))
  }

  /** One layer as written: both sweeps, the backward buffer joined in the
      order it was filled, and the backward cell's last state as the layer's
      result state. Stacking an empty buffer fails. */
  function BiLayer<V>(cell: Cell<V>, k: nat, sf: State<V>, sb: State<V>, ys: seq<Feature<V>>): (r: Result<Output<V>>)
    ensures r.Ok? <==> |ys| > 0
    ensures r.Err? ==> r.error == EmptySequence
    ensures r.Ok? ==> |r.value.outputs| == |ys| && r.value.final.Some?
  {
    if |ys| == 0 then Err(EmptySequence)
    else
      var f := Sweep(cell, Fwd, k, sf, ys);
      var b := Sweep(cell, Bwd, k, sb, Reverse(ys));
      Ok(Output(Join(Hiddens(f), Hiddens(b)), Some(b[|b| - 1])))
  }

  /** What one layer yields: position `j` joins the forward hidden value of
      timestep `j` with the backward hidden value computed at timestep T-1-j,
      and the layer's state is the backward cell's state after consuming
      timestep 0. */
  lemma BiLayerPairs<V>(cell: Cell<V>, k: nat, sf: State<V>, sb: State<V>, ys: seq<Feature<V>>)
    requires |ys| > 0
    ensures forall j :: 0 <= j < |ys| ==>
              BiLayer(cell, k, sf, sb, ys).value.outputs[j]
                == Concat(FwdState(cell, k, sf, ys, j).h, BwdState(cell, k, sb, ys, |ys| - 1 - j).h)
    ensures BiLayer(cell, k, sf, sb, ys).value.final == Some(BwdState(cell, k, sb, ys, 0))
  {
    ForwardSweep(cell, k, sf, ys);
    BackwardSweep(cell, k, sb, ys);
  }

  /** A layer is determined by its two buffers: whatever holds the forward
      hidden values in time order and the backward ones in visiting order
      joins into the layer's output. */
  lemma BiLayerFromBuffers<V>(cell: Cell<V>, k: nat, sf: State<V>, sb: State<V>, ys: seq<Feature<V>>,
                              fs: seq<V>, bs: seq<V>)
    requires |ys| > 0 && |fs| == |ys| && |bs| == |ys|
    requires forall i :: 0 <= i < |ys| ==> fs[i] == FwdState(cell, k, sf, ys, i).h
    requires forall i :: 0 <= i < |ys| ==> bs[i] == BwdState(cell, k, sb, ys, |ys| - 1 - i).h
    ensures BiLayer(cell, k, sf, sb, ys) == Ok(Output(Join(fs, bs), Some(BwdState(cell, k, sb, ys, 0))))
  {
    BiLayerPairs(cell, k, sf, sb, ys);
    var r := BiLayer(cell, k, sf, sb, ys).value;
    assert r.outputs == Join(fs, bs);
  }

  /** The first `n` layers of the bidirectional pass over `xs`: layer `n-1`
      consumes what layer `n-2` produced, starting from its own entries of
      the two initial state lists. Without layers the input is returned as it
      is and no state was ever produced. */
  function UnrollBi<V>(cell: Cell<V>, initF: seq<State<V>>, initB: seq<State<V>>, xs: seq<Feature<V>>, n: nat): (r: Result<Output<V>>)
    requires n <= |initF| && n <= |initB|
    ensures r.Ok? <==> n == 0 || |xs| > 0
    ensures r.Err? ==> r.error == EmptySequence
    ensures r.Ok? ==> |r.value.outputs| == |xs|
    ensures r.Ok? ==> (r.value.final.Some? <==> n > 0)
    ensures r.Ok? && n > 0 ==> forall j :: 0 <= j < |xs| ==> r.value.outputs[j].Concat?
    decreases n
  {
    if n == 0 then Ok(Output(xs, None))
    else
      match UnrollBi(cell, initF, initB, xs, n - 1)
      case Err(e) => Err(e)
      case Ok(prev) => BiLayer(cell, n - 1, initF[n - 1], initB[n - 1], prev.outputs)
  }

  /** What the last of `n >= 1` layers consumes: the input itself for one
      layer, otherwise the joined pairs of the layer below. */
  lemma UnrollBiLast<V>(cell: Cell<V>, initF: seq<State<V>>, initB: seq<State<V>>, xs: seq<Feature<V>>, n: nat)
    requires 0 < n <= |initF| && n <= |initB| && |xs| > 0
    ensures var ys := UnrollBi(cell, initF, initB, xs, n - 1).value.outputs;
            var r := UnrollBi(cell, initF, initB, xs, n).value;
            && |ys| == |xs|
            && (n > 1 ==> forall j :: 0 <= j < |ys| ==> ys[j].Concat?)
            && r.final == Some(BwdState(cell, n - 1, initB[n - 1], ys, 0))
            && forall j :: 0 <= j < |xs| ==>
                 r.outputs[j] == Concat(FwdState(cell, n - 1, initF[n - 1], ys, j).h,
                                        BwdState(cell, n - 1, initB[n - 1], ys, |xs| - 1 - j).h)
  {
    var ys := UnrollBi(cell, initF, initB, xs, n - 1).value.outputs;
    assert UnrollBi(cell, initF, initB, xs, n) == BiLayer(cell, n - 1, initF[n - 1], initB[n - 1], ys);
    BiLayerPairs(cell, n - 1, initF[n - 1], initB[n - 1], ys);
  }

  /** The forward loop of one layer: timesteps 0 .. T-1, each step updating
      the layer's entry of the state list and appending the new hidden value
      to the forward buffer. */
  method ForwardLoop<V>(cell: Cell<V>, num: nat, states: seq<State<V>>, input: seq<Feature<V>>)
    returns (states': seq<State<V>>, outputsF: seq<V>, hx: Option<State<V>>)
    requires num < |states|
    ensures |states'| == |states|
    ensures forall j :: 0 <= j < |states| && j != num ==> states'[j] == states[j]
    ensures |outputsF| == |input|
    ensures forall i :: 0 <= i < |input| ==> outputsF[i] == FwdState(cell, num, states[num], input, i).h
    ensures hx.Some? <==> |input| > 0
    ensures |input| > 0 ==> hx == Some(FwdState(cell, num, states[num], input, |input| - 1)) == Some(states'[num])
  {
    states' := states;
    outputsF := [];
    hx := None;
    var t := 0;
    while t < |input|
      invariant 0 <= t <= |input|
      invariant |states'| == |states|
      invariant forall j :: 0 <= j < |states| && j != num ==> states'[j] == states[j]
      invariant |outputsF| == t
      invariant forall i :: 0 <= i < t ==> outputsF[i] == FwdState(cell, num, states[num], input, i).h
      invariant states'[num] == if t == 0 then states[num] else FwdState(cell, num, states[num], input, t - 1)
      invariant hx.Some? <==> t > 0
      invariant t > 0 ==> hx == Some(states'[num])
    {
      var s := cell(Fwd, num, input[t], states'[num]);
      hx := Some(s);
      states' := states'[num := s];
      outputsF := outputsF + [s.h];
      t := t + 1;
    }
  }

  /** The backward loop of one layer: timesteps T-1 .. 0, each step updating
      the layer's entry of the backward state list and appending the new
      hidden value to the backward buffer, which thus fills in reverse time
      order. */
  method BackwardLoop<V>(cell: Cell<V>, num: nat, statesB: seq<State<V>>, input: seq<Feature<V>>)
    returns (statesB': seq<State<V>>, outputsB: seq<V>, hx: Option<State<V>>)
    requires num < |statesB|
    ensures |statesB'| == |statesB|
    ensures forall j :: 0 <= j < |statesB| && j != num ==> statesB'[j] == statesB[j]
    ensures |outputsB| == |input|
    ensures forall i :: 0 <= i < |input| ==> outputsB[i] == BwdState(cell, num, statesB[num], input, |input| - 1 - i).h
    ensures hx.Some? <==> |input| > 0
    ensures |input| > 0 ==> hx == Some(BwdState(cell, num, statesB[num], input, 0)) == Some(statesB'[num])
  {
    statesB' := statesB;
    outputsB := [];
    hx := None;
    var t := |input|;
    while t > 0
      invariant 0 <= t <= |input|
      invariant |statesB'| == |statesB|
      invariant forall j :: 0 <= j < |statesB| && j != num ==> statesB'[j] == statesB[j]
      invariant |outputsB| == |input| - t
      invariant forall i :: 0 <= i < |input| - t ==> outputsB[i] == BwdState(cell, num, statesB[num], input, |input| - 1 - i).h
      invariant statesB'[num] == if t == |input| then statesB[num] else BwdState(cell, num, statesB[num], input, t)
      invariant hx.Some? <==> t < |input|
      invariant t < |input| ==> hx == Some(statesB'[num])
    {
      t := t - 1;
      var s := cell(Bwd, num, input[t], statesB'[num]);
      hx := Some(s);
      statesB' := statesB'[num := s];
      outputsB := outputsB + [s.h];
    }
  }

  /** One iteration of the layer loop: the forward loop, the backward loop,
      and the two buffers joined into the layer's output. The backward loop
      runs last, so its last state is the `hx` the layer leaves behind; with
      no timesteps the buffers are empty and stacking them fails. */
  method LayerLoop<V>(cell: Cell<V>, num: nat, states: seq<State<V>>, statesB: seq<State<V>>, input: seq<Feature<V>>)
    returns (states': seq<State<V>>, statesB': seq<State<V>>, r: Result<Output<V>>)
    requires num < |states| && num < |statesB|
    ensures |states'| == |states| && |statesB'| == |statesB|
    ensures forall j :: 0 <= j < |states| && j != num ==> states'[j] == states[j]
    ensures forall j :: 0 <= j < |statesB| && j != num ==> statesB'[j] == statesB[j]
    ensures r == BiLayer(cell, num, states[num], statesB[num], input)
  {
    var outputsF, outputsB, hxF, hxB;
    states', outputsF, hxF := ForwardLoop(cell, num, states, input);
    statesB', outputsB, hxB := BackwardLoop(cell, num, statesB, input);
    if |outputsF| == 0 || |outputsB| == 0 {
      return states', statesB', Err(EmptySequence);
    }
    BiLayerFromBuffers(cell, num, states[num], statesB[num], input, outputsF, outputsB);
    r := Ok(Output(Join(outputsF, outputsB), hxB));
  }

  /** The layer loop of the bidirectional pass: each layer reads what the
      layer below joined, its buffers start empty, and the last state bound
      is the one returned. */
  method BiLoop<V>(cell: Cell<V>, initF: seq<State<V>>, initB: seq<State<V>>, xs: seq<Feature<V>>, numLayers: nat)
    returns (r: Result<Output<V>>)
    requires numLayers <= |initF| && numLayers <= |initB|
    ensures r == UnrollBi(cell, initF, initB, xs, numLayers)
  {
    var states := initF;
    var statesB := initB;
    var input := xs;
    var hx: Option<State<V>> := None;
    var num := 0;
    while num < numLayers
      invariant 0 <= num <= numLayers
      invariant |states| == |initF| && |statesB| == |initB|
      invariant forall j :: num <= j < |initF| ==> states[j] == initF[j]
      invariant forall j :: num <= j < |initB| ==> statesB[j] == initB[j]
      invariant UnrollBi(cell, initF, initB, xs, num) == Ok(Output(input, hx))
    {
      var layer;
      states, statesB, layer := LayerLoop(cell, num, states, statesB, input);
      if layer.Err? {
        return Err(layer.error);
      }
      input, hx := layer.value.outputs, layer.value.final;
      num := num + 1;
    }
    r := Ok(Output(input, hx));
  }

  /** The intended layer: the backward buffer is put back in time order
      before the join, so that position `j` joins the forward and backward
      hidden values computed at the same timestep `j`. */
  function BiLayerAligned<V>(cell: Cell<V>, k: nat, sf: State<V>, sb: State<V>, ys: seq<Feature<V>>): (r: Result<Output<V>>)
    ensures r.Ok? <==> |ys| > 0
    ensures r.Ok? ==> |r.value.outputs| == |ys|
    ensures r.Ok? ==> forall j :: 0 <= j < |ys| ==>
              r.value.outputs[j] == Concat(FwdState(cell, k, sf, ys, j).h, BwdState(cell, k, sb, ys, j).h)
    ensures r.Ok? ==> r.value.final == Some(BwdState(cell, k, sb, ys, 0))
  {
    if |ys| == 0 then Err(EmptySequence)
    else
      var f := Sweep(cell, Fwd, k, sf, ys);
      var b := Sweep(cell, Bwd, k, sb, Reverse(ys));
      ForwardSweep(cell, k, sf, ys);
      BackwardSweep(cell, k, sb, ys);
      Ok(Output(Join(Hiddens(f), Reverse(Hiddens(b))), Some(b[|b| - 1])))
  }
}
