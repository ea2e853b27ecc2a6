/** The unidirectional forward pass: time in the outer loop, layers in the
    inner loop. Each layer keeps its own state across timesteps; within one
    timestep the hidden value of layer k-1 is the input of layer k. */
module Unidirectional {
  import opened Common

  /** Reference definition: the state of layer `k` right after timestep `t`.
      Layer 0 reads column `t` of the input, layer k reads the hidden value
      layer k-1 produced at the same timestep, and every layer continues from
      its own state of the previous timestep (its initial state at t = 0). */
  function Grid<V>(cell: Cell<V>, init: seq<State<V>>, xs: seq<V>, k: nat, t: nat): State<V>
    requires k < |init| && t < |xs|
    decreases t, k
  {
    cell(Fwd, k,
         if k == 0 then Plain(xs[t]) else Plain(Grid(cell, init, xs, k - 1, t).h),
         if t == 0 then init[k] else Grid(cell, init, xs, k, t - 1))
  }

  /** The features layer `k` consumes at timestep `t`. */
  function LayerInput<V>(cell: Cell<V>, init: seq<State<V>>, xs: seq<V>, k: nat, t: nat): Feature<V>
    requires k < |init| && t < |xs|
  {
    if k == 0 then Plain(xs[t]) else Plain(Grid(cell, init, xs, k - 1, t).h)
  }

  /** The state layer `k` holds before timestep `t`. */
  function Before<V>(init: seq<State<V>>, cell: Cell<V>, xs: seq<V>, k: nat, t: nat): State<V>
    requires k < |init| && t < |xs|
  {
    if t == 0 then init[k] else Grid(cell, init, xs, k, t - 1)
  }

  /** One pass of the inner loop from layer `k` upwards: each layer's cell
      consumes `x`, its new state replaces the layer's entry, and the new
      hidden value becomes `x` for the next layer. */
  function Chain<V>(cell: Cell<V>, states: seq<State<V>>, x: Feature<V>, k: nat): (r: seq<State<V>>)
    requires k <= |states|
    ensures |r| == |states|
    ensures r[..k] == states[..k]
    decreases |states| - k
  {
    if k == |states| then states
    else
      var s := cell(Fwd, k, x, states[k]);
      var r := Chain(cell, states[k := s], Plain(s.h), k + 1);
      assert r[..k] == r[..k + 1][..k];
      r
  }

  /** The state list after the last timestep and the list of per-timestep
      results (the last layer's new state at each timestep). */
  datatype Run<V> = Run(states: seq<State<V>>, outputs: seq<State<V>>)

  /** The unidirectional unrolling over `xs`, by timesteps. With no layers the
      inner loop never binds a result, which is an error as soon as there is a
      timestep to record. */
  function UnrollUni<V>(cell: Cell<V>, init: seq<State<V>>, xs: seq<V>): (r: Result<Run<V>>)
    ensures r.Ok? <==> |xs| == 0 || |init| > 0
    ensures r.Err? ==> r.error == UnboundHidden
    ensures r.Ok? ==> |r.value.states| == |init| && |r.value.outputs| == |xs|
    ensures r.Ok? && |xs| > 0 ==> r.value.outputs[|xs| - 1] == r.value.states[|init| - 1]
    decreases |xs|
  {
    if |xs| == 0 then Ok(Run(init, []))
    else
      match UnrollUni(cell, init, xs[..|xs| - 1])
      case Err(e) => Err(e)
      case Ok(run) =>
        if |init| == 0 then Err(UnboundHidden)
        else
          var next := Chain(cell, run.states, Plain(xs[|xs| - 1]), 0);
          Ok(Run(next, run.outputs + [next[|next| - 1]]))
  }

  /** The grid state of layer `k` at timestep `t` is its cell applied to the
      layer's input and to the state it held before. */
  lemma GridStep<V>(cell: Cell<V>, init: seq<State<V>>, xs: seq<V>, k: nat, t: nat)
    requires k < |init| && t < |xs|
    ensures Grid(cell, init, xs, k, t) == cell(Fwd, k, LayerInput(cell, init, xs, k, t), Before(init, cell, xs, k, t))
  {
  }

  /** The inner loop establishes the whole column of the grid at timestep
      `t`, given that layers below `k` already hold it, layers from `k` on
      still hold their previous states, and `x` is what layer `k` consumes. */
  lemma {:induction false} ChainGrid<V>(cell: Cell<V>, init: seq<State<V>>, xs: seq<V>, t: nat,
                                        states: seq<State<V>>, x: Feature<V>, k: nat)
    requires t < |xs| && k <= |states| == |init|
    requires forall j :: 0 <= j < k ==> states[j] == Grid(cell, init, xs, j, t)
    requires forall j :: k <= j < |states| ==> states[j] == Before(init, cell, xs, j, t)
    requires k < |states| ==> x == LayerInput(cell, init, xs, k, t)
    ensures forall j :: 0 <= j < |states| ==> Chain(cell, states, x, k)[j] == Grid(cell, init, xs, j, t)
    decreases |states| - k
  {
    if k < |states| {
      var s := cell(Fwd, k, x, states[k]);
      GridStep(cell, init, xs, k, t);
      var states' := states[k := s];
      ChainGrid(cell, init, xs, t, states', Plain(s.h), k + 1);
      assert Chain(cell, states, x, k) == Chain(cell, states', Plain(s.h), k + 1);
    }
  }

  /** The grid entries up to timestep `t` depend only on the first `m`
      input columns when `t < m`. */
  lemma {:induction false} GridPrefix<V>(cell: Cell<V>, init: seq<State<V>>, xs: seq<V>, m: nat, k: nat, t: nat)
    requires k < |init| && t < m <= |xs|
    ensures Grid(cell, init, xs[..m], k, t) == Grid(cell, init, xs, k, t)
    decreases t, k
  {
    if k > 0 {
      GridPrefix(cell, init, xs, m, k - 1, t);
    }
    if t > 0 {
      GridPrefix(cell, init, xs, m, k, t - 1);
    }
  }

  /** The unrolling agrees with the reference grid: after the last timestep
      every layer holds its grid state, and the result recorded at timestep
      `t` is the last layer's state right after `t`. */
  lemma {:induction false} UnrollUniMatchesGrid<V>(cell: Cell<V>, init: seq<State<V>>, xs: seq<V>)
    requires |init| > 0
    ensures UnrollUni(cell, init, xs).Ok?
    ensures |xs| > 0 ==> forall k :: 0 <= k < |init| ==>
              UnrollUni(cell, init, xs).value.states[k] == Grid(cell, init, xs, k, |xs| - 1)
    ensures forall t :: 0 <= t < |xs| ==>
              UnrollUni(cell, init, xs).value.outputs[t] == Grid(cell, init, xs, |init| - 1, t)
    decreases |xs|
  {
    if |xs| > 0 {
      var n := |xs| - 1;
      var pre := xs[..n];
      UnrollUniMatchesGrid(cell, init, pre);
      var run := UnrollUni(cell, init, pre).value;
      forall j | 0 <= j < |init|
        ensures run.states[j] == Before(init, cell, xs, j, n)
      {
        if n > 0 {
          GridPrefix(cell, init, xs, n, j, n - 1);
        }
      }
      ChainGrid(cell, init, xs, n, run.states, Plain(xs[n]), 0);
      forall t | 0 <= t < n
        ensures run.outputs[t] == Grid(cell, init, xs, |init| - 1, t)
      {
        GridPrefix(cell, init, xs, n, |init| - 1, t);
      }
    }
  }

  /** A cell that keeps the kind of its state keeps every grid state of the
      kind of the layer's initial state. */
  lemma {:induction false} GridKind<V(!new)>(cell: Cell<V>, init: seq<State<V>>, xs: seq<V>, k: nat, t: nat)
    requires KeepsKind(cell) && k < |init| && t < |xs|
    ensures Grid(cell, init, xs, k, t).Pair? == init[k].Pair?
    decreases t
  {
    if t > 0 {
      GridKind(cell, init, xs, k, t - 1);
    }
  }

  /** The nested loops of the unidirectional pass, with the state list updated
      in place and the last cell result kept in `hx`. */
  method UniLoop<V>(cell: Cell<V>, init: seq<State<V>>, xs: seq<V>) returns (r: Result<Run<V>>)
    ensures r == UnrollUni(cell, init, xs)
  {
    var states := init;
    var outputs: seq<State<V>> := [];
    var hx: Option<State<V>> := None;
    var t := 0;
    while t < |xs|
      invariant 0 <= t <= |xs|
      invariant UnrollUni(cell, init, xs[..t]) == Ok(Run(states, outputs))
      invariant hx.Some? <==> t > 0 && |init| > 0
      invariant hx.Some? ==> hx.value == states[|states| - 1]
    {
      assert xs[..t + 1][..t] == xs[..t];
      var x := Plain(xs[t]);
      var num := 0;
      ghost var start := states;
      ghost var hx0 := hx;
      while num < |states|
        invariant 0 <= num <= |states| == |start|
        invariant num == 0 ==> hx == hx0
        invariant Chain(cell, states, x, num) == Chain(cell, start, Plain(xs[t]), 0)
        invariant num > 0 ==> hx == Some(states[num - 1])
        invariant num == 0 ==> states == start
      {
        var s := cell(Fwd, num, x, states[num]);
        states := states[num := s];
        hx := Some(s);
        x := Plain(s.h);
        num := num + 1;
      }
      if hx.None? {
        return Err(UnboundHidden);
      }
      assert states == Chain(cell, start, Plain(xs[..t + 1][t]), 0);
      outputs := outputs + [hx.value];
      t := t + 1;
    }
    assert xs[..t] == xs;
    r := Ok(Run(states, outputs));
  }
}
