# Recurrent base module: construction and unrolling

This project models the core of `RNNBase`, the base class of a small
PyTorch library of multi-layer, optionally bidirectional recurrent networks
(plain RNN and LSTM). The model covers how the per-layer cells are sized
at construction and how the mode string is looked up. It covers how the
zero states are built afresh for every forward call. It covers how state
is threaded through time and across layers. In the unidirectional pass,
time is the outer loop and layers are the inner loop. In the bidirectional
pass, layers are the outer loop, each with a forward sweep, a reversed
backward sweep and a join of the two buffers.

All numerics are abstracted away:

- A batch slice at one timestep is an opaque type parameter `V`.
- The zero tensor is a parameter `zero: V`.
- The cells are one uninterpreted function `Cell<V>`, applied to a
  direction, a layer index, the features of one timestep and the previous
  state.
- A state is `Single(h)` (plain RNN) or `Pair(h, c)` (LSTM).
- Features are `Plain(v)`, one slice, or `Concat(f, b)`, the join along
  the feature axis.

Modules:

- `Common`: the outcome types, modes, directions, states, features and the
  cell type.
- `Construction`: the mode lookup, the cell sizing, and the `RNN`/`LSTM`
  specialisations.
- `Init`: the zero states.
- `Unidirectional`: a reference definition `Grid` of the state of each
  layer at each timestep, the recursive unrolling `UnrollUni`, and the
  loop method `UniLoop`, proved equal to it.
- `Bidirectional`: reference definitions `FwdState`/`BwdState` of the two
  sweeps, the recursive unrolling `UnrollBi`, and the loop methods
  `ForwardLoop`, `BackwardLoop` and `BiLoop`, proved equal to it.
- `ForwardPass`: the whole forward call and its method `RunForward`.
- `Findings`: concrete inputs for the behaviours listed under Findings.

Behaviours of the code the model keeps as written:

- The first backward cell is sized from a keyword record that the forward
  loop has already overwritten.
- Backward outputs are joined in the order the backward sweep produced
  them, from timestep T-1 down to 0.
- The code does not check that num_layers is at least 1; the model gives
  its behaviour for zero or negative counts.

## Model

| member | source | states |
|---|---|---|
| Common.ParseMode | RNNs.py:26-29 | the mode table finds `RNN` exactly for "RNN" and `LSTM` exactly for "LSTM"; every other string finds nothing |
| Common.ModeName | RNNs.py:111-117 | the literal each specialisation passes is a key of the mode table, and it maps back to that mode |
| Construction.Build | RNNs.py:26-47 | an unknown mode fails with no module built. Otherwise there are max(1, num_layers) forward cells: cell 0 reads `input_size`, the rest read `hidden_size`, and all share hidden size, bias and clip. Backward cells exist exactly when bidirectional, with the same count. The first backward cell reads `hidden_size` when num_layers > 1 and `input_size` otherwise. The other backward cells equal the forward ones |
| Construction.Construct | RNNs.py:29-47 | the loops over one shared keyword record, overwritten in place, build exactly the module `Build` describes |
| Construction.NewRNN | RNNs.py:111-113 | the RNN specialisation always constructs, in mode `RNN`, with the configuration unchanged |
| Construction.NewLSTM | RNNs.py:115-117 | the LSTM specialisation always constructs, in mode `LSTM`, with the configuration unchanged |
| Construction.UniWidthsConsistent | RNNs.py:36-40 | in a unidirectional module every cell is declared with the width of the features it is fed |
| Construction.BiWidthsInconsistent | RNNs.py:36-47 | in a stacked bidirectional module, the first backward cell's declared width matches its input only when input and hidden widths coincide; layer-1 cells match only for hidden width 0 |
| Construction.BuildIntended | RNNs.py:36-47 | corrected sizing: every cell of both stacks is declared with the width it is fed; for unidirectional modules it is the same as `Build` |
| Init.ZeroState | RNNs.py:50-56 | the zero state holds the zero value; it is a pair exactly in LSTM mode, with both components zero |
| Init.InitialStates | RNNs.py:49-57 | exactly max(0, num_layers) states, every one the mode's zero state |
| Unidirectional.Chain | RNNs.py:94-100 | one inner-loop pass from layer k keeps the list length and leaves the entries of the layers below k untouched |
| Unidirectional.UnrollUni | RNNs.py:92-101 | succeeds exactly when there are no timesteps or at least one layer; otherwise fails because `hx` is unbound. Records one state per timestep, keeps one state per layer, and the last recorded state is the last layer's final state |
| Unidirectional.ChainGrid | RNNs.py:93-100 | a pass of the inner loop at timestep t brings every layer to its reference state at t; layer 0 reads column t and layer k reads layer k-1's new hidden value |
| Unidirectional.GridPrefix | RNNs.py:92-93 | the state of any layer after timestep t depends only on input columns 0..t |
| Unidirectional.UnrollUniMatchesGrid | RNNs.py:92-101 | with at least one layer, each layer's final state is its reference state after the last timestep. Entry t of the recorded states is the last layer's reference state right after timestep t |
| Unidirectional.GridKind | RNNs.py:53-56 | with cells that keep the kind of their state, every layer's state keeps the kind of its zero state at every timestep |
| Unidirectional.UniLoop | RNNs.py:92-101 | the nested loops, with the state list updated in place and `hx` unbound until the first cell call, compute exactly `UnrollUni` |
| Bidirectional.Sweep | RNNs.py:71-86 | one sweep yields one state per visited timestep. The first continues from the initial state and every later one from the state before it |
| Bidirectional.ForwardSweep | RNNs.py:71-78 | the forward sweep's t-th state is the forward cell's state after consuming timesteps 0..t in order |
| Bidirectional.BackwardSweep | RNNs.py:79-86 | the backward sweep visits timesteps T-1..0: its j-th state is the backward cell's state after consuming timestep T-1-j |
| Bidirectional.BiLayer | RNNs.py:70-89 | a layer fails exactly on an empty sequence. Otherwise it yields one joined position per timestep and a returned state |
| Bidirectional.BiLayerPairs | RNNs.py:79-87 | position j joins the forward hidden value of timestep j with the backward hidden value computed at timestep T-1-j. The layer's state is the backward cell's state after consuming timestep 0 |
| Bidirectional.BiLayerFromBuffers | RNNs.py:87-89 | a forward buffer in time order and a backward buffer in visiting order join into exactly the layer's output |
| Bidirectional.UnrollBi | RNNs.py:68-90 | after n layers: fails exactly when n > 0 and the sequence is empty. The output keeps T positions. A state is returned exactly when n > 0, and then every position is a joined pair |
| Bidirectional.UnrollBiLast | RNNs.py:70-90 | the last layer reads the pairs the layer below joined. Its outputs pair forward timestep j with backward timestep T-1-j, and the returned state is its backward state after timestep 0 |
| Bidirectional.ForwardLoop | RNNs.py:71-78 | the forward loop writes only its layer's state entry. It buffers the forward hidden value of every timestep in order and binds `hx` exactly when T > 0 |
| Bidirectional.BackwardLoop | RNNs.py:79-86 | the backward loop writes only its layer's backward entry. Its i-th buffered value comes from timestep T-1-i, and `hx` ends as its state after timestep 0 |
| Bidirectional.LayerLoop | RNNs.py:71-89 | one layer's forward and backward loops write only that layer's entries of the two state lists, and their joined buffers with the backward loop's last state are exactly `BiLayer` |
| Bidirectional.BiLoop | RNNs.py:64-90 | the layer loop with both buffers cleared per layer computes exactly `UnrollBi` |
| Bidirectional.BiLayerAligned | RNNs.py:79-87 | corrected layer: with the backward buffer back in time order, position j joins forward and backward hidden values of the same timestep j |
| ForwardPass.UniOutput | RNNs.py:103-108 | an empty record fails. Otherwise the output holds only the hidden component of each recorded state, and the returned state is the last recorded one |
| ForwardPass.Forward | RNNs.py:59-109 | unidirectional calls succeed exactly for num_layers > 0 and T > 0. Bidirectional calls fail exactly for num_layers > 0 and T = 0. An empty sequence fails as such, and otherwise the failure is the unbound `hx`. Successes have T outputs: hidden values (unidirectional) or joined pairs (bidirectional). Without layers a bidirectional call returns the input and no state. The unidirectional returned state carries the last output's hidden value |
| ForwardPass.RunForward | RNNs.py:59-109 | the forward method, with fresh zero states for each call, computes exactly `Forward` |
| ForwardPass.UniForwardGrid | RNNs.py:92-108 | unidirectional output t is the hidden value of the last layer's reference state after timestep t, starting from zero states; the returned state is that layer's state after the last timestep |
| ForwardPass.UniFinalState | RNNs.py:103-108 | with kind-keeping cells, the unidirectional state returned in LSTM mode is an (h, c) pair; in RNN mode it is exactly the last output element |
| ForwardPass.BiForwardLast | RNNs.py:64-90 | the bidirectional returned state is the last layer's backward state after timestep 0, from a zero state. The outputs pair forward timestep j with backward timestep T-1-j. The last layer reads the input for one layer and joined pairs otherwise |
| ForwardPass.SingleStep | RNNs.py:59-108 | one unidirectional layer over one timestep returns one cell step from the zero state, as output and as state |
| Findings.MisalignedPairs | RNNs.py:79-87 | over timesteps tagged 0, 1 the written join yields the pairs (0, 1), (1, 0) |
| Findings.AlignedPairs | RNNs.py:79-87 | over the same timesteps the corrected join yields (0, 0), (1, 1) |
| Findings.ForwardFinalDropped | RNNs.py:68-90 | a one-layer bidirectional pass returns the backward state that saw timestep 0; the forward cell's final state, which saw timestep 1, is not returned |
| Findings.DeclaredWidthMismatch | RNNs.py:36-47 | with input width 4, hidden width 3, two layers, bidirectional: the first backward cell is declared 3 but fed 4, and the layer-1 cells are declared 3 but fed 6 |
| Findings.IntendedWidths | RNNs.py:36-47 | the corrected sizing declares those cells 4 and 6 |

## Left out

- Tensor arithmetic, `torch.stack`, `transpose` and `cat` shape bookkeeping: kept only as sequence length and as the `Concat` pairing. The batch dimension is inside the opaque slice type.
- The autograd `Variable` wrapper and `.cuda()` placement: device placement does not change any value the model tracks, so `gpu` is stored and unused.
- The cell internals (`RNNCells.RNNCell`, `RNNCells.LSTMCell`): that file is not part of this model, and the cells are the uninterpreted parameter `cell`.
- `bias`, `grad_clip` and `recurrent_size`: passed through to the cell records or stored, never interpreted. `grad_clip` is floating point and is kept as an opaque `Option<real>`.
- Whether the cells reject an input of the wrong width: the declared widths are recorded, but the rejection lives in the cell code, which is outside this model.
- Runtime shape and device errors raised by the tensor library: the model's only errors are the unknown mode, the empty stack and the unbound `hx`.
- Registration of cells through `setattr`/`getattr`: the cells are sequences indexed by layer, and `Build` guarantees at least num_layers of them.
- The mode test `startswith('LSTM')` in the forward pass versus `== 'LSTM'` in the zero states: only "RNN" and "LSTM" survive the lookup, so the two agree and the model keeps one `Mode`.
- ForwardPass.UniOutput: the LSTM state is returned as the last recorded state rather than a pair rebuilt from its two components; the two are the same for every pair state.
- ForwardPass.UniFinalState: assumes cells return a state of the kind they receive, which the cell code, outside this model, is expected to do but which is not checked here.

## Findings

| source | as written | input that shows it | evidently intended | confidence | as-written member | corrected member |
|---|---|---|---|---|---|---|
| RNNs.py:79-87 | the backward buffer, filled from timestep T-1 down to 0, is joined without being reversed, so position j pairs forward timestep j with backward timestep T-1-j | two timesteps tagged 0 and 1 with a cell that reports its input: pairs (0, 1), (1, 0) | each position pairs both directions at the same timestep: (0, 0), (1, 1) | medium, not executed | Findings.MisalignedPairs | Bidirectional.BiLayerAligned |
| RNNs.py:36-47 | bidirectional stacks declare the first backward cell and every layer-1+ cell with `hidden_size` inputs | `input_size` 4, `hidden_size` 3, two layers, bidirectional: declared 3 where 4 and 6 are fed | every cell is declared with the width it is fed: `input_size` at layer 0, twice `hidden_size` above it | medium, not executed | Findings.DeclaredWidthMismatch | Construction.BuildIntended |

The forward pass in this model keeps the join and the sizing as written,
because it describes what the code computes. The corrected definitions
stand beside it with their properties proved.
