/** Construction of the recurrent base module: the mode lookup and the sizing
    of one cell per layer, plus a mirrored stack of cells when the module is
    bidirectional. The cells are kept as sequences indexed by layer. */
module Construction {
  import opened Common

  /** The configuration the module is built from. `recurrentSize` and `gpu`
      are stored but play no part in the sizing; `gradClip` is passed through
      to every cell. */
  datatype Config = Config(
    inputSize: int,
    hiddenSize: int,
    numLayers: int,
    recurrentSize: Option<int>,
    bias: bool,
    gradClip: Option<real>,
    gpu: bool,
    bidirectional: bool)

  /** The keyword arguments one cell is created with. */
  datatype CellSpec = CellSpec(inputSize: int, hiddenSize: int, bias: bool, gradClip: Option<real>)

  /** A constructed module: its mode, its configuration, the forward-direction
      cells by layer and the backward-direction cells by layer (empty unless
      bidirectional). */
  datatype Net = Net(mode: Mode, config: Config, cells: seq<CellSpec>, backCells: seq<CellSpec>)

  /** Number of cells per direction: the cell of layer 0 is always created,
      one more for each layer index in 1 .. numLayers-1. */
  function CellCount(numLayers: int): nat
  {
    if numLayers > 1 then numLayers else 1
  }

  function CellArgs(cfg: Config, width: int): CellSpec
  {
    CellSpec(width, cfg.hiddenSize, cfg.bias, cfg.gradClip)
  }

  /** One stack of cells whose first cell has input width `first` and whose
      further cells take the hidden width. */
  function Stack(cfg: Config, first: int): (r: seq<CellSpec>)
    ensures |r| == CellCount(cfg.numLayers)
  {
    [CellArgs(cfg, first)] + seq(CellCount(cfg.numLayers) - 1, _ => CellArgs(cfg, cfg.hiddenSize))
  }

  /** The module built from a mode string and a configuration. The input
      width of the first backward cell is whatever the shared keyword
      arguments hold once the forward stack has been built. */
  function Build(name: string, cfg: Config): (r: Result<Net>)
    ensures r.Err? <==> ParseMode(name).None?
    ensures r.Err? ==> r.error == UnknownMode(name)
    ensures r.Ok? ==> ParseMode(name) == Some(r.value.mode) && r.value.config == cfg
    ensures r.Ok? ==> |r.value.cells| == CellCount(cfg.numLayers) >= cfg.numLayers
    ensures r.Ok? ==> r.value.cells[0].inputSize == cfg.inputSize
    ensures r.Ok? ==> forall i :: 1 <= i < |r.value.cells| ==> r.value.cells[i].inputSize == cfg.hiddenSize
    ensures r.Ok? ==> forall i :: 0 <= i < |r.value.cells| ==> r.value.cells[i] == CellArgs(cfg, r.value.cells[i].inputSize)
    ensures r.Ok? ==> (r.value.backCells == [] <==> !cfg.bidirectional)
    ensures r.Ok? && cfg.bidirectional ==> |r.value.backCells| == |r.value.cells|
    ensures r.Ok? && cfg.bidirectional ==>
      r.value.backCells[0].inputSize == if cfg.numLayers > 1 then cfg.hiddenSize else cfg.inputSize
    ensures r.Ok? && cfg.bidirectional ==>
      forall i :: 1 <= i < |r.value.backCells| ==> r.value.backCells[i] == r.value.cells[i]
    ensures r.Ok? ==> forall i :: 0 <= i < |r.value.backCells| ==> r.value.backCells[i] == CellArgs(cfg, r.value.backCells[i].inputSize)
  {
    match ParseMode(name)
    case None => Err(UnknownMode(name))
    case Some(mode) =>
      var leftOver := if cfg.numLayers > 1 then cfg.hiddenSize else cfg.inputSize;
      Ok(Net(mode, cfg, Stack(cfg, cfg.inputSize), if cfg.bidirectional then Stack(cfg, leftOver) else []))
  }

  /** The constructor as written: one keyword record shared by every cell,
      whose input width is overwritten inside the forward loop and reused
      unchanged for the first backward cell. */
  method Construct(name: string, cfg: Config) returns (r: Result<Net>)
    ensures r == Build(name, cfg)
  {
    var mode := ParseMode(name);
    if mode.None? {
      return Err(UnknownMode(name));
    }
    var kw := CellArgs(cfg, cfg.inputSize);
    var cells := [kw];
    var i := 1;
    while i < cfg.numLayers
      invariant 1 <= i <= CellCount(cfg.numLayers)
      invariant |cells| == i
      invariant cells[0] == CellArgs(cfg, cfg.inputSize)
      invariant forall j :: 1 <= j < i ==> cells[j] == CellArgs(cfg, cfg.hiddenSize)
      invariant kw == if i > 1 then CellArgs(cfg, cfg.hiddenSize) else CellArgs(cfg, cfg.inputSize)
    {
      kw := kw.(inputSize := cfg.hiddenSize);
      cells := cells + [kw];
      i := i + 1;
    }
    assert cells == Stack(cfg, cfg.inputSize);
    var back: seq<CellSpec> := [];
    if cfg.bidirectional {
      var first := kw;
      back := [kw];
      i := 1;
      while i < cfg.numLayers
        invariant 1 <= i <= CellCount(cfg.numLayers)
        invariant |back| == i
        invariant back[0] == first
        invariant forall j :: 1 <= j < i ==> back[j] == CellArgs(cfg, cfg.hiddenSize)
        invariant kw == CellArgs(cfg, kw.inputSize)
      {
        kw := kw.(inputSize := cfg.hiddenSize);
        back := back + [kw];
        i := i + 1;
      }
      assert back == Stack(cfg, first.inputSize);
    }
    r := Ok(Net(mode.value, cfg, cells, back));
  }

  /** The plain-RNN specialisation: the mode is fixed to "RNN" and the rest of
      the configuration is passed on unchanged. */
  function NewRNN(cfg: Config): (r: Result<Net>)
    ensures r.Ok? && r.value.mode == RNN && r.value.config == cfg
  {
    Build(ModeName(RNN), cfg)
  }

  /** The LSTM specialisation. */
  function NewLSTM(cfg: Config): (r: Result<Net>)
    ensures r.Ok? && r.value.mode == LSTM && r.value.config == cfg
  {
    Build(ModeName(LSTM), cfg)
  }

  /** The width of the features the cells of layer `k` receive during a
      forward pass: the input columns for layer 0; above it the hidden value
      of the layer below, or the forward and backward hidden values joined
      when the module is bidirectional. */
  function FedWidth(cfg: Config, k: nat): int
  {
    if k == 0 then cfg.inputSize
    else if cfg.bidirectional then 2 * cfg.hiddenSize
    else cfg.hiddenSize
  }

  /** A unidirectional module declares every cell with the width it is fed. */
  lemma UniWidthsConsistent(name: string, cfg: Config)
    requires Build(name, cfg).Ok? && !cfg.bidirectional
    ensures forall k :: 0 <= k < |Build(name, cfg).value.cells| ==>
              Build(name, cfg).value.cells[k].inputSize == FedWidth(cfg, k)
  {
  }

  /** In a stacked bidirectional module the declared widths disagree with the
      fed ones: the first backward cell is declared with the hidden width
      although it reads the input columns, and the cells above layer 0 are
      declared with the hidden width although they read joined pairs. */
  lemma BiWidthsInconsistent(name: string, cfg: Config)
    requires Build(name, cfg).Ok? && cfg.bidirectional && cfg.numLayers > 1
    ensures var net := Build(name, cfg).value;
            && (net.backCells[0].inputSize == FedWidth(cfg, 0) <==> cfg.inputSize == cfg.hiddenSize)
            && (net.cells[1].inputSize == FedWidth(cfg, 1) <==> cfg.hiddenSize == 0)
            && (net.backCells[1].inputSize == FedWidth(cfg, 1) <==> cfg.hiddenSize == 0)
  {
  }

  /** The construction with each cell declared with the width it is fed. */
  function BuildIntended(name: string, cfg: Config): (r: Result<Net>)
    ensures r.Err? <==> ParseMode(name).None?
    ensures r.Err? ==> r.error == UnknownMode(name)
    ensures r.Ok? ==> |r.value.cells| == CellCount(cfg.numLayers)
    ensures r.Ok? ==> forall k :: 0 <= k < |r.value.cells| ==> r.value.cells[k].inputSize == FedWidth(cfg, k)
    ensures r.Ok? ==> (r.value.backCells == [] <==> !cfg.bidirectional)
    ensures r.Ok? && cfg.bidirectional ==>
              |r.value.backCells| == |r.value.cells| &&
              forall k :: 0 <= k < |r.value.backCells| ==> r.value.backCells[k].inputSize == FedWidth(cfg, k)
    ensures !cfg.bidirectional ==> r == Build(name, cfg)
  {
    match ParseMode(name)
    case None => Err(UnknownMode(name))
    case Some(mode) =>
      var fed := seq(CellCount(cfg.numLayers), k requires 0 <= k => CellArgs(cfg, FedWidth(cfg, k)));
      assert !cfg.bidirectional ==> fed == Stack(cfg, cfg.inputSize);
      Ok(Net(mode, cfg, fed, if cfg.bidirectional then fed else []))
  }
}
