/**
 * Shape bookkeeping of the fully connected building blocks: `Linear`,
 * `Mapping` (linear layer, optional batch norm, activation and dropout)
 * and `MLP`, which chains mappings of the given widths.  Only the integer
 * dimensions and the flags that select sub-layers are modelled; weights,
 * initialisation and the tensor arithmetic of `forward` are not.
 */
module Blocks {
  import opened Wrappers

  /** The keyword arguments of `Linear` that decide its shape: `bias` defaults to True. */
  datatype LinearConfig = LinearConfig(bias: Option<bool>)

  /**
   * The keyword arguments of `Mapping` that decide its layers, with the
   * defaults of the constructor: bias None, dropout 0.5, batch_norm True,
   * activation "ReLU" (an explicit None switches the activation off).
   */
  datatype MappingConfig = MappingConfig(bias: Option<bool>, dropout: real, batchNorm: bool, activation: Option<string>)

  function DefaultMappingConfig(): MappingConfig {
    MappingConfig(None, 0.5, true, Some("ReLU"))
  }

  /**
   * `Mapping(in_dim, out_dim)` with every default: batch norm of width
   * out_dim, hence no bias on the linear layer, ReLU, and dropout 0.5.
   */
  lemma DefaultMapping(inDim: nat, outDim: nat)
    ensures var m := NewMapping(inDim, outDim, DefaultMappingConfig());
      && m.linear == Linear(inDim, outDim, false)
      && m.batchNorm == Some(outDim)
      && m.activation == Some("ReLU")
      && m.dropout == Some(0.5)
  {
  }

  /** A `Linear` layer: a weight of shape (outDim, inDim) and a bias when `bias` holds. */
  datatype Linear = Linear(inDim: nat, outDim: nat, bias: bool)

  /**
   * A `Mapping`: its linear layer, the width of its batch norm when it has
   * one, its activation name and its dropout rate when dropout is used.
   */
  datatype Mapping = Mapping(linear: Linear, batchNorm: Option<nat>, activation: Option<string>, dropout: Option<real>)

  /** One entry of `MLP.mappings`: hidden mappings followed by an optional final `Linear`. */
  datatype Layer = MappingLayer(mapping: Mapping) | LinearLayer(linear: Linear) {
    function InDim(): nat {
      match this
      case MappingLayer(m) => m.linear.inDim
      case LinearLayer(l) => l.inDim
    }
    function OutDim(): nat {
      match this
      case MappingLayer(m) => m.linear.outDim
      case LinearLayer(l) => l.outDim
    }
  }

  /** `Linear(in_dim, out_dim, **config)`. */
  function NewLinear(inDim: nat, outDim: nat, config: LinearConfig): (r: Linear)
    ensures r.inDim == inDim && r.outDim == outDim
    ensures config.bias.None? ==> r.bias
    ensures config.bias.Some? ==> r.bias == config.bias.value
  {
    Linear(inDim, outDim, config.bias.GetOr(true))
  }

  /** `Mapping(in_dim, out_dim, **config)`. */
  function NewMapping(inDim: nat, outDim: nat, config: MappingConfig): (m: Mapping)
    ensures m.linear.inDim == inDim && m.linear.outDim == outDim
    // without an explicit bias, the linear layer has a bias exactly when there is no batch norm
    ensures config.bias.None? ==> (m.linear.bias <==> m.batchNorm.None?)
    ensures config.bias.Some? ==> m.linear.bias == config.bias.value
    ensures m.batchNorm.Some? <==> config.batchNorm
    ensures m.batchNorm.Some? ==> m.batchNorm.value == outDim
    ensures m.activation == config.activation
    // dropout is used only for a rate strictly between 0 and 1
    ensures m.dropout.Some? <==> 0.0 < config.dropout < 1.0
    ensures m.dropout.Some? ==> m.dropout.value == config.dropout
  {
    var bias := if config.bias.None? then !config.batchNorm else config.bias.value;
    var useDropout := 0.0 < config.dropout < 1.0;
    Mapping(
      Linear(inDim, outDim, bias),
      if config.batchNorm then Some(outDim) else None,
      config.activation,
      if useDropout then Some(config.dropout) else None)
  }

  function Min(a: nat, b: nat): nat {
    if a <= b then a else b
  }

  /** The input width of hidden layer k: the MLP's input width for the first, the previous width after. */
  function HiddenInDim(inDim: nat, numUnits: seq<nat>, k: nat): nat
    requires k < |numUnits|
  {
    if k == 0 then inDim else numUnits[k - 1]
  }

  /** The width that leaves the last hidden layer (the input width when there is none). */
  function LastHiddenDim(inDim: nat, numUnits: seq<nat>, count: nat): nat
    requires count <= |numUnits|
  {
    if count == 0 then inDim else numUnits[count - 1]
  }

  /** Every layer consumes the width the one before it produces, starting from inDim. */
  ghost predicate Chained(inDim: nat, layers: seq<Layer>) {
    (|layers| > 0 ==> layers[0].InDim() == inDim) &&
    forall k :: 0 < k < |layers| ==> layers[k].InDim() == layers[k - 1].OutDim()
  }

  /** The width that leaves a chain of layers fed with inDim. */
  function OutWidth(inDim: nat, layers: seq<Layer>): nat {
    if layers == [] then inDim else layers[|layers| - 1].OutDim()
  }

  /**
   * `MLP.__init__`: one `Mapping` per pair of `zip(num_units, mapping_configs)`,
   * each fed with the previous width, then a final `Linear` to `out_dim`
   * exactly when `out_dim` is not None.
   */
  method NewMlp(inDim: nat, outDim: Option<nat>, numUnits: seq<nat>, mappingConfigs: seq<MappingConfig>,
                finalMappingConfig: Option<LinearConfig>)
    returns (layers: seq<Layer>)
    ensures var hidden := Min(|numUnits|, |mappingConfigs|);
      && |layers| == hidden + (if outDim.Some? then 1 else 0)
      && (forall k :: 0 <= k < hidden ==>
            layers[k] == MappingLayer(NewMapping(HiddenInDim(inDim, numUnits, k), numUnits[k], mappingConfigs[k])))
      && (outDim.Some? ==>
            layers[hidden] == LinearLayer(NewLinear(LastHiddenDim(inDim, numUnits, hidden), outDim.value,
                                                    finalMappingConfig.GetOr(LinearConfig(None)))))
    ensures Chained(inDim, layers)
    ensures OutWidth(inDim, layers) == if outDim.Some? then outDim.value else LastHiddenDim(inDim, numUnits, Min(|numUnits|, |mappingConfigs|))
  {
    var hidden := Min(|numUnits|, |mappingConfigs|);
    var width := inDim;
    layers := [];
    for k := 0 to hidden
      invariant |layers| == k
      invariant width == LastHiddenDim(inDim, numUnits, k)
      invariant forall k' :: 0 <= k' < k ==>
        layers[k'] == MappingLayer(NewMapping(HiddenInDim(inDim, numUnits, k'), numUnits[k'], mappingConfigs[k']))
      invariant Chained(inDim, layers)
      invariant OutWidth(inDim, layers) == width
    {
      layers := layers + [MappingLayer(NewMapping(width, numUnits[k], mappingConfigs[k]))];
      width := numUnits[k];
    }
    if outDim.Some? {
      var config := if finalMappingConfig.None? then LinearConfig(None) else finalMappingConfig.value;
      layers := layers + [LinearLayer(NewLinear(width, outDim.value, config))];
    }
  }
}
