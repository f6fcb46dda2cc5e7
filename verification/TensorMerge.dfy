/** One parameter across tensor-parallel ranks: how its name decides its class, and that merging undoes sharding for
    every class. */
module TensorMerge {
  import opened Options
  import opened Arithmetic
  import opened Sequences
  import opened Resharding

  type Tensor<E> = seq<seq<E>>

  datatype ParamClass = GateUp | AttentionQkv | Replicated | ColumnParallel | RowParallel

  function ClassOf(key: string, isValueModel: bool): ParamClass {
    if Contains(key, "linear_fc1.weight") then GateUp
    else if Contains(key, "self_attention.linear_qkv.") && !Contains(key, "layer_norm") then AttentionQkv
    else if Contains(key, "layer_norm") || Contains(key, "layernorm") || Contains(key, "router")
            || (Contains(key, "output_layer") && isValueModel) then Replicated
    else if Contains(key, "linear_fc2.weight") || Contains(key, "self_attention.linear_proj") then RowParallel
    else ColumnParallel
  }

  /** What the merge of one key returns: one tensor, gate and up, or q, k and v. */
  datatype Param<E> =
    | Whole(tensor: Tensor<E>)
    | Pair(gate: Tensor<E>, up: Tensor<E>)
    | Triple(qkv: Qkv<seq<E>>)

  // ---------------------------------------------------------------------------------------------
  // Gate and up
  // ---------------------------------------------------------------------------------------------

  /** `chunk(2)`: the first piece takes the extra row of an odd count. */
  function FirstHalf<T>(s: seq<T>): seq<T> {
    s[..(|s| + 1) / 2]
  }

  function SecondHalf<T>(s: seq<T>): seq<T> {
    s[(|s| + 1) / 2..]
  }

  function Halves<T>(parts: seq<seq<T>>): (r: (seq<seq<T>>, seq<seq<T>>))
    ensures |r.0| == |r.1| == |parts|
  {
    (seq(|parts|, i requires 0 <= i < |parts| => FirstHalf(parts[i])),
     seq(|parts|, i requires 0 <= i < |parts| => SecondHalf(parts[i])))
  }

  /** A single row is one piece, which does not unpack into two. */
  ghost predicate AllSplit<T>(parts: seq<seq<T>>) {
    forall i :: 0 <= i < |parts| ==> |parts[i]| != 1
  }

  ghost function ChunkInTwo<T>(parts: seq<seq<T>>): Option<(seq<seq<T>>, seq<seq<T>>)> {
    if AllSplit(parts) then Some(Halves(parts)) else None
  }

  method MergeGateUp<T>(tpData: seq<seq<T>>) returns (r: Option<(seq<T>, seq<T>)>)
    ensures r.Some? <==> AllSplit(tpData)
    ensures r.Some? ==> r.value == (Concat(Halves(tpData).0), Concat(Halves(tpData).1))
  {
    var gates: seq<seq<T>>, ups: seq<seq<T>> := [], [];
    for t := 0 to |tpData|
      invariant AllSplit(tpData[..t])
      invariant gates == Halves(tpData).0[..t] && ups == Halves(tpData).1[..t]
    {
      if |tpData[t]| == 1 {
        return None;
      }
      gates, ups := gates + [FirstHalf(tpData[t])], ups + [SecondHalf(tpData[t])];
    }
    assert gates == Halves(tpData).0 && ups == Halves(tpData).1;
    r := Some((Concat(gates), Concat(ups)));
  }

  /** A rank holds its slice of gate on top of its slice of up. */
  function StackPairs<T>(gates: seq<seq<T>>, ups: seq<seq<T>>): (stacked: seq<seq<T>>)
    requires |gates| == |ups|
    ensures |stacked| == |gates|
  {
    seq(|gates|, i requires 0 <= i < |gates| => gates[i] + ups[i])
  }

  /** Exact: merging recovers gate and up if and only if every rank's two slices meet where chunk(2) splits, that is, at
      equal row counts or one row more of gate, and no rank holds just one row. */
  lemma GateUpRoundTripIff<T>(gates: seq<seq<T>>, ups: seq<seq<T>>)
    requires |gates| == |ups|
    ensures ChunkInTwo(StackPairs(gates, ups)) == Some((gates, ups))
            <==> forall i | 0 <= i < |gates| :: |ups[i]| <= |gates[i]| <= |ups[i]| + 1 && |gates[i]| + |ups[i]| != 1
  {
    var stacked := StackPairs(gates, ups);
    var halves := Halves(stacked);
    if forall i | 0 <= i < |gates| :: |ups[i]| <= |gates[i]| <= |ups[i]| + 1 {
      forall i | 0 <= i < |gates|
        ensures halves.0[i] == gates[i] && halves.1[i] == ups[i]
      {
        assert (|stacked[i]| + 1) / 2 == |gates[i]|;
      }
      assert halves.0 == gates && halves.1 == ups;
    }
    forall i | 0 <= i < |gates| && !(|ups[i]| <= |gates[i]| <= |ups[i]| + 1)
      ensures halves.0[i] != gates[i]
    {
      assert |halves.0[i]| == (|gates[i]| + |ups[i]| + 1) / 2;
    }
    assert forall i :: 0 <= i < |gates| ==> |stacked[i]| == |gates[i]| + |ups[i]|;
  }

  // ---------------------------------------------------------------------------------------------
  // Columns
  // ---------------------------------------------------------------------------------------------

  ghost predicate SameRowCount<E>(parts: seq<Tensor<E>>, rows: nat) {
    forall t :: 0 <= t < |parts| ==> |parts[t]| == rows
  }

  function RowSlices<E>(parts: seq<Tensor<E>>, i: nat): (slices: seq<seq<E>>)
    requires forall t :: 0 <= t < |parts| ==> i < |parts[t]|
    ensures |slices| == |parts|
    ensures forall t :: 0 <= t < |parts| ==> slices[t] == parts[t][i]
  {
    seq(|parts|, t requires 0 <= t < |parts| => parts[t][i])
  }

  /** `torch.cat(parts, dim=1)`. */
  function CatColumns<E>(parts: seq<Tensor<E>>): (t: Tensor<E>)
    requires |parts| > 0 && SameRowCount(parts, |parts[0]|)
    ensures |t| == |parts[0]|
    ensures forall i :: 0 <= i < |t| ==> t[i] == Concat(RowSlices(parts, i))
  {
    seq(|parts[0]|, i requires 0 <= i < |parts[0]| => Concat(RowSlices(parts, i)))
  }

  function CutColumns<E>(t: Tensor<E>, tpSize: nat, width: nat): (parts: seq<Tensor<E>>)
    requires AllHaveRows(t, tpSize * width)
    ensures |parts| == tpSize && SameRowCount(parts, |t|)
    ensures forall r, i :: 0 <= r < tpSize && 0 <= i < |t| ==> parts[r][i] == Pieces(t[i], tpSize, width)[r]
  {
    assert forall i :: 0 <= i < |t| ==> t[i] in t;
    seq(tpSize, r requires 0 <= r < tpSize =>
      seq(|t|, i requires 0 <= i < |t| => Pieces(t[i], tpSize, width)[r]))
  }

  lemma ColumnRoundTrip<E>(t: Tensor<E>, tpSize: nat, width: nat)
    requires tpSize > 0 && AllHaveRows(t, tpSize * width)
    ensures CatColumns(CutColumns(t, tpSize, width)) == t
  {
    var parts := CutColumns(t, tpSize, width);
    forall i | 0 <= i < |t|
      ensures Concat(RowSlices(parts, i)) == t[i]
    {
      assert t[i] in t;
      assert RowSlices(parts, i) == Pieces(t[i], tpSize, width);
    }
  }

  // ---------------------------------------------------------------------------------------------
  // All classes
  // ---------------------------------------------------------------------------------------------

  datatype HeadShape = HeadShape(numHeads: nat, numKvHeads: nat, headDim: nat)

  function QueryRows(h: HeadShape): nat
    requires h.numKvHeads > 0
  {
    Product(h.headDim, h.numHeads / h.numKvHeads)
  }

  function PackedStride(h: HeadShape): nat
    requires h.numKvHeads > 0
  {
    QueryRows(h) + h.headDim + h.headDim
  }

  /** The shards have the shape their class needs. */
  ghost predicate ShardsFit<E>(tpData: seq<Tensor<E>>, c: ParamClass, h: HeadShape) {
    && |tpData| > 0
    && (c == AttentionQkv ==>
          && 0 < h.headDim && 0 < h.numKvHeads && h.numHeads % h.numKvHeads == 0 && 0 < h.numKvHeads / |tpData|
          && AllHaveRows(tpData, Product(h.numKvHeads / |tpData|, PackedStride(h))))
    && (c == GateUp ==> AllSplit(tpData))
    && (c == RowParallel ==> SameRowCount(tpData, |tpData[0]|))
  }

  ghost function MergedParam<E>(tpData: seq<Tensor<E>>, c: ParamClass, h: HeadShape): Param<E>
    requires ShardsFit(tpData, c, h)
  {
    match c
    case GateUp => Pair(Concat(Halves(tpData).0), Concat(Halves(tpData).1))
    case AttentionQkv => Triple(Unpack(Concat(tpData), QueryRows(h), h.headDim))
    case Replicated => Whole(tpData[0])
    case RowParallel => Whole(CatColumns(tpData))
    case ColumnParallel => Whole(Concat(tpData))
  }

  method MergeAcrossTp<E>(key: string, tpData: seq<Tensor<E>>, h: HeadShape, isValueModel: bool) returns (r: Param<E>)
    requires ShardsFit(tpData, ClassOf(key, isValueModel), h)
    ensures r == MergedParam(tpData, ClassOf(key, isValueModel), h)
  {
    match ClassOf(key, isValueModel)
    case GateUp =>
      var halves := MergeGateUp(tpData);
      r := Pair(halves.value.0, halves.value.1);
    case AttentionQkv =>
      var qkv := MergeQkv(tpData, h.numHeads, h.numKvHeads, |tpData|, h.headDim, PackedStride(h));
      r := Triple(qkv.value);
    case Replicated => r := Whole(tpData[0]);
    case RowParallel => r := Whole(CatColumns(tpData));
    case ColumnParallel => r := Whole(Concat(tpData));
  }

  /** p can be cut into tpSize shards of its class. */
  ghost predicate Shardable<E>(p: Param<E>, c: ParamClass, h: HeadShape, tpSize: nat) {
    && 0 < tpSize
    && match c
       case GateUp => p.Pair? && |p.gate| == |p.up| && |p.gate| % tpSize == 0
       case AttentionQkv =>
         && p.Triple? && 0 < h.headDim && 0 < h.numKvHeads && h.numHeads % h.numKvHeads == 0 && h.numKvHeads % tpSize == 0
         && |p.qkv.q| == Product(h.numKvHeads, QueryRows(h)) && |p.qkv.k| == |p.qkv.v| == Product(h.numKvHeads, h.headDim)
       case Replicated => p.Whole?
       case RowParallel => p.Whole? && exists width: nat :: AllHaveRows(p.tensor, Product(tpSize, width))
       case ColumnParallel => p.Whole? && |p.tensor| % tpSize == 0
  }

  ghost function EqualCut<T>(s: seq<T>, count: nat): (pieces: seq<seq<T>>)
    requires 0 < count && |s| % count == 0
    ensures |pieces| == count && Concat(pieces) == s
    ensures forall i :: 0 <= i < count ==> |pieces[i]| == |s| / count
  {
    DivisorFactors(|s|, count);
    Pieces(s, count, |s| / count)
  }

  /** The shards tensor parallelism keeps of p. */
  ghost function ShardParam<E>(p: Param<E>, c: ParamClass, h: HeadShape, tpSize: nat): seq<Tensor<E>>
    requires Shardable(p, c, h, tpSize)
  {
    match c
    case GateUp => StackPairs(EqualCut(p.gate, tpSize), EqualCut(p.up, tpSize))
    case AttentionQkv =>
      var q, k, v := Pieces(p.qkv.q, h.numKvHeads, QueryRows(h)), Pieces(p.qkv.k, h.numKvHeads, h.headDim),
                     Pieces(p.qkv.v, h.numKvHeads, h.headDim);
      DivisorFactors(h.numKvHeads, tpSize);
      QkvRoundTrip(p.qkv.q, p.qkv.k, p.qkv.v, QueryRows(h), h.headDim, PackedStride(h), tpSize, h.numKvHeads / tpSize,
                   h.numKvHeads);
      Pieces(Pack(q, k, v), tpSize, Product(h.numKvHeads / tpSize, PackedStride(h)))
    case Replicated => seq(tpSize, t => p.tensor)
    case RowParallel =>
      var width: nat :| AllHaveRows(p.tensor, Product(tpSize, width));
      CutColumns(p.tensor, tpSize, width)
    case ColumnParallel => EqualCut(p.tensor, tpSize)
  }

  /** For every class of parameter and every admissible tp size, merging the shards gives the parameter back. */
  lemma MergeUndoesSharding<E>(p: Param<E>, c: ParamClass, h: HeadShape, tpSize: nat)
    requires Shardable(p, c, h, tpSize)
    ensures ShardsFit(ShardParam(p, c, h, tpSize), c, h)
    ensures MergedParam(ShardParam(p, c, h, tpSize), c, h) == p
  {
    match c
    case GateUp =>
      var gates, ups := EqualCut(p.gate, tpSize), EqualCut(p.up, tpSize);
      GateUpRoundTripIff(gates, ups);
      assert forall i | 0 <= i < tpSize :: |gates[i]| == |ups[i]|;
      assert ChunkInTwo(StackPairs(gates, ups)) == Some((gates, ups));
    case AttentionQkv =>
      DivisorFactors(h.numKvHeads, tpSize);
      QkvRoundTrip(p.qkv.q, p.qkv.k, p.qkv.v, QueryRows(h), h.headDim, PackedStride(h), tpSize, h.numKvHeads / tpSize,
                   h.numKvHeads);
    case Replicated =>
    case RowParallel =>
      var width: nat :| AllHaveRows(p.tensor, Product(tpSize, width))
                        && ShardParam(p, c, h, tpSize) == CutColumns(p.tensor, tpSize, width);
      ColumnRoundTrip(p.tensor, tpSize, width);
    case ColumnParallel =>
  }
}
