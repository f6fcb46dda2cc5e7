/** Merging the tensor-parallel shards of one parameter back into the parameters of the Hugging Face checkpoint. A tensor
    is the sequence of its rows (dimension 0). */
module Resharding {
  import opened Options
  import opened Arithmetic
  import opened Sequences

  // ---------------------------------------------------------------------------------------------
  // Grouped query / key / value projections
  // ---------------------------------------------------------------------------------------------

  ghost predicate AllHaveRows<T>(parts: seq<seq<T>>, rows: nat) {
    forall p | p in parts :: |p| == rows
  }

  /** The packing of the converter: per key-value group the rows of its queries, then of its key, then of its value. */
  function Pack<T>(q: seq<seq<T>>, k: seq<seq<T>>, v: seq<seq<T>>): seq<T>
    requires |q| == |k| == |v|
  {
    if q == [] then [] else q[0] + k[0] + v[0] + Pack(q[1..], k[1..], v[1..])
  }

  datatype Qkv<T> = Qkv(q: seq<T>, k: seq<T>, v: seq<T>)

  /** Reading packed rows group by group, without regard to how they were cut into shards. */
  function Unpack<T>(packed: seq<T>, qRows: nat, kvRows: nat): Qkv<T>
    requires qRows + kvRows > 0
  {
    var stride := qRows + kvRows + kvRows;
    Qkv(Gather(packed, stride, 0, qRows), Gather(packed, stride, qRows, kvRows), Gather(packed, stride, qRows + kvRows, kvRows))
  }

  lemma UnpackBlock<T>(block: seq<T>, rest: seq<T>, qRows: nat, kvRows: nat)
    requires qRows + kvRows > 0 && |block| == qRows + kvRows + kvRows
    ensures var u := Unpack(rest, qRows, kvRows);
            Unpack(block + rest, qRows, kvRows)
            == Qkv(block[..qRows] + u.q, block[qRows..qRows + kvRows] + u.k, block[qRows + kvRows..] + u.v)
  {
    assert (block + rest)[|block|..] == rest;
    assert (block + rest)[..qRows] == block[..qRows];
    assert (block + rest)[qRows..qRows + kvRows] == block[qRows..qRows + kvRows];
    assert (block + rest)[qRows + kvRows..|block|] == block[qRows + kvRows..];
  }

  lemma {:induction false} UnpackPack<T>(q: seq<seq<T>>, k: seq<seq<T>>, v: seq<seq<T>>, qRows: nat, kvRows: nat)
    requires |q| == |k| == |v| && qRows + kvRows > 0
    requires AllHaveRows(q, qRows) && AllHaveRows(k, kvRows) && AllHaveRows(v, kvRows)
    ensures Unpack(Pack(q, k, v), qRows, kvRows) == Qkv(Concat(q), Concat(k), Concat(v))
  {
    if q != [] {
      var block := q[0] + k[0] + v[0];
      UnpackPack(q[1..], k[1..], v[1..], qRows, kvRows);
      UnpackBlock(block, Pack(q[1..], k[1..], v[1..]), qRows, kvRows);
      assert block[..qRows] == q[0] && block[qRows..qRows + kvRows] == k[0] && block[qRows + kvRows..] == v[0];
    }
  }

  lemma {:induction false} PackedRows<T>(q: seq<seq<T>>, k: seq<seq<T>>, v: seq<seq<T>>, qRows: nat, kvRows: nat, stride: nat)
    requires |q| == |k| == |v| && stride == qRows + kvRows + kvRows
    requires AllHaveRows(q, qRows) && AllHaveRows(k, kvRows) && AllHaveRows(v, kvRows)
    ensures |Pack(q, k, v)| == |q| * stride
  {
    if q != [] {
      PackedRows(q[1..], k[1..], v[1..], qRows, kvRows, stride);
      ProductStep(|q|, stride);
    }
  }

  /** Row counts of the groups of one shard, as the source derives them from the shard itself. */
  datatype GroupShape = GroupShape(groups: nat, chunkRows: nat, qRows: nat, kvRows: nat)

  function ShapeOfShard(rows: nat, perKv: nat, groups: nat): GroupShape
    requires groups > 0
  {
    var kvSize := Quotient(rows, perKv + 2);
    GroupShape(groups, Quotient(rows, groups), Quotient(Product(kvSize, perKv), groups), Quotient(kvSize, groups))
  }

  lemma KvSizeIsRecovered(perKv: nat, groups: nat, headDim: nat)
    ensures (groups * (headDim * perKv + headDim + headDim)) % (perKv + 2) == 0
    ensures Quotient(groups * (headDim * perKv + headDim + headDim), perKv + 2) == groups * headDim
  {
    FactorOut(groups, perKv, headDim);
    ExactQuotient(groups * headDim, perKv + 2);
  }

  lemma QueryRowsAreRecovered(perKv: nat, groups: nat, headDim: nat)
    requires groups > 0
    ensures Quotient(Product(groups * headDim, perKv), groups) == headDim * perKv
  {
    FirstFactorLast(groups, headDim, perKv);
    QuotientIsUnique(Product(groups * headDim, perKv), groups, headDim * perKv, 0);
  }

  /** The derived row counts are those the shard was packed with. */
  lemma ShapeIsRecovered(perKv: nat, groups: nat, headDim: nat, qRows: nat, stride: nat, rows: nat)
    requires groups > 0 && qRows == headDim * perKv && stride == qRows + headDim + headDim && rows == groups * stride
    ensures rows % (perKv + 2) == 0
    ensures ShapeOfShard(rows, perKv, groups) == GroupShape(groups, stride, qRows, headDim)
  {
    KvSizeIsRecovered(perKv, groups, headDim);
    QueryRowsAreRecovered(perKv, groups, headDim);
    ExactQuotient(stride, groups);
    ExactQuotient(headDim, groups);
  }

  datatype MergeError = HeadsNotDivisible | RowsNotDivisible

  /** The lists hold the q, k and v slices of the whole groups in s, in order. */
  ghost predicate SplitsInto<T>(s: seq<T>, qRows: nat, kvRows: nat, qs: seq<seq<T>>, ks: seq<seq<T>>, vs: seq<seq<T>>)
    requires qRows + kvRows > 0
  {
    var stride := qRows + kvRows + kvRows;
    && WholeBlocks(s, stride)
    && IsGathered(s, stride, 0, qRows, qs) && IsGathered(s, stride, qRows, kvRows, ks)
    && IsGathered(s, stride, qRows + kvRows, kvRows, vs)
  }

  lemma SplitsAppend<T>(a: seq<T>, b: seq<T>, qRows: nat, kvRows: nat, qs: seq<seq<T>>, ks: seq<seq<T>>, vs: seq<seq<T>>,
                        q: seq<seq<T>>, k: seq<seq<T>>, v: seq<seq<T>>)
    requires qRows + kvRows > 0 && SplitsInto(a, qRows, kvRows, qs, ks, vs) && SplitsInto(b, qRows, kvRows, q, k, v)
    ensures SplitsInto(a + b, qRows, kvRows, qs + q, ks + k, vs + v)
  {
    var stride := qRows + kvRows + kvRows;
    WholeBlocksAppend(a, b, stride);
    GatheredAppend(a, b, stride, 0, qRows, qs, q);
    GatheredAppend(a, b, stride, qRows, kvRows, ks, k);
    GatheredAppend(a, b, stride, qRows + kvRows, kvRows, vs, v);
  }

  lemma OneGroupSplits<T>(group: seq<T>, qRows: nat, kvRows: nat)
    requires qRows + kvRows > 0 && |group| == qRows + kvRows + kvRows
    ensures SplitsInto(group, qRows, kvRows, [Part(group, 0, qRows)], [Part(group, qRows, kvRows)],
                       [Part(group, qRows + kvRows, kvRows)])
  {
    var stride := qRows + kvRows + kvRows;
    OneBlock(group, stride, 0, qRows);
    OneBlock(group, stride, qRows, kvRows);
    OneBlock(group, stride, qRows + kvRows, kvRows);
    assert forall part: seq<T> :: Concat([part]) == part;
  }

  /** The inner loop: the groups of one shard, each split into q, k, v. */
  method SplitGroups<T>(chunks: seq<seq<T>>, qRows: nat, kvRows: nat)
    returns (qs: seq<seq<T>>, ks: seq<seq<T>>, vs: seq<seq<T>>)
    requires qRows + kvRows > 0 && AllHaveRows(chunks, qRows + kvRows + kvRows)
    ensures SplitsInto(Concat(chunks), qRows, kvRows, qs, ks, vs)
  {
    qs, ks, vs := [], [], [];
    for c := 0 to |chunks|
      invariant SplitsInto(Concat(chunks[..c]), qRows, kvRows, qs, ks, vs)
    {
      var chunk := chunks[c];
      assert chunk in chunks;
      var q, k, v := Part(chunk, 0, qRows), Part(chunk, qRows, kvRows), Part(chunk, qRows + kvRows, kvRows);
      OneGroupSplits(chunk, qRows, kvRows);
      SplitsAppend(Concat(chunks[..c]), chunk, qRows, kvRows, qs, ks, vs, [q], [k], [v]);
      ConcatTake(chunks, c);
      qs, ks, vs := qs + [q], ks + [k], vs + [v];
    }
    assert chunks[..|chunks|] == chunks;
  }

  /** The outer loop: every shard into its groups. */
  method MergeGroups<T>(tpData: seq<seq<T>>, shape: GroupShape) returns (r: Qkv<T>)
    requires shape.qRows + shape.kvRows > 0 && shape.chunkRows == shape.qRows + shape.kvRows + shape.kvRows
    requires AllHaveRows(tpData, Product(shape.groups, shape.chunkRows))
    ensures r == Unpack(Concat(tpData), shape.qRows, shape.kvRows)
  {
    var qRows, kvRows := shape.qRows, shape.kvRows;
    var qs: seq<seq<T>>, ks: seq<seq<T>>, vs: seq<seq<T>> := [], [], [];
    for t := 0 to |tpData|
      invariant SplitsInto(Concat(tpData[..t]), qRows, kvRows, qs, ks, vs)
    {
      var shard := tpData[t];
      assert shard in tpData;
      var q, k, v := SplitGroups(Pieces(shard, shape.groups, shape.chunkRows), qRows, kvRows);
      SplitsAppend(Concat(tpData[..t]), shard, qRows, kvRows, qs, ks, vs, q, k, v);
      ConcatTake(tpData, t);
      qs, ks, vs := qs + q, ks + k, vs + v;
    }
    assert tpData[..|tpData|] == tpData;
    r := Qkv(Concat(qs), Concat(ks), Concat(vs));
  }

  /** Merging shards that were packed with some head size: the result is the unpacking of all rows in order. */
  method MergeQkv<T>(tpData: seq<seq<T>>, numHeads: nat, numKvHeads: nat, tpSize: nat, ghost headDim: nat,
                     ghost stride: nat)
    returns (r: Result<Qkv<T>, MergeError>)
    requires |tpData| == tpSize > 0 && numKvHeads > 0 && numKvHeads / tpSize > 0 && headDim > 0
    requires stride == Product(headDim, numHeads / numKvHeads) + headDim + headDim
    requires AllHaveRows(tpData, Product(numKvHeads / tpSize, stride))
    ensures r.Err? <==> numHeads % numKvHeads != 0
    ensures r.Ok? ==> r.value == Unpack(Concat(tpData), Product(headDim, numHeads / numKvHeads), headDim)
  {
    if numHeads % numKvHeads != 0 {
      return Err(HeadsNotDivisible);
    }
    var perKv, groups := numHeads / numKvHeads, numKvHeads / tpSize;
    ShapeIsRecovered(perKv, groups, headDim, Product(headDim, perKv), stride, |tpData[0]|);
    assert tpData[0] in tpData;
    if |tpData[0]| % (perKv + 2) != 0 {
      return Err(RowsNotDivisible);
    }
    var merged := MergeGroups(tpData, ShapeOfShard(|tpData[0]|, perKv, groups));
    return Ok(merged);
  }

  /** Packing, cutting the rows into tp equal shards and merging gives back q, k and v, for every head count, head size
      and tp that divides the number of key-value heads; and the shards have the shape MergeQkv asks for. */
  lemma QkvRoundTrip<T>(q: seq<T>, k: seq<T>, v: seq<T>, qRows: nat, headDim: nat, stride: nat, tpSize: nat, groups: nat,
                        kvHeads: nat)
    requires stride == qRows + headDim + headDim > 0 && kvHeads == tpSize * groups
    requires |q| == kvHeads * qRows && |k| == |v| == kvHeads * headDim
    ensures var packed := Pack(Pieces(q, kvHeads, qRows), Pieces(k, kvHeads, headDim), Pieces(v, kvHeads, headDim));
            && |packed| == tpSize * (groups * stride)
            && AllHaveRows(Pieces(packed, tpSize, groups * stride), groups * stride)
            && Unpack(Concat(Pieces(packed, tpSize, groups * stride)), qRows, headDim) == Qkv(q, k, v)
  {
    var qg, kg, vg := Pieces(q, kvHeads, qRows), Pieces(k, kvHeads, headDim), Pieces(v, kvHeads, headDim);
    ProductAssociates(tpSize, groups, stride);
    PackedRows(qg, kg, vg, qRows, headDim, stride);
    UnpackPack(qg, kg, vg, qRows, headDim);
  }

  /** Convert, shard, merge: the merger's code returns exactly the projections the converter packed. */
  method PackShardAndMerge<T>(q: seq<T>, k: seq<T>, v: seq<T>, numHeads: nat, numKvHeads: nat, headDim: nat, tpSize: nat)
    returns (r: Result<Qkv<T>, MergeError>)
    requires 0 < numKvHeads && numHeads % numKvHeads == 0 && 0 < headDim && 0 < tpSize && numKvHeads % tpSize == 0
    requires |q| == numKvHeads * (headDim * (numHeads / numKvHeads)) && |k| == |v| == numKvHeads * headDim
    ensures r == Ok(Qkv(q, k, v))
  {
    var qRows, groups := Product(headDim, numHeads / numKvHeads), numKvHeads / tpSize;
    var stride := qRows + headDim + headDim;
    var packed := Pack(Pieces(q, numKvHeads, qRows), Pieces(k, numKvHeads, headDim), Pieces(v, numKvHeads, headDim));
    DivisorFactors(numKvHeads, tpSize);
    QkvRoundTrip(q, k, v, qRows, headDim, stride, tpSize, groups, numKvHeads);
    r := MergeQkv(Pieces(packed, tpSize, Product(groups, stride)), numHeads, numKvHeads, tpSize, headDim, stride);
  }
}
