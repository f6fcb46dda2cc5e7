/** The distributed part of the Hugging Face to Megatron conversion: how layers are dealt to pipeline ranks, which experts
    a rank copies, and what the element count it checks can and cannot notice. */
module HfToMcore {
  import opened Options
  import opened Arithmetic
  import opened Sequences
  import opened LayerMerge

  // ---------------------------------------------------------------------------------------------
  // Layers per pipeline rank
  // ---------------------------------------------------------------------------------------------

  datatype ShardError = TooFewLayers | NoRanks | NoStrategy

  /** A strategy gives `middle` layers to every inner rank and splits the rest between the first and the last. */
  function OuterLayers(layers: nat, ppSize: nat, middle: nat): int {
    layers - middle * (ppSize - 2)
  }

  function FirstLayers(layers: nat, ppSize: nat, middle: nat): int {
    OuterLayers(layers, ppSize, middle) / 2
  }

  function LastLayers(layers: nat, ppSize: nat, middle: nat): int {
    OuterLayers(layers, ppSize, middle) - FirstLayers(layers, ppSize, middle)
  }

  predicate Feasible(layers: nat, ppSize: nat, middle: nat) {
    0 < FirstLayers(layers, ppSize, middle) <= middle && 0 < LastLayers(layers, ppSize, middle) <= middle
  }

  function Unevenness(layers: nat, ppSize: nat, middle: nat): nat {
    var d := FirstLayers(layers, ppSize, middle) - middle;
    if d < 0 then -d else d
  }

  /** Between the outer ranks at two layers and all ranks full. */
  lemma FeasibleIff(layers: nat, ppSize: nat, middle: nat)
    ensures Feasible(layers, ppSize, middle) <==> 2 <= OuterLayers(layers, ppSize, middle) <= 2 * middle
  {
  }

  /** Some middle size is usable exactly when the least one that leaves the outer ranks no more than it, the layers per rank
      rounded up, still leaves them two layers. */
  lemma SomeStrategyIff(layers: nat, ppSize: nat)
    requires ppSize >= 3
    ensures (exists middle: nat :: Feasible(layers, ppSize, middle))
            <==> CeilQuotient(layers, ppSize) * (ppSize - 2) + 2 <= layers
  {
    var least, inner := CeilQuotient(layers, ppSize), ppSize - 2;
    CeilQuotientBounds(layers, ppSize);
    assert least * ppSize == least * inner + 2 * least;
    FeasibleIff(layers, ppSize, least);
    if middle: nat :| Feasible(layers, ppSize, middle) {
      FeasibleIff(layers, ppSize, middle);
      assert middle * ppSize == middle * inner + 2 * middle;
      LeastMultiple(layers, ppSize, middle);
      ProductIsMonotone(least, middle, inner);
    }
  }

  lemma LeastMultiple(layers: nat, ppSize: nat, middle: nat)
    requires ppSize > 0 && layers <= middle * ppSize
    ensures CeilQuotient(layers, ppSize) <= middle
  {
    CeilQuotientBounds(layers, ppSize);
    var least := CeilQuotient(layers, ppSize);
    assert (middle + 1) * ppSize == middle * ppSize + ppSize;
    ProductIsMonotone(middle + 1, least, ppSize);
  }

  lemma FeasibleIsInRange(layers: nat, ppSize: nat, middle: nat)
    requires ppSize > 2 && Feasible(layers, ppSize, middle)
    ensures middle < layers
  {
    ProductIsMonotone(1, ppSize - 2, middle);
  }

  /** The best of the strategies below `end`: the most even one, the first of equals. */
  ghost predicate IsBestBelow(layers: nat, ppSize: nat, middle: nat, end: nat) {
    && Feasible(layers, ppSize, middle) && middle < end
    && (forall m: nat | m < end && Feasible(layers, ppSize, m) ::
          Unevenness(layers, ppSize, middle) <= Unevenness(layers, ppSize, m))
    && (forall m: nat | m < middle && Feasible(layers, ppSize, m) ::
          Unevenness(layers, ppSize, middle) < Unevenness(layers, ppSize, m))
  }

  ghost predicate NoneBelow(layers: nat, ppSize: nat, end: nat) {
    forall m: nat | m < end :: !Feasible(layers, ppSize, m)
  }

  /** The best strategy of all. */
  ghost predicate IsBest(layers: nat, ppSize: nat, middle: nat) {
    && Feasible(layers, ppSize, middle)
    && (forall m: nat | Feasible(layers, ppSize, m) :: Unevenness(layers, ppSize, middle) <= Unevenness(layers, ppSize, m))
    && (forall m: nat | m < middle && Feasible(layers, ppSize, m) ::
          Unevenness(layers, ppSize, middle) < Unevenness(layers, ppSize, m))
  }

  /** The search loop, with the sort that takes the first most even strategy. */
  method BestMiddle(layers: nat, ppSize: nat) returns (best: Option<nat>)
    requires ppSize >= 3
    ensures best.None? ==> forall m: nat :: !Feasible(layers, ppSize, m)
    ensures best.Some? ==> IsBest(layers, ppSize, best.value)
  {
    best := None;
    for middle := 0 to layers
      invariant best.None? ==> NoneBelow(layers, ppSize, middle)
      invariant best.Some? ==> IsBestBelow(layers, ppSize, best.value, middle)
    {
      if Feasible(layers, ppSize, middle) {
        if best.None? || Unevenness(layers, ppSize, middle) < Unevenness(layers, ppSize, best.value) {
          best := Some(middle);
        }
      }
    }
    forall m: nat | Feasible(layers, ppSize, m)
      ensures m < layers
    {
      FeasibleIsInRange(layers, ppSize, m);
    }
  }

  ghost predicate AllPositive(sizes: seq<nat>) {
    forall i :: 0 <= i < |sizes| ==> sizes[i] > 0
  }

  ghost predicate DealsOut(sizes: seq<nat>, layers: nat, ppSize: nat) {
    |sizes| == ppSize && AllPositive(sizes) && Start(sizes, ppSize) == layers
  }

  /** The sizes of a strategy. */
  function Strategy(layers: nat, ppSize: nat, middle: nat): seq<nat>
    requires ppSize >= 3 && Feasible(layers, ppSize, middle)
  {
    [FirstLayers(layers, ppSize, middle)] + Copies<nat>(middle, ppSize - 2) + [LastLayers(layers, ppSize, middle)]
  }

  function TwoHalves(layers: nat): seq<nat> {
    [layers / 2, layers - layers / 2]
  }

  method DynamicPipelineShards(layers: nat, ppSize: int) returns (r: Result<seq<nat>, ShardError>)
    ensures r == Err(TooFewLayers) <==> layers < ppSize
    ensures r == Err(NoRanks) <==> ppSize < 1
    ensures r == Err(NoStrategy) <==> 3 <= ppSize <= layers < CeilQuotient(layers, ppSize) * (ppSize - 2) + 2
    ensures r.Ok? ==> DealsOut(r.value, layers, ppSize)
    ensures r.Ok? && ppSize >= 3 ==>
              exists middle: nat :: IsBest(layers, ppSize, middle) && r.value == Strategy(layers, ppSize, middle)
  {
    if layers < ppSize {
      return Err(TooFewLayers);
    }
    if ppSize < 1 {
      return Err(NoRanks);
    }
    if ppSize == 1 {
      return Ok([layers]);
    }
    if ppSize == 2 {
      HalvesDealOut(layers);
      return Ok(TwoHalves(layers));
    }
    var best := BestMiddle(layers, ppSize);
    SomeStrategyIff(layers, ppSize);
    if best.None? {
      return Err(NoStrategy);
    }
    StrategyDealsOut(layers, ppSize, best.value);
    return Ok(Strategy(layers, ppSize, best.value));
  }

  lemma HalvesDealOut(layers: nat)
    requires layers >= 2
    ensures DealsOut(TwoHalves(layers), layers, 2)
  {
    assert Start(TwoHalves(layers), 1) == layers / 2;
  }

  lemma {:induction false} StartOfPrefix(sizes: seq<nat>, more: seq<nat>, i: nat)
    requires i <= |sizes|
    ensures Start(sizes + more, i) == Start(sizes, i)
  {
    if i > 0 {
      StartOfPrefix(sizes, more, i - 1);
    }
  }

  lemma {:induction false} StartOfRepeat(first: nat, n: nat, times: nat)
    ensures Start([first] + Copies<nat>(n, times), times + 1) == first + n * times
  {
    if times > 0 {
      StartOfRepeat(first, n, times - 1);
      var s := [first] + Copies<nat>(n, times - 1);
      assert [first] + Copies<nat>(n, times) == s + [n];
      StartOfPrefix(s, [n], times);
      ProductStep(times, n);
    }
  }

  lemma StrategyDealsOut(layers: nat, ppSize: nat, middle: nat)
    requires ppSize >= 3 && Feasible(layers, ppSize, middle)
    ensures DealsOut(Strategy(layers, ppSize, middle), layers, ppSize)
  {
    var first, last := FirstLayers(layers, ppSize, middle), LastLayers(layers, ppSize, middle);
    var times := ppSize - 2;
    var s: seq<nat> := [first] + Copies<nat>(middle, times);
    StartOfRepeat(first, middle, times);
    StartOfPrefix(s, [last], times + 1);
    var sizes := s + [last];
    assert sizes == Strategy(layers, ppSize, middle);
    assert Start(s, times + 1) == first + middle * times;
    assert Start(sizes, times + 2) == Start(sizes, times + 1) + last;
    assert first + last == layers - middle * times;
  }

  /** One such input. */
  lemma FiveLayersOnFourRanksHaveNoStrategy(middle: nat)
    ensures !Feasible(5, 4, middle)
  {
    assert CeilQuotient(5, 4) == 2;
    SomeStrategyIff(5, 4);
  }

  /** `layer_start` to `layer_end` of a rank, from the cumulative sizes. */
  predicate RankHasLayer(sizes: seq<nat>, rank: nat, layer: nat)
    requires rank < |sizes|
  {
    Start(sizes, rank) <= layer < Start(sizes, rank + 1)
  }

  /** Every layer falls in the range of exactly one rank. */
  lemma {:induction false} EveryLayerHasOneRank(sizes: seq<nat>, layer: nat) returns (rank: nat)
    requires layer < Start(sizes, |sizes|)
    ensures rank < |sizes| && RankHasLayer(sizes, rank, layer)
    ensures forall other: nat | other < |sizes| && RankHasLayer(sizes, other, layer) :: other == rank
  {
    rank := |sizes| - 1;
    while Start(sizes, rank) > layer
      invariant rank < |sizes| && layer < Start(sizes, rank + 1)
      decreases rank
    {
      rank := rank - 1;
    }
    forall other: nat | other < |sizes| && RankHasLayer(sizes, other, layer)
      ensures other == rank
    {
      if other < rank {
        StartIsMonotone(sizes, other + 1, rank);
      } else if rank < other {
        StartIsMonotone(sizes, rank + 1, other);
      }
    }
  }

  /** Layers dealt out by the converter never leave an empty stage, so merging them back renumbers them correctly. */
  lemma DealtLayersMergeBack<V>(model: StateDict<V>, sizes: seq<nat>, layers: nat, ppSize: nat, home: string -> nat)
    requires DealsOut(sizes, layers, ppSize) && Covers(model, sizes, home)
    ensures Merged(CutAll(model, sizes, home), ppSize) == model
  {
    CutThenMergeIsIdentityIff(model, sizes, home);
  }

  // ---------------------------------------------------------------------------------------------
  // Experts per rank
  // ---------------------------------------------------------------------------------------------

  datatype Expert<E> = Expert(gate: seq<E>, up: seq<E>, down: seq<E>)

  predicate Owns(experts: nat, epSize: nat, rank: nat, i: nat)
    requires epSize > 0
  {
    var local := experts / epSize;
    rank * local <= i < (rank + 1) * local
  }

  /** Experts of equal size: down has `w2` elements, gate and up as many each. */
  ghost predicate Uniform<E>(experts: seq<Expert<E>>, w2: nat) {
    forall e | e in experts :: |e.gate| == |e.up| == |e.down| == w2
  }

  /** The copy loop over all experts of one layer, with its element count. */
  method CopyExperts<E>(experts: seq<Expert<E>>, epRank: nat, epSize: nat, fc1: array<seq<E>>, fc2: array<seq<E>>, w2: nat)
    returns (numel: nat)
    requires 0 < epSize && epRank < epSize && fc1 != fc2
    requires fc1.Length == fc2.Length == |experts| / epSize && Uniform(experts, w2)
    modifies fc1, fc2
    ensures var start := epRank * (|experts| / epSize);
            && start + fc1.Length <= |experts|
            && (forall j :: 0 <= j < fc1.Length ==>
                  fc1[j] == experts[start + j].gate + experts[start + j].up && fc2[j] == experts[start + j].down)
    ensures numel == fc1.Length * (3 * w2)
  {
    var local := |experts| / epSize;
    var start, end := epRank * local, (epRank + 1) * local;
    LocalExpertsExist(|experts|, epSize, epRank);
    assert end == start + local;
    numel := 0;
    for i := 0 to |experts|
      invariant forall j :: 0 <= j < local && start + j < i ==>
                  fc1[j] == experts[start + j].gate + experts[start + j].up && fc2[j] == experts[start + j].down
      invariant numel == Copied(i, start, end) * (3 * w2)
    {
      if i < start || i >= end {
        continue;
      }
      assert experts[i] in experts;
      fc1[i - start] := experts[i].gate + experts[i].up;
      fc2[i - start] := experts[i].down;
      ProductStep(Copied(i, start, end) + 1, 3 * w2);
      numel := numel + 2 * w2 + w2;
    }
  }

  /** How many of the first i experts lie in the range. */
  function Copied(i: nat, start: nat, end: nat): nat
    requires start <= end
  {
    if i <= start then 0 else if i <= end then i - start else end - start
  }

  lemma LocalExpertsExist(experts: nat, epSize: nat, rank: nat)
    requires epSize > 0 && rank < epSize
    ensures (rank + 1) * (experts / epSize) <= experts
    ensures (rank + 1) * (experts / epSize) == rank * (experts / epSize) + experts / epSize
  {
    ProductIsMonotone(rank + 1, epSize, experts / epSize);
  }

  ghost predicate OwnedBySomeRank(experts: nat, epSize: nat, i: nat)
    requires epSize > 0
  {
    exists rank: nat :: rank < epSize && Owns(experts, epSize, rank, i)
  }

  lemma OwnerIsUnique(experts: nat, epSize: nat, i: nat, rank1: nat, rank2: nat)
    requires epSize > 0 && Owns(experts, epSize, rank1, i) && Owns(experts, epSize, rank2, i)
    ensures rank1 == rank2
  {
    ProductIsMonotone(rank1 + 1, rank2, experts / epSize);
    ProductIsMonotone(rank2 + 1, rank1, experts / epSize);
  }

  /** Exact: every expert is copied by a rank (and then by only one) if and only if ep divides the expert count. */
  lemma EveryExpertIsOwnedIff(experts: nat, epSize: nat)
    requires epSize > 0
    ensures (forall i: nat | i < experts :: OwnedBySomeRank(experts, epSize, i)) <==> experts % epSize == 0
  {
    var local := experts / epSize;
    assert experts == epSize * local + experts % epSize;
    if experts % epSize == 0 {
      forall i: nat | i < experts
        ensures OwnedBySomeRank(experts, epSize, i)
      {
        OwnerOf(experts, epSize, i);
      }
    } else {
      var i := epSize * local;
      forall rank: nat | rank < epSize
        ensures !Owns(experts, epSize, rank, i)
      {
        ProductIsMonotone(rank + 1, epSize, local);
      }
      assert !OwnedBySomeRank(experts, epSize, i);
    }
  }

  lemma OwnerOf(experts: nat, epSize: nat, i: nat)
    requires epSize > 0 && experts % epSize == 0 && i < experts
    ensures OwnedBySomeRank(experts, epSize, i)
  {
    var local := experts / epSize;
    DivisorFactors(experts, epSize);
    QuotientBounds(i, local);
    QuotientBelow(i, local, epSize);
    assert Owns(experts, epSize, Quotient(i, local), i);
  }

  /** The correction the source subtracts from a layer's element count for the experts other ranks hold. */
  function Correction(w2: nat, experts: nat, epSize: nat): nat
    requires epSize > 0
  {
    Product(Quotient(Product(w2 * 3, experts), epSize), epSize - 1)
  }

  /** With q experts per rank and r left over, all expert elements are `perRank * epSize` plus a rest. */
  lemma ExpertElements(size: nat, q: nat, r: nat, epSize: nat) returns (perRank: nat, rest: nat)
    requires epSize > 0 && r < epSize
    ensures Product(size, q * epSize + r) == perRank * epSize + rest && rest < epSize
    ensures Quotient(Product(size, q * epSize + r), epSize) == perRank
    ensures perRank == size * q + Quotient(size * r, epSize)
    ensures rest == size * r % epSize
  {
    var x := Quotient(size * r, epSize);
    perRank, rest := size * q + x, size * r % epSize;
    assert size * r == x * epSize + rest;
    assert Product(size, q * epSize + r) == size * q * epSize + size * r by {
      ProductAssociates(size, q, epSize);
    }
    assert size * q * epSize + x * epSize == perRank * epSize;
    QuotientIsUnique(Product(size, q * epSize + r), epSize, perRank, rest);
  }

  lemma NumelCheckSplit(w2: nat, q: nat, r: nat, epSize: nat)
    requires epSize > 0 && r < epSize && w2 > 0
    ensures var experts := q * epSize + r;
            Product(w2 * 3, q) == Product(w2 * 3, experts) - Correction(w2, experts, epSize) <==> r == 0
  {
    var perRank, rest := ExpertElements(w2 * 3, q, r, epSize);
    DropOneFactor(perRank, epSize);
    LeftoverIsVisible(w2 * 3, r, epSize);
  }

  /** Exact: the element-count assertion of a layer, copied elements against all minus the correction, holds if and only
      if ep divides the expert count; so it does notice experts that no rank copies. */
  lemma NumelCheckPassesIff(w2: nat, experts: nat, epSize: nat)
    requires epSize > 0 && w2 > 0
    ensures Product(w2 * 3, experts / epSize) == Product(w2 * 3, experts) - Correction(w2, experts, epSize)
            <==> experts % epSize == 0
  {
    QuotientBounds(experts, epSize);
    assert experts == experts / epSize * epSize + experts % epSize;
    NumelCheckSplit(w2, experts / epSize, experts % epSize, epSize);
  }

  lemma LeftoverIsVisible(size: nat, r: nat, epSize: nat)
    requires epSize > 0 && size > 0
    ensures Quotient(size * r, epSize) + size * r % epSize == 0 <==> r == 0
  {
    ProductIsMonotone(1, r, size);
    QuotientBounds(size * r, epSize);
  }
}
