/** The FSDP merger over whole checkpoints: one dictionary per rank, loaded in any order, gathered key by key, and merged as
    each entry was placed. */
module FsdpMerge {
  import opened Options
  import opened Arithmetic
  import opened Sequences
  import opened TensorMerge

  // ---------------------------------------------------------------------------------------------
  // One tensor
  // ---------------------------------------------------------------------------------------------

  datatype Placement = Replicate | Partial | ShardRows | ShardColumns

  ghost function MergeByPlacement<E>(tensors: seq<Tensor<E>>, placement: Placement): Option<Tensor<E>>
    requires |tensors| > 0
  {
    match placement
    case Replicate => Some(tensors[0])
    case Partial => None
    case ShardRows => Some(Concat(tensors))
    case ShardColumns => if SameRowCount(tensors, |tensors[0]|) then Some(CatColumns(tensors)) else None
  }

  method MergePlaced<E>(tensors: seq<Tensor<E>>, placement: Placement) returns (r: Option<Tensor<E>>)
    requires |tensors| > 0
    ensures r == MergeByPlacement(tensors, placement)
  {
    match placement
    case Replicate => r := Some(tensors[0]);
    case Partial => r := None;
    case ShardRows => r := Some(Concat(tensors));
    case ShardColumns =>
      if forall i | 0 <= i < |tensors| :: |tensors[i]| == |tensors[0]| {
        r := Some(CatColumns(tensors));
      } else {
        r := None;
      }
  }

  /** The shards of a sequence over `count` ranks, `size` elements each as long as there are any: later ones may be shorter or
      empty. */
  function Shards<T>(s: seq<T>, size: nat, count: nat): (shards: seq<seq<T>>)
    ensures |shards| == count
  {
    if count == 0 then []
    else
      var m := if size <= |s| then size else |s|;
      [s[..m]] + Shards(s[m..], size, count - 1)
  }

  lemma {:induction false} ShardsJoinBack<T>(s: seq<T>, size: nat, count: nat)
    requires |s| <= Product(count, size)
    ensures Concat(Shards(s, size, count)) == s
  {
    if count > 0 {
      var m := if size <= |s| then size else |s|;
      ProductGrows(count, size);
      ShardsJoinBack(s[m..], size, count - 1);
      assert s == s[..m] + s[m..];
    }
  }

  /** As evenly as whole elements allow: the quotient rounded up on each rank. */
  function EvenShards<T>(s: seq<T>, ranks: nat): (shards: seq<seq<T>>)
    requires ranks > 0
    ensures |shards| == ranks
  {
    Shards(s, CeilQuotient(|s|, ranks), ranks)
  }

  lemma EvenShardsJoinBack<T>(s: seq<T>, ranks: nat)
    requires ranks > 0
    ensures Concat(EvenShards(s, ranks)) == s
  {
    CeilQuotientBounds(|s|, ranks);
    ShardsJoinBack(s, CeilQuotient(|s|, ranks), ranks);
  }

  /** The first shard is everything only when there is nothing to share out. */
  lemma FirstShardIsAllIff<T>(s: seq<T>, ranks: nat)
    requires ranks > 0
    ensures EvenShards(s, ranks)[0] == s <==> ranks == 1 || |s| <= 1
  {
    var q := CeilQuotient(|s|, ranks);
    CeilQuotientBounds(|s|, ranks);
    if ranks == 1 {
      assert q * 1 == q;
    } else if |s| >= 2 && q >= |s| {
      ProductIsMonotone(|s|, q, ranks);
      TwiceAtLeast(|s|, ranks);
      assert false;
    }
  }

  lemma TwiceAtLeast(a: nat, b: nat)
    requires a >= 2 && b >= 2
    ensures a * b >= a + b
  {
    ProductIsMonotone(2, b, a);
    ProductIsMonotone(2, a, b);
  }

  function Width<E>(t: Tensor<E>): nat {
    if t == [] then 0 else |t[0]|
  }

  ghost predicate IsMatrix<E>(t: Tensor<E>) {
    forall i :: 0 <= i < |t| ==> |t[i]| == Width(t)
  }

  /** Every row cut the same way: the columns over the ranks, possibly unevenly. */
  function ColumnShards<E>(t: Tensor<E>, ranks: nat): (parts: seq<Tensor<E>>)
    requires ranks > 0
    ensures |parts| == ranks && SameRowCount(parts, |t|)
    ensures forall r, i :: 0 <= r < ranks && 0 <= i < |t| ==> parts[r][i] == EvenShards(t[i], ranks)[r]
  {
    seq(ranks, r requires 0 <= r < ranks => seq(|t|, i requires 0 <= i < |t| => EvenShards(t[i], ranks)[r]))
  }

  lemma ColumnShardsJoinBack<E>(t: Tensor<E>, ranks: nat)
    requires ranks > 0
    ensures CatColumns(ColumnShards(t, ranks)) == t
  {
    var parts := ColumnShards(t, ranks);
    forall i | 0 <= i < |t|
      ensures Concat(RowSlices(parts, i)) == t[i]
    {
      EvenShardsJoinBack(t[i], ranks);
      assert RowSlices(parts, i) == EvenShards(t[i], ranks);
    }
  }

  lemma FirstColumnShardIsAllIff<E>(t: Tensor<E>, ranks: nat)
    requires ranks > 0 && IsMatrix(t)
    ensures ColumnShards(t, ranks)[0] == t <==> ranks == 1 || Width(t) <= 1
  {
    var first := ColumnShards(t, ranks)[0];
    forall i | 0 <= i < |t|
      ensures first[i] == t[i] <==> ranks == 1 || Width(t) <= 1
    {
      FirstShardIsAllIff(t[i], ranks);
    }
  }

  // ---------------------------------------------------------------------------------------------
  // Loading and gathering
  // ---------------------------------------------------------------------------------------------

  /** What a rank's file holds under a key: a distributed tensor, with its local part, or a plain one. */
  datatype Piece<E> = Distributed(local: Tensor<E>, placements: seq<Placement>) | Plain(tensor: Tensor<E>)

  type RankFile<E> = map<string, Piece<E>>

  function LocalTensor<E>(p: Piece<E>): Tensor<E> {
    match p
    case Distributed(local, _) => local
    case Plain(tensor) => tensor
  }

  /** The replicated placement of a data-parallel first dimension is discarded. */
  function Placements<E>(p: Piece<E>, dataParallel: bool): seq<Placement>
    requires p.Distributed?
  {
    if dataParallel && p.placements != [] then p.placements[1..] else p.placements
  }

  function LocalTensors<E>(pieces: seq<Piece<E>>): (tensors: seq<Tensor<E>>)
    ensures |tensors| == |pieces|
    ensures forall i :: 0 <= i < |pieces| ==> tensors[i] == LocalTensor(pieces[i])
  {
    seq(|pieces|, i requires 0 <= i < |pieces| => LocalTensor(pieces[i]))
  }

  /** All distributed pieces have these placements. */
  ghost predicate PlacedAs<E>(pieces: seq<Piece<E>>, dataParallel: bool, placements: seq<Placement>) {
    forall i :: 0 <= i < |pieces| && pieces[i].Distributed? ==> Placements(pieces[i], dataParallel) == placements
  }

  ghost predicate AllPlain<E>(pieces: seq<Piece<E>>) {
    forall i :: 0 <= i < |pieces| ==> pieces[i].Plain?
  }

  /** r is what the pieces of one key merge into, or None if that raises. */
  ghost predicate IsMerge<E>(pieces: seq<Piece<E>>, dataParallel: bool, r: Option<Tensor<E>>) {
    if AllPlain(pieces) then r == Some(Concat(LocalTensors(pieces)))
    else if exists placement :: PlacedAs(pieces, dataParallel, [placement])
    then pieces != [] && forall placement | PlacedAs(pieces, dataParallel, [placement]) ::
           r == MergeByPlacement(LocalTensors(pieces), placement)
    else r == None
  }

  lemma IsMergeOfPlacement<E>(pieces: seq<Piece<E>>, dataParallel: bool, placement: Placement, r: Option<Tensor<E>>)
    requires !AllPlain(pieces) && PlacedAs(pieces, dataParallel, [placement])
    ensures IsMerge(pieces, dataParallel, r) <==> r == MergeByPlacement(LocalTensors(pieces), placement)
  {
    var i :| 0 <= i < |pieces| && pieces[i].Distributed?;
    forall other | PlacedAs(pieces, dataParallel, [other])
      ensures other == placement
    {
      assert [other] == Placements(pieces[i], dataParallel) == [placement];
      assert [other][0] == [placement][0];
    }
  }

  predicate AllHave<E>(files: seq<RankFile<E>>, key: string) {
    forall i :: 0 <= i < |files| ==> key in files[i]
  }

  function PiecesOf<E>(files: seq<RankFile<E>>, key: string): (pieces: seq<Piece<E>>)
    requires AllHave(files, key)
    ensures |pieces| == |files|
    ensures forall i :: 0 <= i < |files| ==> pieces[i] == files[i][key]
  {
    seq(|files|, i requires 0 <= i < |files| => files[i][key])
  }

  /** The gathering of one key over the ranks, in rank order, and its merge. */
  method MergeKey<E>(files: seq<RankFile<E>>, key: string, dataParallel: bool) returns (r: Option<Tensor<E>>)
    requires files != []
    ensures if AllHave(files, key) then IsMerge(PiecesOf(files, key), dataParallel, r) else r == None
  {
    var tensors: seq<Tensor<E>> := [];
    var placements: Option<seq<Placement>> := None;
    ghost var at := 0;
    for n := 0 to |files|
      invariant AllHave(files[..n], key)
      invariant tensors == LocalTensors(PiecesOf(files[..n], key))
      invariant placements.None? ==> AllPlain(PiecesOf(files[..n], key))
      invariant placements.Some? ==> 0 <= at < n && files[at][key].Distributed?
      invariant placements.Some? ==> PlacedAs(PiecesOf(files[..n], key), dataParallel, placements.value)
    {
      if key !in files[n] {
        return None;
      }
      var piece := files[n][key];
      assert AllHave(files[..n + 1], key);
      assert PiecesOf(files[..n + 1], key) == PiecesOf(files[..n], key) + [piece];
      tensors := tensors + [LocalTensor(piece)];
      if piece.Distributed? {
        if placements.None? {
          placements, at := Some(Placements(piece, dataParallel)), n;
        } else if placements.value != Placements(piece, dataParallel) {
          if AllHave(files, key) {
            assert PiecesOf(files[..n], key)[at].Distributed?;
            DifferentlyPlaced(PiecesOf(files, key), PiecesOf(files[..n], key), n, dataParallel, placements.value);
          }
          return None;
        }
      }
    }
    assert files[..|files|] == files;
    if placements.None? {
      return Some(Concat(tensors));
    }
    assert PiecesOf(files, key)[at].Distributed?;
    if |placements.value| != 1 {
      NotOnePlacement(PiecesOf(files, key), dataParallel, placements.value);
      return None;
    }
    assert placements.value == [placements.value[0]];
    r := MergePlaced(tensors, placements.value[0]);
    IsMergeOfPlacement(PiecesOf(files, key), dataParallel, placements.value[0], r);
  }

  lemma DifferentlyPlaced<E>(pieces: seq<Piece<E>>, before: seq<Piece<E>>, n: nat, dataParallel: bool, placements: seq<Placement>)
    requires before <= pieces && !AllPlain(before) && PlacedAs(before, dataParallel, placements)
    requires n < |pieces| && pieces[n].Distributed? && Placements(pieces[n], dataParallel) != placements
    ensures IsMerge(pieces, dataParallel, None)
  {
    var i :| 0 <= i < |before| && before[i].Distributed?;
    assert pieces[i] == before[i];
  }

  lemma NotOnePlacement<E>(pieces: seq<Piece<E>>, dataParallel: bool, placements: seq<Placement>)
    requires !AllPlain(pieces) && PlacedAs(pieces, dataParallel, placements) && |placements| != 1
    ensures IsMerge(pieces, dataParallel, None)
  {
    var i :| 0 <= i < |pieces| && pieces[i].Distributed?;
    assert forall placement :: PlacedAs(pieces, dataParallel, [placement]) ==> [placement] == placements;
  }

  /** The loader threads complete in the order `completion`; each stores what it loaded at its own rank. */
  method LoadShards<V>(shards: seq<V>, completion: seq<nat>) returns (loaded: seq<V>)
    requires forall r: nat :: r in completion <==> r < |shards|
    ensures loaded == shards
  {
    var slots := new Option<V>[|shards|](i => None);
    for c := 0 to |completion|
      invariant forall i :: 0 <= i < |shards| ==> slots[i] == if i in completion[..c] then Some(shards[i]) else None
    {
      assert completion[c] in completion;
      slots[completion[c]] := Some(shards[completion[c]]);
      assert completion[..c + 1] == completion[..c] + [completion[c]];
    }
    assert completion[..|completion|] == completion;
    loaded := seq(|shards|, i requires 0 <= i < slots.Length && slots[i].Some? reads slots => slots[i].value);
  }

  ghost predicate KeyFails<E>(files: seq<RankFile<E>>, key: string, dataParallel: bool) {
    !AllHave(files, key) || IsMerge(PiecesOf(files, key), dataParallel, None)
  }

  /** r is the dictionary of the merged keys of the first file, or None if some key raises. */
  ghost predicate IsMergedDict<E>(files: seq<RankFile<E>>, dataParallel: bool, r: Option<map<string, Tensor<E>>>)
    requires files != []
  {
    if exists k | k in files[0] :: KeyFails(files, k, dataParallel) then r == None
    else r.Some? && r.value.Keys == files[0].Keys
         && forall k | k in files[0] :: KeyMerged(files, k, dataParallel, r.value[k])
  }

  ghost predicate KeyMerged<E>(files: seq<RankFile<E>>, key: string, dataParallel: bool, tensor: Tensor<E>) {
    AllHave(files, key) && IsMerge(PiecesOf(files, key), dataParallel, Some(tensor))
  }

  lemma MergedDoesNotFail<E>(files: seq<RankFile<E>>, key: string, dataParallel: bool, tensor: Tensor<E>)
    requires KeyMerged(files, key, dataParallel, tensor)
    ensures !KeyFails(files, key, dataParallel)
  {
  }

  /** Load in any order, gather and merge every key of rank 0's file. */
  method LoadAndMerge<E>(files: seq<RankFile<E>>, completion: seq<nat>, dataParallel: bool)
      returns (r: Option<map<string, Tensor<E>>>)
    requires files != [] && forall rank: nat :: rank in completion <==> rank < |files|
    ensures IsMergedDict(files, dataParallel, r)
  {
    var loaded := LoadShards(files, completion);
    var merged: map<string, Tensor<E>> := map[];
    var todo := loaded[0].Keys;
    while todo != {}
      invariant todo <= files[0].Keys && merged.Keys == files[0].Keys - todo
      invariant forall k | k in merged :: KeyMerged(files, k, dataParallel, merged[k])
      decreases |todo|
    {
      var key :| key in todo;
      var tensor := MergeKey(loaded, key, dataParallel);
      if tensor.None? {
        assert KeyFails(files, key, dataParallel);
        return None;
      }
      merged := merged[key := tensor.value];
      todo := todo - {key};
    }
    forall k | k in files[0]
      ensures !KeyFails(files, k, dataParallel)
    {
      MergedDoesNotFail(files, k, dataParallel, merged[k]);
    }
    r := Some(merged);
  }

  // ---------------------------------------------------------------------------------------------
  // Whole checkpoints
  // ---------------------------------------------------------------------------------------------

  /** How a tensor is saved: distributed with a placement, as plain row shards, or as a plain copy on every rank. */
  datatype Saved = AsDistributed(placement: Placement) | AsPlainShards | AsPlainCopies

  /** The local parts of a tensor on all ranks. */
  function LocalParts<E>(t: Tensor<E>, saved: Saved, ranks: nat): (parts: seq<Tensor<E>>)
    requires ranks > 0
    ensures |parts| == ranks
  {
    match saved
    case AsDistributed(ShardRows) => EvenShards(t, ranks)
    case AsDistributed(ShardColumns) => ColumnShards(t, ranks)
    case AsPlainShards => EvenShards(t, ranks)
    case _ => Copies(t, ranks)
  }

  function PieceFor<E>(part: Tensor<E>, saved: Saved, dataParallel: bool): Piece<E> {
    if saved.AsDistributed?
    then Distributed(part, if dataParallel then [Replicate, saved.placement] else [saved.placement])
    else Plain(part)
  }

  /** Rank r's file holds its part of every tensor of the model. */
  ghost predicate HoldsModel<E>(files: seq<RankFile<E>>, model: map<string, Tensor<E>>, saved: map<string, Saved>,
                                dataParallel: bool) {
    && files != [] && saved.Keys == model.Keys
    && (forall r :: 0 <= r < |files| ==> files[r].Keys == model.Keys)
    && (forall r, k | 0 <= r < |files| && k in model ::
          files[r][k] == PieceFor(LocalParts(model[k], saved[k], |files|)[r], saved[k], dataParallel))
  }

  /** The number of files loaded is read off the mesh of the first key's tensor; when that tensor is plain, the mesh made up
      for it has a single rank. */
  function FilesLoaded(firstIsDistributed: bool, ranks: nat): nat {
    if firstIsDistributed then ranks else 1
  }

  /** Whether the merge of the first `loaded` of the parts gives the tensor back. */
  predicate Restores<E>(t: Tensor<E>, saved: Saved, ranks: nat, loaded: nat) {
    match saved
    case AsDistributed(Replicate) => true
    case AsDistributed(Partial) => false
    case AsDistributed(ShardRows) => loaded == ranks || |t| <= 1
    case AsDistributed(ShardColumns) => loaded == ranks || Width(t) <= 1
    case AsPlainShards => loaded == ranks || |t| <= 1
    case AsPlainCopies => loaded == 1 || |t| == 0
  }

  lemma {:induction false} ConcatOfCopies<T>(s: seq<T>, n: nat)
    ensures |Concat(Copies(s, n))| == n * |s|
  {
    if n > 0 {
      assert Copies(s, n)[1..] == Copies(s, n - 1);
      ConcatOfCopies(s, n - 1);
      ProductStep(n, |s|);
    }
  }

  lemma CopiesJoinIff<T>(s: seq<T>, n: nat)
    requires n > 0
    ensures Concat(Copies(s, n)) == s <==> n == 1 || |s| == 0
  {
    ConcatOfCopies(s, n);
    if n == 1 {
      assert Copies(s, 1) == [s];
    } else if |s| > 0 {
      ProductIsMonotone(2, n, |s|);
    }
  }

  lemma OnePart<T>(s: seq<T>)
    ensures Concat([s]) == s
  {
  }

  ghost function PiecesFor<E>(t: Tensor<E>, saved: Saved, ranks: nat, loaded: nat, dataParallel: bool): (pieces: seq<Piece<E>>)
    requires 0 < loaded <= ranks
    ensures |pieces| == loaded
    ensures forall i :: 0 <= i < loaded ==> pieces[i] == PieceFor(LocalParts(t, saved, ranks)[i], saved, dataParallel)
  {
    seq(loaded, i requires 0 <= i < loaded => PieceFor(LocalParts(t, saved, ranks)[i], saved, dataParallel))
  }

  lemma MergePartsIff<E>(t: Tensor<E>, placement: Placement, ranks: nat, loaded: nat)
    requires 0 < ranks && (loaded == ranks || loaded == 1) && IsMatrix(t)
    ensures MergeByPlacement(LocalParts(t, AsDistributed(placement), ranks)[..loaded], placement) == Some(t)
            <==> Restores(t, AsDistributed(placement), ranks, loaded)
  {
    var parts := LocalParts(t, AsDistributed(placement), ranks);
    match placement
    case Replicate =>
    case Partial =>
    case ShardRows =>
      EvenShardsJoinBack(t, ranks);
      FirstShardIsAllIff(t, ranks);
      OnePart(parts[0]);
      assert parts[..ranks] == parts && parts[..1] == [parts[0]];
    case ShardColumns =>
      ColumnShardsJoinBack(t, ranks);
      FirstColumnShardIsAllIff(t, ranks);
      assert parts[..ranks] == parts && parts[..1] == [parts[0]];
      OneColumnPart(parts[0]);
  }

  lemma OneColumnPart<E>(t: Tensor<E>)
    ensures CatColumns([t]) == t
  {
    forall i | 0 <= i < |t|
      ensures Concat(RowSlices([t], i)) == t[i]
    {
      assert RowSlices([t], i) == [t[i]];
      OnePart(t[i]);
    }
  }

  lemma PlainPartsIff<E>(t: Tensor<E>, saved: Saved, ranks: nat, loaded: nat)
    requires 0 < ranks && (loaded == ranks || loaded == 1) && !saved.AsDistributed?
    ensures Concat(LocalParts(t, saved, ranks)[..loaded]) == t <==> Restores(t, saved, ranks, loaded)
  {
    var parts := LocalParts(t, saved, ranks);
    assert parts[..ranks] == parts && parts[..1] == [parts[0]];
    OnePart(parts[0]);
    if saved.AsPlainShards? {
      EvenShardsJoinBack(t, ranks);
      FirstShardIsAllIff(t, ranks);
    } else {
      CopiesJoinIff(t, ranks);
    }
  }

  /** One key of a checkpoint. */
  lemma KeyRestoredIff<E>(t: Tensor<E>, saved: Saved, ranks: nat, loaded: nat, dataParallel: bool)
    requires 0 < ranks && (loaded == ranks || loaded == 1) && IsMatrix(t)
    ensures IsMerge(PiecesFor(t, saved, ranks, loaded, dataParallel), dataParallel, Some(t))
            <==> Restores(t, saved, ranks, loaded)
  {
    var pieces := PiecesFor(t, saved, ranks, loaded, dataParallel);
    assert LocalTensors(pieces) == LocalParts(t, saved, ranks)[..loaded];
    if saved.AsDistributed? {
      assert pieces[0].Distributed?;
      assert [Replicate, saved.placement][1..] == [saved.placement];
      IsMergeOfPlacement(pieces, dataParallel, saved.placement, Some(t));
      MergePartsIff(t, saved.placement, ranks, loaded);
    } else {
      PlainPartsIff(t, saved, ranks, loaded);
    }
  }

  /** The merge gives the model back if and only if every tensor survives the number of files loaded: a plain first tensor
      makes the merger read rank 0 alone, and plain copies read from several ranks are stacked. */
  lemma FsdpMergeRestoresModelIff<E>(files: seq<RankFile<E>>, model: map<string, Tensor<E>>, saved: map<string, Saved>,
                                     dataParallel: bool, first: string)
    requires HoldsModel(files, model, saved, dataParallel) && first in model && forall k | k in model :: IsMatrix(model[k])
    ensures var loaded := FilesLoaded(saved[first].AsDistributed?, |files|);
            IsMergedDict(files[..loaded], dataParallel, Some(model))
            <==> forall k | k in model :: Restores(model[k], saved[k], |files|, loaded)
  {
    var ranks := |files|;
    var loaded := FilesLoaded(saved[first].AsDistributed?, ranks);
    var read := files[..loaded];
    forall k | k in model
      ensures KeyMerged(read, k, dataParallel, model[k]) <==> Restores(model[k], saved[k], ranks, loaded)
    {
      assert AllHave(read, k);
      assert PiecesOf(read, k) == PiecesFor(model[k], saved[k], ranks, loaded, dataParallel);
      KeyRestoredIff(model[k], saved[k], ranks, loaded, dataParallel);
    }
    if forall k | k in model :: Restores(model[k], saved[k], ranks, loaded) {
      forall k | k in read[0]
        ensures !KeyFails(read, k, dataParallel)
      {
        MergedDoesNotFail(read, k, dataParallel, model[k]);
      }
    }
  }
}
