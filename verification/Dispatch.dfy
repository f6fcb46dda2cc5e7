/** Sending a batch through n workers: pad, chunk, apply, concatenate, unpad. */
module Dispatch {
  import opened Options
  import opened Arithmetic
  import opened Sequences
  import opened Tables
  import opened TableConcat

  // ---------------------------------------------------------------------------------------------
  // Padding
  // ---------------------------------------------------------------------------------------------

  /** The row numbers 0, 1, ..., len - 1, 0, 1, ... */
  function Wrap(len: nat, total: nat): (idx: seq<nat>)
    requires len > 0
    ensures |idx| == total && InRange(idx, len)
    ensures forall i :: 0 <= i < total ==> idx[i] == i % len
  {
    seq(total, i requires 0 <= i => i % len)
  }

  lemma WrapStart(len: nat)
    requires len > 0
    ensures Wrap(len, len) == Range(0, len)
  {
    forall i | 0 <= i < len
      ensures Wrap(len, len)[i] == i
    {
      RemainderOfSmall(i, len);
    }
  }

  lemma WrapExtend(len: nat, x: nat, take: nat)
    requires len > 0 && x % len == 0 && take <= len
    ensures Wrap(len, x) + Range(0, take) == Wrap(len, x + take)
    ensures take == len ==> (x + take) % len == 0
  {
    var wrapped := Wrap(len, x + take);
    forall i | x <= i < x + take
      ensures wrapped[i] == i - x
    {
      RemainderPast(len, x, i - x);
    }
    if take == len {
      RemainderStep(x + take, len);
    }
  }

  lemma RemainderPast(len: nat, x: nat, j: nat)
    requires len > 0 && x % len == 0 && j < len
    ensures (x + j) % len == j
  {
    DivisorFactors(x, len);
    QuotientIsUnique(x + j, len, x / len, j);
  }

  predicate Divides(n: nat, len: nat)
    requires n > 0
  {
    len % n == 0
  }

  function PadSize(len: nat, n: nat): (pad: nat)
    requires n > 0
    ensures pad < n && (pad == 0 <==> Divides(n, len))
  {
    if len % n != 0 then n - len % n else 0
  }

  lemma PadReachesDivisor(len: nat, n: nat)
    requires n > 0
    ensures Divides(n, len + PadSize(len, n))
  {
    if len % n != 0 {
      var q := Quotient(len, n);
      assert len == q * n + len % n;
      ProductStep(q + 1, n);
      ExactQuotient(q + 1, n);
    }
  }

  function Wrapped<T>(t: Table<T>, total: nat): Table<T>
    requires t.Aligned() && t.size > 0
  {
    Select(t, Wrap(t.size, total))
  }

  /** The parts so far are the batch and slices of it, and together they wrap around it to x rows. */
  ghost predicate WrapsTo<T>(t: Table<T>, parts: seq<Table<T>>, idxs: seq<seq<nat>>, x: nat) {
    && t.Aligned() && t.size > 0 && idxs != [] && AllInRange(idxs, t.size)
    && parts == Selects(t, idxs) && Concat(idxs) == Wrap(t.size, x)
  }

  lemma WrapOnce<T>(t: Table<T>)
    requires t.Aligned() && t.size > 0
    ensures WrapsTo(t, [t], [Range(0, t.size)], t.size)
    ensures Wrapped(t, t.size) == t
  {
    SelectAll(t);
    WrapStart(t.size);
  }

  lemma WrapMore<T>(t: Table<T>, parts: seq<Table<T>>, idxs: seq<seq<nat>>, x: nat, take: nat)
    requires WrapsTo(t, parts, idxs, x) && Divides(t.size, x) && take <= t.size
    ensures WrapsTo(t, parts + [Slice(t, 0, take)], idxs + [Range(0, take)], x + take)
    ensures take == t.size ==> Divides(t.size, x + take)
  {
    SliceIsSelect(t, 0, take);
    ConcatSnoc(idxs, Range(0, take));
    WrapExtend(t.size, x, take);
  }

  lemma WrapsJoin<T>(t: Table<T>, parts: seq<Table<T>>, idxs: seq<seq<nat>>, x: nat)
    requires WrapsTo(t, parts, idxs, x)
    ensures ConcatTables(parts) == Ok(Wrapped(t, x))
  {
    ConcatSelects(t, idxs);
  }

  /** The padding loop: slices from the start of the batch until `pad` rows are taken. */
  method TakeSlices<T>(t: Table<T>, pad: nat) returns (parts: seq<Table<T>>)
    requires t.Aligned() && t.size > 0
    ensures ConcatTables(parts) == Ok(Wrapped(t, t.size + pad))
  {
    parts := [t];
    ghost var idxs := [Range(0, t.size)];
    ghost var reached := t.size;
    WrapOnce(t);
    RemainderStep(t.size, t.size);
    var remaining := pad;
    while remaining > 0
      invariant 0 <= remaining <= pad && reached == t.size + pad - remaining
      invariant WrapsTo(t, parts, idxs, reached)
      invariant remaining > 0 ==> Divides(t.size, reached)
    {
      var take := if remaining < t.size then remaining else t.size;
      WrapMore(t, parts, idxs, reached, take);
      parts := parts + [Slice(t, 0, take)];
      idxs := idxs + [Range(0, take)];
      reached := reached + take;
      remaining := remaining - take;
    }
    WrapsJoin(t, parts, idxs, reached);
  }

  /** Row i of the padded batch is row i mod len, and the pad is the least that makes n divide the size. */
  method PadToDivisor<T>(t: Table<T>, n: nat) returns (padded: Table<T>, pad: nat)
    requires t.Aligned() && n > 0
    ensures pad < n && (pad == 0 <==> Divides(n, t.size))
    ensures Divides(n, t.size + pad)
    ensures t.size == 0 ==> padded == t
    ensures t.size > 0 ==> padded == Wrapped(t, t.size + pad)
  {
    pad := PadSize(t.size, n);
    PadReachesDivisor(t.size, n);
    if !Divides(n, t.size) {
      var parts := TakeSlices(t, pad);
      var joined := ConcatAll(parts);
      padded := joined.value;
    } else {
      padded := t;
      if t.size > 0 {
        WrapOnce(t);
      }
    }
  }

  /** `data[:-pad]`, which keeps nothing when the pad is longer than the data. */
  function Unpad<T>(t: Table<T>, pad: nat): Table<T>
    requires t.Aligned()
  {
    if pad != 0 then SliceAny(t, None, Some(0 - pad), None).value else t
  }

  // ---------------------------------------------------------------------------------------------
  // Chunks
  // ---------------------------------------------------------------------------------------------

  lemma {:induction false} PieceAt<T>(s: seq<T>, count: nat, size: nat, i: nat)
    requires |s| == count * size && i < count
    ensures i * size + size <= |s|
    ensures Pieces(s, count, size)[i] == Part(s, i * size, size)
  {
    ProductStep(count, size);
    ProductStep(i + 1, size);
    ProductIsMonotone(i + 1, count, size);
    if i > 0 {
      ProductStep(i, size);
      PieceAt(s[size..], count - 1, size, i - 1);
    }
  }

  /** The running totals. */
  function CumSum(sizes: seq<nat>): (sums: seq<nat>)
    ensures |sums| == |sizes|
  {
    seq(|sizes|, i requires 0 <= i < |sizes| => Sum(sizes[..i + 1]))
  }

  function ClampedSlice<T>(col: Column<T>, lo: nat, hi: nat): Column<T> {
    var end := if hi <= |col| then hi else |col|;
    if lo <= end then col[lo..end] else []
  }

  /** `np.array_split` at the given cut points. */
  function ArraySplit<T>(col: Column<T>, cuts: seq<nat>): (pieces: seq<Column<T>>)
    ensures |pieces| == |cuts| + 1
  {
    seq(|cuts| + 1, i requires 0 <= i <= |cuts| =>
      ClampedSlice(col, if i == 0 then 0 else cuts[i - 1], if i == |cuts| then |col| else cuts[i]))
  }

  /** `chunk`: tensors are cut into equal pieces, object columns at the running totals of the pieces' sizes. */
  function EqualChunks<T>(t: Table<T>, n: nat, m: nat): (chunks: seq<Table<T>>)
    requires t.Aligned() && n > 0 && t.size == n * m
    ensures |chunks| == n
  {
    var cuts := CumSum(Copies(m, n))[..n - 1];
    seq(n, i requires 0 <= i < n =>
      Table(m, map k | k in t.tensors :: Pieces(t.tensors[k], n, m)[i],
            map k | k in t.objects :: ArraySplit(t.objects[k], cuts)[i]))
  }

  /** `chunk` without automatic padding refuses a size that n does not divide. */
  function Chunk<T>(t: Table<T>, n: nat): Option<seq<Table<T>>>
    requires t.Aligned() && n > 0 && t.size > 0
  {
    if !Divides(n, t.size) then None
    else
      DivisorFactors(t.size, n);
      Some(EqualChunks(t, n, Quotient(t.size, n)))
  }

  function Block(i: nat, m: nat): (idx: seq<nat>) {
    Range(i * m, i * m + m)
  }

  lemma ArraySplitAt<T>(col: Column<T>, n: nat, m: nat, i: nat)
    requires i < n && |col| == n * m
    ensures i * m + m <= |col|
    ensures ArraySplit(col, CumSum(Copies(m, n))[..n - 1])[i] == Part(col, i * m, m)
  {
    var sums := CumSum(Copies(m, n));
    var cuts, lo := sums[..n - 1], i * m;
    ProductStep(i + 1, m);
    ProductIsMonotone(i + 1, n, m);
    if i > 0 {
      CumSumOfCopies(m, n, i - 1);
      assert cuts[i - 1] == sums[i - 1] == lo;
    }
    if i < n - 1 {
      CumSumOfCopies(m, n, i);
      assert cuts[i] == sums[i] == lo + m;
    } else {
      assert |col| == lo + m;
    }
    assert ArraySplit(col, cuts)[i] == ClampedSlice(col, lo, lo + m);
  }

  lemma CumSumOfCopies(m: nat, n: nat, j: nat)
    requires j < n
    ensures CumSum(Copies(m, n))[j] == (j + 1) * m == j * m + m
  {
    assert Copies(m, n)[..j + 1] == Copies(m, j + 1);
    SumOfCopies(m, j + 1);
    ProductStep(j + 1, m);
  }

  /** Tensor pieces and object pieces of chunk i are the same rows. */
  lemma ChunkIsSelect<T>(t: Table<T>, n: nat, m: nat, i: nat)
    requires t.Aligned() && i < n && t.size == n * m
    ensures InRange(Block(i, m), t.size)
    ensures EqualChunks(t, n, m)[i] == Select(t, Block(i, m))
  {
    var c := EqualChunks(t, n, m)[i];
    ProductStep(i + 1, m);
    ProductIsMonotone(i + 1, n, m);
    forall k | k in t.tensors
      ensures c.tensors[k] == Pick(t.tensors[k], Block(i, m))
    {
      PieceAt(t.tensors[k], n, m, i);
    }
    forall k | k in t.objects
      ensures c.objects[k] == Pick(t.objects[k], Block(i, m))
    {
      ArraySplitAt(t.objects[k], n, m, i);
    }
    ColumnsPickTheSameRows(t, c, Block(i, m));
  }

  ghost function Blocks(n: nat, m: nat): (idxs: seq<seq<nat>>)
    ensures |idxs| == n && forall i :: 0 <= i < n ==> idxs[i] == Block(i, m)
  {
    seq(n, i requires 0 <= i => Block(i, m))
  }

  lemma {:induction false} BlocksCover(n: nat, m: nat)
    ensures AllInRange(Blocks(n, m), n * m)
    ensures Concat(Blocks(n, m)) == Range(0, n * m)
  {
    if n > 0 {
      BlocksCover(n - 1, m);
      assert Blocks(n, m) == Blocks(n - 1, m) + [Block(n - 1, m)];
      ConcatSnoc(Blocks(n - 1, m), Block(n - 1, m));
      ProductStep(n, m);
    }
  }

  lemma ChunksAreSelects<T>(t: Table<T>, n: nat, m: nat)
    requires t.Aligned() && n > 0 && t.size == n * m
    ensures AllInRange(Blocks(n, m), t.size)
    ensures EqualChunks(t, n, m) == Selects(t, Blocks(n, m))
  {
    BlocksCover(n, m);
    forall i | 0 <= i < n
      ensures EqualChunks(t, n, m)[i] == Selects(t, Blocks(n, m))[i]
    {
      ChunkIsSelect(t, n, m, i);
    }
  }

  /** Concatenation undoes chunking. */
  lemma ChunksJoinBack<T>(t: Table<T>, n: nat)
    requires t.Aligned() && n > 0 && t.size > 0 && Chunk(t, n).Some?
    ensures ConcatTables(Chunk(t, n).value) == Ok(t)
  {
    DivisorFactors(t.size, n);
    var m := Quotient(t.size, n);
    ChunksAreSelects(t, n, m);
    BlocksCover(n, m);
    ConcatSelects(t, Blocks(n, m));
    SelectAll(t);
  }

  // ---------------------------------------------------------------------------------------------
  // Splits
  // ---------------------------------------------------------------------------------------------

  /** `split`: consecutive slices of `step` rows, the last one cut short by the end. */
  function SplitFrom<T>(t: Table<T>, at: nat, step: nat): seq<Table<T>>
    requires t.Aligned() && step > 0
    decreases t.size - at
  {
    if at >= t.size then []
    else [Slice(t, at, if at + step <= t.size then at + step else t.size)] + SplitFrom(t, at + step, step)
  }

  lemma OneMoreRange(idxs: seq<seq<nat>>, lo: nat, mid: nat, hi: nat)
    requires lo <= mid <= hi && idxs != [] && idxs[0] == Range(lo, mid) && Concat(idxs[1..]) == Range(mid, hi)
    ensures Concat(idxs) == Range(lo, hi)
  {
  }

  lemma {:induction false} SplitIsSelects<T>(t: Table<T>, at: nat, step: nat) returns (idxs: seq<seq<nat>>)
    requires t.Aligned() && step > 0 && at <= t.size
    ensures AllInRange(idxs, t.size) && SplitFrom(t, at, step) == Selects(t, idxs)
    ensures Concat(idxs) == Range(at, t.size) && (at < t.size ==> idxs != [])
    ensures forall i :: 0 <= i < |idxs| ==> 0 < |idxs[i]| <= step && (i < |idxs| - 1 ==> |idxs[i]| == step)
    decreases t.size - at
  {
    if at >= t.size {
      idxs := [];
    } else {
      var end := if at + step <= t.size then at + step else t.size;
      SliceIsSelect(t, at, end);
      var rest: seq<seq<nat>> := [];
      if end < t.size {
        rest := SplitIsSelects(t, end, step);
      }
      idxs := [Range(at, end)] + rest;
      assert SplitFrom(t, at, step) == [Slice(t, at, end)] + Selects(t, rest);
      OneMoreRange(idxs, at, end, t.size);
    }
  }

  /** Splits are full except perhaps the last, never empty, and concatenate back. */
  lemma SplitsJoinBack<T>(t: Table<T>, step: nat)
    requires t.Aligned() && step > 0 && t.size > 0
    ensures ConcatTables(SplitFrom(t, 0, step)) == Ok(t)
    ensures forall i :: 0 <= i < |SplitFrom(t, 0, step)| ==>
        var s := SplitFrom(t, 0, step)[i].size;
        0 < s <= step && (i < |SplitFrom(t, 0, step)| - 1 ==> s == step)
  {
    var idxs := SplitIsSelects(t, 0, step);
    ConcatSelects(t, idxs);
    SelectAll(t);
  }

  // ---------------------------------------------------------------------------------------------
  // Workers
  // ---------------------------------------------------------------------------------------------

  /** A worker that computes each output row from the same input row. */
  datatype Worker<!T, !U> = Worker(tensorKeys: set<string>, objectKeys: set<string>,
                                   tensorRow: (string, Record<T>) -> U, objectRow: (string, Record<T>) -> U)

  function Apply<T, U>(w: Worker<T, U>, t: Table<T>): (r: Table<U>)
    requires t.Aligned()
    ensures r.Aligned() && r.size == t.size
  {
    Table(t.size, map k | k in w.tensorKeys :: seq(t.size, i requires 0 <= i < t.size => w.tensorRow(k, Row(t, i))),
          map k | k in w.objectKeys :: seq(t.size, i requires 0 <= i < t.size => w.objectRow(k, Row(t, i))))
  }

  lemma ApplySelect<T, U>(w: Worker<T, U>, t: Table<T>, idx: seq<nat>)
    requires t.Aligned() && InRange(idx, t.size)
    ensures Apply(w, Select(t, idx)) == Select(Apply(w, t), idx)
  {
    var r := Apply(w, Select(t, idx));
    forall i | 0 <= i < |idx|
      ensures idx[i] < t.size && Row(Select(t, idx), i) == Row(t, idx[i])
    {
      SelectedRow(t, idx, i);
    }
    ColumnsPickTheSameRows(Apply(w, t), r, idx);
  }

  /** The call each worker makes on its chunk. */
  function ApplyEach<T, U>(w: Worker<T, U>, chunks: seq<Table<T>>): (outputs: seq<Table<U>>)
    requires AllAligned(chunks)
    ensures |outputs| == |chunks|
    ensures forall i :: 0 <= i < |chunks| ==> chunks[i].Aligned() && outputs[i] == Apply(w, chunks[i])
  {
    assert forall i :: 0 <= i < |chunks| ==> chunks[i] in chunks;
    seq(|chunks|, i requires 0 <= i < |chunks| => Apply(w, chunks[i]))
  }

  /** The outputs on the n chunks of a batch are the n chunks of the output on the batch. */
  lemma WorkersCommuteWithChunks<T, U>(w: Worker<T, U>, t: Table<T>, n: nat)
    requires t.Aligned() && n > 0 && t.size > 0 && Divides(n, t.size)
    ensures AllAligned(Chunk(t, n).value)
    ensures ApplyEach(w, Chunk(t, n).value) == Chunk(Apply(w, t), n).value
  {
    DivisorFactors(t.size, n);
    var m := Quotient(t.size, n);
    ChunksAreSelects(t, n, m);
    ChunksAreSelects(Apply(w, t), n, m);
    forall i | 0 <= i < n
      ensures Select(t, Block(i, m)).Aligned() && Apply(w, Select(t, Block(i, m))) == Select(Apply(w, t), Block(i, m))
    {
      ChunkIsSelect(t, n, m, i);
      ApplySelect(w, t, Block(i, m));
    }
  }

  lemma UnpadIsPrefix<T>(t: Table<T>, pad: nat)
    requires t.Aligned() && pad <= t.size
    ensures InRange(Range(0, t.size - pad), t.size) && Unpad(t, pad) == Select(t, Range(0, t.size - pad))
  {
    if pad == 0 {
      SelectAll(t);
    } else {
      SliceIsPrefix(t, 0 - pad);
      SliceIsSelect(t, 0, t.size - pad);
    }
  }

  /** The outputs on the batch's own rows stand before those on the rows appended to it. */
  lemma OwnRowsFirst<T, U>(w: Worker<T, U>, t: Table<T>, idx: seq<nat>)
    requires t.Aligned() && InRange(idx, t.size) && t.size <= |idx| && idx[..t.size] == Range(0, t.size)
    ensures InRange(Range(0, t.size), |idx|)
    ensures Select(Apply(w, Select(t, idx)), Range(0, t.size)) == Apply(w, t)
  {
    ApplySelect(w, t, idx);
    SelectTwice(Apply(w, t), idx, Range(0, t.size));
    assert Pick(idx, Range(0, t.size)) == Range(0, t.size);
    SelectAll(Apply(w, t));
  }

  /** Rows appended after the batch's own rows, whatever they are, do not show in the unpadded result. */
  lemma PaddingIsInvisible<T, U>(w: Worker<T, U>, t: Table<T>, idx: seq<nat>, n: nat)
    requires t.Aligned() && n > 0 && t.size > 0 && InRange(idx, t.size)
    requires Divides(n, |idx|) && t.size <= |idx| && idx[..t.size] == Range(0, t.size)
    ensures ConcatTables(Chunk(Apply(w, Select(t, idx)), n).value) == Ok(Apply(w, Select(t, idx)))
    ensures Unpad(Apply(w, Select(t, idx)), |idx| - t.size) == Apply(w, t)
  {
    var r := Apply(w, Select(t, idx));
    ChunksJoinBack(r, n);
    UnpadIsPrefix(r, |idx| - t.size);
    OwnRowsFirst(w, t, idx);
  }

  /** The n workers' outputs, computed chunk by chunk. */
  method RunWorkers<T, U>(w: Worker<T, U>, chunks: seq<Table<T>>) returns (outputs: seq<Table<U>>)
    requires AllAligned(chunks)
    ensures outputs == ApplyEach(w, chunks)
  {
    outputs := [];
    for i := 0 to |chunks|
      invariant |outputs| == i && forall j :: 0 <= j < i ==> outputs[j] == ApplyEach(w, chunks)[j]
    {
      assert chunks[i] in chunks;
      outputs := outputs + [Apply(w, chunks[i])];
    }
  }

  /** Dispatch is transparent: n workers on padded chunks compute what one worker computes on the whole batch. */
  method CallOnWorkers<T, U>(w: Worker<T, U>, t: Table<T>, n: nat) returns (r: Result<Table<U>, ConcatError>)
    requires t.Aligned() && n > 0 && t.size > 0
    ensures r == Ok(Apply(w, t))
  {
    var padded, pad := PadToDivisor(t, n);
    WorkersCommuteWithChunks(w, padded, n);
    var outputs := RunWorkers(w, Chunk(padded, n).value);
    var whole := ConcatAll(outputs);
    WrapPrefix(t.size, t.size + pad);
    PaddingIsInvisible(w, t, Wrap(t.size, t.size + pad), n);
    r := Ok(Unpad(whole.value, pad));
  }

  lemma WrapPrefix(len: nat, total: nat)
    requires 0 < len <= total
    ensures Wrap(len, total)[..len] == Range(0, len)
  {
    forall i | 0 <= i < len
      ensures Wrap(len, total)[i] == i
    {
      RemainderOfSmall(i, len);
    }
  }

  // ---------------------------------------------------------------------------------------------
  // Automatic padding
  // ---------------------------------------------------------------------------------------------

  function CandidateRow(size: nat, first: bool): (idx: seq<nat>)
    requires size > 0
    ensures InRange(idx, size)
  {
    [if first then 0 else size - 1]
  }

  /** `padding`: append copies of the first or the last row; a batch without rows has none to copy. */
  ghost function Padding<T>(t: Table<T>, count: nat, first: bool): Option<Table<T>>
    requires t.Aligned()
  {
    if count == 0 then Some(t)
    else if t.size == 0 then None
    else
      var part := Repeat(Select(t, CandidateRow(t.size, first)), count, true);
      var padded := ConcatTables([t, part]);
      if padded.Ok? then Some(padded.value) else None
  }

  lemma {:induction false} RepeatOneRow(count: nat)
    ensures RepeatRows(Range(0, 1), Copies(count, 1)) == Copies(0, count)
  {
    assert Range(0, 1)[1..] == [] && Copies(count, 1)[1..] == [];
    assert RepeatRows(Range(0, 1)[1..], Copies(count, 1)[1..]) == [];
  }

  lemma RepeatedCandidate<T>(t: Table<T>, count: nat, first: bool)
    requires t.Aligned() && t.size > 0
    ensures var idx := Copies(CandidateRow(t.size, first)[0], count);
            InRange(idx, t.size) && Repeat(Select(t, CandidateRow(t.size, first)), count, true) == Select(t, idx)
  {
    var idx := CandidateRow(t.size, first);
    var candidate := Select(t, idx);
    RepeatIsSelect(candidate, count, true);
    RepeatOneRow(count);
    var rows := RepeatRows(Range(0, candidate.size), Copies(count, candidate.size));
    assert rows == Copies(0, count);
    SelectTwice(t, idx, rows);
    assert Pick(idx, rows) == Copies(idx[0], count);
  }

  lemma ConcatTwoSelects<T>(t: Table<T>, idx1: seq<nat>, idx2: seq<nat>)
    requires t.Aligned() && InRange(idx1, t.size) && InRange(idx2, t.size)
    ensures InRange(idx1 + idx2, t.size)
    ensures ConcatTables([Select(t, idx1), Select(t, idx2)]) == Ok(Select(t, idx1 + idx2))
  {
    assert Concat([idx1, idx2][1..]) == idx2;
    ConcatSelects(t, [idx1, idx2]);
    assert Selects(t, [idx1, idx2]) == [Select(t, idx1), Select(t, idx2)];
  }

  function PaddedRows(size: nat, count: nat, first: bool): (idx: seq<nat>)
    requires size > 0
    ensures InRange(idx, size) && |idx| == size + count
    ensures idx[..size] == Range(0, size)
    ensures forall i :: size <= i < |idx| ==> idx[i] == if first then 0 else size - 1
  {
    Range(0, size) + Copies(CandidateRow(size, first)[0], count)
  }

  lemma PaddingIsSelect<T>(t: Table<T>, count: nat, first: bool)
    requires t.Aligned() && t.size > 0
    ensures Padding(t, count, first) == Some(Select(t, PaddedRows(t.size, count, first)))
  {
    SelectAll(t);
    if count == 0 {
      assert PaddedRows(t.size, count, first) == Range(0, t.size);
    } else {
      RepeatedCandidate(t, count, first);
      ConcatTwoSelects(t, Range(0, t.size), Copies(CandidateRow(t.size, first)[0], count));
    }
  }

  /** The automatic form pads by the last row, and drops the padding by selecting the first rows. On a batch it has not
      padded before it is transparent too. */
  lemma AutoPaddingIsTransparent<T, U>(w: Worker<T, U>, t: Table<T>, n: nat)
    requires t.Aligned() && n > 0 && t.size > 0
    ensures var pad := PadSize(t.size, n);
            && Padding(t, pad, false).Some?
            && var padded := Padding(t, pad, false).value;
            && padded.Aligned() && padded.size == t.size + pad && Chunk(padded, n).Some?
            && AllAligned(Chunk(padded, n).value)
            && var whole := ConcatTables(ApplyEach(w, Chunk(padded, n).value));
            && whole.Ok? && whole.value.Aligned() && whole.value.size == t.size + pad
            && InRange(Range(0, t.size), whole.value.size)
            && Select(whole.value, Range(0, t.size)) == Apply(w, t)
  {
    var pad := PadSize(t.size, n);
    PadReachesDivisor(t.size, n);
    var idx := PaddedRows(t.size, pad, false);
    PaddingIsSelect(t, pad, false);
    WorkersCommuteWithChunks(w, Select(t, idx), n);
    PaddingIsInvisible(w, t, idx, n);
    OwnRowsFirst(w, t, idx);
  }

  /** What the automatic form leaves of its argument: it pads in place and does not undo it. */
  function AutoPadded<T>(t: Table<T>, n: nat): (padded: Table<T>)
    requires t.Aligned() && n > 0 && t.size > 0
    ensures padded.Aligned() && padded.size == t.size + PadSize(t.size, n)
  {
    Select(t, PaddedRows(t.size, PadSize(t.size, n), false))
  }

  /** So a second call finds nothing to pad and drops nothing: it computes the outputs of the pad rows too, and returns what
      the first call did if and only if n divides the batch's own size. */
  lemma SecondCallIsTransparentIff<T, U>(w: Worker<T, U>, t: Table<T>, n: nat)
    requires t.Aligned() && n > 0 && t.size > 0
    ensures AutoPadded(AutoPadded(t, n), n) == AutoPadded(t, n)
    ensures Apply(w, AutoPadded(t, n)) == Apply(w, t) <==> Divides(n, t.size)
  {
    PadReachesDivisor(t.size, n);
    SelectAll(AutoPadded(t, n));
    assert PaddedRows(AutoPadded(t, n).size, 0, false) == Range(0, AutoPadded(t, n).size);
    if Divides(n, t.size) {
      assert PaddedRows(t.size, 0, false) == Range(0, t.size);
      SelectAll(t);
    }
  }

  // ---------------------------------------------------------------------------------------------
  // Futures
  // ---------------------------------------------------------------------------------------------

  /** The outputs of the workers of one call, and which of how many chunks of the joined output is meant, if any. */
  datatype Future<T> = Future(outputs: seq<Table<T>>, chunk: Option<(nat, nat)>)

  function ChunkFuture<T>(f: Future<T>, n: nat): seq<Future<T>> {
    seq(n, i requires 0 <= i => f.(chunk := Some((i, n))))
  }

  method Get<T>(f: Future<T>) returns (r: Option<Table<T>>)
    requires AllAligned(f.outputs)
    requires f.chunk.Some? ==> f.chunk.value.0 < f.chunk.value.1
    ensures r == Fetched(f)
  {
    var whole := ConcatAll(f.outputs);
    ConcatOkIff(f.outputs);
    match whole
    case Err(_) => r := None;
    case Ok(t) =>
      match f.chunk
      case None => r := Some(t);
      case Some((i, n)) =>
        if t.size == 0 || !Divides(n, t.size) {
          r := None;
        } else {
          r := Some(Chunk(t, n).value[i]);
        }
  }

  ghost function Fetched<T>(f: Future<T>): Option<Table<T>>
    requires AllAligned(f.outputs)
    requires f.chunk.Some? ==> f.chunk.value.0 < f.chunk.value.1
  {
    ConcatOkIff(f.outputs);
    match ConcatTables(f.outputs)
    case Err(_) => None
    case Ok(t) =>
      match f.chunk
      case None => Some(t)
      case Some((i, n)) =>
        if t.size == 0 || !Divides(n, t.size) then None else Some(Chunk(t, n).value[i])
  }

  /** The rows of the joined outputs that a future means. */
  function FetchedRows<T>(f: Future<T>): (rows: (nat, nat))
    requires f.chunk.Some? ==> f.chunk.value.0 < f.chunk.value.1
  {
    match f.chunk
    case None => (0, TotalSize(f.outputs))
    case Some((i, n)) => var m := Quotient(TotalSize(f.outputs), n); (i * m, m)
  }

  lemma ChunkRows<T>(t: Table<T>, n: nat, i: nat, first: nat, count: nat)
    requires t.Aligned() && i < n && t.size > 0 && Divides(n, t.size) && count == Quotient(t.size, n) && first == i * count
    ensures first + count <= t.size && InRange(Range(first, first + count), t.size)
    ensures Chunk(t, n).value[i] == Select(t, Range(first, first + count))
  {
    DivisorFactors(t.size, n);
    ChunkIsSelect(t, n, count, i);
    ProductStep(i + 1, count);
    ProductIsMonotone(i + 1, n, count);
  }

  lemma FetchedIsSelect<T>(f: Future<T>, whole: Table<T>, first: nat, count: nat)
    requires AllAligned(f.outputs) && ConcatTables(f.outputs) == Ok(whole)
    requires f.chunk.Some? ==> f.chunk.value.0 < f.chunk.value.1
    requires Fetched(f).Some? && FetchedRows(f) == (first, count)
    ensures whole.Aligned() && whole.size == TotalSize(f.outputs)
    ensures first + count <= whole.size && InRange(Range(first, first + count), whole.size)
    ensures Fetched(f) == Some(Select(whole, Range(first, first + count)))
  {
    ConcatOkIff(f.outputs);
    match f.chunk
    case None => SelectAll(whole);
    case Some((i, n)) => ChunkRows(whole, n, i, first, count);
  }

  /** Fetching succeeds exactly when the outputs agree on their columns and, for a chunk, have rows that n divides. */
  lemma FetchedIff<T>(f: Future<T>)
    requires AllAligned(f.outputs)
    requires f.chunk.Some? ==> f.chunk.value.0 < f.chunk.value.1
    ensures var total := TotalSize(f.outputs);
            Fetched(f).Some? <==> PartsAgree(f.outputs) && (f.chunk.Some? ==> total > 0 && Divides(f.chunk.value.1, total))
  {
    ConcatOkIff(f.outputs);
  }

  /** What is fetched has the rows of a chunk, or all rows; and row k of output p is in it, whole, where all rows in order
      put it, counted from the first row of the chunk. */
  lemma FetchedRow<T>(f: Future<T>, p: nat, k: nat, first: nat, count: nat, at: nat)
    requires AllAligned(f.outputs) && p < |f.outputs| && f.outputs[p].Aligned() && k < f.outputs[p].size
    requires f.chunk.Some? ==> f.chunk.value.0 < f.chunk.value.1
    requires Fetched(f).Some? && FetchedRows(f) == (first, count) && at == TotalSize(f.outputs[..p]) + k
    ensures Fetched(f).value.size == count
    ensures first <= at < first + count ==> RowIs(Fetched(f).value, at - first, Row(f.outputs[p], k))
  {
    var whole, r := ConcatTables(f.outputs).value, Row(f.outputs[p], k);
    assert RowIs(whole, at, r) by { ConcatenatedRow(f.outputs, p, k); }
    FetchedRowOfWhole(f, whole, first, count, at, r);
  }

  lemma FetchedRowOfWhole<T>(f: Future<T>, whole: Table<T>, first: nat, count: nat, at: nat, r: Record<T>)
    requires AllAligned(f.outputs) && ConcatTables(f.outputs) == Ok(whole) && RowIs(whole, at, r)
    requires f.chunk.Some? ==> f.chunk.value.0 < f.chunk.value.1
    requires Fetched(f).Some? && FetchedRows(f) == (first, count)
    ensures Fetched(f).value.size == count
    ensures first <= at < first + count ==> RowIs(Fetched(f).value, at - first, r)
  {
    FetchedIsSelect(f, whole, first, count);
    RowOfRange(whole, Fetched(f).value, first, count, at);
  }

  lemma RowOfRange<T>(whole: Table<T>, t: Table<T>, first: nat, count: nat, at: nat)
    requires whole.Aligned() && first + count <= whole.size && InRange(Range(first, first + count), whole.size)
    requires t == Select(whole, Range(first, first + count)) && at < whole.size
    ensures first <= at < first + count ==> RowIs(t, at - first, Row(whole, at))
  {
    if first <= at < first + count {
      RowInRange(whole, first, count, at);
    }
  }

  /** A call whose argument is the future of an earlier call sees what it would see had the driver gathered the result and
      chunked it: each of the n workers gets its own chunk, and the chunks together are the first call's whole result. */
  lemma FuturesChainCalls<T, U>(w: Worker<T, U>, t: Table<T>, n1: nat, n2: nat)
    requires t.Aligned() && t.size > 0 && n1 > 0 && n2 > 0 && Divides(n1, t.size) && Divides(n2, t.size)
    ensures AllAligned(Chunk(t, n1).value)
    ensures var f := Future(ApplyEach(w, Chunk(t, n1).value), None);
            && AllAligned(f.outputs)
            && Fetched(f) == Some(Apply(w, t))
            && (forall i :: 0 <= i < n2 ==> Fetched(ChunkFuture(f, n2)[i]) == Some(Chunk(Apply(w, t), n2).value[i]))
            && (n1 == n2 ==> forall i :: 0 <= i < n2 ==> Fetched(ChunkFuture(f, n2)[i]) == Some(f.outputs[i]))
  {
    WorkersCommuteWithChunks(w, t, n1);
    ChunksJoinBack(Apply(w, t), n1);
  }
}
