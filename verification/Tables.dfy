/** A batch as a table: tensor columns and object columns over the same rows, and the index calculus that describes every
    row operation. */
module Tables {
  import opened Options
  import opened Arithmetic
  import opened Sequences

  type Column<T> = seq<T>

  datatype Table<T> = Table(size: nat, tensors: map<string, Column<T>>, objects: map<string, Column<T>>) {

    /** The consistency check of the constructor: every column has one entry per row. */
    ghost predicate Aligned() {
      && (forall k | k in tensors :: |tensors[k]| == size)
      && (forall k | k in objects :: |objects[k]| == size)
    }
  }

  datatype Record<T> = Record(tensors: map<string, T>, objects: map<string, T>)

  function Row<T>(t: Table<T>, i: nat): Record<T>
    requires t.Aligned() && i < t.size
  {
    Record(map k | k in t.tensors :: t.tensors[k][i], map k | k in t.objects :: t.objects[k][i])
  }

  ghost predicate RowIs<T>(t: Table<T>, i: int, r: Record<T>) {
    0 <= i < t.size && t.Aligned() && Row(t, i) == r
  }

  lemma SameRow<T>(t: Table<T>, i: nat, u: Table<T>, j: nat)
    requires t.Aligned() && u.Aligned() && i < t.size && j < u.size
    requires t.tensors.Keys == u.tensors.Keys && t.objects.Keys == u.objects.Keys
    requires forall k | k in t.tensors :: t.tensors[k][i] == u.tensors[k][j]
    requires forall k | k in t.objects :: t.objects[k][i] == u.objects[k][j]
    ensures Row(t, i) == Row(u, j)
  {
    assert Row(t, i).tensors == Row(u, j).tensors && Row(t, i).objects == Row(u, j).objects;
  }

  // ---------------------------------------------------------------------------------------------
  // Selecting rows by index
  // ---------------------------------------------------------------------------------------------

  ghost predicate InRange(idx: seq<nat>, n: nat) {
    forall i | i in idx :: i < n
  }

  function Pick<T>(col: Column<T>, idx: seq<nat>): (picked: Column<T>)
    requires InRange(idx, |col|)
    ensures |picked| == |idx|
    ensures forall i :: 0 <= i < |idx| ==> idx[i] < |col| && picked[i] == col[idx[i]]
  {
    assert forall i :: 0 <= i < |idx| ==> idx[i] in idx;
    seq(|idx|, i requires 0 <= i < |idx| => col[idx[i]])
  }

  /** `select_idxs`: the rows idx[0], idx[1], ... of every column. */
  function Select<T>(t: Table<T>, idx: seq<nat>): (r: Table<T>)
    requires t.Aligned() && InRange(idx, t.size)
    ensures r.Aligned() && r.size == |idx|
  {
    Table(|idx|, map k | k in t.tensors :: Pick(t.tensors[k], idx), map k | k in t.objects :: Pick(t.objects[k], idx))
  }

  lemma SelectedRow<T>(t: Table<T>, idx: seq<nat>, i: nat)
    requires t.Aligned() && InRange(idx, t.size) && i < |idx|
    ensures idx[i] < t.size && Row(Select(t, idx), i) == Row(t, idx[i])
  {
    assert idx[i] in idx;
  }

  function Range(lo: nat, hi: nat): (idx: seq<nat>)
    requires lo <= hi
    ensures |idx| == hi - lo
    ensures forall i :: 0 <= i < |idx| ==> idx[i] == lo + i
  {
    seq(hi - lo, i => lo + i)
  }

  /** In a selection of consecutive rows. */
  lemma RowInRange<T>(t: Table<T>, first: nat, count: nat, at: nat)
    requires t.Aligned() && first + count <= t.size && first <= at < first + count
    ensures InRange(Range(first, first + count), t.size)
    ensures Row(Select(t, Range(first, first + count)), at - first) == Row(t, at)
  {
    SelectedRow(t, Range(first, first + count), at - first);
  }

  /** A table whose every column, whichever library computed it, picks the same rows is a selection. */
  lemma ColumnsPickTheSameRows<T>(t: Table<T>, r: Table<T>, idx: seq<nat>)
    requires t.Aligned() && InRange(idx, t.size) && r.size == |idx|
    requires r.tensors.Keys == t.tensors.Keys && r.objects.Keys == t.objects.Keys
    requires forall k | k in t.tensors :: r.tensors[k] == Pick(t.tensors[k], idx)
    requires forall k | k in t.objects :: r.objects[k] == Pick(t.objects[k], idx)
    ensures r == Select(t, idx)
  {
    var s := Select(t, idx);
    assert r.tensors == s.tensors && r.objects == s.objects;
  }

  lemma PickTwice<T>(col: Column<T>, idx: seq<nat>, sub: seq<nat>)
    requires InRange(idx, |col|) && InRange(sub, |idx|)
    ensures InRange(Pick(idx, sub), |col|)
    ensures Pick(Pick(col, idx), sub) == Pick(col, Pick(idx, sub))
  {
    var picked := Pick(idx, sub);
    forall i | i in picked
      ensures i < |col|
    {
      var j :| 0 <= j < |picked| && picked[j] == i;
      assert sub[j] in sub && idx[sub[j]] in idx;
    }
  }

  lemma SelectTwice<T>(t: Table<T>, idx: seq<nat>, sub: seq<nat>)
    requires t.Aligned() && InRange(idx, t.size) && InRange(sub, |idx|)
    ensures InRange(Pick(idx, sub), t.size)
    ensures Select(Select(t, idx), sub) == Select(t, Pick(idx, sub))
  {
    var r := Select(Select(t, idx), sub);
    PickTwice(Range(0, t.size), idx, sub);
    forall k | k in t.tensors
      ensures r.tensors[k] == Pick(t.tensors[k], Pick(idx, sub))
    {
      PickTwice(t.tensors[k], idx, sub);
    }
    forall k | k in t.objects
      ensures r.objects[k] == Pick(t.objects[k], Pick(idx, sub))
    {
      PickTwice(t.objects[k], idx, sub);
    }
    ColumnsPickTheSameRows(t, r, Pick(idx, sub));
  }

  lemma SelectAll<T>(t: Table<T>)
    requires t.Aligned()
    ensures InRange(Range(0, t.size), t.size) && Select(t, Range(0, t.size)) == t
  {
    ColumnsPickTheSameRows(t, t, Range(0, t.size));
  }

  // ---------------------------------------------------------------------------------------------
  // Slices, repeats and tiles, as each library computes them
  // ---------------------------------------------------------------------------------------------

  function Slice<T>(t: Table<T>, lo: nat, hi: nat): Table<T>
    requires t.Aligned() && lo <= hi <= t.size
  {
    Table(hi - lo, map k | k in t.tensors :: t.tensors[k][lo..hi], map k | k in t.objects :: t.objects[k][lo..hi])
  }

  lemma SliceIsSelect<T>(t: Table<T>, lo: nat, hi: nat)
    requires t.Aligned() && lo <= hi <= t.size
    ensures InRange(Range(lo, hi), t.size)
    ensures Slice(t, lo, hi) == Select(t, Range(lo, hi))
  {
    ColumnsPickTheSameRows(t, Slice(t, lo, hi), Range(lo, hi));
  }

  /** Where a slice bound falls in n rows: a negative one counts from the end, and none leaves the range. */
  function SliceBound(i: int, n: nat): (bound: nat)
    ensures bound <= n
  {
    if i < 0 then (if i + n < 0 then 0 else i + n) else if i <= n then i else n
  }

  /** Every `step`-th entry from lo on, before hi. */
  function Strided<T>(col: Column<T>, lo: nat, hi: nat, step: nat): Column<T>
    requires hi <= |col| && step > 0
    decreases hi - lo
  {
    if lo >= hi then [] else [col[lo]] + Strided(col, lo + step, hi, step)
  }

  lemma {:induction false} StridedIsPick<T>(col: Column<T>, lo: nat, hi: nat, step: nat)
    requires hi <= |col| && step > 0
    ensures var rows := Strided(Range(0, |col|), lo, hi, step);
            InRange(rows, |col|) && Strided(col, lo, hi, step) == Pick(col, rows)
    decreases hi - lo
  {
    if lo < hi {
      StridedIsPick(col, lo + step, hi, step);
    }
  }

  lemma {:induction false} StrideOne<T>(col: Column<T>, lo: nat, hi: nat)
    requires lo <= hi <= |col|
    ensures Strided(col, lo, hi, 1) == col[lo..hi]
    decreases hi - lo
  {
    if lo < hi {
      StrideOne(col, lo + 1, hi);
    }
  }

  /** Row i of a strided slice is row lo + i * step, and the rows are all those before hi. */
  lemma {:induction false} StridedAt<T>(col: Column<T>, lo: nat, hi: nat, step: nat, i: nat)
    requires hi <= |col| && step > 0
    ensures i < |Strided(col, lo, hi, step)| <==> lo + i * step < hi
    ensures i < |Strided(col, lo, hi, step)| ==> Strided(col, lo, hi, step)[i] == col[lo + i * step]
    decreases hi - lo
  {
    if lo < hi && i > 0 {
      ProductStep(i, step);
      StridedAt(col, lo + step, hi, step, i - 1);
    }
  }

  /** `slice` in full: both bounds and the step may be missing, the bounds may be negative, and tensors refuse a step that is
      not positive. */
  function SliceAny<T>(t: Table<T>, start: Option<int>, end: Option<int>, step: Option<int>): Option<Table<T>>
    requires t.Aligned()
  {
    var stride := if step.Some? then step.value else 1;
    if stride <= 0 then None
    else
      var lo := if start.Some? then SliceBound(start.value, t.size) else 0;
      var hi := if end.Some? then SliceBound(end.value, t.size) else t.size;
      Some(Table(|Strided(Range(0, t.size), lo, hi, stride)|, map k | k in t.tensors :: Strided(t.tensors[k], lo, hi, stride),
                 map k | k in t.objects :: Strided(t.objects[k], lo, hi, stride)))
  }

  function SliceAnyRows(size: nat, start: Option<int>, end: Option<int>, step: Option<int>): seq<nat> {
    var stride := if step.Some? then step.value else 1;
    if stride <= 0 then []
    else Strided(Range(0, size), if start.Some? then SliceBound(start.value, size) else 0,
                 if end.Some? then SliceBound(end.value, size) else size, stride)
  }

  /** Any slice takes the same rows of every column. */
  lemma SliceAnyIsSelect<T>(t: Table<T>, start: Option<int>, end: Option<int>, step: Option<int>)
    requires t.Aligned() && SliceAny(t, start, end, step).Some?
    ensures InRange(SliceAnyRows(t.size, start, end, step), t.size)
    ensures SliceAny(t, start, end, step) == Some(Select(t, SliceAnyRows(t.size, start, end, step)))
  {
    var stride := if step.Some? then step.value else 1;
    var lo := if start.Some? then SliceBound(start.value, t.size) else 0;
    var hi := if end.Some? then SliceBound(end.value, t.size) else t.size;
    var rows := Strided(Range(0, t.size), lo, hi, stride);
    StridedIsPick(Range(0, t.size), lo, hi, stride);
    forall k | k in t.tensors
      ensures Strided(t.tensors[k], lo, hi, stride) == Pick(t.tensors[k], rows)
    {
      StridedIsPick(t.tensors[k], lo, hi, stride);
    }
    forall k | k in t.objects
      ensures Strided(t.objects[k], lo, hi, stride) == Pick(t.objects[k], rows)
    {
      StridedIsPick(t.objects[k], lo, hi, stride);
    }
    ColumnsPickTheSameRows(t, SliceAny(t, start, end, step).value, rows);
  }

  /** Up to an end bound, with step one, a slice is a prefix. */
  lemma SliceIsPrefix<T>(t: Table<T>, end: int)
    requires t.Aligned()
    ensures SliceAny(t, None, Some(end), None) == Some(Slice(t, 0, SliceBound(end, t.size)))
  {
    var lo, hi := 0, SliceBound(end, t.size);
    StrideOne(Range(0, t.size), lo, hi);
    forall k | k in t.tensors
      ensures Strided(t.tensors[k], lo, hi, 1) == t.tensors[k][lo..hi]
    {
      StrideOne(t.tensors[k], lo, hi);
    }
    forall k | k in t.objects
      ensures Strided(t.objects[k], lo, hi, 1) == t.objects[k][lo..hi]
    {
      StrideOne(t.objects[k], lo, hi);
    }
    var r := SliceAny(t, None, Some(end), None).value;
    assert r.tensors == Slice(t, lo, hi).tensors && r.objects == Slice(t, lo, hi).objects;
  }

  /** `repeat_interleave` / `np.repeat` with one count per row. */
  function RepeatRows<T>(col: Column<T>, times: seq<nat>): Column<T>
    requires |times| == |col|
  {
    if col == [] then [] else Copies(col[0], times[0]) + RepeatRows(col[1..], times[1..])
  }

  function Sum(times: seq<nat>): nat {
    if times == [] then 0 else times[0] + Sum(times[1..])
  }

  /** Row i of the input fills the rows from the sum of the counts before it. */
  lemma {:induction false} RepeatedRowAt<T>(col: Column<T>, times: seq<nat>, i: nat, j: nat)
    requires |times| == |col| && i < |col| && j < times[i]
    ensures |RepeatRows(col, times)| == Sum(times)
    ensures Sum(times[..i]) + j < Sum(times)
    ensures RepeatRows(col, times)[Sum(times[..i]) + j] == col[i]
  {
    RepeatedLength(col, times);
    if i == 0 {
      assert times[..0] == [];
    } else {
      RepeatedLength(col[1..], times[1..]);
      RepeatedRowAt(col[1..], times[1..], i - 1, j);
      assert times[..i] == [times[0]] + times[1..][..i - 1];
      assert times[..i][1..] == times[1..][..i - 1];
    }
  }

  lemma {:induction false} RepeatedLength<T>(col: Column<T>, times: seq<nat>)
    requires |times| == |col|
    ensures |RepeatRows(col, times)| == Sum(times)
  {
    if col != [] {
      RepeatedLength(col[1..], times[1..]);
    }
  }

  /** Repeating rows is picking by the repeated row numbers. */
  lemma {:induction false} RepeatIsPick<T>(col: Column<T>, rows: seq<nat>, times: seq<nat>)
    requires |times| == |rows| && InRange(rows, |col|)
    ensures InRange(RepeatRows(rows, times), |col|)
    ensures RepeatRows(Pick(col, rows), times) == Pick(col, RepeatRows(rows, times))
  {
    if rows != [] {
      assert rows[0] in rows && forall i | i in rows[1..] :: i in rows;
      RepeatIsPick(col, rows[1..], times[1..]);
      assert Pick(col, rows)[1..] == Pick(col, rows[1..]);
      assert Pick(col, Copies(rows[0], times[0])) == Copies(col[rows[0]], times[0]);
      PickAppend(col, Copies(rows[0], times[0]), RepeatRows(rows[1..], times[1..]));
    }
  }

  lemma PickAppend<T>(col: Column<T>, idx1: seq<nat>, idx2: seq<nat>)
    requires InRange(idx1, |col|) && InRange(idx2, |col|)
    ensures InRange(idx1 + idx2, |col|)
    ensures Pick(col, idx1 + idx2) == Pick(col, idx1) + Pick(col, idx2)
  {
  }

  function SampleLevelRepeat<T>(t: Table<T>, times: seq<nat>): Table<T>
    requires t.Aligned() && |times| == t.size
  {
    Table(Sum(times), map k | k in t.tensors :: RepeatRows(t.tensors[k], times),
          map k | k in t.objects :: RepeatRows(t.objects[k], times))
  }

  lemma SampleLevelRepeatIsSelect<T>(t: Table<T>, times: seq<nat>)
    requires t.Aligned() && |times| == t.size
    ensures InRange(RepeatRows(Range(0, t.size), times), t.size)
    ensures SampleLevelRepeat(t, times) == Select(t, RepeatRows(Range(0, t.size), times))
  {
    var rows := Range(0, t.size);
    RepeatedLength(rows, times);
    RepeatIsPick(rows, rows, times);
    forall k | k in t.tensors
      ensures RepeatRows(t.tensors[k], times) == Pick(t.tensors[k], RepeatRows(rows, times))
    {
      assert Pick(t.tensors[k], rows) == t.tensors[k];
      RepeatIsPick(t.tensors[k], rows, times);
    }
    forall k | k in t.objects
      ensures RepeatRows(t.objects[k], times) == Pick(t.objects[k], RepeatRows(rows, times))
    {
      assert Pick(t.objects[k], rows) == t.objects[k];
      RepeatIsPick(t.objects[k], rows, times);
    }
    ColumnsPickTheSameRows(t, SampleLevelRepeat(t, times), RepeatRows(rows, times));
  }

  /** The tiling of tensors: stack `times` copies and flatten. */
  function TileTensor<T>(col: Column<T>, times: nat): Column<T> {
    if times == 0 then [] else col + TileTensor(col, times - 1)
  }

  /** The tiling of arrays: entry i is entry i mod the length. */
  function TileArray<T>(col: Column<T>, times: nat): (tiled: Column<T>)
    ensures |tiled| == Product(|col|, times)
  {
    if |col| == 0 then []
    else seq(Product(|col|, times), i requires 0 <= i => col[i % |col|])
  }

  /** `repeat_interleave` / `np.repeat` with one number for all rows: entry i is entry i div the number. */
  function RepeatEach<T>(col: Column<T>, times: nat): (repeated: Column<T>)
    ensures |repeated| == Product(|col|, times)
  {
    seq(Product(|col|, times), i requires 0 <= i < Product(|col|, times) => EntryOf(col, times, i))
  }

  function EntryOf<T>(col: Column<T>, times: nat, i: nat): T
    requires i < Product(|col|, times)
  {
    QuotientBelow(i, times, |col|);
    col[Quotient(i, times)]
  }

  function Repeat<T>(t: Table<T>, times: nat, interleave: bool): Table<T>
    requires t.Aligned()
  {
    if interleave
    then Table(Product(t.size, times), map k | k in t.tensors :: RepeatEach(t.tensors[k], times),
               map k | k in t.objects :: RepeatEach(t.objects[k], times))
    else Table(Product(t.size, times), map k | k in t.tensors :: TileTensor(t.tensors[k], times),
               map k | k in t.objects :: TileArray(t.objects[k], times))
  }

  lemma {:induction false} SumOfCopies(x: nat, times: nat)
    ensures Sum(Copies(x, times)) == times * x
  {
    if times > 0 {
      assert Copies(x, times)[1..] == Copies(x, times - 1);
      SumOfCopies(x, times - 1);
      ProductStep(times, x);
    }
  }

  lemma RepeatEachAt<T>(col: Column<T>, times: nat, i: nat, j: nat)
    requires i < |col| && j < times
    ensures i * times + j < Product(|col|, times) && RepeatEach(col, times)[i * times + j] == col[i]
  {
    ProductStep(i + 1, times);
    ProductIsMonotone(i + 1, |col|, times);
    QuotientIsUnique(i * times + j, times, i, j);
  }

  /** Repeating by one number is repeating by that number for each row. */
  lemma RepeatEachIsUniform<T>(col: Column<T>, times: nat)
    ensures RepeatEach(col, times) == RepeatRows(col, Copies(times, |col|))
  {
    var each, rows := RepeatEach(col, times), RepeatRows(col, Copies(times, |col|));
    RepeatedLength(col, Copies(times, |col|));
    SumOfCopies(times, |col|);
    assert |each| == |rows|;
    forall at | 0 <= at < |each|
      ensures each[at] == rows[at]
    {
      var i, j := SplitPosition(at, times, |col|);
      UniformEntry(col, times, i, j, at);
    }
  }

  lemma UniformEntry<T>(col: Column<T>, times: nat, i: nat, j: nat, at: nat)
    requires i < |col| && j < times && at == i * times + j
    ensures at < |RepeatEach(col, times)| == |RepeatRows(col, Copies(times, |col|))|
    ensures RepeatEach(col, times)[at] == RepeatRows(col, Copies(times, |col|))[at]
  {
    var counts := Copies(times, |col|);
    RepeatedLength(col, counts);
    SumOfCopies(times, |col|);
    RepeatEachAt(col, times, i, j);
    assert counts[..i] == Copies(times, i);
    SumOfCopies(times, i);
    RepeatedRowAt(col, counts, i, j);
  }

  /** `repeat` with interleaving is `sample_level_repeat` with equal counts. */
  lemma InterleavedIsSampleLevel<T>(t: Table<T>, times: nat)
    requires t.Aligned()
    ensures Repeat(t, times, true) == SampleLevelRepeat(t, Copies(times, t.size))
  {
    var repeated, sampled := Repeat(t, times, true), SampleLevelRepeat(t, Copies(times, t.size));
    SumOfCopies(times, t.size);
    forall k | k in t.tensors
      ensures repeated.tensors[k] == sampled.tensors[k]
    {
      RepeatEachIsUniform(t.tensors[k], times);
    }
    forall k | k in t.objects
      ensures repeated.objects[k] == sampled.objects[k]
    {
      RepeatEachIsUniform(t.objects[k], times);
    }
    assert repeated.tensors == sampled.tensors && repeated.objects == sampled.objects;
  }

  /** Interleaved: the j-th copy of row i stands at i * times + j, for every column. */
  lemma InterleavedRow<T>(t: Table<T>, times: nat, i: nat, j: nat)
    requires t.Aligned() && i < t.size && j < times
    ensures Repeat(t, times, true).Aligned() && i * times + j < Repeat(t, times, true).size
    ensures Row(Repeat(t, times, true), i * times + j) == Row(t, i)
  {
    var at := i * times + j;
    RepeatEachAt(Range(0, t.size), times, i, j);
    forall k | k in t.tensors
      ensures RepeatEach(t.tensors[k], times)[at] == t.tensors[k][i]
    {
      RepeatEachAt(t.tensors[k], times, i, j);
    }
    forall k | k in t.objects
      ensures RepeatEach(t.objects[k], times)[at] == t.objects[k][i]
    {
      RepeatEachAt(t.objects[k], times, i, j);
    }
    SameRow(Repeat(t, times, true), at, t, i);
  }

  lemma {:induction false} TiledEntry<T>(col: Column<T>, times: nat, i: nat)
    requires i < |TileTensor(col, times)|
    ensures |col| > 0 && TileTensor(col, times)[i] == col[i % |col|]
  {
    if i < |col| {
      assert TileTensor(col, times)[i] == col[i];
      RemainderOfSmall(i, |col|);
    } else {
      TiledEntry(col, times - 1, i - |col|);
      RemainderStep(i, |col|);
    }
  }

  lemma {:induction false} TiledLength<T>(col: Column<T>, times: nat)
    ensures |TileTensor(col, times)| == Product(|col|, times)
  {
    if times > 0 {
      TiledLength(col, times - 1);
      DropOneFactor(|col|, times);
    }
  }

  /** Both tilings agree, and pick by tiling the row numbers. */
  lemma TileIsPick<T>(col: Column<T>, times: nat)
    ensures InRange(TileTensor(Range(0, |col|), times), |col|)
    ensures TileTensor(col, times) == TileArray(col, times) == Pick(col, TileTensor(Range(0, |col|), times))
  {
    var rows := TileTensor(Range(0, |col|), times);
    TiledLength(col, times);
    TiledLength(Range(0, |col|), times);
    forall i | 0 <= i < |rows|
      ensures |col| > 0 && rows[i] == i % |col| < |col| && TileTensor(col, times)[i] == col[i % |col|]
    {
      TiledEntry(Range(0, |col|), times, i);
      TiledEntry(col, times, i);
    }
    if |col| == 0 {
      assert |rows| == 0;
    }
  }

  lemma RepeatIsSelect<T>(t: Table<T>, times: nat, interleave: bool)
    requires t.Aligned()
    ensures var rows := if interleave then RepeatRows(Range(0, t.size), Copies(times, t.size))
                        else TileTensor(Range(0, t.size), times);
            InRange(rows, t.size) && Repeat(t, times, interleave) == Select(t, rows)
  {
    if interleave {
      InterleavedIsSampleLevel(t, times);
      SampleLevelRepeatIsSelect(t, Copies(times, t.size));
    } else {
      var rows := TileTensor(Range(0, t.size), times);
      TileIsPick(Range(0, t.size), times);
      TiledLength(Range(0, t.size), times);
      forall k | k in t.tensors
        ensures TileTensor(t.tensors[k], times) == Pick(t.tensors[k], rows)
      {
        TileIsPick(t.tensors[k], times);
      }
      forall k | k in t.objects
        ensures TileArray(t.objects[k], times) == Pick(t.objects[k], rows)
      {
        TileIsPick(t.objects[k], times);
      }
      ColumnsPickTheSameRows(t, Repeat(t, times, false), rows);
    }
  }

  /** Tiled: the j-th copy of row i stands at j * size + i, for every column. */
  lemma TiledRow<T>(t: Table<T>, times: nat, i: nat, j: nat)
    requires t.Aligned() && i < t.size && j < times
    ensures Repeat(t, times, false).Aligned() && j * t.size + i < Repeat(t, times, false).size
    ensures Row(Repeat(t, times, false), j * t.size + i) == Row(t, i)
  {
    var rows := TileTensor(Range(0, t.size), times);
    RepeatIsSelect(t, times, false);
    TiledLength(Range(0, t.size), times);
    ProductIsMonotone(j + 1, times, t.size);
    assert (j + 1) * t.size == j * t.size + t.size;
    assert times * t.size == Product(t.size, times);
    TiledEntry(Range(0, t.size), times, j * t.size + i);
    QuotientIsUnique(j * t.size + i, t.size, j, i);
    SelectedRow(t, rows, j * t.size + i);
  }
}
