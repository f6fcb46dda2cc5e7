/** Cutting two-dimensional columns along their second dimension and unfolding the pieces into rows. */
module ColumnChunks {
  import opened Options
  import opened Arithmetic
  import opened Sequences
  import opened Tables
  import opened Dispatch

  /** A column whose rows all have the same width, as a two-dimensional tensor or array has. */
  ghost predicate Rectangular<E>(col: Column<seq<E>>) {
    forall i :: 0 <= i < |col| ==> |col[i]| == |col[0]|
  }

  ghost predicate AllRectangular<E>(t: Table<seq<E>>) {
    && (forall k | k in t.tensors :: Rectangular(t.tensors[k]))
    && (forall k | k in t.objects :: Rectangular(t.objects[k]))
  }

  predicate CanCut<E>(col: Column<seq<E>>, n: nat)
    requires n > 0
  {
    |col| > 0 ==> Divides(n, |col[0]|)
  }

  function CutWidth<E>(col: Column<seq<E>>, n: nat): nat
    requires n > 0
  {
    if col == [] then 0 else Quotient(|col[0]|, n)
  }

  lemma {:induction false} ConcatLength<E>(col: Column<seq<E>>, width: nat)
    requires forall i :: 0 <= i < |col| ==> |col[i]| == width
    ensures |Concat(col)| == |col| * width
  {
    if col != [] {
      ConcatLength(col[1..], width);
      ProductStep(|col|, width);
    }
  }

  lemma CutLength<E>(col: Column<seq<E>>, n: nat)
    requires n > 0 && Rectangular(col) && CanCut(col, n)
    ensures |Concat(col)| == |col| * n * CutWidth(col, n)
  {
    if col != [] {
      var w := CutWidth(col, n);
      ConcatLength(col, |col[0]|);
      DivisorFactors(|col[0]|, n);
      ProductAssociates(|col|, n, w);
    }
  }

  /** `reshape(rows * n, width // n)`: the elements in row-major order, regrouped. */
  function CutRows<E>(col: Column<seq<E>>, n: nat): (r: Column<seq<E>>)
    requires n > 0 && Rectangular(col) && CanCut(col, n)
    ensures |r| == |col| * n
  {
    CutLength(col, n);
    Pieces(Concat(col), |col| * n, CutWidth(col, n))
  }

  lemma {:induction false} PartOfConcat<E>(col: Column<seq<E>>, width: nat, i: nat, offset: nat, len: nat)
    requires forall k :: 0 <= k < |col| ==> |col[k]| == width
    requires i < |col| && offset + len <= width
    ensures i * width + offset + len <= |Concat(col)|
    ensures Part(Concat(col), i * width + offset, len) == Part(col[i], offset, len)
  {
    if i > 0 {
      ProductStep(i, width);
      PartOfConcat(col[1..], width, i - 1, offset, len);
      var at := (i - 1) * width + offset;
      assert Concat(col)[width..] == Concat(col[1..]);
      assert Part(Concat(col), width + at, len) == Part(Concat(col)[width..], at, len);
    }
  }

  lemma InnerPieceFits(n: nat, w: nat, j: nat)
    requires j < n
    ensures j * w + w <= n * w
  {
    ProductStep(j + 1, w);
    ProductIsMonotone(j + 1, n, w);
  }

  /** The j-th piece of row i stands at i * n + j. */
  lemma CutRowAt<E>(col: Column<seq<E>>, n: nat, i: nat, j: nat)
    requires n > 0 && Rectangular(col) && CanCut(col, n) && i < |col| && j < n
    ensures i * n + j < |CutRows(col, n)|
    ensures var w := CutWidth(col, n);
            j * w + w <= |col[i]| && CutRows(col, n)[i * n + j] == Part(col[i], j * w, w)
  {
    CutLength(col, n);
    DivisorFactors(|col[0]|, n);
    InnerPieceFits(n, CutWidth(col, n), j);
    InnerPieceFits(|col|, n, i);
    CutPosition(i, n, j, CutWidth(col, n));
    RegroupedAt(col, |col| * n, CutWidth(col, n), n * CutWidth(col, n), i, i * n + j, j * CutWidth(col, n));
  }

  /** The same with every product named: piece `at` of the regrouped elements is found in row i at `offset`. */
  lemma RegroupedAt<E>(col: Column<seq<E>>, count: nat, w: nat, width: nat, i: nat, at: nat, offset: nat)
    requires |Concat(col)| == count * w && at < count && forall k :: 0 <= k < |col| ==> |col[k]| == width
    requires i < |col| && offset + w <= width && at * w == i * width + offset
    ensures Pieces(Concat(col), count, w)[at] == Part(col[i], offset, w)
  {
    PieceAt(Concat(col), count, w, at);
    PartOfConcat(col, width, i, offset, w);
  }

  lemma CutPosition(i: nat, n: nat, j: nat, w: nat)
    ensures (i * n + j) * w == i * (n * w) + j * w
  {
    ProductAssociates(i, n, w);
    Distribute(i * n, j, w);
  }

  lemma Distribute(a: nat, b: nat, c: nat)
    ensures (a + b) * c == a * c + b * c
  {
  }

  lemma CutRowIsPiece<E>(col: Column<seq<E>>, n: nat, i: nat, j: nat)
    requires n > 0 && Rectangular(col) && CanCut(col, n) && i < |col| && j < n
    ensures |col[i]| == n * CutWidth(col, n) && i * n + j < |CutRows(col, n)|
    ensures CutRows(col, n)[i * n + j] == Pieces(col[i], n, CutWidth(col, n))[j]
  {
    DivisorFactors(|col[0]|, n);
    CutRowAt(col, n, i, j);
    PieceAt(col[i], n, CutWidth(col, n), j);
  }

  /** Joining the pieces of row i gives row i back. */
  lemma CutRowsJoinBack<E>(col: Column<seq<E>>, n: nat, i: nat)
    requires n > 0 && Rectangular(col) && CanCut(col, n) && i < |col|
    ensures i * n + n <= |CutRows(col, n)|
    ensures Concat(CutRows(col, n)[i * n..i * n + n]) == col[i]
  {
    InnerPieceFits(|col|, n, i);
    CutRowIsPiece(col, n, i, 0);
    RowsArePieces(col, n, i, i * n, Pieces(col[i], n, CutWidth(col, n)));
  }

  lemma RowsArePieces<E>(col: Column<seq<E>>, n: nat, i: nat, at: nat, pieces: seq<seq<E>>)
    requires n > 0 && Rectangular(col) && CanCut(col, n) && i < |col|
    requires at == i * n && at + n <= |CutRows(col, n)|
    requires |col[i]| == n * CutWidth(col, n) && pieces == Pieces(col[i], n, CutWidth(col, n))
    ensures CutRows(col, n)[at..at + n] == pieces
  {
    var rows := CutRows(col, n)[at..at + n];
    forall j | 0 <= j < n
      ensures rows[j] == pieces[j]
    {
      CutRowIsPiece(col, n, i, j);
    }
  }

  // ---------------------------------------------------------------------------------------------
  // unfold_column_chunks
  // ---------------------------------------------------------------------------------------------

  datatype UnfoldError = CannotReshape | NoSplitKeys

  predicate IsSplit(keys: Option<set<string>>, k: string) {
    keys.Some? && k in keys.value
  }

  ghost predicate CanUnfold<E>(cols: map<string, Column<seq<E>>>, keys: Option<set<string>>, n: nat)
    requires n > 0
  {
    forall k | k in cols && IsSplit(keys, k) :: CanCut(cols[k], n)
  }

  ghost function UnfoldColumn<E>(col: Column<seq<E>>, split: bool, n: nat): Column<seq<E>>
    requires n > 0 && Rectangular(col) && (split ==> CanCut(col, n))
  {
    if split then CutRows(col, n) else RepeatRows(col, Copies(n, |col|))
  }

  /** Tensors come first, so their failure to reshape is seen first; the object columns consult the split keys without
      asking whether there are any. */
  ghost function Unfold<E>(t: Table<seq<E>>, n: nat, keys: Option<set<string>>): Result<Table<seq<E>>, UnfoldError>
    requires t.Aligned() && n > 0 && AllRectangular(t)
  {
    if !CanUnfold(t.tensors, keys, n) then Err(CannotReshape)
    else if keys == None && t.objects.Keys != {} then Err(NoSplitKeys)
    else if !CanUnfold(t.objects, keys, n) then Err(CannotReshape)
    else Ok(Table(t.size * n, map k | k in t.tensors :: UnfoldColumn(t.tensors[k], IsSplit(keys, k), n),
                  map k | k in t.objects :: UnfoldColumn(t.objects[k], IsSplit(keys, k), n)))
  }

  lemma RepeatedEntry<T>(col: Column<T>, n: nat, i: nat, j: nat)
    requires i < |col| && j < n
    ensures |RepeatRows(col, Copies(n, |col|))| == |col| * n
    ensures i * n + j < |col| * n && RepeatRows(col, Copies(n, |col|))[i * n + j] == col[i]
  {
    var counts := Copies(n, |col|);
    assert counts[..i] == Copies(n, i);
    SumOfCopies(n, i);
    SumOfCopies(n, |col|);
    RepeatedRowAt(col, counts, i, j);
  }

  /** entry is the j-th piece of the row, or the whole row when the column is not split. */
  ghost predicate IsPiece<E>(entry: seq<E>, row: seq<E>, split: bool, w: nat, j: nat) {
    if split then j * w + w <= |row| && entry == Part(row, j * w, w) else entry == row
  }

  /** What row i * n + j of an unfolded column holds. */
  lemma UnfoldedEntry<E>(col: Column<seq<E>>, split: bool, n: nat, i: nat, j: nat)
    requires n > 0 && Rectangular(col) && (split ==> CanCut(col, n)) && i < |col| && j < n
    ensures i * n + j < |col| * n == |UnfoldColumn(col, split, n)|
    ensures IsPiece(UnfoldColumn(col, split, n)[i * n + j], col[i], split, CutWidth(col, n), j)
  {
    if split {
      CutRowAt(col, n, i, j);
    } else {
      RepeatedEntry(col, n, i, j);
    }
  }

  lemma UnfoldedLength<E>(col: Column<seq<E>>, split: bool, n: nat)
    requires n > 0 && Rectangular(col) && (split ==> CanCut(col, n))
    ensures |UnfoldColumn(col, split, n)| == |col| * n
  {
    SumOfCopies(n, |col|);
    RepeatedLength(col, Copies(n, |col|));
  }

  /** Without split keys the operation fails on every batch that has object columns, and otherwise it succeeds exactly when
      n divides the width of every split column; the result is aligned. */
  lemma UnfoldOkIff<E>(t: Table<seq<E>>, n: nat, keys: Option<set<string>>)
    requires t.Aligned() && n > 0 && AllRectangular(t)
    ensures Unfold(t, n, keys).Ok?
            <==> && (keys == None ==> t.objects.Keys == {})
                 && (t.size > 0 ==> forall k | IsSplit(keys, k) ::
                        && (k in t.tensors ==> Divides(n, |t.tensors[k][0]|))
                        && (k in t.objects ==> Divides(n, |t.objects[k][0]|)))
    ensures Unfold(t, n, keys).Ok? ==> Unfold(t, n, keys).value.Aligned() && Unfold(t, n, keys).value.size == t.size * n
  {
    if Unfold(t, n, keys).Ok? {
      var r := Unfold(t, n, keys).value;
      forall k | k in t.tensors
        ensures |r.tensors[k]| == t.size * n
      {
        UnfoldedLength(t.tensors[k], IsSplit(keys, k), n);
      }
      forall k | k in t.objects
        ensures |r.objects[k]| == t.size * n
      {
        UnfoldedLength(t.objects[k], IsSplit(keys, k), n);
      }
    } else if keys == None {
      assert CanUnfold(t.tensors, keys, n) && CanUnfold(t.objects, keys, n);
    }
  }

  /** Row `at` of every column of r is piece j of row i of the same column of t, or all of it. */
  ghost predicate RowIsPieces<E>(r: map<string, Column<seq<E>>>, t: map<string, Column<seq<E>>>,
                                 keys: Option<set<string>>, n: nat, i: nat, j: nat, at: nat)
    requires n > 0
  {
    && r.Keys == t.Keys
    && forall k | k in t :: i < |t[k]| && at < |r[k]| && IsPiece(r[k][at], t[k][i], IsSplit(keys, k), CutWidth(t[k], n), j)
  }

  /** Split and repeated columns stay together: row i * n + j holds piece j of every split column of row i, and row i itself
      in every other column. */
  lemma UnfoldedRow<E>(t: Table<seq<E>>, n: nat, keys: Option<set<string>>, i: nat, j: nat)
    requires t.Aligned() && n > 0 && AllRectangular(t) && Unfold(t, n, keys).Ok? && i < t.size && j < n
    ensures RowIsPieces(Unfold(t, n, keys).value.tensors, t.tensors, keys, n, i, j, i * n + j)
    ensures RowIsPieces(Unfold(t, n, keys).value.objects, t.objects, keys, n, i, j, i * n + j)
  {
    UnfoldedColumns(Unfold(t, n, keys).value.tensors, t.tensors, keys, n, i, j);
    UnfoldedColumns(Unfold(t, n, keys).value.objects, t.objects, keys, n, i, j);
  }

  lemma UnfoldedColumns<E>(r: map<string, Column<seq<E>>>, cols: map<string, Column<seq<E>>>, keys: Option<set<string>>,
                           n: nat, i: nat, j: nat)
    requires n > 0 && j < n && r.Keys == cols.Keys && CanUnfold(cols, keys, n)
    requires forall k | k in cols :: Rectangular(cols[k]) && i < |cols[k]|
    requires forall k | k in cols :: r[k] == UnfoldColumn(cols[k], IsSplit(keys, k), n)
    ensures RowIsPieces(r, cols, keys, n, i, j, i * n + j)
  {
    forall k | k in cols
      ensures i * n + j < |r[k]| && IsPiece(r[k][i * n + j], cols[k][i], IsSplit(keys, k), CutWidth(cols[k], n), j)
    {
      UnfoldedEntry(cols[k], IsSplit(keys, k), n, i, j);
    }
  }

  /** Joining the n sub-rows of a split column restores its row. */
  lemma SubRowsJoinBack<E>(t: Table<seq<E>>, n: nat, keys: Option<set<string>>, i: nat, k: string)
    requires t.Aligned() && n > 0 && AllRectangular(t) && Unfold(t, n, keys).Ok? && i < t.size && IsSplit(keys, k)
    ensures var r := Unfold(t, n, keys).value;
            && r.Aligned() && i * n + n <= r.size
            && (k in t.tensors ==> Concat(r.tensors[k][i * n..i * n + n]) == t.tensors[k][i])
            && (k in t.objects ==> Concat(r.objects[k][i * n..i * n + n]) == t.objects[k][i])
  {
    UnfoldOkIff(t, n, keys);
    InnerPieceFits(t.size, n, i);
    if k in t.tensors {
      CutRowsJoinBack(t.tensors[k], n, i);
    }
    if k in t.objects {
      CutRowsJoinBack(t.objects[k], n, i);
    }
  }
}
