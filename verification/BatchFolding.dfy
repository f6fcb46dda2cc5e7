/** Folding the batch dimension into groups of rows, and unfolding it again. */
module BatchFolding {
  import opened Options
  import opened Arithmetic
  import opened Sequences
  import opened Tables
  import opened Dispatch
  import opened ColumnChunks
  import opened DataProtos

  type Columns<T> = map<string, Column<T>>

  ghost predicate AllOfLength<T>(cols: Columns<T>, size: nat) {
    forall k | k in cols :: |cols[k]| == size
  }

  /** All columns have groups of m rows. */
  ghost predicate GroupsOf<T>(cols: Columns<seq<T>>, m: nat) {
    forall k, i | k in cols && 0 <= i < |cols[k]| :: |cols[k][i]| == m
  }

  function FoldColumns<T>(cols: Columns<T>, n: nat, m: nat): Columns<seq<T>>
    requires AllOfLength(cols, n * m)
  {
    map k | k in cols :: Pieces(cols[k], n, m)
  }

  function UnfoldColumns<T>(cols: Columns<seq<T>>): Columns<T> {
    map k | k in cols :: Concat(cols[k])
  }

  lemma FoldThenUnfoldColumns<T>(cols: Columns<T>, n: nat, m: nat)
    requires AllOfLength(cols, n * m)
    ensures UnfoldColumns(FoldColumns(cols, n, m)) == cols
  {
  }

  lemma {:induction false} PiecesOfConcat<T>(col: Column<seq<T>>, m: nat)
    requires forall i :: 0 <= i < |col| ==> |col[i]| == m
    ensures |Concat(col)| == |col| * m && Pieces(Concat(col), |col|, m) == col
  {
    ConcatLength(col, m);
    if col != [] {
      PiecesOfConcat(col[1..], m);
      assert Concat(col)[..m] == col[0] && Concat(col)[m..] == Concat(col[1..]);
    }
  }

  lemma UnfoldThenFoldColumns<T>(cols: Columns<seq<T>>, n: nat, m: nat)
    requires AllOfLength(cols, n) && GroupsOf(cols, m)
    ensures AllOfLength(UnfoldColumns(cols), n * m)
    ensures FoldColumns(UnfoldColumns(cols), n, m) == cols
  {
    forall k | k in cols
      ensures |Concat(cols[k])| == n * m && Pieces(Concat(cols[k]), n, m) == cols[k]
    {
      PiecesOfConcat(cols[k], m);
    }
  }

  // ---------------------------------------------------------------------------------------------
  // Batches
  // ---------------------------------------------------------------------------------------------

  /** `fold_batch_dim`: rows become groups of consecutive rows; refused when the new size does not divide the old one. */
  ghost function Fold<T>(t: Table<T>, n: nat): Option<Table<seq<T>>>
    requires t.Aligned() && n > 0
  {
    if !Divides(n, t.size) then None
    else
      DivisorFactors(t.size, n);
      var m := Quotient(t.size, n);
      Some(Table(n, FoldColumns(t.tensors, n, m), FoldColumns(t.objects, n, m)))
  }

  /** `unfold_batch_dim`: the size is read off the tensors, and an object column that cannot take it is an error. */
  ghost function UnfoldGroups<T>(f: Table<seq<T>>): Option<Table<T>>
    requires f.tensors.Keys != {}
  {
    var k :| k in f.tensors;
    var size := |Concat(f.tensors[k])|;
    if AllOfLength(UnfoldColumns(f.objects), size)
    then Some(Table(size, UnfoldColumns(f.tensors), UnfoldColumns(f.objects)))
    else None
  }

  /** Unfolding undoes folding. */
  lemma FoldThenUnfold<T>(t: Table<T>, n: nat)
    requires t.Aligned() && n > 0 && t.tensors.Keys != {} && Fold(t, n).Some?
    ensures Fold(t, n).value.Aligned()
    ensures Fold(t, n).value.tensors.Keys != {} && UnfoldGroups(Fold(t, n).value) == Some(t)
  {
    DivisorFactors(t.size, n);
    FoldThenUnfoldColumns(t.tensors, n, Quotient(t.size, n));
    FoldThenUnfoldColumns(t.objects, n, Quotient(t.size, n));
    assert forall k | k in Fold(t, n).value.tensors :: Concat(Fold(t, n).value.tensors[k]) == t.tensors[k];
    var k :| k in t.tensors;
    assert k in Fold(t, n).value.tensors;
  }

  /** Folding undoes unfolding. */
  lemma UnfoldThenFold<T>(f: Table<seq<T>>, m: nat)
    requires f.Aligned() && GroupsOf(f.tensors, m) && GroupsOf(f.objects, m) && f.size > 0 && f.tensors.Keys != {}
    ensures UnfoldGroups(f).Some? && UnfoldGroups(f).value.Aligned()
    ensures Fold(UnfoldGroups(f).value, f.size) == Some(f)
  {
    UnfoldThenFoldColumns(f.tensors, f.size, m);
    UnfoldThenFoldColumns(f.objects, f.size, m);
    assert forall k | k in f.tensors :: k in UnfoldColumns(f.tensors) && |Concat(f.tensors[k])| == f.size * m;
    QuotientOfProduct(f.size, m);
  }

  /** Entry j of group i is row i * m + j. */
  ghost predicate RowInGroup<T>(f: Columns<seq<T>>, t: Columns<T>, i: nat, j: nat, row: nat) {
    && f.Keys == t.Keys
    && forall k | k in t :: i < |f[k]| && j < |f[k][i]| && row < |t[k]| && f[k][i][j] == t[k][row]
  }

  lemma FoldedColumnsRow<T>(cols: Columns<T>, n: nat, m: nat, i: nat, j: nat)
    requires AllOfLength(cols, n * m) && i < n && j < m
    ensures RowInGroup(FoldColumns(cols, n, m), cols, i, j, i * m + j)
  {
    forall k | k in cols
      ensures i * m + j < |cols[k]| && |Pieces(cols[k], n, m)[i]| == m && Pieces(cols[k], n, m)[i][j] == cols[k][i * m + j]
    {
      PieceAt(cols[k], n, m, i);
    }
  }

  /** In every column, entry j of group i is row i * m + j: folding keeps the fields of a row together. */
  lemma FoldedRow<T>(t: Table<T>, n: nat, i: nat, j: nat)
    requires t.Aligned() && n > 0 && Fold(t, n).Some? && i < n && j < Quotient(t.size, n)
    ensures var f := Fold(t, n).value; var row := i * Quotient(t.size, n) + j;
            RowInGroup(f.tensors, t.tensors, i, j, row) && RowInGroup(f.objects, t.objects, i, j, row)
  {
    DivisorFactors(t.size, n);
    FoldedColumnsRow(t.tensors, n, Quotient(t.size, n), i, j);
    FoldedColumnsRow(t.objects, n, Quotient(t.size, n), i, j);
  }

  /** Folding writes the regrouped object columns into its argument's own dictionary, beside the tensors that keep their
      rows: the argument stays aligned exactly when it has no object columns or the fold changes nothing. */
  lemma FoldSparesItsArgumentIff<T>(t: Table<T>, n: nat)
    requires t.Aligned() && n > 0 && Fold(t, n).Some?
    ensures AllOfLength(Fold(t, n).value.objects, t.size) <==> t.objects.Keys == {} || n == t.size
  {
    DivisorFactors(t.size, n);
    var folded := Fold(t, n).value.objects;
    assert folded.Keys == t.objects.Keys && AllOfLength(folded, n);
    if t.objects.Keys != {} {
      var k :| k in t.objects;
      assert k in folded && |folded[k]| == n;
    }
  }

  // ---------------------------------------------------------------------------------------------
  // On the object
  // ---------------------------------------------------------------------------------------------

  /** An entry of a column: a value, or a group of entries. */
  datatype Nested<T> = Leaf(value: T) | Group(members: seq<Nested<T>>)

  function Grouped<T>(groups: Column<seq<Nested<T>>>): (col: Column<Nested<T>>)
    ensures |col| == |groups|
  {
    seq(|groups|, i requires 0 <= i < |groups| => Group(groups[i]))
  }

  function GroupedColumns<T>(cols: Columns<seq<Nested<T>>>): Columns<Nested<T>> {
    map k | k in cols :: Grouped(cols[k])
  }

  function FoldColumn<T>(col: Column<Nested<T>>, n: nat, m: nat): Column<Nested<T>>
    requires |col| == n * m
  {
    Grouped(Pieces(col, n, m))
  }

  /** The columns of todo as they were, and the others folded. */
  ghost predicate FoldedExcept<T>(before: Columns<Nested<T>>, cols: Columns<Nested<T>>, todo: set<string>, n: nat, m: nat)
    requires AllOfLength(before, n * m)
  {
    && todo <= before.Keys == cols.Keys
    && forall k | k in before :: cols[k] == if k in todo then before[k] else FoldColumn(before[k], n, m)
  }

  lemma FoldedAll<T>(before: Columns<Nested<T>>, cols: Columns<Nested<T>>, n: nat, m: nat)
    requires AllOfLength(before, n * m) && FoldedExcept(before, cols, {}, n, m)
    ensures cols == GroupedColumns(FoldColumns(before, n, m))
  {
  }

  /** The loop over the object columns: each one is replaced by its groups. */
  method FoldObjects<T(==)>(objects: ObjectDict<Nested<T>>, n: nat, m: nat)
    requires AllOfLength(objects.cols, n * m)
    modifies objects
    ensures objects.cols == GroupedColumns(FoldColumns(old(objects.cols), n, m))
  {
    ghost var before := objects.cols;
    var todo := objects.cols.Keys;
    while todo != {}
      invariant FoldedExcept(before, objects.cols, todo, n, m)
      decreases |todo|
    {
      var key :| key in todo;
      assert objects.cols[key] == before[key];
      objects.cols := objects.cols[key := FoldColumn(objects.cols[key], n, m)];
      todo := todo - {key};
    }
    FoldedAll(before, objects.cols, n, m);
  }

  function GroupedTable<T>(f: Table<seq<Nested<T>>>): Table<Nested<T>> {
    Table(f.size, GroupedColumns(f.tensors), GroupedColumns(f.objects))
  }

  /** `fold_batch_dim`: the folded batch has tensors of its own and shares the dictionary of object columns with the batch it
      was made from. That one keeps its tensors, so it stays aligned exactly when there were no object columns or nothing was
      regrouped. */
  method FoldBatchDim<T(==)>(data: DataProto<Nested<T>>, n: nat) returns (r: Option<DataProto<Nested<T>>>)
    requires data.Valid() && n > 0
    modifies data.objects
    ensures r.Some? <==> Fold(old(data.View()), n).Some?
    ensures r.None? ==> data.View() == old(data.View())
    ensures r.Some? ==> fresh(r.value) && fresh(r.value.batch) && r.value.objects == data.objects
    ensures r.Some? ==> r.value.Valid() && r.value.View() == GroupedTable(Fold(old(data.View()), n).value)
    ensures r.Some? ==> data.View().tensors == old(data.View().tensors)
    ensures r.Some? ==> (data.Valid() <==> old(data.objects.cols).Keys == {} || n == data.batch.size)
  {
    if !Divides(n, data.batch.size) {
      return None;
    }
    DivisorFactors(data.batch.size, n);
    var m := Quotient(data.batch.size, n);
    FoldSparesItsArgumentIff(data.View(), n);
    ghost var folded := FoldColumns(data.objects.cols, n, m);
    FoldObjects(data.objects, n, m);
    assert forall k | k in folded :: |data.objects.cols[k]| == |folded[k]| == n;
    var tensors := new TensorDict(n, GroupedColumns(FoldColumns(data.batch.cols, n, m)));
    var result := new DataProto(tensors, data.objects);
    r := Some(result);
  }
}
