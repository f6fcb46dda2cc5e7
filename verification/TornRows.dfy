/** Runs after which a batch holds rows that never were: `union` compares the number of rows and the shared columns, not which
    rows the two batches hold. */
module TornRows {
  import opened Options
  import opened Tables
  import opened TableOps
  import opened WholeRows
  import opened DataProtos

  /** The given rows, but one tensor as it was. */
  ghost function Reunited<T>(t: Table<T>, key: string, rows: seq<nat>): Table<T>
    requires t.Aligned() && key in t.tensors && InRange(rows, t.size)
  {
    var moved := Select(t, rows);
    moved.(tensors := moved.tensors[key := t.tensors[key]])
  }

  /** What is popped, and what is left. */
  lemma PoppedOne<T>(t: Table<T>, key: string, left: Table<T>, tensors: map<string, Column<T>>, columns: map<string, Column<T>>)
    requires Some(left) == Pop(t, set k | k in [key], set k | k in [])
    requires tensors.Keys == (set k | k in [key]) && columns.Keys == (set k | k in [])
    requires left.(tensors := left.tensors + tensors, objects := left.objects + columns) == t
    ensures key in t.tensors && left == t.(tensors := t.tensors - {key})
    ensures tensors == map[key := t.tensors[key]] && columns == map[]
  {
    assert (set k | k in [key]) == {key} && (set k: string | k in []) == {};
    assert t.tensors == left.tensors + tensors;
    assert t.tensors[key] == tensors[key];
    assert t.objects - {} == t.objects;
  }

  lemma UniteAgain<T>(t: Table<T>, key: string, left: Table<T>, popped: Table<T>, rows: seq<nat>)
    requires t.Aligned() && key in t.tensors && InRange(rows, t.size)
    requires left == t.(tensors := t.tensors - {key})
    requires popped == Table(t.size, map[key := t.tensors[key]], map[])
    ensures Union(Select(left, rows), popped) == if |rows| == t.size then Some(Reunited(t, key, rows)) else None
  {
    var some, all := Select(left, rows), Select(t, rows);
    assert some.tensors == all.tensors - {key};
    assert some.objects == all.objects;
    if |rows| == t.size {
      assert some.tensors + popped.tensors == all.tensors[key := t.tensors[key]];
      assert some.objects + popped.objects == all.objects;
    }
  }

  /** Pop a tensor, reorder the rest, and unite the two again: no step fails on a reordering of all rows, and the tensor stays
      in the old order. */
  method PopReorderUnite<T(==)>(p: DataProto<T>, key: string, idx: seq<int>) returns (ok: bool)
    requires p.Valid()
    modifies p, p.batch, p.objects
    ensures p.Valid()
    ensures ok <==> key in old(p.batch.cols) && InBounds(idx, old(p.batch.size)) && |idx| == old(p.batch.size)
    ensures ok ==> p.View() == Reunited(old(p.View()), key, FromEnd(idx, old(p.batch.size)))
  {
    ghost var t := p.View();
    var tensors, columns, popped;
    ok, tensors, columns, popped := p.PopKeys([key], []);
    if !ok {
      return;
    }
    ghost var left := p.View();
    PoppedOne(t, key, left, tensors, columns);
    ok := p.Reorder(idx);
    if !ok {
      return;
    }
    UniteAgain(t, key, left, popped.value.View(), FromEnd(idx, t.size));
    ok := p.UnionWith(popped.value);
  }

  /** All as it was, but the given rows of one tensor. */
  ghost function OneReordered<T>(t: Table<T>, key: string, rows: seq<nat>): Table<T>
    requires t.Aligned() && key in t.tensors && InRange(rows, t.size)
  {
    t.(tensors := t.tensors[key := Pick(t.tensors[key], rows)])
  }

  lemma SelectedOne<T>(t: Table<T>, key: string, rows: seq<nat>)
    requires t.Aligned() && key in t.tensors && InRange(rows, t.size)
    ensures var one := t.(tensors := map[key := t.tensors[key]]);
            && Columns(t, Some({key}), None) == Some(one)
            && Select(one, rows).tensors == map[key := Pick(t.tensors[key], rows)]
            && Select(one, rows).objects == Select(t, rows).objects
  {
    assert Restrict(t.tensors, Some({key})) == map[key := t.tensors[key]];
  }

  /** After an attempt to unite, successful or not. */
  lemma ReplacedOne<T>(t: Table<T>, key: string, left: Table<T>, reordered: Table<T>, rows: seq<nat>,
                       tensors: map<string, Column<T>>, objects: map<string, Column<T>>)
    requires t.Aligned() && key in t.tensors && InRange(rows, t.size) && |rows| == t.size
    requires left == t.(tensors := t.tensors - {key})
    requires reordered == Table(t.size, map[key := Pick(t.tensors[key], rows)], Select(t, rows).objects)
    ensures Compatible(left.tensors, reordered.tensors)
    ensures left.tensors + reordered.tensors == OneReordered(t, key, rows).tensors
    ensures UnionSoFar(left.objects, reordered.objects, objects) ==> objects == t.objects
  {
  }

  /** Select a tensor, reorder the selection, pop the tensor from the batch and unite the two. The object columns, which both
      have, make the union fail when the order changed one of them; but the tensor has been replaced by then. */
  method ReplaceByReordered<T(==)>(p: DataProto<T>, key: string, idx: seq<int>) returns (ok: bool)
    requires p.Valid() && key in p.batch.cols && InBounds(idx, p.batch.size) && |idx| == p.batch.size
    modifies p, p.batch, p.objects
    ensures p.View() == OneReordered(old(p.View()), key, FromEnd(idx, old(p.batch.size))) && p.Valid()
    ensures ok <==> Compatible(old(p.objects.cols), Select(old(p.View()), FromEnd(idx, old(p.batch.size))).objects)
  {
    ghost var t, rows := p.View(), FromEnd(idx, p.batch.size);
    SelectedOne(t, key, rows);
    var selected := p.SelectColumns(Some({key}), None);
    var q := selected.value;
    ok := q.Reorder(idx);
    ghost var reordered := q.View();
    var tensors, columns, popped;
    ok, tensors, columns, popped := p.PopKeys([key], []);
    PoppedOne(t, key, p.View(), tensors, columns);
    ghost var left := p.View();
    ok := p.UnionWith(q);
    ReplacedOne(t, key, left, reordered, rows, p.batch.cols, p.objects.cols);
  }

  function SomeRows(rows: seq<nat>): (r: seq<Option<nat>>) {
    seq(|rows|, i requires 0 <= i < |rows| => Some(rows[i]))
  }

  /** A tensor with distinct entries tells which rows a whole batch has. */
  lemma TensorTellsRows<T>(t: Table<T>, r: Table<T>, trace: Trace, k: string, rows: seq<nat>)
    requires Follows(t, r, trace) && IsWhole(trace, r.tensors.Keys, r.objects.Keys, t.tensors.Keys)
    requires k in t.tensors && DistinctEntries(t.tensors[k]) && InRange(rows, t.size)
    requires k in r.tensors && r.tensors[k] == Pick(t.tensors[k], rows)
    ensures trace.rows == SomeRows(rows)
  {
    assert ColumnFollows(t.tensors[k], r.tensors[k], SomeRows(rows));
    ColumnTellsRows(t.tensors[k], r.tensors[k], trace.rows, SomeRows(rows));
  }

  lemma SomeRowsInjective(a: seq<nat>, b: seq<nat>)
    requires SomeRows(a) == SomeRows(b)
    ensures a == b
  {
    assert |a| == |b|;
    assert forall i :: 0 <= i < |a| ==> SomeRows(a)[i].value == a[i] && SomeRows(b)[i].value == b[i];
  }

  /** On two tensors with distinct entries the rows stay whole only if the reordering changes nothing. */
  lemma ReunitedIsWholeIff<T>(t: Table<T>, key: string, other: string, rows: seq<nat>)
    requires t.Aligned() && InRange(rows, t.size) && |rows| == t.size
    requires key in t.tensors && other in t.tensors && key != other
    requires DistinctEntries(t.tensors[key]) && DistinctEntries(t.tensors[other])
    ensures HasWholeRows(t, Reunited(t, key, rows), t.tensors.Keys) <==> rows == Range(0, t.size)
  {
    if rows == Range(0, t.size) {
      ReunitedAsItWas(t, key);
    }
    if HasWholeRows(t, Reunited(t, key, rows), t.tensors.Keys) {
      WholeReunitedInOrder(t, key, other, rows);
    }
  }

  lemma ReunitedAsItWas<T>(t: Table<T>, key: string)
    requires t.Aligned() && key in t.tensors
    ensures InRange(Range(0, t.size), t.size) && HasWholeRows(t, Reunited(t, key, Range(0, t.size)), t.tensors.Keys)
  {
    SelectAll(t);
    assert Reunited(t, key, Range(0, t.size)) == t;
    assert Follows(t, t, Untouched(t)) && IsWhole(Untouched(t), t.tensors.Keys, t.objects.Keys, t.tensors.Keys);
  }

  lemma WholeReunitedInOrder<T>(t: Table<T>, key: string, other: string, rows: seq<nat>)
    requires t.Aligned() && InRange(rows, t.size) && |rows| == t.size
    requires key in t.tensors && other in t.tensors && key != other
    requires DistinctEntries(t.tensors[key]) && DistinctEntries(t.tensors[other])
    requires HasWholeRows(t, Reunited(t, key, rows), t.tensors.Keys)
    ensures rows == Range(0, t.size)
  {
    var r, all := Reunited(t, key, rows), Range(0, t.size);
    var trace :| Follows(t, r, trace) && IsWhole(trace, r.tensors.Keys, r.objects.Keys, t.tensors.Keys);
    SelectAll(t);
    assert Select(t, all).tensors[key] == Pick(t.tensors[key], all);
    TensorTellsRows(t, r, trace, key, all);
    TensorTellsRows(t, r, trace, other, rows);
    SomeRowsInjective(rows, all);
  }

  const TwoRows: Table<int> := Table(2, map["a" := [1, 2], "b" := [10, 20]], map["uid" := [7, 8]])

  /** No row of t is a row of the two. */
  ghost predicate Torn(t: Table<int>) {
    && t.Aligned() && t.size == 2 && "a" in t.tensors && "b" in t.tensors
    && forall i, j :: 0 <= i < 2 && 0 <= j < 2 ==>
         !(t.tensors["a"][j] == TwoRows.tensors["a"][i] && t.tensors["b"][j] == TwoRows.tensors["b"][i])
  }

  lemma Swap(col: Column<int>)
    requires |col| == 2
    ensures InBounds([1, 0], 2) && FromEnd([1, 0], 2) == [1, 0] && InRange([1, 0], 2) && Pick(col, [1, 0]) == [col[1], col[0]]
  {
  }

  lemma SwappedIsTorn()
    ensures InBounds([1, 0], 2) && FromEnd([1, 0], 2) == [1, 0] && InRange([1, 0], 2)
    ensures Torn(Reunited(TwoRows, "a", [1, 0]))
    ensures Torn(OneReordered(TwoRows, "b", [1, 0])) && !Compatible(TwoRows.objects, Select(TwoRows, [1, 0]).objects)
  {
    Swap([10, 20]);
    Swap([7, 8]);
    assert Reunited(TwoRows, "a", [1, 0]).tensors["b"] == [20, 10];
    assert Select(TwoRows, [1, 0]).objects["uid"] == [8, 7];
  }

  lemma SwappedIsNotWhole()
    ensures InRange([1, 0], 2) && !HasWholeRows(TwoRows, Reunited(TwoRows, "a", [1, 0]), {"a", "b"})
  {
    var rows := [1, 0];
    Swap([10, 20]);
    assert TwoRows.tensors.Keys == {"a", "b"};
    assert DistinctEntries(TwoRows.tensors["a"]) && DistinctEntries(TwoRows.tensors["b"]);
    ReunitedIsWholeIff(TwoRows, "a", "b", rows);
    assert rows[0] == 1 && Range(0, 2)[0] == 0;
  }

  /** Pop, reorder and union all succeed, and no row is left whole. */
  method SuccessfulUnionTears() returns (p: DataProto<int>, ok: bool)
    ensures ok && p.Valid() && Torn(p.View())
    ensures !HasWholeRows(TwoRows, p.View(), {"a", "b"})
  {
    SwappedIsTorn();
    SwappedIsNotWhole();
    p := NewBatch(TwoRows);
    ok := PopReorderUnite(p, "a", [1, 0]);
  }

  /** The uid makes the union fail, but only after it has added the tensor. */
  method FailingUnionTears() returns (p: DataProto<int>, ok: bool)
    ensures !ok && p.Valid() && Torn(p.View()) && p.View().objects == TwoRows.objects
  {
    SwappedIsTorn();
    p := NewBatch(TwoRows);
    ok := ReplaceByReordered(p, "b", [1, 0]);
  }
}
