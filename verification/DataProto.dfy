/** The batch object itself: its tensors and its object columns live in containers that several objects may share, and some
    operations update them in place. */
module DataProtos {
  import opened Options
  import opened Tables
  import opened TableConcat
  import opened Dispatch
  import opened TableOps

  class TensorDict<T> {
    const size: nat
    var cols: map<string, Column<T>>

    constructor (size: nat, cols: map<string, Column<T>>)
      ensures this.size == size && this.cols == cols
    {
      this.size := size;
      this.cols := cols;
    }
  }

  class ObjectDict<T> {
    var cols: map<string, Column<T>>

    constructor (cols: map<string, Column<T>>)
      ensures this.cols == cols
    {
      this.cols := cols;
    }
  }

  /** cols with the columns of the other that are not in todo any more. */
  ghost predicate AddedExcept<T>(cols: map<string, Column<T>>, other: map<string, Column<T>>, todo: set<string>,
                                 union: map<string, Column<T>>) {
    && todo <= other.Keys
    && union.Keys == cols.Keys + (other.Keys - todo)
    && (forall k | k in cols :: union[k] == cols[k])
    && (forall k | k in other && k !in todo :: union[k] == other[k])
  }

  lemma AddOne<T>(cols: map<string, Column<T>>, other: map<string, Column<T>>, todo: set<string>,
                  union: map<string, Column<T>>, k: string)
    requires AddedExcept(cols, other, todo, union) && k in todo
    ensures k !in union ==> AddedExcept(cols, other, todo - {k}, union[k := other[k]])
    ensures k in union && union[k] == other[k] ==> AddedExcept(cols, other, todo - {k}, union)
    ensures k in union && union[k] != other[k] ==> !Compatible(cols, other)
  {
  }

  lemma AddedSoFar<T>(cols: map<string, Column<T>>, other: map<string, Column<T>>, todo: set<string>,
                      union: map<string, Column<T>>)
    requires AddedExcept(cols, other, todo, union)
    ensures UnionSoFar(cols, other, union)
    ensures todo == {} ==> Compatible(cols, other) && union == cols + other
  {
  }

  /** The loop of both unions: add new columns, and stop at a column that is there and differs. */
  method AddColumns<T(==)>(cols: map<string, Column<T>>, other: map<string, Column<T>>)
      returns (ok: bool, union: map<string, Column<T>>)
    ensures ok <==> Compatible(cols, other)
    ensures UnionSoFar(cols, other, union)
    ensures ok ==> union == cols + other
  {
    union := cols;
    var todo := other.Keys;
    while todo != {}
      invariant AddedExcept(cols, other, todo, union)
      decreases |todo|
    {
      var k :| k in todo;
      AddOne(cols, other, todo, union, k);
      if k !in union {
        union := union[k := other[k]];
      } else if union[k] != other[k] {
        AddedSoFar(cols, other, todo, union);
        return false, union;
      }
      todo := todo - {k};
    }
    AddedSoFar(cols, other, todo, union);
    ok := true;
  }

  /** The loop of `pop`: remove the keys one after another, and stop at one that is not there. */
  method RemoveKeys<V>(cols: map<string, V>, keys: seq<string>) returns (ok: bool, left: map<string, V>, popped: map<string, V>)
    ensures ok <==> DistinctKeysOf(keys, cols)
    ensures IsLeft(left, cols, keys)
    ensures ok ==> left == cols - (set k | k in keys) && popped == map k | k in cols && k in keys :: cols[k]
  {
    left, popped := cols, map[];
    for n := 0 to |keys|
      invariant DistinctKeysOf(keys[..n], cols)
      invariant left == map k | k in cols && k !in keys[..n] :: cols[k]
      invariant popped == map k | k in cols && k in keys[..n] :: cols[k]
    {
      var key := keys[n];
      assert keys[..n + 1] == keys[..n] + [key];
      if key !in left {
        RepeatedOrMissing(keys, n, cols);
        return false, left, popped;
      }
      popped := popped[key := left[key]];
      left := left - {key};
    }
    assert keys[..|keys|] == keys;
    ok := true;
  }

  /** The columns without some that the keys name. */
  ghost predicate IsLeft<V>(left: map<string, V>, cols: map<string, V>, keys: seq<string>) {
    && left.Keys <= cols.Keys && (forall k | k in left :: left[k] == cols[k])
    && (forall k | k in cols && k !in keys :: k in left)
  }

  /** The keys are all there and none is named twice. */
  ghost predicate DistinctKeysOf<V>(keys: seq<string>, cols: map<string, V>) {
    && (forall i :: 0 <= i < |keys| ==> keys[i] in cols)
    && (forall i, j :: 0 <= i < j < |keys| ==> keys[i] != keys[j])
  }

  lemma RepeatedOrMissing<V>(keys: seq<string>, n: nat, cols: map<string, V>)
    requires n < |keys| && (keys[n] !in cols || keys[n] in keys[..n])
    ensures !DistinctKeysOf(keys, cols)
  {
  }

  class DataProto<T(==)> {
    var batch: TensorDict<T>
    var objects: ObjectDict<T>

    function View(): Table<T>
      reads this, batch, objects
    {
      Table(batch.size, batch.cols, objects.cols)
    }

    ghost predicate Valid()
      reads this, batch, objects
    {
      View().Aligned()
    }

    constructor (batch: TensorDict<T>, objects: ObjectDict<T>)
      ensures this.batch == batch && this.objects == objects
    {
      this.batch := batch;
      this.objects := objects;
    }

    /** In place, on the containers: whoever shares them sees the new columns. A failing union may have added some. */
    method UnionWith(other: DataProto<T>) returns (ok: bool)
      requires Valid() && other.Valid()
      modifies batch, objects
      ensures Valid()
      ensures ok <==> Union(old(View()), old(other.View())).Some?
      ensures ok ==> View() == Union(old(View()), old(other.View())).value
      ensures old(batch.size) != old(other.batch.size) ==> View() == old(View())
      ensures old(batch.size) == old(other.batch.size) && Compatible(old(batch.cols), old(other.batch.cols)) ==>
                batch.cols == old(batch.cols) + old(other.batch.cols)
      ensures UnionSoFar(old(batch.cols), old(other.batch.cols), batch.cols)
      ensures UnionSoFar(old(objects.cols), old(other.objects.cols), objects.cols)
    {
      if batch.size != other.batch.size {
        return false;
      }
      var otherObjects := other.objects.cols;
      var tensorsOk, tensors := AddColumns(batch.cols, other.batch.cols);
      batch.cols := tensors;
      if !tensorsOk {
        return false;
      }
      var objectsOk, columns := AddColumns(objects.cols, otherObjects);
      objects.cols := columns;
      ok := objectsOk;
    }

    /** In place: the columns of the keys, one after another. A failing pop may have removed some. */
    method PopColumns(tensorKeys: seq<string>, objectKeys: seq<string>)
        returns (ok: bool, tensors: map<string, Column<T>>, columns: map<string, Column<T>>)
      modifies batch, objects
      ensures ok <==> DistinctKeysOf(tensorKeys, old(batch.cols)) && DistinctKeysOf(objectKeys, old(objects.cols))
      ensures ok ==> batch.cols == old(batch.cols) - (set k | k in tensorKeys)
      ensures ok ==> objects.cols == old(objects.cols) - (set k | k in objectKeys)
      ensures ok ==> tensors == map k | k in old(batch.cols) && k in tensorKeys :: old(batch.cols)[k]
      ensures ok ==> columns == map k | k in old(objects.cols) && k in objectKeys :: old(objects.cols)[k]
      ensures IsLeft(batch.cols, old(batch.cols), tensorKeys) && IsLeft(objects.cols, old(objects.cols), objectKeys)
    {
      var left: map<string, Column<T>>;
      ok, left, tensors := RemoveKeys(batch.cols, tensorKeys);
      batch.cols := left;
      columns := map[];
      if ok {
        ok, left, columns := RemoveKeys(objects.cols, objectKeys);
        objects.cols := left;
      }
    }

    /** In place. The popped and the remaining columns together are the old batch; the popped ones make a batch on containers
        of its own, when there is a tensor among them. */
    method PopKeys(tensorKeys: seq<string>, objectKeys: seq<string>)
        returns (ok: bool, tensors: map<string, Column<T>>, columns: map<string, Column<T>>, popped: Option<DataProto<T>>)
      requires Valid()
      modifies batch, objects
      ensures Valid()
      ensures ok <==> DistinctKeysOf(tensorKeys, old(batch.cols)) && DistinctKeysOf(objectKeys, old(objects.cols))
      ensures ok ==> Some(View()) == Pop(old(View()), set k | k in tensorKeys, set k | k in objectKeys)
      ensures ok ==> tensors.Keys == (set k | k in tensorKeys) && columns.Keys == (set k | k in objectKeys)
      ensures ok ==> View().(tensors := batch.cols + tensors, objects := objects.cols + columns) == old(View())
      ensures IsLeft(batch.cols, old(batch.cols), tensorKeys) && IsLeft(objects.cols, old(objects.cols), objectKeys)
      ensures popped.Some? <==> ok && tensorKeys != []
      ensures popped.Some? ==> fresh(popped.value) && fresh(popped.value.batch) && fresh(popped.value.objects)
      ensures popped.Some? ==> popped.value.Valid() && popped.value.View() == Table(batch.size, tensors, columns)
    {
      ok, tensors, columns := PopColumns(tensorKeys, objectKeys);
      popped := None;
      if ok && tensorKeys != [] {
        var made := NewBatch(Table(batch.size, tensors, columns));
        popped := Some(made);
      }
    }

    method RenameTo(from: string, to: string) returns (ok: bool)
      requires Valid()
      modifies batch
      ensures Valid()
      ensures ok <==> from in old(batch.cols)
      ensures View() == if ok then Rename(old(View()), from, to).value else old(View())
    {
      ok := from in batch.cols;
      if ok {
        batch.cols := RenameKey(batch.cols, from, to);
      }
    }

    /** In place, but on new containers: nobody else sees the new order. */
    method Reorder(idx: seq<int>) returns (ok: bool)
      requires Valid()
      modifies this
      ensures Valid()
      ensures ok <==> InBounds(idx, old(batch.size))
      ensures ok ==> fresh(batch) && fresh(objects) && View() == Select(old(View()), FromEnd(idx, old(batch.size)))
      ensures !ok ==> batch == old(batch) && objects == old(objects)
    {
      ok := forall i | i in idx :: 0 <= i + batch.size && i < batch.size;
      if ok {
        var t := Select(View(), FromEnd(idx, batch.size));
        batch := new TensorDict(t.size, t.tensors);
        objects := new ObjectDict(t.objects);
      }
    }

    method PadRows(count: nat, first: bool) returns (ok: bool)
      requires Valid()
      modifies this
      ensures Valid()
      ensures ok <==> count == 0 || old(batch.size) > 0
      ensures Padding(old(View()), count, first) == if ok then Some(View()) else None
      ensures count == 0 || !ok ==> batch == old(batch) && objects == old(objects)
      ensures count > 0 && ok ==> fresh(batch) && fresh(objects)
    {
      if count == 0 {
        return true;
      }
      if batch.size == 0 {
        return false;
      }
      PaddingIsSelect(View(), count, first);
      var candidate := Select(View(), CandidateRow(batch.size, first));
      var joined := ConcatAll([View(), Repeat(candidate, count, true)]);
      batch := new TensorDict(joined.value.size, joined.value.tensors);
      objects := new ObjectDict(joined.value.objects);
      ok := true;
    }

    /** A new object, which shares with this one every container that it does not narrow. */
    method SelectColumns(keepTensors: Option<set<string>>, keepObjects: Option<set<string>>) returns (r: Option<DataProto<T>>)
      requires Valid()
      ensures r.Some? <==> Columns(View(), keepTensors, keepObjects).Some?
      ensures r.Some? ==> fresh(r.value) && r.value.Valid()
      ensures r.Some? ==> Some(r.value.View()) == Columns(View(), keepTensors, keepObjects)
      ensures r.Some? ==> if keepTensors == None then r.value.batch == batch else fresh(r.value.batch)
      ensures r.Some? ==> if keepObjects == None then r.value.objects == objects else fresh(r.value.objects)
    {
      var tensors, columns := batch, objects;
      if keepTensors.Some? {
        if !(keepTensors.value <= batch.cols.Keys) {
          return None;
        }
        tensors := new TensorDict(batch.size, Restrict(batch.cols, keepTensors));
      }
      if keepObjects.Some? {
        columns := new ObjectDict(Restrict(objects.cols, keepObjects));
      }
      var selected := new DataProto(tensors, columns);
      r := Some(selected);
    }

    /** A new object that shares nothing: selected rows, a slice, a padded batch, a chunk or a repetition. */
    method Build(op: Op<T>) returns (r: Option<DataProto<T>>)
      requires Valid() && MovesRows(op)
      ensures r.Some? ==> fresh(r.value) && fresh(r.value.batch) && fresh(r.value.objects) && r.value.Valid()
      ensures ApplyOp(op, View()) == if r.Some? then Some(r.value.View()) else None
    {
      var t := MoveRows(op, View());
      if t.None? {
        return None;
      }
      OperationsKeepAlignment(op, View());
      var built := NewBatch(t.value);
      r := Some(built);
    }

    /** A new object that shares nothing. */
    method ConcatWith(other: DataProto<T>) returns (r: Option<DataProto<T>>)
      requires Valid() && other.Valid()
      ensures r.Some? ==> fresh(r.value) && fresh(r.value.batch) && fresh(r.value.objects) && r.value.Valid()
      ensures ConcatTables([View(), other.View()]).Ok? <==> r.Some?
      ensures r.Some? ==> ConcatTables([View(), other.View()]) == Ok(r.value.View())
    {
      var joined := ConcatAll([View(), other.View()]);
      if joined.Err? {
        return None;
      }
      ConcatOkIff([View(), other.View()]);
      var built := NewBatch(joined.value);
      r := Some(built);
    }
  }

  method NewBatch<T(==)>(t: Table<T>) returns (r: DataProto<T>)
    ensures fresh(r) && fresh(r.batch) && fresh(r.objects) && r.View() == t
  {
    var tensors := new TensorDict(t.size, t.tensors);
    var columns := new ObjectDict(t.objects);
    r := new DataProto(tensors, columns);
  }

  /** The operations that build a batch from the rows of one other. */
  method MoveRows<T>(op: Op<T>, t: Table<T>) returns (r: Option<Table<T>>)
    requires t.Aligned() && MovesRows(op)
    ensures r == ApplyOp(op, t)
  {
    r := None;
    match op
    case SelectRows(idx) =>
      if forall i | i in idx :: 0 <= i + t.size && i < t.size {
        r := Some(Select(t, FromEnd(idx, t.size)));
      }
    case SliceRows(start, end, step) => r := SliceAny(t, start, end, step);
    case PadRows(count, first) =>
      if count == 0 {
        r := Some(t);
      } else if t.size > 0 {
        var joined := ConcatAll([t, Repeat(Select(t, CandidateRow(t.size, first)), count, true)]);
        PaddingIsSelect(t, count, first);
        r := Some(joined.value);
      }
    case TakeChunk(n, i) =>
      if n > 0 && i < n && t.size > 0 {
        var chunks := Chunk(t, n);
        if chunks.Some? {
          r := Some(chunks.value[i]);
        }
      }
    case RepeatBatch(times, interleave) => r := Some(Repeat(t, times, interleave));
    case RepeatSamples(counts) =>
      var times := RepeatCounts(counts, t.size);
      if times.Some? {
        r := Some(SampleLevelRepeat(t, times.value));
      }
  }

  // ---------------------------------------------------------------------------------------------
  // Calls that pad their argument
  // ---------------------------------------------------------------------------------------------

  /** One call of n workers with automatic padding. The result is what one worker computes on the batch as it was; the batch
      keeps the pad rows. */
  method CallWithAutoPadding<T(==), U>(data: DataProto<T>, w: Worker<T, U>, n: nat) returns (r: Table<U>)
    requires data.Valid() && n > 0 && data.batch.size > 0
    modifies data
    ensures r == Apply(w, old(data.View()))
    ensures data.Valid() && data.View() == AutoPadded(old(data.View()), n)
  {
    ghost var t := data.View();
    var size := data.batch.size;
    var pad := PadSize(size, n);
    PadReachesDivisor(size, n);
    AutoPaddingIsTransparent(w, t, n);
    PaddingIsSelect(t, pad, false);
    var ok := data.PadRows(pad, false);
    var outputs := RunWorkers(w, Chunk(data.View(), n).value);
    var whole := ConcatAll(outputs);
    r := whole.value;
    if pad > 0 {
      r := Select(r, Range(0, size));
    } else {
      SelectAll(r);
    }
  }

  /** Two calls on one batch: the second returns what the first did only when no rows had to be added, and otherwise the first
      result cannot be united with the batch it was computed from. */
  method CallTwice<T(==)>(data: DataProto<T>, w: Worker<T, T>, n: nat) returns (first: Table<T>, second: Table<T>)
    requires data.Valid() && n > 0 && data.batch.size > 0
    modifies data
    ensures first == Apply(w, old(data.View()))
    ensures first == second <==> Divides(n, old(data.batch.size))
    ensures !Divides(n, old(data.batch.size)) ==> Union(data.View(), first) == None
  {
    ghost var t := data.View();
    first := CallWithAutoPadding(data, w, n);
    second := CallWithAutoPadding(data, w, n);
    SecondCallIsTransparentIff(w, t, n);
  }
}
