/** When the rows of a batch are whole: all its columns follow the same rows of one original batch. Unions of batches that
    come from one original keep rows whole exactly when both took the same rows of it. */
module WholeRows {
  import opened Options
  import opened Tables
  import opened TableOps

  /** All rows and all columns are traced, and the fixed names to themselves. */
  ghost predicate IsWhole(trace: Trace, tensors: set<string>, objects: set<string>, fixed: set<string>) {
    && AllTraced(trace.rows) && trace.tensors.Keys == tensors && trace.objects == objects
    && forall k | k in trace.tensors && k in fixed :: trace.tensors[k] == k
  }

  /** Every row of t is, in all its columns at once, one row of the original; the fixed tensors under their own names. */
  ghost predicate HasWholeRows<T>(original: Table<T>, t: Table<T>, fixed: set<string>) {
    exists trace :: Follows(original, t, trace) && IsWhole(trace, t.tensors.Keys, t.objects.Keys, fixed)
  }

  ghost predicate DistinctEntries<T>(col: Column<T>) {
    forall i, j :: 0 <= i < j < |col| ==> col[i] != col[j]
  }

  // ---------------------------------------------------------------------------------------------
  // Tensors and object columns apart
  // ---------------------------------------------------------------------------------------------

  /** For tensors: for each row the original row it is, if any; for each traced tensor its original name. */
  datatype TensorTrace = TensorTrace(rows: seq<Option<nat>>, names: map<string, string>)

  /** For object columns, which keep their names. */
  datatype ObjectTrace = ObjectTrace(rows: seq<Option<nat>>, kept: set<string>)

  /** Whether rows are known to be whole, and which names of tensors have never been renamed from or to. */
  datatype Mode = Mode(whole: bool, fixed: set<string>)

  ghost predicate Fixes(names: map<string, string>, fixed: set<string>) {
    forall k | k in names && k in fixed :: names[k] == k
  }

  ghost predicate TensorColumnsFollow<T>(original: Table<T>, size: nat, cols: map<string, Column<T>>, trace: TensorTrace,
                                         mode: Mode) {
    && |trace.rows| == size && trace.names.Keys <= cols.Keys
    && (forall k | k in cols :: |cols[k]| == size)
    && (forall k | k in trace.names :: trace.names[k] in original.tensors
         && ColumnFollows(original.tensors[trace.names[k]], cols[k], trace.rows))
    && (mode.whole ==> AllTraced(trace.rows) && trace.names.Keys == cols.Keys && Fixes(trace.names, mode.fixed))
  }

  ghost predicate ObjectColumnsFollow<T>(original: Table<T>, cols: map<string, Column<T>>, trace: ObjectTrace, mode: Mode) {
    && trace.kept <= cols.Keys
    && (forall k | k in cols :: |cols[k]| == |trace.rows|)
    && (forall k | k in trace.kept :: k in original.objects
         && ColumnFollows(original.objects[k], cols[k], trace.rows))
    && (mode.whole ==> AllTraced(trace.rows) && trace.kept == cols.Keys)
  }

  ghost predicate FollowsIn<T>(original: Table<T>, t: Table<T>, trace: Trace, mode: Mode) {
    && Follows(original, t, trace)
    && (mode.whole ==> IsWhole(trace, t.tensors.Keys, t.objects.Keys, mode.fixed))
  }

  lemma FollowsInParts<T>(original: Table<T>, t: Table<T>, trace: Trace, mode: Mode)
    requires original.Aligned()
    ensures FollowsIn(original, t, trace, mode)
            <==> && TensorColumnsFollow(original, t.size, t.tensors, TensorTrace(trace.rows, trace.tensors), mode)
                 && ObjectColumnsFollow(original, t.objects, ObjectTrace(trace.rows, trace.objects), mode)
  {
  }

  // ---------------------------------------------------------------------------------------------
  // Unions of batches of one origin
  // ---------------------------------------------------------------------------------------------

  /** The names of the first batch, and those of the columns only the second has. */
  function UnitedTensors(a: TensorTrace, b: TensorTrace, before: set<string>, after: set<string>): TensorTrace {
    TensorTrace(a.rows, map k | k in after && (k in a.names || (k !in before && k in b.names)) ::
                          if k in a.names then a.names[k] else b.names[k])
  }

  function UnitedObjects(a: ObjectTrace, b: ObjectTrace, before: set<string>, after: set<string>): ObjectTrace {
    ObjectTrace(a.rows, set k | k in after && (k in a.kept || (k !in before && k in b.kept)))
  }

  /** Also an interrupted union of batches with the same rows follows them. */
  lemma TensorUnionFollows<T>(original: Table<T>, size: nat, before: map<string, Column<T>>, other: map<string, Column<T>>,
                              after: map<string, Column<T>>, a: TensorTrace, b: TensorTrace, mode: Mode)
    requires TensorColumnsFollow(original, size, before, a, mode) && TensorColumnsFollow(original, size, other, b, mode)
    requires UnionSoFar(before, other, after) && a.rows == b.rows
    ensures TensorColumnsFollow(original, size, after, UnitedTensors(a, b, before.Keys, after.Keys), mode)
  {
  }

  lemma ObjectUnionFollows<T>(original: Table<T>, before: map<string, Column<T>>, other: map<string, Column<T>>,
                              after: map<string, Column<T>>, a: ObjectTrace, b: ObjectTrace, mode: Mode)
    requires ObjectColumnsFollow(original, before, a, mode) && ObjectColumnsFollow(original, other, b, mode)
    requires UnionSoFar(before, other, after) && a.rows == b.rows
    ensures ObjectColumnsFollow(original, after, UnitedObjects(a, b, before.Keys, after.Keys), mode)
  {
  }

  lemma SameRowsUnite<T>(original: Table<T>, t: Table<T>, u: Table<T>, a: Trace, b: Trace, fixed: set<string>)
    requires FollowsIn(original, t, a, Mode(true, fixed)) && FollowsIn(original, u, b, Mode(true, fixed))
    requires a.rows == b.rows && Union(t, u).Some?
    ensures HasWholeRows(original, Union(t, u).value, fixed)
  {
    var r, mode := Union(t, u).value, Mode(true, fixed);
    FollowsInParts(original, t, a, mode);
    FollowsInParts(original, u, b, mode);
    var tensorsA, tensorsB := TensorTrace(a.rows, a.tensors), TensorTrace(b.rows, b.tensors);
    var objectsA, objectsB := ObjectTrace(a.rows, a.objects), ObjectTrace(b.rows, b.objects);
    var tensors := UnitedTensors(tensorsA, tensorsB, t.tensors.Keys, r.tensors.Keys);
    var objects := UnitedObjects(objectsA, objectsB, t.objects.Keys, r.objects.Keys);
    TensorUnionFollows(original, t.size, t.tensors, u.tensors, r.tensors, tensorsA, tensorsB, mode);
    ObjectUnionFollows(original, t.objects, u.objects, r.objects, objectsA, objectsB, mode);
    var trace := Trace(a.rows, tensors.names, objects.kept);
    FollowsInParts(original, r, trace, mode);
  }

  /** A column with distinct entries tells the rows. */
  lemma ColumnTellsRows<T>(original: Column<T>, col: Column<T>, rowsA: seq<Option<nat>>, rowsB: seq<Option<nat>>)
    requires DistinctEntries(original) && AllTraced(rowsA) && AllTraced(rowsB)
    requires ColumnFollows(original, col, rowsA) && ColumnFollows(original, col, rowsB)
    ensures rowsA == rowsB
  {
    forall j | 0 <= j < |col|
      ensures rowsA[j] == rowsB[j]
    {
      var x, y := rowsA[j].value, rowsB[j].value;
      assert original[x] == original[y];
    }
  }

  /** The guard: if both batches carry a column whose original entries are distinct, such as a uid, their union succeeds only
      when they took the same rows. */
  lemma UnionForcesSameRows<T>(original: Table<T>, t: Table<T>, u: Table<T>, a: Trace, b: Trace, uid: string)
    requires Follows(original, t, a) && Follows(original, u, b) && AllTraced(a.rows) && AllTraced(b.rows)
    requires Union(t, u).Some?
    requires || (uid in a.objects && uid in b.objects && DistinctEntries(original.objects[uid]))
             || (uid in a.tensors && uid in b.tensors && a.tensors[uid] == b.tensors[uid]
                 && DistinctEntries(original.tensors[a.tensors[uid]]))
    ensures a.rows == b.rows
  {
    if uid in a.objects && uid in b.objects && DistinctEntries(original.objects[uid]) {
      ColumnTellsRows(original.objects[uid], t.objects[uid], a.rows, b.rows);
    } else {
      ColumnTellsRows(original.tensors[a.tensors[uid]], t.tensors[uid], a.rows, b.rows);
    }
  }

  // ---------------------------------------------------------------------------------------------
  // The exact condition
  // ---------------------------------------------------------------------------------------------

  /** Some of the columns, and the given rows of them. */
  function Part<T>(t: Table<T>, tensors: set<string>, objects: set<string>, rows: seq<nat>): (part: Table<T>)
    requires t.Aligned() && InRange(rows, t.size)
    ensures part.Aligned() && part.size == |rows|
  {
    Select(Table(t.size, Restrict(t.tensors, Some(tensors)), Restrict(t.objects, Some(objects))), rows)
  }

  /** Whichever columns of whichever original two batches have, with these rows: if they unite, then to whole rows. */
  ghost predicate UnionsAreWhole(n: nat, rowsA: seq<nat>, rowsB: seq<nat>)
    requires InRange(rowsA, n) && InRange(rowsB, n)
  {
    forall original: Table<int>, tensorsA, objectsA, tensorsB, objectsB | original.Aligned() && original.size == n ::
      PartsUniteWhole(original, tensorsA, objectsA, rowsA, tensorsB, objectsB, rowsB)
  }

  ghost predicate PartsUniteWhole<T>(original: Table<T>, tensorsA: set<string>, objectsA: set<string>, rowsA: seq<nat>,
                                     tensorsB: set<string>, objectsB: set<string>, rowsB: seq<nat>)
    requires original.Aligned() && InRange(rowsA, original.size) && InRange(rowsB, original.size)
  {
    var united := Union(Part(original, tensorsA, objectsA, rowsA), Part(original, tensorsB, objectsB, rowsB));
    united.Some? ==> HasWholeRows(original, united.value, original.tensors.Keys)
  }

  function PartTrace<T>(t: Table<T>, tensors: set<string>, objects: set<string>, rows: seq<nat>): Trace {
    Trace(seq(|rows|, i requires 0 <= i < |rows| => Some(rows[i])), map k | k in t.tensors && k in tensors :: k,
          t.objects.Keys * objects)
  }

  lemma PartFollows<T>(t: Table<T>, tensors: set<string>, objects: set<string>, rows: seq<nat>)
    requires t.Aligned() && InRange(rows, t.size)
    ensures var part, trace := Part(t, tensors, objects, rows), PartTrace(t, tensors, objects, rows);
            FollowsIn(t, part, trace, Mode(true, t.tensors.Keys))
  {
  }

  lemma SameRowsUniteParts<T>(original: Table<T>, tensorsA: set<string>, objectsA: set<string>, tensorsB: set<string>,
                              objectsB: set<string>, rows: seq<nat>)
    requires original.Aligned() && InRange(rows, original.size)
    ensures PartsUniteWhole(original, tensorsA, objectsA, rows, tensorsB, objectsB, rows)
  {
    PartFollows(original, tensorsA, objectsA, rows);
    PartFollows(original, tensorsB, objectsB, rows);
    var a, b := Part(original, tensorsA, objectsA, rows), Part(original, tensorsB, objectsB, rows);
    if Union(a, b).Some? {
      SameRowsUnite(original, a, b, PartTrace(original, tensorsA, objectsA, rows),
                    PartTrace(original, tensorsB, objectsB, rows), original.tensors.Keys);
    }
  }

  /** Two columns that number the rows. */
  function Numbered(n: nat): (t: Table<int>)
    ensures t.Aligned() && t.size == n
  {
    var numbers := seq(n, i requires 0 <= i => i as int);
    Table(n, map["a" := numbers, "b" := numbers], map[])
  }

  lemma NumberedPart(n: nat, k: string, rows: seq<nat>)
    requires InRange(rows, n) && (k == "a" || k == "b")
    ensures Part(Numbered(n), {k}, {}, rows) == Table(|rows|, map[k := Pick(Numbered(n).tensors[k], rows)], map[])
  {
    assert Restrict(Numbered(n).tensors, Some({k})) == map[k := Numbered(n).tensors[k]];
    assert Restrict(Numbered(n).objects, Some({})) == map[];
  }

  lemma DifferentRowsTear(n: nat, rowsA: seq<nat>, rowsB: seq<nat>)
    requires InRange(rowsA, n) && InRange(rowsB, n) && |rowsA| == |rowsB| && rowsA != rowsB
    ensures !PartsUniteWhole(Numbered(n), {"a"}, {}, rowsA, {"b"}, {}, rowsB)
  {
    NumberedPart(n, "a", rowsA);
    NumberedPart(n, "b", rowsB);
    var united := Union(Part(Numbered(n), {"a"}, {}, rowsA), Part(Numbered(n), {"b"}, {}, rowsB)).value;
    var j :| 0 <= j < |rowsA| && rowsA[j] != rowsB[j];
    assert united.tensors["a"][j] == rowsA[j] && united.tensors["b"][j] == rowsB[j];
    assert Numbered(n).tensors.Keys == {"a", "b"};
    if HasWholeRows(Numbered(n), united, {"a", "b"}) {
      WholeNumbersAgree(n, united, j);
    }
  }

  lemma WholeNumbersAgree(n: nat, t: Table<int>, j: nat)
    requires HasWholeRows(Numbered(n), t, {"a", "b"}) && "a" in t.tensors && "b" in t.tensors && j < t.size
    ensures |t.tensors["a"]| == |t.tensors["b"]| == t.size && t.tensors["a"][j] == t.tensors["b"][j]
  {
    var trace :| Follows(Numbered(n), t, trace) && IsWhole(trace, t.tensors.Keys, t.objects.Keys, {"a", "b"});
    assert trace.rows[j].Some?;
  }

  /** Exact: batches that took these rows of one original unite to whole rows, whatever the original and the columns, if and
      only if they took the same rows or cannot unite for their sizes. */
  lemma UnionKeepsRowsIff(n: nat, rowsA: seq<nat>, rowsB: seq<nat>)
    requires InRange(rowsA, n) && InRange(rowsB, n)
    ensures UnionsAreWhole(n, rowsA, rowsB) <==> rowsA == rowsB || |rowsA| != |rowsB|
  {
    if rowsA == rowsB {
      forall original: Table<int>, tensorsA, objectsA, tensorsB, objectsB | original.Aligned() && original.size == n
        ensures PartsUniteWhole(original, tensorsA, objectsA, rowsA, tensorsB, objectsB, rowsB)
      {
        SameRowsUniteParts(original, tensorsA, objectsA, tensorsB, objectsB, rowsA);
      }
    } else if |rowsA| == |rowsB| {
      DifferentRowsTear(n, rowsA, rowsB);
    }
  }
}
