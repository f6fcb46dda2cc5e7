/** Many batches that share containers: any sequence of calls, failing or not, keeps every batch aligned; and as long as every
    union is guarded by a uid, every row of every batch stays a whole row of the batch they all come from. */
module SharedBatches {
  import opened Options
  import opened Tables
  import opened TableConcat
  import opened TableOps
  import opened WholeRows
  import opened DataProtos

  // ---------------------------------------------------------------------------------------------
  // Containers that follow an original batch
  // ---------------------------------------------------------------------------------------------

  /** Batches, and the containers they use with their traces. */
  datatype Heap<T> = Heap(protos: set<DataProto<T>>, tensors: map<TensorDict<T>, TensorTrace>,
                          objects: map<ObjectDict<T>, ObjectTrace>)

  ghost predicate TensorsFollow<T>(original: Table<T>, td: TensorDict<T>, trace: TensorTrace, mode: Mode)
    reads td
  {
    TensorColumnsFollow(original, td.size, td.cols, trace, mode)
  }

  ghost predicate ObjectsFollow<T>(original: Table<T>, od: ObjectDict<T>, trace: ObjectTrace, mode: Mode)
    reads od
  {
    ObjectColumnsFollow(original, od.cols, trace, mode)
  }

  function ViewOf<T>(p: Option<DataProto<T>>): Option<Table<T>>
    reads if p.Some? then {p.value, p.value.batch, p.value.objects} else {}
  {
    if p.Some? then Some(p.value.View()) else None
  }

  /** The two containers of a batch follow the same rows. */
  ghost predicate Paired<T>(heap: Heap<T>)
    reads heap.protos
  {
    forall p | p in heap.protos :: p.batch in heap.tensors && p.objects in heap.objects
      && heap.tensors[p.batch].rows == heap.objects[p.objects].rows
  }

  /** Every container follows the original, and the two containers of a batch follow the same rows of it. */
  ghost predicate Coherent<T>(original: Table<T>, heap: Heap<T>, mode: Mode)
    reads heap.protos, heap.tensors.Keys, heap.objects.Keys
  {
    && (forall td | td in heap.tensors :: TensorsFollow(original, td, heap.tensors[td], mode))
    && (forall od | od in heap.objects :: ObjectsFollow(original, od, heap.objects[od], mode))
    && Paired(heap)
  }

  function TraceOf<T>(heap: Heap<T>, p: DataProto<T>): Trace
    requires p.batch in heap.tensors && p.objects in heap.objects
    reads p
  {
    Trace(heap.tensors[p.batch].rows, heap.tensors[p.batch].names, heap.objects[p.objects].kept)
  }

  /** In a coherent heap every batch is aligned and follows the original by the traces of its containers. */
  lemma BatchFollows<T>(original: Table<T>, heap: Heap<T>, mode: Mode, p: DataProto<T>)
    requires original.Aligned() && Coherent(original, heap, mode) && p in heap.protos
    ensures p.Valid() && FollowsIn(original, p.View(), TraceOf(heap, p), mode)
  {
  }

  lemma CoherentAnyway<T>(original: Table<T>, heap: Heap<T>, mode: Mode)
    requires Coherent(original, heap, mode)
    ensures Coherent(original, heap, mode.(whole := false))
  {
  }

  /** One more batch, which follows by the given trace, on containers that are new or have this trace already. */
  function WithBatch<T>(heap: Heap<T>, p: DataProto<T>, trace: Trace): Heap<T>
    reads p
  {
    Heap(heap.protos + {p}, heap.tensors[p.batch := TensorTrace(trace.rows, trace.tensors)],
         heap.objects[p.objects := ObjectTrace(trace.rows, trace.objects)])
  }

  lemma NewBatchIsCoherent<T>(original: Table<T>, heap: Heap<T>, mode: Mode, p: DataProto<T>, trace: Trace)
    requires original.Aligned() && Coherent(original, heap.(protos := heap.protos - {p}), mode)
    requires p.batch in heap.tensors ==> heap.tensors[p.batch] == TensorTrace(trace.rows, trace.tensors)
    requires p.objects in heap.objects ==> heap.objects[p.objects] == ObjectTrace(trace.rows, trace.objects)
    requires FollowsIn(original, p.View(), trace, mode)
    ensures Coherent(original, WithBatch(heap, p, trace), mode)
  {
    FollowsInParts(original, p.View(), trace, mode);
  }

  /** At most the touched batch and its containers are new in the heap, and the batch made, if any, is in it. */
  ghost predicate GrowsBy<T>(heap: Heap<T>, touched: DataProto<T>, made: Option<DataProto<T>>, after: Heap<T>)
    reads touched
  {
    && heap.protos <= after.protos <= heap.protos + {touched}
    && after.tensors.Keys <= heap.tensors.Keys + {touched.batch}
    && after.objects.Keys <= heap.objects.Keys + {touched.objects}
    && (made.Some? ==> made.value in after.protos)
  }

  lemma WithBatchGrows<T>(heap: Heap<T>, p: DataProto<T>, trace: Trace)
    ensures GrowsBy(heap, p, Some(p), WithBatch(heap, p, trace)) && GrowsBy(heap, p, None, WithBatch(heap, p, trace))
  {
  }

  /** With new traces for two containers. */
  ghost function Updated<T>(heap: Heap<T>, batch: TensorDict<T>, columns: ObjectDict<T>, tensors: TensorTrace,
                               objects: ObjectTrace): Heap<T> {
    Heap(heap.protos, heap.tensors[batch := tensors], heap.objects[columns := objects])
  }

  /** All containers but two follow the original. */
  ghost predicate OthersFollow<T>(original: Table<T>, heap: Heap<T>, batch: TensorDict<T>, columns: ObjectDict<T>, mode: Mode)
    reads heap.tensors.Keys, heap.objects.Keys
  {
    && (forall td | td in heap.tensors && td != batch :: TensorsFollow(original, td, heap.tensors[td], mode))
    && (forall od | od in heap.objects && od != columns :: ObjectsFollow(original, od, heap.objects[od], mode))
  }

  lemma UpdatedIsCoherent<T>(original: Table<T>, heap: Heap<T>, mode: Mode, now: Mode, batch: TensorDict<T>,
                             columns: ObjectDict<T>, tensors: TensorTrace, objects: ObjectTrace)
    requires Paired(heap) && OthersFollow(original, heap, batch, columns, mode)
    requires now.fixed == mode.fixed && (now.whole ==> mode.whole)
    requires batch in heap.tensors && tensors.rows == heap.tensors[batch].rows
    requires columns in heap.objects && objects.rows == heap.objects[columns].rows
    requires TensorsFollow(original, batch, tensors, now) && ObjectsFollow(original, columns, objects, now)
    ensures Coherent(original, Updated(heap, batch, columns, tensors, objects), now)
  {
  }

  // ---------------------------------------------------------------------------------------------
  // Union
  // ---------------------------------------------------------------------------------------------

  lemma TensorUnionStaysAligned<T>(original: Table<T>, size: nat, before: map<string, Column<T>>,
                                   other: map<string, Column<T>>, after: map<string, Column<T>>, a: TensorTrace, mode: Mode)
    requires TensorColumnsFollow(original, size, before, a, mode) && UnionSoFar(before, other, after)
    requires after == before || forall k | k in other :: |other[k]| == size
    ensures TensorColumnsFollow(original, size, after, a, mode.(whole := false))
  {
  }

  lemma ObjectUnionStaysAligned<T>(original: Table<T>, before: map<string, Column<T>>, other: map<string, Column<T>>,
                                   after: map<string, Column<T>>, a: ObjectTrace, mode: Mode)
    requires ObjectColumnsFollow(original, before, a, mode) && UnionSoFar(before, other, after)
    requires after == before || forall k | k in other :: |other[k]| == |a.rows|
    ensures ObjectColumnsFollow(original, after, a, mode.(whole := false))
  {
  }

  predicate BothCarry<T>(self: DataProto<T>, other: DataProto<T>, uid: string)
    reads self, self.objects, other, other.objects
  {
    uid in self.objects.cols && uid in other.objects.cols
  }

  /** Both batches carry the uid, and their union succeeds. */
  ghost predicate UnitesByUid<T>(self: DataProto<T>, other: DataProto<T>, uid: string)
    reads self, self.batch, self.objects, other, other.batch, other.objects
  {
    BothCarry(self, other, uid) && Union(self.View(), other.View()).Some?
  }

  ghost predicate TellsRows<T>(original: Table<T>, uid: string) {
    uid in original.objects ==> DistinctEntries(original.objects[uid])
  }

  /** A successful union of whole batches that both carry the uid had the same rows. */
  lemma GuardedUnion<T>(original: Table<T>, t: Table<T>, u: Table<T>, a: Trace, b: Trace, uid: string, mode: Mode)
    requires original.Aligned() && FollowsIn(original, t, a, mode) && FollowsIn(original, u, b, mode)
    requires uid in t.objects && uid in u.objects && Union(t, u).Some?
    ensures mode.whole && TellsRows(original, uid) ==> a.rows == b.rows
  {
    if mode.whole && TellsRows(original, uid) {
      UnionForcesSameRows(original, t, u, a, b, uid);
    }
  }

  lemma UnitedTensorsFollow<T>(original: Table<T>, size: nat, before: map<string, Column<T>>, other: map<string, Column<T>>,
                               after: map<string, Column<T>>, a: TensorTrace, b: TensorTrace, mode: Mode)
    requires TensorColumnsFollow(original, size, before, a, mode) && UnionSoFar(before, other, after)
    requires after == before || TensorColumnsFollow(original, size, other, b, mode)
    requires a.rows == b.rows ==> TensorColumnsFollow(original, size, other, b, mode)
    ensures TensorColumnsFollow(original, size, after,
                                if a.rows == b.rows then UnitedTensors(a, b, before.Keys, after.Keys) else a,
                                mode.(whole := mode.whole && a.rows == b.rows))
  {
    if a.rows == b.rows {
      TensorUnionFollows(original, size, before, other, after, a, b, mode);
    } else {
      TensorUnionStaysAligned(original, size, before, other, after, a, mode);
    }
  }

  lemma UnitedObjectsFollow<T>(original: Table<T>, before: map<string, Column<T>>, other: map<string, Column<T>>,
                               after: map<string, Column<T>>, a: ObjectTrace, b: ObjectTrace, mode: Mode)
    requires ObjectColumnsFollow(original, before, a, mode) && UnionSoFar(before, other, after)
    requires ObjectColumnsFollow(original, other, b, mode) && (after == before || |a.rows| == |b.rows|)
    ensures ObjectColumnsFollow(original, after,
                                if a.rows == b.rows then UnitedObjects(a, b, before.Keys, after.Keys) else a,
                                mode.(whole := mode.whole && a.rows == b.rows))
  {
    if a.rows == b.rows {
      ObjectUnionFollows(original, before, other, after, a, b, mode);
    } else {
      ObjectUnionStaysAligned(original, before, other, after, a, mode);
    }
  }

  /** The union, and whether both batches had the uid and it succeeded. */
  method GuardUnion<T(==)>(self: DataProto<T>, other: DataProto<T>, uid: string, ghost original: Table<T>,
                           ghost a: Trace, ghost b: Trace, ghost mode: Mode)
      returns (guarded: bool)
    requires original.Aligned() && self.Valid() && other.Valid()
    requires FollowsIn(original, self.View(), a, mode) && FollowsIn(original, other.View(), b, mode)
    modifies self.batch, self.objects
    ensures UnionSoFar(old(self.batch.cols), old(other.batch.cols), self.batch.cols)
    ensures UnionSoFar(old(self.objects.cols), old(other.objects.cols), self.objects.cols)
    ensures self.batch.size != other.batch.size ==>
              self.batch.cols == old(self.batch.cols) && self.objects.cols == old(self.objects.cols)
    ensures guarded <==> old(UnitesByUid(self, other, uid))
    ensures Union(old(self.View()), old(other.View())).Some? ==>
              Union(old(self.View()), old(other.View())) == Some(self.View())
    ensures guarded && mode.whole && TellsRows(original, uid) ==> a.rows == b.rows
  {
    ghost var t, u := self.View(), other.View();
    var both := BothCarry(self, other, uid);
    var ok := self.UnionWith(other);
    guarded := ok && both;
    if guarded {
      GuardedUnion(original, t, u, a, b, uid, mode);
    }
  }

  /** In place, also for the batches that share the containers. With the same rows on both sides all rows stay whole, even if
      the union fails halfway; and a union that succeeds on batches that both carry the uid had the same rows. */
  method UnionInPlace<T(==)>(self: DataProto<T>, other: DataProto<T>, uid: string, ghost original: Table<T>,
                             ghost heap: Heap<T>, ghost mode: Mode)
      returns (guarded: bool, ghost tensors: TensorTrace, ghost objects: ObjectTrace, ghost same: bool)
    requires original.Aligned() && Coherent(original, heap, mode) && self in heap.protos && other in heap.protos
    modifies self.batch, self.objects
    ensures tensors.rows == heap.tensors[self.batch].rows && objects.rows == heap.objects[self.objects].rows
    ensures TensorsFollow(original, self.batch, tensors, mode.(whole := mode.whole && same))
    ensures ObjectsFollow(original, self.objects, objects, mode.(whole := mode.whole && same))
    ensures guarded <==> old(UnitesByUid(self, other, uid))
    ensures Union(old(self.View()), old(other.View())).Some? ==>
              Union(old(self.View()), old(other.View())) == Some(self.View())
    ensures guarded && mode.whole && TellsRows(original, uid) ==> same
  {
    BatchFollows(original, heap, mode, self);
    BatchFollows(original, heap, mode, other);
    ghost var t, u := self.View(), other.View();
    ghost var tensorsA, tensorsB := heap.tensors[self.batch], heap.tensors[other.batch];
    ghost var objectsA, objectsB := heap.objects[self.objects], heap.objects[other.objects];
    guarded := GuardUnion(self, other, uid, original, TraceOf(heap, self), TraceOf(heap, other), mode);
    same := tensorsA.rows == tensorsB.rows;
    UnitedTensorsFollow(original, t.size, t.tensors, u.tensors, self.batch.cols, tensorsA, tensorsB, mode);
    UnitedObjectsFollow(original, t.objects, u.objects, self.objects.cols, objectsA, objectsB, mode);
    tensors := if same then UnitedTensors(tensorsA, tensorsB, t.tensors.Keys, self.batch.cols.Keys) else tensorsA;
    objects := if same then UnitedObjects(objectsA, objectsB, t.objects.Keys, self.objects.cols.Keys) else objectsA;
  }

  method PerformUnion<T(==)>(self: DataProto<T>, other: DataProto<T>, uid: string, ghost original: Table<T>,
                             ghost heap: Heap<T>, ghost mode: Mode)
      returns (guarded: bool, ghost after: Heap<T>, ghost same: bool)
    requires original.Aligned() && Coherent(original, heap, mode) && self in heap.protos && other in heap.protos
    modifies self.batch, self.objects
    ensures Coherent(original, after, mode.(whole := mode.whole && same))
    ensures after.protos == heap.protos && after.tensors.Keys == heap.tensors.Keys && after.objects.Keys == heap.objects.Keys
    ensures guarded <==> old(UnitesByUid(self, other, uid))
    ensures Union(old(self.View()), old(other.View())).Some? ==>
              Union(old(self.View()), old(other.View())) == Some(self.View())
    ensures guarded && mode.whole && TellsRows(original, uid) ==> same
  {
    ghost var tensors, objects;
    guarded, tensors, objects, same := UnionInPlace(self, other, uid, original, heap, mode);
    assert OthersFollow(original, heap, self.batch, self.objects, mode);
    UpdatedIsCoherent(original, heap, mode, mode.(whole := mode.whole && same), self.batch, self.objects, tensors, objects);
    after := Updated(heap, self.batch, self.objects, tensors, objects);
  }

  // ---------------------------------------------------------------------------------------------
  // Rename
  // ---------------------------------------------------------------------------------------------

  /** What a renaming does to the names of a container, and so to all batches that share it. */
  function RenamedTrace(trace: TensorTrace, from: string, to: string): TensorTrace {
    trace.(names := if from in trace.names then RenameKey(trace.names, from, to) else trace.names - {to})
  }

  lemma RenameFollows<T>(original: Table<T>, size: nat, cols: map<string, Column<T>>, trace: TensorTrace, from: string,
                         to: string, mode: Mode)
    requires TensorColumnsFollow(original, size, cols, trace, mode) && from in cols
    requires mode.whole ==> from !in mode.fixed && to !in mode.fixed
    ensures TensorColumnsFollow(original, size, RenameKey(cols, from, to), RenamedTrace(trace, from, to), mode)
  {
  }

  method PerformRename<T(==)>(self: DataProto<T>, from: string, to: string, ghost original: Table<T>, ghost heap: Heap<T>,
                              ghost mode: Mode)
      returns (ghost after: Heap<T>)
    requires original.Aligned() && Coherent(original, heap, mode) && self in heap.protos
    requires mode.whole ==> from !in mode.fixed && to !in mode.fixed
    modifies self.batch
    ensures Coherent(original, after, mode)
    ensures self.View() == OrElse(Rename(old(self.View()), from, to), old(self.View()))
    ensures after.protos == heap.protos && after.tensors.Keys == heap.tensors.Keys && after.objects.Keys == heap.objects.Keys
  {
    BatchFollows(original, heap, mode, self);
    ghost var cols, tensors, objects := self.batch.cols, heap.tensors[self.batch], heap.objects[self.objects];
    var ok := self.RenameTo(from, to);
    if ok {
      RenameFollows(original, self.batch.size, cols, tensors, from, to, mode);
      tensors := RenamedTrace(tensors, from, to);
    }
    assert OthersFollow(original, heap, self.batch, self.objects, mode);
    UpdatedIsCoherent(original, heap, mode, mode, self.batch, self.objects, tensors, objects);
    after := Updated(heap, self.batch, self.objects, tensors, objects);
  }

  // ---------------------------------------------------------------------------------------------
  // Pop
  // ---------------------------------------------------------------------------------------------

  /** The traces of the columns that are there. */
  function Among(trace: TensorTrace, keys: set<string>): TensorTrace {
    trace.(names := map k | k in trace.names && k in keys :: trace.names[k])
  }

  function KeptAmong(trace: ObjectTrace, keys: set<string>): ObjectTrace {
    trace.(kept := trace.kept * keys)
  }

  /** Some columns, unchanged. */
  ghost predicate IsPart<T>(part: map<string, Column<T>>, cols: map<string, Column<T>>) {
    part.Keys <= cols.Keys && forall k | k in part :: part[k] == cols[k]
  }

  lemma PartOfTensorsFollows<T>(original: Table<T>, size: nat, cols: map<string, Column<T>>, part: map<string, Column<T>>,
                                trace: TensorTrace, mode: Mode)
    requires TensorColumnsFollow(original, size, cols, trace, mode) && IsPart(part, cols)
    ensures TensorColumnsFollow(original, size, part, Among(trace, part.Keys), mode)
  {
  }

  lemma PartOfObjectsFollows<T>(original: Table<T>, cols: map<string, Column<T>>, part: map<string, Column<T>>,
                                trace: ObjectTrace, mode: Mode)
    requires ObjectColumnsFollow(original, cols, trace, mode) && IsPart(part, cols)
    ensures ObjectColumnsFollow(original, part, KeptAmong(trace, part.Keys), mode)
  {
  }

  function PartTraced(trace: Trace, tensors: set<string>, objects: set<string>): Trace {
    Trace(trace.rows, map k | k in trace.tensors && k in tensors :: trace.tensors[k], trace.objects * objects)
  }

  lemma PartFollowsIn<T>(original: Table<T>, t: Table<T>, trace: Trace, part: Table<T>, mode: Mode)
    requires original.Aligned() && FollowsIn(original, t, trace, mode) && part.size == t.size
    requires IsPart(part.tensors, t.tensors) && IsPart(part.objects, t.objects)
    ensures FollowsIn(original, part, PartTraced(trace, part.tensors.Keys, part.objects.Keys), mode)
  {
  }

  ghost function AfterPop<T>(heap: Heap<T>, batch: TensorDict<T>, columns: ObjectDict<T>): Heap<T>
    requires batch in heap.tensors && columns in heap.objects
    reads batch, columns
  {
    Updated(heap, batch, columns, Among(heap.tensors[batch], batch.cols.Keys),
            KeptAmong(heap.objects[columns], columns.cols.Keys))
  }

  /** A pop of distinct keys that are there moves their columns to a new batch, if a tensor is among them. */
  ghost predicate Popped<T>(tensorKeys: seq<string>, objectKeys: seq<string>, before: Table<T>, after: Table<T>,
                            made: Option<Table<T>>) {
    var ok := DistinctKeysOf(tensorKeys, before.tensors) && DistinctKeysOf(objectKeys, before.objects);
    && (ok ==> Pop(before, set k | k in tensorKeys, set k | k in objectKeys) == Some(after))
    && (made.Some? <==> ok && tensorKeys != [])
    && (made.Some? ==> Union(after, made.value) == Some(before))
  }

  /** In place: what is left, also by a pop that fails halfway, is traced as before, also where the containers are shared; and
      the popped columns keep their traces. */
  method PopInPlace<T(==)>(self: DataProto<T>, tensorKeys: seq<string>, objectKeys: seq<string>,
                           ghost original: Table<T>, ghost heap: Heap<T>, ghost mode: Mode)
      returns (popped: Option<DataProto<T>>, ghost trace: Trace)
    requires original.Aligned() && Coherent(original, heap, mode) && self in heap.protos
    modifies self.batch, self.objects
    ensures TensorsFollow(original, self.batch, Among(heap.tensors[self.batch], self.batch.cols.Keys), mode)
    ensures ObjectsFollow(original, self.objects, KeptAmong(heap.objects[self.objects], self.objects.cols.Keys), mode)
    ensures Popped(tensorKeys, objectKeys, old(self.View()), self.View(), ViewOf(popped))
    ensures popped.Some? ==> fresh(popped.value) && fresh(popped.value.batch) && fresh(popped.value.objects)
    ensures popped.Some? ==> FollowsIn(original, popped.value.View(), trace, mode)
  {
    BatchFollows(original, heap, mode, self);
    ghost var before := self.View();
    trace := TraceOf(heap, self);
    var ok, tensors, objects;
    ok, tensors, objects, popped := self.PopKeys(tensorKeys, objectKeys);
    PartOfTensorsFollows(original, before.size, before.tensors, self.batch.cols, heap.tensors[self.batch], mode);
    PartOfObjectsFollows(original, before.objects, self.objects.cols, heap.objects[self.objects], mode);
    if popped.Some? {
      PartFollowsIn(original, before, trace, popped.value.View(), mode);
      trace := PartTraced(trace, tensors.Keys, objects.Keys);
    }
  }

  ghost function WithPopped<T>(heap: Heap<T>, self: DataProto<T>, popped: Option<DataProto<T>>, trace: Trace): Heap<T>
    requires self.batch in heap.tensors && self.objects in heap.objects
    reads self, self.batch, self.objects, if popped.Some? then {popped.value} else {}
  {
    var left := AfterPop(heap, self.batch, self.objects);
    if popped.None? then left else WithBatch(left, popped.value, trace)
  }

  lemma WithPoppedIsCoherent<T>(original: Table<T>, heap: Heap<T>, mode: Mode, self: DataProto<T>,
                                popped: Option<DataProto<T>>, trace: Trace)
    requires original.Aligned() && self.batch in heap.tensors && self.objects in heap.objects
    requires Coherent(original, AfterPop(heap, self.batch, self.objects), mode)
    requires popped.Some? ==> popped.value !in heap.protos && popped.value.batch !in heap.tensors
    requires popped.Some? ==> popped.value.objects !in heap.objects
    requires popped.Some? ==> FollowsIn(original, popped.value.View(), trace, mode)
    ensures Coherent(original, WithPopped(heap, self, popped, trace), mode)
  {
    if popped.Some? {
      var left := AfterPop(heap, self.batch, self.objects);
      assert left.protos - {popped.value} == left.protos;
      NewBatchIsCoherent(original, left, mode, popped.value, trace);
    }
  }

  lemma WithPoppedGrows<T>(heap: Heap<T>, self: DataProto<T>, popped: Option<DataProto<T>>, trace: Trace)
    requires self.batch in heap.tensors && self.objects in heap.objects && self in heap.protos
    ensures GrowsBy(heap, if popped.Some? then popped.value else self, popped, WithPopped(heap, self, popped, trace))
  {
  }

  method PerformPop<T(==)>(self: DataProto<T>, tensorKeys: seq<string>, objectKeys: seq<string>,
                           ghost original: Table<T>, ghost heap: Heap<T>, ghost mode: Mode)
      returns (popped: Option<DataProto<T>>, ghost after: Heap<T>)
    requires original.Aligned() && Coherent(original, heap, mode) && self in heap.protos
    modifies self.batch, self.objects
    ensures Coherent(original, after, mode)
    ensures Popped(tensorKeys, objectKeys, old(self.View()), self.View(), ViewOf(popped))
    ensures popped.Some? ==> fresh(popped.value) && fresh(popped.value.batch) && fresh(popped.value.objects)
    ensures GrowsBy(heap, if popped.Some? then popped.value else self, popped, after)
  {
    ghost var trace;
    popped, trace := PopInPlace(self, tensorKeys, objectKeys, original, heap, mode);
    assert OthersFollow(original, heap, self.batch, self.objects, mode);
    UpdatedIsCoherent(original, heap, mode, mode, self.batch, self.objects,
                      Among(heap.tensors[self.batch], self.batch.cols.Keys),
                      KeptAmong(heap.objects[self.objects], self.objects.cols.Keys));
    WithPoppedIsCoherent(original, heap, mode, self, popped, trace);
    WithPoppedGrows(heap, self, popped, trace);
    after := WithPopped(heap, self, popped, trace);
  }

  // ---------------------------------------------------------------------------------------------
  // Reorder, padding, and new batches
  // ---------------------------------------------------------------------------------------------

  lemma MovedFollows<T>(original: Table<T>, t: Table<T>, trace: Trace, op: Op<T>, moved: Table<T>, mode: Mode)
    requires original.Aligned() && FollowsIn(original, t, trace, mode) && MovesRows(op) && ApplyOp(op, t) == Some(moved)
    ensures FollowsIn(original, moved, TraceOp(op, trace), mode)
  {
    StepFollows(original, t, trace, op);
    RowsMoveTogether(op, t);
  }

  predicate Rebinds<T>(op: Op<T>) {
    op.SelectRows? || op.PadRows?
  }

  /** `reorder` or `padding`. */
  method Rebind<T(==)>(self: DataProto<T>, op: Op<T>) returns (moved: bool)
    requires self.Valid() && Rebinds(op)
    modifies self
    ensures moved ==> fresh(self.batch) && fresh(self.objects) && ApplyOp(op, old(self.View())) == Some(self.View())
    ensures self.View() == OrElse(ApplyOp(op, old(self.View())), old(self.View()))
    ensures !moved ==> self.batch == old(self.batch) && self.objects == old(self.objects)
  {
    if op.SelectRows? {
      moved := self.Reorder(op.idx);
    } else {
      var ok := self.PadRows(op.count, op.first);
      moved := ok && op.count > 0;
    }
  }

  /** The batch gets containers of its own, and those who shared the old ones keep them. */
  method PerformRebinding<T(==)>(self: DataProto<T>, op: Op<T>, ghost original: Table<T>, ghost heap: Heap<T>,
                                 ghost mode: Mode)
      returns (ghost after: Heap<T>)
    requires original.Aligned() && Coherent(original, heap, mode) && self in heap.protos && Rebinds(op)
    modifies self
    ensures Coherent(original, after, mode)
    ensures self.View() == OrElse(ApplyOp(op, old(self.View())), old(self.View()))
    ensures self.batch == old(self.batch) || fresh(self.batch)
    ensures self.objects == old(self.objects) || fresh(self.objects)
    ensures GrowsBy(heap, self, None, after)
  {
    BatchFollows(original, heap, mode, self);
    ghost var before, trace := self.View(), TraceOf(heap, self);
    var moved := Rebind(self, op);
    after := heap;
    if moved {
      MovedFollows(original, before, trace, op, self.View(), mode);
      NewBatchIsCoherent(original, heap, mode, self, TraceOp(op, trace));
      WithBatchGrows(heap, self, TraceOp(op, trace));
      after := WithBatch(heap, self, TraceOp(op, trace));
    }
  }

  method PerformBuild<T(==)>(self: DataProto<T>, op: Op<T>, ghost original: Table<T>, ghost heap: Heap<T>, ghost mode: Mode)
      returns (built: Option<DataProto<T>>, ghost after: Heap<T>)
    requires original.Aligned() && Coherent(original, heap, mode) && self in heap.protos && MovesRows(op)
    ensures Coherent(original, after, mode)
    ensures ApplyOp(op, self.View()) == ViewOf(built)
    ensures built.Some? ==> fresh(built.value) && fresh(built.value.batch) && fresh(built.value.objects)
    ensures GrowsBy(heap, if built.Some? then built.value else self, built, after)
  {
    BatchFollows(original, heap, mode, self);
    built := self.Build(op);
    after := heap;
    if built.Some? {
      ghost var trace := TraceOp(op, TraceOf(heap, self));
      MovedFollows(original, self.View(), TraceOf(heap, self), op, built.value.View(), mode);
      NewBatchIsCoherent(original, heap, mode, built.value, trace);
      WithBatchGrows(heap, built.value, trace);
      after := WithBatch(heap, built.value, trace);
    }
  }

  function NarrowedTrace(trace: Trace, keepTensors: Option<set<string>>, keepObjects: Option<set<string>>): Trace {
    Trace(trace.rows, Restrict(trace.tensors, keepTensors),
          if keepObjects.Some? then trace.objects * keepObjects.value else trace.objects)
  }

  lemma NarrowedFollows<T>(original: Table<T>, t: Table<T>, trace: Trace, keepTensors: Option<set<string>>,
                           keepObjects: Option<set<string>>, narrowed: Table<T>, mode: Mode)
    requires FollowsIn(original, t, trace, mode) && Columns(t, keepTensors, keepObjects) == Some(narrowed)
    ensures FollowsIn(original, narrowed, NarrowedTrace(trace, keepTensors, keepObjects), mode)
  {
    StepFollows(original, t, trace, SelectColumns(keepTensors, keepObjects));
  }

  /** The new batch shares the containers it does not narrow; their traces are the same. */
  method PerformSelect<T(==)>(self: DataProto<T>, keepTensors: Option<set<string>>, keepObjects: Option<set<string>>,
                              ghost original: Table<T>, ghost heap: Heap<T>, ghost mode: Mode)
      returns (selected: Option<DataProto<T>>, ghost after: Heap<T>)
    requires original.Aligned() && Coherent(original, heap, mode) && self in heap.protos
    ensures Coherent(original, after, mode)
    ensures Columns(self.View(), keepTensors, keepObjects) == ViewOf(selected)
    ensures selected.Some? ==> fresh(selected.value)
    ensures selected.Some? ==> selected.value.batch == self.batch || fresh(selected.value.batch)
    ensures selected.Some? ==> selected.value.objects == self.objects || fresh(selected.value.objects)
    ensures GrowsBy(heap, if selected.Some? then selected.value else self, selected, after)
  {
    BatchFollows(original, heap, mode, self);
    selected := self.SelectColumns(keepTensors, keepObjects);
    after := heap;
    if selected.Some? {
      ghost var trace := NarrowedTrace(TraceOf(heap, self), keepTensors, keepObjects);
      NarrowedFollows(original, self.View(), TraceOf(heap, self), keepTensors, keepObjects, selected.value.View(), mode);
      NewBatchIsCoherent(original, heap, mode, selected.value, trace);
      WithBatchGrows(heap, selected.value, trace);
      after := WithBatch(heap, selected.value, trace);
    }
  }

  // ---------------------------------------------------------------------------------------------
  // Concat
  // ---------------------------------------------------------------------------------------------

  /** The rows of both, and the columns traced alike in both; a second batch without rows adds nothing. */
  function JoinedTrace(a: Trace, b: Trace): Trace {
    Trace(a.rows + b.rows, map k | k in a.tensors && k in b.tensors && a.tensors[k] == b.tensors[k] :: a.tensors[k],
          if b.rows == [] then a.objects else a.objects * b.objects)
  }

  lemma JoinedColumnFollows<T>(original: Column<T>, a: Column<T>, b: Column<T>, rowsA: seq<Option<nat>>,
                               rowsB: seq<Option<nat>>)
    requires ColumnFollows(original, a, rowsA) && ColumnFollows(original, b, rowsB)
    ensures ColumnFollows(original, a + b, rowsA + rowsB)
  {
  }

  lemma JoinedTensor<T>(t: Table<T>, u: Table<T>, k: string)
    requires ConcatTables([t, u]).Ok? && k in t.tensors && k in u.tensors
    ensures ConcatTables([t, u]).value.tensors[k] == t.tensors[k] + u.tensors[k]
  {
    assert TensorsOf([t, u]) == [t.tensors, u.tensors];
    JoinTwo(t.tensors, u.tensors, k);
  }

  lemma JoinedObject<T>(t: Table<T>, u: Table<T>, k: string)
    requires ConcatTables([t, u]).Ok? && k in t.objects
    ensures ConcatTables([t, u]).value.objects[k] == t.objects[k] + if k in u.objects then u.objects[k] else []
  {
    assert ObjectsOf([t, u]) == [t.objects, u.objects];
    JoinTwo(t.objects, u.objects, k);
  }

  lemma JoinedFollows<T>(original: Table<T>, t: Table<T>, u: Table<T>, a: Trace, b: Trace, joined: Table<T>)
    requires Follows(original, t, a) && Follows(original, u, b) && ConcatTables([t, u]) == Ok(joined)
    ensures Follows(original, joined, JoinedTrace(a, b))
  {
    ConcatExtends(t, u);
    var trace := JoinedTrace(a, b);
    forall k | k in trace.tensors
      ensures ColumnFollows(original.tensors[trace.tensors[k]], joined.tensors[k], trace.rows)
    {
      JoinedTensor(t, u, k);
      JoinedColumnFollows(original.tensors[a.tensors[k]], t.tensors[k], u.tensors[k], a.rows, b.rows);
    }
    forall k | k in trace.objects
      ensures ColumnFollows(original.objects[k], joined.objects[k], trace.rows)
    {
      JoinedObject(t, u, k);
      JoinedColumnFollows(original.objects[k], t.objects[k], if k in u.objects then u.objects[k] else [], a.rows, b.rows);
    }
  }

  ghost predicate NamedAlike(a: map<string, string>, b: map<string, string>) {
    forall k | k in a && k in b :: a[k] == b[k]
  }

  /** The names of both are fixed: a check the caller can make before a concatenation. */
  lemma FixedNamesAgree(a: map<string, string>, b: map<string, string>, fixed: set<string>)
    requires Fixes(a, fixed) && Fixes(b, fixed) && a.Keys <= fixed
    ensures NamedAlike(a, b)
  {
  }

  lemma JoinedIsWhole<T>(t: Table<T>, u: Table<T>, a: Trace, b: Trace, joined: Table<T>, fixed: set<string>)
    requires t.Aligned() && u.Aligned() && ConcatTables([t, u]) == Ok(joined) && |b.rows| == u.size
    requires IsWhole(a, t.tensors.Keys, t.objects.Keys, fixed) && IsWhole(b, u.tensors.Keys, u.objects.Keys, fixed)
    requires NamedAlike(a.tensors, b.tensors)
    ensures IsWhole(JoinedTrace(a, b), joined.tensors.Keys, joined.objects.Keys, fixed)
  {
    ConcatExtends(t, u);
    ConcatOkIff([t, u]);
    assert u in [t, u] && [t, u][0] == t;
  }

  ghost predicate Concatenated<T>(t: Table<T>, other: Table<T>, made: Option<Table<T>>) {
    var r := ConcatTables([t, other]);
    (made.Some? <==> r.Ok?) && (made.Some? ==> r == Ok(made.value))
  }

  predicate HasFixedNames<T>(p: DataProto<T>, fixed: set<string>)
    reads p, p.batch
  {
    p.batch.cols.Keys <= fixed
  }

  method PerformConcat<T(==)>(self: DataProto<T>, other: DataProto<T>, fixed: set<string>, ghost original: Table<T>,
                              ghost heap: Heap<T>, ghost mode: Mode)
      returns (built: Option<DataProto<T>>, guarded: bool, ghost after: Heap<T>, ghost alike: bool)
    requires original.Aligned() && Coherent(original, heap, mode) && self in heap.protos && other in heap.protos
    requires mode.fixed == fixed
    ensures Coherent(original, after, mode.(whole := mode.whole && alike))
    ensures guarded <==> old(HasFixedNames(self, fixed))
    ensures Concatenated(self.View(), other.View(), ViewOf(built))
    ensures guarded && mode.whole ==> alike
    ensures built.Some? ==> fresh(built.value) && fresh(built.value.batch) && fresh(built.value.objects)
    ensures GrowsBy(heap, if built.Some? then built.value else self, built, after)
  {
    BatchFollows(original, heap, mode, self);
    BatchFollows(original, heap, mode, other);
    ghost var a, b := TraceOf(heap, self), TraceOf(heap, other);
    guarded := HasFixedNames(self, fixed);
    alike := NamedAlike(a.tensors, b.tensors);
    if guarded && mode.whole {
      FixedNamesAgree(a.tensors, b.tensors, fixed);
    }
    built := self.ConcatWith(other);
    after := heap;
    ghost var now := mode.(whole := mode.whole && alike);
    if !now.whole {
      CoherentAnyway(original, heap, mode);
    }
    if built.Some? {
      ghost var trace := JoinedTrace(a, b);
      JoinedFollows(original, self.View(), other.View(), a, b, built.value.View());
      if now.whole {
        JoinedIsWhole(self.View(), other.View(), a, b, built.value.View(), fixed);
      }
      NewBatchIsCoherent(original, heap, now, built.value, trace);
      WithBatchGrows(heap, built.value, trace);
      after := WithBatch(heap, built.value, trace);
    }
  }

  // ---------------------------------------------------------------------------------------------
  // Any sequence of calls
  // ---------------------------------------------------------------------------------------------

  /** A call on the batches there are, named by their position. */
  datatype Call<T> =
    | CallUnion(self: nat, other: nat)
    | CallPop(self: nat, tensorKeys: seq<string>, objectKeys: seq<string>)
    | CallRename(self: nat, from: string, to: string)
    | CallReorder(self: nat, idx: seq<int>)
    | CallPadding(self: nat, count: nat, first: bool)
    | CallSelect(self: nat, keepTensors: Option<set<string>>, keepObjects: Option<set<string>>)
    | CallBuild(self: nat, op: Op<T>)
    | CallConcat(self: nat, other: nat)

  /** What the calls are checked against: the uid that unions compare, and the names that renaming must not touch. */
  datatype Guards = Guards(uid: string, fixed: set<string>)

  /** What a call does: before and after are the batch it is made on, made is the new batch it returns, if any. A union or pop
      that fails may have done a part. */
  ghost predicate Performed<T>(call: Call<T>, before: Table<T>, other: Table<T>, after: Table<T>, made: Option<Table<T>>)
    requires before.Aligned()
  {
    match call
    case CallUnion(_, _) => made == None && (Union(before, other).Some? ==> Union(before, other) == Some(after))
    case CallPop(_, tensorKeys, objectKeys) => Popped(tensorKeys, objectKeys, before, after, made)
    case CallRename(_, from, to) => made == None && after == OrElse(Rename(before, from, to), before)
    case CallReorder(_, idx) => made == None && after == OrElse(ApplyOp(SelectRows(idx), before), before)
    case CallPadding(_, count, first) => made == None && after == OrElse(ApplyOp(PadRows(count, first), before), before)
    case CallSelect(_, keepTensors, keepObjects) => after == before && made == Columns(before, keepTensors, keepObjects)
    case CallBuild(_, op) => after == before && made == if MovesRows(op) then ApplyOp(op, before) else None
    case CallConcat(_, _) => after == before && Concatenated(before, other, made)
  }

  /** Calls that no state makes unguarded. */
  predicate NeedsNoGuard<T>(call: Call<T>, guards: Guards) {
    !call.CallUnion? && !call.CallConcat? && (call.CallRename? ==> call.from !in guards.fixed && call.to !in guards.fixed)
  }

  /** What a caller can check: it holds of every call but a union that fails or whose batches do not both carry the uid, a
      renaming that touches a fixed name, and a concatenation of batches with a tensor whose name is not fixed. */
  ghost predicate GuardHolds<T>(self: DataProto<T>, other: DataProto<T>, call: Call<T>, guards: Guards)
    reads self, self.batch, self.objects, other, other.batch, other.objects
  {
    && (call.CallUnion? ==> UnitesByUid(self, other, guards.uid))
    && (call.CallRename? ==> call.from !in guards.fixed && call.to !in guards.fixed)
    && (call.CallConcat? ==> HasFixedNames(self, guards.fixed))
  }

  lemma ContainersInHeap<T>(original: Table<T>, heap: Heap<T>, mode: Mode, p: DataProto<T>)
    requires Coherent(original, heap, mode) && p in heap.protos
    ensures p.batch in heap.tensors && p.objects in heap.objects
  {
  }

  /** The calls that need no guard. */
  method PerformFree<T(==)>(self: DataProto<T>, call: Call<T>, ghost original: Table<T>, ghost heap: Heap<T>, ghost mode: Mode)
      returns (made: Option<DataProto<T>>, ghost after: Heap<T>, ghost touched: DataProto<T>)
    requires original.Aligned() && Coherent(original, heap, mode) && self in heap.protos
    requires !call.CallUnion? && !call.CallRename? && !call.CallConcat?
    modifies self, self.batch, self.objects
    ensures Coherent(original, after, mode) && GrowsBy(heap, touched, made, after)
    ensures Performed(call, old(self.View()), old(self.View()), self.View(), ViewOf(made))
    ensures touched in heap.protos || fresh(touched)
    ensures touched.batch in heap.tensors || fresh(touched.batch)
    ensures touched.objects in heap.objects || fresh(touched.objects)
  {
    made, after := None, heap;
    match call {
      case CallPop(_, tensorKeys, objectKeys) =>
        made, after := PerformPop(self, tensorKeys, objectKeys, original, heap, mode);
      case CallReorder(_, idx) => after := PerformRebinding(self, SelectRows(idx), original, heap, mode);
      case CallPadding(_, count, first) => after := PerformRebinding(self, PadRows(count, first), original, heap, mode);
      case CallSelect(_, keepTensors, keepObjects) =>
        made, after := PerformSelect(self, keepTensors, keepObjects, original, heap, mode);
      case CallBuild(_, op) =>
        if MovesRows(op) {
          made, after := PerformBuild(self, op, original, heap, mode);
        }
    }
    touched := if made.Some? then made.value else self;
  }

  method PerformUnionCall<T(==)>(self: DataProto<T>, other: DataProto<T>, call: Call<T>, guards: Guards,
                                 ghost original: Table<T>, ghost heap: Heap<T>, ghost mode: Mode)
      returns (guarded: bool, ghost after: Heap<T>, ghost now: Mode)
    requires original.Aligned() && Coherent(original, heap, mode) && self in heap.protos && other in heap.protos
    requires mode.fixed == guards.fixed && call.CallUnion?
    modifies self.batch, self.objects
    ensures Coherent(original, after, now) && now.fixed == mode.fixed && GrowsBy(heap, self, None, after)
    ensures Performed(call, old(self.View()), old(other.View()), self.View(), None)
    ensures guarded <==> old(GuardHolds(self, other, call, guards))
    ensures guarded && mode.whole && TellsRows(original, guards.uid) ==> now.whole
  {
    assert GuardHolds(self, other, call, guards) <==> UnitesByUid(self, other, guards.uid);
    ghost var same;
    guarded, after, same := PerformUnion(self, other, guards.uid, original, heap, mode);
    now := mode.(whole := mode.whole && same);
  }

  method PerformRenameCall<T(==)>(self: DataProto<T>, other: DataProto<T>, call: Call<T>, guards: Guards,
                                  ghost original: Table<T>, ghost heap: Heap<T>, ghost mode: Mode)
      returns (guarded: bool, ghost after: Heap<T>, ghost now: Mode)
    requires original.Aligned() && Coherent(original, heap, mode) && self in heap.protos && other in heap.protos
    requires mode.fixed == guards.fixed && call.CallRename?
    modifies self.batch, self.objects
    ensures Coherent(original, after, now) && now.fixed == mode.fixed && GrowsBy(heap, self, None, after)
    ensures Performed(call, old(self.View()), old(other.View()), self.View(), None)
    ensures guarded <==> old(GuardHolds(self, other, call, guards))
    ensures guarded && mode.whole && TellsRows(original, guards.uid) ==> now.whole
  {
    guarded := call.from !in guards.fixed && call.to !in guards.fixed;
    now := mode.(whole := mode.whole && guarded);
    CoherentAnyway(original, heap, mode);
    after := PerformRename(self, call.from, call.to, original, heap, now);
  }

  method PerformConcatCall<T(==)>(self: DataProto<T>, other: DataProto<T>, call: Call<T>, guards: Guards,
                                  ghost original: Table<T>, ghost heap: Heap<T>, ghost mode: Mode)
      returns (made: Option<DataProto<T>>, guarded: bool, ghost after: Heap<T>, ghost now: Mode)
    requires original.Aligned() && Coherent(original, heap, mode) && self in heap.protos && other in heap.protos
    requires mode.fixed == guards.fixed && call.CallConcat?
    ensures Coherent(original, after, now) && now.fixed == mode.fixed
    ensures GrowsBy(heap, if made.Some? then made.value else self, made, after)
    ensures Performed(call, old(self.View()), old(other.View()), self.View(), ViewOf(made))
    ensures guarded <==> old(GuardHolds(self, other, call, guards))
    ensures guarded && mode.whole && TellsRows(original, guards.uid) ==> now.whole
    ensures made.Some? ==> fresh(made.value) && fresh(made.value.batch) && fresh(made.value.objects)
  {
    ghost var alike;
    made, guarded, after, alike := PerformConcat(self, other, guards.fixed, original, heap, mode);
    now := mode.(whole := mode.whole && alike);
  }

  /** One call on a batch, with another where it takes one. */
  method PerformOne<T(==)>(self: DataProto<T>, other: DataProto<T>, call: Call<T>, guards: Guards,
                           ghost original: Table<T>, ghost heap: Heap<T>, ghost mode: Mode)
      returns (made: Option<DataProto<T>>, guarded: bool, ghost after: Heap<T>, ghost touched: DataProto<T>, ghost now: Mode)
    requires original.Aligned() && Coherent(original, heap, mode) && self in heap.protos && other in heap.protos
    requires mode.fixed == guards.fixed
    modifies self, self.batch, self.objects
    ensures Coherent(original, after, now) && GrowsBy(heap, touched, made, after) && now.fixed == mode.fixed
    ensures Performed(call, old(self.View()), old(other.View()), self.View(), ViewOf(made))
    ensures guarded <==> old(GuardHolds(self, other, call, guards))
    ensures guarded && mode.whole && TellsRows(original, guards.uid) ==> now.whole
    ensures touched in heap.protos || fresh(touched)
    ensures touched.batch in heap.tensors || fresh(touched.batch)
    ensures touched.objects in heap.objects || fresh(touched.objects)
  {
    ContainersInHeap(original, heap, mode, self);
    made, guarded, touched, now := None, true, self, mode;
    if call.CallUnion? {
      guarded, after, now := PerformUnionCall(self, other, call, guards, original, heap, mode);
    } else if call.CallRename? {
      guarded, after, now := PerformRenameCall(self, other, call, guards, original, heap, mode);
    } else if call.CallConcat? {
      made, guarded, after, now := PerformConcatCall(self, other, call, guards, original, heap, mode);
      touched := if made.Some? then made.value else self;
    } else {
      made, after, touched := PerformFree(self, call, original, heap, mode);
    }
  }

  ghost predicate AllIn<T>(protos: seq<DataProto<T>>, all: set<DataProto<T>>) {
    forall i :: 0 <= i < |protos| ==> protos[i] in all
  }

  lemma AllInGrown<T>(protos: seq<DataProto<T>>, heap: Heap<T>, touched: DataProto<T>, made: Option<DataProto<T>>,
                      after: Heap<T>)
    requires AllIn(protos, heap.protos) && GrowsBy(heap, touched, made, after)
    ensures AllIn(if made.Some? then protos + [made.value] else protos, after.protos)
  {
  }

  /** All batches and containers of the heap are in repr. */
  ghost predicate InRepr<T>(heap: Heap<T>, repr: set<object>) {
    && (forall p | p in heap.protos :: p in repr)
    && (forall td | td in heap.tensors :: td in repr)
    && (forall od | od in heap.objects :: od in repr)
  }

  ghost function WithParts<T>(repr: set<object>, p: DataProto<T>): set<object>
    reads p
  {
    repr + {p, p.batch, p.objects}
  }

  lemma NewPart<T>(repr: set<object>, p: DataProto<T>, o: object)
    requires o in WithParts(repr, p) && o !in repr
    ensures o == p || o == p.batch || o == p.objects
  {
  }

  lemma ReprGrows<T>(heap: Heap<T>, after: Heap<T>, touched: DataProto<T>, made: Option<DataProto<T>>, repr: set<object>)
    requires InRepr(heap, repr) && GrowsBy(heap, touched, made, after)
    ensures InRepr(after, WithParts(repr, touched))
  {
  }

  method PerformAt<T(==)>(start: seq<DataProto<T>>, call: Call<T>, guards: Guards, ghost original: Table<T>,
                          ghost heap: Heap<T>, ghost mode: Mode, ghost repr: set<object>)
      returns (protos: seq<DataProto<T>>, guarded: bool, ghost after: Heap<T>, ghost now: Mode, ghost more: set<object>)
    requires original.Aligned() && Coherent(original, heap, mode) && AllIn(start, heap.protos)
    requires mode.fixed == guards.fixed && InRepr(heap, repr)
    modifies repr
    ensures start <= protos && Coherent(original, after, now) && AllIn(protos, after.protos) && now.fixed == mode.fixed
    ensures NeedsNoGuard(call, guards) ==> guarded
    ensures guarded && mode.whole && TellsRows(original, guards.uid) ==> now.whole
    ensures InRepr(after, more) && forall o | o in more && o !in repr :: fresh(o)
  {
    protos, guarded, after, now, more := start, true, heap, mode, repr;
    if call.self < |start| {
      var self := start[call.self];
      var other := if (call.CallUnion? || call.CallConcat?) && call.other < |start| then start[call.other] else self;
      ghost var touched;
      var made;
      ContainersInHeap(original, heap, mode, self);
      made, guarded, after, touched, now := PerformOne(self, other, call, guards, original, heap, mode);
      AllInGrown(start, heap, touched, made, after);
      ReprGrows(heap, after, touched, made, repr);
      protos := if made.Some? then start + [made.value] else start;
      more := WithParts(repr, touched);
      forall o | o in more && o !in repr
        ensures fresh(o)
      {
        NewPart(repr, touched, o);
      }
    }
  }

  /** Any sequence of calls, any of which may fail halfway, keeps every container following the original, also those shared
      with a target; and rows stay whole as long as the guard of every call holds. */
  method PerformAll<T(==)>(start: seq<DataProto<T>>, calls: seq<Call<T>>, guards: Guards, ghost original: Table<T>,
                           ghost heap: Heap<T>, ghost mode: Mode, ghost repr: set<object>)
      returns (protos: seq<DataProto<T>>, guarded: bool, ghost after: Heap<T>, ghost now: Mode)
    requires original.Aligned() && Coherent(original, heap, mode) && AllIn(start, heap.protos)
    requires mode.fixed == guards.fixed && InRepr(heap, repr)
    modifies repr
    ensures start <= protos && Coherent(original, after, now) && AllIn(protos, after.protos) && now.fixed == mode.fixed
    ensures (forall call | call in calls :: NeedsNoGuard(call, guards)) ==> guarded
    ensures guarded && mode.whole && TellsRows(original, guards.uid) ==> now.whole
  {
    protos, guarded, after, now := start, true, heap, mode;
    ghost var reached := repr;
    for n := 0 to |calls|
      invariant start <= protos && Coherent(original, after, now) && AllIn(protos, after.protos) && now.fixed == mode.fixed
      invariant (forall call | call in calls[..n] :: NeedsNoGuard(call, guards)) ==> guarded
      invariant guarded && mode.whole && TellsRows(original, guards.uid) ==> now.whole
      invariant InRepr(after, reached) && forall o | o in reached && o !in repr :: fresh(o)
    {
      assert calls[..n + 1] == calls[..n] + [calls[n]];
      var holds;
      protos, holds, after, now, reached := PerformAt(protos, calls[n], guards, original, after, now, reached);
      guarded := guarded && holds;
    }
    assert calls[..|calls|] == calls;
  }

  /** The heap of one batch, which follows itself. */
  function OneBatch<T>(p: DataProto<T>): Heap<T>
    reads p, p.batch, p.objects
  {
    WithBatch(Heap({}, map[], map[]), p, Untouched(p.View()))
  }

  lemma OneBatchIsCoherent<T>(p: DataProto<T>, fixed: set<string>)
    requires p.Valid()
    ensures Coherent(p.View(), OneBatch(p), Mode(true, fixed))
  {
  }

  /** Whatever is done to one batch and to the batches made from it, all of them stay aligned. And if the guard of every call
      held, with the uids of the batch distinct, then every row of every one of them is, in all its columns at once, a whole
      row of the batch they come from, the fixed tensors under their own names. */
  method PerformFromOne<T(==)>(p: DataProto<T>, calls: seq<Call<T>>, guards: Guards)
      returns (protos: seq<DataProto<T>>, guarded: bool)
    requires p.Valid()
    modifies p, p.batch, p.objects
    ensures [p] <= protos && forall i :: 0 <= i < |protos| ==> protos[i].Valid()
    ensures (forall call | call in calls :: NeedsNoGuard(call, guards)) ==> guarded
    ensures guarded && TellsRows(old(p.View()), guards.uid) ==>
              forall i :: 0 <= i < |protos| ==> HasWholeRows(old(p.View()), protos[i].View(), guards.fixed)
  {
    ghost var original, heap, mode := p.View(), OneBatch(p), Mode(true, guards.fixed);
    OneBatchIsCoherent(p, guards.fixed);
    ghost var after, now;
    protos, guarded, after, now := PerformAll([p], calls, guards, original, heap, mode, {p, p.batch, p.objects});
    forall i | 0 <= i < |protos|
      ensures protos[i].Valid()
      ensures now.whole ==> HasWholeRows(original, protos[i].View(), guards.fixed)
    {
      BatchFollows(original, after, now, protos[i]);
    }
  }
}
