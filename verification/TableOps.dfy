/** The operations on a batch as one language, and what any program in it keeps. */
module TableOps {
  import opened Options
  import opened Arithmetic
  import opened Sequences
  import opened Tables
  import opened TableConcat
  import opened Dispatch

  // ---------------------------------------------------------------------------------------------
  // Column operations
  // ---------------------------------------------------------------------------------------------

  /** No key has two different columns. */
  ghost predicate Compatible<T>(a: map<string, Column<T>>, b: map<string, Column<T>>) {
    forall k | k in a && k in b :: a[k] == b[k]
  }

  /** What an interrupted union leaves: some of the new columns, and none of the old ones changed. */
  ghost predicate UnionSoFar<T>(before: map<string, Column<T>>, other: map<string, Column<T>>, after: map<string, Column<T>>) {
    && before.Keys <= after.Keys <= before.Keys + other.Keys
    && (forall k | k in before :: after[k] == before[k])
    && (forall k | k in after && k !in before :: after[k] == other[k])
  }

  /** `union`: equal sizes and no conflicting column. */
  ghost function Union<T>(t: Table<T>, other: Table<T>): Option<Table<T>> {
    if t.size == other.size && Compatible(t.tensors, other.tensors) && Compatible(t.objects, other.objects)
    then Some(Table(t.size, t.tensors + other.tensors, t.objects + other.objects))
    else None
  }

  function Pop<T>(t: Table<T>, tensors: set<string>, objects: set<string>): Option<Table<T>> {
    if tensors <= t.tensors.Keys && objects <= t.objects.Keys
    then Some(Table(t.size, t.tensors - tensors, t.objects - objects))
    else None
  }

  /** A tensor under a new name replaces whatever had that name. */
  function RenameKey<V>(m: map<string, V>, from: string, to: string): map<string, V>
    requires from in m
  {
    (m - {from})[to := m[from]]
  }

  function Rename<T>(t: Table<T>, from: string, to: string): Option<Table<T>> {
    if from in t.tensors then Some(t.(tensors := RenameKey(t.tensors, from, to))) else None
  }

  function Restrict<V>(m: map<string, V>, keys: Option<set<string>>): map<string, V> {
    if keys.Some? then map k | k in m && k in keys.value :: m[k] else m
  }

  /** `select`: a missing tensor is an error, a missing object column is not. */
  function Columns<T>(t: Table<T>, tensors: Option<set<string>>, objects: Option<set<string>>): Option<Table<T>> {
    if tensors.Some? && !(tensors.value <= t.tensors.Keys) then None
    else Some(Table(t.size, Restrict(t.tensors, tensors), Restrict(t.objects, objects)))
  }

  // ---------------------------------------------------------------------------------------------
  // Row operations
  // ---------------------------------------------------------------------------------------------

  /** Tensors and arrays both count a negative index from the end, and both reject one that is out of range. */
  ghost predicate InBounds(idx: seq<int>, n: nat) {
    forall i | i in idx :: 0 <= i + n && i < n
  }

  function FromEnd(idx: seq<int>, n: nat): (rows: seq<nat>)
    requires InBounds(idx, n)
    ensures |rows| == |idx| && InRange(rows, n)
    ensures forall i :: 0 <= i < |idx| ==> rows[i] == if idx[i] < 0 then idx[i] + n else idx[i]
  {
    assert forall i :: 0 <= i < |idx| ==> idx[i] in idx;
    seq(|idx|, i requires 0 <= i < |idx| => if idx[i] < 0 then idx[i] + n else idx[i])
  }

  /** One count per row. A single count is spread over all rows of the columns, but the size of the result is the sum of the
      counts given, so on several rows only the count zero fits. */
  function RepeatCounts(times: seq<nat>, size: nat): Option<seq<nat>> {
    if |times| == size then Some(times)
    else if times == [0] then Some(Copies(0, size))
    else None
  }

  datatype Op<T> =
    | UnionWith(other: Table<T>)
    | PopKeys(tensors: set<string>, objects: set<string>)
    | RenameTo(from: string, to: string)
    | SelectColumns(keepTensors: Option<set<string>>, keepObjects: Option<set<string>>)
    | SelectRows(idx: seq<int>)
    | SliceRows(start: Option<int>, end: Option<int>, step: Option<int>)
    | PadRows(count: nat, first: bool)
    | TakeChunk(n: nat, i: nat)
    | RepeatBatch(times: nat, interleave: bool)
    | RepeatSamples(counts: seq<nat>)
    | ConcatWith(other: Table<T>)

  /** The batch after one operation, or None when the operation raises. */
  ghost function ApplyOp<T>(op: Op<T>, t: Table<T>): Option<Table<T>>
    requires t.Aligned()
  {
    match op
    case UnionWith(other) => if other.Aligned() then Union(t, other) else None
    case PopKeys(tensors, objects) => Pop(t, tensors, objects)
    case RenameTo(from, to) => Rename(t, from, to)
    case SelectColumns(tensors, objects) => Columns(t, tensors, objects)
    case SelectRows(idx) => if InBounds(idx, t.size) then Some(Select(t, FromEnd(idx, t.size))) else None
    case SliceRows(start, end, step) => SliceAny(t, start, end, step)
    case PadRows(count, first) => Padding(t, count, first)
    case TakeChunk(n, i) =>
      if n == 0 || i >= n || t.size == 0 then None
      else (match Chunk(t, n) case Some(chunks) => Some(chunks[i]) case None => None)
    case RepeatBatch(times, interleave) => Some(Repeat(t, times, interleave))
    case RepeatSamples(counts) =>
      var times := RepeatCounts(counts, t.size);
      if times.Some? then Some(SampleLevelRepeat(t, times.value)) else None
    case ConcatWith(other) =>
      if !other.Aligned() then None
      else var r := ConcatTables([t, other]); if r.Ok? then Some(r.value) else None
  }

  predicate MovesRows<T>(op: Op<T>) {
    op.SelectRows? || op.SliceRows? || op.PadRows? || op.TakeChunk? || op.RepeatBatch? || op.RepeatSamples?
  }

  /** The row each new row comes from. */
  ghost function SourceRows<T>(op: Op<T>, size: nat): seq<nat>
    requires MovesRows(op)
  {
    match op
    case SelectRows(idx) => if InBounds(idx, size) then FromEnd(idx, size) else []
    case SliceRows(start, end, step) => SliceAnyRows(size, start, end, step)
    case PadRows(count, first) => if size == 0 then [] else PaddedRows(size, count, first)
    case TakeChunk(n, i) => if n == 0 then [] else Block(i, Quotient(size, n))
    case RepeatBatch(times, interleave) =>
      if interleave then RepeatRows(Range(0, size), Copies(times, size)) else TileTensor(Range(0, size), times)
    case RepeatSamples(counts) =>
      var times := RepeatCounts(counts, size);
      if times.Some? then RepeatRows(Range(0, size), times.value) else []
  }

  /** Every operation that moves rows moves whole rows. */
  lemma RowsMoveTogether<T>(op: Op<T>, t: Table<T>)
    requires t.Aligned() && MovesRows(op) && ApplyOp(op, t).Some?
    ensures InRange(SourceRows(op, t.size), t.size)
    ensures ApplyOp(op, t) == Some(Select(t, SourceRows(op, t.size)))
  {
    match op
    case SelectRows(idx) =>
    case SliceRows(start, end, step) => SliceAnyIsSelect(t, start, end, step);
    case PadRows(count, first) =>
      if t.size == 0 {
        SelectAll(t);
        assert Range(0, 0) == [];
      } else {
        PaddingIsSelect(t, count, first);
      }
    case TakeChunk(n, i) =>
      DivisorFactors(t.size, n);
      ChunkIsSelect(t, n, Quotient(t.size, n), i);
    case RepeatBatch(times, interleave) => RepeatIsSelect(t, times, interleave);
    case RepeatSamples(counts) => SampleLevelRepeatIsSelect(t, RepeatCounts(counts, t.size).value);
  }

  // ---------------------------------------------------------------------------------------------
  // Where rows and columns come from
  // ---------------------------------------------------------------------------------------------

  /** For each row the original row it is, if it is one; for each surviving tensor its original name; and the surviving
      object columns. */
  datatype Trace = Trace(rows: seq<Option<nat>>, tensors: map<string, string>, objects: set<string>)

  ghost predicate ColumnFollows<T>(original: Column<T>, col: Column<T>, rows: seq<Option<nat>>) {
    && |col| == |rows|
    && forall j :: 0 <= j < |rows| && rows[j].Some? ==> rows[j].value < |original| && col[j] == original[rows[j].value]
  }

  /** Every surviving column of t follows the same rows of the original. */
  ghost predicate Follows<T>(original: Table<T>, t: Table<T>, trace: Trace) {
    && original.Aligned() && t.Aligned() && |trace.rows| == t.size
    && trace.tensors.Keys <= t.tensors.Keys && trace.objects <= t.objects.Keys
    && (forall k | k in trace.tensors :: trace.tensors[k] in original.tensors
         && ColumnFollows(original.tensors[trace.tensors[k]], t.tensors[k], trace.rows))
    && (forall k | k in trace.objects :: k in original.objects
         && ColumnFollows(original.objects[k], t.objects[k], trace.rows))
  }

  function PickRows(rows: seq<Option<nat>>, idx: seq<nat>): seq<Option<nat>>
    requires InRange(idx, |rows|)
  {
    Pick(rows, idx)
  }

  ghost function TraceOp<T>(op: Op<T>, trace: Trace): Trace {
    if MovesRows(op) then
      var idx := SourceRows(op, |trace.rows|);
      if InRange(idx, |trace.rows|) then trace.(rows := PickRows(trace.rows, idx)) else trace
    else match op
      case UnionWith(_) => trace
      case PopKeys(tensors, objects) => trace.(tensors := trace.tensors - tensors, objects := trace.objects - objects)
      case RenameTo(from, to) =>
        trace.(tensors := if from in trace.tensors then RenameKey(trace.tensors, from, to)
                          else trace.tensors - {to})
      case SelectColumns(tensors, objects) =>
        Trace(trace.rows, Restrict(trace.tensors, tensors),
              if objects.Some? then trace.objects * objects.value else trace.objects)
      case ConcatWith(other) => trace.(rows := trace.rows + Copies(None, other.size))
  }

  lemma PickedColumnFollows<T>(original: Column<T>, col: Column<T>, rows: seq<Option<nat>>, idx: seq<nat>)
    requires ColumnFollows(original, col, rows) && InRange(idx, |rows|)
    ensures ColumnFollows(original, Pick(col, idx), PickRows(rows, idx))
  {
  }

  lemma SelectFollows<T>(original: Table<T>, t: Table<T>, trace: Trace, idx: seq<nat>)
    requires Follows(original, t, trace) && InRange(idx, t.size)
    ensures Follows(original, Select(t, idx), trace.(rows := PickRows(trace.rows, idx)))
  {
    forall k | k in trace.tensors
      ensures ColumnFollows(original.tensors[trace.tensors[k]], Pick(t.tensors[k], idx), PickRows(trace.rows, idx))
    {
      PickedColumnFollows(original.tensors[trace.tensors[k]], t.tensors[k], trace.rows, idx);
    }
    forall k | k in trace.objects
      ensures ColumnFollows(original.objects[k], Pick(t.objects[k], idx), PickRows(trace.rows, idx))
    {
      PickedColumnFollows(original.objects[k], t.objects[k], trace.rows, idx);
    }
  }

  lemma ExtendedColumnFollows<T>(original: Column<T>, col: Column<T>, longer: Column<T>, rows: seq<Option<nat>>, more: nat)
    requires ColumnFollows(original, col, rows) && col <= longer && |longer| == |col| + more
    ensures ColumnFollows(original, longer, rows + Copies(None, more))
  {
  }

  lemma JoinTwo<T>(a: map<string, Column<T>>, b: map<string, Column<T>>, k: string)
    requires k in a
    ensures Concat(Holders([a, b], k)) == a[k] + if k in b then b[k] else []
  {
    assert [a, b][1..] == [b] && [b][1..] == [];
    assert Holders([b], k) == if k in b then [b[k]] else [];
    assert Holders([a, b], k) == if k in b then [a[k], b[k]] else [a[k]];
    if k in b {
      assert [a[k], b[k]][1..] == [b[k]] && Concat([b[k]]) == b[k];
    }
  }

  lemma JoinedExtends<T>(t: Table<T>, other: Table<T>)
    ensures var r := Joined([t, other]);
            && r.size == t.size + other.size
            && (forall k | k in t.tensors :: t.tensors[k] <= r.tensors[k])
            && (forall k | k in t.objects :: t.objects[k] <= r.objects[k])
  {
    var parts := [t, other];
    assert parts[1..] == [other] && TotalSize([other]) == other.size;
    assert TensorsOf(parts) == [t.tensors, other.tensors] && ObjectsOf(parts) == [t.objects, other.objects];
    forall k | k in t.tensors
      ensures t.tensors[k] <= Joined(parts).tensors[k]
    {
      JoinTwo(t.tensors, other.tensors, k);
    }
    forall k | k in t.objects
      ensures t.objects[k] <= Joined(parts).objects[k]
    {
      JoinTwo(t.objects, other.objects, k);
    }
  }

  /** Concatenating two batches extends each column of the first. */
  lemma ConcatExtends<T>(t: Table<T>, other: Table<T>)
    requires t.Aligned() && other.Aligned() && ConcatTables([t, other]).Ok?
    ensures var r := ConcatTables([t, other]).value;
            && r.Aligned() && r.size == t.size + other.size
            && r.tensors.Keys == t.tensors.Keys && r.objects.Keys == t.objects.Keys
            && (forall k | k in t.tensors :: t.tensors[k] <= r.tensors[k])
            && (forall k | k in t.objects :: t.objects[k] <= r.objects[k])
  {
    ConcatOkIff([t, other]);
    JoinedExtends(t, other);
  }

  lemma ConcatFollows<T>(original: Table<T>, t: Table<T>, other: Table<T>, trace: Trace)
    requires Follows(original, t, trace) && other.Aligned() && ConcatTables([t, other]).Ok?
    ensures Follows(original, ConcatTables([t, other]).value, trace.(rows := trace.rows + Copies(None, other.size)))
  {
    ConcatExtends(t, other);
    var r := ConcatTables([t, other]).value;
    forall k | k in trace.tensors
      ensures ColumnFollows(original.tensors[trace.tensors[k]], r.tensors[k], trace.rows + Copies(None, other.size))
    {
      ExtendedColumnFollows(original.tensors[trace.tensors[k]], t.tensors[k], r.tensors[k], trace.rows, other.size);
    }
    forall k | k in trace.objects
      ensures ColumnFollows(original.objects[k], r.objects[k], trace.rows + Copies(None, other.size))
    {
      ExtendedColumnFollows(original.objects[k], t.objects[k], r.objects[k], trace.rows, other.size);
    }
  }

  lemma StepFollows<T>(original: Table<T>, t: Table<T>, trace: Trace, op: Op<T>)
    requires Follows(original, t, trace) && ApplyOp(op, t).Some?
    ensures Follows(original, ApplyOp(op, t).value, TraceOp(op, trace))
  {
    if MovesRows(op) {
      RowsMoveTogether(op, t);
      SelectFollows(original, t, trace, SourceRows(op, t.size));
    } else if op.ConcatWith? {
      ConcatFollows(original, t, op.other, trace);
    }
  }

  ghost function Run<T>(ops: seq<Op<T>>, t: Table<T>): Option<Table<T>>
    requires t.Aligned()
    decreases |ops|
  {
    if ops == [] then Some(t)
    else
      var next := ApplyOp(ops[0], t);
      if next.Some? then
        OperationsKeepAlignment(ops[0], t);
        Run(ops[1..], next.value)
      else None
  }

  ghost function TraceRun<T>(ops: seq<Op<T>>, trace: Trace): Trace {
    if ops == [] then trace else TraceRun(ops[1..], TraceOp(ops[0], trace))
  }

  lemma {:induction false} RunFollows<T>(original: Table<T>, t: Table<T>, trace: Trace, ops: seq<Op<T>>)
    requires Follows(original, t, trace) && Run(ops, t).Some?
    ensures Follows(original, Run(ops, t).value, TraceRun(ops, trace))
    decreases |ops|
  {
    if ops != [] {
      StepFollows(original, t, trace, ops[0]);
      RunFollows(original, ApplyOp(ops[0], t).value, TraceOp(ops[0], trace), ops[1..]);
    }
  }

  function Untouched<T>(t: Table<T>): Trace {
    Trace(seq(t.size, i requires 0 <= i => Some(i)), map k | k in t.tensors :: k, t.objects.Keys)
  }

  /** After any program every column has one entry per row, and all columns that are in the batch from start to end took the
      same rows. Columns that a union brings in are not traced: they may hold other rows, even of this very batch. */
  lemma ProgramsKeepRowsTogether<T>(t: Table<T>, ops: seq<Op<T>>)
    requires t.Aligned() && Run(ops, t).Some?
    ensures Follows(t, Run(ops, t).value, TraceRun(ops, Untouched(t)))
  {
    RunFollows(t, t, Untouched(t), ops);
  }

  /** No operation yields columns of different lengths. */
  lemma OperationsKeepAlignment<T>(op: Op<T>, t: Table<T>)
    requires t.Aligned() && ApplyOp(op, t).Some?
    ensures ApplyOp(op, t).value.Aligned()
  {
    StepFollows(t, t, Untouched(t), op);
  }

  /** The trace is not empty by construction: a tensor that no operation drops or renames is traced to itself, and without
      concatenation every row is traced. */
  predicate Drops<T>(op: Op<T>, k: string) {
    match op
    case PopKeys(tensors, _) => k in tensors
    case RenameTo(from, to) => k == from || k == to
    case SelectColumns(tensors, _) => tensors.Some? && k !in tensors.value
    case _ => false
  }

  ghost predicate AllTraced(rows: seq<Option<nat>>) {
    forall j :: 0 <= j < |rows| ==> rows[j].Some?
  }

  lemma {:induction false} TraceKeepsTensor<T>(ops: seq<Op<T>>, trace: Trace, k: string)
    requires k in trace.tensors && forall op | op in ops :: !Drops(op, k)
    ensures k in TraceRun(ops, trace).tensors && TraceRun(ops, trace).tensors[k] == trace.tensors[k]
  {
    if ops != [] {
      assert ops[0] in ops && forall op | op in ops[1..] :: op in ops;
      TraceKeepsTensor(ops[1..], TraceOp(ops[0], trace), k);
    }
  }

  lemma {:induction false} TraceKeepsRows<T>(ops: seq<Op<T>>, trace: Trace)
    requires AllTraced(trace.rows) && forall op | op in ops :: !op.ConcatWith?
    ensures AllTraced(TraceRun(ops, trace).rows)
  {
    if ops != [] {
      assert ops[0] in ops && forall op | op in ops[1..] :: op in ops;
      TraceKeepsRows(ops[1..], TraceOp(ops[0], trace));
    }
  }
}
