/** Concatenating batches row-wise: which columns meet which, and when the result is a batch at all. */
module TableConcat {
  import opened Options
  import opened Sequences
  import opened Tables

  datatype ConcatError = NoParts | TensorKeysDiffer | UnknownObjectKey | Misaligned

  // ---------------------------------------------------------------------------------------------
  // From a list of dictionaries to a dictionary of lists
  // ---------------------------------------------------------------------------------------------

  /** The values of k, in order, over the dictionaries that have it: one without k is skipped. */
  function Holders<V>(dicts: seq<map<string, V>>, k: string): seq<V> {
    if dicts == [] then []
    else (if k in dicts[0] then [dicts[0][k]] else []) + Holders(dicts[1..], k)
  }

  lemma {:induction false} HoldersAppend<V>(a: seq<map<string, V>>, b: seq<map<string, V>>, k: string)
    ensures Holders(a + b, k) == Holders(a, k) + Holders(b, k)
  {
    if a == [] {
      assert a + b == b;
    } else {
      var first, rest := if k in a[0] then [a[0][k]] else [], Holders(a[1..], k);
      assert (a + b)[1..] == a[1..] + b;
      HoldersAppend(a[1..], b, k);
      assert first + (rest + Holders(b, k)) == (first + rest) + Holders(b, k);
    }
  }

  lemma HoldersSnoc<V>(dicts: seq<map<string, V>>, d: map<string, V>, k: string)
    ensures Holders(dicts + [d], k) == Holders(dicts, k) + if k in d then [d[k]] else []
  {
    HoldersAppend(dicts, [d], k);
    assert [d][1..] == [];
  }

  ghost predicate KeysWithin<V>(dicts: seq<map<string, V>>, keys: set<string>) {
    forall d | d in dicts :: d.Keys <= keys
  }

  function Extended<V>(s: seq<V>, data: map<string, V>, k: string): seq<V> {
    s + if k in data then [data[k]] else []
  }

  /** The inner loop: append every item of `data`, unless one of its keys is new. */
  method AppendItems<V>(lists: map<string, seq<V>>, data: map<string, V>) returns (ok: bool, output: map<string, seq<V>>)
    ensures ok <==> data.Keys <= lists.Keys
    ensures ok ==> output.Keys == lists.Keys && forall k | k in output :: output[k] == Extended(lists[k], data, k)
  {
    output := lists;
    var todo := data.Keys;
    while todo != {}
      invariant todo <= data.Keys <= lists.Keys + todo
      invariant output.Keys == lists.Keys
      invariant forall k | k in output :: output[k] == if k in todo then lists[k] else Extended(lists[k], data, k)
      decreases |todo|
    {
      var key :| key in todo;
      if key !in output {
        return false, output;
      }
      output := output[key := output[key] + [data[key]]];
      todo := todo - {key};
    }
    ok := true;
  }

  method ListOfDictToDictOfList<V>(dicts: seq<map<string, V>>) returns (r: Result<map<string, seq<V>>, ConcatError>)
    ensures r.Ok? <==> dicts == [] || KeysWithin(dicts, dicts[0].Keys)
    ensures r.Ok? ==> r.value.Keys == if dicts == [] then {} else dicts[0].Keys
    ensures r.Ok? ==> forall k | k in r.value :: r.value[k] == Holders(dicts, k)
    ensures r.Err? ==> r.error == UnknownObjectKey
  {
    if |dicts| == 0 {
      return Ok(map[]);
    }
    var output: map<string, seq<V>> := map k | k in dicts[0] :: [];
    for n := 0 to |dicts|
      invariant output.Keys == dicts[0].Keys
      invariant KeysWithin(dicts[..n], dicts[0].Keys)
      invariant forall k | k in output :: output[k] == Holders(dicts[..n], k)
    {
      var ok, next := AppendItems(output, dicts[n]);
      if !ok {
        assert dicts[n] in dicts && !KeysWithin(dicts, dicts[0].Keys);
        return Err(UnknownObjectKey);
      }
      assert dicts[..n + 1] == dicts[..n] + [dicts[n]];
      forall k | k in next
        ensures next[k] == Holders(dicts[..n + 1], k)
      {
        HoldersSnoc(dicts[..n], dicts[n], k);
      }
      output := next;
    }
    assert dicts[..|dicts|] == dicts;
    return Ok(output);
  }

  // ---------------------------------------------------------------------------------------------
  // Concatenation
  // ---------------------------------------------------------------------------------------------

  function TensorsOf<T>(parts: seq<Table<T>>): (dicts: seq<map<string, Column<T>>>)
    ensures |dicts| == |parts|
    ensures forall i :: 0 <= i < |parts| ==> dicts[i] == parts[i].tensors
  {
    seq(|parts|, i requires 0 <= i < |parts| => parts[i].tensors)
  }

  function ObjectsOf<T>(parts: seq<Table<T>>): (dicts: seq<map<string, Column<T>>>)
    ensures |dicts| == |parts|
    ensures forall i :: 0 <= i < |parts| ==> dicts[i] == parts[i].objects
  {
    seq(|parts|, i requires 0 <= i < |parts| => parts[i].objects)
  }

  function TotalSize<T>(parts: seq<Table<T>>): nat {
    if parts == [] then 0 else parts[0].size + TotalSize(parts[1..])
  }

  ghost predicate SameTensorKeys<T>(parts: seq<Table<T>>) {
    forall p | p in parts :: p.tensors.Keys == parts[0].tensors.Keys
  }

  ghost predicate AllAligned<T>(parts: seq<Table<T>>) {
    forall p | p in parts :: p.Aligned()
  }

  /** The columns side by side, each one joined over the parts that have it. */
  function Joined<T>(parts: seq<Table<T>>): Table<T>
    requires parts != []
  {
    Table(TotalSize(parts), map k | k in parts[0].tensors :: Concat(Holders(TensorsOf(parts), k)),
          map k | k in parts[0].objects :: Concat(Holders(ObjectsOf(parts), k)))
  }

  ghost function ConcatTables<T>(parts: seq<Table<T>>): Result<Table<T>, ConcatError> {
    if parts == [] then Err(NoParts)
    else if !SameTensorKeys(parts) then Err(TensorKeysDiffer)
    else if !KeysWithin(ObjectsOf(parts), parts[0].objects.Keys) then Err(UnknownObjectKey)
    else if exists k | k in parts[0].objects :: |Joined(parts).objects[k]| != TotalSize(parts) then Err(Misaligned)
    else Ok(Joined(parts))
  }

  method ConcatAll<T>(parts: seq<Table<T>>) returns (r: Result<Table<T>, ConcatError>)
    ensures r == ConcatTables(parts)
  {
    if |parts| == 0 {
      return Err(NoParts);
    }
    var size := 0;
    for n := 0 to |parts|
      invariant size == TotalSize(parts[..n])
      invariant forall p | p in parts[..n] :: p.tensors.Keys == parts[0].tensors.Keys
    {
      if parts[n].tensors.Keys != parts[0].tensors.Keys {
        assert parts[n] in parts;
        return Err(TensorKeysDiffer);
      }
      assert parts[..n + 1] == parts[..n] + [parts[n]];
      TotalSizeAppend(parts[..n], [parts[n]]);
      size := size + parts[n].size;
    }
    assert parts[..|parts|] == parts;
    var columns := ListOfDictToDictOfList(ObjectsOf(parts));
    if columns.Err? {
      return Err(columns.error);
    }
    var tensors := map k | k in parts[0].tensors :: Concat(Holders(TensorsOf(parts), k));
    var objects := map k | k in columns.value :: Concat(columns.value[k]);
    assert objects == Joined(parts).objects;
    assert forall k | k in objects :: objects[k] == Joined(parts).objects[k];
    if exists k | k in objects :: |objects[k]| != size {
      return Err(Misaligned);
    }
    return Ok(Table(size, tensors, objects));
  }

  lemma {:induction false} TotalSizeAppend<T>(a: seq<Table<T>>, b: seq<Table<T>>)
    ensures TotalSize(a + b) == TotalSize(a) + TotalSize(b)
  {
    if a == [] {
      assert a + b == b;
    } else {
      assert (a + b)[1..] == a[1..] + b;
      TotalSizeAppend(a[1..], b);
    }
  }

  /** The part has rows but not the column. */
  ghost predicate LeavesGap<T>(p: Table<T>, k: string) {
    k !in p.objects && p.size > 0
  }

  ghost predicate SomeGap<T>(parts: seq<Table<T>>, k: string) {
    exists p | p in parts :: LeavesGap(p, k)
  }

  lemma {:induction false} ObjectColumnLength<T>(parts: seq<Table<T>>, k: string)
    requires AllAligned(parts)
    ensures |Concat(Holders(ObjectsOf(parts), k))| <= TotalSize(parts)
    ensures |Concat(Holders(ObjectsOf(parts), k))| == TotalSize(parts) <==> !SomeGap(parts, k)
  {
    if parts != [] {
      var p := parts[0];
      assert p in parts && forall q | q in parts[1..] :: q in parts;
      ObjectColumnLength(parts[1..], k);
      assert ObjectsOf(parts)[1..] == ObjectsOf(parts[1..]);
      var rest := Holders(ObjectsOf(parts[1..]), k);
      ConcatAppend(if k in p.objects then [p.objects[k]] else [], rest);
      assert SomeGap(parts, k) <==> LeavesGap(p, k) || SomeGap(parts[1..], k) by {
        if LeavesGap(p, k) { assert SomeGap(parts, k); }
        if SomeGap(parts[1..], k) {
          var q :| q in parts[1..] && LeavesGap(q, k);
          assert q in parts;
        }
        if SomeGap(parts, k) {
          var q :| q in parts && LeavesGap(q, k);
          assert q == p || q in parts[1..];
        }
      }
      if k in p.objects {
        assert Concat([p.objects[k]]) == p.objects[k];
      }
    }
  }

  lemma {:induction false} TensorColumnLength<T>(parts: seq<Table<T>>, k: string)
    requires AllAligned(parts) && forall p | p in parts :: k in p.tensors
    ensures |Concat(Holders(TensorsOf(parts), k))| == TotalSize(parts)
  {
    if parts != [] {
      assert parts[0] in parts && forall q | q in parts[1..] :: q in parts;
      TensorColumnLength(parts[1..], k);
      assert TensorsOf(parts)[1..] == TensorsOf(parts[1..]);
    }
  }

  ghost predicate PartsAgree<T>(parts: seq<Table<T>>) {
    && parts != [] && SameTensorKeys(parts)
    && (forall p | p in parts :: p.objects.Keys <= parts[0].objects.Keys)
    && (forall p | p in parts && p.size > 0 :: p.objects.Keys == parts[0].objects.Keys)
  }

  /** Concatenation succeeds exactly when the parts agree on their columns, where a part without rows may lack object
      columns; and then the result is aligned. */
  lemma ConcatOkIff<T>(parts: seq<Table<T>>)
    requires AllAligned(parts)
    ensures ConcatTables(parts).Ok? <==> PartsAgree(parts)
    ensures ConcatTables(parts).Ok? ==> ConcatTables(parts).value.Aligned()
  {
    if parts != [] && SameTensorKeys(parts) {
      assert KeysWithin(ObjectsOf(parts), parts[0].objects.Keys)
             <==> forall p | p in parts :: p.objects.Keys <= parts[0].objects.Keys by {
        forall p | p in parts
          ensures p.objects in ObjectsOf(parts)
        {
          var i :| 0 <= i < |parts| && parts[i] == p;
          assert ObjectsOf(parts)[i] == p.objects;
        }
      }
      forall k | k in parts[0].objects
        ensures |Joined(parts).objects[k]| == TotalSize(parts) <==> !SomeGap(parts, k)
      {
        ObjectColumnLength(parts, k);
      }
      forall k | k in parts[0].tensors
        ensures |Joined(parts).tensors[k]| == TotalSize(parts)
      {
        TensorColumnLength(parts, k);
      }
      if ConcatTables(parts).Ok? {
        forall p, k | p in parts && p.size > 0 && k in parts[0].objects
          ensures k in p.objects
        {
          assert !SomeGap(parts, k);
          assert !LeavesGap(p, k);
        }
      }
    }
  }

  /** In a joined column, the entries of dictionary p follow those of the dictionaries before it. */
  lemma JoinedEntry<T>(dicts: seq<map<string, Column<T>>>, k: string, p: nat, i: nat)
    requires p < |dicts| && k in dicts[p] && i < |dicts[p][k]|
    ensures var at := |Concat(Holders(dicts[..p], k))| + i;
            at < |Concat(Holders(dicts, k))| && Concat(Holders(dicts, k))[at] == dicts[p][k][i]
  {
    assert dicts == dicts[..p] + (dicts[p..p + 1] + dicts[p + 1..]);
    HoldersAppend(dicts[..p], dicts[p..p + 1] + dicts[p + 1..], k);
    assert (dicts[p..p + 1] + dicts[p + 1..])[1..] == dicts[p + 1..];
    ConcatAppend(Holders(dicts[..p], k), [dicts[p][k]] + Holders(dicts[p + 1..], k));
  }

  lemma ConcatenatedTensor<T>(parts: seq<Table<T>>, k: string, p: nat, i: nat)
    requires AllAligned(parts) && forall q | q in parts :: k in q.tensors
    requires p < |parts| && i < parts[p].size
    ensures parts[p] in parts && |parts[p].tensors[k]| == parts[p].size
    ensures var joined, at := Concat(Holders(TensorsOf(parts), k)), TotalSize(parts[..p]) + i;
            at < |joined| && joined[at] == parts[p].tensors[k][i]
  {
    assert parts[p] in parts && forall q | q in parts[..p] :: q in parts;
    assert TensorsOf(parts)[..p] == TensorsOf(parts[..p]);
    TensorColumnLength(parts[..p], k);
    JoinedEntry(TensorsOf(parts), k, p, i);
  }

  lemma ConcatenatedObject<T>(parts: seq<Table<T>>, k: string, p: nat, i: nat)
    requires AllAligned(parts) && forall q | q in parts && q.size > 0 :: k in q.objects
    requires p < |parts| && i < parts[p].size
    ensures parts[p] in parts && |parts[p].objects[k]| == parts[p].size
    ensures var joined, at := Concat(Holders(ObjectsOf(parts), k)), TotalSize(parts[..p]) + i;
            at < |joined| && joined[at] == parts[p].objects[k][i]
  {
    assert parts[p] in parts && forall q | q in parts[..p] :: q in parts;
    assert ObjectsOf(parts)[..p] == ObjectsOf(parts[..p]);
    ObjectColumnLength(parts[..p], k);
    JoinedEntry(ObjectsOf(parts), k, p, i);
  }

  lemma TotalSizeBefore<T>(parts: seq<Table<T>>, p: nat, i: nat)
    requires p < |parts| && i < parts[p].size
    ensures TotalSize(parts[..p]) + i < TotalSize(parts)
  {
    assert parts == parts[..p] + parts[p..];
    TotalSizeAppend(parts[..p], parts[p..]);
  }

  /** Whenever concatenation succeeds, row i of part p is row i after all rows of the parts before it. */
  lemma ConcatenatedRow<T>(parts: seq<Table<T>>, p: nat, i: nat)
    requires AllAligned(parts) && ConcatTables(parts).Ok? && p < |parts| && i < parts[p].size
    ensures parts[p] in parts
    ensures RowIs(ConcatTables(parts).value, TotalSize(parts[..p]) + i, Row(parts[p], i))
  {
    ConcatOkIff(parts);
    TotalSizeBefore(parts, p, i);
    assert parts[p] in parts;
    JoinedRow(parts, p, i);
  }

  lemma JoinedRow<T>(parts: seq<Table<T>>, p: nat, i: nat)
    requires AllAligned(parts) && p < |parts| && i < parts[p].size && parts[p].Aligned()
    requires SameTensorKeys(parts) && forall q | q in parts && q.size > 0 :: q.objects.Keys == parts[0].objects.Keys
    requires parts[p].tensors.Keys == parts[0].tensors.Keys && parts[p].objects.Keys == parts[0].objects.Keys
    requires Joined(parts).Aligned() && TotalSize(parts[..p]) + i < TotalSize(parts)
    ensures Row(Joined(parts), TotalSize(parts[..p]) + i) == Row(parts[p], i)
  {
    var joined, at := Joined(parts), TotalSize(parts[..p]) + i;
    forall k | k in parts[0].tensors
      ensures joined.tensors[k][at] == parts[p].tensors[k][i]
    {
      ConcatenatedTensor(parts, k, p, i);
    }
    forall k | k in parts[0].objects
      ensures joined.objects[k][at] == parts[p].objects[k][i]
    {
      ConcatenatedObject(parts, k, p, i);
    }
    SameRow(joined, at, parts[p], i);
  }

  // ---------------------------------------------------------------------------------------------
  // Concatenating selections
  // ---------------------------------------------------------------------------------------------

  ghost predicate AllInRange(idxs: seq<seq<nat>>, n: nat) {
    forall idx | idx in idxs :: InRange(idx, n)
  }

  ghost function Selects<T>(t: Table<T>, idxs: seq<seq<nat>>): (parts: seq<Table<T>>)
    requires t.Aligned() && AllInRange(idxs, t.size)
    ensures |parts| == |idxs|
    ensures forall i :: 0 <= i < |idxs| ==> InRange(idxs[i], t.size) && parts[i] == Select(t, idxs[i])
  {
    assert forall i :: 0 <= i < |idxs| ==> idxs[i] in idxs;
    seq(|idxs|, i requires 0 <= i < |idxs| => Select(t, idxs[i]))
  }

  lemma {:induction false} ConcatInRange(idxs: seq<seq<nat>>, n: nat)
    requires AllInRange(idxs, n)
    ensures InRange(Concat(idxs), n)
  {
    if idxs != [] {
      assert idxs[0] in idxs && forall idx | idx in idxs[1..] :: idx in idxs;
      ConcatInRange(idxs[1..], n);
    }
  }

  /** Joining what the index lists pick from one column picks by the joined lists. */
  lemma {:induction false} JoinedPicks<T>(dicts: seq<map<string, Column<T>>>, k: string, col: Column<T>, idxs: seq<seq<nat>>)
    requires |dicts| == |idxs| && AllInRange(idxs, |col|)
    requires forall i :: 0 <= i < |dicts| ==> k in dicts[i] && InRange(idxs[i], |col|) && dicts[i][k] == Pick(col, idxs[i])
    ensures InRange(Concat(idxs), |col|) && Concat(Holders(dicts, k)) == Pick(col, Concat(idxs))
  {
    ConcatInRange(idxs, |col|);
    if dicts != [] {
      assert idxs[0] in idxs && forall idx | idx in idxs[1..] :: idx in idxs;
      JoinedPicks(dicts[1..], k, col, idxs[1..]);
      PickAppend(col, idxs[0], Concat(idxs[1..]));
    }
  }

  lemma {:induction false} TotalSizeOfSelects<T>(parts: seq<Table<T>>, idxs: seq<seq<nat>>)
    requires |parts| == |idxs| && forall i :: 0 <= i < |parts| ==> parts[i].size == |idxs[i]|
    ensures TotalSize(parts) == |Concat(idxs)|
  {
    if parts != [] {
      TotalSizeOfSelects(parts[1..], idxs[1..]);
    }
  }

  lemma JoinedSelects<T>(t: Table<T>, idxs: seq<seq<nat>>)
    requires t.Aligned() && idxs != [] && AllInRange(idxs, t.size)
    ensures InRange(Concat(idxs), t.size)
    ensures Joined(Selects(t, idxs)) == Select(t, Concat(idxs))
  {
    var parts := Selects(t, idxs);
    ConcatInRange(idxs, t.size);
    TotalSizeOfSelects(parts, idxs);
    forall k | k in t.tensors
      ensures Joined(parts).tensors[k] == Pick(t.tensors[k], Concat(idxs))
    {
      JoinedPicks(TensorsOf(parts), k, t.tensors[k], idxs);
    }
    forall k | k in t.objects
      ensures Joined(parts).objects[k] == Pick(t.objects[k], Concat(idxs))
    {
      JoinedPicks(ObjectsOf(parts), k, t.objects[k], idxs);
    }
    ColumnsPickTheSameRows(t, Joined(parts), Concat(idxs));
  }

  /** Selections of one table concatenate to the selection by the concatenated row numbers. */
  lemma ConcatSelects<T>(t: Table<T>, idxs: seq<seq<nat>>)
    requires t.Aligned() && idxs != [] && AllInRange(idxs, t.size)
    ensures InRange(Concat(idxs), t.size)
    ensures ConcatTables(Selects(t, idxs)) == Ok(Select(t, Concat(idxs)))
  {
    var parts := Selects(t, idxs);
    JoinedSelects(t, idxs);
    assert forall p | p in parts :: p.Aligned() && p.tensors.Keys == t.tensors.Keys && p.objects.Keys == t.objects.Keys;
    ConcatOkIff(parts);
  }
}
