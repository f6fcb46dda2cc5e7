/** Putting the layers of all pipeline stages back under their global numbers: the running `layers_cum` of the merger,
    the cut of the converter, and when one undoes the other. */
module LayerMerge {
  import opened Sequences

  /** A parameter name: of one numbered layer, or outside the layers. */
  datatype Entry = LayerEntry(layer: nat, name: string) | GlobalEntry(name: string)

  type StateDict<V> = map<Entry, V>

  // ---------------------------------------------------------------------------------------------
  // One stage
  // ---------------------------------------------------------------------------------------------

  function LayerNumbers(keys: set<Entry>): set<nat> {
    set e | e in keys && e.LayerEntry? :: e.layer
  }

  /** The largest layer number, or 0 when there is none. */
  ghost function MaxOrZero(s: set<nat>): (m: nat)
    ensures s == {} ==> m == 0
    ensures s != {} ==> m in s
    ensures forall x | x in s :: x <= m
  {
    if s == {} then 0
    else
      var x :| x in s;
      var rest := MaxOrZero(s - {x});
      assert forall y | y in s :: y == x || y in s - {x};
      if x < rest then rest else x
  }

  /** What one stage adds to `layers_cum`: its largest local layer number (0 if it has no layers), plus one. */
  ghost function StageStep<V>(stage: StateDict<V>): nat {
    MaxOrZero(LayerNumbers(stage.Keys)) + 1
  }

  function Renumber(e: Entry, shift: nat): Entry {
    match e
    case LayerEntry(layer, name) => LayerEntry(layer + shift, name)
    case GlobalEntry(name) => e
  }

  /** A stage under global layer numbers. */
  function Shifted<V>(stage: StateDict<V>, shift: nat): StateDict<V> {
    var keys := set e | e in stage :: Renumber(e, shift);
    map g | g in keys :: stage[LocalEntry(g, shift)]
  }

  lemma ShiftedHas<V>(stage: StateDict<V>, shift: nat, e: Entry)
    requires e in stage
    ensures Renumber(e, shift) in Shifted(stage, shift) && Shifted(stage, shift)[Renumber(e, shift)] == stage[e]
  {
    assert LocalEntry(Renumber(e, shift), shift) == e;
  }

  function LocalEntry(g: Entry, shift: nat): Entry {
    match g
    case LayerEntry(layer, name) => LayerEntry(if layer < shift then 0 else layer - shift, name)
    case GlobalEntry(name) => g
  }

  // ---------------------------------------------------------------------------------------------
  // All stages
  // ---------------------------------------------------------------------------------------------

  /** `layers_cum` before stage i. */
  ghost function Offset<V>(stages: seq<StateDict<V>>, i: nat): nat
    requires i <= |stages|
  {
    if i == 0 then 0 else Offset(stages, i - 1) + StageStep(stages[i - 1])
  }

  /** The merged dictionary after the first n stages; a later stage overwrites an earlier one. */
  ghost function Merged<V>(stages: seq<StateDict<V>>, n: nat): StateDict<V>
    requires n <= |stages|
  {
    if n == 0 then map[] else Merged(stages, n - 1) + Shifted(stages[n - 1], Offset(stages, n - 1))
  }

  predicate Skipped(name: string, tied: bool) {
    Contains(name, "extra_state") || (tied && Contains(name, "output_layer"))
  }

  /** Checkpoint shards indexed [pipeline rank][tensor rank][virtual stage], and how one parameter is merged across the
      tensor ranks. */
  datatype Job<!V, W> = Job(shards: seq<seq<seq<StateDict<V>>>>, ppSize: nat, tpSize: nat, vppSize: nat, tied: bool,
                           merge: (string, seq<V>) -> W) {
    ghost predicate WellFormed() {
      |shards| == ppSize && 0 < tpSize && forall ranks | ranks in shards :: RanksFit(ranks)
    }

    ghost predicate RanksFit(ranks: seq<seq<StateDict<V>>>) {
      |ranks| == tpSize && forall rank | rank in ranks :: |rank| == vppSize && HasKeysOf(rank, ranks[0])
    }

    ghost predicate HasKeysOf(rank: seq<StateDict<V>>, first: seq<StateDict<V>>) {
      |rank| == |first| && forall s :: 0 <= s < |rank| ==> first[s].Keys <= rank[s].Keys
    }

    lemma ShardHasKey(p: nat, t: nat, s: nat, e: Entry)
      requires WellFormed() && p < ppSize && t < tpSize && s < vppSize
      ensures |shards[p]| == tpSize && |shards[p][0]| == |shards[p][t]| == vppSize
      ensures e in shards[p][0][s] ==> e in shards[p][t][s]
    {
      assert RanksFit(shards[p]);
      assert shards[p][0] in shards[p] && shards[p][t] in shards[p];
    }

    lemma HasShape(p: nat, s: nat)
      requires WellFormed() && p < ppSize && s < vppSize
      ensures |shards[p]| == tpSize && |shards[p][0]| == vppSize
    {
      ShardHasKey(p, 0, s, GlobalEntry(""));
    }

    ghost predicate HasKey(p: nat, s: nat, e: Entry)
      requires WellFormed() && p < ppSize && s < vppSize
    {
      HasShape(p, s);
      e in shards[p][0][s]
    }

    /** One parameter of one stage on every tensor rank. */
    function TpData(p: nat, s: nat, e: Entry): (data: seq<V>)
      requires WellFormed() && p < ppSize && s < vppSize
      requires HasKey(p, s, e)
    {
      assert forall t: nat | t < tpSize :: |shards[p]| == tpSize && |shards[p][t]| == vppSize && e in shards[p][t][s] by {
        forall t: nat | t < tpSize
          ensures |shards[p]| == tpSize && |shards[p][t]| == vppSize && e in shards[p][t][s]
        {
          ShardHasKey(p, t, s, e);
        }
      }
      seq(tpSize, t requires 0 <= t < tpSize => shards[p][t][s][e])
    }

    /** One stage merged across its tensor ranks, key by key; some keys are left out. */
    function StageAt(p: nat, s: nat): StateDict<W>
      requires WellFormed() && p < ppSize && s < vppSize
    {
      HasShape(p, s);
      map e | e in shards[p][0][s] && !Skipped(e.name, tied) :: merge(e.name, TpData(p, s, e))
    }

    /** The stages in the order the merger visits them: all pipeline ranks of one virtual stage, then the next. */
    ghost function Stages(s: nat, p: nat): (stages: seq<StateDict<W>>)
      requires WellFormed()
      requires (s < vppSize && p <= ppSize) || (s == vppSize && p == 0)
      decreases s, p
    {
      if p > 0 then Stages(s, p - 1) + [StageAt(p - 1, s)]
      else if s > 0 then Stages(s - 1, ppSize)
      else []
    }
  }

  lemma {:induction false} MergedIgnoresLaterStages<V>(stages: seq<StateDict<V>>, next: StateDict<V>, n: nat)
    requires n <= |stages|
    ensures Offset(stages + [next], n) == Offset(stages, n)
    ensures Merged(stages + [next], n) == Merged(stages, n)
  {
    if n > 0 {
      MergedIgnoresLaterStages(stages, next, n - 1);
      assert (stages + [next])[n - 1] == stages[n - 1];
    }
  }

  ghost predicate IsMerged<V>(stages: seq<StateDict<V>>, merged: StateDict<V>, layersCum: nat) {
    merged == Merged(stages, |stages|) && layersCum == Offset(stages, |stages|)
  }

  lemma MergeOneMore<V>(stages: seq<StateDict<V>>, next: StateDict<V>, merged: StateDict<V>, layersCum: nat)
    requires IsMerged(stages, merged, layersCum)
    ensures IsMerged(stages + [next], merged + Shifted(next, layersCum), layersCum + StageStep(next))
  {
    var all, n := stages + [next], |stages|;
    MergedIgnoresLaterStages(stages, next, n);
    assert all[n] == next && |all| == n + 1;
    assert Offset(all, n + 1) == Offset(all, n) + StageStep(next);
    assert Merged(all, n + 1) == Merged(all, n) + Shifted(next, Offset(all, n));
  }

  lemma ShiftedInsert<V>(stage: StateDict<V>, key: Entry, value: V, shift: nat)
    requires key !in stage
    ensures Shifted(stage[key := value], shift) == Shifted(stage, shift)[Renumber(key, shift) := value]
  {
    var larger := stage[key := value];
    var sum, one := Shifted(larger, shift), Shifted(stage, shift)[Renumber(key, shift) := value];
    ShiftedKeysInsert(stage, key, value, shift);
    forall g | g in sum
      ensures sum[g] == one[g]
    {
      var e :| e in larger && g == Renumber(e, shift);
      ShiftedHas(larger, shift, e);
      if e in stage {
        ShiftedHas(stage, shift, e);
        RenumberIsInjective(e, key, shift);
      }
    }
  }

  lemma RenumberIsInjective(e: Entry, key: Entry, shift: nat)
    requires e != key
    ensures Renumber(e, shift) != Renumber(key, shift)
  {
  }

  lemma ShiftedKeysInsert<V>(stage: StateDict<V>, key: Entry, value: V, shift: nat)
    ensures Shifted(stage[key := value], shift).Keys == Shifted(stage, shift).Keys + {Renumber(key, shift)}
  {
    var larger := stage[key := value];
    assert key in larger && forall e | e in larger :: e == key || e in stage;
  }

  lemma MaxInsert(s: set<nat>, x: nat)
    ensures MaxOrZero(s + {x}) == if x > MaxOrZero(s) then x else MaxOrZero(s)
  {
    assert x in s + {x};
    assert MaxOrZero(s + {x}) in s + {x};
  }

  function Without<V>(stage: StateDict<V>, todo: set<Entry>): StateDict<V> {
    map e | e in stage && e !in todo :: stage[e]
  }

  lemma UnionInsert<V>(a: StateDict<V>, b: StateDict<V>, key: Entry, value: V)
    ensures (a + b)[key := value] == a + b[key := value]
  {
  }

  lemma WithoutInsert<V>(stage: StateDict<V>, todo: set<Entry>, key: Entry)
    requires key in todo && key in stage
    ensures Without(stage, todo - {key}) == Without(stage, todo)[key := stage[key]]
  {
  }

  lemma TakeKey<V>(before: StateDict<V>, stage: StateDict<V>, todo: set<Entry>, key: Entry, shift: nat)
    requires key in todo && key in stage
    ensures var done, more := Without(stage, todo), Without(stage, todo - {key});
            (before + Shifted(done, shift))[Renumber(key, shift) := stage[key]] == before + Shifted(more, shift)
  {
    var done := Without(stage, todo);
    WithoutInsert(stage, todo, key);
    ShiftedInsert(done, key, stage[key], shift);
    UnionInsert(before, Shifted(done, shift), Renumber(key, shift), stage[key]);
  }

  lemma TakeLayer<V>(stage: StateDict<V>, todo: set<Entry>, key: Entry)
    requires key in todo && key in stage
    ensures var done, more := MaxOrZero(LayerNumbers(Without(stage, todo).Keys)),
                              MaxOrZero(LayerNumbers(Without(stage, todo - {key}).Keys));
            more == if key.LayerEntry? && key.layer > done then key.layer else done
  {
    var done := Without(stage, todo).Keys;
    assert Without(stage, todo - {key}).Keys == done + {key};
    if key.LayerEntry? {
      assert LayerNumbers(done + {key}) == LayerNumbers(done) + {key.layer};
      MaxInsert(LayerNumbers(done), key.layer);
    } else {
      assert LayerNumbers(done + {key}) == LayerNumbers(done);
    }
  }

  /** The inner loop over the keys of one stage: renumber, store, and track the largest local layer. */
  method AddStage<W>(before: StateDict<W>, stage: StateDict<W>, layersCum: nat)
    returns (merged: StateDict<W>, layersHandled: nat)
    ensures merged == before + Shifted(stage, layersCum)
    ensures layersHandled + 1 == StageStep(stage)
  {
    merged, layersHandled := before, 0;
    var todo := stage.Keys;
    assert Without(stage, stage.Keys) == map[];
    while todo != {}
      invariant todo <= stage.Keys
      invariant merged == before + Shifted(Without(stage, todo), layersCum)
      invariant layersHandled == MaxOrZero(LayerNumbers(Without(stage, todo).Keys))
      decreases todo
    {
      var key :| key in todo;
      TakeKey(before, stage, todo, key, layersCum);
      TakeLayer(stage, todo, key);
      if key.LayerEntry? {
        layersHandled := if key.layer > layersHandled then key.layer else layersHandled;
      }
      merged := merged[Renumber(key, layersCum) := stage[key]];
      todo := todo - {key};
    }
    assert Without(stage, {}) == stage;
  }

  method MergeStateDicts<V, W>(job: Job<V, W>) returns (merged: StateDict<W>)
    requires job.WellFormed()
    ensures var stages := job.Stages(job.vppSize, 0); merged == Merged(stages, |stages|)
  {
    merged := map[];
    var layersCum := 0;
    ghost var stages: seq<StateDict<W>> := [];
    for s := 0 to job.vppSize
      invariant stages == job.Stages(s, 0)
      invariant IsMerged(stages, merged, layersCum)
    {
      for p := 0 to job.ppSize
        invariant stages == job.Stages(s, p)
        invariant IsMerged(stages, merged, layersCum)
      {
        var stage := job.StageAt(p, s);
        var next, layersHandled := AddStage(merged, stage, layersCum);
        MergeOneMore(stages, stage, merged, layersCum);
        stages := stages + [stage];
        merged, layersCum := next, layersCum + layersHandled + 1;
      }
    }
  }

  // ---------------------------------------------------------------------------------------------
  // Cutting and merging
  // ---------------------------------------------------------------------------------------------

  /** `pipeline_cumsum`: the first layer of stage i. */
  function Start(sizes: seq<nat>, i: nat): nat
    requires i <= |sizes|
  {
    if i == 0 then 0 else Start(sizes, i - 1) + sizes[i - 1]
  }

  /** The part of a model that stage i holds: its layers under local numbers, and the other entries placed there. */
  function Cut<V>(model: StateDict<V>, sizes: seq<nat>, home: string -> nat, i: nat): StateDict<V>
    requires i < |sizes|
  {
    var start := Start(sizes, i);
    var keys := set g | g in model && OnStage(g, sizes, home, i) :: LocalEntry(g, start);
    map e | e in keys && Renumber(e, start) in model :: model[Renumber(e, start)]
  }

  lemma CutHas<V>(model: StateDict<V>, sizes: seq<nat>, home: string -> nat, i: nat, g: Entry)
    requires i < |sizes| && g in model && OnStage(g, sizes, home, i)
    ensures LocalEntry(g, Start(sizes, i)) in Cut(model, sizes, home, i)
    ensures Renumber(LocalEntry(g, Start(sizes, i)), Start(sizes, i)) == g
  {
  }

  lemma CutComesFromModel<V>(model: StateDict<V>, sizes: seq<nat>, home: string -> nat, i: nat, e: Entry)
    requires i < |sizes| && e in Cut(model, sizes, home, i)
    ensures var g := Renumber(e, Start(sizes, i));
            g in model && OnStage(g, sizes, home, i) && Cut(model, sizes, home, i)[e] == model[g]
  {
    var start := Start(sizes, i);
    var g :| g in model && OnStage(g, sizes, home, i) && e == LocalEntry(g, start);
    assert Renumber(e, start) == g;
  }

  predicate OnStage(g: Entry, sizes: seq<nat>, home: string -> nat, i: nat)
    requires i < |sizes|
  {
    match g
    case LayerEntry(layer, name) => Start(sizes, i) <= layer < Start(sizes, i) + sizes[i]
    case GlobalEntry(name) => home(name) == i
  }

  function CutAll<V>(model: StateDict<V>, sizes: seq<nat>, home: string -> nat): (stages: seq<StateDict<V>>)
    ensures |stages| == |sizes|
    ensures forall i :: 0 <= i < |sizes| ==> stages[i] == Cut(model, sizes, home, i)
  {
    seq(|sizes|, i requires 0 <= i < |sizes| => Cut(model, sizes, home, i))
  }

  /** Every layer of the model has a parameter, no layer lies beyond the last stage, and every other entry has a stage. */
  ghost predicate Covers<V>(model: StateDict<V>, sizes: seq<nat>, home: string -> nat) {
    && (forall l: nat :: l in LayerNumbers(model.Keys) <==> l < Start(sizes, |sizes|))
    && (forall g | g in model && g.GlobalEntry? :: home(g.name) < |sizes|)
  }

  ghost predicate EmptyStageBeforeLayers(sizes: seq<nat>) {
    exists i, j :: 0 <= i < j < |sizes| && sizes[i] == 0 && sizes[j] > 0
  }

  lemma {:induction false} StartIsMonotone(sizes: seq<nat>, i: nat, j: nat)
    requires i <= j <= |sizes|
    ensures Start(sizes, i) <= Start(sizes, j)
  {
    if i < j {
      StartIsMonotone(sizes, i, j - 1);
    }
  }

  /** A stage of a cut model advances `layers_cum` by its size, but by 1 when it is empty. */
  lemma CutStageStep<V>(model: StateDict<V>, sizes: seq<nat>, home: string -> nat, i: nat)
    requires i < |sizes| && Covers(model, sizes, home)
    ensures StageStep(Cut(model, sizes, home, i)) == if sizes[i] == 0 then 1 else sizes[i]
  {
    var stage, start := Cut(model, sizes, home, i), Start(sizes, i);
    var numbers := LayerNumbers(stage.Keys);
    forall l | l in numbers
      ensures l < sizes[i]
    {
      var e :| e in stage.Keys && e.LayerEntry? && e.layer == l;
      CutComesFromModel(model, sizes, home, i, e);
    }
    if sizes[i] > 0 {
      StartIsMonotone(sizes, i + 1, |sizes|);
      var last := start + sizes[i] - 1;
      assert last in LayerNumbers(model.Keys);
      var g :| g in model.Keys && g.LayerEntry? && g.layer == last;
      CutHas(model, sizes, home, i, g);
      assert LocalEntry(g, start) in stage.Keys;
      assert sizes[i] - 1 in numbers;
    } else {
      assert numbers == {};
    }
  }

  lemma {:induction false} OffsetAtLeastStart<V>(model: StateDict<V>, sizes: seq<nat>, home: string -> nat, i: nat)
    requires i <= |sizes| && Covers(model, sizes, home)
    ensures Offset(CutAll(model, sizes, home), i) >= Start(sizes, i)
    ensures Offset(CutAll(model, sizes, home), i) == Start(sizes, i) <==> forall j | 0 <= j < i :: sizes[j] > 0
  {
    if i > 0 {
      var stages := CutAll(model, sizes, home);
      OffsetAtLeastStart(model, sizes, home, i - 1);
      CutStageStep(model, sizes, home, i - 1);
      AllPositiveBelow(sizes, i);
      assert Offset(stages, i) == Offset(stages, i - 1) + StageStep(stages[i - 1]);
      assert Start(sizes, i) == Start(sizes, i - 1) + sizes[i - 1];
    }
  }

  lemma AllPositiveBelow(sizes: seq<nat>, i: nat)
    requires 0 < i <= |sizes|
    ensures (forall j | 0 <= j < i :: sizes[j] > 0) <==> (forall j | 0 <= j < i - 1 :: sizes[j] > 0) && sizes[i - 1] > 0
  {
  }

  /** The entries of the model that the first n stages hold. */
  ghost function Held<V>(model: StateDict<V>, sizes: seq<nat>, home: string -> nat, n: nat): StateDict<V>
    requires n <= |sizes|
  {
    map g | g in model && IsHeld(g, sizes, home, n) :: model[g]
  }

  ghost predicate IsHeld(g: Entry, sizes: seq<nat>, home: string -> nat, n: nat)
    requires n <= |sizes|
  {
    match g
    case LayerEntry(l, _) => l < Start(sizes, n)
    case GlobalEntry(name) => home(name) < n
  }

  /** Dictionaries that take their values from one model join by their keys. */
  lemma JoinOfParts<V>(model: StateDict<V>, a: StateDict<V>, b: StateDict<V>, c: StateDict<V>)
    requires a.Keys + b.Keys == c.Keys <= model.Keys
    requires forall g | g in a :: a[g] == model[g]
    requires forall g | g in b :: b[g] == model[g]
    requires forall g | g in c :: c[g] == model[g]
    ensures a + b == c
  {
  }

  lemma ShiftedCutComesFromModel<V>(model: StateDict<V>, sizes: seq<nat>, home: string -> nat, i: nat, shift: nat, g: Entry)
    requires i < |sizes|
    requires shift == Start(sizes, i) || sizes[i] == 0
    requires g in Shifted(Cut(model, sizes, home, i), shift)
    ensures g in model && OnStage(g, sizes, home, i) && Shifted(Cut(model, sizes, home, i), shift)[g] == model[g]
  {
    var stage := Cut(model, sizes, home, i);
    var e :| e in stage && g == Renumber(e, shift);
    ShiftedHas(stage, shift, e);
    CutComesFromModel(model, sizes, home, i, e);
    assert g == Renumber(e, Start(sizes, i));
  }

  lemma ModelIsInShiftedCut<V>(model: StateDict<V>, sizes: seq<nat>, home: string -> nat, i: nat, shift: nat, g: Entry)
    requires i < |sizes|
    requires shift == Start(sizes, i) || sizes[i] == 0
    requires g in model && OnStage(g, sizes, home, i)
    ensures g in Shifted(Cut(model, sizes, home, i), shift)
  {
    var e := LocalEntry(g, Start(sizes, i));
    CutHas(model, sizes, home, i, g);
    assert Renumber(e, shift) == g;
    ShiftedHas(Cut(model, sizes, home, i), shift, e);
  }

  ghost function StageKeys<V>(model: StateDict<V>, sizes: seq<nat>, home: string -> nat, i: nat): set<Entry>
    requires i < |sizes|
  {
    set g | g in model && OnStage(g, sizes, home, i)
  }

  lemma HeldKeys<V>(model: StateDict<V>, sizes: seq<nat>, home: string -> nat, i: nat)
    requires i < |sizes|
    ensures Held(model, sizes, home, i + 1).Keys == Held(model, sizes, home, i).Keys + StageKeys(model, sizes, home, i)
  {
  }

  lemma ShiftedCutKeys<V>(model: StateDict<V>, sizes: seq<nat>, home: string -> nat, i: nat, shift: nat)
    requires i < |sizes|
    requires shift == Start(sizes, i) || sizes[i] == 0
    ensures Shifted(Cut(model, sizes, home, i), shift).Keys == StageKeys(model, sizes, home, i)
  {
    forall g | g in Shifted(Cut(model, sizes, home, i), shift)
      ensures g in StageKeys(model, sizes, home, i)
    {
      ShiftedCutComesFromModel(model, sizes, home, i, shift, g);
    }
    forall g | g in StageKeys(model, sizes, home, i)
      ensures g in Shifted(Cut(model, sizes, home, i), shift)
    {
      ModelIsInShiftedCut(model, sizes, home, i, shift, g);
    }
  }

  lemma ShiftingACutStage<V>(model: StateDict<V>, sizes: seq<nat>, home: string -> nat, i: nat, shift: nat)
    requires i < |sizes|
    requires shift == Start(sizes, i) || sizes[i] == 0
    ensures Held(model, sizes, home, i) + Shifted(Cut(model, sizes, home, i), shift) == Held(model, sizes, home, i + 1)
  {
    var shifted := Shifted(Cut(model, sizes, home, i), shift);
    forall g | g in shifted
      ensures shifted[g] == model[g]
    {
      ShiftedCutComesFromModel(model, sizes, home, i, shift, g);
    }
    HeldKeys(model, sizes, home, i);
    ShiftedCutKeys(model, sizes, home, i, shift);
    JoinOfParts(model, Held(model, sizes, home, i), shifted, Held(model, sizes, home, i + 1));
  }

  lemma {:induction false} MergedIsHeld<V>(model: StateDict<V>, sizes: seq<nat>, home: string -> nat, n: nat)
    requires n <= |sizes| && Covers(model, sizes, home) && !EmptyStageBeforeLayers(sizes)
    ensures Merged(CutAll(model, sizes, home), n) == Held(model, sizes, home, n)
  {
    if n > 0 {
      var stages := CutAll(model, sizes, home);
      var offset := Offset(stages, n - 1);
      MergedIsHeld(model, sizes, home, n - 1);
      OffsetAtLeastStart(model, sizes, home, n - 1);
      assert sizes[n - 1] > 0 ==> forall j | 0 <= j < n - 1 :: sizes[j] > 0;
      ShiftingACutStage(model, sizes, home, n - 1, offset);
      assert stages[n - 1] == Cut(model, sizes, home, n - 1);
      assert Merged(stages, n) == Merged(stages, n - 1) + Shifted(stages[n - 1], offset);
    } else {
      assert Held(model, sizes, home, 0) == map[];
    }
  }

  lemma {:induction false} MergedKeepsKeys<V>(stages: seq<StateDict<V>>, i: nat, n: nat, e: Entry)
    requires i < n <= |stages| && e in stages[i]
    ensures Renumber(e, Offset(stages, i)) in Merged(stages, n)
  {
    if i < n - 1 {
      MergedKeepsKeys(stages, i, n - 1, e);
    } else {
      ShiftedHas(stages[i], Offset(stages, i), e);
    }
  }

  /** An empty stage shifts the last layers of the model past its end. */
  lemma EmptyStageDisplacesLayers<V>(model: StateDict<V>, sizes: seq<nat>, home: string -> nat, i: nat, j: nat)
    requires Covers(model, sizes, home)
    requires i < j < |sizes| && sizes[i] == 0 && sizes[j] > 0
    requires forall k | j < k < |sizes| :: sizes[k] == 0
    ensures Merged(CutAll(model, sizes, home), |sizes|) != model
  {
    var stages := CutAll(model, sizes, home);
    OffsetAtLeastStart(model, sizes, home, j);
    NothingAfter(sizes, j + 1);
    var last := Start(sizes, j) + sizes[j] - 1;
    assert last in LayerNumbers(model.Keys);
    var g :| g in model.Keys && g.LayerEntry? && g.layer == last;
    var e := LocalEntry(g, Start(sizes, j));
    CutHas(model, sizes, home, j, g);
    MergedKeepsKeys(stages, j, |sizes|, e);
    var displaced := Renumber(e, Offset(stages, j));
    assert displaced.layer >= Start(sizes, |sizes|);
    assert displaced.layer !in LayerNumbers(model.Keys);
    assert displaced !in model.Keys;
  }

  lemma {:induction false} NothingAfter(sizes: seq<nat>, i: nat)
    requires i <= |sizes| && forall k | i <= k < |sizes| :: sizes[k] == 0
    ensures Start(sizes, |sizes|) == Start(sizes, i)
    decreases |sizes| - i
  {
    if i < |sizes| {
      NothingAfter(sizes, i + 1);
    }
  }

  lemma LastNonEmpty(sizes: seq<nat>, j: nat) returns (last: nat)
    requires j < |sizes| && sizes[j] > 0
    ensures j <= last < |sizes| && sizes[last] > 0 && forall k | last < k < |sizes| :: sizes[k] == 0
  {
    last := |sizes| - 1;
    while sizes[last] == 0
      invariant j <= last < |sizes| && forall k | last < k < |sizes| :: sizes[k] == 0
      decreases last
    {
      last := last - 1;
    }
  }

  /** Exact: cutting a model into pipeline stages and merging it back is the identity, with every entry under its own
      number and none overwritten or missing, if and only if no empty stage comes before a stage with layers. */
  lemma CutThenMergeIsIdentityIff<V>(model: StateDict<V>, sizes: seq<nat>, home: string -> nat)
    requires Covers(model, sizes, home)
    ensures Merged(CutAll(model, sizes, home), |sizes|) == model <==> !EmptyStageBeforeLayers(sizes)
  {
    if EmptyStageBeforeLayers(sizes) {
      var i, j :| 0 <= i < j < |sizes| && sizes[i] == 0 && sizes[j] > 0;
      var last := LastNonEmpty(sizes, j);
      EmptyStageDisplacesLayers(model, sizes, home, i, last);
    } else {
      MergedIsHeld(model, sizes, home, |sizes|);
      forall g | g in model
        ensures g in Held(model, sizes, home, |sizes|)
      {
        if g.LayerEntry? {
          assert g.layer in LayerNumbers(model.Keys);
        }
      }
    }
  }
}
