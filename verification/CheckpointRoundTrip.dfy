/** The whole merger against the whole sharding: pipeline stages, virtual stages and tensor ranks at once. */
module CheckpointRoundTrip {
  import opened TensorMerge
  import opened LayerMerge

  type Model<E> = StateDict<Param<E>>

  /** How a model is spread over ranks: stage sizes in the order the merger visits the stages, where the entries outside
      the layers live, the head shape, and the settings of the merge. */
  datatype Plan = Plan(sizes: seq<nat>, home: string -> nat, heads: HeadShape, isValueModel: bool)

  /** The job merges a parameter across tensor ranks as the merger does. */
  ghost predicate MergesByClass<E(!new)>(job: Job<Tensor<E>, Param<E>>, plan: Plan) {
    forall name: string, data: seq<Tensor<E>> | ShardsFit(data, ClassOf(name, plan.isValueModel), plan.heads) ::
      job.merge(name, data) == MergedParam(data, ClassOf(name, plan.isValueModel), plan.heads)
  }

  /** Tensor rank t of pipeline rank p holds, for virtual stage s, the t-th shard of every parameter of that stage. It may
      hold anything under the names the merger skips: `extra_state`, and with tied embeddings a copy of the output layer. */
  ghost predicate HoldsShards<E>(job: Job<Tensor<E>, Param<E>>, model: Model<E>, plan: Plan, s: nat, p: nat)
    requires job.WellFormed() && p < job.ppSize && s < job.vppSize
    requires |job.Stages(s, p)| < |plan.sizes|
  {
    var stage := Cut(model, plan.sizes, plan.home, |job.Stages(s, p)|);
    job.HasShape(p, s);
    (set e | e in job.shards[p][0][s] && !Skipped(e.name, job.tied)) == stage.Keys
    && forall e | e in stage :: ShardedAs(job.TpData(p, s, e), stage[e], ClassOf(e.name, plan.isValueModel), plan.heads)
  }

  ghost predicate NothingSkipped<E>(model: Model<E>, tied: bool) {
    forall g | g in model :: !Skipped(g.name, tied)
  }

  /** The entries the merger does not skip. */
  function Restorable<E>(model: Model<E>, tied: bool): (kept: Model<E>)
    ensures NothingSkipped(kept, tied)
  {
    map g | g in model && !Skipped(g.name, tied) :: model[g]
  }

  ghost predicate ShardedAs<E>(data: seq<Tensor<E>>, param: Param<E>, c: ParamClass, h: HeadShape) {
    Shardable(param, c, h, |data|) && data == ShardParam(param, c, h, |data|)
  }

  lemma StageIsRecovered<E(!new)>(job: Job<Tensor<E>, Param<E>>, model: Model<E>, plan: Plan, s: nat, p: nat)
    requires job.WellFormed() && p < job.ppSize && s < job.vppSize
    requires |job.Stages(s, p)| < |plan.sizes|
    requires MergesByClass(job, plan) && HoldsShards(job, model, plan, s, p)
    requires NothingSkipped(model, job.tied)
    ensures job.StageAt(p, s) == Cut(model, plan.sizes, plan.home, |job.Stages(s, p)|)
  {
    var i := |job.Stages(s, p)|;
    var stage := Cut(model, plan.sizes, plan.home, i);
    job.HasShape(p, s);
    forall e | e in stage
      ensures !Skipped(e.name, job.tied) && job.merge(e.name, job.TpData(p, s, e)) == stage[e]
    {
      CutComesFromModel(model, plan.sizes, plan.home, i, e);
      var c, data := ClassOf(e.name, plan.isValueModel), job.TpData(p, s, e);
      assert ShardedAs(data, stage[e], c, plan.heads);
      MergeUndoesSharding(stage[e], c, plan.heads, |data|);
    }
  }

  ghost predicate StageIs<E>(job: Job<Tensor<E>, Param<E>>, stages: seq<Model<E>>, s: nat, p: nat)
    requires job.WellFormed() && p < job.ppSize && s < job.vppSize
  {
    var i := |job.Stages(s, p)|;
    i < |stages| && job.StageAt(p, s) == stages[i]
  }

  lemma {:induction false} StagesInOrder<E>(job: Job<Tensor<E>, Param<E>>, stages: seq<Model<E>>, s: nat, p: nat)
    requires job.WellFormed()
    requires (s < job.vppSize && p <= job.ppSize) || (s == job.vppSize && p == 0)
    requires forall s', p' :: 0 <= s' < job.vppSize && 0 <= p' < job.ppSize ==> StageIs(job, stages, s', p')
    ensures job.Stages(s, p) <= stages
    decreases s, p
  {
    if p > 0 {
      StagesInOrder(job, stages, s, p - 1);
      assert StageIs(job, stages, s, p - 1);
    } else if s > 0 {
      StagesInOrder(job, stages, s - 1, job.ppSize);
    }
  }

  ghost predicate HoldsAllShards<E>(job: Job<Tensor<E>, Param<E>>, model: Model<E>, plan: Plan)
    requires job.WellFormed()
  {
    forall s, p :: 0 <= s < job.vppSize && 0 <= p < job.ppSize ==>
      |job.Stages(s, p)| < |plan.sizes| && HoldsShards(job, model, plan, s, p)
  }

  lemma StagesAreCut<E(!new)>(job: Job<Tensor<E>, Param<E>>, model: Model<E>, plan: Plan)
    requires job.WellFormed() && MergesByClass(job, plan) && NothingSkipped(model, job.tied)
    requires HoldsAllShards(job, model, plan)
    ensures job.Stages(job.vppSize, 0) <= CutAll(model, plan.sizes, plan.home)
  {
    var cut := CutAll(model, plan.sizes, plan.home);
    forall s, p | 0 <= s < job.vppSize && 0 <= p < job.ppSize
      ensures StageIs(job, cut, s, p)
    {
      StageIsRecovered(job, model, plan, s, p);
    }
    StagesInOrder(job, cut, job.vppSize, 0);
  }

  /** Sharding a model over pipeline, virtual-pipeline and tensor ranks and merging all shards gives back its entries that
      the merger does not skip, for every rank count, stage split and parameter class, if and only if no empty stage comes
      before one with layers. It gives back the whole model exactly when, besides, there is nothing to skip. */
  lemma MergingAllShardsRestoresModelIff<E(!new)>(job: Job<Tensor<E>, Param<E>>, model: Model<E>, plan: Plan)
    requires job.WellFormed() && MergesByClass(job, plan)
    requires HoldsAllShards(job, Restorable(model, job.tied), plan) && |job.Stages(job.vppSize, 0)| == |plan.sizes|
    requires Covers(Restorable(model, job.tied), plan.sizes, plan.home)
    ensures Merged(job.Stages(job.vppSize, 0), |plan.sizes|) == Restorable(model, job.tied)
            <==> !EmptyStageBeforeLayers(plan.sizes)
    ensures Merged(job.Stages(job.vppSize, 0), |plan.sizes|) == model
            <==> !EmptyStageBeforeLayers(plan.sizes) && NothingSkipped(model, job.tied)
  {
    var kept := Restorable(model, job.tied);
    StagesAreCut(job, kept, plan);
    var cut := CutAll(kept, plan.sizes, plan.home);
    assert job.Stages(job.vppSize, 0) == cut;
    CutThenMergeIsIdentityIff(kept, plan.sizes, plan.home);
    MergedHasNothingSkipped(kept, plan, job.tied, |plan.sizes|);
    SkippedIsMissing(Merged(cut, |plan.sizes|), model, job.tied);
  }

  /** A dictionary without skipped names is the model only if the model has none either. */
  lemma SkippedIsMissing<E>(merged: Model<E>, model: Model<E>, tied: bool)
    requires NothingSkipped(merged, tied)
    ensures merged == model <==> merged == Restorable(model, tied) && NothingSkipped(model, tied)
  {
    if NothingSkipped(model, tied) {
      assert Restorable(model, tied) == model;
    } else {
      var g :| g in model && Skipped(g.name, tied);
      assert g !in merged;
    }
  }

  lemma ShiftedStageHasNothingSkipped<E>(model: Model<E>, plan: Plan, tied: bool, i: nat, shift: nat)
    requires NothingSkipped(model, tied) && i < |plan.sizes|
    ensures NothingSkipped(Shifted(Cut(model, plan.sizes, plan.home, i), shift), tied)
  {
    var stage := Cut(model, plan.sizes, plan.home, i);
    forall g | g in Shifted(stage, shift)
      ensures !Skipped(g.name, tied)
    {
      var e :| e in stage && g == Renumber(e, shift);
      CutComesFromModel(model, plan.sizes, plan.home, i, e);
    }
  }

  /** The stages of a model without skipped names merge into nothing skipped, whatever the offsets. */
  lemma {:induction false} MergedHasNothingSkipped<E>(model: Model<E>, plan: Plan, tied: bool, n: nat)
    requires NothingSkipped(model, tied) && n <= |plan.sizes|
    ensures NothingSkipped(Merged(CutAll(model, plan.sizes, plan.home), n), tied)
  {
    if n > 0 {
      var cut := CutAll(model, plan.sizes, plan.home);
      var before, stage := Merged(cut, n - 1), Shifted(cut[n - 1], Offset(cut, n - 1));
      MergedHasNothingSkipped(model, plan, tied, n - 1);
      ShiftedStageHasNothingSkipped(model, plan, tied, n - 1, Offset(cut, n - 1));
      assert Merged(cut, n) == before + stage;
    }
  }
}
