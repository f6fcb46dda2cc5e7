/** The per-token divergence averaged over the answer, with the next-token shift: position t is scored when token t + 1 is
    an answer token. The divergence of two states is an arbitrary function that is zero on equal states. */
module DivergenceMetrics {
  import opened Options
  import opened AttentionFlow
  import opened AttentionMasks

  type Divergence<!S> = (S, S) -> real

  ghost predicate ZeroOnEqual<S(!new)>(d: Divergence<S>) {
    forall s: S :: d(s, s) == 0.0
  }

  /** Sum over the first `upTo` positions of the terms the shifted mask selects. */
  function ShiftedSum<S>(d: Divergence<S>, student: seq<S>, teacher: seq<S>, answer: seq<bool>, upTo: nat): real
    requires |student| == |teacher| && upTo <= |student|
  {
    if upTo == 0 then 0.0
    else
      ShiftedSum(d, student, teacher, answer, upTo - 1)
      + if At(answer, upTo) then d(student[upTo - 1], teacher[upTo - 1]) else 0.0
  }

  function ShiftedCount(answer: seq<bool>, upTo: nat): nat {
    if upTo == 0 then 0 else ShiftedCount(answer, upTo - 1) + if At(answer, upTo) then 1 else 0
  }

  const CLAMP: real := 0.000000001

  /** The metric of one row; None is the NaN the source returns when no position is scored. */
  function Metric<S>(d: Divergence<S>, student: seq<S>, teacher: seq<S>, answer: seq<bool>): Option<real>
    requires |student| == |teacher|
  {
    var scored := if |student| == 0 then 0 else |student| - 1;
    var count := ShiftedCount(answer, scored);
    if count == 0 then None
    else Some(ShiftedSum(d, student, teacher, answer, scored) / if count as real < CLAMP then CLAMP else count as real)
  }

  /** States that agree before a cut give the same sum up to the cut. */
  lemma {:induction false} SumReadsOnlyPrefix<S>(d: Divergence<S>, student1: seq<S>, student2: seq<S>, teacher1: seq<S>,
                                                teacher2: seq<S>, answer: seq<bool>, cut: nat, upTo: nat)
    requires |student1| == |student2| == |teacher1| == |teacher2| && upTo <= |student1|
    requires AgreeOn(student1, student2, Prefix(cut)) && AgreeOn(teacher1, teacher2, Prefix(cut))
    requires forall i: nat :: At(answer, i) ==> i <= cut
    ensures ShiftedSum(d, student1, teacher1, answer, upTo) == ShiftedSum(d, student2, teacher2, answer, upTo)
  {
    if upTo > 0 {
      SumReadsOnlyPrefix(d, student1, student2, teacher1, teacher2, answer, cut, upTo - 1);
      assert At(answer, upTo) ==> upTo - 1 in Prefix(cut);
    }
  }

  /** Where the first `first` states agree, marking token `first` as answer adds nothing to the sum. */
  lemma {:induction false} FirstTermVanishes<S(!new)>(d: Divergence<S>, student: seq<S>, teacher: seq<S>,
                                                      answer: seq<bool>, first: nat, upTo: nat)
    requires |student| == |teacher| && upTo <= |student|
    requires ZeroOnEqual(d) && first < |answer|
    requires AgreeOn(student, teacher, Prefix(first))
    ensures ShiftedSum(d, student, teacher, answer, upTo) == ShiftedSum(d, student, teacher, answer[first := false], upTo)
  {
    if upTo > 0 {
      FirstTermVanishes(d, student, teacher, answer, first, upTo - 1);
      if upTo == first {
        assert upTo - 1 in Prefix(first);
        assert d(student[upTo - 1], teacher[upTo - 1]) == 0.0;
      } else {
        assert At(answer, upTo) == At(answer[first := false], upTo);
      }
    }
  }

  ghost predicate IsFirstAnswer(r: Regions, first: nat) {
    At(r.answer, first) && forall i: nat | i < first :: !At(r.answer, i)
  }

  /** The direct-effect sum never contains the token where the answer starts: via_cot and full agree on everything that
      predicts it. */
  lemma DirectEffectSkipsFirstToken<S(!new)>(mix: Mixer<S>, d: Divergence<S>, r: Regions, embeddings: seq<S>, first: nat,
                                             depth: nat, upTo: nat)
    requires ZeroOnEqual(d) && r.Fits(|embeddings|) && IsFirstAnswer(r, first) && upTo <= |embeddings|
    ensures var student, teacher := Hidden(mix, Resolve(r, ViaCot), embeddings, depth),
                                    Hidden(mix, Resolve(r, Full), embeddings, depth);
            ShiftedSum(d, student, teacher, r.answer, upTo)
            == ShiftedSum(d, student, teacher, r.answer[first := false], upTo)
  {
    var student, teacher := Hidden(mix, Resolve(r, ViaCot), embeddings, depth),
                            Hidden(mix, Resolve(r, Full), embeddings, depth);
    assert r.answer[first];
    ViaCotMatchesFullBeforeAnswer(mix, r, embeddings, first, depth);
    FirstTermVanishes(d, student, teacher, r.answer, first, upTo);
  }

  lemma {:induction false} NothingMarkedSumsToZero<S>(d: Divergence<S>, student: seq<S>, teacher: seq<S>,
                                                      answer: seq<bool>, upTo: nat)
    requires |student| == |teacher| && upTo <= |student|
    requires forall i: nat :: !At(answer, i)
    ensures ShiftedSum(d, student, teacher, answer, upTo) == 0.0
  {
    if upTo > 0 {
      NothingMarkedSumsToZero(d, student, teacher, answer, upTo - 1);
    }
  }

  lemma {:induction false} CountFindsMark(answer: seq<bool>, i: nat, upTo: nat)
    requires At(answer, i) && 0 < i <= upTo
    ensures ShiftedCount(answer, upTo) > 0
  {
    if i < upTo {
      CountFindsMark(answer, i, upTo - 1);
    }
  }

  /** A one-token answer scores exactly zero direct effect, for every model and depth. */
  lemma OneTokenAnswerHasNoDirectEffect<S(!new)>(mix: Mixer<S>, d: Divergence<S>, r: Regions, embeddings: seq<S>,
                                                 first: nat, depth: nat)
    requires ZeroOnEqual(d) && r.Fits(|embeddings|) && 0 < first
    requires forall i: nat :: At(r.answer, i) <==> i == first
    ensures Metric(d, Hidden(mix, Resolve(r, ViaCot), embeddings, depth), Hidden(mix, Resolve(r, Full), embeddings, depth),
                   r.answer) == Some(0.0)
  {
    var student, teacher := Hidden(mix, Resolve(r, ViaCot), embeddings, depth),
                            Hidden(mix, Resolve(r, Full), embeddings, depth);
    assert At(r.answer, first);
    var cleared := r.answer[first := false];
    DirectEffectSkipsFirstToken(mix, d, r, embeddings, first, depth, |embeddings| - 1);
    forall i: nat ensures !At(cleared, i) {
      assert At(r.answer, i) <==> i == first;
    }
    NothingMarkedSumsToZero(d, student, teacher, cleared, |embeddings| - 1);
    CountFindsMark(r.answer, first, |embeddings| - 1);
  }

  lemma {:induction false} NothingMarkedCountsZero(answer: seq<bool>, upTo: nat)
    requires forall i: nat :: !At(answer, i)
    ensures ShiftedCount(answer, upTo) == 0
  {
    if upTo > 0 {
      NothingMarkedCountsZero(answer, upTo - 1);
    }
  }

  /** Cutting the answer before or after running the model gives the same metric over the kept tokens, for every pair of
      masks. Where the cut does change the states before it, no answer token is left and both metrics are NaN. */
  lemma CutCommutesWithModel<S>(mix: Mixer<S>, d: Divergence<S>, r: Regions, embeddings: seq<S>, cut: nat, depth: nat,
                                student: MaskKind, teacher: MaskKind)
    requires r.Fits(|embeddings|)
    ensures var c := CutAnswer(r, cut);
            Metric(d, Hidden(mix, Resolve(c, student), embeddings, depth), Hidden(mix, Resolve(c, teacher), embeddings, depth),
                   c.answer)
            == Metric(d, Hidden(mix, Resolve(r, student), embeddings, depth),
                      Hidden(mix, Resolve(r, teacher), embeddings, depth), c.answer)
  {
    var c := CutAnswer(r, cut);
    if CutExposesCot(r, cut) {
      NothingMarkedCountsZero(c.answer, if |embeddings| == 0 then 0 else |embeddings| - 1);
    } else {
      CutPreservesStates(mix, r, student, embeddings, cut, depth);
      CutPreservesStates(mix, r, teacher, embeddings, cut, depth);
      if |embeddings| > 0 {
        SumReadsOnlyPrefix(d, Hidden(mix, Resolve(c, student), embeddings, depth),
                           Hidden(mix, Resolve(r, student), embeddings, depth),
                           Hidden(mix, Resolve(c, teacher), embeddings, depth),
                           Hidden(mix, Resolve(r, teacher), embeddings, depth), c.answer, cut, |embeddings| - 1);
      }
    }
  }
}
