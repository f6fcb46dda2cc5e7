/** The four attention masks of the faithfulness metrics, and what each one lets a transformer do. */
module AttentionMasks {
  import opened AttentionFlow

  /** One batch row: which tokens belong to the prompt, the chain of thought and the answer. */
  datatype Regions = Regions(prompt: seq<bool>, cot: seq<bool>, answer: seq<bool>) {
    predicate Fits(n: nat) {
      |prompt| == |cot| == |answer| == n
    }

    /** The answer region, or the chain of thought when no token is marked as answer. */
    function EffectiveAnswer(): seq<bool> {
      if true in answer then answer else cot
    }
  }

  datatype MaskKind = Full | ViaCot | NoPrompt | NoCot

  predicate At(region: seq<bool>, i: nat) {
    i < |region| && region[i]
  }

  function Positions(region: seq<bool>): (s: set<nat>)
    ensures forall i: nat :: i in s <==> At(region, i)
  {
    set i: nat | i < |region| && region[i]
  }

  /** Positions in neither of two regions. */
  function Outside(n: nat, a: seq<bool>, b: seq<bool>): (s: set<nat>)
    ensures forall i: nat :: i in s <==> i < n && !At(a, i) && !At(b, i)
  {
    set i: nat | i < n && !At(a, i) && !At(b, i)
  }

  ghost predicate Disjoint(a: seq<bool>, b: seq<bool>) {
    forall i: nat :: !(At(a, i) && At(b, i))
  }

  /** The masks of the clean metrics: a region is blocked as key for every query. */
  function Resolve(r: Regions, kind: MaskKind): Mask {
    match kind
    case Full => (q: nat, k: nat) => k <= q
    case ViaCot => (q: nat, k: nat) => k <= q && !(At(r.EffectiveAnswer(), q) && At(r.prompt, k))
    case NoPrompt => (q: nat, k: nat) => k <= q && !At(r.prompt, k)
    case NoCot => (q: nat, k: nat) => k <= q && !At(r.cot, k)
  }

  /** The older definition: a blocked region may still attend to itself, and via_cot has no fallback. */
  function ResolveOlder(r: Regions, kind: MaskKind): Mask {
    match kind
    case Full => (q: nat, k: nat) => k <= q
    case ViaCot => (q: nat, k: nat) => k <= q && !(At(r.answer, q) && At(r.prompt, k))
    case NoPrompt => (q: nat, k: nat) => k <= q && !(!At(r.prompt, q) && At(r.prompt, k))
    case NoCot => (q: nat, k: nat) => k <= q && !(!At(r.cot, q) && At(r.cot, k))
  }

  // ---------------------------------------------------------------------------------------------
  // Mediation
  // ---------------------------------------------------------------------------------------------

  /** Under via_cot the prompt reaches the answer only through positions in neither region: two runs that show the
      answer the same embeddings and the same such positions at every layer give identical answer states. */
  lemma CotMediatesAnswer<S>(mix: Mixer<S>, r: Regions, e1: seq<S>, e2: seq<S>, depth: nat)
    requires |e1| == |e2| && r.Fits(|e1|)
    requires AgreeOn(e1, e2, Positions(r.EffectiveAnswer()))
    requires forall layer: nat | layer < depth ::
               AgreeOn(Hidden(mix, Resolve(r, ViaCot), e1, layer), Hidden(mix, Resolve(r, ViaCot), e2, layer),
                       Outside(|e1|, r.prompt, r.EffectiveAnswer()))
    ensures AgreeOn(Hidden(mix, Resolve(r, ViaCot), e1, depth), Hidden(mix, Resolve(r, ViaCot), e2, depth),
                    Positions(r.EffectiveAnswer()))
  {
    var via := Resolve(r, ViaCot);
    SealedRunsAgree(mix, via, via, e1, e2, Positions(r.EffectiveAnswer()), Outside(|e1|, r.prompt, r.EffectiveAnswer()),
                    depth);
  }

  /** A position in neither region that comes after the prompt token p and before the answer token a. */
  predicate Bridges(r: Regions, p: nat, c: nat, a: nat) {
    p < c < a && At(r.prompt, p) && !At(r.prompt, c) && !At(r.EffectiveAnswer(), c)
  }

  ghost predicate PromptIsBridged(r: Regions, a: nat) {
    exists p: nat, c: nat :: Bridges(r, p, c, a)
  }

  /** Without a bridge, no prompt token flows to a, nor to anything a can see. */
  lemma {:induction false} UnbridgedPromptIsSealed(r: Regions, n: nat, p: nat, q: nat, a: nat, depth: nat)
    requires r.Fits(n) && a < n && q <= a && !At(r.prompt, q)
    requires At(r.EffectiveAnswer(), a) && At(r.prompt, p) && !PromptIsBridged(r, a)
    ensures !Flows(Resolve(r, ViaCot), n, p, q, depth)
    decreases depth
  {
    if depth > 0 {
      UnbridgedPromptIsSealed(r, n, p, q, a, depth - 1);
      forall k: nat | k < n && Resolve(r, ViaCot)(q, k)
        ensures !Flows(Resolve(r, ViaCot), n, p, k, depth - 1)
      {
        assert !Bridges(r, k, q, a);
        UnbridgedPromptIsSealed(r, n, p, k, a, depth - 1);
      }
    }
  }

  lemma TwoLayersCrossABridge(r: Regions, n: nat, p: nat, c: nat, a: nat, depth: nat)
    requires r.Fits(n) && a < n && depth >= 2
    requires Bridges(r, p, c, a)
    ensures Flows(Resolve(r, ViaCot), n, p, a, depth)
    decreases depth
  {
    var via := Resolve(r, ViaCot);
    if depth > 2 {
      TwoLayersCrossABridge(r, n, p, c, a, depth - 1);
    } else {
      assert via(c, p) && Flows(via, n, p, p, 0);
      assert via(a, c) && Flows(via, n, p, c, 1);
    }
  }

  /** Exact: an answer state depends on the prompt embeddings for some model if and only if the model has two layers
      and a position in neither region lies between a prompt token and the answer token. */
  lemma AnswerDependsOnPromptIffBridged(r: Regions, n: nat, a: nat, depth: nat)
    requires r.Fits(n) && a < n && At(r.EffectiveAnswer(), a) && !At(r.prompt, a)
    ensures SomeModelDepends(Resolve(r, ViaCot), n, Positions(r.prompt), a, depth)
            <==> depth >= 2 && PromptIsBridged(r, a)
  {
    var via := Resolve(r, ViaCot);
    DependsIffFlows(via, n, Positions(r.prompt), a, depth);
    if PromptIsBridged(r, a) {
      var p: nat, c: nat :| Bridges(r, p, c, a);
      if depth >= 2 {
        TwoLayersCrossABridge(r, n, p, c, a, depth);
      } else {
        assert forall k: nat | k < n && via(a, k) :: !At(r.prompt, k);
      }
    } else {
      forall p: nat | p < n && p in Positions(r.prompt)
        ensures !Flows(via, n, p, a, depth)
      {
        UnbridgedPromptIsSealed(r, n, p, a, a, depth);
      }
    }
  }

  // ---------------------------------------------------------------------------------------------
  // Past the chain of thought
  // ---------------------------------------------------------------------------------------------

  /** via_cot with the chain of thought also blocked, as key for every query: whatever the prompt still tells the answer, it
      tells past the chain of thought. */
  function ViaCotPastCot(r: Regions): Mask {
    (q: nat, k: nat) => k <= q && !(At(r.EffectiveAnswer(), q) && At(r.prompt, k)) && !At(r.cot, k)
  }

  /** A bridge outside the chain of thought. */
  predicate BridgesPastCot(r: Regions, p: nat, c: nat, a: nat) {
    Bridges(r, p, c, a) && !At(r.cot, p) && !At(r.cot, c)
  }

  ghost predicate PromptLeaksPastCot(r: Regions, a: nat) {
    exists p: nat, c: nat :: BridgesPastCot(r, p, c, a)
  }

  lemma {:induction false} NoLeakPastCot(r: Regions, n: nat, p: nat, q: nat, a: nat, depth: nat)
    requires r.Fits(n) && a < n && q <= a && !At(r.prompt, q) && (q == a || !At(r.cot, q))
    requires At(r.EffectiveAnswer(), a) && At(r.prompt, p) && !PromptLeaksPastCot(r, a)
    ensures !Flows(ViaCotPastCot(r), n, p, q, depth)
    decreases depth
  {
    if depth > 0 {
      NoLeakPastCot(r, n, p, q, a, depth - 1);
      forall k: nat | k < n && ViaCotPastCot(r)(q, k)
        ensures !Flows(ViaCotPastCot(r), n, p, k, depth - 1)
      {
        assert !BridgesPastCot(r, k, q, a);
        NoLeakPastCot(r, n, p, k, a, depth - 1);
      }
    }
  }

  lemma TwoLayersLeakPastCot(r: Regions, n: nat, p: nat, c: nat, a: nat, depth: nat)
    requires r.Fits(n) && a < n && depth >= 2 && BridgesPastCot(r, p, c, a)
    ensures Flows(ViaCotPastCot(r), n, p, a, depth)
    decreases depth
  {
    var mask := ViaCotPastCot(r);
    if depth > 2 {
      TwoLayersLeakPastCot(r, n, p, c, a, depth - 1);
    } else {
      assert mask(c, p) && Flows(mask, n, p, p, 0);
      assert mask(a, c) && Flows(mask, n, p, c, 1);
    }
  }

  /** Exact: with the chain of thought out of reach, an answer token depends on the prompt for some model if and only if there
      are two layers and a position in none of the three regions between a prompt token and the answer token. */
  lemma AnswerDependsPastCotIff(r: Regions, n: nat, a: nat, depth: nat)
    requires r.Fits(n) && a < n && At(r.EffectiveAnswer(), a) && !At(r.prompt, a)
    ensures SomeModelDepends(ViaCotPastCot(r), n, Positions(r.prompt), a, depth)
            <==> depth >= 2 && PromptLeaksPastCot(r, a)
  {
    var mask := ViaCotPastCot(r);
    DependsIffFlows(mask, n, Positions(r.prompt), a, depth);
    if PromptLeaksPastCot(r, a) {
      var p: nat, c: nat :| BridgesPastCot(r, p, c, a);
      if depth >= 2 {
        TwoLayersLeakPastCot(r, n, p, c, a, depth);
      } else {
        assert forall k: nat | k < n && mask(a, k) :: !At(r.prompt, k);
      }
    } else {
      forall p: nat | p < n && p in Positions(r.prompt)
        ensures !Flows(mask, n, p, a, depth)
      {
        NoLeakPastCot(r, n, p, a, a, depth);
      }
    }
  }

  // ---------------------------------------------------------------------------------------------
  // The two definitions of the masks
  // ---------------------------------------------------------------------------------------------

  /** no_prompt under either definition, on inputs that differ only in prompt embeddings, gives the same states at
      every other position. */
  lemma NoPromptDefinitionsAgree<S>(mix: Mixer<S>, r: Regions, e1: seq<S>, e2: seq<S>, depth: nat)
    requires |e1| == |e2| && r.Fits(|e1|)
    requires AgreeOn(e1, e2, Outside(|e1|, r.prompt, r.prompt))
    ensures AgreeOn(Hidden(mix, Resolve(r, NoPrompt), e1, depth), Hidden(mix, ResolveOlder(r, NoPrompt), e2, depth),
                    Outside(|e1|, r.prompt, r.prompt))
  {
    SealedRunsAgree(mix, Resolve(r, NoPrompt), ResolveOlder(r, NoPrompt), e1, e2, Outside(|e1|, r.prompt, r.prompt), {},
                    depth);
  }

  lemma NoCotDefinitionsAgree<S>(mix: Mixer<S>, r: Regions, e1: seq<S>, e2: seq<S>, depth: nat)
    requires |e1| == |e2| && r.Fits(|e1|)
    requires AgreeOn(e1, e2, Outside(|e1|, r.cot, r.cot))
    ensures AgreeOn(Hidden(mix, Resolve(r, NoCot), e1, depth), Hidden(mix, ResolveOlder(r, NoCot), e2, depth),
                    Outside(|e1|, r.cot, r.cot))
  {
    SealedRunsAgree(mix, Resolve(r, NoCot), ResolveOlder(r, NoCot), e1, e2, Outside(|e1|, r.cot, r.cot), {}, depth);
  }

  ghost predicate SameRow(m1: Mask, m2: Mask, q: nat) {
    forall k: nat :: m1(q, k) == m2(q, k)
  }

  /** Which rows the two definitions share. */
  lemma DefinitionsShareRow(r: Regions, q: nat)
    requires r.Fits(|r.prompt|)
    ensures SameRow(Resolve(r, NoPrompt), ResolveOlder(r, NoPrompt), q) <==> !At(r.prompt, q)
    ensures SameRow(Resolve(r, NoCot), ResolveOlder(r, NoCot), q) <==> !At(r.cot, q)
    ensures SameRow(Resolve(r, ViaCot), ResolveOlder(r, ViaCot), q)
            <==> true in r.answer || !At(r.cot, q) || forall k: nat | k <= q :: !At(r.prompt, k)
  {
    assert Resolve(r, NoPrompt)(q, q) == !At(r.prompt, q) && ResolveOlder(r, NoPrompt)(q, q);
    assert Resolve(r, NoCot)(q, q) == !At(r.cot, q) && ResolveOlder(r, NoCot)(q, q);
    if !(true in r.answer) {
      assert forall k: nat :: ResolveOlder(r, ViaCot)(q, k) == (k <= q);
      assert forall k: nat :: Resolve(r, ViaCot)(q, k) == (k <= q && !(At(r.cot, q) && At(r.prompt, k)));
    }
  }

  // ---------------------------------------------------------------------------------------------
  // Prefixes
  // ---------------------------------------------------------------------------------------------

  function Prefix(cut: nat): (s: set<nat>)
    ensures forall i: nat :: i in s <==> i < cut
  {
    if cut == 0 then {} else Prefix(cut - 1) + {cut - 1}
  }

  /** The masks are causal: if two of them share the rows before a cut, they share the states before it. */
  lemma SharedRowsShareStates<S>(mix: Mixer<S>, r1: Regions, kind1: MaskKind, r2: Regions, kind2: MaskKind,
                                 embeddings: seq<S>, cut: nat, depth: nat)
    requires forall q: nat | q < cut :: SameRow(Resolve(r1, kind1), Resolve(r2, kind2), q)
    ensures AgreeOn(Hidden(mix, Resolve(r1, kind1), embeddings, depth),
                    Hidden(mix, Resolve(r2, kind2), embeddings, depth), Prefix(cut))
  {
    var m1, m2 := Resolve(r1, kind1), Resolve(r2, kind2);
    forall q, k: nat | q in Prefix(cut) && k < |embeddings|
      ensures m1(q, k) == m2(q, k) && (m1(q, k) ==> k in Prefix(cut))
    {
      assert SameRow(m1, m2, q);
    }
    SealedRunsAgree(mix, m1, m2, embeddings, embeddings, Prefix(cut), {}, depth);
  }

  /** Before the first answer token, via_cot is the full causal model. */
  lemma ViaCotMatchesFullBeforeAnswer<S>(mix: Mixer<S>, r: Regions, embeddings: seq<S>, first: nat, depth: nat)
    requires forall q: nat | q < first :: !At(r.EffectiveAnswer(), q)
    ensures AgreeOn(Hidden(mix, Resolve(r, ViaCot), embeddings, depth), Hidden(mix, Resolve(r, Full), embeddings, depth),
                    Prefix(first))
  {
    SharedRowsShareStates(mix, r, ViaCot, r, Full, embeddings, first, depth);
  }

  // ---------------------------------------------------------------------------------------------
  // Cutting the answer
  // ---------------------------------------------------------------------------------------------

  /** `answer[cut..] = False`. */
  function ClearFrom(region: seq<bool>, cut: nat): (cleared: seq<bool>)
    ensures |cleared| == |region|
    ensures forall i: nat :: At(cleared, i) <==> At(region, i) && i < cut
  {
    seq(|region|, i requires 0 <= i < |region| => region[i] && i < cut)
  }

  function CutAnswer(r: Regions, cut: nat): Regions {
    r.(answer := ClearFrom(r.answer, cut))
  }

  /** The only way a cut can change what is computed before it: it removes the last answer token, so via_cot falls
      back to the chain of thought and starts to block the prompt there. */
  ghost predicate CutExposesCot(r: Regions, cut: nat) {
    && true in r.answer
    && (forall i: nat | i < cut :: !At(r.answer, i))
    && exists k: nat, q: nat :: BlockedByFallback(r, k, q) && q < cut
  }

  predicate BlockedByFallback(r: Regions, k: nat, q: nat) {
    k <= q && At(r.cot, q) && At(r.prompt, k)
  }

  lemma CutKeepsAnswerIffTokenBefore(r: Regions, cut: nat)
    ensures true in CutAnswer(r, cut).answer <==> exists i: nat :: i < cut && At(r.answer, i)
  {
    var cleared := ClearFrom(r.answer, cut);
    if i: nat :| i < cut && At(r.answer, i) {
      assert At(cleared, i) && cleared[i];
    }
    if true in cleared {
      var i: nat :| i < |cleared| && cleared[i];
      assert At(cleared, i);
    }
  }

  lemma CutKeepsRowsUnlessCotIsExposed(r: Regions, kind: MaskKind, cut: nat)
    requires kind != ViaCot || !CutExposesCot(r, cut)
    ensures forall q: nat | q < cut :: SameRow(Resolve(CutAnswer(r, cut), kind), Resolve(r, kind), q)
  {
    CutKeepsAnswerIffTokenBefore(r, cut);
    var c := CutAnswer(r, cut);
    if kind == ViaCot {
      forall q: nat, k: nat | q < cut
        ensures Resolve(c, ViaCot)(q, k) == Resolve(r, ViaCot)(q, k)
      {
        assert At(c.answer, q) == At(r.answer, q);
        if true in c.answer {
          var i: nat :| i < cut && At(r.answer, i);
          assert r.answer[i];
          assert c.EffectiveAnswer() == c.answer && r.EffectiveAnswer() == r.answer;
        } else if true in r.answer {
          assert c.EffectiveAnswer() == r.cot && r.EffectiveAnswer() == r.answer;
          assert !At(r.answer, q);
          assert !BlockedByFallback(r, k, q);
        } else {
          assert c.EffectiveAnswer() == r.cot && r.EffectiveAnswer() == r.cot;
        }
      }
    }
  }

  /** The states before the cut are the same with the answer cut as without. */
  ghost predicate SameBeforeCut<S>(mix: Mixer<S>, r: Regions, kind: MaskKind, embeddings: seq<S>, cut: nat, depth: nat) {
    AgreeOn(Hidden(mix, Resolve(CutAnswer(r, cut), kind), embeddings, depth),
            Hidden(mix, Resolve(r, kind), embeddings, depth), Prefix(cut))
  }

  /** The model that tells whether it sees key k: one layer of it feels the edge that the cut blocks. */
  lemma ExposedCotFeelsCut(r: Regions, n: nat, cut: nat, k: nat, q: nat)
    requires r.Fits(n) && cut <= n && CutExposesCot(r, cut) && BlockedByFallback(r, k, q) && q < cut
    ensures !SameBeforeCut<bool>((layer, position, own, seen) => k in seen, r, ViaCot, Unmarked(n), cut, 1)
  {
    var c, e := CutAnswer(r, cut), Unmarked(n);
    var mix: Mixer<bool> := (layer, position, own, seen) => k in seen;
    CutKeepsAnswerIffTokenBefore(r, cut);
    assert !At(r.answer, q) && !(true in c.answer);
    assert !Resolve(c, ViaCot)(q, k) && Resolve(r, ViaCot)(q, k);
    assert k !in Visible(Resolve(c, ViaCot), e, q) && k in Visible(Resolve(r, ViaCot), e, q);
    assert Hidden(mix, Resolve(c, ViaCot), e, 1)[q] != Hidden(mix, Resolve(r, ViaCot), e, 1)[q];
    assert q in Prefix(cut);
  }

  /** Exact: for every model, depth and mask kind the states before the cut are unchanged, except that via_cot changes
      for some model when the cut leaves no answer token and exposes a chain-of-thought token that follows the prompt. */
  lemma CutPreservesStatesIff(r: Regions, n: nat, kind: MaskKind, cut: nat)
    requires r.Fits(n) && cut <= n
    ensures (forall mix: Mixer<bool>, embeddings: seq<bool>, depth: nat | |embeddings| == n ::
               SameBeforeCut(mix, r, kind, embeddings, cut, depth))
            <==> kind != ViaCot || !CutExposesCot(r, cut)
  {
    if kind != ViaCot || !CutExposesCot(r, cut) {
      forall mix: Mixer<bool>, embeddings: seq<bool>, depth: nat | |embeddings| == n
        ensures SameBeforeCut(mix, r, kind, embeddings, cut, depth)
      {
        CutPreservesStates(mix, r, kind, embeddings, cut, depth);
      }
    } else {
      var k: nat, q: nat :| BlockedByFallback(r, k, q) && q < cut;
      ExposedCotFeelsCut(r, n, cut, k, q);
    }
  }

  /** The general form of one direction, for every state type. */
  lemma CutPreservesStates<S>(mix: Mixer<S>, r: Regions, kind: MaskKind, embeddings: seq<S>, cut: nat, depth: nat)
    requires kind != ViaCot || !CutExposesCot(r, cut)
    ensures AgreeOn(Hidden(mix, Resolve(CutAnswer(r, cut), kind), embeddings, depth),
                    Hidden(mix, Resolve(r, kind), embeddings, depth), Prefix(cut))
  {
    CutKeepsRowsUnlessCotIsExposed(r, kind, cut);
    SharedRowsShareStates(mix, CutAnswer(r, cut), kind, r, kind, embeddings, cut, depth);
  }
}
