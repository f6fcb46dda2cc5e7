/** A decoder-only transformer seen only through the attention edges it is given.

    Every layer rewrites the state of each position from its own old state and from the old states at the keys
    its mask row allows. What a layer does with them is an arbitrary function (a Mixer), so every statement here
    holds for every model, every state type and every depth. */
module AttentionFlow {

  /** mask(q, k): query position q may attend to key position k. */
  type Mask = (nat, nat) -> bool

  /** mix(layer, position, own state, states at the allowed keys). */
  type Mixer<!S> = (nat, nat, S, map<nat, S>) -> S

  function Visible<S>(mask: Mask, states: seq<S>, q: nat): map<nat, S> {
    map k: nat | k < |states| && mask(q, k) :: states[k]
  }

  function Layer<S>(mix: Mixer<S>, layer: nat, mask: Mask, states: seq<S>): (next: seq<S>)
    ensures |next| == |states|
  {
    seq(|states|, q requires 0 <= q < |states| => mix(layer, q, states[q], Visible(mask, states, q)))
  }

  /** The hidden states after `depth` layers. */
  function Hidden<S>(mix: Mixer<S>, mask: Mask, embeddings: seq<S>, depth: nat): (states: seq<S>)
    ensures |states| == |embeddings|
  {
    if depth == 0 then embeddings
    else Layer(mix, depth - 1, mask, Hidden(mix, mask, embeddings, depth - 1))
  }

  /** The information flow a mask permits: p's embedding can be felt at q after `depth` layers. */
  predicate Flows(mask: Mask, n: nat, p: nat, q: nat, depth: nat)
    decreases depth
  {
    if depth == 0 then p == q
    else Flows(mask, n, p, q, depth - 1)
         || exists k: nat | k < n :: mask(q, k) && Flows(mask, n, p, k, depth - 1)
  }

  // ---------------------------------------------------------------------------------------------
  // Noninterference
  // ---------------------------------------------------------------------------------------------

  /** `inner` attends only to itself and to `border`, in the same way under both masks. */
  ghost predicate Sealed(m1: Mask, m2: Mask, n: nat, inner: set<nat>, border: set<nat>) {
    forall q, k: nat | q in inner && k < n :: m1(q, k) == m2(q, k) && (m1(q, k) ==> k in inner || k in border)
  }

  ghost predicate AgreeOn<S>(s1: seq<S>, s2: seq<S>, positions: set<nat>)
    requires |s1| == |s2|
  {
    forall q | q in positions && q < |s1| :: s1[q] == s2[q]
  }

  /** Two runs that feed a sealed set the same embeddings, and show it the same border at every layer, cannot be
      told apart inside it, whatever happens elsewhere. */
  lemma {:induction false} SealedRunsAgree<S>(mix: Mixer<S>, m1: Mask, m2: Mask, e1: seq<S>, e2: seq<S>,
                                              inner: set<nat>, border: set<nat>, depth: nat)
    requires |e1| == |e2|
    requires Sealed(m1, m2, |e1|, inner, border)
    requires AgreeOn(e1, e2, inner)
    requires forall layer: nat | layer < depth ::
               AgreeOn(Hidden(mix, m1, e1, layer), Hidden(mix, m2, e2, layer), border)
    ensures AgreeOn(Hidden(mix, m1, e1, depth), Hidden(mix, m2, e2, depth), inner)
  {
    if depth > 0 {
      SealedRunsAgree(mix, m1, m2, e1, e2, inner, border, depth - 1);
      var s1, s2 := Hidden(mix, m1, e1, depth - 1), Hidden(mix, m2, e2, depth - 1);
      forall q | q in inner && q < |e1|
        ensures Hidden(mix, m1, e1, depth)[q] == Hidden(mix, m2, e2, depth)[q]
      {
        assert AgreeOn(s1, s2, border);
        assert Visible(m1, s1, q) == Visible(m2, s2, q);
      }
    }
  }

  /** The inputs agree wherever something flows to q from. */
  ghost predicate AgreeWhereFlows<S>(mask: Mask, e1: seq<S>, e2: seq<S>, q: nat, depth: nat)
    requires |e1| == |e2|
  {
    forall p: nat | p < |e1| && Flows(mask, |e1|, p, q, depth) :: e1[p] == e2[p]
  }

  /** Without a flow from any position where the inputs differ, no model can feel the difference. */
  lemma {:induction false} NoFlowNoInfluence<S>(mix: Mixer<S>, mask: Mask, e1: seq<S>, e2: seq<S>, q: nat, depth: nat)
    requires |e1| == |e2| && q < |e1|
    requires AgreeWhereFlows(mask, e1, e2, q, depth)
    ensures Hidden(mix, mask, e1, depth)[q] == Hidden(mix, mask, e2, depth)[q]
    decreases depth
  {
    if depth == 0 {
      assert Flows(mask, |e1|, q, q, 0);
    } else {
      var s1, s2 := Hidden(mix, mask, e1, depth - 1), Hidden(mix, mask, e2, depth - 1);
      NoFlowNoInfluence(mix, mask, e1, e2, q, depth - 1);
      forall k: nat | k < |e1| && mask(q, k)
        ensures s1[k] == s2[k]
      {
        NoFlowNoInfluence(mix, mask, e1, e2, k, depth - 1);
      }
      assert Visible(mask, s1, q) == Visible(mask, s2, q);
    }
  }

  /** The model that adds up everything it sees: a state is true once a marked embedding has reached it. */
  function SpreadingMixer(): Mixer<bool> {
    (layer, q, own, seen) => own || exists k | k in seen :: seen[k]
  }

  function Marked(n: nat, p: nat): (marks: seq<bool>)
    ensures |marks| == n
  {
    seq(n, i => i == p)
  }

  function Unmarked(n: nat): (marks: seq<bool>)
    ensures |marks| == n
  {
    seq(n, i => false)
  }

  /** The spreading model computes exactly the flow relation, so every permitted flow is a real dependency. */
  lemma {:induction false} SpreadingComputesFlows(mask: Mask, n: nat, p: nat, q: nat, depth: nat)
    requires q < n
    ensures Hidden(SpreadingMixer(), mask, Marked(n, p), depth)[q] == Flows(mask, n, p, q, depth)
    ensures !Hidden(SpreadingMixer(), mask, Unmarked(n), depth)[q]
    decreases depth
  {
    if depth > 0 {
      var marked, plain := Hidden(SpreadingMixer(), mask, Marked(n, p), depth - 1),
                           Hidden(SpreadingMixer(), mask, Unmarked(n), depth - 1);
      forall k: nat | k < n
        ensures marked[k] == Flows(mask, n, p, k, depth - 1) && !plain[k]
      {
        SpreadingComputesFlows(mask, n, p, k, depth - 1);
      }
      var seen := Visible(mask, marked, q);
      assert (exists k | k in seen :: seen[k]) == exists k: nat | k < n :: mask(q, k) && Flows(mask, n, p, k, depth - 1) by {
        if k: nat :| k < n && mask(q, k) && Flows(mask, n, p, k, depth - 1) {
          assert k in seen && seen[k];
        }
      }
      assert forall k | k in Visible(mask, plain, q) :: !Visible(mask, plain, q)[k];
    }
  }

  /** Some model over boolean states lets q tell apart two inputs that differ only on `sources`. */
  ghost predicate SomeModelDepends(mask: Mask, n: nat, sources: set<nat>, q: nat, depth: nat)
    requires q < n
  {
    exists mix: Mixer<bool>, e1: seq<bool>, e2: seq<bool> ::
      |e1| == |e2| == n && (forall p: nat | p < n && p !in sources :: e1[p] == e2[p])
      && Hidden(mix, mask, e1, depth)[q] != Hidden(mix, mask, e2, depth)[q]
  }

  /** Exact: a position depends on the sources for some model if and only if the mask lets one of them flow there. */
  lemma DependsIffFlows(mask: Mask, n: nat, sources: set<nat>, q: nat, depth: nat)
    requires q < n
    ensures SomeModelDepends(mask, n, sources, q, depth)
            <==> exists p: nat | p < n && p in sources :: Flows(mask, n, p, q, depth)
  {
    if p: nat :| p < n && p in sources && Flows(mask, n, p, q, depth) {
      SpreadingComputesFlows(mask, n, p, q, depth);
      var e1, e2 := Marked(n, p), Unmarked(n);
      assert Hidden(SpreadingMixer(), mask, e1, depth)[q] != Hidden(SpreadingMixer(), mask, e2, depth)[q];
    }
    if SomeModelDepends(mask, n, sources, q, depth) {
      var mix: Mixer<bool>, e1: seq<bool>, e2: seq<bool> :|
        |e1| == |e2| == n && (forall p: nat | p < n && p !in sources :: e1[p] == e2[p])
        && Hidden(mix, mask, e1, depth)[q] != Hidden(mix, mask, e2, depth)[q];
      if forall p: nat | p < n && p in sources :: !Flows(mask, n, p, q, depth) {
        NoFlowNoInfluence(mix, mask, e1, e2, q, depth);
      }
    }
  }
}
