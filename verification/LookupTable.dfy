/** Lookup-table detection in solve(): the branch tests, the if/elif chain counter, and the v2 and v3 verdicts. */
module LookupTable {
  import opened Options
  import opened PythonAst
  import opened DerivedNames

  // ---------------------------------------------------------------------------------------------
  // Branch tests
  // ---------------------------------------------------------------------------------------------

  predicate IsLiteral(e: Expr) {
    e.ListDisplay? || e.TupleDisplay? || e.Constant?
  }

  predicate IsLinesEqCompare(test: Expr) {
    test.Compare? && test.left == Name(LINES) && Eq in test.ops && forall c | c in test.comparators :: IsLiteral(c)
  }

  /** v3 also looks inside `and` / `or`. */
  predicate IsLinesEqBranch(s: Stmt) {
    s.If? && (IsLinesEqCompare(s.test) || (s.test.BoolOp? && exists v | v in s.test.values :: IsLinesEqCompare(v)))
  }

  predicate IsLinesEqBranchV2(s: Stmt) {
    s.If? && IsLinesEqCompare(s.test)
  }

  predicate ReturnsConstant(s: Stmt) {
    s.Return? && s.result == Some(Constant)
  }

  predicate IsValueLookupBranch(s: Stmt, derived: set<string>) {
    && s.If?
    && |s.body| == 1 && ReturnsConstant(s.body[0])
    && s.test.Compare? && Eq in s.test.ops
    && (forall c | c in s.test.comparators :: c == Constant)
    && ((s.test.left.Name? && s.test.left.id in derived)
        || (s.test.left.Subscript? && s.test.left.value == Name(LINES)))
  }

  predicate IsLookup(s: Stmt, derived: set<string>) {
    IsLinesEqBranch(s) || IsValueLookupBranch(s, derived)
  }

  predicate IsLookupV2(s: Stmt, derived: set<string>) {
    IsLinesEqBranchV2(s) || IsValueLookupBranch(s, derived)
  }

  // ---------------------------------------------------------------------------------------------
  // Chains
  // ---------------------------------------------------------------------------------------------

  /** The orelse block is a single nested if: an `elif`. */
  predicate HasElif(s: Stmt) {
    s.If? && |s.orelse| == 1 && s.orelse[0].If?
  }

  /** The branches of an if/elif chain, in order. */
  function Branches(s: Stmt): (branches: seq<Stmt>)
    requires s.If?
    ensures branches != [] && branches[0] == s
  {
    if HasElif(s) then [s] + Branches(s.orelse[0]) else [s]
  }

  predicate EndsInElse(s: Stmt)
    requires s.If?
  {
    if HasElif(s) then EndsInElse(s.orelse[0]) else s.orelse != []
  }

  function CountLookups(branches: seq<Stmt>, derived: set<string>): (count: nat)
    ensures count <= |branches|
    ensures count == |branches| <==> forall b | b in branches :: IsLookup(b, derived)
  {
    if branches == [] then 0
    else
      assert branches == [branches[0]] + branches[1..];
      (if IsLookup(branches[0], derived) then 1 else 0) + CountLookups(branches[1..], derived)
  }

  function ChainSize(s: Stmt): nat
    requires s.If?
  {
    |Branches(s)| + if EndsInElse(s) then 1 else 0
  }

  method CountIfChain(node: Stmt, derived: set<string>) returns (lookups: nat, others: nat)
    requires node.If?
    ensures lookups == CountLookups(Branches(node), derived)
    ensures lookups + others == ChainSize(node)
  {
    lookups, others := 0, 0;
    var current := node;
    while true
      invariant current.If?
      invariant lookups + CountLookups(Branches(current), derived) == CountLookups(Branches(node), derived)
      invariant lookups + others + ChainSize(current) == ChainSize(node)
      decreases current
    {
      if IsLinesEqBranch(current) || IsValueLookupBranch(current, derived) {
        lookups := lookups + 1;
      } else {
        others := others + 1;
      }
      assert HasElif(current) ==> Branches(current)[1..] == Branches(current.orelse[0]);
      if HasElif(current) {
        current := current.orelse[0];
      } else {
        if current.orelse != [] {
          others := others + 1;
        }
        break;
      }
    }
  }

  // ---------------------------------------------------------------------------------------------
  // Verdicts
  // ---------------------------------------------------------------------------------------------

  datatype Verdict = NoTable | PureTable | HybridTable

  function Judge(lookups: nat, others: nat, minCases: nat): Verdict {
    if lookups < minCases then NoTable else if others == 0 then PureTable else HybridTable
  }

  function Lookups(body: seq<Stmt>, derived: set<string>): nat {
    if body == [] then 0
    else (if body[0].If? then CountLookups(Branches(body[0]), derived) else 0) + Lookups(body[1..], derived)
  }

  /** What v3 counts in total: statements that are not `if`, the branches of every chain, and final `else` blocks. */
  function Counted(body: seq<Stmt>): nat {
    if body == [] then 0 else (if body[0].If? then ChainSize(body[0]) else 1) + Counted(body[1..])
  }

  lemma {:induction false} LookupsAreCounted(body: seq<Stmt>, derived: set<string>)
    ensures Lookups(body, derived) <= Counted(body)
  {
    if body != [] {
      LookupsAreCounted(body[1..], derived);
    }
  }

  ghost function ClassifyV3(body: seq<Stmt>, minCases: nat): Verdict {
    LookupsAreCounted(body, Derived(body));
    Judge(Lookups(body, Derived(body)), Counted(body) - Lookups(body, Derived(body)), minCases)
  }

  function LookupsV2(body: seq<Stmt>, derived: set<string>): (count: nat)
    ensures count <= |body|
    ensures count == |body| <==> forall s | s in body :: IsLookupV2(s, derived)
  {
    if body == [] then 0
    else
      assert body == [body[0]] + body[1..];
      (if IsLookupV2(body[0], derived) then 1 else 0) + LookupsV2(body[1..], derived)
  }

  function ClassifyV2(body: seq<Stmt>, minCases: nat): Verdict {
    var derived := DirectlyDerived(body);
    Judge(LookupsV2(body, derived), |body| - LookupsV2(body, derived), minCases)
  }

  lemma {:induction false} CountsSplit(first: seq<Stmt>, s: Stmt, derived: set<string>)
    ensures Lookups(first + [s], derived) == Lookups(first, derived) + Lookups([s], derived)
    ensures Counted(first + [s]) == Counted(first) + Counted([s])
    ensures LookupsV2(first + [s], derived) == LookupsV2(first, derived) + LookupsV2([s], derived)
  {
    if first == [] {
      assert first + [s] == [s];
    } else {
      assert (first + [s])[1..] == first[1..] + [s];
      CountsSplit(first[1..], s, derived);
    }
  }

  /** The verdict, and the number of lookup branches it rests on. */
  method Classify(body: seq<Stmt>, minCases: nat) returns (verdict: Verdict, lookups: nat)
    ensures verdict == ClassifyV3(body, minCases)
    ensures lookups == Lookups(body, Derived(body))
  {
    var derived := CollectDerived(body);
    var others := 0;
    lookups := 0;
    for i := 0 to |body|
      invariant lookups == Lookups(body[..i], derived)
      invariant lookups + others == Counted(body[..i])
    {
      assert body[..i + 1] == body[..i] + [body[i]];
      CountsSplit(body[..i], body[i], derived);
      if body[i].If? {
        var nl, no := CountIfChain(body[i], derived);
        lookups := lookups + nl;
        others := others + no;
      } else {
        others := others + 1;
      }
    }
    assert body[..|body|] == body;
    verdict := Judge(lookups, others, minCases);
  }

  method ClassifyTopLevel(body: seq<Stmt>, minCases: nat) returns (verdict: Verdict)
    ensures verdict == ClassifyV2(body, minCases)
  {
    var derived := CollectDirectlyDerived(body);
    var lookups, others := 0, 0;
    for i := 0 to |body|
      invariant lookups == LookupsV2(body[..i], derived)
      invariant lookups + others == i
    {
      assert body[..i + 1] == body[..i] + [body[i]];
      CountsSplit(body[..i], body[i], derived);
      if IsLinesEqBranchV2(body[i]) || IsValueLookupBranch(body[i], derived) {
        lookups := lookups + 1;
      } else {
        others := others + 1;
      }
    }
    assert body[..|body|] == body;
    verdict := Judge(lookups, others, minCases);
  }

  // ---------------------------------------------------------------------------------------------
  // v3 refines v2
  // ---------------------------------------------------------------------------------------------

  lemma {:induction false} V3CountsAtLeastV2(body: seq<Stmt>, fewer: set<string>, more: set<string>)
    requires fewer <= more
    ensures LookupsV2(body, fewer) <= Lookups(body, more)
  {
    if body != [] {
      V3CountsAtLeastV2(body[1..], fewer, more);
      if IsLookupV2(body[0], fewer) {
        assert IsLookup(Branches(body[0])[0], more);
      }
    }
  }

  /** Whatever v2 detects, v3 detects, at every threshold. */
  lemma V2DetectionImpliesV3(body: seq<Stmt>, minCases: nat)
    requires ClassifyV2(body, minCases) != NoTable
    ensures ClassifyV3(body, minCases) != NoTable
  {
    OnePassIsFixpointIffClosed(body);
    V3CountsAtLeastV2(body, DirectlyDerived(body), Derived(body));
  }

  /** A statement that is one complete lookup chain: only lookup branches and no final else. */
  predicate IsWholeLookup(s: Stmt, derived: set<string>) {
    s.If? && !EndsInElse(s) && forall b | b in Branches(s) :: IsLookup(b, derived)
  }

  lemma {:induction false} AllCountedAreLookupsIff(body: seq<Stmt>, derived: set<string>)
    ensures Counted(body) == Lookups(body, derived) <==> forall s | s in body :: IsWholeLookup(s, derived)
  {
    if body != [] {
      var head, rest := body[0], body[1..];
      AllCountedAreLookupsIff(rest, derived);
      LookupsAreCounted(rest, derived);
      assert forall s :: s in body <==> s == head || s in rest;
      var size, lookups := if head.If? then ChainSize(head) else 1,
                           if head.If? then CountLookups(Branches(head), derived) else 0;
      assert lookups <= size && (lookups == size <==> IsWholeLookup(head, derived));
      assert Counted(body) == size + Counted(rest) && Lookups(body, derived) == lookups + Lookups(rest, derived);
      assert (forall s | s in body :: IsWholeLookup(s, derived))
        <==> IsWholeLookup(head, derived) && forall s | s in rest :: IsWholeLookup(s, derived);
    }
  }

  /** Exact meaning of "pure": enough branches, and a body that is lookup chains throughout. Such a body has no
      assignment, so no name is derived and every branch tests `lines` or `lines[i]` itself. */
  lemma PureVerdictIff(body: seq<Stmt>, minCases: nat)
    ensures ClassifyV3(body, minCases) == PureTable
            <==> Lookups(body, {}) >= minCases && forall s | s in body :: IsWholeLookup(s, {})
    ensures ClassifyV3(body, minCases) == PureTable ==> Derived(body) == {}
  {
    AllCountedAreLookupsIff(body, Derived(body));
    LookupsAreCounted(body, Derived(body));
    if (forall s | s in body :: IsWholeLookup(s, Derived(body))) || (forall s | s in body :: IsWholeLookup(s, {})) {
      assert forall s | s in body :: s.If?;
      assert Derived(body) == {};
    }
  }

  /** v3 keeps a "pure" verdict of v2 exactly when no chain hides a final else or a non-lookup elif from v2. */
  lemma V3KeepsPureVerdictIff(body: seq<Stmt>, minCases: nat)
    requires ClassifyV2(body, minCases) == PureTable
    ensures ClassifyV3(body, minCases) == PureTable
            <==> forall s | s in body && s.If? ::
                   !EndsInElse(s) && forall b | b in Branches(s) :: IsLookup(b, {})
    ensures ClassifyV3(body, minCases) != NoTable
  {
    PureVerdictIff(body, minCases);
    V2DetectionImpliesV3(body, minCases);
    assert forall s | s in body :: IsLookupV2(s, DirectlyDerived(body)) && s.If?;
    assert DirectlyDerived(body) == {};
    V3CountsAtLeastV2(body, {}, {});
  }

  /** The difference is real: three lookups, the last with an else, are pure for v2 and hybrid for v3. */
  lemma FinalElseIsInvisibleToV2(test: Expr)
    requires IsLinesEqCompare(test)
    ensures var bare := If(test, [Return(Some(Constant))], []);
            var withElse := If(test, [Return(Some(Constant))], [OtherStmt]);
            ClassifyV2([bare, bare, withElse], 3) == PureTable && ClassifyV3([bare, bare, withElse], 3) == HybridTable
  {
    var bare, withElse := If(test, [Return(Some(Constant))], []), If(test, [Return(Some(Constant))], [OtherStmt]);
    var body := [bare, bare, withElse];
    assert forall s | s in body :: IsLookupV2(s, DirectlyDerived(body));
    assert withElse in body && EndsInElse(withElse);
    V3KeepsPureVerdictIff(body, 3);
  }
}
