/** Which local names of solve() are derived from its parameter `lines`. */
module DerivedNames {
  import opened PythonAst

  const LINES := "lines"

  function NameElements(es: seq<Expr>): set<string> {
    set e | e in es && e.Name? :: e.id
  }

  /** The names one assignment target binds: a name, or the names directly inside a tuple or list. */
  function TargetNames(target: Expr): set<string> {
    match target
    case Name(id) => {id}
    case TupleDisplay(elts) => NameElements(elts)
    case ListDisplay(elts) => NameElements(elts)
    case _ => {}
  }

  function AssignedNames(targets: seq<Expr>): set<string> {
    set t, x | t in targets && x in TargetNames(t) :: x
  }

  function AllAssigned(body: seq<Stmt>): set<string> {
    set s, x | s in body && s.Assign? && x in AssignedNames(s.targets) :: x
  }

  predicate ReadsDerived(rhs: Expr, derived: set<string>) {
    LINES in Names(rhs) || Names(rhs) * derived != {}
  }

  ghost predicate Closed(body: seq<Stmt>, derived: set<string>) {
    forall s | s in body && s.Assign? && ReadsDerived(s.rhs, derived) :: AssignedNames(s.targets) <= derived
  }

  // ---------------------------------------------------------------------------------------------
  // Reachability
  // ---------------------------------------------------------------------------------------------

  /** A chain of assignments: the first reads `lines`, each later one reads a name the one before it binds. */
  ghost predicate IsChain(body: seq<Stmt>, chain: seq<Stmt>) {
    && chain != []
    && (forall s | s in chain :: s in body && s.Assign?)
    && LINES in Names(chain[0].rhs)
    && forall i :: 0 < i < |chain| ==> AssignedNames(chain[i - 1].targets) * Names(chain[i].rhs) != {}
  }

  ghost predicate ChainBinds(body: seq<Stmt>, chain: seq<Stmt>, x: string) {
    IsChain(body, chain) && x in AssignedNames(chain[|chain| - 1].targets)
  }

  /** The names some chain binds, in whatever order the statements stand. */
  ghost function Derived(body: seq<Stmt>): set<string> {
    set x | x in AllAssigned(body) && exists chain: seq<Stmt> :: ChainBinds(body, chain, x)
  }

  lemma DerivedContainsChainEnds(body: seq<Stmt>, chain: seq<Stmt>)
    requires IsChain(body, chain)
    ensures AssignedNames(chain[|chain| - 1].targets) <= Derived(body)
  {
    forall x | x in AssignedNames(chain[|chain| - 1].targets)
      ensures x in Derived(body)
    {
      assert chain[|chain| - 1] in chain;
      assert ChainBinds(body, chain, x);
    }
  }

  lemma DerivedIsClosed(body: seq<Stmt>)
    ensures Closed(body, Derived(body))
  {
    forall s | s in body && s.Assign? && ReadsDerived(s.rhs, Derived(body))
      ensures AssignedNames(s.targets) <= Derived(body)
    {
      if LINES in Names(s.rhs) {
        DerivedContainsChainEnds(body, [s]);
      } else {
        var y :| y in Names(s.rhs) * Derived(body);
        var chain: seq<Stmt> :| ChainBinds(body, chain, y);
        assert y in AssignedNames(chain[|chain| - 1].targets) * Names(s.rhs);
        DerivedContainsChainEnds(body, chain + [s]);
      }
    }
  }

  lemma {:induction false} ChainStaysInClosedSet(body: seq<Stmt>, chain: seq<Stmt>, derived: set<string>)
    requires IsChain(body, chain) && Closed(body, derived)
    ensures AssignedNames(chain[|chain| - 1].targets) <= derived
  {
    var last := chain[|chain| - 1];
    assert last in chain;
    if |chain| > 1 {
      var before := chain[..|chain| - 1];
      assert forall s | s in before :: s in chain;
      ChainStaysInClosedSet(body, before, derived);
      assert AssignedNames(chain[|chain| - 2].targets) * Names(last.rhs) != {};
      assert ReadsDerived(last.rhs, derived);
    }
  }

  lemma DerivedIsLeast(body: seq<Stmt>, derived: set<string>)
    requires Closed(body, derived)
    ensures Derived(body) <= derived
  {
    forall x | x in Derived(body)
      ensures x in derived
    {
      var chain: seq<Stmt> :| ChainBinds(body, chain, x);
      ChainStaysInClosedSet(body, chain, derived);
    }
  }

  /** The result depends only on which assignments there are, not on their order or number. */
  lemma DerivedIgnoresStatementOrder(body1: seq<Stmt>, body2: seq<Stmt>)
    requires forall s: Stmt | s.Assign? :: s in body1 <==> s in body2
    ensures Derived(body1) == Derived(body2)
  {
    DerivedIsClosed(body1);
    DerivedIsClosed(body2);
    assert Closed(body1, Derived(body2)) && Closed(body2, Derived(body1));
    DerivedIsLeast(body1, Derived(body2));
    DerivedIsLeast(body2, Derived(body1));
  }

  // ---------------------------------------------------------------------------------------------
  // The collector of v3 and of the patch script
  // ---------------------------------------------------------------------------------------------

  method AddElements(elts: seq<Expr>, before: set<string>, changedBefore: bool)
    returns (derived: set<string>, changed: bool)
    ensures derived == before + NameElements(elts)
    ensures changed <==> changedBefore || derived != before
  {
    derived, changed := before, changedBefore;
    for i := 0 to |elts|
      invariant derived == before + NameElements(elts[..i])
      invariant changed <==> changedBefore || derived != before
    {
      assert elts[..i + 1] == elts[..i] + [elts[i]];
      if elts[i].Name? && elts[i].id !in derived {
        derived := derived + {elts[i].id};
        changed := true;
      }
    }
    assert elts[..|elts|] == elts;
  }

  method AddTargets(targets: seq<Expr>, before: set<string>, changedBefore: bool)
    returns (derived: set<string>, changed: bool)
    ensures derived == before + AssignedNames(targets)
    ensures changed <==> changedBefore || derived != before
  {
    derived, changed := before, changedBefore;
    for i := 0 to |targets|
      invariant derived == before + AssignedNames(targets[..i])
      invariant changed <==> changedBefore || derived != before
    {
      ghost var soFar := derived;
      var target := targets[i];
      assert targets[..i + 1] == targets[..i] + [target];
      if target.Name? && target.id !in derived {
        derived := derived + {target.id};
        changed := true;
      } else if target.TupleDisplay? || target.ListDisplay? {
        derived, changed := AddElements(target.elts, derived, changed);
      }
      assert derived == soFar + TargetNames(target);
      assert AssignedNames(targets[..i + 1]) == AssignedNames(targets[..i]) + TargetNames(target);
    }
    assert targets[..|targets|] == targets;
  }

  /** The fixpoint loop terminates (fewer assigned names are left to derive) and computes exactly the reachable names. */
  method CollectDerived(body: seq<Stmt>) returns (derived: set<string>)
    ensures derived == Derived(body)
  {
    derived := {};
    var changed := true;
    DerivedIsClosed(body);
    while changed
      invariant derived <= Derived(body)
      invariant !changed ==> Closed(body, derived)
      decreases AllAssigned(body) - derived, changed
    {
      ghost var before := derived;
      changed := false;
      for i := 0 to |body|
        invariant before <= derived <= Derived(body)
        invariant changed <==> derived != before
        invariant !changed ==>
                    forall s | s in body[..i] && s.Assign? && ReadsDerived(s.rhs, derived) :: AssignedNames(s.targets) <= derived
      {
        if body[i].Assign? && ReadsDerived(body[i].rhs, derived) {
          assert ReadsDerived(body[i].rhs, Derived(body));
          derived, changed := AddTargets(body[i].targets, derived, changed);
        }
        assert forall s | s in body[..i + 1] :: s in body[..i] || s == body[i];
      }
      assert body[..|body|] == body;
    }
    DerivedIsLeast(body, derived);
  }

  // ---------------------------------------------------------------------------------------------
  // The one-pass collector of v2
  // ---------------------------------------------------------------------------------------------

  function DirectlyDerived(body: seq<Stmt>): set<string> {
    set s, x | s in body && s.Assign? && LINES in Names(s.rhs) && x in AssignedNames(s.targets) :: x
  }

  method CollectDirectlyDerived(body: seq<Stmt>) returns (derived: set<string>)
    ensures derived == DirectlyDerived(body)
  {
    derived := {};
    for i := 0 to |body|
      invariant derived == DirectlyDerived(body[..i])
    {
      assert body[..i + 1] == body[..i] + [body[i]];
      if body[i].Assign? && LINES in Names(body[i].rhs) {
        var grown, changed := AddTargets(body[i].targets, derived, false);
        derived := grown;
      }
    }
    assert body[..|body|] == body;
  }

  /** One pass finds a subset of the fixpoint, and all of it exactly when it is already closed. */
  lemma OnePassIsFixpointIffClosed(body: seq<Stmt>)
    ensures DirectlyDerived(body) <= Derived(body)
    ensures DirectlyDerived(body) == Derived(body) <==> Closed(body, DirectlyDerived(body))
  {
    DerivedIsClosed(body);
    forall x | x in DirectlyDerived(body)
      ensures x in Derived(body)
    {
      var s :| s in body && s.Assign? && LINES in Names(s.rhs) && x in AssignedNames(s.targets);
      assert ReadsDerived(s.rhs, Derived(body));
    }
    if Closed(body, DirectlyDerived(body)) {
      DerivedIsLeast(body, DirectlyDerived(body));
    }
  }
}
