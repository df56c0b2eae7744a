/** The least set that contains some roots and is closed under a successor function. */
module Reachability {

  ghost predicate Closed(succ: string -> set<string>, roots: set<string>, s: iset<string>) {
    && (forall r | r in roots :: r in s)
    && (forall r, q | r in s && q in succ(r) :: q in s)
  }

  ghost predicate Reachable(succ: string -> set<string>, roots: set<string>, r: string) {
    forall s: iset<string> | Closed(succ, roots, s) :: r in s
  }

  lemma RootReachable(succ: string -> set<string>, roots: set<string>, r: string)
    requires r in roots
    ensures Reachable(succ, roots, r)
  {
  }

  lemma SuccessorReachable(succ: string -> set<string>, roots: set<string>, r: string, q: string)
    requires Reachable(succ, roots, r) && q in succ(r)
    ensures Reachable(succ, roots, q)
  {
  }

  /** More roots, and successors that agree wherever they matter, reach at least as much. */
  lemma Monotone(succ: string -> set<string>, roots: set<string>,
                 succ': string -> set<string>, roots': set<string>, r: string)
    requires roots <= roots'
    requires forall q | Reachable(succ, roots, q) :: succ(q) <= succ'(q)
    requires Reachable(succ, roots, r)
    ensures Reachable(succ', roots', r)
  {
    var s := iset x | Reachable(succ, roots, x) && Reachable(succ', roots', x);
    forall x | x in roots
      ensures x in s
    {
      RootReachable(succ, roots, x);
      RootReachable(succ', roots', x);
    }
    forall x, y | x in s && y in succ(x)
      ensures y in s
    {
      SuccessorReachable(succ, roots, x, y);
      SuccessorReachable(succ', roots', x, y);
    }
    assert Closed(succ, roots, s);
  }

  /** A finite closed set of reachable strings is all of them. */
  lemma FiniteClosure(succ: string -> set<string>, roots: set<string>, visited: set<string>)
    requires roots <= visited
    requires forall r | r in visited :: Reachable(succ, roots, r) && succ(r) <= visited
    ensures forall r :: r in visited <==> Reachable(succ, roots, r)
  {
    var s := iset r | r in visited;
    assert Closed(succ, roots, s);
  }
}
