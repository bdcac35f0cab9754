/** Dependency graphs: job id -> the ids it waits for.  An id that is not a key
    has no outgoing edges, exactly as a missing entry of the jobs map. */
module Graph {
  import opened Collections

  type Id = string
  type Deps = map<Id, seq<Id>>

  ghost predicate Edge(g: Deps, a: Id, b: Id) {
    a in g && b in g[a]
  }

  /** There is a walk of exactly n edges from a to b. */
  ghost predicate Walk(g: Deps, a: Id, b: Id, n: nat)
    decreases n
  {
    if n == 0 then a == b else exists m :: Edge(g, a, m) && Walk(g, m, b, n - 1)
  }

  /** a depends on b, directly or through other jobs (never by the empty walk). */
  ghost predicate Reaches(g: Deps, a: Id, b: Id) {
    exists n: nat :: n > 0 && Walk(g, a, b, n)
  }

  ghost predicate Acyclic(g: Deps) {
    forall a :: !Reaches(g, a, a)
  }

  ghost predicate Known(g: Deps) {
    forall a, b :: Edge(g, a, b) ==> b in g
  }

  lemma {:induction false} WalkAppend(g: Deps, a: Id, b: Id, c: Id, m: nat, n: nat)
    requires Walk(g, a, b, m) && Walk(g, b, c, n)
    ensures Walk(g, a, c, m + n)
    decreases m
  {
    if m > 0 {
      var x :| Edge(g, a, x) && Walk(g, x, b, m - 1);
      WalkAppend(g, x, b, c, m - 1, n);
    }
  }

  lemma EdgeReaches(g: Deps, a: Id, b: Id)
    requires Edge(g, a, b)
    ensures Reaches(g, a, b)
  {
    assert Walk(g, b, b, 0);
    assert Walk(g, a, b, 1);
  }

  lemma ReachesTransitive(g: Deps, a: Id, b: Id, c: Id)
    requires Reaches(g, a, b) && Reaches(g, b, c)
    ensures Reaches(g, a, c)
  {
    var m: nat :| m > 0 && Walk(g, a, b, m);
    var n: nat :| n > 0 && Walk(g, b, c, n);
    WalkAppend(g, a, b, c, m, n);
  }

  /** The first edge of a non-empty walk. */
  lemma FirstStep(g: Deps, a: Id, c: Id) returns (b: Id)
    requires Reaches(g, a, c)
    ensures Edge(g, a, b) && (b == c || Reaches(g, b, c))
  {
    var n: nat :| n > 0 && Walk(g, a, c, n);
    b :| Edge(g, a, b) && Walk(g, b, c, n - 1);
  }

  /** A set closed under edges is never left. */
  lemma {:induction false} ClosedUnderWalk(g: Deps, s: set<Id>, a: Id, b: Id, n: nat)
    requires forall x, y :: x in s && Edge(g, x, y) ==> y in s
    requires a in s && Walk(g, a, b, n)
    ensures b in s
    decreases n
  {
    if n > 0 {
      var m :| Edge(g, a, m) && Walk(g, m, b, n - 1);
      ClosedUnderWalk(g, s, m, b, n - 1);
    }
  }

  ghost function Below(g: Deps, trap: set<Id>, a: Id): set<Id> {
    set x | x in trap && Reaches(g, a, x)
  }

  lemma BelowShrinks(g: Deps, trap: set<Id>, a: Id, b: Id)
    requires b in trap && Reaches(g, a, b) && !Reaches(g, b, b)
    ensures |Below(g, trap, b)| < |Below(g, trap, a)|
  {
    forall x | x in Below(g, trap, b) ensures x in Below(g, trap, a) {
      ReachesTransitive(g, a, b, x);
    }
    assert b in Below(g, trap, a) && b !in Below(g, trap, b);
    SmallerSubset(Below(g, trap, b), Below(g, trap, a));
  }

  /** If every node of a finite set has an edge into the set, the set holds a cycle. */
  lemma {:induction false} TrappedMeansCycle(g: Deps, trap: set<Id>, a: Id)
    requires a in trap
    requires forall x :: x in trap ==> exists y :: y in trap && Edge(g, x, y)
    ensures !Acyclic(g)
    decreases |Below(g, trap, a)|
  {
    var b :| b in trap && Edge(g, a, b);
    EdgeReaches(g, a, b);
    if !Reaches(g, b, b) {
      BelowShrinks(g, trap, a, b);
      TrappedMeansCycle(g, trap, b);
    }
  }

  lemma SmallerSubset<T>(a: set<T>, b: set<T>)
    requires a < b
    ensures |a| < |b|
  {
    var x :| x in b && x !in a;
    assert a <= b - {x};
    SubsetCard(a, b - {x});
  }

  lemma SubsetCard<T>(a: set<T>, b: set<T>)
    requires a <= b
    ensures |a| <= |b|
  {
    assert b == a + (b - a);
  }

  // -- Topological orders ----------------------------------------------------

  /** A permutation of the jobs in which every dependency comes first. */
  ghost predicate IsTopoOrder(g: Deps, order: seq<Id>) {
    && NoDup(order)
    && Elems(order) == g.Keys
    && forall i, d :: 0 <= i < |order| && d in g[order[i]] ==> d in order[..i]
  }

  ghost function Position(order: seq<Id>, x: Id): (i: nat)
    requires x in order
    ensures i < |order| && order[i] == x
  {
    var i :| 0 <= i < |order| && order[i] == x; i
  }

  lemma EdgeDescends(g: Deps, order: seq<Id>, a: Id, b: Id)
    requires IsTopoOrder(g, order) && Edge(g, a, b)
    ensures b in g && Position(order, b) < Position(order, a)
  {
    assert a in Elems(order);
    var i := Position(order, a);
    assert b in order[..i];
    var k :| 0 <= k < i && order[k] == b;
    assert b in Elems(order);
  }

  lemma {:induction false} WalkDescends(g: Deps, order: seq<Id>, a: Id, b: Id, n: nat)
    requires IsTopoOrder(g, order) && n > 0 && Walk(g, a, b, n)
    ensures a in g && b in g && Position(order, b) < Position(order, a)
    decreases n
  {
    var m :| Edge(g, a, m) && Walk(g, m, b, n - 1);
    EdgeDescends(g, order, a, m);
    if n > 1 { WalkDescends(g, order, m, b, n - 1); }
  }

  lemma TopoOrderMeansAcyclic(g: Deps, order: seq<Id>)
    requires IsTopoOrder(g, order)
    ensures Known(g) && Acyclic(g)
  {
    forall a, b | Edge(g, a, b) ensures b in g { EdgeDescends(g, order, a, b); }
    forall a ensures !Reaches(g, a, a) {
      if Reaches(g, a, a) {
        var n: nat :| n > 0 && Walk(g, a, a, n);
        WalkDescends(g, order, a, a, n);
      }
    }
  }
}
