/** The dependency graph `execute` runs on, and Kahn's topological sort. */
module Dags {
  import opened Collections
  import opened Graph
  import opened Workflows

  datatype Dag = Dag(topoOrder: seq<Id>, deps: Deps, dependents: map<Id, seq<Id>>)
  {
    /** What `Build` establishes.  Nothing is said about the order inside a waiter
        list: it follows the iteration order of a HashMap. */
    ghost predicate Valid() {
      && IsTopoOrder(deps, topoOrder)
      && dependents.Keys == deps.Keys
      && forall d, j :: d in deps ==> multiset(dependents[d])[j] == Occurrences(deps, j, d)
    }
  }

  /** How often job j lists d among its dependencies. */
  function Occurrences(g: Deps, j: Id, d: Id): nat {
    if j in g then multiset(g[j])[d] else 0
  }

  /** Dependencies (counted with repetition) not yet finished. */
  function Unmet(ds: seq<Id>, done: set<Id>): nat {
    if ds == [] then 0 else (if ds[0] in done then 0 else 1) + Unmet(ds[1..], done)
  }

  lemma {:induction false} UnmetFinish(ds: seq<Id>, done: set<Id>, x: Id)
    requires x !in done
    ensures Unmet(ds, done) == Unmet(ds, done + {x}) + multiset(ds)[x]
  {
    if ds != [] {
      UnmetFinish(ds[1..], done, x);
      assert ds == [ds[0]] + ds[1..];
    }
  }

  lemma {:induction false} UnmetZero(ds: seq<Id>, done: set<Id>)
    ensures Unmet(ds, done) == 0 <==> forall d :: d in ds ==> d in done
  {
    if ds != [] {
      UnmetZero(ds[1..], done);
      assert forall d :: d in ds <==> d == ds[0] || d in ds[1..];
    }
  }

  lemma {:induction false} UnmetNothingDone(ds: seq<Id>)
    ensures Unmet(ds, {}) == |ds|
  {
    if ds != [] { UnmetNothingDone(ds[1..]); }
  }

  /** How often j is on d's waiter list. */
  function Listings(notify: map<Id, seq<Id>>, d: Id, j: Id): nat {
    if d in notify then multiset(notify[d])[j] else 0
  }

  /** dep -> the jobs waiting for it, one entry per listed dependency. */
  method Waiters(deps: Deps) returns (notify: map<Id, seq<Id>>)
    ensures forall d, j :: Listings(notify, d, j) == Occurrences(deps, j, d)
    ensures forall d :: d in notify ==> exists j :: Edge(deps, j, d)
  {
    notify := map[];
    var keys := Enumerate(deps.Keys);
    for i := 0 to |keys|
      invariant forall d, j :: Listings(notify, d, j) == if j in keys[..i] then Occurrences(deps, j, d) else 0
      invariant forall d :: d in notify ==> exists j :: Edge(deps, j, d)
    {
      assert keys[i] in Elems(keys) && keys[i] !in keys[..i];
      notify := AddWaiter(deps, keys[i], notify);
      assert keys[..i + 1] == keys[..i] + [keys[i]];
    }
    assert keys[..|keys|] == keys;
    assert forall j :: j in deps ==> j in Elems(keys);
  }

  method AddWaiter(deps: Deps, job: Id, before: map<Id, seq<Id>>) returns (notify: map<Id, seq<Id>>)
    requires job in deps
    requires forall d :: d in before ==> exists j :: Edge(deps, j, d)
    ensures forall d, j :: Listings(notify, d, j)
                        == Listings(before, d, j) + if j == job then Occurrences(deps, job, d) else 0
    ensures forall d :: d in notify ==> exists j :: Edge(deps, j, d)
  {
    notify := before;
    for k := 0 to |deps[job]|
      invariant forall d, j :: Listings(notify, d, j)
                            == Listings(before, d, j) + if j == job then multiset(deps[job][..k])[d] else 0
      invariant forall d :: d in notify ==> exists j :: Edge(deps, j, d)
    {
      var dep := deps[job][k];
      assert deps[job][..k + 1] == deps[job][..k] + [dep];
      assert Edge(deps, job, dep);
      notify := notify[dep := (if dep in notify then notify[dep] else []) + [job]];
    }
    assert deps[job][..|deps[job]|] == deps[job];
  }

  /** Exactly the jobs with nothing left to wait for have been queued, each once. */
  ghost predicate Queued(indegree: map<Id, nat>, seen: seq<Id>) {
    && NoDup(seen) && (forall j :: j in seen ==> j in indegree)
    && (forall j :: j in indegree ==> (j in seen <==> indegree[j] == 0))
  }

  /** The state of the worklist between two jobs. */
  ghost predicate SortInvariant(deps: Deps, indegree: map<Id, nat>, order: seq<Id>, queue: seq<Id>) {
    && indegree.Keys == deps.Keys
    && Queued(indegree, order + queue)
    && (forall i, d :: 0 <= i < |order| && d in deps[order[i]] ==> d in order[..i])
    && (forall j :: j in deps ==> indegree[j] == Unmet(deps[j], Elems(order)))
  }

  /** Kahn's algorithm.  It succeeds exactly on the graphs whose dependencies are
      all known and that have no cycle; the order then respects every dependency.
      That `indegree` is a map to nat is the proof that it never underflows. */
  method KahnSort(deps: Deps) returns (r: Option<seq<Id>>)
    ensures r.Some? <==> Known(deps) && Acyclic(deps)
    ensures r.Some? ==> IsTopoOrder(deps, r.value)
  {
    var indegree: map<Id, nat> := map j | j in deps :: |deps[j]|;
    var notify := Waiters(deps);
    var queue := Enumerate(set j | j in deps && indegree[j] == 0);
    var order := [];
    SortBegins(deps, indegree, queue);
    while queue != []
      invariant SortInvariant(deps, indegree, order, queue) && |order| + |queue| <= |deps|
      decreases |deps| - |order|
    {
      indegree, queue, order := Retire(deps, notify, indegree, queue, order);
      QueueFits(deps, indegree, order, queue);
    }
    SortEnds(deps, indegree, order);
    r := if |order| != |deps| then None else Some(order);
  }

  lemma SortBegins(deps: Deps, indegree: map<Id, nat>, queue: seq<Id>)
    requires indegree == map j | j in deps :: |deps[j]|
    requires NoDup(queue) && Elems(queue) == set j | j in deps && indegree[j] == 0
    ensures SortInvariant(deps, indegree, [], queue) && |queue| <= |deps|
  {
    assert forall j :: j in queue <==> j in Elems(queue);
    forall j | j in deps ensures indegree[j] == Unmet(deps[j], {}) { UnmetNothingDone(deps[j]); }
    var none: seq<Id> := [];
    assert Elems(none) == {} && none + queue == queue;
    QueueFits(deps, indegree, none, queue);
  }

  lemma QueueFits(deps: Deps, indegree: map<Id, nat>, order: seq<Id>, queue: seq<Id>)
    requires indegree.Keys == deps.Keys && Queued(indegree, order + queue)
    ensures |order| + |queue| <= |deps|
  {
    NoDupCard(order + queue);
    assert forall j :: j in Elems(order + queue) ==> j in order + queue;
    SubsetCard(Elems(order + queue), deps.Keys);
  }

  /** When the queue runs dry, either everything has been sorted or the rest is stuck. */
  lemma SortEnds(deps: Deps, indegree: map<Id, nat>, order: seq<Id>)
    requires SortInvariant(deps, indegree, order, [])
    ensures |order| == |deps| ==> IsTopoOrder(deps, order) && Known(deps) && Acyclic(deps)
    ensures |order| != |deps| ==> !(Known(deps) && Acyclic(deps))
  {
    assert order + [] == order;
    assert forall j :: j in Elems(order) ==> j in order;
    AllSorted(deps, order);
    if |order| != |deps| {
      if Known(deps) {
        var a :| a in deps.Keys && a !in Elems(order);
        LeftoversCycle(deps, Elems(order), a);
      }
    } else {
      TopoOrderMeansAcyclic(deps, order);
    }
  }

  /** One turn of the loop: pop a job, decrement its waiters, queue the freed ones. */
  method Retire(deps: Deps, notify: map<Id, seq<Id>>, indegree: map<Id, nat>, queue: seq<Id>, order: seq<Id>)
    returns (indegree': map<Id, nat>, queue': seq<Id>, order': seq<Id>)
    requires queue != [] && SortInvariant(deps, indegree, order, queue)
    requires forall d, j :: Listings(notify, d, j) == Occurrences(deps, j, d)
    ensures SortInvariant(deps, indegree', order', queue')
    ensures order' == order + [queue[0]]
  {
    var job := queue[0];
    indegree', queue', order' := indegree, queue[1..], order + [job];
    Popped(deps, indegree, order, queue);
    var waiters := if job in notify then notify[job] else [];
    forall j | j in waiters ensures j in deps && multiset(waiters)[j] <= indegree[j] {
      assert Listings(notify, job, j) == Occurrences(deps, j, job) > 0;
    }
    hide Queued;
    indegree', queue' := Decrement(waiters, indegree, queue', order');
    forall j | j in deps
      ensures indegree'[j] == Unmet(deps[j], Elems(order'))
    {
      assert multiset(waiters)[j] == Listings(notify, job, j) == Occurrences(deps, j, job);
    }
  }

  /** Popping a job: its dependencies are all sorted, and the counters now lag behind
      the order by exactly the notifications still to be sent. */
  lemma Popped(deps: Deps, indegree: map<Id, nat>, order: seq<Id>, queue: seq<Id>)
    requires queue != [] && SortInvariant(deps, indegree, order, queue)
    ensures var order' := order + [queue[0]];
            && Queued(indegree, order' + queue[1..])
            && (forall i, d :: 0 <= i < |order'| && d in deps[order'[i]] ==> d in order'[..i])
            && forall j :: j in deps ==> indegree[j] == Unmet(deps[j], Elems(order')) + Occurrences(deps, j, queue[0])
    ensures forall j :: j in order + [queue[0]] ==> j in deps
  {
    var job, order' := queue[0], order + [queue[0]];
    assert order' + queue[1..] == order + queue;
    assert forall i :: 0 <= i < |order| ==> (order + queue)[i] == order[i];
    assert (order + queue)[|order|] == job && job !in order && job in order + queue;
    assert Elems(order') == Elems(order) + {job};
    UnmetZero(deps[job], Elems(order));
    hide Queued, NoDup;
    forall j | j in deps
      ensures indegree[j] == Unmet(deps[j], Elems(order')) + Occurrences(deps, j, job)
    {
      UnmetFinish(deps[j], Elems(order), job);
    }
    forall i, d | 0 <= i < |order'| && d in deps[order'[i]] ensures d in order'[..i] {
      if i < |order| { assert order'[..i] == order[..i]; } else { assert order'[..i] == order; }
    }
  }

  method Decrement(waiters: seq<Id>, indegree: map<Id, nat>, queue: seq<Id>, ghost taken: seq<Id>)
    returns (indegree': map<Id, nat>, queue': seq<Id>)
    requires Queued(indegree, taken + queue)
    requires forall j :: j in waiters ==> j in indegree && multiset(waiters)[j] <= indegree[j]
    ensures indegree'.Keys == indegree.Keys && Queued(indegree', taken + queue')
    ensures forall j :: j in indegree ==> indegree'[j] == indegree[j] - multiset(waiters)[j]
  {
    hide Queued;
    indegree', queue' := indegree, queue;
    for k := 0 to |waiters|
      invariant indegree'.Keys == indegree.Keys && Queued(indegree', taken + queue')
      invariant forall j :: j in indegree ==> indegree'[j] + multiset(waiters[..k])[j] == indegree[j]
    {
      var w := waiters[k];
      NextEntry(waiters, k);
      DecrementOne(indegree', taken + queue', w);
      indegree' := indegree'[w := indegree'[w] - 1];
      if indegree'[w] == 0 {
        assert taken + (queue' + [w]) == (taken + queue') + [w];
        queue' := queue' + [w];
      }
    }
    assert waiters[..|waiters|] == waiters;
  }

  lemma NextEntry(waiters: seq<Id>, k: nat)
    requires k < |waiters|
    ensures forall j :: multiset(waiters[..k + 1])[j] == multiset(waiters[..k])[j] + if j == waiters[k] then 1 else 0
    ensures multiset(waiters[..k])[waiters[k]] < multiset(waiters)[waiters[k]]
  {
    assert waiters[..k + 1] == waiters[..k] + [waiters[k]];
    assert waiters == waiters[..k + 1] + waiters[k + 1..];
  }

  lemma DecrementOne(indegree: map<Id, nat>, seen: seq<Id>, w: Id)
    requires Queued(indegree, seen) && w in indegree && indegree[w] > 0
    ensures Queued(indegree[w := indegree[w] - 1], if indegree[w] == 1 then seen + [w] else seen)
  {
  }

  lemma AllSorted(deps: Deps, order: seq<Id>)
    requires NoDup(order) && Elems(order) <= deps.Keys
    ensures |order| == |deps| <==> Elems(order) == deps.Keys
  {
    NoDupCard(order);
    if Elems(order) != deps.Keys { SmallerSubset(Elems(order), deps.Keys); }
  }

  /** A job left over has a dependency left over: the leftovers trap a cycle. */
  lemma LeftoversCycle(deps: Deps, done: set<Id>, a: Id)
    requires forall j :: j in deps && j !in done ==> Unmet(deps[j], done) > 0
    requires a in deps && a !in done && Known(deps)
    ensures !Acyclic(deps)
  {
    var trap := set j | j in deps && j !in done;
    forall x | x in trap ensures exists y :: y in trap && Edge(deps, x, y) {
      UnmetZero(deps[x], done);
      var y :| y in deps[x] && y !in done;
      assert Edge(deps, x, y);
    }
    TrappedMeansCycle(deps, trap, a);
  }

  method Build(jobs: map<Id, JobDef>) returns (r: Option<Dag>)
    ensures r.Some? <==> Known(DepsOf(jobs)) && Acyclic(DepsOf(jobs))
    ensures r.Some? ==> r.value.Valid() && r.value.deps == DepsOf(jobs)
  {
    var deps := DepsOf(jobs);
    var notify := Waiters(deps);
    var dependents := (map k | k in deps :: []) + notify;
    var sorted := KahnSort(deps);
    if sorted.None? { return None; }
    r := Some(Dag(sorted.value, deps, dependents));
    assert forall d :: d in notify ==> d in deps;
    forall d, j | d in deps
      ensures multiset(dependents[d])[j] == Occurrences(deps, j, d)
    {
      assert Listings(notify, d, j) == Occurrences(deps, j, d);
    }
  }

  /** Two independent decisions about the same workflow agree: validation reports
      neither an unknown dependency nor a cycle exactly when `Build` succeeds. */
  method ValidateThenBuild(wf: Workflow) returns (errors: seq<ValidationError>, dag: Option<Dag>)
    requires wf.WellFormed()
    ensures dag.Some? <==> CyclicDependency !in errors && forall j, d :: UnknownDependency(j, d) !in errors
  {
    errors := Validate(wf);
    dag := Build(wf.jobs);
    forall a, b | Edge(DepsOf(wf.jobs), a, b) && b !in wf.jobs
      ensures UnknownDependency(a, b) in errors
    {
      assert Defect(wf, UnknownDependency(a, b));
    }
    forall a, b | UnknownDependency(a, b) in errors
      ensures !Known(DepsOf(wf.jobs))
    {
      assert Defect(wf, UnknownDependency(a, b));
      assert Edge(DepsOf(wf.jobs), a, b);
    }
    assert CyclicDependency in errors <==> Defect(wf, CyclicDependency);
  }

  /** Jobs that wait for nothing. */
  function RootSet(dag: Dag): set<Id> {
    set j | j in dag.deps && dag.deps[j] == []
  }

  /** Every job is a root or waits, directly or indirectly, for one: starting the roots is
      enough to reach everything. */
  lemma {:induction false} RestsOnARoot(dag: Dag, j: Id) returns (r: Id)
    requires dag.Valid() && j in dag.deps && j in dag.topoOrder
    ensures r in RootSet(dag) && (r == j || Reaches(dag.deps, j, r))
    decreases Position(dag.topoOrder, j)
  {
    if dag.deps[j] == [] {
      r := j;
    } else {
      var d := dag.deps[j][0];
      assert Edge(dag.deps, j, d);
      EdgeDescends(dag.deps, dag.topoOrder, j, d);
      assert d in Elems(dag.topoOrder);
      EdgeReaches(dag.deps, j, d);
      r := RestsOnARoot(dag, d);
      if r != d { ReachesTransitive(dag.deps, j, d, r); }
    }
  }
}
