/** Results of a run, and retrying a run from its persisted rows. */
module Retries {
  import opened Collections
  import opened Graph
  import opened Workflows
  import opened Dags
  import opened States
  import opened Scheduler
  import opened Settling
  import opened Moves
  import opened Discipline

  // -- The results -----------------------------------------------------------

  function ResultIds(results: seq<JobResult>): (ids: seq<Id>)
    ensures |ids| == |results| && forall i :: 0 <= i < |ids| ==> ids[i] == results[i].job
  {
    seq(|results|, i requires 0 <= i < |results| => results[i].job)
  }

  function KindOf(c: Config, s: State, j: Id): ResultKind {
    if j in c.pre then Reused
    else if StatusOf(s, j).Failed? then Broke
    else if StatusOf(s, j).Skipped? then Passed
    else Ran
  }

  ghost predicate HasResult(s: State, j: Id) {
    exists i :: 0 <= i < |s.results| && s.results[i].job == j
  }

  /** The results list exactly the jobs that have ended, with the right kind, and each once;
      only a skip may be listed again. */
  ghost predicate Tallied(c: Config, s: State) {
    && (forall i, k :: 0 <= i < k < |s.results| && s.results[i].job == s.results[k].job ==> s.results[k].kind.Passed?)
    && (forall j :: HasResult(s, j) <==> IsTerminal(StatusOf(s, j)))
    && (forall i :: 0 <= i < |s.results| ==> s.results[i].kind == KindOf(c, s, s.results[i].job))
  }

  lemma ResultAppended(s: State, t: State, r: JobResult, k: Id)
    requires t.results == s.results + [r]
    ensures HasResult(t, k) <==> HasResult(s, k) || k == r.job
  {
    assert t.results[|s.results|].job == r.job;
    if HasResult(s, k) {
      var i :| 0 <= i < |s.results| && s.results[i].job == k;
      assert t.results[i].job == k;
    }
  }

  /** One more result: of a job that has just ended, or once more of a skipped one. */
  lemma AppendTallied(c: Config, s: State, t: State, j: Id)
    requires Tallied(c, s) && (IsTerminal(StatusOf(s, j)) ==> StatusOf(s, j).Skipped? && KindOf(c, t, j).Passed?)
    requires forall k :: IsTerminal(StatusOf(t, k)) <==> k == j || IsTerminal(StatusOf(s, k))
    requires forall k :: IsTerminal(StatusOf(s, k)) ==> StatusOf(t, k) == StatusOf(s, k)
    requires t.results == s.results + [JobResult(j, KindOf(c, t, j))]
    ensures Tallied(c, t)
  {
    forall k ensures HasResult(t, k) <==> IsTerminal(StatusOf(t, k)) {
      ResultAppended(s, t, JobResult(j, KindOf(c, t, j)), k);
    }
    forall i | 0 <= i < |s.results| ensures IsTerminal(StatusOf(s, s.results[i].job)) {
      assert HasResult(s, s.results[i].job);
    }
  }

  /** Launching adds no result and ends no job. */
  lemma SameTally(c: Config, s: State, t: State)
    requires Tallied(c, s) && t.results == s.results
    requires forall k :: StatusOf(t, k) == StatusOf(s, k) || (StatusOf(s, k).Pending? && StatusOf(t, k).Running?)
    ensures Tallied(c, t)
  {
    assert forall k :: HasResult(t, k) <==> HasResult(s, k);
    forall i | 0 <= i < |t.results| ensures t.results[i].kind == KindOf(c, t, t.results[i].job) {
      assert HasResult(s, s.results[i].job);
    }
  }

  lemma NothingTallied(c: Config)
    ensures Tallied(c, Initial(c)) && Initial(c).results == []
  {
  }

  lemma {:induction false} SeedTallied(c: Config, ids: seq<Id>)
    requires NoDup(ids) && forall j :: j in ids ==> j in c.pre
    ensures Tallied(c, Seed(c, Initial(c), ids))
  {
    hide Tallied, StoreMirrors, Serialize, Initial;
    if ids == [] {
      NothingTallied(c);
    } else {
      var front, j := ids[..|ids| - 1], ids[|ids| - 1];
      assert ids == front + [j];
      SeedTallied(c, front);
      SeedFacts(c, front);
      var s, t := Seed(c, Initial(c), front), Seed(c, Initial(c), ids);
      InitiallyPending(c, s, front, j);
      assert forall k :: k != j ==> StatusOf(t, k) == StatusOf(s, k);
      AppendTallied(c, s, t, j);
    }
  }

  lemma InitiallyPending(c: Config, s: State, front: seq<Id>, j: Id)
    requires j !in front && forall k :: k in front ==> k in c.pre
    requires forall k :: k in s.statuses ==> s.statuses[k] == if k in front then Succeeded(c.pre[k]) else Pending
    ensures StatusOf(s, j).Pending?
  {
  }

  lemma {:induction false} LaunchingKeepsResults(c: Config, s: State, ids: seq<Id>)
    ensures LaunchRoots(c, s, ids).results == s.results
    ensures LaunchReady(c, s, ids).results == s.results
  {
    hide Serialize, LaunchInput, OwnInput, IsRoot, AllReused;
    if ids != [] { LaunchingKeepsResults(c, s, ids[..|ids| - 1]); }
  }

  lemma StartTallied(c: Config)
    requires ValidConfig(c)
    ensures Tallied(c, Start(c))
  {
    hide ValidConfig, Sound, StoreMirrors, Seed, LaunchRoots, LaunchReady, Tallied;
    OrdersExact(c);
    var s0 := Seed(c, Initial(c), c.preOrder);
    var s1 := LaunchRoots(c, s0, c.rootOrder);
    PreDistinct(c);
    SeedTallied(c, c.preOrder);
    SeedSound(c);
    SeededStatuses(c, s0);
    LaunchRootsFacts(c, s0, c.rootOrder);
    LaunchReadyFacts(c, s1, c.wf.order);
    LaunchingKeepsResults(c, s0, c.rootOrder);
    LaunchingKeepsResults(c, s1, c.wf.order);
    SameTally(c, s0, Start(c));
  }

  lemma PreDistinct(c: Config)
    requires ValidConfig(c)
    ensures NoDup(c.preOrder) && |c.preOrder| == |c.pre|
  {
    NoDupCard(c.preOrder);
  }

  lemma MoveTallied(c: Config, s: State, j: Id)
    requires Tallied(c, s) && ReadyMove(c, s, j)
    ensures Tallied(c, Move(c, s, j))
  {
    hide Tallied, ShouldSkip, LaunchInput, Serialize, AllDone, AllReused;
    var t := Move(c, s, j);
    MoveStatus(c, s, j);
    if ShouldSkip(c, s, j) { AppendTallied(c, s, t, j); } else { SameTally(c, s, t); }
  }

  lemma {:induction false} PlayTallied(c: Config, s: State, ms: seq<Look>)
    requires Proper(c, s, ms) && Tallied(c, s)
    ensures Tallied(c, Play(c, s, ms))
  {
    hide Tallied, ReadyMove, Move, Orderly;
    if ms != [] {
      PlayTallied(c, s, ms[..|ms| - 1]);
      MoveTallied(c, Play(c, s, ms[..|ms| - 1]), ms[|ms| - 1].job);
    }
  }

  lemma SucceedTallied(c: Config, s: State, f: Flight, elapsed: nat, bytes: Bytes)
    requires Tallied(c, s) && s.inFlight > 0 && f.job !in c.pre && StatusOf(s, f.job).Running?
    ensures Tallied(c, Succeed(s, f, elapsed, bytes))
  {
    hide Tallied, Serialize;
    var t := Succeed(s, f, elapsed, bytes);
    assert forall k :: k != f.job ==> StatusOf(t, k) == StatusOf(s, k);
    AppendTallied(c, s, t, f.job);
  }

  lemma FailTallied(c: Config, s: State, f: Flight, elapsed: nat, reason: string, halted: bool)
    requires Tallied(c, s) && s.inFlight > 0 && f.job !in c.pre && StatusOf(s, f.job).Running?
    ensures Tallied(c, Fail(s, f, elapsed, reason).(halted := halted))
  {
    hide Tallied, Serialize;
    var t := Fail(s, f, elapsed, reason).(halted := halted);
    assert forall k :: k != f.job ==> StatusOf(t, k) == StatusOf(s, k);
    AppendTallied(c, s, t, f.job);
  }

  /** The jobs that have run to an end, or were reused. */
  function EndedIn(s: State): set<Id> {
    set j | j in s.statuses && (s.statuses[j].Succeeded? || s.statuses[j].Failed?)
  }

  lemma FlightRuns(c: Config, s: State, f: Flight)
    requires Orderly(c, s) && f in s.flights
    ensures f.job !in c.pre && StatusOf(s, f.job).Running? && f.job in s.statuses && f.job !in EndedIn(s)
  {
  }

  lemma EndedAfter(c: Config, s: State, t: State, u: State, j: Id)
    requires t.statuses == s.statuses[j := StatusOf(t, j)] && (StatusOf(t, j).Succeeded? || StatusOf(t, j).Failed?)
    requires JustDone(c, t, j) ==> Touched(c, t, u, j)
    requires JustDone(c, t, j) || u.statuses == t.statuses
    ensures EndedIn(u) == EndedIn(s) + {j}
  {
    hide WaitsFor;
    assert EndedIn(t) == EndedIn(s) + {j};
    forall x ensures x in EndedIn(u) <==> x in EndedIn(t) {
      if JustDone(c, t, j) {
        assert StatusOf(u, x) == StatusOf(t, x) || (StatusOf(t, x).Pending? && !StatusOf(u, x).Failed?);
      }
    }
  }

  lemma DeliverTallied(c: Config, s: State, f: Flight, elapsed: nat)
    requires Plain(c) && Orderly(c, s) && Tallied(c, s) && f in s.flights && s.inFlight > 0
    ensures Tallied(c, Deliver(c, s, f, elapsed))
    ensures EndedIn(Deliver(c, s, f, elapsed)) == EndedIn(s) + {f.job} && f.job !in EndedIn(s)
  {
    hide Plain, ValidConfig, Orderly, Tallied, ReleaseAll, AfterFailure, Succeed, Fail, StatusOf, Touched, JustDone,
      Proper,
      Play, EndedIn;
    PlainValid(c);
    FlightRuns(c, s, f);
    match c.run(f.job, f.input)
    case Output(bytes) =>
      var t := Succeed(s, f, elapsed, bytes);
      SucceedTallied(c, s, f, elapsed, bytes);
      SucceedStatus(s, f, elapsed, bytes);
      SucceedReady(c, s, f, elapsed, bytes);
      if s.success {
        var ms := SuccessIsProper(c, s, f, elapsed, bytes);
        PlayTallied(c, t, ms);
        EndedAfter(c, s, t, Play(c, t, ms), f.job);
      } else {
        TouchedNothing(c, t, f.job);
        EndedAfter(c, s, t, t, f.job);
      }
    case Failure(reason) =>
      var t := Fail(s, f, elapsed, reason);
      FailOrderly(c, s, f, elapsed, reason);
      FailTallied(c, s, f, elapsed, reason, AfterFailure(c, t, f.job).halted);
      EndedByFailure(s, AfterFailure(c, t, f.job), f.job, elapsed, reason);
  }

  lemma EndedByFailure(s: State, u: State, j: Id, elapsed: nat, reason: string)
    requires u.statuses == s.statuses[j := Failed(elapsed, reason)]
    ensures EndedIn(u) == EndedIn(s) + {j}
  {
  }

  lemma {:induction false} StepsTallied(c: Config, s: State, t: State, n: nat)
    requires Plain(c) && Steps(c, s, t, n) && Orderly(c, s) && Tallied(c, s)
    ensures Orderly(c, t) && Tallied(c, t) && |EndedIn(t)| == |EndedIn(s)| + n
    decreases n
  {
    hide Plain, Orderly, Tallied, Deliver, Final, EndedIn;
    if n > 0 {
      var m :| Steps(c, s, m, n - 1) && Step(c, m, t);
      StepsTallied(c, s, m, n - 1);
      var f: Flight, elapsed: nat :| f in m.flights && t == Deliver(c, m, f, elapsed);
      DeliverOrderly(c, m, f, elapsed);
      DeliverTallied(c, m, f, elapsed);
    }
  }

  lemma StartEnded(c: Config)
    requires ValidConfig(c)
    ensures |EndedIn(Start(c))| == |c.pre|
  {
    hide ValidConfig, Start, StoreMirrors, Counted, Clean, Settled, AllReused, StatusOf;
    StartStatuses(c);
    StartEndedOf(c, Start(c));
  }

  lemma StartEndedOf(c: Config, s: State)
    requires Scoped(c, s) && forall j :: j in c.wf.jobs ==> StatusOf(s, j) == StartStatus(c, j)
    ensures |EndedIn(s)| == |c.pre|
  {
    hide AllReused;
    forall j ensures j in EndedIn(s) <==> j in c.pre {
      if j in c.wf.jobs { assert StatusOf(s, j) == StartStatus(c, j); }
    }
    assert EndedIn(s) == c.pre.Keys;
  }

  /** After n events n jobs have run to an end, each with one result; what is reused, ended
      or running never exceeds the jobs there are. */
  lemma RunsAreBounded(c: Config, s: State, n: nat)
    requires Plain(c) && Steps(c, Start(c), s, n)
    ensures Tallied(c, s) && |EndedIn(s)| == |c.pre| + n
    ensures |c.pre| + n + s.inFlight <= |c.wf.jobs.Keys + c.pre.Keys|
  {
    hide Plain, ValidConfig, Orderly, Tallied, Start, EndedIn;
    PlainValid(c);
    StartOrderly(c);
    StartTallied(c);
    StartEnded(c);
    StepsTallied(c, Start(c), s, n);
    EndedFit(c, s);
  }

  lemma EndedFit(c: Config, s: State)
    requires Orderly(c, s)
    ensures |EndedIn(s)| + s.inFlight <= |c.wf.jobs.Keys + c.pre.Keys|
  {
    OrderlyParts(c, s);
    hide Ordered, StoreMirrors, Counted, Clean, SkipsExact, Orderly, Sound;
    forall j | j in EndedIn(s) + RunningIn(s) ensures j in c.wf.jobs.Keys + c.pre.Keys {
      assert j in s.statuses;
    }
    assert |EndedIn(s) + RunningIn(s)| == |EndedIn(s)| + |RunningIn(s)|;
    SubsetCard(EndedIn(s) + RunningIn(s), c.wf.jobs.Keys + c.pre.Keys);
  }

  // -- Downstream of a job ---------------------------------------------------

  /** from and everything that depends on it. */
  ghost predicate Downstream(g: Deps, from: Id, j: Id) {
    j == from || Reaches(g, j, from)
  }

  lemma DownstreamOfDependent(g: Deps, from: Id, d: Id, j: Id)
    requires Downstream(g, from, d) && Edge(g, j, d)
    ensures Downstream(g, from, j)
  {
    EdgeReaches(g, j, d);
    if d != from { ReachesTransitive(g, j, d, from); }
  }

  lemma {:induction false} ClosedCoversWalk(g: Deps, s: set<Id>, j: Id, from: Id, n: nat)
    requires from in s && forall d, k :: d in s && Edge(g, k, d) ==> k in s
    requires Walk(g, j, from, n)
    ensures j in s
    decreases n
  {
    if n > 0 {
      var m :| Edge(g, j, m) && Walk(g, m, from, n - 1);
      ClosedCoversWalk(g, s, m, from, n - 1);
    }
  }

  lemma WaitersAreEdges(dag: Dag, d: Id, j: Id)
    requires dag.Valid() && d in dag.dependents
    ensures j in dag.dependents[d] <==> Edge(dag.deps, j, d)
  {
    assert multiset(dag.dependents[d])[j] == Occurrences(dag.deps, j, d);
    assert j in dag.dependents[d] <==> multiset(dag.dependents[d])[j] > 0;
    assert j in dag.deps ==> (d in dag.deps[j] <==> multiset(dag.deps[j])[d] > 0);
  }

  /** Breadth-first search over the waiter lists; unknown ids are tolerated. */
  method DownstreamInclusive(dag: Dag, start: Id) returns (visited: set<Id>)
    requires dag.Valid()
    ensures forall j :: j in visited <==> Downstream(dag.deps, start, j)
  {
    visited := {};
    var queue := [start];
    ghost var universe := dag.deps.Keys + {start};
    while queue != []
      invariant visited <= universe && Elems(queue) <= universe
      invariant start in visited + Elems(queue)
      invariant forall j :: j in visited + Elems(queue) ==> Downstream(dag.deps, start, j)
      invariant forall d, k :: d in visited && Edge(dag.deps, k, d) ==> k in visited + Elems(queue)
      decreases universe - visited, |queue|
    {
      var node := queue[0];
      assert queue == [node] + queue[1..];
      queue := queue[1..];
      if node !in visited {
        visited := visited + {node};
        if node in dag.dependents {
          var waiters := dag.dependents[node];
          forall j | j in waiters ensures Downstream(dag.deps, start, j) && j in universe {
            WaitersAreEdges(dag, node, j);
            DownstreamOfDependent(dag.deps, start, node, j);
          }
          forall k | Edge(dag.deps, k, node) ensures k in waiters { WaitersAreEdges(dag, node, k); }
          queue := queue + waiters;
        } else {
          forall k ensures !Edge(dag.deps, k, node) { NoUnknownEdge(dag, k, node); }
        }
      }
    }
    forall j | Downstream(dag.deps, start, j) ensures j in visited {
      if j != start {
        var n: nat :| n > 0 && Walk(dag.deps, j, start, n);
        ClosedCoversWalk(dag.deps, visited, j, start, n);
      }
    }
  }

  lemma NoUnknownEdge(dag: Dag, k: Id, d: Id)
    requires dag.Valid() && d !in dag.dependents
    ensures !Edge(dag.deps, k, d)
  {
    TopoOrderMeansAcyclic(dag.deps, dag.topoOrder);
  }

  // -- Chains of retries -----------------------------------------------------

  /** What `retry_inner` carries over: the jobs that had succeeded, outside the replay set. */
  method PlanRetry(dag: Dag, prev: map<Id, Status>, from: Id) returns (pre: map<Id, nat>)
    requires dag.Valid()
    ensures forall j :: j in pre <==> j in prev && prev[j].Succeeded? && !Downstream(dag.deps, from, j)
    ensures forall j :: j in pre ==> prev[j] == Succeeded(pre[j])
  {
    var replay := DownstreamInclusive(dag, from);
    pre := map j | j in prev && prev[j].Succeeded? && j !in replay :: prev[j].elapsed;
  }

  /** d retries, from job `from`, a run of c observed in any reachable state s:
      complete, failed, or interrupted half-way.  The components may behave differently
      this time. */
  ghost predicate RetryOf(c: Config, s: State, from: Id, d: Config) {
    && ValidConfig(d) && c.wf.jobs == d.wf.jobs && Reachable(c, s)
    && (forall j :: j in d.pre <==> j in s.rows && Decode(s.rows[j]).Succeeded? && !Downstream(d.dag.deps, from, j))
  }

  /** The n-th retry in a chain that began with a fresh run. */
  ghost predicate Attempt(c: Config, n: nat)
    decreases n
  {
    if n == 0 then c.pre == map[]
    else exists b, s, from :: ValidConfig(b) && Attempt(b, n - 1) && RetryOf(b, s, from, c)
  }

  lemma DecodedSucceeded(s: State, j: Id)
    requires StoreMirrors(s)
    ensures j in s.rows && Decode(s.rows[j]).Succeeded? <==> StatusOf(s, j).Succeeded?
  {
    if j in s.rows { DecodeSerialize(s.statuses[j]); }
  }

  /** Reused is exactly what had succeeded and does not lie downstream of `from`. */
  lemma ReusedExactly(b: Config, s: State, from: Id, c: Config, j: Id)
    requires ValidConfig(b) && RetryOf(b, s, from, c)
    ensures j in c.pre <==> StatusOf(s, j).Succeeded? && !Downstream(c.dag.deps, from, j)
    ensures j in c.pre ==> j in c.wf.jobs || j in b.pre
  {
    hide ValidConfig, Downstream;
    ReachableSettled(b, s);
    DecodedSucceeded(s, j);
  }

  lemma {:induction false} AttemptScoped(c: Config, n: nat)
    requires Attempt(c, n)
    ensures c.pre.Keys <= c.wf.jobs.Keys
    decreases n
  {
    hide ValidConfig, RetryOf;
    if n > 0 {
      var b, s, from :| ValidConfig(b) && Attempt(b, n - 1) && RetryOf(b, s, from, c);
      AttemptScoped(b, n - 1);
      forall j | j in c.pre ensures j in c.wf.jobs { RetryScoped(b, s, from, c, j); }
    }
  }

  lemma RetryScoped(b: Config, s: State, from: Id, c: Config, j: Id)
    requires ValidConfig(b) && RetryOf(b, s, from, c) && b.pre.Keys <= b.wf.jobs.Keys && j in c.pre
    ensures j in c.wf.jobs
  {
    ReusedExactly(b, s, from, c, j);
    hide ValidConfig, Downstream, Decode;
  }

  /** No job is rerun below one that is kept. */
  ghost predicate PreClosed(c: Config) {
    forall j, d :: j in c.pre && d in DepsAt(c, j) ==> d in c.pre
  }

  lemma DependencyKept(b: Config, s: State, from: Id, c: Config, j: Id, d: Id)
    requires Plain(b) && PreClosed(b) && RetryOf(b, s, from, c) && j in c.pre && d in DepsAt(c, j)
    ensures d in c.pre <==> !StatusOf(s, d).Skipped?
  {
    hide Plain, ValidConfig, RetryOf, Orderly, Downstream, Reachable;
    PlainValid(b);
    SameGraph(b, s, from, c);
    ReusedExactly(b, s, from, c, j);
    ReusedExactly(b, s, from, c, d);
    ReachableOrderly(b, s);
    NotDownstreamBelow(c.dag.deps, from, j, d);
    DependencyDone(b, s, j, d);
  }

  lemma SameGraph(b: Config, s: State, from: Id, c: Config)
    requires ValidConfig(b) && RetryOf(b, s, from, c)
    ensures c.dag.deps == b.dag.deps && Reachable(b, s)
  {
    hide Reachable, Decode, Downstream;
  }

  lemma NotDownstreamBelow(g: Deps, from: Id, j: Id, d: Id)
    requires j in g && d in g[j] && !Downstream(g, from, j)
    ensures !Downstream(g, from, d)
  {
    if Downstream(g, from, d) { DownstreamOfDependent(g, from, d, j); }
  }

  lemma DependencyDone(b: Config, s: State, j: Id, d: Id)
    requires Orderly(b, s) && PreClosed(b) && ValidConfig(b) && StatusOf(s, j).Succeeded? && d in DepsAt(b, j)
    ensures StatusOf(s, d).Succeeded? || StatusOf(s, d).Skipped?
  {
    OrderlyParts(b, s);
    DependentsExact(b, d, j);
    hide Orderly, ValidConfig, Sound, StartedOnce, SkipsExact, Counted;
    if j in b.pre { assert d in b.pre; } else { assert IsDone(StatusOf(s, d)); }
  }

  /** What is reused is closed under dependencies exactly if no reused job had a skipped one. */
  lemma RetryClosed(b: Config, s: State, from: Id, c: Config)
    requires Plain(b) && PreClosed(b) && RetryOf(b, s, from, c)
    ensures PreClosed(c) <==> forall j, d :: j in c.pre && d in DepsAt(c, j) ==> !StatusOf(s, d).Skipped?
  {
    hide Plain, RetryOf, DepsAt;
    forall j, d | j in c.pre && d in DepsAt(c, j) ensures d in c.pre <==> !StatusOf(s, d).Skipped? {
      DependencyKept(b, s, from, c, j, d);
    }
  }

  // -- Without guards --------------------------------------------------------

  /** A job may list a dependency twice only if another of its dependencies waits for it. */
  ghost predicate HarmlessRepeats(g: Deps) {
    forall j, d :: j in g && multiset(g[j])[d] > 1 ==> exists e :: e in g[j] && Reaches(g, e, d)
  }

  lemma {:induction false} WalkStaysLive(c: Config, e: Id, d: Id, n: nat)
    requires PreClosed(c) && Walk(c.dag.deps, e, d, n) && d !in c.pre
    ensures Walk(LiveDeps(c), e, d, n) && e !in c.pre
    decreases n
  {
    if n > 0 {
      var m :| Edge(c.dag.deps, e, m) && Walk(c.dag.deps, m, d, n - 1);
      WalkStaysLive(c, m, d, n - 1);
      assert m in DepsAt(c, e);
      assert Edge(LiveDeps(c), e, m);
    }
  }

  ghost predicate Structured(c: Config) {
    ValidConfig(c) && Unguarded(c) && HarmlessRepeats(c.dag.deps)
  }

  lemma StructuredIsPlain(c: Config)
    requires Structured(c) && PreClosed(c)
    ensures Plain(c)
  {
    assert forall y :: !HasGuard(c, y);
    hide ValidConfig, HasGuard;
    forall y, d | y in c.wf.jobs && y !in c.pre && d !in c.pre && multiset(DepsAt(c, y))[d] > 1
      ensures SomeWaits(c, y, d)
    {
      var e :| e in c.dag.deps[y] && Reaches(c.dag.deps, e, d);
      var n: nat :| n > 0 && Walk(c.dag.deps, e, d, n);
      WalkStaysLive(c, e, d, n);
      assert WaitsFor(c, e, d);
    }
    SpreadIsPlain(c);
  }

  lemma UnguardedRetryClosed(b: Config, s: State, from: Id, c: Config)
    requires Plain(b) && Unguarded(b) && PreClosed(b) && RetryOf(b, s, from, c)
    ensures PreClosed(c)
  {
    RetryClosed(b, s, from, c);
    PlainValid(b);
    assert Reachable(b, s) && ValidConfig(c) && c.wf.jobs == b.wf.jobs && c.dag.deps.Keys == c.wf.jobs.Keys;
    hide Plain, RetryOf, Orderly, Unguarded, Reachable;
    ReachableOrderly(b, s);
    forall j, d | j in c.pre && d in DepsAt(c, j) ensures !StatusOf(s, d).Skipped? {
      DependentsExact(c, d, j);
      NothingSkipped(b, s, d);
    }
  }

  /** Every retry in a chain without guards is closed and meets the start-once condition. */
  lemma {:induction false} AttemptPlain(c: Config, n: nat)
    requires Structured(c) && Attempt(c, n)
    ensures Plain(c) && PreClosed(c)
    decreases n
  {
    hide ValidConfig, RetryOf, Unguarded, Plain, HarmlessRepeats;
    if n > 0 {
      var b, s, from :| ValidConfig(b) && Attempt(b, n - 1) && RetryOf(b, s, from, c);
      RetryShares(b, s, from, c);
      AttemptPlain(b, n - 1);
      UnguardedRetryClosed(b, s, from, c);
    }
    StructuredIsPlain(c);
  }

  lemma RetryShares(b: Config, s: State, from: Id, c: Config)
    requires ValidConfig(b) && RetryOf(b, s, from, c) && Structured(c)
    ensures Structured(b)
  {
    assert b.dag.deps == c.dag.deps;
  }

  // -- What a retry does -----------------------------------------------------

  /** A retry executes only jobs that lie downstream of `from` or had not succeeded; if it
      ends in success it has executed or skipped every one of them. */
  lemma RetryIsExact(b: Config, s: State, from: Id, c: Config, t: State, j: Id)
    requires ValidConfig(b) && RetryOf(b, s, from, c) && Plain(c) && Reachable(c, t) && j in c.wf.jobs
    ensures t.started[j] <= 1
    ensures t.started[j] == 1 ==> Downstream(c.dag.deps, from, j) || !StatusOf(s, j).Succeeded?
    ensures !Looping(t) && t.success ==>
        (Downstream(c.dag.deps, from, j) || !StatusOf(s, j).Succeeded? <==>
                 t.started[j] == 1 || StatusOf(t, j).Skipped?)
  {
    hide RetryOf, Plain, StatusOf, Looping, Downstream, ValidConfig, Reachable;
    ReusedExactly(b, s, from, c, j);
    StartedExactly(c, t, j);
  }

  lemma StartedExactly(c: Config, t: State, j: Id)
    requires Plain(c) && Reachable(c, t) && j in c.wf.jobs
    ensures t.started[j] <= 1 && (t.started[j] == 1 ==> j !in c.pre)
    ensures !Looping(t) && t.success ==> (j !in c.pre <==> t.started[j] == 1 || StatusOf(t, j).Skipped?)
  {
    ReachableOrderly(c, t);
    OrderlyParts(c, t);
    assert ValidConfig(c);
    hide Orderly, Plain, ValidConfig, Sound, Ordered, SkipsExact, Counted, Clean, Reachable;
    if !Looping(t) && t.success { NoJobIsStuck(c, t); }
  }

  function CountSucceeded(results: seq<JobResult>): nat {
    if results == [] then 0
    else CountSucceeded(results[..|results| - 1])
         + if results[|results| - 1].kind.Ran? || results[|results| - 1].kind.Reused? then 1 else 0
  }

  /** The ids counted. */
  ghost function Won(results: seq<JobResult>): set<Id> {
    set r | r in results && (r.kind.Ran? || r.kind.Reused?) :: r.job
  }

  lemma {:induction false} CountIsWon(results: seq<JobResult>)
    requires forall i, k :: 0 <= i < k < |results| && results[i].job == results[k].job ==> results[k].kind.Passed?
    ensures CountSucceeded(results) == |Won(results)|
  {
    if results != [] {
      var front, last := results[..|results| - 1], results[|results| - 1];
      assert results == front + [last];
      CountIsWon(front);
      if last.kind.Ran? || last.kind.Reused? {
        NewResult(front, last);
        assert Won(results) == Won(front) + {last.job};
      } else {
        assert Won(results) == Won(front);
      }
    }
  }

  lemma NewResult(front: seq<JobResult>, last: JobResult)
    requires var all := front + [last];
             forall i, k :: 0 <= i < k < |all| && all[i].job == all[k].job ==> all[k].kind.Passed?
    requires !last.kind.Passed?
    ensures forall r :: r in front ==> r.job != last.job
  {
    forall r | r in front ensures r.job != last.job {
      var i :| 0 <= i < |front| && front[i] == r;
      assert (front + [last])[i] == r && (front + [last])[|front|] == last;
    }
  }

  lemma WonAreSucceeded(c: Config, s: State, j: Id)
    requires Tallied(c, s) && Scoped(c, s) && Clean(s)
    ensures j in Won(s.results) <==> StatusOf(s, j).Succeeded?
  {
    if r :| r in s.results && r.job == j && (r.kind.Ran? || r.kind.Reused?) {
      var i :| 0 <= i < |s.results| && s.results[i] == r;
      assert HasResult(s, j);
    }
    if StatusOf(s, j).Succeeded? {
      assert HasResult(s, j);
      var i :| 0 <= i < |s.results| && s.results[i].job == j;
      var r := s.results[i];
      assert r.kind == KindOf(c, s, r.job);
      assert r in s.results && (r.kind.Ran? || r.kind.Reused?);
      assert r.job in Won(s.results);
    }
  }

  /** What a result says about its job, and the other way round. */
  lemma ResultsTell(c: Config, t: State, r: JobResult)
    requires Plain(c) && Reachable(c, t) && r in t.results
    ensures r.kind == Ran <==> StatusOf(t, r.job).Succeeded? && r.job !in c.pre
    ensures r.kind == Reused <==> StatusOf(t, r.job).Succeeded? && r.job in c.pre
    ensures r.kind == Broke <==> StatusOf(t, r.job).Failed?
    ensures r.kind == Passed <==> StatusOf(t, r.job).Skipped?
  {
    hide Plain, ValidConfig, Start, Steps, StatusOf, Orderly, Sound, Ordered, StartedOnce, SkipsExact;
    var n: nat :| Steps(c, Start(c), t, n);
    RunsAreBounded(c, t, n);
    ReachableOrderly(c, t);
    OrderlyParts(c, t);
    ReusedDone(c, t);
    var i :| 0 <= i < |t.results| && t.results[i] == r;
    PlainValid(c);
    NothingIsOdd(c, t, r.job);
  }

  lemma NothingIsOdd(c: Config, t: State, j: Id)
    requires ValidConfig(c) && Reachable(c, t)
    ensures !StatusOf(t, j).Cancelled?
  {
    if j in t.statuses { NothingIsCancelled(c, t, j); }
  }

  /** In every state, failures included: the counted results are the succeeded jobs. */
  lemma CountsTheSucceeded(c: Config, t: State)
    requires Plain(c) && Reachable(c, t)
    ensures CountSucceeded(t.results) == |set j | j in t.statuses && t.statuses[j].Succeeded?|
  {
    hide Plain, ValidConfig, Start, Tallied, Orderly, Won, CountSucceeded, Steps, StatusOf;
    var n: nat :| Steps(c, Start(c), t, n);
    RunsAreBounded(c, t, n);
    ReachableOrderly(c, t);
    OrderlyParts(c, t);
    CountTallied(c, t);
    WonSet(t);
  }

  lemma WonSet(t: State)
    requires forall j :: j in Won(t.results) <==> StatusOf(t, j).Succeeded?
    ensures Won(t.results) == set j | j in t.statuses && t.statuses[j].Succeeded?
  {
    hide Won;
  }

  /** A run that ends in success has a result for every job, and what did not succeed was
      skipped: succeeded and skipped jobs add up to the total.  Without guards nothing is
      skipped, every job has one result, and `succeeded == total`. */
  lemma RetrySucceedsCompletely(c: Config, t: State)
    requires Plain(c) && c.pre.Keys <= c.wf.jobs.Keys && Ended(c, t) && t.success
    ensures Tallied(c, t) && forall j :: j in c.wf.jobs <==> HasResult(t, j)
    ensures CountSucceeded(t.results) + |SkippedIn(t)| == |c.dag.topoOrder|
    ensures Unguarded(c) ==> SkippedIn(t) == {} && NoDup(ResultIds(t.results))
  {
    hide Orderly, Plain, Start, ValidConfig, Tallied, Unguarded, EndedIn, Steps;
    PlainValid(c);
    var k: nat :| Steps(c, Start(c), t, k);
    RunsAreBounded(c, t, k);
    ReachableOrderly(c, t);
    NoJobIsStuck(c, t);
    OrderlyParts(c, t);
    ResultsComplete(c, t);
    if Unguarded(c) {
      forall j | j in c.wf.jobs ensures !StatusOf(t, j).Skipped? { NothingSkipped(c, t, j); }
      NothingRepeated(c, t);
    }
  }

  lemma NothingRepeated(c: Config, t: State)
    requires Tallied(c, t) && Scoped(c, t) && forall j :: j in c.wf.jobs ==> !StatusOf(t, j).Skipped?
    ensures SkippedIn(t) == {} && NoDup(ResultIds(t.results))
  {
    assert forall j :: !StatusOf(t, j).Skipped?;
  }

  lemma ResultsComplete(c: Config, t: State)
    requires ValidConfig(c) && Tallied(c, t) && Scoped(c, t) && Clean(t) && c.pre.Keys <= c.wf.jobs.Keys
    requires forall j :: j in c.wf.jobs ==> StatusOf(t, j).Succeeded? || StatusOf(t, j).Skipped?
    ensures forall j :: j in c.wf.jobs <==> HasResult(t, j)
    ensures CountSucceeded(t.results) + |SkippedIn(t)| == |c.dag.topoOrder|
  {
    OrderCoversJobs(c);
    OnePerJob(c);
    hide ValidConfig, Tallied, Won, Scoped, Clean, HasResult, NoDup, SkippedIn, StatusOf;
    EveryJobEnded(c, t);
    CountTallied(c, t);
    forall j ensures j in SkippedIn(t) <==> StatusOf(t, j).Skipped? { InSkipped(t, j); }
    OnlyJobsSkip(c, t);
    TwoParts(Won(t.results), SkippedIn(t), c.wf.jobs.Keys);
  }

  lemma OnlyJobsSkip(c: Config, t: State)
    requires Scoped(c, t) && c.pre.Keys <= c.wf.jobs.Keys
    ensures forall j :: StatusOf(t, j).Skipped? || StatusOf(t, j).Succeeded? ==> j in c.wf.jobs
  {
  }

  lemma TwoParts(a: set<Id>, b: set<Id>, whole: set<Id>)
    requires (forall j :: j in whole <==> j in a || j in b) && a !! b
    ensures |a| + |b| == |whole|
  {
    assert a + b == whole;
  }

  lemma CountTallied(c: Config, t: State)
    requires Tallied(c, t) && Scoped(c, t) && Clean(t)
    ensures CountSucceeded(t.results) == |Won(t.results)|
    ensures forall j :: j in Won(t.results) <==> StatusOf(t, j).Succeeded?
  {
    CountIsWon(t.results);
    hide Won;
    forall j ensures j in Won(t.results) <==> StatusOf(t, j).Succeeded? { WonAreSucceeded(c, t, j); }
  }

  lemma EveryJobEnded(c: Config, t: State)
    requires Tallied(c, t) && Scoped(c, t) && c.pre.Keys <= c.wf.jobs.Keys
    requires forall j :: j in c.wf.jobs ==> StatusOf(t, j).Succeeded? || StatusOf(t, j).Skipped?
    ensures forall j :: j in c.wf.jobs <==> HasResult(t, j)
    ensures forall j :: j in c.wf.jobs <==> j in t.statuses && (t.statuses[j].Succeeded? || t.statuses[j].Skipped?)
  {
    hide HasResult;
    forall j ensures j in c.wf.jobs <==> IsTerminal(StatusOf(t, j)) { }
  }

  lemma OrderCoversJobs(c: Config)
    requires ValidConfig(c)
    ensures NoDup(c.dag.topoOrder) && Elems(c.dag.topoOrder) == c.wf.jobs.Keys
  {
  }

  lemma OnePerJob(c: Config)
    requires NoDup(c.dag.topoOrder) && Elems(c.dag.topoOrder) == c.wf.jobs.Keys
    ensures |c.dag.topoOrder| == |c.wf.jobs.Keys|
  {
    NoDupCard(c.dag.topoOrder);
  }
}
