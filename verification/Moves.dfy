/** An event of a run taken apart: the arrival, then launches and skips one at a time. */
module Moves {
  import opened Graph
  import opened States
  import opened Scheduler
  import opened Settling

  /** A job looked at because it is on the waiter list, or because a cascade came by. */
  datatype Look = Listed(job: Id) | Swept(job: Id)

  /** What the code does with a job whose dependencies are all done. */
  function Move(c: Config, s: State, j: Id): State {
    if ShouldSkip(c, s, j) then Skip(s, j) else Launch(s, j, LaunchInput(c, s.outputs, j))
  }

  function Play(c: Config, s: State, ms: seq<Look>): State {
    if ms == [] then s else Move(c, Play(c, s, ms[..|ms| - 1]), ms[|ms| - 1].job)
  }

  ghost predicate Actionable(c: Config, s: State, j: Id) {
    j in c.wf.jobs && j !in c.pre && AllDone(c, s, j)
  }

  ghost predicate LookedAt(ms: seq<Look>, q: Id) {
    exists m :: m in ms && m.job == q
  }

  /** A cascade reaches only pending jobs, and from a job skipped by this same event. */
  ghost predicate Admissible(c: Config, t: State, ms: seq<Look>, m: Look) {
    && Actionable(c, t, m.job)
    && (m.Swept? ==> StatusOf(t, m.job).Pending?
                     && exists q :: LookedAt(ms, q) && q in DepsAt(c, m.job) && StatusOf(t, q).Skipped?)
  }

  ghost predicate Trace(c: Config, s: State, ms: seq<Look>) {
    ms == [] || (Trace(c, s, ms[..|ms| - 1]) && Admissible(c, Play(c, s, ms[..|ms| - 1]), ms[..|ms| - 1], ms[|ms| - 1]))
  }

  ghost predicate NoFailure(s: State) {
    forall j :: j in s.statuses ==> !s.statuses[j].Failed?
  }

  /** Longer by looks of a cascade, which leave every job alone that is not pending. */
  ghost predicate SweptOn(c: Config, s: State, ms: seq<Look>, ms': seq<Look>) {
    && Trace(c, s, ms')
    && (forall q :: LookedAt(ms, q) ==> LookedAt(ms', q))
    && (forall j :: multiset(ms')[Listed(j)] == multiset(ms)[Listed(j)])
    && (forall x :: !StatusOf(Play(c, s, ms), x).Pending? ==>
              StatusOf(Play(c, s, ms'), x) == StatusOf(Play(c, s, ms), x))
  }

  ghost predicate AllSkipped(c: Config, s: State, ms: seq<Look>, queue: seq<Id>) {
    forall q :: q in queue ==> LookedAt(ms, q) && StatusOf(Play(c, s, ms), q).Skipped?
  }

  lemma MoveStatus(c: Config, s: State, j: Id)
    ensures var t := Move(c, s, j);
            && (forall x :: x != j ==> StatusOf(t, x) == StatusOf(s, x))
            && StatusOf(t, j) == (if ShouldSkip(c, s, j) then Skipped else Running)
            && t.success == s.success && t.halted == s.halted && t.outputs == s.outputs
  {
    hide Serialize, ShouldSkip, LaunchInput;
  }

  lemma OneMore(c: Config, s: State, ms: seq<Look>, m: Look)
    requires Trace(c, s, ms) && Admissible(c, Play(c, s, ms), ms, m)
    ensures Trace(c, s, ms + [m]) && Play(c, s, ms + [m]) == Move(c, Play(c, s, ms), m.job)
    ensures LookedAt(ms + [m], m.job) && forall q :: LookedAt(ms, q) ==> LookedAt(ms + [m], q)
  {
    hide Admissible, Move;
    assert (ms + [m])[..|ms|] == ms;
    assert m in ms + [m];
    forall q | LookedAt(ms, q) ensures LookedAt(ms + [m], q) {
      var k :| k in ms && k.job == q;
      assert k in ms + [m];
    }
  }

  lemma SweepOne(c: Config, s: State, ms: seq<Look>, ms': seq<Look>, j: Id)
    requires SweptOn(c, s, ms, ms') && Admissible(c, Play(c, s, ms'), ms', Swept(j))
    ensures SweptOn(c, s, ms, ms' + [Swept(j)])
  {
    hide Trace, Move, Actionable;
    OneMore(c, s, ms', Swept(j));
    MoveStatus(c, Play(c, s, ms'), j);
    hide Admissible, Play;
    assert StatusOf(Play(c, s, ms'), j).Pending? by { AdmissiblePending(c, Play(c, s, ms'), ms', j); }
  }

  lemma AdmissiblePending(c: Config, t: State, ms: seq<Look>, j: Id)
    requires Admissible(c, t, ms, Swept(j))
    ensures StatusOf(t, j).Pending?
  {
  }

  lemma SweptOnTwice(c: Config, s: State, ms: seq<Look>, ms': seq<Look>, ms'': seq<Look>)
    requires SweptOn(c, s, ms, ms') && SweptOn(c, s, ms', ms'')
    ensures SweptOn(c, s, ms, ms'')
  {
    hide Trace, Play, StatusOf, LookedAt;
  }

  /** In a cascade a guard that holds launches and everything else skips: that is the
      general rule, for a job with a skipped dependency. */
  lemma CascadeRule(c: Config, t: State, q: Id, j: Id)
    requires q in DepsAt(c, j) && StatusOf(t, q).Skipped?
    ensures ShouldSkip(c, t, j) <==> !GuardHolds(c, t, j)
  {
  }

  /** A pending dependent of a skipped job is launched or skipped by the cascade. */
  lemma SweepNext(c: Config, s: State, ms: seq<Look>, ms': seq<Look>, q: Id, j: Id)
    requires SweptOn(c, s, ms, ms') && LookedAt(ms, q) && StatusOf(Play(c, s, ms), q).Skipped?
    requires q in DepsAt(c, j) && Actionable(c, Play(c, s, ms'), j) && StatusOf(Play(c, s, ms'), j).Pending?
    ensures var u := Play(c, s, ms'); var ms'' := ms' + [Swept(j)];
            && SweptOn(c, s, ms, ms'') && SweptOn(c, s, ms', ms'') && LookedAt(ms'', j)
            && Play(c, s, ms'') ==
                     if GuardHolds(c, u, j) then Launch(u, j, LaunchInput(c, u.outputs, j)) else Skip(u, j)
  {
    SweptTrace(c, s, ms, ms');
    SweptNothing(c, s, ms');
    var u := Play(c, s, ms');
    assert LookedAt(ms', q) && StatusOf(u, q).Skipped?;
    hide Trace, Play, GuardHolds, LaunchInput, AllDone, LookedAt, SweptOn, StatusOf, Launch, Skip;
    CascadeRule(c, u, q, j);
    SweepOne(c, s, ms, ms', j);
    SweepOne(c, s, ms', ms', j);
    OneMore(c, s, ms', Swept(j));
  }

  lemma AllSkippedAppend(c: Config, s: State, ms: seq<Look>, queue: seq<Id>, j: Id)
    requires AllSkipped(c, s, ms, queue) && LookedAt(ms, j) && StatusOf(Play(c, s, ms), j).Skipped?
    ensures AllSkipped(c, s, ms, queue + [j])
  {
    hide LookedAt, StatusOf, Play;
  }

  lemma {:induction false} CascadeIntoTrace(c: Config, s: State, ms: seq<Look>, q: Id, ds: seq<Id>)
    returns (ms': seq<Look>)
    requires Trace(c, s, ms) && LookedAt(ms, q) && StatusOf(Play(c, s, ms), q).Skipped?
    requires forall j :: j in ds ==> j in c.wf.jobs && q in DepsAt(c, j)
    ensures var (u, skipped) := CascadeInto(c, Play(c, s, ms), ds);
            SweptOn(c, s, ms, ms') && Play(c, s, ms') == u && AllSkipped(c, s, ms', skipped)
  {
    hide Trace, Play, GuardHolds, LaunchInput, AllDone, LookedAt, SweptOn, Launch, Skip, AllSkipped;
    if ds == [] {
      SweptNothing(c, s, ms);
      NoneSkipped(c, s, ms);
      ms' := ms;
    } else {
      var front, j := ds[..|ds| - 1], ds[|ds| - 1];
      assert ds == front + [j];
      ms' := CascadeIntoTrace(c, s, ms, q, front);
      var (u, skipped) := CascadeInto(c, Play(c, s, ms), front);
      if j !in c.pre && j in u.statuses && u.statuses[j].Pending? && AllDone(c, u, j) {
        SweepNext(c, s, ms, ms', q, j);
        AllSkippedOn(c, s, ms', ms' + [Swept(j)], skipped);
        ms' := ms' + [Swept(j)];
        if !GuardHolds(c, u, j) {
          SkippedNow(u, j);
          AllSkippedAppend(c, s, ms', skipped, j);
        }
      }
    }
  }

  lemma NoneSkipped(c: Config, s: State, ms: seq<Look>)
    ensures AllSkipped(c, s, ms, [])
  {
  }

  lemma SkippedNow(u: State, j: Id)
    ensures StatusOf(Skip(u, j), j).Skipped?
  {
    hide Serialize;
  }

  lemma AllSkippedOn(c: Config, s: State, ms: seq<Look>, ms': seq<Look>, queue: seq<Id>)
    requires AllSkipped(c, s, ms, queue) && SweptOn(c, s, ms, ms')
    ensures AllSkipped(c, s, ms', queue)
  {
    hide Trace, Play, LookedAt;
  }

  lemma {:induction false} CascadeTrace(c: Config, s: State, ms: seq<Look>, queue: seq<Id>) returns (ms': seq<Look>)
    requires ValidConfig(c) && Trace(c, s, ms) && AllSkipped(c, s, ms, queue)
    ensures SweptOn(c, s, ms, ms') && Play(c, s, ms') == Cascade(c, Play(c, s, ms), queue)
    decreases |PendingIn(Play(c, s, ms))| + |queue|
  {
    hide ValidConfig, Trace, Play, SweptOn, CascadeInto, StatusOf, LookedAt;
    if queue == [] {
      SweptNothing(c, s, ms);
      ms' := ms;
    } else {
      var q, ds, t := queue[0], DependentsOf(c, queue[0]), Play(c, s, ms);
      forall j | j in ds ensures j in c.wf.jobs && q in DepsAt(c, j) { DependentsExact(c, q, j); }
      ms' := CascadeIntoTrace(c, s, ms, q, ds);
      var (u, skipped) := CascadeInto(c, t, ds);
      assert AllSkipped(c, s, ms, queue[1..]);
      AllSkippedOn(c, s, ms, ms', queue[1..]);
      SweptTrace(c, s, ms, ms');
      assert AllSkipped(c, s, ms', queue[1..] + skipped);
      var ms'' := CascadeTrace(c, s, ms', queue[1..] + skipped);
      SweptOnTwice(c, s, ms, ms', ms'');
      ms' := ms'';
    }
  }

  lemma SweptTrace(c: Config, s: State, ms: seq<Look>, ms': seq<Look>)
    requires SweptOn(c, s, ms, ms')
    ensures Trace(c, s, ms')
  {
  }

  lemma SweptNothing(c: Config, s: State, ms: seq<Look>)
    requires Trace(c, s, ms)
    ensures SweptOn(c, s, ms, ms)
  {
  }

  lemma {:induction false} PlayNoFailure(c: Config, s: State, ms: seq<Look>)
    requires NoFailure(s)
    ensures NoFailure(Play(c, s, ms))
  {
    hide Move, NoFailure;
    if ms != [] {
      PlayNoFailure(c, s, ms[..|ms| - 1]);
      MoveNoFailure(c, Play(c, s, ms[..|ms| - 1]), ms[|ms| - 1].job);
    }
  }

  lemma MoveNoFailure(c: Config, s: State, j: Id)
    requires NoFailure(s)
    ensures NoFailure(Move(c, s, j))
  {
    hide Serialize, ShouldSkip, LaunchInput;
  }

  lemma ReleaseIsMove(c: Config, t: State, j: Id)
    requires NoFailure(t) && Actionable(c, t, j)
    ensures Release(c, t, j) == if ShouldSkip(c, t, j) then Cascade(c, Move(c, t, j), [j]) else Move(c, t, j)
  {
    hide AllDone, ShouldSkip, Cascade, LaunchInput, Skip, Launch;
    if j in c.wf.jobs && c.wf.jobs[j].inputFrom.Some? && c.wf.jobs[j].inputFrom.value in c.children {
      forall x ensures !StatusOf(t, x).Failed? { }
    }
  }

  lemma ReleaseTrace(c: Config, s: State, ms: seq<Look>, j: Id) returns (ms': seq<Look>)
    requires ValidConfig(c) && NoFailure(s) && Trace(c, s, ms) && j in c.wf.jobs
    ensures Trace(c, s, ms') && Play(c, s, ms') == Release(c, Play(c, s, ms), j)
    ensures forall x :: multiset(ms')[Listed(x)] <= multiset(ms)[Listed(x)] + if x == j then 1 else 0
  {
    hide ValidConfig, Trace, Play, Move, Cascade, AllDone, ShouldSkip, LookedAt;
    var t := Play(c, s, ms);
    ms' := ms;
    if j !in c.pre && AllDone(c, t, j) {
      PlayNoFailure(c, s, ms);
      ReleaseIsMove(c, t, j);
      assert Admissible(c, t, ms, Listed(j));
      OneMore(c, s, ms, Listed(j));
      MoveStatus(c, t, j);
      ms' := ms + [Listed(j)];
      if ShouldSkip(c, t, j) { ms' := CascadeTrace(c, s, ms', [j]); }
    }
  }

  /** Releasing the dependents of a job that has succeeded: a series of single moves, each
      on a job that is ready, each entry of the list looked at once at most. */
  lemma {:induction false} ReleaseAllTrace(c: Config, s: State, ds: seq<Id>) returns (ms: seq<Look>)
    requires ValidConfig(c) && NoFailure(s) && forall j :: j in ds ==> j in c.wf.jobs
    ensures Trace(c, s, ms) && Play(c, s, ms) == ReleaseAll(c, s, ds)
    ensures forall x :: multiset(ms)[Listed(x)] <= multiset(ds)[x]
  {
    hide ValidConfig, NoFailure, Release;
    ms := [];
    if ds != [] {
      var front, j := ds[..|ds| - 1], ds[|ds| - 1];
      assert ds == front + [j];
      hide Trace, Play;
      ms := ReleaseAllTrace(c, s, front);
      ms := ReleaseTrace(c, s, ms, j);
    }
  }

  // -- Waiting ---------------------------------------------------------------

  /** The graph of what a run still has to do: a reused job waits for nothing. */
  ghost function LiveDeps(c: Config): Deps {
    map j | j in c.dag.deps :: if j in c.pre then [] else c.dag.deps[j]
  }

  /** d is upstream of x, not counting what lies behind reused jobs. */
  ghost predicate WaitsFor(c: Config, x: Id, d: Id) {
    Reaches(LiveDeps(c), x, d)
  }

  lemma WaitsDirectly(c: Config, x: Id, d: Id)
    requires x !in c.pre && d in DepsAt(c, x)
    ensures WaitsFor(c, x, d)
  {
    assert Edge(LiveDeps(c), x, d);
    EdgeReaches(LiveDeps(c), x, d);
  }

  lemma WaitsThrough(c: Config, x: Id, q: Id, d: Id)
    requires x !in c.pre && q in DepsAt(c, x) && WaitsFor(c, q, d)
    ensures WaitsFor(c, x, d)
  {
    WaitsDirectly(c, x, q);
    ReachesTransitive(LiveDeps(c), x, q, d);
  }

  lemma WaitsTransitive(c: Config, x: Id, q: Id, d: Id)
    requires WaitsFor(c, x, q) && WaitsFor(c, q, d)
    ensures WaitsFor(c, x, d)
  {
    ReachesTransitive(LiveDeps(c), x, q, d);
  }

  lemma WaitsFirst(c: Config, x: Id, d: Id) returns (m: Id)
    requires WaitsFor(c, x, d)
    ensures x in c.dag.deps && x !in c.pre && m in DepsAt(c, x) && (m == d || WaitsFor(c, m, d))
  {
    m := FirstStep(LiveDeps(c), x, d);
  }

  lemma {:induction false} LiveWalk(c: Config, x: Id, d: Id, n: nat)
    requires Walk(LiveDeps(c), x, d, n)
    ensures Walk(c.dag.deps, x, d, n)
    decreases n
  {
    if n > 0 {
      var m :| Edge(LiveDeps(c), x, m) && Walk(LiveDeps(c), m, d, n - 1);
      LiveWalk(c, m, d, n - 1);
      assert Edge(c.dag.deps, x, m);
    }
  }

  /** What is waited for comes earlier in the order; so nothing waits for itself. */
  lemma WaitsEarlier(c: Config, x: Id, d: Id)
    requires ValidConfig(c) && WaitsFor(c, x, d)
    ensures x in c.wf.jobs && d in c.wf.jobs && x != d
    ensures Position(c.dag.topoOrder, Named(c, d)) < Position(c.dag.topoOrder, Named(c, x))
  {
    var n: nat :| n > 0 && Walk(LiveDeps(c), x, d, n);
    LiveWalk(c, x, d, n);
    WalkDescends(c.dag.deps, c.dag.topoOrder, x, d, n);
  }

  /** In a run that reuses nothing, waiting is reachability in the graph. */
  lemma FreshLiveDeps(c: Config)
    requires c.pre == map[]
    ensures LiveDeps(c) == c.dag.deps
  {
  }

  // -- What every trace keeps ------------------------------------------------

  /** The trace begins at waiters of d. */
  ghost predicate ListedWait(c: Config, d: Id, ms: seq<Look>) {
    forall m :: m in ms && m.Listed? ==> d in DepsAt(c, m.job)
  }

  lemma LookedWaits(c: Config, d: Id, t: State, ms: seq<Look>, m: Look)
    requires Admissible(c, t, ms, m) && (m.Listed? ==> d in DepsAt(c, m.job))
    requires forall q :: LookedAt(ms, q) ==> WaitsFor(c, q, d)
    ensures WaitsFor(c, m.job, d)
  {
    if m.Listed? {
      WaitsDirectly(c, m.job, d);
    } else {
      var q :| LookedAt(ms, q) && q in DepsAt(c, m.job);
      WaitsThrough(c, m.job, q, d);
    }
  }

  lemma LookedAppend(ms: seq<Look>, m: Look, q: Id)
    ensures LookedAt(ms + [m], q) <==> LookedAt(ms, q) || q == m.job
  {
    assert m in ms + [m];
    if LookedAt(ms, q) {
      var k :| k in ms && k.job == q;
      assert k in ms + [m];
    }
  }

  /** Only jobs that wait for d are looked at, and only those looked at can change. */
  lemma {:induction false} TraceWaits(c: Config, s: State, d: Id, ms: seq<Look>)
    requires Trace(c, s, ms) && ListedWait(c, d, ms)
    ensures forall q :: LookedAt(ms, q) ==> WaitsFor(c, q, d)
    ensures forall x :: StatusOf(Play(c, s, ms), x) == StatusOf(s, x) || LookedAt(ms, x)
    ensures Play(c, s, ms).success == s.success && Play(c, s, ms).halted == s.halted
  {
    hide WaitsFor, Admissible, Move, StatusOf;
    if ms != [] {
      var front, m := ms[..|ms| - 1], ms[|ms| - 1];
      assert ms == front + [m] && m in ms;
      assert forall k :: k in front ==> k in ms;
      TraceWaits(c, s, d, front);
      LookedWaits(c, d, Play(c, s, front), front, m);
      MoveStatus(c, Play(c, s, front), m.job);
      forall q ensures LookedAt(ms, q) <==> LookedAt(front, q) || q == m.job { LookedAppend(front, m, q); }
    }
  }
}
