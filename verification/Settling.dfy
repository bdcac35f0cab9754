/** Invariants of every run, whatever the guards and however often a dependency is
    listed: the store mirrors memory, and no pending job is forgotten. */
module Settling {
  import opened Collections
  import opened Graph
  import opened Workflows
  import opened Dags
  import opened States
  import opened Scheduler

  /** The stored rows, decoded, are the statuses of the non-pending jobs. */
  ghost predicate StoreMirrors(s: State) {
    && (forall j :: j in s.rows <==> j in s.statuses && !s.statuses[j].Pending?)
    && (forall j :: j in s.rows ==> s.rows[j] == Serialize(s.statuses[j]))
  }

  /** Exactly the jobs of the workflow and the reused jobs have a status. */
  ghost predicate Scoped(c: Config, s: State) {
    && (forall j :: j in s.statuses <==> j in c.wf.jobs || j in c.pre)
    && (forall j :: j in c.pre ==> j in s.statuses && s.statuses[j] == Succeeded(c.pre[j]))
  }

  /** `in_flight` counts the outstanding events, and a running job has one. */
  ghost predicate Counted(c: Config, s: State) {
    && |s.flights| == s.inFlight
    && (forall f :: f in s.flights ==> f.job in c.wf.jobs && f.job !in c.pre)
    && (forall j :: j in s.statuses && s.statuses[j].Running? ==> exists input :: Flight(j, input) in s.flights)
  }

  /** Nothing is ever ready or cancelled; a failure is never forgotten. */
  ghost predicate Clean(s: State) {
    && (forall j :: j in s.statuses ==> !s.statuses[j].Ready? && !s.statuses[j].Cancelled?)
    && (s.success ==> forall j :: j in s.statuses ==> !s.statuses[j].Failed?)
    && (s.halted ==> !s.success)
  }

  ghost predicate Sound(c: Config, s: State) {
    StoreMirrors(s) && Scoped(c, s) && Counted(c, s) && Clean(s)
  }

  /** Every pending job, those still to be looked at aside, waits for something. */
  ghost predicate Settled(c: Config, s: State, todo: set<Id>) {
    forall j :: j in c.wf.jobs && j !in todo && StatusOf(s, j).Pending? ==>
      exists d :: d in DepsAt(c, j) && !IsDone(StatusOf(s, d))
  }

  /** The jobs waiting for some job of the queue. */
  ghost function Woken(c: Config, queue: seq<Id>): set<Id> {
    set q, j | q in queue && j in DependentsOf(c, q) :: j
  }

  lemma DependentsExact(c: Config, d: Id, j: Id)
    requires ValidConfig(c)
    ensures j in DependentsOf(c, d) <==> d in DepsAt(c, j)
    ensures j in DependentsOf(c, d) ==> j in c.wf.jobs
    ensures d in DepsAt(c, j) ==> d in c.wf.jobs
  {
    var dag := c.dag;
    TopoOrderMeansAcyclic(dag.deps, dag.topoOrder);
    if d in DepsAt(c, j) { assert Edge(dag.deps, j, d); }
    if d in dag.deps {
      assert multiset(dag.dependents[d])[j] == Occurrences(dag.deps, j, d);
      assert j in dag.dependents[d] <==> multiset(dag.dependents[d])[j] > 0;
      assert j in dag.deps ==> (d in dag.deps[j] <==> multiset(dag.deps[j])[d] > 0);
    }
  }

  lemma NotOwnDependency(c: Config, j: Id)
    requires ValidConfig(c)
    ensures j !in DepsAt(c, j)
  {
    TopoOrderMeansAcyclic(c.dag.deps, c.dag.topoOrder);
    if j in DepsAt(c, j) { EdgeReaches(c.dag.deps, j, j); }
  }

  // -- Elementary updates ----------------------------------------------------

  lemma RecordMirrors(s: State, t: State, j: Id, st: Status)
    requires StoreMirrors(s) && !st.Pending?
    requires t.statuses == s.statuses[j := st] && t.rows == s.rows[j := Serialize(st)]
    ensures StoreMirrors(t)
  {
    hide Serialize;
  }

  lemma LaunchCounted(c: Config, s: State, j: Id, input: Bytes)
    requires Counted(c, s) && j in c.wf.jobs && j !in c.pre
    ensures Counted(c, Launch(s, j, input))
  {
    var t := Launch(s, j, input);
    assert Flight(j, input) in t.flights;
    assert forall k, i :: Flight(k, i) in s.flights ==> Flight(k, i) in t.flights;
  }

  lemma LaunchSound(c: Config, s: State, j: Id, input: Bytes)
    requires Sound(c, s) && j in c.wf.jobs && j !in c.pre
    ensures Sound(c, Launch(s, j, input))
  {
    hide Counted, StoreMirrors, Serialize;
    LaunchCounted(c, s, j, input);
    RecordMirrors(s, Launch(s, j, input), j, Running);
  }

  lemma SkipSound(c: Config, s: State, j: Id)
    requires Sound(c, s) && j in c.wf.jobs && j !in c.pre
    ensures Sound(c, Skip(s, j))
  {
    hide StoreMirrors, Serialize;
    RecordMirrors(s, Skip(s, j), j, Skipped);
  }

  lemma LaunchSettles(c: Config, s: State, todo: set<Id>, j: Id, input: Bytes)
    requires Settled(c, s, todo + {j})
    ensures Settled(c, Launch(s, j, input), todo)
  {
    var t := Launch(s, j, input);
    forall k | k in c.wf.jobs && k !in todo && StatusOf(t, k).Pending?
      ensures exists d :: d in DepsAt(c, k) && !IsDone(StatusOf(t, d))
    {
      var d :| d in DepsAt(c, k) && !IsDone(StatusOf(s, d));
      assert !IsDone(StatusOf(t, d));
    }
  }

  lemma SkipSettles(c: Config, s: State, todo: set<Id>, j: Id)
    requires ValidConfig(c) && Settled(c, s, todo + {j}) && j in c.wf.jobs
    ensures Settled(c, Skip(s, j), todo + Woken(c, [j]))
  {
    var t := Skip(s, j);
    forall k | k in c.wf.jobs && k !in todo + Woken(c, [j]) && StatusOf(t, k).Pending?
      ensures exists d :: d in DepsAt(c, k) && !IsDone(StatusOf(t, d))
    {
      var d :| d in DepsAt(c, k) && !IsDone(StatusOf(s, d));
      DependentsExact(c, j, k);
      assert j in [j];
      assert !IsDone(StatusOf(t, d));
    }
  }

  lemma NothingToDo(c: Config, s: State, todo: set<Id>, j: Id)
    requires Sound(c, s) && Settled(c, s, todo + {j}) && j in c.wf.jobs
    requires j in c.pre || !(j in s.statuses && s.statuses[j].Pending?) || !AllDone(c, s, j)
    ensures Settled(c, s, todo)
  {
  }

  // -- Cascades and releases -------------------------------------------------

  lemma {:induction false} CascadeIntoSettles(c: Config, s: State, ds: seq<Id>, todo: set<Id>)
    requires ValidConfig(c) && Sound(c, s) && Settled(c, s, todo + Elems(ds))
    requires forall j :: j in ds ==> j in c.wf.jobs
    ensures var (t, skipped) := CascadeInto(c, s, ds);
            && Sound(c, t) && Settled(c, t, todo + Woken(c, skipped))
            && t.success == s.success && t.halted == s.halted
  {
    hide Sound, Settled, ValidConfig;
    if ds == [] {
      assert todo + Elems(ds) == todo + Woken(c, []);
    } else {
      var front, j := ds[..|ds| - 1], ds[|ds| - 1];
      assert ds == front + [j];
      assert todo + Elems(ds) == (todo + {j}) + Elems(front);
      CascadeIntoSettles(c, s, front, todo + {j});
      var (t, skipped) := CascadeInto(c, s, front);
      var rest := todo + Woken(c, skipped);
      assert (todo + {j}) + Woken(c, skipped) == rest + {j};
      if j in c.pre || !(j in t.statuses && t.statuses[j].Pending?) || !AllDone(c, t, j) {
        NothingToDo(c, t, rest, j);
      } else if GuardHolds(c, t, j) {
        LaunchSound(c, t, j, LaunchInput(c, t.outputs, j));
        LaunchSettles(c, t, rest, j, LaunchInput(c, t.outputs, j));
      } else {
        SkipSound(c, t, j);
        SkipSettles(c, t, rest, j);
        assert rest + Woken(c, [j]) == todo + Woken(c, skipped + [j]);
      }
    }
  }

  lemma {:induction false} CascadeSettles(c: Config, s: State, queue: seq<Id>, todo: set<Id>)
    requires ValidConfig(c) && Sound(c, s) && Settled(c, s, todo + Woken(c, queue))
    ensures var t := Cascade(c, s, queue);
            Sound(c, t) && Settled(c, t, todo) && t.success == s.success && t.halted == s.halted
    decreases |PendingIn(s)| + |queue|
  {
    hide Sound, Settled, ValidConfig;
    if queue == [] {
      assert todo + Woken(c, queue) == todo;
    } else {
      var ds := DependentsOf(c, queue[0]);
      var rest := todo + Woken(c, queue[1..]);
      assert queue == [queue[0]] + queue[1..];
      assert todo + Woken(c, queue) == rest + Elems(ds);
      forall j | j in ds ensures j in c.wf.jobs { DependentsExact(c, queue[0], j); }
      CascadeIntoSettles(c, s, ds, rest);
      var (t, skipped) := CascadeInto(c, s, ds);
      assert rest + Woken(c, skipped) == todo + Woken(c, queue[1..] + skipped);
      CascadeSettles(c, t, queue[1..] + skipped, todo);
    }
  }

  lemma NobodyFailed(c: Config, s: State, j: Id)
    requires Sound(c, s) && s.success
    ensures !ForeachChildFailed(c, s, j)
  {
  }

  /** While no job has failed, the cancel branches of `Release` are dead. */
  lemma ReleaseSettles(c: Config, s: State, j: Id, todo: set<Id>)
    requires ValidConfig(c) && Sound(c, s) && s.success && Settled(c, s, todo + {j}) && j in c.wf.jobs
    ensures var t := Release(c, s, j);
            Sound(c, t) && Settled(c, t, todo) && t.success && t.halted == s.halted
  {
    NobodyFailed(c, s, j);
    hide Sound, Settled, ValidConfig, ForeachChildFailed, AllDone;
    if j in c.pre || !AllDone(c, s, j) {
      NothingToDo(c, s, todo, j);
    } else if ShouldSkip(c, s, j) {
      SkipSound(c, s, j);
      SkipSettles(c, s, todo, j);
      CascadeSettles(c, Skip(s, j), [j], todo);
    } else {
      LaunchSound(c, s, j, LaunchInput(c, s.outputs, j));
      LaunchSettles(c, s, todo, j, LaunchInput(c, s.outputs, j));
    }
  }

  lemma {:induction false} ReleaseAllSettles(c: Config, s: State, ds: seq<Id>, todo: set<Id>)
    requires ValidConfig(c) && Sound(c, s) && s.success && Settled(c, s, todo + Elems(ds))
    requires forall j :: j in ds ==> j in c.wf.jobs
    ensures var t := ReleaseAll(c, s, ds);
            Sound(c, t) && Settled(c, t, todo) && t.success && t.halted == s.halted
  {
    hide Sound, Settled, ValidConfig, Release;
    if ds == [] {
      assert todo + Elems(ds) == todo;
    } else {
      var front, j := ds[..|ds| - 1], ds[|ds| - 1];
      assert ds == front + [j];
      assert todo + Elems(ds) == (todo + {j}) + Elems(front);
      ReleaseAllSettles(c, s, front, todo + {j});
      ReleaseSettles(c, ReleaseAll(c, s, front), j, todo);
    }
  }

  // -- Events ----------------------------------------------------------------

  lemma ArriveCounted(c: Config, s: State, t: State, f: Flight, st: Status)
    requires Counted(c, s) && f in s.flights && s.inFlight > 0 && !st.Running?
    requires t.flights == s.flights - multiset{f} && t.inFlight == s.inFlight - 1
    requires t.statuses == s.statuses[f.job := st]
    ensures Counted(c, t)
  {
    forall k | k in t.statuses && t.statuses[k].Running?
      ensures exists i :: Flight(k, i) in t.flights
    {
      var i :| Flight(k, i) in s.flights;
      assert Flight(k, i) in t.flights;
    }
  }

  lemma FlightJob(c: Config, s: State, f: Flight)
    requires Counted(c, s) && f in s.flights
    ensures f.job in c.wf.jobs && f.job !in c.pre
  {
  }

  lemma SucceedSound(c: Config, s: State, f: Flight, elapsed: nat, bytes: Bytes)
    requires Sound(c, s) && f in s.flights && s.inFlight > 0
    ensures Sound(c, Succeed(s, f, elapsed, bytes))
  {
    hide Counted, StoreMirrors, Serialize;
    FlightJob(c, s, f);
    var t := Succeed(s, f, elapsed, bytes);
    ArriveCounted(c, s, t, f, Succeeded(elapsed));
    RecordMirrors(s, t, f.job, Succeeded(elapsed));
  }

  lemma FailSound(c: Config, s: State, f: Flight, elapsed: nat, reason: string, halted: bool)
    requires Sound(c, s) && f in s.flights && s.inFlight > 0
    ensures Sound(c, Fail(s, f, elapsed, reason).(halted := halted))
  {
    hide Counted, StoreMirrors, Serialize;
    FlightJob(c, s, f);
    var t := Fail(s, f, elapsed, reason).(halted := halted);
    ArriveCounted(c, s, t, f, Failed(elapsed, reason));
    RecordMirrors(s, t, f.job, Failed(elapsed, reason));
  }

  /** `fail_fast` is looked up on a parent that expansion removed: a failure never
      cancels anything, it only decides whether the loop goes on. */
  lemma FailureNeverCancels(c: Config, s: State, j: Id)
    requires ValidConfig(c)
    ensures AfterFailure(c, s, j) == s.(halted := s.halted || !exists p :: IsParent(c, p, j))
  {
  }

  lemma SucceedWakes(c: Config, s: State, f: Flight, elapsed: nat, bytes: Bytes)
    requires ValidConfig(c) && Settled(c, s, {}) && s.inFlight > 0
    ensures Settled(c, Succeed(s, f, elapsed, bytes), {} + Elems(DependentsOf(c, f.job)))
  {
    hide ValidConfig;
    var t := Succeed(s, f, elapsed, bytes);
    forall k | k in c.wf.jobs && k !in {} + Elems(DependentsOf(c, f.job)) && StatusOf(t, k).Pending?
      ensures exists d :: d in DepsAt(c, k) && !IsDone(StatusOf(t, d))
    {
      var d :| d in DepsAt(c, k) && !IsDone(StatusOf(s, d));
      DependentsExact(c, f.job, k);
      assert !IsDone(StatusOf(t, d));
    }
  }

  lemma DeliverSettles(c: Config, s: State, f: Flight, elapsed: nat)
    requires ValidConfig(c) && Sound(c, s) && f in s.flights && s.inFlight > 0
    requires s.success ==> Settled(c, s, {})
    ensures var t := Deliver(c, s, f, elapsed);
            Sound(c, t) && (t.success ==> Settled(c, t, {}))
  {
    hide ValidConfig, Sound, Settled;
    match c.run(f.job, f.input)
    case Output(bytes) =>
      SucceedSound(c, s, f, elapsed, bytes);
      if s.success {
        SucceedWakes(c, s, f, elapsed, bytes);
        var ds := DependentsOf(c, f.job);
        forall k | k in ds ensures k in c.wf.jobs { DependentsExact(c, f.job, k); }
        ReleaseAllSettles(c, Succeed(s, f, elapsed, bytes), ds, {});
      }
    case Failure(reason) =>
      var t := Fail(s, f, elapsed, reason);
      FailureNeverCancels(c, t, f.job);
      FailSound(c, s, f, elapsed, reason, AfterFailure(c, t, f.job).halted);
  }

  // -- The start of a run ----------------------------------------------------

  lemma {:induction false} SeedFacts(c: Config, ids: seq<Id>)
    requires forall j :: j in ids ==> j in c.pre
    ensures var t := Seed(c, Initial(c), ids);
            && t == Initial(c).(statuses := t.statuses, rows := t.rows, results := t.results)
            && StoreMirrors(t)
            && (forall j :: j in t.statuses <==> j in c.wf.jobs || j in ids)
            && (forall j :: j in t.statuses ==>
                  t.statuses[j] == if j in ids then Succeeded(c.pre[j]) else Pending)
  {
    if ids != [] {
      var front, j := ids[..|ids| - 1], ids[|ids| - 1];
      assert ids == front + [j];
      SeedFacts(c, front);
      var s, t := Seed(c, Initial(c), front), Seed(c, Initial(c), ids);
      RecordMirrors(s, t, j, Succeeded(c.pre[j]));
      hide StoreMirrors, Serialize;
    }
  }

  lemma LaunchStatus(s: State, j: Id, input: Bytes)
    ensures var t := Launch(s, j, input);
            && t.success == s.success && t.halted == s.halted && t.outputs == s.outputs
            && forall k :: StatusOf(t, k) == if k == j then Running else StatusOf(s, k)
  {
    hide Serialize;
  }

  /** The two loops that launch before the first event differ only in their filter. */
  lemma {:induction false} LaunchRootsFacts(c: Config, s: State, ids: seq<Id>)
    requires Sound(c, s) && forall j :: j in ids ==> j in c.wf.jobs
    ensures var t := LaunchRoots(c, s, ids);
            && Sound(c, t) && t.success == s.success && t.halted == s.halted && t.outputs == s.outputs
            && forall j :: StatusOf(t, j) == if j in ids && j !in c.pre then Running else StatusOf(s, j)
  {
    hide Sound, Launch, StatusOf, LaunchInput, OwnInput, AllReused, IsRoot;
    if ids != [] {
      var front, j := ids[..|ids| - 1], ids[|ids| - 1];
      assert ids == front + [j];
      LaunchRootsFacts(c, s, front);
      var t := LaunchRoots(c, s, front);
      if j !in c.pre {
        LaunchSound(c, t, j, OwnInput(c, j));
        LaunchStatus(t, j, OwnInput(c, j));
      }
    }
  }

  lemma {:induction false} LaunchReadyFacts(c: Config, s: State, ids: seq<Id>)
    requires Sound(c, s) && forall j :: j in ids ==> j in c.wf.jobs
    ensures var t := LaunchReady(c, s, ids);
            && Sound(c, t) && t.success == s.success && t.halted == s.halted && t.outputs == s.outputs
            && forall j :: StatusOf(t, j) ==
                 if j in ids && j !in c.pre && !IsRoot(c, j) && AllReused(c, j) then Running else StatusOf(s, j)
  {
    hide Sound, Launch, StatusOf, LaunchInput, OwnInput, AllReused, IsRoot;
    if ids != [] {
      var front, j := ids[..|ids| - 1], ids[|ids| - 1];
      assert ids == front + [j];
      LaunchReadyFacts(c, s, front);
      var t := LaunchReady(c, s, front);
      if j !in c.pre {
        LaunchSound(c, t, j, LaunchInput(c, t.outputs, j));
        LaunchStatus(t, j, LaunchInput(c, t.outputs, j));
      }
    }
  }

  lemma OrdersExact(c: Config)
    requires ValidConfig(c)
    ensures forall j :: j in c.preOrder <==> j in c.pre
    ensures forall j :: j in c.rootOrder <==> IsRoot(c, j)
    ensures forall j :: j in c.wf.order <==> j in c.wf.jobs
    ensures forall j :: IsRoot(c, j) ==> j in c.wf.jobs
  {
    assert forall j :: j in c.preOrder <==> j in Elems(c.preOrder);
    assert forall j :: j in c.rootOrder <==> j in Elems(c.rootOrder);
    assert forall j :: j in c.wf.order <==> j in Elems(c.wf.order);
  }

  lemma SeedSound(c: Config)
    requires ValidConfig(c)
    ensures Sound(c, Seed(c, Initial(c), c.preOrder))
  {
    hide ValidConfig, Seed, StoreMirrors;
    OrdersExact(c);
    SeedFacts(c, c.preOrder);
    var s := Seed(c, Initial(c), c.preOrder);
    assert s.flights == multiset{} && s.inFlight == 0;
  }

  function StartStatus(c: Config, j: Id): Status {
    if j in c.pre then Succeeded(c.pre[j]) else if AllReused(c, j) then Running else Pending
  }

  /** Before the first event a job is running exactly if everything it waits for is reused. */
  lemma StartStatuses(c: Config)
    requires ValidConfig(c)
    ensures var s := Start(c);
            && Sound(c, s) && s.success && !s.halted && s.outputs == map[]
            && forall j :: j in c.wf.jobs ==> StatusOf(s, j) == StartStatus(c, j)
  {
    hide ValidConfig, Sound, StoreMirrors, Seed, LaunchRoots, LaunchReady;
    OrdersExact(c);
    SeedFacts(c, c.preOrder);
    SeedSound(c);
    var s0 := Seed(c, Initial(c), c.preOrder);
    var s1 := LaunchRoots(c, s0, c.rootOrder);
    LaunchRootsFacts(c, s0, c.rootOrder);
    LaunchReadyFacts(c, s1, c.wf.order);
    forall j | j in c.wf.jobs
      ensures StatusOf(Start(c), j) == StartStatus(c, j)
    {
      assert StatusOf(s0, j) == if j in c.pre then Succeeded(c.pre[j]) else Pending;
      assert IsRoot(c, j) ==> AllReused(c, j);
    }
  }

  lemma StartSettled(c: Config)
    requires ValidConfig(c)
    ensures Sound(c, Start(c)) && Start(c).success && Settled(c, Start(c), {})
  {
    hide Start, Sound, ValidConfig;
    StartStatuses(c);
    var s := Start(c);
    forall j | j in c.wf.jobs && StatusOf(s, j).Pending?
      ensures exists d :: d in DepsAt(c, j) && !IsDone(StatusOf(s, d))
    {
      var d :| d in DepsAt(c, j) && d !in c.pre;
      DependentsExact(c, d, j);
    }
  }

  // -- Whole runs ------------------------------------------------------------

  lemma {:induction false} StepsSettle(c: Config, s: State, t: State, n: nat)
    requires ValidConfig(c) && Steps(c, s, t, n)
    requires Sound(c, s) && (s.success ==> Settled(c, s, {}))
    ensures Sound(c, t) && (t.success ==> Settled(c, t, {}))
    decreases n
  {
    hide ValidConfig, Sound, Settled, Deliver;
    if n > 0 {
      var m :| Steps(c, s, m, n - 1) && Step(c, m, t);
      StepsSettle(c, s, m, n - 1);
      var f: Flight, elapsed: nat :| f in m.flights && t == Deliver(c, m, f, elapsed);
      DeliverSettles(c, m, f, elapsed);
    }
  }

  lemma ReachableSettled(c: Config, s: State)
    requires ValidConfig(c) && Reachable(c, s)
    ensures Sound(c, s) && (s.success ==> Settled(c, s, {}))
  {
    hide ValidConfig, Sound, Settled;
    var n: nat :| Steps(c, Start(c), s, n);
    StartSettled(c);
    StepsSettle(c, Start(c), s, n);
  }

  /** A pending job points to an unfinished dependency, which must then be running
      or pending itself; following the pointers down the order ends at a running job. */
  lemma {:induction false} PendingLeadsToRunning(c: Config, s: State, j: Id) returns (r: Id)
    requires ValidConfig(c) && Sound(c, s) && s.success && Settled(c, s, {})
    requires j in c.wf.jobs && StatusOf(s, j).Pending?
    ensures r in c.wf.jobs && StatusOf(s, r).Running?
    decreases Position(c.dag.topoOrder, Named(c, j))
  {
    var d :| d in DepsAt(c, j) && !IsDone(StatusOf(s, d));
    assert Edge(c.dag.deps, j, d);
    EdgeDescends(c.dag.deps, c.dag.topoOrder, j, d);
    assert d in Elems(c.dag.topoOrder) && j in Elems(c.dag.topoOrder);
    if StatusOf(s, d).Pending? { r := PendingLeadsToRunning(c, s, d); } else { r := d; }
  }

  ghost function Named(c: Config, j: Id): Id
    requires ValidConfig(c) && j in c.wf.jobs
    ensures Named(c, j) == j && j in c.dag.topoOrder
  {
    assert j in Elems(c.dag.topoOrder);
    j
  }

  lemma DepEarlier(c: Config, x: Id, m: Id)
    requires ValidConfig(c) && x in c.wf.jobs && m in DepsAt(c, x)
    ensures m in c.wf.jobs && Position(c.dag.topoOrder, Named(c, m)) < Position(c.dag.topoOrder, Named(c, x))
  {
    assert Edge(c.dag.deps, x, m);
    EdgeDescends(c.dag.deps, c.dag.topoOrder, x, m);
  }

  /** No job is left stuck: when the loop ends without a failure, every job of the
      workflow has succeeded or was skipped.  This holds for all guards, all
      dependency lists (repetitions included) and all event orders. */
  lemma NoJobIsStuck(c: Config, s: State)
    requires ValidConfig(c) && Ended(c, s) && s.success
    ensures forall j :: j in c.wf.jobs ==> StatusOf(s, j).Succeeded? || StatusOf(s, j).Skipped?
  {
    ReachableSettled(c, s);
    assert s.flights == multiset{};
    forall j | j in c.wf.jobs
      ensures StatusOf(s, j).Succeeded? || StatusOf(s, j).Skipped?
    {
      if StatusOf(s, j).Pending? { var _ := PendingLeadsToRunning(c, s, j); }
    }
  }

  /** `Cancelled` is a status no run ever assigns. */
  lemma NothingIsCancelled(c: Config, s: State, j: Id)
    requires ValidConfig(c) && Reachable(c, s) && j in s.statuses
    ensures !s.statuses[j].Cancelled? && !s.statuses[j].Ready?
  {
    ReachableSettled(c, s);
  }

  /** At every event boundary the store can rebuild memory: reading the rows back gives
      the status of every job that is not pending, with durations cut to whole
      milliseconds and running jobs turned back into pending ones. */
  lemma StoreRefinesMemory(c: Config, s: State)
    requires ValidConfig(c) && Reachable(c, s)
    ensures DecodeAll(s.rows) == map j | j in s.statuses && !s.statuses[j].Pending? :: Persisted(s.statuses[j])
  {
    ReachableSettled(c, s);
    assert StoreMirrors(s);
    hide ValidConfig, Sound, Reachable, Settled;
    MirrorDecodes(s);
  }

  lemma MirrorDecodes(s: State)
    requires StoreMirrors(s)
    ensures DecodeAll(s.rows) == map j | j in s.statuses && !s.statuses[j].Pending? :: Persisted(s.statuses[j])
  {
    hide Serialize, Decode, Persisted;
    forall j | j in s.rows ensures Decode(s.rows[j]) == Persisted(s.statuses[j]) {
      DecodeSerialize(s.statuses[j]);
    }
  }
}
