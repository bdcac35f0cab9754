/** The scheduler as the program runs it: mutable tables, loops and a queue, proved
    to move exactly as the machine of module Scheduler. */
module Execution {
  import opened Collections
  import opened Graph
  import opened Workflows
  import opened Dags
  import opened States
  import opened Whens
  import opened FanIns
  import opened Expansion
  import opened ExpansionGraph
  import opened Scheduler
  import opened Settling
  import opened Moves
  import opened Endings
  import opened Discipline
  import opened Guards
  import opened Refinement
  import opened Retries
  import opened Inputs
  import Stores

  // -- Before the first job --------------------------------------------------

  datatype PrepareError = ExpandFailed(why: ExpandError) | NotSchedulable | NoWorkers(job: Id) | UnknownRun

  /** What is wrong when a workflow is refused; the checks are made in this order. */
  ghost predicate Refused(wf: Workflow, hasWorkers: bool, ex: Extractor, why: PrepareError)
    requires wf.WellFormed()
  {
    if Expand(wf, None, ex).Err? then why == ExpandFailed(Expand(wf, None, ex).error)
    else
      var e := Expand(wf, None, ex).value.workflow;
      if !Known(DepsOf(e.jobs)) || !Acyclic(DepsOf(e.jobs)) then why == NotSchedulable
      else why.NoWorkers? && !hasWorkers && FirstUnserved(e, why.job)
  }

  /** j is the first job in the order that is to run on a worker and names none. */
  ghost predicate FirstUnserved(wf: Workflow, j: Id) {
    exists m: nat :: m < |wf.order| && wf.order[m] == j && j in wf.jobs
      && wf.jobs[j].executor == Remote && wf.jobs[j].worker == None
      && forall i :: 0 <= i < m && wf.order[i] in wf.jobs && wf.jobs[wf.order[i]].executor == Remote ==>
           wf.jobs[wf.order[i]].worker != None
  }

  /** Expansion and `Build` together give the scheduler everything it relies on, even
      when a child takes the name of another job. */
  lemma PreparedIsValid(wf: Workflow, ex: Extractor, c: Config)
    requires wf.WellFormed() && Expand(wf, None, ex).Ok?
    requires c.wf == Expand(wf, None, ex).value.workflow && c.children == Expand(wf, None, ex).value.children
    requires c.dag.Valid() && c.dag.deps == DepsOf(c.wf.jobs)
    requires NoDup(c.preOrder) && Elems(c.preOrder) == c.pre.Keys
    requires NoDup(c.rootOrder) && Elems(c.rootOrder) == RootSet(c.dag)
    ensures ValidConfig(c)
  {
    hide Expand, FanOut, Rewrite, IsTopoOrder, NoDup, Elems, RootSet, FanValid, ExpandedFrom;
    OrderInJobs(wf);
    assert FanOut(wf, None, ex, |wf.order|).Ok? by { ExpandedFansOut(wf, ex); }
    FanWellFormed(wf, None, ex, |wf.order|);
    ExpandFacts(wf, None, ex);
    var f := FanOut(wf, None, ex, |wf.order|).value;
    ExpandedSources(f, Expanded(c.wf, c.children));
  }

  lemma ExpandedFansOut(wf: Workflow, ex: Extractor)
    requires wf.WellFormed() && Expand(wf, None, ex).Ok? && forall j :: j in wf.order ==> j in wf.jobs
    ensures FanOut(wf, None, ex, |wf.order|).Ok?
  {
    hide FanOut;
  }

  lemma ExpandedListsJobs(wf: Workflow, ex: Extractor)
    requires wf.WellFormed() && Expand(wf, None, ex).Ok?
    ensures var e := Expand(wf, None, ex).value.workflow; forall j :: j in e.order <==> j in e.jobs
  {
    OrderInJobs(wf);
    ExpandedFansOut(wf, ex);
    ExpandFacts(wf, None, ex);
    var e := Expand(wf, None, ex).value.workflow;
    hide Expand, FanOut;
    OrderInJobs(e);
  }

  /** Children have one parent, sources have children that are waited for, and no parent's
      key has fail_fast. */
  lemma ExpandedSources(f: Fan, e: Expanded)
    requires FanValid(f) && ExpandedFrom(f, e)
    ensures e.workflow.WellFormed()
    ensures forall p, q, x :: p in e.children && q in e.children && x in e.children[p] && x in e.children[q] ==> p == q
    ensures forall p :: p in e.children && p in e.workflow.jobs ==> !e.workflow.jobs[p].failFast
    ensures forall j, src :: j in e.workflow.jobs && e.workflow.jobs[j].inputFrom == Some(src) ==>
        src in e.children && forall x :: x in e.children[src] ==> x in e.workflow.jobs[j].dependsOn
  {
    hide Rewrite;
    forall p, q, x | p in e.children && q in e.children && x in e.children[p] && x in e.children[q] ensures p == q {
      ChildrenDisjoint(f, p, q, x);
    }
    forall j, src | j in e.workflow.jobs && e.workflow.jobs[j].inputFrom == Some(src)
      ensures src in e.children && forall x :: x in e.children[src] ==> x in e.workflow.jobs[j].dependsOn
    {
      RewriteCovers(f.children, f.jobs[j]);
    }
    forall p | p in e.children && p in e.workflow.jobs ensures !e.workflow.jobs[p].failFast {
      RewriteCovers(f.children, f.jobs[p]);
    }
  }

  lemma ChildrenDisjoint(f: Fan, p: Id, q: Id, x: Id)
    requires FanValid(f) && p in f.children && q in f.children && x in f.children[p] && x in f.children[q]
    ensures p == q
  {
    var i :| 0 <= i < |f.children[p]| && f.children[p][i] == x;
    var k :| 0 <= k < |f.children[q]| && f.children[q][k] == x;
    ChildIdInjective(p, i, q, k);
  }

  lemma RewriteCovers(children: map<Id, seq<Id>>, def: JobDef)
    requires GoodSource(children, def)
    ensures var r := Rewrite(children, def);
            && r.inputFrom == def.inputFrom && r.failFast == def.failFast
            && (def.inputFrom.Some? ==> forall x :: x in children[def.inputFrom.value] ==> x in r.dependsOn)
  {
    if def.inputFrom.Some? {
      AddMissingFacts(RewriteDeps(children, def.dependsOn), children[def.inputFrom.value]);
    }
  }

  lemma FirstIsUnserved(wf: Workflow, k: nat)
    requires k < |wf.order| && forall i :: 0 <= i <= k ==> wf.order[i] in wf.jobs
    requires wf.jobs[wf.order[k]].executor == Remote && wf.jobs[wf.order[k]].worker == None
    requires forall i :: 0 <= i < k && wf.jobs[wf.order[i]].executor == Remote ==> wf.jobs[wf.order[i]].worker != None
    ensures FirstUnserved(wf, wf.order[k])
  {
  }

  /** Everything `execute` checks before it launches a job. */
  method Prepare(wf: Workflow, hasWorkers: bool, pre: map<Id, nat>, ex: Extractor, codec: Codec,
                 run: (Id, Bytes) -> Outcome) returns (r: Result<Config, PrepareError>)
    requires wf.WellFormed()
    ensures r.Ok? ==> ValidConfig(r.value) && Expand(wf, None, ex).Ok?
    ensures r.Ok? ==> Expanded(r.value.wf, r.value.children) == Expand(wf, None, ex).value
    ensures r.Ok? ==> r.value.pre == pre && r.value.codec == codec && r.value.run == run
    ensures r.Ok? <==>
        && Expand(wf, None, ex).Ok?
        && var jobs := Expand(wf, None, ex).value.workflow.jobs;
           && Known(DepsOf(jobs)) && Acyclic(DepsOf(jobs))
           && (hasWorkers || forall j :: j in jobs && jobs[j].executor == Remote ==> jobs[j].worker != None)
    ensures r.Err? ==> Refused(wf, hasWorkers, ex, r.error)
  {
    hide Expand, ValidConfig, FirstUnserved, Known, Acyclic, DepsOf, Dag.Valid, NoDup, Elems, RootSet;
    var e := ExpandForeach(wf, None, ex);
    if e.Err? { return Err(ExpandFailed(e.error)); }
    var Expanded(expanded, children) := e.value;
    var built := Build(expanded.jobs);
    if built.None? { return Err(NotSchedulable); }
    var dag := built.value;
    ExpandedListsJobs(wf, ex);
    for k := 0 to |expanded.order|
      invariant hasWorkers || forall i :: 0 <= i < k && expanded.jobs[expanded.order[i]].executor == Remote ==>
          expanded.jobs[expanded.order[i]].worker != None
    {
      var def := expanded.jobs[expanded.order[k]];
      if def.executor.Remote? && def.worker.None? && !hasWorkers {
        FirstIsUnserved(expanded, k);
        return Err(NoWorkers(expanded.order[k]));
      }
    }
    var preOrder := Enumerate(pre.Keys);
    var rootOrder := Enumerate(RootSet(dag));
    var c := Config(expanded, children, dag, pre, preOrder, rootOrder, codec, run);
    PreparedIsValid(wf, ex, c);
    r := Ok(c);
  }

  // -- The run ---------------------------------------------------------------

  class Executor {
    const c: Config
    const store: Stores.RunStore
    const runId: Stores.RunId
    var statuses: map<Id, Status>
    var jobOutputs: map<Id, Bytes>
    var jobResults: seq<JobResult>
    var inFlight: nat
    var overallSuccess: bool
    var halted: bool
    /** The spawned tasks that have not reported yet, and every launch so far. */
    var flights: multiset<Flight>
    ghost var started: multiset<Id>

    /** The machine's state; its rows are those of this run in the store. */
    ghost function View(): State
      reads this, store
    {
      State(statuses, jobOutputs, jobResults, Stores.RowsOf(store.jobStates, runId),
            inFlight, overallSuccess, halted, flights, started)
    }

    /** The rows of all other runs are as they were. */
    ghost predicate Kept(before: map<(Stores.RunId, Id), Row>)
      reads this, store
    {
      Stores.OtherRows(store.jobStates, runId) == Stores.OtherRows(before, runId)
    }

    ghost predicate Ready()
      reads this
    {
      ValidConfig(c) && forall j :: j in c.wf.jobs ==> j in statuses
    }

    constructor (c: Config, store: Stores.RunStore, runId: Stores.RunId)
      requires ValidConfig(c) && Stores.RowsOf(store.jobStates, runId) == map[]
      ensures this.c == c && this.store == store && this.runId == runId && View() == Initial(c)
    {
      hide ValidConfig, Stores.RowsOf, Stores.OtherRows;
      this.c, this.store, this.runId := c, store, runId;
      statuses := map j | j in c.wf.jobs :: Pending;
      jobOutputs, jobResults := map[], [];
      inFlight, overallSuccess, halted := 0, true, false;
      flights, started := multiset{}, multiset{};
    }

    /** `store.upsert_job` followed by `statuses.insert`. */
    method Set(j: Id, st: Status)
      modifies this`statuses, store`jobStates
      ensures View() == Record(old(View()), j, st) && Kept(old(store.jobStates))
    {
      store.UpsertJob(runId, j, st);
      statuses := statuses[j := st];
    }

    method LaunchJob(j: Id, input: Bytes)
      modifies this, store`jobStates
      ensures Kept(old(store.jobStates))
      ensures View() == Launch(old(View()), j, input)
    {
      Set(j, Running);
      flights, started := flights + multiset{Flight(j, input)}, started + multiset{j};
      inFlight := inFlight + 1;
    }

    method SkipJob(j: Id)
      modifies this, store`jobStates
      ensures Kept(old(store.jobStates))
      ensures View() == Skip(old(View()), j)
    {
      Set(j, Skipped);
      jobResults := jobResults + [JobResult(j, Passed)];
    }

    method InputFor(j: Id) returns (input: Bytes)
      requires j in c.wf.jobs
      ensures input == LaunchInput(c, jobOutputs, j)
    {
      var fanin := FaninInput(c.codec, c.wf.jobs, c.children, jobOutputs, j);
      input := if fanin.Some? then fanin.value
               else if c.wf.jobs[j].input.Some? then c.wf.jobs[j].input.value else "";
    }

    method SeedOne(j: Id)
      requires j in c.pre
      modifies this, store`jobStates
      ensures Kept(old(store.jobStates))
      ensures View() == Record(old(View()), j, Succeeded(c.pre[j]))
            .(results := old(View()).results + [JobResult(j, Reused)])
    {
      hide Serialize, Stores.RowsOf, Stores.OtherRows;
      Set(j, Succeeded(c.pre[j]));
      jobResults := jobResults + [JobResult(j, Reused)];
    }

    method SeedReused()
      requires View() == Initial(c) && forall j :: j in c.preOrder ==> j in c.pre
      modifies this, store`jobStates
      ensures Kept(old(store.jobStates))
      ensures View() == Seed(c, Initial(c), c.preOrder)
    {
      hide Serialize, Initial, Stores.RowsOf, Stores.OtherRows;
      for k := 0 to |c.preOrder|
        invariant Kept(old(store.jobStates))
        invariant View() == Seed(c, Initial(c), c.preOrder[..k])
      {
        assert c.preOrder[..k + 1][..k] == c.preOrder[..k];
        SeedOne(c.preOrder[k]);
      }
      assert c.preOrder[..|c.preOrder|] == c.preOrder;
    }

    method StartRoots()
      modifies this, store`jobStates
      ensures Kept(old(store.jobStates))
      ensures View() == LaunchRoots(c, old(View()), c.rootOrder)
    {
      hide Serialize, OwnInput, Launch, Stores.RowsOf, Stores.OtherRows;
      ghost var s := View();
      for k := 0 to |c.rootOrder|
        invariant Kept(old(store.jobStates))
        invariant View() == LaunchRoots(c, s, c.rootOrder[..k])
      {
        assert c.rootOrder[..k + 1][..k] == c.rootOrder[..k];
        var j := c.rootOrder[k];
        if j !in c.pre { LaunchJob(j, OwnInput(c, j)); }
      }
      assert c.rootOrder[..|c.rootOrder|] == c.rootOrder;
    }

    method StartIfUnblocked(j: Id)
      requires j in c.wf.jobs && j in c.dag.deps
      modifies this, store`jobStates
      ensures Kept(old(store.jobStates))
      ensures View() == if j in c.pre || IsRoot(c, j) || !AllReused(c, j) then old(View())
                        else Launch(old(View()), j, LaunchInput(c, old(View()).outputs, j))
    {
      hide LaunchInput, Launch;
      if j !in c.pre && c.dag.deps[j] != [] && (forall d | d in c.dag.deps[j] :: d in c.pre) {
        var input := InputFor(j);
        LaunchJob(j, input);
      }
    }

    method StartUnblocked()
      requires forall j :: j in c.wf.order ==> j in c.wf.jobs && j in c.dag.deps
      modifies this, store`jobStates
      ensures Kept(old(store.jobStates))
      ensures View() == LaunchReady(c, old(View()), c.wf.order)
    {
      hide LaunchInput, Launch, AllReused, IsRoot, Stores.RowsOf, Stores.OtherRows;
      ghost var s := View();
      for k := 0 to |c.wf.order|
        invariant Kept(old(store.jobStates))
        invariant View() == LaunchReady(c, s, c.wf.order[..k])
      {
        assert c.wf.order[..k + 1][..k] == c.wf.order[..k];
        StartIfUnblocked(c.wf.order[k]);
      }
      assert c.wf.order[..|c.wf.order|] == c.wf.order;
    }

    /** Everything before the receive loop. */
    method Begin()
      requires ValidConfig(c) && View() == Initial(c)
      modifies this, store`jobStates
      ensures Kept(old(store.jobStates))
      ensures View() == Start(c) && Ready()
    {
      hide ValidConfig, Seed, LaunchRoots, LaunchReady, Initial;
      OrdersExact(c);
      DagCoversJobs(c);
      SeedReused();
      StartRoots();
      StartUnblocked();
      StartSettled(c);
      HaveStatuses(c, View());
    }

    lemma DepsHaveStatus(j: Id)
      requires Ready() && j in c.wf.jobs
      ensures j in c.dag.deps && DepsAt(c, j) == c.dag.deps[j]
      ensures forall d :: d in c.dag.deps[j] ==> d in statuses && StatusOf(View(), d) == statuses[d]
    {
      forall d | d in c.dag.deps[j] ensures d in c.wf.jobs { DependentsExact(c, d, j); }
    }

    /** One dependent of a skipped job. */
    method CascadeOne(j: Id) returns (skip: bool)
      requires Ready() && j in c.wf.jobs
      modifies this, store`jobStates
      ensures Kept(old(store.jobStates))
      ensures Ready()
      ensures var s := old(View());
              if j in c.pre || !(j in s.statuses && s.statuses[j].Pending?) || !AllDone(c, s, j)
              then View() == s && !skip
              else if GuardHolds(c, s, j) then View() == Launch(s, j, LaunchInput(c, s.outputs, j)) && !skip
              else View() == Skip(s, j) && skip
    {
      DepsHaveStatus(j);
      skip := false;
      if j !in c.pre && statuses[j].Pending? && (forall d | d in c.dag.deps[j] :: IsDone(statuses[d])) {
        var def := c.wf.jobs[j];
        if def.whenExpr.Some? && EvalWhen(def.whenExpr.value, statuses) {
          var input := InputFor(j);
          LaunchJob(j, input);
        } else {
          SkipJob(j);
          skip := true;
        }
      }
    }

    /** One popped job of the cascade queue. */
    method CascadeFrom(skippedJob: Id, queue: seq<Id>) returns (queue': seq<Id>)
      requires Ready()
      modifies this, store`jobStates
      ensures Kept(old(store.jobStates))
      ensures Ready()
      ensures var (t, skipped) := CascadeInto(c, old(View()), DependentsOf(c, skippedJob));
              View() == t && queue' == queue + skipped
    {
      hide AllDone, GuardHolds, Launch, Skip, LaunchInput, ValidConfig, Stores.RowsOf, Stores.OtherRows;
      ghost var s := View();
      var ds := if skippedJob in c.dag.dependents then c.dag.dependents[skippedJob] else [];
      queue' := queue;
      for k := 0 to |ds|
        invariant Kept(old(store.jobStates))
        invariant Ready()
        invariant CascadeInto(c, s, ds[..k]).0 == View() && queue' == queue + CascadeInto(c, s, ds[..k]).1
      {
        assert ds[..k + 1][..k] == ds[..k];
        DependentsExact(c, skippedJob, ds[k]);
        var skip := CascadeOne(ds[k]);
        if skip { queue' := queue' + [ds[k]]; }
      }
      assert ds[..|ds|] == ds;
    }

    method CascadeSkips(j: Id)
      requires Ready()
      modifies this, store`jobStates
      ensures Kept(old(store.jobStates))
      ensures Ready() && View() == Cascade(c, old(View()), [j])
    {
      ghost var target := Cascade(c, View(), [j]);
      var queue := [j];
      while queue != []
        invariant Kept(old(store.jobStates))
        invariant Ready() && Cascade(c, View(), queue) == target
        decreases |PendingIn(View())| + |queue|
      {
        queue := CascadeFrom(queue[0], queue[1..]);
      }
    }

    method ReleaseJob(j: Id)
      requires Ready() && j in c.wf.jobs
      modifies this, store`jobStates
      ensures Kept(old(store.jobStates))
      ensures Ready() && View() == Release(c, old(View()), j)
    {
      hide ValidConfig, Stores.RowsOf, Stores.OtherRows, LaunchInput, Cascade;
      DepsHaveStatus(j);
      var deps, def := c.dag.deps[j], c.wf.jobs[j];
      if j in c.pre || !(forall d | d in deps :: IsDone(statuses[d])) { return; }
      var childFailed := def.inputFrom.Some? && def.inputFrom.value in c.children
        && exists x | x in c.children[def.inputFrom.value] :: x in statuses && statuses[x].Failed?;
      assert childFailed <==> ForeachChildFailed(c, View(), j);
      if childFailed {
        Set(j, Cancelled);
        return;
      }
      var anySkipped := exists d | d in deps :: statuses[d].Skipped?;
      var shouldSkip := if def.whenExpr.Some? then !EvalWhen(def.whenExpr.value, statuses) else anySkipped;
      assert shouldSkip <==> ShouldSkip(c, View(), j);
      if shouldSkip {
        SkipJob(j);
        CascadeSkips(j);
      } else {
        var input := InputFor(j);
        LaunchJob(j, input);
      }
    }

    method ReleaseDependents(job: Id)
      requires Ready()
      modifies this, store`jobStates
      ensures Kept(old(store.jobStates))
      ensures Ready() && View() == ReleaseAll(c, old(View()), DependentsOf(c, job))
    {
      hide ValidConfig, Release, Stores.RowsOf, Stores.OtherRows;
      ghost var s := View();
      var ds := if job in c.dag.dependents then c.dag.dependents[job] else [];
      for k := 0 to |ds|
        invariant Kept(old(store.jobStates))
        invariant Ready() && View() == ReleaseAll(c, s, ds[..k])
      {
        assert ds[..k + 1][..k] == ds[..k];
        DependentsExact(c, job, ds[k]);
        ReleaseJob(ds[k]);
      }
      assert ds[..|ds|] == ds;
    }

    method CancelSiblings(ids: seq<Id>, except: Id)
      modifies this`statuses, store`jobStates
      ensures Kept(old(store.jobStates))
      ensures View() == CancelPending(old(View()), ids, except)
      ensures forall j :: j in old(statuses) ==> j in statuses
    {
      hide Serialize;
      ghost var s := View();
      for k := 0 to |ids|
        invariant Kept(old(store.jobStates))
        invariant View() == CancelPending(s, ids[..k], except) && forall j :: j in old(statuses) ==> j in statuses
      {
        assert ids[..k + 1][..k] == ids[..k];
        var j := ids[k];
        if j != except && j in statuses && (statuses[j].Pending? || statuses[j].Ready?) { Set(j, Cancelled); }
      }
      assert ids[..|ids|] == ids;
    }

    /** The success arm of the receive loop. */
    method OnSuccess(f: Flight, bytes: Bytes, elapsed: nat)
      requires Ready() && inFlight > 0
      modifies this, store`jobStates
      ensures Kept(old(store.jobStates))
      ensures Ready()
      ensures var t := Succeed(old(View()), f, elapsed, bytes);
              View() == if t.success then ReleaseAll(c, t, DependentsOf(c, f.job)) else t
    {
      hide ValidConfig, Arrive, ReleaseAll;
      Land(f, Succeeded(elapsed));
      jobOutputs := jobOutputs[f.job := bytes];
      jobResults := jobResults + [JobResult(f.job, Ran)];
      if overallSuccess { ReleaseDependents(f.job); }
    }

    /** The event's status is recorded and the task is no longer outstanding. */
    method Land(f: Flight, st: Status)
      requires inFlight > 0
      modifies this`statuses, this`flights, this`inFlight, store`jobStates
      ensures Kept(old(store.jobStates))
      ensures View() == Arrive(old(View()), f, st)
      ensures forall j :: j in old(statuses) ==> j in statuses
    {
      hide Serialize;
      Set(f.job, st);
      flights := flights - multiset{f};
      inFlight := inFlight - 1;
    }

    /** The failure arm of the receive loop up to the look-up of the parent. */
    method RecordFailure(f: Flight, reason: string, elapsed: nat)
      requires inFlight > 0
      modifies this, store`jobStates
      ensures Kept(old(store.jobStates))
      ensures View() == Fail(old(View()), f, elapsed, reason)
      ensures forall j :: j in old(statuses) ==> j in statuses
    {
      hide Arrive;
      Land(f, Failed(elapsed, reason));
      overallSuccess := false;
      jobResults := jobResults + [JobResult(f.job, Broke)];
    }

    /** The look-up in the map of foreach children; its iteration order is arbitrary. */
    method FindParent(job: Id) returns (parent: Option<Id>)
      ensures parent.Some? ==> IsParent(c, parent.value, job)
      ensures parent.None? ==> forall p :: !IsParent(c, p, job)
    {
      if p :| p in c.children && job in c.children[p] { parent := Some(p); } else { parent := None; }
    }

    /** The rest of it, cancel branch included.  (No prepared configuration ever takes
        that branch: see Settling.FailureNeverCancels.) */
    method AfterFailed(job: Id)
      requires UniqueParents(c)
      modifies this, store`jobStates
      ensures Kept(old(store.jobStates))
      ensures View() == AfterFailure(c, old(View()), job)
      ensures forall j :: j in old(statuses) ==> j in statuses
    {
      hide AfterFailure, UniqueParents, CancelPending, Stores.RowsOf, Stores.OtherRows;
      FailureOutcome(c, View(), job);
      var parent := FindParent(job);
      if parent.None? {
        halted := true;
      } else if parent.value in c.wf.jobs && c.wf.jobs[parent.value].failFast {
        CancelSiblings(c.children[parent.value], job);
        halted := true;
      }
    }

    /** The body of the receive loop for the event of flight f. */
    method OnEvent(f: Flight, outcome: Outcome, elapsed: nat)
      requires Ready() && Looping(View()) && f in flights && outcome == c.run(f.job, f.input)
      modifies this, store`jobStates
      ensures Kept(old(store.jobStates))
      ensures Ready() && View() == Deliver(c, old(View()), f, elapsed)
    {
      assert UniqueParents(c);
      hide ValidConfig, AfterFailure, ReleaseAll, Succeed, Fail, UniqueParents;
      match outcome {
        case Output(bytes) => OnSuccess(f, bytes, elapsed);
        case Failure(reason) =>
          RecordFailure(f, reason, elapsed);
          AfterFailed(f.job);
      }
    }

    /** One turn of the receive loop: some outstanding task reports, after any time. */
    method Receive(ghost n: nat)
      requires Ready() && Steps(c, Start(c), View(), n) && Looping(View())
      modifies this, store`jobStates
      ensures Kept(old(store.jobStates))
      ensures Ready() && Steps(c, Start(c), View(), n + 1)
    {
      hide ValidConfig, Start, StatusOf, ReleaseAll, AfterFailure, Succeed, Fail;
      ghost var before := View();
      HasFlight(c, before, n);
      var f :| f in flights;
      var elapsed: nat := *;
      OnEvent(f, c.run(f.job, f.input), elapsed);
      StepByEvent(c, before, f, elapsed);
      assert Steps(c, Start(c), before, n) && Step(c, before, View());
    }

    /** What the store can rebuild of this run. */
    ghost predicate StoredRun()
      reads this, store
    {
      States.DecodeAll(Stores.RowsOf(store.jobStates, runId))
        == map j | j in statuses && !statuses[j].Pending? :: Persisted(statuses[j])
    }

    /** From the first launch to the end of the receive loop, in any event order and for
        any workflow.  That the loop ends is part of what is proved; before and after every
        event the store holds what memory holds. */
    method Run()
      requires ValidConfig(c) && View() == Initial(c)
      modifies this, store`jobStates
      ensures Kept(old(store.jobStates))
      ensures Ended(c, View()) && StoredRun()
      ensures overallSuccess ==> forall j :: j in c.wf.jobs ==>
          j in statuses && (statuses[j].Succeeded? || statuses[j].Skipped?)
      ensures Plain(c) ==> Tallied(c, View())
      ensures Plain(c) && LocalGuards(c) ==>
          (overallSuccess <==> forall j :: j in Evaluate(c) ==> !Evaluate(c)[j].Bad?)
      ensures Plain(c) && LocalGuards(c) && overallSuccess ==> jobOutputs == GoodOutputs(Evaluate(c))
    {
      hide Plain, LocalGuards, ValidConfig, Start, Initial, Evaluate, Step, Tallied, Ended, Reachable;
      ghost var bound := EveryRunEnds(c);
      Begin();
      ghost var n := 0;
      StoredAt(c, View(), n);
      while inFlight > 0 && !halted
        invariant Kept(old(store.jobStates))
        invariant Ready() && Steps(c, Start(c), View(), n) && StoredRun()
        decreases bound - n
      {
        Receive(n);
        n := n + 1;
        StoredAt(c, View(), n);
      }
      RunHasEnded(c, View(), n);
      EndedFacts(c, View());
    }
  }

  lemma StoredAt(c: Config, s: State, n: nat)
    requires ValidConfig(c) && Steps(c, Start(c), s, n)
    ensures DecodeAll(s.rows) == map j | j in s.statuses && !s.statuses[j].Pending? :: Persisted(s.statuses[j])
  {
    hide ValidConfig, Start, Steps, Persisted, Decode;
    assert Reachable(c, s);
    StoreRefinesMemory(c, s);
  }

  lemma RunHasEnded(c: Config, s: State, n: nat)
    requires Steps(c, Start(c), s, n) && !Looping(s)
    ensures Ended(c, s)
  {
    hide Steps, Start;
  }

  /** Everything known about the end of a run. */
  lemma EndedFacts(c: Config, s: State)
    requires ValidConfig(c) && Ended(c, s)
    ensures s.success ==> forall j :: j in c.wf.jobs ==>
        j in s.statuses && (s.statuses[j].Succeeded? || s.statuses[j].Skipped?)
    ensures Plain(c) ==> Tallied(c, s)
    ensures Plain(c) && LocalGuards(c) ==> (s.success <==> forall j :: j in Evaluate(c) ==> !Evaluate(c)[j].Bad?)
    ensures Plain(c) && LocalGuards(c) && s.success ==> s.outputs == GoodOutputs(Evaluate(c))
  {
    hide Plain, LocalGuards, ValidConfig, Start, Evaluate, Step, Tallied, Orderly, Steps, EndedIn;
    if s.success { NoJobIsStuck(c, s); }
    if Plain(c) {
      var n: nat :| Steps(c, Start(c), s, n);
      RunsAreBounded(c, s, n);
      if LocalGuards(c) { RunRefinesEvaluation(c, s); }
    }
  }

  // -- The whole of `execute` ------------------------------------------------

  datatype RunResult = RunResult(jobs: seq<JobResult>, succeeded: nat, total: nat, success: bool)

  lemma TotalIsJobs(c: Config)
    requires ValidConfig(c)
    ensures |c.dag.topoOrder| == |c.wf.jobs|
  {
    OrderCoversJobs(c);
    NoDupCard(c.dag.topoOrder);
  }

  ghost predicate PreparedFrom(wf: Workflow, pre: map<Id, nat>, ex: Extractor, c: Config)
    requires wf.WellFormed()
  {
    && ValidConfig(c) && c.pre == pre
    && Expand(wf, None, ex) == Ok(Expanded(c.wf, c.children))
  }

  /** What `execute` checks before the first job. */
  ghost predicate Accepted(wf: Workflow, hasWorkers: bool, ex: Extractor)
    requires wf.WellFormed()
  {
    && Expand(wf, None, ex).Ok?
    && var jobs := Expand(wf, None, ex).value.workflow.jobs;
       && Known(DepsOf(jobs)) && Acyclic(DepsOf(jobs))
       && (hasWorkers || forall j :: j in jobs && jobs[j].executor == Remote ==> jobs[j].worker != None)
  }

  /** Refused before the first job, or run to the end and reported; the rows of other runs
      are never touched. */
  method Execute(store: Stores.RunStore, runId: Stores.RunId, wf: Workflow, hasWorkers: bool, pre: map<Id, nat>,
                 ex: Extractor, codec: Codec, run: (Id, Bytes) -> Outcome)
    returns (r: Result<RunResult, PrepareError>, ghost c: Config, ghost end: State)
    requires wf.WellFormed() && Stores.RowsOf(store.jobStates, runId) == map[]
    modifies store`jobStates
    ensures r.Ok? <==> Accepted(wf, hasWorkers, ex)
    ensures r.Err? ==> Refused(wf, hasWorkers, ex, r.error)
    ensures r.Ok? ==> PreparedFrom(wf, pre, ex, c) && c.run == run && c.codec == codec
    ensures r.Ok? ==> Ended(c, end) && Stores.RowsOf(store.jobStates, runId) == end.rows
    ensures r.Ok? ==> r.value.jobs == end.results && r.value.success == end.success
    ensures r.Ok? ==> r.value.total == |c.wf.jobs| && r.value.succeeded == CountSucceeded(end.results)
    ensures r.Ok? ==> forall j :: j in c.wf.jobs && c.wf.jobs[j].inputFrom == None && j in end.outputs ==>
        run(j, if c.wf.jobs[j].input.Some? then c.wf.jobs[j].input.value else "") == Output(end.outputs[j])
    ensures r.Ok? ==> forall j :: j in c.wf.jobs && c.wf.jobs[j].inputFrom == None && IsFailed(end, j) ==>
        run(j, if c.wf.jobs[j].input.Some? then c.wf.jobs[j].input.value else "") == Failure(end.statuses[j].reason)
    ensures Stores.OtherRows(store.jobStates, runId) == Stores.OtherRows(old(store.jobStates), runId)
    ensures r.Err? ==> store.jobStates == old(store.jobStates)
  {
    hide Expand, Ended;
    var prepared := Prepare(wf, hasWorkers, pre, ex, codec, run);
    if prepared.Err? {
      r, c, end := Err(prepared.error), *, *;
      return;
    }
    var config := prepared.value;
    var executor := new Executor(config, store, runId);
    executor.Run();
    c, end := config, executor.View();
    TotalIsJobs(c);
    OutcomesOfOwnInputs(c, end);
    r := Ok(RunResult(executor.jobResults, CountSucceeded(executor.jobResults),
                      |config.dag.topoOrder|, executor.overallSuccess));
  }

  ghost predicate IsFailed(s: State, j: Id) {
    j in s.statuses && s.statuses[j].Failed?
  }

  lemma OutcomesOfOwnInputs(c: Config, s: State)
    requires ValidConfig(c) && Ended(c, s)
    ensures forall j :: j in c.wf.jobs && c.wf.jobs[j].inputFrom == None && j in s.outputs ==>
        c.run(j, if c.wf.jobs[j].input.Some? then c.wf.jobs[j].input.value else "") == Output(s.outputs[j])
    ensures forall j :: j in c.wf.jobs && c.wf.jobs[j].inputFrom == None && IsFailed(s, j) ==>
        c.run(j, if c.wf.jobs[j].input.Some? then c.wf.jobs[j].input.value else "") == Failure(s.statuses[j].reason)
  {
    hide ValidConfig, Reachable;
    forall j | j in c.wf.jobs && c.wf.jobs[j].inputFrom == None
      ensures j in s.outputs ==>
          c.run(j, if c.wf.jobs[j].input.Some? then c.wf.jobs[j].input.value else "") == Output(s.outputs[j])
      ensures IsFailed(s, j) ==>
          c.run(j, if c.wf.jobs[j].input.Some? then c.wf.jobs[j].input.value else "") == Failure(s.statuses[j].reason)
    {
      OutcomesAreOfTheirInput(c, s, j);
    }
  }

  /** From the file to the component: a job that is not fed is run on the input the file gives
      it, and the i-th child of a foreach job on the i-th element of its array. */
  lemma JobsRunAsWritten(wf: Workflow, ex: Extractor, pre: map<Id, nat>, c: Config, s: State, j: Id)
    requires Expandable(wf, None, ex) && PreparedFrom(wf, pre, ex, c) && Reachable(c, s) && j in wf.jobs
    ensures wf.jobs[j].foreachPath == None && wf.jobs[j].inputFrom == None ==>
        && j in c.wf.jobs
        && (forall f :: f in s.flights && f.job == j ==> f.input == Given(wf.jobs[j]))
        && (j in s.outputs ==> c.run(j, Given(wf.jobs[j])) == Output(s.outputs[j]))
    ensures wf.jobs[j].foreachPath.Some? && wf.jobs[j].input.Some? ==>
        var items := ex(wf.jobs[j].foreachPath.value, wf.jobs[j].input.value);
        items.Some? && forall i: nat :: i < |items.value| ==>
          && ChildId(j, i) in c.wf.jobs
          && (forall f :: f in s.flights && f.job == ChildId(j, i) ==> f.input == items.value[i])
          && (ChildId(j, i) in s.outputs ==> c.run(ChildId(j, i), items.value[i]) == Output(s.outputs[ChildId(j, i)]))
  {
    ArrayOfForeach(wf.jobs[j], None, ex);
    if IsStaticForeach(wf.jobs[j]) { ExpandableHasItems(wf, ex, j); }
    hide Expand, Expandable, ValidConfig, Reachable, ChildId, DepsAt, IsStaticForeach, ItemsOf;
    if wf.jobs[j].foreachPath == None && wf.jobs[j].inputFrom == None {
      OthersStay(wf, None, ex, j);
      RunsOnWhatItHas(c, s, j);
    }
    if wf.jobs[j].foreachPath.Some? && wf.jobs[j].input.Some? {
      var items := ItemsOf(ex, None, wf.jobs[j]).value;
      forall i: nat | i < |items|
        ensures ChildId(j, i) in c.wf.jobs
        ensures forall f :: f in s.flights && f.job == ChildId(j, i) ==> f.input == items[i]
        ensures ChildId(j, i) in s.outputs ==> c.run(ChildId(j, i), items[i]) == Output(s.outputs[ChildId(j, i)])
      {
        ChildrenGetTheirElements(wf, None, ex, j, i);
        RunsOnWhatItHas(c, s, ChildId(j, i));
      }
    }
  }

  /** The input of a job in the file, if any; else no bytes. */
  ghost function Given(def: JobDef): Bytes {
    if def.input.Some? then def.input.value else ""
  }

  lemma RunsOnWhatItHas(c: Config, s: State, x: Id)
    requires ValidConfig(c) && Reachable(c, s) && x in c.wf.jobs && c.wf.jobs[x].inputFrom == None
    ensures forall f :: f in s.flights && f.job == x ==> f.input == Given(c.wf.jobs[x])
    ensures x in s.outputs ==> c.run(x, Given(c.wf.jobs[x])) == Output(s.outputs[x])
  {
    hide ValidConfig, Reachable, DepsAt;
    OutcomesAreOfTheirInput(c, s, x);
    forall f | f in s.flights && f.job == x ensures f.input == Given(c.wf.jobs[x]) { JobsRunOnTheirInput(c, s, f); }
  }

  lemma ExpandableHasItems(wf: Workflow, ex: Extractor, j: Id)
    requires Expandable(wf, None, ex) && j in wf.jobs && IsStaticForeach(wf.jobs[j])
    ensures ItemsOf(ex, None, wf.jobs[j]).Some?
  {
  }

  // -- Conditions on the workflow file ---------------------------------------

  /** No two entries of the list are ordered by the graph. */
  ghost predicate Independent(g: Deps, ds: seq<Id>) {
    forall d, e :: d in ds && e in ds ==> !Reaches(g, e, d)
  }

  /** j's guard, if it has one, names no job, or a job that j waits for: one that expansion
      keeps, by way of jobs that keep a copy. */
  ghost predicate GuardNamesUpstream(wf: Workflow, ex: Extractor, j: Id) {
    j in wf.jobs && wf.jobs[j].whenExpr.Some? ==>
      var source := GuardReads(wf.jobs[j].whenExpr.value);
      source.None? || (source.value in wf.jobs && !IsStaticForeach(wf.jobs[source.value])
                       && LiveReaches(EffectiveDeps(wf.jobs), CopiesOf(wf, None, ex), j, source.value))
  }

  /** Seen from the workflow file: for an expandable workflow without repeated dependencies
      whose `depends_on` and `input_from` form no cycle, and whose guarded jobs wait for
      independent jobs, preparation succeeds and every fresh run meets the start-once
      condition; if guards name upstream jobs, the sequential evaluator describes it. */
  lemma FreshFromWorkflow(wf: Workflow, ex: Extractor, c: Config)
    requires Expandable(wf, None, ex) && Acyclic(EffectiveDeps(wf.jobs))
    requires forall j :: j in wf.jobs ==> NoDup(wf.jobs[j].dependsOn)
    requires forall j :: j in wf.jobs && wf.jobs[j].whenExpr.Some? ==>
        Independent(EffectiveDeps(wf.jobs), EffectiveDeps(wf.jobs)[j])
    ensures Expand(wf, None, ex).Ok?
    ensures var jobs := Expand(wf, None, ex).value.workflow.jobs; Known(DepsOf(jobs)) && Acyclic(DepsOf(jobs))
    ensures PreparedFrom(wf, map[], ex, c) ==> Plain(c)
    ensures PreparedFrom(wf, map[], ex, c) && (forall j :: GuardNamesUpstream(wf, ex, j)) ==> LocalGuards(c)
  {
    hide Expand, Expandable, ValidConfig, EffectiveDeps, Acyclic, Known, NoDup, Independent, GuardNamesUpstream,
      LocalGuards;
    assert wf.WellFormed() by { ExpandableWellFormed(wf, ex); }
    ExpansionSchedulable(wf, None, ex);
    if PreparedFrom(wf, map[], ex, c) {
      FreshLiveDeps(c);
      DependenciesAgree(c);
      forall y | y in c.wf.jobs ensures NoDup(DepsAt(c, y)) && (HasGuard(c, y) ==> Spread(c, y)) {
        ExpansionKeepsDistinct(wf, None, ex, y);
        if HasGuard(c, y) { GuardedSpread(wf, ex, c, y); }
      }
      DistinctSpread(c);
      if forall j :: GuardNamesUpstream(wf, ex, j) { FreshGuardsAreLocal(wf, ex, c); }
    }
  }

  lemma DistinctSpread(c: Config)
    requires ValidConfig(c)
    requires forall y :: y in c.wf.jobs ==> NoDup(DepsAt(c, y)) && (HasGuard(c, y) ==> Spread(c, y))
    ensures Plain(c)
  {
    hide ValidConfig, Spread, NoDup, HasGuard;
    forall y, d | y in c.wf.jobs ensures multiset(DepsAt(c, y))[d] <= 1 { NoDupCount(DepsAt(c, y), d); }
    SpreadIsPlain(c);
  }

  /** A guarded job is a copy of itself, and its dependencies are copies of its dependencies. */
  lemma GuardedSpread(wf: Workflow, ex: Extractor, c: Config, y: Id)
    requires Expandable(wf, None, ex) && PreparedFrom(wf, map[], ex, c) && y in c.wf.jobs && HasGuard(c, y)
    requires NoDup(DepsAt(c, y)) && c.dag.deps == DepsOf(c.wf.jobs) && LiveDeps(c) == c.dag.deps
    requires Acyclic(EffectiveDeps(wf.jobs))
    requires forall j :: j in wf.jobs && wf.jobs[j].whenExpr.Some? ==>
        Independent(EffectiveDeps(wf.jobs), EffectiveDeps(wf.jobs)[j])
    ensures Spread(c, y)
  {
    hide Expand, Expandable, ValidConfig, EffectiveDeps, BlowUp, Acyclic, NoDup;
    ExpansionBlowsUp(wf, None, ex);
    var g, copies, g' := EffectiveDeps(wf.jobs), CopiesOf(wf, None, ex), c.dag.deps;
    var a := GuardedOriginal(wf, ex, c, y);
    forall d, e | d in DepsAt(c, y) && e in DepsAt(c, y) ensures !WaitsFor(c, e, d) {
      assert Edge(g', y, d) && Edge(g', y, e);
      var b := ProjectEdge(g, copies, g', a, y, d);
      var b' := ProjectEdge(g, copies, g', a, y, e);
      UpstreamExact(g, copies, g', b', e, b, d);
      LiveReachesIsReaches(g, copies, b', b);
    }
  }

  lemma GuardedOriginal(wf: Workflow, ex: Extractor, c: Config, y: Id) returns (a: Id)
    requires Expandable(wf, None, ex) && PreparedFrom(wf, map[], ex, c) && y in c.wf.jobs && HasGuard(c, y)
    ensures a in wf.jobs && c.wf.jobs[y].whenExpr == wf.jobs[a].whenExpr && IsCopy(CopiesOf(wf, None, ex), a, y)
    ensures a == y && !IsStaticForeach(wf.jobs[a])
  {
    var f := FanOutFanned(wf, None, ex);
    ExpandFacts(wf, None, ex);
    var copies := CopiesOf(wf, None, ex);
    hide Expand, FanOut, CopiesOf, FannedOut, Expandable, ValidConfig;
    a := OriginalOfFanned(wf, copies, f, y);
    CopyIsFanned(wf, copies, f, a, y);
  }

  lemma FreshGuardsAreLocal(wf: Workflow, ex: Extractor, c: Config)
    requires Expandable(wf, None, ex) && PreparedFrom(wf, map[], ex, c)
    requires c.dag.deps == DepsOf(c.wf.jobs) && LiveDeps(c) == c.dag.deps
    requires forall j :: GuardNamesUpstream(wf, ex, j)
    ensures LocalGuards(c)
  {
    hide Expand, Expandable, ValidConfig, EffectiveDeps, LocalGuard, LiveReaches, CopiesOf, GuardReads, AllReused,
      WaitsFor;
    forall j | j in c.wf.jobs && j !in c.pre && !AllReused(c, j) ensures LocalGuard(c, j) {
      if HasGuard(c, j) {
        var a := GuardedOriginal(wf, ex, c, j);
        assert GuardNamesUpstream(wf, ex, a);
        var source := GuardReads(wf.jobs[a].whenExpr.value);
        if source.Some? { SourceUpstream(wf, ex, c, j, source.value); }
      }
      NamedJobIsLocal(c, j);
    }
  }

  lemma SourceUpstream(wf: Workflow, ex: Extractor, c: Config, j: Id, z: Id)
    requires Expandable(wf, None, ex) && PreparedFrom(wf, map[], ex, c) && IsCopy(CopiesOf(wf, None, ex), j, j)
    requires c.dag.deps == DepsOf(c.wf.jobs) && LiveDeps(c) == c.dag.deps
    requires z in wf.jobs && !IsStaticForeach(wf.jobs[z])
    requires LiveReaches(EffectiveDeps(wf.jobs), CopiesOf(wf, None, ex), j, z)
    ensures WaitsFor(c, j, z)
  {
    hide Expand, Expandable, ValidConfig, EffectiveDeps, BlowUp, LiveReaches, Reaches;
    ExpansionBlowsUp(wf, None, ex);
    assert IsCopy(CopiesOf(wf, None, ex), z, z);
    UpstreamExact(EffectiveDeps(wf.jobs), CopiesOf(wf, None, ex), c.dag.deps, j, j, z, z);
  }

  /** What a run reports: success exactly if the evaluator meets no failing job, and then
      as many successes as there are jobs the evaluator does not skip. */
  lemma ReportIsSequential(c: Config, end: State)
    requires Plain(c) && LocalGuards(c) && Ended(c, end) && c.pre.Keys <= c.wf.jobs.Keys
    ensures end.success <==> forall j :: j in Evaluate(c) ==> !Evaluate(c)[j].Bad?
    ensures end.success ==>
        CountSucceeded(end.results) + |set j | j in Evaluate(c) && Evaluate(c)[j].Omitted?| == |c.wf.jobs|
  {
    hide Plain, LocalGuards, Evaluate, Ended, ValidConfig, Tallied, HasResult, StatusOf, SkippedIn;
    RunRefinesEvaluation(c, end);
    assert ValidConfig(c) by { PlainValid(c); }
    TotalIsJobs(c);
    if end.success {
      RetrySucceedsCompletely(c, end);
      forall j ensures j in SkippedIn(end) <==> StatusOf(end, j).Skipped? { InSkipped(end, j); }
      SkippedAreJobs(c, end);
      assert SkippedIn(end) == set j | j in Evaluate(c) && Evaluate(c)[j].Omitted?;
    }
  }

  lemma SkippedAreJobs(c: Config, end: State)
    requires Plain(c) && Ended(c, end) && c.pre.Keys <= c.wf.jobs.Keys
    ensures forall j :: StatusOf(end, j).Skipped? ==> j in c.wf.jobs
  {
    PlainValid(c);
    hide Plain, ValidConfig, Reachable;
    ReachableSettled(c, end);
    OnlyJobsSkip(c, end);
  }

  // -- Retrying --------------------------------------------------------------

  /** `retry_inner`: the previous run is loaded, the jobs to replay are found on the graph
      as written, and the run itself expands the workflow. */
  method Retry(store: Stores.RunStore, prevRun: Stores.RunId, newRun: Stores.RunId, path: string,
               wf: Workflow, from: Id, hasWorkers: bool, ex: Extractor, codec: Codec,
               run: (Id, Bytes) -> Outcome)
    returns (r: Result<RunResult, PrepareError>, ghost c: Config, ghost end: State)
    requires wf.WellFormed() && newRun != prevRun && Stores.RowsOf(store.jobStates, newRun) == map[]
    modifies store`runs, store`jobStates
    ensures r.Ok? <==> prevRun in old(store.runs) && Known(DepsOf(wf.jobs)) && Acyclic(DepsOf(wf.jobs))
                       && Accepted(wf, hasWorkers, ex)
    ensures r.Err? ==>
        if prevRun !in old(store.runs) then r.error == UnknownRun
        else if !Known(DepsOf(wf.jobs)) || !Acyclic(DepsOf(wf.jobs)) then r.error == NotSchedulable
        else Refused(wf, hasWorkers, ex, r.error)
    ensures r.Ok? ==> PreparedFrom(wf, c.pre, ex, c) && c.run == run && c.codec == codec && Ended(c, end)
    ensures r.Ok? ==> r.value.jobs == end.results && r.value.success == end.success
    ensures r.Ok? ==> r.value.total == |c.wf.jobs| && r.value.succeeded == CountSucceeded(end.results)
    ensures store.runs ==
        if prevRun in old(store.runs) && Known(DepsOf(wf.jobs)) && Acyclic(DepsOf(wf.jobs))
        then old(store.runs)[newRun := path] else old(store.runs)
    ensures r.Ok? ==> Stores.RowsOf(store.jobStates, newRun) == end.rows
    ensures r.Ok? ==> ReusesFrom(Stores.RowsOf(old(store.jobStates), prevRun), DepsOf(wf.jobs), from, c)
    ensures forall other :: other != newRun ==>
        Stores.RowsOf(store.jobStates, other) == Stores.RowsOf(old(store.jobStates), other)
    ensures r.Err? ==> store.jobStates == old(store.jobStates)
  {
    hide Expand, Ended, Decode, Accepted, Refused, Known, Acyclic, Downstream, Stores.RowsOf, Stores.OtherRows,
      ValidConfig;
    r, c, end := Err(UnknownRun), *, *;
    var loaded := store.LoadRun(prevRun);
    if loaded.None? { return; }
    var built := Build(wf.jobs);
    if built.None? { return Err(NotSchedulable), c, end; }
    var pre := PlanRetry(built.value, loaded.value.1, from);
    store.CreateRun(newRun, path);
    ghost var before := store.jobStates;
    r, c, end := Execute(store, newRun, wf, hasWorkers, pre, ex, codec, run);
    forall other | other != newRun ensures Stores.RowsOf(store.jobStates, other) == Stores.RowsOf(before, other) {
      Stores.OtherRunsAgree(store.jobStates, before, newRun, other);
    }
  }

  /** c reuses the jobs stored as succeeded that do not lie downstream of `from`. */
  ghost predicate ReusesFrom(rows: map<Id, Row>, g: Deps, from: Id, c: Config) {
    && (forall j :: j in c.pre <==> j in rows && Decode(rows[j]).Succeeded? && !Downstream(g, from, j))
    && (forall j :: j in c.pre ==> Decode(rows[j]) == Succeeded(c.pre[j]))
  }

  /** The run itself, under a new id. */
  method RunWorkflow(store: Stores.RunStore, newRun: Stores.RunId, path: string, wf: Workflow, hasWorkers: bool,
                     ex: Extractor, codec: Codec, run: (Id, Bytes) -> Outcome)
    returns (r: Result<RunResult, PrepareError>, ghost c: Config, ghost end: State)
    requires wf.WellFormed() && Stores.RowsOf(store.jobStates, newRun) == map[]
    modifies store`runs, store`jobStates
    ensures store.runs == old(store.runs)[newRun := path]
    ensures r.Ok? <==> Accepted(wf, hasWorkers, ex)
    ensures r.Err? ==> Refused(wf, hasWorkers, ex, r.error) && store.jobStates == old(store.jobStates)
    ensures r.Ok? ==> PreparedFrom(wf, map[], ex, c) && c.run == run && c.codec == codec && Ended(c, end)
    ensures r.Ok? ==> Stores.RowsOf(store.jobStates, newRun) == end.rows && r.value.success == end.success
    ensures Stores.OtherRows(store.jobStates, newRun) == Stores.OtherRows(old(store.jobStates), newRun)
  {
    hide Expand, Ended, Accepted, Refused, Stores.RowsOf, Stores.OtherRows;
    store.CreateRun(newRun, path);
    r, c, end := Execute(store, newRun, wf, hasWorkers, map[], ex, codec, run);
  }

  /** The retry command: the file is found through the stored run.  So however often a run is
      retried, its id leads to the file the first run was started from, and reading the last
      retry back gives the statuses it ended with. */
  method RetryCommand(store: Stores.RunStore, prevRun: Stores.RunId, newRun: Stores.RunId,
                      files: string -> Option<Workflow>, from: Id, hasWorkers: bool, ex: Extractor, codec: Codec,
                      run: (Id, Bytes) -> Outcome)
    returns (r: Option<Result<RunResult, PrepareError>>, ghost c: Config, ghost end: State)
    requires newRun != prevRun && Stores.RowsOf(store.jobStates, newRun) == map[]
    requires forall path :: files(path).Some? ==> files(path).value.WellFormed()
    modifies store`runs, store`jobStates
    ensures r.None? <==> prevRun !in old(store.runs) || files(old(store.runs)[prevRun]).None?
    ensures r.None? ==> store.runs == old(store.runs) && store.jobStates == old(store.jobStates)
    ensures r.Some? && r.value.Ok? ==>
        && store.runs == old(store.runs)[newRun := old(store.runs)[prevRun]]
        && PreparedFrom(files(old(store.runs)[prevRun]).value, c.pre, ex, c) && Ended(c, end)
        && ReusesFrom(Stores.RowsOf(old(store.jobStates), prevRun),
                      DepsOf(files(old(store.runs)[prevRun]).value.jobs), from, c)
        && DecodeAll(Stores.RowsOf(store.jobStates, newRun))
             == map j | j in end.statuses && !end.statuses[j].Pending? :: Persisted(end.statuses[j])
  {
    hide Expand, Ended, Decode, DecodeAll, Persisted, Accepted, Refused, Known, Acyclic, Downstream, Stores.RowsOf,
      ValidConfig, ReusesFrom;
    r, c, end := None, *, *;
    var loaded := store.LoadRun(prevRun);
    if loaded.None? { return; }
    var path := loaded.value.0;
    var file := files(path);
    if file.None? { return; }
    var result;
    result, c, end := Retry(store, prevRun, newRun, path, file.value, from, hasWorkers, ex, codec, run);
    r := Some(result);
    if result.Ok? {
      assert Reachable(c, end) by { EndedIsReachable(c, end); }
      StoreRefinesMemory(c, end);
    }
  }

  lemma EndedIsReachable(c: Config, s: State)
    requires Ended(c, s)
    ensures Reachable(c, s)
  {
    hide Reachable;
  }

  /** Without foreach the graph that is planned on is the graph that is run, so a retry
      of a run observed in state s is a `RetryOf` it, and RetryIsExact applies. */
  lemma RetryPlansOnTheGraphItRuns(wf: Workflow, ex: Extractor, b: Config, s: State, from: Id, c: Config)
    requires wf.WellFormed() && Known(DepsOf(wf.jobs))
    requires forall j :: j in wf.jobs ==> !IsStaticForeach(wf.jobs[j]) && wf.jobs[j].inputFrom.None?
    requires PreparedFrom(wf, b.pre, ex, b) && Reachable(b, s) && PreparedFrom(wf, c.pre, ex, c)
    requires ReusesFrom(s.rows, DepsOf(wf.jobs), from, c)
    ensures RetryOf(b, s, from, c) && c.dag.deps == DepsOf(wf.jobs)
  {
    hide Expand, ValidConfig, Reachable, Decode, Downstream, Known, IsStaticForeach;
    NoForeachNoChange(wf, None, ex);
    DependenciesAgree(b);
    DependenciesAgree(c);
  }

  lemma ExpandableWellFormed(wf: Workflow, ex: Extractor)
    requires Expandable(wf, None, ex)
    ensures wf.WellFormed()
  {
  }

  lemma StepByEvent(c: Config, s: State, f: Flight, elapsed: nat)
    requires Looping(s) && f in s.flights
    ensures Step(c, s, Deliver(c, s, f, elapsed))
  {
  }

  lemma DagCoversJobs(c: Config)
    requires ValidConfig(c)
    ensures forall j :: j in c.wf.order ==> j in c.wf.jobs && j in c.dag.deps
  {
    assert forall j :: j in c.wf.order <==> j in Elems(c.wf.order);
  }

  lemma HaveStatuses(c: Config, s: State)
    requires Sound(c, s)
    ensures forall j :: j in c.wf.jobs ==> j in s.statuses
  {
  }

  ghost predicate UniqueParents(c: Config) {
    forall p, q, j :: IsParent(c, p, j) && IsParent(c, q, j) ==> p == q
  }

  function CancelIfFailFast(c: Config, s: State, p: Id, j: Id): State
    requires p in c.children
  {
    if p in c.wf.jobs && c.wf.jobs[p].failFast then CancelPending(s, c.children[p], j).(halted := true) else s
  }

  /** A foreach child has one parent, so it does not matter which entry is found first. */
  lemma FailureOutcome(c: Config, s: State, j: Id)
    requires UniqueParents(c)
    ensures forall p :: IsParent(c, p, j) ==> AfterFailure(c, s, j) == CancelIfFailFast(c, s, p, j)
    ensures (forall p :: !IsParent(c, p, j)) ==> AfterFailure(c, s, j) == s.(halted := true)
  {
  }

  /** While events are outstanding there is a task to wait for: the receive never blocks forever. */
  lemma HasFlight(c: Config, s: State, n: nat)
    requires ValidConfig(c) && Steps(c, Start(c), s, n) && s.inFlight > 0
    ensures exists f :: f in s.flights
  {
    assert Reachable(c, s);
    ReachableSettled(c, s);
    assert |s.flights| > 0;
  }
}
