/** How often a job starts: `StartDiscipline` asks for exactly what it needs. */
module Repeats {
  import opened Collections
  import opened Graph
  import opened Workflows
  import opened Dags
  import opened States
  import opened Whens
  import opened Scheduler
  import opened Settling
  import opened Moves
  import opened Endings
  import opened Discipline

  ghost predicate StartsOnce(c: Config) {
    forall s, j :: Reachable(c, s) ==> s.started[j] <= 1
  }

  lemma PlainStartsOnce(c: Config)
    requires Plain(c)
    ensures StartsOnce(c)
  {
    hide Plain;
    forall s, j | Reachable(c, s) ensures s.started[j] <= 1 { StartDiscipline(c, s, j); }
  }

  // -- What the condition depends on -----------------------------------------

  /** The same dependencies, the same jobs with a guard, the same reused jobs.  What the
      guards say, what the components do, the order of the waiter lists are all left open. */
  ghost predicate SameShape(c: Config, d: Config) {
    && ValidConfig(d) && d.wf.jobs.Keys == c.wf.jobs.Keys && d.dag.deps == c.dag.deps && d.pre.Keys == c.pre.Keys
    && forall j :: HasGuard(c, j) <==> HasGuard(d, j)
  }

  lemma WaitingShape(c: Config, d: Config)
    requires SameShape(c, d)
    ensures forall j :: DepsAt(c, j) == DepsAt(d, j) && (j in c.pre <==> j in d.pre)
    ensures forall j :: AllReused(c, j) <==> AllReused(d, j)
    ensures forall x, z :: WaitsFor(c, x, z) <==> WaitsFor(d, x, z)
  {
    hide ValidConfig, HasGuard;
    assert forall j :: j in c.pre <==> j in d.pre;
    assert LiveDeps(c) == LiveDeps(d);
    hide Reaches;
  }

  lemma ScenarioShape(c: Config, d: Config, y: Id, x: Id, S: set<Id>)
    requires SameShape(c, d) && Scenario(c, y, x, S)
    ensures Scenario(d, y, x, S)
  {
    WaitingShape(c, d);
    hide ValidConfig, WaitsFor, AllReused, DepsAt, HasGuard;
  }

  // -- Guards with a known answer --------------------------------------------

  const ALWAYS := ""

  const NEVER := ("" + "." + "status") + " " + ("==" + " " + "NEVER")

  lemma KnownAnswers(statuses: map<Id, Status>)
    ensures EvalWhen(ALWAYS, statuses) && !EvalWhen(NEVER, statuses)
  {
    assert TrimQuotes("NEVER") == "NEVER";
    var text := StatusText(statuses, "");
    assert text[0] != 'N';
    RefusedIsFalse(NEVER, statuses, "", "==", "NEVER");
  }

  // -- A run that realises a scenario ----------------------------------------

  /** Everything succeeds that is not skipped, and the jobs skipped above y are those of S. */
  ghost predicate Rigged(c: Config, y: Id, d: Id, S: set<Id>) {
    && ValidConfig(c) && Scenario(c, y, d, S) && (forall j, b :: c.run(j, b).Output?)
    && (forall j :: HasGuard(c, j) ==>
          c.wf.jobs[j].whenExpr == Some(if j in S && WaitsFor(c, y, j) then NEVER else ALWAYS))
  }

  /** Above y the jobs of S are the skipped ones; y is not skipped. */
  ghost predicate Fated(c: Config, s: State, y: Id, S: set<Id>) {
    && (forall x :: WaitsFor(c, y, x) && x !in c.pre ==>
          && (StatusOf(s, x).Skipped? ==> x in S)
          && (StatusOf(s, x).Running? || StatusOf(s, x).Succeeded? ==> x !in S))
    && (forall x :: (x in c.pre ==> StatusOf(s, x).Succeeded?) && !StatusOf(s, x).Cancelled?)
    && (forall f :: f in s.flights && WaitsFor(c, y, f.job) ==> f.job !in S)
    && !StatusOf(s, y).Skipped?
  }

  /** d has not finished, and nothing that waits for it has moved. */
  ghost predicate Quiet(c: Config, s: State, d: Id) {
    && !IsDone(StatusOf(s, d))
    && (forall x :: WaitsFor(c, x, d) ==> StatusOf(s, x).Pending?)
    && (forall f :: f in s.flights ==> !WaitsFor(c, f.job, d))
  }

  lemma FatedDeps(c: Config, s: State, y: Id, d: Id, S: set<Id>, j: Id)
    requires Rigged(c, y, d, S) && Fated(c, s, y, S) && AllDone(c, s, j) && j !in c.pre && (j == y || WaitsFor(c, y, j))
    ensures forall m :: m in DepsAt(c, j) ==> (StatusOf(s, m).Skipped? <==> m in S)
  {
    hide ValidConfig, WaitsFor, HasGuard, SkipSet;
    forall m | m in DepsAt(c, j) ensures StatusOf(s, m).Skipped? <==> m in S {
      WaitsDirectly(c, j, m);
      if j != y { WaitsTransitive(c, y, j, m); }
      assert IsDone(StatusOf(s, m));
      if m in c.pre { assert m !in S; }
    }
  }

  /** Above y the decision about a ready job is the one S foresees. */
  lemma Foreseen(c: Config, s: State, y: Id, d: Id, S: set<Id>, j: Id)
    requires Rigged(c, y, d, S) && Fated(c, s, y, S) && Actionable(c, s, j) && (j == y || WaitsFor(c, y, j))
    ensures ShouldSkip(c, s, j) <==> j != y && j in S
  {
    FatedDeps(c, s, y, d, S, j);
    KnownAnswers(s.statuses);
    WaitsNotItself(c, y);
    hide ValidConfig, WaitsFor, EvalWhen, Fated, AllDone, AllReused;
    if !HasGuard(c, j) && j != y { assert j in S <==> exists m :: m in DepsAt(c, j) && m in S; }
  }

  lemma FatedAfter(c: Config, s: State, t: State, y: Id, S: set<Id>, j: Id)
    requires Fated(c, s, y, S) && j !in c.pre && (forall x :: x != j ==> StatusOf(t, x) == StatusOf(s, x))
    requires if j != y && (!WaitsFor(c, y, j) || j in S) then StatusOf(t, j).Skipped? || StatusOf(t, j).Running?
             else StatusOf(t, j).Running? || StatusOf(t, j).Succeeded?
    requires WaitsFor(c, y, j) ==> (StatusOf(t, j).Skipped? <==> j in S)
    requires forall f :: f in t.flights ==> f in s.flights || (f.job == j && !StatusOf(t, j).Skipped?)
    ensures Fated(c, t, y, S)
  {
    hide StatusOf, WaitsFor;
  }

  lemma MoveFlights(c: Config, s: State, j: Id)
    ensures var t := Move(c, s, j);
            forall f :: f in t.flights ==> f in s.flights || (f.job == j && !StatusOf(t, j).Skipped?)
  {
    hide ShouldSkip, LaunchInput, Serialize;
  }

  lemma MoveFated(c: Config, s: State, y: Id, d: Id, S: set<Id>, j: Id)
    requires Rigged(c, y, d, S) && Fated(c, s, y, S) && Actionable(c, s, j)
    ensures Fated(c, Move(c, s, j), y, S)
  {
    hide Rigged, Fated, StatusOf, WaitsFor, ShouldSkip, Move, AllDone;
    RiggedValid(c, y, d, S);
    WaitsNotItself(c, y);
    if j == y || WaitsFor(c, y, j) { Foreseen(c, s, y, d, S, j); }
    MoveStatus(c, s, j);
    MoveFlights(c, s, j);
    FatedAfter(c, s, Move(c, s, j), y, S, j);
  }

  lemma MoveQuiet(c: Config, s: State, y: Id, d: Id, S: set<Id>, j: Id)
    requires Rigged(c, y, d, S) && Fated(c, s, y, S) && Quiet(c, s, d) && Actionable(c, s, j)
    ensures Quiet(c, Move(c, s, j), d)
  {
    hide Rigged, Fated, StatusOf, WaitsFor, ShouldSkip, Move, AllDone;
    RiggedValid(c, y, d, S);
    if j == d { Foreseen(c, s, y, d, S, j); }
    ReadyNotAbove(c, s, d, j);
    MoveStatus(c, s, j);
    MoveFlights(c, s, j);
  }

  lemma ReadyNotAbove(c: Config, s: State, d: Id, j: Id)
    requires Quiet(c, s, d) && AllDone(c, s, j)
    ensures !WaitsFor(c, j, d)
  {
    if WaitsFor(c, j, d) {
      var m := WaitsFirst(c, j, d);
      hide WaitsFor;
    }
  }

  lemma {:induction false} TraceFated(c: Config, s: State, y: Id, d: Id, S: set<Id>, ms: seq<Look>)
    requires Rigged(c, y, d, S) && Fated(c, s, y, S) && Quiet(c, s, d) && Trace(c, s, ms)
    ensures Fated(c, Play(c, s, ms), y, S) && Quiet(c, Play(c, s, ms), d)
  {
    hide Rigged, Fated, Quiet, Move, Actionable;
    if ms != [] {
      TraceFated(c, s, y, d, S, ms[..|ms| - 1]);
      MoveFated(c, Play(c, s, ms[..|ms| - 1]), y, d, S, ms[|ms| - 1].job);
      MoveQuiet(c, Play(c, s, ms[..|ms| - 1]), y, d, S, ms[|ms| - 1].job);
    }
  }

  ghost predicate Held(c: Config, s: State, y: Id, d: Id, S: set<Id>) {
    Sound(c, s) && Settled(c, s, {}) && s.success && !s.halted && Fated(c, s, y, S) && Quiet(c, s, d)
  }

  lemma HeldAtStart(c: Config, y: Id, d: Id, S: set<Id>)
    requires Rigged(c, y, d, S)
    ensures Held(c, Start(c), y, d, S)
  {
    hide ValidConfig, Start, Sound, Settled, StatusOf, Rigged, Fated, Quiet;
    assert ValidConfig(c) by { RiggedValid(c, y, d, S); }
    StartSettled(c);
    StartStatuses(c);
    StartOrderly(c);
    OrderlyParts(c, Start(c));
    AtStart(c, Start(c), y, d, S);
  }

  lemma RiggedValid(c: Config, y: Id, d: Id, S: set<Id>)
    requires Rigged(c, y, d, S)
    ensures ValidConfig(c) && y in c.wf.jobs && y !in c.pre && d !in c.pre && d in DepsAt(c, y) && d !in S
    ensures WaitsFor(c, y, d)
  {
    WaitsDirectly(c, y, d);
  }

  lemma StartsBelow(c: Config, s: State, d: Id, x: Id)
    requires ValidConfig(c) && d !in c.pre && WaitsFor(c, x, d)
    requires forall j :: j in c.wf.jobs ==> StatusOf(s, j) == StartStatus(c, j)
    ensures StatusOf(s, x).Pending?
  {
    WaitsEarlier(c, x, d);
    var m := WaitsFirst(c, x, d);
    if m in c.pre { var _ := WaitsFirst(c, m, d); }
  }

  lemma AtStart(c: Config, s: State, y: Id, d: Id, S: set<Id>)
    requires Rigged(c, y, d, S) && Scoped(c, s) && Clean(s)
    requires forall f :: f in s.flights ==> StatusOf(s, f.job).Running?
    requires forall j :: j in c.wf.jobs ==> StatusOf(s, j) == StartStatus(c, j)
    ensures Fated(c, s, y, S) && Quiet(c, s, d)
  {
    RiggedValid(c, y, d, S);
    WaitsEarlier(c, y, d);
    forall x | WaitsFor(c, x, d) ensures StatusOf(s, x).Pending? { StartsBelow(c, s, d, x); }
    assert StatusOf(s, y).Pending?;
    StartsFated(c, s, y, d, S);
    assert !IsDone(StatusOf(s, d));
    hide Rigged, ValidConfig, Scoped, Clean, WaitsFor, StatusOf;
  }

  lemma StartsFated(c: Config, s: State, y: Id, d: Id, S: set<Id>)
    requires Rigged(c, y, d, S) && Scoped(c, s) && Clean(s) && StatusOf(s, y).Pending?
    requires forall f :: f in s.flights ==> StatusOf(s, f.job).Running?
    requires forall j :: j in c.wf.jobs ==> StatusOf(s, j) == StartStatus(c, j)
    ensures Fated(c, s, y, S)
  {
    hide Rigged, ValidConfig, WaitsFor;
    forall x | WaitsFor(c, y, x)
      ensures x !in c.pre ==>
          !StatusOf(s, x).Skipped? && (StatusOf(s, x).Running? || StatusOf(s, x).Succeeded? ==> x !in S)
      ensures StatusOf(s, x).Running? ==> x !in S
    {
      StartsFree(c, s, y, d, S, x);
    }
  }

  /** A job running from the start is not in S. */
  lemma StartsFree(c: Config, s: State, y: Id, d: Id, S: set<Id>, x: Id)
    requires Rigged(c, y, d, S) && WaitsFor(c, y, x)
    requires forall j :: j in c.wf.jobs ==> StatusOf(s, j) == StartStatus(c, j)
    ensures x !in c.pre ==> !StatusOf(s, x).Skipped? && !StatusOf(s, x).Succeeded?
    ensures StatusOf(s, x).Running? ==> x !in S && x !in c.pre
  {
    assert ValidConfig(c) && SkipSet(c, y, S);
    WaitsEarlier(c, y, x);
    hide Rigged, ValidConfig, HasGuard;
    assert StatusOf(s, x) == StartStatus(c, x);
  }

  // -- Everything else first -------------------------------------------------

  lemma SucceedFated(c: Config, s: State, f: Flight, bytes: Bytes, y: Id, d: Id, S: set<Id>)
    requires Rigged(c, y, d, S) && Fated(c, s, y, S) && Quiet(c, s, d) && f in s.flights && f.job !in c.pre
    requires s.inFlight > 0
    ensures var t := Succeed(s, f, 0, bytes); Fated(c, t, y, S) && (f.job != d ==> Quiet(c, t, d))
  {
    hide Rigged, ValidConfig, WaitsFor, Succeed, StatusOf;
    RiggedValid(c, y, d, S);
    SucceedStatus(s, f, 0, bytes);
    var t := Succeed(s, f, 0, bytes);
    OtherStatuses(s, t, f.job);
    assert forall g :: g in t.flights ==> g in s.flights;
  }

  lemma OtherStatuses(s: State, t: State, j: Id)
    requires j in t.statuses && t.statuses == s.statuses[j := t.statuses[j]]
    ensures forall x :: x != j ==> StatusOf(t, x) == StatusOf(s, x)
  {
  }

  lemma HeldStep(c: Config, s: State, f: Flight, y: Id, d: Id, S: set<Id>)
    requires Rigged(c, y, d, S) && Held(c, s, y, d, S) && f in s.flights && f.job != d
    ensures s.inFlight > 0 && Looping(s) && Held(c, Deliver(c, s, f, 0), y, d, S)
  {
    RiggedValid(c, y, d, S);
    var bytes := c.run(f.job, f.input).bytes;
    hide ValidConfig, Rigged, Sound, Settled, Fated, Quiet, ReleaseAll, Succeed, DependentsOf, Trace, Play, NoFailure,
      WaitsFor;
    InFlight(c, s, f);
    SucceedStatus(s, f, 0, bytes);
    SucceedSound(c, s, f, 0, bytes);
    SoundNoFailure(c, Succeed(s, f, 0, bytes));
    SucceedFated(c, s, f, bytes, y, d, S);
    forall x | x in DependentsOf(c, f.job) ensures x in c.wf.jobs { DependentsExact(c, f.job, x); }
    var ms := ReleaseAllTrace(c, Succeed(s, f, 0, bytes), DependentsOf(c, f.job));
    TraceFated(c, Succeed(s, f, 0, bytes), y, d, S, ms);
    assert WithinList(c, f.job, ms);
    ListedAreWaiters(c, f.job, ms);
    TraceWaits(c, Succeed(s, f, 0, bytes), f.job, ms);
    DeliverSettles(c, s, f, 0);
    assert c.run(f.job, f.input).Output? by { AlwaysOutput(c, y, d, S, f); }
  }

  lemma AlwaysOutput(c: Config, y: Id, d: Id, S: set<Id>, f: Flight)
    requires Rigged(c, y, d, S)
    ensures c.run(f.job, f.input).Output?
  {
  }

  lemma InFlight(c: Config, s: State, f: Flight)
    requires Sound(c, s) && f in s.flights
    ensures s.inFlight > 0 && f.job in c.wf.jobs && f.job !in c.pre
  {
    assert |s.flights| > 0;
  }

  /** Deliver whatever is not d until nothing else is left; this ends because every run does. */
  lemma {:induction false} HoldBack(c: Config, y: Id, d: Id, S: set<Id>, s: State, n: nat, bound: nat)
    returns (t: State, k: nat)
    requires Rigged(c, y, d, S) && Held(c, s, y, d, S) && Steps(c, Start(c), s, n)
    requires forall u, m: nat :: Steps(c, Start(c), u, m) ==> m <= bound
    ensures Held(c, t, y, d, S) && Steps(c, Start(c), t, k) && forall f :: f in t.flights ==> f.job == d
    decreases bound - n
  {
    hide Rigged, Held, Start, Deliver;
    t, k := s, n;
    if f :| f in s.flights && f.job != d {
      HeldStep(c, s, f, y, d, S);
      var u := Deliver(c, s, f, 0);
      assert Step(c, s, u);
      assert Steps(c, Start(c), u, n + 1);
      t, k := HoldBack(c, y, d, S, u, n + 1, bound);
    }
  }

  /** A job is done, or under way, or waits for something. */
  lemma SettledCases(c: Config, s: State, todo: set<Id>, x: Id)
    requires Sound(c, s) && Settled(c, s, todo) && s.success && x in c.wf.jobs && x !in todo
    ensures StatusOf(s, x).Succeeded? || StatusOf(s, x).Skipped?
         || (StatusOf(s, x).Running? && exists i :: Flight(x, i) in s.flights)
         || (StatusOf(s, x).Pending? && exists m :: m in DepsAt(c, x) && !IsDone(StatusOf(s, m)))
  {
    hide StoreMirrors;
    assert x in s.statuses;
  }

  /** When only d is left running, everything that does not wait for it is done. */
  lemma {:induction false} OthersDone(c: Config, s: State, d: Id, x: Id)
    requires ValidConfig(c) && Sound(c, s) && Settled(c, s, {}) && s.success
    requires forall f :: f in s.flights ==> f.job == d
    requires x in c.wf.jobs && x != d && !WaitsFor(c, x, d)
    ensures IsDone(StatusOf(s, x))
    decreases Position(c.dag.topoOrder, Named(c, x))
  {
    ReusedDone(c, s);
    hide ValidConfig, Sound, Settled, WaitsFor;
    SettledCases(c, s, {}, x);
    if StatusOf(s, x).Pending? {
      var m :| m in DepsAt(c, x) && !IsDone(StatusOf(s, m));
      DepEarlier(c, x, m);
      WaitsDirectly(c, x, m);
      if WaitsFor(c, m, d) { WaitsTransitive(c, x, m, d); }
      OthersDone(c, s, d, m);
    }
  }

  lemma HeldIsRunning(c: Config, s: State, y: Id, d: Id, S: set<Id>) returns (f: Flight)
    requires Rigged(c, y, d, S) && Held(c, s, y, d, S) && forall f :: f in s.flights ==> f.job == d
    ensures f in s.flights && f.job == d
  {
    RiggedValid(c, y, d, S);
    WaitsEarlier(c, y, d);
    assert !IsDone(StatusOf(s, d));
    hide ValidConfig, Rigged, Sound, Settled, Fated, Quiet, WaitsFor;
    SettledCases(c, s, {}, d);
    if StatusOf(s, d).Pending? {
      var m :| m in DepsAt(c, d) && !IsDone(StatusOf(s, m));
      DepEarlier(c, d, m);
      WaitsDirectly(c, d, m);
      WaitsNotItself(c, d);
      if WaitsFor(c, m, d) { WaitsTransitive(c, d, m, d); }
      OthersDone(c, s, d, m);
    }
    var i :| Flight(d, i) in s.flights;
    f := Flight(d, i);
  }

  // -- The success of d ------------------------------------------------------

  lemma {:induction false} TraceStarts(c: Config, s: State, ms: seq<Look>, x: Id)
    ensures StatusOf(Play(c, s, ms), x).Running? ==>
        StatusOf(s, x).Running? || Play(c, s, ms).started[x] > s.started[x]
    ensures Play(c, s, ms).started[x] >= s.started[x]
  {
    hide Serialize, ShouldSkip, LaunchInput;
    if ms != [] { TraceStarts(c, s, ms[..|ms| - 1], x); }
  }

  function Copies(y: Id, n: nat): (r: seq<Id>)
    ensures |r| == n && forall i :: 0 <= i < n ==> r[i] == y
  {
    seq(n, _ => y)
  }

  function Others(ds: seq<Id>, y: Id): (r: seq<Id>)
    ensures y !in r && forall x :: x in r ==> x in ds
  {
    if ds == [] then []
    else if ds[|ds| - 1] == y then Others(ds[..|ds| - 1], y)
    else Others(ds[..|ds| - 1], y) + [ds[|ds| - 1]]
  }

  lemma {:induction false} OthersCount(ds: seq<Id>, y: Id, x: Id)
    ensures multiset(Others(ds, y))[x] == if x == y then 0 else multiset(ds)[x]
  {
    if ds != [] {
      OthersCount(ds[..|ds| - 1], y, x);
      assert ds == ds[..|ds| - 1] + [ds[|ds| - 1]];
    }
  }

  lemma {:induction false} CopiesCount(y: Id, n: nat, x: Id)
    ensures multiset(Copies(y, n))[x] == if x == y then n else 0
  {
    if n > 0 {
      CopiesCount(y, n - 1, x);
      assert Copies(y, n) == Copies(y, n - 1) + [y];
    }
  }

  /** y comes last on d's waiter list. */
  ghost predicate Last(c: Config, y: Id, d: Id) {
    DependentsOf(c, d) == Others(DependentsOf(c, d), y) + Copies(y, multiset(DependentsOf(c, d))[y])
  }

  /** The state after all other waiters have been looked at. */
  ghost predicate BeforeY(c: Config, t: State, y: Id, d: Id, S: set<Id>, todo: set<Id>) {
    && Sound(c, t) && t.success && Fated(c, t, y, S) && Settled(c, t, todo)
    && StatusOf(t, d).Succeeded?
    && forall m :: m in c.wf.jobs && m != d && !WaitsFor(c, m, d) ==> IsDone(StatusOf(t, m))
  }

  /** By then everything between y and d has been skipped. */
  lemma {:induction false} BetweenAreSkipped(c: Config, t: State, y: Id, d: Id, S: set<Id>, todo: set<Id>, x: Id)
    requires Rigged(c, y, d, S) && BeforeY(c, t, y, d, S, todo) && todo <= {y}
    requires WaitsFor(c, y, x) && WaitsFor(c, x, d) && x in c.wf.jobs && ValidConfig(c)
    ensures StatusOf(t, x).Skipped?
    decreases Position(c.dag.topoOrder, Named(c, x))
  {
    RiggedBetween(c, y, d, S, x);
    var _ := WaitsFirst(c, x, d);
    WaitsNotItself(c, y);
    hide ValidConfig, Rigged, Sound, Settled, WaitsFor, StatusOf;
    forall m | m in DepsAt(c, x) ensures IsDone(StatusOf(t, m)) {
      DepEarlier(c, x, m);
      WaitsDirectly(c, x, m);
      WaitsTransitive(c, y, x, m);
      if m != d && WaitsFor(c, m, d) { BetweenAreSkipped(c, t, y, d, S, todo, m); }
    }
    SettledCases(c, t, todo, x);
  }

  lemma RiggedBetween(c: Config, y: Id, d: Id, S: set<Id>, x: Id)
    requires Rigged(c, y, d, S) && WaitsFor(c, y, x) && WaitsFor(c, x, d)
    ensures x in S
  {
  }

  lemma YIsReady(c: Config, t: State, y: Id, d: Id, S: set<Id>, todo: set<Id>)
    requires Rigged(c, y, d, S) && BeforeY(c, t, y, d, S, todo) && todo <= {y}
    ensures Actionable(c, t, y) && !ShouldSkip(c, t, y)
  {
    RiggedValid(c, y, d, S);
    forall m | m in DepsAt(c, y) ensures IsDone(StatusOf(t, m)) {
      DepEarlier(c, y, m);
      WaitsDirectly(c, y, m);
      if m != d && WaitsFor(c, m, d) { BetweenAreSkipped(c, t, y, d, S, todo, m); }
    }
    hide ValidConfig, Rigged, BeforeY, WaitsFor, ShouldSkip;
    assert Fated(c, t, y, S) by { BeforeParts(c, t, y, d, S, todo); }
    Foreseen(c, t, y, d, S, y);
  }

  lemma BeforeParts(c: Config, t: State, y: Id, d: Id, S: set<Id>, todo: set<Id>)
    requires BeforeY(c, t, y, d, S, todo)
    ensures Sound(c, t) && t.success && Fated(c, t, y, S) && Settled(c, t, todo)
  {
  }

  /** y stays ready when it is started. */
  lemma StartAgain(c: Config, t: State, y: Id, d: Id, S: set<Id>)
    requires Rigged(c, y, d, S) && NoFailure(t) && Fated(c, t, y, S) && Actionable(c, t, y)
    ensures var u := Release(c, t, y);
            NoFailure(u) && Fated(c, u, y, S) && Actionable(c, u, y) && u.started[y] == t.started[y] + 1
  {
    RiggedValid(c, y, d, S);
    NotOwnDependency(c, y);
    hide Rigged, ValidConfig, Fated, ShouldSkip, LaunchInput, Serialize, WaitsFor;
    Foreseen(c, t, y, d, S, y);
    ReleaseIsMove(c, t, y);
    MoveFated(c, t, y, d, S, y);
    MoveStatus(c, t, y);
  }

  /** Every copy of y on the list starts it once. */
  lemma {:induction false} CopiesStart(c: Config, s: State, front: seq<Id>, y: Id, d: Id, S: set<Id>, n: nat)
    requires Rigged(c, y, d, S)
    requires var t := ReleaseAll(c, s, front); NoFailure(t) && Fated(c, t, y, S) && Actionable(c, t, y)
    ensures var u := ReleaseAll(c, s, front + Copies(y, n));
            && NoFailure(u) && Fated(c, u, y, S) && Actionable(c, u, y)
            && u.started[y] == ReleaseAll(c, s, front).started[y] + n
  {
    hide Rigged, NoFailure, Fated, Actionable, Release;
    if n == 0 {
      assert front + Copies(y, 0) == front;
    } else {
      CopiesStart(c, s, front, y, d, S, n - 1);
      var ds := front + Copies(y, n);
      assert ds[..|ds| - 1] == front + Copies(y, n - 1);
      StartAgain(c, ReleaseAll(c, s, front + Copies(y, n - 1)), y, d, S);
    }
  }

  lemma SettledAbove(c: Config, t: State, y: Id, d: Id)
    requires ValidConfig(c) && y !in c.pre && y in c.wf.jobs && Last(c, y, d)
    requires Settled(c, t, {} + Elems(DependentsOf(c, d)))
    requires forall x :: WaitsFor(c, x, d) ==> StatusOf(t, x).Pending?
    ensures var todo: set<Id> := if SomeWaits(c, y, d) then {} else {y};
            Settled(c, t, todo + Elems(Others(DependentsOf(c, d), y)))
  {
    hide ValidConfig, WaitsFor;
    var ds := DependentsOf(c, d);
    var front := Others(ds, y);
    forall j | j in ds && j != y ensures j in Elems(front) {
      OthersCount(ds, y, j);
      assert multiset(ds)[j] > 0;
    }
    if e :| e in DepsAt(c, y) && WaitsFor(c, e, d) { assert !IsDone(StatusOf(t, e)); }
  }

  /** d's success, seen from y. */
  ghost predicate Landed(c: Config, r: State, y: Id, d: Id, S: set<Id>) {
    && Sound(c, r) && r.success && Fated(c, r, y, S) && StatusOf(r, d).Succeeded?
    && (forall x :: WaitsFor(c, x, d) ==> StatusOf(r, x).Pending?)
    && (forall m :: m in c.wf.jobs && m != d && !WaitsFor(c, m, d) ==> IsDone(StatusOf(r, m)))
    && Settled(c, r, {} + Elems(DependentsOf(c, d)))
  }

  lemma HeldLands(c: Config, s: State, f: Flight, y: Id, d: Id, S: set<Id>)
    requires Rigged(c, y, d, S) && Held(c, s, y, d, S)
    requires (forall g :: g in s.flights ==> g.job == d) && f in s.flights && f.job == d
    ensures s.inFlight > 0 && Landed(c, Succeed(s, f, 0, c.run(f.job, f.input).bytes), y, d, S)
  {
    hide ValidConfig, Rigged, Sound, Settled, Fated, Succeed, DependentsOf, WaitsFor, StatusOf;
    RiggedValid(c, y, d, S);
    InFlight(c, s, f);
    AlwaysOutput(c, y, d, S, f);
    var bytes := c.run(f.job, f.input).bytes;
    var r := Succeed(s, f, 0, bytes);
    SucceedStatus(s, f, 0, bytes);
    OtherStatuses(s, r, d);
    SucceedSound(c, s, f, 0, bytes);
    SucceedFated(c, s, f, bytes, y, d, S);
    SucceedWakes(c, s, f, 0, bytes);
    WaitsNotItself(c, d);
    forall m | m in c.wf.jobs && m != d && !WaitsFor(c, m, d) ensures IsDone(StatusOf(r, m)) {
      OthersDone(c, s, d, m);
    }
  }

  /** After the other waiters have been looked at. */
  lemma OthersLookedAt(c: Config, r: State, y: Id, d: Id, S: set<Id>) returns (t: State)
    requires Rigged(c, y, d, S) && Landed(c, r, y, d, S) && Last(c, y, d)
    ensures t == ReleaseAll(c, r, Others(DependentsOf(c, d), y))
    ensures BeforeY(c, t, y, d, S, if SomeWaits(c, y, d) then {} else {y})
    ensures StatusOf(t, y).Running? ==> t.started[y] > 0
    ensures StatusOf(t, y).Pending? || StatusOf(t, y).Running? || StatusOf(t, y).Skipped?
  {
    hide ValidConfig, Rigged, Sound, Settled, Fated, ReleaseAll, DependentsOf, Trace, Play, NoFailure, WaitsFor,
      StatusOf,
      Last, SomeWaits;
    RiggedValid(c, y, d, S);
    WaitsEarlier(c, y, d);
    var front := Others(DependentsOf(c, d), y);
    var todo: set<Id> := if SomeWaits(c, y, d) then {} else {y};
    SettledAbove(c, r, y, d);
    forall x | x in front ensures x in c.wf.jobs && d in DepsAt(c, x) { DependentsExact(c, d, x); }
    ReleaseAllSettles(c, r, front, todo);
    t := ReleaseAll(c, r, front);
    SoundNoFailure(c, r);
    var ms := ReleaseAllTrace(c, r, front);
    FrontWaits(c, d, front, ms);
    TraceWaits(c, r, d, ms);
    TraceFatedOnly(c, r, y, d, S, ms);
    TraceStarts(c, r, ms, y);
    WaitsNotItself(c, d);
    TraceKinds(c, r, ms, y);
  }

  lemma FrontWaits(c: Config, d: Id, front: seq<Id>, ms: seq<Look>)
    requires forall x :: x in front ==> d in DepsAt(c, x)
    requires forall x :: multiset(ms)[Listed(x)] <= multiset(front)[x]
    ensures ListedWait(c, d, ms)
  {
    forall m | m in ms && m.Listed? ensures d in DepsAt(c, m.job) { assert multiset(ms)[Listed(m.job)] > 0; }
  }

  lemma {:induction false} TraceFatedOnly(c: Config, s: State, y: Id, d: Id, S: set<Id>, ms: seq<Look>)
    requires Rigged(c, y, d, S) && Fated(c, s, y, S) && Trace(c, s, ms)
    ensures Fated(c, Play(c, s, ms), y, S)
  {
    hide Rigged, Fated, Move, Actionable;
    if ms != [] {
      TraceFatedOnly(c, s, y, d, S, ms[..|ms| - 1]);
      MoveFated(c, Play(c, s, ms[..|ms| - 1]), y, d, S, ms[|ms| - 1].job);
    }
  }

  lemma {:induction false} TraceKinds(c: Config, s: State, ms: seq<Look>, x: Id)
    ensures var st := StatusOf(Play(c, s, ms), x); st == StatusOf(s, x) || st.Running? || st.Skipped?
  {
    hide Move, StatusOf;
    if ms != [] {
      TraceKinds(c, s, ms[..|ms| - 1], x);
      MoveStatus(c, Play(c, s, ms[..|ms| - 1]), ms[|ms| - 1].job);
    }
  }

  /** Let d finish last, and y come last among its waiters: y is started twice. */
  lemma LastSuccessStartsTwice(c: Config, s: State, f: Flight, y: Id, d: Id, S: set<Id>)
    requires Rigged(c, y, d, S) && Held(c, s, y, d, S) && Last(c, y, d)
    requires (forall g :: g in s.flights ==> g.job == d) && f in s.flights && f.job == d
    ensures s.inFlight > 0 && Looping(s) && Deliver(c, s, f, 0).started[y] > 1
  {
    AlwaysOutput(c, y, d, S, f);
    RiggedValid(c, y, d, S);
    ListedAsOften(c, d, y);
    HeldLands(c, s, f, y, d, S);
    var t := OthersLookedAt(c, Succeed(s, f, 0, c.run(f.job, f.input).bytes), y, d, S);
    var todo: set<Id> := if SomeWaits(c, y, d) then {} else {y};
    var r, n := Succeed(s, f, 0, c.run(f.job, f.input).bytes), multiset(DependentsOf(c, d))[y];
    YIsReady(c, t, y, d, S, todo);
    BeforeParts(c, t, y, d, S, todo);
    SoundNoFailure(c, t);
    CopiesStart(c, r, Others(DependentsOf(c, d), y), y, d, S, n);
    SecondOccasion(c, y, d, S);
    hide Rigged, ValidConfig, Held, ReleaseAll, Succeed, Fated, Sound, BeforeY, NoFailure, ShouldSkip, Settled;
    if SomeWaits(c, y, d) {
      SettledCases(c, t, todo, y);
      assert !StatusOf(t, y).Pending?;
      NotSkipped(c, t, y, S);
    }
    assert Looping(s) by { HeldLoops(c, s, y, d, S); }
    DeliverIsRelease(c, s, f);
  }

  lemma DeliverIsRelease(c: Config, s: State, f: Flight)
    requires s.inFlight > 0 && s.success && c.run(f.job, f.input).Output?
    ensures Deliver(c, s, f, 0) == ReleaseAll(c, Succeed(s, f, 0, c.run(f.job, f.input).bytes), DependentsOf(c, f.job))
  {
    hide ReleaseAll, DependentsOf;
  }

  lemma HeldLoops(c: Config, s: State, y: Id, d: Id, S: set<Id>)
    requires Held(c, s, y, d, S) && s.inFlight > 0
    ensures Looping(s) && s.success
  {
  }

  lemma NotSkipped(c: Config, t: State, y: Id, S: set<Id>)
    requires Fated(c, t, y, S)
    ensures !StatusOf(t, y).Skipped?
  {
  }

  lemma SecondOccasion(c: Config, y: Id, d: Id, S: set<Id>)
    requires Rigged(c, y, d, S)
    ensures multiset(DepsAt(c, y))[d] > 1 || SomeWaits(c, y, d)
    ensures multiset(DepsAt(c, y))[d] > 0
  {
  }

  lemma RiggedStartsTwice(c: Config, y: Id, d: Id, S: set<Id>)
    requires Rigged(c, y, d, S) && Last(c, y, d)
    ensures !StartsOnce(c)
  {
    hide Rigged, ValidConfig, Start, Held, Last, Deliver;
    RiggedValid(c, y, d, S);
    HeldAtStart(c, y, d, S);
    var bound := EveryRunEnds(c);
    assert Steps(c, Start(c), Start(c), 0);
    var s, n := HoldBack(c, y, d, S, Start(c), 0, bound);
    var f := HeldIsRunning(c, s, y, d, S);
    LastSuccessStartsTwice(c, s, f, y, d, S);
    var t := Deliver(c, s, f, 0);
    assert Step(c, s, t);
    assert Steps(c, Start(c), t, n + 1);
    assert Reachable(c, t) && t.started[y] > 1;
  }

  // -- The exact condition ---------------------------------------------------

  ghost function Rig(c: Config, y: Id, d: Id, S: set<Id>): Config {
    var ds := DependentsOf(c, d);
    c.(wf := c.wf.(jobs := map j | j in c.wf.jobs ::
         if c.wf.jobs[j].whenExpr.None? then c.wf.jobs[j]
         else c.wf.jobs[j].(whenExpr := Some(if j in S && WaitsFor(c, y, j) then NEVER else ALWAYS))),
       dag := c.dag.(dependents := c.dag.dependents[d := Others(ds, y) + Copies(y, multiset(ds)[y])]),
       run := (_, _) => Output(""))
  }

  lemma RigDag(c: Config, y: Id, d: Id, S: set<Id>)
    requires c.dag.Valid() && d in c.dag.deps
    ensures Rig(c, y, d, S).dag.Valid() && Last(Rig(c, y, d, S), y, d)
  {
    hide Others, IsTopoOrder, Occurrences, Rig, WaitsFor;
    var ds, r := DependentsOf(c, d), Rig(c, y, d, S);
    var ds' := Others(ds, y) + Copies(y, multiset(ds)[y]);
    SameWaiters(ds, y);
    OthersTwice(ds, y, multiset(ds)[y]);
    RigDagIs(c, y, d, S);
    assert DependentsOf(r, d) == ds';
  }

  lemma RigDagIs(c: Config, y: Id, d: Id, S: set<Id>)
    ensures var ds := DependentsOf(c, d);
            Rig(c, y, d, S).dag
              == c.dag.(dependents := c.dag.dependents[d := Others(ds, y) + Copies(y, multiset(ds)[y])])
  {
    hide Others, WaitsFor;
  }

  lemma SameWaiters(ds: seq<Id>, y: Id)
    ensures multiset(Others(ds, y) + Copies(y, multiset(ds)[y])) == multiset(ds)
  {
    hide Others;
    var ds' := Others(ds, y) + Copies(y, multiset(ds)[y]);
    forall x ensures multiset(ds')[x] == multiset(ds)[x] {
      OthersCount(ds, y, x);
      CopiesCount(y, multiset(ds)[y], x);
    }
  }

  lemma RigJobs(c: Config, y: Id, d: Id, S: set<Id>)
    ensures var r := Rig(c, y, d, S);
            && r.wf.jobs.Keys == c.wf.jobs.Keys && r.wf.order == c.wf.order && DepsOf(r.wf.jobs) == DepsOf(c.wf.jobs)
            && r.children == c.children && r.pre == c.pre && r.preOrder == c.preOrder && r.rootOrder == c.rootOrder
            && r.dag.deps == c.dag.deps && RootSet(r.dag) == RootSet(c.dag)
            && (forall j :: HasGuard(c, j) <==> HasGuard(r, j))
            && forall j :: j in c.wf.jobs ==>
                 && r.wf.jobs[j].failFast == c.wf.jobs[j].failFast && r.wf.jobs[j].inputFrom == c.wf.jobs[j].inputFrom
                 && r.wf.jobs[j].dependsOn == c.wf.jobs[j].dependsOn
  {
    hide WaitsFor, Others;
  }

  lemma RigIsValid(c: Config, y: Id, d: Id, S: set<Id>)
    requires ValidConfig(c) && Scenario(c, y, d, S)
    ensures SameShape(c, Rig(c, y, d, S)) && Last(Rig(c, y, d, S), y, d)
  {
    hide Rig, HasGuard, Last, IsTopoOrder, NoDup, Elems, DependentsOf, DepsOf, RootSet;
    ScenarioKnows(c, y, d, S);
    hide Scenario, Dag.Valid;
    RigDag(c, y, d, S);
    RigJobs(c, y, d, S);
  }

  lemma ScenarioKnows(c: Config, y: Id, d: Id, S: set<Id>)
    requires ValidConfig(c) && Scenario(c, y, d, S)
    ensures d in c.dag.deps && c.dag.Valid()
  {
    DependentsExact(c, d, y);
  }

  lemma {:induction false} OthersTwice(ds: seq<Id>, y: Id, n: nat)
    ensures Others(Others(ds, y) + Copies(y, n), y) == Others(ds, y)
  {
    var all := Others(ds, y) + Copies(y, n);
    if n > 0 {
      OthersTwice(ds, y, n - 1);
      assert all[..|all| - 1] == Others(ds, y) + Copies(y, n - 1);
    } else {
      assert all == Others(ds, y);
      OthersFree(Others(ds, y), y);
    }
  }

  lemma {:induction false} OthersFree(ds: seq<Id>, y: Id)
    requires y !in ds
    ensures Others(ds, y) == ds
  {
    if ds != [] {
      assert ds == ds[..|ds| - 1] + [ds[|ds| - 1]];
      OthersFree(ds[..|ds| - 1], y);
    }
  }

  lemma RigIsRigged(c: Config, y: Id, d: Id, S: set<Id>)
    requires ValidConfig(c) && Scenario(c, y, d, S)
    ensures Rigged(Rig(c, y, d, S), y, d, S)
  {
    hide ValidConfig, Scenario, WaitsFor, Rig;
    var r := Rig(c, y, d, S);
    RigIsValid(c, y, d, S);
    ScenarioShape(c, r, y, d, S);
    WaitingShape(c, r);
    RigGuards(c, y, d, S);
  }

  lemma RigGuards(c: Config, y: Id, d: Id, S: set<Id>)
    ensures var r := Rig(c, y, d, S);
            && (forall j :: HasGuard(r, j) ==>
                  r.wf.jobs[j].whenExpr == Some(if j in S && WaitsFor(c, y, j) then NEVER else ALWAYS))
            && forall j, b :: r.run(j, b).Output?
  {
    hide WaitsFor, Others;
  }

  /** Jobs start at most once, whatever the guards say, whatever the components do and
      however events and waiter lists are ordered, exactly if nothing is harmful. */
  lemma AtMostOnceExactly(c: Config)
    requires ValidConfig(c)
    ensures (forall d :: SameShape(c, d) ==> StartsOnce(d)) <==> forall y, d :: !Harmful(c, y, d)
  {
    hide StartsOnce, ValidConfig, SameShape, Scenario, Rigged, Last;
    if y, d :| Harmful(c, y, d) {
      var S: set<Id> :| Scenario(c, y, d, S);
      RigIsValid(c, y, d, S);
      RigIsRigged(c, y, d, S);
      RiggedStartsTwice(Rig(c, y, d, S), y, d, S);
    } else {
      forall d | SameShape(c, d) ensures StartsOnce(d) {
        PlainShape(c, d);
        PlainStartsOnce(d);
      }
    }
  }

  lemma ShapeBack(c: Config, d: Config)
    requires ValidConfig(c) && SameShape(c, d)
    ensures SameShape(d, c) && ValidConfig(d)
  {
    hide ValidConfig;
  }

  lemma PlainShape(c: Config, d: Config)
    requires ValidConfig(c) && SameShape(c, d) && forall y, x :: !Harmful(c, y, x)
    ensures Plain(d)
  {
    hide ValidConfig, Scenario, SameShape;
    ShapeBack(c, d);
    forall y, x ensures !Harmful(d, y, x) {
      if Harmful(d, y, x) {
        var S: set<Id> :| Scenario(d, y, x, S);
        assert !Harmful(c, y, x);
        assert !Scenario(c, y, x, S);
        ScenarioShape(d, c, y, x, S);
      }
    }
  }

  /** The smallest guarded shape that fails: y and x both wait for d, y waits for x too,
      and nothing else either of them lists waits for d. */
  lemma ShortcutIsHarmful(c: Config, d: Id, x: Id, y: Id)
    requires ValidConfig(c) && HasGuard(c, x) && HasGuard(c, y) && x !in c.pre && y !in c.pre && d !in c.pre
    requires d in DepsAt(c, x) && d in DepsAt(c, y) && x in DepsAt(c, y)
    requires !SomeWaits(c, x, d) && forall e :: e in DepsAt(c, y) && WaitsFor(c, e, d) ==> e == x
    ensures Scenario(c, y, d, {x}) && Harmful(c, y, d)
  {
    hide ValidConfig, HasGuard, AllReused, DepsAt, WaitsFor;
    NotAllReused(c, d, x);
    NotAllReused(c, d, y);
    NotOwnDependency(c, x);
    WaitsDirectly(c, x, d);
    forall z | WaitsFor(c, y, z) && WaitsFor(c, z, d) ensures z == x { OnlyBetween(c, d, x, y, z); }
    forall z | WaitsFor(c, y, z) && z !in c.pre ensures x !in DepsAt(c, z) { NobodyBetween(c, d, x, y, z); }
    OneSkipped(c, y, x);
    hide SkipSet;
    assert SomeWaits(c, y, d);
    assert Scenario(c, y, d, {x});
  }

  lemma OneSkipped(c: Config, y: Id, x: Id)
    requires HasGuard(c, x) && !AllReused(c, x)
    requires forall z :: WaitsFor(c, y, z) && z !in c.pre ==> x !in DepsAt(c, z)
    ensures SkipSet(c, y, {x})
  {
    hide AllReused, DepsAt, WaitsFor, HasGuard;
  }

  lemma NotAllReused(c: Config, d: Id, x: Id)
    requires ValidConfig(c) && d in DepsAt(c, x) && d !in c.pre
    ensures !AllReused(c, x) && x in c.wf.jobs
  {
    DependentsExact(c, d, x);
    hide ValidConfig;
  }

  lemma NobodyBetween(c: Config, d: Id, x: Id, y: Id, z: Id)
    requires ValidConfig(c) && WaitsFor(c, y, z) && z !in c.pre && WaitsFor(c, x, d) && !SomeWaits(c, x, d)
    requires forall e :: e in DepsAt(c, y) && WaitsFor(c, e, d) ==> e == x
    ensures x !in DepsAt(c, z)
  {
    hide ValidConfig, WaitsFor;
    if x in DepsAt(c, z) {
      WaitsThrough(c, z, x, d);
      OnlyBetween(c, d, x, y, z);
      NotOwnDependency(c, x);
    }
  }

  lemma OnlyBetween(c: Config, d: Id, x: Id, y: Id, z: Id)
    requires WaitsFor(c, y, z) && WaitsFor(c, z, d) && !SomeWaits(c, x, d)
    requires forall e :: e in DepsAt(c, y) && WaitsFor(c, e, d) ==> e == x
    ensures z == x
  {
    hide WaitsFor;
    var e := WaitsFirst(c, y, z);
    if e != z {
      WaitsTransitive(c, e, z, d);
      var m := WaitsFirst(c, x, z);
      if m != z { WaitsTransitive(c, m, z, d); }
    }
  }
}
