/** When jobs start once and in order, guards included, and what that entails. */
module Discipline {
  import opened Collections
  import opened Graph
  import opened Workflows
  import opened Dags
  import opened States
  import opened Scheduler
  import opened Settling
  import opened Moves

  // -- How a success could start a job twice ---------------------------------

  /** S could be the skipped ones among the jobs y waits for: a reused job is not skipped,
      nor one whose dependencies are all reused, since no guard is looked at then; without
      a guard a job is skipped exactly if a dependency is. */
  ghost predicate SkipSet(c: Config, y: Id, S: set<Id>) {
    forall x :: WaitsFor(c, y, x) && x !in c.pre ==>
      && (x in S ==> !AllReused(c, x))
      && (!HasGuard(c, x) ==> (x in S <==> exists m :: m in DepsAt(c, x) && m in S))
  }

  /** y is ready as soon as d succeeds, everything between the two being skipped at once,
      and there is a second occasion to look at it: d is listed again, or a cascade comes by. */
  ghost predicate Scenario(c: Config, y: Id, d: Id, S: set<Id>) {
    && y in c.wf.jobs && y !in c.pre && d !in c.pre && d in DepsAt(c, y) && d !in S
    && SkipSet(c, y, S) && S !! c.pre.Keys
    && (forall x :: WaitsFor(c, y, x) && WaitsFor(c, x, d) ==> x in S)
    && (HasGuard(c, y) || forall m :: m in DepsAt(c, y) ==> m !in S)
    && (multiset(DepsAt(c, y))[d] > 1 || exists e :: e in DepsAt(c, y) && WaitsFor(c, e, d))
  }

  ghost predicate Harmful(c: Config, y: Id, d: Id) {
    exists S: set<Id> :: Scenario(c, y, d, S)
  }

  /** (Module Repeats shows that this is exactly what starting at most once needs.) */
  ghost predicate Plain(c: Config) {
    ValidConfig(c) && forall y, d :: !Harmful(c, y, d)
  }

  lemma PlainValid(c: Config)
    requires Plain(c)
    ensures ValidConfig(c)
  {
  }

  ghost predicate SomeWaits(c: Config, y: Id, d: Id) {
    exists e :: e in DepsAt(c, y) && WaitsFor(c, e, d)
  }

  /** Without a guard: d is listed twice and nothing else y lists waits for d. */
  lemma UnguardedHarm(c: Config, y: Id, d: Id)
    requires ValidConfig(c) && !HasGuard(c, y)
    ensures Harmful(c, y, d) <==>
        y in c.wf.jobs && y !in c.pre && d !in c.pre && multiset(DepsAt(c, y))[d] > 1 && !SomeWaits(c, y, d)
  {
    hide ValidConfig;
    if Harmful(c, y, d) {
      var S :| Scenario(c, y, d, S);
      forall e | e in DepsAt(c, y) ensures !WaitsFor(c, e, d) {
        WaitsDirectly(c, y, e);
      }
    }
    if y in c.wf.jobs && y !in c.pre && d !in c.pre && multiset(DepsAt(c, y))[d] > 1 && !SomeWaits(c, y, d) {
      forall x | WaitsFor(c, y, x) ensures !WaitsFor(c, x, d) {
        if WaitsFor(c, x, d) {
          var m := WaitsFirst(c, y, x);
          if m != x { WaitsTransitive(c, m, x, d); }
        }
      }
      assert d in DepsAt(c, y);
      assert SkipSet(c, y, {});
      assert Scenario(c, y, d, {});
    }
  }

  /** With a guard: distinct dependencies none of which waits for another are harmless. */
  ghost predicate Spread(c: Config, y: Id) {
    NoDup(DepsAt(c, y)) && forall d :: d in DepsAt(c, y) ==> !SomeWaits(c, y, d)
  }

  /** A condition that can be read off the workflow file. */
  lemma SpreadIsPlain(c: Config)
    requires ValidConfig(c)
    requires forall y :: y in c.wf.jobs && y !in c.pre ==>
        if HasGuard(c, y) then Spread(c, y)
        else forall d :: d !in c.pre && multiset(DepsAt(c, y))[d] > 1 ==> SomeWaits(c, y, d)
    ensures Plain(c)
  {
    hide ValidConfig, SkipSet;
    forall y, d ensures !Harmful(c, y, d) {
      if y in c.wf.jobs && y !in c.pre {
        if HasGuard(c, y) { NoDupCount(DepsAt(c, y), d); } else { UnguardedHarm(c, y, d); }
      }
    }
  }

  // -- The invariant ---------------------------------------------------------

  ghost predicate HasStarted(c: Config, s: State, j: Id) {
    j in c.wf.jobs && j !in c.pre && !StatusOf(s, j).Pending? && !StatusOf(s, j).Skipped?
  }

  function RunningIn(s: State): set<Id> {
    set j | j in s.statuses && s.statuses[j].Running?
  }

  /** A job that has left `Pending` has only finished dependencies. */
  ghost predicate Ordered(c: Config, s: State) {
    forall j, d :: j in c.wf.jobs && j !in c.pre && !StatusOf(s, j).Pending? && d in DepsAt(c, j) ==>
          IsDone(StatusOf(s, d))
  }

  ghost predicate StartedOnce(c: Config, s: State) {
    && (forall j :: s.started[j] == if HasStarted(c, s, j) then 1 else 0)
    && (forall f :: f in s.flights ==> StatusOf(s, f.job).Running?)
    && |RunningIn(s)| == s.inFlight
  }

  /** Without a guard a job is skipped exactly if one of its dependencies is; a job that
      waited for reused jobs only is never skipped. */
  ghost predicate SkipsExact(c: Config, s: State) {
    && (forall j :: j in c.wf.jobs && j !in c.pre && !StatusOf(s, j).Pending? && !HasGuard(c, j) ==>
          (StatusOf(s, j).Skipped? <==> exists d :: d in DepsAt(c, j) && StatusOf(s, d).Skipped?))
    && (forall j :: j in c.wf.jobs && StatusOf(s, j).Skipped? ==> !AllReused(c, j))
  }

  ghost predicate Orderly(c: Config, s: State) {
    Sound(c, s) && Ordered(c, s) && StartedOnce(c, s) && SkipsExact(c, s)
  }

  lemma OrderlyParts(c: Config, s: State)
    requires Orderly(c, s)
    ensures Sound(c, s) && Counted(c, s) && Scoped(c, s) && Clean(s)
    ensures Ordered(c, s) && StartedOnce(c, s) && SkipsExact(c, s)
    ensures forall f :: f in s.flights ==> StatusOf(s, f.job).Running?
  {
  }

  // -- One move --------------------------------------------------------------

  /** A first decision about a pending job, or a skipped job being skipped again. */
  ghost predicate ReadyMove(c: Config, s: State, j: Id) {
    && Actionable(c, s, j) && !AllReused(c, j)
    && (StatusOf(s, j).Pending? || (StatusOf(s, j).Skipped? && ShouldSkip(c, s, j)))
  }

  /** j gets a new status once its dependencies are done. */
  ghost predicate Changes(c: Config, s: State, t: State, j: Id) {
    && j in c.wf.jobs && j !in c.pre && AllDone(c, s, j) && j !in DepsAt(c, j)
    && t.statuses == s.statuses[j := StatusOf(t, j)]
    && (StatusOf(s, j).Pending? || (StatusOf(s, j).Skipped? && StatusOf(t, j).Skipped?))
    && (StatusOf(t, j).Running? || StatusOf(t, j).Skipped?)
  }

  lemma ChangeKeepsOrder(c: Config, s: State, t: State, j: Id)
    requires Ordered(c, s) && Changes(c, s, t, j)
    ensures Ordered(c, t)
  {
    forall k, d | k in c.wf.jobs && k !in c.pre && !StatusOf(t, k).Pending? && d in DepsAt(c, k)
      ensures IsDone(StatusOf(t, d))
    {
      assert IsDone(StatusOf(s, d));
    }
  }

  lemma ChangeKeepsSkips(c: Config, s: State, t: State, j: Id)
    requires Ordered(c, s) && SkipsExact(c, s) && Changes(c, s, t, j)
    requires !HasGuard(c, j) ==> (StatusOf(t, j).Skipped? <==> exists d :: d in DepsAt(c, j) && StatusOf(s, d).Skipped?)
    requires StatusOf(t, j).Skipped? ==> !AllReused(c, j)
    ensures SkipsExact(c, t)
  {
    hide AllReused, HasGuard, AllDone;
    forall k | k in c.wf.jobs && k !in c.pre && !StatusOf(t, k).Pending? && !HasGuard(c, k)
      ensures StatusOf(t, k).Skipped? <==> exists d :: d in DepsAt(c, k) && StatusOf(t, d).Skipped?
    {
      assert forall d :: d in DepsAt(c, k) && d != j ==> StatusOf(t, d) == StatusOf(s, d);
      if k != j && j in DepsAt(c, k) { assert IsDone(StatusOf(s, j)); }
    }
  }

  lemma LaunchKeepsCount(c: Config, s: State, j: Id, input: Bytes)
    requires StartedOnce(c, s) && j in c.wf.jobs && j !in c.pre && StatusOf(s, j).Pending?
    ensures StartedOnce(c, Launch(s, j, input))
  {
    var t := Launch(s, j, input);
    assert RunningIn(t) == RunningIn(s) + {j};
  }

  lemma SkipKeepsCount(c: Config, s: State, j: Id)
    requires StartedOnce(c, s) && j in c.wf.jobs && (StatusOf(s, j).Pending? || StatusOf(s, j).Skipped?)
    ensures StartedOnce(c, Skip(s, j))
  {
    assert RunningIn(Skip(s, j)) == RunningIn(s);
  }

  lemma LaunchOrderly(c: Config, s: State, j: Id, input: Bytes)
    requires Orderly(c, s) && Actionable(c, s, j) && StatusOf(s, j).Pending? && j !in DepsAt(c, j)
    requires HasGuard(c, j) || forall d :: d in DepsAt(c, j) ==> !StatusOf(s, d).Skipped?
    ensures Orderly(c, Launch(s, j, input))
  {
    hide Sound, StartedOnce, Ordered, SkipsExact, Serialize, AllDone, HasGuard;
    OrderlyParts(c, s);
    LaunchSound(c, s, j, input);
    LaunchKeepsCount(c, s, j, input);
    var t := Launch(s, j, input);
    assert Changes(c, s, t, j);
    ChangeKeepsOrder(c, s, t, j);
    ChangeKeepsSkips(c, s, t, j);
  }

  lemma SkipOrderly(c: Config, s: State, j: Id)
    requires Orderly(c, s) && ReadyMove(c, s, j) && ShouldSkip(c, s, j) && j !in DepsAt(c, j)
    ensures Orderly(c, Skip(s, j))
  {
    hide Sound, StartedOnce, Ordered, SkipsExact, Serialize, AllDone, HasGuard, ShouldSkip, AllReused, StatusOf;
    OrderlyParts(c, s);
    SkipReason(c, s, j);
    SkipStatus(s, j);
    SkipSound(c, s, j);
    SkipKeepsCount(c, s, j);
    var t := Skip(s, j);
    assert Changes(c, s, t, j);
    ChangeKeepsOrder(c, s, t, j);
    ChangeKeepsSkips(c, s, t, j);
  }

  lemma SkipReason(c: Config, s: State, j: Id)
    ensures ShouldSkip(c, s, j) && !HasGuard(c, j) ==> exists d :: d in DepsAt(c, j) && StatusOf(s, d).Skipped?
    ensures !ShouldSkip(c, s, j) && !HasGuard(c, j) ==> forall d :: d in DepsAt(c, j) ==> !StatusOf(s, d).Skipped?
  {
  }

  lemma SkipStatus(s: State, j: Id)
    ensures StatusOf(Skip(s, j), j).Skipped? && Skip(s, j).statuses == s.statuses[j := Skipped]
  {
    hide Serialize;
  }

  lemma MoveOrderly(c: Config, s: State, j: Id)
    requires ValidConfig(c) && Orderly(c, s) && ReadyMove(c, s, j)
    ensures Orderly(c, Move(c, s, j))
  {
    NotOwnDependency(c, j);
    hide ValidConfig, Orderly, Launch, Skip, LaunchInput, AllDone, AllReused, GuardHolds;
    if ShouldSkip(c, s, j) {
      SkipOrderly(c, s, j);
    } else {
      LaunchOrderly(c, s, j, LaunchInput(c, s.outputs, j));
    }
  }

  // -- The success of one job ------------------------------------------------

  /** d has just succeeded: everything that waits for it is pending. */
  ghost predicate JustDone(c: Config, s: State, d: Id) {
    d !in c.pre && StatusOf(s, d).Succeeded? && forall x :: WaitsFor(c, x, d) ==> StatusOf(s, x).Pending?
  }

  ghost predicate Touched(c: Config, s: State, t: State, d: Id) {
    forall x :: StatusOf(t, x) == StatusOf(s, x)
             || (WaitsFor(c, x, d) && (StatusOf(t, x).Running? || StatusOf(t, x).Skipped?))
  }

  lemma {:induction false} DoneAlongWalk(c: Config, s: State, y: Id, x: Id, n: nat)
    requires ValidConfig(c) && Ordered(c, s) && AllDone(c, s, y)
    requires n > 0 && Walk(LiveDeps(c), y, x, n)
    ensures IsDone(StatusOf(s, x)) && x in c.wf.jobs
    decreases n
  {
    var m :| Edge(LiveDeps(c), y, m) && Walk(LiveDeps(c), m, x, n - 1);
    DependentsExact(c, m, y);
    hide ValidConfig;
    if n > 1 {
      var k :| Edge(LiveDeps(c), m, k) && Walk(LiveDeps(c), k, x, n - 2);
      assert AllDone(c, s, m);
      DoneAlongWalk(c, s, m, x, n - 1);
    }
  }

  lemma UpstreamDone(c: Config, s: State, y: Id, x: Id)
    requires ValidConfig(c) && Ordered(c, s) && AllDone(c, s, y) && WaitsFor(c, y, x)
    ensures IsDone(StatusOf(s, x)) && x in c.wf.jobs
  {
    var n: nat :| n > 0 && Walk(LiveDeps(c), y, x, n);
    DoneAlongWalk(c, s, y, x, n);
  }

  function SkippedIn(s: State): set<Id> {
    set j | j in s.statuses && s.statuses[j].Skipped?
  }

  lemma SkippedAreSkipSet(c: Config, t: State, y: Id)
    requires ValidConfig(c) && Orderly(c, t) && AllDone(c, t, y)
    ensures SkipSet(c, y, SkippedIn(t)) && SkippedIn(t) !! c.pre.Keys
  {
    hide ValidConfig, Sound, Ordered, StartedOnce, Counted, AllReused, HasGuard, Orderly, Clean, SkippedIn, WaitsFor,
      StatusOf, AllDone, DepsAt, Scoped;
    OrderlyParts(c, t);
    var S := SkippedIn(t);
    forall m ensures m in S <==> StatusOf(t, m).Skipped? { InSkipped(t, m); }
    ReusedDone(c, t);
    forall x | WaitsFor(c, y, x) && x !in c.pre
      ensures x in S ==> !AllReused(c, x)
      ensures !HasGuard(c, x) ==> (x in S <==> exists m :: m in DepsAt(c, x) && m in S)
    {
      UpstreamDone(c, t, y, x);
    }
  }

  lemma ReusedDone(c: Config, s: State)
    requires Scoped(c, s)
    ensures forall j :: j in c.pre ==> StatusOf(s, j).Succeeded? && IsDone(StatusOf(s, j))
    ensures forall j :: j !in c.wf.jobs && j !in c.pre ==> StatusOf(s, j).Pending?
  {
  }

  /** If y is to run now, then y lists d once and nothing else it lists waits for d. */
  lemma RunsOnce(c: Config, s: State, t: State, d: Id, y: Id)
    requires ValidConfig(c) && !Harmful(c, y, d) && JustDone(c, s, d) && Orderly(c, t) && Touched(c, s, t, d)
    requires Actionable(c, t, y) && d in DepsAt(c, y) && !ShouldSkip(c, t, y)
    ensures multiset(DepsAt(c, y))[d] <= 1 && !SomeWaits(c, y, d)
  {
    hide ValidConfig, Orderly, ShouldSkip, SkipSet, AllDone, Sound, Counted, StartedOnce, SkipsExact, Clean, Ordered,
      StatusOf, WaitsFor, HasGuard;
    var S := SkippedIn(t);
    OrderlyParts(c, t);
    SkippedAreSkipSet(c, t, y);
    WaitsNotItself(c, d);
    SkipReason(c, t, y);
    forall x ensures x in S <==> StatusOf(t, x).Skipped? { InSkipped(t, x); }
    forall x | WaitsFor(c, y, x) && WaitsFor(c, x, d) ensures x in S { BetweenSkipped(c, s, t, d, y, x); }
    assert !Scenario(c, y, d, S);
  }

  lemma InSkipped(s: State, x: Id)
    ensures x in SkippedIn(s) <==> StatusOf(s, x).Skipped?
  {
  }

  lemma BetweenSkipped(c: Config, s: State, t: State, d: Id, y: Id, x: Id)
    requires ValidConfig(c) && JustDone(c, s, d) && Ordered(c, t) && Touched(c, s, t, d) && AllDone(c, t, y)
    requires WaitsFor(c, y, x) && WaitsFor(c, x, d)
    ensures StatusOf(t, x).Skipped?
  {
    hide ValidConfig, Ordered, AllDone, WaitsFor, StatusOf;
    UpstreamDone(c, t, y, x);
    assert StatusOf(s, x).Pending?;
  }

  lemma WaitsNotItself(c: Config, d: Id)
    requires ValidConfig(c)
    ensures !WaitsFor(c, d, d)
  {
    if WaitsFor(c, d, d) { WaitsEarlier(c, d, d); }
  }

  /** The waiters of d between two looks: untouched; or skipped, already listed or by a
      cascade from another job y lists; or started at the one time y is listed. */
  ghost predicate Heads(c: Config, t: State, d: Id, ms: seq<Look>) {
    forall y :: y in DependentsOf(c, d) && y !in c.pre ==>
      || StatusOf(t, y).Pending?
      || (StatusOf(t, y).Skipped? && (Listed(y) in ms || SomeWaits(c, y, d)))
      || (Listed(y) in ms && multiset(DependentsOf(c, d))[y] == 1)
  }

  /** Nobody is listed more often than d's waiter list says. */
  ghost predicate WithinList(c: Config, d: Id, ms: seq<Look>) {
    forall y :: multiset(ms)[Listed(y)] <= multiset(DependentsOf(c, d))[y]
  }

  /** Every look finds an orderly state and makes a ready move. */
  ghost predicate Proper(c: Config, s: State, ms: seq<Look>) {
    ms == [] || (
      && Proper(c, s, ms[..|ms| - 1])
      && Orderly(c, Play(c, s, ms[..|ms| - 1]))
      && ReadyMove(c, Play(c, s, ms[..|ms| - 1]), ms[|ms| - 1].job))
  }

  lemma ListedAsOften(c: Config, d: Id, y: Id)
    requires ValidConfig(c)
    ensures multiset(DependentsOf(c, d))[y] == multiset(DepsAt(c, y))[d]
  {
    DependentsExact(c, d, y);
    if d in c.dag.deps { assert multiset(c.dag.dependents[d])[y] == Occurrences(c.dag.deps, y, d); }
  }

  lemma ListedTwice(c: Config, d: Id, ms: seq<Look>, m: Look)
    requires WithinList(c, d, ms + [m]) && m.Listed?
    ensures m.job in DependentsOf(c, d)
    ensures m in ms ==> multiset(DependentsOf(c, d))[m.job] > 1
  {
    assert multiset(ms + [m])[Listed(m.job)] == multiset(ms)[m] + 1;
  }

  /** What a look can find, and what it leaves behind. */
  lemma LookIsReady(c: Config, s: State, d: Id, ms: seq<Look>, m: Look)
    requires Plain(c) && JustDone(c, s, d) && WithinList(c, d, ms + [m])
    requires var t := Play(c, s, ms);
                 Orderly(c, t) && Touched(c, s, t, d) && Heads(c, t, d, ms) && Admissible(c, t, ms, m)
    requires forall q :: LookedAt(ms, q) ==> WaitsFor(c, q, d)
    ensures ReadyMove(c, Play(c, s, ms), m.job)
    ensures !ShouldSkip(c, Play(c, s, ms), m.job) && m.job in DependentsOf(c, d)
        ==> m.Listed? && multiset(DependentsOf(c, d))[m.job] == 1
    ensures m.Swept? && m.job in DependentsOf(c, d) ==> SomeWaits(c, m.job, d)
    ensures WaitsFor(c, m.job, d)
  {
    var t, j := Play(c, s, ms), m.job;
    hide Plain, JustDone, Orderly, Touched, StatusOf, AllDone, ShouldSkip, ValidConfig, WaitsFor, Play, HasGuard;
    PlainValid(c);
    DependentsExact(c, d, j);
    ListedAsOften(c, d, j);
    NotReused(c, s, d, j, m, t, ms);
    if m.Listed? { ListedTwice(c, d, ms, m); }
    if !ShouldSkip(c, t, j) && d in DepsAt(c, j) {
      NoHarm(c, j, d);
      RunsOnce(c, s, t, d, j);
    }
  }

  lemma NoHarm(c: Config, y: Id, d: Id)
    requires Plain(c)
    ensures !Harmful(c, y, d)
  {
    hide ValidConfig, Harmful;
  }

  lemma NotReused(c: Config, s: State, d: Id, j: Id, m: Look, t: State, ms: seq<Look>)
    requires JustDone(c, s, d) && m.job == j && Admissible(c, t, ms, m) && (m.Listed? ==> d in DepsAt(c, j))
    requires forall q :: LookedAt(ms, q) ==> WaitsFor(c, q, d)
    ensures !AllReused(c, j) && WaitsFor(c, j, d)
    ensures m.Swept? ==> SomeWaits(c, j, d)
  {
    hide WaitsFor, StatusOf, AllDone, LookedAt;
    LookedWaits(c, d, t, ms, m);
    if m.Swept? {
      var q :| LookedAt(ms, q) && q in DepsAt(c, j);
      var x := WaitsFirst(c, q, d);
    }
  }

  lemma HeadsAfter(c: Config, s: State, d: Id, ms: seq<Look>, m: Look)
    requires var t := Play(c, s, ms);
             && Heads(c, t, d, ms) && (ShouldSkip(c, t, m.job) || StatusOf(t, m.job).Pending?)
             && (!ShouldSkip(c, t, m.job) && m.job in DependentsOf(c, d) ==>
                   m.Listed? && multiset(DependentsOf(c, d))[m.job] == 1)
    requires m.Swept? && m.job in DependentsOf(c, d) ==> SomeWaits(c, m.job, d)
    ensures Heads(c, Move(c, Play(c, s, ms), m.job), d, ms + [m])
  {
    hide Move, ShouldSkip, StatusOf, SomeWaits, Play;
    MoveStatus(c, Play(c, s, ms), m.job);
    assert m in ms + [m];
    assert forall k :: k in ms ==> k in ms + [m];
  }

  lemma TouchedAfter(c: Config, s: State, t: State, d: Id, j: Id)
    requires Touched(c, s, t, d) && WaitsFor(c, j, d)
    ensures Touched(c, s, Move(c, t, j), d)
  {
    hide Move, StatusOf, WaitsFor, ShouldSkip;
    MoveStatus(c, t, j);
  }

  /** After the success of d nothing is started twice: every look is proper. */
  lemma {:induction false} TraceOrderly(c: Config, s: State, d: Id, ms: seq<Look>)
    requires Plain(c) && JustDone(c, s, d) && Orderly(c, s)
    requires Trace(c, s, ms) && WithinList(c, d, ms) && Heads(c, s, d, [])
    ensures Proper(c, s, ms) && Orderly(c, Play(c, s, ms)) && Touched(c, s, Play(c, s, ms), d)
    ensures Heads(c, Play(c, s, ms), d, ms) && forall q :: LookedAt(ms, q) ==> WaitsFor(c, q, d)
  {
    hide Plain, JustDone, Orderly, StatusOf, WaitsFor, Heads, Admissible, Move, ReadyMove, Play, Trace, Touched;
    if ms == [] {
      assert Play(c, s, ms) == s by { PlayNothing(c, s); }
      assert Touched(c, s, s, d) by { TouchedNothing(c, s, d); }
    } else {
      var front, m := ms[..|ms| - 1], ms[|ms| - 1];
      var t := Play(c, s, front);
      assert ms == front + [m];
      TraceParts(c, s, ms);
      WithinFront(c, d, front, m);
      TraceOrderly(c, s, d, front);
      LookIsReady(c, s, d, front, m);
      PlainValid(c);
      MoveOrderly(c, t, m.job);
      ReadyPending(c, t, m.job);
      HeadsAfter(c, s, d, front, m);
      TouchedAfter(c, s, t, d, m.job);
      forall q ensures LookedAt(ms, q) <==> LookedAt(front, q) || q == m.job { LookedAppend(front, m, q); }
    }
  }

  lemma PlayNothing(c: Config, s: State)
    ensures Play(c, s, []) == s
  {
  }

  lemma TouchedNothing(c: Config, s: State, d: Id)
    ensures Touched(c, s, s, d)
  {
  }

  lemma TraceParts(c: Config, s: State, ms: seq<Look>)
    requires Trace(c, s, ms) && ms != []
    ensures var front, m := ms[..|ms| - 1], ms[|ms| - 1];
            && Trace(c, s, front) && Admissible(c, Play(c, s, front), front, m)
            && Play(c, s, ms) == Move(c, Play(c, s, front), m.job)
  {
    hide Admissible, Move;
  }

  lemma WithinFront(c: Config, d: Id, ms: seq<Look>, m: Look)
    requires WithinList(c, d, ms + [m])
    ensures WithinList(c, d, ms)
  {
    forall y ensures multiset(ms)[Listed(y)] <= multiset(DependentsOf(c, d))[y] {
      assert multiset(ms)[Listed(y)] <= multiset(ms + [m])[Listed(y)];
    }
  }

  lemma ReadyPending(c: Config, t: State, j: Id)
    requires ReadyMove(c, t, j)
    ensures ShouldSkip(c, t, j) || StatusOf(t, j).Pending?
  {
    hide ShouldSkip;
  }

  // -- Events ----------------------------------------------------------------

  lemma WaitersPending(c: Config, s: State, x: Id, d: Id)
    requires ValidConfig(c) && Ordered(c, s) && WaitsFor(c, x, d) && !IsDone(StatusOf(s, d))
    ensures StatusOf(s, x).Pending?
  {
    WaitsEarlier(c, x, d);
    var _ := WaitsFirst(c, x, d);
    hide ValidConfig, WaitsFor;
    if !StatusOf(s, x).Pending? { UpstreamDone(c, s, x, d); }
  }

  /** As many running jobs as outstanding events, and a running job for each event:
      so no two events belong to one job. */
  lemma SameJobSameFlight(c: Config, s: State, f: Flight)
    requires Counted(c, s) && StartedOnce(c, s) && f in s.flights
    ensures forall g :: g in s.flights - multiset{f} ==> g.job != f.job
  {
    var rest := s.flights - multiset{f};
    if g :| g in rest && g.job == f.job {
      forall j | j in RunningIn(s) ensures j in Jobs(rest) {
        var i :| Flight(j, i) in s.flights;
        if Flight(j, i) == f { assert g in rest; } else { assert Flight(j, i) in rest; }
      }
      SubsetCard(RunningIn(s), Jobs(rest));
      FewerJobsThanFlights(rest);
    }
  }

  function Jobs(flights: multiset<Flight>): set<Id> {
    set f | f in flights :: f.job
  }

  lemma {:induction false} FewerJobsThanFlights(flights: multiset<Flight>)
    ensures |Jobs(flights)| <= |flights|
  {
    if flights != multiset{} {
      var f :| f in flights;
      var rest := flights - multiset{f};
      FewerJobsThanFlights(rest);
      forall j | j in Jobs(flights) ensures j in Jobs(rest) + {f.job} {
        var g :| g in flights && g.job == j;
        if g != f { assert g in rest; }
      }
      SubsetCard(Jobs(flights), Jobs(rest) + {f.job});
    }
  }

  lemma ArriveKeepsCount(c: Config, s: State, t: State, f: Flight, st: Status)
    requires Counted(c, s) && StartedOnce(c, s) && f in s.flights && (st.Succeeded? || st.Failed?)
    requires t.statuses == s.statuses[f.job := st] && t.started == s.started
    requires t.flights == s.flights - multiset{f} && t.inFlight == s.inFlight - 1
    ensures StartedOnce(c, t)
  {
    SameJobSameFlight(c, s, f);
    hide Counted;
    assert StatusOf(s, f.job).Running? && f.job in s.statuses;
    StatusesAfter(s, t, f.job, st);
    assert RunningIn(t) == RunningIn(s) - {f.job};
    assert forall j :: HasStarted(c, t, j) <==> HasStarted(c, s, j);
    hide StatusOf, HasStarted, RunningIn;
  }

  lemma StatusesAfter(s: State, t: State, j: Id, st: Status)
    requires t.statuses == s.statuses[j := st]
    ensures StatusOf(t, j) == st && forall k :: k != j ==> StatusOf(t, k) == StatusOf(s, k)
  {
  }

  /** Nothing that has left `Pending` depends on a job that was running until now. */
  lemma ArriveKeepsOrder(c: Config, s: State, t: State, j: Id, st: Status)
    requires Ordered(c, s) && SkipsExact(c, s) && StatusOf(s, j).Running? && t.statuses == s.statuses[j := st]
    requires st.Succeeded? || st.Failed?
    ensures Ordered(c, t) && SkipsExact(c, t)
  {
    hide AllReused, HasGuard;
    assert forall k :: k != j ==> StatusOf(t, k) == StatusOf(s, k);
    forall k, d | k in c.wf.jobs && k !in c.pre && !StatusOf(t, k).Pending? && d in DepsAt(c, k)
      ensures IsDone(StatusOf(t, d)) && (StatusOf(t, d).Skipped? <==> StatusOf(s, d).Skipped?)
    {
      assert !StatusOf(s, k).Pending? && IsDone(StatusOf(s, d));
    }
  }

  lemma ArriveOrderly(c: Config, s: State, t: State, f: Flight, st: Status)
    requires Orderly(c, s) && f in s.flights && Sound(c, t)
    requires st.Succeeded? || st.Failed?
    requires t.statuses == s.statuses[f.job := st] && t.started == s.started
    requires t.flights == s.flights - multiset{f} && t.inFlight == s.inFlight - 1
    ensures Orderly(c, t)
  {
    hide Sound, Ordered, StartedOnce, SkipsExact;
    OrderlyParts(c, s);
    ArriveKeepsCount(c, s, t, f, st);
    ArriveKeepsOrder(c, s, t, f.job, st);
  }

  lemma SucceedStatus(s: State, f: Flight, elapsed: nat, bytes: Bytes)
    requires s.inFlight > 0
    ensures var t := Succeed(s, f, elapsed, bytes);
            && t.statuses == s.statuses[f.job := Succeeded(elapsed)] && StatusOf(t, f.job) == Succeeded(elapsed)
            && t.started == s.started
            && t.flights == s.flights - multiset{f} && t.inFlight == s.inFlight - 1
            && t.outputs == s.outputs[f.job := bytes] && t.results == s.results + [JobResult(f.job, Ran)]
            && t.success == s.success && t.halted == s.halted
  {
    hide Serialize;
  }

  lemma SucceedReady(c: Config, s: State, f: Flight, elapsed: nat, bytes: Bytes)
    requires ValidConfig(c) && Orderly(c, s) && f in s.flights && s.inFlight > 0
    ensures var t := Succeed(s, f, elapsed, bytes);
            && Orderly(c, t) && JustDone(c, t, f.job) && Heads(c, t, f.job, [])
  {
    hide ValidConfig, Orderly, Sound, Ordered, StartedOnce, SkipsExact, Succeed, WaitsFor, DependentsOf;
    OrderlyParts(c, s);
    var t := Succeed(s, f, elapsed, bytes);
    SucceedSound(c, s, f, elapsed, bytes);
    SucceedStatus(s, f, elapsed, bytes);
    ArriveOrderly(c, s, t, f, Succeeded(elapsed));
    FlightJob(c, s, f);
    forall x | WaitsFor(c, x, f.job) ensures StatusOf(t, x).Pending? {
      WaitersPending(c, s, x, f.job);
    }
    forall y | y in DependentsOf(c, f.job) && y !in c.pre ensures StatusOf(t, y).Pending? {
      DependentsExact(c, f.job, y);
      WaitsDirectly(c, y, f.job);
    }
  }

  lemma SoundNoFailure(c: Config, s: State)
    requires Sound(c, s) && s.success
    ensures NoFailure(s)
  {
  }

  /** A success, taken apart into an arrival and proper looks. */
  lemma SuccessIsProper(c: Config, s: State, f: Flight, elapsed: nat, bytes: Bytes) returns (ms: seq<Look>)
    requires Plain(c) && Orderly(c, s) && f in s.flights && s.inFlight > 0 && s.success
    ensures var t := Succeed(s, f, elapsed, bytes); var u := Play(c, t, ms);
            && u == ReleaseAll(c, t, DependentsOf(c, f.job))
            && Orderly(c, t) && Proper(c, t, ms) && Orderly(c, u) && Touched(c, t, u, f.job) && JustDone(c, t, f.job)
            && u.success && u.halted == t.halted
  {
    hide Plain, ValidConfig, Orderly, Sound, Succeed, WaitsFor, ReleaseAll, Trace, Play, Proper, Touched, Heads,
      JustDone,
      NoFailure;
    PlainValid(c);
    var t, d := Succeed(s, f, elapsed, bytes), f.job;
    SucceedStatus(s, f, elapsed, bytes);
    SucceedReady(c, s, f, elapsed, bytes);
    OrderlyParts(c, t);
    SoundNoFailure(c, t);
    forall j | j in DependentsOf(c, d) ensures j in c.wf.jobs { DependentsExact(c, d, j); }
    ms := ReleaseAllTrace(c, t, DependentsOf(c, d));
    assert WithinList(c, d, ms);
    TraceOrderly(c, t, d, ms);
    ListedAreWaiters(c, d, ms);
    TraceWaits(c, t, d, ms);
  }

  lemma ListedAreWaiters(c: Config, d: Id, ms: seq<Look>)
    requires ValidConfig(c) && WithinList(c, d, ms)
    ensures ListedWait(c, d, ms)
  {
    hide ValidConfig;
    forall m | m in ms && m.Listed? ensures d in DepsAt(c, m.job) {
      assert multiset(ms)[Listed(m.job)] > 0;
      DependentsExact(c, d, m.job);
    }
  }

  /** What has ended stays as it is. */
  ghost predicate Final(s: State, t: State) {
    forall j :: IsTerminal(StatusOf(s, j)) ==> StatusOf(t, j) == StatusOf(s, j)
  }

  lemma SuccessFinal(c: Config, s: State, f: Flight, t: State, u: State)
    requires Orderly(c, s) && f in s.flights && JustDone(c, t, f.job) && Touched(c, t, u, f.job)
    requires t.statuses == s.statuses[f.job := StatusOf(t, f.job)]
    ensures Final(s, t) && Final(s, u)
  {
    hide Sound, Ordered, SkipsExact, WaitsFor;
    assert StatusOf(s, f.job).Running?;
    forall j | IsTerminal(StatusOf(s, j)) ensures StatusOf(t, j) == StatusOf(s, j) && StatusOf(u, j) == StatusOf(t, j) {
    }
  }

  lemma FailOrderly(c: Config, s: State, f: Flight, elapsed: nat, reason: string)
    requires ValidConfig(c) && Orderly(c, s) && f in s.flights && s.inFlight > 0
    ensures var t := Fail(s, f, elapsed, reason); var u := AfterFailure(c, t, f.job);
            && Orderly(c, u) && u == t.(halted := u.halted) && Final(s, u)
            && u.statuses == s.statuses[f.job := Failed(elapsed, reason)]
  {
    hide Orderly, Sound, ValidConfig, Serialize;
    OrderlyParts(c, s);
    var t := Fail(s, f, elapsed, reason);
    var u := AfterFailure(c, t, f.job);
    FailureNeverCancels(c, t, f.job);
    FailSound(c, s, f, elapsed, reason, u.halted);
    ArriveOrderly(c, s, u, f, Failed(elapsed, reason));
  }

  lemma DeliverOrderly(c: Config, s: State, f: Flight, elapsed: nat)
    requires Plain(c) && Orderly(c, s) && f in s.flights && s.inFlight > 0
    ensures Orderly(c, Deliver(c, s, f, elapsed)) && Final(s, Deliver(c, s, f, elapsed))
  {
    hide Plain, Orderly, ReleaseAll, AfterFailure, StatusOf, Succeed, Fail, Touched, JustDone, ValidConfig, Final, Play;
    PlainValid(c);
    match c.run(f.job, f.input)
    case Output(bytes) =>
      var t := Succeed(s, f, elapsed, bytes);
      SucceedStatus(s, f, elapsed, bytes);
      SucceedReady(c, s, f, elapsed, bytes);
      if s.success {
        var ms := SuccessIsProper(c, s, f, elapsed, bytes);
        SuccessFinal(c, s, f, t, Play(c, t, ms));
      } else {
        TouchedNothing(c, t, f.job);
        SuccessFinal(c, s, f, t, t);
      }
    case Failure(reason) =>
      FailOrderly(c, s, f, elapsed, reason);
  }

  // -- The start of a run ----------------------------------------------------

  lemma {:induction false} SeedOrderly(c: Config, ids: seq<Id>)
    ensures var t := Seed(c, Initial(c), ids); t.started == multiset{} && t.flights == multiset{} && t.inFlight == 0
  {
    if ids != [] { SeedOrderly(c, ids[..|ids| - 1]); }
  }

  /** A job all of whose dependencies are reused is launched, guard or no guard. */
  lemma StartOne(c: Config, s: State, j: Id, input: Bytes)
    requires ValidConfig(c) && Orderly(c, s) && j in c.wf.jobs && j !in c.pre && StatusOf(s, j).Pending?
    requires AllReused(c, j)
    ensures Orderly(c, Launch(s, j, input))
  {
    NotOwnDependency(c, j);
    OrderlyParts(c, s);
    hide ValidConfig, Orderly, Ordered, StartedOnce, SkipsExact, Counted, Clean, Launch, HasGuard, Sound;
    LaunchOrderly(c, s, j, input);
  }

  lemma RootIsReady(c: Config, j: Id)
    requires IsRoot(c, j)
    ensures AllReused(c, j)
  {
  }

  lemma {:induction false} RootsOrderly(c: Config, s: State, ids: seq<Id>)
    requires ValidConfig(c) && Orderly(c, s) && NoDup(ids)
    requires forall j :: j in ids ==> IsRoot(c, j) && j in c.wf.jobs && (j in c.pre || StatusOf(s, j).Pending?)
    ensures Orderly(c, LaunchRoots(c, s, ids))
  {
    hide Orderly, ValidConfig, Serialize, OwnInput, Sound, IsRoot, AllReused;
    if ids != [] {
      var front, j := ids[..|ids| - 1], ids[|ids| - 1];
      assert ids == front + [j];
      RootsOrderly(c, s, front);
      var t := LaunchRoots(c, s, front);
      if j !in c.pre {
        OrderlyParts(c, s);
        LaunchRootsFacts(c, s, front);
        RootIsReady(c, j);
        StartOne(c, t, j, OwnInput(c, j));
      }
    }
  }

  lemma {:induction false} ReadyOrderly(c: Config, s: State, ids: seq<Id>)
    requires ValidConfig(c) && Orderly(c, s) && NoDup(ids) && forall j :: j in ids ==> j in c.wf.jobs
    requires forall j :: j in ids && !IsRoot(c, j) ==> j in c.pre || StatusOf(s, j).Pending?
    ensures Orderly(c, LaunchReady(c, s, ids))
  {
    hide Orderly, ValidConfig, Serialize, LaunchInput, IsRoot, Sound, AllReused;
    if ids != [] {
      var front, j := ids[..|ids| - 1], ids[|ids| - 1];
      assert ids == front + [j];
      ReadyOrderly(c, s, front);
      var t := LaunchReady(c, s, front);
      OrderlyParts(c, s);
      LaunchReadyFacts(c, s, front);
      if j !in c.pre && !IsRoot(c, j) && AllReused(c, j) { StartOne(c, t, j, LaunchInput(c, t.outputs, j)); }
    }
  }

  lemma StartOrderly(c: Config)
    requires ValidConfig(c)
    ensures Orderly(c, Start(c))
  {
    var s0 := Seed(c, Initial(c), c.preOrder);
    var s1 := LaunchRoots(c, s0, c.rootOrder);
    SeededOrderly(c);
    OrdersExact(c);
    assert NoDup(c.rootOrder) && NoDup(c.wf.order);
    hide Orderly, Sound, ValidConfig, Seed, LaunchRoots, LaunchReady;
    OrderlyParts(c, s0);
    RootsOrderly(c, s0, c.rootOrder);
    LaunchRootsFacts(c, s0, c.rootOrder);
    ReadyOrderly(c, s1, c.wf.order);
  }

  lemma SeededOrderly(c: Config)
    requires ValidConfig(c)
    ensures var s := Seed(c, Initial(c), c.preOrder);
            Orderly(c, s) && forall j :: j in c.wf.jobs && j !in c.pre ==> StatusOf(s, j).Pending?
  {
    hide ValidConfig, Sound, Seed, Initial, HasGuard, AllReused;
    var s := Seed(c, Initial(c), c.preOrder);
    SeededStatuses(c, s);
    SeedSound(c);
    SeedOrderly(c, c.preOrder);
    assert forall j :: j in s.statuses ==> StatusOf(s, j) == s.statuses[j];
    assert RunningIn(s) == {};
  }

  lemma SeededStatuses(c: Config, s: State)
    requires ValidConfig(c) && s == Seed(c, Initial(c), c.preOrder)
    ensures forall j :: StatusOf(s, j) == if j in c.pre then Succeeded(c.pre[j]) else Pending
  {
    hide ValidConfig, Seed, StoreMirrors;
    OrdersExact(c);
    SeedFacts(c, c.preOrder);
  }

  // -- Whole runs ------------------------------------------------------------

  lemma {:induction false} StepsOrderly(c: Config, s: State, t: State, n: nat)
    requires Plain(c) && Steps(c, s, t, n) && Orderly(c, s)
    ensures Orderly(c, t) && Final(s, t)
    decreases n
  {
    hide Plain, Orderly, Deliver, IsTerminal, StatusOf;
    if n > 0 {
      var m :| Steps(c, s, m, n - 1) && Step(c, m, t);
      StepsOrderly(c, s, m, n - 1);
      var f: Flight, elapsed: nat :| f in m.flights && t == Deliver(c, m, f, elapsed);
      DeliverOrderly(c, m, f, elapsed);
    }
  }

  lemma ReachableOrderly(c: Config, s: State)
    requires Plain(c) && Reachable(c, s)
    ensures Orderly(c, s)
  {
    hide Plain, Orderly, Start, Final, ValidConfig;
    PlainValid(c);
    var n: nat :| Steps(c, Start(c), s, n);
    StartOrderly(c);
    StepsOrderly(c, Start(c), s, n);
  }

  /** In every reachable state: the counter counts the running jobs, no job was started
      twice, and every started job had all its dependencies done, and without a guard
      all of them succeeded. */
  lemma StartDiscipline(c: Config, s: State, j: Id)
    requires Plain(c) && Reachable(c, s)
    ensures s.inFlight == |RunningIn(s)|
    ensures s.started[j] <= 1
    ensures s.started[j] == 1 ==> j in c.wf.jobs && j !in c.pre && AllDone(c, s, j)
    ensures s.started[j] == 1 && !HasGuard(c, j) ==> forall d :: d in DepsAt(c, j) ==> StatusOf(s, d).Succeeded?
  {
    hide Plain, Orderly, Reachable, Sound, HasGuard, Counted, Scoped, Clean, RunningIn;
    ReachableOrderly(c, s);
    OrderlyParts(c, s);
    forall d | s.started[j] == 1 && !HasGuard(c, j) && d in DepsAt(c, j) ensures StatusOf(s, d).Succeeded? {
      assert IsDone(StatusOf(s, d)) && !StatusOf(s, d).Skipped?;
    }
  }

  /** Once succeeded, failed or skipped, a job keeps that status in every later state. */
  lemma TerminalForever(c: Config, s: State, t: State, n: nat, j: Id)
    requires Plain(c) && Reachable(c, s) && Steps(c, s, t, n) && IsTerminal(StatusOf(s, j))
    ensures StatusOf(t, j) == StatusOf(s, j)
  {
    hide Plain, Orderly, Reachable, Steps;
    ReachableOrderly(c, s);
    StepsOrderly(c, s, t, n);
  }

  lemma {:induction false} StepsCompose(c: Config, s: State, t: State, u: State, m: nat, n: nat)
    requires Steps(c, s, t, m) && Steps(c, t, u, n)
    ensures Steps(c, s, u, m + n)
    decreases n
  {
    hide Step;
    if n > 0 {
      var v :| Steps(c, t, v, n - 1) && Step(c, v, u);
      StepsCompose(c, s, t, v, m, n - 1);
    }
  }

  /** Everything downstream of a failed job is pending, and stays so forever. */
  lemma DownstreamOfFailureStaysPending(c: Config, s: State, t: State, n: nat, k: Id, j: Id)
    requires Plain(c) && Reachable(c, s) && Steps(c, s, t, n)
    requires StatusOf(s, j).Failed? && WaitsFor(c, k, j)
    ensures StatusOf(t, k).Pending?
  {
    hide Plain, Orderly, Start, WaitsFor, ValidConfig, Steps, StatusOf, Sound, Ordered, StartedOnce, SkipsExact;
    TerminalForever(c, s, t, n, j);
    PlainValid(c);
    var m: nat :| Steps(c, Start(c), s, m);
    StepsCompose(c, Start(c), s, t, m, n);
    assert Reachable(c, t);
    ReachableOrderly(c, t);
    OrderlyParts(c, t);
    WaitersPending(c, t, k, j);
  }

  // -- Without guards --------------------------------------------------------

  ghost predicate Unguarded(c: Config) {
    forall j :: j in c.wf.jobs ==> !HasGuard(c, j)
  }

  /** A guard is the only thing that makes a run skip. */
  lemma {:induction false} NothingSkipped(c: Config, s: State, j: Id)
    requires ValidConfig(c) && Unguarded(c) && Orderly(c, s) && j in c.wf.jobs
    ensures !StatusOf(s, j).Skipped?
    decreases Position(c.dag.topoOrder, Named(c, j))
  {
    OrderlyParts(c, s);
    if StatusOf(s, j).Skipped? {
      var d :| d in DepsAt(c, j) && StatusOf(s, d).Skipped?;
      assert Edge(c.dag.deps, j, d);
      EdgeDescends(c.dag.deps, c.dag.topoOrder, j, d);
      hide Orderly, Sound, Ordered, StartedOnce, SkipsExact, Unguarded;
      NothingSkipped(c, s, d);
    }
  }
}
