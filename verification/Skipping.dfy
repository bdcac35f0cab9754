/** Who is skipped and who is run when a job's last dependency is done. */
module Skipping {
  import opened Graph
  import opened Workflows
  import opened States
  import opened Whens
  import opened Scheduler
  import opened Settling

  /** What a cascade may do to a job: nothing, skip it, or, if it has a guard, run it. */
  ghost predicate Cascaded(c: Config, s: State, t: State, x: Id) {
    || StatusOf(t, x) == StatusOf(s, x)
    || (x in s.statuses && s.statuses[x].Pending? && x !in c.pre && AllDone(c, t, x)
        && (StatusOf(t, x).Skipped? || (StatusOf(t, x).Running? && HasGuard(c, x))))
  }

  /** Done jobs stay as they are, so a job that was ready stays ready. */
  lemma StillReady(c: Config, s: State, t: State, j: Id)
    requires AllDone(c, s, j) && forall x :: Cascaded(c, s, t, x)
    ensures AllDone(c, t, j)
  {
    forall d | d in DepsAt(c, j) ensures IsDone(StatusOf(t, d)) {
      assert Cascaded(c, s, t, d);
    }
  }

  lemma CascadedTwice(c: Config, s: State, t: State, u: State)
    requires forall x :: Cascaded(c, s, t, x)
    requires forall x :: Cascaded(c, t, u, x)
    requires forall x :: x in t.statuses && t.statuses[x].Pending? ==> x in s.statuses && s.statuses[x].Pending?
    ensures forall x :: Cascaded(c, s, u, x)
  {
    hide AllDone, HasGuard;
    forall x ensures Cascaded(c, s, u, x) {
      assert Cascaded(c, s, t, x) && Cascaded(c, t, u, x);
      if AllDone(c, t, x) { StillReady(c, t, u, x); }
    }
  }

  lemma CascadeStep(c: Config, s: State, j: Id, run: bool, input: Bytes)
    requires j in s.statuses && s.statuses[j].Pending? && j !in c.pre && AllDone(c, s, j) && (run ==> HasGuard(c, j))
    requires j !in DepsAt(c, j)
    ensures var t := if run then Launch(s, j, input) else Skip(s, j); forall x :: Cascaded(c, s, t, x)
  {
    hide Serialize;
  }

  lemma PendingOnlyShrinks(s: State, t: State)
    requires PendingIn(t) <= PendingIn(s)
    ensures forall x :: x in t.statuses && t.statuses[x].Pending? ==> x in s.statuses && s.statuses[x].Pending?
  {
    forall x | x in t.statuses && t.statuses[x].Pending? ensures x in s.statuses && s.statuses[x].Pending? {
      assert x in PendingIn(t);
    }
  }

  lemma NothingCascaded(c: Config, s: State)
    ensures forall x :: Cascaded(c, s, s, x)
  {
  }

  lemma {:induction false} CascadeIntoDecides(c: Config, s: State, ds: seq<Id>)
    requires forall j :: j in ds ==> j !in DepsAt(c, j)
    ensures forall x :: Cascaded(c, s, CascadeInto(c, s, ds).0, x)
  {
    hide Cascaded, AllDone, Launch, Skip, LaunchInput, EvalWhen;
    NothingCascaded(c, s);
    if ds != [] {
      var front, j := ds[..|ds| - 1], ds[|ds| - 1];
      assert ds == front + [j];
      CascadeIntoDecides(c, s, front);
      var t := CascadeInto(c, s, front).0;
      var u := CascadeInto(c, s, ds).0;
      PendingOnlyShrinks(s, t);
      if u != t {
        CascadeStep(c, t, j, GuardHolds(c, t, j), LaunchInput(c, t.outputs, j));
        CascadedTwice(c, s, t, u);
      }
    }
  }

  lemma {:induction false} CascadeDecides(c: Config, s: State, queue: seq<Id>)
    requires forall j :: j !in DepsAt(c, j)
    ensures forall x :: Cascaded(c, s, Cascade(c, s, queue), x)
    decreases |PendingIn(s)| + |queue|
  {
    hide Cascaded, CascadeInto;
    NothingCascaded(c, s);
    if queue != [] {
      var (t, skipped) := CascadeInto(c, s, DependentsOf(c, queue[0]));
      CascadeIntoDecides(c, s, DependentsOf(c, queue[0]));
      CascadeDecides(c, t, queue[1..] + skipped);
      PendingOnlyShrinks(s, t);
      CascadedTwice(c, s, t, Cascade(c, t, queue[1..] + skipped));
    }
  }

  /** The one thing decided when a job's dependencies are done: with a guard, the guard
      decides, skipped dependencies or not; without one, a skipped dependency skips it. */
  lemma ReleaseDecides(c: Config, s: State, j: Id)
    requires ValidConfig(c) && Sound(c, s) && s.success && j in c.wf.jobs && j !in c.pre && AllDone(c, s, j)
    ensures var t, guard := Release(c, s, j), c.wf.jobs[j].whenExpr;
            var runs := if guard.Some? then EvalWhen(guard.value, s.statuses)
                        else forall d :: d in DepsAt(c, j) ==> !StatusOf(s, d).Skipped?;
            && (runs ==> t == Launch(s, j, LaunchInput(c, s.outputs, j)))
            && (!runs ==> StatusOf(t, j).Skipped? && (forall x :: x != j ==> Cascaded(c, Skip(s, j), t, x)))
  {
    hide ValidConfig, Sound, EvalWhen, LaunchInput, AllDone, ForeachChildFailed, Launch, Cascade, Cascaded, Skip;
    NobodyFailed(c, s, j);
    forall x ensures x !in DepsAt(c, x) { NotOwnDependency(c, x); }
    CascadeDecides(c, Skip(s, j), [j]);
    SkippedStays(c, s, Cascade(c, Skip(s, j), [j]), j);
  }

  lemma SkippedStays(c: Config, s: State, t: State, j: Id)
    requires Cascaded(c, Skip(s, j), t, j)
    ensures StatusOf(t, j).Skipped?
  {
    hide Serialize, AllDone;
  }
}
