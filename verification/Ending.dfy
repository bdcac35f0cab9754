/** Every run ends, whatever the guards and however often a dependency is listed. */
module Endings {
  import opened Collections
  import opened Graph
  import opened Workflows
  import opened States
  import opened Scheduler
  import opened Settling

  // -- Weights ---------------------------------------------------------------

  ghost function SumOf(w: Id -> nat, ds: seq<Id>): nat {
    if ds == [] then 0 else SumOf(w, ds[..|ds| - 1]) + w(ds[|ds| - 1])
  }

  /** Finishing a job pays for starting everything on its waiter list, entry by entry. */
  ghost predicate Weighs(c: Config, w: Id -> nat) {
    forall j :: j in c.wf.jobs ==> w(j) > SumOf(w, DependentsOf(c, j))
  }

  lemma {:induction false} SumLocal(v: Id -> nat, w: Id -> nat, ds: seq<Id>)
    requires forall d :: d in ds ==> v(d) == w(d)
    ensures SumOf(v, ds) == SumOf(w, ds)
  {
    if ds != [] {
      assert ds == ds[..|ds| - 1] + [ds[|ds| - 1]];
      SumLocal(v, w, ds[..|ds| - 1]);
    }
  }

  /** Weights are assigned from the end of the topological order towards its front. */
  lemma {:induction false} WeightsFrom(c: Config, k: nat) returns (w: Id -> nat)
    requires ValidConfig(c) && k <= |c.dag.topoOrder|
    ensures forall i :: k <= i < |c.dag.topoOrder| ==>
        w(c.dag.topoOrder[i]) > SumOf(w, DependentsOf(c, c.dag.topoOrder[i]))
    decreases |c.dag.topoOrder| - k
  {
    hide ValidConfig, SumOf, DependentsOf;
    var order := c.dag.topoOrder;
    if k == |order| {
      w := (_: Id) => 0;
    } else {
      var v := WeightsFrom(c, k + 1);
      w := OneWeight(v, order[k], SumOf(v, DependentsOf(c, order[k])) + 1);
      forall i | k <= i < |order|
        ensures w(order[i]) > SumOf(w, DependentsOf(c, order[i]))
      {
        DependentsAreLater(c, k, i);
        SumLocal(w, v, DependentsOf(c, order[i]));
      }
    }
  }

  ghost function OneWeight(v: Id -> nat, j: Id, total: nat): (w: Id -> nat)
    ensures w(j) == total && forall x :: x != j ==> w(x) == v(x)
  {
    (x: Id) => if x == j then total else v(x)
  }

  lemma DependentsAreLater(c: Config, k: nat, i: nat)
    requires ValidConfig(c) && k <= i < |c.dag.topoOrder|
    ensures c.dag.topoOrder[k] !in DependentsOf(c, c.dag.topoOrder[i])
    ensures k < i ==> c.dag.topoOrder[k] != c.dag.topoOrder[i]
  {
    var order := c.dag.topoOrder;
    DependentsExact(c, order[i], order[k]);
    assert order[k] in Elems(order);
  }

  lemma WeightsExist(c: Config) returns (w: Id -> nat)
    requires ValidConfig(c)
    ensures Weighs(c, w)
  {
    w := WeightsFrom(c, 0);
    forall j | j in c.wf.jobs ensures w(j) > SumOf(w, DependentsOf(c, j)) {
      assert j in Elems(c.dag.topoOrder);
      var i := Position(c.dag.topoOrder, j);
    }
  }

  // -- The potential of a state ----------------------------------------------

  ghost function FlightWeight(w: Id -> nat, fs: multiset<Flight>): nat
    decreases |fs|
  {
    if fs == multiset{} then 0
    else
      var f :| f in fs;
      w(f.job) + FlightWeight(w, fs - multiset{f})
  }

  lemma {:induction false} RemoveFlight(w: Id -> nat, fs: multiset<Flight>, f: Flight)
    requires f in fs
    ensures FlightWeight(w, fs) == w(f.job) + FlightWeight(w, fs - multiset{f})
    decreases |fs|
  {
    var g :| g in fs && FlightWeight(w, fs) == w(g.job) + FlightWeight(w, fs - multiset{g});
    hide FlightWeight;
    if g != f {
      RemoveBoth(fs, f, g);
      RemoveFlight(w, fs - multiset{g}, f);
      RemoveFlight(w, fs - multiset{f}, g);
    }
  }

  lemma RemoveBoth(fs: multiset<Flight>, f: Flight, g: Flight)
    requires f in fs && g in fs && f != g
    ensures fs - multiset{g} - multiset{f} == fs - multiset{f} - multiset{g}
    ensures f in fs - multiset{g} && g in fs - multiset{f}
    ensures |fs - multiset{g}| < |fs| && |fs - multiset{f}| < |fs|
  {
  }

  ghost function SetWeight(w: Id -> nat, ids: set<Id>): nat {
    if ids == {} then 0
    else
      var j :| j in ids;
      w(j) + SetWeight(w, ids - {j})
  }

  lemma {:induction false} RemoveId(w: Id -> nat, ids: set<Id>, j: Id)
    requires j in ids
    ensures SetWeight(w, ids) == w(j) + SetWeight(w, ids - {j})
    decreases ids
  {
    var k :| k in ids && SetWeight(w, ids) == w(k) + SetWeight(w, ids - {k});
    if k != j {
      RemoveId(w, ids - {k}, j);
      RemoveId(w, ids - {j}, k);
      assert ids - {k} - {j} == ids - {j} - {k};
    }
  }

  /** What may still happen: the jobs under way, and those not yet looked at. */
  ghost function Potential(w: Id -> nat, s: State): nat {
    FlightWeight(w, s.flights) + SetWeight(w, PendingIn(s))
  }

  lemma LaunchCost(w: Id -> nat, s: State, j: Id, input: Bytes)
    ensures var t := Launch(s, j, input);
            Potential(w, t) == Potential(w, s) + if j in PendingIn(s) then 0 else w(j)
  {
    hide FlightWeight, SetWeight, Serialize, PendingIn;
    var t := Launch(s, j, input);
    RemoveFlight(w, t.flights, Flight(j, input));
    assert t.flights - multiset{Flight(j, input)} == s.flights;
    OneLessPending(s, t, j);
    if j in PendingIn(s) { RemoveId(w, PendingIn(s), j); }
  }

  lemma OneLessPending(s: State, t: State, j: Id)
    requires j in t.statuses && !t.statuses[j].Pending? && t.statuses == s.statuses[j := t.statuses[j]]
    ensures PendingIn(t) == if j in PendingIn(s) then PendingIn(s) - {j} else PendingIn(s)
  {
  }

  /** Any status but `Pending` only takes a job out of the pending set. */
  lemma RecordCost(w: Id -> nat, s: State, t: State, j: Id)
    requires t.flights == s.flights && j in t.statuses && !t.statuses[j].Pending?
    requires t.statuses == s.statuses[j := t.statuses[j]]
    ensures Potential(w, t) <= Potential(w, s)
  {
    OneLessPending(s, t, j);
    hide PendingIn;
    if j in PendingIn(s) { RemoveId(w, PendingIn(s), j); }
  }

  lemma {:induction false} CascadeIntoCost(c: Config, w: Id -> nat, s: State, ds: seq<Id>)
    ensures Potential(w, CascadeInto(c, s, ds).0) <= Potential(w, s)
  {
    hide Potential, PendingIn, AllDone, GuardHolds, Launch, LaunchInput, Serialize;
    if ds != [] {
      CascadeIntoCost(c, w, s, ds[..|ds| - 1]);
      var t, j := CascadeInto(c, s, ds[..|ds| - 1]).0, ds[|ds| - 1];
      if j in t.statuses && t.statuses[j].Pending? {
        LaunchPending(w, t, j, LaunchInput(c, t.outputs, j));
        RecordCost(w, t, Skip(t, j), j);
      }
    }
  }

  lemma LaunchPending(w: Id -> nat, s: State, j: Id, input: Bytes)
    requires j in s.statuses && s.statuses[j].Pending?
    ensures Potential(w, Launch(s, j, input)) == Potential(w, s)
  {
    LaunchCost(w, s, j, input);
  }

  lemma {:induction false} CascadeCost(c: Config, w: Id -> nat, s: State, queue: seq<Id>)
    ensures Potential(w, Cascade(c, s, queue)) <= Potential(w, s)
    decreases |PendingIn(s)| + |queue|
  {
    hide Potential;
    if queue != [] {
      CascadeIntoCost(c, w, s, DependentsOf(c, queue[0]));
      var (t, skipped) := CascadeInto(c, s, DependentsOf(c, queue[0]));
      CascadeCost(c, w, t, queue[1..] + skipped);
    }
  }

  lemma ReleaseCost(c: Config, w: Id -> nat, s: State, j: Id)
    ensures Potential(w, Release(c, s, j)) <= Potential(w, s) + w(j)
  {
    hide Potential, AllDone, ForeachChildFailed, ShouldSkip, Cascade, LaunchInput, Serialize;
    RecordCost(w, s, Record(s, j, Cancelled), j);
    RecordCost(w, s, Skip(s, j), j);
    CascadeCost(c, w, Skip(s, j), [j]);
    LaunchCost(w, s, j, LaunchInput(c, s.outputs, j));
  }

  lemma {:induction false} ReleaseAllCost(c: Config, w: Id -> nat, s: State, ds: seq<Id>)
    ensures Potential(w, ReleaseAll(c, s, ds)) <= Potential(w, s) + SumOf(w, ds)
  {
    hide Potential, Release;
    if ds != [] {
      ReleaseAllCost(c, w, s, ds[..|ds| - 1]);
      ReleaseCost(c, w, ReleaseAll(c, s, ds[..|ds| - 1]), ds[|ds| - 1]);
    }
  }

  /** Receiving an event uses up the weight of its job. */
  lemma ArriveCost(w: Id -> nat, s: State, t: State, f: Flight)
    requires f in s.flights && t.flights == s.flights - multiset{f}
    requires f.job in t.statuses && !t.statuses[f.job].Pending?
    requires t.statuses == s.statuses[f.job := t.statuses[f.job]]
    ensures Potential(w, t) + w(f.job) <= Potential(w, s)
  {
    RemoveFlight(w, s.flights, f);
    RecordCost(w, s.(flights := t.flights), t, f.job);
  }

  lemma DeliverCost(c: Config, w: Id -> nat, s: State, f: Flight, elapsed: nat)
    requires ValidConfig(c) && Weighs(c, w) && f in s.flights && f.job in c.wf.jobs && s.inFlight > 0
    ensures Potential(w, Deliver(c, s, f, elapsed)) < Potential(w, s)
  {
    hide ValidConfig, Potential, ReleaseAll, AfterFailure, Serialize;
    assert w(f.job) > SumOf(w, DependentsOf(c, f.job));
    match c.run(f.job, f.input)
    case Output(bytes) =>
      var t := Succeed(s, f, elapsed, bytes);
      ArriveCost(w, s, t, f);
      ReleaseAllCost(c, w, t, DependentsOf(c, f.job));
    case Failure(reason) =>
      var t := Fail(s, f, elapsed, reason);
      FailureNeverCancels(c, t, f.job);
      ArriveCost(w, s, AfterFailure(c, t, f.job), f);
  }

  // -- Whole runs ------------------------------------------------------------

  lemma {:induction false} StepsCost(c: Config, w: Id -> nat, s: State, t: State, n: nat)
    requires ValidConfig(c) && Weighs(c, w) && Steps(c, s, t, n)
    requires Sound(c, s) && (s.success ==> Settled(c, s, {}))
    ensures Potential(w, t) + n <= Potential(w, s)
    decreases n
  {
    hide ValidConfig, Weighs, Sound, Settled, Deliver, Potential;
    if n > 0 {
      var m :| Steps(c, s, m, n - 1) && Step(c, m, t);
      StepsCost(c, w, s, m, n - 1);
      StepsSettle(c, s, m, n - 1);
      var f: Flight, elapsed: nat :| f in m.flights && t == Deliver(c, m, f, elapsed);
      SoundFlight(c, m, f);
      DeliverCost(c, w, m, f, elapsed);
    }
  }

  lemma SoundFlight(c: Config, s: State, f: Flight)
    requires Sound(c, s) && f in s.flights
    ensures f.job in c.wf.jobs && f.job !in c.pre
  {
  }

  /** For every configuration there is a bound on the number of events of its runs: no
      run goes on forever, and the receive loop always comes to its end. */
  lemma EveryRunEnds(c: Config) returns (bound: nat)
    requires ValidConfig(c)
    ensures forall s, n: nat :: Steps(c, Start(c), s, n) ==> n <= bound
  {
    hide ValidConfig, Start, Sound, Settled, Potential, Steps;
    var w := WeightsExist(c);
    bound := Potential(w, Start(c));
    StartSettled(c);
    forall s, n: nat | Steps(c, Start(c), s, n) ensures n <= bound {
      StepsCost(c, w, Start(c), s, n);
    }
  }
}
