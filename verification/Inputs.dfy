/** What the components are run on. */
module Inputs {
  import opened Collections
  import opened Graph
  import opened Workflows
  import opened States
  import opened FanIns
  import opened Scheduler
  import opened Settling
  import opened Moves
  import opened Discipline
  import opened Refinement

  // -- Jobs with an input of their own, in any run ---------------------------

  /** j is not fed from a foreach job, or waits for nothing. */
  ghost predicate OnItsOwn(c: Config, j: Id) {
    j in c.wf.jobs && (c.wf.jobs[j].inputFrom.None? || DepsAt(c, j) == [])
  }

  /** The flight or the outcome of each such job is that of its own input. */
  ghost predicate OwnRight(c: Config, s: State) {
    && (forall f :: f in s.flights && OnItsOwn(c, f.job) ==> f.input == OwnInput(c, f.job))
    && (forall j :: j in s.outputs && OnItsOwn(c, j) ==> c.run(j, OwnInput(c, j)) == Output(s.outputs[j]))
    && (forall j :: StatusOf(s, j).Failed? && OnItsOwn(c, j) ==>
          c.run(j, OwnInput(c, j)) == Failure(StatusOf(s, j).reason))
  }

  lemma NotFed(c: Config, outputs: map<Id, Bytes>, j: Id)
    requires j in c.wf.jobs && c.wf.jobs[j].inputFrom.None?
    ensures LaunchInput(c, outputs, j) == OwnInput(c, j)
  {
  }

  lemma MoveOwn(c: Config, s: State, j: Id)
    requires OwnRight(c, s) && j in c.wf.jobs && DepsAt(c, j) != []
    ensures OwnRight(c, Move(c, s, j))
  {
    hide Serialize, ShouldSkip, OwnInput, LaunchInput, StatusOf, DepsAt;
    MoveStatus(c, s, j);
    var input := LaunchInput(c, s.outputs, j);
    if c.wf.jobs[j].inputFrom.None? { NotFed(c, s.outputs, j); }
    assert forall f :: f in Move(c, s, j).flights ==> f in s.flights || f == Flight(j, input);
  }

  lemma {:induction false} PlayOwn(c: Config, s: State, d: Id, ms: seq<Look>)
    requires OwnRight(c, s) && Trace(c, s, ms) && ListedWait(c, d, ms)
    ensures OwnRight(c, Play(c, s, ms))
  {
    hide OwnRight, Move, WaitsFor, DepsAt, AllDone;
    if ms != [] {
      var front, m := ms[..|ms| - 1], ms[|ms| - 1];
      assert ms == front + [m] && m in ms && forall k :: k in front ==> k in ms;
      PlayOwn(c, s, d, front);
      TraceWaits(c, s, d, front);
      LookedWaits(c, d, Play(c, s, front), front, m);
      var first := WaitsFirst(c, m.job, d);
      MoveOwn(c, Play(c, s, front), m.job);
    }
  }

  lemma SucceedOwn(c: Config, s: State, f: Flight, elapsed: nat, bytes: Bytes)
    requires OwnRight(c, s) && f in s.flights && s.inFlight > 0 && c.run(f.job, f.input) == Output(bytes)
    ensures OwnRight(c, Succeed(s, f, elapsed, bytes))
  {
    hide OnItsOwn, OwnInput, StatusOf;
    SucceedStatus(s, f, elapsed, bytes);
    StatusesAfter(s, Succeed(s, f, elapsed, bytes), f.job, Succeeded(elapsed));
  }

  lemma FailOwn(c: Config, s: State, f: Flight, elapsed: nat, reason: string, halted: bool)
    requires OwnRight(c, s) && f in s.flights && s.inFlight > 0 && c.run(f.job, f.input) == Failure(reason)
    ensures OwnRight(c, Fail(s, f, elapsed, reason).(halted := halted))
  {
    hide OnItsOwn, OwnInput, Serialize;
  }

  lemma DeliverOwn(c: Config, s: State, f: Flight, elapsed: nat)
    requires ValidConfig(c) && Sound(c, s) && OwnRight(c, s) && f in s.flights && s.inFlight > 0
    ensures OwnRight(c, Deliver(c, s, f, elapsed))
  {
    hide ValidConfig, Sound, OwnRight, ReleaseAll, AfterFailure, Succeed, Fail, Trace, Play, NoFailure, DependentsOf;
    match c.run(f.job, f.input)
    case Output(bytes) =>
      var t := Succeed(s, f, elapsed, bytes);
      SucceedOwn(c, s, f, elapsed, bytes);
      SucceedStatus(s, f, elapsed, bytes);
      if s.success {
        SucceedSound(c, s, f, elapsed, bytes);
        SoundNoFailure(c, t);
        forall j | j in DependentsOf(c, f.job) ensures j in c.wf.jobs { DependentsExact(c, f.job, j); }
        var ms := ReleaseAllTrace(c, t, DependentsOf(c, f.job));
        assert WithinList(c, f.job, ms);
        ListedAreWaiters(c, f.job, ms);
        PlayOwn(c, t, f.job, ms);
      }
    case Failure(reason) =>
      var t := Fail(s, f, elapsed, reason);
      FailureNeverCancels(c, t, f.job);
      FailOwn(c, s, f, elapsed, reason, AfterFailure(c, t, f.job).halted);
  }

  lemma StartOwn(c: Config)
    requires ValidConfig(c)
    ensures OwnRight(c, Start(c))
  {
    hide ValidConfig, Start, Sound, LaunchInput, OwnInput;
    StartFlights(c);
    StartStatuses(c);
    StartSettled(c);
    forall f | f in Start(c).flights && OnItsOwn(c, f.job) ensures f.input == OwnInput(c, f.job) {
      if c.wf.jobs[f.job].inputFrom.None? { NotFed(c, map[], f.job); } else { NoDepsIsRoot(c, f.job); }
    }
    forall j ensures !StatusOf(Start(c), j).Failed? { NobodyFailedYet(c, Start(c), j); }
  }

  lemma NobodyFailedYet(c: Config, s: State, j: Id)
    requires Sound(c, s) && s.success
    ensures !StatusOf(s, j).Failed?
  {
  }

  lemma NoDepsIsRoot(c: Config, j: Id)
    requires ValidConfig(c) && j in c.wf.jobs && DepsAt(c, j) == []
    ensures IsRoot(c, j)
  {
  }

  lemma {:induction false} StepsOwn(c: Config, s: State, n: nat)
    requires ValidConfig(c) && Steps(c, Start(c), s, n)
    ensures OwnRight(c, s)
    decreases n
  {
    hide ValidConfig, Start, OwnRight, Sound, Deliver, Settled;
    if n == 0 {
      StartOwn(c);
    } else {
      var m :| Steps(c, Start(c), m, n - 1) && Step(c, m, s);
      StepsOwn(c, m, n - 1);
      assert Reachable(c, m);
      ReachableSettled(c, m);
      var f: Flight, elapsed: nat :| f in m.flights && s == Deliver(c, m, f, elapsed);
      DeliverOwn(c, m, f, elapsed);
    }
  }

  lemma ReachableOwn(c: Config, s: State)
    requires ValidConfig(c) && Reachable(c, s)
    ensures OwnRight(c, s)
  {
    hide ValidConfig, Start, OwnRight;
    var n: nat :| Steps(c, Start(c), s, n);
    StepsOwn(c, s, n);
  }

  /** In every state of every run: a job that is not fed from a foreach job, or that waits for
      nothing, is under way on the input the file gives it, and on no bytes if it gives none. */
  lemma JobsRunOnTheirInput(c: Config, s: State, f: Flight)
    requires ValidConfig(c) && Reachable(c, s) && f in s.flights
    ensures f.job in c.wf.jobs
    ensures c.wf.jobs[f.job].inputFrom.None? || DepsAt(c, f.job) == [] ==>
        f.input == if c.wf.jobs[f.job].input.Some? then c.wf.jobs[f.job].input.value else ""
  {
    hide ValidConfig, Reachable, Sound;
    ReachableOwn(c, s);
    ReachableSettled(c, s);
    FlightKnown(c, s, f);
  }

  lemma FlightKnown(c: Config, s: State, f: Flight)
    requires Sound(c, s) && f in s.flights
    ensures f.job in c.wf.jobs
  {
  }

  /** And what it ends with is what its component makes of that input. */
  lemma OutcomesAreOfTheirInput(c: Config, s: State, j: Id)
    requires ValidConfig(c) && Reachable(c, s)
    requires j in c.wf.jobs && (c.wf.jobs[j].inputFrom.None? || DepsAt(c, j) == [])
    ensures j in s.outputs ==>
        c.run(j, if c.wf.jobs[j].input.Some? then c.wf.jobs[j].input.value else "") == Output(s.outputs[j])
    ensures j in s.statuses && s.statuses[j].Failed? ==>
        c.run(j, if c.wf.jobs[j].input.Some? then c.wf.jobs[j].input.value else "") == Failure(s.statuses[j].reason)
  {
    hide ValidConfig, Reachable, DepsAt;
    ReachableOwn(c, s);
    assert OnItsOwn(c, j);
    assert j in s.statuses ==> StatusOf(s, j) == s.statuses[j];
  }

  // -- Fan-in jobs, in runs that start jobs once -----------------------------

  /** Everything under way or ended had the input the outputs of now would give it. */
  ghost predicate InputsStand(c: Config, s: State) {
    && (forall f :: f in s.flights ==> f.input == EvalInput(c, s.outputs, f.job))
    && (forall j :: j in s.outputs ==> StatusOf(s, j).Succeeded? && j in c.wf.jobs && j !in c.pre
                                       && c.run(j, EvalInput(c, s.outputs, j)) == Output(s.outputs[j]))
    && (forall j :: StatusOf(s, j).Failed? ==>
          j in c.wf.jobs && j !in c.pre && c.run(j, EvalInput(c, s.outputs, j)) == Failure(StatusOf(s, j).reason))
  }

  /** A new output does not touch the input of a job whose dependencies were done without it. */
  lemma InputKeeps(c: Config, s: State, j: Id, x: Id, bytes: Bytes)
    requires ValidConfig(c) && Ordered(c, s) && j in c.wf.jobs && j !in c.pre && !StatusOf(s, j).Pending?
    requires !IsDone(StatusOf(s, x))
    ensures EvalInput(c, s.outputs[x := bytes], j) == EvalInput(c, s.outputs, j)
  {
    hide ValidConfig, LaunchInput, OwnInput, StatusOf;
    SameInput(c, j, s.outputs[x := bytes], s.outputs);
  }

  lemma MoveStands(c: Config, s: State, j: Id)
    requires InputsStand(c, s) && ReadyMove(c, s, j)
    ensures InputsStand(c, Move(c, s, j))
  {
    hide Serialize, ShouldSkip, OwnInput, LaunchInput, StatusOf, AllDone;
    MoveStatus(c, s, j);
    var input := LaunchInput(c, s.outputs, j);
    ReadyIsNoRoot(c, s, j);
    assert forall f :: f in Move(c, s, j).flights ==> f in s.flights || f == Flight(j, input);
    NoOutputYet(c, s, j);
  }

  lemma ReadyIsNoRoot(c: Config, s: State, j: Id)
    requires ReadyMove(c, s, j)
    ensures !IsRoot(c, j)
  {
  }

  lemma NoOutputYet(c: Config, s: State, j: Id)
    requires InputsStand(c, s) && ReadyMove(c, s, j)
    ensures j !in s.outputs
  {
    hide EvalInput;
  }

  lemma {:induction false} PlayStands(c: Config, s: State, ms: seq<Look>)
    requires InputsStand(c, s) && Proper(c, s, ms)
    ensures InputsStand(c, Play(c, s, ms))
  {
    hide InputsStand, Move, ReadyMove, Orderly;
    if ms != [] {
      PlayStands(c, s, ms[..|ms| - 1]);
      MoveStands(c, Play(c, s, ms[..|ms| - 1]), ms[|ms| - 1].job);
    }
  }

  lemma SucceedStands(c: Config, s: State, f: Flight, elapsed: nat, bytes: Bytes)
    requires ValidConfig(c) && Orderly(c, s) && InputsStand(c, s) && f in s.flights && s.inFlight > 0
    requires c.run(f.job, f.input) == Output(bytes)
    ensures InputsStand(c, Succeed(s, f, elapsed, bytes))
  {
    hide ValidConfig, Orderly, Sound, StartedOnce, SkipsExact, EvalInput, StatusOf, Succeed, Ordered, InputsStand;
    OrderlyParts(c, s);
    forall g | g in s.flights
      ensures g.job in c.wf.jobs && g.job !in c.pre && StatusOf(s, g.job).Running?
    {
      FlightJob(c, s, g);
    }
    SucceedStatus(s, f, elapsed, bytes);
    var t := Succeed(s, f, elapsed, bytes);
    StatusesAfter(s, t, f.job, Succeeded(elapsed));
    forall j | j in c.wf.jobs && j !in c.pre && !StatusOf(s, j).Pending?
      ensures EvalInput(c, t.outputs, j) == EvalInput(c, s.outputs, j)
    {
      InputKeeps(c, s, j, f.job, bytes);
    }
    NewOutputStands(c, s, t, f, bytes);
  }

  lemma NewOutputStands(c: Config, s: State, t: State, f: Flight, bytes: Bytes)
    requires InputsStand(c, s) && f in s.flights && c.run(f.job, f.input) == Output(bytes)
    requires t.outputs == s.outputs[f.job := bytes] && t.flights == s.flights - multiset{f}
    requires StatusOf(t, f.job).Succeeded? && forall k :: k != f.job ==> StatusOf(t, k) == StatusOf(s, k)
    requires forall g :: g in s.flights ==> g.job in c.wf.jobs && g.job !in c.pre && StatusOf(s, g.job).Running?
    requires forall j :: j in c.wf.jobs && j !in c.pre && !StatusOf(s, j).Pending? ==>
        EvalInput(c, t.outputs, j) == EvalInput(c, s.outputs, j)
    ensures InputsStand(c, t)
  {
    hide EvalInput, StatusOf;
    forall g | g in t.flights ensures g.input == EvalInput(c, t.outputs, g.job) { assert g in s.flights; }
    forall j | j in t.outputs
      ensures StatusOf(t, j).Succeeded? && j in c.wf.jobs && j !in c.pre
      ensures c.run(j, EvalInput(c, t.outputs, j)) == Output(t.outputs[j])
    {
      if j == f.job { assert f.input == EvalInput(c, s.outputs, j); }
    }
    forall j | StatusOf(t, j).Failed?
      ensures j in c.wf.jobs && j !in c.pre && c.run(j, EvalInput(c, t.outputs, j)) == Failure(StatusOf(t, j).reason)
    {
      assert j != f.job;
    }
  }

  lemma FailStands(c: Config, s: State, f: Flight, elapsed: nat, reason: string, halted: bool)
    requires Orderly(c, s) && InputsStand(c, s) && f in s.flights && s.inFlight > 0
    requires f.job in c.wf.jobs && f.job !in c.pre && c.run(f.job, f.input) == Failure(reason)
    ensures InputsStand(c, Fail(s, f, elapsed, reason).(halted := halted))
  {
    hide Orderly, Sound, StartedOnce, SkipsExact, Ordered, EvalInput, StatusOf, Fail, InputsStand;
    OrderlyParts(c, s);
    FailStatus(s, f, elapsed, reason);
    var t := Fail(s, f, elapsed, reason);
    StatusesAfter(s, t.(halted := halted), f.job, Failed(elapsed, reason));
    NewFailureStands(c, s, t.(halted := halted), f, reason);
  }

  lemma FailStatus(s: State, f: Flight, elapsed: nat, reason: string)
    requires s.inFlight > 0
    ensures var t := Fail(s, f, elapsed, reason);
            && t.statuses == s.statuses[f.job := Failed(elapsed, reason)] && t.outputs == s.outputs
            && t.flights == s.flights - multiset{f}
  {
    hide Serialize;
  }

  lemma NewFailureStands(c: Config, s: State, t: State, f: Flight, reason: string)
    requires InputsStand(c, s) && f in s.flights && c.run(f.job, f.input) == Failure(reason)
    requires f.job in c.wf.jobs && f.job !in c.pre && StatusOf(s, f.job).Running?
    requires t.outputs == s.outputs && t.flights == s.flights - multiset{f}
    requires StatusOf(t, f.job).Failed? && StatusOf(t, f.job).reason == reason
    requires forall k :: k != f.job ==> StatusOf(t, k) == StatusOf(s, k)
    ensures InputsStand(c, t)
  {
    hide EvalInput, StatusOf;
    forall g | g in t.flights ensures g.input == EvalInput(c, t.outputs, g.job) { assert g in s.flights; }
  }

  lemma DeliverStands(c: Config, s: State, f: Flight, elapsed: nat)
    requires Plain(c) && Orderly(c, s) && InputsStand(c, s) && f in s.flights && s.inFlight > 0
    ensures InputsStand(c, Deliver(c, s, f, elapsed))
  {
    hide Plain, ValidConfig, Orderly, InputsStand, ReleaseAll, AfterFailure, Succeed, Fail, Touched, JustDone, Sound,
      Proper;
    PlainValid(c);
    OrderlyParts(c, s);
    FlightJob(c, s, f);
    match c.run(f.job, f.input)
    case Output(bytes) =>
      SucceedStatus(s, f, elapsed, bytes);
      SucceedStands(c, s, f, elapsed, bytes);
      if s.success {
        var ms := SuccessIsProper(c, s, f, elapsed, bytes);
        PlayStands(c, Succeed(s, f, elapsed, bytes), ms);
      }
    case Failure(reason) =>
      var t := Fail(s, f, elapsed, reason);
      FailureNeverCancels(c, t, f.job);
      FailStands(c, s, f, elapsed, reason, AfterFailure(c, t, f.job).halted);
  }

  lemma StartStands(c: Config)
    requires ValidConfig(c)
    ensures InputsStand(c, Start(c))
  {
    hide ValidConfig, Start, Sound, EvalInput;
    StartFlights(c);
    StartStatuses(c);
    StartSettled(c);
    forall j ensures !StatusOf(Start(c), j).Failed? { NobodyFailedYet(c, Start(c), j); }
  }

  lemma {:induction false} StepsStand(c: Config, s: State, n: nat)
    requires Plain(c) && Steps(c, Start(c), s, n)
    ensures InputsStand(c, s)
    decreases n
  {
    hide Plain, ValidConfig, Start, InputsStand, Orderly, Deliver;
    PlainValid(c);
    if n == 0 {
      StartStands(c);
    } else {
      var m :| Steps(c, Start(c), m, n - 1) && Step(c, m, s);
      StepsStand(c, m, n - 1);
      assert Reachable(c, m);
      ReachableOrderly(c, m);
      var f: Flight, elapsed: nat :| f in m.flights && s == Deliver(c, m, f, elapsed);
      DeliverStands(c, m, f, elapsed);
    }
  }

  lemma ReachableStands(c: Config, s: State)
    requires Plain(c) && Reachable(c, s)
    ensures InputsStand(c, s)
  {
    hide Plain, Start, InputsStand;
    var n: nat :| Steps(c, Start(c), s, n);
    StepsStand(c, s, n);
  }

  /** A job that waits for something and is fed from a foreach job is under way on what the
      fan-in makes of the children's outputs, now as when it was launched; where the fan-in
      makes nothing, on the input the file gives it. */
  lemma FedJobsRunOnTheirFanIn(c: Config, s: State, f: Flight)
    requires Plain(c) && Reachable(c, s) && f in s.flights && DepsAt(c, f.job) != []
    ensures f.job in c.wf.jobs
    ensures var fanin := FaninInput(c.codec, c.wf.jobs, c.children, s.outputs, f.job);
            f.input == if fanin.Some? then fanin.value
                       else if c.wf.jobs[f.job].input.Some? then c.wf.jobs[f.job].input.value else ""
  {
    hide Plain, Reachable, ValidConfig, FaninInput, Sound;
    PlainValid(c);
    ReachableStands(c, s);
    ReachableSettled(c, s);
    FlightKnown(c, s, f);
  }

  /** And it ends with what its component makes of that. */
  lemma OutcomesAreOfTheirFanIn(c: Config, s: State, j: Id)
    requires Plain(c) && Reachable(c, s) && DepsAt(c, j) != [] && (j in s.outputs || StatusOf(s, j).Failed?)
    ensures j in c.wf.jobs
    ensures var fanin := FaninInput(c.codec, c.wf.jobs, c.children, s.outputs, j);
            c.run(j, if fanin.Some? then fanin.value
                     else if c.wf.jobs[j].input.Some? then c.wf.jobs[j].input.value else "")
              == if j in s.outputs then Output(s.outputs[j]) else Failure(StatusOf(s, j).reason)
  {
    hide Plain, Reachable, ValidConfig, FaninInput;
    ReachableStands(c, s);
  }
}
