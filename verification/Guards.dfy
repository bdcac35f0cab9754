/** What a guard can see when it is asked. */
module Guards {
  import opened Collections
  import opened Graph
  import opened Workflows
  import opened States
  import opened Whens
  import opened Scheduler
  import opened Settling
  import opened Moves
  import opened Discipline

  // -- Which answers are settled ---------------------------------------------

  /** x waits for everything unfinished that j waits for. */
  ghost predicate Behind(c: Config, j: Id, x: Id) {
    forall m :: m in DepsAt(c, j) && m !in c.pre ==> WaitsFor(c, x, m)
  }

  /** Some guard could make a run skip x. */
  ghost predicate MaySkip(c: Config, x: Id) {
    exists g :: HasGuard(c, g) && !AllReused(c, g) && (g == x || WaitsFor(c, x, g))
  }

  /** x is neither j, nor reused, nor up- or downstream of j. */
  ghost predicate Loose(c: Config, j: Id, x: Id) {
    x in c.wf.jobs && x !in c.pre && x != j && !WaitsFor(c, j, x) && !WaitsFor(c, x, j)
  }

  /** What the status of x can read when j is decided: never a failure, since a run that
      has failed decides nothing any more. */
  ghost predicate MayShow(c: Config, j: Id, x: Id, text: string) {
    if x in c.pre then text == "SUCCESS"
    else if WaitsFor(c, j, x) then text == "SUCCESS" || text == "SKIPPED"
    else
      || text == "UNKNOWN"
      || (text == "SUCCESS" && Loose(c, j, x) && !Behind(c, j, x))
      || (text == "SKIPPED" && Loose(c, j, x) && MaySkip(c, x))
  }

  ghost predicate Shown(c: Config, j: Id, a: map<Id, Status>) {
    forall x :: MayShow(c, j, x, StatusText(a, x))
  }

  ghost predicate SameAbove(c: Config, j: Id, a: map<Id, Status>, b: map<Id, Status>) {
    forall x :: WaitsFor(c, j, x) ==> StatusText(a, x) == StatusText(b, x)
  }

  /** The answer to j's guard depends on nothing but the jobs that j waits for. */
  ghost predicate LocalGuard(c: Config, j: Id) {
    HasGuard(c, j) ==> forall a, b :: Shown(c, j, a) && Shown(c, j, b) && SameAbove(c, j, a, b) ==>
      EvalWhen(c.wf.jobs[j].whenExpr.value, a) == EvalWhen(c.wf.jobs[j].whenExpr.value, b)
  }

  /** Guards that are never asked, those of jobs that wait for reused jobs only, do not matter. */
  ghost predicate LocalGuards(c: Config) {
    forall j :: j in c.wf.jobs && j !in c.pre && !AllReused(c, j) ==> LocalGuard(c, j)
  }

  /** The guard is asked, and names a job. */
  ghost predicate Asks(c: Config, y: Id, z: Id) {
    HasGuard(c, y) && y !in c.pre && !AllReused(c, y) && GuardReads(c.wf.jobs[y].whenExpr.value) == Some(z)
  }

  /** The guard of y tells a job that was skipped from one that has not ended. */
  ghost predicate AsksForSkips(c: Config, y: Id) {
    && HasGuard(c, y) && GuardReads(c.wf.jobs[y].whenExpr.value).Some?
    && (GuardText(c.wf.jobs[y].whenExpr.value) == "SKIPPED" || GuardText(c.wf.jobs[y].whenExpr.value) == "UNKNOWN")
  }

  /** As can be seen from the workflow file: a guard is local if the job it names, if any, is
      upstream, downstream, reused, no job of the workflow, the guarded job itself, or one
      that cannot have run by then and cannot have been skipped or is not asked about that. */
  lemma NamedJobIsLocal(c: Config, j: Id)
    requires forall z :: Asks(c, j, z) && Loose(c, j, z) ==>
        Behind(c, j, z) && (!MaySkip(c, z) || !AsksForSkips(c, j))
    requires j !in c.pre && !AllReused(c, j)
    ensures LocalGuard(c, j)
  {
    hide WaitsFor, EvalWhen, GuardReads, GuardText, StatusText, AllReused, Behind, MaySkip, Loose;
    if HasGuard(c, j) {
      var expr := c.wf.jobs[j].whenExpr.value;
      forall a, b | Shown(c, j, a) && Shown(c, j, b) && SameAbove(c, j, a, b)
        ensures EvalWhen(expr, a) == EvalWhen(expr, b)
      {
        if GuardReads(expr).Some? {
          var z := GuardReads(expr).value;
          assert MayShow(c, j, z, StatusText(a, z)) && MayShow(c, j, z, StatusText(b, z));
        }
        GuardNotices(expr, a, b);
      }
    }
  }

  /** Whatever job it names, a guard that compares with a text this job cannot show is local;
      "FAILED" is such a text for every job. */
  lemma ImpossibleTextIsLocal(c: Config, j: Id, z: Id, op: string, text: string)
    requires HasGuard(c, j) && c.wf.jobs[j].whenExpr == Some(Comparing(z, op, text))
    requires ' ' !in z && (op == "==" || op == "!=")
    requires text != "" && text[0] != '\'' && text[|text| - 1] != '\''
    requires text == "FAILED" || !MayShow(c, j, z, text)
    ensures LocalGuard(c, j)
  {
    hide WaitsFor, EvalWhen, StatusText, Comparing;
    var expr := c.wf.jobs[j].whenExpr.value;
    FailureIsNoText(c, j, z);
    hide MayShow;
    forall a, b | Shown(c, j, a) && Shown(c, j, b) ensures EvalWhen(expr, a) == EvalWhen(expr, b) {
      GuardMeaning(z, op, text, a);
      GuardMeaning(z, op, text, b);
      assert MayShow(c, j, z, StatusText(a, z)) && MayShow(c, j, z, StatusText(b, z));
    }
  }

  lemma FailureIsNoText(c: Config, j: Id, z: Id)
    ensures !MayShow(c, j, z, "FAILED")
  {
    hide WaitsFor, Loose, Behind, MaySkip;
    assert "SUCCESS"[0] == 'S' && "SKIPPED"[0] == 'S' && "UNKNOWN"[0] == 'U' && "FAILED"[0] == 'F';
  }

  // -- What a run shows ------------------------------------------------------

  /** A job that has succeeded did not wait for everything a pending job is still waiting for. */
  ghost predicate Timely(c: Config, s: State) {
    forall x, j :: j in c.wf.jobs && StatusOf(s, j).Pending? && x !in c.pre && StatusOf(s, x).Succeeded? ==>
          !Behind(c, j, x)
  }

  /** j is about to be decided for the first time. */
  ghost predicate Undecided(c: Config, s: State, j: Id) {
    && Orderly(c, s) && Timely(c, s) && s.success
    && Actionable(c, s, j) && !AllReused(c, j) && StatusOf(s, j).Pending?
  }

  lemma MoveTimely(c: Config, s: State, j: Id)
    requires Timely(c, s)
    ensures Timely(c, Move(c, s, j))
  {
    hide Move, StatusOf, Behind, ShouldSkip;
    MoveStatus(c, s, j);
  }

  lemma SucceedTimely(c: Config, s: State, f: Flight, elapsed: nat, bytes: Bytes)
    requires ValidConfig(c) && Orderly(c, s) && Settled(c, s, {}) && f in s.flights && s.inFlight > 0
    ensures Timely(c, Succeed(s, f, elapsed, bytes))
  {
    hide ValidConfig, Orderly, Sound, Ordered, StartedOnce, SkipsExact, Succeed, WaitsFor, StatusOf;
    OrderlyParts(c, s);
    SucceedStatus(s, f, elapsed, bytes);
    var t := Succeed(s, f, elapsed, bytes);
    StatusesAfter(s, t, f.job, Succeeded(elapsed));
    ReusedDone(c, s);
    forall x, j | j in c.wf.jobs && StatusOf(t, j).Pending? && x !in c.pre && StatusOf(t, x).Succeeded?
      ensures !Behind(c, j, x)
    {
      var m :| m in DepsAt(c, j) && !IsDone(StatusOf(s, m));
      if WaitsFor(c, x, m) { WaitersPending(c, s, x, m); }
    }
  }

  lemma SkipCause(c: Config, s: State, x: Id)
    requires Orderly(c, s) && x in c.wf.jobs && StatusOf(s, x).Skipped?
    ensures x !in c.pre && !AllReused(c, x)
    ensures HasGuard(c, x) || exists d :: d in DepsAt(c, x) && StatusOf(s, d).Skipped?
  {
    hide HasGuard, AllReused;
    OrderlyParts(c, s);
    ReusedDone(c, s);
    hide Sound, Ordered, StartedOnce;
  }

  /** A job is skipped only below a guard. */
  lemma {:induction false} SkippedMaySkip(c: Config, s: State, x: Id)
    requires ValidConfig(c) && Orderly(c, s) && x in c.wf.jobs && StatusOf(s, x).Skipped?
    ensures MaySkip(c, x)
    decreases Position(c.dag.topoOrder, Named(c, x))
  {
    hide Orderly, ValidConfig, WaitsFor, HasGuard, AllReused;
    SkipCause(c, s, x);
    if !HasGuard(c, x) {
      var d :| d in DepsAt(c, x) && StatusOf(s, d).Skipped?;
      DepEarlier(c, x, d);
      SkippedMaySkip(c, s, d);
      WaitsDirectly(c, x, d);
      var g :| HasGuard(c, g) && !AllReused(c, g) && (g == d || WaitsFor(c, d, g));
      if g != d { WaitsTransitive(c, x, d, g); }
    }
  }

  /** Whatever is undecided, its guard is shown no more than `MayShow` says. */
  lemma ReadyShown(c: Config, s: State, j: Id)
    requires ValidConfig(c) && Undecided(c, s, j)
    ensures Shown(c, j, s.statuses)
  {
    hide ValidConfig, Orderly, Timely, AllDone, AllReused, WaitsFor, Loose, Behind, MaySkip, StatusText;
    forall x ensures MayShow(c, j, x, StatusText(s.statuses, x)) { ReadyShowsOne(c, s, j, x); }
  }

  lemma TextOf(s: State, x: Id)
    ensures StatusText(s.statuses, x) == match StatusOf(s, x)
      case Succeeded(_) => "SUCCESS" case Failed(_, _) => "FAILED" case Skipped => "SKIPPED" case _ => "UNKNOWN"
  {
  }

  lemma ReadyShowsOne(c: Config, s: State, j: Id, x: Id)
    requires ValidConfig(c) && Undecided(c, s, j)
    ensures MayShow(c, j, x, StatusText(s.statuses, x))
  {
    hide ValidConfig, Orderly, Sound, Ordered, StartedOnce, SkipsExact, AllDone, AllReused, WaitsFor, Behind, MaySkip,
      StatusText, StatusOf;
    OrderlyParts(c, s);
    ReusedDone(c, s);
    TextOf(s, x);
    NoneFailed(c, s, x);
    if WaitsFor(c, j, x) { UpstreamDone(c, s, j, x); }
    if WaitsFor(c, x, j) { WaitersPending(c, s, x, j); }
    if StatusOf(s, x).Skipped? && x in c.wf.jobs { SkippedMaySkip(c, s, x); }
    assert x in c.wf.jobs && x !in c.pre && x != j && !WaitsFor(c, j, x) && !WaitsFor(c, x, j) ==> Loose(c, j, x);
  }

  lemma NoneFailed(c: Config, s: State, x: Id)
    requires Sound(c, s) && s.success
    ensures !StatusOf(s, x).Failed? && !StatusOf(s, x).Cancelled?
  {
  }

  // -- When a job was decided ------------------------------------------------

  /** Some earlier moment t of the run, at which j was decided the way s shows, and since
      when nothing upstream of j has changed. */
  ghost predicate DecidedAt(c: Config, s: State, j: Id, t: State) {
    && Undecided(c, t, j) && (StatusOf(s, j).Skipped? <==> ShouldSkip(c, t, j))
    && forall x :: WaitsFor(c, j, x) ==> StatusOf(s, x) == StatusOf(t, x)
  }

  /** Looking at further jobs leaves a decided job and all it waits for as they are. */
  lemma DecidedMove(c: Config, s: State, k: Id, j: Id, t: State)
    requires ValidConfig(c) && Orderly(c, s) && ReadyMove(c, s, k) && DecidedAt(c, s, j, t)
    requires j in c.wf.jobs && j !in c.pre && !StatusOf(s, j).Pending?
    ensures DecidedAt(c, Move(c, s, k), j, t) && !StatusOf(Move(c, s, k), j).Pending?
  {
    hide ValidConfig, Sound, StartedOnce, SkipsExact, WaitsFor, StatusOf, ShouldSkip, Move, Undecided, AllDone;
    MoveStatus(c, s, k);
    forall x | WaitsFor(c, j, x) ensures StatusOf(Move(c, s, k), x) == StatusOf(s, x) {
      DecidedDone(c, s, j, x);
    }
  }

  lemma DecidedDone(c: Config, s: State, j: Id, x: Id)
    requires ValidConfig(c) && Orderly(c, s) && j in c.wf.jobs && j !in c.pre && !StatusOf(s, j).Pending?
    requires WaitsFor(c, j, x)
    ensures IsDone(StatusOf(s, x))
  {
    OrderlyParts(c, s);
    hide ValidConfig, Sound, StartedOnce, SkipsExact, WaitsFor, StatusOf, Orderly;
    UpstreamDone(c, s, j, x);
  }

  /** The moment of the decision within one event. */
  lemma {:induction false} DecisionInTrace(c: Config, s: State, ms: seq<Look>, j: Id) returns (t: State)
    requires ValidConfig(c) && Proper(c, s, ms) && Timely(c, s) && s.success && j in c.wf.jobs && j !in c.pre
    requires StatusOf(s, j).Pending? && !StatusOf(Play(c, s, ms), j).Pending?
    ensures DecidedAt(c, Play(c, s, ms), j, t) && Final(s, t)
    decreases |ms|
  {
    hide ValidConfig, Orderly, Timely, StatusOf, ShouldSkip, Move, ReadyMove, WaitsFor, DecidedAt, Undecided, Final;
    var front, k := ms[..|ms| - 1], ms[|ms| - 1].job;
    var u := Play(c, s, front);
    if !StatusOf(u, j).Pending? {
      t := DecisionInTrace(c, s, front, j);
      DecidedMove(c, u, k, j, t);
    } else {
      PlayTimely(c, s, front);
      PlayFinal(c, s, front);
      t := u;
      FirstDecision(c, u, k, j);
    }
  }

  lemma FirstDecision(c: Config, u: State, k: Id, j: Id)
    requires ValidConfig(c) && Orderly(c, u) && Timely(c, u) && u.success && ReadyMove(c, u, k)
    requires StatusOf(u, j).Pending? && !StatusOf(Move(c, u, k), j).Pending?
    ensures DecidedAt(c, Move(c, u, k), j, u)
  {
    hide ValidConfig, Orderly, Timely, StatusOf, ShouldSkip, Move, WaitsFor, AllDone, AllReused;
    MoveStatus(c, u, k);
    WaitsNotItself(c, j);
  }

  lemma {:induction false} PlayTimely(c: Config, s: State, ms: seq<Look>)
    requires Timely(c, s) && s.success
    ensures Timely(c, Play(c, s, ms)) && Play(c, s, ms).success
  {
    hide Timely, Move;
    if ms != [] {
      PlayTimely(c, s, ms[..|ms| - 1]);
      MoveTimely(c, Play(c, s, ms[..|ms| - 1]), ms[|ms| - 1].job);
      MoveStatus(c, Play(c, s, ms[..|ms| - 1]), ms[|ms| - 1].job);
    }
  }

  lemma {:induction false} PlayFinal(c: Config, s: State, ms: seq<Look>)
    requires Proper(c, s, ms)
    ensures Final(s, Play(c, s, ms))
  {
    hide StatusOf, Move, Orderly, ShouldSkip, AllDone, AllReused;
    if ms != [] {
      var front, k := ms[..|ms| - 1], ms[|ms| - 1].job;
      PlayFinal(c, s, front);
      MoveStatus(c, Play(c, s, front), k);
    }
  }

  /** An event leaves a decided job and all it waits for as they are. */
  lemma DecidedEvent(c: Config, m: State, f: Flight, elapsed: nat, j: Id, t: State)
    requires Plain(c) && Orderly(c, m) && f in m.flights && m.inFlight > 0 && DecidedAt(c, m, j, t)
    requires j in c.wf.jobs && j !in c.pre && !StatusOf(m, j).Pending?
    ensures DecidedAt(c, Deliver(c, m, f, elapsed), j, t)
  {
    hide Plain, ValidConfig, Orderly, WaitsFor, StatusOf, ShouldSkip, Undecided, Deliver, Timely;
    PlainValid(c);
    DeliverOrderly(c, m, f, elapsed);
    var s := Deliver(c, m, f, elapsed);
    forall x | WaitsFor(c, j, x) ensures StatusOf(s, x) == StatusOf(m, x) { DecidedDone(c, m, j, x); }
    if StatusOf(m, j).Running? {
      RunningNotSkipped(c, m, f, elapsed, j);
    } else {
      DecidedEnded(c, m, j);
    }
  }

  lemma DecidedEnded(c: Config, m: State, j: Id)
    requires Orderly(c, m) && !StatusOf(m, j).Pending? && !StatusOf(m, j).Running?
    ensures IsTerminal(StatusOf(m, j))
  {
  }

  lemma RunningNotSkipped(c: Config, m: State, f: Flight, elapsed: nat, j: Id)
    requires Plain(c) && Orderly(c, m) && f in m.flights && m.inFlight > 0 && StatusOf(m, j).Running?
    ensures !StatusOf(Deliver(c, m, f, elapsed), j).Skipped?
  {
    hide Plain, ValidConfig, Orderly, WaitsFor, StatusOf, Succeed, Fail, ReleaseAll, AfterFailure, Play, Proper, Final;
    PlainValid(c);
    match c.run(f.job, f.input)
    case Output(bytes) =>
      var t := Succeed(m, f, elapsed, bytes);
      SucceedStatus(m, f, elapsed, bytes);
      StatusesAfter(m, t, f.job, Succeeded(elapsed));
      SucceedReady(c, m, f, elapsed, bytes);
      if m.success { var ms := SuccessIsProper(c, m, f, elapsed, bytes); }
    case Failure(reason) =>
      FailOrderly(c, m, f, elapsed, reason);
      StatusesAfter(m, AfterFailure(c, Fail(m, f, elapsed, reason), f.job), f.job, Failed(elapsed, reason));
  }

  /** A job that was pending and no longer is was decided at some moment in between. */
  lemma {:induction false} DecisionPoint(c: Config, s0: State, s: State, n: nat, j: Id) returns (t: State)
    requires Plain(c) && Reachable(c, s0) && Steps(c, s0, s, n)
    requires j in c.wf.jobs && j !in c.pre && !AllReused(c, j)
    requires StatusOf(s0, j).Pending? && !StatusOf(s, j).Pending?
    ensures DecidedAt(c, s, j, t) && Final(s0, t)
    decreases n
  {
    hide Plain, ValidConfig, Orderly, Timely, StatusOf, Start, Deliver, DecidedAt, Settled, AllReused, Sound, Final,
      Reachable;
    PlainValid(c);
    var m :| n > 0 && Steps(c, s0, m, n - 1) && Step(c, m, s);
    ReachableOn(c, s0, m, n - 1);
    ReachableOrderly(c, m);
    var f: Flight, elapsed: nat :| f in m.flights && s == Deliver(c, m, f, elapsed);
    if !StatusOf(m, j).Pending? {
      t := DecisionPoint(c, s0, m, n - 1, j);
      DecidedEvent(c, m, f, elapsed, j, t);
    } else {
      ReachableSettled(c, m);
      t := DecisionInEvent(c, m, f, elapsed, j);
      ReachableOrderly(c, s0);
      StepsOrderly(c, s0, m, n - 1);
      FinalOn(s0, m, t);
    }
  }

  lemma ReachableOn(c: Config, s: State, t: State, n: nat)
    requires Reachable(c, s) && Steps(c, s, t, n)
    ensures Reachable(c, t)
  {
    hide Start, Steps;
    var k: nat :| Steps(c, Start(c), s, k);
    StepsCompose(c, Start(c), s, t, k, n);
  }

  lemma FinalOn(s: State, t: State, u: State)
    requires Final(s, t) && Final(t, u)
    ensures Final(s, u)
  {
    hide StatusOf;
  }

  /** Unless it was launched at the start. */
  lemma DecisionOf(c: Config, s: State, j: Id) returns (t: State)
    requires Plain(c) && Reachable(c, s)
    requires j in c.wf.jobs && j !in c.pre && !AllReused(c, j) && !StatusOf(s, j).Pending?
    ensures DecidedAt(c, s, j, t)
  {
    hide Plain, ValidConfig, Start, Sound, AllReused, DecidedAt, Final, Steps;
    PlainValid(c);
    StartStatuses(c);
    ReachableStart(c);
    var n: nat :| Steps(c, Start(c), s, n);
    t := DecisionPoint(c, Start(c), s, n, j);
  }

  lemma ReachableStart(c: Config)
    ensures Reachable(c, Start(c))
  {
    hide Start;
    assert Steps(c, Start(c), Start(c), 0);
  }

  lemma DecisionInEvent(c: Config, m: State, f: Flight, elapsed: nat, j: Id) returns (t: State)
    requires Plain(c) && Orderly(c, m) && (m.success ==> Settled(c, m, {})) && f in m.flights && m.inFlight > 0
    requires j in c.wf.jobs && j !in c.pre && StatusOf(m, j).Pending?
    requires !StatusOf(Deliver(c, m, f, elapsed), j).Pending?
    ensures DecidedAt(c, Deliver(c, m, f, elapsed), j, t) && Final(m, t)
  {
    hide Plain, ValidConfig, Orderly, StatusOf, Succeed, Fail, ReleaseAll, AfterFailure, Play, Proper, Final, DecidedAt,
      Timely, Settled, JustDone, Touched;
    PlainValid(c);
    assert StatusOf(m, f.job).Running? by { OrderlyParts(c, m); }
    match c.run(f.job, f.input)
    case Output(bytes) =>
      var u := Succeed(m, f, elapsed, bytes);
      SucceedStatus(m, f, elapsed, bytes);
      StatusesAfter(m, u, f.job, Succeeded(elapsed));
      var ms := SuccessIsProper(c, m, f, elapsed, bytes);
      SucceedTimely(c, m, f, elapsed, bytes);
      t := DecisionInTrace(c, u, ms, j);
      SuccessFinal(c, m, f, u, Play(c, u, ms));
      FinalOn(m, u, t);
    case Failure(reason) =>
      FailOrderly(c, m, f, elapsed, reason);
      StatusesAfter(m, AfterFailure(c, Fail(m, f, elapsed, reason), f.job), f.job, Failed(elapsed, reason));
      assert false;
  }

  // -- Guards are obeyed -----------------------------------------------------

  /** The answer to j's guard depends on nothing that may change once j is ready: jobs it
      waits for, reused jobs, and ids that are no jobs at all. */
  ghost predicate LooksUp(c: Config, j: Id) {
    HasGuard(c, j) && forall a, b ::
      (forall x :: x in c.pre || x !in c.wf.jobs || WaitsFor(c, j, x) ==> StatusText(a, x) == StatusText(b, x)) ==>
        EvalWhen(c.wf.jobs[j].whenExpr.value, a) == EvalWhen(c.wf.jobs[j].whenExpr.value, b)
  }

  lemma NamesUpstream(c: Config, j: Id)
    requires HasGuard(c, j)
    requires var source := GuardReads(c.wf.jobs[j].whenExpr.value);
             source.None? || source.value in c.pre || source.value !in c.wf.jobs || WaitsFor(c, j, source.value)
    ensures LooksUp(c, j)
  {
    hide WaitsFor, EvalWhen, GuardReads, StatusText;
    var expr := c.wf.jobs[j].whenExpr.value;
    forall a, b | forall x :: x in c.pre || x !in c.wf.jobs || WaitsFor(c, j, x) ==>
            StatusText(a, x) == StatusText(b, x)
      ensures EvalWhen(expr, a) == EvalWhen(expr, b)
    {
      GuardReadsOnly(expr, a, b);
    }
  }

  /** A guard that looks upstream is obeyed in the end, whatever other guards look at:
      except on a job that waits for nothing, or for reused jobs only, which always runs. */
  lemma GuardsAreObeyed(c: Config, s: State, j: Id)
    requires Plain(c) && Reachable(c, s) && LooksUp(c, j) && j !in c.pre && !StatusOf(s, j).Pending?
    ensures StatusOf(s, j).Skipped? <==> !AllReused(c, j) && !EvalWhen(c.wf.jobs[j].whenExpr.value, s.statuses)
  {
    hide Plain, Orderly, Start, WaitsFor, EvalWhen, Timely, AllReused, ValidConfig, StatusText, LooksUp;
    ReachableOrderly(c, s);
    assert HasGuard(c, j) by { LooksUpHasGuard(c, j); }
    if AllReused(c, j) {
      if StatusOf(s, j).Skipped? { SkipCause(c, s, j); }
    } else {
      var t := DecisionOf(c, s, j);
      SameAnswer(c, s, t, j);
    }
  }

  lemma LooksUpHasGuard(c: Config, j: Id)
    requires LooksUp(c, j)
    ensures HasGuard(c, j)
  {
  }

  lemma SameAnswer(c: Config, s: State, t: State, j: Id)
    requires LooksUp(c, j) && Orderly(c, s) && Orderly(c, t)
    requires forall x :: WaitsFor(c, j, x) ==> StatusOf(s, x) == StatusOf(t, x)
    ensures EvalWhen(c.wf.jobs[j].whenExpr.value, s.statuses) == EvalWhen(c.wf.jobs[j].whenExpr.value, t.statuses)
  {
    hide WaitsFor, EvalWhen, StatusText, Orderly;
    OrderlyParts(c, s);
    OrderlyParts(c, t);
    hide Sound, Ordered, StartedOnce, SkipsExact;
    forall x | x in c.pre || x !in c.wf.jobs || WaitsFor(c, j, x)
      ensures StatusText(s.statuses, x) == StatusText(t.statuses, x)
    {
      TextOf(s, x);
      TextOf(t, x);
    }
  }

  /** A guard never sees a failure: asking whether a job has failed always gets the answer
      no, so `== 'FAILED'` never lets a job run and `!= 'FAILED'` always does. */
  lemma FailuresAreNeverSeen(c: Config, s: State, j: Id, z: Id, op: string)
    requires Plain(c) && Reachable(c, s) && HasGuard(c, j) && j !in c.pre && !AllReused(c, j)
    requires c.wf.jobs[j].whenExpr == Some(Comparing(z, op, "FAILED")) && ' ' !in z && (op == "==" || op == "!=")
    ensures StatusOf(s, j).Pending? || (StatusOf(s, j).Skipped? <==> op == "==")
    ensures op == "==" ==> s.started[j] == 0
  {
    hide Plain, Orderly, Start, WaitsFor, EvalWhen, Timely, AllReused, ValidConfig, StatusText, Comparing;
    ReachableOrderly(c, s);
    if !StatusOf(s, j).Pending? {
      var t := DecisionOf(c, s, j);
      NoFailedText(c, t, z);
      GuardMeaning(z, op, "FAILED", t.statuses);
    }
    OrderlyParts(c, s);
  }

  lemma NoFailedText(c: Config, t: State, z: Id)
    requires Orderly(c, t) && t.success
    ensures StatusText(t.statuses, z) != "FAILED"
  {
    OrderlyParts(c, t);
    NoneFailed(c, t, z);
    hide Orderly, Sound, StatusText;
    TextOf(t, z);
    assert "SUCCESS"[0] == 'S' && "SKIPPED"[0] == 'S' && "UNKNOWN"[0] == 'U' && "FAILED"[0] == 'F';
  }
}
