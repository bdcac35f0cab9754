/** Whose guards make the outcome of a run depend on the order of events. */
module Races {
  import opened Collections
  import opened Graph
  import opened Workflows
  import opened Dags
  import opened States
  import opened Whens
  import opened Scheduler
  import opened Settling
  import opened Moves
  import opened Endings
  import opened Discipline
  import opened Guards
  import opened Refinement
  import opened Repeats

  /** The guard of y asks about a job that may end before y is decided, or after. */
  ghost predicate Contested(c: Config, y: Id, z: Id) {
    Asks(c, y, z) && Loose(c, y, z) && !Behind(c, y, z)
  }

  /** The guard of y asks about a job that cannot have run by then, but might be skipped by
      the very event that makes y ready. */
  ghost predicate Borderline(c: Config, y: Id, z: Id) {
    Asks(c, y, z) && Loose(c, y, z) && Behind(c, y, z) && MaySkip(c, z)
  }

  /** The same shape, and the guards ask about the same jobs.  What they want to hear, and
      what the components do, is left open. */
  ghost predicate SameQuestions(c: Config, d: Config) {
    SameShape(c, d) && forall j :: HasGuard(c, j) && HasGuard(d, j) ==>
      GuardReads(c.wf.jobs[j].whenExpr.value) == GuardReads(d.wf.jobs[j].whenExpr.value)
  }

  /** Guards ask whether a job has succeeded or failed, not whether it was skipped or is yet
      to come. */
  ghost predicate Plainspoken(c: Config) {
    forall y :: !AsksForSkips(c, y)
  }

  /** All finished runs report the same. */
  ghost predicate Determined(c: Config) {
    forall s, t :: Ended(c, s) && Ended(c, t) ==>
      && s.success == t.success
      && (s.success ==> s.outputs == t.outputs
                        && forall j :: j in c.wf.jobs ==> (StatusOf(s, j).Skipped? <==> StatusOf(t, j).Skipped?))
  }

  // -- Uncontested guards ----------------------------------------------------

  lemma ContestShape(c: Config, d: Config, y: Id, z: Id)
    requires SameQuestions(c, d)
    ensures Asks(c, y, z) <==> Asks(d, y, z)
    ensures Loose(c, y, z) <==> Loose(d, y, z)
    ensures Behind(c, y, z) <==> Behind(d, y, z)
    ensures MaySkip(c, z) <==> MaySkip(d, z)
  {
    hide ValidConfig, WaitsFor, AllReused, DepsAt, GuardReads, HasGuard;
    WaitingShape(c, d);
    assert HasGuard(c, y) <==> HasGuard(d, y);
    assert z in c.wf.jobs.Keys <==> z in d.wf.jobs.Keys;
    AsksShape(c, d, y, z);
    SkipShape(c, d, z);
  }

  lemma AsksShape(c: Config, d: Config, y: Id, z: Id)
    requires SameQuestions(c, d)
    ensures Asks(c, y, z) <==> Asks(d, y, z)
  {
    hide ValidConfig, AllReused, DepsAt, GuardReads, WaitsFor, HasGuard;
    WaitingShape(c, d);
    assert HasGuard(c, y) <==> HasGuard(d, y);
  }

  lemma SkipShape(c: Config, d: Config, z: Id)
    requires SameShape(c, d)
    ensures MaySkip(c, z) <==> MaySkip(d, z)
  {
    hide ValidConfig, AllReused, WaitsFor, HasGuard;
    WaitingShape(c, d);
    if g :| HasGuard(c, g) && !AllReused(c, g) && (g == z || WaitsFor(c, z, g)) { assert HasGuard(d, g); }
    if g :| HasGuard(d, g) && !AllReused(d, g) && (g == z || WaitsFor(d, z, g)) { assert HasGuard(c, g); }
  }

  lemma ContestedShape(c: Config, d: Config, y: Id, z: Id)
    requires SameQuestions(c, d)
    ensures (Contested(c, y, z) <==> Contested(d, y, z)) && (Borderline(c, y, z) <==> Borderline(d, y, z))
  {
    ContestShape(c, d, y, z);
    hide SameQuestions, Asks, Loose, Behind, MaySkip;
  }

  lemma SameWorkflowItself(d: Config)
    ensures SameWorkflow(d, d)
  {
  }

  /** Where no guard is contested, and none that is borderline asks for skips, all are local. */
  lemma UncontestedIsLocal(c: Config)
    requires forall y, z :: !Contested(c, y, z) && (Borderline(c, y, z) ==> !AsksForSkips(c, y))
    ensures LocalGuards(c)
  {
    hide Asks, Loose, Behind, MaySkip, LocalGuard, AllReused, AsksForSkips;
    forall j | j in c.wf.jobs && j !in c.pre && !AllReused(c, j) ensures LocalGuard(c, j) {
      forall z | Asks(c, j, z) && Loose(c, j, z)
        ensures Behind(c, j, z) && (!MaySkip(c, z) || !AsksForSkips(c, j))
      {
        assert !Contested(c, j, z) && (Borderline(c, j, z) ==> !AsksForSkips(c, j));
      }
      NamedJobIsLocal(c, j);
    }
  }

  lemma UncontestedAgree(c: Config, d: Config)
    requires Plain(c) && SameQuestions(c, d)
    requires forall y, z :: !Contested(c, y, z) && (Borderline(c, y, z) ==> !AsksForSkips(d, y))
    ensures Determined(d)
  {
    hide Plain, SameQuestions, LocalGuards, Contested, Borderline, StatusOf, Ended, AsksForSkips;
    forall y, z ensures !Contested(d, y, z) && (Borderline(d, y, z) ==> !AsksForSkips(d, y)) {
      ContestedShape(c, d, y, z);
      assert !Contested(c, y, z) && (Borderline(c, y, z) ==> !AsksForSkips(d, y));
    }
    UncontestedIsLocal(d);
    PlainShapeOf(c, d);
    SameWorkflowItself(d);
    forall s, t | Ended(d, s) && Ended(d, t)
      ensures s.success == t.success
      ensures s.success ==> s.outputs == t.outputs
      ensures s.success ==> forall j :: j in d.wf.jobs ==> (StatusOf(s, j).Skipped? <==> StatusOf(t, j).Skipped?)
    {
      RunsAgree(d, d, s, t);
    }
  }

  // -- A contested guard -----------------------------------------------------

  /** y waits to hear that z succeeded; all other guards hold, and no component fails. */
  ghost predicate Racing(c: Config, y: Id, z: Id) {
    && Plain(c) && HasGuard(c, y) && y !in c.pre && !AllReused(c, y) && Loose(c, y, z)
    && ' ' !in z && c.wf.jobs[y].whenExpr == Some(Comparing(z, "==", "SUCCESS"))
    && (forall j, a :: HasGuard(c, j) && j != y ==> EvalWhen(c.wf.jobs[j].whenExpr.value, a))
    && (forall j, b :: c.run(j, b).Output?)
  }

  /** So far nobody can have been skipped but y and what waits for it, and y has not run. */
  ghost predicate Calm(c: Config, s: State, y: Id) {
    && (forall x :: StatusOf(s, x).Skipped? ==> x == y || WaitsFor(c, x, y))
    && (StatusOf(s, y).Pending? || StatusOf(s, y).Skipped?)
  }

  /** The job that is held back: z itself, or one that y waits for. */
  ghost predicate Holdable(c: Config, y: Id, z: Id, h: Id) {
    h in c.wf.jobs && h !in c.pre && h != y && !WaitsFor(c, h, y) && (h == z || WaitsFor(c, y, h))
  }

  ghost predicate HeldUp(c: Config, s: State, y: Id, h: Id) {
    Orderly(c, s) && s.success && !s.halted && Calm(c, s, y) && !IsDone(StatusOf(s, h))
  }

  lemma RacingParts(c: Config, y: Id, z: Id)
    requires Racing(c, y, z)
    ensures Plain(c) && ValidConfig(c) && y in c.wf.jobs && y !in c.pre && HasGuard(c, y) && !AllReused(c, y)
  {
    hide ValidConfig, Harmful, AllReused;
  }

  lemma YAsks(c: Config, s: State, y: Id, z: Id)
    requires Racing(c, y, z)
    ensures ShouldSkip(c, s, y) <==> !StatusOf(s, z).Succeeded?
  {
    hide Plain, EvalWhen, StatusText, Comparing, Loose, AllReused;
    assert "SUCCESS"[0] == 'S';
    GuardMeaning(z, "==", "SUCCESS", s.statuses);
    TextOf(s, z);
    assert "SUCCESS"[1] == 'U' && "SKIPPED"[1] == 'K' && "UNKNOWN"[1] == 'N' && "FAILED"[1] == 'A';
  }

  /** Nobody else is skipped but for a skipped dependency. */
  lemma OthersAsk(c: Config, s: State, y: Id, z: Id, j: Id)
    requires Racing(c, y, z) && j != y && ShouldSkip(c, s, j)
    ensures exists d :: d in DepsAt(c, j) && StatusOf(s, d).Skipped?
  {
    hide Plain, EvalWhen, Comparing, Loose, AllReused;
  }

  lemma MoveCalm(c: Config, s: State, y: Id, z: Id, h: Id, j: Id)
    requires Racing(c, y, z) && Holdable(c, y, z, h) && Orderly(c, s) && ReadyMove(c, s, j)
    requires Calm(c, s, y) && !IsDone(StatusOf(s, h))
    ensures Calm(c, Move(c, s, j), y) && !IsDone(StatusOf(Move(c, s, j), h))
  {
    hide Racing, Orderly, StatusOf, WaitsFor, ShouldSkip, Move, AllDone, ValidConfig, Plain, AllReused, Sound,
      StartedOnce, SkipsExact;
    RacingParts(c, y, z);
    OrderlyParts(c, s);
    MoveStatus(c, s, j);
    if j == y {
      if WaitsFor(c, y, h) { UpstreamDone(c, s, y, h); }
      YAsks(c, s, y, z);
    } else if ShouldSkip(c, s, j) {
      OthersAsk(c, s, y, z, j);
      var d :| d in DepsAt(c, j) && StatusOf(s, d).Skipped?;
      if d == y { WaitsDirectly(c, j, y); } else { WaitsThrough(c, j, d, y); }
    }
  }

  lemma {:induction false} PlayCalm(c: Config, s: State, y: Id, z: Id, h: Id, ms: seq<Look>)
    requires Racing(c, y, z) && Holdable(c, y, z, h) && Proper(c, s, ms) && Calm(c, s, y) && !IsDone(StatusOf(s, h))
    ensures Calm(c, Play(c, s, ms), y) && !IsDone(StatusOf(Play(c, s, ms), h))
  {
    hide Racing, Holdable, Orderly, Calm, Move, ReadyMove, StatusOf;
    if ms != [] {
      PlayCalm(c, s, y, z, h, ms[..|ms| - 1]);
      MoveCalm(c, Play(c, s, ms[..|ms| - 1]), y, z, h, ms[|ms| - 1].job);
    }
  }

  lemma HeldUpStep(c: Config, s: State, f: Flight, y: Id, z: Id, h: Id)
    requires Racing(c, y, z) && Holdable(c, y, z, h) && HeldUp(c, s, y, h) && f in s.flights && f.job != h
    ensures s.inFlight > 0 && Looping(s) && HeldUp(c, Deliver(c, s, f, 0), y, h)
  {
    RacingParts(c, y, z);
    assert c.run(f.job, f.input).Output?;
    hide Racing, Plain, ValidConfig, Orderly, Sound, Calm, Succeed, ReleaseAll, DependentsOf, Play, Proper, Touched,
      JustDone,
      StatusOf, Ordered, SkipsExact, Holdable, AllReused;
    OrderlyParts(c, s);
    InFlight(c, s, f);
    var bytes := c.run(f.job, f.input).bytes;
    var t := Succeed(s, f, 0, bytes);
    SucceedStatus(s, f, 0, bytes);
    StatusesAfter(s, t, f.job, Succeeded(0));
    CalmArrival(c, s, t, y, f.job);
    var ms := SuccessIsProper(c, s, f, 0, bytes);
    PlayCalm(c, t, y, z, h, ms);
  }

  lemma CalmArrival(c: Config, s: State, t: State, y: Id, j: Id)
    requires Calm(c, s, y) && StatusOf(s, j).Running? && StatusOf(t, j).Succeeded?
    requires forall x :: x != j ==> StatusOf(t, x) == StatusOf(s, x)
    ensures Calm(c, t, y)
  {
    hide WaitsFor, StatusOf;
  }

  lemma HeldUpStart(c: Config, y: Id, z: Id, h: Id)
    requires Racing(c, y, z) && Holdable(c, y, z, h)
    ensures HeldUp(c, Start(c), y, h)
  {
    RacingParts(c, y, z);
    hide Racing, Plain, ValidConfig, Start, Sound, AllReused, Orderly, Calm;
    StartStatuses(c);
    StartOrderly(c);
    CalmStart(c, Start(c), y, h);
  }

  lemma CalmStart(c: Config, s: State, y: Id, h: Id)
    requires Scoped(c, s) && y in c.wf.jobs && y !in c.pre && !AllReused(c, y) && h in c.wf.jobs && h !in c.pre
    requires forall j :: j in c.wf.jobs ==> StatusOf(s, j) == StartStatus(c, j)
    ensures Calm(c, s, y) && !IsDone(StatusOf(s, h))
  {
    hide AllReused, WaitsFor, StatusOf;
    ReusedDone(c, s);
    assert StatusOf(s, y) == StartStatus(c, y) && StatusOf(s, h) == StartStatus(c, h);
    forall x ensures !StatusOf(s, x).Skipped? {
      if x in c.wf.jobs { assert StatusOf(s, x) == StartStatus(c, x); }
    }
  }

  /** Deliver whatever is not h until nothing else is left. */
  lemma {:induction false} HoldUp(c: Config, y: Id, z: Id, h: Id, s: State, n: nat, bound: nat)
    returns (t: State, k: nat)
    requires Racing(c, y, z) && Holdable(c, y, z, h) && HeldUp(c, s, y, h) && Steps(c, Start(c), s, n)
    requires forall u, m: nat :: Steps(c, Start(c), u, m) ==> m <= bound
    ensures HeldUp(c, t, y, h) && Steps(c, Start(c), t, k) && forall f :: f in t.flights ==> f.job == h
    decreases bound - n
  {
    hide Racing, Holdable, HeldUp, Start, Deliver;
    t, k := s, n;
    if f :| f in s.flights && f.job != h {
      HeldUpStep(c, s, f, y, z, h);
      var u := Deliver(c, s, f, 0);
      assert Step(c, s, u);
      assert Steps(c, Start(c), u, n + 1);
      t, k := HoldUp(c, y, z, h, u, n + 1, bound);
    }
  }

  /** With h held back, everything that does not wait for it is over. */
  lemma EverythingElse(c: Config, y: Id, z: Id, h: Id) returns (t: State)
    requires Racing(c, y, z) && Holdable(c, y, z, h)
    ensures Reachable(c, t) && HeldUp(c, t, y, h)
    ensures forall x :: x in c.wf.jobs && x != h && !WaitsFor(c, x, h) ==> IsDone(StatusOf(t, x))
  {
    RacingParts(c, y, z);
    hide Racing, Plain, ValidConfig, Start, Holdable, WaitsFor, StatusOf, Settled, Orderly, Calm, Sound, AllReused;
    HeldUpStart(c, y, z, h);
    var bound := EveryRunEnds(c);
    assert Steps(c, Start(c), Start(c), 0);
    var n: nat;
    t, n := HoldUp(c, y, z, h, Start(c), 0, bound);
    assert Reachable(c, t);
    ReachableSettled(c, t);
    forall x | x in c.wf.jobs && x != h && !WaitsFor(c, x, h) ensures IsDone(StatusOf(t, x)) { OthersDone(c, t, h, x); }
  }

  /** Nothing fails, so every run can be taken to a successful end. */
  lemma {:induction false} RunOn(c: Config, y: Id, z: Id, s: State, n: nat, bound: nat) returns (t: State, k: nat)
    requires Racing(c, y, z) && Steps(c, Start(c), s, n) && s.success && !s.halted && Orderly(c, s)
    requires forall u, m: nat :: Steps(c, Start(c), u, m) ==> m <= bound
    ensures Steps(c, s, t, k) && Steps(c, Start(c), t, n + k) && t.success && !Looping(t)
    decreases bound - n
  {
    hide Racing, Start, Deliver, Orderly, Plain;
    t, k := s, 0;
    assert Steps(c, s, s, 0);
    if Looping(s) {
      var f := AnyFlight(c, s);
      OneMoreEvent(c, y, z, s, f);
      var u := Deliver(c, s, f, 0);
      assert Step(c, s, u);
      assert Steps(c, Start(c), u, n + 1);
      t, k := RunOn(c, y, z, u, n + 1, bound);
      assert Steps(c, s, s, 0) && Steps(c, s, u, 1);
      StepsCompose(c, s, u, t, 1, k);
      k := k + 1;
    }
  }

  lemma AnyFlight(c: Config, s: State) returns (f: Flight)
    requires Orderly(c, s) && s.inFlight > 0
    ensures f in s.flights
  {
    assert |s.flights| > 0;
    f :| f in s.flights;
  }

  lemma OneMoreEvent(c: Config, y: Id, z: Id, s: State, f: Flight)
    requires Racing(c, y, z) && Orderly(c, s) && f in s.flights && s.inFlight > 0 && s.success && !s.halted
    ensures var u := Deliver(c, s, f, 0); Orderly(c, u) && u.success && !u.halted
  {
    RacingParts(c, y, z);
    assert c.run(f.job, f.input).Output?;
    hide Racing, Plain, ValidConfig, Orderly, Succeed, ReleaseAll, DependentsOf, Play, Proper, Touched, JustDone,
      Final, AllReused;
    DeliverOrderly(c, s, f, 0);
    SucceedStatus(s, f, 0, c.run(f.job, f.input).bytes);
    var ms := SuccessIsProper(c, s, f, 0, c.run(f.job, f.input).bytes);
  }

  lemma ToTheEnd(c: Config, y: Id, z: Id, s: State) returns (t: State, k: nat)
    requires Racing(c, y, z) && Reachable(c, s) && s.success && !s.halted
    ensures Steps(c, s, t, k) && Ended(c, t) && t.success
  {
    RacingParts(c, y, z);
    hide Racing, Plain, ValidConfig, Start, Orderly, Looping, Steps, AllReused;
    ReachableOrderly(c, s);
    var bound := EveryRunEnds(c);
    var n: nat :| Steps(c, Start(c), s, n);
    t, k := RunOn(c, y, z, s, n, bound);
    assert Reachable(c, t);
  }

  /** z is held back: y is asked too early, and skipped for good. */
  lemma AskedTooEarly(c: Config, y: Id, z: Id) returns (s: State)
    requires Racing(c, y, z)
    ensures Ended(c, s) && s.success && StatusOf(s, y).Skipped?
  {
    RacingParts(c, y, z);
    assert Loose(c, y, z) && Holdable(c, y, z, z);
    hide Racing, Plain, ValidConfig, Orderly, Reachable, Ended, Steps, AllReused, WaitsFor, Holdable;
    var t := EverythingElse(c, y, z, z);
    assert IsDone(StatusOf(t, y));
    var k: nat;
    s, k := ToTheEnd(c, y, z, t);
    TerminalForever(c, t, s, k, y);
  }

  /** m is held back, which y waits for and z does not: by the time y is asked z has succeeded. */
  lemma AskedInTime(c: Config, y: Id, z: Id, m: Id) returns (s: State)
    requires Racing(c, y, z) && m in DepsAt(c, y) && m !in c.pre && !WaitsFor(c, z, m)
    ensures Ended(c, s) && s.success && StatusOf(s, y).Succeeded?
  {
    hide Racing, Plain, ValidConfig, Orderly, Reachable, Ended, Steps, AllReused, WaitsFor, Holdable, Sound, StatusOf,
      DepsAt, Undecided, ShouldSkip, HeldUp, Loose;
    RacingParts(c, y, z);
    MIsHoldable(c, y, z, m);
    var t := EverythingElse(c, y, z, m);
    StillWaiting(c, t, y, z, m);
    assert t.success && !t.halted by { HeldUpGoes(c, t, y, m); }
    var k: nat;
    s, k := ToTheEnd(c, y, z, t);
    NoJobIsStuck(c, s);
    var u := DecisionPoint(c, t, s, k, y);
    YAsks(c, u, y, z);
  }

  lemma HeldUpGoes(c: Config, s: State, y: Id, h: Id)
    requires HeldUp(c, s, y, h)
    ensures s.success && !s.halted
  {
    hide Orderly, Calm, StatusOf;
  }

  lemma MIsHoldable(c: Config, y: Id, z: Id, m: Id)
    requires Racing(c, y, z) && m in DepsAt(c, y) && m !in c.pre
    ensures Holdable(c, y, z, m) && WaitsFor(c, y, m) && Loose(c, y, z) && z != m
  {
    RacingParts(c, y, z);
    assert Loose(c, y, z);
    hide Racing, Plain, ValidConfig, AllReused, WaitsFor;
    WaitsDirectly(c, y, m);
    DependentsExact(c, m, y);
    NoCycle(c, y, m);
  }

  lemma NoCycle(c: Config, y: Id, m: Id)
    requires ValidConfig(c) && WaitsFor(c, y, m)
    ensures m != y && !WaitsFor(c, m, y)
  {
    hide ValidConfig, WaitsFor;
    WaitsNotItself(c, y);
    if WaitsFor(c, m, y) { WaitsTransitive(c, y, m, y); }
  }

  lemma StillWaiting(c: Config, t: State, y: Id, z: Id, m: Id)
    requires ValidConfig(c) && HeldUp(c, t, y, m) && WaitsFor(c, y, m) && Loose(c, y, z) && z != m && !WaitsFor(c, z, m)
    requires forall x :: x in c.wf.jobs && x != m && !WaitsFor(c, x, m) ==> IsDone(StatusOf(t, x))
    ensures StatusOf(t, y).Pending? && StatusOf(t, z).Succeeded?
  {
    OrderlyParts(c, t);
    hide ValidConfig, Orderly, StartedOnce, SkipsExact, WaitsFor, Ordered, Counted;
    WaitersPending(c, t, y, m);
    NoneFailed(c, t, z);
  }

  /** Whenever a guard is contested, one order of events skips the job and another runs it,
      and both runs report success. */
  lemma GuardsCanRace(c: Config, y: Id, z: Id) returns (s: State, t: State)
    requires Racing(c, y, z) && !Behind(c, y, z)
    ensures Ended(c, s) && Ended(c, t) && s.success && t.success
    ensures StatusOf(s, y).Skipped? && StatusOf(t, y).Succeeded?
  {
    hide Racing, Ended, WaitsFor, DepsAt;
    var m :| m in DepsAt(c, y) && m !in c.pre && !WaitsFor(c, z, m);
    s := AskedTooEarly(c, y, z);
    t := AskedInTime(c, y, z, m);
  }

  // -- The exact condition ---------------------------------------------------

  /** A guard that asks about the same job and always holds. */
  function Lenient(expr: string): string {
    if GuardReads(expr).None? then expr else Comparing(GuardReads(expr).value, "!=", "NEVER")
  }

  lemma LenientHolds(expr: string, a: map<Id, Status>)
    ensures EvalWhen(Lenient(expr), a) && GuardReads(Lenient(expr)) == GuardReads(expr)
  {
    hide Comparing, StatusText, EvalWhen, GuardReads;
    if GuardReads(expr).Some? {
      var z := GuardReads(expr).value;
      SourceHasNoSpace(expr);
      assert "NEVER"[0] == 'N' && "NEVER"[4] == 'R';
      GuardMeaning(z, "!=", "NEVER", a);
      NeverIsNoText(a, z);
      ComparingReads(z, "!=", "NEVER");
    } else {
      NothingReadIsTrue(expr, a);
    }
  }

  lemma NeverIsNoText(a: map<Id, Status>, z: Id)
    ensures StatusText(a, z) != "NEVER"
  {
    assert "SUCCESS"[0] == 'S' && "SKIPPED"[0] == 'S' && "UNKNOWN"[0] == 'U' && "FAILED"[0] == 'F' && "NEVER"[0] == 'N';
  }

  /** y asks whether z has succeeded; everybody else asks what cannot be. */
  function Contest(c: Config, y: Id, z: Id): Config {
    c.(wf := c.wf.(jobs := map j | j in c.wf.jobs ::
         if c.wf.jobs[j].whenExpr.None? then c.wf.jobs[j]
         else c.wf.jobs[j].(whenExpr := Some(
           if j == y then Comparing(z, "==", "SUCCESS") else Lenient(c.wf.jobs[j].whenExpr.value)))),
       run := (_, _) => Output(""))
  }

  lemma ContestJobs(c: Config, y: Id, z: Id)
    ensures var r := Contest(c, y, z);
            && r.wf.jobs.Keys == c.wf.jobs.Keys && r.wf.order == c.wf.order && DepsOf(r.wf.jobs) == DepsOf(c.wf.jobs)
            && r.children == c.children && r.pre == c.pre && r.preOrder == c.preOrder && r.rootOrder == c.rootOrder
            && r.dag == c.dag && (forall j :: HasGuard(c, j) <==> HasGuard(r, j))
            && (forall j, b :: r.run(j, b).Output?)
            && forall j :: j in c.wf.jobs ==>
                 && r.wf.jobs[j].failFast == c.wf.jobs[j].failFast && r.wf.jobs[j].inputFrom == c.wf.jobs[j].inputFrom
                 && r.wf.jobs[j].dependsOn == c.wf.jobs[j].dependsOn
  {
    hide Comparing, Lenient;
  }

  lemma ContestIsValid(c: Config, y: Id, z: Id)
    requires ValidConfig(c)
    ensures SameShape(c, Contest(c, y, z))
  {
    ContestJobs(c, y, z);
    hide Contest, HasGuard, IsTopoOrder, NoDup, Elems, DepsOf, RootSet, Dag.Valid;
  }

  lemma ContestAsks(c: Config, y: Id, z: Id)
    requires ValidConfig(c) && Asks(c, y, z)
    ensures SameQuestions(c, Contest(c, y, z)) && ' ' !in z
  {
    hide ValidConfig, SameShape, GuardReads, Comparing, Lenient, AllReused, Contest, EvalWhen;
    ContestIsValid(c, y, z);
    SourceHasNoSpace(c.wf.jobs[y].whenExpr.value);
    ComparingReads(z, "==", "SUCCESS");
    var r := Contest(c, y, z);
    forall j | HasGuard(c, j) && HasGuard(r, j)
      ensures GuardReads(c.wf.jobs[j].whenExpr.value) == GuardReads(r.wf.jobs[j].whenExpr.value)
    {
      ContestGuard(c, y, z, j);
      LenientHolds(c.wf.jobs[j].whenExpr.value, map[]);
    }
  }

  lemma ContestGuard(c: Config, y: Id, z: Id, j: Id)
    requires HasGuard(c, j)
    ensures HasGuard(Contest(c, y, z), j)
    ensures Contest(c, y, z).wf.jobs[j].whenExpr.value ==
        if j == y then Comparing(z, "==", "SUCCESS") else Lenient(c.wf.jobs[j].whenExpr.value)
  {
    hide Comparing, Lenient;
  }

  lemma ContestRaces(c: Config, y: Id, z: Id)
    requires Plain(c) && Contested(c, y, z)
    ensures SameQuestions(c, Contest(c, y, z)) && Plainspoken(Contest(c, y, z))
    ensures Racing(Contest(c, y, z), y, z) && !Behind(Contest(c, y, z), y, z)
  {
    hide Plain, ValidConfig, SameShape, Lenient, Comparing, EvalWhen, GuardReads, WaitsFor, AllReused, Loose, Behind,
      Harmful, Contest, Plainspoken;
    var r := Contest(c, y, z);
    PlainValid(c);
    ContestAsks(c, y, z);
    ContestShape(c, r, y, z);
    PlainShapeOf(c, r);
    ContestGuard(c, y, z, y);
    ContestJobs(c, y, z);
    ContestPlainspoken(c, y, z);
    forall j, a | HasGuard(r, j) && j != y ensures EvalWhen(r.wf.jobs[j].whenExpr.value, a) {
      ContestGuard(c, y, z, j);
      LenientHolds(c.wf.jobs[j].whenExpr.value, a);
    }
  }

  lemma ContestPlainspoken(c: Config, y: Id, z: Id)
    requires ' ' !in z
    ensures Plainspoken(Contest(c, y, z))
  {
    hide Contest, Lenient, Comparing, GuardReads, GuardText;
    var r := Contest(c, y, z);
    ContestJobs(c, y, z);
    forall j ensures !AsksForSkips(r, j) {
      if HasGuard(r, j) {
        ContestGuard(c, y, z, j);
        LenientText(c.wf.jobs[j].whenExpr.value);
        ComparingReads(z, "==", "SUCCESS");
        assert "SUCCESS"[1] == 'U' && "SKIPPED"[1] == 'K' && "UNKNOWN"[0] == 'U' && "SUCCESS"[0] == 'S';
      }
    }
  }

  lemma LenientText(expr: string)
    ensures GuardReads(Lenient(expr)).Some? ==>
        GuardText(Lenient(expr)) != "SKIPPED" && GuardText(Lenient(expr)) != "UNKNOWN"
  {
    hide Comparing, GuardReads, GuardText;
    if GuardReads(expr).Some? {
      SourceHasNoSpace(expr);
      ComparingReads(GuardReads(expr).value, "!=", "NEVER");
      assert "NEVER"[0] == 'N' && "SKIPPED"[0] == 'S' && "UNKNOWN"[0] == 'U';
    }
  }

  lemma PlainShapeOf(c: Config, d: Config)
    requires Plain(c) && SameQuestions(c, d)
    ensures Plain(d)
  {
    hide ValidConfig, Harmful;
    PlainShape(c, d);
  }

  /** Guards leave nothing to chance, whatever the components do, exactly if none of them is
      contested: for guards that want to hear of success or failure, and for all guards if
      none is borderline. */
  lemma GuardsAgreeExactly(c: Config)
    requires Plain(c)
    ensures (forall d :: SameQuestions(c, d) && Plainspoken(d) ==> Determined(d))
       <==> forall y, z :: !Contested(c, y, z)
    ensures (forall y, z :: !Borderline(c, y, z)) ==>
        ((forall d :: SameQuestions(c, d) ==> Determined(d)) <==> forall y, z :: !Contested(c, y, z))
  {
    hide Plain, SameQuestions, Contested, Borderline, Racing, Plainspoken, Determined, AsksForSkips;
    if y, z :| Contested(c, y, z) {
      ContestRaces(c, y, z);
      var d := Contest(c, y, z);
      NotDetermined(d, y, z);
    } else {
      forall d | SameQuestions(c, d) && Plainspoken(d) ensures Determined(d) {
        assert forall y :: !AsksForSkips(d, y) by { PlainspokenMeans(d); }
        UncontestedAgree(c, d);
      }
      if forall y, z :: !Borderline(c, y, z) {
        forall d | SameQuestions(c, d) ensures Determined(d) { UncontestedAgree(c, d); }
      }
    }
  }

  lemma PlainspokenMeans(d: Config)
    requires Plainspoken(d)
    ensures forall y :: !AsksForSkips(d, y)
  {
    hide AsksForSkips;
  }

  lemma NotDetermined(c: Config, y: Id, z: Id)
    requires Racing(c, y, z) && !Behind(c, y, z)
    ensures !Determined(c)
  {
    var s, t := GuardsCanRace(c, y, z);
    hide Racing, Behind, Ended;
    RacingParts(c, y, z);
    assert !(StatusOf(s, y).Skipped? <==> StatusOf(t, y).Skipped?);
  }
}
