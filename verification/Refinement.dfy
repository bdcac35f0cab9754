/** Every concurrent run computes what a sequential evaluator computes. */
module Refinement {
  import opened Collections
  import opened Graph
  import opened Workflows
  import opened States
  import opened Whens
  import opened FanIns
  import opened Scheduler
  import opened Settling
  import opened Moves
  import opened Discipline
  import opened Guards

  // -- The sequential evaluator ----------------------------------------------

  datatype Verdict = Good(bytes: Bytes) | Bad(reason: string) | Omitted | Blocked | Kept

  predicate Cleared(verdicts: map<Id, Verdict>, j: Id) {
    j in verdicts && (verdicts[j].Good? || verdicts[j].Omitted? || verdicts[j].Kept?)
  }

  function GoodOutputs(verdicts: map<Id, Verdict>): map<Id, Bytes> {
    map j | j in verdicts && verdicts[j].Good? :: verdicts[j].bytes
  }

  function VerdictStatus(v: Verdict): Status {
    match v
    case Good(_) => Succeeded(0)
    case Bad(reason) => Failed(0, reason)
    case Omitted => Skipped
    case Blocked => Pending
    case Kept => Succeeded(0)
  }

  /** What the evaluator shows to j's guard: the jobs j waits for and the reused ones.
      Everything else reads as if it had not happened yet. */
  ghost function Seen(c: Config, verdicts: map<Id, Verdict>, j: Id): map<Id, Status> {
    map x | x in verdicts.Keys + c.pre.Keys && (x in c.pre || WaitsFor(c, j, x)) ::
      if x in c.pre then Succeeded(0) else VerdictStatus(verdicts[x])
  }

  /** A job without dependencies gets its own input even if it is a fan-in job
      whose source expanded to no children. */
  function EvalInput(c: Config, outputs: map<Id, Bytes>, j: Id): Bytes {
    if IsRoot(c, j) then OwnInput(c, j) else LaunchInput(c, outputs, j)
  }

  ghost predicate Omits(c: Config, verdicts: map<Id, Verdict>, j: Id) {
    if HasGuard(c, j) then !EvalWhen(c.wf.jobs[j].whenExpr.value, Seen(c, verdicts, j))
    else exists d :: d in DepsAt(c, j) && d in verdicts && verdicts[d].Omitted?
  }

  function VerdictOf(o: Outcome): Verdict {
    match o case Output(bytes) => Good(bytes) case Failure(reason) => Bad(reason)
  }

  /** A job that waits for reused jobs only runs whatever its guard says. */
  ghost function Judge(c: Config, verdicts: map<Id, Verdict>, j: Id): Verdict {
    if j in c.pre then Kept
    else if exists d :: d in DepsAt(c, j) && !Cleared(verdicts, d) then Blocked
    else if !AllReused(c, j) && Omits(c, verdicts, j) then Omitted
    else VerdictOf(c.run(j, EvalInput(c, GoodOutputs(verdicts), j)))
  }

  /** The first k jobs of the order, one after the other. */
  ghost function EvaluateTo(c: Config, k: nat): map<Id, Verdict>
    requires k <= |c.dag.topoOrder|
  {
    if k == 0 then map[]
    else
      var before := EvaluateTo(c, k - 1);
      before[c.dag.topoOrder[k - 1] := Judge(c, before, c.dag.topoOrder[k - 1])]
  }

  ghost function Evaluate(c: Config): map<Id, Verdict> {
    EvaluateTo(c, |c.dag.topoOrder|)
  }

  // -- The evaluator is a fixpoint -------------------------------------------

  ghost predicate AgreeAbove(c: Config, v: map<Id, Verdict>, w: map<Id, Verdict>, j: Id) {
    && v.Keys <= c.wf.jobs.Keys && w.Keys <= c.wf.jobs.Keys
    && forall x :: WaitsFor(c, j, x) ==> x in v && x in w && v[x] == w[x]
  }

  lemma SameSeen(c: Config, v: map<Id, Verdict>, w: map<Id, Verdict>, j: Id)
    requires AgreeAbove(c, v, w, j)
    ensures Seen(c, v, j) == Seen(c, w, j)
  {
    hide WaitsFor, VerdictStatus;
  }

  lemma AgreeOnDeps(c: Config, v: map<Id, Verdict>, w: map<Id, Verdict>, j: Id)
    requires AgreeAbove(c, v, w, j) && j !in c.pre
    ensures forall d :: d in DepsAt(c, j) ==> d in v && d in w && v[d] == w[d]
  {
    hide WaitsFor;
    forall d | d in DepsAt(c, j) ensures d in v && d in w && v[d] == w[d] { WaitsDirectly(c, j, d); }
  }

  lemma SourcesAreDeps(c: Config, j: Id)
    requires ValidConfig(c) && j in c.wf.jobs
    ensures forall src, x :: c.wf.jobs[j].inputFrom == Some(src) && src in c.children && x in c.children[src]
              ==> x in DepsAt(c, j)
  {
  }

  lemma SameInput(c: Config, j: Id, a: map<Id, Bytes>, b: map<Id, Bytes>)
    requires ValidConfig(c) && j in c.wf.jobs
    requires forall d :: d in DepsAt(c, j) ==> (d in a <==> d in b) && (d in a ==> a[d] == b[d])
    ensures LaunchInput(c, a, j) == LaunchInput(c, b, j)
  {
    SourcesAreDeps(c, j);
    hide ValidConfig, FaninInput, OwnInput;
    FaninInputLocal(c.codec, c.wf.jobs, c.children, a, b, j);
  }

  lemma JudgeLocal(c: Config, v: map<Id, Verdict>, w: map<Id, Verdict>, j: Id)
    requires ValidConfig(c) && j in c.wf.jobs && AgreeAbove(c, v, w, j)
    ensures Judge(c, v, j) == Judge(c, w, j)
  {
    hide ValidConfig, WaitsFor, LaunchInput, OwnInput, IsRoot, AllReused, EvalWhen, Seen;
    if j !in c.pre {
      AgreeOnDeps(c, v, w, j);
      SameSeen(c, v, w, j);
      hide AgreeAbove;
      SameInput(c, j, GoodOutputs(v), GoodOutputs(w));
    }
  }

  /** What the first jobs wait for is among the first jobs. */
  lemma EarlierJob(c: Config, k: nat, i: nat)
    requires ValidConfig(c) && i <= k < |c.dag.topoOrder|
    ensures c.dag.topoOrder[i] in c.wf.jobs && c.dag.topoOrder[k] !in c.dag.topoOrder[..k]
    ensures forall x :: WaitsFor(c, c.dag.topoOrder[i], x) ==> x in c.dag.topoOrder[..k]
  {
    var order := c.dag.topoOrder;
    assert order[i] in Elems(order);
    OrderIsInjective(c, i);
    forall x | WaitsFor(c, order[i], x) ensures x in order[..k] {
      WaitsEarlier(c, order[i], x);
      assert order[..k][Position(order, x)] == x;
    }
  }

  lemma OrderIsInjective(c: Config, i: nat)
    requires ValidConfig(c) && i < |c.dag.topoOrder|
    ensures Position(c.dag.topoOrder, c.dag.topoOrder[i]) == i
  {
  }

  lemma ExtendFacts(c: Config, k: nat, v: map<Id, Verdict>)
    requires ValidConfig(c) && k < |c.dag.topoOrder| && v.Keys == Elems(c.dag.topoOrder[..k])
    requires v.Keys <= c.wf.jobs.Keys
    requires forall i :: 0 <= i < k ==> v[c.dag.topoOrder[i]] == Judge(c, v, c.dag.topoOrder[i])
    ensures var w := v[c.dag.topoOrder[k] := Judge(c, v, c.dag.topoOrder[k])];
            && w.Keys == Elems(c.dag.topoOrder[..k + 1]) && w.Keys <= c.wf.jobs.Keys
            && forall i :: 0 <= i <= k ==> w[c.dag.topoOrder[i]] == Judge(c, w, c.dag.topoOrder[i])
  {
    hide ValidConfig, Judge, WaitsFor;
    var order := c.dag.topoOrder;
    var w := v[order[k] := Judge(c, v, order[k])];
    assert order[..k + 1] == order[..k] + [order[k]];
    EarlierJob(c, k, k);
    forall i | 0 <= i <= k
      ensures w[order[i]] == Judge(c, w, order[i])
    {
      EarlierJob(c, k, i);
      assert AgreeAbove(c, v, w, order[i]);
      JudgeLocal(c, v, w, order[i]);
    }
  }

  lemma {:induction false} EvaluateToFacts(c: Config, k: nat)
    requires ValidConfig(c) && k <= |c.dag.topoOrder|
    ensures EvaluateTo(c, k).Keys == Elems(c.dag.topoOrder[..k]) && EvaluateTo(c, k).Keys <= c.wf.jobs.Keys
    ensures forall i :: 0 <= i < k ==>
        EvaluateTo(c, k)[c.dag.topoOrder[i]] == Judge(c, EvaluateTo(c, k), c.dag.topoOrder[i])
  {
    hide ValidConfig, Judge;
    if k > 0 {
      EvaluateToFacts(c, k - 1);
      ExtendFacts(c, k - 1, EvaluateTo(c, k - 1));
    }
  }

  /** The evaluator gives every job the verdict its dependencies' verdicts call for. */
  lemma EvaluateFixpoint(c: Config)
    requires ValidConfig(c)
    ensures Evaluate(c).Keys == c.wf.jobs.Keys
    ensures forall j :: j in c.wf.jobs ==> Evaluate(c)[j] == Judge(c, Evaluate(c), j)
  {
    hide ValidConfig, Judge, EvaluateTo;
    var order := c.dag.topoOrder;
    OrderIsJobs(c);
    EvaluateToFacts(c, |order|);
    assert order[..|order|] == order;
    forall j | j in c.wf.jobs ensures Evaluate(c)[j] == Judge(c, Evaluate(c), j) {
      assert j in Elems(order);
      var i := Position(order, j);
      assert order[i] == j;
    }
  }

  lemma OrderIsJobs(c: Config)
    requires ValidConfig(c)
    ensures Elems(c.dag.topoOrder) == c.wf.jobs.Keys
  {
  }

  // -- The invariant ---------------------------------------------------------

  ghost predicate InputRight(c: Config, f: Flight) {
    f.job in Evaluate(c) && Evaluate(c)[f.job] == VerdictOf(c.run(f.job, f.input))
  }

  ghost predicate StatusRight(c: Config, s: State, j: Id) {
    && (j in s.outputs <==> StatusOf(s, j).Succeeded? && j !in c.pre)
    && (j in s.outputs ==> j in Evaluate(c) && Evaluate(c)[j] == Good(s.outputs[j]))
    && (StatusOf(s, j).Failed? ==> j in Evaluate(c) && Evaluate(c)[j] == Bad(StatusOf(s, j).reason))
    && (StatusOf(s, j).Skipped? ==> j in Evaluate(c) && Evaluate(c)[j] == Omitted)
  }

  /** What has been computed so far is what the evaluator computes. */
  ghost predicate Faithful(c: Config, s: State) {
    && (forall f :: f in s.flights ==> InputRight(c, f))
    && (forall j :: StatusRight(c, s, j))
  }

  lemma DoneMeansFinished(c: Config, s: State, v: map<Id, Verdict>, d: Id)
    requires v == Evaluate(c) && StatusRight(c, s, d) && Scoped(c, s) && Clean(s) && IsDone(StatusOf(s, d))
    requires d in c.wf.jobs
    requires v.Keys == c.wf.jobs.Keys && forall j :: j in c.wf.jobs && j in c.pre ==> v[j] == Kept
    ensures Cleared(v, d) && (v[d].Omitted? <==> StatusOf(s, d).Skipped?)
    ensures d in s.outputs <==> v[d].Good?
    ensures d in s.outputs ==> v[d] == Good(s.outputs[d])
    ensures d !in c.pre ==> StatusText(s.statuses, d) == StatusText(map[d := VerdictStatus(v[d])], d)
  {
    hide Evaluate;
  }

  lemma KeptIfReused(c: Config)
    requires ValidConfig(c)
    ensures var v := Evaluate(c); v.Keys == c.wf.jobs.Keys && forall j :: j in c.wf.jobs && j in c.pre ==> v[j] == Kept
  {
    hide ValidConfig, Evaluate;
    EvaluateFixpoint(c);
  }

  /** When j is ready, everything upstream of it stands as the evaluator has it. */
  lemma ReadyTexts(c: Config, s: State, j: Id)
    requires ValidConfig(c) && Orderly(c, s) && Faithful(c, s) && AllDone(c, s, j)
    ensures SameAbove(c, j, s.statuses, Seen(c, Evaluate(c), j))
  {
    hide ValidConfig, Evaluate, Orderly, Faithful, AllDone, StatusText, Seen, WaitsFor;
    forall x | WaitsFor(c, j, x) ensures StatusText(s.statuses, x) == StatusText(Seen(c, Evaluate(c), j), x) {
      ReadyText(c, s, j, x);
    }
  }

  lemma ReadyText(c: Config, s: State, j: Id, x: Id)
    requires ValidConfig(c) && Orderly(c, s) && Faithful(c, s) && AllDone(c, s, j) && WaitsFor(c, j, x)
    ensures StatusText(s.statuses, x) == StatusText(Seen(c, Evaluate(c), j), x)
  {
    hide ValidConfig, Evaluate, Orderly, StatusRight, AllDone, Sound, Ordered, StartedOnce, SkipsExact, InputRight,
      WaitsFor, VerdictStatus, StatusOf;
    KeptIfReused(c);
    OrderlyParts(c, s);
    UpstreamDone(c, s, j, x);
    DoneMeansFinished(c, s, Evaluate(c), x);
    if x in c.pre { ReusedText(c, s, x); }
  }

  lemma ReusedText(c: Config, s: State, x: Id)
    requires Scoped(c, s) && x in c.pre
    ensures StatusText(s.statuses, x) == "SUCCESS"
  {
  }

  /** What the evaluator shows to a guard can be shown in a run. */
  lemma SeenIsShown(c: Config, j: Id, a: map<Id, Status>, v: map<Id, Verdict>)
    requires ValidConfig(c) && Shown(c, j, a) && SameAbove(c, j, a, Seen(c, v, j))
    ensures Shown(c, j, Seen(c, v, j))
  {
    hide ValidConfig, WaitsFor, Loose, Behind, MaySkip, VerdictStatus;
    forall x ensures MayShow(c, j, x, StatusText(Seen(c, v, j), x)) {
      assert MayShow(c, j, x, StatusText(a, x));
    }
  }

  lemma ReadyDeps(c: Config, s: State, j: Id)
    requires ValidConfig(c) && Orderly(c, s) && Faithful(c, s) && AllDone(c, s, j) && j in c.wf.jobs
    ensures forall d :: d in DepsAt(c, j) ==>
        && Cleared(Evaluate(c), d) && (Evaluate(c)[d].Omitted? <==> StatusOf(s, d).Skipped?)
        && (d in s.outputs <==> Evaluate(c)[d].Good?) && (d in s.outputs ==> Evaluate(c)[d] == Good(s.outputs[d]))
  {
    KeptIfReused(c);
    OrderlyParts(c, s);
    hide ValidConfig, Evaluate, Orderly, StatusRight, Sound, Ordered, StartedOnce, SkipsExact, InputRight;
    var v := Evaluate(c);
    forall d | d in DepsAt(c, j)
      ensures Cleared(v, d) && (v[d].Omitted? <==> StatusOf(s, d).Skipped?)
      ensures (d in s.outputs <==> v[d].Good?) && (d in s.outputs ==> v[d] == Good(s.outputs[d]))
    {
      DependentsExact(c, d, j);
      DoneMeansFinished(c, s, v, d);
    }
  }

  lemma SameDecision(c: Config, s: State, j: Id)
    requires ValidConfig(c) && LocalGuard(c, j) && Faithful(c, s) && Undecided(c, s, j)
    ensures ShouldSkip(c, s, j) <==> Omits(c, Evaluate(c), j)
  {
    hide ValidConfig, Orderly, Faithful, Evaluate, AllDone, Timely, EvalWhen, Seen, AllReused, SameAbove, Shown;
    if HasGuard(c, j) {
      ReadyShown(c, s, j);
      ReadyTexts(c, s, j);
      SeenIsShown(c, j, s.statuses, Evaluate(c));
      assert GuardHolds(c, s, j) <==> EvalWhen(c.wf.jobs[j].whenExpr.value, Seen(c, Evaluate(c), j));
    } else {
      ReadyDeps(c, s, j);
    }
  }

  /** The decision taken about a ready job is the evaluator's. */
  lemma DecisionRight(c: Config, s: State, j: Id)
    requires ValidConfig(c) && LocalGuard(c, j) && Faithful(c, s) && Undecided(c, s, j)
    ensures j in Evaluate(c) && Evaluate(c)[j] == if ShouldSkip(c, s, j) then Omitted
                                else VerdictOf(c.run(j, LaunchInput(c, s.outputs, j)))
  {
    hide ValidConfig, LocalGuard, Orderly, Faithful, Evaluate, AllDone, Timely, LaunchInput, ShouldSkip, Omits;
    SameDecision(c, s, j);
    ReadyDeps(c, s, j);
    EvaluateFixpoint(c);
    SameInput(c, j, s.outputs, GoodOutputs(Evaluate(c)));
    assert !IsRoot(c, j);
  }

  /** A job that is skipped once more was rightly skipped before. */
  lemma SkippedRight(c: Config, s: State, j: Id)
    requires Faithful(c, s) && StatusOf(s, j).Skipped?
    ensures j in Evaluate(c) && Evaluate(c)[j] == Omitted
  {
    hide Evaluate, InputRight;
    assert StatusRight(c, s, j);
  }

  lemma MoveFaithful(c: Config, s: State, j: Id)
    requires ValidConfig(c) && LocalGuards(c) && Orderly(c, s) && Timely(c, s) && s.success && Faithful(c, s)
    requires ReadyMove(c, s, j)
    ensures Faithful(c, Move(c, s, j))
  {
    hide ValidConfig, LocalGuard, Orderly, Timely, Faithful, Evaluate, AllDone, ShouldSkip, LaunchInput, AllReused,
      Launch, Skip;
    assert LocalGuard(c, j);
    if StatusOf(s, j).Pending? { DecisionRight(c, s, j); } else { SkippedRight(c, s, j); }
    if ShouldSkip(c, s, j) {
      SkipFaithful(c, s, j);
    } else {
      LaunchFaithful(c, s, j, LaunchInput(c, s.outputs, j));
    }
  }

  lemma OrderlyScoped(c: Config, s: State, j: Id)
    requires Orderly(c, s)
    ensures Scoped(c, s) && Clean(s)
  {
  }

  lemma SkipFaithful(c: Config, s: State, j: Id)
    requires Faithful(c, s) && (StatusOf(s, j).Pending? || StatusOf(s, j).Skipped?)
    requires j in Evaluate(c) && Evaluate(c)[j] == Omitted
    ensures Faithful(c, Skip(s, j))
  {
    hide Evaluate, InputRight, Serialize;
    var u := Skip(s, j);
    forall k ensures StatusRight(c, u, k) { assert StatusRight(c, s, k); }
  }

  lemma LaunchFaithful(c: Config, s: State, j: Id, input: Bytes)
    requires Faithful(c, s) && StatusOf(s, j).Pending? && InputRight(c, Flight(j, input))
    ensures Faithful(c, Launch(s, j, input))
  {
    hide Evaluate, InputRight, Serialize;
    var u := Launch(s, j, input);
    forall k ensures StatusRight(c, u, k) { assert StatusRight(c, s, k); }
  }

  lemma {:induction false} PlayFaithful(c: Config, s: State, ms: seq<Look>)
    requires ValidConfig(c) && LocalGuards(c) && Proper(c, s, ms) && Faithful(c, s) && Timely(c, s) && s.success
    ensures Faithful(c, Play(c, s, ms)) && Timely(c, Play(c, s, ms)) && Play(c, s, ms).success
  {
    hide ValidConfig, LocalGuards, Faithful, Orderly, ReadyMove, Move, Timely;
    if ms != [] {
      PlayFaithful(c, s, ms[..|ms| - 1]);
      MoveTimely(c, Play(c, s, ms[..|ms| - 1]), ms[|ms| - 1].job);
      MoveStatus(c, Play(c, s, ms[..|ms| - 1]), ms[|ms| - 1].job);
      MoveFaithful(c, Play(c, s, ms[..|ms| - 1]), ms[|ms| - 1].job);
    }
  }

  lemma SucceedFaithful(c: Config, s: State, f: Flight, elapsed: nat, bytes: Bytes)
    requires Faithful(c, s) && s.inFlight > 0 && f in s.flights && f.job !in c.pre
    requires c.run(f.job, f.input) == Output(bytes)
    ensures Faithful(c, Succeed(s, f, elapsed, bytes))
  {
    hide Evaluate, Serialize;
    var t := Succeed(s, f, elapsed, bytes);
    forall k ensures StatusRight(c, t, k) { assert StatusRight(c, s, k); }
  }

  lemma FailFaithful(c: Config, s: State, f: Flight, elapsed: nat, reason: string)
    requires Faithful(c, s) && s.inFlight > 0 && f in s.flights && StatusOf(s, f.job).Running?
    requires c.run(f.job, f.input) == Failure(reason)
    ensures Faithful(c, Fail(s, f, elapsed, reason))
    ensures Faithful(c, Fail(s, f, elapsed, reason).(halted := true))
  {
    hide Evaluate, Serialize;
    var t := Fail(s, f, elapsed, reason);
    forall k ensures StatusRight(c, t, k) && StatusRight(c, t.(halted := true), k) { assert StatusRight(c, s, k); }
  }

  lemma DeliverFaithful(c: Config, s: State, f: Flight, elapsed: nat)
    requires Plain(c) && LocalGuards(c) && Orderly(c, s) && Faithful(c, s) && f in s.flights && s.inFlight > 0
    requires s.success ==> Settled(c, s, {})
    ensures Faithful(c, Deliver(c, s, f, elapsed))
  {
    hide Plain, LocalGuards, Settled, Timely, Orderly, ValidConfig, Faithful, ReleaseAll, AfterFailure, Succeed, Fail,
      Touched, JustDone, Sound, Proper;
    PlainValid(c);
    OrderlyParts(c, s);
    FlightJob(c, s, f);
    match c.run(f.job, f.input)
    case Output(bytes) =>
      SucceedStatus(s, f, elapsed, bytes);
      SucceedFaithful(c, s, f, elapsed, bytes);
      if s.success {
        var ms := SuccessIsProper(c, s, f, elapsed, bytes);
        SucceedTimely(c, s, f, elapsed, bytes);
        PlayFaithful(c, Succeed(s, f, elapsed, bytes), ms);
      }
    case Failure(reason) =>
      FailureNeverCancels(c, Fail(s, f, elapsed, reason), f.job);
      FailFaithful(c, s, f, elapsed, reason);
  }

  // -- The start of a run ----------------------------------------------------

  lemma {:induction false} RootFlights(c: Config, s: State, ids: seq<Id>)
    ensures forall f :: f in LaunchRoots(c, s, ids).flights ==>
        f in s.flights || (f.job in ids && f.job !in c.pre && f.input == OwnInput(c, f.job))
    ensures LaunchRoots(c, s, ids).outputs == s.outputs
  {
    hide Serialize, OwnInput;
    if ids != [] { RootFlights(c, s, ids[..|ids| - 1]); }
  }

  lemma {:induction false} ReadyFlights(c: Config, s: State, ids: seq<Id>)
    ensures forall f :: f in LaunchReady(c, s, ids).flights ==>
        f in s.flights || (f.job in ids && f.job !in c.pre && !IsRoot(c, f.job) && AllReused(c, f.job)
                           && f.input == LaunchInput(c, s.outputs, f.job))
    ensures LaunchReady(c, s, ids).outputs == s.outputs
  {
    hide Serialize, LaunchInput, IsRoot, AllReused;
    if ids != [] { ReadyFlights(c, s, ids[..|ids| - 1]); }
  }

  lemma StartFlights(c: Config)
    requires ValidConfig(c)
    ensures forall f :: f in Start(c).flights ==>
        f.job in c.wf.jobs && f.job !in c.pre && AllReused(c, f.job) && f.input == EvalInput(c, map[], f.job)
  {
    hide ValidConfig, LaunchRoots, LaunchReady, Seed, OwnInput, LaunchInput, StoreMirrors;
    OrdersExact(c);
    SeedOrderly(c, c.preOrder);
    SeedFacts(c, c.preOrder);
    var s0 := Seed(c, Initial(c), c.preOrder);
    RootFlights(c, s0, c.rootOrder);
    ReadyFlights(c, LaunchRoots(c, s0, c.rootOrder), c.wf.order);
  }

  /** A job that waits for reused jobs only finds no outputs. */
  lemma ReusedInput(c: Config, j: Id)
    requires ValidConfig(c) && j in c.wf.jobs && j !in c.pre && AllReused(c, j)
    ensures j in Evaluate(c) && Evaluate(c)[j] == VerdictOf(c.run(j, EvalInput(c, map[], j)))
  {
    EvaluateFixpoint(c);
    KeptIfReused(c);
    hide Evaluate, LaunchInput, OwnInput, IsRoot, Omits;
    forall d | d in DepsAt(c, j) ensures Cleared(Evaluate(c), d) && d !in GoodOutputs(Evaluate(c)) {
      DependentsExact(c, d, j);
    }
    hide ValidConfig;
    SameInput(c, j, map[], GoodOutputs(Evaluate(c)));
  }

  lemma StartFaithful(c: Config)
    requires ValidConfig(c)
    ensures Faithful(c, Start(c))
  {
    hide ValidConfig, Start, Evaluate, EvalInput, StoreMirrors, Counted, Clean, AllReused;
    StartFlights(c);
    StartStatuses(c);
    var s := Start(c);
    forall f | f in s.flights ensures InputRight(c, f) { ReusedInput(c, f.job); }
    forall j ensures StatusRight(c, s, j) {
      if j in c.wf.jobs { assert StatusOf(s, j) == StartStatus(c, j); }
    }
  }

  lemma {:induction false} StepsFaithful(c: Config, s: State, n: nat)
    requires Plain(c) && LocalGuards(c) && Steps(c, Start(c), s, n)
    ensures Orderly(c, s) && Faithful(c, s)
    decreases n
  {
    hide Plain, LocalGuards, Orderly, Faithful, Deliver, Final, Start, ValidConfig, Settled;
    PlainValid(c);
    if n == 0 {
      StartOrderly(c);
      StartFaithful(c);
    } else {
      var m :| Steps(c, Start(c), m, n - 1) && Step(c, m, s);
      StepsFaithful(c, m, n - 1);
      assert Reachable(c, m);
      ReachableSettled(c, m);
      var f: Flight, elapsed: nat :| f in m.flights && s == Deliver(c, m, f, elapsed);
      DeliverOrderly(c, m, f, elapsed);
      DeliverFaithful(c, m, f, elapsed);
    }
  }

  lemma ReachableFaithful(c: Config, s: State)
    requires Plain(c) && LocalGuards(c) && Reachable(c, s)
    ensures Orderly(c, s) && Faithful(c, s)
  {
    hide Plain, LocalGuards, Orderly, Faithful, Start;
    var n: nat :| Steps(c, Start(c), s, n);
    StepsFaithful(c, s, n);
  }

  // -- The theorems ----------------------------------------------------------

  /** At any moment of any run, each recorded output is the evaluator's, and so is each skip. */
  lemma OutputsAreSequential(c: Config, s: State, j: Id)
    requires Plain(c) && LocalGuards(c) && Reachable(c, s)
    ensures j in s.outputs ==> j in Evaluate(c) && Evaluate(c)[j] == Good(s.outputs[j])
    ensures StatusOf(s, j).Skipped? ==> j in Evaluate(c) && Evaluate(c)[j] == Omitted
  {
    hide Plain, LocalGuards, Evaluate, Reachable, Orderly;
    ReachableFaithful(c, s);
    assert StatusRight(c, s, j);
  }

  lemma AllOutputsGood(c: Config, s: State)
    requires Faithful(c, s) && Scoped(c, s) && Evaluate(c).Keys == c.wf.jobs.Keys
    requires forall j :: j in c.wf.jobs && j in c.pre ==> Evaluate(c)[j] == Kept
    requires forall j :: j in c.wf.jobs ==> StatusOf(s, j).Succeeded? || StatusOf(s, j).Skipped?
    ensures s.outputs == GoodOutputs(Evaluate(c))
    ensures forall j :: j in Evaluate(c) ==> !Evaluate(c)[j].Bad?
    ensures forall j :: j in c.wf.jobs ==> (StatusOf(s, j).Skipped? <==> Evaluate(c)[j].Omitted?)
  {
    hide Evaluate, InputRight, StatusOf;
    forall j | j in c.wf.jobs
      ensures !Evaluate(c)[j].Bad? && (StatusOf(s, j).Skipped? <==> Evaluate(c)[j].Omitted?)
      ensures Evaluate(c)[j].Good? ==> j in s.outputs
    {
      assert StatusRight(c, s, j);
    }
    forall j | j in s.outputs ensures j in Evaluate(c) && Evaluate(c)[j] == Good(s.outputs[j]) {
      assert StatusRight(c, s, j);
    }
  }

  lemma FailedIsBad(c: Config, s: State, j: Id)
    requires Faithful(c, s) && StatusOf(s, j).Failed?
    ensures j in Evaluate(c) && Evaluate(c)[j].Bad?
  {
    hide Evaluate, StatusOf, InputRight;
    assert StatusRight(c, s, j);
  }

  /** However the events were ordered, the run reports success exactly when the
      evaluator has no failing job; it has then skipped exactly the jobs the evaluator
      skips and holds the outputs of all the others that were not reused. */
  lemma RunRefinesEvaluation(c: Config, s: State)
    requires Plain(c) && LocalGuards(c) && Ended(c, s)
    ensures Evaluate(c).Keys == c.wf.jobs.Keys
    ensures s.success <==> forall j :: j in Evaluate(c) ==> !Evaluate(c)[j].Bad?
    ensures s.success ==> s.outputs == GoodOutputs(Evaluate(c))
    ensures s.success ==> forall j :: j in c.wf.jobs ==> (StatusOf(s, j).Skipped? <==> Evaluate(c)[j].Omitted?)
  {
    hide Plain, LocalGuards, ValidConfig, Evaluate, Orderly, Faithful, Reachable, StatusOf;
    PlainValid(c);
    ReachableFaithful(c, s);
    KeptIfReused(c);
    OrderlyScoped(c, s, "");
    if s.success {
      NoJobIsStuck(c, s);
      AllOutputsGood(c, s);
    } else {
      FailureShows(c, s);
      var j :| StatusOf(s, j).Failed?;
      FailedIsBad(c, s, j);
    }
  }

  /** `success` is false only if a job's status says why. */
  lemma FailureShows(c: Config, s: State)
    requires Plain(c) && Reachable(c, s) && !s.success
    ensures exists j :: StatusOf(s, j).Failed?
  {
    hide Plain, Start;
    var n: nat :| Steps(c, Start(c), s, n);
    FailureShowsAfter(c, s, n);
  }

  lemma {:induction false} FailureShowsAfter(c: Config, s: State, n: nat)
    requires Plain(c) && Steps(c, Start(c), s, n) && !s.success
    ensures exists j :: StatusOf(s, j).Failed?
    decreases n
  {
    hide ValidConfig, Orderly, Deliver, Start, Sound, Plain, StatusOf;
    PlainValid(c);
    StartStatuses(c);
    if n > 0 {
      var m :| Steps(c, Start(c), m, n - 1) && Step(c, m, s);
      assert Reachable(c, m);
      ReachableOrderly(c, m);
      var f: Flight, elapsed: nat :| f in m.flights && s == Deliver(c, m, f, elapsed);
      if !m.success {
        FailureShowsAfter(c, m, n - 1);
        var j :| StatusOf(m, j).Failed?;
        DeliverOrderly(c, m, f, elapsed);
        assert IsTerminal(StatusOf(m, j));
      } else {
        FirstFailure(c, m, f, elapsed);
      }
    }
  }

  lemma FirstFailure(c: Config, s: State, f: Flight, elapsed: nat)
    requires Plain(c) && Orderly(c, s) && f in s.flights && s.inFlight > 0
    requires s.success && !Deliver(c, s, f, elapsed).success
    ensures StatusOf(Deliver(c, s, f, elapsed), f.job).Failed?
  {
    hide Plain, ValidConfig, Orderly, ReleaseAll, AfterFailure, Serialize, Proper, Touched, JustDone, Play;
    PlainValid(c);
    match c.run(f.job, f.input)
    case Output(bytes) => var ms := SuccessIsProper(c, s, f, elapsed, bytes);
    case Failure(reason) => FailOrderly(c, s, f, elapsed, reason);
  }

  /** Two configurations of the same workflow, reusing the same jobs, that differ only in
      hash-map orders. */
  ghost predicate SameWorkflow(c: Config, d: Config) {
    && c.wf.jobs == d.wf.jobs && c.children == d.children && c.codec == d.codec && c.run == d.run
    && c.pre.Keys == d.pre.Keys
  }

  lemma JudgeShared(c: Config, d: Config, v: map<Id, Verdict>, j: Id)
    requires SameWorkflow(c, d) && c.dag.deps == d.dag.deps
    ensures Judge(c, v, j) == Judge(d, v, j)
  {
    assert DepsAt(c, j) == DepsAt(d, j);
    assert LiveDeps(c) == LiveDeps(d);
    assert forall x :: WaitsFor(c, j, x) <==> WaitsFor(d, j, x);
    assert Seen(c, v, j) == Seen(d, v, j);
    assert EvalInput(c, GoodOutputs(v), j) == EvalInput(d, GoodOutputs(v), j);
    assert forall x :: x in c.pre <==> x in d.pre;
    assert AllReused(c, j) <==> AllReused(d, j);
    assert Omits(c, v, j) <==> Omits(d, v, j);
    hide Omits, AllReused, EvalInput, Cleared;
  }

  lemma {:induction false} EvaluationOrderFree(c: Config, d: Config, j: Id)
    requires ValidConfig(c) && ValidConfig(d) && SameWorkflow(c, d) && j in c.wf.jobs
    ensures j in Evaluate(c) && j in Evaluate(d) && Evaluate(c)[j] == Evaluate(d)[j]
    decreases Position(c.dag.topoOrder, Named(c, j))
  {
    hide ValidConfig, Evaluate, WaitsFor, Judge;
    FixpointAt(c, j);
    FixpointAt(d, j);
    forall x | WaitsFor(c, j, x) ensures x in Evaluate(c) && x in Evaluate(d) && Evaluate(c)[x] == Evaluate(d)[x] {
      WaitsEarlier(c, j, x);
      EvaluationOrderFree(c, d, x);
    }
    JudgeLocal(c, Evaluate(c), Evaluate(d), j);
    DependenciesAgree(c);
    DependenciesAgree(d);
    JudgeShared(c, d, Evaluate(d), j);
  }

  lemma FixpointAt(c: Config, j: Id)
    requires ValidConfig(c) && j in c.wf.jobs
    ensures Evaluate(c).Keys == c.wf.jobs.Keys && Evaluate(c)[j] == Judge(c, Evaluate(c), j)
  {
    hide ValidConfig, Evaluate, Judge;
    EvaluateFixpoint(c);
  }

  lemma DependenciesAgree(c: Config)
    requires ValidConfig(c)
    ensures c.dag.deps == DepsOf(c.wf.jobs)
  {
  }

  /** Two finished runs of one workflow, with any event orders and any iteration orders,
      report the same success and, if they succeed, the same outputs and skips. */
  lemma RunsAgree(c: Config, d: Config, s: State, t: State)
    requires Plain(c) && LocalGuards(c) && Plain(d) && LocalGuards(d) && SameWorkflow(c, d)
    requires Ended(c, s) && Ended(d, t)
    ensures s.success == t.success
    ensures s.success ==> s.outputs == t.outputs
    ensures s.success ==> forall j :: j in c.wf.jobs ==> (StatusOf(s, j).Skipped? <==> StatusOf(t, j).Skipped?)
  {
    hide Plain, LocalGuards, ValidConfig, Ended, Evaluate, StatusOf;
    PlainValid(c);
    PlainValid(d);
    RunRefinesEvaluation(c, s);
    RunRefinesEvaluation(d, t);
    forall j | j in c.wf.jobs ensures Evaluate(c)[j] == Evaluate(d)[j] { EvaluationOrderFree(c, d, j); }
    assert Evaluate(c) == Evaluate(d);
  }
}
