/** Does a retry end where a fresh run would?  The outputs of reused jobs are not restored,
    and guards are not asked of jobs that wait for reused jobs only. */
module Replays {
  import opened Collections
  import opened Graph
  import opened Workflows
  import opened States
  import opened Whens
  import opened FanIns
  import opened Scheduler
  import opened Settling
  import opened Moves
  import opened Discipline
  import opened Guards
  import opened Refinement
  import opened Retries

  /** c reuses jobs that succeed in b, a fresh run of the same workflow with components that
      behave the same, and no job that is run again lies below a reused one. */
  ghost predicate Replaying(b: Config, c: Config) {
    && ValidConfig(b) && ValidConfig(c) && b.pre == map[] && PreClosed(c) && LocalGuards(b)
    && b.wf.jobs == c.wf.jobs && b.children == c.children && b.codec == c.codec && b.run == c.run
    && forall j :: j in c.pre ==> j in Evaluate(b) && Evaluate(b)[j].Good?
  }

  /** A retry of any state of a fresh run is of this kind if it is closed. */
  lemma RetryReplays(b: Config, s: State, from: Id, c: Config)
    requires Plain(b) && LocalGuards(b) && b.pre == map[] && RetryOf(b, s, from, c) && PreClosed(c)
    requires b.children == c.children && b.codec == c.codec && b.run == c.run
    ensures Replaying(b, c)
  {
    hide Plain, LocalGuards, ValidConfig, Evaluate, Orderly, Faithful, Reachable, Downstream, Decode, PreClosed,
      StatusOf;
    PlainValid(b);
    assert Reachable(b, s);
    ReachableFaithful(b, s);
    forall j | j in c.pre ensures j in Evaluate(b) && Evaluate(b)[j].Good? {
      ReusedExactly(b, s, from, c, j);
      SucceededIsGood(b, s, j);
    }
  }

  lemma SucceededIsGood(b: Config, s: State, j: Id)
    requires Faithful(b, s) && StatusOf(s, j).Succeeded? && b.pre == map[]
    ensures j in Evaluate(b) && Evaluate(b)[j].Good?
  {
    hide Evaluate, InputRight, StatusOf;
    assert StatusRight(b, s, j);
  }

  // -- What a job that is run again gets -------------------------------------

  /** What a retry holds of the outputs of the fresh run. */
  ghost function Remaining(b: Config, c: Config): map<Id, Bytes> {
    GoodOutputs(Evaluate(b)) - c.pre.Keys
  }

  /** Without the outputs of the reused jobs j gets the same input. */
  ghost predicate InputKept(b: Config, c: Config, j: Id) {
    EvalInput(b, Remaining(b, c), j) == EvalInput(b, GoodOutputs(Evaluate(b)), j)
  }

  /** Nothing is missed: every job that is run again gets its input, and no job that would
      be skipped escapes its guard. */
  ghost predicate NothingMissed(b: Config, c: Config) {
    forall j :: j in c.wf.jobs && j !in c.pre && j in Evaluate(b) ==>
      && (Evaluate(b)[j].Good? || Evaluate(b)[j].Bad? ==> InputKept(b, c, j))
      && (AllReused(c, j) ==> !Evaluate(b)[j].Omitted?)
  }

  ghost predicate Agrees(b: Config, c: Config, j: Id) {
    j in Evaluate(b) && j in Evaluate(c) && Evaluate(c)[j] == Evaluate(b)[j]
  }

  lemma ReplayParts(b: Config, c: Config)
    requires Replaying(b, c)
    ensures ValidConfig(b) && ValidConfig(c) && b.pre == map[] && PreClosed(c) && LocalGuards(b)
    ensures b.wf.jobs == c.wf.jobs && b.run == c.run && b.codec == c.codec && b.children == c.children
    ensures forall j :: j in c.pre ==> j in Evaluate(b) && Evaluate(b)[j].Good?
  {
    hide ValidConfig, PreClosed, LocalGuards, Evaluate;
  }

  lemma ReplayShares(b: Config, c: Config, j: Id)
    requires Replaying(b, c)
    ensures DepsAt(b, j) == DepsAt(c, j) && IsRoot(b, j) == IsRoot(c, j) && HasGuard(b, j) == HasGuard(c, j)
    ensures forall outputs :: EvalInput(b, outputs, j) == EvalInput(c, outputs, j)
    ensures b.dag.deps == c.dag.deps && LiveDeps(b) == b.dag.deps
  {
    hide Replaying, ValidConfig, PreClosed, LocalGuards, Evaluate, EvalInput, LiveDeps;
    ReplayParts(b, c);
    DependenciesAgree(b);
    DependenciesAgree(c);
    FreshLiveDeps(b);
    forall outputs ensures EvalInput(b, outputs, j) == EvalInput(c, outputs, j) { InputShared(b, c, outputs, j); }
  }

  lemma InputShared(b: Config, c: Config, outputs: map<Id, Bytes>, j: Id)
    requires b.wf.jobs == c.wf.jobs && b.codec == c.codec && b.children == c.children && b.dag.deps == c.dag.deps
    ensures EvalInput(b, outputs, j) == EvalInput(c, outputs, j)
  {
    hide FaninInput;
  }

  /** What is upstream in the fresh run is reused or upstream in the retry. */
  lemma UpstreamReplay(b: Config, c: Config, j: Id, x: Id)
    requires Replaying(b, c) && j !in c.pre
    ensures WaitsFor(b, j, x) && x !in c.pre ==> WaitsFor(c, j, x)
    ensures WaitsFor(c, j, x) ==> WaitsFor(b, j, x)
  {
    ReplayShares(b, c, j);
    hide Replaying, PreClosed;
    if WaitsFor(b, j, x) && x !in c.pre {
      var n: nat :| n > 0 && Walk(b.dag.deps, j, x, n);
      assert PreClosed(c) by { ReplayParts(b, c); }
      WalkStaysLive(c, j, x, n);
    }
    if WaitsFor(c, j, x) {
      var n: nat :| n > 0 && Walk(LiveDeps(c), j, x, n);
      LiveWalk(c, j, x, n);
    }
  }

  /** A reused job waits for reused jobs only. */
  lemma ReusedAbove(b: Config, c: Config, x: Id, j: Id)
    requires Replaying(b, c) && x in c.pre && WaitsFor(b, x, j)
    ensures j in c.pre
  {
    ReplayShares(b, c, x);
    hide Replaying, PreClosed;
    if j !in c.pre {
      assert PreClosed(c) by { ReplayParts(b, c); }
      var n: nat :| n > 0 && Walk(b.dag.deps, x, j, n);
      WalkStaysLive(c, x, j, n);
    }
  }

  // -- What a guard sees -----------------------------------------------------

  ghost predicate Ready(c: Config, v: map<Id, Verdict>, j: Id) {
    forall d :: d in DepsAt(c, j) ==> Cleared(v, d)
  }

  /** Where everything j lists is finished, so is everything upstream. */
  lemma {:induction false} FinishedAbove(b: Config, j: Id, x: Id, n: nat)
    requires ValidConfig(b) && j in b.wf.jobs && n > 0 && Walk(LiveDeps(b), j, x, n)
    requires Ready(b, Evaluate(b), j)
    ensures Cleared(Evaluate(b), x)
    decreases n
  {
    hide ValidConfig, Evaluate;
    var m :| Edge(LiveDeps(b), j, m) && Walk(LiveDeps(b), m, x, n - 1);
    assert m in DepsAt(b, j);
    if n > 1 {
      var k :| Edge(LiveDeps(b), m, k) && Walk(LiveDeps(b), k, x, n - 2);
      assert m !in b.pre;
      FixpointAt(b, j);
      assert m in b.wf.jobs;
      FixpointAt(b, m);
      FinishedAbove(b, m, x, n - 1);
    }
  }

  lemma UpstreamFinished(b: Config, j: Id, x: Id)
    requires ValidConfig(b) && j in b.wf.jobs && WaitsFor(b, j, x)
    requires Ready(b, Evaluate(b), j)
    ensures Cleared(Evaluate(b), x)
  {
    hide ValidConfig, Evaluate, Cleared;
    var n: nat :| n > 0 && Walk(LiveDeps(b), j, x, n);
    FinishedAbove(b, j, x, n);
  }

  lemma FreshIsShown(b: Config, j: Id)
    requires ValidConfig(b) && b.pre == map[] && j in b.wf.jobs
    requires Ready(b, Evaluate(b), j)
    ensures Shown(b, j, Seen(b, Evaluate(b), j))
  {
    hide ValidConfig, Evaluate, WaitsFor, Loose, Behind, MaySkip;
    var v := Evaluate(b);
    forall x ensures MayShow(b, j, x, StatusText(Seen(b, v, j), x)) {
      if WaitsFor(b, j, x) {
        UpstreamFinished(b, j, x);
        FixpointAt(b, j);
        if v[x].Kept? { NothingKept(b, x); }
      }
    }
  }

  lemma NothingKept(b: Config, x: Id)
    requires ValidConfig(b) && b.pre == map[] && x in Evaluate(b)
    ensures !Evaluate(b)[x].Kept?
  {
    hide ValidConfig, Evaluate, Omits, EvalInput;
    EvaluateFixpoint(b);
  }

  lemma ReplayTexts(b: Config, c: Config, j: Id, x: Id)
    requires Replaying(b, c) && j in c.wf.jobs && j !in c.pre && !AllReused(c, j)
    requires x !in c.pre && WaitsFor(b, j, x) ==> Agrees(b, c, x)
    ensures var a, s := Seen(c, Evaluate(c), j), Seen(b, Evaluate(b), j);
            && (WaitsFor(b, j, x) ==> StatusText(a, x) == StatusText(s, x))
            && (!WaitsFor(b, j, x) && x !in c.pre ==> StatusText(a, x) == "UNKNOWN")
            && (x in c.pre ==> StatusText(a, x) == "SUCCESS")
  {
    hide Replaying, ValidConfig, PreClosed, LocalGuards, Evaluate, WaitsFor, AllReused;
    UpstreamReplay(b, c, j, x);
    ReplayParts(b, c);
  }

  lemma ReusedIsTimely(b: Config, c: Config, j: Id, x: Id)
    requires Replaying(b, c) && j in c.wf.jobs && j !in c.pre && !AllReused(c, j) && x in c.pre && !WaitsFor(b, j, x)
    ensures MayShow(b, j, x, "SUCCESS")
  {
    hide Replaying, WaitsFor, MaySkip, ValidConfig, PreClosed, LocalGuards, Evaluate;
    ReplayParts(b, c);
    ReplayShares(b, c, j);
    ReusedIsJob(b, c, x);
    if WaitsFor(b, x, j) { ReusedAbove(b, c, x, j); }
    var m :| m in DepsAt(c, j) && m !in c.pre;
    assert m !in b.pre;
    if WaitsFor(b, x, m) { ReusedAbove(b, c, x, m); }
  }

  lemma ReusedIsJob(b: Config, c: Config, x: Id)
    requires Replaying(b, c) && x in c.pre
    ensures x in b.wf.jobs
  {
    assert ValidConfig(b) && x in Evaluate(b);
    hide Replaying, ValidConfig, Evaluate;
    EvaluateFixpoint(b);
  }

  lemma ReplayIsShown(b: Config, c: Config, j: Id)
    requires Replaying(b, c) && j in c.wf.jobs && j !in c.pre && !AllReused(c, j)
    requires forall x :: x !in c.pre && WaitsFor(b, j, x) ==> Agrees(b, c, x)
    requires Shown(b, j, Seen(b, Evaluate(b), j))
    ensures Shown(b, j, Seen(c, Evaluate(c), j)) && SameAbove(b, j, Seen(c, Evaluate(c), j), Seen(b, Evaluate(b), j))
  {
    assert b.pre == map[];
    hide Replaying, Evaluate, Seen, WaitsFor, AllReused, Loose, Behind, MaySkip, StatusText, Agrees;
    var a, s := Seen(c, Evaluate(c), j), Seen(b, Evaluate(b), j);
    forall x ensures MayShow(b, j, x, StatusText(a, x))
          && (WaitsFor(b, j, x) ==> StatusText(a, x) == StatusText(s, x)) {
      ReplayTexts(b, c, j, x);
      assert MayShow(b, j, x, StatusText(s, x));
      if x in c.pre && !WaitsFor(b, j, x) { ReusedIsTimely(b, c, j, x); }
    }
  }

  // -- The verdicts ----------------------------------------------------------

  /** All verdicts upstream of j agree, as far as they can. */
  ghost predicate AgreesAbove(b: Config, c: Config, j: Id) {
    forall x :: x !in c.pre && WaitsFor(b, j, x) ==> Agrees(b, c, x)
  }

  lemma DependencyAgrees(b: Config, c: Config, j: Id, d: Id)
    requires Replaying(b, c) && j in c.wf.jobs && j !in c.pre && AgreesAbove(b, c, j) && d in DepsAt(c, j)
    ensures d in Evaluate(b) && d in Evaluate(c)
    ensures Evaluate(c)[d] == if d in c.pre then Kept else Evaluate(b)[d]
    ensures d in c.pre ==> Evaluate(b)[d].Good?
  {
    ReplayShares(b, c, j);
    assert ValidConfig(c) && (d in c.pre ==> d in Evaluate(b) && Evaluate(b)[d].Good?);
    assert b.pre == map[];
    DependentsExact(c, d, j);
    hide Replaying, ValidConfig, Evaluate, WaitsFor;
    WaitsDirectly(b, j, d);
    KeptIfReused(c);
  }

  lemma SameOmission(b: Config, c: Config, j: Id)
    requires Replaying(b, c) && j in c.wf.jobs && j !in c.pre && AgreesAbove(b, c, j) && !AllReused(c, j)
    requires Ready(b, Evaluate(b), j)
    ensures Omits(c, Evaluate(c), j) <==> Omits(b, Evaluate(b), j)
  {
    ReplayShares(b, c, j);
    ReplayParts(b, c);
    hide Replaying, ValidConfig, Evaluate, Seen, EvalWhen, LocalGuard, Agrees;
    if HasGuard(c, j) {
      FreshIsShown(b, j);
      ReplayIsShown(b, c, j);
      hide Shown, SameAbove;
      assert LocalGuard(b, j) by { SomeLive(b, c, j); }
      GuardAgrees(b, j, Seen(c, Evaluate(c), j), Seen(b, Evaluate(b), j));
    } else {
      forall d | d in DepsAt(c, j)
        ensures d in Evaluate(b) && d in Evaluate(c) && (Evaluate(c)[d].Omitted? <==> Evaluate(b)[d].Omitted?)
      {
        DependencyAgrees(b, c, j, d);
      }
    }
  }

  lemma SomeLive(b: Config, c: Config, j: Id)
    requires !AllReused(c, j) && DepsAt(b, j) == DepsAt(c, j) && b.pre == map[]
    ensures !AllReused(b, j) && j !in b.pre
  {
    var m :| m in DepsAt(c, j) && m !in c.pre;
    assert m !in b.pre;
  }

  lemma GuardAgrees(b: Config, j: Id, s: map<Id, Status>, t: map<Id, Status>)
    requires LocalGuard(b, j) && HasGuard(b, j) && Shown(b, j, s) && Shown(b, j, t) && SameAbove(b, j, s, t)
    ensures EvalWhen(b.wf.jobs[j].whenExpr.value, s) == EvalWhen(b.wf.jobs[j].whenExpr.value, t)
  {
    hide Shown, SameAbove, EvalWhen;
  }

  lemma SameLaunch(b: Config, c: Config, j: Id)
    requires Replaying(b, c) && j in c.wf.jobs && j !in c.pre && AgreesAbove(b, c, j)
    ensures EvalInput(c, GoodOutputs(Evaluate(c)), j) == EvalInput(b, Remaining(b, c), j)
  {
    ReplayShares(b, c, j);
    assert ValidConfig(c);
    hide Replaying, ValidConfig, Evaluate, LaunchInput, OwnInput, WaitsFor;
    forall d | d in DepsAt(c, j)
      ensures var x, y := GoodOutputs(Evaluate(c)), Remaining(b, c); (d in x <==> d in y) && (d in x ==> x[d] == y[d])
    {
      DependencyAgrees(b, c, j, d);
    }
    SameInput(c, j, GoodOutputs(Evaluate(c)), Remaining(b, c));
  }

  ghost function OutcomeAt(c: Config, outputs: map<Id, Bytes>, j: Id): (v: Verdict)
    ensures v.Good? || v.Bad?
  {
    VerdictOf(c.run(j, EvalInput(c, outputs, j)))
  }

  lemma JudgeCases(c: Config, v: map<Id, Verdict>, j: Id)
    requires j !in c.pre
    ensures Judge(c, v, j) == if !Ready(c, v, j) then Blocked
                              else if !AllReused(c, j) && Omits(c, v, j) then Omitted
                              else OutcomeAt(c, GoodOutputs(v), j)
  {
    hide Cleared, AllReused, Omits, EvalInput;
  }

  /** Where everything upstream agrees, j agrees unless it misses something itself. */
  lemma OneAgrees(b: Config, c: Config, j: Id)
    requires Replaying(b, c) && j in c.wf.jobs && j !in c.pre && AgreesAbove(b, c, j) && j in Evaluate(b)
    requires Evaluate(b)[j].Good? || Evaluate(b)[j].Bad? ==> InputKept(b, c, j)
    requires AllReused(c, j) ==> !Evaluate(b)[j].Omitted?
    ensures Agrees(b, c, j)
  {
    hide Replaying, ValidConfig, PreClosed, LocalGuards, Evaluate, AgreesAbove, Omits, Judge, InputKept, Ready,
      OutcomeAt,
      AllReused, GoodOutputs;
    ReplayParts(b, c);
    FixpointAt(b, j);
    FixpointAt(c, j);
    JudgeCases(b, Evaluate(b), j);
    JudgeCases(c, Evaluate(c), j);
    SameClearing(b, c, j);
    if Ready(b, Evaluate(b), j) {
      if !AllReused(c, j) {
        ReplayShares(b, c, j);
        SomeLive(b, c, j);
        SameOmission(b, c, j);
      }
      if InputKept(b, c, j) { SameOutcomes(b, c, j); }
    }
  }

  lemma SameOutcomes(b: Config, c: Config, j: Id)
    requires Replaying(b, c) && j in c.wf.jobs && j !in c.pre && AgreesAbove(b, c, j) && InputKept(b, c, j)
    ensures OutcomeAt(c, GoodOutputs(Evaluate(c)), j) == OutcomeAt(b, GoodOutputs(Evaluate(b)), j)
  {
    hide Replaying, Evaluate, AgreesAbove, EvalInput, GoodOutputs, ValidConfig, PreClosed, LocalGuards;
    ReplayParts(b, c);
    SameLaunch(b, c, j);
  }

  lemma SameClearing(b: Config, c: Config, j: Id)
    requires Replaying(b, c) && j in c.wf.jobs && j !in c.pre && AgreesAbove(b, c, j)
    ensures Ready(b, Evaluate(b), j) <==> Ready(c, Evaluate(c), j)
  {
    hide Replaying, AgreesAbove, Evaluate, DepsAt;
    ReplayShares(b, c, j);
    forall d | d in DepsAt(c, j) ensures Cleared(Evaluate(c), d) <==> Cleared(Evaluate(b), d) {
      DependencyAgrees(b, c, j, d);
    }
  }

  lemma {:induction false} AllAgree(b: Config, c: Config, j: Id)
    requires Replaying(b, c) && NothingMissed(b, c) && j in c.wf.jobs && j !in c.pre
    ensures Agrees(b, c, j)
    decreases Position(b.dag.topoOrder, Named(b, j))
  {
    assert ValidConfig(b) && b.wf.jobs == c.wf.jobs;
    FixpointAt(b, j);
    hide Replaying, ValidConfig, Evaluate, InputKept, AllReused, WaitsFor, Agrees;
    forall x | x !in c.pre && WaitsFor(b, j, x) ensures Agrees(b, c, x) {
      WaitsEarlier(b, j, x);
      AllAgree(b, c, x);
    }
    OneAgrees(b, c, j);
  }

  /** What runs on different inputs ends differently. */
  ghost predicate ReadsItsInput(run: (Id, Bytes) -> Outcome) {
    forall j, x, y :: run(j, x) == run(j, y) ==> x == y
  }

  /** A retry of a fresh run decides and computes, for every job it runs again, what the fresh
      run does if nothing is missed; and only then, if the components' results depend on
      their whole input. */
  lemma ReplayAgreesExactly(b: Config, c: Config)
    requires Replaying(b, c)
    ensures NothingMissed(b, c) ==> forall j :: j in c.wf.jobs && j !in c.pre ==> Agrees(b, c, j)
    ensures ReadsItsInput(c.run) && (forall j :: j in c.wf.jobs && j !in c.pre ==> Agrees(b, c, j)) ==>
        NothingMissed(b, c)
  {
    hide Replaying, NothingMissed, Agrees;
    if NothingMissed(b, c) {
      forall j | j in c.wf.jobs && j !in c.pre ensures Agrees(b, c, j) { AllAgree(b, c, j); }
    }
    if ReadsItsInput(c.run) && forall j :: j in c.wf.jobs && j !in c.pre ==> Agrees(b, c, j) {
      forall j | j in c.wf.jobs && j !in c.pre && j in Evaluate(b)
        ensures Evaluate(b)[j].Good? || Evaluate(b)[j].Bad? ==> InputKept(b, c, j)
        ensures AllReused(c, j) ==> !Evaluate(b)[j].Omitted?
      {
        AgreementKeepsInput(b, c, j);
      }
      assert NothingMissed(b, c) by { Gathered(b, c); }
    }
  }

  lemma Gathered(b: Config, c: Config)
    requires forall j :: j in c.wf.jobs && j !in c.pre && j in Evaluate(b) ==>
        && (Evaluate(b)[j].Good? || Evaluate(b)[j].Bad? ==> InputKept(b, c, j))
        && (AllReused(c, j) ==> !Evaluate(b)[j].Omitted?)
    ensures NothingMissed(b, c)
  {
    hide Evaluate, InputKept, AllReused;
  }

  lemma AgreementKeepsInput(b: Config, c: Config, j: Id)
    requires Replaying(b, c) && ReadsItsInput(c.run) && j in c.wf.jobs && j !in c.pre && j in Evaluate(b)
    requires forall k :: k in c.wf.jobs && k !in c.pre ==> Agrees(b, c, k)
    ensures Evaluate(b)[j].Good? || Evaluate(b)[j].Bad? ==> InputKept(b, c, j)
    ensures AllReused(c, j) ==> !Evaluate(b)[j].Omitted?
  {
    hide Replaying, ValidConfig, PreClosed, LocalGuards, Evaluate, EvalInput, Omits, Ready, Judge, WaitsFor,
      AllReused, Remaining, GoodOutputs, ReadsItsInput;
    ReplayParts(b, c);
    forall x | x !in c.pre && WaitsFor(b, j, x) ensures Agrees(b, c, x) { WaitsEarlier(b, j, x); }
    FixpointAt(b, j);
    FixpointAt(c, j);
    JudgeCases(b, Evaluate(b), j);
    JudgeCases(c, Evaluate(c), j);
    SameLaunch(b, c, j);
    assert Agrees(b, c, j);
    if Evaluate(b)[j].Good? || Evaluate(b)[j].Bad? {
      SameOutcome(c.run, j, EvalInput(c, GoodOutputs(Evaluate(c)), j), EvalInput(b, GoodOutputs(Evaluate(b)), j));
    }
  }

  lemma SameOutcome(run: (Id, Bytes) -> Outcome, j: Id, x: Bytes, y: Bytes)
    requires ReadsItsInput(run) && VerdictOf(run(j, x)) == VerdictOf(run(j, y))
    ensures x == y
  {
    assert run(j, x) == run(j, y);
  }

  // -- Which inputs are kept -------------------------------------------------

  ghost predicate ReadsArray(c: Config, j: Id) {
    && j in c.wf.jobs && !IsRoot(c, j) && c.wf.jobs[j].inputFrom.Some? && c.wf.jobs[j].inputFrom.value in c.children
    && (c.wf.jobs[j].reduce.None? || c.wf.jobs[j].reduce.value.JsonArray?)
  }

  /** A fan-in job that reads an array of its children's outputs gets the array of the fresh
      run exactly if every reused child had written null, or nothing that is JSON. */
  lemma ArrayKeptExactly(b: Config, c: Config, j: Id)
    requires RoundTrips(b.codec) && ReadsArray(b, j)
    ensures InputKept(b, c, j) <==>
        forall x :: x in b.children[b.wf.jobs[j].inputFrom.value] && x in c.pre && x in GoodOutputs(Evaluate(b)) ==>
          ParseOrNull(b.codec, GoodOutputs(Evaluate(b))[x]) == Null
  {
    hide Evaluate, RoundTrips;
    var kids, full, left := b.children[b.wf.jobs[j].inputFrom.value], GoodOutputs(Evaluate(b)), Remaining(b, c);
    ArrayRead(b, full, j);
    ArrayRead(b, left, j);
    var p, q := Parsed(b.codec, kids, left), Parsed(b.codec, kids, full);
    hide EvalInput, ReadsArray;
    SameArray(b.codec, p, q);
    assert InputKept(b, c, j) <==> p == q;
    assert ParseOrNull(b.codec, "") == Null by { NoBytesNoJson(b.codec); }
    if p == q {
      forall x | x in kids && x in c.pre && x in full ensures ParseOrNull(b.codec, full[x]) == Null {
        var k :| 0 <= k < |kids| && kids[k] == x;
        assert p[k] == q[k];
      }
    }
  }

  function Parsed(codec: Codec, kids: seq<Id>, outputs: map<Id, Bytes>): (items: seq<Json>)
    ensures |items| == |kids|
    ensures forall k :: 0 <= k < |kids| ==>
        items[k] == ParseOrNull(codec, if kids[k] in outputs then outputs[kids[k]] else "")
  {
    seq(|kids|, k requires 0 <= k < |kids| => ParseOrNull(codec, if kids[k] in outputs then outputs[kids[k]] else ""))
  }

  lemma NoBytesNoJson(codec: Codec)
    requires RoundTrips(codec)
    ensures ParseOrNull(codec, "") == Null
  {
  }

  lemma ArrayRead(c: Config, outputs: map<Id, Bytes>, j: Id)
    requires RoundTrips(c.codec) && ReadsArray(c, j)
    ensures var items := Parsed(c.codec, c.children[c.wf.jobs[j].inputFrom.value], outputs);
            c.codec.render(Arr(items)) == Some(EvalInput(c, outputs, j))
  {
    var kids := c.children[c.wf.jobs[j].inputFrom.value];
    var raws := RawOutputs(kids, outputs);
    var items := Parsed(c.codec, kids, outputs);
    assert seq(|raws|, i requires 0 <= i < |raws| => ParseOrNull(c.codec, raws[i])) == items;
    assert c.codec.render(Arr(items)).Some?;
  }

  lemma SameArray(codec: Codec, p: seq<Json>, q: seq<Json>)
    requires RoundTrips(codec)
    ensures codec.render(Arr(p)) == codec.render(Arr(q)) <==> p == q
  {
    if codec.render(Arr(p)) == codec.render(Arr(q)) {
      assert codec.parse(codec.render(Arr(p)).value) == Some(Arr(p));
      assert codec.parse(codec.render(Arr(q)).value) == Some(Arr(q));
    }
  }

  // -- Runs ------------------------------------------------------------------

  /** So where nothing is missed a successful fresh run s and a finished retry t of the same
      workflow end alike: t succeeds, skips the same jobs, and holds the outputs of s but for
      the reused jobs. */
  lemma RetryEndsLikeAFreshRun(b: Config, c: Config, s: State, t: State)
    requires Replaying(b, c) && NothingMissed(b, c) && Plain(b) && Plain(c) && LocalGuards(c)
    requires Ended(b, s) && s.success && Ended(c, t)
    ensures t.success && t.outputs == s.outputs - c.pre.Keys
    ensures forall j :: j in c.wf.jobs ==> (StatusOf(t, j).Skipped? <==> StatusOf(s, j).Skipped?)
  {
    hide Replaying, NothingMissed, Plain, LocalGuards, ValidConfig, Evaluate, Ended, StatusOf, PreClosed,
      ReadsItsInput, Agrees;
    ReplayAgreesExactly(b, c);
    ReplayParts(b, c);
    RunRefinesEvaluation(b, s);
    RunRefinesEvaluation(c, t);
    KeptIfReused(c);
    forall j | j in c.wf.jobs
      ensures Evaluate(c)[j] == if j in c.pre then Kept else Evaluate(b)[j]
    {
      if j !in c.pre { AgreesMeans(b, c, j); }
    }
    assert t.outputs == s.outputs - c.pre.Keys;
  }

  lemma AgreesMeans(b: Config, c: Config, j: Id)
    requires Agrees(b, c, j)
    ensures j in Evaluate(b) && j in Evaluate(c) && Evaluate(c)[j] == Evaluate(b)[j]
  {
    hide Evaluate;
  }
}
