/** Concrete workflows on which properties one might expect fail. */
module Witnesses {
  import opened Collections
  import opened Graph
  import opened Workflows
  import opened Dags
  import opened States
  import opened Whens
  import opened FanIns
  import opened Scheduler
  import opened Settling
  import opened Moves
  import opened Discipline
  import opened Guards
  import opened Refinement
  import opened Repeats
  import opened Races
  import opened Replays

  // -- The smallest race -----------------------------------------------------

  function SmallJob(deps: seq<Id>, guard: Option<string>): JobDef {
    JobDef("c.wasm", deps, None, None, guard, None, None, false, None, Local)
  }

  /** Two jobs side by side, and one that waits for the first and asks about the second. */
  function Race(codec: Codec, run: (Id, Bytes) -> Outcome): Config {
    var jobs := map["a" := SmallJob([], None),
                    "b" := SmallJob([], None),
                    "y" := SmallJob(["a"], Some(Comparing("b", "==", "SUCCESS")))];
    var order := ["a", "b", "y"];
    Config(Workflow(order, jobs), map[],
           Dag(order, DepsOf(jobs), map["a" := ["y"], "b" := [], "y" := []]),
           map[], [], ["a", "b"], codec, run)
  }

  lemma RaceOrder(codec: Codec, run: (Id, Bytes) -> Outcome)
    ensures var c := Race(codec, run); c.wf.WellFormed() && IsTopoOrder(c.dag.deps, c.dag.topoOrder)
  {
    var order := ["a", "b", "y"];
    assert order[0] == "a" && order[1] == "b" && order[2] == "y";
    assert Elems(order) == {"a", "b", "y"};
    assert order[..2] == ["a", "b"];
  }

  lemma RaceGraph(g: Deps, dependents: map<Id, seq<Id>>)
    requires g == map["a" := [], "b" := [], "y" := ["a"]]
    requires dependents == map["a" := ["y"], "b" := [], "y" := []]
    ensures forall d, j :: d in g ==> multiset(dependents[d])[j] == Occurrences(g, j, d)
  {
  }

  lemma RaceDag(codec: Codec, run: (Id, Bytes) -> Outcome)
    requires var c := Race(codec, run); IsTopoOrder(c.dag.deps, c.dag.topoOrder)
    ensures var c := Race(codec, run); c.dag.Valid() && NoDup(c.rootOrder) && Elems(c.rootOrder) == RootSet(c.dag)
  {
    hide IsTopoOrder, Comparing, Occurrences;
    var c := Race(codec, run);
    RaceGraph(c.dag.deps, c.dag.dependents);
    RaceRoots(c.dag);
  }

  lemma RaceRoots(dag: Dag)
    requires dag.deps == map["a" := [], "b" := [], "y" := ["a"]]
    ensures NoDup(["a", "b"]) && Elems(["a", "b"]) == RootSet(dag)
  {
    var roots := ["a", "b"];
    assert roots[0] == "a" && roots[1] == "b";
    assert RootSet(dag) == {"a", "b"} == Elems(roots);
  }

  lemma RaceValid(codec: Codec, run: (Id, Bytes) -> Outcome)
    ensures ValidConfig(Race(codec, run))
  {
    hide Comparing, IsTopoOrder, NoDup, Elems, Dag.Valid, RootSet;
    RaceOrder(codec, run);
    RaceDag(codec, run);
    NothingReused();
  }

  lemma NothingReused()
    ensures var none: seq<Id> := []; NoDup(none) && Elems(none) == {}
  {
  }

  lemma RaceWaits(codec: Codec, run: (Id, Bytes) -> Outcome)
    requires ValidConfig(Race(codec, run))
    ensures var c := Race(codec, run); Loose(c, "y", "b") && !Behind(c, "y", "b") && !AllReused(c, "y")
    ensures var c := Race(codec, run); Spread(c, "y")
  {
    hide ValidConfig, WaitsFor, Comparing;
    var c := Race(codec, run);
    assert DepsAt(c, "y") == ["a"] && DepsAt(c, "a") == [] && DepsAt(c, "b") == [];
    if WaitsFor(c, "y", "b") {
      var m := WaitsFirst(c, "y", "b");
      var _ := WaitsFirst(c, m, "b");
    }
    if WaitsFor(c, "b", "y") { var _ := WaitsFirst(c, "b", "y"); }
    if WaitsFor(c, "b", "a") { var _ := WaitsFirst(c, "b", "a"); }
    WaitsNotItself(c, "a");
  }

  /** The literal workflow meets the start-once condition: all that is wrong is what its guard reads. */
  lemma RaceIsRacing(codec: Codec, run: (Id, Bytes) -> Outcome)
    requires forall j, b :: run(j, b).Output?
    ensures Racing(Race(codec, run), "y", "b") && !Behind(Race(codec, run), "y", "b")
  {
    hide ValidConfig, Comparing, Loose, Behind, AllReused, Spread, EvalWhen, Plain, Race;
    var c := Race(codec, run);
    RaceValid(codec, run);
    RaceWaits(codec, run);
    RaceGuards(codec, run);
    assert Plain(c) by {
      forall y, d ensures multiset(DepsAt(c, y))[d] <= 1 { RaceOnce(codec, run, y, d); }
      SpreadIsPlain(c);
    }
  }

  lemma RaceGuards(codec: Codec, run: (Id, Bytes) -> Outcome)
    ensures var c := Race(codec, run);
            && HasGuard(c, "y") && !HasGuard(c, "a") && !HasGuard(c, "b") && c.wf.jobs.Keys == {"a", "b", "y"}
            && c.wf.jobs["y"].whenExpr == Some(Comparing("b", "==", "SUCCESS")) && c.pre == map[] && c.run == run
  {
    hide Comparing;
  }

  lemma RaceOnce(codec: Codec, run: (Id, Bytes) -> Outcome, y: Id, d: Id)
    ensures multiset(DepsAt(Race(codec, run), y))[d] <= 1
  {
    hide Comparing;
    var c := Race(codec, run);
    assert DepsAt(c, y) == if y == "y" then ["a"] else [];
  }

  // -- Guards that are not asked ---------------------------------------------

  /** The start loops look at no guard: a job all of whose dependencies are reused runs from
      the start, even if its guard is false throughout. */
  lemma ReusedDependenciesBypassTheGuard(c: Config, j: Id)
    requires ValidConfig(c) && j in c.wf.jobs && j !in c.pre && AllReused(c, j)
    ensures StatusOf(Start(c), j).Running?
  {
    hide ValidConfig, Start, Sound, StoreMirrors;
    StartStatuses(c);
  }

  /** A retry that reuses a, of a workflow in which y waits for a and is guarded by a's failure. */
  function Retried(codec: Codec, run: (Id, Bytes) -> Outcome): Config {
    var jobs := map["a" := SmallJob([], None), "y" := SmallJob(["a"], Some(Comparing("a", "==", "FAILED")))];
    var order := ["a", "y"];
    Config(Workflow(order, jobs), map[],
           Dag(order, DepsOf(jobs), map["a" := ["y"], "y" := []]),
           map["a" := 0], ["a"], ["a"], codec, run)
  }

  lemma RetriedOrder(codec: Codec, run: (Id, Bytes) -> Outcome)
    ensures var c := Retried(codec, run); c.wf.WellFormed() && IsTopoOrder(c.dag.deps, c.dag.topoOrder)
  {
    var order := ["a", "y"];
    assert order[0] == "a" && order[1] == "y";
    assert Elems(order) == {"a", "y"};
    assert order[..1] == ["a"];
  }

  lemma RetriedDag(codec: Codec, run: (Id, Bytes) -> Outcome)
    requires var c := Retried(codec, run); IsTopoOrder(c.dag.deps, c.dag.topoOrder)
    ensures var c := Retried(codec, run); c.dag.Valid() && NoDup(c.rootOrder) && Elems(c.rootOrder) == RootSet(c.dag)
  {
    hide IsTopoOrder, Comparing, Occurrences;
    var c := Retried(codec, run);
    RetriedGraph(c.dag.deps, c.dag.dependents);
    assert c.rootOrder[0] == "a" && RootSet(c.dag) == {"a"};
  }

  lemma RetriedGraph(g: Deps, dependents: map<Id, seq<Id>>)
    requires g == map["a" := [], "y" := ["a"]] && dependents == map["a" := ["y"], "y" := []]
    ensures forall d, j :: d in g ==> multiset(dependents[d])[j] == Occurrences(g, j, d)
  {
  }

  /** The guard never holds, and y is launched all the same. */
  lemma RetryRunsWhatItsGuardForbids(codec: Codec, run: (Id, Bytes) -> Outcome)
    ensures var c := Retried(codec, run); var s := Start(c);
            && ValidConfig(c) && StatusOf(s, "y").Running?
            && HasGuard(c, "y") && !EvalWhen(c.wf.jobs["y"].whenExpr.value, s.statuses)
  {
    hide ValidConfig, Start, EvalWhen, Comparing, StatusOf;
    var c := Retried(codec, run);
    RetriedValid(codec, run);
    RetriedGuard(codec, run);
    GuardMeaning("a", "==", "FAILED", Start(c).statuses);
    hide Retried;
    ReusedDependenciesBypassTheGuard(c, "y");
    ReusedSucceeded(c);
    TextOfSuccess(Start(c).statuses, "a");
  }

  lemma TextOfSuccess(statuses: map<Id, Status>, j: Id)
    ensures j in statuses && statuses[j].Succeeded? ==> StatusText(statuses, j) != "FAILED"
  {
    assert "SUCCESS"[0] != "FAILED"[0];
  }

  lemma RetriedGuard(codec: Codec, run: (Id, Bytes) -> Outcome)
    ensures var c := Retried(codec, run);
            && "y" in c.wf.jobs && "y" !in c.pre && "a" in c.pre && AllReused(c, "y") && HasGuard(c, "y")
            && c.wf.jobs["y"].whenExpr == Some(Comparing("a", "==", "FAILED"))
  {
    hide Comparing;
  }

  lemma RetriedValid(codec: Codec, run: (Id, Bytes) -> Outcome)
    ensures ValidConfig(Retried(codec, run))
  {
    hide Comparing, IsTopoOrder, NoDup, Elems, Dag.Valid, RootSet;
    RetriedOrder(codec, run);
    RetriedDag(codec, run);
    OneReused();
  }

  lemma OneReused()
    ensures NoDup(["a"]) && Elems(["a"]) == {"a"}
  {
    var pre := ["a"];
    assert pre[0] == "a";
  }

  lemma ReusedSucceeded(c: Config)
    requires ValidConfig(c)
    ensures forall j :: j in c.pre ==> j in Start(c).statuses && Start(c).statuses[j] == Succeeded(c.pre[j])
  {
    hide ValidConfig, Start;
    StartSettled(c);
  }

  // -- A dependency listed twice ---------------------------------------------

  /** y waits for d, and says so twice. */
  function Twice(codec: Codec, run: (Id, Bytes) -> Outcome): Config {
    var jobs := map["d" := SmallJob([], None), "y" := SmallJob(["d", "d"], None)];
    var order := ["d", "y"];
    Config(Workflow(order, jobs), map[],
           Dag(order, DepsOf(jobs), map["d" := ["y", "y"], "y" := []]),
           map[], [], ["d"], codec, run)
  }

  lemma TwiceOrder(codec: Codec, run: (Id, Bytes) -> Outcome)
    ensures var c := Twice(codec, run); c.wf.WellFormed() && IsTopoOrder(c.dag.deps, c.dag.topoOrder)
  {
    var order := ["d", "y"];
    assert order[0] == "d" && order[1] == "y";
    assert Elems(order) == {"d", "y"};
    assert order[..1] == ["d"];
  }

  lemma TwiceGraph(g: Deps, dependents: map<Id, seq<Id>>)
    requires g == map["d" := [], "y" := ["d", "d"]] && dependents == map["d" := ["y", "y"], "y" := []]
    ensures forall d, j :: d in g ==> multiset(dependents[d])[j] == Occurrences(g, j, d)
  {
  }

  lemma TwiceValid(codec: Codec, run: (Id, Bytes) -> Outcome)
    ensures ValidConfig(Twice(codec, run))
  {
    hide IsTopoOrder, NoDup, Elems, Dag.Valid, RootSet;
    TwiceOrder(codec, run);
    TwiceDag(codec, run);
    NothingReused();
  }

  lemma TwiceDag(codec: Codec, run: (Id, Bytes) -> Outcome)
    requires var c := Twice(codec, run); IsTopoOrder(c.dag.deps, c.dag.topoOrder)
    ensures var c := Twice(codec, run); c.dag.Valid() && NoDup(c.rootOrder) && Elems(c.rootOrder) == RootSet(c.dag)
  {
    hide IsTopoOrder, Occurrences;
    var c := Twice(codec, run);
    TwiceGraph(c.dag.deps, c.dag.dependents);
    assert c.rootOrder[0] == "d" && RootSet(c.dag) == {"d"};
  }

  lemma TwiceShape(codec: Codec, run: (Id, Bytes) -> Outcome)
    ensures var c := Twice(codec, run);
            && c.wf.jobs.Keys == {"d", "y"} && c.pre == map[] && (forall j :: !HasGuard(c, j))
            && DepsAt(c, "y") == ["d", "d"] && DependentsOf(c, "d") == ["y", "y"] && c.run == run
  {
  }

  /** A valid workflow with a harmful pair; when no component fails, some run starts y twice. */
  lemma ListedTwiceStartsTwice(codec: Codec, run: (Id, Bytes) -> Outcome)
    requires forall j, b :: run(j, b).Output?
    ensures var c := Twice(codec, run); ValidConfig(c) && Harmful(c, "y", "d") && !StartsOnce(c)
  {
    hide Twice, ValidConfig, Harmful, WaitsFor, StartsOnce;
    var c := Twice(codec, run);
    TwiceValid(codec, run);
    TwiceShape(codec, run);
    WaitsNotItself(c, "d");
    UnguardedHarm(c, "y", "d");
    assert exists S: set<Id> :: Scenario(c, "y", "d", S) by { HarmHasScenario(c, "y", "d"); }
    var S: set<Id> :| Scenario(c, "y", "d", S);
    hide Scenario;
    assert Rigged(c, "y", "d", S);
    LastTwo("y");
    RiggedStartsTwice(c, "y", "d", S);
  }

  lemma HarmHasScenario(c: Config, y: Id, d: Id)
    requires Harmful(c, y, d)
    ensures exists S: set<Id> :: Scenario(c, y, d, S)
  {
    hide Scenario;
  }

  lemma LastTwo(y: Id)
    ensures Others([y, y], y) == [] && multiset([y, y])[y] == 2 && Copies(y, 2) == [y, y]
  {
    var two, one := [y, y], [y];
    assert two[..1] == one && one[..0] == [];
    assert Others(one, y) == [];
  }

  // -- The guarded shortcut --------------------------------------------------

  /** x waits for d; y waits for d and x; the guard of x never holds, that of y always does. */
  function Shortcut(codec: Codec, run: (Id, Bytes) -> Outcome): Config {
    var jobs := map["d" := SmallJob([], None), "x" := SmallJob(["d"], Some(NEVER)),
                    "y" := SmallJob(["d", "x"], Some(ALWAYS))];
    var order := ["d", "x", "y"];
    Config(Workflow(order, jobs), map[],
           Dag(order, DepsOf(jobs), map["d" := ["x", "y"], "x" := ["y"], "y" := []]),
           map[], [], ["d"], codec, run)
  }

  lemma ShortcutOrder(codec: Codec, run: (Id, Bytes) -> Outcome)
    ensures var c := Shortcut(codec, run); c.wf.WellFormed() && IsTopoOrder(c.dag.deps, c.dag.topoOrder)
  {
    var order := ["d", "x", "y"];
    assert order[0] == "d" && order[1] == "x" && order[2] == "y";
    assert Elems(order) == {"d", "x", "y"};
    assert order[..1] == ["d"] && order[..2] == ["d", "x"];
  }

  lemma ShortcutGraph(g: Deps, dependents: map<Id, seq<Id>>)
    requires g == map["d" := [], "x" := ["d"], "y" := ["d", "x"]]
    requires dependents == map["d" := ["x", "y"], "x" := ["y"], "y" := []]
    ensures forall d, j :: d in g ==> multiset(dependents[d])[j] == Occurrences(g, j, d)
  {
  }

  lemma ShortcutDag(codec: Codec, run: (Id, Bytes) -> Outcome)
    requires var c := Shortcut(codec, run); IsTopoOrder(c.dag.deps, c.dag.topoOrder)
    ensures var c := Shortcut(codec, run); c.dag.Valid() && NoDup(c.rootOrder) && Elems(c.rootOrder) == RootSet(c.dag)
  {
    hide IsTopoOrder, Occurrences;
    var c := Shortcut(codec, run);
    ShortcutGraph(c.dag.deps, c.dag.dependents);
    assert c.rootOrder[0] == "d" && RootSet(c.dag) == {"d"};
  }

  lemma ShortcutValid(codec: Codec, run: (Id, Bytes) -> Outcome)
    ensures ValidConfig(Shortcut(codec, run))
  {
    hide IsTopoOrder, NoDup, Elems, Dag.Valid, RootSet;
    ShortcutOrder(codec, run);
    ShortcutDag(codec, run);
    NothingReused();
  }

  lemma ShortcutShape(codec: Codec, run: (Id, Bytes) -> Outcome)
    ensures var c := Shortcut(codec, run);
            && c.wf.jobs.Keys == {"d", "x", "y"} && c.pre == map[] && c.run == run
            && DepsAt(c, "d") == [] && DepsAt(c, "x") == ["d"] && DepsAt(c, "y") == ["d", "x"]
            && DependentsOf(c, "d") == ["x", "y"] && !HasGuard(c, "d") && HasGuard(c, "x") && HasGuard(c, "y")
            && c.wf.jobs["x"].whenExpr == Some(NEVER) && c.wf.jobs["y"].whenExpr == Some(ALWAYS)
  {
  }

  /** d succeeds: x is skipped, its cascade starts y, and then y is listed itself. */
  lemma ShortcutStartsTwice(codec: Codec, run: (Id, Bytes) -> Outcome)
    requires forall j, b :: run(j, b).Output?
    ensures var c := Shortcut(codec, run); ValidConfig(c) && Harmful(c, "y", "d") && !StartsOnce(c)
  {
    hide Shortcut, ValidConfig, Harmful, WaitsFor, StartsOnce, Scenario;
    var c := Shortcut(codec, run);
    ShortcutValid(codec, run);
    ShortcutShape(codec, run);
    WaitsNotItself(c, "d");
    ShortcutIsHarmful(c, "d", "x", "y");
    assert WaitsFor(c, "y", "x") by { WaitsDirectly(c, "y", "x"); }
    WaitsNotItself(c, "y");
    assert Rigged(c, "y", "d", {"x"});
    LastAfterX();
    RiggedStartsTwice(c, "y", "d", {"x"});
  }

  lemma LastAfterX()
    ensures Others(["x", "y"], "y") == ["x"] && multiset(["x", "y"])["y"] == 1 && Copies("y", 1) == ["y"]
  {
    assert ["x", "y"][..1] == ["x"] && ["x"][..0] == [];
  }

  // -- A retry that reuses a child -------------------------------------------

  /** The expansion of a one-element foreach job p and a fan-in job f that reads from it. */
  function Fed(codec: Codec, run: (Id, Bytes) -> Outcome, pre: map<Id, nat>, preOrder: seq<Id>): Config {
    var jobs := map["p.0" := SmallJob([], None), "f" := SmallJob(["p.0"], None).(inputFrom := Some("p"))];
    var order := ["p.0", "f"];
    Config(Workflow(order, jobs), map["p" := ["p.0"]],
           Dag(order, DepsOf(jobs), map["p.0" := ["f"], "f" := []]),
           pre, preOrder, ["p.0"], codec, run)
  }

  lemma FedOrder(codec: Codec, run: (Id, Bytes) -> Outcome, pre: map<Id, nat>, preOrder: seq<Id>)
    ensures var c := Fed(codec, run, pre, preOrder); c.wf.WellFormed() && IsTopoOrder(c.dag.deps, c.dag.topoOrder)
  {
    var order := ["p.0", "f"];
    assert order[0] == "p.0" && order[1] == "f";
    assert Elems(order) == {"p.0", "f"};
    assert order[..1] == ["p.0"];
  }

  lemma FedGraph(g: Deps, dependents: map<Id, seq<Id>>)
    requires g == map["p.0" := [], "f" := ["p.0"]] && dependents == map["p.0" := ["f"], "f" := []]
    ensures forall d, j :: d in g ==> multiset(dependents[d])[j] == Occurrences(g, j, d)
  {
  }

  lemma FedDag(codec: Codec, run: (Id, Bytes) -> Outcome, pre: map<Id, nat>, preOrder: seq<Id>)
    requires var c := Fed(codec, run, pre, preOrder); IsTopoOrder(c.dag.deps, c.dag.topoOrder)
    ensures var c := Fed(codec, run, pre, preOrder);
            c.dag.Valid() && NoDup(c.rootOrder) && Elems(c.rootOrder) == RootSet(c.dag)
  {
    hide IsTopoOrder, Occurrences;
    var c := Fed(codec, run, pre, preOrder);
    FedGraph(c.dag.deps, c.dag.dependents);
    FedRoots(c.dag);
  }

  lemma FedRoots(dag: Dag)
    requires dag.deps == map["p.0" := [], "f" := ["p.0"]]
    ensures NoDup(["p.0"]) && Elems(["p.0"]) == RootSet(dag)
  {
    var roots := ["p.0"];
    assert roots[0] == "p.0";
    assert RootSet(dag) == {"p.0"} == Elems(roots);
  }

  lemma FedValid(codec: Codec, run: (Id, Bytes) -> Outcome, pre: map<Id, nat>, preOrder: seq<Id>)
    requires NoDup(preOrder) && Elems(preOrder) == pre.Keys
    ensures ValidConfig(Fed(codec, run, pre, preOrder))
  {
    hide IsTopoOrder, NoDup, Elems, Dag.Valid, RootSet;
    FedOrder(codec, run, pre, preOrder);
    FedDag(codec, run, pre, preOrder);
  }

  lemma FedShape(codec: Codec, run: (Id, Bytes) -> Outcome, pre: map<Id, nat>, preOrder: seq<Id>)
    ensures var c := Fed(codec, run, pre, preOrder);
            && c.wf.jobs.Keys == {"p.0", "f"} && c.pre == pre && c.run == run && c.codec == codec
            && DepsAt(c, "p.0") == [] && DepsAt(c, "f") == ["p.0"] && (forall j :: !HasGuard(c, j))
            && IsRoot(c, "p.0") && OwnInput(c, "p.0") == "" && ReadsArray(c, "f") && c.children == map["p" := ["p.0"]]
            && c.wf.jobs["f"].inputFrom == Some("p")
            && c.wf.jobs == Fed(codec, run, map[], []).wf.jobs
  {
  }

  lemma FedChild(b: Config)
    requires ValidConfig(b) && b.pre == map[] && "p.0" in b.wf.jobs && IsRoot(b, "p.0") && OwnInput(b, "p.0") == ""
    requires b.run("p.0", "").Output?
    ensures "p.0" in Evaluate(b) && Evaluate(b)["p.0"] == Good(b.run("p.0", "").bytes)
  {
    hide ValidConfig, Evaluate;
    FixpointAt(b, "p.0");
  }

  lemma FedFanIn(b: Config)
    requires ValidConfig(b) && b.pre == map[] && "f" in b.wf.jobs && DepsAt(b, "f") == ["p.0"] && !HasGuard(b, "f")
    requires "p.0" in Evaluate(b) && Evaluate(b)["p.0"].Good?
    ensures "f" in Evaluate(b) && (Evaluate(b)["f"].Good? || Evaluate(b)["f"].Bad?)
  {
    hide ValidConfig, Evaluate, EvalInput;
    FixpointAt(b, "f");
  }

  /** The child has written something; the retry reuses it, and f, run again, does not get it. */
  lemma RetryForgetsAChild(codec: Codec, run: (Id, Bytes) -> Outcome)
    requires RoundTrips(codec) && run("p.0", "").Output? && ParseOrNull(codec, run("p.0", "").bytes) != Null
    ensures var b, c := Fed(codec, run, map[], []), Fed(codec, run, map["p.0" := 0], ["p.0"]);
            Replaying(b, c) && !InputKept(b, c, "f") && !NothingMissed(b, c)
  {
    hide Fed, ValidConfig, Evaluate, RoundTrips, ParseOrNull, ReadsArray, InputKept, OwnInput, IsRoot, HasGuard,
      NoDup, Elems,
      WaitsFor;
    var b, c := Fed(codec, run, map[], []), Fed(codec, run, map["p.0" := 0], ["p.0"]);
    NothingReused();
    FedReused();
    FedValid(codec, run, map[], []);
    FedValid(codec, run, map["p.0" := 0], ["p.0"]);
    FedShape(codec, run, map[], []);
    FedShape(codec, run, map["p.0" := 0], ["p.0"]);
    FedChild(b);
    FedFanIn(b);
    ArrayKeptExactly(b, c, "f");
    assert "p.0" in GoodOutputs(Evaluate(b)) && "p.0" in b.children["p"];
  }

  lemma FedReused()
    ensures NoDup(["p.0"]) && Elems(["p.0"]) == map["p.0" := 0].Keys
  {
    var pre := ["p.0"];
    assert pre[0] == "p.0";
  }
}
