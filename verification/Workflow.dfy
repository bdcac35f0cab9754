/** Workflow definitions, their validation, and the depth-first cycle check it uses. */
module Workflows {
  import opened Collections
  import opened Graph

  type Bytes = string

  datatype ReduceMode = Concat | JsonArray | JsonMerge | Custom(component: string)

  datatype ExecutorKind = Local | Remote

  datatype JobDef = JobDef(
    component: string,
    dependsOn: seq<Id>,
    input: Option<string>,
    worker: Option<string>,
    whenExpr: Option<string>,
    foreachPath: Option<string>,
    inputFrom: Option<Id>,
    failFast: bool,
    reduce: Option<ReduceMode>,
    executor: ExecutorKind)

  /** `jobs` is an insertion-ordered map: `order` lists its keys. */
  datatype Workflow = Workflow(order: seq<Id>, jobs: map<Id, JobDef>)
  {
    ghost predicate WellFormed() {
      NoDup(order) && Elems(order) == jobs.Keys
    }
  }

  function DepsOf(jobs: map<Id, JobDef>): Deps {
    map j | j in jobs :: jobs[j].dependsOn
  }

  // -- Cycle detection -------------------------------------------------------

  ghost function Nodes(g: Deps): set<Id> {
    g.Keys + set a, b | a in g && b in g[a] :: b
  }

  /** Finished nodes: their edges stay among them and none lies on a cycle. */
  ghost predicate Finished(g: Deps, black: set<Id>) {
    && (forall x, y :: x in black && Edge(g, x, y) ==> y in black)
    && (forall x :: x in black ==> !Reaches(g, x, x))
  }

  lemma FinishNode(g: Deps, black: set<Id>, node: Id)
    requires Finished(g, black)
    requires forall y :: Edge(g, node, y) ==> y in black
    ensures Finished(g, black + {node})
  {
    if node !in black && Reaches(g, node, node) {
      var y := FirstStep(g, node, node);
      if y != node {
        var n: nat :| n > 0 && Walk(g, y, node, n);
        ClosedUnderWalk(g, black, y, node, n);
      }
    }
  }

  /** The recursive search.  `stack` is the path from the start node down to the
      caller, `visited` everything entered so far, shared by all start nodes. */
  method Dfs(node: Id, jobs: map<Id, JobDef>, visited: set<Id>, stack: set<Id>)
    returns (found: bool, visited': set<Id>, stack': set<Id>)
    requires node in Nodes(DepsOf(jobs)) && stack <= visited <= Nodes(DepsOf(jobs))
    requires forall s :: s in stack ==> Reaches(DepsOf(jobs), s, node)
    requires Finished(DepsOf(jobs), visited - stack)
    ensures found ==> !Acyclic(DepsOf(jobs))
    ensures !found ==> stack' == stack && visited <= visited' <= Nodes(DepsOf(jobs))
    ensures !found ==> node in visited' - stack'
    ensures !found ==> Finished(DepsOf(jobs), visited' - stack')
    decreases Nodes(DepsOf(jobs)) - visited
  {
    ghost var g := DepsOf(jobs);
    if node in stack { return true, visited, stack; }
    if node in visited { return false, visited, stack; }
    visited', stack' := visited + {node}, stack + {node};
    assert visited' - stack' == visited - stack;
    if node in jobs {
      var deps := jobs[node].dependsOn;
      for k := 0 to |deps|
        invariant stack' == stack + {node} && visited + {node} <= visited' <= Nodes(g)
        invariant forall i :: 0 <= i < k ==> deps[i] in visited' - stack'
        invariant Finished(g, visited' - stack')
      {
        assert Edge(g, node, deps[k]);
        EdgeReaches(g, node, deps[k]);
        forall s | s in stack' ensures Reaches(g, s, deps[k]) {
          if s != node { ReachesTransitive(g, s, node, deps[k]); }
        }
        found, visited', stack' := Dfs(deps[k], jobs, visited', stack');
        if found { return; }
      }
    }
    FinishNode(g, visited' - stack', node);
    stack' := stack' - {node};
    assert visited' - stack' == visited' - (stack + {node}) + {node};
    assert stack' == stack;
    found := false;
  }

  /** Exactly the cyclic workflows are reported. */
  method HasCycle(wf: Workflow) returns (found: bool)
    requires wf.WellFormed()
    ensures found <==> !Acyclic(DepsOf(wf.jobs))
  {
    ghost var g := DepsOf(wf.jobs);
    var visited, stack := {}, {};
    for k := 0 to |wf.order|
      invariant stack == {} && visited <= Nodes(g)
      invariant Finished(g, visited) && forall i :: 0 <= i < k ==> wf.order[i] in visited
    {
      assert wf.order[k] in Elems(wf.order) && visited - stack == visited;
      found, visited, stack := Dfs(wf.order[k], wf.jobs, visited, stack);
      if found { return; }
      assert visited - stack == visited;
    }
    assert forall a :: a in g ==> a in Elems(wf.order);
    forall a ensures !Reaches(g, a, a) {
      if a !in g && Reaches(g, a, a) { var _ := FirstStep(g, a, a); }
    }
    found := false;
  }

  // -- Validation ------------------------------------------------------------

  datatype ValidationError =
    | UnknownDependency(job: Id, dep: Id)
    | UnknownInputFrom(job: Id, src: Id)
    | InputFromNotForeach(job: Id, src: Id)
    | CyclicDependency
    | ReduceWithoutInputFrom(job: Id)

  /** What it means for `e` to be a defect of job `j`. */
  ghost predicate JobDefect(wf: Workflow, j: Id, e: ValidationError)
    requires j in wf.jobs
  {
    var def := wf.jobs[j];
    match e
    case UnknownDependency(job, dep) => job == j && dep in def.dependsOn && dep !in wf.jobs
    case UnknownInputFrom(job, src) => job == j && def.inputFrom == Some(src) && src !in wf.jobs
    case InputFromNotForeach(job, src) =>
      job == j && def.inputFrom == Some(src) && src in wf.jobs && wf.jobs[src].foreachPath.None?
    case CyclicDependency => false
    case ReduceWithoutInputFrom(job) => job == j && def.reduce.Some? && def.inputFrom.None?
  }

  ghost predicate Defect(wf: Workflow, e: ValidationError) {
    if e.CyclicDependency? then !Acyclic(DepsOf(wf.jobs))
    else e.job in wf.jobs && JobDefect(wf, e.job, e)
  }

  /** The report is empty exactly if every dependency is a job, there is no cycle, every
      `input_from` names a job with a foreach path, and only fed jobs have a reduce mode. */
  lemma NoDefectExactly(wf: Workflow)
    ensures (forall e :: !Defect(wf, e)) <==>
        && (forall j, d :: j in wf.jobs && d in wf.jobs[j].dependsOn ==> d in wf.jobs)
        && Acyclic(DepsOf(wf.jobs))
        && (forall j :: j in wf.jobs && wf.jobs[j].inputFrom.Some? ==>
              wf.jobs[j].inputFrom.value in wf.jobs && wf.jobs[wf.jobs[j].inputFrom.value].foreachPath.Some?)
        && (forall j :: j in wf.jobs && wf.jobs[j].reduce.Some? ==> wf.jobs[j].inputFrom.Some?)
  {
    hide Acyclic;
    if forall e :: !Defect(wf, e) {
      assert !Defect(wf, CyclicDependency);
      forall j | j in wf.jobs
        ensures forall d :: d in wf.jobs[j].dependsOn ==> d in wf.jobs
        ensures wf.jobs[j].reduce.Some? ==> wf.jobs[j].inputFrom.Some?
        ensures wf.jobs[j].inputFrom.Some? ==>
            wf.jobs[j].inputFrom.value in wf.jobs && wf.jobs[wf.jobs[j].inputFrom.value].foreachPath.Some?
      {
        forall d | d in wf.jobs[j].dependsOn ensures d in wf.jobs { assert !Defect(wf, UnknownDependency(j, d)); }
        assert !Defect(wf, ReduceWithoutInputFrom(j));
        if wf.jobs[j].inputFrom.Some? {
          assert !Defect(wf, UnknownInputFrom(j, wf.jobs[j].inputFrom.value));
          assert !Defect(wf, InputFromNotForeach(j, wf.jobs[j].inputFrom.value));
        }
      }
    }
  }

  method ValidateJob(wf: Workflow, j: Id) returns (errors: seq<ValidationError>)
    requires j in wf.jobs
    ensures forall e :: e in errors <==> JobDefect(wf, j, e)
  {
    errors := [];
    var def := wf.jobs[j];
    for k := 0 to |def.dependsOn|
      invariant forall e :: e in errors <==>
          e.UnknownDependency? && e.job == j && e.dep in def.dependsOn[..k] && e.dep !in wf.jobs
    {
      if def.dependsOn[k] !in wf.jobs {
        errors := errors + [UnknownDependency(j, def.dependsOn[k])];
      }
    }
    assert def.dependsOn[..|def.dependsOn|] == def.dependsOn;
    if def.inputFrom.Some? {
      var src := def.inputFrom.value;
      if src !in wf.jobs {
        errors := errors + [UnknownInputFrom(j, src)];
      } else if wf.jobs[src].foreachPath.None? {
        errors := errors + [InputFromNotForeach(j, src)];
      }
    }
    if def.reduce.Some? && def.inputFrom.None? {
      errors := errors + [ReduceWithoutInputFrom(j)];
    }
  }

  /** The report lists exactly the defects, whatever the order of the jobs. */
  method Validate(wf: Workflow) returns (errors: seq<ValidationError>)
    requires wf.WellFormed()
    ensures forall e :: e in errors <==> Defect(wf, e)
  {
    errors := [];
    for i := 0 to |wf.order|
      invariant forall e :: e in errors <==>
          !e.CyclicDependency? && e.job in wf.order[..i] && e.job in wf.jobs && JobDefect(wf, e.job, e)
    {
      assert wf.order[i] in Elems(wf.order);
      var here := ValidateJob(wf, wf.order[i]);
      assert wf.order[..i + 1] == wf.order[..i] + [wf.order[i]];
      errors := errors + here;
    }
    assert wf.order[..|wf.order|] == wf.order;
    assert forall j :: j in wf.jobs ==> j in Elems(wf.order);
    var cyclic := HasCycle(wf);
    if cyclic { errors := errors + [CyclicDependency]; }
  }
}
