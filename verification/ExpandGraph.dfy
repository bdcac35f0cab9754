/** Expansion as a transformation of dependency graphs. */
module ExpansionGraph {
  import opened Collections
  import opened Graph
  import opened Workflows
  import opened Expansion

  // -- Blowing up a graph ----------------------------------------------------

  ghost predicate IsCopy(copies: map<Id, seq<Id>>, a: Id, x: Id) {
    a in copies && x in copies[a]
  }

  /** g' replaces each node of g by its copies and each edge by all edges between copies. */
  ghost predicate BlowUp(g: Deps, copies: map<Id, seq<Id>>, g': Deps) {
    && copies.Keys == g.Keys
    && (forall a, b, x :: IsCopy(copies, a, x) && IsCopy(copies, b, x) ==> a == b)
    && (forall x :: x in g' <==> exists a :: IsCopy(copies, a, x))
    && (forall a, x, y :: IsCopy(copies, a, x) ==>
          (Edge(g', x, y) <==> exists b :: Edge(g, a, b) && IsCopy(copies, b, y)))
  }

  /** A walk on which every node after the first has at least one copy. */
  ghost predicate LiveWalk(g: Deps, copies: map<Id, seq<Id>>, a: Id, b: Id, n: nat)
    decreases n
  {
    if n == 0 then a == b
    else exists m :: Edge(g, a, m) && m in copies && copies[m] != [] && LiveWalk(g, copies, m, b, n - 1)
  }

  ghost predicate LiveReaches(g: Deps, copies: map<Id, seq<Id>>, a: Id, b: Id) {
    exists n: nat :: n > 0 && LiveWalk(g, copies, a, b, n)
  }

  lemma ProjectEdge(g: Deps, copies: map<Id, seq<Id>>, g': Deps, a: Id, x: Id, y: Id) returns (b: Id)
    requires BlowUp(g, copies, g') && IsCopy(copies, a, x) && Edge(g', x, y)
    ensures Edge(g, a, b) && IsCopy(copies, b, y)
  {
    b :| Edge(g, a, b) && IsCopy(copies, b, y);
  }

  lemma LiftEdge(g: Deps, copies: map<Id, seq<Id>>, g': Deps, a: Id, x: Id, b: Id, y: Id)
    requires BlowUp(g, copies, g') && IsCopy(copies, a, x) && Edge(g, a, b) && IsCopy(copies, b, y)
    ensures Edge(g', x, y)
  {
  }

  lemma UniqueOriginal(g: Deps, copies: map<Id, seq<Id>>, g': Deps, a: Id, b: Id, x: Id)
    requires BlowUp(g, copies, g') && IsCopy(copies, a, x) && IsCopy(copies, b, x)
    ensures a == b
  {
  }

  lemma {:induction false} ProjectWalk(g: Deps, copies: map<Id, seq<Id>>, g': Deps, a: Id, x: Id, b: Id, y: Id, n: nat)
    requires BlowUp(g, copies, g') && IsCopy(copies, a, x) && IsCopy(copies, b, y)
    requires Walk(g', x, y, n)
    ensures LiveWalk(g, copies, a, b, n)
    decreases n
  {
    hide BlowUp;
    if n > 0 {
      var z :| Edge(g', x, z) && Walk(g', z, y, n - 1);
      var m := ProjectEdge(g, copies, g', a, x, z);
      ProjectWalk(g, copies, g', m, z, b, y, n - 1);
    } else {
      UniqueOriginal(g, copies, g', a, b, x);
    }
  }

  lemma {:induction false} LiftWalk(g: Deps, copies: map<Id, seq<Id>>, g': Deps, a: Id, x: Id, b: Id, y: Id, n: nat)
    requires BlowUp(g, copies, g') && IsCopy(copies, a, x) && IsCopy(copies, b, y)
    requires n > 0 && LiveWalk(g, copies, a, b, n)
    ensures Walk(g', x, y, n)
    decreases n
  {
    hide BlowUp;
    var m :| Edge(g, a, m) && m in copies && copies[m] != [] && LiveWalk(g, copies, m, b, n - 1);
    if n == 1 {
      LiftEdge(g, copies, g', a, x, b, y);
      assert Walk(g', y, y, 0);
    } else {
      var z := copies[m][0];
      LiftEdge(g, copies, g', a, x, m, z);
      LiftWalk(g, copies, g', m, z, b, y, n - 1);
    }
  }

  /** One copy is upstream of another exactly if their originals are joined by a
      non-empty path through jobs that have copies. */
  lemma UpstreamExact(g: Deps, copies: map<Id, seq<Id>>, g': Deps, a: Id, x: Id, b: Id, y: Id)
    requires BlowUp(g, copies, g') && IsCopy(copies, a, x) && IsCopy(copies, b, y)
    ensures Reaches(g', x, y) <==> LiveReaches(g, copies, a, b)
  {
    hide BlowUp;
    if Reaches(g', x, y) {
      var n: nat :| n > 0 && Walk(g', x, y, n);
      ProjectWalk(g, copies, g', a, x, b, y, n);
    }
    if LiveReaches(g, copies, a, b) {
      var n: nat :| n > 0 && LiveWalk(g, copies, a, b, n);
      LiftWalk(g, copies, g', a, x, b, y, n);
    }
  }

  lemma {:induction false} LiveWalkIsWalk(g: Deps, copies: map<Id, seq<Id>>, a: Id, b: Id, n: nat)
    ensures LiveWalk(g, copies, a, b, n) ==> Walk(g, a, b, n)
    ensures (forall m :: m in g ==> m in copies && copies[m] != []) && Known(g) && Walk(g, a, b, n)
        ==> LiveWalk(g, copies, a, b, n)
    decreases n
  {
    if n > 0 {
      if LiveWalk(g, copies, a, b, n) {
        var m :| Edge(g, a, m) && m in copies && copies[m] != [] && LiveWalk(g, copies, m, b, n - 1);
        LiveWalkIsWalk(g, copies, m, b, n - 1);
      }
      if Walk(g, a, b, n) {
        var m :| Edge(g, a, m) && Walk(g, m, b, n - 1);
        LiveWalkIsWalk(g, copies, m, b, n - 1);
      }
    }
  }

  lemma LiveReachesIsReaches(g: Deps, copies: map<Id, seq<Id>>, a: Id, b: Id)
    ensures LiveReaches(g, copies, a, b) ==> Reaches(g, a, b)
    ensures (forall m :: m in g ==> m in copies && copies[m] != []) && Known(g) && Reaches(g, a, b)
        ==> LiveReaches(g, copies, a, b)
  {
    if LiveReaches(g, copies, a, b) {
      var n: nat :| n > 0 && LiveWalk(g, copies, a, b, n);
      LiveWalkIsWalk(g, copies, a, b, n);
    }
    if Reaches(g, a, b) {
      var n: nat :| n > 0 && Walk(g, a, b, n);
      LiveWalkIsWalk(g, copies, a, b, n);
    }
  }

  ghost predicate LiveCycle(g: Deps, copies: map<Id, seq<Id>>) {
    exists a :: a in g && a in copies && copies[a] != [] && LiveReaches(g, copies, a, a)
  }

  lemma OriginalOf(g: Deps, copies: map<Id, seq<Id>>, g': Deps, x: Id) returns (a: Id)
    requires BlowUp(g, copies, g') && x in g'
    ensures IsCopy(copies, a, x) && a in g
  {
    a :| IsCopy(copies, a, x);
  }

  lemma CopyInGraph(g: Deps, copies: map<Id, seq<Id>>, g': Deps, a: Id, x: Id)
    requires BlowUp(g, copies, g') && IsCopy(copies, a, x)
    ensures x in g'
  {
  }

  /** The blown-up graph never has unknown dependencies, and its cycles are the cycles
      of the original that run through jobs with copies only. */
  lemma BlowUpAcyclic(g: Deps, copies: map<Id, seq<Id>>, g': Deps)
    requires BlowUp(g, copies, g')
    ensures Known(g') && (Acyclic(g') <==> !LiveCycle(g, copies))
  {
    hide BlowUp;
    forall x, y | Edge(g', x, y) ensures y in g' {
      var a := OriginalOf(g, copies, g', x);
      var b := ProjectEdge(g, copies, g', a, x, y);
      CopyInGraph(g, copies, g', b, y);
    }
    if a :| a in g && a in copies && copies[a] != [] && LiveReaches(g, copies, a, a) {
      UpstreamExact(g, copies, g', a, copies[a][0], a, copies[a][0]);
    }
    if x :| Reaches(g', x, x) {
      var z := FirstStep(g', x, x);
      var a := OriginalOf(g, copies, g', x);
      UpstreamExact(g, copies, g', a, x, a, x);
    }
  }

  lemma AcyclicHasNoLiveCycle(g: Deps, copies: map<Id, seq<Id>>)
    requires Known(g)
    ensures Acyclic(g) ==> !LiveCycle(g, copies)
    ensures (forall m :: m in g ==> m in copies && copies[m] != []) ==> (Acyclic(g) <==> !LiveCycle(g, copies))
  {
    if a :| a in g && a in copies && copies[a] != [] && LiveReaches(g, copies, a, a) {
      LiveReachesIsReaches(g, copies, a, a);
    }
    if a :| Reaches(g, a, a) {
      var b := FirstStep(g, a, a);
      LiveReachesIsReaches(g, copies, a, a);
    }
  }

  // -- The graph a workflow means --------------------------------------------

  /** `input_from` is a dependency too — except on a static foreach job, whose
      children are created without it. */
  function EffectiveDeps(jobs: map<Id, JobDef>): Deps {
    map j | j in jobs ::
      jobs[j].dependsOn + if jobs[j].inputFrom.Some? && !IsStaticForeach(jobs[j]) then [jobs[j].inputFrom.value] else []
  }

  function CopiesOf(wf: Workflow, override: Option<string>, ex: Extractor): map<Id, seq<Id>> {
    map j | j in wf.jobs ::
      if !IsStaticForeach(wf.jobs[j]) then [j]
      else
        var items := ItemsOf(ex, override, wf.jobs[j]);
        if items.None? then [] else ChildIds(j, |items.value|)
  }

  ghost predicate Extractable(wf: Workflow, override: Option<string>, ex: Extractor) {
    forall j :: j in wf.jobs && IsStaticForeach(wf.jobs[j]) ==> ItemsOf(ex, override, wf.jobs[j]).Some?
  }

  /** No child takes the name of a job that stays under its own name. */
  ghost predicate NoClash(wf: Workflow, override: Option<string>, ex: Extractor) {
    forall j, x :: j in wf.jobs && IsStaticForeach(wf.jobs[j]) && x in CopiesOf(wf, override, ex)[j] ==>
      x !in wf.jobs || IsStaticForeach(wf.jobs[x])
  }

  ghost predicate StaticSources(wf: Workflow) {
    forall j :: j in wf.jobs && !IsStaticForeach(wf.jobs[j]) && wf.jobs[j].inputFrom.Some? ==>
      wf.jobs[j].inputFrom.value in wf.jobs && IsStaticForeach(wf.jobs[wf.jobs[j].inputFrom.value])
  }

  lemma CopiesDisjoint(wf: Workflow, override: Option<string>, ex: Extractor, a: Id, b: Id, x: Id)
    requires NoClash(wf, override, ex) && a in wf.jobs && b in wf.jobs
    requires x in CopiesOf(wf, override, ex)[a] && x in CopiesOf(wf, override, ex)[b]
    ensures a == b
  {
    if IsStaticForeach(wf.jobs[a]) && IsStaticForeach(wf.jobs[b]) {
      var ca, cb := CopiesOf(wf, override, ex)[a], CopiesOf(wf, override, ex)[b];
      var i :| 0 <= i < |ca| && ca[i] == x;
      var k :| 0 <= k < |cb| && cb[k] == x;
      ChildIdInjective(a, i, b, k);
    }
  }

  // -- The first pass, under no clash ----------------------------------------

  /** The definition a copy of `def` starts out with. */
  ghost predicate CopyDef(def: JobDef, copy: JobDef) {
    if IsStaticForeach(def) then exists item :: copy == ChildDef(def, item) else copy == def
  }

  lemma {:induction false} InsertChildrenFacts(f: Fan, job: Id, def: JobDef, items: seq<Bytes>)
    ensures var f' := InsertChildren(f, job, def, items);
            && f'.children == f.children
            && (forall x :: x in f'.jobs <==> x in f.jobs || x in ChildIds(job, |items|))
            && (forall x :: x in f.jobs && x !in ChildIds(job, |items|) ==> f'.jobs[x] == f.jobs[x])
            && (forall i :: 0 <= i < |items| ==> f'.jobs[ChildId(job, i)] == ChildDef(def, items[i]))
  {
    hide ChildDef, ChildId;
    if items != [] {
      var n := |items| - 1;
      InsertChildrenFacts(f, job, def, items[..n]);
      assert InsertChildren(f, job, def, items).jobs ==
        InsertChildren(f, job, def, items[..n]).jobs[ChildId(job, n) := ChildDef(def, items[n])];
      assert ChildIds(job, |items|) == ChildIds(job, n) + [ChildId(job, n)];
      forall i | 0 <= i < n ensures ChildId(job, i) != ChildId(job, n) {
        if ChildId(job, i) == ChildId(job, n) { ChildIdInjective(job, i, job, n); }
      }
    }
  }

  /** After the jobs `done`: exactly their copies, each with its proper definition. */
  ghost predicate FanExact(wf: Workflow, copies: map<Id, seq<Id>>, done: seq<Id>, f: Fan) {
    && (forall x :: x in f.jobs ==> exists j :: j in done && IsCopy(copies, j, x))
    && (forall j, x :: j in done && IsCopy(copies, j, x) ==>
              x in f.jobs && j in wf.jobs && CopyDef(wf.jobs[j], f.jobs[x]))
    && (forall j :: j in f.children <==> j in done && j in wf.jobs && IsStaticForeach(wf.jobs[j]))
    && (forall j :: j in f.children ==> j in copies && f.children[j] == copies[j])
  }

  lemma {:induction false} FanOutExact(wf: Workflow, override: Option<string>, ex: Extractor, k: nat)
    requires wf.WellFormed() && k <= |wf.order| && forall j :: j in wf.order ==> j in wf.jobs
    requires Extractable(wf, override, ex) && NoClash(wf, override, ex)
    ensures FanOut(wf, override, ex, k).Ok?
    ensures FanExact(wf, CopiesOf(wf, override, ex), wf.order[..k], FanOut(wf, override, ex, k).value)
  {
    hide FanExact, NoClash, Extractable, CopiesOf, FanStep;
    if k == 0 {
      NothingFanned(wf, CopiesOf(wf, override, ex));
    } else {
      FanOutExact(wf, override, ex, k - 1);
      assert wf.order[..k] == wf.order[..k - 1] + [wf.order[k - 1]];
      var f := FanOut(wf, override, ex, k - 1).value;
      FanStepExact(wf, override, ex, wf.order[..k - 1], wf.order[k - 1], f);
    }
  }

  lemma NothingFanned(wf: Workflow, copies: map<Id, seq<Id>>)
    ensures FanExact(wf, copies, [], Fan([], map[], map[]))
  {
  }

  lemma FanStepExact(wf: Workflow, override: Option<string>, ex: Extractor, done: seq<Id>, job: Id, f: Fan)
    requires Extractable(wf, override, ex) && NoClash(wf, override, ex) && job in wf.jobs && job !in done
    requires FanExact(wf, CopiesOf(wf, override, ex), done, f)
    ensures FanStep(f, ex, override, job, wf.jobs[job]).Ok?
    ensures FanExact(wf, CopiesOf(wf, override, ex), done + [job], FanStep(f, ex, override, job, wf.jobs[job]).value)
  {
    var copies, def := CopiesOf(wf, override, ex), wf.jobs[job];
    OneStep(wf, override, ex, job, f);
    hide Extractable, CopiesOf, FanStep, CopyDef, IsStaticForeach;
    forall j, x | j in copies && j != job && IsCopy(copies, j, x) ensures !IsCopy(copies, job, x) {
      if IsCopy(copies, job, x) { CopiesDisjoint(wf, override, ex, j, job, x); }
    }
    hide NoClash;
    ExtendFan(wf, copies, done, job, f, FanStep(f, ex, override, job, def).value);
  }

  /** What the first pass does with one job. */
  lemma OneStep(wf: Workflow, override: Option<string>, ex: Extractor, job: Id, f: Fan)
    requires Extractable(wf, override, ex) && job in wf.jobs
    ensures CopiesOf(wf, override, ex).Keys == wf.jobs.Keys
    ensures FanStep(f, ex, override, job, wf.jobs[job]).Ok?
    ensures var f', copies, def := FanStep(f, ex, override, job, wf.jobs[job]).value,
                               CopiesOf(wf, override, ex), wf.jobs[job];
            && f'.children == (if IsStaticForeach(def) then f.children[job := copies[job]] else f.children)
            && (forall x :: x in f'.jobs <==> x in f.jobs || IsCopy(copies, job, x))
            && (forall x :: IsCopy(copies, job, x) ==> CopyDef(def, f'.jobs[x]))
            && (forall x :: x in f.jobs && !IsCopy(copies, job, x) ==> f'.jobs[x] == f.jobs[x])
  {
    var f', copies, def := FanStep(f, ex, override, job, wf.jobs[job]).value, CopiesOf(wf, override, ex), wf.jobs[job];
    if IsStaticForeach(def) {
      var items := ItemsOf(ex, override, def).value;
      assert copies[job] == ChildIds(job, |items|);
      assert f' == InsertChildren(f, job, def, items).(children :=
        InsertChildren(f, job, def, items).children[job := ChildIds(job, |items|)]);
      hide CopiesOf, FanStep, InsertChildren;
      ChildrenInserted(f, job, def, items);
    }
  }

  lemma ChildrenInserted(f: Fan, job: Id, def: JobDef, items: seq<Bytes>)
    requires IsStaticForeach(def)
    ensures var f' := InsertChildren(f, job, def, items);
            && f'.children == f.children
            && (forall x :: x in f'.jobs <==> x in f.jobs || x in ChildIds(job, |items|))
            && (forall x :: x in ChildIds(job, |items|) ==> CopyDef(def, f'.jobs[x]))
            && (forall x :: x in f.jobs && x !in ChildIds(job, |items|) ==> f'.jobs[x] == f.jobs[x])
  {
    InsertChildrenFacts(f, job, def, items);
    hide ChildDef, ChildId, InsertChildren;
    var f', ids := InsertChildren(f, job, def, items), ChildIds(job, |items|);
    forall x | x in ids ensures CopyDef(def, f'.jobs[x]) {
      var i :| 0 <= i < |items| && ids[i] == x;
      assert f'.jobs[x] == ChildDef(def, items[i]);
    }
  }

  lemma ExtendFan(wf: Workflow, copies: map<Id, seq<Id>>, done: seq<Id>, job: Id, f: Fan, f': Fan)
    requires FanExact(wf, copies, done, f) && job in wf.jobs && job !in done && job in copies
    requires forall j, x :: j != job && IsCopy(copies, j, x) ==> !IsCopy(copies, job, x)
    requires f'.children == if IsStaticForeach(wf.jobs[job]) then f.children[job := copies[job]] else f.children
    requires forall x :: x in f'.jobs <==> x in f.jobs || IsCopy(copies, job, x)
    requires forall x :: IsCopy(copies, job, x) ==> CopyDef(wf.jobs[job], f'.jobs[x])
    requires forall x :: x in f.jobs && !IsCopy(copies, job, x) ==> f'.jobs[x] == f.jobs[x]
    ensures FanExact(wf, copies, done + [job], f')
  {
    hide CopyDef, IsStaticForeach;
    forall x | x in f'.jobs ensures exists j :: j in done + [job] && IsCopy(copies, j, x) {
      if IsCopy(copies, job, x) {
        assert job in done + [job];
      } else {
        var j :| j in done && IsCopy(copies, j, x);
        assert j in done + [job];
      }
    }
  }

  // -- The second pass, and the whole transformation -------------------------

  ghost predicate Expandable(wf: Workflow, override: Option<string>, ex: Extractor) {
    && wf.WellFormed() && Known(DepsOf(wf.jobs))
    && Extractable(wf, override, ex) && NoClash(wf, override, ex) && StaticSources(wf)
  }

  /** The first pass as a whole, over a validated workflow. */
  ghost predicate FannedOut(wf: Workflow, copies: map<Id, seq<Id>>, f: Fan) {
    && Known(DepsOf(wf.jobs)) && StaticSources(wf) && copies.Keys == wf.jobs.Keys
    && (forall j :: j in wf.order <==> j in wf.jobs)
    && (forall j :: j in copies && !IsStaticForeach(wf.jobs[j]) ==> copies[j] == [j])
    && (forall a, b, x :: IsCopy(copies, a, x) && IsCopy(copies, b, x) ==> a == b)
    && FanExact(wf, copies, wf.order, f)
  }

  lemma OriginalOfFanned(wf: Workflow, copies: map<Id, seq<Id>>, f: Fan, x: Id) returns (a: Id)
    requires FannedOut(wf, copies, f) && x in f.jobs
    ensures IsCopy(copies, a, x)
  {
    a :| a in wf.order && IsCopy(copies, a, x);
  }

  lemma CopyIsFanned(wf: Workflow, copies: map<Id, seq<Id>>, f: Fan, a: Id, x: Id)
    requires FannedOut(wf, copies, f) && IsCopy(copies, a, x)
    ensures a in wf.jobs && x in f.jobs && CopyDef(wf.jobs[a], f.jobs[x])
  {
    assert a in wf.order;
  }

  /** What the rewritten dependencies of a copy of a are. */
  lemma CopyDependsOn(wf: Workflow, copies: map<Id, seq<Id>>, f: Fan, a: Id, x: Id, y: Id)
    requires FannedOut(wf, copies, f) && IsCopy(copies, a, x)
    ensures x in f.jobs && GoodSource(f.children, f.jobs[x])
    ensures y in Rewrite(f.children, f.jobs[x]).dependsOn
       <==> exists b :: Edge(EffectiveDeps(wf.jobs), a, b) && IsCopy(copies, b, y)
  {
    CopyIsFanned(wf, copies, f, a, x);
    CopyOfDef(wf.jobs[a], f.jobs[x]);
    FannedSubstitutes(wf, copies, f, a);
    hide FannedOut, CopyDef, IsStaticForeach;
    RewrittenMembers(f.children, copies, f.jobs[x], EffectiveDeps(wf.jobs), a, y);
  }

  lemma CopyOfDef(def: JobDef, copy: JobDef)
    requires CopyDef(def, copy)
    ensures copy.dependsOn == def.dependsOn
    ensures copy.inputFrom == if IsStaticForeach(def) then None else def.inputFrom
  {
  }

  /** What a depends on, by either route, stands for its copies. */
  lemma FannedSubstitutes(wf: Workflow, copies: map<Id, seq<Id>>, f: Fan, a: Id)
    requires FannedOut(wf, copies, f) && a in wf.jobs
    ensures forall d :: d in wf.jobs[a].dependsOn ==> d in copies && Substitute(f.children, d) == copies[d]
    ensures wf.jobs[a].inputFrom.Some? && !IsStaticForeach(wf.jobs[a]) ==>
        var src := wf.jobs[a].inputFrom.value; src in f.children && src in copies && f.children[src] == copies[src]
  {
    forall d | d in wf.jobs[a].dependsOn ensures d in wf.jobs {
      assert Edge(DepsOf(wf.jobs), a, d);
    }
  }

  lemma RewrittenMembers(children: map<Id, seq<Id>>, copies: map<Id, seq<Id>>, copy: JobDef, g: Deps, a: Id, y: Id)
    requires forall d :: d in copy.dependsOn ==> d in copies && Substitute(children, d) == copies[d]
    requires copy.inputFrom.Some? ==>
        var src := copy.inputFrom.value; src in children && src in copies && children[src] == copies[src]
    requires forall b :: Edge(g, a, b) <==> b in copy.dependsOn || copy.inputFrom == Some(b)
    ensures GoodSource(children, copy)
    ensures y in Rewrite(children, copy).dependsOn <==> exists b :: Edge(g, a, b) && IsCopy(copies, b, y)
  {
    RewriteDepsMembers(children, copy.dependsOn, y);
    if copy.inputFrom.Some? {
      AddMissingFacts(RewriteDeps(children, copy.dependsOn), children[copy.inputFrom.value]);
    }
    hide RewriteDeps, AddMissing, Substitute, Edge;
    if y in Rewrite(children, copy).dependsOn {
      if d :| d in copy.dependsOn && y in Substitute(children, d) {
        assert IsCopy(copies, d, y);
      } else {
        assert IsCopy(copies, copy.inputFrom.value, y);
      }
    }
  }

  lemma FanOutFanned(wf: Workflow, override: Option<string>, ex: Extractor) returns (f: Fan)
    requires Expandable(wf, override, ex)
    ensures (forall j :: j in wf.order ==> j in wf.jobs) && FanOut(wf, override, ex, |wf.order|) == Ok(f)
    ensures FannedOut(wf, CopiesOf(wf, override, ex), f)
  {
    hide FanOut, FanExact, Extractable, NoClash, Known, StaticSources;
    OrderInJobs(wf);
    FanOutExact(wf, override, ex, |wf.order|);
    assert wf.order[..|wf.order|] == wf.order;
    f := FanOut(wf, override, ex, |wf.order|).value;
    var copies := CopiesOf(wf, override, ex);
    forall a, b, x | IsCopy(copies, a, x) && IsCopy(copies, b, x) ensures a == b {
      CopiesDisjoint(wf, override, ex, a, b, x);
    }
  }

  lemma SourcesGood(wf: Workflow, copies: map<Id, seq<Id>>, f: Fan)
    requires FannedOut(wf, copies, f)
    ensures forall x :: x in f.jobs ==> GoodSource(f.children, f.jobs[x])
  {
    hide FannedOut, GoodSource;
    forall x | x in f.jobs ensures GoodSource(f.children, f.jobs[x]) {
      var a := OriginalOfFanned(wf, copies, f, x);
      CopyDependsOn(wf, copies, f, a, x, x);
    }
  }

  lemma CopyEdge(wf: Workflow, copies: map<Id, seq<Id>>, f: Fan, e: Expanded, a: Id, x: Id, y: Id)
    requires FannedOut(wf, copies, f) && ExpandedFrom(f, e) && IsCopy(copies, a, x)
    ensures x in e.workflow.jobs
    ensures Edge(DepsOf(e.workflow.jobs), x, y)
       <==> exists b :: Edge(EffectiveDeps(wf.jobs), a, b) && IsCopy(copies, b, y)
  {
    hide FannedOut, EffectiveDeps, GoodSource, Rewrite;
    CopyDependsOn(wf, copies, f, a, x, y);
  }

  lemma KeysMatch(wf: Workflow, copies: map<Id, seq<Id>>, f: Fan)
    requires FannedOut(wf, copies, f)
    ensures copies.Keys == EffectiveDeps(wf.jobs).Keys
    ensures forall a, b, x :: IsCopy(copies, a, x) && IsCopy(copies, b, x) ==> a == b
  {
  }

  lemma ExpansionBlowsUp(wf: Workflow, override: Option<string>, ex: Extractor)
    requires Expandable(wf, override, ex)
    ensures Expand(wf, override, ex).Ok?
    ensures BlowUp(EffectiveDeps(wf.jobs), CopiesOf(wf, override, ex),
                   DepsOf(Expand(wf, override, ex).value.workflow.jobs))
  {
    var f := FanOutFanned(wf, override, ex);
    ExpandFacts(wf, override, ex);
    SourcesGood(wf, CopiesOf(wf, override, ex), f);
    hide Expand, FanOut, CopiesOf, Expandable, FannedOut, ExpandedFrom, GoodSource, EffectiveDeps, BlowUp;
    AssembleBlowUp(wf, CopiesOf(wf, override, ex), f, Expand(wf, override, ex).value);
  }

  lemma AssembleBlowUp(wf: Workflow, copies: map<Id, seq<Id>>, f: Fan, e: Expanded)
    requires FannedOut(wf, copies, f) && ExpandedFrom(f, e)
    ensures BlowUp(EffectiveDeps(wf.jobs), copies, DepsOf(e.workflow.jobs))
  {
    hide FannedOut, ExpandedFrom, EffectiveDeps;
    KeysMatch(wf, copies, f);
    ExpandedKeys(f, e);
    var g, g' := EffectiveDeps(wf.jobs), DepsOf(e.workflow.jobs);
    assert g'.Keys == e.workflow.jobs.Keys;
    hide DepsOf;
    forall x | x in g' ensures exists a :: IsCopy(copies, a, x) {
      var a := OriginalOfFanned(wf, copies, f, x);
    }
    forall a, x | IsCopy(copies, a, x) ensures x in g' { CopyEdge(wf, copies, f, e, a, x, x); }
    forall a, x, y | IsCopy(copies, a, x)
      ensures Edge(g', x, y) <==> exists b :: Edge(g, a, b) && IsCopy(copies, b, y)
    {
      CopyEdge(wf, copies, f, e, a, x, y);
    }
  }

  lemma ExpandedKeys(f: Fan, e: Expanded)
    requires ExpandedFrom(f, e)
    ensures e.workflow.jobs.Keys == f.jobs.Keys
  {
  }

  // -- The theorems ----------------------------------------------------------

  /** Expansion never breaks a schedulable workflow: if `depends_on` together with
      `input_from` is acyclic, the result has known dependencies and no cycle.  More
      precisely, it is schedulable exactly if no cycle runs through jobs that all
      have at least one copy. */
  lemma ExpansionSchedulable(wf: Workflow, override: Option<string>, ex: Extractor)
    requires Expandable(wf, override, ex)
    ensures Expand(wf, override, ex).Ok?
    ensures var g' := DepsOf(Expand(wf, override, ex).value.workflow.jobs);
            && Known(g')
            && (Acyclic(g') <==> !LiveCycle(EffectiveDeps(wf.jobs), CopiesOf(wf, override, ex)))
            && (Acyclic(EffectiveDeps(wf.jobs)) ==> Acyclic(g'))
  {
    ExpansionBlowsUp(wf, override, ex);
    EffectiveKnown(wf);
    hide Expand, CopiesOf, BlowUp, Expandable;
    BlowUpAcyclic(EffectiveDeps(wf.jobs), CopiesOf(wf, override, ex),
                  DepsOf(Expand(wf, override, ex).value.workflow.jobs));
    AcyclicHasNoLiveCycle(EffectiveDeps(wf.jobs), CopiesOf(wf, override, ex));
  }

  lemma EffectiveKnown(wf: Workflow)
    requires Known(DepsOf(wf.jobs)) && StaticSources(wf)
    ensures Known(EffectiveDeps(wf.jobs))
  {
    forall a, b | Edge(EffectiveDeps(wf.jobs), a, b) ensures b in wf.jobs {
      if b in wf.jobs[a].dependsOn { assert Edge(DepsOf(wf.jobs), a, b); }
    }
  }

  /** The schedule order survives exactly: a copy of a waits for a copy of b if and only
      if a was downstream of b through jobs with copies — simply "downstream", when
      every foreach array has an element. */
  lemma ExpansionOrdering(wf: Workflow, override: Option<string>, ex: Extractor, a: Id, x: Id, b: Id, y: Id)
    requires Expandable(wf, override, ex)
    requires IsCopy(CopiesOf(wf, override, ex), a, x) && IsCopy(CopiesOf(wf, override, ex), b, y)
    ensures Expand(wf, override, ex).Ok?
    ensures Reaches(DepsOf(Expand(wf, override, ex).value.workflow.jobs), x, y)
       <==> LiveReaches(EffectiveDeps(wf.jobs), CopiesOf(wf, override, ex), a, b)
    ensures (forall j :: j in wf.jobs ==> CopiesOf(wf, override, ex)[j] != []) ==>
        (Reaches(DepsOf(Expand(wf, override, ex).value.workflow.jobs), x, y)
         <==> Reaches(EffectiveDeps(wf.jobs), a, b))
  {
    ExpansionBlowsUp(wf, override, ex);
    EffectiveKnown(wf);
    assert CopiesOf(wf, override, ex).Keys == wf.jobs.Keys;
    hide Expand, CopiesOf, BlowUp, Expandable;
    UpstreamExact(EffectiveDeps(wf.jobs), CopiesOf(wf, override, ex),
                  DepsOf(Expand(wf, override, ex).value.workflow.jobs), a, x, b, y);
    LiveReachesIsReaches(EffectiveDeps(wf.jobs), CopiesOf(wf, override, ex), a, b);
  }

  /** Duplicate-free dependency lists stay duplicate-free. */
  lemma ExpansionKeepsDistinct(wf: Workflow, override: Option<string>, ex: Extractor, x: Id)
    requires Expandable(wf, override, ex)
    requires forall j :: j in wf.jobs ==> NoDup(wf.jobs[j].dependsOn)
    requires Expand(wf, override, ex).Ok? && x in Expand(wf, override, ex).value.workflow.jobs
    ensures NoDup(Expand(wf, override, ex).value.workflow.jobs[x].dependsOn)
  {
    var f := FanOutFanned(wf, override, ex);
    ExpandFacts(wf, override, ex);
    var copies := CopiesOf(wf, override, ex);
    hide Expand, FanOut, CopiesOf;
    ExpandedKeys(f, Expand(wf, override, ex).value);
    var a := OriginalOfFanned(wf, copies, f, x);
    CopyIsFanned(wf, copies, f, a, x);
    DistinctCopy(wf, copies, f, a, x);
  }

  lemma DistinctCopy(wf: Workflow, copies: map<Id, seq<Id>>, f: Fan, a: Id, x: Id)
    requires FannedOut(wf, copies, f) && a in wf.jobs && IsCopy(copies, a, x)
    requires x in f.jobs && GoodSource(f.children, f.jobs[x]) && CopyDef(wf.jobs[a], f.jobs[x])
    requires NoDup(wf.jobs[a].dependsOn)
    requires forall j :: j in wf.jobs && IsStaticForeach(wf.jobs[j]) ==> copies[j] == ChildIds(j, |copies[j]|)
    ensures NoDup(Rewrite(f.children, f.jobs[x]).dependsOn)
  {
    var ds := wf.jobs[a].dependsOn;
    assert f.jobs[x].dependsOn == ds;
    forall d | d in ds ensures d in wf.jobs && Substitute(f.children, d) == copies[d] && NoDup(copies[d]) {
      assert Edge(DepsOf(wf.jobs), a, d);
      if IsStaticForeach(wf.jobs[d]) { ChildIdsDistinct(d, |copies[d]|); }
    }
    RewriteDistinct(f.children, copies, f.jobs[x]);
  }

  lemma RewriteDistinct(children: map<Id, seq<Id>>, copies: map<Id, seq<Id>>, def: JobDef)
    requires GoodSource(children, def) && NoDup(def.dependsOn)
    requires forall d :: d in def.dependsOn ==> d in copies && Substitute(children, d) == copies[d] && NoDup(copies[d])
    requires forall d, e, y :: d in def.dependsOn && e in def.dependsOn ==>
        (IsCopy(copies, d, y) && IsCopy(copies, e, y) ==> d == e)
    ensures NoDup(Rewrite(children, def).dependsOn)
  {
    var ds := def.dependsOn;
    forall d, e, y | d in ds && e in ds && y in Substitute(children, d) && y in Substitute(children, e) ensures d == e {
      assert IsCopy(copies, d, y) && IsCopy(copies, e, y);
    }
    RewriteDepsDistinct(children, ds);
    if def.inputFrom.Some? {
      AddMissingFacts(RewriteDeps(children, def.dependsOn), children[def.inputFrom.value]);
    }
  }

  /** Once inserted, a child keeps its element. */
  lemma {:induction false} ChildInserted(wf: Workflow, override: Option<string>, ex: Extractor, k: nat, m: nat, i: nat)
    requires wf.WellFormed() && m < k <= |wf.order| && (forall j :: j in wf.order <==> j in wf.jobs)
    requires Extractable(wf, override, ex) && NoClash(wf, override, ex) && FanOut(wf, override, ex, k).Ok?
    requires IsStaticForeach(wf.jobs[wf.order[m]]) && i < |ItemsOf(ex, override, wf.jobs[wf.order[m]]).value|
    ensures var j := wf.order[m]; var x := ChildId(j, i);
            var f := FanOut(wf, override, ex, k).value;
            x in f.jobs && f.jobs[x] == ChildDef(wf.jobs[j], ItemsOf(ex, override, wf.jobs[j]).value[i])
  {
    hide ChildId, ChildDef, NoClash;
    var j, job := wf.order[m], wf.order[k - 1];
    var f, def, x := FanOut(wf, override, ex, k - 1).value, wf.jobs[wf.order[k - 1]], ChildId(wf.order[m], i);
    if m < k - 1 { ChildInserted(wf, override, ex, k - 1, m, i); }
    if IsStaticForeach(def) {
      var items := ItemsOf(ex, override, def).value;
      InsertChildrenFacts(f, job, def, items);
      if m < k - 1 && x in ChildIds(job, |items|) {
        var n :| 0 <= n < |items| && ChildIds(job, |items|)[n] == x;
        ChildIdInjective(j, i, job, n);
      }
    } else {
      ChildNamesFree(wf, override, ex, j, i);
    }
  }

  lemma ChildNamesFree(wf: Workflow, override: Option<string>, ex: Extractor, j: Id, i: nat)
    requires NoClash(wf, override, ex) && j in wf.jobs && IsStaticForeach(wf.jobs[j])
    requires ItemsOf(ex, override, wf.jobs[j]).Some? && i < |ItemsOf(ex, override, wf.jobs[j]).value|
    ensures ChildId(j, i) !in wf.jobs || IsStaticForeach(wf.jobs[ChildId(j, i)])
  {
    assert CopiesOf(wf, override, ex)[j][i] == ChildId(j, i);
  }

  /** A child of `parent` for one array element, whatever it depends on. */
  ghost predicate ChildOn(parent: JobDef, item: Bytes, child: JobDef) {
    && child.component == parent.component && child.executor == parent.executor && child.worker == parent.worker
    && child.input == Some(item) && !child.failFast
    && child.whenExpr.None? && child.foreachPath.None? && child.inputFrom.None? && child.reduce.None?
  }

  /** The same job but for what it depends on. */
  ghost predicate SameBut(original: JobDef, job: JobDef) {
    job == original.(dependsOn := job.dependsOn)
  }

  lemma RewrittenFields(children: map<Id, seq<Id>>, parent: JobDef, item: Bytes, def: JobDef)
    ensures GoodSource(children, ChildDef(parent, item)) ==>
        ChildOn(parent, item, Rewrite(children, ChildDef(parent, item)))
    ensures GoodSource(children, def) ==> SameBut(def, Rewrite(children, def))
  {
    hide RewriteDeps, AddMissing;
  }

  /** A static foreach job has a path and an input; its array is what the path selects in the
      overriding input, or else in its own. */
  lemma ArrayOfForeach(def: JobDef, override: Option<string>, ex: Extractor)
    ensures IsStaticForeach(def) <==> def.foreachPath.Some? && def.input.Some?
    ensures IsStaticForeach(def) && override.Some? ==>
        ItemsOf(ex, override, def) == ex(def.foreachPath.value, override.value)
    ensures IsStaticForeach(def) && override.None? ==>
        ItemsOf(ex, override, def) == ex(def.foreachPath.value, def.input.value)
  {
  }

  /** The i-th child of a foreach job is its parent, run on the i-th element of the array and
      on nothing else, and the parent's entry lists the children in this order. */
  lemma ChildrenGetTheirElements(wf: Workflow, override: Option<string>, ex: Extractor, j: Id, i: nat)
    requires Expandable(wf, override, ex) && j in wf.jobs && IsStaticForeach(wf.jobs[j])
    requires i < |ItemsOf(ex, override, wf.jobs[j]).value|
    ensures Expand(wf, override, ex).Ok?
    ensures var e := Expand(wf, override, ex).value; var items := ItemsOf(ex, override, wf.jobs[j]).value;
            && j in e.children && e.children[j] == ChildIds(j, |items|)
            && ChildId(j, i) in e.workflow.jobs
            && ChildOn(wf.jobs[j], items[i], e.workflow.jobs[ChildId(j, i)])
  {
    OrderInJobs(wf);
    var m := Position(wf.order, j);
    var f := FanOutFanned(wf, override, ex);
    RewrittenFields(f.children, wf.jobs[j], ItemsOf(ex, override, wf.jobs[j]).value[i], wf.jobs[j]);
    ChildInserted(wf, override, ex, |wf.order|, m, i);
    ExpansionBlowsUp(wf, override, ex);
    ExpandFacts(wf, override, ex);
    assert j in f.children && f.children[j] == CopiesOf(wf, override, ex)[j];
    hide Expand, FanOut, ChildId, ChildDef, Rewrite, FannedOut, BlowUp, Expandable, ChildOn;
  }

  /** Every job that is not a static foreach job stays, the same in all but its dependencies. */
  lemma OthersStay(wf: Workflow, override: Option<string>, ex: Extractor, j: Id)
    requires Expandable(wf, override, ex) && j in wf.jobs && !IsStaticForeach(wf.jobs[j])
    ensures Expand(wf, override, ex).Ok?
    ensures var jobs := Expand(wf, override, ex).value.workflow.jobs; j in jobs && SameBut(wf.jobs[j], jobs[j])
  {
    var f := FanOutFanned(wf, override, ex);
    var copies := CopiesOf(wf, override, ex);
    assert IsCopy(copies, j, j);
    CopyIsFanned(wf, copies, f, j, j);
    RewrittenFields(f.children, wf.jobs[j], "", wf.jobs[j]);
    ExpansionBlowsUp(wf, override, ex);
    ExpandFacts(wf, override, ex);
    hide Expand, FanOut, Rewrite, CopiesOf, FannedOut, BlowUp, Expandable, SameBut;
  }

  /** Children carry no guard, and nobody else gains one. */
  lemma ExpansionKeepsUnguarded(wf: Workflow, override: Option<string>, ex: Extractor, x: Id)
    requires Expandable(wf, override, ex)
    requires forall j :: j in wf.jobs ==> wf.jobs[j].whenExpr.None?
    requires Expand(wf, override, ex).Ok? && x in Expand(wf, override, ex).value.workflow.jobs
    ensures Expand(wf, override, ex).value.workflow.jobs[x].whenExpr.None?
  {
    var f := FanOutFanned(wf, override, ex);
    ExpandFacts(wf, override, ex);
    var copies := CopiesOf(wf, override, ex);
    hide Expand, FanOut, CopiesOf, FannedOut, Expandable;
    var a := OriginalOfFanned(wf, copies, f, x);
    CopyIsFanned(wf, copies, f, a, x);
  }

  /** Two static foreach jobs, the second fed from the first. */
  function FedForeach(): Workflow {
    var p := JobDef("p.wasm", [], Some("[1]"), None, None, Some("$"), None, false, None, Local);
    var q := p.(inputFrom := Some("p"));
    Workflow(["p", "q"], map["p" := p, "q" := q])
  }

  lemma FedForeachExpandable(ex: Extractor)
    requires ex("$", "[1]") == Some(["1"])
    ensures Expandable(FedForeach(), None, ex)
  {
    FedForeachWellFormed();
    FedForeachClashFree(ex);
    hide Known, NoClash, StaticSources, CopiesOf, DepsOf;
    var wf := FedForeach();
    assert forall j :: j in wf.jobs ==> ItemsOf(ex, None, wf.jobs[j]) == Some(["1"]);
  }

  lemma FirstChildLength(job: Id)
    ensures |ChildId(job, 0)| == |job| + 2
  {
  }

  lemma FedForeachClashFree(ex: Extractor)
    requires ex("$", "[1]") == Some(["1"])
    ensures NoClash(FedForeach(), None, ex)
  {
    hide ChildId;
    var wf := FedForeach();
    var copies := CopiesOf(wf, None, ex);
    assert wf.jobs.Keys == {"p", "q"};
    forall j, x | j in wf.jobs && x in copies[j] ensures x !in wf.jobs {
      assert copies[j] == ChildIds(j, 1);
      FirstChildLength(j);
    }
  }

  lemma FedForeachWellFormed()
    ensures FedForeach().WellFormed() && Known(DepsOf(FedForeach().jobs)) && StaticSources(FedForeach())
  {
    var wf := FedForeach();
    assert wf.order[0] == "p" && wf.order[1] == "q";
    assert Elems(wf.order) == {"p", "q"};
  }

  /** Why `EffectiveDeps` leaves out the `input_from` of a static foreach job: the
      workflow above is accepted, but no child of q waits for any child of p. */
  lemma StaticForeachDropsItsInputFrom(ex: Extractor, x: Id, y: Id)
    requires ex("$", "[1]") == Some(["1"])
    requires x == ChildId("q", 0) && y == ChildId("p", 0)
    ensures FedForeach().WellFormed() && Expand(FedForeach(), None, ex).Ok?
    ensures var jobs := Expand(FedForeach(), None, ex).value.workflow.jobs;
            x in jobs && y in jobs && !Reaches(DepsOf(jobs), x, y)
  {
    var wf := FedForeach();
    FedForeachExpandable(ex);
    var copies := CopiesOf(wf, None, ex);
    assert copies["p"] == ChildIds("p", 1) && copies["q"] == ChildIds("q", 1);
    assert copies["p"][0] == y && copies["q"][0] == x;
    hide Expandable, Expand, CopiesOf, BlowUp, ChildId;
    ExpansionBlowsUp(wf, None, ex);
    ExpansionOrdering(wf, None, ex, "q", x, "p", y);
    CopyInGraph(EffectiveDeps(wf.jobs), copies, DepsOf(Expand(wf, None, ex).value.workflow.jobs), "q", x);
    CopyInGraph(EffectiveDeps(wf.jobs), copies, DepsOf(Expand(wf, None, ex).value.workflow.jobs), "p", y);
    LiveReachesIsReaches(EffectiveDeps(wf.jobs), copies, "q", "p");
    assert forall b :: !Edge(EffectiveDeps(wf.jobs), "q", b);
    if Reaches(EffectiveDeps(wf.jobs), "q", "p") {
      var b := FirstStep(EffectiveDeps(wf.jobs), "q", "p");
    }
  }

  // -- Clashing names --------------------------------------------------------

  function PlainJob(): JobDef {
    JobDef("other.wasm", [], None, None, None, None, None, false, None, Local)
  }

  /** A foreach job p with one element, and a job that already has the child's name. */
  function Clash(): Workflow {
    var p := JobDef("p.wasm", [], Some("[1]"), None, None, Some("$"), None, false, None, Local);
    Workflow(["p", "p.0"], map["p" := p, "p.0" := PlainJob()])
  }

  lemma ClashFansOut(ex: Extractor)
    requires ex("$", "[1]") == Some(["1"])
    ensures Clash().WellFormed() && (forall j :: j in Clash().order ==> j in Clash().jobs)
    ensures var r := FanOut(Clash(), None, ex, 2);
            r.Ok? && r.value.jobs == map["p.0" := PlainJob()] && r.value.children == map["p" := ["p.0"]]
  {
    var wf := Clash();
    assert wf.order[0] == "p" && wf.order[1] == "p.0";
    assert Elems(wf.order) == {"p", "p.0"};
    assert ChildId("p", 0) == "p.0";
    assert ChildIds("p", 1) == ["p.0"];
    FanOutBegins(wf, None, ex);
    FanOutNext(wf, None, ex, 0);
    FanOutNext(wf, None, ex, 1);
    var f := FanOut(wf, None, ex, 1).value;
    InsertChildrenFacts(Fan([], map[], map[]), "p", wf.jobs["p"], ["1"]);
    assert f.jobs.Keys == {"p.0"};
  }

  /** The smallest clash: this workflow is accepted, and the element of p is run by nobody,
      since the later definition replaces the child's. */
  lemma ClashLosesAChild(ex: Extractor)
    requires ex("$", "[1]") == Some(["1"])
    ensures Clash().WellFormed() && Expand(Clash(), None, ex).Ok?
    ensures Expand(Clash(), None, ex).value.workflow.jobs == map["p.0" := PlainJob()]
    ensures Expand(Clash(), None, ex).value.children == map["p" := ["p.0"]]
  {
    ClashFansOut(ex);
    hide FanOut, Clash, Expand, PlainJob;
    ClashShape();
    ExpandFacts(Clash(), None, ex);
    var f := FanOut(Clash(), None, ex, 2).value;
    PlainStays(f.children);
    assert f.jobs["p.0"] == PlainJob();
  }

  lemma ClashShape()
    ensures |Clash().order| == 2
  {
  }

  lemma PlainStays(children: map<Id, seq<Id>>)
    ensures GoodSource(children, PlainJob()) && Rewrite(children, PlainJob()) == PlainJob()
  {
  }

  /** A foreach job with a child that is named like another foreach job: no clash, since
      the other one is itself replaced by its children. */
  function NestedNames(): Workflow {
    var p := JobDef("p.wasm", [], Some("[1]"), None, None, Some("$"), None, false, None, Local);
    Workflow(["p", "p.0"], map["p" := p, "p.0" := p.(component := "q.wasm")])
  }

  lemma NestedNamesExpand(ex: Extractor)
    requires ex("$", "[1]") == Some(["1"])
    ensures Expandable(NestedNames(), None, ex)
    ensures ChildId("p", 0) in NestedNames().jobs
  {
    var wf := NestedNames();
    assert wf.order[0] == "p" && wf.order[1] == "p.0";
    assert Elems(wf.order) == {"p", "p.0"};
    assert ChildId("p", 0) == "p.0";
    assert forall j :: j in wf.jobs ==> IsStaticForeach(wf.jobs[j]) && ItemsOf(ex, None, wf.jobs[j]) == Some(["1"]);
    hide ChildId, DepsOf;
    assert Known(DepsOf(wf.jobs)) by { NoDepsKnown(wf.jobs); }
  }

  lemma NoDepsKnown(jobs: map<Id, JobDef>)
    requires forall j :: j in jobs ==> jobs[j].dependsOn == []
    ensures Known(DepsOf(jobs))
  {
  }

  /** Expansion gives every child and every other job a place of its own in the graph exactly
      if no child takes the name of a job that is no static foreach job itself. */
  lemma ExpandsFaithfullyExactly(wf: Workflow, override: Option<string>, ex: Extractor)
    requires wf.WellFormed() && Known(DepsOf(wf.jobs)) && Extractable(wf, override, ex) && StaticSources(wf)
    ensures NoClash(wf, override, ex) <==>
        && Expand(wf, override, ex).Ok?
        && BlowUp(EffectiveDeps(wf.jobs), CopiesOf(wf, override, ex),
                  DepsOf(Expand(wf, override, ex).value.workflow.jobs))
  {
    hide Expand, Known, Extractable, StaticSources, DepsOf, EffectiveDeps;
    if NoClash(wf, override, ex) {
      hide NoClash, BlowUp, CopiesOf;
      ExpansionBlowsUp(wf, override, ex);
    } else {
      hide ChildId, ChildIds, ItemsOf;
      var copies := CopiesOf(wf, override, ex);
      var j, x :| j in wf.jobs && IsStaticForeach(wf.jobs[j]) && x in copies[j]
                && x in wf.jobs && !IsStaticForeach(wf.jobs[x]);
      assert IsCopy(copies, j, x) && IsCopy(copies, x, x);
    }
  }

  /** When names clash one definition survives: the later one in the file. */
  lemma {:induction false} LaterDefinitionWins(wf: Workflow, override: Option<string>, ex: Extractor,
                                        k: nat, m: nat, i: nat, n: nat)
    requires wf.WellFormed() && m < k <= |wf.order| && n < k && (forall j :: j in wf.order <==> j in wf.jobs)
    requires FanOut(wf, override, ex, k).Ok? && IsStaticForeach(wf.jobs[wf.order[m]])
    requires var items := ItemsOf(ex, override, wf.jobs[wf.order[m]]); items.Some? && i < |items.value|
    requires wf.order[n] == ChildId(wf.order[m], i) && !IsStaticForeach(wf.jobs[wf.order[n]])
    ensures var f, x := FanOut(wf, override, ex, k).value, wf.order[n];
            x in f.jobs && f.jobs[x] == if m < n then wf.jobs[x]
                                        else ChildDef(wf.jobs[wf.order[m]],
                                                               ItemsOf(ex, override, wf.jobs[wf.order[m]]).value[i])
  {
    hide ChildId, ChildDef;
    var x, job := wf.order[n], wf.order[k - 1];
    var f, def := FanOut(wf, override, ex, k - 1).value, wf.jobs[job];
    if m < k - 1 && n < k - 1 { LaterDefinitionWins(wf, override, ex, k - 1, m, i, n); }
    if IsStaticForeach(def) {
      var items := ItemsOf(ex, override, def).value;
      InsertChildrenFacts(f, job, def, items);
      if m < k - 1 && x in ChildIds(job, |items|) {
        var l :| 0 <= l < |items| && ChildIds(job, |items|)[l] == x;
        ChildIdInjective(wf.order[m], i, job, l);
      }
    }
  }

  /** So of two clashing jobs the later one runs, with its component and its input. */
  lemma ClashKeepsTheLater(wf: Workflow, override: Option<string>, ex: Extractor, m: nat, i: nat, n: nat)
    requires wf.WellFormed() && m < |wf.order| && n < |wf.order| && (forall j :: j in wf.order <==> j in wf.jobs)
    requires Expand(wf, override, ex).Ok? && IsStaticForeach(wf.jobs[wf.order[m]])
    requires var items := ItemsOf(ex, override, wf.jobs[wf.order[m]]); items.Some? && i < |items.value|
    requires wf.order[n] == ChildId(wf.order[m], i) && !IsStaticForeach(wf.jobs[wf.order[n]])
    ensures var jobs, x, parent := Expand(wf, override, ex).value.workflow.jobs, wf.order[n], wf.jobs[wf.order[m]];
            && x in jobs
            && jobs[x].component == (if m < n then wf.jobs[x] else parent).component
            && jobs[x].input == if m < n then wf.jobs[x].input else Some(ItemsOf(ex, override, parent).value[i])
  {
    ExpandFacts(wf, override, ex);
    LaterDefinitionWins(wf, override, ex, |wf.order|, m, i, n);
    hide Expand, FanOut, ChildId, GoodSource, IsStaticForeach;
  }

  // -- When expansion succeeds, and when it changes nothing ------------------

  lemma {:induction false} FanOutNeedsItems(wf: Workflow, override: Option<string>, ex: Extractor, k: nat, i: nat)
    requires i < k <= |wf.order| && forall j :: j in wf.order ==> j in wf.jobs
    requires FanOut(wf, override, ex, k).Ok? && IsStaticForeach(wf.jobs[wf.order[i]])
    ensures ItemsOf(ex, override, wf.jobs[wf.order[i]]).Some?
  {
    if i < k - 1 { FanOutNeedsItems(wf, override, ex, k - 1, i); }
  }

  /** Exactly which (clash-free, validated) workflows can be expanded. */
  lemma ExpandSucceedsExactly(wf: Workflow, override: Option<string>, ex: Extractor)
    requires wf.WellFormed() && Known(DepsOf(wf.jobs)) && NoClash(wf, override, ex)
    ensures Expand(wf, override, ex).Ok? <==> Extractable(wf, override, ex) && StaticSources(wf)
  {
    OrderInJobs(wf);
    if Expand(wf, override, ex).Ok? {
      forall j | j in wf.jobs && IsStaticForeach(wf.jobs[j]) ensures ItemsOf(ex, override, wf.jobs[j]).Some? {
        var i := Position(wf.order, j);
        FanOutNeedsItems(wf, override, ex, |wf.order|, i);
      }
      SourcesAreStatic(wf, override, ex);
    } else if Extractable(wf, override, ex) && StaticSources(wf) {
      ExpansionBlowsUp(wf, override, ex);
    }
  }

  lemma SourcesAreStatic(wf: Workflow, override: Option<string>, ex: Extractor)
    requires wf.WellFormed() && NoClash(wf, override, ex) && Extractable(wf, override, ex)
    requires Expand(wf, override, ex).Ok?
    ensures StaticSources(wf)
  {
    OrderInJobs(wf);
    FanOutExact(wf, override, ex, |wf.order|);
    assert wf.order[..|wf.order|] == wf.order;
    ExpandFacts(wf, override, ex);
    var f, copies := FanOut(wf, override, ex, |wf.order|).value, CopiesOf(wf, override, ex);
    forall j | j in wf.jobs && !IsStaticForeach(wf.jobs[j]) ensures GoodSource(f.children, wf.jobs[j]) {
      assert IsCopy(copies, j, j);
      assert f.jobs[j] == wf.jobs[j];
    }
  }

  lemma {:induction false} RewriteNothing(ds: seq<Id>)
    ensures RewriteDeps(map[], ds) == ds
  {
    if ds != [] {
      RewriteNothing(ds[..|ds| - 1]);
      assert ds == ds[..|ds| - 1] + [ds[|ds| - 1]];
    }
  }

  /** Without static foreach jobs expansion is the identity, so a retry, which plans
      on the unexpanded graph, plans on the graph that is run. */
  lemma NoForeachNoChange(wf: Workflow, override: Option<string>, ex: Extractor)
    requires wf.WellFormed() && Known(DepsOf(wf.jobs))
    requires forall j :: j in wf.jobs ==> !IsStaticForeach(wf.jobs[j]) && wf.jobs[j].inputFrom.None?
    ensures Expand(wf, override, ex).Ok?
    ensures Expand(wf, override, ex).value.workflow.jobs == wf.jobs
    ensures Expand(wf, override, ex).value.children == map[]
  {
    hide Expand, FanOut, Rewrite, GoodSource, IsStaticForeach, ExpandedFrom;
    OrderInJobs(wf);
    FanIsIdentity(wf, override, ex, |wf.order|);
    var f := FanOut(wf, override, ex, |wf.order|).value;
    SameJobs(wf, f);
    ExpandFacts(wf, override, ex);
    ExpandedIdentity(f, Expand(wf, override, ex));
  }

  lemma SameJobs(wf: Workflow, f: Fan)
    requires forall j :: j in wf.order <==> j in wf.jobs
    requires forall x :: x in f.jobs <==> x in wf.order[..|wf.order|]
    requires forall x :: x in f.jobs ==> x in wf.jobs && f.jobs[x] == wf.jobs[x]
    ensures f.jobs == wf.jobs
  {
    assert wf.order[..|wf.order|] == wf.order;
  }

  lemma ExpandedIdentity(f: Fan, e: Result<Expanded, ExpandError>)
    requires f.children == map[] && forall j :: j in f.jobs ==> f.jobs[j].inputFrom.None?
    requires e.Ok? <==> forall j :: j in f.jobs ==> GoodSource(f.children, f.jobs[j])
    requires e.Ok? ==> ExpandedFrom(f, e.value)
    ensures e.Ok? && e.value.workflow.jobs == f.jobs && e.value.children == map[]
  {
    forall j | j in f.jobs ensures GoodSource(map[], f.jobs[j]) && Rewrite(map[], f.jobs[j]) == f.jobs[j] {
      RewriteNoSource(f.jobs[j]);
    }
    hide GoodSource, Rewrite;
  }

  lemma RewriteNoSource(def: JobDef)
    requires def.inputFrom.None?
    ensures Rewrite(map[], def) == def
  {
    RewriteNothing(def.dependsOn);
  }

  lemma InsertAdds(f: Fan, id: Id, def: JobDef)
    ensures Insert(f, id, def).children == f.children && Insert(f, id, def).jobs == f.jobs[id := def]
  {
  }

  lemma FanStepInserts(f: Fan, ex: Extractor, override: Option<string>, job: Id, def: JobDef)
    requires !IsStaticForeach(def)
    ensures FanStep(f, ex, override, job, def) == Ok(Insert(f, job, def))
  {
  }

  lemma {:induction false} FanIsIdentity(wf: Workflow, override: Option<string>, ex: Extractor, k: nat)
    requires k <= |wf.order| && forall j :: j in wf.order ==> j in wf.jobs
    requires forall j :: j in wf.jobs ==> !IsStaticForeach(wf.jobs[j])
    ensures var r := FanOut(wf, override, ex, k);
            && r.Ok? && r.value.children == map[]
            && (forall x :: x in r.value.jobs <==> x in wf.order[..k])
            && (forall x :: x in r.value.jobs ==> x in wf.jobs && r.value.jobs[x] == wf.jobs[x])
  {
    hide FanStep, IsStaticForeach, Insert;
    if k > 0 {
      FanIsIdentity(wf, override, ex, k - 1);
      var f, id := FanOut(wf, override, ex, k - 1).value, wf.order[k - 1];
      FanStepInserts(f, ex, override, id, wf.jobs[id]);
      InsertAdds(f, id, wf.jobs[id]);
      assert wf.order[..k] == wf.order[..k - 1] + [id];
    }
  }
}
