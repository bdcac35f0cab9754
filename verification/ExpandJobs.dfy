/** Expansion job by job: what it makes of every job, of any workflow, and in which order. */
module ExpansionJobs {
  import opened Collections
  import opened Graph
  import opened Workflows
  import opened Expansion
  import opened ExpansionGraph

  // -- Numbers in names ------------------------------------------------------

  function Reading(s: string): int {
    if s == "" then 0 else 10 * Reading(s[..|s| - 1]) + (s[|s| - 1] as int - '0' as int)
  }

  /** The number in a child's name is its index in decimal notation, without leading zeros. */
  lemma {:induction false} DecimalReads(n: nat)
    ensures Reading(Decimal(n)) == n && Decimal(n) != ""
    ensures forall c :: c in Decimal(n) ==> '0' <= c <= '9'
    ensures n > 0 ==> Decimal(n)[0] != '0'
  {
    var s := Decimal(n);
    if n >= 10 {
      DecimalReads(n / 10);
      assert s[..|s| - 1] == Decimal(n / 10);
    } else {
      assert s[..|s| - 1] == "";
    }
  }

  // -- Every job of the result -----------------------------------------------

  /** x is a job of the file that is kept, or the child of one for some element. */
  ghost predicate Stems(wf: Workflow, override: Option<string>, ex: Extractor, x: Id, def: JobDef) {
    || (x in wf.jobs && !IsStaticForeach(wf.jobs[x]) && SameBut(wf.jobs[x], def))
    || (exists j, i: nat :: ChildAt(wf, override, ex, j, i, x, def))
  }

  ghost predicate ChildAt(wf: Workflow, override: Option<string>, ex: Extractor, j: Id, i: nat, x: Id, def: JobDef) {
    && j in wf.jobs && IsStaticForeach(wf.jobs[j]) && x == j + "." + Decimal(i)
    && var items := ItemsOf(ex, override, wf.jobs[j]);
       items.Some? && i < |items.value| && ChildOn(wf.jobs[j], items.value[i], def)
  }

  ghost predicate AllStem(wf: Workflow, override: Option<string>, ex: Extractor, f: Fan) {
    forall x :: x in f.jobs ==> Stems(wf, override, ex, x, f.jobs[x])
  }

  lemma ChildStems(wf: Workflow, override: Option<string>, ex: Extractor, j: Id, i: nat)
    requires j in wf.jobs && IsStaticForeach(wf.jobs[j])
    requires var items := ItemsOf(ex, override, wf.jobs[j]); items.Some? && i < |items.value|
    ensures Stems(wf, override, ex, ChildId(j, i), ChildDef(wf.jobs[j], ItemsOf(ex, override, wf.jobs[j]).value[i]))
  {
    var item := ItemsOf(ex, override, wf.jobs[j]).value[i];
    assert ChildAt(wf, override, ex, j, i, ChildId(j, i), ChildDef(wf.jobs[j], item));
  }

  lemma {:induction false} FanStems(wf: Workflow, override: Option<string>, ex: Extractor, k: nat)
    requires wf.WellFormed() && k <= |wf.order| && forall j :: j in wf.order ==> j in wf.jobs
    requires FanOut(wf, override, ex, k).Ok?
    ensures AllStem(wf, override, ex, FanOut(wf, override, ex, k).value)
  {
    hide Stems, ChildDef, ChildId;
    if k > 0 {
      FanStems(wf, override, ex, k - 1);
      var f, j := FanOut(wf, override, ex, k - 1).value, wf.order[k - 1];
      if IsStaticForeach(wf.jobs[j]) {
        var items := ItemsOf(ex, override, wf.jobs[j]).value;
        InsertChildrenFacts(f, j, wf.jobs[j], items);
        forall x | x in ChildIds(j, |items|)
          ensures Stems(wf, override, ex, x, InsertChildren(f, j, wf.jobs[j], items).jobs[x])
        {
          var i :| 0 <= i < |items| && ChildIds(j, |items|)[i] == x;
          ChildStems(wf, override, ex, j, i);
        }
      } else {
        KeptStems(wf, override, ex, j);
      }
    }
  }

  lemma KeptStems(wf: Workflow, override: Option<string>, ex: Extractor, j: Id)
    requires j in wf.jobs && !IsStaticForeach(wf.jobs[j])
    ensures Stems(wf, override, ex, j, wf.jobs[j])
  {
  }

  lemma RewriteStems(wf: Workflow, override: Option<string>, ex: Extractor, children: map<Id, seq<Id>>, x: Id,
                     def: JobDef)
    requires Stems(wf, override, ex, x, def) && GoodSource(children, def)
    ensures Stems(wf, override, ex, x, Rewrite(children, def))
  {
    hide RewriteDeps, AddMissing;
    if j, i: nat :| ChildAt(wf, override, ex, j, i, x, def) {
      assert ChildAt(wf, override, ex, j, i, x, Rewrite(children, def));
    }
  }

  /** Whatever the workflow, clashing names included: each job of the result is a job of the
      file unchanged but for its dependencies, or its parent run on one element. */
  lemma NothingElseAppears(wf: Workflow, override: Option<string>, ex: Extractor, x: Id)
    requires wf.WellFormed() && Expand(wf, override, ex).Ok?
    requires x in Expand(wf, override, ex).value.workflow.jobs
    ensures Stems(wf, override, ex, x, Expand(wf, override, ex).value.workflow.jobs[x])
  {
    OrderInJobs(wf);
    assert FanOut(wf, override, ex, |wf.order|).Ok? by { ExpandOkFansOut(wf, override, ex); }
    hide Expand, FanOut, Stems, Rewrite, GoodSource;
    FanStems(wf, override, ex, |wf.order|);
    ExpandFacts(wf, override, ex);
    var f := FanOut(wf, override, ex, |wf.order|).value;
    RewriteStems(wf, override, ex, f.children, x, f.jobs[x]);
  }

  lemma ExpandOkFansOut(wf: Workflow, override: Option<string>, ex: Extractor)
    requires wf.WellFormed() && (forall j :: j in wf.order ==> j in wf.jobs) && Expand(wf, override, ex).Ok?
    ensures FanOut(wf, override, ex, |wf.order|).Ok?
  {
    hide FanOut;
  }

  // -- The errors ------------------------------------------------------------

  lemma {:induction false} FanError(wf: Workflow, override: Option<string>, ex: Extractor, k: nat) returns (m: nat)
    requires wf.WellFormed() && k <= |wf.order| && forall j :: j in wf.order ==> j in wf.jobs
    requires FanOut(wf, override, ex, k).Err?
    ensures m < k && FanOut(wf, override, ex, k) == Err(ExtractFailed(wf.order[m]))
    ensures IsStaticForeach(wf.jobs[wf.order[m]]) && ItemsOf(ex, override, wf.jobs[wf.order[m]]).None?
    ensures forall i :: 0 <= i < m && IsStaticForeach(wf.jobs[wf.order[i]]) ==>
        ItemsOf(ex, override, wf.jobs[wf.order[i]]).Some?
  {
    m := k - 1;
    if FanOut(wf, override, ex, k - 1).Err? {
      m := FanError(wf, override, ex, k - 1);
    } else {
      forall i | 0 <= i < m && IsStaticForeach(wf.jobs[wf.order[i]])
        ensures ItemsOf(ex, override, wf.jobs[wf.order[i]]).Some?
      {
        FanOutNeedsItems(wf, override, ex, m, i);
      }
    }
  }

  lemma {:induction false} RewriteError(f: Fan, k: nat) returns (x: Id)
    requires k <= |f.order| && NoDup(f.order) && (forall j :: j in f.order ==> j in f.jobs) && RewriteTo(f, k).Err?
    ensures x in f.jobs && f.jobs[x].inputFrom.Some? && f.jobs[x].inputFrom.value !in f.children
    ensures RewriteTo(f, k) == Err(BadInputFrom(x, f.jobs[x].inputFrom.value))
  {
    hide RewriteTo, Rewrite;
    if k == 0 { RewriteNothingYet(f); }
    if RewriteTo(f, k - 1).Err? {
      RewriteErrorSticks(f, k - 1, k);
      x := RewriteError(f, k - 1);
    } else {
      x := f.order[k - 1];
      RewriteToFacts(f, k - 1);
      RewriteTurn(f, k - 1);
    }
  }

  lemma {:induction false} FanParents(wf: Workflow, override: Option<string>, ex: Extractor, k: nat)
    requires wf.WellFormed() && k <= |wf.order| && forall j :: j in wf.order ==> j in wf.jobs
    requires FanOut(wf, override, ex, k).Ok?
    ensures forall p :: p in FanOut(wf, override, ex, k).value.children <==>
        p in wf.order[..k] && p in wf.jobs && IsStaticForeach(wf.jobs[p])
  {
    hide FanStep, ItemsOf;
    if k > 0 {
      FanParents(wf, override, ex, k - 1);
      assert wf.order[..k] == wf.order[..k - 1] + [wf.order[k - 1]];
      var f, j := FanOut(wf, override, ex, k - 1).value, wf.order[k - 1];
      StepParents(f, ex, override, j, wf.jobs[j]);
    }
  }

  lemma StepParents(f: Fan, ex: Extractor, override: Option<string>, j: Id, def: JobDef)
    requires FanStep(f, ex, override, j, def).Ok?
    ensures FanStep(f, ex, override, j, def).value.children.Keys ==
        f.children.Keys + if IsStaticForeach(def) then {j} else {}
  {
    hide InsertChildren, ChildIds, ItemsOf;
    if IsStaticForeach(def) { InsertChildrenFacts(f, j, def, ItemsOf(ex, override, def).value); }
  }

  /** What an error says: the first array in the file that cannot be extracted; or, all of
      them extracted, a job of the file that wants its input from something that is no
      static foreach job. */
  lemma ExpandErrorsSay(wf: Workflow, override: Option<string>, ex: Extractor)
    requires wf.WellFormed() && Expand(wf, override, ex).Err?
    ensures match Expand(wf, override, ex).error
      case ExtractFailed(j) =>
        && j in wf.jobs && IsStaticForeach(wf.jobs[j]) && ItemsOf(ex, override, wf.jobs[j]).None?
        && exists m: nat :: m < |wf.order| && wf.order[m] == j && forall i :: 0 <= i < m ==>
             wf.order[i] in wf.jobs
             && (IsStaticForeach(wf.jobs[wf.order[i]]) ==> ItemsOf(ex, override, wf.jobs[wf.order[i]]).Some?)
      case BadInputFrom(j, src) =>
        && (forall k :: k in wf.jobs && IsStaticForeach(wf.jobs[k]) ==> ItemsOf(ex, override, wf.jobs[k]).Some?)
        && j in wf.jobs && wf.jobs[j].inputFrom == Some(src) && !(src in wf.jobs && IsStaticForeach(wf.jobs[src]))
  {
    OrderInJobs(wf);
    if FanOut(wf, override, ex, |wf.order|).Err? {
      var m := FanError(wf, override, ex, |wf.order|);
    } else {
      FanWellFormed(wf, override, ex, |wf.order|);
      FanParents(wf, override, ex, |wf.order|);
      FanStems(wf, override, ex, |wf.order|);
      var f := FanOut(wf, override, ex, |wf.order|).value;
      var x := RewriteError(f, |f.order|);
      assert wf.order[..|wf.order|] == wf.order;
      forall k | k in wf.jobs && IsStaticForeach(wf.jobs[k]) ensures ItemsOf(ex, override, wf.jobs[k]).Some? {
        FanOutNeedsItems(wf, override, ex, |wf.order|, Position(wf.order, k));
      }
      StemWithSource(wf, override, ex, x, f.jobs[x]);
    }
  }

  /** A job that still wants an input from somewhere is one of the file. */
  lemma StemWithSource(wf: Workflow, override: Option<string>, ex: Extractor, x: Id, def: JobDef)
    requires Stems(wf, override, ex, x, def) && def.inputFrom.Some?
    ensures x in wf.jobs && wf.jobs[x].inputFrom == def.inputFrom
  {
  }

  // -- The order -------------------------------------------------------------

  /** The copies of the jobs of the list, one after the other. */
  ghost function AllCopies(copies: map<Id, seq<Id>>, order: seq<Id>): seq<Id> {
    if order == [] then []
    else
      var j := order[|order| - 1];
      AllCopies(copies, order[..|order| - 1]) + if j in copies then copies[j] else []
  }

  lemma {:induction false} InsertInOrder(f: Fan, job: Id, def: JobDef, items: seq<Bytes>)
    requires forall i: nat :: i < |items| ==> ChildId(job, i) !in f.jobs
    ensures InsertChildren(f, job, def, items).order == f.order + ChildIds(job, |items|)
  {
    hide ChildId, ChildDef;
    if items != [] {
      var n := |items| - 1;
      InsertInOrder(f, job, def, items[..n]);
      InsertChildrenFacts(f, job, def, items[..n]);
      if ChildId(job, n) in ChildIds(job, n) {
        var i :| 0 <= i < n && ChildIds(job, n)[i] == ChildId(job, n);
        ChildIdInjective(job, i, job, n);
      }
      assert ChildIds(job, |items|) == ChildIds(job, n) + [ChildId(job, n)];
    }
  }

  lemma NotYetThere(wf: Workflow, override: Option<string>, ex: Extractor, done: seq<Id>, f: Fan, j: Id, x: Id)
    requires NoClash(wf, override, ex) && FanExact(wf, CopiesOf(wf, override, ex), done, f)
    requires j in wf.jobs && j !in done && IsCopy(CopiesOf(wf, override, ex), j, x)
    requires forall d :: d in done ==> d in wf.jobs
    ensures x !in f.jobs
  {
    if x in f.jobs {
      var d :| d in done && IsCopy(CopiesOf(wf, override, ex), d, x);
      hide FanExact, NoClash, CopiesOf;
      CopiesDisjoint(wf, override, ex, d, j, x);
    }
  }

  lemma {:induction false} FanOrder(wf: Workflow, override: Option<string>, ex: Extractor, k: nat)
    requires wf.WellFormed() && k <= |wf.order| && forall j :: j in wf.order ==> j in wf.jobs
    requires Extractable(wf, override, ex) && NoClash(wf, override, ex) && FanOut(wf, override, ex, k).Ok?
    ensures FanOut(wf, override, ex, k).value.order == AllCopies(CopiesOf(wf, override, ex), wf.order[..k])
  {
    hide NoClash, FanExact, Extractable, CopiesOf, FanStep;
    if k > 0 {
      FanOrder(wf, override, ex, k - 1);
      FanOutExact(wf, override, ex, k - 1);
      var done := wf.order[..k - 1];
      assert wf.order[..k][..k - 1] == done && forall d :: d in done ==> d in wf.order;
      assert wf.order[k - 1] !in done;
      StepOrder(wf, override, ex, done, FanOut(wf, override, ex, k - 1).value, wf.order[k - 1]);
    }
  }

  lemma StepOrder(wf: Workflow, override: Option<string>, ex: Extractor, done: seq<Id>, f: Fan, j: Id)
    requires NoClash(wf, override, ex) && FanExact(wf, CopiesOf(wf, override, ex), done, f)
    requires j in wf.jobs && j !in done && (forall d :: d in done ==> d in wf.jobs)
    requires FanStep(f, ex, override, j, wf.jobs[j]).Ok?
    ensures j in CopiesOf(wf, override, ex)
    ensures FanStep(f, ex, override, j, wf.jobs[j]).value.order == f.order + CopiesOf(wf, override, ex)[j]
  {
    hide NoClash, FanExact, ChildId, ChildDef, InsertChildren;
    var copies := CopiesOf(wf, override, ex);
    if IsStaticForeach(wf.jobs[j]) {
      var items := ItemsOf(ex, override, wf.jobs[j]).value;
      assert copies[j] == ChildIds(j, |items|);
      hide CopiesOf;
      forall i: nat | i < |items| ensures ChildId(j, i) !in f.jobs {
        assert ChildIds(j, |items|)[i] == ChildId(j, i) && IsCopy(copies, j, ChildId(j, i));
        NotYetThere(wf, override, ex, done, f, j, ChildId(j, i));
      }
      InsertInOrder(f, j, wf.jobs[j], items);
    } else {
      assert IsCopy(copies, j, j);
      NotYetThere(wf, override, ex, done, f, j, j);
    }
  }

  /** The jobs of the result stand in the order of the file, children where their parent stood. */
  lemma ExpansionKeepsOrder(wf: Workflow, override: Option<string>, ex: Extractor)
    requires Expandable(wf, override, ex)
    ensures Expand(wf, override, ex).Ok?
    ensures Expand(wf, override, ex).value.workflow.order == AllCopies(CopiesOf(wf, override, ex), wf.order)
  {
    ExpansionBlowsUp(wf, override, ex);
    OrderInJobs(wf);
    FanOrder(wf, override, ex, |wf.order|);
    assert wf.order[..|wf.order|] == wf.order;
    hide FanOut, RewriteTo, CopiesOf, BlowUp;
  }

  // -- How often -------------------------------------------------------------

  lemma {:induction false} RewrittenCount(children: map<Id, seq<Id>>, copies: map<Id, seq<Id>>, ds: seq<Id>, b: Id,
                                          y: Id)
    requires forall d :: d in ds ==> d in copies && Substitute(children, d) == copies[d]
    requires IsCopy(copies, b, y) && multiset(copies[b])[y] == 1
    requires forall a :: IsCopy(copies, a, y) ==> a == b
    ensures multiset(RewriteDeps(children, ds))[y] == multiset(ds)[b]
  {
    hide Substitute;
    if ds != [] {
      var front, d := ds[..|ds| - 1], ds[|ds| - 1];
      assert ds == front + [d];
      RewrittenCount(children, copies, front, b, y);
      if d != b { assert !IsCopy(copies, d, y); }
    }
  }

  lemma {:induction false} AddedCount(ds: seq<Id>, extra: seq<Id>, y: Id)
    ensures multiset(AddMissing(ds, extra))[y] == if y in extra && y !in ds then 1 else multiset(ds)[y]
  {
    if extra != [] {
      var front, e := extra[..|extra| - 1], extra[|extra| - 1];
      assert extra == front + [e];
      AddedCount(ds, front, y);
      AddMissingFacts(ds, front);
    }
  }

  lemma OneOfEach(wf: Workflow, override: Option<string>, ex: Extractor, b: Id, y: Id)
    requires IsCopy(CopiesOf(wf, override, ex), b, y)
    ensures multiset(CopiesOf(wf, override, ex)[b])[y] == 1
  {
    var copies := CopiesOf(wf, override, ex);
    if IsStaticForeach(wf.jobs[b]) {
      var items := ItemsOf(ex, override, wf.jobs[b]).value;
      hide ChildId;
      ChildIdsDistinct(b, |items|);
      NoDupCount(ChildIds(b, |items|), y);
    }
  }

  /** A copy lists a copy of b as often as its original lists b, and at least once if the
      original takes its input from b. */
  lemma ExpansionKeepsCounts(wf: Workflow, override: Option<string>, ex: Extractor, a: Id, x: Id, b: Id, y: Id)
    requires Expandable(wf, override, ex)
    requires IsCopy(CopiesOf(wf, override, ex), a, x) && IsCopy(CopiesOf(wf, override, ex), b, y)
    ensures Expand(wf, override, ex).Ok?
    ensures var jobs := Expand(wf, override, ex).value.workflow.jobs; var n := multiset(wf.jobs[a].dependsOn)[b];
            && x in jobs
            && multiset(jobs[x].dependsOn)[y] ==
                 if n == 0 && !IsStaticForeach(wf.jobs[a]) && wf.jobs[a].inputFrom == Some(b) then 1 else n
  {
    var f := FanOutFanned(wf, override, ex);
    var copies := CopiesOf(wf, override, ex);
    OneOfEach(wf, override, ex, b, y);
    ExpansionBlowsUp(wf, override, ex);
    ExpandFacts(wf, override, ex);
    CopyIsFanned(wf, copies, f, a, x);
    FannedSubstitutes(wf, copies, f, a);
    assert forall d :: IsCopy(copies, d, y) ==> d == b by { OnlyOriginal(wf, copies, f, b, y); }
    assert b in wf.jobs;
    hide Expand, FanOut, CopiesOf, FannedOut, BlowUp, Expandable, ExpandedFrom;
    assert GoodSource(f.children, f.jobs[x])
        && Expand(wf, override, ex).value.workflow.jobs[x] == Rewrite(f.children, f.jobs[x])
      by { FromFan(f, Expand(wf, override, ex).value, x); }
    CountOne(copies, f, wf.jobs[a], f.jobs[x], b, y);
  }

  lemma OnlyOriginal(wf: Workflow, copies: map<Id, seq<Id>>, f: Fan, b: Id, y: Id)
    requires FannedOut(wf, copies, f) && IsCopy(copies, b, y)
    ensures forall d :: IsCopy(copies, d, y) ==> d == b
  {
  }

  lemma FromFan(f: Fan, e: Expanded, x: Id)
    requires ExpandedFrom(f, e) && x in f.jobs
    ensures GoodSource(f.children, f.jobs[x]) && x in e.workflow.jobs
    ensures e.workflow.jobs[x] == Rewrite(f.children, f.jobs[x])
  {
  }

  lemma CountOne(copies: map<Id, seq<Id>>, f: Fan, def: JobDef, copy: JobDef, b: Id, y: Id)
    requires CopyDef(def, copy) && GoodSource(f.children, copy)
    requires forall d :: d in def.dependsOn ==> d in copies && Substitute(f.children, d) == copies[d]
    requires def.inputFrom.Some? && !IsStaticForeach(def) ==>
        var src := def.inputFrom.value; src in f.children && src in copies && f.children[src] == copies[src]
    requires IsCopy(copies, b, y) && multiset(copies[b])[y] == 1 && forall d :: IsCopy(copies, d, y) ==> d == b
    ensures var n := multiset(def.dependsOn)[b];
            multiset(Rewrite(f.children, copy).dependsOn)[y] ==
              if n == 0 && !IsStaticForeach(def) && def.inputFrom == Some(b) then 1 else n
  {
    CopyOfDef(def, copy);
    hide CopyDef, RewriteDeps, AddMissing, Substitute;
    RewrittenCount(f.children, copies, def.dependsOn, b, y);
    var ds := RewriteDeps(f.children, def.dependsOn);
    if copy.inputFrom.Some? {
      var src := copy.inputFrom.value;
      AddedCount(ds, f.children[src], y);
      assert y in f.children[src] <==> src == b by { assert IsCopy(copies, src, y) <==> y in copies[src]; }
      assert y in ds <==> multiset(ds)[y] > 0;
    }
  }

  // -- The order of dependencies ---------------------------------------------

  lemma {:induction false} RewrittenIsAllCopies(children: map<Id, seq<Id>>, copies: map<Id, seq<Id>>, ds: seq<Id>)
    requires forall d :: d in ds ==> d in copies && Substitute(children, d) == copies[d]
    ensures RewriteDeps(children, ds) == AllCopies(copies, ds)
  {
    hide Substitute;
    if ds != [] { RewrittenIsAllCopies(children, copies, ds[..|ds| - 1]); }
  }

  lemma {:induction false} NothingMissing(ds: seq<Id>, extra: seq<Id>)
    requires forall e :: e in extra ==> e in ds
    ensures AddMissing(ds, extra) == ds
  {
    if extra != [] { NothingMissing(ds, extra[..|extra| - 1]); }
  }

  lemma {:induction false} AllMissing(ds: seq<Id>, extra: seq<Id>)
    requires NoDup(extra) && forall e :: e in extra ==> e !in ds
    ensures AddMissing(ds, extra) == ds + extra
  {
    if extra != [] {
      var front, e := extra[..|extra| - 1], extra[|extra| - 1];
      assert extra == front + [e];
      AllMissing(ds, front);
    }
  }

  /** A copy's dependencies stand in the order of its original's, the children of each parent in
      their own order; a source that is not listed comes last. */
  lemma DependenciesKeepTheirOrder(wf: Workflow, override: Option<string>, ex: Extractor, a: Id, x: Id)
    requires Expandable(wf, override, ex) && IsCopy(CopiesOf(wf, override, ex), a, x)
    ensures Expand(wf, override, ex).Ok? && x in Expand(wf, override, ex).value.workflow.jobs && a in wf.jobs
    ensures var def, copies := wf.jobs[a], CopiesOf(wf, override, ex);
            Expand(wf, override, ex).value.workflow.jobs[x].dependsOn ==
              AllCopies(copies, def.dependsOn) +
              if !IsStaticForeach(def) && def.inputFrom.Some? && def.inputFrom.value !in def.dependsOn
                && def.inputFrom.value in copies then copies[def.inputFrom.value] else []
  {
    var f := FanOutFanned(wf, override, ex);
    var copies := CopiesOf(wf, override, ex);
    ExpansionBlowsUp(wf, override, ex);
    ExpandFacts(wf, override, ex);
    CopyIsFanned(wf, copies, f, a, x);
    FannedSubstitutes(wf, copies, f, a);
    assert OneOriginal(copies) by { Unshared(wf, copies, f); }
    if wf.jobs[a].inputFrom.Some? { CopiesDistinct(wf, override, ex, wf.jobs[a].inputFrom.value); }
    hide Expand, FanOut, CopiesOf, FannedOut, BlowUp, Expandable, ExpandedFrom;
    assert GoodSource(f.children, f.jobs[x])
        && Expand(wf, override, ex).value.workflow.jobs[x] == Rewrite(f.children, f.jobs[x])
      by { FromFan(f, Expand(wf, override, ex).value, x); }
    InOrder(copies, f, wf.jobs[a], f.jobs[x]);
  }

  /** No two jobs share a copy. */
  ghost predicate OneOriginal(copies: map<Id, seq<Id>>) {
    forall a, b, y :: IsCopy(copies, a, y) && IsCopy(copies, b, y) ==> a == b
  }

  lemma Unshared(wf: Workflow, copies: map<Id, seq<Id>>, f: Fan)
    requires FannedOut(wf, copies, f)
    ensures OneOriginal(copies)
  {
  }

  lemma CopiesDistinct(wf: Workflow, override: Option<string>, ex: Extractor, b: Id)
    ensures b in wf.jobs ==> NoDup(CopiesOf(wf, override, ex)[b])
  {
    if b in wf.jobs && IsStaticForeach(wf.jobs[b]) && ItemsOf(ex, override, wf.jobs[b]).Some? {
      ChildIdsDistinct(b, |ItemsOf(ex, override, wf.jobs[b]).value|);
    }
  }

  lemma {:induction false} InAllCopies(copies: map<Id, seq<Id>>, ds: seq<Id>, y: Id)
    ensures y in AllCopies(copies, ds) <==> exists d :: d in ds && IsCopy(copies, d, y)
  {
    if ds != [] {
      var front, j := ds[..|ds| - 1], ds[|ds| - 1];
      InAllCopies(copies, front, y);
      assert ds == front + [j];
      assert forall d :: d in ds <==> d in front || d == j;
      assert y in (if j in copies then copies[j] else []) <==> IsCopy(copies, j, y);
    }
  }

  lemma InOrder(copies: map<Id, seq<Id>>, f: Fan, def: JobDef, copy: JobDef)
    requires CopyDef(def, copy) && GoodSource(f.children, copy) && OneOriginal(copies)
    requires forall d :: d in def.dependsOn ==> d in copies && Substitute(f.children, d) == copies[d]
    requires def.inputFrom.Some? && !IsStaticForeach(def) ==>
        var src := def.inputFrom.value;
        src in f.children && src in copies && f.children[src] == copies[src] && NoDup(copies[src])
    ensures Rewrite(f.children, copy).dependsOn ==
        AllCopies(copies, def.dependsOn) +
        if !IsStaticForeach(def) && def.inputFrom.Some? && def.inputFrom.value !in def.dependsOn
          && def.inputFrom.value in copies then copies[def.inputFrom.value] else []
  {
    CopyOfDef(def, copy);
    hide CopyDef, RewriteDeps, AddMissing, Substitute, NoDup;
    RewrittenIsAllCopies(f.children, copies, def.dependsOn);
    if copy.inputFrom.Some? {
      var src, ds := copy.inputFrom.value, AllCopies(copies, def.dependsOn);
      forall y | y in copies[src] ensures y in ds <==> src in def.dependsOn {
        InAllCopies(copies, def.dependsOn, y);
        assert IsCopy(copies, src, y);
      }
      if src in def.dependsOn { NothingMissing(ds, copies[src]); } else { AllMissing(ds, copies[src]); }
    }
  }
}
