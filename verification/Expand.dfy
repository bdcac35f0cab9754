/** Foreach expansion: every static foreach job becomes one child per array element. */
module Expansion {
  import opened Collections
  import opened Graph
  import opened Workflows
  import opened Strings

  // -- Names of children -----------------------------------------------------

  function Digit(n: nat): char
    requires n < 10
  {
    "0123456789"[n]
  }

  function Decimal(n: nat): (s: string)
    ensures |s| > 0
  {
    if n < 10 then [Digit(n)] else Decimal(n / 10) + [Digit(n % 10)]
  }

  function ChildId(job: Id, i: nat): Id {
    job + "." + Decimal(i)
  }

  lemma {:induction false} DecimalInjective(m: nat, n: nat)
    requires Decimal(m) == Decimal(n)
    ensures m == n
  {
    var s := Decimal(m);
    assert s[|s| - 1] == Digit(m % 10) == Digit(n % 10);
    if m >= 10 && n >= 10 {
      assert s[..|s| - 1] == Decimal(m / 10) == Decimal(n / 10);
      DecimalInjective(m / 10, n / 10);
    }
  }

  lemma {:induction false} DecimalHasNoDot(n: nat)
    ensures '.' !in Decimal(n)
  {
    if n >= 10 { DecimalHasNoDot(n / 10); }
  }

  /** Job ids may contain dots, and still no two children share a name. */
  lemma ChildIdInjective(a: Id, i: nat, b: Id, k: nat)
    requires ChildId(a, i) == ChildId(b, k)
    ensures a == b && i == k
  {
    DecimalHasNoDot(i);
    DecimalHasNoDot(k);
    LastAt(a, '.', Decimal(i));
    LastAt(b, '.', Decimal(k));
    var s := ChildId(a, i);
    assert s[..|a|] == a && s[|a| + 1..] == Decimal(i);
    assert s[..|b|] == b && s[|b| + 1..] == Decimal(k);
    DecimalInjective(i, k);
  }

  function ChildIds(job: Id, n: nat): (ids: seq<Id>)
    ensures |ids| == n && forall i :: 0 <= i < n ==> ids[i] == ChildId(job, i)
  {
    seq(n, i requires 0 <= i < n => ChildId(job, i))
  }

  lemma ChildIdsDistinct(job: Id, n: nat)
    ensures NoDup(ChildIds(job, n))
  {
    forall i, k | 0 <= i < k < n ensures ChildId(job, i) != ChildId(job, k) {
      if ChildId(job, i) == ChildId(job, k) { ChildIdInjective(job, i, job, k); }
    }
  }

  // -- What the loops compute ------------------------------------------------

  datatype ExpandError = ExtractFailed(job: Id) | BadInputFrom(job: Id, src: Id)

  /** JSONPath evaluation: path and input text to the serialised items. */
  type Extractor = (string, string) -> Option<seq<Bytes>>

  datatype Expanded = Expanded(workflow: Workflow, children: map<Id, seq<Id>>)

  /** The jobs inserted so far, in insertion order, and the children of each parent. */
  datatype Fan = Fan(order: seq<Id>, jobs: map<Id, JobDef>, children: map<Id, seq<Id>>)

  predicate IsStaticForeach(def: JobDef) {
    def.foreachPath.Some? && def.input.Some?
  }

  function ItemsOf(ex: Extractor, override: Option<string>, def: JobDef): Option<seq<Bytes>>
    requires IsStaticForeach(def)
  {
    ex(def.foreachPath.value, if override.Some? then override.value else def.input.value)
  }

  function ChildDef(def: JobDef, item: Bytes): JobDef {
    def.(input := Some(item), whenExpr := None, foreachPath := None, inputFrom := None,
         failFast := false, reduce := None)
  }

  /** Inserting under an existing key keeps its position and replaces its value. */
  function Insert(f: Fan, id: Id, def: JobDef): Fan {
    f.(order := if id in f.jobs then f.order else f.order + [id], jobs := f.jobs[id := def])
  }

  function InsertChildren(f: Fan, job: Id, def: JobDef, items: seq<Bytes>): Fan {
    if items == [] then f
    else
      var n := |items| - 1;
      Insert(InsertChildren(f, job, def, items[..n]), ChildId(job, n), ChildDef(def, items[n]))
  }

  function FanStep(f: Fan, ex: Extractor, override: Option<string>, job: Id, def: JobDef): Result<Fan, ExpandError> {
    if !IsStaticForeach(def) then Ok(Insert(f, job, def))
    else match ItemsOf(ex, override, def)
      case None => Err(ExtractFailed(job))
      case Some(items) =>
        var f' := InsertChildren(f, job, def, items);
        Ok(f'.(children := f'.children[job := ChildIds(job, |items|)]))
  }

  /** The first pass over the first k jobs. */
  function FanOut(wf: Workflow, override: Option<string>, ex: Extractor, k: nat): Result<Fan, ExpandError>
    requires k <= |wf.order| && forall j :: j in wf.order ==> j in wf.jobs
  {
    if k == 0 then Ok(Fan([], map[], map[]))
    else match FanOut(wf, override, ex, k - 1)
      case Err(e) => Err(e)
      case Ok(f) => FanStep(f, ex, override, wf.order[k - 1], wf.jobs[wf.order[k - 1]])
  }

  function Substitute(children: map<Id, seq<Id>>, d: Id): seq<Id> {
    if d in children then children[d] else [d]
  }

  function RewriteDeps(children: map<Id, seq<Id>>, ds: seq<Id>): seq<Id> {
    if ds == [] then [] else RewriteDeps(children, ds[..|ds| - 1]) + Substitute(children, ds[|ds| - 1])
  }

  function AddMissing(ds: seq<Id>, extra: seq<Id>): seq<Id> {
    if extra == [] then ds
    else
      var before := AddMissing(ds, extra[..|extra| - 1]);
      if extra[|extra| - 1] in before then before else before + [extra[|extra| - 1]]
  }

  predicate GoodSource(children: map<Id, seq<Id>>, def: JobDef) {
    def.inputFrom.Some? ==> def.inputFrom.value in children
  }

  function Rewrite(children: map<Id, seq<Id>>, def: JobDef): JobDef
    requires GoodSource(children, def)
  {
    var ds := RewriteDeps(children, def.dependsOn);
    def.(dependsOn := if def.inputFrom.Some? then AddMissing(ds, children[def.inputFrom.value]) else ds)
  }

  /** The second pass over the first k inserted jobs. */
  function RewriteTo(f: Fan, k: nat): Result<map<Id, JobDef>, ExpandError>
    requires k <= |f.order| && forall j :: j in f.order ==> j in f.jobs
    ensures RewriteTo(f, k).Ok? ==> RewriteTo(f, k).value.Keys == f.jobs.Keys
  {
    if k == 0 then Ok(f.jobs)
    else match RewriteTo(f, k - 1)
      case Err(e) => Err(e)
      case Ok(jobs) =>
        var def := jobs[f.order[k - 1]];
        if !GoodSource(f.children, def) then Err(BadInputFrom(f.order[k - 1], def.inputFrom.value))
        else Ok(jobs[f.order[k - 1] := Rewrite(f.children, def)])
  }

  // -- The two passes --------------------------------------------------------

  method ExpandChildren(f: Fan, job: Id, def: JobDef, items: seq<Bytes>) returns (f': Fan, ids: seq<Id>)
    ensures f' == InsertChildren(f, job, def, items) && ids == ChildIds(job, |items|)
  {
    f', ids := f, [];
    for i := 0 to |items|
      invariant f' == InsertChildren(f, job, def, items[..i]) && ids == ChildIds(job, i)
    {
      assert items[..i + 1][..i] == items[..i];
      f', ids := Insert(f', ChildId(job, i), ChildDef(def, items[i])), ids + [ChildId(job, i)];
    }
    assert items[..|items|] == items;
  }

  method ReplaceParents(children: map<Id, seq<Id>>, before: seq<Id>) returns (ds: seq<Id>)
    ensures ds == RewriteDeps(children, before)
  {
    hide Substitute;
    ds := [];
    for i := 0 to |before|
      invariant ds == RewriteDeps(children, before[..i])
    {
      assert before[..i + 1][..i] == before[..i];
      ds := ds + Substitute(children, before[i]);
    }
    assert before[..|before|] == before;
  }

  method AddFanInEdges(before: seq<Id>, extra: seq<Id>) returns (ds: seq<Id>)
    ensures ds == AddMissing(before, extra)
  {
    ds := before;
    for i := 0 to |extra|
      invariant ds == AddMissing(before, extra[..i])
    {
      assert extra[..i + 1][..i] == extra[..i];
      if extra[i] !in ds { ds := ds + [extra[i]]; }
    }
    assert extra[..|extra|] == extra;
  }

  method RewriteJob(children: map<Id, seq<Id>>, def: JobDef) returns (def': JobDef)
    requires GoodSource(children, def)
    ensures def' == Rewrite(children, def)
  {
    hide RewriteDeps, AddMissing;
    var ds := ReplaceParents(children, def.dependsOn);
    if def.inputFrom.Some? { ds := AddFanInEdges(ds, children[def.inputFrom.value]); }
    def' := def.(dependsOn := ds);
  }

  method FirstPass(wf: Workflow, override: Option<string>, ex: Extractor) returns (r: Result<Fan, ExpandError>)
    requires forall j :: j in wf.order ==> j in wf.jobs
    ensures r == FanOut(wf, override, ex, |wf.order|)
  {
    hide FanOut, Insert, InsertChildren;
    FanOutBegins(wf, override, ex);
    var f := Fan([], map[], map[]);
    for k := 0 to |wf.order|
      invariant FanOut(wf, override, ex, k) == Ok(f)
    {
      var job, def := wf.order[k], wf.jobs[wf.order[k]];
      FanOutNext(wf, override, ex, k);
      if IsStaticForeach(def) {
        var items := ItemsOf(ex, override, def);
        if items.None? {
          ErrorSticks(wf, override, ex, k + 1, |wf.order|);
          return Err(ExtractFailed(job));
        }
        var ids;
        f, ids := ExpandChildren(f, job, def, items.value);
        f := f.(children := f.children[job := ids]);
      } else {
        f := Insert(f, job, def);
      }
    }
    r := Ok(f);
  }

  lemma FanOutBegins(wf: Workflow, override: Option<string>, ex: Extractor)
    requires forall j :: j in wf.order ==> j in wf.jobs
    ensures FanOut(wf, override, ex, 0) == Ok(Fan([], map[], map[]))
  {
  }

  lemma FanOutNext(wf: Workflow, override: Option<string>, ex: Extractor, k: nat)
    requires k < |wf.order| && (forall j :: j in wf.order ==> j in wf.jobs) && FanOut(wf, override, ex, k).Ok?
    ensures FanOut(wf, override, ex, k + 1)
         == FanStep(FanOut(wf, override, ex, k).value, ex, override, wf.order[k], wf.jobs[wf.order[k]])
  {
    hide FanStep;
  }

  lemma RewriteTurn(f: Fan, k: nat)
    requires k < |f.order| && (forall j :: j in f.order ==> j in f.jobs) && RewriteTo(f, k).Ok?
    ensures f.order[k] in RewriteTo(f, k).value
    ensures var jobs, def := RewriteTo(f, k).value, RewriteTo(f, k).value[f.order[k]];
            if GoodSource(f.children, def) then RewriteTo(f, k + 1) == Ok(jobs[f.order[k] := Rewrite(f.children, def)])
            else def.inputFrom.Some? && RewriteTo(f, k + 1) == Err(BadInputFrom(f.order[k], def.inputFrom.value))
  {
    hide Rewrite;
  }

  method SecondPass(f: Fan) returns (r: Result<map<Id, JobDef>, ExpandError>)
    requires forall j :: j in f.order ==> j in f.jobs
    ensures r == RewriteTo(f, |f.order|)
  {
    hide RewriteTo, Rewrite, GoodSource;
    var jobs := f.jobs;
    RewriteNothingYet(f);
    for k := 0 to |f.order|
      invariant RewriteTo(f, k) == Ok(jobs)
    {
      RewriteTurn(f, k);
      var def := jobs[f.order[k]];
      if !GoodSource(f.children, def) {
        RewriteErrorSticks(f, k + 1, |f.order|);
        return Err(BadInputFrom(f.order[k], def.inputFrom.value));
      }
      var def' := RewriteJob(f.children, def);
      jobs := jobs[f.order[k] := def'];
    }
    r := Ok(jobs);
  }

  /** `expand_foreach`. */
  method ExpandForeach(wf: Workflow, override: Option<string>, ex: Extractor)
    returns (r: Result<Expanded, ExpandError>)
    requires wf.WellFormed()
    ensures r == Expand(wf, override, ex)
  {
    hide FanOut, RewriteTo;
    OrderInJobs(wf);
    var fan := FirstPass(wf, override, ex);
    if fan.Err? { return Err(fan.error); }
    FanWellFormed(wf, override, ex, |wf.order|);
    var jobs := SecondPass(fan.value);
    if jobs.Err? { return Err(jobs.error); }
    r := Ok(Expanded(Workflow(fan.value.order, jobs.value), fan.value.children));
  }

  lemma OrderInJobs(wf: Workflow)
    requires wf.WellFormed()
    ensures forall j :: j in wf.order <==> j in wf.jobs
  {
    assert forall j :: j in wf.order <==> j in Elems(wf.order);
  }

  ghost function Expand(wf: Workflow, override: Option<string>, ex: Extractor): Result<Expanded, ExpandError>
    requires wf.WellFormed()
  {
    OrderInJobs(wf);
    match FanOut(wf, override, ex, |wf.order|)
    case Err(e) => Err(e)
    case Ok(f) =>
      FanWellFormed(wf, override, ex, |wf.order|);
      match RewriteTo(f, |f.order|)
      case Err(e) => Err(e)
      case Ok(jobs) => Ok(Expanded(Workflow(f.order, jobs), f.children))
  }

  lemma {:induction false} ErrorSticks(wf: Workflow, override: Option<string>, ex: Extractor, k: nat, n: nat)
    requires k <= n <= |wf.order| && (forall j :: j in wf.order ==> j in wf.jobs) && FanOut(wf, override, ex, k).Err?
    ensures FanOut(wf, override, ex, n) == FanOut(wf, override, ex, k)
    decreases n
  {
    if k < n { ErrorSticks(wf, override, ex, k, n - 1); }
  }

  lemma {:induction false} RewriteErrorSticks(f: Fan, k: nat, n: nat)
    requires k <= n <= |f.order| && (forall j :: j in f.order ==> j in f.jobs) && RewriteTo(f, k).Err?
    ensures RewriteTo(f, n) == RewriteTo(f, k)
    decreases n
  {
    if k < n { RewriteErrorSticks(f, k, n - 1); }
  }

  // -- Facts that hold for every workflow ------------------------------------

  /** The key order stays an enumeration; children carry their parent's name; and a
      parent's own key, should some child's name equal it, never has fail_fast set. */
  ghost predicate FanValid(f: Fan) {
    && NoDup(f.order) && Elems(f.order) == f.jobs.Keys
    && (forall p :: p in f.children ==> f.children[p] == ChildIds(p, |f.children[p]|))
    && (forall p :: p in f.children && p in f.jobs ==> !f.jobs[p].failFast)
  }

  lemma InsertValid(f: Fan, id: Id, def: JobDef)
    requires FanValid(f) && (id in f.children ==> !def.failFast)
    ensures FanValid(Insert(f, id, def))
  {
    var f' := Insert(f, id, def);
    assert forall j :: j in f.order <==> j in Elems(f.order);
    if id !in f.jobs { assert Elems(f'.order) == Elems(f.order) + {id}; }
  }

  lemma {:induction false} InsertChildrenValid(f: Fan, job: Id, def: JobDef, items: seq<Bytes>)
    requires FanValid(f) && (job in f.jobs ==> !f.jobs[job].failFast)
    ensures var f' := InsertChildren(f, job, def, items);
            && FanValid(f') && f'.children == f.children
            && (job in f'.jobs ==> !f'.jobs[job].failFast)
  {
    if items != [] {
      var n := |items| - 1;
      InsertChildrenValid(f, job, def, items[..n]);
      InsertValid(InsertChildren(f, job, def, items[..n]), ChildId(job, n), ChildDef(def, items[n]));
    }
  }

  ghost predicate Disjoint(f: Fan, rest: seq<Id>) {
    forall j :: j in rest ==> j !in f.children && (j in f.jobs ==> !f.jobs[j].failFast)
  }

  lemma {:induction false} FanWellFormed(wf: Workflow, override: Option<string>, ex: Extractor, k: nat)
    requires wf.WellFormed() && k <= |wf.order| && forall j :: j in wf.order ==> j in wf.jobs
    ensures FanOut(wf, override, ex, k).Ok? ==>
        var f := FanOut(wf, override, ex, k).value;
        FanValid(f) && Disjoint(f, wf.order[k..]) && forall j :: j in f.order ==> j in f.jobs
  {
    if k > 0 && FanOut(wf, override, ex, k).Ok? {
      FanWellFormed(wf, override, ex, k - 1);
      var f, f' := FanOut(wf, override, ex, k - 1).value, FanOut(wf, override, ex, k).value;
      var job, def := wf.order[k - 1], wf.jobs[wf.order[k - 1]];
      assert wf.order[k - 1..] == [job] + wf.order[k..];
      assert job !in wf.order[k..];
      FanStepValid(f, ex, override, job, def, wf.order[k..]);
      assert forall j :: j in f'.order <==> j in Elems(f'.order);
    }
  }

  lemma FanStepValid(f: Fan, ex: Extractor, override: Option<string>, job: Id, def: JobDef, rest: seq<Id>)
    requires FanValid(f) && Disjoint(f, [job] + rest) && job !in rest
    requires FanStep(f, ex, override, job, def).Ok?
    ensures var f' := FanStep(f, ex, override, job, def).value; FanValid(f') && Disjoint(f', rest)
  {
    assert job in [job] + rest && forall j :: j in rest ==> j in [job] + rest;
    if IsStaticForeach(def) {
      var items := ItemsOf(ex, override, def).value;
      InsertChildrenValid(f, job, def, items);
      ChildrenKeepOthers(f, job, def, items, rest);
    } else {
      InsertValid(f, job, def);
    }
  }

  lemma {:induction false} ChildrenKeepOthers(f: Fan, job: Id, def: JobDef, items: seq<Bytes>, rest: seq<Id>)
    requires Disjoint(f, rest)
    ensures Disjoint(InsertChildren(f, job, def, items), rest)
  {
    if items != [] { ChildrenKeepOthers(f, job, def, items[..|items| - 1], rest); }
  }

  lemma {:induction false} RewriteToFacts(f: Fan, k: nat)
    requires NoDup(f.order) && k <= |f.order| && forall j :: j in f.order ==> j in f.jobs
    ensures RewriteTo(f, k).Ok? <==> forall i :: 0 <= i < k ==> GoodSource(f.children, f.jobs[f.order[i]])
    ensures RewriteTo(f, k).Ok? ==>
        && (forall i :: 0 <= i < k ==> RewriteTo(f, k).value[f.order[i]] == Rewrite(f.children, f.jobs[f.order[i]]))
        && (forall i :: k <= i < |f.order| ==> RewriteTo(f, k).value[f.order[i]] == f.jobs[f.order[i]])
  {
    hide GoodSource, Rewrite, RewriteTo;
    if k == 0 {
      RewriteNothingYet(f);
    } else {
      RewriteToFacts(f, k - 1);
      RewriteNext(f, k - 1);
      var last := f.order[k - 1];
      assert forall i :: 0 <= i < |f.order| && i != k - 1 ==> f.order[i] != last;
    }
  }

  lemma RewriteNothingYet(f: Fan)
    requires forall j :: j in f.order ==> j in f.jobs
    ensures RewriteTo(f, 0) == Ok(f.jobs)
  {
  }

  /** One more turn of the second pass. */
  lemma RewriteNext(f: Fan, k: nat)
    requires k < |f.order| && forall j :: j in f.order ==> j in f.jobs
    requires RewriteTo(f, k).Ok? ==> RewriteTo(f, k).value[f.order[k]] == f.jobs[f.order[k]]
    ensures RewriteTo(f, k + 1).Ok? <==> RewriteTo(f, k).Ok? && GoodSource(f.children, f.jobs[f.order[k]])
    ensures RewriteTo(f, k + 1).Ok? ==>
        RewriteTo(f, k + 1).value == RewriteTo(f, k).value[f.order[k] := Rewrite(f.children, f.jobs[f.order[k]])]
  {
    hide GoodSource, Rewrite;
  }

  ghost predicate ExpandedFrom(f: Fan, e: Expanded) {
    && e.children == f.children && e.workflow.WellFormed() && e.workflow.jobs.Keys == f.jobs.Keys
    && forall j :: j in f.jobs ==>
         GoodSource(f.children, f.jobs[j]) && e.workflow.jobs[j] == Rewrite(f.children, f.jobs[j])
  }

  /** Every job of the result is a rewritten job of the first pass, and expansion
      succeeds exactly if all arrays could be extracted and all sources have children. */
  lemma ExpandFacts(wf: Workflow, override: Option<string>, ex: Extractor)
    requires wf.WellFormed() && (forall j :: j in wf.order ==> j in wf.jobs)
    requires FanOut(wf, override, ex, |wf.order|).Ok?
    ensures var f := FanOut(wf, override, ex, |wf.order|).value;
            var r := Expand(wf, override, ex);
            && (r.Ok? <==> forall j :: j in f.jobs ==> GoodSource(f.children, f.jobs[j]))
            && (r.Ok? ==> ExpandedFrom(f, r.value))
  {
    FanWellFormed(wf, override, ex, |wf.order|);
    var f := FanOut(wf, override, ex, |wf.order|).value;
    RewriteToFacts(f, |f.order|);
    hide GoodSource, Rewrite, FanOut, RewriteTo;
    assert forall j :: j in f.jobs ==> j in Elems(f.order);
    assert forall j :: j in f.jobs ==> j in f.order;
  }

  // -- Rewritten dependency lists --------------------------------------------

  lemma {:induction false} RewriteDepsMembers(children: map<Id, seq<Id>>, ds: seq<Id>, y: Id)
    ensures y in RewriteDeps(children, ds) <==> exists d :: d in ds && y in Substitute(children, d)
  {
    if ds != [] {
      RewriteDepsMembers(children, ds[..|ds| - 1], y);
      assert ds == ds[..|ds| - 1] + [ds[|ds| - 1]];
    }
  }

  lemma {:induction false} AddMissingFacts(ds: seq<Id>, extra: seq<Id>)
    ensures forall y :: y in AddMissing(ds, extra) <==> y in ds || y in extra
    ensures NoDup(ds) ==> NoDup(AddMissing(ds, extra))
  {
    if extra != [] {
      AddMissingFacts(ds, extra[..|extra| - 1]);
      assert extra == extra[..|extra| - 1] + [extra[|extra| - 1]];
    }
  }

  lemma {:induction false} RewriteDepsDistinct(children: map<Id, seq<Id>>, ds: seq<Id>)
    requires NoDup(ds)
    requires forall d :: d in ds ==> NoDup(Substitute(children, d))
    requires forall d, e, x :: d in ds && e in ds && x in Substitute(children, d) && x in Substitute(children, e) ==>
        d == e
    ensures NoDup(RewriteDeps(children, ds))
  {
    if ds != [] {
      var front, last := ds[..|ds| - 1], ds[|ds| - 1];
      assert ds == front + [last];
      hide Substitute;
      RewriteDepsDistinct(children, front);
      var a, b := RewriteDeps(children, front), Substitute(children, last);
      forall x | x in a ensures x !in b {
        RewriteDepsMembers(children, front, x);
      }
      assert RewriteDeps(children, ds) == a + b;
      forall i, k | 0 <= i < k < |a + b| ensures (a + b)[i] != (a + b)[k] {
        if i < |a| <= k { assert a[i] in a && b[k - |a|] in b; }
      }
    }
  }
}
