/** One run of an expanded workflow, as a machine whose environment decides which
    in-flight job finishes next. */
module Scheduler {
  import opened Collections
  import opened Graph
  import opened Workflows
  import opened Dags
  import opened States
  import opened Whens
  import opened FanIns

  /** What a component does with an input: the one thing left uninterpreted. */
  datatype Outcome = Output(bytes: Bytes) | Failure(reason: string)

  /** Everything that is fixed before the first job starts.  `preOrder` and
      `rootOrder` are the iteration orders of two hash maps. */
  datatype Config = Config(
    wf: Workflow,
    children: map<Id, seq<Id>>,
    dag: Dag,
    pre: map<Id, nat>,
    preOrder: seq<Id>,
    rootOrder: seq<Id>,
    codec: Codec,
    run: (Id, Bytes) -> Outcome)

  /** What expansion and `Build` guarantee to the scheduler (see `Prepare`). */
  ghost predicate ValidConfig(c: Config) {
    && c.wf.WellFormed()
    && c.dag.Valid() && c.dag.deps == DepsOf(c.wf.jobs)
    && NoDup(c.preOrder) && Elems(c.preOrder) == c.pre.Keys
    && NoDup(c.rootOrder) && Elems(c.rootOrder) == RootSet(c.dag)
    && (forall p, q, x :: p in c.children && q in c.children && x in c.children[p] && x in c.children[q] ==> p == q)
    && (forall p :: p in c.children && p in c.wf.jobs ==> !c.wf.jobs[p].failFast)
    && (forall j, src :: j in c.wf.jobs && c.wf.jobs[j].inputFrom == Some(src) ==>
          src in c.children && forall x :: x in c.children[src] ==> x in c.wf.jobs[j].dependsOn)
  }

  datatype ResultKind = Ran | Reused | Broke | Passed

  datatype JobResult = JobResult(job: Id, kind: ResultKind)

  datatype Flight = Flight(job: Id, input: Bytes)

  /** `flights` are the launched jobs whose event has not been received; `started`
      remembers every launch.  `rows` is this run's part of the job_states table. */
  datatype State = State(
    statuses: map<Id, Status>,
    outputs: map<Id, Bytes>,
    results: seq<JobResult>,
    rows: map<Id, Row>,
    inFlight: nat,
    success: bool,
    halted: bool,
    flights: multiset<Flight>,
    started: multiset<Id>)

  function StatusOf(s: State, j: Id): Status {
    if j in s.statuses then s.statuses[j] else Pending
  }

  function DepsAt(c: Config, j: Id): seq<Id> {
    if j in c.dag.deps then c.dag.deps[j] else []
  }

  function DependentsOf(c: Config, j: Id): seq<Id> {
    if j in c.dag.dependents then c.dag.dependents[j] else []
  }

  predicate AllDone(c: Config, s: State, j: Id) {
    forall d :: d in DepsAt(c, j) ==> IsDone(StatusOf(s, d))
  }

  // -- Elementary updates ----------------------------------------------------

  /** Every status change is written to the store in the same breath. */
  function Record(s: State, j: Id, st: Status): State {
    s.(statuses := s.statuses[j := st], rows := s.rows[j := Serialize(st)])
  }

  function OwnInput(c: Config, j: Id): Bytes {
    if j in c.wf.jobs && c.wf.jobs[j].input.Some? then c.wf.jobs[j].input.value else ""
  }

  function LaunchInput(c: Config, outputs: map<Id, Bytes>, j: Id): Bytes {
    var fanin := FaninInput(c.codec, c.wf.jobs, c.children, outputs, j);
    if fanin.Some? then fanin.value else OwnInput(c, j)
  }

  function Launch(s: State, j: Id, input: Bytes): State {
    Record(s, j, Running).(
      inFlight := s.inFlight + 1,
      flights := s.flights + multiset{Flight(j, input)},
      started := s.started + multiset{j})
  }

  function Skip(s: State, j: Id): State {
    Record(s, j, Skipped).(results := s.results + [JobResult(j, Passed)])
  }

  // -- Start of a run --------------------------------------------------------

  function Initial(c: Config): State {
    State(map j | j in c.wf.jobs :: Pending, map[], [], map[], 0, true, false, multiset{}, multiset{})
  }

  function Seed(c: Config, s: State, ids: seq<Id>): State {
    if ids == [] then s
    else
      var j := ids[|ids| - 1];
      var s' := Seed(c, s, ids[..|ids| - 1]);
      if j !in c.pre then s'
      else Record(s', j, Succeeded(c.pre[j])).(results := s'.results + [JobResult(j, Reused)])
  }

  function LaunchRoots(c: Config, s: State, ids: seq<Id>): State {
    if ids == [] then s
    else
      var j := ids[|ids| - 1];
      var s' := LaunchRoots(c, s, ids[..|ids| - 1]);
      if j in c.pre then s' else Launch(s', j, OwnInput(c, j))
  }

  predicate IsRoot(c: Config, j: Id) {
    j in c.dag.deps && c.dag.deps[j] == []
  }

  predicate AllReused(c: Config, j: Id) {
    forall d :: d in DepsAt(c, j) ==> d in c.pre
  }

  function LaunchReady(c: Config, s: State, ids: seq<Id>): State {
    if ids == [] then s
    else
      var j := ids[|ids| - 1];
      var s' := LaunchReady(c, s, ids[..|ids| - 1]);
      if j in c.pre || IsRoot(c, j) || !AllReused(c, j) then s'
      else Launch(s', j, LaunchInput(c, s'.outputs, j))
  }

  function Start(c: Config): State {
    LaunchReady(c, LaunchRoots(c, Seed(c, Initial(c), c.preOrder), c.rootOrder), c.wf.order)
  }

  // -- Releasing dependents --------------------------------------------------

  function PendingIn(s: State): set<Id> {
    set j | j in s.statuses && s.statuses[j].Pending?
  }

  predicate GuardHolds(c: Config, s: State, j: Id) {
    j in c.wf.jobs && c.wf.jobs[j].whenExpr.Some? && EvalWhen(c.wf.jobs[j].whenExpr.value, s.statuses)
  }

  predicate HasGuard(c: Config, j: Id) {
    j in c.wf.jobs && c.wf.jobs[j].whenExpr.Some?
  }

  /** The body of the cascade for one skipped job: look at each of its dependents,
      skip or launch the pending ones that are ready, return the ones skipped. */
  function CascadeInto(c: Config, s: State, ds: seq<Id>): (r: (State, seq<Id>))
    ensures PendingIn(r.0) <= PendingIn(s)
    ensures |PendingIn(r.0)| + |r.1| <= |PendingIn(s)|
  {
    if ds == [] then (s, [])
    else
      var (s', skipped) := CascadeInto(c, s, ds[..|ds| - 1]);
      var j := ds[|ds| - 1];
      if j in c.pre || !(j in s'.statuses && s'.statuses[j].Pending?) || !AllDone(c, s', j) then (s', skipped)
      else
        var s'' := if GuardHolds(c, s', j) then Launch(s', j, LaunchInput(c, s'.outputs, j)) else Skip(s', j);
        assert PendingIn(s'') == PendingIn(s') - {j};
        if GuardHolds(c, s', j) then (s'', skipped) else (s'', skipped + [j])
  }

  function Cascade(c: Config, s: State, queue: seq<Id>): State
    decreases |PendingIn(s)| + |queue|
  {
    if queue == [] then s
    else
      var (s', skipped) := CascadeInto(c, s, DependentsOf(c, queue[0]));
      Cascade(c, s', queue[1..] + skipped)
  }

  predicate ForeachChildFailed(c: Config, s: State, j: Id) {
    && j in c.wf.jobs && c.wf.jobs[j].inputFrom.Some? && c.wf.jobs[j].inputFrom.value in c.children
    && exists x :: x in c.children[c.wf.jobs[j].inputFrom.value] && StatusOf(s, x).Failed?
  }

  predicate ShouldSkip(c: Config, s: State, j: Id) {
    if HasGuard(c, j) then !GuardHolds(c, s, j)
    else exists d :: d in DepsAt(c, j) && StatusOf(s, d).Skipped?
  }

  /** One dependent of a job that has just succeeded.  As in the code, nothing
      checks that it is still pending. */
  function Release(c: Config, s: State, j: Id): State {
    if j in c.pre || !AllDone(c, s, j) then s
    else if ForeachChildFailed(c, s, j) then Record(s, j, Cancelled)
    else if ShouldSkip(c, s, j) then Cascade(c, Skip(s, j), [j])
    else Launch(s, j, LaunchInput(c, s.outputs, j))
  }

  function ReleaseAll(c: Config, s: State, ds: seq<Id>): State {
    if ds == [] then s else Release(c, ReleaseAll(c, s, ds[..|ds| - 1]), ds[|ds| - 1])
  }

  // -- One event -------------------------------------------------------------

  ghost predicate IsParent(c: Config, p: Id, j: Id) {
    p in c.children && j in c.children[p]
  }

  function CancelPending(s: State, ids: seq<Id>, except: Id): State {
    if ids == [] then s
    else
      var s' := CancelPending(s, ids[..|ids| - 1], except);
      var j := ids[|ids| - 1];
      if j != except && j in s'.statuses && (s'.statuses[j].Pending? || s'.statuses[j].Ready?)
      then Record(s', j, Cancelled) else s'
  }

  function Arrive(s: State, f: Flight, st: Status): State
    requires s.inFlight > 0
  {
    Record(s, f.job, st).(inFlight := s.inFlight - 1, flights := s.flights - multiset{f})
  }

  /** A failed job ends the loop unless it is a foreach child without fail_fast. */
  ghost function AfterFailure(c: Config, s: State, j: Id): State {
    if exists p :: IsParent(c, p, j) then
      var p :| IsParent(c, p, j);
      if p in c.wf.jobs && c.wf.jobs[p].failFast
      then CancelPending(s, c.children[p], j).(halted := true) else s
    else s.(halted := true)
  }

  /** The success arm before dependents are released. */
  function Succeed(s: State, f: Flight, elapsed: nat, bytes: Bytes): State
    requires s.inFlight > 0
  {
    Arrive(s, f, Succeeded(elapsed)).(
      outputs := s.outputs[f.job := bytes],
      results := s.results + [JobResult(f.job, Ran)])
  }

  /** The failure arm before it is decided whether the loop goes on. */
  function Fail(s: State, f: Flight, elapsed: nat, reason: string): State
    requires s.inFlight > 0
  {
    Arrive(s, f, Failed(elapsed, reason)).(
      success := false,
      results := s.results + [JobResult(f.job, Broke)])
  }

  ghost function Deliver(c: Config, s: State, f: Flight, elapsed: nat): State
    requires s.inFlight > 0
  {
    match c.run(f.job, f.input)
    case Output(bytes) =>
      var s' := Succeed(s, f, elapsed, bytes);
      if s'.success then ReleaseAll(c, s', DependentsOf(c, f.job)) else s'
    case Failure(reason) => AfterFailure(c, Fail(s, f, elapsed, reason), f.job)
  }

  // -- Runs ------------------------------------------------------------------

  predicate Looping(s: State) {
    s.inFlight > 0 && !s.halted
  }

  ghost predicate Step(c: Config, s: State, t: State) {
    Looping(s) && exists f: Flight, elapsed: nat :: f in s.flights && t == Deliver(c, s, f, elapsed)
  }

  /** t can be reached from s by exactly n events. */
  ghost predicate Steps(c: Config, s: State, t: State, n: nat)
    decreases n
  {
    if n == 0 then s == t else exists m :: Steps(c, s, m, n - 1) && Step(c, m, t)
  }

  ghost predicate Reachable(c: Config, s: State) {
    exists n: nat :: Steps(c, Start(c), s, n)
  }

  /** The loop has ended: nothing in flight, or a failure broke out of it. */
  ghost predicate Ended(c: Config, s: State) {
    Reachable(c, s) && !Looping(s)
  }
}
