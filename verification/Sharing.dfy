/** Many runs on one host: the caches are locked one access at a time, and the accesses of
    different runs interleave. */
module Sharing {
  import opened Collections
  import opened Caches

  /** How far a run has come: before the L1 look-up, the L2 look-up, the compilation, the L1
      insertion, the L0 look-up, the linking with its insertion, or at its end. */
  datatype Stage =
    | AtMemory
    | AtDisk
    | AtCompile
    | AtInsert(component: Component)
    | AtLinked(component: Component)
    | AtLink(component: Component)
    | Over(result: Option<(Component, Linked)>)

  datatype Task = Task(use: Use, writable: bool, stage: Stage)

  function Rank(s: Stage): nat {
    match s
    case AtMemory => 6
    case AtDisk => 5
    case AtCompile => 4
    case AtInsert(_) => 3
    case AtLinked(_) => 2
    case AtLink(_) => 1
    case Over(_) => 0
  }

  /** One access. */
  function Access(m: Machine, h: Host, t: Task): (r: (Host, Task))
    ensures r.1.use == t.use && r.1.writable == t.writable
    ensures !t.stage.Over? ==> Rank(r.1.stage) < Rank(t.stage)
  {
    var k := KeyOf(m, t.use);
    match t.stage
    case AtMemory =>
      var found := Find(h.mem, k);
      if found.Some? then (h.(mem := Touch(h.mem, k)), t.(stage := AtLinked(found.value))) else (h, t.(stage := AtDisk))
    case AtDisk =>
      var (disk, found) := Load(h.disk, k);
      (h.(disk := disk), t.(stage := if found.Some? then AtInsert(found.value) else AtCompile))
    case AtCompile =>
      var (disk, made) := Store(m, h.disk, k, t.use.1, t.writable);
      (h.(disk := disk), t.(stage := if made.Some? then AtInsert(made.value) else Over(None)))
    case AtInsert(c) => (h.(mem := Put(h.mem, MEM_CACHE_CAP, k, c)), t.(stage := AtLinked(c)))
    case AtLinked(c) =>
      var found := Find(h.pre, k);
      if found.Some? then (h.(pre := Touch(h.pre, k)), t.(stage := Over(Some((c, found.value)))))
      else (h, t.(stage := AtLink(c)))
    case AtLink(c) =>
      if m.links(c) then (h.(pre := Put(h.pre, PRE_CACHE_CAP, k, Pre(c))), t.(stage := Over(Some((c, Pre(c))))))
      else (h, t.(stage := Over(None)))
    case Over(_) => (h, t)
  }

  /** All the accesses of one run, undisturbed. */
  function Alone(m: Machine, h: Host, t: Task): (Host, Task)
    decreases Rank(t.stage)
  {
    if t.stage.Over? then (h, t)
    else
      var (h', t') := Access(m, h, t);
      Alone(m, h', t')
  }

  lemma LinkAlone(m: Machine, h: Host, u: Use, writable: bool, c: Component)
    ensures var (h', p) := Link(m, h, KeyOf(m, u), c);
            Alone(m, h, Task(u, writable, AtLinked(c)))
              == (h', Task(u, writable, Over(if p.None? then None else Some((c, p.value)))))
  {
    var (h1, t1) := Access(m, h, Task(u, writable, AtLinked(c)));
    var (h2, t2) := Access(m, h1, t1);
    assert Alone(m, h1, t1) == if t1.stage.Over? then (h1, t1) else Alone(m, h2, t2);
  }

  lemma InsertAlone(m: Machine, h: Host, u: Use, writable: bool, c: Component)
    ensures Alone(m, h, Task(u, writable, AtInsert(c))) ==
        Alone(m, h.(mem := Put(h.mem, MEM_CACHE_CAP, KeyOf(m, u), c)), Task(u, writable, AtLinked(c)))
  {
  }

  lemma CompileAlone(m: Machine, h: Host, u: Use, writable: bool)
    ensures var (disk, made) := Store(m, h.disk, KeyOf(m, u), u.1, writable);
            Alone(m, h, Task(u, writable, AtCompile)) ==
              if made.None? then (h.(disk := disk), Task(u, writable, Over(None)))
              else Alone(m, h.(disk := disk), Task(u, writable, AtInsert(made.value)))
  {
  }

  /** Undisturbed, a run does what `RunWithKey` says. */
  lemma AloneIsRunWithKey(m: Machine, h: Host, u: Use, writable: bool)
    ensures var (h', r) := RunWithKey(m, h, u.0, u.1, writable);
            Alone(m, h, Task(u, writable, AtMemory)) == (h', Task(u, writable, Over(r)))
  {
    hide Find, Touch, Put, Load, Store;
    var k := KeyOf(m, u);
    assert k == AsStrKey(m, u.0, u.1);
    hide AsStrKey, KeyOf;
    var found := Find(h.mem, k);
    if found.Some? {
      LinkAlone(m, h.(mem := Touch(h.mem, k)), u, writable, found.value);
    } else {
      var (disk, loaded) := Load(h.disk, k);
      var h1 := h.(disk := disk);
      assert Alone(m, h, Task(u, writable, AtMemory)) == Alone(m, h, Task(u, writable, AtDisk));
      if loaded.Some? {
        InsertAlone(m, h1, u, writable, loaded.value);
        LinkAlone(m, h1.(mem := Put(h.mem, MEM_CACHE_CAP, k, loaded.value)), u, writable, loaded.value);
      } else {
        CompileAlone(m, h1, u, writable);
        var (disk', made) := Store(m, disk, k, u.1, writable);
        if made.Some? {
          var h2 := h1.(disk := disk');
          InsertAlone(m, h2, u, writable, made.value);
          LinkAlone(m, h2.(mem := Put(h.mem, MEM_CACHE_CAP, k, made.value)), u, writable, made.value);
        }
      }
    }
  }

  // -- Any interleaving ------------------------------------------------------

  datatype Event =
    | Begin(use: Use, writable: bool)
    | Advance(task: nat)
    | Tamper(file: string)
    | Delete(file: string)

  datatype System = System(host: Host, tasks: seq<Task>)

  function Happen(m: Machine, s: System, e: Event): System {
    match e
    case Begin(use, writable) => s.(tasks := s.tasks + [Task(use, writable, AtMemory)])
    case Advance(i) =>
      if i >= |s.tasks| then s
      else
        var (h, t) := Access(m, s.host, s.tasks[i]);
        System(h, s.tasks[i := t])
    case Tamper(f) => if f in s.host.disk then s.(host := s.host.(disk := s.host.disk[f := Corrupt])) else s
    case Delete(f) => s.(host := s.host.(disk := s.host.disk - {f}))
  }

  function After(m: Machine, events: seq<Event>): System {
    if events == [] then System(Host([], [], map[]), [])
    else Happen(m, After(m, events[..|events| - 1]), events[|events| - 1])
  }

  ghost predicate Within(uses: iset<Use>, events: seq<Event>) {
    forall e :: e in events && e.Begin? ==> e.use in uses
  }

  /** What a task holds comes from a use with its key. */
  ghost predicate Holds(m: Machine, uses: iset<Use>, t: Task) {
    && t.use in uses
    && match t.stage
       case AtInsert(c) => Source(m, uses, KeyOf(m, t.use), c.source)
       case AtLinked(c) => Source(m, uses, KeyOf(m, t.use), c.source)
       case AtLink(c) => Source(m, uses, KeyOf(m, t.use), c.source)
       case Over(Some(r)) =>
         && Source(m, uses, KeyOf(m, t.use), r.0.source)
         && Source(m, uses, KeyOf(m, t.use), r.1.component.source) && m.links(r.1.component)
       case _ => true
  }

  /** A run that has ended without a result could not have had one. */
  ghost predicate Excused(m: Machine, uses: iset<Use>, t: Task) {
    t.stage == Over(None) ==>
      || !m.compiles(t.use.1) || !t.writable
      || exists w :: Source(m, uses, KeyOf(m, t.use), w) && !m.links(Compiled(w))
  }

  ghost predicate Sane(m: Machine, uses: iset<Use>, s: System) {
    Filed(m, uses, s.host) && forall t :: t in s.tasks ==> Holds(m, uses, t) && Excused(m, uses, t)
  }

  /** Every single access, whatever happened since the one before, keeps all entries under
      a key they were used with, and hands the run such an entry. */
  lemma AccessSane(m: Machine, uses: iset<Use>, h: Host, t: Task)
    requires Filed(m, uses, h) && Holds(m, uses, t) && Excused(m, uses, t)
    ensures var (h', t') := Access(m, h, t); Filed(m, uses, h') && Holds(m, uses, t') && Excused(m, uses, t')
  {
    if t.stage.AtLinked? || t.stage.AtLink? { LinkSane(m, uses, h, t); } else { CompileSane(m, uses, h, t); }
  }

  lemma CompileSane(m: Machine, uses: iset<Use>, h: Host, t: Task)
    requires Filed(m, uses, h) && Holds(m, uses, t) && Excused(m, uses, t) && !t.stage.AtLinked? && !t.stage.AtLink?
    ensures var (h', t') := Access(m, h, t); Filed(m, uses, h') && Holds(m, uses, t') && Excused(m, uses, t')
  {
    var k := KeyOf(m, t.use);
    if m.compiles(t.use.1) { UseIsSource(m, uses, t.use); }
    hide Source, KeyOf, Find, Touch, Put;
    match t.stage
    case AtMemory =>
      FindEntry(h.mem, k);
      TouchKeeps(h.mem, k);
    case AtDisk =>
    case AtCompile =>
    case AtInsert(c) => PutKeeps(h.mem, MEM_CACHE_CAP, k, c);
    case Over(_) =>
  }

  lemma LinkSane(m: Machine, uses: iset<Use>, h: Host, t: Task)
    requires Filed(m, uses, h) && Holds(m, uses, t) && (t.stage.AtLinked? || t.stage.AtLink?)
    ensures var (h', t') := Access(m, h, t); Filed(m, uses, h') && Holds(m, uses, t') && Excused(m, uses, t')
  {
    var k := KeyOf(m, t.use);
    hide Source, KeyOf, Find, Touch, Put, Load, Store;
    match t.stage
    case AtLinked(c) =>
      FindEntry(h.pre, k);
      TouchKeeps(h.pre, k);
    case AtLink(c) =>
      PutKeeps(h.pre, PRE_CACHE_CAP, k, Pre(c));
      assert c == Compiled(c.source);
  }

  lemma HappenSane(m: Machine, uses: iset<Use>, s: System, e: Event)
    requires Sane(m, uses, s) && (e.Begin? ==> e.use in uses)
    ensures Sane(m, uses, Happen(m, s, e))
  {
    hide Access, Source, KeyOf;
    if e.Advance? && e.task < |s.tasks| { AccessSane(m, uses, s.host, s.tasks[e.task]); }
  }

  lemma {:induction false} AlwaysSane(m: Machine, uses: iset<Use>, events: seq<Event>)
    requires Within(uses, events)
    ensures Sane(m, uses, After(m, events))
  {
    hide Happen, Holds, Excused, Source;
    if events != [] {
      AlwaysSane(m, uses, events[..|events| - 1]);
      HappenSane(m, uses, After(m, events[..|events| - 1]), events[|events| - 1]);
    }
  }

  /** However the accesses of any number of runs are interleaved, with files corrupted and
      deleted in between, every run that has ended got what it should. */
  ghost predicate AlwaysRightTogether(m: Machine, uses: iset<Use>) {
    forall events, t :: Within(uses, events) && t in After(m, events).tasks && t.stage.Over? ==>
      Right(m, t.use.1, t.writable, t.stage.result)
  }

  lemma OverIsRight(m: Machine, uses: iset<Use>, t: Task)
    requires Consistent(m, uses) && Holds(m, uses, t) && Excused(m, uses, t) && t.stage.Over?
    ensures Right(m, t.use.1, t.writable, t.stage.result)
  {
    hide Consistent, KeyOf;
    match t.stage.result
    case Some(r) =>
      SourceIsRunnable(m, uses, t.use, r.0.source);
      SourceIsRunnable(m, uses, t.use, r.1.component.source);
      assert r.0 == Compiled(r.0.source) && r.1 == Pre(Compiled(r.1.component.source));
    case None =>
      if w :| Source(m, uses, KeyOf(m, t.use), w) && !m.links(Compiled(w)) { SourceIsRunnable(m, uses, t.use, w); }
  }

  // -- The other direction ---------------------------------------------------

  /** Let one run go on until it ends. */
  lemma {:induction false} Drive(m: Machine, uses: iset<Use>, events: seq<Event>, i: nat) returns (more: seq<Event>)
    requires Within(uses, events) && i < |After(m, events).tasks|
    ensures Within(uses, more)
    ensures var s := After(m, events); var (h, t) := Alone(m, s.host, s.tasks[i]);
            After(m, more) == System(h, s.tasks[i := t])
    decreases Rank(After(m, events).tasks[i].stage)
  {
    hide Access;
    var s := After(m, events);
    more := events;
    if s.tasks[i].stage.Over? {
      assert s.tasks[i := s.tasks[i]] == s.tasks;
    } else {
      var next := events + [Advance(i)];
      assert next[..|events|] == events;
      var (h, t) := Access(m, s.host, s.tasks[i]);
      assert After(m, next) == System(h, s.tasks[i := t]);
      assert Within(uses, next);
      more := Drive(m, uses, next, i);
      assert s.tasks[i := t][i := Alone(m, h, t).1] == s.tasks[i := Alone(m, h, t).1];
    }
  }

  /** One more run, undisturbed. */
  lemma BeginAndEnd(m: Machine, uses: iset<Use>, events: seq<Event>, u: Use) returns (more: seq<Event>)
    requires Within(uses, events) && u in uses
    ensures Within(uses, more)
    ensures var (h, r) := RunWithKey(m, After(m, events).host, u.0, u.1, true);
            After(m, more).host == h && Task(u, true, Over(r)) in After(m, more).tasks
  {
    hide RunWithKey, Alone;
    var s := After(m, events);
    var next := events + [Begin(u, true)];
    assert next[..|events|] == events;
    assert After(m, next) == s.(tasks := s.tasks + [Task(u, true, AtMemory)]);
    assert Within(uses, next);
    more := Drive(m, uses, next, |s.tasks|);
    AloneIsRunWithKey(m, s.host, u, true);
    var (h, r) := RunWithKey(m, s.host, u.0, u.1, true);
    assert After(m, more).tasks[|s.tasks|] == Task(u, true, Over(r));
  }

  /** Interleaving costs nothing: runs side by side are all right under exactly the condition
      under which runs one after the other are. */
  lemma TransparentTogetherExactly(m: Machine, uses: iset<Use>)
    ensures AlwaysRightTogether(m, uses) <==> Consistent(m, uses)
  {
    hide After, RunWithKey, KeyOf, Filed, Holds, Excused;
    if Consistent(m, uses) {
      hide Consistent, Within, Right;
      forall events, t | Within(uses, events) && t in After(m, events).tasks && t.stage.Over?
        ensures Right(m, t.use.1, t.writable, t.stage.result)
      {
        AlwaysSane(m, uses, events);
        OverIsRight(m, uses, t);
      }
    } else {
      var a, b :| a in uses && b in uses && KeyOf(m, a) == KeyOf(m, b)
               && m.compiles(a.1) && m.links(Compiled(a.1)) && a.1 != b.1;
      OneAfterTheOther(m, uses, a, b);
    }
  }

  lemma OneAfterTheOther(m: Machine, uses: iset<Use>, a: Use, b: Use)
    requires a in uses && b in uses && KeyOf(m, a) == KeyOf(m, b)
    requires m.compiles(a.1) && m.links(Compiled(a.1)) && a.1 != b.1
    ensures !AlwaysRightTogether(m, uses)
  {
    SharedKeyServesTheWrongComponent(m, a, b);
    FirstRun(m, a);
    assert After(m, []) == System(Host([], [], map[]), []);
    hide After, RunWithKey, KeyOf, History;
    var first := BeginAndEnd(m, uses, [], a);
    var events := BeginAndEnd(m, uses, first, b);
    var t := Task(b, true, Over(Some((Compiled(a.1), Pre(Compiled(a.1))))));
    assert t in After(m, events).tasks && !Right(m, t.use.1, t.writable, t.stage.result);
  }

  lemma FirstRun(m: Machine, a: Use)
    ensures History(m, [Run(a.0, a.1, true)]) == RunWithKey(m, Host([], [], map[]), a.0, a.1, true).0
  {
    hide RunWithKey;
    var op := Run(a.0, a.1, true);
    assert [op][..0] == [];
  }
}
