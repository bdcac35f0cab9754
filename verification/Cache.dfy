/** The three component caches: linked components (L0) and compiled components (L1) in
    bounded LRU memory, artifacts on disk (L2). */
module Caches {
  import opened Collections

  type Wasm = string

  // -- LRU caches ------------------------------------------------------------

  /** Most recently used first. */
  type Lru<V> = seq<(string, V)>

  function Find<V>(c: Lru<V>, k: string): Option<V> {
    if c == [] then None else if c[0].0 == k then Some(c[0].1) else Find(c[1..], k)
  }

  function Without<V>(c: Lru<V>, k: string): (r: Lru<V>)
    ensures |r| <= |c|
  {
    if c == [] then [] else if c[0].0 == k then Without(c[1..], k) else [c[0]] + Without(c[1..], k)
  }

  /** `get` on a hit: move to the front. */
  function Touch<V>(c: Lru<V>, k: string): Lru<V> {
    match Find(c, k)
    case None => c
    case Some(v) => [(k, v)] + Without(c, k)
  }

  /** `put`: the new entry in front, the least recently used one dropped when full. */
  function Put<V>(c: Lru<V>, cap: nat, k: string, v: V): (r: Lru<V>)
    requires cap > 0
    ensures |r| <= cap
  {
    var rest := Without(c, k);
    [(k, v)] + if |rest| < cap then rest else rest[..cap - 1]
  }

  lemma {:induction false} WithoutMember<V>(c: Lru<V>, k: string, e: (string, V))
    ensures e in Without(c, k) <==> e in c && e.0 != k
  {
    if c != [] {
      WithoutMember(c[1..], k, e);
      assert c == [c[0]] + c[1..];
    }
  }

  lemma {:induction false} WithoutShorter<V>(c: Lru<V>, k: string)
    requires k in Keys(c)
    ensures |Without(c, k)| < |c|
  {
    assert c == [c[0]] + c[1..];
    if c[0].0 != k { WithoutShorter(c[1..], k); }
  }

  ghost function Keys<V>(c: Lru<V>): set<string> {
    set e | e in c :: e.0
  }

  lemma {:induction false} FindEntry<V>(c: Lru<V>, k: string)
    ensures Find(c, k).Some? <==> k in Keys(c)
    ensures Find(c, k).Some? ==> (k, Find(c, k).value) in c
  {
    if c != [] {
      FindEntry(c[1..], k);
      assert c == [c[0]] + c[1..];
    }
  }

  lemma TouchKeeps<V>(c: Lru<V>, k: string)
    ensures |Touch(c, k)| <= |c| && forall e :: e in Touch(c, k) ==> e in c
  {
    FindEntry(c, k);
    if Find(c, k).Some? {
      WithoutShorter(c, k);
      forall e | e in Touch(c, k) ensures e in c { WithoutMember(c, k, e); }
    }
  }

  lemma PutKeeps<V>(c: Lru<V>, cap: nat, k: string, v: V)
    requires cap > 0
    ensures forall e :: e in Put(c, cap, k, v) ==> e == (k, v) || e in c
    ensures Find(Put(c, cap, k, v), k) == Some(v)
  {
    forall e | e in Put(c, cap, k, v) ensures e == (k, v) || e in c { WithoutMember(c, k, e); }
  }

  /** Looking an entry up changes nothing that can be found. */
  lemma {:induction false} WithoutFind<V>(c: Lru<V>, k: string, x: string)
    ensures Find(Without(c, k), x) == if x == k then None else Find(c, x)
  {
    if c != [] {
      WithoutFind(c[1..], k, x);
      assert c[0].0 != k ==> Without(c, k)[0] == c[0] && Without(c, k)[1..] == Without(c[1..], k);
    }
  }

  lemma TouchTransparent<V>(c: Lru<V>, k: string, x: string)
    ensures Find(Touch(c, k), x) == Find(c, x)
    ensures Find(c, k).Some? ==> Touch(c, k)[0] == (k, Find(c, k).value) && Touch(c, k)[1..] == Without(c, k)
  {
    WithoutFind(c, k, x);
  }

  /** Only the least recently used entries can be missing after an insertion. */
  lemma PutEvictsOldest<V>(c: Lru<V>, cap: nat, k: string, v: V, x: string)
    requires cap > 0
    ensures Put(c, cap, k, v)[0] == (k, v) && Put(c, cap, k, v)[1..] <= Without(c, k)
    ensures |Without(c, k)| < cap ==> Find(Put(c, cap, k, v), x) == if x == k then Some(v) else Find(c, x)
    ensures |Without(c, k)| >= cap ==> |Put(c, cap, k, v)| == cap
  {
    WithoutFind(c, k, x);
  }

  // -- Components ------------------------------------------------------------

  /** Compiling is deterministic: a component is its source, compiled. */
  datatype Component = Compiled(source: Wasm)

  datatype Linked = Pre(component: Component)

  /** A file of the disk cache; wasmtime rejects a stale or corrupt one. */
  datatype Artifact = Intact(component: Component) | Corrupt

  datatype CacheKey = Path(path: string) | Digest(digest: string)

  const PREFIX := "sha256:"
  const MEM_CACHE_CAP := 64
  const PRE_CACHE_CAP := 64

  datatype Machine = Machine(sha: Wasm -> string, compiles: Wasm -> bool, links: Component -> bool)

  datatype Host = Host(mem: Lru<Component>, pre: Lru<Linked>, disk: map<string, Artifact>)

  function StripPrefix(d: string): string {
    if |PREFIX| <= |d| && d[..|PREFIX|] == PREFIX then d[|PREFIX|..] else d
  }

  /** `CacheKey::as_str_key` */
  function AsStrKey(m: Machine, key: CacheKey, wasm: Wasm): string {
    match key
    case Digest(d) => StripPrefix(d)
    case Path(_) => m.sha(wasm)
  }

  /** `load_by_key`: a rejected file is deleted. */
  function Load(disk: map<string, Artifact>, k: string): (map<string, Artifact>, Option<Component>) {
    if k !in disk then (disk, None)
    else match disk[k]
      case Intact(c) => (disk, Some(c))
      case Corrupt => (disk - {k}, None)
  }

  /** `store_by_key`: compile and write; None if either fails. */
  function Store(m: Machine, disk: map<string, Artifact>, k: string, wasm: Wasm, writable: bool)
    : (map<string, Artifact>, Option<Component>)
  {
    if !m.compiles(wasm) || !writable then (disk, None)
    else (disk[k := Intact(Compiled(wasm))], Some(Compiled(wasm)))
  }

  /** The compile phase: L1, then L2, then a full compile. */
  function Compile(m: Machine, h: Host, k: string, wasm: Wasm, writable: bool): (Host, Option<Component>) {
    match Find(h.mem, k)
    case Some(c) => (h.(mem := Touch(h.mem, k)), Some(c))
    case None =>
      var (disk, loaded) := Load(h.disk, k);
      var (disk', made) := if loaded.Some? then (disk, loaded) else Store(m, disk, k, wasm, writable);
      if made.None? then (h.(disk := disk'), None)
      else (h.(disk := disk', mem := Put(h.mem, MEM_CACHE_CAP, k, made.value)), made)
  }

  /** The instantiate phase: L0, then link. */
  function Link(m: Machine, h: Host, k: string, c: Component): (Host, Option<Linked>) {
    match Find(h.pre, k)
    case Some(p) => (h.(pre := Touch(h.pre, k)), Some(p))
    case None =>
      if !m.links(c) then (h, None)
      else (h.(pre := Put(h.pre, PRE_CACHE_CAP, k, Pre(c))), Some(Pre(c)))
  }

  /** The component and the linked component a run uses; None if the run fails first. */
  function RunWithKey(m: Machine, h: Host, key: CacheKey, wasm: Wasm, writable: bool)
    : (Host, Option<(Component, Linked)>)
  {
    var k := AsStrKey(m, key, wasm);
    var (h1, c) := Compile(m, h, k, wasm, writable);
    if c.None? then (h1, None)
    else
      var (h2, p) := Link(m, h1, k, c.value);
      if p.None? then (h2, None) else (h2, Some((c.value, p.value)))
  }

  // -- What is filed under a key ---------------------------------------------

  /** One run: the key it is given and the bytes. */
  type Use = (CacheKey, Wasm)

  function KeyOf(m: Machine, u: Use): string {
    AsStrKey(m, u.0, u.1)
  }

  /** w is what some use with key k compiles. */
  ghost predicate Source(m: Machine, uses: iset<Use>, k: string, w: Wasm) {
    m.compiles(w) && exists u :: u in uses && KeyOf(m, u) == k && u.1 == w
  }

  /** Everything cached under a key comes from a use with that key; memory is bounded. */
  ghost predicate Filed(m: Machine, uses: iset<Use>, h: Host) {
    && |h.mem| <= MEM_CACHE_CAP && |h.pre| <= PRE_CACHE_CAP
    && (forall e :: e in h.mem ==> Source(m, uses, e.0, e.1.source))
    && (forall e :: e in h.pre ==> Source(m, uses, e.0, e.1.component.source) && m.links(e.1.component))
    && (forall k :: k in h.disk && h.disk[k].Intact? ==> Source(m, uses, k, h.disk[k].component.source))
  }

  lemma UseIsSource(m: Machine, uses: iset<Use>, u: Use)
    requires u in uses && m.compiles(u.1)
    ensures Source(m, uses, KeyOf(m, u), u.1)
  {
  }

  lemma CompileFiled(m: Machine, uses: iset<Use>, h: Host, u: Use, writable: bool)
    requires Filed(m, uses, h) && u in uses
    ensures var (h', c) := Compile(m, h, KeyOf(m, u), u.1, writable);
            && Filed(m, uses, h') && h'.pre == h.pre
            && (c.Some? ==> Source(m, uses, KeyOf(m, u), c.value.source))
            && (m.compiles(u.1) && writable ==> c.Some?)
  {
    var k := KeyOf(m, u);
    if m.compiles(u.1) { UseIsSource(m, uses, u); }
    hide Source, KeyOf;
    FindEntry(h.mem, k);
    TouchKeeps(h.mem, k);
    if Find(h.mem, k).None? {
      var (_, made) := Compile(m, h, k, u.1, writable);
      if made.Some? { PutKeeps(h.mem, MEM_CACHE_CAP, k, made.value); }
    }
  }

  lemma LinkFiled(m: Machine, uses: iset<Use>, h: Host, k: string, c: Component)
    requires Filed(m, uses, h) && Source(m, uses, k, c.source)
    ensures var (h', p) := Link(m, h, k, c);
            && Filed(m, uses, h')
            && (p.Some? ==> Source(m, uses, k, p.value.component.source) && m.links(p.value.component))
            && (m.links(c) ==> p.Some?)
  {
    hide Source;
    FindEntry(h.pre, k);
    TouchKeeps(h.pre, k);
    PutKeeps(h.pre, PRE_CACHE_CAP, k, Pre(c));
  }

  // -- When the caches are transparent ---------------------------------------

  /** Uses with the same key are uses of the same component, unless none of them would run. */
  ghost predicate Consistent(m: Machine, uses: iset<Use>) {
    forall a, b :: a in uses && b in uses && KeyOf(m, a) == KeyOf(m, b) && m.compiles(a.1) && m.links(Compiled(a.1))
      ==> a.1 == b.1
  }

  /** What a run should use: a fresh compile of its bytes, whenever that would run. */
  ghost predicate Right(m: Machine, w: Wasm, writable: bool, r: Option<(Component, Linked)>) {
    && (r.Some? ==> r.value == (Compiled(w), Pre(Compiled(w))) && m.compiles(w) && m.links(Compiled(w)))
    && (m.compiles(w) && m.links(Compiled(w)) && writable ==> r.Some?)
  }

  lemma SourceIsRunnable(m: Machine, uses: iset<Use>, u: Use, w: Wasm)
    requires Consistent(m, uses) && u in uses && Source(m, uses, KeyOf(m, u), w)
    ensures m.links(Compiled(w)) ==> w == u.1
    ensures m.compiles(u.1) && m.links(Compiled(u.1)) ==> w == u.1
  {
    var a :| a in uses && KeyOf(m, a) == KeyOf(m, u) && a.1 == w;
    hide KeyOf;
  }

  lemma RunRight(m: Machine, uses: iset<Use>, h: Host, u: Use, writable: bool)
    requires Filed(m, uses, h) && u in uses
    ensures Filed(m, uses, RunWithKey(m, h, u.0, u.1, writable).0)
    ensures Consistent(m, uses) ==> Right(m, u.1, writable, RunWithKey(m, h, u.0, u.1, writable).1)
  {
    var k := KeyOf(m, u);
    assert k == AsStrKey(m, u.0, u.1);
    hide Filed, Source, Consistent, Compile, Link, KeyOf, AsStrKey;
    CompileFiled(m, uses, h, u, writable);
    var (h1, c) := Compile(m, h, k, u.1, writable);
    if c.Some? {
      LinkFiled(m, uses, h1, k, c.value);
      var (h2, p) := Link(m, h1, k, c.value);
      assert RunWithKey(m, h, u.0, u.1, writable) == (h2, if p.None? then None else Some((c.value, p.value)));
      if Consistent(m, uses) {
        assert c.value == Compiled(c.value.source);
        SourceIsRunnable(m, uses, u, c.value.source);
        SourceCompiles(m, uses, k, c.value.source);
        if p.Some? {
          assert p.value == Pre(Compiled(p.value.component.source));
          SourceIsRunnable(m, uses, u, p.value.component.source);
          SourceCompiles(m, uses, k, p.value.component.source);
        }
      }
    }
  }

  lemma SourceCompiles(m: Machine, uses: iset<Use>, k: string, w: Wasm)
    requires Source(m, uses, k, w)
    ensures m.compiles(w)
  {
  }

  // -- Any history of runs and accidents -------------------------------------

  datatype Op =
    | Run(key: CacheKey, wasm: Wasm, writable: bool)
    | Tamper(file: string)
    | Delete(file: string)

  function Apply(m: Machine, h: Host, op: Op): Host {
    match op
    case Run(key, wasm, writable) => RunWithKey(m, h, key, wasm, writable).0
    case Tamper(f) => if f in h.disk then h.(disk := h.disk[f := Corrupt]) else h
    case Delete(f) => h.(disk := h.disk - {f})
  }

  function History(m: Machine, ops: seq<Op>): Host {
    if ops == [] then Host([], [], map[]) else Apply(m, History(m, ops[..|ops| - 1]), ops[|ops| - 1])
  }

  /** Every run of the history is one of the uses. */
  ghost predicate Over(uses: iset<Use>, ops: seq<Op>) {
    forall op :: op in ops && op.Run? ==> (op.key, op.wasm) in uses
  }

  lemma {:induction false} HistoryFiled(m: Machine, uses: iset<Use>, ops: seq<Op>)
    requires Over(uses, ops)
    ensures Filed(m, uses, History(m, ops))
  {
    if ops != [] {
      HistoryFiled(m, uses, ops[..|ops| - 1]);
      var h, op := History(m, ops[..|ops| - 1]), ops[|ops| - 1];
      hide Source, Consistent, Right, RunWithKey;
      if op.Run? { RunRight(m, uses, h, (op.key, op.wasm), op.writable); }
    }
  }

  /** Whatever was run, evicted, corrupted or deleted before, every use gets what it should. */
  ghost predicate AlwaysRight(m: Machine, uses: iset<Use>) {
    forall ops, u, writable :: Over(uses, ops) && u in uses ==>
      Right(m, u.1, writable, RunWithKey(m, History(m, ops), u.0, u.1, writable).1)
  }

  /** Two different components run under one key: the second run executes the first. */
  lemma SharedKeyServesTheWrongComponent(m: Machine, a: Use, b: Use)
    requires KeyOf(m, a) == KeyOf(m, b) && m.compiles(a.1) && m.links(Compiled(a.1))
    ensures var h := History(m, [Run(a.0, a.1, true)]);
            RunWithKey(m, h, b.0, b.1, true).1 == Some((Compiled(a.1), Pre(Compiled(a.1))))
  {
    var k := KeyOf(m, a);
    var op := Run(a.0, a.1, true);
    assert [op][..0] == [];
    PutKeeps<Component>([], MEM_CACHE_CAP, k, Compiled(a.1));
    PutKeeps<Linked>([], PRE_CACHE_CAP, k, Pre(Compiled(a.1)));
  }

  /** The caches are transparent for a set of uses, after every history of them, exactly if
      no key is shared by different components of which one would run. */
  lemma TransparentExactly(m: Machine, uses: iset<Use>)
    ensures AlwaysRight(m, uses) <==> Consistent(m, uses)
  {
    hide History, RunWithKey, KeyOf, Filed;
    if Consistent(m, uses) {
      hide Consistent, Over, Right;
      forall ops, u, writable | Over(uses, ops) && u in uses
        ensures Right(m, u.1, writable, RunWithKey(m, History(m, ops), u.0, u.1, writable).1)
      {
        HistoryFiled(m, uses, ops);
        RunRight(m, uses, History(m, ops), u, writable);
      }
    } else {
      var a, b :| a in uses && b in uses && KeyOf(m, a) == KeyOf(m, b)
                && m.compiles(a.1) && m.links(Compiled(a.1)) && a.1 != b.1;
      var ops := [Run(a.0, a.1, true)];
      SharedKeyServesTheWrongComponent(m, a, b);
      assert Over(uses, ops);
      assert !Right(m, b.1, true, RunWithKey(m, History(m, ops), b.0, b.1, true).1);
    }
  }

  /** Both memory caches stay within capacity, whatever the keys. */
  lemma CapacityKept(m: Machine, ops: seq<Op>)
    ensures |History(m, ops).mem| <= MEM_CACHE_CAP && |History(m, ops).pre| <= PRE_CACHE_CAP
  {
    var all: iset<Use> := iset u: Use | |KeyOf(m, u)| >= 0;
    assert Over(all, ops);
    HistoryFiled(m, all, ops);
  }

  /** The capacity is 64: never more, and up to there nothing is dropped. */
  lemma SixtyFourEntries(m: Machine, ops: seq<Op>, u: Use, writable: bool, x: string)
    ensures |History(m, ops).mem| <= 64 && |History(m, ops).pre| <= 64
    ensures var h := History(m, ops); var h' := RunWithKey(m, h, u.0, u.1, writable).0;
            && (|h.mem| < 64 && Find(h.mem, x).Some? ==> Find(h'.mem, x) == Find(h.mem, x))
            && (|h.pre| < 64 && Find(h.pre, x).Some? ==> Find(h'.pre, x) == Find(h.pre, x))
  {
    CapacityKept(m, ops);
    var h, k := History(m, ops), AsStrKey(m, u.0, u.1);
    hide History, Compile, Link, RunWithKey, AsStrKey;
    RunParts(m, h, u.0, u.1, writable);
    CompileDropsNothing(m, h, k, u.1, writable, x);
    var (h1, c) := Compile(m, h, k, u.1, writable);
    CompileStays(m, h, k, u.1, writable);
    if c.Some? {
      LinkStays(m, h1, k, c.value);
      LinkDropsNothing(m, h1, k, c.value, x);
    }
  }

  lemma CompileDropsNothing(m: Machine, h: Host, k: string, w: Wasm, writable: bool, x: string)
    ensures |h.mem| < 64 && Find(h.mem, x).Some? ==> Find(Compile(m, h, k, w, writable).0.mem, x) == Find(h.mem, x)
  {
    TouchTransparent(h.mem, k, x);
    var c := Compile(m, h, k, w, writable).1;
    if c.Some? { PutEvictsOldest(h.mem, MEM_CACHE_CAP, k, c.value, x); }
    hide Find, Without, Put, Touch;
  }

  lemma LinkDropsNothing(m: Machine, h: Host, k: string, c: Component, x: string)
    ensures |h.pre| < 64 && Find(h.pre, x).Some? ==> Find(Link(m, h, k, c).0.pre, x) == Find(h.pre, x)
  {
    TouchTransparent(h.pre, k, x);
    PutEvictsOldest(h.pre, PRE_CACHE_CAP, k, Pre(c), x);
    hide Find, Without, Put, Touch;
  }

  // -- What the caches are for -----------------------------------------------

  lemma LinkStays(m: Machine, h: Host, k: string, c: Component)
    ensures var (h', p) := Link(m, h, k, c);
            && h'.mem == h.mem && h'.disk == h.disk && (p.Some? ==> Find(h'.pre, k) == p)
  {
    hide Without;
    TouchTransparent(h.pre, k, k);
    PutKeeps(h.pre, PRE_CACHE_CAP, k, Pre(c));
  }

  lemma CompileStays(m: Machine, h: Host, k: string, w: Wasm, writable: bool)
    ensures var (h', c) := Compile(m, h, k, w, writable);
            && h'.pre == h.pre && (c.Some? ==> Find(h'.mem, k) == c)
            && (c.Some? && Find(h.mem, k).None? ==> k in h'.disk && h'.disk[k] == Intact(c.value))
            && (Find(h.mem, k).None? && k in h'.disk ==> h'.disk[k].Intact?)
            && (Find(h.mem, k).Some? ==> h'.disk == h.disk && c == Find(h.mem, k))
            && (Find(h.mem, k).None? && k in h.disk && h.disk[k].Intact? ==> c == Some(h.disk[k].component))
  {
    hide Without;
    TouchTransparent(h.mem, k, k);
    var c := Compile(m, h, k, w, writable).1;
    if c.Some? { PutKeeps(h.mem, MEM_CACHE_CAP, k, c.value); }
  }

  lemma RunParts(m: Machine, h: Host, key: CacheKey, wasm: Wasm, writable: bool)
    ensures var k := AsStrKey(m, key, wasm);
            var (h1, c) := Compile(m, h, k, wasm, writable);
            RunWithKey(m, h, key, wasm, writable) ==
              if c.None? then (h1, None)
              else var (h2, p) := Link(m, h1, k, c.value);
                   (h2, if p.None? then None else Some((c.value, p.value)))
  {
    hide Compile, Link, AsStrKey;
  }

  /** A run that finds nothing usable in any cache needs the compiler, a place to write the
      artifact and the linker; what it compiled it leaves on disk even if it does not link. */
  lemma ColdRun(m: Machine, h: Host, u: Use, writable: bool)
    requires Find(h.mem, KeyOf(m, u)).None? && Find(h.pre, KeyOf(m, u)).None?
    requires KeyOf(m, u) in h.disk ==> h.disk[KeyOf(m, u)].Corrupt?
    ensures RunWithKey(m, h, u.0, u.1, writable).1 ==
        if m.compiles(u.1) && writable && m.links(Compiled(u.1))
        then Some((Compiled(u.1), Pre(Compiled(u.1)))) else None
    ensures RunWithKey(m, h, u.0, u.1, writable).0.disk ==
        if m.compiles(u.1) && writable then h.disk[KeyOf(m, u) := Intact(Compiled(u.1))] else h.disk - {KeyOf(m, u)}
  {
    hide Put, Find, AsStrKey;
    assert KeyOf(m, u) == AsStrKey(m, u.0, u.1);
  }

  /** Once a run has succeeded, running under the same key needs neither compiler nor linker
      nor disk: whatever they would do now (m2 may compile and link nothing), the same
      component runs, and no file is touched. */
  lemma WarmRun(m: Machine, m2: Machine, h: Host, a: Use, b: Use, writable: bool, writable2: bool)
    requires KeyOf(m, a) == KeyOf(m2, b) && RunWithKey(m, h, a.0, a.1, writable).1.Some?
    ensures var (h', r) := RunWithKey(m, h, a.0, a.1, writable);
            && RunWithKey(m2, h', b.0, b.1, writable2).1 == r
            && RunWithKey(m2, h', b.0, b.1, writable2).0.disk == h'.disk
  {
    var k := KeyOf(m, a);
    assert k == AsStrKey(m, a.0, a.1) == AsStrKey(m2, b.0, b.1);
    hide Compile, RunWithKey, KeyOf, AsStrKey;
    var (h1, c) := Compile(m, h, k, a.1, writable);
    RunParts(m, h, a.0, a.1, writable);
    CompileStays(m, h, k, a.1, writable);
    LinkStays(m, h1, k, c.value);
    var h' := RunWithKey(m, h, a.0, a.1, writable).0;
    RunParts(m2, h', b.0, b.1, writable2);
    CompileStays(m2, h', k, b.1, writable2);
  }

  /** Artifacts outlive the process: after a run that compiled, a new process without a
      compiler still runs the same component, if it links. */
  lemma RestartedRun(m: Machine, m2: Machine, h: Host, a: Use, b: Use, writable: bool, writable2: bool)
    requires KeyOf(m, a) == KeyOf(m2, b) && Find(h.mem, KeyOf(m, a)).None?
    requires RunWithKey(m, h, a.0, a.1, writable).1.Some?
    ensures var (h', r) := RunWithKey(m, h, a.0, a.1, writable);
            m2.links(r.value.0) ==>
              RunWithKey(m2, Host([], [], h'.disk), b.0, b.1, writable2).1 == Some((r.value.0, Pre(r.value.0)))
  {
    var k := KeyOf(m, a);
    assert k == AsStrKey(m, a.0, a.1) == AsStrKey(m2, b.0, b.1);
    hide Compile, RunWithKey, KeyOf, AsStrKey;
    var (h1, c) := Compile(m, h, k, a.1, writable);
    RunParts(m, h, a.0, a.1, writable);
    CompileStays(m, h, k, a.1, writable);
    LinkStays(m, h1, k, c.value);
    var cold := Host([], [], RunWithKey(m, h, a.0, a.1, writable).0.disk);
    RunParts(m2, cold, b.0, b.1, writable2);
    CompileStays(m2, cold, k, b.1, writable2);
  }

  /** After a run its key is the most recently used one in both memory caches, so that the
      next insertion evicts something else. */
  lemma UsedKeysComeFirst(m: Machine, h: Host, u: Use, writable: bool)
    requires RunWithKey(m, h, u.0, u.1, writable).1.Some?
    ensures var (h', r) := RunWithKey(m, h, u.0, u.1, writable);
            && h'.mem != [] && h'.mem[0] == (KeyOf(m, u), r.value.0)
            && h'.pre != [] && h'.pre[0] == (KeyOf(m, u), r.value.1)
  {
    var k := KeyOf(m, u);
    assert k == AsStrKey(m, u.0, u.1);
    hide Without, Load, Store, RunWithKey, KeyOf, AsStrKey;
    RunParts(m, h, u.0, u.1, writable);
  }

  /** A corrupt file does not survive the run that finds it. */
  lemma CorruptFilesGo(m: Machine, h: Host, u: Use, writable: bool)
    requires Find(h.mem, KeyOf(m, u)).None?
    ensures var h' := RunWithKey(m, h, u.0, u.1, writable).0; KeyOf(m, u) in h'.disk ==> h'.disk[KeyOf(m, u)].Intact?
  {
    var k := KeyOf(m, u);
    assert k == AsStrKey(m, u.0, u.1);
    hide Compile, RunWithKey, KeyOf, AsStrKey;
    var (h1, c) := Compile(m, h, k, u.1, writable);
    RunParts(m, h, u.0, u.1, writable);
    CompileStays(m, h, k, u.1, writable);
    if c.Some? { LinkStays(m, h1, k, c.value); }
  }

  // -- Keys that are hashes --------------------------------------------------

  /** A digest is used as it is, without the name of the hash function in front. */
  lemma DigestKeys(m: Machine, d: string, wasm: Wasm)
    ensures AsStrKey(m, Digest("sha256:" + d), wasm) == d
    ensures !("sha256:" <= d) ==> AsStrKey(m, Digest(d), wasm) == d
  {
    assert ("sha256:" + d)[..7] == "sha256:" && ("sha256:" + d)[7..] == d;
  }

  ghost predicate Injective(sha: Wasm -> string) {
    forall a, b :: sha(a) == sha(b) ==> a == b
  }

  /** The key is the hash of the bytes. */
  ghost predicate Honest(m: Machine, key: CacheKey, wasm: Wasm) {
    AsStrKey(m, key, wasm) == m.sha(wasm)
  }

  ghost function HonestUses(m: Machine): iset<Use> {
    iset u: Use | Honest(m, u.0, u.1)
  }

  /** Local files and registry pulls always have such keys. */
  lemma LocalFilesAreHonest(m: Machine, path: string, wasm: Wasm)
    ensures Honest(m, Path(path), wasm)
    ensures Honest(m, Digest(PREFIX + m.sha(wasm)), wasm)
  {
    assert (PREFIX + m.sha(wasm))[..|PREFIX|] == PREFIX;
    assert (PREFIX + m.sha(wasm))[|PREFIX|..] == m.sha(wasm);
  }

  lemma HonestIsConsistent(m: Machine)
    requires Injective(m.sha)
    ensures Consistent(m, HonestUses(m))
  {
    hide AsStrKey;
  }

  /** With keys that are hashes the caches are transparent: a run uses exactly what a fresh
      compile of its bytes would give, and succeeds whenever that would. */
  lemma CachesAreTransparent(m: Machine, ops: seq<Op>, key: CacheKey, wasm: Wasm, writable: bool)
    requires Injective(m.sha) && (forall op :: op in ops && op.Run? ==> Honest(m, op.key, op.wasm))
    requires Honest(m, key, wasm)
    ensures var r := RunWithKey(m, History(m, ops), key, wasm, writable).1;
            && (r.Some? ==> r.value == (Compiled(wasm), Pre(Compiled(wasm))))
            && (writable ==> (r.Some? <==> m.compiles(wasm) && m.links(Compiled(wasm))))
  {
    hide RunWithKey, History, Consistent, Honest;
    HonestIsConsistent(m);
    TransparentExactly(m, HonestUses(m));
    assert (key, wasm) in HonestUses(m);
    assert Right(m, (key, wasm).1, writable, RunWithKey(m, History(m, ops), key, wasm, writable).1) by {
      assert Over(HonestUses(m), ops);
    }
  }

  // -- The host object -------------------------------------------------------

  class FluxionHost {
    const m: Machine
    var memCache: Lru<Component>
    var preCache: Lru<Linked>
    var diskCache: map<string, Artifact>

    ghost function View(): Host
      reads this
    {
      Host(memCache, preCache, diskCache)
    }

    constructor (m: Machine)
      ensures this.m == m && View() == Host([], [], map[])
    {
      this.m := m;
      memCache, preCache, diskCache := [], [], map[];
    }

    method FetchComponent(k: string, wasm: Wasm, writable: bool) returns (c: Option<Component>)
      modifies this
      ensures (View(), c) == Compile(m, old(View()), k, wasm, writable)
    {
      c := Find(memCache, k);
      if c.Some? {
        memCache := Touch(memCache, k);
        return;
      }
      if k in diskCache {
        match diskCache[k]
        case Intact(found) => c := Some(found);
        case Corrupt => diskCache := diskCache - {k};
      }
      if c.None? {
        if !m.compiles(wasm) || !writable { return; }
        diskCache := diskCache[k := Intact(Compiled(wasm))];
        c := Some(Compiled(wasm));
      }
      memCache := Put(memCache, MEM_CACHE_CAP, k, c.value);
    }

    method FetchLinked(k: string, c: Component) returns (p: Option<Linked>)
      modifies this
      ensures (View(), p) == Link(m, old(View()), k, c)
    {
      p := Find(preCache, k);
      if p.Some? {
        preCache := Touch(preCache, k);
        return;
      }
      if !m.links(c) { return; }
      p := Some(Pre(c));
      preCache := Put(preCache, PRE_CACHE_CAP, k, Pre(c));
    }

    /** `run_component_with_key` up to the call into the guest. */
    method PrepareWithKey(wasm: Wasm, key: CacheKey, writable: bool) returns (r: Option<(Component, Linked)>)
      modifies this
      ensures (View(), r) == RunWithKey(m, old(View()), key, wasm, writable)
    {
      hide Compile, Link;
      var k := AsStrKey(m, key, wasm);
      var c := FetchComponent(k, wasm, writable);
      if c.None? { return None; }
      var p := FetchLinked(k, c.value);
      if p.None? { return None; }
      r := Some((c.value, p.value));
    }

    /** `run_from_oci` after the pull: the key is derived from the pulled bytes. */
    method PrepareFromOci(wasm: Wasm, writable: bool) returns (r: Option<(Component, Linked)>)
      requires Injective(m.sha) && Filed(m, HonestUses(m), View())
      modifies this
      ensures Filed(m, HonestUses(m), View())
      ensures Right(m, wasm, writable, r)
    {
      hide Filed, RunWithKey, Right, Consistent, Injective, AsStrKey;
      var key := Digest(PREFIX + m.sha(wasm));
      LocalFilesAreHonest(m, "", wasm);
      HonestIsConsistent(m);
      RunRight(m, HonestUses(m), View(), (key, wasm), writable);
      r := PrepareWithKey(wasm, key, writable);
    }
  }
}
