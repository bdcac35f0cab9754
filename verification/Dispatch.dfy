/** Sending jobs to a worker by content hash: probe, upload, run or submit and poll. */
module Dispatching {
  import opened Collections

  type Wasm = string
  type Input = string
  type JobId = string

  // -- The worker ------------------------------------------------------------

  function LowerChar(c: char): char {
    if 'A' <= c <= 'Z' then c - 'A' + 'a' else c
  }

  function Lower(s: string): string {
    seq(|s|, i requires 0 <= i < |s| => LowerChar(s[i]))
  }

  /** Only the letters A to Z change, and they become their small forms. */
  lemma LowerFolds(s: string)
    ensures |Lower(s)| == |s|
    ensures forall i :: 0 <= i < |s| ==>
        Lower(s)[i] as int == s[i] as int + if 'A' <= s[i] <= 'Z' then 'a' as int - 'A' as int else 0
  {
  }

  /** The hash function (hexadecimal digits) and what executing a component does. */
  datatype Machine = Machine(sha: Wasm -> string, exec: (Wasm, Input) -> Result<string, string>)

  /** No collisions, not even up to letter case. */
  ghost predicate CollisionFree(m: Machine) {
    forall a, b :: Lower(m.sha(a)) == Lower(m.sha(b)) ==> a == b
  }

  datatype Request = Request(component: Option<Wasm>, componentSha: Option<string>, input: Input)

  datatype JobEntry = Running | Succeeded(output: string) | Failed(error: string)

  /** PUT /components/{sha}: stored only if the digest of the body matches, letter case aside. */
  function CasPut(m: Machine, cas: map<string, Wasm>, k: string, body: Wasm): (map<string, Wasm>, bool) {
    if Lower(m.sha(body)) == Lower(k) then (cas[k := body], true) else (cas, false)
  }

  /** The bytes a request is about: from the store, else inline, else none. */
  function Resolve(cas: map<string, Wasm>, req: Request): Result<Wasm, string> {
    if req.componentSha.Some? then
      if req.componentSha.value in cas then Ok(cas[req.componentSha.value])
      else if req.component.Some? then Ok(req.component.value)
      else Err("component not in CAS")
    else Ok(if req.component.Some? then req.component.value else "")
  }

  function RunRequest(m: Machine, cas: map<string, Wasm>, req: Request): Result<string, string> {
    match Resolve(cas, req)
    case Ok(wasm) => m.exec(wasm, req.input)
    case Err(e) => Err(e)
  }

  function EntryOf(r: Result<string, string>): JobEntry {
    match r case Ok(output) => Succeeded(output) case Err(e) => Failed(e)
  }

  /** The worker's handlers over its two mutable tables. */
  class Worker {
    const m: Machine
    var cas: map<string, Wasm>
    var jobs: map<JobId, JobEntry>
    var tasks: map<JobId, Request>

    constructor (m: Machine)
      ensures this.m == m && cas == map[] && jobs == map[] && tasks == map[]
    {
      this.m := m;
      cas, jobs, tasks := map[], map[], map[];
    }

    method HandleCasHead(k: string) returns (found: bool)
      ensures found <==> k in cas
    {
      found := k in cas;
    }

    method HandleCasPut(k: string, body: Wasm) returns (created: bool)
      modifies this`cas
      ensures created <==> Lower(m.sha(body)) == Lower(k)
      ensures cas == if created then old(cas)[k := body] else old(cas)
      ensures (cas, created) == CasPut(m, old(cas), k, body)
    {
      var actual := m.sha(body);
      created := Lower(actual) == Lower(k);
      if created { cas := cas[k := body]; }
    }

    method HandleRun(req: Request) returns (r: Result<string, string>)
      ensures req.componentSha.Some? && req.componentSha.value in cas ==>
          r == m.exec(cas[req.componentSha.value], req.input)
      ensures (req.componentSha.Some? ==> req.componentSha.value !in cas) && req.component.Some? ==>
          r == m.exec(req.component.value, req.input)
      ensures req.componentSha.Some? && req.componentSha.value !in cas && req.component.None? ==>
          r == Err("component not in CAS")
      ensures req.componentSha.None? && req.component.None? ==> r == m.exec("", req.input)
      ensures r == RunRequest(m, cas, req)
    {
      var wasm: Wasm;
      if req.componentSha.Some? {
        var k := req.componentSha.value;
        if k in cas {
          wasm := cas[k];
        } else if req.component.Some? {
          wasm := req.component.value;
        } else {
          return Err("component not in CAS");
        }
      } else {
        wasm := if req.component.Some? then req.component.value else "";
      }
      r := m.exec(wasm, req.input);
    }

    /** The entry is visible as running before the task is spawned. */
    method HandleSubmit(id: JobId, req: Request)
      requires id !in jobs
      modifies this`jobs, this`tasks
      ensures jobs == old(jobs)[id := Running] && tasks == old(tasks)[id := req]
    {
      jobs := jobs[id := Running];
      tasks := tasks[id := req];
    }

    method FinishTask(id: JobId)
      requires id in tasks
      modifies this`jobs, this`tasks
      ensures jobs == old(jobs)[id := EntryOf(RunRequest(m, cas, old(tasks)[id]))] && tasks == old(tasks) - {id}
    {
      var r := HandleRun(tasks[id]);
      jobs := jobs[id := EntryOf(r)];
      tasks := tasks - {id};
    }

    method HandleGetJob(id: JobId) returns (entry: Option<JobEntry>)
      ensures entry == if id in jobs then Some(jobs[id]) else None
    {
      entry := if id in jobs then Some(jobs[id]) else None;
    }
  }

  // -- Clients ---------------------------------------------------------------

  /** What a dispatch returns: the worker's answer, or the news that there was none. */
  datatype Reply = Answer(result: Result<string, string>) | Lost

  datatype Phase =
    | Starting
    | Probed(has: bool)
    | Prepared(byHash: bool)
    | Submitted(id: JobId)
    | Finished(reply: Reply)

  datatype Client = Client(wasm: Wasm, input: Input, async: bool, phase: Phase)

  datatype System = System(
    cas: map<string, Wasm>,
    jobs: map<JobId, JobEntry>,
    tasks: map<JobId, Request>,
    clients: map<nat, Client>)

  function RequestOf(m: Machine, c: Client, byHash: bool): Request {
    if byHash then Request(None, Some(m.sha(c.wasm)), c.input) else Request(Some(c.wasm), None, c.input)
  }

  function Moved(s: System, i: nat, phase: Phase): map<nat, Client>
    requires i in s.clients
  {
    s.clients[i := s.clients[i].(phase := phase)]
  }

  ghost predicate At(s: System, i: nat, phase: Phase) {
    i in s.clients && s.clients[i].phase == phase
  }

  ghost predicate Join(s: System, t: System, i: nat, wasm: Wasm, input: Input, async: bool) {
    i !in s.clients && t == s.(clients := s.clients[i := Client(wasm, input, async, Starting)])
  }

  /** HEAD; any network trouble counts as "not there". */
  ghost predicate Probe(m: Machine, s: System, t: System, i: nat, answered: bool) {
    At(s, i, Starting) && t == s.(clients := Moved(s, i, Probed(answered && m.sha(s.clients[i].wasm) in s.cas)))
  }

  /** Nothing to upload. */
  ghost predicate SkipUpload(s: System, t: System, i: nat) {
    At(s, i, Probed(true)) && t == s.(clients := Moved(s, i, Prepared(true)))
  }

  /** PUT; the request or only its response may be lost. */
  ghost predicate Upload(m: Machine, s: System, t: System, i: nat, arrived: bool, acknowledged: bool) {
    && At(s, i, Probed(false))
    && var c := s.clients[i];
       var (cas, created) := if arrived then CasPut(m, s.cas, m.sha(c.wasm), c.wasm) else (s.cas, false);
       t == s.(cas := cas, clients := Moved(s, i, Prepared(created && acknowledged)))
  }

  /** Somebody else's upload, under any name and with any body. */
  ghost predicate ForeignPut(m: Machine, s: System, t: System, k: string, body: Wasm) {
    t == s.(cas := CasPut(m, s.cas, k, body).0)
  }

  /** POST /run. */
  ghost predicate RunSync(m: Machine, s: System, t: System, i: nat, byHash: bool, answered: bool) {
    && At(s, i, Prepared(byHash)) && !s.clients[i].async
    && t == s.(clients := Moved(s, i, Finished(
         if answered then Answer(RunRequest(m, s.cas, RequestOf(m, s.clients[i], byHash))) else Lost)))
  }

  /** POST /jobs with a fresh id; the response may be lost after the job was accepted. */
  ghost predicate Submit(m: Machine, s: System, t: System, i: nat, byHash: bool, id: JobId, acknowledged: bool) {
    && At(s, i, Prepared(byHash)) && s.clients[i].async && id !in s.jobs
    && t == s.(jobs := s.jobs[id := Running],
               tasks := s.tasks[id := RequestOf(m, s.clients[i], byHash)],
               clients := Moved(s, i, if acknowledged then Submitted(id) else Finished(Lost)))
  }

  /** A spawned task finishes; the store is consulted only now. */
  ghost predicate Complete(m: Machine, s: System, t: System, id: JobId) {
    && id in s.tasks
    && t == s.(jobs := s.jobs[id := EntryOf(RunRequest(m, s.cas, s.tasks[id]))], tasks := s.tasks - {id})
  }

  /** GET /jobs/:id until the entry is terminal. */
  ghost predicate Poll(s: System, t: System, i: nat, id: JobId) {
    && At(s, i, Submitted(id)) && id in s.jobs
    && t == match s.jobs[id]
            case Running => s
            case Succeeded(output) => s.(clients := Moved(s, i, Finished(Answer(Ok(output)))))
            case Failed(e) => s.(clients := Moved(s, i, Finished(Answer(Err(e)))))
  }

  /** Deadline passed or connection refused. */
  ghost predicate GiveUp(s: System, t: System, i: nat) {
    i in s.clients && !s.clients[i].phase.Finished? && t == s.(clients := Moved(s, i, Finished(Lost)))
  }

  ghost predicate Step(m: Machine, s: System, t: System) {
    || (exists i, wasm, input, async :: Join(s, t, i, wasm, input, async))
    || (exists i, answered :: Probe(m, s, t, i, answered))
    || (exists i :: SkipUpload(s, t, i))
    || (exists i, arrived, acknowledged :: Upload(m, s, t, i, arrived, acknowledged))
    || (exists k, body :: ForeignPut(m, s, t, k, body))
    || (exists i, byHash, answered :: RunSync(m, s, t, i, byHash, answered))
    || (exists i, byHash, id, acknowledged :: Submit(m, s, t, i, byHash, id, acknowledged))
    || (exists id :: Complete(m, s, t, id))
    || (exists i, id :: Poll(s, t, i, id))
    || (exists i :: GiveUp(s, t, i))
  }

  ghost predicate Steps(m: Machine, s: System, t: System, n: nat)
    decreases n
  {
    if n == 0 then s == t else exists u :: Steps(m, s, u, n - 1) && Step(m, u, t)
  }

  // -- The invariant ---------------------------------------------------------

  /** The file under k hashes to k. */
  ghost predicate CasHonest(m: Machine, s: System) {
    HonestFiles(m, s.cas)
  }

  ghost predicate HonestFiles(m: Machine, cas: map<string, Wasm>) {
    forall k :: k in cas ==> Lower(m.sha(cas[k])) == Lower(k)
  }

  /** A request for a client's job that will find the client's bytes. */
  ghost predicate Serves(m: Machine, cas: map<string, Wasm>, req: Request, c: Client) {
    exists byHash :: req == RequestOf(m, c, byHash) && (byHash ==> m.sha(c.wasm) in cas)
  }

  ghost predicate ClientRight(m: Machine, s: System, c: Client) {
    match c.phase
    case Starting => true
    case Probed(has) => has ==> m.sha(c.wasm) in s.cas
    case Prepared(byHash) => byHash ==> m.sha(c.wasm) in s.cas
    case Submitted(id) =>
      && id in s.jobs && (id in s.tasks ==> Serves(m, s.cas, s.tasks[id], c))
      && (!s.jobs[id].Running? ==> s.jobs[id] == EntryOf(m.exec(c.wasm, c.input)))
    case Finished(reply) => reply.Answer? ==> reply.result == m.exec(c.wasm, c.input)
  }

  ghost predicate Right(m: Machine, s: System) {
    && CasHonest(m, s)
    && (forall i :: i in s.clients ==> ClientRight(m, s, s.clients[i]))
    && (forall id :: id in s.tasks <==> id in s.jobs && s.jobs[id].Running?)
  }

  /** Whatever stands under a component's hash is that component. */
  lemma RequestRunsBytes(m: Machine, cas: map<string, Wasm>, wasm: Wasm, input: Input, byHash: bool)
    requires CollisionFree(m) && HonestFiles(m, cas) && (byHash ==> m.sha(wasm) in cas)
    ensures RunRequest(m, cas,
          if byHash then Request(None, Some(m.sha(wasm)), input) else Request(Some(wasm), None, input))
         == m.exec(wasm, input)
  {
    if byHash { assert Lower(m.sha(cas[m.sha(wasm)])) == Lower(m.sha(wasm)); }
  }

  lemma HashFindsBytes(m: Machine, s: System, c: Client, byHash: bool)
    requires CollisionFree(m) && CasHonest(m, s) && (byHash ==> m.sha(c.wasm) in s.cas)
    ensures RunRequest(m, s.cas, RequestOf(m, c, byHash)) == m.exec(c.wasm, c.input)
  {
    hide RunRequest;
    RequestRunsBytes(m, s.cas, c.wasm, c.input, byHash);
  }

  /** The store only grows, and never changes under a name. */
  lemma PutIsHonest(m: Machine, cas: map<string, Wasm>, k: string, body: Wasm)
    requires HonestFiles(m, cas)
    ensures HonestFiles(m, CasPut(m, cas, k, body).0)
    ensures forall x :: x in cas ==> x in CasPut(m, cas, k, body).0
  {
    hide Lower;
  }

  lemma ClientStable(m: Machine, s: System, t: System, c: Client)
    requires ClientRight(m, s, c) && (forall k :: k in s.cas ==> k in t.cas)
    requires forall id :: id in s.jobs ==> id in t.jobs && t.jobs[id] == s.jobs[id]
    requires forall id :: id in t.tasks && id in s.jobs ==> id in s.tasks && t.tasks[id] == s.tasks[id]
    ensures ClientRight(m, t, c)
  {
    if c.phase.Submitted? && c.phase.id in t.tasks {
      var req := s.tasks[c.phase.id];
      var byHash :| req == RequestOf(m, c, byHash) && (byHash ==> m.sha(c.wasm) in s.cas);
      assert Serves(m, t.cas, req, c);
    }
  }

  /** A step that changes one client, and lets the store and the job table only grow. */
  lemma OneClient(m: Machine, s: System, t: System, i: nat)
    requires Right(m, s) && CasHonest(m, t)
    requires forall k :: k in s.cas ==> k in t.cas
    requires forall id :: id in s.jobs ==> id in t.jobs && t.jobs[id] == s.jobs[id]
    requires forall id :: id in t.tasks && id in s.jobs ==> id in s.tasks && t.tasks[id] == s.tasks[id]
    requires forall id :: id in t.tasks <==> id in t.jobs && t.jobs[id].Running?
    requires forall k :: k in t.clients && k != i ==> k in s.clients && t.clients[k] == s.clients[k]
    requires i in t.clients ==> ClientRight(m, t, t.clients[i])
    ensures Right(m, t)
  {
    hide ClientRight, CasHonest;
    forall k | k in t.clients && k != i ensures ClientRight(m, t, t.clients[k]) {
      ClientStable(m, s, t, s.clients[k]);
    }
  }

  lemma UploadRight(m: Machine, s: System, t: System, i: nat, arrived: bool, acknowledged: bool)
    requires Right(m, s) && Upload(m, s, t, i, arrived, acknowledged)
    ensures Right(m, t)
  {
    var c := s.clients[i];
    PutIsHonest(m, s.cas, m.sha(c.wasm), c.wasm);
    assert CasHonest(m, t);
    hide Lower;
    OneClient(m, s, t, i);
  }

  lemma ForeignPutRight(m: Machine, s: System, t: System, k: string, body: Wasm)
    requires Right(m, s) && ForeignPut(m, s, t, k, body)
    ensures Right(m, t)
  {
    PutIsHonest(m, s.cas, k, body);
    hide CasPut, CasHonest;
    forall i | i in t.clients ensures ClientRight(m, t, t.clients[i]) { ClientStable(m, s, t, t.clients[i]); }
  }

  lemma RunSyncRight(m: Machine, s: System, t: System, i: nat, byHash: bool, answered: bool)
    requires CollisionFree(m) && Right(m, s) && RunSync(m, s, t, i, byHash, answered)
    ensures Right(m, t)
  {
    assert ClientRight(m, s, s.clients[i]);
    HashFindsBytes(m, s, s.clients[i], byHash);
    hide CollisionFree, CasHonest, RunRequest;
    OneClient(m, s, t, i);
  }

  lemma SubmitRight(m: Machine, s: System, t: System, i: nat, byHash: bool, id: JobId, acknowledged: bool)
    requires Right(m, s) && Submit(m, s, t, i, byHash, id, acknowledged)
    ensures Right(m, t)
  {
    var c := s.clients[i];
    assert ClientRight(m, s, c);
    assert CasHonest(m, t);
    hide CasHonest;
    assert t.tasks[id] == RequestOf(m, c, byHash);
    assert Serves(m, t.cas, t.tasks[id], t.clients[i]) by {
      assert RequestOf(m, t.clients[i], byHash) == RequestOf(m, c, byHash);
    }
    OneClient(m, s, t, i);
  }

  lemma CompleteRight(m: Machine, s: System, t: System, id: JobId)
    requires CollisionFree(m) && Right(m, s) && Complete(m, s, t, id)
    ensures Right(m, t)
  {
    forall i | i in t.clients ensures ClientRight(m, t, t.clients[i]) {
      var c := s.clients[i];
      assert ClientRight(m, s, c);
      if c.phase.Submitted? && c.phase.id == id {
        var byHash :| s.tasks[id] == RequestOf(m, c, byHash) && (byHash ==> m.sha(c.wasm) in s.cas);
        HashFindsBytes(m, s, c, byHash);
      } else if c.phase.Submitted? && c.phase.id in t.tasks {
        assert t.tasks[c.phase.id] == s.tasks[c.phase.id];
      }
    }
    assert CasHonest(m, t);
  }

  /** Probing, skipping the upload, polling, giving up: nothing but the client moves. */
  lemma ClientMoves(m: Machine, s: System, t: System, i: nat, phase: Phase)
    requires Right(m, s) && i in s.clients && t == s.(clients := Moved(s, i, phase))
    requires ClientRight(m, s, s.clients[i].(phase := phase))
    ensures Right(m, t)
  {
    assert CasHonest(m, t);
    assert ClientRight(m, t, t.clients[i]) by { ClientStable(m, s, t, t.clients[i]); }
    hide ClientRight, CasHonest;
    OneClient(m, s, t, i);
  }

  lemma PollRight(m: Machine, s: System, t: System, i: nat, id: JobId)
    requires Right(m, s) && Poll(s, t, i, id)
    ensures Right(m, t)
  {
    assert ClientRight(m, s, s.clients[i]);
    match s.jobs[id]
    case Running =>
    case Succeeded(output) => ClientMoves(m, s, t, i, Finished(Answer(Ok(output))));
    case Failed(e) => ClientMoves(m, s, t, i, Finished(Answer(Err(e))));
  }

  lemma JoinRight(m: Machine, s: System, t: System, i: nat, wasm: Wasm, input: Input, async: bool)
    requires Right(m, s) && Join(s, t, i, wasm, input, async)
    ensures Right(m, t)
  {
    assert CasHonest(m, t);
    OneClient(m, s, t, i);
  }

  lemma StepRight(m: Machine, s: System, t: System)
    requires CollisionFree(m) && Right(m, s) && Step(m, s, t)
    ensures Right(m, t)
  {
    assert forall i :: i in s.clients ==> ClientRight(m, s, s.clients[i]);
    hide CollisionFree, Right, CasHonest, Serves, CasPut, RunRequest, Moved;
    if i, wasm, input, async :| Join(s, t, i, wasm, input, async) {
      JoinRight(m, s, t, i, wasm, input, async);
    } else if i, answered :| Probe(m, s, t, i, answered) {
      ClientMoves(m, s, t, i, Probed(answered && m.sha(s.clients[i].wasm) in s.cas));
    } else if i :| SkipUpload(s, t, i) {
      ClientMoves(m, s, t, i, Prepared(true));
    } else if i, arrived, acknowledged :| Upload(m, s, t, i, arrived, acknowledged) {
      UploadRight(m, s, t, i, arrived, acknowledged);
    } else if k, body :| ForeignPut(m, s, t, k, body) {
      ForeignPutRight(m, s, t, k, body);
    } else if i, byHash, answered :| RunSync(m, s, t, i, byHash, answered) {
      RunSyncRight(m, s, t, i, byHash, answered);
    } else if i, byHash, id, acknowledged :| Submit(m, s, t, i, byHash, id, acknowledged) {
      SubmitRight(m, s, t, i, byHash, id, acknowledged);
    } else if id :| Complete(m, s, t, id) {
      CompleteRight(m, s, t, id);
    } else if i, id :| Poll(s, t, i, id) {
      PollRight(m, s, t, i, id);
    } else {
      var i :| GiveUp(s, t, i);
      ClientMoves(m, s, t, i, Finished(Lost));
    }
  }

  lemma {:induction false} StepsRight(m: Machine, s: System, t: System, n: nat)
    requires CollisionFree(m) && Right(m, s) && Steps(m, s, t, n)
    ensures Right(m, t)
    decreases n
  {
    hide CollisionFree, Right, Step;
    if n > 0 {
      var u :| Steps(m, s, u, n - 1) && Step(m, u, t);
      StepsRight(m, s, u, n - 1);
      StepRight(m, u, t);
    }
  }

  // -- The theorems ----------------------------------------------------------

  ghost predicate Initial(s: System) {
    s == System(map[], map[], map[], map[])
  }

  /** Dispatch by hash is dispatch by bytes: in any interleaving of any clients, uploads
      and tasks, whatever answer a client gets, success or error, is what executing its
      own bytes on its own input gives; every stored file hashes to its name. */
  lemma AnswersAreExact(m: Machine, s: System, t: System, n: nat, i: nat)
    requires CollisionFree(m) && Initial(s) && Steps(m, s, t, n)
    ensures forall k :: k in t.cas ==> Lower(m.sha(t.cas[k])) == Lower(k)
    ensures i in t.clients && t.clients[i].phase.Finished? && t.clients[i].phase.reply.Answer?
        ==> t.clients[i].phase.reply.result == m.exec(t.clients[i].wasm, t.clients[i].input)
  {
    StepsRight(m, s, t, n);
    assert i in t.clients ==> ClientRight(m, t, t.clients[i]);
  }

  lemma StepKeepsFiles(m: Machine, s: System, t: System, k: string)
    requires Step(m, s, t) && k in s.cas
    ensures k in t.cas
  {
    hide Lower, RunRequest, RequestOf, Moved;
  }

  /** A positive probe stays good: whatever happens in between, running by hash runs exactly
      the bytes that were probed for. */
  lemma {:induction false} ProbeStaysGood(m: Machine, s: System, t: System, n: nat, wasm: Wasm, input: Input)
    requires CollisionFree(m) && Right(m, s) && Steps(m, s, t, n) && m.sha(wasm) in s.cas
    ensures m.sha(wasm) in t.cas && RunRequest(m, t.cas, Request(None, Some(m.sha(wasm)), input)) == m.exec(wasm, input)
    decreases n
  {
    hide Step, RunRequest, CollisionFree, Right, Lower;
    if n > 0 {
      var u :| Steps(m, s, u, n - 1) && Step(m, u, t);
      ProbeStaysGood(m, s, u, n - 1, wasm, input);
      StepKeepsFiles(m, u, t, m.sha(wasm));
    }
    StepsRight(m, s, t, n);
    RightIsHonest(m, t);
    HashFindsBytes(m, t, Client(wasm, input, false, Starting), true);
  }

  lemma RightIsHonest(m: Machine, s: System)
    requires Right(m, s)
    ensures CasHonest(m, s)
  {
  }

  lemma StepKeepsEntries(m: Machine, s: System, t: System, id: JobId)
    requires Right(m, s) && Step(m, s, t) && id in s.jobs && !s.jobs[id].Running?
    ensures id in t.jobs && t.jobs[id] == s.jobs[id]
  {
    assert id !in s.tasks;
    hide ClientRight, CasHonest, Serves, CasPut, RunRequest;
  }

  /** A job entry leaves `running` at most once: a terminal entry never changes again. */
  lemma {:induction false} EntriesAreFinal(m: Machine, s: System, t: System, n: nat, id: JobId)
    requires CollisionFree(m) && Right(m, s) && Steps(m, s, t, n) && id in s.jobs && !s.jobs[id].Running?
    ensures id in t.jobs && t.jobs[id] == s.jobs[id]
    decreases n
  {
    hide CollisionFree, Right, Step;
    if n > 0 {
      var u :| Steps(m, s, u, n - 1) && Step(m, u, t);
      EntriesAreFinal(m, s, u, n - 1, id);
      StepsRight(m, s, u, n - 1);
      StepKeepsEntries(m, u, t, id);
    }
  }

  // -- Service ---------------------------------------------------------------

  lemma OneStep(m: Machine, s: System, u: System, t: System, n: nat)
    requires Steps(m, s, u, n) && Step(m, u, t)
    ensures Steps(m, s, t, n + 1)
  {
    hide Step;
  }

  /** A client that starts can get its component into the store, whatever the others have done. */
  lemma CanAnnounce(m: Machine, s: System, i: nat) returns (t: System, n: nat)
    requires At(s, i, Starting)
    ensures Steps(m, s, t, n) && t.jobs == s.jobs && t.tasks == s.tasks && m.sha(s.clients[i].wasm) in t.cas
    ensures i in t.clients && t.clients[i] == s.clients[i].(phase := Prepared(true))
  {
    var k := m.sha(s.clients[i].wasm);
    var u := s.(clients := Moved(s, i, Probed(k in s.cas)));
    assert Steps(m, s, s, 0);
    assert Probe(m, s, u, i, true);
    assert Step(m, s, u);
    hide Step, Lower;
    OneStep(m, s, s, u, 0);
    n := 2;
    if k in s.cas {
      t := u.(clients := Moved(u, i, Prepared(true)));
      assert SkipUpload(u, t, i);
      assert Step(m, u, t) by { StepSkip(m, u, t, i); }
    } else {
      t := u.(cas := u.cas[k := s.clients[i].wasm], clients := Moved(u, i, Prepared(true)));
      assert Upload(m, u, t, i, true, true);
      assert Step(m, u, t) by { StepUpload(m, u, t, i); }
    }
    OneStep(m, s, u, t, 1);
  }

  lemma StepSkip(m: Machine, s: System, t: System, i: nat)
    requires SkipUpload(s, t, i)
    ensures Step(m, s, t)
  {
  }

  lemma StepUpload(m: Machine, s: System, t: System, i: nat)
    requires Upload(m, s, t, i, true, true)
    ensures Step(m, s, t)
  {
  }

  /** From every state the protocol can reach, every client that starts can still be served: it
      gets its answer, by hash, and its component is in the store. */
  lemma EveryClientCanBeServed(m: Machine, s: System, i: nat, id: JobId) returns (t: System, n: nat)
    requires CollisionFree(m) && Right(m, s) && At(s, i, Starting) && (s.clients[i].async ==> id !in s.jobs)
    ensures Steps(m, s, t, n) && m.sha(s.clients[i].wasm) in t.cas
    ensures At(t, i, Finished(Answer(m.exec(s.clients[i].wasm, s.clients[i].input))))
  {
    hide Right, CollisionFree, RunRequest, Lower, Step, Steps, CasHonest, RequestOf;
    var u, k := CanAnnounce(m, s, i);
    StepsRight(m, s, u, k);
    RightIsHonest(m, u);
    HashFindsBytes(m, u, u.clients[i], true);
    if !s.clients[i].async {
      t := CanRun(m, u, i);
      n := k + 1;
      OneStep(m, s, u, t, k);
    } else {
      var v := CanSubmit(m, u, i, id);
      OneStep(m, s, u, v, k);
      t := CanFinish(m, v, i, id, RequestOf(m, u.clients[i], true));
      n := k + 3;
      StepsAfter(m, s, v, t, k + 1);
    }
  }

  lemma CanRun(m: Machine, u: System, i: nat) returns (t: System)
    requires At(u, i, Prepared(true)) && !u.clients[i].async
    ensures Step(m, u, t) && t.cas == u.cas
    ensures At(t, i, Finished(Answer(RunRequest(m, u.cas, RequestOf(m, u.clients[i], true)))))
  {
    hide RunRequest, RequestOf;
    t := u.(clients := Moved(u, i, Finished(Answer(RunRequest(m, u.cas, RequestOf(m, u.clients[i], true))))));
    assert RunSync(m, u, t, i, true, true);
  }

  lemma CanSubmit(m: Machine, u: System, i: nat, id: JobId) returns (v: System)
    requires At(u, i, Prepared(true)) && u.clients[i].async && id !in u.jobs
    ensures Step(m, u, v) && v.cas == u.cas && At(v, i, Submitted(id))
    ensures id in v.tasks && v.tasks[id] == RequestOf(m, u.clients[i], true)
  {
    hide RunRequest, RequestOf;
    var req := RequestOf(m, u.clients[i], true);
    v := u.(jobs := u.jobs[id := Running], tasks := u.tasks[id := req], clients := Moved(u, i, Submitted(id)));
    assert Submit(m, u, v, i, true, id, true);
  }

  /** A submitted task completes and is polled. */
  lemma CanFinish(m: Machine, v: System, i: nat, id: JobId, req: Request) returns (t: System)
    requires At(v, i, Submitted(id)) && id in v.tasks && v.tasks[id] == req
    ensures Steps(m, v, t, 2) && t.cas == v.cas && At(t, i, Finished(Answer(RunRequest(m, v.cas, req))))
  {
    hide RunRequest;
    var r := RunRequest(m, v.cas, req);
    var w := v.(jobs := v.jobs[id := EntryOf(r)], tasks := v.tasks - {id});
    assert Complete(m, v, w, id);
    t := w.(clients := Moved(w, i, Finished(Answer(r))));
    assert Poll(w, t, i, id);
    assert Steps(m, v, v, 0) && Step(m, v, w) && Step(m, w, t);
    hide Step;
    OneStep(m, v, v, w, 0);
    OneStep(m, v, w, t, 1);
  }

  lemma StepsAfter(m: Machine, s: System, v: System, t: System, k: nat)
    requires Steps(m, s, v, k) && Steps(m, v, t, 2)
    ensures Steps(m, s, t, k + 2)
  {
    hide Step;
    var w :| Steps(m, v, w, 1) && Step(m, w, t);
    assert Step(m, v, w) by {
      var x :| Steps(m, v, x, 0) && Step(m, x, w);
    }
    OneStep(m, s, v, w, k);
    OneStep(m, s, w, t, k + 1);
  }

  // -- The dispatcher's code, with a worker to itself ------------------------

  /** Probe, and upload if need be.  What gets through is up to the network: the answer to the
      probe, the upload, and its acknowledgement.  The request speaks of the hash exactly if
      the client knows that the worker has the bytes. */
  method Announce(w: Worker, wasm: Wasm, input: Input, probed: bool, arrives: bool, acknowledged: bool)
    returns (req: Request)
    requires HonestFiles(w.m, w.cas)
    modifies w`cas
    ensures HonestFiles(w.m, w.cas) && forall k :: k in old(w.cas) ==> k in w.cas
    ensures var found := probed && w.m.sha(wasm) in old(w.cas);
            && w.cas == (if !found && arrives then old(w.cas)[w.m.sha(wasm) := wasm] else old(w.cas))
            && req == if found || (arrives && acknowledged) then Request(None, Some(w.m.sha(wasm)), input)
                      else Request(Some(wasm), None, input)
    ensures CollisionFree(w.m) ==> RunRequest(w.m, w.cas, req) == w.m.exec(wasm, input)
  {
    hide Lower, CollisionFree, RunRequest;
    var k := w.m.sha(wasm);
    var byHash := false;
    if probed { byHash := w.HandleCasHead(k); }
    if !byHash && arrives {
      PutIsHonest(w.m, w.cas, k, wasm);
      var created := w.HandleCasPut(k, wasm);
      byHash := created && acknowledged;
    }
    req := if byHash then Request(None, Some(k), input) else Request(Some(wasm), None, input);
    if CollisionFree(w.m) { RequestRunsBytes(w.m, w.cas, wasm, input, byHash); }
  }

  /** `run_remote`: whatever is lost on the way, an answer is that of the caller's bytes, and
      there is one exactly if the worker's answer to the run itself gets through. */
  method RunRemote(w: Worker, wasm: Wasm, input: Input, probed: bool, arrives: bool, acknowledged: bool, answered: bool)
    returns (reply: Reply)
    requires CollisionFree(w.m) && HonestFiles(w.m, w.cas)
    modifies w`cas
    ensures HonestFiles(w.m, w.cas) && forall k :: k in old(w.cas) ==> k in w.cas
    ensures arrives && !probed ==> w.m.sha(wasm) in w.cas
    ensures reply == if answered then Answer(w.m.exec(wasm, input)) else Lost
  {
    hide Lower, CollisionFree, RunRequest;
    var req := Announce(w, wasm, input, probed, arrives, acknowledged);
    if !answered { return Lost; }
    var r := w.HandleRun(req);
    reply := Answer(r);
  }

  /** `run_remote_async`: submit, then poll until the entry is terminal or patience runs out.
      The submission and its acknowledgement may be lost; the spawned task has finished by the
      poll with number `finishesAt`. */
  method RunRemoteAsync(w: Worker, id: JobId, wasm: Wasm, input: Input, patience: nat, probed: bool, arrives: bool,
                        acknowledged: bool, submitted: bool, accepted: bool, finishesAt: nat)
    returns (reply: Reply)
    requires CollisionFree(w.m) && HonestFiles(w.m, w.cas) && id !in w.jobs
    modifies w`cas, w`jobs, w`tasks
    ensures HonestFiles(w.m, w.cas) && forall k :: k in old(w.cas) ==> k in w.cas
    ensures forall other :: other in old(w.jobs) ==> other in w.jobs && w.jobs[other] == old(w.jobs)[other]
    ensures reply == if submitted && accepted && finishesAt < patience then Answer(w.m.exec(wasm, input)) else Lost
    ensures reply.Answer? ==> id in w.jobs && w.jobs[id] == EntryOf(reply.result)
  {
    hide Lower, CollisionFree, RunRequest;
    var req := Announce(w, wasm, input, probed, arrives, acknowledged);
    if submitted { w.HandleSubmit(id, req); }
    if !submitted || !accepted { return Lost; }
    ghost var cas := w.cas;
    for polls := 0 to patience
      invariant w.cas == cas && polls <= finishesAt
      invariant id in w.jobs && w.jobs[id].Running? && id in w.tasks && w.tasks[id] == req
      invariant forall other :: other in old(w.jobs) ==> other in w.jobs && w.jobs[other] == old(w.jobs)[other]
    {
      if polls == finishesAt { w.FinishTask(id); }
      var entry := w.HandleGetJob(id);
      match entry.value
      case Running =>
      case Succeeded(output) => return Answer(Ok(output));
      case Failed(e) => return Answer(Err(e));
    }
    reply := Lost;
  }
}
