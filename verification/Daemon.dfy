/** One pass of a schedule daemon over the store, as a run of the claim protocol. */
module Daemons {
  import opened Collections
  import opened Schedules
  import opened Stores

  /** What the daemon learns from outside: the next occurrence of each cron expression
      (None if it has none), whether the workflow file loads, how long its run takes. */
  datatype World = World(
    nextOf: ScheduleId -> Option<nat>,
    loads: ScheduleId -> bool,
    takes: ScheduleId -> nat)

  /** The row of a schedule after the pass has dealt with it. */
  function Settle(w: World, row: Schedule, id: ScheduleId, finish: nat): Schedule {
    if w.nextOf(id).None? then row
    else Schedule(if w.loads(id) then Some(finish) else row.lastRunAt, w.nextOf(id).value)
  }

  ghost predicate Settled(w: World, row: Schedule, row': Schedule, id: ScheduleId, now: nat) {
    exists finish :: finish >= now && row' == Settle(w, row, id, finish)
  }

  /** The daemon's own state while it works through its snapshot. */
  ghost predicate Working(s: System, d: nat, due: seq<Due>, readAt: nat) {
    d in s.daemons && s.daemons[d] == Daemon(due, readAt, None)
  }

  /** One entry of the snapshot: claim it, run it, record it. */
  method FireOne(store: RunStore, e: Due, w: World, clock: nat, ghost d: nat, ghost rest: seq<Due>,
                 ghost readAt: nat, ghost s: System)
    returns (claimed: bool, clock': nat, ghost s': System, ghost n: nat)
    requires Working(s, d, [e] + rest, readAt) && s.table == store.schedules && s.now == clock
    requires w.nextOf(e.id).Some? ==> w.nextOf(e.id).value > readAt
    modifies store`schedules
    ensures Steps(s, s', n) && Working(s', d, rest, readAt) && s'.table == store.schedules && s'.now == clock' >= clock
    ensures claimed <==>
        w.nextOf(e.id).Some? && e.id in old(store.schedules) && old(store.schedules)[e.id].nextRunAt == e.next
    ensures clock' == clock + if claimed && w.loads(e.id) then w.takes(e.id) else 0
    ensures s'.fired == if claimed then s.fired + multiset{e} else s.fired
    ensures store.schedules == if claimed
        then old(store.schedules)[e.id := Settle(w, old(store.schedules)[e.id], e.id, clock')]
        else old(store.schedules)
  {
    hide Step, Steps;
    claimed, clock' := false, clock;
    var next := w.nextOf(e.id);
    if next.None? {
      s', n := Freed(s, d, rest, readAt), 1;
      PassOverEntry(s, d, e, rest, readAt);
      return;
    }
    claimed := store.ClaimSchedule(e.id, e.next, next.value);
    s', n := AfterClaim(s, d, e, rest, readAt, next.value), 1;
    ClaimEntry(s, d, e, rest, readAt, next.value);
    if !claimed { return; }
    ghost var m := s';
    if w.loads(e.id) {
      clock' := clock + w.takes(e.id);
      store.UpdateScheduleNext(e.id, clock', next.value);
      s', n := Freed(m.(now := clock', table := store.schedules), d, rest, readAt), 3;
      RecordRun(s, m, d, Due(e.id, next.value), rest, readAt, clock');
    } else {
      s', n := Freed(m, d, rest, readAt), 2;
      AbandonRun(s, m, d, Due(e.id, next.value), rest, readAt);
    }
  }

  ghost function Freed(s: System, d: nat, rest: seq<Due>, readAt: nat): System {
    s.(daemons := s.daemons[d := Daemon(rest, readAt, None)])
  }

  ghost function AfterClaim(s: System, d: nat, e: Due, rest: seq<Due>, readAt: nat, newNext: nat): System {
    var (table, won) := ClaimSchedule(s.table, e.id, e.next, newNext);
    System(s.now, table,
           s.daemons[d := Daemon(rest, readAt, if won then Some(Due(e.id, newNext)) else None)],
           if won then s.fired + multiset{e} else s.fired)
  }

  lemma PassOverEntry(s: System, d: nat, e: Due, rest: seq<Due>, readAt: nat)
    requires Working(s, d, [e] + rest, readAt)
    ensures Steps(s, Freed(s, d, rest, readAt), 1)
  {
    assert ([e] + rest)[1..] == rest;
    assert PassOver(s, Freed(s, d, rest, readAt), d);
    OneStep(s, Freed(s, d, rest, readAt));
  }

  lemma ClaimEntry(s: System, d: nat, e: Due, rest: seq<Due>, readAt: nat, newNext: nat)
    requires Working(s, d, [e] + rest, readAt) && newNext > readAt
    ensures Steps(s, AfterClaim(s, d, e, rest, readAt, newNext), 1)
  {
    assert ([e] + rest)[1..] == rest;
    assert Claim(s, AfterClaim(s, d, e, rest, readAt, newNext), d, newNext);
    OneStep(s, AfterClaim(s, d, e, rest, readAt, newNext));
  }

  /** Nobody else has claimed the schedule meanwhile, so the update is timely. */
  lemma RecordRun(s: System, m: System, d: nat, f: Due, rest: seq<Due>, readAt: nat, finish: nat)
    requires Steps(s, m, 1) && d in m.daemons && m.daemons[d] == Daemon(rest, readAt, Some(f))
    requires f.id in m.table && m.table[f.id].nextRunAt == f.next && m.now <= finish
    ensures Steps(s,
            Freed(m.(now := finish, table := UpdateScheduleNext(m.table, f.id, finish, f.next)), d, rest, readAt), 3)
  {
    var late := m.(now := finish);
    var t := Freed(late.(table := UpdateScheduleNext(m.table, f.id, finish, f.next)), d, rest, readAt);
    assert Tick(m, late) && Step(m, late);
    assert Timely(late, d) && Update(late, t, d) && Step(late, t);
    hide Step;
    AppendStep(s, m, late, 1);
    AppendStep(s, late, t, 2);
  }

  lemma AbandonRun(s: System, m: System, d: nat, f: Due, rest: seq<Due>, readAt: nat)
    requires Steps(s, m, 1) && d in m.daemons && m.daemons[d] == Daemon(rest, readAt, Some(f))
    ensures Steps(s, Freed(m, d, rest, readAt), 2)
  {
    assert Abandon(m, Freed(m, d, rest, readAt), d);
    AppendStep(s, m, Freed(m, d, rest, readAt), 1);
  }

  lemma OneStep(s: System, t: System)
    requires Step(s, t)
    ensures Steps(s, t, 1)
  {
    assert Steps(s, s, 0);
  }

  lemma AppendStep(s: System, m: System, t: System, n: nat)
    requires Steps(s, m, n) && Step(m, t)
    ensures Steps(s, t, n + 1)
  {
  }

  /** The snapshot lists the due schedules, each once. */
  ghost predicate Snapshot(before: Table, now: nat, due: seq<Due>) {
    && NoDup(due)
    && forall e :: e in due <==> e.id in before && before[e.id].nextRunAt == e.next && e.next <= now
  }

  /** The first k entries have been dealt with; the other schedules are as they were. */
  ghost predicate Dealt(w: World, now: nat, before: Table, table: Table, due: seq<Due>, k: nat, fired: seq<Due>)
    requires k <= |due|
  {
    && table.Keys == before.Keys && NoDup(fired)
    && (forall e :: e in fired <==> e in due[..k] && w.nextOf(e.id).Some?)
    && forall id :: id in before ==>
         if Due(id, before[id].nextRunAt) in due[..k] then Settled(w, before[id], table[id], id, now)
         else table[id] == before[id]
  }

  lemma UntouchedEntry(w: World, now: nat, before: Table, table: Table, due: seq<Due>, k: nat, fired: seq<Due>)
    requires Snapshot(before, now, due) && k < |due| && Dealt(w, now, before, table, due, k, fired)
    ensures due[k].id in table && table[due[k].id] == before[due[k].id] && table[due[k].id].nextRunAt == due[k].next
    ensures due[k] !in due[..k]
  {
    hide Settled;
    assert due[k] in due;
    assert forall i :: 0 <= i < k ==> due[..k][i] == due[i];
  }

  lemma DealtNext(w: World, now: nat, before: Table, table: Table, table': Table, due: seq<Due>, k: nat,
                  fired: seq<Due>, finish: nat)
    requires Snapshot(before, now, due) && k < |due| && Dealt(w, now, before, table, due, k, fired) && finish >= now
    requires due[k].id in table
    requires w.nextOf(due[k].id).Some? ==> table' == table[due[k].id := Settle(w, table[due[k].id], due[k].id, finish)]
    requires w.nextOf(due[k].id).None? ==> table' == table
    ensures Dealt(w, now, before, table', due, k + 1, if w.nextOf(due[k].id).Some? then fired + [due[k]] else fired)
  {
    UntouchedEntry(w, now, before, table, due, k, fired);
    var e := due[k];
    assert due[..k + 1] == due[..k] + [e];
    forall id | id in before && Due(id, before[id].nextRunAt) == e
      ensures Settled(w, before[id], table'[id], id, now)
    {
      assert table'[id] == Settle(w, before[id], id, finish);
    }
    hide Settled, Settle;
  }

  /** `fire_due_schedules`, undisturbed by other daemons.  The pass is a run of the claim
      protocol; it claims exactly the due schedules that have a next occurrence, each
      once, advances those and only those, and records a run for those that load. */
  method FireDueSchedules(store: RunStore, w: World, now: nat, ghost d: nat, ghost s: System)
    returns (fired: seq<Due>, ghost s': System, ghost n: nat)
    requires d in s.daemons && Working(s, d, [], s.daemons[d].readAt) && s.table == store.schedules && s.now == now
    requires forall id :: w.nextOf(id).Some? ==> w.nextOf(id).value > now
    modifies store`schedules
    ensures Steps(s, s', n) && s'.table == store.schedules && Working(s', d, [], now)
    ensures s'.fired == s.fired + multiset(fired) && NoDup(fired)
    ensures forall e :: e in fired <==>
        e.id in s.table && s.table[e.id].nextRunAt == e.next && e.next <= now && w.nextOf(e.id).Some?
    ensures store.schedules.Keys == old(store.schedules.Keys)
    ensures forall id :: id in store.schedules ==>
        if old(store.schedules)[id].nextRunAt <= now && w.nextOf(id).Some?
        then && store.schedules[id].nextRunAt == w.nextOf(id).value
             && if w.loads(id) then store.schedules[id].lastRunAt.Some? && store.schedules[id].lastRunAt.value >= now
                else store.schedules[id].lastRunAt == old(store.schedules)[id].lastRunAt
        else store.schedules[id] == old(store.schedules)[id]
  {
    hide Dealt, Settled, Settle, Steps, EarliestFirst;
    var due := store.DueSchedules(now);
    ghost var before := store.schedules;
    fired, s', n := [], Freed(s, d, due, now), 1;
    assert Snapshot(before, now, due);
    hide Snapshot, Working, Freed;
    ReadSnapshot(s, d, due);
    NothingDealt(w, now, before, due);
    var clock := now;
    for k := 0 to |due|
      invariant Steps(s, s', n) && Working(s', d, due[k..], now)
      invariant s'.table == store.schedules && s'.now == clock >= now
      invariant s'.fired == s.fired + multiset(fired)
      invariant Dealt(w, now, before, store.schedules, due, k, fired)
    {
      var e := due[k];
      assert due[k..] == [e] + due[k + 1..];
      ghost var table, u := store.schedules, s';
      UntouchedEntry(w, now, before, table, due, k, fired);
      var claimed: bool;
      ghost var more: nat;
      claimed, clock, s', more := FireOne(store, e, w, clock, d, due[k + 1..], now, s');
      DealtNext(w, now, before, table, store.schedules, due, k, fired, clock);
      StepsCompose(s, u, s', n, more);
      n := n + more;
      if claimed { fired := fired + [e]; }
    }
    AllDealt(w, now, before, store.schedules, due, fired);
    PassMeans(w, before, store.schedules, now);
  }

  lemma PassMeans(w: World, before: Table, table: Table, now: nat)
    requires table.Keys == before.Keys
    requires forall id :: id in table ==>
        if before[id].nextRunAt <= now then Settled(w, before[id], table[id], id, now) else table[id] == before[id]
    ensures forall id :: id in table ==>
        if before[id].nextRunAt <= now && w.nextOf(id).Some?
        then && table[id].nextRunAt == w.nextOf(id).value
             && if w.loads(id) then table[id].lastRunAt.Some? && table[id].lastRunAt.value >= now
                else table[id].lastRunAt == before[id].lastRunAt
        else table[id] == before[id]
  {
    hide Settled;
    forall id | id in table && before[id].nextRunAt <= now
      ensures w.nextOf(id).None? ==> table[id] == before[id]
      ensures w.nextOf(id).Some? ==> table[id].nextRunAt == w.nextOf(id).value
      ensures w.nextOf(id).Some? && w.loads(id) ==> table[id].lastRunAt.Some? && table[id].lastRunAt.value >= now
      ensures w.nextOf(id).Some? && !w.loads(id) ==> table[id].lastRunAt == before[id].lastRunAt
    {
      SettledMeans(w, before[id], table[id], id, now);
    }
  }

  lemma SettledMeans(w: World, row: Schedule, row': Schedule, id: ScheduleId, now: nat)
    requires Settled(w, row, row', id, now)
    ensures w.nextOf(id).None? ==> row' == row
    ensures w.nextOf(id).Some? ==> row'.nextRunAt == w.nextOf(id).value
    ensures w.nextOf(id).Some? && w.loads(id) ==> row'.lastRunAt.Some? && row'.lastRunAt.value >= now
    ensures w.nextOf(id).Some? && !w.loads(id) ==> row'.lastRunAt == row.lastRunAt
  {
  }

  lemma ReadSnapshot(s: System, d: nat, due: seq<Due>)
    requires d in s.daemons && Working(s, d, [], s.daemons[d].readAt) && Snapshot(s.table, s.now, due)
    ensures var t := Freed(s, d, due, s.now);
            Steps(s, t, 1) && Working(t, d, due, s.now) && t.table == s.table && t.now == s.now && t.fired == s.fired
  {
    assert ReadDue(s, Freed(s, d, due, s.now), d, due);
    OneStep(s, Freed(s, d, due, s.now));
  }

  lemma NothingDealt(w: World, now: nat, before: Table, due: seq<Due>)
    ensures Dealt(w, now, before, before, due, 0, [])
  {
  }

  lemma AllDealt(w: World, now: nat, before: Table, table: Table, due: seq<Due>, fired: seq<Due>)
    requires Snapshot(before, now, due) && Dealt(w, now, before, table, due, |due|, fired)
    ensures table.Keys == before.Keys && NoDup(fired)
    ensures forall e :: e in fired <==>
        e.id in before && before[e.id].nextRunAt == e.next && e.next <= now && w.nextOf(e.id).Some?
    ensures forall id :: id in table ==>
        if before[id].nextRunAt <= now then Settled(w, before[id], table[id], id, now) else table[id] == before[id]
  {
    hide Settled;
    assert due[..|due|] == due;
  }
}
