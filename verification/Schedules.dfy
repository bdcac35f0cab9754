/** Competing schedule daemons: the optimistic claim of a due schedule. */
module Schedules {
  import opened Collections

  type ScheduleId = string

  datatype Schedule = Schedule(lastRunAt: Option<nat>, nextRunAt: nat)

  type Table = map<ScheduleId, Schedule>

  // -- The two UPDATE statements ---------------------------------------------

  /** Advances `next_run_at` only if it still has the expected value. */
  function ClaimSchedule(table: Table, id: ScheduleId, oldNext: nat, newNext: nat): (r: (Table, bool))
    ensures r.0.Keys == table.Keys
  {
    if id in table && table[id].nextRunAt == oldNext
    then (table[id := table[id].(nextRunAt := newNext)], true)
    else (table, false)
  }

  /** Unconditional: the row gets the given values whatever it holds by now. */
  function UpdateScheduleNext(table: Table, id: ScheduleId, lastRunAt: nat, nextRunAt: nat): (r: Table)
    ensures r.Keys == table.Keys
  {
    if id in table then table[id := Schedule(Some(lastRunAt), nextRunAt)] else table
  }

  // -- Daemons ---------------------------------------------------------------

  datatype Due = Due(id: ScheduleId, next: nat)

  /** `due` is what is left of the snapshot taken at `readAt`; `firing` is the claimed
      schedule whose workflow is running, with the value its claim wrote. */
  datatype Daemon = Daemon(due: seq<Due>, readAt: nat, firing: Option<Due>)

  /** `fired` records every (schedule, next_run_at value) a claim has consumed. */
  datatype System = System(now: nat, table: Table, daemons: map<nat, Daemon>, fired: multiset<Due>)

  const IDLE := Daemon([], 0, None)

  ghost predicate IsDue(s: System, e: Due) {
    e.id in s.table && s.table[e.id].nextRunAt == e.next && e.next <= s.now
  }

  // The steps of `fire_due_schedules`; any daemon may take any of its steps at any time.

  ghost predicate Tick(s: System, t: System) {
    t == s.(now := t.now) && s.now <= t.now
  }

  /** A daemon process starts, or starts again having lost its local state. */
  ghost predicate Restart(s: System, t: System, d: nat) {
    t == s.(daemons := s.daemons[d := IDLE])
  }

  ghost predicate ReadDue(s: System, t: System, d: nat, due: seq<Due>) {
    && d in s.daemons && s.daemons[d].due == [] && s.daemons[d].firing.None?
    && (forall e :: e in due ==> IsDue(s, e))
    && t == s.(daemons := s.daemons[d := Daemon(due, s.now, None)])
  }

  /** An entry passed over: bad cron expression, store not opened. */
  ghost predicate PassOver(s: System, t: System, d: nat) {
    && d in s.daemons && s.daemons[d].due != [] && s.daemons[d].firing.None?
    && t == s.(daemons := s.daemons[d := s.daemons[d].(due := s.daemons[d].due[1..])])
  }

  /** The cron expression's next occurrence after the snapshot is computed and the claim
      is attempted; a lost claim skips the entry. */
  ghost predicate Claim(s: System, t: System, d: nat, newNext: nat) {
    && d in s.daemons && s.daemons[d].due != [] && s.daemons[d].firing.None?
    && newNext > s.daemons[d].readAt
    && var e, rest := s.daemons[d].due[0], s.daemons[d].due[1..];
       var (table, won) := ClaimSchedule(s.table, e.id, e.next, newNext);
       t == System(
         s.now, table,
         s.daemons[d := s.daemons[d].(due := rest, firing := if won then Some(Due(e.id, newNext)) else None)],
         if won then s.fired + multiset{e} else s.fired)
  }

  /** The claimed workflow could not be loaded: the claim stands, no update follows. */
  ghost predicate Abandon(s: System, t: System, d: nat) {
    && d in s.daemons && s.daemons[d].firing.Some?
    && t == s.(daemons := s.daemons[d := s.daemons[d].(firing := None)])
  }

  /** The workflow has run: record it. */
  ghost predicate Update(s: System, t: System, d: nat) {
    && d in s.daemons && s.daemons[d].firing.Some?
    && var f := s.daemons[d].firing.value;
       t == s.(table := UpdateScheduleNext(s.table, f.id, s.now, f.next),
               daemons := s.daemons[d := s.daemons[d].(firing := None)])
  }

  /** The update arrives before anyone has claimed the schedule again. */
  ghost predicate Timely(s: System, d: nat) {
    d in s.daemons && s.daemons[d].firing.Some? ==>
      var f := s.daemons[d].firing.value;
      f.id in s.table ==> s.table[f.id].nextRunAt == f.next
  }

  ghost predicate Step(s: System, t: System) {
    || Tick(s, t)
    || (exists d :: Restart(s, t, d))
    || (exists d, due :: ReadDue(s, t, d, due))
    || (exists d :: PassOver(s, t, d))
    || (exists d, newNext :: Claim(s, t, d, newNext))
    || (exists d :: Abandon(s, t, d))
    || (exists d :: Timely(s, d) && Update(s, t, d))
  }

  ghost predicate Steps(s: System, t: System, n: nat)
    decreases n
  {
    if n == 0 then s == t else exists m :: Steps(s, m, n - 1) && Step(m, t)
  }

  // -- The invariant ---------------------------------------------------------

  /** Every value claimed so far lies strictly below the stored one. */
  ghost predicate FiredBelow(s: System) {
    forall e :: e in s.fired ==> s.fired[e] == 1 && (e.id in s.table ==> e.next < s.table[e.id].nextRunAt)
  }

  ghost predicate Consistent(s: System) {
    && FiredBelow(s)
    && (forall d, e :: d in s.daemons && e in s.daemons[d].due ==> e.next <= s.daemons[d].readAt)
    && (forall d :: d in s.daemons && s.daemons[d].firing.Some? ==>
          var f := s.daemons[d].firing.value;
          f in s.fired || (f.id in s.table ==> f.next == s.table[f.id].nextRunAt))
  }

  ghost predicate Initial(s: System) {
    s.fired == multiset{} && s.daemons == map[]
  }

  lemma ClaimConsistent(s: System, t: System, d: nat, newNext: nat)
    requires Consistent(s) && Claim(s, t, d, newNext)
    ensures Keeps(s, t)
  {
    var e := s.daemons[d].due[0];
    assert e in s.daemons[d].due;
    assert e.next < newNext;
    forall k, x | k in t.daemons && x in t.daemons[k].due ensures x.next <= t.daemons[k].readAt {
      if k == d { assert x in s.daemons[d].due; }
    }
  }

  ghost predicate Keeps(s: System, t: System) {
    && Consistent(t)
    && forall id :: id in s.table ==> id in t.table && s.table[id].nextRunAt <= t.table[id].nextRunAt
  }

  /** Steps that touch neither the table nor the log and give no daemon a new claim. */
  lemma LocalConsistent(s: System, t: System)
    requires Consistent(s) && t.table == s.table && t.fired == s.fired
    requires forall d :: d in t.daemons && t.daemons[d].firing.Some? ==>
        d in s.daemons && t.daemons[d].firing == s.daemons[d].firing
    requires forall d, e :: d in t.daemons && e in t.daemons[d].due ==> e.next <= t.daemons[d].readAt
    ensures Keeps(s, t)
  {
  }

  lemma PassOverConsistent(s: System, t: System, d: nat)
    requires Consistent(s) && PassOver(s, t, d)
    ensures Keeps(s, t)
  {
    assert forall x :: x in s.daemons[d].due[1..] ==> x in s.daemons[d].due;
    LocalConsistent(s, t);
  }

  lemma UpdateConsistent(s: System, t: System, d: nat)
    requires Consistent(s) && Timely(s, d) && Update(s, t, d)
    ensures Keeps(s, t)
  {
  }

  /** Ticking, restarting, reading the due schedules and abandoning a run. */
  lemma QuietConsistent(s: System, t: System)
    requires Consistent(s)
    requires Tick(s, t) || (exists d :: Restart(s, t, d) || Abandon(s, t, d)) || exists d, due :: ReadDue(s, t, d, due)
    ensures Keeps(s, t)
  {
    LocalConsistent(s, t);
  }

  lemma StepConsistent(s: System, t: System)
    requires Consistent(s) && Step(s, t)
    ensures Keeps(s, t)
  {
    hide Consistent, Keeps, Claim, Update, PassOver, Tick, Restart, Abandon, ReadDue, Timely;
    if d, newNext :| Claim(s, t, d, newNext) {
      ClaimConsistent(s, t, d, newNext);
    } else if d :| Timely(s, d) && Update(s, t, d) {
      UpdateConsistent(s, t, d);
    } else if d :| PassOver(s, t, d) {
      PassOverConsistent(s, t, d);
    } else {
      QuietConsistent(s, t);
    }
  }

  lemma {:induction false} StepsConsistent(s: System, t: System, n: nat)
    requires Consistent(s) && Steps(s, t, n)
    ensures Keeps(s, t)
    decreases n
  {
    hide Consistent, Step;
    if n > 0 {
      var m :| Steps(s, m, n - 1) && Step(m, t);
      StepsConsistent(s, m, n - 1);
      StepConsistent(m, t);
    }
  }

  lemma Extend(s: System, m: System, t: System, n: nat)
    requires Steps(s, m, n) && Step(m, t)
    ensures Steps(s, t, n + 1)
  {
  }

  // -- The theorems ----------------------------------------------------------

  /** With timely updates no (schedule, next_run_at) value is ever claimed twice, by any
      number of daemons in any interleaving, and `next_run_at` never goes back. */
  lemma ClaimedAtMostOnce(s: System, t: System, n: nat, e: Due)
    requires Initial(s) && Steps(s, t, n)
    ensures t.fired[e] <= 1
    ensures e.id in s.table ==> e.id in t.table && s.table[e.id].nextRunAt <= t.table[e.id].nextRunAt
  {
    StepsConsistent(s, t, n);
  }

  /** Each successful claim strictly advances the schedule. */
  lemma WinningClaimAdvances(s: System, t: System, d: nat, newNext: nat)
    requires Consistent(s) && Claim(s, t, d, newNext) && t.fired != s.fired
    ensures var id := s.daemons[d].due[0].id;
            id in s.table && t.table[id].nextRunAt == newNext > s.table[id].nextRunAt
  {
    assert s.daemons[d].due[0] in s.daemons[d].due;
  }

  /** Some continuation, itself with timely updates only, claims a value twice. */
  ghost predicate CanFireTwice(s: System) {
    exists t: System, n: nat, e: Due :: Steps(s, t, n) && t.fired[e] > 1
  }

  /** The update is where the protocol can break, and exactly when: it leads to a system
      that can fire a value twice if and only if it is not timely, that is, if and only
      if another daemon has claimed the schedule while the workflow was running. */
  lemma LateUpdateIsExactlyTheDanger(s: System, t: System, d: nat)
    requires Consistent(s) && Update(s, t, d)
    ensures CanFireTwice(t) <==> !Timely(s, d)
  {
    if Timely(s, d) {
      StepConsistent(s, t);
      if u: System, n: nat, e: Due :| Steps(t, u, n) && u.fired[e] > 1 { StepsConsistent(t, u, n); }
    } else {
      FireAgain(t, s.daemons[d].firing.value);
    }
  }

  function AfterCycle(s: System, d: nat, e: Due, now: nat, newNext: nat): System {
    System(now, ClaimSchedule(s.table, e.id, e.next, newNext).0,
           s.daemons[d := Daemon([], now, Some(Due(e.id, newNext)))],
           s.fired + multiset{e})
  }

  lemma RestartAndWait(s: System, d: nat, now: nat)
    requires s.now <= now
    ensures Steps(s, s.(daemons := s.daemons[d := IDLE], now := now), 2)
  {
    var s1 := s.(daemons := s.daemons[d := IDLE]);
    var s2 := s1.(now := now);
    assert Restart(s, s1, d) && Tick(s1, s2);
    assert Step(s, s1) && Step(s1, s2);
    hide Step;
    Extend(s, s, s1, 0);
    Extend(s, s1, s2, 1);
  }

  lemma ReadOne(s: System, d: nat, e: Due)
    requires d in s.daemons && s.daemons[d] == IDLE && IsDue(s, e)
    ensures Step(s, s.(daemons := s.daemons[d := Daemon([e], s.now, None)]))
  {
    assert ReadDue(s, s.(daemons := s.daemons[d := Daemon([e], s.now, None)]), d, [e]);
  }

  lemma ClaimOne(s: System, d: nat, e: Due, newNext: nat)
    requires d in s.daemons && s.daemons[d] == Daemon([e], s.now, None) && IsDue(s, e) && newNext > s.now
    ensures Step(s, AfterCycle(s, d, e, s.now, newNext))
  {
    assert s.daemons[d].due[1..] == [];
    assert Claim(s, AfterCycle(s, d, e, s.now, newNext), d, newNext);
  }

  /** A daemon restarts, waits until the schedule is due, reads it and claims it. */
  lemma Cycle(s: System, d: nat, e: Due, now: nat, newNext: nat)
    requires e.id in s.table && s.table[e.id].nextRunAt == e.next
    requires s.now <= now && e.next <= now < newNext
    ensures Steps(s, AfterCycle(s, d, e, now, newNext), 4)
  {
    hide Step, Steps;
    var s2 := s.(daemons := s.daemons[d := IDLE], now := now);
    var s3 := s2.(daemons := s2.daemons[d := Daemon([e], now, None)]);
    RestartAndWait(s, d, now);
    ReadOne(s2, d, e);
    ClaimOne(s3, d, e, newNext);
    assert AfterCycle(s3, d, e, now, newNext) == AfterCycle(s, d, e, now, newNext);
    Extend(s, s2, s3, 2);
    Extend(s, s3, AfterCycle(s, d, e, now, newNext), 3);
  }

  lemma FireAgain(s: System, e: Due)
    requires e in s.fired && e.id in s.table && s.table[e.id].nextRunAt == e.next
    ensures CanFireTwice(s)
  {
    var now := if s.now < e.next then e.next else s.now;
    Cycle(s, 0, e, now, now + 1);
    assert AfterCycle(s, 0, e, now, now + 1).fired[e] > 1;
  }

  lemma {:induction false} StepsCompose(s: System, t: System, u: System, m: nat, n: nat)
    requires Steps(s, t, m) && Steps(t, u, n)
    ensures Steps(s, u, m + n)
    decreases n
  {
    hide Step;
    if n > 0 {
      var v :| Steps(t, v, n - 1) && Step(v, u);
      StepsCompose(s, t, v, m, n - 1);
    }
  }

  /** The danger is real: a schedule due every 100 seconds whose workflow outlives the
      next occurrence.  Daemon 0 claims 100, daemon 1 claims 200, and daemon 0's update
      makes 200 due again. */
  lemma SlowWorkflowFiresTwice()
    ensures exists s: System, m: System, t: System, n: nat, d: nat ::
        Initial(s) && Steps(s, m, n) && Update(m, t, d) && CanFireTwice(t)
  {
    hide Steps, CanFireTwice;
    var s0 := System(150, map["s" := Schedule(None, 100)], map[], multiset{});
    Cycle(s0, 0, Due("s", 100), 150, 200);
    var s1 := AfterCycle(s0, 0, Due("s", 100), 150, 200);
    Cycle(s1, 1, Due("s", 200), 250, 300);
    var s2 := AfterCycle(s1, 1, Due("s", 200), 250, 300);
    StepsCompose(s0, s1, s2, 4, 4);
    var t := s2.(table := UpdateScheduleNext(s2.table, "s", 250, 200),
                 daemons := s2.daemons[0 := s2.daemons[0].(firing := None)]);
    assert Update(s2, t, 0);
    FireAgain(t, Due("s", 200));
  }
}
