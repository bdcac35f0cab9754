/** The run database: three tables changed by single statements. */
module Stores {
  import opened Collections
  import opened Graph
  import opened States
  import opened Schedules

  type RunId = string

  /** The part of job_states that belongs to one run. */
  function RowsOf(jobStates: map<(RunId, Id), Row>, run: RunId): map<Id, Row> {
    map k | k in jobStates && k.0 == run :: k.1 := jobStates[k]
  }

  /** Everything else in job_states. */
  function OtherRows(jobStates: map<(RunId, Id), Row>, run: RunId): map<(RunId, Id), Row> {
    map k | k in jobStates && k.0 != run :: jobStates[k]
  }

  lemma OtherRunsAgree(a: map<(RunId, Id), Row>, b: map<(RunId, Id), Row>, run: RunId, other: RunId)
    requires OtherRows(a, run) == OtherRows(b, run) && other != run
    ensures RowsOf(a, other) == RowsOf(b, other)
  {
    forall j ensures (other, j) in a <==> (other, j) in b {
      assert (other, j) in OtherRows(a, run) <==> (other, j) in OtherRows(b, run);
    }
    forall j | (other, j) in a ensures a[(other, j)] == b[(other, j)] {
      assert OtherRows(a, run)[(other, j)] == OtherRows(b, run)[(other, j)];
    }
  }

  class RunStore {
    /** runs: id -> workflow path. */
    var runs: map<RunId, string>
    var jobStates: map<(RunId, Id), Row>
    var schedules: Table

    constructor ()
      ensures runs == map[] && jobStates == map[] && schedules == map[]
    {
      runs, jobStates, schedules := map[], map[], map[];
    }

    method CreateRun(run: RunId, path: string)
      modifies this`runs
      ensures runs == old(runs)[run := path]
    {
      runs := runs[run := path];
    }

    /** Changes one row of one run and nothing else. */
    method UpsertJob(run: RunId, job: Id, st: Status)
      modifies this`jobStates
      ensures RowsOf(jobStates, run) == RowsOf(old(jobStates), run)[job := Serialize(st)]
      ensures OtherRows(jobStates, run) == OtherRows(old(jobStates), run)
    {
      jobStates := jobStates[(run, job) := Serialize(st)];
    }

    /** The statuses of a previous run; None if there is no such run. */
    method LoadRun(run: RunId) returns (r: Option<(string, map<Id, Status>)>)
      ensures r.None? <==> run !in runs
      ensures r.Some? ==> r.value.0 == runs[run]
      ensures r.Some? ==> r.value.1 == DecodeAll(RowsOf(jobStates, run))
    {
      if run !in runs { return None; }
      var statuses: map<Id, Status> := map[];
      var keys := Enumerate(jobStates.Keys);
      for i := 0 to |keys|
        invariant forall j :: j in statuses <==> (run, j) in keys[..i]
        invariant forall j :: j in statuses ==> (run, j) in jobStates && statuses[j] == Decode(jobStates[(run, j)])
      {
        assert keys[i] in Elems(keys);
        assert keys[..i + 1] == keys[..i] + [keys[i]];
        if keys[i].0 == run { statuses := statuses[keys[i].1 := Decode(jobStates[keys[i]])]; }
      }
      assert keys[..|keys|] == keys;
      assert forall k :: k in jobStates <==> k in Elems(keys);
      r := Some((runs[run], statuses));
    }

    /** Entries due at the given time, each once, earliest first. */
    method DueSchedules(now: nat) returns (due: seq<Due>)
      ensures forall e :: e in due <==> e.id in schedules && schedules[e.id].nextRunAt == e.next && e.next <= now
      ensures EarliestFirst(due) && NoDup(due)
    {
      due := [];
      var ids := Enumerate(schedules.Keys);
      for i := 0 to |ids|
        invariant forall e :: e in due <==>
            e.id in ids[..i] && e.id in schedules && schedules[e.id].nextRunAt == e.next && e.next <= now
        invariant EarliestFirst(due) && NoDup(due)
      {
        assert ids[i] in Elems(ids);
        assert ids[..i + 1] == ids[..i] + [ids[i]];
        var e := Due(ids[i], schedules[ids[i]].nextRunAt);
        if e.next <= now {
          InsertKeepsDistinct(due, e);
          due := InsertByTime(due, e);
        }
      }
      assert ids[..|ids|] == ids;
      assert forall id :: id in schedules ==> id in Elems(ids);
    }

    method ClaimSchedule(id: ScheduleId, oldNext: nat, newNext: nat) returns (won: bool)
      modifies this`schedules
      ensures won <==> id in old(schedules) && old(schedules)[id].nextRunAt == oldNext
      ensures schedules ==
          if won then old(schedules)[id := Schedule(old(schedules)[id].lastRunAt, newNext)] else old(schedules)
      ensures (schedules, won) == Schedules.ClaimSchedule(old(schedules), id, oldNext, newNext)
    {
      won := id in schedules && schedules[id].nextRunAt == oldNext;
      if won { schedules := schedules[id := schedules[id].(nextRunAt := newNext)]; }
    }

    method UpdateScheduleNext(id: ScheduleId, lastRunAt: nat, nextRunAt: nat)
      modifies this`schedules
      ensures schedules ==
          if id in old(schedules) then old(schedules)[id := Schedule(Some(lastRunAt), nextRunAt)] else old(schedules)
      ensures schedules == Schedules.UpdateScheduleNext(old(schedules), id, lastRunAt, nextRunAt)
    {
      if id in schedules { schedules := schedules[id := Schedule(Some(lastRunAt), nextRunAt)]; }
    }
  }

  predicate EarliestFirst(due: seq<Due>) {
    due == [] || ((forall e :: e in due[1..] ==> due[0].next <= e.next) && EarliestFirst(due[1..]))
  }

  function InsertByTime(due: seq<Due>, e: Due): (r: seq<Due>)
    requires EarliestFirst(due)
    ensures forall x :: x in r <==> x == e || x in due
    ensures EarliestFirst(r)
  {
    if due == [] then [e]
    else if e.next <= due[0].next then
      assert ([e] + due)[1..] == due;
      assert due == [due[0]] + due[1..];
      [e] + due
    else
      var rest := InsertByTime(due[1..], e);
      assert ([due[0]] + rest)[1..] == rest;
      assert due == [due[0]] + due[1..];
      [due[0]] + rest
  }

  lemma {:induction false} InsertKeepsDistinct(due: seq<Due>, e: Due)
    requires EarliestFirst(due) && NoDup(due) && e !in due
    ensures NoDup(InsertByTime(due, e))
  {
    if due != [] && e.next > due[0].next {
      InsertKeepsDistinct(due[1..], e);
      var rest := InsertByTime(due[1..], e);
      assert InsertByTime(due, e) == [due[0]] + rest;
      assert due[0] !in rest;
    }
  }
}
