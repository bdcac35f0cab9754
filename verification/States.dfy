/** Job statuses and their persisted form. */
module States {
  import opened Collections

  /** Durations are counted in nanoseconds. */
  datatype Status =
    | Pending
    | Ready
    | Running
    | Succeeded(elapsed: nat)
    | Failed(elapsed: nat, reason: string)
    | Cancelled
    | Skipped

  predicate IsDone(st: Status) {
    st.Succeeded? || st.Skipped? || st.Cancelled?
  }

  predicate IsTerminal(st: Status) {
    IsDone(st) || st.Failed?
  }

  /** One row of the job_states table. */
  datatype Row = Row(status: string, elapsedMs: Option<nat>, reason: Option<string>)

  const NANOS_PER_MILLI := 1_000_000
  const U64 := 0x1_0000_0000_0000_0000

  function Millis(elapsed: nat): nat {
    (elapsed / NANOS_PER_MILLI) % U64
  }

  function Serialize(st: Status): Row {
    match st
    case Succeeded(e) => Row("succeeded", Some(Millis(e)), None)
    case Failed(e, why) => Row("failed", Some(Millis(e)), Some(why))
    case Cancelled => Row("cancelled", None, None)
    case Running => Row("running", None, None)
    case Skipped => Row("skipped", None, None)
    case Pending => Row("pending", None, None)
    case Ready => Row("pending", None, None)
  }

  function Decode(row: Row): Status {
    var elapsed := (if row.elapsedMs.Some? then row.elapsedMs.value else 0) * NANOS_PER_MILLI;
    if row.status == "succeeded" then Succeeded(elapsed)
    else if row.status == "failed" then Failed(elapsed, if row.reason.Some? then row.reason.value else "")
    else if row.status == "cancelled" then Cancelled
    else if row.status == "skipped" then Skipped
    else Pending
  }

  /** The rows of a run, read back. */
  function DecodeAll(rows: map<string, Row>): map<string, Status> {
    map j | j in rows :: Decode(rows[j])
  }

  /** What survives a restart: whole milliseconds; a job caught running is to be rerun. */
  function Persisted(st: Status): Status {
    match st
    case Succeeded(e) => Succeeded(Millis(e) * NANOS_PER_MILLI)
    case Failed(e, why) => Failed(Millis(e) * NANOS_PER_MILLI, why)
    case Cancelled => Cancelled
    case Skipped => Skipped
    case Pending => Pending
    case Ready => Pending
    case Running => Pending
  }

  lemma DecodeSerialize(st: Status)
    ensures Decode(Serialize(st)) == Persisted(st)
  {
    var row := Serialize(st);
    assert row.status[0] in "sfcrp";
    if st.Skipped? { assert row.status[1] == 'k'; }
    if st.Succeeded? { assert row.status[1] == 'u'; }
  }

  /** Persisting twice loses nothing more: a status that fits 64-bit milliseconds is stable. */
  lemma PersistedTwice(st: Status)
    ensures Persisted(Persisted(st)) == Persisted(st)
  {
    match st
    case Succeeded(e) => StableMillis(Millis(e));
    case Failed(e, _) => StableMillis(Millis(e));
    case _ =>
  }

  /** The row a status becomes: its label, its duration in milliseconds, its reason. */
  lemma RowsSay(st: Status)
    ensures Serialize(st).status ==
        match st
        case Succeeded(_) => "succeeded"
        case Failed(_, _) => "failed"
        case Cancelled => "cancelled"
        case Running => "running"
        case Skipped => "skipped"
        case _ => "pending"
    ensures Serialize(Succeeded(2_500_000)).elapsedMs == Some(2)
    ensures Serialize(Failed(2_500_000, "why")).elapsedMs == Some(2)
    ensures st.Failed? <==> Serialize(st).reason.Some?
    ensures st.Failed? ==> Serialize(st).reason.value == st.reason
  {
  }

  /** A row nobody would write: an unknown label counts as pending, a missing duration as none,
      a missing reason as empty. */
  lemma OddRows(name: string, elapsedMs: Option<nat>, reason: Option<string>)
    ensures name != "succeeded" && name != "failed" && name != "cancelled" && name != "skipped" ==>
        Decode(Row(name, elapsedMs, reason)) == Pending
    ensures Decode(Row("succeeded", None, reason)) == Succeeded(0)
    ensures Decode(Row("failed", None, None)) == Failed(0, "")
  {
    assert "failed"[0] != "succeeded"[0];
  }

  /** What a status keeps through the store: its kind and reason, and its duration up to less
      than a millisecond, as long as that fits; a job under way is to be run again. */
  lemma PersistedKeeps(st: Status)
    ensures st.Pending? || st.Ready? || st.Running? <==> Persisted(st) == Pending
    ensures (st.Succeeded? <==> Persisted(st).Succeeded?) && (st.Failed? <==> Persisted(st).Failed?)
    ensures (st.Skipped? <==> Persisted(st).Skipped?) && (st.Cancelled? <==> Persisted(st).Cancelled?)
    ensures st.Failed? ==> Persisted(st).reason == st.reason
    ensures (st.Succeeded? || st.Failed?) && st.elapsed < 0x1_0000_0000_0000_0000 * 1_000_000 ==>
        Persisted(st).elapsed <= st.elapsed < Persisted(st).elapsed + 1_000_000
    ensures st.Succeeded? || st.Failed? ==> Persisted(st).elapsed % 1_000_000 == 0
  {
    if st.Succeeded? || st.Failed? { WholeMillis(st.elapsed); }
    hide Millis;
  }

  lemma WholeMillis(elapsed: nat)
    ensures (Millis(elapsed) * NANOS_PER_MILLI) % 1_000_000 == 0
    ensures elapsed < 0x1_0000_0000_0000_0000 * 1_000_000 ==>
        Millis(elapsed) * NANOS_PER_MILLI <= elapsed < Millis(elapsed) * NANOS_PER_MILLI + 1_000_000
  {
    var ms := elapsed / NANOS_PER_MILLI;
    assert elapsed == ms * 1_000_000 + elapsed % 1_000_000;
    assert elapsed < 0x1_0000_0000_0000_0000 * 1_000_000 ==> ms < U64;
  }

  lemma StableMillis(m: nat)
    requires m < U64
    ensures Millis(m * NANOS_PER_MILLI) == m
  {
    assert (m * NANOS_PER_MILLI) / NANOS_PER_MILLI == m;
  }
}
