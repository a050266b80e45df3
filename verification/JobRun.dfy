/** Running an inventory scheduler job and waiting for that very run: the id captured before the write
    tells a run that has not started from one that has finished. */
module JobRun {
  import opened Options
  import opened Polling

  /** lastRun: lastRunJobId, when the row carries one that is not empty. */
  datatype Row = Row(inProgress: bool, lastRun: Option<string>)

  /** A read of the job: it fails, or finds no row, or a row. */
  datatype Read = ReadFailed | Found(row: Option<Row>)

  datatype RunOutcome = UnknownJob | AlreadyRunning | Refused | Started(previous: Option<string>)

  // -- the run tool ----------------------------------------------------------------------------------

  /** cnc_run_inventory_scheduler_job: pre-read, write, read-back. */
  method RunJob(before: Read, accepted: bool, after: Read) returns (outcome: RunOutcome, sent: bool)
    ensures sent <==> !(before.Found? && (before.row.None? || before.row.value.inProgress))
    ensures outcome.Started? <==> sent && accepted
    ensures outcome.Refused? <==> sent && !accepted
    ensures outcome.UnknownJob? <==> before == Found(None)
    ensures outcome.Started? && outcome.previous.None? ==>
      forall id :: !Captures(before, id) && !Captures(after, id)
    ensures outcome.Started? && outcome.previous.Some? ==>
      Captures(before, outcome.previous.value) || Captures(after, outcome.previous.value)
    ensures outcome.Started? && before.Found? && before.row.value.lastRun.Some? ==>
      outcome.previous == before.row.value.lastRun
  {
    var previous: Option<string> := None;
    if before.Found? {
      if before.row.None? { return UnknownJob, false; }
      if before.row.value.inProgress { return AlreadyRunning, false; }
      previous := before.row.value.lastRun;
    }
    sent := true;
    if !accepted { return Refused, true; }
    if previous.None? && after.Found? && after.row.Some? && !after.row.value.inProgress {
      previous := after.row.value.lastRun;
    }
    outcome := Started(previous);
  }

  /** The read shows a job that is not In-Progress and whose last run is id. */
  predicate Captures(r: Read, id: string) {
    r.Found? && r.row.Some? && !r.row.value.inProgress && r.row.value.lastRun == Some(id)
  }

  // -- the wait tool ---------------------------------------------------------------------------------

  /** seen_in_progress once poll n has returned. */
  predicate SeenBy(rows: nat -> Option<Row>, n: nat) {
    (rows(n).Some? && rows(n).value.inProgress) || (n > 0 && SeenBy(rows, n - 1))
  }

  /** The run was witnessed by poll n: In-Progress, or the id moved on; a missing id reads as "". */
  predicate RunSeen(rows: nat -> Option<Row>, previous: Option<string>, n: nat)
    requires rows(n).Some?
  {
    SeenBy(rows, n)
    || (previous.Some? && (if rows(n).value.lastRun.Some? then rows(n).value.lastRun.value else "") != previous.value)
  }

  predicate DoneAt(rows: nat -> Option<Row>, previous: Option<string>, n: nat) {
    rows(n).None? || (!rows(n).value.inProgress && (previous.None? || RunSeen(rows, previous, n)))
  }

  datatype Report = NoSuchJob | Finished | NotInProgress | NotStarted | StillRunning

  /** What the wait says when it ends at poll n. */
  function ReportAt(rows: nat -> Option<Row>, previous: Option<string>, n: nat): Report {
    if rows(n).None? then NoSuchJob
    else if !DoneAt(rows, previous, n) then
      if previous.Some? && !RunSeen(rows, previous, n) then NotStarted else StillRunning
    else if RunSeen(rows, previous, n) then Finished
    else NotInProgress
  }

  /** cnc_wait_for_inventory_scheduler_job: the n-th poll reads rows(n). */
  method WaitForJob(rows: nat -> Option<Row>, previous: Option<string>, clock: nat -> int, timeout: int, interval: int)
    returns (report: Report, polls: nat)
    requires interval > 0
    requires clock(0) >= 0 && forall n: nat :: clock(n + 1) >= clock(n) + interval
    ensures polls > 0 && (polls == 1 || polls <= timeout / interval + 1)
    ensures report == ReportAt(rows, previous, polls - 1)
    ensures forall n | 0 <= n < polls - 1 :: !DoneAt(rows, previous, n)
    ensures report.NotStarted? || report.StillRunning? ==> clock(polls - 1) + interval > timeout
  {
    var finished, row, elapsed;
    var done := (n: nat) => DoneAt(rows, previous, n);
    finished, row, elapsed, polls := WaitUntil(rows, done, clock, timeout, interval);
    assert forall n: nat :: done(n) == DoneAt(rows, previous, n);
    assert finished == DoneAt(rows, previous, polls - 1);
    if row.None? { return NoSuchJob, polls; }
    var seen := RunSeen(rows, previous, polls - 1);
    if !finished {
      report := if previous.Some? && !seen then NotStarted else StillRunning;
    } else {
      report := if seen then Finished else NotInProgress;
    }
  }

  // -- the race --------------------------------------------------------------------------------------

  /** The scheduler at one moment: how many runs have begun, and the job's row. */
  datatype Moment = Moment(begun: nat, row: Row)

  /** The row changes only through a run that begins, except that its id may be missing. */
  ghost predicate Coherent(timeline: nat -> Moment) {
    forall s: nat, t: nat :: s <= t ==>
      && timeline(s).begun <= timeline(t).begun
      && (timeline(s).begun == timeline(t).begun ==>
            (timeline(t).row.lastRun.None? || timeline(s).row.lastRun.None?
             || timeline(t).row.lastRun == timeline(s).row.lastRun)
            && (timeline(t).row.inProgress ==> timeline(s).row.inProgress))
  }

  /** Moreover the id is always present. */
  ghost predicate Faithful(timeline: nat -> Moment) {
    Coherent(timeline) && forall t: nat :: timeline(t).row.lastRun.Some?
  }

  /** A run that has begun and ended has left an id of its own. */
  ghost predicate NamesRuns(timeline: nat -> Moment) {
    forall s: nat, t: nat :: s <= t && timeline(s).begun < timeline(t).begun && !timeline(t).row.inProgress ==>
      timeline(t).row.lastRun != timeline(s).row.lastRun
  }

  /** The rows a wait reads: poll n happens at moment at(n), after the capture. */
  ghost predicate Reads(rows: nat -> Option<Row>, timeline: nat -> Moment, at: nat -> nat, captured: nat) {
    forall n: nat :: captured <= at(n) <= at(n + 1) && rows(n) == Some(timeline(at(n)).row)
  }

  lemma {:induction false} SeenAt(rows: nat -> Option<Row>, n: nat) returns (k: nat)
    requires SeenBy(rows, n)
    ensures k <= n && rows(k).Some? && rows(k).value.inProgress
  {
    if rows(n).Some? && rows(n).value.inProgress {
      k := n;
    } else {
      k := SeenAt(rows, n - 1);
    }
  }

  /** START RACE CLOSED.  Holding the id captured from a row that was not In-Progress, a wait reports
      "finished" only if a run began after the capture, however late the scheduler picked it up, and
      the last poll was not In-Progress. */
  lemma FinishedMeansRan(timeline: nat -> Moment, rows: nat -> Option<Row>, at: nat -> nat, captured: nat,
                         previous: string, n: nat)
    returns (k: nat)
    requires Faithful(timeline) && Reads(rows, timeline, at, captured)
    requires Captures(Found(Some(timeline(captured).row)), previous)
    requires ReportAt(rows, Some(previous), n).Finished?
    ensures k <= n && timeline(at(k)).begun > timeline(captured).begun
    ensures rows(n).Some? && !rows(n).value.inProgress
  {
    if SeenBy(rows, n) { k := SeenAt(rows, n); } else { k := n; }
    assert captured <= at(k) && rows(k) == Some(timeline(at(k)).row);
  }

  /** FINISHED EXACTLY.  If moreover each run leaves its own id, a poll reports "finished" if and only
      if by then a run has begun since the capture and none is in progress: neither a run too short
      to be seen nor one picked up late is missed. */
  lemma FinishedRunReported(timeline: nat -> Moment, rows: nat -> Option<Row>, at: nat -> nat, captured: nat,
                            previous: string, n: nat)
    requires Faithful(timeline) && NamesRuns(timeline) && Reads(rows, timeline, at, captured)
    requires Captures(Found(Some(timeline(captured).row)), previous)
    ensures ReportAt(rows, Some(previous), n).Finished?
      <==> timeline(at(n)).begun > timeline(captured).begun && !timeline(at(n)).row.inProgress
  {
    assert captured <= at(n) && rows(n) == Some(timeline(at(n)).row);
    if ReportAt(rows, Some(previous), n).Finished? {
      var k := FinishedMeansRan(timeline, rows, at, captured, previous, n);
      PollsInOrder(rows, timeline, at, captured, k, n);
    }
  }

  lemma {:induction false} PollsInOrder(rows: nat -> Option<Row>, timeline: nat -> Moment, at: nat -> nat, captured: nat,
                                        k: nat, n: nat)
    requires Reads(rows, timeline, at, captured) && k <= n
    ensures at(k) <= at(n)
    decreases n
  {
    if k < n {
      PollsInOrder(rows, timeline, at, captured, k, n - 1);
      assert at(n - 1) <= at((n - 1) + 1);
    }
  }

  /** The id must be present: while no run has begun since a non-empty id was captured, a poll reports
      "finished" if and only if the row it read carries no id. */
  lemma MissingIdReportsFinished(timeline: nat -> Moment, rows: nat -> Option<Row>, at: nat -> nat, captured: nat,
                                 previous: string, n: nat)
    requires Coherent(timeline) && Reads(rows, timeline, at, captured) && previous != ""
    requires Captures(Found(Some(timeline(captured).row)), previous)
    requires timeline(at(n)).begun == timeline(captured).begun
    ensures ReportAt(rows, Some(previous), n).Finished? <==> timeline(at(n)).row.lastRun.None?
  {
    assert captured <= at(n) && rows(n) == Some(timeline(at(n)).row);
    NoneSeen(timeline, rows, at, captured, n);
  }

  lemma {:induction false} NoneSeen(timeline: nat -> Moment, rows: nat -> Option<Row>, at: nat -> nat, captured: nat,
                                    n: nat)
    requires Coherent(timeline) && Reads(rows, timeline, at, captured) && !timeline(captured).row.inProgress
    requires timeline(at(n)).begun == timeline(captured).begun
    ensures !SeenBy(rows, n)
  {
    assert captured <= at(n) && rows(n) == Some(timeline(at(n)).row);
    if n == 0 {
    } else {
      assert captured <= at(n - 1) <= at((n - 1) + 1);
      NoneSeen(timeline, rows, at, captured, n - 1);
    }
  }

  /** What the wait says when it gives up or sees no run: the scheduler has not started it if the id
      captured is still there and no poll found it In-Progress; with no id to compare, a job that is not
      In-Progress is only reported as that. */
  lemma OtherReports(rows: nat -> Option<Row>, previous: Option<string>, n: nat)
    requires forall k: nat :: k <= n ==> rows(k).Some?
    ensures ReportAt(rows, previous, n).NotStarted?
      <==> previous.Some? && (forall k: nat :: k <= n ==> !rows(k).value.inProgress) && IdShown(rows(n).value) == previous.value
    ensures ReportAt(rows, previous, n).StillRunning? <==> rows(n).value.inProgress
    ensures ReportAt(rows, previous, n).NotInProgress?
      <==> previous.None? && forall k: nat :: k <= n ==> !rows(k).value.inProgress
  {
    SeenIff(rows, n);
  }

  /** A missing id reads as the empty text. */
  function IdShown(r: Row): string {
    if r.lastRun.Some? then r.lastRun.value else ""
  }

  lemma {:induction false} SeenIff(rows: nat -> Option<Row>, n: nat)
    ensures SeenBy(rows, n) <==> exists k: nat :: k <= n && rows(k).Some? && rows(k).value.inProgress
    decreases n
  {
    if n == 0 {
    } else {
      SeenIff(rows, n - 1);
    }
  }
}
