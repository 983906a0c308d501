/** One acquisition job: its database row, its audio on disk, and everything
    that acts on it — Phase 1 workers, approvals (Phase 2), the retry tail and
    stuck-job recovery. Each step is one transaction, one rename or one enqueue;
    any process may die between two steps. */
module JobLifecycle {
  import opened Prelude

  datatype State = Queued | Waiting | Downloading | Processing | Tagging | Importing
                 | NeedsReview | Placing | Done | Failed | Cancelled

  datatype FailureClass = Unclassified | Transient | Permanent | Mismatch

  datatype Path = StagingPath(name: string) | LibraryPath(name: string)

  const RETRY_DELAYS := [30, 120, 600]
  const MAX_RETRIES := |RETRY_DELAYS|
  const STUCK_CUTOFF := 15
  const WAITING_CUTOFF := 3

  /** `requeueable` says the row still has its candidate and provider reference. */
  datatype Row = Row(state: State, failure: FailureClass, retries: nat, staging: Option<Path>, requeueable: bool)

  // ---- Recovery and the retry tail, as functions of the row ----

  predicate StuckState(s: State) {
    s in {Queued, Downloading, Processing, Tagging, Importing, Placing, Waiting}
  }

  /** Placement may already have moved the audio into the library. */
  predicate MidPlacement(row: Row) {
    row.state.Placing? || (row.state.Importing? && row.staging.Some?)
  }

  predicate RetryLeft(row: Row) {
    row.retries < MAX_RETRIES
  }

  predicate RecoveryRequeues(row: Row) {
    StuckState(row.state) && !MidPlacement(row) && row.requeueable && RetryLeft(row)
  }

  /** What recovery makes of a row found stuck. */
  function Recovered(row: Row, stagedExists: bool): Row {
    if !StuckState(row.state) then row
    else if MidPlacement(row) then
      if row.staging.Some? && stagedExists then row.(state := NeedsReview)
      else row.(state := Failed, failure := Permanent)
    else if RecoveryRequeues(row) then row.(state := Queued, failure := Transient, retries := row.retries + 1)
    else row.(state := Failed, failure := Transient)
  }

  predicate IsStale(state: State, touched: int, now: int) {
    || (state in {Queued, Downloading, Processing, Tagging, Importing, Placing} && touched < now - STUCK_CUTOFF)
    || (state.Waiting? && touched < now - WAITING_CUTOFF)
  }

  predicate TailRequeues(row: Row) {
    row.state.Failed? && row.failure.Transient? && RetryLeft(row)
  }

  function AfterTail(row: Row): Row {
    if TailRequeues(row) then row.(state := Queued, retries := row.retries + 1) else row
  }

  /** A job's end: a failure for now goes back on the queue while there are
      retries left, after the delay of that retry; anything else stays. */
  ghost predicate TailPassed(before: Row, after: Row, delay: Option<int>) {
    if before.state.Failed? && before.failure.Transient? && before.retries < 3
    then delay == Some([30, 120, 600][before.retries])
         && after == before.(state := Queued, retries := before.retries + 1)
    else delay.None? && after == before
  }

  // ---- The rows as the worker updates them ----

  class AcquisitionJob {
    var state: State
    var failure: FailureClass
    var retries: nat
    var staging: Option<Path>
    var requeueable: bool
    var updatedAt: int

    function Value(): Row
      reads this
    {
      Row(state, failure, retries, staging, requeueable)
    }

    predicate Stale(now: int)
      reads this
    {
      IsStale(state, updatedAt, now)
    }

    constructor (requeueable: bool, now: int)
      ensures Value() == Row(Queued, Unclassified, 0, None, requeueable)
      ensures updatedAt == now
    {
      state, failure, retries, staging := Queued, Unclassified, 0, None;
      this.requeueable, updatedAt := requeueable, now;
    }

    /** Tail of a Phase 1 job: a transient failure goes back on the queue. */
    method RetryTail(now: int) returns (delay: Option<int>)
      modifies this
      ensures Value() == AfterTail(old(Value()))
      ensures delay.Some? <==> TailRequeues(old(Value()))
      ensures TailPassed(old(Value()), Value(), delay)
      ensures updatedAt == if delay.Some? then now else old(updatedAt)
    {
      if !state.Failed? || !failure.Transient? { return None; }
      if retries >= MAX_RETRIES { return None; }
      delay := Some(RETRY_DELAYS[retries]);
      retries := retries + 1;
      state := Queued;
      updatedAt := now;
    }

    /** One stuck row; the caller has found it stale. */
    method Recover(now: int, files: set<Path>) returns (delay: Option<int>)
      requires Stale(now)
      modifies this
      ensures Value() == Recovered(old(Value()), old(staging).Some? && old(staging).value in files)
      ensures updatedAt == now
      ensures delay.Some? <==> RecoveryRequeues(old(Value()))
      ensures delay.Some? ==> delay.value == RETRY_DELAYS[retries - 1]
    {
      var was := state;
      if was.Placing? || (was.Importing? && staging.Some?) {
        updatedAt := now;
        if staging.Some? && staging.value in files {
          state := NeedsReview;
        } else {
          state, failure := Failed, Permanent;
        }
        return None;
      }
      failure := Transient;
      updatedAt := now;
      if requeueable && retries < MAX_RETRIES {
        delay := Some(RETRY_DELAYS[retries]);
        retries := retries + 1;
        state := Queued;
      } else {
        state := Failed;
        delay := None;
      }
    }
  }

  datatype Requeue = Requeue(job: AcquisitionJob, delay: int)

  function StagedExists(row: Row, files: set<Path>): bool {
    row.staging.Some? && row.staging.value in files
  }

  /** A row as a recovery pass finds it. */
  datatype Found = Found(row: Row, touched: int)
  {
    predicate Stale(now: int) {
      IsStale(row.state, touched, now)
    }
    function After(now: int, files: set<Path>): Found {
      if Stale(now) then Found(Recovered(row, StagedExists(row, files)), now) else this
    }
    predicate Requeued(now: int) {
      Stale(now) && RecoveryRequeues(row)
    }
  }

  function Snapshot(jobs: seq<AcquisitionJob>): (found: seq<Found>)
    reads jobs
    ensures |found| == |jobs|
    ensures forall i :: 0 <= i < |jobs| ==> found[i] == Found(jobs[i].Value(), jobs[i].updatedAt)
  {
    if jobs == [] then []
    else
      var job := jobs[|jobs| - 1];
      Snapshot(jobs[..|jobs| - 1]) + [Found(job.Value(), job.updatedAt)]
  }

  /** Which rows of the table go back on the queue, and how late. */
  function Requeues(jobs: seq<AcquisitionJob>, found: seq<Found>, now: int): seq<Requeue>
    requires |jobs| == |found|
  {
    if jobs == [] then []
    else
      var n := |jobs| - 1;
      Requeues(jobs[..n], found[..n], now) +
      if found[n].Requeued(now) then [Requeue(jobs[n], RETRY_DELAYS[found[n].row.retries])] else []
  }

  /** The delays a job is put back on the queue with. */
  ghost function DelaysFor(requeue: seq<Requeue>, job: AcquisitionJob): set<int> {
    set r | r in requeue && r.job == job :: r.delay
  }

  lemma {:induction false} DelaysAre(jobs: seq<AcquisitionJob>, found: seq<Found>, now: int, job: AcquisitionJob,
                                     i: nat)
    requires |jobs| == |found| && forall j, k :: 0 <= j < k < |jobs| ==> jobs[j] != jobs[k]
    requires if i < |jobs| then jobs[i] == job else job !in jobs
    ensures DelaysFor(Requeues(jobs, found, now), job)
            == if i < |jobs| && found[i].Requeued(now) then {RETRY_DELAYS[found[i].row.retries]} else {}
  {
    if jobs != [] {
      var n := |jobs| - 1;
      DelaysAre(jobs[..n], found[..n], now, job, i);
      var last := if found[n].Requeued(now) then [Requeue(jobs[n], RETRY_DELAYS[found[n].row.retries])] else [];
      assert DelaysFor(Requeues(jobs[..n], found[..n], now) + last, job)
             == DelaysFor(Requeues(jobs[..n], found[..n], now), job) + DelaysFor(last, job);
    }
  }

  /** What a pass does to one row: it touches exactly those at work or on their
      way that nobody has touched for more than 15 minutes, and those waiting
      for more than 3. Before placement these go back on the queue while they
      have budget and a candidate; nothing else does. In placement they go to
      review if the file is still staged. */
  ghost predicate Passed(before: Row, touched: int, staged: bool, after: Row, touchedAfter: int, delays: set<int>,
                         now: int)
  {
    var age := now - touched;
    var late := || (before.state in {Queued, Downloading, Processing, Tagging, Importing, Placing} && age > 15)
                || (before.state.Waiting? && age > 3);
    var placing := before.state.Placing? || (before.state.Importing? && before.staging.Some?);
    && (after != before <==> late) && touchedAfter == (if late then now else touched)
    && (late && !placing && before.requeueable && before.retries < 3 ==>
          && after == Row(Queued, Transient, before.retries + 1, before.staging, true)
          && delays == {[30, 120, 600][before.retries]})
    && (late && !placing && !(before.requeueable && before.retries < 3) ==>
          after == before.(state := Failed, failure := Transient))
    && (late && placing ==>
          after == if staged then before.(state := NeedsReview) else before.(state := Failed, failure := Permanent))
    && (!late || placing || !before.requeueable || before.retries >= 3 ==> delays == {})
  }

  lemma RowPasses(found: Found, now: int, files: set<Path>, delays: set<int>)
    requires delays == if found.Requeued(now) then {RETRY_DELAYS[found.row.retries]} else {}
    ensures Passed(found.row, found.touched, found.row.staging.Some? && found.row.staging.value in files,
                   found.After(now, files).row, found.After(now, files).touched, delays, now)
  {
  }

  /** A recovery pass over the job table. */
  method RecoverStuckJobs(jobs: seq<AcquisitionJob>, now: int, files: set<Path>) returns (requeue: seq<Requeue>)
    requires forall i, j :: 0 <= i < j < |jobs| ==> jobs[i] != jobs[j]
    modifies jobs
    ensures requeue == Requeues(jobs, old(Snapshot(jobs)), now)
    ensures forall i :: 0 <= i < |jobs| ==>
              Passed(old(jobs[i].Value()), old(jobs[i].updatedAt),
                     old(jobs[i].staging).Some? && old(jobs[i].staging).value in files,
                     jobs[i].Value(), jobs[i].updatedAt, DelaysFor(requeue, jobs[i]), now)
  {
    ghost var found := Snapshot(jobs);
    requeue := [];
    for k := 0 to |jobs|
      invariant requeue == Requeues(jobs[..k], found[..k], now)
      invariant forall i :: 0 <= i < k ==> Found(jobs[i].Value(), jobs[i].updatedAt) == found[i].After(now, files)
      invariant forall i :: k <= i < |jobs| ==> Found(jobs[i].Value(), jobs[i].updatedAt) == found[i]
    {
      var job := jobs[k];
      assert Found(job.Value(), job.updatedAt) == found[k];
      assert jobs[..k + 1][..k] == jobs[..k] && found[..k + 1][..k] == found[..k];
      if job.Stale(now) {
        var delay := job.Recover(now, files);
        if delay.Some? {
          requeue := requeue + [Requeue(job, delay.value)];
        }
      }
    }
    assert jobs[..|jobs|] == jobs && found[..|found|] == found;
    forall i | 0 <= i < |jobs|
      ensures Passed(found[i].row, found[i].touched, found[i].row.staging.Some? && found[i].row.staging.value in files,
                     jobs[i].Value(), jobs[i].updatedAt, DelaysFor(requeue, jobs[i]), now)
    {
      DelaysAre(jobs, found, now, jobs[i], i);
      RowPasses(found[i], now, files, DelaysFor(requeue, jobs[i]));
    }
  }
}
