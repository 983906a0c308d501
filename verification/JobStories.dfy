/** Stories of one job: that the protocol does what it is for, and what comes of
    the ways in which it can go wrong. Each starts where a job starts. */
module JobStories {
  import opened Prelude
  import opened JobLifecycle
  import opened JobProtocol

  ghost predicate Reaches(s: System, t: System) {
    exists steps :: ValidRun(s, steps) && Run(s, steps) == t
  }

  lemma {:induction false} RunSnoc(s: System, steps: seq<Step>, step: Step)
    requires ValidRun(s, steps) && Enabled(Run(s, steps), step)
    ensures ValidRun(s, steps + [step]) && Run(s, steps + [step]) == Next(Run(s, steps), step)
    decreases |steps|
  {
    var more := steps + [step];
    if steps == [] {
      assert more[1..] == [];
    } else {
      RunSnoc(Next(s, steps[0]), steps[1..], step);
      assert more[0] == steps[0] && more[1..] == steps[1..] + [step];
    }
  }

  lemma Start(s: System)
    ensures Reaches(s, s)
  {
    assert ValidRun(s, []) && Run(s, []) == s;
  }

  /** One more step. */
  lemma Then(s: System, t: System, step: Step) returns (u: System)
    requires Reaches(s, t) && Enabled(t, step)
    ensures u == Next(t, step) && Reaches(s, u)
  {
    var steps :| ValidRun(s, steps) && Run(s, steps) == t;
    RunSnoc(s, steps, step);
    u := Next(t, step);
  }

  /** Where a new job starts. */
  lemma NewJobIsInitial(requeueable: bool)
    ensures Initial(System(Row(Queued, Unclassified, 0, None, requeueable), map[], 1, 0, multiset{}, multiset{},
                           1, 0, 0, 0, 0))
  {
  }

  // ---- What it is for ----

  /** A queued job, nobody at work. */
  ghost predicate Waits(t: System) {
    t.row.state.Queued? && t.queued == 1 && t.workers == multiset{} && t.enqueuers == 0
  }

  function WorkedOn(t: System, state: State, worker: WorkerPc): System {
    t.(row := t.row.(state := state), queued := 0, workers := multiset{worker})
  }

  lemma PickedUp(s: System, t: System) returns (u: System)
    requires Reaches(s, t) && Waits(t)
    ensures Reaches(s, u) && u == WorkedOn(t, Waiting, Pacing)
  {
    u := Then(s, t, PickUp);
    assert u == WorkedOn(t, Queued, Picked);
    u := Then(s, u, Work(Picked, Proceed));
    u := Then(s, u, Work(Pacing, Heartbeat));
  }

  lemma Paced(s: System, t: System) returns (u: System)
    requires Reaches(s, t) && Waits(t)
    ensures Reaches(s, u) && u == WorkedOn(t, Waiting, Deciding)
  {
    u := PickedUp(s, t);
    u := Then(s, u, Work(Pacing, Proceed));
  }

  /** Picked up and paced, a job that is not a duplicate starts its download. */
  lemma DownloadStarts(s: System, t: System) returns (u: System)
    requires Reaches(s, t) && Waits(t)
    ensures Reaches(s, u) && u == WorkedOn(t, Downloading, Fetching).(downloads := t.downloads + 1)
  {
    u := Paced(s, t);
    u := Then(s, u, Work(Deciding, Proceed));
  }

  lemma FileIsFetched(s: System) returns (t: System)
    requires Initial(s)
    ensures Reaches(s, t) && t == WorkedOn(s, Processing, Remuxing).(downloads := 1)
  {
    Start(s);
    t := DownloadStarts(s, s);
    t := Then(s, t, Work(Fetching, Proceed));
    assert t == WorkedOn(s, Downloading, Rechecking).(downloads := 1);
    t := Then(s, t, Work(Rechecking, Proceed));
  }

  lemma FileIsPrepared(s: System) returns (t: System)
    requires Initial(s)
    ensures Reaches(s, t) && t == WorkedOn(s, Tagging, Identifying).(downloads := 1)
  {
    t := FileIsFetched(s);
    t := Then(s, t, Work(Remuxing, Proceed));
  }

  lemma FileIsStaged(s: System, staged: Path) returns (t: System)
    requires Initial(s) && staged.StagingPath?
    ensures Reaches(s, t)
    ensures t == WorkedOn(s, Importing, Publishing(staged)).(files := s.files[staged := true], downloads := 1)
  {
    t := FileIsPrepared(s);
    t := Then(s, t, Work(Identifying, Proceed));
    assert t == WorkedOn(s, Importing, Moving).(downloads := 1);
    t := Then(s, t, Work(Moving, Put(staged)));
  }

  /** It can get into review, with its audio staged and nobody at work. */
  lemma GetsToReview(s: System, staged: Path) returns (t: System)
    requires Initial(s) && staged.StagingPath?
    ensures Reaches(s, t)
    ensures t == s.(row := s.row.(state := NeedsReview, staging := Some(staged)), files := s.files[staged := true],
                    queued := 0, downloads := 1)
  {
    t := FileIsStaged(s, staged);
    t := Then(s, t, Work(Publishing(staged), Proceed));
    assert t.workers == multiset{Tail};
    t := Then(s, t, Work(Tail, Proceed));
  }

  lemma ApprovalBegins(s: System, staged: Path) returns (t: System)
    requires Initial(s) && staged.StagingPath?
    ensures Reaches(s, t)
    ensures t == s.(row := s.row.(state := Placing, staging := Some(staged)), files := s.files[staged := true],
                    queued := 0, downloads := 1, approvers := multiset{WritingTags(staged)}, approvals := 1)
  {
    t := GetsToReview(s, staged);
    t := Then(s, t, BeginApproval);
  }

  lemma FileIsRenamed(s: System, staged: Path, dest: Path) returns (t: System)
    requires Initial(s) && staged.StagingPath? && dest.LibraryPath?
    ensures Reaches(s, t)
    ensures t == s.(row := s.row.(state := Placing, staging := Some(staged)),
                    files := if dest in s.files then s.files[staged := true] else s.files[dest := true],
                    queued := 0, downloads := 1, approvers := multiset{Committing(staged)}, approvals := 1)
  {
    t := ApprovalBegins(s, staged);
    t := Then(s, t, Approve(WritingTags(staged), Proceed));
    assert t.approvers == multiset{Renaming(staged)};
    t := Then(s, t, Approve(Renaming(staged), Put(dest)));
    assert staged !in s.files;
    assert (s.files[staged := true] - {staged})[dest := true] == s.files[dest := true];
  }

  /** From there into the library: one download, the audio at its place and
      nowhere else, nothing left queued or at work. If the place is taken, what
      is there stays, and so does the staged file. */
  lemma GetsPlaced(s: System, staged: Path, dest: Path) returns (t: System)
    requires Initial(s) && staged.StagingPath? && dest.LibraryPath?
    ensures Reaches(s, t)
    ensures t == s.(row := s.row.(state := Done),
                    files := if dest in s.files then s.files[staged := true] else s.files[dest := true],
                    queued := 0, downloads := 1, approvals := 1)
  {
    t := FileIsRenamed(s, staged, dest);
    t := Then(s, t, Approve(Committing(staged), Proceed));
  }

  /** An approval that fails puts the row back in review; the file stays staged. */
  lemma FailedApprovalReturns(s: System, staged: Path) returns (t: System)
    requires Initial(s) && staged.StagingPath?
    ensures Reaches(s, t)
    ensures t == s.(row := s.row.(state := NeedsReview, staging := Some(staged)), files := s.files[staged := true],
                    queued := 0, downloads := 1, approvals := 1)
  {
    t := ApprovalBegins(s, staged);
    t := Then(s, t, Approve(WritingTags(staged), Fail(Transient)));
  }

  lemma TwoApprovals(s: System, staged: Path) returns (t: System)
    requires Initial(s) && staged.StagingPath?
    ensures Reaches(s, t)
    ensures t == s.(row := s.row.(state := Placing, staging := Some(staged)), files := s.files[staged := true],
                    queued := 0, downloads := 1, approvers := multiset{Renaming(staged), Renaming(staged)},
                    approvals := 2)
  {
    t := ApprovalBegins(s, staged);
    t := Then(s, t, BeginApproval);
    assert t.approvers == multiset{WritingTags(staged), WritingTags(staged)};
    t := Then(s, t, Approve(WritingTags(staged), Proceed));
    assert t.approvers == multiset{WritingTags(staged), Renaming(staged)};
    t := Then(s, t, Approve(WritingTags(staged), Proceed));
  }

  lemma OneRenames(s: System, staged: Path, dest: Path) returns (t: System)
    requires Initial(s) && staged.StagingPath? && dest.LibraryPath? && dest !in s.files
    ensures Reaches(s, t)
    ensures t == s.(row := s.row.(state := Placing, staging := Some(staged)), files := s.files[dest := true],
                    queued := 0, downloads := 1, approvers := multiset{Renaming(staged), Committing(staged)},
                    approvals := 2)
  {
    t := TwoApprovals(s, staged);
    assert t.approvers - multiset{Renaming(staged)} == multiset{Renaming(staged)};
    assert staged !in s.files && staged in t.files && dest !in t.files;
    t := Then(s, t, Approve(Renaming(staged), Put(dest)));
    assert (s.files[staged := true] - {staged})[dest := true] == s.files[dest := true];
  }

  /** A second approval that finds the staged file gone puts the row back. */
  lemma SecondApprovalReturns(s: System, staged: Path, dest: Path, other: Path) returns (t: System)
    requires Initial(s) && staged.StagingPath? && dest.LibraryPath? && dest !in s.files
    requires other.LibraryPath? && other !in s.files && other != dest
    ensures Reaches(s, t)
    ensures t == s.(row := s.row.(state := NeedsReview, staging := Some(staged)), files := s.files[dest := true],
                    queued := 0, downloads := 1, approvals := 2, approvers := multiset{Committing(staged)})
  {
    t := OneRenames(s, staged, dest);
    assert staged !in s.files;
    t := Then(s, t, Approve(Renaming(staged), Put(other)));
  }

  /** Rejected, it fails for good and its staged file is gone. */
  lemma RejectionDiscards(s: System, staged: Path) returns (t: System)
    requires Initial(s) && staged.StagingPath?
    ensures Reaches(s, t)
    ensures t == s.(row := s.row.(state := Failed, failure := Permanent), queued := 0, downloads := 1)
  {
    t := GetsToReview(s, staged);
    t := Then(s, t, Reject);
    assert staged !in s.files && s.files[staged := true] - {staged} == s.files;
  }

  /** An owned track is not downloaded. */
  lemma DuplicateIsDone(s: System) returns (t: System)
    requires Initial(s)
    ensures Reaches(s, t) && t == s.(row := s.row.(state := Done), queued := 0)
  {
    Start(s);
    t := Paced(s, s);
    t := Then(s, t, Work(Deciding, Duplicate));
    assert t == WorkedOn(s, Done, Tail);
    t := Then(s, t, Work(Tail, Proceed));
  }

  // ---- What can go wrong ----

  lemma DownloadFails(s: System, t: System) returns (u: System)
    requires Reaches(s, t) && Waits(t)
    ensures Reaches(s, u)
    ensures u == t.(row := t.row.(state := Failed, failure := Transient), queued := 0, workers := multiset{Tail},
                    downloads := t.downloads + 1)
  {
    u := DownloadStarts(s, t);
    u := Then(s, u, Work(Fetching, Fail(Transient)));
  }

  /** One attempt that fails for now, and comes back if there is budget left. */
  lemma AttemptFails(s: System, t: System) returns (u: System)
    requires Reaches(s, t) && Waits(t)
    ensures Reaches(s, u)
    ensures u == if t.row.retries < 3
                 then t.(row := t.row.(failure := Transient, retries := t.row.retries + 1),
                         downloads := t.downloads + 1, enqueues := t.enqueues + 1)
                 else t.(row := t.row.(state := Failed, failure := Transient), downloads := t.downloads + 1,
                         queued := 0)
  {
    u := DownloadFails(s, t);
    u := Then(s, u, Work(Tail, Proceed));
    if t.row.retries < 3 {
      assert u.workers == multiset{} && u.enqueuers == 1 && u.queued == 0;
      u := Then(s, u, Enqueue(true));
    }
  }

  /** The bound on enqueues is met: a job that keeps failing is enqueued and
      downloaded four times, and then given up. */
  lemma FourTimesIsReached(s: System) returns (t: System)
    requires Initial(s)
    ensures Reaches(s, t)
    ensures t == s.(row := s.row.(state := Failed, failure := Transient, retries := 3),
                    queued := 0, downloads := 4, enqueues := 4)
  {
    Start(s);
    t := AttemptFails(s, s);
    t := AttemptFails(s, t);
    t := AttemptFails(s, t);
    t := AttemptFails(s, t);
  }

  /** A worker that dies leaves the row stuck; recovery queues it again, with a
      retry less, if it still has its candidate, and fails it otherwise. */
  lemma DeathIsRecovered(s: System) returns (t: System)
    requires Initial(s)
    ensures Reaches(s, t)
    ensures t == if s.row.requeueable
                 then s.(row := s.row.(failure := Transient, retries := 1), queued := 0, downloads := 1,
                         recoveries := 1, enqueuers := 1)
                 else s.(row := s.row.(state := Failed, failure := Transient), queued := 0, downloads := 1,
                         recoveries := 1)
  {
    Start(s);
    t := DownloadStarts(s, s);
    t := Then(s, t, WorkerDies(Fetching, false));
    t := Then(s, t, Recovery);
  }

  /** Unless the queue hands the interrupted entry out again. */
  lemma DeathIsRedelivered(s: System) returns (t: System)
    requires Initial(s)
    ensures Reaches(s, t)
    ensures t == s.(row := s.row.(state := Downloading), queued := 1, downloads := 1, redeliveries := 1)
  {
    Start(s);
    t := DownloadStarts(s, s);
    t := Then(s, t, WorkerDies(Fetching, true));
  }

  /** An enqueue that fails leaves a queued row that no entry stands for;
      recovery finds it. */
  lemma LostEnqueueIsRecovered(s: System) returns (t: System)
    requires Initial(s) && s.row.requeueable
    ensures Reaches(s, t)
    ensures t == s.(row := s.row.(failure := Transient, retries := 2), queued := 0, downloads := 1,
                    recoveries := 2, enqueuers := 1)
  {
    t := DeathIsRecovered(s);
    t := Then(s, t, Enqueue(false));
    t := Then(s, t, Recovery);
  }

  /** An approval that dies leaves the row in placement; recovery returns it to
      review, from where nothing recovers it any more. */
  lemma DeadApprovalIsRecovered(s: System, staged: Path) returns (t: System)
    requires Initial(s) && staged.StagingPath?
    ensures Reaches(s, t)
    ensures t == s.(row := s.row.(state := NeedsReview, staging := Some(staged)), files := s.files[staged := true],
                    queued := 0, downloads := 1, approvals := 1, recoveries := 1)
  {
    t := ApprovalBegins(s, staged);
    t := Then(s, t, ApproverDies(WritingTags(staged)));
    t := Then(s, t, Recovery);
    t := Then(s, t, Recovery);
  }

  /** A job not in review cannot be approved, and stays as it is. */
  lemma ApprovalRefused(s: System) returns (t: System)
    requires Initial(s)
    ensures Reaches(s, t) && t == s.(approvals := 1)
  {
    Start(s);
    t := Then(s, s, BeginApproval);
  }

  /** One whose staged file another approval has just moved goes back to review. */
  lemma ApprovalOfMovedFile(s: System, staged: Path, dest: Path) returns (t: System)
    requires Initial(s) && staged.StagingPath? && dest.LibraryPath? && dest !in s.files
    ensures Reaches(s, t)
    ensures t == s.(row := s.row.(state := NeedsReview, staging := Some(staged)), files := s.files[dest := true],
                    queued := 0, downloads := 1, approvers := multiset{Committing(staged)}, approvals := 2)
  {
    t := FileIsRenamed(s, staged, dest);
    assert staged !in t.files;
    t := Then(s, t, BeginApproval);
  }

  // ---- Cancelling ----

  /** Cancelled during an approval that then fails, it stays cancelled. */
  lemma CancelledInApproval(s: System, staged: Path) returns (t: System)
    requires Initial(s) && staged.StagingPath?
    ensures Reaches(s, t)
    ensures t == s.(row := s.row.(state := Cancelled, staging := Some(staged)), files := s.files[staged := true],
                    queued := 0, downloads := 1, approvals := 1)
  {
    t := ApprovalBegins(s, staged);
    t := Then(s, t, Cancel(false));
    t := Then(s, t, Approve(WritingTags(staged), Fail(Transient)));
  }

  /** Cancelled before it is picked up, it is never downloaded, whether its
      entry was taken out of the queue or not. */
  lemma CancelledInQueue(s: System, dequeued: bool) returns (t: System)
    requires Initial(s)
    ensures Reaches(s, t) && t == s.(row := s.row.(state := Cancelled), queued := 0)
  {
    Start(s);
    t := Then(s, s, Cancel(dequeued));
    if dequeued {
      t := Then(s, t, Cancel(true));
    } else {
      t := Then(s, t, PickUp);
      t := Then(s, t, Work(Picked, Proceed));
    }
  }

  /** Cancelled while it waits its turn, it leaves at the next heartbeat. */
  lemma CancelledWhileWaiting(s: System) returns (t: System)
    requires Initial(s)
    ensures Reaches(s, t) && t == s.(row := s.row.(state := Cancelled), queued := 0)
  {
    Start(s);
    t := PickedUp(s, s);
    t := Then(s, t, Cancel(true));
    assert t == WorkedOn(s, Cancelled, Pacing);
    t := Then(s, t, Work(Pacing, Heartbeat));
  }

  lemma CancelledAtWork(s: System) returns (t: System)
    requires Initial(s)
    ensures Reaches(s, t) && t == WorkedOn(s, Cancelled, Rechecking).(downloads := 1)
  {
    Start(s);
    t := DownloadStarts(s, s);
    t := Then(s, t, Cancel(false));
    assert t == WorkedOn(s, Cancelled, Fetching).(downloads := 1);
    t := Then(s, t, Work(Fetching, Proceed));
  }

  /** Cancelled while it downloads, it stops after the download. */
  lemma CancelledWhileFetching(s: System) returns (t: System)
    requires Initial(s)
    ensures Reaches(s, t) && t == s.(row := s.row.(state := Cancelled), queued := 0, downloads := 1)
  {
    t := CancelledAtWork(s);
    t := Then(s, t, Work(Rechecking, Proceed));
    assert t == WorkedOn(s, Cancelled, Tail).(downloads := 1);
    t := Then(s, t, Work(Tail, Proceed));
  }

  /** What is over cannot be cancelled. */
  lemma DoneStaysDone(s: System) returns (t: System)
    requires Initial(s)
    ensures Reaches(s, t) && t == s.(row := s.row.(state := Done), queued := 0)
  {
    t := DuplicateIsDone(s);
    t := Then(s, t, Cancel(true));
  }
}
