/** The whole job protocol as a transition system, and what every run of it
    keeps. Any number of workers and approvals may be alive at once unless a
    theorem says otherwise. */
module JobProtocol {
  import opened Prelude
  import opened JobLifecycle

  /** Where a Phase 1 worker stands; each point is followed by one step. */
  datatype WorkerPc = Picked | Pacing | Deciding | Fetching | Rechecking | Remuxing | Identifying
                    | Moving | Publishing(at: Path) | Tail

  /** Where an approval stands, with the staged path it read from the row. */
  datatype ApproverPc = WritingTags(from: Path) | Renaming(from: Path) | Committing(from: Path)

  /** `files` says for each path whether it holds this job's audio. The counters
      record history: successful enqueues, downloads begun, recoveries that found
      the row stuck, approvals begun, and queue entries given back by a death. */
  datatype System = System(
    row: Row, files: map<Path, bool>, queued: nat, enqueuers: nat,
    workers: multiset<WorkerPc>, approvers: multiset<ApproverPc>,
    enqueues: nat, downloads: nat, recoveries: nat, approvals: nat, redeliveries: nat)

  datatype Choice = Proceed | Heartbeat | Duplicate | Fail(failure: FailureClass) | Put(path: Path)

  datatype Step = PickUp
                | Work(worker: WorkerPc, choice: Choice)
                | WorkerDies(worker: WorkerPc, redelivered: bool)
                | BeginApproval
                | Approve(approver: ApproverPc, choice: Choice)
                | ApproverDies(approver: ApproverPc)
                | Enqueue(ok: bool)
                | Recovery
                | Cancel(dequeued: bool)
                | Reject

  predicate Enabled(s: System, step: Step) {
    match step
    case PickUp => s.queued > 0
    case Work(pc, c) =>
      pc in s.workers &&
      (match pc
       case Pacing => c.Proceed? || c.Heartbeat?
       case Deciding => c.Proceed? || c.Duplicate?
       case Fetching => c.Proceed? || c.Fail?
       case Remuxing => c.Proceed? || c == Fail(Transient)
       case Moving => (c.Put? && c.path.StagingPath?) || c == Fail(Transient)
       case _ => c.Proceed?)
    case WorkerDies(pc, _) => pc in s.workers
    case BeginApproval => true
    case Approve(pc, c) =>
      pc in s.approvers && (c.Fail? || if pc.Renaming? then c.Put? && c.path.LibraryPath? else c.Proceed?)
    case ApproverDies(pc) => pc in s.approvers
    case Enqueue(_) => s.enqueuers > 0
    case Recovery => true
    case Cancel(_) => true
    case Reject => s.row.state.NeedsReview?
  }

  // ---- One step ----

  function SetState(row: Row, state: State): Row {
    row.(state := state)
  }

  function FailRow(row: Row, failure: FailureClass): Row {
    row.(state := Failed, failure := failure)
  }

  function Leaves(s: System, pc: WorkerPc): System
    requires pc in s.workers
  {
    s.(workers := s.workers - multiset{pc})
  }

  function Goes(s: System, pc: WorkerPc, next: WorkerPc): System
    requires pc in s.workers
  {
    s.(workers := s.workers - multiset{pc} + multiset{next})
  }

  /** Phase 1. State writes are unconditional; only the pickup, the countdown
      and the check after the download look at the row first. */
  function Worked(s: System, pc: WorkerPc, c: Choice): System
    requires Enabled(s, Work(pc, c))
  {
    match pc
    case Picked =>
      if s.row.state.Cancelled? then Leaves(s, pc) else Goes(s, pc, Pacing)
    case Pacing =>
      if c.Proceed? then Goes(s, pc, Deciding)
      else if s.row.state.Cancelled? then Leaves(s, pc)
      else Goes(s, pc, Pacing).(row := SetState(s.row, Waiting))
    case Deciding =>
      if c.Duplicate? then Goes(s, pc, Tail).(row := SetState(s.row, Done))
      else Goes(s, pc, Fetching).(row := SetState(s.row, Downloading), downloads := s.downloads + 1)
    case Fetching =>
      if c.Fail? then Goes(s, pc, Tail).(row := FailRow(s.row, c.failure)) else Goes(s, pc, Rechecking)
    case Rechecking =>
      if s.row.state in {Cancelled, Queued} then Goes(s, pc, Tail)
      else Goes(s, pc, Remuxing).(row := SetState(s.row, Processing))
    case Remuxing =>
      if c.Fail? then Goes(s, pc, Tail).(row := FailRow(s.row, c.failure))
      else Goes(s, pc, Identifying).(row := SetState(s.row, Tagging))
    case Identifying =>
      Goes(s, pc, Moving).(row := SetState(s.row, Importing))
    case Moving =>
      if c.Fail? then Goes(s, pc, Tail).(row := FailRow(s.row, c.failure))
      else Goes(s, pc, Publishing(c.path)).(files := s.files[c.path := true])
    case Publishing(p) =>
      Goes(s, pc, Tail).(row := s.row.(state := NeedsReview, staging := Some(p)))
    case Tail =>
      if TailRequeues(s.row) then Leaves(s, pc).(row := AfterTail(s.row), enqueuers := s.enqueuers + 1)
      else Leaves(s, pc)
  }

  /** A failed approval puts the row back in review if it is still mid-way. */
  function RolledBack(row: Row): Row {
    if row.state in {Placing, Importing} then SetState(row, NeedsReview) else row
  }

  predicate Approvable(s: System) {
    s.row.state in {NeedsReview, Placing, Importing} && s.row.staging.Some? && s.row.staging.value in s.files
  }

  function ApprovalBegun(s: System): System {
    if Approvable(s)
    then s.(row := SetState(s.row, Placing), approvals := s.approvals + 1,
            approvers := s.approvers + multiset{WritingTags(s.row.staging.value)})
    else s.(row := RolledBack(s.row), approvals := s.approvals + 1)
  }

  /** Phase 2. The rename comes before the commit; a destination already taken
      is left as it is and the staged file stays behind. */
  function ApprovalStep(s: System, pc: ApproverPc, c: Choice): System
    requires Enabled(s, Approve(pc, c))
  {
    var left := s.(approvers := s.approvers - multiset{pc});
    if c.Fail? then left.(row := RolledBack(s.row))
    else
      match pc
      case WritingTags(from) => left.(approvers := left.approvers + multiset{Renaming(from)})
      case Renaming(from) =>
        if c.path in s.files then left.(approvers := left.approvers + multiset{Committing(from)})
        else if from !in s.files then left.(row := RolledBack(s.row))
        else left.(approvers := left.approvers + multiset{Committing(from)},
                   files := (s.files - {from})[c.path := s.files[from]])
      case Committing(_) => left.(row := s.row.(state := Done, staging := None))
  }

  /** A worker dies. The queue keeps the entry of a job that was interrupted and
      hands it out again, unless the entry was already acknowledged or used up. */
  function Died(s: System, pc: WorkerPc, redelivered: bool): System
    requires pc in s.workers
  {
    if redelivered then Leaves(s, pc).(queued := s.queued + 1, redeliveries := s.redeliveries + 1)
    else Leaves(s, pc)
  }

  function RecoveryStep(s: System): System {
    if !StuckState(s.row.state) then s
    else s.(row := Recovered(s.row, StagedExists(s.row, s.files.Keys)), recoveries := s.recoveries + 1,
            enqueuers := s.enqueuers + if RecoveryRequeues(s.row) then 1 else 0)
  }

  function Next(s: System, step: Step): System
    requires Enabled(s, step)
  {
    match step
    case PickUp => s.(queued := s.queued - 1, workers := s.workers + multiset{Picked})
    case Work(pc, c) => Worked(s, pc, c)
    case WorkerDies(pc, redelivered) => Died(s, pc, redelivered)
    case BeginApproval => ApprovalBegun(s)
    case Approve(pc, c) => ApprovalStep(s, pc, c)
    case ApproverDies(pc) => s.(approvers := s.approvers - multiset{pc})
    case Enqueue(ok) =>
      if ok then s.(enqueuers := s.enqueuers - 1, queued := s.queued + 1, enqueues := s.enqueues + 1)
      else s.(enqueuers := s.enqueuers - 1)
    case Recovery => RecoveryStep(s)
    case Cancel(dequeued) =>
      if s.row.state in {Done, Failed, Cancelled} then s
      else s.(row := SetState(s.row, Cancelled), queued := if dequeued && s.queued > 0 then s.queued - 1 else s.queued)
    case Reject =>
      s.(row := s.row.(state := Failed, failure := Permanent, staging := None),
         files := if s.row.staging.Some? then s.files - {s.row.staging.value} else s.files)
  }

  // ---- Runs ----

  /** A new job: its row is queued and its first enqueue went through. Files of
      other jobs may already be in the library. */
  predicate Initial(s: System) {
    && s.row.state.Queued? && s.row.retries == 0 && s.row.staging.None?
    && (forall p :: p in s.files ==> p.LibraryPath? && !s.files[p])
    && s.queued == 1 && s.enqueuers == 0 && s.workers == multiset{} && s.approvers == multiset{}
    && s.enqueues == 1 && s.downloads == s.recoveries == s.approvals == s.redeliveries == 0
  }

  predicate ValidRun(s: System, steps: seq<Step>)
    decreases |steps|
  {
    steps == [] || (Enabled(s, steps[0]) && ValidRun(Next(s, steps[0]), steps[1..]))
  }

  function Run(s: System, steps: seq<Step>): System
    requires ValidRun(s, steps)
    decreases |steps|
  {
    if steps == [] then s else Run(Next(s, steps[0]), steps[1..])
  }

  // ---- The retry budget ----

  /** Every enqueue but the first was paid for with a retry. */
  predicate Budgeted(s: System) {
    s.row.retries <= MAX_RETRIES && s.enqueues + s.enqueuers <= 1 + s.row.retries
  }

  lemma {:induction false} RetryBudgetHolds(s: System, steps: seq<Step>)
    requires Budgeted(s) && ValidRun(s, steps)
    ensures Budgeted(Run(s, steps)) && s.row.retries <= Run(s, steps).row.retries
    decreases |steps|
  {
    if steps != [] {
      StepKeepsBudget(s, steps[0]);
      RetryBudgetHolds(Next(s, steps[0]), steps[1..]);
    }
  }

  lemma StepKeepsBudget(s: System, step: Step)
    requires Budgeted(s) && Enabled(s, step)
    ensures Budgeted(Next(s, step)) && s.row.retries <= Next(s, step).row.retries
  {
    match step
    case Work(pc, c) => assert Next(s, step) == Worked(s, pc, c);
    case Approve(pc, c) => assert Next(s, step) == ApprovalStep(s, pc, c);
    case _ =>
  }

  /** Whatever the interleaving of workers, retry tails, recoveries, enqueue
      failures, crashes, approvals and cancellations: a job is enqueued at most
      1 + MAX_RETRIES times and its retry count never exceeds the cap. */
  lemma EnqueuedAtMostFourTimes(s: System, steps: seq<Step>)
    requires Initial(s) && ValidRun(s, steps)
    ensures Run(s, steps).enqueues <= 1 + MAX_RETRIES && Run(s, steps).row.retries <= MAX_RETRIES
  {
    RetryBudgetHolds(s, steps);
  }

  // ---- Settling ----

  predicate Busy(s: System) {
    StuckState(s.row.state) || s.workers != multiset{} || s.approvers != multiset{}
  }

  /** What is left for recoveries to consume. */
  function Potential(s: System): int {
    s.queued + s.enqueuers + 2 * (MAX_RETRIES - s.row.retries) + if Busy(s) then 1 else 0
  }

  /** Recovery only ever finds the row after its worker or approval died. */
  predicate WorkersKeepDying(s: System, steps: seq<Step>)
    requires ValidRun(s, steps)
    decreases |steps|
  {
    steps == [] ||
    (&& (steps[0].Recovery? ==> s.workers == multiset{} && s.approvers == multiset{})
     && WorkersKeepDying(Next(s, steps[0]), steps[1..]))
  }

  lemma WorkIsPaidFor(s: System, pc: WorkerPc, c: Choice)
    requires Enabled(s, Work(pc, c)) && Budgeted(s)
    ensures var after := Worked(s, pc, c);
            && after.queued == s.queued && after.recoveries == s.recoveries && after.approvals == s.approvals
            && after.redeliveries == s.redeliveries
            && after.enqueuers + 2 * (MAX_RETRIES - after.row.retries)
               <= s.enqueuers + 2 * (MAX_RETRIES - s.row.retries)
  {
  }

  lemma ApprovalIsPaidFor(s: System, pc: ApproverPc, c: Choice)
    requires Enabled(s, Approve(pc, c))
    ensures var after := ApprovalStep(s, pc, c);
            && after.queued == s.queued && after.recoveries == s.recoveries && after.approvals == s.approvals
            && after.redeliveries == s.redeliveries
            && after.enqueuers == s.enqueuers && after.row.retries == s.row.retries
  {
  }

  lemma RecoveryIsPaidFor(s: System)
    requires Budgeted(s) && s.workers == multiset{} && s.approvers == multiset{}
    ensures Potential(RecoveryStep(s)) + RecoveryStep(s).recoveries <= Potential(s) + s.recoveries
    ensures RecoveryStep(s).approvals == s.approvals && RecoveryStep(s).redeliveries == s.redeliveries
  {
  }

  lemma StepPaysForRecovery(s: System, step: Step)
    requires Enabled(s, step) && Budgeted(s)
    requires step.Recovery? ==> s.workers == multiset{} && s.approvers == multiset{}
    ensures Potential(Next(s, step)) + Next(s, step).recoveries + s.approvals + s.redeliveries
            <= Potential(s) + s.recoveries + Next(s, step).approvals + Next(s, step).redeliveries
  {
    match step
    case Work(pc, c) =>
      assert Busy(s);
      WorkIsPaidFor(s, pc, c);
    case Approve(pc, c) =>
      assert Busy(s);
      ApprovalIsPaidFor(s, pc, c);
    case WorkerDies(_, _) => assert Busy(s);
    case ApproverDies(pc) => assert Busy(s);
    case Recovery => RecoveryIsPaidFor(s);
    case _ =>
  }

  lemma {:induction false} RecoveriesArePaidFor(s: System, steps: seq<Step>)
    requires ValidRun(s, steps) && Budgeted(s) && WorkersKeepDying(s, steps)
    ensures Run(s, steps).recoveries + s.approvals + s.redeliveries
            <= Potential(s) + s.recoveries + Run(s, steps).approvals + Run(s, steps).redeliveries
    decreases |steps|
  {
    if steps != [] {
      StepPaysForRecovery(s, steps[0]);
      StepKeepsBudget(s, steps[0]);
      RecoveriesArePaidFor(Next(s, steps[0]), steps[1..]);
    }
  }

  /** A job whose workers keep dying settles: recovery finds it stuck at most
      2 * MAX_RETRIES + 2 times, plus once per approval the user makes and once
      per queue entry handed out again. */
  lemma DyingJobSettles(s: System, steps: seq<Step>)
    requires Initial(s) && ValidRun(s, steps) && WorkersKeepDying(s, steps)
    ensures Run(s, steps).recoveries
            <= 2 * MAX_RETRIES + 2 + Run(s, steps).approvals + Run(s, steps).redeliveries
  {
    RecoveriesArePaidFor(s, steps);
  }

  // ---- Placement and crashes ----

  predicate InLibrary(s: System) {
    exists p :: p in s.files && p.LibraryPath? && s.files[p]
  }

  /** The audio is where the row says it is staged, or already in the library. */
  predicate AudioSafe(s: System, at: Option<Path>) {
    (at.Some? && at.value in s.files && s.files[at.value]) || InLibrary(s)
  }

  /** Staging paths only ever hold this job's audio. */
  predicate StagingIsOurs(s: System) {
    forall p :: p in s.files && p.StagingPath? ==> s.files[p]
  }

  predicate StagedPaths(s: System) {
    && (s.row.staging.Some? ==> s.row.staging.value.StagingPath?)
    && (forall pc :: pc in s.approvers ==> pc.from.StagingPath?)
    && (forall pc :: pc in s.workers && pc.Publishing? ==> pc.at.StagingPath?)
  }

  predicate PlacementInv(s: System) {
    && StagingIsOurs(s) && StagedPaths(s)
    && (s.row.state.Placing? ==> AudioSafe(s, s.row.staging))
  }

  lemma WorkKeepsLibraryFile(s: System, pc: WorkerPc, c: Choice, p: Path)
    requires Enabled(s, Work(pc, c)) && p in s.files && p.LibraryPath? && s.files[p]
    ensures p in Worked(s, pc, c).files && Worked(s, pc, c).files[p]
  {
    WorkNeverPlaces(s, pc, c);
  }

  lemma ApprovalKeepsLibraryFile(s: System, pc: ApproverPc, c: Choice, p: Path)
    requires StagedPaths(s) && Enabled(s, Approve(pc, c)) && p in s.files && p.LibraryPath? && s.files[p]
    ensures p in ApprovalStep(s, pc, c).files && ApprovalStep(s, pc, c).files[p]
  {
    assert pc.from.StagingPath?;
  }

  lemma LibraryFileIsKept(s: System, step: Step, p: Path)
    requires StagedPaths(s) && Enabled(s, step) && p in s.files && p.LibraryPath? && s.files[p]
    ensures p in Next(s, step).files && Next(s, step).files[p]
  {
    match step
    case Work(pc, c) => WorkKeepsLibraryFile(s, pc, c, p);
    case Approve(pc, c) => ApprovalKeepsLibraryFile(s, pc, c, p);
    case Reject => assert s.row.staging.Some? ==> s.row.staging.value.StagingPath?;
    case _ => assert Next(s, step).files == s.files;
  }

  lemma LibraryIsKept(s: System, step: Step)
    requires PlacementInv(s) && Enabled(s, step) && InLibrary(s)
    ensures InLibrary(Next(s, step))
  {
    var p :| p in s.files && p.LibraryPath? && s.files[p];
    LibraryFileIsKept(s, step, p);
  }

  /** A worker never writes "placing", and only ever adds a staged file. */
  lemma WorkNeverPlaces(s: System, pc: WorkerPc, c: Choice)
    requires Enabled(s, Work(pc, c))
    ensures var after := Worked(s, pc, c);
            && (after.row.state.Placing? ==> s.row == after.row)
            && (after.files == s.files || (c.Put? && c.path.StagingPath? && after.files == s.files[c.path := true]))
            && after.approvers == s.approvers
  {
  }

  lemma GoesPublishing(workers: multiset<WorkerPc>, pc: WorkerPc, next: WorkerPc)
    requires forall x :: x in workers && x.Publishing? ==> x.at.StagingPath?
    requires next.Publishing? ==> next.at.StagingPath?
    ensures forall x :: x in workers - multiset{pc} && x.Publishing? ==> x.at.StagingPath?
    ensures forall x :: x in workers - multiset{pc} + multiset{next} && x.Publishing? ==> x.at.StagingPath?
  {
  }

  function NextPoint(s: System, pc: WorkerPc, c: Choice): WorkerPc
    requires Enabled(s, Work(pc, c))
  {
    match pc
    case Picked => Pacing
    case Pacing => if c.Proceed? then Deciding else Pacing
    case Deciding => if c.Duplicate? then Tail else Fetching
    case Fetching => if c.Fail? then Tail else Rechecking
    case Rechecking => if s.row.state in {Cancelled, Queued} then Tail else Remuxing
    case Remuxing => if c.Fail? then Tail else Identifying
    case Identifying => Moving
    case Moving => if c.Fail? then Tail else Publishing(c.path)
    case Publishing(_) => Tail
    case Tail => Tail
  }

  lemma WorkMoves(s: System, pc: WorkerPc, c: Choice)
    requires Enabled(s, Work(pc, c))
    ensures var after := Worked(s, pc, c).workers;
            after == Leaves(s, pc).workers || after == Goes(s, pc, NextPoint(s, pc, c)).workers
  {
  }

  lemma WorkKeepsRest(s: System, pc: WorkerPc, c: Choice)
    requires Enabled(s, Work(pc, c))
    ensures var after := Worked(s, pc, c);
            && after.approvers == s.approvers
            && (after.row.staging == s.row.staging || (pc.Publishing? && after.row.staging == Some(pc.at)))
  {
  }

  lemma WorkKeepsStagedPaths(s: System, pc: WorkerPc, c: Choice)
    requires StagedPaths(s) && Enabled(s, Work(pc, c))
    ensures StagedPaths(Worked(s, pc, c))
  {
    WorkMoves(s, pc, c);
    WorkKeepsRest(s, pc, c);
    GoesPublishing(s.workers, pc, NextPoint(s, pc, c));
  }

  lemma WorkKeepsPlacement(s: System, pc: WorkerPc, c: Choice)
    requires PlacementInv(s) && Enabled(s, Work(pc, c))
    ensures PlacementInv(Worked(s, pc, c))
  {
    WorkNeverPlaces(s, pc, c);
    WorkKeepsStagedPaths(s, pc, c);
    if InLibrary(s) { LibraryIsKept(s, Work(pc, c)); }
  }

  lemma ApproversStayStaged(approvers: multiset<ApproverPc>, pc: ApproverPc)
    requires pc in approvers && forall x :: x in approvers ==> x.from.StagingPath?
    ensures forall x :: x in approvers - multiset{pc} ==> x.from.StagingPath?
    ensures forall x :: x in approvers - multiset{pc} + multiset{Renaming(pc.from)} ==> x.from.StagingPath?
    ensures forall x :: x in approvers - multiset{pc} + multiset{Committing(pc.from)} ==> x.from.StagingPath?
  {
    forall x | x in approvers - multiset{pc} ensures x in approvers {}
  }

  lemma ApprovalPaths(s: System, pc: ApproverPc, c: Choice)
    requires StagedPaths(s) && Enabled(s, Approve(pc, c))
    ensures StagedPaths(ApprovalStep(s, pc, c))
  {
    ApproversStayStaged(s.approvers, pc);
    assert ApprovalStep(s, pc, c).workers == s.workers;
  }

  /** The rename: the audio leaves the staged path for the library, or nothing
      moves. */
  lemma RenameKeepsPlacement(s: System, pc: ApproverPc, c: Choice)
    requires PlacementInv(s) && Enabled(s, Approve(pc, c)) && pc.Renaming? && !c.Fail?
    ensures PlacementInv(ApprovalStep(s, pc, c))
  {
    ApprovalPaths(s, pc, c);
    if InLibrary(s) { LibraryIsKept(s, Approve(pc, c)); }
    var after := ApprovalStep(s, pc, c);
    if c.path !in s.files && pc.from in s.files {
      assert c.path in after.files && after.files[c.path];
    }
  }

  lemma ApprovalKeepsPlacement(s: System, pc: ApproverPc, c: Choice)
    requires PlacementInv(s) && Enabled(s, Approve(pc, c))
    ensures PlacementInv(ApprovalStep(s, pc, c))
  {
    if pc.Renaming? && !c.Fail? {
      RenameKeepsPlacement(s, pc, c);
    } else {
      ApprovalPaths(s, pc, c);
      assert ApprovalStep(s, pc, c).files == s.files;
      if InLibrary(s) { LibraryIsKept(s, Approve(pc, c)); }
    }
  }

  lemma RecoveryKeepsPlacement(s: System)
    requires PlacementInv(s)
    ensures PlacementInv(RecoveryStep(s)) && PlacementInv(ApprovalBegun(s))
  {
    assert RecoveryStep(s).files == s.files && ApprovalBegun(s).files == s.files;
    if InLibrary(s) {
      LibraryIsKept(s, Recovery);
      LibraryIsKept(s, BeginApproval);
    }
  }

  lemma StepKeepsPlacement(s: System, step: Step)
    requires PlacementInv(s) && Enabled(s, step)
    ensures PlacementInv(Next(s, step))
  {
    if InLibrary(s) { LibraryIsKept(s, step); }
    match step
    case Work(pc, c) => WorkKeepsPlacement(s, pc, c);
    case Approve(pc, c) => ApprovalKeepsPlacement(s, pc, c);
    case Recovery => RecoveryKeepsPlacement(s);
    case BeginApproval => RecoveryKeepsPlacement(s);
    case _ =>
  }

  lemma {:induction false} RunKeepsPlacement(s: System, steps: seq<Step>)
    requires PlacementInv(s) && ValidRun(s, steps)
    ensures PlacementInv(Run(s, steps))
    decreases |steps|
  {
    if steps != [] {
      StepKeepsPlacement(s, steps[0]);
      RunKeepsPlacement(Next(s, steps[0]), steps[1..]);
    }
  }

  /** In every reachable state a row being placed has its audio at the staging
      path or in the library, wherever a process died; and the next recovery
      returns it to review exactly when the staged file is still there, and
      otherwise fails it for good. */
  lemma PlacingAudioIsNeverLost(s: System, steps: seq<Step>)
    requires Initial(s) && ValidRun(s, steps) && Run(s, steps).row.state.Placing?
    ensures var now := Run(s, steps);
            && AudioSafe(now, now.row.staging)
            && (Next(now, Recovery).row.state.NeedsReview?
                <==> now.row.staging.Some? && now.row.staging.value in now.files)
            && (Next(now, Recovery).row.state.NeedsReview? ||
                (Next(now, Recovery).row == FailRow(now.row, Permanent) && InLibrary(now)))
  {
    RunKeepsPlacement(s, steps);
  }

  // ---- No second download ----

  /** Phase 1 is over: nothing is queued or working, and the row is in review,
      being placed, or at rest in a state no automatic step leaves. */
  predicate Phase2(s: System) {
    && s.queued == 0 && s.enqueuers == 0 && s.workers == multiset{}
    && (s.row.state in {NeedsReview, Placing, Done, Cancelled} || (s.row.state.Failed? && s.row.failure.Permanent?))
  }

  lemma ApprovalKeepsPhase2(s: System, pc: ApproverPc, c: Choice)
    requires Phase2(s) && Enabled(s, Approve(pc, c))
    ensures var after := ApprovalStep(s, pc, c);
            Phase2(after) && after.enqueues == s.enqueues && after.downloads == s.downloads
  {
  }

  lemma StepKeepsPhase2(s: System, step: Step)
    requires Phase2(s) && Enabled(s, step)
    ensures Phase2(Next(s, step)) && Next(s, step).enqueues == s.enqueues && Next(s, step).downloads == s.downloads
  {
    match step
    case Approve(pc, c) => ApprovalKeepsPhase2(s, pc, c);
    case Recovery => assert Next(s, step) == RecoveryStep(s);
    case BeginApproval => assert Next(s, step) == ApprovalBegun(s);
    case _ =>
  }

  lemma {:induction false} Phase2IsFinal(s: System, steps: seq<Step>)
    requires Phase2(s) && ValidRun(s, steps)
    ensures Phase2(Run(s, steps))
    ensures Run(s, steps).enqueues == s.enqueues && Run(s, steps).downloads == s.downloads
    decreases |steps|
  {
    if steps != [] {
      StepKeepsPhase2(s, steps[0]);
      Phase2IsFinal(Next(s, steps[0]), steps[1..]);
    }
  }

  /** At most one queue entry, enqueue under way, worker or approval. */
  predicate OneOwner(s: System) {
    s.queued + s.enqueuers + |s.workers| + |s.approvers| <= 1
  }

  predicate OneOwnerThroughout(s: System, steps: seq<Step>)
    requires ValidRun(s, steps)
    decreases |steps|
  {
    OneOwner(s) && (steps == [] || OneOwnerThroughout(Next(s, steps[0]), steps[1..]))
  }

  lemma {:induction false} PlacingMeansPhase2(s: System, steps: seq<Step>)
    requires ValidRun(s, steps) && OneOwnerThroughout(s, steps)
    requires s.row.state.Placing? ==> Phase2(s)
    ensures OneOwner(Run(s, steps)) && (Run(s, steps).row.state.Placing? ==> Phase2(Run(s, steps)))
    decreases |steps|
  {
    if steps != [] {
      var next := Next(s, steps[0]);
      assert OneOwner(next) by { assert OneOwnerThroughout(next, steps[1..]); }
      if next.row.state.Placing? {
        StartsPhase2(s, steps[0]);
      }
      PlacingMeansPhase2(next, steps[1..]);
    }
  }

  lemma OnlyApprovalPlaces(s: System, step: Step)
    requires Enabled(s, step) && Next(s, step).row.state.Placing? && !s.row.state.Placing?
    ensures step.BeginApproval? && Approvable(s)
  {
    match step
    case Work(pc, c) => WorkNeverPlaces(s, pc, c);
    case _ =>
  }

  lemma ApproverIsTheOwner(s: System, pc: ApproverPc)
    requires OneOwner(s) && pc in s.approvers
    ensures s.queued == 0 && s.enqueuers == 0 && s.workers == multiset{}
  {
    assert |s.approvers - multiset{pc}| == |s.approvers| - 1;
  }

  lemma StartsPhase2(s: System, step: Step)
    requires Enabled(s, step) && (s.row.state.Placing? ==> Phase2(s))
    requires Next(s, step).row.state.Placing? && OneOwner(Next(s, step))
    ensures Phase2(Next(s, step))
  {
    if !s.row.state.Placing? {
      OnlyApprovalPlaces(s, step);
      var from := s.row.staging.value;
      assert WritingTags(from) in ApprovalBegun(s).approvers;
      ApproverIsTheOwner(Next(s, step), WritingTags(from));
    } else {
      Phase2IsFinal(s, [step]);
      assert Run(s, [step]) == Next(s, step);
    }
  }

  /** Once a job with one live owner at a time has been in placement, it is
      never queued or downloaded again, whatever happens afterwards. */
  lemma PlacedJobIsNeverRedownloaded(s: System, steps: seq<Step>, more: seq<Step>)
    requires Initial(s) && ValidRun(s, steps) && OneOwnerThroughout(s, steps)
    requires Run(s, steps).row.state.Placing? && ValidRun(Run(s, steps), more)
    ensures var then_, now := Run(s, steps), Run(Run(s, steps), more);
            && now.enqueues == then_.enqueues && now.downloads == then_.downloads
            && now.queued == now.enqueuers == 0 && now.workers == multiset{}
  {
    PlacingMeansPhase2(s, steps);
    Phase2IsFinal(Run(s, steps), more);
  }

  // ---- When a row in placement is downloaded again ----

  lemma RunFirst(s: System, step: Step, rest: seq<Step>)
    requires Enabled(s, step) && ValidRun(Next(s, step), rest)
    ensures ValidRun(s, [step] + rest) && Run(s, [step] + rest) == Run(Next(s, step), rest)
  {
    assert ([step] + rest)[1..] == rest;
  }

  lemma DecidingDownloads(s: System) returns (more: seq<Step>)
    requires Deciding in s.workers
    ensures ValidRun(s, more) && Run(s, more).downloads == s.downloads + 1 && Run(s, more).row.state.Downloading?
    ensures NoRedelivery(more)
  {
    var step := Work(Deciding, Proceed);
    RunFirst(s, step, []);
    more := [step] + [];
  }

  lemma PacingDownloads(s: System) returns (more: seq<Step>)
    requires Pacing in s.workers
    ensures ValidRun(s, more) && Run(s, more).downloads == s.downloads + 1 && Run(s, more).row.state.Downloading?
    ensures NoRedelivery(more)
  {
    var step := Work(Pacing, Proceed);
    var rest := DecidingDownloads(Next(s, step));
    RunFirst(s, step, rest);
    more := [step] + rest;
  }

  lemma PickedDownloads(s: System) returns (more: seq<Step>)
    requires Picked in s.workers && !s.row.state.Cancelled?
    ensures ValidRun(s, more) && Run(s, more).downloads == s.downloads + 1 && Run(s, more).row.state.Downloading?
    ensures NoRedelivery(more)
  {
    var step := Work(Picked, Proceed);
    var rest := PacingDownloads(Next(s, step));
    RunFirst(s, step, rest);
    more := [step] + rest;
  }

  /** A second queue entry left behind for a row being placed downloads it
      again, because a worker writes without looking. */
  lemma SecondEntryRedownloads(s: System) returns (more: seq<Step>)
    requires s.row.state.Placing? && s.queued > 0
    ensures ValidRun(s, more) && Run(s, more).downloads == s.downloads + 1 && Run(s, more).row.state.Downloading?
    ensures NoRedelivery(more)
  {
    var rest := PickedDownloads(Next(s, PickUp));
    RunFirst(s, PickUp, rest);
    more := [PickUp] + rest;
  }

  lemma EnqueuerEnqueues(s: System) returns (more: seq<Step>)
    requires s.enqueuers > 0
    ensures ValidRun(s, more) && Run(s, more).enqueues == s.enqueues + 1 && NoRedelivery(more)
  {
    RunFirst(s, Enqueue(true), []);
    more := [Enqueue(true)] + [];
  }

  /** A worker at its tail requeues a row that failed for now. */
  lemma TailEnqueues(s: System) returns (more: seq<Step>)
    requires Tail in s.workers && TailRequeues(s.row)
    ensures ValidRun(s, more) && Run(s, more).enqueues == s.enqueues + 1 && NoRedelivery(more)
  {
    var step := Work(Tail, Proceed);
    var rest := EnqueuerEnqueues(Next(s, step));
    RunFirst(s, step, rest);
    more := [step] + rest;
  }

  /** A worker that can still fail for now can still cause an enqueue. */
  lemma FailingEnqueues(s: System, pc: WorkerPc) returns (more: seq<Step>)
    requires pc in s.workers && pc in {Fetching, Remuxing, Moving} && RetryLeft(s.row)
    ensures ValidRun(s, more) && Run(s, more).enqueues == s.enqueues + 1 && NoRedelivery(more)
  {
    var step := Work(pc, Fail(Transient));
    var rest := TailEnqueues(Next(s, step));
    RunFirst(s, step, rest);
    more := [step] + rest;
  }

  lemma MidwayEnqueues(s: System, pc: WorkerPc) returns (more: seq<Step>)
    requires pc in s.workers && Midway(pc) && RetryLeft(s.row) && s.row.state.Placing?
    ensures ValidRun(s, more) && Run(s, more).enqueues == s.enqueues + 1 && NoRedelivery(more)
  {
    if pc in {Fetching, Remuxing, Moving} {
      more := FailingEnqueues(s, pc);
    } else {
      var step := Work(pc, Proceed);
      var rest := FailingEnqueues(Next(s, step), if pc.Rechecking? then Remuxing else Moving);
      RunFirst(s, step, rest);
      more := [step] + rest;
    }
  }

  /** No interrupted queue entry is handed out again. */
  predicate NoRedelivery(steps: seq<Step>) {
    forall step :: step in steps && step.WorkerDies? ==> !step.redelivered
  }

  /** Before the download begins, and from there to the staged file. */
  predicate Early(pc: WorkerPc) {
    pc in {Picked, Pacing, Deciding}
  }

  predicate Midway(pc: WorkerPc) {
    pc in {Fetching, Rechecking, Remuxing, Identifying, Moving}
  }

  /** Something is under way that will or may fetch the job again. */
  predicate Hazard(s: System) {
    || s.queued > 0 || s.enqueuers > 0
    || exists pc :: pc in s.workers && (Early(pc) || (Midway(pc) && RetryLeft(s.row)))
  }

  predicate CalmWorkers(workers: multiset<WorkerPc>, retriesLeft: bool) {
    forall pc :: pc in workers ==> !Early(pc) && !(Midway(pc) && retriesLeft)
  }

  predicate CalmRow(row: Row) {
    RetryLeft(row) ==>
      row.state in {NeedsReview, Placing, Done, Cancelled} || (row.state.Failed? && row.failure.Permanent?)
  }

  /** Closed under every step without redelivery; a row in placement without a
      hazard meets it. */
  predicate Calm(s: System) {
    s.queued == 0 && s.enqueuers == 0 && CalmWorkers(s.workers, RetryLeft(s.row)) && CalmRow(s.row)
  }

  lemma NoHazardIsCalm(s: System)
    requires s.row.state.Placing? && !Hazard(s)
    ensures Calm(s)
  {
  }

  /** A calm row is not requeued, neither by a tail nor by recovery. */
  lemma CalmRowStays(row: Row, stagedExists: bool)
    requires CalmRow(row)
    ensures !TailRequeues(row) && !RecoveryRequeues(row)
    ensures CalmRow(RolledBack(row)) && RolledBack(row).retries == row.retries
    ensures CalmRow(Recovered(row, stagedExists)) && Recovered(row, stagedExists).retries == row.retries
  {
  }

  lemma WorkKeepsRowCalm(s: System, pc: WorkerPc, c: Choice)
    requires Calm(s) && Enabled(s, Work(pc, c))
    ensures var after := Worked(s, pc, c);
            && after.queued == 0 && after.enqueuers == 0 && CalmRow(after.row) && after.row.retries == s.row.retries
            && after.enqueues == s.enqueues && after.downloads == s.downloads
  {
    assert !Early(pc) && (Midway(pc) ==> !RetryLeft(s.row));
    CalmRowStays(s.row, false);
    match pc
    case Publishing(_) =>
    case Tail =>
    case _ =>
  }

  lemma WorkKeepsWorkersCalm(s: System, pc: WorkerPc, c: Choice)
    requires Enabled(s, Work(pc, c)) && CalmWorkers(s.workers, RetryLeft(s.row))
    ensures CalmWorkers(Worked(s, pc, c).workers, RetryLeft(s.row))
  {
    var next := NextPoint(s, pc, c);
    assert !Early(pc) && !Early(next) && (Midway(next) ==> Midway(pc));
    WorkMoves(s, pc, c);
    forall x | x in Worked(s, pc, c).workers ensures !Early(x) && !(Midway(x) && RetryLeft(s.row)) {
      assert x in s.workers || x == next;
    }
  }

  lemma ApprovalStaysCalm(s: System, pc: ApproverPc, c: Choice)
    requires Calm(s) && Enabled(s, Approve(pc, c))
    ensures var after := ApprovalStep(s, pc, c);
            Calm(after) && after.enqueues == s.enqueues && after.downloads == s.downloads
  {
    CalmRowStays(s.row, false);
    var after := ApprovalStep(s, pc, c);
    assert after.workers == s.workers && after.row.retries == s.row.retries;
  }

  lemma RecoveryStaysCalm(s: System)
    requires Calm(s)
    ensures Calm(RecoveryStep(s)) && Calm(ApprovalBegun(s))
    ensures RecoveryStep(s).enqueues == s.enqueues && RecoveryStep(s).downloads == s.downloads
  {
    CalmRowStays(s.row, StagedExists(s.row, s.files.Keys));
    assert RecoveryStep(s).workers == s.workers && ApprovalBegun(s).workers == s.workers;
  }

  lemma DeathStaysCalm(s: System, pc: WorkerPc)
    requires Calm(s) && pc in s.workers
    ensures Calm(Leaves(s, pc))
  {
    forall x | x in Leaves(s, pc).workers ensures x in s.workers {}
  }

  lemma StepStaysCalm(s: System, step: Step)
    requires Calm(s) && Enabled(s, step) && (step.WorkerDies? ==> !step.redelivered)
    ensures Calm(Next(s, step)) && Next(s, step).enqueues == s.enqueues && Next(s, step).downloads == s.downloads
  {
    match step
    case Work(pc, c) =>
      WorkKeepsRowCalm(s, pc, c);
      WorkKeepsWorkersCalm(s, pc, c);
    case Approve(pc, c) => ApprovalStaysCalm(s, pc, c);
    case WorkerDies(pc, _) => DeathStaysCalm(s, pc);
    case Recovery => RecoveryStaysCalm(s);
    case BeginApproval => RecoveryStaysCalm(s);
    case Cancel(_) => assert Next(s, step).workers == s.workers;
    case Reject => assert Next(s, step).workers == s.workers;
    case _ =>
  }

  lemma {:induction false} RunStaysCalm(s: System, steps: seq<Step>)
    requires Calm(s) && ValidRun(s, steps) && NoRedelivery(steps)
    ensures Run(s, steps).enqueues == s.enqueues && Run(s, steps).downloads == s.downloads
    decreases |steps|
  {
    if steps != [] {
      assert steps[0] in steps && forall x :: x in steps[1..] ==> x in steps;
      StepStaysCalm(s, steps[0]);
      RunStaysCalm(Next(s, steps[0]), steps[1..]);
    }
  }

  /** The run fetches the job again, or puts it back on the queue. */
  predicate FetchesAgain(s: System, steps: seq<Step>) {
    ValidRun(s, steps) && (Run(s, steps).enqueues > s.enqueues || Run(s, steps).downloads > s.downloads)
  }

  lemma HazardFetchesAgain(s: System) returns (more: seq<Step>)
    requires s.row.state.Placing? && Hazard(s)
    ensures FetchesAgain(s, more) && NoRedelivery(more)
  {
    if s.queued > 0 {
      more := SecondEntryRedownloads(s);
    } else if s.enqueuers > 0 {
      more := EnqueuerEnqueues(s);
    } else {
      var pc :| pc in s.workers && (Early(pc) || (Midway(pc) && RetryLeft(s.row)));
      match pc
      case Picked => more := PickedDownloads(s);
      case Pacing => more := PacingDownloads(s);
      case Deciding => more := DecidingDownloads(s);
      case _ => more := MidwayEnqueues(s, pc);
    }
  }

  /** While no interrupted entry is handed out again, some run from a row in
      placement enqueues or downloads it exactly when an entry or an enqueue is
      pending, a worker has not begun its download, or one is midway with retries
      left. */
  lemma PlacingFetchedAgainIff(s: System)
    requires s.row.state.Placing?
    ensures (exists more :: FetchesAgain(s, more) && NoRedelivery(more)) <==> Hazard(s)
  {
    if Hazard(s) {
      var more := HazardFetchesAgain(s);
    } else {
      NoHazardIsCalm(s);
      forall more | FetchesAgain(s, more) && NoRedelivery(more) ensures false {
        RunStaysCalm(s, more);
      }
    }
  }

  /** With redelivery every worker still alive is a hazard: the exact condition
      is that anything at all is queued, being enqueued or working. */
  lemma PlacingFetchedAgainWithRedeliveryIff(s: System)
    requires s.row.state.Placing?
    ensures (exists more :: FetchesAgain(s, more)) <==> s.queued > 0 || s.enqueuers > 0 || s.workers != multiset{}
  {
    if s.queued > 0 || s.enqueuers > 0 {
      var more := HazardFetchesAgain(s);
    } else if s.workers != multiset{} {
      var pc :| pc in s.workers;
      var step := WorkerDies(pc, true);
      var rest := SecondEntryRedownloads(Next(s, step));
      RunFirst(s, step, rest);
      assert FetchesAgain(s, [step] + rest);
    } else {
      forall more | FetchesAgain(s, more) ensures false {
        Phase2IsFinal(s, more);
      }
    }
  }
}
