/**
 Background compaction beside journal polling (engine lib.rs, drive_manager.rs)
 as a step system. Lock sections and atomic operations are single steps; any
 thread may try to compact; installs and removals come at any time.

 `volume(drive, cursor)` is the true tree of a drive at a journal position.
 */
module Protocol {
  import opened Basics
  import opened Records
  import opened Paths
  import opened Overlay
  import opened VolumeTree
  import opened Refinement
  import opened BatchOrder
  import opened Builder
  import opened Compaction
  import opened Drives

  type Volume = (char, UsnCursor) -> Tree

  datatype Batch = Batch(events: seq<UsnEvent>, cursor: UsnCursor)

  /** What a drive's content was built from since it was installed. */
  datatype Log = Log(start: Tree, startCursor: UsnCursor, batches: seq<Batch>)

  /** A captured compaction: its candidate, the index it saw, and when it saw it. */
  datatype Job = Job(candidate: CompactCandidate, source: View, epoch: nat, logLen: nat)

  datatype Phase =
    | Idle
    | Gated
    | Captured(job: Job)
    | Rebuilt(job: Job, view: View)
    | Finishing

  /** A poll that has read a cursor and not yet applied its batch. */
  datatype Poll = Poll(drive: char, from: UsnCursor, epoch: nat)

  /** Epochs count the installations of each drive; like the logs, they only record history. */
  datatype State = State(
    manager: Manager, gate: bool, phases: map<nat, Phase>, poll: Option<Poll>,
    epochs: map<char, nat>, logs: map<char, Log>)

  const INITIAL := State(EMPTY_MANAGER, false, map[], None, map[], map[])

  datatype Step =
    | TryGate(thread: nat)
    | CaptureJob(thread: nat)
    | GiveUp(thread: nat)
    | RebuildJob(thread: nat)
    | CommitJob(thread: nat)
    | ReleaseGate(thread: nat)
    | PollRead(drive: char)
    | PollApply(events: seq<UsnEvent>, to: UsnCursor)
    | PollFail
    | InstallDrive(drive: char, view: View, cursor: UsnCursor)
    | RemoveDrive(drive: char)

  function PhaseOf(s: State, thread: nat): Phase { if thread in s.phases then s.phases[thread] else Idle }

  function EpochOf(s: State, drive: char): nat { if drive in s.epochs then s.epochs[drive] else 0 }

  function SetPhase(s: State, thread: nat, phase: Phase): State { s.(phases := s.phases[thread := phase]) }

  function EventsOf(batches: seq<Batch>): seq<UsnEvent> {
    if batches == [] then [] else EventsOf(batches[..|batches| - 1]) + batches[|batches| - 1].events
  }

  function CursorAfter(log: Log): UsnCursor {
    if log.batches == [] then log.startCursor else log.batches[|log.batches| - 1].cursor
  }

  function LogOf(s: State, drive: char): Log {
    if drive in s.logs then s.logs[drive] else Log(map[], UsnCursor(0, 0), [])
  }

  // ----- Steps -----

  /** `compact_candidate` under the read lock; without a candidate the gate opens again. */
  function DoCapture(s: State, thread: nat): State {
    match FirstCompactable(s.manager.indexes)
    case None => SetPhase(s, thread, Idle).(gate := false)
    case Some(d) =>
      var entry := s.manager.indexes[d];
      var job := Job(Capture(s.manager).value, entry.view, EpochOf(s, entry.letter), |LogOf(s, entry.letter).batches|);
      SetPhase(s, thread, Captured(job))
  }

  /** Whether the write-locked commit of this job goes through. */
  predicate Commits(s: State, job: Job) {
    var entry := EntryFor(s.manager, job.candidate.drive);
    entry.Some? && entry.value.revision == job.candidate.revision
  }

  /**
   The history after a commit: back to the capture, or, if the drive has been
   installed again since, a fresh start from the committed tree.
   */
  function LogAfterCommit(s: State, job: Job, view: View): Log {
    var log := LogOf(s, job.candidate.drive);
    if job.epoch == EpochOf(s, job.candidate.drive)
    then log.(batches := log.batches[..Min(job.logLen, |log.batches|)])
    else Log(Abs(view), job.candidate.cursor, [])
  }

  function DoCommit(s: State, thread: nat, job: Job, view: View): State {
    var c := job.candidate;
    var after := SetPhase(s, thread, Finishing).(manager := Commit(s.manager, c.drive, c.revision, view, c.cursor).0);
    if Commits(s, job) then after.(logs := s.logs[c.drive := LogAfterCommit(s, job, view)]) else after
  }

  function DoRead(s: State, drive: char): State {
    match EntryFor(s.manager, drive)
    case None => s
    case Some(entry) => s.(poll := Some(Poll(drive, entry.cursor, EpochOf(s, drive))))
  }

  function DoApply(s: State, p: Poll, events: seq<UsnEvent>, to: UsnCursor): State {
    var after := s.(poll := None, manager := Apply(s.manager, p.drive, events, to));
    if EntryFor(s.manager, p.drive).None? then after
    else
      var log := LogOf(s, p.drive);
      after.(logs := s.logs[p.drive := log.(batches := log.batches + [Batch(events, to)])])
  }

  function DoInstall(s: State, drive: char, view: View, cursor: UsnCursor): State {
    s.(manager := Install(s.manager, drive, view, cursor),
       epochs := s.epochs[drive := EpochOf(s, drive) + 1],
       logs := s.logs[drive := Log(Abs(view), cursor, [])])
  }

  function DoRemove(s: State, drive: char): State {
    s.(manager := Remove(s.manager, drive), epochs := s.epochs[drive := EpochOf(s, drive) + 1])
  }

  /** Without a candidate or on failure to spawn, the gate opens at once; a running worker finishes first. */
  function DoGiveUp(s: State, thread: nat): State {
    if PhaseOf(s, thread).Gated? then SetPhase(s, thread, Idle).(gate := false) else SetPhase(s, thread, Finishing)
  }

  function DoRebuild(s: State, thread: nat): State {
    match PhaseOf(s, thread)
    case Captured(job) => SetPhase(s, thread, Rebuilt(job, BuiltView(Additions(job.candidate.records))))
    case _ => s
  }

  function Do(s: State, step: Step): State {
    match step
    case TryGate(thread) => if s.gate then s else SetPhase(s, thread, Gated).(gate := true)
    case CaptureJob(thread) => DoCapture(s, thread)
    case GiveUp(thread) => DoGiveUp(s, thread)
    case RebuildJob(thread) => DoRebuild(s, thread)
    case CommitJob(thread) =>
      if PhaseOf(s, thread).Rebuilt? then DoCommit(s, thread, PhaseOf(s, thread).job, PhaseOf(s, thread).view) else s
    case ReleaseGate(thread) => SetPhase(s, thread, Idle).(gate := false)
    case PollRead(drive) => DoRead(s, drive)
    case PollApply(events, to) => if s.poll.Some? then DoApply(s, s.poll.value, events, to) else s
    case PollFail => s.(poll := None)
    case InstallDrive(drive, view, cursor) => DoInstall(s, drive, view, cursor)
    case RemoveDrive(drive) => DoRemove(s, drive)
  }

  /**
   A poll result that tells the truth: its events, in the order in which they come,
   lead from the tree at `from` to the tree at `to`. A batch with one event for each
   number need not come in the order of any history, but it creates no live number
   and loses no move (`BatchOrder.OrderFreeIffUnmet` tells when it cannot).
   */
  ghost predicate PollSound(volume: Volume, drive: char, from: UsnCursor, events: seq<UsnEvent>, to: UsnCursor) {
    && Readable(volume(drive, from), events)
    && TreeApplyAll(volume(drive, from), events) == volume(drive, to)
    && Settled(volume(drive, to))
  }

  /** An index that mirrors the volume at a cursor, with nothing left unresolved. */
  ghost predicate Mirrors(volume: Volume, drive: char, view: View, cursor: UsnCursor) {
    Inv(view) && Abs(view) == volume(drive, cursor) && Settled(Abs(view))
  }

  ghost predicate BatchFitsDrive(s: State, drive: char, events: seq<UsnEvent>) {
    EntryFor(s.manager, drive).Some? ==>
      LogicalLen(EntryFor(s.manager, drive).value.view) + |events| <= PARENT_NONE
  }

  /**
   When each step can be taken. A poll that fails, or that finds neither events nor
   progress, applies nothing. Drive letters are upper-case throughout.
   */
  ghost predicate Enabled(volume: Volume, s: State, step: Step) {
    match step
    case TryGate(thread) => PhaseOf(s, thread).Idle?
    case CaptureJob(thread) => PhaseOf(s, thread).Gated?
    case GiveUp(thread) => !PhaseOf(s, thread).Idle? && !PhaseOf(s, thread).Finishing?
    case RebuildJob(thread) => PhaseOf(s, thread).Captured?
    case CommitJob(thread) => PhaseOf(s, thread).Rebuilt?
    case ReleaseGate(thread) => PhaseOf(s, thread).Finishing?
    case PollRead(drive) => s.poll.None? && UpperChar(drive) == drive
    case PollApply(events, to) =>
      s.poll.Some? && (events != [] || to.lastUsn != s.poll.value.from.lastUsn)
      && PollSound(volume, s.poll.value.drive, s.poll.value.from, events, to)
      && BatchFitsDrive(s, s.poll.value.drive, events)
    case PollFail => s.poll.Some?
    case InstallDrive(drive, view, cursor) => UpperChar(drive) == drive && Mirrors(volume, drive, view, cursor)
    case RemoveDrive(drive) => UpperChar(drive) == drive
  }

  /** No drive is reinstalled between what a step saw and what it now changes. */
  ghost predicate SameInstallation(s: State, step: Step) {
    match step
    case CommitJob(thread) =>
      PhaseOf(s, thread).Rebuilt? && Commits(s, PhaseOf(s, thread).job) ==>
        PhaseOf(s, thread).job.epoch == EpochOf(s, PhaseOf(s, thread).job.candidate.drive)
    case PollApply(events, to) =>
      s.poll.Some? && EntryFor(s.manager, s.poll.value.drive).Some? ==>
        s.poll.value.epoch == EpochOf(s, s.poll.value.drive)
    case _ => true
  }

  // ----- The gate -----

  predicate Active(s: State, thread: nat) { !PhaseOf(s, thread).Idle? }

  /** The gate is closed exactly while one compaction is in flight. */
  ghost predicate GateOk(s: State) {
    && (s.gate <==> exists thread: nat :: Active(s, thread))
    && (forall a: nat, b: nat :: Active(s, a) && Active(s, b) ==> a == b)
  }

  /** The drive, poll and install steps leave the gate and every phase alone. */
  lemma OutsideStepFrame(s: State, step: Step)
    requires step.PollRead? || step.PollApply? || step.PollFail? || step.InstallDrive? || step.RemoveDrive?
    ensures Do(s, step).gate == s.gate && Do(s, step).phases == s.phases
  {}

  /** A step of a compaction thread is its own affair, and the gate follows the thread. */
  lemma ThreadStepFrame(volume: Volume, s: State, step: Step)
    requires step.CaptureJob? || step.GiveUp? || step.RebuildJob? || step.CommitJob? || step.ReleaseGate?
    requires Enabled(volume, s, step) && s.gate
    ensures Active(s, step.thread)
    ensures Do(s, step).gate <==> Active(Do(s, step), step.thread)
    ensures forall other: nat :: other != step.thread ==> PhaseOf(Do(s, step), other) == PhaseOf(s, other)
  {}

  lemma StepKeepsGate(volume: Volume, s: State, step: Step)
    requires GateOk(s) && Enabled(volume, s, step)
    ensures GateOk(Do(s, step))
  {
    if step.TryGate? {
      if !s.gate { MovesOneThread(s, Do(s, step), step.thread); }
    } else if step.PollRead? || step.PollApply? || step.PollFail? || step.InstallDrive? || step.RemoveDrive? {
      OutsideStepFrame(s, step);
      assert forall thread: nat :: Active(Do(s, step), thread) <==> Active(s, thread);
    } else {
      assert Active(s, step.thread);
      ThreadStepFrame(volume, s, step);
      MovesOneThread(s, Do(s, step), step.thread);
    }
  }

  /**
   A compaction that gives up never leaves the gate closed for good: before it has
   captured anything the gate opens at once, later its worker opens it next. The
   drives stay as they are.
   */
  lemma GivingUpFreesGate(volume: Volume, s: State, thread: nat)
    requires GateOk(s) && Enabled(volume, s, GiveUp(thread))
    ensures var after := Do(s, GiveUp(thread));
            && after.manager == s.manager
            && (if s.phases[thread].Gated? then !after.gate
                else after.gate && Enabled(volume, after, ReleaseGate(thread)) && !Do(after, ReleaseGate(thread)).gate)
  {
    assert Active(s, thread);
    assert thread in s.phases;
  }

  /** Whatever state the gate is closed in, one or two steps of its thread can open it again, with the drives as they are. */
  lemma GateCanReopen(volume: Volume, s: State) returns (thread: nat)
    requires GateOk(s) && s.gate
    ensures thread in s.phases
    ensures if s.phases[thread].Finishing?
            then Enabled(volume, s, ReleaseGate(thread)) && !Do(s, ReleaseGate(thread)).gate
            else
              var after := Do(s, GiveUp(thread));
              && Enabled(volume, s, GiveUp(thread)) && after.manager == s.manager
              && (!after.gate || (Enabled(volume, after, ReleaseGate(thread)) && !Do(after, ReleaseGate(thread)).gate))
  {
    thread :| Active(s, thread);
    if !PhaseOf(s, thread).Finishing? { GivingUpFreesGate(volume, s, thread); }
  }

  /** One thread moves while no other is active, and the gate follows it. */
  lemma MovesOneThread(s: State, after: State, thread: nat)
    requires GateOk(s)
    requires forall other: nat :: other != thread ==> PhaseOf(after, other) == PhaseOf(s, other)
    requires s.gate ==> Active(s, thread)
    requires after.gate <==> Active(after, thread)
    ensures GateOk(after)
  {
    forall other: nat | other != thread ensures !Active(after, other) {
      assert Active(after, other) <==> Active(s, other);
    }
  }

  // ----- Content matches cursor -----

  ghost predicate Quiet(batches: seq<Batch>) { forall k :: 0 <= k < |batches| ==> batches[k].events == [] }

  /** A drive mirrors the volume at its cursor, and is the fold of exactly the batches up to that cursor. */
  ghost predicate DriveOk(volume: Volume, s: State, drive: char) {
    match EntryFor(s.manager, drive)
    case None => true
    case Some(entry) =>
      var log := LogOf(s, drive);
      && UpperChar(drive) == drive
      && Mirrors(volume, drive, entry.view, entry.cursor)
      && Abs(entry.view) == TreeApplyAll(log.start, EventsOf(log.batches))
      && entry.cursor == CursorAfter(log)
  }

  /** A job holds the true tree at its own cursor, whatever happened since. */
  ghost predicate JobTrue(volume: Volume, job: Job) {
    var c := job.candidate;
    && UpperChar(c.drive) == c.drive
    && Mirrors(volume, c.drive, job.source, c.cursor)
    && c.records == Snapshot(job.source)
  }

  /** In its own installation, a job is a point in the history of its drive. */
  ghost predicate JobFresh(s: State, job: Job) {
    && job.epoch <= EpochOf(s, job.candidate.drive)
    && (job.epoch == EpochOf(s, job.candidate.drive) ==> JobCurrent(s, job))
  }

  ghost predicate JobOk(volume: Volume, s: State, job: Job) { JobTrue(volume, job) && JobFresh(s, job) }

  /** An unchanged revision means only quiet batches since the capture. */
  ghost predicate JobCurrent(s: State, job: Job) {
    var log := LogOf(s, job.candidate.drive);
    match EntryFor(s.manager, job.candidate.drive)
    case None => false
    case Some(entry) =>
      && job.candidate.revision <= entry.revision
      && job.logLen <= |log.batches|
      && job.candidate.cursor == CursorAfter(log.(batches := log.batches[..job.logLen]))
      && Abs(job.source) == TreeApplyAll(log.start, EventsOf(log.batches[..job.logLen]))
      && (entry.revision == job.candidate.revision ==> Quiet(log.batches[job.logLen..]))
  }

  function JobOf(phase: Phase): Option<Job> {
    match phase case Captured(job) => Some(job) case Rebuilt(job, _) => Some(job) case _ => None
  }

  ghost predicate PhaseOk(volume: Volume, s: State, thread: nat) {
    var phase := PhaseOf(s, thread);
    && (JobOf(phase).Some? ==> JobOk(volume, s, JobOf(phase).value))
    && (phase.Rebuilt? ==> phase.view == Compact(phase.job.source))
  }

  /** In its own installation, a poll is about to extend the tree that the drive holds. */
  ghost predicate PollOk(volume: Volume, s: State) {
    s.poll.Some? ==>
      var p := s.poll.value;
      && UpperChar(p.drive) == p.drive
      && p.epoch <= EpochOf(s, p.drive)
      && (p.epoch == EpochOf(s, p.drive) ==>
            EntryFor(s.manager, p.drive).Some? && Abs(EntryFor(s.manager, p.drive).value.view) == volume(p.drive, p.from))
  }

  ghost predicate Safe(volume: Volume, s: State) {
    && GateOk(s)
    && UniqueLetters(s.manager.indexes)
    && (forall drive: char :: DriveOk(volume, s, drive))
    && (forall thread: nat :: PhaseOk(volume, s, thread))
    && PollOk(volume, s)
  }

  // ----- Logs -----

  lemma {:induction false} EventsOfConcat(a: seq<Batch>, b: seq<Batch>)
    ensures EventsOf(a + b) == EventsOf(a) + EventsOf(b)
    decreases |b|
  {
    if b == [] {
      assert a + b == a;
    } else {
      assert (a + b)[..|a + b| - 1] == a + b[..|b| - 1];
      EventsOfConcat(a, b[..|b| - 1]);
    }
  }

  lemma {:induction false} QuietAddsNothing(batches: seq<Batch>)
    requires Quiet(batches)
    ensures EventsOf(batches) == []
  {
    if batches != [] {
      QuietAddsNothing(batches[..|batches| - 1]);
    }
  }

  lemma EventsUpTo(batches: seq<Batch>, k: nat)
    requires k <= |batches| && Quiet(batches[k..])
    ensures EventsOf(batches) == EventsOf(batches[..k])
  {
    assert batches == batches[..k] + batches[k..];
    EventsOfConcat(batches[..k], batches[k..]);
    QuietAddsNothing(batches[k..]);
  }

  // ----- Frames: what a job or poll needs survives steps elsewhere -----

  /** The history and entry of one drive are as before. */
  ghost predicate SameDrive(s: State, after: State, drive: char) {
    && EntryFor(after.manager, drive) == EntryFor(s.manager, drive)
    && LogOf(after, drive) == LogOf(s, drive)
    && EpochOf(after, drive) == EpochOf(s, drive)
  }

  /** A step that leaves every drive alone keeps everything but the phase of its own thread. */
  lemma QuietStepIsSafe(volume: Volume, s: State, after: State, thread: nat)
    requires Safe(volume, s) && GateOk(after)
    requires after.manager == s.manager && after.logs == s.logs && after.epochs == s.epochs
    requires forall other: nat :: other != thread ==> PhaseOf(after, other) == PhaseOf(s, other)
    requires PhaseOk(volume, after, thread) && PollOk(volume, after)
    ensures Safe(volume, after)
  {
    forall drive: char ensures DriveOk(volume, after, drive) {
      assert DriveOk(volume, s, drive);
    }
    forall other: nat ensures PhaseOk(volume, after, other) {
      assert PhaseOk(volume, s, other);
    }
  }

  // ----- Steps of the compaction thread -----

  /** The captured job is current, with nothing yet after it. */
  lemma CaptureKeepsPhase(volume: Volume, s: State, thread: nat)
    requires UniqueLetters(s.manager.indexes)
    requires forall drive: char :: DriveOk(volume, s, drive)
    ensures PhaseOk(volume, DoCapture(s, thread), thread)
  {
    var found := FirstCompactable(s.manager.indexes);
    if found.Some? {
      var entry := s.manager.indexes[found.value];
      EntryIs(s.manager, found.value);
      assert DriveOk(volume, s, entry.letter);
      var log := LogOf(s, entry.letter);
      assert log.batches[..|log.batches|] == log.batches;
      assert log.(batches := log.batches) == log;
    }
  }

  lemma CaptureFrame(s: State, thread: nat)
    ensures var after := DoCapture(s, thread);
            && after.manager == s.manager && after.logs == s.logs && after.epochs == s.epochs && after.poll == s.poll
            && forall other: nat :: other != thread ==> PhaseOf(after, other) == PhaseOf(s, other)
  {}

  lemma CaptureIsSafe(volume: Volume, s: State, thread: nat)
    requires Safe(volume, s) && Enabled(volume, s, CaptureJob(thread))
    ensures Safe(volume, DoCapture(s, thread))
  {
    var after := DoCapture(s, thread);
    CaptureKeepsPhase(volume, s, thread);
    CaptureFrame(s, thread);
    SamePollOk(volume, s, after);
    StepKeepsGate(volume, s, CaptureJob(thread));
    QuietStepIsSafe(volume, s, after, thread);
  }

  /** A current job whose revision matches commits the very tree the drive already holds. */
  lemma CommitKeepsTree(volume: Volume, s: State, job: Job)
    requires JobOk(volume, s, job) && DriveOk(volume, s, job.candidate.drive)
    requires Commits(s, job) && job.epoch == EpochOf(s, job.candidate.drive)
    ensures var drive := job.candidate.drive;
            && Mirrors(volume, drive, Compact(job.source), job.candidate.cursor)
            && Abs(Compact(job.source)) == Abs(EntryFor(s.manager, drive).value.view)
            && Abs(Compact(job.source)) == TreeApplyAll(LogOf(s, drive).start, EventsOf(LogOf(s, drive).batches[..job.logLen]))
  {
    CompactSettlesTree(job.source);
    SettleIsIdentityIffSettled(Abs(job.source));
    EventsUpTo(LogOf(s, job.candidate.drive).batches, job.logLen);
  }

  lemma CommitKeepsOtherDrive(volume: Volume, s: State, thread: nat, job: Job, view: View, drive: char)
    requires UpperChar(job.candidate.drive) == job.candidate.drive && DriveOk(volume, s, drive)
    requires drive == job.candidate.drive ==> !Commits(s, job)
    ensures DriveOk(volume, DoCommit(s, thread, job, view), drive)
  {
    var c := job.candidate;
    EntryAfterCommit(s.manager, c.drive, c.revision, view, c.cursor, drive);
  }

  lemma CommitKeepsOwnDrive(volume: Volume, s: State, thread: nat, job: Job)
    requires JobOk(volume, s, job) && DriveOk(volume, s, job.candidate.drive)
    requires Commits(s, job) && job.epoch == EpochOf(s, job.candidate.drive)
    ensures DriveOk(volume, DoCommit(s, thread, job, Compact(job.source)), job.candidate.drive)
  {
    var c := job.candidate;
    CommitKeepsTree(volume, s, job);
    EntryAfterCommit(s.manager, c.drive, c.revision, Compact(job.source), c.cursor, c.drive);
  }

  lemma CommitKeepsPoll(volume: Volume, s: State, thread: nat, job: Job)
    requires JobOk(volume, s, job) && DriveOk(volume, s, job.candidate.drive) && PollOk(volume, s)
    requires Commits(s, job) ==> job.epoch == EpochOf(s, job.candidate.drive)
    ensures PollOk(volume, DoCommit(s, thread, job, Compact(job.source)))
  {
    var c := job.candidate;
    var after := DoCommit(s, thread, job, Compact(job.source));
    if s.poll.Some? {
      EntryAfterCommit(s.manager, c.drive, c.revision, Compact(job.source), c.cursor, s.poll.value.drive);
      if Commits(s, job) { CommitKeepsTree(volume, s, job); }
      assert SameTreeOn(s, after, s.poll.value.drive);
    }
    SameTreeKeepsPoll(volume, s, after);
  }

  ghost predicate SameTreeOn(s: State, after: State, drive: char) {
    EntryFor(s.manager, drive).Some? ==>
      && EntryFor(after.manager, drive).Some?
      && Abs(EntryFor(after.manager, drive).value.view) == Abs(EntryFor(s.manager, drive).value.view)
  }

  lemma SameTreeKeepsPoll(volume: Volume, s: State, after: State)
    requires PollOk(volume, s) && after.poll == s.poll && after.epochs == s.epochs
    requires s.poll.Some? ==> SameTreeOn(s, after, s.poll.value.drive)
    ensures PollOk(volume, after)
  {}

  /** No other thread holds a job when one commits. */
  lemma CommitKeepsPhases(volume: Volume, s: State, thread: nat, job: Job, view: View, other: nat)
    requires GateOk(s) && Active(s, thread)
    ensures PhaseOk(volume, DoCommit(s, thread, job, view), other)
  {
    assert Active(s, other) ==> other == thread;
  }

  lemma CommitStepIs(volume: Volume, s: State, thread: nat)
    requires PhaseOk(volume, s, thread) && PhaseOf(s, thread).Rebuilt?
    ensures var job := PhaseOf(s, thread).job;
            JobOk(volume, s, job) && Do(s, CommitJob(thread)) == DoCommit(s, thread, job, Compact(job.source))
  {}

  lemma CommitKeepsDrives(volume: Volume, s: State, thread: nat, job: Job, drive: char)
    requires JobOk(volume, s, job) && DriveOk(volume, s, drive)
    requires Commits(s, job) ==> job.epoch == EpochOf(s, job.candidate.drive)
    ensures DriveOk(volume, DoCommit(s, thread, job, Compact(job.source)), drive)
  {
    if drive == job.candidate.drive && Commits(s, job) {
      CommitKeepsOwnDrive(volume, s, thread, job);
    } else {
      CommitKeepsOtherDrive(volume, s, thread, job, Compact(job.source), drive);
    }
  }

  lemma CommitIsSafe(volume: Volume, s: State, thread: nat)
    requires Safe(volume, s) && Enabled(volume, s, CommitJob(thread)) && SameInstallation(s, CommitJob(thread))
    ensures Safe(volume, Do(s, CommitJob(thread)))
  {
    var job := PhaseOf(s, thread).job;
    var c := job.candidate;
    assert PhaseOk(volume, s, thread) && DriveOk(volume, s, c.drive);
    CommitStepIs(volume, s, thread);
    var after := DoCommit(s, thread, job, Compact(job.source));
    StepKeepsGate(volume, s, CommitJob(thread));
    CommitBumps(s.manager, c.drive, c.revision, Compact(job.source), c.cursor);
    CommitKeepsPoll(volume, s, thread, job);
    forall drive: char ensures DriveOk(volume, after, drive) {
      assert DriveOk(volume, s, drive);
      CommitKeepsDrives(volume, s, thread, job, drive);
    }
    forall other: nat ensures PhaseOk(volume, after, other) {
      CommitKeepsPhases(volume, s, thread, job, Compact(job.source), other);
    }
  }

  // ----- Steps of the poll thread -----

  /** A sound batch takes a drive from the tree at the poll's cursor to the tree at the new cursor. */
  lemma ApplyMovesView(volume: Volume, drive: char, from: UsnCursor, view: View, events: seq<UsnEvent>, to: UsnCursor)
    requires Inv(view) && Abs(view) == volume(drive, from)
    requires PollSound(volume, drive, from, events, to) && LogicalLen(view) + |events| <= PARENT_NONE
    ensures Mirrors(volume, drive, ApplyEvents(view, events), to)
    ensures Abs(ApplyEvents(view, events)) == TreeApplyAll(Abs(view), events)
  {
    ReadableRefines(view, events);
  }

  lemma ApplyGivesDrive(volume: Volume, s: State, p: Poll, events: seq<UsnEvent>, to: UsnCursor)
    requires DriveOk(volume, s, p.drive) && UpperChar(p.drive) == p.drive && EntryFor(s.manager, p.drive).Some?
    requires var view := EntryFor(s.manager, p.drive).value.view;
             && Mirrors(volume, p.drive, ApplyEvents(view, events), to)
             && Abs(ApplyEvents(view, events)) == TreeApplyAll(Abs(view), events)
    ensures DriveOk(volume, DoApply(s, p, events, to), p.drive)
  {
    var log := LogOf(s, p.drive);
    EntryAfterApply(s.manager, p.drive, events, to, p.drive);
    assert (log.batches + [Batch(events, to)])[..|log.batches|] == log.batches;
    TreeApplyAllConcat(log.start, EventsOf(log.batches), events);
  }

  lemma ApplyKeepsDrive(volume: Volume, s: State, p: Poll, events: seq<UsnEvent>, to: UsnCursor)
    requires DriveOk(volume, s, p.drive) && UpperChar(p.drive) == p.drive
    requires PollSound(volume, p.drive, p.from, events, to) && BatchFitsDrive(s, p.drive, events)
    requires EntryFor(s.manager, p.drive).Some? ==>
               Abs(EntryFor(s.manager, p.drive).value.view) == volume(p.drive, p.from)
    ensures DriveOk(volume, DoApply(s, p, events, to), p.drive)
  {
    if EntryFor(s.manager, p.drive).Some? {
      ApplyMovesView(volume, p.drive, p.from, EntryFor(s.manager, p.drive).value.view, events, to);
      ApplyGivesDrive(volume, s, p, events, to);
    } else {
      EntryAfterApply(s.manager, p.drive, events, to, p.drive);
    }
  }

  lemma LogGrows(batches: seq<Batch>, batch: Batch, k: nat)
    requires k <= |batches|
    ensures (batches + [batch])[..k] == batches[..k]
    ensures Quiet(batches[k..]) && batch.events == [] ==> Quiet((batches + [batch])[k..])
  {
    assert (batches + [batch])[k..] == batches[k..] + [batch];
  }

  /** A batch leaves a job of the same drive current: the log only grows, and loud batches move the revision on. */
  lemma ApplyKeepsCurrent(s: State, p: Poll, events: seq<UsnEvent>, to: UsnCursor, job: Job)
    requires JobCurrent(s, job) && job.candidate.drive == p.drive && UpperChar(p.drive) == p.drive
    ensures JobCurrent(DoApply(s, p, events, to), job)
  {
    var log := LogOf(s, p.drive);
    EntryAfterApply(s.manager, p.drive, events, to, p.drive);
    LogGrows(log.batches, Batch(events, to), job.logLen);
    assert LogOf(DoApply(s, p, events, to), p.drive) == log.(batches := log.batches + [Batch(events, to)]);
  }

  lemma ApplyKeepsJob(s: State, p: Poll, events: seq<UsnEvent>, to: UsnCursor, job: Job)
    requires JobFresh(s, job) && UpperChar(p.drive) == p.drive
    ensures JobFresh(DoApply(s, p, events, to), job)
  {
    if job.epoch == EpochOf(s, job.candidate.drive) {
      if job.candidate.drive == p.drive {
        ApplyKeepsCurrent(s, p, events, to, job);
      } else {
        EntryAfterApply(s.manager, p.drive, events, to, job.candidate.drive);
        SameDriveKeepsCurrent(s, DoApply(s, p, events, to), job);
      }
    }
  }

  lemma SameDriveKeepsCurrent(s: State, after: State, job: Job)
    requires SameDrive(s, after, job.candidate.drive) && JobCurrent(s, job)
    ensures JobCurrent(after, job)
  {}

  lemma ApplyKeepsOtherDrive(volume: Volume, s: State, p: Poll, events: seq<UsnEvent>, to: UsnCursor, drive: char)
    requires DriveOk(volume, s, drive) && UpperChar(p.drive) == p.drive != drive
    ensures DriveOk(volume, DoApply(s, p, events, to), drive)
  {
    EntryAfterApply(s.manager, p.drive, events, to, drive);
  }

  lemma ApplyKeepsPhase(volume: Volume, s: State, p: Poll, events: seq<UsnEvent>, to: UsnCursor, thread: nat)
    requires PhaseOk(volume, s, thread) && UpperChar(p.drive) == p.drive
    ensures PhaseOk(volume, DoApply(s, p, events, to), thread)
  {
    var job := JobOf(PhaseOf(s, thread));
    if job.Some? { ApplyKeepsJob(s, p, events, to, job.value); }
  }

  lemma ApplyIsSafe(volume: Volume, s: State, events: seq<UsnEvent>, to: UsnCursor)
    requires Safe(volume, s) && Enabled(volume, s, PollApply(events, to)) && SameInstallation(s, PollApply(events, to))
    ensures Safe(volume, Do(s, PollApply(events, to)))
  {
    var p := s.poll.value;
    var after := DoApply(s, p, events, to);
    StepKeepsGate(volume, s, PollApply(events, to));
    ApplyBumps(s.manager, p.drive, events, to);
    forall drive: char ensures DriveOk(volume, after, drive) {
      assert DriveOk(volume, s, drive);
      if drive == p.drive { ApplyKeepsDrive(volume, s, p, events, to); }
      else { ApplyKeepsOtherDrive(volume, s, p, events, to, drive); }
    }
    forall thread: nat ensures PhaseOk(volume, after, thread) {
      assert PhaseOk(volume, s, thread);
      ApplyKeepsPhase(volume, s, p, events, to, thread);
    }
  }

  // ----- Installs and removals -----

  lemma InstallIsSafe(volume: Volume, s: State, letter: char, view: View, cursor: UsnCursor)
    requires Safe(volume, s) && Enabled(volume, s, InstallDrive(letter, view, cursor))
    ensures Safe(volume, DoInstall(s, letter, view, cursor))
  {
    var after := DoInstall(s, letter, view, cursor);
    StepKeepsGate(volume, s, InstallDrive(letter, view, cursor));
    InstallBumps(s.manager, letter, view, cursor);
    forall drive: char
      ensures DriveOk(volume, after, drive)
      ensures drive != letter ==> SameDrive(s, after, drive)
    {
      assert DriveOk(volume, s, drive);
      EntryAfterInstall(s.manager, letter, view, cursor, drive);
    }
    OtherDrivesStay(volume, s, after, letter);
  }

  lemma RemoveIsSafe(volume: Volume, s: State, letter: char)
    requires Safe(volume, s) && Enabled(volume, s, RemoveDrive(letter))
    ensures Safe(volume, DoRemove(s, letter))
  {
    var after := DoRemove(s, letter);
    StepKeepsGate(volume, s, RemoveDrive(letter));
    RemoveBumps(s.manager, letter);
    forall drive: char
      ensures DriveOk(volume, after, drive)
      ensures drive != letter ==> SameDrive(s, after, drive)
    {
      assert DriveOk(volume, s, drive);
      EntryAfterRemove(s.manager, letter, drive);
    }
    OtherDrivesStay(volume, s, after, letter);
  }

  lemma JobStays(volume: Volume, s: State, after: State, letter: char, job: Job)
    requires JobOk(volume, s, job) && EpochOf(after, letter) == EpochOf(s, letter) + 1
    requires job.candidate.drive != letter ==> SameDrive(s, after, job.candidate.drive)
    ensures JobOk(volume, after, job)
  {
    if job.candidate.drive != letter && job.epoch == EpochOf(s, job.candidate.drive) { SameDriveKeepsCurrent(s, after, job); }
  }

  /** Jobs and polls of other drives stay good; those of a reinstalled drive become stale. */
  lemma OtherDrivesStay(volume: Volume, s: State, after: State, letter: char)
    requires Safe(volume, s)
    requires forall drive: char :: drive != letter ==> SameDrive(s, after, drive)
    requires EpochOf(after, letter) == EpochOf(s, letter) + 1
    requires after.phases == s.phases && after.poll == s.poll
    ensures (forall thread: nat :: PhaseOk(volume, after, thread)) && PollOk(volume, after)
  {
    forall thread: nat ensures PhaseOk(volume, after, thread) {
      assert PhaseOk(volume, s, thread);
      var job := JobOf(PhaseOf(s, thread));
      if job.Some? { JobStays(volume, s, after, letter, job.value); }
    }
    if s.poll.Some? && s.poll.value.drive != letter {
      assert SameDrive(s, after, s.poll.value.drive);
    }
  }

  // ----- Every run -----

  lemma ReadKeepsPoll(volume: Volume, s: State, drive: char)
    requires DriveOk(volume, s, drive) && PollOk(volume, s)
    ensures PollOk(volume, DoRead(s, drive))
  {}

  lemma ReadIsSafe(volume: Volume, s: State, drive: char)
    requires Safe(volume, s) && Enabled(volume, s, PollRead(drive))
    ensures Safe(volume, DoRead(s, drive))
  {
    var after := DoRead(s, drive);
    assert DriveOk(volume, s, drive);
    ReadKeepsPoll(volume, s, drive);
    StepKeepsGate(volume, s, PollRead(drive));
    SamePhaseOk(volume, s, after, 0);
    QuietStepIsSafe(volume, s, after, 0);
  }

  lemma SamePhaseOk(volume: Volume, s: State, after: State, thread: nat)
    requires PhaseOk(volume, s, thread)
    requires after.manager == s.manager && after.logs == s.logs && after.epochs == s.epochs && after.phases == s.phases
    ensures PhaseOk(volume, after, thread)
  {}

  /** A step of the compaction thread other than capture and commit touches its phase and the gate only. */
  lemma OwnStepFrame(s: State, step: Step)
    requires step.TryGate? || step.GiveUp? || step.RebuildJob? || step.ReleaseGate?
    ensures var after := Do(s, step);
            && after.manager == s.manager && after.logs == s.logs && after.epochs == s.epochs && after.poll == s.poll
            && forall other: nat :: other != step.thread ==> PhaseOf(after, other) == PhaseOf(s, other)
  {}

  /** Rebuilding a captured snapshot compacts the index it was taken from. */
  lemma RebuildKeepsPhase(volume: Volume, s: State, thread: nat)
    requires PhaseOk(volume, s, thread) && PhaseOf(s, thread).Captured?
    ensures PhaseOk(volume, DoRebuild(s, thread), thread)
  {
    var job := PhaseOf(s, thread).job;
    RebuildIs(s, thread, job);
    SameJobFresh(s, DoRebuild(s, thread), job);
  }

  lemma RebuildIs(s: State, thread: nat, job: Job)
    requires PhaseOf(s, thread) == Captured(job) && job.candidate.records == Snapshot(job.source)
    ensures PhaseOf(DoRebuild(s, thread), thread) == Rebuilt(job, Compact(job.source))
  {}

  lemma SameJobFresh(s: State, after: State, job: Job)
    requires after.manager == s.manager && after.logs == s.logs && after.epochs == s.epochs && JobFresh(s, job)
    ensures JobFresh(after, job)
  {}

  lemma GateStepKeepsPhase(volume: Volume, s: State, step: Step)
    requires step.TryGate? || step.GiveUp? || step.ReleaseGate?
    requires PhaseOk(volume, s, step.thread)
    ensures PhaseOk(volume, Do(s, step), step.thread)
  {
    var after := Do(s, step);
    assert after == s || JobOf(PhaseOf(after, step.thread)).None?;
  }

  lemma SamePollOk(volume: Volume, s: State, after: State)
    requires PollOk(volume, s)
    requires after.manager == s.manager && after.epochs == s.epochs && after.poll == s.poll
    ensures PollOk(volume, after)
  {}

  lemma OwnStepIsSafe(volume: Volume, s: State, step: Step)
    requires step.TryGate? || step.GiveUp? || step.RebuildJob? || step.ReleaseGate?
    requires Safe(volume, s) && Enabled(volume, s, step)
    ensures Safe(volume, Do(s, step))
  {
    var after := Do(s, step);
    assert PhaseOk(volume, s, step.thread);
    OwnStepFrame(s, step);
    if step.RebuildJob? { RebuildKeepsPhase(volume, s, step.thread); } else { GateStepKeepsPhase(volume, s, step); }
    SamePollOk(volume, s, after);
    StepKeepsGate(volume, s, step);
    QuietStepIsSafe(volume, s, after, step.thread);
  }

  lemma FailIsSafe(volume: Volume, s: State)
    requires Safe(volume, s) && Enabled(volume, s, PollFail)
    ensures Safe(volume, Do(s, PollFail))
  {
    var after := s.(poll := None);
    assert PhaseOk(volume, s, 0);
    SamePhaseOk(volume, s, after, 0);
    StepKeepsGate(volume, s, PollFail);
    QuietStepIsSafe(volume, s, after, 0);
  }

  lemma StepIsSafe(volume: Volume, s: State, step: Step)
    requires Safe(volume, s) && Enabled(volume, s, step) && SameInstallation(s, step)
    ensures Safe(volume, Do(s, step))
  {
    match step {
      case CaptureJob(thread) => CaptureIsSafe(volume, s, thread);
      case CommitJob(thread) => CommitIsSafe(volume, s, thread);
      case PollRead(drive) => ReadIsSafe(volume, s, drive);
      case PollApply(events, to) => ApplyIsSafe(volume, s, events, to);
      case PollFail => FailIsSafe(volume, s);
      case InstallDrive(drive, view, cursor) => InstallIsSafe(volume, s, drive, view, cursor);
      case RemoveDrive(drive) => RemoveIsSafe(volume, s, drive);
      case _ => OwnStepIsSafe(volume, s, step);
    }
  }

  function DoAll(s: State, steps: seq<Step>): State {
    if steps == [] then s else Do(DoAll(s, steps[..|steps| - 1]), steps[|steps| - 1])
  }

  ghost predicate Run(volume: Volume, s: State, steps: seq<Step>) {
    steps == [] ||
    (Run(volume, s, steps[..|steps| - 1]) && Enabled(volume, DoAll(s, steps[..|steps| - 1]), steps[|steps| - 1]))
  }

  ghost predicate StaysInInstallation(s: State, steps: seq<Step>) {
    steps == [] ||
    (StaysInInstallation(s, steps[..|steps| - 1]) && SameInstallation(DoAll(s, steps[..|steps| - 1]), steps[|steps| - 1]))
  }

  /**
   In every interleaving, while no step crosses an installation, each drive
   mirrors the volume at its own cursor, is the fold of exactly the batches up to
   that cursor, and the gate is closed exactly while one compaction is in flight.
   */
  lemma {:induction false} EveryRunIsSafe(volume: Volume, steps: seq<Step>)
    requires Run(volume, INITIAL, steps) && StaysInInstallation(INITIAL, steps)
    ensures Safe(volume, DoAll(INITIAL, steps))
  {
    if steps != [] {
      var init := steps[..|steps| - 1];
      EveryRunIsSafe(volume, init);
      StepIsSafe(volume, DoAll(INITIAL, init), steps[|steps| - 1]);
    }
  }
}
