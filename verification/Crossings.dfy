/**
 What goes wrong, and exactly when, if a drive is reinstalled between what a
 compaction or a poll saw and what it then writes. Installing resets the
 revision, so the revision check alone cannot tell.
 */
module Crossings {
  import opened Records
  import opened Paths
  import opened Overlay
  import opened VolumeTree
  import opened Refinement
  import opened BatchOrder
  import opened Compaction
  import opened Drives
  import opened Protocol

  // ----- A commit that outlived its installation -----

  /** A poll of this drive has read its current cursor and not yet applied its batch. */
  predicate PollPending(s: State, drive: char) {
    s.poll.Some? && s.poll.value.drive == drive && s.poll.value.epoch == EpochOf(s, drive)
  }

  /** The commit goes through although the drive was reinstalled since the capture. */
  predicate StaleCommit(s: State, job: Job) {
    Commits(s, job) && job.epoch != EpochOf(s, job.candidate.drive)
  }

  lemma StaleCommitKeepsDrive(volume: Volume, s: State, thread: nat, job: Job)
    requires JobTrue(volume, job) && StaleCommit(s, job)
    ensures DriveOk(volume, DoCommit(s, thread, job, Compact(job.source)), job.candidate.drive)
    ensures var after := DoCommit(s, thread, job, Compact(job.source));
            var entry := EntryFor(after.manager, job.candidate.drive);
            && entry.Some? && entry.value.cursor == job.candidate.cursor
            && Abs(entry.value.view) == volume(job.candidate.drive, job.candidate.cursor)
  {
    var c := job.candidate;
    CompactSettlesTree(job.source);
    SettleIsIdentityIffSettled(Abs(job.source));
    EntryAfterCommit(s.manager, c.drive, c.revision, Compact(job.source), c.cursor, c.drive);
  }

  lemma StaleCommitKeepsPollIff(volume: Volume, s: State, thread: nat, job: Job)
    requires JobTrue(volume, job) && PollOk(volume, s) && StaleCommit(s, job)
    ensures PollOk(volume, DoCommit(s, thread, job, Compact(job.source))) <==>
            (PollPending(s, job.candidate.drive) ==>
               volume(job.candidate.drive, job.candidate.cursor) == volume(job.candidate.drive, s.poll.value.from))
  {
    var c := job.candidate;
    StaleCommitKeepsDrive(volume, s, thread, job);
    if s.poll.Some? {
      EntryAfterCommit(s.manager, c.drive, c.revision, Compact(job.source), c.cursor, s.poll.value.drive);
    }
  }

  /**
   A stale commit that slips past the revision check puts the drive back to an
   older true state. It is safe if and only if no poll of that drive is pending,
   or the volume looks the same at the poll's cursor. The history of the drive
   starts again from the committed tree (`LogAfterCommit`), so that part of the
   invariant holds by definition; what can fail is the poll that comes next, and
   through it the content.
   */
  lemma StaleCommitIsSafeIff(volume: Volume, s: State, thread: nat)
    requires Safe(volume, s) && Enabled(volume, s, CommitJob(thread))
    requires StaleCommit(s, PhaseOf(s, thread).job)
    ensures var c := PhaseOf(s, thread).job.candidate;
            Safe(volume, Do(s, CommitJob(thread))) <==>
            (PollPending(s, c.drive) ==> volume(c.drive, c.cursor) == volume(c.drive, s.poll.value.from))
  {
    var job := PhaseOf(s, thread).job;
    var c := job.candidate;
    assert PhaseOk(volume, s, thread);
    CommitStepIs(volume, s, thread);
    var after := DoCommit(s, thread, job, Compact(job.source));
    StepKeepsGate(volume, s, CommitJob(thread));
    CommitBumps(s.manager, c.drive, c.revision, Compact(job.source), c.cursor);
    StaleCommitKeepsPollIff(volume, s, thread, job);
    forall drive: char ensures DriveOk(volume, after, drive) {
      assert DriveOk(volume, s, drive);
      if drive == c.drive { StaleCommitKeepsDrive(volume, s, thread, job); }
      else { CommitKeepsOtherDrive(volume, s, thread, job, Compact(job.source), drive); }
    }
    forall other: nat ensures PhaseOk(volume, after, other) {
      CommitKeepsPhases(volume, s, thread, job, Compact(job.source), other);
    }
  }

  // ----- What a batch must be -----

  /** A batch is about to be applied to a drive. */
  predicate BatchArrives(s: State) { s.poll.Some? && EntryFor(s.manager, s.poll.value.drive).Some? }

  /** The tree that the drive holds when the batch arrives. */
  function HeldTree(s: State): Tree
    requires BatchArrives(s)
  {
    Abs(EntryFor(s.manager, s.poll.value.drive).value.view)
  }

  lemma PollKeepsGate(s: State, step: Step)
    requires GateOk(s) && step.PollApply?
    ensures GateOk(Do(s, step))
  {
    OutsideStepFrame(s, step);
    assert forall thread: nat :: Active(Do(s, step), thread) <==> Active(s, thread);
  }

  lemma OtherPartsAfterApply(volume: Volume, s: State, events: seq<UsnEvent>, to: UsnCursor)
    requires Safe(volume, s) && s.poll.Some?
    ensures var after := Do(s, PollApply(events, to));
            Safe(volume, after) <==> DriveOk(volume, after, s.poll.value.drive)
  {
    var p := s.poll.value;
    var after := DoApply(s, p, events, to);
    PollKeepsGate(s, PollApply(events, to));
    ApplyBumps(s.manager, p.drive, events, to);
    forall drive: char | drive != p.drive ensures DriveOk(volume, after, drive) {
      assert DriveOk(volume, s, drive);
      ApplyKeepsOtherDrive(volume, s, p, events, to, drive);
    }
    forall thread: nat ensures PhaseOk(volume, after, thread) {
      assert PhaseOk(volume, s, thread);
      ApplyKeepsPhase(volume, s, p, events, to, thread);
    }
  }

  lemma AppliedMirrors(volume: Volume, s: State, events: seq<UsnEvent>, to: UsnCursor)
    requires BatchArrives(s) && UpperChar(s.poll.value.drive) == s.poll.value.drive
    requires DriveOk(volume, DoApply(s, s.poll.value, events, to), s.poll.value.drive)
    ensures var view := EntryFor(s.manager, s.poll.value.drive).value.view;
            Mirrors(volume, s.poll.value.drive, ApplyEvents(view, events), to)
  {
    EntryAfterApply(s.manager, s.poll.value.drive, events, to, s.poll.value.drive);
  }

  lemma SafeParts(volume: Volume, s: State)
    requires Safe(volume, s) && s.poll.Some?
    ensures DriveOk(volume, s, s.poll.value.drive) && UpperChar(s.poll.value.drive) == s.poll.value.drive
  {}

  /** A batch that the held tree can take, and that leads to the volume's tree, gives a drive that mirrors it. */
  lemma ReadableGivesDrive(volume: Volume, s: State, p: Poll, view: View, events: seq<UsnEvent>, to: UsnCursor)
    requires DriveOk(volume, s, p.drive) && UpperChar(p.drive) == p.drive
    requires EntryFor(s.manager, p.drive).Some? && EntryFor(s.manager, p.drive).value.view == view
    requires LogicalLen(view) + |events| <= PARENT_NONE && Readable(Abs(view), events)
    requires Settled(volume(p.drive, to)) && TreeApplyAll(Abs(view), events) == volume(p.drive, to)
    ensures DriveOk(volume, DoApply(s, p, events, to), p.drive)
  {
    ReadableRefines(view, events);
    ApplyGivesDrive(volume, s, p, events, to);
  }

  lemma ReadableBatchIsSafe(volume: Volume, s: State, events: seq<UsnEvent>, to: UsnCursor)
    requires Safe(volume, s) && BatchArrives(s) && BatchFitsDrive(s, s.poll.value.drive, events)
    requires Readable(HeldTree(s), events) && Settled(volume(s.poll.value.drive, to))
    requires TreeApplyAll(HeldTree(s), events) == volume(s.poll.value.drive, to)
    ensures Safe(volume, Do(s, PollApply(events, to)))
  {
    var p := s.poll.value;
    SafeParts(volume, s);
    ReadableGivesDrive(volume, s, p, EntryFor(s.manager, p.drive).value.view, events, to);
    OtherPartsAfterApply(volume, s, events, to);
  }

  lemma MirroringBatchIsFresh(volume: Volume, drive: char, view: View, events: seq<UsnEvent>, to: UsnCursor)
    requires Inv(view) && LogicalLen(view) + |events| <= PARENT_NONE
    requires OneEach(events) && forall k :: 0 <= k < |events| ==> EventFlagsOk(events[k])
    requires Mirrors(volume, drive, ApplyEvents(view, events), to)
    ensures FreshBatch(Abs(view), events) && TreeApplyAll(Abs(view), events) == volume(drive, to)
  {
    if !FreshBatch(Abs(view), events) { ReplayBreaksInv(view, events); }
    BatchTracks(view, events);
  }

  lemma SafeBatchIsFresh(volume: Volume, s: State, events: seq<UsnEvent>, to: UsnCursor)
    requires Safe(volume, s) && BatchArrives(s) && BatchFitsDrive(s, s.poll.value.drive, events)
    requires OneEach(events) && forall k :: 0 <= k < |events| ==> EventFlagsOk(events[k])
    requires Safe(volume, Do(s, PollApply(events, to)))
    ensures FreshBatch(HeldTree(s), events)
    ensures TreeApplyAll(HeldTree(s), events) == volume(s.poll.value.drive, to)
  {
    var p := s.poll.value;
    SafeParts(volume, s);
    assert DriveOk(volume, Do(s, PollApply(events, to)), p.drive);
    AppliedMirrors(volume, s, events, to);
    MirroringBatchIsFresh(volume, p.drive, EntryFor(s.manager, p.drive).value.view, events, to);
  }

  /**
   What the protocol asks of a batch with one event for each number is exactly
   what it needs: whatever installation it arrives in, applying it is safe if and
   only if it creates nothing that the drive holds and leads, in the order in
   which it comes, to the volume's tree at the new cursor.
   */
  lemma BatchIsSafeIff(volume: Volume, s: State, events: seq<UsnEvent>, to: UsnCursor)
    requires Safe(volume, s) && BatchArrives(s) && BatchFitsDrive(s, s.poll.value.drive, events)
    requires OneEach(events) && forall k :: 0 <= k < |events| ==> EventFlagsOk(events[k])
    requires Settled(volume(s.poll.value.drive, to))
    ensures Safe(volume, Do(s, PollApply(events, to))) <==>
            FreshBatch(HeldTree(s), events) && TreeApplyAll(HeldTree(s), events) == volume(s.poll.value.drive, to)
  {
    if Safe(volume, Do(s, PollApply(events, to))) {
      SafeBatchIsFresh(volume, s, events, to);
    } else if FreshBatch(HeldTree(s), events) && TreeApplyAll(HeldTree(s), events) == volume(s.poll.value.drive, to) {
      ReadableBatchIsSafe(volume, s, events, to);
    }
  }

  // ----- A batch that outlived its installation -----

  /** The batch is applied to another installation than the one its cursor was read from. */
  predicate StaleBatch(s: State) { BatchArrives(s) && s.poll.value.epoch != EpochOf(s, s.poll.value.drive) }

  predicate SameTreeAsPolled(volume: Volume, s: State)
    requires StaleBatch(s)
  {
    HeldTree(s) == volume(s.poll.value.drive, s.poll.value.from)
  }

  /** Where the new installation holds the tree the poll started from, the batch is still right. */
  lemma StaleBatchIsSafeOnSameTree(volume: Volume, s: State, events: seq<UsnEvent>, to: UsnCursor)
    requires Safe(volume, s) && Enabled(volume, s, PollApply(events, to))
    requires StaleBatch(s) && SameTreeAsPolled(volume, s)
    ensures Safe(volume, Do(s, PollApply(events, to)))
  {
    assert DriveOk(volume, s, s.poll.value.drive);
    ApplyKeepsDrive(volume, s, s.poll.value, events, to);
    OtherPartsAfterApply(volume, s, events, to);
  }

  /**
   A batch with one event for each number that outlived its installation is safe
   if and only if it creates nothing that the new installation holds, and leads
   from there to the tree that it leads to from where the poll started.
   */
  lemma StaleBatchIsSafeIff(volume: Volume, s: State, events: seq<UsnEvent>, to: UsnCursor)
    requires Safe(volume, s) && Enabled(volume, s, PollApply(events, to)) && StaleBatch(s) && OneEach(events)
    ensures var p := s.poll.value;
            Safe(volume, Do(s, PollApply(events, to))) <==>
            && FreshBatch(HeldTree(s), events)
            && TreeApplyAll(HeldTree(s), events) == TreeApplyAll(volume(p.drive, p.from), events)
  {
    ReadableFlags(volume(s.poll.value.drive, s.poll.value.from), events);
    BatchIsSafeIff(volume, s, events, to);
  }

  /** For any batch that is a possible history of the installed tree, the second half is the condition. */
  lemma StaleHistoryIsSafeIff(volume: Volume, s: State, events: seq<UsnEvent>, to: UsnCursor)
    requires Safe(volume, s) && Enabled(volume, s, PollApply(events, to)) && StaleBatch(s)
    requires WellFormedAll(HeldTree(s), events)
    ensures var p := s.poll.value;
            Safe(volume, Do(s, PollApply(events, to))) <==>
            TreeApplyAll(HeldTree(s), events) == TreeApplyAll(volume(p.drive, p.from), events)
  {
    var p := s.poll.value;
    assert DriveOk(volume, s, p.drive);
    if Safe(volume, Do(s, PollApply(events, to))) {
      assert DriveOk(volume, Do(s, PollApply(events, to)), p.drive);
      AppliedMirrors(volume, s, events, to);
      EventsRefine(EntryFor(s.manager, p.drive).value.view, events);
    } else if TreeApplyAll(HeldTree(s), events) == TreeApplyAll(volume(p.drive, p.from), events) {
      ReadableBatchIsSafe(volume, s, events, to);
    }
  }

  /** So a safe stale batch found every number that it does not name as the poll had left it. */
  lemma SafeStaleBatchAgrees(volume: Volume, s: State, events: seq<UsnEvent>, to: UsnCursor, n: nat)
    requires Safe(volume, s) && Enabled(volume, s, PollApply(events, to)) && StaleBatch(s) && OneEach(events)
    requires Safe(volume, Do(s, PollApply(events, to)))
    requires forall k :: 0 <= k < |events| ==> NumberOf(events[k]) != n
    ensures NodeIn(HeldTree(s), n) == NodeIn(volume(s.poll.value.drive, s.poll.value.from), n)
  {
    StaleBatchIsSafeIff(volume, s, events, to);
    Untouched(HeldTree(s), events, n);
    Untouched(volume(s.poll.value.drive, s.poll.value.from), events, n);
  }

  /** A batch without events moves the cursor alone: it is safe on the tree that the poll started from and on no other. */
  lemma QuietStaleBatchIsSafeIff(volume: Volume, s: State, to: UsnCursor)
    requires Safe(volume, s) && Enabled(volume, s, PollApply([], to)) && StaleBatch(s)
    ensures Safe(volume, Do(s, PollApply([], to))) <==> SameTreeAsPolled(volume, s)
  {
    StaleBatchIsSafeIff(volume, s, [], to);
  }
}
