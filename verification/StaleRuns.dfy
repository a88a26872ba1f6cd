/**
 Runs, legal step by step, in which a drive is rebuilt (removed and installed
 again) while a poll or a compaction is under way and which end with a drive whose
 content is not the volume at its cursor. All of it happens on drive C and
 compaction thread 0.
 */
module StaleRuns {
  import opened Basics
  import opened Records
  import opened Overlay
  import opened VolumeTree
  import opened Refinement
  import opened BatchOrder
  import opened SmallIndexes
  import opened Builder
  import opened Compaction
  import opened Drives
  import opened Protocol
  import opened Crossings

  // ----- Following a run step by step -----

  /** The first `k` steps can be taken, and none of them crosses an installation. */
  ghost predicate Legal(volume: Volume, steps: seq<Step>, k: nat) {
    k <= |steps| && Run(volume, INITIAL, steps[..k]) && StaysInInstallation(INITIAL, steps[..k])
  }

  function StateAt(steps: seq<Step>, k: nat): State
    requires k <= |steps|
  {
    DoAll(INITIAL, steps[..k])
  }

  lemma Next(volume: Volume, steps: seq<Step>, k: nat)
    requires Legal(volume, steps, k) && k < |steps|
    requires Enabled(volume, StateAt(steps, k), steps[k]) && SameInstallation(StateAt(steps, k), steps[k])
    ensures Legal(volume, steps, k + 1) && StateAt(steps, k + 1) == Do(StateAt(steps, k), steps[k])
  {
    assert steps[..k + 1][..k] == steps[..k];
  }

  predicate OnlyC(drives: seq<DriveIndex>) { drives == [] || (|drives| == 1 && drives[0].letter == 'C') }

  /** Where a run has come after `k` steps. */
  ghost predicate At(volume: Volume, steps: seq<Step>, k: nat,
                     drives: seq<DriveIndex>, epoch: nat, poll: Option<Poll>, phase: Phase) {
    && Legal(volume, steps, k) && OnlyC(drives)
    && StateIs(StateAt(steps, k), drives, epoch, poll, phase)
  }

  predicate StateIs(s: State, drives: seq<DriveIndex>, epoch: nat, poll: Option<Poll>, phase: Phase) {
    && s.manager.indexes == drives && EpochOf(s, 'C') == epoch && s.poll == poll
    && PhaseOf(s, 0) == phase && s.gate == !phase.Idle?
  }

  lemma AtStart(volume: Volume, steps: seq<Step>)
    ensures At(volume, steps, 0, [], 0, None, Idle)
  {
    assert steps[..0] == [];
  }

  lemma InstallNext(volume: Volume, steps: seq<Step>, k: nat,
                    drives: seq<DriveIndex>, epoch: nat, poll: Option<Poll>, phase: Phase, view: View, cursor: UsnCursor)
    requires At(volume, steps, k, drives, epoch, poll, phase)
    requires k < |steps| && steps[k] == InstallDrive('C', view, cursor) && Mirrors(volume, 'C', view, cursor)
    ensures At(volume, steps, k + 1, [DriveIndex('C', view, cursor, 0)], epoch + 1, poll, phase)
  {
    Next(volume, steps, k);
    assert Retain(drives, 'C') == [];
  }

  lemma RemoveNext(volume: Volume, steps: seq<Step>, k: nat,
                   drives: seq<DriveIndex>, epoch: nat, poll: Option<Poll>, phase: Phase)
    requires At(volume, steps, k, drives, epoch, poll, phase)
    requires k < |steps| && steps[k] == RemoveDrive('C')
    ensures At(volume, steps, k + 1, [], epoch + 1, poll, phase)
  {
    Next(volume, steps, k);
    assert Retain(drives, 'C') == [];
  }

  lemma ReadNext(volume: Volume, steps: seq<Step>, k: nat, entry: DriveIndex, epoch: nat, phase: Phase)
    requires At(volume, steps, k, [entry], epoch, None, phase)
    requires k < |steps| && steps[k] == PollRead('C')
    ensures At(volume, steps, k + 1, [entry], epoch, Some(Poll('C', entry.cursor, epoch)), phase)
  {
    Next(volume, steps, k);
  }

  /** The drive after a batch. */
  function Applied(entry: DriveIndex, events: seq<UsnEvent>, to: UsnCursor): DriveIndex {
    entry.(view := ApplyEvents(entry.view, events), cursor := to,
           revision := entry.revision + if events == [] then 0 else 1)
  }

  lemma BatchMovesState(s: State, entry: DriveIndex, epoch: nat, p: Poll, phase: Phase, events: seq<UsnEvent>, to: UsnCursor)
    requires StateIs(s, [entry], epoch, Some(p), phase) && p.drive == entry.letter == 'C'
    ensures StateIs(DoApply(s, p, events, to), [Applied(entry, events, to)], epoch, None, phase)
  {
    assert [entry][0 := Applied(entry, events, to)] == [Applied(entry, events, to)];
  }

  lemma ApplyNext(volume: Volume, steps: seq<Step>, k: nat, entry: DriveIndex, epoch: nat, from: UsnCursor, phase: Phase,
                  events: seq<UsnEvent>, to: UsnCursor)
    requires At(volume, steps, k, [entry], epoch, Some(Poll('C', from, epoch)), phase)
    requires k < |steps| && steps[k] == PollApply(events, to)
    requires events != [] && PollSound(volume, 'C', from, events, to)
    requires LogicalLen(entry.view) + |events| <= PARENT_NONE
    ensures At(volume, steps, k + 1, [Applied(entry, events, to)], epoch, None, phase)
  {
    BatchMovesState(StateAt(steps, k), entry, epoch, Poll('C', from, epoch), phase, events, to);
    Next(volume, steps, k);
  }

  lemma GateNext(volume: Volume, steps: seq<Step>, k: nat, entry: DriveIndex, epoch: nat, poll: Option<Poll>)
    requires At(volume, steps, k, [entry], epoch, poll, Idle)
    requires k < |steps| && steps[k] == TryGate(0)
    ensures At(volume, steps, k + 1, [entry], epoch, poll, Gated)
  {
    Next(volume, steps, k);
  }

  lemma CaptureNext(volume: Volume, steps: seq<Step>, k: nat, entry: DriveIndex, epoch: nat, poll: Option<Poll>)
    returns (job: Job)
    requires At(volume, steps, k, [entry], epoch, poll, Gated) && ShouldCompact(entry.view)
    requires k < |steps| && steps[k] == CaptureJob(0)
    ensures At(volume, steps, k + 1, [entry], epoch, poll, Captured(job))
    ensures JobOn(job, entry, epoch)
  {
    Next(volume, steps, k);
    job := PhaseOf(StateAt(steps, k + 1), 0).job;
  }

  /** A job that was captured from this drive in this installation. */
  predicate JobOn(job: Job, entry: DriveIndex, epoch: nat) {
    && job.candidate == CompactCandidate('C', entry.revision, Snapshot(entry.view), entry.cursor)
    && job.source == entry.view && job.epoch == epoch
  }

  lemma RebuildNext(volume: Volume, steps: seq<Step>, k: nat, entry: DriveIndex, epoch: nat, poll: Option<Poll>, job: Job)
    requires At(volume, steps, k, [entry], epoch, poll, Captured(job)) && job.candidate.records == Snapshot(job.source)
    requires k < |steps| && steps[k] == RebuildJob(0)
    ensures At(volume, steps, k + 1, [entry], epoch, poll, Rebuilt(job, Compact(job.source)))
  {
    Next(volume, steps, k);
    RebuildIs(StateAt(steps, k), 0, job);
  }

  /** A legal run has kept every drive sound until now. */
  lemma AtEnd(volume: Volume, steps: seq<Step>, drives: seq<DriveIndex>, epoch: nat, poll: Option<Poll>, phase: Phase)
    requires At(volume, steps, |steps|, drives, epoch, poll, phase)
    ensures Run(volume, INITIAL, steps) && StaysInInstallation(INITIAL, steps) && Safe(volume, DoAll(INITIAL, steps))
    ensures StateIs(DoAll(INITIAL, steps), drives, epoch, poll, phase)
  {
    assert steps[..|steps|] == steps;
    EveryRunIsSafe(volume, steps);
  }

  lemma RunExtends(volume: Volume, steps: seq<Step>, step: Step)
    requires Run(volume, INITIAL, steps) && Enabled(volume, DoAll(INITIAL, steps), step)
    ensures Run(volume, INITIAL, steps + [step])
    ensures DoAll(INITIAL, steps + [step]) == Do(DoAll(INITIAL, steps), step)
  {
    assert (steps + [step])[..|steps|] == steps;
  }

  // ----- A poll that meets a rebuild -----

  /** A poll reads its cursor, and before it comes back the drive is removed, rescanned and installed again. */
  function Rebuild(view: View, from: UsnCursor, newView: View, now: UsnCursor): seq<Step> {
    [InstallDrive('C', view, from), PollRead('C'), RemoveDrive('C'), InstallDrive('C', newView, now)]
  }

  lemma RebuildMeetsPoll(volume: Volume, steps: seq<Step>, view: View, from: UsnCursor, newView: View, now: UsnCursor)
    requires |steps| >= 4 && steps[0] == InstallDrive('C', view, from) && steps[1] == PollRead('C')
    requires steps[2] == RemoveDrive('C') && steps[3] == InstallDrive('C', newView, now)
    requires Mirrors(volume, 'C', view, from) && Mirrors(volume, 'C', newView, now)
    ensures At(volume, steps, 4, [DriveIndex('C', newView, now, 0)], 3, Some(Poll('C', from, 1)), Idle)
  {
    var before := DriveIndex('C', view, from, 0);
    AtStart(volume, steps);
    InstallNext(volume, steps, 0, [], 0, None, Idle, view, from);
    ReadNext(volume, steps, 1, before, 1, Idle);
    RemoveNext(volume, steps, 2, [before], 1, Some(Poll('C', from, 1)), Idle);
    InstallNext(volume, steps, 3, [], 2, Some(Poll('C', from, 1)), Idle, newView, now);
  }

  /** What the poll brings: a truthful batch with one event for each number. */
  ghost predicate Polled(volume: Volume, from: UsnCursor, events: seq<UsnEvent>, to: UsnCursor, newView: View) {
    && PollSound(volume, 'C', from, events, to) && OneEach(events)
    && (events != [] || to.lastUsn != from.lastUsn) && LogicalLen(newView) + |events| <= PARENT_NONE
  }

  /**
   The rebuilt drive takes the batch rightly if and only if the batch creates
   nothing that the rescan saw and leads from what it saw to the volume at the
   poll's cursor.
   */
  lemma RebuildDuringPollIff(volume: Volume, view: View, from: UsnCursor, newView: View, now: UsnCursor,
                             events: seq<UsnEvent>, to: UsnCursor)
    requires Mirrors(volume, 'C', view, from) && Mirrors(volume, 'C', newView, now)
    requires Polled(volume, from, events, to, newView)
    ensures var steps := Rebuild(view, from, newView, now) + [PollApply(events, to)];
            && Run(volume, INITIAL, steps)
            && (DriveOk(volume, DoAll(INITIAL, steps), 'C') <==>
                FreshBatch(volume('C', now), events) && TreeApplyAll(volume('C', now), events) == volume('C', to))
  {
    var steps := Rebuild(view, from, newView, now);
    RebuildMeetsPoll(volume, steps, view, from, newView, now);
    PollArrives(volume, steps, DriveIndex('C', newView, now, 0), from, events, to);
  }

  lemma PollArrives(volume: Volume, steps: seq<Step>, entry: DriveIndex, from: UsnCursor, events: seq<UsnEvent>, to: UsnCursor)
    requires At(volume, steps, |steps|, [entry], 3, Some(Poll('C', from, 1)), Idle)
    requires Polled(volume, from, events, to, entry.view) && Abs(entry.view) == volume('C', entry.cursor)
    ensures Run(volume, INITIAL, steps + [PollApply(events, to)])
    ensures DriveOk(volume, DoAll(INITIAL, steps + [PollApply(events, to)]), 'C') <==>
            FreshBatch(volume('C', entry.cursor), events) && TreeApplyAll(volume('C', entry.cursor), events) == volume('C', to)
  {
    AtEnd(volume, steps, [entry], 3, Some(Poll('C', from, 1)), Idle);
    RunExtends(volume, steps, PollApply(events, to));
    ArrivesAt(volume, DoAll(INITIAL, steps), entry, from, events, to);
  }

  lemma ArrivesAt(volume: Volume, s: State, entry: DriveIndex, from: UsnCursor, events: seq<UsnEvent>, to: UsnCursor)
    requires Safe(volume, s) && StateIs(s, [entry], 3, Some(Poll('C', from, 1)), Idle) && entry.letter == 'C'
    requires Polled(volume, from, events, to, entry.view) && Abs(entry.view) == volume('C', entry.cursor)
    ensures DriveOk(volume, Do(s, PollApply(events, to)), 'C') <==>
            FreshBatch(volume('C', entry.cursor), events) && TreeApplyAll(volume('C', entry.cursor), events) == volume('C', to)
  {
    assert EntryFor(s.manager, 'C') == Some(entry);
    StaleBatchIsSafeIff(volume, s, events, to);
    OtherPartsAfterApply(volume, s, events, to);
  }

  /** A poll that saw the journal move on, but nothing in it that an index tracks, breaks a rebuild that saw more. */
  lemma QuietPollBreaksRebuild(volume: Volume, view: View, from: UsnCursor, newView: View, now: UsnCursor, polled: UsnCursor)
    requires Mirrors(volume, 'C', view, from) && Mirrors(volume, 'C', newView, now)
    requires polled.lastUsn != from.lastUsn && volume('C', polled) == volume('C', from) != volume('C', now)
    ensures var steps := Rebuild(view, from, newView, now) + [PollApply([], polled)];
            Run(volume, INITIAL, steps) && !DriveOk(volume, DoAll(INITIAL, steps), 'C')
  {
    assert WellFormedAll(volume('C', from), []);
    RebuildDuringPollIff(volume, view, from, newView, now, [], polled);
  }

  /** So does a poll that brings the create of a record which the rebuild has seen already. */
  lemma LoudPollBreaksRebuild(volume: Volume, view: View, from: UsnCursor, newView: View, now: UsnCursor,
                              e: UsnEvent, polled: UsnCursor)
    requires Mirrors(volume, 'C', view, from) && Mirrors(volume, 'C', newView, now) && LogicalLen(newView) < PARENT_NONE
    requires PollSound(volume, 'C', from, [e], polled)
    requires e.kind == Create && HasName(e) && NumberOf(e) in volume('C', now)
    ensures var steps := Rebuild(view, from, newView, now) + [PollApply([e], polled)];
            Run(volume, INITIAL, steps) && !DriveOk(volume, DoAll(INITIAL, steps), 'C')
  {
    assert !Acceptable(volume('C', now), [e][0]);
    RebuildDuringPollIff(volume, view, from, newView, now, [e], polled);
  }

  const OLDER := UsnCursor(1, 0)
  const POLLED := UsnCursor(1, 1)
  const NEWER := UsnCursor(1, 2)

  /** A volume that is empty but for its root directory from cursor NEWER on. */
  ghost function RootAppears(): Volume {
    (drive: char, cursor: UsnCursor) => if cursor == NEWER then Abs(BuiltView([ROOT])) else Abs(BuiltView([]))
  }

  /** A poll that saw the journal move on, but nothing in it that an index tracks, leaves the drive off its cursor. */
  lemma RebuildDuringQuietPoll()
    ensures var steps := Rebuild(BuiltView([]), OLDER, BuiltView([ROOT]), NEWER) + [PollApply([], POLLED)];
            Run(RootAppears(), INITIAL, steps) && !DriveOk(RootAppears(), DoAll(INITIAL, steps), 'C')
  {
    EmptyTree();
    RootTree();
    assert ROOT_FRS in Abs(BuiltView([ROOT]));
    QuietPollBreaksRebuild(RootAppears(), BuiltView([]), OLDER, BuiltView([ROOT]), NEWER, POLLED);
  }

  /** The volume gains file 6 after cursor OLDER. */
  ghost function FileAppears(t: Tree): Volume {
    (drive: char, cursor: UsnCursor) => if cursor == OLDER then t else TreeCreate(t, FileUnderRoot(6))
  }

  /** A poll that brings a create which the rescan has seen already leaves two records of one number. */
  lemma RebuildDuringLoudPoll()
    ensures var volume := FileAppears(Abs(BuiltView([ROOT])));
            var steps := Rebuild(BuiltView([ROOT]), OLDER, BuiltView([ROOT, FileRow("a")]), NEWER) + [PollApply([FileUnderRoot(6)], POLLED)];
            Run(volume, INITIAL, steps) && !DriveOk(volume, DoAll(INITIAL, steps), 'C')
  {
    var t := Abs(BuiltView([ROOT]));
    RootTree();
    FileTree("a");
    assert Abs(BuiltView([ROOT, FileRow("a")])) == TreeCreate(t, FileUnderRoot(6));
    OneCreateIsSound(t, 6);
    LoudPollBreaksRebuild(FileAppears(t), BuiltView([ROOT]), OLDER, BuiltView([ROOT, FileRow("a")]), NEWER, FileUnderRoot(6), POLLED);
  }

  // ----- A compaction that meets a rebuild -----

  /**
   A drive is installed at `start` and grows by one event; a compaction captures
   it at revision 1. While the compaction works, the drive is removed and installed
   again at `again` and grows by another event, which brings revision 1 back. A poll
   then reads cursor `regrew` and will find no event up to `later`.
   */
  datatype Story = Story(view: View, start: UsnCursor, first: UsnEvent, grew: UsnCursor,
                         again: UsnCursor, second: UsnEvent, regrew: UsnCursor, later: UsnCursor)
  {
    function FirstDrive(): DriveIndex { Applied(DriveIndex('C', view, start, 0), [first], grew) }

    function SecondDrive(): DriveIndex { Applied(DriveIndex('C', view, again, 0), [second], regrew) }

    function ToCommit(): seq<Step> {
      [InstallDrive('C', view, start), PollRead('C'), PollApply([first], grew), TryGate(0), CaptureJob(0), RebuildJob(0),
       RemoveDrive('C'), InstallDrive('C', view, again), PollRead('C'), PollApply([second], regrew), PollRead('C')]
    }

    /** The volume agrees with every install and every poll. */
    ghost predicate Truthful(volume: Volume) {
      && Mirrors(volume, 'C', view, start) && PollSound(volume, 'C', start, [first], grew)
      && Mirrors(volume, 'C', view, again) && PollSound(volume, 'C', again, [second], regrew)
      && PollSound(volume, 'C', regrew, [], later) && later.lastUsn != regrew.lastUsn
    }

    ghost predicate Happens(volume: Volume) {
      Truthful(volume) && LogicalLen(view) < PARENT_NONE && ShouldCompact(ApplyEvents(view, [first]))
    }
  }

  /** An install, one batch of one event, and a compaction up to its rebuilt index. */
  lemma UpToRebuild(volume: Volume, steps: seq<Step>, view: View, start: UsnCursor, e: UsnEvent, to: UsnCursor)
    returns (job: Job)
    requires |steps| >= 6 && steps[0] == InstallDrive('C', view, start) && steps[1] == PollRead('C')
    requires steps[2] == PollApply([e], to) && steps[3] == TryGate(0) && steps[4] == CaptureJob(0)
    requires steps[5] == RebuildJob(0)
    requires Mirrors(volume, 'C', view, start) && PollSound(volume, 'C', start, [e], to)
    requires LogicalLen(view) < PARENT_NONE && ShouldCompact(ApplyEvents(view, [e]))
    ensures var entry := Applied(DriveIndex('C', view, start, 0), [e], to);
            JobOn(job, entry, 1) && At(volume, steps, 6, [entry], 1, None, Rebuilt(job, Compact(job.source)))
  {
    var installed := DriveIndex('C', view, start, 0);
    var entry := Applied(installed, [e], to);
    AtStart(volume, steps);
    InstallNext(volume, steps, 0, [], 0, None, Idle, view, start);
    ReadNext(volume, steps, 1, installed, 1, Idle);
    ApplyNext(volume, steps, 2, installed, 1, start, Idle, [e], to);
    GateNext(volume, steps, 3, entry, 1, None);
    job := CaptureNext(volume, steps, 4, entry, 1, None);
    RebuildNext(volume, steps, 5, entry, 1, None, job);
  }

  /** A removal, a second install, and a poll that has read its cursor. */
  lemma UpToReinstall(volume: Volume, steps: seq<Step>, before: DriveIndex, phase: Phase, view: View, start: UsnCursor)
    requires At(volume, steps, 6, [before], 1, None, phase) && Mirrors(volume, 'C', view, start)
    requires |steps| >= 9 && steps[6] == RemoveDrive('C') && steps[7] == InstallDrive('C', view, start)
    requires steps[8] == PollRead('C')
    ensures At(volume, steps, 9, [DriveIndex('C', view, start, 0)], 3, Some(Poll('C', start, 3)), phase)
  {
    RemoveNext(volume, steps, 6, [before], 1, None, phase);
    InstallNext(volume, steps, 7, [], 2, None, phase, view, start);
    ReadNext(volume, steps, 8, DriveIndex('C', view, start, 0), 3, phase);
  }

  /** Its batch of one event, and the next poll. */
  lemma UpToPoll(volume: Volume, steps: seq<Step>, installed: DriveIndex, phase: Phase, e: UsnEvent, to: UsnCursor)
    requires At(volume, steps, 9, [installed], 3, Some(Poll('C', installed.cursor, 3)), phase)
    requires |steps| >= 11 && steps[9] == PollApply([e], to) && steps[10] == PollRead('C')
    requires PollSound(volume, 'C', installed.cursor, [e], to) && LogicalLen(installed.view) < PARENT_NONE
    ensures At(volume, steps, 11, [Applied(installed, [e], to)], 3, Some(Poll('C', to, 3)), phase)
  {
    ApplyNext(volume, steps, 9, installed, 3, installed.cursor, phase, [e], to);
    ReadNext(volume, steps, 10, Applied(installed, [e], to), 3, phase);
  }

  predicate Tells(r: Story, steps: seq<Step>) {
    && |steps| == 11 && steps[0] == InstallDrive('C', r.view, r.start) && steps[1] == PollRead('C')
    && steps[2] == PollApply([r.first], r.grew) && steps[3] == TryGate(0) && steps[4] == CaptureJob(0)
    && steps[5] == RebuildJob(0) && steps[6] == RemoveDrive('C') && steps[7] == InstallDrive('C', r.view, r.again)
    && steps[8] == PollRead('C') && steps[9] == PollApply([r.second], r.regrew) && steps[10] == PollRead('C')
  }

  lemma UpToCommit(volume: Volume, r: Story, steps: seq<Step>) returns (job: Job)
    requires r.Happens(volume) && Tells(r, steps)
    ensures JobOn(job, r.FirstDrive(), 1)
    ensures At(volume, steps, 11, [r.SecondDrive()], 3, Some(Poll('C', r.regrew, 3)), Rebuilt(job, Compact(job.source)))
  {
    job := UpToRebuild(volume, steps, r.view, r.start, r.first, r.grew);
    UpToReinstall(volume, steps, r.FirstDrive(), Rebuilt(job, Compact(job.source)), r.view, r.again);
    UpToPoll(volume, steps, DriveIndex('C', r.view, r.again, 0), Rebuilt(job, Compact(job.source)), r.second, r.regrew);
  }

  /** A job of the first installation that the revision check of the second one lets through, and a pending poll. */
  ghost predicate RevisionPasses(s: State, r: Story) {
    && PhaseOf(s, 0).Rebuilt? && StaleCommit(s, PhaseOf(s, 0).job)
    && PhaseOf(s, 0).job.candidate.cursor == r.grew && PhaseOf(s, 0).job.candidate.drive == 'C'
    && s.poll == Some(Poll('C', r.regrew, 3)) && EpochOf(s, 'C') == 3
  }

  lemma JobIsStale(s: State, r: Story, job: Job, view: View)
    requires JobOn(job, r.FirstDrive(), 1)
    requires StateIs(s, [r.SecondDrive()], 3, Some(Poll('C', r.regrew, 3)), Rebuilt(job, view))
    ensures RevisionPasses(s, r)
  {
    assert EntryFor(s.manager, 'C') == Some(r.SecondDrive());
  }

  /** The revision of the second installation comes to equal the one that was captured in the first. */
  lemma RevisionComesBack(volume: Volume, r: Story, steps: seq<Step>)
    requires r.Happens(volume) && Tells(r, steps)
    ensures Run(volume, INITIAL, steps) && StaysInInstallation(INITIAL, steps) && Safe(volume, DoAll(INITIAL, steps))
    ensures RevisionPasses(DoAll(INITIAL, steps), r)
  {
    var job := UpToCommit(volume, r, steps);
    AtEnd(volume, steps, [r.SecondDrive()], 3, Some(Poll('C', r.regrew, 3)), Rebuilt(job, Compact(job.source)));
    JobIsStale(DoAll(INITIAL, steps), r, job, Compact(job.source));
  }

  /** The commit goes through; if the files differ, the pending poll is about to extend another tree than it read. */
  lemma StaleCommitMeetsPoll(volume: Volume, r: Story, steps: seq<Step>)
    requires r.Happens(volume) && Tells(r, steps) && volume('C', r.grew) != volume('C', r.regrew)
    ensures Run(volume, INITIAL, steps + [CommitJob(0)])
    ensures var s := DoAll(INITIAL, steps + [CommitJob(0)]);
            var entry := EntryFor(s.manager, 'C');
            && !Safe(volume, s) && s.poll == Some(Poll('C', r.regrew, 3))
            && entry.Some? && Inv(entry.value.view) && Abs(entry.value.view) == volume('C', r.grew)
  {
    var before := DoAll(INITIAL, steps);
    RevisionComesBack(volume, r, steps);
    RunExtends(volume, steps, CommitJob(0));
    StaleCommitIsSafeIff(volume, before, 0);
    assert PhaseOk(volume, before, 0);
    CommitStepIs(volume, before, 0);
    StaleCommitKeepsDrive(volume, before, 0, PhaseOf(before, 0).job);
  }

  lemma OtherTreeIsNotOk(volume: Volume, s: State, entry: DriveIndex)
    requires EntryFor(s.manager, 'C') == Some(entry) && Abs(entry.view) != volume('C', entry.cursor)
    ensures !DriveOk(volume, s, 'C')
  {}

  lemma QuietApplyMovesCursor(volume: Volume, s: State, to: UsnCursor)
    requires s.poll.Some? && s.poll.value.drive == 'C' && EntryFor(s.manager, 'C').Some?
    requires Abs(EntryFor(s.manager, 'C').value.view) != volume('C', to)
    ensures !DriveOk(volume, Do(s, PollApply([], to)), 'C')
  {
    EntryAfterApply(s.manager, 'C', [], to, 'C');
    OtherTreeIsNotOk(volume, DoApply(s, s.poll.value, [], to), Applied(EntryFor(s.manager, 'C').value, [], to));
  }

  /** When that poll returns, the drive stands at the newest cursor and shows what the old compaction captured. */
  lemma StaleCommitLosesContent(volume: Volume, r: Story, steps: seq<Step>)
    requires r.Happens(volume) && Tells(r, steps) && volume('C', r.grew) != volume('C', r.regrew)
    ensures var all := steps + [CommitJob(0)] + [PollApply([], r.later)];
            Run(volume, INITIAL, all) && !DriveOk(volume, DoAll(INITIAL, all), 'C')
  {
    var committed := steps + [CommitJob(0)];
    var s := DoAll(INITIAL, committed);
    StaleCommitMeetsPoll(volume, r, steps);
    RunExtends(volume, committed, PollApply([], r.later));
    QuietApplyMovesCursor(volume, s, r.later);
  }

  lemma ToldInOrder(r: Story)
    ensures Tells(r, r.ToCommit())
  {}

  lemma StoryBreaksContent(volume: Volume, r: Story)
    requires r.Happens(volume) && volume('C', r.grew) != volume('C', r.regrew)
    ensures var all := r.ToCommit() + [CommitJob(0)] + [PollApply([], r.later)];
            Run(volume, INITIAL, all) && !DriveOk(volume, DoAll(INITIAL, all), 'C')
  {
    ToldInOrder(r);
    StaleCommitLosesContent(volume, r, r.ToCommit());
  }

  // ----- Such a story -----

  const START := UsnCursor(2, 0)
  const GREW := UsnCursor(2, 1)
  const RESCANNED := UsnCursor(2, 2)
  const REGREW := UsnCursor(2, 3)
  const LATER := UsnCursor(2, 4)

  /** File 6 is gone when the drive is rescanned, and file 7 comes after it. */
  function FilesComeAndGo(): Story {
    Story(BuiltView([ROOT]), START, FileUnderRoot(6), GREW, RESCANNED, FileUnderRoot(7), REGREW, LATER)
  }

  ghost function VolumeOfFiles(t: Tree): Volume {
    (drive: char, cursor: UsnCursor) =>
      if cursor == GREW then TreeCreate(t, FileUnderRoot(6))
      else if cursor == REGREW || cursor == LATER then TreeCreate(t, FileUnderRoot(7))
      else t
  }

  lemma OneCreateIsSound(t: Tree, number: nat)
    requires t.Keys == {ROOT_FRS} && t[ROOT_FRS].parent == None && number != ROOT_FRS
    ensures var e := FileUnderRoot(number);
            && WellFormedAll(t, [e]) && TreeApplyAll(t, [e]) == TreeCreate(t, e) && Settled(TreeCreate(t, e))
            && WellFormedAll(TreeCreate(t, e), []) && TreeCreate(t, e).Keys == {ROOT_FRS, number}
  {
    assert [FileUnderRoot(number)][..0] == [];
    assert WellFormedAll(t, []);
    assert ROOT_FRS in t.Keys && number !in t.Keys;
  }

  /** One new record over one base record is enough to compact. */
  lemma OneCreateCompacts(number: nat)
    ensures ShouldCompact(ApplyEvents(BuiltView([ROOT]), [FileUnderRoot(number)])) && LogicalLen(BuiltView([ROOT])) == 1
  {
    assert [FileUnderRoot(number)][..0] == [];
    assert ApplyEvents(BuiltView([ROOT]), []) == BuiltView([ROOT]);
  }

  lemma FilesComeAndGoTruthful(t: Tree)
    requires t.Keys == {ROOT_FRS} && t[ROOT_FRS].parent == None
    requires Inv(BuiltView([ROOT])) && Abs(BuiltView([ROOT])) == t
    ensures FilesComeAndGo().Truthful(VolumeOfFiles(t))
    ensures VolumeOfFiles(t)('C', GREW) != VolumeOfFiles(t)('C', REGREW)
  {
    OneCreateIsSound(t, 6);
    OneCreateIsSound(t, 7);
    assert 6 in VolumeOfFiles(t)('C', GREW).Keys && 6 !in VolumeOfFiles(t)('C', REGREW).Keys;
  }

  /** A legal run in which the revision check passes and the drive ends with content and cursor apart. */
  lemma RebuildDuringCompaction()
    ensures var volume := VolumeOfFiles(Abs(BuiltView([ROOT])));
            var steps := FilesComeAndGo().ToCommit() + [CommitJob(0)] + [PollApply([], LATER)];
            Run(volume, INITIAL, steps) && !DriveOk(volume, DoAll(INITIAL, steps), 'C')
  {
    RootTree();
    FilesComeAndGoTruthful(Abs(BuiltView([ROOT])));
    OneCreateCompacts(6);
    StoryBreaksContent(VolumeOfFiles(Abs(BuiltView([ROOT]))), FilesComeAndGo());
  }
}
