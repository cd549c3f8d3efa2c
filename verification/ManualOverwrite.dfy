/**
 The receiver's disk, whatever the peer sends: an existing target is replaced whole or not at all,
 and a transfer that does not complete leaves the disk as it found it.
 */
module ManualOverwrite {
  import opened Common
  import opened ManualRecord
  import opened ManualNetwork
  import opened ManualInvariant

  /**
   One receiver, its disk, the digests the peer has claimed so far, what a removal that failed or a file
   that was lost left at the target, and whether a staging directory stayed behind.
   */
  datatype Local = Local(record: Record, disk: Disk, digests: set<Digest>, leftover: Option<Bytes>, litter: bool)

  datatype LocalEvent =
    | Arrives(automatic: bool, now: nat, preparation: Preparation)
    | Hears(message: Message, now: nat, io: SinkIo)
    | Accepts(now: nat, preparation: Preparation)
    | Overwrites(now: nat, stagingMade: bool, preparation: Preparation, removes: bool)
    | Declines(now: nat)
    | Cancels(now: nat, removes: bool)
    | Ticks(now: nat, removes: bool)
    | LosesPeer(now: nat, removes: bool)

  /** Whether what the step removes does go. */
  predicate Removes(e: LocalEvent) {
    match e
    case Hears(_, _, io) => io.removes
    case Overwrites(_, _, _, removes) => removes
    case Cancels(_, removes) => removes
    case Ticks(_, removes) => removes
    case LosesPeer(_, removes) => removes
    case _ => true
  }

  function Act(r: Record, hash: Bytes -> Digest, e: LocalEvent): Step {
    match e
    case Arrives(automatic, now, preparation) => FirstOffer(r, automatic, now, preparation)
    case Hears(m, now, io) => Handle(r, m, now, [], hash, NoSource(), io)
    case Accepts(now, preparation) => Accept(r, now, preparation)
    case Overwrites(now, stagingMade, preparation, _) => Overwrite(r, now, stagingMade, preparation)
    case Declines(now) => DeclinedByUser(r, now)
    case Cancels(now, _) => CancelledByUser(r, now)
    case Ticks(now, _) => TickRecord(r, now)
    case LosesPeer(now, _) => Reroute(r, None, now)
  }

  /** A file is created only where none is; an arriving offer is a fresh record. */
  predicate Possible(l: Local, e: LocalEvent) {
    match e
    case Arrives(_, _, preparation) => preparation == Ready || preparation == Lost ==> l.disk.target.None?
    case Accepts(_, preparation) => preparation == Ready || preparation == Lost ==> l.disk.target.None?
    case _ => true
  }

  function Claimed(digests: set<Digest>, e: LocalEvent): set<Digest> {
    if e.Hears? && e.message.Complete? then digests + {e.message.sha256} else digests
  }

  /** The step cannot remove its file from the target. */
  predicate KeepsFile(l: Local, hash: Bytes -> Digest, e: LocalEvent) {
    !Removes(e) && RemoveFile(Target) in Act(l.record, hash, e).actions
  }

  /** The step leaves a file at the target that no transfer owns. */
  predicate LeavesFile(l: Local, hash: Bytes -> Digest, e: LocalEvent) {
    KeepsFile(l, hash, e) || LoseFile(Target) in Act(l.record, hash, e).actions
  }

  predicate LeavesStaging(l: Local, hash: Bytes -> Digest, e: LocalEvent) {
    !Removes(e) && DropStaging in Act(l.record, hash, e).actions
  }

  function Next(l: Local, hash: Bytes -> Digest, e: LocalEvent): Local {
    var step := Act(l.record, hash, e);
    var done := PerformAll(l.disk, step.actions);
    var disk := if KeepsFile(l, hash, e) then done.(target := Unremoved(l.disk, step.actions)) else done;
    Local(step.record, disk, Claimed(l.digests, e),
          if LeavesFile(l, hash, e) then disk.target else l.leftover,
          l.litter || LeavesStaging(l, hash, e))
  }

  ghost predicate IsLocalRun(first: Local, hash: Bytes -> Digest, events: seq<LocalEvent>, locals: seq<Local>) {
    && |locals| == |events| + 1
    && locals[0] == first
    && forall i :: 0 <= i < |events| ==> LocalStepsAt(hash, events, locals, i)
  }

  ghost predicate LocalStepsAt(hash: Bytes -> Digest, events: seq<LocalEvent>, locals: seq<Local>, i: nat)
    requires i < |events| < |locals|
  {
    Possible(locals[i], events[i]) && locals[i + 1] == Next(locals[i], hash, events[i])
  }

  /** The whole file, with a digest the peer vouched for. */
  ghost predicate Verified(content: Option<Bytes>, size: nat, hash: Bytes -> Digest, digests: set<Digest>) {
    content.Some? && |content.value| == size && hash(content.value) in digests
  }

  ghost predicate Tidy(before: Option<Bytes>, hash: Bytes -> Digest, digests: set<Digest>, r: Record, disk: Disk) {
    && r.direction == Receiving
    && (r.earlyDigest.Some? ==> r.earlyDigest.value in digests)
    && (!IsTerminal(r.phase) ==> r.finalResult.None?)
    && (r.phase == AwaitingAcceptance ==> r.transferred == 0)
    && match r.phase
       case Transferring =>
         && r.incoming.Some?
         && var incoming := r.incoming.value;
         && !incoming.finished && incoming.expected == r.size && incoming.offset == |incoming.hashed| == r.transferred
         && incoming.place == (if r.replacement then Staged else Target)
         && if r.replacement then disk == Disk(before, Some(incoming.hashed))
            else before.None? && disk == Disk(Some(incoming.hashed), None)
       case Completed => disk.staged.None? && Verified(disk.target, r.size, hash, digests)
       case _ => r.incoming.None? && !r.replacement && disk == Disk(before, None)
  }

  /** What a target that existed before may hold at any instant. */
  ghost predicate Intact(before: Option<Bytes>, hash: Bytes -> Digest, digests: set<Digest>, size: nat, disk: Disk) {
    disk.target == before || Verified(disk.target, size, hash, digests)
  }

  ghost predicate IntactThroughout(before: Option<Bytes>, hash: Bytes -> Digest, digests: set<Digest>, size: nat,
                                   disk: Disk, actions: seq<Action>) {
    before.Some? ==> forall k :: 0 <= k <= |actions| ==> Intact(before, hash, digests, size, PerformAll(disk, actions[..k]))
  }

  /** After the step the record and disk agree, and at no instant within it was an existing target torn. */
  ghost predicate Safe(before: Option<Bytes>, hash: Bytes -> Digest, digests: set<Digest>, disk: Disk, step: Step) {
    && Tidy(before, hash, digests, step.record, PerformAll(disk, step.actions))
    && IntactThroughout(before, hash, digests, step.record.size, disk, step.actions)
  }

  predicate TouchesTarget(a: Action) {
    match a
    case CreateFile(place) => place == Target
    case LoseFile(place) => place == Target
    case Append(place, _) => place == Target
    case RemoveFile(place) => place == Target
    case RenameStaged => true
    case _ => false
  }

  predicate LeavesTarget(actions: seq<Action>) {
    forall a :: a in actions ==> !TouchesTarget(a)
  }

  lemma {:induction false} TargetStays(disk: Disk, actions: seq<Action>, k: nat)
    requires LeavesTarget(actions) && k <= |actions|
    ensures PerformAll(disk, actions[..k]).target == disk.target
    decreases k
  {
    if k > 0 {
      assert actions[..k][0] == actions[0] && actions[..k][1..] == actions[1..][..k - 1];
      assert !TouchesTarget(actions[0]);
      TargetStays(Perform(disk, actions[0]), actions[1..], k - 1);
    }
  }

  lemma StepLeavesTarget(before: Option<Bytes>, hash: Bytes -> Digest, digests: set<Digest>, disk: Disk, step: Step)
    requires Tidy(before, hash, digests, step.record, PerformAll(disk, step.actions))
    requires before.Some? ==> LeavesTarget(step.actions) && Intact(before, hash, digests, step.record.size, disk)
    ensures Safe(before, hash, digests, disk, step)
  {
    if before.Some? {
      forall k | 0 <= k <= |step.actions|
        ensures Intact(before, hash, digests, step.record.size, PerformAll(disk, step.actions[..k]))
      {
        TargetStays(disk, step.actions, k);
      }
    }
  }

  /** Swapping the staged copy in is the only instant at which the target changes. */
  lemma SwapIsAtomic(disk: Disk, first: seq<Action>, rest: seq<Action>, k: nat)
    requires LeavesTarget(first) && LeavesTarget(rest)
    requires k <= |first + [RenameStaged] + rest|
    ensures
      var target := PerformAll(disk, (first + [RenameStaged] + rest)[..k]).target;
      target == disk.target || target == PerformAll(disk, first).staged
  {
    var all := first + [RenameStaged] + rest;
    if k <= |first| {
      assert all[..k] == first[..k];
      TargetStays(disk, first, k);
    } else {
      var done := PerformAll(disk, first);
      assert all[..k] == first + ([RenameStaged] + rest[..k - |first| - 1]);
      PerformInOrder(disk, first, [RenameStaged] + rest[..k - |first| - 1]);
      PerformInOrder(done, [RenameStaged], rest[..k - |first| - 1]);
      PerformTwo(done, RenameStaged, DropStaging);
      TargetStays(Perform(done, RenameStaged), rest, k - |first| - 1);
    }
  }

  lemma OnlySends(before: Option<Bytes>, hash: Bytes -> Digest, digests: set<Digest>, l: Local, step: Step)
    requires Tidy(before, hash, l.digests, l.record, l.disk) && l.digests <= digests
    requires forall a :: a in step.actions ==> a.Send?
    requires
      var r, n := l.record, step.record;
      && n.direction == r.direction && n.phase == r.phase && n.size == r.size && n.transferred == r.transferred
      && n.incoming == r.incoming && n.replacement == r.replacement && n.finalResult == r.finalResult
      && (n.earlyDigest.Some? ==> n.earlyDigest.value in digests)
    ensures Safe(before, hash, digests, l.disk, step)
  {
    SendsLeaveDisk(l.disk, step.actions);
    StepLeavesTarget(before, hash, digests, l.disk, step);
  }

  lemma DropTidies(before: Option<Bytes>, hash: Bytes -> Digest, l: Local, disk: Disk)
    requires Tidy(before, hash, l.digests, l.record, l.disk) && !IsTerminal(l.record.phase)
    requires l.record.phase == Transferring ==> disk == Put(l.disk, l.record.incoming.value.place, At(disk, l.record.incoming.value.place))
    requires l.record.phase != Transferring ==> disk == l.disk
    ensures PerformAll(disk, DropActions(l.record)) == Disk(before, None)
    ensures before.Some? ==> LeavesTarget(DropActions(l.record))
    ensures forall a :: a in DropActions(l.record) ==> !a.Send?
  {
    var r := l.record;
    if r.phase == Transferring && r.replacement {
      assert DropActions(r) == [RemoveFile(Staged), DropStaging];
      PerformTwo(disk, RemoveFile(Staged), DropStaging);
    } else if r.phase == Transferring {
      assert DropActions(r) == [RemoveFile(Target)];
      PerformTwo(disk, RemoveFile(Target), DropStaging);
    } else {
      assert DropActions(r) == [];
    }
  }

  /** Any settling but completion, with datagrams before or after the drop. */
  lemma Settles(before: Option<Bytes>, hash: Bytes -> Digest, digests: set<Digest>, l: Local, step: Step, first: seq<Action>, last: seq<Action>)
    requires Tidy(before, hash, l.digests, l.record, l.disk) && !IsTerminal(l.record.phase) && l.digests <= digests
    requires step.actions == first + DropActions(l.record) + last
    requires forall a :: a in first + last ==> a.Send?
    requires
      var n := step.record;
      && n.direction == Receiving && (n.phase == Refused || n.phase == Cancelled || n.phase == Failed)
      && n.incoming.None? && !n.replacement && (n.earlyDigest.Some? ==> n.earlyDigest.value in digests)
    ensures Safe(before, hash, digests, l.disk, step)
  {
    var drop := DropActions(l.record);
    DropTidies(before, hash, l, l.disk);
    PerformInOrder(l.disk, first + drop, last);
    PerformInOrder(l.disk, first, drop);
    SendsLeaveDisk(l.disk, first);
    SendsLeaveDisk(Disk(before, None), last);
    StepLeavesTarget(before, hash, digests, l.disk, step);
  }

  lemma FailureSettles(before: Option<Bytes>, hash: Bytes -> Digest, digests: set<Digest>, l: Local, error: Failure, now: nat)
    requires Tidy(before, hash, l.digests, l.record, l.disk) && !IsTerminal(l.record.phase) && l.digests <= digests
    ensures Safe(before, hash, digests, l.disk, Fail(l.record, error, now))
  {
    var step := Fail(l.record, error, now);
    assert step.actions == [] + DropActions(l.record) + [Send(Rejection(TransferFailed))];
    Settles(before, hash, digests, l, step, [], [Send(Rejection(TransferFailed))]);
  }

  lemma PreparationIsSafe(before: Option<Bytes>, hash: Bytes -> Digest, l: Local, place: Place, now: nat,
                          automatic: bool, preparation: Preparation, step: Step)
    requires Tidy(before, hash, l.digests, l.record, l.disk) && preparation != Lost
    requires preparation == Ready && place == Target ==> l.disk.target.None?
    requires
      var prepared := PrepareReceiver(l.record, place, now, automatic, preparation);
      step == (if place == Target then prepared
               else if prepared.record.phase == Transferring && l.record.phase == AwaitingAcceptance
               then prepared.(record := prepared.record.(replacement := true))
               else prepared)
    ensures Safe(before, hash, l.digests, l.disk, step)
  {
    var r := l.record;
    if r.phase != AwaitingAcceptance {
      OnlySends(before, hash, l.digests, l, step);
    } else if now >= r.approvalDeadline {
      FailureSettles(before, hash, l.digests, l, OfferExpired, now);
    } else if preparation == Ready {
      PerformTwo(l.disk, CreateFile(place), Send(Answer(Accepted)));
      StepStarts(before, hash, l, place, step);
    } else if preparation == Unavailable && automatic {
      assert step.actions == [] + DropActions(r) + [Send(Rejection(DestinationUnavailable))];
      Settles(before, hash, l.digests, l, step, [], [Send(Rejection(DestinationUnavailable))]);
    } else {
      OnlySends(before, hash, l.digests, l, step);
    }
  }

  /** Safe, or a file is lost where there was none. */
  ghost predicate SafeOrLost(before: Option<Bytes>, hash: Bytes -> Digest, digests: set<Digest>, disk: Disk, step: Step) {
    if LoseFile(Target) in step.actions then
      && before.None? && RemoveFile(Target) !in step.actions
      && PerformAll(disk, step.actions).target == Some([])
      && Tidy(Some([]), hash, digests, step.record, PerformAll(disk, step.actions))
    else
      Safe(before, hash, digests, disk, step)
  }

  lemma PreparingIsSafe(before: Option<Bytes>, hash: Bytes -> Digest, l: Local, now: nat, automatic: bool, preparation: Preparation)
    requires Tidy(before, hash, l.digests, l.record, l.disk)
    requires preparation == Ready || preparation == Lost ==> l.disk.target.None?
    ensures SafeOrLost(before, hash, l.digests, l.disk, PrepareReceiver(l.record, Target, now, automatic, preparation))
  {
    if preparation == Lost {
      LossIsTidy(before, hash, l, now, automatic);
    } else {
      PreparationIsSafe(before, hash, l, Target, now, automatic, preparation, PrepareReceiver(l.record, Target, now, automatic, preparation));
      PreparedKeepsTrack(l.record, Target, now, automatic, preparation);
    }
  }

  /** A file lost as soon as it was created is left at the target, empty, whatever becomes of the record. */
  lemma LossIsTidy(before: Option<Bytes>, hash: Bytes -> Digest, l: Local, now: nat, automatic: bool)
    requires Tidy(before, hash, l.digests, l.record, l.disk) && l.disk.target.None?
    ensures SafeOrLost(before, hash, l.digests, l.disk, PrepareReceiver(l.record, Target, now, automatic, Lost))
  {
    var r := l.record;
    var step := PrepareReceiver(r, Target, now, automatic, Lost);
    if r.phase != AwaitingAcceptance {
      OnlySends(before, hash, l.digests, l, step);
    } else if now >= r.approvalDeadline {
      FailureSettles(before, hash, l.digests, l, OfferExpired, now);
      assert DropActions(r) == [];
    } else {
      assert step.actions == if automatic then [LoseFile(Target), Send(Rejection(DestinationUnavailable))] else [LoseFile(Target)];
      PerformTwo(l.disk, LoseFile(Target), Send(Rejection(DestinationUnavailable)));
    }
  }

  lemma StepStarts(before: Option<Bytes>, hash: Bytes -> Digest, l: Local, place: Place, step: Step)
    requires Tidy(before, hash, l.digests, l.record, l.disk) && l.record.phase == AwaitingAcceptance
    requires place == Target ==> l.disk.target.None?
    requires step.actions == [CreateFile(place), Send(Answer(Accepted))]
    requires PerformAll(l.disk, step.actions) == Put(l.disk, place, Some([]))
    requires
      var r := l.record;
      step.record == r.(incoming := Some(Incoming(place, r.size, 0, [], false)), phase := Transferring, error := None,
                        replacement := place == Staged, lastActivity := step.record.lastActivity,
                        retries := 0, retryEvent := step.record.retryEvent)
    ensures Safe(before, hash, l.digests, l.disk, step)
  {
    StepLeavesTarget(before, hash, l.digests, l.disk, step);
  }

  /** `r` is the record of `l` once the appends in `prefix` have put every byte on the disk. */
  ghost predicate WrittenOut(l: Local, r: Record, prefix: seq<Action>) {
    && l.record.incoming.Some? && r.incoming.Some?
    && var incoming := r.incoming.value;
    && r.direction == Receiving && r.phase == Transferring && r.replacement == l.record.replacement && r.finalResult.None?
    && !incoming.finished && incoming.place == l.record.incoming.value.place
    && incoming.expected == r.size && incoming.offset == |incoming.hashed| == r.size
    && (forall a :: a in prefix ==> a.Append? && a.place == incoming.place)
    && PerformAll(l.disk, prefix) == Put(l.disk, incoming.place, Some(incoming.hashed))
  }

  lemma VerifiedFinishIsTidy(before: Option<Bytes>, hash: Bytes -> Digest, digests: set<Digest>, l: Local, r: Record,
                             prefix: seq<Action>, digest: Digest, now: nat, io: SinkIo)
    requires Tidy(before, hash, l.digests, l.record, l.disk) && l.record.phase == Transferring && l.digests <= digests
    requires digest in digests && (r.earlyDigest.Some? ==> r.earlyDigest.value in digests)
    requires WrittenOut(l, r, prefix)
    requires hash(r.incoming.value.hashed) == digest
    ensures
      var step := FinishReceiver(r, digest, now, hash, io);
      Tidy(before, hash, digests, step.record, PerformAll(l.disk, prefix + step.actions))
  {
    var finished := FinishReceiver(r, digest, now, hash, io);
    var written := PerformAll(l.disk, prefix);
    PerformInOrder(l.disk, prefix, finished.actions);
    FinishShape(r, digest, now, hash, io);
    var effects, last := FinishEffects(r.replacement, io), OfferResponse(finished.record);
    FinishDisk(written, r.replacement, io);
    PerformInOrder(written, effects, [Send(last)]);
    SendsLeaveDisk(PerformAll(written, effects), [Send(last)]);
  }

  lemma VerifiedFinishIsSafe(before: Option<Bytes>, hash: Bytes -> Digest, digests: set<Digest>, l: Local, r: Record,
                             prefix: seq<Action>, digest: Digest, now: nat, io: SinkIo)
    requires Tidy(before, hash, l.digests, l.record, l.disk) && l.record.phase == Transferring && l.digests <= digests
    requires digest in digests && (r.earlyDigest.Some? ==> r.earlyDigest.value in digests)
    requires WrittenOut(l, r, prefix)
    requires hash(r.incoming.value.hashed) == digest
    ensures
      var step := FinishReceiver(r, digest, now, hash, io);
      Safe(before, hash, digests, l.disk, step.(actions := prefix + step.actions))
  {
    var finished := FinishReceiver(r, digest, now, hash, io);
    var step := finished.(actions := prefix + finished.actions);
    VerifiedFinishIsTidy(before, hash, digests, l, r, prefix, digest, now, io);
    FinishShape(r, digest, now, hash, io);
    if r.replacement && io.syncs && io.renames {
      var last := OfferResponse(finished.record);
      assert step.actions == prefix + [RenameStaged] + [DropStaging, Send(last)];
      SwapIsSafe(before, hash, digests, step.record.size, l.disk, prefix, [DropStaging, Send(last)]);
    } else {
      StepLeavesTarget(before, hash, digests, l.disk, step);
    }
  }

  /** Finishing either keeps the whole verified content at the target or puts everything back. */
  lemma FinishIsSafe(before: Option<Bytes>, hash: Bytes -> Digest, digests: set<Digest>, l: Local, r: Record,
                     prefix: seq<Action>, digest: Digest, now: nat, io: SinkIo)
    requires Tidy(before, hash, l.digests, l.record, l.disk) && l.record.phase == Transferring && l.digests <= digests
    requires digest in digests && (r.earlyDigest.Some? ==> r.earlyDigest.value in digests)
    requires WrittenOut(l, r, prefix)
    ensures
      var step := FinishReceiver(r, digest, now, hash, io);
      Safe(before, hash, digests, l.disk, step.(actions := prefix + step.actions))
  {
    if hash(r.incoming.value.hashed) == digest {
      VerifiedFinishIsSafe(before, hash, digests, l, r, prefix, digest, now, io);
    } else {
      FailureAfterWriting(before, hash, digests, l, r, prefix, if io.syncs then DigestMismatch else SyncError, now);
    }
  }

  lemma SwapIsSafe(before: Option<Bytes>, hash: Bytes -> Digest, digests: set<Digest>, size: nat, disk: Disk,
                   first: seq<Action>, rest: seq<Action>)
    requires LeavesTarget(first) && LeavesTarget(rest)
    requires disk.target == before && Verified(PerformAll(disk, first).staged, size, hash, digests)
    ensures IntactThroughout(before, hash, digests, size, disk, first + [RenameStaged] + rest)
  {
    forall k | 0 <= k <= |first + [RenameStaged] + rest|
      ensures Intact(before, hash, digests, size, PerformAll(disk, (first + [RenameStaged] + rest)[..k]))
    {
      SwapIsAtomic(disk, first, rest, k);
    }
  }

  lemma FailureAfterWriting(before: Option<Bytes>, hash: Bytes -> Digest, digests: set<Digest>, l: Local, r: Record,
                            prefix: seq<Action>, error: Failure, now: nat)
    requires Tidy(before, hash, l.digests, l.record, l.disk) && l.record.phase == Transferring && l.digests <= digests
    requires r.earlyDigest.Some? ==> r.earlyDigest.value in digests
    requires
      && r.direction == Receiving && r.replacement == l.record.replacement
      && r.incoming.Some? && !r.incoming.value.finished && r.incoming.value.place == l.record.incoming.value.place
    requires forall a :: a in prefix ==> a.Append? && a.place == l.record.incoming.value.place
    requires
      var place := l.record.incoming.value.place;
      PerformAll(l.disk, prefix) == Put(l.disk, place, At(PerformAll(l.disk, prefix), place))
    ensures
      var failed := Fail(r, error, now);
      Safe(before, hash, digests, l.disk, failed.(actions := prefix + failed.actions))
  {
    var failed := Fail(r, error, now);
    var step := failed.(actions := prefix + failed.actions);
    var drop := DropActions(l.record);
    assert DropActions(r) == drop;
    DropTidies(before, hash, l, PerformAll(l.disk, prefix));
    PerformInOrder(l.disk, prefix, failed.actions);
    PerformInOrder(PerformAll(l.disk, prefix), drop, [Send(Rejection(TransferFailed))]);
    SendsLeaveDisk(Disk(before, None), [Send(Rejection(TransferFailed))]);
    StepLeavesTarget(before, hash, digests, l.disk, step);
  }

  lemma ChunkIsSafe(before: Option<Bytes>, hash: Bytes -> Digest, l: Local, offset: nat, data: Bytes, now: nat, io: SinkIo)
    requires Tidy(before, hash, l.digests, l.record, l.disk)
    ensures Safe(before, hash, l.digests, l.disk, WriteChunk(l.record, offset, data, now, hash, io))
  {
    var r, end := l.record, offset + |data|;
    var step := WriteChunk(r, offset, data, now, hash, io);
    if r.phase != Transferring {
      OnlySends(before, hash, l.digests, l, step);
    } else if end > U64_MAX || |data| == 0 || |data| > MAX_CHUNK || end > r.size {
      FailureSettles(before, hash, l.digests, l, InvalidChunk, now);
    } else if offset < r.transferred && end > r.transferred {
      FailureSettles(before, hash, l.digests, l, OverlappingChunk, now);
    } else if offset != r.transferred {
      OnlySends(before, hash, l.digests, l, step);
    } else {
      ExpectedChunkIsSafe(before, hash, l, data, now, io);
    }
  }

  lemma KeptChunkIsSafe(before: Option<Bytes>, hash: Bytes -> Digest, l: Local, data: Bytes, now: nat)
    requires Tidy(before, hash, l.digests, l.record, l.disk) && l.record.phase == Transferring
    requires l.record.transferred + |data| <= l.record.size
    ensures
      var pull := RequestAt(l.record.transferred + |data|);
      Safe(before, hash, l.digests, l.disk,
           Step(Kept(l.record, data, now).(retryEvent := Some(pull)), [Append(l.record.incoming.value.place, data), Send(pull)]))
  {
    var pull := RequestAt(l.record.transferred + |data|);
    var append := Append(l.record.incoming.value.place, data);
    PerformTwo(l.disk, append, Send(pull));
    StepLeavesTarget(before, hash, l.digests, l.disk, Step(Kept(l.record, data, now).(retryEvent := Some(pull)), [append, Send(pull)]));
  }

  lemma LastChunkIsSafe(before: Option<Bytes>, hash: Bytes -> Digest, l: Local, data: Bytes, now: nat, io: SinkIo)
    requires Tidy(before, hash, l.digests, l.record, l.disk) && l.record.phase == Transferring
    requires l.record.transferred + |data| == l.record.size && l.record.earlyDigest.Some?
    ensures
      var finished := FinishReceiver(Kept(l.record, data, now).(earlyDigest := None), l.record.earlyDigest.value, now, hash, io);
      Safe(before, hash, l.digests, l.disk,
           finished.(actions := [Append(l.record.incoming.value.place, data)] + finished.actions))
  {
    var append := Append(l.record.incoming.value.place, data);
    PerformTwo(l.disk, append, DropStaging);
    FinishIsSafe(before, hash, l.digests, l, Kept(l.record, data, now).(earlyDigest := None), [append],
                 l.record.earlyDigest.value, now, io);
  }

  lemma ShortWriteIsSafe(before: Option<Bytes>, hash: Bytes -> Digest, l: Local, written: Bytes, now: nat)
    requires Tidy(before, hash, l.digests, l.record, l.disk) && l.record.phase == Transferring
    ensures
      var failed := Fail(l.record, WriteError, now);
      Safe(before, hash, l.digests, l.disk, failed.(actions := [Append(l.record.incoming.value.place, written)] + failed.actions))
  {
    var partial := Append(l.record.incoming.value.place, written);
    PerformTwo(l.disk, partial, DropStaging);
    FailureAfterWriting(before, hash, l.digests, l, l.record, [partial], WriteError, now);
  }

  lemma ExpectedChunkIsSafe(before: Option<Bytes>, hash: Bytes -> Digest, l: Local, data: Bytes, now: nat, io: SinkIo)
    requires Tidy(before, hash, l.digests, l.record, l.disk) && l.record.phase == Transferring
    requires 0 < |data| <= MAX_CHUNK && l.record.transferred + |data| <= Min(l.record.size, U64_MAX)
    ensures Safe(before, hash, l.digests, l.disk, WriteChunk(l.record, l.record.transferred, data, now, hash, io))
  {
    var r, incoming := l.record, l.record.incoming.value;
    if io.shortWrite.Some? {
      ShortWriteIsSafe(before, hash, l, data[..Min(io.shortWrite.value, |data|)], now);
    } else if r.transferred + |data| == r.size && r.earlyDigest.Some? {
      LastChunkIsSafe(before, hash, l, data, now, io);
    } else {
      var pull := RequestAt(r.transferred + |data|);
      assert WriteChunk(r, r.transferred, data, now, hash, io)
          == Step(Kept(r, data, now).(retryEvent := Some(pull)), [Append(incoming.place, data), Send(pull)]);
      KeptChunkIsSafe(before, hash, l, data, now);
    }
  }

  lemma DigestIsSafe(before: Option<Bytes>, hash: Bytes -> Digest, l: Local, digest: Digest, now: nat, io: SinkIo)
    requires Tidy(before, hash, l.digests, l.record, l.disk)
    ensures Safe(before, hash, l.digests + {digest}, l.disk, CompleteReceiver(l.record, digest, now, hash, io))
  {
    var r := l.record;
    var step := CompleteReceiver(r, digest, now, hash, io);
    var digests := l.digests + {digest};
    if r.phase != Transferring {
      OnlySends(before, hash, digests, l, step);
    } else if r.transferred == r.size {
      assert step.(actions := [] + step.actions) == step;
      FinishIsSafe(before, hash, digests, l, r, [], digest, now, io);
    } else if r.earlyDigest.Some? && r.earlyDigest.value != digest {
      FailureSettles(before, hash, digests, l, ConflictingDigest, now);
    } else {
      OnlySends(before, hash, digests, l, step);
    }
  }

  lemma EndingIsSafe(before: Option<Bytes>, hash: Bytes -> Digest, l: Local, step: Step)
    requires Tidy(before, hash, l.digests, l.record, l.disk)
    requires step == Step(l.record, []) ||
             (!IsTerminal(l.record.phase) && step.actions == DropActions(l.record)
              && (step.record.phase == Cancelled || step.record.phase == Failed)
              && step.record == Terminal(l.record, step.record.phase, step.record.error, step.record.lastActivity).(retryEvent := step.record.retryEvent))
    ensures Safe(before, hash, l.digests, l.disk, step)
  {
    if step == Step(l.record, []) {
      OnlySends(before, hash, l.digests, l, step);
    } else {
      assert step.actions == [] + DropActions(l.record) + [];
      Settles(before, hash, l.digests, l, step, [], []);
    }
  }

  lemma HearingIsSafe(before: Option<Bytes>, hash: Bytes -> Digest, l: Local, m: Message, now: nat, io: SinkIo)
    requires Tidy(before, hash, l.digests, l.record, l.disk)
    ensures Safe(before, hash, Claimed(l.digests, Hears(m, now, io)), l.disk, Handle(l.record, m, now, [], hash, NoSource(), io))
  {
    var r := l.record;
    var step := Handle(r, m, now, [], hash, NoSource(), io);
    match m
    case Chunk(offset, data) => ChunkIsSafe(before, hash, l, offset, data, now, io);
    case Complete(digest) => DigestIsSafe(before, hash, l, digest, now, io);
    case Result(_, _) => EndingIsSafe(before, hash, l, step);
    case Cancel => EndingIsSafe(before, hash, l, step);
    case Offer(_, _) => OnlySends(before, hash, l.digests, l, step);
    case Answer(_) => OnlySends(before, hash, l.digests, l, step);
    case Request(_, _) => OnlySends(before, hash, l.digests, l, step);
  }

  lemma OverwritingIsSafe(before: Option<Bytes>, hash: Bytes -> Digest, l: Local, now: nat, stagingMade: bool, preparation: Preparation)
    requires Tidy(before, hash, l.digests, l.record, l.disk)
    ensures Safe(before, hash, l.digests, l.disk, Overwrite(l.record, now, stagingMade, preparation))
  {
    var r := l.record;
    var step := Overwrite(r, now, stagingMade, preparation);
    if r.phase != AwaitingAcceptance || !stagingMade {
      OnlySends(before, hash, l.digests, l, step);
    } else if preparation == Lost && now < r.approvalDeadline {
      assert step.actions == [LoseFile(Staged), DropStaging];
      PerformTwo(l.disk, LoseFile(Staged), DropStaging);
      StepLeavesTarget(before, hash, l.digests, l.disk, step);
    } else {
      StagingIsSafe(before, hash, l, now, if preparation == Lost then Unavailable else preparation);
    }
  }

  lemma StagingIsSafe(before: Option<Bytes>, hash: Bytes -> Digest, l: Local, now: nat, preparation: Preparation)
    requires Tidy(before, hash, l.digests, l.record, l.disk) && l.record.phase == AwaitingAcceptance && preparation != Lost
    ensures Safe(before, hash, l.digests, l.disk, Overwrite(l.record, now, true, preparation))
  {
    var r := l.record;
    var step := Overwrite(r, now, true, preparation);
    var prepared := PrepareReceiver(r, Staged, now, false, preparation);
    if prepared.record.phase == Transferring {
      PreparationIsSafe(before, hash, l, Staged, now, false, preparation, step);
    } else {
      PreparationIsSafe(before, hash, l, Staged, now, false, preparation, prepared);
      PerformInOrder(l.disk, prepared.actions, [DropStaging]);
      PerformTwo(PerformAll(l.disk, prepared.actions), DropStaging, DropStaging);
      assert DropActions(r) == [];
      StepLeavesTarget(before, hash, l.digests, l.disk, step);
    }
  }

  /** What a step does when whatever it removes does go: it is safe, or loses a file where there was none. */
  lemma ActIsSafe(before: Option<Bytes>, hash: Bytes -> Digest, l: Local, e: LocalEvent)
    requires Tidy(before, hash, l.digests, l.record, l.disk) && Possible(l, e)
    ensures SafeOrLost(before, hash, Claimed(l.digests, e), l.disk, Act(l.record, hash, e))
  {
    var r := l.record;
    var step := Act(r, hash, e);
    match e
    case Arrives(automatic, now, preparation) =>
      if automatic {
        PreparingIsSafe(before, hash, l, now, true, preparation);
      } else {
        OnlySends(before, hash, l.digests, l, step);
      }
    case Accepts(now, preparation) => PreparingIsSafe(before, hash, l, now, false, preparation);
    case Overwrites(now, stagingMade, preparation, _) =>
      OverwritingIsSafe(before, hash, l, now, stagingMade, preparation);
      OverwritingLosesNothing(r, now, stagingMade, preparation);
    case Hears(m, now, io) =>
      HearingIsSafe(before, hash, l, m, now, io);
      HearingHandlesOwn(r, m, now, hash, io);
    case Declines(now) => StoppingIsSafe(before, hash, l, step, [Send(Answer(Declined))]);
    case Cancels(now, _) => StoppingIsSafe(before, hash, l, step, [Send(Cancel)]);
    case Ticks(now, _) => TickIsSafe(before, hash, l, now);
    case LosesPeer(now, _) => StoppingIsSafe(before, hash, l, step, []);
  }

  /** Files are lost only by preparing them at their place. */
  lemma PreparedKeepsTrack(r: Record, place: Place, now: nat, automatic: bool, preparation: Preparation)
    ensures
      LoseFile(Target) in PrepareReceiver(r, place, now, automatic, preparation).actions ==> place == Target && preparation == Lost
  {
  }

  lemma OverwritingLosesNothing(r: Record, now: nat, stagingMade: bool, preparation: Preparation)
    ensures LoseFile(Target) !in Overwrite(r, now, stagingMade, preparation).actions
  {
    PreparedKeepsTrack(r, Staged, now, false, preparation);
  }

  /** No file is lost, and the target is removed only by the record that writes there, which ends with that. */
  predicate HandlesOwnFile(r: Record, step: Step) {
    && LoseFile(Target) !in step.actions
    && (RemoveFile(Target) in step.actions ==>
      && r.incoming.Some? && r.incoming.value.place == Target && RenameStaged !in step.actions
      && (step.record.phase == Refused || step.record.phase == Cancelled || step.record.phase == Failed))
  }

  lemma FailureHandlesOwn(r: Record, error: Failure, now: nat)
    ensures HandlesOwnFile(r, Fail(r, error, now))
  {
  }

  lemma FinishHandlesOwn(r: Record, digest: Digest, now: nat, hash: Bytes -> Digest, io: SinkIo)
    requires r.incoming.Some?
    ensures HandlesOwnFile(r, FinishReceiver(r, digest, now, hash, io))
  {
    FailureHandlesOwn(r, SizeMismatch, now);
    FailureHandlesOwn(r, SyncError, now);
    FailureHandlesOwn(r, DigestMismatch, now);
    var kept := r.(incoming := Some(r.incoming.value.(finished := true)));
    FailureHandlesOwn(kept, RenameError, now);
  }

  lemma AppendingFirst(r: Record, step: Step, place: Place, data: Bytes)
    requires HandlesOwnFile(r, step)
    ensures HandlesOwnFile(r, step.(actions := [Append(place, data)] + step.actions))
  {
  }

  /** The chunk that comes next, written whole. */
  lemma WrittenHandlesOwn(r: Record, data: Bytes, now: nat, hash: Bytes -> Digest, io: SinkIo)
    requires r.incoming.Some?
    ensures
      var kept, place := Kept(r, data, now), r.incoming.value.place;
      && (r.earlyDigest.Some? ==>
        var finished := FinishReceiver(kept.(earlyDigest := None), r.earlyDigest.value, now, hash, io);
        HandlesOwnFile(r, finished.(actions := [Append(place, data)] + finished.actions)))
      && var pull := RequestAt(r.transferred + |data|);
      HandlesOwnFile(r, Step(kept.(retryEvent := Some(pull)), [Append(place, data)] + [Send(pull)]))
  {
    if r.earlyDigest.Some? {
      var kept := Kept(r, data, now).(earlyDigest := None);
      FinishHandlesOwn(kept, r.earlyDigest.value, now, hash, io);
      AppendingFirst(r, FinishReceiver(kept, r.earlyDigest.value, now, hash, io), r.incoming.value.place, data);
    }
  }

  lemma ChunkHandlesOwn(r: Record, offset: nat, data: Bytes, now: nat, hash: Bytes -> Digest, io: SinkIo)
    ensures HandlesOwnFile(r, WriteChunk(r, offset, data, now, hash, io))
  {
    var end := offset + |data|;
    if r.direction != Receiving || r.phase != Transferring || r.incoming.None? {
    } else if end > U64_MAX || |data| == 0 || |data| > MAX_CHUNK || end > r.size {
      FailureHandlesOwn(r, InvalidChunk, now);
    } else if offset != r.transferred {
      FailureHandlesOwn(r, OverlappingChunk, now);
    } else if offset != r.incoming.value.offset || end > r.incoming.value.expected {
      FailureHandlesOwn(r, WriteError, now);
    } else if io.shortWrite.Some? {
      FailureHandlesOwn(r, WriteError, now);
      AppendingFirst(r, Fail(r, WriteError, now), r.incoming.value.place, data[..Min(io.shortWrite.value, |data|)]);
    } else {
      WrittenHandlesOwn(r, data, now, hash, io);
    }
  }

  lemma DigestHandlesOwn(r: Record, digest: Digest, now: nat, hash: Bytes -> Digest, io: SinkIo)
    ensures HandlesOwnFile(r, CompleteReceiver(r, digest, now, hash, io))
  {
    FailureHandlesOwn(r, ConflictingDigest, now);
    if r.incoming.Some? {
      FinishHandlesOwn(r, digest, now, hash, io);
    }
  }

  lemma HearingHandlesOwn(r: Record, m: Message, now: nat, hash: Bytes -> Digest, io: SinkIo)
    requires r.direction == Receiving
    ensures HandlesOwnFile(r, Handle(r, m, now, [], hash, NoSource(), io))
  {
    match m
    case Chunk(offset, data) => ChunkHandlesOwn(r, offset, data, now, hash, io);
    case Complete(digest) => DigestHandlesOwn(r, digest, now, hash, io);
    case _ =>
  }

  lemma StoppingIsSafe(before: Option<Bytes>, hash: Bytes -> Digest, l: Local, step: Step, last: seq<Action>)
    requires Tidy(before, hash, l.digests, l.record, l.disk)
    requires forall a :: a in last ==> a.Send?
    requires step == Step(l.record, []) ||
             (!IsTerminal(l.record.phase) && step.actions == DropActions(l.record) + last
              && exists phase, error, now ::
                   (phase == Refused || phase == Cancelled || phase == Failed) && step.record == Terminal(l.record, phase, error, now))
    ensures SafeOrLost(before, hash, l.digests, l.disk, step)
  {
    if step == Step(l.record, []) {
      OnlySends(before, hash, l.digests, l, step);
    } else {
      assert step.actions == [] + DropActions(l.record) + last;
      Settles(before, hash, l.digests, l, step, [], last);
    }
  }

  lemma TickIsSafe(before: Option<Bytes>, hash: Bytes -> Digest, l: Local, now: nat)
    requires Tidy(before, hash, l.digests, l.record, l.disk)
    ensures SafeOrLost(before, hash, l.digests, l.disk, TickRecord(l.record, now))
  {
    var step := TickRecord(l.record, now);
    if step.record.phase == l.record.phase {
      OnlySends(before, hash, l.digests, l, step);
    } else {
      assert step.actions == [Send(Cancel)] + DropActions(l.record) + [];
      Settles(before, hash, l.digests, l, step, [Send(Cancel)], []);
    }
  }

  lemma ActEvolves(r: Record, hash: Bytes -> Digest, e: LocalEvent)
    ensures Evolves(r, Act(r, hash, e).record, e.now)
  {
    match e
    case Arrives(automatic, now, preparation) => ReceiverOperationsEvolve(r, now, automatic, false, preparation);
    case Hears(m, now, io) => HandleEvolves(r, m, now, [], hash, NoSource(), io);
    case Accepts(now, preparation) => ReceiverOperationsEvolve(r, now, false, false, preparation);
    case Overwrites(now, stagingMade, preparation, _) => ReceiverOperationsEvolve(r, now, false, stagingMade, preparation);
    case Declines(now) => ReceiverOperationsEvolve(r, now, false, false, Unavailable);
    case Cancels(now, _) => CommonOperationsEvolve(r, None, now);
    case Ticks(now, _) => CommonOperationsEvolve(r, None, now);
    case LosesPeer(now, _) => CommonOperationsEvolve(r, None, now);
  }

  /** The target is removed only by a transfer in place that ends without completing. */
  lemma RemovalEnds(before: Option<Bytes>, hash: Bytes -> Digest, l: Local, e: LocalEvent)
    requires Tidy(before, hash, l.digests, l.record, l.disk) && RemoveFile(Target) in Act(l.record, hash, e).actions
    ensures l.record.phase == Transferring && !l.record.replacement
    ensures RenameStaged !in Act(l.record, hash, e).actions
    ensures var p := Act(l.record, hash, e).record.phase; p == Refused || p == Cancelled || p == Failed
  {
    var r := l.record;
    match e
    case Hears(m, now, io) => HearingHandlesOwn(r, m, now, hash, io);
    case Arrives(automatic, now, preparation) => PreparingRemovesNothing(r, Target, now, automatic, preparation);
    case Accepts(now, preparation) => PreparingRemovesNothing(r, Target, now, false, preparation);
    case Overwrites(now, _, preparation, _) => PreparingRemovesNothing(r, Staged, now, false, preparation);
    case Declines(_) =>
    case Cancels(_, _) =>
    case Ticks(_, _) =>
    case LosesPeer(_, _) =>
  }

  lemma PreparingRemovesNothing(r: Record, place: Place, now: nat, automatic: bool, preparation: Preparation)
    requires r.phase == AwaitingAcceptance ==> r.incoming.None?
    ensures RemoveFile(Target) !in PrepareReceiver(r, place, now, automatic, preparation).actions
  {
  }

  /** What the target holds apart from a transfer under way. */
  function Base(target: Option<Bytes>, l: Local): Option<Bytes> {
    if l.leftover.Some? then l.leftover else target
  }

  lemma NextIsTidy(target: Option<Bytes>, hash: Bytes -> Digest, l: Local, e: LocalEvent)
    requires Tidy(Base(target, l), hash, l.digests, l.record, l.disk) && Possible(l, e)
    requires l.leftover.Some? ==> target.None?
    ensures var n := Next(l, hash, e); Tidy(Base(target, n), hash, n.digests, n.record, n.disk)
    ensures Next(l, hash, e).leftover.Some? <==> l.leftover.Some? || LeavesFile(l, hash, e)
    ensures Next(l, hash, e).leftover.Some? ==> target.None?
  {
    var step := Act(l.record, hash, e);
    ActIsSafe(Base(target, l), hash, l, e);
    if KeepsFile(l, hash, e) {
      RemovalEnds(Base(target, l), hash, l, e);
      UnremovedStays(l.disk, step.actions);
    }
  }

  ghost predicate LeftFile(hash: Bytes -> Digest, events: seq<LocalEvent>, locals: seq<Local>, i: nat)
    requires i <= |events| < |locals|
  {
    exists j :: 0 <= j < i && LeavesFile(locals[j], hash, events[j])
  }

  ghost predicate LeftStaging(hash: Bytes -> Digest, events: seq<LocalEvent>, locals: seq<Local>, i: nat)
    requires i <= |events| < |locals|
  {
    exists j :: 0 <= j < i && LeavesStaging(locals[j], hash, events[j])
  }

  lemma LeftFileGrows(hash: Bytes -> Digest, events: seq<LocalEvent>, locals: seq<Local>, i: nat)
    requires i < |events| < |locals|
    ensures LeftFile(hash, events, locals, i + 1) <==> LeftFile(hash, events, locals, i) || LeavesFile(locals[i], hash, events[i])
  {
  }

  lemma LeftStagingGrows(hash: Bytes -> Digest, events: seq<LocalEvent>, locals: seq<Local>, i: nat)
    requires i < |events| < |locals|
    ensures LeftStaging(hash, events, locals, i + 1) <==> LeftStaging(hash, events, locals, i) || LeavesStaging(locals[i], hash, events[i])
  {
  }

  lemma {:induction false} LocalRunIsTidy(first: Local, hash: Bytes -> Digest, events: seq<LocalEvent>, locals: seq<Local>, i: nat)
    requires IsLocalRun(first, hash, events, locals) && i < |locals| && first.leftover.None? && !first.litter
    requires Tidy(first.disk.target, hash, first.digests, first.record, first.disk)
    ensures Tidy(Base(first.disk.target, locals[i]), hash, locals[i].digests, locals[i].record, locals[i].disk)
    ensures locals[i].record.size == first.record.size
    ensures locals[i].leftover.Some? ==> first.disk.target.None?
    ensures locals[i].leftover.Some? <==> LeftFile(hash, events, locals, i)
    ensures locals[i].litter <==> LeftStaging(hash, events, locals, i)
  {
    if i > 0 {
      LocalRunIsTidy(first, hash, events, locals, i - 1);
      assert LocalStepsAt(hash, events, locals, i - 1);
      LeftFileGrows(hash, events, locals, i - 1);
      LeftStagingGrows(hash, events, locals, i - 1);
      NextIsTidy(first.disk.target, hash, locals[i - 1], events[i - 1]);
      ActEvolves(locals[i - 1].record, hash, events[i - 1]);
    }
  }

  /** A record as an offer creates it, on a disk without a staged copy. */
  function Fresh(peer: Peer, name: string, size: nat, now: nat, target: Option<Bytes>): Local {
    Local(NewReceiver(peer, "", 1, name, size, now), Disk(target, None), {}, None, false)
  }

  /**
   All or nothing, against any peer and any disk. At every instant of every run a target that exists holds
   its old bytes, or exactly `size` bytes with a digest the peer claimed. A completed transfer left the
   verified file. One that ended otherwise left the target as it was, exactly unless it lost the file it
   created there or could not remove it, which takes a target that did not exist; and it left no staging
   directory, exactly unless that could not be removed.
   */
  lemma OverwriteIsAllOrNothing(peer: Peer, name: string, size: nat, now: nat, target: Option<Bytes>, hash: Bytes -> Digest,
                                events: seq<LocalEvent>, locals: seq<Local>, i: nat)
    requires IsLocalRun(Fresh(peer, name, size, now, target), hash, events, locals) && i < |locals|
    ensures
      var ended := locals[i].record.phase == Refused || locals[i].record.phase == Cancelled || locals[i].record.phase == Failed;
      var leaves := LeftFile(hash, events, locals, i);
      && (ended ==> locals[i].disk.staged.None? && (locals[i].disk.target == target <==> !leaves))
      && (leaves ==> target.None?)
    ensures locals[i].litter <==> LeftStaging(hash, events, locals, i)
    ensures locals[i].record.phase == Completed ==>
              locals[i].disk.staged.None? && Verified(locals[i].disk.target, size, hash, locals[i].digests)
    ensures i < |events| && Base(target, locals[i]).Some? ==>
              var actions := Act(locals[i].record, hash, events[i]).actions;
              forall k :: 0 <= k <= |actions| ==>
                Intact(Base(target, locals[i]), hash, locals[i + 1].digests, size, PerformAll(locals[i].disk, actions[..k]))
  {
    LocalRunIsTidy(Fresh(peer, name, size, now, target), hash, events, locals, i);
    if i < |events| {
      assert LocalStepsAt(hash, events, locals, i);
      ActIsSafe(Base(target, locals[i]), hash, locals[i], events[i]);
      ActEvolves(locals[i].record, hash, events[i]);
    }
  }
}
