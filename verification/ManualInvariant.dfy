/**
 The invariant of a manual transfer, and the proof that every event keeps it.
 */
module ManualInvariant {
  import opened Common
  import opened ManualRecord
  import opened ManualNetwork

  function Following(c: Setup, offset: nat): nat {
    Min(offset + MAX_CHUNK, |c.source|)
  }

  predicate OnGrid(c: Setup, offset: nat) {
    offset <= |c.source| && (offset % MAX_CHUNK == 0 || offset == |c.source|)
  }

  /** The only correct answer to a request at `offset`. */
  function CorrectAnswer(c: Setup, offset: nat): Message
    requires offset <= |c.source|
  {
    if offset == |c.source| then Complete(c.hash(c.source))
    else Chunk(offset, c.source[offset..Following(c, offset)])
  }

  ghost predicate FitForReceiver(c: Setup, w: World, m: Message) {
    match m
    case Offer(name, size) => name == c.name && size == |c.source|
    case Answer(decision) => decision == Accepted ==> w.senderStreamed
    case Request(_, _) => false
    case Chunk(offset, data) =>
      && offset < |c.source| && OnGrid(c, offset) && m == CorrectAnswer(c, offset)
      && Following(c, offset) <= w.served && w.senderStreamed
    case Complete(digest) =>
      && m == CorrectAnswer(c, |c.source|) && w.served == |c.source| && w.senderStreamed
      && (!w.evicted && w.receiver.Some? ==> w.receiver.value.transferred == |c.source|)
    case Result(success, reason) => !w.evicted ==> reason != Some(NotAccepted)
    case Cancel => true
  }

  ghost predicate FitForSender(c: Setup, w: World, m: Message) {
    match m
    case Offer(_, _) => false
    case Answer(decision) => decision == Accepted ==> w.receiverAccepted
    case Request(offset, length) =>
      && length == MAX_CHUNK && OnGrid(c, offset) && offset <= w.served && w.senderStreamed
      && (!w.evicted && w.receiver.Some? ==> offset <= w.receiver.value.transferred)
    case Chunk(_, _) => false
    case Complete(_) => false
    case Result(success, reason) => (success ==> w.receiverCompleted) && (!w.evicted ==> reason != Some(NotAccepted))
    case Cancel => true
  }

  /** Failures that only a misbehaving peer or a broken implementation could cause. */
  predicate Blameless(error: Option<Failure>) {
    match error
    case None => true
    case Some(e) =>
      !(e.InvalidRequest? || e.UnexpectedOffset? || e.SourceUnavailable? || e.InvalidChunk? || e.OverlappingChunk?
        || e.ConflictingDigest? || e.SizeMismatch? || e.DigestMismatch?)
  }

  ghost predicate SenderInv(c: Setup, w: World, r: Record) {
    && r.direction == Sending && r.name == c.name && r.size == |c.source|
    && r.incoming.None? && !r.replacement
    && r.transferred == w.served && OnGrid(c, r.transferred)
    && Blameless(r.error)
    && (r.finalDigest.Some? ==> r.transferred == r.size)
    && (r.finalResult.Some? ==> r.phase == Completed)
    && (r.cachedRequest.None? ==> r.transferred == 0)
    && (r.phase == Offering || r.phase == AwaitingAcceptance ==> r.cachedRequest.None? && !w.senderStreamed)
    && (!IsTerminal(r.phase) ==> SenderLive(c, r))
    && (r.phase == Transferring ==> w.receiverAccepted && w.senderStreamed)
    && (r.phase == Completed ==> w.receiverCompleted)
    && (r.retryEvent.Some? ==> FitForReceiver(c, w, r.retryEvent.value))
    && (r.cachedRequest.Some? ==> w.senderStreamed)
    && (r.cachedRequest.Some? && !w.evicted && w.receiver.Some? ==>
          r.cachedRequest.value.0 <= w.receiver.value.transferred)
  }

  ghost predicate SenderLive(c: Setup, r: Record)
    requires r.transferred <= |c.source|
  {
    && r.offer
    && (r.outgoing.Some? ==> r.outgoing.value == Outgoing(r.transferred, c.source[..r.transferred]))
    && (r.outgoing.None? ==> r.cachedRequest.None?)
    && (r.cachedRequest.Some? ==>
          var offset := r.cachedRequest.value.0;
          && r.cachedRequest.value.1 == MAX_CHUNK
          && OnGrid(c, offset) && r.transferred == Following(c, offset)
          && (offset == |c.source| ==> r.finalDigest.Some?)
          && r.cachedResponse == Some(CorrectAnswer(c, offset)))
  }

  ghost predicate ReceiverInv(c: Setup, w: World, r: Record) {
    && r.direction == Receiving && r.name == c.name && r.size == |c.source|
    && r.outgoing.None? && r.phase != Offering
    && r.transferred <= w.served && OnGrid(c, r.transferred)
    && Blameless(r.error)
    && (r.earlyDigest.Some? ==> w.evicted && r.earlyDigest.value == c.hash(c.source))
    && (r.finalResult.Some? ==>
          && IsTerminal(r.phase) && (r.finalResult.value.0 ==> r.phase == Completed)
          && r.finalResult.value.1 != Some(NotAccepted))
    && (r.phase == AwaitingAcceptance ==> r.transferred == 0 && (!w.evicted ==> !w.receiverAccepted))
    && (r.phase == Transferring ==>
          && w.receiverAccepted
          && (r.retryEvent == Some(Answer(Accepted)) || r.retryEvent == Some(RequestAt(r.transferred)))
          && r.retryEvent.value in w.toSender)
    && (r.phase == Completed ==> w.receiverCompleted)
    && (r.incoming.Some? <==> r.phase == Transferring)
    && (r.incoming.Some? ==>
          r.incoming.value == Incoming(if r.replacement then Staged else Target, r.size, r.transferred,
                                       c.source[..r.transferred], false))
    && (r.replacement ==> r.phase == Transferring)
    && (r.retryEvent.Some? ==> FitForSender(c, w, r.retryEvent.value))
  }

  /** What the target holds apart from a transfer under way. */
  function Settled(c: Setup, w: World): Option<Bytes> {
    if w.receiverCompleted then Some(c.source) else if w.leftover.Some? then w.leftover else c.before
  }

  /** The target is untouched, complete, or (when it did not exist) being written in place. */
  ghost predicate DiskInv(c: Setup, w: World) {
    var settled := Settled(c, w);
    && (w.leftover.Some? ==> c.before.None?)
    && if w.receiver.Some? && w.receiver.value.phase == Transferring then
      var r := w.receiver.value;
      if r.replacement then
        w.disk == Disk(settled, Some(c.source[..Min(r.transferred, |c.source|)]))
      else
        settled.None? && w.disk == Disk(Some(c.source[..Min(r.transferred, |c.source|)]), None)
    else
      w.disk == Disk(settled, None)
  }

  /** The sender is level with the receiver or exactly one answer ahead of it. */
  ghost predicate Lockstep(c: Setup, w: World) {
    !w.evicted ==>
      if w.receiver.Some? then
        w.served == w.receiver.value.transferred || w.served == Following(c, w.receiver.value.transferred)
      else
        w.served == 0 && !w.receiverAccepted
  }

  ghost predicate Causal(c: Setup, w: World) {
    && w.served <= |c.source| <= U64_MAX
    && (w.senderStreamed ==> w.receiverAccepted)
    && (w.receiverCompleted ==> w.receiverAccepted)
    && (w.sender.None? && !w.evicted ==> !w.offered)
    && (!w.offered ==> w.toReceiver == {} && w.toSender == {} && w.sender.None? && w.receiver.None? && !w.evicted)
  }

  ghost predicate Inv(c: Setup, w: World) {
    && Causal(c, w)
    && (w.sender.Some? ==> SenderInv(c, w, w.sender.value))
    && (w.receiver.Some? ==> ReceiverInv(c, w, w.receiver.value))
    && (forall m :: m in w.toReceiver ==> FitForReceiver(c, w, m))
    && (forall m :: m in w.toSender ==> FitForSender(c, w, m))
    && DiskInv(c, w)
    && Lockstep(c, w)
  }

  // ----- What one move of either side keeps -----

  ghost predicate GoodSenderStep(c: Setup, w: World, step: Step) {
    var next := MoveSender(w, step);
    && w.served <= step.record.transferred
    && (next.senderStreamed ==> w.receiverAccepted)
    && SenderInv(c, next, step.record)
    && (forall m :: m in Sent(step.actions) ==> FitForReceiver(c, next, m))
    && Lockstep(c, next)
  }

  lemma SenderMoveKeeps(c: Setup, w: World, step: Step)
    requires Inv(c, w) && w.offered && GoodSenderStep(c, w, step)
    ensures Inv(c, MoveSender(w, step))
  {
  }

  /** The target is removed only by a transfer in place that ends without completing. */
  predicate RemovesOwn(w: World, step: Step) {
    RemoveFile(Target) in step.actions ==>
      && w.receiver.Some? && w.receiver.value.phase == Transferring && !w.receiver.value.replacement
      && (step.record.phase == Refused || step.record.phase == Cancelled || step.record.phase == Failed)
      && LoseFile(Target) !in step.actions && RenameStaged !in step.actions
  }

  ghost predicate GoodReceiverStep(c: Setup, w: World, step: Step) {
    var next := Advance(w, step);
    && (w.receiver.Some? ==> w.receiver.value.transferred <= step.record.transferred)
    && (next.receiverCompleted ==> next.receiverAccepted)
    && ReceiverInv(c, next, step.record)
    && (forall m :: m in Sent(step.actions) ==> FitForSender(c, next, m))
    && DiskInv(c, next)
    && Lockstep(c, next)
    && RemovesOwn(w, step)
  }

  lemma ReceiverAdvanceKeeps(c: Setup, w: World, step: Step)
    requires Inv(c, w) && w.offered && GoodReceiverStep(c, w, step)
    requires w.receiver.None? && !w.evicted ==> !w.senderStreamed
    ensures Inv(c, Advance(w, step))
  {
  }

  /** Only the disk and its history tell a removal that failed from one that did not. */
  lemma OnlyTheDiskDiffers(c: Setup, w: World, disk: Disk, leftover: Option<Bytes>, litter: bool)
    requires Inv(c, w) && DiskInv(c, w.(disk := disk, leftover := leftover, litter := litter))
    ensures Inv(c, w.(disk := disk, leftover := leftover, litter := litter))
  {
    var v := w.(disk := disk, leftover := leftover, litter := litter);
    assert forall m :: FitForReceiver(c, w, m) ==> FitForReceiver(c, v, m);
    assert forall m :: FitForSender(c, w, m) ==> FitForSender(c, v, m);
  }

  /** A file that cannot be removed is still there. */
  lemma {:induction false} UnremovedStays(disk: Disk, actions: seq<Action>)
    requires disk.target.Some? && RenameStaged !in actions
    ensures Unremoved(disk, actions).Some?
    decreases |actions|
  {
    if actions != [] {
      assert actions[0] in actions && forall a :: a in actions[1..] ==> a in actions;
      UnremovedStays(if actions[0] == RemoveFile(Target) then disk else Perform(disk, actions[0]), actions[1..]);
    }
  }

  lemma FailedRemovalSettles(c: Setup, w: World, step: Step, removes: bool)
    requires DiskInv(c, w) && DiskInv(c, Advance(w, step)) && RemovesOwn(w, step)
    ensures DiskInv(c, MoveReceiver(w, step, removes))
  {
    if !removes && RemoveFile(Target) in step.actions {
      assert Settled(c, w).None?;
      assert Advance(w, step).disk == Disk(None, None);
    }
  }

  lemma ReceiverMoveKeeps(c: Setup, w: World, step: Step, removes: bool)
    requires Inv(c, w) && w.offered && GoodReceiverStep(c, w, step)
    requires w.receiver.None? && !w.evicted ==> !w.senderStreamed
    ensures Inv(c, MoveReceiver(w, step, removes))
  {
    var next, moved := Advance(w, step), MoveReceiver(w, step, removes);
    ReceiverAdvanceKeeps(c, w, step);
    assert moved == next.(disk := moved.disk, leftover := moved.leftover, litter := moved.litter);
    FailedRemovalSettles(c, w, step, removes);
    OnlyTheDiskDiffers(c, next, moved.disk, moved.leftover, moved.litter);
  }

  /** The record is as it was but for its timers, and what is sent fits. */
  lemma SenderStays(c: Setup, w: World, step: Step)
    requires Inv(c, w) && w.sender.Some?
    requires var r := w.sender.value; step.record == r.(lastActivity := step.record.lastActivity, retries := step.record.retries)
    requires forall m :: m in Sent(step.actions) ==> FitForReceiver(c, w, m)
    ensures GoodSenderStep(c, w, step)
  {
  }

  /** A settled record only keeps a message to repeat. */
  lemma SenderSettles(c: Setup, w: World, phase: Phase, error: Option<Failure>, now: nat, step: Step)
    requires Inv(c, w) && w.sender.Some? && !IsTerminal(w.sender.value.phase) && IsTerminal(phase)
    requires Blameless(error) && (phase == Completed ==> w.receiverCompleted)
    requires var settled := Terminal(w.sender.value, phase, error, now);
      step.record == settled.(retryEvent := step.record.retryEvent, finalResult := step.record.finalResult)
    requires step.record.finalResult.Some? ==> phase == Completed
    requires step.record.retryEvent.Some? ==> FitForReceiver(c, w, step.record.retryEvent.value)
    requires forall m :: m in Sent(step.actions) ==> FitForReceiver(c, w, m)
    ensures GoodSenderStep(c, w, step)
  {
    var next := MoveSender(w, step);
    assert next == w.(sender := next.sender, toReceiver := next.toReceiver);
    assert forall m :: FitForReceiver(c, w, m) ==> FitForReceiver(c, next, m);
    assert Lockstep(c, next);
  }

  lemma SenderFails(c: Setup, w: World, error: Failure, now: nat)
    requires Inv(c, w) && w.sender.Some? && !IsTerminal(w.sender.value.phase) && Blameless(Some(error))
    ensures GoodSenderStep(c, w, Fail(w.sender.value, error, now))
  {
    SenderSettles(c, w, Failed, Some(error), now, Fail(w.sender.value, error, now));
  }

  lemma SenderServesEnd(c: Setup, w: World, now: nat, io: SourceIo)
    requires Inv(c, w) && w.sender.Some? && FitForSender(c, w, RequestAt(w.sender.value.size))
    requires w.sender.value.phase == Transferring && w.sender.value.transferred == w.sender.value.size && io.opens && io.readable
    requires w.sender.value.cachedRequest != Some((w.sender.value.size, MAX_CHUNK))
    ensures
      var offset := w.sender.value.size;
      var step := SendChunk(w.sender.value, offset, MAX_CHUNK, now, c.source, c.hash, io);
      GoodSenderStep(c, w, step) && step.actions == [Send(CorrectAnswer(c, offset))]
  {
    assert c.source[..w.sender.value.size] == c.source;
  }

  /** The record after it has read on from `offset`. */
  function ReadOn(c: Setup, r: Record, offset: nat): Record
    requires offset <= |c.source|
  {
    var end := Following(c, offset);
    r.(outgoing := Some(Outgoing(end, c.source[..end])), transferred := end)
  }

  lemma ServedChunkShape(c: Setup, w: World, offset: nat, now: nat, io: SourceIo)
    requires Inv(c, w) && w.sender.Some? && FitForSender(c, w, RequestAt(offset))
    requires w.sender.value.phase == Transferring && offset == w.sender.value.transferred && io.opens && io.readable
    requires w.sender.value.cachedRequest != Some((offset, MAX_CHUNK)) && offset != w.sender.value.size
    ensures offset <= |c.source|
    ensures
      SendChunk(w.sender.value, offset, MAX_CHUNK, now, c.source, c.hash, io) ==
      Served(ReadOn(c, w.sender.value, offset), offset, MAX_CHUNK, CorrectAnswer(c, offset), now)
  {
    assert c.source[..offset] + c.source[offset..Following(c, offset)] == c.source[..Following(c, offset)];
  }

  lemma ServingChunkIsGood(c: Setup, w: World, offset: nat, now: nat)
    requires Inv(c, w) && w.sender.Some? && FitForSender(c, w, RequestAt(offset)) && offset <= |c.source|
    requires w.sender.value.phase == Transferring && offset == w.sender.value.transferred
    requires w.sender.value.cachedRequest != Some((offset, MAX_CHUNK)) && offset != w.sender.value.size
    ensures GoodSenderStep(c, w, Served(ReadOn(c, w.sender.value, offset), offset, MAX_CHUNK, CorrectAnswer(c, offset), now))
  {
  }

  lemma SenderServesChunk(c: Setup, w: World, offset: nat, now: nat, io: SourceIo)
    requires Inv(c, w) && w.sender.Some? && FitForSender(c, w, RequestAt(offset))
    requires w.sender.value.phase == Transferring && offset == w.sender.value.transferred && io.opens && io.readable
    requires w.sender.value.cachedRequest != Some((offset, MAX_CHUNK)) && offset != w.sender.value.size
    ensures
      var step := SendChunk(w.sender.value, offset, MAX_CHUNK, now, c.source, c.hash, io);
      GoodSenderStep(c, w, step) && step.actions == [Send(CorrectAnswer(c, offset))]
  {
    ServedChunkShape(c, w, offset, now, io);
    ServingChunkIsGood(c, w, offset, now);
  }

  lemma SenderServes(c: Setup, w: World, offset: nat, now: nat, io: SourceIo)
    requires Inv(c, w) && w.sender.Some? && FitForSender(c, w, RequestAt(offset))
    requires w.sender.value.phase == Transferring && offset == w.sender.value.transferred && io.opens && io.readable
    requires w.sender.value.cachedRequest != Some((offset, MAX_CHUNK))
    ensures
      var step := SendChunk(w.sender.value, offset, MAX_CHUNK, now, c.source, c.hash, io);
      GoodSenderStep(c, w, step) && step.actions == [Send(CorrectAnswer(c, offset))]
  {
    if offset == w.sender.value.size {
      SenderServesEnd(c, w, now, io);
    } else {
      SenderServesChunk(c, w, offset, now, io);
    }
  }

  lemma SenderRepeats(c: Setup, w: World, offset: nat, length: nat, now: nat, io: SourceIo)
    requires Inv(c, w) && w.sender.Some? && FitForSender(c, w, Request(offset, length))
    requires var r := w.sender.value; IsTerminal(r.phase) || r.cachedRequest == Some((offset, length)) || offset < r.transferred
    ensures GoodSenderStep(c, w, SendChunk(w.sender.value, offset, length, now, c.source, c.hash, io))
  {
    SenderStays(c, w, SendChunk(w.sender.value, offset, length, now, c.source, c.hash, io));
  }

  lemma SenderAnswers(c: Setup, w: World, offset: nat, length: nat, now: nat, io: SourceIo)
    requires Inv(c, w) && w.sender.Some? && FitForSender(c, w, Request(offset, length))
    ensures GoodSenderStep(c, w, SendChunk(w.sender.value, offset, length, now, c.source, c.hash, io))
  {
    var r := w.sender.value;
    if IsTerminal(r.phase) || r.cachedRequest == Some((offset, length)) || offset < r.transferred {
      SenderRepeats(c, w, offset, length, now, io);
    } else if (r.outgoing.None? && !io.opens) || !io.readable {
      SenderFails(c, w, SourceError, now);
    } else {
      SenderServes(c, w, offset, now, SourceIo(true, true));
    }
  }

  lemma SenderDecides(c: Setup, w: World, decision: ManualDecision, now: nat)
    requires Inv(c, w) && w.sender.Some? && FitForSender(c, w, Answer(decision))
    ensures GoodSenderStep(c, w, Decide(w.sender.value, decision, now))
  {
    var r := w.sender.value;
    var step := Decide(r, decision, now);
    if step.record == r {
      SenderStays(c, w, step);
    } else if decision == Declined {
      SenderSettles(c, w, Refused, None, now, step);
    } else if decision == Accepted && step.record.phase == Failed {
      SenderFails(c, w, OfferExpired, now);
    } else {
      SenderGoesOn(c, w, step);
    }
  }

  /** The receiver is asked, or has accepted: no byte has been served yet. */
  lemma SenderGoesOn(c: Setup, w: World, step: Step)
    requires Inv(c, w) && w.sender.Some?
    requires
      var r, n := w.sender.value, step.record;
      && (r.phase == Offering || r.phase == AwaitingAcceptance)
      && (n.phase == AwaitingAcceptance || (n.phase == Transferring && w.receiverAccepted))
      && n == r.(phase := n.phase, retryEvent := None, lastActivity := n.lastActivity, retries := n.retries, error := n.error)
      && Blameless(n.error)
      && (forall m :: m in Sent(step.actions) ==> m.Answer? && (m.decision == Accepted ==> n.phase == Transferring))
    ensures GoodSenderStep(c, w, step)
  {
    var next := MoveSender(w, step);
    assert next == w.(sender := next.sender, toReceiver := next.toReceiver, senderStreamed := next.senderStreamed);
  }

  lemma SenderHearsResult(c: Setup, w: World, success: bool, reason: Option<Reason>, now: nat)
    requires Inv(c, w) && w.sender.Some? && FitForSender(c, w, Result(success, reason))
    ensures GoodSenderStep(c, w, ReceiveResult(w.sender.value, success, reason, now))
  {
    var step := ReceiveResult(w.sender.value, success, reason, now);
    if step.record == w.sender.value {
      SenderStays(c, w, step);
    } else if success {
      SenderSettles(c, w, Completed, None, now, step);
    } else {
      SenderSettles(c, w, Failed, Some(Remote(reason)), now, step);
    }
  }

  lemma SenderHearsCancel(c: Setup, w: World, now: nat)
    requires Inv(c, w) && w.sender.Some?
    ensures GoodSenderStep(c, w, CancelledByPeer(w.sender.value, now))
  {
    var step := CancelledByPeer(w.sender.value, now);
    if step.record == w.sender.value {
      SenderStays(c, w, step);
    } else {
      SenderSettles(c, w, Cancelled, None, now, step);
    }
  }

  lemma SenderHandles(c: Setup, w: World, m: Message, now: nat, io: SourceIo)
    requires Inv(c, w) && w.sender.Some? && FitForSender(c, w, m)
    ensures GoodSenderStep(c, w, Handle(w.sender.value, m, now, c.source, c.hash, io, NoSink()))
  {
    match m
    case Request(offset, length) => SenderAnswers(c, w, offset, length, now, io);
    case Answer(decision) => SenderDecides(c, w, decision, now);
    case Result(success, reason) => SenderHearsResult(c, w, success, reason, now);
    case Cancel => SenderHearsCancel(c, w, now);
  }

  lemma SenderTicks(c: Setup, w: World, now: nat)
    requires Inv(c, w) && w.sender.Some?
    ensures GoodSenderStep(c, w, TickRecord(w.sender.value, now))
  {
    var r := w.sender.value;
    var step := TickRecord(r, now);
    if step.record.phase == r.phase {
      SenderStays(c, w, step);
    } else {
      SenderSettles(c, w, Failed, step.record.error, now, step);
    }
  }

  lemma SenderStops(c: Setup, w: World, now: nat)
    requires Inv(c, w) && w.sender.Some?
    ensures GoodSenderStep(c, w, CancelledByUser(w.sender.value, now))
    ensures GoodSenderStep(c, w, Reroute(w.sender.value, None, now))
  {
    var r := w.sender.value;
    var cancel, lost := CancelledByUser(r, now), Reroute(r, None, now);
    if IsTerminal(r.phase) {
      SenderStays(c, w, cancel);
      SenderStays(c, w, lost);
    } else {
      SenderSettles(c, w, Cancelled, None, now, cancel);
      SenderSettles(c, w, Failed, Some(PeerDisconnected), now, lost);
    }
  }

  // ----- Receiver -----

  lemma ReceiverStays(c: Setup, w: World, step: Step)
    requires Inv(c, w) && w.receiver.Some?
    requires var r := w.receiver.value; step.record == r.(lastActivity := step.record.lastActivity, retries := step.record.retries)
    requires forall a :: a in step.actions ==> a.Send? && FitForSender(c, w, a.message)
    ensures GoodReceiverStep(c, w, step)
  {
    SendsLeaveDisk(w.disk, step.actions);
    var next := Advance(w, step);
    assert next == w.(receiver := next.receiver, toSender := next.toSender);
  }

  lemma {:induction false} SendsLeaveDisk(disk: Disk, actions: seq<Action>)
    requires forall a :: a in actions ==> a.Send?
    ensures PerformAll(disk, actions) == disk
    decreases |actions|
  {
    if actions != [] {
      SendsLeaveDisk(disk, actions[1..]);
    }
  }

  lemma {:induction false} PerformInOrder(disk: Disk, first: seq<Action>, then_: seq<Action>)
    ensures PerformAll(disk, first + then_) == PerformAll(PerformAll(disk, first), then_)
    decreases |first|
  {
    if first == [] {
      assert first + then_ == then_;
    } else {
      assert (first + then_)[1..] == first[1..] + then_;
      PerformInOrder(Perform(disk, first[0]), first[1..], then_);
    }
  }

  lemma PerformTwo(disk: Disk, a: Action, b: Action)
    ensures PerformAll(disk, [a]) == Perform(disk, a)
    ensures PerformAll(disk, [a, b]) == Perform(Perform(disk, a), b)
  {
    assert [a, b][1..] == [b];
    assert PerformAll(Perform(disk, a), [b]) == Perform(Perform(disk, a), b);
  }

  /** Dropping an unfinished receiver undoes everything it did to the disk. */
  lemma DropRestores(c: Setup, w: World)
    requires DiskInv(c, w) && w.receiver.Some? && ReceiverInv(c, w, w.receiver.value)
    ensures PerformAll(w.disk, DropActions(w.receiver.value))
         == Disk(Settled(c, w), None)
  {
    var r := w.receiver.value;
    if r.phase == Transferring && r.replacement {
      assert DropActions(r) == [RemoveFile(Staged), DropStaging];
      PerformTwo(w.disk, RemoveFile(Staged), DropStaging);
    } else if r.phase == Transferring {
      assert DropActions(r) == [RemoveFile(Target)];
    } else {
      assert DropActions(r) == [];
    }
  }

  /** Settling without completing puts the disk back as it was. */
  lemma ReceiverSettles(c: Setup, w: World, phase: Phase, error: Option<Failure>, now: nat, step: Step)
    requires Inv(c, w) && w.receiver.Some? && !IsTerminal(w.receiver.value.phase) && phase in {Refused, Cancelled, Failed}
    requires Blameless(error)
    requires var settled := Terminal(w.receiver.value, phase, error, now);
      step.record == settled.(retryEvent := step.record.retryEvent, finalResult := step.record.finalResult)
    requires step.record.finalResult.Some? ==> !step.record.finalResult.value.0 && step.record.finalResult.value.1 != Some(NotAccepted)
    requires step.record.retryEvent.Some? ==> FitForSender(c, w, step.record.retryEvent.value)
    requires forall m :: m in Sent(step.actions) ==> FitForSender(c, w, m)
    requires PerformAll(w.disk, step.actions) == PerformAll(w.disk, DropActions(w.receiver.value))
    requires RemovesOwn(w, step) && LoseFile(Target) !in step.actions
    ensures GoodReceiverStep(c, w, step)
  {
    DropRestores(c, w);
    var next := Advance(w, step);
    assert next == w.(receiver := next.receiver, toSender := next.toSender, disk := next.disk);
    assert forall m :: FitForSender(c, w, m) ==> FitForSender(c, next, m);
    assert Lockstep(c, next);
    assert DiskInv(c, next);
  }

  /** As above, when one fitting message goes out before or after the files are dropped, or none does. */
  lemma ReceiverSettlesSending(c: Setup, w: World, phase: Phase, error: Option<Failure>, now: nat, step: Step, m: Message)
    requires Inv(c, w) && w.receiver.Some? && !IsTerminal(w.receiver.value.phase) && phase in {Refused, Cancelled, Failed}
    requires Blameless(error) && FitForSender(c, w, m)
    requires var settled := Terminal(w.receiver.value, phase, error, now);
      step.record == settled.(retryEvent := step.record.retryEvent)
    requires step.record.retryEvent.Some? ==> FitForSender(c, w, step.record.retryEvent.value)
    requires var drop := DropActions(w.receiver.value);
      step.actions == drop || step.actions == drop + [Send(m)] || step.actions == [Send(m)] + drop
    ensures GoodReceiverStep(c, w, step)
  {
    DropThenSend(w, m);
    DropRemovesOwn(c, w, m, step);
    ReceiverSettles(c, w, phase, error, now, step);
  }

  lemma DropRemovesOwn(c: Setup, w: World, m: Message, step: Step)
    requires w.receiver.Some? && ReceiverInv(c, w, w.receiver.value)
    requires step.record.phase == Refused || step.record.phase == Cancelled || step.record.phase == Failed
    requires var drop := DropActions(w.receiver.value);
      step.actions == drop || step.actions == drop + [Send(m)] || step.actions == [Send(m)] + drop
    ensures RemovesOwn(w, step) && LoseFile(Target) !in step.actions
  {
    var drop := DropActions(w.receiver.value);
    assert forall a :: a in step.actions ==> a in drop || a == Send(m);
  }

  lemma ReceiverFails(c: Setup, w: World, error: Failure, now: nat)
    requires Inv(c, w) && w.receiver.Some? && !IsTerminal(w.receiver.value.phase) && Blameless(Some(error))
    ensures GoodReceiverStep(c, w, Fail(w.receiver.value, error, now))
  {
    var step := Fail(w.receiver.value, error, now);
    ReceiverSettlesSending(c, w, Failed, Some(error), now, step, Rejection(TransferFailed));
  }

  lemma DropThenSend(w: World, m: Message)
    requires w.receiver.Some?
    ensures
      var drop := DropActions(w.receiver.value);
      PerformAll(w.disk, drop + [Send(m)]) == PerformAll(w.disk, drop)
      && PerformAll(w.disk, [Send(m)] + drop) == PerformAll(w.disk, drop)
      && Sent(drop) == {} && Sent(drop + [Send(m)]) == {m} && Sent([Send(m)] + drop) == {m}
  {
    var drop := DropActions(w.receiver.value);
    PerformInOrder(w.disk, drop, [Send(m)]);
    PerformInOrder(w.disk, [Send(m)], drop);
    assert Send(m) in drop + [Send(m)] && Send(m) in [Send(m)] + drop;
  }

  /** Accepting, by hand or automatically: the record starts at zero on an empty new file. */
  lemma ReceiverPrepares(c: Setup, w: World, step: Step, place: Place, now: nat)
    requires Inv(c, w) && w.offered
    requires w.receiver.Some? ==> w.receiver.value.phase == AwaitingAcceptance
    requires w.receiver.None? && !w.evicted ==> !w.senderStreamed
    requires place == Target ==> w.disk.target.None?
    requires step.actions == [CreateFile(place), Send(Answer(Accepted))]
    requires step.record.direction == Receiving && step.record.name == c.name && step.record.size == |c.source|
    requires step.record.phase == Transferring && step.record.transferred == 0 && step.record.error.None?
    requires step.record.outgoing.None? && step.record.finalResult.None? && step.record.retryEvent == Some(Answer(Accepted))
    requires step.record.earlyDigest.Some? ==> w.evicted && step.record.earlyDigest.value == c.hash(c.source)
    requires step.record.incoming == Some(Incoming(place, |c.source|, 0, [], false))
    requires step.record.replacement == (place == Staged)
    ensures GoodReceiverStep(c, w, step)
  {
    var next := Advance(w, step);
    PerformTwo(w.disk, CreateFile(place), Send(Answer(Accepted)));
    assert Send(Answer(Accepted)) in step.actions;
    assert next.disk == Put(w.disk, place, Some([]));
    assert c.source[..0] == [];
    assert next == w.(receiver := next.receiver, toSender := next.toSender, disk := next.disk, receiverAccepted := true);
  }

  lemma ReceiverAccepts(c: Setup, w: World, now: nat, preparation: Preparation)
    requires Inv(c, w) && w.receiver.Some? && Creatable(w, preparation)
    ensures GoodReceiverStep(c, w, Accept(w.receiver.value, now, preparation))
  {
    var r := w.receiver.value;
    var step := Accept(r, now, preparation);
    if r.phase != AwaitingAcceptance {
      ReceiverStays(c, w, step);
    } else if now >= r.approvalDeadline {
      ReceiverFails(c, w, OfferExpired, now);
    } else if preparation == Ready {
      ReceiverPrepares(c, w, step, Target, now);
    } else if preparation == Lost {
      ReceiverLosesFile(c, w, step);
    } else {
      ReceiverNotes(c, w, step, if preparation == AlreadyExists then NameTaken else PreparationError);
    }
  }

  /** A file that is lost as soon as it is created stays at the target, empty, and the offer stays open or fails. */
  lemma ReceiverLosesFile(c: Setup, w: World, step: Step)
    requires Inv(c, w) && w.disk.target.None?
    requires w.receiver.Some? && w.receiver.value.phase == AwaitingAcceptance
    requires step.record == w.receiver.value.(error := Some(PreparationError)) && step.actions == [LoseFile(Target)]
    ensures GoodReceiverStep(c, w, step)
  {
    PerformTwo(w.disk, LoseFile(Target), DropStaging);
    var next := Advance(w, step);
    assert next == w.(receiver := next.receiver, disk := Disk(Some([]), None), leftover := Some([]));
  }

  lemma OverwriteExpires(c: Setup, w: World, now: nat)
    requires Inv(c, w) && w.receiver.Some? && w.receiver.value.phase == AwaitingAcceptance
    ensures
      var failed := Fail(w.receiver.value, OfferExpired, now);
      GoodReceiverStep(c, w, failed.(actions := failed.actions + [DropStaging]))
  {
    var r := w.receiver.value;
    assert DropActions(r) == [];
    var step := Step(Fail(r, OfferExpired, now).record, [Send(Rejection(TransferFailed)), DropStaging]);
    PerformTwo(w.disk, Send(Rejection(TransferFailed)), DropStaging);
    ReceiverSettles(c, w, Failed, Some(OfferExpired), now, step);
    assert Fail(r, OfferExpired, now).actions + [DropStaging] == step.actions;
  }

  /** Acceptance that could not be prepared leaves an error to show and nothing else. */
  lemma ReceiverNotes(c: Setup, w: World, step: Step, error: Failure)
    requires Inv(c, w) && w.receiver.Some? && w.receiver.value.phase == AwaitingAcceptance && Blameless(Some(error))
    requires step.record == w.receiver.value.(error := Some(error))
    requires step.actions == [] || step.actions == [DropStaging] || step.actions == [LoseFile(Staged), DropStaging]
    ensures GoodReceiverStep(c, w, step)
  {
    PerformTwo(w.disk, DropStaging, DropStaging);
    PerformTwo(w.disk, LoseFile(Staged), DropStaging);
    var next := Advance(w, step);
    assert next == w.(receiver := next.receiver);
  }

  lemma ReceiverOverwrites(c: Setup, w: World, now: nat, stagingMade: bool, preparation: Preparation)
    requires Inv(c, w) && w.receiver.Some?
    ensures GoodReceiverStep(c, w, Overwrite(w.receiver.value, now, stagingMade, preparation))
  {
    var r := w.receiver.value;
    var step := Overwrite(r, now, stagingMade, preparation);
    if r.phase != AwaitingAcceptance {
      ReceiverStays(c, w, step);
    } else if !stagingMade {
      ReceiverNotes(c, w, step, PreparationError);
    } else if now >= r.approvalDeadline {
      OverwriteExpires(c, w, now);
    } else if preparation == Ready {
      ReceiverPrepares(c, w, step, Staged, now);
    } else {
      var error := if preparation == AlreadyExists then NameTaken else PreparationError;
      assert step.record == r.(error := Some(error));
      assert step.actions == if preparation == Lost then [LoseFile(Staged), DropStaging] else [DropStaging];
      ReceiverNotes(c, w, step, error);
    }
  }

  /** The echoed acceptance makes the receiver ask for what it needs next. */
  lemma ReceiverPulls(c: Setup, w: World, step: Step)
    requires Inv(c, w) && w.receiver.Some? && w.receiver.value.phase == Transferring && w.senderStreamed
    requires
      var r := w.receiver.value;
      step.record == r.(retryEvent := Some(RequestAt(r.transferred)), lastActivity := step.record.lastActivity, retries := step.record.retries)
    requires step.actions == [Send(RequestAt(w.receiver.value.transferred))]
    ensures GoodReceiverStep(c, w, step)
  {
    SendsLeaveDisk(w.disk, step.actions);
    assert step.actions[0] in step.actions;
    var next := Advance(w, step);
    assert next == w.(receiver := next.receiver, toSender := next.toSender);
  }

  lemma ReceiverDecides(c: Setup, w: World, decision: ManualDecision, now: nat)
    requires Inv(c, w) && w.receiver.Some? && FitForReceiver(c, w, Answer(decision))
    ensures GoodReceiverStep(c, w, Decide(w.receiver.value, decision, now))
  {
    var r := w.receiver.value;
    if r.phase == Transferring && decision == Accepted {
      ReceiverPulls(c, w, Decide(r, decision, now));
    } else {
      ReceiverStays(c, w, Decide(r, decision, now));
    }
  }

  lemma GridContinues(c: Setup, offset: nat)
    requires OnGrid(c, offset) && offset < |c.source|
    ensures OnGrid(c, Following(c, offset)) && offset < Following(c, offset)
  {
  }

  /** The effect of one whole chunk: `end` bytes of the source are on the disk and hashed. */
  lemma ReceiverGrows(c: Setup, w: World, end: nat, step: Step)
    requires Inv(c, w) && w.receiver.Some? && w.receiver.value.phase == Transferring && w.senderStreamed
    requires w.receiver.value.transferred <= end <= w.served && OnGrid(c, end) && (!w.evicted ==> end == w.served)
    requires
      var r := w.receiver.value;
      step.record == r.(transferred := end, retryEvent := Some(RequestAt(end)),
                        incoming := Some(r.incoming.value.(offset := end, hashed := c.source[..end])),
                        lastActivity := step.record.lastActivity, retries := step.record.retries)
    requires Sent(step.actions) == {RequestAt(end)} && RemoveFile(Target) !in step.actions && LoseFile(Target) !in step.actions
    requires PerformAll(w.disk, step.actions) == Put(w.disk, w.receiver.value.incoming.value.place, Some(c.source[..end]))
    ensures GoodReceiverStep(c, w, step)
  {
    var next := Advance(w, step);
    assert next == w.(receiver := next.receiver, toSender := next.toSender, disk := next.disk);
    assert Lockstep(c, next);
  }

  /** Writing the one chunk that fits brings the receiver level with the sender. */
  lemma ReceiverWrites(c: Setup, w: World, offset: nat, now: nat, io: SinkIo)
    requires Inv(c, w) && w.receiver.Some? && offset < |c.source| && FitForReceiver(c, w, CorrectAnswer(c, offset))
    requires var r := w.receiver.value; r.phase == Transferring && r.transferred == offset
    requires io.shortWrite.None?
    requires w.receiver.value.earlyDigest.Some? ==> Following(c, offset) < |c.source|
    ensures GoodReceiverStep(c, w, WriteChunk(w.receiver.value, offset, CorrectAnswer(c, offset).data, now, c.hash, io))
  {
    var r, data, end := w.receiver.value, CorrectAnswer(c, offset).data, Following(c, offset);
    ExpectedChunkShape(r, data, now, c.hash, io);
    ReceiverTakesWhole(c, w, offset, now);
  }

  lemma ReceiverTakesWhole(c: Setup, w: World, offset: nat, now: nat)
    requires Inv(c, w) && w.receiver.Some? && offset < |c.source| && FitForReceiver(c, w, CorrectAnswer(c, offset))
    requires var r := w.receiver.value; r.phase == Transferring && r.transferred == offset
    ensures
      var r, data, end := w.receiver.value, CorrectAnswer(c, offset).data, Following(c, offset);
      GoodReceiverStep(c, w, Step(Kept(r, data, now).(retryEvent := Some(RequestAt(end))), [Append(r.incoming.value.place, data), Send(RequestAt(end))]))
  {
    var r, data, end := w.receiver.value, CorrectAnswer(c, offset).data, Following(c, offset);
    GridContinues(c, offset);
    WrittenChunk(c, w, offset, now);
    ReceiverGrows(c, w, end, Step(Kept(r, data, now).(retryEvent := Some(RequestAt(end))), [Append(r.incoming.value.place, data), Send(RequestAt(end))]));
  }

  /** What a whole chunk does to the file and to the record. */
  lemma WrittenChunk(c: Setup, w: World, offset: nat, now: nat)
    requires DiskInv(c, w) && w.receiver.Some? && w.receiver.value.phase == Transferring && ReceiverInv(c, w, w.receiver.value)
    requires offset == w.receiver.value.transferred < |c.source|
    ensures
      var r, data, end := w.receiver.value, CorrectAnswer(c, offset).data, Following(c, offset);
      var step := Step(Kept(r, data, now).(retryEvent := Some(RequestAt(end))), [Append(r.incoming.value.place, data), Send(RequestAt(end))]);
      && PerformAll(w.disk, step.actions) == Put(w.disk, r.incoming.value.place, Some(c.source[..end]))
      && Sent(step.actions) == {RequestAt(end)} && Kept(r, data, now).incoming.value.hashed == c.source[..end]
  {
    var r, data, end := w.receiver.value, CorrectAnswer(c, offset).data, Following(c, offset);
    assert c.source[..offset] + data == c.source[..end];
    PerformTwo(w.disk, Append(r.incoming.value.place, data), Send(RequestAt(end)));
    assert Send(RequestAt(end)) in [Append(r.incoming.value.place, data), Send(RequestAt(end))];
  }

  lemma ExpectedChunkShape(r: Record, data: Bytes, now: nat, hash: Bytes -> Digest, io: SinkIo)
    requires r.direction == Receiving && r.phase == Transferring && r.incoming.Some? && io.shortWrite.None?
    requires r.incoming.value.offset == r.transferred && r.incoming.value.expected == r.size
    requires 0 < |data| <= MAX_CHUNK && r.transferred + |data| <= r.size <= U64_MAX
    requires r.transferred + |data| < r.size || r.earlyDigest.None?
    ensures
      var pull := RequestAt(r.transferred + |data|);
      WriteChunk(r, r.transferred, data, now, hash, io) ==
        Step(Kept(r, data, now).(retryEvent := Some(pull)), [Append(r.incoming.value.place, data), Send(pull)])
  {
  }

  /** A receiver that ends: nothing of it is left on the disk but a completed target. */
  lemma ReceiverEnds(c: Setup, w: World, step: Step)
    requires Inv(c, w) && w.receiver.Some? && w.receiver.value.phase == Transferring && IsTerminal(step.record.phase)
    requires step.record.direction == Receiving && step.record.name == c.name && step.record.size == |c.source|
    requires step.record.transferred == |c.source| == w.served
    requires step.record.outgoing.None? && step.record.incoming.None? && !step.record.replacement
    requires step.record.earlyDigest.Some? ==> w.evicted && step.record.earlyDigest.value == c.hash(c.source)
    requires Blameless(step.record.error)
    requires step.record.finalResult == if step.record.phase == Completed then Some((true, None)) else None
    requires step.record.retryEvent == Some(OfferResponse(step.record)) && step.record.phase in {Completed, Failed}
    requires Sent(step.actions) == {OfferResponse(step.record)}
    requires PerformAll(w.disk, step.actions)
          == Disk(if step.record.phase == Completed then Some(c.source) else Settled(c, w), None)
    requires RemovesOwn(w, step) && LoseFile(Target) !in step.actions
    ensures GoodReceiverStep(c, w, step)
  {
    var next := Advance(w, step);
    assert next == w.(receiver := next.receiver, toSender := next.toSender, disk := next.disk,
                      receiverCompleted := next.receiverCompleted);
    assert OnGrid(c, |c.source|);
  }

  /** The disk operations of finishing: undo, swap the staged copy in, or nothing. */
  function FinishEffects(replacement: bool, io: SinkIo): seq<Action> {
    if !io.syncs then (if replacement then [RemoveFile(Staged), DropStaging] else [RemoveFile(Target)])
    else if !replacement then []
    else if io.renames then [RenameStaged, DropStaging]
    else [DropStaging]
  }

  lemma FinishShape(r: Record, digest: Digest, now: nat, hash: Bytes -> Digest, io: SinkIo)
    requires r.incoming.Some? && hash(r.incoming.value.hashed) == digest && r.finalResult.None?
    requires r.incoming.value.offset == r.incoming.value.expected == r.size && !r.incoming.value.finished
    requires r.incoming.value.place == if r.replacement then Staged else Target
    ensures
      var step := FinishReceiver(r, digest, now, hash, io);
      && step.actions == FinishEffects(r.replacement, io) + [Send(OfferResponse(step.record))]
      && step.record.phase == (if io.syncs && (r.replacement ==> io.renames) then Completed else Failed)
  {
  }

  lemma FinishDisk(disk: Disk, replacement: bool, io: SinkIo)
    ensures PerformAll(disk, FinishEffects(replacement, io)) ==
            if !io.syncs then (if replacement then disk.(staged := None) else disk.(target := None))
            else if !replacement then disk
            else if io.renames then Disk(disk.staged, None)
            else disk.(staged := None)
  {
    var effects := FinishEffects(replacement, io);
    if |effects| == 2 {
      PerformTwo(disk, effects[0], effects[1]);
    } else if |effects| == 1 {
      PerformTwo(disk, effects[0], DropStaging);
    }
  }

  /** With every byte written, the sender's digest is the digest of what was written. */
  lemma ReceiverFinishes(c: Setup, w: World, r: Record, prefix: seq<Action>, now: nat, io: SinkIo)
    requires Inv(c, w) && w.receiver.Some? && w.receiver.value.phase == Transferring && w.served == |c.source|
    requires w.receiver.value.replacement == r.replacement
    requires r.direction == Receiving && r.name == c.name && r.transferred == r.size == |c.source|
    requires r.outgoing.None? && Blameless(r.error) && r.phase == Transferring && r.finalResult.None?
    requires r.earlyDigest.Some? ==> w.evicted && r.earlyDigest.value == c.hash(c.source)
    requires r.incoming == Some(Incoming(if r.replacement then Staged else Target, r.size, r.size, c.source, false))
    requires forall a :: a in prefix ==> a.Append?
    requires PerformAll(w.disk, prefix) == Put(w.disk, r.incoming.value.place, Some(c.source))
    ensures
      var step := FinishReceiver(r, c.hash(c.source), now, c.hash, io);
      GoodReceiverStep(c, w, step.(actions := prefix + step.actions))
  {
    var finished := FinishReceiver(r, c.hash(c.source), now, c.hash, io);
    FinishedDisk(c, w, r, prefix, now, io);
    FinishedRecord(r, c.hash(c.source), now, c.hash, io);
    ReceiverEnds(c, w, finished.(actions := prefix + finished.actions));
  }

  /** What finishing sends and leaves on the disk. */
  lemma FinishedDisk(c: Setup, w: World, r: Record, prefix: seq<Action>, now: nat, io: SinkIo)
    requires DiskInv(c, w) && w.receiver.Some? && w.receiver.value.phase == Transferring && w.receiver.value.replacement == r.replacement
    requires r.finalResult.None? && r.size == |c.source|
    requires r.incoming == Some(Incoming(if r.replacement then Staged else Target, r.size, r.size, c.source, false))
    requires forall a :: a in prefix ==> a.Append?
    requires PerformAll(w.disk, prefix) == Put(w.disk, r.incoming.value.place, Some(c.source))
    ensures
      var finished := FinishReceiver(r, c.hash(c.source), now, c.hash, io);
      var step := finished.(actions := prefix + finished.actions);
      && PerformAll(w.disk, step.actions) == Disk(if step.record.phase == Completed then Some(c.source) else Settled(c, w), None)
      && Sent(step.actions) == {OfferResponse(step.record)}
      && RemovesOwn(w, step) && LoseFile(Target) !in step.actions
  {
    var finished := FinishReceiver(r, c.hash(c.source), now, c.hash, io);
    var written, effects := PerformAll(w.disk, prefix), FinishEffects(r.replacement, io);
    FinishShape(r, c.hash(c.source), now, c.hash, io);
    FinishDisk(written, r.replacement, io);
    SettlingDisk(w.disk, prefix, effects, OfferResponse(finished.record));
    FinishRemovesOwn(w, prefix, io, finished.(actions := prefix + finished.actions));
  }

  lemma FinishRemovesOwn(w: World, prefix: seq<Action>, io: SinkIo, step: Step)
    requires w.receiver.Some? && w.receiver.value.phase == Transferring && forall a :: a in prefix ==> a.Append?
    requires step.actions == prefix + (FinishEffects(w.receiver.value.replacement, io) + [Send(OfferResponse(step.record))])
    requires !io.syncs ==> step.record.phase == Failed
    ensures RemovesOwn(w, step) && LoseFile(Target) !in step.actions
  {
    var effects := FinishEffects(w.receiver.value.replacement, io);
    assert forall a :: a in step.actions ==> a.Append? || a.Send? || a in effects;
  }

  /** What becomes of the record, however finishing goes. */
  lemma FinishedRecord(r: Record, digest: Digest, now: nat, hash: Bytes -> Digest, io: SinkIo)
    requires r.incoming.Some? && hash(r.incoming.value.hashed) == digest && r.finalResult.None? && r.direction == Receiving
    requires r.incoming.value.offset == r.incoming.value.expected == r.size && Blameless(r.error)
    ensures
      var n := FinishReceiver(r, digest, now, hash, io).record;
      && n.direction == Receiving && n.name == r.name && n.size == r.size && n.transferred == r.transferred
      && n.outgoing.None? && n.incoming.None? && !n.replacement && n.earlyDigest == r.earlyDigest && Blameless(n.error)
      && (n.phase == Completed || n.phase == Failed) && n.finalResult == (if n.phase == Completed then Some((true, None)) else None)
      && n.retryEvent == Some(OfferResponse(n))
  {
  }

  lemma SettlingDisk(disk: Disk, prefix: seq<Action>, effects: seq<Action>, last: Message)
    requires forall a :: a in prefix + effects ==> !a.Send?
    ensures PerformAll(disk, prefix + (effects + [Send(last)])) == PerformAll(PerformAll(disk, prefix), effects)
    ensures Sent(prefix + (effects + [Send(last)])) == {last}
  {
    PerformInOrder(disk, prefix, effects + [Send(last)]);
    PerformInOrder(PerformAll(disk, prefix), effects, [Send(last)]);
    PerformTwo(PerformAll(PerformAll(disk, prefix), effects), Send(last), DropStaging);
    assert Send(last) in prefix + (effects + [Send(last)]);
  }

  lemma PartialThenDrop(c: Setup, w: World, partial: Bytes)
    requires DiskInv(c, w) && w.receiver.Some? && ReceiverInv(c, w, w.receiver.value) && w.receiver.value.phase == Transferring
    ensures
      var r := w.receiver.value;
      PerformAll(Perform(w.disk, Append(r.incoming.value.place, partial)), DropActions(r)) == PerformAll(w.disk, DropActions(r))
  {
    var r := w.receiver.value;
    var drop := DropActions(r);
    DropRestores(c, w);
    if r.replacement {
      assert drop == [RemoveFile(Staged), DropStaging];
      PerformTwo(Perform(w.disk, Append(Staged, partial)), RemoveFile(Staged), DropStaging);
    } else {
      assert drop == [RemoveFile(Target)];
      PerformTwo(Perform(w.disk, Append(Target, partial)), RemoveFile(Target), DropStaging);
    }
  }

  /** A write that fails part way is undone with the rest. */
  lemma ReceiverAbandons(c: Setup, w: World, partial: Bytes, now: nat)
    requires Inv(c, w) && w.receiver.Some? && w.receiver.value.phase == Transferring
    ensures
      var failed := Fail(w.receiver.value, WriteError, now);
      GoodReceiverStep(c, w, failed.(actions := [Append(w.receiver.value.incoming.value.place, partial)] + failed.actions))
  {
    var failed := Fail(w.receiver.value, WriteError, now);
    AbandonedDisk(c, w, partial, now);
    ReceiverSettles(c, w, Failed, Some(WriteError), now,
                    failed.(actions := [Append(w.receiver.value.incoming.value.place, partial)] + failed.actions));
  }

  lemma AbandonedDisk(c: Setup, w: World, partial: Bytes, now: nat)
    requires DiskInv(c, w) && w.receiver.Some? && w.receiver.value.phase == Transferring && ReceiverInv(c, w, w.receiver.value)
    ensures
      var r := w.receiver.value;
      var failed := Fail(r, WriteError, now);
      var step := failed.(actions := [Append(r.incoming.value.place, partial)] + failed.actions);
      && PerformAll(w.disk, step.actions) == PerformAll(w.disk, DropActions(r))
      && Sent(step.actions) == {Rejection(TransferFailed)}
      && RemovesOwn(w, step) && LoseFile(Target) !in step.actions
  {
    var r := w.receiver.value;
    var append := Append(r.incoming.value.place, partial);
    PartialThenDrop(c, w, partial);
    PerformTwo(w.disk, append, DropStaging);
    SettlingDisk(w.disk, [append], DropActions(r), Rejection(TransferFailed));
    var failed := Fail(r, WriteError, now);
    AbandonRemovesOwn(c, w, append, failed.(actions := [append] + failed.actions));
  }

  lemma AbandonRemovesOwn(c: Setup, w: World, append: Action, step: Step)
    requires w.receiver.Some? && ReceiverInv(c, w, w.receiver.value) && append.Append? && step.record.phase == Failed
    requires step.actions == [append] + (DropActions(w.receiver.value) + [Send(Rejection(TransferFailed))])
    ensures RemovesOwn(w, step) && LoseFile(Target) !in step.actions
  {
    var drop := DropActions(w.receiver.value);
    assert forall a :: a in step.actions ==> a == append || a.Send? || a in drop;
  }

  lemma ReceiverTakesLastChunk(c: Setup, w: World, offset: nat, now: nat, io: SinkIo)
    requires Inv(c, w) && w.receiver.Some? && offset < |c.source| && FitForReceiver(c, w, CorrectAnswer(c, offset))
    requires var r := w.receiver.value; r.phase == Transferring && r.transferred == offset && r.earlyDigest.Some?
    requires io.shortWrite.None? && Following(c, offset) == |c.source|
    ensures GoodReceiverStep(c, w, WriteChunk(w.receiver.value, offset, CorrectAnswer(c, offset).data, now, c.hash, io))
  {
    var r, data := w.receiver.value, CorrectAnswer(c, offset).data;
    LastChunkShape(r, data, now, c.hash, io);
    ReceiverTakesRest(c, w, offset, now, io);
  }

  lemma LastChunkShape(r: Record, data: Bytes, now: nat, hash: Bytes -> Digest, io: SinkIo)
    requires r.direction == Receiving && r.phase == Transferring && r.incoming.Some? && io.shortWrite.None? && r.earlyDigest.Some?
    requires r.incoming.value.offset == r.transferred && r.incoming.value.expected == r.size
    requires 0 < |data| <= MAX_CHUNK && r.transferred + |data| == r.size <= U64_MAX
    ensures
      var finished := FinishReceiver(Kept(r, data, now).(earlyDigest := None), r.earlyDigest.value, now, hash, io);
      WriteChunk(r, r.transferred, data, now, hash, io) == finished.(actions := [Append(r.incoming.value.place, data)] + finished.actions)
  {
  }

  lemma ReceiverTakesRest(c: Setup, w: World, offset: nat, now: nat, io: SinkIo)
    requires Inv(c, w) && w.receiver.Some? && offset < |c.source| && FitForReceiver(c, w, CorrectAnswer(c, offset))
    requires var r := w.receiver.value; r.phase == Transferring && r.transferred == offset && r.earlyDigest.Some?
    requires Following(c, offset) == |c.source|
    ensures
      var r, data := w.receiver.value, CorrectAnswer(c, offset).data;
      var finished := FinishReceiver(Kept(r, data, now).(earlyDigest := None), r.earlyDigest.value, now, c.hash, io);
      GoodReceiverStep(c, w, finished.(actions := [Append(r.incoming.value.place, data)] + finished.actions))
  {
    var r, data := w.receiver.value, CorrectAnswer(c, offset).data;
    var append := Append(r.incoming.value.place, data);
    assert c.source[..offset] + data == c.source;
    PerformTwo(w.disk, append, DropStaging);
    ReceiverFinishes(c, w, Kept(r, data, now).(earlyDigest := None), [append], now, io);
  }

  lemma ReceiverTakesChunk(c: Setup, w: World, m: Message, now: nat, io: SinkIo)
    requires Inv(c, w) && w.receiver.Some? && m.Chunk? && FitForReceiver(c, w, m)
    ensures GoodReceiverStep(c, w, WriteChunk(w.receiver.value, m.offset, m.data, now, c.hash, io))
  {
    var r := w.receiver.value;
    if r.phase != Transferring || m.offset != r.transferred {
      ReceiverIgnoresChunk(c, w, m, now, io);
    } else if io.shortWrite.Some? {
      ReceiverAbandons(c, w, m.data[..Min(io.shortWrite.value, |m.data|)], now);
    } else if Following(c, m.offset) == r.size && r.earlyDigest.Some? {
      ReceiverTakesLastChunk(c, w, m.offset, now, io);
    } else {
      ReceiverWrites(c, w, m.offset, now, io);
    }
  }

  /** A duplicate never overlaps: it lies wholly before what is already written. */
  lemma ReceiverIgnoresChunk(c: Setup, w: World, m: Message, now: nat, io: SinkIo)
    requires Inv(c, w) && w.receiver.Some? && m.Chunk? && FitForReceiver(c, w, m)
    requires w.receiver.value.phase != Transferring || m.offset != w.receiver.value.transferred
    ensures GoodReceiverStep(c, w, WriteChunk(w.receiver.value, m.offset, m.data, now, c.hash, io))
  {
    var r := w.receiver.value;
    if r.phase == Transferring {
      if m.offset < r.transferred {
        GridApart(c, m.offset, r.transferred);
      }
      var step := Step(r, [Send(RequestAt(r.transferred))]);
      assert WriteChunk(r, m.offset, m.data, now, c.hash, io) == step;
      ReceiverStays(c, w, step);
    } else {
      ReceiverStays(c, w, WriteChunk(r, m.offset, m.data, now, c.hash, io));
    }
  }

  lemma GridApart(c: Setup, earlier: nat, later: nat)
    requires OnGrid(c, earlier) && OnGrid(c, later) && earlier < later
    ensures Following(c, earlier) <= later
  {
  }

  lemma ReceiverNotesDigest(c: Setup, w: World, now: nat, io: SinkIo)
    requires Inv(c, w) && w.receiver.Some? && w.senderStreamed
    requires w.receiver.value.phase == Transferring && w.receiver.value.transferred != |c.source| && w.evicted
    ensures GoodReceiverStep(c, w, CompleteReceiver(w.receiver.value, c.hash(c.source), now, c.hash, io))
  {
    var r := w.receiver.value;
    var step := Step(r.(earlyDigest := Some(c.hash(c.source))), [Send(RequestAt(r.transferred))]);
    assert CompleteReceiver(r, c.hash(c.source), now, c.hash, io) == step;
    SendsLeaveDisk(w.disk, step.actions);
    var next := Advance(w, step);
    assert next == w.(receiver := next.receiver, toSender := next.toSender);
  }

  lemma ReceiverTakesDigest(c: Setup, w: World, m: Message, now: nat, io: SinkIo)
    requires Inv(c, w) && w.receiver.Some? && m.Complete? && FitForReceiver(c, w, m)
    ensures GoodReceiverStep(c, w, CompleteReceiver(w.receiver.value, m.sha256, now, c.hash, io))
  {
    var r := w.receiver.value;
    if r.phase != Transferring {
      ReceiverStays(c, w, CompleteReceiver(r, m.sha256, now, c.hash, io));
    } else if r.transferred == r.size {
      assert c.source[..r.size] == c.source;
      var finished := FinishReceiver(r, m.sha256, now, c.hash, io);
      assert finished.(actions := [] + finished.actions) == finished;
      ReceiverFinishes(c, w, r, [], now, io);
    } else {
      ReceiverNotesDigest(c, w, now, io);
    }
  }

  lemma ReceiverHearsResult(c: Setup, w: World, success: bool, reason: Option<Reason>, now: nat)
    requires Inv(c, w) && w.receiver.Some?
    ensures GoodReceiverStep(c, w, ReceiveResult(w.receiver.value, success, reason, now))
  {
    var r := w.receiver.value;
    var step := ReceiveResult(r, success, reason, now);
    if step.record == r {
      ReceiverStays(c, w, step);
    } else {
      ReceiverSettlesSending(c, w, Failed, Some(Remote(reason)), now, step, Cancel);
    }
  }

  lemma ReceiverHearsCancel(c: Setup, w: World, now: nat)
    requires Inv(c, w) && w.receiver.Some?
    ensures GoodReceiverStep(c, w, CancelledByPeer(w.receiver.value, now))
  {
    var r := w.receiver.value;
    var step := CancelledByPeer(r, now);
    if step.record == r {
      ReceiverStays(c, w, step);
    } else {
      ReceiverSettlesSending(c, w, Cancelled, None, now, step, Cancel);
    }
  }

  lemma ReceiverHearsOffer(c: Setup, w: World)
    requires Inv(c, w) && w.receiver.Some?
    ensures GoodReceiverStep(c, w, RepeatedOffer(w.receiver.value, c.name, |c.source|))
  {
    ReceiverStays(c, w, RepeatedOffer(w.receiver.value, c.name, |c.source|));
  }

  lemma ReceiverHandles(c: Setup, w: World, m: Message, now: nat, io: SinkIo)
    requires Inv(c, w) && w.receiver.Some? && m in w.toReceiver
    ensures GoodReceiverStep(c, w, Handle(w.receiver.value, m, now, [], c.hash, NoSource(), io))
  {
    assert FitForReceiver(c, w, m);
    match m
    case Offer(_, _) => ReceiverHearsOffer(c, w);
    case Answer(decision) => ReceiverDecides(c, w, decision, now);
    case Chunk(_, _) => ReceiverTakesChunk(c, w, m, now, io);
    case Complete(_) => ReceiverTakesDigest(c, w, m, now, io);
    case Result(success, reason) => ReceiverHearsResult(c, w, success, reason, now);
    case Cancel => ReceiverHearsCancel(c, w, now);
  }

  lemma ReceiverTicks(c: Setup, w: World, now: nat)
    requires Inv(c, w) && w.receiver.Some?
    ensures GoodReceiverStep(c, w, TickRecord(w.receiver.value, now))
  {
    var r := w.receiver.value;
    var step := TickRecord(r, now);
    if step.record.phase == r.phase {
      ReceiverStays(c, w, step);
    } else {
      var error := if r.phase == Transferring then TimedOut else OfferExpired;
      assert step == Step(Terminal(r, Failed, Some(error), now), [Send(Cancel)] + DropActions(r));
      ReceiverSettlesSending(c, w, Failed, Some(error), now, step, Cancel);
    }
  }

  lemma ReceiverCancels(c: Setup, w: World, now: nat)
    requires Inv(c, w) && w.receiver.Some?
    ensures GoodReceiverStep(c, w, CancelledByUser(w.receiver.value, now))
  {
    var r := w.receiver.value;
    if IsTerminal(r.phase) {
      ReceiverStays(c, w, CancelledByUser(r, now));
    } else {
      ReceiverSettlesSending(c, w, Cancelled, None, now, CancelledByUser(r, now), Cancel);
    }
  }

  lemma ReceiverLosesPeer(c: Setup, w: World, now: nat)
    requires Inv(c, w) && w.receiver.Some?
    ensures GoodReceiverStep(c, w, Reroute(w.receiver.value, None, now))
  {
    var r := w.receiver.value;
    if IsTerminal(r.phase) {
      ReceiverStays(c, w, Reroute(r, None, now));
    } else {
      ReceiverSettlesSending(c, w, Failed, Some(PeerDisconnected), now, Reroute(r, None, now), Cancel);
    }
  }

  lemma ReceiverDeclines(c: Setup, w: World, now: nat)
    requires Inv(c, w) && w.receiver.Some?
    ensures GoodReceiverStep(c, w, DeclinedByUser(w.receiver.value, now))
  {
    var r := w.receiver.value;
    if r.phase != AwaitingAcceptance {
      ReceiverStays(c, w, DeclinedByUser(r, now));
    } else {
      ReceiverSettlesSending(c, w, Refused, None, now, DeclinedByUser(r, now), Answer(Declined));
    }
  }

  /** The same for an offer accepted automatically, which then fails. */
  lemma ReceiverLosesFirstFile(c: Setup, w: World, now: nat)
    requires Inv(c, w) && w.offered && w.receiver.None? && w.disk.target.None?
    ensures GoodReceiverStep(c, w, FirstOffer(NewReceiver(0, "", 1, c.name, |c.source|, now), true, now, Lost))
  {
    var step := FirstOffer(NewReceiver(0, "", 1, c.name, |c.source|, now), true, now, Lost);
    assert step.actions == [LoseFile(Target), Send(Rejection(DestinationUnavailable))];
    LossIsShown(c, w, step);
  }

  lemma LossIsShown(c: Setup, w: World, step: Step)
    requires Inv(c, w) && w.offered && w.receiver.None? && w.disk.target.None? && IsNew(c, w, step.record)
    requires step.actions == [LoseFile(Target), Send(Rejection(DestinationUnavailable))]
    ensures GoodReceiverStep(c, w, step)
  {
    PerformTwo(w.disk, LoseFile(Target), Send(Rejection(DestinationUnavailable)));
    assert LoseFile(Target) in step.actions;
    var next := Advance(w, step);
    assert next == w.(receiver := next.receiver, toSender := next.toSender, disk := Disk(Some([]), None), leftover := Some([]));
  }

  /** A record as a first offer leaves it when no file is open. */
  ghost predicate IsNew(c: Setup, w: World, r: Record) {
    && r.direction == Receiving && r.name == c.name && r.size == |c.source| && r.transferred == 0
    && (r.phase == AwaitingAcceptance || r.phase == Failed) && Blameless(r.error)
    && r.outgoing.None? && r.incoming.None? && !r.replacement && r.earlyDigest.None?
    && (r.finalResult.Some? ==> r.phase == Failed && !r.finalResult.value.0 && r.finalResult.value.1 != Some(NotAccepted))
    && (r.retryEvent.Some? ==> FitForSender(c, w, r.retryEvent.value))
  }

  lemma ReceiverMeetsOffer(c: Setup, w: World, automatic: bool, now: nat, preparation: Preparation)
    requires Inv(c, w) && w.offered && w.receiver.None? && Creatable(w, preparation)
    ensures GoodReceiverStep(c, w, FirstOffer(NewReceiver(0, "", 1, c.name, |c.source|, now), automatic, now, preparation))
  {
    var r := NewReceiver(0, "", 1, c.name, |c.source|, now);
    var step := FirstOffer(r, automatic, now, preparation);
    if automatic && preparation == Ready {
      ReceiverPrepares(c, w, step, Target, now);
    } else if automatic && preparation == Lost {
      ReceiverLosesFirstFile(c, w, now);
    } else {
      ReceiverIsShown(c, w, step);
    }
  }

  /** A new record that only sends leaves the disk alone. */
  lemma ReceiverIsShown(c: Setup, w: World, step: Step)
    requires Inv(c, w) && w.offered && w.receiver.None?
    requires forall a :: a in step.actions ==> a.Send? && FitForSender(c, w, a.message)
    requires IsNew(c, w, step.record)
    ensures GoodReceiverStep(c, w, step)
  {
    SendsLeaveDisk(w.disk, step.actions);
    var next := Advance(w, step);
    assert next == w.(receiver := next.receiver, toSender := next.toSender);
  }

  // ----- Every run -----

  lemma StartKeeps(c: Setup)
    requires |c.source| <= U64_MAX
    ensures Inv(c, Start(c))
  {
  }

  lemma OfferKeeps(c: Setup, w: World, now: nat)
    requires Inv(c, w) && !w.offered
    ensures Inv(c, Apply(c, w, MakeOffer(now)))
  {
    var step := Step(NewSender(0, "", 1, c.name, |c.source|, now), [Send(Offer(c.name, |c.source|))]);
    assert Sent(step.actions) == {Offer(c.name, |c.source|)} by {
      assert Send(Offer(c.name, |c.source|)) in step.actions;
    }
    var next := Apply(c, w, MakeOffer(now));
    assert next == w.(offered := true, sender := next.sender, toReceiver := {Offer(c.name, |c.source|)});
    assert forall m :: m in next.toReceiver ==> FitForReceiver(c, next, m);
  }

  lemma ReceiverStepIsGood(c: Setup, w: World, e: Event)
    requires Inv(c, w) && Enabled(c, w, e) && ReceiverStep(c, w, e).Some?
    ensures GoodReceiverStep(c, w, ReceiverStep(c, w, e).value)
  {
    match e
    case DeliverToReceiver(m, now, _, automatic, preparation, io) =>
      if w.receiver.Some? {
        ReceiverHandles(c, w, m, now, io);
      } else {
        assert FitForReceiver(c, w, m) && w.offered;
        ReceiverMeetsOffer(c, w, automatic, now, preparation);
      }
    case UserAccepts(now, preparation) => ReceiverAccepts(c, w, now, preparation);
    case UserOverwrites(now, made, preparation, _) => ReceiverOverwrites(c, w, now, made, preparation);
    case UserDeclines(now) => ReceiverDeclines(c, w, now);
    case UserCancels(_, now, _) => ReceiverCancels(c, w, now);
    case Tick(_, now, _) => ReceiverTicks(c, w, now);
    case Disconnect(_, now, _) => ReceiverLosesPeer(c, w, now);
  }

  lemma SenderStepIsGood(c: Setup, w: World, e: Event)
    requires Inv(c, w) && Enabled(c, w, e) && w.sender.Some? && SenderStep(c, w, e).Some? && !e.MakeOffer?
    ensures GoodSenderStep(c, w, SenderStep(c, w, e).value)
  {
    match e
    case DeliverToSender(m, now, io) =>
      assert FitForSender(c, w, m);
      SenderHandles(c, w, m, now, io);
    case UserCancels(_, now, _) => SenderStops(c, w, now);
    case Tick(_, now, _) => SenderTicks(c, w, now);
    case Disconnect(_, now, _) => SenderStops(c, w, now);
  }

  /** More fitting datagrams on the network change nothing else. */
  lemma MoreMailKeeps(c: Setup, w: World, toSender: set<Message>, toReceiver: set<Message>)
    requires Inv(c, w) && w.offered
    requires forall x :: x in toSender ==> FitForSender(c, w, x)
    requires forall x :: x in toReceiver ==> FitForReceiver(c, w, x)
    ensures Inv(c, w.(toSender := w.toSender + toSender, toReceiver := w.toReceiver + toReceiver))
  {
    var v := w.(toSender := w.toSender + toSender, toReceiver := w.toReceiver + toReceiver);
    assert forall x :: FitForSender(c, w, x) ==> FitForSender(c, v, x);
    assert forall x :: FitForReceiver(c, w, x) ==> FitForReceiver(c, v, x);
  }

  lemma ReplyKeeps(c: Setup, w: World, e: Event)
    requires Inv(c, w) && w.offered && Enabled(c, w, e) && ReceiverStep(c, w, e).None? && SenderStep(c, w, e).None?
    ensures Inv(c, Reply(w, e))
  {
    if e.DeliverToReceiver? {
      var sent := if e.message.Offer? then {Rejection(TooManyTransfers)} else Sent(ReplyToUnknown(e.message));
      assert FitForReceiver(c, w, e.message);
      MoreMailKeeps(c, w, sent, {});
      assert Reply(w, e) == w.(toSender := w.toSender + sent, toReceiver := w.toReceiver + {});
    } else if e.DeliverToSender? {
      var sent := Sent(ReplyToUnknown(e.message));
      assert FitForSender(c, w, e.message);
      MoreMailKeeps(c, w, {}, sent);
      assert Reply(w, e) == w.(toSender := w.toSender + {}, toReceiver := w.toReceiver + sent);
    }
  }

  lemma EvictionKeeps(c: Setup, w: World, site: Site)
    requires Inv(c, w) && Enabled(c, w, Evict(site))
    ensures Inv(c, Apply(c, w, Evict(site)))
  {
  }

  /** Where there is a record or a datagram, there was an offer. */
  lemma OfferedBefore(c: Setup, w: World, e: Event)
    requires Causal(c, w) && Enabled(c, w, e) && !e.MakeOffer?
    ensures w.offered
  {
  }

  /** The invariant survives every event, whatever is delivered and whatever fails. */
  lemma EventKeeps(c: Setup, w: World, e: Event)
    requires Inv(c, w) && Enabled(c, w, e)
    ensures Inv(c, Apply(c, w, e))
  {
    if e.Evict? {
      EvictionKeeps(c, w, e.site);
    } else if e.MakeOffer? {
      OfferKeeps(c, w, e.now);
    } else {
      OfferedBefore(c, w, e);
      if ReceiverStep(c, w, e).Some? {
        ReceiverStepIsGood(c, w, e);
        ReceiverMoveKeeps(c, w, ReceiverStep(c, w, e).value, Removes(e));
      } else if SenderStep(c, w, e).Some? {
        SenderStepIsGood(c, w, e);
        SenderMoveKeeps(c, w, SenderStep(c, w, e).value);
        assert w.(offered := true) == w;
      } else {
        ReplyKeeps(c, w, e);
      }
    }
  }

  lemma {:induction false} RunKeeps(c: Setup, events: seq<Event>, worlds: seq<World>, i: nat)
    requires |c.source| <= U64_MAX && IsRun(c, events, worlds) && i < |worlds|
    ensures Inv(c, worlds[i])
  {
    if i == 0 {
      StartKeeps(c);
    } else {
      RunKeeps(c, events, worlds, i - 1);
      assert StepsAt(c, events, worlds, i - 1);
      EventKeeps(c, worlds[i - 1], events[i - 1]);
    }
  }
}
