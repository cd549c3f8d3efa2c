/**
 What the two sides of a manual transfer can still bring about: an offer that is accepted in time can
 be completed, and a refusal or a cancellation reaches the other side.
 */
module ManualLiveness {
  import opened Common
  import opened ManualRecord
  import opened ManualNetwork
  import opened ManualInvariant
  import opened ManualSafety

  predicate SenderWaits(w: World) {
    SenderIn(w, Offering) || SenderIn(w, AwaitingAcceptance)
  }

  // ----- The acceptance reaches the sender -----

  /** A sender that waits takes the acceptance of a receiver that is ready, if it comes before the deadline. */
  lemma AcceptanceHeard(c: Setup, w: World, now: nat, io: SourceIo)
    requires Inv(c, w) && SenderWaits(w) && Answer(Accepted) in w.toSender && now < w.sender.value.approvalDeadline
    ensures
      var next := Apply(c, w, DeliverToSender(Answer(Accepted), now, io));
      SenderIn(next, Transferring) && next.receiver == w.receiver && next.evicted == w.evicted && Answer(Accepted) in next.toReceiver
  {
    var step := Handle(w.sender.value, Answer(Accepted), now, c.source, c.hash, io, NoSink());
    assert Send(Answer(Accepted)) in step.actions;
  }

  lemma AcceptanceIsOnItsWay(c: Setup, w: World)
    requires Inv(c, w) && !w.evicted && ReceiverIn(w, Transferring) && SenderWaits(w)
    ensures Answer(Accepted) in w.toSender
  {
    assert ReceiverInv(c, w, w.receiver.value) && SenderInv(c, w, w.sender.value);
    assert !FitForSender(c, w, RequestAt(w.receiver.value.transferred));
  }

  lemma AcceptanceStartsFrom(c: Setup, w: World, now: nat, io: SourceIo)
    requires Inv(c, w) && !w.evicted && ReceiverIn(w, Transferring) && SenderWaits(w)
    requires now < w.sender.value.approvalDeadline
    ensures Answer(Accepted) in w.toSender
    ensures
      var next := Apply(c, w, DeliverToSender(Answer(Accepted), now, io));
      SenderIn(next, Transferring) && ReceiverIn(next, Transferring) && Answer(Accepted) in next.toReceiver && CanComplete(c, next)
  {
    AcceptanceIsOnItsWay(c, w);
    AcceptanceHeard(c, w, now, io);
    EventKeeps(c, w, DeliverToSender(Answer(Accepted), now, io));
    CompletesFrom(c, Apply(c, w, DeliverToSender(Answer(Accepted), now, io)));
  }

  /**
   In every run: while the receiver is ready and the sender still waits, the acceptance is on its way;
   heard before the sender's deadline it starts the sender, which echoes it, and both sides can complete.
   */
  lemma AcceptanceStarts(c: Setup, events: seq<Event>, worlds: seq<World>, i: nat, now: nat, io: SourceIo)
    requires |c.source| <= U64_MAX && IsRun(c, events, worlds) && i < |worlds| && !worlds[i].evicted
    requires ReceiverIn(worlds[i], Transferring) && SenderWaits(worlds[i]) && now < worlds[i].sender.value.approvalDeadline
    ensures Answer(Accepted) in worlds[i].toSender
    ensures
      var next := Apply(c, worlds[i], DeliverToSender(Answer(Accepted), now, io));
      SenderIn(next, Transferring) && ReceiverIn(next, Transferring) && Answer(Accepted) in next.toReceiver && CanComplete(c, next)
  {
    RunKeeps(c, events, worlds, i);
    AcceptanceStartsFrom(c, worlds[i], now, io);
  }

  // ----- The user accepts -----

  /** The user accepts, in place or over an existing file, and the destination can be prepared. */
  predicate Accepts(e: Event) {
    || (e.UserAccepts? && e.preparation == Ready)
    || (e.UserOverwrites? && e.stagingMade && e.preparation == Ready)
  }

  lemma AcceptedStep(r: Record, e: Event)
    requires r.direction == Receiving && r.phase == AwaitingAcceptance && Accepts(e) && e.now < r.approvalDeadline
    ensures
      var step := if e.UserAccepts? then Accept(r, e.now, e.preparation) else Overwrite(r, e.now, e.stagingMade, e.preparation);
      step.record.phase == Transferring && |step.actions| == 2 && step.actions[1] == Send(Answer(Accepted))
  {
  }

  lemma UserIsHeard(c: Setup, w: World, e: Event)
    requires ReceiverIn(w, AwaitingAcceptance) && w.receiver.value.direction == Receiving
    requires Enabled(c, w, e) && Accepts(e) && e.now < w.receiver.value.approvalDeadline
    ensures
      var agreed := Apply(c, w, e);
      && ReceiverIn(agreed, Transferring) && Answer(Accepted) in agreed.toSender
      && agreed.sender == w.sender && agreed.evicted == w.evicted
  {
    AcceptedStep(w.receiver.value, e);
    RecordsAfter(c, w, e);
    var step := ReceiverStep(c, w, e).value;
    assert Send(Answer(Accepted)) in step.actions;
  }

  lemma ConsentCompletesFrom(c: Setup, w: World, e: Event, heard: nat)
    requires Inv(c, w) && !w.evicted && ReceiverIn(w, AwaitingAcceptance) && w.sender.Some? && !IsTerminal(w.sender.value.phase)
    requires Enabled(c, w, e) && Accepts(e) && e.now < w.receiver.value.approvalDeadline
    requires heard < w.sender.value.approvalDeadline
    ensures
      var agreed := Apply(c, w, e);
      ReceiverIn(agreed, Transferring) && Answer(Accepted) in agreed.toSender && CanComplete(c, agreed)
  {
    assert SenderInv(c, w, w.sender.value) && ReceiverInv(c, w, w.receiver.value);
    var agreed, hear := Apply(c, w, e), DeliverToSender(Answer(Accepted), heard, SourceIo(true, true));
    UserIsHeard(c, w, e);
    EventKeeps(c, w, e);
    AcceptanceStartsFrom(c, agreed, heard, SourceIo(true, true));
    CompleteLater(c, agreed, hear);
  }

  /**
   In every run: while the receiver asks its user and the sender has not given up, an acceptance in time
   makes the receiver ready, and both sides can complete.
   */
  lemma ConsentCompletes(c: Setup, events: seq<Event>, worlds: seq<World>, i: nat, e: Event, heard: nat)
    requires |c.source| <= U64_MAX && IsRun(c, events, worlds) && i < |worlds| && !worlds[i].evicted
    requires ReceiverIn(worlds[i], AwaitingAcceptance) && worlds[i].sender.Some? && !IsTerminal(worlds[i].sender.value.phase)
    requires Enabled(c, worlds[i], e) && Accepts(e) && e.now < worlds[i].receiver.value.approvalDeadline
    requires heard < worlds[i].sender.value.approvalDeadline
    ensures
      var agreed := Apply(c, worlds[i], e);
      ReceiverIn(agreed, Transferring) && Answer(Accepted) in agreed.toSender && CanComplete(c, agreed)
  {
    RunKeeps(c, events, worlds, i);
    ConsentCompletesFrom(c, worlds[i], e, heard);
  }

  // ----- From the offer to the end -----

  lemma {:induction false} LeadsKeeps(c: Setup, w: World, events: seq<Event>, end: World)
    requires Inv(c, w) && Leads(c, w, events, end)
    ensures Inv(c, end)
    decreases |events|
  {
    if events != [] {
      EventKeeps(c, w, events[0]);
      LeadsKeeps(c, Apply(c, w, events[0]), events[1..], end);
    }
  }

  /** After `first`, deliveries alone bring both sides to completion, with the source at the target. */
  ghost predicate ArrivesAfter(c: Setup, w: World, first: seq<Event>) {
    exists rest, end ::
      && Leads(c, w, first + rest, end) && Deliveries(rest)
      && SenderIn(end, Completed) && ReceiverIn(end, Completed) && end.disk.target == Some(c.source)
  }

  lemma CompletionArrives(c: Setup, w: World)
    requires Inv(c, w) && CanComplete(c, w)
    ensures ArrivesAfter(c, w, [])
  {
    var rest, end :| Leads(c, w, rest, end) && Deliveries(rest) && SenderIn(end, Completed) && ReceiverIn(end, Completed);
    LeadsKeeps(c, w, rest, end);
    assert ReceiverInv(c, end, end.receiver.value) && DiskInv(c, end);
    assert [] + rest == rest;
  }

  lemma ArrivesLater(c: Setup, w: World, e: Event, first: seq<Event>)
    requires Enabled(c, w, e) && ArrivesAfter(c, Apply(c, w, e), first)
    ensures ArrivesAfter(c, w, [e] + first)
  {
    var rest, end :|
      && Leads(c, Apply(c, w, e), first + rest, end) && Deliveries(rest)
      && SenderIn(end, Completed) && ReceiverIn(end, Completed) && end.disk.target == Some(c.source);
    assert ([e] + first + rest)[1..] == first + rest;
    assert Leads(c, w, [e] + first + rest, end);
  }

  lemma ArrivesTwoLater(c: Setup, w: World, a: Event, b: Event, first: seq<Event>)
    requires Enabled(c, w, a) && Enabled(c, Apply(c, w, a), b) && ArrivesAfter(c, Apply(c, Apply(c, w, a), b), first)
    ensures ArrivesAfter(c, w, [a, b] + first)
  {
    ArrivesLater(c, Apply(c, w, a), b, first);
    ArrivesLater(c, w, a, [b] + first);
    assert [a] + ([b] + first) == [a, b] + first;
  }

  function MeetOffer(c: Setup, now: nat, automatic: bool): Event {
    DeliverToReceiver(Offer(c.name, |c.source|), now, false, automatic, if automatic then Ready else Unavailable, SinkIo(None, true, true, true))
  }

  lemma OfferIsMade(c: Setup, made: nat)
    ensures
      var w := Apply(c, Start(c), MakeOffer(made));
      && SenderIn(w, Offering) && w.sender.value.approvalDeadline == made + APPROVAL_TIMEOUT
      && Offer(c.name, |c.source|) in w.toReceiver && w.receiver.None? && w.disk == Start(c).disk && !w.evicted
  {
    var offer := Offer(c.name, |c.source|);
    assert Send(offer) in [Send(offer)];
  }

  lemma OfferIsMet(c: Setup, w: World, met: nat, automatic: bool)
    requires w.receiver.None? && Enabled(c, w, MeetOffer(c, met, automatic))
    ensures
      var next := Apply(c, w, MeetOffer(c, met, automatic));
      && next.sender == w.sender && next.evicted == w.evicted
      && ReceiverIn(next, if automatic then Transferring else AwaitingAcceptance)
      && next.receiver.value.approvalDeadline == met + APPROVAL_TIMEOUT
      && (!automatic ==> next.disk == w.disk)
  {
    if !automatic {
      SendsLeaveDisk(w.disk, [Send(Answer(Pending))]);
    }
  }

  lemma OfferReachesReceiver(c: Setup, made: nat, met: nat, automatic: bool)
    requires |c.source| <= U64_MAX && (automatic ==> c.before.None?)
    ensures
      var offered := Apply(c, Start(c), MakeOffer(made));
      && Enabled(c, offered, MeetOffer(c, met, automatic))
      && var shown := Apply(c, offered, MeetOffer(c, met, automatic));
         && Inv(c, shown) && !shown.evicted && SenderIn(shown, Offering) && shown.sender.value.approvalDeadline == made + APPROVAL_TIMEOUT
         && ReceiverIn(shown, if automatic then Transferring else AwaitingAcceptance)
         && shown.receiver.value.approvalDeadline == met + APPROVAL_TIMEOUT
         && (!automatic ==> shown.disk.target == c.before)
  {
    var offered := Apply(c, Start(c), MakeOffer(made));
    StartKeeps(c);
    OfferIsMade(c, made);
    EventKeeps(c, Start(c), MakeOffer(made));
    OfferIsMet(c, offered, met, automatic);
    EventKeeps(c, offered, MeetOffer(c, met, automatic));
  }

  lemma ConsentArrives(c: Setup, w: World, e: Event, heard: nat)
    requires Inv(c, w) && !w.evicted && ReceiverIn(w, AwaitingAcceptance) && SenderIn(w, Offering)
    requires Enabled(c, w, e) && Accepts(e) && e.now < w.receiver.value.approvalDeadline
    requires heard < w.sender.value.approvalDeadline
    ensures ArrivesAfter(c, w, [e])
  {
    ConsentCompletesFrom(c, w, e, heard);
    EventKeeps(c, w, e);
    CompletionArrives(c, Apply(c, w, e));
    ArrivesLater(c, w, e, []);
    assert [e] + [] == [e];
  }

  lemma ReadyArrives(c: Setup, w: World, heard: nat)
    requires Inv(c, w) && !w.evicted && ReceiverIn(w, Transferring) && SenderIn(w, Offering)
    requires heard < w.sender.value.approvalDeadline
    ensures ArrivesAfter(c, w, [])
  {
    AcceptanceStartsFrom(c, w, heard, SourceIo(true, true));
    CompleteLater(c, w, DeliverToSender(Answer(Accepted), heard, SourceIo(true, true)));
    CompletionArrives(c, w);
  }

  /** The world in which the receiver has met the offer. */
  function Shown(c: Setup, made: nat, met: nat, automatic: bool): World
    requires Enabled(c, Apply(c, Start(c), MakeOffer(made)), MeetOffer(c, met, automatic))
  {
    Apply(c, Apply(c, Start(c), MakeOffer(made)), MeetOffer(c, met, automatic))
  }

  lemma OfferLeadsTo(c: Setup, made: nat, met: nat, automatic: bool, first: seq<Event>)
    requires Enabled(c, Apply(c, Start(c), MakeOffer(made)), MeetOffer(c, met, automatic))
    requires ArrivesAfter(c, Shown(c, made, met, automatic), first)
    ensures ArrivesAfter(c, Start(c), [MakeOffer(made), MeetOffer(c, met, automatic)] + first)
  {
    ArrivesTwoLater(c, Start(c), MakeOffer(made), MeetOffer(c, met, automatic), first);
  }

  /**
   An offer can always be completed: made, shown to the receiver's user and accepted within the approval
   timeout, in place where the target is free or over what it held, it leads by deliveries alone to two
   completed sides and the source at the target.
   */
  lemma OfferCompletes(c: Setup, made: nat, met: nat, e: Event, heard: nat)
    requires |c.source| <= U64_MAX && Accepts(e) && (e.UserAccepts? ==> c.before.None?)
    requires e.now < met + APPROVAL_TIMEOUT && heard < made + APPROVAL_TIMEOUT
    ensures ArrivesAfter(c, Start(c), [MakeOffer(made), MeetOffer(c, met, false)] + [e])
  {
    OfferReachesReceiver(c, made, met, false);
    ConsentArrives(c, Shown(c, made, met, false), e, heard);
    OfferLeadsTo(c, made, met, false, [e]);
  }

  /** The same without asking, for a peer whose files are received automatically. */
  lemma AutomaticOfferCompletes(c: Setup, made: nat, met: nat, heard: nat)
    requires |c.source| <= U64_MAX && c.before.None? && heard < made + APPROVAL_TIMEOUT
    ensures ArrivesAfter(c, Start(c), [MakeOffer(made), MeetOffer(c, met, true)] + [])
  {
    OfferReachesReceiver(c, made, met, true);
    ReadyArrives(c, Shown(c, made, met, true), heard);
    OfferLeadsTo(c, made, met, true, []);
  }

  // ----- Refusals and cancellations reach the other side -----

  lemma SenderHears(c: Setup, w: World, m: Message, now: nat, io: SourceIo)
    requires w.sender.Some? && w.sender.value.direction == Sending && !IsTerminal(w.sender.value.phase)
    requires m in w.toSender && (m == Cancel || m == Answer(Declined))
    ensures SenderIn(Apply(c, w, DeliverToSender(m, now, io)), if m == Cancel then Cancelled else Refused)
  {
  }

  /** The user's refusal settles the receiver, changes nothing on disk and, delivered, settles the sender. */
  lemma RefusalReachesSender(c: Setup, events: seq<Event>, worlds: seq<World>, i: nat, now: nat, heard: nat, io: SourceIo)
    requires |c.source| <= U64_MAX && IsRun(c, events, worlds) && i < |worlds|
    requires ReceiverIn(worlds[i], AwaitingAcceptance) && worlds[i].sender.Some? && !IsTerminal(worlds[i].sender.value.phase)
    ensures
      var declined := Apply(c, worlds[i], UserDeclines(now));
      && ReceiverIn(declined, Refused) && declined.disk == worlds[i].disk
      && Answer(Declined) in declined.toSender
      && SenderIn(Apply(c, declined, DeliverToSender(Answer(Declined), heard, io)), Refused)
  {
    RunKeeps(c, events, worlds, i);
    var w := worlds[i];
    assert SenderInv(c, w, w.sender.value) && ReceiverInv(c, w, w.receiver.value);
    var step := DeclinedByUser(w.receiver.value, now);
    assert step.actions == [Send(Answer(Declined))];
    assert Send(Answer(Declined)) in step.actions;
    SendsLeaveDisk(w.disk, step.actions);
    SenderHears(c, Apply(c, w, UserDeclines(now)), Answer(Declined), heard, io);
  }

  function OtherSite(site: Site): Site {
    if site == AtSender then AtReceiver else AtSender
  }

  /** `Cancel` delivered to the record at `site`. */
  function CancelAt(site: Site, now: nat): Event {
    if site == AtSender then DeliverToSender(Cancel, now, SourceIo(true, true))
    else DeliverToReceiver(Cancel, now, false, false, Unavailable, SinkIo(None, true, true, true))
  }

  lemma CancellationIsSent(c: Setup, w: World, site: Site, now: nat, removes: bool)
    requires Has(w, site) && !IsTerminal(RecordAt(w, site).phase)
    ensures
      var next := Apply(c, w, UserCancels(site, now, removes));
      && Has(next, site) && RecordAt(next, site).phase == Cancelled
      && Cancel in (if site == AtSender then next.toReceiver else next.toSender)
      && (if site == AtSender then next.receiver == w.receiver else next.sender == w.sender)
  {
    var step := CancelledByUser(RecordAt(w, site), now);
    assert step.actions[|step.actions| - 1] == Send(Cancel);
  }

  lemma CancellationIsHeard(c: Setup, w: World, site: Site, now: nat)
    requires Has(w, site) && !IsTerminal(RecordAt(w, site).phase) && Cancel in (if site == AtSender then w.toSender else w.toReceiver)
    ensures
      var next := Apply(c, w, CancelAt(site, now));
      && Has(next, site) && RecordAt(next, site).phase == Cancelled
      && (if site == AtSender then next.receiver == w.receiver else next.sender == w.sender)
  {
  }

  /** Either user's cancellation settles that side at once and, delivered, the other; nothing stays staged. */
  lemma CancellationReachesBoth(c: Setup, events: seq<Event>, worlds: seq<World>, i: nat, site: Site, now: nat, heard: nat, removes: bool)
    requires |c.source| <= U64_MAX && IsRun(c, events, worlds) && i < |worlds|
    requires Has(worlds[i], AtSender) && !IsTerminal(RecordAt(worlds[i], AtSender).phase)
    requires Has(worlds[i], AtReceiver) && !IsTerminal(RecordAt(worlds[i], AtReceiver).phase)
    ensures
      var stopped := Apply(c, worlds[i], UserCancels(site, now, removes));
      && Has(stopped, site) && RecordAt(stopped, site).phase == Cancelled
      && Enabled(c, stopped, CancelAt(OtherSite(site), heard))
      && var end := Apply(c, stopped, CancelAt(OtherSite(site), heard));
         SenderIn(end, Cancelled) && ReceiverIn(end, Cancelled) && end.disk.staged.None?
  {
    RunKeeps(c, events, worlds, i);
    var w := worlds[i];
    var stopped := Apply(c, w, UserCancels(site, now, removes));
    CancellationIsSent(c, w, site, now, removes);
    EventKeeps(c, w, UserCancels(site, now, removes));
    EventKeeps(c, stopped, CancelAt(OtherSite(site), heard));
    CancellationIsHeard(c, stopped, OtherSite(site), heard);
    assert DiskInv(c, Apply(c, stopped, CancelAt(OtherSite(site), heard)));
  }

  // ----- Whoever settles tells the other side -----

  /** Datagrams after which a transfer is over. */
  predicate Final(m: Message) {
    m.Result? || m == Cancel || m == Answer(Declined)
  }

  predicate Tells(actions: seq<Action>) {
    exists a :: a in actions && a.Send? && Final(a.message)
  }

  predicate Settles(r: Record, step: Step) {
    !IsTerminal(r.phase) && IsTerminal(step.record.phase)
  }

  lemma FailTells(r: Record, error: Failure, now: nat)
    ensures Tells(Fail(r, error, now).actions)
  {
    var actions := Fail(r, error, now).actions;
    assert actions[|actions| - 1] == Send(Rejection(TransferFailed));
  }

  lemma TellsAfter(first: seq<Action>, then_: seq<Action>)
    ensures Tells(then_) ==> Tells(first + then_)
    ensures Tells(first) ==> Tells(first + then_)
  {
    if a :| a in then_ && a.Send? && Final(a.message) {
      assert a in first + then_;
    }
    if a :| a in first && a.Send? && Final(a.message) {
      assert a in first + then_;
    }
  }

  lemma FinishTells(r: Record, digest: Digest, now: nat, hash: Bytes -> Digest, io: SinkIo)
    requires r.incoming.Some?
    ensures Tells(FinishReceiver(r, digest, now, hash, io).actions)
  {
    var step := FinishReceiver(r, digest, now, hash, io);
    var last := step.actions[|step.actions| - 1];
    assert last == Send(Rejection(TransferFailed)) || last == Send(Result(true, None));
  }

  lemma SendChunkTells(r: Record, offset: nat, length: nat, now: nat, source: Bytes, hash: Bytes -> Digest, io: SourceIo)
    requires Settles(r, SendChunk(r, offset, length, now, source, hash, io))
    ensures Tells(SendChunk(r, offset, length, now, source, hash, io).actions)
  {
    FailTells(r, InvalidRequest, now);
    FailTells(r, UnexpectedOffset, now);
    FailTells(r, SourceUnavailable, now);
    FailTells(r, SourceError, now);
  }

  lemma WriteChunkTells(r: Record, offset: nat, data: Bytes, now: nat, hash: Bytes -> Digest, io: SinkIo)
    requires Settles(r, WriteChunk(r, offset, data, now, hash, io))
    ensures Tells(WriteChunk(r, offset, data, now, hash, io).actions)
  {
    var end := offset + |data|;
    if end > U64_MAX || |data| == 0 || |data| > MAX_CHUNK || end > r.size {
      FailTells(r, InvalidChunk, now);
    } else if offset != r.transferred {
      FailTells(r, OverlappingChunk, now);
    } else if offset != r.incoming.value.offset || end > r.incoming.value.expected {
      FailTells(r, WriteError, now);
    } else if io.shortWrite.Some? {
      FailTells(r, WriteError, now);
      TellsAfter([Append(r.incoming.value.place, data[..Min(io.shortWrite.value, |data|)])], Fail(r, WriteError, now).actions);
    } else {
      var finished := FinishReceiver(Kept(r, data, now).(earlyDigest := None), r.earlyDigest.value, now, hash, io);
      FinishTells(Kept(r, data, now).(earlyDigest := None), r.earlyDigest.value, now, hash, io);
      TellsAfter([Append(r.incoming.value.place, data)], finished.actions);
    }
  }

  lemma CompleteTells(r: Record, digest: Digest, now: nat, hash: Bytes -> Digest, io: SinkIo)
    requires Settles(r, CompleteReceiver(r, digest, now, hash, io))
    ensures Tells(CompleteReceiver(r, digest, now, hash, io).actions)
  {
    FailTells(r, ConflictingDigest, now);
    FinishTells(r, digest, now, hash, io);
  }

  lemma DecideTells(r: Record, decision: ManualDecision, now: nat)
    requires Settles(r, Decide(r, decision, now)) && decision != Declined
    ensures Tells(Decide(r, decision, now).actions)
  {
    FailTells(r, OfferExpired, now);
  }

  lemma HandleTells(r: Record, m: Message, now: nat, source: Bytes, hash: Bytes -> Digest, sourceIo: SourceIo, sinkIo: SinkIo)
    requires Settles(r, Handle(r, m, now, source, hash, sourceIo, sinkIo)) && !Final(m)
    ensures Tells(Handle(r, m, now, source, hash, sourceIo, sinkIo).actions)
  {
    match m
    case Request(offset, length) => SendChunkTells(r, offset, length, now, source, hash, sourceIo);
    case Chunk(offset, data) => WriteChunkTells(r, offset, data, now, hash, sinkIo);
    case Complete(digest) => CompleteTells(r, digest, now, hash, sinkIo);
    case Answer(decision) => DecideTells(r, decision, now);
    case Offer(_, _) =>
  }

  lemma CancelTells(r: Record, now: nat)
    requires Settles(r, CancelledByUser(r, now))
    ensures Tells(CancelledByUser(r, now).actions)
  {
    assert Send(Cancel) in CancelledByUser(r, now).actions;
  }

  lemma DeclineTells(r: Record, now: nat)
    requires Settles(r, DeclinedByUser(r, now))
    ensures Tells(DeclinedByUser(r, now).actions)
  {
    assert Send(Answer(Declined)) in DeclinedByUser(r, now).actions;
  }

  lemma TickTells(r: Record, now: nat)
    requires Settles(r, TickRecord(r, now))
    ensures Tells(TickRecord(r, now).actions)
  {
    assert TickRecord(r, now).actions[0] == Send(Cancel);
  }

  lemma PreparationTells(r: Record, place: Place, now: nat, automatic: bool, preparation: Preparation)
    requires Settles(r, PrepareReceiver(r, place, now, automatic, preparation))
    ensures Tells(PrepareReceiver(r, place, now, automatic, preparation).actions)
  {
    var step := PrepareReceiver(r, place, now, automatic, preparation);
    FailTells(r, OfferExpired, now);
    if now < r.approvalDeadline {
      assert step.actions[|step.actions| - 1] == Send(Rejection(DestinationUnavailable));
    }
  }

  lemma OverwriteTells(r: Record, now: nat, stagingMade: bool, preparation: Preparation)
    requires Settles(r, Overwrite(r, now, stagingMade, preparation))
    ensures Tells(Overwrite(r, now, stagingMade, preparation).actions)
  {
    PreparationTells(r, Staged, now, false, preparation);
    TellsAfter(PrepareReceiver(r, Staged, now, false, preparation).actions, [DropStaging]);
  }

  /** The event is the delivery to `site` of a datagram after which the transfer is over. */
  predicate HearsTheEnd(e: Event, site: Site) {
    if site == AtSender then e.DeliverToSender? && Final(e.message) else e.DeliverToReceiver? && Final(e.message)
  }

  predicate LosesPeer(e: Event, site: Site) {
    e.Disconnect? && e.site == site
  }

  ghost predicate Told(w: World, site: Site) {
    exists m :: m in (if site == AtSender then w.toReceiver else w.toSender) && Final(m)
  }

  lemma TellingIsSent(actions: seq<Action>)
    requires Tells(actions)
    ensures exists m :: m in Sent(actions) && Final(m)
  {
    var a :| a in actions && a.Send? && Final(a.message);
    assert a.message in Sent(actions);
  }

  lemma ReceiverTells(c: Setup, w: World, e: Event)
    requires Enabled(c, w, e) && w.receiver.Some? && ReceiverStep(c, w, e).Some?
    requires Settles(w.receiver.value, ReceiverStep(c, w, e).value) && !HearsTheEnd(e, AtReceiver) && !LosesPeer(e, AtReceiver)
    ensures Tells(ReceiverStep(c, w, e).value.actions)
  {
    var r := w.receiver.value;
    match e
    case DeliverToReceiver(m, now, _, _, _, io) => HandleTells(r, m, now, [], c.hash, NoSource(), io);
    case UserAccepts(now, preparation) => PreparationTells(r, Target, now, false, preparation);
    case UserOverwrites(now, made, preparation, _) => OverwriteTells(r, now, made, preparation);
    case UserDeclines(now) => DeclineTells(r, now);
    case UserCancels(_, now, _) => CancelTells(r, now);
    case Tick(_, now, _) => TickTells(r, now);
  }

  lemma SenderTells(c: Setup, w: World, e: Event)
    requires Enabled(c, w, e) && w.sender.Some? && w.offered && SenderStep(c, w, e).Some?
    requires Settles(w.sender.value, SenderStep(c, w, e).value) && !HearsTheEnd(e, AtSender) && !LosesPeer(e, AtSender)
    ensures Tells(SenderStep(c, w, e).value.actions)
  {
    var r := w.sender.value;
    match e
    case DeliverToSender(m, now, io) => HandleTells(r, m, now, c.source, c.hash, io, NoSink());
    case UserCancels(_, now, _) => CancelTells(r, now);
    case Tick(_, now, _) => TickTells(r, now);
  }

  /**
   In every run, a side that settles has heard the end from its peer, has lost its route, or tells the
   peer in the same event.
   */
  lemma SettlingIsTold(c: Setup, events: seq<Event>, worlds: seq<World>, i: nat, site: Site)
    requires |c.source| <= U64_MAX && IsRun(c, events, worlds) && i < |events|
    requires Has(worlds[i], site) && !IsTerminal(RecordAt(worlds[i], site).phase)
    requires Has(worlds[i + 1], site) && IsTerminal(RecordAt(worlds[i + 1], site).phase)
    ensures HearsTheEnd(events[i], site) || LosesPeer(events[i], site) || Told(worlds[i + 1], site)
  {
    var w, e := worlds[i], events[i];
    OfferedFirst(c, events, worlds, i);
    assert StepsAt(c, events, worlds, i);
    if !e.Evict? && !HearsTheEnd(e, site) && !LosesPeer(e, site) {
      RecordsAfter(c, w, e);
      if site == AtSender {
        SenderTells(c, w, e);
        TellingIsSent(SenderStep(c, w, e).value.actions);
      } else {
        ReceiverTells(c, w, e);
        TellingIsSent(ReceiverStep(c, w, e).value.actions);
      }
    }
  }

  /** What ends a transfer without success settles whichever side hears it. */
  lemma TheEndSettles(r: Record, m: Message, now: nat, source: Bytes, hash: Bytes -> Digest, sourceIo: SourceIo, sinkIo: SinkIo)
    requires !IsTerminal(r.phase) && Final(m) && (m == Answer(Declined) ==> r.direction == Sending) && (m.Result? ==> !m.success)
    ensures
      Handle(r, m, now, source, hash, sourceIo, sinkIo).record.phase ==
        if m == Cancel then Cancelled else if m == Answer(Declined) then Refused else Failed
  {
  }

  // ----- Offers are answered -----

  /** What a receiver in this state answers an offer with. */
  predicate Reports(r: Record, m: Message) {
    match r.phase
    case AwaitingAcceptance => m == Answer(Pending)
    case Transferring => m == Answer(Accepted)
    case Refused => m == Answer(Declined)
    case Cancelled => m == Cancel
    case Completed => m == Result(true, None)
    case Failed => m.Result? && !m.success && (r.finalResult.Some? ==> m.reason == r.finalResult.value.1)
    case Offering => false
  }

  lemma FirstOfferReports(name: string, size: nat, automatic: bool, now: nat, preparation: Preparation)
    ensures
      var step := FirstOffer(NewReceiver(0, "", 1, name, size, now), automatic, now, preparation);
      exists m :: Send(m) in step.actions && Reports(step.record, m)
  {
    var r := NewReceiver(0, "", 1, name, size, now);
    var step := FirstOffer(r, automatic, now, preparation);
    var m := OfferResponse(step.record);
    assert DropActions(r) == [];
    assert step.actions[|step.actions| - 1] == Send(m);
    assert Reports(step.record, m);
  }

  /** A record that completed says so. */
  predicate KnowsOutcome(r: Record) {
    r.phase == Completed ==> r.finalResult == Some((true, None))
  }

  lemma FinishKnows(r: Record, digest: Digest, now: nat, hash: Bytes -> Digest, io: SinkIo)
    requires r.incoming.Some?
    ensures KnowsOutcome(FinishReceiver(r, digest, now, hash, io).record)
  {
  }

  lemma WriteChunkKnows(r: Record, offset: nat, data: Bytes, now: nat, hash: Bytes -> Digest, io: SinkIo)
    requires !IsTerminal(r.phase)
    ensures KnowsOutcome(WriteChunk(r, offset, data, now, hash, io).record)
  {
    if r.incoming.Some? && r.earlyDigest.Some? {
      FinishKnows(Kept(r, data, now).(earlyDigest := None), r.earlyDigest.value, now, hash, io);
    }
  }

  lemma HandleKnows(r: Record, m: Message, now: nat, source: Bytes, hash: Bytes -> Digest, sourceIo: SourceIo, sinkIo: SinkIo)
    requires !IsTerminal(r.phase)
    ensures KnowsOutcome(Handle(r, m, now, source, hash, sourceIo, sinkIo).record)
  {
    match m
    case Chunk(offset, data) => WriteChunkKnows(r, offset, data, now, hash, sinkIo);
    case Complete(digest) =>
      if r.incoming.Some? {
        FinishKnows(r, digest, now, hash, sinkIo);
      }
    case Request(_, _) =>
    case Answer(_) =>
    case Result(_, _) =>
    case Cancel =>
    case Offer(_, _) =>
  }

  lemma ReceiverStepKnows(c: Setup, w: World, e: Event)
    requires Enabled(c, w, e) && ReceiverStep(c, w, e).Some? && (w.receiver.Some? ==> !IsTerminal(w.receiver.value.phase))
    ensures KnowsOutcome(ReceiverStep(c, w, e).value.record)
  {
    if e.DeliverToReceiver? && w.receiver.Some? {
      HandleKnows(w.receiver.value, e.message, e.now, [], c.hash, NoSource(), e.sinkIo);
    }
  }

  lemma {:induction false} ReceiverKnowsOutcome(c: Setup, events: seq<Event>, worlds: seq<World>, i: nat)
    requires |c.source| <= U64_MAX && IsRun(c, events, worlds) && i < |worlds| && worlds[i].receiver.Some?
    ensures KnowsOutcome(worlds[i].receiver.value)
  {
    if i > 0 {
      var w, e := worlds[i - 1], events[i - 1];
      assert StepsAt(c, events, worlds, i - 1);
      if w.receiver.Some? {
        ReceiverKnowsOutcome(c, events, worlds, i - 1);
      }
      if w.receiver.Some? && IsTerminal(w.receiver.value.phase) {
        OfferedFirst(c, events, worlds, i - 1);
        EventEvolves(c, w, e, AtReceiver);
      } else if !e.Evict? {
        RecordsAfter(c, w, e);
        if ReceiverStep(c, w, e).Some? {
          ReceiverStepKnows(c, w, e);
        }
      }
    }
  }

  lemma RepeatedOfferReports(c: Setup, w: World)
    requires Inv(c, w) && w.receiver.Some? && KnowsOutcome(w.receiver.value)
    ensures
      var step := RepeatedOffer(w.receiver.value, c.name, |c.source|);
      step.record == w.receiver.value && exists m :: Send(m) in step.actions && Reports(step.record, m)
  {
    var r := w.receiver.value;
    assert ReceiverInv(c, w, r);
    var m := OfferResponse(r);
    assert RepeatedOffer(r, c.name, |c.source|).actions[0] == Send(m);
    assert Reports(r, m);
  }

  /** Where the receiver stands is on its way to the sender. */
  ghost predicate Answers(w: World) {
    w.receiver.Some? && exists m :: m in w.toSender && Reports(w.receiver.value, m)
  }

  /** In every run, an offer that reaches the receiver, first or repeated, is answered with where the receiver stands after it. */
  lemma OffersAreAnswered(c: Setup, events: seq<Event>, worlds: seq<World>, i: nat)
    requires |c.source| <= U64_MAX && IsRun(c, events, worlds) && i < |events|
    requires events[i].DeliverToReceiver? && events[i].message.Offer? && (worlds[i].receiver.None? ==> !events[i].full)
    ensures Answers(worlds[i + 1])
    ensures worlds[i].receiver.Some? ==> worlds[i + 1].receiver == worlds[i].receiver
  {
    var w, e := worlds[i], events[i];
    RunKeeps(c, events, worlds, i);
    assert StepsAt(c, events, worlds, i);
    assert FitForReceiver(c, w, e.message);
    if w.receiver.Some? {
      ReceiverKnowsOutcome(c, events, worlds, i);
      RepeatedOfferReports(c, w);
    } else {
      FirstOfferReports(e.message.name, e.message.size, e.automatic, e.now, e.preparation);
    }
    var step := ReceiverStep(c, w, e).value;
    var m :| Send(m) in step.actions && Reports(step.record, m);
    assert m in Sent(step.actions);
  }

  /** In every run, a receiver that completed answers data and digests that come again with its success, so the sender can learn of it. */
  lemma SuccessIsRepeated(c: Setup, events: seq<Event>, worlds: seq<World>, i: nat)
    requires |c.source| <= U64_MAX && IsRun(c, events, worlds) && i < |events| && ReceiverIn(worlds[i], Completed)
    requires events[i].DeliverToReceiver? && (events[i].message.Chunk? || events[i].message.Complete?)
    ensures worlds[i + 1].receiver == worlds[i].receiver && Result(true, None) in worlds[i + 1].toSender
  {
    var w, e := worlds[i], events[i];
    RunKeeps(c, events, worlds, i);
    ReceiverKnowsOutcome(c, events, worlds, i);
    assert StepsAt(c, events, worlds, i);
    assert ReceiverInv(c, w, w.receiver.value);
    var step := ReceiverStep(c, w, e).value;
    assert step.actions == [Send(Result(true, None))];
    assert Result(true, None) in Sent(step.actions);
  }

  /** An acceptance that finds the name taken or the destination unavailable is not final: the receiver goes on asking. */
  lemma AcceptanceMayBeRepeated(c: Setup, events: seq<Event>, worlds: seq<World>, i: nat)
    requires |c.source| <= U64_MAX && IsRun(c, events, worlds) && i < |events| && ReceiverIn(worlds[i], AwaitingAcceptance)
    requires events[i].UserAccepts? && events[i].preparation != Ready && events[i].now < worlds[i].receiver.value.approvalDeadline
    ensures
      && worlds[i + 1].receiver.Some?
      && worlds[i + 1].receiver.value == worlds[i].receiver.value.(error := Some(if events[i].preparation == AlreadyExists then NameTaken else PreparationError))
      && worlds[i + 1].toSender == worlds[i].toSender
  {
    var w, e := worlds[i], events[i];
    RunKeeps(c, events, worlds, i);
    assert ReceiverInv(c, w, w.receiver.value);
    assert StepsAt(c, events, worlds, i);
    var step := ReceiverStep(c, w, e).value;
    assert forall a :: a in step.actions ==> !a.Send?;
    assert Sent(step.actions) == {};
  }

  /** The datagram shows that its sender takes the transfer to be under way. */
  predicate TakesForLive(m: Message) {
    m.Request? || m.Chunk? || m.Complete? || m == Answer(Accepted)
  }

  /**
   Whoever goes on with a transfer that is unknown here is answered with the one datagram that settles its
   record, whatever state that is in; anything else about an unknown transfer is met with silence.
   */
  lemma UnknownIsToldToStop(m: Message, r: Record, now: nat, source: Bytes, hash: Bytes -> Digest, sourceIo: SourceIo, sinkIo: SinkIo)
    requires !m.Offer?
    ensures !TakesForLive(m) ==> ReplyToUnknown(m) == []
    ensures TakesForLive(m) ==> |ReplyToUnknown(m)| == 1 && ReplyToUnknown(m)[0].Send?
    ensures TakesForLive(m) ==>
              IsTerminal(Handle(r, ReplyToUnknown(m)[0].message, now, source, hash, sourceIo, sinkIo).record.phase)
  {
    if TakesForLive(m) && !IsTerminal(r.phase) {
      TheEndSettles(r, ReplyToUnknown(m)[0].message, now, source, hash, sourceIo, sinkIo);
    }
  }
}
