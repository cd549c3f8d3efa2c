/**
 What the manual transfer protocol promises over every run between honest peers.
 */
module ManualSafety {
  import opened Common
  import opened ManualRecord
  import opened ManualNetwork
  import opened ManualInvariant

  predicate ReceiverIn(w: World, phase: Phase) {
    w.receiver.Some? && w.receiver.value.phase == phase
  }

  predicate SenderIn(w: World, phase: Phase) {
    w.sender.Some? && w.sender.value.phase == phase
  }

  /** Some world of the run up to `i` has its receiver in `phase`. */
  ghost predicate ReceiverWasIn(worlds: seq<World>, i: nat, phase: Phase)
    requires i < |worlds|
  {
    exists j :: 0 <= j <= i && ReceiverIn(worlds[j], phase)
  }

  /** The history fields of the model say what really happened earlier in the run. */
  lemma {:induction false} HistoryIsReal(c: Setup, events: seq<Event>, worlds: seq<World>, i: nat)
    requires IsRun(c, events, worlds) && i < |worlds|
    ensures worlds[i].receiverAccepted ==> ReceiverWasIn(worlds, i, Transferring)
    ensures worlds[i].receiverCompleted ==> ReceiverWasIn(worlds, i, Completed)
  {
    if i > 0 {
      HistoryIsReal(c, events, worlds, i - 1);
      assert StepsAt(c, events, worlds, i - 1);
      HistoryStep(c, worlds[i - 1], events[i - 1]);
    }
  }

  lemma HistoryStep(c: Setup, w: World, e: Event)
    requires Enabled(c, w, e)
    ensures
      var next := Apply(c, w, e);
      && (next.receiverAccepted && !w.receiverAccepted ==> ReceiverIn(next, Transferring))
      && (next.receiverCompleted && !w.receiverCompleted ==> ReceiverIn(next, Completed))
  {
    if !e.Evict? {
      RecordsAfter(c, w, e);
    }
  }

  /**
   End-to-end content safety. What the receiver has written is always the prefix of the source of
   length `transferred`; a completed receiver left exactly the source at the target; a sender
   reports completion only after the receiver completed, so the target then is the source.
   */
  lemma ContentSafety(c: Setup, events: seq<Event>, worlds: seq<World>, i: nat)
    requires |c.source| <= U64_MAX && IsRun(c, events, worlds) && i < |worlds|
    ensures
      var w := worlds[i];
      && (ReceiverIn(w, Transferring) ==>
            var r := w.receiver.value;
            && r.incoming.Some? && r.transferred <= |c.source|
            && At(w.disk, r.incoming.value.place) == Some(c.source[..r.transferred]))
      && (ReceiverIn(w, Completed) ==> w.disk.target == Some(c.source))
      && (SenderIn(w, Completed) ==> ReceiverWasIn(worlds, i, Completed) && w.disk.target == Some(c.source))
  {
    RunKeeps(c, events, worlds, i);
    HistoryIsReal(c, events, worlds, i);
    var w := worlds[i];
    if ReceiverIn(w, Transferring) {
      assert ReceiverInv(c, w, w.receiver.value);
    }
    if SenderIn(w, Completed) {
      assert SenderInv(c, w, w.sender.value);
      assert w.disk.target == Settled(c, w);
    }
  }

  /** The event leaves a file at the target that no transfer owns: lost when it was created, or not removed. */
  predicate LeavesFile(c: Setup, w: World, e: Event)
    requires Enabled(c, w, e)
  {
    var step := ReceiverStep(c, w, e);
    step.Some? && (LoseFile(Target) in step.value.actions || (!Removes(e) && RemoveFile(Target) in step.value.actions))
  }

  ghost predicate LeftFile(c: Setup, events: seq<Event>, worlds: seq<World>, i: nat)
    requires IsRun(c, events, worlds) && i <= |events|
  {
    exists j :: 0 <= j < i && StepsAt(c, events, worlds, j) && LeavesFile(c, worlds[j], events[j])
  }

  lemma MoveLeaves(c: Setup, w: World, step: Step, removes: bool)
    requires DiskInv(c, w) && RemovesOwn(w, step)
    ensures
      MoveReceiver(w, step, removes).leftover.Some? <==>
        w.leftover.Some? || LoseFile(Target) in step.actions || (!removes && RemoveFile(Target) in step.actions)
  {
    if !removes && RemoveFile(Target) in step.actions {
      UnremovedStays(w.disk, step.actions);
    }
  }

  lemma StepRemovesOwn(c: Setup, w: World, e: Event)
    requires Inv(c, w) && Enabled(c, w, e) && ReceiverStep(c, w, e).Some?
    ensures DiskInv(c, w) && RemovesOwn(w, ReceiverStep(c, w, e).value)
  {
    ReceiverStepIsGood(c, w, e);
  }

  lemma OnlyMovesLeave(c: Setup, w: World, e: Event)
    requires Enabled(c, w, e)
    ensures
      var step := ReceiverStep(c, w, e);
      Apply(c, w, e).leftover == if step.Some? then MoveReceiver(w, step.value, Removes(e)).leftover else w.leftover
  {
  }

  lemma LeftoverStep(c: Setup, w: World, e: Event)
    requires Inv(c, w) && Enabled(c, w, e)
    ensures Apply(c, w, e).leftover.Some? <==> w.leftover.Some? || LeavesFile(c, w, e)
  {
    OnlyMovesLeave(c, w, e);
    if ReceiverStep(c, w, e).Some? {
      StepRemovesOwn(c, w, e);
      MoveLeaves(c, w, ReceiverStep(c, w, e).value, Removes(e));
    }
  }

  lemma {:induction false} LeftoverIsReal(c: Setup, events: seq<Event>, worlds: seq<World>, i: nat)
    requires |c.source| <= U64_MAX && IsRun(c, events, worlds) && i < |worlds|
    ensures worlds[i].leftover.Some? <==> LeftFile(c, events, worlds, i)
  {
    if i > 0 {
      LeftoverIsReal(c, events, worlds, i - 1);
      RunKeeps(c, events, worlds, i - 1);
      assert StepsAt(c, events, worlds, i - 1);
      LeftoverStep(c, worlds[i - 1], events[i - 1]);
      if LeftFile(c, events, worlds, i - 1) {
        var j :| 0 <= j < i - 1 && StepsAt(c, events, worlds, j) && LeavesFile(c, worlds[j], events[j]);
        assert LeftFile(c, events, worlds, i);
      }
    }
  }

  /**
   While no transfer is under way and none has completed, nothing is staged and the target is as it was
   before, exactly unless a file was lost there or could not be removed.
   */
  lemma TargetIsRestored(c: Setup, events: seq<Event>, worlds: seq<World>, i: nat)
    requires |c.source| <= U64_MAX && IsRun(c, events, worlds) && i < |worlds|
    requires !ReceiverIn(worlds[i], Transferring) && !worlds[i].receiverCompleted
    ensures worlds[i].disk.staged.None?
    ensures worlds[i].disk.target == c.before <==> !LeftFile(c, events, worlds, i)
  {
    RunKeeps(c, events, worlds, i);
    LeftoverIsReal(c, events, worlds, i);
  }

  /**
   Lockstep, while no finished record has been evicted: the receiver stands at the sender's offset or
   at the offset of the sender's cached request, whose cached response is the one correct answer.
   */
  lemma LockstepHolds(c: Setup, events: seq<Event>, worlds: seq<World>, i: nat)
    requires |c.source| <= U64_MAX && IsRun(c, events, worlds) && i < |worlds|
    requires SenderIn(worlds[i], Transferring) && ReceiverIn(worlds[i], Transferring) && !worlds[i].evicted
    ensures
      var s, r := worlds[i].sender.value, worlds[i].receiver.value;
      && r.transferred <= |c.source|
      && (r.transferred == s.transferred
          || (s.cachedRequest == Some((r.transferred, MAX_CHUNK)) && s.cachedResponse == Some(CorrectAnswer(c, r.transferred))))
  {
    RunKeeps(c, events, worlds, i);
    if worlds[i].receiver.value.transferred != worlds[i].sender.value.transferred {
      CachedIsBehind(c, worlds[i]);
    }
  }

  lemma CachedIsBehind(c: Setup, w: World)
    requires Inv(c, w) && SenderIn(w, Transferring) && ReceiverIn(w, Transferring) && !w.evicted
    requires w.receiver.value.transferred != w.sender.value.transferred
    ensures w.sender.value.cachedRequest == Some((w.receiver.value.transferred, MAX_CHUNK))
    ensures w.sender.value.cachedResponse == Some(CorrectAnswer(c, w.receiver.value.transferred))
  {
    var s, r := w.sender.value, w.receiver.value;
    assert SenderInv(c, w, s) && ReceiverInv(c, w, r) && Lockstep(c, w);
    var offset := s.cachedRequest.value.0;
    if offset < r.transferred {
      GridApart(c, offset, r.transferred);
    }
  }

  /**
   Between honest peers no record ever fails for an unexpected offset, an overlapping or invalid chunk,
   an invalid request, a conflicting or wrong digest; and until a record is evicted nobody is told
   that a transfer was not accepted.
   */
  lemma NobodyIsBlamed(c: Setup, events: seq<Event>, worlds: seq<World>, i: nat)
    requires |c.source| <= U64_MAX && IsRun(c, events, worlds) && i < |worlds|
    ensures
      var w := worlds[i];
      && (w.sender.Some? ==> Blameless(w.sender.value.error))
      && (w.receiver.Some? ==> Blameless(w.receiver.value.error))
      && (!w.evicted ==> Rejection(NotAccepted) !in w.toSender + w.toReceiver)
  {
    RunKeeps(c, events, worlds, i);
    var w := worlds[i];
    assert !w.evicted ==> !FitForSender(c, w, Rejection(NotAccepted)) && !FitForReceiver(c, w, Rejection(NotAccepted));
  }

  /** The receiver's current request always gets the one correct answer from a readable source. */
  lemma RequestIsAnswerable(c: Setup, w: World, now: nat)
    requires Inv(c, w) && SenderIn(w, Transferring) && ReceiverIn(w, Transferring) && !w.evicted
    ensures
      var offset := w.receiver.value.transferred;
      var step := SendChunk(w.sender.value, offset, MAX_CHUNK, now, c.source, c.hash, SourceIo(true, true));
      && offset <= |c.source|
      && step.actions == [Send(CorrectAnswer(c, offset))]
      && step.record.phase == Transferring
      && (offset == |c.source| ==> step.record.transferred == |c.source| && step.record.finalDigest.Some?)
  {
    var s, r := w.sender.value, w.receiver.value;
    assert SenderInv(c, w, s) && ReceiverInv(c, w, r);
    if s.cachedRequest == Some((r.transferred, MAX_CHUNK)) {
    } else {
      if r.transferred != s.transferred {
        CachedIsBehind(c, w);
      }
      assert FitForSender(c, w, RequestAt(r.transferred));
      SenderServes(c, w, r.transferred, now, SourceIo(true, true));
    }
  }

  // ----- Never wedged -----

  /** `events` can happen one after another from `w`, ending in `end`. */
  ghost predicate Leads(c: Setup, w: World, events: seq<Event>, end: World)
    decreases |events|
  {
    if events == [] then w == end
    else Enabled(c, w, events[0]) && Leads(c, Apply(c, w, events[0]), events[1..], end)
  }

  ghost predicate Deliveries(events: seq<Event>) {
    forall e :: e in events ==> e.DeliverToReceiver? || e.DeliverToSender?
  }

  /** Both sides can still reach completion by deliveries alone. */
  ghost predicate CanComplete(c: Setup, w: World) {
    exists events, end :: Leads(c, w, events, end) && Deliveries(events) && SenderIn(end, Completed) && ReceiverIn(end, Completed)
  }

  lemma CompleteLater(c: Setup, w: World, e: Event)
    requires Enabled(c, w, e) && (e.DeliverToReceiver? || e.DeliverToSender?) && CanComplete(c, Apply(c, w, e))
    ensures CanComplete(c, w)
  {
    var events, end :| Leads(c, Apply(c, w, e), events, end) && Deliveries(events) && SenderIn(end, Completed) && ReceiverIn(end, Completed);
    assert ([e] + events)[1..] == events;
    assert Leads(c, w, [e] + events, end);
  }

  function ToSenderNow(m: Message): Event {
    DeliverToSender(m, 0, SourceIo(true, true))
  }

  function ToReceiverNow(m: Message): Event {
    DeliverToReceiver(m, 0, false, false, Unavailable, SinkIo(None, true, true, true))
  }

  /** The request and its answer, each delivered once: the receiver moves on or completes. */
  lemma Exchange(c: Setup, w: World) returns (asked: World, answered: World)
    requires Inv(c, w) && SenderIn(w, Transferring) && ReceiverIn(w, Transferring) && !w.evicted
    requires RequestAt(w.receiver.value.transferred) in w.toSender
    ensures
      var offset := w.receiver.value.transferred;
      && offset <= |c.source|
      && Enabled(c, w, ToSenderNow(RequestAt(offset))) && asked == Apply(c, w, ToSenderNow(RequestAt(offset)))
      && Enabled(c, asked, ToReceiverNow(CorrectAnswer(c, offset)))
      && answered == Apply(c, asked, ToReceiverNow(CorrectAnswer(c, offset)))
      && Inv(c, answered) && SenderIn(answered, Transferring) && !answered.evicted && answered.receiver.Some?
      && (offset < |c.source| ==>
            && ReceiverIn(answered, Transferring) && answered.receiver.value.transferred == Following(c, offset)
            && RequestAt(Following(c, offset)) in answered.toSender)
      && (offset == |c.source| ==>
            && ReceiverIn(answered, Completed) && Result(true, None) in answered.toSender
            && answered.sender.value.transferred == |c.source| && answered.sender.value.finalDigest.Some?)
  {
    var offset := w.receiver.value.transferred;
    assert FitForSender(c, w, RequestAt(offset));
    RequestIsAnswerable(c, w, 0);
    var ask, answer := ToSenderNow(RequestAt(offset)), ToReceiverNow(CorrectAnswer(c, offset));
    asked := Apply(c, w, ask);
    EventKeeps(c, w, ask);
    assert asked.receiver == w.receiver && asked.sender.value.phase == Transferring;
    assert CorrectAnswer(c, offset) in asked.toReceiver;
    answered := Apply(c, asked, answer);
    EventKeeps(c, asked, answer);
    assert answered.sender == asked.sender;
    AnswerAdvances(c, asked, offset);
  }

  lemma AnswerAdvances(c: Setup, w: World, offset: nat)
    requires Inv(c, w) && ReceiverIn(w, Transferring) && !w.evicted
    requires offset == w.receiver.value.transferred <= |c.source| && CorrectAnswer(c, offset) in w.toReceiver
    ensures
      var step := Handle(w.receiver.value, CorrectAnswer(c, offset), 0, [], c.hash, NoSource(), SinkIo(None, true, true, true));
      if offset < |c.source| then
        && step.record.phase == Transferring && step.record.transferred == Following(c, offset)
        && RequestAt(Following(c, offset)) in Sent(step.actions)
      else step.record.phase == Completed && Result(true, None) in Sent(step.actions)
  {
    var r := w.receiver.value;
    assert ReceiverInv(c, w, r) && FitForReceiver(c, w, CorrectAnswer(c, offset));
    if offset < |c.source| {
      var data, end := CorrectAnswer(c, offset).data, Following(c, offset);
      var step := WriteChunk(r, offset, data, 0, c.hash, SinkIo(None, true, true, true));
      assert Send(RequestAt(end)) in step.actions;
    } else {
      assert c.source[..offset] == c.source;
      var step := FinishReceiver(r, c.hash(c.source), 0, c.hash, SinkIo(None, true, true, true));
      assert Send(Result(true, None)) in step.actions;
    }
  }

  /** The receiver's result completes the sender. */
  lemma ReportCompletes(c: Setup, w: World)
    requires Inv(c, w) && SenderIn(w, Transferring) && ReceiverIn(w, Completed) && Result(true, None) in w.toSender
    requires w.sender.value.transferred == |c.source| && w.sender.value.finalDigest.Some?
    ensures CanComplete(c, w)
  {
    var report := ToSenderNow(Result(true, None));
    var end := Apply(c, w, report);
    assert SenderIn(end, Completed) && ReceiverIn(end, Completed);
    assert Leads(c, end, [], end);
    assert CanComplete(c, end);
    CompleteLater(c, w, report);
  }

  lemma {:induction false} PullsToTheEnd(c: Setup, w: World)
    requires Inv(c, w) && SenderIn(w, Transferring) && ReceiverIn(w, Transferring) && !w.evicted
    requires RequestAt(w.receiver.value.transferred) in w.toSender
    ensures CanComplete(c, w)
    decreases |c.source| - w.receiver.value.transferred
  {
    var offset := w.receiver.value.transferred;
    var asked, answered := Exchange(c, w);
    if offset < |c.source| {
      PullsToTheEnd(c, answered);
    } else {
      ReportCompletes(c, answered);
    }
    CompleteLater(c, asked, ToReceiverNow(CorrectAnswer(c, offset)));
    CompleteLater(c, w, ToSenderNow(RequestAt(offset)));
  }

  /** Datagrams already sent and their answers suffice to complete two sides that are transferring. */
  lemma CompletesFrom(c: Setup, w: World)
    requires Inv(c, w) && SenderIn(w, Transferring) && ReceiverIn(w, Transferring) && !w.evicted
    ensures CanComplete(c, w)
  {
    var offset := w.receiver.value.transferred;
    if w.receiver.value.retryEvent == Some(RequestAt(offset)) {
      PullsToTheEnd(c, w);
    } else {
      var echo := ToSenderNow(Answer(Accepted));
      var echoed := Apply(c, w, echo);
      EventKeeps(c, w, echo);
      EchoHeard(c, echoed, w);
      var pulled := Apply(c, echoed, ToReceiverNow(Answer(Accepted)));
      EventKeeps(c, echoed, ToReceiverNow(Answer(Accepted)));
      PullHeard(c, echoed);
      PullsToTheEnd(c, pulled);
      CompleteLater(c, echoed, ToReceiverNow(Answer(Accepted)));
      CompleteLater(c, w, echo);
    }
  }

  /**
   Never wedged: whatever was lost, duplicated or reordered so far, while both sides are transferring
   and nothing was evicted, datagrams already sent and their answers suffice to complete both sides.
   */
  lemma NeverWedged(c: Setup, events: seq<Event>, worlds: seq<World>, i: nat)
    requires |c.source| <= U64_MAX && IsRun(c, events, worlds) && i < |worlds|
    requires SenderIn(worlds[i], Transferring) && ReceiverIn(worlds[i], Transferring) && !worlds[i].evicted
    ensures CanComplete(c, worlds[i])
  {
    RunKeeps(c, events, worlds, i);
    CompletesFrom(c, worlds[i]);
  }

  lemma EchoHeard(c: Setup, echoed: World, w: World)
    requires SenderIn(w, Transferring) && w.sender.value.direction == Sending
    requires Answer(Accepted) in w.toSender && echoed == Apply(c, w, ToSenderNow(Answer(Accepted)))
    ensures echoed.sender == w.sender && echoed.receiver == w.receiver && echoed.evicted == w.evicted
    ensures Answer(Accepted) in echoed.toReceiver
  {
    var step := Handle(w.sender.value, Answer(Accepted), 0, c.source, c.hash, SourceIo(true, true), NoSink());
    assert Send(Answer(Accepted)) in step.actions;
  }

  lemma PullHeard(c: Setup, w: World)
    requires ReceiverIn(w, Transferring) && w.receiver.value.direction == Receiving && Answer(Accepted) in w.toReceiver
    ensures
      var pulled := Apply(c, w, ToReceiverNow(Answer(Accepted)));
      && ReceiverIn(pulled, Transferring) && pulled.receiver.value.transferred == w.receiver.value.transferred
      && pulled.sender == w.sender && pulled.evicted == w.evicted
      && RequestAt(w.receiver.value.transferred) in pulled.toSender
  {
    var step := Handle(w.receiver.value, Answer(Accepted), 0, [], c.hash, NoSource(), SinkIo(None, true, true, true));
    assert Send(RequestAt(w.receiver.value.transferred)) in step.actions;
  }

  // ----- Consent -----

  /** Data or a digest is on the network only after the receiver accepted. */
  lemma ConsentIsCausal(c: Setup, events: seq<Event>, worlds: seq<World>, i: nat, m: Message)
    requires |c.source| <= U64_MAX && IsRun(c, events, worlds) && i < |worlds|
    requires m in worlds[i].toReceiver && (m.Chunk? || m.Complete?)
    ensures ReceiverWasIn(worlds, i, Transferring)
  {
    RunKeeps(c, events, worlds, i);
    HistoryIsReal(c, events, worlds, i);
    assert FitForReceiver(c, worlds[i], m);
  }

  /** The record at `site` in world `i` was created by event `k` and has existed since. */
  ghost predicate BornAt(events: seq<Event>, worlds: seq<World>, site: Site, k: nat, i: nat)
    requires |worlds| == |events| + 1 && i < |worlds|
  {
    && k < i && IsBirth(events[k])
    && !Has(worlds[k], site)
    && forall j :: k < j <= i ==> Has(worlds[j], site)
  }

  function BirthTime(e: Event): nat
    requires IsBirth(e)
  {
    e.now
  }

  /** An event moves one side, or neither. */
  lemma RecordsAfter(c: Setup, w: World, e: Event)
    requires Enabled(c, w, e) && !e.Evict?
    ensures
      var next, atReceiver, atSender := Apply(c, w, e), ReceiverStep(c, w, e), SenderStep(c, w, e);
      && next.receiver == (if atReceiver.Some? then Some(atReceiver.value.record) else w.receiver)
      && next.sender == (if atReceiver.None? && atSender.Some? then Some(atSender.value.record) else w.sender)
      && (next.receiverAccepted ==> w.receiverAccepted || (atReceiver.Some? && atReceiver.value.record.phase == Transferring))
      && (next.receiverCompleted ==> w.receiverCompleted || (atReceiver.Some? && atReceiver.value.record.phase == Completed))
  {
  }

  lemma ReceiverEvolves(c: Setup, w: World, e: Event)
    requires Enabled(c, w, e) && !e.Evict? && w.receiver.Some?
    ensures ReceiverStep(c, w, e).Some? ==> Evolves(w.receiver.value, ReceiverStep(c, w, e).value.record, e.now)
  {
    var r := w.receiver.value;
    match e
    case DeliverToReceiver(m, now, _, _, _, io) => HandleEvolves(r, m, now, [], c.hash, NoSource(), io);
    case UserAccepts(now, preparation) => ReceiverOperationsEvolve(r, now, false, false, preparation);
    case UserOverwrites(now, made, preparation, _) => ReceiverOperationsEvolve(r, now, false, made, preparation);
    case UserDeclines(now) => ReceiverOperationsEvolve(r, now, false, false, Unavailable);
    case UserCancels(_, now, _) => CommonOperationsEvolve(r, None, now);
    case Tick(_, now, _) => CommonOperationsEvolve(r, None, now);
    case Disconnect(_, now, _) => CommonOperationsEvolve(r, None, now);
    case MakeOffer(_) =>
    case DeliverToSender(_, _, _) =>
    case Evict(_) =>
  }

  lemma SenderEvolves(c: Setup, w: World, e: Event)
    requires Enabled(c, w, e) && !e.Evict? && w.sender.Some? && w.offered
    ensures SenderStep(c, w, e).Some? ==> Evolves(w.sender.value, SenderStep(c, w, e).value.record, e.now)
  {
    var r := w.sender.value;
    match e
    case DeliverToSender(m, now, io) => HandleEvolves(r, m, now, c.source, c.hash, io, NoSink());
    case UserCancels(_, now, _) => CommonOperationsEvolve(r, None, now);
    case Tick(_, now, _) => CommonOperationsEvolve(r, None, now);
    case Disconnect(_, now, _) => CommonOperationsEvolve(r, None, now);
    case MakeOffer(_) =>
    case DeliverToReceiver(_, _, _, _, _, _) =>
    case UserAccepts(_, _) =>
    case UserOverwrites(_, _, _, _) =>
    case UserDeclines(_) =>
    case Evict(_) =>
  }

  /** One event evolves the record at each site, or creates or evicts it. */
  lemma EventEvolves(c: Setup, w: World, e: Event, site: Site)
    requires (w.sender.Some? ==> w.offered) && Enabled(c, w, e) && Has(w, site) && Has(Apply(c, w, e), site)
    ensures !e.Evict? ==> Evolves(RecordAt(w, site), RecordAt(Apply(c, w, e), site), e.now)
    ensures e.Evict? ==> RecordAt(w, site) == RecordAt(Apply(c, w, e), site)
  {
    if e.Evict? {
    } else if site == AtSender {
      RecordsAfter(c, w, e);
      SenderEvolves(c, w, e);
    } else {
      RecordsAfter(c, w, e);
      ReceiverEvolves(c, w, e);
    }
  }

  lemma BirthSetsDeadline(c: Setup, w: World, e: Event, site: Site)
    requires Enabled(c, w, e) && !Has(w, site) && Has(Apply(c, w, e), site)
    ensures IsBirth(e)
    ensures RecordAt(Apply(c, w, e), site).approvalDeadline == BirthTime(e) + APPROVAL_TIMEOUT
  {
    if !e.Evict? {
      RecordsAfter(c, w, e);
    }
    if e.DeliverToReceiver? && e.message.Offer? {
      ReceiverOperationsEvolve(NewReceiver(0, "", 1, e.message.name, e.message.size, e.now), e.now, e.automatic, false, e.preparation);
    }
  }

  lemma OfferedFirst(c: Setup, events: seq<Event>, worlds: seq<World>, i: nat)
    requires |c.source| <= U64_MAX && IsRun(c, events, worlds) && i < |worlds|
    ensures worlds[i].sender.Some? ==> worlds[i].offered
  {
    RunKeeps(c, events, worlds, i);
  }

  predicate IsBirth(e: Event) {
    e.MakeOffer? || e.DeliverToReceiver?
  }

  /** One event leaves a record's deadline alone, or creates the record and sets it. */
  lemma DeadlineStep(c: Setup, events: seq<Event>, worlds: seq<World>, i: nat, site: Site)
    requires |c.source| <= U64_MAX && IsRun(c, events, worlds) && i < |events| && Has(worlds[i + 1], site)
    ensures Has(worlds[i], site) ==>
              RecordAt(worlds[i + 1], site).approvalDeadline == RecordAt(worlds[i], site).approvalDeadline
    ensures !Has(worlds[i], site) ==>
              IsBirth(events[i]) && RecordAt(worlds[i + 1], site).approvalDeadline == BirthTime(events[i]) + APPROVAL_TIMEOUT
  {
    OfferedFirst(c, events, worlds, i);
    assert StepsAt(c, events, worlds, i);
    if Has(worlds[i], site) {
      EventEvolves(c, worlds[i], events[i], site);
    } else {
      BirthSetsDeadline(c, worlds[i], events[i], site);
    }
  }

  /** The deadline of a record is its birth time plus the approval timeout for as long as it lives. */
  lemma {:induction false} DeadlineIsFixed(c: Setup, events: seq<Event>, worlds: seq<World>, i: nat, site: Site)
    requires |c.source| <= U64_MAX && IsRun(c, events, worlds) && i < |events| && Has(worlds[i + 1], site)
    ensures exists k: nat :: BornAt(events, worlds, site, k, i + 1)
                     && RecordAt(worlds[i + 1], site).approvalDeadline == BirthTime(events[k]) + APPROVAL_TIMEOUT
  {
    DeadlineStep(c, events, worlds, i, site);
    if Has(worlds[i], site) {
      assert i > 0;
      DeadlineIsFixed(c, events, worlds, i - 1, site);
      var k: nat :| BornAt(events, worlds, site, k, i)
            && RecordAt(worlds[i], site).approvalDeadline == BirthTime(events[k]) + APPROVAL_TIMEOUT;
      assert BornAt(events, worlds, site, k, i + 1);
    } else {
      assert BornAt(events, worlds, site, i, i + 1);
    }
  }

  /**
   Every entry into the transferring phase, on either side and whatever duplicates arrive, happens
   strictly before the creation time of that very record plus the approval timeout.
   */
  lemma ConsentIsTimely(c: Setup, events: seq<Event>, worlds: seq<World>, i: nat, site: Site)
    requires |c.source| <= U64_MAX && IsRun(c, events, worlds) && i < |events|
    requires Has(worlds[i], site) ==> RecordAt(worlds[i], site).phase != Transferring
    requires Has(worlds[i + 1], site) && RecordAt(worlds[i + 1], site).phase == Transferring
    ensures exists k: nat :: BornAt(events, worlds, site, k, i + 1)
                     && !events[i].Evict? && events[i].now < BirthTime(events[k]) + APPROVAL_TIMEOUT
  {
    DeadlineIsFixed(c, events, worlds, i, site);
    OfferedFirst(c, events, worlds, i);
    var w, e := worlds[i], events[i];
    assert StepsAt(c, events, worlds, i);
    if Has(w, site) {
      EventEvolves(c, w, e, site);
    } else {
      BirthSetsDeadline(c, w, e, site);
    }
  }
}
