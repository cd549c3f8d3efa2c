/**
 A record that hears nothing: every one settles after finitely many ticks and stops talking.
 */
module ManualSilence {
  import opened Common
  import opened ManualRecord

  function AfterTicks(r: Record, times: seq<nat>): Record
    decreases |times|
  {
    if times == [] then r else AfterTicks(TickRecord(r, times[0]).record, times[1..])
  }

  /** What ticking sends: repeats while active, the farewell of a record that gives up, repeats once settled. */
  datatype Traffic = Traffic(active: nat, farewells: nat, settled: nat)

  function TickTraffic(r: Record, times: seq<nat>): Traffic
    decreases |times|
  {
    if times == [] then Traffic(0, 0, 0)
    else
      var step := TickRecord(r, times[0]);
      var sent := |set a | a in step.actions && a.Send?|;
      var rest := TickTraffic(step.record, times[1..]);
      if IsTerminal(r.phase) then rest.(settled := rest.settled + sent)
      else if IsTerminal(step.record.phase) then rest.(farewells := rest.farewells + sent)
      else rest.(active := rest.active + sent)
  }

  /** Each tick comes at least one retry timeout after `last` and after the tick before it. */
  predicate Spaced(last: nat, times: seq<nat>) {
    && (times != [] ==> times[0] >= last + RETRY_TIMEOUT)
    && forall i :: 0 < i < |times| ==> times[i] >= times[i - 1] + RETRY_TIMEOUT
  }

  /** Ticks a silent record can still outlive, the first of them at `first`. */
  function Patience(r: Record, first: nat): nat {
    if IsTerminal(r.phase) then 0
    else if r.phase == AwaitingAcceptance then
      if first >= r.approvalDeadline then 1
      else 1 + (r.approvalDeadline - first + RETRY_TIMEOUT - 1) / RETRY_TIMEOUT
    else if r.retries >= MAX_RETRIES then 1
    else MAX_RETRIES - r.retries + 1
  }

  /** One spaced tick uses up patience, or the record has settled. */
  lemma TickUsesPatience(r: Record, now: nat, next: nat)
    requires now >= r.lastActivity + RETRY_TIMEOUT && next >= now + RETRY_TIMEOUT && !IsTerminal(r.phase)
    ensures
      var after := TickRecord(r, now).record;
      Patience(after, next) < Patience(r, now) && next >= after.lastActivity + RETRY_TIMEOUT
  {
    var after := TickRecord(r, now).record;
    if r.phase == AwaitingAcceptance && now < r.approvalDeadline {
      assert after == r;
    }
  }

  lemma {:induction false} SettledStaysSettled(r: Record, times: seq<nat>)
    requires IsTerminal(r.phase)
    ensures AfterTicks(r, times).phase == r.phase
    decreases |times|
  {
    if times != [] {
      SettledStaysSettled(TickRecord(r, times[0]).record, times[1..]);
    }
  }

  /** Without incoming messages, enough spaced ticks settle any record; how many is known in advance. */
  lemma {:induction false} SilenceSettles(r: Record, times: seq<nat>)
    requires times != [] && Spaced(r.lastActivity, times) && |times| >= Patience(r, times[0])
    ensures IsTerminal(AfterTicks(r, times).phase)
    decreases |times|
  {
    var after, rest := TickRecord(r, times[0]).record, times[1..];
    if IsTerminal(r.phase) {
      SettledStaysSettled(r, times);
    } else if rest == [] {
      TickUsesPatience(r, times[0], times[0] + RETRY_TIMEOUT);
    } else {
      assert rest[0] == times[1];
      TickUsesPatience(r, times[0], rest[0]);
      SilenceSettles(after, rest);
    }
  }

  lemma TickSendsOnce(r: Record, now: nat)
    ensures |set a | a in TickRecord(r, now).actions && a.Send?| <= 1
  {
    var actions := TickRecord(r, now).actions;
    var sent := set a | a in actions && a.Send?;
    if IsTerminal(TickRecord(r, now).record.phase) && !IsTerminal(r.phase) {
      assert sent == {Send(Cancel)};
    } else if r.retryEvent.Some? {
      assert sent <= {Send(r.retryEvent.value)};
      if sent != {} {
        assert sent == {Send(r.retryEvent.value)};
      }
    } else {
      assert sent == {};
    }
  }

  /**
   Over any number of ticks at any times: at most `MAX_RETRIES` repeats while the record is active, one
   farewell when it gives up, and at most `MAX_RETRIES` repeats afterwards.
   */
  lemma {:induction false} TrafficIsBounded(r: Record, times: seq<nat>)
    requires r.retries <= MAX_RETRIES
    ensures
      var t := TickTraffic(r, times);
      if IsTerminal(r.phase) then
        t.active == 0 && t.farewells == 0 && t.settled <= MAX_RETRIES - r.retries
      else
        t.active <= MAX_RETRIES - r.retries && t.farewells <= 1 && t.settled <= MAX_RETRIES
    decreases |times|
  {
    if times != [] {
      var step := TickRecord(r, times[0]);
      TickSendsOnce(r, times[0]);
      TrafficIsBounded(step.record, times[1..]);
      if step.record == r {
        assert step.actions == [];
        assert (set a | a in step.actions && a.Send?) == {};
      }
    }
  }

  // ----- What a silent record does send -----

  /** The datagrams that ticking sends, in order. */
  function Spoken(r: Record, times: seq<nat>): seq<Message>
    decreases |times|
  {
    if times == [] then []
    else
      var step := TickRecord(r, times[0]);
      (if step.actions != [] && step.actions[0].Send? then [step.actions[0].message] else []) + Spoken(step.record, times[1..])
  }

  function Repeats(m: Option<Message>, count: nat): seq<Message> {
    if m.None? then [] else seq(count, _ => m.value)
  }

  lemma RepeatsOnce(m: Option<Message>, count: nat)
    requires count > 0
    ensures Repeats(m, count) == (if m.Some? then [m.value] else []) + Repeats(m, count - 1)
  {
  }

  lemma SpokenRest(r: Record, times: seq<nat>)
    requires times != [] && Spaced(r.lastActivity, times)
    ensures forall last :: last <= times[0] ==> Spaced(last, times[1..])
  {
    var rest := times[1..];
    assert forall i :: 0 <= i < |rest| ==> rest[i] == times[i + 1];
  }

  /** A settled record repeats its last word at every due tick until its retries are used up, and then is silent. */
  lemma {:induction false} SettledRepeats(r: Record, times: seq<nat>)
    requires IsTerminal(r.phase) && r.retries <= MAX_RETRIES && Spaced(r.lastActivity, times)
    ensures Spoken(r, times) == Repeats(r.retryEvent, Min(|times|, MAX_RETRIES - r.retries))
    decreases |times|
  {
    if times != [] {
      var after := TickRecord(r, times[0]).record;
      SpokenRest(r, times);
      if r.retries == MAX_RETRIES {
        SettledIsSilent(r, times);
      } else {
        SettledRepeats(after, times[1..]);
        RepeatsOnce(r.retryEvent, Min(|times|, MAX_RETRIES - r.retries));
      }
    }
  }

  lemma {:induction false} SettledIsSilent(r: Record, times: seq<nat>)
    requires IsTerminal(r.phase) && r.retries == MAX_RETRIES
    ensures Spoken(r, times) == []
    decreases |times|
  {
    if times != [] {
      SettledIsSilent(r, times[1..]);
    }
  }

  /** A due tick of an active record: one more repeat, or the farewell. */
  lemma SilentTick(r: Record, now: nat)
    requires now >= r.lastActivity + RETRY_TIMEOUT && r.retries <= MAX_RETRIES
    requires r.phase == Transferring || (r.phase == Offering && now < r.approvalDeadline)
    ensures
      var step := TickRecord(r, now);
      && step.record.lastActivity == now
      && if r.retries == MAX_RETRIES then
        && IsTerminal(step.record.phase) && step.record.retryEvent.None? && step.record.retries == 0
        && step.actions != [] && step.actions[0] == Send(Cancel)
      else
        && step.record == r.(retries := r.retries + 1, lastActivity := now)
        && step.actions == if r.retryEvent.Some? then [Send(r.retryEvent.value)] else []
  {
  }

  lemma SaysAgain(r: Record, times: seq<nat>)
    requires times != [] && times[0] >= r.lastActivity + RETRY_TIMEOUT && r.retries < MAX_RETRIES
    requires r.phase == Transferring || (r.phase == Offering && times[0] < r.approvalDeadline)
    ensures
      Spoken(r, times) ==
        (if r.retryEvent.Some? then [r.retryEvent.value] else []) + Spoken(r.(retries := r.retries + 1, lastActivity := times[0]), times[1..])
  {
    SilentTick(r, times[0]);
  }

  lemma GivesUp(r: Record, times: seq<nat>)
    requires times != [] && Spaced(r.lastActivity, times) && r.retries == MAX_RETRIES
    requires r.phase == Transferring || (r.phase == Offering && times[0] < r.approvalDeadline)
    ensures Spoken(r, times) == [Cancel]
  {
    SilentTick(r, times[0]);
    SpokenRest(r, times);
    SettledRepeats(TickRecord(r, times[0]).record, times[1..]);
  }

  /**
   A silent record that is transferring, or offering with its deadline ahead, repeats its last word at
   every due tick, gives up with one `Cancel` at the tick after its last retry, and is silent from then on.
   */
  lemma {:induction false} SilenceIsSpoken(r: Record, times: seq<nat>)
    requires r.retries <= MAX_RETRIES && Spaced(r.lastActivity, times)
    requires r.phase == Transferring || (r.phase == Offering && forall now :: now in times ==> now < r.approvalDeadline)
    ensures
      Spoken(r, times) ==
        Repeats(r.retryEvent, Min(|times|, MAX_RETRIES - r.retries)) + if |times| > MAX_RETRIES - r.retries then [Cancel] else []
    decreases |times|
  {
    if times != [] {
      assert times[0] in times && forall now :: now in times[1..] ==> now in times;
      if r.retries == MAX_RETRIES {
        GivesUp(r, times);
      } else {
        var after := r.(retries := r.retries + 1, lastActivity := times[0]);
        SpokenRest(r, times);
        SaysAgain(r, times);
        SilenceIsSpoken(after, times[1..]);
        RepeatsOnce(r.retryEvent, Min(|times|, MAX_RETRIES - r.retries));
      }
    }
  }

  /**
   A sender told that its offer is being considered stops repeating it and says nothing while the deadline
   is ahead; at the first tick at or after the deadline it withdraws the offer.
   */
  lemma {:induction false} PendingIsQuiet(r: Record, told: nat, times: seq<nat>)
    requires r.direction == Sending && r.phase == Offering && times != []
    requires forall i :: 0 <= i < |times| - 1 ==> times[i] < r.approvalDeadline
    ensures
      Spoken(Decide(r, Pending, told).record, times) == if times[|times| - 1] < r.approvalDeadline then [] else [Cancel]
  {
    var waiting := r.(phase := AwaitingAcceptance, retryEvent := None, retries := 0);
    assert Decide(r, Pending, told).record == waiting;
    WaitsQuietly(waiting, times);
  }

  lemma {:induction false} WaitsQuietly(r: Record, times: seq<nat>)
    requires r.phase == AwaitingAcceptance && times != []
    requires forall i :: 0 <= i < |times| - 1 ==> times[i] < r.approvalDeadline
    ensures Spoken(r, times) == if times[|times| - 1] < r.approvalDeadline then [] else [Cancel]
    decreases |times|
  {
    var step, rest := TickRecord(r, times[0]), times[1..];
    if rest == [] {
      assert Spoken(step.record, rest) == [];
    } else {
      assert step == Step(r, []);
      WaitsQuietly(r, rest);
    }
  }

  // ----- Farewells are repeated -----

  /** After the user cancels, spaced ticks repeat the cancellation, three times at most. */
  lemma CancellationIsRepeated(r: Record, now: nat, times: seq<nat>)
    requires !IsTerminal(r.phase) && Spaced(now, times)
    ensures Spoken(CancelledByUser(r, now).record, times) == Repeats(Some(Cancel), Min(|times|, MAX_RETRIES))
  {
    SettledRepeats(CancelledByUser(r, now).record, times);
  }

  lemma RefusalIsRepeated(r: Record, now: nat, times: seq<nat>)
    requires r.direction == Receiving && r.phase == AwaitingAcceptance && Spaced(now, times)
    ensures Spoken(DeclinedByUser(r, now).record, times) == Repeats(Some(Answer(Declined)), Min(|times|, MAX_RETRIES))
  {
    SettledRepeats(DeclinedByUser(r, now).record, times);
  }

  /** The outcome of a receiver that took the last byte, success or failure, is repeated the same way. */
  lemma OutcomeIsRepeated(r: Record, digest: Digest, now: nat, hash: Bytes -> Digest, io: SinkIo, times: seq<nat>)
    requires r.phase == Transferring && r.incoming.Some? && r.finalResult.None? && Spaced(now, times)
    ensures
      var done := FinishReceiver(r, digest, now, hash, io).record;
      && (done.phase == Completed || done.phase == Failed)
      && Spoken(done, times) ==
         Repeats(Some(if done.phase == Completed then Result(true, None) else Rejection(TransferFailed)), Min(|times|, MAX_RETRIES))
  {
    FinishedTalks(r, digest, now, hash, io);
    SettledRepeats(FinishReceiver(r, digest, now, hash, io).record, times);
  }

  lemma FinishedTalks(r: Record, digest: Digest, now: nat, hash: Bytes -> Digest, io: SinkIo)
    requires r.phase == Transferring && r.incoming.Some? && r.finalResult.None?
    ensures
      var done := FinishReceiver(r, digest, now, hash, io).record;
      && (done.phase == Completed || done.phase == Failed) && done.retries == 0 && done.lastActivity == now
      && done.retryEvent == Some(if done.phase == Completed then Result(true, None) else Rejection(TransferFailed))
  {
    FailureTalks(r, SizeMismatch, now);
    FailureTalks(r, SyncError, now);
    FailureTalks(r, DigestMismatch, now);
    FailureTalks(r.(incoming := Some(r.incoming.value.(finished := true))), RenameError, now);
  }

  lemma FailureTalks(r: Record, error: Failure, now: nat)
    requires r.finalResult.None?
    ensures
      var failed := Fail(r, error, now).record;
      failed.phase == Failed && failed.retries == 0 && failed.lastActivity == now && failed.retryEvent == Some(Rejection(TransferFailed))
  {
  }

  // ----- What is under way is repeated -----

  /** What a record says at spaced ticks when its last word is `m` and its retries are fresh. */
  function RepeatsThenGivesUp(m: Option<Message>, ticks: nat): seq<Message> {
    Repeats(m, Min(ticks, MAX_RETRIES)) + if ticks > MAX_RETRIES then [Cancel] else []
  }

  /** An offer that nobody answers is repeated and then withdrawn. */
  lemma OfferIsRepeated(peer: Peer, fingerprint: string, id: nat, name: string, size: nat, now: nat, times: seq<nat>)
    requires Spaced(now, times) && forall t :: t in times ==> t < now + APPROVAL_TIMEOUT
    ensures Spoken(NewSender(peer, fingerprint, id, name, size, now), times) == RepeatsThenGivesUp(Some(Offer(name, size)), |times|)
  {
    SilenceIsSpoken(NewSender(peer, fingerprint, id, name, size, now), times);
  }

  /** An acceptance that is not echoed is repeated; once it is echoed, the request for data is. */
  lemma AcceptanceIsRepeated(r: Record, place: Place, now: nat, automatic: bool, echoed: nat, times: seq<nat>)
    requires r.direction == Receiving && r.phase == AwaitingAcceptance && now < r.approvalDeadline
    ensures
      var ready := PrepareReceiver(r, place, now, automatic, Ready).record;
      && (Spaced(now, times) ==> Spoken(ready, times) == RepeatsThenGivesUp(Some(Answer(Accepted)), |times|))
      && (Spaced(echoed, times) ==>
            Spoken(Decide(ready, Accepted, echoed).record, times) == RepeatsThenGivesUp(Some(RequestAt(r.transferred)), |times|))
  {
    var ready := PrepareReceiver(r, place, now, automatic, Ready).record;
    assert ready.phase == Transferring;
    if Spaced(now, times) {
      SilenceIsSpoken(ready, times);
    }
    if Spaced(echoed, times) {
      SilenceIsSpoken(Decide(ready, Accepted, echoed).record, times);
    }
  }

  /** A sender that has just served a request repeats a digest; data it leaves to the receiver to ask for again. */
  lemma DigestIsRepeated(r: Record, offset: nat, length: nat, now: nat, source: Bytes, hash: Bytes -> Digest, io: SourceIo, m: Message, times: seq<nat>)
    requires SendChunk(r, offset, length, now, source, hash, io).actions == [Send(m)] && (m.Chunk? || m.Complete?)
    requires r.cachedRequest != Some((offset, length)) && Spaced(now, times)
    ensures
      Spoken(SendChunk(r, offset, length, now, source, hash, io).record, times) ==
        RepeatsThenGivesUp(if m.Complete? then Some(m) else None, |times|)
  {
    ServedTalks(r, offset, length, now, source, hash, io, m);
    SilenceIsSpoken(SendChunk(r, offset, length, now, source, hash, io).record, times);
  }

  lemma ServedTalks(r: Record, offset: nat, length: nat, now: nat, source: Bytes, hash: Bytes -> Digest, io: SourceIo, m: Message)
    requires SendChunk(r, offset, length, now, source, hash, io).actions == [Send(m)] && (m.Chunk? || m.Complete?)
    requires r.cachedRequest != Some((offset, length))
    ensures
      var next := SendChunk(r, offset, length, now, source, hash, io).record;
      && next.phase == Transferring && next.retries == 0 && next.lastActivity == now
      && next.retryEvent == if m.Complete? then Some(m) else None
  {
    FailureCarriesNothing(r, InvalidRequest, now, m);
    FailureCarriesNothing(r, UnexpectedOffset, now, m);
    FailureCarriesNothing(r, SourceUnavailable, now, m);
    FailureCarriesNothing(r, SourceError, now, m);
  }

  lemma FailureCarriesNothing(r: Record, error: Failure, now: nat, m: Message)
    requires m.Chunk? || m.Complete?
    ensures Fail(r, error, now).actions != [Send(m)]
  {
    var actions := Fail(r, error, now).actions;
    assert actions[|actions| - 1] == Send(Rejection(TransferFailed));
  }
}
