/** What one record of a manual transfer does, whatever its peer sends. */
module ManualConduct {
  import opened Common
  import opened ManualRecord

  predicate CarriesData(a: Action) {
    a.Send? && (a.message.Chunk? || a.message.Complete?)
  }

  predicate Writes(a: Action) {
    a.Append? || a.RenameStaged?
  }

  // ----- Nothing without consent -----

  lemma FailActs(r: Record, error: Failure, now: nat)
    ensures forall a :: a in Fail(r, error, now).actions ==> !CarriesData(a) && !Writes(a)
  {
  }

  lemma FinishActs(r: Record, digest: Digest, now: nat, hash: Bytes -> Digest, io: SinkIo)
    requires r.incoming.Some?
    ensures forall a :: a in FinishReceiver(r, digest, now, hash, io).actions ==> !CarriesData(a)
  {
  }

  lemma SendChunkActs(r: Record, offset: nat, length: nat, now: nat, source: Bytes, hash: Bytes -> Digest, io: SourceIo, a: Action)
    requires a in SendChunk(r, offset, length, now, source, hash, io).actions && (CarriesData(a) || Writes(a))
    ensures CarriesData(a) && r.direction == Sending && r.phase == Transferring
  {
  }

  lemma WriteChunkActs(r: Record, offset: nat, data: Bytes, now: nat, hash: Bytes -> Digest, io: SinkIo, a: Action)
    requires a in WriteChunk(r, offset, data, now, hash, io).actions && (CarriesData(a) || Writes(a))
    ensures Writes(a) && r.direction == Receiving && r.phase == Transferring
  {
    if r.direction == Receiving && r.phase == Transferring && r.incoming.Some? {
      assert !CarriesData(a) by {
        FailActs(r, InvalidChunk, now);
        FailActs(r, OverlappingChunk, now);
        FailActs(r, WriteError, now);
        if r.earlyDigest.Some? {
          FinishActs(Kept(r, data, now).(earlyDigest := None), r.earlyDigest.value, now, hash, io);
        }
      }
    }
  }

  lemma CompleteActs(r: Record, digest: Digest, now: nat, hash: Bytes -> Digest, io: SinkIo, a: Action)
    requires a in CompleteReceiver(r, digest, now, hash, io).actions && (CarriesData(a) || Writes(a))
    ensures Writes(a) && r.direction == Receiving && r.phase == Transferring
  {
  }

  /**
   Whatever datagram comes, from an honest peer or not: only a sender that is transferring gives out data or
   a digest, and only a receiver that is transferring writes or puts a file in place.
   */
  lemma ConsentIsEnforced(r: Record, m: Message, now: nat, source: Bytes, hash: Bytes -> Digest, sourceIo: SourceIo, sinkIo: SinkIo, a: Action)
    requires a in Handle(r, m, now, source, hash, sourceIo, sinkIo).actions && (CarriesData(a) || Writes(a))
    ensures r.phase == Transferring && if CarriesData(a) then r.direction == Sending else r.direction == Receiving
  {
    match m
    case Request(offset, length) => SendChunkActs(r, offset, length, now, source, hash, sourceIo, a);
    case Chunk(offset, data) => WriteChunkActs(r, offset, data, now, hash, sinkIo, a);
    case Complete(digest) => CompleteActs(r, digest, now, hash, sinkIo, a);
    case Answer(_) =>
    case Result(_, _) =>
    case Cancel =>
    case Offer(_, _) =>
  }

  /** Data asked for or sent without consent is answered with a refusal, and changes nothing. */
  lemma UnacceptedIsRefused(r: Record, m: Message, now: nat, source: Bytes, hash: Bytes -> Digest, sourceIo: SourceIo, sinkIo: SinkIo)
    requires r.phase == Offering || r.phase == AwaitingAcceptance
    requires m.Request? || (r.direction == Receiving && (m.Chunk? || m.Complete?))
    ensures Handle(r, m, now, source, hash, sourceIo, sinkIo) == Step(r, [Send(Result(false, Some(NotAccepted)))])
  {
  }

  // ----- Progress -----

  lemma WrittenRestarts(r: Record, offset: nat, data: Bytes, now: nat, hash: Bytes -> Digest, io: SinkIo)
    requires
      var step := WriteChunk(r, offset, data, now, hash, io);
      step.record.phase == Transferring && exists a :: a in step.actions && Writes(a)
    ensures var next := WriteChunk(r, offset, data, now, hash, io).record; next.retries == 0 && next.lastActivity == now
  {
  }

  lemma ServedRestarts(r: Record, offset: nat, length: nat, now: nat, source: Bytes, hash: Bytes -> Digest, io: SourceIo, a: Action)
    requires a in SendChunk(r, offset, length, now, source, hash, io).actions && CarriesData(a)
    ensures var next := SendChunk(r, offset, length, now, source, hash, io).record; next.retries == 0 && next.lastActivity == now
  {
  }

  lemma FinishedIsSettled(r: Record, digest: Digest, now: nat, hash: Bytes -> Digest, io: SinkIo, a: Action)
    requires a in CompleteReceiver(r, digest, now, hash, io).actions && (CarriesData(a) || Writes(a))
    ensures IsTerminal(CompleteReceiver(r, digest, now, hash, io).record.phase)
  {
  }

  /** Every datagram that moves data restarts the retry timer, so a transfer that makes progress does not time out. */
  lemma ProgressRestartsTimer(r: Record, m: Message, now: nat, source: Bytes, hash: Bytes -> Digest, sourceIo: SourceIo, sinkIo: SinkIo, a: Action)
    requires a in Handle(r, m, now, source, hash, sourceIo, sinkIo).actions && (CarriesData(a) || Writes(a))
    requires Handle(r, m, now, source, hash, sourceIo, sinkIo).record.phase == Transferring
    ensures var next := Handle(r, m, now, source, hash, sourceIo, sinkIo).record; next.retries == 0 && next.lastActivity == now
  {
    match m
    case Request(offset, length) =>
      SendChunkActs(r, offset, length, now, source, hash, sourceIo, a);
      ServedRestarts(r, offset, length, now, source, hash, sourceIo, a);
    case Chunk(offset, data) =>
      WriteChunkActs(r, offset, data, now, hash, sinkIo, a);
      WrittenRestarts(r, offset, data, now, hash, sinkIo);
    case Complete(digest) => FinishedIsSettled(r, digest, now, hash, sinkIo, a);
    case Answer(_) =>
    case Result(_, _) =>
    case Cancel =>
    case Offer(_, _) =>
  }

  /** So does consent: a sender that starts, a receiver that is prepared, and the first echo the receiver hears of its acceptance. */
  lemma ConsentRestartsTimer(r: Record, decision: ManualDecision, place: Place, now: nat, automatic: bool, preparation: Preparation)
    requires r.phase != Transferring || (r.direction == Receiving && decision == Accepted && r.retryEvent.Some? && r.retryEvent.value.Answer?)
    ensures
      var next := Decide(r, decision, now).record;
      next.phase == Transferring ==> next.retries == 0 && next.lastActivity == now && (r.phase != Transferring ==> next.error.None?)
    ensures
      var next := PrepareReceiver(r, place, now, automatic, preparation).record;
      next.phase == Transferring && r.phase != Transferring ==> next.retries == 0 && next.lastActivity == now && next.error.None?
  {
  }

  // ----- Routes -----

  /** A new route changes nothing but the route; losing it ends an active transfer and says nothing to anybody. */
  lemma RouteIsFollowed(r: Record, route: Option<Peer>, now: nat)
    ensures
      var step := Reroute(r, route, now);
      && (forall a :: a in step.actions ==> !a.Send?)
      && (route.Some? ==> step.record.peer == route.value && step.record == r.(peer := step.record.peer))
      && (route.None? && IsTerminal(r.phase) ==> step.record == r)
      && (route.None? && !IsTerminal(r.phase) ==> step.record.phase == Failed && step.record.error == Some(PeerDisconnected))
  {
  }
}
