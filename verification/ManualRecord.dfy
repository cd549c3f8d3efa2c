/**
 One record of the manual file transfer protocol and every operation that changes it.

 A record is a value: the table moves it out of its map, changes it and moves it back,
 so each operation is a function from the old record to the new one and the ordered list
 of its effects (datagrams to the peer and operations on the destination disk).
 Outcomes of I/O are inputs of the operation. The digest is any function of the bytes.
 */
module ManualRecord {
  import opened Common

  const MAX_RETRIES: nat := 3
  const APPROVAL_TIMEOUT: nat := 600_000
  const RETRY_TIMEOUT: nat := 5_000

  type Digest = Bytes

  type Peer = nat

  datatype ManualDecision = Pending | Accepted | Declined

  /** The texts that travel inside a failed result. */
  datatype Reason =
    | InvalidOffer
    | ConflictingOffer
    | TooManyTransfers
    | NotAccepted
    | DestinationUnavailable
    | TransferFailed
    | OtherText(text: string)

  datatype Message =
    | Offer(name: string, size: nat)
    | Answer(decision: ManualDecision)
    | Request(offset: nat, length: nat)
    | Chunk(offset: nat, data: Bytes)
    | Complete(sha256: Digest)
    | Result(success: bool, reason: Option<Reason>)
    | Cancel

  datatype Direction = Sending | Receiving

  datatype Phase =
    | Offering
    | AwaitingAcceptance
    | Transferring
    | Completed
    | Refused
    | Cancelled
    | Failed

  /** Why a record failed, as shown to the local user. */
  datatype Failure =
    | OfferExpired
    | TimedOut
    | PeerDisconnected
    | InvalidRequest
    | UnexpectedOffset
    | SourceUnavailable
    | SourceError
    | InvalidChunk
    | OverlappingChunk
    | ConflictingDigest
    | WriteError
    | SizeMismatch
    | DigestMismatch
    | SyncError
    | RenameError
    | NameTaken
    | PreparationError
    | Remote(reason: Option<Reason>)

  /** Where a receiver writes: straight to the target, or to a staged copy of it. */
  datatype Place = Target | Staged

  datatype Action =
    | Send(message: Message)
    | CreateFile(place: Place)
    | LoseFile(place: Place)
    | Append(place: Place, data: Bytes)
    | RemoveFile(place: Place)
    | RenameStaged
    | DropStaging

  /** The open source: bytes already read are the bytes already hashed. */
  datatype Outgoing = Outgoing(offset: nat, hashed: Bytes)

  datatype Incoming = Incoming(place: Place, expected: nat, offset: nat, hashed: Bytes, finished: bool)

  datatype Record = Record(
    peer: Peer,
    fingerprint: string,
    id: nat,
    name: string,
    size: nat,
    transferred: nat,
    direction: Direction,
    phase: Phase,
    error: Option<Failure>,
    offer: bool,
    outgoing: Option<Outgoing>,
    incoming: Option<Incoming>,
    replacement: bool,
    lastActivity: nat,
    approvalDeadline: nat,
    retries: nat,
    cachedRequest: Option<(nat, nat)>,
    cachedResponse: Option<Message>,
    retryEvent: Option<Message>,
    finalDigest: Option<Digest>,
    earlyDigest: Option<Digest>,
    finalResult: Option<(bool, Option<Reason>)>)

  datatype Step = Step(record: Record, actions: seq<Action>)

  /** What the source file does when it is opened and read. */
  datatype SourceIo = SourceIo(opens: bool, readable: bool)

  /**
   What the destination does. A failing write may still have written some bytes, and whether files can be
   removed again is something no record ever learns.
   */
  datatype SinkIo = SinkIo(shortWrite: Option<nat>, syncs: bool, renames: bool, removes: bool)

  /** `Lost`: the file was created, but the system could not say which file it is, so nobody keeps track of it. */
  datatype Preparation = Ready | AlreadyExists | Unavailable | Lost

  predicate IsTerminal(phase: Phase) {
    phase.Completed? || phase.Refused? || phase.Cancelled? || phase.Failed?
  }

  function RequestAt(offset: nat): Message {
    Request(offset, MAX_CHUNK)
  }

  function Rejection(reason: Reason): Message {
    Result(false, Some(reason))
  }

  function NewSender(peer: Peer, fingerprint: string, id: nat, name: string, size: nat, now: nat): Record {
    Record(peer, fingerprint, id, name, size, 0, Sending, Offering, None, true, None, None, false,
           now, now + APPROVAL_TIMEOUT, 0, None, None, Some(Offer(name, size)), None, None, None)
  }

  function NewReceiver(peer: Peer, fingerprint: string, id: nat, name: string, size: nat, now: nat): Record {
    Record(peer, fingerprint, id, name, size, 0, Receiving, AwaitingAcceptance, None, false, None, None, false,
           now, now + APPROVAL_TIMEOUT, 0, None, None, None, None, None, None)
  }

  function OfferResponse(r: Record): Message {
    match r.phase
    case AwaitingAcceptance => Answer(Pending)
    case Transferring => Answer(Accepted)
    case Refused => Answer(Declined)
    case Cancelled => Cancel
    case _ =>
      match r.finalResult
      case Some((success, reason)) => Result(success, reason)
      case None => Rejection(TransferFailed)
  }

  /** Dropping an unfinished incoming transfer removes its file; dropping the staging directory removes what is in it. */
  function DropActions(r: Record): seq<Action> {
    (if r.incoming.Some? && !r.incoming.value.finished then [RemoveFile(r.incoming.value.place)] else [])
    + (if r.replacement then [DropStaging] else [])
  }

  function Terminal(r: Record, phase: Phase, error: Option<Failure>, now: nat): Record {
    r.(phase := phase, error := error, retries := 0, lastActivity := now, cachedResponse := None,
       outgoing := None, offer := false, incoming := None, replacement := false,
       retryEvent := match phase
                     case Refused => Some(Answer(Declined))
                     case Cancelled => Some(Cancel)
                     case _ => None)
  }

  function Fail(r: Record, error: Failure, now: nat): Step {
    var failed := Terminal(r, Failed, Some(error), now);
    Step(failed.(retryEvent := Some(OfferResponse(failed))),
         DropActions(r) + [Send(Rejection(TransferFailed))])
  }

  function PrepareReceiver(r: Record, place: Place, now: nat, automatic: bool, preparation: Preparation): Step {
    if r.direction != Receiving || r.phase != AwaitingAcceptance then
      Step(r, [])
    else if now >= r.approvalDeadline then
      Fail(r, OfferExpired, now)
    else
      match preparation
      case Ready =>
        Step(r.(incoming := Some(Incoming(place, r.size, 0, [], false)), phase := Transferring, error := None,
                lastActivity := now, retries := 0, retryEvent := Some(Answer(Accepted))),
             [CreateFile(place), Send(Answer(Accepted))])
      case AlreadyExists =>
        if automatic then
          Step(r.(error := Some(NameTaken)), [Send(Answer(Pending))])
        else
          Step(r.(error := Some(NameTaken)), [])
      case _ =>
        var stray := if preparation == Lost then [LoseFile(place)] else [];
        if automatic then
          var failed := Terminal(r, Failed, Some(PreparationError), now)
                        .(finalResult := Some((false, Some(DestinationUnavailable))));
          Step(failed.(retryEvent := Some(OfferResponse(failed))),
               stray + DropActions(r) + [Send(Rejection(DestinationUnavailable))])
        else
          Step(r.(error := Some(PreparationError)), stray)
  }

  function Accept(r: Record, now: nat, preparation: Preparation): Step {
    PrepareReceiver(r, Target, now, false, preparation)
  }

  /** Accept over an existing file: receive into a fresh staging directory and swap at the end. */
  function Overwrite(r: Record, now: nat, stagingMade: bool, preparation: Preparation): Step {
    if r.direction != Receiving || r.phase != AwaitingAcceptance then
      Step(r, [])
    else if !stagingMade then
      Step(r.(error := Some(PreparationError)), [])
    else
      var step := PrepareReceiver(r, Staged, now, false, preparation);
      if step.record.phase == Transferring then
        step.(record := step.record.(replacement := true))
      else
        step.(actions := step.actions + [DropStaging])
  }

  /** A first offer, when the table has room for it. */
  function FirstOffer(r: Record, automatic: bool, now: nat, preparation: Preparation): Step {
    if automatic then PrepareReceiver(r, Target, now, true, preparation)
    else Step(r, [Send(Answer(Pending))])
  }

  /** An offer for a record that already exists. */
  function RepeatedOffer(r: Record, name: string, size: nat): Step {
    if r.direction != Receiving || r.name != name || r.size != size then
      Step(r, [Send(Rejection(ConflictingOffer))])
    else
      Step(r, [Send(OfferResponse(r))])
  }

  function Decide(r: Record, decision: ManualDecision, now: nat): Step {
    if IsTerminal(r.phase) then
      Step(r, [])
    else
      match (r.direction, decision)
      case (Sending, Pending) =>
        if r.phase != Offering then Step(r, [])
        else Step(r.(phase := AwaitingAcceptance, retryEvent := None, retries := 0), [])
      case (Sending, Accepted) =>
        if now >= r.approvalDeadline && r.phase != Transferring then
          Fail(r, OfferExpired, now)
        else if r.phase != Transferring then
          Step(r.(phase := Transferring, retryEvent := None, lastActivity := now, retries := 0, error := None),
               [Send(Answer(Accepted))])
        else
          Step(r, [Send(Answer(Accepted))])
      case (Sending, Declined) =>
        Step(Terminal(r, Refused, None, now), DropActions(r))
      case (Receiving, Accepted) =>
        if r.phase != Transferring then Step(r, [])
        else
          var pull := RequestAt(r.transferred);
          var pulled := r.(retryEvent := Some(pull));
          Step(if r.retryEvent.Some? && r.retryEvent.value.Answer?
               then pulled.(lastActivity := now, retries := 0) else pulled,
               [Send(pull)])
      case _ => Step(r, [])
  }

  /** `next_chunk_bounded` of an open source whose length is `size`: none when it fails or is at its end. */
  function NextChunk(o: Outgoing, size: nat, maxLength: nat, source: Bytes, readable: bool): Option<(Outgoing, Bytes)> {
    var end := Min(size, o.offset + maxLength);
    if !readable || o.offset >= end || end > |source| then None
    else
      var data := source[o.offset..end];
      Some((Outgoing(end, o.hashed + data), data))
  }

  function SendChunk(r: Record, offset: nat, length: nat, now: nat,
                     source: Bytes, hash: Bytes -> Digest, io: SourceIo): Step
  {
    if IsTerminal(r.phase) then
      Step(r, [])
    else if r.direction != Sending || r.phase != Transferring then
      Step(r, [Send(Rejection(NotAccepted))])
    else if length == 0 || length > MAX_CHUNK || offset > r.size then
      Fail(r, InvalidRequest, now)
    else if r.cachedRequest == Some((offset, length)) && r.cachedResponse.Some? then
      Step(r.(lastActivity := now, retries := 0), [Send(r.cachedResponse.value)])
    else if offset < r.transferred then
      Step(r, [])
    else if offset != r.transferred then
      Fail(r, UnexpectedOffset, now)
    else if r.outgoing.None? && !r.offer then
      Fail(r, SourceUnavailable, now)
    else if r.outgoing.None? && !io.opens then
      Fail(r, SourceError, now)
    else
      var open := if r.outgoing.Some? then r.outgoing.value else Outgoing(0, []);
      if offset == r.size then
        if open.offset != r.size || !io.readable then
          Fail(r, SourceError, now)
        else
          var digest := hash(open.hashed);
          Served(r.(outgoing := Some(open), finalDigest := Some(digest)), offset, length, Complete(digest), now)
      else
        match NextChunk(open, r.size, length, source, io.readable)
        case None => Fail(r, SourceError, now)
        case Some((next, data)) =>
          if open.offset != offset then Fail(r, SourceError, now)
          else Served(r.(outgoing := Some(next), transferred := offset + |data|), offset, length, Chunk(offset, data), now)
  }

  function Served(r: Record, offset: nat, length: nat, response: Message, now: nat): Step {
    Step(r.(cachedRequest := Some((offset, length)), cachedResponse := Some(response),
            retryEvent := if response.Complete? then Some(response) else None,
            lastActivity := now, retries := 0),
         [Send(response)])
  }

  /** The record once `data` is written and hashed. */
  function Kept(r: Record, data: Bytes, now: nat): Record
    requires r.incoming.Some?
  {
    var end := r.transferred + |data|;
    r.(incoming := Some(r.incoming.value.(offset := end, hashed := r.incoming.value.hashed + data)), transferred := end,
       lastActivity := now, retries := 0)
  }

  function WriteChunk(r: Record, offset: nat, data: Bytes, now: nat, hash: Bytes -> Digest, io: SinkIo): Step {
    if r.direction != Receiving then
      Step(r, [])
    else if IsTerminal(r.phase) then
      Step(r, if r.finalResult.Some? then [Send(OfferResponse(r))] else [])
    else if r.phase != Transferring || r.incoming.None? then
      Step(r, [Send(Rejection(NotAccepted))])
    else
      var end := offset + |data|;
      if end > U64_MAX || |data| == 0 || |data| > MAX_CHUNK || end > r.size then
        Fail(r, InvalidChunk, now)
      else if offset != r.transferred then
        if offset < r.transferred && end > r.transferred then
          Fail(r, OverlappingChunk, now)
        else
          Step(r, [Send(RequestAt(r.transferred))])
      else
        var incoming := r.incoming.value;
        if offset != incoming.offset || end > incoming.expected then
          Fail(r, WriteError, now)
        else if io.shortWrite.Some? then
          var failed := Fail(r, WriteError, now);
          failed.(actions := [Append(incoming.place, data[..Min(io.shortWrite.value, |data|)])] + failed.actions)
        else
          var wrote := [Append(incoming.place, data)];
          var kept := Kept(r, data, now);
          if end == r.size && r.earlyDigest.Some? then
            var finished := FinishReceiver(kept.(earlyDigest := None), r.earlyDigest.value, now, hash, io);
            finished.(actions := wrote + finished.actions)
          else
            Step(kept.(retryEvent := Some(RequestAt(end))), wrote + [Send(RequestAt(end))])
  }

  function CompleteReceiver(r: Record, digest: Digest, now: nat, hash: Bytes -> Digest, io: SinkIo): Step {
    if r.direction != Receiving then
      Step(r, [])
    else if IsTerminal(r.phase) then
      Step(r, [Send(OfferResponse(r))])
    else if r.phase != Transferring || r.incoming.None? then
      Step(r, [Send(Rejection(NotAccepted))])
    else if r.transferred != r.size then
      if r.earlyDigest.Some? && r.earlyDigest.value != digest then
        Fail(r, ConflictingDigest, now)
      else
        Step(r.(earlyDigest := Some(digest)), [Send(RequestAt(r.transferred))])
    else
      FinishReceiver(r, digest, now, hash, io)
  }

  function FinishReceiver(r: Record, digest: Digest, now: nat, hash: Bytes -> Digest, io: SinkIo): Step
    requires r.incoming.Some?
  {
    var incoming := r.incoming.value;
    if r.size != incoming.expected || incoming.offset != incoming.expected then
      Fail(r, SizeMismatch, now)
    else if !io.syncs then
      Fail(r, SyncError, now)
    else if hash(incoming.hashed) != digest then
      Fail(r, DigestMismatch, now)
    else
      var kept := r.(incoming := Some(incoming.(finished := true)));
      if kept.replacement && !io.renames then
        Fail(kept, RenameError, now)
      else
        var done := Terminal(kept, Completed, None, now).(finalResult := Some((true, None)));
        Step(done.(retryEvent := Some(OfferResponse(done))),
             (if kept.replacement then [RenameStaged] else []) + DropActions(kept) + [Send(Result(true, None))])
  }

  function ReceiveResult(r: Record, success: bool, reason: Option<Reason>, now: nat): Step {
    if IsTerminal(r.phase) then
      Step(r, [])
    else if !success then
      var failed := Terminal(r, Failed, Some(Remote(reason)), now);
      Step(failed.(retryEvent := Some(OfferResponse(failed))), DropActions(r))
    else if r.direction == Sending && r.phase == Transferring && r.transferred == r.size && r.finalDigest.Some? then
      var done := Terminal(r, Completed, None, now).(finalResult := Some((true, None)));
      Step(done.(retryEvent := Some(OfferResponse(done))), DropActions(r))
    else
      Step(r, [])
  }

  function CancelledByPeer(r: Record, now: nat): Step {
    if IsTerminal(r.phase) then Step(r, [])
    else Step(Terminal(r, Cancelled, None, now), DropActions(r))
  }

  function CancelledByUser(r: Record, now: nat): Step {
    if IsTerminal(r.phase) then Step(r, [])
    else Step(Terminal(r, Cancelled, None, now), DropActions(r) + [Send(Cancel)])
  }

  function DeclinedByUser(r: Record, now: nat): Step {
    if r.direction == Receiving && r.phase == AwaitingAcceptance then
      Step(Terminal(r, Refused, None, now), DropActions(r) + [Send(Answer(Declined))])
    else
      Step(r, [])
  }

  /** A datagram for a record that exists, other than an offer. */
  function Handle(r: Record, message: Message, now: nat, source: Bytes, hash: Bytes -> Digest,
                  sourceIo: SourceIo, sinkIo: SinkIo): Step
  {
    match message
    case Answer(decision) => Decide(r, decision, now)
    case Request(offset, length) => SendChunk(r, offset, length, now, source, hash, sourceIo)
    case Chunk(offset, data) => WriteChunk(r, offset, data, now, hash, sinkIo)
    case Complete(digest) => CompleteReceiver(r, digest, now, hash, sinkIo)
    case Result(success, reason) => ReceiveResult(r, success, reason, now)
    case Cancel => CancelledByPeer(r, now)
    case Offer(name, size) => RepeatedOffer(r, name, size)
  }

  /** The reply to a datagram, other than an offer, for which there is no record. */
  function ReplyToUnknown(message: Message): seq<Action> {
    match message
    case Request(_, _) => [Send(Rejection(NotAccepted))]
    case Chunk(_, _) => [Send(Rejection(NotAccepted))]
    case Complete(_) => [Send(Rejection(NotAccepted))]
    case Answer(Accepted) => [Send(Cancel)]
    case _ => []
  }

  function TickRecord(r: Record, now: nat): Step {
    var due := Elapsed(now, r.lastActivity) >= RETRY_TIMEOUT;
    var again := Step(r.(retries := r.retries + 1, lastActivity := now),
                      if r.retryEvent.Some? then [Send(r.retryEvent.value)] else []);
    if IsTerminal(r.phase) then
      if r.retries < MAX_RETRIES && due then again else Step(r, [])
    else if (r.phase == Offering || r.phase == AwaitingAcceptance) && now >= r.approvalDeadline then
      Step(Terminal(r, Failed, Some(OfferExpired), now), [Send(Cancel)] + DropActions(r))
    else if r.phase != AwaitingAcceptance && due then
      if r.retries >= MAX_RETRIES then
        Step(Terminal(r, Failed, Some(TimedOut), now), [Send(Cancel)] + DropActions(r))
      else
        again
    else
      Step(r, [])
  }

  /** `refresh_routes` for one record: a new route, or none. */
  function Reroute(r: Record, route: Option<Peer>, now: nat): Step {
    if route.Some? then
      Step(r.(peer := route.value), [])
    else if IsTerminal(r.phase) then
      Step(r, [])
    else
      Step(Terminal(r, Failed, Some(PeerDisconnected), now), DropActions(r))
  }

  /**
   What every operation keeps: who and what the record is about and when its approval lapses; a settled
   record changes nothing but its route and its retry timer; consent is given only before the deadline.
   */
  predicate Evolves(r: Record, next: Record, now: nat) {
    && next.fingerprint == r.fingerprint && next.id == r.id && next.name == r.name && next.size == r.size
    && next.direction == r.direction && next.approvalDeadline == r.approvalDeadline
    && (IsTerminal(r.phase) ==>
          next == r.(peer := next.peer, retries := next.retries, lastActivity := next.lastActivity))
    && (next.phase == Transferring && r.phase != Transferring ==> now < r.approvalDeadline)
    && (r.retries <= MAX_RETRIES ==> next.retries <= MAX_RETRIES)
  }

  lemma HandleEvolves(r: Record, message: Message, now: nat, source: Bytes, hash: Bytes -> Digest,
                      sourceIo: SourceIo, sinkIo: SinkIo)
    ensures Evolves(r, Handle(r, message, now, source, hash, sourceIo, sinkIo).record, now)
  {
    match message
    case Request(offset, length) => SendChunkEvolves(r, offset, length, now, source, hash, sourceIo);
    case Chunk(offset, data) => WriteChunkEvolves(r, offset, data, now, hash, sinkIo);
    case Complete(digest) => CompleteEvolves(r, digest, now, hash, sinkIo);
    case Answer(decision) => DecideEvolves(r, decision, now);
    case Result(success, reason) => ResultEvolves(r, success, reason, now);
    case Cancel =>
    case Offer(_, _) =>
  }

  lemma DecideEvolves(r: Record, decision: ManualDecision, now: nat)
    ensures Evolves(r, Decide(r, decision, now).record, now)
  {
  }

  lemma ResultEvolves(r: Record, success: bool, reason: Option<Reason>, now: nat)
    ensures Evolves(r, ReceiveResult(r, success, reason, now).record, now)
  {
  }

  lemma SendChunkEvolves(r: Record, offset: nat, length: nat, now: nat,
                         source: Bytes, hash: Bytes -> Digest, io: SourceIo)
    ensures Evolves(r, SendChunk(r, offset, length, now, source, hash, io).record, now)
  {
  }

  lemma FailEvolves(r: Record, error: Failure, now: nat)
    requires !IsTerminal(r.phase)
    ensures Evolves(r, Fail(r, error, now).record, now)
  {
  }

  lemma FinishEvolves(r: Record, digest: Digest, now: nat, hash: Bytes -> Digest, io: SinkIo)
    requires r.incoming.Some? && !IsTerminal(r.phase)
    ensures Evolves(r, FinishReceiver(r, digest, now, hash, io).record, now)
  {
  }

  lemma WriteChunkEvolves(r: Record, offset: nat, data: Bytes, now: nat, hash: Bytes -> Digest, io: SinkIo)
    ensures Evolves(r, WriteChunk(r, offset, data, now, hash, io).record, now)
  {
    var end := offset + |data|;
    if r.direction != Receiving || IsTerminal(r.phase) || r.phase != Transferring || r.incoming.None? {
    } else if end > U64_MAX || |data| == 0 || |data| > MAX_CHUNK || end > r.size {
      FailEvolves(r, InvalidChunk, now);
    } else if offset != r.transferred {
      FailEvolves(r, OverlappingChunk, now);
    } else if offset != r.incoming.value.offset || end > r.incoming.value.expected || io.shortWrite.Some? {
      FailEvolves(r, WriteError, now);
    } else {
      WrittenEvolves(r, data, now, hash, io);
    }
  }

  lemma WrittenEvolves(r: Record, data: Bytes, now: nat, hash: Bytes -> Digest, io: SinkIo)
    requires r.incoming.Some? && !IsTerminal(r.phase)
    ensures Evolves(r, Kept(r, data, now).(retryEvent := Some(RequestAt(r.transferred + |data|))), now)
    ensures
      r.earlyDigest.Some? ==>
        Evolves(r, FinishReceiver(Kept(r, data, now).(earlyDigest := None), r.earlyDigest.value, now, hash, io).record, now)
  {
    if r.earlyDigest.Some? {
      FinishEvolves(Kept(r, data, now).(earlyDigest := None), r.earlyDigest.value, now, hash, io);
    }
  }

  lemma CompleteEvolves(r: Record, digest: Digest, now: nat, hash: Bytes -> Digest, io: SinkIo)
    ensures Evolves(r, CompleteReceiver(r, digest, now, hash, io).record, now)
  {
    if r.incoming.Some? && !IsTerminal(r.phase) {
      FinishEvolves(r, digest, now, hash, io);
    }
  }

  lemma PrepareEvolves(r: Record, place: Place, now: nat, automatic: bool, preparation: Preparation)
    ensures Evolves(r, PrepareReceiver(r, place, now, automatic, preparation).record, now)
  {
  }

  lemma ReceiverOperationsEvolve(r: Record, now: nat, automatic: bool, stagingMade: bool, preparation: Preparation)
    ensures Evolves(r, FirstOffer(r, automatic, now, preparation).record, now)
    ensures Evolves(r, Accept(r, now, preparation).record, now)
    ensures Evolves(r, Overwrite(r, now, stagingMade, preparation).record, now)
    ensures Evolves(r, DeclinedByUser(r, now).record, now)
  {
    PrepareEvolves(r, Target, now, automatic, preparation);
    PrepareEvolves(r, Target, now, false, preparation);
    PrepareEvolves(r, Staged, now, false, preparation);
    var prepared := PrepareReceiver(r, Staged, now, false, preparation).record;
    assert Overwrite(r, now, stagingMade, preparation).record in
      {r, r.(error := Some(PreparationError)), prepared, prepared.(replacement := true)};
  }

  lemma CommonOperationsEvolve(r: Record, route: Option<Peer>, now: nat)
    ensures Evolves(r, CancelledByUser(r, now).record, now)
    ensures Evolves(r, TickRecord(r, now).record, now)
    ensures Evolves(r, Reroute(r, route, now).record, now)
  {
  }
}
