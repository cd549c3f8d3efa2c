/**
 One manual transfer between an honest sender and an honest receiver.

 The network in each direction is the growing set of every datagram ever sent, and a delivery
 picks any member at any time: loss, duplication and reordering are all runs of this model.
 Clocks are not assumed to agree or to advance. Users, ticks, disconnections, failing disks and
 evictions of finished records may happen at any point.
 */
module ManualNetwork {
  import opened Common
  import opened ManualRecord

  /** What is fixed during a run: the file, its digest function and what the target held before. */
  datatype Setup = Setup(name: string, source: Bytes, hash: Bytes -> Digest, before: Option<Bytes>)

  datatype Disk = Disk(target: Option<Bytes>, staged: Option<Bytes>)

  datatype Site = AtSender | AtReceiver

  /**
   The last eight fields are history: they record what has happened and drive nothing. `leftover` is what a
   transfer left at the target when its file could not be removed, or was lost as soon as it was created;
   `litter` says whether a staging directory stayed behind.
   */
  datatype World = World(
    sender: Option<Record>,
    receiver: Option<Record>,
    disk: Disk,
    toReceiver: set<Message>,
    toSender: set<Message>,
    offered: bool,
    evicted: bool,
    served: nat,
    receiverAccepted: bool,
    senderStreamed: bool,
    receiverCompleted: bool,
    leftover: Option<Bytes>,
    litter: bool)

  datatype Event =
    | MakeOffer(now: nat)
    | DeliverToReceiver(message: Message, now: nat, full: bool, automatic: bool, preparation: Preparation, sinkIo: SinkIo)
    | DeliverToSender(message: Message, now: nat, sourceIo: SourceIo)
    | UserAccepts(now: nat, preparation: Preparation)
    | UserOverwrites(now: nat, stagingMade: bool, preparation: Preparation, removes: bool)
    | UserDeclines(now: nat)
    | UserCancels(site: Site, now: nat, removes: bool)
    | Tick(site: Site, now: nat, removes: bool)
    | Disconnect(site: Site, now: nat, removes: bool)
    | Evict(site: Site)

  function Perform(disk: Disk, action: Action): Disk {
    match action
    case Send(_) => disk
    case CreateFile(place) => Put(disk, place, Some([]))
    case LoseFile(place) => Put(disk, place, Some([]))
    case Append(place, data) =>
      var held := At(disk, place);
      Put(disk, place, Some((if held.Some? then held.value else []) + data))
    case RemoveFile(place) => Put(disk, place, None)
    case RenameStaged => Disk(disk.staged, None)
    case DropStaging => disk.(staged := None)
  }

  function At(disk: Disk, place: Place): Option<Bytes> {
    if place == Target then disk.target else disk.staged
  }

  function Put(disk: Disk, place: Place, content: Option<Bytes>): Disk {
    if place == Target then disk.(target := content) else disk.(staged := content)
  }

  function PerformAll(disk: Disk, actions: seq<Action>): Disk
    decreases |actions|
  {
    if actions == [] then disk else PerformAll(Perform(disk, actions[0]), actions[1..])
  }

  function Sent(actions: seq<Action>): set<Message> {
    set a | a in actions && a.Send? :: a.message
  }

  function Start(c: Setup): World {
    World(None, None, Disk(c.before, None), {}, {}, false, false, 0, false, false, false, None, false)
  }

  function MoveSender(w: World, step: Step): World {
    w.(sender := Some(step.record),
       toReceiver := w.toReceiver + Sent(step.actions),
       served := Max(w.served, step.record.transferred),
       senderStreamed := w.senderStreamed || step.record.phase == Transferring)
  }

  /** The receiver's step, when whatever it removes does go. */
  function Advance(w: World, step: Step): World {
    w.(receiver := Some(step.record),
       toSender := w.toSender + Sent(step.actions),
       disk := PerformAll(w.disk, step.actions),
       receiverAccepted := w.receiverAccepted || step.record.phase == Transferring,
       receiverCompleted := w.receiverCompleted || step.record.phase == Completed,
       leftover := if LoseFile(Target) in step.actions then Some([]) else w.leftover)
  }

  /** What is at the target if the step cannot remove it. */
  function Unremoved(disk: Disk, actions: seq<Action>): Option<Bytes>
    decreases |actions|
  {
    if actions == [] then disk.target
    else if actions[0] == RemoveFile(Target) then Unremoved(disk, actions[1..])
    else Unremoved(Perform(disk, actions[0]), actions[1..])
  }

  function MoveReceiver(w: World, step: Step, removes: bool): World {
    var next, left := Advance(w, step), Unremoved(w.disk, step.actions);
    var keeps := !removes && RemoveFile(Target) in step.actions;
    next.(disk := if keeps then next.disk.(target := left) else next.disk,
          leftover := if keeps then left else next.leftover,
          litter := next.litter || (!removes && DropStaging in step.actions))
  }

  /** A file is created only where none is. */
  predicate Creatable(w: World, preparation: Preparation) {
    preparation == Ready || preparation == Lost ==> w.disk.target.None?
  }

  predicate Enabled(c: Setup, w: World, e: Event) {
    match e
    case MakeOffer(_) => !w.offered
    case DeliverToReceiver(m, _, _, _, preparation, _) =>
      m in w.toReceiver && (w.receiver.None? && m.Offer? ==> Creatable(w, preparation))
    case DeliverToSender(m, _, _) => m in w.toSender
    case UserAccepts(_, preparation) => w.receiver.Some? && Creatable(w, preparation)
    case UserOverwrites(_, _, _, _) => w.receiver.Some?
    case UserDeclines(_) => w.receiver.Some?
    case UserCancels(site, _, _) => Has(w, site)
    case Tick(site, _, _) => Has(w, site)
    case Disconnect(site, _, _) => Has(w, site)
    case Evict(site) => Has(w, site) && IsTerminal(RecordAt(w, site).phase)
  }

  predicate Has(w: World, site: Site) {
    if site == AtSender then w.sender.Some? else w.receiver.Some?
  }

  function RecordAt(w: World, site: Site): Record
    requires Has(w, site)
  {
    if site == AtSender then w.sender.value else w.receiver.value
  }

  function NoSource(): SourceIo {
    SourceIo(false, false)
  }

  function NoSink(): SinkIo {
    SinkIo(Some(0), false, false, false)
  }

  /** What the event makes the receiver do, if anything. */
  function ReceiverStep(c: Setup, w: World, e: Event): Option<Step>
    requires Enabled(c, w, e)
  {
    match e
    case DeliverToReceiver(m, now, full, automatic, preparation, io) =>
      if w.receiver.Some? then Some(Handle(w.receiver.value, m, now, [], c.hash, NoSource(), io))
      else if !m.Offer? || full then None
      else Some(FirstOffer(NewReceiver(0, "", 1, m.name, m.size, now), automatic, now, preparation))
    case UserAccepts(now, preparation) => Some(Accept(w.receiver.value, now, preparation))
    case UserOverwrites(now, made, preparation, _) => Some(Overwrite(w.receiver.value, now, made, preparation))
    case UserDeclines(now) => Some(DeclinedByUser(w.receiver.value, now))
    case UserCancels(site, now, _) => if site == AtReceiver then Some(CancelledByUser(w.receiver.value, now)) else None
    case Tick(site, now, _) => if site == AtReceiver then Some(TickRecord(w.receiver.value, now)) else None
    case Disconnect(site, now, _) => if site == AtReceiver then Some(Reroute(w.receiver.value, None, now)) else None
    case _ => None
  }

  function SenderStep(c: Setup, w: World, e: Event): Option<Step>
    requires Enabled(c, w, e)
  {
    match e
    case MakeOffer(now) => Some(Step(NewSender(0, "", 1, c.name, |c.source|, now), [Send(Offer(c.name, |c.source|))]))
    case DeliverToSender(m, now, io) =>
      if w.sender.Some? then Some(Handle(w.sender.value, m, now, c.source, c.hash, io, NoSink())) else None
    case UserCancels(site, now, _) => if site == AtSender then Some(CancelledByUser(w.sender.value, now)) else None
    case Tick(site, now, _) => if site == AtSender then Some(TickRecord(w.sender.value, now)) else None
    case Disconnect(site, now, _) => if site == AtSender then Some(Reroute(w.sender.value, None, now)) else None
    case _ => None
  }

  /** Whether what the receiver removes during the event does go. */
  predicate Removes(e: Event) {
    match e
    case DeliverToReceiver(_, _, _, _, _, io) => io.removes
    case UserOverwrites(_, _, _, removes) => removes
    case UserCancels(_, _, removes) => removes
    case Tick(_, _, removes) => removes
    case Disconnect(_, _, removes) => removes
    case _ => true
  }

  /** Replies to a datagram for which there is no record and, if it is an offer, no room. */
  function Reply(w: World, e: Event): World {
    match e
    case DeliverToReceiver(m, _, _, _, _, _) =>
      w.(toSender := w.toSender + if m.Offer? then {Rejection(TooManyTransfers)} else Sent(ReplyToUnknown(m)))
    case DeliverToSender(m, _, _) => w.(toReceiver := w.toReceiver + Sent(ReplyToUnknown(m)))
    case _ => w
  }

  function Apply(c: Setup, w: World, e: Event): World
    requires Enabled(c, w, e)
  {
    match e
    case Evict(AtSender) => w.(sender := None, evicted := true)
    case Evict(AtReceiver) => w.(receiver := None, evicted := true)
    case _ =>
      var atReceiver, atSender := ReceiverStep(c, w, e), SenderStep(c, w, e);
      if atReceiver.Some? then MoveReceiver(w, atReceiver.value, Removes(e))
      else if atSender.Some? then MoveSender(w.(offered := true), atSender.value)
      else Reply(w, e)
  }

  /** A run from the start, one world per event. */
  ghost predicate IsRun(c: Setup, events: seq<Event>, worlds: seq<World>) {
    && |worlds| == |events| + 1
    && worlds[0] == Start(c)
    && forall i :: 0 <= i < |events| ==> StepsAt(c, events, worlds, i)
  }

  ghost predicate StepsAt(c: Setup, events: seq<Event>, worlds: seq<World>, i: nat)
    requires i < |events| < |worlds|
  {
    Enabled(c, worlds[i], events[i]) && worlds[i + 1] == Apply(c, worlds[i], events[i])
  }
}
