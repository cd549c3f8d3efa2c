/**
 Input events and activations of the capture session travel on separate transports. The gate holds
 early input until the activation with its sequence number arrives, and drops what is stale.
 Sequence numbers are 32-bit and wrap around.
 */
module ActivationGate {
  import opened Common

  const WRAP: nat := 0x1_0000_0000
  const HALF: nat := 0x8000_0000
  const MAX_PENDING: nat := 1024

  type Sequence = x: int | 0 <= x < WRAP

  datatype Ready<E> = Entry(pos: Position, along: real) | Begin(pos: Position) | Input(pos: Position, event: E)

  datatype Activation = Activation(id: Option<Sequence>, pos: Position)

  datatype Gate<E> = Gate(active: Option<Activation>, last: Option<Sequence>, pending: seq<(Sequence, E)>, ready: seq<Ready<E>>)

  /** `a.wrapping_sub(b) as i32 > 0`. */
  predicate Newer(a: Sequence, b: Sequence) {
    0 < (a - b) % WRAP < HALF
  }

  /** The serial number comparison of section 3.2 of RFC 1982. */
  predicate SerialGreater(a: Sequence, b: Sequence) {
    (a < b && b - a > HALF) || (a > b && a - b < HALF)
  }

  lemma NewerIsSerialGreater(a: Sequence, b: Sequence)
    ensures Newer(a, b) <==> SerialGreater(a, b)
  {
    if a >= b {
      assert (a - b) % WRAP == a - b;
    } else {
      assert (a - b) % WRAP == a - b + WRAP;
    }
  }

  // ----- Steps -----

  function Replayed<E>(pending: seq<(Sequence, E)>, id: Option<Sequence>, pos: Position): seq<Ready<E>> {
    if pending == [] then []
    else
      var last := pending[|pending| - 1];
      Replayed(pending[..|pending| - 1], id, pos) + if Some(last.0) == id then [Input(pos, last.1)] else []
  }

  function Kept<E>(pending: seq<(Sequence, E)>, id: Option<Sequence>): seq<(Sequence, E)> {
    if pending == [] then []
    else
      var last := pending[|pending| - 1];
      Kept(pending[..|pending| - 1], id) + if id.Some? && Newer(last.0, id.value) then [last] else []
  }

  function Activate<E>(g: Gate<E>, id: Option<Sequence>, pos: Position, along: Option<real>): Gate<E> {
    Gate(Some(Activation(id, pos)), id, Kept(g.pending, id),
         g.ready + (if along.Some? then [Entry(pos, along.value)] else []) + [Begin(pos)] + Replayed(g.pending, id, pos))
  }

  function Deactivate<E>(g: Gate<E>): Gate<E> {
    g.(active := None, ready := [])
  }

  /** The gate after an input event, and whether it was taken in or rightly dropped. */
  function Feed<E>(g: Gate<E>, sequence: Option<Sequence>, event: E): (Gate<E>, bool) {
    if g.active.Some? && (g.active.value.id.None? || g.active.value.id == sequence) then
      (g.(ready := g.ready + [Input(g.active.value.pos, event)]), true)
    else if sequence.None? || (g.last.Some? && !Newer(sequence.value, g.last.value)) then
      (g, true)
    else if |g.pending| >= MAX_PENDING then
      (g, false)
    else
      (g.(pending := g.pending + [(sequence.value, event)]), true)
  }

  /** Every waiting event is strictly newer than the last activation, and an active gate remembers its own id. */
  ghost predicate GateOk<E>(g: Gate<E>) {
    && |g.pending| <= MAX_PENDING
    && (g.active.Some? ==> g.last == g.active.value.id)
    && (g.last.Some? ==> forall x :: x in g.pending ==> Newer(x.0, g.last.value))
  }

  class ActivationQueue<E> {
    var active: Option<Activation>
    var last: Option<Sequence>
    var pending: seq<(Sequence, E)>
    var ready: seq<Ready<E>>

    ghost function View(): Gate<E>
      reads this
    {
      Gate(active, last, pending, ready)
    }

    ghost predicate Valid()
      reads this
    {
      GateOk(View())
    }

    constructor ()
      ensures Valid() && View() == Gate(None, None, [], [])
    {
      active, last, pending, ready := None, None, [], [];
    }

    method OnActivate(id: Option<Sequence>, pos: Position, along: Option<real>)
      requires Valid()
      modifies this
      ensures Valid() && View() == Activate(old(View()), id, pos, along)
    {
      active := Some(Activation(id, pos));
      last := id;
      if along.Some? {
        ready := ready + [Entry(pos, along.value)];
      }
      ready := ready + [Begin(pos)];
      ActivateKeeps(old(View()), id, pos, along);
      Replay(id, pos);
    }

    /** Hands on what waited for this activation and keeps what waits for a newer one. */
    method Replay(id: Option<Sequence>, pos: Position)
      modifies this`pending, this`ready
      ensures pending == Kept(old(pending), id)
      ensures ready == old(ready) + Replayed(old(pending), id, pos)
    {
      var retained: seq<(Sequence, E)> := [];
      var i := 0;
      while i < |pending|
        invariant 0 <= i <= |pending| && pending == old(pending)
        invariant retained == Kept(pending[..i], id)
        invariant ready == old(ready) + Replayed(pending[..i], id, pos)
      {
        var (sequence, event) := pending[i];
        assert pending[..i + 1][..i] == pending[..i];
        if Some(sequence) == id {
          ready := ready + [Input(pos, event)];
        }
        if id.Some? && Newer(sequence, id.value) {
          retained := retained + [pending[i]];
        }
        i := i + 1;
      }
      assert pending[..i] == pending;
      pending := retained;
    }

    method OnDeactivate()
      requires Valid()
      modifies this
      ensures Valid() && View() == Deactivate(old(View()))
    {
      active := None;
      ready := [];
    }

    method OnInput(sequence: Option<Sequence>, event: E) returns (ok: bool)
      requires Valid()
      modifies this
      ensures Valid() && (View(), ok) == Feed(old(View()), sequence, event)
    {
      FeedKeeps(View(), sequence, event);
      if active.Some? && (active.value.id.None? || active.value.id == sequence) {
        ready := ready + [Input(active.value.pos, event)];
        return true;
      }
      if sequence.None? {
        return true;
      }
      if last.Some? && !Newer(sequence.value, last.value) {
        return true;
      }
      if |pending| >= MAX_PENDING {
        return false;
      }
      pending := pending + [(sequence.value, event)];
      return true;
    }
  }

  // ----- What every step keeps -----

  /** Exactly the newer ones are kept. */
  lemma {:induction false} KeptAreNewer<E>(pending: seq<(Sequence, E)>, id: Option<Sequence>)
    ensures
      var kept := Kept(pending, id);
      && |kept| <= |pending|
      && (forall i :: 0 <= i < |kept| ==> kept[i] in pending && id.Some? && Newer(kept[i].0, id.value))
      && (forall i :: 0 <= i < |pending| && id.Some? && Newer(pending[i].0, id.value) ==> pending[i] in kept)
    decreases |pending|
  {
    if pending != [] {
      var before, last := pending[..|pending| - 1], pending[|pending| - 1];
      KeptAreNewer(before, id);
      var more := if id.Some? && Newer(last.0, id.value) then [last] else [];
      assert Kept(pending, id) == Kept(before, id) + more;
      assert pending == before + [last];
    }
  }

  lemma ActivateKeeps<E>(g: Gate<E>, id: Option<Sequence>, pos: Position, along: Option<real>)
    requires GateOk(g)
    ensures GateOk(Activate(g, id, pos, along))
  {
    KeptAreNewer(g.pending, id);
  }

  lemma FeedKeeps<E>(g: Gate<E>, sequence: Option<Sequence>, event: E)
    requires GateOk(g)
    ensures GateOk(Feed(g, sequence, event).0)
  {
  }

  // ----- An input becomes ready only under its own activation -----

  datatype Event<E> = Activated(id: Option<Sequence>, at: Position, along: Option<real>) | Deactivated | Received(sequence: Option<Sequence>, event: E)

  function Step<E>(g: Gate<E>, e: Event<E>): Gate<E> {
    match e
    case Activated(id, pos, along) => Activate(g, id, pos, along)
    case Deactivated => Deactivate(g)
    case Received(sequence, event) => Feed(g, sequence, event).0
  }

  /** Each waiting event was received with the sequence it waits under. */
  ghost predicate Tagged<E>(g: Gate<E>, events: seq<Event<E>>) {
    forall x :: x in g.pending ==> Received(Some(x.0), x.1) in events
  }

  /** The item may be handed on under the activation: it names its side, and an input was received with its id. */
  ghost predicate Belongs<E>(item: Ready<E>, a: Activation, events: seq<Event<E>>) {
    item.pos == a.pos && (item.Input? ==> a.id.None? || Received(a.id, item.event) in events)
  }

  lemma {:induction false} ReplayedBelong<E>(pending: seq<(Sequence, E)>, a: Activation, events: seq<Event<E>>)
    requires forall x :: x in pending ==> Received(Some(x.0), x.1) in events
    ensures forall item :: item in Replayed(pending, a.id, a.pos) ==> Belongs(item, a, events)
    decreases |pending|
  {
    if pending != [] {
      var before, last := pending[..|pending| - 1], pending[|pending| - 1];
      assert last in pending;
      ReplayedBelong(before, a, events);
    }
  }

  /** What one step makes ready belongs to the activation in force after it. */
  lemma ReadyUnderItsOwn<E>(g: Gate<E>, events: seq<Event<E>>, e: Event<E>)
    requires Tagged(g, events)
    ensures Tagged(Step(g, e), events + [e])
    ensures
      var next := Step(g, e);
      if e.Deactivated? then next.ready == []
      else
        && |g.ready| <= |next.ready| && next.ready[..|g.ready|] == g.ready
        && forall item :: item in next.ready[|g.ready|..] ==> next.active.Some? && Belongs(item, next.active.value, events + [e])
  {
    var next := Step(g, e);
    assert e in events + [e] && forall x :: x in events ==> x in events + [e];
    match e
    case Deactivated =>
    case Activated(id, pos, along) =>
      KeptAreNewer(g.pending, id);
      ReplayedBelong(g.pending, Activation(id, pos), events + [e]);
      var head: seq<Ready<E>> := (if along.Some? then [Entry(pos, along.value)] else []) + [Begin(pos)];
      assert next.ready == g.ready + (head + Replayed(g.pending, id, pos));
      assert next.ready[|g.ready|..] == head + Replayed(g.pending, id, pos);
    case Received(sequence, event) =>
      assert next.ready == g.ready || next.ready == g.ready + [Input(g.active.value.pos, event)];
  }

  /** Gates before, between and after events. */
  ghost predicate IsRun<E>(gates: seq<Gate<E>>, events: seq<Event<E>>) {
    && |gates| == |events| + 1 && gates[0] == Gate(None, None, [], [])
    && forall n :: 0 <= n < |events| ==> StepsAt(gates, events, n)
  }

  ghost predicate StepsAt<E>(gates: seq<Gate<E>>, events: seq<Event<E>>, n: nat)
    requires n < |events| < |gates|
  {
    gates[n + 1] == Step(gates[n], events[n])
  }

  /** The activation is one of the events. */
  ghost predicate Happened<E>(a: Activation, events: seq<Event<E>>) {
    exists e :: e in events && e.Activated? && Activation(e.id, e.at) == a
  }

  /** Everything ready was put there by an activation that names its side and, for an input, its sequence. */
  ghost predicate ReadyIsOwned<E>(g: Gate<E>, events: seq<Event<E>>) {
    && GateOk(g) && Tagged(g, events)
    && (g.active.Some? ==> Happened(g.active.value, events))
    && forall item :: item in g.ready ==> exists a :: Happened(a, events) && Belongs(item, a, events)
  }

  lemma HappenedLater<E>(a: Activation, events: seq<Event<E>>, e: Event<E>)
    ensures Happened(a, events) ==> Happened(a, events + [e])
    ensures e.Activated? && a == Activation(e.id, e.at) ==> Happened(a, events + [e])
  {
    assert e in events + [e] && forall x :: x in events ==> x in events + [e];
  }

  lemma OwnedStep<E>(g: Gate<E>, events: seq<Event<E>>, e: Event<E>)
    requires ReadyIsOwned(g, events)
    ensures ReadyIsOwned(Step(g, e), events + [e])
  {
    var next := Step(g, e);
    ReadyUnderItsOwn(g, events, e);
    assert GateOk(next) by {
      match e
      case Activated(id, pos, along) => ActivateKeeps(g, id, pos, along);
      case Deactivated =>
      case Received(sequence, event) => FeedKeeps(g, sequence, event);
    }
    if next.active.Some? {
      HappenedLater(next.active.value, events, e);
    }
    forall item | item in next.ready
      ensures exists a :: Happened(a, events + [e]) && Belongs(item, a, events + [e])
    {
      assert next.ready == next.ready[..|g.ready|] + next.ready[|g.ready|..];
      if item in g.ready {
        var a :| Happened(a, events) && Belongs(item, a, events);
        HappenedLater(a, events, e);
        assert forall x :: x in events ==> x in events + [e];
      } else {
        assert item in next.ready[|g.ready|..];
      }
    }
  }

  /** Over a whole run, whatever events are equal to each other. */
  lemma {:induction false} RunsAreOwned<E>(gates: seq<Gate<E>>, events: seq<Event<E>>, n: nat)
    requires IsRun(gates, events) && n <= |events|
    ensures ReadyIsOwned(gates[n], events[..n])
  {
    if n > 0 {
      RunsAreOwned(gates, events, n - 1);
      assert StepsAt(gates, events, n - 1);
      OwnedStep(gates[n - 1], events[..n - 1], events[n - 1]);
      assert events[..n - 1] + [events[n - 1]] == events[..n];
    }
  }

  // ----- The order of input and activation -----

  function FeedAll<E>(g: Gate<E>, inputs: seq<(Option<Sequence>, E)>): Gate<E> {
    if inputs == [] then g
    else
      var last := inputs[|inputs| - 1];
      Feed(FeedAll(g, inputs[..|inputs| - 1]), last.0, last.1).0
  }

  /** The activation would keep the event: its own, or a newer one. */
  predicate Wanted(sequence: Option<Sequence>, id: Sequence) {
    sequence.Some? && (sequence.value == id || Newer(sequence.value, id))
  }

  predicate NotStale(sequence: Sequence, last: Option<Sequence>) {
    last.None? || Newer(sequence, last.value)
  }

  lemma ActivateAfterAppend<E>(g: Gate<E>, x: (Sequence, E), id: Sequence, pos: Position, along: Option<real>)
    ensures
      var after := Activate(g, Some(id), pos, along);
      Activate(g.(pending := g.pending + [x]), Some(id), pos, along) ==
        if x.0 == id then after.(ready := after.ready + [Input(pos, x.1)])
        else if Newer(x.0, id) then after.(pending := after.pending + [x])
        else after
  {
    var more := g.pending + [x];
    assert more[..|more| - 1] == g.pending;
    var after := Activate(g, Some(id), pos, along);
    assert Replayed(more, Some(id), pos) == Replayed(g.pending, Some(id), pos) + if x.0 == id then [Input(pos, x.1)] else [];
    if x.0 == id {
      assert Activate(g.(pending := more), Some(id), pos, along).ready == after.ready + [Input(pos, x.1)];
    }
  }

  /**
   One input before or after the activation makes no difference, exactly when an input the activation
   would keep is not taken for stale beforehand.
   */
  lemma InputCommutes<E>(g: Gate<E>, sequence: Option<Sequence>, event: E, id: Sequence, pos: Position, along: Option<real>)
    requires g.active.None? && |g.pending| < MAX_PENDING
    ensures
      Activate(Feed(g, sequence, event).0, Some(id), pos, along) == Feed(Activate(g, Some(id), pos, along), sequence, event).0
      <==> (Wanted(sequence, id) ==> NotStale(sequence.value, g.last))
  {
    var after := Activate(g, Some(id), pos, along);
    KeptAreNewer(g.pending, Some(id));
    if sequence.Some? {
      ActivateAfterAppend(g, (sequence.value, event), id, pos, along);
      assert |after.ready + [Input(pos, event)]| > |after.ready|;
      assert |after.pending + [(sequence.value, event)]| > |after.pending|;
    }
  }

  lemma {:induction false} FeedingInactive<E>(g: Gate<E>, inputs: seq<(Option<Sequence>, E)>)
    requires g.active.None?
    ensures var h := FeedAll(g, inputs); h.active.None? && h.last == g.last && |h.pending| <= |g.pending| + |inputs|
    decreases |inputs|
  {
    if inputs != [] {
      FeedingInactive(g, inputs[..|inputs| - 1]);
    }
  }

  /** From an inactive gate with room, a whole stretch of inputs may arrive before or after the activation. */
  lemma {:induction false} OrderDoesNotMatter<E>(g: Gate<E>, inputs: seq<(Option<Sequence>, E)>, id: Sequence, pos: Position, along: Option<real>)
    requires g.active.None? && |g.pending| + |inputs| <= MAX_PENDING
    requires forall i :: 0 <= i < |inputs| && Wanted(inputs[i].0, id) ==> NotStale(inputs[i].0.value, g.last)
    ensures Activate(FeedAll(g, inputs), Some(id), pos, along) == FeedAll(Activate(g, Some(id), pos, along), inputs)
    decreases |inputs|
  {
    if inputs != [] {
      var before, last := inputs[..|inputs| - 1], inputs[|inputs| - 1];
      OrderDoesNotMatter(g, before, id, pos, along);
      FeedingInactive(g, before);
      InputCommutes(FeedAll(g, before), last.0, last.1, id, pos, along);
    }
  }

  lemma {:induction false} FeedingInTwo<E>(g: Gate<E>, a: seq<(Option<Sequence>, E)>, b: seq<(Option<Sequence>, E)>)
    ensures FeedAll(g, a + b) == FeedAll(FeedAll(g, a), b)
    decreases |b|
  {
    if b == [] {
      assert a + b == a;
    } else {
      var c := b[..|b| - 1];
      FeedingInTwo(g, a, c);
      assert (a + b)[..|a + b| - 1] == a + c;
    }
  }

  /** Wherever the activation falls among the inputs, the gate ends up the same. */
  lemma ActivationMayFallAnywhere<E>(g: Gate<E>, a: seq<(Option<Sequence>, E)>, b: seq<(Option<Sequence>, E)>,
                                     id: Sequence, pos: Position, along: Option<real>)
    requires g.active.None? && |g.pending| + |a| <= MAX_PENDING
    requires forall i :: 0 <= i < |a| && Wanted(a[i].0, id) ==> NotStale(a[i].0.value, g.last)
    ensures FeedAll(Activate(FeedAll(g, a), Some(id), pos, along), b) == FeedAll(Activate(g, Some(id), pos, along), a + b)
  {
    OrderDoesNotMatter(g, a, id, pos, along);
    FeedingInTwo(Activate(g, Some(id), pos, along), a, b);
  }

  // ----- What becomes ready, told from the events alone -----

  /** The activation in force: the latest, unless a deactivation came after it. */
  ghost function InForce<E>(events: seq<Event<E>>): Option<Activation> {
    if events == [] then None
    else
      match events[|events| - 1]
      case Activated(id, pos, _) => Some(Activation(id, pos))
      case Deactivated => None
      case Received(_, _) => InForce(events[..|events| - 1])
  }

  /** The id of the latest activation, in force or not. */
  ghost function LatestId<E>(events: seq<Event<E>>): Option<Sequence> {
    if events == [] then None
    else if events[|events| - 1].Activated? then events[|events| - 1].id
    else LatestId(events[..|events| - 1])
  }

  /** An input with this sequence belongs to the activation in force. */
  ghost predicate Current<E>(events: seq<Event<E>>, sequence: Option<Sequence>) {
    InForce(events).Some? && (InForce(events).value.id.None? || InForce(events).value.id == sequence)
  }

  /** An input with this sequence is early: newer than the latest activation, and there is room to keep it. */
  ghost predicate IsEarly<E>(events: seq<Event<E>>, sequence: Sequence, room: bool) {
    !Current(events, Some(sequence)) && NotStale(sequence, LatestId(events)) && room
  }

  ghost predicate Room<E>(g: Gate<E>) {
    |g.pending| < MAX_PENDING
  }

  /** Early inputs with sequence `q` that no activation has claimed or overtaken, in the order received. */
  ghost function Early<E>(gates: seq<Gate<E>>, events: seq<Event<E>>, q: Sequence, n: nat): seq<E>
    requires n <= |events| < |gates|
  {
    if n == 0 then []
    else
      var before := Early(gates, events, q, n - 1);
      match events[n - 1]
      case Activated(id, _, _) => if id.Some? && Newer(q, id.value) then before else []
      case Deactivated => before
      case Received(sequence, event) =>
        if sequence == Some(q) && IsEarly(events[..n - 1], q, Room(gates[n - 1])) then before + [event] else before
  }

  function EventsOf<E>(pending: seq<(Sequence, E)>, q: Sequence): seq<E> {
    if pending == [] then []
    else
      var last := pending[|pending| - 1];
      EventsOf(pending[..|pending| - 1], q) + if last.0 == q then [last.1] else []
  }

  function Inputs<E>(pos: Position, given: seq<E>): seq<Ready<E>> {
    seq(|given|, i requires 0 <= i < |given| => Input(pos, given[i]))
  }

  lemma {:induction false} ReplayedAreInputs<E>(pending: seq<(Sequence, E)>, q: Sequence, pos: Position)
    ensures Replayed(pending, Some(q), pos) == Inputs(pos, EventsOf(pending, q))
    decreases |pending|
  {
    if pending != [] {
      ReplayedAreInputs(pending[..|pending| - 1], q, pos);
    }
  }

  lemma {:induction false} NothingReplayed<E>(pending: seq<(Sequence, E)>, pos: Position)
    ensures Replayed(pending, None, pos) == []
    decreases |pending|
  {
    if pending != [] {
      NothingReplayed(pending[..|pending| - 1], pos);
    }
  }

  lemma {:induction false} EventsOfKept<E>(pending: seq<(Sequence, E)>, id: Option<Sequence>, q: Sequence)
    ensures EventsOf(Kept(pending, id), q) == if id.Some? && Newer(q, id.value) then EventsOf(pending, q) else []
    decreases |pending|
  {
    if pending != [] {
      var before, last := pending[..|pending| - 1], pending[|pending| - 1];
      EventsOfKept(before, id, q);
      if id.Some? && Newer(last.0, id.value) {
        var kept := Kept(before, id) + [last];
        assert kept[..|kept| - 1] == Kept(before, id);
      } else {
        assert Kept(pending, id) == Kept(before, id);
      }
    }
  }

  /** The gate knows the activation in force and the latest id. */
  lemma {:induction false} GateRemembers<E>(gates: seq<Gate<E>>, events: seq<Event<E>>, n: nat)
    requires IsRun(gates, events) && n <= |events|
    ensures gates[n].active == InForce(events[..n]) && gates[n].last == LatestId(events[..n])
  {
    if n > 0 {
      GateRemembers(gates, events, n - 1);
      assert StepsAt(gates, events, n - 1);
      assert events[..n][..n - 1] == events[..n - 1];
    }
  }

  lemma FeedingWaits<E>(g: Gate<E>, sequence: Option<Sequence>, event: E, q: Sequence)
    ensures
      var waits :=
        && sequence == Some(q) && !(g.active.Some? && (g.active.value.id.None? || g.active.value.id == sequence))
        && NotStale(q, g.last) && |g.pending| < MAX_PENDING;
      EventsOf(Feed(g, sequence, event).0.pending, q) == EventsOf(g.pending, q) + if waits then [event] else []
  {
    var next := Feed(g, sequence, event).0;
    if next.pending != g.pending {
      assert next.pending == g.pending + [(sequence.value, event)];
      assert next.pending[..|next.pending| - 1] == g.pending;
    }
  }

  /** In every run, what waits under a sequence is exactly the early input with that sequence. */
  lemma {:induction false} EarlyInputWaits<E>(gates: seq<Gate<E>>, events: seq<Event<E>>, q: Sequence, n: nat)
    requires IsRun(gates, events) && n <= |events|
    ensures EventsOf(gates[n].pending, q) == Early(gates, events, q, n)
  {
    if n > 0 {
      EarlyInputWaits(gates, events, q, n - 1);
      GateRemembers(gates, events, n - 1);
      assert StepsAt(gates, events, n - 1);
      match events[n - 1]
      case Activated(id, _, _) => EventsOfKept(gates[n - 1].pending, id, q);
      case Deactivated =>
      case Received(sequence, event) => FeedingWaits(gates[n - 1], sequence, event, q);
    }
  }

  /**
   In every run, an activation makes ready its entry if it has one, one beginning, and then exactly the
   early input with its id, in the order received. A deactivation withdraws what is ready; an input
   is ready at once exactly when it belongs to the activation in force.
   */
  lemma ReadyIsExact<E>(gates: seq<Gate<E>>, events: seq<Event<E>>, n: nat)
    requires IsRun(gates, events) && n < |events|
    ensures
      gates[n + 1].ready ==
        match events[n]
        case Activated(id, pos, along) =>
          gates[n].ready + (if along.Some? then [Entry(pos, along.value)] else []) + [Begin(pos)]
          + if id.Some? then Inputs(pos, Early(gates, events, id.value, n)) else []
        case Deactivated => []
        case Received(sequence, event) =>
          if Current(events[..n], sequence) then gates[n].ready + [Input(InForce(events[..n]).value.pos, event)] else gates[n].ready
  {
    GateRemembers(gates, events, n);
    assert StepsAt(gates, events, n);
    match events[n]
    case Activated(id, pos, along) =>
      if id.Some? {
        EarlyInputWaits(gates, events, id.value, n);
        ReplayedAreInputs(gates[n].pending, id.value, pos);
      } else {
        NothingReplayed(gates[n].pending, pos);
      }
    case Deactivated =>
    case Received(sequence, event) =>
  }

  /** An input is refused exactly when it is early and there is no room for it. */
  lemma RefusedOnlyWhenFull<E>(gates: seq<Gate<E>>, events: seq<Event<E>>, n: nat, sequence: Option<Sequence>, event: E)
    requires IsRun(gates, events) && n < |events| && events[n] == Received(sequence, event)
    ensures !Feed(gates[n], sequence, event).1 <==> sequence.Some? && IsEarly(events[..n], sequence.value, true) && !Room(gates[n])
  {
    GateRemembers(gates, events, n);
  }

  /** Every activation in this part of the run is older than `q`. */
  ghost predicate OnlyOlder<E>(events: seq<Event<E>>, q: Sequence, from: nat, to: nat) {
    forall k :: from <= k < to && k < |events| && events[k].Activated? ==> events[k].id.Some? && Newer(q, events[k].id.value)
  }

  lemma {:induction false} EarlyStays<E>(gates: seq<Gate<E>>, events: seq<Event<E>>, q: Sequence, n: nat, m: nat)
    requires n <= m <= |events| < |gates| && OnlyOlder(events, q, n, m)
    ensures Early(gates, events, q, n) <= Early(gates, events, q, m)
    decreases m
  {
    if n < m {
      EarlyStays(gates, events, q, n, m - 1);
      assert events[m - 1].Activated? ==> events[m - 1].id.Some? && Newer(q, events[m - 1].id.value);
    }
  }

  lemma WithinInputs<E>(front: seq<Ready<E>>, pos: Position, before: seq<E>, event: E, all: seq<E>)
    requires before + [event] <= all && front != []
    ensures
      var ready := front + Inputs(pos, all);
      && |front| + |before| < |ready|
      && ready[|front| - 1] == front[|front| - 1]
      && ready[|front|..|front| + |before|] == Inputs(pos, before)
      && ready[|front| + |before|] == Input(pos, event)
  {
    assert all[|before|] == (before + [event])[|before|];
    forall i | 0 <= i < |before|
      ensures all[i] == before[i]
    {
      assert all[i] == (before + [event])[i];
    }
  }

  /**
   An early input is handed on by the next activation with its sequence, whatever deactivations, older
   activations and other inputs come in between, after all early input of that sequence before it.
   */
  lemma EarlyInputIsHandedOn<E>(gates: seq<Gate<E>>, events: seq<Event<E>>, n: nat, m: nat, q: Sequence, event: E)
    requires IsRun(gates, events) && n < m < |events| && events[n] == Received(Some(q), event)
    requires IsEarly(events[..n], q, Room(gates[n])) && OnlyOlder(events, q, n + 1, m)
    requires events[m].Activated? && events[m].id == Some(q)
    ensures
      var (pos, before, start) := (events[m].at, Early(gates, events, q, n), |gates[m].ready| + if events[m].along.Some? then 2 else 1);
      && start + |before| < |gates[m + 1].ready|
      && gates[m + 1].ready[start - 1] == Begin(pos)
      && gates[m + 1].ready[start..start + |before|] == Inputs(pos, before)
      && gates[m + 1].ready[start + |before|] == Input(pos, event)
  {
    var pos, along, before := events[m].at, events[m].along, Early(gates, events, q, n);
    EarlyStays(gates, events, q, n + 1, m);
    assert Early(gates, events, q, n + 1) == before + [event];
    ReadyIsExact(gates, events, m);
    var front := gates[m].ready + (if along.Some? then [Entry(pos, along.value)] else []) + [Begin(pos)];
    WithinInputs(front, pos, before, event, Early(gates, events, q, m));
  }
}
