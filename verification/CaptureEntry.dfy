/**
 Entering another device: which device captured input goes to, whether it has acknowledged the entry,
 and until when that is awaited. Questions to the connection and the compositor are answered by the
 surroundings of each event.
 */
module CaptureEntry {
  import opened Common
  import opened CapturePressure

  const ACK_TIMEOUT: nat := 750
  const MAX_HELD: nat := 64
  const DUPLICATE_TOUCH: real := 0.05

  type Handle = nat

  datatype Phase = WaitingForAck | Sending

  /** Buttons and keys are held until the entry is acknowledged; other input is not. */
  datatype Input = Motion(dx: Amount, dy: Amount) | Press(code: nat) | OtherInput(code: nat)

  datatype CaptureEvent = Entry(along: real) | Begin | Captured(input: Input)

  datatype Message =
    | Enter
    | EnterAt(along: real)
    | EnterVia(via: string)
    | Forwarded(input: Input)
    | Leave
    | Goodbye
    | HandoffRefused

  datatype Sent = Sent(to: Handle, message: Message)

  datatype Pressing = Pressing(handle: Handle, soFar: real)

  datatype Task = Task(
    active: Option<Handle>,
    phase: Phase,
    deadline: Option<nat>,
    held: seq<Input>,
    via: Option<string>,
    along: Option<real>,
    legacy: bool,
    pressure: Option<Pressing>)

  const IDLE: Task := Task(None, WaitingForAck, None, [], None, None, false, None)

  /** What the capture asks around while it handles one event. */
  datatype Surroundings = Surroundings(
    now: nat,
    known: bool,
    releaseKeys: bool,
    sameEdge: bool,
    idle: real,
    edge: Position,
    needed: real,
    plain: bool,
    ready: bool,
    controllers: bool,
    touchpad: bool,
    android: bool,
    justEntered: bool,
    justReturned: bool,
    justPassed: bool,
    passesOn: bool,
    delivered: bool)

  function EnterMessage(t: Task): Message {
    if t.via.Some? then EnterVia(t.via.value)
    else if t.along.Some? && !t.legacy then EnterAt(t.along.value)
    else Enter
  }

  // ----- Letting go -----

  function LetGo(t: Task): (Task, seq<Sent>) {
    (t.(active := None, phase := WaitingForAck, deadline := None, held := []),
     if t.active.Some? then [Sent(t.active.value, Goodbye)] else [])
  }

  function Release(t: Task): (Task, seq<Sent>) {
    LetGo(t.(pressure := None))
  }

  // ----- Events of the local capture -----

  /** The pointer leaves for a device that was not active. */
  function Entered(t: Task, h: Handle, now: nat): Task {
    if t.active == Some(h) then t
    else t.(active := Some(h), phase := WaitingForAck, legacy := false, deadline := Some(now + ACK_TIMEOUT))
  }

  function Holding(t: Task, input: Input): Task {
    if input.Press? && |t.held| < MAX_HELD then t.(held := t.held + [input]) else t
  }

  /** Sends one message; a device that cannot be reached is let go. */
  function Dispatch(t: Task, to: Handle, message: Message, delivered: bool): (Task, seq<Sent>) {
    if delivered then (t, [Sent(to, message)])
    else var (u, out) := Release(t); (u, [Sent(to, message)] + out)
  }

  function Deliver(t: Task, input: Input, s: Surroundings): (Task, seq<Sent>) {
    if t.active.None? then (t, [])
    else if t.phase == Sending then Dispatch(t, t.active.value, Forwarded(input), s.delivered)
    else
      var u := Holding(t, input);
      Dispatch(u, t.active.value, EnterMessage(u), s.delivered)
  }

  function Cross(t: Task, h: Handle, s: Surroundings): (Task, seq<Sent>) {
    var u := Entered(t, h, s.now).(via := None);
    Dispatch(u, h, EnterMessage(u), s.delivered)
  }

  /** The pointer touches an edge, or has pushed against it for long enough (`met`). */
  function Touch(t: Task, h: Handle, met: bool, s: Surroundings): (Task, seq<Sent>) {
    var back := t.active.None? && s.controllers;
    var returning := !s.touchpad && back;
    if s.plain && !s.ready && !back then (t, [])
    else if !s.touchpad && s.justEntered then LetGo(t)
    else if s.justReturned || s.justPassed then (t, [])
    else if !met && !s.android && !s.touchpad && s.needed > 0.0 && (s.plain || returning) then
      (t.(pressure := Some(Pressing(h, 0.0))), [])
    else if returning || !s.plain || (!s.touchpad && s.passesOn && t.active.None?) then (t, [])
    else Cross(t, h, s)
  }

  function OnCapture(t: Task, h: Handle, e: CaptureEvent, s: Surroundings): (Task, seq<Sent>) {
    if e.Entry? then (t.(along := Some(e.along)), [])
    else if !s.known then (t, [])
    else if s.releaseKeys then Release(t)
    else if t.pressure.None? then
      if e.Begin? then Touch(t, h, false, s) else if s.plain then Deliver(t, e.input, s) else (t, [])
    else if t.pressure.value.handle != h then
      if s.sameEdge then (t, []) else Release(t)
    else if e.Captured? && e.input.Motion? then
      match AdvancePressure(t.pressure.value.soFar, s.idle, s.edge, e.input.dx, e.input.dy, s.needed)
      case Building(total) => (t.(pressure := Some(Pressing(h, total))), [])
      case Reached => Touch(t.(pressure := None), h, true, s)
      case Backed => (t.(pressure := None), [])
    else if e.Begin? && s.idle >= DUPLICATE_TOUCH then Touch(t.(pressure := None), h, false, s)
    else (t, [])
  }

  // ----- Events of the network and the clock -----

  function Replay(to: Handle, held: seq<Input>): (out: seq<Sent>)
    ensures |out| == |held| && forall i :: 0 <= i < |held| ==> out[i] == Sent(to, Forwarded(held[i]))
  {
    if held == [] then [] else Replay(to, held[..|held| - 1]) + [Sent(to, Forwarded(held[|held| - 1]))]
  }

  function OnAck(t: Task, h: Handle): (Task, seq<Sent>) {
    if t.active != Some(h) || t.phase != WaitingForAck then (t, [])
    else (t.(via := None, along := None, phase := Sending, deadline := None, held := []), Replay(h, t.held))
  }

  /** The device leaves the pointer, or can no longer take input. */
  function OnGone(t: Task, h: Handle): (Task, seq<Sent>) {
    if t.active == Some(h) then Release(t) else (t, [])
  }

  /** Where a hand-off leads: back to this machine, to a device it can enter, or nowhere. */
  datatype Target = Home | Next(handle: Handle, via: Option<string>) | Refused

  function OnHandoff(t: Task, from: Handle, target: Target, now: nat): (Task, seq<Sent>) {
    if t.active != Some(from) then (t, [])
    else if t.phase != Sending then Release(t)
    else
      match target
      case Home => LetGo(t)
      case Refused => (t, [Sent(from, HandoffRefused)])
      case Next(next, via) =>
        var u := t.(active := Some(next), phase := WaitingForAck, deadline := Some(now + ACK_TIMEOUT), held := [], via := via);
        (u, [Sent(from, Leave), Sent(next, EnterMessage(u))])
  }

  /** An old device may not know how to be entered at a place: it gets the plain entry once. */
  predicate Retries(t: Task) {
    t.active.Some? && t.phase == WaitingForAck && t.via.None? && t.along.Some? && !t.legacy
  }

  function OnDeadline(t: Task, now: nat): (Task, seq<Sent>) {
    if !Retries(t) then Release(t)
    else
      var u := t.(legacy := true, deadline := Some(now + ACK_TIMEOUT));
      (u, [Sent(t.active.value, EnterMessage(u))])
  }

  // ----- What every operation keeps -----

  /** A device that takes input is not awaited and nothing waits for it; one that is awaited has a deadline. */
  predicate TaskOk(t: Task) {
    && (t.phase == Sending ==> t.active.Some? && t.deadline.None? && t.held == [])
    && (t.phase == WaitingForAck && t.active.Some? ==> t.deadline.Some?)
    && (t.active.None? ==> t.deadline.None? && t.held == [])
    && |t.held| <= MAX_HELD
  }

  lemma DeliverKeeps(t: Task, input: Input, s: Surroundings)
    requires TaskOk(t)
    ensures TaskOk(Deliver(t, input, s).0)
  {
  }

  lemma TouchKeeps(t: Task, h: Handle, met: bool, s: Surroundings)
    requires TaskOk(t)
    ensures TaskOk(Touch(t, h, met, s).0)
  {
    assert TaskOk(Cross(t, h, s).0);
  }

  lemma CaptureKeeps(t: Task, h: Handle, e: CaptureEvent, s: Surroundings)
    requires TaskOk(t)
    ensures TaskOk(OnCapture(t, h, e, s).0)
  {
    var bare := t.(pressure := None);
    assert t.pressure.None? ==> t == bare;
    if e.Begin? {
      TouchKeeps(bare, h, false, s);
    } else if e.Captured? {
      TouchKeeps(bare, h, true, s);
      DeliverKeeps(t, e.input, s);
    }
  }

  /** Touching an edge never makes a device take input, and leaves the one that does. */
  lemma TouchDoesNotBegin(t: Task, h: Handle, met: bool, s: Surroundings)
    requires Touch(t, h, met, s).0.phase == Sending
    ensures t.phase == Sending && Touch(t, h, met, s).0.active == t.active
  {
  }

  lemma CaptureDoesNotBegin(t: Task, h: Handle, e: CaptureEvent, s: Surroundings)
    requires OnCapture(t, h, e, s).0.phase == Sending
    ensures t.phase == Sending && OnCapture(t, h, e, s).0.active == t.active
  {
    var bare := t.(pressure := None);
    assert t.pressure.None? ==> t == bare;
    if e.Begin? && Touch(bare, h, false, s).0.phase == Sending {
      TouchDoesNotBegin(bare, h, false, s);
    } else if e.Captured? && Touch(bare, h, true, s).0.phase == Sending {
      TouchDoesNotBegin(bare, h, true, s);
    }
  }

  lemma TouchForwardsNothing(t: Task, h: Handle, met: bool, around: Surroundings, s: Sent)
    requires s in Touch(t, h, met, around).1
    ensures !s.message.Forwarded?
  {
  }

  lemma CaptureForwards(t: Task, h: Handle, e: CaptureEvent, around: Surroundings, s: Sent)
    requires s in OnCapture(t, h, e, around).1 && s.message.Forwarded?
    ensures t.active == Some(s.to) && t.phase == Sending
  {
    var bare := t.(pressure := None);
    assert t.pressure.None? ==> t == bare;
    if e.Begin? && s in Touch(bare, h, false, around).1 {
      TouchForwardsNothing(bare, h, false, around, s);
    } else if e.Captured? && s in Touch(bare, h, true, around).1 {
      TouchForwardsNothing(bare, h, true, around, s);
    }
  }

  /** What a caller gains from a capture event. */
  lemma CaptureGains(t: Task, h: Handle, e: CaptureEvent, s: Surroundings)
    requires TaskOk(t)
    ensures
      var (u, out) := OnCapture(t, h, e, s);
      && TaskOk(u)
      && (forall sent :: sent in out && sent.message.Forwarded? ==> t.phase == Sending && t.active == Some(sent.to))
      && (u.phase == Sending ==> t.phase == Sending && u.active == t.active)
      && (u.active.Some? && u.active != t.active ==> u.active == Some(h) && u.deadline == Some(s.now + ACK_TIMEOUT))
  {
    var (u, out) := OnCapture(t, h, e, s);
    CaptureKeeps(t, h, e, s);
    forall sent | sent in out && sent.message.Forwarded?
      ensures t.phase == Sending && t.active == Some(sent.to)
    {
      CaptureForwards(t, h, e, s, sent);
    }
    if u.phase == Sending {
      CaptureDoesNotBegin(t, h, e, s);
    }
    if u.active.Some? && u.active != t.active {
      NewlyEntered(t, h, e, s);
    }
  }

  /** A device that becomes active is awaited, with a deadline of its own. */
  lemma NewlyEntered(t: Task, h: Handle, e: CaptureEvent, s: Surroundings)
    requires OnCapture(t, h, e, s).0.active.Some? && OnCapture(t, h, e, s).0.active != t.active
    ensures
      var u := OnCapture(t, h, e, s).0;
      u.active == Some(h) && u.phase == WaitingForAck && u.deadline == Some(s.now + ACK_TIMEOUT) && !u.legacy
  {
  }

  // ----- The task, updated in place -----

  class CaptureTask {
    var active: Option<Handle>
    var phase: Phase
    var deadline: Option<nat>
    var held: seq<Input>
    var via: Option<string>
    var along: Option<real>
    var legacy: bool
    var pressure: Option<Pressing>

    ghost function View(): Task
      reads this
    {
      Task(active, phase, deadline, held, via, along, legacy, pressure)
    }

    ghost predicate Valid()
      reads this
    {
      TaskOk(View())
    }

    constructor ()
      ensures Valid() && View() == IDLE
    {
      active, phase, deadline, held := None, WaitingForAck, None, [];
      via, along, legacy, pressure := None, None, false, None;
    }

    method ReleaseAt() returns (out: seq<Sent>)
      modifies this
      ensures Valid() && active.None? && (View(), out) == LetGo(old(View()))
    {
      deadline := None;
      held := [];
      phase := WaitingForAck;
      out := if active.Some? then [Sent(active.value, Goodbye)] else [];
      active := None;
    }

    method ReleaseCapture() returns (out: seq<Sent>)
      modifies this
      ensures Valid() && active.None? && (View(), out) == Release(old(View()))
    {
      pressure := None;
      out := ReleaseAt();
    }

    method SendTo(to: Handle, message: Message, delivered: bool) returns (out: seq<Sent>)
      modifies this
      ensures (View(), out) == Dispatch(old(View()), to, message, delivered)
    {
      out := [Sent(to, message)];
      if !delivered {
        var goodbye := ReleaseCapture();
        out := out + goodbye;
      }
    }

    method CurrentEnter() returns (message: Message)
      ensures message == EnterMessage(View())
    {
      if via.Some? {
        return EnterVia(via.value);
      }
      if along.Some? && !legacy {
        return EnterAt(along.value);
      }
      return Enter;
    }

    method DeliverInput(input: Input, s: Surroundings) returns (out: seq<Sent>)
      requires Valid()
      modifies this
      ensures Valid() && (View(), out) == Deliver(old(View()), input, s)
    {
      if active.None? {
        return [];
      }
      var message := Forwarded(input);
      if phase == WaitingForAck {
        if input.Press? && |held| < MAX_HELD {
          held := held + [input];
        }
        message := CurrentEnter();
      }
      out := SendTo(active.value, message, s.delivered);
    }

    method BeginAt(h: Handle, s: Surroundings) returns (out: seq<Sent>)
      requires Valid()
      modifies this
      ensures Valid() && (View(), out) == Cross(old(View()), h, s)
    {
      if active != Some(h) {
        phase := WaitingForAck;
        legacy := false;
        deadline := Some(s.now + ACK_TIMEOUT);
        active := Some(h);
      }
      via := None;
      var message := CurrentEnter();
      out := SendTo(h, message, s.delivered);
    }

    method TouchEdge(h: Handle, met: bool, s: Surroundings) returns (out: seq<Sent>)
      requires Valid()
      modifies this
      ensures Valid() && (View(), out) == Touch(old(View()), h, met, s)
    {
      var back := active.None? && s.controllers;
      if s.plain && !s.ready && !back {
        return [];
      }
      if !s.touchpad && s.justEntered {
        out := ReleaseAt();
        return;
      }
      if s.justReturned || s.justPassed {
        return [];
      }
      var returning := !s.touchpad && back;
      if !met && !s.android && !s.touchpad && s.needed > 0.0 && (s.plain || returning) {
        pressure := Some(Pressing(h, 0.0));
        return [];
      }
      if returning || !s.plain {
        return [];
      }
      if !s.touchpad && s.passesOn && active.None? {
        return [];
      }
      out := BeginAt(h, s);
    }

    /** Input reaches a device that takes it and no other, no device begins to take it here, and a device newly active is awaited. */
    method HandleCaptureEvent(h: Handle, e: CaptureEvent, s: Surroundings) returns (out: seq<Sent>)
      requires Valid()
      modifies this
      ensures Valid() && (View(), out) == OnCapture(old(View()), h, e, s)
      ensures forall sent :: sent in out && sent.message.Forwarded? ==> old(phase) == Sending && old(active) == Some(sent.to)
      ensures phase == Sending ==> old(phase) == Sending && active == old(active)
      ensures active.Some? && active != old(active) ==> active == Some(h) && deadline == Some(s.now + ACK_TIMEOUT)
      ensures e.Captured? && old(pressure).None? && s.known && !s.releaseKeys && s.plain && old(phase) == Sending ==>
        && old(active).Some? && out != [] && out[0] == Sent(old(active).value, Forwarded(e.input))
        && (s.delivered ==> |out| == 1 && View() == old(View()))
    {
      CaptureGains(View(), h, e, s);
      out := Dispatched(h, e, s);
    }

    method Dispatched(h: Handle, e: CaptureEvent, s: Surroundings) returns (out: seq<Sent>)
      requires Valid()
      modifies this
      ensures (View(), out) == OnCapture(old(View()), h, e, s)
    {
      if e.Entry? {
        along := Some(e.along);
        return [];
      }
      if !s.known {
        return [];
      }
      if s.releaseKeys {
        out := ReleaseCapture();
        return;
      }
      var met, begin := false, e.Begin?;
      if pressure.Some? {
        var pressing := pressure.value;
        if pressing.handle != h {
          if s.sameEdge {
            return [];
          }
          out := ReleaseCapture();
          return;
        }
        if e.Captured? && e.input.Motion? {
          match AdvancePressure(pressing.soFar, s.idle, s.edge, e.input.dx, e.input.dy, s.needed)
          case Building(total) =>
            pressure := Some(Pressing(h, total));
            return [];
          case Reached =>
            pressure := None;
            met, begin := true, true;
          case Backed =>
            pressure := None;
            return [];
        } else if e.Begin? && s.idle >= DUPLICATE_TOUCH {
          pressure := None;
        } else {
          return [];
        }
      }
      if begin {
        out := TouchEdge(h, met, s);
      } else if s.plain {
        out := DeliverInput(e.input, s);
      } else {
        out := [];
      }
    }

    method Acknowledge(h: Handle) returns (out: seq<Sent>)
      requires Valid()
      modifies this
      ensures Valid() && (View(), out) == OnAck(old(View()), h)
      ensures active == old(active) && (active == Some(h) ==> phase == Sending)
      ensures old(active) == Some(h) && old(phase) == WaitingForAck ==>
        |out| == |old(held)| && forall i :: 0 <= i < |out| ==> out[i] == Sent(h, Forwarded(old(held)[i]))
    {
      if active != Some(h) || phase != WaitingForAck {
        return [];
      }
      via := None;
      along := None;
      phase := Sending;
      deadline := None;
      out := Replay(h, held);
      held := [];
    }

    method HandOff(from: Handle, target: Target, now: nat) returns (out: seq<Sent>)
      requires Valid()
      modifies this
      ensures Valid() && (View(), out) == OnHandoff(old(View()), from, target, now)
      ensures forall sent :: sent in out ==> !sent.message.Forwarded?
      ensures active.Some? && active != old(active) ==>
        && old(phase) == Sending && old(active) == Some(from) && target.Next? && active == Some(target.handle)
        && phase == WaitingForAck && deadline == Some(now + ACK_TIMEOUT) && Sent(from, Leave) in out
    {
      if active != Some(from) {
        return [];
      }
      if phase != Sending {
        out := ReleaseCapture();
        return;
      }
      match target
      case Home =>
        out := ReleaseAt();
      case Refused =>
        out := [Sent(from, HandoffRefused)];
      case Next(next, through) =>
        phase := WaitingForAck;
        deadline := Some(now + ACK_TIMEOUT);
        held := [];
        active := Some(next);
        via := through;
        var message := CurrentEnter();
        out := [Sent(from, Leave), Sent(next, message)];
    }

    method DeadlinePassed(now: nat) returns (out: seq<Sent>)
      requires Valid()
      modifies this
      ensures Valid() && (View(), out) == OnDeadline(old(View()), now)
      ensures active.Some? ==> active == old(active) && !old(legacy) && legacy && phase == WaitingForAck && deadline == Some(now + ACK_TIMEOUT)
    {
      if active.None? || phase != WaitingForAck || via.Some? || along.None? || legacy {
        out := ReleaseCapture();
        return;
      }
      legacy := true;
      deadline := Some(now + ACK_TIMEOUT);
      var message := CurrentEnter();
      out := [Sent(active.value, message)];
    }
  }
}
