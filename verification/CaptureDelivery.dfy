/** What the capture task does bring about, over every run: input arrives, presses are kept, crossings enter, releases are obeyed. */
module CaptureDelivery {
  import opened Common
  import opened CapturePressure
  import opened CaptureEntry
  import opened CaptureRuns

  // ----- Captured input -----

  /** Event `n` is input captured at a known barrier that leads to another device, no push is under way and no release keys are down. */
  predicate Takes(r: Run, n: nat, input: Input)
    requires n < |r.events| < |r.tasks|
  {
    && r.events[n].Capture? && r.events[n].event == Captured(input) && r.tasks[n].pressure.None?
    && r.events[n].around.known && !r.events[n].around.releaseKeys && r.events[n].around.plain
  }

  /**
   While a device takes input, whatever is captured is sent to it at once and unchanged. If it cannot be
   reached it is let go with a farewell; otherwise nothing else is sent and nothing changes.
   */
  lemma InputIsForwarded(r: Run, n: nat, input: Input, h: Handle)
    requires IsRun(r) && n < |r.events| && Takes(r, n, input) && r.tasks[n].active == Some(h) && r.tasks[n].phase == Sending
    ensures
      if r.events[n].around.delivered then
        r.sent[n] == [Sent(h, Forwarded(input))] && r.tasks[n + 1] == r.tasks[n]
      else
        r.sent[n] == [Sent(h, Forwarded(input)), Sent(h, Goodbye)] && r.tasks[n + 1].active.None?
  {
    assert StepsAt(r, n);
  }

  /** A press joins what is kept for the device, as long as there is room. */
  function WithPress(held: seq<Input>, input: Input): seq<Input> {
    if input.Press? && |held| < MAX_HELD then held + [input] else held
  }

  /** While a device is awaited, the entry is repeated to it, and a press is kept behind those before it. */
  lemma InputIsHeld(r: Run, n: nat, input: Input, h: Handle)
    requires IsRun(r) && n < |r.events| && Takes(r, n, input) && r.tasks[n].active == Some(h) && r.tasks[n].phase == WaitingForAck
    ensures r.sent[n] != [] && r.sent[n][0] == Sent(h, EnterMessage(r.tasks[n])) && IsEntry(r.sent[n][0].message)
    ensures
      if r.events[n].around.delivered then
        |r.sent[n]| == 1 && r.tasks[n + 1] == r.tasks[n].(held := WithPress(r.tasks[n].held, input))
      else
        r.sent[n][1..] == [Sent(h, Goodbye)] && r.tasks[n + 1].active.None?
  {
    assert StepsAt(r, n);
  }

  /** Kept presses stay in place until they are sent, handed over to nobody, or let go of. */
  lemma HeldIsKept(r: Run, n: nat)
    requires IsRun(r) && n < |r.events|
    ensures
      var t, u := r.tasks[n], r.tasks[n + 1];
      || u.held == t.held
      || (exists input :: Takes(r, n, input) && u.held == WithPress(t.held, input))
      || (u.held == [] && (u.active.None? || r.events[n].Handoff? || (r.events[n] == Ack(u.active.value) && t.phase == WaitingForAck)))
  {
    assert StepsAt(r, n);
    var t, u, e := r.tasks[n], r.tasks[n + 1], r.events[n];
    if e.Capture? && u.held != t.held && u.active.Some? {
      CaptureHolds(t, e.handle, e.event, e.around);
      assert Takes(r, n, e.event.input);
    }
  }

  lemma CaptureHolds(t: Task, h: Handle, e: CaptureEvent, s: Surroundings)
    requires var u := OnCapture(t, h, e, s).0; u.held != t.held && u.active.Some?
    ensures e.Captured? && t.pressure.None? && s.known && !s.releaseKeys && s.plain
    ensures OnCapture(t, h, e, s).0.held == WithPress(t.held, e.input)
  {
    var bare := t.(pressure := None);
    assert forall met :: Touch(bare, h, met, s).0.active.Some? ==> Touch(bare, h, met, s).0.held == bare.held;
  }

  /** The acknowledgement of the awaited device brings it everything kept, in order, and from then on it takes input. */
  lemma AcknowledgementSendsHeld(r: Run, n: nat, h: Handle)
    requires IsRun(r) && n < |r.events| && r.events[n] == Ack(h) && r.tasks[n].active == Some(h) && r.tasks[n].phase == WaitingForAck
    ensures |r.sent[n]| == |r.tasks[n].held| && forall i :: 0 <= i < |r.sent[n]| ==> r.sent[n][i] == Sent(h, Forwarded(r.tasks[n].held[i]))
    ensures r.tasks[n + 1].active == Some(h) && r.tasks[n + 1].phase == Sending
  {
    assert StepsAt(r, n);
  }

  // ----- Crossing -----

  /** Nothing hinders a crossing: the barrier leads to a ready device, and the pointer did not just come that way. */
  predicate Free(t: Task, s: Surroundings) {
    && s.plain && !s.justReturned && !s.justPassed
    && (s.ready || (s.touchpad && t.active.None? && s.controllers))
    && (s.touchpad || (!s.justEntered && (t.active.Some? || (!s.controllers && !s.passesOn))))
  }

  predicate NeedsNoPush(s: Surroundings) {
    s.android || s.touchpad || s.needed <= 0.0
  }

  /** The event takes the pointer across: a touch where no push is needed, or the motion that completes one. */
  predicate CrossesAt(r: Run, n: nat)
    requires n < |r.events| < |r.tasks|
  {
    && r.events[n].Capture? && !r.events[n].event.Entry?
    && r.events[n].around.known && !r.events[n].around.releaseKeys && Free(r.tasks[n], r.events[n].around)
    && Crosses(r.tasks[n].pressure, r.events[n].handle, r.events[n].event, r.events[n].around)
  }

  predicate Crosses(pressure: Option<Pressing>, h: Handle, e: CaptureEvent, s: Surroundings) {
    if pressure.None? then e.Begin? && NeedsNoPush(s)
    else
      && pressure.value.handle == h
      && if e.Begin? then s.idle >= DUPLICATE_TOUCH && NeedsNoPush(s)
         else
           && e.Captured? && e.input.Motion?
           && AdvancePressure(pressure.value.soFar, s.idle, s.edge, e.input.dx, e.input.dy, s.needed) == Reached
  }

  /** A motion outward that brings what was pushed so far to the threshold completes the push. */
  lemma PushingOverReaches(soFar: real, idle: real, edge: Position, dx: real, dy: real, needed: real)
    requires OutBy(edge, dx, dy) > 0.0 && soFar + OutBy(edge, dx, dy) >= needed
    ensures AdvancePressure(soFar, idle, edge, Finite(dx), Finite(dy), needed) == Reached
  {
    PushIsOutward(edge, dx, dy);
  }

  /** A crossing enters the device: it is told, and if it can be reached it is active, awaited if it was not active before. */
  lemma CrossingEnters(r: Run, n: nat)
    requires IsRun(r) && n < |r.events| && CrossesAt(r, n)
    ensures
      var t, u, h, s := r.tasks[n], r.tasks[n + 1], r.events[n].handle, r.events[n].around;
      && r.sent[n] != [] && r.sent[n][0].to == h && IsEntry(r.sent[n][0].message) && u.pressure.None?
      && (s.delivered ==> |r.sent[n]| == 1 && u.active == Some(h) && u.held == t.held && u.along == t.along)
      && (s.delivered && t.active != Some(h) ==> u.phase == WaitingForAck && u.deadline == Some(s.now + ACK_TIMEOUT) && !u.legacy)
      && (s.delivered && t.active == Some(h) ==> u.phase == t.phase && u.deadline == t.deadline)
      && (!s.delivered ==> u.active.None? && r.sent[n][1..] == [Sent(h, Goodbye)])
  {
    assert StepsAt(r, n);
    var t, h, e, s := r.tasks[n], r.events[n].handle, r.events[n].event, r.events[n].around;
    FreeTouchCrosses(t.(pressure := None), h, e.Captured?, s);
    assert t.pressure.None? ==> t == t.(pressure := None);
  }

  lemma FreeTouchCrosses(t: Task, h: Handle, met: bool, s: Surroundings)
    requires Free(t, s) && (met || NeedsNoPush(s))
    ensures Touch(t, h, met, s) == Cross(t, h, s)
  {
  }

  lemma TouchCrossesFreely(t: Task, h: Handle, met: bool, s: Surroundings)
    requires Touch(t, h, met, s).0.active.Some? && Touch(t, h, met, s).0.active != t.active
    ensures Free(t, s) && (met || NeedsNoPush(s)) && s.delivered
  {
  }

  lemma CaptureCrossesFreely(t: Task, h: Handle, e: CaptureEvent, s: Surroundings)
    requires OnCapture(t, h, e, s).0.active.Some? && OnCapture(t, h, e, s).0.active != t.active
    ensures !e.Entry? && s.known && !s.releaseKeys && s.delivered && Free(t, s) && Crosses(t.pressure, h, e, s)
  {
    var bare := t.(pressure := None);
    assert t.pressure.None? ==> t == bare;
    if e.Begin? {
      TouchCrossesFreely(bare, h, false, s);
    } else if e.Captured? && t.pressure.Some? {
      TouchCrossesFreely(bare, h, true, s);
    }
  }

  /** In every run, a captured event makes another device active exactly when it crosses to that device and reaches it. */
  lemma EnteredExactlyByCrossing(r: Run, n: nat)
    requires IsRun(r) && n < |r.events| && r.events[n].Capture?
    ensures
      var t, u, h := r.tasks[n], r.tasks[n + 1], r.events[n].handle;
      (u.active.Some? && u.active != t.active) <==> (CrossesAt(r, n) && r.events[n].around.delivered && t.active != Some(h))
  {
    assert StepsAt(r, n);
    var t, u, e := r.tasks[n], r.tasks[n + 1], r.events[n];
    if u.active.Some? && u.active != t.active {
      CaptureCrossesFreely(t, e.handle, e.event, e.around);
      NewlyEntered(t, e.handle, e.event, e.around);
    }
    if CrossesAt(r, n) {
      CrossingEnters(r, n);
    }
  }

  /** Where a push is needed, the first touch begins one and says nothing to anybody. */
  lemma TouchBeginsPush(r: Run, n: nat)
    requires IsRun(r) && n < |r.events| && r.events[n].Capture? && r.events[n].event.Begin? && r.tasks[n].pressure.None?
    requires
      var s := r.events[n].around;
      s.known && !s.releaseKeys && Free(r.tasks[n], s) && !NeedsNoPush(s)
    ensures r.sent[n] == [] && r.tasks[n + 1] == r.tasks[n].(pressure := Some(Pressing(r.events[n].handle, 0.0)))
  {
    assert StepsAt(r, n);
  }

  /** A touch right after another device's pointer came in here lets the active device go and starts nothing. */
  lemma TouchAfterArrivalLetsGo(r: Run, n: nat, h: Handle)
    requires IsRun(r) && n < |r.events| && r.events[n].Capture? && r.events[n].event.Begin? && r.tasks[n].pressure.None?
    requires
      var s := r.events[n].around;
      s.known && !s.releaseKeys && s.ready && !s.touchpad && s.justEntered && r.tasks[n].active == Some(h)
    ensures r.tasks[n + 1].active.None? && r.tasks[n + 1].pressure.None? && r.sent[n] == [Sent(h, Goodbye)]
  {
    assert StepsAt(r, n);
  }

  /** While a push is made at one barrier, another barrier of the same edge is ignored, and one of another edge ends the capture. */
  lemma OtherBarrierEndsPush(r: Run, n: nat)
    requires IsRun(r) && n < |r.events| && r.events[n].Capture? && !r.events[n].event.Entry?
    requires r.events[n].around.known && !r.events[n].around.releaseKeys
    requires r.tasks[n].pressure.Some? && r.tasks[n].pressure.value.handle != r.events[n].handle
    ensures r.events[n].around.sameEdge ==> r.tasks[n + 1] == r.tasks[n] && r.sent[n] == []
    ensures !r.events[n].around.sameEdge ==> r.tasks[n + 1].active.None? && r.tasks[n + 1].pressure.None?
    ensures !r.events[n].around.sameEdge && r.tasks[n].active.Some? ==> r.sent[n] == [Sent(r.tasks[n].active.value, Goodbye)]
  {
    assert StepsAt(r, n);
  }

  // ----- What an entry says -----

  /** The place last reported since a device last acknowledged. */
  ghost function LatestPlace(r: Run, n: nat): Option<real>
    requires n <= |r.events| < |r.tasks|
  {
    if n == 0 then None
    else
      match r.events[n - 1]
      case Capture(_, Entry(along), _) => Some(along)
      case Ack(h) => if r.tasks[n - 1].active == Some(h) && r.tasks[n - 1].phase == WaitingForAck then None else LatestPlace(r, n - 1)
      case _ => LatestPlace(r, n - 1)
  }

  lemma CaptureKeepsPlace(t: Task, h: Handle, e: CaptureEvent, s: Surroundings)
    ensures OnCapture(t, h, e, s).0.along == if e.Entry? then Some(e.along) else t.along
  {
    var bare := t.(pressure := None);
    assert forall met :: Touch(bare, h, met, s).0.along == t.along;
    assert t.pressure.None? ==> t == bare;
  }

  lemma PlaceStep(t: Task, e: Event)
    ensures
      Step(t, e).0.along ==
        match e
        case Capture(_, Entry(along), _) => Some(along)
        case Ack(h) => if t.active == Some(h) && t.phase == WaitingForAck then None else t.along
        case _ => t.along
  {
    if e.Capture? {
      CaptureKeepsPlace(t, e.handle, e.event, e.around);
    }
  }

  lemma {:induction false} PlaceIsRemembered(r: Run, n: nat)
    requires IsRun(r) && n <= |r.events|
    ensures r.tasks[n].along == LatestPlace(r, n)
  {
    if n > 0 {
      PlaceIsRemembered(r, n - 1);
      assert StepsAt(r, n - 1);
      PlaceStep(r.tasks[n - 1], r.events[n - 1]);
    }
  }

  ghost predicate RetriedBefore(r: Run, n: nat)
    requires n <= |r.events| < |r.tasks|
  {
    exists k :: 0 <= k < n && RetriesAt(r, k)
  }

  lemma {:induction false} LegacyIsRetried(r: Run, n: nat)
    requires IsRun(r) && n <= |r.events| && r.tasks[n].legacy
    ensures RetriedBefore(r, n)
  {
    assert StepsAt(r, n - 1);
    if r.tasks[n - 1].legacy {
      LegacyIsRetried(r, n - 1);
    } else {
      assert RetriesAt(r, n - 1);
    }
  }

  /** What an entry may say of the place: the place last reported if it names one, and if it is plain, none is known or the old way was tried. */
  predicate EntryFits(t: Task, u: Task, s: Sent) {
    && (s.message.EnterAt? ==> t.along == Some(s.message.along))
    && (s.message.Enter? ==> t.along.None? || t.legacy || u.legacy)
  }

  lemma CaptureEntryFits(t: Task, h: Handle, e: CaptureEvent, around: Surroundings, s: Sent)
    requires s in OnCapture(t, h, e, around).1 && IsEntry(s.message)
    ensures EntryFits(t, OnCapture(t, h, e, around).0, s)
  {
    var bare := t.(pressure := None);
    assert forall met :: s in Touch(bare, h, met, around).1 ==> EntryFits(bare, bare, s);
    assert t.pressure.None? ==> t == bare;
  }

  lemma StepEntryFits(t: Task, e: Event, s: Sent)
    requires s in Step(t, e).1 && IsEntry(s.message)
    ensures EntryFits(t, Step(t, e).0, s)
  {
    if e.Capture? {
      CaptureEntryFits(t, e.handle, e.event, e.around, s);
    }
  }

  /** An entry that names a place names the one last reported; one that names nothing has none to name, or comes after a try that failed. */
  lemma EntrySaysWhatIsKnown(r: Run, n: nat, m: nat, s: Sent)
    requires IsRun(r) && n < |r.events| && m == n + 1 && s in r.sent[n] && IsEntry(s.message)
    ensures s.message.EnterAt? ==> LatestPlace(r, n) == Some(s.message.along)
    ensures s.message.Enter? ==> LatestPlace(r, n).None? || RetriedBefore(r, m)
  {
    assert StepsAt(r, n);
    PlaceIsRemembered(r, n);
    StepEntryFits(r.tasks[n], r.events[n], s);
    if r.tasks[n].legacy {
      LegacyIsRetried(r, n);
    } else if r.tasks[m].legacy {
      LegacyIsRetried(r, m);
    }
  }

  // ----- Handing off and letting go -----

  /** A device that takes input hands the pointer on: it is left, and the next one is entered, by way of the device that was named. */
  lemma HandoffEnters(r: Run, n: nat, from: Handle, next: Handle, via: Option<string>)
    requires IsRun(r) && n < |r.events| && r.events[n].Handoff? && r.events[n].handle == from && r.events[n].target == Next(next, via)
    requires r.tasks[n].active == Some(from) && r.tasks[n].phase == Sending
    ensures |r.sent[n]| == 2 && r.sent[n][0] == Sent(from, Leave) && r.sent[n][1].to == next && IsEntry(r.sent[n][1].message)
    ensures via.Some? ==> r.sent[n][1].message == EnterVia(via.value)
    ensures r.tasks[n + 1].active == Some(next) && r.tasks[n + 1].phase == WaitingForAck
  {
    assert StepsAt(r, n);
  }

  /** Other hand-offs: home lets the device go, one that leads nowhere is refused to its face, one that comes too early ends the capture. */
  lemma HandoffEnds(r: Run, n: nat, from: Handle)
    requires IsRun(r) && n < |r.events| && r.events[n].Handoff? && r.events[n].handle == from && r.tasks[n].active == Some(from)
    ensures r.tasks[n].phase != Sending || r.events[n].target.Home? ==> r.tasks[n + 1].active.None? && r.sent[n] == [Sent(from, Goodbye)]
    ensures r.tasks[n].phase == Sending && r.events[n].target.Refused? ==> r.tasks[n + 1] == r.tasks[n] && r.sent[n] == [Sent(from, HandoffRefused)]
  {
    assert StepsAt(r, n);
  }

  /** Nobody but the active device can hand the pointer on. */
  lemma StrangersHandNothingOn(r: Run, n: nat)
    requires IsRun(r) && n < |r.events| && (r.events[n].Handoff? || r.events[n].Ack? || r.events[n].Gone?) && r.tasks[n].active != Some(r.events[n].handle)
    ensures r.tasks[n + 1] == r.tasks[n] && r.sent[n] == []
  {
    assert StepsAt(r, n);
  }

  /** The first deadline of an entry at a place asks the device once more in the old way, with a deadline of its own. */
  lemma DeadlineAsksAgain(r: Run, n: nat)
    requires IsRun(r) && n < |r.events| && RetriesAt(r, n)
    ensures r.sent[n] == [Sent(r.tasks[n].active.value, Enter)] && r.tasks[n + 1].active == r.tasks[n].active
    ensures r.tasks[n + 1].deadline == Some(r.events[n].now + ACK_TIMEOUT) && r.tasks[n + 1].held == r.tasks[n].held
  {
    assert StepsAt(r, n);
  }

  /** Something asks for the active device to be let go: the user's keys, a command, or the device itself. */
  predicate AsksRelease(r: Run, n: nat)
    requires n < |r.events| < |r.tasks|
  {
    match r.events[n]
    case Capture(_, e, around) => !e.Entry? && around.known && around.releaseKeys
    case Gone(h) => r.tasks[n].active == Some(h)
    case ReleaseAsked => true
    case _ => false
  }

  lemma ReleaseIsObeyed(r: Run, n: nat)
    requires IsRun(r) && n < |r.events| && AsksRelease(r, n)
    ensures r.tasks[n + 1].active.None? && r.tasks[n + 1].pressure.None? && r.tasks[n + 1].held == [] && r.tasks[n + 1].deadline.None?
    ensures r.sent[n] == if r.tasks[n].active.Some? then [Sent(r.tasks[n].active.value, Goodbye)] else []
  {
    assert StepsAt(r, n);
  }

  /** A device that stops being active is told, unless the pointer crossed from it to another one here. */
  lemma LeavingIsTold(r: Run, n: nat, h: Handle)
    requires IsRun(r) && n < |r.events| && r.tasks[n].active == Some(h) && r.tasks[n + 1].active != Some(h)
    ensures
      || Sent(h, Goodbye) in r.sent[n] || Sent(h, Leave) in r.sent[n]
      || (r.events[n].Capture? && (r.tasks[n + 1].active == Some(r.events[n].handle) || Sent(r.events[n].handle, Goodbye) in r.sent[n]))
  {
    assert StepsAt(r, n);
    var t, e := r.tasks[n], r.events[n];
    if e.Capture? {
      CaptureLeaves(t, e.handle, e.event, e.around, h);
    }
  }

  lemma CaptureLeaves(t: Task, b: Handle, e: CaptureEvent, s: Surroundings, h: Handle)
    requires t.active == Some(h) && OnCapture(t, b, e, s).0.active != Some(h)
    ensures
      var (u, out) := OnCapture(t, b, e, s);
      Sent(h, Goodbye) in out || u.active == Some(b) || Sent(b, Goodbye) in out
  {
    var bare := t.(pressure := None);
    assert t.pressure.None? ==> t == bare;
    if e.Begin? {
      TouchLeaves(bare, b, false, s, h);
    } else if e.Captured? {
      TouchLeaves(bare, b, true, s, h);
    }
  }

  lemma TouchLeaves(t: Task, b: Handle, met: bool, s: Surroundings, h: Handle)
    requires t.active == Some(h)
    ensures
      var (u, out) := Touch(t, b, met, s);
      u.active == Some(h) || Sent(h, Goodbye) in out || u.active == Some(b) || Sent(b, Goodbye) in out
  {
  }
}
