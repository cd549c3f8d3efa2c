/** What holds of the entry handshake over every run. */
module CaptureRuns {
  import opened Common
  import opened CaptureEntry

  datatype Event =
    | Capture(handle: Handle, event: CaptureEvent, around: Surroundings)
    | Ack(handle: Handle)
    | Gone(handle: Handle)
    | Handoff(handle: Handle, target: Target, now: nat)
    | DeadlinePassed(now: nat)
    | ReleaseAsked

  function Step(t: Task, e: Event): (Task, seq<Sent>) {
    match e
    case Capture(h, event, around) => OnCapture(t, h, event, around)
    case Ack(h) => OnAck(t, h)
    case Gone(h) => OnGone(t, h)
    case Handoff(h, target, now) => OnHandoff(t, h, target, now)
    case DeadlinePassed(now) => OnDeadline(t, now)
    case ReleaseAsked => Release(t)
  }

  predicate Enabled(t: Task, e: Event) {
    e.DeadlinePassed? ==> t.deadline.Some? && t.deadline.value <= e.now
  }

  datatype Run = Run(events: seq<Event>, sent: seq<seq<Sent>>, tasks: seq<Task>)

  ghost predicate IsRun(r: Run) {
    && |r.sent| == |r.events| && |r.tasks| == |r.events| + 1 && r.tasks[0] == IDLE
    && forall n :: 0 <= n < |r.events| ==> StepsAt(r, n)
  }

  ghost predicate StepsAt(r: Run, n: nat)
    requires n < |r.events| == |r.sent| < |r.tasks|
  {
    Enabled(r.tasks[n], r.events[n]) && (r.tasks[n + 1], r.sent[n]) == Step(r.tasks[n], r.events[n])
  }

  // ----- What every step keeps -----

  lemma StepKeeps(t: Task, e: Event)
    requires TaskOk(t)
    ensures TaskOk(Step(t, e).0)
  {
    if e.Capture? {
      CaptureKeeps(t, e.handle, e.event, e.around);
    }
  }

  lemma {:induction false} RunKeeps(r: Run, n: nat)
    requires IsRun(r) && n <= |r.events|
    ensures TaskOk(r.tasks[n])
  {
    if n > 0 {
      RunKeeps(r, n - 1);
      assert StepsAt(r, n - 1);
      StepKeeps(r.tasks[n - 1], r.events[n - 1]);
    }
  }

  // ----- Input goes only to a device that acknowledged -----

  /** Since it became active, the device itself acknowledged the entry, at `k`. */
  ghost predicate AckedAt(r: Run, k: nat, n: nat, h: Handle)
    requires n <= |r.events| < |r.tasks|
  {
    && k < n && r.events[k] == Ack(h) && r.tasks[k].active == Some(h)
    && forall j :: k < j <= n ==> r.tasks[j].active == Some(h) && r.tasks[j].phase == Sending
  }

  /** Sending begins with the active device's own acknowledgement and in no other way. */
  lemma SendingBegins(t: Task, e: Event)
    requires Step(t, e).0.phase == Sending
    ensures Step(t, e).0.active == t.active
    ensures t.phase != Sending ==> t.active.Some? && e == Ack(t.active.value)
  {
    if e.Capture? {
      CaptureDoesNotBegin(t, e.handle, e.event, e.around);
    }
  }

  lemma {:induction false} SendingIsAcknowledged(r: Run, n: nat) returns (k: nat)
    requires IsRun(r) && n <= |r.events| && r.tasks[n].phase == Sending
    ensures r.tasks[n].active.Some? && AckedAt(r, k, n, r.tasks[n].active.value)
    decreases n
  {
    RunKeeps(r, n);
    RunKeeps(r, n - 1);
    assert StepsAt(r, n - 1);
    SendingBegins(r.tasks[n - 1], r.events[n - 1]);
    if r.tasks[n - 1].phase == Sending {
      k := SendingIsAcknowledged(r, n - 1);
    } else {
      k := n - 1;
    }
  }

  lemma ForwardedTo(t: Task, e: Event, s: Sent)
    requires s in Step(t, e).1 && s.message.Forwarded?
    ensures t.active == Some(s.to) && (t.phase == Sending || e == Ack(s.to))
  {
    if e.Capture? {
      CaptureForwards(t, e.handle, e.event, e.around, s);
    }
  }

  /** Captured input is sent to a device only after that device acknowledged, without a break since. */
  lemma InputNeedsAcknowledgement(r: Run, n: nat, s: Sent) returns (k: nat)
    requires IsRun(r) && n < |r.events| && s in r.sent[n] && s.message.Forwarded?
    ensures (k == n && r.events[n] == Ack(s.to) && r.tasks[n].active == Some(s.to)) || AckedAt(r, k, n, s.to)
  {
    assert StepsAt(r, n);
    ForwardedTo(r.tasks[n], r.events[n], s);
    if r.tasks[n].phase == Sending {
      k := SendingIsAcknowledged(r, n);
    } else {
      k := n;
    }
  }

  // ----- Nobody is awaited for ever -----

  /** The device stays active from `n` to `m`. */
  ghost predicate StaysActive(r: Run, h: Handle, n: nat, m: nat)
    requires m <= |r.events| < |r.tasks|
  {
    forall j :: n <= j <= m ==> r.tasks[j].active == Some(h)
  }

  lemma LegacyStays(t: Task, e: Event)
    requires t.legacy && t.active.Some? && Step(t, e).0.active == t.active
    ensures Step(t, e).0.legacy
  {
  }

  lemma {:induction false} LegacyRemembered(r: Run, h: Handle, n: nat, m: nat)
    requires IsRun(r) && n <= m <= |r.events| && StaysActive(r, h, n, m) && r.tasks[n].legacy
    ensures r.tasks[m].legacy
    decreases m
  {
    if n < m {
      LegacyRemembered(r, h, n, m - 1);
      assert StepsAt(r, m - 1);
      LegacyStays(r.tasks[m - 1], r.events[m - 1]);
    }
  }

  ghost predicate RetriesAt(r: Run, n: nat)
    requires n < |r.events| < |r.tasks|
  {
    r.events[n].DeadlinePassed? && Retries(r.tasks[n])
  }

  /** While a device stays active it is asked the old way at most once. */
  lemma AtMostOneRetry(r: Run, h: Handle, n: nat, m: nat)
    requires IsRun(r) && n < m < |r.events| && StaysActive(r, h, n, m) && RetriesAt(r, n)
    ensures !RetriesAt(r, m)
  {
    assert StepsAt(r, n);
    LegacyRemembered(r, h, n + 1, m);
  }

  /** A deadline either asks once more or releases, so the second deadline of one entry releases. */
  lemma DeadlinesRelease(r: Run, n: nat, m: nat)
    requires IsRun(r) && n < m < |r.events| && r.events[n].DeadlinePassed? && r.events[m].DeadlinePassed?
    requires r.tasks[n].active.Some? && StaysActive(r, r.tasks[n].active.value, n, m)
    ensures r.tasks[m + 1].active.None?
  {
    assert StepsAt(r, n) && StepsAt(r, m);
    assert RetriesAt(r, n);
    AtMostOneRetry(r, r.tasks[n].active.value, n, m);
  }

  /** Every deadline that passes finds a device awaited, and never one that takes input. */
  lemma DeadlineFindsWaiting(r: Run, n: nat)
    requires IsRun(r) && n < |r.events| && r.events[n].DeadlinePassed?
    ensures r.tasks[n].phase == WaitingForAck && r.tasks[n].active.Some?
  {
    RunKeeps(r, n);
    assert StepsAt(r, n);
  }

  // ----- How a device is entered -----

  predicate IsEntry(m: Message) {
    m.Enter? || m.EnterAt? || m.EnterVia?
  }

  /** The entry goes to the device that is then active, unless that could not be reached, and says what the task remembers of it. */
  predicate EntersActive(t: Task, u: Task, s: Sent) {
    && (u.active == Some(s.to) || u.active.None?)
    && (s.message.EnterAt? && t.active == Some(s.to) ==> !t.legacy)
    && (s.message.EnterVia? ==> t.active == Some(s.to) && t.via == Some(s.message.via))
  }

  lemma TouchEnters(t: Task, h: Handle, met: bool, around: Surroundings, s: Sent)
    requires s in Touch(t, h, met, around).1 && IsEntry(s.message)
    ensures EntersActive(t, Touch(t, h, met, around).0, s)
  {
  }

  lemma DeliverEnters(t: Task, input: Input, around: Surroundings, s: Sent)
    requires s in Deliver(t, input, around).1 && IsEntry(s.message)
    ensures EntersActive(t, Deliver(t, input, around).0, s)
  {
  }

  lemma CaptureEnters(t: Task, h: Handle, e: CaptureEvent, around: Surroundings, s: Sent)
    requires s in OnCapture(t, h, e, around).1 && IsEntry(s.message)
    ensures EntersActive(t, OnCapture(t, h, e, around).0, s)
  {
    var bare := t.(pressure := None);
    assert t.pressure.None? ==> t == bare;
    if e.Begin? && s in Touch(bare, h, false, around).1 {
      TouchEnters(bare, h, false, around, s);
    } else if e.Captured? && s in Touch(bare, h, true, around).1 {
      TouchEnters(bare, h, true, around, s);
    }
    if e.Captured? && s in Deliver(t, e.input, around).1 {
      DeliverEnters(t, e.input, around, s);
    }
  }

  lemma EntersTheActive(t: Task, e: Event, s: Sent)
    requires s in Step(t, e).1 && IsEntry(s.message)
    ensures
      if e.Handoff? then
        && Step(t, e).0.active == Some(s.to) && e.target.Next? && e.target.handle == s.to
        && (s.message.EnterVia? ==> e.target.via == Some(s.message.via)) && (s.message.EnterAt? ==> !t.legacy)
      else
        EntersActive(t, Step(t, e).0, s)
  {
    if e.Capture? {
      CaptureEnters(t, e.handle, e.event, e.around, s);
    }
  }

  /** Every entry goes to the device that is active after it, or that could not be reached and was let go. */
  lemma EntryGoesToTheActive(r: Run, n: nat, s: Sent)
    requires IsRun(r) && n < |r.events| && s in r.sent[n] && IsEntry(s.message)
    ensures r.tasks[n + 1].active == Some(s.to) || r.tasks[n + 1].active.None?
  {
    assert StepsAt(r, n);
    EntersTheActive(r.tasks[n], r.events[n], s);
  }

  /** Once a device was entered the old way, it is not asked to be entered at a place again while it stays active. */
  lemma NotPositionedAgain(r: Run, h: Handle, n: nat, m: nat, s: Sent)
    requires IsRun(r) && n < m < |r.events| && RetriesAt(r, n) && StaysActive(r, h, n, m) && s in r.sent[m]
    ensures s.message.EnterAt? ==> s.to != h
  {
    assert StepsAt(r, n) && StepsAt(r, m);
    LegacyRemembered(r, h, n + 1, m);
    if IsEntry(s.message) {
      EntersTheActive(r.tasks[m], r.events[m], s);
    }
  }

  /** The device was handed the pointer at `k` by way of `via` and has been active since. */
  ghost predicate HandedAt(r: Run, k: nat, n: nat, h: Handle, via: string)
    requires n <= |r.events| < |r.tasks|
  {
    && k < n && r.events[k].Handoff? && r.events[k].target == Next(h, Some(via))
    && forall j :: k < j <= n ==> r.tasks[j].active == Some(h)
  }

  lemma ViaComesFromHandoff(t: Task, e: Event)
    requires Step(t, e).0.active.Some? && Step(t, e).0.via.Some?
    ensures
      var u := Step(t, e).0;
      (e.Handoff? && e.target == Next(u.active.value, u.via)) || (u.active == t.active && u.via == t.via)
  {
  }

  lemma {:induction false} ViaIsRemembered(r: Run, n: nat) returns (k: nat)
    requires IsRun(r) && n <= |r.events| && r.tasks[n].active.Some? && r.tasks[n].via.Some?
    ensures HandedAt(r, k, n, r.tasks[n].active.value, r.tasks[n].via.value)
    decreases n
  {
    assert StepsAt(r, n - 1);
    var t, e := r.tasks[n - 1], r.events[n - 1];
    ViaComesFromHandoff(t, e);
    if e.Handoff? && e.target == Next(r.tasks[n].active.value, r.tasks[n].via) {
      k := n - 1;
    } else {
      k := ViaIsRemembered(r, n - 1);
    }
  }

  /** An entry that names a device on the way is the hand-off through that device, made or repeated. */
  lemma EntryViaIsHandedOn(r: Run, n: nat, s: Sent) returns (k: nat)
    requires IsRun(r) && n < |r.events| && s in r.sent[n] && s.message.EnterVia?
    ensures k <= n && r.events[k].Handoff? && r.events[k].target == Next(s.to, Some(s.message.via))
    ensures forall j :: k < j <= n ==> r.tasks[j].active == Some(s.to)
  {
    assert StepsAt(r, n);
    EntersTheActive(r.tasks[n], r.events[n], s);
    if r.events[n].Handoff? {
      k := n;
    } else {
      k := ViaIsRemembered(r, n);
    }
  }
}
