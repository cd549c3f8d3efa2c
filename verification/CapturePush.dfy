/** The push that lets the pointer out of the screen, over whole runs of the capture task. */
module CapturePush {
  import opened Common
  import opened CapturePressure
  import opened CaptureEntry
  import opened CaptureRuns

  /** Throughout the run the threshold is the same, a mouse moves the pointer, time flows, and barriers keep their edge. */
  ghost predicate Steady(r: Run, needed: real, edges: Handle -> Position) {
    forall n :: 0 <= n < |r.events| && r.events[n].Capture? ==>
      var around := r.events[n].around;
      && around.needed == needed && !around.android && !around.touchpad
      && around.idle >= 0.0 && around.edge == edges(r.events[n].handle)
  }

  /** How far the event moves the pointer out through the barrier. */
  function OutwardOf(e: Event, h: Handle, edges: Handle -> Position): (x: real)
    ensures x >= 0.0
  {
    if e.Capture? && e.handle == h && e.event.Captured? && e.event.input.Motion?
    then Outward(edges(h), CapturePressure.Motion(e.event.input.dx, e.event.input.dy, 0.0))
    else 0.0
  }

  /** What the events from `k` up to `n` push out through the barrier. */
  function Pushed(r: Run, h: Handle, edges: Handle -> Position, k: nat, n: nat): real
    requires k <= n <= |r.events|
    decreases n
  {
    if k == n then 0.0 else Pushed(r, h, edges, k, n - 1) + OutwardOf(r.events[n - 1], h, edges)
  }

  /** The barrier was touched right before `k`, and what has built up since is at most what was pushed. */
  ghost predicate EarnedSince(r: Run, edges: Handle -> Position, k: nat, n: nat, p: Pressing) {
    && 1 <= k <= n <= |r.events|
    && r.events[k - 1].Capture? && r.events[k - 1].handle == p.handle && r.events[k - 1].event.Begin?
    && p.soFar <= Pushed(r, p.handle, edges, k, n)
  }

  lemma AdvanceIsEarned(soFar: real, idle: real, edge: Position, dx: Amount, dy: Amount, needed: real)
    requires idle >= 0.0 && needed > 0.0
    ensures
      var gained := soFar + Outward(edge, CapturePressure.Motion(dx, dy, 0.0));
      match AdvancePressure(soFar, idle, edge, dx, dy, needed)
      case Building(total) => total <= gained || total <= 0.0
      case Reached => gained >= needed
      case Backed => true
  {
    assert Leaked(soFar, idle, Push(edge, dx, dy)) <= soFar;
  }

  /** One step arms a push with a touch, carries one on, or ends it. */
  lemma PressureStep(t: Task, h: Handle, e: CaptureEvent, s: Surroundings)
    requires s.needed > 0.0 && s.idle >= 0.0 && OnCapture(t, h, e, s).0.pressure.Some?
    ensures
      var p := OnCapture(t, h, e, s).0.pressure.value;
      || t.pressure == Some(p)
      || (e.Begin? && p == Pressing(h, 0.0))
      || (e.Captured? && e.input.Motion? && t.pressure.Some? && t.pressure.value.handle == h == p.handle
          && AdvancePressure(t.pressure.value.soFar, s.idle, s.edge, e.input.dx, e.input.dy, s.needed) == Building(p.soFar))
  {
  }

  lemma PushedIsNotNegative(r: Run, h: Handle, edges: Handle -> Position, k: nat, n: nat)
    requires k <= n <= |r.events|
    ensures Pushed(r, h, edges, k, n) >= 0.0
    decreases n
  {
    if k < n {
      PushedIsNotNegative(r, h, edges, k, n - 1);
    }
  }

  lemma {:induction false} PressureIsEarned(r: Run, needed: real, edges: Handle -> Position, n: nat) returns (k: nat)
    requires IsRun(r) && needed > 0.0 && Steady(r, needed, edges) && n <= |r.events| && r.tasks[n].pressure.Some?
    ensures EarnedSince(r, edges, k, n, r.tasks[n].pressure.value)
    decreases n
  {
    assert StepsAt(r, n - 1);
    var t, e, p := r.tasks[n - 1], r.events[n - 1], r.tasks[n].pressure.value;
    if t.pressure == Some(p) {
      k := PressureIsEarned(r, needed, edges, n - 1);
    } else {
      assert e.Capture?;
      PressureStep(t, e.handle, e.event, e.around);
      if e.event.Begin? {
        k := n;
      } else {
        k := PressureIsEarned(r, needed, edges, n - 1);
        AdvanceIsEarned(t.pressure.value.soFar, e.around.idle, e.around.edge, e.event.input.dx, e.event.input.dy, needed);
        PushedIsNotNegative(r, p.handle, edges, k, n);
      }
    }
  }

  /** A device becomes active from an edge only by a push that reaches the threshold. */
  lemma EntryReaches(t: Task, h: Handle, e: CaptureEvent, s: Surroundings)
    requires s.needed > 0.0 && !s.android && !s.touchpad
    requires OnCapture(t, h, e, s).0.active.Some? && OnCapture(t, h, e, s).0.active != t.active
    ensures t.pressure.Some? && t.pressure.value.handle == h && e.Captured? && e.input.Motion?
    ensures AdvancePressure(t.pressure.value.soFar, s.idle, s.edge, e.input.dx, e.input.dy, s.needed) == Reached
  {
  }

  /**
   With a fixed positive threshold, a device is entered from an edge only after a touch of its barrier and
   motion since that pushes out through it by at least the threshold.
   */
  lemma EntryIsEarned(r: Run, needed: real, edges: Handle -> Position, n: nat) returns (k: nat)
    requires IsRun(r) && needed > 0.0 && Steady(r, needed, edges) && n < |r.events| && r.events[n].Capture?
    requires r.tasks[n + 1].active.Some? && r.tasks[n + 1].active != r.tasks[n].active
    ensures
      var h := r.tasks[n + 1].active.value;
      && h == r.events[n].handle && 1 <= k <= n
      && r.events[k - 1].Capture? && r.events[k - 1].handle == h && r.events[k - 1].event.Begin?
      && Pushed(r, h, edges, k, n + 1) >= needed
  {
    assert StepsAt(r, n);
    var t, e := r.tasks[n], r.events[n];
    NewlyEntered(t, e.handle, e.event, e.around);
    EntryReaches(t, e.handle, e.event, e.around);
    k := PressureIsEarned(r, needed, edges, n);
    AdvanceIsEarned(t.pressure.value.soFar, e.around.idle, e.around.edge, e.event.input.dx, e.event.input.dy, needed);
  }
}
