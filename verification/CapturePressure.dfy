/** The push against the edge of a screen that it takes before the pointer passes on. */
module CapturePressure {
  import opened Common

  const BACK_SLACK: real := 40.0
  const LEAK_PER_SECOND: real := 100.0

  /** A floating-point amount of motion. */
  datatype Amount = Finite(value: real) | PlusInfinity | MinusInfinity | NotANumber

  datatype Pressure = Building(total: real) | Reached | Backed

  function Negated(a: Amount): Amount {
    match a
    case Finite(x) => Finite(-x)
    case PlusInfinity => MinusInfinity
    case MinusInfinity => PlusInfinity
    case NotANumber => NotANumber
  }

  predicate NotPositive(a: Amount) {
    a.MinusInfinity? || (a.Finite? && a.value <= 0.0)
  }

  function Push(edge: Position, dx: Amount, dy: Amount): Amount {
    match edge
    case Left => Negated(dx)
    case Right => dx
    case Top => Negated(dy)
    case Bottom => dy
  }

  // The screen has its origin at the top left; y grows downwards.

  /** The point lies on the given side of a screen of this size. */
  predicate OnSide(edge: Position, width: real, height: real, x: real, y: real) {
    && 0.0 <= x <= width && 0.0 <= y <= height
    && match edge
       case Left => x == 0.0
       case Right => x == width
       case Top => y == 0.0
       case Bottom => y == height
  }

  /** How far beyond the given side of the screen the point lies; negative inside. */
  function Beyond(edge: Position, width: real, height: real, x: real, y: real): real {
    match edge
    case Left => 0.0 - x
    case Right => x - width
    case Top => 0.0 - y
    case Bottom => y - height
  }

  /** A push is how far the motion takes a pointer at that side of any screen beyond it. */
  lemma PushLeavesTheScreen(edge: Position, width: real, height: real, x: real, y: real, dx: real, dy: real)
    requires OnSide(edge, width, height, x, y)
    ensures Push(edge, Finite(dx), Finite(dy)) == Finite(Beyond(edge, width, height, x + dx, y + dy))
  {
  }

  /** The same for a screen that is a point: the motion's component outward. */
  function OutBy(edge: Position, dx: real, dy: real): real {
    Beyond(edge, 0.0, 0.0, dx, dy)
  }

  lemma PushIsOutward(edge: Position, dx: real, dy: real)
    ensures Push(edge, Finite(dx), Finite(dy)) == Finite(OutBy(edge, dx, dy))
  {
    PushLeavesTheScreen(edge, 0.0, 0.0, 0.0, 0.0, dx, dy);
  }

  function AtLeast(x: real, floor: real): real {
    if x >= floor then x else floor
  }

  /** What is left of a push after `idle` seconds; only a push that is not kept up leaks. */
  function Leaked(soFar: real, idle: real, push: Amount): real {
    if soFar > 0.0 && NotPositive(push) then AtLeast(soFar - LEAK_PER_SECOND * idle, 0.0) else soFar
  }

  function AdvancePressure(soFar: real, idle: real, edge: Position, dx: Amount, dy: Amount, needed: real): Pressure {
    var push := Push(edge, dx, dy);
    var left := Leaked(soFar, idle, push);
    if !push.Finite? then Building(left)
    else
      var total := AtLeast(left + push.value, -BACK_SLACK);
      if total >= needed then Reached
      else if total <= -BACK_SLACK then Backed
      else Building(total)
  }

  // ----- Whole pushes -----

  datatype Motion = Motion(dx: Amount, dy: Amount, idle: real)

  /** How far one motion goes out of the screen. */
  function Outward(edge: Position, m: Motion): real {
    var push := Push(edge, m.dx, m.dy);
    if push.Finite? && push.value > 0.0 then push.value else 0.0
  }

  function OutwardSum(edge: Position, motions: seq<Motion>): real {
    if motions == [] then 0.0
    else OutwardSum(edge, motions[..|motions| - 1]) + Outward(edge, motions[|motions| - 1])
  }

  /** Where a push stands after the motions; one that ended stays ended. */
  function After(edge: Position, motions: seq<Motion>, needed: real): Pressure {
    if motions == [] then Building(0.0)
    else
      var before, m := After(edge, motions[..|motions| - 1], needed), motions[|motions| - 1];
      if before.Building? then AdvancePressure(before.total, m.idle, edge, m.dx, m.dy, needed) else before
  }

  ghost predicate TimeFlows(motions: seq<Motion>) {
    forall m :: m in motions ==> m.idle >= 0.0
  }

  lemma {:induction false} OutwardIsNotNegative(edge: Position, motions: seq<Motion>)
    ensures OutwardSum(edge, motions) >= 0.0
    decreases |motions|
  {
    if motions != [] {
      OutwardIsNotNegative(edge, motions[..|motions| - 1]);
    }
  }

  /** Standing still never helps: what has built up is at most what was pushed, and a push passes on only when that is enough. */
  lemma {:induction false} ReachedIsEarned(edge: Position, motions: seq<Motion>, needed: real)
    requires needed > 0.0 && TimeFlows(motions)
    ensures
      var p := After(edge, motions, needed);
      && (p.Building? ==> -BACK_SLACK < p.total < needed && p.total <= OutwardSum(edge, motions))
      && (p.Reached? ==> OutwardSum(edge, motions) >= needed)
    decreases |motions|
  {
    if motions != [] {
      var before, m := motions[..|motions| - 1], motions[|motions| - 1];
      assert m in motions;
      ReachedIsEarned(edge, before, needed);
      OutwardIsNotNegative(edge, before);
      var p := After(edge, before, needed);
      if p.Building? {
        assert Leaked(p.total, m.idle, Push(edge, m.dx, m.dy)) <= p.total;
      }
    }
  }

  /** All the motion is outward. */
  predicate AllOutward(edge: Position, motions: seq<Motion>) {
    forall m :: m in motions ==> var push := Push(edge, m.dx, m.dy); push.Finite? && push.value > 0.0
  }

  /** Without backing off, a push passes on exactly when it sums up to enough, however slowly it is made. */
  lemma {:induction false} SteadyPushIsExact(edge: Position, motions: seq<Motion>, needed: real)
    requires needed > 0.0 && TimeFlows(motions) && AllOutward(edge, motions)
    ensures
      After(edge, motions, needed) ==
        if OutwardSum(edge, motions) >= needed then Reached else Building(OutwardSum(edge, motions))
    decreases |motions|
  {
    if motions != [] {
      var before, m := motions[..|motions| - 1], motions[|motions| - 1];
      assert m in motions;
      SteadyPushIsExact(edge, before, needed);
      OutwardIsNotNegative(edge, before);
    }
  }

  // ----- Giving up a push -----

  /** What the motions add up to, outward. */
  function NetPush(edge: Position, motions: seq<Motion>): real
    requires forall m :: m in motions ==> m.dx.Finite? && m.dy.Finite?
  {
    if motions == [] then 0.0
    else
      var m := motions[|motions| - 1];
      NetPush(edge, motions[..|motions| - 1]) + OutBy(edge, m.dx.value, m.dy.value)
  }

  /** A push given up inward from the start ends exactly when it has gone back by the slack. */
  lemma {:induction false} RetreatEnds(edge: Position, motions: seq<Motion>, needed: real)
    requires needed > 0.0 && forall m :: m in motions ==> m.dx.Finite? && m.dy.Finite? && OutBy(edge, m.dx.value, m.dy.value) <= 0.0
    ensures NetPush(edge, motions) <= 0.0
    ensures After(edge, motions, needed) == if NetPush(edge, motions) <= -BACK_SLACK then Backed else Building(NetPush(edge, motions))
    decreases |motions|
  {
    if motions != [] {
      var before, m := motions[..|motions| - 1], motions[|motions| - 1];
      assert m in motions && forall x :: x in before ==> x in motions;
      RetreatEnds(edge, before, needed);
      PushIsOutward(edge, m.dx.value, m.dy.value);
    }
  }

  /** A push that is not kept up loses what it had built up at the leaking rate, down to nothing. */
  lemma RestForgets(soFar: real, idle: real, edge: Position, dx: real, dy: real, needed: real)
    requires needed > 0.0 && soFar >= 0.0 && idle >= 0.0 && OutBy(edge, dx, dy) <= 0.0
    ensures
      var left := if soFar > LEAK_PER_SECOND * idle then soFar - LEAK_PER_SECOND * idle else 0.0;
      var total := left + OutBy(edge, dx, dy);
      AdvancePressure(soFar, idle, edge, Finite(dx), Finite(dy), needed) ==
        if total >= needed then Reached else if total <= -BACK_SLACK then Backed else Building(total)
  {
    PushIsOutward(edge, dx, dy);
  }

  /** The part of the motion that counts at this side. */
  function AcrossSide(edge: Position, dx: Amount, dy: Amount): Amount {
    if edge == Left || edge == Right then dx else dy
  }

  /** Motion that is no number neither builds a push up nor ends it. */
  lemma NoNumberNoPush(soFar: real, idle: real, edge: Position, dx: Amount, dy: Amount, needed: real)
    requires !AcrossSide(edge, dx, dy).Finite? && idle >= 0.0
    ensures
      var after := AdvancePressure(soFar, idle, edge, dx, dy, needed);
      && after.Building? && after.total <= soFar
      && (AcrossSide(edge, dx, dy).NotANumber? || soFar <= 0.0 ==> after.total == soFar)
  {
  }
}
