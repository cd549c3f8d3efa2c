/**
 Monitors of several devices on one plane, and the crossings between devices that follow from where
 the monitors touch. Plane coordinates are integers, places along an edge are real fractions of it.
 */
module Layout {
  import opened Common

  const TOLERANCE: int := 2

  datatype Monitor = Monitor(device: string, id: string, x: int, y: int, width: nat, height: nat)

  datatype Name = Name(device: string, id: string)

  datatype Span = Span(start: real, end: real)

  datatype Crossing = Crossing(from: Name, edge: Position, fromSpan: Span, to: Name, toSpan: Span)

  function NameOf(m: Monitor): Name {
    Name(m.device, m.id)
  }

  function RightOf(m: Monitor): int {
    m.x + m.width
  }

  function BottomOf(m: Monitor): int {
    m.y + m.height
  }

  function Opposite(edge: Position): Position {
    match edge
    case Left => Right
    case Right => Left
    case Top => Bottom
    case Bottom => Top
  }

  predicate Touches(a: int, b: int) {
    -TOLERANCE <= a - b <= TOLERANCE
  }

  predicate Sideways(edge: Position) {
    edge == Left || edge == Right
  }

  /** Where an edge begins on the plane, along itself. */
  function Origin(m: Monitor, edge: Position): int {
    if Sideways(edge) then m.y else m.x
  }

  function Length(m: Monitor, edge: Position): nat {
    if Sideways(edge) then m.height else m.width
  }

  function EdgeTowards(from: Monitor, to: Monitor): Option<Position> {
    if Touches(RightOf(from), to.x) then Some(Right)
    else if Touches(from.x, RightOf(to)) then Some(Left)
    else if Touches(BottomOf(from), to.y) then Some(Bottom)
    else if Touches(from.y, BottomOf(to)) then Some(Top)
    else None
  }

  function SharedStart(a: Monitor, b: Monitor, edge: Position): int {
    Max(Origin(a, edge), Origin(b, edge))
  }

  function SharedEnd(a: Monitor, b: Monitor, edge: Position): int {
    Min(Origin(a, edge) + Length(a, edge), Origin(b, edge) + Length(b, edge))
  }

  function Fraction(at: int, origin: int, length: nat): real
    requires length > 0
  {
    (at - origin) as real / length as real
  }

  function SpanOn(m: Monitor, edge: Position, start: int, end: int): Span
    requires Length(m, edge) > 0
  {
    Span(Fraction(start, Origin(m, edge), Length(m, edge)), Fraction(end, Origin(m, edge), Length(m, edge)))
  }

  function CrossingOf(from: Monitor, to: Monitor): Option<Crossing> {
    match EdgeTowards(from, to)
    case None => None
    case Some(edge) =>
      var start, end := SharedStart(from, to, edge), SharedEnd(from, to, edge);
      if end <= start then None
      else Some(Crossing(NameOf(from), edge, SpanOn(from, edge, start, end), NameOf(to), SpanOn(to, edge, start, end)))
  }

  /** Where on the entered edge a pointer leaving at `along` arrives. */
  function MapAcross(c: Crossing, along: real): Option<real> {
    var s, t := c.fromSpan, c.toSpan;
    if !(s.start <= along <= s.end) || s.end <= s.start then None
    else Some(t.start + (along - s.start) / (s.end - s.start) * (t.end - t.start))
  }

  // ----- Mapping -----

  lemma DivTimes(x: real, y: real)
    requires y != 0.0
    ensures x / y * y == x
  {
  }

  lemma DivMonotone(x: real, y: real, d: real)
    requires d > 0.0 && x < y
    ensures x / d < y / d
  {
  }

  lemma FractionOnPlane(at: int, origin: int, length: nat)
    requires length > 0
    ensures origin as real + Fraction(at, origin, length) * length as real == at as real
  {
    DivTimes((at - origin) as real, length as real);
  }

  lemma FractionIsShare(at: int, origin: int, length: nat)
    requires origin <= at <= origin + length && length > 0
    ensures 0.0 <= Fraction(at, origin, length) <= 1.0
  {
    ShareIsBetween((at - origin) as real, length as real);
  }

  /** A span of a monitor's edge, back on the plane. */
  lemma SpanOnPlane(m: Monitor, edge: Position, start: int, end: int)
    requires Origin(m, edge) <= start < end <= Origin(m, edge) + Length(m, edge)
    ensures
      var s := SpanOn(m, edge, start, end);
      && OnPlane(m, edge, s.start) == start as real && OnPlane(m, edge, s.end) == end as real
      && 0.0 <= s.start < s.end <= 1.0
  {
    var o, l := Origin(m, edge), Length(m, edge);
    FractionOnPlane(start, o, l);
    FractionOnPlane(end, o, l);
    FractionIsShare(start, o, l);
    FractionIsShare(end, o, l);
    assert Fraction(start, o, l) < Fraction(end, o, l) by {
      DivMonotone((start - o) as real, (end - o) as real, l as real);
    }
  }

  /** The plane coordinate of a place along an edge. */
  function OnPlane(m: Monitor, edge: Position, along: real): real {
    Origin(m, edge) as real + along * Length(m, edge) as real
  }

  lemma Distributes(t: real, a: real, b: real)
    ensures t * (b - a) == t * b - t * a
  {
  }

  /** A share of the way between two places, in plane coordinates. */
  lemma Linear(o: real, l: real, a: real, b: real, t: real)
    ensures o + (a + t * (b - a)) * l == (o + a * l) + t * ((o + b * l) - (o + a * l))
  {
    calc {
      (a + t * (b - a)) * l;
      a * l + t * (b - a) * l;
      a * l + t * ((b - a) * l);
      a * l + t * (b * l - a * l);
    }
  }

  /** Two spans that meet on the plane at both ends meet at every share in between. */
  lemma SpansMeet(o: real, l: real, p: real, k: real, s: Span, u: Span, t: real)
    requires o + s.start * l == p + u.start * k && o + s.end * l == p + u.end * k
    ensures o + (s.start + t * (s.end - s.start)) * l == p + (u.start + t * (u.end - u.start)) * k
  {
    Linear(o, l, s.start, s.end, t);
    Linear(p, k, u.start, u.end, t);
  }

  lemma ShareOf(part: real, whole: real) returns (t: real)
    requires 0.0 <= part <= whole && whole > 0.0
    ensures t == part / whole && t * whole == part && 0.0 <= t <= 1.0
  {
    t := part / whole;
    DivTimes(part, whole);
    ShareIsBetween(part, whole);
  }

  lemma MapIsShare(c: Crossing, along: real) returns (t: real)
    requires c.fromSpan.start < c.fromSpan.end && MapAcross(c, along).Some?
    ensures 0.0 <= t <= 1.0 && along == c.fromSpan.start + t * (c.fromSpan.end - c.fromSpan.start)
    ensures MapAcross(c, along).value == c.toSpan.start + t * (c.toSpan.end - c.toSpan.start)
  {
    t := ShareOf(along - c.fromSpan.start, c.fromSpan.end - c.fromSpan.start);
  }

  lemma MapMeetsPlane(c: Crossing, o: real, l: real, p: real, k: real, along: real)
    requires c.fromSpan.start < c.fromSpan.end && c.toSpan.start < c.toSpan.end && MapAcross(c, along).Some?
    requires o + c.fromSpan.start * l == p + c.toSpan.start * k && o + c.fromSpan.end * l == p + c.toSpan.end * k
    ensures p + MapAcross(c, along).value * k == o + along * l
    ensures c.toSpan.start <= MapAcross(c, along).value <= c.toSpan.end
  {
    var t := MapIsShare(c, along);
    SpansMeet(o, l, p, k, c.fromSpan, c.toSpan, t);
    BetweenEnds(c.toSpan.start, c.toSpan.end, t, MapAcross(c, along).value);
  }

  /** Both spans of a crossing, and where they lie. */
  lemma SpansOfCrossing(from: Monitor, to: Monitor)
    requires CrossingOf(from, to).Some?
    ensures
      var c := CrossingOf(from, to).value;
      && 0.0 <= c.fromSpan.start < c.fromSpan.end <= 1.0 && 0.0 <= c.toSpan.start < c.toSpan.end <= 1.0
      && OnPlane(from, c.edge, c.fromSpan.start) == OnPlane(to, c.edge, c.toSpan.start)
      && OnPlane(from, c.edge, c.fromSpan.end) == OnPlane(to, c.edge, c.toSpan.end)
  {
    var edge := CrossingOf(from, to).value.edge;
    var start, end := SharedStart(from, to, edge), SharedEnd(from, to, edge);
    SpanOnPlane(from, edge, start, end);
    SpanOnPlane(to, edge, start, end);
  }

  lemma MapOnPlane(c: Crossing, from: Monitor, to: Monitor, along: real)
    requires c.fromSpan.start < c.fromSpan.end && c.toSpan.start < c.toSpan.end && MapAcross(c, along).Some?
    requires OnPlane(from, c.edge, c.fromSpan.start) == OnPlane(to, c.edge, c.toSpan.start)
    requires OnPlane(from, c.edge, c.fromSpan.end) == OnPlane(to, c.edge, c.toSpan.end)
    ensures OnPlane(to, c.edge, MapAcross(c, along).value) == OnPlane(from, c.edge, along)
    ensures c.toSpan.start <= MapAcross(c, along).value <= c.toSpan.end
  {
    MapMeetsPlane(c, Origin(from, c.edge) as real, Length(from, c.edge) as real,
                  Origin(to, c.edge) as real, Length(to, c.edge) as real, along);
  }

  /** A pointer leaving at a height enters at the same height on the plane, wherever the two edges face each other. */
  lemma MappingKeepsThePlane(from: Monitor, to: Monitor, along: real)
    requires CrossingOf(from, to).Some?
    ensures
      var c := CrossingOf(from, to).value;
      && (MapAcross(c, along).Some? <==> c.fromSpan.start <= along <= c.fromSpan.end)
      && (MapAcross(c, along).Some? ==>
        && OnPlane(to, c.edge, MapAcross(c, along).value) == OnPlane(from, c.edge, along)
        && c.toSpan.start <= MapAcross(c, along).value <= c.toSpan.end)
  {
    var c := CrossingOf(from, to).value;
    SpansOfCrossing(from, to);
    if MapAcross(c, along).Some? {
      MapOnPlane(c, from, to, along);
    }
  }

  lemma ShareIsBetween(part: real, whole: real)
    requires 0.0 <= part <= whole && whole > 0.0
    ensures 0.0 <= part / whole <= 1.0
  {
  }

  lemma ProductIsPositive(x: real, y: real)
    requires x >= 0.0 && y >= 0.0
    ensures x * y >= 0.0
  {
  }

  lemma BetweenEnds(a: real, b: real, t: real, at: real)
    requires a < b && 0.0 <= t <= 1.0 && at == a + t * (b - a)
    ensures a <= at <= b
  {
    ProductIsPositive(t, b - a);
    ProductIsPositive(1.0 - t, b - a);
    Distributes(b - a, t, 1.0);
  }

  lemma ShareOfScaled(t: real, whole: real)
    requires whole != 0.0
    ensures t * whole / whole == t
  {
  }

  lemma ShareRecovered(a: real, b: real, t: real, at: real)
    requires a < b && at == a + t * (b - a)
    ensures (at - a) / (b - a) == t
  {
    ShareOfScaled(t, b - a);
  }

  lemma MapByShare(c: Crossing, along: real, t: real)
    requires c.fromSpan.start < c.fromSpan.end && c.fromSpan.start <= along <= c.fromSpan.end
    requires (along - c.fromSpan.start) / (c.fromSpan.end - c.fromSpan.start) == t
    ensures MapAcross(c, along).Some? && MapAcross(c, along).value == c.toSpan.start + t * (c.toSpan.end - c.toSpan.start)
  {
  }

  /** A crossing with the spans swapped undoes the mapping. */
  lemma SwappedSpansUndo(c: Crossing, d: Crossing, along: real)
    requires d.fromSpan == c.toSpan && d.toSpan == c.fromSpan
    requires c.fromSpan.start < c.fromSpan.end && c.toSpan.start < c.toSpan.end && MapAcross(c, along).Some?
    ensures var back := MapAcross(d, MapAcross(c, along).value); back.Some? && back.value == along
  {
    var t := MapIsShare(c, along);
    var there := MapAcross(c, along).value;
    BetweenEnds(c.toSpan.start, c.toSpan.end, t, there);
    ShareRecovered(c.toSpan.start, c.toSpan.end, t, there);
    MapByShare(d, there, t);
  }

  // ----- Opposite pairs -----

  /** The same crossing in the other direction. */
  function Reverse(c: Crossing): Crossing {
    Crossing(c.to, Opposite(c.edge), c.toSpan, c.from, c.fromSpan)
  }

  /** Both sides of one kind touch, so that the direction of a crossing is not determined. */
  predicate Ambiguous(a: Monitor, b: Monitor) {
    || (Touches(RightOf(a), b.x) && Touches(a.x, RightOf(b)))
    || (!Touches(RightOf(a), b.x) && !Touches(a.x, RightOf(b)) && Touches(BottomOf(a), b.y) && Touches(a.y, BottomOf(b)))
  }

  lemma EdgesAreOpposite(a: Monitor, b: Monitor)
    ensures EdgeTowards(a, b).None? <==> EdgeTowards(b, a).None?
    ensures EdgeTowards(a, b).Some? ==> Sideways(EdgeTowards(a, b).value) == Sideways(EdgeTowards(b, a).value)
    ensures EdgeTowards(a, b).Some? ==> (EdgeTowards(b, a).value == Opposite(EdgeTowards(a, b).value) <==> !Ambiguous(a, b))
  {
  }

  /** Crossings come in opposite pairs with swapped spans, except exactly where the direction is ambiguous. */
  lemma CrossingsComeInPairs(a: Monitor, b: Monitor)
    ensures CrossingOf(a, b).Some? <==> CrossingOf(b, a).Some?
    ensures CrossingOf(a, b).Some? ==> (CrossingOf(b, a) == Some(Reverse(CrossingOf(a, b).value)) <==> !Ambiguous(a, b))
  {
    EdgesAreOpposite(a, b);
  }

  /** Where the given side of the monitor lies on the plane, across that side. */
  function SideAt(m: Monitor, edge: Position): int {
    match edge
    case Left => m.x
    case Right => m.x + m.width
    case Top => m.y
    case Bottom => m.y + m.height
  }

  /** That side of `a` and the opposite side of `b` lie within the tolerance of each other. */
  predicate SidesMeet(a: Monitor, b: Monitor, edge: Position) {
    -TOLERANCE <= SideAt(a, edge) - SideAt(b, Opposite(edge)) <= TOLERANCE
  }

  /** That side meets and the opposite one does not. */
  predicate OnlyMeets(a: Monitor, b: Monitor, edge: Position) {
    SidesMeet(a, b, edge) && !SidesMeet(a, b, Opposite(edge))
  }

  predicate SideBySide(a: Monitor, b: Monitor) {
    SidesMeet(a, b, Left) || SidesMeet(a, b, Right)
  }

  /**
   A crossing is where sides meet, and there is none exactly if no side meets. Left and right go before
   top and bottom; of two opposite sides that both meet, the direction is ambiguous.
   */
  lemma EdgeIsWhereSidesMeet(a: Monitor, b: Monitor)
    ensures EdgeTowards(a, b).Some? ==> SidesMeet(a, b, EdgeTowards(a, b).value)
    ensures EdgeTowards(a, b).None? <==> forall edge :: !SidesMeet(a, b, edge)
    ensures forall edge :: Sideways(edge) && OnlyMeets(a, b, edge) ==> EdgeTowards(a, b) == Some(edge)
    ensures SideBySide(a, b) || forall edge :: !Sideways(edge) && OnlyMeets(a, b, edge) ==> EdgeTowards(a, b) == Some(edge)
  {
    assert SidesMeet(a, b, Right) <==> Touches(RightOf(a), b.x);
    assert SidesMeet(a, b, Left) <==> Touches(a.x, RightOf(b));
    assert SidesMeet(a, b, Bottom) <==> Touches(BottomOf(a), b.y);
    assert SidesMeet(a, b, Top) <==> Touches(a.y, BottomOf(b));
  }

  /** Only monitors of next to no size can be ambiguous. */
  lemma AmbiguousAreTiny(a: Monitor, b: Monitor)
    requires Ambiguous(a, b)
    ensures a.width + b.width <= 2 * TOLERANCE || a.height + b.height <= 2 * TOLERANCE
  {
  }

  /** Going across and back is the identity. */
  lemma AcrossAndBack(a: Monitor, b: Monitor, along: real)
    requires CrossingOf(a, b).Some? && MapAcross(CrossingOf(a, b).value, along).Some?
    ensures CrossingOf(b, a).Some?
    ensures
      var back := MapAcross(CrossingOf(b, a).value, MapAcross(CrossingOf(a, b).value, along).value);
      back.Some? && back.value == along
  {
    EdgesAreOpposite(a, b);
    SpansOfCrossing(a, b);
    SwappedSpansUndo(CrossingOf(a, b).value, CrossingOf(b, a).value, along);
  }

  /** Two monitors of two by two pixels in the same place lead to each other through the same side. */
  lemma TinyMonitorsAreNotPaired()
    ensures
      var a, b := Monitor("a", "0", 0, 0, 2, 2), Monitor("b", "0", 0, 0, 2, 2);
      CrossingOf(a, b).Some? && CrossingOf(b, a).Some? && CrossingOf(a, b).value.edge == CrossingOf(b, a).value.edge == Right
  {
  }

  // ----- All crossings -----

  /** The crossing leads from one of the monitors to another, of a different device. */
  ghost predicate Leads(monitors: seq<Monitor>, c: Crossing) {
    exists i, j :: 0 <= i < |monitors| && 0 <= j < |monitors| && LeadsBetween(monitors[i], monitors[j], c)
  }

  predicate LeadsBetween(a: Monitor, b: Monitor, c: Crossing) {
    a.device != b.device && CrossingOf(a, b) == Some(c)
  }

  /** The crossings between two monitors, in both directions. */
  method CrossingsBetween(a: Monitor, b: Monitor) returns (found: seq<Crossing>)
    ensures forall c :: c in found <==> LeadsEither(a, b, c)
  {
    found := [];
    if a.device != b.device {
      var there, back := CrossingOf(a, b), CrossingOf(b, a);
      found := (if there.Some? then [there.value] else []) + if back.Some? then [back.value] else [];
    }
  }

  /** The crossings between one monitor and those after it. */
  method CrossingsFrom(monitors: seq<Monitor>, i: nat) returns (found: seq<Crossing>)
    requires i < |monitors|
    ensures forall c :: c in found <==> exists j :: i < j < |monitors| && LeadsEither(monitors[i], monitors[j], c)
  {
    found := [];
    var j := i + 1;
    while j < |monitors|
      invariant i < j <= |monitors|
      invariant forall c :: c in found <==> exists q :: i < q < j && LeadsEither(monitors[i], monitors[q], c)
    {
      var more := CrossingsBetween(monitors[i], monitors[j]);
      found := found + more;
      assert forall c :: c in found <==> (exists q :: i < q < j && LeadsEither(monitors[i], monitors[q], c)) || LeadsEither(monitors[i], monitors[j], c);
      j := j + 1;
    }
  }

  method Crossings(monitors: seq<Monitor>) returns (found: seq<Crossing>)
    ensures forall c :: c in found <==> Leads(monitors, c)
  {
    found := [];
    var i := 0;
    while i < |monitors|
      invariant 0 <= i <= |monitors|
      invariant forall c :: c in found <==> exists p, q :: 0 <= p < q < |monitors| && p < i && LeadsEither(monitors[p], monitors[q], c)
    {
      var more := CrossingsFrom(monitors, i);
      found := found + more;
      i := i + 1;
    }
    forall c
      ensures Leads(monitors, c) <==> exists p, q :: 0 <= p < q < |monitors| && LeadsEither(monitors[p], monitors[q], c)
    {
      LeadsOneWay(monitors, c);
    }
  }

  /** Looking at each pair once, in both directions, misses nothing. */
  lemma LeadsOneWay(monitors: seq<Monitor>, c: Crossing)
    ensures Leads(monitors, c) <==> exists p, q :: 0 <= p < q < |monitors| && LeadsEither(monitors[p], monitors[q], c)
  {
    if Leads(monitors, c) {
      var p, q :| 0 <= p < |monitors| && 0 <= q < |monitors| && LeadsBetween(monitors[p], monitors[q], c);
      assert p < q ==> LeadsEither(monitors[p], monitors[q], c);
      assert q < p ==> LeadsEither(monitors[q], monitors[p], c);
    }
    if p, q :| 0 <= p < q < |monitors| && LeadsEither(monitors[p], monitors[q], c) {
      assert LeadsBetween(monitors[p], monitors[q], c) || LeadsBetween(monitors[q], monitors[p], c);
    }
  }

  predicate LeadsEither(a: Monitor, b: Monitor, c: Crossing) {
    LeadsBetween(a, b, c) || LeadsBetween(b, a, c)
  }

  /** No two monitors of different devices are tiny in the same direction. */
  ghost predicate Sizable(monitors: seq<Monitor>) {
    forall i, j :: 0 <= i < |monitors| && 0 <= j < |monitors| && monitors[i].device != monitors[j].device ==>
      monitors[i].width + monitors[j].width > 2 * TOLERANCE && monitors[i].height + monitors[j].height > 2 * TOLERANCE
  }

  /** Among monitors of real size, every crossing can be undone. */
  lemma EveryCrossingHasAWayBack(monitors: seq<Monitor>, c: Crossing)
    requires Leads(monitors, c)
    requires Sizable(monitors)
    ensures Leads(monitors, Reverse(c))
  {
    var i, j :| 0 <= i < |monitors| && 0 <= j < |monitors| && LeadsBetween(monitors[i], monitors[j], c);
    CrossingsComeInPairs(monitors[i], monitors[j]);
    assert !Ambiguous(monitors[i], monitors[j]);
    assert LeadsBetween(monitors[j], monitors[i], Reverse(c));
  }

  // ----- Validation -----

  datatype LayoutError = Empty(monitor: Name) | Overlap(one: Name, other: Name) | Detached(device: string)

  predicate HasArea(m: Monitor) {
    m.width > 0 && m.height > 0
  }

  /** They share more than a sliver in both directions. */
  predicate Overlapping(a: Monitor, b: Monitor) {
    && Min(RightOf(a), RightOf(b)) - Max(a.x, b.x) > TOLERANCE
    && Min(BottomOf(a), BottomOf(b)) - Max(a.y, b.y) > TOLERANCE
  }

  ghost predicate Linked(monitors: seq<Monitor>, device: string) {
    exists c :: Leads(monitors, c) && c.from.device == device
  }

  function Devices(monitors: seq<Monitor>): set<string> {
    set m | m in monitors :: m.device
  }

  ghost predicate LayoutOk(monitors: seq<Monitor>) {
    && (forall i :: 0 <= i < |monitors| ==> HasArea(monitors[i]))
    && (forall i, j :: 0 <= i < j < |monitors| ==> !Overlapping(monitors[i], monitors[j]))
    && (|Devices(monitors)| > 1 ==> forall d :: d in Devices(monitors) ==> Linked(monitors, d))
  }

  /** The complaint is true of the layout. */
  ghost predicate Justified(monitors: seq<Monitor>, e: LayoutError) {
    match e
    case Empty(name) => exists m :: m in monitors && !HasArea(m) && NameOf(m) == name
    case Overlap(one, other) =>
      exists i, j :: 0 <= i < j < |monitors| && Overlapping(monitors[i], monitors[j]) && NameOf(monitors[i]) == one && NameOf(monitors[j]) == other
    case Detached(device) => |Devices(monitors)| > 1 && device in Devices(monitors) && !Linked(monitors, device)
  }

  method CheckAreas(monitors: seq<Monitor>) returns (error: Option<LayoutError>)
    ensures error.None? <==> forall i :: 0 <= i < |monitors| ==> HasArea(monitors[i])
    ensures error.Some? ==> Justified(monitors, error.value)
  {
    for i := 0 to |monitors|
      invariant forall k :: 0 <= k < i ==> HasArea(monitors[k])
    {
      if monitors[i].width == 0 || monitors[i].height == 0 {
        assert monitors[i] in monitors && !HasArea(monitors[i]);
        return Some(Empty(NameOf(monitors[i])));
      }
    }
    return None;
  }

  method CheckOverlaps(monitors: seq<Monitor>) returns (error: Option<LayoutError>)
    ensures error.None? <==> forall i, j :: 0 <= i < j < |monitors| ==> !Overlapping(monitors[i], monitors[j])
    ensures error.Some? ==> Justified(monitors, error.value)
  {
    for i := 0 to |monitors|
      invariant forall p, q :: 0 <= p < i && p < q < |monitors| ==> !Overlapping(monitors[p], monitors[q])
    {
      for j := i + 1 to |monitors|
        invariant forall q :: i < q < j ==> !Overlapping(monitors[i], monitors[q])
      {
        var a, b := monitors[i], monitors[j];
        var overlapX := Min(RightOf(a), RightOf(b)) - Max(a.x, b.x);
        var overlapY := Min(BottomOf(a), BottomOf(b)) - Max(a.y, b.y);
        if overlapX > TOLERANCE && overlapY > TOLERANCE {
          assert Overlapping(monitors[i], monitors[j]);
          return Some(Overlap(NameOf(a), NameOf(b)));
        }
      }
    }
    return None;
  }

  method CheckLinks(monitors: seq<Monitor>) returns (error: Option<LayoutError>)
    ensures error.None? <==> (|Devices(monitors)| > 1 ==> forall d :: d in Devices(monitors) ==> Linked(monitors, d))
    ensures error.Some? ==> Justified(monitors, error.value)
  {
    var devices := Devices(monitors);
    if |devices| <= 1 {
      return None;
    }
    var linked := Crossings(monitors);
    var sources := set c | c in linked :: c.from.device;
    var todo := devices;
    while todo != {}
      invariant todo <= devices && forall d :: d in devices && d !in todo ==> Linked(monitors, d)
      decreases todo
    {
      var d :| d in todo;
      if d !in sources {
        assert !Linked(monitors, d);
        return Some(Detached(d));
      }
      var c :| c in linked && c.from.device == d;
      assert Leads(monitors, c);
      todo := todo - {d};
    }
    return None;
  }

  /** Accepts exactly the usable layouts, and says something true of the others. */
  method Validate(monitors: seq<Monitor>) returns (error: Option<LayoutError>)
    ensures error.None? <==> LayoutOk(monitors)
    ensures error.Some? ==> Justified(monitors, error.value)
  {
    error := CheckAreas(monitors);
    if error.None? {
      error := CheckOverlaps(monitors);
    }
    if error.None? {
      error := CheckLinks(monitors);
    }
  }

  /** In a valid layout of several devices, the pointer can reach every device as well as leave it. */
  lemma EveryDeviceIsReachable(monitors: seq<Monitor>, device: string)
    requires LayoutOk(monitors) && |Devices(monitors)| > 1 && device in Devices(monitors)
    ensures exists c :: Leads(monitors, c) && c.to.device == device
  {
    var c :| Leads(monitors, c) && c.from.device == device;
    var i, j :| 0 <= i < |monitors| && 0 <= j < |monitors| && LeadsBetween(monitors[i], monitors[j], c);
    CrossingsComeInPairs(monitors[i], monitors[j]);
    var back := CrossingOf(monitors[j], monitors[i]).value;
    assert LeadsBetween(monitors[j], monitors[i], back);
    assert Leads(monitors, back) && back.to.device == device;
  }

  // ----- Snapping -----

  function Distance(a: int, b: int): nat {
    if a >= b then a - b else b - a
  }

  /** Places for a monitor of this size beside or in line with an edge pair. */
  function Candidates(low: int, high: int, size: nat): seq<int> {
    [high, low - size, low, high - size]
  }

  datatype Best = Best(at: int, distance: nat)

  function Consider(best: Option<Best>, wanted: int, candidate: int, threshold: int): Option<Best> {
    var distance := Distance(candidate, wanted);
    if distance <= threshold && (best.None? || distance < best.value.distance) then Some(Best(candidate, distance)) else best
  }

  /** The nearest candidate within the threshold, if there is one. */
  ghost predicate IsBest(best: Option<Best>, wanted: int, candidates: set<int>, threshold: int) {
    && (best.Some? ==>
      && best.value.at in candidates && best.value.distance == Distance(best.value.at, wanted) <= threshold
      && forall c :: c in candidates ==> best.value.distance <= Distance(c, wanted))
    && (best.None? ==> forall c :: c in candidates ==> Distance(c, wanted) > threshold)
  }

  method ConsiderAll(best: Option<Best>, wanted: int, candidates: seq<int>, threshold: int, ghost before: set<int>) returns (r: Option<Best>)
    requires IsBest(best, wanted, before, threshold)
    ensures IsBest(r, wanted, before + (set c | c in candidates), threshold)
  {
    r := best;
    var i := 0;
    while i < |candidates|
      invariant 0 <= i <= |candidates|
      invariant IsBest(r, wanted, before + (set c | c in candidates[..i]), threshold)
    {
      r := Consider(r, wanted, candidates[i], threshold);
      assert candidates[..i + 1] == candidates[..i] + [candidates[i]];
      i := i + 1;
    }
    assert candidates[..i] == candidates;
  }

  ghost function CandidatesX(moving: Monitor, others: seq<Monitor>): set<int> {
    set m, c | m in others && m.device != moving.device && c in Candidates(m.x, RightOf(m), moving.width) :: c
  }

  ghost function CandidatesY(moving: Monitor, others: seq<Monitor>): set<int> {
    set m, c | m in others && m.device != moving.device && c in Candidates(m.y, BottomOf(m), moving.height) :: c
  }

  /** On one axis: the nearest place within the threshold that lines up, or the wanted place when none is near. */
  ghost predicate Snapped(r: int, wanted: int, candidates: set<int>, threshold: int) {
    if exists c :: c in candidates && Distance(c, wanted) <= threshold then
      r in candidates && Distance(r, wanted) <= threshold && forall c :: c in candidates ==> Distance(r, wanted) <= Distance(c, wanted)
    else
      r == wanted
  }

  method Snap(moving: Monitor, x: int, y: int, others: seq<Monitor>, threshold: int) returns (snappedX: int, snappedY: int)
    ensures Snapped(snappedX, x, CandidatesX(moving, others), threshold)
    ensures Snapped(snappedY, y, CandidatesY(moving, others), threshold)
  {
    var bestX: Option<Best>, bestY: Option<Best> := None, None;
    var i := 0;
    while i < |others|
      invariant 0 <= i <= |others|
      invariant IsBest(bestX, x, CandidatesX(moving, others[..i]), threshold)
      invariant IsBest(bestY, y, CandidatesY(moving, others[..i]), threshold)
    {
      var other := others[i];
      CandidatesGrow(moving, others, i);
      if other.device != moving.device {
        bestX := ConsiderAll(bestX, x, Candidates(other.x, RightOf(other), moving.width), threshold, CandidatesX(moving, others[..i]));
        bestY := ConsiderAll(bestY, y, Candidates(other.y, BottomOf(other), moving.height), threshold, CandidatesY(moving, others[..i]));
      }
      i := i + 1;
    }
    assert others[..i] == others;
    snappedX := if bestX.Some? then bestX.value.at else x;
    snappedY := if bestY.Some? then bestY.value.at else y;
  }

  lemma CandidatesGrow(moving: Monitor, others: seq<Monitor>, i: nat)
    requires i < |others|
    ensures
      var other := others[i];
      if other.device == moving.device then
        && CandidatesX(moving, others[..i + 1]) == CandidatesX(moving, others[..i])
        && CandidatesY(moving, others[..i + 1]) == CandidatesY(moving, others[..i])
      else
        && CandidatesX(moving, others[..i + 1])
           == CandidatesX(moving, others[..i]) + (set c | c in Candidates(other.x, RightOf(other), moving.width))
        && CandidatesY(moving, others[..i + 1])
           == CandidatesY(moving, others[..i]) + (set c | c in Candidates(other.y, BottomOf(other), moving.height))
  {
    assert others[..i + 1] == others[..i] + [others[i]];
  }
}
