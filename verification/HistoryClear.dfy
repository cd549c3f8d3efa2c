/**
 Clearing the shared history everywhere: boundaries (the last event of each origin that the clear
 covers), their merging, and the coordinator that collects a boundary and then an acknowledgement from
 every peer.
 */
module HistoryClear {
  import opened Common

  type Peer = nat

  /** For each origin, the sequence number up to which its events are cleared. */
  type Boundary = map<string, nat>

  // ----- Merging boundaries -----

  function Bump(b: Boundary, origin: string, sequence: nat): Boundary {
    b[origin := if origin in b then Max(b[origin], sequence) else sequence]
  }

  /** Pointwise maximum. */
  function Merge(a: Boundary, b: Boundary): Boundary {
    map o | o in a.Keys + b.Keys :: if o !in b then a[o] else if o !in a then b[o] else Max(a[o], b[o])
  }

  lemma MergeCommutes(a: Boundary, b: Boundary)
    ensures Merge(a, b) == Merge(b, a)
  {
  }

  lemma MergeAssociates(a: Boundary, b: Boundary, c: Boundary)
    ensures Merge(Merge(a, b), c) == Merge(a, Merge(b, c))
  {
  }

  method UnionBoundary(target: Boundary, source: Boundary) returns (result: Boundary)
    ensures result == Merge(target, source)
  {
    result := target;
    var todo := source.Keys;
    while todo != {}
      invariant todo <= source.Keys
      invariant forall o :: o in result <==> o in target || (o in source && o !in todo)
      invariant forall o :: o in result && (o !in source || o in todo) ==> result[o] == target[o]
      invariant forall o :: o in source && o !in todo ==> result[o] == Merge(target, source)[o]
      decreases todo
    {
      var o :| o in todo;
      result := Bump(result, o, source[o]);
      todo := todo - {o};
    }
  }

  // ----- On the wire -----

  /** What a list of entries means: the greatest sequence given for each origin. */
  function FromEntries(entries: seq<(string, nat)>): Boundary {
    if entries == [] then map[]
    else
      var last := entries[|entries| - 1];
      Bump(FromEntries(entries[..|entries| - 1]), last.0, last.1)
  }

  method BoundaryFromWire(entries: seq<(string, nat)>) returns (b: Boundary)
    ensures b == FromEntries(entries)
  {
    b := map[];
    var i := 0;
    while i < |entries|
      invariant 0 <= i <= |entries| && b == FromEntries(entries[..i])
    {
      b := Bump(b, entries[i].0, entries[i].1);
      assert entries[..i + 1][..i] == entries[..i];
      i := i + 1;
    }
    assert entries[..i] == entries;
  }

  lemma {:induction false} FromEntriesIsGreatest(entries: seq<(string, nat)>, origin: string)
    ensures origin in FromEntries(entries) <==> exists e :: e in entries && e.0 == origin
    ensures origin in FromEntries(entries) ==> (origin, FromEntries(entries)[origin]) in entries
    ensures forall e :: e in entries && e.0 == origin ==> origin in FromEntries(entries) && e.1 <= FromEntries(entries)[origin]
    decreases |entries|
  {
    if entries != [] {
      var before, last := entries[..|entries| - 1], entries[|entries| - 1];
      FromEntriesIsGreatest(before, origin);
      assert entries == before + [last];
    }
  }

  /** Every origin is listed with its sequence, and nothing else is. */
  ghost predicate Lists(entries: seq<(string, nat)>, b: Boundary) {
    && (forall o :: o in b ==> (o, b[o]) in entries)
    && (forall e :: e in entries ==> e.0 in b && b[e.0] == e.1)
  }

  method BoundaryToWire(b: Boundary) returns (entries: seq<(string, nat)>)
    ensures Lists(entries, b) && |entries| == |b|
  {
    entries := [];
    var todo := b.Keys;
    while todo != {}
      invariant todo <= b.Keys && |entries| == |b.Keys| - |todo|
      invariant forall o :: o in b.Keys && o !in todo ==> (o, b[o]) in entries
      invariant forall e :: e in entries ==> e.0 in b && b[e.0] == e.1
      decreases todo
    {
      var o :| o in todo;
      entries := entries + [(o, b[o])];
      todo := todo - {o};
    }
    assert |b.Keys| == |b|;
  }

  /** A boundary survives the wire, whatever the order of its entries. */
  lemma WireRoundTrip(b: Boundary, entries: seq<(string, nat)>)
    requires Lists(entries, b)
    ensures FromEntries(entries) == b
  {
    forall o: string
      ensures o in FromEntries(entries) <==> o in b
      ensures o in b ==> FromEntries(entries)[o] == b[o]
    {
      FromEntriesIsGreatest(entries, o);
    }
  }

  // ----- The coordinator -----

  datatype Event =
    | BoundaryReply(peer: Peer, boundary: Boundary)
    | Apply(peers: set<Peer>, localAffected: nat)
    | Ack(peer: Peer, affected: nat, failed: bool)
    | Lost(peer: Peer)

  datatype Clear = Clear(boundary: Boundary, awaitingBoundaries: set<Peer>, awaitingAcks: set<Peer>, affected: nat, errors: nat, applying: bool)

  function Begin(peers: set<Peer>, boundary: Boundary): Clear {
    Clear(boundary, peers, {}, 0, 0, false)
  }

  function SaturatingAdd(a: nat, b: nat): nat {
    Min(a + b, U64_MAX)
  }

  /** The new state, and whether the event was the last one awaited. */
  function Step(c: Clear, e: Event): (Clear, bool) {
    match e
    case BoundaryReply(peer, boundary) =>
      if peer !in c.awaitingBoundaries then (c, false)
      else
        var next := c.(awaitingBoundaries := c.awaitingBoundaries - {peer}, boundary := Merge(c.boundary, boundary));
        (next, next.awaitingBoundaries == {})
    case Apply(peers, localAffected) =>
      (c.(applying := true, awaitingAcks := peers, affected := localAffected), false)
    case Ack(peer, affected, failed) =>
      if peer !in c.awaitingAcks then (c, false)
      else
        var next := c.(awaitingAcks := c.awaitingAcks - {peer}, affected := SaturatingAdd(c.affected, affected),
                       errors := c.errors + if failed then 1 else 0);
        (next, next.awaitingAcks == {})
    case Lost(peer) =>
      if peer in c.awaitingBoundaries then (c.(awaitingBoundaries := c.awaitingBoundaries - {peer}, errors := c.errors + 1), false)
      else if peer in c.awaitingAcks then (c.(awaitingAcks := c.awaitingAcks - {peer}, errors := c.errors + 1), false)
      else (c, false)
  }

  class ClearCoordinator {
    var boundary: Boundary
    var awaitingBoundaries: set<Peer>
    const participants: set<Peer>
    var awaitingAcks: set<Peer>
    var affected: nat
    var errors: nat
    var applying: bool

    ghost function View(): Clear
      reads this
    {
      Clear(boundary, awaitingBoundaries, awaitingAcks, affected, errors, applying)
    }

    constructor (peers: set<Peer>, initial: Boundary)
      ensures View() == Begin(peers, initial) && participants == peers
    {
      boundary, awaitingBoundaries, awaitingAcks, affected, errors, applying := initial, peers, {}, 0, 0, false;
      participants := peers;
    }

    method AddBoundary(peer: Peer, reply: Boundary) returns (last: bool)
      modifies this
      ensures (View(), last) == Step(old(View()), BoundaryReply(peer, reply))
    {
      if peer !in awaitingBoundaries {
        return false;
      }
      awaitingBoundaries := awaitingBoundaries - {peer};
      boundary := UnionBoundary(boundary, reply);
      return awaitingBoundaries == {};
    }

    method BeginApply(peers: set<Peer>, localAffected: nat)
      modifies this
      ensures View() == Step(old(View()), Apply(peers, localAffected)).0
    {
      applying := true;
      awaitingAcks := peers;
      affected := localAffected;
    }

    method AddAck(peer: Peer, count: nat, failed: bool) returns (last: bool)
      modifies this
      ensures (View(), last) == Step(old(View()), Ack(peer, count, failed))
    {
      if peer !in awaitingAcks {
        return false;
      }
      awaitingAcks := awaitingAcks - {peer};
      affected := SaturatingAdd(affected, count);
      if failed {
        errors := errors + 1;
      }
      return awaitingAcks == {};
    }

    method PeerLost(peer: Peer)
      modifies this
      ensures View() == Step(old(View()), Lost(peer)).0
    {
      var removed := peer in awaitingBoundaries;
      awaitingBoundaries := awaitingBoundaries - {peer};
      if !removed {
        removed := peer in awaitingAcks;
        awaitingAcks := awaitingAcks - {peer};
      }
      if removed {
        errors := errors + 1;
      }
    }
  }

  // ----- Runs -----

  datatype Run = Run(events: seq<Event>, signals: seq<bool>, states: seq<Clear>)

  ghost predicate IsRun(r: Run) {
    && |r.signals| == |r.events| && |r.states| == |r.events| + 1
    && forall n :: 0 <= n < |r.events| ==> StepsAt(r, n)
  }

  ghost predicate StepsAt(r: Run, n: nat)
    requires n < |r.events| == |r.signals| < |r.states|
  {
    (r.states[n + 1], r.signals[n]) == Step(r.states[n], r.events[n])
  }

  /** The boundaries that count: each peer's first, unless the peer was lost before it. */
  ghost function Counted(r: Run, peers: set<Peer>, n: nat): map<Peer, Boundary>
    requires n <= |r.events|
  {
    if n == 0 then map[]
    else
      var before, e := Counted(r, peers, n - 1), r.events[n - 1];
      if e.BoundaryReply? && e.peer in peers && e.peer !in before && !LostBy(r, e.peer, n - 1)
      then before[e.peer := e.boundary]
      else before
  }

  predicate LostBy(r: Run, p: Peer, n: nat)
    requires n <= |r.events|
  {
    Lost(p) in r.events[..n]
  }

  lemma LostGrows(r: Run, p: Peer, n: nat)
    requires n < |r.events|
    ensures LostBy(r, p, n + 1) <==> LostBy(r, p, n) || r.events[n] == Lost(p)
  {
    assert r.events[..n + 1] == r.events[..n] + [r.events[n]];
  }

  /** `b` is the least boundary above `initial` and every counted one: pointwise their maximum. */
  ghost predicate IsJoin(b: Boundary, initial: Boundary, counted: map<Peer, Boundary>) {
    && (forall o :: o in initial ==> o in b && initial[o] <= b[o])
    && (forall p, o :: p in counted && o in counted[p] ==> o in b && counted[p][o] <= b[o])
    && (forall o :: o in b ==> Attained(b, initial, counted, o))
  }

  ghost predicate Attained(b: Boundary, initial: Boundary, counted: map<Peer, Boundary>, o: string)
    requires o in b
  {
    (o in initial && initial[o] == b[o]) || exists p :: p in counted && o in counted[p] && counted[p][o] == b[o]
  }

  /** Joins are unique, so the result depends on what was counted and not on the order. */
  lemma JoinIsUnique(a: Boundary, b: Boundary, initial: Boundary, counted: map<Peer, Boundary>)
    requires IsJoin(a, initial, counted) && IsJoin(b, initial, counted)
    ensures a == b
  {
    JoinsAreBelow(a, b, initial, counted);
    JoinsAreBelow(b, a, initial, counted);
  }

  lemma JoinsAreBelow(a: Boundary, b: Boundary, initial: Boundary, counted: map<Peer, Boundary>)
    requires IsJoin(a, initial, counted) && IsJoin(b, initial, counted)
    ensures forall o :: o in a ==> o in b && a[o] <= b[o]
  {
    forall o | o in a
      ensures o in b && a[o] <= b[o]
    {
      assert Attained(a, initial, counted, o);
    }
  }

  lemma JoinGrows(b: Boundary, initial: Boundary, counted: map<Peer, Boundary>, p: Peer, reply: Boundary)
    requires IsJoin(b, initial, counted) && p !in counted
    ensures IsJoin(Merge(b, reply), initial, counted[p := reply])
  {
    var next, more := Merge(b, reply), counted[p := reply];
    forall o | o in next
      ensures Attained(next, initial, more, o)
    {
      if o in b && next[o] == b[o] {
        assert Attained(b, initial, counted, o);
        if !(o in initial && initial[o] == b[o]) {
          var q :| q in counted && o in counted[q] && counted[q][o] == b[o];
          assert q in more && more[q] == counted[q];
        }
      } else {
        assert p in more && o in more[p] && more[p][o] == next[o];
      }
    }
  }

  /** Who is still awaited, and how far the boundary has come. */
  ghost predicate Collects(r: Run, peers: set<Peer>, initial: Boundary, n: nat)
    requires n <= |r.events| < |r.states|
  {
    && IsJoin(r.states[n].boundary, initial, Counted(r, peers, n))
    && forall p :: p in r.states[n].awaitingBoundaries <==> p in peers && p !in Counted(r, peers, n) && !LostBy(r, p, n)
  }

  lemma CollectsOn(r: Run, peers: set<Peer>, initial: Boundary, n: nat)
    requires IsRun(r) && n < |r.events| && Collects(r, peers, initial, n)
    ensures Collects(r, peers, initial, n + 1)
  {
    assert StepsAt(r, n);
    var c, e := r.states[n], r.events[n];
    forall p: Peer
      ensures LostBy(r, p, n + 1) <==> LostBy(r, p, n) || e == Lost(p)
    {
      LostGrows(r, p, n);
    }
    if e.BoundaryReply? && e.peer in c.awaitingBoundaries {
      JoinGrows(c.boundary, initial, Counted(r, peers, n), e.peer, e.boundary);
    }
  }

  /**
   For every order and duplication of replies, the boundary is the pointwise maximum of the initial one
   and of each counted peer's.
   */
  lemma {:induction false} BoundaryIsTheMaximum(r: Run, peers: set<Peer>, initial: Boundary, n: nat)
    requires IsRun(r) && r.states[0] == Begin(peers, initial) && n <= |r.events|
    ensures Collects(r, peers, initial, n)
  {
    if n > 0 {
      BoundaryIsTheMaximum(r, peers, initial, n - 1);
      CollectsOn(r, peers, initial, n - 1);
    }
  }

  lemma {:induction false} CountedAreReplies(r: Run, peers: set<Peer>, n: nat, reply: map<Peer, Boundary>)
    requires n <= |r.events| && (forall e :: e in r.events && e.BoundaryReply? && e.peer in peers ==> e.peer in reply && e.boundary == reply[e.peer])
    requires forall p :: p in peers ==> !LostBy(r, p, |r.events|)
    ensures forall p :: p in Counted(r, peers, n) <==> p in peers && exists e :: e in r.events[..n] && e.BoundaryReply? && e.peer == p
    ensures forall p :: p in Counted(r, peers, n) ==> p in reply && Counted(r, peers, n)[p] == reply[p]
    decreases n
  {
    if n > 0 {
      CountedAreReplies(r, peers, n - 1, reply);
      assert r.events[..n] == r.events[..n - 1] + [r.events[n - 1]];
      forall p | p in peers
        ensures !LostBy(r, p, n - 1)
      {
        assert forall e :: e in r.events[..n - 1] ==> e in r.events[..|r.events|];
      }
    }
  }

  /** Two runs in which the same peers answer, each with one boundary of its own, end at the same boundary. */
  lemma OrderDoesNotMatter(r: Run, q: Run, peers: set<Peer>, initial: Boundary, reply: map<Peer, Boundary>)
    requires IsRun(r) && IsRun(q) && r.states[0] == q.states[0] == Begin(peers, initial)
    requires peers <= reply.Keys
    requires forall e :: e in r.events + q.events && e.BoundaryReply? && e.peer in peers ==> e.boundary == reply[e.peer]
    requires forall p :: p in peers ==> BoundaryReply(p, reply[p]) in r.events && BoundaryReply(p, reply[p]) in q.events
    requires forall p :: p in peers ==> Lost(p) !in r.events && Lost(p) !in q.events
    ensures r.states[|r.events|].boundary == q.states[|q.events|].boundary
  {
    AllAreCounted(r, peers, reply);
    AllAreCounted(q, peers, reply);
    BoundaryIsTheMaximum(r, peers, initial, |r.events|);
    BoundaryIsTheMaximum(q, peers, initial, |q.events|);
    JoinIsUnique(r.states[|r.events|].boundary, q.states[|q.events|].boundary, initial, Counted(r, peers, |r.events|));
  }

  lemma AllAreCounted(r: Run, peers: set<Peer>, reply: map<Peer, Boundary>)
    requires peers <= reply.Keys
    requires forall e :: e in r.events && e.BoundaryReply? && e.peer in peers ==> e.boundary == reply[e.peer]
    requires forall p :: p in peers ==> BoundaryReply(p, reply[p]) in r.events
    requires forall p :: p in peers ==> Lost(p) !in r.events
    ensures Counted(r, peers, |r.events|) == map p | p in peers :: reply[p]
  {
    assert r.events[..|r.events|] == r.events;
    CountedAreReplies(r, peers, |r.events|, reply);
    forall p | p in peers
      ensures p in Counted(r, peers, |r.events|)
    {
      assert BoundaryReply(p, reply[p]) in r.events[..|r.events|];
    }
  }

  // ----- Signals -----

  lemma {:induction false} BoundariesOnlyDwindle(r: Run, n: nat, m: nat)
    requires IsRun(r) && n <= m <= |r.events|
    ensures r.states[m].awaitingBoundaries <= r.states[n].awaitingBoundaries
    decreases m
  {
    if n < m {
      BoundariesOnlyDwindle(r, n, m - 1);
      assert StepsAt(r, m - 1);
    }
  }

  /** The last boundary is signalled at most once. */
  lemma LastBoundaryOnce(r: Run, n: nat, m: nat)
    requires IsRun(r) && n < m < |r.events| && r.events[n].BoundaryReply? && r.events[m].BoundaryReply?
    ensures !(r.signals[n] && r.signals[m])
  {
    BoundariesOnlyDwindle(r, n + 1, m);
    assert StepsAt(r, n) && StepsAt(r, m);
  }

  ghost predicate NoApply(r: Run, n: nat, m: nat) {
    forall j :: n <= j < m && j < |r.events| ==> !r.events[j].Apply?
  }

  lemma {:induction false} AcksOnlyDwindle(r: Run, n: nat, m: nat)
    requires IsRun(r) && n <= m <= |r.events| && NoApply(r, n, m)
    ensures r.states[m].awaitingAcks <= r.states[n].awaitingAcks
    decreases m
  {
    if n < m {
      AcksOnlyDwindle(r, n, m - 1);
      assert StepsAt(r, m - 1);
      assert !r.events[m - 1].Apply?;
    }
  }

  /** The event makes the peer owe no acknowledgement: it gave one, or was lost when it no longer owed a boundary. */
  predicate Absolves(r: Run, j: nat, p: Peer)
    requires j < |r.events| < |r.states|
  {
    || (r.events[j].Ack? && r.events[j].peer == p)
    || (r.events[j] == Lost(p) && p !in r.states[j].awaitingBoundaries)
  }

  /** The peer was asked by the application at `k`, the latest, and nothing has absolved it since. */
  ghost predicate StillOwes(r: Run, p: Peer, k: nat, n: nat)
    requires n <= |r.events| < |r.states|
  {
    && k < n && r.events[k].Apply? && p in r.events[k].peers && NoApply(r, k + 1, n)
    && forall j :: k < j < n ==> !Absolves(r, j, p)
  }

  ghost predicate Owes(r: Run, p: Peer, n: nat)
    requires n <= |r.events| < |r.states|
  {
    exists k: nat :: StillOwes(r, p, k, n)
  }

  lemma OwesNext(r: Run, p: Peer, n: nat, m: nat)
    requires n < |r.events| < |r.states| && m == n + 1
    ensures Owes(r, p, m) <==> if r.events[n].Apply? then p in r.events[n].peers else Owes(r, p, n) && !Absolves(r, n, p)
  {
    if r.events[n].Apply? {
      if p in r.events[n].peers {
        assert StillOwes(r, p, n, m);
      }
      if k: nat :| StillOwes(r, p, k, m) {
        assert k == n;
      }
    } else {
      if k: nat :| StillOwes(r, p, k, n) && !Absolves(r, n, p) {
        assert StillOwes(r, p, k, m);
      }
      if k: nat :| StillOwes(r, p, k, m) {
        assert k < n && StillOwes(r, p, k, n);
      }
    }
  }

  /** Exactly the peers that still owe an acknowledgement are awaited. */
  lemma {:induction false} AcksAwaited(r: Run, peers: set<Peer>, initial: Boundary, n: nat, p: Peer)
    requires IsRun(r) && r.states[0] == Begin(peers, initial) && n <= |r.events|
    ensures p in r.states[n].awaitingAcks <==> Owes(r, p, n)
  {
    if n > 0 {
      AcksAwaited(r, peers, initial, n - 1, p);
      OwesNext(r, p, n - 1, n);
      assert StepsAt(r, n - 1);
    }
  }

  /** The acknowledgement at `n` is taken into account. */
  predicate CountsAck(r: Run, n: nat)
    requires n < |r.events| < |r.states|
  {
    r.events[n].Ack? && r.events[n].peer in r.states[n].awaitingAcks
  }

  /** Within one application, the last acknowledgement is signalled at most once, and each peer counts at most once. */
  lemma LastAckOnce(r: Run, n: nat, m: nat)
    requires IsRun(r) && n < m < |r.events| && NoApply(r, n, m) && r.events[n].Ack? && r.events[m].Ack?
    ensures !(r.signals[n] && r.signals[m])
    ensures r.events[n].peer == r.events[m].peer ==> !(CountsAck(r, n) && CountsAck(r, m))
  {
    AcksOnlyDwindle(r, n + 1, m);
    assert StepsAt(r, n) && StepsAt(r, m);
  }

  /** What was affected here and at every peer counted since, without any limit. */
  ghost function Owed(r: Run, n: nat): nat
    requires n <= |r.events| < |r.states|
  {
    if n == 0 then 0
    else if r.events[n - 1].Apply? then r.events[n - 1].localAffected
    else Owed(r, n - 1) + if CountsAck(r, n - 1) then r.events[n - 1].affected else 0
  }

  /** The total is exact up to the largest count, where it stays. */
  lemma {:induction false} AffectedIsTheSum(r: Run, peers: set<Peer>, initial: Boundary, n: nat)
    requires IsRun(r) && r.states[0] == Begin(peers, initial) && n <= |r.events|
    requires forall e :: e in r.events && e.Apply? ==> e.localAffected <= U64_MAX
    ensures r.states[n].affected == Min(Owed(r, n), U64_MAX)
  {
    if n > 0 {
      AffectedIsTheSum(r, peers, initial, n - 1);
      assert StepsAt(r, n - 1);
    }
  }

  // ----- When the coordinator signals -----

  /** Every peer has given its boundary or was lost. */
  ghost predicate AllBoundariesIn(r: Run, peers: set<Peer>, n: nat)
    requires n <= |r.events|
  {
    forall p :: p in peers ==> p in Counted(r, peers, n) || LostBy(r, p, n)
  }

  /** A boundary is signalled as the last exactly when it is counted and then no peer still owes one. */
  lemma LastBoundaryIsSignalled(r: Run, peers: set<Peer>, initial: Boundary, n: nat, m: nat)
    requires IsRun(r) && r.states[0] == Begin(peers, initial) && n < |r.events| && m == n + 1 && r.events[n].BoundaryReply?
    ensures
      var p := r.events[n].peer;
      r.signals[n] <==> p !in Counted(r, peers, n) && p in Counted(r, peers, m) && AllBoundariesIn(r, peers, m)
  {
    BoundaryIsTheMaximum(r, peers, initial, n);
    BoundaryIsTheMaximum(r, peers, initial, m);
    assert StepsAt(r, n);
    var p, c := r.events[n].peer, r.states[n];
    LostGrows(r, p, n);
    assert p in c.awaitingBoundaries <==> p !in Counted(r, peers, n) && p in Counted(r, peers, m);
    assert r.states[m].awaitingBoundaries == {} <==> AllBoundariesIn(r, peers, m);
  }

  ghost predicate BoundarySignalled(r: Run, n: nat) {
    exists j :: 0 <= j < n && j < |r.events| && j < |r.signals| && r.events[j].BoundaryReply? && r.signals[j]
  }

  /** If no peer is lost, the last of the boundaries is signalled as soon as all have come. */
  lemma {:induction false} AllBoundariesAreSignalled(r: Run, peers: set<Peer>, initial: Boundary, n: nat)
    requires IsRun(r) && r.states[0] == Begin(peers, initial) && n <= |r.events| && peers != {}
    requires forall p :: p in peers ==> !LostBy(r, p, n) && p in Counted(r, peers, n)
    ensures BoundarySignalled(r, n)
    decreases n
  {
    var e := r.events[n - 1];
    forall p | p in peers
      ensures !LostBy(r, p, n - 1)
    {
      LostGrows(r, p, n - 1);
    }
    if forall p :: p in peers ==> p in Counted(r, peers, n - 1) {
      AllBoundariesAreSignalled(r, peers, initial, n - 1);
    } else {
      LastBoundaryIsSignalled(r, peers, initial, n - 1, n);
      assert r.signals[n - 1];
    }
  }

  /** An acknowledgement is signalled as the last exactly when its peer owed it and then nobody owes one. */
  lemma LastAckIsSignalled(r: Run, peers: set<Peer>, initial: Boundary, n: nat, m: nat)
    requires IsRun(r) && r.states[0] == Begin(peers, initial) && n < |r.events| && m == n + 1 && r.events[n].Ack?
    ensures r.signals[n] <==> Owes(r, r.events[n].peer, n) && forall p :: !Owes(r, p, m)
  {
    assert StepsAt(r, n);
    AcksAwaited(r, peers, initial, n, r.events[n].peer);
    forall p: Peer
      ensures p in r.states[m].awaitingAcks <==> Owes(r, p, m)
    {
      AcksAwaited(r, peers, initial, m, p);
    }
    assert r.states[m].awaitingAcks == {} <==> forall p :: !Owes(r, p, m);
  }

  /** Nothing but a boundary or an acknowledgement is ever signalled. */
  lemma OnlyAnswersAreSignalled(r: Run, n: nat)
    requires IsRun(r) && n < |r.events| && r.signals[n]
    ensures r.events[n].BoundaryReply? || r.events[n].Ack?
  {
    assert StepsAt(r, n);
  }

  // ----- Errors -----

  /** The event is an error: an acknowledgement of a failure, or the loss of a peer that still owes something. */
  ghost predicate IsError(r: Run, peers: set<Peer>, n: nat)
    requires n < |r.events| < |r.states|
  {
    match r.events[n]
    case Ack(p, _, failed) => failed && Owes(r, p, n)
    case Lost(p) => (p in peers && p !in Counted(r, peers, n) && !LostBy(r, p, n)) || Owes(r, p, n)
    case _ => false
  }

  ghost function Errors(r: Run, peers: set<Peer>, n: nat): nat
    requires n <= |r.events| < |r.states|
  {
    if n == 0 then 0 else Errors(r, peers, n - 1) + if IsError(r, peers, n - 1) then 1 else 0
  }

  /** Exactly the errors are counted, each once. */
  lemma {:induction false} ErrorsAreCounted(r: Run, peers: set<Peer>, initial: Boundary, n: nat)
    requires IsRun(r) && r.states[0] == Begin(peers, initial) && n <= |r.events|
    ensures r.states[n].errors == Errors(r, peers, n)
  {
    if n > 0 {
      ErrorsAreCounted(r, peers, initial, n - 1);
      assert StepsAt(r, n - 1);
      BoundaryIsTheMaximum(r, peers, initial, n - 1);
      var e := r.events[n - 1];
      if e.Ack? || e.Lost? {
        AcksAwaited(r, peers, initial, n - 1, e.peer);
      }
    }
  }

  lemma {:induction false} ApplyingOnceAsked(r: Run, peers: set<Peer>, initial: Boundary, n: nat)
    requires IsRun(r) && r.states[0] == Begin(peers, initial) && n <= |r.events|
    ensures r.states[n].applying <==> exists j :: 0 <= j < n && r.events[j].Apply?
  {
    if n > 0 {
      ApplyingOnceAsked(r, peers, initial, n - 1);
      assert StepsAt(r, n - 1);
    }
  }
}
