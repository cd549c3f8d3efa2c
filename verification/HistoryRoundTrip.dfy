/**
 Splitting a record and reassembling it are inverse under any order, duplication and interleaving of
 what is delivered.
 */
module HistoryRoundTrip {
  import opened Common
  import opened HistoryRecords

  /** Events, what each put out, and the tables before, between and after them. */
  datatype Run = Run(events: seq<Event>, outputs: seq<Output>, tables: seq<Table>)

  ghost predicate IsRun(r: Run) {
    && |r.outputs| == |r.events| && |r.tables| == |r.events| + 1
    && forall n :: 0 <= n < |r.events| ==> StepsAt(r, n)
  }

  ghost predicate StepsAt(r: Run, n: nat)
    requires n < |r.events| == |r.outputs| < |r.tables|
  {
    TableOk(r.tables[n]) && (r.tables[n + 1], r.outputs[n]) == Step(r.tables[n], r.events[n])
  }

  lemma RunGrows(q: Run, e: Event, u: Table, out: Output)
    requires IsRun(q) && TableOk(q.tables[|q.events|]) && (u, out) == Step(q.tables[|q.events|], e)
    ensures IsRun(Run(q.events + [e], q.outputs + [out], q.tables + [u]))
  {
    var r := Run(q.events + [e], q.outputs + [out], q.tables + [u]);
    forall n | 0 <= n < |r.events|
      ensures StepsAt(r, n)
    {
      if n < |q.events| {
        assert StepsAt(q, n);
      }
    }
  }

  /** Every sequence of events runs from every sound table, and both limits hold throughout. */
  lemma {:induction false} EverythingRuns(t: Table, es: seq<Event>) returns (r: Run)
    requires TableOk(t)
    ensures IsRun(r) && r.events == es && r.tables[0] == t
    ensures forall n :: 0 <= n < |r.tables| ==> TableOk(r.tables[n])
    decreases |es|
  {
    if es == [] {
      r := Run([], [], [t]);
    } else {
      var last := |es| - 1;
      var q := EverythingRuns(t, es[..last]);
      StepKeeps(q.tables[last], es[last]);
      var (u, out) := Step(q.tables[last], es[last]);
      RunGrows(q, es[last], u, out);
      assert es[..last] + [es[last]] == es;
      r := Run(es, q.outputs + [out], q.tables + [u]);
    }
  }

  predicate IsChunkOf(e: Event, k: Key) {
    e.Chunk? && e.key == k
  }

  predicate IsStartOf(e: Event, k: Key) {
    e.Start? && e.key == k
  }

  /** The event carries the record's own bytes, if it is about the record, and does not discard it. */
  predicate Faithful(e: Event, k: Key, bytes: Bytes, started: nat) {
    match e
    case Start(_, _, _, _) => true
    case Chunk(key, index, data) => key == k ==> index < ChunkCount(|bytes|) && data == Piece(bytes, index)
    case PeerLost(peer) => peer != k.peer
    case FinishRequest(peer, request) => peer != k.peer || request != k.request
    case Expire(now) => Elapsed(now, started) < EXPIRY
  }

  /** Chunks of the record delivered so far. */
  function Covered(es: seq<Event>, k: Key): set<nat> {
    set e | e in es && IsChunkOf(e, k) :: e.index
  }

  /** No chunk of the record is missing. */
  predicate Complete(bytes: Bytes, got: set<nat>) {
    forall i :: 0 <= i < ChunkCount(|bytes|) ==> i in got
  }

  ghost predicate Holding(p: Pending, bytes: Bytes, started: nat, got: set<nat>) {
    && p.total == |bytes| && p.started == started && |p.chunks| == ChunkCount(|bytes|)
    && forall i :: 0 <= i < |p.chunks| ==> p.chunks[i] == if i in got then Some(Piece(bytes, i)) else None
  }

  // ----- Pieces -----

  lemma PiecesHaveTheirLength(bytes: Bytes, i: nat)
    requires i < ChunkCount(|bytes|)
    ensures |Piece(bytes, i)| == PieceLength(|bytes|, ChunkCount(|bytes|), i)
  {
  }

  lemma {:induction false} PiecesJoin(bytes: Bytes, chunks: seq<Option<Bytes>>)
    requires |chunks| <= ChunkCount(|bytes|)
    requires forall i :: 0 <= i < |chunks| ==> chunks[i] == Some(Piece(bytes, i))
    ensures forall c :: c in chunks ==> c.Some?
    ensures Joined(chunks) == bytes[..Min(|chunks| * CHUNK, |bytes|)]
    decreases |chunks|
  {
    if chunks != [] {
      var last := |chunks| - 1;
      PiecesJoin(bytes, chunks[..last]);
      assert Min(last * CHUNK, |bytes|) == last * CHUNK;
    }
  }

  // ----- One event -----

  lemma OthersLeaveItAlone(t: Table, e: Event, k: Key, bytes: Bytes, started: nat)
    requires TableOk(t) && Faithful(e, k, bytes, started) && !IsChunkOf(e, k)
    requires k in t && t[k].started == started
    ensures var u := Step(t, e).0; k in u && u[k] == t[k]
  {
  }

  lemma ChunkIsHeld(t: Table, k: Key, bytes: Bytes, started: nat, got: set<nat>, i: nat)
    requires TableOk(t) && k in t && Holding(t[k], bytes, started, got) && i < ChunkCount(|bytes|)
    requires !Complete(bytes, got + {i})
    ensures
      var (u, out) := Step(t, Chunk(k, i, Piece(bytes, i)));
      k in u && Holding(u[k], bytes, started, got + {i}) && out == Silent
  {
    var p := t[k];
    PiecesHaveTheirLength(bytes, i);
    if i in got {
      assert got + {i} == got;
    } else {
      FillingCounts(p.chunks, i, Piece(bytes, i));
      var next := Fill(p, i, Piece(bytes, i));
      var gap :| 0 <= gap < ChunkCount(|bytes|) && gap !in got + {i};
      assert next.chunks[gap].None?;
      assert !forall c :: c in next.chunks ==> c.Some?;
      FullIsFilled(next.chunks);
    }
  }

  lemma LastChunkDelivers(t: Table, k: Key, bytes: Bytes, started: nat, got: set<nat>, i: nat)
    requires TableOk(t) && k in t && Holding(t[k], bytes, started, got) && i < ChunkCount(|bytes|)
    requires !Complete(bytes, got) && Complete(bytes, got + {i})
    ensures Step(t, Chunk(k, i, Piece(bytes, i))) == (t - {k}, Delivered(bytes))
  {
    var p := t[k];
    PiecesHaveTheirLength(bytes, i);
    assert i !in got by {
      assert i in got ==> got + {i} == got;
    }
    FillingCounts(p.chunks, i, Piece(bytes, i));
    var next := Fill(p, i, Piece(bytes, i));
    assert forall j :: 0 <= j < |next.chunks| ==> j in got + {i} && next.chunks[j] == Some(Piece(bytes, j));
    PiecesJoin(bytes, next.chunks);
    FullIsFilled(next.chunks);
    assert Min(|next.chunks| * CHUNK, |bytes|) == |bytes|;
    assert bytes[..|bytes|] == bytes;
  }

  lemma AbsentStaysSilent(t: Table, e: Event, k: Key)
    requires TableOk(t) && k !in t && !IsStartOf(e, k)
    ensures k !in Step(t, e).0 && (IsChunkOf(e, k) ==> Step(t, e).1 == Silent)
  {
  }

  // ----- Whole deliveries -----

  /** A delivery in which everything about the record is genuine and nothing discards it. */
  ghost predicate FaithfulAll(es: seq<Event>, k: Key, bytes: Bytes, started: nat) {
    forall e :: e in es ==> Faithful(e, k, bytes, started)
  }

  lemma CoveredGrows(es: seq<Event>, n: nat, k: Key)
    requires n < |es|
    ensures Covered(es[..n + 1], k) == if IsChunkOf(es[n], k) then Covered(es[..n], k) + {es[n].index} else Covered(es[..n], k)
  {
    assert es[..n + 1] == es[..n] + [es[n]];
  }

  /** The record has been accepted, and from then on everything about it is genuine. */
  ghost predicate Starts(r: Run, k: Key, bytes: Bytes, started: nat) {
    && IsRun(r) && FaithfulAll(r.events, k, bytes, started)
    && k in r.tables[0] && r.tables[0][k] == Fresh(|bytes|, started)
  }

  lemma HoldsOneMore(r: Run, k: Key, bytes: Bytes, started: nat, n: nat)
    requires IsRun(r) && n < |r.events| && Faithful(r.events[n], k, bytes, started)
    requires k in r.tables[n] && Holding(r.tables[n][k], bytes, started, Covered(r.events[..n], k))
    requires !Complete(bytes, Covered(r.events[..n + 1], k))
    ensures k in r.tables[n + 1] && Holding(r.tables[n + 1][k], bytes, started, Covered(r.events[..n + 1], k))
    ensures IsChunkOf(r.events[n], k) ==> r.outputs[n] == Silent
  {
    var e, t := r.events[n], r.tables[n];
    CoveredGrows(r.events, n, k);
    assert StepsAt(r, n);
    if IsChunkOf(e, k) {
      ChunkIsHeld(t, k, bytes, started, Covered(r.events[..n], k), e.index);
    } else {
      OthersLeaveItAlone(t, e, k, bytes, started);
    }
  }

  /** While a chunk is missing, the table holds exactly the chunks delivered, and nothing comes out. */
  lemma {:induction false} HoldsWhatArrived(r: Run, k: Key, bytes: Bytes, started: nat, n: nat)
    requires Starts(r, k, bytes, started) && n <= |r.events| && !Complete(bytes, Covered(r.events[..n], k))
    ensures k in r.tables[n] && Holding(r.tables[n][k], bytes, started, Covered(r.events[..n], k))
    ensures n > 0 && IsChunkOf(r.events[n - 1], k) ==> r.outputs[n - 1] == Silent
    decreases n
  {
    if n > 0 {
      CoveredPrefix(r.events, n - 1, n, k);
      HoldsWhatArrived(r, k, bytes, started, n - 1);
      HoldsOneMore(r, k, bytes, started, n - 1);
    }
  }

  /** The record comes out, whole, with the chunk that was last to arrive. */
  lemma LastDelivers(r: Run, k: Key, bytes: Bytes, started: nat, n: nat)
    requires Starts(r, k, bytes, started) && n < |r.events|
    requires !Complete(bytes, Covered(r.events[..n], k)) && Complete(bytes, Covered(r.events[..n + 1], k))
    ensures IsChunkOf(r.events[n], k) && r.outputs[n] == Delivered(bytes) && k !in r.tables[n + 1]
  {
    CoveredGrows(r.events, n, k);
    HoldsWhatArrived(r, k, bytes, started, n);
    assert StepsAt(r, n);
    assert Faithful(r.events[n], k, bytes, started);
    LastChunkDelivers(r.tables[n], k, bytes, started, Covered(r.events[..n], k), r.events[n].index);
  }

  lemma AbsentStays(r: Run, k: Key, n: nat)
    requires IsRun(r) && n < |r.events| && k !in r.tables[n] && !IsStartOf(r.events[n], k)
    ensures k !in r.tables[n + 1] && (IsChunkOf(r.events[n], k) ==> r.outputs[n] == Silent)
  {
    assert StepsAt(r, n);
    AbsentStaysSilent(r.tables[n], r.events[n], k);
  }

  /** After that, without a new start, late duplicates are ignored. */
  lemma {:induction false} NothingLate(r: Run, k: Key, n: nat, m: nat)
    requires IsRun(r) && n <= m < |r.events| && k !in r.tables[n]
    requires forall j :: n <= j < |r.events| ==> !IsStartOf(r.events[j], k)
    ensures k !in r.tables[m + 1] && (IsChunkOf(r.events[m], k) ==> r.outputs[m] == Silent)
    decreases m
  {
    if n < m {
      NothingLate(r, k, n, m - 1);
    }
    AbsentStays(r, k, m);
  }

  lemma CoveredPrefix(es: seq<Event>, m: nat, n: nat, k: Key)
    requires m <= n <= |es|
    ensures Covered(es[..m], k) <= Covered(es[..n], k)
  {
    assert forall e :: e in es[..m] ==> e in es[..n];
  }

  /** The event that brings the last missing chunk. */
  lemma {:induction false} FirstCover(es: seq<Event>, k: Key, bytes: Bytes) returns (n: nat)
    requires bytes != [] && Complete(bytes, Covered(es, k))
    ensures n < |es| && !Complete(bytes, Covered(es[..n], k)) && Complete(bytes, Covered(es[..n + 1], k))
    decreases |es|
  {
    assert 0 in Covered(es, k);
    n := |es| - 1;
    assert es[..n + 1] == es;
    if Complete(bytes, Covered(es[..n], k)) {
      var shorter := es[..n];
      n := FirstCover(shorter, k, bytes);
      assert shorter[..n] == es[..n] && shorter[..n + 1] == es[..n + 1];
    }
  }

  /** Every chunk of the record arrives at least once. */
  ghost predicate BringsAll(es: seq<Event>, k: Key, bytes: Bytes) {
    forall i :: 0 <= i < ChunkCount(|bytes|) ==> Chunk(k, i, Piece(bytes, i)) in es
  }

  lemma BringingCompletes(es: seq<Event>, k: Key, bytes: Bytes)
    requires BringsAll(es, k, bytes)
    ensures Complete(bytes, Covered(es, k))
  {
    forall i | 0 <= i < ChunkCount(|bytes|)
      ensures i in Covered(es, k)
    {
      assert IsChunkOf(Chunk(k, i, Piece(bytes, i)), k);
    }
  }

  /** `n` is where the record comes out, and nothing of it comes out anywhere else. */
  ghost predicate DeliveredOnlyAt(r: Run, k: Key, bytes: Bytes, n: nat)
    requires IsRun(r)
  {
    && n < |r.events| && IsChunkOf(r.events[n], k) && r.outputs[n] == Delivered(bytes)
    && forall m :: 0 <= m < |r.events| && m != n && IsChunkOf(r.events[m], k) ==> r.outputs[m] == Silent
  }

  /**
   Any record of a sendable length: once its start is accepted, any delivery that brings each of its
   chunks at least once, in any order, with any duplicates and between any other events, yields the
   original bytes exactly once, at the event that brings the last missing chunk. Further starts may
   arrive as long as the record is incomplete.
   */
  lemma RoundTrip(r: Run, k: Key, bytes: Bytes, started: nat) returns (n: nat)
    requires bytes != [] && Starts(r, k, bytes, started) && BringsAll(r.events, k, bytes)
    requires forall j :: 0 <= j < |r.events| && IsStartOf(r.events[j], k) ==> !Complete(bytes, Covered(r.events[..j], k))
    ensures DeliveredOnlyAt(r, k, bytes, n)
    ensures !Complete(bytes, Covered(r.events[..n], k)) && Complete(bytes, Covered(r.events[..n + 1], k))
  {
    BringingCompletes(r.events, k, bytes);
    n := FirstCover(r.events, k, bytes);
    LastDelivers(r, k, bytes, started, n);
    forall j | n < j < |r.events|
      ensures !IsStartOf(r.events[j], k)
    {
      CoveredPrefix(r.events, n + 1, j, k);
    }
    forall m | 0 <= m < |r.events| && m != n && IsChunkOf(r.events[m], k)
      ensures r.outputs[m] == Silent
    {
      if m < n {
        CoveredPrefix(r.events, m + 1, n, k);
        HoldsWhatArrived(r, k, bytes, started, m + 1);
      } else {
        NothingLate(r, k, n + 1, m);
      }
    }
  }

  /** The events made from a record meet what the round trip asks for. */
  lemma SplitIsFaithful(t: Table, k: Key, bytes: Bytes, now: nat)
    requires TableOk(t) && 0 < |bytes| <= MAX_RECORD && k !in t
    requires |t| < MAX_PENDING_RECORDS && Budget(t) + |bytes| <= MAX_PENDING_BYTES
    ensures
      var events := RecordEvents(k, bytes, now).value;
      && Step(t, events[0]) == (t[k := Fresh(|bytes|, now)], Silent)
      && FaithfulAll(events[1..], k, bytes, now)
      && BringsAll(events[1..], k, bytes)
  {
    var events := RecordEvents(k, bytes, now).value;
    assert forall i :: 0 <= i < ChunkCount(|bytes|) ==> events[1..][i] == Chunk(k, i, Piece(bytes, i));
  }
}
