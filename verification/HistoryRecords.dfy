/**
 Records of the shared history arrive in chunks, in any order and with duplicates. What a pending
 record is, how each event changes the table of pending records, and what the table keeps.
 */
module HistoryRecords {
  import opened Common

  const CHUNK: nat := 1179
  const MAX_RECORD: nat := 48 * 1024 * 1024
  const MAX_PENDING_RECORDS: nat := 8
  const MAX_PENDING_BYTES: nat := MAX_RECORD
  const EXPIRY: nat := 5000

  datatype Key = Key(peer: nat, request: nat, record: nat)

  datatype Pending = Pending(received: nat, total: nat, chunks: seq<Option<Bytes>>, started: nat)

  type Table = map<Key, Pending>

  datatype Event =
    | Start(key: Key, total: nat, count: nat, now: nat)
    | Chunk(key: Key, index: nat, data: Bytes)
    | PeerLost(peer: nat)
    | FinishRequest(peer: nat, request: nat)
    | Expire(now: nat)

  datatype Output = Silent | Refused | Delivered(bytes: Bytes)

  function ChunkCount(total: nat): nat {
    (total + CHUNK - 1) / CHUNK
  }

  function PieceLength(total: nat, count: nat, index: nat): int {
    if index + 1 == count then total - CHUNK * (count - 1) else CHUNK
  }

  // ----- Splitting -----

  function Piece(bytes: Bytes, index: nat): Bytes
    requires index < ChunkCount(|bytes|)
  {
    bytes[index * CHUNK..Min((index + 1) * CHUNK, |bytes|)]
  }

  /** What is sent for a serialized record, or nothing when it is too long to send. */
  function RecordEvents(key: Key, bytes: Bytes, now: nat): Option<seq<Event>> {
    if bytes == [] || |bytes| > MAX_RECORD then None
    else
      var count := ChunkCount(|bytes|);
      Some([Start(key, |bytes|, count, now)] + seq(count, i requires 0 <= i < count => Chunk(key, i, Piece(bytes, i))))
  }

  // ----- The table -----

  function Fresh(total: nat, now: nat): Pending {
    Pending(0, total, seq(ChunkCount(total), _ => None), now)
  }

  function Filled(chunks: seq<Option<Bytes>>): nat {
    if chunks == [] then 0
    else Filled(chunks[..|chunks| - 1]) + if chunks[|chunks| - 1].Some? then 1 else 0
  }

  function Joined(chunks: seq<Option<Bytes>>): Bytes
    requires forall c :: c in chunks ==> c.Some?
  {
    if chunks == [] then [] else Joined(chunks[..|chunks| - 1]) + chunks[|chunks| - 1].value
  }

  /** Counted exactly, incomplete, and every chunk of the length its place calls for. */
  predicate PendingOk(p: Pending) {
    && 0 < p.total <= MAX_RECORD
    && |p.chunks| == ChunkCount(p.total)
    && p.received == Filled(p.chunks) < |p.chunks|
    && forall i :: 0 <= i < |p.chunks| && p.chunks[i].Some? ==> |p.chunks[i].value| == PieceLength(p.total, |p.chunks|, i)
  }

  ghost function Budget(t: Table): nat {
    if t == map[] then 0 else var k :| k in t; t[k].total + Budget(t - {k})
  }

  ghost predicate TableOk(t: Table) {
    && |t| <= MAX_PENDING_RECORDS
    && Budget(t) <= MAX_PENDING_BYTES
    && forall k :: k in t ==> PendingOk(t[k])
  }

  lemma {:induction false} BudgetWithout(t: Table, k: Key)
    requires k in t
    ensures Budget(t) == t[k].total + Budget(t - {k})
    decreases t
  {
    var first :| first in t && Budget(t) == t[first].total + Budget(t - {first});
    if first != k {
      BudgetWithout(t - {first}, k);
      BudgetWithout(t - {k}, first);
      assert t - {first} - {k} == t - {k} - {first};
    }
  }

  lemma BudgetWith(t: Table, k: Key, p: Pending)
    requires k !in t
    ensures Budget(t[k := p]) == Budget(t) + p.total
  {
    BudgetWithout(t[k := p], k);
    assert t[k := p] - {k} == t;
  }

  lemma BudgetOfSame(t: Table, k: Key, p: Pending)
    requires k in t && p.total == t[k].total
    ensures Budget(t[k := p]) == Budget(t)
  {
    BudgetWithout(t, k);
    BudgetWithout(t[k := p], k);
    assert t[k := p] - {k} == t - {k};
  }

  lemma {:induction false} BudgetShrinks(t: Table, gone: set<Key>)
    ensures Budget(t - gone) <= Budget(t) && |t - gone| <= |t|
    decreases t
  {
    if k :| k in t && k in gone {
      BudgetShrinks(t - {k}, gone);
      BudgetWithout(t, k);
      assert t - {k} - gone == t - gone;
    } else {
      assert t - gone == t;
    }
  }

  // ----- Events -----

  ghost function StartStep(t: Table, k: Key, total: nat, count: nat, now: nat): (Table, Output) {
    if total == 0 || total > MAX_RECORD || count != ChunkCount(total) then (t, Refused)
    else if k in t then (t, if t[k].total == total && |t[k].chunks| == count then Silent else Refused)
    else if |t| >= MAX_PENDING_RECORDS || Budget(t) + total > MAX_PENDING_BYTES then (t, Refused)
    else (t[k := Fresh(total, now)], Silent)
  }

  /** What becomes of a pending record when a chunk of it arrives. */
  function Fill(p: Pending, index: nat, data: Bytes): Pending
    requires index < |p.chunks|
  {
    p.(chunks := p.chunks[index := Some(data)], received := p.received + 1)
  }

  function ChunkStep(t: Table, k: Key, index: nat, data: Bytes): (Table, Output)
    requires k in t ==> PendingOk(t[k])
  {
    if k !in t then (t, Silent)
    else
      var p := t[k];
      if index >= |p.chunks| then (t, Refused)
      else if |data| != PieceLength(p.total, |p.chunks|, index) then (t - {k}, Refused)
      else if p.chunks[index].Some? then (t, if p.chunks[index].value == data then Silent else Refused)
      else
        FillingCounts(p.chunks, index, data);
        var next := Fill(p, index, data);
        if next.received != |p.chunks| then (t[k := next], Silent)
        else
          FullIsFilled(next.chunks);
          (t - {k}, Delivered(Joined(next.chunks)))
  }

  predicate Discards(e: Event, t: Table, k: Key)
    requires k in t
  {
    match e
    case PeerLost(peer) => k.peer == peer
    case FinishRequest(peer, request) => k.peer == peer && k.request == request
    case Expire(now) => Elapsed(now, t[k].started) >= EXPIRY
    case Start(_, _, _, _) => false
    case Chunk(_, _, _) => false
  }

  function Discarded(e: Event, t: Table): set<Key> {
    set k | k in t && Discards(e, t, k)
  }

  ghost function Step(t: Table, e: Event): (Table, Output)
    requires TableOk(t)
  {
    match e
    case Start(k, total, count, now) => StartStep(t, k, total, count, now)
    case Chunk(k, index, data) => ChunkStep(t, k, index, data)
    case _ => (t - Discarded(e, t), Silent)
  }

  // ----- Counting -----

  lemma {:induction false} FillingCounts(chunks: seq<Option<Bytes>>, index: nat, data: Bytes)
    requires index < |chunks| && chunks[index].None?
    ensures Filled(chunks[index := Some(data)]) == Filled(chunks) + 1
    decreases |chunks|
  {
    var last := |chunks| - 1;
    var next := chunks[index := Some(data)];
    if index < last {
      FillingCounts(chunks[..last], index, data);
      assert next[..last] == chunks[..last][index := Some(data)];
    } else {
      assert next[..last] == chunks[..last];
    }
  }

  lemma {:induction false} FilledIsBounded(chunks: seq<Option<Bytes>>)
    ensures Filled(chunks) <= |chunks|
    decreases |chunks|
  {
    if chunks != [] {
      FilledIsBounded(chunks[..|chunks| - 1]);
    }
  }

  /** The count reaches the length exactly when no chunk is missing. */
  lemma {:induction false} FullIsFilled(chunks: seq<Option<Bytes>>)
    ensures Filled(chunks) == |chunks| <==> forall c :: c in chunks ==> c.Some?
    decreases |chunks|
  {
    if chunks != [] {
      var last := |chunks| - 1;
      FilledIsBounded(chunks[..last]);
      FullIsFilled(chunks[..last]);
      assert chunks == chunks[..last] + [chunks[last]];
    }
  }

  lemma {:induction false} NothingFilled(chunks: seq<Option<Bytes>>)
    requires forall c :: c in chunks ==> c.None?
    ensures Filled(chunks) == 0
    decreases |chunks|
  {
    if chunks != [] {
      assert chunks[|chunks| - 1] in chunks;
      NothingFilled(chunks[..|chunks| - 1]);
    }
  }

  // ----- The table stays sound -----

  lemma FreshIsOk(total: nat, now: nat)
    requires 0 < total <= MAX_RECORD
    ensures PendingOk(Fresh(total, now))
  {
    NothingFilled(Fresh(total, now).chunks);
  }

  lemma FillingStaysOk(p: Pending, index: nat, data: Bytes)
    requires PendingOk(p) && index < |p.chunks| && p.chunks[index].None?
    requires |data| == PieceLength(p.total, |p.chunks|, index) && p.received + 1 != |p.chunks|
    ensures PendingOk(Fill(p, index, data))
  {
    FillingCounts(p.chunks, index, data);
    FilledIsBounded(p.chunks[index := Some(data)]);
  }

  lemma StartKeeps(t: Table, k: Key, total: nat, count: nat, now: nat)
    requires TableOk(t)
    ensures TableOk(StartStep(t, k, total, count, now).0)
  {
    if 0 < total <= MAX_RECORD && k !in t {
      FreshIsOk(total, now);
      BudgetWith(t, k, Fresh(total, now));
    }
  }

  lemma ChunkKeeps(t: Table, k: Key, index: nat, data: Bytes)
    requires TableOk(t)
    ensures TableOk(ChunkStep(t, k, index, data).0)
  {
    if k in t {
      var p := t[k];
      BudgetShrinks(t, {k});
      if index < |p.chunks| && |data| == PieceLength(p.total, |p.chunks|, index) && p.chunks[index].None? && p.received + 1 != |p.chunks| {
        FillingStaysOk(p, index, data);
        BudgetOfSame(t, k, Fill(p, index, data));
        assert t[k := Fill(p, index, data)].Keys == t.Keys;
        assert |t[k := Fill(p, index, data)]| == |t.Keys|;
      }
    }
  }

  /** Both limits hold after every event. */
  lemma StepKeeps(t: Table, e: Event)
    requires TableOk(t)
    ensures TableOk(Step(t, e).0)
  {
    match e
    case Start(k, total, count, now) => StartKeeps(t, k, total, count, now);
    case Chunk(k, index, data) => ChunkKeeps(t, k, index, data);
    case _ => BudgetShrinks(t, Discarded(e, t));
  }

  // ----- Refusals -----

  /** There is no room for a record of this length. */
  ghost predicate NoRoom(t: Table, total: nat) {
    |t| >= MAX_PENDING_RECORDS || Budget(t) + total > MAX_PENDING_BYTES
  }

  predicate WellSized(total: nat, count: nat) {
    0 < total <= MAX_RECORD && count * CHUNK >= total > (count - 1) * CHUNK
  }

  lemma ChunkCountIsExact(total: nat, count: nat)
    requires total > 0
    ensures count == ChunkCount(total) <==> count * CHUNK >= total > (count - 1) * CHUNK
  {
  }

  /** A start is refused exactly when it is malformed, contradicts the pending record of its key, or finds no room; a refused one changes nothing. */
  lemma StartIsRefused(t: Table, k: Key, total: nat, count: nat, now: nat)
    requires TableOk(t)
    ensures
      var (next, output) := Step(t, Start(k, total, count, now));
      && (output == Refused <==> !WellSized(total, count) || if k in t then t[k].total != total else NoRoom(t, total))
      && (output == Refused || k in t ==> next == t)
  {
    if total > 0 {
      ChunkCountIsExact(total, count);
    }
  }

  /**
   A chunk is refused exactly when it belongs to a pending record and lies outside it, has the wrong length
   or contradicts an earlier one. Only the wrong length ends the record.
   */
  lemma ChunkIsRefused(t: Table, k: Key, index: nat, data: Bytes)
    requires TableOk(t)
    ensures
      var (next, output) := Step(t, Chunk(k, index, data));
      && (output == Refused <==> k in t && (index >= |t[k].chunks| || Misfits(t[k], index, data) || Contradicts(t[k], index, data)))
      && (output == Refused ==> next == if k in t && index < |t[k].chunks| && Misfits(t[k], index, data) then t - {k} else t)
  {
  }

  predicate Misfits(p: Pending, index: nat, data: Bytes) {
    |data| != if index + 1 == |p.chunks| then p.total - CHUNK * (|p.chunks| - 1) else CHUNK
  }

  predicate Contradicts(p: Pending, index: nat, data: Bytes)
    requires index < |p.chunks|
  {
    p.chunks[index].Some? && p.chunks[index].value != data
  }

  /** A record's length and age are set by the start that was accepted for it and never change. */
  lemma AgeIsKept(t: Table, e: Event, k: Key)
    requires TableOk(t) && k in Step(t, e).0
    ensures k in t ==> Step(t, e).0[k].started == t[k].started && Step(t, e).0[k].total == t[k].total
    ensures k !in t ==>
              && e.Start? && e.key == k && Step(t, e).0[k].started == e.now && Step(t, e).0[k].total == e.total
              && forall c :: c in Step(t, e).0[k].chunks ==> c.None?
  {
  }
}
