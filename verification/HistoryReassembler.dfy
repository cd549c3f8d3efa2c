/** The object that reassembles history records, updated in place. */
module HistoryReassembler {
  import opened Common
  import opened HistoryRecords

  function SaturatingSub(a: nat, b: nat): nat {
    if a >= b then a - b else 0
  }

  class Reassembler {
    var records: Table
    var pendingBytes: nat

    /** The byte counter is exact, so subtracting from it never saturates. */
    ghost predicate Valid()
      reads this
    {
      TableOk(records) && pendingBytes == Budget(records)
    }

    constructor ()
      ensures Valid() && records == map[]
    {
      records, pendingBytes := map[], 0;
    }

    method Begin(k: Key, total: nat, count: nat, now: nat) returns (out: Output)
      requires Valid()
      modifies this
      ensures Valid() && (records, out) == StartStep(old(records), k, total, count, now)
    {
      StartKeeps(records, k, total, count, now);
      if total == 0 || total > MAX_RECORD {
        return Refused;
      }
      if count != ChunkCount(total) {
        return Refused;
      }
      if k in records {
        return if records[k].total == total && |records[k].chunks| == count then Silent else Refused;
      }
      if |records| >= MAX_PENDING_RECORDS || pendingBytes + total > MAX_PENDING_BYTES {
        return Refused;
      }
      BudgetWith(records, k, Fresh(total, now));
      pendingBytes := pendingBytes + total;
      records := records[k := Fresh(total, now)];
      return Silent;
    }

    method Receive(k: Key, index: nat, data: Bytes) returns (out: Output)
      requires Valid()
      modifies this
      ensures Valid() && (records, out) == ChunkStep(old(records), k, index, data)
    {
      if k !in records {
        return Silent;
      }
      ChunkKeeps(records, k, index, data);
      var p := records[k];
      var count := |p.chunks|;
      if index >= count {
        return Refused;
      }
      var expected := if index + 1 == count then p.total - CHUNK * (count - 1) else CHUNK;
      if |data| != expected {
        Remove(k);
        return Refused;
      }
      if p.chunks[index].Some? {
        return if p.chunks[index].value == data then Silent else Refused;
      }
      out := Fill(k, index, data);
    }

    /** A missing chunk of the right length arrives. */
    method Fill(k: Key, index: nat, data: Bytes) returns (out: Output)
      requires pendingBytes == Budget(records) && k in records && PendingOk(records[k])
      requires index < |records[k].chunks| && records[k].chunks[index].None?
      requires |data| == PieceLength(records[k].total, |records[k].chunks|, index)
      modifies this
      ensures pendingBytes == Budget(records) && (records, out) == ChunkStep(old(records), k, index, data)
    {
      var p := records[k];
      FillingCounts(p.chunks, index, data);
      var next := p.(chunks := p.chunks[index := Some(data)], received := p.received + 1);
      if next.received != |p.chunks| {
        BudgetOfSame(records, k, next);
        records := records[k := next];
        return Silent;
      }
      FullIsFilled(next.chunks);
      var bytes := Take(k, next.chunks);
      return Delivered(bytes);
    }

    method Take(k: Key, chunks: seq<Option<Bytes>>) returns (bytes: Bytes)
      requires pendingBytes == Budget(records) && k in records && forall c :: c in chunks ==> c.Some?
      modifies this
      ensures pendingBytes == Budget(records) && records == old(records) - {k} && bytes == Joined(chunks)
    {
      Remove(k);
      bytes := Join(chunks);
    }

    method Remove(k: Key)
      requires pendingBytes == Budget(records) && k in records
      modifies this
      ensures pendingBytes == Budget(records) && records == old(records) - {k}
    {
      BudgetWithout(records, k);
      pendingBytes := SaturatingSub(pendingBytes, records[k].total);
      records := records - {k};
    }

    static method Join(chunks: seq<Option<Bytes>>) returns (bytes: Bytes)
      requires forall c :: c in chunks ==> c.Some?
      ensures bytes == Joined(chunks)
    {
      bytes := [];
      var i := 0;
      while i < |chunks|
        invariant 0 <= i <= |chunks| && bytes == Joined(chunks[..i])
      {
        bytes := bytes + chunks[i].value;
        assert chunks[..i + 1][..i] == chunks[..i];
        i := i + 1;
      }
      assert chunks[..i] == chunks;
    }

    /** Drops records one by one, in whatever order they come. */
    method DropEach(gone: set<Key>) returns (discarded: nat)
      requires pendingBytes == Budget(records) && gone <= records.Keys
      modifies this
      ensures pendingBytes == Budget(records) && records == old(records) - gone && discarded == |gone|
      decreases gone
    {
      if gone == {} {
        return 0;
      }
      var k :| k in gone;
      DiscardingOneFirst(records, gone, k);
      Remove(k);
      discarded := DropEach(gone - {k});
      discarded := discarded + 1;
    }

    method Discard(gone: set<Key>) returns (discarded: nat)
      requires Valid() && gone <= records.Keys
      modifies this
      ensures Valid() && records == old(records) - gone && discarded == |gone|
    {
      BudgetShrinks(records, gone);
      discarded := DropEach(gone);
    }

    method LosePeer(peer: nat)
      requires Valid()
      modifies this
      ensures Valid() && records == Step(old(records), PeerLost(peer)).0
      ensures records == map k | k in old(records) && k.peer != peer :: old(records)[k]
    {
      var gone := set k | k in records && k.peer == peer;
      assert gone == Discarded(PeerLost(peer), records);
      var _ := Discard(gone);
    }

    method Finish(peer: nat, request: nat) returns (discarded: nat)
      requires Valid()
      modifies this
      ensures Valid() && records == Step(old(records), FinishRequest(peer, request)).0
      ensures records == map k | k in old(records) && !(k.peer == peer && k.request == request) :: old(records)[k]
      ensures discarded == |old(records)| - |records|
    {
      var gone := set k | k in records && k.peer == peer && k.request == request;
      assert gone == Discarded(FinishRequest(peer, request), records);
      DiscardedSize(records, gone);
      discarded := Discard(gone);
    }

    method ExpireOld(now: nat) returns (discarded: nat)
      requires Valid()
      modifies this
      ensures Valid() && records == Step(old(records), Expire(now)).0
      ensures records == map k | k in old(records) && now < old(records)[k].started + EXPIRY :: old(records)[k]
      ensures discarded == |old(records)| - |records|
    {
      var gone := set k | k in records && Elapsed(now, records[k].started) >= EXPIRY;
      assert gone == Discarded(Expire(now), records);
      DiscardedSize(records, gone);
      discarded := Discard(gone);
    }
  }

  lemma DiscardingOneFirst(t: Table, gone: set<Key>, k: Key)
    requires k in gone
    ensures t - {k} - (gone - {k}) == t - gone
  {
  }

  lemma DiscardedSize(t: Table, gone: set<Key>)
    requires gone <= t.Keys
    ensures |t - gone| == |t| - |gone|
  {
    assert (t - gone).Keys == t.Keys - gone;
    assert |t - gone| == |(t - gone).Keys|;
  }
}
