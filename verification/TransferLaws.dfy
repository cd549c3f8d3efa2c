/**
 What a new offer, a served request and a cancelled file mean for the transfers around them, stated
 transfer by transfer, and how such changes follow one another.
 */
module TransferLaws {
  import opened Common
  import opened Manifest
  import opened TransferIndex

  function OffersOf(remote: map<Owner, RemoteTransfer>, peer: Peer): set<Owner> {
    set p | p in remote && p.peer == peer
  }

  /** Offers to a peer that it has not begun to read. */
  function Unread(local: map<Owner, LocalTransfer>, peer: Peer): set<Owner> {
    set p | p in local && p.peer == peer && !local[p].announced
  }

  /** `t` is `s` without the ranges of `gone`. */
  ghost predicate OnlyRangesOf(s: State, t: State, gone: set<Owner>) {
    && (forall k :: k in t.pending <==> k in s.pending && k.0 !in gone)
    && (forall k :: k in t.pending ==> t.pending[k] == s.pending[k])
    && (forall k :: k in t.sources <==> k in s.sources && k.0 !in gone)
    && (forall k :: k in t.sources ==> t.sources[k] == s.sources[k])
  }

  /** The interface and the plugin find the new transfer under the names given to it, and no other one is renamed. */
  ghost predicate Named(s: State, t: State, o: Owner, uiId: nat, adapter: AdapterKey, gone: set<Owner>) {
    && adapter in t.adapters && o in t.adapters[adapter]
    && (forall k, p :: k in t.adapters && p in t.adapters[k] && p != o ==> k in s.adapters && p in s.adapters[k])
    && (forall k, p :: k in s.adapters && p in s.adapters[k] && p !in gone ==> k in t.adapters && p in t.adapters[k])
    && uiId in t.uiOwner && t.uiOwner[uiId] == o && (uiId in s.uiOwner ==> s.uiOwner[uiId] in gone)
    && (forall id :: id in t.uiOwner && id != uiId ==> id in s.uiOwner && t.uiOwner[id] == s.uiOwner[id])
  }

  // ----- A new offer to a peer -----

  /** `o` is the one unread offer to its peer; what the peer has begun to read, and offers to others, are as before. */
  ghost predicate OneUnread(before: map<Owner, LocalTransfer>, after: map<Owner, LocalTransfer>, o: Owner, adapter: AdapterKey, entries: seq<Entry>) {
    && o in after
    && after[o].entries == entries && after[o].adapter == adapter && after[o].outgoing == {} && !after[o].announced
    && Unread(after, o.peer) == {o}
    && (forall p :: p != o ==> (p in after <==> p in before && (p.peer == o.peer ==> before[p].announced)))
    && (forall p :: p != o && p in after ==> after[p] == before[p])
  }

  ghost predicate OffersLocally(s: State, t: State, o: Owner, adapter: AdapterKey, entries: seq<Entry>) {
    && OneUnread(s.local, t.local, o, adapter, entries)
    && t.remote == s.remote
    && OnlyRangesOf(s, t, Unread(s.local, o.peer))
    && Named(s, t, o, t.local[o].uiId, adapter, Unread(s.local, o.peer))
  }

  lemma PutUnread(before: map<Owner, LocalTransfer>, o: Owner, uiId: nat, adapter: AdapterKey, entries: seq<Entry>)
    requires o !in before
    ensures
      OneUnread(before, (before - Unread(before, o.peer))[o := LocalTransfer(uiId, adapter, entries, {}, false)], o, adapter, entries)
  {
    var after := (before - Unread(before, o.peer))[o := LocalTransfer(uiId, adapter, entries, {}, false)];
    assert Unread(after, o.peer) == {o};
  }

  lemma RemovedRanges(s: State, t: State, gone: set<Owner>)
    requires t.pending == RemoveAll(s, gone).pending && t.sources == RemoveAll(s, gone).sources
    ensures OnlyRangesOf(s, t, gone)
  {
  }

  lemma MappedAdapters(s: State, uiId: nat, o: Owner, adapter: AdapterKey, gone: set<Owner>)
    ensures
      var t := Mapped(RemoveAll(s, gone), uiId, o, adapter).adapters;
      && (forall k, p :: k in t && p in t[k] && p != o ==> k in s.adapters && p in s.adapters[k])
      && (forall k, p :: k in s.adapters && p in s.adapters[k] && p !in gone ==> k in t && p in t[k])
  {
    var rest := RemoveAll(s, gone);
    var t := Mapped(rest, uiId, o, adapter).adapters;
    forall k, p | k in s.adapters && p in s.adapters[k] && p !in gone
      ensures k in t && p in t[k]
    {
      assert p in s.adapters[k] - gone;
      assert k in rest.adapters && p in rest.adapters[k];
    }
    forall k, p | k in t && p in t[k] && p != o
      ensures k in s.adapters && p in s.adapters[k]
    {
      assert k in rest.adapters && p in rest.adapters[k];
    }
  }

  lemma MappedNames(s: State, t: State, uiId: nat, o: Owner, adapter: AdapterKey, gone: set<Owner>)
    requires uiId !in RemoveAll(s, gone).uiOwner && t.uiOwner == RemoveAll(s, gone).uiOwner[uiId := o]
    requires t.adapters == Mapped(RemoveAll(s, gone), uiId, o, adapter).adapters
    ensures Named(s, t, o, uiId, adapter, gone)
  {
    MappedAdapters(s, uiId, o, adapter, gone);
  }

  lemma AddedLocally(s: State, uiId: nat, o: Owner, adapter: AdapterKey, entries: seq<Entry>, next: nat)
    requires s.local.Keys !! s.remote.Keys && UiExact(s) && AdaptersExact(s) && !Live(s, o)
    requires Fresh(RemoveAll(s, Unread(s.local, o.peer)), uiId, o)
    ensures
      var t := AddLocal(RemoveAll(s, Unread(s.local, o.peer)), uiId, o, adapter, entries).(nextUiId := next);
      OffersLocally(s, t, o, adapter, entries)
  {
    var gone := Unread(s.local, o.peer);
    var t := AddLocal(RemoveAll(s, gone), uiId, o, adapter, entries).(nextUiId := next);
    PutUnread(s.local, o, uiId, adapter, entries);
    assert s.remote - gone == s.remote;
    RemovedRanges(s, t, gone);
    MappedNames(s, t, uiId, o, adapter, gone);
  }

  /** A later offer to the same peer takes the place of one the peer has not begun to read, and of all it had under way. */
  lemma LaterOfferSupersedes(s: State, t: State, u: State, o: Owner, a: AdapterKey, old_: seq<Entry>,
                             p: Owner, b: AdapterKey, new_: seq<Entry>)
    requires OffersLocally(s, t, o, a, old_) && OffersLocally(t, u, p, b, new_) && o.peer == p.peer && o != p
    ensures o !in u.local && p in u.local && forall k :: k in u.sources ==> k.0 != o
  {
    assert o in Unread(t.local, o.peer);
  }

  /** Once the peer has asked for a range of it, an offer and the reserved range outlive later offers. */
  lemma ReadOfferStays(s: State, t: State, u: State, o: Owner, a: AdapterKey, old_: seq<Entry>, k: RequestKey, range: Range,
                       p: Owner, b: AdapterKey, new_: seq<Entry>)
    requires OffersLocally(s, t, o, a, old_) && k.0 == o && o != p
    requires OffersLocally(LocalAnnounced(Reserve(t, k, range), o), u, p, b, new_)
    ensures o in u.local && u.local[o] == t.local[o].(announced := true) && k in u.sources && u.sources[k] == range
  {
    var read := LocalAnnounced(Reserve(t, k, range), o);
    assert o !in Unread(read.local, p.peer);
  }

  // ----- A new offer from a peer -----

  /** `o` is the one offer from its peer, with exactly the files listed; offers from others are as before. */
  ghost predicate OneOffer(before: map<Owner, RemoteTransfer>, after: map<Owner, RemoteTransfer>, o: Owner, adapter: AdapterKey, entries: seq<Entry>) {
    && o in after
    && (forall e :: e in entries ==> e.fileId in after[o].entries && after[o].entries[e.fileId] == e)
    && (forall f :: f in after[o].entries ==> after[o].entries[f] in entries)
    && after[o].adapter == adapter && !after[o].announced
    && (forall p :: p != o ==> (p in after <==> p in before && p.peer != o.peer))
    && (forall p :: p != o && p in after ==> after[p] == before[p])
  }

  ghost predicate OffersRemotely(s: State, t: State, o: Owner, adapter: AdapterKey, entries: seq<Entry>) {
    && OneOffer(s.remote, t.remote, o, adapter, entries)
    && t.local == s.local
    && OnlyRangesOf(s, t, OffersOf(s.remote, o.peer))
    && Named(s, t, o, t.remote[o].uiId, adapter, OffersOf(s.remote, o.peer))
  }

  lemma PutOffer(before: map<Owner, RemoteTransfer>, o: Owner, uiId: nat, adapter: AdapterKey, entries: seq<Entry>)
    requires DistinctIds(entries)
    ensures
      OneOffer(before, (before - OffersOf(before, o.peer))[o := RemoteTransfer(uiId, adapter, ById(entries), false)], o, adapter, entries)
  {
    ByIdIsIndexed(entries);
  }

  lemma AddedRemotely(s: State, uiId: nat, o: Owner, adapter: AdapterKey, entries: seq<Entry>, next: nat)
    requires s.local.Keys !! s.remote.Keys && UiExact(s) && AdaptersExact(s) && !Live(s, o) && DistinctIds(entries)
    requires Fresh(RemoveAll(s, OffersOf(s.remote, o.peer)), uiId, o)
    ensures
      var t := AddRemote(RemoveAll(s, OffersOf(s.remote, o.peer)), uiId, o, adapter, entries).(nextUiId := next);
      OffersRemotely(s, t, o, adapter, entries)
  {
    var gone := OffersOf(s.remote, o.peer);
    var t := AddRemote(RemoveAll(s, gone), uiId, o, adapter, entries).(nextUiId := next);
    PutOffer(s.remote, o, uiId, adapter, entries);
    assert s.local - gone == s.local;
    RemovedRanges(s, t, gone);
    MappedNames(s, t, uiId, o, adapter, gone);
  }

  // ----- Requests leave no trace -----

  /** Reserving, opening and releasing a range leaves only the mark that the offer was read. */
  lemma ServingLeavesNoTrace(s: State, k: RequestKey, range: Range)
    requires OutgoingReserved(s) && k.0 in s.local && k !in s.sources
    ensures
      Released(Opened(LocalAnnounced(Reserve(s, k, range), k.0), k), k) ==
        s.(local := s.local[k.0 := s.local[k.0].(announced := true)])
  {
    assert k == (k.0, k.1, k.2);
    var transfer := s.local[k.0];
    assert (k.1, k.2) !in transfer.outgoing;
    assert transfer.outgoing + {(k.1, k.2)} - {(k.1, k.2)} == transfer.outgoing;
    var reading := Opened(LocalAnnounced(Reserve(s, k, range), k.0), k);
    assert reading.local == s.local[k.0 := transfer.(announced := true, outgoing := transfer.outgoing + {(k.1, k.2)})];
    assert reading.sources - {k} == s.sources;
    assert Released(reading, k).local == s.local[k.0 := transfer.(announced := true)];
  }

  /** Asking for a range and having it answered leaves only the mark that the offer was read. */
  lemma ReadingLeavesNoTrace(s: State, k: RequestKey, p: PendingRange)
    requires k.0 in s.remote && k !in s.pending
    ensures
      DropPending(RemoteAnnounced(SetPending(s, k, p), k.0), k) ==
        s.(remote := s.remote[k.0 := s.remote[k.0].(announced := true)])
  {
    assert s.pending[k := p] - {k} == s.pending;
  }

  /** The ranges of the file are gone, and only they. */
  ghost predicate OnlyRangesOfFile<V>(before: map<RequestKey, V>, after: map<RequestKey, V>, o: Owner, file: nat) {
    && (forall k :: k in after <==> k in before && !(k.0 == o && k.1 == file))
    && (forall k :: k in after ==> after[k] == before[k])
  }

  /** No source of the file is open; every other one is as before. */
  ghost predicate FileClosed(before: map<Owner, LocalTransfer>, after: map<Owner, LocalTransfer>, o: Owner, file: nat) {
    && after.Keys == before.Keys
    && (forall p :: p in after ==> after[p] == before[p].(outgoing := after[p].outgoing))
    && (forall p :: p in after && p != o ==> after[p] == before[p])
    && (forall x :: o in after ==> (x in after[o].outgoing <==> x in before[o].outgoing && x.0 != file))
  }

  /** Nothing of the file is under way; everything else is as before. */
  ghost predicate FileAtRest(s: State, t: State, o: Owner, file: nat) {
    && OnlyRangesOfFile(s.pending, t.pending, o, file) && OnlyRangesOfFile(s.sources, t.sources, o, file)
    && FileClosed(s.local, t.local, o, file)
    && t.remote == s.remote && t.uiOwner == s.uiOwner && t.adapters == s.adapters
  }

  lemma FileIsClosed(before: map<Owner, LocalTransfer>, o: Owner, file: nat)
    requires o in before
    ensures
      FileClosed(before, before[o := before[o].(outgoing := set p | p in before[o].outgoing && p.0 != file)], o, file)
  {
  }

  lemma CancelledFileIsAtRest(s: State, o: Owner, file: nat)
    ensures FileAtRest(s, CancelFile(s, o, file), o, file)
  {
    if o in s.local {
      FileIsClosed(s.local, o, file);
    }
  }
}
