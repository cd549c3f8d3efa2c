/**
 The clipboard transfer manager: one object whose maps are updated in place by announcements, range
 requests, chunks, cancellations and lost peers.
 */
module TransferManager {
  import opened Common
  import opened Manifest
  import opened TransferIndex
  import opened TransferLaws

  datatype Error =
    | UnknownOwner
    | UnknownAdapterTransfer
    | DuplicateOwner
    | DuplicateAdapterTransfer
    | UnknownUiId
    | UiIdExhausted
    | UnknownFile
    | UnknownRequest
    | DuplicateRequest
    | InvalidManifest
    | InvalidRange
    | Protocol
    | DigestMismatch

  datatype Outcome = Done | Refused(error: Error)

  /** Bytes handed to the plugin in answer to one of its range requests. */
  datatype Response = Response(offset: nat, data: Bytes, eof: bool)

  /** The id `n` places after `start`, where 1 follows the greatest id. */
  function Later(start: nat, n: nat): nat {
    if start + n <= U64_MAX then start + n else start + n - U64_MAX
  }

  /** Walking once around visits every id. */
  lemma EveryIdIsLater(start: nat, id: nat)
    requires 1 <= start <= U64_MAX && 1 <= id <= U64_MAX
    ensures exists n: nat :: n < U64_MAX && Later(start, n) == id
  {
    var n := if start <= id then id - start else id + U64_MAX - start;
    assert Later(start, n) == id;
  }

  /** Agreement does not depend on which id comes next. */
  lemma NextIdIsFree(s: State, next: nat)
    requires Consistent(s) && 1 <= next <= U64_MAX
    ensures Consistent(s.(nextUiId := next))
  {
    var t := s.(nextUiId := next);
    assert forall o :: Live(t, o) <==> Live(s, o);
    assert forall o :: Live(s, o) ==> UiIdOf(t, o) == UiIdOf(s, o) && AdapterOf(t, o) == AdapterOf(s, o);
    assert OffersConsistent(t);
    assert RangesConsistent(t);
  }

  /** What a fresh request for a range still awaits. */
  function Awaiting(range: Range): PendingRange {
    PendingRange(range, 0, [], [], false)
  }

  /** The chunk is the first one for the request and lies within it. */
  predicate ChunkFits(p: PendingRange, offset: nat, length: nat) {
    && !p.chunkSeen && offset == p.range.offset
    && 0 < length <= MAX_FILE_CHUNK && length <= p.range.length
    && offset + length <= MAX_TOTAL
  }

  function Filled(p: PendingRange, data: Bytes): PendingRange {
    p.(received := |data|, hashed := p.hashed + data, chunk := data, chunkSeen := true)
  }

  /** A range accepted by the validator of ranges is one the validator of chunks takes as well. */
  predicate ValidatorAccepts(fileId: nat, requestId: nat, range: Range) {
    && fileId != 0 && requestId != 0
    && range.offset <= MAX_TOTAL && 0 < range.length <= MAX_FILE_CHUNK
    && range.offset + range.length <= MAX_TOTAL
  }

  /** The one chunk of the request has come, and it does not end the file. */
  predicate Spent(s: State, k: RequestKey) {
    && k in s.pending && k.0 in s.remote && k.1 in s.remote[k.0].entries
    && s.pending[k].chunkSeen && s.pending[k].range.offset + |s.pending[k].chunk| != s.remote[k.0].entries[k.1].size
  }

  /** No chunk and no completion can answer such a request any more, and it stays until its transfer goes, */
  lemma SpentForGood(s: State, k: RequestKey, offset: nat, length: nat, gone: set<Owner>)
    requires Spent(s, k)
    ensures !ChunkFits(s.pending[k], offset, length)
    ensures Spent(RemoveAll(s, gone), k) <==> k.0 !in gone
  {
  }

  /** or its own file is cancelled; what happens to other files and requests does not matter. */
  lemma SpentUntilCancelled(s: State, k: RequestKey, o: Owner, f: nat, j: RequestKey, p: PendingRange)
    requires Spent(s, k) && j != k
    ensures Spent(CancelFile(s, o, f), k) <==> !(o == k.0 && f == k.1)
    ensures Spent(SetPending(s, j, p), k) && Spent(DropPending(s, j), k)
  {
  }

  predicate OffersFile(s: State, o: Owner, file: nat) {
    if o in s.local then exists e :: e in s.local[o].entries && e.fileId == file
    else o in s.remote && file in s.remote[o].entries
  }

  method FindEntry(entries: seq<Entry>, fileId: nat) returns (found: Option<Entry>)
    ensures found.Some? ==> found.value in entries && found.value.fileId == fileId
    ensures found.None? ==> forall e :: e in entries ==> e.fileId != fileId
  {
    var i := 0;
    while i < |entries|
      invariant 0 <= i <= |entries|
      invariant forall j :: 0 <= j < i ==> entries[j].fileId != fileId
    {
      if entries[i].fileId == fileId {
        return Some(entries[i]);
      }
      i := i + 1;
    }
    return None;
  }

  class TransferState {
    var nextUiId: nat
    var local: map<Owner, LocalTransfer>
    var remote: map<Owner, RemoteTransfer>
    var pending: map<RequestKey, PendingRange>
    var adapters: map<AdapterKey, set<Owner>>
    var sources: map<RequestKey, Range>
    var uiOwner: map<nat, Owner>

    ghost function View(): State
      reads this
    {
      State(nextUiId, local, remote, pending, adapters, sources, uiOwner)
    }

    ghost predicate Valid()
      reads this
    {
      Consistent(View())
    }

    constructor ()
      ensures Valid() && View() == EMPTY
    {
      nextUiId := 1;
      local, remote, pending, adapters, sources, uiOwner := map[], map[], map[], map[], map[], map[];
      new;
      NothingIsConsistent();
    }

    // ----- Ids -----

    /** Takes the first free id from `nextUiId` on, and gives up only when no id is free at all. */
    method AllocateUiId() returns (id: Option<nat>)
      requires 1 <= nextUiId <= U64_MAX
      modifies this`nextUiId
      ensures id.None? <==> forall i :: 1 <= i <= U64_MAX ==> i in uiOwner
      ensures id.None? ==> nextUiId == old(nextUiId)
      ensures id.Some? ==> 1 <= id.value <= U64_MAX && id.value !in uiOwner && nextUiId == Later(id.value, 1)
      ensures id.Some? ==> exists n: nat ::
        n < U64_MAX && id.value == Later(old(nextUiId), n) && forall m: nat :: m < n ==> Later(old(nextUiId), m) in uiOwner
    {
      var start := nextUiId;
      ghost var n := 0;
      while true
        invariant n < U64_MAX && nextUiId == Later(start, n) && 1 <= nextUiId <= U64_MAX
        invariant forall m: nat :: m < n ==> Later(start, m) in uiOwner
        decreases U64_MAX - n
      {
        var candidate := nextUiId;
        nextUiId := if nextUiId + 1 <= U64_MAX then nextUiId + 1 else 1;
        if candidate != 0 && candidate !in uiOwner {
          return Some(candidate);
        }
        n := n + 1;
        if nextUiId == start {
          assert n == U64_MAX;
          forall i | 1 <= i <= U64_MAX
            ensures i in uiOwner
          {
            EveryIdIsLater(start, i);
          }
          return None;
        }
      }
    }

    method InsertMapping(uiId: nat, o: Owner, adapter: AdapterKey)
      modifies this`uiOwner, this`adapters
      ensures View() == Mapped(old(View()), uiId, o, adapter)
    {
      uiOwner := uiOwner[uiId := o];
      var owners := if adapter in adapters then adapters[adapter] else {};
      adapters := adapters[adapter := owners + {o}];
    }

    // ----- Removal -----

    method RemoveOwner(o: Owner)
      requires Valid()
      modifies this
      ensures Valid() && View() == RemoveAll(old(View()), {o})
    {
      RemovalKeeps(View(), {o});
      Erase(o);
    }

    method Erase(o: Owner)
      requires local.Keys !! remote.Keys && UiExact(View())
      modifies this
      ensures View() == RemoveAll(old(View()), {o})
    {
      RemovalOfOne(View(), o);
      RemovalOfOneKey(View(), o);
      DropTransfer(o);
      DropTraces(o);
    }

    method DropTransfer(o: Owner)
      modifies this`local, this`remote, this`uiOwner
      ensures local == old(local) - {o} && remote == if o in old(local) then old(remote) else old(remote) - {o}
      ensures uiOwner == if Live(old(View()), o) then old(uiOwner) - {UiIdOf(old(View()), o)} else old(uiOwner)
    {
      var uiId := None;
      if o in local {
        uiId := Some(local[o].uiId);
        local := local - {o};
      } else if o in remote {
        uiId := Some(remote[o].uiId);
        remote := remote - {o};
      }
      if uiId.Some? {
        uiOwner := uiOwner - {uiId.value};
      }
    }

    method DropTraces(o: Owner)
      modifies this`adapters, this`pending, this`sources
      ensures adapters == WithoutName(old(adapters), o)
      ensures pending == WithoutOwner(old(pending), o)
      ensures sources == WithoutOwner(old(sources), o)
    {
      adapters := map k | k in adapters && adapters[k] - {o} != {} :: adapters[k] - {o};
      pending := map k | k in pending && k.0 != o :: pending[k];
      sources := map k | k in sources && k.0 != o :: sources[k];
    }

    /** Removes transfers one after the other, in whatever order they come. */
    method RemoveOwners(owners: set<Owner>)
      requires Valid()
      modifies this
      ensures Valid() && View() == RemoveAll(old(View()), owners)
    {
      var todo := owners;
      ghost var done: set<Owner> := {};
      RemovingNone(View());
      while todo != {}
        invariant done + todo == owners
        invariant View() == RemoveAll(old(View()), done)
        decreases todo
      {
        var o :| o in todo;
        RemoveAlso(old(View()), done, o);
        todo, done := todo - {o}, done + {o};
      }
      assert done == owners;
      RemovalKeeps(old(View()), owners);
    }

    /** Ends a transfer, or what one of its files has under way. */
    method CancelOwner(o: Owner, file: Option<nat>) returns (outcome: Outcome)
      requires Valid()
      modifies this
      ensures Valid()
      ensures !Live(old(View()), o) ==> outcome == Refused(UnknownOwner)
      ensures Live(old(View()), o) && file.Some? && !OffersFile(old(View()), o, file.value) ==> outcome == Refused(UnknownFile)
      ensures Live(old(View()), o) && (file.Some? ==> OffersFile(old(View()), o, file.value)) ==> outcome == Done
      ensures outcome.Refused? ==> View() == old(View())
      ensures outcome.Done? && file.None? ==> View() == RemoveAll(old(View()), {o})
      ensures outcome.Done? && file.Some? ==> View() == CancelFile(old(View()), o, file.value)
      ensures outcome.Done? && file.Some? ==> FileAtRest(old(View()), View(), o, file.value)
    {
      if o !in local && o !in remote {
        return Refused(UnknownOwner);
      }
      if file.None? {
        RemoveOwner(o);
        return Done;
      }
      if o in local {
        var found := FindEntry(local[o].entries, file.value);
        if found.None? {
          return Refused(UnknownFile);
        }
        assert OffersFile(View(), o, file.value);
      } else if file.value !in remote[o].entries {
        return Refused(UnknownFile);
      }
      CancelledFileIsAtRest(View(), o, file.value);
      EndFile(o, file.value);
      return Done;
    }

    method EndFile(o: Owner, file: nat)
      requires Valid()
      modifies this
      ensures Valid() && View() == CancelFile(old(View()), o, file)
    {
      FileCancellationKeeps(View(), o, file);
      DropFile(o, file);
    }

    method DropFile(o: Owner, file: nat)
      modifies this`local, this`pending, this`sources
      ensures View() == CancelFile(old(View()), o, file)
    {
      pending := map k | k in pending && !(k.0 == o && k.1 == file) :: pending[k];
      sources := map k | k in sources && !(k.0 == o && k.1 == file) :: sources[k];
      if o in local {
        var outgoing := set p | p in local[o].outgoing && p.0 != file;
        local := local[o := local[o].(outgoing := outgoing)];
      }
    }

    method CancelUi(uiId: nat, file: Option<nat>) returns (outcome: Outcome)
      requires Valid()
      modifies this
      ensures Valid()
      ensures uiId !in old(uiOwner) ==> outcome == Refused(UnknownUiId)
      ensures uiId in old(uiOwner) && file.None? ==> outcome == Done && View() == RemoveAll(old(View()), {old(uiOwner)[uiId]})
      ensures uiId in old(uiOwner) && file.Some? ==>
        outcome == if OffersFile(old(View()), old(uiOwner)[uiId], file.value) then Done else Refused(UnknownFile)
      ensures outcome.Done? && file.Some? ==> View() == CancelFile(old(View()), old(uiOwner)[uiId], file.value)
      ensures outcome.Refused? ==> View() == old(View())
    {
      if uiId !in uiOwner {
        return Refused(UnknownUiId);
      }
      outcome := CancelOwner(uiOwner[uiId], file);
    }

    method PeerLost(peer: Peer)
      requires Valid()
      modifies this
      ensures Valid()
      ensures View() == RemoveAll(old(View()), set o | o in old(local).Keys + old(remote).Keys && o.peer == peer)
      ensures forall o :: Live(View(), o) <==> Live(old(View()), o) && o.peer != peer
    {
      var owners := set o | o in local.Keys + remote.Keys && o.peer == peer;
      ghost var s := View();
      RemoveOwners(owners);
      Survivors(s, owners);
    }

    method AdapterLost(adapterId: string)
      requires Valid()
      modifies this
      ensures Valid()
      ensures View() == RemoveAll(old(View()), set k, o | k in old(adapters) && k.0 == adapterId && o in old(adapters)[k] :: o)
      ensures forall k :: k in adapters ==> k.0 != adapterId
    {
      var owners := set k, o | k in adapters && k.0 == adapterId && o in adapters[k] :: o;
      RemoveOwners(owners);
    }

    /** Completion, cancellation or unmounting by the plugin: every transfer under the name ends, and its interface id is reported. */
    method AdapterEnded(key: AdapterKey) returns (outcome: Outcome, ended: set<nat>)
      requires Valid()
      modifies this
      ensures Valid()
      ensures key !in old(adapters) ==> outcome == Refused(UnknownAdapterTransfer) && View() == old(View())
      ensures key in old(adapters) ==> outcome == Done && View() == RemoveAll(old(View()), old(adapters)[key])
      ensures ended == old(uiOwner).Keys - uiOwner.Keys
    {
      ended := {};
      if key !in adapters {
        return Refused(UnknownAdapterTransfer), {};
      }
      ended := EndAll(adapters[key]);
      UiIdsRemoved(old(View()), old(adapters)[key]);
      return Done, ended;
    }

    method EndAll(owners: set<Owner>) returns (ended: set<nat>)
      requires Valid() && forall o :: o in owners ==> Live(View(), o)
      modifies this
      ensures Valid() && View() == RemoveAll(old(View()), owners)
      ensures ended == UiIdsOf(old(View()), owners)
    {
      ended := {};
      var todo := owners;
      ghost var done: set<Owner> := {};
      RemovingNone(View());
      while todo != {}
        invariant todo == owners - done && done <= owners
        invariant View() == RemoveAll(old(View()), done)
        invariant ended == UiIdsOf(old(View()), done)
        decreases todo
      {
        var o :| o in todo;
        UiIdsGrow(old(View()), done, o);
        var uiId := EndOne(old(View()), done, o);
        ended := ended + {uiId};
        todo, done := todo - {o}, done + {o};
      }
      assert done == owners;
      RemovalKeeps(old(View()), owners);
    }

    method EndOne(ghost s: State, ghost done: set<Owner>, o: Owner) returns (uiId: nat)
      requires Consistent(s) && View() == RemoveAll(s, done) && Live(s, o) && o !in done
      modifies this
      ensures uiId == UiIdOf(s, o) && View() == RemoveAll(s, done + {o})
    {
      RemovalContinues(s, done, o);
      RemovalKeeps(s, done);
      uiId := if o in local then local[o].uiId else remote[o].uiId;
      RemoveOwner(o);
    }

    /** The plugin no longer holds the transfer: offers of this machine end, mounted ones lose only the name. */
    method AdapterReleases(key: AdapterKey) returns (outcome: Outcome)
      requires Valid()
      modifies this
      ensures Valid()
      ensures key !in old(adapters) ==> outcome == Refused(UnknownAdapterTransfer) && View() == old(View())
      ensures key in old(adapters) ==> outcome == Done && View() == AdapterReleased(old(View()), key)
      ensures remote == old(remote)
    {
      if key !in adapters {
        return Refused(UnknownAdapterTransfer);
      }
      ForgettingKeeps(View(), key);
      var owners := adapters[key];
      adapters := adapters - {key};
      RemoveLocalsAmong(owners);
      return Done;
    }

    method RemoveLocalsAmong(owners: set<Owner>)
      requires Valid()
      modifies this
      ensures Valid() && View() == RemoveAll(old(View()), owners * old(local).Keys) && remote == old(remote)
    {
      var todo := owners;
      ghost var done: set<Owner> := {};
      RemovingNone(View());
      while todo != {}
        invariant todo <= owners && done == (owners - todo) * old(local).Keys
        invariant View() == RemoveAll(old(View()), done)
        decreases todo
      {
        var o :| o in todo;
        if o !in remote && o in local {
          RemoveAlso(old(View()), done, o);
          done := done + {o};
        }
        todo := todo - {o};
      }
      assert done == owners * old(local).Keys;
      assert old(remote) - done == old(remote);
      RemovalKeeps(old(View()), done);
    }

    method RemoveAlso(ghost s: State, ghost done: set<Owner>, o: Owner)
      requires Consistent(s) && View() == RemoveAll(s, done)
      modifies this
      ensures View() == RemoveAll(s, done + {o})
    {
      RemovalKeeps(s, done);
      RemovalComposes(s, done, {o});
      RemoveOwner(o);
    }

    // ----- Announcements -----

    /** A new local copy: replaces what was offered to the peer and not yet read. */
    method LocalCopyManifest(o: Owner, offerId: nat, adapter: AdapterKey, entries: seq<Entry>, moves: bool) returns (outcome: Outcome)
      requires Valid()
      modifies this
      ensures Valid()
      ensures Live(old(View()), o) ==> outcome == Refused(DuplicateOwner)
      ensures !Live(old(View()), o) && (offerId != o.wireId || !WireManifestOk(entries) || moves) ==> outcome == Refused(InvalidManifest)
      ensures outcome.Done? ==> o in local
      ensures outcome.Done? ==>
        var (rest, id) := (RemoveAll(old(View()), Unread(old(local), o.peer)), local[o].uiId);
        Fresh(rest, id, o) && View() == AddLocal(rest, id, o, adapter, entries).(nextUiId := Later(id, 1))
      ensures outcome.Done? ==> OffersLocally(old(View()), View(), o, adapter, entries)
      ensures !Live(old(View()), o) && offerId == o.wireId && WireManifestOk(entries) && !moves ==>
        outcome == if Exhausted(old(View())) && Unread(old(local), o.peer) == {} then Refused(UiIdExhausted) else Done
      ensures outcome.Refused? ==> View() == old(View())
    {
      if o in local || o in remote {
        return Refused(DuplicateOwner);
      }
      if offerId != o.wireId {
        return Refused(InvalidManifest);
      }
      var sound := ValidateWireManifest(entries);
      if !sound || moves {
        return Refused(InvalidManifest);
      }
      outcome := ReplaceLocal(o, adapter, entries);
      if outcome.Done? {
        AddedLocally(old(View()), local[o].uiId, o, adapter, entries, nextUiId);
      }
    }

    method ReplaceLocal(o: Owner, adapter: AdapterKey, entries: seq<Entry>) returns (outcome: Outcome)
      requires Valid() && !Live(View(), o) && WireManifestOk(entries)
      modifies this
      ensures Valid()
      ensures outcome == if Exhausted(old(View())) && Unread(old(local), o.peer) == {} then Refused(UiIdExhausted) else Done
      ensures outcome.Done? ==> o in local
      ensures outcome.Done? ==>
        var (rest, id) := (RemoveAll(old(View()), Unread(old(local), o.peer)), local[o].uiId);
        Fresh(rest, id, o) && View() == AddLocal(rest, id, o, adapter, entries).(nextUiId := Later(id, 1))
      ensures outcome.Refused? ==> View() == old(View())
    {
      var superseded := set p | p in local && p.peer == o.peer && !local[p].announced;
      assert superseded == Unread(local, o.peer);
      RemovalFreesIds(View(), superseded);
      RemovingNone(View());
      RemoveOwners(superseded);
      outcome := InstallLocal(o, adapter, entries);
    }

    method InstallLocal(o: Owner, adapter: AdapterKey, entries: seq<Entry>) returns (outcome: Outcome)
      requires Valid() && !Live(View(), o) && WireManifestOk(entries)
      requires forall p :: p in local && p.peer == o.peer ==> local[p].announced
      modifies this
      ensures Valid()
      ensures outcome == if Exhausted(old(View())) then Refused(UiIdExhausted) else Done
      ensures outcome.Done? ==>
        && o in local && Fresh(old(View()), local[o].uiId, o)
        && View() == AddLocal(old(View()), local[o].uiId, o, adapter, entries).(nextUiId := Later(local[o].uiId, 1))
      ensures outcome.Refused? ==> View() == old(View())
    {
      ghost var s := View();
      var uiId := AllocateUiId();
      if uiId.None? {
        assert View() == s;
        return Refused(UiIdExhausted);
      }
      NextIdIsFree(s, nextUiId);
      AddingLocalKeeps(View(), uiId.value, o, adapter, entries);
      PutLocal(uiId.value, o, adapter, entries);
      return Done;
    }

    method PutLocal(uiId: nat, o: Owner, adapter: AdapterKey, entries: seq<Entry>)
      modifies this
      ensures View() == AddLocal(old(View()), uiId, o, adapter, entries)
    {
      InsertMapping(uiId, o, adapter);
      local := local[o := LocalTransfer(uiId, adapter, entries, {}, false)];
    }

    /** An offer from a peer: replaces every earlier one from it. */
    method InboundManifest(o: Owner, adapter: AdapterKey, entries: seq<Entry>, moves: bool) returns (outcome: Outcome)
      requires Valid()
      modifies this
      ensures Valid()
      ensures moves ==> outcome == Refused(InvalidManifest)
      ensures !moves && Live(old(View()), o) ==> outcome == Refused(DuplicateOwner)
      ensures !moves && !Live(old(View()), o) && adapter in old(adapters) ==> outcome == Refused(DuplicateAdapterTransfer)
      ensures !moves && !Live(old(View()), o) && adapter !in old(adapters) && !WireManifestOk(entries) ==>
        outcome == Refused(InvalidManifest)
      ensures outcome.Done? ==> o in remote
      ensures outcome.Done? ==>
        var (rest, id) := (RemoveAll(old(View()), OffersOf(old(remote), o.peer)), remote[o].uiId);
        Fresh(rest, id, o) && View() == AddRemote(rest, id, o, adapter, entries).(nextUiId := Later(id, 1))
      ensures outcome.Done? ==> OffersRemotely(old(View()), View(), o, adapter, entries)
      ensures !moves && !Live(old(View()), o) && adapter !in old(adapters) && WireManifestOk(entries) ==>
        outcome == if Exhausted(old(View())) && OffersOf(old(remote), o.peer) == {} then Refused(UiIdExhausted) else Done
      ensures outcome.Refused? ==> View() == old(View())
    {
      if moves {
        return Refused(InvalidManifest);
      }
      if o in local || o in remote {
        return Refused(DuplicateOwner);
      }
      if adapter in adapters {
        return Refused(DuplicateAdapterTransfer);
      }
      var sound := ValidateWireManifest(entries);
      if !sound {
        return Refused(InvalidManifest);
      }
      outcome := ReplaceRemote(o, adapter, entries);
      if outcome.Done? {
        AddedRemotely(old(View()), remote[o].uiId, o, adapter, entries, nextUiId);
      }
    }

    method ReplaceRemote(o: Owner, adapter: AdapterKey, entries: seq<Entry>) returns (outcome: Outcome)
      requires Valid() && !Live(View(), o) && WireManifestOk(entries)
      modifies this
      ensures Valid()
      ensures outcome == if Exhausted(old(View())) && OffersOf(old(remote), o.peer) == {} then Refused(UiIdExhausted) else Done
      ensures outcome.Done? ==> o in remote
      ensures outcome.Done? ==>
        var (rest, id) := (RemoveAll(old(View()), OffersOf(old(remote), o.peer)), remote[o].uiId);
        Fresh(rest, id, o) && View() == AddRemote(rest, id, o, adapter, entries).(nextUiId := Later(id, 1))
      ensures outcome.Refused? ==> View() == old(View())
    {
      var superseded := set p | p in remote && p.peer == o.peer;
      assert superseded == OffersOf(remote, o.peer);
      RemovalFreesIds(View(), superseded);
      RemovingNone(View());
      RemoveOwners(superseded);
      outcome := InstallRemote(o, adapter, entries);
    }

    method InstallRemote(o: Owner, adapter: AdapterKey, entries: seq<Entry>) returns (outcome: Outcome)
      requires Valid() && !Live(View(), o) && WireManifestOk(entries)
      requires forall p :: p in remote ==> p.peer != o.peer
      modifies this
      ensures Valid()
      ensures outcome == if Exhausted(old(View())) then Refused(UiIdExhausted) else Done
      ensures outcome.Done? ==>
        && o in remote && Fresh(old(View()), remote[o].uiId, o)
        && View() == AddRemote(old(View()), remote[o].uiId, o, adapter, entries).(nextUiId := Later(remote[o].uiId, 1))
      ensures outcome.Refused? ==> View() == old(View())
    {
      ghost var s := View();
      var uiId := AllocateUiId();
      if uiId.None? {
        assert View() == s;
        return Refused(UiIdExhausted);
      }
      NextIdIsFree(s, nextUiId);
      AddingRemoteKeeps(View(), uiId.value, o, adapter, entries);
      PutRemote(uiId.value, o, adapter, entries);
      return Done;
    }

    method PutRemote(uiId: nat, o: Owner, adapter: AdapterKey, entries: seq<Entry>)
      modifies this
      ensures View() == AddRemote(old(View()), uiId, o, adapter, entries)
    {
      InsertMapping(uiId, o, adapter);
      remote := remote[o := RemoteTransfer(uiId, adapter, ById(entries), false)];
    }

    // ----- Reading from a peer -----

    /** The plugin asks for a range; any owner under the name may be the one that answers. */
    method AdapterRangeRequest(key: AdapterKey, file: nat, request: nat, range: Range) returns (outcome: Outcome, owner: Option<Owner>)
      requires Valid()
      modifies this
      ensures Valid()
      ensures key !in old(adapters) ==> outcome == Refused(UnknownAdapterTransfer)
      ensures key in old(adapters) ==> owner.Some? && owner.value in old(adapters)[key]
      ensures key in old(adapters) && owner.value !in old(remote) ==> outcome == Refused(UnknownOwner)
      ensures key in old(adapters) && owner.value in old(remote) ==>
        var entries := old(remote)[owner.value].entries;
        && (file !in entries <==> outcome == Refused(UnknownFile))
        && (file in entries ==> (!RangeOfFile(entries[file], range) <==> outcome == Refused(InvalidRange)))
        && (file in entries && RangeOfFile(entries[file], range) ==>
          if (owner.value, file, request) in old(pending) then outcome == Refused(DuplicateRequest)
          else if request == 0 then outcome == Refused(Protocol)
          else outcome == Done)
      ensures outcome.Refused? ==> View() == old(View())
      ensures outcome.Done? ==>
        View() == RemoteAnnounced(SetPending(old(View()), (owner.value, file, request), Awaiting(range)), owner.value)
    {
      if key !in adapters {
        return Refused(UnknownAdapterTransfer), None;
      }
      var o :| o in adapters[key];
      owner := Some(o);
      if o !in remote {
        return Refused(UnknownOwner), owner;
      }
      var transfer := remote[o];
      if file !in transfer.entries {
        return Refused(UnknownFile), owner;
      }
      var entry := transfer.entries[file];
      assert IndexedOk(remote[o].entries, file);
      if entry.kind != File || !RangeOk(entry.size, range) {
        return Refused(InvalidRange), owner;
      }
      if (o, file, request) in pending {
        return Refused(DuplicateRequest), owner;
      }
      if !ValidatorAccepts(file, request, range) {
        return Refused(Protocol), owner;
      }
      AwaitRange((o, file, request), range);
      return Done, owner;
    }

    method AwaitRange(k: RequestKey, range: Range)
      requires Valid() && k.0 in remote && k.1 in remote[k.0].entries && RangeOfFile(remote[k.0].entries[k.1], range)
      modifies this
      ensures Valid() && View() == RemoteAnnounced(SetPending(old(View()), k, Awaiting(range)), k.0)
    {
      PendingKeeps(View(), k, Awaiting(range));
      AnnouncingRemoteKeeps(SetPending(View(), k, Awaiting(range)), k.0);
      pending := pending[k := Awaiting(range)];
      remote := remote[k.0 := remote[k.0].(announced := true)];
    }

    /**
     A chunk from the peer. One that stops short of both the request and the file's end is refused, yet
     the request has then used up its one chunk.
     */
    method InboundChunk(k: RequestKey, offset: nat, data: Bytes) returns (outcome: Outcome, response: Option<Response>)
      requires Valid()
      modifies this
      ensures Valid()
      ensures k !in old(pending) ==> outcome == Refused(UnknownRequest) && View() == old(View())
      ensures k in old(pending) && !ChunkFits(old(pending)[k], offset, |data|) ==> outcome == Refused(Protocol) && View() == old(View())
      ensures k in old(pending) && ChunkFits(old(pending)[k], offset, |data|) ==>
        var (p, size) := (old(pending)[k], old(remote)[k.0].entries[k.1].size);
        if offset + |data| == size then
          outcome == Done && response == None && View() == SetPending(old(View()), k, Filled(p, data))
        else if |data| != p.range.length then
          outcome == Refused(Protocol) && response == None && View() == SetPending(old(View()), k, Filled(p, data)) && Spent(View(), k)
        else
          outcome == Done && response == Some(Response(p.range.offset, data, false)) && View() == DropPending(old(View()), k)
    {
      response := None;
      if k !in pending {
        return Refused(UnknownRequest), None;
      }
      var p := pending[k];
      if !ChunkFits(p, offset, |data|) {
        return Refused(Protocol), None;
      }
      ghost var s := View();
      var size := remote[k.0].entries[k.1].size;
      pending := pending[k := Filled(p, data)];
      var end := offset + |data|;
      if end == size || |data| != p.range.length {
        PendingKeeps(s, k, Filled(p, data));
        return if end == size then Done else Refused(Protocol), None;
      }
      DroppingPendingKeeps(s, k);
      response := Some(Response(offset, pending[k].chunk, false));
      pending := pending - {k};
      assert pending == s.pending - {k};
      return Done, response;
    }

    /** The peer says the file ends here: the last bytes go on only if they end the file and carry the digest. */
    method InboundComplete<Digest(==)>(k: RequestKey, size: nat, digest: Digest, hash: Bytes -> Digest)
      returns (outcome: Outcome, response: Option<Response>)
      requires Valid()
      modifies this
      ensures Valid()
      ensures outcome.Done? <==>
        && k in old(pending) && size == old(remote)[k.0].entries[k.1].size
        && old(pending)[k].chunk != [] && old(pending)[k].range.offset + |old(pending)[k].chunk| == size
        && hash(old(pending)[k].chunk) == digest
      ensures outcome.Done? ==>
        && response == Some(Response(old(pending)[k].range.offset, old(pending)[k].chunk, true))
        && View() == DropPending(old(View()), k)
      ensures outcome.Refused? ==> response == None && View() == old(View())
      ensures Spent(old(View()), k) ==> outcome == Refused(Protocol)
      ensures !(k.0 in remote && k.1 in remote[k.0].entries) ==> outcome == Refused(UnknownFile)
      ensures k.0 in remote && k.1 in remote[k.0].entries && k !in old(pending) ==> outcome == Refused(UnknownRequest)
      ensures k in old(pending) && outcome.Refused? ==>
        var (p, expected) := (old(pending)[k], remote[k.0].entries[k.1].size);
        outcome == Refused(if p.chunk != [] && p.range.offset + |p.chunk| == expected == size then DigestMismatch else Protocol)
    {
      response := None;
      if k.0 !in remote || k.1 !in remote[k.0].entries {
        return Refused(UnknownFile), None;
      }
      var expected := remote[k.0].entries[k.1].size;
      if k !in pending {
        return Refused(UnknownRequest), None;
      }
      var p := pending[k];
      if p.received == 0 || p.range.offset + p.received != expected {
        return Refused(Protocol), None;
      }
      if size != expected {
        return Refused(Protocol), None;
      }
      if hash(p.hashed) != digest {
        return Refused(DigestMismatch), None;
      }
      DroppingPendingKeeps(View(), k);
      pending := pending - {k};
      return Done, Some(Response(p.range.offset, p.chunk, true));
    }

    // ----- Serving a peer -----

    method SourceFileRequest(k: RequestKey, range: Range) returns (outcome: Outcome)
      requires Valid()
      modifies this
      ensures Valid()
      ensures k.0 !in old(local) ==> outcome == Refused(UnknownOwner)
      ensures k.0 in old(local) && !OffersFile(old(View()), k.0, k.1) ==> outcome == Refused(UnknownFile)
      ensures k.0 in old(local) && OffersFile(old(View()), k.0, k.1) && !OfferedRange(old(local)[k.0].entries, k.1, range) ==>
        outcome == Refused(InvalidRange)
      ensures k.0 in old(local) && OfferedRange(old(local)[k.0].entries, k.1, range) ==>
        outcome == if k in old(sources) then Refused(DuplicateRequest) else Done
      ensures outcome.Refused? ==> View() == old(View())
      ensures outcome.Done? ==> View() == LocalAnnounced(Reserve(old(View()), k, range), k.0)
    {
      if k.0 !in local {
        return Refused(UnknownOwner);
      }
      var found := FindEntry(local[k.0].entries, k.1);
      if found.None? {
        return Refused(UnknownFile);
      }
      OneFileOfThisId(local[k.0].entries, found.value, range);
      if found.value.kind != File || !RangeOk(found.value.size, range) {
        return Refused(InvalidRange);
      }
      if k in sources {
        return Refused(DuplicateRequest);
      }
      ReserveSource(k, range);
      return Done;
    }

    method ReserveSource(k: RequestKey, range: Range)
      requires Valid() && k.0 in local && OfferedRange(local[k.0].entries, k.1, range)
      modifies this
      ensures Valid() && View() == LocalAnnounced(Reserve(old(View()), k, range), k.0)
    {
      ReservingKeeps(View(), k, range);
      AnnouncingLocalKeeps(Reserve(View(), k, range), k.0);
      MarkReserved(k, range);
    }

    method MarkReserved(k: RequestKey, range: Range)
      requires k.0 in local
      modifies this`sources, this`local
      ensures View() == LocalAnnounced(Reserve(old(View()), k, range), k.0)
    {
      sources := sources[k := range];
      local := local[k.0 := local[k.0].(announced := true)];
    }

    /** The source of a reserved range was opened; `fileId` is what the opened file says it is. */
    method InsertOutgoing(k: RequestKey, expected: Range, fileId: nat) returns (outcome: Outcome)
      requires Valid()
      modifies this`local
      ensures Valid()
      ensures outcome.Done? <==>
        && k.0 in old(local) && fileId == k.1 && (k.1, k.2) !in old(local)[k.0].outgoing
        && k in sources && sources[k] == expected
      ensures outcome.Done? ==> View() == Opened(old(View()), k)
      ensures outcome.Refused? ==> View() == old(View())
      ensures outcome.Refused? ==> outcome == Refused(
        if k.0 !in local then UnknownOwner else if fileId != k.1 then UnknownFile
        else if (k.1, k.2) in local[k.0].outgoing then DuplicateRequest
        else if k !in sources then UnknownRequest else InvalidRange)
    {
      if k.0 !in local {
        return Refused(UnknownOwner);
      }
      if fileId != k.1 {
        return Refused(UnknownFile);
      }
      if (k.1, k.2) in local[k.0].outgoing {
        return Refused(DuplicateRequest);
      }
      if k !in sources {
        return Refused(UnknownRequest);
      }
      if sources[k] != expected {
        return Refused(InvalidRange);
      }
      OpeningKeeps(View(), k);
      local := local[k.0 := local[k.0].(outgoing := local[k.0].outgoing + {(k.1, k.2)})];
      return Done;
    }

    /** Whether bytes read for a request may be sent: they start where it starts and do not go beyond it. */
    method SourceChunk(k: RequestKey, offset: nat, data: Bytes) returns (outcome: Outcome)
      requires Valid()
      ensures outcome.Done? ==>
        && k.0 in local && offset + |data| <= U64_MAX
        && exists e :: e in local[k.0].entries && e.fileId == k.1 && e.kind == File && offset + |data| <= e.size
      ensures outcome.Done? <==>
        && k.0 in local && (k.1, k.2) in local[k.0].outgoing
        && offset == sources[k].offset && 0 < |data| <= sources[k].length
      ensures outcome.Refused? ==> outcome == Refused(
        if k.0 !in local then UnknownOwner else if (k.1, k.2) !in local[k.0].outgoing then UnknownRequest else InvalidRange)
      ensures k.0 in local && (k.1, k.2) in local[k.0].outgoing ==> k in sources
    {
      if k.0 !in local {
        return Refused(UnknownOwner);
      }
      if (k.1, k.2) !in local[k.0].outgoing {
        return Refused(UnknownRequest);
      }
      assert k == (k.0, k.1, k.2) && k in sources;
      if offset != sources[k].offset || |data| > sources[k].length || data == [] || |data| > MAX_FILE_CHUNK {
        return Refused(InvalidRange);
      }
      return Done;
    }

    method SourceRangeServed(k: RequestKey)
      requires Valid()
      modifies this
      ensures Valid() && View() == Released(old(View()), k)
    {
      ReleasingKeeps(View(), k);
      Free(k);
    }

    method Free(k: RequestKey)
      modifies this`local, this`sources
      ensures View() == Released(old(View()), k)
    {
      if k.0 in local {
        local := local[k.0 := local[k.0].(outgoing := local[k.0].outgoing - {(k.1, k.2)})];
      }
      sources := sources - {k};
    }

    method SourceComplete(k: RequestKey) returns (outcome: Outcome)
      requires Valid()
      modifies this
      ensures Valid()
      ensures outcome ==
        if k.0 !in old(local) then Refused(UnknownOwner)
        else if (k.1, k.2) !in old(local)[k.0].outgoing then Refused(UnknownRequest) else Done
      ensures outcome.Done? ==> View() == Released(old(View()), k)
      ensures outcome.Refused? ==> View() == old(View())
    {
      if k.0 !in local {
        return Refused(UnknownOwner);
      }
      if (k.1, k.2) !in local[k.0].outgoing {
        return Refused(UnknownRequest);
      }
      ReleasingKeeps(View(), k);
      Free(k);
      return Done;
    }
  }

  lemma OneFileOfThisId(entries: seq<Entry>, e: Entry, range: Range)
    requires DistinctIds(entries) && e in entries
    ensures OfferedRange(entries, e.fileId, range) <==> RangeOfFile(e, range)
  {
    assert forall d :: d in entries && d.fileId == e.fileId ==> d == e;
  }
}
