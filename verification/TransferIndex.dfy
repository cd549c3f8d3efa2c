/**
 The state of clipboard transfers as a value: six maps over the same transfers, what it means for them
 to agree, and the closed forms of the changes that operations make to them.
 */
module TransferIndex {
  import opened Common
  import opened Manifest

  const MAX_FILE_CHUNK: nat := 1167

  type Peer = nat

  datatype Owner = Owner(peer: Peer, wireId: nat)

  /** Plugin and the plugin's own name for a transfer. */
  type AdapterKey = (string, string)

  /** Owner, file and request. */
  type RequestKey = (Owner, nat, nat)

  datatype Range = Range(offset: nat, length: nat)

  datatype LocalTransfer = LocalTransfer(uiId: nat, adapter: AdapterKey, entries: seq<Entry>, outgoing: set<(nat, nat)>, announced: bool)

  datatype RemoteTransfer = RemoteTransfer(uiId: nat, adapter: AdapterKey, entries: map<nat, Entry>, announced: bool)

  datatype PendingRange = PendingRange(range: Range, received: nat, hashed: Bytes, chunk: Bytes, chunkSeen: bool)

  datatype State = State(
    nextUiId: nat,
    local: map<Owner, LocalTransfer>,
    remote: map<Owner, RemoteTransfer>,
    pending: map<RequestKey, PendingRange>,
    adapters: map<AdapterKey, set<Owner>>,
    sources: map<RequestKey, Range>,
    uiOwner: map<nat, Owner>)

  const EMPTY: State := State(1, map[], map[], map[], map[], map[], map[])

  predicate Live(s: State, o: Owner) {
    o in s.local || o in s.remote
  }

  function UiIdOf(s: State, o: Owner): nat
    requires Live(s, o)
  {
    if o in s.local then s.local[o].uiId else s.remote[o].uiId
  }

  function AdapterOf(s: State, o: Owner): AdapterKey
    requires Live(s, o)
  {
    if o in s.local then s.local[o].adapter else s.remote[o].adapter
  }

  /** A range of a file that one datagram can answer. */
  predicate RangeOk(size: nat, range: Range) {
    && 0 < range.length <= MAX_FILE_CHUNK
    && range.offset + range.length <= U64_MAX
    && range.offset + range.length <= size
  }

  predicate RangeOfFile(entry: Entry, range: Range) {
    entry.kind == File && RangeOk(entry.size, range)
  }

  /** The range lies in the offered file with this id. */
  ghost predicate OfferedRange(entries: seq<Entry>, fileId: nat, range: Range) {
    exists e :: e in entries && e.fileId == fileId && RangeOfFile(e, range)
  }

  // ----- Agreement of the six maps -----

  /** Interface ids and live transfers are in exact correspondence. */
  ghost predicate UiExact(s: State) {
    && 1 <= s.nextUiId <= U64_MAX
    && (forall o :: Live(s, o) ==> UiIdOf(s, o) in s.uiOwner && s.uiOwner[UiIdOf(s, o)] == o)
    && (forall id :: id in s.uiOwner ==> 1 <= id <= U64_MAX && Live(s, s.uiOwner[id]) && UiIdOf(s, s.uiOwner[id]) == id)
  }

  ghost predicate AdaptersExact(s: State) {
    forall k :: k in s.adapters ==> s.adapters[k] != {} && forall o :: o in s.adapters[k] ==> Live(s, o) && AdapterOf(s, o) == k
  }

  /** At most one chunk has arrived, it fits the request, and its bytes are what was hashed. */
  predicate ReceiptOk(p: PendingRange) {
    && p.received == |p.chunk| <= p.range.length
    && p.hashed == p.chunk
    && (p.chunkSeen <==> p.chunk != [])
  }

  ghost predicate PendingInside(s: State) {
    forall k :: k in s.pending ==>
      && k.0 in s.remote && k.1 in s.remote[k.0].entries
      && RangeOfFile(s.remote[k.0].entries[k.1], s.pending[k].range)
      && ReceiptOk(s.pending[k])
  }

  ghost predicate SourcesInside(s: State) {
    forall k :: k in s.sources ==> k.0 in s.local && OfferedRange(s.local[k.0].entries, k.1, s.sources[k])
  }

  ghost predicate OutgoingReserved(s: State) {
    forall o, f, r :: o in s.local && (f, r) in s.local[o].outgoing ==> (o, f, r) in s.sources
  }

  /** Per peer, one offer from it and one offer to it that it has not begun to read. */
  ghost predicate OnePerPeer(s: State) {
    && (forall a, b :: a in s.remote && b in s.remote && a.peer == b.peer ==> a == b)
    && (forall a, b :: a in s.local && b in s.local && a.peer == b.peer && !s.local[a].announced && !s.local[b].announced ==> a == b)
  }

  ghost predicate ManifestsOk(s: State) {
    && (forall o :: o in s.local ==> WireManifestOk(s.local[o].entries))
    && (forall o, f :: o in s.remote && f in s.remote[o].entries ==> IndexedOk(s.remote[o].entries, f))
  }

  predicate IndexedOk(entries: map<nat, Entry>, f: nat)
    requires f in entries
  {
    f != 0 && entries[f].fileId == f && entries[f].size <= MAX_TOTAL
  }

  ghost predicate OffersConsistent(s: State) {
    s.local.Keys !! s.remote.Keys && UiExact(s) && AdaptersExact(s) && OnePerPeer(s) && ManifestsOk(s)
  }

  ghost predicate RangesConsistent(s: State) {
    PendingInside(s) && SourcesInside(s) && OutgoingReserved(s)
  }

  ghost predicate Consistent(s: State) {
    OffersConsistent(s) && RangesConsistent(s)
  }

  lemma NothingIsConsistent()
    ensures Consistent(EMPTY)
  {
  }

  // ----- Changes that leave the offers alone -----

  /** Same transfers under the same names, possibly announced since. */
  ghost predicate SameOffers(s: State, t: State) {
    && t.local.Keys == s.local.Keys && t.remote.Keys == s.remote.Keys
    && t.nextUiId == s.nextUiId && t.uiOwner == s.uiOwner && t.adapters == s.adapters
    && (forall o :: o in s.local ==> SameLocal(s.local[o], t.local[o]))
    && (forall o :: o in s.remote ==> t.remote[o].(announced := s.remote[o].announced) == s.remote[o])
  }

  predicate SameLocal(a: LocalTransfer, b: LocalTransfer) {
    b.uiId == a.uiId && b.adapter == a.adapter && b.entries == a.entries && (a.announced ==> b.announced)
  }

  lemma SameOffersKeepIds(s: State, t: State)
    requires s.local.Keys !! s.remote.Keys && UiExact(s) && AdaptersExact(s) && SameOffers(s, t)
    ensures UiExact(t) && AdaptersExact(t)
  {
    assert forall o :: Live(t, o) <==> Live(s, o);
    assert forall o :: Live(s, o) ==> UiIdOf(t, o) == UiIdOf(s, o) && AdapterOf(t, o) == AdapterOf(s, o);
  }

  lemma SameOffersKeepPeers(s: State, t: State)
    requires OnePerPeer(s) && ManifestsOk(s) && SameOffers(s, t)
    ensures OnePerPeer(t) && ManifestsOk(t)
  {
    assert forall o :: o in t.local ==> o in s.local;
    assert forall o :: o in t.remote ==> o in s.remote && t.remote[o].entries == s.remote[o].entries;
  }

  lemma SameOffersStayConsistent(s: State, t: State)
    requires OffersConsistent(s) && SameOffers(s, t)
    ensures OffersConsistent(t)
  {
    SameOffersKeepIds(s, t);
    SameOffersKeepPeers(s, t);
  }

  /** Ranges may end, but not move. */
  ghost predicate NoNewRanges(s: State, t: State) {
    && (forall k :: k in t.pending ==> k in s.pending && t.pending[k] == s.pending[k])
    && (forall k :: k in t.sources ==> k in s.sources && t.sources[k] == s.sources[k])
  }

  lemma EndingRangesKeeps(s: State, t: State)
    requires Consistent(s) && SameOffers(s, t) && NoNewRanges(s, t) && OutgoingReserved(t)
    ensures Consistent(t)
  {
    SameOffersStayConsistent(s, t);
    forall k | k in t.pending
      ensures k.0 in t.remote && t.remote[k.0].entries == s.remote[k.0].entries
    {
      assert k in s.pending;
    }
    forall k | k in t.sources
      ensures k.0 in t.local && OfferedRange(t.local[k.0].entries, k.1, t.sources[k])
    {
      assert k in s.sources && SameLocal(s.local[k.0], t.local[k.0]);
    }
  }

  // ----- Removing transfers -----

  function RemoveAll(s: State, gone: set<Owner>): State {
    s.(local := s.local - gone,
       remote := s.remote - gone,
       uiOwner := map id | id in s.uiOwner && s.uiOwner[id] !in gone :: s.uiOwner[id],
       adapters := map k | k in s.adapters && s.adapters[k] - gone != {} :: s.adapters[k] - gone,
       pending := map k | k in s.pending && k.0 !in gone :: s.pending[k],
       sources := map k | k in s.sources && k.0 !in gone :: s.sources[k])
  }

  lemma Survivors(s: State, gone: set<Owner>)
    ensures var t := RemoveAll(s, gone); forall o :: Live(t, o) <==> Live(s, o) && o !in gone
    ensures
      var t := RemoveAll(s, gone);
      forall o :: Live(t, o) && s.local.Keys !! s.remote.Keys ==> UiIdOf(t, o) == UiIdOf(s, o) && AdapterOf(t, o) == AdapterOf(s, o)
  {
  }

  lemma RemovalKeepsUi(s: State, gone: set<Owner>)
    requires s.local.Keys !! s.remote.Keys && UiExact(s)
    ensures UiExact(RemoveAll(s, gone))
  {
    Survivors(s, gone);
  }

  lemma RemovalKeepsAdapters(s: State, gone: set<Owner>)
    requires s.local.Keys !! s.remote.Keys && AdaptersExact(s)
    ensures AdaptersExact(RemoveAll(s, gone))
  {
    Survivors(s, gone);
  }

  lemma RemovalKeepsPeers(s: State, gone: set<Owner>)
    requires OnePerPeer(s) && ManifestsOk(s)
    ensures var t := RemoveAll(s, gone); OnePerPeer(t) && ManifestsOk(t)
  {
  }

  lemma RemovalKeepsRanges(s: State, gone: set<Owner>)
    requires RangesConsistent(s)
    ensures RangesConsistent(RemoveAll(s, gone))
  {
    var t := RemoveAll(s, gone);
    assert PendingInside(t);
    assert SourcesInside(t);
  }

  lemma RemovalKeeps(s: State, gone: set<Owner>)
    requires Consistent(s)
    ensures Consistent(RemoveAll(s, gone))
  {
    RemovalKeepsUi(s, gone);
    RemovalKeepsAdapters(s, gone);
    RemovalKeepsPeers(s, gone);
    RemovalKeepsRanges(s, gone);
  }

  /** Removing one transfer, map by map. */
  lemma RemovalOfOne(s: State, o: Owner)
    requires s.local.Keys !! s.remote.Keys && UiExact(s)
    ensures
      var t := RemoveAll(s, {o});
      && t.local == s.local - {o} && t.remote == (if o in s.local then s.remote else s.remote - {o})
      && t.uiOwner == (if Live(s, o) then s.uiOwner - {UiIdOf(s, o)} else s.uiOwner)
  {
    var t := RemoveAll(s, {o});
    assert o in s.local ==> s.remote - {o} == s.remote;
    assert forall id :: id in s.uiOwner ==> (s.uiOwner[id] == o <==> Live(s, o) && id == UiIdOf(s, o));
    assert t.uiOwner == (if Live(s, o) then s.uiOwner - {UiIdOf(s, o)} else s.uiOwner);
  }

  function WithoutOwner<V>(ranges: map<RequestKey, V>, o: Owner): map<RequestKey, V> {
    map k | k in ranges && k.0 != o :: ranges[k]
  }

  function WithoutName(adapters: map<AdapterKey, set<Owner>>, o: Owner): map<AdapterKey, set<Owner>> {
    map k | k in adapters && adapters[k] - {o} != {} :: adapters[k] - {o}
  }

  /** Ranges and names left after one transfer is removed. */
  lemma RemovalOfOneKey(s: State, o: Owner)
    ensures
      var t := RemoveAll(s, {o});
      && t.pending == WithoutOwner(s.pending, o)
      && t.sources == WithoutOwner(s.sources, o)
      && t.adapters == WithoutName(s.adapters, o)
  {
  }

  /** Interface ids of the given transfers. */
  function UiIdsOf(s: State, owners: set<Owner>): set<nat> {
    set id | id in s.uiOwner && s.uiOwner[id] in owners
  }

  lemma UiIdsGrow(s: State, owners: set<Owner>, o: Owner)
    requires UiExact(s) && Live(s, o)
    ensures UiIdsOf(s, owners + {o}) == UiIdsOf(s, owners) + {UiIdOf(s, o)}
  {
  }

  /** The ids that disappear with the given transfers are theirs. */
  lemma UiIdsRemoved(s: State, owners: set<Owner>)
    ensures UiIdsOf(s, owners) == s.uiOwner.Keys - RemoveAll(s, owners).uiOwner.Keys
  {
  }

  lemma RemovalComposes(s: State, a: set<Owner>, b: set<Owner>)
    ensures RemoveAll(RemoveAll(s, a), b) == RemoveAll(s, a + b)
  {
    var one, two := RemoveAll(RemoveAll(s, a), b), RemoveAll(s, a + b);
    assert one.local == two.local && one.remote == two.remote;
    assert forall k :: k in s.adapters ==> s.adapters[k] - a - b == s.adapters[k] - (a + b);
    assert one.adapters == two.adapters;
  }

  /** One step of removing transfers one by one. */
  lemma RemovalContinues(s: State, done: set<Owner>, o: Owner)
    requires s.local.Keys !! s.remote.Keys && UiExact(s) && Live(s, o) && o !in done
    ensures var t := RemoveAll(s, done); Live(t, o) && UiIdOf(t, o) == UiIdOf(s, o)
    ensures RemoveAll(RemoveAll(s, done), {o}) == RemoveAll(s, done + {o})
  {
    Survivors(s, done);
    RemovalComposes(s, done, {o});
  }

  lemma RemovingNone(s: State)
    requires AdaptersExact(s)
    ensures RemoveAll(s, {}) == s
  {
    assert forall k :: k in s.adapters ==> s.adapters[k] - {} == s.adapters[k];
    assert RemoveAll(s, {}).adapters == s.adapters;
  }

  ghost predicate Exhausted(s: State) {
    forall id :: 1 <= id <= U64_MAX ==> id in s.uiOwner
  }

  /** A transfer that goes frees an id, so the ids can only be exhausted when nothing goes. */
  lemma RemovalFreesIds(s: State, gone: set<Owner>)
    requires UiExact(s) && AdaptersExact(s) && forall o :: o in gone ==> Live(s, o)
    ensures Exhausted(RemoveAll(s, gone)) <==> Exhausted(s) && gone == {}
  {
    if gone == {} {
      RemovingNone(s);
    } else {
      var o :| o in gone;
      assert UiIdOf(s, o) !in RemoveAll(s, gone).uiOwner;
    }
  }

  // ----- Ranges under way -----

  function WithOutgoing(s: State, o: Owner, outgoing: set<(nat, nat)>): State
    requires o in s.local
  {
    s.(local := s.local[o := s.local[o].(outgoing := outgoing)])
  }

  /** Ends everything one file of a transfer has under way. */
  function CancelFile(s: State, o: Owner, file: nat): State {
    var t := s.(pending := map k | k in s.pending && !(k.0 == o && k.1 == file) :: s.pending[k],
                sources := map k | k in s.sources && !(k.0 == o && k.1 == file) :: s.sources[k]);
    if o in s.local then WithOutgoing(t, o, set p | p in s.local[o].outgoing && p.0 != file) else t
  }

  lemma FileCancellationKeepsOffers(s: State, o: Owner, file: nat)
    ensures SameOffers(s, CancelFile(s, o, file))
  {
  }

  lemma FileCancellationEndsRanges(s: State, o: Owner, file: nat)
    ensures NoNewRanges(s, CancelFile(s, o, file))
  {
  }

  lemma FileCancellationKeepsOutgoing(s: State, o: Owner, file: nat)
    requires OutgoingReserved(s)
    ensures OutgoingReserved(CancelFile(s, o, file))
  {
  }

  lemma FileCancellationKeeps(s: State, o: Owner, file: nat)
    requires Consistent(s)
    ensures Consistent(CancelFile(s, o, file))
  {
    FileCancellationKeepsOffers(s, o, file);
    FileCancellationEndsRanges(s, o, file);
    FileCancellationKeepsOutgoing(s, o, file);
    EndingRangesKeeps(s, CancelFile(s, o, file));
  }

  /** The peer has begun to read what this machine offers. */
  function LocalAnnounced(s: State, o: Owner): State
    requires o in s.local
  {
    s.(local := s.local[o := s.local[o].(announced := true)])
  }

  function RemoteAnnounced(s: State, o: Owner): State
    requires o in s.remote
  {
    s.(remote := s.remote[o := s.remote[o].(announced := true)])
  }

  lemma AnnouncingLocalKeeps(s: State, o: Owner)
    requires Consistent(s) && o in s.local
    ensures Consistent(LocalAnnounced(s, o))
  {
    var t := LocalAnnounced(s, o);
    assert forall p :: p in s.local ==> SameLocal(s.local[p], t.local[p]) && t.local[p].outgoing == s.local[p].outgoing;
    assert OutgoingReserved(t);
    EndingRangesKeeps(s, t);
  }

  lemma AnnouncingRemoteKeeps(s: State, o: Owner)
    requires Consistent(s) && o in s.remote
    ensures Consistent(RemoteAnnounced(s, o))
  {
    EndingRangesKeeps(s, RemoteAnnounced(s, o));
  }

  function SetPending(s: State, k: RequestKey, p: PendingRange): State {
    s.(pending := s.pending[k := p])
  }

  function DropPending(s: State, k: RequestKey): State {
    s.(pending := s.pending - {k})
  }

  lemma PendingKeeps(s: State, k: RequestKey, p: PendingRange)
    requires Consistent(s) && k.0 in s.remote && k.1 in s.remote[k.0].entries
    requires RangeOfFile(s.remote[k.0].entries[k.1], p.range) && ReceiptOk(p)
    ensures Consistent(SetPending(s, k, p))
  {
    var t := SetPending(s, k, p);
    assert SameOffers(s, t);
    SameOffersStayConsistent(s, t);
    assert PendingInside(t);
  }

  lemma DroppingPendingKeeps(s: State, k: RequestKey)
    requires Consistent(s)
    ensures Consistent(DropPending(s, k))
  {
    SameOffersStayConsistent(s, DropPending(s, k));
  }

  function Reserve(s: State, k: RequestKey, range: Range): State {
    s.(sources := s.sources[k := range])
  }

  lemma ReservingKeeps(s: State, k: RequestKey, range: Range)
    requires Consistent(s) && k.0 in s.local && OfferedRange(s.local[k.0].entries, k.1, range)
    ensures Consistent(Reserve(s, k, range))
  {
    SameOffersStayConsistent(s, Reserve(s, k, range));
  }

  /** The source of a reserved range is open. */
  function Opened(s: State, k: RequestKey): State
    requires k.0 in s.local
  {
    WithOutgoing(s, k.0, s.local[k.0].outgoing + {(k.1, k.2)})
  }

  lemma OpeningKeepsOffers(s: State, k: RequestKey)
    requires k.0 in s.local
    ensures SameOffers(s, Opened(s, k)) && NoNewRanges(s, Opened(s, k))
  {
  }

  lemma OpeningKeepsOutgoing(s: State, k: RequestKey)
    requires OutgoingReserved(s) && k.0 in s.local && k in s.sources
    ensures OutgoingReserved(Opened(s, k))
  {
    assert k == (k.0, k.1, k.2);
  }

  lemma OpeningKeeps(s: State, k: RequestKey)
    requires Consistent(s) && k.0 in s.local && k in s.sources
    ensures Consistent(Opened(s, k))
  {
    OpeningKeepsOffers(s, k);
    OpeningKeepsOutgoing(s, k);
    EndingRangesKeeps(s, Opened(s, k));
  }

  /** The range is served: no open source and no reservation are left. */
  function Released(s: State, k: RequestKey): State {
    var t := s.(sources := s.sources - {k});
    if k.0 in s.local then WithOutgoing(t, k.0, s.local[k.0].outgoing - {(k.1, k.2)}) else t
  }

  lemma OutgoingIsNoOffer(s: State, o: Owner, outgoing: set<(nat, nat)>)
    requires o in s.local
    ensures SameOffers(s, WithOutgoing(s, o, outgoing))
  {
  }

  lemma ReleasingKeepsOffers(s: State, k: RequestKey)
    ensures SameOffers(s, Released(s, k))
  {
    if k.0 in s.local {
      OutgoingIsNoOffer(s.(sources := s.sources - {k}), k.0, s.local[k.0].outgoing - {(k.1, k.2)});
    }
  }

  lemma ReleasingEndsRanges(s: State, k: RequestKey)
    ensures NoNewRanges(s, Released(s, k))
  {
  }

  lemma ReleasingKeepsOutgoing(s: State, k: RequestKey)
    requires OutgoingReserved(s)
    ensures OutgoingReserved(Released(s, k))
  {
    assert k == (k.0, k.1, k.2);
  }

  lemma ReleasingKeeps(s: State, k: RequestKey)
    requires Consistent(s)
    ensures Consistent(Released(s, k))
  {
    ReleasingKeepsOffers(s, k);
    ReleasingEndsRanges(s, k);
    ReleasingKeepsOutgoing(s, k);
    EndingRangesKeeps(s, Released(s, k));
  }

  /** The plugin gave the transfer up: its key goes, and with it what this machine offers under that key. */
  function AdapterReleased(s: State, key: AdapterKey): State
    requires key in s.adapters
  {
    RemoveAll(s.(adapters := s.adapters - {key}), s.adapters[key] * s.local.Keys)
  }

  lemma ForgettingKeepsAdapters(s: State, key: AdapterKey)
    requires AdaptersExact(s)
    ensures AdaptersExact(s.(adapters := s.adapters - {key}))
  {
  }

  lemma ForgettingKeepsUi(s: State, key: AdapterKey)
    requires UiExact(s)
    ensures UiExact(s.(adapters := s.adapters - {key}))
  {
    var t := s.(adapters := s.adapters - {key});
    assert forall o :: Live(t, o) <==> Live(s, o);
    assert forall o :: Live(s, o) ==> UiIdOf(t, o) == UiIdOf(s, o);
  }

  lemma ForgettingKeeps(s: State, key: AdapterKey)
    requires Consistent(s)
    ensures Consistent(s.(adapters := s.adapters - {key}))
  {
    var t := s.(adapters := s.adapters - {key});
    ForgettingKeepsAdapters(s, key);
    ForgettingKeepsUi(s, key);
    assert OnePerPeer(t) && ManifestsOk(t) && RangesConsistent(t);
  }

  // ----- Adding transfers -----

  function Mapped(s: State, uiId: nat, o: Owner, adapter: AdapterKey): State {
    s.(uiOwner := s.uiOwner[uiId := o],
       adapters := s.adapters[adapter := (if adapter in s.adapters then s.adapters[adapter] else {}) + {o}])
  }

  function AddLocal(s: State, uiId: nat, o: Owner, adapter: AdapterKey, entries: seq<Entry>): State {
    Mapped(s, uiId, o, adapter).(local := s.local[o := LocalTransfer(uiId, adapter, entries, {}, false)])
  }

  function ById(entries: seq<Entry>): map<nat, Entry> {
    if entries == [] then map[]
    else ById(entries[..|entries| - 1])[entries[|entries| - 1].fileId := entries[|entries| - 1]]
  }

  function AddRemote(s: State, uiId: nat, o: Owner, adapter: AdapterKey, entries: seq<Entry>): State {
    Mapped(s, uiId, o, adapter).(remote := s.remote[o := RemoteTransfer(uiId, adapter, ById(entries), false)])
  }

  /** Looking a file up by its id finds it, and only what was offered. */
  lemma {:induction false} ByIdIsIndexed(entries: seq<Entry>)
    requires DistinctIds(entries)
    ensures forall f :: f in ById(entries) ==> ById(entries)[f] in entries && ById(entries)[f].fileId == f
    ensures forall e :: e in entries ==> e.fileId in ById(entries) && ById(entries)[e.fileId] == e
    decreases |entries|
  {
    if entries != [] {
      var before, last := entries[..|entries| - 1], entries[|entries| - 1];
      ByIdIsIndexed(before);
      assert entries == before + [last];
    }
  }

  lemma {:induction false} SizeWithinTotal(entries: seq<Entry>, i: nat)
    requires i < |entries|
    ensures entries[i].size <= Total(entries)
    decreases |entries|
  {
    if i < |entries| - 1 {
      SizeWithinTotal(entries[..|entries| - 1], i);
    }
  }

  lemma IndexIsOk(entries: seq<Entry>)
    requires WireManifestOk(entries)
    ensures forall f :: f in ById(entries) ==> IndexedOk(ById(entries), f)
  {
    ByIdIsIndexed(entries);
    forall f | f in ById(entries)
      ensures IndexedOk(ById(entries), f)
    {
      var i :| 0 <= i < |entries| && entries[i] == ById(entries)[f];
      SizeWithinTotal(entries, i);
    }
  }

  /** `t` has everything `s` has, and the new transfer `o`. */
  ghost predicate Adds(s: State, t: State, uiId: nat, o: Owner, adapter: AdapterKey) {
    && (forall p :: Live(t, p) <==> Live(s, p) || p == o)
    && (forall p :: Live(s, p) ==> UiIdOf(t, p) == UiIdOf(s, p) && AdapterOf(t, p) == AdapterOf(s, p))
    && UiIdOf(t, o) == uiId && AdapterOf(t, o) == adapter
  }

  ghost predicate Fresh(s: State, uiId: nat, o: Owner) {
    !Live(s, o) && uiId !in s.uiOwner && 1 <= uiId <= U64_MAX
  }

  lemma MappingKeepsUi(s: State, t: State, uiId: nat, o: Owner, adapter: AdapterKey)
    requires UiExact(s) && Fresh(s, uiId, o) && Adds(s, t, uiId, o, adapter)
    requires t.uiOwner == s.uiOwner[uiId := o] && t.nextUiId == s.nextUiId
    ensures UiExact(t)
  {
  }

  lemma MappingKeepsAdapters(s: State, t: State, uiId: nat, o: Owner, adapter: AdapterKey)
    requires AdaptersExact(s) && Fresh(s, uiId, o) && Adds(s, t, uiId, o, adapter)
    requires t.adapters == Mapped(s, uiId, o, adapter).adapters
    ensures AdaptersExact(t)
  {
  }

  lemma AddingLocalKeepsIds(s: State, uiId: nat, o: Owner, adapter: AdapterKey, entries: seq<Entry>)
    requires s.local.Keys !! s.remote.Keys && UiExact(s) && AdaptersExact(s) && Fresh(s, uiId, o)
    ensures var t := AddLocal(s, uiId, o, adapter, entries); UiExact(t) && AdaptersExact(t)
  {
    var t := AddLocal(s, uiId, o, adapter, entries);
    assert Adds(s, t, uiId, o, adapter);
    MappingKeepsUi(s, t, uiId, o, adapter);
    MappingKeepsAdapters(s, t, uiId, o, adapter);
  }

  lemma AddingLocalKeepsPeers(s: State, uiId: nat, o: Owner, adapter: AdapterKey, entries: seq<Entry>)
    requires OnePerPeer(s) && ManifestsOk(s) && WireManifestOk(entries)
    requires forall p :: p in s.local && p.peer == o.peer ==> s.local[p].announced
    ensures var t := AddLocal(s, uiId, o, adapter, entries); OnePerPeer(t) && ManifestsOk(t)
  {
    var t := AddLocal(s, uiId, o, adapter, entries);
    assert OnePerPeer(t);
    assert ManifestsOk(t);
  }

  lemma AddingLocalKeepsRanges(s: State, uiId: nat, o: Owner, adapter: AdapterKey, entries: seq<Entry>)
    requires RangesConsistent(s) && Fresh(s, uiId, o)
    ensures RangesConsistent(AddLocal(s, uiId, o, adapter, entries))
  {
    var t := AddLocal(s, uiId, o, adapter, entries);
    assert PendingInside(t);
    assert SourcesInside(t);
  }

  lemma AddingLocalKeeps(s: State, uiId: nat, o: Owner, adapter: AdapterKey, entries: seq<Entry>)
    requires Consistent(s) && Fresh(s, uiId, o) && WireManifestOk(entries)
    requires forall p :: p in s.local && p.peer == o.peer ==> s.local[p].announced
    ensures Consistent(AddLocal(s, uiId, o, adapter, entries))
  {
    AddingLocalKeepsIds(s, uiId, o, adapter, entries);
    AddingLocalKeepsPeers(s, uiId, o, adapter, entries);
    AddingLocalKeepsRanges(s, uiId, o, adapter, entries);
  }

  lemma AddingRemoteKeepsIds(s: State, uiId: nat, o: Owner, adapter: AdapterKey, entries: seq<Entry>)
    requires s.local.Keys !! s.remote.Keys && UiExact(s) && AdaptersExact(s) && Fresh(s, uiId, o)
    ensures var t := AddRemote(s, uiId, o, adapter, entries); UiExact(t) && AdaptersExact(t)
  {
    var t := AddRemote(s, uiId, o, adapter, entries);
    assert Adds(s, t, uiId, o, adapter);
    MappingKeepsUi(s, t, uiId, o, adapter);
    MappingKeepsAdapters(s, t, uiId, o, adapter);
  }

  lemma AddingRemoteKeepsPeers(s: State, uiId: nat, o: Owner, adapter: AdapterKey, entries: seq<Entry>)
    requires OnePerPeer(s) && ManifestsOk(s) && WireManifestOk(entries)
    requires forall p :: p in s.remote ==> p.peer != o.peer
    ensures var t := AddRemote(s, uiId, o, adapter, entries); OnePerPeer(t) && ManifestsOk(t)
  {
    var t := AddRemote(s, uiId, o, adapter, entries);
    assert OnePerPeer(t);
    IndexIsOk(entries);
    assert ManifestsOk(t);
  }

  lemma AddingRemoteKeepsRanges(s: State, uiId: nat, o: Owner, adapter: AdapterKey, entries: seq<Entry>)
    requires RangesConsistent(s) && Fresh(s, uiId, o)
    ensures RangesConsistent(AddRemote(s, uiId, o, adapter, entries))
  {
    var t := AddRemote(s, uiId, o, adapter, entries);
    assert PendingInside(t);
    assert SourcesInside(t);
  }

  lemma AddingRemoteKeeps(s: State, uiId: nat, o: Owner, adapter: AdapterKey, entries: seq<Entry>)
    requires Consistent(s) && Fresh(s, uiId, o) && WireManifestOk(entries)
    requires forall p :: p in s.remote ==> p.peer != o.peer
    ensures Consistent(AddRemote(s, uiId, o, adapter, entries))
  {
    AddingRemoteKeepsIds(s, uiId, o, adapter, entries);
    AddingRemoteKeepsPeers(s, uiId, o, adapter, entries);
    AddingRemoteKeepsRanges(s, uiId, o, adapter, entries);
  }
}
