/**
 The table of manual transfers: a map of records and a queue of the settled ones, both bounded.
 */
module ManualTable {
  import opened Common
  import opened ManualRecord

  const MAX_RECORDS: nat := 32
  const MAX_TERMINAL: nat := 100
  const MAX_DRAWS: nat := 16

  type Key = (string, nat)

  type Records = map<Key, Record>

  function KeyOf(r: Record): Key {
    (r.fingerprint, r.id)
  }

  function ActiveKeys(records: Records): set<Key> {
    set k | k in records && !IsTerminal(records[k].phase)
  }

  predicate Distinct(keys: seq<Key>) {
    forall i, j :: 0 <= i < j < |keys| ==> keys[i] != keys[j]
  }

  /** Both bounds hold, and the queue lists exactly the settled records, each once. */
  ghost predicate Sound(records: Records, terminal: seq<Key>) {
    && (forall k :: k in records ==> KeyOf(records[k]) == k && records[k].retries <= MAX_RETRIES)
    && Exact(records, terminal)
    && |terminal| <= MAX_TERMINAL
    && |ActiveKeys(records)| <= MAX_RECORDS
  }

  /** The queue once `r` is stored, before the oldest entries are dropped. */
  function Queued(terminal: seq<Key>, r: Record): seq<Key> {
    if IsTerminal(r.phase) && KeyOf(r) !in terminal then terminal + [KeyOf(r)] else terminal
  }

  function Excess(queue: seq<Key>): nat {
    if |queue| > MAX_TERMINAL then |queue| - MAX_TERMINAL else 0
  }

  function StoredTerminal(terminal: seq<Key>, r: Record): seq<Key> {
    var queue := Queued(terminal, r);
    queue[Excess(queue)..]
  }

  function StoredRecords(records: Records, terminal: seq<Key>, r: Record): Records {
    var queue := Queued(terminal, r);
    records[KeyOf(r) := r] - (set k | k in queue[..Excess(queue)])
  }

  lemma ActiveAfter(records: Records, r: Record)
    ensures ActiveKeys(records[KeyOf(r) := r]) ==
            if IsTerminal(r.phase) then ActiveKeys(records) - {KeyOf(r)} else ActiveKeys(records) + {KeyOf(r)}
  {
  }

  /** `r` may take its place in the table: it continues its own record, or there is room for it. */
  ghost predicate Admissible(records: Records, r: Record) {
    && r.retries <= MAX_RETRIES
    && if KeyOf(r) in records then
         IsTerminal(records[KeyOf(r)].phase) ==> IsTerminal(r.phase)
       else
         IsTerminal(r.phase) || |ActiveKeys(records)| < MAX_RECORDS
  }

  /** The queue lists exactly the settled records, each once. */
  ghost predicate Exact(records: Records, terminal: seq<Key>) {
    && Distinct(terminal)
    && forall k :: k in terminal <==> k in records && IsTerminal(records[k].phase)
  }

  lemma QueueingIsExact(records: Records, terminal: seq<Key>, r: Record)
    requires Exact(records, terminal) && |terminal| <= MAX_TERMINAL
    requires KeyOf(r) in records && IsTerminal(records[KeyOf(r)].phase) ==> IsTerminal(r.phase)
    ensures Exact(records[KeyOf(r) := r], Queued(terminal, r))
    ensures Excess(Queued(terminal, r)) <= 1
    ensures Excess(Queued(terminal, r)) == 1 ==> Queued(terminal, r)[0] != KeyOf(r)
  {
    var queue := Queued(terminal, r);
    assert forall k :: k in queue <==> k in terminal || (IsTerminal(r.phase) && k == KeyOf(r));
  }

  lemma DroppingIsExact(records: Records, queue: seq<Key>, n: nat)
    requires Exact(records, queue) && n <= |queue|
    ensures
      var kept := records - (set k | k in queue[..n]);
      Exact(kept, queue[n..]) && ActiveKeys(kept) == ActiveKeys(records)
  {
    var kept := records - (set k | k in queue[..n]);
    assert queue == queue[..n] + queue[n..];
  }

  lemma ActiveStaysBounded(records: Records, r: Record)
    requires Admissible(records, r) && |ActiveKeys(records)| <= MAX_RECORDS
    ensures |ActiveKeys(records[KeyOf(r) := r])| <= MAX_RECORDS
  {
    var after := ActiveKeys(records[KeyOf(r) := r]);
    ActiveAfter(records, r);
    if IsTerminal(r.phase) || KeyOf(r) in records {
      assert after <= ActiveKeys(records);
      Smaller(after, ActiveKeys(records));
    }
  }

  /** Storing keeps the table sound; only the oldest settled records can fall out. */
  lemma StoringKeeps(records: Records, terminal: seq<Key>, r: Record)
    requires Sound(records, terminal) && Admissible(records, r)
    ensures Sound(StoredRecords(records, terminal, r), StoredTerminal(terminal, r))
    ensures forall k :: k in records && !IsTerminal(records[k].phase) && k != KeyOf(r) ==>
                          k in StoredRecords(records, terminal, r) && StoredRecords(records, terminal, r)[k] == records[k]
    ensures KeyOf(r) in StoredRecords(records, terminal, r)
  {
    var queue := Queued(terminal, r);
    QueueingIsExact(records, terminal, r);
    DroppingIsExact(records[KeyOf(r) := r], queue, Excess(queue));
    ActiveStaysBounded(records, r);
  }

  lemma {:induction false} Smaller<T>(a: set<T>, b: set<T>)
    requires a <= b
    ensures |a| <= |b|
    decreases a
  {
    if a != {} {
      var x :| x in a;
      Smaller(a - {x}, b - {x});
    }
  }

  /** What a sweep over the whole table does to each record. */
  datatype Sweep = Ticking(now: nat) | Routing(routes: map<string, Peer>, now: nat)

  function SweepOne(sweep: Sweep, r: Record): Step {
    match sweep
    case Ticking(now) => TickRecord(r, now)
    case Routing(routes, now) => Reroute(r, if r.fingerprint in routes then Some(routes[r.fingerprint]) else None, now)
  }

  /** A sweep under way: the records still in `keys` are untouched, the others changed; what fell out had settled. */
  ghost predicate Swept(before: Records, records: Records, keys: set<Key>, sweep: Sweep) {
    && records.Keys <= before.Keys
    && (forall k :: k in records ==> records[k] == if k in keys then before[k] else SweepOne(sweep, before[k]).record)
    && forall k :: k in before && k !in records ==> IsTerminal(SweepOne(sweep, before[k]).record.phase)
  }

  lemma SweepSettles(sweep: Sweep, r: Record)
    ensures
      var next := SweepOne(sweep, r).record;
      && KeyOf(next) == KeyOf(r) && (IsTerminal(r.phase) ==> IsTerminal(next.phase))
      && (r.retries <= MAX_RETRIES ==> next.retries <= MAX_RETRIES)
  {
    match sweep
    case Ticking(now) => CommonOperationsEvolve(r, None, now);
    case Routing(routes, now) =>
      CommonOperationsEvolve(r, if r.fingerprint in routes then Some(routes[r.fingerprint]) else None, now);
  }

  lemma SweepStep(before: Records, records: Records, terminal: seq<Key>, keys: set<Key>, key: Key, sweep: Sweep, next: Record)
    requires Sound(records, terminal) && Swept(before, records, keys + {key}, sweep)
    requires key in records && key !in keys && next == SweepOne(sweep, records[key]).record
    ensures Admissible(records, next) && KeyOf(next) == key
    ensures Swept(before, StoredRecords(records, terminal, next), keys, sweep)
    ensures key in StoredRecords(records, terminal, next)
  {
    SweepSettles(sweep, records[key]);
    var queue := Queued(terminal, next);
    var kept := StoredRecords(records, terminal, next);
    StoringKeeps(records, terminal, next);
    forall k | k in before && k !in kept
      ensures IsTerminal(SweepOne(sweep, before[k]).record.phase)
    {
      if k in records && k != key {
        assert IsTerminal(records[k].phase);
        SweepSettles(sweep, before[k]);
      }
    }
  }

  lemma PrefixGrows(queue: seq<Key>, n: nat)
    requires n < |queue|
    ensures queue[..n + 1] == queue[..n] + [queue[n]]
  {
  }

  predicate IsFree(records: Records, id: nat) {
    id != 0 && forall k :: k in records ==> k.1 != id
  }

  ghost predicate NoneFree(records: Records, draws: seq<nat>) {
    forall i :: 0 <= i < |draws| && i < MAX_DRAWS ==> !IsFree(records, draws[i])
  }

  /** One offer for each regular file, in order. */
  function OffersFor(files: seq<SourceFile>): seq<Message> {
    if files == [] then []
    else
      var last := files[|files| - 1];
      OffersFor(files[..|files| - 1]) + if last.regular then [Offer(last.name, last.size)] else []
  }

  ghost predicate SentFor(sent: seq<(nat, Message)>, files: seq<SourceFile>) {
    |sent| == |OffersFor(files)| && forall i :: 0 <= i < |sent| ==> sent[i].1 == OffersFor(files)[i]
  }

  lemma SentForMore(files: seq<SourceFile>, n: nat)
    requires n < |files|
    ensures OffersFor(files[..n + 1]) == OffersFor(files[..n]) + if files[n].regular then [Offer(files[n].name, files[n].size)] else []
  {
    assert files[..n + 1][..n] == files[..n];
  }

  /** Only the record under this key is new, and the others are as they were. */
  ghost predicate Added(before: Records, after: Records, key: Key) {
    key !in before && key in after && forall k :: k in before ==> k in after && after[k] == before[k]
  }

  /** No earlier draw would do. */
  ghost predicate FirstFree(records: Records, draws: seq<nat>, i: nat)
    requires i < |draws|
  {
    IsFree(records, draws[i]) && forall j :: 0 <= j < i ==> !IsFree(records, draws[j])
  }

  /** The offer was sent under a new identifier, and a fresh sender record waits for its answer. */
  predicate OfferedAs(before: Records, after: Records, peer: Peer, fingerprint: string, now: nat, sent: (nat, Message)) {
    var (id, offer) := sent;
    && id != 0 && (fingerprint, id) !in before
    && offer.Offer? && (fingerprint, id) in after
    && after[(fingerprint, id)] == NewSender(peer, fingerprint, id, offer.name, offer.size, now)
  }

  /** Everything sent is on record, and what was on record before still is. */
  ghost predicate AllOffered(before: Records, after: Records, peer: Peer, fingerprint: string, now: nat, sent: seq<(nat, Message)>) {
    && (forall i :: 0 <= i < |sent| ==> OfferedAs(before, after, peer, fingerprint, now, sent[i]))
    && forall k :: k in before ==> k in after && after[k] == before[k]
  }

  lemma OfferedMore(before: Records, earlier: Records, after: Records, peer: Peer, fingerprint: string, now: nat, sent: seq<(nat, Message)>)
    requires sent != [] && AllOffered(before, earlier, peer, fingerprint, now, sent[..|sent| - 1])
    requires var last := sent[|sent| - 1]; OfferedAs(earlier, after, peer, fingerprint, now, last) && Added(earlier, after, (fingerprint, last.0))
    ensures AllOffered(before, after, peer, fingerprint, now, sent)
  {
    forall i | 0 <= i < |sent|
      ensures OfferedAs(before, after, peer, fingerprint, now, sent[i])
    {
      if i < |sent| - 1 {
        assert sent[i] == sent[..|sent| - 1][i];
      }
    }
  }

  class ManualTransfers {
    var records: Records
    var terminal: seq<Key>

    ghost predicate Valid()
      reads this
    {
      Sound(records, terminal)
    }

    constructor ()
      ensures Valid() && records == map[] && terminal == []
    {
      records, terminal := map[], [];
    }

    function ActiveCount(): nat
      reads this
    {
      |ActiveKeys(records)|
    }

    /** Puts a record into the table, into the queue if it has settled, and drops the oldest of the queue. */
    method Store(r: Record)
      modifies this
      ensures terminal == StoredTerminal(old(terminal), r)
      ensures records == StoredRecords(old(records), old(terminal), r)
    {
      var key := KeyOf(r);
      if IsTerminal(r.phase) && key !in terminal {
        terminal := terminal + [key];
      }
      records := records[key := r];
      ghost var queue := Queued(old(terminal), r);
      ghost var placed := records;
      ghost var dropped := 0;
      while |terminal| > MAX_TERMINAL
        invariant dropped <= Excess(queue) && terminal == queue[dropped..]
        invariant records == placed - (set k | k in queue[..dropped])
        decreases |terminal|
      {
        var oldest := terminal[0];
        assert oldest == queue[dropped];
        terminal := terminal[1..];
        records := records - {oldest};
        PrefixGrows(queue, dropped);
        dropped := dropped + 1;
      }
    }

    /** The first non-zero draw that no record uses, among the first sixteen. */
    method NextTransferId(draws: seq<nat>) returns (id: Option<nat>)
      ensures id.Some? ==> exists i :: 0 <= i < |draws| && i < MAX_DRAWS && draws[i] == id.value && FirstFree(records, draws, i)
      ensures id.Some? ==> id.value != 0 && forall k :: k in records ==> k.1 != id.value
      ensures id.None? ==> NoneFree(records, draws)
    {
      var i := 0;
      while i < |draws| && i < MAX_DRAWS
        invariant 0 <= i <= |draws|
        invariant forall j :: 0 <= j < i ==> !IsFree(records, draws[j])
      {
        if IsFree(records, draws[i]) {
          assert FirstFree(records, draws, i);
          return Some(draws[i]);
        }
        i := i + 1;
      }
      return None;
    }

    /** Takes a record out, lets `step` replace it and puts it back: the shape of every operation below. */
    method Replace(key: Key, next: Record)
      requires Valid() && key in records && KeyOf(next) == key && Admissible(records, next)
      modifies this
      ensures Valid()
      ensures terminal == StoredTerminal(old(terminal), next)
      ensures records == StoredRecords(old(records), old(terminal), next)
    {
      ghost var before := records;
      records := records - {key};
      StoringKeeps(before, terminal, next);
      assert records[key := next] == before[key := next];
      Store(next);
    }

    /** A datagram other than an offer. */
    method HandleProtocol(peer: Peer, fingerprint: string, id: nat, message: Message, now: nat,
                          source: Bytes, hash: Bytes -> Digest, sourceIo: SourceIo, sinkIo: SinkIo)
      returns (actions: seq<Action>)
      requires Valid() && !message.Offer?
      modifies this
      ensures Valid()
      ensures (fingerprint, id) !in old(records) ==>
                records == old(records) && terminal == old(terminal) && actions == ReplyToUnknown(message)
      ensures (fingerprint, id) in old(records) ==>
                var step := Handle(old(records)[(fingerprint, id)].(peer := peer), message, now, source, hash, sourceIo, sinkIo);
                && records == StoredRecords(old(records), old(terminal), step.record)
                && terminal == StoredTerminal(old(terminal), step.record)
                && actions == step.actions
    {
      var key := (fingerprint, id);
      if key !in records {
        return ReplyToUnknown(message);
      }
      var record := records[key].(peer := peer);
      HandleEvolves(record, message, now, source, hash, sourceIo, sinkIo);
      var step := Handle(record, message, now, source, hash, sourceIo, sinkIo);
      Replace(key, step.record);
      return step.actions;
    }

    /** An offer: refused, answered again, turned away when the table is full, or recorded. */
    method ReceiveOffer(peer: Peer, fingerprint: string, id: nat, name: string, validName: bool, size: nat,
                        automatic: bool, preparation: Preparation, now: nat)
      returns (actions: seq<Action>)
      requires Valid()
      modifies this
      ensures Valid()
      ensures
        var key := (fingerprint, id);
        if id == 0 || !validName then
          records == old(records) && terminal == old(terminal) && actions == [Send(Rejection(InvalidOffer))]
        else if key in old(records) then
          var known := old(records)[key];
          && terminal == old(terminal) && actions == RepeatedOffer(known, name, size).actions
          && records == old(records)[key := if known.direction == Receiving && known.name == name && known.size == size
                                            then known.(peer := peer) else known]
        else if |ActiveKeys(old(records))| >= MAX_RECORDS then
          records == old(records) && terminal == old(terminal) && actions == [Send(Rejection(TooManyTransfers))]
        else
          var step := FirstOffer(NewReceiver(peer, fingerprint, id, name, size, now), automatic, now, preparation);
          && records == StoredRecords(old(records), old(terminal), step.record)
          && terminal == StoredTerminal(old(terminal), step.record)
          && actions == step.actions
    {
      var key := (fingerprint, id);
      if id == 0 || !validName {
        return [Send(Rejection(InvalidOffer))];
      }
      if key in records {
        var record := records[key];
        if record.direction != Receiving || record.name != name || record.size != size {
          return [Send(Rejection(ConflictingOffer))];
        }
        Rerouting(records, terminal, key, peer);
        records := records[key := record.(peer := peer)];
        return [Send(OfferResponse(record))];
      }
      if ActiveCount() >= MAX_RECORDS {
        return [Send(Rejection(TooManyTransfers))];
      }
      var record := NewReceiver(peer, fingerprint, id, name, size, now);
      ReceiverOperationsEvolve(record, now, automatic, false, preparation);
      var step := FirstOffer(record, automatic, now, preparation);
      StoringKeeps(records, terminal, step.record);
      Store(step.record);
      return step.actions;
    }

    /** Accept, overwrite, decline and cancel: what the local user does to one record. */
    method UserAction(fingerprint: string, id: nat, action: UserChoice, now: nat) returns (actions: seq<Action>)
      requires Valid()
      modifies this
      ensures Valid()
      ensures (fingerprint, id) !in old(records) ==> records == old(records) && terminal == old(terminal) && actions == []
      ensures (fingerprint, id) in old(records) ==>
                var step := Choose(old(records)[(fingerprint, id)], action, now);
                && records == StoredRecords(old(records), old(terminal), step.record)
                && terminal == StoredTerminal(old(terminal), step.record)
                && actions == step.actions
    {
      var key := (fingerprint, id);
      if key !in records {
        return [];
      }
      var record := records[key];
      var step := Choose(record, action, now);
      ChoiceEvolves(record, action, now);
      Replace(key, step.record);
      return step.actions;
    }

    /** A new active record takes its place beside the others. */
    method StoreNew(record: Record)
      requires Valid() && KeyOf(record) !in records && !IsTerminal(record.phase) && |ActiveKeys(records)| < MAX_RECORDS
      requires record.retries <= MAX_RETRIES
      modifies this
      ensures Valid() && terminal == old(terminal) && records == old(records)[KeyOf(record) := record]
      ensures |ActiveKeys(records)| == |ActiveKeys(old(records))| + 1
    {
      StoringKeeps(records, terminal, record);
      ActiveAfter(records, record);
      assert StoredRecords(records, terminal, record) == records[KeyOf(record) := record];
      Store(record);
    }

    method OfferFile(peer: Peer, fingerprint: string, file: SourceFile, id: nat, now: nat) returns (offer: Message)
      requires Valid() && |ActiveKeys(records)| < MAX_RECORDS && IsFree(records, id)
      modifies this
      ensures Valid() && terminal == old(terminal) && offer == Offer(file.name, file.size)
      ensures |ActiveKeys(records)| == |ActiveKeys(old(records))| + 1
      ensures Added(old(records), records, (fingerprint, id)) && OfferedAs(old(records), records, peer, fingerprint, now, (id, offer))
    {
      var record := NewSender(peer, fingerprint, id, file.name, file.size, now);
      StoreNew(record);
      offer := Offer(record.name, record.size);
    }

    /** Offers files one after another until the table is full or no identifier can be drawn. */
    method SendFiles(peer: Peer, fingerprint: string, files: seq<SourceFile>, now: nat)
      returns (sent: seq<(nat, Message)>, ghost stop: nat)
      requires Valid()
      modifies this
      ensures Valid()
      ensures stop <= |files| && SentFor(sent, files[..stop])
      ensures stop < |files| ==> |ActiveKeys(records)| == MAX_RECORDS || NoneFree(records, files[stop].draws)
      ensures |ActiveKeys(records)| == |ActiveKeys(old(records))| + |sent|
      ensures AllOffered(old(records), records, peer, fingerprint, now, sent)
      ensures terminal == old(terminal)
    {
      sent, stop := [], 0;
      var next := 0;
      while next < |files|
        invariant 0 <= next <= |files| && stop == next
        invariant SentFor(sent, files[..next])
        invariant Valid() && terminal == old(terminal)
        invariant |ActiveKeys(records)| == |ActiveKeys(old(records))| + |sent|
        invariant AllOffered(old(records), records, peer, fingerprint, now, sent)
      {
        if ActiveCount() >= MAX_RECORDS {
          break;
        }
        var id := NextTransferId(files[next].draws);
        if id.None? {
          break;
        }
        if files[next].regular {
          ghost var earlier := records;
          var offer := OfferFile(peer, fingerprint, files[next], id.value, now);
          sent := sent + [(id.value, offer)];
          OfferedMore(old(records), earlier, records, peer, fingerprint, now, sent);
        }
        SentForMore(files, next);
        next := next + 1;
        stop := next;
      }
    }

    /**
     One sweep: every record that is still there was changed exactly once, in some order, and only
     settled records fell out while the others were stored.
     */
    method SweepTable(sweep: Sweep) returns (sent: map<Key, seq<Action>>)
      requires Valid()
      modifies this
      ensures Valid() && Swept(old(records), records, {}, sweep)
      ensures records.Keys <= sent.Keys <= old(records).Keys
      ensures forall k :: k in sent ==> sent[k] == SweepOne(sweep, old(records)[k]).actions
    {
      sent := map[];
      var keys := records.Keys;
      while keys != {}
        invariant Valid() && Swept(old(records), records, keys, sweep) && keys <= old(records).Keys
        invariant sent.Keys <= old(records).Keys && records.Keys <= sent.Keys + keys
        invariant forall k :: k in sent ==> sent[k] == SweepOne(sweep, old(records)[k]).actions
        decreases keys
      {
        var key :| key in keys;
        assert keys == keys - {key} + {key};
        keys := keys - {key};
        if key in records {
          var step := SweepOne(sweep, records[key]);
          SweepStep(old(records), records, terminal, keys, key, sweep, step.record);
          Replace(key, step.record);
          sent := sent[key := step.actions];
        }
      }
    }

    method Tick(now: nat) returns (sent: map<Key, seq<Action>>)
      requires Valid()
      modifies this
      ensures Valid() && Swept(old(records), records, {}, Ticking(now))
      ensures records.Keys <= sent.Keys <= old(records).Keys
      ensures forall k :: k in sent ==> sent[k] == TickRecord(old(records)[k], now).actions
    {
      sent := SweepTable(Ticking(now));
    }

    /** New routes for the peers that have one; an active record whose peer has none fails. */
    method RefreshRoutes(routes: map<string, Peer>, now: nat)
      requires Valid()
      modifies this
      ensures Valid() && Swept(old(records), records, {}, Routing(routes, now))
    {
      var _ := SweepTable(Routing(routes, now));
    }
  }

  datatype UserChoice =
    | AcceptIt(preparation: Preparation)
    | OverwriteIt(stagingMade: bool, preparation: Preparation)
    | DeclineIt
    | CancelIt

  function Choose(r: Record, choice: UserChoice, now: nat): Step {
    match choice
    case AcceptIt(preparation) => Accept(r, now, preparation)
    case OverwriteIt(stagingMade, preparation) => Overwrite(r, now, stagingMade, preparation)
    case DeclineIt => DeclinedByUser(r, now)
    case CancelIt => CancelledByUser(r, now)
  }

  lemma ChoiceEvolves(r: Record, choice: UserChoice, now: nat)
    ensures Evolves(r, Choose(r, choice, now).record, now)
  {
    match choice
    case AcceptIt(preparation) => ReceiverOperationsEvolve(r, now, false, false, preparation);
    case OverwriteIt(stagingMade, preparation) => ReceiverOperationsEvolve(r, now, false, stagingMade, preparation);
    case DeclineIt => ReceiverOperationsEvolve(r, now, false, false, Unavailable);
    case CancelIt => CommonOperationsEvolve(r, None, now);
  }

  /** A path the user picked: whether it is a regular file with a portable name, and the identifiers drawn for it. */
  datatype SourceFile = SourceFile(regular: bool, name: string, size: nat, draws: seq<nat>)

  lemma Rerouting(records: Records, terminal: seq<Key>, key: Key, peer: Peer)
    requires Sound(records, terminal) && key in records
    ensures Sound(records[key := records[key].(peer := peer)], terminal)
  {
    var next := records[key := records[key].(peer := peer)];
    assert ActiveKeys(next) == ActiveKeys(records);
  }
}
