/**
 The manual transfer table over whole runs, one stored record at a time.
 */
module ManualTableRuns {
  import opened Common
  import opened ManualRecord
  import opened ManualTable

  datatype Table = Table(records: Records, terminal: seq<Key>)

  datatype TableEvent =
    | Heard(peer: Peer, key: Key, message: Message, now: nat, source: Bytes, hash: Bytes -> Digest, sourceIo: SourceIo, sinkIo: SinkIo)
    | Offered(peer: Peer, key: Key, name: string, size: nat, automatic: bool, preparation: Preparation, now: nat)
    | Chosen(key: Key, choice: UserChoice, now: nat)
    | Sent(peer: Peer, key: Key, name: string, size: nat, now: nat)
    | SweptOne(key: Key, sweep: Sweep)

  /** The record an event stores, if it stores one. A sweep is one such event per record, in any order. */
  function Stores(t: Table, e: TableEvent): Option<Record> {
    match e
    case Heard(peer, key, m, now, source, hash, sourceIo, sinkIo) =>
      if key in t.records then Some(Handle(t.records[key].(peer := peer), m, now, source, hash, sourceIo, sinkIo).record) else None
    case Offered(peer, key, name, size, automatic, preparation, now) =>
      if key.1 == 0 || key in t.records || |ActiveKeys(t.records)| >= MAX_RECORDS then None
      else Some(FirstOffer(NewReceiver(peer, key.0, key.1, name, size, now), automatic, now, preparation).record)
    case Chosen(key, choice, now) =>
      if key in t.records then Some(Choose(t.records[key], choice, now).record) else None
    case Sent(peer, key, name, size, now) =>
      if key in t.records || |ActiveKeys(t.records)| >= MAX_RECORDS then None
      else Some(NewSender(peer, key.0, key.1, name, size, now))
    case SweptOne(key, sweep) =>
      if key in t.records then Some(SweepOne(sweep, t.records[key]).record) else None
  }

  function NextTable(t: Table, e: TableEvent): Table {
    match Stores(t, e)
    case None => t
    case Some(r) => Table(StoredRecords(t.records, t.terminal, r), StoredTerminal(t.terminal, r))
  }

  ghost predicate IsTableRun(events: seq<TableEvent>, tables: seq<Table>) {
    && |tables| == |events| + 1
    && tables[0] == Table(map[], [])
    && forall i :: 0 <= i < |events| ==> TableStepsAt(events, tables, i)
  }

  ghost predicate TableStepsAt(events: seq<TableEvent>, tables: seq<Table>, i: nat)
    requires i < |events| < |tables|
  {
    tables[i + 1] == NextTable(tables[i], events[i])
  }

  /** `next` is `r` but for its route and its retry timer. */
  predicate SameOutcome(r: Record, next: Record) {
    next == r.(peer := next.peer, retries := next.retries, lastActivity := next.lastActivity)
  }

  lemma StoredContinues(t: Table, e: TableEvent)
    requires Sound(t.records, t.terminal) && Stores(t, e).Some?
    ensures
      var r := Stores(t, e).value;
      && Admissible(t.records, r)
      && (KeyOf(r) in t.records && IsTerminal(t.records[KeyOf(r)].phase) ==> SameOutcome(t.records[KeyOf(r)], r))
  {
    match e
    case Heard(peer, key, m, now, source, hash, sourceIo, sinkIo) =>
      HandleEvolves(t.records[key].(peer := peer), m, now, source, hash, sourceIo, sinkIo);
    case Offered(peer, key, name, size, automatic, preparation, now) =>
      ReceiverOperationsEvolve(NewReceiver(peer, key.0, key.1, name, size, now), now, automatic, false, preparation);
    case Chosen(key, choice, now) => ChoiceEvolves(t.records[key], choice, now);
    case Sent(_, _, _, _, _) =>
    case SweptOne(key, sweep) => SweepContinues(sweep, t.records[key]);
  }

  lemma SweepContinues(sweep: Sweep, r: Record)
    ensures
      var next := SweepOne(sweep, r).record;
      && KeyOf(next) == KeyOf(r) && (r.retries <= MAX_RETRIES ==> next.retries <= MAX_RETRIES)
      && (IsTerminal(r.phase) ==> SameOutcome(r, next))
  {
    match sweep
    case Ticking(now) => CommonOperationsEvolve(r, None, now);
    case Routing(routes, now) =>
      CommonOperationsEvolve(r, if r.fingerprint in routes then Some(routes[r.fingerprint]) else None, now);
  }

  /** Over every run: at most 32 active records, at most 100 settled ones, and the queue is exactly the settled ones. */
  lemma {:induction false} TableStaysSound(events: seq<TableEvent>, tables: seq<Table>, i: nat)
    requires IsTableRun(events, tables) && i < |tables|
    ensures Sound(tables[i].records, tables[i].terminal)
    ensures |ActiveKeys(tables[i].records)| <= MAX_RECORDS && |tables[i].terminal| <= MAX_TERMINAL
  {
    if i == 0 {
      assert ActiveKeys(map[]) == {};
    } else {
      TableStaysSound(events, tables, i - 1);
      var t, e := tables[i - 1], events[i - 1];
      assert TableStepsAt(events, tables, i - 1);
      if Stores(t, e).Some? {
        StoredContinues(t, e);
        StoringKeeps(t.records, t.terminal, Stores(t, e).value);
      }
    }
  }

  lemma NextKeepsOutcome(t: Table, e: TableEvent, key: Key)
    requires Sound(t.records, t.terminal) && key in t.records && key in NextTable(t, e).records
    requires IsTerminal(t.records[key].phase)
    ensures SameOutcome(t.records[key], NextTable(t, e).records[key])
  {
    if Stores(t, e).Some? {
      StoredContinues(t, e);
    }
  }

  /** A settled record keeps its outcome for as long as it is retained. */
  lemma {:induction false} SettledForGood(events: seq<TableEvent>, tables: seq<Table>, key: Key, i: nat, j: nat)
    requires IsTableRun(events, tables) && i <= j < |tables|
    requires forall n :: i <= n <= j ==> key in tables[n].records
    requires IsTerminal(tables[i].records[key].phase)
    ensures SameOutcome(tables[i].records[key], tables[j].records[key])
    decreases j
  {
    if i < j {
      SettledForGood(events, tables, key, i, j - 1);
      TableStaysSound(events, tables, j - 1);
      var t, e := tables[j - 1], events[j - 1];
      assert TableStepsAt(events, tables, j - 1);
      NextKeepsOutcome(t, e, key);
    }
  }

  /** Only settled records are ever evicted, and the first to settle is the first to go. */
  lemma EvictionTakesTheOldest(events: seq<TableEvent>, tables: seq<Table>, i: nat, key: Key)
    requires IsTableRun(events, tables) && i < |events|
    requires key in tables[i].records && key !in tables[i + 1].records
    ensures IsTerminal(tables[i].records[key].phase)
    ensures |tables[i].terminal| == MAX_TERMINAL && tables[i].terminal[0] == key
  {
    TableStaysSound(events, tables, i);
    var t, e := tables[i], events[i];
    assert TableStepsAt(events, tables, i);
    StoredContinues(t, e);
    var r := Stores(t, e).value;
    QueueingIsExact(t.records, t.terminal, r);
  }
}
