/**
 Two workers share the desktop's clipboard with its user: one reads what the user copied, to share it,
 and one writes what a peer sent. The bookkeeping between them keeps a peer's content from being sent
 back as if it had been copied here.
 */
module ClipboardEcho {
  import opened Common

  datatype Content = Text(text: string) | Image(width: nat, height: nat, rgba: Bytes)

  datatype Observation = Local | Remote | Unchanged

  datatype Queued = Queued(baseline: Option<Content>, content: Content)

  /** The last content seen, and whether it came from a peer. */
  datatype Book = Book(last: Option<Content>, remoteOrigin: bool)

  function Observed(b: Book, content: Content): (Book, Observation) {
    if b.last == Some(content) then (b, if b.remoteOrigin then Remote else Unchanged)
    else (Book(Some(content), false), Local)
  }

  /** Refused when the user copied something since the content was queued. */
  function CommittedRemote(b: Book, q: Queued, current: Option<Content>): (Book, bool) {
    if q.baseline.Some? && q.baseline != current then (b, false) else (Book(Some(q.content), true), true)
  }

  class ClipboardState {
    var last: Option<Content>
    var remoteOrigin: bool

    ghost function View(): Book
      reads this
    {
      Book(last, remoteOrigin)
    }

    constructor ()
      ensures View() == Book(None, false)
    {
      last, remoteOrigin := None, false;
    }

    method Observe(content: Content) returns (o: Observation)
      modifies this
      ensures (View(), o) == Observed(old(View()), content)
    {
      if last == Some(content) {
        return if remoteOrigin then Remote else Unchanged;
      }
      last := Some(content);
      remoteOrigin := false;
      return Local;
    }

    method QueueRemote(content: Content) returns (q: Queued)
      ensures q == Queued(last, content)
    {
      return Queued(last, content);
    }

    method CommitRemote(q: Queued, current: Option<Content>) returns (committed: bool)
      modifies this
      ensures (View(), committed) == CommittedRemote(old(View()), q, current)
    {
      if q.baseline.Some? {
        if q.baseline != current {
          return false;
        }
      }
      last := Some(q.content);
      remoteOrigin := true;
      return true;
    }
  }

  /** What is seen again is told apart by where it came from: a copy of the user's is old news, a peer's content is a peer's. */
  lemma OriginIsRemembered(b: Book, content: Content, q: Queued, current: Option<Content>)
    ensures Observed(b, content).1 == Local ==> Observed(Observed(b, content).0, content) == (Observed(b, content).0, Unchanged)
    ensures
      var (written, committed) := CommittedRemote(b, q, current);
      if committed then Observed(written, q.content) == (written, Remote) else written == b
  {
  }

  // ----- The two workers and the user, interleaved -----

  datatype Reader = Resting | Holding(content: Content, own: bool)

  datatype Writer =
    | Waiting
    | Taken(queued: Queued)
    | Compared(queued: Queued, current: Option<Content>)
    | Committed(queued: Queued, current: Option<Content>)

  /**
   `desktop` is what a reader would find there, if anything it can read, and `own` whether the user put
   it there. The three counters are the history of the run: contents observed as the user's, copies made
   by the user, and rounds of the writer in which it found nothing to read, could not write either, and left
   something readable behind.
   */
  datatype World = World(
    book: Book,
    desktop: Option<Content>, own: bool,
    queue: Option<Queued>, reader: Reader, writer: Writer,
    locals: nat, copies: nat, blind: nat)

  datatype Event =
    | UserCopies(selection: Option<Content>)
    | PeerSends(content: Content)
    | ReaderReads(ok: bool)
    | ReaderObserves
    | WriterTakes
    | WriterCannotOpen
    | WriterCompares(ok: bool)
    | WriterCommits
    | WriterSets(ok: bool)

  function Begin(desktop: Option<Content>): World {
    World(Book(None, false), desktop, true, None, Resting, Waiting, 0, 0, 0)
  }

  predicate ReaderHasDesktop(w: World) {
    w.reader.Holding?
  }

  predicate WriterHasDesktop(w: World) {
    w.writer.Compared? || w.writer.Committed?
  }

  /** The desktop lock keeps the workers' steps on the desktop apart; the user is bound by no lock. */
  predicate Enabled(w: World, e: Event) {
    match e
    case UserCopies(_) => true
    case PeerSends(_) => true
    case ReaderReads(_) => w.reader.Resting? && !WriterHasDesktop(w)
    case ReaderObserves => w.reader.Holding?
    case WriterTakes => w.writer.Waiting? && w.queue.Some?
    case WriterCannotOpen => w.writer.Taken? && !ReaderHasDesktop(w)
    case WriterCompares(_) => w.writer.Taken? && !ReaderHasDesktop(w)
    case WriterCommits => w.writer.Compared?
    case WriterSets(_) => w.writer.Committed?
  }

  function Step(w: World, e: Event): World
    requires Enabled(w, e)
  {
    match e
    case UserCopies(selection) => w.(desktop := selection, own := true, copies := w.copies + 1)
    case PeerSends(content) => if w.queue.Some? then w else w.(queue := Some(Queued(w.book.last, content)))
    case ReaderReads(ok) => if ok && w.desktop.Some? then w.(reader := Holding(w.desktop.value, w.own)) else w
    case ReaderObserves =>
      var (book, o) := Observed(w.book, w.reader.content);
      w.(reader := Resting, book := book, locals := w.locals + if o == Local then 1 else 0)
    case WriterTakes => w.(queue := None, writer := Taken(w.queue.value))
    case WriterCannotOpen => w.(writer := Waiting)
    case WriterCompares(ok) => w.(writer := Compared(w.writer.queued, if ok then w.desktop else None))
    case WriterCommits =>
      var q := w.writer.queued;
      var (book, ok) := CommittedRemote(w.book, q, w.writer.current);
      w.(book := book, writer := if ok then Committed(q, w.writer.current) else Waiting)
    case WriterSets(ok) =>
      if ok then w.(desktop := Some(w.writer.queued.content), own := false, writer := Waiting)
      else w.(book := Book(w.writer.current, false), writer := Waiting,
              blind := w.blind + if w.writer.current.None? && w.desktop.Some? then 1 else 0)
  }

  ghost predicate IsRun(worlds: seq<World>, events: seq<Event>) {
    && |worlds| == |events| + 1
    && (exists desktop :: worlds[0] == Begin(desktop))
    && forall n :: 0 <= n < |events| ==> StepsAt(worlds, events, n)
  }

  ghost predicate StepsAt(worlds: seq<World>, events: seq<Event>, n: nat)
    requires n < |events| < |worlds|
  {
    Enabled(worlds[n], events[n]) && worlds[n + 1] == Step(worlds[n], events[n])
  }

  // ----- Counting -----

  /** Reading `found` when `known` was last seen would count as a copy. */
  function Gap(known: Option<Content>, found: Option<Content>): nat {
    if found.Some? && found != known then 1 else 0
  }

  /** How many more contents would be observed as the user's if the user stopped copying now. */
  function Potential(w: World): nat {
    match w.writer
    case Compared(_, current) => Max(Gap(w.book.last, w.desktop), if current.Some? then Gap(current, w.desktop) else 0)
    case Committed(_, current) => if current.Some? then Gap(current, w.desktop) else 0
    case Waiting => ReaderPotential(w)
    case Taken(_) => ReaderPotential(w)
  }

  function ReaderPotential(w: World): nat {
    match w.reader
    case Resting => Gap(w.book.last, w.desktop)
    case Holding(content, _) => Gap(w.book.last, Some(content)) + Gap(Some(content), w.desktop)
  }

  /** The desktop has one owner at a time, and what is committed is what was last seen. */
  predicate LocksHold(w: World) {
    && !(ReaderHasDesktop(w) && WriterHasDesktop(w))
    && (w.writer.Committed? ==> w.book.last == Some(w.writer.queued.content))
  }

  predicate Counted(w: World, initial: nat) {
    LocksHold(w) && w.locals + Potential(w) <= w.copies + initial + w.blind
  }

  lemma StepCounts(w: World, e: Event, initial: nat)
    requires Counted(w, initial) && Enabled(w, e)
    ensures Counted(Step(w, e), initial)
  {
  }

  lemma {:induction false} RunCounts(worlds: seq<World>, events: seq<Event>, n: nat)
    requires IsRun(worlds, events) && n <= |events|
    ensures Counted(worlds[n], if worlds[0].desktop.Some? then 1 else 0)
  {
    if n > 0 {
      RunCounts(worlds, events, n - 1);
      assert StepsAt(worlds, events, n - 1);
      StepCounts(worlds[n - 1], events[n - 1], if worlds[0].desktop.Some? then 1 else 0);
    }
  }

  /** In every interleaving, at most one content more is shared than the user copied, and that one was there at the start. */
  lemma NothingIsSharedTwice(worlds: seq<World>, events: seq<Event>, n: nat)
    requires IsRun(worlds, events) && n <= |events|
    ensures worlds[n].locals <= worlds[n].copies + worlds[n].blind + if worlds[0].desktop.Some? then 1 else 0
  {
    RunCounts(worlds, events, n);
  }

  // ----- No echo -----

  /** What a peer sent and the writer put on the desktop is known, so observing it shares nothing. */
  predicate Known(w: World) {
    && LocksHold(w)
    && (w.reader.Holding? && !w.reader.own ==> w.book.last == Some(w.reader.content))
    && (!w.own && w.desktop.Some? ==>
      match w.writer
      case Compared(_, current) => w.book.last == w.desktop && (current.Some? ==> current == w.desktop)
      case Committed(_, current) => current.Some? ==> current == w.desktop
      case Waiting => KnownToReader(w)
      case Taken(_) => KnownToReader(w))
  }

  predicate KnownToReader(w: World) {
    w.book.last == w.desktop && (w.reader.Holding? ==> w.desktop == Some(w.reader.content))
  }

  /** The writer found nothing to read and could not write, over content of a peer: what was known is forgotten. */
  predicate Forgets(w: World, e: Event) {
    e == WriterSets(false) && w.writer.Committed? && w.writer.current.None? && w.desktop.Some? && !w.own
  }

  /** That is the one step after which a peer's content is no longer known. */
  lemma OnlyForgettingUnlearns(w: World, e: Event)
    requires Known(w) && Enabled(w, e)
    ensures Known(Step(w, e)) <==> !Forgets(w, e)
  {
  }

  lemma {:induction false} RunKnows(worlds: seq<World>, events: seq<Event>, n: nat)
    requires IsRun(worlds, events) && n <= |events|
    requires forall k :: 0 <= k < n ==> !Forgets(worlds[k], events[k])
    ensures Known(worlds[n])
  {
    if n > 0 {
      RunKnows(worlds, events, n - 1);
      assert StepsAt(worlds, events, n - 1);
      OnlyForgettingUnlearns(worlds[n - 1], events[n - 1]);
    }
  }

  /** An echo: content that the writer put on the desktop is shared as if the user had copied it. */
  ghost predicate EchoesAt(worlds: seq<World>, events: seq<Event>, n: nat)
    requires n < |events| < |worlds|
  {
    events[n] == ReaderObserves && worlds[n].reader.Holding? && !worlds[n].reader.own && worlds[n + 1].locals > worlds[n].locals
  }

  /** A peer's content is not sent back, as long as no round forgot it. */
  lemma NoEcho(worlds: seq<World>, events: seq<Event>, n: nat)
    requires IsRun(worlds, events) && n < |events|
    requires forall k :: 0 <= k < n ==> !Forgets(worlds[k], events[k])
    ensures !EchoesAt(worlds, events, n)
  {
    RunKnows(worlds, events, n);
    assert StepsAt(worlds, events, n);
  }

  lemma Extend(worlds: seq<World>, events: seq<Event>, e: Event) returns (more: seq<World>, longer: seq<Event>)
    requires IsRun(worlds, events) && Enabled(worlds[|events|], e)
    ensures IsRun(more, longer) && longer == events + [e] && |more| == |worlds| + 1
    ensures more[..|worlds|] == worlds && more[|longer|] == Step(worlds[|events|], e)
  {
    more, longer := worlds + [Step(worlds[|events|], e)], events + [e];
    assert more[0] == worlds[0];
    forall n | 0 <= n < |longer|
      ensures StepsAt(more, longer, n)
    {
      if n < |events| {
        assert StepsAt(worlds, events, n);
      }
    }
  }

  /** And right after the first round that forgets, reading the desktop does echo. */
  lemma ForgettingEchoes(worlds: seq<World>, events: seq<Event>, e: Event) returns (more: seq<World>, longer: seq<Event>)
    requires IsRun(worlds, events) && Enabled(worlds[|events|], e) && Forgets(worlds[|events|], e)
    requires forall k :: 0 <= k < |events| ==> !Forgets(worlds[k], events[k])
    ensures IsRun(more, longer) && longer == events + [e, ReaderReads(true), ReaderObserves]
    ensures EchoesAt(more, longer, |events| + 2)
  {
    RunKnows(worlds, events, |events|);
    more, longer := Extend(worlds, events, e);
    more, longer := Extend(more, longer, ReaderReads(true));
    ghost var reading := more;
    more, longer := Extend(more, longer, ReaderObserves);
    assert more[|events| + 2] == reading[|events| + 2];
  }

  // ----- How it can come to that -----

  /** The content was queued by event `k`, with what was last seen then. */
  ghost predicate QueuedAt(worlds: seq<World>, events: seq<Event>, k: nat, q: Queued)
    requires |events| < |worlds|
  {
    k < |events| && events[k] == PeerSends(q.content) && worlds[k].book.last == q.baseline
  }

  ghost predicate QueuedBy(worlds: seq<World>, events: seq<Event>, n: nat, q: Queued)
    requires |events| < |worlds|
  {
    exists k :: 0 <= k < n && QueuedAt(worlds, events, k, q)
  }

  /** Nothing is written that was not queued, and without a current content only what was queued before anything was seen. */
  ghost predicate Traced(worlds: seq<World>, events: seq<Event>, n: nat)
    requires n <= |events| < |worlds|
  {
    var w := worlds[n];
    && (w.queue.Some? ==> QueuedBy(worlds, events, n, w.queue.value))
    && (!w.writer.Waiting? ==> QueuedBy(worlds, events, n, w.writer.queued))
    && (w.writer.Committed? ==> w.writer.queued.baseline.None? || w.writer.queued.baseline == w.writer.current)
  }

  lemma QueuedLater(worlds: seq<World>, events: seq<Event>, n: nat, q: Queued)
    requires n < |events| < |worlds|
    ensures QueuedBy(worlds, events, n, q) ==> QueuedBy(worlds, events, n + 1, q)
    ensures QueuedAt(worlds, events, n, q) ==> QueuedBy(worlds, events, n + 1, q)
  {
  }

  lemma {:induction false} RunIsTraced(worlds: seq<World>, events: seq<Event>, n: nat)
    requires IsRun(worlds, events) && n <= |events|
    ensures Traced(worlds, events, n)
  {
    if n > 0 {
      RunIsTraced(worlds, events, n - 1);
      assert StepsAt(worlds, events, n - 1);
      var w, next := worlds[n - 1], worlds[n];
      if next.queue.Some? {
        QueuedLater(worlds, events, n - 1, next.queue.value);
      }
      if !next.writer.Waiting? {
        QueuedLater(worlds, events, n - 1, next.writer.queued);
      }
    }
  }

  /** What a round that forgets tried to write was queued when nothing was on the books. */
  lemma ForgettingWasQueuedBlank(worlds: seq<World>, events: seq<Event>, n: nat) returns (k: nat)
    requires IsRun(worlds, events) && n < |events| && Forgets(worlds[n], events[n])
    ensures k < n && events[k] == PeerSends(worlds[n].writer.queued.content) && worlds[k].book.last.None?
  {
    RunIsTraced(worlds, events, n);
    k :| 0 <= k < n && QueuedAt(worlds, events, k, worlds[n].writer.queued);
  }

  /**
   Such a run exists: with two contents queued before anything was seen, the first is written, the second
   fails both ways, and the first is then shared though the user copied nothing.
   */
  lemma BlindRoundEchoes(c: Content, d: Content) returns (worlds: seq<World>, events: seq<Event>)
    ensures IsRun(worlds, events) && events != [] && EchoesAt(worlds, events, |events| - 1)
    ensures worlds[|events|].copies == 0 && worlds[|events|].book.last == Some(c) && PeerSends(c) in events
  {
    worlds, events := [Begin(None)], [];
    worlds, events := Extend(worlds, events, PeerSends(c));
    worlds, events := Extend(worlds, events, WriterTakes);
    worlds, events := Extend(worlds, events, PeerSends(d));
    worlds, events := Extend(worlds, events, WriterCompares(true));
    worlds, events := Extend(worlds, events, WriterCommits);
    worlds, events := Extend(worlds, events, WriterSets(true));
    assert worlds[|events|] == World(Book(Some(c), true), Some(c), false, Some(Queued(None, d)), Resting, Waiting, 0, 0, 0);
    assert PeerSends(c) in events;
    worlds, events := Extend(worlds, events, WriterTakes);
    worlds, events := Extend(worlds, events, WriterCompares(false));
    worlds, events := Extend(worlds, events, WriterCommits);
    worlds, events := Extend(worlds, events, WriterSets(false));
    worlds, events := Extend(worlds, events, ReaderReads(true));
    ghost var reading := worlds;
    worlds, events := Extend(worlds, events, ReaderObserves);
    assert worlds[|events| - 1] == reading[|events| - 1];
  }

  // ----- What is shared, and what arrives -----

  /** No observation falls between the two points of the run. */
  ghost predicate NotObserved(events: seq<Event>, n: nat, m: nat) {
    forall j :: n <= j < m && j < |events| ==> events[j] != ReaderObserves
  }

  lemma {:induction false} RunLocks(worlds: seq<World>, events: seq<Event>, n: nat)
    requires IsRun(worlds, events) && n <= |events|
    ensures LocksHold(worlds[n])
  {
    RunCounts(worlds, events, n);
  }

  /** While the reader holds what it read, nothing changes what was last seen. */
  lemma {:induction false} ReadingIsUndisturbed(worlds: seq<World>, events: seq<Event>, n: nat, m: nat)
    requires IsRun(worlds, events) && n <= m <= |events| && worlds[n].reader.Holding? && NotObserved(events, n, m)
    ensures worlds[m].reader == worlds[n].reader && worlds[m].book == worlds[n].book && worlds[m].locals == worlds[n].locals
    decreases m
  {
    if n < m {
      ReadingIsUndisturbed(worlds, events, n, m - 1);
      RunLocks(worlds, events, m - 1);
      assert StepsAt(worlds, events, m - 1);
      assert events[m - 1] != ReaderObserves;
    }
  }

  /**
   What the reader finds on the desktop is shared, whatever happens until it is observed, exactly when it is
   not what was last seen; and from then on it is what was last seen.
   */
  lemma NewContentIsShared(worlds: seq<World>, events: seq<Event>, n: nat, m: nat)
    requires IsRun(worlds, events) && n < m < |events| && NotObserved(events, n, m)
    requires events[n] == ReaderReads(true) && worlds[n].desktop.Some? && events[m] == ReaderObserves
    ensures worlds[m + 1].locals == worlds[n].locals + if worlds[n].book.last != worlds[n].desktop then 1 else 0
    ensures worlds[m + 1].book.last == worlds[n].desktop && worlds[m + 1].reader.Resting?
  {
    assert StepsAt(worlds, events, n) && StepsAt(worlds, events, m);
    ReadingIsUndisturbed(worlds, events, n + 1, m);
  }

  /** The writer's round over three consecutive events. */
  ghost predicate WritesAt(worlds: seq<World>, events: seq<Event>, n: nat, readable: bool)
    requires |events| < |worlds|
  {
    n + 3 <= |events| && events[n] == WriterCompares(readable) && events[n + 1] == WriterCommits && worlds[n].writer.Taken?
  }

  /** What a peer sent reaches the desktop unless the user has copied something since it was queued, and then the user's copy stays. */
  lemma PeerContentArrives(worlds: seq<World>, events: seq<Event>, n: nat, readable: bool)
    requires IsRun(worlds, events) && WritesAt(worlds, events, n, readable)
    ensures
      var (q, found) := (worlds[n].writer.queued, if readable then worlds[n].desktop else None);
      if q.baseline.None? || q.baseline == found then
        && worlds[n + 2].writer.Committed?
        && (events[n + 2] == WriterSets(true) ==>
              && worlds[n + 3].desktop == Some(q.content) && !worlds[n + 3].own
              && worlds[n + 3].book == Book(Some(q.content), true) && worlds[n + 3].writer.Waiting?)
      else
        worlds[n + 2].writer.Waiting? && worlds[n + 2].desktop == worlds[n].desktop && worlds[n + 2].book == worlds[n].book
  {
    assert StepsAt(worlds, events, n) && StepsAt(worlds, events, n + 1) && StepsAt(worlds, events, n + 2);
  }

  ghost predicate NotTaken(events: seq<Event>, n: nat, m: nat) {
    forall j :: n <= j < m && j < |events| ==> events[j] != WriterTakes
  }

  lemma {:induction false} QueueKeeps(worlds: seq<World>, events: seq<Event>, n: nat, m: nat)
    requires IsRun(worlds, events) && n <= m <= |events| && worlds[n].queue.Some? && NotTaken(events, n, m)
    ensures worlds[m].queue == worlds[n].queue
    decreases m
  {
    if n < m {
      QueueKeeps(worlds, events, n, m - 1);
      assert StepsAt(worlds, events, m - 1);
      assert events[m - 1] != WriterTakes;
    }
  }

  /** What a peer sends while nothing is queued is what the writer takes next, with what was last seen when it came. */
  lemma FirstSentIsTaken(worlds: seq<World>, events: seq<Event>, n: nat, m: nat, content: Content)
    requires IsRun(worlds, events) && n < m < |events| && events[n] == PeerSends(content) && worlds[n].queue.None?
    requires NotTaken(events, n, m) && events[m] == WriterTakes
    ensures worlds[m + 1].writer == Taken(Queued(worlds[n].book.last, content)) && worlds[m + 1].queue.None?
  {
    assert StepsAt(worlds, events, n) && StepsAt(worlds, events, m);
    QueueKeeps(worlds, events, n + 1, m);
  }
}
