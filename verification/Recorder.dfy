/** The diagnostic recorder (src/diagnostics.rs) as a small-step system.

    Every action below is at most one atomic operation on shared memory, so a
    sequence of actions is an interleaving of any number of producers, callers of
    `close` and the one writer thread. Fields marked "history" are never read by
    the program; they only let the theorems talk about what has happened. */
module Recorder {

  import opened Collections
  import opened Wrappers

  // ---------------------------------------------------------------- data model

  const CLOSED: int := 0x8000_0000_0000_0000
  const QUEUE_CAPACITY: nat := 256

  datatype Limits = Limits(maxRecords: int, duration: nat)

  datatype Outcome = Ok | Error | Completed | Cancelled | Timeout | Rejected

  /** One timing record; `timer` identifies the `Active` guard that emitted it. */
  datatype Record = Record(timer: int, outcome: Outcome)

  datatype Summary = Summary(accepted: int, written: int, dropped: int, expired: int, unfinished: int,
                             writeFailed: bool)

  datatype Line = RecordLine(record: Record) | SummaryLine(summary: Summary) | Fragment

  /** What the sink does with one write or flush. A failing write may leave
      anything behind. */
  datatype Io = Complete | Failed(residue: seq<Line>)

  /** Where a producer thread stands inside `begin_record` or `record`. Every
      constructor but `Idle` is a point inside a registered section. */
  datatype Producer =
    | Idle
    | BeginTimed
    | BeginExpiring
    | BeginLimited
    | BeginDropping
    | BeginStarting
    | BeginLeaving(timer: Option<int>)
    | RecordTimed(record: Record)
    | RecordExpiring(record: Record)
    | RecordReserving(record: Record)
    | RecordRefusing(record: Record)
    | RecordSending(record: Record)
    | RecordAccepting
    | RecordRefunding(record: Record)
    | RecordDropping(record: Record)
    | RecordFinalizing(unsent: Option<int>)
    | RecordLeaving

  /** Where the writer thread stands inside `write_records`. */
  datatype Place =
    | Gate
    | Sealing
    | LoadingStarted
    | LoadingFinalized(startedSeen: int)
    | Storing(startedSeen: int, finalizedSeen: int)
    | Receiving
    | Writing(record: Record)
    | Closing
    | Flushing
    | Summing(field: nat, partial: Summary)
    | WritingSummary(summary: Summary)
    | Finishing
    | Done

  /** The `Arc<Inner>` shared by the handle and every live timer. */
  datatype Handle = Held | Dropping | Dropped

  /** The atomics producers update; `admitted` (begins that passed the gate) and
      `lost` (timers whose record met a closed gate) are history. */
  datatype Counters = Counters(
    word: int, reserved: int, accepted: int, dropped: int, expired: int,
    started: int, finalized: int, admitted: int, lost: int)

  /** What only the writer updates. `taken` (records received) and `discarded`
      (records received but not written) are history. */
  datatype Writer = Writer(
    place: Place, sealed: bool, written: int, unfinished: int, writeFailed: bool, finished: bool,
    file: seq<Line>, taken: nat, discarded: nat)

  /** `gone` (timers whose record was not enqueued), `enqueued` (every record ever
      enqueued) and `closed` are history. */
  datatype State = State(
    limits: Limits, now: nat, c: Counters, handle: Handle, receiverOpen: bool, queue: seq<Record>,
    producers: seq<Producer>, timers: multiset<int>, w: Writer,
    closed: bool, gone: multiset<int>, enqueued: seq<Record>)

  datatype Action =
    | Tick(elapsed: nat)
    | Close
    | DropHandle
    | DropSender
    | EnterBegin(thread: nat)
    | EnterRecord(thread: nat, timer: int, outcome: Outcome)
    | StepProducer(thread: nat)
    | StepWriter(io: Io)

  const ZERO := Counters(0, 0, 0, 0, 0, 0, 0, 0, 0)

  ghost predicate Init(s: State) {
    && s.now == 0 && s.c == ZERO && s.handle == Held && s.receiverOpen && |s.queue| == 0
    && FreshWriter(s.w)
    && |s.timers| == 0 && !s.closed && |s.gone| == 0 && |s.enqueued| == 0
    && 0 <= s.limits.maxRecords
    && AllIdle(s.producers)
  }

  predicate FreshWriter(w: Writer) {
    && w.place.Gate? && !w.sealed && w.written == 0 && w.unfinished == 0 && !w.writeFailed && !w.finished
    && |w.file| == 0 && w.taken == 0 && w.discarded == 0
  }

  predicate AllIdle(ps: seq<Producer>) {
    forall t | 0 <= t < |ps| :: ps[t].Idle?
  }

  // ------------------------------------------------------------- atomic actions

  /** `fetch_or(CLOSED)` on the producer word. */
  function WithCloseBit(word: int): int {
    if word >= CLOSED then word else word + CLOSED
  }

  /** The `enter` guard: refuses once closed and before the count could overflow
      into the close bit. */
  predicate Admits(word: int) {
    word < CLOSED - 1
  }

  function CloseGate(s: State): State {
    s.(c := s.c.(word := WithCloseBit(s.c.word)), closed := true)
  }

  /** The effect of one producer action: where the thread goes, what it adds to
      the counters, the record it enqueues and the timers it takes or creates. */
  datatype Move = Move(next: Producer, delta: Counters, sends: Option<Record>,
                       takes: Option<int>, creates: Option<int>, gone: Option<int>)

  function Go(next: Producer, delta: Counters): Move {
    Move(next, delta, None, None, None, None)
  }

  predicate Enabled(s: State, a: Action) {
    match a
    case Tick(_) => true
    case Close => true
    case DropHandle => s.handle == Held && s.timers == multiset{} && AllIdle(s.producers)
    case DropSender => s.handle == Dropping
    case EnterBegin(t) => t < |s.producers| && s.producers[t].Idle? && s.handle == Held
    case EnterRecord(t, timer, _) => t < |s.producers| && s.producers[t].Idle? && timer in s.timers
    case StepProducer(t) => t < |s.producers| && !s.producers[t].Idle?
    case StepWriter(_) => !s.w.place.Done?
  }

  predicate ByProducer(a: Action) {
    a.EnterBegin? || a.EnterRecord? || a.StepProducer?
  }

  /** `begin_record` and `record` begin by entering a section; a record whose
      section is refused leaves its timer unfinished. */
  function EnterMove(s: State, a: Action): Move
    requires a.EnterBegin? || a.EnterRecord?
  {
    match a
    case EnterBegin(_) =>
      if Admits(s.c.word) then Go(BeginTimed, ZERO.(word := 1, admitted := 1)) else Go(Idle, ZERO)
    case EnterRecord(_, timer, outcome) =>
      if Admits(s.c.word)
      then Go(RecordTimed(Record(timer, outcome)), ZERO.(word := 1)).(takes := Some(timer))
      else Go(Idle, ZERO.(lost := 1)).(takes := Some(timer), gone := Some(timer))
  }

  function BeginMove(s: State, p: Producer): Move {
    match p
    case BeginTimed => Go(if s.now >= s.limits.duration then BeginExpiring else BeginLimited, ZERO)
    case BeginExpiring => Go(BeginLeaving(None), ZERO.(expired := 1))
    case BeginLimited => Go(if s.c.accepted >= s.limits.maxRecords then BeginDropping else BeginStarting, ZERO)
    case BeginDropping => Go(BeginLeaving(None), ZERO.(dropped := 1))
    case BeginStarting => Go(BeginLeaving(Some(s.c.started)), ZERO.(started := 1))
    case BeginLeaving(timer) => Go(Idle, ZERO.(word := -1)).(creates := timer)
    case _ => Go(p, ZERO)
  }

  function RecordMove(s: State, p: Producer): Move {
    match p
    case RecordTimed(r) => Go(if s.now >= s.limits.duration then RecordExpiring(r) else RecordReserving(r), ZERO)
    case RecordExpiring(r) => Go(RecordFinalizing(Some(r.timer)), ZERO.(expired := 1))
    case RecordReserving(r) =>
      if s.c.reserved < s.limits.maxRecords then
        Go(RecordSending(r), ZERO.(reserved := 1))
      else
        Go(RecordRefusing(r), ZERO)
    case RecordRefusing(r) => Go(RecordFinalizing(Some(r.timer)), ZERO.(dropped := 1))
    case RecordSending(r) =>
      if s.receiverOpen && |s.queue| < QUEUE_CAPACITY then
        Go(RecordAccepting, ZERO).(sends := Some(r))
      else
        Go(RecordRefunding(r), ZERO)
    case RecordAccepting => Go(RecordFinalizing(None), ZERO.(accepted := 1))
    case RecordRefunding(r) => Go(RecordDropping(r), ZERO.(reserved := -1))
    case RecordDropping(r) => Go(RecordFinalizing(Some(r.timer)), ZERO.(dropped := 1))
    case RecordFinalizing(unsent) => Go(RecordLeaving, ZERO.(finalized := 1)).(gone := unsent)
    case RecordLeaving => Go(Idle, ZERO.(word := -1))
    case _ => Go(p, ZERO)
  }

  predicate Beginning(p: Producer) {
    p.BeginTimed? || p.BeginExpiring? || p.BeginLimited? || p.BeginDropping? || p.BeginStarting? || p.BeginLeaving?
  }

  function ProducerMove(s: State, a: Action): Move
    requires Enabled(s, a) && ByProducer(a)
  {
    if !a.StepProducer? then EnterMove(s, a)
    else if Beginning(s.producers[a.thread]) then BeginMove(s, s.producers[a.thread])
    else RecordMove(s, s.producers[a.thread])
  }

  function Add(x: Counters, y: Counters): Counters {
    Counters(x.word + y.word, x.reserved + y.reserved, x.accepted + y.accepted, x.dropped + y.dropped,
             x.expired + y.expired, x.started + y.started, x.finalized + y.finalized,
             x.admitted + y.admitted, x.lost + y.lost)
  }

  function Append(rs: seq<Record>, more: Option<Record>): seq<Record> {
    if more.Some? then rs + [more.value] else rs
  }

  function With(timers: multiset<int>, x: Option<int>): multiset<int> {
    if x.Some? then timers + multiset{x.value} else timers
  }

  function Without(timers: multiset<int>, x: Option<int>): multiset<int> {
    if x.Some? then timers - multiset{x.value} else timers
  }

  function Moved(s: State, t: nat, m: Move): State
    requires t < |s.producers|
  {
    s.(producers := s.producers[t := m.next], c := Add(s.c, m.delta),
       queue := Append(s.queue, m.sends), enqueued := Append(s.enqueued, m.sends),
       timers := With(Without(s.timers, m.takes), m.creates), gone := With(s.gone, m.gone))
  }

  /** The summary field the writer loads `field`-th. */
  function LoadField(c: Counters, w: Writer, field: nat, partial: Summary): Summary {
    match field
    case 0 => partial.(accepted := c.accepted)
    case 1 => partial.(written := w.written)
    case 2 => partial.(dropped := c.dropped)
    case 3 => partial.(expired := c.expired)
    case 4 => partial.(unfinished := w.unfinished)
    case _ => partial.(writeFailed := w.writeFailed)
  }

  /** One step of `write_records`; only receiving, sealing and closing touch state
      outside `Writer`. */
  function WriterStep(s: State, io: Io): State
    requires !s.w.place.Done?
  {
    match s.w.place
    case Sealing => s.(w := s.w.(place := LoadingStarted), receiverOpen := false)
    case Closing => CloseGate(s).(w := s.w.(place := Gate))
    case Receiving => s.(w := Receive(s.w, s.queue, s.handle), queue := if s.queue != [] then s.queue[1..] else [])
    case _ => s.(w := LocalStep(s.c, s.w, io))
  }

  /** `try_recv`: an empty queue ends the loop once sealed, closes the gate when
      every sender is gone and otherwise parks the thread. */
  function Receive(w: Writer, queue: seq<Record>, handle: Handle): Writer {
    if queue != [] then w.(place := Writing(queue[0]), taken := w.taken + 1)
    else if w.sealed then w.(place := Flushing)
    else if handle == Dropped then w.(place := Closing)
    else w.(place := Gate)
  }

  function LocalStep(c: Counters, w: Writer, io: Io): Writer {
    match w.place
    case Gate => w.(place := if !w.sealed && c.word == CLOSED then Sealing else Receiving)
    case LoadingStarted => w.(place := LoadingFinalized(c.started))
    case LoadingFinalized(startedSeen) => w.(place := Storing(startedSeen, c.finalized))
    case Storing(startedSeen, finalizedSeen) =>
      w.(place := Receiving, sealed := true,
         unfinished := if startedSeen >= finalizedSeen then startedSeen - finalizedSeen else 0)
    case Writing(r) =>
      if w.writeFailed then w.(place := Gate, discarded := w.discarded + 1)
      else if io.Complete? then w.(place := Gate, file := w.file + [RecordLine(r)], written := w.written + 1)
      else w.(place := Closing, file := w.file + io.residue, writeFailed := true, discarded := w.discarded + 1)
    case Flushing =>
      w.(place := Summing(0, Summary(0, 0, 0, 0, 0, false)), writeFailed := w.writeFailed || io.Failed?)
    case Summing(field, partial) =>
      var loaded := LoadField(c, w, field, partial);
      w.(place := if field < 5 then Summing(field + 1, loaded) else WritingSummary(loaded))
    case WritingSummary(summary) =>
      if io.Complete? then w.(place := Finishing, file := w.file + [SummaryLine(summary)])
      else w.(place := Finishing, file := w.file + io.residue, writeFailed := true)
    case Finishing => w.(place := Done, finished := true)
    case _ => w
  }

  function Apply(s: State, a: Action): State
    requires Enabled(s, a)
  {
    match a
    case Tick(elapsed) => s.(now := s.now + elapsed)
    case Close => CloseGate(s)
    case DropHandle => CloseGate(s).(handle := Dropping)
    case DropSender => s.(handle := Dropped)
    case StepWriter(io) => WriterStep(s, io)
    case _ => Moved(s, a.thread, ProducerMove(s, a))
  }

  // ----------------------------------------------------------------------- runs

  ghost predicate IsRun(trace: seq<State>, actions: seq<Action>) {
    && |trace| == |actions| + 1
    && Init(trace[0])
    && forall i {:trigger actions[i]} | 0 <= i < |actions| ::
         Enabled(trace[i], actions[i]) && trace[i + 1] == Apply(trace[i], actions[i])
  }

  // ------------------------------------------------------------ tally of threads

  /** What the threads inside sections owe to the shared counters; `holds` counts
      the threads that hold the timer `x` under consideration. An invariant speaks
      of the sum of these contributions. */
  datatype Tally = Tally(sections: nat, reservations: nat, uncounted: nat, undecided: int, inFlight: nat, holds: nat)

  function Is(timer: Option<int>, x: int): nat {
    if timer == Some(x) then 1 else 0
  }

  function Weigh(p: Producer, x: int): Tally {
    match p
    case Idle => Tally(0, 0, 0, 0, 0, 0)
    case BeginTimed | BeginExpiring | BeginLimited | BeginDropping | BeginStarting => Tally(1, 0, 0, 1, 0, 0)
    case BeginLeaving(timer) => Tally(1, 0, 0, 0, if timer.Some? then 1 else 0, Is(timer, x))
    case RecordSending(r) => Tally(1, 1, 0, 0, 1, Is(Some(r.timer), x))
    case RecordRefunding(r) => Tally(1, 1, 0, 0, 1, Is(Some(r.timer), x))
    case RecordAccepting => Tally(1, 1, 1, 0, 1, 0)
    case RecordFinalizing(unsent) => Tally(1, 0, 0, -1, 1, Is(unsent, x))
    case RecordLeaving => Tally(1, 0, 0, 0, 0, 0)
    case _ => Tally(1, 0, 0, 0, 1, Is(Some(p.record.timer), x))
  }

  function Plus(x: Tally, y: Tally): Tally {
    Tally(x.sections + y.sections, x.reservations + y.reservations, x.uncounted + y.uncounted,
          x.undecided + y.undecided, x.inFlight + y.inFlight, x.holds + y.holds)
  }

  const NONE := Tally(0, 0, 0, 0, 0, 0)

  function Total(ws: seq<Tally>): Tally {
    if |ws| == 0 then NONE else Plus(Total(ws[..|ws| - 1]), ws[|ws| - 1])
  }

  function Weights(ps: seq<Producer>, x: int): seq<Tally> {
    seq(|ps|, i requires 0 <= i < |ps| => Weigh(ps[i], x))
  }

  function Owed(s: State, x: int): Tally {
    Total(Weights(s.producers, x))
  }

  function Others(ws: seq<Tally>, t: nat): Tally
    requires t < |ws|
  {
    var last := |ws| - 1;
    if t == last then Total(ws[..last]) else Plus(Others(ws[..last], t), ws[last])
  }

  lemma {:induction false} Replace(ws: seq<Tally>, t: nat, w: Tally)
    requires t < |ws|
    ensures Total(ws[t := w]) == Plus(Others(ws, t), w)
  {
    var last := |ws| - 1;
    if t == last {
      assert ws[t := w][..last] == ws[..last];
    } else {
      assert ws[t := w][..last] == ws[..last][t := w];
      Replace(ws[..last], t, w);
    }
  }

  lemma WeightsUpdate(ps: seq<Producer>, t: nat, p: Producer, x: int)
    requires t < |ps|
    ensures Weights(ps[t := p], x) == Weights(ps, x)[t := Weigh(p, x)]
  {
    var qs := ps[t := p];
    forall i | 0 <= i < |ps| ensures Weights(qs, x)[i] == Weights(ps, x)[t := Weigh(p, x)][i] {
      assert qs[i] == if i == t then p else ps[i];
    }
  }

  /** Splits off one thread's contribution: moving thread `t` from its place to
      `p` leaves the contribution of the others alone. */
  lemma Focus(ps: seq<Producer>, t: nat, p: Producer, x: int) returns (rest: Tally)
    requires t < |ps|
    ensures Total(Weights(ps, x)) == Plus(rest, Weigh(ps[t], x))
    ensures Total(Weights(ps[t := p], x)) == Plus(rest, Weigh(p, x))
  {
    var ws := Weights(ps, x);
    rest := Others(ws, t);
    Replace(ws, t, ws[t]);
    assert ws[t := ws[t]] == ws;
    Replace(ws, t, Weigh(p, x));
    WeightsUpdate(ps, t, p, x);
  }

  /** The threads inside a section, and those holding an unresolved reservation. */
  function Inside(ps: seq<Producer>): set<nat> {
    set t: nat | t < |ps| && !ps[t].Idle?
  }

  function Reserving(ps: seq<Producer>): set<nat> {
    set t: nat | t < |ps| && (ps[t].RecordSending? || ps[t].RecordAccepting? || ps[t].RecordRefunding?)
  }

  function Accepting(ps: seq<Producer>): set<nat> {
    set t: nat | t < |ps| && ps[t].RecordAccepting?
  }

  lemma WeighCounts(p: Producer, x: int)
    ensures Weigh(p, x).sections == if p.Idle? then 0 else 1
    ensures Weigh(p, x).reservations == if p.RecordSending? || p.RecordAccepting? || p.RecordRefunding? then 1 else 0
    ensures Weigh(p, x).uncounted == if p.RecordAccepting? then 1 else 0
  {}

  lemma TotalOfLast(ps: seq<Producer>, x: int)
    requires ps != []
    ensures Total(Weights(ps, x)) == Plus(Total(Weights(ps[..|ps| - 1], x)), Weigh(ps[|ps| - 1], x))
  {
    assert Weights(ps, x)[..|ps| - 1] == Weights(ps[..|ps| - 1], x);
  }

  /** The tally counts threads: its sums are the sizes of these sets. */
  lemma {:induction false} TotalCountsThreads(ps: seq<Producer>, x: int)
    ensures Total(Weights(ps, x)).sections == |Inside(ps)|
    ensures Total(Weights(ps, x)).reservations == |Reserving(ps)|
    ensures Total(Weights(ps, x)).uncounted == |Accepting(ps)|
  {
    if ps != [] {
      var last := |ps| - 1;
      var init, p := ps[..last], ps[last];
      TotalCountsThreads(init, x);
      TotalOfLast(ps, x);
      WeighCounts(p, x);
      ThreadsOfLast(ps);
    }
  }

  lemma ThreadsOfLast(ps: seq<Producer>)
    requires ps != []
    ensures var init, p := ps[..|ps| - 1], ps[|ps| - 1];
            && |Inside(ps)| == |Inside(init)| + (if p.Idle? then 0 else 1)
            && |Reserving(ps)| == |Reserving(init)|
                 + (if p.RecordSending? || p.RecordAccepting? || p.RecordRefunding? then 1 else 0)
            && |Accepting(ps)| == |Accepting(init)| + (if p.RecordAccepting? then 1 else 0)
  {
    var last := |ps| - 1;
    var init := ps[..last];
    OneMore(Inside(init), Inside(ps), last);
    OneMore(Reserving(init), Reserving(ps), last);
    OneMore(Accepting(init), Accepting(ps), last);
  }

  lemma OneMore(small: set<nat>, large: set<nat>, last: nat)
    requires last !in small && forall t :: t in small <==> t in large && t != last
    ensures |large| == |small| + if last in large then 1 else 0
  {
    assert large == if last in large then small + {last} else small;
  }

  /** One column of a tally. */
  function Column(t: Tally, k: nat): int {
    match k
    case 0 => t.sections
    case 1 => t.reservations
    case 2 => t.uncounted
    case 3 => t.undecided
    case 4 => t.inFlight
    case _ => t.holds
  }

  lemma {:induction false} EmptyColumn(ws: seq<Tally>, k: nat)
    requires forall i | 0 <= i < |ws| :: Column(ws[i], k) == 0
    ensures Column(Total(ws), k) == 0
  {
    if |ws| > 0 {
      EmptyColumn(ws[..|ws| - 1], k);
    }
  }

  lemma IdleTotal(ps: seq<Producer>, x: int)
    requires AllIdle(ps)
    ensures Total(Weights(ps, x)) == NONE
  {
    var ws := Weights(ps, x);
    forall k: nat ensures Column(Total(ws), k) == 0 {
      EmptyColumn(ws, k);
    }
    var total := Total(ws);
    assert Column(total, 0) == 0 && Column(total, 1) == 0 && Column(total, 2) == 0;
    assert Column(total, 3) == 0 && Column(total, 4) == 0 && Column(total, 5) == 0;
  }

  lemma NoSectionsMeansAllIdle(ps: seq<Producer>, x: int)
    ensures Total(Weights(ps, x)).sections == 0 <==> AllIdle(ps)
    ensures AllIdle(ps) ==> Total(Weights(ps, x)) == NONE
  {
    if AllIdle(ps) {
      IdleTotal(ps, x);
    } else {
      var t :| 0 <= t < |ps| && !ps[t].Idle?;
      TotalCountsThreads(ps, x);
      assert t in Inside(ps);
    }
  }

  lemma OnlyIdleIsOutside(p: Producer, x: int)
    ensures p.Idle? <==> Weigh(p, x).sections == 0
  {}

  // ------------------------------------------------------------------ invariants

  /** How many of these records the timer `x` emitted. */
  function EmittedBy(rs: seq<Record>, x: int): nat {
    if |rs| == 0 then 0 else EmittedBy(rs[..|rs| - 1], x) + if rs[|rs| - 1].timer == x then 1 else 0
  }

  function Lines(rs: seq<Record>): seq<Line> {
    seq(|rs|, i requires 0 <= i < |rs| => RecordLine(rs[i]))
  }

  function SummaryOf(c: Counters, w: Writer): Summary {
    Summary(c.accepted, w.written, c.dropped, c.expired, w.unfinished, w.writeFailed)
  }

  /** The word is the close bit plus the number of live sections; reservations are
      accepted records plus unresolved ones; each admitted begin is counted once,
      in a counter, as an open timer or as still deciding. */
  predicate CounterInv(c: Counters, closed: bool, maxRecords: int, liveTimers: int, owed: Tally) {
    && c.word == (if closed then CLOSED else 0) + owed.sections
    && owed.sections < CLOSED
    && 0 <= c.accepted && c.reserved == c.accepted + owed.reservations <= maxRecords
    && c.admitted == c.accepted + c.dropped + c.expired + c.started - c.finalized + owed.undecided
    && 0 <= c.finalized && 0 <= c.lost && c.started == c.finalized + liveTimers + c.lost + owed.inFlight
  }

  /** Every timer ever started is in exactly one place, any other nowhere. */
  predicate TimerInv(s: State, x: int, owed: Tally) {
    s.timers[x] + owed.holds + EmittedBy(s.enqueued, x) + s.gone[x] == if 0 <= x < s.c.started then 1 else 0
  }

  predicate QueueInv(s: State, owed: Tally) {
    && |s.enqueued| == s.c.accepted + owed.uncounted
    && s.w.taken <= |s.enqueued|
    && s.queue == s.enqueued[s.w.taken..]
    && |s.queue| <= QUEUE_CAPACITY
  }

  function InHand(w: Writer): nat {
    if w.place.Writing? then 1 else 0
  }

  predicate Ended(w: Writer) {
    w.place.Finishing? || w.place.Done?
  }

  /** Records received so far were written, discarded or are in hand; while no
      write has failed the file is exactly the prefix already handled. */
  predicate FileInv(c: Counters, w: Writer, enqueued: seq<Record>) {
    && w.taken <= |enqueued|
    && w.written + w.discarded + InHand(w) == w.taken
    && 0 <= w.written
    && (w.place.Writing? ==> w.taken > 0 && w.place.record == enqueued[w.taken - 1])
    && (!w.writeFailed ==> w.discarded == 0)
    && (!w.writeFailed && !Ended(w) ==> w.file == Lines(enqueued[..w.taken - InHand(w)]))
    && (!w.writeFailed && Ended(w) ==> w.file == Lines(enqueued) + [SummaryLine(SummaryOf(c, w))])
  }

  predicate Concluding(p: Place) {
    p.Flushing? || p.Summing? || p.WritingSummary? || p.Finishing? || p.Done?
  }

  predicate Snapshotting(p: Place) {
    p.Sealing? || p.LoadingStarted? || p.LoadingFinalized? || p.Storing?
  }

  predicate Loaded(c: Counters, w: Writer, fields: nat, partial: Summary) {
    && (fields > 0 ==> partial.accepted == c.accepted)
    && (fields > 1 ==> partial.written == w.written)
    && (fields > 2 ==> partial.dropped == c.dropped)
    && (fields > 3 ==> partial.expired == c.expired)
    && (fields > 4 ==> partial.unfinished == w.unfinished)
  }

  /** The terminal snapshot is taken, and everything after it happens, only
      behind a word that is exactly CLOSED. */
  predicate SealInv(c: Counters, w: Writer, queue: seq<Record>) {
    && (w.sealed || Snapshotting(w.place) ==> c.word == CLOSED && c.started >= c.finalized)
    && (w.sealed ==> !Snapshotting(w.place) && w.unfinished == c.started - c.finalized)
    && (w.place.LoadingFinalized? || w.place.Storing? ==> w.place.startedSeen == c.started)
    && (w.place.Storing? ==> w.place.finalizedSeen == c.finalized)
    && (Concluding(w.place) ==> w.sealed && queue == [])
    && (w.place.Summing? ==> w.place.field <= 5 && Loaded(c, w, w.place.field, w.place.partial))
    && (w.place.WritingSummary? ==> w.place.summary == SummaryOf(c, w))
    && (w.finished <==> w.place.Done?)
  }

  predicate InvWith(s: State, x: int, owed: Tally) {
    && CounterInv(s.c, s.closed, s.limits.maxRecords, |s.timers|, owed)
    && TimerInv(s, x, owed) && QueueInv(s, owed)
    && FileInv(s.c, s.w, s.enqueued) && SealInv(s.c, s.w, s.queue)
  }

  /** The invariant as seen by the timer `x`; a reachable state has it for all. */
  predicate Inv(s: State, x: int) {
    InvWith(s, x, Owed(s, x))
  }

  lemma InitInv(s: State, x: int)
    requires Init(s)
    ensures Inv(s, x)
  {
    IdleTotal(s.producers, x);
    var owed := Owed(s, x);
    InitCounters(s.c, s.closed, s.limits.maxRecords, |s.timers|, owed);
    InitWriter(s.c, s.w, s.queue, s.enqueued);
    assert EmittedBy(s.enqueued, x) == 0;
  }

  lemma InitCounters(c: Counters, closed: bool, maxRecords: int, liveTimers: int, owed: Tally)
    requires c == ZERO && !closed && 0 <= maxRecords && liveTimers == 0
    requires owed.sections == owed.reservations == owed.inFlight == 0 && owed.undecided == 0
    ensures CounterInv(c, closed, maxRecords, liveTimers, owed)
  {}

  lemma InitWriter(c: Counters, w: Writer, queue: seq<Record>, enqueued: seq<Record>)
    requires c.started >= c.finalized && FreshWriter(w) && |queue| == |enqueued| == 0
    ensures FileInv(c, w, enqueued) && SealInv(c, w, queue)
  {}

  // -------------------------------------------- producers keep the invariant

  /** Every producer action moves as much into the counters as out of the
      thread's own debt, and creates a timer exactly when it counts one. */
  predicate Balanced(s: State, p: Producer, m: Move, x: int) {
    var before, after, d := Weigh(p, x), Weigh(m.next, x), m.delta;
    && d.word == after.sections - before.sections
    && d.reserved == d.accepted + after.reservations - before.reservations
    && d.admitted == d.accepted + d.dropped + d.expired + d.started - d.finalized + after.undecided - before.undecided
    && d.started == d.finalized + Count(m.creates) - Count(m.takes) + d.lost + after.inFlight - before.inFlight
    && Count(m.sends) == d.accepted + after.uncounted - before.uncounted
    && TimerBalanced(s.c.started, m, x, before.holds, after.holds)
  }

  predicate TimerBalanced(started: int, m: Move, x: int, before: nat, after: nat) {
    Is(m.creates, x) + after + (if m.sends.Some? && m.sends.value.timer == x then 1 else 0) + Is(m.gone, x)
    == Is(m.takes, x) + before + (if m.delta.started == 1 && x == started then 1 else 0)
  }

  function Count<T>(o: Option<T>): nat {
    if o.Some? then 1 else 0
  }

  /** The guards under which a producer action may raise a counter. */
  predicate Guarded(s: State, p: Producer, m: Move) {
    var d := m.delta;
    && (m.takes.Some? ==> m.takes.value in s.timers)
    && 0 <= d.started <= 1 && 0 <= d.accepted && 0 <= d.finalized && 0 <= d.lost
    && (d.word > 0 ==> d.word == 1 && Admits(s.c.word))
    && (d.reserved > 0 ==> d.reserved == 1 && s.c.reserved < s.limits.maxRecords)
    && (m.sends.Some? ==> |s.queue| < QUEUE_CAPACITY)
    && (p.Idle? && !Admits(s.c.word) ==> m.next == Idle && d == ZERO.(lost := d.lost) && m.sends == None)
  }

  lemma EnterBalanced(s: State, a: Action, x: int)
    requires Enabled(s, a) && (a.EnterBegin? || a.EnterRecord?)
    ensures Balanced(s, s.producers[a.thread], EnterMove(s, a), x)
    ensures Guarded(s, s.producers[a.thread], EnterMove(s, a))
  {}

  lemma BeginBalanced(s: State, p: Producer, x: int)
    requires Beginning(p)
    ensures Balanced(s, p, BeginMove(s, p), x) && Guarded(s, p, BeginMove(s, p))
  {}

  lemma RecordBalanced(s: State, p: Producer, x: int)
    requires !Beginning(p) && !p.Idle?
    ensures Balanced(s, p, RecordMove(s, p), x)
  {}

  lemma RecordGuarded(s: State, p: Producer)
    requires !Beginning(p) && !p.Idle?
    ensures Guarded(s, p, RecordMove(s, p))
  {}

  lemma MoveKeepsCounters(s: State, p: Producer, m: Move, x: int, rest: Tally)
    requires Balanced(s, p, m, x) && Guarded(s, p, m)
    requires CounterInv(s.c, s.closed, s.limits.maxRecords, |s.timers|, Plus(rest, Weigh(p, x)))
    ensures CounterInv(Add(s.c, m.delta), s.closed, s.limits.maxRecords,
                       |With(Without(s.timers, m.takes), m.creates)|, Plus(rest, Weigh(m.next, x)))
  {}

  lemma EmittedByMore(rs: seq<Record>, more: Option<Record>, x: int)
    ensures EmittedBy(Append(rs, more), x)
         == EmittedBy(rs, x) + if more.Some? && more.value.timer == x then 1 else 0
  {
    if more.Some? {
      assert (rs + [more.value])[..|rs|] == rs;
    }
  }

  lemma Multiplicity(timers: multiset<int>, takes: Option<int>, creates: Option<int>, x: int)
    requires takes.Some? ==> takes.value in timers
    ensures With(Without(timers, takes), creates)[x] == timers[x] - Is(takes, x) + Is(creates, x)
  {}

  lemma MoveKeepsTimers(s: State, t: nat, m: Move, x: int, rest: nat, before: Tally, after: Tally)
    requires t < |s.producers| && 0 <= s.c.started && 0 <= m.delta.started <= 1
    requires m.takes.Some? ==> m.takes.value in s.timers
    requires TimerBalanced(s.c.started, m, x, before.holds, after.holds)
    requires TimerInv(s, x, NONE.(holds := rest + before.holds))
    ensures TimerInv(Moved(s, t, m), x, NONE.(holds := rest + after.holds))
  {
    EmittedByMore(s.enqueued, m.sends, x);
    Multiplicity(s.timers, m.takes, m.creates, x);
    Multiplicity(s.gone, None, m.gone, x);
  }

  lemma MoveKeepsQueue(s: State, t: nat, m: Move, x: int, rest: Tally)
    requires t < |s.producers|
    requires Balanced(s, s.producers[t], m, x) && Guarded(s, s.producers[t], m)
    requires QueueInv(s, Plus(rest, Weigh(s.producers[t], x)))
    ensures QueueInv(Moved(s, t, m), Plus(rest, Weigh(m.next, x)))
  {}

  /** Behind a closed gate a producer can only lose a timer. */
  lemma MoveKeepsWriter(s: State, p: Producer, m: Move, x: int, rest: Tally)
    requires Balanced(s, p, m, x) && Guarded(s, p, m)
    requires CounterInv(s.c, s.closed, s.limits.maxRecords, |s.timers|, Plus(rest, Weigh(p, x)))
    requires FileInv(s.c, s.w, s.enqueued) && SealInv(s.c, s.w, s.queue)
    ensures FileInv(Add(s.c, m.delta), s.w, Append(s.enqueued, m.sends))
    ensures SealInv(Add(s.c, m.delta), s.w, Append(s.queue, m.sends))
  {
    if s.c.word == CLOSED {
      OnlyIdleIsOutside(p, x);
      assert p.Idle? && m.sends == None;
    } else {
      assert !Ended(s.w);
      assert Append(s.enqueued, m.sends)[..s.w.taken - InHand(s.w)] == s.enqueued[..s.w.taken - InHand(s.w)];
    }
  }

  lemma MoveKeepsInv(s: State, t: nat, m: Move, x: int)
    requires t < |s.producers| && Inv(s, x)
    requires Balanced(s, s.producers[t], m, x) && Guarded(s, s.producers[t], m)
    ensures Inv(Moved(s, t, m), x)
  {
    var p := s.producers[t];
    var rest := Focus(s.producers, t, m.next, x);
    MoveKeepsCounters(s, p, m, x, rest);
    MoveKeepsTimers(s, t, m, x, rest.holds, Weigh(p, x), Weigh(m.next, x));
    MoveKeepsQueue(s, t, m, x, rest);
    MoveKeepsWriter(s, p, m, x, rest);
  }

  lemma ProducerKeepsInv(s: State, a: Action, x: int)
    requires Enabled(s, a) && ByProducer(a) && Inv(s, x)
    ensures Inv(Apply(s, a), x)
  {
    var t, p, m := a.thread, s.producers[a.thread], ProducerMove(s, a);
    assert Balanced(s, p, m, x) && Guarded(s, p, m) by {
      if !a.StepProducer? {
        EnterBalanced(s, a, x);
      } else if Beginning(p) {
        BeginBalanced(s, p, x);
      } else {
        RecordBalanced(s, p, x);
        RecordGuarded(s, p);
      }
    }
    MoveKeepsInv(s, t, m, x);
  }

  // ---------------------------------------- the writer and the others keep it

  lemma WritingKeepsWriter(c: Counters, w: Writer, io: Io, enqueued: seq<Record>, queue: seq<Record>)
    requires w.place.Writing? && FileInv(c, w, enqueued) && SealInv(c, w, queue)
    ensures FileInv(c, LocalStep(c, w, io), enqueued) && SealInv(c, LocalStep(c, w, io), queue)
  {
    var r := w.place.record;
    assert enqueued[..w.taken] == enqueued[..w.taken - 1] + [r];
    assert Lines(enqueued[..w.taken]) == Lines(enqueued[..w.taken - 1]) + [RecordLine(r)];
  }

  lemma LocalStepKeepsWriter(c: Counters, w: Writer, io: Io, enqueued: seq<Record>, queue: seq<Record>)
    requires !w.place.Sealing? && !w.place.Closing? && !w.place.Receiving? && !w.place.Done?
    requires FileInv(c, w, enqueued) && SealInv(c, w, queue) && queue == enqueued[w.taken..]
    requires c.started >= c.finalized
    ensures FileInv(c, LocalStep(c, w, io), enqueued) && SealInv(c, LocalStep(c, w, io), queue)
    ensures LocalStep(c, w, io).taken == w.taken
  {
    if w.place.Writing? {
      WritingKeepsWriter(c, w, io, enqueued, queue);
    } else if w.place.WritingSummary? {
      assert enqueued[..w.taken] == enqueued;
    }
  }

  lemma ReceiveKeepsWriter(c: Counters, w: Writer, handle: Handle, enqueued: seq<Record>, queue: seq<Record>)
    requires FileInv(c, w, enqueued) && SealInv(c, w, queue)
    requires w.place.Receiving? && queue == enqueued[w.taken..]
    ensures var w', queue' := Receive(w, queue, handle), if queue != [] then queue[1..] else [];
            FileInv(c, w', enqueued) && SealInv(c, w', queue') && queue' == enqueued[w'.taken..]
  {
    if queue != [] {
      assert enqueued[w.taken..][1..] == enqueued[w.taken + 1..];
      assert enqueued[w.taken..][0] == enqueued[w.taken];
    }
  }

  lemma ClosingKeepsInv(s: State, x: int)
    requires Inv(s, x)
    ensures Inv(CloseGate(s), x)
  {
    assert Owed(CloseGate(s), x) == Owed(s, x);
  }

  lemma WriterFrame(s: State, w: Writer, queue: seq<Record>, receiverOpen: bool, x: int)
    requires Inv(s, x)
    requires FileInv(s.c, w, s.enqueued) && SealInv(s.c, w, queue)
    requires queue == s.enqueued[w.taken..] && |queue| <= |s.queue|
    ensures Inv(s.(w := w, queue := queue, receiverOpen := receiverOpen), x)
  {
    assert Owed(s.(w := w, queue := queue, receiverOpen := receiverOpen), x) == Owed(s, x);
  }

  lemma ShiftKeepsWriter(c: Counters, w: Writer, place: Place, enqueued: seq<Record>, queue: seq<Record>)
    requires FileInv(c, w, enqueued) && SealInv(c, w, queue)
    requires (w.place.Sealing? && place == LoadingStarted) || (w.place.Closing? && place == Gate)
    ensures FileInv(c, w.(place := place), enqueued) && SealInv(c, w.(place := place), queue)
  {}

  lemma LocalKeepsInv(s: State, io: Io, x: int)
    requires Inv(s, x)
    requires !s.w.place.Sealing? && !s.w.place.Closing? && !s.w.place.Receiving? && !s.w.place.Done?
    ensures Inv(s.(w := LocalStep(s.c, s.w, io)), x)
  {
    LocalStepKeepsWriter(s.c, s.w, io, s.enqueued, s.queue);
    WriterFrame(s, LocalStep(s.c, s.w, io), s.queue, s.receiverOpen, x);
  }

  lemma ReceivingKeepsInv(s: State, x: int)
    requires Inv(s, x) && s.w.place.Receiving?
    ensures Inv(s.(w := Receive(s.w, s.queue, s.handle), queue := if s.queue != [] then s.queue[1..] else []), x)
  {
    ReceiveKeepsWriter(s.c, s.w, s.handle, s.enqueued, s.queue);
    WriterFrame(s, Receive(s.w, s.queue, s.handle), if s.queue != [] then s.queue[1..] else [], s.receiverOpen, x);
  }

  lemma ShiftKeepsInv(s: State, place: Place, receiverOpen: bool, x: int)
    requires Inv(s, x)
    requires (s.w.place.Sealing? && place == LoadingStarted) || (s.w.place.Closing? && place == Gate)
    ensures Inv(s.(w := s.w.(place := place), receiverOpen := receiverOpen), x)
  {
    ShiftKeepsWriter(s.c, s.w, place, s.enqueued, s.queue);
    WriterFrame(s, s.w.(place := place), s.queue, receiverOpen, x);
  }

  lemma WriterKeepsInv(s: State, io: Io, x: int)
    requires Enabled(s, StepWriter(io)) && Inv(s, x)
    ensures Inv(WriterStep(s, io), x)
  {
    match s.w.place
    case Sealing => ShiftKeepsInv(s, LoadingStarted, false, x);
    case Closing =>
      ClosingKeepsInv(s, x);
      ShiftKeepsInv(CloseGate(s), Gate, s.receiverOpen, x);
    case Receiving => ReceivingKeepsInv(s, x);
    case _ => LocalKeepsInv(s, io, x);
  }

  lemma StepKeepsInv(s: State, a: Action, x: int)
    requires Enabled(s, a) && Inv(s, x)
    ensures Inv(Apply(s, a), x)
  {
    match a
    case Tick(_) =>
    case Close => ClosingKeepsInv(s, x);
    case DropHandle => ClosingKeepsInv(s, x);
    case DropSender =>
    case StepWriter(io) => WriterKeepsInv(s, io, x);
    case _ => ProducerKeepsInv(s, a, x);
  }

  lemma {:induction false} RunKeepsInv(trace: seq<State>, actions: seq<Action>, i: nat, x: int)
    requires IsRun(trace, actions) && i < |trace|
    ensures Inv(trace[i], x)
  {
    if i == 0 {
      InitInv(trace[0], x);
    } else {
      RunKeepsInv(trace, actions, i - 1, x);
      StepKeepsInv(trace[i - 1], actions[i - 1], x);
    }
  }

  // -------------------------------------------------------------- main theorems

  /** The word is always the close bit plus the number of live sections, and the
      count never reaches the close bit. */
  lemma GateIsExact(trace: seq<State>, actions: seq<Action>, i: nat)
    requires IsRun(trace, actions) && i < |trace|
    ensures trace[i].c.word == (if trace[i].closed then CLOSED else 0) + |Inside(trace[i].producers)|
    ensures |Inside(trace[i].producers)| < CLOSED
    ensures trace[i].closed <==> ClosedWithin(trace, actions, i)
  {
    RunKeepsInv(trace, actions, i, 0);
    TotalCountsThreads(trace[i].producers, 0);
    ClosedByAnAction(trace, actions, i);
  }

  ghost predicate ClosesGate(s: State, a: Action) {
    a.Close? || a.DropHandle? || (a.StepWriter? && s.w.place.Closing?)
  }

  /** Whether one of the first `n` actions closed the gate. */
  ghost predicate ClosedWithin(trace: seq<State>, actions: seq<Action>, n: nat)
    requires |trace| == |actions| + 1 && n <= |actions|
  {
    n > 0 && (ClosedWithin(trace, actions, n - 1) || ClosesGate(trace[n - 1], actions[n - 1]))
  }

  lemma StepFrame(s: State, a: Action)
    requires Enabled(s, a)
    ensures Apply(s, a).limits == s.limits
    ensures Apply(s, a).closed <==> s.closed || ClosesGate(s, a)
  {}

  lemma NextFrame(trace: seq<State>, actions: seq<Action>, i: nat)
    requires IsRun(trace, actions) && i < |actions|
    ensures trace[i + 1].limits == trace[i].limits
    ensures trace[i + 1].closed <==> trace[i].closed || ClosesGate(trace[i], actions[i])
  {
    StepFrame(trace[i], actions[i]);
  }

  lemma {:induction false} ClosedByAnAction(trace: seq<State>, actions: seq<Action>, i: nat)
    requires IsRun(trace, actions) && i < |trace|
    ensures trace[i].closed <==> ClosedWithin(trace, actions, i)
  {
    if i > 0 {
      ClosedByAnAction(trace, actions, i - 1);
      NextFrame(trace, actions, i - 1);
    }
  }

  /** Reservations are exactly the accepted records plus those still unresolved. */
  lemma ReservationsAreExact(trace: seq<State>, actions: seq<Action>, i: nat)
    requires IsRun(trace, actions) && i < |trace|
    ensures trace[i].c.reserved == trace[i].c.accepted + |Reserving(trace[i].producers)|
    ensures 0 <= trace[i].c.accepted <= trace[i].c.reserved <= trace[0].limits.maxRecords
  {
    RunKeepsInv(trace, actions, i, 0);
    TotalCountsThreads(trace[i].producers, 0);
    LimitsAreFixed(trace, actions, i);
  }

  lemma {:induction false} LimitsAreFixed(trace: seq<State>, actions: seq<Action>, i: nat)
    requires IsRun(trace, actions) && i < |trace|
    ensures trace[i].limits == trace[0].limits
  {
    if i > 0 {
      LimitsAreFixed(trace, actions, i - 1);
      NextFrame(trace, actions, i - 1);
    }
  }

  /** Producer-side counters without the losses a closed gate may still count. */
  function Settled(s: State): Counters {
    s.c.(lost := 0)
  }

  lemma FrozenStep(s: State, a: Action)
    requires Enabled(s, a) && AllIdle(s.producers) && s.c.word == CLOSED
    ensures Settled(Apply(s, a)) == Settled(s) && Apply(s, a).enqueued == s.enqueued && AllIdle(Apply(s, a).producers)
  {
    if ByProducer(a) {
      RefusedEntry(s, a);
    } else if a.StepWriter? {
      assert Settled(WriterStep(s, a.io)) == Settled(s);
    }
  }

  /** Behind the closed gate a call only notes a lost timer. */
  lemma RefusedEntry(s: State, a: Action)
    requires Enabled(s, a) && AllIdle(s.producers) && s.c.word == CLOSED && ByProducer(a)
    ensures Settled(Apply(s, a)) == Settled(s) && Apply(s, a).enqueued == s.enqueued
    ensures Apply(s, a).producers == s.producers
  {
    assert !a.StepProducer?;
    var m := EnterMove(s, a);
    assert m.next == Idle && m.sends == None && m.delta == if a.EnterRecord? then ZERO.(lost := 1) else ZERO;
    assert s.producers[a.thread := Idle] == s.producers;
  }

  /** Once the word reads exactly CLOSED no section ever runs again: every
      producer-side counter and the accepted sequence are frozen for good. */
  lemma {:induction false} Freeze(trace: seq<State>, actions: seq<Action>, i: nat, j: nat)
    requires IsRun(trace, actions) && i <= j < |trace| && trace[i].c.word == CLOSED
    ensures Settled(trace[j]) == Settled(trace[i]) && trace[j].enqueued == trace[i].enqueued
    ensures AllIdle(trace[j].producers)
    decreases j
  {
    if i == j {
      RunKeepsInv(trace, actions, i, 0);
      NoSectionsMeansAllIdle(trace[i].producers, 0);
    } else {
      Freeze(trace, actions, i, j - 1);
      RunKeepsInv(trace, actions, j - 1, 0);
      FrozenStep(trace[j - 1], actions[j - 1]);
    }
  }

  /** How many calls of `begin_record` passed the gate in the first `n` actions: their
      threads stood inside a section afterwards. */
  function BeginsAdmitted(trace: seq<State>, actions: seq<Action>, n: nat): nat
    requires |trace| == |actions| + 1 && n <= |actions|
  {
    Elapsed(Begins(trace, actions), 0, n)
  }

  function Begins(trace: seq<State>, actions: seq<Action>): seq<nat>
    requires |trace| == |actions| + 1
  {
    seq(|actions|, k requires 0 <= k < |actions| => Begun(actions[k], trace[k + 1].producers))
  }

  function Begun(a: Action, after: seq<Producer>): nat {
    if a.EnterBegin? && a.thread < |after| && !after[a.thread].Idle? then 1 else 0
  }

  lemma InsideAdmitsNone(s: State, p: Producer)
    ensures BeginMove(s, p).delta.admitted == 0 && RecordMove(s, p).delta.admitted == 0
  {}

  lemma AdmittedByMove(s: State, a: Action)
    requires Enabled(s, a) && ByProducer(a)
    ensures ProducerMove(s, a).delta.admitted == if a.EnterBegin? && !ProducerMove(s, a).next.Idle? then 1 else 0
  {
    InsideAdmitsNone(s, s.producers[a.thread]);
  }

  lemma AdmittedByStep(s: State, a: Action)
    requires Enabled(s, a)
    ensures Apply(s, a).c.admitted == s.c.admitted + Begun(a, Apply(s, a).producers)
  {
    if ByProducer(a) {
      AdmittedByMove(s, a);
      var m := ProducerMove(s, a);
      assert Moved(s, a.thread, m).producers[a.thread] == m.next;
    } else if a.StepWriter? {
      assert WriterStep(s, a.io).c.admitted == s.c.admitted;
    }
  }

  lemma NextAdmitted(trace: seq<State>, actions: seq<Action>, i: nat)
    requires IsRun(trace, actions) && i < |actions|
    ensures trace[i + 1].c.admitted == trace[i].c.admitted + Begun(actions[i], trace[i + 1].producers)
  {
    AdmittedByStep(trace[i], actions[i]);
  }

  lemma AdmittedIsCounted(trace: seq<State>, actions: seq<Action>, i: nat)
    requires IsRun(trace, actions) && i < |trace|
    ensures trace[i].c.admitted == BeginsAdmitted(trace, actions, i)
  {
    var counts := seq(|trace|, k requires 0 <= k < |trace| => trace[k].c.admitted);
    forall k | 0 <= k < |actions| ensures counts[k + 1] == counts[k] + Begins(trace, actions)[k] {
      NextAdmitted(trace, actions, k);
    }
    CountsTicks(counts, Begins(trace, actions), i);
  }

  /** Conservation at close: behind the terminal snapshot the four totals account
      for every begin that passed the gate, and `unfinished` is exactly the timers
      still open or refused by the closed gate. The subtraction that computes it
      never saturates, in any reachable state. */
  lemma ConservationAtClose(trace: seq<State>, actions: seq<Action>, i: nat)
    requires IsRun(trace, actions) && i < |trace|
    ensures 0 <= trace[i].c.finalized <= trace[i].c.started
    ensures trace[i].w.sealed ==>
              && trace[i].c.accepted + trace[i].c.dropped + trace[i].c.expired + trace[i].w.unfinished
                 == BeginsAdmitted(trace, actions, i)
              && trace[i].w.unfinished == |trace[i].timers| + trace[i].c.lost
  {
    RunKeepsInv(trace, actions, i, 0);
    AdmittedIsCounted(trace, actions, i);
    if trace[i].w.sealed {
      NoSectionsMeansAllIdle(trace[i].producers, 0);
    }
  }

  /** What `shutdown` answers once the writer has finished. */
  predicate ShutdownSucceeds(s: State) {
    s.w.finished && !s.w.writeFailed
  }

  /** If shutdown answers true, the file holds precisely the accepted records in
      queue order and one summary line that says they were all written. */
  lemma ExactOutput(trace: seq<State>, actions: seq<Action>, i: nat)
    requires IsRun(trace, actions) && i < |trace| && ShutdownSucceeds(trace[i])
    ensures var s := trace[i];
            && s.w.file == Lines(s.enqueued)
                         + [SummaryLine(Summary(|s.enqueued|, |s.enqueued|, s.c.dropped, s.c.expired,
                                                s.w.unfinished, false))]
            && s.c.accepted == s.w.written == |s.enqueued|
            && |s.enqueued| + s.c.dropped + s.c.expired + s.w.unfinished == BeginsAdmitted(trace, actions, i)
  {
    RunKeepsInv(trace, actions, i, 0);
    ConservationAtClose(trace, actions, i);
    FinishedState(trace[i]);
  }

  lemma FinishedState(s: State)
    requires Inv(s, 0) && s.w.finished
    ensures s.w.sealed && s.c.word == CLOSED && s.c.accepted == |s.enqueued| == s.w.taken
    ensures !s.w.writeFailed ==>
              s.w.written == s.w.taken && s.w.file == Lines(s.enqueued) + [SummaryLine(SummaryOf(s.c, s.w))]
  {
    assert s.w.place.Done?;
    NoSectionsMeansAllIdle(s.producers, 0);
  }

  /** A write failure is never forgotten and a finished writer never changes. */
  predicate Sticky(w: Writer, later: Writer) {
    (w.writeFailed ==> later.writeFailed) && (w.finished ==> later == w)
  }

  lemma StepIsSticky(s: State, a: Action)
    requires Enabled(s, a) && (s.w.finished <==> s.w.place.Done?)
    ensures Sticky(s.w, Apply(s, a).w)
  {}

  lemma NextIsSticky(trace: seq<State>, actions: seq<Action>, i: nat)
    requires IsRun(trace, actions) && i < |actions|
    ensures Sticky(trace[i].w, trace[i + 1].w)
  {
    FinishedIsDone(trace, actions, i);
    StepIsSticky(trace[i], actions[i]);
  }

  lemma {:induction false} WriterIsSticky(trace: seq<State>, actions: seq<Action>, i: nat, j: nat)
    requires IsRun(trace, actions) && i <= j < |trace|
    ensures Sticky(trace[i].w, trace[j].w)
    decreases j
  {
    if i < j {
      WriterIsSticky(trace, actions, i, j - 1);
      NextIsSticky(trace, actions, j - 1);
    }
  }

  lemma FinishedIsDone(trace: seq<State>, actions: seq<Action>, i: nat)
    requires IsRun(trace, actions) && i < |trace|
    ensures trace[i].w.finished <==> trace[i].w.place.Done?
  {
    RunKeepsInv(trace, actions, i, 0);
  }

  /** Each timer is recorded at most once: every accepted record comes from a timer that
      was started, is no longer open and emitted no other record. */
  lemma FinishOnce(trace: seq<State>, actions: seq<Action>, i: nat, a: nat)
    requires IsRun(trace, actions) && i < |trace| && a < |trace[i].enqueued|
    ensures var s := trace[i];
            && 0 <= s.enqueued[a].timer < s.c.started
            && s.enqueued[a].timer !in s.timers
            && forall b | 0 <= b < |s.enqueued| && b != a :: s.enqueued[b].timer != s.enqueued[a].timer
  {
    var s := trace[i];
    var x := s.enqueued[a].timer;
    RunKeepsInv(trace, actions, i, x);
    EmittedOnce(s.enqueued, a, x);
    forall b | 0 <= b < |s.enqueued| && b != a
      ensures s.enqueued[b].timer != x
    {
      if s.enqueued[b].timer == x {
        EmittedTwice(s.enqueued, if a < b then a else b, if a < b then b else a, x);
      }
    }
  }

  lemma {:induction false} EmittedTwice(rs: seq<Record>, a: nat, b: nat, x: int)
    requires a < b < |rs| && rs[a].timer == x
    ensures EmittedBy(rs, x) >= 1
    ensures rs[b].timer == x ==> EmittedBy(rs, x) >= 2
  {
    var init := rs[..|rs| - 1];
    if b < |rs| - 1 {
      EmittedTwice(init, a, b, x);
    } else {
      EmittedOnce(init, a, x);
    }
  }

  lemma {:induction false} EmittedOnce(rs: seq<Record>, a: nat, x: int)
    requires a < |rs| && rs[a].timer == x
    ensures EmittedBy(rs, x) >= 1
  {
    if a < |rs| - 1 {
      EmittedOnce(rs[..|rs| - 1], a, x);
    }
  }

  /** `written <= accepted` is not an invariant: the writer may finish with a record
      whose producer has not counted it yet. It holds exactly when the threads at
      that point do not outnumber the records still queued, in hand or discarded,
      and always once the gate reads CLOSED. */
  lemma WrittenWithinAccepted(trace: seq<State>, actions: seq<Action>, i: nat)
    requires IsRun(trace, actions) && i < |trace|
    ensures var s := trace[i];
            s.w.written <= s.c.accepted <==> |Accepting(s.producers)| <= |s.queue| + InHand(s.w) + s.w.discarded
    ensures trace[i].c.word == CLOSED ==> trace[i].w.written <= trace[i].c.accepted
    ensures trace[i].w.written <= |trace[i].enqueued|
  {
    RunKeepsInv(trace, actions, i, 0);
    TotalCountsThreads(trace[i].producers, 0);
    if trace[i].c.word == CLOSED {
      NoSectionsMeansAllIdle(trace[i].producers, 0);
    }
  }

  // ------------------------------------------------------------ the drain is bounded

  /** The writer's own steps still ahead of it once the gate reads CLOSED. */
  function StepsLeft(w: Writer, queued: nat): nat {
    var loop := 4 * queued + 10;
    match w.place
    case Gate => if w.sealed then loop + 1 else loop + 5
    case Sealing => loop + 4
    case LoadingStarted => loop + 3
    case LoadingFinalized(_) => loop + 2
    case Storing(_, _) => loop + 1
    case Receiving => if w.sealed then loop else loop + 8
    case Closing => if w.sealed then loop + 2 else loop + 6
    case Writing(_) => if w.sealed then loop + 3 else loop + 7
    case Flushing => 9
    case Summing(field, _) => if field <= 5 then 8 - field else 3
    case WritingSummary(_) => 2
    case Finishing => 1
    case Done => 0
  }

  lemma LocalAdvances(c: Counters, w: Writer, io: Io, queued: nat)
    requires !w.place.Done? && !w.place.Sealing? && !w.place.Closing? && !w.place.Receiving?
    requires c.word == CLOSED && (w.place.Summing? ==> w.place.field <= 5)
    ensures StepsLeft(LocalStep(c, w, io), queued) < StepsLeft(w, queued)
  {}

  lemma ReceiveAdvances(w: Writer, queue: seq<Record>, handle: Handle)
    requires w.place.Receiving?
    ensures StepsLeft(Receive(w, queue, handle), if |queue| > 0 then |queue| - 1 else 0) < StepsLeft(w, |queue|)
  {}

  lemma WriterAdvances(s: State, io: Io)
    requires !s.w.place.Done? && s.c.word == CLOSED && SealInv(s.c, s.w, s.queue)
    ensures StepsLeft(WriterStep(s, io).w, |WriterStep(s, io).queue|) < StepsLeft(s.w, |s.queue|)
  {
    if s.w.place.Receiving? {
      ReceiveAdvances(s.w, s.queue, s.handle);
    } else if !s.w.place.Sealing? && !s.w.place.Closing? {
      LocalAdvances(s.c, s.w, io, |s.queue|);
    }
  }

  lemma StepsLeftBound(w: Writer, queued: nat)
    ensures StepsLeft(w, queued) <= 4 * queued + 18
    ensures StepsLeft(w, queued) == 0 <==> w.place.Done?
  {}

  lemma OthersWait(s: State, a: Action)
    requires Enabled(s, a) && AllIdle(s.producers) && s.c.word == CLOSED && !a.StepWriter?
    ensures Apply(s, a).w == s.w && Apply(s, a).queue == s.queue
  {
    if ByProducer(a) {
      assert EnterMove(s, a).sends == None;
    }
  }

  function WriterTicks(actions: seq<Action>): seq<nat> {
    seq(|actions|, k requires 0 <= k < |actions| => if actions[k].StepWriter? then 1 else 0)
  }

  /** The writer's steps among `actions[i..j]`. */
  function WriterSteps(actions: seq<Action>, i: nat, j: nat): nat
    requires i <= j <= |actions|
  {
    Elapsed(WriterTicks(actions), i, j)
  }

  lemma NextDrain(trace: seq<State>, actions: seq<Action>, i: nat, j: nat)
    requires IsRun(trace, actions) && i <= j < |actions| && trace[i].c.word == CLOSED
    ensures var s, t := trace[j], trace[j + 1];
            StepsLeft(t.w, |t.queue|) + (if actions[j].StepWriter? then 1 else 0) <= StepsLeft(s.w, |s.queue|)
  {
    Freeze(trace, actions, i, j);
    RunKeepsInv(trace, actions, j, 0);
    var a := actions[j];
    assert trace[j].c.word == Settled(trace[j]).word == CLOSED;
    if a.StepWriter? {
      WriterAdvances(trace[j], a.io);
    } else {
      OthersWait(trace[j], a);
    }
  }

  /** Once the word reads CLOSED the writer finishes within a number of its own steps that
      the queue's length bounds, whatever the sink does and whatever else happens. */
  lemma DrainIsBounded(trace: seq<State>, actions: seq<Action>, i: nat, j: nat)
    requires IsRun(trace, actions) && i <= j < |trace| && trace[i].c.word == CLOSED
    ensures WriterSteps(actions, i, j) >= 4 * |trace[i].queue| + 18 ==> trace[j].w.finished
  {
    var left := seq(|trace|, k requires 0 <= k < |trace| => StepsLeft(trace[k].w, |trace[k].queue|));
    forall k | i <= k < |actions|
      ensures left[k + 1] + WriterTicks(actions)[k] <= left[k]
    {
      NextDrain(trace, actions, i, k);
    }
    Descends(left, WriterTicks(actions), i, j);
    StepsLeftBound(trace[i].w, |trace[i].queue|);
    StepsLeftBound(trace[j].w, |trace[j].queue|);
    FinishedIsDone(trace, actions, j);
  }

  // --------------------------------------------------------- closing is bounded too

  /** The steps a thread has left in its section. */
  function Rank(p: Producer): nat {
    match p
    case Idle => 0
    case BeginLeaving(_) | RecordLeaving => 1
    case BeginExpiring | BeginDropping | BeginStarting | RecordFinalizing(_) => 2
    case BeginLimited | RecordExpiring(_) | RecordRefusing(_) | RecordAccepting | RecordDropping(_) => 3
    case BeginTimed | RecordRefunding(_) => 4
    case RecordSending(_) => 5
    case RecordReserving(_) => 6
    case RecordTimed(_) => 7
  }

  function Ranks(ps: seq<Producer>): seq<nat> {
    seq(|ps|, t requires 0 <= t < |ps| => Rank(ps[t]))
  }

  lemma {:induction false} RanksBound(ps: seq<Producer>)
    ensures Sum(Ranks(ps)) <= 7 * |Inside(ps)|
  {
    if |ps| > 0 {
      var init := ps[..|ps| - 1];
      RanksBound(init);
      assert Ranks(ps)[..|ps| - 1] == Ranks(init);
      ThreadsOfLast(ps);
    }
  }

  lemma NoRankMeansAllIdle(ps: seq<Producer>)
    requires Sum(Ranks(ps)) == 0
    ensures AllIdle(ps)
  {
    forall t | 0 <= t < |ps| ensures ps[t].Idle? {
      PartOfSum(Ranks(ps), t);
    }
  }

  lemma StepLowersRank(s: State, p: Producer)
    requires !p.Idle?
    ensures Rank(if Beginning(p) then BeginMove(s, p).next else RecordMove(s, p).next) < Rank(p)
  {}

  /** Behind a closed gate every step inside a section brings it closer to its end, and no
      section begins. */
  lemma RanksFall(s: State, a: Action)
    requires Enabled(s, a) && s.c.word >= CLOSED
    ensures Sum(Ranks(Apply(s, a).producers)) + (if a.StepProducer? then 1 else 0) <= Sum(Ranks(s.producers))
  {
    if ByProducer(a) {
      var t, m := a.thread, ProducerMove(s, a);
      if a.StepProducer? {
        StepLowersRank(s, s.producers[t]);
      }
      assert Rank(m.next) + (if a.StepProducer? then 1 else 0) <= Rank(s.producers[t]);
      RanksUpdate(s.producers, t, m.next);
    }
  }

  lemma RanksUpdate(ps: seq<Producer>, t: nat, p: Producer)
    requires t < |ps|
    ensures Sum(Ranks(ps[t := p])) == Sum(Ranks(ps)) - Rank(ps[t]) + Rank(p)
  {
    assert Ranks(ps[t := p]) == Ranks(ps)[t := Rank(p)];
    SumUpdate(Ranks(ps), t, Rank(p));
  }

  function SectionTicks(actions: seq<Action>): seq<nat> {
    seq(|actions|, k requires 0 <= k < |actions| => if actions[k].StepProducer? then 1 else 0)
  }

  /** The steps inside sections among `actions[i..j]`. */
  function SectionSteps(actions: seq<Action>, i: nat, j: nat): nat
    requires i <= j <= |actions|
  {
    Elapsed(SectionTicks(actions), i, j)
  }

  lemma {:induction false} StaysClosed(trace: seq<State>, actions: seq<Action>, i: nat, j: nat)
    requires IsRun(trace, actions) && i <= j < |trace| && trace[i].closed
    ensures trace[j].closed
    decreases j
  {
    if i < j {
      StaysClosed(trace, actions, i, j - 1);
      NextFrame(trace, actions, j - 1);
    }
  }

  lemma NextRanks(trace: seq<State>, actions: seq<Action>, k: nat)
    requires IsRun(trace, actions) && k < |actions| && trace[k].closed
    ensures Sum(Ranks(trace[k + 1].producers)) + SectionTicks(actions)[k] <= Sum(Ranks(trace[k].producers))
  {
    RunKeepsInv(trace, actions, k, 0);
    var a := actions[k];
    RanksFall(trace[k], a);
  }

  /** The whole way from `close` to `finished`: a closed gate allows at most seven more steps
      per live section, after which the word reads CLOSED, and from there the writer needs at
      most 4 * 256 + 18 of its own. */
  lemma CloseIsBounded(trace: seq<State>, actions: seq<Action>, i: nat, m: nat, j: nat)
    requires IsRun(trace, actions) && i <= m <= j < |trace| && trace[i].closed
    ensures SectionSteps(actions, i, m) <= 7 * |Inside(trace[i].producers)|
    ensures SectionSteps(actions, i, m) == 7 * |Inside(trace[i].producers)| || AllIdle(trace[m].producers) ==>
              && trace[m].c.word == CLOSED
              && (WriterSteps(actions, m, j) >= 4 * QUEUE_CAPACITY + 18 ==> trace[j].w.finished)
  {
    var left := seq(|trace|, k requires 0 <= k < |trace| => Sum(Ranks(trace[k].producers)));
    forall k | i <= k < |actions| ensures left[k + 1] + SectionTicks(actions)[k] <= left[k] {
      StaysClosed(trace, actions, i, k);
      NextRanks(trace, actions, k);
    }
    Descends(left, SectionTicks(actions), i, m);
    RanksBound(trace[i].producers);
    if left[m] == 0 {
      NoRankMeansAllIdle(trace[m].producers);
    }
    if AllIdle(trace[m].producers) {
      StaysClosed(trace, actions, i, m);
      RunKeepsInv(trace, actions, m, 0);
      NoSectionsMeansAllIdle(trace[m].producers, 0);
      DrainIsBounded(trace, actions, m, j);
    }
  }
}
