/** Whole calls of the recorder as paths of the small-step system: a call that no other
    thread interrupts is the calling thread's own steps, and a turn of the writer is the
    writer's. So what holds of every run holds of an object that is used call by call. */
module RecorderCalls {

  import opened Collections
  import opened Recorder
  import opened Wrappers

  // -------------------------------------------------------------------------- paths

  ghost predicate Path(states: seq<State>, actions: seq<Action>) {
    && |states| == |actions| + 1
    && forall i {:trigger actions[i]} | 0 <= i < |actions| :: Follows(states[i], actions[i], states[i + 1])
  }

  predicate Follows(s: State, a: Action, t: State) {
    Enabled(s, a) && t == Apply(s, a)
  }

  lemma Extended(states: seq<State>, actions: seq<Action>, a: Action, t: State)
    requires Path(states, actions) && Follows(states[|actions|], a, t)
    ensures Path(states + [t], actions + [a])
  {
    ChainGrows((x, b, y) => Follows(x, b, y), states, actions, a, t);
  }

  /** Whose step an action is. */
  datatype Actor = Thread(t: nat) | TheWriter | AnyCaller

  predicate By(a: Action, who: Actor) {
    match who
    case Thread(t) => ByProducer(a) && a.thread == t
    case TheWriter => a.StepWriter?
    case AnyCaller => a.Close?
  }

  /** Steps of `who` alone lead from `s` to `t`. */
  ghost predicate Leads(who: Actor, s: State, t: State) {
    exists states, actions :: PathFrom(who, s, t, states, actions)
  }

  ghost predicate PathFrom(who: Actor, s: State, t: State, states: seq<State>, actions: seq<Action>) {
    && Path(states, actions) && states[0] == s && states[|actions|] == t
    && forall a | a in actions :: By(a, who)
  }

  ghost predicate Reachable(s: State) {
    exists trace, actions :: RunsTo(s, trace, actions)
  }

  ghost predicate RunsTo(s: State, trace: seq<State>, actions: seq<Action>) {
    IsRun(trace, actions) && trace[|actions|] == s
  }

  lemma LeadsNowhere(who: Actor, s: State)
    ensures Leads(who, s, s)
  {
    assert PathFrom(who, s, s, [s], []);
  }

  lemma LeadsOn(who: Actor, s: State, t: State, a: Action)
    requires Leads(who, s, t) && Enabled(t, a) && By(a, who)
    ensures Leads(who, s, Apply(t, a))
  {
    var states, actions :| PathFrom(who, s, t, states, actions);
    var u := Apply(t, a);
    Extended(states, actions, a, u);
    assert PathFrom(who, s, u, states + [u], actions + [a]);
  }

  lemma InitialIsReachable(s: State)
    requires Init(s)
    ensures Reachable(s)
  {
    assert RunsTo(s, [s], []);
  }

  /** A path from a reachable state is the end of a run. */
  lemma LeadsReachable(who: Actor, s: State, t: State)
    requires Reachable(s) && Leads(who, s, t)
    ensures Reachable(t)
  {
    var states, actions :| PathFrom(who, s, t, states, actions);
    PathReachable(states, actions, |actions|);
  }

  lemma {:induction false} PathReachable(states: seq<State>, actions: seq<Action>, n: nat)
    requires Path(states, actions) && Reachable(states[0]) && n <= |actions|
    ensures Reachable(states[n])
  {
    if n > 0 {
      PathReachable(states, actions, n - 1);
      var a := actions[n - 1];
      StepReachable(states[n - 1], a);
    }
  }

  lemma StepReachable(s: State, a: Action)
    requires Reachable(s) && Enabled(s, a)
    ensures Reachable(Apply(s, a))
  {
    var trace, before :| RunsTo(s, trace, before);
    var t := Apply(s, a);
    Extended(trace, before, a, t);
    assert RunsTo(t, trace + [t], before + [a]);
  }

  // --------------------------------------------------------------- producers' calls

  predicate Starts(s: State) {
    Admits(s.c.word) && s.now < s.limits.duration && s.c.accepted < s.limits.maxRecords
  }

  function BeginCounters(s: State): Counters {
    if !Admits(s.c.word) then s.c
    else if Starts(s) then s.c.(admitted := s.c.admitted + 1, started := s.c.started + 1)
    else if s.now >= s.limits.duration then s.c.(admitted := s.c.admitted + 1, expired := s.c.expired + 1)
    else s.c.(admitted := s.c.admitted + 1, dropped := s.c.dropped + 1)
  }

  /** What one call of `begin_record` does; a timer it starts is named `s.c.started`. */
  function BeginCall(s: State): State {
    s.(c := BeginCounters(s), timers := if Starts(s) then s.timers + multiset{s.c.started} else s.timers)
  }

  predicate Delivers(s: State) {
    Admits(s.c.word) && s.now < s.limits.duration && s.c.reserved < s.limits.maxRecords
    && s.receiverOpen && |s.queue| < QUEUE_CAPACITY
  }

  function RecordCounters(s: State): Counters {
    if !Admits(s.c.word) then s.c.(lost := s.c.lost + 1)
    else if Delivers(s) then
      s.c.(reserved := s.c.reserved + 1, accepted := s.c.accepted + 1, finalized := s.c.finalized + 1)
    else if s.now >= s.limits.duration then s.c.(expired := s.c.expired + 1, finalized := s.c.finalized + 1)
    else s.c.(dropped := s.c.dropped + 1, finalized := s.c.finalized + 1)
  }

  /** What one call of `record` does with the timer it consumes. */
  function RecordCall(s: State, r: Record): State {
    s.(c := RecordCounters(s), timers := s.timers - multiset{r.timer},
       queue := if Delivers(s) then s.queue + [r] else s.queue,
       enqueued := if Delivers(s) then s.enqueued + [r] else s.enqueued,
       gone := if Delivers(s) then s.gone else s.gone + multiset{r.timer})
  }

  /** What a producer's steps touch besides its own place. */
  datatype Shared = Shared(c: Counters, queue: seq<Record>, enqueued: seq<Record>, timers: multiset<int>,
                           gone: multiset<int>)

  function SharedOf(s: State): Shared {
    Shared(s.c, s.queue, s.enqueued, s.timers, s.gone)
  }

  /** `s` with thread `t` standing at `p` and the shared state `h`. */
  function At(s: State, t: nat, p: Producer, h: Shared): State
    requires t < |s.producers|
  {
    s.(producers := s.producers[t := p], c := h.c, queue := h.queue, enqueued := h.enqueued, timers := h.timers,
       gone := h.gone)
  }

  function Touched(h: Shared, m: Move): Shared {
    Shared(Add(h.c, m.delta), Append(h.queue, m.sends), Append(h.enqueued, m.sends),
           With(Without(h.timers, m.takes), m.creates), With(h.gone, m.gone))
  }

  lemma AtIsStable(s: State, t: nat)
    requires t < |s.producers|
    ensures At(s, t, s.producers[t], SharedOf(s)) == s
  {
    assert s.producers[t := s.producers[t]] == s.producers;
  }

  lemma MovedAt(s: State, t: nat, p: Producer, h: Shared, m: Move)
    requires t < |s.producers|
    ensures Moved(At(s, t, p, h), t, m) == At(s, t, m.next, Touched(h, m))
  {
    assert s.producers[t := p][t := m.next] == s.producers[t := m.next];
  }

  lemma BeginStep(s: State, t: nat, p: Producer, h: Shared, from: State)
    requires t < |s.producers| && Beginning(p) && Leads(Thread(t), from, At(s, t, p, h))
    ensures var m := BeginMove(At(s, t, p, h), p); Leads(Thread(t), from, At(s, t, m.next, Touched(h, m)))
  {
    var u := At(s, t, p, h);
    LeadsOn(Thread(t), from, u, StepProducer(t));
    MovedAt(s, t, p, h, BeginMove(u, p));
  }

  /** One step of `record`, without its bookkeeping. */
  function RecordNext(s: State, p: Producer, h: Shared): (Producer, Shared) {
    match p
    case RecordTimed(r) => (if s.now >= s.limits.duration then RecordExpiring(r) else RecordReserving(r), h)
    case RecordExpiring(r) => (RecordFinalizing(Some(r.timer)), h.(c := h.c.(expired := h.c.expired + 1)))
    case RecordReserving(r) =>
      if h.c.reserved < s.limits.maxRecords then (RecordSending(r), h.(c := h.c.(reserved := h.c.reserved + 1)))
      else (RecordRefusing(r), h)
    case RecordRefusing(r) => (RecordFinalizing(Some(r.timer)), h.(c := h.c.(dropped := h.c.dropped + 1)))
    case RecordSending(r) =>
      if s.receiverOpen && |h.queue| < QUEUE_CAPACITY
      then (RecordAccepting, h.(queue := h.queue + [r], enqueued := h.enqueued + [r]))
      else (RecordRefunding(r), h)
    case RecordAccepting => (RecordFinalizing(None), h.(c := h.c.(accepted := h.c.accepted + 1)))
    case RecordRefunding(r) => (RecordDropping(r), h.(c := h.c.(reserved := h.c.reserved - 1)))
    case RecordDropping(r) => (RecordFinalizing(Some(r.timer)), h.(c := h.c.(dropped := h.c.dropped + 1)))
    case RecordFinalizing(unsent) =>
      (RecordLeaving, h.(c := h.c.(finalized := h.c.finalized + 1), gone := With(h.gone, unsent)))
    case RecordLeaving => (Idle, h.(c := h.c.(word := h.c.word - 1)))
    case _ => (p, h)
  }

  lemma RecordNextIsMove(s: State, t: nat, p: Producer, h: Shared)
    requires t < |s.producers|
    ensures var m := RecordMove(At(s, t, p, h), p); RecordNext(s, p, h) == (m.next, Touched(h, m))
  {
    var m := RecordMove(At(s, t, p, h), p);
    TouchedBy(h, m);
    assert m.next == RecordNext(s, p, h).0;
  }

  lemma TouchedBy(h: Shared, m: Move)
    requires m.takes == None && m.creates == None
    ensures Touched(h, m) == h.(c := Add(h.c, m.delta), queue := Append(h.queue, m.sends),
                                enqueued := Append(h.enqueued, m.sends), gone := With(h.gone, m.gone))
  {}

  lemma RecordStep(s: State, t: nat, p: Producer, h: Shared, from: State)
    requires t < |s.producers| && !Beginning(p) && !p.Idle? && Leads(Thread(t), from, At(s, t, p, h))
    ensures Leads(Thread(t), from, At(s, t, RecordNext(s, p, h).0, RecordNext(s, p, h).1))
  {
    var u := At(s, t, p, h);
    LeadsOn(Thread(t), from, u, StepProducer(t));
    MovedAt(s, t, p, h, RecordMove(u, p));
    RecordNextIsMove(s, t, p, h);
  }

  lemma EnterStep(s: State, t: nat, a: Action)
    requires t < |s.producers| && Enabled(s, a) && (a.EnterBegin? || a.EnterRecord?) && a.thread == t
    ensures var m := EnterMove(s, a); Leads(Thread(t), s, At(s, t, m.next, Touched(SharedOf(s), m)))
  {
    LeadsNowhere(Thread(t), s);
    LeadsOn(Thread(t), s, s, a);
    AtIsStable(s, t);
    MovedAt(s, t, s.producers[t], SharedOf(s), EnterMove(s, a));
  }

  lemma BeginDecides(s: State, t: nat, h: Shared, from: State)
    requires t < |s.producers| && Leads(Thread(t), from, At(s, t, BeginTimed, h))
    ensures var starts := s.now < s.limits.duration && h.c.accepted < s.limits.maxRecords;
            var c := if starts then h.c.(started := h.c.started + 1)
                     else if s.now >= s.limits.duration then h.c.(expired := h.c.expired + 1)
                     else h.c.(dropped := h.c.dropped + 1);
            Leads(Thread(t), from, At(s, t, BeginLeaving(if starts then Some(h.c.started) else None), h.(c := c)))
  {
    BeginStep(s, t, BeginTimed, h, from);
    if s.now >= s.limits.duration {
      BeginStep(s, t, BeginExpiring, h, from);
    } else {
      BeginStep(s, t, BeginLimited, h, from);
      BeginStep(s, t, if h.c.accepted >= s.limits.maxRecords then BeginDropping else BeginStarting, h, from);
    }
  }

  /** An uninterrupted `begin_record` is the calling thread's own steps. */
  lemma BeginLeads(s: State, t: nat)
    requires t < |s.producers| && s.producers[t].Idle? && s.handle == Held
    ensures Leads(Thread(t), s, BeginCall(s))
  {
    EnterStep(s, t, EnterBegin(t));
    AtIsStable(s, t);
    if Admits(s.c.word) {
      var h := SharedOf(s).(c := s.c.(word := s.c.word + 1, admitted := s.c.admitted + 1));
      BeginDecides(s, t, h, s);
      BeginLeaves(s, t, s);
    }
  }

  lemma BeginLeaves(s: State, t: nat, from: State)
    requires t < |s.producers| && s.producers[t].Idle? && Admits(s.c.word)
    requires var h := SharedOf(s).(c := BeginCounters(s).(word := s.c.word + 1));
             Leads(Thread(t), from, At(s, t, BeginLeaving(if Starts(s) then Some(s.c.started) else None), h))
    ensures Leads(Thread(t), from, BeginCall(s))
  {
    var h := SharedOf(s).(c := BeginCounters(s).(word := s.c.word + 1));
    BeginStep(s, t, BeginLeaving(if Starts(s) then Some(s.c.started) else None), h, from);
    AtIsStable(s, t);
  }

  lemma RecordDecides(s: State, t: nat, r: Record, h: Shared, from: State)
    requires t < |s.producers| && Leads(Thread(t), from, At(s, t, RecordTimed(r), h))
    ensures var free := s.now < s.limits.duration && h.c.reserved < s.limits.maxRecords;
            var sent := free && s.receiverOpen && |h.queue| < QUEUE_CAPACITY;
            var c := if sent then h.c.(reserved := h.c.reserved + 1, accepted := h.c.accepted + 1)
                     else if s.now >= s.limits.duration then h.c.(expired := h.c.expired + 1)
                     else h.c.(dropped := h.c.dropped + 1);
            Leads(Thread(t), from,
                  At(s, t, RecordFinalizing(if sent then None else Some(r.timer)),
                     if sent then h.(c := c, queue := h.queue + [r], enqueued := h.enqueued + [r]) else h.(c := c)))
  {
    RecordStep(s, t, RecordTimed(r), h, from);
    if s.now >= s.limits.duration {
      RecordStep(s, t, RecordExpiring(r), h, from);
    } else {
      RecordStep(s, t, RecordReserving(r), h, from);
      if h.c.reserved >= s.limits.maxRecords {
        RecordStep(s, t, RecordRefusing(r), h, from);
      } else {
        RecordSends(s, t, r, h.(c := h.c.(reserved := h.c.reserved + 1)), from);
      }
    }
  }

  lemma RecordSends(s: State, t: nat, r: Record, h: Shared, from: State)
    requires t < |s.producers| && Leads(Thread(t), from, At(s, t, RecordSending(r), h))
    ensures var sent := s.receiverOpen && |h.queue| < QUEUE_CAPACITY;
            if sent
            then Leads(Thread(t), from,
                       At(s, t, RecordFinalizing(None),
                          h.(c := h.c.(accepted := h.c.accepted + 1), queue := h.queue + [r],
                             enqueued := h.enqueued + [r])))
            else Leads(Thread(t), from,
                       At(s, t, RecordFinalizing(Some(r.timer)),
                          h.(c := h.c.(reserved := h.c.reserved - 1, dropped := h.c.dropped + 1))))
  {
    RecordStep(s, t, RecordSending(r), h, from);
    if s.receiverOpen && |h.queue| < QUEUE_CAPACITY {
      RecordStep(s, t, RecordAccepting, h.(queue := h.queue + [r], enqueued := h.enqueued + [r]), from);
    } else {
      RecordStep(s, t, RecordRefunding(r), h, from);
      RecordStep(s, t, RecordDropping(r), h.(c := h.c.(reserved := h.c.reserved - 1)), from);
    }
  }

  lemma RecordLeaves(s: State, t: nat, unsent: Option<int>, h: Shared, from: State)
    requires t < |s.producers| && Leads(Thread(t), from, At(s, t, RecordFinalizing(unsent), h))
    ensures Leads(Thread(t), from,
                  At(s, t, Idle, h.(c := h.c.(finalized := h.c.finalized + 1, word := h.c.word - 1),
                                   gone := With(h.gone, unsent))))
  {
    RecordStep(s, t, RecordFinalizing(unsent), h, from);
    RecordStep(s, t, RecordLeaving, h.(c := h.c.(finalized := h.c.finalized + 1), gone := With(h.gone, unsent)), from);
  }

  lemma RecordAdmitted(s: State, t: nat, r: Record)
    requires t < |s.producers| && s.producers[t].Idle? && Admits(s.c.word)
    requires Leads(Thread(t), s, At(s, t, RecordTimed(r), SharedOf(s).(c := s.c.(word := s.c.word + 1),
                                                                      timers := s.timers - multiset{r.timer})))
    ensures Leads(Thread(t), s, At(s, t, Idle, SharedOf(RecordCall(s, r))))
  {
    var h := SharedOf(s).(c := s.c.(word := s.c.word + 1), timers := s.timers - multiset{r.timer});
    RecordDecides(s, t, r, h, s);
    var c := RecordCounters(s).(word := s.c.word + 1, finalized := s.c.finalized);
    if Delivers(s) {
      RecordLeaves(s, t, None, h.(c := c, queue := h.queue + [r], enqueued := h.enqueued + [r]), s);
    } else {
      RecordLeaves(s, t, Some(r.timer), h.(c := c), s);
    }
  }

  /** So is an uninterrupted `record` of a timer the thread holds. */
  lemma RecordLeads(s: State, t: nat, r: Record)
    requires t < |s.producers| && s.producers[t].Idle? && r.timer in s.timers
    ensures Leads(Thread(t), s, RecordCall(s, r))
  {
    assert s.producers[t := Idle] == s.producers;
    if Admits(s.c.word) {
      EnterStep(s, t, EnterRecord(t, r.timer, r.outcome));
      RecordAdmitted(s, t, r);
    } else {
      RecordRefused(s, t, r);
    }
  }

  lemma RecordRefused(s: State, t: nat, r: Record)
    requires t < |s.producers| && s.producers[t].Idle? && r.timer in s.timers && !Admits(s.c.word)
    ensures Leads(Thread(t), s, RecordCall(s, r))
  {
    EnterStep(s, t, EnterRecord(t, r.timer, r.outcome));
    assert s.producers[t := Idle] == s.producers;
  }

  lemma CloseLeads(s: State)
    ensures Leads(AnyCaller, s, CloseGate(s))
  {
    LeadsNowhere(AnyCaller, s);
    LeadsOn(AnyCaller, s, s, Close);
  }

  // -------------------------------------------------------------- the writer's turns

  /** The head of a turn: behind a word that is exactly CLOSED the terminal snapshot is
      taken once. */
  function Received(s: State): State {
    if !s.w.sealed && s.c.word == CLOSED
    then s.(receiverOpen := false,
            w := s.w.(place := Receiving, sealed := true,
                      unfinished := if s.c.started >= s.c.finalized then s.c.started - s.c.finalized else 0))
    else s.(w := s.w.(place := Receiving))
  }

  function Wrote(w: Writer, r: Record, io: Io): Writer {
    var taken := w.(place := Gate, taken := w.taken + 1);
    if w.writeFailed then taken.(discarded := w.discarded + 1)
    else if io.Complete? then taken.(written := w.written + 1, file := w.file + [RecordLine(r)])
    else taken.(discarded := w.discarded + 1, file := w.file + io.residue, writeFailed := true)
  }

  /** The rest of a turn, from `try_recv` on; `Flushing` means the loop is over. */
  function Handled(u: State, io: Io): State {
    if |u.queue| > 0 then
      var w := Wrote(u.w, u.queue[0], io);
      (if w.writeFailed && !u.w.writeFailed then CloseGate(u) else u).(w := w, queue := u.queue[1..])
    else if u.w.sealed then u.(w := u.w.(place := Flushing))
    else (if u.handle == Dropped then CloseGate(u) else u).(w := u.w.(place := Gate))
  }

  /** One turn of the loop in `write_records`. */
  function Turn(s: State, io: Io): State {
    Handled(Received(s), io)
  }

  /** What follows the loop: flush, summary and flush again. */
  function Concluded(s: State, flush: Io, last: Io): State {
    var failed := s.w.writeFailed || flush.Failed?;
    var summary := Summary(s.c.accepted, s.w.written, s.c.dropped, s.c.expired, s.w.unfinished, failed);
    s.(w := s.w.(place := Done, finished := true, writeFailed := failed || last.Failed?,
                 file := s.w.file + if last.Complete? then [SummaryLine(summary)] else last.residue))
  }

  /** A turn takes one record, or ends the loop behind the gate, or waits. */
  lemma TurnTakes(s: State, io: Io)
    ensures var t := Turn(s, io);
            && (t.w.place.Gate? || t.w.place.Flushing?)
            && t.enqueued == s.enqueued
            && (t.w.writeFailed <==> s.w.writeFailed || (|s.queue| > 0 && io.Failed?))
            && (s.c.word == CLOSED ==>
                  && t.c.word == CLOSED
                  && (if |s.queue| > 0 then t.w.place.Gate? && |t.queue| == |s.queue| - 1 else t.w.place.Flushing?))
  {
    var u := Received(s);
    assert u.queue == s.queue && u.enqueued == s.enqueued && u.c == s.c && u.w.writeFailed == s.w.writeFailed;
    HandledTakes(u, io);
  }

  lemma HandledTakes(u: State, io: Io)
    requires u.c.word == CLOSED ==> u.w.sealed
    ensures var t := Handled(u, io);
            && (t.w.place.Gate? || t.w.place.Flushing?)
            && t.enqueued == u.enqueued
            && (t.w.writeFailed <==> u.w.writeFailed || (|u.queue| > 0 && io.Failed?))
            && (u.c.word == CLOSED ==>
                  && t.c.word == CLOSED
                  && (if |u.queue| > 0 then t.w.place.Gate? && |t.queue| == |u.queue| - 1 else t.w.place.Flushing?))
  {}

  /** What a turn does with the head of the queue and the file. */
  predicate Handles(queue: seq<Record>, w: Writer, io: Io, queue': seq<Record>, w': Writer, closed': bool) {
    if queue == [] then queue' == [] && w'.file == w.file && w'.written == w.written
    else
      && queue' == queue[1..] && w'.taken == w.taken + 1 && w'.place.Gate?
      && (if w.writeFailed then w'.file == w.file && w'.written == w.written
          else if io.Complete? then w'.file == w.file + [RecordLine(queue[0])] && w'.written == w.written + 1
          else w'.writeFailed && closed' && w'.written == w.written)
  }

  lemma TurnHandles(s: State, io: Io)
    ensures var t := Turn(s, io);
            && Handles(s.queue, s.w, io, t.queue, t.w, t.closed)
            && (s.queue == [] ==> (t.w.place.Flushing? <==> s.w.sealed || s.c.word == CLOSED))
            && (s.queue == [] && t.w.place.Gate? && s.handle == Dropped ==> t.closed)
  {
    var u := Received(s);
    assert u.queue == s.queue && u.w.file == s.w.file && u.w.written == s.w.written && u.w.taken == s.w.taken;
    assert u.w.writeFailed == s.w.writeFailed && (u.w.sealed <==> s.w.sealed || s.c.word == CLOSED);
  }

  /** The steps the writer has left in its current iteration, or until it is done. */
  function TurnLeft(p: Place): nat {
    match p
    case Gate | Done => 0
    case Closing | Finishing => 1
    case Writing(_) | WritingSummary(_) => 2
    case Summing(field, _) => if field <= 5 then 8 - field else 3
    case Flushing => 9
    case Receiving => 10
    case Storing(_, _) => 11
    case LoadingFinalized(_) => 12
    case LoadingStarted => 13
    case Sealing => 14
  }

  lemma TurnEnds(s: State, io: Io)
    requires !s.w.place.Gate? && !s.w.place.Done? && SealInv(s.c, s.w, s.queue)
    ensures var t := WriterStep(s, io);
            && TurnLeft(t.w.place) < TurnLeft(s.w.place)
            && t.enqueued == s.enqueued && |t.queue| <= |s.queue|
            && (s.c.word == CLOSED ==> t.c.word == CLOSED)
  {
    if s.w.place.Receiving? {
      assert TurnLeft(Receive(s.w, s.queue, s.handle).place) < 10;
    } else if !s.w.place.Sealing? && !s.w.place.Closing? {
      LocalTurnEnds(s.c, s.w, io);
    }
  }

  lemma LocalTurnEnds(c: Counters, w: Writer, io: Io)
    requires !w.place.Gate? && !w.place.Done? && !w.place.Sealing? && !w.place.Closing? && !w.place.Receiving?
    requires w.place.Summing? ==> w.place.field <= 5
    ensures TurnLeft(LocalStep(c, w, io).place) < TurnLeft(w.place)
  {}

  lemma WriterStepReachable(s: State, io: Io)
    requires Reachable(s) && !s.w.place.Done?
    ensures Reachable(WriterStep(s, io))
  {
    StepReachable(s, StepWriter(io));
  }

  lemma WriterOn(from: State, s: State, io: Io)
    requires Leads(TheWriter, from, s) && !s.w.place.Done?
    ensures Leads(TheWriter, from, WriterStep(s, io))
  {
    LeadsOn(TheWriter, from, s, StepWriter(io));
  }

  lemma GateLeads(s: State, io: Io)
    requires s.w.place.Gate?
    ensures Leads(TheWriter, s, Received(s))
  {
    LeadsNowhere(TheWriter, s);
    WriterOn(s, s, io);
    if !s.w.sealed && s.c.word == CLOSED {
      SealLeads(s, s, io);
    }
  }

  lemma SealLeads(from: State, s: State, io: Io)
    requires Leads(TheWriter, from, s.(w := s.w.(place := Sealing))) && !s.w.sealed && s.c.word == CLOSED
    ensures Leads(TheWriter, from, Received(s))
  {
    WriterOn(from, s.(w := s.w.(place := Sealing)), io);
    var u := s.(receiverOpen := false);
    WriterOn(from, u.(w := u.w.(place := LoadingStarted)), io);
    WriterOn(from, u.(w := u.w.(place := LoadingFinalized(u.c.started))), io);
    WriterOn(from, u.(w := u.w.(place := Storing(u.c.started, u.c.finalized))), io);
  }

  lemma WritingLeads(from: State, u: State, r: Record, rest: seq<Record>, io: Io)
    requires Leads(TheWriter, from, u.(w := u.w.(place := Writing(r), taken := u.w.taken + 1), queue := rest))
    ensures var w := Wrote(u.w, r, io);
            Leads(TheWriter, from,
                  (if w.writeFailed && !u.w.writeFailed then CloseGate(u) else u).(w := w, queue := rest))
  {
    var v := u.(w := u.w.(place := Writing(r), taken := u.w.taken + 1), queue := rest);
    WriterOn(from, v, io);
    if !u.w.writeFailed && io.Failed? {
      WriterOn(from, v.(w := Wrote(u.w, r, io).(place := Closing)), io);
    }
  }

  lemma HandledLeads(from: State, u: State, io: Io)
    requires u.w.place.Receiving? && Leads(TheWriter, from, u)
    ensures Leads(TheWriter, from, Handled(u, io))
  {
    WriterOn(from, u, io);
    if |u.queue| > 0 {
      WritingLeads(from, u, u.queue[0], u.queue[1..], io);
    } else if !u.w.sealed && u.handle == Dropped {
      WriterOn(from, u.(w := u.w.(place := Closing), queue := []), io);
    }
  }

  /** A turn is the writer's own steps. */
  lemma TurnLeads(s: State, io: Io)
    requires s.w.place.Gate?
    ensures Leads(TheWriter, s, Turn(s, io))
  {
    GateLeads(s, io);
    HandledLeads(s, Received(s), io);
  }

  lemma SumsLead(from: State, s: State, partial: Summary, field: nat, io: Io)
    requires field <= 5 && Leads(TheWriter, from, s.(w := s.w.(place := Summing(field, partial))))
    ensures Leads(TheWriter, from,
                  s.(w := s.w.(place := if field < 5 then Summing(field + 1, LoadField(s.c, s.w, field, partial))
                                        else WritingSummary(LoadField(s.c, s.w, field, partial)))))
  {
    WriterOn(from, s.(w := s.w.(place := Summing(field, partial))), io);
  }

  lemma SummaryLeads(from: State, s: State, io: Io)
    requires Leads(TheWriter, from, s.(w := s.w.(place := Summing(0, Summary(0, 0, 0, 0, 0, false)))))
    ensures Leads(TheWriter, from, s.(w := s.w.(place := WritingSummary(SummaryOf(s.c, s.w)))))
  {
    var p0 := Summary(0, 0, 0, 0, 0, false);
    SumsLead(from, s, p0, 0, io);
    var p1 := p0.(accepted := s.c.accepted);
    SumsLead(from, s, p1, 1, io);
    var p2 := p1.(written := s.w.written);
    SumsLead(from, s, p2, 2, io);
    var p3 := p2.(dropped := s.c.dropped);
    SumsLead(from, s, p3, 3, io);
    var p4 := p3.(expired := s.c.expired);
    SumsLead(from, s, p4, 4, io);
    var p5 := p4.(unfinished := s.w.unfinished);
    SumsLead(from, s, p5, 5, io);
  }

  lemma LastLeads(from: State, u: State, last: Io)
    requires Leads(TheWriter, from, u.(w := u.w.(place := WritingSummary(SummaryOf(u.c, u.w)))))
    ensures Leads(TheWriter, from,
                  u.(w := u.w.(place := Done, finished := true, writeFailed := u.w.writeFailed || last.Failed?,
                               file := u.w.file + if last.Complete? then [SummaryLine(SummaryOf(u.c, u.w))]
                                                  else last.residue)))
  {
    WriterOn(from, u.(w := u.w.(place := WritingSummary(SummaryOf(u.c, u.w)))), last);
    var file := u.w.file + if last.Complete? then [SummaryLine(SummaryOf(u.c, u.w))] else last.residue;
    var w := u.w.(place := Finishing, file := file, writeFailed := u.w.writeFailed || last.Failed?);
    WriterOn(from, u.(w := w), last);
  }

  /** So is the conclusion. */
  lemma ConcludedLeads(s: State, flush: Io, last: Io)
    requires s.w.place.Flushing?
    ensures Leads(TheWriter, s, Concluded(s, flush, last))
  {
    LeadsNowhere(TheWriter, s);
    WriterOn(s, s, flush);
    var u := s.(w := s.w.(writeFailed := s.w.writeFailed || flush.Failed?));
    SummaryLeads(s, u, flush);
    LastLeads(s, u, last);
  }

  // ----------------------------------------------------- what holds at every call

  /** Every reachable state has the invariant, accounts for its begins once sealed and has
      an exact file once the writer finished without a failure. */
  lemma ReachableIsSound(s: State, x: int)
    requires Reachable(s)
    ensures Inv(s, x)
    ensures s.w.sealed ==> s.c.accepted + s.c.dropped + s.c.expired + s.w.unfinished == s.c.admitted
    ensures ShutdownSucceeds(s) ==>
              s.w.file == Lines(s.enqueued)
                        + [SummaryLine(Summary(|s.enqueued|, |s.enqueued|, s.c.dropped, s.c.expired,
                                               s.w.unfinished, false))]
  {
    var trace, actions :| RunsTo(s, trace, actions);
    var n := |actions|;
    RunKeepsInv(trace, actions, n, x);
    ConservationAtClose(trace, actions, n);
    AdmittedIsCounted(trace, actions, n);
    if ShutdownSucceeds(s) {
      ExactOutput(trace, actions, n);
    }
  }

  /** Whether a call would get in now. */
  predicate Admitting(s: State) {
    !s.closed && |Inside(s.producers)| < 0x7fff_ffff_ffff_ffff
  }

  lemma AdmitsWhileOpen(s: State)
    requires Reachable(s)
    ensures Admits(s.c.word) <==> Admitting(s)
  {
    ReachableIsSound(s, 0);
    TotalCountsThreads(s.producers, 0);
  }

  /** What a begin does, by whether it gets in, the clock and the limit. */
  lemma BeginAccounts(s: State)
    requires Reachable(s)
    ensures Starts(s) <==> Admitting(s) && s.now < s.limits.duration && s.c.accepted < s.limits.maxRecords
    ensures s.c.started !in s.timers
    ensures BeginCounters(s) ==
            if !Admitting(s) then s.c
            else if s.now >= s.limits.duration then s.c.(admitted := s.c.admitted + 1, expired := s.c.expired + 1)
            else if s.c.accepted >= s.limits.maxRecords then
              s.c.(admitted := s.c.admitted + 1, dropped := s.c.dropped + 1)
            else s.c.(admitted := s.c.admitted + 1, started := s.c.started + 1)
  {
    AdmitsWhileOpen(s);
    assert TimerInv(s, s.c.started, Owed(s, s.c.started)) by {
      ReachableIsSound(s, s.c.started);
    }
  }
}
