/** Why the recorder's counters move: which calls the gate lets in, what makes a record
    late, refused or accepted, what the accepted records say and what a failed write does. */
module RecorderCauses {

  import opened Collections
  import opened Recorder
  import opened Wrappers

  // ------------------------------------------------------------------------ the gate

  /** A call gets in exactly while the gate is open and the count has room; a record that
      is refused loses its timer, and one that gets in holds what it was called with. */
  lemma GateAdmits(trace: seq<State>, actions: seq<Action>, i: nat)
    requires IsRun(trace, actions) && i < |actions| && (actions[i].EnterBegin? || actions[i].EnterRecord?)
    ensures actions[i].thread < |trace[i].producers| == |trace[i + 1].producers|
    ensures var s, t := trace[i], trace[i + 1];
            var p := t.producers[actions[i].thread];
            && (!p.Idle? <==> !s.closed && |Inside(s.producers)| < 0x7fff_ffff_ffff_ffff)
            && (actions[i].EnterBegin? ==> p == (if p.Idle? then Idle else BeginTimed) && t.timers == s.timers)
            && (actions[i].EnterRecord? ==>
                  && t.timers == s.timers - multiset{actions[i].timer}
                  && t.c.lost == s.c.lost + (if p.Idle? then 1 else 0)
                  && t.gone == (if p.Idle? then s.gone + multiset{actions[i].timer} else s.gone)
                  && p == if p.Idle? then Idle else RecordTimed(Record(actions[i].timer, actions[i].outcome)))
  {
    var a := actions[i];
    assert Enabled(trace[i], a) && trace[i + 1] == Moved(trace[i], a.thread, EnterMove(trace[i], a));
    GateIsExact(trace, actions, i);
  }

  // ----------------------------------------------------------------------- the causes

  datatype Cause = TooLate | NoRoom | Timed | Delivered

  /** At this step a thread looks at the clock, a limit or the queue and finds the cause. */
  predicate Finds(s: State, a: Action, cause: Cause) {
    a.StepProducer? && a.thread < |s.producers| &&
    var p := s.producers[a.thread];
    match cause
    case TooLate => (p.BeginTimed? || p.RecordTimed?) && s.now >= s.limits.duration
    case NoRoom =>
      || (p.BeginLimited? && s.c.accepted >= s.limits.maxRecords)
      || (p.RecordReserving? && s.c.reserved >= s.limits.maxRecords)
      || (p.RecordSending? && (!s.receiverOpen || |s.queue| >= 256))
    case Timed => p.BeginLimited? && s.c.accepted < s.limits.maxRecords
    case Delivered => p.RecordSending? && s.receiverOpen && |s.queue| < 256
  }

  /** The counter that remembers the cause. */
  function Counter(c: Counters, cause: Cause): int {
    match cause
    case TooLate => c.expired
    case NoRoom => c.dropped
    case Timed => c.started
    case Delivered => c.accepted
  }

  /** Whether the thread has found the cause and not counted it yet. */
  function Debt(p: Producer, cause: Cause): nat {
    match cause
    case TooLate => if p.BeginExpiring? || p.RecordExpiring? then 1 else 0
    case NoRoom => if p.BeginDropping? || p.RecordRefusing? || p.RecordRefunding? || p.RecordDropping? then 1 else 0
    case Timed => if p.BeginStarting? then 1 else 0
    case Delivered => if p.RecordAccepting? then 1 else 0
  }

  function Debts(ps: seq<Producer>, cause: Cause): seq<nat> {
    seq(|ps|, t requires 0 <= t < |ps| => Debt(ps[t], cause))
  }

  lemma DebtsUpdate(ps: seq<Producer>, t: nat, p: Producer, cause: Cause)
    requires t < |ps|
    ensures Sum(Debts(ps[t := p], cause)) == Sum(Debts(ps, cause)) - Debt(ps[t], cause) + Debt(p, cause)
  {
    assert Debts(ps[t := p], cause) == Debts(ps, cause)[t := Debt(p, cause)];
    SumUpdate(Debts(ps, cause), t, Debt(p, cause));
  }

  lemma {:induction false} NoDebts(ps: seq<Producer>, cause: Cause)
    requires AllIdle(ps)
    ensures Sum(Debts(ps, cause)) == 0
  {
    if ps != [] {
      assert Debts(ps, cause)[..|ps| - 1] == Debts(ps[..|ps| - 1], cause);
      NoDebts(ps[..|ps| - 1], cause);
    }
  }

  function Found(s: State, a: Action, cause: Cause): nat {
    if Finds(s, a, cause) then 1 else 0
  }

  lemma MoveCounts(s: State, a: Action, cause: Cause)
    requires Enabled(s, a) && ByProducer(a)
    ensures var m, p := ProducerMove(s, a), s.producers[a.thread];
            Counter(m.delta, cause) + Debt(m.next, cause) == Debt(p, cause) + Found(s, a, cause)
  {}

  /** What is counted or about to be. */
  function Owing(s: State, cause: Cause): int {
    Counter(s.c, cause) + Sum(Debts(s.producers, cause))
  }

  lemma StartsAtZero(s: State, cause: Cause)
    requires Init(s)
    ensures Owing(s, cause) == 0
  {
    NoDebts(s.producers, cause);
  }

  lemma StepCounts(s: State, a: Action, cause: Cause)
    requires Enabled(s, a)
    ensures Owing(Apply(s, a), cause) == Owing(s, cause) + Found(s, a, cause)
  {
    if ByProducer(a) {
      MoveCounts(s, a, cause);
      MovedOwes(s, a.thread, ProducerMove(s, a), cause);
    } else {
      OthersCountNothing(s, a, cause);
    }
  }

  lemma MovedOwes(s: State, t: nat, m: Move, cause: Cause)
    requires t < |s.producers|
    ensures Owing(Moved(s, t, m), cause) ==
            Owing(s, cause) + Counter(m.delta, cause) + Debt(m.next, cause) - Debt(s.producers[t], cause)
  {
    DebtsUpdate(s.producers, t, m.next, cause);
  }

  lemma OthersCountNothing(s: State, a: Action, cause: Cause)
    requires Enabled(s, a) && !ByProducer(a)
    ensures Apply(s, a).producers == s.producers && Counter(Apply(s, a).c, cause) == Counter(s.c, cause)
  {}

  /** How often the cause was found in the first `n` actions. */
  function Findings(trace: seq<State>, actions: seq<Action>, cause: Cause, n: nat): nat
    requires |trace| == |actions| + 1 && n <= |actions|
  {
    Elapsed(Marks(trace, actions, cause), 0, n)
  }

  function Marks(trace: seq<State>, actions: seq<Action>, cause: Cause): seq<nat>
    requires |trace| == |actions| + 1
  {
    seq(|actions|, k requires 0 <= k < |actions| => Found(trace[k], actions[k], cause))
  }

  lemma NextCounts(trace: seq<State>, actions: seq<Action>, cause: Cause, k: nat)
    requires IsRun(trace, actions) && k < |actions|
    ensures Owing(trace[k + 1], cause) == Owing(trace[k], cause) + Found(trace[k], actions[k], cause)
  {
    var a := actions[k];
    StepCounts(trace[k], a, cause);
  }

  lemma {:induction false} FindingsAreOwed(trace: seq<State>, actions: seq<Action>, cause: Cause, n: nat)
    requires IsRun(trace, actions) && n < |trace|
    ensures Owing(trace[n], cause) == Findings(trace, actions, cause, n)
  {
    if n == 0 {
      StartsAtZero(trace[0], cause);
    } else {
      FindingsAreOwed(trace, actions, cause, n - 1);
      NextCounts(trace, actions, cause, n - 1);
    }
  }

  /** Every counter has its cause: `expired` counts the looks at a clock past the duration,
      `dropped` those at an exhausted limit or a full or closed queue, `started` and
      `accepted` those that found room, each but for the threads about to count theirs. */
  lemma CausesAreCounted(trace: seq<State>, actions: seq<Action>, cause: Cause, n: nat)
    requires IsRun(trace, actions) && n < |trace|
    ensures Counter(trace[n].c, cause) + Sum(Debts(trace[n].producers, cause)) == Findings(trace, actions, cause, n)
    ensures AllIdle(trace[n].producers) ==> Counter(trace[n].c, cause) == Findings(trace, actions, cause, n)
  {
    FindingsAreOwed(trace, actions, cause, n);
    var s := trace[n];
    if AllIdle(s.producers) {
      NoDebts(s.producers, cause);
    }
  }

  // ------------------------------------------------------------- what the records say

  /** Some call before step `n` finished the timer of `r` with the outcome of `r`. */
  predicate Reported(actions: seq<Action>, n: nat, r: Record)
    requires n <= |actions|
  {
    exists i :: 0 <= i < n && ReportsAs(actions[i], r)
  }

  predicate ReportsAs(a: Action, r: Record) {
    a.EnterRecord? && a.timer == r.timer && a.outcome == r.outcome
  }

  function Carried(p: Producer): Option<Record> {
    match p
    case RecordTimed(r) => Some(r)
    case RecordExpiring(r) => Some(r)
    case RecordReserving(r) => Some(r)
    case RecordRefusing(r) => Some(r)
    case RecordSending(r) => Some(r)
    case RecordRefunding(r) => Some(r)
    case RecordDropping(r) => Some(r)
    case _ => None
  }

  /** Every record a thread carries or the queue ever took was reported. */
  ghost predicate Authentic(s: State, actions: seq<Action>, n: nat)
    requires n <= |actions|
  {
    forall r | Carries(s, r) || r in s.enqueued :: Reported(actions, n, r)
  }

  lemma MoveCarries(s: State, a: Action)
    requires Enabled(s, a) && ByProducer(a)
    ensures var m, p := ProducerMove(s, a), s.producers[a.thread];
            && (Carried(m.next).Some? ==> Carried(m.next) == Carried(p) || ReportsAs(a, Carried(m.next).value))
            && (m.sends.Some? ==> m.sends == Carried(p))
  {}

  lemma ReportedLater(actions: seq<Action>, n: nat, r: Record)
    requires n < |actions| && (Reported(actions, n, r) || ReportsAs(actions[n], r))
    ensures Reported(actions, n + 1, r)
  {
    if Reported(actions, n, r) {
      var i :| 0 <= i < n && ReportsAs(actions[i], r);
    }
  }

  lemma OthersCarryOn(s: State, a: Action)
    requires Enabled(s, a) && !ByProducer(a)
    ensures Apply(s, a).producers == s.producers && Apply(s, a).enqueued == s.enqueued
  {}

  predicate Carries(s: State, r: Record) {
    exists p :: p in s.producers && Carried(p) == Some(r)
  }

  lemma MovedCarries(s: State, t: nat, m: Move, a: Action, r: Record)
    requires t < |s.producers|
    requires Carried(m.next).Some? ==> Carried(m.next) == Carried(s.producers[t]) || ReportsAs(a, Carried(m.next).value)
    requires m.sends.Some? ==> m.sends == Carried(s.producers[t])
    ensures Carries(Moved(s, t, m), r) ==> Carries(s, r) || ReportsAs(a, r)
    ensures r in Moved(s, t, m).enqueued ==> r in s.enqueued || Carries(s, r)
  {
    assert s.producers[t] in s.producers;
    if Carries(Moved(s, t, m), r) {
      var p :| p in s.producers[t := m.next] && Carried(p) == Some(r);
      assert p == m.next || p in s.producers;
    }
  }

  /** Where the records of the next state come from. */
  lemma StepCarries(s: State, a: Action, r: Record)
    requires Enabled(s, a)
    ensures Carries(Apply(s, a), r) ==> Carries(s, r) || ReportsAs(a, r)
    ensures r in Apply(s, a).enqueued ==> r in s.enqueued || Carries(s, r)
  {
    if ByProducer(a) {
      MoveCarries(s, a);
      MovedCarries(s, a.thread, ProducerMove(s, a), a, r);
    } else {
      OthersCarryOn(s, a);
    }
  }

  lemma StepAuthentic(s: State, actions: seq<Action>, n: nat)
    requires n < |actions| && Enabled(s, actions[n]) && Authentic(s, actions, n)
    ensures Authentic(Apply(s, actions[n]), actions, n + 1)
  {
    var a := actions[n];
    var u := Apply(s, a);
    forall r | Carries(u, r) || r in u.enqueued ensures Reported(actions, n + 1, r) {
      StepCarries(s, a, r);
      ReportedLater(actions, n, r);
    }
  }

  lemma StartsWithout(s: State)
    requires Init(s)
    ensures forall r :: !Carries(s, r) && r !in s.enqueued
  {}

  /** Nothing is made up on the way: every accepted record, and so every line of the file
      behind a successful shutdown, carries the timer and the outcome of some call. */
  lemma {:induction false} RecordsAreAuthentic(trace: seq<State>, actions: seq<Action>, n: nat)
    requires IsRun(trace, actions) && n < |trace|
    ensures Authentic(trace[n], actions, n)
  {
    if n == 0 {
      StartsWithout(trace[0]);
    } else {
      RecordsAreAuthentic(trace, actions, n - 1);
      StepAuthentic(trace[n - 1], actions, n - 1);
    }
  }

  // ------------------------------------------------------------------ failed writes

  /** A failure closes the gate before the writer does anything else. */
  predicate FailureNoted(s: State) {
    s.w.writeFailed ==> s.closed || s.w.place.Closing?
  }

  lemma StepNotes(s: State, a: Action)
    requires Enabled(s, a) && FailureNoted(s) && Inv(s, 0)
    ensures FailureNoted(Apply(s, a))
  {}

  /** After a failed write admission is closed, and the records that are still received are
      discarded: not one more is counted as written. */
  lemma {:induction false} FailureCloses(trace: seq<State>, actions: seq<Action>, i: nat, j: nat)
    requires IsRun(trace, actions) && i <= j < |trace| && trace[i].w.writeFailed
    ensures trace[i].closed || trace[i].w.place.Closing?
    ensures trace[j].w.writeFailed && trace[j].w.written == trace[i].w.written
    decreases j
  {
    NotedBefore(trace, actions, i);
    if i < j {
      FailureCloses(trace, actions, i, j - 1);
      StepDiscards(trace[j - 1], actions[j - 1]);
    }
  }

  lemma StepDiscards(s: State, a: Action)
    requires Enabled(s, a) && s.w.writeFailed
    ensures Apply(s, a).w.writeFailed && Apply(s, a).w.written == s.w.written
  {
    if a.StepWriter? {
      LocalDiscards(s.c, s.w, a.io);
    } else {
      OthersLeaveIt(s, a);
    }
  }

  lemma LocalDiscards(c: Counters, w: Writer, io: Io)
    requires w.writeFailed
    ensures LocalStep(c, w, io).writeFailed && LocalStep(c, w, io).written == w.written
  {}

  lemma OthersLeaveIt(s: State, a: Action)
    requires Enabled(s, a) && !a.StepWriter?
    ensures Apply(s, a).w == s.w
  {}

  lemma {:induction false} NotedBefore(trace: seq<State>, actions: seq<Action>, n: nat)
    requires IsRun(trace, actions) && n < |trace|
    ensures FailureNoted(trace[n])
  {
    if n > 0 {
      NotedBefore(trace, actions, n - 1);
      RunKeepsInv(trace, actions, n - 1, 0);
      StepNotes(trace[n - 1], actions[n - 1]);
    }
  }

  /** The sink fails a write or flush that the writer asks for. */
  predicate SinkFails(s: State, a: Action) {
    a.StepWriter? && a.io.Failed? && (s.w.place.Writing? || s.w.place.Flushing? || s.w.place.WritingSummary?)
  }

  /** Whether that happened in the first `n` actions. */
  ghost predicate SinkFailedWithin(trace: seq<State>, actions: seq<Action>, n: nat)
    requires |trace| == |actions| + 1 && n <= |actions|
  {
    n > 0 && (SinkFailedWithin(trace, actions, n - 1) || SinkFails(trace[n - 1], actions[n - 1]))
  }

  lemma LocalNotices(c: Counters, w: Writer, io: Io)
    ensures LocalStep(c, w, io).writeFailed <==>
            w.writeFailed || (io.Failed? && (w.place.Writing? || w.place.Flushing? || w.place.WritingSummary?))
  {}

  lemma StepNotices(s: State, a: Action)
    requires Enabled(s, a)
    ensures Apply(s, a).w.writeFailed <==> s.w.writeFailed || SinkFails(s, a)
  {
    if a.StepWriter? {
      LocalNotices(s.c, s.w, a.io);
    } else {
      OthersLeaveIt(s, a);
    }
  }

  lemma {:induction false} FailuresAreNoticed(trace: seq<State>, actions: seq<Action>, n: nat)
    requires IsRun(trace, actions) && n < |trace|
    ensures trace[n].w.writeFailed <==> SinkFailedWithin(trace, actions, n)
  {
    if n > 0 {
      FailuresAreNoticed(trace, actions, n - 1);
      StepNotices(trace[n - 1], actions[n - 1]);
    }
  }

  /** `shutdown` answers true exactly when the writer has finished and the sink failed none of
      its writes and flushes. */
  lemma ShutdownIsHonest(trace: seq<State>, actions: seq<Action>, n: nat)
    requires IsRun(trace, actions) && n < |trace|
    ensures ShutdownSucceeds(trace[n]) <==> trace[n].w.finished && !SinkFailedWithin(trace, actions, n)
  {
    FailuresAreNoticed(trace, actions, n);
  }
}
