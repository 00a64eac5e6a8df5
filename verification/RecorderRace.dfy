/** A run in which the writer is ahead of a producer's accounting. */
module RecorderRace {

  import opened Recorder
  import opened RecorderCalls

  /** A thread that holds a timer has enqueued its record and not yet counted it. */
  lemma SentUncounted(s: State, t: nat, r: Record) returns (u: State)
    requires Reachable(s) && t < |s.producers| && s.producers[t].Idle? && r.timer in s.timers && Delivers(s)
    ensures Reachable(u) && u.queue == s.queue + [r] && u.c.accepted == s.c.accepted && u.w == s.w
    ensures u.c.word == s.c.word + 1
  {
    EnterStep(s, t, EnterRecord(t, r.timer, r.outcome));
    var h := SharedOf(s).(c := s.c.(word := s.c.word + 1), timers := s.timers - multiset{r.timer});
    RecordStep(s, t, RecordTimed(r), h, s);
    RecordStep(s, t, RecordReserving(r), h, s);
    var h' := h.(c := h.c.(reserved := h.c.reserved + 1));
    RecordStep(s, t, RecordSending(r), h', s);
    u := At(s, t, RecordAccepting, h'.(queue := h.queue + [r], enqueued := h.enqueued + [r]));
    LeadsReachable(Thread(t), s, u);
  }

  lemma WrittenBeforeCounted(s: State, r: Record) returns (u: State)
    requires Reachable(s) && s.w.place.Gate? && !s.w.writeFailed && s.queue == [r] && s.c.word != CLOSED
    ensures Reachable(u) && u.w.written == s.w.written + 1 && u.c.accepted == s.c.accepted
  {
    u := Turn(s, Complete);
    TurnLeads(s, Complete);
    LeadsReachable(TheWriter, s, u);
  }

  lemma OneTimer(s: State) returns (u: State)
    requires Init(s) && |s.producers| > 0 && Starts(s)
    ensures Reachable(u) && u == BeginCall(s)
  {
    u := BeginCall(s);
    InitialIsReachable(s);
    BeginLeads(s, 0);
    LeadsReachable(Thread(0), s, u);
  }

  /** `written <= accepted` is not an invariant of the runs. */
  lemma WrittenCanRunAhead() returns (s: State)
    ensures Reachable(s) && s.w.written > s.c.accepted
  {
    var s0 := State(Limits(1, 1), 0, ZERO, Held, true, [], [Idle], multiset{},
                    Writer(Gate, false, 0, 0, false, false, [], 0, 0), false, multiset{}, []);
    var s1 := OneTimer(s0);
    var s2 := SentUncounted(s1, 0, Record(0, Ok));
    s := WrittenBeforeCounted(s2, Record(0, Ok));
  }
}
