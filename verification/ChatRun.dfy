/** Whole runs of the chat workload: clients join, open schedules, send and observe in any
    order. The totals of the report are tied to the events that happened. */
module ChatRun {

  import opened Arithmetic
  import opened ChatPlan
  import opened ChatOracle
  import opened Wrappers

  datatype System = System(load: Load, schedules: seq<Schedule>)

  datatype Event =
    | Register(i: nat, participant: int)
    | Open(i: nat)
    | Prepare(k: nat, now: int)
    | Observe(i: nat, message: ServerMessage, now: int)

  function Start(c: Config): System {
    System(EmptyLoad(c), [])
  }

  predicate Enabled(c: Config, s: System, e: Event) {
    Shaped(c, s.load) &&
    match e
    case Register(i, _) => i < c.clients
    case Open(i) => i < c.clients
    case Prepare(k, _) => k < |s.schedules|
    case Observe(i, _, _) => i < c.clients
  }

  function Step(c: Config, s: System, e: Event): System
    requires Enabled(c, s, e)
  {
    match e
    case Register(i, participant) =>
      var next := RegisterOn(c, s.load, i, participant);
      if next.None? then s else s.(load := next.value)
    case Open(i) => s.(schedules := s.schedules + [Opened(c, i)])
    case Prepare(k, now) =>
      var next := PrepareOn(c, s.load, s.schedules[k], now);
      System(next.0, s.schedules[k := next.1])
    case Observe(i, message, now) => s.(load := ObserveOn(c, s.load, i, message, now).0)
  }

  predicate IsRun(c: Config, trace: seq<System>, events: seq<Event>) {
    && Usable(c)
    && |trace| == |events| + 1
    && trace[0] == Start(c)
    && forall n {:trigger events[n]} | 0 <= n < |events| ::
         Enabled(c, trace[n], events[n]) && trace[n + 1] == Step(c, trace[n], events[n])
  }

  predicate Inv(c: Config, s: System) {
    LoadInv(c, s.load) && forall k | 0 <= k < |s.schedules| :: s.schedules[k].client < c.clients
  }

  lemma StepKeepsInv(c: Config, s: System, e: Event)
    requires Inv(c, s) && Enabled(c, s, e)
    ensures Inv(c, Step(c, s, e))
  {
    match e
    case Register(i, participant) => RegisterKeepsInv(c, s.load, i, participant);
    case Open(i) =>
    case Prepare(k, now) => PrepareKeepsInv(c, s.load, s.schedules[k], now);
    case Observe(i, message, now) => ObserveKeepsInv(c, s.load, i, message, now);
  }

  lemma {:induction false} RunKeepsInv(c: Config, trace: seq<System>, events: seq<Event>, n: nat)
    requires IsRun(c, trace, events) && n < |trace|
    ensures Inv(c, trace[n])
  {
    if n == 0 {
      EmptyInv(c);
    } else {
      RunKeepsInv(c, trace, events, n - 1);
      StepKeepsInv(c, trace[n - 1], events[n - 1]);
    }
  }

  /** The report can be asked for at any time; its verdict is exact in every run. */
  lemma ReportIsExact(c: Config, trace: seq<System>, events: seq<Event>, n: nat)
    requires IsRun(c, trace, events) && n < |trace|
    ensures Shaped(c, trace[n].load)
    ensures Passed(c, trace[n].load) <==>
            && EveryoneRegistered(c, trace[n].load)
            && EverythingReached(c, trace[n].load)
            && trace[n].load.invalid == 0
  {
    RunKeepsInv(c, trace, events, n);
    OracleIsExact(c, trace[n].load);
  }

  // --------------------------------------------------------------------- schedules

  /** What `prepare` answered at step `n`, for schedule `k`. */
  function Answer(c: Config, s: System, e: Event, k: nat): Prepared
    requires Enabled(c, s, e)
  {
    if e.Prepare? && e.k == k then PrepareOn(c, s.load, s.schedules[k], e.now).2 else Waiting
  }

  predicate Paced(c: Config, s: System, k: nat)
    requires Usable(c)
  {
    k < |s.schedules| ==>
      var d := s.schedules[k];
      d.next >= FirstSend(c, d.client) + d.sequence * c.interval
  }

  lemma PacedStep(c: Config, s: System, e: Event, k: nat)
    requires Enabled(c, s, e) && Paced(c, s, k)
    requires Answer(c, s, e, k) != NotJoined
    ensures Answer(c, s, e, k) != Overrun && Paced(c, Step(c, s, e), k)
  {
    if e.Prepare? && e.k == k && InWindow(c, s.schedules[k], e.now) {
      var d := s.schedules[k];
      RoomUnderPace(c, d.client, d.sequence, e.now);
      assert (d.sequence + 1) * c.interval == d.sequence * c.interval + c.interval;
    }
  }

  /** A slot that opens before `stop` is one of the planned ones. */
  lemma RoomUnderPace(c: Config, i: nat, sequence: nat, now: int)
    requires Usable(c) && FirstSend(c, i) + sequence * c.interval <= now < c.stop
    ensures sequence + 1 <= Expected(c, i)
  {
    MulMonotone(c.interval, 0, sequence);
    CeilPositive(c.stop - FirstSend(c, i), c.interval);
    MulOrder(c.interval, sequence, Expected(c, i));
  }

  lemma {:induction false} StaysPaced(c: Config, trace: seq<System>, events: seq<Event>, k: nat, n: nat)
    requires IsRun(c, trace, events) && n <= |events|
    requires forall j | 0 <= j < n :: Answer(c, trace[j], events[j], k) != NotJoined
    ensures Paced(c, trace[n], k)
  {
    if n > 0 {
      StaysPaced(c, trace, events, k, n - 1);
      PacedStep(c, trace[n - 1], events[n - 1], k);
    }
  }

  /** A sender that joined before its first slot never runs past its plan, however late
      or often its timer fires: the bound check of `prepare` cannot fail. */
  lemma NeverOverruns(c: Config, trace: seq<System>, events: seq<Event>, k: nat, n: nat)
    requires IsRun(c, trace, events) && n < |events|
    requires forall j | 0 <= j <= n :: Answer(c, trace[j], events[j], k) != NotJoined
    ensures Answer(c, trace[n], events[n], k) != Overrun
  {
    StaysPaced(c, trace, events, k, n);
    PacedStep(c, trace[n], events[n], k);
  }

  /** The schedule's attempts so far: the calls that found its slot open. */
  function Attempts(c: Config, trace: seq<System>, events: seq<Event>, k: nat, n: nat): nat
    requires IsRun(c, trace, events) && n <= |events|
  {
    if n == 0 then 0 else
      Attempts(c, trace, events, k, n - 1) +
      (var e := events[n - 1]; if Answer(c, trace[n - 1], e, k) != Waiting then 1 else 0)
  }

  function SequenceOf(s: System, k: nat): nat {
    if k < |s.schedules| then s.schedules[k].sequence else 0
  }

  lemma SequenceStep(c: Config, s: System, e: Event, k: nat)
    requires Enabled(c, s, e)
    ensures SequenceOf(Step(c, s, e), k) == SequenceOf(s, k) + if Answer(c, s, e, k) != Waiting then 1 else 0
  {}

  lemma {:induction false} SequenceCounts(c: Config, trace: seq<System>, events: seq<Event>, k: nat, n: nat)
    requires IsRun(c, trace, events) && n <= |events|
    ensures SequenceOf(trace[n], k) == Attempts(c, trace, events, k, n)
  {
    if n > 0 {
      SequenceCounts(c, trace, events, k, n - 1);
      var e := events[n - 1];
      SequenceStep(c, trace[n - 1], e, k);
    }
  }

  /** Exactly when the bound check of `prepare` refuses: the slot is open, the sender has
      joined and the schedule has already made as many attempts as messages are owed, whether
      they were sent or refused. */
  lemma OverrunsExactly(c: Config, trace: seq<System>, events: seq<Event>, k: nat, n: nat)
    requires IsRun(c, trace, events) && n < |events| && events[n].Prepare? && events[n].k == k
    ensures k < |trace[n].schedules|
    ensures var d := trace[n].schedules[k];
            Answer(c, trace[n], events[n], k) == Overrun <==>
              && InWindow(c, d, events[n].now)
              && d.client in RoomFor(c, trace[n].load, d.client).participants
              && Attempts(c, trace, events, k, n) >= Expected(c, d.client)
  {
    SequenceCounts(c, trace, events, k, n);
    assert Enabled(c, trace[n], events[n]);
  }

  lemma Extend(c: Config, trace: seq<System>, events: seq<Event>, e: Event)
    returns (longer: seq<System>, more: seq<Event>)
    requires IsRun(c, trace, events) && Enabled(c, trace[|events|], e)
    ensures IsRun(c, longer, more) && more == events + [e] && longer == trace + [Step(c, trace[|events|], e)]
  {
    longer, more := trace + [Step(c, trace[|events|], e)], events + [e];
    forall n | 0 <= n < |more|
      ensures Enabled(c, longer[n], more[n]) && longer[n + 1] == Step(c, longer[n], more[n])
    {
      if n < |events| {
        assert longer[n] == trace[n] && more[n] == events[n] && longer[n + 1] == trace[n + 1];
      }
    }
  }

  lemma {:induction false} EarlyAttempts(c: Config, i: nat, n: nat) returns (trace: seq<System>, events: seq<Event>)
    requires Usable(c) && i < c.clients && FirstSend(c, i) < c.stop
    ensures IsRun(c, trace, events)
    ensures trace[|events|] == System(EmptyLoad(c), [Schedule(i, FirstSend(c, i), n)])
  {
    if n == 0 {
      trace, events := [Start(c)], [];
      trace, events := Extend(c, trace, events, Open(i));
    } else {
      trace, events := EarlyAttempts(c, i, n - 1);
      trace, events := Extend(c, trace, events, Prepare(0, FirstSend(c, i)));
    }
  }

  /** A run that fails the check without ever sending: attempts made before joining use up
      the sequence numbers of all the messages the client owes. */
  lemma JoiningLateOverruns(c: Config, i: nat, participant: int) returns (trace: seq<System>, events: seq<Event>)
    requires Usable(c) && i < c.clients && Expected(c, i) >= 1
    ensures IsRun(c, trace, events) && |events| > 0 && events[|events| - 1].Prepare?
    ensures Answer(c, trace[|events| - 1], events[|events| - 1], 0) == Overrun
    ensures forall r | 0 <= r < |trace[|events|].load.rooms| :: trace[|events|].load.rooms[r].messages == map[]
  {
    trace, events := EarlyAttempts(c, i, Expected(c, i));
    trace, events := Extend(c, trace, events, Register(i, participant));
    ghost var before := trace[|events|];
    assert before.schedules == [Schedule(i, FirstSend(c, i), Expected(c, i))];
    trace, events := Extend(c, trace, events, Prepare(0, FirstSend(c, i)));
    assert trace[|events| - 1] == before;
  }

  lemma {:induction false} NextGrows(c: Config, trace: seq<System>, events: seq<Event>, k: nat, m: nat, n: nat)
    requires IsRun(c, trace, events) && m <= n < |trace| && k < |trace[m].schedules|
    ensures k < |trace[n].schedules| && trace[m].schedules[k].next <= trace[n].schedules[k].next
    ensures trace[n].schedules[k].client == trace[m].schedules[k].client
  {
    if m < n {
      NextGrows(c, trace, events, k, m, n - 1);
      var e := events[n - 1];
      assert trace[n] == Step(c, trace[n - 1], e);
    }
  }

  /** Successive sends of one schedule are at least one interval apart. */
  lemma SendsAreSpaced(c: Config, trace: seq<System>, events: seq<Event>, k: nat, m: nat, n: nat)
    requires IsRun(c, trace, events) && m < n < |events|
    requires events[m].Prepare? && events[m].k == k && Answer(c, trace[m], events[m], k).Message?
    requires events[n].Prepare? && events[n].k == k && Answer(c, trace[n], events[n], k).Message?
    ensures events[n].now >= events[m].now + c.interval
  {
    assert trace[m + 1] == Step(c, trace[m], events[m]);
    NextGrows(c, trace, events, k, m + 1, n);
  }

  // ------------------------------------------------------------------ exactly once

  /** No client has two schedules, so no message id is issued twice. */
  predicate OneScheduleEach(s: System) {
    forall a, b | 0 <= a < b < |s.schedules| :: s.schedules[a].client != s.schedules[b].client
  }

  /** Every message on record was issued by a schedule that has moved past it. */
  predicate Issued(c: Config, s: System, key: string, m: Sent) {
    exists k :: 0 <= k < |s.schedules| && s.schedules[k].client == m.sender
                && key in SenderKeys(c, m.sender, s.schedules[k].sequence)
  }

  predicate AllIssued(c: Config, s: System) {
    forall r, key | 0 <= r < |s.load.rooms| && key in s.load.rooms[r].messages ::
      Issued(c, s, key, s.load.rooms[r].messages[key])
  }

  lemma {:induction false} MoreKeys(c: Config, i: nat, m: nat, n: nat)
    requires m <= n
    ensures SenderKeys(c, i, m) <= SenderKeys(c, i, n)
  {
    if m < n {
      MoreKeys(c, i, m, n - 1);
    }
  }

  lemma StillIssued(c: Config, s: System, e: Event, key: string, m: Sent, m': Sent)
    requires Enabled(c, s, e) && Issued(c, s, key, m) && m'.sender == m.sender
    ensures Issued(c, Step(c, s, e), key, m')
  {
    var k :| 0 <= k < |s.schedules| && s.schedules[k].client == m.sender
             && key in SenderKeys(c, m.sender, s.schedules[k].sequence);
    var d := Step(c, s, e).schedules[k];
    MoreKeys(c, m.sender, s.schedules[k].sequence, d.sequence);
    assert d.client == m'.sender && key in SenderKeys(c, m'.sender, d.sequence);
  }

  lemma StepIssues(c: Config, s: System, e: Event)
    requires Enabled(c, s, e) && AllIssued(c, s)
    ensures AllIssued(c, Step(c, s, e))
  {
    var t := Step(c, s, e);
    forall r, key | 0 <= r < |t.load.rooms| && key in t.load.rooms[r].messages
      ensures Issued(c, t, key, t.load.rooms[r].messages[key])
    {
      var m' := t.load.rooms[r].messages[key];
      if && e.Prepare? && Answer(c, s, e, e.k).Message? && key == Answer(c, s, e, e.k).id
         && r == s.schedules[e.k].client % c.rooms
      {
        var d := t.schedules[e.k];
        assert d.client == m'.sender && key in SenderKeys(c, d.client, d.sequence);
      } else {
        StillIssued(c, s, e, key, s.load.rooms[r].messages[key], m');
      }
    }
  }

  /** With one schedule per client a new message never replaces one on record. */
  lemma FreshKey(c: Config, s: System, e: Event)
    requires Inv(c, s) && Enabled(c, s, e) && AllIssued(c, s) && OneScheduleEach(s)
    requires e.Prepare? && Answer(c, s, e, e.k).Message?
    ensures Answer(c, s, e, e.k).id !in RoomFor(c, s.load, s.schedules[e.k].client).messages
  {
    var d := s.schedules[e.k];
    var r, key := d.client % c.rooms, MessageKey(c, d.client, d.sequence + 1);
    var room := s.load.rooms[r];
    if key in room.messages {
      var m := room.messages[key];
      assert Issued(c, s, key, m);
      var k :| 0 <= k < |s.schedules| && s.schedules[k].client == m.sender
               && key in SenderKeys(c, m.sender, s.schedules[k].sequence);
      KeyNames(c, d.client, d.sequence + 1, m.sender, s.schedules[k].sequence);
      assert false;
    }
  }

  lemma KeyNames(c: Config, i: nat, sequence: nat, sender: nat, n: nat)
    requires MessageKey(c, i, sequence) in SenderKeys(c, sender, n)
    ensures sender == i && sequence <= n
  {
    var key := MessageKey(c, i, sequence);
    SenderKey(c, sender, n, key);
    var t :| 1 <= t <= n && key == MessageKey(c, sender, t);
    KeyInjective(c, i, sequence, sender, t);
  }

  lemma {:induction false} RunIssues(c: Config, trace: seq<System>, events: seq<Event>, n: nat)
    requires IsRun(c, trace, events) && n < |trace|
    ensures AllIssued(c, trace[n])
  {
    if n > 0 {
      RunIssues(c, trace, events, n - 1);
      StepIssues(c, trace[n - 1], events[n - 1]);
    }
  }

  lemma OneScheduleBefore(c: Config, trace: seq<System>, events: seq<Event>, m: nat, n: nat)
    requires IsRun(c, trace, events) && m <= n < |trace| && OneScheduleEach(trace[n])
    ensures OneScheduleEach(trace[m])
  {
    forall a, b | 0 <= a < b < |trace[m].schedules|
      ensures trace[m].schedules[a].client != trace[m].schedules[b].client
    {
      NextGrows(c, trace, events, a, m, n);
      NextGrows(c, trace, events, b, m, n);
    }
  }

  function SeenAt(c: Config, s: System, e: Event): Seen
    requires Enabled(c, s, e)
  {
    if e.Observe? then ObserveOn(c, s.load, e.i, e.message, e.now).1 else Ignored
  }

  /** At this step client `j` saw an acknowledgement, or a delivery, of message `key` and
      the oracle counted it. */
  predicate Confirms(c: Config, s: System, e: Event, key: string, j: nat, ack: bool)
    requires Enabled(c, s, e)
  {
    && e.Observe? && e.i == j && !e.message.OtherMessage?
    && Read(e.message).id == key && Read(e.message).acknowledgement == ack
    && SeenAt(c, s, e).Counted?
  }

  predicate Recorded(c: Config, load: Load, key: string, j: nat, ack: bool)
    requires Shaped(c, load)
  {
    var m := RoomFor(c, load, j).messages;
    key in m && if ack then m[key].acknowledged && m[key].sender == j else j in m[key].received
  }

  function Indicator(b: bool): nat { if b then 1 else 0 }

  lemma RecordedStep(c: Config, s: System, e: Event, key: string, j: nat, ack: bool)
    requires Inv(c, s) && Enabled(c, s, e) && AllIssued(c, s) && OneScheduleEach(s)
    ensures Shaped(c, Step(c, s, e).load)
    ensures Indicator(Recorded(c, Step(c, s, e).load, key, j, ack)) ==
            Indicator(Recorded(c, s.load, key, j, ack)) + Indicator(Confirms(c, s, e, key, j, ack))
  {
    match e
    case Register(_, _) =>
    case Open(_) =>
    case Prepare(k, now) =>
      if Answer(c, s, e, k).Message? {
        FreshKey(c, s, e);
      }
      PrepareRecords(c, s.load, s.schedules[k], now, key, j, ack);
    case Observe(i, message, now) => ObserveRecords(c, s.load, i, message, now, key, j, ack);
  }

  lemma PrepareRecords(c: Config, load: Load, d: Schedule, now: int, key: string, j: nat, ack: bool)
    requires Shaped(c, load)
    requires var next := PrepareOn(c, load, d, now);
             next.2.Message? ==> next.2.id !in RoomFor(c, load, d.client).messages
    ensures var next := PrepareOn(c, load, d, now);
            Shaped(c, next.0) && (Recorded(c, next.0, key, j, ack) <==> Recorded(c, load, key, j, ack))
  {
    var next := PrepareOn(c, load, d, now);
    if next.2.Message? && d.client % c.rooms == j % c.rooms {
      var before, after := RoomFor(c, load, j).messages, RoomFor(c, next.0, j).messages;
      assert after == before[next.2.id := Sent(d.client, next.2.content, now, None, false, {})];
    }
  }

  lemma ObserveRecords(c: Config, load: Load, i: nat, message: ServerMessage, now: int, key: string, j: nat, ack: bool)
    requires Shaped(c, load)
    ensures var next := ObserveOn(c, load, i, message, now);
            && Shaped(c, next.0)
            && (Recorded(c, next.0, key, j, ack) <==>
                || Recorded(c, load, key, j, ack)
                || (i == j && next.1.Counted? && Read(message).id == key && Read(message).acknowledgement == ack))
            && (next.1.Counted? && Read(message).id == key && Read(message).acknowledgement == ack && i == j ==>
                !Recorded(c, load, key, j, ack))
  {
    var next := ObserveOn(c, load, i, message, now);
    if next.1.Counted? {
      var said := Read(message);
      if i % c.rooms != j % c.rooms {
        assert RoomFor(c, next.0, j) == RoomFor(c, load, j);
      } else {
        var before, after := RoomFor(c, load, j).messages, RoomFor(c, next.0, j).messages;
        assert after == before[said.id := Marked(before[said.id], i, said)];
      }
    }
  }

  function Confirmations(c: Config, trace: seq<System>, events: seq<Event>, key: string, j: nat, ack: bool, n: nat): nat
    requires IsRun(c, trace, events) && n <= |events|
  {
    if n == 0 then 0 else
      Confirmations(c, trace, events, key, j, ack, n - 1) +
      (var e := events[n - 1]; Indicator(Confirms(c, trace[n - 1], e, key, j, ack)))
  }

  function Rejections(c: Config, trace: seq<System>, events: seq<Event>, n: nat): nat
    requires IsRun(c, trace, events) && n <= |events|
  {
    if n == 0 then 0 else
      Rejections(c, trace, events, n - 1) + (var e := events[n - 1]; Indicator(SeenAt(c, trace[n - 1], e).Invalid?))
  }

  lemma {:induction false} InvalidCountsRejections(c: Config, trace: seq<System>, events: seq<Event>, n: nat)
    requires IsRun(c, trace, events) && n <= |events|
    ensures trace[n].load.invalid == Rejections(c, trace, events, n)
  {
    if n > 0 {
      InvalidCountsRejections(c, trace, events, n - 1);
      var e := events[n - 1];
      assert trace[n] == Step(c, trace[n - 1], e);
    }
  }

  /** The state remembers each counted observation exactly once. */
  lemma {:induction false} RecordedCounts(c: Config, trace: seq<System>, events: seq<Event>, key: string, j: nat,
                                          ack: bool, n: nat)
    requires IsRun(c, trace, events) && n <= |events| && OneScheduleEach(trace[n])
    ensures Shaped(c, trace[n].load)
    ensures Confirmations(c, trace, events, key, j, ack, n) == Indicator(Recorded(c, trace[n].load, key, j, ack))
  {
    if n > 0 {
      OneScheduleBefore(c, trace, events, n - 1, n);
      RecordedCounts(c, trace, events, key, j, ack, n - 1);
      NextRecorded(c, trace, events, key, j, ack, n - 1);
    }
  }

  lemma NextRecorded(c: Config, trace: seq<System>, events: seq<Event>, key: string, j: nat, ack: bool, n: nat)
    requires IsRun(c, trace, events) && n < |events| && OneScheduleEach(trace[n])
    ensures Shaped(c, trace[n].load) && Shaped(c, trace[n + 1].load)
    ensures var e := events[n];
            Indicator(Recorded(c, trace[n + 1].load, key, j, ack)) ==
            Indicator(Recorded(c, trace[n].load, key, j, ack)) + Indicator(Confirms(c, trace[n], e, key, j, ack))
  {
    var e := events[n];
    assert trace[n + 1] == Step(c, trace[n], e);
    RunKeepsInv(c, trace, events, n);
    RunIssues(c, trace, events, n);
    RecordedStep(c, trace[n], e, key, j, ack);
  }

  /** Message `sequence` of client `i` was acknowledged once, to its sender, and delivered
      once to every other member of the sender's room and to no other client. */
  predicate DeliveredOnce(c: Config, trace: seq<System>, events: seq<Event>, n: nat, i: nat, sequence: nat)
    requires IsRun(c, trace, events) && n <= |events|
  {
    forall j: nat | j < c.clients :: CountedOnce(c, trace, events, n, i, sequence, j)
  }

  predicate CountedOnce(c: Config, trace: seq<System>, events: seq<Event>, n: nat, i: nat, sequence: nat, j: nat)
    requires IsRun(c, trace, events) && n <= |events|
  {
    var key := MessageKey(c, i, sequence);
    && Confirmations(c, trace, events, key, j, true, n) == Indicator(j == i)
    && Confirmations(c, trace, events, key, j, false, n) == Indicator(j != i && j % c.rooms == i % c.rooms)
  }

  /** Wherever a message is on record, it is in its sender's room and under its name. */
  lemma OnRecordAtHome(c: Config, load: Load, i: nat, sequence: nat, j: nat)
    requires LoadInv(c, load) && MessageKey(c, i, sequence) in RoomFor(c, load, j).messages
    ensures RoomFor(c, load, j).messages[MessageKey(c, i, sequence)].sender == i && i % c.rooms == j % c.rooms
  {
    var r, key := j % c.rooms, MessageKey(c, i, sequence);
    var room := load.rooms[r];
    assert RoomInv(c, r, room) && SentInv(c, r, room, key, room.messages[key]);
    KeyNames(c, i, sequence, room.messages[key].sender, Expected(c, room.messages[key].sender));
  }

  predicate RecordedOnce(c: Config, load: Load, i: nat, sequence: nat, j: nat)
    requires Shaped(c, load)
  {
    var key := MessageKey(c, i, sequence);
    && (Recorded(c, load, key, j, true) <==> j == i)
    && (Recorded(c, load, key, j, false) <==> j != i && j % c.rooms == i % c.rooms)
  }

  lemma ReachedIsRecorded(c: Config, load: Load, i: nat, sequence: nat)
    requires LoadInv(c, load) && i < c.clients
    ensures Reached(c, load, i, sequence) <==> forall j: nat | j < c.clients :: RecordedOnce(c, load, i, sequence, j)
  {
    var key, r := MessageKey(c, i, sequence), i % c.rooms;
    var m := load.rooms[r].messages;
    if Reached(c, load, i, sequence) {
      forall j: nat | j < c.clients ensures RecordedOnce(c, load, i, sequence, j) {
        if key in RoomFor(c, load, j).messages {
          OnRecordAtHome(c, load, i, sequence, j);
        }
        assert j in Members(c, r) <==> j % c.rooms == r;
      }
    }
    if forall j: nat | j < c.clients :: RecordedOnce(c, load, i, sequence, j) {
      assert RecordedOnce(c, load, i, sequence, i);
      assert RoomInv(c, r, load.rooms[r]) && SentInv(c, r, load.rooms[r], key, m[key]);
      forall j | j in Members(c, r) - {i} ensures j in m[key].received {
        assert RecordedOnce(c, load, i, sequence, j);
      }
      assert m[key].received == Members(c, r) - {i};
    }
  }

  lemma ReachedIsOnce(c: Config, trace: seq<System>, events: seq<Event>, n: nat, i: nat, sequence: nat)
    requires IsRun(c, trace, events) && n <= |events| && OneScheduleEach(trace[n]) && i < c.clients
    ensures Shaped(c, trace[n].load)
    ensures Reached(c, trace[n].load, i, sequence) <==> DeliveredOnce(c, trace, events, n, i, sequence)
  {
    RunKeepsInv(c, trace, events, n);
    ReachedIsRecorded(c, trace[n].load, i, sequence);
    forall j: nat | j < c.clients
      ensures CountedOnce(c, trace, events, n, i, sequence, j) <==> RecordedOnce(c, trace[n].load, i, sequence, j)
    {
      CountedIsRecorded(c, trace, events, n, i, sequence, j);
    }
  }

  lemma CountedIsRecorded(c: Config, trace: seq<System>, events: seq<Event>, n: nat, i: nat, sequence: nat, j: nat)
    requires IsRun(c, trace, events) && n <= |events| && OneScheduleEach(trace[n])
    ensures Shaped(c, trace[n].load)
    ensures CountedOnce(c, trace, events, n, i, sequence, j) <==> RecordedOnce(c, trace[n].load, i, sequence, j)
  {
    RecordedCounts(c, trace, events, MessageKey(c, i, sequence), j, true, n);
    RecordedCounts(c, trace, events, MessageKey(c, i, sequence), j, false, n);
  }

  /** The promise of the workload: in a run where every client keeps one schedule, the
      report passes exactly when everybody joined, every planned message was acknowledged
      once and delivered once to each room mate and to no other client, and no observation
      was rejected. */
  lemma ExactlyOnce(c: Config, trace: seq<System>, events: seq<Event>)
    requires IsRun(c, trace, events)
    requires OneScheduleEach(trace[|events|])
    ensures Shaped(c, trace[|events|].load)
    ensures Passed(c, trace[|events|].load) <==>
            && EveryoneRegistered(c, trace[|events|].load)
            && (forall i: nat, sequence: nat | i < c.clients && 1 <= sequence <= Expected(c, i) ::
                  DeliveredOnce(c, trace, events, |events|, i, sequence))
            && Rejections(c, trace, events, |events|) == 0
  {
    var n := |events|;
    ReportIsExact(c, trace, events, n);
    InvalidCountsRejections(c, trace, events, n);
    forall i: nat, sequence: nat | i < c.clients && 1 <= sequence <= Expected(c, i)
      ensures Reached(c, trace[n].load, i, sequence) <==> DeliveredOnce(c, trace, events, n, i, sequence)
    {
      ReachedIsOnce(c, trace, events, n, i, sequence);
    }
  }

  // ------------------------------------------------------------- one server identity

  predicate Identified(load: Load, r: nat, key: string, serverId: int) {
    && r < |load.rooms|
    && key in load.rooms[r].messages
    && load.rooms[r].messages[key].messageId == Some(serverId)
  }

  lemma PrepareIdentity(c: Config, load: Load, d: Schedule, now: int, r: nat, key: string, serverId: int)
    requires Shaped(c, load) && Identified(load, r, key, serverId)
    requires var next := PrepareOn(c, load, d, now);
             next.2.Message? ==> next.2.id !in RoomFor(c, load, d.client).messages
    ensures Identified(PrepareOn(c, load, d, now).0, r, key, serverId)
  {}

  lemma ObserveIdentity(c: Config, load: Load, i: nat, message: ServerMessage, now: int, r: nat, key: string,
                        serverId: int)
    requires Shaped(c, load) && Identified(load, r, key, serverId)
    ensures Identified(ObserveOn(c, load, i, message, now).0, r, key, serverId)
  {}

  lemma IdentityStays(c: Config, s: System, e: Event, r: nat, key: string, serverId: int)
    requires Inv(c, s) && Enabled(c, s, e) && AllIssued(c, s) && OneScheduleEach(s)
    requires Identified(s.load, r, key, serverId)
    ensures Identified(Step(c, s, e).load, r, key, serverId)
  {
    match e
    case Register(_, _) =>
    case Open(_) =>
    case Prepare(k, now) =>
      if Answer(c, s, e, k).Message? {
        FreshKey(c, s, e);
      }
      PrepareIdentity(c, s.load, s.schedules[k], now, r, key, serverId);
    case Observe(i, message, now) => ObserveIdentity(c, s.load, i, message, now, r, key, serverId);
  }

  lemma {:induction false} IdentityLasts(c: Config, trace: seq<System>, events: seq<Event>, r: nat, key: string,
                                         serverId: int, m: nat, n: nat)
    requires IsRun(c, trace, events) && m <= n < |trace| && OneScheduleEach(trace[n])
    requires Identified(trace[m].load, r, key, serverId)
    ensures Identified(trace[n].load, r, key, serverId)
  {
    if m < n {
      OneScheduleBefore(c, trace, events, n - 1, n);
      IdentityLasts(c, trace, events, r, key, serverId, m, n - 1);
      NextIdentity(c, trace, events, r, key, serverId, n - 1);
    }
  }

  lemma NextIdentity(c: Config, trace: seq<System>, events: seq<Event>, r: nat, key: string, serverId: int, n: nat)
    requires IsRun(c, trace, events) && n < |events| && OneScheduleEach(trace[n])
    requires Identified(trace[n].load, r, key, serverId)
    ensures Identified(trace[n + 1].load, r, key, serverId)
  {
    var e := events[n];
    assert Identified(Step(c, trace[n], e).load, r, key, serverId) by {
      RunKeepsInv(c, trace, events, n);
      RunIssues(c, trace, events, n);
      IdentityStays(c, trace[n], e, r, key, serverId);
    }
  }

  /** A message is on record in one room only, its sender's. */
  lemma OneRoomPerKey(c: Config, load: Load, key: string, q: nat, r: nat)
    requires LoadInv(c, load) && q < c.rooms && r < c.rooms
    requires key in load.rooms[q].messages && key in load.rooms[r].messages
    ensures q == r
  {
    var m, m' := load.rooms[q].messages[key], load.rooms[r].messages[key];
    assert RoomInv(c, q, load.rooms[q]) && RoomInv(c, r, load.rooms[r]);
    assert SentInv(c, q, load.rooms[q], key, m) && SentInv(c, r, load.rooms[r], key, m');
    SendersDiffer(c, m.sender, Expected(c, m.sender), m'.sender, Expected(c, m'.sender), key);
  }

  /** Everybody whose observation of a message was counted, sender or receiver, saw the
      same server identity for it. */
  lemma OneServerIdentity(c: Config, trace: seq<System>, events: seq<Event>, key: string, m: nat, n: nat, i: nat,
                          j: nat, ack: bool, ack': bool)
    requires IsRun(c, trace, events) && m < n < |events| && OneScheduleEach(trace[|events|])
    requires Confirms(c, trace[m], events[m], key, i, ack) && Confirms(c, trace[n], events[n], key, j, ack')
    ensures Read(events[m].message).serverId == Read(events[n].message).serverId
  {
    var id := Read(events[m].message).serverId;
    assert trace[m + 1] == Step(c, trace[m], events[m]);
    assert Identified(trace[m + 1].load, i % c.rooms, key, id);
    OneScheduleBefore(c, trace, events, n, |events|);
    IdentityLasts(c, trace, events, i % c.rooms, key, id, m + 1, n);
    RunKeepsInv(c, trace, events, n);
    OneRoomPerKey(c, trace[n].load, key, i % c.rooms, j % c.rooms);
  }
}
