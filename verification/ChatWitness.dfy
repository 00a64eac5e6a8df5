/** The chat theorems are not empty: every workload has a run that passes. All clients join
    and open their schedules; then the earliest slot is served, acknowledged and delivered
    at once, again and again. */
module ChatWitness {

  import opened Arithmetic
  import opened ChatPlan
  import opened ChatOracle
  import opened ChatRun
  import opened Collections
  import opened Wrappers

  // -------------------------------------------------------------------------- clocks

  function TimeOf(e: Event): Option<int> {
    match e
    case Register(_, _) => None
    case Open(_) => None
    case Prepare(_, now) => Some(now)
    case Observe(_, _, now) => Some(now)
  }

  predicate NotAfter(e: Event, clock: int) {
    TimeOf(e).Some? ==> TimeOf(e).value <= clock
  }

  predicate InOrder(a: Event, b: Event) {
    TimeOf(a).Some? && TimeOf(b).Some? ==> TimeOf(a).value <= TimeOf(b).value
  }

  /** No event's clock reading is earlier than one before it. */
  predicate Chronological(events: seq<Event>) {
    forall m, n | 0 <= m < n < |events| :: InOrder(events[m], events[n])
  }

  predicate Until(events: seq<Event>, clock: int) {
    Chronological(events) && forall n | 0 <= n < |events| :: NotAfter(events[n], clock)
  }

  lemma UntilMore(events: seq<Event>, clock: int, e: Event, now: int)
    requires Until(events, clock) && clock <= now && (TimeOf(e) == Some(now) || TimeOf(e).None?)
    ensures Until(events + [e], now)
  {
    var more := events + [e];
    forall n | 0 <= n < |more| ensures NotAfter(more[n], now) {
      assert n < |events| ==> NotAfter(events[n], clock);
    }
    forall m, n | 0 <= m < n < |more| ensures InOrder(more[m], more[n]) {
      assert n < |events| ==> InOrder(events[m], events[n]);
      assert NotAfter(events[m], clock);
    }
  }

  // ------------------------------------------------------------------------- joining

  predicate HasJoined(c: Config, load: Load, i: nat)
    requires Shaped(c, load)
  {
    i in RoomFor(c, load, i).participants && RoomFor(c, load, i).participants[i] == i
  }

  ghost predicate Joined(c: Config, s: System, n: nat) {
    && Shaped(c, s.load) && s.load.invalid == 0
    && (forall i: nat | i < n :: HasJoined(c, s.load, i))
    && (forall i: nat | n <= i :: i !in RoomFor(c, s.load, i).participants)
  }

  lemma JoinOne(c: Config, s: System, n: nat)
    requires Joined(c, s, n) && n < c.clients
    ensures Enabled(c, s, Register(n, n)) && Joined(c, Step(c, s, Register(n, n)), n + 1)
    ensures Step(c, s, Register(n, n)).schedules == s.schedules
  {
    var t := Step(c, s, Register(n, n));
    assert n !in RoomFor(c, s.load, n).participants;
    forall i: nat
      ensures i != n ==> (i in RoomFor(c, t.load, i).participants <==> i in RoomFor(c, s.load, i).participants)
      ensures i != n && i in RoomFor(c, t.load, i).participants ==>
                RoomFor(c, t.load, i).participants[i] == RoomFor(c, s.load, i).participants[i]
    {}
    forall i: nat | i < n + 1 ensures HasJoined(c, t.load, i) {
      assert i < n ==> HasJoined(c, s.load, i);
    }
  }

  lemma {:induction false} AllJoin(c: Config, n: nat, clock: int) returns (trace: seq<System>, events: seq<Event>)
    requires Usable(c) && n <= c.clients
    ensures IsRun(c, trace, events) && Until(events, clock)
    ensures Joined(c, trace[|events|], n) && trace[|events|].schedules == []
  {
    if n == 0 {
      trace, events := [Start(c)], [];
    } else {
      trace, events := AllJoin(c, n - 1, clock);
      JoinOne(c, trace[|events|], n - 1);
      UntilMore(events, clock, Register(n - 1, n - 1), clock);
      trace, events := Extend(c, trace, events, Register(n - 1, n - 1));
    }
  }

  function Schedules(c: Config, n: nat): seq<Schedule>
    requires Usable(c)
  {
    seq(n, k requires 0 <= k < n => Opened(c, k))
  }

  lemma {:induction false} AllOpen(c: Config, n: nat, clock: int) returns (trace: seq<System>, events: seq<Event>)
    requires Usable(c) && n <= c.clients
    ensures IsRun(c, trace, events) && Until(events, clock)
    ensures Joined(c, trace[|events|], c.clients) && trace[|events|].schedules == Schedules(c, n)
  {
    if n == 0 {
      trace, events := AllJoin(c, c.clients, clock);
    } else {
      trace, events := AllOpen(c, n - 1, clock);
      UntilMore(events, clock, Open(n - 1), clock);
      var s := trace[|events|];
      trace, events := Extend(c, trace, events, Open(n - 1));
      assert trace[|events|] == Step(c, s, Open(n - 1));
      assert Schedules(c, n) == Schedules(c, n - 1) + [Opened(c, n - 1)];
    }
  }

  // ------------------------------------------------------------------------ one slot

  const SERVER_ID: int := 0

  /** `s` after client `i` used its next slot, with `m` on record for the message. */
  function After(c: Config, s: System, i: nat, m: Sent): System
    requires Shaped(c, s.load) && i < |s.schedules|
  {
    var d, room := s.schedules[i], RoomFor(c, s.load, i);
    System(WithRoom(c, s.load, i, room.(messages := room.messages[MessageKey(c, i, d.sequence + 1) := m])),
           s.schedules[i := Schedule(i, d.next + c.interval, d.sequence + 1)])
  }

  function Message(c: Config, s: System, i: nat, acknowledged: bool, received: set<nat>): Sent
    requires i < |s.schedules|
  {
    Sent(i, Content(i, s.schedules[i].sequence + 1), s.schedules[i].next,
         if acknowledged then Some(SERVER_ID) else None, acknowledged, received)
  }

  predicate Ready(c: Config, s: System, i: nat) {
    && Shaped(c, s.load) && i < c.clients && i < |s.schedules| && s.schedules[i].client == i && HasJoined(c, s.load, i)
    && InWindow(c, s.schedules[i], s.schedules[i].next) && s.schedules[i].sequence < Expected(c, i)
  }

  lemma Sends(c: Config, s: System, i: nat)
    requires Ready(c, s, i)
    ensures Enabled(c, s, Prepare(i, s.schedules[i].next))
    ensures Step(c, s, Prepare(i, s.schedules[i].next)) == After(c, s, i, Message(c, s, i, false, {}))
  {}

  function AckFor(c: Config, s: System, i: nat): Event
    requires i < |s.schedules|
  {
    var n := s.schedules[i].sequence + 1;
    var key := MessageKey(c, i, n);
    Observe(i, MessageAck(key, Entry(key, i, Content(i, n), SERVER_ID, None, None)), s.schedules[i].next)
  }

  function DeliveryTo(c: Config, s: System, i: nat, j: nat): Event
    requires i < |s.schedules|
  {
    var n := s.schedules[i].sequence + 1;
    Observe(j, ChatReceived(MessageKey(c, i, n), i, Content(i, n), SERVER_ID), s.schedules[i].next)
  }

  lemma MarksMessage(c: Config, s: System, i: nat, m: Sent, j: nat, message: ServerMessage, now: int)
    requires Ready(c, s, i) && j < c.clients && j % c.rooms == i % c.rooms && !message.OtherMessage?
    requires Read(message).id == MessageKey(c, i, s.schedules[i].sequence + 1)
    requires FaultOf(c, After(c, s, i, m).load, j, message, now).None?
    ensures Enabled(c, After(c, s, i, m), Observe(j, message, now))
    ensures Step(c, After(c, s, i, m), Observe(j, message, now)) == After(c, s, i, Marked(m, j, Read(message)))
  {
    var r, key := i % c.rooms, MessageKey(c, i, s.schedules[i].sequence + 1);
    var room, m' := s.load.rooms[r], Marked(m, j, Read(message));
    assert room.messages[key := m][key := m'] == room.messages[key := m'];
    var before, after := room.(messages := room.messages[key := m]), room.(messages := room.messages[key := m']);
    assert s.load.rooms[r := before][r := after] == s.load.rooms[r := after];
  }

  lemma PrefixOfKey(c: Config, i: nat, n: nat)
    ensures c.prefix <= MessageKey(c, i, n)
  {}

  lemma Acknowledges(c: Config, s: System, i: nat)
    requires Ready(c, s, i)
    ensures var u := After(c, s, i, Message(c, s, i, false, {}));
            && Enabled(c, u, AckFor(c, s, i))
            && Step(c, u, AckFor(c, s, i)) == After(c, s, i, Message(c, s, i, true, {}))
  {
    var e := AckFor(c, s, i);
    PrefixOfKey(c, i, s.schedules[i].sequence + 1);
    MarksMessage(c, s, i, Message(c, s, i, false, {}), i, e.message, e.now);
  }

  lemma Delivers(c: Config, s: System, i: nat, received: set<nat>, j: nat)
    requires Ready(c, s, i) && j < c.clients && j % c.rooms == i % c.rooms && j != i && j !in received
    ensures var u := After(c, s, i, Message(c, s, i, true, received));
            && Enabled(c, u, DeliveryTo(c, s, i, j))
            && Step(c, u, DeliveryTo(c, s, i, j)) == After(c, s, i, Message(c, s, i, true, received + {j}))
  {
    var e := DeliveryTo(c, s, i, j);
    PrefixOfKey(c, i, s.schedules[i].sequence + 1);
    MarksMessage(c, s, i, Message(c, s, i, true, received), j, e.message, e.now);
  }

  lemma {:induction false} DeliversAll(c: Config, trace: seq<System>, events: seq<Event>, s: System, i: nat,
                                       received: set<nat>, todo: set<nat>)
    returns (longer: seq<System>, more: seq<Event>)
    requires IsRun(c, trace, events) && Ready(c, s, i) && Until(events, s.schedules[i].next)
    requires trace[|events|] == After(c, s, i, Message(c, s, i, true, received))
    requires todo !! received && forall j | j in todo :: j < c.clients && j % c.rooms == i % c.rooms && j != i
    ensures IsRun(c, longer, more) && Until(more, s.schedules[i].next)
    ensures longer[|more|] == After(c, s, i, Message(c, s, i, true, received + todo))
    decreases todo
  {
    if todo == {} {
      longer, more := trace, events;
      assert received + todo == received;
    } else {
      var j :| j in todo;
      var e := DeliveryTo(c, s, i, j);
      Delivers(c, s, i, received, j);
      UntilMore(events, s.schedules[i].next, e, s.schedules[i].next);
      longer, more := Extend(c, trace, events, e);
      longer, more := DeliversAll(c, longer, more, s, i, received + {j}, todo - {j});
      assert received + {j} + (todo - {j}) == received + todo;
    }
  }

  /** The state once the next message of client `i` has reached everybody. */
  function Served(c: Config, s: System, i: nat): System
    requires Shaped(c, s.load) && i < |s.schedules|
  {
    After(c, s, i, Message(c, s, i, true, Members(c, i % c.rooms) - {i}))
  }

  lemma ServeSlot(c: Config, trace: seq<System>, events: seq<Event>, i: nat, clock: int)
    returns (longer: seq<System>, more: seq<Event>)
    requires IsRun(c, trace, events) && Ready(c, trace[|events|], i)
    requires Until(events, clock) && clock <= trace[|events|].schedules[i].next
    ensures IsRun(c, longer, more) && Until(more, trace[|events|].schedules[i].next)
    ensures longer[|more|] == Served(c, trace[|events|], i)
  {
    var s := trace[|events|];
    var now := s.schedules[i].next;
    Sends(c, s, i);
    UntilMore(events, clock, Prepare(i, now), now);
    longer, more := Extend(c, trace, events, Prepare(i, now));
    Acknowledges(c, s, i);
    UntilMore(more, now, AckFor(c, s, i), now);
    longer, more := Extend(c, longer, more, AckFor(c, s, i));
    longer, more := DeliversAll(c, longer, more, s, i, {}, Members(c, i % c.rooms) - {i});
    assert {} + (Members(c, i % c.rooms) - {i}) == Members(c, i % c.rooms) - {i};
  }

  // ------------------------------------------------------------------------ progress

  /** Client `k` is on time and its messages so far have reached everybody. */
  predicate OnTime(c: Config, s: System, k: nat)
    requires Shaped(c, s.load) && k < |s.schedules|
  {
    var d := s.schedules[k];
    && d.client == k && d.sequence <= Expected(c, k)
    && d.next == FirstSend(c, k) + d.sequence * c.interval
    && forall n: nat | 1 <= n <= d.sequence :: Reached(c, s.load, k, n)
  }

  predicate Unfinished(c: Config, s: System, k: nat)
    requires Usable(c) && k < |s.schedules|
  {
    s.schedules[k].sequence < Expected(c, k)
  }

  predicate Going(c: Config, s: System, clock: int) {
    && Shaped(c, s.load) && s.load.invalid == 0 && |s.schedules| == c.clients
    && (forall k: nat | k < c.clients :: HasJoined(c, s.load, k))
    && (forall k: nat | k < c.clients :: OnTime(c, s, k))
    && (forall k: nat | k < c.clients && Unfinished(c, s, k) :: clock <= s.schedules[k].next)
  }

  lemma SlotIsOpen(c: Config, s: System, clock: int, i: nat)
    requires Going(c, s, clock) && i < c.clients && Unfinished(c, s, i)
    ensures Ready(c, s, i)
  {
    var d := s.schedules[i];
    assert OnTime(c, s, i) && HasJoined(c, s.load, i);
    CeilPositive(c.stop - FirstSend(c, i), c.interval);
    MulMonotone(c.interval, d.sequence, Expected(c, i) - 1);
  }

  /** Serving a slot leaves every other message alone. */
  lemma OthersStay(c: Config, s: System, i: nat, k: nat, n: nat)
    requires Shaped(c, s.load) && i < |s.schedules| && Reached(c, s.load, k, n)
    requires k != i || n != s.schedules[i].sequence + 1
    ensures Reached(c, Served(c, s, i).load, k, n)
  {
    if MessageKey(c, k, n) == MessageKey(c, i, s.schedules[i].sequence + 1) {
      KeyInjective(c, k, n, i, s.schedules[i].sequence + 1);
      assert false;
    }
  }

  lemma NextPace(first: int, sequence: nat, interval: nat)
    ensures first + (sequence + 1) * interval == first + sequence * interval + interval
  {}

  lemma NewlyReached(c: Config, s: System, i: nat)
    requires Ready(c, s, i)
    ensures Reached(c, Served(c, s, i).load, i, s.schedules[i].sequence + 1)
  {}

  lemma ServedReaches(c: Config, s: System, i: nat, k: nat, n: nat)
    requires Ready(c, s, i) && k < |s.schedules| && OnTime(c, s, k)
    requires 1 <= n <= Served(c, s, i).schedules[k].sequence
    ensures Reached(c, Served(c, s, i).load, k, n)
  {
    if k == i && n == s.schedules[i].sequence + 1 {
      NewlyReached(c, s, i);
    } else {
      assert Reached(c, s.load, k, n);
      OthersStay(c, s, i, k, n);
    }
  }

  lemma ServedSchedule(c: Config, s: System, i: nat, k: nat)
    requires Ready(c, s, i) && k < |s.schedules| && OnTime(c, s, k)
    ensures var d := Served(c, s, i).schedules[k];
            d.client == k && d.sequence <= Expected(c, k) && d.next == FirstSend(c, k) + d.sequence * c.interval
  {
    NextPace(FirstSend(c, k), s.schedules[k].sequence, c.interval);
  }

  lemma ServedOnTime(c: Config, s: System, i: nat, k: nat)
    requires Ready(c, s, i) && k < |s.schedules| && OnTime(c, s, k)
    ensures OnTime(c, Served(c, s, i), k)
  {
    ServedSchedule(c, s, i, k);
    forall n: nat | 1 <= n <= Served(c, s, i).schedules[k].sequence
      ensures Reached(c, Served(c, s, i).load, k, n)
    {
      ServedReaches(c, s, i, k, n);
    }
  }

  lemma ServedGoing(c: Config, s: System, clock: int, i: nat)
    requires Going(c, s, clock) && i < c.clients && Unfinished(c, s, i) && Ready(c, s, i)
    requires forall k: nat | k < c.clients && Unfinished(c, s, k) :: s.schedules[i].next <= s.schedules[k].next
    ensures Going(c, Served(c, s, i), s.schedules[i].next)
  {
    var t := Served(c, s, i);
    forall k: nat | k < c.clients ensures OnTime(c, t, k) {
      assert OnTime(c, s, k);
      ServedOnTime(c, s, i, k);
    }
    forall k: nat | k < c.clients ensures HasJoined(c, t.load, k) {
      assert HasJoined(c, s.load, k);
    }
    forall k: nat | k < c.clients && Unfinished(c, t, k) ensures s.schedules[i].next <= t.schedules[k].next {
      assert k != i ==> Unfinished(c, s, k);
    }
  }

  /** The messages still to be sent. */
  function Remaining(c: Config, s: System): (left: seq<nat>)
    requires Shaped(c, s.load) && |s.schedules| == c.clients
    ensures |left| == c.clients
  {
    seq(c.clients, k requires 0 <= k < c.clients =>
      if Unfinished(c, s, k) then Expected(c, k) - s.schedules[k].sequence else 0)
  }

  lemma LessRemains(c: Config, s: System, i: nat)
    requires Ready(c, s, i) && |s.schedules| == c.clients
    ensures Sum(Remaining(c, Served(c, s, i))) < Sum(Remaining(c, s))
  {
    var left := Remaining(c, s);
    assert Remaining(c, Served(c, s, i)) == left[i := left[i] - 1];
    SumUpdate(left, i, left[i] - 1);
  }

  /** The unfinished client below `n` whose slot comes first. */
  lemma {:induction false} Earliest(c: Config, s: System, n: nat) returns (i: nat)
    requires Usable(c) && n <= |s.schedules| && exists k: nat :: k < n && Unfinished(c, s, k)
    ensures i < n && Unfinished(c, s, i)
    ensures forall k: nat | k < n && Unfinished(c, s, k) :: s.schedules[i].next <= s.schedules[k].next
  {
    var last := n - 1;
    if exists k: nat :: k < last && Unfinished(c, s, k) {
      i := Earliest(c, s, last);
      if Unfinished(c, s, last) && s.schedules[last].next < s.schedules[i].next {
        i := last;
      }
    } else {
      i := last;
    }
  }

  lemma {:induction false} ServeAll(c: Config, trace: seq<System>, events: seq<Event>, clock: int)
    returns (longer: seq<System>, more: seq<Event>)
    requires IsRun(c, trace, events) && Going(c, trace[|events|], clock) && Until(events, clock)
    ensures IsRun(c, longer, more) && Chronological(more)
    ensures OneScheduleEach(longer[|more|]) && Passed(c, longer[|more|].load)
    decreases Sum(Remaining(c, trace[|events|]))
  {
    var s := trace[|events|];
    if exists k: nat :: k < c.clients && Unfinished(c, s, k) {
      var i := Earliest(c, s, c.clients);
      SlotIsOpen(c, s, clock, i);
      ServedGoing(c, s, clock, i);
      LessRemains(c, s, i);
      longer, more := ServeSlot(c, trace, events, i, clock);
      longer, more := ServeAll(c, longer, more, s.schedules[i].next);
    } else {
      longer, more := trace, events;
      AllServed(c, s, clock);
      ReportIsExact(c, trace, events, |events|);
    }
  }

  lemma AllServed(c: Config, s: System, clock: int)
    requires Going(c, s, clock) && forall k: nat | k < c.clients :: !Unfinished(c, s, k)
    ensures EveryoneRegistered(c, s.load) && EverythingReached(c, s.load) && OneScheduleEach(s)
  {
    forall i: nat | i < c.clients ensures i in RoomFor(c, s.load, i).participants {
      assert HasJoined(c, s.load, i);
    }
    forall i: nat, n: nat | i < c.clients && 1 <= n <= Expected(c, i) ensures Reached(c, s.load, i, n) {
      assert OnTime(c, s, i) && !Unfinished(c, s, i);
    }
    forall a, b | 0 <= a < b < |s.schedules| ensures s.schedules[a].client != s.schedules[b].client {
      assert OnTime(c, s, a) && OnTime(c, s, b);
    }
  }

  /** Whatever the clients, rooms, interval and duration, some run of the workload with a
      clock that never goes back passes: the theorems about passing runs speak of something
      for every configuration. */
  lemma EveryPlanCanPass(c: Config) returns (trace: seq<System>, events: seq<Event>)
    requires Usable(c)
    ensures IsRun(c, trace, events) && Chronological(events)
    ensures OneScheduleEach(trace[|events|]) && Passed(c, trace[|events|].load)
  {
    trace, events := AllOpen(c, c.clients, c.start);
    var s := trace[|events|];
    forall k: nat | k < c.clients ensures HasJoined(c, s.load, k) && OnTime(c, s, k) && c.start <= s.schedules[k].next {
      FirstSendInInterval(c, k);
      assert s.schedules[k] == Opened(c, k);
    }
    trace, events := ServeAll(c, trace, events, c.start);
  }
}
