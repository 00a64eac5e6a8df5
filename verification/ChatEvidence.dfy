/** What the chat oracle counts, said by the events of a run alone: who joined under which
    name, what was sent and when, and what each client saw. */
module ChatEvidence {

  import opened ChatPlan
  import opened ChatOracle
  import opened ChatRun
  import opened Wrappers

  // ----------------------------------------------------------------------- who joined

  /** The name under which client `u` first registered in the first `n` events. */
  function JoinOf(events: seq<Event>, n: nat, u: nat): Option<int>
    requires n <= |events|
  {
    if n == 0 then None else
      var before, e := JoinOf(events, n - 1, u), events[n - 1];
      if before.None? && e.Register? && e.i == u then Some(e.participant) else before
  }

  function NameOf(c: Config, load: Load, u: nat): Option<int>
    requires Shaped(c, load)
  {
    var joined := RoomFor(c, load, u).participants;
    if u in joined then Some(joined[u]) else None
  }

  lemma NameStep(c: Config, s: System, e: Event, u: nat)
    requires Enabled(c, s, e)
    ensures Shaped(c, Step(c, s, e).load)
    ensures NameOf(c, Step(c, s, e).load, u) ==
            if NameOf(c, s.load, u).None? && e.Register? && e.i == u then Some(e.participant)
            else NameOf(c, s.load, u)
  {}

  lemma {:induction false} NamesAreJoins(c: Config, trace: seq<System>, events: seq<Event>, n: nat, u: nat)
    requires IsRun(c, trace, events) && n < |trace|
    ensures Shaped(c, trace[n].load) && NameOf(c, trace[n].load, u) == JoinOf(events, n, u)
  {
    if n > 0 {
      NamesAreJoins(c, trace, events, n - 1, u);
      var e := events[n - 1];
      NameStep(c, trace[n - 1], e, u);
    }
  }

  // -------------------------------------------------------------------- what was sent

  datatype Send = Send(sender: nat, content: string, at: int)

  /** The message `key` that `prepare` hands out at this step, if it does. */
  function SendAt(c: Config, s: System, e: Event, key: string): Option<Send>
    requires Enabled(c, s, e)
  {
    if e.Prepare? && Answer(c, s, e, e.k).Message? && Answer(c, s, e, e.k).id == key
    then Some(Send(s.schedules[e.k].client, Answer(c, s, e, e.k).content, e.now)) else None
  }

  /** The last time in the first `n` events that `key` was handed out. */
  function LastSend(c: Config, trace: seq<System>, events: seq<Event>, n: nat, key: string): Option<Send>
    requires IsRun(c, trace, events) && n <= |events|
  {
    if n == 0 then None else
      var e := events[n - 1];
      var now := SendAt(c, trace[n - 1], e, key);
      if now.Some? then now else LastSend(c, trace, events, n - 1, key)
  }

  function EntryOf(load: Load, r: nat, key: string): Option<Send> {
    if r < |load.rooms| && key in load.rooms[r].messages then
      var m := load.rooms[r].messages[key];
      Some(Send(m.sender, m.content, m.at))
    else None
  }

  function AtHome(c: Config, send: Option<Send>, r: nat): Option<Send>
    requires Usable(c)
  {
    if send.Some? && send.value.sender % c.rooms == r then send else None
  }

  lemma EntryStep(c: Config, s: System, e: Event, r: nat, key: string)
    requires Enabled(c, s, e)
    ensures var sent := AtHome(c, SendAt(c, s, e, key), r);
            EntryOf(Step(c, s, e).load, r, key) == if sent.Some? then sent else EntryOf(s.load, r, key)
  {}

  lemma {:induction false} SendNames(c: Config, trace: seq<System>, events: seq<Event>, n: nat, key: string)
    requires IsRun(c, trace, events) && n <= |events| && LastSend(c, trace, events, n, key).Some?
    ensures var send := LastSend(c, trace, events, n, key).value;
            exists sequence ::
              key == MessageKey(c, send.sender, sequence) && send.content == Content(send.sender, sequence)
  {
    var e := events[n - 1];
    if SendAt(c, trace[n - 1], e, key).Some? {
      var d := trace[n - 1].schedules[e.k];
      assert key == MessageKey(c, d.client, d.sequence + 1);
      assert SendAt(c, trace[n - 1], e, key).value.content == Content(d.client, d.sequence + 1);
    } else {
      SendNames(c, trace, events, n - 1, key);
    }
  }

  /** The oracle's record of a message is what was handed out, in its sender's room. */
  lemma {:induction false} EntriesAreSends(c: Config, trace: seq<System>, events: seq<Event>, n: nat, r: nat,
                                           key: string)
    requires IsRun(c, trace, events) && n < |trace|
    ensures EntryOf(trace[n].load, r, key) == AtHome(c, LastSend(c, trace, events, n, key), r)
  {
    if n > 0 {
      EntriesAreSends(c, trace, events, n - 1, r, key);
      var e := events[n - 1];
      EntryStep(c, trace[n - 1], e, r, key);
      if SendAt(c, trace[n - 1], e, key).Some? && LastSend(c, trace, events, n - 1, key).Some? {
        SameSender(c, trace, events, n - 1, key);
      }
    }
  }

  lemma SameSender(c: Config, trace: seq<System>, events: seq<Event>, n: nat, key: string)
    requires IsRun(c, trace, events) && n < |events| && LastSend(c, trace, events, n, key).Some?
    requires var e := events[n]; SendAt(c, trace[n], e, key).Some?
    ensures LastSend(c, trace, events, n, key).value.sender == LastSend(c, trace, events, n + 1, key).value.sender
  {
    SendNames(c, trace, events, n, key);
    SendNames(c, trace, events, n + 1, key);
    var u, v := LastSend(c, trace, events, n, key).value.sender, LastSend(c, trace, events, n + 1, key).value.sender;
    var s, t :| key == MessageKey(c, u, s) && key == MessageKey(c, v, t);
    KeyInjective(c, u, s, v, t);
  }

  // ----------------------------------------------------------------- what was counted

  /** The server identity in an observation of `key` that is counted at this step. */
  function SaidAt(c: Config, s: System, e: Event, key: string): Option<int>
    requires Enabled(c, s, e)
  {
    if !SeenAt(c, s, e).Counted? then None else
      match e.message
      case MessageAck(id, entry) => if id == key then Some(entry.messageId) else None
      case ChatReceived(id, _, _, serverId) => if id == key then Some(serverId) else None
      case OtherMessage => None
  }

  /** Every counted observation of `key` in the first `n` events named this server identity. */
  predicate Agreed(c: Config, trace: seq<System>, events: seq<Event>, n: nat, key: string, serverId: int)
    requires IsRun(c, trace, events) && n <= |events|
  {
    forall m {:trigger events[m]} | 0 <= m < n ::
      var e := events[m]; SaidAt(c, trace[m], e, key).None? || SaidAt(c, trace[m], e, key) == Some(serverId)
  }

  function IdentityOf(load: Load, r: nat, key: string): Option<int> {
    if r < |load.rooms| && key in load.rooms[r].messages then load.rooms[r].messages[key].messageId else None
  }

  lemma IdentityStep(c: Config, s: System, e: Event, r: nat, key: string, serverId: int)
    requires Enabled(c, s, e) && IdentityOf(Step(c, s, e).load, r, key) == Some(serverId)
    ensures IdentityOf(s.load, r, key) == Some(serverId) || SaidAt(c, s, e, key) == Some(serverId)
  {}

  lemma {:induction false} IdentityWasSaid(c: Config, trace: seq<System>, events: seq<Event>, n: nat, r: nat,
                                           key: string, serverId: int)
    requires IsRun(c, trace, events) && n < |trace| && IdentityOf(trace[n].load, r, key) == Some(serverId)
    ensures forall other | Agreed(c, trace, events, n, key, other) :: other == serverId
  {
    if n > 0 {
      var e := events[n - 1];
      IdentityStep(c, trace[n - 1], e, r, key, serverId);
      if SaidAt(c, trace[n - 1], e, key) != Some(serverId) {
        IdentityWasSaid(c, trace, events, n - 1, r, key, serverId);
        forall other | Agreed(c, trace, events, n, key, other) ensures other == serverId {
          assert Agreed(c, trace, events, n - 1, key, other);
        }
      }
    }
  }

  lemma SaidIsKept(c: Config, trace: seq<System>, events: seq<Event>, m: nat, n: nat, r: nat, key: string)
    requires IsRun(c, trace, events) && m < n < |trace| && OneScheduleEach(trace[n]) && r < c.rooms
    requires EntryOf(trace[n].load, r, key).Some?
    requires var e := events[m]; SaidAt(c, trace[m], e, key).Some?
    ensures var e := events[m]; IdentityOf(trace[n].load, r, key) == SaidAt(c, trace[m], e, key)
  {
    var e := events[m];
    var q, id := e.i % c.rooms, SaidAt(c, trace[m], e, key).value;
    assert trace[m + 1] == Step(c, trace[m], e);
    assert Identified(trace[m + 1].load, q, key, id);
    IdentityLasts(c, trace, events, q, key, id, m + 1, n);
    RunKeepsInv(c, trace, events, n);
    OneRoomPerKey(c, trace[n].load, key, q, r);
  }

  /** The identity on record is the one that all counted observations agree on. */
  lemma IdentityIsAgreed(c: Config, trace: seq<System>, events: seq<Event>, n: nat, r: nat, key: string, serverId: int)
    requires IsRun(c, trace, events) && n < |trace| && OneScheduleEach(trace[n]) && r < c.rooms
    requires EntryOf(trace[n].load, r, key).Some?
    ensures Agreed(c, trace, events, n, key, serverId) <==>
            IdentityOf(trace[n].load, r, key).None? || IdentityOf(trace[n].load, r, key) == Some(serverId)
  {
    var known := IdentityOf(trace[n].load, r, key);
    if known.Some? {
      IdentityWasSaid(c, trace, events, n, r, key, known.value);
    }
    forall m {:trigger events[m]} | 0 <= m < n
      ensures var e := events[m]; SaidAt(c, trace[m], e, key).None? || SaidAt(c, trace[m], e, key) == known
    {
      var e := events[m];
      if SaidAt(c, trace[m], e, key).Some? {
        SaidIsKept(c, trace, events, m, n, r, key);
      }
    }
  }

  // ------------------------------------------------------------------- what it takes

  /** Client `i` may be told `ack` of the message `key` at `now`, in these words: it was sent
      in the client's room at most two seconds ago with this content by somebody who joined
      under this name, it is the sender for an acknowledgement and another client for a
      delivery, it was not told so before, and nobody was told another server identity. */
  predicate Evident(c: Config, trace: seq<System>, events: seq<Event>, n: nat, i: nat, now: int, key: string,
                    participant: int, content: string, serverId: int, ack: bool)
    requires IsRun(c, trace, events) && n <= |events|
  {
    var send := LastSend(c, trace, events, n, key);
    && send.Some?
    && send.value.sender % c.rooms == i % c.rooms
    && JoinOf(events, n, send.value.sender) == Some(participant)
    && send.value.content == content
    && now - send.value.at <= 2_000_000_000
    && (ack <==> i == send.value.sender)
    && Confirmations(c, trace, events, key, i, ack, n) == 0
    && Agreed(c, trace, events, n, key, serverId)
  }

  predicate Supported(c: Config, trace: seq<System>, events: seq<Event>, n: nat, e: Event)
    requires IsRun(c, trace, events) && n <= |events|
  {
    e.Observe? &&
    match e.message
    case MessageAck(id, entry) =>
      && entry.clientMessageId == id && entry.recipientId.None? && entry.replyTo.None?
      && Evident(c, trace, events, n, e.i, e.now, id, entry.participantId, entry.content, entry.messageId, true)
    case ChatReceived(id, participant, content, serverId) =>
      Evident(c, trace, events, n, e.i, e.now, id, participant, content, serverId, false)
    case OtherMessage => false
  }

  /** The same in terms of the oracle's record. */
  predicate OnRecord(c: Config, load: Load, i: nat, now: int, key: string, participant: int, content: string,
                     serverId: int, ack: bool)
    requires Shaped(c, load)
  {
    var send, r := EntryOf(load, i % c.rooms, key), i % c.rooms;
    && c.prefix <= key && send.Some?
    && send.value.sender in load.rooms[r].participants
    && load.rooms[r].participants[send.value.sender] == participant
    && send.value.content == content
    && now - send.value.at <= 2_000_000_000
    && (ack <==> i == send.value.sender)
    && !Recorded(c, load, key, i, ack)
    && (IdentityOf(load, r, key).None? || IdentityOf(load, r, key) == Some(serverId))
  }

  predicate RecordSupports(c: Config, load: Load, i: nat, message: ServerMessage, now: int)
    requires Shaped(c, load)
  {
    match message
    case MessageAck(id, entry) =>
      && entry.clientMessageId == id && entry.recipientId.None? && entry.replyTo.None?
      && OnRecord(c, load, i, now, id, entry.participantId, entry.content, entry.messageId, true)
    case ChatReceived(id, participant, content, serverId) =>
      OnRecord(c, load, i, now, id, participant, content, serverId, false)
    case OtherMessage => false
  }

  lemma CountedOnRecord(c: Config, load: Load, i: nat, message: ServerMessage, now: int)
    requires Shaped(c, load) && !message.OtherMessage?
    ensures FaultOf(c, load, i, message, now).None? <==> RecordSupports(c, load, i, message, now)
  {}

  lemma RecordIsEvidence(c: Config, trace: seq<System>, events: seq<Event>, n: nat, i: nat, now: int, key: string,
                         participant: int, content: string, serverId: int, ack: bool)
    requires IsRun(c, trace, events) && n < |trace| && OneScheduleEach(trace[n])
    ensures Shaped(c, trace[n].load)
    ensures OnRecord(c, trace[n].load, i, now, key, participant, content, serverId, ack) <==>
            Evident(c, trace, events, n, i, now, key, participant, content, serverId, ack)
  {
    var r, send := i % c.rooms, LastSend(c, trace, events, n, key);
    EntriesAreSends(c, trace, events, n, r, key);
    RecordedCounts(c, trace, events, key, i, ack, n);
    if send.Some? && send.value.sender % c.rooms == r {
      NamesAreJoins(c, trace, events, n, send.value.sender);
      IdentityIsAgreed(c, trace, events, n, r, key, serverId);
      SendNames(c, trace, events, n, key);
    }
  }

  /** The oracle counts an observation exactly when the events before it support every word
      of it, and ignores exactly the messages that are not about chat. */
  lemma CountedExactly(c: Config, trace: seq<System>, events: seq<Event>, n: nat)
    requires IsRun(c, trace, events) && n < |events| && OneScheduleEach(trace[n]) && events[n].Observe?
    ensures var e := events[n];
            && (SeenAt(c, trace[n], e).Counted? <==> Supported(c, trace, events, n, e))
            && (SeenAt(c, trace[n], e).Ignored? <==> e.message.OtherMessage?)
  {
    var e := events[n];
    var load := trace[n].load;
    match e.message
    case OtherMessage =>
    case MessageAck(id, entry) =>
      CountedOnRecord(c, load, e.i, e.message, e.now);
      RecordIsEvidence(c, trace, events, n, e.i, e.now, id, entry.participantId, entry.content, entry.messageId, true);
    case ChatReceived(id, participant, content, serverId) =>
      CountedOnRecord(c, load, e.i, e.message, e.now);
      RecordIsEvidence(c, trace, events, n, e.i, e.now, id, participant, content, serverId, false);
  }

  /** What is reported with it: the whole milliseconds since the send, none if the clock went
      back. */
  lemma LatencyIsSinceSend(c: Config, trace: seq<System>, events: seq<Event>, n: nat, key: string)
    requires IsRun(c, trace, events) && n < |events|
    requires var e := events[n]; SaidAt(c, trace[n], e, key).Some?
    ensures var e, send := events[n], LastSend(c, trace, events, n, key);
            && send.Some?
            && SeenAt(c, trace[n], e) ==
               Counted(e.message.MessageAck?, if e.now < send.value.at then 0 else (e.now - send.value.at) / 1_000_000)
  {
    var e := events[n];
    EntriesAreSends(c, trace, events, n, e.i % c.rooms, key);
  }

  // --------------------------------------------------------------- a passing report

  lemma {:induction false} SomeConfirmation(c: Config, trace: seq<System>, events: seq<Event>, key: string, j: nat,
                                            ack: bool, n: nat) returns (m: nat)
    requires IsRun(c, trace, events) && n <= |events| && Confirmations(c, trace, events, key, j, ack, n) > 0
    ensures m < n && var e := events[m]; Confirms(c, trace[m], e, key, j, ack)
  {
    var e := events[n - 1];
    if Confirms(c, trace[n - 1], e, key, j, ack) {
      m := n - 1;
    } else {
      m := SomeConfirmation(c, trace, events, key, j, ack, n - 1);
    }
  }

  lemma SentText(c: Config, trace: seq<System>, events: seq<Event>, n: nat, i: nat, sequence: nat)
    requires IsRun(c, trace, events) && n <= |events|
    requires LastSend(c, trace, events, n, MessageKey(c, i, sequence)).Some?
    ensures var send := LastSend(c, trace, events, n, MessageKey(c, i, sequence)).value;
            send.sender == i && send.content == Content(i, sequence)
  {
    var key := MessageKey(c, i, sequence);
    SendNames(c, trace, events, n, key);
    var send := LastSend(c, trace, events, n, key).value;
    var t :| key == MessageKey(c, send.sender, t) && send.content == Content(send.sender, t);
    KeyInjective(c, i, sequence, send.sender, t);
  }

  /** The message tells client `j` that client `i`, known as `name`, sent this text. */
  predicate Tells(message: ServerMessage, j: nat, i: nat, name: Option<int>, key: string, text: string) {
    match message
    case MessageAck(id, entry) =>
      && j == i && id == key && name == Some(entry.participantId)
      && entry == Entry(key, entry.participantId, text, entry.messageId, None, None)
    case ChatReceived(id, participant, content, _) =>
      j != i && id == key && name == Some(participant) && content == text
    case OtherMessage => false
  }

  /** Behind a passing report every member of the sender's room saw every planned message,
      word for word and under the sender's name, at most two seconds after it was sent: the
      sender as an acknowledgement, the others as a delivery. */
  lemma PassedDelivers(c: Config, trace: seq<System>, events: seq<Event>, i: nat, sequence: nat, j: nat)
    returns (n: nat)
    requires IsRun(c, trace, events) && OneScheduleEach(trace[|events|]) && Passed(c, trace[|events|].load)
    requires i < c.clients && 1 <= sequence <= Expected(c, i) && j < c.clients && j % c.rooms == i % c.rooms
    ensures n < |events| && events[n].Observe? && events[n].i == j
    ensures var send := LastSend(c, trace, events, n, MessageKey(c, i, sequence));
            send.Some? && send.value.sender == i && events[n].now <= send.value.at + 2_000_000_000
    ensures Tells(events[n].message, j, i, JoinOf(events, n, i), MessageKey(c, i, sequence), Content(i, sequence))
  {
    var key := MessageKey(c, i, sequence);
    ExactlyOnce(c, trace, events);
    assert DeliveredOnce(c, trace, events, |events|, i, sequence);
    assert CountedOnce(c, trace, events, |events|, i, sequence, j);
    n := SomeConfirmation(c, trace, events, key, j, j == i, |events|);
    OneScheduleBefore(c, trace, events, n, |events|);
    CountedExactly(c, trace, events, n);
    SentText(c, trace, events, n, i, sequence);
  }

  // ------------------------------------------------------------ what `prepare` answers

  predicate SendsOn(c: Config, trace: seq<System>, events: seq<Event>, m: nat, k: nat)
    requires IsRun(c, trace, events) && m < |events|
  {
    var e := events[m];
    Answer(c, trace[m], e, k).Message?
  }

  /** The time of the next slot: the first one, or an interval after the last send. */
  predicate SlotFollows(c: Config, trace: seq<System>, events: seq<Event>, k: nat, n: nat, client: nat, next: int)
    requires IsRun(c, trace, events) && n <= |events|
  {
    && FirstSend(c, client) <= next
    && (forall m | 0 <= m < n && SendsOn(c, trace, events, m, k) :: events[m].now + c.interval <= next)
    && (next == FirstSend(c, client)
        || exists m :: 0 <= m < n && SendsOn(c, trace, events, m, k) && next == events[m].now + c.interval)
  }

  lemma SlotStep(c: Config, s: System, e: Event, k: nat)
    requires Enabled(c, s, e) && k < |s.schedules|
    ensures var d, d', answer := s.schedules[k], Step(c, s, e).schedules[k], Answer(c, s, e, k);
            && d'.client == d.client
            && (if answer.Message? then d.next <= e.now && d'.next == e.now + c.interval else d'.next == d.next)
  {}

  lemma {:induction false} SlotsFollow(c: Config, trace: seq<System>, events: seq<Event>, k: nat, n: nat)
    requires IsRun(c, trace, events) && n < |trace| && k < |trace[n].schedules|
    ensures SlotFollows(c, trace, events, k, n, trace[n].schedules[k].client, trace[n].schedules[k].next)
  {
    var e := events[n - 1];
    if k < |trace[n - 1].schedules| {
      SlotsFollow(c, trace, events, k, n - 1);
      SlotStep(c, trace[n - 1], e, k);
      assert SendsOn(c, trace, events, n - 1, k) <==> Answer(c, trace[n - 1], e, k).Message?;
    } else {
      forall m | 0 <= m < n ensures !SendsOn(c, trace, events, m, k) {
        if SendsOn(c, trace, events, m, k) {
          NextGrows(c, trace, events, k, m, n - 1);
        }
      }
    }
  }

  /** What a call of `prepare` answers, by the events before it: nothing outside the slots,
      which open at the client's first send and then an interval after each send, until the
      sending stops; an error for a client that has not joined or has made its attempts; else
      the next message of the client's sequence. */
  lemma PreparesExactly(c: Config, trace: seq<System>, events: seq<Event>, k: nat, n: nat)
    requires IsRun(c, trace, events) && n < |events| && events[n].Prepare? && events[n].k == k
    ensures k < |trace[n].schedules|
    ensures var client, now := trace[n].schedules[k].client, events[n].now;
            var e, tried := events[n], Attempts(c, trace, events, k, n);
            Answer(c, trace[n], e, k) ==
            if !(FirstSend(c, client) <= now < c.stop)
               || exists m :: 0 <= m < n && SendsOn(c, trace, events, m, k) && now < events[m].now + c.interval
            then Waiting
            else if JoinOf(events, n, client).None? then NotJoined
            else if tried >= Expected(c, client) then Overrun
            else Message(MessageKey(c, client, tried + 1), Content(client, tried + 1))
  {
    var e := events[n];
    assert Enabled(c, trace[n], e);
    SlotsFollow(c, trace, events, k, n);
    SequenceCounts(c, trace, events, k, n);
    NamesAreJoins(c, trace, events, n, trace[n].schedules[k].client);
  }
}
