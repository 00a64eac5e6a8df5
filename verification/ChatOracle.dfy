/** The chat delivery oracle (load_tests/src/chat_load.rs): what every connection sees is
    checked against what was sent, and the report compares five totals. `Load` is the
    shared state; `ChatLoad` is the object that updates it. */
module ChatOracle {

  import opened Arithmetic
  import opened ChatPlan
  import opened Collections
  import opened Wrappers

  datatype Sent = Sent(sender: nat, content: string, at: int, messageId: Option<int>, acknowledged: bool,
                       received: set<nat>)

  datatype Room = Room(participants: map<nat, int>, messages: map<string, Sent>)

  datatype Load = Load(rooms: seq<Room>, invalid: nat)

  datatype Entry = Entry(clientMessageId: string, participantId: int, content: string, messageId: int,
                         recipientId: Option<int>, replyTo: Option<int>)

  datatype ServerMessage =
    | MessageAck(clientMessageId: string, message: Entry)
    | ChatReceived(clientMessageId: string, participantId: int, content: string, messageId: int)
    | OtherMessage

  datatype Fault =
    | IdentityChanged | ConversationChanged | UnexpectedIdentity | NoOwnedSend | SenderChanged
    | ContentChanged | ServerIdDisagrees | TooLate | BadAck | BadFanout

  datatype Seen = Ignored | Counted(acknowledgement: bool, latencyMs: int) | Invalid(fault: Fault)

  // ------------------------------------------------------------------- operations

  predicate Shaped(c: Config, load: Load) {
    Usable(c) && |load.rooms| == c.rooms
  }

  function EmptyLoad(c: Config): Load {
    Load(seq(c.rooms, r => Room(map[], map[])), 0)
  }

  function RoomFor(c: Config, load: Load, i: nat): Room
    requires Shaped(c, load)
  {
    load.rooms[i % c.rooms]
  }

  function WithRoom(c: Config, load: Load, i: nat, room: Room): Load
    requires Shaped(c, load)
  {
    load.(rooms := load.rooms[i % c.rooms := room])
  }

  /** `register`; refused the second time. */
  function RegisterOn(c: Config, load: Load, i: nat, participant: int): Option<Load>
    requires Shaped(c, load)
  {
    var room := RoomFor(c, load, i);
    if i in room.participants then None
    else Some(WithRoom(c, load, i, room.(participants := room.participants[i := participant])))
  }

  /** What a chat message says about itself. */
  datatype Account = Account(id: string, participant: int, content: string, serverId: int, acknowledgement: bool)

  function Read(message: ServerMessage): Account
    requires !message.OtherMessage?
  {
    match message
    case MessageAck(id, entry) => Account(id, entry.participantId, entry.content, entry.messageId, true)
    case ChatReceived(id, participant, content, serverId) => Account(id, participant, content, serverId, false)
  }

  /** The first of the source's checks that `message` fails, if any. */
  function FaultOf(c: Config, load: Load, i: nat, message: ServerMessage, now: int): Option<Fault>
    requires Shaped(c, load) && !message.OtherMessage?
  {
    var said := Read(message);
    var room := RoomFor(c, load, i);
    if message.MessageAck? && message.clientMessageId != message.message.clientMessageId then Some(IdentityChanged)
    else if message.MessageAck? && (message.message.recipientId.Some? || message.message.replyTo.Some?) then
      Some(ConversationChanged)
    else if !(c.prefix <= said.id) then Some(UnexpectedIdentity)
    else if said.id !in room.messages then Some(NoOwnedSend)
    else
      var sent := room.messages[said.id];
      if sent.sender !in room.participants || room.participants[sent.sender] != said.participant then
        Some(SenderChanged)
      else if sent.content != said.content then Some(ContentChanged)
      else if sent.messageId.Some? && sent.messageId.value != said.serverId then Some(ServerIdDisagrees)
      else if now - sent.at > DRAIN then Some(TooLate)
      else if said.acknowledgement then (if i == sent.sender && !sent.acknowledged then None else Some(BadAck))
      else (if i != sent.sender && i !in sent.received then None else Some(BadFanout))
  }

  function Marked(sent: Sent, i: nat, said: Account): Sent {
    if said.acknowledgement then sent.(acknowledged := true, messageId := Some(said.serverId))
    else sent.(received := sent.received + {i}, messageId := Some(said.serverId))
  }

  function Latency(now: int, at: int): int {
    if now < at then 0 else now - at
  }

  /** `observe`: a rejected observation only raises the invalid count. */
  function ObserveOn(c: Config, load: Load, i: nat, message: ServerMessage, now: int): (Load, Seen)
    requires Shaped(c, load)
  {
    if message.OtherMessage? then (load, Ignored) else
      var fault := FaultOf(c, load, i, message, now);
      if fault.Some? then (load.(invalid := load.invalid + 1), Invalid(fault.value)) else
        var said, room := Read(message), RoomFor(c, load, i);
        var sent := room.messages[said.id];
        (WithRoom(c, load, i, room.(messages := room.messages[said.id := Marked(sent, i, said)])),
         Counted(said.acknowledgement, Latency(now, sent.at) / MILLISECOND))
  }

  datatype Schedule = Schedule(client: nat, next: int, sequence: nat)

  datatype Prepared = Waiting | NotJoined | Overrun | Message(id: string, content: string)

  function Opened(c: Config, i: nat): Schedule
    requires Usable(c)
  {
    Schedule(i, FirstSend(c, i), 0)
  }

  predicate InWindow(c: Config, s: Schedule, now: int) {
    s.next <= now < c.stop
  }

  /** `prepare`; the sequence number advances before the checks. */
  function PrepareOn(c: Config, load: Load, s: Schedule, now: int): (Load, Schedule, Prepared)
    requires Shaped(c, load)
  {
    if !InWindow(c, s, now) then (load, s, Waiting) else
      var n := s.sequence + 1;
      var room := RoomFor(c, load, s.client);
      if s.client !in room.participants then (load, s.(sequence := n), NotJoined)
      else if n > Expected(c, s.client) then (load, s.(sequence := n), Overrun)
      else
        var id, content := MessageKey(c, s.client, n), Content(s.client, n);
        (WithRoom(c, load, s.client,
                  room.(messages := room.messages[id := Sent(s.client, content, now, None, false, {})])),
         s.(sequence := n, next := now + c.interval), Message(id, content))
  }

  // -------------------------------------------------------------------- invariant

  predicate SentInv(c: Config, r: nat, room: Room, key: string, m: Sent)
    requires Usable(c)
  {
    && m.sender in room.participants
    && key in SenderKeys(c, m.sender, Expected(c, m.sender))
    && m.received <= Members(c, r) - {m.sender}
    && (m.messageId.Some? <==> m.acknowledged || m.received != {})
  }

  predicate RoomInv(c: Config, r: nat, room: Room)
    requires Usable(c)
  {
    && room.participants.Keys <= Members(c, r)
    && forall key | key in room.messages :: SentInv(c, r, room, key, room.messages[key])
  }

  predicate LoadInv(c: Config, load: Load) {
    Shaped(c, load) && forall r | 0 <= r < c.rooms :: RoomInv(c, r, load.rooms[r])
  }

  lemma EmptyInv(c: Config)
    requires Usable(c)
    ensures LoadInv(c, EmptyLoad(c))
  {}

  lemma RegisterKeepsInv(c: Config, load: Load, i: nat, participant: int)
    requires LoadInv(c, load) && i < c.clients
    ensures var next := RegisterOn(c, load, i, participant);
            next.Some? ==> LoadInv(c, next.value)
  {
    var r, next := i % c.rooms, RegisterOn(c, load, i, participant);
    if next.Some? {
      var before, after := load.rooms[r], next.value.rooms[r];
      assert RoomInv(c, r, before);
      forall key | key in after.messages
        ensures SentInv(c, r, after, key, after.messages[key])
      {
        assert SentInv(c, r, before, key, before.messages[key]);
      }
    }
  }

  lemma MarkedInv(c: Config, r: nat, room: Room, room': Room, key: string, i: nat, said: Account)
    requires Usable(c) && key in room.messages && SentInv(c, r, room, key, room.messages[key])
    requires room'.participants == room.participants && i in Members(c, r)
    requires said.acknowledgement || i != room.messages[key].sender
    ensures SentInv(c, r, room', key, Marked(room.messages[key], i, said))
  {}

  lemma ObserveKeepsInv(c: Config, load: Load, i: nat, message: ServerMessage, now: int)
    requires LoadInv(c, load) && i < c.clients
    ensures LoadInv(c, ObserveOn(c, load, i, message, now).0)
  {
    var r, next := i % c.rooms, ObserveOn(c, load, i, message, now);
    if next.1.Counted? {
      var said, before, after := Read(message), load.rooms[r], next.0.rooms[r];
      assert RoomInv(c, r, before);
      forall key | key in after.messages
        ensures SentInv(c, r, after, key, after.messages[key])
      {
        assert SentInv(c, r, before, key, before.messages[key]);
        if key == said.id {
          MarkedInv(c, r, before, after, key, i, said);
        }
      }
      assert RoomInv(c, r, after);
    }
  }

  lemma PrepareKeepsInv(c: Config, load: Load, s: Schedule, now: int)
    requires LoadInv(c, load) && s.client < c.clients
    ensures LoadInv(c, PrepareOn(c, load, s, now).0)
  {
    var r, next, n := s.client % c.rooms, PrepareOn(c, load, s, now).0, s.sequence + 1;
    var before, after := load.rooms[r], next.rooms[r];
    assert RoomInv(c, r, before);
    SenderKey(c, s.client, Expected(c, s.client), MessageKey(c, s.client, n));
    forall key | key in after.messages
      ensures SentInv(c, r, after, key, after.messages[key])
    {
      assert key in before.messages ==> SentInv(c, r, before, key, before.messages[key]);
    }
    assert RoomInv(c, r, after);
  }

  // ------------------------------------------------------------------------ report

  function Acked(m: map<string, Sent>): set<string> {
    set key | key in m && m[key].acknowledged
  }

  /** The deliveries recorded for `keys`, as pairs of a message and a receiver. */
  function Pairs(m: map<string, Sent>, keys: set<string>): set<(string, nat)> {
    set key, j | key in keys && key in m && j in m[key].received :: (key, j)
  }

  function RegisteredIn(room: Room): nat { |room.participants| }
  function SentIn(room: Room): nat { |room.messages| }
  function AckedIn(room: Room): nat { |Acked(room.messages)| }
  function ReceivedIn(room: Room): nat { |Pairs(room.messages, room.messages.Keys)| }

  function Registered(load: Load): seq<nat> {
    seq(|load.rooms|, r requires 0 <= r < |load.rooms| => RegisteredIn(load.rooms[r]))
  }

  function SentAll(load: Load): seq<nat> {
    seq(|load.rooms|, r requires 0 <= r < |load.rooms| => SentIn(load.rooms[r]))
  }

  function AckedAll(load: Load): seq<nat> {
    seq(|load.rooms|, r requires 0 <= r < |load.rooms| => AckedIn(load.rooms[r]))
  }

  function ReceivedAll(load: Load): seq<nat> {
    seq(|load.rooms|, r requires 0 <= r < |load.rooms| => ReceivedIn(load.rooms[r]))
  }

  /** The verdict of `report`: five totals agree. */
  predicate Passed(c: Config, load: Load)
    requires Usable(c)
  {
    && Sum(Registered(load)) == c.clients
    && Sum(SentAll(load)) == Sum(Plan(c))
    && Sum(AckedAll(load)) == Sum(Plan(c))
    && Sum(ReceivedAll(load)) == Sum(Owed(c))
    && load.invalid == 0
  }

  // -------------------------------------------------------- soundness, completeness

  function Fan(key: string, s: set<nat>): set<(string, nat)> {
    set j | j in s :: (key, j)
  }

  lemma {:induction false} FanSize(key: string, s: set<nat>)
    ensures |Fan(key, s)| == |s|
    decreases s
  {
    if s != {} {
      var x :| x in s;
      FanSize(key, s - {x});
      assert Fan(key, s) == Fan(key, s - {x}) + {(key, x)};
    }
  }

  lemma PairsSplit(m: map<string, Sent>, keys: set<string>, key: string)
    requires key in keys && key in m
    ensures |Pairs(m, keys)| == |Pairs(m, keys - {key})| + |m[key].received|
  {
    FanSize(key, m[key].received);
    assert Pairs(m, keys) == Pairs(m, keys - {key}) + Fan(key, m[key].received);
  }

  /** If no message has more than `each` receivers, the total can reach `each` per message
      only when every message has exactly that many. */
  lemma {:induction false} PairsPigeonhole(m: map<string, Sent>, keys: set<string>, each: nat)
    requires keys <= m.Keys && forall key | key in keys :: |m[key].received| <= each
    ensures |Pairs(m, keys)| <= |keys| * each
    ensures |Pairs(m, keys)| == |keys| * each <==> forall key | key in keys :: |m[key].received| == each
    decreases keys
  {
    if keys == {} {
      assert Pairs(m, keys) == {};
    } else {
      var key :| key in keys;
      PairsSplit(m, keys, key);
      PairsPigeonhole(m, keys - {key}, each);
      assert keys == keys - {key} + {key};
      Distribute(|keys - {key}|, 1, each);
    }
  }

  predicate ReachedAll(members: set<nat>, planned: set<string>, room: Room) {
    && room.participants.Keys == members
    && room.messages.Keys == planned
    && (forall key | key in room.messages :: room.messages[key].acknowledged)
    && (forall key | key in room.messages :: room.messages[key].received == members - {room.messages[key].sender})
  }

  predicate Within(members: set<nat>, planned: set<string>, room: Room) {
    && room.participants.Keys <= members
    && room.messages.Keys <= planned
    && (forall key | key in room.messages ::
          && room.messages[key].sender in members
          && room.messages[key].received <= members - {room.messages[key].sender})
  }

  lemma ReceivedBound(members: set<nat>, planned: set<string>, room: Room, each: nat)
    requires Within(members, planned, room) && |members| == each + 1
    ensures ReceivedIn(room) <= |room.messages| * each
    ensures ReceivedIn(room) == |room.messages| * each <==>
            forall key | key in room.messages :: room.messages[key].received == members - {room.messages[key].sender}
  {
    var m := room.messages;
    forall key | key in m
      ensures |m[key].received| <= each
      ensures |m[key].received| == each <==> m[key].received == members - {m[key].sender}
    {
      SubsetSize(m[key].received, members - {m[key].sender});
    }
    PairsPigeonhole(m, m.Keys, each);
  }

  /** The room's totals never exceed their share, and reach it exactly when every message
      of the room reached everybody. */
  lemma RoomVerdict(members: set<nat>, planned: set<string>, room: Room, share: nat)
    requires Within(members, planned, room) && |members| >= 1 && share == |planned| * (|members| - 1)
    ensures RegisteredIn(room) <= |members| && AckedIn(room) <= |planned| && SentIn(room) <= |planned|
    ensures ReceivedIn(room) <= share
    ensures ReachedAll(members, planned, room) <==>
            && RegisteredIn(room) == |members|
            && SentIn(room) == |planned|
            && AckedIn(room) == |planned|
            && ReceivedIn(room) == share
  {
    ReceivedBound(members, planned, room, |members| - 1);
    MulMonotone(|members| - 1, |room.messages|, |planned|) by {
      SubsetSize(room.messages.Keys, planned);
    }
    SubsetSize(room.participants.Keys, members);
    SubsetSize(room.messages.Keys, planned);
    SubsetSize(Acked(room.messages), room.messages.Keys);
    assert Acked(room.messages) == room.messages.Keys <==>
           forall key | key in room.messages :: room.messages[key].acknowledged;
  }

  predicate RoomComplete(c: Config, r: nat, room: Room)
    requires Usable(c)
  {
    ReachedAll(Members(c, r), PlannedKeys(c, Plan(c), r), room)
  }

  predicate Fits(ones: seq<nat>, plan: seq<nat>, owed: seq<nat>, rooms: nat, r: nat, room: Room)
    requires rooms > 0
  {
    && RegisteredIn(room) <= Group(ones, rooms, r)
    && SentIn(room) <= Group(plan, rooms, r)
    && AckedIn(room) <= Group(plan, rooms, r)
    && ReceivedIn(room) <= Group(owed, rooms, r)
  }

  predicate Fills(ones: seq<nat>, plan: seq<nat>, owed: seq<nat>, rooms: nat, r: nat, room: Room)
    requires rooms > 0
  {
    && RegisteredIn(room) == Group(ones, rooms, r)
    && SentIn(room) == Group(plan, rooms, r)
    && AckedIn(room) == Group(plan, rooms, r)
    && ReceivedIn(room) == Group(owed, rooms, r)
  }

  lemma RoomShare(c: Config, r: nat, room: Room)
    requires Usable(c) && r < c.rooms && RoomInv(c, r, room)
    ensures Fits(Ones(c.clients), Plan(c), Owed(c), c.rooms, r, room)
    ensures Fills(Ones(c.clients), Plan(c), Owed(c), c.rooms, r, room) <==> RoomComplete(c, r, room)
  {
    Shares(c, r);
    StaysWithin(c, r, room);
    RoomVerdict(Members(c, r), PlannedKeys(c, Plan(c), r), room, Group(Owed(c), c.rooms, r));
  }

  lemma Shares(c: Config, r: nat)
    requires Usable(c) && r < c.rooms
    ensures 1 <= |Members(c, r)| == Group(Ones(c.clients), c.rooms, r)
    ensures |PlannedKeys(c, Plan(c), r)| == Group(Plan(c), c.rooms, r)
    ensures Group(Owed(c), c.rooms, r) == |PlannedKeys(c, Plan(c), r)| * (|Members(c, r)| - 1)
  {
    MembersCount(c, r);
    OwedInRoom(c, r);
    PlannedKeyCount(c, Plan(c), r);
  }

  lemma StaysWithin(c: Config, r: nat, room: Room)
    requires Usable(c) && RoomInv(c, r, room)
    ensures Within(Members(c, r), PlannedKeys(c, Plan(c), r), room)
  {
    SentArePlanned(c, r, room);
    assert forall key | key in room.messages :: SentInv(c, r, room, key, room.messages[key]);
  }

  lemma SentArePlanned(c: Config, r: nat, room: Room)
    requires Usable(c) && RoomInv(c, r, room)
    ensures room.messages.Keys <= PlannedKeys(c, Plan(c), r)
  {
    forall key | key in room.messages
      ensures key in PlannedKeys(c, Plan(c), r)
    {
      var m := room.messages[key];
      assert SentInv(c, r, room, key, m);
      assert key in SenderKeys(c, m.sender, Plan(c)[m.sender]);
      PlannedKey(c, Plan(c), r, key);
    }
  }

  /** Message `n` of client `i` went out, came back and reached every other member of the
      room. */
  predicate Reached(c: Config, load: Load, i: nat, n: nat)
    requires Shaped(c, load)
  {
    var m, key := RoomFor(c, load, i).messages, MessageKey(c, i, n);
    && key in m
    && m[key].sender == i
    && m[key].acknowledged
    && m[key].received == Members(c, i % c.rooms) - {i}
  }

  predicate EveryoneRegistered(c: Config, load: Load)
    requires Shaped(c, load)
  {
    forall i: nat | i < c.clients :: i in RoomFor(c, load, i).participants
  }

  predicate EverythingReached(c: Config, load: Load)
    requires Shaped(c, load)
  {
    forall i: nat, n: nat | i < c.clients && 1 <= n <= Expected(c, i) :: Reached(c, load, i, n)
  }

  /** Nothing but planned messages was sent. */
  predicate NothingElse(c: Config, load: Load)
    requires Shaped(c, load)
  {
    forall r, key | 0 <= r < c.rooms && key in load.rooms[r].messages :: key in PlannedKeys(c, Plan(c), r)
  }

  /** The five totals of the report agree exactly when every client registered, every
      planned message (and no other) was sent, acknowledged and received by each of its
      sender's room mates, and no observation was rejected. */
  lemma OracleIsExact(c: Config, load: Load)
    requires LoadInv(c, load)
    ensures NothingElse(c, load)
    ensures Passed(c, load) <==> EveryoneRegistered(c, load) && EverythingReached(c, load) && load.invalid == 0
  {
    forall r | 0 <= r < c.rooms
      ensures load.rooms[r].messages.Keys <= PlannedKeys(c, Plan(c), r)
    {
      SentArePlanned(c, r, load.rooms[r]);
    }
    TotalsByRoom(c, load);
    if forall r | 0 <= r < c.rooms :: RoomComplete(c, r, load.rooms[r]) {
      CompleteReaches(c, load);
    }
    if EveryoneRegistered(c, load) && EverythingReached(c, load) {
      forall r | 0 <= r < c.rooms
        ensures RoomComplete(c, r, load.rooms[r])
      {
        ReachingCompletes(c, load, r);
      }
    }
  }

  lemma TotalsByRoom(c: Config, load: Load)
    requires LoadInv(c, load)
    ensures Passed(c, load) <==> load.invalid == 0 && forall r | 0 <= r < c.rooms :: RoomComplete(c, r, load.rooms[r])
  {
    var ones, plan, owed := Ones(c.clients), Plan(c), Owed(c);
    forall r | 0 <= r < c.rooms
      ensures Fits(ones, plan, owed, c.rooms, r, load.rooms[r])
      ensures Fills(ones, plan, owed, c.rooms, r, load.rooms[r]) <==> RoomComplete(c, r, load.rooms[r])
    {
      RoomShare(c, r, load.rooms[r]);
    }
    SumOnes(c.clients);
    TotalsFill(ones, plan, owed, load);
  }

  lemma TotalsFill(ones: seq<nat>, plan: seq<nat>, owed: seq<nat>, load: Load)
    requires var rooms := |load.rooms|;
             0 < rooms && forall r | 0 <= r < rooms :: Fits(ones, plan, owed, rooms, r, load.rooms[r])
    ensures && Sum(Registered(load)) == Sum(ones) && Sum(SentAll(load)) == Sum(plan)
            && Sum(AckedAll(load)) == Sum(plan) && Sum(ReceivedAll(load)) == Sum(owed)
            <==> forall r | 0 <= r < |load.rooms| :: Fills(ones, plan, owed, |load.rooms|, r, load.rooms[r])
  {
    FitsByTotal(ones, plan, owed, load);
    FillsByTotal(ones, plan, owed, load);
    var rooms := |load.rooms|;
    SameTotals(Registered(load), ones, rooms);
    SameTotals(SentAll(load), plan, rooms);
    SameTotals(AckedAll(load), plan, rooms);
    SameTotals(ReceivedAll(load), owed, rooms);
  }

  predicate AtMost(parts: seq<nat>, whole: seq<nat>, rooms: nat)
    requires 0 < rooms == |parts|
  {
    forall r | 0 <= r < rooms :: parts[r] <= Group(whole, rooms, r)
  }

  predicate Exactly(parts: seq<nat>, whole: seq<nat>, rooms: nat)
    requires 0 < rooms == |parts|
  {
    forall r | 0 <= r < rooms :: parts[r] == Group(whole, rooms, r)
  }

  lemma FitsByTotal(ones: seq<nat>, plan: seq<nat>, owed: seq<nat>, load: Load)
    requires var rooms := |load.rooms|;
             0 < rooms && forall r | 0 <= r < rooms :: Fits(ones, plan, owed, rooms, r, load.rooms[r])
    ensures var rooms := |load.rooms|;
            && AtMost(Registered(load), ones, rooms) && AtMost(SentAll(load), plan, rooms)
            && AtMost(AckedAll(load), plan, rooms) && AtMost(ReceivedAll(load), owed, rooms)
  {
    var rooms := |load.rooms|;
    assert forall r | 0 <= r < rooms :: Fits(ones, plan, owed, rooms, r, load.rooms[r]);
  }

  lemma FillsByTotal(ones: seq<nat>, plan: seq<nat>, owed: seq<nat>, load: Load)
    requires 0 < |load.rooms|
    ensures var rooms := |load.rooms|;
            && Exactly(Registered(load), ones, rooms) && Exactly(SentAll(load), plan, rooms)
            && Exactly(AckedAll(load), plan, rooms) && Exactly(ReceivedAll(load), owed, rooms)
            <==> forall r | 0 <= r < rooms :: Fills(ones, plan, owed, rooms, r, load.rooms[r])
  {
    var rooms := |load.rooms|;
    forall r | 0 <= r < rooms
      ensures Fills(ones, plan, owed, rooms, r, load.rooms[r]) <==>
              && Registered(load)[r] == Group(ones, rooms, r) && SentAll(load)[r] == Group(plan, rooms, r)
              && AckedAll(load)[r] == Group(plan, rooms, r) && ReceivedAll(load)[r] == Group(owed, rooms, r)
    {}
  }

  lemma SameTotals(parts: seq<nat>, whole: seq<nat>, rooms: nat)
    requires 0 < rooms == |parts| && AtMost(parts, whole, rooms)
    ensures Sum(parts) == Sum(whole) <==> Exactly(parts, whole, rooms)
  {
    Regroup(whole, rooms);
    Pigeonhole(parts, Groups(whole, rooms));
    if Exactly(parts, whole, rooms) {
      assert parts == Groups(whole, rooms);
    }
  }

  lemma {:induction false} SumOnes(n: nat)
    ensures Sum(Ones(n)) == n
  {
    if n > 0 {
      assert Ones(n)[..n - 1] == Ones(n - 1);
      SumOnes(n - 1);
    }
  }

  lemma CompleteReaches(c: Config, load: Load)
    requires LoadInv(c, load) && forall r | 0 <= r < c.rooms :: RoomComplete(c, r, load.rooms[r])
    ensures EveryoneRegistered(c, load) && EverythingReached(c, load)
  {
    forall i: nat | i < c.clients
      ensures i in RoomFor(c, load, i).participants
    {
      assert RoomComplete(c, i % c.rooms, load.rooms[i % c.rooms]);
      assert i in Members(c, i % c.rooms);
    }
    forall i: nat, n: nat | i < c.clients && 1 <= n <= Expected(c, i)
      ensures Reached(c, load, i, n)
    {
      var r, key := i % c.rooms, MessageKey(c, i, n);
      assert RoomComplete(c, r, load.rooms[r]);
      SenderKey(c, i, Expected(c, i), key);
      assert key in SenderKeys(c, i, Plan(c)[i]);
      PlannedKey(c, Plan(c), r, key);
      var m := load.rooms[r].messages[key];
      assert SentInv(c, r, load.rooms[r], key, m);
      SendersDiffer(c, i, Expected(c, i), m.sender, Expected(c, m.sender), key);
    }
  }

  lemma ReachingCompletes(c: Config, load: Load, r: nat)
    requires LoadInv(c, load) && EveryoneRegistered(c, load) && EverythingReached(c, load) && r < c.rooms
    ensures RoomComplete(c, r, load.rooms[r])
  {
    var room, planned := load.rooms[r], PlannedKeys(c, Plan(c), r);
    SentArePlanned(c, r, room);
    forall j | j in Members(c, r)
      ensures j in room.participants
    {
      assert j in RoomFor(c, load, j).participants;
    }
    assert RoomInv(c, r, room);
    forall key | key in planned
      ensures key in room.messages && room.messages[key].acknowledged
      ensures room.messages[key].received == Members(c, r) - {room.messages[key].sender}
    {
      PlannedKey(c, Plan(c), r, key);
      var i :| 0 <= i < c.clients && i % c.rooms == r && key in SenderKeys(c, i, Plan(c)[i]);
      SenderKey(c, i, Expected(c, i), key);
      var n :| 1 <= n <= Expected(c, i) && key == MessageKey(c, i, n);
      assert Reached(c, load, i, n);
    }
  }
}
