/** The chat oracle as the objects the load test shares: `ChatLoad` and one
    `ChatSchedule` per sending client (load_tests/src/chat_load.rs). */
module ChatProgram {

  import opened ChatPlan
  import opened ChatOracle
  import opened Collections
  import opened Wrappers

  datatype Check = Check(name: string, actual: nat, expected: nat)

  datatype Report = Report(passed: bool, intervalMs: int, contentBytes: int, drainMs: int, clientsRegistered: nat,
                           expectedMessages: nat, sentMessages: nat, acknowledgements: nat, expectedDeliveries: nat,
                           receivedDeliveries: nat, invalidObservations: nat, failureReasons: seq<Check>)

  datatype InventoryEntry = InventoryEntry(messageId: int, sender: int, clientMessageId: string, digest: string)

  function Mismatches(checks: seq<Check>): seq<Check> {
    if checks == [] then [] else
      var n := |checks| - 1;
      Mismatches(checks[..n]) + if checks[n].actual != checks[n].expected then [checks[n]] else []
  }

  /** The five comparisons of the report. */
  function Checks(c: Config, load: Load): seq<Check>
    requires Usable(c)
  {
    [Check("registered clients", Sum(Registered(load)), c.clients),
     Check("sent messages", Sum(SentAll(load)), Sum(Plan(c))),
     Check("acknowledgements", Sum(AckedAll(load)), Sum(Plan(c))),
     Check("peer deliveries", Sum(ReceivedAll(load)), Sum(Owed(c))),
     Check("invalid observations", load.invalid, 0)]
  }

  lemma {:induction false} NoMismatch(checks: seq<Check>)
    ensures Mismatches(checks) == [] <==> forall j | 0 <= j < |checks| :: checks[j].actual == checks[j].expected
  {
    if checks != [] {
      NoMismatch(checks[..|checks| - 1]);
    }
  }

  lemma SumTo(s: seq<nat>, i: nat)
    requires i < |s|
    ensures Sum(s[..i + 1]) == Sum(s[..i]) + s[i]
  {
    assert s[..i + 1][..i] == s[..i];
  }

  // ---------------------------------------------------------------- the inventory

  predicate Confirmed(room: Room, key: string) {
    key in room.messages && room.messages[key].messageId.Some? && room.messages[key].sender in room.participants
  }

  function ConfirmedKeys(room: Room): set<string> {
    set key | key in room.messages && Confirmed(room, key)
  }

  function EntryFor(room: Room, key: string, digest: string -> string): InventoryEntry
    requires Confirmed(room, key)
  {
    var m := room.messages[key];
    InventoryEntry(m.messageId.value, room.participants[m.sender], key, digest(m.content))
  }

  /** The entry describes a message of the room: its server identity, its sender's name, its
      id and the digest of its text. */
  predicate Describes(room: Room, digest: string -> string, e: InventoryEntry) {
    && e.clientMessageId in room.messages
    && var m := room.messages[e.clientMessageId];
       && m.messageId == Some(e.messageId)
       && m.sender in room.participants && room.participants[m.sender] == e.sender
       && e.digest == digest(m.content)
  }

  lemma ListedDescribes(rooms: seq<Room>, digest: string -> string, e: InventoryEntry)
    ensures Listed(rooms, digest, e) <==> exists r :: 0 <= r < |rooms| && Describes(rooms[r], digest, e)
  {
    if r :| 0 <= r < |rooms| && Describes(rooms[r], digest, e) {
      assert e.clientMessageId in ConfirmedKeys(rooms[r]) && e == EntryFor(rooms[r], e.clientMessageId, digest);
    }
    if Listed(rooms, digest, e) {
      var r, key :| 0 <= r < |rooms| && key in ConfirmedKeys(rooms[r]) && e == EntryFor(rooms[r], key, digest);
      assert Describes(rooms[r], digest, e);
    }
  }

  function ConfirmedAll(rooms: seq<Room>): seq<nat> {
    seq(|rooms|, r requires 0 <= r < |rooms| => |ConfirmedKeys(rooms[r])|)
  }

  predicate Ascending(inventory: seq<InventoryEntry>) {
    forall a, b | 0 <= a < b < |inventory| :: inventory[a].messageId <= inventory[b].messageId
  }

  predicate Listed(rooms: seq<Room>, digest: string -> string, e: InventoryEntry) {
    exists r, key :: 0 <= r < |rooms| && key in ConfirmedKeys(rooms[r]) && e == EntryFor(rooms[r], key, digest)
  }

  method AddEntry(inventory: seq<InventoryEntry>, e: InventoryEntry) returns (more: seq<InventoryEntry>)
    requires Ascending(inventory)
    ensures Ascending(more) && |more| == |inventory| + 1
    ensures forall x :: x in more <==> x in inventory || x == e
  {
    var at := |inventory|;
    while at > 0 && inventory[at - 1].messageId > e.messageId
      invariant 0 <= at <= |inventory|
      invariant forall b | at <= b < |inventory| :: inventory[b].messageId > e.messageId
    {
      at := at - 1;
    }
    more := inventory[..at] + [e] + inventory[at..];
    InsertedAscending(inventory, e, at, more);
    SplitMembers(inventory, at);
  }

  lemma InsertedAscending(inventory: seq<InventoryEntry>, e: InventoryEntry, at: nat, more: seq<InventoryEntry>)
    requires Ascending(inventory) && at <= |inventory| && more == inventory[..at] + [e] + inventory[at..]
    requires at > 0 ==> inventory[at - 1].messageId <= e.messageId
    requires forall b | at <= b < |inventory| :: inventory[b].messageId > e.messageId
    ensures Ascending(more)
  {
    forall a, b | 0 <= a < b < |more|
      ensures more[a].messageId <= more[b].messageId
    {
      assert more[a] == if a < at then inventory[a] else if a == at then e else inventory[a - 1];
      assert more[b] == if b < at then inventory[b] else if b == at then e else inventory[b - 1];
      assert a < at <= b ==> inventory[a].messageId <= e.messageId;
    }
  }

  lemma SplitMembers(inventory: seq<InventoryEntry>, at: nat)
    requires at <= |inventory|
    ensures forall x :: x in inventory <==> x in inventory[..at] || x in inventory[at..]
  {
    assert inventory == inventory[..at] + inventory[at..];
  }

  method AddRoom(inventory: seq<InventoryEntry>, ghost done: seq<Room>, room: Room, digest: string -> string)
    returns (more: seq<InventoryEntry>)
    requires Ascending(inventory) && forall e :: e in inventory <==> Listed(done, digest, e)
    ensures Ascending(more) && |more| == |inventory| + |ConfirmedKeys(room)|
    ensures forall e :: e in more <==> Listed(done + [room], digest, e)
  {
    more := inventory;
    var todo := ConfirmedKeys(room);
    while todo != {}
      invariant todo <= ConfirmedKeys(room)
      invariant Ascending(more) && |more| + |todo| == |inventory| + |ConfirmedKeys(room)|
      invariant forall e :: e in more <==> e in inventory || InRoom(room, ConfirmedKeys(room) - todo, digest, e)
      decreases todo
    {
      var key :| key in todo;
      more := AddEntry(more, EntryFor(room, key, digest));
      assert ConfirmedKeys(room) - (todo - {key}) == ConfirmedKeys(room) - todo + {key};
      todo := todo - {key};
    }
    assert ConfirmedKeys(room) - todo == ConfirmedKeys(room);
    forall e
      ensures Listed(done + [room], digest, e) <==>
              Listed(done, digest, e) || InRoom(room, ConfirmedKeys(room), digest, e)
    {
      ListedMore(done, room, digest, e);
    }
  }

  predicate InRoom(room: Room, keys: set<string>, digest: string -> string, e: InventoryEntry) {
    exists key :: key in keys && Confirmed(room, key) && e == EntryFor(room, key, digest)
  }

  lemma ListedMore(done: seq<Room>, room: Room, digest: string -> string, e: InventoryEntry)
    ensures Listed(done + [room], digest, e) <==>
            Listed(done, digest, e) || InRoom(room, ConfirmedKeys(room), digest, e)
  {
    var rooms, n := done + [room], |done|;
    if Listed(done, digest, e) {
      var r, key :| 0 <= r < n && key in ConfirmedKeys(done[r]) && e == EntryFor(done[r], key, digest);
      assert key in ConfirmedKeys(rooms[r]) && e == EntryFor(rooms[r], key, digest);
    }
    if InRoom(room, ConfirmedKeys(room), digest, e) {
      var key :| key in ConfirmedKeys(room) && Confirmed(room, key) && e == EntryFor(room, key, digest);
      assert key in ConfirmedKeys(rooms[n]) && e == EntryFor(rooms[n], key, digest);
    }
    if Listed(rooms, digest, e) {
      var r, key :| 0 <= r < |rooms| && key in ConfirmedKeys(rooms[r]) && e == EntryFor(rooms[r], key, digest);
      assert r < n ==> key in ConfirmedKeys(done[r]) && e == EntryFor(done[r], key, digest);
    }
  }

  // -------------------------------------------------------------------- the objects

  class ChatLoad {
    const c: Config
    var rooms: seq<Room>
    var invalid: nat

    ghost predicate Valid()
      reads this
    {
      Shaped(c, View())
    }

    ghost function View(): Load
      reads this
    {
      Load(rooms, invalid)
    }

    constructor (clients: nat, rooms: nat, intervalMs: nat, start: int, end: int, prefix: string)
      requires 0 < rooms <= clients && 0 < intervalMs
      ensures c == Config(clients, rooms, intervalMs * MILLISECOND, start, end - DRAIN, prefix)
      ensures Valid() && View() == EmptyLoad(c)
    {
      c := Config(clients, rooms, intervalMs * MILLISECOND, start, end - DRAIN, prefix);
      this.rooms := seq(rooms, r => Room(map[], map[]));
      invalid := 0;
    }

    method Register(i: nat, participant: int) returns (ok: bool)
      requires Valid()
      modifies this
      ensures Valid() && ok == RegisterOn(c, old(View()), i, participant).Some?
      ensures View() == if ok then RegisterOn(c, old(View()), i, participant).value else old(View())
    {
      var room := rooms[i % c.rooms];
      ok := i !in room.participants;
      if ok {
        rooms := rooms[i % c.rooms := room.(participants := room.participants[i := participant])];
      }
    }

    /** `observe_inner`: checks one message and marks the send it answers. */
    method ObserveInner(i: nat, message: ServerMessage, now: int) returns (seen: Seen)
      requires Valid()
      modifies this`rooms
      ensures Valid() && seen == ObserveOn(c, old(View()), i, message, now).1
      ensures seen.Invalid? ==> rooms == old(rooms)
      ensures !seen.Invalid? ==> View() == ObserveOn(c, old(View()), i, message, now).0
    {
      if message.OtherMessage? {
        return Ignored;
      }
      if message.MessageAck? {
        if message.clientMessageId != message.message.clientMessageId {
          return Invalid(IdentityChanged);
        }
        if message.message.recipientId.Some? || message.message.replyTo.Some? {
          return Invalid(ConversationChanged);
        }
      }
      var said := Read(message);
      if !(c.prefix <= said.id) {
        return Invalid(UnexpectedIdentity);
      }
      var room := rooms[i % c.rooms];
      if said.id !in room.messages {
        return Invalid(NoOwnedSend);
      }
      var sent := room.messages[said.id];
      if sent.sender !in room.participants || room.participants[sent.sender] != said.participant {
        return Invalid(SenderChanged);
      }
      if sent.content != said.content {
        return Invalid(ContentChanged);
      }
      if sent.messageId.Some? && sent.messageId.value != said.serverId {
        return Invalid(ServerIdDisagrees);
      }
      var latency := Latency(now, sent.at);
      if latency > DRAIN {
        return Invalid(TooLate);
      }
      if said.acknowledgement {
        if !(i == sent.sender && !sent.acknowledged) {
          return Invalid(BadAck);
        }
        sent := sent.(acknowledged := true);
      } else {
        if !(i != sent.sender && i !in sent.received) {
          return Invalid(BadFanout);
        }
        sent := sent.(received := sent.received + {i});
      }
      sent := sent.(messageId := Some(said.serverId));
      rooms := rooms[i % c.rooms := room.(messages := room.messages[said.id := sent])];
      return Counted(said.acknowledgement, latency / MILLISECOND);
    }

    method Observe(i: nat, message: ServerMessage, now: int) returns (seen: Seen)
      requires Valid()
      modifies this
      ensures Valid() && (View(), seen) == ObserveOn(c, old(View()), i, message, now)
    {
      seen := ObserveInner(i, message, now);
      if seen.Invalid? {
        invalid := invalid + 1;
      }
    }

    method ExpectedTotals() returns (messages: nat, deliveries: nat)
      requires Valid()
      ensures messages == Sum(Plan(c)) && deliveries == Sum(Owed(c))
    {
      messages, deliveries := 0, 0;
      for i := 0 to c.clients
        invariant messages == Sum(Plan(c)[..i]) && deliveries == Sum(Owed(c)[..i])
      {
        RoomSizeCounts(c, i);
        SumTo(Plan(c), i);
        SumTo(Owed(c), i);
        messages := messages + Expected(c, i);
        deliveries := deliveries + Owed(c)[i];
      }
      assert Plan(c)[..c.clients] == Plan(c) && Owed(c)[..c.clients] == Owed(c);
    }

    /** The deliveries recorded in one room. */
    method ReceivedTotal(room: Room) returns (received: nat)
      ensures received == ReceivedIn(room)
    {
      received := 0;
      var todo, m := room.messages.Keys, room.messages;
      assert m.Keys - todo == {} && Pairs(m, {}) == {};
      while todo != {}
        invariant todo <= m.Keys && received == |Pairs(m, m.Keys - todo)|
        decreases todo
      {
        var key :| key in todo;
        PairsSplit(m, m.Keys - (todo - {key}), key);
        assert m.Keys - (todo - {key}) - {key} == m.Keys - todo;
        received := received + |m[key].received|;
        todo := todo - {key};
      }
      assert m.Keys - todo == m.Keys;
    }

    /** `report`: five totals, summed room by room, decide the verdict. */
    method ReportTotals() returns (report: Report)
      requires Valid()
      ensures report.passed <==> Passed(c, View())
      ensures report.failureReasons == Mismatches(Checks(c, View()))
      ensures report == Report(report.passed, c.interval / MILLISECOND, 128, 2_000, Sum(Registered(View())),
                               Sum(Plan(c)), Sum(SentAll(View())), Sum(AckedAll(View())), Sum(Owed(c)),
                               Sum(ReceivedAll(View())), invalid, report.failureReasons)
    {
      var expectedMessages, expectedDeliveries := ExpectedTotals();
      var registered, sent, acknowledged, received := 0, 0, 0, 0;
      for r := 0 to |rooms|
        invariant registered == Sum(Registered(View())[..r]) && sent == Sum(SentAll(View())[..r])
        invariant acknowledged == Sum(AckedAll(View())[..r]) && received == Sum(ReceivedAll(View())[..r])
      {
        SumTo(Registered(View()), r);
        SumTo(SentAll(View()), r);
        SumTo(AckedAll(View()), r);
        SumTo(ReceivedAll(View()), r);
        registered := registered + |rooms[r].participants|;
        sent := sent + |rooms[r].messages|;
        acknowledged := acknowledged + |Acked(rooms[r].messages)|;
        var more := ReceivedTotal(rooms[r]);
        received := received + more;
      }
      WholeSums(View());
      var failures := CompareTotals([
        Check("registered clients", registered, c.clients),
        Check("sent messages", sent, expectedMessages),
        Check("acknowledgements", acknowledged, expectedMessages),
        Check("peer deliveries", received, expectedDeliveries),
        Check("invalid observations", invalid, 0)]);
      PassedChecks(c, View());
      report := Report(failures == [], c.interval / MILLISECOND, CONTENT_BYTES, DRAIN / MILLISECOND, registered,
                       expectedMessages, sent, acknowledged, expectedDeliveries, received, invalid, failures);
    }

    /** `inventory`: one entry per message whose server identity is known. */
    method Inventory(digest: string -> string) returns (inventory: seq<InventoryEntry>)
      ensures Ascending(inventory) && |inventory| == Sum(ConfirmedAll(rooms))
      ensures forall e :: e in inventory <==> exists r :: 0 <= r < |rooms| && Describes(rooms[r], digest, e)
    {
      inventory := [];
      for r := 0 to |rooms|
        invariant Ascending(inventory) && |inventory| == Sum(ConfirmedAll(rooms)[..r])
        invariant forall e :: e in inventory <==> Listed(rooms[..r], digest, e)
      {
        SumTo(ConfirmedAll(rooms), r);
        inventory := AddRoom(inventory, rooms[..r], rooms[r], digest);
        assert rooms[..r + 1] == rooms[..r] + [rooms[r]];
      }
      assert rooms[..|rooms|] == rooms;
      assert ConfirmedAll(rooms)[..|rooms|] == ConfirmedAll(rooms);
      forall e ensures Listed(rooms, digest, e) <==> exists r :: 0 <= r < |rooms| && Describes(rooms[r], digest, e) {
        ListedDescribes(rooms, digest, e);
      }
    }
  }

  method CompareTotals(checks: seq<Check>) returns (failures: seq<Check>)
    ensures failures == Mismatches(checks)
  {
    failures := [];
    for n := 0 to |checks|
      invariant failures == Mismatches(checks[..n])
    {
      assert checks[..n + 1][..n] == checks[..n];
      if checks[n].actual != checks[n].expected {
        failures := failures + [checks[n]];
      }
    }
    assert checks[..|checks|] == checks;
  }

  lemma PassedChecks(c: Config, load: Load)
    requires Usable(c)
    ensures Passed(c, load) <==> Mismatches(Checks(c, load)) == []
  {
    var checks := Checks(c, load);
    NoMismatch(checks);
    if Mismatches(checks) == [] {
      assert forall j | 0 <= j < 5 :: checks[j].actual == checks[j].expected;
      assert checks[0].actual == checks[0].expected && checks[1].actual == checks[1].expected;
      assert checks[2].actual == checks[2].expected && checks[3].actual == checks[3].expected;
      assert checks[4].actual == checks[4].expected;
    }
  }

  lemma WholeSums(load: Load)
    ensures Registered(load)[..|load.rooms|] == Registered(load) && SentAll(load)[..|load.rooms|] == SentAll(load)
    ensures AckedAll(load)[..|load.rooms|] == AckedAll(load) && ReceivedAll(load)[..|load.rooms|] == ReceivedAll(load)
  {}

  class ChatSchedule {
    const load: ChatLoad
    const index: nat
    var next: int
    var sequence: nat

    ghost function View(): Schedule
      reads this
    {
      Schedule(index, next, sequence)
    }

    /** `schedule`. */
    constructor (load: ChatLoad, index: nat)
      requires load.Valid()
      ensures this.load == load && View() == Opened(load.c, index)
    {
      this.load := load;
      this.index := index;
      next := FirstSend(load.c, index);
      sequence := 0;
    }

    /** `next`: the time of the next slot, while one remains. */
    method Next() returns (at: Option<int>)
      requires load.Valid()
      ensures at.Some? <==> exists now :: InWindow(load.c, View(), now)
      ensures at.Some? ==>
                && InWindow(load.c, View(), at.value)
                && forall now | InWindow(load.c, View(), now) :: at.value <= now
    {
      if next < load.c.stop {
        at := Some(next);
        assert InWindow(load.c, View(), next);
      } else {
        at := None;
      }
    }

    method Prepare(now: int) returns (message: Prepared)
      requires load.Valid()
      modifies this, load
      ensures load.Valid() && (load.View(), View(), message) == PrepareOn(load.c, old(load.View()), old(View()), now)
      ensures message.Message? ==> message.id == load.c.prefix + Decimal(index) + "-" + Decimal(sequence)
    {
      if now < next || now >= load.c.stop {
        return Waiting;
      }
      sequence := sequence + 1;
      var id := MessageKey(load.c, index, sequence);
      var content := Content(index, sequence);
      var r := index % load.c.rooms;
      var room := load.rooms[r];
      if index !in room.participants {
        return NotJoined;
      }
      if sequence > Expected(load.c, index) {
        return Overrun;
      }
      load.rooms := load.rooms[r := room.(messages := room.messages[id := Sent(index, content, now, None, false, {})])];
      next := now + load.c.interval;
      return Message(id, content);
    }
  }

  /** A passing report leaves nothing out of the inventory. */
  lemma PassedInventory(c: Config, load: Load)
    requires LoadInv(c, load) && Passed(c, load)
    ensures forall r | 0 <= r < c.rooms :: ConfirmedKeys(load.rooms[r]) == PlannedKeys(c, Plan(c), r)
  {
    TotalsByRoom(c, load);
    forall r | 0 <= r < c.rooms
      ensures ConfirmedKeys(load.rooms[r]) == PlannedKeys(c, Plan(c), r)
    {
      var room := load.rooms[r];
      assert RoomComplete(c, r, room) && RoomInv(c, r, room);
      assert forall key | key in room.messages :: SentInv(c, r, room, key, room.messages[key]);
    }
  }
}
