/** The plan of the chat workload (load_tests/src/chat_load.rs): which client sits in
    which room, when each client sends and how many messages it owes. Times are in
    nanoseconds. */
module ChatPlan {

  import opened Arithmetic
  import opened Collections

  const MILLISECOND: int := 1_000_000
  const SECOND: int := 1_000_000_000
  const DRAIN: int := 2 * SECOND
  const MAX_DELIVERIES: int := 1_000_000
  const CONTENT_BYTES: int := 128
  const U64: int := 0x1_0000_0000_0000_0000

  /** `stop` is the end of the run less the drain. */
  datatype Config = Config(clients: nat, rooms: nat, interval: nat, start: int, stop: int, prefix: string)

  predicate Usable(c: Config) {
    0 < c.rooms <= c.clients && 0 < c.interval
  }

  function CeilDiv(n: int, d: int): int
    requires d > 0
  {
    (n + d - 1) / d
  }

  /** `room_size`. */
  function RoomSize(c: Config, i: nat): int
    requires Usable(c)
  {
    (c.clients - 1 - i % c.rooms) / c.rooms + 1
  }

  /** `seat / size` of the interval, to the nearest nanosecond. */
  function Phase(interval: int, seat: int, size: int): int
    requires size > 0
  {
    (2 * interval * seat + size) / (2 * size)
  }

  /** `first_send`: the members of a room are spread over one interval. */
  function FirstSend(c: Config, i: nat): int
    requires Usable(c)
  {
    RoomSizeCounts(c, i);
    c.start + Phase(c.interval, i / c.rooms, RoomSize(c, i))
  }

  /** `expected_messages`. */
  function Expected(c: Config, i: nat): (n: nat)
    requires Usable(c)
  {
    if FirstSend(c, i) >= c.stop then 0 else
      CeilPositive(c.stop - FirstSend(c, i), c.interval);
      CeilDiv(c.stop - FirstSend(c, i), c.interval)
  }

  // ------------------------------------------------------------------------- sums

  /** The part of the sum that falls to room `r` when entry `i` sits in `i % rooms`. */
  function Group(s: seq<nat>, rooms: nat, r: nat): nat
    requires rooms > 0
  {
    if s == [] then 0 else
      Group(s[..|s| - 1], rooms, r) + if (|s| - 1) % rooms == r then s[|s| - 1] else 0
  }

  function Groups(s: seq<nat>, rooms: nat): (g: seq<nat>)
    requires rooms > 0
    ensures |g| == rooms
  {
    seq(rooms, r requires 0 <= r < rooms => Group(s, rooms, r))
  }

  lemma {:induction false} SumZeros(n: nat)
    ensures Sum(seq(n, i => 0)) == 0
  {
    if n > 0 {
      assert seq(n, i => 0)[..n - 1] == seq(n - 1, i => 0);
      SumZeros(n - 1);
    }
  }

  /** Round-robin seating loses nothing: the rooms' shares add up to the whole. */
  lemma {:induction false} Regroup(s: seq<nat>, rooms: nat)
    requires rooms > 0
    ensures Sum(Groups(s, rooms)) == Sum(s)
  {
    if s == [] {
      assert Groups(s, rooms) == seq(rooms, i => 0);
      SumZeros(rooms);
    } else {
      var n := |s| - 1;
      var before := Groups(s[..n], rooms);
      assert Groups(s, rooms) == before[n % rooms := before[n % rooms] + s[n]];
      SumUpdate(before, n % rooms, before[n % rooms] + s[n]);
      Regroup(s[..n], rooms);
    }
  }

  /** Totals that agree while every part is bounded force every part to agree. */
  lemma {:induction false} Pigeonhole(a: seq<nat>, b: seq<nat>)
    requires |a| == |b| && forall i | 0 <= i < |a| :: a[i] <= b[i]
    ensures Sum(a) <= Sum(b)
    ensures Sum(a) == Sum(b) ==> a == b
  {
    if a != [] {
      var n := |a| - 1;
      Pigeonhole(a[..n], b[..n]);
      if Sum(a) == Sum(b) {
        assert a[n] == b[n] && a[..n] == b[..n];
        assert a == a[..n] + [a[n]] && b == b[..n] + [b[n]];
      }
    }
  }

  // ------------------------------------------------------------------ room members

  lemma CeilPositive(n: int, d: int)
    requires d > 0 && n > 0
    ensures CeilDiv(n, d) >= 1
    ensures d * (CeilDiv(n, d) - 1) < n <= d * CeilDiv(n, d)
  {
    var q := (n + d - 1) / d;
    assert n + d - 1 == d * q + (n + d - 1) % d;
    assert d * (q - 1) == d * q - d;
    MulOrder(d, 0, q);
  }

  function Members(c: Config, r: nat): set<nat>
    requires Usable(c)
  {
    set j: nat | 0 <= j < c.clients && j % c.rooms == r
  }

  function Ones(n: nat): seq<nat> {
    seq(n, i => 1)
  }

  function SeatedBelow(n: nat, rooms: nat, r: nat): set<nat>
    requires rooms > 0
  {
    set j: nat | 0 <= j < n && j % rooms == r
  }

  lemma {:induction false} CountSeated(n: nat, rooms: nat, r: nat)
    requires r < rooms
    ensures |SeatedBelow(n, rooms, r)| == Group(Ones(n), rooms, r)
    ensures Group(Ones(n), rooms, r) == if n <= r then 0 else (n - 1 - r) / rooms + 1
  {
    if n > 0 {
      var m := n - 1;
      CountSeated(m, rooms, r);
      assert Ones(n)[..m] == Ones(m);
      if m % rooms == r {
        assert SeatedBelow(n, rooms, r) == SeatedBelow(m, rooms, r) + {m};
      } else {
        assert SeatedBelow(n, rooms, r) == SeatedBelow(m, rooms, r);
      }
      SeatStep(m, rooms, r);
    }
  }

  lemma SeatStep(m: nat, rooms: nat, r: nat)
    requires r < rooms
    ensures m < r ==> m % rooms != r
    ensures m == r ==> m % rooms == r && (m - r) / rooms == 0
    ensures m > r ==> (m - r) / rooms == (m - 1 - r) / rooms + if m % rooms == r then 1 else 0
  {
    if m <= r {
      DivModUnique(m, rooms, 0, m);
      DivModUnique(0, rooms, 0, 0);
    } else {
      var q, k := (m - 1 - r) / rooms, (m - 1 - r) % rooms;
      if k == rooms - 1 {
        DivModUnique(m - r, rooms, q + 1, 0);
        DivModUnique(m, rooms, q + 1, r);
      } else {
        DivModUnique(m - r, rooms, q, k + 1);
        if k + 1 + r < rooms {
          DivModUnique(m, rooms, q, k + 1 + r);
        } else {
          DivModUnique(m, rooms, q + 1, k + 1 + r - rooms);
        }
      }
    }
  }

  /** `room_size` is the number of clients seated in the client's room. */
  lemma RoomSizeCounts(c: Config, i: nat)
    requires Usable(c)
    ensures RoomSize(c, i) == |Members(c, i % c.rooms)| == Group(Ones(c.clients), c.rooms, i % c.rooms) >= 1
  {
    var r := i % c.rooms;
    CountSeated(c.clients, c.rooms, r);
    assert SeatedBelow(c.clients, c.rooms, r) == Members(c, r);
    assert (c.clients - 1 - r) / c.rooms >= 0;
  }

  lemma MembersCount(c: Config, r: nat)
    requires Usable(c) && r < c.rooms
    ensures |Members(c, r)| == Group(Ones(c.clients), c.rooms, r)
  {
    CountSeated(c.clients, c.rooms, r);
    assert SeatedBelow(c.clients, c.rooms, r) == Members(c, r);
  }

  /** Every first send falls into the first interval; it rounds up to the interval's end
      exactly when the interval is too short to seat the room. */
  lemma FirstSendInInterval(c: Config, i: nat)
    requires Usable(c) && i < c.clients
    ensures c.start <= FirstSend(c, i) <= c.start + c.interval
    ensures FirstSend(c, i) < c.start + c.interval <==> RoomSize(c, i) < 2 * c.interval * (RoomSize(c, i) - i / c.rooms)
  {
    var seat, size := i / c.rooms, RoomSize(c, i);
    assert 0 <= seat < size by {
      SeatInRoom(c.clients, c.rooms, i);
    }
    PhaseWithin(c.interval, seat, size);
  }

  /** The seats of a room are spread evenly: each first send is the nanosecond nearest to the
      seat's share of the interval. */
  lemma FirstSendIsNearest(c: Config, i: nat)
    requires Usable(c) && i < c.clients
    ensures var seat, size, phase := i / c.rooms, RoomSize(c, i), FirstSend(c, i) - c.start;
            2 * c.interval * seat - size < 2 * size * phase <= 2 * c.interval * seat + size
  {
    RoomSizeCounts(c, i);
    NearestQuotient(2 * c.interval * (i / c.rooms), RoomSize(c, i));
  }

  lemma NearestQuotient(n: int, size: int)
    requires size > 0
    ensures n - size < 2 * size * ((n + size) / (2 * size)) <= n + size
  {
    assert n + size == 2 * size * ((n + size) / (2 * size)) + (n + size) % (2 * size);
  }

  lemma SeatInRoom(clients: nat, rooms: nat, i: nat)
    requires 0 < rooms && i < clients
    ensures 0 <= i / rooms <= (clients - 1 - i % rooms) / rooms
  {
    QuotientAtLeast(clients - 1 - i % rooms, rooms, i / rooms);
  }

  lemma PhaseProducts(interval: int, seat: int, size: int)
    requires 0 < interval && 0 <= seat < size
    ensures 0 <= 2 * interval * seat <= 2 * size * interval - 2 * interval
    ensures 2 * size * (interval + 1) == 2 * size * interval + 2 * size
    ensures 2 * interval * (size - seat) == 2 * size * interval - 2 * interval * seat
  {
    MulMonotone(2 * interval, 0, seat);
    MulMonotone(2 * interval, seat, size - 1);
  }

  lemma PhaseWithin(interval: int, seat: int, size: int)
    requires 0 < interval && 0 <= seat < size
    ensures 0 <= Phase(interval, seat, size) <= interval
    ensures Phase(interval, seat, size) < interval <==> size < 2 * interval * (size - seat)
  {
    var n := 2 * interval * seat + size;
    PhaseProducts(interval, seat, size);
    QuotientBelow(n, 2 * size, interval + 1);
    if n < 2 * size * interval {
      QuotientBelow(n, 2 * size, interval);
    } else {
      QuotientAtLeast(n, 2 * size, interval);
    }
  }

  // ----------------------------------------------------------------- message ids

  function Digit(n: nat): char
    requires n < 10
  {
    '0' + n as char
  }

  function Decimal(n: nat): string {
    if n < 10 then [Digit(n)] else Decimal(n / 10) + [Digit(n % 10)]
  }

  function MessageKey(c: Config, i: nat, sequence: nat): string {
    c.prefix + Decimal(i) + "-" + Decimal(sequence)
  }

  function Padded(text: string): string
    decreases CONTENT_BYTES - |text|
  {
    if |text| >= CONTENT_BYTES then text else Padded(text + "x")
  }

  function Content(i: nat, sequence: nat): string {
    Padded(Text(i, sequence))
  }

  lemma {:induction false} DecimalDigits(n: nat)
    ensures |Decimal(n)| >= 1 && '-' !in Decimal(n)
  {
    if n >= 10 {
      DecimalDigits(n / 10);
    }
  }

  lemma {:induction false} DecimalInjective(a: nat, b: nat)
    requires Decimal(a) == Decimal(b)
    ensures a == b
  {
    if a < 10 && b < 10 {
      assert Decimal(a)[0] == Decimal(b)[0];
    } else if a < 10 {
      DecimalDigits(b / 10);
      assert false;
    } else if b < 10 {
      DecimalDigits(a / 10);
      assert false;
    } else {
      assert Decimal(a)[..|Decimal(a)| - 1] == Decimal(a / 10) && Decimal(b)[..|Decimal(b)| - 1] == Decimal(b / 10);
      assert Decimal(a)[|Decimal(a)| - 1] == Digit(a % 10) && Decimal(b)[|Decimal(b)| - 1] == Digit(b % 10);
      DecimalInjective(a / 10, b / 10);
    }
  }

  /** A client message id names one sender and one sequence number. */
  lemma KeyInjective(c: Config, i: nat, s: nat, j: nat, t: nat)
    requires MessageKey(c, i, s) == MessageKey(c, j, t)
    ensures i == j && s == t
  {
    var key, p, di, dj := MessageKey(c, i, s), |c.prefix|, Decimal(i), Decimal(j);
    DecimalDigits(i);
    DecimalDigits(j);
    assert key[p..p + |di|] == di && key[p..p + |dj|] == dj;
    assert key[p + |di|] == '-' && key[p + |dj|] == '-';
    assert forall a | 0 <= a < |di| :: key[p + a] == di[a];
    assert forall a | 0 <= a < |dj| :: key[p + a] == dj[a];
    assert key[p + |di| + 1..] == Decimal(s) && key[p + |dj| + 1..] == Decimal(t);
    DecimalInjective(i, j);
    DecimalInjective(s, t);
  }

  // ---------------------------------------------------------------- message texts

  function Text(i: nat, sequence: nat): string {
    "Owned load-test text from participant " + Decimal(i) + " message " + Decimal(sequence) + ". "
  }

  lemma {:induction false} PaddedShape(text: string)
    ensures |Padded(text)| == if |text| >= 128 then |text| else 128
    ensures text <= Padded(text)
    ensures forall k | |text| <= k < |Padded(text)| :: Padded(text)[k] == 'x'
    decreases CONTENT_BYTES - |text|
  {
    if |text| < CONTENT_BYTES {
      PaddedShape(text + "x");
      assert Padded(text)[..|text|] == text;
    }
  }

  /** Every message is its text, filled up to 128 bytes. */
  lemma ContentShape(i: nat, sequence: nat)
    ensures var text, content := Text(i, sequence), Content(i, sequence);
            && text <= content && |content| == (if |text| >= 128 then |text| else 128)
            && forall k | |text| <= k < |content| :: content[k] == 'x'
  {
    PaddedShape(Text(i, sequence));
  }

  /** The number a string of digits stands for. */
  function Value(digits: string): int {
    if digits == "" then 0 else 10 * Value(digits[..|digits| - 1]) + (digits[|digits| - 1] as int - '0' as int)
  }

  /** Decimal notation is read back as the number written. */
  lemma {:induction false} DecimalRoundTrip(n: nat)
    ensures Value(Decimal(n)) == n
  {
    if n >= 10 {
      DecimalRoundTrip(n / 10);
      assert Decimal(n)[..|Decimal(n)| - 1] == Decimal(n / 10);
    } else {
      assert Decimal(n)[..0] == "";
    }
  }

  // ------------------------------------------------------------- what is planned

  /** Messages owed per client. */
  function Plan(c: Config): (p: seq<nat>)
    requires Usable(c)
    ensures |p| == c.clients
  {
    seq(c.clients, i requires 0 <= i < c.clients => Expected(c, i))
  }

  function ToPeers(messages: nat, size: int): nat
    requires size >= 1
  {
    MulMonotone(messages, 0, size - 1);
    messages * (size - 1)
  }

  /** Deliveries owed per sending client. */
  function Owed(c: Config): (p: seq<nat>)
    requires Usable(c)
    ensures |p| == c.clients
  {
    seq(c.clients, i requires 0 <= i < c.clients => RoomSizeCounts(c, i); ToPeers(Expected(c, i), RoomSize(c, i)))
  }

  function SenderKeys(c: Config, i: nat, n: nat): set<string> {
    if n == 0 then {} else SenderKeys(c, i, n - 1) + {MessageKey(c, i, n)}
  }

  function PlannedKeys(c: Config, plan: seq<nat>, r: nat): set<string>
    requires Usable(c)
  {
    if plan == [] then {} else
      var n := |plan| - 1;
      PlannedKeys(c, plan[..n], r) + if n % c.rooms == r then SenderKeys(c, n, plan[n]) else {}
  }

  lemma {:induction false} SenderKey(c: Config, i: nat, n: nat, key: string)
    ensures key in SenderKeys(c, i, n) <==> exists s :: 1 <= s <= n && key == MessageKey(c, i, s)
  {
    if n > 0 {
      SenderKey(c, i, n - 1, key);
    }
  }

  lemma {:induction false} SenderKeyCount(c: Config, i: nat, n: nat)
    ensures |SenderKeys(c, i, n)| == n
  {
    if n > 0 {
      SenderKeyCount(c, i, n - 1);
      var key := MessageKey(c, i, n);
      if key in SenderKeys(c, i, n - 1) {
        SenderKey(c, i, n - 1, key);
        var s :| 1 <= s <= n - 1 && key == MessageKey(c, i, s);
        KeyInjective(c, i, n, i, s);
        assert false;
      }
    }
  }

  lemma {:induction false} PlannedKey(c: Config, plan: seq<nat>, r: nat, key: string)
    requires Usable(c)
    ensures key in PlannedKeys(c, plan, r) <==>
            exists i :: 0 <= i < |plan| && i % c.rooms == r && key in SenderKeys(c, i, plan[i])
  {
    if plan != [] {
      var n := |plan| - 1;
      PlannedKey(c, plan[..n], r, key);
      if key in PlannedKeys(c, plan[..n], r) {
        var i :| 0 <= i < n && i % c.rooms == r && key in SenderKeys(c, i, plan[..n][i]);
        assert key in SenderKeys(c, i, plan[i]);
      }
    }
  }

  lemma {:induction false} PlannedKeyCount(c: Config, plan: seq<nat>, r: nat)
    requires Usable(c)
    ensures |PlannedKeys(c, plan, r)| == Group(plan, c.rooms, r)
  {
    if plan != [] {
      var n := |plan| - 1;
      PlannedKeyCount(c, plan[..n], r);
      SenderKeyCount(c, n, plan[n]);
      forall key | key in PlannedKeys(c, plan[..n], r)
        ensures key !in SenderKeys(c, n, plan[n])
      {
        PlannedKey(c, plan[..n], r, key);
        var i :| 0 <= i < n && i % c.rooms == r && key in SenderKeys(c, i, plan[..n][i]);
        if key in SenderKeys(c, n, plan[n]) {
          SendersDiffer(c, i, plan[i], n, plan[n], key);
          assert false;
        }
      }
    }
  }

  lemma SendersDiffer(c: Config, i: nat, m: nat, j: nat, n: nat, key: string)
    requires key in SenderKeys(c, i, m) && key in SenderKeys(c, j, n)
    ensures i == j
  {
    SenderKey(c, i, m, key);
    SenderKey(c, j, n, key);
    var s :| 1 <= s <= m && key == MessageKey(c, i, s);
    var t :| 1 <= t <= n && key == MessageKey(c, j, t);
    KeyInjective(c, i, s, j, t);
  }

  lemma {:induction false} GroupScale(s: seq<nat>, t: seq<nat>, rooms: nat, r: nat, factor: nat)
    requires rooms > 0 && |s| == |t|
    requires forall i | 0 <= i < |s| && i % rooms == r :: t[i] == s[i] * factor
    ensures Group(t, rooms, r) == Group(s, rooms, r) * factor
  {
    if s != [] {
      var n := |s| - 1;
      GroupScale(s[..n], t[..n], rooms, r, factor);
      Distribute(Group(s[..n], rooms, r), s[n], factor);
    }
  }

  lemma Distribute(x: nat, y: nat, factor: nat)
    ensures (x + y) * factor == x * factor + y * factor
  {}

  lemma OwedAt(c: Config, i: nat)
    requires Usable(c) && i < c.clients
    ensures |Members(c, i % c.rooms)| >= 1
    ensures Owed(c)[i] == Plan(c)[i] * (|Members(c, i % c.rooms)| - 1)
  {
    RoomSizeCounts(c, i);
  }

  lemma OwedInRoom(c: Config, r: nat)
    requires Usable(c) && r < c.rooms
    ensures |Members(c, r)| >= 1
    ensures Group(Owed(c), c.rooms, r) == Group(Plan(c), c.rooms, r) * (|Members(c, r)| - 1)
  {
    DivModUnique(r, c.rooms, 0, r);
    OwedAt(c, r);
    var owed, plan := Owed(c), Plan(c);
    forall i | 0 <= i < c.clients && i % c.rooms == r
      ensures owed[i] == plan[i] * (|Members(c, r)| - 1)
    {
      OwedAt(c, i);
    }
    GroupScale(plan, owed, c.rooms, r, |Members(c, r)| - 1);
  }

  // -------------------------------------------------------------------- validate

  datatype Verdict = Fine | NotLoopback | Churn | BadInterval | EmptyRooms | TooFast | TooShort | TooMany

  function SaturatingMul(a: int, b: int): int {
    if a * b < U64 then a * b else U64 - 1
  }

  /** `validate`, when chat traffic is asked for. All quantities are unsigned 64-bit; the
      rate product wraps. */
  function Validate(loopback: bool, clients: nat, rooms: nat, intervalMs: nat, durationSecs: nat, churn: real)
    : Verdict
  {
    if !loopback then NotLoopback
    else if churn != 0.0 then Churn
    else if !(1_000 <= intervalMs <= 600_000) then BadInterval
    else if !(clients > 0 && rooms > 0 && rooms <= clients) then EmptyRooms
    else
      var roomSize := CeilDiv(clients, rooms);
      if (roomSize * 1_000) % U64 > intervalMs * 5 then TooFast
      else
        var durationMs := SaturatingMul(durationSecs, 1_000);
        if durationMs < intervalMs + 2_000 then TooShort
        else
          var upper := SaturatingMul(clients, CeilDiv(durationMs, intervalMs));
          if SaturatingMul(upper, roomSize) > MAX_DELIVERIES then TooMany else Fine
  }

  function Configured(clients: nat, rooms: nat, intervalMs: nat, durationSecs: nat, start: int, prefix: string)
    : Config
  {
    Config(clients, rooms, intervalMs * MILLISECOND, start, start + durationSecs * SECOND - DRAIN, prefix)
  }

  /** What a validated configuration guarantees about the run: a bounded inventory, at
      most five messages a second in a room, and at least one message from everybody. */
  lemma ValidatedRun(loopback: bool, clients: nat, rooms: nat, intervalMs: nat, durationSecs: nat, churn: real,
                     start: int, prefix: string)
    requires Validate(loopback, clients, rooms, intervalMs, durationSecs, churn) == Fine
    ensures var c := Configured(clients, rooms, intervalMs, durationSecs, start, prefix);
            && Usable(c)
            && Sum(Owed(c)) <= MAX_DELIVERIES
            && forall i | 0 <= i < clients :: Expected(c, i) >= 1 && RoomSize(c, i) * 1_000 <= intervalMs * 5
  {
    var c := Configured(clients, rooms, intervalMs, durationSecs, start, prefix);
    var size := CeilDiv(clients, rooms);
    var each := CeilDiv(durationSecs * 1_000, intervalMs);
    NothingSaturated(clients, durationSecs, intervalMs, size, rooms);
    CeilPositive(durationSecs * 1_000, intervalMs);
    forall i | 0 <= i < clients
      ensures 1 <= Expected(c, i) <= each && 1 <= RoomSize(c, i) <= size
    {
      PerClient(c, i, size, each);
    }
    OwedAtMost(c, size, each);
  }

  /** `validate` accepts exactly the workloads that its unlimited arithmetic would: none of
      the saturating and wrapping products lets a larger one through or stops a smaller one. */
  lemma ValidateIsExact(loopback: bool, clients: nat, rooms: nat, intervalMs: nat, durationSecs: nat, churn: real)
    ensures Validate(loopback, clients, rooms, intervalMs, durationSecs, churn) == Fine <==>
            && loopback && churn == 0.0 && 1_000 <= intervalMs <= 600_000 && 1 <= rooms <= clients
            && CeilDiv(clients, rooms) * 1_000 <= intervalMs * 5
            && durationSecs * 1_000 >= intervalMs + 2_000
            && clients * CeilDiv(durationSecs * 1_000, intervalMs) * CeilDiv(clients, rooms) <= 1_000_000
  {
    if loopback && churn == 0.0 && 1_000 <= intervalMs <= 600_000 && 1 <= rooms <= clients {
      var size := CeilDiv(clients, rooms);
      if Validate(loopback, clients, rooms, intervalMs, durationSecs, churn) == Fine {
        NothingSaturated(clients, durationSecs, intervalMs, size, rooms);
      } else if durationSecs * 1_000 >= intervalMs + 2_000 {
        SmallProducts(clients, durationSecs, intervalMs, size, rooms);
      }
    }
  }

  /** An inventory within its bound leaves every factor small. */
  lemma SmallProducts(clients: nat, durationSecs: nat, intervalMs: nat, size: int, rooms: nat)
    requires 1 <= rooms <= clients && 1_000 <= intervalMs <= 600_000 && size == CeilDiv(clients, rooms)
    requires durationSecs * 1_000 >= intervalMs + 2_000
    ensures var each := CeilDiv(durationSecs * 1_000, intervalMs);
            clients * each * size <= MAX_DELIVERIES && size * 1_000 <= intervalMs * 5 ==>
              && SaturatingMul(durationSecs, 1_000) == durationSecs * 1_000
              && SaturatingMul(clients, each) == clients * each
              && SaturatingMul(clients * each, size) == clients * each * size
              && (size * 1_000) % U64 == size * 1_000
  {
    var each := CeilDiv(durationSecs * 1_000, intervalMs);
    CeilPositive(clients, rooms);
    CeilPositive(durationSecs * 1_000, intervalMs);
    ProductAtMost(1, clients, each, each);
    var upper := clients * each;
    ProductAtMost(1, size, upper, upper);
    ProductAtMost(1, upper, size, size);
    if upper * size <= MAX_DELIVERIES {
      assert each <= MAX_DELIVERIES;
      ProductAtMost(each, MAX_DELIVERIES, intervalMs, 600_000);
    }
  }

  lemma PerClient(c: Config, i: nat, size: int, each: int)
    requires Usable(c) && i < c.clients && size == CeilDiv(c.clients, c.rooms) < c.interval
    requires c.start + c.interval <= c.stop <= c.start + c.interval * each
    ensures 1 <= Expected(c, i) <= each && 1 <= RoomSize(c, i) <= size
  {
    RoomSizeCounts(c, i);
    RoomAtMost(c.clients, c.rooms, i);
    FirstSendInInterval(c, i);
    SeatInRoom(c.clients, c.rooms, i);
    MulMonotone(2 * c.interval, 1, RoomSize(c, i) - i / c.rooms);
    ExpectedWithin(c, i, each);
  }

  lemma OwedAtMost(c: Config, size: int, each: int)
    requires Usable(c) && each >= 0 && size >= 0
    requires forall i | 0 <= i < c.clients :: Expected(c, i) <= each && 1 <= RoomSize(c, i) <= size
    ensures Sum(Owed(c)) <= c.clients * each * size
  {
    var bound: nat := TotalBound(c.clients, each, size);
    forall i | 0 <= i < c.clients
      ensures Owed(c)[i] <= bound
    {
      ProductAtMost(Expected(c, i), each, RoomSize(c, i) - 1, size);
    }
    SumAtMost(Owed(c), bound);
  }

  lemma TotalBound(clients: nat, each: int, size: int) returns (bound: nat)
    requires each >= 0 && size >= 0
    ensures bound == each * size
    ensures clients * bound == clients * each * size
  {
    ProductAtMost(0, each, 0, size);
    bound := each * size;
  }

  lemma RoomAtMost(clients: nat, rooms: nat, i: nat)
    requires 0 < rooms <= clients
    ensures (clients - 1 - i % rooms) / rooms + 1 <= CeilDiv(clients, rooms)
  {
    var q := (clients - 1 - i % rooms) / rooms;
    assert rooms * (q + 1) == rooms * q + rooms;
    QuotientAtLeast(clients + rooms - 1, rooms, q + 1);
  }

  /** None of the saturating or wrapping products of an accepted run did either. */
  lemma NothingSaturated(clients: nat, durationSecs: nat, intervalMs: nat, size: int, rooms: nat)
    requires 0 < rooms <= clients && 1_000 <= intervalMs <= 600_000 && size == CeilDiv(clients, rooms)
    requires var durationMs := SaturatingMul(durationSecs, 1_000);
             && durationMs >= intervalMs + 2_000
             && SaturatingMul(SaturatingMul(clients, CeilDiv(durationMs, intervalMs)), size) <= MAX_DELIVERIES
    ensures SaturatingMul(durationSecs, 1_000) == durationSecs * 1_000
    ensures clients * CeilDiv(durationSecs * 1_000, intervalMs) * size <= MAX_DELIVERIES
    ensures 1 <= size <= MAX_DELIVERIES && (size * 1_000) % U64 == size * 1_000
  {
    var durationMs := SaturatingMul(durationSecs, 1_000);
    var each := CeilDiv(durationMs, intervalMs);
    CeilPositive(clients, rooms);
    CeilPositive(durationMs, intervalMs);
    ProductAtMost(1, clients, each, each);
    var upper := SaturatingMul(clients, each);
    ProductAtMost(1, size, upper, upper);
    ProductAtMost(1, upper, size, size);
    assert upper == clients * each;
    assert each <= MAX_DELIVERIES;
    ProductAtMost(each, MAX_DELIVERIES, intervalMs, 600_000);
  }

  lemma ExpectedWithin(c: Config, i: nat, each: int)
    requires Usable(c) && c.start <= FirstSend(c, i) < c.start + c.interval
    requires c.start + c.interval <= c.stop <= c.start + c.interval * each
    ensures 1 <= Expected(c, i) <= each
  {
    CeilPositive(c.stop - FirstSend(c, i), c.interval);
    MulOrder(c.interval, Expected(c, i) - 1, each);
  }
}
