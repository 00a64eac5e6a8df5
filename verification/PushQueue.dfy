/** The Web Push queue (src/push.rs). Each SQL statement is one atomic step on a
    subscription row. `Sub` is one row together with the claims whose delivery has
    not finished; any number of workers may hold claims at once. */
module PushQueue {

  import opened Wrappers

  // ------------------------------------------------------------------- the rows

  /** Microseconds, the resolution of a PostgreSQL timestamp. */
  const SECOND: int := 1_000_000
  const MAX_ATTEMPTS: int := 5

  datatype Row = Row(user: int, pendingSince: Option<int>, generation: int, attempts: int, nextAttempt: int)

  datatype Delivery = Accepted | Expired | Retry | Rejected

  /** A claimed row as the worker holds it; `serial` and `at` (its order among the
      row's claims and its time) are history. */
  datatype Claim = Claim(serial: nat, at: int, generation: int, attempts: int)

  function FreshRow(user: int, now: int): Row {
    Row(user, None, 0, 0, now)
  }

  function Max(x: int, y: int): int {
    if x >= y then x else y
  }

  /** `enqueue` on one of the recipient's rows. */
  function Enqueued(row: Row, now: int): Row {
    if row.pendingSince.Some? then row.(generation := row.generation + 1)
    else row.(generation := row.generation + 1, attempts := 0, pendingSince := Some(now),
              nextAttempt := Max(row.nextAttempt, now + 3 * SECOND))
  }

  predicate Due(row: Row, now: int) {
    row.pendingSince.Some? && row.nextAttempt <= now
  }

  /** `claim_pending` on one due row: a 60-second lease. */
  function Claimed(row: Row, now: int): Row {
    row.(nextAttempt := now + 60 * SECOND,
         attempts := if row.attempts + 1 <= MAX_ATTEMPTS then row.attempts + 1 else MAX_ATTEMPTS)
  }

  function Pow2(n: nat): int {
    if n == 0 then 1 else 2 * Pow2(n - 1)
  }

  /** Seconds until a retry: 30 doubled once per attempt so far. */
  function RetryDelay(attempts: int): int {
    30 * Pow2(if attempts < 0 then 0 else if attempts <= 5 then attempts else 5)
  }

  predicate Retries(c: Claim, outcome: Delivery) {
    outcome == Retry && c.attempts < MAX_ATTEMPTS
  }

  predicate Terminal(c: Claim, outcome: Delivery) {
    outcome != Expired && !Retries(c, outcome)
  }

  /** `finish_delivery` on the claimed row, `None` when the row is deleted. A message
      that arrived during the request owns the newer generation. */
  function Finished(row: Row, c: Claim, outcome: Delivery, now: int): Option<Row> {
    if outcome == Expired then None
    else if Retries(c, outcome) then Some(row.(nextAttempt := now + RetryDelay(c.attempts) * SECOND))
    else Some(row.(pendingSince := if row.generation == c.generation then None else row.pendingSince,
                   attempts := 0, nextAttempt := now + 15 * SECOND))
  }

  function DeliveryStatus(code: nat): Delivery {
    if 200 <= code <= 299 then Accepted
    else if code == 404 || code == 410 then Expired
    else if code == 408 || code == 429 || 500 <= code <= 599 then Retry
    else Rejected
  }

  /** What the push service's answer does to the row: gone endpoints are deleted, busy ones
      backed off while attempts remain, and everything else settles it. */
  lemma StatusDecides(row: Row, c: Claim, code: nat, now: int)
    ensures var busy := (code == 408 || code == 429 || 500 <= code < 600) && c.attempts < MAX_ATTEMPTS;
            var after := Finished(row, c, DeliveryStatus(code), now);
            && (after.None? <==> code == 404 || code == 410)
            && (busy <==> after.Some? && Retries(c, DeliveryStatus(code)))
            && (busy ==> after.value.pendingSince == row.pendingSince && after.value.attempts == row.attempts)
            && (after.Some? && !busy ==>
                  after.value.attempts == 0 && (after.value.pendingSince.Some? ==> row.generation != c.generation))
  {}

  // -------------------------------------------------------- one subscription's runs

  /** `claims`, `enqueues`, `lastClaim`, `episode` (the generation when the last claim was
      taken with none outstanding) and `settled` (the value of `episode` at the last
      terminal finish) are history. */
  datatype Sub = Sub(row: Option<Row>, now: int, live: set<Claim>, claims: nat, enqueues: nat,
                     lastClaim: Option<int>, episode: int, settled: int)

  datatype Action =
    | Skip
    | Tick(elapsed: nat)
    | Enqueue
    | TakeClaim
    | Finish(claim: Claim, outcome: Delivery)
    | Delete

  function FreshSub(user: int, now: int): Sub {
    Sub(Some(FreshRow(user, now)), now, {}, 0, 0, None, 0, 0)
  }

  predicate Enabled(s: Sub, a: Action) {
    match a
    case Skip | Tick(_) | Enqueue | Delete => true
    case TakeClaim => s.row.Some? && Due(s.row.value, s.now)
    case Finish(c, _) => c in s.live
  }

  function NextClaim(s: Sub): Claim
    requires s.row.Some?
  {
    Claim(s.claims, s.now, s.row.value.generation, Claimed(s.row.value, s.now).attempts)
  }

  function Apply(s: Sub, a: Action): Sub
    requires Enabled(s, a)
  {
    match a
    case Skip => s
    case Tick(elapsed) => s.(now := s.now + elapsed)
    case Enqueue => if s.row.Some? then s.(row := Some(Enqueued(s.row.value, s.now)), enqueues := s.enqueues + 1) else s
    case TakeClaim =>
      s.(row := Some(Claimed(s.row.value, s.now)), live := s.live + {NextClaim(s)}, claims := s.claims + 1,
         lastClaim := Some(s.now), episode := if s.live == {} then s.row.value.generation else s.episode)
    case Finish(c, outcome) =>
      var s := s.(live := s.live - {c});
      if s.row.None? then s
      else if Terminal(c, outcome)
      then s.(row := Finished(s.row.value, c, outcome, s.now), settled := s.episode)
      else s.(row := Finished(s.row.value, c, outcome, s.now))
    case Delete => s.(row := None)
  }

  ghost predicate IsRun(trace: seq<Sub>, actions: seq<Action>) {
    && |trace| == |actions| + 1
    && (exists user, now :: trace[0] == FreshSub(user, now))
    && forall i {:trigger actions[i]} | 0 <= i < |actions| ::
         Enabled(trace[i], actions[i]) && trace[i + 1] == Apply(trace[i], actions[i])
  }

  // ------------------------------------------------ what every interleaving keeps

  /** Claims are numbered in order and never ahead of the row; the row is never due
      within 15 seconds of its last claim nor within 3 seconds of becoming pending. */
  predicate Inv(s: Sub) {
    && (forall c | c in s.live :: c.serial < s.claims && 1 <= c.attempts <= MAX_ATTEMPTS && c.at <= s.now)
    && (s.lastClaim.Some? ==> s.lastClaim.value <= s.now)
    && (s.row.Some? ==> RowInv(s.row.value, s))
  }

  predicate RowInv(row: Row, s: Sub) {
    && 0 <= row.attempts <= MAX_ATTEMPTS
    && row.generation == s.enqueues
    && (forall c | c in s.live :: c.generation <= row.generation)
    && (s.lastClaim.Some? ==> row.nextAttempt >= s.lastClaim.value + 15 * SECOND)
    && (row.pendingSince.Some? ==>
          row.pendingSince.value <= s.now && row.nextAttempt >= row.pendingSince.value + 3 * SECOND)
  }

  lemma RetryDelayBounds(attempts: int)
    requires 1 <= attempts <= MAX_ATTEMPTS
    ensures RetryDelay(attempts) == [60, 120, 240, 480, 960][attempts - 1]
  {
    assert Pow2(0) == 1 && Pow2(1) == 2 && Pow2(2) == 4 && Pow2(3) == 8 && Pow2(4) == 16 && Pow2(5) == 32;
  }

  /** `finish_delivery` to the second: a retry backs off one, two, four or eight minutes, and
      anything else but a gone endpoint settles the row for fifteen seconds, unless a message
      arrived since the claim. */
  lemma FinishedExactly(row: Row, c: Claim, outcome: Delivery, now: int)
    requires 1 <= c.attempts <= 5
    ensures var after := Finished(row, c, outcome, now);
            if outcome == Expired then after == None
            else if outcome == Retry && c.attempts <= 4 then
              after == Some(Row(row.user, row.pendingSince, row.generation, row.attempts,
                                now + [60, 120, 240, 480][c.attempts - 1] * 1_000_000))
            else
              after == Some(Row(row.user, if row.generation == c.generation then None else row.pendingSince,
                                row.generation, 0, now + 15_000_000))
  {
    RetryDelayBounds(c.attempts);
  }

  lemma StepKeepsInv(s: Sub, a: Action)
    requires Inv(s) && Enabled(s, a)
    ensures Inv(Apply(s, a))
  {
    if a.Finish? {
      RetryDelayBounds(a.claim.attempts);
    }
  }

  lemma {:induction false} RunKeepsInv(trace: seq<Sub>, actions: seq<Action>, i: nat)
    requires IsRun(trace, actions) && i < |trace|
    ensures Inv(trace[i])
  {
    if i > 0 {
      RunKeepsInv(trace, actions, i - 1);
      StepKeepsInv(trace[i - 1], actions[i - 1]);
    }
  }

  /** The row is due, or will be, within eight minutes. */
  predicate SoonDue(s: Sub) {
    s.row.Some? ==> s.row.value.nextAttempt <= s.now + 480 * SECOND
  }

  lemma StepSoonDue(s: Sub, a: Action)
    requires Inv(s) && Enabled(s, a) && SoonDue(s)
    ensures SoonDue(Apply(s, a))
  {
    if a.Finish? {
      RetryDelayBounds(a.claim.attempts);
    }
  }

  /** No statement puts a row off for more than eight minutes. */
  lemma {:induction false} NeverFarOff(trace: seq<Sub>, actions: seq<Action>, i: nat)
    requires IsRun(trace, actions) && i < |trace|
    ensures trace[i].row.Some? ==> trace[i].row.value.nextAttempt <= trace[i].now + 480_000_000
  {
    if i > 0 {
      NeverFarOff(trace, actions, i - 1);
      RunKeepsInv(trace, actions, i - 1);
      StepSoonDue(trace[i - 1], actions[i - 1]);
    }
  }

  lemma NextInTime(trace: seq<Sub>, actions: seq<Action>, i: nat)
    requires IsRun(trace, actions) && i < |actions|
    ensures trace[i].now <= trace[i + 1].now
    ensures trace[i + 1].lastClaim == if actions[i].TakeClaim? then Some(trace[i].now) else trace[i].lastClaim
  {}

  /** Time only advances, and so does the time of the last claim. */
  lemma {:induction false} ClaimsAdvance(trace: seq<Sub>, actions: seq<Action>, i: nat, j: nat)
    requires IsRun(trace, actions) && i < j < |trace|
    ensures trace[i].now <= trace[j].now
    ensures actions[i].TakeClaim? ==> trace[j].lastClaim.Some? && trace[j].lastClaim.value >= trace[i].now
    decreases j
  {
    NextInTime(trace, actions, j - 1);
    if i < j - 1 {
      ClaimsAdvance(trace, actions, i, j - 1);
    }
  }

  /** Any two claims of a subscription are at least 15 seconds apart, whatever
      finishes, stale or not, happen in between. */
  lemma ClaimSpacing(trace: seq<Sub>, actions: seq<Action>, i: nat, j: nat)
    requires IsRun(trace, actions) && i < j < |actions| && actions[i].TakeClaim? && actions[j].TakeClaim?
    ensures trace[j].now >= trace[i].now + 15 * SECOND
  {
    ClaimsAdvance(trace, actions, i, j);
    RunKeepsInv(trace, actions, j);
    assert Due(trace[j].row.value, trace[j].now);
  }

  lemma NextPendingSince(trace: seq<Sub>, actions: seq<Action>, i: nat, since: int)
    requires IsRun(trace, actions) && i < |actions| && trace[i].now >= since
    requires PendingNotBefore(trace[i], since)
    ensures PendingNotBefore(trace[i + 1], since)
  {
    assert trace[i + 1] == Apply(trace[i], actions[i]);
  }

  predicate PendingNotBefore(s: Sub, since: int) {
    s.row.Some? && s.row.value.pendingSince.Some? ==> s.row.value.pendingSince.value >= since
  }

  lemma {:induction false} PendingFollows(trace: seq<Sub>, actions: seq<Action>, i: nat, j: nat)
    requires IsRun(trace, actions) && i < j < |trace| && actions[i].Enqueue?
    requires trace[i].row.Some? && trace[i].row.value.pendingSince.None?
    ensures PendingNotBefore(trace[j], trace[i].now)
    decreases j
  {
    if i < j - 1 {
      PendingFollows(trace, actions, i, j - 1);
      ClaimsAdvance(trace, actions, i, j - 1);
      NextPendingSince(trace, actions, j - 1, trace[i].now);
    }
  }

  /** A row that becomes pending is not claimed within the next 3 seconds: messages
      that follow closely are coalesced into one delivery. */
  lemma CoalescingWindow(trace: seq<Sub>, actions: seq<Action>, i: nat, j: nat)
    requires IsRun(trace, actions) && i < j < |actions| && actions[i].Enqueue? && actions[j].TakeClaim?
    requires trace[i].row.Some? && trace[i].row.value.pendingSince.None?
    ensures trace[j].now >= trace[i].now + 3 * SECOND
  {
    PendingFollows(trace, actions, i, j);
    RunKeepsInv(trace, actions, j);
    assert Due(trace[j].row.value, trace[j].now);
  }

  // ------------------------------------------------------------ no lost notification

  /** Relative to an enqueue that left the row at `generation` when `claims` claims
      had been taken: earlier claims carry older generations. */
  predicate Overtaken(s: Sub, claims: nat, generation: int) {
    && (s.row.Some? ==> s.row.value.generation >= generation)
    && (forall c | c in s.live :: c.serial < claims ==> c.generation < generation)
    && claims <= s.claims
  }

  lemma NextOvertaken(s: Sub, a: Action, claims: nat, generation: int)
    requires Enabled(s, a) && Overtaken(s, claims, generation)
    ensures Overtaken(Apply(s, a), claims, generation)
  {}

  lemma EnqueueOvertakes(s: Sub)
    requires Inv(s) && s.row.Some?
    ensures Overtaken(Apply(s, Enqueue), s.claims, Apply(s, Enqueue).row.value.generation)
    ensures Apply(s, Enqueue).row.value.pendingSince.Some?
  {}

  lemma {:induction false} StaysOvertaken(trace: seq<Sub>, actions: seq<Action>, i: nat, j: nat)
    requires IsRun(trace, actions) && i < j < |trace| && actions[i].Enqueue? && trace[i].row.Some?
    ensures Overtaken(trace[j], trace[i].claims, trace[i + 1].row.value.generation)
    decreases j
  {
    if i == j - 1 {
      RunKeepsInv(trace, actions, i);
      EnqueueOvertakes(trace[i]);
    } else {
      StaysOvertaken(trace, actions, i, j - 1);
      NextOvertaken(trace[j - 1], actions[j - 1], trace[i].claims, trace[i + 1].row.value.generation);
    }
  }

  /** The finish at step `k` is terminal and belongs to a claim taken after step `i`. */
  predicate Answers(trace: seq<Sub>, actions: seq<Action>, i: nat, k: nat)
    requires i < |trace| && k < |actions|
  {
    actions[k].Finish? && Terminal(actions[k].claim, actions[k].outcome) && actions[k].claim.serial >= trace[i].claims
  }

  predicate Pending(s: Sub) {
    s.row.Some? && s.row.value.pendingSince.Some?
  }

  lemma ClearedBy(s: Sub, a: Action, claims: nat, generation: int)
    requires Enabled(s, a) && Overtaken(s, claims, generation) && Pending(s)
    requires Apply(s, a).row.Some? && !Pending(Apply(s, a))
    ensures a.Finish? && Terminal(a.claim, a.outcome) && a.claim.serial >= claims
  {}

  lemma DeletedStays(s: Sub, a: Action)
    requires Enabled(s, a) && s.row.None?
    ensures Apply(s, a).row.None?
  {}

  /** No lost notification: after an enqueue the row stays pending until a terminal
      finish of a claim taken after it, or until the row is deleted. */
  lemma {:induction false} NoLostNotification(trace: seq<Sub>, actions: seq<Action>, i: nat, j: nat)
    requires IsRun(trace, actions) && i < j < |trace| && actions[i].Enqueue? && trace[i].row.Some?
    ensures trace[j].row.None? || Pending(trace[j]) || exists k: nat | i < k < j :: Answers(trace, actions, i, k)
    decreases j
  {
    if i == j - 1 {
      RunKeepsInv(trace, actions, i);
      EnqueueOvertakes(trace[i]);
    } else {
      NoLostNotification(trace, actions, i, j - 1);
      if trace[j - 1].row.None? {
        DeletedStays(trace[j - 1], actions[j - 1]);
      } else if Pending(trace[j - 1]) && trace[j].row.Some? && !Pending(trace[j]) {
        StaysOvertaken(trace, actions, i, j - 1);
        ClearedBy(trace[j - 1], actions[j - 1], trace[i].claims, trace[i + 1].row.value.generation);
        assert Answers(trace, actions, i, j - 1);
      }
    }
  }

  // ------------------------------------------------------------------------- leases

  /** No claim outlives its 60-second lease. */
  predicate WithinLease(s: Sub) {
    forall c | c in s.live :: s.now < c.at + 60 * SECOND
  }

  /** At most one live claim, and while it lives the row carries its lease. */
  predicate Exclusive(s: Sub) {
    && (forall c, d | c in s.live && d in s.live :: c == d)
    && (forall c | c in s.live && s.row.Some? :: Pending(s) && s.row.value.nextAttempt == c.at + 60 * SECOND)
  }

  lemma NextExclusive(s: Sub, a: Action)
    requires Enabled(s, a) && WithinLease(s) && Exclusive(s)
    ensures Exclusive(Apply(s, a))
  {}

  /** If every finish happens within its lease, no row is held by two claims. */
  lemma {:induction false} LeaseExcludes(trace: seq<Sub>, actions: seq<Action>, i: nat)
    requires IsRun(trace, actions) && i < |trace|
    requires forall k | 0 <= k < i :: WithinLease(trace[k])
    ensures Exclusive(trace[i]) && |trace[i].live| <= 1
  {
    if i > 0 {
      LeaseExcludes(trace, actions, i - 1);
      NextExclusive(trace[i - 1], actions[i - 1]);
    }
    AtMostOne(trace[i].live);
  }

  lemma AtMostOne(live: set<Claim>)
    requires forall c, d | c in live && d in live :: c == d
    ensures |live| <= 1
  {
    if live != {} {
      var c :| c in live;
      assert live == {c};
    }
  }

  // --------------------------------------------------------------- bounded retries

  /** How many of the first `n` actions claim the row while another claim is outstanding. */
  function Overlaps(trace: seq<Sub>, actions: seq<Action>, n: nat): nat
    requires |trace| == |actions| + 1 && n <= |actions|
  {
    if n == 0 then 0 else Overlaps(trace, actions, n - 1) + Overlap(trace[n - 1].live, actions[n - 1])
  }

  function Overlap(live: set<Claim>, a: Action): nat {
    if a.TakeClaim? && live != {} then 1 else 0
  }

  /** `serial` claims were taken with none outstanding. Each opens an episode that ends when
      all its claims are finished. An episode without a terminal finish leaves the row with
      more attempts and at most four; one with a terminal finish is followed by another only
      after a newer message. */
  predicate Budget(s: Sub, serial: int) {
    && serial <= 5 * s.enqueues
    && (s.row.Some? ==>
          && s.row.value.generation == s.enqueues
          && 0 <= s.settled <= s.enqueues && s.episode <= s.enqueues
          && EpisodeInv(s.row.value, s.live, s.episode, s.settled, serial))
  }

  predicate EpisodeInv(row: Row, live: set<Claim>, episode: int, settled: int, serial: int) {
    && 0 <= row.attempts <= 5
    && (row.pendingSince.None? ==> row.attempts == 0)
    && (row.attempts == 5 ==> exists c :: c in live && c.attempts == 5)
    && (forall c | c in live :: episode <= c.generation <= row.generation && 1 <= c.attempts)
    && (if live == {} then serial <= 5 * settled + row.attempts && (row.pendingSince.Some? ==> row.generation > settled)
        else if settled < episode then serial <= 5 * settled + row.attempts && row.pendingSince.Some?
        else settled == episode && serial <= 5 * settled && (row.pendingSince.Some? ==> row.generation > settled))
  }

  lemma ClaimBudget(s: Sub, serial: int)
    requires Budget(s, serial) && Enabled(s, TakeClaim)
    ensures Budget(Apply(s, TakeClaim), serial + 1 - Overlap(s.live, TakeClaim))
  {
    var t := Apply(s, TakeClaim);
    assert NextClaim(s) in t.live;
    forall c | c in t.live
      ensures t.episode <= c.generation <= t.row.value.generation && 1 <= c.attempts
    {}
    if t.row.value.attempts == 5 {
      assert NextClaim(s).attempts == 5;
    }
  }

  lemma FinishBudget(s: Sub, c: Claim, outcome: Delivery, serial: int)
    requires Budget(s, serial) && c in s.live
    ensures Budget(Apply(s, Finish(c, outcome)), serial)
  {
    var t := Apply(s, Finish(c, outcome));
    if t.row.Some? && t.row.value.attempts == 5 {
      var d :| d in s.live && d.attempts == 5;
      assert d in t.live;
    }
  }

  lemma NextBudget(s: Sub, a: Action, serial: int)
    requires Enabled(s, a) && Budget(s, serial)
    ensures Budget(Apply(s, a), serial + if a.TakeClaim? then 1 - Overlap(s.live, a) else 0)
  {
    match a
    case TakeClaim => ClaimBudget(s, serial);
    case Finish(c, outcome) => FinishBudget(s, c, outcome, serial);
    case Skip =>
    case Tick(_) =>
    case Enqueue =>
    case Delete =>
  }

  lemma {:induction false} RunBudget(trace: seq<Sub>, actions: seq<Action>, n: nat)
    requires IsRun(trace, actions) && n < |trace|
    ensures Budget(trace[n], trace[n].claims - Overlaps(trace, actions, n))
  {
    if n > 0 {
      RunBudget(trace, actions, n - 1);
      var a := actions[n - 1];
      NextBudget(trace[n - 1], a, trace[n - 1].claims - Overlaps(trace, actions, n - 1));
    }
  }

  /** In every run a subscription gets at most five claims per enqueue and one more for each
      claim taken while another was outstanding. */
  lemma ClaimsPerEnqueue(trace: seq<Sub>, actions: seq<Action>, n: nat)
    requires IsRun(trace, actions) && n < |trace|
    ensures trace[n].claims <= 5 * trace[n].enqueues + Overlaps(trace, actions, n)
  {
    RunBudget(trace, actions, n);
  }

  /** Every claim of the first `n` actions is taken only when no earlier one is outstanding. */
  predicate Serial(trace: seq<Sub>, actions: seq<Action>, n: nat)
    requires |trace| == |actions| + 1 && n <= |actions|
  {
    forall i | 0 <= i < n && actions[i].TakeClaim? :: trace[i].live == {}
  }

  lemma {:induction false} SerialMeansNoOverlap(trace: seq<Sub>, actions: seq<Action>, n: nat)
    requires |trace| == |actions| + 1 && n <= |actions|
    ensures Serial(trace, actions, n) <==> Overlaps(trace, actions, n) == 0
  {
    if n > 0 {
      SerialMeansNoOverlap(trace, actions, n - 1);
    }
  }

  /** So with serial claims E enqueues lead to at most 5 E claims. */
  lemma BoundedRetries(trace: seq<Sub>, actions: seq<Action>, n: nat)
    requires IsRun(trace, actions) && n < |trace| && Serial(trace, actions, n)
    ensures trace[n].claims <= 5 * trace[n].enqueues
  {
    ClaimsPerEnqueue(trace, actions, n);
    SerialMeansNoOverlap(trace, actions, n);
  }

  lemma {:induction false} OneAtATime(trace: seq<Sub>, actions: seq<Action>, n: nat)
    requires IsRun(trace, actions) && n < |trace| && Serial(trace, actions, n)
    ensures forall c, d | c in trace[n].live && d in trace[n].live :: c == d
  {
    if n > 0 {
      OneAtATime(trace, actions, n - 1);
      var a := actions[n - 1];
      assert trace[n] == Apply(trace[n - 1], a);
    }
  }

  /** `due` has passed, or the row is free and not to be claimed before it. */
  predicate Backed(s: Sub, due: int) {
    s.now >= due || (s.live == {} && (s.row.Some? ==> s.row.value.nextAttempt >= due))
  }

  lemma {:induction false} StaysBacked(trace: seq<Sub>, actions: seq<Action>, due: int, i: nat, j: nat)
    requires IsRun(trace, actions) && i <= j < |trace| && Backed(trace[i], due)
    ensures Backed(trace[j], due)
    decreases j
  {
    if i < j {
      StaysBacked(trace, actions, due, i, j - 1);
      var a := actions[j - 1];
      assert trace[j] == Apply(trace[j - 1], a);
    }
  }

  /** The next claim after a finished delivery waits as long as the answer asks for: one to
      eight minutes after a retry, by the number of attempts, and else fifteen seconds. */
  lemma RetryIsSpaced(trace: seq<Sub>, actions: seq<Action>, i: nat, j: nat)
    requires IsRun(trace, actions) && i < j < |actions| && Serial(trace, actions, i)
    requires actions[i].Finish? && actions[i].outcome != Expired && actions[j].TakeClaim?
    ensures 1 <= actions[i].claim.attempts <= 5
    ensures trace[j].now >= trace[i].now +
              if actions[i].outcome == Retry && actions[i].claim.attempts <= 4
              then [60, 120, 240, 480][actions[i].claim.attempts - 1] * 1_000_000 else 15_000_000
  {
    var s, c, outcome := trace[i], actions[i].claim, actions[i].outcome;
    OneAtATime(trace, actions, i);
    RunKeepsInv(trace, actions, i);
    assert Enabled(s, actions[i]) && trace[i + 1] == Apply(s, actions[i]);
    assert trace[i + 1].live == {};
    var due := s.now +
      if outcome == Retry && c.attempts <= 4 then [60, 120, 240, 480][c.attempts - 1] * 1_000_000 else 15_000_000;
    if s.row.Some? {
      FinishedExactly(s.row.value, c, outcome, s.now);
    }
    StaysBacked(trace, actions, due, i + 1, j);
    assert Due(trace[j].row.value, trace[j].now);
  }

  /** A worker that finishes every delivery within its lease takes claims serially. */
  lemma LeasesAreSerial(trace: seq<Sub>, actions: seq<Action>, n: nat)
    requires IsRun(trace, actions) && n < |trace|
    requires forall k | 0 <= k < n :: WithinLease(trace[k])
    ensures Serial(trace, actions, n) && trace[n].claims <= 5 * trace[n].enqueues
  {
    forall i | 0 <= i < n && actions[i].TakeClaim?
      ensures trace[i].live == {}
    {
      LeaseExcludes(trace, actions, i);
      assert Due(trace[i].row.value, trace[i].now) && WithinLease(trace[i]);
      assert forall c | c in trace[i].live :: trace[i].row.value.nextAttempt == c.at + 60 * SECOND;
    }
    BoundedRetries(trace, actions, n);
  }

  /** Both terms are needed. If no delivery is ever finished, one enqueue leads to any
      number of claims, all live at once and all but the first overlapping, each taken when
      the lease of the one before has run out. */
  lemma {:induction false} AbandonedClaims(n: nat) returns (trace: seq<Sub>, actions: seq<Action>)
    ensures IsRun(trace, actions)
    ensures var last := trace[|actions|]; last.enqueues == 1 && last.claims == |last.live| == n && Pending(last)
    ensures trace[|actions|].row.value.nextAttempt <= trace[|actions|].now + 60 * SECOND
    ensures Overlaps(trace, actions, |actions|) == if n == 0 then 0 else n - 1
  {
    if n == 0 {
      trace, actions := [FreshSub(0, 0)], [];
      trace, actions := Extend(trace, actions, Enqueue);
    } else {
      trace, actions := AbandonedClaims(n - 1);
      trace, actions := Extend(trace, actions, Tick(60 * SECOND));
      RunKeepsInv(trace, actions, |actions|);
      assert |trace[|actions|].live| == 0 <==> trace[|actions|].live == {};
      trace, actions := Extend(trace, actions, TakeClaim);
    }
  }

  /** And serial claims reach the five per enqueue when every delivery has to be retried. */
  lemma {:induction false} EveryDeliveryRetried(n: nat) returns (trace: seq<Sub>, actions: seq<Action>)
    ensures IsRun(trace, actions) && Overlaps(trace, actions, |actions|) == 0
    ensures var last := trace[|actions|]; last.enqueues == n && last.claims == 5 * n && Quiet(last)
  {
    if n == 0 {
      trace, actions := [FreshSub(0, 0)], [];
    } else {
      trace, actions := EveryDeliveryRetried(n - 1);
      trace, actions := Extend(trace, actions, Enqueue);
      trace, actions := RetriedOnce(trace, actions);
      trace, actions := RetriedOnce(trace, actions);
      trace, actions := RetriedOnce(trace, actions);
      trace, actions := RetriedOnce(trace, actions);
      trace, actions := RetriedOnce(trace, actions);
    }
  }

  /** The bound is reached for any number of enqueues and overlaps: the fifth delivery of the
      last message is never finished, and each lease that runs out brings another claim. */
  lemma {:induction false} BoundIsReached(e: nat, k: nat) returns (trace: seq<Sub>, actions: seq<Action>)
    requires e >= 1
    ensures IsRun(trace, actions) && Overlaps(trace, actions, |actions|) == k
    ensures var last := trace[|actions|];
            && last.enqueues == e && last.claims == 5 * e + k && Pending(last) && last.live != {}
            && last.row.value.nextAttempt <= last.now + 60 * SECOND
  {
    if k == 0 {
      trace, actions := EveryDeliveryRetried(e - 1);
      trace, actions := Extend(trace, actions, Enqueue);
      trace, actions := RetriedOnce(trace, actions);
      trace, actions := RetriedOnce(trace, actions);
      trace, actions := RetriedOnce(trace, actions);
      trace, actions := RetriedOnce(trace, actions);
      trace, actions := ClaimedWhenDue(trace, actions);
    } else {
      trace, actions := BoundIsReached(e, k - 1);
      trace, actions := Extend(trace, actions, Tick(60 * SECOND));
      trace, actions := Extend(trace, actions, TakeClaim);
    }
  }

  lemma ClaimedWhenDue(trace: seq<Sub>, actions: seq<Action>) returns (longer: seq<Sub>, more: seq<Action>)
    requires IsRun(trace, actions) && Pending(trace[|actions|])
    ensures IsRun(longer, more)
    ensures Overlaps(longer, more, |more|) ==
            Overlaps(trace, actions, |actions|) + Overlap(trace[|actions|].live, TakeClaim)
    ensures var s, t := trace[|actions|], longer[|more|];
            && t.claims == s.claims + 1 && t.enqueues == s.enqueues && Pending(t) && t.live != {}
            && t.row.value.nextAttempt == t.now + 60 * SECOND
  {
    var s := trace[|actions|];
    var wait := if s.row.value.nextAttempt > s.now then s.row.value.nextAttempt - s.now else 0;
    longer, more := Extend(trace, actions, Tick(wait));
    longer, more := Extend(longer, more, TakeClaim);
    assert NextClaim(longer[|more| - 1]) in longer[|more|].live;
  }

  predicate Quiet(s: Sub) {
    s.row.Some? && s.row.value.pendingSince.None? && s.live == {} && s.row.value.attempts == 0
  }

  lemma RetriedOnce(trace: seq<Sub>, actions: seq<Action>) returns (longer: seq<Sub>, more: seq<Action>)
    requires IsRun(trace, actions) && Pending(trace[|actions|]) && trace[|actions|].live == {}
    requires 0 <= trace[|actions|].row.value.attempts <= 4
    ensures IsRun(longer, more) && Overlaps(longer, more, |more|) == Overlaps(trace, actions, |actions|)
    ensures var s, t := trace[|actions|], longer[|more|];
            && t.claims == s.claims + 1 && t.enqueues == s.enqueues
            && (if s.row.value.attempts == 4 then Quiet(t)
                else Pending(t) && t.live == {} && t.row.value.attempts == s.row.value.attempts + 1)
  {
    var s := trace[|actions|];
    var wait := if s.row.value.nextAttempt > s.now then s.row.value.nextAttempt - s.now else 0;
    longer, more := Extend(trace, actions, Tick(wait));
    longer, more := Extend(longer, more, TakeClaim);
    var c := Claim(s.claims, s.now + wait, s.row.value.generation, s.row.value.attempts + 1);
    assert longer[|more|].live == {c};
    longer, more := Extend(longer, more, Finish(c, Retry));
  }

  lemma Extend(trace: seq<Sub>, actions: seq<Action>, a: Action) returns (longer: seq<Sub>, more: seq<Action>)
    requires IsRun(trace, actions) && Enabled(trace[|actions|], a)
    ensures IsRun(longer, more) && longer[|more|] == Apply(trace[|actions|], a)
    ensures longer == trace + [Apply(trace[|actions|], a)] && more == actions + [a]
    ensures Overlaps(longer, more, |more|) == Overlaps(trace, actions, |actions|) + Overlap(trace[|actions|].live, a)
  {
    longer, more := trace + [Apply(trace[|actions|], a)], actions + [a];
    assert longer[0] == trace[0];
    SameOverlaps(trace, actions, longer, more, |actions|);
  }

  lemma {:induction false} SameOverlaps(trace: seq<Sub>, actions: seq<Action>, longer: seq<Sub>, more: seq<Action>,
                                        n: nat)
    requires |trace| == |actions| + 1 && |longer| == |more| + 1 && n <= |actions| <= |more|
    requires (forall i | 0 <= i <= n :: longer[i] == trace[i]) && (forall i | 0 <= i < n :: more[i] == actions[i])
    ensures Overlaps(longer, more, n) == Overlaps(trace, actions, n)
  {
    if n > 0 {
      SameOverlaps(trace, actions, longer, more, n - 1);
    }
  }
}
