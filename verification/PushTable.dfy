/** The `push_subscriptions` table: every statement acts on all rows at once, and
    `claim_pending` serves the four longest-due rows. */
module PushTable {
  import opened Collections
  import opened PushQueue
  import opened Wrappers

  const BATCH: nat := 4

  /** A row's UUID. */
  datatype Id = Id(uuid: int)

  /** Subscriptions by identifier; all share the database clock `now`. */
  datatype Table = Table(now: int, subs: map<Id, Sub>)

  datatype Statement =
    | Wait(elapsed: nat)
    | Subscribe(id: Id, user: int)
    | Unsubscribe(id: Id)
    | EnqueueFor(user: int)
    | ClaimBatch(ids: set<Id>, locked: set<Id>)
    | FinishClaim(id: Id, claim: Claim, outcome: Delivery)

  // ------------------------------------------------------- statements on the rows

  function DueIds(rows: map<Id, Row>, now: int, locked: set<Id>): set<Id> {
    set id | id in rows && Due(rows[id], now) && id !in locked
  }

  /** `ORDER BY next_attempt_at LIMIT 4 FOR UPDATE SKIP LOCKED`. */
  predicate ValidBatch(rows: map<Id, Row>, now: int, ids: set<Id>, locked: set<Id>) {
    && ids <= DueIds(rows, now, locked)
    && |ids| <= BATCH
    && (|ids| < BATCH ==> ids == DueIds(rows, now, locked))
    && (forall a, b | a in ids && b in DueIds(rows, now, locked) - ids :: rows[a].nextAttempt <= rows[b].nextAttempt)
  }

  function EnqueueRows(rows: map<Id, Row>, user: int, now: int): map<Id, Row> {
    map id | id in rows :: if rows[id].user == user then Enqueued(rows[id], now) else rows[id]
  }

  function ClaimRows(rows: map<Id, Row>, ids: set<Id>, now: int): map<Id, Row> {
    map id | id in rows :: if id in ids then Claimed(rows[id], now) else rows[id]
  }

  function FinishRows(rows: map<Id, Row>, id: Id, c: Claim, outcome: Delivery, now: int): map<Id, Row> {
    if id !in rows then rows else
      var row := Finished(rows[id], c, outcome, now);
      if row.Some? then rows[id := row.value] else rows - {id}
  }

  function Rows(t: Table): map<Id, Row> {
    map id | id in t.subs && t.subs[id].row.Some? :: t.subs[id].row.value
  }

  function NextAt(t: Table, id: Id): int
    requires id in t.subs && t.subs[id].row.Some?
  {
    t.subs[id].row.value.nextAttempt
  }

  // --------------------------------------------------------------------- table runs

  predicate TEnabled(t: Table, a: Statement) {
    match a
    case Wait(_) => true
    case Subscribe(id, _) => id !in t.subs
    case Unsubscribe(id) => true
    case EnqueueFor(_) => true
    case ClaimBatch(ids, locked) => ValidBatch(Rows(t), t.now, ids, locked)
    case FinishClaim(id, c, _) => id in t.subs && c in t.subs[id].live
  }

  /** What a statement does to one subscription. */
  function Local(a: Statement, id: Id, sub: Sub): Action {
    match a
    case Wait(elapsed) => Tick(elapsed)
    case Subscribe(_, _) => Skip
    case Unsubscribe(x) => if x == id then Delete else Skip
    case EnqueueFor(user) => if sub.row.Some? && sub.row.value.user == user then Enqueue else Skip
    case ClaimBatch(ids, _) => if id in ids then TakeClaim else Skip
    case FinishClaim(x, c, outcome) => if x == id then Finish(c, outcome) else Skip
  }

  predicate Synchronized(t: Table) {
    forall id | id in t.subs :: t.subs[id].now == t.now
  }

  function TApply(t: Table, a: Statement): Table
    requires TEnabled(t, a) && Synchronized(t)
  {
    var subs := map id | id in t.subs :: Apply(t.subs[id], Local(a, id, t.subs[id]));
    match a
    case Wait(elapsed) => Table(t.now + elapsed, subs)
    case Subscribe(id, user) => Table(t.now, subs[id := FreshSub(user, t.now)])
    case _ => Table(t.now, subs)
  }

  ghost predicate IsTableRun(trace: seq<Table>, actions: seq<Statement>) {
    && |trace| == |actions| + 1
    && trace[0].subs == map[]
    && forall i {:trigger actions[i]} | 0 <= i < |actions| ::
         Synchronized(trace[i]) && TEnabled(trace[i], actions[i]) && trace[i + 1] == TApply(trace[i], actions[i])
  }

  lemma StaysSynchronized(t: Table, a: Statement)
    requires TEnabled(t, a) && Synchronized(t)
    ensures Synchronized(TApply(t, a))
  {}

  lemma RunStaysSynchronized(trace: seq<Table>, actions: seq<Statement>, i: nat)
    requires IsTableRun(trace, actions) && i < |trace|
    ensures Synchronized(trace[i])
  {
    if i > 0 {
      var a := actions[i - 1];
      StaysSynchronized(trace[i - 1], a);
    }
  }

  /** Runs leave nothing out: whatever statement comes next extends them. */
  lemma TableRunGrows(trace: seq<Table>, actions: seq<Statement>, a: Statement)
    requires IsTableRun(trace, actions) && TEnabled(trace[|actions|], a)
    ensures Synchronized(trace[|actions|])
    ensures IsTableRun(trace + [TApply(trace[|actions|], a)], actions + [a])
  {
    var n := |actions|;
    RunStaysSynchronized(trace, actions, n);
    var t := TApply(trace[n], a);
    var longer, more := trace + [t], actions + [a];
    forall i | 0 <= i < |more|
      ensures Synchronized(longer[i]) && TEnabled(longer[i], more[i]) && longer[i + 1] == TApply(longer[i], more[i])
    {
      if i < n {
        assert longer[i] == trace[i] && more[i] == actions[i] && longer[i + 1] == trace[i + 1];
      }
    }
  }

  /** The table statement `a` is the corresponding SQL statement on the rows. */
  lemma StatementsActOnRows(t: Table, a: Statement)
    requires TEnabled(t, a) && Synchronized(t)
    ensures Rows(TApply(t, a)) ==
            match a
            case Wait(_) => Rows(t)
            case Subscribe(id, user) => Rows(t)[id := FreshRow(user, t.now)]
            case Unsubscribe(id) => Rows(t) - {id}
            case EnqueueFor(user) => EnqueueRows(Rows(t), user, t.now)
            case ClaimBatch(ids, _) => ClaimRows(Rows(t), ids, t.now)
            case FinishClaim(id, c, outcome) => FinishRows(Rows(t), id, c, outcome, t.now)
  {}

  // ------------------------------------------------------------- rows in isolation

  lemma NextRow(trace: seq<Table>, actions: seq<Statement>, k: nat, id: Id)
    requires IsTableRun(trace, actions) && k < |actions| && id in trace[k].subs
    ensures id in trace[k + 1].subs
    ensures Enabled(trace[k].subs[id], Local(actions[k], id, trace[k].subs[id]))
    ensures trace[k + 1].subs[id] == Apply(trace[k].subs[id], Local(actions[k], id, trace[k].subs[id]))
  {
    var a := actions[k];
    assert TEnabled(trace[k], a) && trace[k + 1] == TApply(trace[k], a);
    assert trace[k].subs[id].now == trace[k].now;
  }

  predicate RowAt(t: Table, id: Id, sub: Sub) {
    id in t.subs && t.subs[id] == sub
  }

  /** The states of row `id`, and the steps between them, in `trace[start + 1..end + 1]`. */
  ghost predicate Projects(trace: seq<Table>, actions: seq<Statement>, start: nat, end: nat, id: Id, rows: seq<Sub>,
                           steps: seq<Action>)
    requires |trace| == |actions| + 1 && start < end < |trace|
  {
    && |rows| == end - start == |steps| + 1
    && (forall k {:trigger rows[k]} | 0 <= k < |rows| :: RowAt(trace[start + 1 + k], id, rows[k]))
    && (forall k {:trigger steps[k]} | 0 <= k < |steps| :: steps[k] == Local(actions[start + 1 + k], id, rows[k]))
  }

  lemma Created(trace: seq<Table>, actions: seq<Statement>, start: nat, id: Id)
    returns (rows: seq<Sub>, steps: seq<Action>)
    requires IsTableRun(trace, actions) && start < |actions|
    requires actions[start].Subscribe? && actions[start].id == id
    ensures Projects(trace, actions, start, start + 1, id, rows, steps) && IsRun(rows, steps)
  {
    assert trace[start + 1] == TApply(trace[start], actions[start]);
    rows, steps := [trace[start + 1].subs[id]], [];
    assert rows[0] == FreshSub(actions[start].user, trace[start].now);
  }

  lemma ProjectsMore(trace: seq<Table>, actions: seq<Statement>, start: nat, end: nat, id: Id, rows: seq<Sub>,
                     steps: seq<Action>)
    returns (longer: seq<Sub>, more: seq<Action>)
    requires |trace| == |actions| + 1 && start < end < |actions|
    requires Projects(trace, actions, start, end, id, rows, steps) && id in trace[end + 1].subs
    ensures longer == rows + [trace[end + 1].subs[id]] && more == steps + [Local(actions[end], id, rows[|steps|])]
    ensures Projects(trace, actions, start, end + 1, id, longer, more)
  {
    longer, more := rows + [trace[end + 1].subs[id]], steps + [Local(actions[end], id, rows[|steps|])];
    forall k | 0 <= k < |more| ensures more[k] == Local(actions[start + 1 + k], id, longer[k]) {
      assert longer[k] == rows[k];
      assert k < |steps| ==> more[k] == steps[k];
    }
    forall k {:trigger longer[k]} | 0 <= k < |longer| ensures RowAt(trace[start + 1 + k], id, longer[k]) {
      assert k < |rows| ==> longer[k] == rows[k];
    }
  }

  lemma ProjectsLast(trace: seq<Table>, actions: seq<Statement>, start: nat, end: nat, id: Id, rows: seq<Sub>,
                     steps: seq<Action>)
    requires |trace| == |actions| + 1 && start < end < |trace|
    requires Projects(trace, actions, start, end, id, rows, steps)
    ensures id in trace[end].subs && rows[|steps|] == trace[end].subs[id]
  {
    assert RowAt(trace[start + 1 + |steps|], id, rows[|steps|]);
  }

  lemma NextRun(trace: seq<Table>, actions: seq<Statement>, end: nat, id: Id, rows: seq<Sub>, steps: seq<Action>)
    requires IsTableRun(trace, actions) && end < |actions| && id in trace[end].subs
    requires IsRun(rows, steps) && rows[|steps|] == trace[end].subs[id]
    ensures id in trace[end + 1].subs
    ensures IsRun(rows + [trace[end + 1].subs[id]], steps + [Local(actions[end], id, rows[|steps|])])
  {
    NextRow(trace, actions, end, id);
    var longer, more := Extend(rows, steps, Local(actions[end], id, rows[|steps|]));
  }

  /** Every row of a table run goes through a run of its own from its creation on,
      so all that holds of one subscription's runs holds of every row. */
  lemma {:induction false} TableRunProjects(trace: seq<Table>, actions: seq<Statement>, start: nat, end: nat, id: Id)
    returns (rows: seq<Sub>, steps: seq<Action>)
    requires IsTableRun(trace, actions) && start < end < |trace|
    requires actions[start].Subscribe? && actions[start].id == id
    ensures Projects(trace, actions, start, end, id, rows, steps) && IsRun(rows, steps)
    decreases end
  {
    if end == start + 1 {
      rows, steps := Created(trace, actions, start, id);
    } else {
      var before, sofar := TableRunProjects(trace, actions, start, end - 1, id);
      ProjectsLast(trace, actions, start, end - 1, id, before, sofar);
      NextRun(trace, actions, end - 1, id, before, sofar);
      rows, steps := ProjectsMore(trace, actions, start, end - 1, id, before, sofar);
    }
  }

  /** A subscription stays with the user it was created for. */
  lemma {:induction false} SubscriberStays(trace: seq<Table>, actions: seq<Statement>, start: nat, end: nat, id: Id)
    requires IsTableRun(trace, actions) && start < end < |trace|
    requires actions[start].Subscribe? && actions[start].id == id
    ensures id in Rows(trace[end]) ==> Rows(trace[end])[id].user == actions[start].user
    ensures id in trace[end].subs
    decreases end
  {
    if end == start + 1 {
      assert trace[end] == TApply(trace[start], actions[start]);
    } else {
      SubscriberStays(trace, actions, start, end - 1, id);
      NextRow(trace, actions, end - 1, id);
    }
  }

  // ------------------------------------------------------------------ no starvation

  /** The other pending rows that a batch prefers, or may prefer, to `id`. */
  function Ahead(t: Table, id: Id): set<Id> {
    if id in t.subs && t.subs[id].row.Some?
    then set x | x in t.subs && x != id && Pending(t.subs[x]) && NextAt(t, x) <= NextAt(t, id)
    else {}
  }

  /** `id` has been due since `due` and nothing has touched its turn. */
  predicate Waiting(t: Table, id: Id, due: int) {
    id in t.subs && Pending(t.subs[id]) && NextAt(t, id) == due && due <= t.now
  }

  lemma OthersFallBehind(t: Table, a: Statement, id: Id, due: int, x: Id)
    requires TEnabled(t, a) && Synchronized(t) && (forall y | y in t.subs :: Inv(t.subs[y]))
    requires Waiting(t, id, due) && Waiting(TApply(t, a), id, due)
    requires x in Ahead(TApply(t, a), id)
    ensures x in Ahead(t, id) && !(a.ClaimBatch? && x in a.ids)
  {
    if x in t.subs {
      var step := Local(a, x, t.subs[x]);
      if step.Finish? {
        RetryDelayBounds(step.claim.attempts);
      }
    }
  }

  /** A statement that leaves `id` waiting never puts another row ahead of it, and a
      batch that passes it over takes four rows out of its way. */
  lemma TurnApproaches(t: Table, a: Statement, id: Id, due: int)
    requires TEnabled(t, a) && Synchronized(t) && (forall y | y in t.subs :: Inv(t.subs[y]))
    requires Waiting(t, id, due) && Waiting(TApply(t, a), id, due)
    requires a.ClaimBatch? ==> id !in a.locked
    ensures |Ahead(TApply(t, a), id)| + (if a.ClaimBatch? then BATCH else 0) <= |Ahead(t, id)|
  {
    var before, after := Ahead(t, id), Ahead(TApply(t, a), id);
    forall x | x in after ensures x in before && !(a.ClaimBatch? && x in a.ids) {
      OthersFallBehind(t, a, id, due, x);
    }
    if a.ClaimBatch? {
      assert id !in a.ids;
      assert id in DueIds(Rows(t), t.now, a.locked) - a.ids;
      assert |a.ids| == BATCH && a.ids <= before;
      SubsetSize(after, before - a.ids);
    } else {
      SubsetSize(after, before);
    }
  }

  lemma NextTableInv(t: Table, a: Statement)
    requires TEnabled(t, a) && Synchronized(t) && (forall id | id in t.subs :: Inv(t.subs[id]))
    ensures forall id | id in TApply(t, a).subs :: Inv(TApply(t, a).subs[id])
  {
    forall id | id in TApply(t, a).subs ensures Inv(TApply(t, a).subs[id]) {
      if id in t.subs {
        StepKeepsInv(t.subs[id], Local(a, id, t.subs[id]));
      }
    }
  }

  lemma {:induction false} TableKeepsInv(trace: seq<Table>, actions: seq<Statement>, i: nat)
    requires IsTableRun(trace, actions) && i < |trace|
    ensures forall id | id in trace[i].subs :: Inv(trace[i].subs[id])
  {
    if i > 0 {
      TableKeepsInv(trace, actions, i - 1);
      NextTableInv(trace[i - 1], actions[i - 1]);
    }
  }

  /** How many batches were claimed in `actions[i..j]`. */
  function Rounds(actions: seq<Statement>, i: nat, j: nat): nat
    requires i <= j <= |actions|
  {
    if i == j then 0 else Rounds(actions, i, j - 1) + if actions[j - 1].ClaimBatch? then 1 else 0
  }

  lemma NextTurn(trace: seq<Table>, actions: seq<Statement>, id: Id, due: int, i: nat)
    requires IsTableRun(trace, actions) && i < |actions|
    requires Waiting(trace[i], id, due) && Waiting(trace[i + 1], id, due)
    requires actions[i].ClaimBatch? ==> id !in actions[i].locked
    ensures |Ahead(trace[i + 1], id)| + (if actions[i].ClaimBatch? then BATCH else 0) <= |Ahead(trace[i], id)|
  {
    TableKeepsInv(trace, actions, i);
    TurnApproaches(trace[i], actions[i], id, due);
  }

  /** No starvation: while a due row waits, every batch serves four rows that were
      due before it and no row overtakes it. So it is passed over by at most a
      quarter as many batches as there were rows ahead of it. */
  lemma {:induction false} NoStarvation(trace: seq<Table>, actions: seq<Statement>, id: Id, due: int, i: nat, j: nat)
    requires IsTableRun(trace, actions) && i <= j < |trace|
    requires forall k | i <= k <= j :: Waiting(trace[k], id, due)
    requires forall k | i <= k < j && actions[k].ClaimBatch? :: id !in actions[k].locked
    ensures |Ahead(trace[j], id)| + BATCH * Rounds(actions, i, j) <= |Ahead(trace[i], id)|
    decreases j
  {
    if i < j {
      NoStarvation(trace, actions, id, due, i, j - 1);
      assert Waiting(trace[j - 1], id, due) && Waiting(trace[j], id, due);
      NextTurn(trace, actions, id, due, j - 1);
    }
  }

  // --------------------------------------------------------------- the statements

  /** A claimed row as `claim_pending` returns it. */
  datatype Held = Held(id: Id, generation: int, attempts: int)

  class Subscriptions {
    var rows: map<Id, Row>

    constructor ()
      ensures rows == map[]
    {
      rows := map[];
    }

    /** `enqueue`: notes a new message in every row of the recipient and in no other. */
    method EnqueuePush(recipient: int, now: int)
      modifies this
      ensures rows == EnqueueRows(old(rows), recipient, now)
      ensures rows.Keys == old(rows).Keys
      ensures forall id | id in rows && old(rows)[id].user != recipient :: rows[id] == old(rows)[id]
      ensures forall id | id in rows && old(rows)[id].user == recipient :: Notified(old(rows)[id], now, rows[id])
    {
      var todo := rows.Keys;
      while todo != {}
        invariant todo <= rows.Keys == old(rows).Keys
        invariant forall id | id in rows ::
                    rows[id] == if id in todo then old(rows)[id] else EnqueueRows(old(rows), recipient, now)[id]
        decreases todo
      {
        var id :| id in todo;
        if rows[id].user == recipient {
          rows := rows[id := Enqueued(rows[id], now)];
        }
        todo := todo - {id};
      }
    }

    /** The longest-due claimable row, if there is one. */
    method LongestDue(now: int, locked: set<Id>) returns (best: Option<Id>)
      ensures best.None? ==> DueIds(rows, now, locked) == {}
      ensures best.Some? ==> best.value in DueIds(rows, now, locked)
      ensures best.Some? ==> forall id | id in DueIds(rows, now, locked) ::
                rows[best.value].nextAttempt <= rows[id].nextAttempt
    {
      best := None;
      var todo := rows.Keys;
      while todo != {}
        invariant todo <= rows.Keys
        invariant best.Some? ==> best.value in DueIds(rows, now, locked)
        invariant forall id | id in DueIds(rows, now, locked) && id !in todo ::
                    best.Some? && rows[best.value].nextAttempt <= rows[id].nextAttempt
        decreases todo
      {
        var id :| id in todo;
        todo := todo - {id};
        if Due(rows[id], now) && id !in locked && (best.None? || rows[id].nextAttempt < rows[best.value].nextAttempt) {
          best := Some(id);
        }
      }
    }

    /** `claim_pending`: leases the longest-due rows, at most four, and reports what
        each of them carries. */
    method ClaimPending(now: int, locked: set<Id>) returns (held: seq<Held>, ghost ids: set<Id>)
      modifies this
      ensures ValidBatch(old(rows), now, ids, locked)
      ensures rows == ClaimRows(old(rows), ids, now)
      ensures rows.Keys == old(rows).Keys && |ids| <= 4
      ensures forall id | id in rows :: if id in ids then Leased(old(rows)[id], now, rows[id]) && id !in locked
                                        else rows[id] == old(rows)[id]
      ensures forall id | id in rows && id !in ids && id !in locked ::
                Leaves(old(rows)[id], now) || (|ids| == 4 && forall x | x in ids :: NotAfter(old(rows), x, id))
      ensures |held| == |ids| && HeldIds(held) == ids
      ensures forall h | h in held :: h.id in rows && Reports(h, rows[h.id])
    {
      held, ids := [], {};
      ghost var before := rows;
      NothingTaken(before, now, locked);
      while |held| < BATCH
        invariant Taken(before, now, locked, ids, rows, held) && |held| <= BATCH
        decreases BATCH - |held|
      {
        var best := LongestDue(now, locked);
        if best.None? {
          LeasedAreNotDue(before, now, ids, locked);
          return;
        }
        var id := best.value;
        TakenMore(before, now, locked, ids, rows, held, id);
        rows := rows[id := Claimed(rows[id], now)];
        held, ids := held + [Held(id, rows[id].generation, rows[id].attempts)], ids + {id};
      }
    }

    /** `finish_delivery`; a row deleted meanwhile is left alone. */
    method FinishDelivery(h: Held, outcome: Delivery, now: int)
      modifies this
      ensures rows == FinishRows(old(rows), h.id, Claim(0, 0, h.generation, h.attempts), outcome, now)
      ensures rows - {h.id} == old(rows) - {h.id}
      ensures h.id in rows <==> h.id in old(rows) && outcome != Expired
      ensures h.id in rows && 1 <= h.attempts <= 5 ==> Answered(old(rows)[h.id], h, outcome, now, rows[h.id])
    {
      if h.id in rows && 1 <= h.attempts <= 5 {
        FinishedExactly(rows[h.id], Claim(0, 0, h.generation, h.attempts), outcome, now);
      }
      if h.id !in rows {
        return;
      }
      var row := rows[h.id];
      if outcome == Expired {
        rows := rows - {h.id};
      } else if outcome == Retry && h.attempts < MAX_ATTEMPTS {
        rows := rows[h.id := row.(nextAttempt := now + RetryDelay(h.attempts) * SECOND)];
      } else {
        var pending := if row.generation == h.generation then None else row.pendingSince;
        rows := rows[h.id := row.(pendingSince := pending, attempts := 0, nextAttempt := now + 15 * SECOND)];
      }
    }
  }

  /** One more message: a row that was waiting for nothing is due in three seconds or when
      it would have been anyway, one that was pending stays as it was. */
  predicate Notified(before: Row, now: int, after: Row) {
    && after.user == before.user && after.generation == before.generation + 1
    && if before.pendingSince.Some?
       then after.pendingSince == before.pendingSince && after.attempts == before.attempts
            && after.nextAttempt == before.nextAttempt
       else after.pendingSince == Some(now) && after.attempts == 0
            && after.nextAttempt >= now + 3_000_000 && after.nextAttempt >= before.nextAttempt
            && (after.nextAttempt == now + 3_000_000 || after.nextAttempt == before.nextAttempt)
  }

  /** A due row with a minute's lease and one attempt more, up to five. */
  predicate Leased(before: Row, now: int, after: Row) {
    && before.pendingSince.Some? && before.nextAttempt <= now
    && after.nextAttempt == now + 60_000_000
    && after.attempts == (if before.attempts >= 5 then 5 else before.attempts + 1)
    && after.user == before.user && after.pendingSince == before.pendingSince && after.generation == before.generation
  }

  /** Nothing to deliver yet. */
  predicate Leaves(row: Row, now: int) {
    row.pendingSince.None? || row.nextAttempt > now
  }

  predicate NotAfter(rows: map<Id, Row>, x: Id, id: Id) {
    x in rows && id in rows && rows[x].nextAttempt <= rows[id].nextAttempt
  }

  /** The row after an answer that leaves it there. */
  predicate Answered(before: Row, h: Held, outcome: Delivery, now: int, after: Row)
    requires 1 <= h.attempts <= 5
  {
    && after.user == before.user && after.generation == before.generation
    && if outcome == Retry && h.attempts <= 4
       then after.pendingSince == before.pendingSince && after.attempts == before.attempts
            && after.nextAttempt == now + [60, 120, 240, 480][h.attempts - 1] * 1_000_000
       else after.pendingSince == (if before.generation == h.generation then None else before.pendingSince)
            && after.attempts == 0 && after.nextAttempt == now + 15_000_000
  }

  function HeldIds(held: seq<Held>): set<Id> {
    set h | h in held :: h.id
  }

  predicate LongestFirst(rows: map<Id, Row>, now: int, ids: set<Id>, locked: set<Id>)
    requires ids <= DueIds(rows, now, locked)
  {
    forall a, b | a in ids && b in DueIds(rows, now, locked) && b !in ids :: rows[a].nextAttempt <= rows[b].nextAttempt
  }

  /** The batch so far: `ids` are the longest-due rows, leased in `rows` and reported in `held`. */
  predicate Taken(before: map<Id, Row>, now: int, locked: set<Id>, ids: set<Id>, rows: map<Id, Row>, held: seq<Held>) {
    && ids <= DueIds(before, now, locked) && LongestFirst(before, now, ids, locked)
    && rows == ClaimRows(before, ids, now)
    && |held| == |ids| && HeldIds(held) == ids
    && forall h | h in held :: h.id in rows && Reports(h, rows[h.id])
  }

  lemma NothingTaken(before: map<Id, Row>, now: int, locked: set<Id>)
    ensures Taken(before, now, locked, {}, before, [])
  {}

  lemma ClaimOneMore(rows: map<Id, Row>, now: int, ids: set<Id>, locked: set<Id>, id: Id)
    requires ids <= DueIds(rows, now, locked) && LongestFirst(rows, now, ids, locked)
    requires id in DueIds(rows, now, locked) - ids
    requires forall x | x in DueIds(rows, now, locked) - ids :: rows[id].nextAttempt <= rows[x].nextAttempt
    ensures LongestFirst(rows, now, ids + {id}, locked)
    ensures ClaimRows(rows, ids + {id}, now) == ClaimRows(rows, ids, now)[id := Claimed(rows[id], now)]
  {}

  lemma HeldMore(rows: map<Id, Row>, held: seq<Held>, id: Id, row: Row)
    requires id !in HeldIds(held) && forall h | h in held :: h.id in rows && Reports(h, rows[h.id])
    ensures var h := Held(id, row.generation, row.attempts);
            && HeldIds(held + [h]) == HeldIds(held) + {id}
            && forall x | x in held + [h] :: x.id in rows[id := row] && Reports(x, rows[id := row][x.id])
  {
    var more := held + [Held(id, row.generation, row.attempts)];
    forall x | x in more
      ensures x.id in rows[id := row] && Reports(x, rows[id := row][x.id])
    {
      assert x in held ==> x.id in HeldIds(held);
    }
  }

  lemma TakenMore(before: map<Id, Row>, now: int, locked: set<Id>, ids: set<Id>, rows: map<Id, Row>, held: seq<Held>,
                  id: Id)
    requires Taken(before, now, locked, ids, rows, held) && id in DueIds(rows, now, locked)
    requires forall x | x in DueIds(rows, now, locked) :: rows[id].nextAttempt <= rows[x].nextAttempt
    ensures var row := Claimed(rows[id], now);
            Taken(before, now, locked, ids + {id}, rows[id := row], held + [Held(id, row.generation, row.attempts)])
  {
    LeasedAreNotDue(before, now, ids, locked);
    assert rows[id] == before[id];
    forall x | x in DueIds(before, now, locked) - ids
      ensures before[id].nextAttempt <= before[x].nextAttempt
    {
      assert x in DueIds(rows, now, locked) && rows[x] == before[x];
    }
    ClaimOneMore(before, now, ids, locked, id);
    HeldMore(rows, held, id, Claimed(rows[id], now));
  }

  predicate Reports(h: Held, row: Row) {
    h.generation == row.generation && h.attempts == row.attempts
  }

  /** A leased row is not due again at once, so a batch never takes it twice. */
  lemma LeasedAreNotDue(rows: map<Id, Row>, now: int, ids: set<Id>, locked: set<Id>)
    requires ids <= DueIds(rows, now, locked)
    ensures DueIds(ClaimRows(rows, ids, now), now, locked) == DueIds(rows, now, locked) - ids
  {}
}
