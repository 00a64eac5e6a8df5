/** The attachment quota (src/attachments.rs): uploads run as transactions that take the
    quota lock, read four sums, check them, insert and commit, while rows may be deleted
    at any time. Statements see what is committed when they start. */
module AttachmentQuota {

  import opened Wrappers

  const MAX_FILE_BYTES: int := 5 * 1024 * 1024
  const ACCOUNT_BYTES: int := 64 * 1024 * 1024
  const TOTAL_BYTES: int := 1024 * 1024 * 1024
  const ACCOUNT_FILES: int := 1000
  const TOTAL_FILES: int := 20000

  datatype Id = Id(uuid: nat)

  /** `bound`: a message refers to the file. */
  datatype File = File(owner: int, size: int, bound: bool, expires: int)

  type Table = map<Id, File>

  // -------------------------------------------------------------------------- sums

  ghost function Bytes(t: Table): int {
    if t == map[] then 0 else
      var id :| id in t;
      t[id].size + Bytes(t - {id})
  }

  function OwnedBy(t: Table, owner: int): Table {
    map id | id in t && t[id].owner == owner :: t[id]
  }

  lemma {:induction false} BytesWithout(t: Table, id: Id)
    requires id in t
    ensures Bytes(t) == t[id].size + Bytes(t - {id})
    decreases |t|
  {
    var first :| first in t && Bytes(t) == t[first].size + Bytes(t - {first});
    if first != id {
      BytesWithout(t - {first}, id);
      BytesWithout(t - {id}, first);
      assert t - {first} - {id} == t - {id} - {first};
    }
  }

  predicate Sized(t: Table) {
    forall id | id in t :: 1 <= t[id].size <= MAX_FILE_BYTES
  }

  /** Deleting rows never adds bytes or files. */
  lemma {:induction false} BytesShrink(t: Table, less: Table)
    requires Sized(t) && less.Keys <= t.Keys && forall id | id in less :: less[id] == t[id]
    ensures Bytes(less) <= Bytes(t) && |less| <= |t|
    decreases |t|
  {
    if id :| id in t && id !in less {
      BytesWithout(t, id);
      BytesShrink(t - {id}, less);
    } else {
      assert less == t;
    }
  }

  // ------------------------------------------------------------------------- limits

  datatype Sums = Sums(total: int, owned: int, count: int, ownedCount: int)

  ghost function SumsOf(t: Table, owner: int): Sums {
    Sums(Bytes(t), Bytes(OwnedBy(t, owner)), |t|, |OwnedBy(t, owner)|)
  }

  datatype Refusal = BadSize | AccountFull | ServerFull | IdTaken

  /** The two checks of `store_upload` on the sums it has read. */
  function Refused(sums: Sums, size: int): Option<Refusal> {
    if sums.owned + size > ACCOUNT_BYTES || sums.ownedCount >= ACCOUNT_FILES then Some(AccountFull)
    else if sums.total + size > TOTAL_BYTES || sums.count >= TOTAL_FILES then Some(ServerFull)
    else None
  }

  ghost predicate AccountWithin(t: Table, owner: int) {
    Bytes(OwnedBy(t, owner)) <= ACCOUNT_BYTES && |OwnedBy(t, owner)| <= ACCOUNT_FILES
  }

  ghost predicate Within(t: Table) {
    && Sized(t)
    && Bytes(t) <= TOTAL_BYTES && |t| <= TOTAL_FILES
    && forall owner :: AccountWithin(t, owner)
  }

  predicate AtMost(a: Sums, b: Sums) {
    a.total <= b.total && a.owned <= b.owned && a.count <= b.count && a.ownedCount <= b.ownedCount
  }

  lemma SumsShrink(t: Table, gone: set<Id>, owner: int)
    requires Sized(t)
    ensures AtMost(SumsOf(t - gone, owner), SumsOf(t, owner))
  {
    BytesShrink(t, t - gone);
    BytesShrink(OwnedBy(t, owner), OwnedBy(t - gone, owner));
  }

  lemma DeleteKeepsWithin(t: Table, gone: set<Id>)
    requires Within(t)
    ensures Within(t - gone)
  {
    BytesShrink(t, t - gone);
    forall owner
      ensures AccountWithin(t - gone, owner)
    {
      assert AccountWithin(t, owner);
      SumsShrink(t, gone, owner);
    }
  }

  /** Binding a file to a message or changing its expiry moves no sum. */
  lemma UpdateSums(t: Table, id: Id, file: File, owner: int)
    requires id in t && t[id].owner == file.owner && t[id].size == file.size
    ensures SumsOf(t[id := file], owner) == SumsOf(t, owner)
  {
    UpdateBytes(t, id, file);
    if file.owner == owner {
      UpdateBytes(OwnedBy(t, owner), id, file);
      assert OwnedBy(t[id := file], owner) == OwnedBy(t, owner)[id := file];
    } else {
      assert OwnedBy(t[id := file], owner) == OwnedBy(t, owner);
    }
  }

  lemma UpdateBytes(t: Table, id: Id, file: File)
    requires id in t && t[id].size == file.size
    ensures Bytes(t[id := file]) == Bytes(t) && |t[id := file]| == |t|
  {
    BytesWithout(t, id);
    BytesWithout(t[id := file], id);
    assert t[id := file] - {id} == t - {id};
    assert t[id := file].Keys == t.Keys;
  }

  lemma UpdateKeepsWithin(t: Table, id: Id, file: File)
    requires Within(t) && id in t && t[id].owner == file.owner && t[id].size == file.size
    ensures Within(t[id := file])
  {
    var changed := t[id := file];
    forall owner
      ensures AccountWithin(changed, owner)
    {
      assert AccountWithin(t, owner);
      UpdateSums(t, id, file, owner);
    }
    UpdateSums(t, id, file, file.owner);
  }

  /** The upload as one atomic operation; an identifier already in use fails the insert. */
  ghost function StoreUpload(t: Table, id: Id, file: File): Option<Refusal> {
    if !(1 <= file.size <= MAX_FILE_BYTES) then Some(BadSize)
    else
      var refused := Refused(SumsOf(t, file.owner), file.size);
      if refused.None? && id in t then Some(IdTaken) else refused
  }

  lemma InsertBytes(t: Table, id: Id, file: File)
    requires id !in t
    ensures Bytes(t[id := file]) == Bytes(t) + file.size && |t[id := file]| == |t| + 1
  {
    BytesWithout(t[id := file], id);
    assert t[id := file] - {id} == t;
  }

  lemma InsertOwned(t: Table, id: Id, file: File, owner: int)
    requires id !in t
    ensures OwnedBy(t[id := file], owner) ==
            if file.owner == owner then OwnedBy(t, owner)[id := file] else OwnedBy(t, owner)
  {}

  /** Inserting is safe exactly when the atomic upload would not be refused. */
  lemma InsertWithin(t: Table, id: Id, file: File)
    requires Within(t) && id !in t
    ensures StoreUpload(t, id, file).None? <==> Within(t[id := file])
  {
    var more, mine := t[id := file], OwnedBy(t, file.owner);
    InsertBytes(t, id, file);
    InsertBytes(mine, id, file);
    InsertOwned(t, id, file, file.owner);
    if StoreUpload(t, id, file).None? {
      forall owner
        ensures AccountWithin(more, owner)
      {
        assert AccountWithin(t, owner);
        InsertOwned(t, id, file, owner);
      }
    }
    if Within(more) {
      assert AccountWithin(more, file.owner) && more[id] == file;
    }
  }

  // ------------------------------------------------------------------- transactions

  /** `read` is history: the committed table the sums were read from. */
  datatype Phase =
    | Begun
    | Locked
    | Summed(sums: Sums, read: Table)
    | Checked(sums: Sums, read: Table)
    | Inserted(sums: Sums, read: Table, id: Id)

  datatype Tx = Tx(file: File, phase: Phase)

  datatype Db = Db(table: Table, lock: Option<nat>, txs: map<nat, Tx>)

  datatype Action =
    | Begin(tx: nat, file: File)
    | Lock(tx: nat)
    | ReadSums(tx: nat)
    | Check(tx: nat)
    | Insert(tx: nat, id: Id)
    | Commit(tx: nat)
    | Abort(tx: nat)
    | Delete(gone: set<Id>)
    | Update(id: Id, file: File)

  predicate Enabled(s: Db, a: Action) {
    match a
    case Begin(tx, file) => tx !in s.txs && 1 <= file.size <= MAX_FILE_BYTES
    case Lock(tx) => tx in s.txs && s.txs[tx].phase.Begun? && s.lock.None?
    case ReadSums(tx) => tx in s.txs && s.txs[tx].phase.Locked?
    case Check(tx) => tx in s.txs && s.txs[tx].phase.Summed?
    case Insert(tx, id) => tx in s.txs && s.txs[tx].phase.Checked? && id !in s.table
    case Commit(tx) => tx in s.txs && s.txs[tx].phase.Inserted?
    case Abort(tx) => tx in s.txs
    case Delete(_) => true
    case Update(id, file) => id in s.table && s.table[id].owner == file.owner && s.table[id].size == file.size
  }

  function Moved(s: Db, tx: nat, phase: Phase): Db
    requires tx in s.txs
  {
    s.(txs := s.txs[tx := s.txs[tx].(phase := phase)])
  }

  /** The transaction is over; its lock, if it has it, is released with it. */
  function Ended(s: Db, tx: nat): Db {
    s.(txs := s.txs - {tx}, lock := if s.lock == Some(tx) then None else s.lock)
  }

  ghost function Step(s: Db, a: Action): Db
    requires Enabled(s, a)
  {
    match a
    case Begin(tx, file) => s.(txs := s.txs[tx := Tx(file, Begun)])
    case Lock(tx) => Moved(s, tx, Locked).(lock := Some(tx))
    case ReadSums(tx) => Moved(s, tx, Summed(SumsOf(s.table, s.txs[tx].file.owner), s.table))
    case Check(tx) =>
      var p := s.txs[tx].phase;
      if Refused(p.sums, s.txs[tx].file.size).Some? then Ended(s, tx) else Moved(s, tx, Checked(p.sums, p.read))
    case Insert(tx, id) =>
      var p := s.txs[tx].phase;
      Moved(s, tx, Inserted(p.sums, p.read, id))
    case Commit(tx) => Ended(s, tx).(table := s.table[s.txs[tx].phase.id := s.txs[tx].file])
    case Abort(tx) => Ended(s, tx)
    case Delete(gone) => s.(table := s.table - gone)
    case Update(id, file) => s.(table := s.table[id := file])
  }

  ghost predicate SumsHold(table: Table, file: File, sums: Sums, read: Table) {
    sums == SumsOf(read, file.owner) && AtMost(SumsOf(table, file.owner), sums)
  }

  /** Sums read under the lock stay upper bounds: nobody else can add rows. */
  ghost predicate PhaseInv(table: Table, file: File, phase: Phase) {
    match phase
    case Begun => true
    case Locked => true
    case Summed(sums, read) => SumsHold(table, file, sums, read)
    case Checked(sums, read) => SumsHold(table, file, sums, read) && Refused(sums, file.size).None?
    case Inserted(sums, read, id) =>
      SumsHold(table, file, sums, read) && Refused(sums, file.size).None? && id !in table
  }

  ghost predicate TxInv(s: Db, tx: nat)
    requires tx in s.txs
  {
    && 1 <= s.txs[tx].file.size <= MAX_FILE_BYTES
    && (!s.txs[tx].phase.Begun? ==> s.lock == Some(tx))
    && PhaseInv(s.table, s.txs[tx].file, s.txs[tx].phase)
  }

  ghost predicate Inv(s: Db) {
    Within(s.table) && forall tx | tx in s.txs :: TxInv(s, tx)
  }

  lemma DeleteKeepsPhase(table: Table, gone: set<Id>, file: File, phase: Phase)
    requires Sized(table) && PhaseInv(table, file, phase)
    ensures PhaseInv(table - gone, file, phase)
  {
    SumsShrink(table, gone, file.owner);
  }

  /** A commit does what the atomic upload would do at that moment. */
  lemma CommitIsAtomic(s: Db, tx: nat)
    requires Inv(s) && Enabled(s, Commit(tx))
    ensures var file, id := s.txs[tx].file, s.txs[tx].phase.id;
            && StoreUpload(s.table, id, file).None?
            && Step(s, Commit(tx)).table == s.table[id := file]
            && Within(Step(s, Commit(tx)).table)
  {
    var file, p := s.txs[tx].file, s.txs[tx].phase;
    assert TxInv(s, tx);
    InsertWithin(s.table, p.id, file);
  }

  /** A refusal is the one the atomic upload would have given when the sums were read. */
  lemma RefusalIsAtomic(s: Db, tx: nat, id: Id)
    requires Inv(s) && Enabled(s, Check(tx))
    ensures var read, file := s.txs[tx].phase.read, s.txs[tx].file;
            var refused := Refused(s.txs[tx].phase.sums, file.size);
            && (tx !in Step(s, Check(tx)).txs <==> refused.Some?)
            && (refused.Some? ==> StoreUpload(read, id, file) == refused)
            && (refused.None? ==> StoreUpload(read, id, file) == if id in read then Some(IdTaken) else None)
  {
    assert TxInv(s, tx);
  }

  lemma StepKeepsInv(s: Db, a: Action)
    requires Inv(s) && Enabled(s, a)
    ensures Inv(Step(s, a))
  {
    match a
    case Delete(gone) =>
      DeleteKeepsWithin(s.table, gone);
      forall tx | tx in s.txs
        ensures TxInv(Step(s, a), tx)
      {
        assert TxInv(s, tx);
        DeleteKeepsPhase(s.table, gone, s.txs[tx].file, s.txs[tx].phase);
      }
    case Update(id, file) =>
      UpdateKeepsWithin(s.table, id, file);
      forall tx | tx in s.txs
        ensures TxInv(Step(s, a), tx)
      {
        assert TxInv(s, tx);
        UpdateSums(s.table, id, file, s.txs[tx].file.owner);
      }
    case Commit(tx) =>
      CommitIsAtomic(s, tx);
      OnlyHolder(s, tx);
    case Begin(_, _) => KeepsOthers(s, a);
    case Lock(_) => KeepsOthers(s, a);
    case ReadSums(_) => KeepsOthers(s, a);
    case Check(_) => KeepsOthers(s, a);
    case Insert(_, _) => KeepsOthers(s, a);
    case Abort(_) => KeepsOthers(s, a);
  }

  /** Whoever is past the lock is alone there. */
  lemma OnlyHolder(s: Db, tx: nat)
    requires Inv(s) && tx in s.txs && !s.txs[tx].phase.Begun?
    ensures forall other | other in s.txs && other != tx :: s.txs[other].phase.Begun? && TxInv(s, other)
  {
    assert TxInv(s, tx);
    assert forall other | other in s.txs :: TxInv(s, other);
  }

  lemma KeepsOthers(s: Db, a: Action)
    requires Inv(s) && Enabled(s, a) && !a.Delete? && !a.Update? && !a.Commit?
    ensures Inv(Step(s, a))
  {
    var t := Step(s, a);
    assert t.table == s.table;
    forall tx | tx in t.txs
      ensures TxInv(t, tx)
    {
      if tx in s.txs {
        assert TxInv(s, tx);
      }
      if a.tx in s.txs {
        assert TxInv(s, a.tx);
      }
    }
  }

  // --------------------------------------------------------------------------- runs

  ghost predicate IsRun(trace: seq<Db>, actions: seq<Action>) {
    && |trace| == |actions| + 1
    && Within(trace[0].table) && trace[0].lock == None && trace[0].txs == map[]
    && forall n {:trigger actions[n]} | 0 <= n < |actions| ::
         Enabled(trace[n], actions[n]) && trace[n + 1] == Step(trace[n], actions[n])
  }

  lemma {:induction false} RunKeepsInv(trace: seq<Db>, actions: seq<Action>, n: nat)
    requires IsRun(trace, actions) && n < |trace|
    ensures Inv(trace[n])
  {
    if n > 0 {
      RunKeepsInv(trace, actions, n - 1);
      StepKeepsInv(trace[n - 1], actions[n - 1]);
    }
  }

  /** In every interleaving of uploads, failures and deletions the committed attachments
      stay within the four limits. */
  lemma QuotaHolds(trace: seq<Db>, actions: seq<Action>, n: nat, owner: int)
    requires IsRun(trace, actions) && n < |trace|
    ensures Bytes(trace[n].table) <= 1_073_741_824 && |trace[n].table| <= 20_000
    ensures Bytes(OwnedBy(trace[n].table, owner)) <= 67_108_864 && |OwnedBy(trace[n].table, owner)| <= 1_000
    ensures forall id | id in trace[n].table :: 1 <= trace[n].table[id].size <= 5_242_880
  {
    RunKeepsInv(trace, actions, n);
    assert AccountWithin(trace[n].table, owner);
  }

  /** The lock is taken exactly while its holder is between taking it and its end. */
  ghost predicate LockExact(s: Db) {
    forall tx :: s.lock == Some(tx) <==> tx in s.txs && !s.txs[tx].phase.Begun?
  }

  lemma {:induction false} LockIsReleased(trace: seq<Db>, actions: seq<Action>, n: nat)
    requires IsRun(trace, actions) && n < |trace|
    ensures LockExact(trace[n])
  {
    if n > 0 {
      LockIsReleased(trace, actions, n - 1);
      LockStep(trace[n - 1], actions[n - 1]);
    }
  }

  lemma LockStep(s: Db, a: Action)
    requires Enabled(s, a) && LockExact(s)
    ensures LockExact(Step(s, a))
  {}

  predicate HasRead(phase: Phase) {
    phase.Summed? || phase.Checked? || phase.Inserted?
  }

  /** The table a transaction decides on is one that was committed while it had the lock. */
  lemma {:induction false} ReadWasCommitted(trace: seq<Db>, actions: seq<Action>, n: nat, tx: nat) returns (m: nat)
    requires IsRun(trace, actions) && n < |trace| && tx in trace[n].txs && HasRead(trace[n].txs[tx].phase)
    ensures m <= n && trace[m].table == trace[n].txs[tx].phase.read && trace[m].lock == Some(tx)
  {
    if n == 0 {
      assert false;
    } else {
      var a := actions[n - 1];
      RunKeepsInv(trace, actions, n - 1);
      ReadStep(trace[n - 1], a, tx);
      if a == ReadSums(tx) {
        m := n - 1;
      } else {
        m := ReadWasCommitted(trace, actions, n - 1, tx);
      }
    }
  }

  lemma ReadStep(s: Db, a: Action, tx: nat)
    requires Inv(s) && Enabled(s, a) && tx in Step(s, a).txs && HasRead(Step(s, a).txs[tx].phase)
    ensures tx in s.txs && s.lock == Some(tx)
    ensures var read := Step(s, a).txs[tx].phase.read;
            if a == ReadSums(tx) then read == s.table else HasRead(s.txs[tx].phase) && read == s.txs[tx].phase.read
  {
    assert tx in s.txs;
    assert TxInv(s, tx);
  }
}
