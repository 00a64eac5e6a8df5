/** The attachment table as the object the handlers and the cleanup work on, one statement
    batch at a time (src/attachments.rs). */
module AttachmentProgram {

  import opened AttachmentQuota
  import opened Wrappers

  const SWEEP: nat := 1000

  function Expired(t: Table, now: int): set<Id> {
    set id | id in t && t[id].expires <= now
  }

  /** `ORDER BY expires_at LIMIT 1000` over the expired rows. */
  predicate ValidSweep(t: Table, now: int, gone: set<Id>) {
    && gone <= Expired(t, now)
    && |gone| <= SWEEP
    && (|gone| < SWEEP ==> gone == Expired(t, now))
    && forall a, b | a in gone && b in Expired(t, now) - gone :: t[a].expires <= t[b].expires
  }

  function WithRow(sums: Sums, file: File, owner: int): Sums {
    var all := sums.(total := sums.total + file.size, count := sums.count + 1);
    if file.owner == owner then all.(owned := all.owned + file.size, ownedCount := all.ownedCount + 1) else all
  }

  lemma NoRows(owner: int)
    ensures SumsOf(map[], owner) == Sums(0, 0, 0, 0)
  {
    assert OwnedBy(map[], owner) == map[];
  }

  lemma OneMoreRow(t: Table, todo: set<Id>, id: Id, owner: int)
    requires todo <= t.Keys && id in todo
    ensures SumsOf(t - (todo - {id}), owner) == WithRow(SumsOf(t - todo, owner), t[id], owner)
  {
    var before, after := t - todo, t - (todo - {id});
    assert after == before[id := t[id]];
    InsertBytes(before, id, t[id]);
    InsertOwned(before, id, t[id], owner);
    InsertBytes(OwnedBy(before, owner), id, t[id]);
  }

  lemma ExpiredWithout(t: Table, now: int, gone: set<Id>)
    ensures Expired(t - gone, now) == Expired(t, now) - gone
  {}

  lemma SweepLeaves(t: Table, now: int, gone: set<Id>)
    requires ValidSweep(t, now, gone)
    ensures |Expired(t - gone, now)| == if |Expired(t, now)| <= SWEEP then 0 else |Expired(t, now)| - SWEEP
  {
    ExpiredWithout(t, now, gone);
    assert Expired(t, now) == gone + (Expired(t, now) - gone);
  }

  /** What is left after a sweep, and what is not. */
  lemma SweepClears(t: Table, now: int, gone: set<Id>)
    requires ValidSweep(t, now, gone)
    ensures forall id | id in gone :: id in t && t[id].expires <= now
    ensures |gone| <= 1_000 && (|gone| < 1_000 ==> forall id | id in t && id !in gone :: t[id].expires > now)
  {}

  predicate OldestFirst(t: Table, expired: set<Id>, gone: set<Id>)
    requires expired <= t.Keys && gone <= expired
  {
    forall a, b | a in gone && b in expired && b !in gone :: t[a].expires <= t[b].expires
  }

  lemma TakeOldest(t: Table, now: int, gone: set<Id>, id: Id)
    requires gone <= Expired(t, now) && OldestFirst(t, Expired(t, now), gone) && id in Expired(t - gone, now)
    requires forall x | x in Expired(t - gone, now) :: (t - gone)[id].expires <= (t - gone)[x].expires
    ensures t - gone - {id} == t - (gone + {id})
    ensures id in Expired(t, now) - gone && OldestFirst(t, Expired(t, now), gone + {id})
  {
    ExpiredWithout(t, now, gone);
    forall a, b | a in gone + {id} && b in Expired(t, now) && b !in gone + {id}
      ensures t[a].expires <= t[b].expires
    {
      assert b in Expired(t - gone, now);
    }
  }

  class AttachmentStore {
    var table: Table

    constructor ()
      ensures table == map[]
    {
      table := map[];
    }

    /** The sums query. */
    method ReadSums(owner: int) returns (sums: Sums)
      ensures sums == SumsOf(table, owner)
    {
      sums := Sums(0, 0, 0, 0);
      var todo := table.Keys;
      assert table - todo == map[];
      NoRows(owner);
      while todo != {}
        invariant todo <= table.Keys && sums == SumsOf(table - todo, owner)
        decreases todo
      {
        var id :| id in todo;
        OneMoreRow(table, todo, id, owner);
        sums := WithRow(sums, table[id], owner);
        todo := todo - {id};
      }
      assert table - todo == table;
    }

    /** `store_upload` with the quota lock held throughout. */
    method Store(id: Id, file: File) returns (refused: Option<Refusal>)
      modifies this
      ensures refused == StoreUpload(old(table), id, file)
      ensures refused == Some(BadSize) <==> !(1 <= file.size <= 5_242_880)
      ensures refused == Some(AccountFull) <==>
                && 1 <= file.size <= 5_242_880
                && (Bytes(OwnedBy(old(table), file.owner)) + file.size > 67_108_864
                    || |OwnedBy(old(table), file.owner)| >= 1_000)
      ensures refused == Some(ServerFull) ==>
                Bytes(old(table)) + file.size > 1_073_741_824 || |old(table)| >= 20_000
      ensures refused.None? || refused == Some(IdTaken) ==>
                Bytes(old(table)) + file.size <= 1_073_741_824 && |old(table)| < 20_000
      ensures refused == Some(IdTaken) ==> id in old(table)
      ensures table == if refused.None? then old(table)[id := file] else old(table)
      ensures old(Within(table)) ==> Within(table)
    {
      if file.size < 1 || file.size > MAX_FILE_BYTES {
        return Some(BadSize);
      }
      var sums := ReadSums(file.owner);
      if sums.owned + file.size > ACCOUNT_BYTES || sums.ownedCount >= ACCOUNT_FILES {
        return Some(AccountFull);
      }
      if sums.total + file.size > TOTAL_BYTES || sums.count >= TOTAL_FILES {
        return Some(ServerFull);
      }
      if id in table {
        return Some(IdTaken);
      }
      ghost var before := table;
      table := table[id := file];
      if Within(before) {
        InsertWithin(before, id, file);
      }
      return None;
    }

    /** `delete_pending`: only the owner's own file, and only before a message uses it. */
    method DeletePending(id: Id, owner: int)
      modifies this
      ensures var mine := id in old(table) && old(table)[id].owner == owner && !old(table)[id].bound;
              table == if mine then old(table) - {id} else old(table)
      ensures old(Within(table)) ==> Within(table)
    {
      ghost var before := table;
      if id in table && table[id].owner == owner && !table[id].bound {
        if Within(before) {
          DeleteKeepsWithin(before, {id});
        }
        table := table - {id};
      }
    }

    method OldestExpired(now: int) returns (oldest: Option<Id>)
      ensures oldest.None? <==> Expired(table, now) == {}
      ensures oldest.Some? ==>
                && oldest.value in Expired(table, now)
                && forall id | id in Expired(table, now) :: table[oldest.value].expires <= table[id].expires
    {
      oldest := None;
      var todo := table.Keys;
      while todo != {}
        invariant todo <= table.Keys
        invariant oldest.Some? ==> oldest.value in Expired(table, now)
        invariant forall id | id in Expired(table, now) && id !in todo ::
                    oldest.Some? && table[oldest.value].expires <= table[id].expires
        decreases todo
      {
        var id :| id in todo;
        todo := todo - {id};
        if table[id].expires <= now && (oldest.None? || table[id].expires < table[oldest.value].expires) {
          oldest := Some(id);
        }
      }
    }

    /** The statement of `cleanup`: removes the longest-expired files, at most a thousand. */
    method Sweep(now: int) returns (removed: nat, ghost gone: set<Id>)
      modifies this
      ensures ValidSweep(old(table), now, gone) && removed == |gone|
      ensures table == old(table) - gone
    {
      removed, gone := 0, {};
      ghost var before, expired := table, Expired(table, now);
      while removed < SWEEP
        invariant removed == |gone| <= SWEEP && gone <= expired
        invariant table == before - gone
        invariant OldestFirst(before, expired, gone)
        decreases SWEEP - removed
      {
        var oldest := OldestExpired(now);
        if oldest.None? {
          break;
        }
        TakeOldest(before, now, gone, oldest.value);
        table := table - {oldest.value};
        removed, gone := removed + 1, gone + {oldest.value};
      }
      ExpiredWithout(before, now, gone);
    }

    /** `cleanup`: one pass takes only expired files and leaves one only after a thousand. */
    method Cleanup(now: int) returns (removed: nat, ghost gone: set<Id>)
      modifies this
      ensures ValidSweep(old(table), now, gone) && removed == |gone|
      ensures table == old(table) - gone
      ensures var expired := |Expired(old(table), now)|;
              |Expired(table, now)| == if expired <= SWEEP then 0 else expired - SWEEP
      ensures forall id | id in gone :: old(table)[id].expires <= now
      ensures removed <= 1_000 && (removed < 1_000 ==> forall id | id in table :: table[id].expires > now)
      ensures old(Within(table)) ==> Within(table)
    {
      ghost var before := table;
      removed, gone := Sweep(now);
      SweepLeaves(before, now, gone);
      SweepClears(before, now, gone);
      if Within(before) {
        DeleteKeepsWithin(before, gone);
      }
    }
  }
}
