/**
 The database the migrations run against. Each SQL statement is a method that visits its rows one
 by one, in any order, and checks UNIQUE(org_id, name) at every write as PostgreSQL does. It is
 proved to mean the set-at-a-time function of `RetentionTables`, and to abort exactly when that
 function's result would break the constraint. A migration that aborts rolls back.
 */
module RetentionDatabase {
  import opened Wrappers
  import opened RetentionNames
  import opened RetentionTables
  import opened RetentionTheorems
  import opened RetentionDowngrade

  /** Writing `p` at `id` would break UNIQUE(org_id, name). */
  predicate Clashes(ps: map<Uuid, Policy>, id: Uuid, p: Policy) {
    exists q :: q in ps && q != id && ps[q].org == p.org && ps[q].name == p.name
  }

  lemma WriteKeepsUnique(ps: map<Uuid, Policy>, id: Uuid, p: Policy)
    requires Unique(ps)
    ensures Unique(ps[id := p]) <==> !Clashes(ps, id, p)
  {
    var now := ps[id := p];
    if q :| q in ps && q != id && ps[q].org == p.org && ps[q].name == p.name {
      assert now[q] == ps[q] && now[id] == p;
    }
  }

  /** A statement in progress: the rows in `todo` are as before, the others as they will be. */
  ghost predicate Partly<V>(before: map<Uuid, V>, after: map<Uuid, V>, todo: set<Uuid>, now: map<Uuid, V>) {
    && before.Keys == after.Keys == now.Keys
    && (forall id :: id in now ==> now[id] == if id in todo then before[id] else after[id])
  }

  lemma OneMore<V>(before: map<Uuid, V>, after: map<Uuid, V>, todo: set<Uuid>, now: map<Uuid, V>, id: Uuid)
    requires Partly(before, after, todo, now) && id in todo && id in now
    ensures Partly(before, after, todo - {id}, now[id := after[id]])
  {
  }

  lemma AllDone<V>(before: map<Uuid, V>, after: map<Uuid, V>, now: map<Uuid, V>)
    requires Partly(before, after, {}, now)
    ensures now == after
  {
  }

  /**
   A row-wise clash is a clash of the whole statement, if what is still to be written keeps clear of
   the name being written.
   */
  lemma ClashIsFinal(before: map<Uuid, Policy>, after: map<Uuid, Policy>, todo: set<Uuid>, now: map<Uuid, Policy>,
          id: Uuid)
    requires Partly(before, after, todo, now) && id in todo && id in now && Clashes(now, id, after[id])
    requires forall q :: q in before && before[q].name == after[id].name && q != id ==> after[q] == before[q]
    ensures !Unique(after)
  {
    var q :| q in now && q != id && now[q].org == after[id].org && now[q].name == after[id].name;
    assert after[q] == now[q];
  }

  lemma MergeAndWrite<K, V>(a: map<K, V>, b: map<K, V>, k: K, v: V)
    ensures a + b[k := v] == (a + b)[k := v]
    ensures k !in b ==> (k in a + b <==> k in a) && (k in a ==> (a + b)[k] == a[k])
  {
  }

  lemma ManagedRowsGrow(d: Digest, m: Migration, orgs: set<Uuid>, done: set<Uuid>, o: Uuid)
    requires Collisionless(d, orgs) && done <= orgs && o in orgs
    ensures ManagedRows(d, m, done + {o}) == ManagedRows(d, m, done)[ManagedId(d, m, o) := ManagedRow(m, o)]
  {
  }

  lemma NotYetManaged(d: Digest, m: Migration, orgs: set<Uuid>, done: set<Uuid>, o: Uuid)
    requires Collisionless(d, orgs) && done <= orgs && o in orgs && o !in done
    ensures ManagedId(d, m, o) !in ManagedRows(d, m, done)
  {
  }

  /** What the loop of the upsert keeps: rows of the reserved name are managed ones. */
  ghost predicate ReservedAreManaged(d: Digest, m: Migration, ps: map<Uuid, Policy>) {
    forall id :: id in ps && ps[id].name == Reserved(m) ==> IsManaged(d, m, id, ps[id])
  }

  lemma UpsertIsClear(d: Digest, m: Migration, ps: map<Uuid, Policy>, o: Uuid)
    requires Unique(ps) && ReservedAreManaged(d, m, ps)
    ensures !Clashes(ps, ManagedId(d, m, o), ManagedRow(m, o))
    ensures Unique(ps[ManagedId(d, m, o) := ManagedRow(m, o)])
    ensures ReservedAreManaged(d, m, ps[ManagedId(d, m, o) := ManagedRow(m, o)])
  {
    WriteKeepsUnique(ps, ManagedId(d, m, o), ManagedRow(m, o));
  }

  /** The upsert has been done for the orgs in `done`. */
  ghost predicate UpsertedFor(d: Digest, m: Migration, orgs: set<Uuid>, before: map<Uuid, Policy>, done: set<Uuid>,
          ps: map<Uuid, Policy>)
    requires Collisionless(d, orgs)
  {
    && done <= orgs
    && ps == before + ManagedRows(d, m, done)
    && Unique(ps)
    && ReservedAreManaged(d, m, ps)
  }

  lemma UpsertOne(d: Digest, m: Migration, orgs: set<Uuid>, before: map<Uuid, Policy>, done: set<Uuid>,
          ps: map<Uuid, Policy>, o: Uuid)
    requires Collisionless(d, orgs) && UpsertedFor(d, m, orgs, before, done, ps) && o in orgs && o !in done
    requires ManagedId(d, m, o) in before ==> before[ManagedId(d, m, o)].org == o
    ensures ManagedId(d, m, o) in ps ==> ps[ManagedId(d, m, o)].org == o
    ensures !Clashes(ps, ManagedId(d, m, o), ManagedRow(m, o))
    ensures UpsertedFor(d, m, orgs, before, done + {o}, ps[ManagedId(d, m, o) := ManagedRow(m, o)])
  {
    NotYetManaged(d, m, orgs, done, o);
    ManagedRowsGrow(d, m, orgs, done, o);
    MergeAndWrite(before, ManagedRows(d, m, done), ManagedId(d, m, o), ManagedRow(m, o));
    UpsertIsClear(d, m, ps, o);
  }

  /** The DELETE in progress. */
  ghost predicate PartlyDeleted(d: Digest, m: Migration, before: Tables, todo: set<Uuid>, now: map<Uuid, Policy>) {
    && (forall id :: id in now ==> id in before.policies && now[id] == before.policies[id])
    && (forall id :: id in before.policies ==> (id in now <==> id in todo || !Deletable(d, m, before, id)))
  }

  /** Whether a row is deletable does not depend on the deletions before it. */
  lemma DeleteOne(d: Digest, m: Migration, before: Tables, todo: set<Uuid>, now: map<Uuid, Policy>, id: Uuid)
    requires PartlyDeleted(d, m, before, todo, now) && id in now && id in todo
    ensures Deletable(d, m, before.(policies := now), id) <==> Deletable(d, m, before, id)
    ensures PartlyDeleted(d, m, before, todo - {id}, if Deletable(d, m, before, id) then now - {id} else now)
  {
    assert Referenced(before.(policies := now), id) == Referenced(before, id);
  }

  lemma DeletesDone(d: Digest, m: Migration, before: Tables, now: map<Uuid, Policy>)
    requires PartlyDeleted(d, m, before, {}, now)
    ensures before.(policies := now) == ManagedDeleted(d, m, before)
  {
    assert now == ManagedDeleted(d, m, before).policies;
  }

  class Database {
    const digest: Digest
    var orgs: set<Uuid>
    var policies: map<Uuid, Policy>
    var records: map<Uuid, Record>
    var documentTypes: map<Uuid, Option<Uuid>>
    var events: map<Uuid, Option<Uuid>>
    var packs: map<Uuid, Pack>
    var importRuns: map<Uuid, Option<Uuid>>

    function Snapshot(): Tables
      reads this
    {
      Tables(orgs, policies, records, documentTypes, events, packs, importRuns)
    }

    constructor (digest: Digest, t: Tables)
      ensures this.digest == digest && Snapshot() == t
    {
      this.digest := digest;
      orgs, policies, records := t.orgs, t.policies, t.records;
      documentTypes, events, packs, importRuns := t.documentTypes, t.events, t.packs, t.importRuns;
    }

    // ---- statements of the upgrade ----

    method MoveCollisionsAside(m: Migration, suffixes: Suffixes) returns (ok: bool)
      requires Unique(policies)
      modifies this`policies
      ensures ok <==> Unique(CollisionsAside(digest, m, suffixes, old(policies)))
      ensures ok ==> policies == CollisionsAside(digest, m, suffixes, old(policies))
    {
      ghost var before := policies;
      ghost var after := CollisionsAside(digest, m, suffixes, policies);
      var todo := policies.Keys;
      while todo != {}
        invariant todo <= policies.Keys
        invariant Partly(before, after, todo, policies) && Unique(policies)
      {
        var id :| id in todo;
        OneMore(before, after, todo, policies, id);
        if Collides(digest, m, id, policies[id]) {
          var row := MovedAside(digest, m, suffixes, id, policies[id]);
          WriteKeepsUnique(policies, id, row);
          if Clashes(policies, id, row) {
            ClashIsFinal(before, after, todo, policies, id);
            return false;
          }
          policies := policies[id := row];
        } else {
          assert policies == policies[id := after[id]];
        }
        todo := todo - {id};
      }
      AllDone(before, after, policies);
      return true;
    }

    /** INSERT ... ON CONFLICT (id) DO UPDATE, one row an organization. */
    method UpsertManaged(m: Migration) returns (ok: bool)
      requires Collisionless(digest, orgs) && ManagedAtHome(digest, Snapshot())
      requires Unique(policies)
      requires ReservedAreManaged(digest, m, policies)
      modifies this`policies
      ensures ok && policies == old(policies) + ManagedRows(digest, m, orgs)
      ensures forall o :: o in orgs ==>
        ManagedId(digest, m, o) in policies && ForGood(policies[ManagedId(digest, m, o)].settings)
    {
      ghost var before, done := policies, {};
      var todo := orgs;
      while todo != {}
        invariant done + todo == orgs && done !! todo
        invariant UpsertedFor(digest, m, orgs, before, done, policies)
      {
        var o :| o in todo;
        var id := ManagedId(digest, m, o);
        UpsertOne(digest, m, orgs, before, done, policies, o);
        var row := if id in policies then policies[id].(name := Reserved(m), settings := PERMANENT)
          else ManagedRow(m, o);
        assert row == ManagedRow(m, o);
        if Clashes(policies, id, row) {
          return false;
        }
        policies := policies[id := row];
        todo, done := todo - {o}, done + {o};
      }
      assert done == orgs;
      return true;
    }

    method RepinTargets(m: Migration)
      requires Unique(policies)
      modifies this`records
      ensures Snapshot() == Pinned(m, old(Snapshot()))
    {
      var todo := records.Keys;
      while todo != {}
        invariant todo <= records.Keys == old(records).Keys
        invariant forall r :: r in records ==>
          records[r] == if r in todo then old(records)[r] else PinnedRecord(m, old(Snapshot()), r)
      {
        var r :| r in todo;
        todo := todo - {r};
        var target := IsTarget(m, r);
        assert target == Target(m, old(Snapshot()), r);
        if target && HasNamed(policies, records[r].org, Reserved(m)) {
          var id :| id in policies && Named(policies, records[r].org, Reserved(m), id);
          records := records[r := records[r].(policy := id)];
        }
      }
    }

    /** The join of a migration's record statements, evaluated for one record. */
    method IsTarget(m: Migration, r: Uuid) returns (found: bool)
      requires r in records
      ensures found == Target(m, Snapshot(), r)
    {
      match m {
        case SealedPack0077 =>
          found := exists p :: p in packs && packs[p].packRecord == Some(r) && packs[p].org == records[r].org;
        case ImportReport0090 =>
          found := exists i :: i in importRuns && importRuns[i] == Some(r);
      }
    }

    method Upgrade(m: Migration, suffixes: Suffixes) returns (ok: bool)
      requires Valid(digest, Snapshot())
      modifies this
      ensures ok <==> UpgradeCommits(digest, m, suffixes, old(Snapshot()))
      ensures Snapshot() == if ok then Upgraded(digest, m, suffixes, old(Snapshot())) else old(Snapshot())
      ensures Valid(digest, Snapshot())
      ensures ok ==> Established(digest, m, Snapshot()) && TargetsForGood(m, Snapshot())
    {
      var savepoint := policies;
      ok := MoveCollisionsAside(m, suffixes);
      if !ok {
        policies := savepoint;
        return;
      }
      ok := UpsertManaged(m);
      UpgradeEstablishes(digest, m, suffixes, old(Snapshot()));
      RepinTargets(m);
    }

    // ---- statements of the downgrade ----

    method UnpinTargets(m: Migration)
      requires Unique(policies)
      modifies this`records
      ensures Snapshot() == Unpinned(digest, m, old(Snapshot()))
    {
      var todo := records.Keys;
      while todo != {}
        invariant todo <= records.Keys == old(records).Keys
        invariant forall r :: r in records ==>
          records[r] == if r in todo then old(records)[r] else UnpinnedRecord(digest, m, old(Snapshot()), r)
      {
        var r :| r in todo;
        todo := todo - {r};
        var target := IsTarget(m, r);
        assert target == Target(m, old(Snapshot()), r);
        var permanent := records[r].policy;
        if
          && target
          && permanent == ManagedId(digest, m, records[r].org)
          && permanent in policies && policies[permanent].org == records[r].org
          && HasNamed(policies, records[r].org, SystemDefault)
        {
          var id :| id in policies && Named(policies, records[r].org, SystemDefault, id);
          records := records[r := records[r].(policy := id)];
        }
      }
    }

    /** The NOT EXISTS guards are the RESTRICT checks, so no delete here can violate a foreign key. */
    method DeleteUnreferenced(m: Migration)
      modifies this`policies
      ensures Snapshot() == ManagedDeleted(digest, m, old(Snapshot()))
    {
      ghost var before := Snapshot();
      var todo := policies.Keys;
      while todo != {}
        invariant todo <= policies.Keys
        invariant Snapshot() == before.(policies := policies)
        invariant PartlyDeleted(digest, m, before, todo, policies)
      {
        var id :| id in todo;
        DeleteOne(digest, m, before, todo, policies, id);
        if Deletable(digest, m, Snapshot(), id) {
          policies := policies - {id};
        }
        todo := todo - {id};
      }
      DeletesDone(digest, m, before, policies);
    }

    method RetireManaged(m: Migration, suffixes: Suffixes) returns (ok: bool)
      requires Unique(policies)
      modifies this`policies
      ensures ok <==> Unique(ManagedRetired(digest, m, suffixes, old(policies)))
      ensures ok ==> policies == ManagedRetired(digest, m, suffixes, old(policies))
    {
      ghost var before := policies;
      ghost var after := ManagedRetired(digest, m, suffixes, policies);
      var todo := policies.Keys;
      while todo != {}
        invariant todo <= policies.Keys
        invariant Partly(before, after, todo, policies) && Unique(policies)
      {
        var id :| id in todo;
        OneMore(before, after, todo, policies, id);
        var row := MovedOut(digest, m, suffixes, id, policies[id]);
        WriteKeepsUnique(policies, id, row);
        if row != policies[id] && Clashes(policies, id, row) {
          ClashIsFinal(before, after, todo, policies, id);
          return false;
        }
        policies := policies[id := row];
        todo := todo - {id};
      }
      AllDone(before, after, policies);
      return true;
    }

    method RestoreNames(m: Migration) returns (ok: bool)
      requires Unique(policies)
      modifies this`policies
      ensures ok <==> Unique(NamesRestored(m, old(policies)))
      ensures ok ==> policies == NamesRestored(m, old(policies))
    {
      var before := policies;  // NOT EXISTS looks at the rows as the statement found them
      ghost var after := NamesRestored(m, policies);
      var todo := policies.Keys;
      while todo != {}
        invariant todo <= policies.Keys
        invariant Partly(before, after, todo, policies) && Unique(policies)
      {
        var id :| id in todo;
        OneMore(before, after, todo, policies, id);
        var row := Restored(m, before, id);
        WriteKeepsUnique(policies, id, row);
        if row != policies[id] && Clashes(policies, id, row) {
          ClashIsFinal(before, after, todo, policies, id);
          return false;
        }
        policies := policies[id := row];
        todo := todo - {id};
      }
      AllDone(before, after, policies);
      return true;
    }

    method Downgrade(m: Migration, suffixes: Suffixes) returns (ok: bool)
      requires Valid(digest, Snapshot())
      modifies this
      ensures ok <==> DowngradeCommits(digest, m, suffixes, old(Snapshot()))
      ensures Snapshot() == if ok then Downgraded(digest, m, suffixes, old(Snapshot())) else old(Snapshot())
      ensures Valid(digest, Snapshot())
    {
      var savedPolicies, savedRecords := policies, records;
      UnpinTargets(m);
      DeleteUnreferenced(m);
      ok := RetireManaged(m, suffixes);
      if ok {
        ok := RestoreNames(m);
      }
      if !ok {
        policies, records := savedPolicies, savedRecords;
      } else {
        DowngradeKeepsValid(digest, m, suffixes, old(Snapshot()));
      }
    }
  }
}
