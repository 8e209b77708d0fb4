/** What the downgrade does row by row, when it commits, and what it keeps. */
module RetentionDowngrade {
  import opened RetentionNames
  import opened RetentionTables

  /** A record moves only from its organization's managed policy, and only to the default policy. */
  lemma OnlyManagedPinsMove(d: Digest, m: Migration, suffixes: Suffixes, t: Tables, r: Uuid)
    requires r in t.records
    ensures var was, now := t.records[r], Downgraded(d, m, suffixes, t).records[r];
      && now.org == was.org
      && (now.policy != was.policy ==>
            && Target(m, t, r) && was.policy == ManagedId(d, m, was.org)
            && Named(t.policies, was.org, SystemDefault, now.policy))
      && (Target(m, t, r) && was.policy == ManagedId(d, m, was.org) && HasNamed(t.policies, was.org, SystemDefault)
            && was.policy in t.policies && t.policies[was.policy].org == was.org ==>
            Named(t.policies, was.org, SystemDefault, now.policy))
  {
  }

  /** A user policy of the org still holds the reserved name, so no aside name is restored there. */
  predicate Occupied(d: Digest, m: Migration, t: Tables, org: Uuid) {
    exists id :: id in t.policies && t.policies[id].org == org && Collides(d, m, id, t.policies[id])
  }

  /** The managed row outlives the downgrade: something else than a target's pin still refers to it. */
  predicate Kept(d: Digest, m: Migration, t: Tables, id: Uuid)
    requires id in t.policies
  {
    IsManaged(d, m, id, t.policies[id]) ==> Referenced(t, id)
  }

  function NameAfter(d: Digest, m: Migration, suffixes: Suffixes, t: Tables, id: Uuid): PolicyName
    requires id in t.policies
  {
    var p := t.policies[id];
    if p.name == Reserved(m) && IsManaged(d, m, id, p) then Retired(m, id, suffixes(id))
    else if Marked(m, id, p.name) && !Occupied(d, m, t, p.org) then Reserved(m)
    else p.name
  }

  /** Row by row, what the downgrade makes of tables whose targets are already unpinned. */
  ghost predicate DowngradeShape(d: Digest, m: Migration, suffixes: Suffixes, u: Tables, t': Tables) {
    && t' == u.(policies := t'.policies)
    && (forall id :: id in t'.policies <==> id in u.policies && Kept(d, m, u, id))
    && (forall id :: id in t'.policies ==>
          t'.policies[id] == u.policies[id].(name := NameAfter(d, m, suffixes, u, id)))
  }

  lemma OccupiedIsHeld(d: Digest, m: Migration, suffixes: Suffixes, t: Tables, org: Uuid)
    ensures HasNamed(BeforeRestoring(d, m, suffixes, t).policies, org, Reserved(m)) <==> Occupied(d, m, t, org)
  {
    var b := BeforeRestoring(d, m, suffixes, t).policies;
    if id :| id in b && Named(b, org, Reserved(m), id) {
      assert Collides(d, m, id, t.policies[id]);
    }
    if id :| id in t.policies && t.policies[id].org == org && Collides(d, m, id, t.policies[id]) {
      assert id in b && Named(b, org, Reserved(m), id);
    }
  }

  lemma DowngradeHasShape(d: Digest, m: Migration, suffixes: Suffixes, t: Tables)
    ensures DowngradeShape(d, m, suffixes, Unpinned(d, m, t), Downgraded(d, m, suffixes, t))
  {
    var u := Unpinned(d, m, t);
    var b := BeforeRestoring(d, m, suffixes, t);
    var t' := Downgraded(d, m, suffixes, t);
    forall id | id in t'.policies
      ensures t'.policies[id] == u.policies[id].(name := NameAfter(d, m, suffixes, u, id))
    {
      OccupiedIsHeld(d, m, suffixes, t, u.policies[id].org);
      assert Occupied(d, m, t, u.policies[id].org) == Occupied(d, m, u, u.policies[id].org);
    }
  }

  // ---- when it commits ----

  /** No row of its org already carries the name that a surviving managed row is retired to. */
  ghost predicate SuffixesAreFree(d: Digest, m: Migration, suffixes: Suffixes, u: Tables) {
    forall id, q :: id in u.policies && q in u.policies && id != q && u.policies[id].org == u.policies[q].org
      && IsManaged(d, m, id, u.policies[id]) && u.policies[id].name == Reserved(m)
      && Kept(d, m, u, id) && Kept(d, m, u, q)
      ==> u.policies[q].name != Retired(m, id, suffixes(id))
  }

  predicate Restorable(d: Digest, m: Migration, u: Tables, id: Uuid)
    requires id in u.policies
  {
    Kept(d, m, u, id) && Marked(m, id, u.policies[id].name) && !Occupied(d, m, u, u.policies[id].org)
  }

  /** At most one row an org waits for the reserved name. */
  ghost predicate OneRestorableAnOrg(d: Digest, m: Migration, u: Tables) {
    forall a, b :: a in u.policies && b in u.policies && Restorable(d, m, u, a) && Restorable(d, m, u, b)
      && u.policies[a].org == u.policies[b].org
      ==> a == b
  }

  ghost predicate RetireShape(d: Digest, m: Migration, suffixes: Suffixes, u: Tables, b: map<Uuid, Policy>) {
    && (forall id :: id in b <==> id in u.policies && Kept(d, m, u, id))
    && (forall id :: id in b ==> b[id] == MovedOut(d, m, suffixes, id, u.policies[id]))
  }

  lemma RetireUnique(d: Digest, m: Migration, suffixes: Suffixes, u: Tables, b: map<Uuid, Policy>)
    requires Unique(u.policies) && RetireShape(d, m, suffixes, u, b)
    ensures Unique(b) <==> SuffixesAreFree(d, m, suffixes, u)
  {
    if Unique(b) {
      forall id, q | id in u.policies && q in u.policies && id != q && u.policies[id].org == u.policies[q].org
        && IsManaged(d, m, id, u.policies[id]) && u.policies[id].name == Reserved(m)
        && Kept(d, m, u, id) && Kept(d, m, u, q)
        ensures u.policies[q].name != Retired(m, id, suffixes(id))
      {
        assert id in b && q in b;
      }
    }
    if SuffixesAreFree(d, m, suffixes, u) {
      forall x, y | x in b && y in b && x != y ensures b[x].org != b[y].org || b[x].name != b[y].name {
        assert Kept(d, m, u, x) && Kept(d, m, u, y);
      }
    }
  }

  lemma RestoreUnique(d: Digest, m: Migration, suffixes: Suffixes, u: Tables, b: map<Uuid, Policy>, t': Tables)
    requires RetireShape(d, m, suffixes, u, b) && Unique(b) && DowngradeShape(d, m, suffixes, u, t')
    ensures Unique(t'.policies) <==> OneRestorableAnOrg(d, m, u)
  {
    if Unique(t'.policies) {
      forall x, y | x in u.policies && y in u.policies && Restorable(d, m, u, x) && Restorable(d, m, u, y)
        && u.policies[x].org == u.policies[y].org
        ensures x == y
      {
        assert x in t'.policies && y in t'.policies;
      }
    }
    if OneRestorableAnOrg(d, m, u) {
      forall x, y | x in t'.policies && y in t'.policies && x != y
        ensures t'.policies[x].org != t'.policies[y].org || t'.policies[x].name != t'.policies[y].name
      {
        RestoreKeepsApart(d, m, suffixes, u, b, t', x, y);
      }
    }
  }

  lemma RestoreKeepsApart(d: Digest, m: Migration, suffixes: Suffixes, u: Tables, b: map<Uuid, Policy>, t': Tables,
          x: Uuid, y: Uuid)
    requires RetireShape(d, m, suffixes, u, b) && Unique(b) && DowngradeShape(d, m, suffixes, u, t')
    requires OneRestorableAnOrg(d, m, u)
    requires x in t'.policies && y in t'.policies && x != y
    ensures t'.policies[x].org != t'.policies[y].org || t'.policies[x].name != t'.policies[y].name
  {
    assert x in b && y in b;
    if t'.policies[x].name == Reserved(m) {
      assert Restorable(d, m, u, x) || Collides(d, m, x, u.policies[x]);
    }
    if t'.policies[y].name == Reserved(m) {
      assert Restorable(d, m, u, y) || Collides(d, m, y, u.policies[y]);
    }
  }

  /**
   The downgrade aborts in exactly two cases: a random suffix hits a name in use, or an org without
   a user policy of the reserved name has two rows that carry the marker, which the restoration
   then gives the same name.
   */
  lemma DowngradeCommitsExactly(d: Digest, m: Migration, suffixes: Suffixes, t: Tables)
    requires Valid(d, t)
    ensures DowngradeCommits(d, m, suffixes, t) <==>
      SuffixesAreFree(d, m, suffixes, Unpinned(d, m, t)) && OneRestorableAnOrg(d, m, Unpinned(d, m, t))
  {
    var u := Unpinned(d, m, t);
    var b := BeforeRestoring(d, m, suffixes, t).policies;
    DowngradeHasShape(d, m, suffixes, t);
    RetireUnique(d, m, suffixes, u, b);
    if Unique(b) {
      RestoreUnique(d, m, suffixes, u, b, Downgraded(d, m, suffixes, t));
    }
  }

  // ---- what it keeps ----

  lemma UnpinKeepsReferences(d: Digest, m: Migration, t: Tables, id: Uuid)
    requires ForeignKeys(t) && Referenced(Unpinned(d, m, t), id)
    ensures id in t.policies
  {
    var u := Unpinned(d, m, t);
    if r :| r in u.records && u.records[r].policy == id {
      assert Referenced(t, t.records[r].policy);
    } else {
      assert Referenced(t, id);
    }
  }

  lemma DowngradeKeepsValid(d: Digest, m: Migration, suffixes: Suffixes, t: Tables)
    requires Valid(d, t) && DowngradeCommits(d, m, suffixes, t)
    ensures Valid(d, Downgraded(d, m, suffixes, t))
  {
    var u := Unpinned(d, m, t);
    var t' := Downgraded(d, m, suffixes, t);
    DowngradeHasShape(d, m, suffixes, t);
    forall id | Referenced(t', id) ensures id in t'.policies {
      assert Referenced(u, id);
      UnpinKeepsReferences(d, m, t, id);
    }
  }

  function TwoMarkedRows(m: Migration, org: Uuid, a: Uuid, b: Uuid, tail: string): Tables {
    var p, q := Policy(org, Aside(m, a, tail), PERMANENT), Policy(org, Aside(m, b, tail), PERMANENT);
    Tables({org}, map[a := p, b := q], map[], map[], map[], map[], map[])
  }

  /** Two ids that no migration's digest gives to the organization. */
  ghost predicate NeitherManaged(d: Digest, org: Uuid, a: Uuid, b: Uuid) {
    forall m :: a != ManagedId(d, m, org) && b != ManagedId(d, m, org)
  }

  lemma TwoMarkedRowsAreValid(d: Digest, m: Migration, org: Uuid, a: Uuid, b: Uuid, tail: string)
    requires a != b && NeitherManaged(d, org, a, b) && Collisionless(d, {org})
    ensures Valid(d, TwoMarkedRows(m, org, a, b, tail))
  {
  }

  /** A valid database that the downgrade cannot leave: two policies of one org carry the marker. */
  lemma TwoMarkedRowsAbort(d: Digest, m: Migration, suffixes: Suffixes, org: Uuid, a: Uuid, b: Uuid, tail: string,
          t: Tables)
    requires a != b && NeitherManaged(d, org, a, b) && Collisionless(d, {org})
    requires t == TwoMarkedRows(m, org, a, b, tail)
    ensures Valid(d, t) && !DowngradeCommits(d, m, suffixes, t)
  {
    TwoMarkedRowsAreValid(d, m, org, a, b, tail);
    var u := Unpinned(d, m, t);
    assert u.policies == t.policies;
    forall id | id in u.policies ensures id == a || id == b {
    }
    assert a != ManagedId(d, m, org) && b != ManagedId(d, m, org);
    assert Restorable(d, m, u, a) && Restorable(d, m, u, b);
    DowngradeHasShape(d, m, suffixes, t);
    BothRestored(d, m, suffixes, u, Downgraded(d, m, suffixes, t), a, b);
  }

  lemma BothRestored(d: Digest, m: Migration, suffixes: Suffixes, u: Tables, t': Tables, a: Uuid, b: Uuid)
    requires DowngradeShape(d, m, suffixes, u, t')
    requires a in u.policies && b in u.policies && a != b && u.policies[a].org == u.policies[b].org
    requires Restorable(d, m, u, a) && Restorable(d, m, u, b)
    ensures !Unique(t'.policies)
  {
    assert a in t'.policies && b in t'.policies;
  }
}
