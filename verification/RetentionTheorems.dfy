/** What the reserved-policy upgrade establishes, what it leaves alone, and what the downgrade undoes. */
module RetentionTheorems {
  import opened RetentionNames
  import opened RetentionTables

  /** The state an upgrade promises: one permanent managed policy an org, pinned by every target. */
  ghost predicate Established(d: Digest, m: Migration, t: Tables) {
    && (forall o :: o in t.orgs ==>
          ManagedId(d, m, o) in t.policies && t.policies[ManagedId(d, m, o)] == ManagedRow(m, o))
    && (forall id :: id in t.policies && t.policies[id].name == Reserved(m) ==>
          IsManaged(d, m, id, t.policies[id]))
    && (forall r :: r in t.records && Target(m, t, r) ==>
          t.records[r].policy == ManagedId(d, m, t.records[r].org))
  }

  /**
   The promise while the migration is up, where the organizations in `served` are known to hold the
   managed policy; another organization gets it with its first target.
   */
  ghost predicate Held(d: Digest, m: Migration, t: Tables, served: set<Uuid>) {
    && served <= t.orgs
    && (forall o :: o in served ==> ManagedId(d, m, o) in t.policies)
    && (forall o :: o in t.orgs && ManagedId(d, m, o) in t.policies ==>
          t.policies[ManagedId(d, m, o)] == ManagedRow(m, o))
    && (forall id :: id in t.policies && t.policies[id].name == Reserved(m) ==>
          IsManaged(d, m, id, t.policies[id]))
    && (forall r :: r in t.records && Target(m, t, r) ==>
          t.records[r].policy == ManagedId(d, m, t.records[r].org))
  }

  /** Right after the upgrade every organization is served. */
  lemma EstablishedIsHeld(d: Digest, m: Migration, t: Tables)
    ensures Established(d, m, t) <==> Held(d, m, t, t.orgs)
  {
  }

  // ---- policies ----

  /** Every target is kept for good. */
  ghost predicate TargetsForGood(m: Migration, t: Tables) {
    forall r :: r in t.records && Target(m, t, r) ==>
      t.records[r].policy in t.policies && ForGood(t.policies[t.records[r].policy].settings)
  }

  lemma HeldIsForGood(d: Digest, m: Migration, t: Tables, served: set<Uuid>)
    requires ForeignKeys(t) && Held(d, m, t, served)
    ensures TargetsForGood(m, t)
  {
    forall r | r in t.records && Target(m, t, r)
      ensures t.records[r].policy in t.policies && ForGood(t.policies[t.records[r].policy].settings)
    {
      assert Referenced(t, t.records[r].policy);
      assert t.policies[t.records[r].policy] == ManagedRow(m, t.records[r].org);
    }
  }

  lemma ManagedPolicyAfter(d: Digest, m: Migration, suffixes: Suffixes, t: Tables, o: Uuid)
    requires Collisionless(d, t.orgs) && o in t.orgs
    ensures var ps := WithPolicies(d, m, suffixes, t).policies;
      ManagedId(d, m, o) in ps && ps[ManagedId(d, m, o)] == ManagedRow(m, o)
  {
    assert ManagedId(d, m, o) in ManagedRows(d, m, t.orgs);
  }

  lemma UserPolicyAfter(d: Digest, m: Migration, suffixes: Suffixes, t: Tables, id: Uuid)
    requires Collisionless(d, t.orgs) && ManagedAtHome(d, t)
    requires id in t.policies && !IsManaged(d, m, id, t.policies[id])
    ensures var ps := WithPolicies(d, m, suffixes, t).policies;
      id in ps && ps[id] == MovedAside(d, m, suffixes, id, t.policies[id])
  {
    assert id !in ManagedRows(d, m, t.orgs);
  }

  lemma UntouchedRowAfter(d: Digest, m: Migration, suffixes: Suffixes, t: Tables, id: Uuid)
    requires Collisionless(d, t.orgs) && PoliciesHaveOrgs(t)
    requires id in WithPolicies(d, m, suffixes, t).policies && id !in ManagedRows(d, m, t.orgs)
    ensures id in t.policies && t.policies[id].org in t.orgs && !IsManaged(d, m, id, t.policies[id])
    ensures WithPolicies(d, m, suffixes, t).policies[id] == MovedAside(d, m, suffixes, id, t.policies[id])
  {
    assert id in t.policies && t.policies[id].org in t.orgs;
    assert ManagedId(d, m, t.policies[id].org) in ManagedRows(d, m, t.orgs);
  }

  /** After the two policy statements a row is the managed one of its org, or a user's old row. */
  lemma PolicyAfterOrigin(d: Digest, m: Migration, suffixes: Suffixes, t: Tables, id: Uuid)
    requires Collisionless(d, t.orgs) && ManagedAtHome(d, t) && PoliciesHaveOrgs(t)
    requires id in WithPolicies(d, m, suffixes, t).policies
    ensures var p := WithPolicies(d, m, suffixes, t).policies[id];
      && p.org in t.orgs
      && (if IsManaged(d, m, id, p) then p == ManagedRow(m, p.org)
          else id in t.policies && p == MovedAside(d, m, suffixes, id, t.policies[id]) && p.name != Reserved(m))
  {
    if id in ManagedRows(d, m, t.orgs) {
      var o :| o in t.orgs && id == ManagedId(d, m, o);
      ManagedPolicyAfter(d, m, suffixes, t, o);
    } else {
      UntouchedRowAfter(d, m, suffixes, t, id);
    }
  }

  /** No other row of the org already carries the name that a colliding row is moved to. */
  ghost predicate AsideNamesAreFree(d: Digest, m: Migration, suffixes: Suffixes, ps: map<Uuid, Policy>) {
    forall id, q :: id in ps && q in ps && id != q && ps[id].org == ps[q].org && Collides(d, m, id, ps[id]) ==>
                      ps[q].name != Aside(m, id, suffixes(id))
  }

  /**
   When the upgrade commits: the INSERT never conflicts on the name, and the rename only on a suffix that is
   taken.
   */
  lemma UpgradeCommitsExactly(d: Digest, m: Migration, suffixes: Suffixes, t: Tables)
    requires Valid(d, t)
    ensures UpgradeCommits(d, m, suffixes, t) <==> AsideNamesAreFree(d, m, suffixes, t.policies)
    ensures UpgradeCommits(d, m, suffixes, t) ==> Unique(WithPolicies(d, m, suffixes, t).policies)
  {
    var ps, aside := t.policies, CollisionsAside(d, m, suffixes, t.policies);
    if UpgradeCommits(d, m, suffixes, t) {
      forall id, q | id in ps && q in ps && id != q && ps[id].org == ps[q].org && Collides(d, m, id, ps[id])
        ensures ps[q].name != Aside(m, id, suffixes(id))
      {
        assert aside[id].name == Aside(m, id, suffixes(id)) && aside[id].org == aside[q].org;
      }
      UpgradeKeepsUnique(d, m, suffixes, t);
    }
    if AsideNamesAreFree(d, m, suffixes, ps) {
      forall a, b | a in aside && b in aside && a != b
        ensures aside[a].org != aside[b].org || aside[a].name != aside[b].name
      {
        assert ps[a].org != ps[b].org || ps[a].name != ps[b].name;
      }
    }
  }

  lemma UpgradeKeepsUnique(d: Digest, m: Migration, suffixes: Suffixes, t: Tables)
    requires Valid(d, t) && UpgradeCommits(d, m, suffixes, t)
    ensures Unique(WithPolicies(d, m, suffixes, t).policies)
  {
    var aside := CollisionsAside(d, m, suffixes, t.policies);
    var ps := WithPolicies(d, m, suffixes, t).policies;
    forall a, b | a in ps && b in ps && a != b
      ensures ps[a].org != ps[b].org || ps[a].name != ps[b].name
    {
      PolicyAfterOrigin(d, m, suffixes, t, a);
      PolicyAfterOrigin(d, m, suffixes, t, b);
      if !IsManaged(d, m, a, ps[a]) && !IsManaged(d, m, b, ps[b]) {
        assert ps[a] == aside[a] && ps[b] == aside[b];
      }
    }
  }

  // ---- the upgrade ----

  lemma TheManagedIsNamed(d: Digest, m: Migration, ps: map<Uuid, Policy>, o: Uuid)
    requires Unique(ps)
    requires ManagedId(d, m, o) in ps && ps[ManagedId(d, m, o)] == ManagedRow(m, o)
    ensures HasNamed(ps, o, Reserved(m)) && TheNamed(ps, o, Reserved(m)) == ManagedId(d, m, o)
  {
    assert Named(ps, o, Reserved(m), ManagedId(d, m, o));
  }

  lemma TargetIsPinned(d: Digest, m: Migration, suffixes: Suffixes, t: Tables, r: Uuid)
    requires Valid(d, t) && UpgradeCommits(d, m, suffixes, t) && r in t.records
    ensures Upgraded(d, m, suffixes, t).records[r]
         == if Target(m, t, r) then t.records[r].(policy := ManagedId(d, m, t.records[r].org)) else t.records[r]
  {
    var w := WithPolicies(d, m, suffixes, t);
    assert Target(m, w, r) == Target(m, t, r);
    UpgradeKeepsUnique(d, m, suffixes, t);
    ManagedPolicyAfter(d, m, suffixes, t, t.records[r].org);
    TheManagedIsNamed(d, m, w.policies, t.records[r].org);
  }

  /** Row by row, what a committed upgrade does. The theorems below read it, not the bulk statements. */
  ghost predicate UpgradeShape(d: Digest, m: Migration, suffixes: Suffixes, t: Tables, t': Tables) {
    && t' == t.(policies := t'.policies, records := t'.records)
    && PoliciesShape(d, m, suffixes, t, t'.policies)
    && RecordsShape(d, m, t, t'.records)
  }

  ghost predicate PoliciesShape(d: Digest, m: Migration, suffixes: Suffixes, t: Tables, ps: map<Uuid, Policy>) {
    && (forall o :: o in t.orgs ==> ManagedId(d, m, o) in ps && ps[ManagedId(d, m, o)] == ManagedRow(m, o))
    && (forall id :: id in t.policies && !IsManaged(d, m, id, t.policies[id]) ==>
          id in ps && ps[id] == MovedAside(d, m, suffixes, id, t.policies[id]))
    && (forall id :: id in ps ==> OriginAfterUpgrade(d, m, t, id, ps[id]))
  }

  ghost predicate OriginAfterUpgrade(d: Digest, m: Migration, t: Tables, id: Uuid, p: Policy) {
    && p.org in t.orgs
    && (IsManaged(d, m, id, p) || (id in t.policies && t.policies[id].org == p.org && p.name != Reserved(m)))
  }

  ghost predicate RecordsShape(d: Digest, m: Migration, t: Tables, rs: map<Uuid, Record>) {
    && rs.Keys == t.records.Keys
    && (forall r :: r in t.records ==>
          rs[r] == if Target(m, t, r) then t.records[r].(policy := ManagedId(d, m, t.records[r].org)) else t.records[r])
  }

  lemma EveryOrigin(d: Digest, m: Migration, suffixes: Suffixes, t: Tables)
    requires Collisionless(d, t.orgs) && ManagedAtHome(d, t) && PoliciesHaveOrgs(t)
    ensures var ps := WithPolicies(d, m, suffixes, t).policies;
      forall id :: id in ps ==> OriginAfterUpgrade(d, m, t, id, ps[id])
  {
    var ps := WithPolicies(d, m, suffixes, t).policies;
    forall id | id in ps ensures OriginAfterUpgrade(d, m, t, id, ps[id]) {
      PolicyAfterOrigin(d, m, suffixes, t, id);
    }
  }

  lemma PoliciesHaveShape(d: Digest, m: Migration, suffixes: Suffixes, t: Tables)
    requires Collisionless(d, t.orgs) && ManagedAtHome(d, t) && PoliciesHaveOrgs(t)
    ensures PoliciesShape(d, m, suffixes, t, WithPolicies(d, m, suffixes, t).policies)
  {
    var ps := WithPolicies(d, m, suffixes, t).policies;
    forall o | o in t.orgs
      ensures ManagedId(d, m, o) in ps && ps[ManagedId(d, m, o)] == ManagedRow(m, o)
    {
      ManagedPolicyAfter(d, m, suffixes, t, o);
    }
    forall id | id in t.policies && !IsManaged(d, m, id, t.policies[id])
      ensures id in ps && ps[id] == MovedAside(d, m, suffixes, id, t.policies[id])
    {
      UserPolicyAfter(d, m, suffixes, t, id);
    }
    EveryOrigin(d, m, suffixes, t);
  }

  lemma RecordsHaveShape(d: Digest, m: Migration, suffixes: Suffixes, t: Tables)
    requires Valid(d, t) && UpgradeCommits(d, m, suffixes, t)
    ensures RecordsShape(d, m, t, Upgraded(d, m, suffixes, t).records)
  {
    forall r | r in t.records
      ensures Upgraded(d, m, suffixes, t).records[r]
           == if Target(m, t, r) then t.records[r].(policy := ManagedId(d, m, t.records[r].org)) else t.records[r]
    {
      TargetIsPinned(d, m, suffixes, t, r);
    }
  }

  lemma UpgradeHasShape(d: Digest, m: Migration, suffixes: Suffixes, t: Tables)
    requires Valid(d, t) && UpgradeCommits(d, m, suffixes, t)
    ensures UpgradeShape(d, m, suffixes, t, Upgraded(d, m, suffixes, t))
  {
    PoliciesHaveShape(d, m, suffixes, t);
    RecordsHaveShape(d, m, suffixes, t);
  }

  lemma ShapeKeepsPolicy(d: Digest, m: Migration, suffixes: Suffixes, t: Tables, ps: map<Uuid, Policy>, id: Uuid)
    requires PoliciesHaveOrgs(t) && PoliciesShape(d, m, suffixes, t, ps) && id in t.policies
    ensures id in ps
  {
  }

  lemma ShapeKeepsReferences(d: Digest, m: Migration, suffixes: Suffixes, t: Tables, t': Tables, id: Uuid)
    requires ForeignKeys(t) && UpgradeShape(d, m, suffixes, t, t') && Referenced(t', id)
    ensures id in t'.policies
  {
    if r :| r in t'.records && t'.records[r].policy == id {
      assert Referenced(t, t.records[r].policy);
      ShapeKeepsPolicy(d, m, suffixes, t, t'.policies, t.records[r].policy);
    } else {
      assert Referenced(t, id);
      ShapeKeepsPolicy(d, m, suffixes, t, t'.policies, id);
    }
  }

  lemma ShapeKeepsValid(d: Digest, m: Migration, suffixes: Suffixes, t: Tables, t': Tables)
    requires Valid(d, t) && UpgradeShape(d, m, suffixes, t, t') && Unique(t'.policies)
    ensures Valid(d, t')
  {
    forall id | Referenced(t', id) ensures id in t'.policies {
      ShapeKeepsReferences(d, m, suffixes, t, t', id);
    }
    forall n, o | o in t.orgs && ManagedId(d, n, o) in t'.policies
      ensures t'.policies[ManagedId(d, n, o)].org == o
    {
      assert OriginAfterUpgrade(d, m, t, ManagedId(d, n, o), t'.policies[ManagedId(d, n, o)]);
    }
  }

  lemma ShapeEstablishes(d: Digest, m: Migration, suffixes: Suffixes, t: Tables, t': Tables)
    requires UpgradeShape(d, m, suffixes, t, t')
    ensures Established(d, m, t')
  {
    forall r | r in t'.records ensures Target(m, t', r) == Target(m, t, r) {
    }
    forall id | id in t'.policies ensures OriginAfterUpgrade(d, m, t, id, t'.policies[id]) {
    }
  }

  /**
   From any valid tables, a committed upgrade leaves valid tables in which every org holds exactly
   one policy of the reserved name, which is the managed one, and every target is pinned to it and kept
   for good.
   */
  lemma UpgradeEstablishes(d: Digest, m: Migration, suffixes: Suffixes, t: Tables)
    requires Valid(d, t) && UpgradeCommits(d, m, suffixes, t)
    ensures Valid(d, Upgraded(d, m, suffixes, t))
    ensures Established(d, m, Upgraded(d, m, suffixes, t)) && TargetsForGood(m, Upgraded(d, m, suffixes, t))
  {
    UpgradeHasShape(d, m, suffixes, t);
    UpgradeKeepsUnique(d, m, suffixes, t);
    ShapeKeepsValid(d, m, suffixes, t, Upgraded(d, m, suffixes, t));
    ShapeEstablishes(d, m, suffixes, t, Upgraded(d, m, suffixes, t));
    EstablishedIsHeld(d, m, Upgraded(d, m, suffixes, t));
    HeldIsForGood(d, m, Upgraded(d, m, suffixes, t), t.orgs);
  }
}
