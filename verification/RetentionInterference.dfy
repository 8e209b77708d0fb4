/** The two migrations do not disturb each other, and their upgrades commute. */
module RetentionInterference {
  import opened RetentionNames
  import opened RetentionTables
  import opened RetentionTheorems
  import opened RetentionDowngrade

  /** No record is both a sealed pack and an import report. */
  predicate TargetsDisjoint(t: Tables) {
    forall r :: r in t.records ==> !(Target(SealedPack0077, t, r) && Target(ImportReport0090, t, r))
  }

  lemma OtherManagedRowStays(d: Digest, m: Migration, n: Migration, suffixes: Suffixes, t: Tables, t': Tables, o: Uuid)
    requires m != n && Collisionless(d, t.orgs) && PoliciesShape(d, m, suffixes, t, t'.policies) && o in t.orgs
    ensures ManagedId(d, n, o) in t'.policies ==> ManagedId(d, n, o) in t.policies
    ensures ManagedId(d, n, o) in t.policies && t.policies[ManagedId(d, n, o)] == ManagedRow(n, o) ==>
      ManagedId(d, n, o) in t'.policies && t'.policies[ManagedId(d, n, o)] == ManagedRow(n, o)
  {
    var id := ManagedId(d, n, o);
    if id in t'.policies {
      assert OriginAfterUpgrade(d, m, t, id, t'.policies[id]);
    }
    assert !IsManaged(d, m, id, ManagedRow(n, o));
  }

  lemma OtherNameStaysManaged(d: Digest, m: Migration, n: Migration, suffixes: Suffixes, t: Tables, t': Tables,
          id: Uuid)
    requires m != n && Collisionless(d, t.orgs) && PoliciesShape(d, m, suffixes, t, t'.policies)
    requires forall q :: q in t.policies && t.policies[q].name == Reserved(n) ==> IsManaged(d, n, q, t.policies[q])
    requires id in t'.policies && t'.policies[id].name == Reserved(n)
    ensures IsManaged(d, n, id, t'.policies[id])
  {
    assert OriginAfterUpgrade(d, m, t, id, t'.policies[id]);
    assert t'.policies[id] != ManagedRow(m, t'.policies[id].org);
    assert !IsManaged(d, m, id, t.policies[id]);
  }

  /** An upgrade of one migration keeps what the other promises. */
  lemma HeldSurvivesUpgrade(d: Digest, m: Migration, n: Migration, suffixes: Suffixes, t: Tables, t': Tables,
          served: set<Uuid>)
    requires m != n && Valid(d, t) && TargetsDisjoint(t) && Held(d, n, t, served)
    requires UpgradeShape(d, m, suffixes, t, t')
    ensures Held(d, n, t', served)
  {
    forall o | o in t.orgs
      ensures ManagedId(d, n, o) in t'.policies <==> ManagedId(d, n, o) in t.policies
      ensures ManagedId(d, n, o) in t'.policies ==> t'.policies[ManagedId(d, n, o)] == ManagedRow(n, o)
    {
      OtherManagedRowStays(d, m, n, suffixes, t, t', o);
    }
    forall id | id in t'.policies && t'.policies[id].name == Reserved(n)
      ensures IsManaged(d, n, id, t'.policies[id])
    {
      OtherNameStaysManaged(d, m, n, suffixes, t, t', id);
    }
    forall r | r in t'.records && Target(n, t', r)
      ensures t'.records[r].policy == ManagedId(d, n, t'.records[r].org)
    {
      assert Target(n, t, r) && !Target(m, t, r);
    }
  }

  lemma EstablishedSurvivesUpgrade(d: Digest, m: Migration, n: Migration, suffixes: Suffixes, t: Tables, t': Tables)
    requires m != n && Valid(d, t) && TargetsDisjoint(t) && Established(d, n, t)
    requires UpgradeShape(d, m, suffixes, t, t')
    ensures Established(d, n, t')
  {
    EstablishedIsHeld(d, n, t);
    HeldSurvivesUpgrade(d, m, n, suffixes, t, t', t.orgs);
    EstablishedIsHeld(d, n, t');
  }

  lemma OtherPolicySurvives(d: Digest, m: Migration, n: Migration, suffixes: Suffixes, u: Tables, t': Tables, o: Uuid)
    requires m != n && Collisionless(d, u.orgs) && DowngradeShape(d, m, suffixes, u, t') && o in u.orgs
    ensures ManagedId(d, n, o) in t'.policies ==> ManagedId(d, n, o) in u.policies
    ensures ManagedId(d, n, o) in u.policies && u.policies[ManagedId(d, n, o)] == ManagedRow(n, o) ==>
      ManagedId(d, n, o) in t'.policies && t'.policies[ManagedId(d, n, o)] == ManagedRow(n, o)
  {
    assert !IsManaged(d, m, ManagedId(d, n, o), ManagedRow(n, o));
  }

  /** A downgrade of one migration keeps what the other promises. */
  lemma HeldSurvivesDowngrade(d: Digest, m: Migration, n: Migration, suffixes: Suffixes, t: Tables, served: set<Uuid>)
    requires m != n && Valid(d, t) && TargetsDisjoint(t) && Held(d, n, t, served)
    ensures Held(d, n, Downgraded(d, m, suffixes, t), served)
  {
    var u := Unpinned(d, m, t);
    DowngradeHasShape(d, m, suffixes, t);
    UnpinKeepsHeld(d, m, n, t, served);
    HeldInShape(d, m, n, suffixes, u, Downgraded(d, m, suffixes, t), served);
  }

  lemma EstablishedSurvivesDowngrade(d: Digest, m: Migration, n: Migration, suffixes: Suffixes, t: Tables)
    requires m != n && Valid(d, t) && TargetsDisjoint(t) && Established(d, n, t)
    ensures Established(d, n, Downgraded(d, m, suffixes, t))
  {
    EstablishedIsHeld(d, n, t);
    HeldSurvivesDowngrade(d, m, n, suffixes, t, t.orgs);
    EstablishedIsHeld(d, n, Downgraded(d, m, suffixes, t));
  }

  lemma UnpinKeepsHeld(d: Digest, m: Migration, n: Migration, t: Tables, served: set<Uuid>)
    requires m != n && TargetsDisjoint(t) && Held(d, n, t, served)
    ensures Held(d, n, Unpinned(d, m, t), served)
  {
    var u := Unpinned(d, m, t);
    forall r | r in u.records && Target(n, u, r)
      ensures u.records[r].policy == ManagedId(d, n, u.records[r].org)
    {
      assert Target(n, t, r) && !Target(m, t, r);
    }
  }

  lemma HeldInShape(d: Digest, m: Migration, n: Migration, suffixes: Suffixes, u: Tables, t': Tables, served: set<Uuid>)
    requires m != n && Collisionless(d, u.orgs) && Held(d, n, u, served) && DowngradeShape(d, m, suffixes, u, t')
    ensures Held(d, n, t', served)
  {
    forall o | o in u.orgs
      ensures ManagedId(d, n, o) in t'.policies <==> ManagedId(d, n, o) in u.policies
      ensures ManagedId(d, n, o) in t'.policies ==> t'.policies[ManagedId(d, n, o)] == ManagedRow(n, o)
    {
      OtherPolicySurvives(d, m, n, suffixes, u, t', o);
    }
    forall id | id in t'.policies && t'.policies[id].name == Reserved(n) ensures IsManaged(d, n, id, t'.policies[id]) {
      assert u.policies[id].name == Reserved(n);
    }
    forall r | r in t'.records && Target(n, t', r)
      ensures t'.records[r].policy == ManagedId(d, n, t'.records[r].org)
    {
      assert Target(n, u, r);
    }
  }

  // ---- the upgrades commute ----

  /** Shapes of upgrading `m` and then `n`, by way of `a`. */
  ghost predicate Both(d: Digest, m: Migration, n: Migration, sm: Suffixes, sn: Suffixes,
                       t: Tables, a: Tables, b: map<Uuid, Policy>)
  {
    && m != n && Collisionless(d, t.orgs) && PoliciesHaveOrgs(t) && a.orgs == t.orgs
    && PoliciesShape(d, m, sm, t, a.policies)
    && PoliciesShape(d, n, sn, a, b)
  }

  lemma FirstManagedRow(d: Digest, m: Migration, n: Migration, sm: Suffixes, sn: Suffixes,
                        t: Tables, a: Tables, b: map<Uuid, Policy>, o: Uuid)
    requires Both(d, m, n, sm, sn, t, a, b) && o in t.orgs
    ensures ManagedId(d, m, o) in b && b[ManagedId(d, m, o)] == ManagedRow(m, o)
  {
    assert !IsManaged(d, n, ManagedId(d, m, o), ManagedRow(m, o));
  }

  lemma SecondManagedRow(d: Digest, m: Migration, n: Migration, sm: Suffixes, sn: Suffixes,
                         t: Tables, a: Tables, b: map<Uuid, Policy>, o: Uuid)
    requires Both(d, m, n, sm, sn, t, a, b) && o in t.orgs
    ensures ManagedId(d, n, o) in b && b[ManagedId(d, n, o)] == ManagedRow(n, o)
  {
  }

  ghost predicate NobodysManaged(d: Digest, m: Migration, n: Migration, orgs: set<Uuid>, id: Uuid) {
    forall o :: o in orgs ==> id != ManagedId(d, m, o) && id != ManagedId(d, n, o)
  }

  lemma UserRowAppears(d: Digest, m: Migration, n: Migration, sm: Suffixes, sn: Suffixes,
                       t: Tables, a: Tables, b: map<Uuid, Policy>, id: Uuid)
    requires Both(d, m, n, sm, sn, t, a, b) && NobodysManaged(d, m, n, t.orgs, id)
    ensures id in b ==> id in t.policies
  {
    if id in b {
      assert OriginAfterUpgrade(d, n, a, id, b[id]);
      assert id in a.policies;
      assert OriginAfterUpgrade(d, m, t, id, a.policies[id]);
    }
  }

  lemma UserRowMoves(d: Digest, m: Migration, suffixes: Suffixes, t: Tables, ps: map<Uuid, Policy>, id: Uuid)
    requires PoliciesShape(d, m, suffixes, t, ps) && id in t.policies && !IsManaged(d, m, id, t.policies[id])
    ensures id in ps && ps[id] == MovedAside(d, m, suffixes, id, t.policies[id]) && ps[id].org == t.policies[id].org
  {
  }

  lemma UserRowIs(d: Digest, m: Migration, n: Migration, sm: Suffixes, sn: Suffixes,
                  t: Tables, a: Tables, b: map<Uuid, Policy>, id: Uuid)
    requires Both(d, m, n, sm, sn, t, a, b) && NobodysManaged(d, m, n, t.orgs, id) && id in t.policies
    ensures id in b && b[id] == MovedAside(d, n, sn, id, MovedAside(d, m, sm, id, t.policies[id]))
  {
    var org := t.policies[id].org;
    assert org in t.orgs && id != ManagedId(d, m, org) && id != ManagedId(d, n, org);
    UserRowMoves(d, m, sm, t, a.policies, id);
    UserRowMoves(d, n, sn, a, b, id);
  }

  /** Either order gives the row the same name: it cannot bear both reserved names. */
  lemma MovesCommute(d: Digest, m: Migration, n: Migration, sm: Suffixes, sn: Suffixes, id: Uuid, p: Policy)
    requires m != n
    ensures MovedAside(d, n, sn, id, MovedAside(d, m, sm, id, p))
         == MovedAside(d, m, sm, id, MovedAside(d, n, sn, id, p))
  {
  }

  lemma UserRowStays(d: Digest, m: Migration, n: Migration, sm: Suffixes, sn: Suffixes,
                     t: Tables, a: Tables, b: map<Uuid, Policy>, id: Uuid)
    requires Both(d, m, n, sm, sn, t, a, b) && NobodysManaged(d, m, n, t.orgs, id)
    ensures id in b <==> id in t.policies
    ensures id in b ==> b[id] == MovedAside(d, n, sn, id, MovedAside(d, m, sm, id, t.policies[id]))
  {
    UserRowAppears(d, m, n, sm, sn, t, a, b, id);
    if id in t.policies {
      UserRowIs(d, m, n, sm, sn, t, a, b, id);
    }
  }

  lemma SameUserRow(d: Digest, m: Migration, n: Migration, sm: Suffixes, sn: Suffixes, t: Tables,
                    a: Tables, ab: map<Uuid, Policy>, b: Tables, ba: map<Uuid, Policy>, id: Uuid)
    requires Both(d, m, n, sm, sn, t, a, ab) && Both(d, n, m, sn, sm, t, b, ba)
    requires NobodysManaged(d, m, n, t.orgs, id)
    ensures id in ab <==> id in ba
    ensures id in ab ==> ab[id] == ba[id]
  {
    UserRowStays(d, m, n, sm, sn, t, a, ab, id);
    UserRowStays(d, n, m, sn, sm, t, b, ba, id);
    if id in t.policies {
      MovesCommute(d, m, n, sm, sn, id, t.policies[id]);
    }
  }

  lemma SameManagedRows(d: Digest, m: Migration, n: Migration, sm: Suffixes, sn: Suffixes, t: Tables,
                        a: Tables, ab: map<Uuid, Policy>, b: Tables, ba: map<Uuid, Policy>, o: Uuid, id: Uuid)
    requires Both(d, m, n, sm, sn, t, a, ab) && Both(d, n, m, sn, sm, t, b, ba)
    requires o in t.orgs && (id == ManagedId(d, m, o) || id == ManagedId(d, n, o))
    ensures id in ab && id in ba && ab[id] == ba[id]
  {
    FirstManagedRow(d, m, n, sm, sn, t, a, ab, o);
    FirstManagedRow(d, n, m, sn, sm, t, b, ba, o);
    SecondManagedRow(d, m, n, sm, sn, t, a, ab, o);
    SecondManagedRow(d, n, m, sn, sm, t, b, ba, o);
  }

  lemma SameRowEitherWay(d: Digest, m: Migration, n: Migration, sm: Suffixes, sn: Suffixes, t: Tables,
                         a: Tables, ab: map<Uuid, Policy>, b: Tables, ba: map<Uuid, Policy>, id: Uuid)
    requires Both(d, m, n, sm, sn, t, a, ab) && Both(d, n, m, sn, sm, t, b, ba)
    ensures id in ab <==> id in ba
    ensures id in ab ==> ab[id] == ba[id]
  {
    if NobodysManaged(d, m, n, t.orgs, id) {
      SameUserRow(d, m, n, sm, sn, t, a, ab, b, ba, id);
    } else {
      var o :| o in t.orgs && (id == ManagedId(d, m, o) || id == ManagedId(d, n, o));
      SameManagedRows(d, m, n, sm, sn, t, a, ab, b, ba, o, id);
    }
  }

  lemma PoliciesCommute(d: Digest, m: Migration, n: Migration, sm: Suffixes, sn: Suffixes, t: Tables,
                        a: Tables, ab: map<Uuid, Policy>, b: Tables, ba: map<Uuid, Policy>)
    requires Both(d, m, n, sm, sn, t, a, ab) && Both(d, n, m, sn, sm, t, b, ba)
    ensures ab == ba
  {
    forall id
      ensures id in ab <==> id in ba
      ensures id in ab ==> ab[id] == ba[id]
    {
      SameRowEitherWay(d, m, n, sm, sn, t, a, ab, b, ba, id);
    }
  }

  lemma RecordsCommute(d: Digest, m: Migration, n: Migration, t: Tables,
                       a: Tables, ab: map<Uuid, Record>, b: Tables, ba: map<Uuid, Record>)
    requires m != n && TargetsDisjoint(t)
    requires a == t.(policies := a.policies, records := a.records)
    requires b == t.(policies := b.policies, records := b.records)
    requires RecordsShape(d, m, t, a.records) && RecordsShape(d, n, a, ab)
    requires RecordsShape(d, n, t, b.records) && RecordsShape(d, m, b, ba)
    ensures ab == ba
  {
    forall r | r in t.records ensures ab[r] == ba[r] {
      assert Target(n, a, r) == Target(n, t, r) && Target(m, b, r) == Target(m, t, r);
    }
  }

  /** Both orders of the two upgrades lead to the same tables. */
  lemma UpgradesCommute(d: Digest, m: Migration, n: Migration, sm: Suffixes, sn: Suffixes, t: Tables)
    requires m != n && Valid(d, t) && TargetsDisjoint(t)
    requires UpgradeCommits(d, m, sm, t) && UpgradeCommits(d, n, sn, Upgraded(d, m, sm, t))
    requires UpgradeCommits(d, n, sn, t) && UpgradeCommits(d, m, sm, Upgraded(d, n, sn, t))
    ensures Upgraded(d, n, sn, Upgraded(d, m, sm, t)) == Upgraded(d, m, sm, Upgraded(d, n, sn, t))
  {
    var a, b := Upgraded(d, m, sm, t), Upgraded(d, n, sn, t);
    UpgradeEstablishes(d, m, sm, t);
    UpgradeEstablishes(d, n, sn, t);
    UpgradeHasShape(d, m, sm, t);
    UpgradeHasShape(d, n, sn, t);
    UpgradeHasShape(d, n, sn, a);
    UpgradeHasShape(d, m, sm, b);
    ShapesCommute(d, m, n, sm, sn, t, a, Upgraded(d, n, sn, a), b, Upgraded(d, m, sm, b));
  }

  lemma ShapesCommute(d: Digest, m: Migration, n: Migration, sm: Suffixes, sn: Suffixes, t: Tables,
                      a: Tables, ab: Tables, b: Tables, ba: Tables)
    requires m != n && Collisionless(d, t.orgs) && PoliciesHaveOrgs(t) && TargetsDisjoint(t)
    requires UpgradeShape(d, m, sm, t, a) && UpgradeShape(d, n, sn, a, ab)
    requires UpgradeShape(d, n, sn, t, b) && UpgradeShape(d, m, sm, b, ba)
    ensures ab == ba
  {
    PoliciesCommute(d, m, n, sm, sn, t, a, ab.policies, b, ba.policies);
    RecordsCommute(d, m, n, t, a, ab.records, b, ba.records);
  }
}
