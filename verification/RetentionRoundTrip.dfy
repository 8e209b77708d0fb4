/** Upgrade and then downgrade: exactly when the policies, and the whole tables, come back. */
module RetentionRoundTrip {
  import opened Wrappers
  import opened RetentionNames
  import opened RetentionTables
  import opened RetentionTheorems
  import opened RetentionDowngrade

  /** No managed row yet, and no name that carries the migration's marker. */
  ghost predicate Pristine(d: Digest, m: Migration, t: Tables) {
    forall id :: id in t.policies ==>
      && !IsManaged(d, m, id, t.policies[id])
      && !(t.policies[id].name.Aside? && t.policies[id].name.m == m)
  }

  /** From pristine tables the upgrade never aborts, whatever the random suffixes are. */
  lemma PristineUpgradeCommits(d: Digest, m: Migration, suffixes: Suffixes, t: Tables)
    requires Valid(d, t) && Pristine(d, m, t)
    ensures UpgradeCommits(d, m, suffixes, t)
  {
  }

  /** Every use of the managed row of `o` is a target's pin that the downgrade can move to a default. */
  ghost predicate OnlyTargetsUse(d: Digest, m: Migration, t: Tables, o: Uuid) {
    && (forall dt :: dt in t.documentTypes ==> t.documentTypes[dt] != Some(ManagedId(d, m, o)))
    && (forall e :: e in t.events ==> t.events[e] != Some(ManagedId(d, m, o)))
    && (forall r :: r in t.records && t.records[r].policy == ManagedId(d, m, o) ==>
          Target(m, t, r) && t.records[r].org == o && HasNamed(t.policies, o, SystemDefault))
  }

  lemma UnpinnedUses(d: Digest, m: Migration, t: Tables, o: Uuid)
    requires Valid(d, t) && o in t.orgs && ManagedId(d, m, o) in t.policies
    requires t.policies[ManagedId(d, m, o)].name != SystemDefault
    ensures Referenced(Unpinned(d, m, t), ManagedId(d, m, o)) <==> !OnlyTargetsUse(d, m, t, o)
  {
    var id := ManagedId(d, m, o);
    var u := Unpinned(d, m, t);
    forall r | r in t.records
      ensures u.records[r].policy == id <==>
        t.records[r].policy == id
          && !(Target(m, t, r) && t.records[r].org == o && HasNamed(t.policies, o, SystemDefault))
    {
    }
  }

  /** Tables that differ from a fresh upgrade only in what records, document types and events refer to. */
  ghost predicate InUse(d: Digest, m: Migration, suffixes: Suffixes, t: Tables, t2: Tables)
    requires Collisionless(d, t.orgs)
  {
    Valid(d, t2) && t2.orgs == t.orgs && t2.policies == Upgraded(d, m, suffixes, t).policies
  }

  lemma AsideComesBack(d: Digest, m: Migration, up: Suffixes, down: Suffixes, t: Tables, t2: Tables, id: Uuid)
    requires Valid(d, t) && Pristine(d, m, t) && PoliciesShape(d, m, up, t, t2.policies) && t2.orgs == t.orgs
    requires id in t.policies
    ensures id in t2.policies && !IsManaged(d, m, id, t2.policies[id])
    ensures t2.policies[id].(name := NameAfter(d, m, down, t2, id)) == t.policies[id]
  {
    assert t2.policies[id] == MovedAside(d, m, up, id, t.policies[id]);
    assert OriginAfterUpgrade(d, m, t, id, t2.policies[id]);
    forall q | q in t2.policies ensures !Collides(d, m, q, t2.policies[q]) {
      assert OriginAfterUpgrade(d, m, t, q, t2.policies[q]);
    }
  }

  /** The downgraded policies: all the old ones as they were, and the managed rows still in use. */
  lemma PoliciesComeBack(d: Digest, m: Migration, up: Suffixes, down: Suffixes, t: Tables, u: Tables, t3: Tables)
    requires Valid(d, t) && Pristine(d, m, t) && PoliciesShape(d, m, up, t, u.policies) && u.orgs == t.orgs
    requires DowngradeShape(d, m, down, u, t3)
    ensures forall id :: id in t.policies ==> id in t3.policies && t3.policies[id] == t.policies[id]
    ensures forall id :: id in t3.policies && id !in t.policies ==>
      t3.policies[id].org in t.orgs && IsManaged(d, m, id, t3.policies[id]) && Referenced(u, id)
    ensures forall o :: o in t.orgs ==>
      ManagedId(d, m, o) !in t.policies && (ManagedId(d, m, o) in t3.policies <==> Referenced(u, ManagedId(d, m, o)))
  {
    forall id | id in t.policies ensures id in t3.policies && t3.policies[id] == t.policies[id] {
      AsideComesBack(d, m, up, down, t, u, id);
    }
    forall id | id in t3.policies && id !in t.policies
      ensures t3.policies[id].org in t.orgs && IsManaged(d, m, id, t3.policies[id]) && Referenced(u, id)
    {
      assert OriginAfterUpgrade(d, m, t, id, u.policies[id]);
    }
  }

  /**
   After a fresh upgrade and any use of the policies, the downgrade gives every policy its id, name
   and settings back, and leaves no managed row, if and only if each managed row was used by nothing
   but targets of orgs that have a default policy.
   */
  lemma PoliciesRoundTrip(d: Digest, m: Migration, up: Suffixes, down: Suffixes, t: Tables, t2: Tables)
    requires Valid(d, t) && Pristine(d, m, t) && InUse(d, m, up, t, t2)
    ensures Downgraded(d, m, down, t2).policies == t.policies <==>
      (forall o :: o in t.orgs ==> OnlyTargetsUse(d, m, t2, o))
  {
    PoliciesHaveShape(d, m, up, t);
    DowngradeHasShape(d, m, down, t2);
    PoliciesComeBack(d, m, up, down, t, Unpinned(d, m, t2), Downgraded(d, m, down, t2));
    forall o | o in t.orgs
      ensures Referenced(Unpinned(d, m, t2), ManagedId(d, m, o)) <==> !OnlyTargetsUse(d, m, t2, o)
    {
      UnpinnedUses(d, m, t2, o);
    }
    SameExactly(d, m, t, Unpinned(d, m, t2), Downgraded(d, m, down, t2));
  }

  lemma SameExactly(d: Digest, m: Migration, t: Tables, u: Tables, t3: Tables)
    requires forall id :: id in t.policies ==> id in t3.policies && t3.policies[id] == t.policies[id]
    requires forall id :: id in t3.policies && id !in t.policies ==>
      t3.policies[id].org in t.orgs && IsManaged(d, m, id, t3.policies[id]) && Referenced(u, id)
    requires forall o :: o in t.orgs ==>
      ManagedId(d, m, o) !in t.policies && (ManagedId(d, m, o) in t3.policies <==> Referenced(u, ManagedId(d, m, o)))
    ensures t3.policies == t.policies <==> (forall o :: o in t.orgs ==> !Referenced(u, ManagedId(d, m, o)))
  {
  }

  // ---- the records, and the whole ----

  lemma SameDefaults(d: Digest, m: Migration, up: Suffixes, t: Tables, ps: map<Uuid, Policy>, org: Uuid, id: Uuid)
    requires PoliciesHaveOrgs(t) && Pristine(d, m, t) && PoliciesShape(d, m, up, t, ps)
    ensures Named(ps, org, SystemDefault, id) <==> Named(t.policies, org, SystemDefault, id)
  {
    if id in ps {
      assert OriginAfterUpgrade(d, m, t, id, ps[id]);
      if id !in t.policies {
        assert id == ManagedId(d, m, ps[id].org);
      }
    }
  }

  lemma SameNamed(ps: map<Uuid, Policy>, qs: map<Uuid, Policy>, org: Uuid, name: PolicyName)
    requires Unique(ps) && Unique(qs)
    requires forall id :: Named(ps, org, name, id) <==> Named(qs, org, name, id)
    ensures HasNamed(ps, org, name) <==> HasNamed(qs, org, name)
    ensures HasNamed(ps, org, name) ==> TheNamed(ps, org, name) == TheNamed(qs, org, name)
  {
    if id :| Named(ps, org, name, id) {
      assert Named(qs, org, name, id);
    }
    if id :| Named(qs, org, name, id) {
      assert Named(ps, org, name, id);
    }
  }

  lemma DefaultSurvives(d: Digest, m: Migration, up: Suffixes, t: Tables, ps: map<Uuid, Policy>, org: Uuid)
    requires Valid(d, t) && Pristine(d, m, t) && PoliciesShape(d, m, up, t, ps) && Unique(ps)
    ensures HasNamed(ps, org, SystemDefault) <==> HasNamed(t.policies, org, SystemDefault)
    ensures HasNamed(ps, org, SystemDefault) ==>
      TheNamed(ps, org, SystemDefault) == TheNamed(t.policies, org, SystemDefault)
  {
    forall id ensures Named(ps, org, SystemDefault, id) <==> Named(t.policies, org, SystemDefault, id) {
      SameDefaults(d, m, up, t, ps, org, id);
    }
    SameNamed(ps, t.policies, org, SystemDefault);
  }

  lemma RecordAfterTrip(d: Digest, m: Migration, up: Suffixes, t: Tables, t1: Tables, r: Uuid)
    requires Valid(d, t) && Pristine(d, m, t) && UpgradeShape(d, m, up, t, t1) && Unique(t1.policies)
    requires r in t.records
    ensures var org := t.records[r].org;
      Unpinned(d, m, t1).records[r] ==
        if !Target(m, t, r) then t.records[r]
        else if HasNamed(t.policies, org, SystemDefault) then Record(org, TheNamed(t.policies, org, SystemDefault))
        else Record(org, ManagedId(d, m, org))
  {
    assert Target(m, t1, r) == Target(m, t, r);
    DefaultSurvives(d, m, up, t, t1.policies, t.records[r].org);
  }

  /** The record is not a target, or its org has a default policy and it was pinned to that. */
  ghost predicate StartedOnDefault(m: Migration, t: Tables, r: Uuid)
    requires r in t.records
  {
    var org := t.records[r].org;
    Target(m, t, r) ==>
      HasNamed(t.policies, org, SystemDefault) && t.records[r].policy == TheNamed(t.policies, org, SystemDefault)
  }

  lemma RecordComesBack(d: Digest, m: Migration, up: Suffixes, t: Tables, t1: Tables, r: Uuid)
    requires Valid(d, t) && Pristine(d, m, t) && UpgradeShape(d, m, up, t, t1) && Unique(t1.policies)
    requires r in t.records
    ensures Unpinned(d, m, t1).records[r] == t.records[r] <==> StartedOnDefault(m, t, r)
  {
    RecordAfterTrip(d, m, up, t, t1, r);
    assert Referenced(t, t.records[r].policy);
  }

  lemma FreshUser(d: Digest, m: Migration, up: Suffixes, t: Tables, t1: Tables, o: Uuid, r: Uuid)
    requires Valid(d, t) && Pristine(d, m, t) && UpgradeShape(d, m, up, t, t1) && o in t.orgs
    requires r in t1.records && t1.records[r].policy == ManagedId(d, m, o)
    ensures r in t.records && Target(m, t, r) && Target(m, t1, r) && t.records[r].org == t1.records[r].org == o
  {
    assert !Referenced(t, ManagedId(d, m, o));
    assert Target(m, t1, r) == Target(m, t, r);
  }

  /** A fresh managed row is used by its org's targets alone. */
  lemma FreshUse(d: Digest, m: Migration, up: Suffixes, t: Tables, t1: Tables, o: Uuid)
    requires Valid(d, t) && Pristine(d, m, t) && UpgradeShape(d, m, up, t, t1) && Unique(t1.policies) && o in t.orgs
    requires forall r :: r in t.records ==> StartedOnDefault(m, t, r)
    ensures OnlyTargetsUse(d, m, t1, o)
  {
    DefaultSurvives(d, m, up, t, t1.policies, o);
    forall r | r in t1.records && t1.records[r].policy == ManagedId(d, m, o)
      ensures Target(m, t1, r) && t1.records[r].org == o && HasNamed(t1.policies, o, SystemDefault)
    {
      FreshUser(d, m, up, t, t1, o, r);
      assert StartedOnDefault(m, t, r);
    }
  }

  lemma TripRecords(d: Digest, m: Migration, up: Suffixes, t: Tables, t1: Tables)
    requires Valid(d, t) && Pristine(d, m, t) && UpgradeShape(d, m, up, t, t1) && Unique(t1.policies)
    ensures forall r :: r in t.records ==>
      (Unpinned(d, m, t1).records[r] == t.records[r] <==> StartedOnDefault(m, t, r))
  {
    forall r | r in t.records
      ensures Unpinned(d, m, t1).records[r] == t.records[r] <==> StartedOnDefault(m, t, r)
    {
      RecordComesBack(d, m, up, t, t1, r);
    }
  }

  lemma TripPolicies(d: Digest, m: Migration, up: Suffixes, down: Suffixes, t: Tables)
    requires Valid(d, t) && Pristine(d, m, t) && UpgradeCommits(d, m, up, t)
    requires forall r :: r in t.records ==> StartedOnDefault(m, t, r)
    ensures Downgraded(d, m, down, Upgraded(d, m, up, t)).policies == t.policies
  {
    var t1 := Upgraded(d, m, up, t);
    UpgradeEstablishes(d, m, up, t);
    UpgradeHasShape(d, m, up, t);
    forall o | o in t.orgs ensures OnlyTargetsUse(d, m, t1, o) {
      FreshUse(d, m, up, t, t1, o);
    }
    PoliciesRoundTrip(d, m, up, down, t, t1);
  }

  /** Managed rows that nothing but such targets uses are gone before anything could clash with their retired names. */
  lemma NothingToRetire(d: Digest, m: Migration, down: Suffixes, t1: Tables)
    requires Valid(d, t1) && Established(d, m, t1)
    requires forall o :: o in t1.orgs ==> OnlyTargetsUse(d, m, t1, o)
    ensures SuffixesAreFree(d, m, down, Unpinned(d, m, t1))
  {
    var u := Unpinned(d, m, t1);
    forall id | id in u.policies && IsManaged(d, m, id, u.policies[id]) ensures !Kept(d, m, u, id) {
      var o := u.policies[id].org;
      assert ManagedRow(m, o).name != SystemDefault;
      UnpinnedUses(d, m, t1, o);
    }
  }

  lemma TripCommits(d: Digest, m: Migration, up: Suffixes, down: Suffixes, t: Tables)
    requires Valid(d, t) && Pristine(d, m, t) && UpgradeCommits(d, m, up, t)
    requires forall r :: r in t.records ==> StartedOnDefault(m, t, r)
    ensures DowngradeCommits(d, m, down, Upgraded(d, m, up, t))
  {
    var t1 := Upgraded(d, m, up, t);
    UpgradeEstablishes(d, m, up, t);
    UpgradeHasShape(d, m, up, t);
    forall o | o in t1.orgs ensures OnlyTargetsUse(d, m, t1, o) {
      FreshUse(d, m, up, t, t1, o);
    }
    NothingToRetire(d, m, down, t1);
    RetireUnique(d, m, down, Unpinned(d, m, t1), BeforeRestoring(d, m, down, t1).policies);
    TripPolicies(d, m, up, down, t);
  }

  lemma TripTables(d: Digest, m: Migration, up: Suffixes, down: Suffixes, t: Tables)
    requires Valid(d, t) && Pristine(d, m, t) && UpgradeCommits(d, m, up, t)
    ensures var t3 := Downgraded(d, m, down, Upgraded(d, m, up, t));
      && t3 == t.(policies := t3.policies, records := t3.records) && t3.records.Keys == t.records.Keys
      && forall r :: r in t.records ==> (t3.records[r] == t.records[r] <==> StartedOnDefault(m, t, r))
  {
    var t1 := Upgraded(d, m, up, t);
    UpgradeEstablishes(d, m, up, t);
    UpgradeHasShape(d, m, up, t);
    TripRecords(d, m, up, t, t1);
    DowngradeHasShape(d, m, down, t1);
  }

  lemma TripIsExact(d: Digest, m: Migration, up: Suffixes, down: Suffixes, t: Tables)
    requires Valid(d, t) && Pristine(d, m, t) && UpgradeCommits(d, m, up, t)
    ensures Downgraded(d, m, down, Upgraded(d, m, up, t)) == t <==>
      (forall r :: r in t.records ==> StartedOnDefault(m, t, r))
  {
    TripTables(d, m, up, down, t);
    if forall r :: r in t.records ==> StartedOnDefault(m, t, r) {
      TripPolicies(d, m, up, down, t);
    }
    TripEndsWell(m, t, Downgraded(d, m, down, Upgraded(d, m, up, t)));
  }

  /**
   The downgrade undoes the upgrade, table for table, if and only if every target record started on
   its org's default policy: the downgrade knows no other policy to send a target back to. Both
   directions of such a trip commit, whatever the random suffixes are.
   */
  lemma RoundTrip(d: Digest, m: Migration, up: Suffixes, down: Suffixes, t: Tables)
    requires Valid(d, t) && Pristine(d, m, t)
    ensures UpgradeCommits(d, m, up, t)
    ensures Downgraded(d, m, down, Upgraded(d, m, up, t)) == t <==>
      (forall r :: r in t.records ==> StartedOnDefault(m, t, r))
    ensures Downgraded(d, m, down, Upgraded(d, m, up, t)) == t ==> DowngradeCommits(d, m, down, Upgraded(d, m, up, t))
  {
    PristineUpgradeCommits(d, m, up, t);
    TripIsExact(d, m, up, down, t);
    if forall r :: r in t.records ==> StartedOnDefault(m, t, r) {
      TripCommits(d, m, up, down, t);
    }
  }

  lemma TripEndsWell(m: Migration, t: Tables, t3: Tables)
    requires t3 == t.(policies := t3.policies, records := t3.records) && t3.records.Keys == t.records.Keys
    requires forall r :: r in t.records ==> (t3.records[r] == t.records[r] <==> StartedOnDefault(m, t, r))
    requires (forall r :: r in t.records ==> StartedOnDefault(m, t, r)) ==> t3.policies == t.policies
    ensures t3 == t <==> (forall r :: r in t.records ==> StartedOnDefault(m, t, r))
  {
    if forall r :: r in t.records ==> StartedOnDefault(m, t, r) {
      assert t3.records == t.records;
    }
  }
}
