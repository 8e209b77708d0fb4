/** In every reachable state a migration commits, in either direction, and keeps the invariant. */
module RetentionMigrating {
  import opened RetentionNames
  import opened RetentionTables
  import opened RetentionTheorems
  import opened RetentionDowngrade
  import opened RetentionInterference
  import opened RetentionState

  // ---- user policies ----

  lemma UserFitsAside(d: Digest, m: Migration, suffixes: Suffixes, up: set<Migration>, id: Uuid, was: Policy, p: Policy)
    requires UserFits(up, id, was, p) && !IsManaged(d, m, id, was)
    ensures UserFits(up + {m}, id, was, MovedAside(d, m, suffixes, id, p))
  {
  }

  lemma AddedRowUp(d: Digest, m: Migration, suffixes: Suffixes, t: Tables, ps: map<Uuid, Policy>, id: Uuid)
    requires PoliciesShape(d, m, suffixes, t, ps) && id in ps
    requires id in t.policies ==> AddedRow(d, id, t.policies[id])
    ensures AddedRow(d, id, ps[id])
  {
    assert OriginAfterUpgrade(d, m, t, id, ps[id]);
    if IsManaged(d, m, id, ps[id]) {
      assert OwnName(m, id, ps[id].name);
    } else {
      assert !IsManaged(d, m, id, t.policies[id]);
      var n :| IsManaged(d, n, id, t.policies[id]) && OwnName(n, id, t.policies[id].name);
      assert IsManaged(d, n, id, ps[id]) && OwnName(n, id, ps[id].name);
    }
  }

  lemma UsersKeptUp(d: Digest, m: Migration, suffixes: Suffixes, s: State, t': Tables)
    requires UsersOk(d, s.users) && UsersKept(d, s.up, s.users, s.tables.policies)
    requires PoliciesShape(d, m, suffixes, s.tables, t'.policies)
    ensures UsersKept(d, s.up + {m}, s.users, t'.policies)
  {
    forall id | id in s.users
      ensures id in t'.policies && UserFits(s.up + {m}, id, s.users[id], t'.policies[id])
    {
      assert !IsManaged(d, m, id, s.users[id]);
      assert !IsManaged(d, m, id, s.tables.policies[id]);
      UserFitsAside(d, m, suffixes, s.up, id, s.users[id], s.tables.policies[id]);
    }
    forall id | id in t'.policies && id !in s.users ensures AddedRow(d, id, t'.policies[id]) {
      AddedRowUp(d, m, suffixes, s.tables, t'.policies, id);
    }
  }

  /** In reachable tables nobody occupies the name that a row moved aside is waiting for. */
  lemma NobodyOccupies(d: Digest, m: Migration, s: State, t: Tables, id: Uuid)
    requires UsersOk(d, s.users) && UsersKept(d, s.up, s.users, t.policies)
    requires id in s.users && Marked(m, id, t.policies[id].name)
    ensures !Occupied(d, m, t, s.users[id].org)
  {
    forall q | q in t.policies && t.policies[q].org == s.users[id].org ensures !Collides(d, m, q, t.policies[q]) {
      if q !in s.users {
        assert AddedRow(d, q, t.policies[q]);
      }
    }
  }

  lemma UserFitsDown(d: Digest, m: Migration, suffixes: Suffixes, s: State, u: Tables, t': Tables, id: Uuid)
    requires UsersOk(d, s.users) && UsersKept(d, s.up, s.users, u.policies) && DowngradeShape(d, m, suffixes, u, t')
    requires id in s.users
    ensures id in t'.policies && UserFits(s.up - {m}, id, s.users[id], t'.policies[id])
  {
    var p := u.policies[id];
    assert UserFits(s.up, id, s.users[id], p);
    assert !IsManaged(d, m, id, s.users[id]);
    assert id in t'.policies && t'.policies[id] == p.(name := NameAfter(d, m, suffixes, u, id));
    if Marked(m, id, p.name) {
      NobodyOccupies(d, m, s, u, id);
    }
  }

  lemma AddedRowDown(d: Digest, m: Migration, suffixes: Suffixes, t: Tables, t': Tables, id: Uuid)
    requires DowngradeShape(d, m, suffixes, t, t') && id in t'.policies
    requires id in t.policies ==> AddedRow(d, id, t.policies[id])
    ensures AddedRow(d, id, t'.policies[id])
  {
    var p := t.policies[id];
    var n :| IsManaged(d, n, id, p) && OwnName(n, id, p.name);
    assert IsManaged(d, n, id, t'.policies[id]);
    assert OwnName(n, id, t'.policies[id].name);
  }

  lemma UsersKeptDown(d: Digest, m: Migration, suffixes: Suffixes, s: State, u: Tables, t': Tables)
    requires UsersOk(d, s.users) && UsersKept(d, s.up, s.users, u.policies) && DowngradeShape(d, m, suffixes, u, t')
    ensures UsersKept(d, s.up - {m}, s.users, t'.policies)
  {
    forall id | id in s.users
      ensures id in t'.policies && UserFits(s.up - {m}, id, s.users[id], t'.policies[id])
    {
      UserFitsDown(d, m, suffixes, s, u, t', id);
    }
    forall id | id in t'.policies && id !in s.users ensures AddedRow(d, id, t'.policies[id]) {
      AddedRowDown(d, m, suffixes, u, t', id);
    }
  }

  // ---- no step of a migration aborts ----

  /** A marked name is about its own row. */
  lemma OwnMarkers(d: Digest, up: set<Migration>, users: map<Uuid, Policy>, ps: map<Uuid, Policy>, q: Uuid)
    requires UsersOk(d, users) && UsersKept(d, up, users, ps) && q in ps
    ensures ps[q].name.Aside? ==> q in users && ps[q].name.id == q
    ensures ps[q].name.Retired? ==> q !in users && ps[q].name.id == q
  {
    if q !in users {
      assert AddedRow(d, q, ps[q]);
    }
  }

  lemma RunUpgradeCommits(d: Digest, m: Migration, suffixes: Suffixes, s: State)
    requires UsersOk(d, s.users) && UsersKept(d, s.up, s.users, s.tables.policies) && Unique(s.tables.policies)
    ensures UpgradeCommits(d, m, suffixes, s.tables)
  {
    forall q | q in s.tables.policies && s.tables.policies[q].name.Aside?
      ensures s.tables.policies[q].name.id == q
    {
      OwnMarkers(d, s.up, s.users, s.tables.policies, q);
    }
  }

  lemma RunDowngradeCommits(d: Digest, m: Migration, suffixes: Suffixes, s: State)
    requires UsersOk(d, s.users) && Valid(d, s.tables) && UsersKept(d, s.up, s.users, s.tables.policies)
    ensures DowngradeCommits(d, m, suffixes, s.tables)
  {
    DowngradeCommitsExactly(d, m, suffixes, s.tables);
    RunSuffixesAreFree(d, m, suffixes, s, Unpinned(d, m, s.tables));
    RunOneRestorable(d, m, s, Unpinned(d, m, s.tables));
  }

  lemma RunSuffixesAreFree(d: Digest, m: Migration, suffixes: Suffixes, s: State, u: Tables)
    requires UsersOk(d, s.users) && UsersKept(d, s.up, s.users, u.policies)
    ensures SuffixesAreFree(d, m, suffixes, u)
  {
    forall q | q in u.policies && u.policies[q].name.Retired? ensures u.policies[q].name.id == q {
      OwnMarkers(d, s.up, s.users, u.policies, q);
    }
  }

  lemma RunOneRestorable(d: Digest, m: Migration, s: State, u: Tables)
    requires UsersOk(d, s.users) && UsersKept(d, s.up, s.users, u.policies)
    ensures OneRestorableAnOrg(d, m, u)
  {
    forall q | q in u.policies && Marked(m, q, u.policies[q].name)
      ensures q in s.users && UserFits(s.up, q, s.users[q], u.policies[q])
    {
      OwnMarkers(d, s.up, s.users, u.policies, q);
    }
  }

  // ---- records and status ----

  lemma SameTargets(t: Tables, t': Tables)
    requires t'.records.Keys == t.records.Keys && (t'.packs, t'.importRuns) == (t.packs, t.importRuns)
    requires forall r :: r in t.records ==> t'.records[r].org == t.records[r].org
    ensures forall r, m: Migration :: r in t.records ==> (Target(m, t', r) <==> Target(m, t, r))
    ensures forall r :: r in t.records ==> (AnyTarget(t', r) <==> AnyTarget(t, r))
  {
    forall r, m: Migration | r in t.records ensures Target(m, t', r) <==> Target(m, t, r) {
    }
  }

  lemma TargetIsAny(m: Migration, t: Tables, r: Uuid)
    requires r in t.records && Target(m, t, r)
    ensures AnyTarget(t, r)
  {
  }

  lemma RecordsKeptUp(d: Digest, m: Migration, suffixes: Suffixes, captured: map<Uuid, Record>, t: Tables, t': Tables)
    requires RecordsKept(captured, t) && UpgradeShape(d, m, suffixes, t, t')
    ensures RecordsKept(captured, t')
  {
    SameTargets(t, t');
    forall r | r in captured && !AnyTarget(t', r) ensures t'.records[r] == captured[r] {
      if Target(m, t, r) { TargetIsAny(m, t, r); }
    }
  }

  lemma RecordsKeptDown(d: Digest, m: Migration, captured: map<Uuid, Record>, t: Tables)
    requires RecordsKept(captured, t)
    ensures RecordsKept(captured, Unpinned(d, m, t))
  {
    var u := Unpinned(d, m, t);
    SameTargets(t, u);
    forall r | r in captured && !AnyTarget(u, r) ensures u.records[r] == captured[r] {
      if Target(m, t, r) { TargetIsAny(m, t, r); }
    }
  }

  lemma SameTargetsDisjoint(t: Tables, t': Tables)
    requires TargetsDisjoint(t) && t'.records.Keys == t.records.Keys
    requires (t'.packs, t'.importRuns) == (t.packs, t.importRuns)
    requires forall r :: r in t.records ==> t'.records[r].org == t.records[r].org
    ensures TargetsDisjoint(t')
  {
    forall r, m: Migration | r in t.records ensures Target(m, t', r) <==> Target(m, t, r) {
    }
  }

  lemma WithdrawnStaysUp(d: Digest, m: Migration, n: Migration, suffixes: Suffixes, t: Tables, t': Tables)
    requires m != n && Collisionless(d, t.orgs) && Withdrawn(d, n, t) && PoliciesShape(d, m, suffixes, t, t'.policies)
    ensures Withdrawn(d, n, t')
  {
    forall id | id in t'.policies && IsManaged(d, n, id, t'.policies[id]) ensures t'.policies[id].name != Reserved(n) {
      assert OriginAfterUpgrade(d, m, t, id, t'.policies[id]);
      assert !IsManaged(d, m, id, t'.policies[id]);
      assert t'.policies[id] == MovedAside(d, m, suffixes, id, t.policies[id]);
      assert IsManaged(d, n, id, t.policies[id]);
    }
  }

  /** A row that the downgrade leaves under the reserved name is a user's. */
  lemma WithdrawnDown(d: Digest, m: Migration, suffixes: Suffixes, s: State, u: Tables, t': Tables)
    requires UsersOk(d, s.users) && UsersKept(d, s.up, s.users, u.policies) && DowngradeShape(d, m, suffixes, u, t')
    ensures Withdrawn(d, m, t')
  {
    forall id | id in t'.policies && IsManaged(d, m, id, t'.policies[id]) ensures t'.policies[id].name != Reserved(m) {
      OwnMarkers(d, s.up, s.users, u.policies, id);
      if id in s.users { assert UserFits(s.up, id, s.users[id], u.policies[id]); }
    }
  }

  lemma WithdrawnStaysDown(d: Digest, m: Migration, n: Migration, suffixes: Suffixes, u: Tables, t': Tables)
    requires m != n && Withdrawn(d, n, u) && DowngradeShape(d, m, suffixes, u, t')
    ensures Withdrawn(d, n, t')
  {
    forall id | id in t'.policies && IsManaged(d, n, id, t'.policies[id]) ensures t'.policies[id].name != Reserved(n) {
      assert IsManaged(d, n, id, u.policies[id]);
    }
  }

  // ---- up ----

  lemma StatusUp(d: Digest, m: Migration, suffixes: Suffixes, s: State, s': State)
    requires Valid(d, s.tables) && TargetsDisjoint(s.tables) && StatusShows(d, s)
    requires UpgradeShape(d, m, suffixes, s.tables, s'.tables)
    requires s'.up == s.up + {m} && s'.served == s.served[m := s.tables.orgs]
    ensures StatusShows(d, s')
  {
    forall n ensures Shows(d, s', n) {
      assert Shows(d, s, n);
      if n == m {
        ShapeEstablishes(d, m, suffixes, s.tables, s'.tables);
        EstablishedIsHeld(d, m, s'.tables);
      } else if n in s.up {
        HeldSurvivesUpgrade(d, m, n, suffixes, s.tables, s'.tables, Served(s, n));
      } else {
        WithdrawnStaysUp(d, m, n, suffixes, s.tables, s'.tables);
      }
    }
  }

  lemma StepUp(d: Digest, m: Migration, suffixes: Suffixes, s: State)
    requires Inv(d, s)
    ensures Commits(d, s, Up(m, suffixes))
    ensures Inv(d, Next(d, s, Up(m, suffixes)))
  {
    RunUpgradeCommits(d, m, suffixes, s);
    var s' := Next(d, s, Up(m, suffixes));
    UpgradeEstablishes(d, m, suffixes, s.tables);
    UpgradeHasShape(d, m, suffixes, s.tables);
    UsersKeptUp(d, m, suffixes, s, s'.tables);
    RecordsKeptUp(d, m, suffixes, s.captured, s.tables, s'.tables);
    SameTargetsDisjoint(s.tables, s'.tables);
    StatusUp(d, m, suffixes, s, s');
  }

  // ---- down ----

  lemma WithdrawnSurvivesDowngrade(d: Digest, m: Migration, n: Migration, suffixes: Suffixes, t: Tables)
    requires m != n && Withdrawn(d, n, t)
    ensures Withdrawn(d, n, Downgraded(d, m, suffixes, t))
  {
    DowngradeHasShape(d, m, suffixes, t);
    assert Withdrawn(d, n, Unpinned(d, m, t));
    WithdrawnStaysDown(d, m, n, suffixes, Unpinned(d, m, t), Downgraded(d, m, suffixes, t));
  }

  /** What one migration shows is a matter of its own part of the state. */
  lemma ShowsFor(d: Digest, s: State, n: Migration, t: Tables, served: set<Uuid>)
    requires s.tables == t && Served(s, n) == served
    ensures Shows(d, s, n) <==> if n in s.up then Held(d, n, t, served) else Withdrawn(d, n, t)
  {
  }

  lemma OneStatusDown(d: Digest, m: Migration, suffixes: Suffixes, s: State, s': State, n: Migration)
    requires Valid(d, s.tables) && TargetsDisjoint(s.tables) && Shows(d, s, n)
    requires s'.tables == Downgraded(d, m, suffixes, s.tables) && s'.up == s.up - {m}
    requires s'.served == s.served && n != m
    ensures Shows(d, s', n)
  {
    ShowsFor(d, s, n, s.tables, Served(s, n));
    ShowsFor(d, s', n, s'.tables, Served(s, n));
    if n in s.up {
      HeldSurvivesDowngrade(d, m, n, suffixes, s.tables, Served(s, n));
    } else {
      WithdrawnSurvivesDowngrade(d, m, n, suffixes, s.tables);
    }
  }

  lemma StatusDown(d: Digest, m: Migration, suffixes: Suffixes, s: State, s': State)
    requires Inv(d, s) && s'.tables == Downgraded(d, m, suffixes, s.tables) && s'.up == s.up - {m}
    requires s'.served == s.served
    ensures StatusShows(d, s')
  {
    forall n ensures Shows(d, s', n) {
      if n == m {
        DowngradeHasShape(d, m, suffixes, s.tables);
        WithdrawnDown(d, m, suffixes, s, Unpinned(d, m, s.tables), s'.tables);
      } else {
        assert Shows(d, s, n);
        OneStatusDown(d, m, suffixes, s, s', n);
      }
    }
  }

  /** The tables after the downgrade keep what is remembered of users and records. */
  lemma MemoryDown(d: Digest, m: Migration, suffixes: Suffixes, s: State, t': Tables)
    requires UsersOk(d, s.users) && UsersKept(d, s.up, s.users, s.tables.policies)
    requires RecordsKept(s.captured, s.tables)
    requires TargetsDisjoint(s.tables) && t' == Downgraded(d, m, suffixes, s.tables)
    ensures UsersKept(d, s.up - {m}, s.users, t'.policies) && RecordsKept(s.captured, t') && TargetsDisjoint(t')
  {
    DowngradeHasShape(d, m, suffixes, s.tables);
    UsersKeptDown(d, m, suffixes, s, Unpinned(d, m, s.tables), t');
    RecordsKeptDown(d, m, s.captured, s.tables);
    SameTargetsDisjoint(s.tables, Unpinned(d, m, s.tables));
    SameRecordsKept(s.captured, Unpinned(d, m, s.tables), t');
  }

  /** Only the policies differ. */
  lemma SameRecordsKept(captured: map<Uuid, Record>, t: Tables, t': Tables)
    requires RecordsKept(captured, t) && TargetsDisjoint(t) && t' == t.(policies := t'.policies)
    ensures RecordsKept(captured, t') && TargetsDisjoint(t')
  {
    forall r, m: Migration | r in t.records ensures Target(m, t', r) <==> Target(m, t, r) {
    }
  }

  lemma StepDown(d: Digest, m: Migration, suffixes: Suffixes, s: State)
    requires Inv(d, s)
    ensures Commits(d, s, Down(m, suffixes))
    ensures Inv(d, Next(d, s, Down(m, suffixes)))
  {
    RunDowngradeCommits(d, m, suffixes, s);
    var s' := Next(d, s, Down(m, suffixes));
    DowngradeKeepsValid(d, m, suffixes, s.tables);
    MemoryDown(d, m, suffixes, s, s'.tables);
    StatusDown(d, m, suffixes, s, s');
  }
}
