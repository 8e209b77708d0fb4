/** What people do between migrations keeps the invariant as well. */
module RetentionUse {
  import opened Wrappers
  import opened RetentionNames
  import opened RetentionTables
  import opened RetentionTheorems
  import opened RetentionInterference
  import opened RetentionState

  // ---- writing one policy row ----

  function Written(t: Tables, id: Uuid, p: Policy): Tables {
    t.(policies := t.policies[id := p])
  }

  lemma WritingKeepsValid(d: Digest, t: Tables, id: Uuid, p: Policy)
    requires Valid(d, t) && p.org in t.orgs && (id in t.policies ==> t.policies[id].org == p.org)
    requires forall q :: q in t.policies && q != id && t.policies[q].org == p.org ==> t.policies[q].name != p.name
    requires forall m, o :: o in t.orgs && id == ManagedId(d, m, o) ==> p.org == o
    ensures Valid(d, Written(t, id, p))
  {
    var t' := Written(t, id, p);
    forall q | Referenced(t', q) ensures q in t'.policies {
      assert Referenced(t, q);
    }
  }

  lemma WritingKeepsHeld(d: Digest, m: Migration, t: Tables, served: set<Uuid>, id: Uuid, p: Policy)
    requires Held(d, m, t, served)
    requires forall o :: o in t.orgs && id == ManagedId(d, m, o) ==> p == ManagedRow(m, o)
    requires p.name == Reserved(m) ==> IsManaged(d, m, id, p)
    ensures Held(d, m, Written(t, id, p), served)
  {
    var t' := Written(t, id, p);
    forall r | r in t'.records && Target(m, t', r) ensures t'.records[r].policy == ManagedId(d, m, t'.records[r].org) {
      assert Target(m, t, r);
    }
  }

  lemma WritingKeepsTargets(captured: map<Uuid, Record>, t: Tables, id: Uuid, p: Policy)
    requires RecordsKept(captured, t) && TargetsDisjoint(t)
    ensures RecordsKept(captured, Written(t, id, p)) && TargetsDisjoint(Written(t, id, p))
  {
    var t' := Written(t, id, p);
    forall r, m: Migration | r in t.records ensures Target(m, t', r) <==> Target(m, t, r) {
    }
  }

  // ---- the managed row that a pack or a report is pinned to ----

  /** While the migration is up nothing has to be moved aside. */
  lemma NothingCollides(d: Digest, m: Migration, suffixes: Suffixes, s: State, org: Uuid)
    requires Held(d, m, s.tables, Served(s, m))
    ensures Ensured(d, m, suffixes, s.tables.policies, org) ==
      s.tables.policies[ManagedId(d, m, org) := ManagedRow(m, org)]
  {
  }

  /** No other row of the organization has the reserved name. */
  lemma OnlyTheManagedRow(d: Digest, m: Migration, t: Tables, served: set<Uuid>, org: Uuid, q: Uuid)
    requires Held(d, m, t, served) && q in t.policies && t.policies[q].org == org && q != ManagedId(d, m, org)
    ensures t.policies[q].name != Reserved(m)
  {
  }

  lemma UsersAreNotManaged(d: Digest, m: Migration, s: State, id: Uuid)
    requires Valid(d, s.tables) && UsersOk(d, s.users)
    requires UsersKept(d, s.up, s.users, s.tables.policies) && id in s.users
    ensures forall o :: o in s.tables.orgs ==> id != ManagedId(d, m, o)
  {
    assert UserFits(s.up, id, s.users[id], s.tables.policies[id]);
    assert !IsManaged(d, m, id, s.users[id]);
  }

  lemma EnsuredUsers(d: Digest, m: Migration, s: State, org: Uuid)
    requires Valid(d, s.tables) && UsersOk(d, s.users)
    requires UsersKept(d, s.up, s.users, s.tables.policies) && org in s.tables.orgs
    ensures UsersKept(d, s.up, s.users, Written(s.tables, ManagedId(d, m, org), ManagedRow(m, org)).policies)
  {
    var id := ManagedId(d, m, org);
    if id in s.users { UsersAreNotManaged(d, m, s, id); }
    assert IsManaged(d, m, id, ManagedRow(m, org)) && OwnName(m, id, Reserved(m));
  }

  lemma EnsuredStatus(d: Digest, m: Migration, suffixes: Suffixes, s: State, org: Uuid)
    requires Valid(d, s.tables) && StatusShows(d, s) && m in s.up && org in s.tables.orgs
    ensures StatusShows(d, EnsuredState(d, m, suffixes, s, org))
  {
    var s' := EnsuredState(d, m, suffixes, s, org);
    var id, row := ManagedId(d, m, org), ManagedRow(m, org);
    assert Shows(d, s, m);
    NothingCollides(d, m, suffixes, s, org);
    forall n ensures Shows(d, s', n) {
      assert Shows(d, s, n);
      if n in s.up {
        WritingKeepsHeld(d, n, s.tables, Served(s, n), id, row);
      }
    }
  }

  /**
   What getting or creating the managed policy does to any tables: a row of the organization with the reserved name
   is moved aside with its settings, no other row changes, and the managed row is there, permanent again.
   */
  lemma EnsuringMovesCollisions(d: Digest, m: Migration, suffixes: Suffixes, ps: map<Uuid, Policy>, org: Uuid, id: Uuid)
    requires id in ps && id != ManagedId(d, m, org)
    ensures var after := Ensured(d, m, suffixes, ps, org);
      && id in after && after[id].org == ps[id].org && after[id].settings == ps[id].settings
      && after[id].name ==
           (if ps[id].org == org && ps[id].name == Reserved(m) then Aside(m, id, suffixes(id)) else ps[id].name)
      && ManagedId(d, m, org) in after && Named(after, org, Reserved(m), ManagedId(d, m, org))
      && ForGood(after[ManagedId(d, m, org)].settings)
      && after.Keys == ps.Keys + {ManagedId(d, m, org)}
  {
  }

  lemma EnsuringKeepsInv(d: Digest, m: Migration, suffixes: Suffixes, s: State, org: Uuid)
    requires Inv(d, s) && m in s.up && org in s.tables.orgs
    ensures Inv(d, EnsuredState(d, m, suffixes, s, org))
    ensures EnsuredState(d, m, suffixes, s, org).tables == Written(s.tables, ManagedId(d, m, org), ManagedRow(m, org))
  {
    var id, row := ManagedId(d, m, org), ManagedRow(m, org);
    assert Shows(d, s, m);
    NothingCollides(d, m, suffixes, s, org);
    forall q | q in s.tables.policies && q != id && s.tables.policies[q].org == org
      ensures s.tables.policies[q].name != row.name
    {
      OnlyTheManagedRow(d, m, s.tables, Served(s, m), org, q);
    }
    WritingKeepsValid(d, s.tables, id, row);
    WritingKeepsTargets(s.captured, s.tables, id, row);
    EnsuredUsers(d, m, s, org);
    EnsuredStatus(d, m, suffixes, s, org);
  }

  // ---- a new record ----

  /** A record comes in, and with it perhaps the pack or the import run that names it. */
  ghost predicate RecordCame(d: Digest, s: State, s': State, r: Uuid, rec: Record) {
    var t, t' := s.tables, s'.tables;
    && s' == s.(tables := t', captured := s.captured[r := rec])
    && t' == t.(records := t.records[r := rec], packs := t'.packs, importRuns := t'.importRuns)
    && r !in t.records && rec.org in t.orgs && rec.policy in t.policies
    && (forall m: Migration, q :: q in t.records ==> (Target(m, t', q) <==> Target(m, t, q)))
    && !(Target(SealedPack0077, t', r) && Target(ImportReport0090, t', r))
    && (forall m :: m in s.up && Target(m, t', r) ==> rec.policy == ManagedId(d, m, rec.org))
  }

  lemma RecordKeepsValid(d: Digest, s: State, s': State, r: Uuid, rec: Record)
    requires Valid(d, s.tables) && RecordCame(d, s, s', r, rec)
    ensures Valid(d, s'.tables)
  {
    forall id | Referenced(s'.tables, id) ensures id in s'.tables.policies {
      assert Referenced(s.tables, id) || id == rec.policy;
    }
  }

  lemma RecordKeepsRecords(d: Digest, s: State, s': State, r: Uuid, rec: Record)
    requires RecordsKept(s.captured, s.tables) && TargetsDisjoint(s.tables) && RecordCame(d, s, s', r, rec)
    ensures RecordsKept(s'.captured, s'.tables) && TargetsDisjoint(s'.tables)
  {
    forall q | q in s.tables.records ensures AnyTarget(s'.tables, q) == AnyTarget(s.tables, q) {
    }
  }

  lemma RecordKeepsStatus(d: Digest, s: State, s': State, r: Uuid, rec: Record)
    requires StatusShows(d, s) && RecordCame(d, s, s', r, rec)
    ensures StatusShows(d, s')
  {
    forall m ensures Shows(d, s', m) {
      assert Shows(d, s, m);
    }
  }

  lemma RecordKeepsInv(d: Digest, s: State, s': State, r: Uuid, rec: Record)
    requires Inv(d, s) && RecordCame(d, s, s', r, rec)
    ensures Inv(d, s')
  {
    RecordKeepsValid(d, s, s', r, rec);
    RecordKeepsRecords(d, s, s', r, rec);
    RecordKeepsStatus(d, s, s', r, rec);
  }

  /** A pack or an import run names a new record: no other record becomes a target. */
  lemma ClosingNamesOne(m: Migration, n: Migration, t: Tables, holder: Uuid, org: Uuid, r: Uuid, rec: Record, q: Uuid)
    requires Open(t, m, holder, org) && NewRecord(t, r) && rec.org == org && q in t.records
    ensures var t' := Closed(t, m, holder, org, r).(records := t.records[r := rec]);
      Target(n, t', q) <==> Target(n, t, q)
  {
    var t' := Closed(t, m, holder, org, r).(records := t.records[r := rec]);
    if n == SealedPack0077 && Target(n, t, q) {
      var p :| p in t.packs && t.packs[p].packRecord == Some(q) && t.packs[p].org == t.records[q].org;
      assert t'.packs[p] == t.packs[p];
    }
    if n == ImportReport0090 && Target(n, t, q) {
      var i :| i in t.importRuns && t.importRuns[i] == Some(q);
      assert t'.importRuns[i] == t.importRuns[i];
    }
  }

  lemma ClosingMakesATarget(m: Migration, n: Migration, t: Tables, holder: Uuid, org: Uuid, r: Uuid, rec: Record)
    requires NewRecord(t, r) && rec.org == org
    ensures var t' := Closed(t, m, holder, org, r).(records := t.records[r := rec]);
      Target(n, t', r) <==> n == m
  {
    var t' := Closed(t, m, holder, org, r).(records := t.records[r := rec]);
    if m == SealedPack0077 {
      assert t'.packs[holder] == Pack(org, Some(r));
    } else {
      assert t'.importRuns[holder] == Some(r);
    }
  }

  lemma ProducedRecordCame(d: Digest, s: State, m: Migration, holder: Uuid, r: Uuid, org: Uuid, pin: Uuid)
    requires Open(s.tables, m, holder, org) && NewRecord(s.tables, r) && org in s.tables.orgs
    requires (if m in s.up then ManagedId(d, m, org) else pin) in s.tables.policies
    ensures var rec := Record(org, if m in s.up then ManagedId(d, m, org) else pin);
      RecordCame(d, s, Produced(d, s, m, holder, r, org, pin), r, rec)
  {
    var rec := Record(org, if m in s.up then ManagedId(d, m, org) else pin);
    forall n: Migration, q | q in s.tables.records
      ensures Target(n, Produced(d, s, m, holder, r, org, pin).tables, q) <==> Target(n, s.tables, q)
    {
      ClosingNamesOne(m, n, s.tables, holder, org, r, rec, q);
    }
    ClosingMakesATarget(m, SealedPack0077, s.tables, holder, org, r, rec);
    ClosingMakesATarget(m, ImportReport0090, s.tables, holder, org, r, rec);
  }

  lemma ProducingKeepsInv(d: Digest, s: State, m: Migration, holder: Uuid, r: Uuid, org: Uuid, pin: Uuid)
    requires Inv(d, s) && Open(s.tables, m, holder, org) && NewRecord(s.tables, r) && org in s.tables.orgs
    requires (if m in s.up then ManagedId(d, m, org) else pin) in s.tables.policies
    ensures Inv(d, Produced(d, s, m, holder, r, org, pin))
  {
    ProducedRecordCame(d, s, m, holder, r, org, pin);
    RecordKeepsInv(d, s, Produced(d, s, m, holder, r, org, pin), r,
      Record(org, if m in s.up then ManagedId(d, m, org) else pin));
  }

  /** What can be sealed or finished, but for the names. */
  predicate Ready(t: Tables, step: Step)
    requires step.Produce?
  {
    Open(t, step.m, step.holder, step.org) && NewRecord(t, step.record) && step.org in t.orgs && step.pin in t.policies
  }

  lemma EnsuredIsReady(d: Digest, s: State, step: Step)
    requires Inv(d, s) && step.Produce? && Ready(s.tables, step) && step.m in s.up
    ensures var s1 := EnsuredState(d, step.m, step.suffixes, s, step.org);
      && Inv(d, s1) && Ready(s1.tables, step) && step.m in s1.up && ManagedId(d, step.m, step.org) in s1.tables.policies
      && s1.tables.policies == Ensured(d, step.m, step.suffixes, s.tables.policies, step.org)
  {
    EnsuringKeepsInv(d, step.m, step.suffixes, s, step.org);
  }

  /**
   Sealing a pack or finishing an import never aborts on a name, and pins its record to the managed policy while
   it can.
   */
  lemma StepProduce(d: Digest, s: State, step: Step)
    requires Inv(d, s) && step.Produce? && Ready(s.tables, step)
    ensures Commits(d, s, step) && Inv(d, Next(d, s, step))
  {
    if step.m in s.up { EnsuredIsReady(d, s, step); }
    var s1 := EnsuredState(d, step.m, step.suffixes, s, step.org);
    ProducingKeepsInv(d, s1, step.m, step.holder, step.record, step.org, step.pin);
  }

  lemma CapturedRecordCame(d: Digest, s: State, r: Uuid, rec: Record)
    requires NewRecord(s.tables, r) && rec.org in s.tables.orgs && rec.policy in s.tables.policies
    ensures RecordCame(d, s, WithRecord(s, s.tables, r, rec), r, rec)
  {
    var t' := WithRecord(s, s.tables, r, rec).tables;
    forall m: Migration, q | q in s.tables.records ensures Target(m, t', q) <==> Target(m, s.tables, q) {
    }
  }

  lemma StepCapture(d: Digest, s: State, r: Uuid, org: Uuid, pin: Uuid)
    requires Inv(d, s) && Commits(d, s, Capture(r, org, pin))
    ensures Inv(d, Next(d, s, Capture(r, org, pin)))
  {
    CapturedRecordCame(d, s, r, Record(org, pin));
    RecordKeepsInv(d, s, WithRecord(s, s.tables, r, Record(org, pin)), r, Record(org, pin));
  }

  // ---- references ----

  /** Document types and dispositions refer to live policies. */
  ghost predicate OnlyReferred(t: Tables, t': Tables) {
    && t' == t.(documentTypes := t'.documentTypes, events := t'.events)
    && (forall id :: Referenced(t', id) ==> Referenced(t, id) || id in t.policies)
  }

  lemma ReferringKeepsTargets(captured: map<Uuid, Record>, t: Tables, t': Tables)
    requires RecordsKept(captured, t) && TargetsDisjoint(t) && OnlyReferred(t, t')
    ensures RecordsKept(captured, t') && TargetsDisjoint(t')
    ensures forall r, m: Migration :: r in t.records ==> (Target(m, t', r) <==> Target(m, t, r))
  {
    forall r, m: Migration | r in t.records ensures Target(m, t', r) <==> Target(m, t, r) {
    }
  }

  lemma ReferringKeepsStatus(d: Digest, s: State, t': Tables)
    requires StatusShows(d, s) && OnlyReferred(s.tables, t')
    requires forall r, m: Migration :: r in s.tables.records ==> (Target(m, t', r) <==> Target(m, s.tables, r))
    ensures StatusShows(d, s.(tables := t'))
  {
    forall m ensures Shows(d, s.(tables := t'), m) {
      assert Shows(d, s, m);
    }
  }

  lemma ReferringKeepsInv(d: Digest, s: State, t': Tables)
    requires Inv(d, s) && OnlyReferred(s.tables, t')
    ensures Inv(d, s.(tables := t'))
  {
    ReferringKeepsTargets(s.captured, s.tables, t');
    ReferringKeepsStatus(d, s, t');
  }

  lemma TypeDefaultRefers(t: Tables, documentType: Uuid, policy: Option<Uuid>)
    requires policy.Some? ==> policy.value in t.policies
    ensures OnlyReferred(t, t.(documentTypes := t.documentTypes[documentType := policy]))
  {
  }

  lemma DispositionRefers(t: Tables, event: Uuid, policy: Option<Uuid>)
    requires event !in t.events && (policy.Some? ==> policy.value in t.policies)
    ensures OnlyReferred(t, t.(events := t.events[event := policy]))
  {
  }

  lemma StepRefer(d: Digest, s: State, step: Step)
    requires Inv(d, s) && (step.SetTypeDefault? || step.Dispose?) && Commits(d, s, step)
    ensures Inv(d, Next(d, s, step))
  {
    if step.SetTypeDefault? {
      TypeDefaultRefers(s.tables, step.documentType, step.policy);
    } else {
      DispositionRefers(s.tables, step.event, step.policy);
    }
    ReferringKeepsInv(d, s, Next(d, s, step).tables);
  }

  // ---- policies ----

  /** A name that no row of the organization has now, and that users may give, is no user's name there either. */
  lemma FreeAmongUsers(d: Digest, s: State, org: Uuid, name: PolicyName, q: Uuid)
    requires UsersKept(d, s.up, s.users, s.tables.policies) && !HasNamed(s.tables.policies, org, name)
    requires Free(s.up, name) || name == SystemDefault
    requires q in s.users && s.users[q].org == org
    ensures s.users[q].name != name
  {
    assert UserFits(s.up, q, s.users[q], s.tables.policies[q]);
    assert !Named(s.tables.policies, org, name, q);
  }

  lemma WrittenStatus(d: Digest, s: State, s': State, id: Uuid, p: Policy)
    requires StatusShows(d, s) && s'.tables == Written(s.tables, id, p) && s'.up == s.up && s'.served == s.served
    requires forall m, o :: m in s.up && o in s.tables.orgs ==> id != ManagedId(d, m, o)
    requires forall m :: p.name == Reserved(m) ==> m !in s.up && !IsManaged(d, m, id, p)
    ensures StatusShows(d, s')
  {
    forall m ensures Shows(d, s', m) {
      assert Shows(d, s, m);
      if m in s.up {
        WritingKeepsHeld(d, m, s.tables, Served(s, m), id, p);
      }
    }
  }

  lemma AddedUsersOk(d: Digest, s: State, id: Uuid, p: Policy)
    requires UsersOk(d, s.users) && UsersKept(d, s.up, s.users, s.tables.policies)
    requires !HasNamed(s.tables.policies, p.org, p.name) && (Free(s.up, p.name) || p.name == SystemDefault)
    requires forall m :: !IsManaged(d, m, id, p)
    ensures UsersOk(d, s.users[id := p])
  {
    forall q | q in s.users && s.users[q].org == p.org ensures s.users[q].name != p.name {
      FreeAmongUsers(d, s, p.org, p.name, q);
    }
  }

  lemma AddedStatus(d: Digest, s: State, id: Uuid, p: Policy)
    requires StatusShows(d, s) && p.org in s.tables.orgs && NobodysId(d, s.tables, id)
    requires Free(s.up, p.name) || p.name == SystemDefault
    ensures StatusShows(d, s.(tables := Written(s.tables, id, p), users := s.users[id := p]))
  {
    WrittenStatus(d, s, s.(tables := Written(s.tables, id, p), users := s.users[id := p]), id, p);
  }

  lemma AddedUsersKept(d: Digest, s: State, id: Uuid, p: Policy)
    requires UsersKept(d, s.up, s.users, s.tables.policies) && id !in s.tables.policies
    requires Free(s.up, p.name) || p.name == SystemDefault
    ensures UsersKept(d, s.up, s.users[id := p], Written(s.tables, id, p).policies)
  {
  }

  lemma StepAdd(d: Digest, s: State, step: Step)
    requires Inv(d, s) && step.AddPolicy? && Commits(d, s, step)
    ensures Inv(d, Next(d, s, step))
  {
    var p := Policy(step.org, step.name, step.settings);
    forall q | q in s.tables.policies && s.tables.policies[q].org == p.org ensures s.tables.policies[q].name != p.name {
      assert !Named(s.tables.policies, p.org, p.name, q);
    }
    WritingKeepsValid(d, s.tables, step.id, p);
    WritingKeepsTargets(s.captured, s.tables, step.id, p);
    AddedUsersOk(d, s, step.id, p);
    AddedUsersKept(d, s, step.id, p);
    AddedStatus(d, s, step.id, p);
  }

  /** A row that may be edited is managed by no migration that is up. */
  lemma EditableIsNotManaged(d: Digest, s: State, id: Uuid, name: PolicyName, m: Migration, o: Uuid)
    requires Inv(d, s) && MayEdit(d, s, id, name) && m in s.up && o in s.tables.orgs
    ensures id != ManagedId(d, m, o)
  {
    assert Shows(d, s, m);
  }

  lemma SettingsKeepUsersOk(d: Digest, users: map<Uuid, Policy>, id: Uuid, settings: Settings)
    requires UsersOk(d, users) && id in users
    ensures UsersOk(d, users[id := users[id].(settings := settings)])
  {
    forall m ensures !IsManaged(d, m, id, users[id].(settings := settings)) {
      assert !IsManaged(d, m, id, users[id]);
    }
  }

  lemma EditedUsersOk(d: Digest, s: State, id: Uuid, name: PolicyName, settings: Settings)
    requires UsersOk(d, s.users) && UsersKept(d, s.up, s.users, s.tables.policies)
    requires MayEdit(d, s, id, name) && id in s.users
    ensures UsersOk(d, Edited(s, id, name, settings).users)
  {
    var p := s.tables.policies[id];
    assert UserFits(s.up, id, s.users[id], p);
    if name == p.name {
      SettingsKeepUsersOk(d, s.users, id, settings);
    } else {
      forall m ensures !IsManaged(d, m, id, Policy(p.org, name, settings)) {
        assert !IsManaged(d, m, id, s.users[id]);
      }
      AddedUsersOk(d, s, id, Policy(p.org, name, settings));
    }
  }

  lemma EditedUserFits(d: Digest, s: State, id: Uuid, name: PolicyName, settings: Settings)
    requires UsersKept(d, s.up, s.users, s.tables.policies) && MayEdit(d, s, id, name) && id in s.users
    ensures var s' := Edited(s, id, name, settings); UserFits(s.up, id, s'.users[id], s'.tables.policies[id])
  {
    assert UserFits(s.up, id, s.users[id], s.tables.policies[id]);
  }

  lemma EditedRowIsAdded(d: Digest, s: State, id: Uuid, name: PolicyName, settings: Settings)
    requires UsersKept(d, s.up, s.users, s.tables.policies) && MayEdit(d, s, id, name) && id !in s.users
    ensures AddedRow(d, id, Edited(s, id, name, settings).tables.policies[id])
  {
    var p := s.tables.policies[id];
    assert AddedRow(d, id, p);
    var m :| IsManaged(d, m, id, p) && OwnName(m, id, p.name);
    assert IsManaged(d, m, id, Policy(p.org, name, settings)) && OwnName(m, id, name);
  }

  lemma EditedUsersKept(d: Digest, s: State, id: Uuid, name: PolicyName, settings: Settings)
    requires UsersKept(d, s.up, s.users, s.tables.policies) && MayEdit(d, s, id, name)
    ensures var s' := Edited(s, id, name, settings); UsersKept(d, s.up, s'.users, s'.tables.policies)
  {
    if id in s.users {
      EditedUserFits(d, s, id, name, settings);
    } else {
      EditedRowIsAdded(d, s, id, name, settings);
    }
  }

  lemma EditedStatus(d: Digest, s: State, id: Uuid, name: PolicyName, settings: Settings)
    requires Inv(d, s) && MayEdit(d, s, id, name)
    ensures StatusShows(d, Edited(s, id, name, settings))
  {
    var p := Policy(s.tables.policies[id].org, name, settings);
    forall m, o | m in s.up && o in s.tables.orgs ensures id != ManagedId(d, m, o) {
      EditableIsNotManaged(d, s, id, name, m, o);
    }
    forall m | p.name == Reserved(m) ensures m !in s.up && !IsManaged(d, m, id, p) {
      EditedNameIsAUsers(d, s, id, name, m);
    }
    WrittenStatus(d, s, Edited(s, id, name, settings), id, p);
  }

  /** A row that keeps or gets a reserved name is a user's, and the migration is down. */
  lemma EditedNameIsAUsers(d: Digest, s: State, id: Uuid, name: PolicyName, m: Migration)
    requires Inv(d, s) && MayEdit(d, s, id, name) && name == Reserved(m)
    ensures m !in s.up && ManagedId(d, m, s.tables.policies[id].org) != id
  {
    var p := s.tables.policies[id];
    assert Shows(d, s, m);
    if id in s.users {
      assert UserFits(s.up, id, s.users[id], p);
      assert !IsManaged(d, m, id, s.users[id]);
    }
  }

  lemma StepEdit(d: Digest, s: State, id: Uuid, name: PolicyName, settings: Settings)
    requires Inv(d, s) && MayEdit(d, s, id, name)
    ensures Inv(d, Edited(s, id, name, settings))
  {
    var p := Policy(s.tables.policies[id].org, name, settings);
    forall q | q in s.tables.policies && q != id && s.tables.policies[q].org == p.org
      ensures s.tables.policies[q].name != p.name
    {
      assert name != s.tables.policies[id].name ==> !Named(s.tables.policies, p.org, name, q);
    }
    WritingKeepsValid(d, s.tables, id, p);
    WritingKeepsTargets(s.captured, s.tables, id, p);
    if id in s.users { EditedUsersOk(d, s, id, name, settings); }
    EditedUsersKept(d, s, id, name, settings);
    EditedStatus(d, s, id, name, settings);
  }

  // ---- organizations ----

  lemma OrganizationKeepsValid(d: Digest, t: Tables, o: Uuid)
    requires Valid(d, t) && o !in t.orgs && Collisionless(d, t.orgs + {o})
    requires forall m :: ManagedId(d, m, o) !in t.policies
    ensures Valid(d, t.(orgs := t.orgs + {o}))
  {
    var t' := t.(orgs := t.orgs + {o});
    forall id | Referenced(t', id) ensures id in t'.policies {
      assert Referenced(t, id);
    }
  }

  lemma OrganizationKeepsTargets(captured: map<Uuid, Record>, t: Tables, o: Uuid)
    requires RecordsKept(captured, t) && TargetsDisjoint(t)
    ensures var t' := t.(orgs := t.orgs + {o});
      && RecordsKept(captured, t') && TargetsDisjoint(t')
      && (forall r, m: Migration :: r in t.records ==> (Target(m, t', r) <==> Target(m, t, r)))
  {
    var t' := t.(orgs := t.orgs + {o});
    forall r, m: Migration | r in t.records ensures Target(m, t', r) <==> Target(m, t, r) {
    }
  }

  lemma StepOrganization(d: Digest, s: State, o: Uuid)
    requires Inv(d, s) && Commits(d, s, CreateOrganization(o))
    ensures Inv(d, Next(d, s, CreateOrganization(o)))
  {
    OrganizationKeepsValid(d, s.tables, o);
    OrganizationKeepsTargets(s.captured, s.tables, o);
    var s' := s.(tables := s.tables.(orgs := s.tables.orgs + {o}));
    forall m ensures Shows(d, s', m) {
      assert Shows(d, s, m);
    }
  }
}
