/**
 The tables that the reserved-retention-policy migrations 0077 and 0090 rewrite, and each of
 their bulk statements as a function from the tables before it to the tables after it.

 Both migrations run the same seven statements. They differ in the reserved name, the salt of
 the managed row's id, the word in the preservation marker, and the join that finds the records
 to re-pin, so a `Migration` value selects those four things.
 */
module RetentionTables {
  import opened Wrappers
  import opened RetentionNames

  /**
   The first half of SHA-256 over the migration's salt and the org's id, as a uuid. Only its lack of
   collisions on the orgs in use matters (`Collisionless`).
   */
  type Digest = (Migration, Uuid) -> Uuid

  /** The random hex digits and closing parenthesis that a renamed row's new name ends in. */
  type Suffixes = Uuid -> string

  datatype Basis = CapturedAt | EmploymentEnd | ProductEol | ContractEnd | CapaClosed
  datatype Duration = PermanentDuration | Iso8601(text: string)
  datatype DispositionAction = Destroy | ArchiveCold | Transfer | RetainPermanent

  datatype Settings = Settings(
    appliesTo: Option<string>, basis: Basis, duration: Duration, action: DispositionAction,
    reviewRequired: bool, wormLockPeriod: Option<Duration>,
    active: bool, archivedAt: Option<int>, archivedBy: Option<Uuid>)

  datatype Policy = Policy(org: Uuid, name: PolicyName, settings: Settings)
  datatype Record = Record(org: Uuid, policy: Uuid)
  datatype Pack = Pack(org: Uuid, packRecord: Option<Uuid>)

  datatype Tables = Tables(
    orgs: set<Uuid>,
    policies: map<Uuid, Policy>,
    records: map<Uuid, Record>,
    documentTypes: map<Uuid, Option<Uuid>>,  // default_retention_policy_id
    events: map<Uuid, Option<Uuid>>,         // disposition_event.policy_id
    packs: map<Uuid, Pack>,
    importRuns: map<Uuid, Option<Uuid>>)     // report_record_id

  const PERMANENT := Settings(None, CapturedAt, PermanentDuration, RetainPermanent, false, None, true, None, None)

  /**
   What makes a policy permanent for those who read it: the sweep passes over its records, their retention never
   elapses, no lock period has to be finite, and no new capture picks the policy up by itself.
   */
  predicate ForGood(s: Settings) {
    && s.action == RetainPermanent && s.duration == PermanentDuration && !s.reviewRequired && s.wormLockPeriod.None?
    && s.active && s.archivedAt.None? && s.archivedBy.None?
    && s.basis == CapturedAt && s.appliesTo.None?
  }

  /** The LIKE pattern of the downgrade's last statement; `RetentionNames.LikeIsAside` says so of the text. */
  predicate Marked(m: Migration, id: Uuid, name: PolicyName) {
    name.Aside? && name.m == m && name.id == id
  }

  function ManagedId(d: Digest, m: Migration, org: Uuid): Uuid {
    d(m, org)
  }

  predicate IsManaged(d: Digest, m: Migration, id: Uuid, p: Policy) {
    id == ManagedId(d, m, p.org)
  }

  // ---- what the schema keeps ----

  ghost predicate Unique(ps: map<Uuid, Policy>) {
    forall a, b :: a in ps && b in ps && a != b ==> ps[a].org != ps[b].org || ps[a].name != ps[b].name
  }

  predicate Referenced(t: Tables, id: Uuid) {
    || (exists r :: r in t.records && t.records[r].policy == id)
    || (exists dt :: dt in t.documentTypes && t.documentTypes[dt] == Some(id))
    || (exists e :: e in t.events && t.events[e] == Some(id))
  }

  ghost predicate PoliciesHaveOrgs(t: Tables) {
    forall id :: id in t.policies ==> t.policies[id].org in t.orgs
  }

  ghost predicate ForeignKeys(t: Tables) {
    && PoliciesHaveOrgs(t)
    && (forall r :: r in t.records ==> t.records[r].org in t.orgs)
    && (forall id :: Referenced(t, id) ==> id in t.policies)
  }

  /** No two managed ids in use coincide. It is asked for the tables' own orgs only. */
  ghost predicate Collisionless(d: Digest, orgs: set<Uuid>) {
    forall m, n, o, q :: o in orgs && q in orgs && ManagedId(d, m, o) == ManagedId(d, n, q) ==> m == n && o == q
  }

  /** A row at an org's managed id belongs to that org: nobody else draws a digest as an id. */
  ghost predicate ManagedAtHome(d: Digest, t: Tables) {
    forall m, o :: o in t.orgs && ManagedId(d, m, o) in t.policies ==> t.policies[ManagedId(d, m, o)].org == o
  }

  ghost predicate Valid(d: Digest, t: Tables) {
    && Unique(t.policies)
    && ForeignKeys(t)
    && Collisionless(d, t.orgs)
    && ManagedAtHome(d, t)
  }

  // ---- the joins ----

  /** The records that a migration's join selects, before it looks for a policy to pin them to. */
  predicate Target(m: Migration, t: Tables, r: Uuid)
    requires r in t.records
  {
    match m
    case SealedPack0077 =>
      exists p :: p in t.packs && t.packs[p].packRecord == Some(r) && t.packs[p].org == t.records[r].org
    case ImportReport0090 =>
      exists i :: i in t.importRuns && t.importRuns[i] == Some(r)
  }

  predicate Named(ps: map<Uuid, Policy>, org: Uuid, name: PolicyName, id: Uuid) {
    id in ps && ps[id].org == org && ps[id].name == name
  }

  predicate HasNamed(ps: map<Uuid, Policy>, org: Uuid, name: PolicyName) {
    exists id :: id in ps && Named(ps, org, name, id)
  }

  /** A policy of the org with that name: under UNIQUE(org_id, name) there is no other. */
  ghost function TheNamed(ps: map<Uuid, Policy>, org: Uuid, name: PolicyName): (id: Uuid)
    requires HasNamed(ps, org, name)
    ensures Named(ps, org, name, id)
  {
    var id :| Named(ps, org, name, id);
    id
  }

  // ---- the upgrade's statements ----

  predicate Collides(d: Digest, m: Migration, id: Uuid, p: Policy) {
    p.name == Reserved(m) && !IsManaged(d, m, id, p)
  }

  function MovedAside(d: Digest, m: Migration, suffixes: Suffixes, id: Uuid, p: Policy): Policy {
    if Collides(d, m, id, p) then p.(name := Aside(m, id, suffixes(id))) else p
  }

  function CollisionsAside(d: Digest, m: Migration, suffixes: Suffixes, ps: map<Uuid, Policy>): map<Uuid, Policy> {
    map id | id in ps :: MovedAside(d, m, suffixes, id, ps[id])
  }

  function ManagedRow(m: Migration, org: Uuid): Policy {
    Policy(org, Reserved(m), PERMANENT)
  }

  ghost function ManagedRows(d: Digest, m: Migration, orgs: set<Uuid>): map<Uuid, Policy>
    requires Collisionless(d, orgs)
  {
    map o | o in orgs :: ManagedId(d, m, o) := ManagedRow(m, o)
  }

  ghost function PinnedRecord(m: Migration, t: Tables, r: Uuid): Record
    requires r in t.records
  {
    var rec := t.records[r];
    if Target(m, t, r) && HasNamed(t.policies, rec.org, Reserved(m)) then
      rec.(policy := TheNamed(t.policies, rec.org, Reserved(m)))
    else
      rec
  }

  ghost function Pinned(m: Migration, t: Tables): Tables {
    t.(records := map r | r in t.records :: PinnedRecord(m, t, r))
  }

  ghost function WithPolicies(d: Digest, m: Migration, suffixes: Suffixes, t: Tables): Tables
    requires Collisionless(d, t.orgs)
  {
    t.(policies := CollisionsAside(d, m, suffixes, t.policies) + ManagedRows(d, m, t.orgs))
  }

  ghost function Upgraded(d: Digest, m: Migration, suffixes: Suffixes, t: Tables): Tables
    requires Collisionless(d, t.orgs)
  {
    Pinned(m, WithPolicies(d, m, suffixes, t))
  }

  /** The upgrade commits exactly when the random suffixes hit no name that is already in use. */
  ghost predicate UpgradeCommits(d: Digest, m: Migration, suffixes: Suffixes, t: Tables) {
    Unique(CollisionsAside(d, m, suffixes, t.policies))
  }

  // ---- the downgrade's statements ----

  ghost function UnpinnedRecord(d: Digest, m: Migration, t: Tables, r: Uuid): Record
    requires r in t.records
  {
    var rec := t.records[r];
    if
      && Target(m, t, r)
      && rec.policy == ManagedId(d, m, rec.org)
      && rec.policy in t.policies && t.policies[rec.policy].org == rec.org
      && HasNamed(t.policies, rec.org, SystemDefault)
    then
      rec.(policy := TheNamed(t.policies, rec.org, SystemDefault))
    else
      rec
  }

  ghost function Unpinned(d: Digest, m: Migration, t: Tables): Tables {
    t.(records := map r | r in t.records :: UnpinnedRecord(d, m, t, r))
  }

  predicate Deletable(d: Digest, m: Migration, t: Tables, id: Uuid)
    requires id in t.policies
  {
    IsManaged(d, m, id, t.policies[id]) && !Referenced(t, id)
  }

  function ManagedDeleted(d: Digest, m: Migration, t: Tables): Tables {
    t.(policies := map id | id in t.policies && !Deletable(d, m, t, id) :: t.policies[id])
  }

  function MovedOut(d: Digest, m: Migration, suffixes: Suffixes, id: Uuid, p: Policy): Policy {
    if p.name == Reserved(m) && IsManaged(d, m, id, p) then p.(name := Retired(m, id, suffixes(id))) else p
  }

  function ManagedRetired(d: Digest, m: Migration, suffixes: Suffixes, ps: map<Uuid, Policy>): map<Uuid, Policy> {
    map id | id in ps :: MovedOut(d, m, suffixes, id, ps[id])
  }

  function Restored(m: Migration, ps: map<Uuid, Policy>, id: Uuid): Policy
    requires id in ps
  {
    if Marked(m, id, ps[id].name) && !HasNamed(ps, ps[id].org, Reserved(m)) then ps[id].(name := Reserved(m))
      else ps[id]
  }

  function NamesRestored(m: Migration, ps: map<Uuid, Policy>): map<Uuid, Policy> {
    map id | id in ps :: Restored(m, ps, id)
  }

  ghost function BeforeRestoring(d: Digest, m: Migration, suffixes: Suffixes, t: Tables): Tables {
    var kept := ManagedDeleted(d, m, Unpinned(d, m, t));
    kept.(policies := ManagedRetired(d, m, suffixes, kept.policies))
  }

  ghost function Downgraded(d: Digest, m: Migration, suffixes: Suffixes, t: Tables): Tables {
    var b := BeforeRestoring(d, m, suffixes, t);
    b.(policies := NamesRestored(m, b.policies))
  }

  /** The downgrade commits exactly when neither of its renames breaks UNIQUE(org_id, name). */
  ghost predicate DowngradeCommits(d: Digest, m: Migration, suffixes: Suffixes, t: Tables) {
    && Unique(BeforeRestoring(d, m, suffixes, t).policies)
    && Unique(Downgraded(d, m, suffixes, t).policies)
  }
}
