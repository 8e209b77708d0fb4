/**
 What happens to the retention tables between and during migrations: the two migrations going up and
 down, records being captured, packs sealed and imports finished, policies written by users, document
 types and dispositions referring to policies, and organizations coming in.
 */
module RetentionState {
  import opened Wrappers
  import opened RetentionNames
  import opened RetentionTables
  import opened RetentionTheorems
  import opened RetentionInterference

  /**
   `holder` is the pack that is sealed or the import run that is finished; `pin` is used while the migration is
   down.
   */
  datatype Step =
    | Up(m: Migration, suffixes: Suffixes)
    | Down(m: Migration, suffixes: Suffixes)
    | Produce(m: Migration, holder: Uuid, record: Uuid, org: Uuid, suffixes: Suffixes, pin: Uuid)
    | Capture(record: Uuid, org: Uuid, pin: Uuid)
    | SetTypeDefault(documentType: Uuid, policy: Option<Uuid>)
    | Dispose(event: Uuid, policy: Option<Uuid>)
    | AddPolicy(id: Uuid, org: Uuid, name: PolicyName, settings: Settings)
    | EditPolicy(id: Uuid, name: PolicyName, settings: Settings)
    | CreateOrganization(org: Uuid)

  /**
   The tables, and the migrations whose last committed step was the upgrade. The rest remembers: the
   organizations that each migration has served since then, every user's policy as its user last wrote
   it, and every record as it was captured.
   */
  datatype State = State(
    tables: Tables, up: set<Migration>,
    served: map<Migration, set<Uuid>>, users: map<Uuid, Policy>, captured: map<Uuid, Record>)

  function Served(s: State, m: Migration): set<Uuid> {
    if m in s.served then s.served[m] else {}
  }

  // ---- sealing a pack, finishing an import ----

  /** `_ensure_managed_permanent_policy`: move a collision of the organization aside and write the managed row. */
  function Ensured(d: Digest, m: Migration, suffixes: Suffixes, ps: map<Uuid, Policy>, org: Uuid): map<Uuid, Policy> {
    var aside := map id | id in ps :: if ps[id].org == org then MovedAside(d, m, suffixes, id, ps[id]) else ps[id];
    aside[ManagedId(d, m, org) := ManagedRow(m, org)]
  }

  function EnsuredState(d: Digest, m: Migration, suffixes: Suffixes, s: State, org: Uuid): State {
    if m in s.up then
      s.(tables := s.tables.(policies := Ensured(d, m, suffixes, s.tables.policies, org)),
         served := s.served[m := Served(s, m) + {org}])
    else s
  }

  /** The pack or the import run has no record yet. */
  predicate Open(t: Tables, m: Migration, holder: Uuid, org: Uuid) {
    match m
    case SealedPack0077 => holder in t.packs ==> t.packs[holder] == Pack(org, None)
    case ImportReport0090 => holder in t.importRuns ==> t.importRuns[holder] == None
  }

  function Closed(t: Tables, m: Migration, holder: Uuid, org: Uuid, r: Uuid): Tables {
    match m
    case SealedPack0077 => t.(packs := t.packs[holder := Pack(org, Some(r))])
    case ImportReport0090 => t.(importRuns := t.importRuns[holder := Some(r)])
  }

  function WithRecord(s: State, t: Tables, r: Uuid, rec: Record): State {
    s.(tables := t.(records := t.records[r := rec]), captured := s.captured[r := rec])
  }

  function Produced(d: Digest, s: State, m: Migration, holder: Uuid, r: Uuid, org: Uuid, pin: Uuid): State {
    WithRecord(s, Closed(s.tables, m, holder, org, r), r, Record(org, if m in s.up then ManagedId(d, m, org) else pin))
  }

  // ---- policies that users write ----

  /**
   A name that a user may give: not a marked one, and a reserved one only while its migration is down, when
   the application does not know yet that it is reserved.
   */
  predicate Free(up: set<Migration>, name: PolicyName) {
    name.Other? || (name.Reserved? && name.m !in up)
  }

  predicate NobodysId(d: Digest, t: Tables, id: Uuid) {
    forall m, o :: o in t.orgs ==> id != ManagedId(d, m, o)
  }

  /** The managed names are immutable while they are managed, and the default is never renamed. */
  predicate MayEdit(d: Digest, s: State, id: Uuid, name: PolicyName) {
    && id in s.tables.policies
    && var p := s.tables.policies[id];
       && !(p.name.Reserved? && p.name.m in s.up)
       && (name == p.name || (
            && p.name != SystemDefault && Free(s.up, name) && !HasNamed(s.tables.policies, p.org, name)
            && (name.Reserved? ==> id in s.users)))
  }

  function Edited(s: State, id: Uuid, name: PolicyName, settings: Settings): State
    requires id in s.tables.policies
  {
    var p := s.tables.policies[id];
    var own := if id in s.users && name == p.name then s.users[id].name else name;
    s.(tables := s.tables.(policies := s.tables.policies[id := Policy(p.org, name, settings)]),
       users := if id in s.users then s.users[id := Policy(p.org, own, settings)] else s.users)
  }

  // ---- steps ----

  ghost predicate Commits(d: Digest, s: State, step: Step) {
    var t := s.tables;
    match step
    case Up(m, suffixes) => UpgradeCommits(d, m, suffixes, t)
    case Down(m, suffixes) => DowngradeCommits(d, m, suffixes, t)
    case Produce(m, h, r, org, suffixes, pin) =>
      && Open(t, m, h, org) && NewRecord(t, r) && org in t.orgs && pin in t.policies
      && (m in s.up ==> Unique(Ensured(d, m, suffixes, t.policies, org)))
    case Capture(r, org, p) => NewRecord(t, r) && org in t.orgs && p in t.policies
    case SetTypeDefault(_, p) => p.Some? ==> p.value in t.policies
    case Dispose(e, p) => e !in t.events && (p.Some? ==> p.value in t.policies)
    case AddPolicy(id, org, name, _) =>
      && id !in t.policies && org in t.orgs && NobodysId(d, t, id)
      && (Free(s.up, name) || name == SystemDefault) && !HasNamed(t.policies, org, name)
    case EditPolicy(id, name, _) => MayEdit(d, s, id, name)
    case CreateOrganization(o) =>
      o !in t.orgs && Collisionless(d, t.orgs + {o}) && forall m :: ManagedId(d, m, o) !in t.policies
  }

  /** A record is captured once, and only then can a pack or an import run name it. */
  predicate NewRecord(t: Tables, r: Uuid) {
    && r !in t.records
    && (forall p :: p in t.packs ==> t.packs[p].packRecord != Some(r))
    && (forall i :: i in t.importRuns ==> t.importRuns[i] != Some(r))
  }

  /** A capture comes in with a new record of the organization; a pack or an import run while it is open. */
  lemma AdmittedCaptures(d: Digest, s: State, r: Uuid, org: Uuid, p: Uuid, holder: Uuid, m: Migration,
                         suffixes: Suffixes)
    ensures var t := s.tables;
      var unnamed := r !in t.records && (forall h :: h in t.packs ==> t.packs[h].packRecord != Some(r))
        && (forall h :: h in t.importRuns ==> t.importRuns[h] != Some(r));
      && (Commits(d, s, Capture(r, org, p)) <==> unnamed && org in t.orgs && p in t.policies)
      && (m !in s.up ==> (Commits(d, s, Produce(m, holder, r, org, suffixes, p)) <==>
            && unnamed && org in t.orgs && p in t.policies
            && (m == SealedPack0077 ==> holder !in t.packs || t.packs[holder] == Pack(org, None))
            && (m == ImportReport0090 ==> holder !in t.importRuns || t.importRuns[holder] == None)))
  {
  }

  /** A new policy is admitted with any name that is neither marked nor reserved by a migration that is up. */
  lemma AdmittedAdditions(d: Digest, s: State, id: Uuid, org: Uuid, name: PolicyName, settings: Settings)
    ensures Commits(d, s, AddPolicy(id, org, name, settings)) <==>
      && id !in s.tables.policies && org in s.tables.orgs
      && (forall m, o :: o in s.tables.orgs ==> id != ManagedId(d, m, o))
      && (forall p :: p in s.tables.policies && s.tables.policies[p].org == org ==> s.tables.policies[p].name != name)
      && !name.Aside? && !name.Retired? && (name.Reserved? ==> name.m !in s.up)
  {
  }

  /**
   An edit is admitted unless the policy bears a name that is reserved now. It keeps the name, or gives another such
   name to a policy other than the default; no managed row gets a reserved name that way.
   */
  lemma AdmittedEdits(d: Digest, s: State, id: Uuid, name: PolicyName, settings: Settings)
    requires id in s.tables.policies
    ensures var p := s.tables.policies[id];
      Commits(d, s, EditPolicy(id, name, settings)) <==>
        && (p.name.Reserved? ==> p.name.m !in s.up)
        && (name != p.name ==>
              && !p.name.SystemDefault? && !name.SystemDefault? && !name.Aside? && !name.Retired?
              && (name.Reserved? ==> name.m !in s.up && id in s.users)
              && (forall q :: q in s.tables.policies && s.tables.policies[q].org == p.org ==>
                    s.tables.policies[q].name != name))
  {
  }

  /** A step that aborts leaves everything as it was. */
  ghost function Next(d: Digest, s: State, step: Step): State
    requires Valid(d, s.tables)
  {
    var t := s.tables;
    if !Commits(d, s, step) then s else
    match step
    case Up(m, suffixes) =>
      s.(tables := Upgraded(d, m, suffixes, t), up := s.up + {m}, served := s.served[m := t.orgs])
    case Down(m, suffixes) => s.(tables := Downgraded(d, m, suffixes, t), up := s.up - {m})
    case Produce(m, h, r, org, suffixes, pin) => Produced(d, EnsuredState(d, m, suffixes, s, org), m, h, r, org, pin)
    case Capture(r, org, p) => WithRecord(s, t, r, Record(org, p))
    case SetTypeDefault(dt, p) => s.(tables := t.(documentTypes := t.documentTypes[dt := p]))
    case Dispose(e, p) => s.(tables := t.(events := t.events[e := p]))
    case AddPolicy(id, org, name, settings) =>
      s.(tables := t.(policies := t.policies[id := Policy(org, name, settings)]),
         users := s.users[id := Policy(org, name, settings)])
    case EditPolicy(id, name, settings) => Edited(s, id, name, settings)
    case CreateOrganization(o) => s.(tables := t.(orgs := t.orgs + {o}))
  }

  /** Each step writes the one thing that it is about. */
  lemma StepWrites(d: Digest, s: State, step: Step)
    requires Valid(d, s.tables) && Commits(d, s, step)
    ensures var t := Next(d, s, step).tables;
      match step
      case Produce(m, h, r, org, _, pin) =>
        && r in t.records && t.records[r].org == org
        && t.records[r].policy == (if m in s.up then ManagedId(d, m, org) else pin)
        && (m in s.up ==> org in Served(Next(d, s, step), m))
        && (m == SealedPack0077 ==> h in t.packs && t.packs[h] == Pack(org, Some(r)))
        && (m == ImportReport0090 ==> h in t.importRuns && t.importRuns[h] == Some(r))
      case Capture(r, org, p) => r in t.records && t.records[r] == Record(org, p)
      case SetTypeDefault(dt, p) => dt in t.documentTypes && t.documentTypes[dt] == p
      case Dispose(e, p) => e in t.events && t.events[e] == p
      case AddPolicy(id, org, name, settings) => id in t.policies && t.policies[id] == Policy(org, name, settings)
      case EditPolicy(id, name, settings) =>
        id in t.policies && t.policies[id] == Policy(s.tables.policies[id].org, name, settings)
      case CreateOrganization(o) => o in t.orgs
      case Up(m, _) => m in Next(d, s, step).up
      case Down(m, _) => m !in Next(d, s, step).up
  {
  }

  /** The migrations write policies and records alone. */
  lemma {:induction false} MigrationsKeepTheRest(d: Digest, s: State, step: Step)
    requires Valid(d, s.tables) && (step.Up? || step.Down?)
    ensures var t, u := s.tables, Next(d, s, step).tables; u == t.(policies := u.policies, records := u.records)
  {
  }

  // ---- what every reachable state keeps ----

  /** The name a user's policy carries now, given the name that its user gave it. */
  ghost predicate NameFits(up: set<Migration>, id: Uuid, was: PolicyName, name: PolicyName) {
    if was.Reserved? && was.m in up then Marked(was.m, id, name) else name == was
  }

  /** A user's policy keeps its org and its settings, and its name but for a marker. */
  ghost predicate UserFits(up: set<Migration>, id: Uuid, was: Policy, p: Policy) {
    p.org == was.org && p.settings == was.settings && NameFits(up, id, was.name, p.name)
  }

  /**
   A row that a migration added: its id says so, and its name is the migration's own or one that a user gave it
   later.
   */
  ghost predicate AddedRow(d: Digest, id: Uuid, p: Policy) {
    exists m :: IsManaged(d, m, id, p) && OwnName(m, id, p.name)
  }

  predicate OwnName(m: Migration, id: Uuid, name: PolicyName) {
    name == Reserved(m) || (name.Retired? && name.m == m && name.id == id) || name.Other?
  }

  ghost predicate UsersOk(d: Digest, users: map<Uuid, Policy>) {
    && Unique(users)
    && (forall id, m :: id in users ==> !IsManaged(d, m, id, users[id]))
    && (forall id :: id in users ==> !users[id].name.Aside? && !users[id].name.Retired?)
  }

  ghost predicate UsersKept(d: Digest, up: set<Migration>, users: map<Uuid, Policy>, ps: map<Uuid, Policy>) {
    && (forall id :: id in users ==> id in ps && UserFits(up, id, users[id], ps[id]))
    && (forall id :: id in ps && id !in users ==> AddedRow(d, id, ps[id]))
  }

  predicate AnyTarget(t: Tables, r: Uuid)
    requires r in t.records
  {
    Target(SealedPack0077, t, r) || Target(ImportReport0090, t, r)
  }

  /** A record stays in its org, and where it was pinned unless it is a target. */
  ghost predicate RecordsKept(captured: map<Uuid, Record>, t: Tables) {
    && t.records.Keys == captured.Keys
    && (forall r :: r in captured ==> t.records[r].org == captured[r].org)
    && (forall r :: r in captured && !AnyTarget(t, r) ==> t.records[r] == captured[r])
  }

  /** A migration that is down has no managed row of the reserved name. */
  ghost predicate Withdrawn(d: Digest, m: Migration, t: Tables) {
    forall id :: id in t.policies && IsManaged(d, m, id, t.policies[id]) ==> t.policies[id].name != Reserved(m)
  }

  ghost predicate Shows(d: Digest, s: State, m: Migration) {
    if m in s.up then Held(d, m, s.tables, Served(s, m)) else Withdrawn(d, m, s.tables)
  }

  ghost predicate StatusShows(d: Digest, s: State) {
    forall m :: Shows(d, s, m)
  }

  ghost predicate Inv(d: Digest, s: State) {
    && Valid(d, s.tables)
    && TargetsDisjoint(s.tables)
    && UsersOk(d, s.users)
    && UsersKept(d, s.up, s.users, s.tables.policies)
    && RecordsKept(s.captured, s.tables)
    && StatusShows(d, s)
  }

  /** Tables that neither migration has ever touched. */
  ghost predicate Untouched(d: Digest, t: Tables) {
    && Valid(d, t)
    && TargetsDisjoint(t)
    && (forall m, id :: id in t.policies ==> !IsManaged(d, m, id, t.policies[id]))
    && (forall id :: id in t.policies ==> !t.policies[id].name.Aside? && !t.policies[id].name.Retired?)
  }

  /** A new installation, with whatever organizations, is such tables, if the digest has no collisions. */
  lemma NewTablesAreUntouched(d: Digest, orgs: set<Uuid>)
    requires forall m, n, o, q :: o in orgs && q in orgs && d(m, o) == d(n, q) ==> m == n && o == q
    ensures Untouched(d, Tables(orgs, map[], map[], map[], map[], map[], map[]))
  {
  }

  function Start(t: Tables): State {
    State(t, {}, map[], t.policies, t.records)
  }

  lemma UntouchedStarts(d: Digest, t: Tables)
    requires Untouched(d, t)
    ensures Inv(d, Start(t))
  {
  }
}
