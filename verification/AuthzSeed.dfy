/** Migration 0004: the seed of permissions, roles and grants, and a downgrade that strips nobody of live authority. */
module AuthzSeed {
  import opened Wrappers
  import opened AuthzTables

  // ---- downgrade, statement by statement ----

  predicate Assigned(assignments: map<Id, Assignment>, r: Id) {
    exists a :: a in assignments && assignments[a].role == r
  }

  predicate Removable(t: Tables, names: set<string>, r: Id) {
    r in t.roles && t.roles[r].name in names && !Assigned(t.assignments, r)
  }

  function WithoutGrants(t: Tables, names: set<string>): Tables {
    t.(grants := map g | g in t.grants && !Removable(t, names, t.grants[g].role) :: t.grants[g])
  }

  function WithoutRoles(t: Tables, names: set<string>): Tables {
    t.(roles := map r | r in t.roles && !Removable(t, names, r) :: t.roles[r])
  }

  predicate Used(t: Tables, p: Id) {
    (exists g :: g in t.grants && t.grants[g].permission == p)
      || (exists o :: o in t.overrides && t.overrides[o].permission == p)
  }

  function WithoutPermissions(t: Tables, keys: set<string>): Tables {
    t.(permissions := map p | p in t.permissions && !(t.permissions[p].key in keys && !Used(t, p)) :: t.permissions[p])
  }

  function Downgraded(t: Tables, names: set<string>, keys: set<string>): Tables {
    WithoutPermissions(WithoutRoles(WithoutGrants(t, names), names), keys)
  }

  // ---- what the downgrade promises ----

  /** No grant or assignment of a removable role is left when the role goes. */
  lemma RolesCanGo(t: Tables, names: set<string>, r: Id)
    requires References(t) && Removable(t, names, r)
    ensures var u := WithoutGrants(t, names);
            (forall g :: g in u.grants ==> u.grants[g].role != r) && !Assigned(u.assignments, r)
  {
  }

  lemma DowngradeKeepsValid(t: Tables, names: set<string>, keys: set<string>)
    requires Valid(t)
    ensures Valid(Downgraded(t, names, keys))
  {
    var u := WithoutGrants(t, names);
    var v := WithoutRoles(u, names);
    assert Valid(u);
    forall g | g in v.grants ensures v.grants[g].role in v.roles { assert g in u.grants; }
    forall a | a in v.assignments ensures v.assignments[a].role in v.roles {
      assert Assigned(u.assignments, u.assignments[a].role);
    }
    assert Valid(v);
    PermissionsKeepValid(v, keys);
  }

  lemma PermissionsKeepValid(t: Tables, keys: set<string>)
    requires Valid(t)
    ensures Valid(WithoutPermissions(t, keys))
  {
    var u := WithoutPermissions(t, keys);
    forall g | g in u.grants ensures u.grants[g].permission in u.permissions { assert Used(t, t.grants[g].permission); }
    forall o | o in u.overrides ensures u.overrides[o].permission in u.permissions {
      assert Used(t, t.overrides[o].permission);
    }
  }

  lemma ThroughSurvives(t: Tables, names: set<string>, keys: set<string>, user: Id, a: Id, g: Id, x: Authority)
    requires Valid(t)
    ensures Through(t, user, a, g, x) <==> Through(Downgraded(t, names, keys), user, a, g, x)
  {
    var u := WithoutRoles(WithoutGrants(t, names), names);
    if Through(t, user, a, g, x) {
      assert Assigned(t.assignments, t.grants[g].role);
      assert g in u.grants;
      assert Used(u, u.grants[g].permission);
    }
  }

  lemma DirectlySurvives(t: Tables, names: set<string>, keys: set<string>, user: Id, o: Id, x: Authority)
    requires Valid(t)
    ensures Directly(t, user, o, x) <==> Directly(Downgraded(t, names, keys), user, o, x)
  {
    var u := WithoutRoles(WithoutGrants(t, names), names);
    if Directly(t, user, o, x) {
      assert o in u.overrides && Used(u, u.overrides[o].permission);
    }
  }

  /** Nobody's authority changes, neither what they were granted nor their overrides. */
  lemma DowngradeKeepsAuthority(t: Tables, names: set<string>, keys: set<string>)
    requires Valid(t)
    ensures SameAuthority(t, Downgraded(t, names, keys))
  {
    var u := Downgraded(t, names, keys);
    forall user, x ensures Holds(t, user, x) <==> Holds(u, user, x) {
      forall a, g ensures Through(t, user, a, g, x) <==> Through(u, user, a, g, x) {
        ThroughSurvives(t, names, keys, user, a, g, x);
      }
      forall o ensures Directly(t, user, o, x) <==> Directly(u, user, o, x) {
        DirectlySurvives(t, names, keys, user, o, x);
      }
    }
  }

  /** The role has one of the seeded names, and no row assigns it to anybody. */
  ghost predicate GoesAway(t: Tables, names: set<string>, r: Id)
    requires r in t.roles
  {
    t.roles[r].name in names && forall a :: a in t.assignments ==> t.assignments[a].role != r
  }

  lemma RolesRemoved(t: Tables, names: set<string>)
    requires References(t)
    ensures var u := WithoutRoles(WithoutGrants(t, names), names);
            && u == t.(roles := u.roles, grants := u.grants)
            && (forall r :: r in t.roles ==> (r !in u.roles <==> GoesAway(t, names, r)))
            && (forall r :: r in u.roles ==> r in t.roles && u.roles[r] == t.roles[r])
            && (forall g :: g in t.grants ==> (g !in u.grants <==> GoesAway(t, names, t.grants[g].role)))
            && (forall g :: g in u.grants ==> g in t.grants && u.grants[g] == t.grants[g])
  {
    var v := WithoutGrants(t, names);
    forall r ensures Removable(v, names, r) <==> Removable(t, names, r) {
    }
    forall r | r in t.roles ensures Removable(t, names, r) <==> GoesAway(t, names, r) {
    }
  }

  lemma PermissionsRemoved(t: Tables, keys: set<string>)
    ensures var u := WithoutPermissions(t, keys);
            && u == t.(permissions := u.permissions)
            && (forall p :: p in t.permissions ==> (p !in u.permissions <==> Unneeded(t, keys, p)))
            && (forall p :: p in u.permissions ==> p in t.permissions && u.permissions[p] == t.permissions[p])
  {
  }

  /** The permission has one of the seeded keys, and no grant and no override gives it. */
  ghost predicate Unneeded(t: Tables, keys: set<string>, p: Id)
    requires p in t.permissions
  {
    && t.permissions[p].key in keys
    && (forall g :: g in t.grants ==> t.grants[g].permission != p)
    && (forall o :: o in t.overrides ==> t.overrides[o].permission != p)
  }

  /**
   What goes: the roles of a seeded name that nobody holds, with their grants, and then the permissions of a seeded
   key that no grant and no override gives any more. Roles of other names keep themselves and their grants.
   */
  lemma DowngradeRemovesExactly(t: Tables, names: set<string>, keys: set<string>)
    requires References(t)
    ensures var u := Downgraded(t, names, keys);
            && u.assignments == t.assignments && u.overrides == t.overrides
            && (forall r :: r in t.roles ==> (r !in u.roles <==> GoesAway(t, names, r)))
            && (forall g :: g in t.grants ==> (g !in u.grants <==> GoesAway(t, names, t.grants[g].role)))
            && (forall p :: p in t.permissions ==>
                  (p !in u.permissions <==> Unneeded(t.(grants := u.grants), keys, p)))
            && (forall r :: r in u.roles ==> r in t.roles && u.roles[r] == t.roles[r])
            && (forall g :: g in u.grants ==> g in t.grants && u.grants[g] == t.grants[g])
            && (forall p :: p in u.permissions ==> p in t.permissions && u.permissions[p] == t.permissions[p])
  {
    RolesRemoved(t, names);
    PermissionsRemoved(WithoutRoles(WithoutGrants(t, names), names), keys);
  }

  // ---- upgrade ----

  datatype SeedGrant = SeedGrant(key: string, scope: Option<string>)
  datatype SeedRole = SeedRole(name: string, details: string, grants: seq<SeedGrant>)
  datatype Seed = Seed(permissions: seq<Permission>, roles: seq<SeedRole>)

  /** The bundles only use keys of the catalogue. */
  ghost predicate ProperSeed(seed: Seed) {
    forall i, k :: 0 <= i < |seed.roles| && 0 <= k < |seed.roles[i].grants| ==>
      exists j :: 0 <= j < |seed.permissions| && seed.permissions[j].key == seed.roles[i].grants[k].key
  }

  ghost predicate HasPermission(t: Tables, key: string) {
    exists p :: p in t.permissions && t.permissions[p].key == key
  }

  ghost predicate HasRole(t: Tables, org: Id, name: string) {
    exists r :: r in t.roles && t.roles[r].org == org && t.roles[r].name == name
  }

  /** `g` gives the role of that name in that organization the permission with that key. */
  ghost predicate Gives(t: Tables, g: Grant, org: Id, name: string, key: string) {
    && g.org == org && g.role in t.roles && t.roles[g.role].org == org && t.roles[g.role].name == name
    && g.permission in t.permissions && t.permissions[g.permission].key == key
  }

  ghost predicate HasGrant(t: Tables, org: Id, name: string, key: string) {
    exists g :: g in t.grants && Gives(t, t.grants[g], org, name, key)
  }

  ghost predicate Seeded(t: Tables, seed: Seed, org: Id) {
    && (forall i :: 0 <= i < |seed.permissions| ==> HasPermission(t, seed.permissions[i].key))
    && (forall i :: 0 <= i < |seed.roles| ==> HasBundle(t, org, seed.roles[i]))
  }

  ghost predicate Grown(t: Tables, u: Tables) {
    && Extends(t.permissions, u.permissions) && Extends(t.roles, u.roles) && Extends(t.grants, u.grants)
    && u.assignments == t.assignments && u.overrides == t.overrides
  }

  /** One of the rows gives that key to the role of that name. */
  ghost predicate Offers(t: Tables, rows: seq<Grant>, org: Id, name: string, key: string) {
    exists g :: g in rows && Gives(t, g, org, name, key)
  }

  ghost predicate OffersBundle(t: Tables, rows: seq<Grant>, org: Id, role: SeedRole) {
    forall k :: 0 <= k < |role.grants| ==> Offers(t, rows, org, role.name, role.grants[k].key)
  }

  /** The row gives a key of the bundle, with the bundle's scope. */
  ghost predicate InBundle(t: Tables, g: Grant, org: Id, role: SeedRole) {
    exists k :: 0 <= k < |role.grants| && Gives(t, g, org, role.name, role.grants[k].key)
      && g.scope == role.grants[k].scope
  }

  ghost predicate HasBundle(t: Tables, org: Id, role: SeedRole) {
    HasRole(t, org, role.name) && forall k :: 0 <= k < |role.grants| ==> HasGrant(t, org, role.name, role.grants[k].key)
  }

  ghost predicate KeysKnown(t: Tables, role: SeedRole) {
    forall k :: 0 <= k < |role.grants| ==> HasPermission(t, role.grants[k].key)
  }

  ghost predicate Refers(t: Tables, rows: seq<Grant>) {
    forall g :: g in rows ==> g.role in t.roles && g.permission in t.permissions
  }

  /** Whatever is new belongs to the seed. */
  ghost predicate OnlySeed(t: Tables, u: Tables, seed: Seed, org: Id) {
    && (forall p :: p in u.permissions && p !in t.permissions ==> u.permissions[p] in seed.permissions)
    && (forall r :: r in u.roles && r !in t.roles ==> IsSeedRole(u.roles[r], seed, org))
    && (forall g :: g in u.grants && g !in t.grants ==> IsSeedGrant(u, u.grants[g], seed, org))
  }

  ghost predicate IsSeedRole(r: Role, seed: Seed, org: Id) {
    exists i :: 0 <= i < |seed.roles| && r == Role(org, seed.roles[i].name, seed.roles[i].details)
  }

  ghost predicate IsSeedGrant(t: Tables, g: Grant, seed: Seed, org: Id) {
    exists i :: 0 <= i < |seed.roles| && InBundle(t, g, org, seed.roles[i])
  }

  function SeedNames(seed: Seed): set<string> {
    set i | 0 <= i < |seed.roles| :: seed.roles[i].name
  }

  function SeedKeys(seed: Seed): set<string> {
    set i | 0 <= i < |seed.permissions| :: seed.permissions[i].key
  }

  /** Where no seeded name was in use, every role that is new goes away again, with every grant that is new. */
  lemma NewRolesGo(t: Tables, u: Tables, seed: Seed, org: Id)
    requires References(t) && Grown(t, u) && OnlySeed(t, u, seed, org)
    requires forall r :: r in t.roles ==> t.roles[r].name !in SeedNames(seed)
    ensures forall r :: r in u.roles ==> (Removable(u, SeedNames(seed), r) <==> r !in t.roles)
    ensures forall g :: g in u.grants ==> (Removable(u, SeedNames(seed), u.grants[g].role) <==> g !in t.grants)
  {
    forall r | r in u.roles ensures Removable(u, SeedNames(seed), r) <==> r !in t.roles {
      if r !in t.roles {
        assert IsSeedRole(u.roles[r], seed, org);
      }
    }
    forall g | g in u.grants ensures Removable(u, SeedNames(seed), u.grants[g].role) <==> g !in t.grants {
      if g !in t.grants {
        var i :| 0 <= i < |seed.roles| && InBundle(u, u.grants[g], org, seed.roles[i]);
        assert seed.roles[i].name in SeedNames(seed);
      }
    }
  }

  lemma RolesComeBack(t: Tables, u: Tables, seed: Seed, org: Id)
    requires References(t) && Grown(t, u) && OnlySeed(t, u, seed, org)
    requires forall r :: r in t.roles ==> t.roles[r].name !in SeedNames(seed)
    ensures WithoutRoles(WithoutGrants(u, SeedNames(seed)), SeedNames(seed)) == t.(permissions := u.permissions)
  {
    var names := SeedNames(seed);
    NewRolesGo(t, u, seed, org);
    var v := WithoutGrants(u, names);
    assert v.grants == t.grants;
    forall r ensures Removable(v, names, r) <==> Removable(u, names, r) {
    }
    assert WithoutRoles(v, names).roles == t.roles;
  }

  /** The downgrade after the upgrade is the identity on tables where no seeded key and no seeded name was in use. */
  lemma SeedRoundTrip(t: Tables, u: Tables, seed: Seed, org: Id)
    requires References(t) && Grown(t, u) && OnlySeed(t, u, seed, org)
    requires forall r :: r in t.roles ==> t.roles[r].name !in SeedNames(seed)
    requires forall p :: p in t.permissions ==> t.permissions[p].key !in SeedKeys(seed)
    ensures Downgraded(u, SeedNames(seed), SeedKeys(seed)) == t
  {
    var names := SeedNames(seed);
    RolesComeBack(t, u, seed, org);
    PermissionsComeBack(t, WithoutRoles(WithoutGrants(u, names), names), seed);
  }

  lemma PermissionsComeBack(t: Tables, w: Tables, seed: Seed)
    requires References(t) && Extends(t.permissions, w.permissions) && t == w.(permissions := t.permissions)
    requires forall p :: p in t.permissions ==> t.permissions[p].key !in SeedKeys(seed)
    requires forall p :: p in w.permissions && p !in t.permissions ==> w.permissions[p] in seed.permissions
    ensures WithoutPermissions(w, SeedKeys(seed)) == t
  {
    forall p | p in w.permissions
      ensures p in t.permissions <==> !(w.permissions[p].key in SeedKeys(seed) && !Used(w, p))
    {
    }
    assert WithoutPermissions(w, SeedKeys(seed)).permissions == t.permissions;
  }

  /** Once the rows are in, each of them or a row that it matches gives the key. */
  lemma InsertedRowGives(t: Tables, g: Grant, org: Id, name: string, key: string)
    requires Gives(t, g, org, name, key) && Present(t.grants, g, SameGrant)
    ensures HasGrant(t, org, name, key)
  {
    var id :| id in t.grants && SameGrant(t.grants[id], g);
    assert Gives(t, t.grants[id], org, name, key);
  }

  /** With the grants in place, there is a matching row for everything that would be inserted. */
  lemma GivenIsPresent(t: Tables, g: Grant, org: Id, name: string, key: string)
    requires Valid(t) && HasGrant(t, org, name, key) && Gives(t, g, org, name, key)
    ensures Present(t.grants, g, SameGrant)
  {
    var id :| id in t.grants && Gives(t, t.grants[id], org, name, key);
    assert SameKey(t.permissions[g.permission], t.permissions[t.grants[id].permission]);
    assert SameName(t.roles[g.role], t.roles[t.grants[id].role]);
    assert SameGrant(t.grants[id], g);
  }
}
