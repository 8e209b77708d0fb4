/** The statements of 0004 and 0062 over tables that they change row by row. */
module AuthzDatabase {
  import opened Wrappers
  import opened AuthzTables
  import opened AuthzSeed
  import AuthzSteward

  class Database {
    var permissions: map<Id, Permission>
    var roles: map<Id, Role>
    var grants: map<Id, Grant>
    var assignments: map<Id, Assignment>
    var overrides: map<Id, Override>

    constructor (t: Tables)
      ensures T() == t
    {
      permissions, roles, grants, assignments, overrides := t.permissions, t.roles, t.grants, t.assignments,
        t.overrides;
    }

    function T(): Tables
      reads this
    {
      Tables(permissions, roles, grants, assignments, overrides)
    }

    // ---- deleting under RESTRICT ----

    /** PostgreSQL refuses to delete a role that a grant or an assignment still refers to. */
    method DeleteRole(r: Id)
      requires r in roles
      requires forall g :: g in grants ==> grants[g].role != r
      requires forall a :: a in assignments ==> assignments[a].role != r
      modifies this`roles
      ensures roles == old(roles) - {r}
    {
      roles := roles - {r};
    }

    /** And a permission that a grant or an override still refers to. */
    method DeletePermission(p: Id)
      requires p in permissions
      requires forall g :: g in grants ==> grants[g].permission != p
      requires forall o :: o in overrides ==> overrides[o].permission != p
      modifies this`permissions
      ensures permissions == old(permissions) - {p}
    {
      permissions := permissions - {p};
    }

    method DeleteGrants(names: set<string>)
      modifies this`grants
      ensures T() == WithoutGrants(old(T()), names)
    {
      ghost var was := grants;
      var todo := set g | g in grants && Removable(T(), names, grants[g].role);
      ghost var doomed := todo;
      while todo != {}
        invariant todo <= doomed <= was.Keys
        invariant grants == was - (doomed - todo)
      {
        var g :| g in todo;
        grants := grants - {g};
        todo := todo - {g};
      }
    }

    method DeleteRoles(names: set<string>)
      requires forall r, g :: Removable(T(), names, r) && g in grants ==> grants[g].role != r
      modifies this`roles
      ensures T() == WithoutRoles(old(T()), names)
    {
      ghost var was := roles;
      var todo := set r | r in roles && Removable(T(), names, r);
      ghost var doomed := todo;
      while todo != {}
        invariant todo <= doomed <= was.Keys
        invariant roles == was - (doomed - todo)
      {
        var r :| r in todo;
        assert Removable(old(T()), names, r);
        DeleteRole(r);
        todo := todo - {r};
      }
    }

    method DeletePermissions(keys: set<string>)
      modifies this`permissions
      ensures T() == WithoutPermissions(old(T()), keys)
    {
      ghost var was := permissions;
      var todo := set p | p in permissions && permissions[p].key in keys && !Used(T(), p);
      ghost var doomed := todo;
      while todo != {}
        invariant todo <= doomed <= was.Keys
        invariant permissions == was - (doomed - todo)
      {
        var p :| p in todo;
        assert !Used(old(T()), p);
        DeletePermission(p);
        todo := todo - {p};
      }
    }

    /** 0004 `downgrade`: no statement meets a foreign key. */
    method DowngradeSeed(names: set<string>, keys: set<string>)
      requires Valid(T())
      modifies this
      ensures T() == Downgraded(old(T()), names, keys)
      ensures Valid(T()) && SameAuthority(old(T()), T())
      ensures forall r :: r in old(roles) ==> (r !in roles <==> GoesAway(old(T()), names, r))
    {
      ghost var t := T();
      DeleteGrants(names);
      forall r, g | Removable(T(), names, r) && g in grants ensures grants[g].role != r {
        RolesCanGo(t, names, r);
      }
      DeleteRoles(names);
      DeletePermissions(keys);
      DowngradeKeepsValid(t, names, keys);
      DowngradeKeepsAuthority(t, names, keys);
      DowngradeRemovesExactly(t, names, keys);
    }

    // ---- seeding ----

    method InsertPermissions(rows: seq<Permission>)
      requires Valid(T())
      modifies this`permissions
      ensures Valid(T()) && Inserted(old(permissions), rows, SameKey, permissions)
    {
      permissions := InsertAll(permissions, rows, SameKey);
    }

    method InsertRoles(rows: seq<Role>)
      requires Valid(T())
      modifies this`roles
      ensures Valid(T()) && Inserted(old(roles), rows, SameName, roles)
    {
      roles := InsertAll(roles, rows, SameName);
    }

    method InsertGrants(rows: seq<Grant>)
      requires Valid(T()) && Refers(T(), rows)
      modifies this`grants
      ensures Valid(T()) && Inserted(old(grants), rows, SameGrant, grants)
    {
      grants := InsertAll(grants, rows, SameGrant);
    }

    /** `perm_ids[key]` */
    method PermissionId(key: string) returns (p: Id)
      requires HasPermission(T(), key)
      ensures p in permissions && permissions[p].key == key
    {
      p :| p in permissions && permissions[p].key == key;
    }

    /** `role_ids[name]` */
    method RoleId(org: Id, name: string) returns (r: Id)
      requires HasRole(T(), org, name)
      ensures r in roles && roles[r].org == org && roles[r].name == name
    {
      r :| r in roles && roles[r].org == org && roles[r].name == name;
    }

    method RoleRows(org: Id, role: SeedRole) returns (rows: seq<Grant>)
      requires HasRole(T(), org, role.name) && KeysKnown(T(), role)
      ensures Refers(T(), rows) && OffersBundle(T(), rows, org, role)
      ensures forall g :: g in rows ==> InBundle(T(), g, org, role)
    {
      var r := RoleId(org, role.name);
      rows := [];
      for i := 0 to |role.grants|
        invariant Refers(T(), rows) && |rows| == i
        invariant forall k :: 0 <= k < i ==>
          Gives(T(), rows[k], org, role.name, role.grants[k].key) && rows[k].scope == role.grants[k].scope
      {
        var p := PermissionId(role.grants[i].key);
        rows := rows + [Grant(org, r, p, role.grants[i].scope)];
      }
    }

    method GrantRows(org: Id, seed: Seed) returns (rows: seq<Grant>)
      requires forall i :: 0 <= i < |seed.roles| ==>
        HasRole(T(), org, seed.roles[i].name) && KeysKnown(T(), seed.roles[i])
      ensures Refers(T(), rows) && SeedRows(T(), rows, org, seed)
      ensures forall i :: 0 <= i < |seed.roles| ==> OffersBundle(T(), rows, org, seed.roles[i])
    {
      rows := [];
      for i := 0 to |seed.roles|
        invariant Refers(T(), rows) && SeedRows(T(), rows, org, seed)
        invariant forall j :: 0 <= j < i ==> OffersBundle(T(), rows, org, seed.roles[j])
      {
        var more := RoleRows(org, seed.roles[i]);
        forall j | 0 <= j < i + 1 ensures OffersBundle(T(), rows + more, org, seed.roles[j]) {
          MoreOffers(T(), rows, more, org, seed.roles[j]);
        }
        rows := rows + more;
      }
    }

    /**
     0004 `upgrade`: existing rows stay as they are, the seed is there afterwards, and a second time changes
     nothing.
     */
    method UpgradeSeed(seed: Seed, defaultOrg: Option<Id>) returns (ok: bool)
      requires Valid(T()) && ProperSeed(seed)
      modifies this
      ensures ok <==> defaultOrg.Some?
      ensures !ok ==> T() == old(T())
      ensures Valid(T()) && Grown(old(T()), T())
      ensures ok ==> OnlySeed(old(T()), T(), seed, defaultOrg.value)
      ensures ok ==> Seeded(T(), seed, defaultOrg.value)
      ensures ok && Seeded(old(T()), seed, defaultOrg.value) ==> T() == old(T())
    {
      ghost var t := T();
      var was := permissions;
      InsertPermissions(seed.permissions);
      if defaultOrg.None? {
        permissions := was;  // the error ends the migration and its transaction
        return false;
      }
      var org := defaultOrg.value;
      PermissionsThere(T(), seed);
      var roleRows := SeedRoles(seed, org);
      InsertRoles(roleRows);
      RolesThere(T(), seed, org);
      ghost var u := T();
      assert Grown(t, u);
      var rows := GrantRows(org, seed);
      InsertGrants(rows);
      SeededAfter(u, T(), rows, seed, org);
      OnlySeedAfter(t, u, T(), rows, seed, org);
      if Seeded(t, seed, org) {
        SeedingTwice(t, u, T(), rows, seed, org);
      }
      return true;
    }

    // ---- 0062 ----

    /** The role of each organization crossed with the permissions of the keys. */
    method StewardRows(name: string, keys: set<string>, scope: string) returns (rows: seq<Grant>)
      ensures forall g :: g in rows ==> AuthzSteward.StewardGrant(T(), g, name, keys, scope)
      ensures forall r, p :: AuthzSteward.Named(T(), r, name) && p in permissions && permissions[p].key in keys ==>
        Grant(roles[r].org, r, p, Some(scope)) in rows
    {
      rows := [];
      var todo := set r, p | r in roles && p in permissions && roles[r].name == name && permissions[p].key in keys ::
        (r, p);
      ghost var all := todo;
      while todo != {}
        invariant todo <= all
        invariant forall g :: g in rows ==> AuthzSteward.StewardGrant(T(), g, name, keys, scope)
        invariant forall x :: x in all - todo ==> Grant(roles[x.0].org, x.0, x.1, Some(scope)) in rows
      {
        var x :| x in todo;
        todo := todo - {x};
        rows := rows + [Grant(roles[x.0].org, x.0, x.1, Some(scope))];
      }
      forall r, p | AuthzSteward.Named(T(), r, name) && p in permissions && permissions[p].key in keys
        ensures Grant(roles[r].org, r, p, Some(scope)) in rows {
        assert (r, p) in all;
      }
    }

    /** 0062 `upgrade` */
    method UpgradeSteward(orgs: seq<Id>, name: string, details: string, keys: set<string>, scope: string)
      requires Valid(T())
      modifies this
      ensures Valid(T()) && AuthzSteward.OnlyThatRole(old(T()), T(), name)
      ensures forall r :: r in roles && r !in old(roles) ==>
        roles[r].org in orgs && roles[r] == Role(roles[r].org, name, details)
      ensures forall g :: g in grants && g !in old(grants) ==>
        AuthzSteward.StewardGrant(T(), grants[g], name, keys, scope)
      ensures orgs == [] ==> T() == old(T())
      ensures orgs != [] ==> AuthzSteward.EveryOrgServed(T(), orgs, name, keys)
    {
      if orgs == [] { return; }
      ghost var t := T();
      var rows := StewardRoles(orgs, name, details);
      InsertRoles(rows);
      ghost var u := T();
      var grantRows := StewardRows(name, keys, scope);
      InsertGrants(grantRows);
      OrgsHaveRole(u, orgs, name, details);
      StewardServed(u, T(), orgs, name, keys, scope, grantRows);
    }

    method DeleteAssignmentsOf(doomed: set<Id>)
      modifies this`assignments
      ensures assignments == map a | a in old(assignments) && old(assignments)[a].role !in doomed :: old(assignments)[a]
    {
      ghost var was := assignments;
      var todo := set a | a in assignments && assignments[a].role in doomed;
      ghost var gone := todo;
      while todo != {}
        invariant todo <= gone <= was.Keys
        invariant assignments == was - (gone - todo)
      {
        var a :| a in todo;
        assignments := assignments - {a};
        todo := todo - {a};
      }
    }

    method DeleteGrantsOf(doomed: set<Id>)
      modifies this`grants
      ensures grants == map g | g in old(grants) && old(grants)[g].role !in doomed :: old(grants)[g]
    {
      ghost var was := grants;
      var todo := set g | g in grants && grants[g].role in doomed;
      ghost var gone := todo;
      while todo != {}
        invariant todo <= gone <= was.Keys
        invariant grants == was - (gone - todo)
      {
        var g :| g in todo;
        grants := grants - {g};
        todo := todo - {g};
      }
    }

    method DeleteRolesOf(doomed: set<Id>)
      requires doomed <= roles.Keys
      requires forall g :: g in grants ==> grants[g].role !in doomed
      requires forall a :: a in assignments ==> assignments[a].role !in doomed
      modifies this`roles
      ensures roles == old(roles) - doomed
    {
      var todo := doomed;
      while todo != {}
        invariant todo <= doomed <= old(roles).Keys
        invariant roles == old(roles) - (doomed - todo)
      {
        var r :| r in todo;
        DeleteRole(r);
        todo := todo - {r};
      }
    }

    /** 0062 `downgrade`: the children go first, so no statement meets a foreign key. */
    method DowngradeSteward(name: string)
      requires Valid(T())
      modifies this
      ensures T() == AuthzSteward.WithoutRole(old(T()), name)
      ensures Valid(T())
    {
      ghost var t := T();
      DeleteRoleNamed(name);
      AuthzSteward.WithoutRoleKeepsValid(t, name);
    }

    method DeleteRoleNamed(name: string)
      requires References(T())
      modifies this
      ensures T() == AuthzSteward.WithoutRole(old(T()), name)
    {
      ghost var t := T();
      var doomed := set r | r in roles && roles[r].name == name;
      DeleteAssignmentsOf(doomed);
      DeleteGrantsOf(doomed);
      DeleteRolesOf(doomed);
      DoomedAreNamed(t, doomed, name);
    }
  }

  lemma DoomedAreNamed(t: Tables, doomed: set<Id>, name: string)
    requires doomed == set r | r in t.roles && t.roles[r].name == name
    ensures var v := AuthzSteward.WithoutRole(t, name);
            && v.roles == t.roles - doomed
            && v.grants == (map g | g in t.grants && t.grants[g].role !in doomed :: t.grants[g])
            && v.assignments == (map a | a in t.assignments && t.assignments[a].role !in doomed :: t.assignments[a])
  {
  }

  function StewardRoles(orgs: seq<Id>, name: string, details: string): (rows: seq<Role>)
    ensures |rows| == |orgs|
    ensures forall i :: 0 <= i < |rows| ==> rows[i] == Role(orgs[i], name, details)
  {
    seq(|orgs|, i requires 0 <= i < |orgs| => Role(orgs[i], name, details))
  }

  lemma OrgsHaveRole(t: Tables, orgs: seq<Id>, name: string, details: string)
    requires forall i :: 0 <= i < |orgs| ==> Present(t.roles, StewardRoles(orgs, name, details)[i], SameName)
    ensures forall i :: 0 <= i < |orgs| ==> AuthzSteward.OrgHas(t, orgs[i], name)
  {
    forall i | 0 <= i < |orgs| ensures AuthzSteward.OrgHas(t, orgs[i], name) {
      assert Present(t.roles, StewardRoles(orgs, name, details)[i], SameName);
      var r :| r in t.roles && SameName(t.roles[r], StewardRoles(orgs, name, details)[i]);
      assert AuthzSteward.Named(t, r, name);
    }
  }

  lemma StewardServed(u: Tables, v: Tables, orgs: seq<Id>, name: string, keys: set<string>, scope: string,
          rows: seq<Grant>)
    requires v == u.(grants := v.grants) && Inserted(u.grants, rows, SameGrant, v.grants)
    requires forall i :: 0 <= i < |orgs| ==> AuthzSteward.OrgHas(u, orgs[i], name)
    requires forall r, p :: AuthzSteward.Named(u, r, name) && p in u.permissions && u.permissions[p].key in keys ==>
      Grant(u.roles[r].org, r, p, Some(scope)) in rows
    ensures AuthzSteward.EveryOrgServed(v, orgs, name, keys)
  {
    forall r, p | AuthzSteward.Named(v, r, name) && p in v.permissions && v.permissions[p].key in keys
      ensures exists g :: g in v.grants && SameGrant(v.grants[g], Grant(v.roles[r].org, r, p, None)) {
      assert AuthzSteward.Named(u, r, name);
      var row := Grant(u.roles[r].org, r, p, Some(scope));
      var n :| 0 <= n < |rows| && rows[n] == row;
      assert Present(v.grants, rows[n], SameGrant);
      var g :| g in v.grants && SameGrant(v.grants[g], row);
    }
    forall i | 0 <= i < |orgs| ensures AuthzSteward.OrgHas(v, orgs[i], name) {
      assert AuthzSteward.OrgHas(u, orgs[i], name);
      var r :| AuthzSteward.Named(u, r, name) && u.roles[r].org == orgs[i];
      assert AuthzSteward.Named(v, r, name);
    }
  }

  function SeedRoles(seed: Seed, org: Id): (rows: seq<Role>)
    ensures |rows| == |seed.roles|
    ensures forall i :: 0 <= i < |rows| ==> rows[i] == Role(org, seed.roles[i].name, seed.roles[i].details)
  {
    seq(|seed.roles|, i requires 0 <= i < |seed.roles| => Role(org, seed.roles[i].name, seed.roles[i].details))
  }

  /** Every row gives a key of some bundle. */
  ghost predicate SeedRows(t: Tables, rows: seq<Grant>, org: Id, seed: Seed) {
    forall g :: g in rows ==> IsSeedGrant(t, g, seed, org)
  }

  lemma MoreOffers(t: Tables, rows: seq<Grant>, more: seq<Grant>, org: Id, role: SeedRole)
    requires OffersBundle(t, rows, org, role) || OffersBundle(t, more, org, role)
    ensures OffersBundle(t, rows + more, org, role)
  {
    var some := if OffersBundle(t, rows, org, role) then rows else more;
    forall k | 0 <= k < |role.grants| ensures Offers(t, rows + more, org, role.name, role.grants[k].key) {
      assert Offers(t, some, org, role.name, role.grants[k].key);
      var g :| g in some && Gives(t, g, org, role.name, role.grants[k].key);
      assert g in rows + more;
    }
  }

  lemma PermissionsThere(t: Tables, seed: Seed)
    requires ProperSeed(seed)
    requires forall i :: 0 <= i < |seed.permissions| ==> Present(t.permissions, seed.permissions[i], SameKey)
    ensures forall i :: 0 <= i < |seed.permissions| ==> HasPermission(t, seed.permissions[i].key)
    ensures forall i :: 0 <= i < |seed.roles| ==> KeysKnown(t, seed.roles[i])
  {
    forall i | 0 <= i < |seed.permissions| ensures HasPermission(t, seed.permissions[i].key) {
      assert Present(t.permissions, seed.permissions[i], SameKey);
      var p :| p in t.permissions && SameKey(t.permissions[p], seed.permissions[i]);
    }
    forall i, k | 0 <= i < |seed.roles| && 0 <= k < |seed.roles[i].grants|
      ensures HasPermission(t, seed.roles[i].grants[k].key) {
      var j :| 0 <= j < |seed.permissions| && seed.permissions[j].key == seed.roles[i].grants[k].key;
      assert HasPermission(t, seed.permissions[j].key);
    }
  }

  lemma RolesThere(t: Tables, seed: Seed, org: Id)
    requires forall i :: 0 <= i < |seed.roles| ==> Present(t.roles, SeedRoles(seed, org)[i], SameName)
    ensures forall i :: 0 <= i < |seed.roles| ==> HasRole(t, org, seed.roles[i].name)
  {
    forall i | 0 <= i < |seed.roles| ensures HasRole(t, org, seed.roles[i].name) {
      assert Present(t.roles, SeedRoles(seed, org)[i], SameName);
      var r :| r in t.roles && SameName(t.roles[r], SeedRoles(seed, org)[i]);
    }
  }

  lemma SeededAfter(u: Tables, v: Tables, rows: seq<Grant>, seed: Seed, org: Id)
    requires v == u.(grants := v.grants)
    requires forall i :: 0 <= i < |seed.permissions| ==> HasPermission(u, seed.permissions[i].key)
    requires forall i :: 0 <= i < |seed.roles| ==> HasRole(u, org, seed.roles[i].name)
    requires forall i :: 0 <= i < |seed.roles| ==> OffersBundle(u, rows, org, seed.roles[i])
    requires Inserted(u.grants, rows, SameGrant, v.grants)
    ensures Seeded(v, seed, org)
  {
    forall i | 0 <= i < |seed.roles| ensures HasBundle(v, org, seed.roles[i]) {
      BundleAfter(u, v, rows, org, seed.roles[i]);
    }
  }

  lemma OnlySeedAfter(t: Tables, u: Tables, v: Tables, rows: seq<Grant>, seed: Seed, org: Id)
    requires u == t.(permissions := u.permissions, roles := u.roles) && v == u.(grants := v.grants)
    requires Inserted(t.permissions, seed.permissions, SameKey, u.permissions)
    requires Inserted(t.roles, SeedRoles(seed, org), SameName, u.roles)
    requires SeedRows(u, rows, org, seed) && Inserted(u.grants, rows, SameGrant, v.grants)
    ensures OnlySeed(t, v, seed, org)
  {
    forall r | r in v.roles && r !in t.roles ensures IsSeedRole(v.roles[r], seed, org) {
      var i :| 0 <= i < |seed.roles| && SeedRoles(seed, org)[i] == v.roles[r];
    }
    forall g | g in v.grants && g !in t.grants ensures IsSeedGrant(v, v.grants[g], seed, org) {
      BundleUnaffected(u, v, v.grants[g], org, seed);
    }
  }

  lemma BundleUnaffected(u: Tables, v: Tables, g: Grant, org: Id, seed: Seed)
    requires v == u.(grants := v.grants) && IsSeedGrant(u, g, seed, org)
    ensures IsSeedGrant(v, g, seed, org)
  {
    var i :| 0 <= i < |seed.roles| && InBundle(u, g, org, seed.roles[i]);
    var role := seed.roles[i];
    var k :| 0 <= k < |role.grants| && Gives(u, g, org, role.name, role.grants[k].key)
      && g.scope == role.grants[k].scope;
    assert Gives(v, g, org, role.name, role.grants[k].key);
  }

  lemma BundleAfter(u: Tables, v: Tables, rows: seq<Grant>, org: Id, role: SeedRole)
    requires v == u.(grants := v.grants) && HasRole(u, org, role.name)
    requires OffersBundle(u, rows, org, role) && Inserted(u.grants, rows, SameGrant, v.grants)
    ensures HasBundle(v, org, role)
  {
    forall k | 0 <= k < |role.grants| ensures HasGrant(v, org, role.name, role.grants[k].key) {
      assert Offers(u, rows, org, role.name, role.grants[k].key);
      var g :| g in rows && Gives(u, g, org, role.name, role.grants[k].key);
      var n :| 0 <= n < |rows| && rows[n] == g;
      InsertedRowGives(v, g, org, role.name, role.grants[k].key);
    }
  }

  /** From tables that are seeded, no statement inserts anything. */
  lemma SeedingTwice(t: Tables, u: Tables, v: Tables, rows: seq<Grant>, seed: Seed, org: Id)
    requires Valid(t) && Seeded(t, seed, org)
    requires u == t.(permissions := u.permissions, roles := u.roles) && v == u.(grants := v.grants)
    requires Inserted(t.permissions, seed.permissions, SameKey, u.permissions)
    requires Inserted(t.roles, SeedRoles(seed, org), SameName, u.roles)
    requires SeedRows(u, rows, org, seed) && Inserted(u.grants, rows, SameGrant, v.grants)
    ensures v == t
  {
    SeededPermissions(t, seed, org);
    SeededRoles(t, seed, org);
    NothingToInsert(t.permissions, seed.permissions, SameKey, u.permissions);
    NothingToInsert(t.roles, SeedRoles(seed, org), SameName, u.roles);
    assert u == t;
    GrantsTwice(t, rows, seed, org, v.grants);
  }

  lemma GrantsTwice(t: Tables, rows: seq<Grant>, seed: Seed, org: Id, after: map<Id, Grant>)
    requires Valid(t) && Seeded(t, seed, org)
    requires SeedRows(t, rows, org, seed) && Inserted(t.grants, rows, SameGrant, after)
    ensures after == t.grants
  {
    forall n | 0 <= n < |rows| ensures Present(t.grants, rows[n], SameGrant) {
      assert rows[n] in rows;
      SeedRowPresent(t, rows[n], org, seed);
    }
    NothingToInsert(t.grants, rows, SameGrant, after);
  }

  lemma SeedRowPresent(t: Tables, g: Grant, org: Id, seed: Seed)
    requires Valid(t) && Seeded(t, seed, org)
    requires IsSeedGrant(t, g, seed, org)
    ensures Present(t.grants, g, SameGrant)
  {
    var i :| 0 <= i < |seed.roles| && InBundle(t, g, org, seed.roles[i]);
    assert HasBundle(t, org, seed.roles[i]);
    BundleRowPresent(t, g, org, seed.roles[i]);
  }

  lemma BundleRowPresent(t: Tables, g: Grant, org: Id, role: SeedRole)
    requires Valid(t) && HasBundle(t, org, role) && InBundle(t, g, org, role)
    ensures Present(t.grants, g, SameGrant)
  {
    var k :| 0 <= k < |role.grants| && Gives(t, g, org, role.name, role.grants[k].key);
    GivenIsPresent(t, g, org, role.name, role.grants[k].key);
  }

  lemma SeededPermissions(t: Tables, seed: Seed, org: Id)
    requires Seeded(t, seed, org)
    ensures forall i :: 0 <= i < |seed.permissions| ==> Present(t.permissions, seed.permissions[i], SameKey)
  {
    forall i | 0 <= i < |seed.permissions| ensures Present(t.permissions, seed.permissions[i], SameKey) {
      assert HasPermission(t, seed.permissions[i].key);
      var p :| p in t.permissions && t.permissions[p].key == seed.permissions[i].key;
      assert SameKey(t.permissions[p], seed.permissions[i]);
    }
  }

  lemma SeededRoles(t: Tables, seed: Seed, org: Id)
    requires Seeded(t, seed, org)
    ensures forall i :: 0 <= i < |seed.roles| ==> Present(t.roles, SeedRoles(seed, org)[i], SameName)
  {
    forall i | 0 <= i < |seed.roles| ensures Present(t.roles, SeedRoles(seed, org)[i], SameName) {
      assert HasBundle(t, org, seed.roles[i]);
      var r :| r in t.roles && t.roles[r].org == org && t.roles[r].name == seed.roles[i].name;
      assert SameName(t.roles[r], SeedRoles(seed, org)[i]);
    }
  }
}
