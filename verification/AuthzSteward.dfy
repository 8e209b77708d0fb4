/** Migration 0062: one reserved role for every organization, and a downgrade that takes it away again. */
module AuthzSteward {
  import opened Wrappers
  import opened AuthzTables

  predicate Named(t: Tables, r: Id, name: string) {
    r in t.roles && t.roles[r].name == name
  }

  /** The downgrade: assignments and grants of the role go before the role itself. */
  function WithoutRole(t: Tables, name: string): Tables {
    t.(assignments := map a | a in t.assignments && !Named(t, t.assignments[a].role, name) :: t.assignments[a],
       grants := map g | g in t.grants && !Named(t, t.grants[g].role, name) :: t.grants[g],
       roles := map r | r in t.roles && t.roles[r].name != name :: t.roles[r])
  }

  /** The upgrade only adds roles of that name and grants of such roles. */
  ghost predicate OnlyThatRole(t: Tables, u: Tables, name: string) {
    && Extends(t.roles, u.roles) && Extends(t.grants, u.grants)
    && u.permissions == t.permissions && u.assignments == t.assignments && u.overrides == t.overrides
    && (forall r :: r in u.roles && r !in t.roles ==> u.roles[r].name == name)
    && (forall g :: g in u.grants && g !in t.grants ==> Named(u, u.grants[g].role, name))
  }

  /** The grant gives a role of that name, in its own organization, one of the keys at that scope. */
  predicate StewardGrant(t: Tables, g: Grant, name: string, keys: set<string>, scope: string) {
    && Named(t, g.role, name) && g.org == t.roles[g.role].org && g.scope == Some(scope)
    && g.permission in t.permissions && t.permissions[g.permission].key in keys
  }

  ghost predicate OrgHas(t: Tables, org: Id, name: string) {
    exists r :: Named(t, r, name) && t.roles[r].org == org
  }

  /** Every organization has the role, and it gives every one of the keys that exist. */
  ghost predicate EveryOrgServed(t: Tables, orgs: seq<Id>, name: string, keys: set<string>) {
    && (forall i :: 0 <= i < |orgs| ==> OrgHas(t, orgs[i], name))
    && (forall r, p :: Named(t, r, name) && p in t.permissions && t.permissions[p].key in keys ==>
          exists g :: g in t.grants && SameGrant(t.grants[g], Grant(t.roles[r].org, r, p, None)))
  }

  lemma WithoutRoleKeepsValid(t: Tables, name: string)
    requires Valid(t)
    ensures Valid(WithoutRole(t, name))
  {
  }

  /** Where the name was not in use the downgrade takes exactly what the upgrade gave. */
  lemma UnusedComesBack(t: Tables, u: Tables, name: string)
    requires References(t) && OnlyThatRole(t, u, name)
    requires forall r :: r in t.roles ==> t.roles[r].name != name
    ensures WithoutRole(u, name) == t
  {
    var v := WithoutRole(u, name);
    forall r ensures r in v.roles <==> r in t.roles {
    }
    forall g ensures g in v.grants <==> g in t.grants {
    }
    assert v.roles == t.roles && v.grants == t.grants && v.assignments == t.assignments;
  }

  /** Going up and down again is the identity exactly when the name was not in use. */
  lemma RoundTrip(t: Tables, u: Tables, name: string)
    requires Valid(t) && OnlyThatRole(t, u, name)
    ensures WithoutRole(u, name) == t <==> forall r :: r in t.roles ==> t.roles[r].name != name
  {
    if forall r :: r in t.roles ==> t.roles[r].name != name {
      UnusedComesBack(t, u, name);
    }
  }

  /** The downgrade takes away what users had through that role, and nothing else. */
  lemma WhatTheDowngradeTakes(t: Tables, name: string, user: Id, x: Authority)
    requires Valid(t)
    ensures Holds(WithoutRole(t, name), user, x) <==>
      || (exists a, g :: Through(t, user, a, g, x) && !Named(t, t.grants[g].role, name))
      || (exists o :: Directly(t, user, o, x))
  {
    var u := WithoutRole(t, name);
    forall a, g ensures Through(u, user, a, g, x) <==> Through(t, user, a, g, x) && !Named(t, t.grants[g].role, name) {
    }
    forall o ensures Directly(u, user, o, x) <==> Directly(t, user, o, x) {
    }
  }
}
