/** The authorization tables of migration 0003 and what they allow each user. */
module AuthzTables {
  import opened Wrappers

  type Id = nat

  /** `details` stands for the columns that no statement here looks at. */
  datatype Permission = Permission(key: string, details: string)
  datatype Role = Role(org: Id, name: string, details: string)
  datatype Grant = Grant(org: Id, role: Id, permission: Id, scope: Option<string>)
  datatype Assignment = Assignment(org: Id, user: Id, role: Id, scope: Option<string>)
  datatype Override = Override(user: Id, permission: Id, details: string)

  datatype Tables = Tables(permissions: map<Id, Permission>, roles: map<Id, Role>, grants: map<Id, Grant>,
                           assignments: map<Id, Assignment>, overrides: map<Id, Override>)

  /** Every RESTRICT foreign key points at a row. */
  ghost predicate References(t: Tables) {
    && (forall g :: g in t.grants ==> t.grants[g].role in t.roles && t.grants[g].permission in t.permissions)
    && (forall a :: a in t.assignments ==> t.assignments[a].role in t.roles)
    && (forall o :: o in t.overrides ==> t.overrides[o].permission in t.permissions)
  }

  predicate SameKey(p: Permission, q: Permission) {
    p.key == q.key
  }

  predicate SameName(r: Role, s: Role) {
    r.org == s.org && r.name == s.name
  }

  predicate SameGrant(g: Grant, h: Grant) {
    g.org == h.org && g.role == h.role && g.permission == h.permission
  }

  /** A UNIQUE constraint: no two rows match. */
  ghost predicate NoClash<R>(table: map<Id, R>, same: (R, R) -> bool) {
    forall i, j :: i in table && j in table && same(table[i], table[j]) ==> i == j
  }

  ghost predicate Valid(t: Tables) {
    References(t) && NoClash(t.permissions, SameKey) && NoClash(t.roles, SameName) && NoClash(t.grants, SameGrant)
  }

  // ---- what a user may do ----

  /** One reason for or against an action: a granted permission through an assignment, or a direct override. */
  datatype Authority =
    | Granted(permission: Permission, template: Option<string>, bound: Option<string>)
    | Overridden(permission: Permission, details: string)

  ghost predicate Through(t: Tables, user: Id, a: Id, g: Id, x: Authority) {
    && x.Granted? && a in t.assignments && g in t.grants
    && t.assignments[a].user == user && t.grants[g].role == t.assignments[a].role
    && t.grants[g].permission in t.permissions && x.permission == t.permissions[t.grants[g].permission]
    && x.template == t.grants[g].scope && x.bound == t.assignments[a].scope
  }

  ghost predicate Directly(t: Tables, user: Id, o: Id, x: Authority) {
    && x.Overridden? && o in t.overrides && t.overrides[o].user == user
    && t.overrides[o].permission in t.permissions && x.permission == t.permissions[t.overrides[o].permission]
    && x.details == t.overrides[o].details
  }

  ghost predicate Holds(t: Tables, user: Id, x: Authority) {
    (exists a, g :: Through(t, user, a, g, x)) || exists o :: Directly(t, user, o, x)
  }

  ghost predicate SameAuthority(t: Tables, u: Tables) {
    forall user, x :: Holds(t, user, x) <==> Holds(u, user, x)
  }

  // ---- INSERT ... ON CONFLICT DO NOTHING ----

  lemma {:induction false} UpperBound(used: set<Id>) returns (b: Id)
    ensures forall id :: id in used ==> id < b
  {
    if used == {} {
      b := 0;
    } else {
      var x :| x in used;
      var c := UpperBound(used - {x});
      b := if x < c then c else x + 1;
      forall id | id in used ensures id < b {
        if id != x { assert id in used - {x}; }
      }
    }
  }

  /** `gen_random_uuid()` */
  method NewId(used: set<Id>) returns (id: Id)
    ensures id !in used
  {
    ghost var b := UpperBound(used);
    assert b !in used;
    id :| id !in used;
  }

  /** Rows stay as they are. */
  ghost predicate Extends<R>(before: map<Id, R>, after: map<Id, R>) {
    forall id :: id in before ==> id in after && after[id] == before[id]
  }

  ghost predicate Present<R>(table: map<Id, R>, row: R, same: (R, R) -> bool) {
    exists id :: id in table && same(table[id], row)
  }

  /** Only rows without a match are added, and afterwards every row has one. */
  ghost predicate Inserted<R>(before: map<Id, R>, rows: seq<R>, same: (R, R) -> bool, after: map<Id, R>) {
    && Extends(before, after)
    && (forall id :: id in after && id !in before ==> after[id] in rows && !Present(before, after[id], same))
    && (forall i :: 0 <= i < |rows| ==> Present(after, rows[i], same))
  }

  ghost predicate Symmetric<R(!new)>(same: (R, R) -> bool) {
    (forall r :: same(r, r)) && (forall r, s :: same(r, s) ==> same(s, r))
  }

  method InsertAll<R(!new)>(before: map<Id, R>, rows: seq<R>, same: (R, R) -> bool) returns (after: map<Id, R>)
    requires Symmetric(same) && NoClash(before, same)
    ensures Inserted(before, rows, same, after) && NoClash(after, same)
  {
    after := before;
    for i := 0 to |rows|
      invariant Extends(before, after) && NoClash(after, same)
      invariant forall id :: id in after && id !in before ==> after[id] in rows && !Present(before, after[id], same)
      invariant forall k :: 0 <= k < i ==> Present(after, rows[k], same)
    {
      if exists id :: id in after && same(after[id], rows[i]) {
      } else {
        var id := NewId(after.Keys);
        ghost var grown := after[id := rows[i]];
        forall k | 0 <= k < i ensures Present(grown, rows[k], same) {
          StillPresent(after, grown, rows[k], same);
        }
        assert grown[id] == rows[i];
        after := after[id := rows[i]];
      }
    }
  }

  lemma StillPresent<R>(before: map<Id, R>, after: map<Id, R>, row: R, same: (R, R) -> bool)
    requires Extends(before, after) && Present(before, row, same)
    ensures Present(after, row, same)
  {
    var id :| id in before && same(before[id], row);
    assert same(after[id], row);
  }

  /** Inserting rows that are all there changes nothing. */
  lemma NothingToInsert<R>(before: map<Id, R>, rows: seq<R>, same: (R, R) -> bool, after: map<Id, R>)
    requires Inserted(before, rows, same, after)
    requires forall i :: 0 <= i < |rows| ==> Present(before, rows[i], same)
    ensures after == before
  {
    assert after.Keys == before.Keys;
  }
}
