/** Migrations 0072 and 0081 themselves: classify what is there, then narrow what the application role may do. */
module PurgeMigration {
  import opened Wrappers
  import opened PurgeAuthority

  /** A row while the migration is under way: `bound` is NULL until it is classified. */
  datatype Row = Row(target: Target, record: Option<Id>, event: Option<Id>, request: Option<Id>, bound: Option<bool>)

  predicate RowShape(r: Row)
    requires r.bound.Some?
  {
    Shape(Marker(r.target, r.record, r.event, r.request, r.bound.value))
  }

  class PurgeTable {
    const roleExists: bool
    var targets: map<Id, Target>   // the table of 0073
    var rows: map<Id, Row>         // and with the columns of 0081
    var privileges: Privileges

    constructor (targets: map<Id, Target>, roleExists: bool)
      ensures this.targets == targets && this.roleExists == roleExists && privileges == BROAD
    {
      this.targets, this.roleExists := targets, roleExists;
      rows, privileges := map[], BROAD;
    }

    /** The markers, once every row is classified. */
    function Markers(): map<Id, Marker>
      requires forall i :: i in rows ==> rows[i].bound.Some?
      reads this
    {
      map i | i in rows :: Marker(rows[i].target, rows[i].record, rows[i].event, rows[i].request, rows[i].bound.value)
    }

    /** 0072 `upgrade` */
    method LockEvents()
      modifies this`privileges
      ensures privileges == if roleExists then old(privileges).(eventUpdate := false, eventDelete := false)
        else old(privileges)
    {
      if roleExists {
        privileges := privileges.(eventUpdate := false, eventDelete := false);
      }
    }

    method AddColumns()
      modifies this`rows
      ensures rows.Keys == targets.Keys
      ensures forall i :: i in rows ==> rows[i] == Row(targets[i], None, None, None, None)
    {
      rows := map i | i in targets :: Row(targets[i], None, None, None, None);
    }

    /** `UPDATE ... SET authority_bound = false WHERE authority_bound IS NULL` */
    method ClassifyAsLegacy()
      modifies this`rows
      ensures rows.Keys == old(rows).Keys
      ensures forall i :: i in rows ==>
        rows[i] == if old(rows)[i].bound.None? then old(rows)[i].(bound := Some(false)) else old(rows)[i]
    {
      var todo := rows.Keys;
      while todo != {}
        invariant todo <= rows.Keys == old(rows).Keys
        invariant forall i :: i in todo ==> rows[i] == old(rows)[i]
        invariant forall i :: i in rows.Keys - todo ==>
          rows[i] == if old(rows)[i].bound.None? then old(rows)[i].(bound := Some(false)) else old(rows)[i]
      {
        var i :| i in todo;
        if rows[i].bound.None? {
          rows := rows[i := rows[i].(bound := Some(false))];
        }
        todo := todo - {i};
      }
    }

    /** 0081 `upgrade`: the new constraints hold of every old marker, because each is classified as legacy first. */
    method Upgrade()
      modifies this
      ensures targets == old(targets)
      ensures forall i :: i in rows ==> rows[i].bound.Some?
      ensures Markers() == map i | i in targets :: Marker(targets[i], None, None, None, false)
      ensures privileges == if roleExists then old(privileges).(insert := NARROW.insert, update := NARROW.update)
        else old(privileges)
    {
      AddColumns();
      ClassifyAsLegacy();
      // SET NOT NULL and the CHECK look at every row that is there.
      assert forall i :: i in rows ==> rows[i].bound.Some? && RowShape(rows[i]);
      if roleExists {
        privileges := privileges.(insert := EVERY_COLUMN - {ColBound}, update := {ColId});
      }
    }

    /** 0081 `downgrade`: what the markers ask for stays, what authorizes them goes. */
    method Downgrade()
      requires forall i :: i in rows ==> rows[i].bound.Some?
      modifies this
      ensures targets == (map i | i in old(rows) :: old(rows)[i].target) && rows == map[]
      ensures privileges == if roleExists then old(privileges).(insert := EVERY_COLUMN, update := EVERY_COLUMN)
        else old(privileges)
    {
      if roleExists {
        privileges := privileges.(insert := EVERY_COLUMN, update := EVERY_COLUMN);
      }
      targets := map i | i in rows :: rows[i].target;
      rows := map[];
    }
  }

  /**
   Both upgrades leave the narrow privileges; down again from an untouched table restores it and the broad column
   privileges.
   */
  method UpAndDown(targets: map<Id, Target>) returns (table: PurgeTable, ghost narrowed: Privileges)
    ensures narrowed == NARROW
    ensures table.targets == targets
    ensures table.privileges == BROAD.(eventUpdate := false, eventDelete := false)
  {
    table := new PurgeTable(targets, true);
    table.LockEvents();
    table.Upgrade();
    narrowed := table.privileges;
    ghost var markers := table.Markers();
    assert table.rows.Keys == markers.Keys == targets.Keys;
    assert forall i :: i in table.rows ==> table.rows[i].target == markers[i].target;
    table.Downgrade();
  }

  /**
   From the migrated table on, every unbound marker of every run is one of the old markers, with the target it
   had then.
   */
  lemma OnlyOldMarkersAreUnbound(targets: map<Id, Target>, states: seq<State>, a: State, b: State, i: Id)
    requires Run(NARROW, states) && a == states[0] && b == states[|states| - 1]
    requires a.markers == map i | i in targets :: Marker(targets[i], None, None, None, false)
    requires i in b.markers && !b.markers[i].bound
    ensures exists j :: j in targets && b.markers[i] == Marker(targets[j], None, None, None, false)
  {
    UnboundOnlyShrinks(states, a, b);
    var j :| j in a.markers && a.markers[j] == b.markers[i];
    assert j in targets;
  }
}
