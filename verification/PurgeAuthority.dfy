/**
 What the application role can do to purge markers once 0072 and 0081 have set its privileges: any run
 of its statements leaves every marker as it was inserted or gone, and never makes an unbound one.
 */
module PurgeAuthority {
  import opened Wrappers

  type Id = nat

  /** The columns of pending_blob_purge that a statement can name. */
  datatype Column =
    ColId | ColOrg | ColSha | ColBucket | ColKey | ColBypass | ColRecord | ColEvent | ColRequest | ColBound

  const EVERY_COLUMN := {ColId, ColOrg, ColSha, ColBucket, ColKey, ColBypass, ColRecord, ColEvent, ColRequest, ColBound}

  /** What a marker asks to have erased. */
  datatype Target = Target(org: Id, sha: string, bucket: string, key: string, bypass: bool)

  datatype Marker = Marker(target: Target, record: Option<Id>, event: Option<Id>, request: Option<Id>, bound: bool)

  /** Events and requests by id; `string` stands for their columns. */
  datatype State = State(markers: map<Id, Marker>, events: map<Id, string>, requests: map<Id, string>, records: set<Id>)

  datatype Privileges = Privileges(insert: set<Column>, update: set<Column>, eventUpdate: bool, eventDelete: bool)

  /** As 0024 and 0073 granted them. */
  const BROAD := Privileges(EVERY_COLUMN, EVERY_COLUMN, true, true)

  /** As 0072 and 0081 leave them. */
  const NARROW := Privileges(EVERY_COLUMN - {ColBound}, {ColId}, false, false)

  // ---- constraints ----

  /** The `authority_shape` CHECK; all of its columns but the three references are NOT NULL. */
  predicate Shape(m: Marker) {
    !m.bound || (m.record.Some? && m.event.Some? && (!m.target.bypass || m.request.Some?))
  }

  predicate Refers(s: State, m: Marker) {
    && (m.record.Some? ==> m.record.value in s.records)
    && (m.event.Some? ==> m.event.value in s.events)
    && (m.request.Some? ==> m.request.value in s.requests)
  }

  ghost predicate Constraints(s: State) {
    forall i :: i in s.markers ==> Shape(s.markers[i]) && Refers(s, s.markers[i])
  }

  // ---- statements ----

  datatype Statement =
    | InsertMarker(id: Id, row: Marker, named: set<Column>)
    | UpdateMarkers(ids: map<Id, Id>, row: Marker, named: set<Column>)
    | DeleteMarkers(doomed: set<Id>)
    | InsertEvent(id: Id, text: string)
    | UpdateEvent(id: Id, text: string)
    | DeleteEvent(id: Id)
    | PutRequest(id: Id, text: string)
    | DeleteRequest(id: Id)
    | InsertRecord(id: Id)
    | DeleteRecord(id: Id)

  /** The row that an INSERT makes: NULL or the default where a column is not named, if it can be. */
  function NewRow(row: Marker, named: set<Column>): Option<Marker> {
    if !({ColId, ColOrg, ColSha, ColBucket, ColKey, ColBypass} <= named) then None
    else Some(Marker(row.target,
                     if ColRecord in named then row.record else None,
                     if ColEvent in named then row.event else None,
                     if ColRequest in named then row.request else None,
                     ColBound !in named || row.bound))
  }

  /** The row that an UPDATE makes of `old'`: only named columns change. */
  function ChangedRow(was: Marker, row: Marker, named: set<Column>): Marker {
    Marker(Target(if ColOrg in named then row.target.org else was.target.org,
                  if ColSha in named then row.target.sha else was.target.sha,
                  if ColBucket in named then row.target.bucket else was.target.bucket,
                  if ColKey in named then row.target.key else was.target.key,
                  if ColBypass in named then row.target.bypass else was.target.bypass),
           if ColRecord in named then row.record else was.record,
           if ColEvent in named then row.event else was.event,
           if ColRequest in named then row.request else was.request,
           if ColBound in named then row.bound else was.bound)
  }

  /** New ids do not meet each other or the rows that keep theirs. */
  ghost predicate NewIds(s: State, ids: map<Id, Id>, named: set<Column>) {
    && ids.Keys <= s.markers.Keys
    && (forall i, j :: i in ids && j in ids && ids[i] == ids[j] ==> i == j)
    && (forall i :: i in ids ==> ids[i] !in s.markers.Keys - ids.Keys)
    && (ColId !in named ==> forall i :: i in ids ==> ids[i] == i)
  }

  ghost predicate IsUpdated(s: State, ids: map<Id, Id>, row: Marker, named: set<Column>, after: map<Id, Marker>) {
    && (forall i :: i in s.markers && i !in ids ==> i in after && after[i] == s.markers[i])
    && (forall i :: i in ids ==>
          i in s.markers && ids[i] in after && after[ids[i]] == ChangedRow(s.markers[i], row, named))
    && (forall k :: k in after ==> (k in s.markers && k !in ids) || exists i :: i in ids && ids[i] == k)
  }

  /** The statement goes through with these privileges: from `a` to `b`, with all constraints of `b` checked. */
  ghost predicate Executes(p: Privileges, a: State, st: Statement, b: State) {
    && Constraints(b)
    && match st
       case InsertMarker(id, row, named) =>
         named <= p.insert && id !in a.markers && NewRow(row, named).Some?
           && b == a.(markers := a.markers[id := NewRow(row, named).value])
       case UpdateMarkers(ids, row, named) =>
         named <= p.update && NewIds(a, ids, named) && IsUpdated(a, ids, row, named, b.markers)
           && b == a.(markers := b.markers)
       case DeleteMarkers(doomed) => b == a.(markers := a.markers - doomed)
       case InsertEvent(id, text) => id !in a.events && b == a.(events := a.events[id := text])
       case UpdateEvent(id, text) => p.eventUpdate && id in a.events && b == a.(events := a.events[id := text])
       case DeleteEvent(id) => p.eventDelete && b == a.(events := a.events - {id})
       case PutRequest(id, text) => b == a.(requests := a.requests[id := text])
       case DeleteRequest(id) => b == a.(requests := a.requests - {id})
       case InsertRecord(id) => b == a.(records := a.records + {id})
       case DeleteRecord(id) => b == a.(records := a.records - {id})
  }

  /** A refused statement changes nothing. */
  ghost predicate Step(p: Privileges, a: State, b: State) {
    a == b || exists st :: Executes(p, a, st, b)
  }

  ghost predicate Run(p: Privileges, states: seq<State>) {
    states != [] && forall i :: 0 <= i < |states| - 1 ==> Step(p, states[i], states[i + 1])
  }

  // ---- where a marker comes from ----

  /**
   `origin` tells which earlier marker each later one is: unchanged but for its id. Every other marker
   is new, and bound to authority that is there. Events only come.
   */
  ghost predicate Traces(a: State, b: State, origin: map<Id, Id>) {
    && origin.Keys <= b.markers.Keys
    && (forall i :: i in origin ==> origin[i] in a.markers && b.markers[i] == a.markers[origin[i]])
    && (forall i, j :: i in origin && j in origin && origin[i] == origin[j] ==> i == j)
    && (forall i :: i in b.markers && i !in origin ==> b.markers[i].bound && Shape(b.markers[i]))
    && (forall e :: e in a.events ==> e in b.events && b.events[e] == a.events[e])
  }

  /** The row that row `k` was before the update. */
  ghost function Previous(a: State, ids: map<Id, Id>, k: Id): Id {
    if k in a.markers && k !in ids then k
    else if exists i :: i in ids && ids[i] == k then
      var i :| i in ids && ids[i] == k;
      i
    else k
  }

  lemma PreviousRow(a: State, ids: map<Id, Id>, row: Marker, named: set<Column>, after: map<Id, Marker>, k: Id)
    requires named <= {ColId} && NewIds(a, ids, named) && IsUpdated(a, ids, row, named, after) && k in after
    ensures var was := Previous(a, ids, k);
            && was in a.markers && after[k] == a.markers[was]
            && (if was in ids then ids[was] == k else was == k)
  {
    if !(k in a.markers && k !in ids) {
      var i := Previous(a, ids, k);
      assert ChangedRow(a.markers[i], row, named) == a.markers[i];
    }
  }

  lemma UpdateTraces(a: State, ids: map<Id, Id>, row: Marker, named: set<Column>, b: State)
          returns (origin: map<Id, Id>)
    requires named <= {ColId} && NewIds(a, ids, named)
    requires IsUpdated(a, ids, row, named, b.markers) && b == a.(markers := b.markers)
    ensures Traces(a, b, origin)
  {
    origin := map k | k in b.markers :: Previous(a, ids, k);
    forall k | k in origin
      ensures origin[k] in a.markers && b.markers[k] == a.markers[origin[k]]
      ensures if origin[k] in ids then ids[origin[k]] == k else origin[k] == k {
      PreviousRow(a, ids, row, named, b.markers, k);
    }
  }

  lemma InsertTraces(a: State, id: Id, row: Marker, named: set<Column>, b: State) returns (origin: map<Id, Id>)
    requires Executes(NARROW, a, InsertMarker(id, row, named), b)
    ensures Traces(a, b, origin)
  {
    origin := map i | i in a.markers :: i;
    assert ColBound !in named;
  }

  /** No other statement changes a marker that it keeps, or an event. */
  lemma OtherStatements(a: State, st: Statement, b: State)
    requires Executes(NARROW, a, st, b) && !st.UpdateMarkers? && !st.InsertMarker?
    ensures forall i :: i in b.markers ==> i in a.markers && b.markers[i] == a.markers[i]
    ensures forall e :: e in a.events ==> e in b.events && b.events[e] == a.events[e]
  {
  }

  lemma StepTraces(a: State, b: State) returns (origin: map<Id, Id>)
    requires Constraints(a) && Step(NARROW, a, b)
    ensures Traces(a, b, origin) && Constraints(b)
  {
    if a == b {
      origin := map i | i in a.markers :: i;
    } else {
      var st :| Executes(NARROW, a, st, b);
      if st.UpdateMarkers? {
        origin := UpdateTraces(a, st.ids, st.row, st.named, b);
      } else if st.InsertMarker? {
        origin := InsertTraces(a, st.id, st.row, st.named, b);
      } else {
        OtherStatements(a, st, b);
        origin := map i | i in b.markers :: i;
      }
    }
  }

  lemma Compose(a: State, b: State, c: State, first: map<Id, Id>, second: map<Id, Id>) returns (origin: map<Id, Id>)
    requires Traces(a, b, first) && Traces(b, c, second) && Constraints(c)
    ensures Traces(a, c, origin)
  {
    origin := map i | i in second && second[i] in first :: first[second[i]];
  }

  /** For every run, each marker at the end is an untouched marker of the start or a new one with its authority. */
  lemma {:induction false} EveryRunTraces(states: seq<State>) returns (origin: map<Id, Id>)
    requires Run(NARROW, states) && Constraints(states[0])
    ensures Traces(states[0], states[|states| - 1], origin) && Constraints(states[|states| - 1])
  {
    if |states| == 1 {
      origin := map i | i in states[0].markers :: i;
    } else {
      var n := |states| - 1;
      var init := states[..n];
      forall i | 0 <= i < |init| - 1 ensures Step(NARROW, init[i], init[i + 1]) {
        assert Step(NARROW, states[i], states[i + 1]);
      }
      var first := EveryRunTraces(init);
      assert Step(NARROW, states[n - 1], states[(n - 1) + 1]);
      var second := StepTraces(states[n - 1], states[n]);
      origin := Compose(states[0], states[n - 1], states[n], first, second);
    }
  }

  function Unbound(s: State): set<Id> {
    set i | i in s.markers && !s.markers[i].bound
  }

  predicate WasThere(s: State, m: Marker) {
    exists i :: i in s.markers && s.markers[i] == m
  }

  /** Unbound markers are only ever ones that were there when the migration ran, and they only get fewer. */
  lemma UnboundOnlyShrinks(states: seq<State>, a: State, b: State)
    requires Run(NARROW, states) && a == states[0] && b == states[|states| - 1] && Constraints(a)
    ensures |Unbound(b)| <= |Unbound(a)|
    ensures forall i :: i in b.markers && !b.markers[i].bound ==> WasThere(a, b.markers[i])
  {
    var origin := EveryRunTraces(states);
    forall i | i in b.markers && !b.markers[i].bound
      ensures i in origin && origin[i] in Unbound(a) && WasThere(a, b.markers[i]) {
      assert a.markers[origin[i]] == b.markers[i];
    }
    InjectionIsNoLarger(Unbound(b), Unbound(a), origin);
  }

  lemma {:induction false} InjectionIsNoLarger(s: set<Id>, t: set<Id>, f: map<Id, Id>)
    requires forall i :: i in s ==> i in f && f[i] in t
    requires forall i, j :: i in s && j in s && f[i] == f[j] ==> i == j
    ensures |s| <= |t|
  {
    if s != {} {
      var i :| i in s;
      InjectionIsNoLarger(s - {i}, t - {f[i]}, f);
    }
  }

  /** A bound marker stays tied to its disposition event, and the event says what it said. */
  lemma BoundStaysBound(states: seq<State>, i: Id)
    requires Run(NARROW, states) && Constraints(states[0])
    requires var b := states[|states| - 1]; i in b.markers && b.markers[i].bound
    ensures var b := states[|states| - 1];
            && Shape(b.markers[i]) && b.markers[i].event.value in b.events && b.markers[i].record.value in b.records
            && (b.markers[i].target.bypass ==> b.markers[i].request.value in b.requests)
    ensures forall e :: e in states[0].events ==>
      e in states[|states| - 1].events && states[|states| - 1].events[e] == states[0].events[e]
  {
    var origin := EveryRunTraces(states);
  }

  // ---- why the privileges are needed ----

  // ---- what the narrow privileges still allow ----

  /** The service's own INSERT goes through with them, and the marker that it makes is bound. */
  lemma ServiceInsertGoesThrough(a: State, id: Id, row: Marker)
    requires Constraints(a) && id !in a.markers
    requires row.record.Some? && row.record.value in a.records && row.event.Some? && row.event.value in a.events
    requires if row.request.Some? then row.request.value in a.requests else !row.target.bypass
    ensures var named := {ColId, ColOrg, ColSha, ColBucket, ColKey, ColBypass, ColRecord, ColEvent, ColRequest};
      Executes(NARROW, a, InsertMarker(id, row, named), a.(markers := a.markers[id := row.(bound := true)]))
  {
  }

  /** An INSERT that names the discriminator, or leaves out what a marker must say, does not. */
  lemma NarrowInsert(a: State, b: State, id: Id, row: Marker, named: set<Column>)
    requires Executes(NARROW, a, InsertMarker(id, row, named), b)
    ensures ColBound !in named && forall c :: c in {ColId, ColOrg, ColSha, ColBucket, ColKey, ColBypass} ==> c in named
    ensures id !in a.markers && id in b.markers && b.markers[id].target == row.target && b.markers[id].bound
    ensures b.markers[id].record == row.record && b.markers[id].event == row.event
    ensures forall i :: i in b.markers && i != id ==> i in a.markers && b.markers[i] == a.markers[i]
  {
    assert Shape(b.markers[id]);
  }

  /** An UPDATE can lock the rows and give them other ids, and no more than that. */
  lemma NarrowUpdate(a: State, b: State, ids: map<Id, Id>, row: Marker, named: set<Column>)
    requires Executes(NARROW, a, UpdateMarkers(ids, row, named), b)
    ensures named <= {ColId}
    ensures forall i :: i in ids ==> i in a.markers && ids[i] in b.markers && b.markers[ids[i]] == a.markers[i]
    ensures forall i :: i in a.markers && i !in ids ==> i in b.markers && b.markers[i] == a.markers[i]
    ensures forall i, j :: i in ids && j in ids && ids[i] == ids[j] ==> i == j
    ensures ColId !in named ==> forall i :: i in ids ==> ids[i] == i
  {
    forall i | i in ids ensures ChangedRow(a.markers[i], row, named) == a.markers[i] {
    }
  }

  /** Locking all rows is one such UPDATE. */
  lemma LockingGoesThrough(a: State, row: Marker)
    requires Constraints(a)
    ensures Executes(NARROW, a, UpdateMarkers(map i | i in a.markers :: i, row, {ColId}), a)
  {
    forall i | i in a.markers ensures ChangedRow(a.markers[i], row, {ColId}) == a.markers[i] {
    }
  }

  /** So is giving one row another id that is free. */
  lemma RenamingGoesThrough(a: State, i: Id, k: Id, row: Marker)
    requires Constraints(a) && i in a.markers && k !in a.markers
    ensures Executes(NARROW, a, UpdateMarkers(map[i := k], row, {ColId}),
                     a.(markers := (a.markers - {i})[k := a.markers[i]]))
  {
    var b := a.(markers := (a.markers - {i})[k := a.markers[i]]);
    assert ChangedRow(a.markers[i], row, {ColId}) == a.markers[i];
    forall m | m in b.markers ensures Shape(b.markers[m]) && Refers(b, b.markers[m]) {
      assert Refers(a, a.markers[if m == k then i else m]);
    }
  }

  /** What a marker has in a column. */
  datatype Cell = Key | Number(n: Id) | Words(s: string) | Flag(b: bool) | Reference(id: Option<Id>)

  function CellOf(m: Marker, c: Column): Cell {
    match c
    case ColId => Key
    case ColOrg => Number(m.target.org)
    case ColSha => Words(m.target.sha)
    case ColBucket => Words(m.target.bucket)
    case ColKey => Words(m.target.key)
    case ColBypass => Flag(m.target.bypass)
    case ColRecord => Reference(m.record)
    case ColEvent => Reference(m.event)
    case ColRequest => Reference(m.request)
    case ColBound => Flag(m.bound)
  }

  /** An UPDATE takes over what it names and keeps the rest, column by column. */
  lemma ChangedCell(was: Marker, row: Marker, named: set<Column>, c: Column)
    ensures CellOf(ChangedRow(was, row, named), c) == CellOf(if c in named then row else was, c)
  {
  }

  /**
   An INSERT stores what it names; a marker is bound unless it says otherwise, and has no authority that is not
   named. It must name all that a marker asks for.
   */
  lemma NewCell(row: Marker, named: set<Column>, c: Column)
    ensures NewRow(row, named).Some? <==>
      && ColId in named && ColOrg in named && ColSha in named && ColBucket in named && ColKey in named
      && ColBypass in named
    ensures NewRow(row, named).Some? ==>
      CellOf(NewRow(row, named).value, c) ==
        if c in named then CellOf(row, c) else if c == ColBound then Flag(true) else Reference(None)
  {
  }

  /** With the privileges from before 0081, one INSERT forges an unbound marker for any target. */
  lemma BroadInsertForges(s: State, id: Id, target: Target)
    requires Constraints(s) && id !in s.markers
    ensures var forged := Marker(target, None, None, None, false);
            Executes(BROAD, s, InsertMarker(id, forged, EVERY_COLUMN), s.(markers := s.markers[id := forged]))
  {
    var forged := Marker(target, None, None, None, false);
    assert NewRow(forged, EVERY_COLUMN) == Some(forged);
  }

  /** And with those from before 0072, the event behind a bound marker can be rewritten. */
  lemma BroadUpdateRewritesEvents(s: State, e: Id, text: string)
    requires Constraints(s) && e in s.events
    ensures Executes(BROAD, s, UpdateEvent(e, text), s.(events := s.events[e := text]))
    ensures (forall i :: i in s.markers ==> s.markers[i].event != Some(e)) ==>
      Executes(BROAD, s, DeleteEvent(e), s.(events := s.events - {e}))
  {
    forall i | i in s.markers ensures Shape(s.markers[i]) && Refers(s, s.markers[i]) {
    }
    var b := s.(events := s.events[e := text]);
    forall i | i in b.markers ensures Shape(b.markers[i]) && Refers(b, b.markers[i]) {
      assert Refers(s, s.markers[i]);
    }
  }
}
