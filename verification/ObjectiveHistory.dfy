/**
 The history of quality objectives that migration 0055 looks back on: the document lifecycle with
 its cutover, and the capture of readings, as steps of a state machine.
 */
module ObjectiveHistory {
  import opened Wrappers

  type Id = nat
  type Time = int

  datatype DocState = DocDraft | DocInReview | DocApproved | DocEffective | DocUnderRevision | DocObsolete
  datatype VersionState = Draft | InReview | Approved | Effective | Superseded | Obsolete

  datatype Direction = HigherIsBetter | LowerIsBetter

  /** What a reading is graded by. */
  datatype Basis = Basis(direction: Direction, threshold: Option<int>)

  /** `metadata_snapshot -> 'objective_commitment'`: absent, some other JSON value, or an object. */
  datatype Fold = NoFold | OtherJson | Commitment(direction: Option<Direction>, threshold: Option<int>)

  /**
   A document_version row. The last three fields are not columns: they remember the time that the
   release stamped, and when the effective pointer moved to the version and away again.
   */
  datatype Version = Version(
    doc: Id, state: VersionState, fold: Fold,
    effectiveFrom: Option<Time>, effectiveTo: Option<Time>, supersededBy: Option<Id>,
    stampedAt: Option<Time>, releasedAt: Option<Time>, endedAt: Option<Time>)

  datatype Doc = Doc(state: DocState, current: Option<Id>, working: Basis)

  /**
   A kpi_measurement row: `at` is its created_at, the start of the capturing transaction. The other
   fields remember the capture: when it read the pointer, the version that governed, the working row
   as it was, and the basis that `record_measurement` froze.
   */
  datatype Reading = Reading(
    doc: Id, at: Time, readAt: Time, governing: Option<Id>, workingThen: Basis, captured: Basis)

  datatype Vault = Vault(docs: map<Id, Doc>, versions: map<Id, Version>, readings: map<Id, Reading>, clock: Time)

  datatype Event =
    | CreateObjective(doc: Id, working: Basis)
    | EditWorking(doc: Id, working: Basis)
    | CheckIn(doc: Id, version: Id, fold: Fold)
    | Submit(doc: Id, version: Id)
    | RequestChanges(doc: Id, version: Id)
    | Approve(doc: Id, version: Id, scheduled: Option<Time>)
    | Reschedule(version: Id, from: Time)
    | StartRevision(doc: Id)
    | Release(doc: Id, version: Id, stamp: Time, now: Time)
    | Retire(doc: Id, now: Time)
    | Archive(version: Id)
    | Capture(reading: Id, doc: Id, createdAt: Time, now: Time)

  // ---- the lifecycle ----

  predicate Holds(s: Vault, d: Id, ds: DocState, v: Id, vs: VersionState) {
    && d in s.docs && s.docs[d].state == ds
    && v in s.versions && s.versions[v].doc == d && s.versions[v].state == vs
  }

  predicate Editable(s: Vault, d: Id) {
    d in s.docs && s.docs[d].state in {DocDraft, DocUnderRevision}
  }

  /**
   Release and Retire move the pointer when they commit, at a time later than anything before it; the
   other events may share an instant. A release stamps a time that it read at any earlier moment: a
   sweep reads it once for all its cutovers. A reading's transaction began at any moment before it
   reads the pointer.
   */
  predicate Enabled(s: Vault, e: Event) {
    match e
    case CreateObjective(d, _) => d !in s.docs
    case EditWorking(d, _) => Editable(s, d)
    case CheckIn(d, v, _) => Editable(s, d) && v !in s.versions
    case Submit(d, v) => Holds(s, d, DocDraft, v, Draft) || Holds(s, d, DocUnderRevision, v, Draft)
    case RequestChanges(d, v) => Holds(s, d, DocInReview, v, InReview)
    case Approve(d, v, _) => Holds(s, d, DocInReview, v, InReview)
    case Reschedule(v, _) => v in s.versions && s.versions[v].state == Approved
    case StartRevision(d) => d in s.docs && s.docs[d].state == DocEffective
    case Release(d, v, stamp, now) =>
      && Holds(s, d, DocApproved, v, Approved)
      && ReleaseFrom(s.versions[v], stamp) <= stamp <= now && s.clock < now
    case Retire(d, now) =>
      && d in s.docs && s.docs[d].state == DocEffective && s.clock < now
      && s.docs[d].current.Some? && s.docs[d].current.value in s.versions
    case Archive(v) => v in s.versions && s.versions[v].state == Superseded
    case Capture(r, d, createdAt, now) =>
      r !in s.readings && d in s.docs && createdAt <= now && s.clock <= now && CanGrade(GoverningFold(s, d))
  }

  function ReleaseFrom(v: Version, stamp: Time): Time {
    if v.effectiveFrom.Some? then v.effectiveFrom.value else stamp
  }

  function GoverningFold(s: Vault, d: Id): Fold
    requires d in s.docs
  {
    var current := s.docs[d].current;
    if current.Some? && current.value in s.versions then s.versions[current.value].fold else NoFold
  }

  /** Parsing a commitment object without a direction raises, so such a reading is never captured. */
  predicate CanGrade(f: Fold) {
    f.Commitment? ==> f.direction.Some?
  }

  /** What `record_measurement` freezes: the governing commitment, or else the working row. */
  function BasisAtCapture(f: Fold, working: Basis): Basis
    requires CanGrade(f)
  {
    if f.Commitment? then Basis(f.direction.value, f.threshold) else working
  }

  function CapturedReading(s: Vault, d: Id, createdAt: Time, now: Time): Reading
    requires d in s.docs && CanGrade(GoverningFold(s, d))
  {
    var doc := s.docs[d];
    Reading(d, createdAt, now, doc.current, doc.working, BasisAtCapture(GoverningFold(s, d), doc.working))
  }

  function Supersede(prior: Version, next: Id, stamp: Time, now: Time): Version {
    prior.(state := Superseded, effectiveTo := Some(stamp), supersededBy := Some(next), endedAt := Some(now))
  }

  function Promote(v: Version, stamp: Time, now: Time): Version {
    v.(state := Effective, effectiveFrom := Some(ReleaseFrom(v, stamp)),
       stampedAt := Some(stamp), releasedAt := Some(now))
  }

  /** The cutover: the version that is Effective is superseded, and the released one takes over. */
  function CutOver(s: Vault, d: Id, v: Id, stamp: Time, now: Time): map<Id, Version>
    requires Holds(s, d, DocApproved, v, Approved)
  {
    map w | w in s.versions ::
      if w == v then Promote(s.versions[w], stamp, now)
      else if s.versions[w].doc == d && s.versions[w].state == Effective then Supersede(s.versions[w], v, stamp, now)
      else s.versions[w]
  }

  function SetDoc(s: Vault, d: Id, ds: DocState): Vault
    requires d in s.docs
  {
    s.(docs := s.docs[d := s.docs[d].(state := ds)])
  }

  function SetVersion(s: Vault, v: Id, row: Version): Vault {
    s.(versions := s.versions[v := row])
  }

  /** T11 clears the pointer and stamps the state, and leaves effective_to alone. */
  function RetireRow(v: Version, now: Time): Version {
    v.(state := Obsolete, endedAt := Some(now))
  }

  function Step(s: Vault, e: Event): Vault {
    if !Enabled(s, e) then s else
    match e
    case CreateObjective(d, w) => s.(docs := s.docs[d := Doc(DocDraft, None, w)])
    case EditWorking(d, w) => s.(docs := s.docs[d := s.docs[d].(working := w)])
    case CheckIn(d, v, f) => SetVersion(s, v, Version(d, Draft, f, None, None, None, None, None, None))
    case Submit(d, v) => SetVersion(SetDoc(s, d, DocInReview), v, s.versions[v].(state := InReview))
    case RequestChanges(d, v) => SetVersion(SetDoc(s, d, DocDraft), v, s.versions[v].(state := Draft))
    case Approve(d, v, t) =>
      SetVersion(SetDoc(s, d, DocApproved), v, s.versions[v].(state := Approved, effectiveFrom := t))
    case Reschedule(v, t) => SetVersion(s, v, s.versions[v].(effectiveFrom := Some(t)))
    case StartRevision(d) => SetDoc(s, d, DocUnderRevision)
    case Release(d, v, stamp, now) =>
      s.(versions := CutOver(s, d, v, stamp, now),
         docs := s.docs[d := s.docs[d].(state := DocEffective, current := Some(v))],
         clock := now)
    case Retire(d, now) =>
      var v := s.docs[d].current.value;
      s.(versions := s.versions[v := RetireRow(s.versions[v], now)],
         docs := s.docs[d := s.docs[d].(state := DocObsolete, current := None)],
         clock := now)
    case Archive(v) => SetVersion(s, v, s.versions[v].(state := Obsolete))
    case Capture(r, d, createdAt, now) =>
      s.(readings := s.readings[r := CapturedReading(s, d, createdAt, now)], clock := now)
  }

  const EMPTY := Vault(map[], map[], map[], 0)

  function Run(s: Vault, events: seq<Event>): Vault
    decreases |events|
  {
    if events == [] then s else Run(Step(s, events[0]), events[1..])
  }

  // ---- what every run keeps ----

  predicate Released(v: Version) {
    v.releasedAt.Some?
  }

  /** The pointer was on the version at time `t`. */
  predicate InWindow(v: Version, t: Time) {
    Released(v) && v.releasedAt.value <= t && (v.endedAt.Some? ==> t < v.endedAt.value)
  }

  ghost predicate UnreleasedOk(v: Version) {
    v.state in {Draft, InReview, Approved} && v.effectiveTo.None? && v.supersededBy.None? && v.stampedAt.None?
      && v.endedAt.None?
  }

  ghost predicate ReleasedOk(s: Vault, id: Id, v: Version)
    requires Released(v)
  {
    && v.state in {Effective, Superseded, Obsolete}
    && v.effectiveFrom.Some? && v.stampedAt.Some?
    && v.effectiveFrom.value <= v.stampedAt.value <= v.releasedAt.value <= s.clock
    && (v.state == Effective <==> v.endedAt.None?)
    && (v.endedAt.Some? ==> v.releasedAt.value < v.endedAt.value <= s.clock)
    && (v.effectiveTo.Some? ==> v.endedAt.Some? && v.effectiveTo.value <= v.endedAt.value)
    && (v.effectiveTo.Some? <==> v.supersededBy.Some?)
    && (v.state == Superseded ==> v.effectiveTo.Some?)
    && (v.state == Effective ==> v.doc in s.docs && s.docs[v.doc].current == Some(id))
    && (v.state == Obsolete && v.effectiveTo.None? ==> v.doc in s.docs && s.docs[v.doc].state == DocObsolete)
  }

  ghost predicate VersionOk(s: Vault, id: Id, v: Version) {
    && v.doc in s.docs
    && (if Released(v) then ReleasedOk(s, id, v) else UnreleasedOk(v))
  }

  /** A supersession link leads to the version that took over, with the same stamp and at the same moment. */
  ghost predicate LinkOk(s: Vault, v: Version) {
    v.supersededBy.Some? ==>
      && v.supersededBy.value in s.versions
      && s.versions[v.supersededBy.value].doc == v.doc
      && s.versions[v.supersededBy.value].stampedAt == v.effectiveTo
      && s.versions[v.supersededBy.value].releasedAt == v.endedAt
  }

  predicate Before(v: Version, w: Version) {
    v.endedAt.Some? && w.releasedAt.Some? && v.endedAt.value <= w.releasedAt.value
  }

  ghost predicate PairOk(v: Version, w: Version) {
    v.doc == w.doc && Released(v) && Released(w) ==> Before(v, w) || Before(w, v)
  }

  predicate HasPrior(s: Vault, id: Id) {
    exists p :: p in s.versions && s.versions[p].supersededBy == Some(id)
  }

  /** A released version that supersedes none is the first of its document. */
  ghost predicate FirstOk(s: Vault, id: Id, v: Version) {
    Released(v) && !HasPrior(s, id) ==>
      forall w :: w in s.versions && w != id && s.versions[w].doc == v.doc && Released(s.versions[w]) ==>
        Before(v, s.versions[w])
  }

  ghost predicate DocOk(s: Vault, id: Id, d: Doc) {
    && (d.current.Some? ==>
          && d.current.value in s.versions
          && s.versions[d.current.value].doc == id
          && s.versions[d.current.value].state == Effective)
    && (d.state == DocEffective ==> d.current.Some?)
    && (d.state == DocObsolete ==> d.current.None?)
    && (d.current.None? && d.state != DocObsolete ==>
          forall v :: v in s.versions && s.versions[v].doc == id ==> !Released(s.versions[v]))
  }

  ghost predicate ReadingOk(s: Vault, r: Reading) {
    && r.doc in s.docs && r.at <= r.readAt <= s.clock
    && (r.governing.Some? ==> r.governing.value in s.versions && s.versions[r.governing.value].doc == r.doc)
    && (forall v :: v in s.versions && s.versions[v].doc == r.doc ==>
          (InWindow(s.versions[v], r.readAt) <==> r.governing == Some(v)))
  }

  function FoldOf(s: Vault, v: Option<Id>): Fold {
    if v.Some? && v.value in s.versions then s.versions[v.value].fold else NoFold
  }

  /** The captured basis is what the governing version's fold gives, and folds do not change. */
  ghost predicate CaptureOk(s: Vault, r: Reading) {
    var f := FoldOf(s, r.governing);
    CanGrade(f) && r.captured == BasisAtCapture(f, r.workingThen)
  }

  ghost predicate Versions(s: Vault) {
    forall v {:trigger VersionOk(s, v, s.versions[v])} ::
      v in s.versions ==> VersionOk(s, v, s.versions[v]) && LinkOk(s, s.versions[v])
  }

  ghost predicate Windows(s: Vault) {
    && (forall v, w {:trigger PairOk(s.versions[v], s.versions[w])} ::
          v in s.versions && w in s.versions && v != w ==> PairOk(s.versions[v], s.versions[w]))
    && (forall v {:trigger FirstOk(s, v, s.versions[v])} :: v in s.versions ==> FirstOk(s, v, s.versions[v]))
  }

  ghost predicate Docs(s: Vault) {
    forall d {:trigger DocOk(s, d, s.docs[d])} :: d in s.docs ==> DocOk(s, d, s.docs[d])
  }

  ghost predicate Readings(s: Vault) {
    forall r :: r in s.readings ==> ReadingOk(s, s.readings[r]) && CaptureOk(s, s.readings[r])
  }

  ghost predicate Inv(s: Vault) {
    Versions(s) && Windows(s) && Docs(s) && Readings(s)
  }
}
