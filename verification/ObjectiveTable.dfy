/** The steps of the history against the table of lifecycle transitions, and who wrote its columns last. */
module ObjectiveTable {
  import opened Wrappers
  import opened ObjectiveHistory
  import opened ObjectiveCutover

  // ---- the table ----

  datatype Action = SubmitReview | ApproveReview | ReturnForChanges | ReleaseVersion | BeginRevision | MakeObsolete

  /** The states a transition asks of its version and leaves it in, if it has one, and what the document becomes. */
  datatype Transition = Transition(from: Option<VersionState>, to: Option<VersionState>, doc: DocState)

  const TABLE: map<(DocState, Action), Transition> := map[
    (DocDraft, SubmitReview) := Transition(Some(Draft), Some(InReview), DocInReview),
    (DocUnderRevision, SubmitReview) := Transition(Some(Draft), Some(InReview), DocInReview),
    (DocInReview, ApproveReview) := Transition(Some(InReview), Some(Approved), DocApproved),
    (DocInReview, ReturnForChanges) := Transition(Some(InReview), Some(Draft), DocDraft),
    (DocApproved, ReleaseVersion) := Transition(Some(Approved), Some(Effective), DocEffective),
    (DocEffective, BeginRevision) := Transition(None, None, DocUnderRevision),
    (DocEffective, MakeObsolete) := Transition(Some(Effective), Some(Obsolete), DocObsolete)]

  /** The document and the version that an event is a transition of; the rest of the events are none. */
  datatype Move = Move(action: Action, doc: Id, version: Option<Id>)

  function MoveOf(s: Vault, e: Event): Option<Move> {
    match e
    case Submit(d, v) => Some(Move(SubmitReview, d, Some(v)))
    case Approve(d, v, _) => Some(Move(ApproveReview, d, Some(v)))
    case RequestChanges(d, v) => Some(Move(ReturnForChanges, d, Some(v)))
    case Release(d, v, _, _) => Some(Move(ReleaseVersion, d, Some(v)))
    case StartRevision(d) => Some(Move(BeginRevision, d, None))
    case Retire(d, _) => Some(Move(MakeObsolete, d, if d in s.docs then s.docs[d].current else None))
    case _ => None
  }

  ghost predicate Follows(s: Vault, s': Vault, move: Move) {
    && move.doc in s.docs && (s.docs[move.doc].state, move.action) in TABLE
    && var tr := TABLE[(s.docs[move.doc].state, move.action)];
       && move.doc in s'.docs && s'.docs[move.doc].state == tr.doc
       && (tr.to.Some? ==>
             && move.version.Some? && move.version.value in s.versions && move.version.value in s'.versions
             && s.versions[move.version.value].state == tr.from.value
             && s'.versions[move.version.value].state == tr.to.value)
  }

  /** Every transition of every history is one of the table, with the states it asks for and leaves behind. */
  lemma StepFollowsTheTable(s: Vault, e: Event)
    requires Inv(s) && Enabled(s, e) && MoveOf(s, e).Some?
    ensures Follows(s, Step(s, e), MoveOf(s, e).value)
  {
    if e.Retire? {
      assert DocOk(s, e.doc, s.docs[e.doc]);
    }
  }

  /** Where the table has no entry nothing happens. */
  lemma NothingOffTheTable(s: Vault, e: Event)
    requires MoveOf(s, e).Some?
    requires var move := MoveOf(s, e).value;
      move.doc in s.docs ==> (s.docs[move.doc].state, move.action) !in TABLE
    ensures Step(s, e) == s
  {
  }

  /** The version that the event moves, or gives its first state. */
  predicate Subject(s: Vault, e: Event, v: Id) {
    || (MoveOf(s, e).Some? && MoveOf(s, e).value.version == Some(v))
    || (e.CheckIn? && e.version == v) || (e.Archive? && e.version == v)
  }

  /**
   The states of everything else: a document changes its state by a transition of its own only; a version by a
   transition of its own, by being archived after it was superseded, or by being superseded while another version
   of its document is released.
   */
  lemma OthersKeepTheirState(s: Vault, e: Event, d: Id, v: Id)
    ensures d in s.docs && !(MoveOf(s, e).Some? && MoveOf(s, e).value.doc == d) ==>
      d in Step(s, e).docs && Step(s, e).docs[d].state == s.docs[d].state
    ensures v in s.versions && !Subject(s, e, v) ==>
      && v in Step(s, e).versions
      && Step(s, e).versions[v].state ==
           if e.Release? && Enabled(s, e) && s.versions[v].doc == e.doc && s.versions[v].state == Effective
           then Superseded else s.versions[v].state
    ensures v in s.versions && e == Archive(v) ==>
      && v in Step(s, e).versions
      && Step(s, e).versions[v].state == if s.versions[v].state == Superseded then Obsolete else s.versions[v].state
    ensures e.CheckIn? && e.version == v && v !in s.versions && v in Step(s, e).versions ==>
      Step(s, e).versions[v].state == Draft
  {
  }

  // ---- who wrote a column last ----

  function WorkingIn(s: Vault, e: Event, d: Id): Option<Basis> {
    match e
    case CreateObjective(e_d, w) => if Enabled(s, e) && e_d == d then Some(w) else None
    case EditWorking(e_d, w) => if Enabled(s, e) && e_d == d then Some(w) else None
    case _ => None
  }

  /** What the last event of a run that wrote the working row of the document wrote. */
  function LastWorking(s: Vault, events: seq<Event>, d: Id): Option<Basis>
    decreases |events|
  {
    if events == [] then None
    else
      var later := LastWorking(Step(s, events[0]), events[1..], d);
      if later.Some? then later else WorkingIn(s, events[0], d)
  }

  /** After any run the working row is what was written last, and a document exists once somebody wrote it. */
  lemma {:induction false} WorkingAsWritten(s: Vault, events: seq<Event>, d: Id)
    ensures var after, last := Run(s, events), LastWorking(s, events, d);
      && (d in after.docs <==> d in s.docs || last.Some?)
      && (d in after.docs ==>
            after.docs[d].working == if last.Some? then last.value else s.docs[d].working)
    decreases |events|
  {
    if events != [] {
      WorkingAsWritten(Step(s, events[0]), events[1..], d);
    }
  }

  /** The working row changes, and a version is checked in, only while the document is a draft or under revision. */
  lemma EditsComeInDrafts(s: Vault, e: Event, d: Id)
    requires d in s.docs && s.docs[d].state !in {DocDraft, DocUnderRevision}
    ensures d in Step(s, e).docs && Step(s, e).docs[d].working == s.docs[d].working
    ensures forall v :: v in Step(s, e).versions && v !in s.versions ==> Step(s, e).versions[v].doc != d
  {
  }

  /** The time that an event schedules a version for, if it schedules it or takes the schedule away. */
  function ScheduleIn(s: Vault, e: Event, v: Id): Option<Option<Time>> {
    match e
    case CheckIn(_, e_v, _) => if Enabled(s, e) && e_v == v then Some(None) else None
    case Approve(_, e_v, t) => if Enabled(s, e) && e_v == v then Some(t) else None
    case Reschedule(e_v, t) => if Enabled(s, e) && e_v == v then Some(Some(t)) else None
    case _ => None
  }

  function LastSchedule(s: Vault, events: seq<Event>, v: Id): Option<Option<Time>>
    decreases |events|
  {
    if events == [] then None
    else
      var later := LastSchedule(Step(s, events[0]), events[1..], v);
      if later.Some? then later else ScheduleIn(s, events[0], v)
  }

  /** Not released, the version is due when it is scheduled for; released, from then, or else from the stamp. */
  predicate DueFrom(v: Version, scheduled: Option<Time>) {
    v.effectiveFrom == if Released(v) && scheduled.None? then v.stampedAt else scheduled
  }

  lemma StepDue(s: Vault, e: Event, v: Id, scheduled: Option<Time>)
    requires Inv(s) && (v in s.versions ==> DueFrom(s.versions[v], scheduled))
    ensures v in Step(s, e).versions ==>
      && (v !in s.versions ==> ScheduleIn(s, e, v).Some?)
      && DueFrom(Step(s, e).versions[v], if ScheduleIn(s, e, v).Some? then ScheduleIn(s, e, v).value else scheduled)
    ensures v in s.versions ==> v in Step(s, e).versions
  {
    assert v in s.versions ==> VersionOk(s, v, s.versions[v]);
  }

  /** After any run a version is due as it was scheduled last. */
  lemma {:induction false} DueAsScheduled(s: Vault, events: seq<Event>, v: Id, scheduled: Option<Time>)
    requires Inv(s) && (v in s.versions ==> DueFrom(s.versions[v], scheduled))
    ensures v in Run(s, events).versions ==>
      && (v !in s.versions ==> LastSchedule(s, events, v).Some?)
      && DueFrom(Run(s, events).versions[v],
                 if LastSchedule(s, events, v).Some? then LastSchedule(s, events, v).value else scheduled)
    ensures v in s.versions ==> v in Run(s, events).versions
    decreases |events|
  {
    if events != [] {
      var said := ScheduleIn(s, events[0], v);
      StepKeepsInv(s, events[0]);
      StepDue(s, events[0], v, scheduled);
      DueAsScheduled(Step(s, events[0]), events[1..], v, if said.Some? then said.value else scheduled);
    }
  }
}
