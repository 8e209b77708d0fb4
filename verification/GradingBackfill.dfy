/**
 Migration 0055: for each existing reading, find the version that governed at its `created_at` and
 freeze that version's grading basis. `Answers` is the subquery's WHERE clause over the rows of its
 LEFT JOIN, `Picked` adds ORDER BY ... DESC LIMIT 1.
 */
module GradingBackfill {
  import opened Wrappers
  import opened ObjectiveHistory
  import opened ObjectiveCutover

  predicate JoinedPrior(s: Vault, v: Id, prior: Option<Id>) {
    if prior.Some? then prior.value in s.versions && s.versions[prior.value].supersededBy == Some(v)
    else !HasPrior(s, v)
  }

  /** COALESCE(prv.effective_to, dv.effective_from) in the joined row. */
  function WindowStart(s: Vault, v: Id, prior: Option<Id>): Option<Time>
    requires v in s.versions
  {
    if prior.Some? && prior.value in s.versions && s.versions[prior.value].effectiveTo.Some?
    then s.versions[prior.value].effectiveTo
    else s.versions[v].effectiveFrom
  }

  predicate Answers(s: Vault, d: Id, t: Time, v: Id, start: Time) {
    && v in s.versions && s.versions[v].doc == d
    && (s.versions[v].state == Effective || s.versions[v].effectiveTo.Some?)
    && (exists prior :: prior in Priors(s) && JoinedPrior(s, v, prior) && WindowStart(s, v, prior) == Some(start))
    && start <= t
    && (s.versions[v].effectiveTo.Some? ==> t < s.versions[v].effectiveTo.value)
  }

  function Priors(s: Vault): set<Option<Id>> {
    (set p | p in s.versions :: Some(p)) + {None}
  }

  ghost predicate Picked(s: Vault, d: Id, t: Time, ans: Option<Id>) {
    if ans.None? then forall v, start :: !Answers(s, d, t, v, start)
    else exists best :: Answers(s, d, t, ans.value, best) && forall v, start :: Answers(s, d, t, v, start) ==>
      start <= best
  }

  // ---- the stamped windows ----

  /** The row of a version that was retired while it governed: nothing says until when. */
  predicate Gone(v: Version) {
    v.state == Obsolete && v.effectiveTo.None?
  }

  /** From when the rows say that a version governed: the stamp of its release, or a first version's effective_from. */
  function Start(s: Vault, v: Id): Option<Time>
    requires v in s.versions
  {
    if HasPrior(s, v) then s.versions[v].stampedAt else s.versions[v].effectiveFrom
  }

  predicate StartedBy(s: Vault, v: Id, t: Time)
    requires v in s.versions
  {
    Released(s.versions[v]) && Start(s, v).Some? && Start(s, v).value <= t
  }

  /** The version's row answers for the time. */
  predicate AnsweredBy(s: Vault, d: Id, t: Time, v: Id) {
    && v in s.versions && s.versions[v].doc == d && !Gone(s.versions[v]) && StartedBy(s, v, t)
    && (s.versions[v].effectiveTo.Some? ==> t < s.versions[v].effectiveTo.value)
  }

  lemma ReleasedStarts(s: Vault, v: Id)
    requires Inv(s) && v in s.versions && Released(s.versions[v])
    ensures Start(s, v).Some? && s.versions[v].stampedAt.Some?
    ensures Start(s, v).value <= s.versions[v].stampedAt.value <= s.versions[v].releasedAt.value
  {
    assert VersionOk(s, v, s.versions[v]);
  }

  lemma StartOfAnswer(s: Vault, d: Id, t: Time, v: Id, start: Time)
    requires Inv(s) && Answers(s, d, t, v, start)
    ensures AnsweredBy(s, d, t, v) && Start(s, v) == Some(start)
  {
    assert VersionOk(s, v, s.versions[v]);
    var prior :| prior in Priors(s) && JoinedPrior(s, v, prior) && WindowStart(s, v, prior) == Some(start);
    if prior.Some? {
      assert VersionOk(s, prior.value, s.versions[prior.value]) && LinkOk(s, s.versions[prior.value]);
    }
  }

  lemma AnswerOfStart(s: Vault, d: Id, t: Time, v: Id)
    requires Inv(s) && AnsweredBy(s, d, t, v)
    ensures Answers(s, d, t, v, Start(s, v).value)
  {
    assert VersionOk(s, v, s.versions[v]);
    if p :| p in s.versions && s.versions[p].supersededBy == Some(v) {
      assert VersionOk(s, p, s.versions[p]) && LinkOk(s, s.versions[p]);
      assert Some(p) in Priors(s) && JoinedPrior(s, v, Some(p));
      assert WindowStart(s, v, Some(p)) == Start(s, v);
    } else {
      assert None in Priors(s) && JoinedPrior(s, v, None);
      assert WindowStart(s, v, None) == Start(s, v);
    }
  }

  /** The version that superseded `v` starts, in the rows, where `v` ends. */
  lemma Successor(s: Vault, v: Id) returns (w: Id)
    requires Inv(s) && v in s.versions && Released(s.versions[v]) && s.versions[v].effectiveTo.Some?
    ensures w in s.versions && s.versions[w].doc == s.versions[v].doc && Released(s.versions[w])
    ensures Start(s, w) == s.versions[v].effectiveTo == s.versions[w].stampedAt
    ensures s.versions[w].releasedAt == s.versions[v].endedAt
    ensures s.versions[v].releasedAt.value < s.versions[w].releasedAt.value
  {
    assert VersionOk(s, v, s.versions[v]) && LinkOk(s, s.versions[v]);
    w := s.versions[v].supersededBy.value;
    assert VersionOk(s, w, s.versions[w]) && HasPrior(s, w);
  }

  // ---- readings that a cutover runs across ----

  /**
   The release of `v` lies across the reading: one of its two moments is before the reading's own and the other
   is not.
   */
  predicate Across(s: Vault, r: Reading, v: Id)
    requires v in s.versions && Released(s.versions[v]) && Start(s, v).Some?
  {
    StartedBy(s, v, r.at) != (s.versions[v].releasedAt.value <= r.readAt)
  }

  /**
   A release of the document began to count, by its stamp, before the reading's created_at but moved
   the pointer only after the reading had read it, or the other way round.
   */
  ghost predicate TakenAcross(s: Vault, r: Reading) {
    exists v :: v in s.versions && s.versions[v].doc == r.doc && Released(s.versions[v]) && Start(s, v).Some?
      && Across(s, r, v)
  }

  /** The governing version was retired (T11) while it governed: its row no longer says until when. */
  predicate RetiredInOffice(s: Vault, r: Reading) {
    r.governing.Some? && r.governing.value in s.versions && Gone(s.versions[r.governing.value])
  }

  predicate Claimed(s: Vault, d: Id, t: Time) {
    exists v :: v in s.versions && s.versions[v].doc == d && StartedBy(s, v, t)
  }

  predicate ClaimedByRetired(s: Vault, d: Id, t: Time) {
    exists v :: v in s.versions && s.versions[v].doc == d && Gone(s.versions[v]) && StartedBy(s, v, t)
  }

  /**
   When the query can recover what the pointer held at capture: a governed reading, if its version was
   not retired in office and no release lies across it; an ungoverned one, if no version claims to have
   started by then or the last to do so was retired.
   */
  ghost predicate Recoverable(s: Vault, r: Reading) {
    if r.governing.Some? then !RetiredInOffice(s, r) && !TakenAcross(s, r)
    else !Claimed(s, r.doc, r.at) || ClaimedByRetired(s, r.doc, r.at)
  }

  predicate StampOrder(d: Id, v: Version, w: Version) {
    && v.doc == d && w.doc == d && Released(v) && Released(w) && v.releasedAt.value <= w.releasedAt.value
    && v.stampedAt.Some? && w.stampedAt.Some?
    ==> v.stampedAt.value <= w.stampedAt.value
  }

  /** The releases of the document were stamped in the order in which they moved the pointer. */
  ghost predicate StampedInOrder(s: Vault, d: Id) {
    forall v, w :: v in s.versions && w in s.versions ==> StampOrder(d, s.versions[v], s.versions[w])
  }

  /** Windows of a version and of one released later do not meet: the later one starts where the earlier has ended. */
  lemma LaterStarts(s: Vault, v: Id, w: Id)
    requires Inv(s) && v in s.versions && w in s.versions && s.versions[v].doc == s.versions[w].doc
    requires Released(s.versions[v]) && Released(s.versions[w]) && StampedInOrder(s, s.versions[v].doc)
    requires s.versions[v].releasedAt.value < s.versions[w].releasedAt.value
    ensures Start(s, v).Some? && Start(s, w).Some?
    ensures Start(s, w) == s.versions[w].stampedAt && Start(s, v).value <= Start(s, w).value
    ensures !Gone(s.versions[v]) ==>
      s.versions[v].effectiveTo.Some? && s.versions[v].effectiveTo.value <= Start(s, w).value
  {
    ReleasedStarts(s, v);
    ReleasedStarts(s, w);
    assert FirstOk(s, w, s.versions[w]) && VersionOk(s, v, s.versions[v]) && VersionOk(s, w, s.versions[w]);
    assert PairOk(s.versions[v], s.versions[w]);
    assert StampOrder(s.versions[v].doc, s.versions[v], s.versions[w]);
    if !Gone(s.versions[v]) {
      var h := Successor(s, v);
      assert StampOrder(s.versions[v].doc, s.versions[h], s.versions[w]);
    }
  }

  /** LIMIT 1 never chooses when releases are stamped in order. */
  lemma OneAnswer(s: Vault, d: Id, t: Time, v: Id, a: Time, w: Id, b: Time)
    requires Inv(s) && StampedInOrder(s, d) && Answers(s, d, t, v, a) && Answers(s, d, t, w, b)
    ensures v == w && a == b
  {
    StartOfAnswer(s, d, t, v, a);
    StartOfAnswer(s, d, t, w, b);
    assert VersionOk(s, v, s.versions[v]) && VersionOk(s, w, s.versions[w]);
    if v != w {
      assert PairOk(s.versions[v], s.versions[w]);
      if s.versions[v].releasedAt.value < s.versions[w].releasedAt.value {
        LaterStarts(s, v, w);
      } else {
        LaterStarts(s, w, v);
      }
    }
  }

  lemma PickedAnswers(s: Vault, d: Id, t: Time, ans: Option<Id>)
    requires Inv(s) && Picked(s, d, t, ans)
    ensures if ans.None? then forall v :: !AnsweredBy(s, d, t, v) else AnsweredBy(s, d, t, ans.value)
  {
    if ans.None? {
      forall v ensures !AnsweredBy(s, d, t, v) {
        if AnsweredBy(s, d, t, v) { AnswerOfStart(s, d, t, v); }
      }
    } else {
      var best :| Answers(s, d, t, ans.value, best);
      StartOfAnswer(s, d, t, ans.value, best);
    }
  }

  // ---- recovery ----

  /**
   With no release across it, only the governing version answers for a reading: here the order of stamps does not
   matter.
   */
  lemma OnlyGoverningAnswers(s: Vault, r: Reading, v: Id)
    requires Inv(s) && ReadingOk(s, r) && !TakenAcross(s, r)
    ensures AnsweredBy(s, r.doc, r.at, v) <==> r.governing == Some(v) && !RetiredInOffice(s, r)
  {
    if v in s.versions && s.versions[v].doc == r.doc && Released(s.versions[v]) {
      ReleasedStarts(s, v);
      assert VersionOk(s, v, s.versions[v]);
      assert !Across(s, r, v);
      if s.versions[v].effectiveTo.Some? {
        var w := Successor(s, v);
        assert !Across(s, r, w);
      }
    } else if v in s.versions {
      assert r.governing != Some(v);
    }
  }

  /** A release across a governed reading keeps its version from answering. */
  lemma AcrossHidesGoverning(s: Vault, r: Reading, g: Id)
    requires Inv(s) && ReadingOk(s, r) && r.governing == Some(g) && StampedInOrder(s, r.doc) && TakenAcross(s, r)
    ensures !AnsweredBy(s, r.doc, r.at, g)
  {
    var j :| j in s.versions && s.versions[j].doc == r.doc && Released(s.versions[j]) && Start(s, j).Some?
      && Across(s, r, j);
    assert InWindow(s.versions[g], r.readAt);
    assert VersionOk(s, g, s.versions[g]) && VersionOk(s, j, s.versions[j]);
    if j != g {
      assert PairOk(s.versions[g], s.versions[j]);
      if s.versions[j].releasedAt.value <= r.readAt {
        LaterStarts(s, j, g);
      } else {
        LaterStarts(s, g, j);
      }
    }
  }

  /** The last version to claim a time, by the moment of its release, answers for it unless it is gone. */
  lemma {:induction false} LastClaim(s: Vault, d: Id, t: Time, v: Id) returns (w: Id)
    requires Inv(s) && v in s.versions && s.versions[v].doc == d && StartedBy(s, v, t)
    ensures w in s.versions && s.versions[w].doc == d && StartedBy(s, w, t)
    ensures Gone(s.versions[w]) || AnsweredBy(s, d, t, w)
    decreases s.clock - s.versions[v].releasedAt.value
  {
    w := v;
    assert VersionOk(s, v, s.versions[v]);
    if s.versions[v].effectiveTo.Some? && s.versions[v].effectiveTo.value <= t {
      var h := Successor(s, v);
      assert VersionOk(s, h, s.versions[h]);
      w := LastClaim(s, d, t, h);
    }
  }

  /** Nothing answers for a time that a version retired in office claims. */
  lemma RetiredSilences(s: Vault, d: Id, t: Time, k: Id, v: Id)
    requires Inv(s) && StampedInOrder(s, d) && k in s.versions
    requires s.versions[k].doc == d && Gone(s.versions[k]) && StartedBy(s, k, t)
    ensures !AnsweredBy(s, d, t, v)
  {
    if v in s.versions && s.versions[v].doc == d && Released(s.versions[v]) && v != k {
      assert VersionOk(s, v, s.versions[v]) && VersionOk(s, k, s.versions[k]);
      assert PairOk(s.versions[v], s.versions[k]);
      assert DocOk(s, d, s.docs[d]);
      if s.versions[v].releasedAt.value < s.versions[k].releasedAt.value {
        LaterStarts(s, v, k);
      } else {
        NothingAfterGone(s, k, v);
      }
    }
  }

  lemma PriorOfLater(s: Vault, k: Id, v: Id) returns (p: Id)
    requires Inv(s) && k in s.versions && v in s.versions && s.versions[k].doc == s.versions[v].doc && v != k
    requires Released(s.versions[k]) && Released(s.versions[v]) && Before(s.versions[k], s.versions[v])
    ensures p in s.versions && s.versions[p].supersededBy == Some(v) && s.versions[p].doc == s.versions[v].doc
    ensures Released(s.versions[p]) && s.versions[p].releasedAt.value < s.versions[v].releasedAt.value
    ensures s.versions[p].endedAt == s.versions[v].releasedAt
  {
    assert VersionOk(s, k, s.versions[k]) && VersionOk(s, v, s.versions[v]);
    assert FirstOk(s, v, s.versions[v]);
    p :| p in s.versions && s.versions[p].supersededBy == Some(v);
    assert VersionOk(s, p, s.versions[p]) && LinkOk(s, s.versions[p]);
  }

  /** Retirement ends a document: no version is released after one that is gone. */
  lemma {:induction false} NothingAfterGone(s: Vault, k: Id, v: Id)
    requires Inv(s) && k in s.versions && v in s.versions && s.versions[k].doc == s.versions[v].doc && v != k
    requires Gone(s.versions[k]) && Released(s.versions[k]) && Released(s.versions[v])
    ensures s.versions[v].releasedAt.value < s.versions[k].releasedAt.value
    decreases s.versions[v].releasedAt.value - s.versions[k].releasedAt.value
  {
    assert VersionOk(s, v, s.versions[v]) && VersionOk(s, k, s.versions[k]);
    assert PairOk(s.versions[v], s.versions[k]);
    if Before(s.versions[k], s.versions[v]) {
      var p := PriorOfLater(s, k, v);
      assert PairOk(s.versions[p], s.versions[k]);
      NothingAfterGone(s, k, p);
    }
  }

  /** An ungoverned reading finds nothing exactly when no version claims its time, or one retired in office does. */
  lemma UngovernedFindsNothing(s: Vault, d: Id, t: Time, ans: Option<Id>)
    requires Inv(s) && StampedInOrder(s, d) && Picked(s, d, t, ans)
    ensures ans.None? <==> !Claimed(s, d, t) || ClaimedByRetired(s, d, t)
  {
    PickedAnswers(s, d, t, ans);
    if ans.None? && Claimed(s, d, t) {
      var v :| v in s.versions && s.versions[v].doc == d && StartedBy(s, v, t);
      var w := LastClaim(s, d, t, v);
      assert !AnsweredBy(s, d, t, w);
    }
    if ans.Some? && ClaimedByRetired(s, d, t) {
      var k :| k in s.versions && s.versions[k].doc == d && Gone(s.versions[k]) && StartedBy(s, k, t);
      RetiredSilences(s, d, t, k, ans.value);
    }
  }

  /** A governed reading that no release lies across is recovered, in whatever order releases were stamped. */
  lemma UndisturbedIsRecovered(s: Vault, r: Reading, ans: Option<Id>)
    requires Inv(s) && ReadingOk(s, r) && Picked(s, r.doc, r.at, ans)
    requires r.governing.Some? && !RetiredInOffice(s, r) && !TakenAcross(s, r)
    ensures ans == r.governing
  {
    PickedAnswers(s, r.doc, r.at, ans);
    OnlyGoverningAnswers(s, r, r.governing.value);
    if ans.Some? { OnlyGoverningAnswers(s, r, ans.value); }
  }

  /** The query recovers the version that the pointer was on at capture if and only if the reading is recoverable. */
  lemma RecoversExactly(s: Vault, r: Reading, ans: Option<Id>)
    requires Inv(s) && ReadingOk(s, r) && StampedInOrder(s, r.doc) && Picked(s, r.doc, r.at, ans)
    ensures ans == r.governing <==> Recoverable(s, r)
  {
    PickedAnswers(s, r.doc, r.at, ans);
    if r.governing.None? {
      UngovernedFindsNothing(s, r.doc, r.at, ans);
    } else if TakenAcross(s, r) {
      AcrossHidesGoverning(s, r, r.governing.value);
    } else if !RetiredInOffice(s, r) {
      UndisturbedIsRecovered(s, r, ans);
    }
  }

  // ---- the CASE expressions ----

  /** The two CASE expressions of the SET clause. */
  function FrozenBasis(f: Fold, working: Basis): Basis {
    Basis(
      if f.Commitment? && f.direction.Some? then f.direction.value else working.direction,
      if f.Commitment? then f.threshold else working.threshold)
  }

  /**
   Where the version is recovered, the frozen basis is the captured one if and only if the version
   carries a commitment object or the working row has not been edited since.
   */
  lemma FreezesExactly(s: Vault, r: Reading, ans: Option<Id>)
    requires Inv(s) && ReadingOk(s, r) && CaptureOk(s, r) && Picked(s, r.doc, r.at, ans)
    requires Recoverable(s, r) && StampedInOrder(s, r.doc)
    ensures FrozenBasis(FoldOf(s, ans), s.docs[r.doc].working) == r.captured <==>
      FoldOf(s, r.governing).Commitment? || s.docs[r.doc].working == r.workingThen
  {
    RecoversExactly(s, r, ans);
  }

  /** The query's LIMIT 1, as a scan that keeps the latest window start. */
  method Governing(s: Vault, d: Id, t: Time) returns (ans: Option<Id>)
    ensures Picked(s, d, t, ans)
  {
    ans := None;
    var best := 0;
    var todo := s.versions.Keys;
    while todo != {}
      invariant todo <= s.versions.Keys
      invariant ans.None? ==> forall v, start :: v !in todo ==> !Answers(s, d, t, v, start)
      invariant ans.Some? ==> Answers(s, d, t, ans.value, best)
      invariant ans.Some? ==> forall v, start :: v !in todo && Answers(s, d, t, v, start) ==> start <= best
    {
      var v :| v in todo;
      var joined := Priors(s);
      while joined != {}
        invariant joined <= Priors(s)
        invariant ans.None? ==> forall w, start :: w !in todo ==> !Answers(s, d, t, w, start)
        invariant ans.Some? ==> Answers(s, d, t, ans.value, best)
        invariant ans.Some? ==> forall w, start :: w !in todo && Answers(s, d, t, w, start) ==> start <= best
        invariant forall prior :: prior in Priors(s) && prior !in joined && JoinedPrior(s, v, prior)
                    && WindowStart(s, v, prior).Some? && Answers(s, d, t, v, WindowStart(s, v, prior).value)
                    ==> ans.Some? && WindowStart(s, v, prior).value <= best
      {
        var prior :| prior in joined;
        joined := joined - {prior};
        if JoinedPrior(s, v, prior) && WindowStart(s, v, prior).Some? {
          var start := WindowStart(s, v, prior).value;
          if Answers(s, d, t, v, start) && (ans.None? || best < start) {
            ans, best := Some(v), start;
          }
        }
      }
      assert forall start :: Answers(s, d, t, v, start) ==> ans.Some? && start <= best;
      todo := todo - {v};
    }
  }

  // ---- the migration ----

  /** The two columns that 0055 adds to kpi_measurement, NULL together or set together. */
  class Measurements {
    var frozen: map<Id, Option<Basis>>

    constructor (ids: set<Id>)
      ensures frozen == map id | id in ids :: None
    {
      frozen := map id | id in ids :: None;
    }

    /** Rows that are no objective's reading keep their NULLs: the join drops them. */
    method Backfill(s: Vault)
      requires s.readings.Keys <= frozen.Keys
      requires forall r :: r in s.readings ==> s.readings[r].doc in s.docs
      modifies this
      ensures frozen.Keys == old(frozen.Keys)
      ensures forall id :: id in frozen && id !in s.readings ==> frozen[id] == old(frozen)[id]
      ensures forall id :: id in s.readings ==> Backfilled(s, s.readings[id], frozen[id])
    {
      var todo := s.readings.Keys;
      while todo != {}
        invariant todo <= s.readings.Keys <= frozen.Keys == old(frozen.Keys)
        invariant forall id :: id in frozen && id !in s.readings ==> frozen[id] == old(frozen)[id]
        invariant forall id :: id in s.readings && id !in todo ==> Backfilled(s, s.readings[id], frozen[id])
      {
        var id :| id in todo;
        var r := s.readings[id];
        var ans := Governing(s, r.doc, r.at);
        frozen := frozen[id := Some(FrozenBasis(FoldOf(s, ans), s.docs[r.doc].working))];
        todo := todo - {id};
      }
    }
  }

  ghost predicate Backfilled(s: Vault, r: Reading, b: Option<Basis>)
    requires r.doc in s.docs
  {
    exists ans :: Picked(s, r.doc, r.at, ans) && b == Some(FrozenBasis(FoldOf(s, ans), s.docs[r.doc].working))
  }

  /**
   After any history whose releases of the document were stamped in order, the backfill writes back to
   a recoverable reading the basis its capture froze, unless the reading was graded by a working row that
   has been edited since.
   */
  lemma BackfillRefinesHistory(events: seq<Event>, id: Id, b: Option<Basis>)
    requires id in Run(EMPTY, events).readings
    ensures var s := Run(EMPTY, events);
      var r := s.readings[id];
      && r.doc in s.docs
      && (Backfilled(s, r, b) && Recoverable(s, r) && StampedInOrder(s, r.doc) ==>
            (b == Some(r.captured) <==>
              FoldOf(s, r.governing).Commitment? || s.docs[r.doc].working == r.workingThen))
  {
    var s := Run(EMPTY, events);
    RunKeepsInv(EMPTY, events);
    var r := s.readings[id];
    assert ReadingOk(s, r) && CaptureOk(s, r);
    if Backfilled(s, r, b) && Recoverable(s, r) && StampedInOrder(s, r.doc) {
      var ans :| Picked(s, r.doc, r.at, ans) && b == Some(FrozenBasis(FoldOf(s, ans), s.docs[r.doc].working));
      FreezesExactly(s, r, ans);
    }
  }
}
