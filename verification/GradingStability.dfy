/**
 What later events do to the answers of migration 0055: which of them keep releases stamped in order,
 and which of them change the answer for a time.
 */
module GradingStability {
  import opened Wrappers
  import opened ObjectiveHistory
  import opened ObjectiveInvariant
  import opened ObjectiveCutover
  import opened GradingBackfill

  // ---- the order of the stamps ----

  /** No release takes over from a version with a later stamp. */
  predicate KeepsOrder(s: Vault, e: Event, d: Id) {
    e.Release? && e.doc == d && Enabled(s, e) && s.docs[d].current.Some? && s.docs[d].current.value in s.versions ==>
      var stamped := s.versions[s.docs[d].current.value].stampedAt; stamped.Some? ==> stamped.value <= e.stamp
  }

  lemma QuietOrder(s: Vault, s': Vault, d: Id)
    requires Quiet(s, s') && StampedInOrder(s, d)
    ensures StampedInOrder(s', d)
  {
    forall v, w | v in s'.versions && w in s'.versions ensures StampOrder(d, s'.versions[v], s'.versions[w]) {
      if v in s.versions && w in s.versions {
        assert QuietRow(s.versions[v], s'.versions[v]) && QuietRow(s.versions[w], s'.versions[w]);
        assert StampOrder(d, s.versions[v], s.versions[w]);
      }
    }
  }

  lemma RetireOrder(s: Vault, s': Vault, x: Id, c: Id, now: Time, d: Id)
    requires StampedInOrder(s, d) && RetireShape(s, s', x, c, now)
    ensures StampedInOrder(s', d)
  {
    forall v, w | v in s'.versions && w in s'.versions ensures StampOrder(d, s'.versions[v], s'.versions[w]) {
      assert StampOrder(d, s.versions[v], s.versions[w]);
    }
  }

  /** The version in office is the last to have been released. */
  lemma OfficeIsLast(s: Vault, x: Id, r: Id, stamp: Time, now: Time, v: Id)
    requires Inv(s) && Enabled(s, Release(x, r, stamp, now))
    requires v in s.versions && s.versions[v].doc == x && Released(s.versions[v])
    ensures s.docs[x].current.Some? && s.docs[x].current.value in s.versions
    ensures var c := s.versions[s.docs[x].current.value];
      c.doc == x && Released(c) && c.stampedAt.Some? && s.versions[v].releasedAt.value <= c.releasedAt.value
  {
    RowsBeforeRelease(s, x, r, stamp, now, v);
    assert DocOk(s, x, s.docs[x]);
    var c := s.docs[x].current.value;
    assert VersionOk(s, c, s.versions[c]);
    if v != c { assert PairOk(s.versions[v], s.versions[c]); }
  }

  lemma StampsChain(d: Id, v: Version, c: Version, r: Version)
    requires StampOrder(d, v, c) && c.doc == d && Released(c) && c.stampedAt.Some?
    requires Released(v) ==> v.releasedAt.value <= c.releasedAt.value
    requires r.stampedAt.Some? ==> c.stampedAt.value <= r.stampedAt.value
    ensures StampOrder(d, v, r)
  {
  }

  /** A release leaves the stamps of the other versions alone. */
  lemma ReleaseKeepsStamps(s: Vault, s': Vault, x: Id, r: Id, stamp: Time, now: Time, v: Id)
    requires ReleaseShape(s, s', x, r, stamp, now) && v in s.versions && v != r
    ensures var a, b := s.versions[v], s'.versions[v];
      a.doc == b.doc && a.releasedAt == b.releasedAt && a.stampedAt == b.stampedAt
  {
  }

  /** The released version comes last, and its stamp is not older than any before it. */
  lemma LatestIsOrdered(s: Vault, s': Vault, x: Id, r: Id, stamp: Time, now: Time, d: Id, v: Id)
    requires Inv(s) && StampedInOrder(s, d) && ReleaseShape(s, s', x, r, stamp, now)
    requires KeepsOrder(s, Release(x, r, stamp, now), d)
    requires v in s.versions && v != r
    ensures StampOrder(d, s'.versions[v], s'.versions[r])
  {
    ReleaseKeepsStamps(s, s', x, r, stamp, now, v);
    if s.versions[v].doc == x == d && Released(s.versions[v]) {
      OfficeIsLast(s, x, r, stamp, now, v);
      var c := s.docs[x].current.value;
      assert StampOrder(d, s.versions[v], s.versions[c]);
      StampsChain(d, s.versions[v], s.versions[c], s'.versions[r]);
    }
  }

  lemma NoneIsLater(s: Vault, s': Vault, x: Id, r: Id, stamp: Time, now: Time, d: Id, w: Id)
    requires Versions(s) && Docs(s) && ReleaseShape(s, s', x, r, stamp, now) && w in s.versions && w != r
    ensures StampOrder(d, s'.versions[r], s'.versions[w])
  {
    RowsBeforeRelease(s, x, r, stamp, now, w);
  }

  lemma OlderPair(s: Vault, s': Vault, x: Id, r: Id, stamp: Time, now: Time, d: Id, v: Id, w: Id)
    requires ReleaseShape(s, s', x, r, stamp, now) && v in s.versions && w in s.versions && v != r && w != r
    requires StampOrder(d, s.versions[v], s.versions[w])
    ensures StampOrder(d, s'.versions[v], s'.versions[w])
  {
  }

  lemma ReleaseKeepsOrder(s: Vault, s': Vault, x: Id, r: Id, stamp: Time, now: Time, d: Id)
    requires Inv(s) && StampedInOrder(s, d) && ReleaseShape(s, s', x, r, stamp, now)
    requires KeepsOrder(s, Release(x, r, stamp, now), d)
    ensures StampedInOrder(s', d)
  {
    forall v, w | v in s'.versions && w in s'.versions ensures StampOrder(d, s'.versions[v], s'.versions[w]) {
      if v != r && w != r {
        OlderPair(s, s', x, r, stamp, now, d, v, w);
      } else if v != r {
        LatestIsOrdered(s, s', x, r, stamp, now, d, v);
      } else if w != r {
        NoneIsLater(s, s', x, r, stamp, now, d, w);
      }
    }
  }

  lemma StaleReleaseBreaksOrder(s: Vault, s': Vault, x: Id, r: Id, stamp: Time, now: Time)
    requires Versions(s) && Docs(s) && ReleaseShape(s, s', x, r, stamp, now)
    requires !KeepsOrder(s, Release(x, r, stamp, now), x)
    ensures !StampedInOrder(s', x)
  {
    var c := s.docs[x].current.value;
    assert DocOk(s, x, s.docs[x]) && VersionOk(s, c, s.versions[c]);
    RowsBeforeRelease(s, x, r, stamp, now, c);
    assert !StampOrder(x, s'.versions[c], s'.versions[r]);
  }

  /** Stamps stay in order if and only if no release takes over from a version with a later stamp. */
  lemma OrderIsKept(s: Vault, e: Event, d: Id)
    requires Inv(s) && StampedInOrder(s, d)
    ensures StampedInOrder(Step(s, e), d) <==> KeepsOrder(s, e, d)
  {
    if IsQuiet(e) {
      QuietSteps(s, e);
      QuietOrder(s, Step(s, e), d);
    } else if Enabled(s, e) && e.Release? {
      ReleaseHasShape(s, e.doc, e.version, e.stamp, e.now);
      if KeepsOrder(s, e, d) {
        ReleaseKeepsOrder(s, Step(s, e), e.doc, e.version, e.stamp, e.now, d);
      } else {
        StaleReleaseBreaksOrder(s, Step(s, e), e.doc, e.version, e.stamp, e.now);
      }
    } else if Enabled(s, e) && e.Retire? {
      RetireOrder(s, Step(s, e), e.doc, s.docs[e.doc].current.value, e.now, d);
    }
  }

  // ---- later events do not change an earlier answer ----

  /**
   The events that change the answer for a time: a release that stamps it or an earlier one, and the retirement
   of a version that claims it.
   */
  predicate Disturbs(s: Vault, e: Event, d: Id, t: Time) {
    match e
    case Retire(x, _) => Enabled(s, e) && x == d && AnsweredBy(s, d, t, s.docs[d].current.value)
    case Release(x, v, stamp, _) =>
      Enabled(s, e) && x == d && (if s.docs[d].current.None? then ReleaseFrom(s.versions[v], stamp) else stamp) <= t
    case _ => false
  }

  lemma QuietAnswers(s: Vault, s': Vault, d: Id, t: Time, v: Id)
    requires Versions(s) && Quiet(s, s')
    ensures AnsweredBy(s', d, t, v) <==> AnsweredBy(s, d, t, v)
  {
    QuietPrior(s, s', v);
    if v in s.versions {
      assert VersionOk(s, v, s.versions[v]) && QuietRow(s.versions[v], s'.versions[v]);
    }
  }

  /** Whether a version answers is a matter of its row and of whether it has superseded another. */
  predicate RowAnswers(row: Version, superseding: bool, d: Id, t: Time) {
    && row.doc == d && !Gone(row) && Released(row)
    && (var start := if superseding then row.stampedAt else row.effectiveFrom; start.Some? && start.value <= t)
    && (row.effectiveTo.Some? ==> t < row.effectiveTo.value)
  }

  lemma AnsweredByRow(s: Vault, d: Id, t: Time, v: Id)
    requires v in s.versions
    ensures AnsweredBy(s, d, t, v) <==> RowAnswers(s.versions[v], HasPrior(s, v), d, t)
  {
  }

  lemma HandingOver(s: Vault, s': Vault, d: Id, t: Time, c: Id, next: Id, stamp: Time, now: Time)
    requires c in s.versions && c in s'.versions && s'.versions[c] == Supersede(s.versions[c], next, stamp, now)
    requires HasPrior(s', c) == HasPrior(s, c)
    requires s.versions[c].state == Effective
    requires s.versions[c].effectiveTo.None? && (s.versions[c].doc == d ==> t < stamp)
    ensures AnsweredBy(s', d, t, c) <==> AnsweredBy(s, d, t, c)
  {
    AnsweredByRow(s, d, t, c);
    AnsweredByRow(s', d, t, c);
  }

  lemma OfficeRow(s: Vault, x: Id, c: Id)
    requires Versions(s) && Docs(s) && x in s.docs && s.docs[x].current == Some(c)
    ensures c in s.versions && s.versions[c].doc == x
    ensures s.versions[c].state == Effective && s.versions[c].effectiveTo.None?
  {
    assert DocOk(s, x, s.docs[x]) && VersionOk(s, c, s.versions[c]);
  }

  lemma PriorsOfOthersStay(s: Vault, s': Vault, x: Id, w: Id, stamp: Time, now: Time, v: Id)
    requires Versions(s) && Docs(s) && ReleaseShape(s, s', x, w, stamp, now) && v != w
    ensures HasPrior(s', v) == HasPrior(s, v)
  {
    PriorAfterRelease(s, s', x, w, stamp, now, v);
  }

  /** The version that hands over answers as before for the times before the stamp. */
  lemma OfficeAnswers(s: Vault, s': Vault, x: Id, w: Id, stamp: Time, now: Time, d: Id, t: Time, c: Id)
    requires Versions(s) && Docs(s) && ReleaseShape(s, s', x, w, stamp, now)
    requires s.docs[x].current == Some(c) && c in s.versions && c != w && (d == x ==> t < stamp)
    ensures AnsweredBy(s', d, t, c) <==> AnsweredBy(s, d, t, c)
  {
    PriorsOfOthersStay(s, s', x, w, stamp, now, c);
    OfficeRow(s, x, c);
    assert s'.versions[c] == Supersede(s.versions[c], w, stamp, now);
    HandingOver(s, s', d, t, c, w, stamp, now);
  }

  lemma BystandersAnswer(s: Vault, s': Vault, x: Id, w: Id, stamp: Time, now: Time, d: Id, t: Time, v: Id)
    requires Versions(s) && Docs(s) && ReleaseShape(s, s', x, w, stamp, now)
    requires v in s.versions && v != w && s.docs[x].current != Some(v)
    ensures AnsweredBy(s', d, t, v) <==> AnsweredBy(s, d, t, v)
  {
    PriorAfterRelease(s, s', x, w, stamp, now, v);
    AnsweredByRow(s, d, t, v);
    AnsweredByRow(s', d, t, v);
  }

  lemma PromotedAnswers(row: Version, superseding: bool, stamp: Time, now: Time, t: Time)
    requires UnreleasedOk(row)
    ensures RowAnswers(Promote(row, stamp, now), superseding, row.doc, t) <==>
      (if superseding then stamp else ReleaseFrom(row, stamp)) <= t
  {
  }

  /** The released version answers from its start on, and it starts where the version before it ends. */
  lemma ReleasedAnswers(s: Vault, s': Vault, x: Id, w: Id, stamp: Time, now: Time, t: Time)
    requires Versions(s) && Docs(s) && ReleaseShape(s, s', x, w, stamp, now)
    ensures !AnsweredBy(s, x, t, w)
    ensures AnsweredBy(s', x, t, w) <==>
      (if s.docs[x].current.None? then ReleaseFrom(s.versions[w], stamp) else stamp) <= t
  {
    RowsBeforeRelease(s, x, w, stamp, now, w);
    PriorAfterRelease(s, s', x, w, stamp, now, w);
    NoPriorYet(s, w);
    AnsweredByRow(s', x, t, w);
    PromotedAnswers(s.versions[w], s.docs[x].current.Some?, stamp, now, t);
  }

  lemma RetireAnswers(s: Vault, s': Vault, x: Id, c: Id, now: Time, d: Id, t: Time, v: Id)
    requires Inv(s) && RetireShape(s, s', x, c, now) && (x == d ==> !AnsweredBy(s, d, t, c))
    ensures AnsweredBy(s', d, t, v) <==> AnsweredBy(s, d, t, v)
  {
    if v in s.versions {
      RowsBeforeRetire(s, s', x, c, now, v);
      RetiringKeepsPriors(s, s', x, c, now, v);
    }
  }

  lemma RetiringKeepsPriors(s: Vault, s': Vault, x: Id, c: Id, now: Time, v: Id)
    requires RetireShape(s, s', x, c, now)
    ensures HasPrior(s', v) <==> HasPrior(s, v)
  {
    if p :| p in s.versions && s.versions[p].supersededBy == Some(v) {
      assert s'.versions[p].supersededBy == Some(v);
    }
  }

  lemma ReleaseStepAnswers(s: Vault, x: Id, w: Id, stamp: Time, now: Time, d: Id, t: Time, v: Id)
    requires Inv(s) && Enabled(s, Release(x, w, stamp, now)) && !Disturbs(s, Release(x, w, stamp, now), d, t)
    ensures AnsweredBy(Step(s, Release(x, w, stamp, now)), d, t, v) <==> AnsweredBy(s, d, t, v)
  {
    var s' := Step(s, Release(x, w, stamp, now));
    ReleaseHasShape(s, x, w, stamp, now);
    if v == w {
      ReleasedAnswers(s, s', x, w, stamp, now, t);
    } else if v in s.versions {
      if s.docs[x].current == Some(v) {
        OfficeAnswers(s, s', x, w, stamp, now, d, t, v);
      } else {
        BystandersAnswer(s, s', x, w, stamp, now, d, t, v);
      }
    }
  }

  /** No event but a disturbing one changes what answers for a time, past or to come. */
  lemma StepAnswers(s: Vault, e: Event, d: Id, t: Time, v: Id)
    requires Inv(s) && !Disturbs(s, e, d, t)
    ensures AnsweredBy(Step(s, e), d, t, v) <==> AnsweredBy(s, d, t, v)
  {
    if IsQuiet(e) {
      QuietSteps(s, e);
      QuietAnswers(s, Step(s, e), d, t, v);
    } else if Enabled(s, e) {
      match e
      case Release(x, w, stamp, now) => ReleaseStepAnswers(s, x, w, stamp, now, d, t, v);
      case Retire(x, now) => RetireAnswers(s, Step(s, e), x, s.docs[x].current.value, now, d, t, v);
      case Capture(_, _, _, _) =>
    }
  }

  lemma PickedIs(s: Vault, d: Id, t: Time, ans: Option<Id>)
    requires Inv(s) && StampedInOrder(s, d)
    ensures Picked(s, d, t, ans) <==>
      if ans.None? then forall v :: !AnsweredBy(s, d, t, v) else AnsweredBy(s, d, t, ans.value)
  {
    if Picked(s, d, t, ans) { PickedAnswers(s, d, t, ans); }
    forall v, start | Answers(s, d, t, v, start) ensures AnsweredBy(s, d, t, v) {
      StartOfAnswer(s, d, t, v, start);
    }
    if ans.Some? && AnsweredBy(s, d, t, ans.value) {
      AnswerOfStart(s, d, t, ans.value);
      var best := Start(s, ans.value).value;
      forall v, start | Answers(s, d, t, v, start) ensures start <= best {
        OneAnswer(s, d, t, ans.value, best, v, start);
      }
    }
  }

  /** A disturbing event does change the answer: a release takes the time over, a retirement silences it. */
  lemma DisturbedAnswer(s: Vault, e: Event, d: Id, t: Time)
    requires Inv(s) && Disturbs(s, e, d, t)
    ensures e.Release? ==> !AnsweredBy(s, d, t, e.version) && AnsweredBy(Step(s, e), d, t, e.version)
    ensures e.Retire? ==> exists v :: AnsweredBy(s, d, t, v) && !AnsweredBy(Step(s, e), d, t, v)
    ensures exists v :: AnsweredBy(s, d, t, v) != AnsweredBy(Step(s, e), d, t, v)
  {
    match e
    case Release(x, w, stamp, now) =>
      ReleaseHasShape(s, x, w, stamp, now);
      ReleasedAnswers(s, Step(s, e), x, w, stamp, now, t);
      assert AnsweredBy(s, d, t, w) != AnsweredBy(Step(s, e), d, t, w);
    case Retire(x, now) =>
      var c := s.docs[x].current.value;
      RowsBeforeRetire(s, Step(s, e), x, c, now, c);
      assert AnsweredBy(s, d, t, c);
    case _ =>
  }

  lemma LinkedIsReleased(s: Vault, p: Id)
    requires Versions(s) && p in s.versions && s.versions[p].supersededBy.Some?
    ensures s.versions[p].supersededBy.value in s.versions && Released(s.versions[s.versions[p].supersededBy.value])
  {
    assert VersionOk(s, p, s.versions[p]) && LinkOk(s, s.versions[p]);
  }

  /** What is not released supersedes nothing. */
  lemma NoPriorYet(s: Vault, w: Id)
    requires Versions(s) && w in s.versions && !Released(s.versions[w])
    ensures !HasPrior(s, w)
  {
    forall p | p in s.versions ensures s.versions[p].supersededBy != Some(w) {
      if s.versions[p].supersededBy.Some? { LinkedIsReleased(s, p); }
    }
  }

  lemma SameAnswers(s: Vault, s': Vault, d: Id, t: Time, ans: Option<Id>)
    requires Inv(s) && Inv(s') && StampedInOrder(s, d) && StampedInOrder(s', d)
    requires forall v :: AnsweredBy(s', d, t, v) <==> AnsweredBy(s, d, t, v)
    ensures Picked(s', d, t, ans) <==> Picked(s, d, t, ans)
  {
    PickedIs(s, d, t, ans);
    PickedIs(s', d, t, ans);
  }

  lemma OtherAnswer(s: Vault, s': Vault, d: Id, t: Time, v: Id)
    requires Inv(s) && Inv(s') && StampedInOrder(s, d) && StampedInOrder(s', d)
    requires AnsweredBy(s', d, t, v) != AnsweredBy(s, d, t, v)
    ensures Picked(s', d, t, Some(v)) != Picked(s, d, t, Some(v))
  {
    PickedIs(s, d, t, Some(v));
    PickedIs(s', d, t, Some(v));
  }

  /** An event leaves the answer for a time as it was if and only if it does not disturb that time. */
  lemma AnswersAreStable(s: Vault, e: Event, d: Id, t: Time)
    requires Inv(s) && StampedInOrder(s, d) && StampedInOrder(Step(s, e), d)
    ensures (forall ans :: Picked(Step(s, e), d, t, ans) <==> Picked(s, d, t, ans)) <==> !Disturbs(s, e, d, t)
  {
    StepKeepsInv(s, e);
    if Disturbs(s, e, d, t) {
      DisturbedAnswer(s, e, d, t);
      var v :| AnsweredBy(s, d, t, v) != AnsweredBy(Step(s, e), d, t, v);
      OtherAnswer(s, Step(s, e), d, t, v);
    } else {
      forall v ensures AnsweredBy(Step(s, e), d, t, v) <==> AnsweredBy(s, d, t, v) {
        StepAnswers(s, e, d, t, v);
      }
      forall ans ensures Picked(Step(s, e), d, t, ans) <==> Picked(s, d, t, ans) {
        SameAnswers(s, Step(s, e), d, t, ans);
      }
    }
  }
}
