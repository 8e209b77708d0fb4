/** Short histories after which the backfill of migration 0055 misses, and that they are reached by runs. */
module GradingWitnesses {
  import opened Wrappers
  import opened ObjectiveHistory
  import opened GradingBackfill

  // ---- the ways to miss, reached by short histories ----

  function NewVersion(d: Id, state: VersionState, f: Fold, from: Option<Time>): Version {
    Version(d, state, f, from, None, None, None, None, None)
  }

  /** One objective, one version, released at 10. */
  function JustReleased(f: Fold, w: Basis, from: Time): Vault {
    Vault(map[1 := Doc(DocEffective, Some(7), w)],
          map[7 := Version(1, Effective, f, Some(from), None, None, Some(10), Some(10), None)], map[], 10)
  }

  function JustApproved(f: Fold, w: Basis, from: Option<Time>): Vault {
    Vault(map[1 := Doc(DocApproved, None, w)], map[7 := NewVersion(1, Approved, f, from)], map[], 0)
  }

  /** One objective with one version in the lifecycle state given. */
  function OneVersion(f: Fold, w: Basis, ds: DocState, vs: VersionState): Vault {
    Vault(map[1 := Doc(ds, None, w)], map[7 := NewVersion(1, vs, f, None)], map[], 0)
  }

  lemma FirstCheckIn(f: Fold, w: Basis)
    ensures Step(Step(EMPTY, CreateObjective(1, w)), CheckIn(1, 7, f)) == OneVersion(f, w, DocDraft, Draft)
  {
    var s1 := Vault(map[1 := Doc(DocDraft, None, w)], map[], map[], 0);
    assert Step(EMPTY, CreateObjective(1, w)) == s1;
    assert Step(s1, CheckIn(1, 7, f)).versions == OneVersion(f, w, DocDraft, Draft).versions;
  }

  lemma FirstSubmission(f: Fold, w: Basis, from: Option<Time>)
    ensures Step(Step(OneVersion(f, w, DocDraft, Draft), Submit(1, 7)), Approve(1, 7, from))
         == JustApproved(f, w, from)
  {
    var s2 := OneVersion(f, w, DocInReview, InReview);
    assert Step(OneVersion(f, w, DocDraft, Draft), Submit(1, 7)) == s2;
    assert Step(s2, Approve(1, 7, from)) == JustApproved(f, w, from);
  }

  lemma FirstApproval(f: Fold, w: Basis, from: Option<Time>)
    ensures Step(Step(Step(Step(EMPTY, CreateObjective(1, w)), CheckIn(1, 7, f)), Submit(1, 7)), Approve(1, 7, from))
         == JustApproved(f, w, from)
  {
    FirstCheckIn(f, w);
    FirstSubmission(f, w, from);
  }

  lemma FirstRelease(f: Fold, w: Basis, from: Option<Time>)
    requires from.Some? ==> from.value <= 10
    ensures Step(JustApproved(f, w, from), Release(1, 7, 10, 10))
         == JustReleased(f, w, if from.Some? then from.value else 10)
  {
    var s4, s5 := JustApproved(f, w, from), JustReleased(f, w, if from.Some? then from.value else 10);
    assert CutOver(s4, 1, 7, 10, 10) == s5.versions;
  }

  lemma RunCons(s: Vault, e: Event, rest: seq<Event>)
    ensures Run(s, [e] + rest) == Run(Step(s, e), rest)
  {
    assert ([e] + rest)[1..] == rest;
  }

  /** The vault just after a first release is reached by a run of five events, and so are its successors. */
  lemma FirstReleaseIsReached(f: Fold, w: Basis, from: Option<Time>, rest: seq<Event>)
    requires from.Some? ==> from.value <= 10
    ensures Run(EMPTY, [CreateObjective(1, w)] + ([CheckIn(1, 7, f)] + ([Submit(1, 7)]
              + ([Approve(1, 7, from)] + ([Release(1, 7, 10, 10)] + rest)))))
         == Run(JustReleased(f, w, if from.Some? then from.value else 10), rest)
  {
    var e5 := [Release(1, 7, 10, 10)] + rest;
    var e4 := [Approve(1, 7, from)] + e5;
    var e3 := [Submit(1, 7)] + e4;
    var e2 := [CheckIn(1, 7, f)] + e3;
    var s1 := Step(EMPTY, CreateObjective(1, w));
    var s2 := Step(s1, CheckIn(1, 7, f));
    var s3 := Step(s2, Submit(1, 7));
    var s4 := Step(s3, Approve(1, 7, from));
    RunCons(EMPTY, CreateObjective(1, w), e2);
    RunCons(s1, CheckIn(1, 7, f), e3);
    RunCons(s2, Submit(1, 7), e4);
    RunCons(s3, Approve(1, 7, from), e5);
    RunCons(s4, Release(1, 7, 10, 10), rest);
    FirstApproval(f, w, from);
    FirstRelease(f, w, from);
  }

  lemma CapturedInOffice(f: Fold, w: Basis)
    requires CanGrade(f)
    ensures var s := JustReleased(f, w, 10);
            Step(s, Capture(5, 1, 20, 20)) == s.(readings := map[5 := CapturedReading(s, 1, 20, 20)], clock := 20)
  {
  }

  /** A version retired in office: the reading it governed at 20 finds no version at all. */
  lemma RetirementLosesReadings(f: Fold, w: Basis)
    requires CanGrade(f)
    ensures var s := Step(Step(JustReleased(f, w, 10), Capture(5, 1, 20, 20)), Retire(1, 30));
      && 5 in s.readings && s.readings[5].governing == Some(7) && s.readings[5].at == 20
      && RetiredInOffice(s, s.readings[5]) && Picked(s, 1, 20, None)
  {
    CapturedInOffice(f, w);
    var s := Step(Step(JustReleased(f, w, 10), Capture(5, 1, 20, 20)), Retire(1, 30));
    assert s.versions.Keys == {7} && Gone(s.versions[7]);
  }

  /** Scheduled for 5, captured at 7 and released at 10. */
  function GapVault(f: Fold, w: Basis): Vault {
    var s := JustApproved(f, w, Some(5));
    JustReleased(f, w, 5).(readings := map[5 := CapturedReading(s, 1, 7, 7)])
  }

  lemma CapturedInTheGap(f: Fold, w: Basis)
    ensures Step(Step(JustApproved(f, w, Some(5)), Capture(5, 1, 7, 7)), Release(1, 7, 10, 10)) == GapVault(f, w)
  {
    var s := JustApproved(f, w, Some(5));
    assert Step(s, Capture(5, 1, 7, 7)) == s.(readings := map[5 := CapturedReading(s, 1, 7, 7)], clock := 7);
  }

  lemma GapIsHandedOut(f: Fold, w: Basis)
    ensures var s := GapVault(f, w); !Recoverable(s, s.readings[5]) && Picked(s, 1, 7, Some(7))
  {
    var s := GapVault(f, w);
    assert s.versions.Keys == {7} && StartedBy(s, 7, 7);
    assert None in Priors(s) && JoinedPrior(s, 7, None);
    assert Answers(s, 1, 7, 7, 5);
  }

  /** Scheduled for 5 and released at 10: the reading of 7, which nothing governed, is handed the version. */
  lemma GapHandsOutTheFirstVersion(f: Fold, w: Basis)
    ensures var s := Step(Step(JustApproved(f, w, Some(5)), Capture(5, 1, 7, 7)), Release(1, 7, 10, 10));
      && 5 in s.readings && s.readings[5].governing == None && s.readings[5].at == 7
      && !Recoverable(s, s.readings[5]) && Picked(s, 1, 7, Some(7))
  {
    CapturedInTheGap(f, w);
    GapIsHandedOut(f, w);
  }

  /** The working row is edited in a revision after the capture. */
  function EditedVault(w: Basis, later: Basis): Vault {
    var s := JustReleased(NoFold, w, 10);
    s.(readings := map[5 := CapturedReading(s, 1, 20, 20)], clock := 20,
       docs := map[1 := Doc(DocUnderRevision, Some(7), later)])
  }

  lemma EditedVaultIsReached(w: Basis, later: Basis)
    ensures Step(Step(Step(JustReleased(NoFold, w, 10), Capture(5, 1, 20, 20)), StartRevision(1)),
                 EditWorking(1, later)) == EditedVault(w, later)
  {
    CapturedInOffice(NoFold, w);
    var s := JustReleased(NoFold, w, 10);
    var s1 := s.(readings := map[5 := CapturedReading(s, 1, 20, 20)], clock := 20);
    assert Step(s1, StartRevision(1)).docs == map[1 := Doc(DocUnderRevision, Some(7), w)];
  }

  /** Where no commitment was frozen, the backfill freezes the working row as it is now, not as it was. */
  lemma EditRegradesTheReading(w: Basis, later: Basis)
    requires w != later
    ensures var s := EditedVault(w, later);
      && s.readings[5].captured == w && s.readings[5].governing == Some(7) && Recoverable(s, s.readings[5])
      && Backfilled(s, s.readings[5], Some(later)) && !Backfilled(s, s.readings[5], Some(w))
  {
    var s := EditedVault(w, later);
    assert s.versions.Keys == {7} && StartedBy(s, 7, 20);
    assert None in Priors(s) && JoinedPrior(s, 7, None);
    assert Answers(s, 1, 20, 7, 10);
    assert Picked(s, 1, 20, Some(7));
  }

  // ---- cutovers that take time ----

  /** Version 7 governs since 10, and version 8 has been approved to follow it. */
  function SecondApproved(f: Fold, g: Fold, w: Basis): Vault {
    Vault(map[1 := Doc(DocApproved, Some(7), w)],
          map[7 := Version(1, Effective, f, Some(10), None, None, Some(10), Some(10), None),
              8 := NewVersion(1, Approved, g, None)], map[], 10)
  }

  /** The vault on the way from the first release to the second approval. */
  function SecondOnItsWay(f: Fold, g: Fold, w: Basis, ds: DocState, vs: VersionState): Vault {
    SecondApproved(f, g, w).(docs := map[1 := Doc(ds, Some(7), w)],
                             versions := SecondApproved(f, g, w).versions[8 := NewVersion(1, vs, g, None)])
  }

  lemma SecondCheckIn(f: Fold, g: Fold, w: Basis)
    ensures Step(Step(JustReleased(f, w, 10), StartRevision(1)), CheckIn(1, 8, g))
         == SecondOnItsWay(f, g, w, DocUnderRevision, Draft)
  {
    var s1 := JustReleased(f, w, 10).(docs := map[1 := Doc(DocUnderRevision, Some(7), w)]);
    assert Step(JustReleased(f, w, 10), StartRevision(1)) == s1;
    assert Step(s1, CheckIn(1, 8, g)).versions == SecondOnItsWay(f, g, w, DocUnderRevision, Draft).versions;
  }

  lemma SecondSubmission(f: Fold, g: Fold, w: Basis)
    ensures Step(Step(SecondOnItsWay(f, g, w, DocUnderRevision, Draft), Submit(1, 8)), Approve(1, 8, None))
         == SecondApproved(f, g, w)
  {
    var s1, s2 := SecondOnItsWay(f, g, w, DocUnderRevision, Draft), SecondOnItsWay(f, g, w, DocInReview, InReview);
    assert Step(s1, Submit(1, 8)).docs == s2.docs;
    assert Step(s1, Submit(1, 8)).versions == s2.versions;
    assert Step(s2, Approve(1, 8, None)).docs == SecondApproved(f, g, w).docs;
    assert Step(s2, Approve(1, 8, None)).versions == SecondApproved(f, g, w).versions;
  }

  /** The vault with the second version approved is reached by a run, and so are its successors. */
  lemma SecondApprovalIsReached(f: Fold, g: Fold, w: Basis, rest: seq<Event>)
    ensures Run(JustReleased(f, w, 10), [StartRevision(1)]
      + ([CheckIn(1, 8, g)] + ([Submit(1, 8)] + ([Approve(1, 8, None)] + rest))))
         == Run(SecondApproved(f, g, w), rest)
  {
    var e4 := [Approve(1, 8, None)] + rest;
    var e3 := [Submit(1, 8)] + e4;
    var s1 := Step(JustReleased(f, w, 10), StartRevision(1));
    var s2 := Step(s1, CheckIn(1, 8, g));
    RunCons(JustReleased(f, w, 10), StartRevision(1), [CheckIn(1, 8, g)] + e3);
    RunCons(s1, CheckIn(1, 8, g), e3);
    RunCons(s2, Submit(1, 8), e4);
    RunCons(Step(s2, Submit(1, 8)), Approve(1, 8, None), rest);
    SecondCheckIn(f, g, w);
    SecondSubmission(f, g, w);
  }

  /** A vault in which a second version has taken over, with the stamp and the moment of its release. */
  function SecondReleased(f: Fold, g: Fold, w: Basis, stamp: Time, now: Time): Vault {
    Vault(map[1 := Doc(DocEffective, Some(8), w)],
          map[7 := Version(1, Superseded, f, Some(10), Some(stamp), Some(8), Some(10), Some(10), Some(now)),
              8 := Version(1, Effective, g, Some(stamp), None, None, Some(stamp), Some(now), None)], map[], now)
  }

  lemma SecondRelease(s: Vault, f: Fold, g: Fold, w: Basis, stamp: Time, now: Time)
    requires s == SecondApproved(f, g, w).(readings := s.readings, clock := s.clock) && stamp <= now && s.clock < now
    ensures Step(s, Release(1, 8, stamp, now)) == SecondReleased(f, g, w, stamp, now).(readings := s.readings)
  {
    var rows := SecondReleased(f, g, w, stamp, now).versions;
    assert Supersede(s.versions[7], 8, stamp, now) == rows[7];
    assert Promote(s.versions[8], stamp, now) == rows[8];
    assert CutOver(s, 1, 8, stamp, now) == rows;
  }

  /** The rows of a second release answer with the first version before the stamp and with the second from then on. */
  lemma SecondAnswers(s: Vault, f: Fold, g: Fold, w: Basis, stamp: Time, now: Time, t: Time)
    requires s.versions == SecondReleased(f, g, w, stamp, now).versions && 10 <= t
    ensures Picked(s, 1, t, Some(if t < stamp then 7 else 8))
  {
    assert s.versions[7].supersededBy == Some(8) && JoinedPrior(s, 8, Some(7)) && Some(7) in Priors(s);
    assert !HasPrior(s, 7) && JoinedPrior(s, 7, None) && None in Priors(s);
    assert s.versions.Keys == {7, 8};
    if t < stamp {
      assert Answers(s, 1, t, 7, 10);
    } else {
      assert Answers(s, 1, t, 8, stamp);
    }
  }

  /**
   A sweep stamps 20 and its cutover commits at 30: the reading taken at 25 is governed by the old
   version, and the backfill hands it the new one. It is no reading of a retired version.
   */
  lemma SweepTakesReadingsOver(f: Fold, g: Fold, w: Basis)
    requires CanGrade(f)
    ensures var s := Step(Step(SecondApproved(f, g, w), Capture(5, 1, 25, 25)), Release(1, 8, 20, 30));
      && 5 in s.readings && s.readings[5].governing == Some(7) && s.readings[5].at == 25
      && !RetiredInOffice(s, s.readings[5]) && TakenAcross(s, s.readings[5]) && Picked(s, 1, 25, Some(8))
  {
    var s1 := Step(SecondApproved(f, g, w), Capture(5, 1, 25, 25));
    assert s1.versions == SecondApproved(f, g, w).versions;
    SecondRelease(s1, f, g, w, 20, 30);
    var s := Step(s1, Release(1, 8, 20, 30));
    assert s.versions[7].supersededBy == Some(8);
    assert Across(s, s.readings[5], 8);
    SecondAnswers(s, f, g, w, 20, 30, 25);
  }

  /**
   A capture begins at 15 and waits for a cutover that is stamped 20: it reads the new version at 25,
   and the backfill goes by its beginning and hands it the old one.
   */
  lemma LateReadingsFallBack(f: Fold, g: Fold, w: Basis)
    requires CanGrade(g)
    ensures var s := Step(Step(SecondApproved(f, g, w), Release(1, 8, 20, 22)), Capture(5, 1, 15, 25));
      && 5 in s.readings && s.readings[5].governing == Some(8) && s.readings[5].at == 15
      && !RetiredInOffice(s, s.readings[5]) && TakenAcross(s, s.readings[5]) && Picked(s, 1, 15, Some(7))
  {
    var s1 := SecondReleased(f, g, w, 20, 22);
    SecondRelease(SecondApproved(f, g, w), f, g, w, 20, 22);
    assert Step(SecondApproved(f, g, w), Release(1, 8, 20, 22)) == s1;
    var s := Step(s1, Capture(5, 1, 15, 25));
    assert s.versions == s1.versions;
    assert s.versions[7].supersededBy == Some(8);
    assert Across(s, s.readings[5], 8);
    SecondAnswers(s, f, g, w, 20, 22, 15);
  }

  /** Version 8 took over with stamp 40, and then version 9 with the older stamp 5. */
  function ThirdReleased(f: Fold, w: Basis): Vault {
    Vault(map[1 := Doc(DocEffective, Some(9), w)],
          map[7 := Version(1, Superseded, f, Some(10), Some(40), Some(8), Some(10), Some(10), Some(41)),
              8 := Version(1, Superseded, f, Some(40), Some(5), Some(9), Some(40), Some(41), Some(50)),
              9 := Version(1, Effective, f, Some(5), None, None, Some(5), Some(50), None)], map[], 50)
  }

  lemma StaleStampsAnswer(f: Fold, w: Basis)
    ensures var s := ThirdReleased(f, w);
      AnsweredBy(s, 1, 25, 7) && AnsweredBy(s, 1, 25, 9) && Picked(s, 1, 25, Some(7))
  {
    var s := ThirdReleased(f, w);
    assert s.versions.Keys == {7, 8, 9};
    assert s.versions[8].supersededBy == Some(9) && HasPrior(s, 9);
    assert !HasPrior(s, 7) && JoinedPrior(s, 7, None) && None in Priors(s);
    assert Answers(s, 1, 25, 7, 10);
  }

  /**
   Why the order of the stamps is asked for: here two versions answer for 25, LIMIT 1 chooses, and it
   gives back the governing version although the release of version 9 lies across the reading.
   */
  lemma StaleStampsMakeItChoose(f: Fold, w: Basis)
    ensures var s := ThirdReleased(f, w);
      && !StampedInOrder(s, 1) && TakenAcross(s, Reading(1, 25, 25, Some(7), w, w))
      && AnsweredBy(s, 1, 25, 7) && AnsweredBy(s, 1, 25, 9) && Picked(s, 1, 25, Some(7))
  {
    var s := ThirdReleased(f, w);
    assert !StampOrder(1, s.versions[8], s.versions[9]);
    assert s.versions[8].supersededBy == Some(9) && HasPrior(s, 9);
    assert Across(s, Reading(1, 25, 25, Some(7), w, w), 9);
    StaleStampsAnswer(f, w);
  }
}
