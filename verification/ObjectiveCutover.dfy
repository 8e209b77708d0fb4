/** The cutover, the retirement and the capture keep the invariant, and so does every run. */
module ObjectiveCutover {
  import opened Wrappers
  import opened ObjectiveHistory
  import opened ObjectiveInvariant

  // ---- release ----

  /** The cutover row by row: the version the pointer was on ends as the released one begins. */
  ghost predicate ReleaseShape(s: Vault, s': Vault, d: Id, v: Id, stamp: Time, now: Time) {
    && Enabled(s, Release(d, v, stamp, now))
    && s' == s.(versions := s'.versions, clock := now,
                docs := s.docs[d := s.docs[d].(state := DocEffective, current := Some(v))])
    && s'.versions.Keys == s.versions.Keys
    && s'.versions[v] == Promote(s.versions[v], stamp, now)
    && (forall w :: w in s.versions && w != v ==>
          s'.versions[w] == if s.docs[d].current == Some(w) then Supersede(s.versions[w], v, stamp, now)
            else s.versions[w])
  }

  lemma ReleaseHasShape(s: Vault, d: Id, v: Id, stamp: Time, now: Time)
    requires Versions(s) && Docs(s) && Enabled(s, Release(d, v, stamp, now))
    ensures ReleaseShape(s, Step(s, Release(d, v, stamp, now)), d, v, stamp, now)
  {
    assert DocOk(s, d, s.docs[d]);
    forall w | w in s.versions && s.versions[w].doc == d && s.versions[w].state == Effective
      ensures s.docs[d].current == Some(w)
    {
      assert VersionOk(s, w, s.versions[w]);
    }
  }

  /** What the invariant says of a version at the time of a release. */
  lemma RowsBeforeRelease(s: Vault, d: Id, v: Id, stamp: Time, now: Time, w: Id)
    requires Versions(s) && Docs(s) && Enabled(s, Release(d, v, stamp, now)) && w in s.versions
    ensures VersionOk(s, w, s.versions[w]) && LinkOk(s, s.versions[w])
    ensures !Released(s.versions[v]) && UnreleasedOk(s.versions[v])
    ensures Released(s.versions[w]) && s.versions[w].doc == d ==>
      s.docs[d].current.Some? && (s.docs[d].current == Some(w) || s.versions[w].endedAt.Some?)
  {
    assert DocOk(s, d, s.docs[d]);
    assert VersionOk(s, v, s.versions[v]);
  }

  lemma ReleaseKeepsVersion(s: Vault, s': Vault, d: Id, v: Id, stamp: Time, now: Time, w: Id)
    requires Versions(s) && Docs(s) && ReleaseShape(s, s', d, v, stamp, now) && w in s'.versions
    ensures VersionOk(s', w, s'.versions[w]) && LinkOk(s', s'.versions[w])
  {
    RowsBeforeRelease(s, d, v, stamp, now, w);
    assert DocOk(s, d, s.docs[d]);
    if s.versions[w].supersededBy.Some? {
      assert s.versions[w].supersededBy.value != v;
    }
  }

  /** Every version of the document that was released before has ended by the time of a release. */
  lemma OthersHaveEnded(s: Vault, s': Vault, d: Id, v: Id, stamp: Time, now: Time, x: Id)
    requires Versions(s) && Docs(s) && ReleaseShape(s, s', d, v, stamp, now)
    requires x in s.versions && x != v && s.versions[x].doc == d && Released(s'.versions[x])
    ensures Before(s'.versions[x], s'.versions[v])
  {
    RowsBeforeRelease(s, d, v, stamp, now, x);
  }

  lemma OthersKeepPairs(s: Vault, s': Vault, d: Id, v: Id, stamp: Time, now: Time, x: Id, y: Id)
    requires Versions(s) && Docs(s) && ReleaseShape(s, s', d, v, stamp, now)
    requires x in s.versions && y in s.versions && x != v && y != v && PairOk(s.versions[x], s.versions[y])
    ensures PairOk(s'.versions[x], s'.versions[y])
  {
    assert DocOk(s, d, s.docs[d]);
    RowsBeforeRelease(s, d, v, stamp, now, x);
    RowsBeforeRelease(s, d, v, stamp, now, y);
  }

  lemma ReleaseKeepsPair(s: Vault, s': Vault, d: Id, v: Id, stamp: Time, now: Time, x: Id, y: Id)
    requires Versions(s) && Windows(s) && Docs(s) && ReleaseShape(s, s', d, v, stamp, now)
    requires x in s'.versions && y in s'.versions && x != y
    ensures PairOk(s'.versions[x], s'.versions[y])
  {
    if x != v && y != v {
      assert PairOk(s.versions[x], s.versions[y]);
      OthersKeepPairs(s, s', d, v, stamp, now, x, y);
    } else {
      var z := if x == v then y else x;
      if s.versions[z].doc == d && Released(s'.versions[z]) {
        OthersHaveEnded(s, s', d, v, stamp, now, z);
      }
    }
  }

  lemma PriorsAreKept(s: Vault, s': Vault, d: Id, v: Id, stamp: Time, now: Time, p: Id)
    requires Versions(s) && Docs(s) && ReleaseShape(s, s', d, v, stamp, now) && p in s.versions
    ensures s.versions[p].supersededBy.Some? ==> s'.versions[p].supersededBy == s.versions[p].supersededBy
    ensures s'.versions[p].supersededBy ==
      if s.docs[d].current == Some(p) then Some(v) else s.versions[p].supersededBy
  {
    assert DocOk(s, d, s.docs[d]);
    RowsBeforeRelease(s, d, v, stamp, now, p);
  }

  lemma PriorAfterRelease(s: Vault, s': Vault, d: Id, v: Id, stamp: Time, now: Time, w: Id)
    requires Versions(s) && Docs(s) && ReleaseShape(s, s', d, v, stamp, now)
    ensures HasPrior(s', w) <==> HasPrior(s, w) || (w == v && s.docs[d].current.Some?)
  {
    assert DocOk(s, d, s.docs[d]);
    if p :| p in s'.versions && s'.versions[p].supersededBy == Some(w) {
      PriorsAreKept(s, s', d, v, stamp, now, p);
    }
    if p :| p in s.versions && s.versions[p].supersededBy == Some(w) {
      PriorsAreKept(s, s', d, v, stamp, now, p);
      assert s'.versions[p].supersededBy == Some(w);
    }
    if s.docs[d].current.Some? {
      PriorsAreKept(s, s', d, v, stamp, now, s.docs[d].current.value);
    }
  }

  /** The released version is a first one only if no version of the document was released before. */
  lemma FirstReleaseIsFirst(s: Vault, s': Vault, d: Id, v: Id, stamp: Time, now: Time, w: Id)
    requires Versions(s) && Docs(s) && ReleaseShape(s, s', d, v, stamp, now)
    requires s.docs[d].current.None? && w in s.versions && w != v && s.versions[w].doc == d
    ensures !Released(s'.versions[w])
  {
    RowsBeforeRelease(s, d, v, stamp, now, w);
  }

  /** A first version stays before the others, which now include the released one. */
  lemma FirstStaysFirst(s: Vault, s': Vault, d: Id, v: Id, stamp: Time, now: Time, x: Id, w: Id)
    requires Versions(s) && Docs(s) && ReleaseShape(s, s', d, v, stamp, now)
    requires x in s.versions && w in s.versions && x != v && x != w && s.versions[w].doc == s.versions[x].doc
    requires Released(s.versions[x]) && Released(s'.versions[w])
    requires Released(s.versions[w]) ==> Before(s.versions[x], s.versions[w])
    ensures Before(s'.versions[x], s'.versions[w])
  {
    if w == v {
      OthersHaveEnded(s, s', d, v, stamp, now, x);
    } else {
      assert DocOk(s, d, s.docs[d]);
      RowsBeforeRelease(s, d, v, stamp, now, x);
      RowsBeforeRelease(s, d, v, stamp, now, w);
    }
  }

  lemma NoneReleasedBefore(s: Vault, s': Vault, d: Id, v: Id, stamp: Time, now: Time)
    requires Versions(s) && Docs(s) && ReleaseShape(s, s', d, v, stamp, now) && s.docs[d].current.None?
    ensures forall w :: w in s'.versions && w != v && s'.versions[w].doc == d ==> !Released(s'.versions[w])
  {
    forall w | w in s'.versions && w != v && s'.versions[w].doc == d ensures !Released(s'.versions[w]) {
      FirstReleaseIsFirst(s, s', d, v, stamp, now, w);
    }
  }

  lemma ReleasedIsFirstOk(s: Vault, s': Vault, d: Id, v: Id, stamp: Time, now: Time)
    requires Versions(s) && Docs(s) && ReleaseShape(s, s', d, v, stamp, now)
    ensures FirstOk(s', v, s'.versions[v])
  {
    if s.docs[d].current.None? {
      NoneReleasedBefore(s, s', d, v, stamp, now);
    } else {
      PriorAfterRelease(s, s', d, v, stamp, now, v);
    }
  }

  lemma ReleaseKeepsFirst(s: Vault, s': Vault, d: Id, v: Id, stamp: Time, now: Time, x: Id)
    requires Versions(s) && Docs(s) && ReleaseShape(s, s', d, v, stamp, now)
    requires x in s.versions && x != v && FirstOk(s, x, s.versions[x])
    ensures FirstOk(s', x, s'.versions[x])
  {
    PriorAfterRelease(s, s', d, v, stamp, now, x);
    if Released(s.versions[x]) && !HasPrior(s, x) {
      forall w | w in s'.versions && w != x && s'.versions[w].doc == s.versions[x].doc && Released(s'.versions[w])
        ensures Before(s'.versions[x], s'.versions[w])
      {
        FirstStaysFirst(s, s', d, v, stamp, now, x, w);
      }
    }
  }

  lemma ReleaseKeepsDoc(s: Vault, s': Vault, d: Id, v: Id, stamp: Time, now: Time, x: Id)
    requires Versions(s) && Docs(s) && ReleaseShape(s, s', d, v, stamp, now) && x in s'.docs
    ensures DocOk(s', x, s'.docs[x])
  {
    assert DocOk(s, d, s.docs[d]);
    assert x in s.docs ==> DocOk(s, x, s.docs[x]);
  }

  lemma ReleaseKeepsReading(s: Vault, s': Vault, d: Id, v: Id, stamp: Time, now: Time, r: Reading)
    requires Versions(s) && Docs(s) && ReleaseShape(s, s', d, v, stamp, now) && ReadingOk(s, r) && CaptureOk(s, r)
    ensures ReadingOk(s', r) && CaptureOk(s', r)
  {
    forall w | w in s'.versions && s'.versions[w].doc == r.doc
      ensures InWindow(s'.versions[w], r.readAt) <==> r.governing == Some(w)
    {
      assert DocOk(s, d, s.docs[d]);
      RowsBeforeRelease(s, d, v, stamp, now, w);
      assert InWindow(s.versions[w], r.readAt) <==> r.governing == Some(w);
    }
  }

  lemma ReleaseKeepsInv(s: Vault, s': Vault, d: Id, v: Id, stamp: Time, now: Time)
    requires Inv(s) && ReleaseShape(s, s', d, v, stamp, now)
    ensures Inv(s')
  {
    forall w | w in s'.versions ensures VersionOk(s', w, s'.versions[w]) && LinkOk(s', s'.versions[w]) {
      ReleaseKeepsVersion(s, s', d, v, stamp, now, w);
    }
    forall x, y | x in s'.versions && y in s'.versions && x != y ensures PairOk(s'.versions[x], s'.versions[y]) {
      ReleaseKeepsPair(s, s', d, v, stamp, now, x, y);
    }
    forall x | x in s'.versions ensures FirstOk(s', x, s'.versions[x]) {
      if x == v {
        ReleasedIsFirstOk(s, s', d, v, stamp, now);
      } else {
        ReleaseKeepsFirst(s, s', d, v, stamp, now, x);
      }
    }
    forall x | x in s'.docs ensures DocOk(s', x, s'.docs[x]) {
      ReleaseKeepsDoc(s, s', d, v, stamp, now, x);
    }
    forall r | r in s'.readings ensures ReadingOk(s', s'.readings[r]) && CaptureOk(s', s'.readings[r]) {
      ReleaseKeepsReading(s, s', d, v, stamp, now, s.readings[r]);
    }
  }

  // ---- retirement ----

  ghost predicate RetireShape(s: Vault, s': Vault, d: Id, c: Id, now: Time) {
    && d in s.docs && s.docs[d].current == Some(c) && c in s.versions && s.clock < now
    && s' == s.(versions := s.versions[c := RetireRow(s.versions[c], now)], clock := now,
                docs := s.docs[d := s.docs[d].(state := DocObsolete, current := None)])
  }

  lemma RowsBeforeRetire(s: Vault, s': Vault, d: Id, c: Id, now: Time, w: Id)
    requires Versions(s) && Docs(s) && RetireShape(s, s', d, c, now) && w in s.versions
    ensures VersionOk(s, w, s.versions[w]) && LinkOk(s, s.versions[w])
    ensures VersionOk(s, c, s.versions[c]) && s.versions[c].doc == d && s.versions[c].state == Effective
    ensures Released(s.versions[w]) && s.versions[w].doc == d && w != c ==> s.versions[w].endedAt.Some?
  {
    assert DocOk(s, d, s.docs[d]);
    assert VersionOk(s, c, s.versions[c]);
  }

  lemma RetireKeepsVersions(s: Vault, s': Vault, d: Id, c: Id, now: Time)
    requires Versions(s) && Docs(s) && RetireShape(s, s', d, c, now)
    ensures Versions(s')
  {
    forall w | w in s'.versions ensures VersionOk(s', w, s'.versions[w]) && LinkOk(s', s'.versions[w]) {
      RowsBeforeRetire(s, s', d, c, now, w);
    }
  }

  lemma RetireKeepsPair(s: Vault, s': Vault, d: Id, c: Id, now: Time, x: Id, y: Id)
    requires Versions(s) && Windows(s) && Docs(s) && RetireShape(s, s', d, c, now)
    requires x in s'.versions && y in s'.versions && x != y
    ensures PairOk(s'.versions[x], s'.versions[y])
  {
    RowsBeforeRetire(s, s', d, c, now, x);
    RowsBeforeRetire(s, s', d, c, now, y);
    assert PairOk(s.versions[x], s.versions[y]);
  }

  lemma RetireKeepsFirst(s: Vault, s': Vault, d: Id, c: Id, now: Time, x: Id)
    requires Versions(s) && Windows(s) && Docs(s) && RetireShape(s, s', d, c, now) && x in s'.versions
    ensures FirstOk(s', x, s'.versions[x])
  {
    RowsBeforeRetire(s, s', d, c, now, x);
    if p :| p in s.versions && s.versions[p].supersededBy == Some(x) {
      assert s'.versions[p].supersededBy == Some(x);
      assert HasPrior(s', x);
    }
    assert FirstOk(s, x, s.versions[x]);
  }

  lemma RetireKeepsReading(s: Vault, s': Vault, d: Id, c: Id, now: Time, r: Reading)
    requires Versions(s) && Docs(s) && RetireShape(s, s', d, c, now) && ReadingOk(s, r) && CaptureOk(s, r)
    ensures ReadingOk(s', r) && CaptureOk(s', r)
  {
    forall w | w in s'.versions && s'.versions[w].doc == r.doc
      ensures InWindow(s'.versions[w], r.readAt) <==> r.governing == Some(w)
    {
      RowsBeforeRetire(s, s', d, c, now, w);
      assert InWindow(s.versions[w], r.readAt) <==> r.governing == Some(w);
    }
  }

  lemma RetireKeepsDocs(s: Vault, s': Vault, d: Id, c: Id, now: Time)
    requires Versions(s) && Docs(s) && RetireShape(s, s', d, c, now)
    ensures Docs(s')
  {
    assert DocOk(s, d, s.docs[d]);
    forall x | x in s'.docs ensures DocOk(s', x, s'.docs[x]) {
      assert DocOk(s, x, s.docs[x]);
    }
  }

  lemma RetireKeepsInv(s: Vault, s': Vault, d: Id, c: Id, now: Time)
    requires Inv(s) && RetireShape(s, s', d, c, now)
    ensures Inv(s')
  {
    RetireKeepsVersions(s, s', d, c, now);
    RetireKeepsDocs(s, s', d, c, now);
    forall x, y | x in s'.versions && y in s'.versions && x != y ensures PairOk(s'.versions[x], s'.versions[y]) {
      RetireKeepsPair(s, s', d, c, now, x, y);
    }
    forall x | x in s'.versions ensures FirstOk(s', x, s'.versions[x]) {
      RetireKeepsFirst(s, s', d, c, now, x);
    }
    forall r | r in s'.readings ensures ReadingOk(s', s'.readings[r]) && CaptureOk(s', s'.readings[r]) {
      RetireKeepsReading(s, s', d, c, now, s.readings[r]);
    }
  }

  // ---- capture ----

  /** The reading that is being captured is governed by the version the pointer is on. */
  lemma CapturedReadingOk(s: Vault, s': Vault, d: Id, createdAt: Time, now: Time)
    requires Versions(s) && Docs(s) && d in s.docs && createdAt <= now
    requires s.clock <= now && CanGrade(GoverningFold(s, d))
    requires s' == s.(clock := now, readings := s'.readings)
    ensures ReadingOk(s', CapturedReading(s, d, createdAt, now)) && CaptureOk(s', CapturedReading(s, d, createdAt, now))
  {
    assert DocOk(s, d, s.docs[d]);
    forall v | v in s.versions && s.versions[v].doc == d
      ensures InWindow(s.versions[v], now) <==> s.docs[d].current == Some(v)
    {
      assert VersionOk(s, v, s.versions[v]);
    }
  }

  lemma LaterClock(s: Vault, s': Vault)
    requires Versions(s) && Windows(s) && Docs(s)
    requires s' == s.(clock := s'.clock, readings := s'.readings) && s.clock <= s'.clock
    ensures Versions(s') && Windows(s') && Docs(s')
  {
    forall v | v in s'.versions ensures VersionOk(s', v, s'.versions[v]) && LinkOk(s', s'.versions[v]) {
      assert VersionOk(s, v, s.versions[v]) && LinkOk(s, s.versions[v]);
    }
    forall v | v in s'.versions ensures FirstOk(s', v, s'.versions[v]) {
      assert FirstOk(s, v, s.versions[v]) && HasPrior(s', v) == HasPrior(s, v);
    }
    forall d | d in s'.docs ensures DocOk(s', d, s'.docs[d]) {
      assert DocOk(s, d, s.docs[d]);
    }
  }

  lemma CaptureKeepsInv(s: Vault, r: Id, d: Id, createdAt: Time, now: Time)
    requires Inv(s) && Enabled(s, Capture(r, d, createdAt, now))
    ensures Inv(Step(s, Capture(r, d, createdAt, now)))
  {
    var s' := Step(s, Capture(r, d, createdAt, now));
    LaterClock(s, s');
    CapturedReadingOk(s, s', d, createdAt, now);
    forall x | x in s'.readings ensures ReadingOk(s', s'.readings[x]) && CaptureOk(s', s'.readings[x]) {
      assert x == r || (ReadingOk(s, s.readings[x]) && CaptureOk(s, s.readings[x]));
    }
  }

  // ---- every run ----

  lemma StepKeepsInv(s: Vault, e: Event)
    requires Inv(s)
    ensures Inv(Step(s, e))
  {
    if IsQuiet(e) {
      QuietSteps(s, e);
      QuietKeepsVersions(s, Step(s, e));
      QuietKeepsWindows(s, Step(s, e));
      QuietKeepsDocs(s, Step(s, e));
      QuietKeepsReadings(s, Step(s, e));
    } else if Enabled(s, e) {
      match e
      case Release(d, v, stamp, now) =>
        ReleaseHasShape(s, d, v, stamp, now);
        ReleaseKeepsInv(s, Step(s, e), d, v, stamp, now);
      case Retire(d, now) =>
        RetireKeepsInv(s, Step(s, e), d, s.docs[d].current.value, now);
      case Capture(r, d, createdAt, now) =>
        CaptureKeepsInv(s, r, d, createdAt, now);
    }
  }

  lemma {:induction false} RunKeepsInv(s: Vault, events: seq<Event>)
    requires Inv(s)
    ensures Inv(Run(s, events))
    decreases |events|
  {
    if events != [] {
      StepKeepsInv(s, events[0]);
      RunKeepsInv(Step(s, events[0]), events[1..]);
    }
  }
}
