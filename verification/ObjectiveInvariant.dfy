/** Every step of the lifecycle keeps the windows in which versions governed. */
module ObjectiveInvariant {
  import opened Wrappers
  import opened ObjectiveHistory

  // ---- steps that leave the pointer and the clock alone ----

  /** A version row before and after such a step. */
  ghost predicate QuietRow(v: Version, v': Version) {
    && v' == v.(state := v'.state, effectiveFrom := v'.effectiveFrom)
    && (if Released(v) then
          v'.effectiveFrom == v.effectiveFrom
            && (v'.state == v.state || (v.state == Superseded && v'.state == Obsolete))
        else v'.state in {Draft, InReview, Approved})
  }

  ghost predicate QuietDoc(d: Doc, d': Doc) {
    && d'.current == d.current
    && (d'.state == DocEffective ==> d.state == DocEffective)
    && (d'.state == DocObsolete <==> d.state == DocObsolete)
  }

  ghost predicate Quiet(s: Vault, s': Vault) {
    && s'.readings == s.readings && s'.clock == s.clock
    && (forall d :: d in s.docs ==> d in s'.docs && QuietDoc(s.docs[d], s'.docs[d]))
    && (forall d :: d in s'.docs && d !in s.docs ==> s'.docs[d].current.None? && s'.docs[d].state == DocDraft)
    && (forall v :: v in s.versions ==> v in s'.versions && QuietRow(s.versions[v], s'.versions[v]))
    && (forall v :: v in s'.versions && v !in s.versions ==>
          s'.versions[v].doc in s.docs && !Released(s'.versions[v]) && UnreleasedOk(s'.versions[v]))
  }

  predicate IsQuiet(e: Event) {
    !e.Release? && !e.Retire? && !e.Capture?
  }

  /** Rewriting one existing document and one existing version quietly is quiet. */
  lemma QuietEdit(s: Vault, d: Id, doc: Doc, v: Id, row: Version)
    requires d in s.docs && QuietDoc(s.docs[d], doc) && v in s.versions && QuietRow(s.versions[v], row)
    requires forall w :: w in s.versions && !Released(s.versions[w]) ==> UnreleasedOk(s.versions[w])
    ensures Quiet(s, s.(docs := s.docs[d := doc], versions := s.versions[v := row]))
  {
  }

  lemma AllUnreleasedOk(s: Vault)
    requires Versions(s)
    ensures forall w :: w in s.versions && !Released(s.versions[w]) ==> UnreleasedOk(s.versions[w])
  {
    forall w | w in s.versions && !Released(s.versions[w]) ensures UnreleasedOk(s.versions[w]) {
      assert VersionOk(s, w, s.versions[w]);
    }
  }

  /** Writing a document row quietly, or a new one, is quiet. */
  lemma QuietDocEdit(s: Vault, d: Id, doc: Doc)
    requires if d in s.docs then QuietDoc(s.docs[d], doc) else doc.current.None? && doc.state == DocDraft
    requires forall w :: w in s.versions && !Released(s.versions[w]) ==> UnreleasedOk(s.versions[w])
    ensures Quiet(s, s.(docs := s.docs[d := doc]))
  {
    var s' := s.(docs := s.docs[d := doc]);
    forall v | v in s.versions ensures v in s'.versions && QuietRow(s.versions[v], s'.versions[v]) {
    }
  }

  lemma QuietCheckIn(s: Vault, d: Id, v: Id, f: Fold)
    requires d in s.docs && v !in s.versions
    requires forall w :: w in s.versions && !Released(s.versions[w]) ==> UnreleasedOk(s.versions[w])
    ensures Quiet(s, Step(s, CheckIn(d, v, f)))
  {
    var s' := Step(s, CheckIn(d, v, f));
    assert s' == s.(versions := s'.versions);
    forall w | w in s.versions ensures w in s'.versions && QuietRow(s.versions[w], s'.versions[w]) {
    }
  }

  lemma QuietAdditions(s: Vault, e: Event)
    requires Versions(s) && (e.CreateObjective? || e.EditWorking? || e.CheckIn? || e.StartRevision?) && Enabled(s, e)
    ensures Quiet(s, Step(s, e))
  {
    AllUnreleasedOk(s);
    if e.CheckIn? {
      QuietCheckIn(s, e.doc, e.version, e.fold);
    } else {
      QuietDocEdit(s, e.doc, Step(s, e).docs[e.doc]);
    }
  }

  lemma QuietVersionStep(s: Vault, e: Event, v: Id)
    requires Versions(s) && v in s.versions && e in {Submit(s.versions[v].doc, v), RequestChanges(s.versions[v].doc, v)}
    requires Enabled(s, e)
    ensures Quiet(s, Step(s, e))
  {
    AllUnreleasedOk(s);
    assert VersionOk(s, v, s.versions[v]);
    var s' := Step(s, e);
    var d := s.versions[v].doc;
    QuietEdit(s, d, s'.docs[d], v, s'.versions[v]);
  }

  lemma QuietApprove(s: Vault, d: Id, v: Id, t: Option<Time>)
    requires Versions(s) && Enabled(s, Approve(d, v, t))
    ensures Quiet(s, Step(s, Approve(d, v, t)))
  {
    AllUnreleasedOk(s);
    assert VersionOk(s, v, s.versions[v]);
    var s' := Step(s, Approve(d, v, t));
    QuietEdit(s, d, s'.docs[d], v, s'.versions[v]);
  }

  lemma QuietRowStep(s: Vault, e: Event, v: Id)
    requires Versions(s) && v in s.versions && (e == Archive(v) || (e.Reschedule? && e.version == v)) && Enabled(s, e)
    ensures Quiet(s, Step(s, e))
  {
    AllUnreleasedOk(s);
    assert VersionOk(s, v, s.versions[v]);
    var s' := Step(s, e);
    var d := s.versions[v].doc;
    assert s'.docs == s.docs[d := s.docs[d]];
    QuietEdit(s, d, s.docs[d], v, s'.versions[v]);
  }

  lemma QuietSteps(s: Vault, e: Event)
    requires Versions(s) && IsQuiet(e)
    ensures Quiet(s, Step(s, e))
  {
    AllUnreleasedOk(s);
    if Enabled(s, e) {
      match e
      case Submit(_, v) => QuietVersionStep(s, e, v);
      case RequestChanges(_, v) => QuietVersionStep(s, e, v);
      case Approve(d, v, t) => QuietApprove(s, d, v, t);
      case Reschedule(v, _) => QuietRowStep(s, e, v);
      case Archive(v) => QuietRowStep(s, e, v);
      case _ => QuietAdditions(s, e);
    }
  }

  lemma QuietKeepsVersions(s: Vault, s': Vault)
    requires Versions(s) && Quiet(s, s')
    ensures Versions(s')
  {
    forall v | v in s'.versions ensures VersionOk(s', v, s'.versions[v]) && LinkOk(s', s'.versions[v]) {
      if v in s.versions {
        assert VersionOk(s, v, s.versions[v]) && LinkOk(s, s.versions[v]);
        assert QuietRow(s.versions[v], s'.versions[v]);
      }
    }
  }

  lemma QuietPrior(s: Vault, s': Vault, id: Id)
    requires Quiet(s, s')
    ensures HasPrior(s', id) <==> HasPrior(s, id)
  {
    if p :| p in s'.versions && s'.versions[p].supersededBy == Some(id) {
      assert p in s.versions && QuietRow(s.versions[p], s'.versions[p]);
    }
    if p :| p in s.versions && s.versions[p].supersededBy == Some(id) {
      assert QuietRow(s.versions[p], s'.versions[p]);
    }
  }

  lemma QuietKeepsWindows(s: Vault, s': Vault)
    requires Windows(s) && Quiet(s, s')
    ensures Windows(s')
  {
    forall v, w | v in s'.versions && w in s'.versions && v != w ensures PairOk(s'.versions[v], s'.versions[w]) {
      if v in s.versions && w in s.versions {
        assert PairOk(s.versions[v], s.versions[w]);
        assert QuietRow(s.versions[v], s'.versions[v]) && QuietRow(s.versions[w], s'.versions[w]);
      }
    }
    forall v | v in s'.versions ensures FirstOk(s', v, s'.versions[v]) {
      if v in s.versions {
        QuietPrior(s, s', v);
        assert FirstOk(s, v, s.versions[v]);
        assert QuietRow(s.versions[v], s'.versions[v]);
        forall w | w in s'.versions && Released(s'.versions[w])
          ensures w in s.versions && QuietRow(s.versions[w], s'.versions[w])
        {
        }
      }
    }
  }

  lemma QuietKeepsDocs(s: Vault, s': Vault)
    requires Versions(s) && Docs(s) && Quiet(s, s')
    ensures Docs(s')
  {
    forall d | d in s'.docs ensures DocOk(s', d, s'.docs[d]) {
      forall v | v in s'.versions && Released(s'.versions[v])
        ensures v in s.versions && QuietRow(s.versions[v], s'.versions[v]) && VersionOk(s, v, s.versions[v])
      {
      }
      if d in s.docs {
        assert DocOk(s, d, s.docs[d]) && QuietDoc(s.docs[d], s'.docs[d]);
        if s.docs[d].current.Some? {
          var c := s.docs[d].current.value;
          assert VersionOk(s, c, s.versions[c]) && QuietRow(s.versions[c], s'.versions[c]);
        }
      }
    }
  }

  lemma QuietKeepsReadings(s: Vault, s': Vault)
    requires Readings(s) && Quiet(s, s')
    ensures Readings(s')
  {
    forall r | r in s'.readings ensures ReadingOk(s', s'.readings[r]) && CaptureOk(s', s'.readings[r]) {
      var reading := s.readings[r];
      assert ReadingOk(s, reading) && CaptureOk(s, reading);
      if reading.governing.Some? {
        assert QuietRow(s.versions[reading.governing.value], s'.versions[reading.governing.value]);
      }
      forall v | v in s'.versions && s'.versions[v].doc == reading.doc
        ensures InWindow(s'.versions[v], reading.readAt) <==> reading.governing == Some(v)
      {
        assert v in s.versions ==> QuietRow(s.versions[v], s'.versions[v]);
      }
    }
  }
}
