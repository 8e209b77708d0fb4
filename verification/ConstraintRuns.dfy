/**
 Runs of the migration chain up and down, each step taken with the code from before or after the
 correction of the constraint names: the constraints that 0079 and 0089 repair.
 */
module ConstraintRuns {
  import opened Wrappers
  import opened Strings
  import opened ConstraintNames

  /** The migration that repairs the name: 0079 knows one doubled spelling, 0089 finds any. */
  datatype Repair = By0079 | By0089

  /**
   An invariant and the revision that adds its constraint: to a table that is there, or together with the
   table (`withTable`, as 0019 does), in which case the table goes with it.
   */
  datatype Owned = Owned(site: Site, revision: nat, repair: Repair, withTable: bool)

  function RepairAt(o: Owned): nat {
    if o.repair.By0079? then 79 else 89
  }

  lemma RepairsCome(o: Owned)
    ensures RepairAt(o) in {79, 89} && (o.repair == By0089 <==> RepairAt(o) == 89)
  {
  }

  ghost predicate SoundOwned(o: Owned) {
    Sound(o.site) && o.revision < RepairAt(o) && (o.repair.By0079? ==> o.site.literal.Some?)
  }

  /** The chain's own constraints, each on a table of its own; no table uses their names before they come. */
  ghost predicate SoundChain(chain: seq<Owned>) {
    forall i :: 0 <= i < |chain| ==> SoundOwned(chain[i])
  }

  datatype State = State(revision: nat, tables: seq<Checks>)

  /** A name that one of the spellings of the site could take. */
  predicate Ours(s: Site, n: string) {
    n == s.canonical || StartsWith(n, s.doubledPrefix)
  }

  /** The doubled name that the code before the correction gave: the known one, or one with some suffix. */
  predicate Doubled(s: Site, n: string) {
    Legacy(s, n) && (s.literal.Some? ==> n == s.literal.value)
  }

  // ---- steps ----

  /** How a table fares when the chain goes from revision `r - 1` to `r`. */
  ghost predicate TableUp(o: Owned, r: nat, before: Checks, after: Checks) {
    if o.revision == r then
      exists n :: (n == o.site.canonical || Doubled(o.site, n)) && n !in before && after == before[n := o.site.body]
    else if r == RepairAt(o) then RepairedAsFor(o, before, after)
    else after == before
  }

  /** The code from before the correction gives the doubled name, the code from after it the canonical one. */
  lemma BothSpellingsComeUp(o: Owned, before: Checks, doubled: string)
    requires Legacy(o.site, doubled) && (o.site.literal.Some? ==> doubled == o.site.literal.value)
    requires doubled !in before && o.site.canonical !in before
    ensures TableUp(o, o.revision, before, before[doubled := o.site.body])
    ensures TableUp(o, o.revision, before, before[o.site.canonical := o.site.body])
  {
  }

  ghost predicate RepairedAsFor(o: Owned, before: Checks, after: Checks) {
    match o.repair
    case By0079 => o.site.literal.Some? && RepairedOnly(o.site, o.site.literal.value, before, after)
    case By0089 => Repaired(o.site, before, after)
  }

  /** And when it goes back from `r` to `r - 1`, with the tolerant downgrades. */
  ghost predicate TableDown(o: Owned, r: nat, before: Checks, after: Checks) {
    if o.revision == r then
      after == if o.withTable then map[]
        else before - (if o.site.literal.Some? then {o.site.canonical, o.site.literal.value}
          else Spellings(o.site, before))
    else after == before
  }

  /** The canonical name, the known doubled one, or one that starts as a doubled one does. */
  predicate Spelt(s: Site, n: string) {
    n == s.canonical || s.literal == Some(n) || StartsWith(n, s.doubledPrefix)
  }

  /** The downgrades are tolerant: there is always a way back, and it takes nothing but the spellings. */
  lemma OneCanGoBack(o: Owned, r: nat, before: Checks)
    ensures exists after :: TableDown(o, r, before, after) && (r != o.revision ==> after == before)
    ensures forall after, n :: TableDown(o, r, before, after) && !o.withTable && n in before && !Spelt(o.site, n) ==>
      n in after && after[n] == before[n]
  {
    var known := if o.site.literal.Some? then {o.site.canonical, o.site.literal.value} else Spellings(o.site, before);
    var left := if o.withTable then map[] else before - known;
    assert TableDown(o, r, before, if r == o.revision then left else before);
  }

  ghost predicate Up(chain: seq<Owned>, a: State, b: State) {
    && b.revision == a.revision + 1 && |a.tables| == |b.tables| == |chain|
    && forall i :: 0 <= i < |chain| ==> TableUp(chain[i], b.revision, a.tables[i], b.tables[i])
  }

  ghost predicate Down(chain: seq<Owned>, a: State, b: State) {
    && a.revision == b.revision + 1 && |a.tables| == |b.tables| == |chain|
    && forall i :: 0 <= i < |chain| ==> TableDown(chain[i], a.revision, a.tables[i], b.tables[i])
  }

  /** A refused downgrade rolls back. */
  ghost predicate Step(chain: seq<Owned>, a: State, b: State) {
    Up(chain, a, b) || Down(chain, a, b) || a == b
  }

  ghost predicate Run(chain: seq<Owned>, states: seq<State>) {
    forall i :: 0 <= i < |states| - 1 ==> Step(chain, states[i], states[i + 1])
  }

  // ---- what holds in between ----

  /**
   One physical constraint with the invariant's expression while the column exists, none before, canonical once
   repaired.
   */
  ghost predicate TableGood(o: Owned, r: nat, c: Checks) {
    && (o.withTable ==> forall n :: n in c ==> Ours(o.site, n))
    && if r < o.revision then forall n :: n in c ==> !Ours(o.site, n)
       else exists n :: TheOne(o, r, c, n)
  }

  ghost predicate TheOne(o: Owned, r: nat, c: Checks, n: string) {
    && n in c && c[n] == o.site.body && (n == o.site.canonical || (r < RepairAt(o) && Doubled(o.site, n)))
    && forall m :: m in c && Ours(o.site, m) ==> m == n
  }

  /** Everything else on the table is as it was. */
  ghost predicate OthersKept(s: Site, c: Checks, d: Checks) {
    forall n :: !Ours(s, n) ==> (n in c <==> n in d) && (n in c ==> c[n] == d[n])
  }

  ghost predicate Good(chain: seq<Owned>, a: State) {
    |a.tables| == |chain| && forall i :: 0 <= i < |chain| ==> TableGood(chain[i], a.revision, a.tables[i])
  }

  lemma AddedIsGood(o: Owned, r: nat, before: Checks, after: Checks)
    requires SoundOwned(o) && 0 < r && o.revision == r
    requires TableGood(o, r - 1, before) && TableUp(o, r, before, after)
    ensures TableGood(o, r, after) && OthersKept(o.site, before, after)
  {
    var n :| (n == o.site.canonical || Doubled(o.site, n)) && n !in before && after == before[n := o.site.body];
    assert Ours(o.site, n);
    assert TheOne(o, r, after, n);
  }

  lemma FullRepairIsGood(o: Owned, before: Checks, after: Checks)
    requires SoundOwned(o) && o.repair.By0089?
    requires TableGood(o, RepairAt(o) - 1, before) && Repaired(o.site, before, after)
    ensures TableGood(o, RepairAt(o), after) && OthersKept(o.site, before, after)
  {
    var s := o.site;
    var n :| TheOne(o, RepairAt(o) - 1, before, n);
    if n != s.canonical {
      assert s.canonical !in before by { assert Ours(s, s.canonical); }
      assert n in LegacyNames(s, before);
      assert IsFirst(n, LegacyNames(s, before));
    }
    forall m | m in after && m != s.canonical ensures !Ours(s, m) && m in before {
      assert m in before && !Legacy(s, m);
    }
    assert TheOne(o, RepairAt(o), after, s.canonical);
  }

  lemma OneNameRepairIsGood(o: Owned, before: Checks, after: Checks)
    requires SoundOwned(o) && o.repair.By0079?
    requires TableGood(o, RepairAt(o) - 1, before) && RepairedOnly(o.site, o.site.literal.value, before, after)
    ensures TableGood(o, RepairAt(o), after) && OthersKept(o.site, before, after)
  {
    var s := o.site;
    var n :| TheOne(o, RepairAt(o) - 1, before, n);
    assert Ours(s, s.canonical) && Ours(s, s.literal.value);
    forall m | m in after && m != s.canonical ensures m in before && m != s.literal.value {
    }
    assert TheOne(o, RepairAt(o), after, s.canonical);
  }

  lemma RepairIsGood(o: Owned, before: Checks, after: Checks)
    requires SoundOwned(o)
    requires TableGood(o, RepairAt(o) - 1, before) && RepairedAsFor(o, before, after)
    ensures TableGood(o, RepairAt(o), after) && OthersKept(o.site, before, after)
  {
    match o.repair
    case By0079 => OneNameRepairIsGood(o, before, after);
    case By0089 => FullRepairIsGood(o, before, after);
  }

  lemma DroppedIsGood(o: Owned, r: nat, before: Checks, after: Checks)
    requires SoundOwned(o) && 0 < r && o.revision == r
    requires TableGood(o, r, before) && TableDown(o, r, before, after)
    ensures TableGood(o, r - 1, after) && OthersKept(o.site, before, after)
  {
    var s := o.site;
    var n :| TheOne(o, r, before, n);
    assert Ours(s, n) && Ours(s, s.canonical);
    assert s.literal.Some? ==> Ours(s, s.literal.value);
    assert n !in after;
  }

  /** Revisions that do not concern the table. */
  lemma StaysGood(o: Owned, r: nat, r': nat, c: Checks)
    requires TableGood(o, r, c) && (r < o.revision <==> r' < o.revision) && (RepairAt(o) <= r' ==> RepairAt(o) <= r)
    ensures TableGood(o, r', c)
  {
    if o.revision <= r {
      var n :| TheOne(o, r, c, n);
      assert TheOne(o, r', c, n);
    }
  }

  lemma StepIsGood(chain: seq<Owned>, a: State, b: State)
    requires SoundChain(chain) && Good(chain, a) && Step(chain, a, b)
    ensures Good(chain, b)
    ensures forall i :: 0 <= i < |chain| ==> OthersKept(chain[i].site, a.tables[i], b.tables[i])
  {
    forall i | 0 <= i < |chain|
      ensures TableGood(chain[i], b.revision, b.tables[i]) && OthersKept(chain[i].site, a.tables[i], b.tables[i]) {
      TableStepIsGood(chain, i, a, b);
    }
  }

  lemma TableStepIsGood(chain: seq<Owned>, i: nat, a: State, b: State)
    requires i < |chain| && SoundChain(chain) && Good(chain, a) && Step(chain, a, b)
    ensures TableGood(chain[i], b.revision, b.tables[i]) && OthersKept(chain[i].site, a.tables[i], b.tables[i])
  {
    var o, before, after := chain[i], a.tables[i], b.tables[i];
    assert TableGood(o, a.revision, before);
    if a == b {
    } else if Up(chain, a, b) {
      assert TableUp(o, b.revision, before, after);
      if o.revision == b.revision {
        AddedIsGood(o, b.revision, before, after);
      } else if b.revision == RepairAt(o) {
        RepairIsGood(o, before, after);
      } else {
        StaysGood(o, a.revision, b.revision, before);
      }
    } else {
      assert TableDown(o, a.revision, before, after);
      if o.revision == a.revision {
        DroppedIsGood(o, a.revision, before, after);
      } else {
        StaysGood(o, a.revision, b.revision, before);
      }
    }
  }

  /** The whole story, for every run from a database without these constraints. */
  lemma {:induction false} EveryRunIsGood(chain: seq<Owned>, states: seq<State>, k: nat)
    requires SoundChain(chain) && Run(chain, states) && k < |states|
    requires Good(chain, states[0])
    ensures Good(chain, states[k])
    ensures forall i :: 0 <= i < |chain| ==>
      |states[0].tables| == |chain| && OthersKept(chain[i].site, states[0].tables[i], states[k].tables[i])
  {
    if k > 0 {
      EveryRunIsGood(chain, states, k - 1);
      assert Step(chain, states[k - 1], states[(k - 1) + 1]);
      StepIsGood(chain, states[k - 1], states[k]);
      forall i | 0 <= i < |chain| ensures OthersKept(chain[i].site, states[0].tables[i], states[k].tables[i]) {
        assert OthersKept(chain[i].site, states[0].tables[i], states[k - 1].tables[i]);
        assert OthersKept(chain[i].site, states[k - 1].tables[i], states[k].tables[i]);
      }
    }
  }
}
