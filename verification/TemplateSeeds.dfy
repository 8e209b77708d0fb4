/** Migration 0074: notification templates seeded under deterministic ids, among those that operators write and edit. */
module TemplateSeeds {

  type Id = nat

  datatype Locale = En | Other(code: string)

  datatype Template = Template(event: string, locale: Locale, version: nat, effective: bool, texts: string)

  /** One seed: its event, the id derived from it, and what it says. */
  datatype Seed = Seed(id: Id, event: string, texts: string)

  /** The templates, and which one each notification refers to. */
  datatype State = State(templates: map<Id, Template>, notifications: map<Id, Id>)

  /** The seeds' ids and events tell them apart. */
  ghost predicate Distinct(seeds: seq<Seed>) {
    forall i, j :: 0 <= i < j < |seeds| ==> seeds[i].id != seeds[j].id && seeds[i].event != seeds[j].event
  }

  predicate Serves(t: Template, event: string, locale: Locale) {
    t.effective && t.event == event && t.locale == locale
  }

  predicate Served(templates: map<Id, Template>, event: string, locale: Locale) {
    exists i :: i in templates && Serves(templates[i], event, locale)
  }

  predicate BothServe(t: Template, u: Template) {
    t.effective && u.effective && t.event == u.event && t.locale == u.locale
  }

  /** The partial unique index: at most one effective template for an event and a locale. */
  ghost predicate OneEffective(templates: map<Id, Template>) {
    forall i, j :: i in templates && j in templates && BothServe(templates[i], templates[j]) ==> i == j
  }

  /** The RESTRICT reference of notifications. */
  ghost predicate References(s: State) {
    forall n :: n in s.notifications ==> s.notifications[n] in s.templates
  }

  ghost predicate Valid(s: State) {
    OneEffective(s.templates) && References(s)
  }

  function SeedRow(seed: Seed): Template {
    Template(seed.event, En, 1, true, seed.texts)
  }

  /** The insert is not needed, or finds its id free. */
  predicate CanInsert(templates: map<Id, Template>, seed: Seed) {
    Served(templates, seed.event, En) || seed.id !in templates
  }

  predicate Referenced(s: State, id: Id) {
    exists n :: n in s.notifications && s.notifications[n] == id
  }

  /** The id of one of the first `n` seeds. */
  predicate IsSeedId(seeds: seq<Seed>, n: nat, id: Id)
    requires n <= |seeds|
  {
    exists i :: 0 <= i < n && seeds[i].id == id
  }

  /** The row is one of the seeds, and its event was not served. */
  ghost predicate Planted(seeds: seq<Seed>, n: nat, before: map<Id, Template>, id: Id, row: Template)
    requires n <= |seeds|
  {
    exists k :: 0 <= k < n && seeds[k].id == id && row == SeedRow(seeds[k]) && !Served(before, seeds[k].event, En)
  }

  /** The templates after the first `n` seeds: those of unserved events are added, nothing else happens. */
  ghost predicate UpTo(seeds: seq<Seed>, n: nat, before: map<Id, Template>, after: map<Id, Template>)
    requires n <= |seeds|
  {
    && (forall i :: i in before ==> i in after && after[i] == before[i])
    && (forall i :: i in after && i !in before ==> Planted(seeds, n, before, i, after[i]))
    && (forall k :: 0 <= k < n ==> Served(after, seeds[k].event, En))
  }

  ghost predicate Upgraded(seeds: seq<Seed>, before: map<Id, Template>, after: map<Id, Template>) {
    UpTo(seeds, |seeds|, before, after)
  }

  function DownTo(seeds: seq<Seed>, n: nat, s: State): map<Id, Template>
    requires n <= |seeds|
  {
    map i | i in s.templates && !(IsSeedId(seeds, n, i) && !Referenced(s, i)) :: s.templates[i]
  }

  function Downgraded(seeds: seq<Seed>, s: State): map<Id, Template> {
    DownTo(seeds, |seeds|, s)
  }

  class Database {
    var templates: map<Id, Template>
    var notifications: map<Id, Id>

    constructor (s: State)
      ensures S() == s
    {
      templates, notifications := s.templates, s.notifications;
    }

    function S(): State
      reads this
    {
      State(templates, notifications)
    }

    /** `INSERT ... ON CONFLICT (event_key, locale) WHERE is_effective DO NOTHING`: a taken id is still an error. */
    method InsertSeed(seed: Seed) returns (ok: bool)
      requires Valid(S())
      modifies this`templates
      ensures Valid(S())
      ensures ok <==> CanInsert(old(templates), seed)
      ensures templates ==
        if ok && !Served(old(templates), seed.event, En) then old(templates)[seed.id := SeedRow(seed)]
          else old(templates)
    {
      if Served(templates, seed.event, En) { return true; }
      if seed.id in templates { return false; }
      templates := templates[seed.id := SeedRow(seed)];
      return true;
    }

    /** The upgrade goes through exactly when every unserved event finds its seed id free; otherwise it rolls back. */
    method Upgrade(seeds: seq<Seed>) returns (ok: bool)
      requires Valid(S()) && Distinct(seeds)
      modifies this`templates
      ensures Valid(S())
      ensures ok <==> forall k :: 0 <= k < |seeds| ==> CanInsert(old(templates), seeds[k])
      ensures if ok then Upgraded(seeds, old(templates), templates) else templates == old(templates)
    {
      var was := templates;
      for i := 0 to |seeds|
        invariant Valid(S()) && UpTo(seeds, i, was, templates)
        invariant forall k :: 0 <= k < i ==> CanInsert(was, seeds[k])
      {
        LaterSeedUnaffected(seeds, i, was, templates);
        ghost var before := templates;
        var done := InsertSeed(seeds[i]);
        if !done {
          templates := was;
          return false;
        }
        OneMoreSeed(seeds, i, was, before, templates);
      }
      return true;
    }

    method DeleteTemplate(id: Id)
      requires id in templates && !Referenced(S(), id)
      modifies this`templates
      ensures templates == old(templates) - {id}
    {
      templates := templates - {id};
    }

    /** `downgrade`: each seed goes by its id, unless a notification still refers to it. */
    method Downgrade(seeds: seq<Seed>)
      requires Valid(S())
      modifies this`templates
      ensures Valid(S()) && templates == Downgraded(seeds, old(S()))
    {
      ghost var was := S();
      for i := 0 to |seeds|
        invariant templates == DownTo(seeds, i, was)
      {
        var id := seeds[i].id;
        if id in templates && !Referenced(S(), id) {
          DeleteTemplate(id);
        }
      }
    }
  }

  /** The seeds before it neither serve the event of the next one nor take its id. */
  lemma LaterSeedUnaffected(seeds: seq<Seed>, i: nat, before: map<Id, Template>, after: map<Id, Template>)
    requires Distinct(seeds) && i < |seeds| && UpTo(seeds, i, before, after)
    ensures Served(after, seeds[i].event, En) <==> Served(before, seeds[i].event, En)
    ensures seeds[i].id in after <==> seeds[i].id in before
  {
    if Served(after, seeds[i].event, En) {
      var t :| t in after && Serves(after[t], seeds[i].event, En);
      assert t in before;
    }
    if Served(before, seeds[i].event, En) {
      StillServed(before, after, seeds[i].event);
    }
  }

  ghost predicate InsertedOne(seed: Seed, before: map<Id, Template>, after: map<Id, Template>) {
    if Served(before, seed.event, En) then after == before
    else seed.id !in before && after == before[seed.id := SeedRow(seed)]
  }

  lemma OneMoreSeed(seeds: seq<Seed>, i: nat, was: map<Id, Template>, before: map<Id, Template>,
          after: map<Id, Template>)
    requires Distinct(seeds) && i < |seeds| && UpTo(seeds, i, was, before)
    requires InsertedOne(seeds[i], before, after)
    ensures UpTo(seeds, i + 1, was, after)
  {
    LaterSeedUnaffected(seeds, i, was, before);
    forall t | t in after && t !in was ensures Planted(seeds, i + 1, was, t, after[t]) {
      if t in before { assert Planted(seeds, i, was, t, before[t]); }
    }
    forall k | 0 <= k < i + 1 ensures Served(after, seeds[k].event, En) {
      ServedAfter(seeds, i, was, before, after, k);
    }
  }

  lemma ServedAfter(seeds: seq<Seed>, i: nat, was: map<Id, Template>, before: map<Id, Template>,
          after: map<Id, Template>, k: nat)
    requires k <= i < |seeds| && UpTo(seeds, i, was, before) && InsertedOne(seeds[i], before, after)
    ensures Served(after, seeds[k].event, En)
  {
    if k < i || Served(before, seeds[i].event, En) {
      StillServed(before, after, seeds[k].event);
    } else {
      assert Serves(after[seeds[i].id], seeds[i].event, En);
    }
  }

  lemma StillServed(before: map<Id, Template>, after: map<Id, Template>, event: string)
    requires Served(before, event, En) && forall i :: i in before ==> i in after && after[i] == before[i]
    ensures Served(after, event, En)
  {
    var t :| t in before && Serves(before[t], event, En);
    assert Serves(after[t], event, En);
  }

  // ---- what the pair promises ----

  /** Going up and down again is the identity for a database that no seed id was used in. */
  lemma RoundTrip(seeds: seq<Seed>, s: State, up: map<Id, Template>)
    requires Valid(s) && Upgraded(seeds, s.templates, up)
    requires forall k :: 0 <= k < |seeds| ==> seeds[k].id !in s.templates
    ensures Downgraded(seeds, s.(templates := up)) == s.templates
  {
    var u := s.(templates := up);
    forall i ensures i in Downgraded(seeds, u) <==> i in s.templates {
      if i in up && i !in s.templates {
        assert IsSeedId(seeds, |seeds|, i) && !Referenced(u, i);
      }
    }
  }

  /** A seed whose event nothing served is there afterwards, under its id, in English, effective and as version 1. */
  lemma UnservedSeedIsPlanted(seeds: seq<Seed>, before: map<Id, Template>, after: map<Id, Template>, k: nat)
    requires Distinct(seeds) && Upgraded(seeds, before, after) && k < |seeds|
    requires forall i :: i in before ==>
      !(before[i].effective && before[i].event == seeds[k].event && before[i].locale == En)
    ensures seeds[k].id !in before && seeds[k].id in after
    ensures var row := after[seeds[k].id];
      && row.event == seeds[k].event && row.locale == En && row.version == 1 && row.effective
      && row.texts == seeds[k].texts
  {
    assert Served(after, seeds[k].event, En);
    var i :| i in after && Serves(after[i], seeds[k].event, En);
    assert i !in before;
    assert Planted(seeds, |seeds|, before, i, after[i]);
  }

  /** Where some effective English template serves the event, nothing of that event is added. */
  lemma ServedSeedIsNotPlanted(seeds: seq<Seed>, before: map<Id, Template>, after: map<Id, Template>, i: Id, id: Id)
    requires Upgraded(seeds, before, after)
    requires i in before && before[i].effective && before[i].locale == En
    ensures id in after && id !in before ==> after[id].event != before[i].event
  {
    if id in after && id !in before {
      assert Planted(seeds, |seeds|, before, id, after[id]);
      assert Serves(before[i], before[i].event, En);
    }
  }

  /** Templates under other ids are never touched, in either direction. */
  lemma OtherTemplatesStay(seeds: seq<Seed>, s: State, up: map<Id, Template>, id: Id)
    requires Upgraded(seeds, s.templates, up) && !IsSeedId(seeds, |seeds|, id)
    ensures (id in up <==> id in s.templates) && (id in up ==> up[id] == s.templates[id])
    ensures var down := Downgraded(seeds, s);
      && (id in down <==> id in s.templates)
      && (id in down ==> down[id] == s.templates[id])
  {
  }

  /** After the upgrade each seeded event has exactly one effective template. */
  lemma OneEffectivePerEvent(seeds: seq<Seed>, before: map<Id, Template>, after: map<Id, Template>, k: nat)
    requires Upgraded(seeds, before, after) && OneEffective(after) && k < |seeds|
    ensures exists i :: i in after && Serves(after[i], seeds[k].event, En)
                        && forall j :: j in after && Serves(after[j], seeds[k].event, En) ==> j == i
  {
    assert Served(after, seeds[k].event, En);
    var i :| i in after && Serves(after[i], seeds[k].event, En);
  }

  /**
   After a downgrade, the next upgrade fails exactly on a seed that was kept for a notification and no longer
   serves, with no successor.
   */
  lemma UpgradeAfterDowngrade(seeds: seq<Seed>, s: State, seed: Seed)
    requires seed in seeds && Valid(s)
    ensures !CanInsert(Downgraded(seeds, s), seed) <==>
      seed.id in s.templates && Referenced(s, seed.id) && !Served(Downgraded(seeds, s), seed.event, En)
  {
    assert IsSeedId(seeds, |seeds|, seed.id);
  }

  /** Such a database: the seed was sent once and then retired by an operator. */
  lemma RetiredSeedBlocksTheUpgrade(seed: Seed)
    ensures var s := State(map[seed.id := SeedRow(seed).(effective := false)], map[0 := seed.id]);
            Valid(s) && Downgraded([seed], s) == s.templates && !CanInsert(s.templates, seed)
  {
    var s := State(map[seed.id := SeedRow(seed).(effective := false)], map[0 := seed.id]);
    assert Referenced(s, seed.id) by { assert s.notifications[0] == seed.id; }
  }
}
