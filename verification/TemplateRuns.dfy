/** Whole runs: 0074 going up and down among operators' templates and notifications that are sent. */
module TemplateRuns {
  import opened TemplateSeeds

  datatype Step =
    | Up
    | Down
    | Add(id: Id, template: Template)
    | Edit(id: Id, template: Template)
    | Remove(id: Id)
    | Send(notification: Id, sent: Id)

  /** The database, and each row as an operator last wrote it. */
  datatype World = World(s: State, written: map<Id, Template>)

  // ---- the upgrade as a step ----

  lemma PlantingKeepsIndex(before: map<Id, Template>, seed: Seed)
    requires OneEffective(before) && !Served(before, seed.event, En)
    ensures OneEffective(before[seed.id := SeedRow(seed)])
  {
  }

  ghost predicate AllInsertable(seeds: seq<Seed>, before: map<Id, Template>) {
    forall k :: 0 <= k < |seeds| ==> CanInsert(before, seeds[k])
  }

  function Inserted(before: map<Id, Template>, seed: Seed): map<Id, Template> {
    if Served(before, seed.event, En) then before else before[seed.id := SeedRow(seed)]
  }

  lemma InsertOne(seeds: seq<Seed>, i: nat, before: map<Id, Template>, t: map<Id, Template>)
    requires Distinct(seeds) && i < |seeds| && CanInsert(before, seeds[i])
    requires UpTo(seeds, i, before, t) && OneEffective(t)
    ensures UpTo(seeds, i + 1, before, Inserted(t, seeds[i])) && OneEffective(Inserted(t, seeds[i]))
  {
    LaterSeedUnaffected(seeds, i, before, t);
    OneMoreSeed(seeds, i, before, t, Inserted(t, seeds[i]));
    if !Served(t, seeds[i].event, En) { PlantingKeepsIndex(t, seeds[i]); }
  }

  lemma UpgradeExists(seeds: seq<Seed>, before: map<Id, Template>)
    requires Distinct(seeds) && AllInsertable(seeds, before) && OneEffective(before)
    ensures exists after :: Upgraded(seeds, before, after) && OneEffective(after)
  {
    var after := before;
    for i := 0 to |seeds|
      invariant UpTo(seeds, i, before, after) && OneEffective(after)
    {
      InsertOne(seeds, i, before, after);
      after := Inserted(after, seeds[i]);
    }
  }

  lemma PlantedInBoth(seeds: seq<Seed>, before: map<Id, Template>, a: map<Id, Template>, b: map<Id, Template>, i: Id)
    requires Distinct(seeds) && Upgraded(seeds, before, a) && Upgraded(seeds, before, b) && i in a
    ensures i in b && b[i] == a[i]
  {
    if i !in before {
      var k :| 0 <= k < |seeds| && seeds[k].id == i && a[i] == SeedRow(seeds[k]) && !Served(before, seeds[k].event, En);
      assert Served(b, seeds[k].event, En);
      var j :| j in b && Serves(b[j], seeds[k].event, En);
      assert Planted(seeds, |seeds|, before, j, b[j]);
    }
  }

  lemma UpgradeIsAFunction(seeds: seq<Seed>, before: map<Id, Template>, a: map<Id, Template>, b: map<Id, Template>)
    requires Distinct(seeds) && Upgraded(seeds, before, a) && Upgraded(seeds, before, b)
    ensures a == b
  {
    forall i | i in a ensures i in b && b[i] == a[i] { PlantedInBoth(seeds, before, a, b, i); }
    forall i | i in b ensures i in a { PlantedInBoth(seeds, before, b, a, i); }
  }

  /** The one result of an upgrade that commits. */
  ghost function Seeded(seeds: seq<Seed>, before: map<Id, Template>): (after: map<Id, Template>)
    requires Distinct(seeds) && AllInsertable(seeds, before) && OneEffective(before)
    ensures Upgraded(seeds, before, after) && OneEffective(after)
    ensures forall other :: Upgraded(seeds, before, other) ==> other == after
  {
    UpgradeExists(seeds, before);
    var after :| Upgraded(seeds, before, after) && OneEffective(after);
    assert forall other :: Upgraded(seeds, before, other) ==> other == after by {
      forall other | Upgraded(seeds, before, other) ensures other == after {
        UpgradeIsAFunction(seeds, before, other, after);
      }
    }
    after
  }

  ghost predicate UpCommits(seeds: seq<Seed>, s: State) {
    Distinct(seeds) && OneEffective(s.templates) && AllInsertable(seeds, s.templates)
  }

  /** What the schema lets an operator, or the sender of a notification, do. */
  ghost predicate Enabled(seeds: seq<Seed>, s: State, step: Step) {
    match step
    case Up => UpCommits(seeds, s)
    case Down => true
    case Add(id, t) => id !in s.templates && !IsSeedId(seeds, |seeds|, id) && OneEffective(s.templates[id := t])
    case Edit(id, t) => id in s.templates && OneEffective(s.templates[id := t])
    case Remove(id) => id in s.templates && !Referenced(s, id)
    case Send(n, id) => n !in s.notifications && id in s.templates
  }

  /** An operator may write any template that keeps the index, and a notification may use any template. */
  lemma EnabledSteps(seeds: seq<Seed>, s: State, id: Id, t: Template, n: Id)
    requires Valid(s)
    ensures !t.effective && id !in s.templates && (forall k :: 0 <= k < |seeds| ==> seeds[k].id != id) ==>
      Enabled(seeds, s, Add(id, t))
    ensures !t.effective && id in s.templates ==> Enabled(seeds, s, Edit(id, t))
    ensures id in s.templates && (forall k :: k in s.notifications ==> s.notifications[k] != id) ==>
      Enabled(seeds, s, Remove(id))
    ensures id in s.templates && n !in s.notifications <==> Enabled(seeds, s, Send(n, id))
  {
  }

  ghost function Next(seeds: seq<Seed>, w: World, step: Step): World {
    var s := w.s;
    if !Enabled(seeds, s, step) then w else
    match step
    case Up => w.(s := s.(templates := Seeded(seeds, s.templates)))
    case Down =>
      var left := Downgraded(seeds, s);
      World(s.(templates := left), map id | id in w.written && id in left :: w.written[id])
    case Add(id, t) => World(s.(templates := s.templates[id := t]), w.written[id := t])
    case Edit(id, t) => World(s.(templates := s.templates[id := t]), w.written[id := t])
    case Remove(id) => World(s.(templates := s.templates - {id}), w.written - {id})
    case Send(n, id) => w.(s := s.(notifications := s.notifications[n := id]))
  }

  /**
   The migration plants and takes its seeds; each of the operator's steps writes its one row, and is remembered; a
   sent notification only refers to its template.
   */
  lemma StepWrites(seeds: seq<Seed>, w: World, step: Step)
    requires Enabled(seeds, w.s, step)
    ensures var v := Next(seeds, w, step);
      match step
      case Up => Upgraded(seeds, w.s.templates, v.s.templates) && v == w.(s := w.s.(templates := v.s.templates))
      case Down => v.s == w.s.(templates := Downgraded(seeds, w.s))
      case Add(id, t) => v == World(w.s.(templates := w.s.templates[id := t]), w.written[id := t])
      case Edit(id, t) => v == World(w.s.(templates := w.s.templates[id := t]), w.written[id := t])
      case Remove(id) => id !in v.s.templates && id !in v.written && v.s.notifications == w.s.notifications
        && forall i :: i in w.s.templates && i != id ==> i in v.s.templates && v.s.templates[i] == w.s.templates[i]
      case Send(n, id) =>
        v.written == w.written && v.s.templates == w.s.templates && v.s.notifications == w.s.notifications[n := id]
  {
  }

  ghost function Run(seeds: seq<Seed>, w: World, steps: seq<Step>): World
    decreases |steps|
  {
    if steps == [] then w else Run(seeds, Next(seeds, w, steps[0]), steps[1..])
  }

  // ---- what every run keeps ----

  /** One step after the other. */
  lemma RunStepByStep(seeds: seq<Seed>, w: World, step: Step, rest: seq<Step>)
    ensures Run(seeds, w, []) == w && Run(seeds, w, [step] + rest) == Run(seeds, Next(seeds, w, step), rest)
  {
    assert ([step] + rest)[1..] == rest;
  }

  ghost predicate SeedOf(seeds: seq<Seed>, id: Id, row: Template) {
    exists k :: 0 <= k < |seeds| && seeds[k].id == id && row == SeedRow(seeds[k])
  }

  /** Each row is what an operator last wrote, or an untouched seed. */
  ghost predicate RowOk(seeds: seq<Seed>, w: World, id: Id)
    requires id in w.s.templates
  {
    if id in w.written then w.s.templates[id] == w.written[id] else SeedOf(seeds, id, w.s.templates[id])
  }

  ghost predicate Inv(seeds: seq<Seed>, w: World) {
    && Valid(w.s)
    && w.written.Keys <= w.s.templates.Keys
    && forall id :: id in w.s.templates ==> RowOk(seeds, w, id)
  }

  lemma UpKeepsInv(seeds: seq<Seed>, w: World)
    requires Distinct(seeds) && Inv(seeds, w) && UpCommits(seeds, w.s)
    ensures Inv(seeds, Next(seeds, w, Up))
    ensures Upgraded(seeds, w.s.templates, Next(seeds, w, Up).s.templates)
  {
    var w' := Next(seeds, w, Up);
    forall id | id in w'.s.templates ensures RowOk(seeds, w', id) {
      if id in w.s.templates {
        assert RowOk(seeds, w, id);
      } else {
        assert Planted(seeds, |seeds|, w.s.templates, id, w'.s.templates[id]);
      }
    }
  }

  lemma DownKeepsInv(seeds: seq<Seed>, w: World)
    requires Inv(seeds, w)
    ensures Inv(seeds, Next(seeds, w, Down))
  {
    var w' := Next(seeds, w, Down);
    forall n | n in w'.s.notifications ensures w'.s.notifications[n] in w'.s.templates {
      assert Referenced(w.s, w.s.notifications[n]);
    }
    forall id | id in w'.s.templates ensures RowOk(seeds, w', id) {
      assert RowOk(seeds, w, id);
    }
  }

  lemma OperatorKeepsInv(seeds: seq<Seed>, w: World, step: Step)
    requires Inv(seeds, w) && !step.Up? && !step.Down?
    ensures Inv(seeds, Next(seeds, w, step))
  {
    var w' := Next(seeds, w, step);
    forall id | id in w'.s.templates ensures RowOk(seeds, w', id) {
      if id in w.s.templates { assert RowOk(seeds, w, id); }
    }
    forall n | n in w'.s.notifications ensures w'.s.notifications[n] in w'.s.templates {
      assert n in w.s.notifications ==> Referenced(w.s, w.s.notifications[n]);
    }
  }

  lemma StepKeepsInv(seeds: seq<Seed>, w: World, step: Step)
    requires Distinct(seeds) && Inv(seeds, w)
    ensures Inv(seeds, Next(seeds, w, step))
  {
    if step.Up? {
      if UpCommits(seeds, w.s) { UpKeepsInv(seeds, w); }
    } else if step.Down? {
      DownKeepsInv(seeds, w);
    } else {
      OperatorKeepsInv(seeds, w, step);
    }
  }

  /**
   After any run: the index and the references hold, and each row is an untouched seed or as an operator last
   wrote it.
   */
  lemma {:induction false} EveryRun(seeds: seq<Seed>, w: World, steps: seq<Step>)
    requires Distinct(seeds) && Inv(seeds, w)
    ensures Inv(seeds, Run(seeds, w, steps))
    decreases |steps|
  {
    if steps != [] {
      StepKeepsInv(seeds, w, steps[0]);
      EveryRun(seeds, Next(seeds, w, steps[0]), steps[1..]);
    }
  }

  // ---- operators' templates ----

  /** The steps by which an operator lets go of a template or changes it. */
  predicate Touches(step: Step, id: Id) {
    (step.Edit? || step.Remove?) && step.id == id
  }

  lemma OwnTemplateStays(seeds: seq<Seed>, w: World, step: Step, id: Id)
    requires Distinct(seeds) && Inv(seeds, w) && id in w.s.templates
    requires !IsSeedId(seeds, |seeds|, id) && !Touches(step, id)
    ensures var t := Next(seeds, w, step).s.templates; id in t && t[id] == w.s.templates[id]
  {
    if step.Up? && UpCommits(seeds, w.s) { UpKeepsInv(seeds, w); }
  }

  /** An operator's template stays as it is through every run in which no operator touches it. */
  lemma {:induction false} OwnTemplatesSurvive(seeds: seq<Seed>, w: World, steps: seq<Step>, id: Id)
    requires Distinct(seeds) && Inv(seeds, w) && id in w.s.templates && !IsSeedId(seeds, |seeds|, id)
    requires forall i :: 0 <= i < |steps| ==> !Touches(steps[i], id)
    ensures var t := Run(seeds, w, steps).s.templates; id in t && t[id] == w.s.templates[id]
    decreases |steps|
  {
    if steps != [] {
      StepKeepsInv(seeds, w, steps[0]);
      OwnTemplateStays(seeds, w, steps[0], id);
      OwnTemplatesSurvive(seeds, Next(seeds, w, steps[0]), steps[1..], id);
    }
  }

  // ---- when the upgrade goes through ----

  /** No operator writes over a seed. */
  ghost predicate LeavesSeeds(seeds: seq<Seed>, steps: seq<Step>) {
    forall i :: 0 <= i < |steps| && steps[i].Edit? ==> !IsSeedId(seeds, |seeds|, steps[i].id)
  }

  /** Each seed that is there is as it was planted. */
  ghost predicate SeedsIntact(seeds: seq<Seed>, templates: map<Id, Template>) {
    forall k :: 0 <= k < |seeds| && seeds[k].id in templates ==> templates[seeds[k].id] == SeedRow(seeds[k])
  }

  lemma IntactMeansUp(seeds: seq<Seed>, s: State)
    requires Distinct(seeds) && Valid(s) && SeedsIntact(seeds, s.templates)
    ensures UpCommits(seeds, s)
  {
    forall k | 0 <= k < |seeds| ensures CanInsert(s.templates, seeds[k]) {
      if seeds[k].id in s.templates {
        assert Serves(s.templates[seeds[k].id], seeds[k].event, En);
      }
    }
  }

  lemma UpStaysIntact(seeds: seq<Seed>, w: World, k: nat)
    requires Distinct(seeds) && Inv(seeds, w) && SeedsIntact(seeds, w.s.templates) && UpCommits(seeds, w.s)
    requires k < |seeds| && seeds[k].id in Next(seeds, w, Up).s.templates
    ensures Next(seeds, w, Up).s.templates[seeds[k].id] == SeedRow(seeds[k])
  {
    UpKeepsInv(seeds, w);
    if seeds[k].id !in w.s.templates {
      assert Planted(seeds, |seeds|, w.s.templates, seeds[k].id, Next(seeds, w, Up).s.templates[seeds[k].id]);
    }
  }

  lemma StaysIntact(seeds: seq<Seed>, w: World, step: Step)
    requires Distinct(seeds) && Inv(seeds, w) && SeedsIntact(seeds, w.s.templates)
    requires step.Edit? ==> !IsSeedId(seeds, |seeds|, step.id)
    ensures SeedsIntact(seeds, Next(seeds, w, step).s.templates)
  {
    var t' := Next(seeds, w, step).s.templates;
    forall k | 0 <= k < |seeds| && seeds[k].id in t' ensures t'[seeds[k].id] == SeedRow(seeds[k]) {
      assert IsSeedId(seeds, |seeds|, seeds[k].id);
      if step.Up? && UpCommits(seeds, w.s) { UpStaysIntact(seeds, w, k); }
    }
  }

  /** As long as no operator writes over a seed, the upgrade goes through at every point of every run. */
  lemma {:induction false} UpAlwaysCommits(seeds: seq<Seed>, w: World, steps: seq<Step>)
    requires Distinct(seeds) && Inv(seeds, w) && SeedsIntact(seeds, w.s.templates) && LeavesSeeds(seeds, steps)
    ensures UpCommits(seeds, Run(seeds, w, steps).s)
    decreases |steps|
  {
    if steps == [] {
      IntactMeansUp(seeds, w.s);
    } else {
      StepKeepsInv(seeds, w, steps[0]);
      assert steps[0].Edit? ==> !IsSeedId(seeds, |seeds|, steps[0].id);
      StaysIntact(seeds, w, steps[0]);
      forall i | 0 <= i < |steps[1..]| && steps[1..][i].Edit? ensures !IsSeedId(seeds, |seeds|, steps[1..][i].id) {
        assert steps[1..][i] == steps[i + 1];
      }
      UpAlwaysCommits(seeds, Next(seeds, w, steps[0]), steps[1..]);
    }
  }
}
