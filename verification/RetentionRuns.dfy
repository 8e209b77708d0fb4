/** Whole runs of migrations and of everything that people do in between. */
module RetentionRuns {
  import opened RetentionNames
  import opened RetentionTables
  import opened RetentionTheorems
  import opened RetentionState
  import opened RetentionMigrating
  import opened RetentionUse

  /** Every step keeps the invariant, and no migration, seal or import report ever aborts. */
  lemma StepKeepsInv(d: Digest, s: State, step: Step)
    requires Inv(d, s)
    ensures Inv(d, Next(d, s, step))
    ensures step.Up? || step.Down? || (step.Produce? && Ready(s.tables, step)) ==> Commits(d, s, step)
  {
    match step
    case Up(m, suffixes) => StepUp(d, m, suffixes, s);
    case Down(m, suffixes) => StepDown(d, m, suffixes, s);
    case Produce(_, _, _, _, _, _) => if Ready(s.tables, step) { StepProduce(d, s, step); }
    case Capture(r, org, pin) => if Commits(d, s, step) { StepCapture(d, s, r, org, pin); }
    case AddPolicy(_, _, _, _) => if Commits(d, s, step) { StepAdd(d, s, step); }
    case EditPolicy(id, name, settings) => if Commits(d, s, step) { StepEdit(d, s, id, name, settings); }
    case CreateOrganization(o) => if Commits(d, s, step) { StepOrganization(d, s, o); }
    case _ => if Commits(d, s, step) { StepRefer(d, s, step); }
  }

  ghost function Run(d: Digest, s: State, steps: seq<Step>): State
    requires Inv(d, s)
    decreases |steps|
  {
    if steps == [] then s else
    StepKeepsInv(d, s, steps[0]);
    Run(d, Next(d, s, steps[0]), steps[1..])
  }

  /** One step after the other. */
  lemma RunStepByStep(d: Digest, s: State, step: Step, rest: seq<Step>)
    requires Inv(d, s)
    ensures Inv(d, Next(d, s, step))
    ensures Run(d, s, []) == s && Run(d, s, [step] + rest) == Run(d, Next(d, s, step), rest)
  {
    StepKeepsInv(d, s, step);
    assert ([step] + rest)[1..] == rest;
  }

  /** Which migrations a run leaves up: the last word on each. */
  function LeftUp(up: set<Migration>, steps: seq<Step>): set<Migration>
    decreases |steps|
  {
    if steps == [] then up
    else
      var rest := steps[1..];
      match steps[0]
      case Up(m, _) => LeftUp(up + {m}, rest)
      case Down(m, _) => LeftUp(up - {m}, rest)
      case _ => LeftUp(up, rest)
  }

  lemma {:induction false} RunKeepsInv(d: Digest, s: State, steps: seq<Step>)
    requires Inv(d, s)
    ensures Inv(d, Run(d, s, steps))
    ensures Run(d, s, steps).up == LeftUp(s.up, steps)
    decreases |steps|
  {
    if steps != [] {
      StepKeepsInv(d, s, steps[0]);
      RunKeepsInv(d, Next(d, s, steps[0]), steps[1..]);
    }
  }

  // ---- what the memory of a run means ----

  predicate Unedited(steps: seq<Step>, id: Uuid) {
    forall i :: 0 <= i < |steps| && steps[i].EditPolicy? ==> steps[i].id != id
  }

  /** A policy is remembered as its user last wrote it: only a step that edits it changes the memory. */
  lemma {:induction false} UsersAsWritten(d: Digest, s: State, steps: seq<Step>, id: Uuid)
    requires Inv(d, s) && id in s.users && Unedited(steps, id)
    ensures id in Run(d, s, steps).users && Run(d, s, steps).users[id] == s.users[id]
    decreases |steps|
  {
    if steps != [] {
      UserStays(d, s, steps[0], id);
      UsersAsWritten(d, Next(d, s, steps[0]), steps[1..], id);
    }
  }

  lemma UserStays(d: Digest, s: State, step: Step, id: Uuid)
    requires Inv(d, s) && id in s.users && (step.EditPolicy? ==> step.id != id)
    ensures Inv(d, Next(d, s, step)) && id in Next(d, s, step).users && Next(d, s, step).users[id] == s.users[id]
  {
    StepKeepsInv(d, s, step);
    UserIsRemembered(d, s, step, id);
  }

  lemma UserIsRemembered(d: Digest, s: State, step: Step, id: Uuid)
    requires Valid(d, s.tables) && id in s.users && id in s.tables.policies && (step.EditPolicy? ==> step.id != id)
    ensures id in Next(d, s, step).users && Next(d, s, step).users[id] == s.users[id]
  {
  }

  lemma RecordIsRemembered(d: Digest, s: State, step: Step, r: Uuid)
    requires Valid(d, s.tables) && r in s.captured && r in s.tables.records
    ensures r in Next(d, s, step).captured && Next(d, s, step).captured[r] == s.captured[r]
  {
  }

  lemma {:induction false} RecordsAsCaptured(d: Digest, s: State, steps: seq<Step>, r: Uuid)
    requires Inv(d, s) && r in s.captured
    ensures r in Run(d, s, steps).captured && Run(d, s, steps).captured[r] == s.captured[r]
    decreases |steps|
  {
    if steps != [] {
      StepKeepsInv(d, s, steps[0]);
      RecordIsRemembered(d, s, steps[0], r);
      RecordsAsCaptured(d, Next(d, s, steps[0]), steps[1..], r);
    }
  }

  // ---- whole runs ----

  /**
   From tables neither migration has touched, after any run: the schema's constraints hold; no user's
   policy is lost, moved to another org or changed from what its user last wrote, but for the marker in
   its name while the migration that reserves the name is up; no record is lost, and none but a target is
   pinned elsewhere; and every migration left up has its promise in force, new packs and reports included.
   */
  lemma EveryRun(d: Digest, t0: Tables, steps: seq<Step>)
    requires Untouched(d, t0)
    ensures Inv(d, Start(t0))
    ensures var s := Run(d, Start(t0), steps);
      && Valid(d, s.tables)
      && (forall id :: id in s.users ==>
            id in s.tables.policies && UserFits(LeftUp({}, steps), id, s.users[id], s.tables.policies[id]))
      && RecordsKept(s.captured, s.tables)
      && (forall m :: m in LeftUp({}, steps) ==> Held(d, m, s.tables, Served(s, m)))
  {
    UntouchedStarts(d, t0);
    RunKeepsInv(d, Start(t0), steps);
    var s := Run(d, Start(t0), steps);
    forall m | m in LeftUp({}, steps) ensures Held(d, m, s.tables, Served(s, m)) {
      assert Shows(d, s, m);
    }
  }

  /** Once both are down again, every user's policy is exactly what its user last wrote. */
  lemma RunsThatEndDown(d: Digest, t0: Tables, steps: seq<Step>)
    requires Untouched(d, t0) && LeftUp({}, steps) == {}
    ensures Inv(d, Start(t0))
    ensures var s := Run(d, Start(t0), steps);
      forall id :: id in s.users ==> id in s.tables.policies && s.tables.policies[id] == s.users[id]
    ensures forall id :: id in t0.policies && Unedited(steps, id) ==>
      var ps := Run(d, Start(t0), steps).tables.policies; id in ps && ps[id] == t0.policies[id]
  {
    EveryRun(d, t0, steps);
    var s := Run(d, Start(t0), steps);
    forall id | id in s.users ensures id in s.tables.policies && s.tables.policies[id] == s.users[id] {
      assert UserFits({}, id, s.users[id], s.tables.policies[id]);
    }
    forall id | id in t0.policies && Unedited(steps, id)
      ensures id in s.users && s.users[id] == t0.policies[id]
    {
      UsersAsWritten(d, Start(t0), steps, id);
    }
  }
}
