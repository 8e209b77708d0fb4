/**
 The readers of a policy: the sweep that disposes of records whose retention has elapsed, the disposal by hand,
 the lock at capture and the defaults of new captures. None of them reaches what an upgrade protects.
 */
module RetentionSweep {
  import opened Wrappers
  import opened RetentionNames
  import opened RetentionTables
  import opened RetentionTheorems
  import opened RetentionState
  import opened RetentionRuns

  type Date = int
  type Time = int

  datatype Disposition = Active | DueForReview | OnHold | Disposed

  /** What a record's disposition goes by; `lockedUntil` is the longest lock of its blobs. */
  datatype Clock = Clock(hold: bool, basisDate: Option<Date>, state: Disposition, lockedUntil: Option<Time>)

  /** A day plus an ISO 8601 duration, which raises if the text is none. */
  type Calendar = (Date, string) -> Outcome<Date>

  /** `retention_until` */
  function Until(basisDate: Option<Date>, duration: Duration, calendar: Calendar): Outcome<Option<Date>> {
    if basisDate.None? || duration.PermanentDuration? then Ok(None)
    else
      var day := calendar(basisDate.value, duration.text);
      if day.Raised? then Raised else Ok(Some(day.value))
  }

  /** `worm_lock_until`, as a day */
  function LockUntil(basisDate: Option<Date>, captured: Date, period: Option<Duration>, calendar: Calendar)
    : Outcome<Option<Date>>
  {
    if period.None? then Ok(None)
    else Until(Some(if basisDate.Some? then basisDate.value else captured), period.value, calendar)
  }

  /** `due_active_records`, of one record and its policy */
  predicate Candidate(p: Settings, c: Clock) {
    && !c.hold && c.basisDate.Some? && p.action != RetainPermanent
    && (c.state == Active || (c.state == DueForReview && !p.reviewRequired))
  }

  predicate Locked(c: Clock, now: Time) {
    c.lockedUntil.Some? && now < c.lockedUntil.value
  }

  predicate Elapsed(p: Settings, c: Clock, calendar: Calendar, today: Date) {
    var until := Until(c.basisDate, p.duration, calendar);
    until.Ok? && until.value.Some? && until.value.value <= today
  }

  /** The sweep's last step: without a review, an elapsed record is disposed of unless a lock keeps it. */
  predicate Disposable(p: Settings, c: Clock, now: Time) {
    !p.reviewRequired && !(p.action == Destroy && Locked(c, now))
  }

  /** What becomes of a record; `failed` are the records whose disposal raised. */
  function Swept(p: Settings, c: Clock, calendar: Calendar, today: Date, now: Time, failed: bool): Clock {
    if !Candidate(p, c) || !Elapsed(p, c, calendar, today) then c
    else if Disposable(p, c, now) && !failed then c.(state := Disposed)
    else c.(state := DueForReview)
  }

  function SweptIn(t: Tables, clocks: map<Uuid, Clock>, r: Uuid, calendar: Calendar, today: Date, now: Time,
                   skipped: set<Uuid>, failed: set<Uuid>): Clock
    requires r in clocks && r in t.records && t.records[r].policy in t.policies
  {
    if r in skipped then clocks[r]
    else Swept(t.policies[t.records[r].policy].settings, clocks[r], calendar, today, now, r in failed)
  }

  /** `run_retention_sweep`: rows that somebody else has locked are skipped, and one bad record sinks no other. */
  method Sweep(t: Tables, clocks: map<Uuid, Clock>, calendar: Calendar, today: Date, now: Time, skipped: set<Uuid>)
    returns (after: map<Uuid, Clock>, failed: set<Uuid>)
    requires clocks.Keys == t.records.Keys
    requires forall r :: r in t.records ==> t.records[r].policy in t.policies
    ensures after.Keys == clocks.Keys
    ensures forall r :: r in clocks ==> after[r] == SweptIn(t, clocks, r, calendar, today, now, skipped, failed)
  {
    after, failed := clocks, {};
    var todo := set r | r in clocks && r !in skipped && Candidate(t.policies[t.records[r].policy].settings, clocks[r]);
    while todo != {}
      invariant todo <= clocks.Keys - skipped && after.Keys == clocks.Keys && failed !! todo
      invariant forall r :: r in todo ==> after[r] == clocks[r]
      invariant forall r :: r in clocks && r !in todo ==>
        after[r] == SweptIn(t, clocks, r, calendar, today, now, skipped, failed)
    {
      var r :| r in todo;
      todo := todo - {r};
      var p := t.policies[t.records[r].policy].settings;
      if Elapsed(p, after[r], calendar, today) {
        if after[r].state == Active {
          after := after[r := after[r].(state := DueForReview)];
        }
        if !p.reviewRequired {
          var raised: bool := *;
          if raised {
            failed := failed + {r};
          } else if !(p.action == Destroy && Locked(after[r], now)) {
            after := after[r := after[r].(state := Disposed)];
          }
        }
      }
    }
  }

  /** `_dispose_now`, after the transition was found legal: refused for what is kept for good and what is locked. */
  function DisposedByHand(p: Settings, c: Clock, now: Time): Outcome<Clock>
    requires c.state == DueForReview
  {
    if p.action == RetainPermanent then Raised
    else if p.action == Destroy && (c.hold || Locked(c, now)) then Raised
    else Ok(c.(state := Disposed))
  }

  /** What the sweep changes: nothing on hold, nothing permanent, nothing that is not due, and no lock is broken. */
  lemma SweepIsLawful(p: Settings, c: Clock, calendar: Calendar, today: Date, now: Time, failed: bool)
    ensures var after := Swept(p, c, calendar, today, now, failed);
      && (after != c <==>
            && !c.hold && p.action != RetainPermanent
            && c.basisDate.Some? && p.duration.Iso8601?
            && calendar(c.basisDate.value, p.duration.text).Ok?
            && calendar(c.basisDate.value, p.duration.text).value <= today
            && (c.state == Active || (
                  && c.state == DueForReview && !p.reviewRequired && !failed
                  && (p.action == Destroy ==> !(c.lockedUntil.Some? && now < c.lockedUntil.value)))))
      && (after.state == Disposed && c.state != Disposed ==>
            && !p.reviewRequired && !failed
            && (p.action == Destroy && c.lockedUntil.Some? ==> c.lockedUntil.value <= now))
  {
  }

  /** By hand everything is disposed of but what is permanent, and what is destroyed neither on hold nor locked. */
  lemma HandIsLawful(p: Settings, c: Clock, now: Time)
    requires c.state == DueForReview
    ensures var after := DisposedByHand(p, c, now);
      && (after.Raised? <==>
            || p.action == RetainPermanent
            || (p.action == Destroy && (c.hold || (c.lockedUntil.Some? && now < c.lockedUntil.value))))
      && (after.Ok? ==> after.value == Clock(c.hold, c.basisDate, Disposed, c.lockedUntil))
  {
  }

  /**
   No reader of the policy ever ends the retention of a record that is kept for good, and no default of a record
   type, clause or process attaches the policy to a new capture.
   */
  lemma ForGoodIsKept(p: Settings, c: Clock, calendar: Calendar, captured: Date, today: Date, now: Time, failed: bool,
                      selector: string)
    requires ForGood(p)
    ensures !Candidate(p, c) && Swept(p, c, calendar, today, now, failed) == c
    ensures Until(c.basisDate, p.duration, calendar) == Ok(None)
    ensures LockUntil(c.basisDate, captured, p.wormLockPeriod, calendar) == Ok(None)
    ensures c.state == DueForReview ==> DisposedByHand(p, c, now).Raised?
    ensures !(p.active && p.appliesTo == Some(selector))
  {
  }

  /**
   At every point of every run, a sweep leaves alone the targets of every migration that is up: packs and
   reports that were there before the upgrade and those that came later.
   */
  lemma SweepsSpareTargets(d: Digest, t0: Tables, steps: seq<Step>, m: Migration, r: Uuid, c: Clock,
                           calendar: Calendar, today: Date, now: Time, failed: bool)
    requires Untouched(d, t0) && m in LeftUp({}, steps)
    ensures Inv(d, Start(t0))
    ensures var t := Run(d, Start(t0), steps).tables;
      r in t.records && Target(m, t, r) ==>
        && t.records[r].policy in t.policies
        && var p := t.policies[t.records[r].policy].settings;
           ForGood(p) && !Candidate(p, c) && Swept(p, c, calendar, today, now, failed) == c
  {
    EveryRun(d, t0, steps);
    var s := Run(d, Start(t0), steps);
    HeldIsForGood(d, m, s.tables, Served(s, m));
  }

  /** What the upgrade does not protect is swept as before: it touches no user policy's settings. */
  lemma OthersAreSweptAsBefore(d: Digest, m: Migration, suffixes: Suffixes, t: Tables, r: Uuid, c: Clock,
                               calendar: Calendar, today: Date, now: Time, failed: bool)
    requires Valid(d, t) && UpgradeCommits(d, m, suffixes, t)
    requires r in t.records && !Target(m, t, r)
    requires t.records[r].policy in t.policies && !IsManaged(d, m, t.records[r].policy, t.policies[t.records[r].policy])
    ensures var t' := Upgraded(d, m, suffixes, t);
      && r in t'.records && t'.records[r].policy == t.records[r].policy && t.records[r].policy in t'.policies
      && Swept(t'.policies[t'.records[r].policy].settings, c, calendar, today, now, failed)
           == Swept(t.policies[t.records[r].policy].settings, c, calendar, today, now, failed)
  {
    UpgradeHasShape(d, m, suffixes, t);
  }
}
