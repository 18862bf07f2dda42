/** Quarantine, recovery and repair of committed comparison baselines. */
module BaselineIntegrity {
  import opened Options

  type Target = string
  type RunId = string

  datatype Gap = Gap(stage: string, status: string, reason: string)

  datatype Baseline = Baseline(state: string, lastRefreshed: RunId, reason: string, updatedAt: nat)

  const QUARANTINED := "quarantined"
  const RECOVERED := "recovered"

  datatype Evidence = Evidence(gaps: seq<Gap>, snapshot: Option<RunId>, baseline: Option<Baseline>)

  datatype Review = Review(state: string, evidence: Evidence, actor: string, detectedAt: nat, recoveredAt: Option<nat>)

  datatype ReviewId = ReviewId(target: Target, run: RunId)

  /** A `js_files` row is keyed by target and url, a `js_availability_history` row also by run. */
  datatype ObservationId = JsFile(target: Target, url: string) | JsHistory(target: Target, url: string, run: RunId)

  datatype Observation = Observation(run: RunId, quarantined: bool)

  /** A `change_intelligence_snapshots` row. */
  datatype Change = Change(target: Target, run: RunId, previous: RunId)

  datatype Db = Db(commits: map<Target, RunId>, registry: map<Target, Baseline>, reviews: map<ReviewId, Review>,
                   observations: map<ObservationId, Observation>, changes: set<Change>)

  datatype Action = NoBaseline | NoProvenGap | AlreadyQuarantined | NewlyQuarantined

  datatype Outcome = Outcome(target: Target, run: RunId, action: Action, baselineChanged: bool)

  function Lookup<K, V>(m: map<K, V>, k: K): Option<V> { if k in m then Some(m[k]) else None }

  // ----- specification of one review

  /** The run under review: the named one, or the committed one. */
  function Source(db: Db, t: Target, run: RunId): RunId {
    if run != "" then run else if t in db.commits then db.commits[t] else ""
  }

  predicate Excluded(db: Db, t: Target, run: RunId) {
    ReviewId(t, run) in db.reviews && db.reviews[ReviewId(t, run)].state == QUARANTINED
  }

  /** The registry still describes this very run and is not quarantined yet. */
  predicate RegistryCurrent(db: Db, t: Target, source: RunId) {
    && Lookup(db.commits, t) == Some(source)
    && t in db.registry && db.registry[t].lastRefreshed == source && db.registry[t].state != QUARANTINED
  }

  function Flagged(observations: map<ObservationId, Observation>, t: Target, run: RunId): map<ObservationId, Observation> {
    map o | o in observations :: if o.target == t && observations[o].run == run
                                 then Observation(run, true) else observations[o]
  }

  function NewReview(db: Db, t: Target, source: RunId, gaps: seq<Gap>, actor: string, now: nat): Review {
    var id := ReviewId(t, source);
    var evidence := Evidence(gaps, if Lookup(db.commits, t) == Some(source) then Some(source) else None, Lookup(db.registry, t));
    Review(QUARANTINED, evidence, actor, if id in db.reviews then db.reviews[id].detectedAt else now, None)
  }

  function Reviewed(db: Db, t: Target, run: RunId, gaps: seq<Gap>, actor: string, now: nat): (Db, Outcome) {
    var source := Source(db, t, run);
    if source == "" then (db, Outcome(t, "", NoBaseline, false))
    else if gaps == [] then (db, Outcome(t, source, NoProvenGap, false))
    else
      var already := Excluded(db, t, source);
      var changed := RegistryCurrent(db, t, source);
      (db.(
         reviews := if already then db.reviews else db.reviews[ReviewId(t, source) := NewReview(db, t, source, gaps, actor, now)],
         observations := if already then db.observations else Flagged(db.observations, t, source),
         registry := if changed
                     then db.registry[t := db.registry[t].(state := QUARANTINED, reason := "baseline_coverage_incomplete", updatedAt := now)]
                     else db.registry,
         changes := set c | c in db.changes && !(c.target == t && (c.run == source || c.previous == source))),
       Outcome(t, source, if already then AlreadyQuarantined else NewlyQuarantined, changed))
  }

  /** A review changes the baseline registry exactly when there is a proven gap and the run
      is both the committed one and the last refreshed one. */
  lemma RegistryChangesOnlyWhenCurrent(db: Db, t: Target, run: RunId, gaps: seq<Gap>, actor: string, now: nat)
    requires Source(db, t, run) != ""
    ensures var (db', o) := Reviewed(db, t, run, gaps, actor, now);
            && (db'.registry != db.registry <==> gaps != [] && RegistryCurrent(db, t, Source(db, t, run)))
            && (o.baselineChanged <==> db'.registry != db.registry)
            && db'.commits == db.commits
  {
    var (db', o) := Reviewed(db, t, run, gaps, actor, now);
    if gaps != [] && RegistryCurrent(db, t, Source(db, t, run)) {
      assert db'.registry[t].state == QUARANTINED != db.registry[t].state;
    }
  }

  /** A second review that follows at once, by anyone and with any clock, changes nothing. */
  lemma ReviewIsIdempotent(db: Db, t: Target, run: RunId, gaps: seq<Gap>, actor: string, now: nat, actor': string, now': nat)
    ensures var (db1, o1) := Reviewed(db, t, run, gaps, actor, now);
            var (db2, o2) := Reviewed(db1, t, run, gaps, actor', now');
            && db2 == db1 && o2.run == o1.run && !o2.baselineChanged
            && (o1.action.NewlyQuarantined? ==> o2.action == AlreadyQuarantined)
  {
    var (db1, o1) := Reviewed(db, t, run, gaps, actor, now);
    var (db2, o2) := Reviewed(db1, t, run, gaps, actor', now');
    assert db2.changes == db1.changes;
  }

  /** After a review that found gaps the run is excluded from comparison. */
  lemma ReviewExcludes(db: Db, t: Target, run: RunId, gaps: seq<Gap>, actor: string, now: nat)
    requires gaps != [] && Source(db, t, run) != ""
    ensures var db' := Reviewed(db, t, run, gaps, actor, now).0;
            && Excluded(db', t, Source(db, t, run))
            && (forall t', r :: (t', r) != (t, Source(db, t, run)) ==> (Excluded(db', t', r) <==> Excluded(db, t', r)))
            && (forall c :: c in db'.changes && c.target == t ==> c.run != Source(db, t, run) && c.previous != Source(db, t, run))
  {
  }

  // ----- recovery, and new observations

  function Recovered(db: Db, t: Target, run: RunId, now: nat): Db {
    var id := ReviewId(t, run);
    if Excluded(db, t, run) then db.(reviews := db.reviews[id := db.reviews[id].(state := RECOVERED, recoveredAt := Some(now))])
    else db
  }

  /** `refresh_js_observation`: clears the flag when the row carries this run. */
  function Refreshed(db: Db, o: ObservationId, run: RunId): Db {
    if o in db.observations && db.observations[o].run == run
    then db.(observations := db.observations[o := Observation(run, false)]) else db
  }

  /** A scan stores a new observation and then refreshes it. An upsert keeps the old flag. */
  function Observed(db: Db, o: ObservationId, run: RunId): Db {
    var flag := o in db.observations && db.observations[o].quarantined;
    Refreshed(db.(observations := db.observations[o := Observation(run, flag)]), o, run)
  }

  // ----- runs of reviews, recoveries, observations and commits

  datatype Step =
    | DoReview(target: Target, run: RunId, gaps: seq<Gap>, actor: string, now: nat)
    | DoRecover(target: Target, run: RunId, now: nat)
    | DoRefresh(observation: ObservationId, run: RunId)
    | DoObserve(observation: ObservationId, run: RunId)
    | DoCommit(target: Target, run: RunId, baseline: Baseline)

  function Apply(db: Db, s: Step): Db {
    match s
    case DoReview(t, run, gaps, actor, now) => Reviewed(db, t, run, gaps, actor, now).0
    case DoRecover(t, run, now) => Recovered(db, t, run, now)
    case DoRefresh(o, run) => Refreshed(db, o, run)
    case DoObserve(o, run) => Observed(db, o, run)
    case DoCommit(t, run, baseline) => db.(commits := db.commits[t := run], registry := db.registry[t := baseline])
  }

  function ApplyAll(db: Db, steps: seq<Step>): Db {
    if steps == [] then db else Apply(ApplyAll(db, steps[..|steps| - 1]), steps[|steps| - 1])
  }

  predicate Recovers(s: Step, t: Target, run: RunId) { s.DoRecover? && s.target == t && s.run == run }

  predicate Clears(s: Step, o: ObservationId, run: RunId) {
    (s.DoRefresh? && s.observation == o && s.run == run) || (s.DoObserve? && s.observation == o)
  }

  /** While a run is quarantined and not recovered, its review, with the original evidence,
      stays as it is, whatever else happens. */
  lemma {:induction false} EvidenceIsKept(db: Db, steps: seq<Step>, t: Target, run: RunId)
    requires Excluded(db, t, run)
    requires forall i :: 0 <= i < |steps| ==> !Recovers(steps[i], t, run)
    ensures Excluded(ApplyAll(db, steps), t, run)
    ensures ApplyAll(db, steps).reviews[ReviewId(t, run)] == db.reviews[ReviewId(t, run)]
  {
    if steps != [] {
      EvidenceIsKept(db, steps[..|steps| - 1], t, run);
    }
  }

  /** A set flag survives everything, recovery included, until that row is observed anew. */
  lemma {:induction false} FlagSurvives(db: Db, steps: seq<Step>, o: ObservationId)
    requires o in db.observations && db.observations[o].quarantined
    requires forall i :: 0 <= i < |steps| ==> !Clears(steps[i], o, db.observations[o].run)
    ensures o in ApplyAll(db, steps).observations && ApplyAll(db, steps).observations[o] == db.observations[o]
  {
    if steps != [] {
      FlagSurvives(db, steps[..|steps| - 1], o);
    }
  }

  /** While the run stays quarantined, reviewing it again never flags a refreshed row. */
  lemma {:induction false} RefreshSurvives(db: Db, steps: seq<Step>, o: ObservationId)
    requires o in db.observations && !db.observations[o].quarantined
    requires Excluded(db, o.target, db.observations[o].run)
    requires forall i :: 0 <= i < |steps| ==> !Recovers(steps[i], o.target, db.observations[o].run)
    requires forall i :: 0 <= i < |steps| ==> !(steps[i].DoObserve? && steps[i].observation == o)
    ensures o in ApplyAll(db, steps).observations && ApplyAll(db, steps).observations[o] == db.observations[o]
  {
    if steps != [] {
      var init := steps[..|steps| - 1];
      RefreshSurvives(db, init, o);
      EvidenceIsKept(db, init, o.target, db.observations[o].run);
    }
  }

  predicate IsFlagged(db: Db, o: ObservationId) { o in db.observations && db.observations[o].quarantined }

  /** The step that flags a row: a review with proven gaps of that row's run, while it is not quarantined. */
  predicate Flags(db: Db, s: Step, o: ObservationId) {
    && o in db.observations && s.DoReview? && s.target == o.target && s.gaps != []
    && Source(db, s.target, s.run) != "" && !Excluded(db, s.target, Source(db, s.target, s.run))
    && db.observations[o].run == Source(db, s.target, s.run)
  }

  /** A flag that is off goes on by exactly that step. */
  lemma {:induction false} WhatFlags(db: Db, s: Step, o: ObservationId)
    requires o in db.observations && !IsFlagged(db, o)
    ensures o in Apply(db, s).observations
    ensures IsFlagged(Apply(db, s), o) <==> Flags(db, s, o)
  {
  }

  lemma {:induction false} ObservationsStay(db: Db, steps: seq<Step>, o: ObservationId)
    requires o in db.observations
    ensures o in ApplyAll(db, steps).observations
  {
    if steps != [] { ObservationsStay(db, steps[..|steps| - 1], o); }
  }

  lemma {:induction false} LastStep(db: Db, steps: seq<Step>, s: Step)
    ensures ApplyAll(db, steps + [s]) == Apply(ApplyAll(db, steps), s)
  {
    assert (steps + [s])[..|steps|] == steps;
    hide Apply;
  }

  predicate FlaggedAt(db: Db, steps: seq<Step>, o: ObservationId, k: nat)
    requires k <= |steps|
  {
    IsFlagged(ApplyAll(db, steps[..k]), o)
  }

  predicate FlagsAt(db: Db, steps: seq<Step>, o: ObservationId, k: nat)
    requires k < |steps|
  {
    Flags(ApplyAll(db, steps[..k]), steps[k], o)
  }

  lemma {:induction false} OneStep(db: Db, steps: seq<Step>, o: ObservationId, k: nat)
    requires k < |steps| && o in db.observations && !FlaggedAt(db, steps, o, k)
    ensures FlaggedAt(db, steps, o, k + 1) <==> FlagsAt(db, steps, o, k)
  {
    ObservationsStay(db, steps[..k], o);
    LastStep(db, steps[..k], steps[k]);
    assert steps[..k + 1] == steps[..k] + [steps[k]];
    WhatFlags(ApplyAll(db, steps[..k]), steps[k], o);
    hide Apply, ApplyAll, Flags, IsFlagged;
  }

  /** A row that is not flagged stays so throughout a history if and only if no step of it flags it. */
  lemma {:induction false} StaysUnflagged(db: Db, steps: seq<Step>, o: ObservationId)
    requires o in db.observations && !IsFlagged(db, o)
    ensures (forall k :: 0 <= k <= |steps| ==> !FlaggedAt(db, steps, o, k)) <==>
            forall k :: 0 <= k < |steps| ==> !FlagsAt(db, steps, o, k)
  {
    assert !FlaggedAt(db, steps, o, 0);
    hide FlaggedAt, FlagsAt;
    if forall k :: 0 <= k <= |steps| ==> !FlaggedAt(db, steps, o, k) {
      forall k | 0 <= k < |steps| ensures !FlagsAt(db, steps, o, k) { OneStep(db, steps, o, k); }
    }
    if forall k :: 0 <= k < |steps| ==> !FlagsAt(db, steps, o, k) {
      for k := 0 to |steps|
        invariant forall j :: 0 <= j <= k ==> !FlaggedAt(db, steps, o, j)
      {
        OneStep(db, steps, o, k);
      }
    }
  }

  lemma ReviewKeepsRun(db: Db, t: Target, run: RunId, gaps: seq<Gap>, actor: string, now: nat, o: ObservationId)
    requires run != "" && gaps != [] && o in db.observations && db.observations[o].run == run
    ensures var db' := Reviewed(db, t, run, gaps, actor, now).0;
            o in db'.observations && db'.observations[o].run == run && Excluded(db', t, run)
  {
  }

  lemma ReviewFlags(db: Db, t: Target, run: RunId, gaps: seq<Gap>, actor: string, now: nat, o: ObservationId)
    requires run != "" && gaps != [] && o in db.observations && o.target == t && db.observations[o].run == run
    requires !Excluded(db, t, run)
    ensures IsFlagged(Reviewed(db, t, run, gaps, actor, now).0, o)
  {
  }

  lemma ThreeSteps(db: Db, a: Step, b: Step, c: Step)
    ensures ApplyAll(db, [a, b, c]) == Apply(Apply(Apply(db, a), b), c)
  {
    assert [] + [a] == [a] && [a] + [b] == [a, b] && [a, b] + [c] == [a, b, c];
    LastStep(db, [], a);
    LastStep(db, [a], b);
    LastStep(db, [a, b], c);
    assert ApplyAll(db, []) == db;
    hide Apply, ApplyAll;
  }

  /** It happens to a row that was refreshed: after a recovery the next review flags it again. */
  lemma {:induction false} RefreshedRowIsFlaggedAgain(db: Db, t: Target, run: RunId, gaps: seq<Gap>, actor: string, now: nat, o: ObservationId)
    requires run != "" && gaps != [] && o in db.observations && o.target == t && db.observations[o].run == run
    ensures var review := DoReview(t, run, gaps, actor, now);
            var refreshed := ApplyAll(db, [review, DoRecover(t, run, now), DoRefresh(o, run)]);
            && o in refreshed.observations && !IsFlagged(refreshed, o)
            && IsFlagged(Apply(refreshed, review), o)
  {
    hide ApplyAll, Reviewed;
    ThreeSteps(db, DoReview(t, run, gaps, actor, now), DoRecover(t, run, now), DoRefresh(o, run));
    ReviewKeepsRun(db, t, run, gaps, actor, now, o);
    var db1 := Reviewed(db, t, run, gaps, actor, now).0;
    var db2 := Recovered(db1, t, run, now);
    var db3 := Refreshed(db2, o, run);
    assert !Excluded(db2, t, run) && db2.observations == db1.observations;
    assert db3.reviews == db2.reviews && db3.observations[o] == Observation(run, false);
    ReviewFlags(db3, t, run, gaps, actor, now, o);
  }

  // ----- one target at a time

  /** The two databases agree on everything that concerns one target. */
  ghost predicate SameFor(a: Db, b: Db, t: Target) {
    && Lookup(a.commits, t) == Lookup(b.commits, t)
    && Lookup(a.registry, t) == Lookup(b.registry, t)
    && (forall r :: Lookup(a.reviews, ReviewId(t, r)) == Lookup(b.reviews, ReviewId(t, r)))
    && (forall o: ObservationId :: o.target == t ==> Lookup(a.observations, o) == Lookup(b.observations, o))
    && (forall c: Change :: c.target == t ==> (c in a.changes <==> c in b.changes))
  }

  lemma ReviewStaysWithTarget(db: Db, t: Target, run: RunId, gaps: seq<Gap>, actor: string, now: nat, u: Target)
    requires u != t
    ensures SameFor(Reviewed(db, t, run, gaps, actor, now).0, db, u)
  {
  }

  lemma {:induction false} ReviewReadsTarget(a: Db, b: Db, t: Target, run: RunId, gaps: seq<Gap>, actor: string, now: nat)
    requires SameFor(a, b, t)
    ensures SameFor(Reviewed(a, t, run, gaps, actor, now).0, Reviewed(b, t, run, gaps, actor, now).0, t)
    ensures Reviewed(a, t, run, gaps, actor, now).1 == Reviewed(b, t, run, gaps, actor, now).1
  {
    var source := Source(a, t, run);
    var id := ReviewId(t, source);
    assert Lookup(a.reviews, id) == Lookup(b.reviews, id);
    assert NewReview(a, t, source, gaps, actor, now) == NewReview(b, t, source, gaps, actor, now);
    var review := NewReview(a, t, source, gaps, actor, now);
    forall r ensures Lookup(a.reviews[id := review], ReviewId(t, r)) == Lookup(b.reviews[id := review], ReviewId(t, r)) {
      assert Lookup(a.reviews, ReviewId(t, r)) == Lookup(b.reviews, ReviewId(t, r));
    }
    FlagsReadTarget(a, b, t, source);
    hide Flagged, NewReview;
  }

  lemma FlagsReadTarget(a: Db, b: Db, t: Target, run: RunId)
    requires SameFor(a, b, t)
    ensures forall o: ObservationId :: o.target == t ==>
              Lookup(Flagged(a.observations, t, run), o) == Lookup(Flagged(b.observations, t, run), o)
  {
    forall o: ObservationId | o.target == t
      ensures Lookup(Flagged(a.observations, t, run), o) == Lookup(Flagged(b.observations, t, run), o)
    {
      assert Lookup(a.observations, o) == Lookup(b.observations, o);
    }
  }

  // ----- repair

  datatype RepairError = SelectorRequired | RunNotFound | RunIsRunning | NoHistory | TargetIsRunning(target: Target)

  datatype RepairResult = Repaired(outcomes: seq<Outcome>) | Refused(error: RepairError)

  /** The collection tables, which maintenance only reads: run and run-target states, and
      the gaps that the collected evidence proves. */
  datatype Collection = Collection(runs: map<RunId, string>, targets: map<ReviewId, string>,
                                   gaps: (Target, RunId) -> seq<Gap>)

  predicate IsRunning(c: Collection, t: Target) {
    exists id :: id in c.targets && id.target == t && c.targets[id] == "running"
  }

  const ACTOR := "cli-baseline-repair"

  class BaselineStore {
    var db: Db

    constructor (db: Db)
      ensures this.db == db
    {
      this.db := db;
    }

    method ReviewCommittedBaseline(c: Collection, t: Target, run: RunId, actor: string, now: nat) returns (o: Outcome)
      modifies this
      ensures var source := Source(old(db), t, run);
              (db, o) == Reviewed(old(db), t, run, if source == "" then [] else c.gaps(t, source), actor, now)
    {
      var source := if run != "" then run else if t in db.commits then db.commits[t] else "";
      if source == "" {
        return Outcome(t, "", NoBaseline, false);
      }
      var gaps := c.gaps(t, source);
      if gaps == [] {
        return Outcome(t, source, NoProvenGap, false);
      }
      var current := Lookup(db.commits, t);
      var registry := Lookup(db.registry, t);
      var previous := Lookup(db.reviews, ReviewId(t, source));
      var already := previous.Some? && previous.value.state == QUARANTINED;
      var changed := current == Some(source) && registry.Some? && registry.value.lastRefreshed == source &&
                     registry.value.state != QUARANTINED;
      if !already {
        var evidence := Evidence(gaps, if current == Some(source) then current else None, registry);
        var detectedAt := if previous.Some? then previous.value.detectedAt else now;
        db := db.(reviews := db.reviews[ReviewId(t, source) := Review(QUARANTINED, evidence, actor, detectedAt, None)]);
        db := db.(observations := Flagged(db.observations, t, source));
      }
      if changed {
        db := db.(registry := db.registry[t := registry.value.(state := QUARANTINED, reason := "baseline_coverage_incomplete",
                                                               updatedAt := now)]);
      }
      db := db.(changes := set x | x in db.changes && !(x.target == t && (x.run == source || x.previous == source)));
      o := Outcome(t, source, if already then AlreadyQuarantined else NewlyQuarantined, changed);
    }

    /** The targets a repair would cover, or why it is refused before looking at them. */
    method SelectTargets(c: Collection, run: RunId, target: Target) returns (rows: seq<Target>, error: Option<RepairError>)
      ensures error == Some(SelectorRequired) <==> run == "" && target == ""
      ensures error == Some(RunNotFound) <==> run != "" && run !in c.runs
      ensures error == Some(RunIsRunning) <==> run != "" && run in c.runs && c.runs[run] == "running"
      ensures error == Some(NoHistory) <==>
                && (run != "" || target != "") && (run != "" ==> run in c.runs && c.runs[run] != "running")
                && forall t :: !Selected(c, db, run, target, t)
      ensures error.None? ==> forall t :: t in rows <==>
                if run != "" then ReviewId(t, run) in c.targets && (target == "" || t == target) else t == target && t in db.registry
      ensures error.Some? ==> error.value in {SelectorRequired, RunNotFound, RunIsRunning, NoHistory}
      ensures error.None? ==> rows != [] && (forall t :: t in rows <==> Selected(c, db, run, target, t)) &&
                              forall i, j :: 0 <= i < j < |rows| ==> rows[i] != rows[j]
    {
      rows, error := [], None;
      if run == "" && target == "" { return [], Some(SelectorRequired); }
      if run != "" {
        if run !in c.runs { return [], Some(RunNotFound); }
        if c.runs[run] == "running" { return [], Some(RunIsRunning); }
        var left := c.targets.Keys;
        while left != {}
          invariant left <= c.targets.Keys
          invariant forall t :: t in rows <==>
                      ReviewId(t, run) in c.targets.Keys - left && (target == "" || t == target)
          invariant forall i, j :: 0 <= i < j < |rows| ==> rows[i] != rows[j]
          decreases left
        {
          var id: ReviewId :| id in left;
          if id.run == run && (target == "" || id.target == target) {
            assert id.target !in rows;
            rows := rows + [id.target];
          }
          left := left - {id};
        }
      } else if target in db.registry {
        rows := [target];
      }
      assert forall t :: t in rows <==> Selected(c, db, run, target, t);
      if rows == [] {
        error := Some(NoHistory);
      } else {
        assert rows[0] in rows;
      }
    }

    /** Repair covers all its targets or none: it is refused with nothing changed, or every
        selected target ends exactly as its own review leaves it, and no other target changes. */
    method RepairBaselines(c: Collection, run: RunId, target: Target, now: nat) returns (r: RepairResult)
      modifies this
      ensures r.Refused? ==> db == old(db)
      ensures r.Refused? <==>
                || (run == "" && target == "")
                || (run != "" && (run !in c.runs || c.runs[run] == "running"))
                || (forall t :: !Selected(c, old(db), run, target, t))
                || (exists t :: Selected(c, old(db), run, target, t) && IsRunning(c, t))
      ensures r == Refused(SelectorRequired) <==> run == "" && target == ""
      ensures r == Refused(RunNotFound) <==> run != "" && run !in c.runs
      ensures r == Refused(RunIsRunning) <==> run != "" && run in c.runs && c.runs[run] == "running"
      ensures r == Refused(NoHistory) <==>
                && (run != "" || target != "") && (run != "" ==> run in c.runs && c.runs[run] != "running")
                && forall t :: !Selected(c, old(db), run, target, t)
      ensures r.Refused? && r.error.TargetIsRunning? ==>
                && Selected(c, old(db), run, target, r.error.target)
                && exists id :: id in c.targets && id.target == r.error.target && c.targets[id] == "running"
      ensures r.Repaired? ==> forall t ::
                if Selected(c, old(db), run, target, t) then SameFor(db, Alone(c, old(db), t, run, now).0, t)
                else SameFor(db, old(db), t)
      ensures r.Repaired? ==>
                && (forall o :: o in r.outcomes ==>
                      Selected(c, old(db), run, target, o.target) && o == Alone(c, old(db), o.target, run, now).1)
                && (forall t :: Selected(c, old(db), run, target, t) ==> exists o :: o in r.outcomes && o.target == t)
    {
      var rows, error := SelectTargets(c, run, target);
      if error.Some? {
        return Refused(error.value);
      }
      for i := 0 to |rows|
        invariant db == old(db)
        invariant forall k :: 0 <= k < i ==> !IsRunning(c, rows[k])
      {
        var busy := AnyRunning(c, rows[i]);
        if busy {
          assert rows[i] in rows;
          return Refused(TargetIsRunning(rows[i]));
        }
      }
      hide SameFor, Alone;
      var outcomes := ReviewAll(c, rows, run, now);
      r := Repaired(outcomes);
      forall o | o in outcomes ensures Selected(c, old(db), run, target, o.target) && o == Alone(c, old(db), o.target, run, now).1 {
        var i :| 0 <= i < |outcomes| && outcomes[i] == o;
        assert rows[i] in rows;
      }
      forall t | Selected(c, old(db), run, target, t) ensures exists o :: o in outcomes && o.target == t {
        var i :| 0 <= i < |rows| && rows[i] == t;
        assert outcomes[i] in outcomes;
      }
    }

    method AnyRunning(c: Collection, t: Target) returns (busy: bool)
      ensures busy <==> IsRunning(c, t)
    {
      var left := c.targets.Keys;
      while left != {}
        invariant left <= c.targets.Keys
        invariant forall id :: id in c.targets.Keys - left ==> !(id.target == t && c.targets[id] == "running")
        decreases left
      {
        var id: ReviewId :| id in left;
        if id.target == t && c.targets[id] == "running" { return true; }
        left := left - {id};
      }
      return false;
    }

    method ReviewAll(c: Collection, rows: seq<Target>, run: RunId, now: nat) returns (outcomes: seq<Outcome>)
      requires forall i, j :: 0 <= i < j < |rows| ==> rows[i] != rows[j]
      modifies this
      ensures forall t :: if t in rows then SameFor(db, Alone(c, old(db), t, run, now).0, t) else SameFor(db, old(db), t)
      ensures |outcomes| == |rows|
      ensures forall i :: 0 <= i < |rows| ==> outcomes[i] == Alone(c, old(db), rows[i], run, now).1 && outcomes[i].target == rows[i]
    {
      hide SameFor, Alone;
      assert forall t :: SameFor(db, old(db), t) by { SameAsItself(db); }
      outcomes := [];
      for i := 0 to |rows|
        invariant |outcomes| == i
        invariant forall t :: if t in rows[..i] then SameFor(db, Alone(c, old(db), t, run, now).0, t) else SameFor(db, old(db), t)
        invariant forall k :: 0 <= k < i ==> outcomes[k] == Alone(c, old(db), rows[k], run, now).1 && outcomes[k].target == rows[k]
      {
        ghost var before := db;
        var o := ReviewCommittedBaseline(c, rows[i], run, ACTOR, now);
        outcomes := outcomes + [o];
        assert (db, o) == Alone(c, before, rows[i], run, now) by { AloneIsReview(c, before, rows[i], run, now); }
        assert rows[i] !in rows[..i];
        AloneReview(c, before, old(db), rows[i], run, now);
        forall t | t != rows[i] ensures SameFor(db, before, t) {
          AloneStaysWithTarget(c, before, rows[i], run, now, t);
        }
        forall t ensures if t in rows[..i + 1] then SameFor(db, Alone(c, old(db), t, run, now).0, t) else SameFor(db, old(db), t) {
          assert rows[..i + 1] == rows[..i] + [rows[i]];
          if t != rows[i] {
            SameTransitive(db, before, if t in rows[..i] then Alone(c, old(db), t, run, now).0 else old(db), t);
          }
        }
      }
      assert rows[..|rows|] == rows;
    }
  }

  predicate Selected(c: Collection, db: Db, run: RunId, target: Target, t: Target) {
    if run != "" then ReviewId(t, run) in c.targets && (target == "" || t == target)
    else t == target && t in db.registry
  }

  /** The review of one target as if it were the only one. */
  function Alone(c: Collection, db: Db, t: Target, run: RunId, now: nat): (Db, Outcome) {
    var source := Source(db, t, run);
    Reviewed(db, t, run, if source == "" then [] else c.gaps(t, source), ACTOR, now)
  }

  lemma AloneIsReview(c: Collection, db: Db, t: Target, run: RunId, now: nat)
    ensures Alone(c, db, t, run, now) ==
            Reviewed(db, t, run, if Source(db, t, run) == "" then [] else c.gaps(t, Source(db, t, run)), ACTOR, now)
  {
  }

  lemma SameAsItself(db: Db)
    ensures forall t :: SameFor(db, db, t)
  {
  }

  lemma SameTransitive(a: Db, b: Db, c: Db, t: Target)
    requires SameFor(a, b, t) && SameFor(b, c, t)
    ensures SameFor(a, c, t)
  {
    forall r ensures Lookup(a.reviews, ReviewId(t, r)) == Lookup(c.reviews, ReviewId(t, r)) {
      assert Lookup(a.reviews, ReviewId(t, r)) == Lookup(b.reviews, ReviewId(t, r));
    }
    forall o: ObservationId | o.target == t ensures Lookup(a.observations, o) == Lookup(c.observations, o) {
      assert Lookup(a.observations, o) == Lookup(b.observations, o);
    }
  }

  lemma {:induction false} AloneReview(c: Collection, a: Db, b: Db, t: Target, run: RunId, now: nat)
    requires SameFor(a, b, t)
    ensures SameFor(Alone(c, a, t, run, now).0, Alone(c, b, t, run, now).0, t)
    ensures Alone(c, a, t, run, now).1 == Alone(c, b, t, run, now).1 && Alone(c, a, t, run, now).1.target == t
  {
    assert Source(a, t, run) == Source(b, t, run);
    ReviewReadsTarget(a, b, t, run, if Source(a, t, run) == "" then [] else c.gaps(t, Source(a, t, run)), ACTOR, now);
  }

  lemma AloneStaysWithTarget(c: Collection, db: Db, t: Target, run: RunId, now: nat, u: Target)
    requires u != t
    ensures SameFor(Alone(c, db, t, run, now).0, db, u)
  {
    ReviewStaysWithTarget(db, t, run, if Source(db, t, run) == "" then [] else c.gaps(t, Source(db, t, run)), ACTOR, now, u);
  }

  // ----- what a review writes, row by row

  /** Whose review it is: the named run's, or the committed one's. */
  ghost predicate IsSource(db: Db, t: Target, run: RunId, source: RunId) {
    if run != "" then source == run else if t in db.commits then source == db.commits[t] else source == ""
  }

  /** Without a run or a gap nothing is written. Otherwise the changes that touch the run at either end go and
      no other does; a run that is not quarantined gets its review, its observations their flags; and the
      registry is quarantined when it is current. All other rows stay. */
  lemma {:induction false} WhatAReviewWrites(db: Db, t: Target, run: RunId, source: RunId, gaps: seq<Gap>, actor: string, now: nat)
    requires IsSource(db, t, run, source)
    ensures var (db', o) := Reviewed(db, t, run, gaps, actor, now);
            var id := ReviewId(t, source);
            var already := id in db.reviews && db.reviews[id].state == "quarantined";
            var current := t in db.commits && db.commits[t] == source && t in db.registry &&
                           db.registry[t].lastRefreshed == source && db.registry[t].state != "quarantined";
            && (source == "" || gaps == [] ==>
                  db' == db && !o.baselineChanged && o.action == if source == "" then NoBaseline else NoProvenGap)
            && (source != "" && gaps != [] ==>
                  && o.target == t && o.run == source && o.baselineChanged == current
                  && o.action == (if already then AlreadyQuarantined else NewlyQuarantined)
                  && (forall c :: c in db'.changes <==> c in db.changes && !(c.target == t && (c.run == source || c.previous == source)))
                  && db'.reviews.Keys == db.reviews.Keys + {id} && (forall other :: other in db.reviews && other != id ==> db'.reviews[other] == db.reviews[other])
                  && (already ==> db'.reviews[id] == db.reviews[id])
                  && (!already ==> ReviewWritten(db, t, source, gaps, actor, now, db'.reviews[id]))
                  && db'.observations.Keys == db.observations.Keys
                  && (forall x :: x in db.observations ==>
                        && db'.observations[x].run == db.observations[x].run
                        && (db'.observations[x].quarantined <==>
                              db.observations[x].quarantined || (!already && x.target == t && db.observations[x].run == source)))
                  && db'.registry.Keys == db.registry.Keys && (forall u :: u in db.registry && (u != t || !current) ==> db'.registry[u] == db.registry[u])
                  && (current ==> db'.registry[t] == Baseline("quarantined", source, "baseline_coverage_incomplete", now))
                  && db'.commits == db.commits)
  {
    assert source == Source(db, t, run);
  }

  /** The new review: the gaps, the committed run when it is this one, the registry row as it was, who and when. */
  ghost predicate ReviewWritten(db: Db, t: Target, source: RunId, gaps: seq<Gap>, actor: string, now: nat, r: Review) {
    && r.state == "quarantined" && r.actor == actor && r.recoveredAt == None
    && r.evidence.gaps == gaps
    && (r.evidence.snapshot == Some(source) <==> t in db.commits && db.commits[t] == source)
    && (r.evidence.snapshot.Some? ==> r.evidence.snapshot == Some(source))
    && (if t in db.registry then r.evidence.baseline == Some(db.registry[t]) else r.evidence.baseline == None)
    && r.detectedAt == (if ReviewId(t, source) in db.reviews then db.reviews[ReviewId(t, source)].detectedAt else now)
  }

  /** A recovery ends a quarantine and changes nothing else. */
  lemma WhatARecoveryWrites(db: Db, t: Target, run: RunId, now: nat)
    ensures var id, db' := ReviewId(t, run), Recovered(db, t, run, now);
            var held := id in db.reviews && db.reviews[id].state == "quarantined";
            && (!held ==> db' == db)
            && (held ==>
                  && db' == db.(reviews := db'.reviews) && db'.reviews.Keys == db.reviews.Keys
                  && (forall other :: other in db.reviews && other != id ==> db'.reviews[other] == db.reviews[other])
                  && db'.reviews[id] == Review("recovered", db.reviews[id].evidence, db.reviews[id].actor, db.reviews[id].detectedAt, Some(now)))
  {
  }
}
