/** What opens the activation gate, told by counting rows, and what the reading of replay files stores. */
module GateLaws {
  import opened ActivationGate
  import opened Options
  import opened Ordering
  import opened ReplayIngestion

  // ----- the rows that count

  /** Of one of the three trusted origins, verified by a human, with a label source. */
  predicate Counts(t: Text, r: Record) {
    var origin := t.lower(t.strip(if r.provenance == "" then "unclassified" else r.provenance));
    && (origin == "human_verified_replay" || origin == "curated_real_world_replay" || origin == "confirmed_target_history")
    && r.humanVerified && r.labelSource != ""
  }

  function Counted(t: Text): Record -> bool { (r: Record) => Counts(t, r) }
  function CountedPositive(t: Text): Record -> bool { (r: Record) => Counts(t, r) && r.positive }
  function CountedNegative(t: Text): Record -> bool { (r: Record) => Counts(t, r) && !r.positive }
  function Of(t: Text, family: string): Record -> bool { (r: Record) => Counts(t, r) && t.strip(r.family) == family }
  function PositiveOf(t: Text, family: string): Record -> bool { (r: Record) => Of(t, family)(r) && r.positive }
  function NegativeOf(t: Text, family: string): Record -> bool { (r: Record) => Of(t, family)(r) && !r.positive }

  /** The families that rows which count name. */
  function Named(t: Text, rows: seq<Record>): set<string> {
    set r | r in rows && Counts(t, r) && t.strip(r.family) != "" :: t.strip(r.family)
  }

  lemma EligibleCounts(t: Text, rows: seq<Record>)
    ensures Filter(Eligible(t), rows) == Filter(Counted(t), rows)
  {
    forall r: Record ensures Eligible(t)(r) <==> Counted(t)(r) { }
    SameFilter(Eligible(t), Counted(t), rows);
  }

  lemma Labels(keep: Record -> bool, positive: Record -> bool, negative: Record -> bool, rows: seq<Record>)
    requires forall r :: (positive(r) <==> keep(r) && r.positive) && (negative(r) <==> keep(r) && !r.positive)
    ensures |Filter(Positive, Filter(keep, rows))| == Number(positive, rows)
    ensures |Filter(keep, rows)| - |Filter(Positive, Filter(keep, rows))| == Number(negative, rows)
  {
    FilterTwice(keep, Positive, positive, rows);
    NumberSplits(keep, positive, negative, rows);
    hide Filter;
  }

  lemma NamedAre(t: Text, rows: seq<Record>)
    ensures Families(t, Filter(Eligible(t), rows)) == Named(t, rows)
  {
    EligibleCounts(t, rows);
    FilterMembers(Counted(t), rows);
    hide Filter, Counts;
    var eligible := Filter(Counted(t), rows);
    forall f ensures f in Families(t, eligible) <==> f in Named(t, rows) {
      if f in Families(t, eligible) {
        var r :| r in eligible && t.strip(r.family) == f;
        assert Counted(t)(r);
      }
      if f in Named(t, rows) {
        var r :| r in rows && Counts(t, r) && t.strip(r.family) == f;
        assert Counted(t)(r) && r in eligible;
      }
    }
  }

  // ----- the gate

  /** At least the global minimum of rows that count, both labels among them, and at least the minimum of families. */
  predicate Open(t: Text, m: Minimums, rows: seq<Record>) {
    && Number(Counted(t), rows) >= m.globalVerified
    && Number(CountedPositive(t), rows) > 0 && Number(CountedNegative(t), rows) > 0
    && |Named(t, rows)| >= m.verifiedFamilies
  }

  predicate FamilyOpen(t: Text, m: Minimums, rows: seq<Record>, family: string) {
    && Number(Of(t, family), rows) >= m.familyVerified
    && Number(PositiveOf(t, family), rows) >= m.familyPositive
    && Number(NegativeOf(t, family), rows) >= m.familyNegative
  }

  /** The gate is open exactly then, and the report gives these numbers. */
  lemma WhenTheGateOpens(t: Text, m: Minimums, rows: seq<Record>)
    ensures var r := ReadinessOf(t, m, rows);
            && (r.globalReady <==> Open(t, m, rows))
            && r.support == Number(Counted(t), rows) && r.positive == Number(CountedPositive(t), rows)
            && r.negative == Number(CountedNegative(t), rows) && r.families == |Named(t, rows)|
  {
    EligibleCounts(t, rows);
    Labels(Counted(t), CountedPositive(t), CountedNegative(t), rows);
    NamedAre(t, rows);
    hide Filter, Families, Named, Counts, StatusOf;
    NumberIs(Counted(t), rows);
  }

  lemma NumberIs(keep: Record -> bool, rows: seq<Record>)
    ensures Number(keep, rows) == |Filter(keep, rows)|
  {
  }

  /** A family is reported when a row that counts names it, and ready exactly when it has its three minimums. */
  lemma WhenAFamilyIsReady(t: Text, m: Minimums, rows: seq<Record>, family: string)
    ensures var status := ReadinessOf(t, m, rows).status;
            && (family in status <==> family in Named(t, rows))
            && (family in status ==>
                  && (status[family].ready <==> FamilyOpen(t, m, rows, family))
                  && status[family].support == Number(Of(t, family), rows)
                  && status[family].positive == Number(PositiveOf(t, family), rows)
                  && status[family].negative == Number(NegativeOf(t, family), rows))
  {
    NamedAre(t, rows);
    EligibleCounts(t, rows);
    FilterTwice(Counted(t), InFamily(t, family), Of(t, family), rows);
    Labels(Of(t, family), PositiveOf(t, family), NegativeOf(t, family), rows);
    NumberIs(Of(t, family), rows);
    hide Filter, Families, Named, Counts, Number;
  }

  /** A request leaves shadow mode exactly when it asks for more than shadow mode and the gate is open; it is
      blocked exactly when it asks and the gate is not. */
  lemma WhatActivationMeans(t: Text, m: Minimums, rows: seq<Record>, request: string)
    ensures var guard := GuardOf(t, ReadinessOf(t, m, rows), request);
            var asked := t.lower(t.strip(if request == "" then "shadow_only" else request));
            var more := asked != "" && asked != "none" && asked != "shadow" && asked != "shadow_only" && asked != "advisory";
            && guard.activation == (if more && Open(t, m, rows) then asked else "shadow_only")
            && (guard.blocked <==> more && !Open(t, m, rows))
            && guard.requested == (if asked == "" then "shadow_only" else asked)
  {
    WhenTheGateOpens(t, m, rows);
    hide ReadinessOf, Open;
  }

  // ----- what is stored of a replay record

  /** The record as it was read, with its texts stripped, its provenance in lower case, its label and its score. */
  lemma WhatIsStored(env: Env, raw: Raw, place: string)
    requires Ordinary(env.text) && Valid(env, Object(raw))
    ensures var r := ReplayIngestion.Accepted(env, raw, place);
            && raw.verdict.Some? && r.record.positive == raw.verdict.value
            && raw.score == Some(r.score) && 0 <= r.score <= 100
            && r.record.provenance == env.text.lower(env.text.strip(raw.provenance)) && r.record.humanVerified
            && r.record.labelSource == env.text.strip(raw.labelSource) && r.record.family == env.text.strip(raw.family)
            && r.reviewerId == env.text.strip(raw.reviewerId) && r.reviewedAt == env.text.strip(raw.reviewedAt)
            && r.caseOrigin == env.text.strip(raw.caseOrigin) && r.snapshot == env.text.strip(raw.snapshot)
            && r.id == (if raw.id == "" then place else raw.id)
            && r.fingerprint == env.digest(env.text.strip(raw.family) + "|" + env.text.strip(raw.caseOrigin) + "|" +
                                           env.text.strip(raw.snapshot) + "|" + env.text.lower(env.text.strip(raw.provenance)))
  {
    ValidMeans(env, raw);
    hide Errors;
  }

  /** A record without an identifier is known by its file's name and its line, counted from 1. */
  lemma {:induction false} WhereALineIs(env: Env, name: string, lines: seq<Line>, i: nat)
    requires i < |lines|
    ensures |EntriesOf(env, name, lines)| == |lines|
    ensures EntriesOf(env, name, lines)[i] == Entry(env.place(name, i + 1), lines[i])
  {
    var init := lines[..|lines| - 1];
    if i < |init| {
      WhereALineIs(env, name, init, i);
    } else if init != [] {
      WhereALineIs(env, name, init, 0);
    }
  }

  /** Rows are counted by their origin, "unclassified" without one. */
  lemma WhichOrigin(t: Text, name: string, r: Record)
    ensures OfProvenance(t, name)(r) <==> t.lower(t.strip(if r.provenance == "" then "unclassified" else r.provenance)) == name
  {
  }

  // ----- what is rejected

  /** A fault is reported exactly when its requirement is not met. */
  lemma WhichFaults(env: Env, raw: Raw, f: Fault)
    ensures f in Errors(env, raw) <==>
              match f
              case MissingFamily => env.text.strip(raw.family) == ""
              case AmbiguousLabel => raw.verdict == None
              case UntrustedProvenance =>
                var origin := env.text.lower(env.text.strip(raw.provenance));
                origin != "human_verified_replay" && origin != "curated_real_world_replay" && origin != "confirmed_target_history"
              case HumanVerifiedTrueRequired => !raw.humanVerifiedTrue
              case MissingLabelSource => env.text.strip(raw.labelSource) == ""
              case MissingReviewerId => env.text.strip(raw.reviewerId) == ""
              case MissingReviewedAt => env.text.strip(raw.reviewedAt) == ""
              case MissingCaseOriginId => env.text.strip(raw.caseOrigin) == ""
              case MissingEvidenceSnapshotId => env.text.strip(raw.snapshot) == ""
              case InvalidDecisionScore => raw.score == None
              case DecisionScoreOutOfRange => raw.score.Some? && (raw.score.value < 0 || raw.score.value > 100)
              case IncompleteEvidenceQuality => !raw.qualityComplete
              case JsonInvalid => false
              case RecordMustBeObject => false
              case DuplicateVerifiedReplay => false
  {
    hide Checks, Missed, TRUSTED;
    var checks := Checks(env, raw);
    assert f in Errors(env, raw) <==> Check(true, f) in checks;
    ChecksAre(env, raw);
    Twelve(checks, Check(true, f));
    Trusted(env.text.lower(env.text.strip(raw.provenance)));
  }

  lemma ChecksAre(env: Env, raw: Raw)
    ensures var c := Checks(env, raw);
            && |c| == 12
            && c[0] == Check(env.text.strip(raw.family) == "", MissingFamily) && c[1] == Check(raw.verdict == None, AmbiguousLabel)
            && c[2] == Check(env.text.lower(env.text.strip(raw.provenance)) !in TRUSTED, UntrustedProvenance)
            && c[3] == Check(!raw.humanVerifiedTrue, HumanVerifiedTrueRequired)
            && c[4] == Check(env.text.strip(raw.labelSource) == "", MissingLabelSource)
            && c[5] == Check(env.text.strip(raw.reviewerId) == "", MissingReviewerId)
            && c[6] == Check(env.text.strip(raw.reviewedAt) == "", MissingReviewedAt)
            && c[7] == Check(env.text.strip(raw.caseOrigin) == "", MissingCaseOriginId)
            && c[8] == Check(env.text.strip(raw.snapshot) == "", MissingEvidenceSnapshotId)
            && c[9] == Check(raw.score == None, InvalidDecisionScore)
            && c[10] == Check(raw.score.Some? && (raw.score.value < 0 || raw.score.value > 100), DecisionScoreOutOfRange)
            && c[11] == Check(!raw.qualityComplete, IncompleteEvidenceQuality)
  {
    hide TRUSTED;
  }

  lemma Trusted(origin: string)
    ensures origin in TRUSTED <==>
              origin == "human_verified_replay" || origin == "curated_real_world_replay" || origin == "confirmed_target_history"
  {
  }

  lemma Twelve(s: seq<Check>, x: Check)
    requires |s| == 12
    ensures x in s <==> x == s[0] || x == s[1] || x == s[2] || x == s[3] || x == s[4] || x == s[5] || x == s[6] || x == s[7] ||
                        x == s[8] || x == s[9] || x == s[10] || x == s[11]
  {
  }

  /** A line that is no JSON, no object, faulty or a duplicate is rejected under its identifier and family, with its
      faults; a blank one is passed over; and any other is accepted. */
  lemma WhatAReadLineDoes(env: Env, o: Outcome, e: Entry)
    ensures var next := ReplayIngestion.Step(env, o, e);
            && (e.line == Blank ==> next == o)
            && (e.line == InvalidJson ==> next == o.(rejected := o.rejected + [Rejection(e.place, "", [JsonInvalid])]))
            && (e.line == NotObject ==> next == o.(rejected := o.rejected + [Rejection(e.place, "", [RecordMustBeObject])]))
            && (e.line.Object? ==>
                  var raw := e.line.raw;
                  var id, family := if raw.id == "" then e.place else raw.id, env.text.strip(raw.family);
                  var twin := exists i :: 0 <= i < |o.accepted| && o.accepted[i].fingerprint == Fingerprint(env, raw);
                  && (Errors(env, raw) != [] ==> next == o.(rejected := o.rejected + [Rejection(id, family, Errors(env, raw))]))
                  && (Errors(env, raw) == [] && twin ==>
                        next == o.(rejected := o.rejected + [Rejection(id, family, [DuplicateVerifiedReplay])], duplicates := o.duplicates + 1))
                  && (Errors(env, raw) == [] && !twin ==>
                        next.accepted == o.accepted + [ReplayIngestion.Accepted(env, raw, e.place)] &&
                        next.rejected == o.rejected && next.duplicates == o.duplicates))
  {
    hide Errors, Fingerprint, ReplayIngestion.Accepted;
  }
}
