/** When labelled records are enough to let a learned threshold leave shadow mode. */
module ActivationGate {
  import opened Ordering

  /** `str.strip` and `str.lower`. */
  datatype Text = Text(strip: string -> string, lower: string -> string)

  /** `positive` is the label as the gate reads it: true for a positive case. */
  datatype Record = Record(provenance: string, humanVerified: bool, labelSource: string, family: string, positive: bool)

  datatype Minimums = Minimums(globalVerified: int, verifiedFamilies: int, familyVerified: int,
                               familyPositive: int, familyNegative: int)

  datatype Status = Status(ready: bool, support: nat, positive: nat, negative: int)

  datatype Readiness = Readiness(globalReady: bool, support: nat, positive: nat, negative: int, families: nat,
                                 status: map<string, Status>)

  const TRUSTED: set<string> := {"human_verified_replay", "curated_real_world_replay", "confirmed_target_history"}

  const SHADOW: set<string> := {"", "none", "shadow", "shadow_only", "advisory"}

  function Provenance(t: Text, r: Record): string {
    t.lower(t.strip(if r.provenance != "" then r.provenance else "unclassified"))
  }

  function Eligible(t: Text): Record -> bool {
    (r: Record) => Provenance(t, r) in TRUSTED && r.humanVerified && r.labelSource != ""
  }

  function InFamily(t: Text, family: string): Record -> bool {
    (r: Record) => t.strip(r.family) == family
  }

  function Positive(r: Record): bool { r.positive }

  function Families(t: Text, rows: seq<Record>): set<string> {
    (set r | r in rows :: t.strip(r.family)) - {""}
  }

  function Rated(m: Minimums, familyRows: seq<Record>): Status {
    var positives := |Filter(Positive, familyRows)|;
    Status(|familyRows| >= m.familyVerified && positives >= m.familyPositive && |familyRows| - positives >= m.familyNegative,
           |familyRows|, positives, |familyRows| - positives)
  }

  function StatusOf(t: Text, m: Minimums, eligible: seq<Record>, family: string): Status {
    Rated(m, Filter(InFamily(t, family), eligible))
  }

  function ReadinessOf(t: Text, m: Minimums, rows: seq<Record>): Readiness {
    var eligible := Filter(Eligible(t), rows);
    var positive := |Filter(Positive, eligible)|;
    var families := Families(t, eligible);
    Readiness(|eligible| >= m.globalVerified && positive > 0 && |eligible| - positive > 0 && |families| >= m.verifiedFamilies,
              |eligible|, positive, |eligible| - positive, |families|,
              map f | f in families :: StatusOf(t, m, eligible, f))
  }

  // ----- the report

  method FilterRows(keep: Record -> bool, rows: seq<Record>) returns (kept: seq<Record>)
    ensures kept == Filter(keep, rows)
  {
    kept := [];
    for i := 0 to |rows|
      invariant kept == Filter(keep, rows[..i])
    {
      assert rows[..i + 1] == rows[..i] + [rows[i]];
      FilterAppend(keep, rows[..i], [rows[i]]);
      if keep(rows[i]) { kept := kept + [rows[i]]; }
    }
    assert rows[..|rows|] == rows;
  }

  method GroupByFamily(t: Text, eligible: seq<Record>) returns (byFamily: map<string, seq<Record>>)
    ensures byFamily.Keys == Families(t, eligible)
    ensures forall f :: f in byFamily ==> byFamily[f] == Filter(InFamily(t, f), eligible)
  {
    hide Filter;
    byFamily := map[];
    for i := 0 to |eligible|
      invariant byFamily.Keys == Families(t, eligible[..i])
      invariant forall f :: f in byFamily ==> byFamily[f] == Filter(InFamily(t, f), eligible[..i])
    {
      var row := eligible[i];
      var family := t.strip(row.family);
      FamilyStep(t, eligible[..i], row);
      assert eligible[..i + 1] == eligible[..i] + [row];
      if family != "" {
        var before := if family in byFamily then byFamily[family] else [];
        byFamily := byFamily[family := before + [row]];
      }
    }
    assert eligible[..|eligible|] == eligible;
  }

  lemma FamilyStep(t: Text, seen: seq<Record>, row: Record)
    ensures var f := t.strip(row.family);
            && Families(t, seen + [row]) == Families(t, seen) + (if f != "" then {f} else {})
            && Filter(InFamily(t, f), seen + [row]) == Filter(InFamily(t, f), seen) + [row]
            && (f !in Families(t, seen) && f != "" ==> Filter(InFamily(t, f), seen) == [])
    ensures forall g :: g != t.strip(row.family) ==> Filter(InFamily(t, g), seen + [row]) == Filter(InFamily(t, g), seen)
  {
    var f := t.strip(row.family);
    FilterAppend(InFamily(t, f), seen, [row]);
    if f !in Families(t, seen) && f != "" { FilterNone(InFamily(t, f), seen); }
    forall g | g != f ensures Filter(InFamily(t, g), seen + [row]) == Filter(InFamily(t, g), seen) {
      FilterAppend(InFamily(t, g), seen, [row]);
    }
    hide Filter;
    forall g ensures g in Families(t, seen + [row]) <==> g in Families(t, seen) || (g == f && f != "") {
      assert row in seen + [row];
      if g in Families(t, seen) {
        var r :| r in seen && t.strip(r.family) == g;
        assert r in seen + [row];
      }
    }
  }

  function OfProvenance(t: Text, name: string): Record -> bool {
    (r: Record) => Provenance(t, r) == name
  }

  method CountProvenance(t: Text, rows: seq<Record>) returns (counts: map<string, nat>)
    ensures forall name :: |Filter(OfProvenance(t, name), rows)| == if name in counts then counts[name] else 0
  {
    counts := map[];
    for i := 0 to |rows|
      invariant forall name :: |Filter(OfProvenance(t, name), rows[..i])| == if name in counts then counts[name] else 0
    {
      var name := Provenance(t, rows[i]);
      assert rows[..i + 1] == rows[..i] + [rows[i]];
      forall n ensures |Filter(OfProvenance(t, n), rows[..i + 1])| ==
                       |Filter(OfProvenance(t, n), rows[..i])| + if n == name then 1 else 0 {
        FilterAppend(OfProvenance(t, n), rows[..i], [rows[i]]);
      }
      counts := counts[name := (if name in counts then counts[name] else 0) + 1];
    }
    assert rows[..|rows|] == rows;
  }

  method RateFamily(m: Minimums, familyRows: seq<Record>) returns (status: Status)
    ensures status == Rated(m, familyRows)
  {
    var positives := FilterRows(Positive, familyRows);
    var positive, negative := |positives|, |familyRows| - |positives|;
    status := Status(|familyRows| >= m.familyVerified && positive >= m.familyPositive && negative >= m.familyNegative,
                     |familyRows|, positive, negative);
  }

  method FamilyStatus(t: Text, m: Minimums, eligible: seq<Record>) returns (status: map<string, Status>)
    ensures status == map f | f in Families(t, eligible) :: StatusOf(t, m, eligible, f)
  {
    hide Filter, Families, StringLeq, Rated;
    var byFamily := GroupByFamily(t, eligible);
    var names := SortedSet(byFamily.Keys);
    status := map[];
    for k := 0 to |names|
      invariant forall f :: f in status <==> f in names[..k]
      invariant forall f :: f in status ==> status[f] == StatusOf(t, m, eligible, f)
    {
      assert names[..k + 1] == names[..k] + [names[k]];
      assert names[k] in names;
      var rated := RateFamily(m, byFamily[names[k]]);
      status := status[names[k] := rated];
    }
    assert names[..|names|] == names;
  }

  method ActivationReadiness(t: Text, rows: seq<Record>, m: Minimums)
    returns (readiness: Readiness, provenance: map<string, nat>)
    ensures readiness == ReadinessOf(t, m, rows)
    ensures forall name :: |Filter(OfProvenance(t, name), rows)| == if name in provenance then provenance[name] else 0
  {
    hide Filter, Families, StatusOf;
    var eligible := FilterRows(Eligible(t), rows);
    var byFamily := GroupByFamily(t, eligible);
    var positives := FilterRows(Positive, eligible);
    var positive, negative := |positives|, |eligible| - |positives|;
    var status := FamilyStatus(t, m, eligible);
    assert |byFamily| == |byFamily.Keys|;
    readiness := Readiness(|eligible| >= m.globalVerified && positive > 0 && negative > 0 && |byFamily| >= m.verifiedFamilies,
                           |eligible|, positive, negative, |byFamily|, status);
    provenance := CountProvenance(t, rows);
  }

  // ----- what the gate depends on

  lemma FamiliesGrow(t: Text, a: seq<Record>, b: seq<Record>)
    requires forall r :: r in a ==> r in b
    ensures Families(t, a) <= Families(t, b)
  {
  }

  lemma SubsetSize(a: set<string>, b: set<string>)
    requires a <= b
    ensures |a| <= |b|
  {
    assert b == a + (b - a);
  }

  /** More rows, more rows kept. */
  lemma FilterMonotone(keep: Record -> bool, a: seq<Record>, b: seq<Record>)
    requires multiset(a) <= multiset(b)
    ensures multiset(Filter(keep, a)) <= multiset(Filter(keep, b))
    ensures |Filter(keep, a)| <= |Filter(keep, b)|
  {
    hide Filter;
    var fa, fb := multiset(Filter(keep, a)), multiset(Filter(keep, b));
    forall v ensures fa[v] <= fb[v] {
      FilterCount(keep, a, v);
      FilterCount(keep, b, v);
    }
    assert fa <= fb;
    SubMultisetSize(Filter(keep, a), Filter(keep, b));
  }

  lemma FamilyGrows(t: Text, family: string, a: seq<Record>, b: seq<Record>)
    requires multiset(a) <= multiset(b)
    ensures var ra, rb := Filter(InFamily(t, family), a), Filter(InFamily(t, family), b);
            && |ra| <= |rb| && |Filter(Positive, ra)| <= |Filter(Positive, rb)|
            && |ra| - |Filter(Positive, ra)| <= |rb| - |Filter(Positive, rb)|
  {
    hide Filter;
    FilterMonotone(InFamily(t, family), a, b);
    LabelsGrow(Filter(InFamily(t, family), a), Filter(InFamily(t, family), b));
  }

  function Negative(r: Record): bool { !r.positive }

  lemma {:induction false} EitherLabel(s: seq<Record>)
    ensures |Filter(Positive, s)| + |Filter(Negative, s)| == |s|
  {
    if s != [] { EitherLabel(s[1..]); }
  }

  lemma {:induction false} LabelsGrow(a: seq<Record>, b: seq<Record>)
    requires multiset(a) <= multiset(b)
    ensures |Filter(Positive, a)| <= |Filter(Positive, b)|
    ensures |a| - |Filter(Positive, a)| <= |b| - |Filter(Positive, b)|
  {
    hide Filter;
    FilterMonotone(Positive, a, b);
    FilterMonotone(Negative, a, b);
    EitherLabel(a);
    EitherLabel(b);
  }

  /** More eligible rows never turn readiness off, neither overall nor for a family. */
  lemma {:induction false} ReadinessGrows(t: Text, m: Minimums, a: seq<Record>, b: seq<Record>)
    requires multiset(Filter(Eligible(t), a)) <= multiset(Filter(Eligible(t), b))
    ensures var ra, rb := ReadinessOf(t, m, a), ReadinessOf(t, m, b);
            && (ra.globalReady ==> rb.globalReady)
            && ra.support <= rb.support && ra.positive <= rb.positive && ra.negative <= rb.negative && ra.families <= rb.families
            && forall f :: f in ra.status ==> f in rb.status && (ra.status[f].ready ==> rb.status[f].ready)
  {
    hide Filter;
    var ea, eb := Filter(Eligible(t), a), Filter(Eligible(t), b);
    SubMultisetSize(ea, eb);
    LabelsGrow(ea, eb);
    FamiliesGrow(t, ea, eb);
    SubsetSize(Families(t, ea), Families(t, eb));
    forall f | f in Families(t, ea)
      ensures f in Families(t, eb) && (StatusOf(t, m, ea, f).ready ==> StatusOf(t, m, eb, f).ready)
    {
      FamilyGrows(t, f, ea, eb);
    }
  }

  lemma SameStatus(t: Text, m: Minimums, family: string, a: seq<Record>, b: seq<Record>)
    requires multiset(a) == multiset(b)
    ensures StatusOf(t, m, a, family) == StatusOf(t, m, b, family)
  {
    hide Filter;
    FamilyGrows(t, family, a, b);
    FamilyGrows(t, family, b, a);
  }

  /** The gate sees nothing but the eligible rows, and not their order. */
  lemma {:induction false} ReadinessRestsOnEligible(t: Text, m: Minimums, a: seq<Record>, b: seq<Record>)
    requires multiset(Filter(Eligible(t), a)) == multiset(Filter(Eligible(t), b))
    ensures ReadinessOf(t, m, a) == ReadinessOf(t, m, b)
  {
    hide Filter, Families, StatusOf;
    var ea, eb := Filter(Eligible(t), a), Filter(Eligible(t), b);
    SubMultisetSize(ea, eb);
    SubMultisetSize(eb, ea);
    LabelsGrow(ea, eb);
    LabelsGrow(eb, ea);
    FamiliesGrow(t, ea, eb);
    FamiliesGrow(t, eb, ea);
    forall f ensures StatusOf(t, m, ea, f) == StatusOf(t, m, eb, f) { SameStatus(t, m, f, ea, eb); }
    assert Families(t, ea) == Families(t, eb);
    assert ReadinessOf(t, m, a).status == ReadinessOf(t, m, b).status;
  }

  /** Rows that are not eligible, any number of them anywhere, leave the gate as it was. */
  lemma IneligibleRowsDoNotCount(t: Text, m: Minimums, a: seq<Record>, noise: seq<Record>, b: seq<Record>)
    requires forall r :: r in noise ==> !Eligible(t)(r)
    ensures ReadinessOf(t, m, a + noise + b) == ReadinessOf(t, m, a + b)
  {
    SkipNone(Eligible(t), a, noise, b);
    ReadinessRestsOnEligible(t, m, a + noise + b, a + b);
  }

  lemma SkipNone(keep: Record -> bool, a: seq<Record>, noise: seq<Record>, b: seq<Record>)
    requires forall r :: r in noise ==> !keep(r)
    ensures Filter(keep, a + noise + b) == Filter(keep, a + b)
  {
    hide Filter;
    FilterNone(keep, noise);
    FilterAppend(keep, a + noise, b);
    FilterAppend(keep, a, noise);
    FilterAppend(keep, a, b);
    assert Filter(keep, a) + [] == Filter(keep, a);
  }

  // ----- the guarded profile

  datatype Guard = Guard(requested: string, activation: string, blocked: bool)

  /** The activation fields of the profile. A blank request is read as shadow mode. */
  method GuardActivation(t: Text, rows: seq<Record>, m: Minimums, request: string) returns (guard: Guard, readiness: Readiness)
    ensures readiness == ReadinessOf(t, m, rows)
    ensures guard == GuardOf(t, readiness, request)
  {
    var provenance;
    readiness, provenance := ActivationReadiness(t, rows, m);
    var requested := t.lower(t.strip(if request != "" then request else "shadow_only"));
    var production := requested !in SHADOW;
    var effective := if production && readiness.globalReady then requested else "shadow_only";
    guard := Guard(if requested != "" then requested else "shadow_only", effective, production && !readiness.globalReady);
  }

  function GuardOf(t: Text, readiness: Readiness, request: string): Guard {
    var requested := t.lower(t.strip(if request != "" then request else "shadow_only"));
    if requested in SHADOW then Guard(if requested == "" then "shadow_only" else requested, "shadow_only", false)
    else if readiness.globalReady then Guard(requested, requested, false)
    else Guard(requested, "shadow_only", true)
  }

  /** Leaving shadow mode takes trusted, verified evidence of both labels, and removing every other
      row would not have changed the decision. */
  lemma {:induction false} ActivationImpliesReadiness(t: Text, m: Minimums, rows: seq<Record>, request: string)
    ensures var guard := GuardOf(t, ReadinessOf(t, m, rows), request);
            var eligible := Filter(Eligible(t), rows);
            && guard == GuardOf(t, ReadinessOf(t, m, eligible), request)
            && (guard.activation != "shadow_only" ==>
                  && ReadinessOf(t, m, rows).globalReady && guard.activation == guard.requested
                  && (exists r :: r in rows && Eligible(t)(r) && r.positive)
                  && (exists r :: r in rows && Eligible(t)(r) && !r.positive))
            && (guard.blocked ==> guard.activation == "shadow_only" && !ReadinessOf(t, m, rows).globalReady)
  {
    var eligible := Filter(Eligible(t), rows);
    FilterMembers(Eligible(t), rows);
    FilterAll(Eligible(t), eligible);
    FilterMembers(Positive, eligible);
    FilterMembers(Negative, eligible);
    EitherLabel(eligible);
    hide Filter;
    ReadinessRestsOnEligible(t, m, rows, eligible);
    if ReadinessOf(t, m, rows).globalReady {
      var p, n := Filter(Positive, eligible)[0], Filter(Negative, eligible)[0];
      assert p in Filter(Positive, eligible) && n in Filter(Negative, eligible);
      assert p in eligible && n in eligible;
    }
  }
}
