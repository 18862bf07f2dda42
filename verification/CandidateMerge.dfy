/** Storing bug candidates: repeated inserts under one fingerprint merge into one row. */
module CandidateMerge {
  import opened FirstSeen
  import opened Options
  import opened Ordering
  import opened SortedSets

  /** An evidence item is its canonical JSON text, by which the merge compares items. */
  datatype Item = Item(json: string)

  datatype Decision = Unreviewed | ConfirmedByAnalyst | RejectedByAnalyst

  datatype CandidateState = StrongCandidate | Plausible | Possible | WeakSignal | Confirmed | Rejected

  datatype Schema = Schema(requiredAny: seq<set<string>>)

  /** The arguments of one insert; `decision` is the analyst's verdict on an earlier analysis. */
  datatype Insertion = Insertion(family: string, likelihood: int, strength: int, impact: int,
                                 support: seq<Item>, contradict: seq<Item>, missing: seq<string>, ruleIds: seq<string>,
                                 alertId: Option<int>, sourceRef: string, decision: Decision)

  datatype Row = Row(likelihood: int, strength: int, impact: int, priority: int, state: CandidateState,
                     support: seq<Item>, contradict: seq<Item>, missing: seq<string>, ruleIds: seq<string>,
                     alertId: Option<int>, sourceRef: string)

  /** The family catalog, the "type" of an item, the wording of the gate message, and Python's `round`. */
  datatype Catalog = Catalog(families: set<string>, schemas: map<string, Schema>, kind: Item -> string,
                             message: (string, seq<set<string>>) -> string, round: real -> int)

  function Clamp(v: int): (r: int)
    ensures 0 <= r <= 100
  {
    if v < 0 then 0 else if v > 100 then 100 else v
  }

  function Max(a: int, b: int): int { if a >= b then a else b }

  function StateOf(likelihood: int, strength: int): CandidateState {
    if likelihood >= 75 && strength >= 60 then StrongCandidate
    else if likelihood >= 55 then Plausible
    else if likelihood >= 35 then Possible
    else WeakSignal
  }

  method MergeEvidenceLists(left: seq<Item>, right: seq<Item>) returns (merged: seq<Item>)
    ensures merged == Dedup(left + right)
  {
    merged := [];
    var seen: set<string> := {};
    var items := left + right;
    for i := 0 to |items|
      invariant merged == Dedup(items[..i])
      invariant forall m :: m in merged ==> m.json in seen
      invariant forall k :: k in seen ==> Item(k) in merged
    {
      assert items[..i + 1][..i] == items[..i];
      var key := items[i].json;
      assert items[i] == Item(key);
      if key !in seen {
        seen := seen + {key};
        merged := merged + [items[i]];
      }
    }
    assert items[..|items|] == items;
  }

  // ----- one insert

  function Kinds(c: Catalog, support: seq<Item>): set<string> { set item | item in support :: c.kind(item) }

  function Absent(groups: seq<set<string>>, kinds: set<string>): seq<set<string>> {
    if groups == [] then []
    else Absent(groups[..|groups| - 1], kinds) +
         if groups[|groups| - 1] !! kinds then [groups[|groups| - 1]] else []
  }

  method MissingGroups(groups: seq<set<string>>, kinds: set<string>) returns (absent: seq<set<string>>)
    ensures absent == Absent(groups, kinds)
  {
    absent := [];
    for i := 0 to |groups|
      invariant absent == Absent(groups[..i], kinds)
    {
      assert groups[..i + 1][..i] == groups[..i];
      if groups[i] !! kinds { absent := absent + [groups[i]]; }
    }
    assert groups[..|groups|] == groups;
  }

  /** The insertion after the family gate and the clamping of its scores. */
  function Gated(c: Catalog, x: Insertion): Insertion {
    var absent := if x.family in c.schemas then Absent(c.schemas[x.family].requiredAny, Kinds(c, x.support)) else [];
    x.(likelihood := Clamp(if absent == [] then x.likelihood else x.likelihood - 18),
       strength := Clamp(x.strength),
       impact := Clamp(x.impact),
       missing := if absent == [] then x.missing else x.missing + [c.message(x.family, absent)])
  }

  function Verdict(d: Decision, auto: CandidateState): CandidateState {
    match d
    case ConfirmedByAnalyst => Confirmed
    case RejectedByAnalyst => Rejected
    case Unreviewed => auto
  }

  function Priority(c: Catalog, likelihood: int, strength: int, impact: int): int {
    Clamp(c.round(likelihood as real * 0.45 + strength as real * 0.30 + impact as real * 0.25))
  }

  /** The row after a gated insertion. Scores take the maximum, lists merge, the alert and a
      non-empty reference stay; the state comes from this insertion's own scores. */
  function Inserted(c: Catalog, existing: Option<Row>, g: Insertion): Row {
    var state := Verdict(g.decision, StateOf(g.likelihood, g.strength));
    match existing
    case None =>
      Row(g.likelihood, g.strength, g.impact, Priority(c, g.likelihood, g.strength, g.impact), state,
          g.support, g.contradict, g.missing, SortedUnique(g.ruleIds), g.alertId, g.sourceRef)
    case Some(row) =>
      var l, s, i := Max(g.likelihood, row.likelihood), Max(g.strength, row.strength), Max(g.impact, row.impact);
      Row(l, s, i, Priority(c, l, s, i), state,
          Dedup(row.support + g.support), Dedup(row.contradict + g.contradict), Dedup(row.missing + g.missing),
          SortedUnique(Dedup(row.ruleIds + g.ruleIds)), row.alertId,
          if row.sourceRef != "" then row.sourceRef else g.sourceRef)
  }

  datatype CandidateId = CandidateId(analysis: string, fingerprint: string)

  class CandidateStore {
    const c: Catalog
    var rows: map<CandidateId, Row>

    constructor (c: Catalog)
      ensures this.c == c && rows == map[]
    {
      this.c := c;
      rows := map[];
    }

    method InsertCandidate(id: CandidateId, x: Insertion) returns (ok: bool)
      modifies this`rows
      ensures ok <==> x.family in c.families
      ensures !ok ==> rows == old(rows)
      ensures ok ==> rows == old(rows)[id := Inserted(c, if id in old(rows) then Some(old(rows)[id]) else None, Gated(c, x))]
    {
      hide Dedup, SortedUnique, SortBy, StateOf, Priority, Verdict, Max, Absent, Kinds, Clamp;
      if x.family !in c.families { return false; }
      var adjustment, missing := 0, x.missing;
      if x.family in c.schemas {
        var absent := MissingGroups(c.schemas[x.family].requiredAny, Kinds(c, x.support));
        if absent != [] {
          adjustment, missing := -18, x.missing + [c.message(x.family, absent)];
        }
      }
      var likelihood, strength, impact := Clamp(x.likelihood + adjustment), Clamp(x.strength), Clamp(x.impact);
      var auto := StateOf(likelihood, strength);
      var support, contradict, ruleIds := x.support, x.contradict, x.ruleIds;
      var alertId, sourceRef := x.alertId, x.sourceRef;
      if id in rows {
        var row := rows[id];
        support := MergeEvidenceLists(row.support, support);
        contradict := MergeEvidenceLists(row.contradict, contradict);
        missing := Dedup(row.missing + missing);
        ruleIds := Dedup(row.ruleIds + ruleIds);
        likelihood, strength, impact := Max(likelihood, row.likelihood), Max(strength, row.strength), Max(impact, row.impact);
        alertId := row.alertId;
        sourceRef := if row.sourceRef != "" then row.sourceRef else sourceRef;
      }
      rows := rows[id := Row(likelihood, strength, impact, Priority(c, likelihood, strength, impact),
                             Verdict(x.decision, auto), support, contradict, missing, SortedUnique(ruleIds), alertId, sourceRef)];
      ok := true;
    }
  }

  // ----- any number of inserts, and their batch form

  function After(c: Catalog, xs: seq<Insertion>): Option<Row> {
    if xs == [] then None else Some(Inserted(c, After(c, xs[..|xs| - 1]), Gated(c, xs[|xs| - 1])))
  }

  function AllGated(c: Catalog, xs: seq<Insertion>): (gs: seq<Insertion>)
    ensures |gs| == |xs| && forall i :: 0 <= i < |xs| ==> gs[i] == Gated(c, xs[i])
  {
    if xs == [] then [] else AllGated(c, xs[..|xs| - 1]) + [Gated(c, xs[|xs| - 1])]
  }

  function LikelihoodOf(x: Insertion): int { x.likelihood }
  function StrengthOf(x: Insertion): int { x.strength }
  function ImpactOf(x: Insertion): int { x.impact }
  function SupportOf(x: Insertion): seq<Item> { x.support }
  function ContradictOf(x: Insertion): seq<Item> { x.contradict }
  function MissingOf(x: Insertion): seq<string> { x.missing }
  function RuleIdsOf(x: Insertion): seq<string> { x.ruleIds }

  function Highest(score: Insertion -> int, xs: seq<Insertion>): int
    requires xs != []
  {
    if |xs| == 1 then score(xs[0]) else Max(score(xs[|xs| - 1]), Highest(score, xs[..|xs| - 1]))
  }

  /** All values of one field, one insertion after the other. */
  function Collect<T>(field: Insertion -> seq<T>, xs: seq<Insertion>): seq<T> {
    if xs == [] then [] else Collect(field, xs[..|xs| - 1]) + field(xs[|xs| - 1])
  }

  function FirstRef(xs: seq<Insertion>): string {
    if xs == [] then ""
    else if FirstRef(xs[..|xs| - 1]) != "" then FirstRef(xs[..|xs| - 1])
    else xs[|xs| - 1].sourceRef
  }

  // One list after all inserts: as it came the first time, without repetition from the second on.
  function Merged<T(==)>(field: Insertion -> seq<T>, xs: seq<Insertion>): seq<T> {
    if |xs| <= 1 then Collect(field, xs) else Dedup(Collect(field, xs))
  }

  function Batch(c: Catalog, xs: seq<Insertion>): Row
    requires xs != []
  {
    var gs := AllGated(c, xs);
    var likelihood, strength, impact := Highest(LikelihoodOf, gs), Highest(StrengthOf, gs), Highest(ImpactOf, gs);
    var last := gs[|gs| - 1];
    Row(likelihood, strength, impact, Priority(c, likelihood, strength, impact),
        Verdict(last.decision, StateOf(last.likelihood, last.strength)),
        Merged(SupportOf, gs), Merged(ContradictOf, gs), Merged(MissingOf, gs),
        SortedUnique(Collect(RuleIdsOf, gs)), gs[0].alertId, FirstRef(gs))
  }

  lemma MergedStep<T>(field: Insertion -> seq<T>, gs: seq<Insertion>)
    requires |gs| >= 2
    ensures Merged(field, gs) == Dedup(Merged(field, gs[..|gs| - 1]) + field(gs[|gs| - 1]))
  {
    DedupAbsorbs(Collect(field, gs[..|gs| - 1]), field(gs[|gs| - 1]));
  }

  lemma RuleIdsStep(a: seq<string>, b: seq<string>)
    ensures SortedUnique(Dedup(SortedUnique(a) + b)) == SortedUnique(a + b)
  {
    SortedUniqueIs(a);
    DedupMembers(SortedUnique(a) + b);
    SortedUniqueOf(Dedup(SortedUnique(a) + b), a + b);
  }

  /** Inserting one after the other leaves the row the batch form describes. */
  lemma {:induction false} InsertsRefineBatch(c: Catalog, xs: seq<Insertion>)
    requires xs != []
    ensures After(c, xs) == Some(Batch(c, xs))
  {
    hide Dedup, SortedUnique, SortBy, StateOf, Priority, Verdict, Max, Gated, Clamp, AllGated;
    var gs := AllGated(c, xs);
    if |xs| == 1 {
      assert gs[..0] == [];
      assert xs[..0] == [];
      OneInsert(c, gs);
    } else {
      var init := xs[..|xs| - 1];
      InsertsRefineBatch(c, init);
      assert gs[..|gs| - 1] == AllGated(c, init);
      MergedStep(SupportOf, gs);
      MergedStep(ContradictOf, gs);
      MergedStep(MissingOf, gs);
      RuleIdsStep(Collect(RuleIdsOf, gs[..|gs| - 1]), gs[|gs| - 1].ruleIds);
    }
  }

  lemma OneInsert(c: Catalog, gs: seq<Insertion>)
    requires |gs| == 1
    ensures FirstRef(gs) == gs[0].sourceRef
    ensures Collect(SupportOf, gs) == gs[0].support && Collect(ContradictOf, gs) == gs[0].contradict
    ensures Collect(MissingOf, gs) == gs[0].missing && Collect(RuleIdsOf, gs) == gs[0].ruleIds
  {
    assert gs[..0] == [];
    assert Collect(SupportOf, gs) == [] + gs[0].support;
    assert Collect(ContradictOf, gs) == [] + gs[0].contradict;
    assert Collect(MissingOf, gs) == [] + gs[0].missing;
    assert Collect(RuleIdsOf, gs) == [] + gs[0].ruleIds;
  }

  // ----- what the batch form means

  ghost predicate Somewhere<T>(field: Insertion -> seq<T>, xs: seq<Insertion>, v: T) {
    exists i :: 0 <= i < |xs| && v in field(xs[i])
  }

  lemma {:induction false} CollectMembers<T>(field: Insertion -> seq<T>, xs: seq<Insertion>)
    ensures forall v :: v in Collect(field, xs) <==> Somewhere(field, xs, v)
  {
    if xs != [] {
      var init, last := xs[..|xs| - 1], xs[|xs| - 1];
      CollectMembers(field, init);
      forall v ensures v in Collect(field, xs) <==> Somewhere(field, xs, v) {
        assert v in Collect(field, xs) <==> v in Collect(field, init) || v in field(last);
        if v in Collect(field, init) {
          var i :| 0 <= i < |init| && v in field(init[i]);
          assert xs[i] == init[i];
        }
        if Somewhere(field, xs, v) {
          var i :| 0 <= i < |xs| && v in field(xs[i]);
          assert i < |init| ==> v in field(init[i]);
        }
      }
    }
  }

  lemma MergedMembers<T>(field: Insertion -> seq<T>, xs: seq<Insertion>)
    ensures forall v :: v in Merged(field, xs) <==> Somewhere(field, xs, v)
    ensures |xs| >= 2 ==> forall i, j :: 0 <= i < j < |Merged(field, xs)| ==> Merged(field, xs)[i] != Merged(field, xs)[j]
  {
    CollectMembers(field, xs);
    DedupMembers(Collect(field, xs));
  }

  /** No evidence is lost and none appears from nowhere; from the second insert on no list repeats an item. */
  lemma {:induction false} NothingLost(c: Catalog, xs: seq<Insertion>)
    requires xs != []
    ensures var row, gs := Batch(c, xs), AllGated(c, xs);
            && (forall v :: v in row.support <==> Somewhere(SupportOf, gs, v))
            && (forall v :: v in row.contradict <==> Somewhere(ContradictOf, gs, v))
            && (forall v :: v in row.missing <==> Somewhere(MissingOf, gs, v))
            && (forall v :: v in row.ruleIds <==> Somewhere(RuleIdsOf, gs, v))
            && Ascending(row.ruleIds)
    ensures var row := Batch(c, xs);
            |xs| >= 2 ==>
              && (forall i, j :: 0 <= i < j < |row.support| ==> row.support[i] != row.support[j])
              && (forall i, j :: 0 <= i < j < |row.contradict| ==> row.contradict[i] != row.contradict[j])
              && (forall i, j :: 0 <= i < j < |row.missing| ==> row.missing[i] != row.missing[j])
  {
    var gs := AllGated(c, xs);
    MergedMembers(SupportOf, gs);
    MergedMembers(ContradictOf, gs);
    MergedMembers(MissingOf, gs);
    CollectMembers(RuleIdsOf, gs);
    SortedUniqueIs(Collect(RuleIdsOf, gs));
  }

  lemma {:induction false} HighestIs(score: Insertion -> int, xs: seq<Insertion>)
    requires xs != []
    ensures forall x :: x in xs ==> score(x) <= Highest(score, xs)
    ensures exists x :: x in xs && score(x) == Highest(score, xs)
  {
    if |xs| == 1 {
      assert xs[0] in xs;
    } else {
      var init, last := xs[..|xs| - 1], xs[|xs| - 1];
      HighestIs(score, init);
      assert xs == init + [last];
      assert last in xs;
      var x :| x in init && score(x) == Highest(score, init);
      assert x in xs;
    }
  }

  lemma HighestOf(score: Insertion -> int, xs: seq<Insertion>, ys: seq<Insertion>)
    requires xs != [] && ys != [] && forall x :: x in xs <==> x in ys
    ensures Highest(score, xs) == Highest(score, ys)
  {
    HighestIs(score, xs);
    HighestIs(score, ys);
  }

  /** Every stored score is the largest of the clamped scores that came in. */
  lemma {:induction false} ScoresAreMaxima(c: Catalog, xs: seq<Insertion>)
    requires xs != []
    ensures var row := Batch(c, xs);
            forall x :: x in xs ==> Gated(c, x).likelihood <= row.likelihood && Clamp(x.strength) <= row.strength && Clamp(x.impact) <= row.impact
    ensures var row := Batch(c, xs);
            && (exists x :: x in xs && Gated(c, x).likelihood == row.likelihood)
            && (exists x :: x in xs && Clamp(x.strength) == row.strength)
            && (exists x :: x in xs && Clamp(x.impact) == row.impact)
  {
    var gs := AllGated(c, xs);
    HighestIs(LikelihoodOf, gs);
    HighestIs(StrengthOf, gs);
    HighestIs(ImpactOf, gs);
    forall x | x in xs ensures Gated(c, x) in gs {
      var i :| 0 <= i < |xs| && xs[i] == x;
      assert gs[i] == Gated(c, x);
    }
    forall g | g in gs ensures exists x :: x in xs && Gated(c, x) == g {
      var i :| 0 <= i < |gs| && gs[i] == g;
      assert xs[i] in xs;
    }
  }

  lemma {:induction false} GatedMembers(c: Catalog, xs: seq<Insertion>, ys: seq<Insertion>)
    requires forall x :: x in xs ==> x in ys
    ensures forall g :: g in AllGated(c, xs) ==> g in AllGated(c, ys)
  {
    var gs, hs := AllGated(c, xs), AllGated(c, ys);
    forall g | g in gs ensures g in hs {
      var i :| 0 <= i < |gs| && gs[i] == g;
      assert xs[i] in ys;
      var j :| 0 <= j < |ys| && ys[j] == xs[i];
      assert hs[j] == g;
    }
  }

  lemma SomewhereOf<T>(field: Insertion -> seq<T>, xs: seq<Insertion>, ys: seq<Insertion>)
    requires forall x :: x in xs ==> x in ys
    ensures forall v :: Somewhere(field, xs, v) ==> Somewhere(field, ys, v)
  {
    forall v | Somewhere(field, xs, v) ensures Somewhere(field, ys, v) {
      var i :| 0 <= i < |xs| && v in field(xs[i]);
      assert xs[i] in ys;
      var j :| 0 <= j < |ys| && ys[j] == xs[i];
      assert v in field(ys[j]);
    }
  }

  lemma SameMerged<T>(field: Insertion -> seq<T>, xs: seq<Insertion>, ys: seq<Insertion>)
    requires forall x :: x in xs <==> x in ys
    ensures forall v :: v in Merged(field, xs) <==> v in Merged(field, ys)
    ensures forall v :: v in Collect(field, xs) <==> v in Collect(field, ys)
  {
    SomewhereOf(field, xs, ys);
    SomewhereOf(field, ys, xs);
    MergedMembers(field, xs);
    MergedMembers(field, ys);
    CollectMembers(field, xs);
    CollectMembers(field, ys);
  }

  /** The order of the inserts, and repeating some of them, changes no score, no rule id and no set of evidence. */
  lemma OrderIsIrrelevant(c: Catalog, xs: seq<Insertion>, ys: seq<Insertion>)
    requires xs != [] && ys != [] && forall x :: x in xs <==> x in ys
    ensures var a, b := Batch(c, xs), Batch(c, ys);
            && a.likelihood == b.likelihood && a.strength == b.strength && a.impact == b.impact && a.priority == b.priority
            && a.ruleIds == b.ruleIds
            && (forall v :: v in a.support <==> v in b.support)
            && (forall v :: v in a.contradict <==> v in b.contradict)
            && (forall v :: v in a.missing <==> v in b.missing)
  {
    var gs, hs := AllGated(c, xs), AllGated(c, ys);
    GatedMembers(c, xs, ys);
    GatedMembers(c, ys, xs);
    HighestOf(LikelihoodOf, gs, hs);
    HighestOf(StrengthOf, gs, hs);
    HighestOf(ImpactOf, gs, hs);
    SameMerged(SupportOf, gs, hs);
    SameMerged(ContradictOf, gs, hs);
    SameMerged(MissingOf, gs, hs);
    SameMerged(RuleIdsOf, gs, hs);
    SortedUniqueOf(Collect(RuleIdsOf, gs), Collect(RuleIdsOf, hs));
  }

  // ----- the stored state

  /** The earlier scores lift the merged row over a threshold that the new scores alone miss. */
  predicate Lifted(row: Row, g: Insertion) {
    || (g.likelihood < 35 <= row.likelihood)
    || (g.likelihood < 55 <= row.likelihood)
    || (!(g.likelihood >= 75 && g.strength >= 60) &&
        (g.likelihood >= 75 || row.likelihood >= 75) && (g.strength >= 60 || row.strength >= 60))
  }

  /** The state is chosen before the scores are merged, so it fits them unless an unreviewed row was lifted. */
  lemma StateFitsScores(c: Catalog, row: Row, g: Insertion)
    ensures var r := Inserted(c, Some(row), g);
            r.state == Verdict(g.decision, StateOf(r.likelihood, r.strength)) <==> g.decision != Unreviewed || !Lifted(row, g)
  {
  }

  /** A strong candidate that is seen again with weak evidence is stored as a weak signal beside its strong scores. */
  lemma StateCanLag(c: Catalog, x: Insertion, y: Insertion)
    requires x.family !in c.schemas && y.family !in c.schemas && y.decision == Unreviewed
    requires x.likelihood == 80 && x.strength == 70 && y.likelihood == 10 && y.strength == 10
    ensures var r := After(c, [x, y]);
            r.Some? && r.value.state == WeakSignal && StateOf(r.value.likelihood, r.value.strength) == StrongCandidate
  {
    assert [x, y][..1] == [x];
    assert After(c, [x]) == Some(Inserted(c, None, Gated(c, x)));
  }

  // ----- what one insert stores, by its arguments

  /** Cut to 0 to 100. */
  predicate IsCut(v: int, r: int) { 0 <= r <= 100 && (v < 0 ==> r == 0) && (v > 100 ==> r == 100) && (0 <= v <= 100 ==> r == v) }

  /** The family asks for evidence of one of these types, and no supporting item is of one. */
  ghost predicate Unsupported(c: Catalog, x: Insertion, group: set<string>) {
    && x.family in c.schemas && group in c.schemas[x.family].requiredAny
    && forall item :: item in x.support ==> c.kind(item) !in group
  }

  lemma {:induction false} AbsentAre(groups: seq<set<string>>, kinds: set<string>)
    ensures forall g :: g in Absent(groups, kinds) <==> g in groups && g !! kinds
  {
    if groups != [] {
      var init, last := groups[..|groups| - 1], groups[|groups| - 1];
      AbsentAre(init, kinds);
      assert groups == init + [last];
    }
  }

  lemma NoKindIn(c: Catalog, support: seq<Item>, group: set<string>)
    ensures group !! Kinds(c, support) <==> forall item :: item in support ==> c.kind(item) !in group
  {
    if group !! Kinds(c, support) {
      forall item | item in support ensures c.kind(item) !in group { assert c.kind(item) in Kinds(c, support); }
    }
  }

  /** A family with an unsupported group costs 18 points of likelihood and adds one message to what is missing;
      all scores are cut to 0 to 100; nothing else of the insertion changes. */
  lemma {:induction false} WhatIsGated(c: Catalog, x: Insertion)
    ensures var g := Gated(c, x);
            && g == x.(likelihood := g.likelihood, strength := g.strength, impact := g.impact, missing := g.missing)
            && IsCut(x.strength, g.strength) && IsCut(x.impact, g.impact)
            && ((exists group :: Unsupported(c, x, group)) ==>
                  IsCut(x.likelihood - 18, g.likelihood) &&
                  exists absent :: g.missing == x.missing + [c.message(x.family, absent)] && forall group :: group in absent <==> Unsupported(c, x, group))
            && (!(exists group :: Unsupported(c, x, group)) ==> IsCut(x.likelihood, g.likelihood) && g.missing == x.missing)
  {
    if x.family in c.schemas {
      var groups, kinds := c.schemas[x.family].requiredAny, Kinds(c, x.support);
      AbsentAre(groups, kinds);
      hide Absent;
      if Absent(groups, kinds) != [] {
        var group := Absent(groups, kinds)[0];
        assert group in Absent(groups, kinds);
        NoKindIn(c, x.support, group);
        assert Unsupported(c, x, group);
        var absent := Absent(groups, kinds);
        forall g: set<string> ensures g in absent <==> Unsupported(c, x, g) { NoKindIn(c, x.support, g); }
        assert Gated(c, x).missing == x.missing + [c.message(x.family, absent)];
      }
      if group :| Unsupported(c, x, group) { NoKindIn(c, x.support, group); }
    }
  }

  /** The state is the analyst's word if there is one; else strong from 75 likelihood and 60 strength, plausible
      from 55 likelihood, possible from 35, weak below. */
  lemma WhatTheStateIs(c: Catalog, existing: Option<Row>, g: Insertion)
    ensures var s := Inserted(c, existing, g).state;
            && (s == Confirmed <==> g.decision == ConfirmedByAnalyst)
            && (s == Rejected <==> g.decision == RejectedByAnalyst)
            && (g.decision == Unreviewed ==>
                  && (s == StrongCandidate <==> g.likelihood >= 75 && g.strength >= 60)
                  && (s == Plausible <==> g.likelihood >= 55 && (g.likelihood < 75 || g.strength < 60))
                  && (s == Possible <==> 35 <= g.likelihood < 55)
                  && (s == WeakSignal <==> g.likelihood < 35))
  {
    hide Dedup, SortedUnique, Priority;
  }

  /** Scores grow to the larger one; the priority weighs them 45 to 30 to 25; the first alert and the first
      reference that is not empty stay. */
  lemma WhatTheScoresAre(c: Catalog, existing: Option<Row>, g: Insertion)
    ensures var row := Inserted(c, existing, g);
            && (existing == None ==> row.likelihood == g.likelihood && row.strength == g.strength && row.impact == g.impact
                                     && row.alertId == g.alertId && row.sourceRef == g.sourceRef)
            && (existing.Some? ==>
                  && row.likelihood >= g.likelihood && row.likelihood >= existing.value.likelihood
                  && (row.likelihood == g.likelihood || row.likelihood == existing.value.likelihood)
                  && row.strength >= g.strength && row.strength >= existing.value.strength
                  && (row.strength == g.strength || row.strength == existing.value.strength)
                  && row.impact >= g.impact && row.impact >= existing.value.impact
                  && (row.impact == g.impact || row.impact == existing.value.impact)
                  && row.alertId == existing.value.alertId
                  && row.sourceRef == (if existing.value.sourceRef == "" then g.sourceRef else existing.value.sourceRef))
            && IsCut(c.round((45 * row.likelihood + 30 * row.strength + 25 * row.impact) as real / 100.0), row.priority)
  {
    hide Dedup, SortedUnique, Verdict, StateOf;
    var row := Inserted(c, existing, g);
    WeightsInHundredths(row.likelihood, row.strength, row.impact);
  }

  lemma WeightsInHundredths(l: int, s: int, i: int)
    ensures l as real * 0.45 + s as real * 0.30 + i as real * 0.25 == (45 * l + 30 * s + 25 * i) as real / 100.0
  {
  }
}
