/** Binding each analysis of a run to the analysis of an earlier run it is compared with. */
module BehavioralBaselines {
  import opened Options
  import opened Ordering

  type RunId = string
  type AnalysisId = string
  type Target = string

  /** A `runs` row; its position in the table is its rowid. */
  datatype RunRow = RunRow(id: RunId, startedAt: int)

  datatype Status = Running | Succeeded | Failed

  /** `targets` are those the analysis is about or has stored results for. */
  datatype Analysis = Analysis(sourceRun: RunId, status: Status, startedAt: int, finishedAt: Option<int>, targets: set<Target>)

  datatype BindingId = BindingId(analysis: AnalysisId, target: Target)

  datatype Binding = Binding(sourceRun: RunId, baseline: Option<AnalysisId>)

  datatype Db = Db(runs: seq<RunRow>, analyses: map<AnalysisId, Analysis>, bindings: map<BindingId, Binding>)

  // ----- the order of runs

  predicate HasRow(runs: seq<RunRow>, run: RunId) { exists i :: 0 <= i < |runs| && runs[i].id == run }

  predicate RowBefore(runs: seq<RunRow>, i: nat, j: nat)
    requires i < |runs| && j < |runs|
  {
    runs[i].startedAt < runs[j].startedAt || (runs[i].startedAt == runs[j].startedAt && i < j)
  }

  predicate DistinctRows(runs: seq<RunRow>) {
    forall i, j :: 0 <= i < j < |runs| ==> runs[i].id != runs[j].id
  }

  /** Strictly earlier by start time, and by rowid among equal start times. */
  predicate Earlier(runs: seq<RunRow>, a: RunId, b: RunId) {
    exists i, j :: 0 <= i < |runs| && 0 <= j < |runs| && runs[i].id == a && runs[j].id == b && RowBefore(runs, i, j)
  }

  lemma {:induction false} EarlierIsStrictOrder(runs: seq<RunRow>, a: RunId, b: RunId, c: RunId)
    requires DistinctRows(runs)
    ensures Earlier(runs, a, b) && Earlier(runs, b, c) ==> Earlier(runs, a, c)
    ensures !Earlier(runs, a, a)
    ensures HasRow(runs, a) && HasRow(runs, b) && a != b ==> Earlier(runs, a, b) || Earlier(runs, b, a)
  {
    if Earlier(runs, a, b) && Earlier(runs, b, c) {
      var i, j :| 0 <= i < |runs| && 0 <= j < |runs| && runs[i].id == a && runs[j].id == b && RowBefore(runs, i, j);
      var k, m :| 0 <= k < |runs| && 0 <= m < |runs| && runs[k].id == b && runs[m].id == c && RowBefore(runs, k, m);
      assert j == k;
      assert RowBefore(runs, i, m);
    }
    if HasRow(runs, a) && HasRow(runs, b) && a != b {
      var i :| 0 <= i < |runs| && runs[i].id == a;
      var j :| 0 <= j < |runs| && runs[j].id == b;
      assert RowBefore(runs, i, j) || RowBefore(runs, j, i);
    }
  }

  // ----- the two queries

  function EndTime(a: Analysis): int { if a.finishedAt.Some? then a.finishedAt.value else a.startedAt }

  /** A successful analysis of another run that already has a baseline for this run and target. */
  predicate AlreadyBound(db: Db, self: AnalysisId, run: RunId, t: Target, other: AnalysisId) {
    && other != self && BindingId(other, t) in db.bindings && db.bindings[BindingId(other, t)].sourceRun == run
    && other in db.analyses && db.analyses[other].status == Succeeded
  }

  /** A successful analysis of the target, made from another run. */
  predicate Comparable(db: Db, self: AnalysisId, run: RunId, t: Target, c: AnalysisId) {
    && c != self && c in db.analyses && db.analyses[c].status == Succeeded
    && db.analyses[c].sourceRun != run && t in db.analyses[c].targets
  }

  predicate Candidate(db: Db, self: AnalysisId, run: RunId, t: Target, c: AnalysisId) {
    && Comparable(db, self, run, t, c)
    && if HasRow(db.runs, run) then Earlier(db.runs, db.analyses[c].sourceRun, run)
       else EndTime(db.analyses[c]) < if self in db.analyses then db.analyses[self].startedAt else 0
  }

  /** No candidate comes later in the query's order. */
  predicate Latest(db: Db, self: AnalysisId, run: RunId, t: Target, c: AnalysisId) {
    && Candidate(db, self, run, t, c)
    && forall d :: d in db.analyses && Candidate(db, self, run, t, d) ==> !Later(db, HasRow(db.runs, run), d, c)
  }

  predicate Later(db: Db, byRun: bool, d: AnalysisId, c: AnalysisId)
    requires d in db.analyses && c in db.analyses
  {
    var x, y := db.analyses[d], db.analyses[c];
    || (byRun && Earlier(db.runs, y.sourceRun, x.sourceRun))
    || ((!byRun || x.sourceRun == y.sourceRun) && EndTime(x) > EndTime(y))
  }

  /** The baseline that a call may choose. The ORDER BY of the first query fixes which bound
      analysis is read, and SharedBaseline below shows that it does not matter. */
  predicate Choice(db: Db, self: AnalysisId, run: RunId, t: Target, baseline: Option<AnalysisId>) {
    if exists o :: o in db.analyses && AlreadyBound(db, self, run, t, o) then
      exists o :: o in db.analyses && AlreadyBound(db, self, run, t, o) && baseline == db.bindings[BindingId(o, t)].baseline
    else if exists c :: c in db.analyses && Candidate(db, self, run, t, c) then
      baseline.Some? && Latest(db, self, run, t, baseline.value)
    else baseline == None
  }

  // ----- serial execution

  datatype Step =
    | AddRun(row: RunRow)
    | Start(analysis: AnalysisId, run: RunId, at: int, targets: set<Target>)
    | StoreResult(target: Target)
    | Bind(target: Target, baseline: Option<AnalysisId>)
    | Finish(succeeded: bool, at: int)

  /** The database and the analysis that is under way. */
  datatype State = State(db: Db, current: Option<AnalysisId>)

  /** The row of a run, which may come after analyses of that run, leaves their baselines earlier than it. */
  predicate FitsBindings(db: Db, row: RunRow) {
    forall id :: id in db.bindings && db.bindings[id].sourceRun == row.id && db.bindings[id].baseline.Some? ==>
      var b := db.bindings[id].baseline.value;
      b in db.analyses && Earlier(db.runs + [row], db.analyses[b].sourceRun, row.id)
  }

  predicate Enabled(s: State, step: Step) {
    match step
    case AddRun(row) => !HasRow(s.db.runs, row.id) && FitsBindings(s.db, row)
    case Start(a, run, at, targets) => s.current.None? && a !in s.db.analyses
    case StoreResult(t) => s.current.Some? && s.current.value in s.db.analyses
    case Bind(t, baseline) => s.current.Some? && s.current.value in s.db.analyses &&
                              Choice(s.db, s.current.value, s.db.analyses[s.current.value].sourceRun, t, baseline)
    case Finish(succeeded, at) => s.current.Some? && s.current.value in s.db.analyses
  }

  function Do(s: State, step: Step): State
    requires Enabled(s, step)
  {
    var db := s.db;
    match step
    case AddRun(row) => s.(db := db.(runs := db.runs + [row]))
    case Start(a, run, at, targets) =>
      State(db.(analyses := db.analyses[a := Analysis(run, Running, at, None, targets)]), Some(a))
    case StoreResult(t) =>
      var x := db.analyses[s.current.value];
      s.(db := db.(analyses := db.analyses[s.current.value := x.(targets := x.targets + {t})]))
    case Bind(t, baseline) => s.(db := WithBinding(db, s.current.value, db.analyses[s.current.value].sourceRun, t, baseline))
    case Finish(succeeded, at) =>
      var x := db.analyses[s.current.value];
      State(db.(analyses := db.analyses[s.current.value := x.(status := if succeeded then Succeeded else Failed, finishedAt := Some(at))]), None)
  }

  function WithBinding(db: Db, a: AnalysisId, run: RunId, t: Target, baseline: Option<AnalysisId>): Db {
    db.(bindings := db.bindings[BindingId(a, t) := Binding(run, baseline)])
  }

  // ----- invariants

  ghost predicate BindingInv(db: Db, id: BindingId)
    requires id in db.bindings
  {
    var b := db.bindings[id];
    && id.analysis in db.analyses && b.sourceRun == db.analyses[id.analysis].sourceRun
    && (b.baseline.Some? ==>
          && b.baseline.value in db.analyses && db.analyses[b.baseline.value].status == Succeeded
          && (HasRow(db.runs, b.sourceRun) ==> Earlier(db.runs, db.analyses[b.baseline.value].sourceRun, b.sourceRun)))
  }

  // Bindings of analyses that have not failed agree.
  ghost predicate Agree(db: Db, x: BindingId, y: BindingId)
    requires x in db.bindings && y in db.bindings
  {
    x.target == y.target && db.bindings[x].sourceRun == db.bindings[y].sourceRun &&
    x.analysis in db.analyses && db.analyses[x.analysis].status == Succeeded &&
    y.analysis in db.analyses && db.analyses[y.analysis].status != Failed
    ==> db.bindings[x].baseline == db.bindings[y].baseline
  }

  ghost predicate Inv(s: State) {
    && DistinctRows(s.db.runs)
    && (forall id :: id in s.db.bindings ==> BindingInv(s.db, id))
    && (forall x, y :: x in s.db.bindings && y in s.db.bindings ==> Agree(s.db, x, y))
    && (s.current.Some? ==> s.current.value in s.db.analyses && s.db.analyses[s.current.value].status == Running)
    && (forall a :: a in s.db.analyses && s.db.analyses[a].status == Running ==> s.current == Some(a))
  }

  lemma EarlierGrows(runs: seq<RunRow>, row: RunRow, a: RunId, b: RunId)
    requires !HasRow(runs, row.id)
    ensures Earlier(runs, a, b) ==> Earlier(runs + [row], a, b)
    ensures b != row.id ==> (HasRow(runs + [row], b) <==> HasRow(runs, b))
  {
    var longer := runs + [row];
    if Earlier(runs, a, b) {
      var i, j :| 0 <= i < |runs| && 0 <= j < |runs| && runs[i].id == a && runs[j].id == b && RowBefore(runs, i, j);
      assert longer[i].id == a && longer[j].id == b && RowBefore(longer, i, j);
    }
    if b != row.id {
      if HasRow(runs, b) {
        var i :| 0 <= i < |runs| && runs[i].id == b;
        assert longer[i].id == b;
      }
      if HasRow(longer, b) {
        var i :| 0 <= i < |longer| && longer[i].id == b;
        assert runs[i].id == b;
      }
    }
  }

  function WithRow(s: State, row: RunRow): State { s.(db := s.db.(runs := s.db.runs + [row])) }

  /** A new run row keeps the invariant exactly when it fits the bindings of that run; without analyses
      of the run it always does. */
  lemma {:induction false} WhenRowsFit(s: State, row: RunRow)
    requires Inv(s) && !HasRow(s.db.runs, row.id)
    ensures Inv(WithRow(s, row)) <==> FitsBindings(s.db, row)
    ensures (forall a :: a in s.db.analyses ==> s.db.analyses[a].sourceRun != row.id) ==> FitsBindings(s.db, row)
  {
    var s' := WithRow(s, row);
    assert s'.db.runs[|s.db.runs|] == row;
    assert HasRow(s'.db.runs, row.id);
    forall id | id in s.db.bindings
      ensures BindingInv(s'.db, id) <==>
              (s.db.bindings[id].sourceRun == row.id && s.db.bindings[id].baseline.Some? ==>
                 Earlier(s'.db.runs, s.db.analyses[s.db.bindings[id].baseline.value].sourceRun, row.id))
      ensures BindingInv(s.db, id)
    {
      assert BindingInv(s.db, id);
      var b := s.db.bindings[id];
      if b.baseline.Some? {
        EarlierGrows(s.db.runs, row, s.db.analyses[b.baseline.value].sourceRun, b.sourceRun);
      }
    }
    assert forall x, y :: x in s.db.bindings && y in s.db.bindings ==> (Agree(s'.db, x, y) <==> Agree(s.db, x, y));
    hide Earlier, BindingInv, Agree;
    forall i, j | 0 <= i < j < |s'.db.runs| ensures s'.db.runs[i].id != s'.db.runs[j].id {
      if j == |s.db.runs| { assert s.db.runs[i].id != row.id; }
    }
  }

  lemma AddRunKeepsInv(s: State, row: RunRow)
    requires Inv(s) && Enabled(s, AddRun(row))
    ensures Inv(Do(s, AddRun(row)))
  {
    WhenRowsFit(s, row);
    hide Inv, FitsBindings;
  }

  // Steps that only touch the current analysis's own row.
  lemma RowChangeKeepsInv(s: State, a: AnalysisId, x: Analysis, current: Option<AnalysisId>)
    requires Inv(s)
    requires a !in s.db.analyses ==> s.current.None? && x.status == Running && current == Some(a)
    requires a in s.db.analyses ==> s.current == Some(a) && x.sourceRun == s.db.analyses[a].sourceRun &&
                                    current == if x.status == Running then Some(a) else None
    ensures Inv(State(s.db.(analyses := s.db.analyses[a := x]), current))
  {
    var s' := State(s.db.(analyses := s.db.analyses[a := x]), current);
    forall id | id in s'.db.bindings ensures BindingInv(s'.db, id) {
      assert BindingInv(s.db, id);
    }
    forall u, v | u in s'.db.bindings && v in s'.db.bindings ensures Agree(s'.db, u, v) {
      assert BindingInv(s.db, u) && BindingInv(s.db, v);
      assert Agree(s.db, u, v) && Agree(s.db, v, u);
    }
  }

  lemma {:induction false} BindKeepsInv(s: State, t: Target, baseline: Option<AnalysisId>)
    requires Inv(s) && Enabled(s, Bind(t, baseline))
    ensures Inv(Do(s, Bind(t, baseline)))
  {
    var s', a := Do(s, Bind(t, baseline)), s.current.value;
    var id, run := BindingId(a, t), s.db.analyses[a].sourceRun;
    ChoiceIsSound(s, t, baseline);
    forall i | i in s'.db.bindings ensures BindingInv(s'.db, i) {
      if i != id { assert BindingInv(s.db, i); }
    }
    forall x, y | x in s'.db.bindings && y in s'.db.bindings ensures Agree(s'.db, x, y) {
      if x != id && y != id {
        assert Agree(s.db, x, y);
      }
    }
  }

  /** The chosen baseline is a successful analysis of a strictly earlier run, and it is
      the one that every successful analysis of the same run and target already has. */
  lemma ChoiceIsSound(s: State, t: Target, baseline: Option<AnalysisId>)
    requires Inv(s) && Enabled(s, Bind(t, baseline))
    ensures var a := s.current.value; var run := s.db.analyses[a].sourceRun;
            && BindingInv(WithBinding(s.db, a, run, t, baseline), BindingId(a, t))
            && forall o :: BindingId(o, t) in s.db.bindings && AlreadyBound(s.db, a, run, t, o) ==>
                 s.db.bindings[BindingId(o, t)].baseline == baseline
  {
    var db, a := s.db, s.current.value;
    var run := db.analyses[a].sourceRun;
    if exists o :: o in db.analyses && AlreadyBound(db, a, run, t, o) {
      var o :| o in db.analyses && AlreadyBound(db, a, run, t, o) && baseline == db.bindings[BindingId(o, t)].baseline;
      assert BindingInv(db, BindingId(o, t));
      forall u | BindingId(u, t) in db.bindings && AlreadyBound(db, a, run, t, u)
        ensures db.bindings[BindingId(u, t)].baseline == baseline
      {
        assert Agree(db, BindingId(u, t), BindingId(o, t));
      }
    } else if baseline.Some? {
      assert Candidate(db, a, run, t, baseline.value);
    }
  }

  lemma {:induction false} StepKeepsInv(s: State, step: Step)
    requires Inv(s) && Enabled(s, step)
    ensures Inv(Do(s, step))
  {
    match step
    case AddRun(row) => AddRunKeepsInv(s, row);
    case Start(a, run, at, targets) => RowChangeKeepsInv(s, a, Analysis(run, Running, at, None, targets), Some(a));
    case StoreResult(t) =>
      var x := s.db.analyses[s.current.value];
      RowChangeKeepsInv(s, s.current.value, x.(targets := x.targets + {t}), s.current);
    case Bind(t, baseline) => BindKeepsInv(s, t, baseline);
    case Finish(succeeded, at) =>
      var x := s.db.analyses[s.current.value];
      RowChangeKeepsInv(s, s.current.value, x.(status := if succeeded then Succeeded else Failed, finishedAt := Some(at)), None);
  }

  predicate Reaches(s: State, steps: seq<Step>, s': State)
    decreases steps
  {
    if steps == [] then s' == s else Enabled(s, steps[0]) && Reaches(Do(s, steps[0]), steps[1..], s')
  }

  const INITIAL := State(Db([], map[], map[]), None)

  lemma {:induction false} ReachedInv(s: State, steps: seq<Step>, s': State)
    requires Inv(s) && Reaches(s, steps, s')
    ensures Inv(s')
    decreases steps
  {
    if steps != [] {
      StepKeepsInv(s, steps[0]);
      ReachedInv(Do(s, steps[0]), steps[1..], s');
    }
  }

  /** In every serial history all successful analyses of one run and target share one baseline. */
  lemma SharedBaseline(steps: seq<Step>, s: State, x: BindingId, y: BindingId)
    requires Reaches(INITIAL, steps, s)
    requires x in s.db.bindings && y in s.db.bindings && x.target == y.target
    requires s.db.bindings[x].sourceRun == s.db.bindings[y].sourceRun
    requires x.analysis in s.db.analyses && s.db.analyses[x.analysis].status == Succeeded
    requires y.analysis in s.db.analyses && s.db.analyses[y.analysis].status == Succeeded
    ensures s.db.bindings[x].baseline == s.db.bindings[y].baseline
  {
    ReachedInv(INITIAL, steps, s);
    assert Agree(s.db, x, y);
  }

  // ----- following baselines

  /** The runs met by following baselines for one target. */
  function Chain(db: Db, a: AnalysisId, t: Target, fuel: nat): seq<RunId>
    decreases fuel
  {
    if a !in db.analyses then []
    else
      var id := BindingId(a, t);
      [db.analyses[a].sourceRun] +
      if fuel == 0 || id !in db.bindings || db.bindings[id].baseline.None? then []
      else Chain(db, db.bindings[id].baseline.value, t, fuel - 1)
  }

  predicate Ends(db: Db, a: AnalysisId, t: Target, fuel: nat)
    decreases fuel
  {
    var id := BindingId(a, t);
    || a !in db.analyses || id !in db.bindings || db.bindings[id].baseline.None?
    || (fuel > 0 && Ends(db, db.bindings[id].baseline.value, t, fuel - 1))
  }

  function Row(runs: seq<RunRow>, run: RunId): (i: nat)
    requires HasRow(runs, run)
    ensures i < |runs| && runs[i].id == run
  {
    if runs[0].id == run then 0 else
      assert HasRow(runs[1..], run) by {
        var j :| 0 <= j < |runs| && runs[j].id == run;
        assert runs[1..][j - 1].id == run;
      }
      1 + Row(runs[1..], run)
  }

  /** How many rows come before. */
  function Rank(runs: seq<RunRow>, run: RunId): nat
    requires HasRow(runs, run)
  {
    |set i: nat | i < |runs| && RowBefore(runs, i, Row(runs, run))|
  }

  lemma RankFalls(runs: seq<RunRow>, a: RunId, b: RunId)
    requires DistinctRows(runs) && Earlier(runs, a, b)
    ensures HasRow(runs, a) && HasRow(runs, b) && Rank(runs, a) < Rank(runs, b) < |runs|
  {
    var i, j :| 0 <= i < |runs| && 0 <= j < |runs| && runs[i].id == a && runs[j].id == b && RowBefore(runs, i, j);
    assert HasRow(runs, a) && HasRow(runs, b);
    assert Row(runs, a) == i && Row(runs, b) == j;
    var x := set k: nat | k < |runs| && RowBefore(runs, k, i);
    var y := set k: nat | k < |runs| && RowBefore(runs, k, j);
    assert x < y by { assert i in y && i !in x; }
    Smaller(x, y);
    var all := Numbers(|runs|);
    assert y < all by { assert j in all && j !in y; }
    Smaller(y, all);
  }

  function Numbers(n: nat): (s: set<nat>)
    ensures |s| == n && forall k: nat :: k in s <==> k < n
  {
    if n == 0 then {} else Numbers(n - 1) + {n - 1}
  }

  lemma Smaller<T>(x: set<T>, y: set<T>)
    requires x < y
    ensures |x| < |y|
  {
    assert y == x + (y - x);
    assert y - x != {};
  }

  /** Every run after the first is strictly earlier than the one before it. */
  predicate Descends(runs: seq<RunRow>, chain: seq<RunId>) {
    forall i :: 0 <= i < |chain| - 1 ==> Earlier(runs, chain[i + 1], chain[i])
  }

  lemma {:induction false} ChainDescends(s: State, a: AnalysisId, t: Target, fuel: nat)
    requires Inv(s) && a in s.db.analyses && HasRow(s.db.runs, s.db.analyses[a].sourceRun)
    ensures Descends(s.db.runs, Chain(s.db, a, t, fuel))
    ensures fuel >= Rank(s.db.runs, s.db.analyses[a].sourceRun) ==> Ends(s.db, a, t, fuel)
    decreases fuel
  {
    var id := BindingId(a, t);
    if id in s.db.bindings && s.db.bindings[id].baseline.Some? {
      assert BindingInv(s.db, id);
      var b := s.db.bindings[id].baseline.value;
      RankFalls(s.db.runs, s.db.analyses[b].sourceRun, s.db.analyses[a].sourceRun);
      if fuel > 0 {
        ChainDescends(s, b, t, fuel - 1);
        var rest := Chain(s.db, b, t, fuel - 1);
        assert Chain(s.db, a, t, fuel) == [s.db.analyses[a].sourceRun] + rest;
        assert rest[0] == s.db.analyses[b].sourceRun;
      }
    }
  }

  lemma {:induction false} DescendsFar(runs: seq<RunRow>, chain: seq<RunId>, i: nat, j: nat)
    requires DistinctRows(runs) && Descends(runs, chain) && i < j < |chain|
    ensures Earlier(runs, chain[j], chain[i])
    decreases j
  {
    if i < j - 1 {
      DescendsFar(runs, chain, i, j - 1);
      EarlierIsStrictOrder(runs, chain[j], chain[j - 1], chain[i]);
    }
    assert Earlier(runs, chain[j - 1 + 1], chain[j - 1]);
  }

  /** Following baselines meets strictly earlier runs, never the same run twice, and ends
      after fewer steps than there are runs. */
  lemma FollowingBaselinesEnds(steps: seq<Step>, s: State, a: AnalysisId, t: Target)
    requires Reaches(INITIAL, steps, s)
    requires a in s.db.analyses && HasRow(s.db.runs, s.db.analyses[a].sourceRun)
    ensures Ends(s.db, a, t, |s.db.runs|)
    ensures var chain := Chain(s.db, a, t, |s.db.runs|);
            forall i, j :: 0 <= i < j < |chain| ==> Earlier(s.db.runs, chain[j], chain[i]) && chain[i] != chain[j]
  {
    ReachedInv(INITIAL, steps, s);
    var runs := s.db.runs;
    RankBounded(runs, s.db.analyses[a].sourceRun);
    ChainDescends(s, a, t, |runs|);
    var chain := Chain(s.db, a, t, |runs|);
    forall i, j | 0 <= i < j < |chain| ensures Earlier(runs, chain[j], chain[i]) && chain[i] != chain[j] {
      DescendsFar(runs, chain, i, j);
      EarlierIsStrictOrder(runs, chain[i], chain[i], chain[i]);
    }
  }

  /** Without run rows a later analysis takes an earlier one as its baseline; when the rows come afterwards,
      the other way round, the chain leads to a later run. */
  lemma LateRowsTurnChain() returns (s: State)
    ensures Reaches(INITIAL, [Start("x", "a", 1, {"t"}), Finish(true, 2), Start("y", "b", 3, {"t"}), Bind("t", Some("x")), Finish(true, 4)], s)
    ensures !FitsBindings(s.db, RunRow("b", 1))
    ensures var late := WithRow(WithRow(s, RunRow("b", 1)), RunRow("a", 2));
            Chain(late.db, "y", "t", 1) == ["b", "a"] && Earlier(late.db.runs, "b", "a") && !Earlier(late.db.runs, "a", "b")
  {
    var x := Analysis("a", Succeeded, 1, Some(2), {"t"});
    var y := Analysis("b", Running, 3, None, {"t"});
    var y' := y.(status := Succeeded, finishedAt := Some(4));
    var id := BindingId("y", "t");
    var s1 := State(Db([], map["x" := Analysis("a", Running, 1, None, {"t"})], map[]), Some("x"));
    var s2 := State(Db([], map["x" := x], map[]), None);
    var s3 := State(Db([], map["x" := x, "y" := y], map[]), Some("y"));
    var s4 := State(Db([], map["x" := x, "y" := y], map[id := Binding("b", Some("x"))]), Some("y"));
    s := State(Db([], map["x" := x, "y" := y'], map[id := Binding("b", Some("x"))]), None);
    assert Do(INITIAL, Start("x", "a", 1, {"t"})) == s1;
    assert Do(s1, Finish(true, 2)) == s2;
    assert Do(s2, Start("y", "b", 3, {"t"})) == s3;
    assert Latest(s3.db, "y", "b", "t", "x");
    assert Do(s3, Bind("t", Some("x"))) == s4;
    assert Do(s4, Finish(true, 4)) == s;
    assert Reaches(s4, [Finish(true, 4)], s);
    assert Reaches(s3, [Bind("t", Some("x")), Finish(true, 4)], s);
    assert Reaches(s2, [Start("y", "b", 3, {"t"}), Bind("t", Some("x")), Finish(true, 4)], s);
    assert Reaches(s1, [Finish(true, 2), Start("y", "b", 3, {"t"}), Bind("t", Some("x")), Finish(true, 4)], s);
    hide Enabled, Do, Choice, Reaches, Earlier, FitsBindings, Chain;
    RowsTurn(s, x, y');
  }

  lemma RowsTurn(s: State, x: Analysis, y: Analysis)
    requires s == State(Db([], map["x" := x, "y" := y], map[BindingId("y", "t") := Binding("b", Some("x"))]), None)
    requires x.sourceRun == "a" && y.sourceRun == "b"
    ensures !FitsBindings(s.db, RunRow("b", 1))
    ensures var late := WithRow(WithRow(s, RunRow("b", 1)), RunRow("a", 2));
            Chain(late.db, "y", "t", 1) == ["b", "a"] && Earlier(late.db.runs, "b", "a") && !Earlier(late.db.runs, "a", "b")
  {
    assert BindingId("y", "t") in s.db.bindings;
    var late := WithRow(WithRow(s, RunRow("b", 1)), RunRow("a", 2));
    assert late.db.runs == [RunRow("b", 1), RunRow("a", 2)] && RowBefore(late.db.runs, 0, 1);
    assert Chain(late.db, "x", "t", 0) == ["a"];
  }

  lemma RankBounded(runs: seq<RunRow>, run: RunId)
    requires HasRow(runs, run)
    ensures Rank(runs, run) <= |runs|
  {
    var y := set i: nat | i < |runs| && RowBefore(runs, i, Row(runs, run));
    var all := Numbers(|runs|);
    if y != all { Smaller(y, all); }
  }

  // ----- the operation

  predicate StartedFirst(db: Db, x: AnalysisId, y: AnalysisId)
    requires x in db.analyses && y in db.analyses
  {
    var a, b := db.analyses[x].startedAt, db.analyses[y].startedAt;
    a < b || (a == b && StringLeq(x, y))
  }

  class BehavioralStore {
    var db: Db

    constructor (db: Db)
      ensures this.db == db
    {
      this.db := db;
    }

    /** Reuses the baseline of an earlier analysis of the run, or else takes the latest
        candidate, and records the binding. */
    method LatestPreviousAnalysis(a: AnalysisId, run: RunId, t: Target) returns (baseline: Option<AnalysisId>)
      requires forall id :: id in db.bindings ==> id.analysis in db.analyses
      requires DistinctRows(db.runs)
      modifies this
      ensures Choice(old(db), a, run, t, baseline)
      ensures db.runs == old(db).runs && db.analyses == old(db).analyses
      ensures db.bindings == old(db).bindings[BindingId(a, t) := Binding(run, baseline)]
      ensures forall o :: o in old(db).analyses && AlreadyBound(old(db), a, run, t, o) ==>
                exists first :: && first in old(db).analyses && AlreadyBound(old(db), a, run, t, first)
                                && baseline == old(db).bindings[BindingId(first, t)].baseline
                                && (old(db).analyses[first].startedAt < old(db).analyses[o].startedAt ||
                                    (old(db).analyses[first].startedAt == old(db).analyses[o].startedAt && StringLeq(first, o)))
    {
      var bound := FindBound(a, run, t);
      if bound.Some? {
        baseline := db.bindings[BindingId(bound.value, t)].baseline;
      } else {
        baseline := FindLatest(a, run, t);
      }
      db := WithBinding(db, a, run, t, baseline);
    }

    /** ORDER BY started_at, id LIMIT 1. */
    method FindBound(a: AnalysisId, run: RunId, t: Target) returns (found: Option<AnalysisId>)
      ensures found.Some? ==> AlreadyBound(db, a, run, t, found.value)
      ensures found.Some? ==> forall o :: o in db.analyses && AlreadyBound(db, a, run, t, o) ==>
                db.analyses[found.value].startedAt < db.analyses[o].startedAt ||
                (db.analyses[found.value].startedAt == db.analyses[o].startedAt && StringLeq(found.value, o))
      ensures found.None? ==> forall o :: o in db.analyses ==> !AlreadyBound(db, a, run, t, o)
    {
      found := None;
      var left := db.analyses.Keys;
      while left != {}
        invariant left <= db.analyses.Keys
        invariant found.Some? ==> AlreadyBound(db, a, run, t, found.value)
        invariant forall o :: o in db.analyses.Keys - left && AlreadyBound(db, a, run, t, o) ==>
                    found.Some? && StartedFirst(db, found.value, o)
        decreases left
      {
        var o :| o in left;
        StringTotal(o, o);
        if AlreadyBound(db, a, run, t, o) && (found.None? || !StartedFirst(db, found.value, o)) {
          if found.Some? {
            StringTotal(o, found.value);
            forall u | u in db.analyses.Keys - left && AlreadyBound(db, a, run, t, u) ensures StartedFirst(db, o, u) {
              if StringLeq(o, found.value) && StringLeq(found.value, u) { StringTransitive(o, found.value, u); }
            }
          }
          found := Some(o);
        }
        left := left - {o};
      }
    }

    method FindLatest(a: AnalysisId, run: RunId, t: Target) returns (found: Option<AnalysisId>)
      requires DistinctRows(db.runs)
      ensures found.Some? ==> Latest(db, a, run, t, found.value)
      ensures found.None? ==> forall c :: c in db.analyses ==> !Candidate(db, a, run, t, c)
    {
      found := None;
      var byRun := HasRow(db.runs, run);
      var left := db.analyses.Keys;
      while left != {}
        invariant left <= db.analyses.Keys
        invariant found.Some? ==> Candidate(db, a, run, t, found.value)
        invariant forall c :: c in db.analyses.Keys - left && Candidate(db, a, run, t, c) ==>
                    found.Some? && !Later(db, byRun, c, found.value)
        decreases left
      {
        var c :| c in left;
        if Candidate(db, a, run, t, c) && (found.None? || Later(db, byRun, c, found.value)) {
          if found.Some? {
            forall d | d in db.analyses.Keys - left && Candidate(db, a, run, t, d) ensures !Later(db, byRun, d, c) {
              LaterTransitive(db, byRun, a, run, t, d, c, found.value);
            }
          }
          NotLaterThanItself(db, byRun, c);
          found := Some(c);
        }
        left := left - {c};
      }
    }
  }

  lemma NotLaterThanItself(db: Db, byRun: bool, c: AnalysisId)
    requires c in db.analyses && DistinctRows(db.runs)
    ensures !Later(db, byRun, c, c)
  {
    EarlierIsStrictOrder(db.runs, db.analyses[c].sourceRun, db.analyses[c].sourceRun, db.analyses[c].sourceRun);
  }

  lemma LaterTransitive(db: Db, byRun: bool, a: AnalysisId, run: RunId, t: Target, d: AnalysisId, c: AnalysisId, e: AnalysisId)
    requires DistinctRows(db.runs) && d in db.analyses && c in db.analyses && e in db.analyses
    requires Later(db, byRun, c, e) && !Later(db, byRun, d, e)
    ensures !Later(db, byRun, d, c)
  {
    var x, y, z := db.analyses[d].sourceRun, db.analyses[c].sourceRun, db.analyses[e].sourceRun;
    EarlierIsStrictOrder(db.runs, z, y, x);
  }

  // ----- what is bound, by start times, row numbers and end times

  /** The analysis has a baseline for this run and target already, and was successful. */
  predicate Settles(db: Db, self: AnalysisId, run: RunId, t: Target, o: AnalysisId) {
    && o in db.analyses && o != self && db.analyses[o].status == Succeeded
    && BindingId(o, t) in db.bindings && db.bindings[BindingId(o, t)].sourceRun == run
  }

  /** A successful analysis of another run that covers the target. */
  predicate MayServe(db: Db, self: AnalysisId, run: RunId, t: Target, c: AnalysisId) {
    && c in db.analyses && c != self && db.analyses[c].status == Succeeded
    && db.analyses[c].sourceRun != run && t in db.analyses[c].targets
  }

  /** The end of an analysis, or its start when it has no end. */
  function Ended(a: Analysis): int {
    match a.finishedAt
    case Some(at) => at
    case None => a.startedAt
  }

  /** When no analysis of the run settles it and the run is row `i`: the baseline may serve and is of a row
      before `i`; none that may serve is of a row between the two; and none of the baseline's own run ended
      later. Without one, none that may serve is of a row before `i`. */
  lemma WhatIsBoundByRows(db: Db, self: AnalysisId, run: RunId, t: Target, baseline: Option<AnalysisId>, i: nat)
    requires DistinctRows(db.runs) && i < |db.runs| && db.runs[i].id == run
    requires (forall o :: o in db.analyses ==> !Settles(db, self, run, t, o)) && Choice(db, self, run, t, baseline)
    ensures baseline.Some? ==>
              && MayServe(db, self, run, t, baseline.value)
              && (exists k :: 0 <= k < |db.runs| && db.runs[k].id == db.analyses[baseline.value].sourceRun &&
                    (db.runs[k].startedAt < db.runs[i].startedAt || (db.runs[k].startedAt == db.runs[i].startedAt && k < i)))
    ensures forall c, m :: (
              && c in db.analyses && MayServe(db, self, run, t, c) && 0 <= m < |db.runs| && db.runs[m].id == db.analyses[c].sourceRun
              && (db.runs[m].startedAt < db.runs[i].startedAt || (db.runs[m].startedAt == db.runs[i].startedAt && m < i))) ==>
                && baseline.Some?
                && forall k :: 0 <= k < |db.runs| && db.runs[k].id == db.analyses[baseline.value].sourceRun ==>
                     db.runs[m].startedAt < db.runs[k].startedAt || (db.runs[m].startedAt == db.runs[k].startedAt && m <= k)
    ensures baseline.Some? ==>
              forall c :: c in db.analyses && MayServe(db, self, run, t, c) && db.analyses[c].sourceRun == db.analyses[baseline.value].sourceRun ==>
                Ended(db.analyses[c]) <= Ended(db.analyses[baseline.value])
  {
    assert HasRow(db.runs, run);
    forall o | o in db.analyses ensures !AlreadyBound(db, self, run, t, o) { assert !Settles(db, self, run, t, o); }
    hide Settles;
    forall c, m | c in db.analyses && MayServe(db, self, run, t, c) && 0 <= m < |db.runs| && db.runs[m].id == db.analyses[c].sourceRun &&
                  (db.runs[m].startedAt < db.runs[i].startedAt || (db.runs[m].startedAt == db.runs[i].startedAt && m < i))
      ensures baseline.Some?
      ensures forall k :: 0 <= k < |db.runs| && db.runs[k].id == db.analyses[baseline.value].sourceRun ==>
                db.runs[m].startedAt < db.runs[k].startedAt || (db.runs[m].startedAt == db.runs[k].startedAt && m <= k)
    {
      assert RowBefore(db.runs, m, i);
      assert Candidate(db, self, run, t, c);
      NoRowLater(db, self, run, t, baseline.value, c, m);
    }
  }

  lemma NoRowLater(db: Db, self: AnalysisId, run: RunId, t: Target, b: AnalysisId, c: AnalysisId, m: nat)
    requires HasRow(db.runs, run) && Latest(db, self, run, t, b) && Candidate(db, self, run, t, c)
    requires m < |db.runs| && db.runs[m].id == db.analyses[c].sourceRun
    ensures forall k :: 0 <= k < |db.runs| && db.runs[k].id == db.analyses[b].sourceRun ==>
              db.runs[m].startedAt < db.runs[k].startedAt || (db.runs[m].startedAt == db.runs[k].startedAt && m <= k)
  {
    assert !Later(db, true, c, b);
    assert !Earlier(db.runs, db.analyses[b].sourceRun, db.analyses[c].sourceRun);
    forall k: nat | k < |db.runs| && db.runs[k].id == db.analyses[b].sourceRun ensures !RowBefore(db.runs, k, m) { }
  }

  /** When the run has no row, the same by times alone: the baseline ended before this analysis began, and none
      that may serve and ended before it began ended later. */
  lemma WhatIsBoundByTimes(db: Db, self: AnalysisId, run: RunId, t: Target, baseline: Option<AnalysisId>)
    requires self in db.analyses && forall k :: 0 <= k < |db.runs| ==> db.runs[k].id != run
    requires (forall o :: o in db.analyses ==> !Settles(db, self, run, t, o)) && Choice(db, self, run, t, baseline)
    ensures baseline.Some? ==> MayServe(db, self, run, t, baseline.value) && Ended(db.analyses[baseline.value]) < db.analyses[self].startedAt
    ensures forall c :: c in db.analyses && MayServe(db, self, run, t, c) && Ended(db.analyses[c]) < db.analyses[self].startedAt ==>
              baseline.Some? && Ended(db.analyses[c]) <= Ended(db.analyses[baseline.value])
  {
    assert !HasRow(db.runs, run);
    forall o | o in db.analyses ensures !AlreadyBound(db, self, run, t, o) { assert !Settles(db, self, run, t, o); }
    forall c | c in db.analyses && MayServe(db, self, run, t, c) && Ended(db.analyses[c]) < db.analyses[self].startedAt
      ensures baseline.Some? && Ended(db.analyses[c]) <= Ended(db.analyses[baseline.value])
    {
      assert Candidate(db, self, run, t, c);
      assert !Later(db, false, c, baseline.value);
    }
  }

  /** And when some analysis settles the run, the baseline is one that such an analysis has. */
  lemma WhatIsReused(db: Db, self: AnalysisId, run: RunId, t: Target, baseline: Option<AnalysisId>, o: AnalysisId)
    requires Settles(db, self, run, t, o) && Choice(db, self, run, t, baseline)
    ensures exists u :: Settles(db, self, run, t, u) && baseline == db.bindings[BindingId(u, t)].baseline
  {
    assert AlreadyBound(db, self, run, t, o);
    var u :| u in db.analyses && AlreadyBound(db, self, run, t, u) && baseline == db.bindings[BindingId(u, t)].baseline;
    assert Settles(db, self, run, t, u);
  }
}
