/** Threshold selection: `confusion_metrics` and `select_threshold` of the calibration engine.

    `round(x, 6)` is any function `rnd` of its argument: nothing below needs more
    of it than that equal counts give equal metrics. */
module Thresholds {

  const DEFAULT_THRESHOLD := 70

  type Rounding = real -> real

  /** `raw` is the stored score rounded to an integer, `family` its stripped family name. */
  datatype Record = Record(family: string, raw: int, positive: bool)

  function Score(raw: int): (s: int)
    ensures 0 <= s <= 100
    ensures 0 <= raw <= 100 ==> s == raw
    ensures (raw < 0 ==> s == 0) && (raw > 100 ==> s == 100)
  {
    if raw < 0 then 0 else if raw > 100 then 100 else raw
  }

  datatype Counts = Counts(tp: nat, fp: nat, tn: nat, fn: nat)

  function Tally(c: Counts, predicted: bool, actual: bool): Counts {
    if predicted && actual then c.(tp := c.tp + 1)
    else if predicted then c.(fp := c.fp + 1)
    else if actual then c.(fn := c.fn + 1)
    else c.(tn := c.tn + 1)
  }

  function CountsAt(records: seq<Record>, threshold: int): Counts {
    if records == [] then Counts(0, 0, 0, 0)
    else
      var last := records[|records| - 1];
      Tally(CountsAt(records[..|records| - 1], threshold), Score(last.raw) >= threshold, last.positive)
  }

  datatype Metrics = Metrics(threshold: int, counts: Counts, precision: real, recall: real,
                             specificity: real, falsePositiveRate: real, f1: real, accuracy: real)

  function Ratio(rnd: Rounding, numerator: nat, denominator: nat): real {
    if denominator == 0 then 0.0 else rnd(numerator as real / denominator as real)
  }

  function Harmonic(rnd: Rounding, p: real, r: real): real {
    if p + r == 0.0 then 0.0 else rnd(2.0 * p * r / (p + r))
  }

  function MetricsOf(rnd: Rounding, threshold: int, c: Counts): Metrics {
    var precision := Ratio(rnd, c.tp, c.tp + c.fp);
    var recall := Ratio(rnd, c.tp, c.tp + c.fn);
    Metrics(threshold, c, precision, recall, Ratio(rnd, c.tn, c.tn + c.fp), Ratio(rnd, c.fp, c.fp + c.tn),
            Harmonic(rnd, precision, recall),
            Ratio(rnd, c.tp + c.tn, c.tp + c.fp + c.tn + c.fn))
  }

  function MetricsAt(rnd: Rounding, records: seq<Record>, threshold: int): Metrics {
    MetricsOf(rnd, threshold, CountsAt(records, threshold))
  }

  method ConfusionMetrics(rnd: Rounding, records: seq<Record>, threshold: int) returns (m: Metrics)
    ensures m == MetricsAt(rnd, records, Score(threshold)) && m.threshold == Score(threshold)
  {
    var bound := Score(threshold);
    var tp, fp, tn, fn := 0, 0, 0, 0;
    for i := 0 to |records|
      invariant tp >= 0 && fp >= 0 && tn >= 0 && fn >= 0
      invariant Counts(tp, fp, tn, fn) == CountsAt(records[..i], bound)
    {
      var predicted := Score(records[i].raw) >= bound;
      var actual := records[i].positive;
      assert records[..i + 1][..i] == records[..i];
      if predicted && actual {
        tp := tp + 1;
      } else if predicted && !actual {
        fp := fp + 1;
      } else if !predicted && actual {
        fn := fn + 1;
      } else {
        tn := tn + 1;
      }
    }
    assert records[..|records|] == records;
    m := MetricsOf(rnd, bound, Counts(tp, fp, tn, fn));
  }

  /** Every record is counted exactly once, on the side its label says. */
  lemma {:induction false} CountsPartition(records: seq<Record>, threshold: int)
    ensures var c := CountsAt(records, threshold); c.tp + c.fp + c.tn + c.fn == |records|
    ensures var c := CountsAt(records, threshold); var all := CountsAt(records, 0);
            all.fn == all.tn == 0 && c.tp + c.fn == all.tp && c.fp + c.tn == all.fp
  {
    if records != [] { CountsPartition(records[..|records| - 1], threshold); }
  }

  // ----- the six-level objective

  datatype Objective = Objective(f1: real, precision: real, recall: real, minusFpr: real,
                                 minusDistance: int, threshold: int)

  function ObjectiveOf(m: Metrics, preset: int): Objective {
    var away := if m.threshold >= preset then m.threshold - preset else preset - m.threshold;
    Objective(m.f1, m.precision, m.recall, -m.falsePositiveRate, -away, m.threshold)
  }

  /** Python's `a > b` on the tuples. */
  predicate Better(a: Objective, b: Objective) {
    if a.f1 != b.f1 then a.f1 > b.f1
    else if a.precision != b.precision then a.precision > b.precision
    else if a.recall != b.recall then a.recall > b.recall
    else if a.minusFpr != b.minusFpr then a.minusFpr > b.minusFpr
    else if a.minusDistance != b.minusDistance then a.minusDistance > b.minusDistance
    else a.threshold > b.threshold
  }

  function ObjectiveAt(rnd: Rounding, records: seq<Record>, preset: int, t: int): Objective {
    ObjectiveOf(MetricsAt(rnd, records, t), preset)
  }

  predicate Observed(records: seq<Record>, s: int) {
    exists r :: r in records && Score(r.raw) == s
  }

  predicate Candidate(records: seq<Record>, preset: int, t: int) {
    0 <= t <= 100 && (t == 0 || t == 100 || t == preset || Observed(records, t) || Observed(records, t - 1))
  }

  /** The winner over every threshold from 0 to 100, not only over the candidates. */
  ghost predicate IsBest(rnd: Rounding, records: seq<Record>, preset: int, best: int) {
    && 0 <= best <= 100
    && forall t :: 0 <= t <= 100 && t != best ==>
         Better(ObjectiveAt(rnd, records, preset, best), ObjectiveAt(rnd, records, preset, t))
  }

  /** Between two neighbouring thresholds nothing changes unless some record has that score. */
  lemma {:induction false} CountsStep(records: seq<Record>, t: int)
    requires !Observed(records, t)
    ensures CountsAt(records, t) == CountsAt(records, t + 1)
  {
    if records != [] {
      var init, last := records[..|records| - 1], records[|records| - 1];
      assert last in records;
      assert forall r :: r in init ==> r in records;
      CountsStep(init, t);
    }
  }

  lemma NearerIsBetter(rnd: Rounding, c: Counts, preset: int, near: int, far: int)
    requires (if near >= preset then near - preset else preset - near) <
             (if far >= preset then far - preset else preset - far)
    ensures Better(ObjectiveOf(MetricsOf(rnd, near, c), preset), ObjectiveOf(MetricsOf(rnd, far, c), preset))
  {
  }

  lemma BetterIsStrictOrder(a: Objective, b: Objective, c: Objective)
    ensures Better(a, b) && Better(b, c) ==> Better(a, c)
    ensures !(Better(a, b) && Better(b, a))
  {
  }

  /** A threshold that is not tried loses to one that is: walking towards the
      default keeps the counts and shortens the distance until a candidate is met. */
  lemma {:induction false} Dominated(rnd: Rounding, records: seq<Record>, preset: int, t: int) returns (c: int)
    requires 0 <= preset <= 100 && 0 <= t <= 100 && !Candidate(records, preset, t)
    ensures Candidate(records, preset, c)
    ensures Better(ObjectiveAt(rnd, records, preset, c), ObjectiveAt(rnd, records, preset, t))
    decreases if t < preset then preset - t else t - preset
  {
    hide MetricsOf, ObjectiveOf, Better, CountsAt;
    var next := if t < preset then t + 1 else t - 1;
    CountsStep(records, if t < preset then t else t - 1);
    NearerIsBetter(rnd, CountsAt(records, t), preset, next, t);
    if Candidate(records, preset, next) {
      c := next;
    } else {
      c := Dominated(rnd, records, preset, next);
      BetterIsStrictOrder(ObjectiveAt(rnd, records, preset, c), ObjectiveAt(rnd, records, preset, next),
                          ObjectiveAt(rnd, records, preset, t));
    }
  }

  lemma {:induction false} CandidatesSuffice(rnd: Rounding, records: seq<Record>, preset: int, best: int)
    requires 0 <= preset <= 100
    requires Candidate(records, preset, best)
    requires forall t :: Candidate(records, preset, t) && t != best ==>
               Better(ObjectiveAt(rnd, records, preset, best), ObjectiveAt(rnd, records, preset, t))
    ensures IsBest(rnd, records, preset, best)
  {
    forall t | 0 <= t <= 100 && t != best
      ensures Better(ObjectiveAt(rnd, records, preset, best), ObjectiveAt(rnd, records, preset, t))
    {
      if !Candidate(records, preset, t) {
        var c := Dominated(rnd, records, preset, t);
        BetterIsStrictOrder(ObjectiveAt(rnd, records, preset, best), ObjectiveAt(rnd, records, preset, c),
                            ObjectiveAt(rnd, records, preset, t));
      }
    }
  }

  /** The objective never ties, so the choice does not depend on how ties are broken. */
  lemma BestIsUnique(rnd: Rounding, records: seq<Record>, preset: int, a: int, b: int)
    requires IsBest(rnd, records, preset, a) && IsBest(rnd, records, preset, b)
    ensures a == b
  {
    var x, y := ObjectiveAt(rnd, records, preset, a), ObjectiveAt(rnd, records, preset, b);
    BetterIsStrictOrder(x, y, x);
  }

  lemma ObservedNext(records: seq<Record>, i: nat)
    requires i < |records|
    ensures forall s :: Observed(records[..i + 1], s) <==>
                        Observed(records[..i], s) || s == Score(records[i].raw)
  {
    var longer, shorter := records[..i + 1], records[..i];
    assert longer == shorter + [records[i]];
    forall s ensures Observed(longer, s) <==> Observed(shorter, s) || s == Score(records[i].raw) {
      if Observed(shorter, s) {
        var r :| r in shorter && Score(r.raw) == s;
        assert r in longer;
      }
      if s == Score(records[i].raw) { assert records[i] in longer; }
    }
  }

  method Candidates(records: seq<Record>, preset: int) returns (candidates: set<int>)
    requires 0 <= preset <= 100
    ensures forall t :: t in candidates <==> Candidate(records, preset, t)
  {
    candidates := {0, 100, preset};
    for i := 0 to |records|
      invariant forall t :: t in candidates <==> Candidate(records[..i], preset, t)
    {
      var value := Score(records[i].raw);
      ObservedNext(records, i);
      candidates := candidates + {value};
      if value < 100 {
        candidates := candidates + {value + 1};
      }
    }
    assert records[..|records|] == records;
  }

  method SelectThreshold(rnd: Rounding, records: seq<Record>, defaultThreshold: int)
    returns (metrics: Metrics, learned: bool)
    ensures learned <==> records != []
    ensures metrics == MetricsAt(rnd, records, metrics.threshold)
    ensures records == [] ==> metrics.threshold == Score(defaultThreshold)
    ensures records != [] ==> IsBest(rnd, records, Score(defaultThreshold), metrics.threshold)
  {
    hide MetricsOf, CountsAt, IsBest;
    var preset := Score(defaultThreshold);
    if records == [] {
      metrics := ConfusionMetrics(rnd, [], defaultThreshold);
      return metrics, false;
    }
    var candidates := Candidates(records, preset);
    metrics := ConfusionMetrics(rnd, records, 0);
    var best := ObjectiveOf(metrics, preset);
    // sorted(candidates): the integers of the set in ascending order, from 0
    for threshold := 1 to 101
      invariant Candidate(records, preset, metrics.threshold) && metrics.threshold < threshold
      invariant metrics == MetricsAt(rnd, records, metrics.threshold)
      invariant best == ObjectiveOf(metrics, preset)
      invariant forall t :: Candidate(records, preset, t) && t < threshold && t != metrics.threshold ==>
                  Better(best, ObjectiveAt(rnd, records, preset, t))
    {
      if threshold in candidates {
        var current := ConfusionMetrics(rnd, records, threshold);
        if Better(ObjectiveOf(current, preset), best) {
          best := ObjectiveOf(current, preset);
          metrics := current;
        }
      }
    }
    CandidatesSuffice(rnd, records, preset, metrics.threshold);
    learned := true;
  }
}

/** The 0-100 score bins, their diagnostics, and the advisory lookup. */
module CalibrationBins {
  import opened Options
  import opened Reals
  import opened Thresholds

  const DEFAULT_BIN_COUNT := 10

  function BinCount(bins: int): (n: int)
    ensures 2 <= n <= 20
    ensures 2 <= bins <= 20 ==> n == bins
    ensures (bins < 2 ==> n == 2) && (bins > 20 ==> n == 20)
  {
    if bins < 2 then 2 else if bins > 20 then 20 else bins
  }

  function Low(i: nat, n: int): nat
    requires 2 <= n <= 20
  {
    i * 100 / n
  }

  function High(i: nat, n: int): int
    requires 2 <= n <= 20
  {
    if i == n - 1 then 100 else Low(i + 1, n) - 1
  }

  predicate InBin(score: int, i: nat, n: int)
    requires 2 <= n <= 20
  {
    i < n && Low(i, n) <= score <= High(i, n)
  }

  lemma DivideBounds(a: int, n: int)
    requires n > 0
    ensures (a / n) * n <= a < (a / n) * n + n
  {
  }

  lemma MultiplyOrder(a: int, b: int, n: int)
    requires n > 0
    ensures a <= b ==> a * n <= b * n
  {
  }

  // 100 apart before the division, so 5 apart after it.
  lemma StepsApart(q: int, u: int, r: int, v: int, n: int)
    requires 2 <= n <= 20 && 0 <= u < n && 0 <= v < n && r * n + v == q * n + u + 100
    ensures q + 5 <= r
  {
    MultiplyOrder(r, q + 4, n);
  }

  lemma LowIncreases(i: nat, n: int)
    requires 2 <= n <= 20
    ensures Low(i, n) + 5 <= Low(i + 1, n)
  {
    DivideBounds(i * 100, n);
    DivideBounds((i + 1) * 100, n);
    var q, r := Low(i, n), Low(i + 1, n);
    StepsApart(q, i * 100 - q * n, r, (i + 1) * 100 - r * n, n);
  }

  lemma LowEnds(n: int)
    requires 2 <= n <= 20
    ensures Low(0, n) == 0 && Low(n, n) == 100
  {
    DivideBounds(n * 100, n);
    var q := Low(n, n);
    MultiplyOrder(q + 1, 100, n);
    MultiplyOrder(101, q, n);
  }

  lemma {:induction false} LowMonotone(i: nat, j: nat, n: int)
    requires 2 <= n <= 20 && i < j
    ensures Low(i, n) < Low(j, n)
    decreases j
  {
    LowIncreases(j - 1, n);
    if i < j - 1 { LowMonotone(i, j - 1, n); }
  }

  /** The bins cut 0..100 into non-empty disjoint intervals. */
  lemma BinsAreDisjoint(score: int, i: nat, j: nat, n: int)
    requires 2 <= n <= 20
    ensures InBin(score, i, n) && InBin(score, j, n) ==> i == j
  {
    if i < j && i + 1 < j { LowMonotone(i + 1, j, n); }
    if j < i && j + 1 < i { LowMonotone(j + 1, i, n); }
  }

  /** The last bin whose lower bound does not exceed the score, found from the left. */
  function BinFrom(score: int, n: int, i: nat): (b: nat)
    requires 2 <= n <= 20 && i < n && Low(i, n) <= score <= 100
    ensures i <= b && InBin(score, b, n)
    decreases n - i
  {
    if i + 1 < n && Low(i + 1, n) <= score then BinFrom(score, n, i + 1) else i
  }

  function BinOf(score: int, n: int): (b: nat)
    requires 2 <= n <= 20 && 0 <= score <= 100
    ensures InBin(score, b, n)
  {
    LowEnds(n);
    BinFrom(score, n, 0)
  }

  function Bucket(records: seq<Record>, i: nat, n: int): seq<Record>
    requires 2 <= n <= 20
  {
    if records == [] then []
    else
      var init, last := records[..|records| - 1], records[|records| - 1];
      Bucket(init, i, n) + if BinOf(Score(last.raw), n) == i then [last] else []
  }

  function ScoreSum(records: seq<Record>): nat {
    if records == [] then 0 else ScoreSum(records[..|records| - 1]) + Score(records[|records| - 1].raw)
  }

  function Positives(records: seq<Record>): (k: nat)
    ensures k <= |records|
  {
    if records == [] then 0
    else Positives(records[..|records| - 1]) + if records[|records| - 1].positive then 1 else 0
  }

  /** `mean_score` is `scoreSum / support` and `observed_positive_rate` is
      `positives / support`; both are None in an empty bin. */
  datatype BinRow = BinRow(index: nat, low: int, high: int, support: nat, scoreSum: nat, positives: nat)

  function RowOf(records: seq<Record>, i: nat, n: int): BinRow
    requires 2 <= n <= 20
  {
    var bucket := Bucket(records, i, n);
    BinRow(i, Low(i, n), High(i, n), |bucket|, ScoreSum(bucket), Positives(bucket))
  }

  ghost predicate IsTable(rows: seq<BinRow>, records: seq<Record>, n: int)
    requires 2 <= n <= 20
  {
    |rows| == n && forall i :: 0 <= i < n ==> rows[i] == RowOf(records, i, n)
  }

  method AssignBin(score: int, lowerBounds: seq<int>, ghost n: int) returns (index: nat)
    requires 2 <= n <= 20 && 0 <= score <= 100
    requires |lowerBounds| == n && forall i :: 0 <= i < n ==> lowerBounds[i] == Low(i, n)
    ensures index == BinOf(score, n)
  {
    LowEnds(n);
    index := 0;
    var candidate := 0;
    while candidate < |lowerBounds|
      invariant 0 <= candidate <= n && index == (if candidate == 0 then 0 else candidate - 1)
      invariant Low(index, n) <= score
      invariant BinOf(score, n) == BinFrom(score, n, index)
    {
      if score < lowerBounds[candidate] {
        return;
      }
      index := candidate;
      candidate := candidate + 1;
    }
  }

  method GroupByBin(records: seq<Record>, lowerBounds: seq<int>, ghost n: int)
    returns (grouped: map<nat, seq<Record>>)
    requires 2 <= n <= 20
    requires |lowerBounds| == n && forall i :: 0 <= i < n ==> lowerBounds[i] == Low(i, n)
    ensures forall i: nat :: Bucket(records, i, n) == if i in grouped then grouped[i] else []
  {
    grouped := map[];
    for k := 0 to |records|
      invariant forall i: nat :: Bucket(records[..k], i, n) == if i in grouped then grouped[i] else []
    {
      var index := AssignBin(Score(records[k].raw), lowerBounds, n);
      BucketNext(records, k, n);
      grouped := grouped[index := (if index in grouped then grouped[index] else []) + [records[k]]];
    }
    assert records[..|records|] == records;
  }

  lemma BucketNext(records: seq<Record>, k: nat, n: int)
    requires 2 <= n <= 20 && k < |records|
    ensures forall i: nat :: Bucket(records[..k + 1], i, n) == Bucket(records[..k], i, n) +
                             if BinOf(Score(records[k].raw), n) == i then [records[k]] else []
  {
    assert records[..k + 1][..k] == records[..k];
  }

  method BuildBins(records: seq<Record>, bins: int) returns (rows: seq<BinRow>)
    ensures IsTable(rows, records, BinCount(bins))
  {
    hide Low, Bucket, ScoreSum, Positives, BinOf;
    var n := BinCount(bins);
    var lowerBounds: seq<int> := seq(n, (i: nat) => Low(i, n));
    var grouped := GroupByBin(records, lowerBounds, n);
    rows := [];
    for index := 0 to n
      invariant |rows| == index
      invariant forall i :: 0 <= i < index ==> rows[i] == RowOf(records, i, n)
    {
      var low := lowerBounds[index];
      var high := if index == n - 1 then 100 else lowerBounds[index + 1] - 1;
      var bucket := if index in grouped then grouped[index] else [];
      rows := rows + [BinRow(index, low, high, |bucket|, ScoreSum(bucket), Positives(bucket))];
    }
  }

  function SupportUpTo(records: seq<Record>, n: int, m: nat): nat
    requires 2 <= n <= 20
  {
    if m == 0 then 0 else SupportUpTo(records, n, m - 1) + |Bucket(records, m - 1, n)|
  }

  lemma {:induction false} SupportStep(init: seq<Record>, last: Record, n: int, m: nat)
    requires 2 <= n <= 20
    ensures SupportUpTo(init + [last], n, m) ==
            SupportUpTo(init, n, m) + if BinOf(Score(last.raw), n) < m then 1 else 0
  {
    assert (init + [last])[..|init|] == init;
    if m > 0 { SupportStep(init, last, n, m - 1); }
  }

  /** No record is lost or counted twice: the supports of all bins sum to the record count. */
  lemma {:induction false} SupportsSum(records: seq<Record>, n: int)
    requires 2 <= n <= 20
    ensures SupportUpTo(records, n, n) == |records|
  {
    if records == [] {
      EmptySupport(n, n);
    } else {
      var init, last := records[..|records| - 1], records[|records| - 1];
      assert records == init + [last];
      SupportsSum(init, n);
      SupportStep(init, last, n, n);
    }
  }

  lemma {:induction false} EmptySupport(n: int, m: nat)
    requires 2 <= n <= 20
    ensures SupportUpTo([], n, m) == 0
  {
    if m > 0 { EmptySupport(n, m - 1); }
  }

  // ----- Brier score and expected calibration error, before rounding

  function Gap(r: Record): real {
    Score(r.raw) as real / 100.0 - if r.positive then 1.0 else 0.0
  }

  function SquareSum(records: seq<Record>): real {
    if records == [] then 0.0
    else SquareSum(records[..|records| - 1]) + Gap(records[|records| - 1]) * Gap(records[|records| - 1])
  }

  function GapSum(records: seq<Record>): real {
    if records == [] then 0.0 else GapSum(records[..|records| - 1]) + Gap(records[|records| - 1])
  }

  function AbsSum(records: seq<Record>): real {
    if records == [] then 0.0 else AbsSum(records[..|records| - 1]) + Abs(Gap(records[|records| - 1]))
  }

  function Brier(records: seq<Record>): real
    requires records != []
  {
    SquareSum(records) / |records| as real
  }

  /** The contribution of one bin, as the report computes it from the bin's two rates. */
  function BinError(row: BinRow, total: nat): real
    requires total > 0
  {
    if row.support == 0 then 0.0
    else RateError(row.scoreSum as real, row.positives as real, row.support as real, total as real)
  }

  function RateError(scores: real, positives: real, support: real, total: real): real
    requires support > 0.0 && total > 0.0
  {
    var mean := scores / support / 100.0;
    var observed := positives / support;
    (support / total) * Abs(mean - observed)
  }

  function ErrorSum(rows: seq<BinRow>, total: nat): real
    requires total > 0
  {
    if rows == [] then 0.0 else ErrorSum(rows[..|rows| - 1], total) + BinError(rows[|rows| - 1], total)
  }

  method SumBinErrors(rows: seq<BinRow>, total: nat) returns (ece: real)
    requires total > 0
    ensures ece == ErrorSum(rows, total)
  {
    ece := 0.0;
    for i := 0 to |rows|
      invariant ece == ErrorSum(rows[..i], total)
    {
      assert rows[..i + 1][..i] == rows[..i];
      if rows[i].support != 0 {
        ece := ece + BinError(rows[i], total);
      }
    }
    assert rows[..|rows|] == rows;
  }

  method Diagnostics(records: seq<Record>, bins: int) returns (brier: real, ece: real, rows: seq<BinRow>)
    requires records != []
    ensures brier == Brier(records)
    ensures IsTable(rows, records, BinCount(bins))
    ensures ece == ErrorSum(rows, |records|)
    ensures 0.0 <= ece <= 1.0 && ece * ece <= brier
  {
    hide IsTable, ErrorSum;
    var squared := 0.0;
    for i := 0 to |records|
      invariant squared == SquareSum(records[..i])
    {
      var probabilityLike := Score(records[i].raw) as real / 100.0;
      var actual := if records[i].positive then 1.0 else 0.0;
      assert records[..i + 1][..i] == records[..i];
      var gap := probabilityLike - actual;
      squared := squared + gap * gap;
    }
    assert records[..|records|] == records;
    brier := squared / |records| as real;
    rows := BuildBins(records, bins);
    ece := SumBinErrors(rows, |records|);
    CalibrationErrorBound(records, rows, BinCount(bins));
  }

  lemma {:induction false} GapSumIsRates(records: seq<Record>)
    ensures GapSum(records) == ScoreSum(records) as real / 100.0 - Positives(records) as real
  {
    if records != [] { GapSumIsRates(records[..|records| - 1]); }
  }

  lemma BinErrorIsGap(row: BinRow, bucket: seq<Record>, total: nat)
    requires total > 0
    requires row.support == |bucket| && row.scoreSum == ScoreSum(bucket) && row.positives == Positives(bucket)
    ensures BinError(row, total) * total as real == Abs(GapSum(bucket))
  {
    hide RateError, Abs, GapSum, Gap;
    GapSumIsRates(bucket);
    if bucket == [] {
      assert Abs(0.0) == 0.0 by { AbsScale(0.0, 0.0); }
    } else {
      hide ScoreSum, Positives;
      RatesToGap(row.scoreSum as real, row.positives as real, row.support as real, total as real);
    }
  }

  lemma RatesToGap(scores: real, positives: real, k: real, t: real)
    requires k > 0.0 && t > 0.0
    ensures RateError(scores, positives, k, t) * t == Abs(scores / 100.0 - positives)
  {
    var u, v := scores / k, positives / k;
    var x := u / 100.0 - v;
    assert u * k == scores && v * k == positives;
    assert k * x == scores / 100.0 - positives;
    AbsScale(k, x);
    var w := k / t;
    assert w * t == k;
    assert w * Abs(x) * t == (w * t) * Abs(x);
  }

  lemma AbsScale(k: real, x: real)
    requires k >= 0.0
    ensures Abs(k * x) == k * Abs(x)
  {
  }

  function GapUpTo(records: seq<Record>, n: int, m: nat): real
    requires 2 <= n <= 20
  {
    if m == 0 then 0.0 else GapUpTo(records, n, m - 1) + Abs(GapSum(Bucket(records, m - 1, n)))
  }

  lemma GapAppend(bucket: seq<Record>, r: Record)
    ensures Abs(GapSum(bucket + [r])) <= Abs(GapSum(bucket)) + Abs(Gap(r))
  {
    assert (bucket + [r])[..|bucket|] == bucket;
  }

  /** One more record moves the sum of the bins' gaps by at most its own gap. */
  lemma {:induction false} GapStep(init: seq<Record>, last: Record, n: int, m: nat)
    requires 2 <= n <= 20
    ensures GapUpTo(init + [last], n, m) <=
            GapUpTo(init, n, m) + if BinOf(Score(last.raw), n) < m then Abs(Gap(last)) else 0.0
  {
    hide Abs, Gap, GapSum, Bucket, BinOf, Score;
    if m > 0 {
      GapStep(init, last, n, m - 1);
      BucketNext(init + [last], |init|, n);
      assert (init + [last])[..|init|] == init && (init + [last])[..|init| + 1] == init + [last];
      GapAppend(Bucket(init, m - 1, n), last);
      assert Bucket(init, m - 1, n) + [] == Bucket(init, m - 1, n);
    }
  }

  lemma {:induction false} GapsBounded(records: seq<Record>, n: int)
    requires 2 <= n <= 20
    ensures 0.0 <= GapUpTo(records, n, n) <= AbsSum(records)
  {
    GapNonNegative(records, n, n);
    if records == [] {
      EmptyGap(n, n);
    } else {
      var init, last := records[..|records| - 1], records[|records| - 1];
      assert records == init + [last];
      GapsBounded(init, n);
      GapStep(init, last, n, n);
    }
  }

  lemma {:induction false} EmptyGap(n: int, m: nat)
    requires 2 <= n <= 20
    ensures GapUpTo([], n, m) == 0.0
  {
    if m > 0 { EmptyGap(n, m - 1); }
  }

  lemma {:induction false} GapNonNegative(records: seq<Record>, n: int, m: nat)
    requires 2 <= n <= 20
    ensures GapUpTo(records, n, m) >= 0.0
  {
    if m > 0 { GapNonNegative(records, n, m - 1); }
  }

  /** The square of the sum of `k` numbers against the sum of their squares. */
  predicate Cauchy(sum: real, squares: real, k: real) {
    0.0 <= sum <= k && squares >= 0.0 && sum * sum <= k * squares
  }

  /** Cauchy-Schwarz for the record gaps. */
  lemma {:induction false} SumVersusSquares(records: seq<Record>)
    ensures Cauchy(AbsSum(records), SquareSum(records), |records| as real)
  {
    if records == [] {
      assert Cauchy(0.0, 0.0, 0.0);
    } else {
      var init, g := records[..|records| - 1], Gap(records[|records| - 1]);
      hide AbsSum, SquareSum, Gap, Abs, Cauchy;
      SumVersusSquares(init);
      SumsNext(records);
      CauchyNext(AbsSum(init), SquareSum(init), |init| as real, Abs(g), g * g,
                 AbsSum(records), SquareSum(records), |records| as real);
    }
  }

  lemma SumsNext(records: seq<Record>)
    requires records != []
    ensures var init, g := records[..|records| - 1], Gap(records[|records| - 1]);
            && AbsSum(records) == AbsSum(init) + Abs(g) && SquareSum(records) == SquareSum(init) + g * g
            && 0.0 <= Abs(g) <= 1.0 && g * g == Abs(g) * Abs(g)
  {
    AbsSquare(Gap(records[|records| - 1]));
    GapBounded(records[|records| - 1]);
    hide Gap, Abs;
  }

  lemma CauchyNext(a: real, q: real, k: real, g: real, square: real, a': real, q': real, k': real)
    requires Cauchy(a, q, k) && 0.0 <= g <= 1.0
    requires square == g * g && a' == a + g && q' == q + square && k' == k + 1.0
    ensures Cauchy(a', q', k')
  {
    CauchyStep(a, q, k, g);
  }

  lemma AbsSquare(g: real)
    ensures Abs(g) * Abs(g) == g * g && Abs(g) >= 0.0
  {
  }

  lemma CauchyStep(a: real, q: real, k: real, g: real)
    requires 0.0 <= a && 0.0 <= q && 0.0 <= g && (k == 0.0 ==> a == 0.0) && k >= 0.0
    requires a * a <= k * q
    ensures (a + g) * (a + g) <= (k + 1.0) * (q + g * g)
  {
    if k > 0.0 {
      var d := k * g - a;
      assert 0.0 <= d * d == k * k * (g * g) - 2.0 * k * (a * g) + a * a;
      assert 2.0 * k * (a * g) <= k * (k * (g * g) + q);
      assert k * (2.0 * (a * g)) <= k * (k * (g * g) + q);
      assert 2.0 * (a * g) <= k * (g * g) + q;
    }
    assert (a + g) * (a + g) == a * a + 2.0 * (a * g) + g * g;
    assert (k + 1.0) * (q + g * g) == k * q + k * (g * g) + q + g * g;
  }

  lemma ErrorSumNext(rows: seq<BinRow>, total: nat, m: nat)
    requires total > 0 && 0 < m <= |rows|
    ensures ErrorSum(rows[..m], total) * total as real ==
            ErrorSum(rows[..m - 1], total) * total as real + BinError(rows[m - 1], total) * total as real
  {
    hide BinError;
    assert rows[..m][..m - 1] == rows[..m - 1];
  }

  lemma TableError(records: seq<Record>, rows: seq<BinRow>, n: int, i: nat)
    requires 2 <= n <= 20 && records != [] && IsTable(rows, records, n) && i < n
    ensures BinError(rows[i], |records|) * |records| as real == Abs(GapSum(Bucket(records, i, n)))
  {
    hide BinError, Low, High, BinOf, GapSum, Abs, ScoreSum, Positives, Bucket;
    BinErrorIsGap(rows[i], Bucket(records, i, n), |records|);
  }

  lemma {:induction false} ErrorSumIsGap(records: seq<Record>, rows: seq<BinRow>, n: int, m: nat)
    requires 2 <= n <= 20 && records != [] && IsTable(rows, records, n) && m <= n
    ensures ErrorSum(rows[..m], |records|) * |records| as real == GapUpTo(records, n, m)
  {
    hide BinError, IsTable, GapSum, Abs, Bucket, BinOf, Low, High, RowOf;
    if m > 0 {
      ErrorSumIsGap(records, rows, n, m - 1);
      TableError(records, rows, n, m - 1);
      assert |rows| == n by { TableLength(records, rows, n); }
      ErrorSumNext(rows, |records|, m);
    }
  }

  lemma TableLength(records: seq<Record>, rows: seq<BinRow>, n: int)
    requires 2 <= n <= 20 && IsTable(rows, records, n)
    ensures |rows| == n
  {
  }

  /** Expected calibration error lies in [0,1] and its square never exceeds the Brier score. */
  lemma CalibrationErrorBound(records: seq<Record>, rows: seq<BinRow>, n: int)
    requires 2 <= n <= 20 && records != [] && IsTable(rows, records, n)
    ensures var ece := ErrorSum(rows, |records|); 0.0 <= ece <= 1.0 && ece * ece <= Brier(records) <= 1.0
  {
    hide BinError, IsTable, ErrorSum, GapUpTo, AbsSum, SquareSum, Gap;
    TableLength(records, rows, n);
    ErrorSumIsGap(records, rows, n, n);
    assert rows[..n] == rows;
    GapsBounded(records, n);
    SumVersusSquares(records);
    BrierBounded(records);
    QuotientBound(ErrorSum(rows, |records|), |records| as real, AbsSum(records), SquareSum(records));
  }

  lemma QuotientBound(ece: real, total: real, bound: real, squares: real)
    requires total > 0.0 && 0.0 <= ece * total <= bound <= total
    requires bound * bound <= total * squares && squares <= total
    ensures 0.0 <= ece <= 1.0 && ece * ece <= squares / total <= 1.0
  {
    var v := squares / total;
    assert v * total == squares;
    SquareOrder(ece * total, bound);
    assert (ece * total) * (ece * total) <= total * squares;
    assert (ece * (ece * total)) * total <= (v * total) * total;
    CancelFactor(ece * (ece * total), v * total, total);
    assert (ece * ece) * total <= v * total;
    CancelFactor(ece * ece, v, total);
  }

  lemma CancelFactor(a: real, b: real, t: real)
    requires t > 0.0 && a * t <= b * t
    ensures a <= b
  {
  }

  lemma GapBounded(r: Record)
    ensures Gap(r) * Gap(r) <= 1.0 && Abs(Gap(r)) <= 1.0
  {
    var g := Gap(r);
    assert -1.0 <= g <= 1.0;
    if g >= 0.0 { assert g * g <= g; } else { assert (-g) * (-g) <= -g; }
  }

  lemma {:induction false} BrierBounded(records: seq<Record>)
    ensures SquareSum(records) <= |records| as real
  {
    if records != [] {
      BrierBounded(records[..|records| - 1]);
      GapBounded(records[|records| - 1]);
    }
  }

  // ----- profiles and the advisory lookup

  datatype Selection = Selection(threshold: int, learned: bool, ready: bool, bins: seq<BinRow>)

  datatype Profile = Profile(overall: Selection, families: map<string, Selection>)

  datatype Minimums = Minimums(globalCases: int, familyCases: int, familyPositive: int, familyNegative: int)

  function OfFamily(records: seq<Record>, family: string): seq<Record> {
    if records == [] then []
    else
      OfFamily(records[..|records| - 1], family) +
      if records[|records| - 1].family == family then [records[|records| - 1]] else []
  }

  predicate GlobalReady(records: seq<Record>, min: Minimums) {
    |records| >= min.globalCases && (exists r :: r in records && r.positive) && (exists r :: r in records && !r.positive)
  }

  predicate FamilyReady(rows: seq<Record>, min: Minimums) {
    && |rows| >= min.familyCases
    && Positives(rows) >= min.familyPositive
    && |rows| - Positives(rows) >= min.familyNegative
  }

  ghost predicate IsSelection(rnd: Rounding, s: Selection, rows: seq<Record>, fallback: int, ready: bool) {
    && s.ready == ready
    && (ready && rows != [] ==> s.learned && IsBest(rnd, rows, DEFAULT_THRESHOLD, s.threshold))
    && (ready && rows == [] ==> !s.learned && s.threshold == DEFAULT_THRESHOLD)
    && (!ready ==> !s.learned && s.threshold == fallback)
    && (if rows == [] then s.bins == [] else IsTable(s.bins, rows, DEFAULT_BIN_COUNT))
  }

  ghost predicate IsProfile(rnd: Rounding, p: Profile, records: seq<Record>, min: Minimums) {
    && IsSelection(rnd, p.overall, records, DEFAULT_THRESHOLD, GlobalReady(records, min))
    && (forall f :: f in p.families <==> f != "" && exists r :: r in records && r.family == f)
    && forall f :: f in p.families ==>
         var rows := OfFamily(records, f);
         IsSelection(rnd, p.families[f], rows, p.overall.threshold, FamilyReady(rows, min))
  }

  method Select(rnd: Rounding, rows: seq<Record>, fallback: int, ready: bool) returns (s: Selection)
    ensures IsSelection(rnd, s, rows, fallback, ready)
  {
    var threshold, learned := fallback, false;
    if ready {
      var metrics;
      metrics, learned := SelectThreshold(rnd, rows, DEFAULT_THRESHOLD);
      threshold := metrics.threshold;
    }
    var bins := [];
    if rows != [] {
      var brier, ece;
      brier, ece, bins := Diagnostics(rows, DEFAULT_BIN_COUNT);
    }
    s := Selection(threshold, learned, ready, bins);
  }

  method BuildProfile(rnd: Rounding, records: seq<Record>, min: Minimums) returns (p: Profile)
    ensures IsProfile(rnd, p, records, min)
  {
    var families: map<string, seq<Record>> := map[];
    for i := 0 to |records|
      invariant forall f :: f in families <==> f != "" && exists r :: r in records[..i] && r.family == f
      invariant forall f :: f in families ==> families[f] == OfFamily(records[..i], f)
    {
      var family := records[i].family;
      assert records[..i + 1][..i] == records[..i];
      assert forall r :: r in records[..i + 1] <==> r in records[..i] || r == records[i];
      if family != "" {
        if family !in families { NoneOfFamily(records[..i], family); }
        families := families[family := (if family in families then families[family] else []) + [records[i]]];
      }
    }
    assert records[..|records|] == records;
    var overall := Select(rnd, records, DEFAULT_THRESHOLD, GlobalReady(records, min));
    var profiles: map<string, Selection> := map[];
    var left := families.Keys;
    while left != {}
      invariant left <= families.Keys && profiles.Keys == families.Keys - left
      invariant forall f :: f in profiles ==>
                  var rows := OfFamily(records, f);
                  IsSelection(rnd, profiles[f], rows, overall.threshold, FamilyReady(rows, min))
      decreases left
    {
      var f :| f in left;
      var one := Select(rnd, families[f], overall.threshold, FamilyReady(families[f], min));
      profiles := profiles[f := one];
      left := left - {f};
    }
    p := Profile(overall, profiles);
  }

  lemma {:induction false} NoneOfFamily(records: seq<Record>, family: string)
    requires forall r :: r in records ==> r.family != family
    ensures OfFamily(records, family) == []
  {
    if records != [] { NoneOfFamily(records[..|records| - 1], family); }
  }

  /** The observed rate of the bin a score falls in, or None when that bin is empty. */
  function EmpiricalRate(records: seq<Record>, score: int, n: int): Option<real>
    requires 2 <= n <= 20 && 0 <= score <= 100
  {
    var row := RowOf(records, BinOf(score, n), n);
    if row.support == 0 then None else Some(row.positives as real / row.support as real)
  }

  method LookUp(bins: seq<BinRow>, score: int, ghost rows: seq<Record>) returns (empirical: Option<real>)
    requires 0 <= score <= 100
    requires if rows == [] then bins == [] else IsTable(bins, rows, DEFAULT_BIN_COUNT)
    ensures empirical == EmpiricalRate(rows, score, DEFAULT_BIN_COUNT)
  {
    ghost var chosen := BinOf(score, DEFAULT_BIN_COUNT);
    for i := 0 to |bins|
      invariant forall j :: 0 <= j < i && j == chosen ==> bins[j].support == 0
    {
      var bucket := bins[i];
      if bucket.support != 0 && bucket.low <= score <= bucket.high {
        BinsAreDisjoint(score, i, chosen, DEFAULT_BIN_COUNT);
        return Some(bucket.positives as real / bucket.support as real);
      }
    }
    return None;
  }

  /** `calibration_for_score` scans the stored rows by their bounds; on a profile
      built from `records` it finds the bin that binning itself would choose. */
  method CalibrationForScore(rnd: Rounding, family: string, raw: int, p: Profile,
                             ghost records: seq<Record>, ghost min: Minimums)
    returns (threshold: int, above: bool, empirical: Option<real>)
    requires IsProfile(rnd, p, records, min)
    ensures var rows := OfFamily(records, family);
            var useFamily := family != "" && rows != [] && FamilyReady(rows, min);
            && empirical == EmpiricalRate(if useFamily then rows else records, Score(raw), DEFAULT_BIN_COUNT)
            && (useFamily ==> IsBest(rnd, rows, DEFAULT_THRESHOLD, threshold))
            && (!useFamily && !GlobalReady(records, min) ==> threshold == DEFAULT_THRESHOLD)
            && (!useFamily && GlobalReady(records, min) ==> IsBest(rnd, records, DEFAULT_THRESHOLD, threshold))
            && above == (Score(raw) >= threshold)
  {
    FamilyPresent(records, family);
    var useFamily := family in p.families && p.families[family].ready;
    var selected := if useFamily then p.families[family] else p.overall;
    threshold := Score(selected.threshold);
    above := Score(raw) >= threshold;
    empirical := LookUp(selected.bins, Score(raw), if useFamily then OfFamily(records, family) else records);
  }

  lemma {:induction false} FamilyPresent(records: seq<Record>, family: string)
    ensures OfFamily(records, family) != [] <==> exists r :: r in records && r.family == family
  {
    if records != [] {
      var init, last := records[..|records| - 1], records[|records| - 1];
      FamilyPresent(init, family);
      assert forall r :: r in records <==> r in init || r == last;
    }
  }
}
