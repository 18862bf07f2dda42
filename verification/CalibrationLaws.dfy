/** What metrics, bins and rates are, told by counting records. */
module CalibrationLaws {
  import opened CalibrationBins
  import opened Options
  import opened Ordering
  import opened Reals
  import opened Thresholds

  // ----- which records are counted

  function Positive(r: Record): bool { r.positive }
  function Negative(r: Record): bool { !r.positive }
  function Flagged(t: int): Record -> bool { (r: Record) => Score(r.raw) >= t }
  function Hit(t: int): Record -> bool { (r: Record) => r.positive && Score(r.raw) >= t }
  function Miss(t: int): Record -> bool { (r: Record) => r.positive && Score(r.raw) < t }
  function Alarm(t: int): Record -> bool { (r: Record) => !r.positive && Score(r.raw) >= t }
  function Pass(t: int): Record -> bool { (r: Record) => !r.positive && Score(r.raw) < t }

  lemma {:induction false} CountsAreNumbers(records: seq<Record>, t: int)
    ensures CountsAt(records, t) ==
            Counts(Number(Hit(t), records), Number(Alarm(t), records), Number(Pass(t), records), Number(Miss(t), records))
  {
    if records != [] {
      CountsAreNumbers(records[..|records| - 1], t);
      NumberLast(Hit(t), records);
      NumberLast(Alarm(t), records);
      NumberLast(Pass(t), records);
      NumberLast(Miss(t), records);
      hide Number;
    }
  }

  lemma NumbersAddUp(records: seq<Record>, t: int)
    ensures Number(Flagged(t), records) == Number(Hit(t), records) + Number(Alarm(t), records)
    ensures Number(Positive, records) == Number(Hit(t), records) + Number(Miss(t), records)
    ensures Number(Negative, records) == Number(Alarm(t), records) + Number(Pass(t), records)
  {
    NumberSplits(Flagged(t), Hit(t), Alarm(t), records);
    NumberSplits(Positive, Hit(t), Miss(t), records);
    NumberSplits(Negative, Alarm(t), Pass(t), records);
  }

  // ----- the metrics

  ghost predicate Exact(rnd: Rounding) { forall x :: rnd(x) == x }

  /** `a / b`, and 0 when `b` is 0, rounded. */
  predicate IsShare(rnd: Rounding, x: real, a: nat, b: nat) {
    x == if b == 0 then 0.0 else rnd(a as real / b as real)
  }

  /** Precision is the share of positives among the flagged records, recall that of flagged ones among the
      positives, and so on; F1 is the harmonic mean of the two rounded figures. */
  lemma WhatMetricsMean(rnd: Rounding, records: seq<Record>, t: int)
    ensures var m := MetricsAt(rnd, records, t);
            var flagged, positives, negatives := Number(Flagged(t), records), Number(Positive, records), Number(Negative, records);
            && m.threshold == t && m.counts.tp == Number(Hit(t), records) && m.counts.fp == Number(Alarm(t), records)
            && IsShare(rnd, m.precision, Number(Hit(t), records), flagged)
            && IsShare(rnd, m.recall, Number(Hit(t), records), positives)
            && IsShare(rnd, m.falsePositiveRate, Number(Alarm(t), records), negatives)
            && IsShare(rnd, m.specificity, Number(Pass(t), records), negatives)
            && IsShare(rnd, m.accuracy, Number(Hit(t), records) + Number(Pass(t), records), |records|)
            && IsHarmonic(rnd, m.f1, m.precision, m.recall)
  {
    hide Number, CountsAt, Ratio, IsShare, IsHarmonic;
    CountsAreNumbers(records, t);
    NumbersAddUp(records, t);
    CountsPartition(records, t);
    var c := CountsAt(records, t);
    Figures(rnd, t, c);
    hide MetricsOf;
    RatioIsShare(rnd, c.tp, c.tp + c.fp, Number(Flagged(t), records));
    RatioIsShare(rnd, c.tp, c.tp + c.fn, Number(Positive, records));
    RatioIsShare(rnd, c.fp, c.fp + c.tn, Number(Negative, records));
    RatioIsShare(rnd, c.tn, c.tn + c.fp, Number(Negative, records));
    RatioIsShare(rnd, c.tp + c.tn, c.tp + c.fp + c.tn + c.fn, |records|);
  }

  /** The harmonic mean, rounded. */
  predicate IsHarmonic(rnd: Rounding, f1: real, p: real, r: real) {
    f1 == if p + r == 0.0 then 0.0 else rnd(2.0 * p * r / (p + r))
  }

  lemma Figures(rnd: Rounding, t: int, c: Counts)
    ensures var m := MetricsOf(rnd, t, c);
            && m.threshold == t && m.counts == c
            && m.precision == Ratio(rnd, c.tp, c.tp + c.fp) && m.recall == Ratio(rnd, c.tp, c.tp + c.fn)
            && m.falsePositiveRate == Ratio(rnd, c.fp, c.fp + c.tn) && m.specificity == Ratio(rnd, c.tn, c.tn + c.fp)
            && m.accuracy == Ratio(rnd, c.tp + c.tn, c.tp + c.fp + c.tn + c.fn)
            && IsHarmonic(rnd, m.f1, m.precision, m.recall)
  {
    hide Ratio;
    var m := MetricsOf(rnd, t, c);
    HarmonicIs(rnd, m.precision, m.recall);
    hide Harmonic, IsHarmonic;
  }

  lemma HarmonicIs(rnd: Rounding, p: real, r: real)
    ensures IsHarmonic(rnd, Harmonic(rnd, p, r), p, r)
  {
  }

  lemma RatioIsShare(rnd: Rounding, a: nat, b: nat, whole: nat)
    requires b == whole
    ensures IsShare(rnd, Ratio(rnd, a, b), a, whole)
  {
  }

  lemma ShareProduct(rnd: Rounding, x: real, a: nat, b: nat)
    requires Exact(rnd) && IsShare(rnd, x, a, b) && a <= b
    ensures x * b as real == a as real && x >= 0.0 && (x == 0.0 <==> a == 0)
  {
    if b != 0 { assert x == a as real / b as real; }
  }

  lemma HarmonicMean(precision: real, recall: real, f1: real, hits: real, flagged: real, positives: real)
    requires precision * flagged == hits && recall * positives == hits && hits > 0.0 && flagged > 0.0 && positives > 0.0
    requires f1 * (precision + recall) == 2.0 * precision * recall
    ensures f1 * (flagged + positives) == 2.0 * hits
  {
    var product := flagged * positives;
    assert (precision + recall) * product == hits * (positives + flagged) by {
      assert precision * product == precision * flagged * positives == hits * positives;
      assert recall * product == recall * positives * flagged == hits * flagged;
    }
    assert 2.0 * precision * recall * product == 2.0 * hits * hits by {
      assert precision * recall * product == (precision * flagged) * (recall * positives);
    }
    assert f1 * (precision + recall) * product == 2.0 * precision * recall * product;
    assert f1 * (hits * (positives + flagged)) == 2.0 * hits * hits;
    CancelHits(f1 * (positives + flagged), 2.0 * hits, hits);
  }

  lemma CancelHits(a: real, b: real, h: real)
    requires h > 0.0 && a * h == b * h
    ensures a == b
  {
  }

  /** Without rounding the figures are exact shares, and F1 is twice the hits over flagged and positives. */
  lemma WhatExactMetricsMean(rnd: Rounding, records: seq<Record>, t: int)
    requires Exact(rnd)
    ensures var m := MetricsAt(rnd, records, t);
            var flagged, positives, negatives := Number(Flagged(t), records), Number(Positive, records), Number(Negative, records);
            var hits, alarms := Number(Hit(t), records), Number(Alarm(t), records);
            && m.precision * flagged as real == hits as real && (flagged == 0 ==> m.precision == 0.0)
            && m.recall * positives as real == hits as real && (positives == 0 ==> m.recall == 0.0)
            && m.falsePositiveRate * negatives as real == alarms as real && (negatives == 0 ==> m.falsePositiveRate == 0.0)
            && m.f1 * (flagged + positives) as real == 2.0 * hits as real && (flagged + positives == 0 ==> m.f1 == 0.0)
            && m.f1 * (m.precision + m.recall) == 2.0 * m.precision * m.recall
  {
    WhatMetricsMean(rnd, records, t);
    NumbersAddUp(records, t);
    hide Number, MetricsAt;
    var m := MetricsAt(rnd, records, t);
    var flagged, positives := Number(Flagged(t), records), Number(Positive, records);
    var hits := Number(Hit(t), records);
    ShareProduct(rnd, m.precision, hits, flagged);
    ShareProduct(rnd, m.recall, hits, positives);
    ShareProduct(rnd, m.falsePositiveRate, Number(Alarm(t), records), Number(Negative, records));
    hide IsShare, IsHarmonic;
    HarmonicShare(rnd, m.f1, m.precision, m.recall);
    if hits > 0 { HarmonicMean(m.precision, m.recall, m.f1, hits as real, flagged as real, positives as real); }
  }

  lemma HarmonicShare(rnd: Rounding, f1: real, p: real, r: real)
    requires Exact(rnd) && p >= 0.0 && r >= 0.0
    requires IsHarmonic(rnd, f1, p, r)
    ensures f1 * (p + r) == 2.0 * p * r && (p == 0.0 && r == 0.0 ==> f1 == 0.0)
  {
    if p + r != 0.0 {
      var n, d := 2.0 * p * r, p + r;
      assert f1 == n / d;
      assert n / d * d == n;
    }
  }

  // ----- the chosen threshold

  function Quotient(a: nat, b: nat): real { if b == 0 then 0.0 else a as real / b as real }

  /** Twice the hits over flagged and positives. */
  function F1(records: seq<Record>, t: int): real {
    Quotient(2 * Number(Hit(t), records), Number(Flagged(t), records) + Number(Positive, records))
  }

  function Precision(records: seq<Record>, t: int): real {
    Quotient(Number(Hit(t), records), Number(Flagged(t), records))
  }

  function Distance(a: int, b: int): int { if a < b then b - a else a - b }

  /** The higher F1; at equal F1 the higher precision; then more hits; then fewer false alarms; then nearer
      to the default; then the higher threshold. */
  predicate Beats(records: seq<Record>, preset: int, x: int, y: int) {
    || F1(records, x) > F1(records, y)
    || (F1(records, x) == F1(records, y) &&
        (|| Precision(records, x) > Precision(records, y)
         || (Precision(records, x) == Precision(records, y) &&
             (|| Number(Hit(x), records) > Number(Hit(y), records)
              || (Number(Hit(x), records) == Number(Hit(y), records) &&
                  (|| Number(Alarm(x), records) < Number(Alarm(y), records)
                   || (Number(Alarm(x), records) == Number(Alarm(y), records) &&
                       (|| Distance(x, preset) < Distance(y, preset)
                        || (Distance(x, preset) == Distance(y, preset) && x > y)))))))))
  }

  lemma SameQuotient(x: real, a: nat, b: nat)
    requires x * b as real == a as real && (b == 0 ==> x == 0.0)
    ensures x == Quotient(a, b)
  {
    if b != 0 { CancelHits(x, a as real / b as real, b as real); }
  }

  predicate IsPart(x: real, a: nat, whole: nat) { x * whole as real == a as real && (whole == 0 ==> x == 0.0) }

  lemma SharesCompare(x: real, y: real, a: nat, b: nat, whole: nat)
    requires IsPart(x, a, whole) && IsPart(y, b, whole)
    ensures (x > y <==> a > b) && (x == y <==> a == b)
  {
    if whole != 0 {
      if x > y { assert x * whole as real > y * whole as real; }
      if x < y { assert x * whole as real < y * whole as real; }
    }
  }

  lemma ExactFigures(rnd: Rounding, records: seq<Record>, t: int)
    requires Exact(rnd)
    ensures var m := MetricsAt(rnd, records, t);
            m.f1 == F1(records, t) && m.precision == Precision(records, t) && m.threshold == t
  {
    hide Number, MetricsAt, IsShare, Quotient;
    WhatExactMetricsMean(rnd, records, t);
    WhatMetricsMean(rnd, records, t);
    var m := MetricsAt(rnd, records, t);
    SameQuotient(m.precision, Number(Hit(t), records), Number(Flagged(t), records));
    SameQuotient(m.f1, 2 * Number(Hit(t), records), Number(Flagged(t), records) + Number(Positive, records));
  }

  lemma ExactRates(rnd: Rounding, records: seq<Record>, t: int)
    requires Exact(rnd)
    ensures IsPart(MetricsAt(rnd, records, t).recall, Number(Hit(t), records), Number(Positive, records))
    ensures IsPart(MetricsAt(rnd, records, t).falsePositiveRate, Number(Alarm(t), records), Number(Negative, records))
  {
    hide Number, MetricsAt;
    WhatExactMetricsMean(rnd, records, t);
  }

  lemma RatesCompare(rnd: Rounding, records: seq<Record>, x: int, y: int)
    requires Exact(rnd)
    ensures var a, b := MetricsAt(rnd, records, x), MetricsAt(rnd, records, y);
            && (a.recall > b.recall <==> Number(Hit(x), records) > Number(Hit(y), records))
            && (a.recall == b.recall <==> Number(Hit(x), records) == Number(Hit(y), records))
            && (a.falsePositiveRate > b.falsePositiveRate <==> Number(Alarm(x), records) > Number(Alarm(y), records))
            && (a.falsePositiveRate == b.falsePositiveRate <==> Number(Alarm(x), records) == Number(Alarm(y), records))
  {
    hide Number, MetricsAt, IsPart;
    ExactRates(rnd, records, x);
    ExactRates(rnd, records, y);
    var a, b := MetricsAt(rnd, records, x), MetricsAt(rnd, records, y);
    SharesCompare(a.recall, b.recall, Number(Hit(x), records), Number(Hit(y), records), Number(Positive, records));
    SharesCompare(a.falsePositiveRate, b.falsePositiveRate, Number(Alarm(x), records), Number(Alarm(y), records), Number(Negative, records));
  }

  lemma {:induction false} BetterBeats(rnd: Rounding, records: seq<Record>, preset: int, x: int, y: int)
    requires Exact(rnd)
    ensures Better(ObjectiveAt(rnd, records, preset, x), ObjectiveAt(rnd, records, preset, y)) <==> Beats(records, preset, x, y)
  {
    hide Number, MetricsAt, F1, Precision;
    ExactFigures(rnd, records, x);
    ExactFigures(rnd, records, y);
    RatesCompare(rnd, records, x, y);
  }

  /** The selected threshold is the one of 0 to 100 that beats all others. */
  lemma WhatIsSelected(rnd: Rounding, records: seq<Record>, preset: int, best: int)
    requires Exact(rnd)
    ensures IsBest(rnd, records, preset, best) <==>
            0 <= best <= 100 && forall t :: 0 <= t <= 100 && t != best ==> Beats(records, preset, best, t)
  {
    hide Beats, Better, ObjectiveAt;
    forall t ensures Better(ObjectiveAt(rnd, records, preset, best), ObjectiveAt(rnd, records, preset, t)) <==> Beats(records, preset, best, t) {
      BetterBeats(rnd, records, preset, best, t);
    }
  }

  // ----- bins

  /** The bins cut 0 to 100 into `n` parts at the whole percents. */
  predicate InPart(score: int, i: nat, n: int) {
    100 * i < n * (score + 1) && (i == n - 1 || n * (score + 1) <= 100 * (i + 1))
  }

  lemma FloorCompare(a: int, n: int, score: int)
    requires n > 0
    ensures a / n <= score <==> a < n * (score + 1)
  {
    DivideBounds(a, n);
    var q := a / n;
    if q <= score { MultiplyOrder(q + 1, score + 1, n); } else { MultiplyOrder(score + 1, q, n); }
  }

  lemma WhichBin(score: int, i: nat, n: int)
    requires 2 <= n <= 20 && i < n && 0 <= score <= 100
    ensures InBin(score, i, n) <==> InPart(score, i, n)
  {
    FloorCompare(i * 100, n, score);
    FloorCompare((i + 1) * 100, n, score);
  }

  function In(i: nat, n: int): Record -> bool { (r: Record) => InPart(Score(r.raw), i, n) }
  function PositiveIn(i: nat, n: int): Record -> bool { (r: Record) => r.positive && InPart(Score(r.raw), i, n) }
  function ScoreOf(r: Record): int { Score(r.raw) }

  function Total(s: seq<int>): int { if s == [] then 0 else s[0] + Total(s[1..]) }

  lemma {:induction false} TotalLast(s: seq<int>)
    requires s != []
    ensures Total(s) == Total(s[..|s| - 1]) + s[|s| - 1]
  {
    if |s| > 1 {
      TotalLast(s[1..]);
      assert s[1..][..|s| - 2] == s[..|s| - 1][1..];
    }
  }

  lemma BinIsPart(r: Record, i: nat, n: int)
    requires 2 <= n <= 20 && i < n
    ensures BinOf(Score(r.raw), n) == i <==> In(i, n)(r)
  {
    WhichBin(Score(r.raw), i, n);
    BinsAreDisjoint(Score(r.raw), BinOf(Score(r.raw), n), i, n);
  }

  lemma {:induction false} BucketIsPart(records: seq<Record>, i: nat, n: int)
    requires 2 <= n <= 20 && i < n
    ensures Bucket(records, i, n) == Filter(In(i, n), records)
  {
    hide BinOf, InPart, Filter;
    if records == [] {
      assert Filter(In(i, n), records) == [] by { FilterNone(In(i, n), records); }
    } else {
      var init, last := records[..|records| - 1], records[|records| - 1];
      BucketIsPart(init, i, n);
      BinIsPart(last, i, n);
      assert init + [last] == records;
      FilterSnoc(In(i, n), init, last);
    }
  }

  lemma {:induction false} ScoresAddUp(rows: seq<Record>)
    ensures ScoreSum(rows) == Total(Map(ScoreOf, rows))
  {
    if rows != [] {
      ScoresAddUp(rows[..|rows| - 1]);
      TotalLast(Map(ScoreOf, rows));
      MapSnoc(ScoreOf, rows);
      hide Map, Total;
    }
  }

  lemma {:induction false} PositivesIn(records: seq<Record>, i: nat, n: int)
    ensures Number(Positive, Filter(In(i, n), records)) == Number(PositiveIn(i, n), records)
  {
    FilterTwice(In(i, n), Positive, PositiveIn(i, n), records);
  }

  lemma BucketIs(records: seq<Record>, i: nat, n: int)
    requires 2 <= n <= 20 && i < n
    ensures Bucket(records, i, n) == Filter(In(i, n), records)
    ensures Positives(Bucket(records, i, n)) == Number(PositiveIn(i, n), records)
    ensures ScoreSum(Bucket(records, i, n)) == Total(Map(ScoreOf, Filter(In(i, n), records)))
  {
    hide Bucket, Positives, ScoreSum, Filter, Map, Total, Number;
    BucketIsPart(records, i, n);
    PositivesAre(Bucket(records, i, n));
    PositivesIn(records, i, n);
    ScoresAddUp(Bucket(records, i, n));
  }

  /** Each row of the table counts the records of its part. */
  lemma WhatABinHolds(records: seq<Record>, rows: seq<BinRow>, n: int, i: nat)
    requires 2 <= n <= 20 && IsTable(rows, records, n) && i < n
    ensures |rows| == n && rows[i].index == i
    ensures rows[i].support == Number(In(i, n), records) && rows[i].positives == Number(PositiveIn(i, n), records)
    ensures rows[i].scoreSum == Total(Map(ScoreOf, Filter(In(i, n), records)))
    ensures forall score :: 0 <= score <= 100 ==> (rows[i].low <= score <= rows[i].high <==> InPart(score, i, n))
  {
    BucketIs(records, i, n);
    forall score | 0 <= score <= 100 ensures InBin(score, i, n) <==> InPart(score, i, n) { WhichBin(score, i, n); }
    hide Bucket, ScoreSum, Positives, Filter, Low, InPart;
  }

  // ----- diagnostics

  function RealTotal(s: seq<real>): real { if s == [] then 0.0 else s[0] + RealTotal(s[1..]) }

  lemma {:induction false} RealTotalLast(s: seq<real>)
    requires s != []
    ensures RealTotal(s) == RealTotal(s[..|s| - 1]) + s[|s| - 1]
  {
    if |s| > 1 {
      RealTotalLast(s[1..]);
      assert s[1..][..|s| - 2] == s[..|s| - 1][1..];
    }
  }

  /** The squared distance of score and outcome: 1 for a positive record, 0 for a negative one. */
  function SquaredError(r: Record): real {
    var p := Score(r.raw) as real / 100.0;
    if r.positive then (1.0 - p) * (1.0 - p) else p * p
  }

  lemma MapSnoc<T, U>(f: T -> U, s: seq<T>)
    requires s != []
    ensures Map(f, s)[..|s| - 1] == Map(f, s[..|s| - 1])
  {
  }

  lemma {:induction false} SquareSumIs(records: seq<Record>)
    ensures SquareSum(records) == RealTotal(Map(SquaredError, records))
  {
    if records != [] {
      hide Gap, SquaredError, Map, RealTotal, SquareSum;
      SquareSumIs(records[..|records| - 1]);
      RealTotalLast(Map(SquaredError, records));
      MapSnoc(SquaredError, records);
      SquareSumLast(records);
    }
  }

  lemma SquareSumLast(records: seq<Record>)
    requires records != []
    ensures SquareSum(records) == SquareSum(records[..|records| - 1]) + SquaredError(records[|records| - 1])
  {
    hide Gap, SquaredError;
    LastSquare(records);
    hide SquareSum;
    SquaredGap(records[|records| - 1]);
  }

  lemma LastSquare(records: seq<Record>)
    requires records != []
    ensures SquareSum(records) == SquareSum(records[..|records| - 1]) + Gap(records[|records| - 1]) * Gap(records[|records| - 1])
  {
    hide Gap;
  }

  lemma SquaredGap(r: Record)
    ensures Gap(r) * Gap(r) == SquaredError(r)
  {
  }

  /** The Brier score is the mean squared error. */
  lemma BrierIsMean(records: seq<Record>)
    requires records != []
    ensures Brier(records) * |records| as real == RealTotal(Map(SquaredError, records))
  {
    hide SquareSum, Map, RealTotal;
    SquareSumIs(records);
    QuotientTimes(SquareSum(records), |records| as real);
  }

  lemma QuotientTimes(a: real, b: real)
    requires b > 0.0
    ensures a / b * b == a
  {
  }

  /** The distance of what the scores of a bin add up to from its number of positives. */
  function BinGap(row: BinRow): real {
    var d := row.scoreSum as real / 100.0 - row.positives as real;
    if d >= 0.0 then d else -d
  }

  lemma OneBinGap(row: BinRow, total: nat)
    requires total > 0 && (row.support == 0 ==> row.scoreSum == 0 && row.positives == 0)
    ensures BinError(row, total) * total as real == BinGap(row)
  {
    if row.support != 0 {
      RatesToGap(row.scoreSum as real, row.positives as real, row.support as real, total as real);
      hide RateError;
    }
  }

  predicate Scaled(x: real, t: real, y: real) { x * t == y }

  lemma ScaledSum(x: real, y: real, t: real, u: real, v: real)
    requires Scaled(x, t, u) && Scaled(y, t, v)
    ensures Scaled(x + y, t, u + v)
  {
    assert (x + y) * t == x * t + y * t;
  }

  lemma ScaledZero(t: real)
    ensures Scaled(0.0, t, 0.0)
  {
  }

  lemma BinScaled(row: BinRow, total: nat)
    requires total > 0 && (row.support == 0 ==> row.scoreSum == 0 && row.positives == 0)
    ensures Scaled(BinError(row, total), total as real, BinGap(row))
  {
    OneBinGap(row, total);
    hide BinError, BinGap;
  }

  lemma {:induction false} ErrorScaled(rows: seq<BinRow>, total: nat)
    requires total > 0 && forall i :: 0 <= i < |rows| && rows[i].support == 0 ==> rows[i].scoreSum == 0 && rows[i].positives == 0
    ensures Scaled(ErrorSum(rows, total), total as real, RealTotal(Map(BinGap, rows)))
  {
    hide BinError, BinGap, Scaled;
    if rows == [] {
      ScaledZero(total as real);
    } else {
      var init, last := rows[..|rows| - 1], rows[|rows| - 1];
      ErrorScaled(init, total);
      BinScaled(last, total);
      RealTotalLast(Map(BinGap, rows));
      MapSnoc(BinGap, rows);
      ScaledSum(ErrorSum(init, total), BinError(last, total), total as real, RealTotal(Map(BinGap, init)), BinGap(last));
    }
  }

  /** The calibration error is the sum of these distances over the number of records. */
  lemma CalibrationErrorIsMean(rows: seq<BinRow>, total: nat)
    requires total > 0 && forall i :: 0 <= i < |rows| && rows[i].support == 0 ==> rows[i].scoreSum == 0 && rows[i].positives == 0
    ensures ErrorSum(rows, total) * total as real == RealTotal(Map(BinGap, rows))
  {
    hide ErrorSum, Map, RealTotal;
    ErrorScaled(rows, total);
  }

  // ----- the rate of a score

  lemma NumberIs<T>(keep: T -> bool, s: seq<T>)
    ensures Number(keep, s) == |Filter(keep, s)|
  {
  }

  /** The rate reported for a score is the share of positives among the records in its part. */
  lemma WhatTheRateIs(records: seq<Record>, score: int, n: int, i: nat)
    requires 2 <= n <= 20 && 0 <= score <= 100 && i < n && InPart(score, i, n)
    ensures var rate := EmpiricalRate(records, score, n);
            && (rate == None <==> Number(In(i, n), records) == 0)
            && (rate.Some? ==> rate.value * Number(In(i, n), records) as real == Number(PositiveIn(i, n), records) as real)
  {
    hide Bucket, ScoreSum, Filter, Low, InPart, BinOf, Positives, InBin, Number;
    WhichBin(score, i, n);
    BinsAreDisjoint(score, BinOf(score, n), i, n);
    assert BinOf(score, n) == i;
    BucketIs(records, i, n);
    assert |Bucket(records, i, n)| == Number(In(i, n), records) by { NumberIs(In(i, n), records); }
    var a, b := Number(PositiveIn(i, n), records), Number(In(i, n), records);
    if b != 0 { assert (a as real / b as real) * b as real == a as real; }
  }

  function FamilyIs(family: string): Record -> bool { (r: Record) => r.family == family }

  lemma {:induction false} FamilyRows(records: seq<Record>, family: string)
    ensures OfFamily(records, family) == Filter(FamilyIs(family), records)
  {
    hide Filter;
    if records == [] {
      FilterNone(FamilyIs(family), records);
    } else {
      var init, last := records[..|records| - 1], records[|records| - 1];
      FamilyRows(init, family);
      FilterSnoc(FamilyIs(family), init, last);
      assert init + [last] == records;
      assert Filter(FamilyIs(family), init) + [] == Filter(FamilyIs(family), init);
    }
  }

  lemma {:induction false} PositivesAre(rows: seq<Record>)
    ensures Positives(rows) == Number(Positive, rows) && |rows| - Positives(rows) == Number(Negative, rows)
  {
    if rows != [] {
      PositivesAre(rows[..|rows| - 1]);
      NumberLast(Positive, rows);
      NumberLast(Negative, rows);
      hide Number;
    }
  }

  /** A family has its own threshold if and only if it has the three minimums of rows; the overall threshold
      is learned if and only if there are enough rows, of both labels. */
  lemma WhenReady(records: seq<Record>, family: string, min: Minimums)
    ensures var rows := Filter(FamilyIs(family), records);
            FamilyReady(OfFamily(records, family), min) <==>
              |rows| >= min.familyCases && Number(Positive, rows) >= min.familyPositive && Number(Negative, rows) >= min.familyNegative
    ensures GlobalReady(records, min) <==>
              |records| >= min.globalCases && Number(Positive, records) > 0 && Number(Negative, records) > 0
  {
    FamilyRows(records, family);
    PositivesAre(OfFamily(records, family));
    FilterMembers(Positive, records);
    FilterMembers(Negative, records);
    hide Filter, OfFamily, Positives;
    if Number(Positive, records) > 0 { assert Filter(Positive, records)[0] in Filter(Positive, records); }
    if Number(Negative, records) > 0 { assert Filter(Negative, records)[0] in Filter(Negative, records); }
  }

  /** A profile covers the families that records name; a family without enough rows has the overall threshold, and
      the overall one without enough rows is 70; every other is the best for its rows. */
  lemma WhatAProfileHolds(rnd: Rounding, p: Profile, records: seq<Record>, min: Minimums, family: string)
    requires Exact(rnd) && IsProfile(rnd, p, records, min)
    ensures !GlobalReady(records, min) ==> p.overall.threshold == 70 && !p.overall.learned
    ensures GlobalReady(records, min) && records != [] ==>
              forall t :: 0 <= t <= 100 && t != p.overall.threshold ==> Beats(records, 70, p.overall.threshold, t)
    ensures family in p.families <==> family != "" && Number(FamilyIs(family), records) > 0
    ensures family in p.families ==>
              var rows := Filter(FamilyIs(family), records);
              && (!FamilyReady(rows, min) ==> p.families[family].threshold == p.overall.threshold && !p.families[family].learned)
              && (FamilyReady(rows, min) ==>
                    forall t :: 0 <= t <= 100 && t != p.families[family].threshold ==> Beats(rows, 70, p.families[family].threshold, t))
              && (p.families[family].ready <==> FamilyReady(rows, min))
  {
    FamilyRows(records, family);
    FilterMembers(FamilyIs(family), records);
    NumberIs(FamilyIs(family), records);
    hide Filter, IsBest, Beats, IsTable, GlobalReady, FamilyReady, OfFamily, Number;
    WhatIsSelected(rnd, records, 70, p.overall.threshold);
    if family in p.families {
      WhatIsSelected(rnd, OfFamily(records, family), 70, p.families[family].threshold);
      var r :| r in records && r.family == family;
      assert FamilyIs(family)(r);
    }
    if Filter(FamilyIs(family), records) != [] { assert Filter(FamilyIs(family), records)[0] in Filter(FamilyIs(family), records); }
  }
}
