/** What reports and review packets say, told by counting ratings. */
module GuidanceLaws {
  import opened ChangeGuidance
  import opened Options
  import opened Ordering

  // ----- which ratings are counted

  /** An explicit rating of the signal; a task without a signal type belongs to "unknown". */
  predicate Rates(t: Task, signal: string) {
    t.advisory && t.rating.Some? && (t.signal == signal || (t.signal == "" && signal == "unknown")) && signal != ""
  }

  function Rated(signal: string): Task -> bool { (t: Task) => Rates(t, signal) }
  function RatedAs(signal: string, u: Usefulness): Task -> bool { (t: Task) => Rates(t, signal) && t.rating == Some(u) }

  /** Rated at that time or later, and before the other time. */
  function RatedFrom(signal: string, from: int, before: int): Task -> bool {
    (t: Task) => Rates(t, signal) && t.recordedAt.Some? && from <= t.recordedAt.value < before
  }
  function RatedFromAs(signal: string, from: int, before: int, u: Usefulness): Task -> bool {
    (t: Task) => RatedFrom(signal, from, before)(t) && t.rating == Some(u)
  }

  /** Rated between the two times, both included. */
  function RatedWithin(signal: string, from: int, to: int): Task -> bool {
    (t: Task) => Rates(t, signal) && t.recordedAt.Some? && from <= t.recordedAt.value <= to
  }
  function RatedWithinAs(signal: string, from: int, to: int, u: Usefulness): Task -> bool {
    (t: Task) => RatedWithin(signal, from, to)(t) && t.rating == Some(u)
  }

  predicate IsBucket(b: Bucket, tasks: seq<Task>, all: Task -> bool, useful: Task -> bool, neutral: Task -> bool, noisy: Task -> bool) {
    && b.feedback == Number(all, tasks) && b.useful == Number(useful, tasks)
    && b.neutral == Number(neutral, tasks) && b.noisy == Number(noisy, tasks)
  }

  lemma BucketLast(b: Bucket, rating: Option<Usefulness>, tasks: seq<Task>, all: Task -> bool,
                   useful: Task -> bool, neutral: Task -> bool, noisy: Task -> bool)
    requires tasks != [] && IsBucket(b, tasks[..|tasks| - 1], all, useful, neutral, noisy)
    requires var t := tasks[|tasks| - 1];
             && (rating.Some? <==> all(t)) && (useful(t) <==> rating == Some(Useful))
             && (neutral(t) <==> rating == Some(Neutral)) && (noisy(t) <==> rating == Some(Noisy))
    ensures IsBucket(if rating.Some? then AddSample(b, rating.value) else b, tasks, all, useful, neutral, noisy)
  {
    hide Number;
    NumberLast(all, tasks);
    NumberLast(useful, tasks);
    NumberLast(neutral, tasks);
    NumberLast(noisy, tasks);
  }

  /** The calibration report counts every explicit rating of the signal. */
  lemma {:induction false} WhatCalibrationCounts(tasks: seq<Task>, signal: string)
    requires signal != ""
    ensures IsBucket(Counts(tasks, signal, Everything), tasks, Rated(signal),
                     RatedAs(signal, Useful), RatedAs(signal, Neutral), RatedAs(signal, Noisy))
  {
    hide IsBucket, AddSample;
    if tasks == [] {
      EmptyBucket(Rated(signal), RatedAs(signal, Useful), RatedAs(signal, Neutral), RatedAs(signal, Noisy));
    } else {
      var init, last := tasks[..|tasks| - 1], tasks[|tasks| - 1];
      WhatCalibrationCounts(init, signal);
      BucketLast(Counts(init, signal, Everything), if Rates(last, signal) then last.rating else None, tasks, Rated(signal),
                 RatedAs(signal, Useful), RatedAs(signal, Neutral), RatedAs(signal, Noisy));
    }
  }

  lemma EmptyBucket(all: Task -> bool, useful: Task -> bool, neutral: Task -> bool, noisy: Task -> bool)
    ensures IsBucket(EMPTY, [], all, useful, neutral, noisy)
  {
  }

  lemma {:induction false} OpenWindow(tasks: seq<Task>, signal: string, from: int, before: int)
    requires signal != ""
    ensures IsBucket(Counts(tasks, signal, Window(from, before, false)), tasks, RatedFrom(signal, from, before),
                     RatedFromAs(signal, from, before, Useful), RatedFromAs(signal, from, before, Neutral),
                     RatedFromAs(signal, from, before, Noisy))
  {
    hide IsBucket, AddSample;
    var all, u, n, o := RatedFrom(signal, from, before), RatedFromAs(signal, from, before, Useful),
                        RatedFromAs(signal, from, before, Neutral), RatedFromAs(signal, from, before, Noisy);
    if tasks == [] {
      EmptyBucket(all, u, n, o);
    } else {
      var init, last := tasks[..|tasks| - 1], tasks[|tasks| - 1];
      OpenWindow(init, signal, from, before);
      BucketLast(Counts(init, signal, Window(from, before, false)), if all(last) then last.rating else None, tasks, all, u, n, o);
    }
  }

  lemma {:induction false} ClosedWindow(tasks: seq<Task>, signal: string, from: int, to: int)
    requires signal != "" && from <= to
    ensures IsBucket(Counts(tasks, signal, Window(from, to, true)), tasks, RatedWithin(signal, from, to),
                     RatedWithinAs(signal, from, to, Useful), RatedWithinAs(signal, from, to, Neutral),
                     RatedWithinAs(signal, from, to, Noisy))
  {
    hide IsBucket, AddSample;
    var all, u, n, o := RatedWithin(signal, from, to), RatedWithinAs(signal, from, to, Useful),
                        RatedWithinAs(signal, from, to, Neutral), RatedWithinAs(signal, from, to, Noisy);
    if tasks == [] {
      EmptyBucket(all, u, n, o);
    } else {
      var init, last := tasks[..|tasks| - 1], tasks[|tasks| - 1];
      ClosedWindow(init, signal, from, to);
      BucketLast(Counts(init, signal, Window(from, to, true)), if all(last) then last.rating else None, tasks, all, u, n, o);
    }
  }

  // ----- the two windows

  /** The latest time of an explicit rating. */
  ghost predicate IsLatest(tasks: seq<Task>, at: int) {
    && (exists t :: t in tasks && t.advisory && t.rating.Some? && t.recordedAt == Some(at))
    && (forall t :: t in tasks && t.advisory && t.rating.Some? && t.recordedAt.Some? ==> t.recordedAt.value <= at)
  }

  lemma {:induction false} AnchorIsLatest(tasks: seq<Task>)
    ensures match Anchor(tasks)
            case Some(at) => IsLatest(tasks, at)
            case None => forall t :: t in tasks && t.advisory && t.rating.Some? ==> t.recordedAt == None
  {
    if tasks != [] {
      var init, last := tasks[..|tasks| - 1], tasks[|tasks| - 1];
      AnchorIsLatest(init);
      assert last in tasks;
      assert forall t :: t in tasks <==> t in init || t == last;
    }
  }

  lemma LatestIsAnchor(tasks: seq<Task>, at: int)
    requires IsLatest(tasks, at)
    ensures Anchor(tasks) == Some(at)
  {
    AnchorIsLatest(tasks);
    var t :| t in tasks && t.advisory && t.rating.Some? && t.recordedAt == Some(at);
    if Anchor(tasks).Some? {
      var u :| u in tasks && u.advisory && u.rating.Some? && u.recordedAt == Some(Anchor(tasks).value);
    }
  }

  /** The recent window is the last `days` days up to the latest rating, both ends included; the previous one
      is the same length before it, its end excluded. A day has 86400 seconds. */
  lemma WhatDriftCounts(tasks: seq<Task>, days: nat, signal: string, at: int)
    requires signal != "" && IsLatest(tasks, at)
    ensures var t := TrendOf(tasks, days, signal);
            var start := at - 86400 * days; var first := at - 172800 * days;
            && IsBucket(t.recent, tasks, RatedWithin(signal, start, at),
                        RatedWithinAs(signal, start, at, Useful), RatedWithinAs(signal, start, at, Neutral), RatedWithinAs(signal, start, at, Noisy))
            && IsBucket(t.previous, tasks, RatedFrom(signal, first, start),
                        RatedFromAs(signal, first, start, Useful), RatedFromAs(signal, first, start, Neutral), RatedFromAs(signal, first, start, Noisy))
  {
    hide IsBucket, Counts, TrendOf, RatedWithin, RatedWithinAs, RatedFrom, RatedFromAs, IsLatest;
    TrendWindows(tasks, days, signal, at);
    ClosedWindow(tasks, signal, at - 86400 * days, at);
    OpenWindow(tasks, signal, at - 172800 * days, at - 86400 * days);
  }

  lemma TrendWindows(tasks: seq<Task>, days: nat, signal: string, at: int)
    requires IsLatest(tasks, at)
    ensures TrendOf(tasks, days, signal) ==
            Trend(Counts(tasks, signal, Window(at - 172800 * days, at - 86400 * days, false)),
                  Counts(tasks, signal, Window(at - 86400 * days, at, true)))
  {
    LatestIsAnchor(tasks, at);
    hide Counts, Anchor;
  }

  /** Without a rating that has a time both windows are empty. */
  lemma NoWindows(tasks: seq<Task>, days: nat, signal: string)
    requires forall t :: t in tasks && t.advisory && t.rating.Some? ==> t.recordedAt == None
    ensures TrendOf(tasks, days, signal) == Trend(Bucket(0, 0, 0, 0), Bucket(0, 0, 0, 0))
  {
    AnchorIsLatest(tasks);
  }

  /** The newest `limit` tasks, between 1 and 5000. */
  lemma WhatIsRead(table: seq<Task>, limit: int)
    ensures var n := if limit == 0 || limit > 5000 then 5000 else if limit < 0 then 1 else limit;
            Fetch(table, limit) <= table && |Fetch(table, limit)| == if |table| < n then |table| else n
  {
  }

  // ----- what the figures mean

  lemma ShareCompare(a: nat, b: nat, num: nat, den: nat)
    requires b > 0 && den > 0
    ensures a as real / b as real >= num as real / den as real <==> den * a >= num * b
    ensures a as real / b as real <= num as real / den as real <==> den * a <= num * b
  {
    var x, y := a as real / b as real, num as real / den as real;
    assert x * b as real == a as real && y * den as real == num as real;
    var scale := b as real * den as real;
    assert x * scale == (den * a) as real && y * scale == (num * b) as real;
    Compare(x, y, scale);
  }

  lemma Compare(x: real, y: real, scale: real)
    requires scale > 0.0
    ensures x >= y <==> x * scale >= y * scale
    ensures x <= y <==> x * scale <= y * scale
  {
    if x > y { assert x * scale > y * scale; }
    if x < y { assert x * scale < y * scale; }
  }

  /** A signal is on noise watch from five ratings on, of which two and two fifths are noisy; on utility watch
      when three and three fifths are useful, at most a fifth noisy, and it is not on noise watch. */
  lemma WhatShadowMeans(b: Bucket)
    ensures Shadow(b) == InsufficientFeedback <==> b.feedback < 5
    ensures Shadow(b) == NoiseWatch <==> b.feedback >= 5 && b.noisy >= 2 && 5 * b.noisy >= 2 * b.feedback
    ensures Shadow(b) == UtilityWatch <==>
              b.feedback >= 5 && !(b.noisy >= 2 && 5 * b.noisy >= 2 * b.feedback) &&
              b.useful >= 3 && 5 * b.useful >= 3 * b.feedback && 5 * b.noisy <= b.feedback
  {
    if b.feedback >= 5 {
      ShareCompare(b.noisy, b.feedback, 2, 5);
      ShareCompare(b.useful, b.feedback, 3, 5);
      ShareCompare(b.noisy, b.feedback, 1, 5);
    }
  }

  ghost predicate Exact(rnd: Rounding) { forall x :: rnd(x) == x }

  /** By how much the share of the recent window exceeds that of the previous one, times both sizes. */
  function Gain(recent: nat, recentAll: nat, previous: nat, previousAll: nat): int {
    recent * previousAll - previous * recentAll
  }

  lemma Cast(a: int, b: int)
    ensures (a * b) as real == a as real * b as real
  {
  }

  lemma ScaledDelta(x: real, y: real, a: real, b: real, c: real, d: real, den: real)
    requires x * b == a && y * d == c
    ensures (x - y) * (b * d * den) == den * (a * d - c * b)
  {
    assert x * (b * d * den) == (x * b) * (d * den);
    assert y * (b * d * den) == (y * d) * (b * den);
  }

  lemma GainCast(a: nat, b: nat, c: nat, d: nat, den: nat)
    ensures (den * Gain(a, b, c, d)) as real == den as real * (a as real * d as real - c as real * b as real)
  {
    Cast(a, d);
    Cast(c, b);
    Cast(den, Gain(a, b, c, d));
  }

  lemma Whole(a: real, b: real)
    requires b > 0.0
    ensures a / b * b == a
  {
  }

  lemma ScalePositive(b: real, d: real, den: real)
    requires b > 0.0 && d > 0.0 && den > 0.0
    ensures b * d * den > 0.0
  {
  }

  lemma Rescaled(z: real, num: real, den: real, product: real)
    requires z * den == num
    ensures z * (product * den) == num * product
  {
  }

  lemma GainCompare(a: nat, b: nat, c: nat, d: nat, num: int, den: nat, delta: real, z: real)
    requires b > 0 && d > 0 && den > 0 && delta == a as real / b as real - c as real / d as real && z * den as real == num as real
    ensures delta >= z <==> den * Gain(a, b, c, d) >= num * (b * d)
    ensures delta <= z <==> den * Gain(a, b, c, d) <= num * (b * d)
  {
    hide Gain;
    var x, y := a as real / b as real, c as real / d as real;
    Whole(a as real, b as real);
    Whole(c as real, d as real);
    var scale := b as real * d as real * den as real;
    ScalePositive(b as real, d as real, den as real);
    ScaledDelta(x, y, a as real, b as real, c as real, d as real, den as real);
    GainCast(a, b, c, d, den);
    Rescaled(z, num as real, den as real, b as real * d as real);
    Cast(b, d);
    Cast(num, b * d);
    Compare(delta, z, scale);
  }

  predicate Rose(t: Trend) {
    t.recent.noisy >= 2 && 4 * Gain(t.recent.noisy, t.recent.feedback, t.previous.noisy, t.previous.feedback) >= t.recent.feedback * t.previous.feedback
  }

  predicate Declined(t: Trend) {
    && 2 * t.previous.useful >= t.previous.feedback
    && 4 * Gain(t.recent.useful, t.recent.feedback, t.previous.useful, t.previous.feedback) <= -(t.recent.feedback * t.previous.feedback)
  }

  predicate Improved(t: Trend) {
    && 5 * t.recent.useful >= 3 * t.recent.feedback && 5 * t.recent.noisy <= t.recent.feedback
    && 4 * Gain(t.recent.useful, t.recent.feedback, t.previous.useful, t.previous.feedback) >= t.recent.feedback * t.previous.feedback
  }

  predicate Steady(t: Trend) {
    var both := t.recent.feedback * t.previous.feedback;
    && -3 * both <= 20 * Gain(t.recent.useful, t.recent.feedback, t.previous.useful, t.previous.feedback) <= 3 * both
    && -3 * both <= 20 * Gain(t.recent.noisy, t.recent.feedback, t.previous.noisy, t.previous.feedback) <= 3 * both
  }

  predicate Enough(t: Trend) { t.previous.feedback >= 5 && t.recent.feedback >= 5 }

  /** Without rounding the status is decided by whole numbers: a quarter up in noise; a quarter down in use from
      at least a half; a quarter up to at least three fifths with little noise; both within 15 hundredths. */
  lemma WhatDriftMeans(rnd: Rounding, t: Trend)
    requires Exact(rnd)
    ensures var d := Drift(rnd, t);
            && (d == InsufficientHistory <==> !Enough(t))
            && (d == NoiseIncrease <==> Enough(t) && Rose(t))
            && (d == UtilityDecline <==> Enough(t) && !Rose(t) && Declined(t))
            && (d == UtilityImprovement <==> Enough(t) && !Rose(t) && !Declined(t) && Improved(t))
            && (d == Stable <==> Enough(t) && !Rose(t) && !Declined(t) && !Improved(t) && Steady(t))
  {
    hide Drift, Rate, Rose, Declined, Improved, Steady;
    DriftByRates(rnd, t);
    if Enough(t) {
      var p, r := t.previous, t.recent;
      RateIs(rnd, p.useful, p.feedback);
      RateIs(rnd, r.useful, r.feedback);
      RateIs(rnd, p.noisy, p.feedback);
      RateIs(rnd, r.noisy, r.feedback);
      NoiseBands(t, Rate(rnd, r.noisy, r.feedback) - Rate(rnd, p.noisy, p.feedback));
      UseBands(t, Rate(rnd, p.useful, p.feedback), Rate(rnd, r.useful, r.feedback),
               Rate(rnd, r.useful, r.feedback) - Rate(rnd, p.useful, p.feedback), Rate(rnd, r.noisy, r.feedback),
               Rate(rnd, r.noisy, r.feedback) - Rate(rnd, p.noisy, p.feedback));
    }
  }

  lemma RateIs(rnd: Rounding, a: nat, b: nat)
    requires Exact(rnd) && b > 0
    ensures Rate(rnd, a, b) == a as real / b as real
  {
  }

  // The status by the four rates.
  lemma DriftByRates(rnd: Rounding, t: Trend)
    ensures var d := Drift(rnd, t);
            var pu, ru := Rate(rnd, t.previous.useful, t.previous.feedback), Rate(rnd, t.recent.useful, t.recent.feedback);
            var pn, rn := Rate(rnd, t.previous.noisy, t.previous.feedback), Rate(rnd, t.recent.noisy, t.recent.feedback);
            var rose := t.recent.noisy >= 2 && rn - pn >= 0.25;
            var declined := pu >= 0.50 && ru - pu <= -0.25;
            var improved := ru >= 0.60 && ru - pu >= 0.25 && rn <= 0.20;
            var steady := -0.15 <= ru - pu <= 0.15 && -0.15 <= rn - pn <= 0.15;
            && (d == InsufficientHistory <==> !Enough(t))
            && (d == NoiseIncrease <==> Enough(t) && rose)
            && (d == UtilityDecline <==> Enough(t) && !rose && declined)
            && (d == UtilityImprovement <==> Enough(t) && !rose && !declined && improved)
            && (d == Stable <==> Enough(t) && !rose && !declined && !improved && steady)
  {
    hide Rate;
  }

  lemma NoiseBands(t: Trend, delta: real)
    requires Enough(t) && delta == t.recent.noisy as real / t.recent.feedback as real - t.previous.noisy as real / t.previous.feedback as real
    ensures Rose(t) <==> t.recent.noisy >= 2 && delta >= 0.25
  {
    hide Gain;
    GainCompare(t.recent.noisy, t.recent.feedback, t.previous.noisy, t.previous.feedback, 1, 4, delta, 0.25);
  }

  lemma UseBands(t: Trend, pu: real, ru: real, du: real, rn: real, dn: real)
    requires Enough(t) && du == ru - pu
    requires pu == t.previous.useful as real / t.previous.feedback as real && ru == t.recent.useful as real / t.recent.feedback as real
    requires rn == t.recent.noisy as real / t.recent.feedback as real
    requires dn == rn - t.previous.noisy as real / t.previous.feedback as real
    ensures Declined(t) <==> pu >= 0.50 && du <= -0.25
    ensures Improved(t) <==> ru >= 0.60 && du >= 0.25 && rn <= 0.20
    ensures Steady(t) <==> -0.15 <= du <= 0.15 && -0.15 <= dn <= 0.15
  {
    DeclineBand(t, pu, du);
    ImproveBand(t, ru, du, rn);
    SteadyBand(t, du, dn);
    hide Declined, Improved, Steady;
  }

  lemma DeclineBand(t: Trend, pu: real, du: real)
    requires Enough(t) && pu == t.previous.useful as real / t.previous.feedback as real
    requires du == t.recent.useful as real / t.recent.feedback as real - pu
    ensures Declined(t) <==> pu >= 0.50 && du <= -0.25
  {
    hide Gain;
    ShareCompare(t.previous.useful, t.previous.feedback, 1, 2);
    GainCompare(t.recent.useful, t.recent.feedback, t.previous.useful, t.previous.feedback, -1, 4, du, -0.25);
  }

  lemma ImproveBand(t: Trend, ru: real, du: real, rn: real)
    requires Enough(t) && ru == t.recent.useful as real / t.recent.feedback as real
    requires du == ru - t.previous.useful as real / t.previous.feedback as real
    requires rn == t.recent.noisy as real / t.recent.feedback as real
    ensures Improved(t) <==> ru >= 0.60 && du >= 0.25 && rn <= 0.20
  {
    hide Gain;
    ShareCompare(t.recent.useful, t.recent.feedback, 3, 5);
    ShareCompare(t.recent.noisy, t.recent.feedback, 1, 5);
    GainCompare(t.recent.useful, t.recent.feedback, t.previous.useful, t.previous.feedback, 1, 4, du, 0.25);
  }

  lemma SteadyBand(t: Trend, du: real, dn: real)
    requires Enough(t)
    requires du == t.recent.useful as real / t.recent.feedback as real - t.previous.useful as real / t.previous.feedback as real
    requires dn == t.recent.noisy as real / t.recent.feedback as real - t.previous.noisy as real / t.previous.feedback as real
    ensures Steady(t) <==> -0.15 <= du <= 0.15 && -0.15 <= dn <= 0.15
  {
    hide Gain;
    GainCompare(t.recent.useful, t.recent.feedback, t.previous.useful, t.previous.feedback, 3, 20, du, 0.15);
    GainCompare(t.recent.useful, t.recent.feedback, t.previous.useful, t.previous.feedback, -3, 20, du, -0.15);
    GainCompare(t.recent.noisy, t.recent.feedback, t.previous.noisy, t.previous.feedback, 3, 20, dn, 0.15);
    GainCompare(t.recent.noisy, t.recent.feedback, t.previous.noisy, t.previous.feedback, -3, 20, dn, -0.15);
  }

  // ----- review packets

  predicate NoisyAll(b: Bucket) { b.feedback >= 5 && b.noisy >= 2 && 5 * b.noisy >= 2 * b.feedback }

  predicate UsefulAll(b: Bucket) {
    b.feedback >= 5 && !NoisyAll(b) && b.useful >= 3 && 5 * b.useful >= 3 * b.feedback && 5 * b.noisy <= b.feedback
  }

  /** A packet proposes noise mitigation, a regression review or a promotion review by the ratings of all time
      and of the two windows, and is ready when it proposes one and there are enough ratings of each. */
  lemma WhatAPacketSays(rnd: Rounding, q: Query, signal: string)
    requires Exact(rnd)
    ensures var p := PacketFor(rnd, q, signal);
            var all := Counts(Fetch(q.table, q.calibrationLimit), signal, Everything);
            && p.signal == signal && p.feedback == all.feedback
            && p.trend == TrendOf(Fetch(q.table, q.driftLimit), BoundedDays(q.windowDays), signal)
            && (p.direction == NoiseMitigation <==> Enough(p.trend) && NoisyAll(all) && Rose(p.trend))
            && (p.direction == Regression <==> Enough(p.trend) && !Rose(p.trend) && Declined(p.trend))
            && (p.direction == Promotion <==>
                  Enough(p.trend) && UsefulAll(all) && !Rose(p.trend) && !Declined(p.trend) && (Improved(p.trend) || Steady(p.trend)))
            && (p.ready <==> all.feedback >= 5 && p.direction != Retain)
  {
    var p := PacketFor(rnd, q, signal);
    WhatShadowMeans(Counts(Fetch(q.table, q.calibrationLimit), signal, Everything));
    WhatDriftMeans(rnd, p.trend);
    hide Counts, TrendOf, Fetch, Shadow, Drift, Rose, Declined, Improved, Steady;
  }

  function Rank(d: Direction): int {
    match d
    case NoiseMitigation => 1
    case Regression => 2
    case Promotion => 3
    case Retain => 4
  }

  /** Ready packets come first; then noise before regression before promotion before the rest; then more ratings
      before fewer; then the signals in order. */
  lemma ReportOrder(rnd: Rounding, q: Query, packets: seq<Packet>, i: nat, j: nat)
    requires IsReport(rnd, q, packets) && i < j < |packets|
    ensures var a, b := packets[i], packets[j];
            || (a.ready && !b.ready)
            || (a.ready == b.ready &&
                (|| Rank(a.direction) < Rank(b.direction)
                 || (a.direction == b.direction &&
                     (|| a.feedback > b.feedback
                      || (a.feedback == b.feedback && StringLeq(a.signal, b.signal) && a.signal != b.signal)))))
  {
    hide PacketFor, Reported;
    var p, r := PacketKey(packets[i]), PacketKey(packets[j]);
    assert KeyLeq(p, r);
    hide KeyLeq, IsReport;
    KeyStep(p, r);
    KeyStep(p[1..], r[1..]);
    KeyStep(p[1..][1..], r[1..][1..]);
    KeyStep(p[1..][1..][1..], r[1..][1..][1..]);
    assert p[1..][1..][1..][0] == Str(packets[i].signal) && r[1..][1..][1..][0] == Str(packets[j].signal);
    assert packets[i].signal != packets[j].signal by { DistinctSignals(rnd, q, packets, i, j); }
  }

  lemma KeyStep(a: Key, b: Key)
    requires a != [] && b != []
    ensures KeyLeq(a, b) <==> if a[0] == b[0] then KeyLeq(a[1..], b[1..]) else PartLeq(a[0], b[0])
  {
  }

  lemma DistinctSignals(rnd: Rounding, q: Query, packets: seq<Packet>, i: nat, j: nat)
    requires IsReport(rnd, q, packets) && i < j < |packets|
    ensures packets[i].signal != packets[j].signal
  {
  }

  /** A report has a packet for every signal that a task of the advisory names, and for every signal with a rating
      in one of the two windows. */
  lemma WhichSignalsAreReported(q: Query, signal: string)
    requires signal != ""
    ensures var trend := TrendOf(Fetch(q.table, q.driftLimit), BoundedDays(q.windowDays), signal);
            Reported(q, signal) <==>
              || (exists t :: t in Fetch(q.table, q.calibrationLimit) && t.advisory && (t.signal == signal || (t.signal == "" && signal == "unknown")))
              || trend.previous.feedback > 0 || trend.recent.feedback > 0
  {
    var tasks := Fetch(q.table, q.driftLimit);
    var trend := TrendOf(tasks, BoundedDays(q.windowDays), signal);
    match Anchor(tasks) {
      case None =>
      case Some(anchor) =>
        CountsAddUp(tasks, signal, Previous(anchor, BoundedDays(q.windowDays)));
        CountsAddUp(tasks, signal, Recent(anchor, BoundedDays(q.windowDays)));
    }
    hide Fetch, Counts, Anchor;
  }
}
