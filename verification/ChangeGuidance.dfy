/** From rated tasks to review packets: the calibration report, the drift report
    over two adjacent windows, and the gate that joins them. */
module ChangeGuidance {
  import opened Decimals
  import opened FirstSeen
  import opened Options
  import opened Ordering
  import opened Reals

  const MIN_FEEDBACK_PER_SIGNAL := 5
  const MIN_FEEDBACK_PER_WINDOW := 5
  const MAX_TASKS := 5000
  const MAX_PACKETS := 100
  const DEFAULT_WINDOW_DAYS := 30
  const DAY := 86400

  type Rounding = real -> real

  datatype Usefulness = Useful | Neutral | Noisy

  /** One `task-change-*` row. `advisory` says that its details come from the derived
      change advisory; `signal` is the stripped signal type; a rating whose time does
      not parse has `recordedAt == None`. */
  datatype Task = Task(id: string, advisory: bool, signal: string, rating: Option<Usefulness>, recordedAt: Option<int>)

  function SignalOf(t: Task): string { if t.signal == "" then "unknown" else t.signal }

  // ----- counting

  /** Which ratings a bucket counts: all of them, or those recorded in a window. */
  datatype Scope = Everything | Window(start: int, end: int, endIncluded: bool)

  predicate InScope(t: Task, scope: Scope) {
    && t.advisory && t.rating.Some?
    && match scope
       case Everything => true
       case Window(start, end, included) =>
         t.recordedAt.Some? && start <= t.recordedAt.value &&
         (t.recordedAt.value < end || (included && t.recordedAt.value == end))
  }

  datatype Bucket = Bucket(feedback: nat, useful: nat, neutral: nat, noisy: nat)

  const EMPTY := Bucket(0, 0, 0, 0)

  function AddSample(b: Bucket, rating: Usefulness): Bucket {
    match rating
    case Useful => b.(feedback := b.feedback + 1, useful := b.useful + 1)
    case Neutral => b.(feedback := b.feedback + 1, neutral := b.neutral + 1)
    case Noisy => b.(feedback := b.feedback + 1, noisy := b.noisy + 1)
  }

  function Counts(tasks: seq<Task>, signal: string, scope: Scope): Bucket {
    if tasks == [] then EMPTY
    else
      var init, last := Counts(tasks[..|tasks| - 1], signal, scope), tasks[|tasks| - 1];
      if InScope(last, scope) && SignalOf(last) == signal then AddSample(init, last.rating.value) else init
  }

  /** Every counted rating is of exactly one kind. */
  lemma {:induction false} CountsAddUp(tasks: seq<Task>, signal: string, scope: Scope)
    ensures var b := Counts(tasks, signal, scope); b.useful + b.neutral + b.noisy == b.feedback <= |tasks|
  {
    if tasks != [] { CountsAddUp(tasks[..|tasks| - 1], signal, scope); }
  }

  /** Two windows that meet at one instant share no rating: together they count at
      most what the calibration report counts. */
  lemma {:induction false} WindowsConserve(tasks: seq<Task>, signal: string, earlier: Scope, later: Scope)
    requires earlier.Window? && later.Window? && !earlier.endIncluded && earlier.end == later.start
    ensures Counts(tasks, signal, earlier).feedback + Counts(tasks, signal, later).feedback <=
            Counts(tasks, signal, Everything).feedback
  {
    if tasks != [] { WindowsConserve(tasks[..|tasks| - 1], signal, earlier, later); }
  }

  lemma {:induction false} CountsGrow(tasks: seq<Task>, k: nat, signal: string, scope: Scope)
    requires k <= |tasks|
    ensures Counts(tasks[..k], signal, scope).feedback <= Counts(tasks, signal, scope).feedback
    decreases |tasks|
  {
    if k < |tasks| {
      var init := tasks[..|tasks| - 1];
      assert init[..k] == tasks[..k];
      CountsGrow(init, k, signal, scope);
    } else {
      assert tasks[..k] == tasks;
    }
  }

  // ----- the calibration report

  /** The query returns the newest tasks of the target, at most `limit` of them. */
  function BoundedLimit(limit: int): (n: nat)
    ensures 1 <= n <= MAX_TASKS
    ensures (1 <= limit <= 5000 ==> n == limit) && (limit == 0 || limit > 5000 ==> n == 5000) && (limit < 0 ==> n == 1)
  {
    if limit == 0 || limit > MAX_TASKS then MAX_TASKS else if limit < 1 then 1 else limit
  }

  function Fetch(table: seq<Task>, limit: int): seq<Task> {
    if |table| <= BoundedLimit(limit) then table else table[..BoundedLimit(limit)]
  }

  predicate Mentions(tasks: seq<Task>, signal: string) {
    exists t :: t in tasks && t.advisory && SignalOf(t) == signal
  }

  lemma MentionsNext(tasks: seq<Task>, t: Task)
    ensures forall s :: Mentions(tasks + [t], s) <==> Mentions(tasks, s) || (t.advisory && SignalOf(t) == s)
  {
    forall s ensures Mentions(tasks + [t], s) <==> Mentions(tasks, s) || (t.advisory && SignalOf(t) == s) {
      if Mentions(tasks, s) {
        var u :| u in tasks && u.advisory && SignalOf(u) == s;
        assert u in tasks + [t];
      }
      if t.advisory && SignalOf(t) == s { assert t in tasks + [t]; }
    }
  }

  method CalibrationReport(tasks: seq<Task>) returns (grouped: map<string, Bucket>)
    ensures forall s :: s in grouped <==> Mentions(tasks, s)
    ensures forall s :: s in grouped ==> grouped[s] == Counts(tasks, s, Everything)
  {
    grouped := map[];
    for i := 0 to |tasks|
      invariant forall s :: s in grouped <==> Mentions(tasks[..i], s)
      invariant forall s :: Counts(tasks[..i], s, Everything) == if s in grouped then grouped[s] else EMPTY
    {
      var t := tasks[i];
      assert tasks[..i + 1] == tasks[..i] + [t] && tasks[..i + 1][..i] == tasks[..i];
      MentionsNext(tasks[..i], t);
      if t.advisory {
        var signal := SignalOf(t);
        var bucket := if signal in grouped then grouped[signal] else EMPTY;
        grouped := grouped[signal := if t.rating.Some? then AddSample(bucket, t.rating.value) else bucket];
      }
    }
    assert tasks[..|tasks|] == tasks;
  }

  datatype ShadowStatus = InsufficientFeedback | NoiseWatch | UtilityWatch | Mixed

  function Shadow(b: Bucket): ShadowStatus {
    if b.feedback < MIN_FEEDBACK_PER_SIGNAL then InsufficientFeedback
    else
      var usefulRate := b.useful as real / b.feedback as real;
      var noisyRate := b.noisy as real / b.feedback as real;
      if b.noisy >= 2 && noisyRate >= 0.40 then NoiseWatch
      else if b.useful >= 3 && usefulRate >= 0.60 && noisyRate <= 0.20 then UtilityWatch
      else Mixed
  }

  // ----- the drift report

  function BoundedDays(days: int): (n: nat)
    ensures 7 <= n <= 180
    ensures (7 <= days <= 180 ==> n == days) && (days == 0 ==> n == 30) && (days < 7 && days != 0 ==> n == 7) && (days > 180 ==> n == 180)
  {
    if days == 0 then DEFAULT_WINDOW_DAYS else if days < 7 then 7 else if days > 180 then 180 else days
  }

  predicate IsSample(t: Task) { t.advisory && t.rating.Some? && t.recordedAt.Some? }

  /** The latest recorded rating, if there is any. */
  function Anchor(tasks: seq<Task>): Option<int> {
    if tasks == [] then None
    else
      var init, last := Anchor(tasks[..|tasks| - 1]), tasks[|tasks| - 1];
      if !IsSample(last) then init
      else if init.Some? && init.value >= last.recordedAt.value then init
      else last.recordedAt
  }

  function Recent(anchor: int, days: nat): Scope { Window(anchor - days * DAY, anchor, true) }

  function Previous(anchor: int, days: nat): Scope {
    Window(anchor - days * DAY - days * DAY, anchor - days * DAY, false)
  }

  datatype Trend = Trend(previous: Bucket, recent: Bucket)

  function TrendOf(tasks: seq<Task>, days: nat, signal: string): Trend {
    match Anchor(tasks)
    case None => Trend(EMPTY, EMPTY)
    case Some(anchor) => Trend(Counts(tasks, signal, Previous(anchor, days)), Counts(tasks, signal, Recent(anchor, days)))
  }

  method CollectSamples(tasks: seq<Task>) returns (samples: seq<Task>, anchor: Option<int>)
    ensures anchor == Anchor(tasks) && (anchor == None <==> samples == [])
    ensures forall t :: t in samples ==> IsSample(t)
    ensures forall s, scope: Scope :: scope.Window? ==> Counts(samples, s, scope) == Counts(tasks, s, scope)
  {
    samples, anchor := [], None;
    for i := 0 to |tasks|
      invariant anchor == Anchor(tasks[..i])
      invariant anchor == None <==> samples == []
      invariant forall t :: t in samples ==> IsSample(t)
      invariant forall s, scope: Scope :: scope.Window? ==> Counts(samples, s, scope) == Counts(tasks[..i], s, scope)
    {
      assert tasks[..i + 1][..i] == tasks[..i];
      if IsSample(tasks[i]) {
        assert (samples + [tasks[i]])[..|samples|] == samples;
        samples := samples + [tasks[i]];
        if anchor.None? || anchor.value < tasks[i].recordedAt.value { anchor := tasks[i].recordedAt; }
      }
    }
    assert tasks[..|tasks|] == tasks;
  }

  method DriftReport(tasks: seq<Task>, windowDays: int) returns (bySignal: map<string, Trend>)
    ensures forall s :: TrendOf(tasks, BoundedDays(windowDays), s) == if s in bySignal then bySignal[s] else Trend(EMPTY, EMPTY)
    ensures forall s :: s in bySignal <==> TrendOf(tasks, BoundedDays(windowDays), s) != Trend(EMPTY, EMPTY)
  {
    var days := BoundedDays(windowDays);
    var samples, anchor := CollectSamples(tasks);
    hide Anchor;
    bySignal := map[];
    if anchor.None? {
      return;
    }
    var previous, recent := Previous(anchor.value, days), Recent(anchor.value, days);
    bySignal := FillWindows(samples, previous, recent);
  }

  method FillWindows(samples: seq<Task>, previous: Scope, recent: Scope) returns (bySignal: map<string, Trend>)
    requires forall t :: t in samples ==> IsSample(t)
    requires previous.Window? && recent.Window? && !previous.endIncluded && previous.end == recent.start
    ensures forall s :: Trend(Counts(samples, s, previous), Counts(samples, s, recent)) ==
                        if s in bySignal then bySignal[s] else Trend(EMPTY, EMPTY)
    ensures forall s :: s in bySignal ==> bySignal[s] != Trend(EMPTY, EMPTY)
  {
    bySignal := map[];
    for i := 0 to |samples|
      invariant forall s :: s in bySignal ==> bySignal[s] != Trend(EMPTY, EMPTY)
      invariant forall s :: Trend(Counts(samples[..i], s, previous), Counts(samples[..i], s, recent)) ==
                            if s in bySignal then bySignal[s] else Trend(EMPTY, EMPTY)
    {
      var t := samples[i];
      assert samples[..i + 1][..i] == samples[..i];
      var bucket := if SignalOf(t) in bySignal then bySignal[SignalOf(t)] else Trend(EMPTY, EMPTY);
      if InScope(t, previous) {
        bySignal := bySignal[SignalOf(t) := bucket.(previous := AddSample(bucket.previous, t.rating.value))];
      } else if InScope(t, recent) {
        bySignal := bySignal[SignalOf(t) := bucket.(recent := AddSample(bucket.recent, t.rating.value))];
      }
    }
    assert samples[..|samples|] == samples;
  }

  datatype DriftStatus = InsufficientHistory | NoiseIncrease | UtilityDecline | UtilityImprovement | Stable | MixedShift

  function Rate(rnd: Rounding, numerator: nat, denominator: nat): real {
    if denominator == 0 then 0.0 else rnd(numerator as real / denominator as real)
  }

  predicate HistorySufficient(t: Trend) {
    t.previous.feedback >= MIN_FEEDBACK_PER_WINDOW && t.recent.feedback >= MIN_FEEDBACK_PER_WINDOW
  }

  function Drift(rnd: Rounding, t: Trend): DriftStatus {
    if !HistorySufficient(t) then InsufficientHistory
    else
      var previousUseful := Rate(rnd, t.previous.useful, t.previous.feedback);
      var recentUseful := Rate(rnd, t.recent.useful, t.recent.feedback);
      var previousNoisy := Rate(rnd, t.previous.noisy, t.previous.feedback);
      var recentNoisy := Rate(rnd, t.recent.noisy, t.recent.feedback);
      var usefulDelta := recentUseful - previousUseful;
      var noisyDelta := recentNoisy - previousNoisy;
      if t.recent.noisy >= 2 && noisyDelta >= 0.25 then NoiseIncrease
      else if previousUseful >= 0.50 && usefulDelta <= -0.25 then UtilityDecline
      else if recentUseful >= 0.60 && usefulDelta >= 0.25 && recentNoisy <= 0.20 then UtilityImprovement
      else if Abs(usefulDelta) <= 0.15 && Abs(noisyDelta) <= 0.15 then Stable
      else MixedShift
  }

  // ----- review packets

  datatype Direction = NoiseMitigation | Regression | Promotion | Retain

  function ProposalDirection(shadow: ShadowStatus, drift: DriftStatus): Direction {
    if shadow == UtilityWatch && (drift == Stable || drift == UtilityImprovement) then Promotion
    else if shadow == NoiseWatch && drift == NoiseIncrease then NoiseMitigation
    else if drift == UtilityDecline then Regression
    else Retain
  }

  datatype Packet = Packet(signal: string, ready: bool, direction: Direction, shadow: ShadowStatus,
                           drift: DriftStatus, feedback: nat, trend: Trend)

  function Join(rnd: Rounding, signal: string, calibration: Bucket, trend: Trend): Packet {
    var shadow, drift := Shadow(calibration), Drift(rnd, trend);
    var direction := ProposalDirection(shadow, drift);
    var calibrationReady := calibration.feedback >= MIN_FEEDBACK_PER_SIGNAL && shadow != InsufficientFeedback;
    Packet(signal, calibrationReady && HistorySufficient(trend) && direction != Retain, direction, shadow, drift,
           calibration.feedback, trend)
  }

  /** The inputs of one call, and the packet they give for one signal. */
  datatype Query = Query(table: seq<Task>, calibrationLimit: int, driftLimit: int, windowDays: int, maxPackets: int)

  function PacketFor(rnd: Rounding, q: Query, signal: string): Packet {
    Join(rnd, signal, Counts(Fetch(q.table, q.calibrationLimit), signal, Everything),
         TrendOf(Fetch(q.table, q.driftLimit), BoundedDays(q.windowDays), signal))
  }

  function PacketKey(p: Packet): Key {
    [Num(if p.ready then 0 else 1),
     Num(match p.direction case NoiseMitigation => 0 case Regression => 1 case Promotion => 2 case Retain => 3),
     Num(0 - p.feedback), Str(p.signal)]
  }

  function PacketBound(maxPackets: int): (n: nat)
    ensures 1 <= n <= MAX_PACKETS
    ensures (1 <= maxPackets <= 100 ==> n == maxPackets) && (maxPackets == 0 || maxPackets > 100 ==> n == 100) && (maxPackets < 0 ==> n == 1)
  {
    if maxPackets == 0 || maxPackets > MAX_PACKETS then MAX_PACKETS else if maxPackets < 1 then 1 else maxPackets
  }

  predicate Reported(q: Query, signal: string) {
    || Mentions(Fetch(q.table, q.calibrationLimit), signal)
    || TrendOf(Fetch(q.table, q.driftLimit), BoundedDays(q.windowDays), signal) != Trend(EMPTY, EMPTY)
  }

  /** Each packet is the one its signal determines; signals are distinct; the packets
      are in order; and whatever was cut off sorts after everything that was kept. */
  ghost predicate IsReport(rnd: Rounding, q: Query, packets: seq<Packet>) {
    && |packets| <= PacketBound(q.maxPackets)
    && Sorted(PacketKey, packets)
    && (forall i :: 0 <= i < |packets| ==>
          packets[i] == PacketFor(rnd, q, packets[i].signal) && Reported(q, packets[i].signal))
    && (forall i, j :: 0 <= i < j < |packets| ==> packets[i].signal != packets[j].signal)
    && (forall s :: Reported(q, s) && (forall p :: p in packets ==> p.signal != s) ==>
          |packets| == PacketBound(q.maxPackets) &&
          forall p :: p in packets ==> KeyLeq(PacketKey(p), PacketKey(PacketFor(rnd, q, s))))
  }

  method ReviewPackets(rnd: Rounding, q: Query) returns (packets: seq<Packet>)
    ensures IsReport(rnd, q, packets)
  {
    var all := JoinReports(rnd, q);
    packets := SortAndCut(rnd, q, all);
  }

  method JoinReports(rnd: Rounding, q: Query) returns (packets: seq<Packet>)
    ensures AllPackets(rnd, q, packets)
  {
    hide Mentions, TrendOf, Fetch, Counts, PacketFor;
    var calibration := CalibrationReport(Fetch(q.table, q.calibrationLimit));
    var drift := DriftReport(Fetch(q.table, q.driftLimit), q.windowDays);
    var signals := SortedSet(calibration.Keys + drift.Keys);
    packets := JoinSignals(rnd, q, calibration, drift, signals);
    SignalsReported(q, calibration.Keys, drift.Keys, signals);
    AllJoined(rnd, q, signals, packets);
  }

  method JoinSignals(rnd: Rounding, q: Query, calibration: map<string, Bucket>, drift: map<string, Trend>,
                     signals: seq<string>)
    returns (packets: seq<Packet>)
    requires forall s :: s in calibration <==> Mentions(Fetch(q.table, q.calibrationLimit), s)
    requires forall s :: s in calibration ==>
               calibration[s] == Counts(Fetch(q.table, q.calibrationLimit), s, Everything)
    requires forall s :: TrendOf(Fetch(q.table, q.driftLimit), BoundedDays(q.windowDays), s) ==
                         if s in drift then drift[s] else Trend(EMPTY, EMPTY)
    ensures |packets| == |signals|
    ensures forall k :: 0 <= k < |signals| ==> packets[k] == PacketFor(rnd, q, signals[k])
  {
    hide Join, PacketFor, Counts, TrendOf, Fetch, Mentions;
    packets := [];
    for i := 0 to |signals|
      invariant |packets| == i
      invariant forall k :: 0 <= k < i ==> packets[k] == PacketFor(rnd, q, signals[k])
    {
      var s := signals[i];
      CountsOfUnmentioned(Fetch(q.table, q.calibrationLimit), s, Everything);
      JoinSignal(rnd, q, s);
      packets := packets + [Join(rnd, s, if s in calibration then calibration[s] else EMPTY,
                                 if s in drift then drift[s] else Trend(EMPTY, EMPTY))];
    }
  }

  lemma AllJoined(rnd: Rounding, q: Query, signals: seq<string>, packets: seq<Packet>)
    requires |packets| == |signals| && Ascending(signals)
    requires forall k :: 0 <= k < |signals| ==> packets[k] == PacketFor(rnd, q, signals[k])
    requires forall s :: s in signals <==> Reported(q, s)
    ensures AllPackets(rnd, q, packets)
  {
    hide PacketFor, Reported;
    forall k | 0 <= k < |signals| ensures packets[k].signal == signals[k] && Reported(q, signals[k]) {
      JoinSignal(rnd, q, signals[k]);
      assert signals[k] in signals;
    }
    forall s | Reported(q, s) ensures exists k :: 0 <= k < |packets| && packets[k].signal == s {
      var k :| 0 <= k < |signals| && signals[k] == s;
      assert packets[k].signal == s;
    }
  }

  lemma SignalsReported(q: Query, calibration: set<string>, drift: set<string>, signals: seq<string>)
    requires forall s :: s in calibration <==> Mentions(Fetch(q.table, q.calibrationLimit), s)
    requires forall s :: s in drift <==>
               TrendOf(Fetch(q.table, q.driftLimit), BoundedDays(q.windowDays), s) != Trend(EMPTY, EMPTY)
    requires forall s :: s in signals <==> s in calibration + drift
    ensures forall s :: s in signals <==> Reported(q, s)
  {
    hide Mentions, TrendOf, Fetch;
  }

  lemma JoinSignal(rnd: Rounding, q: Query, s: string)
    ensures PacketFor(rnd, q, s).signal == s
    ensures PacketFor(rnd, q, s) ==
            Join(rnd, s, Counts(Fetch(q.table, q.calibrationLimit), s, Everything),
                 TrendOf(Fetch(q.table, q.driftLimit), BoundedDays(q.windowDays), s))
  {
  }

  lemma {:induction false} CountsOfUnmentioned(tasks: seq<Task>, signal: string, scope: Scope)
    ensures Mentions(tasks, signal) || Counts(tasks, signal, scope) == EMPTY
  {
    if tasks != [] {
      var init, last := tasks[..|tasks| - 1], tasks[|tasks| - 1];
      CountsOfUnmentioned(init, signal, scope);
      assert last in tasks;
      assert forall t :: t in init ==> t in tasks;
    }
  }

  ghost predicate AllPackets(rnd: Rounding, q: Query, all: seq<Packet>) {
    && (forall k :: 0 <= k < |all| ==> all[k] == PacketFor(rnd, q, all[k].signal) && Reported(q, all[k].signal))
    && (forall i, j :: 0 <= i < j < |all| ==> all[i].signal != all[j].signal)
    && (forall s :: Reported(q, s) ==> exists k :: 0 <= k < |all| && all[k].signal == s)
  }

  // `packets.sort(...)` and the final slice.
  method SortAndCut(rnd: Rounding, q: Query, all: seq<Packet>) returns (packets: seq<Packet>)
    requires AllPackets(rnd, q, all)
    ensures IsReport(rnd, q, packets)
  {
    var sorted := SortBy(PacketKey, all);
    SortSorts(PacketKey, all);
    AllAfterSort(rnd, q, all);
    var bound := PacketBound(q.maxPackets);
    packets := if |sorted| <= bound then sorted else sorted[..bound];
    CutReport(rnd, q, sorted, packets);
  }

  lemma {:induction false} AllAfterSort(rnd: Rounding, q: Query, all: seq<Packet>)
    requires AllPackets(rnd, q, all)
    ensures AllPackets(rnd, q, SortBy(PacketKey, all))
  {
    hide PacketFor, Reported;
    var sorted := SortBy(PacketKey, all);
    SortPermutes(PacketKey, all);
    DistinctAfterSort(all, sorted);
    forall k | 0 <= k < |sorted|
      ensures sorted[k] == PacketFor(rnd, q, sorted[k].signal) && Reported(q, sorted[k].signal)
    {
      assert sorted[k] in multiset(sorted);
      assert sorted[k] in all;
    }
    forall s | Reported(q, s) ensures exists k :: 0 <= k < |sorted| && sorted[k].signal == s {
      var k :| 0 <= k < |all| && all[k].signal == s;
      assert all[k] in multiset(all);
      assert all[k] in sorted;
    }
  }

  lemma CutReport(rnd: Rounding, q: Query, sorted: seq<Packet>, packets: seq<Packet>)
    requires AllPackets(rnd, q, sorted) && Sorted(PacketKey, sorted)
    requires var bound := PacketBound(q.maxPackets); packets == if |sorted| <= bound then sorted else sorted[..bound]
    ensures IsReport(rnd, q, packets)
  {
    hide PacketFor, Reported, KeyLeq;
    assert forall j :: 0 <= j < |packets| ==> packets[j] == sorted[j];
    forall s | Reported(q, s) && forall p :: p in packets ==> p.signal != s
      ensures |packets| == PacketBound(q.maxPackets)
      ensures forall p :: p in packets ==> KeyLeq(PacketKey(p), PacketKey(PacketFor(rnd, q, s)))
    {
      var i :| 0 <= i < |sorted| && sorted[i].signal == s;
      forall j | 0 <= j < |packets| ensures packets[j].signal != s { assert packets[j] in packets; }
      forall p | p in packets ensures KeyLeq(PacketKey(p), PacketKey(PacketFor(rnd, q, s))) {
        var j :| 0 <= j < |packets| && packets[j] == p;
        assert KeyLeq(PacketKey(sorted[j]), PacketKey(sorted[i]));
      }
    }
  }

  lemma DistinctAfterSort(all: seq<Packet>, sorted: seq<Packet>)
    requires multiset(all) == multiset(sorted)
    requires forall i, j :: 0 <= i < j < |all| ==> all[i].signal != all[j].signal
    ensures forall i, j :: 0 <= i < j < |sorted| ==> sorted[i].signal != sorted[j].signal
  {
    forall i, j | 0 <= i < j < |sorted| ensures sorted[i].signal != sorted[j].signal {
      var p, r := sorted[i], sorted[j];
      assert p in multiset(all) && r in multiset(all);
      var k :| 0 <= k < |all| && all[k] == p;
      var m :| 0 <= m < |all| && all[m] == r;
      if k == m {
        TwiceCounts(sorted, i, j);
        CountInDistinct(all, p);
      }
    }
  }

  // ----- the gate

  const MIN_READY_FEEDBACK := MIN_FEEDBACK_PER_WINDOW + MIN_FEEDBACK_PER_WINDOW

  lemma {:induction false} ReadySignal(rnd: Rounding, q: Query, signal: string)
    requires PacketFor(rnd, q, signal).ready
    ensures var p := PacketFor(rnd, q, signal);
            && p.trend.previous.feedback >= MIN_FEEDBACK_PER_WINDOW && p.trend.recent.feedback >= MIN_FEEDBACK_PER_WINDOW
            && p.trend.previous.feedback + p.trend.recent.feedback <= BoundedLimit(q.driftLimit)
            && MIN_FEEDBACK_PER_SIGNAL <= p.feedback <= BoundedLimit(q.calibrationLimit)
            && p.direction != Retain
    ensures BoundedLimit(q.driftLimit) <= BoundedLimit(q.calibrationLimit) ==>
              var p := PacketFor(rnd, q, signal); p.feedback >= p.trend.previous.feedback + p.trend.recent.feedback
  {
    var calibrationTasks, driftTasks := Fetch(q.table, q.calibrationLimit), Fetch(q.table, q.driftLimit);
    var days := BoundedDays(q.windowDays);
    var anchor := Anchor(driftTasks).value;
    WindowsConserve(driftTasks, signal, Previous(anchor, days), Recent(anchor, days));
    CountsAddUp(driftTasks, signal, Everything);
    CountsAddUp(calibrationTasks, signal, Everything);
    if BoundedLimit(q.driftLimit) <= BoundedLimit(q.calibrationLimit) {
      assert driftTasks == calibrationTasks[..|driftTasks|];
      CountsGrow(calibrationTasks, |driftTasks|, signal, Everything);
    }
  }

  /** When the drift report reads no more tasks than the calibration report, every ready
      packet rests on at least ten explicit ratings, five in each of two disjoint windows. */
  lemma ReadyRestsOnTenRatings(rnd: Rounding, q: Query, packets: seq<Packet>, p: Packet)
    requires BoundedLimit(q.driftLimit) <= BoundedLimit(q.calibrationLimit)
    ensures IsReport(rnd, q, packets) && p in packets && p.ready ==>
              && p.feedback >= p.trend.previous.feedback + p.trend.recent.feedback >= MIN_READY_FEEDBACK
              && p.trend.previous.feedback >= MIN_FEEDBACK_PER_WINDOW && p.trend.recent.feedback >= MIN_FEEDBACK_PER_WINDOW
              && p.direction != Retain
  {
    hide PacketFor;
    if IsReport(rnd, q, packets) && p in packets && p.ready {
      assert p == PacketFor(rnd, q, p.signal);
      ReadySignal(rnd, q, p.signal);
    }
  }

  /** Cutting the list never drops a ready packet while it keeps one that is not ready. */
  lemma TruncationKeepsReady(rnd: Rounding, q: Query, packets: seq<Packet>, dropped: string, kept: Packet)
    requires IsReport(rnd, q, packets) && kept in packets
    requires Reported(q, dropped) && forall p :: p in packets ==> p.signal != dropped
    ensures PacketFor(rnd, q, dropped).ready ==> kept.ready
  {
    var lost := PacketFor(rnd, q, dropped);
    assert KeyLeq(PacketKey(kept), PacketKey(lost));
  }

  // ----- why the limits matter

  ghost predicate DistinctIds(tasks: seq<Task>) {
    forall i, j :: 0 <= i < j < |tasks| ==> tasks[i].id != tasks[j].id
  }

  function TaskId(i: nat): string { "task-change-" + Digits(i) }

  function Sample(i: nat, rating: Usefulness, at: int): Task { Task(TaskId(i), true, "s", Some(rating), Some(at)) }

  function Block(first: nat, n: nat, rating: Usefulness, at: int): seq<Task> {
    if n == 0 then [] else Block(first, n - 1, rating, at) + [Sample(first + n - 1, rating, at)]
  }

  lemma {:induction false} BlockCounts(front: seq<Task>, first: nat, n: nat, rating: Usefulness, at: int, scope: Scope)
    ensures var (b, c) := (Counts(front, "s", scope), Counts(front + Block(first, n, rating, at), "s", scope));
            if !InScope(Sample(0, rating, at), scope) then c == b
            else c.feedback == b.feedback + n &&
                 c.useful == b.useful + (if rating == Useful then n else 0) &&
                 c.noisy == b.noisy + (if rating == Noisy then n else 0)
  {
    if n == 0 {
      assert front + [] == front;
    } else {
      BlockCounts(front, first, n - 1, rating, at, scope);
      BlockNext(front, first, n, rating, at);
      assert InScope(Sample(first + n - 1, rating, at), scope) <==> InScope(Sample(0, rating, at), scope);
      hide InScope, TaskId;
    }
  }

  lemma BlockNext(front: seq<Task>, first: nat, n: nat, rating: Usefulness, at: int)
    requires n > 0
    ensures var whole, shorter := front + Block(first, n, rating, at), front + Block(first, n - 1, rating, at);
            |whole| == |shorter| + 1 && whole[..|whole| - 1] == shorter && whole[|whole| - 1] == Sample(first + n - 1, rating, at)
  {
    hide Sample;
    var whole, shorter := front + Block(first, n, rating, at), front + Block(first, n - 1, rating, at);
    assert whole == shorter + [Sample(first + n - 1, rating, at)];
  }

  /** The anchor of a block of ratings that follows newer ones. */
  lemma {:induction false} BlockAnchor(front: seq<Task>, first: nat, n: nat, rating: Usefulness, at: int)
    ensures |Block(first, n, rating, at)| == n
    ensures Anchor(front).None? ==> Anchor(front + Block(first, n, rating, at)) == if n == 0 then None else Some(at)
    ensures Anchor(front).Some? && Anchor(front).value >= at ==> Anchor(front + Block(first, n, rating, at)) == Anchor(front)
  {
    if n == 0 {
      assert front + [] == front;
    } else {
      BlockAnchor(front, first, n - 1, rating, at);
      BlockNext(front, first, n, rating, at);
      hide TaskId;
    }
  }

  function Unrated(n: nat): seq<Task> {
    if n == 0 then [] else Unrated(n - 1) + [Task(TaskId(n - 1), false, "s", None, None)]
  }

  lemma {:induction false} UnratedCounts(n: nat, scope: Scope)
    ensures |Unrated(n)| == n && Counts(Unrated(n), "s", scope) == EMPTY && Anchor(Unrated(n)) == None
  {
    hide TaskId;
    if n > 0 { UnratedCounts(n - 1, scope); }
  }

  lemma {:induction false} BlockPrefix(first: nat, n: nat, k: nat, rating: Usefulness, at: int)
    requires k <= n
    ensures |Block(first, n, rating, at)| == n && Block(first, n, rating, at)[..k] == Block(first, k, rating, at)
  {
    hide Sample;
    if k < n {
      BlockPrefix(first, n - 1, k, rating, at);
    } else if n > 0 {
      BlockPrefix(first, n - 1, n - 1, rating, at);
    }
  }

  /** Unrated tasks, then five noisy ratings, then `k` of the five useful ones of the window before. */
  function Mixture(days: nat, f: nat, k: nat): seq<Task> {
    Unrated(f) + Block(f, 5, Noisy, days * DAY) + Block(f + 5, k, Useful, -1)
  }

  lemma SampleScopes(days: nat)
    requires days >= 7
    ensures InScope(Sample(0, Noisy, days * DAY), Everything) && InScope(Sample(0, Useful, -1), Everything)
    ensures InScope(Sample(0, Noisy, days * DAY), Recent(days * DAY, days)) && !InScope(Sample(0, Useful, -1), Recent(days * DAY, days))
    ensures !InScope(Sample(0, Noisy, days * DAY), Previous(days * DAY, days)) && InScope(Sample(0, Useful, -1), Previous(days * DAY, days))
  {
    hide TaskId;
  }

  lemma MixtureAnchor(days: nat, f: nat, k: nat)
    requires days >= 7
    ensures |Mixture(days, f, k)| == f + 5 + k && Anchor(Mixture(days, f, k)) == Some(days * DAY)
  {
    hide Block, Counts, Anchor, Unrated, TaskId;
    UnratedCounts(f, Everything);
    BlockAnchor(Unrated(f), f, 5, Noisy, days * DAY);
    BlockAnchor(Unrated(f) + Block(f, 5, Noisy, days * DAY), f + 5, k, Useful, -1);
  }

  lemma MixtureCounts(days: nat, f: nat, k: nat, scope: Scope)
    requires days >= 7
    ensures scope == Everything ==> Counts(Mixture(days, f, k), "s", scope) == Bucket(5 + k, k, 0, 5)
    ensures scope == Recent(days * DAY, days) ==> Counts(Mixture(days, f, k), "s", scope) == Bucket(5, 0, 0, 5)
    ensures scope == Previous(days * DAY, days) ==> Counts(Mixture(days, f, k), "s", scope) == Bucket(k, k, 0, 0)
  {
    hide Block, Counts, Unrated, Sample, InScope, Recent, Previous;
    UnratedCounts(f, scope);
    BlockCounts(Unrated(f), f, 5, Noisy, days * DAY, scope);
    BlockCounts(Unrated(f) + Block(f, 5, Noisy, days * DAY), f + 5, k, Useful, -1, scope);
    CountsAddUp(Mixture(days, f, k), "s", scope);
    SampleScopes(days);
  }

  lemma MixturePrefix(days: nat, f: nat, k: nat)
    requires k <= 5 && days >= 7
    ensures |Mixture(days, f, 5)| == f + 10 && Mixture(days, f, 5)[..f + 5 + k] == Mixture(days, f, k)
  {
    hide Block, Unrated, NumberedFrom;
    BlockPrefix(f + 5, 5, k, Useful, -1);
    BlockPrefix(f, 5, 5, Noisy, days * DAY);
    UnratedIds(f);
    TakeOfConcat(Unrated(f) + Block(f, 5, Noisy, days * DAY), Block(f + 5, 5, Useful, -1), k);
  }

  lemma TakeOfConcat<T>(a: seq<T>, b: seq<T>, k: nat)
    requires k <= |b|
    ensures |a + b| == |a| + |b| && (a + b)[..|a| + k] == a + b[..k]
  {
  }

  lemma {:induction false} BlockIds(first: nat, n: nat, rating: Usefulness, at: int)
    ensures |Block(first, n, rating, at)| == n && NumberedFrom(Block(first, n, rating, at), first)
  {
    hide TaskId;
    if n > 0 { BlockIds(first, n - 1, rating, at); }
  }

  lemma {:induction false} UnratedIds(n: nat)
    ensures |Unrated(n)| == n && NumberedFrom(Unrated(n), 0)
  {
    hide TaskId;
    if n > 0 { UnratedIds(n - 1); }
  }

  lemma MixtureIds(days: nat, f: nat, k: nat)
    ensures DistinctIds(Mixture(days, f, k))
    ensures forall t :: t in Mixture(days, f, k) ==> SignalOf(t) == "s"
  {
    hide Block, Unrated, TaskId, SignalOf;
    UnratedIds(f);
    BlockIds(f, 5, Noisy, days * DAY);
    BlockIds(f + 5, k, Useful, -1);
    NumberedFurther(Unrated(f), Block(f, 5, Noisy, days * DAY));
    NumberedFurther(Unrated(f) + Block(f, 5, Noisy, days * DAY), Block(f + 5, k, Useful, -1));
    NumberedDistinct(Mixture(days, f, k));
  }

  ghost predicate NumberedFrom(tasks: seq<Task>, first: nat) {
    forall i :: 0 <= i < |tasks| ==> tasks[i].id == TaskId(first + i) && SignalOf(tasks[i]) == "s"
  }

  lemma NumberedFurther(a: seq<Task>, b: seq<Task>)
    requires NumberedFrom(a, 0) && NumberedFrom(b, |a|)
    ensures NumberedFrom(a + b, 0)
  {
    hide TaskId, SignalOf;
    forall i | 0 <= i < |a + b| ensures (a + b)[i].id == TaskId(0 + i) && SignalOf((a + b)[i]) == "s" {
      if i >= |a| { assert b[i - |a|].id == TaskId(|a| + (i - |a|)); }
    }
  }

  lemma NumberedDistinct(tasks: seq<Task>)
    requires NumberedFrom(tasks, 0)
    ensures DistinctIds(tasks) && forall t :: t in tasks ==> SignalOf(t) == "s"
  {
    hide TaskId, SignalOf;
    forall i, j | 0 <= i < j < |tasks| ensures tasks[i].id != tasks[j].id {
      IdsDiffer(i, j);
      assert tasks[i].id == TaskId(0 + i) && tasks[j].id == TaskId(0 + j);
    }
  }

  lemma IdsDiffer(i: nat, j: nat)
    requires i != j
    ensures TaskId(i) != TaskId(j)
  {
    var p := "task-change-";
    assert (p + Digits(i))[|p|..] == Digits(i) && (p + Digits(j))[|p|..] == Digits(j);
    if Digits(i) == Digits(j) { DigitsDistinct(i, j); }
  }

  /** A history on which the packet is ready although the calibration report, reading
      fewer tasks than the drift report, counts fewer than ten ratings. */
  lemma MismatchedLimits(rnd: Rounding, calibrationLimit: int, driftLimit: int) returns (q: Query)
    requires rnd(0.0) == 0.0 && rnd(1.0) == 1.0
    requires 5 <= BoundedLimit(calibrationLimit) < BoundedLimit(driftLimit) && 10 <= BoundedLimit(driftLimit)
    ensures q.calibrationLimit == calibrationLimit && q.driftLimit == driftLimit && DistinctIds(q.table)
    ensures var p := PacketFor(rnd, q, "s"); p.ready && p.feedback < MIN_READY_FEEDBACK
  {
    var c := BoundedLimit(calibrationLimit);
    var f := if c >= 9 then c - 9 else 0;
    var k := c - f - 5;
    q := Query(Mixture(7, f, 5), calibrationLimit, driftLimit, 7, 0);
    MixtureIds(7, f, 5);
    MixturePrefix(7, f, k);
    MixtureAnchor(7, f, k);
    assert Fetch(q.table, calibrationLimit) == Mixture(7, f, k) && Fetch(q.table, driftLimit) == q.table;
    hide Counts, Block, Anchor, Join, Mixture;
    MixturePacket(rnd, q, f, k);
  }

  lemma MixturePacket(rnd: Rounding, q: Query, f: nat, k: nat)
    requires rnd(0.0) == 0.0 && rnd(1.0) == 1.0 && k <= 5
    requires var days := BoundedDays(q.windowDays);
             Fetch(q.table, q.calibrationLimit) == Mixture(days, f, k) && Fetch(q.table, q.driftLimit) == Mixture(days, f, 5)
    ensures var p := PacketFor(rnd, q, "s"); p.ready && p.feedback == 5 + k
  {
    var days := BoundedDays(q.windowDays);
    MixtureCounts(days, f, k, Everything);
    MixtureCounts(days, f, 5, Recent(days * DAY, days));
    MixtureCounts(days, f, 5, Previous(days * DAY, days));
    MixtureAnchor(days, f, 5);
    hide Counts, Block, Anchor, Join, Mixture;
    JoinSignal(rnd, q, "s");
    JoinIsReady(rnd, k);
  }

  lemma JoinIsReady(rnd: Rounding, k: nat)
    requires rnd(0.0) == 0.0 && rnd(1.0) == 1.0 && k <= 5
    ensures var p := Join(rnd, "s", Bucket(5 + k, k, 0, 5), Trend(Bucket(5, 5, 0, 0), Bucket(5, 0, 0, 5)));
            p.ready && p.direction == NoiseMitigation && p.feedback == 5 + k
  {
    NoisyShare((5 + k) as real);
  }

  lemma NoisyShare(total: real)
    requires 5.0 <= total <= 10.0
    ensures 5.0 / total >= 0.5
  {
    assert 5.0 / total * total == 5.0;
  }

  /** Ten ratings, five before and five in the last thirty days, give a report of one ready packet. */
  lemma ReadyReport(rnd: Rounding) returns (table: seq<Task>, packets: seq<Packet>)
    requires rnd(0.0) == 0.0 && rnd(1.0) == 1.0
    ensures DistinctIds(table)
    ensures IsReport(rnd, Query(table, MAX_TASKS, MAX_TASKS, DEFAULT_WINDOW_DAYS, MAX_PACKETS), packets)
    ensures |packets| == 1 && packets[0].ready
  {
    table := Mixture(30, 0, 5);
    var q := Query(table, MAX_TASKS, MAX_TASKS, DEFAULT_WINDOW_DAYS, MAX_PACKETS);
    MixtureIds(30, 0, 5);
    MixtureAnchor(30, 0, 5);
    hide Mixture;
    MixturePacket(rnd, q, 0, 5);
    forall s | s != "s" ensures !Reported(q, s) { OnlySignal(q, s); }
    hide Counts, Join, Reported, PacketFor;
    packets := [PacketFor(rnd, q, "s")];
    SignalReported(rnd, q);
    SinglePacket(rnd, q);
  }

  lemma SinglePacket(rnd: Rounding, q: Query)
    requires forall s :: Reported(q, s) <==> s == "s"
    ensures IsReport(rnd, q, [PacketFor(rnd, q, "s")])
  {
    JoinSignal(rnd, q, "s");
    hide Counts, Join, Reported, PacketFor;
    var packets := [PacketFor(rnd, q, "s")];
    assert packets[0] in packets;
  }

  lemma OnlySignal(q: Query, s: string)
    requires s != "s" && forall t :: t in q.table ==> SignalOf(t) == "s"
    ensures !Reported(q, s)
  {
    hide SignalOf, Counts;
    var a, b := Fetch(q.table, q.calibrationLimit), Fetch(q.table, q.driftLimit);
    assert forall t :: (t in a ==> t in q.table) && (t in b ==> t in q.table);
    forall scope: Scope ensures Counts(b, s, scope) == EMPTY { CountsOfUnmentioned(b, s, scope); }
  }

  lemma SignalReported(rnd: Rounding, q: Query)
    requires PacketFor(rnd, q, "s").ready
    ensures Reported(q, "s")
  {
    ReadySignal(rnd, q, "s");
  }

  /** Exactly which limits guarantee ten ratings behind every ready packet, whatever the history:
      the drift report reads no more tasks, or it or the calibration report reads too few for
      any packet to be ready. */
  lemma {:induction false} WhichLimitsGuaranteeTen(rnd: Rounding, calibrationLimit: int, driftLimit: int)
    requires rnd(0.0) == 0.0 && rnd(1.0) == 1.0
    ensures (forall q: Query, signal ::
               q.calibrationLimit == calibrationLimit && q.driftLimit == driftLimit && DistinctIds(q.table) && PacketFor(rnd, q, signal).ready ==>
                 PacketFor(rnd, q, signal).feedback >= MIN_READY_FEEDBACK) <==>
            BoundedLimit(driftLimit) <= BoundedLimit(calibrationLimit) || BoundedLimit(driftLimit) < 10 || BoundedLimit(calibrationLimit) < 5
  {
    hide PacketFor, DistinctIds;
    var c, d := BoundedLimit(calibrationLimit), BoundedLimit(driftLimit);
    if d <= c || d < 10 || c < 5 {
      forall q: Query, signal | q.calibrationLimit == calibrationLimit && q.driftLimit == driftLimit && PacketFor(rnd, q, signal).ready
        ensures PacketFor(rnd, q, signal).feedback >= MIN_READY_FEEDBACK
      {
        ReadySignal(rnd, q, signal);
      }
    } else {
      var q := MismatchedLimits(rnd, calibrationLimit, driftLimit);
      assert PacketFor(rnd, q, "s").ready;
    }
  }
}
