/** What a proposal changes: policy snapshots, validated candidate values, and diffs. */
module PolicyValuesAndDiffs {
  import opened Options
  import opened Ordering

  datatype Value = Number(n: real) | Text(s: string)

  type Fields = map<string, Value>

  const WEIGHT_SURFACE := "meta_ranker.derived_change_weight"
  const CALIBRATION_SURFACE := "change_guidance.calibration_sample_gate"
  const DRIFT_SURFACE := "change_guidance.drift_window_and_sample_gate"

  predicate Supported(surface: string) {
    surface == WEIGHT_SURFACE || surface == CALIBRATION_SURFACE || surface == DRIFT_SURFACE
  }

  /** `current_policy_snapshot`, with the values of the shipped policy. */
  function CurrentSnapshot(surface: string): Fields
    requires Supported(surface)
  {
    if surface == WEIGHT_SURFACE then
      map["policy_surface" := Text(surface), "meta_ranker_version" := Text("1.3.1"),
          "meta_ranker_rule_version" := Text("2026.09.19.1"), "derived_change_weight" := Number(0.08)]
    else if surface == CALIBRATION_SURFACE then
      map["policy_surface" := Text(surface), "minimum_feedback_per_signal" := Number(5.0)]
    else
      map["policy_surface" := Text(surface), "window_days" := Number(30.0),
          "minimum_feedback_per_window" := Number(5.0), "minimum_feedback_per_slice" := Number(3.0)]
  }

  predicate IsMeta(field: string) {
    field == "policy_surface" || field == "meta_ranker_version" || field == "meta_ranker_rule_version"
  }

  function PolicyValues(snapshot: Fields): Fields {
    map k | k in snapshot && !IsMeta(k) :: snapshot[k]
  }

  // ----- validation of the candidate values

  datatype Raw = Numeric(n: real) | NotNumeric

  function Truncate(x: real): int {
    if x >= 0.0 then x.Floor else -((-x).Floor)
  }

  function BoundedInt(raw: Raw, minimum: int, maximum: int): Option<Value> {
    if raw.Numeric? && minimum <= Truncate(raw.n) <= maximum then Some(Number(Truncate(raw.n) as real)) else None
  }

  function BoundedReal(rnd: real -> real, raw: Raw, minimum: real, maximum: real): Option<Value> {
    if raw.Numeric? && minimum <= raw.n <= maximum then Some(Number(rnd(raw.n))) else None
  }

  /** None stands for every way in which the candidate is refused. */
  function ValidateAfter(rnd: real -> real, surface: string, raw: map<string, Raw>): Option<Fields>
    requires Supported(surface)
  {
    if surface == WEIGHT_SURFACE then
      if raw.Keys != {"derived_change_weight"} then None
      else
        match BoundedReal(rnd, raw["derived_change_weight"], 0.0, 0.50)
        case None => None
        case Some(w) => Some(map["derived_change_weight" := w])
    else if surface == CALIBRATION_SURFACE then
      if raw.Keys != {"minimum_feedback_per_signal"} then None
      else
        match BoundedInt(raw["minimum_feedback_per_signal"], 3, 100)
        case None => None
        case Some(m) => Some(map["minimum_feedback_per_signal" := m])
    else
      if raw.Keys != {"window_days", "minimum_feedback_per_window", "minimum_feedback_per_slice"} then None
      else
        var days := BoundedInt(raw["window_days"], 7, 180);
        var window := BoundedInt(raw["minimum_feedback_per_window"], 3, 100);
        var slice := BoundedInt(raw["minimum_feedback_per_slice"], 2, 50);
        if days.None? || window.None? || slice.None? then None
        else Some(map["window_days" := days.value, "minimum_feedback_per_window" := window.value,
                      "minimum_feedback_per_slice" := slice.value])
  }

  /** The bounds of a policy value: a whole number, or a fraction that is rounded. */
  datatype Limits = Whole(least: int, most: int) | Fraction(low: real, high: real)

  function LimitsOf(field: string): Limits {
    if field == "derived_change_weight" then Fraction(0.0, 0.50)
    else if field == "window_days" then Whole(7, 180)
    else if field == "minimum_feedback_per_slice" then Whole(2, 50)
    else Whole(3, 100)
  }

  predicate Fits(raw: Raw, limits: Limits) {
    && raw.Numeric?
    && match limits
       case Whole(least, most) => least <= Truncate(raw.n) <= most
       case Fraction(low, high) => low <= raw.n <= high
  }

  predicate Within(value: Value, limits: Limits) {
    && value.Number?
    && match limits
       case Whole(least, most) => least as real <= value.n <= most as real && value.n.Floor as real == value.n
       case Fraction(low, high) => low <= value.n <= high
  }

  /** Rounding to six decimals keeps the two bounds of the weight and the order. */
  ghost predicate KeepsOrder(rnd: real -> real) {
    rnd(0.0) == 0.0 && rnd(0.50) == 0.50 && forall x, y :: x <= y ==> rnd(x) <= rnd(y)
  }

  lemma SurfaceFields(surface: string)
    requires Supported(surface)
    ensures PolicyValues(CurrentSnapshot(surface)).Keys ==
            if surface == WEIGHT_SURFACE then {"derived_change_weight"}
            else if surface == CALIBRATION_SURFACE then {"minimum_feedback_per_signal"}
            else {"window_days", "minimum_feedback_per_window", "minimum_feedback_per_slice"}
  {
    assert !IsMeta("derived_change_weight") && !IsMeta("minimum_feedback_per_signal") && !IsMeta("window_days");
    assert !IsMeta("minimum_feedback_per_window") && !IsMeta("minimum_feedback_per_slice");
  }

  /** A candidate is accepted if and only if it names the policy values of its surface and no others,
      each a number within its bounds; the validated values are within the bounds too, whole where
      the bounds are. */
  lemma ValidatedFields(rnd: real -> real, surface: string, raw: map<string, Raw>)
    requires Supported(surface)
    ensures ValidateAfter(rnd, surface, raw).Some? <==>
            raw.Keys == PolicyValues(CurrentSnapshot(surface)).Keys && forall k :: k in raw ==> Fits(raw[k], LimitsOf(k))
    ensures ValidateAfter(rnd, surface, raw).Some? ==>
              var after := ValidateAfter(rnd, surface, raw).value;
              && after.Keys == raw.Keys
              && (KeepsOrder(rnd) ==> forall k :: k in after ==> Within(after[k], LimitsOf(k)))
  {
    SurfaceFields(surface);
    hide CurrentSnapshot, PolicyValues, IsMeta, Truncate;
    if surface == WEIGHT_SURFACE {
      if raw.Keys == {"derived_change_weight"} { FractionAccepted(rnd, raw); }
    } else if surface == CALIBRATION_SURFACE {
      if raw.Keys == {"minimum_feedback_per_signal"} { WholeAccepted(raw["minimum_feedback_per_signal"], 3, 100); }
    } else if raw.Keys == {"window_days", "minimum_feedback_per_window", "minimum_feedback_per_slice"} {
      WholeAccepted(raw["window_days"], 7, 180);
      WholeAccepted(raw["minimum_feedback_per_window"], 3, 100);
      WholeAccepted(raw["minimum_feedback_per_slice"], 2, 50);
      hide Fits, Within, BoundedInt;
    }
  }

  lemma WholeAccepted(raw: Raw, least: int, most: int)
    ensures BoundedInt(raw, least, most).Some? <==> Fits(raw, Whole(least, most))
    ensures BoundedInt(raw, least, most).Some? ==> Within(BoundedInt(raw, least, most).value, Whole(least, most))
  {
  }

  lemma FractionAccepted(rnd: real -> real, raw: map<string, Raw>)
    requires "derived_change_weight" in raw
    ensures var w := BoundedReal(rnd, raw["derived_change_weight"], 0.0, 0.50);
            && (w.Some? <==> Fits(raw["derived_change_weight"], Fraction(0.0, 0.50)))
            && (w.Some? && KeepsOrder(rnd) ==> Within(w.value, Fraction(0.0, 0.50)))
  {
  }

  // ----- diffs

  datatype DiffRow = DiffRow(field: string, before: Option<Value>, after: Option<Value>)

  function Get(m: Fields, k: string): Option<Value> {
    if k in m then Some(m[k]) else None
  }

  ghost predicate InOrder(rows: seq<DiffRow>) {
    forall i, j :: 0 <= i < j < |rows| ==>
      StringLeq(rows[i].field, rows[j].field) && rows[i].field != rows[j].field
  }

  /** One row for each field that differs, with both values, in field order. */
  ghost predicate IsDiff(rows: seq<DiffRow>, before: Fields, after: Fields) {
    && InOrder(rows)
    && (forall i :: 0 <= i < |rows| ==> IsDiffRow(rows[i], before, after))
    && (forall k :: Get(before, k) != Get(after, k) ==> Listed(rows, k))
  }

  predicate IsDiffRow(row: DiffRow, before: Fields, after: Fields) {
    row.before == Get(before, row.field) && row.after == Get(after, row.field) && row.before != row.after
  }

  ghost predicate Listed(rows: seq<DiffRow>, k: string) {
    exists i :: 0 <= i < |rows| && rows[i].field == k
  }

  lemma ListedAppend(rows: seq<DiffRow>, row: DiffRow)
    ensures forall k :: Listed(rows + [row], k) <==> Listed(rows, k) || k == row.field
  {
    forall k ensures Listed(rows + [row], k) <==> Listed(rows, k) || k == row.field {
      if Listed(rows, k) {
        var i :| 0 <= i < |rows| && rows[i].field == k;
        assert (rows + [row])[i].field == k;
      }
      assert (rows + [row])[|rows|].field == row.field;
    }
  }

  method Diff(snapshot: Fields, after: Fields) returns (rows: seq<DiffRow>)
    ensures IsDiff(rows, PolicyValues(snapshot), after)
  {
    hide PolicyValues, Get, Listed, IsDiffRow;
    var before := PolicyValues(snapshot);
    var keys := SortedSet(before.Keys + after.Keys);
    rows := DiffOver(keys, before, after);
    DifferingIsField(before, after);
    hide Ascending;
  }

  method DiffOver(keys: seq<string>, before: Fields, after: Fields) returns (rows: seq<DiffRow>)
    requires Ascending(keys)
    ensures InOrder(rows) && forall a :: 0 <= a < |rows| ==> IsDiffRow(rows[a], before, after)
    ensures forall k :: k in keys && Get(before, k) != Get(after, k) ==> Listed(rows, k)
  {
    hide Get, Listed, StringLeq;
    rows := [];
    NothingListed();
    for i := 0 to |keys|
      invariant InOrder(rows)
      invariant forall a :: 0 <= a < |rows| ==> IsDiffRow(rows[a], before, after)
      invariant forall a :: 0 <= a < |rows| ==> exists b :: 0 <= b < i && keys[b] == rows[a].field
      invariant forall k :: k in keys[..i] && Get(before, k) != Get(after, k) ==> Listed(rows, k)
    {
      var key := keys[i];
      var was, now := Get(before, key), Get(after, key);
      assert keys[..i + 1] == keys[..i] + [key];
      ListedAppend(rows, DiffRow(key, was, now));
      if was != now {
        rows := rows + [DiffRow(key, was, now)];
      }
    }
    assert keys[..|keys|] == keys;
  }

  lemma NothingListed()
    ensures forall k :: !Listed([], k)
  {
  }

  lemma DifferingIsField(before: Fields, after: Fields)
    ensures forall k :: Get(before, k) != Get(after, k) ==> k in before.Keys + after.Keys
  {
  }

  function ApplyRow(m: Fields, row: DiffRow): Fields {
    match row.after
    case None => m - {row.field}
    case Some(v) => m[row.field := v]
  }

  function Apply(m: Fields, rows: seq<DiffRow>): Fields {
    if rows == [] then m else ApplyRow(Apply(m, rows[..|rows| - 1]), rows[|rows| - 1])
  }

  function Inverse(rows: seq<DiffRow>): (r: seq<DiffRow>)
    ensures |r| == |rows| && forall i :: 0 <= i < |rows| ==> r[i] == DiffRow(rows[i].field, rows[i].after, rows[i].before)
  {
    if rows == [] then [] else [DiffRow(rows[0].field, rows[0].after, rows[0].before)] + Inverse(rows[1..])
  }

  lemma {:induction false} ApplyGets(m: Fields, rows: seq<DiffRow>, k: string)
    requires forall i, j :: 0 <= i < j < |rows| ==> rows[i].field != rows[j].field
    ensures (forall i :: 0 <= i < |rows| ==> rows[i].field != k) ==> Get(Apply(m, rows), k) == Get(m, k)
    ensures forall i :: 0 <= i < |rows| && rows[i].field == k ==> Get(Apply(m, rows), k) == rows[i].after
  {
    if rows != [] {
      var init := rows[..|rows| - 1];
      ApplyGets(m, init, k);
      forall i | 0 <= i < |rows| && rows[i].field == k ensures Get(Apply(m, rows), k) == rows[i].after {
        if i < |init| { assert init[i].field == k; }
      }
    }
  }

  lemma SameGets(a: Fields, b: Fields)
    requires forall k :: Get(a, k) == Get(b, k)
    ensures a == b
  {
    forall k ensures (k in a <==> k in b) && (k in a ==> a[k] == b[k]) {
      assert Get(a, k) == Get(b, k);
    }
    assert a.Keys == b.Keys;
  }

  /** Applying a diff to the values before gives the values after; its inverse undoes
      it; and it is empty exactly when nothing changes. */
  lemma DiffApplies(rows: seq<DiffRow>, before: Fields, after: Fields)
    requires IsDiff(rows, before, after)
    ensures Apply(before, rows) == after && Apply(after, Inverse(rows)) == before
    ensures rows == [] <==> before == after
  {
    DiffForward(rows, before, after);
    forall k | Get(after, k) != Get(before, k) ensures Listed(Inverse(rows), k) {
      var i :| 0 <= i < |rows| && rows[i].field == k;
      assert Inverse(rows)[i].field == k;
    }
    DiffForward(Inverse(rows), after, before);
    if rows != [] { assert IsDiffRow(rows[0], before, after); }
  }

  lemma DiffForward(rows: seq<DiffRow>, before: Fields, after: Fields)
    requires IsDiff(rows, before, after)
    ensures Apply(before, rows) == after
  {
    forall k ensures Get(Apply(before, rows), k) == Get(after, k) {
      ApplyGets(before, rows, k);
      if Get(before, k) != Get(after, k) {
        var i :| 0 <= i < |rows| && rows[i].field == k;
      }
    }
    SameGets(Apply(before, rows), after);
  }
}

/** The versioned life of a policy change proposal. */
module PolicyProposals {
  import opened Options
  import opened PolicyValuesAndDiffs
  import G = ChangeGuidance

  datatype State = Draft | UnderReview | Accepted | Rejected | Superseded

  datatype Content = Content(packetId: string, surface: string, before: Fields, after: Fields,
                             rationale: string, rollback: string, tests: seq<string>)

  datatype Proposal = Proposal(key: string, version: nat, content: Content, packet: G.Packet, target: string,
                               diff: seq<DiffRow>, digest: string, createdBy: string,
                               state: State, decisionBy: string, decisionNote: string)

  datatype Id = Id(key: string, version: nat)

  function Following(id: Id): Id { Id(id.key, id.version + 1) }

  function Preceding(id: Id): Id
    requires id.version > 0
  {
    Id(id.key, id.version - 1)
  }

  type Table = map<Id, Proposal>

  /** Hashes of packets, keys and contents, and six-decimal rounding: any functions. */
  datatype Hashes = Hashes(packetId: (string, G.Packet) -> string, key: (string, string) -> string,
                           digest: Content -> string, rnd: real -> real)

  // ----- invariants

  ghost predicate Newest(t: Table, key: string, n: nat) {
    (n > 0 ==> Id(key, n) in t) && forall id :: id in t && id.key == key ==> id.version <= n
  }

  // Columns that no update touches.
  predicate SameContent(a: Proposal, b: Proposal) {
    a.(state := b.state, decisionBy := b.decisionBy, decisionNote := b.decisionNote) == b
  }

  // The row as it was when it was drafted, before it had a version.
  function Drafted(row: Proposal): Proposal {
    row.(version := 0, state := Draft, decisionBy := "", decisionNote := "")
  }

  // The version before it is there, and superseded.
  predicate Chained(t: Table, id: Id) {
    && id.version >= 1
    && (id.version > 1 ==> Preceding(id) in t && t[Preceding(id)].state == Superseded)
  }

  ghost predicate Inv(h: Hashes, t: Table) {
    forall id :: id in t ==> Chained(t, id) && Id(t[id].key, t[id].version) == id && Created(h, t[id])
  }

  /** Versions are 1..n without a gap, every one but the newest is superseded, and so an
      accepted one is the newest. */
  lemma {:induction false} VersionsContiguous(h: Hashes, t: Table, key: string, n: nat, m: nat)
    requires Inv(h, t) && Newest(t, key, n)
    ensures Id(key, m) in t <==> 1 <= m <= n
    ensures 1 <= m < n ==> t[Id(key, m)].state == Superseded
    decreases n - m
  {
    hide Created;
    if 1 <= m < n {
      VersionsContiguous(h, t, key, n, m + 1);
      assert Chained(t, Id(key, m + 1));
    }
  }

  // ----- what a create prepares

  datatype Error = UnsupportedSurface | PacketNotFound | PacketNotReady | InvalidAfter | NoDifference
                 | TextRequired | TestRequired | AcceptedIsFinal | NotFound | WrongState | BadDecision

  datatype Result = Success(row: Proposal) | Failure(error: Error)

  /** Texts are already stripped; `tests` is the cleaned list. */
  datatype Request = Request(packetId: string, target: string, surface: string, after: map<string, Raw>,
                             rationale: string, rollback: string, tests: seq<string>, actor: string)

  function Cut(s: string, n: nat): string { if |s| <= n then s else s[..n] }

  function ContentOf(h: Hashes, r: Request): Content
    requires Supported(r.surface) && ValidateAfter(h.rnd, r.surface, r.after).Some?
  {
    Content(r.packetId, r.surface, CurrentSnapshot(r.surface), ValidateAfter(h.rnd, r.surface, r.after).value,
            Cut(r.rationale, 4000), Cut(r.rollback, 4000), r.tests)
  }

  /** The first check that fails, in order, once the packet is found. */
  ghost predicate Prepared(h: Hashes, r: Request, packet: Option<G.Packet>, result: Result) {
    if !Supported(r.surface) then result == Failure(UnsupportedSurface)
    else if packet.None? then result == Failure(PacketNotFound)
    else if !packet.value.ready then result == Failure(PacketNotReady)
    else if ValidateAfter(h.rnd, r.surface, r.after).None? then result == Failure(InvalidAfter)
    else if PolicyValues(CurrentSnapshot(r.surface)) == ValidateAfter(h.rnd, r.surface, r.after).value then
      result == Failure(NoDifference)
    else if r.rationale == "" || r.rollback == "" then result == Failure(TextRequired)
    else if r.tests == [] then result == Failure(TestRequired)
    else
      var c := ContentOf(h, r);
      && result.Success?
      && IsDiff(result.row.diff, PolicyValues(c.before), c.after)
      && result.row == Proposal(h.key(r.packetId, r.surface), 0, c, packet.value, r.target, result.row.diff,
                                h.digest(c), Cut(r.actor, 200), Draft, "", "")
  }

  method Prepare(h: Hashes, r: Request, packet: Option<G.Packet>) returns (result: Result)
    ensures Prepared(h, r, packet, result)
  {
    if !Supported(r.surface) { return Failure(UnsupportedSurface); }
    if packet.None? { return Failure(PacketNotFound); }
    if !packet.value.ready { return Failure(PacketNotReady); }
    var before := CurrentSnapshot(r.surface);
    var after := ValidateAfter(h.rnd, r.surface, r.after);
    if after.None? { return Failure(InvalidAfter); }
    var diff := Diff(before, after.value);
    DiffApplies(diff, PolicyValues(before), after.value);
    if diff == [] { return Failure(NoDifference); }
    if r.rationale == "" || r.rollback == "" { return Failure(TextRequired); }
    if r.tests == [] { return Failure(TestRequired); }
    var c := ContentOf(h, r);
    return Success(Proposal(h.key(r.packetId, r.surface), 0, c, packet.value, r.target, diff, h.digest(c),
                            Cut(r.actor, 200), Draft, "", ""));
  }

  function DefaultQuery(tasks: seq<G.Task>): G.Query {
    G.Query(tasks, G.MAX_TASKS, G.MAX_TASKS, G.DEFAULT_WINDOW_DAYS, G.MAX_PACKETS)
  }

  ghost predicate IsPacket(h: Hashes, r: Request, packets: seq<G.Packet>, packet: Option<G.Packet>) {
    match packet
    case None => forall p :: p in packets ==> h.packetId(r.target, p) != r.packetId
    case Some(p) => p in packets && h.packetId(r.target, p) == r.packetId
  }

  /** One call of create: the target's rated tasks, the request, the report and the packet found in it. */
  datatype Call = Call(tasks: seq<G.Task>, request: Request, packets: seq<G.Packet>, packet: Option<G.Packet>)

  ghost predicate Answers(h: Hashes, c: Call, prepared: Result) {
    && G.IsReport(h.rnd, DefaultQuery(c.tasks), c.packets)
    && IsPacket(h, c.request, c.packets, c.packet)
    && Prepared(h, c.request, c.packet, prepared)
  }

  /** Some call of create has drafted this row. */
  ghost predicate Created(h: Hashes, row: Proposal) {
    exists c: Call :: Answers(h, c, Success(Drafted(row)))
  }

  // Ten explicit ratings among the newest tasks of the target.
  ghost predicate RestsOnRatings(h: Hashes, packet: G.Packet) {
    exists tasks ::
      && packet == G.PacketFor(h.rnd, DefaultQuery(tasks), packet.signal)
      && G.Counts(G.Fetch(tasks, G.MAX_TASKS), packet.signal, G.Everything).feedback >= 10
  }

  lemma PreparedIs(h: Hashes, r: Request, packet: Option<G.Packet>, draft: Proposal)
    requires Prepared(h, r, packet, Success(draft))
    ensures packet.Some? && packet.value.ready && draft.packet == packet.value && draft == Drafted(draft)
    ensures draft.key == h.key(draft.content.packetId, draft.content.surface) && draft.digest == h.digest(draft.content)
    ensures IsDiff(draft.diff, PolicyValues(draft.content.before), draft.content.after)
    ensures PolicyValues(draft.content.before) != draft.content.after
  {
    hide ValidateAfter, CurrentSnapshot, IsDiff, PolicyValues;
  }

  /** What a created row is, derived from the reports that its call read. */
  lemma CreatedIsSound(h: Hashes, row: Proposal)
    requires Created(h, row)
    ensures row.key == h.key(row.content.packetId, row.content.surface) && row.digest == h.digest(row.content)
    ensures row.packet.ready && row.packet.feedback >= 10 && RestsOnRatings(h, row.packet)
    ensures IsDiff(row.diff, PolicyValues(row.content.before), row.content.after) && row.diff != []
  {
    hide ValidateAfter, CurrentSnapshot, IsDiff, PolicyValues;
    var c: Call :| Answers(h, c, Success(Drafted(row)));
    PreparedIs(h, c.request, c.packet, Drafted(row));
    hide Prepared;
    DiffApplies(row.diff, PolicyValues(row.content.before), row.content.after);
    PacketRests(h, c);
  }

  lemma PacketRests(h: Hashes, c: Call)
    requires G.IsReport(h.rnd, DefaultQuery(c.tasks), c.packets) && IsPacket(h, c.request, c.packets, c.packet)
    requires c.packet.Some? && c.packet.value.ready
    ensures c.packet.value.feedback >= 10 && RestsOnRatings(h, c.packet.value)
  {
    var q, p := DefaultQuery(c.tasks), c.packet.value;
    G.ReadyRestsOnTenRatings(h.rnd, q, c.packets, p);
    assert p == G.PacketFor(h.rnd, q, p.signal);
    G.JoinSignal(h.rnd, q, p.signal);
    hide G.PacketFor, G.IsReport, G.Counts;
    assert p.feedback == G.Counts(G.Fetch(c.tasks, G.MAX_TASKS), p.signal, G.Everything).feedback;
  }

  // ----- single writes

  function SetState(t: Table, id: Id, state: State): Table
    requires id in t
  {
    t[id := t[id].(state := state)]
  }

  // First write of a create that amends an earlier version.
  predicate SupersedeWrite(t: Table, id: Id, t': Table) {
    id in t && t[id].state != Accepted && t[id].state != Superseded && t' == SetState(t, id, Superseded)
  }

  // Last write of a create: the next version, once the one before it is superseded.
  ghost predicate InsertWrite(h: Hashes, t: Table, row: Proposal, t': Table) {
    && row.version > 0 && Newest(t, row.key, row.version - 1)
    && (row.version > 1 ==> t[Id(row.key, row.version - 1)].state == Superseded)
    && row == Drafted(row).(version := row.version) && Created(h, row)
    && t' == t[Id(row.key, row.version) := row]
  }

  predicate SubmitWrite(t: Table, id: Id, t': Table) {
    id in t && t[id].state == Draft && t' == SetState(t, id, UnderReview)
  }

  predicate DecideWrite(t: Table, id: Id, accept: bool, actor: string, note: string, t': Table) {
    && id in t && t[id].state == UnderReview
    && t' == t[id := t[id].(state := if accept then Accepted else Rejected, decisionBy := actor, decisionNote := note)]
  }

  ghost predicate Write(h: Hashes, t: Table, t': Table) {
    || t' == t
    || (exists id :: SupersedeWrite(t, id, t'))
    || (exists row :: InsertWrite(h, t, row, t'))
    || (exists id :: SubmitWrite(t, id, t'))
    || (exists id, accept, actor, note :: DecideWrite(t, id, accept, actor, note, t'))
  }

  // All writes but the insert change one row, and only its state and decision.
  predicate RowUpdate(t: Table, id: Id, t': Table) {
    && id in t && id in t' && t' == t[id := t'[id]] && SameContent(t[id], t'[id])
    && t[id].state != Accepted && t[id].state != Superseded
  }

  lemma WriteIsUpdateOrInsert(h: Hashes, t: Table, t': Table)
    requires Write(h, t, t') && t' != t
    ensures (exists id :: RowUpdate(t, id, t')) || (exists row :: InsertWrite(h, t, row, t'))
  {
    hide Created;
    if id :| SupersedeWrite(t, id, t') {
      assert RowUpdate(t, id, t');
    } else if id :| SubmitWrite(t, id, t') {
      assert RowUpdate(t, id, t');
    } else if id, accept, actor, note :| DecideWrite(t, id, accept, actor, note, t') {
      assert RowUpdate(t, id, t');
    }
  }

  // A row that is not superseded is the newest of its key.
  lemma ActiveIsNewest(h: Hashes, t: Table, id: Id)
    requires Inv(h, t) && id in t && t[id].state != Superseded
    ensures Following(id) !in t
  {
    hide Created;
    assert Preceding(Following(id)) == id;
    assert Following(id) !in t || Chained(t, Following(id));
  }

  lemma SameOrigin(h: Hashes, a: Proposal, b: Proposal)
    requires SameContent(a, b)
    ensures Created(h, a) <==> Created(h, b)
  {
    assert Drafted(a) == Drafted(b);
    hide Answers;
  }

  lemma StaysChained(t: Table, id: Id, row: Proposal, i: Id)
    requires id in t && i in t && Chained(t, i) && (row.state == Superseded || Following(id) !in t)
    ensures Chained(t[id := row], i)
  {
    if i.version > 1 && Preceding(i) == id { assert Following(id) == i; }
  }

  lemma UpdateKeepsInv(h: Hashes, t: Table, id: Id, row: Proposal)
    requires Inv(h, t) && id in t && SameContent(t[id], row)
    requires row.state == Superseded || Following(id) !in t
    ensures Inv(h, t[id := row])
  {
    var t' := t[id := row];
    SameOrigin(h, t[id], row);
    assert row.key == t[id].key && row.version == t[id].version;
    hide Created, SameContent;
    forall i | i in t' ensures Chained(t', i) && Id(t'[i].key, t'[i].version) == i && Created(h, t'[i]) {
      StaysChained(t, id, row, i);
    }
  }

  lemma InsertKeepsInv(h: Hashes, t: Table, row: Proposal, t': Table)
    requires Inv(h, t) && InsertWrite(h, t, row, t')
    ensures Inv(h, t')
  {
    hide Created;
    var id := Id(row.key, row.version);
    assert Preceding(id) == Id(row.key, row.version - 1);
    forall i | i in t' ensures Chained(t', i) && Id(t'[i].key, t'[i].version) == i && Created(h, t'[i]) {
      if i != id {
        assert Chained(t, i);
        assert i.key == row.key ==> i.version <= row.version - 1;
      }
    }
  }

  /** The invariants hold after every single write, not only after whole operations. */
  lemma {:induction false} WriteKeepsInv(h: Hashes, t: Table, t': Table)
    requires Inv(h, t) && Write(h, t, t')
    ensures Inv(h, t')
  {
    hide Created, Inv;
    if t' != t {
      WriteIsUpdateOrInsert(h, t, t');
      if id :| RowUpdate(t, id, t') {
        ActiveIsNewest(h, t, id);
        UpdateKeepsInv(h, t, id, t'[id]);
      } else {
        var row :| InsertWrite(h, t, row, t');
        InsertKeepsInv(h, t, row, t');
      }
    }
  }

  /** No write removes a row, changes its content, or touches an accepted one. */
  lemma WriteKeepsRows(h: Hashes, t: Table, t': Table, id: Id)
    requires Inv(h, t) && Write(h, t, t') && id in t
    ensures id in t' && SameContent(t[id], t'[id])
    ensures t[id].state == Accepted ==> t'[id] == t[id]
  {
    hide Created, Inv;
    if t' != t {
      WriteIsUpdateOrInsert(h, t, t');
      if other :| RowUpdate(t, other, t') {
      } else {
        var row :| InsertWrite(h, t, row, t');
        assert id.key == row.key ==> id.version <= row.version - 1;
      }
    }
  }

  // ----- runs of single writes

  ghost predicate Run(h: Hashes, run: seq<Table>) {
    && run != [] && run[0] == map[]
    && forall k :: 0 <= k < |run| - 1 ==> Write(h, run[k], run[k + 1])
  }

  lemma EmptyInv(h: Hashes)
    ensures Inv(h, map[])
  {
  }

  lemma {:induction false} RunKeepsInv(h: Hashes, run: seq<Table>, k: nat)
    requires Run(h, run) && k < |run|
    ensures Inv(h, run[k])
  {
    hide Write, Inv;
    assert Inv(h, map[]) by { EmptyInv(h); }
    if k > 0 {
      RunKeepsInv(h, run, k - 1);
      WriteKeepsInv(h, run[k - 1], run[k]);
    }
  }

  /** In every run: content never changes, and an accepted version stays as it is, the last of its key. */
  lemma {:induction false} RunKeepsRows(h: Hashes, run: seq<Table>, k: nat, m: nat, id: Id)
    requires Run(h, run) && k <= m < |run| && id in run[k]
    ensures id in run[m] && SameContent(run[k][id], run[m][id])
    ensures run[k][id].state == Accepted ==> run[m][id] == run[k][id] && Following(id) !in run[m]
    decreases m
  {
    hide Write, Inv;
    RunKeepsInv(h, run, m);
    if k < m {
      RunKeepsRows(h, run, k, m - 1, id);
      RunKeepsInv(h, run, m - 1);
      WriteKeepsRows(h, run[m - 1], run[m], id);
    }
    if run[k][id].state == Accepted { ActiveIsNewest(h, run[m], id); }
  }

  /** Every stored proposal, in every run, rests on a packet with at least ten explicit ratings
      among its target's tasks, and its diff takes the values before to the values after. */
  lemma StoredProposals(h: Hashes, run: seq<Table>, k: nat, id: Id)
    requires Run(h, run) && k < |run| && id in run[k]
    ensures var row := run[k][id];
            && row.packet.ready && row.packet.feedback >= 10 && RestsOnRatings(h, row.packet)
            && row.content.after != PolicyValues(row.content.before)
            && Apply(PolicyValues(row.content.before), row.diff) == row.content.after
  {
    hide Write, Created, RestsOnRatings;
    RunKeepsInv(h, run, k);
    var row := run[k][id];
    CreatedIsSound(h, row);
    DiffApplies(row.diff, PolicyValues(row.content.before), row.content.after);
  }

  // ----- whole operations

  /** What a create answers and leaves: nothing is written when a check fails, when the
      newest version has the same content, or when it is accepted; otherwise the newest
      version is superseded and the draft becomes the next one. */
  ghost predicate Outcome(t: Table, prepared: Result, result: Result, t': Table) {
    if prepared.Failure? then result == prepared && t' == t
    else
      exists n :: Newest(t, prepared.row.key, n) && OutcomeAt(t, prepared.row, n, result, t')
  }

  predicate OutcomeAt(t: Table, draft: Proposal, n: nat, result: Result, t': Table)
    requires n > 0 ==> Id(draft.key, n) in t
  {
    var newest := Id(draft.key, n);
    if n > 0 && t[newest].digest == draft.digest then result == Success(t[newest]) && t' == t
    else if n > 0 && t[newest].state == Accepted then result == Failure(AcceptedIsFinal) && t' == t
    else
      var row := draft.(version := n + 1);
      && result == Success(row)
      && t' == (if n > 0 then SetState(t, newest, Superseded) else t)[Following(newest) := row]
  }

  ghost predicate Creates(h: Hashes, t: Table, t': Table) {
    exists c: Call, prepared, result :: Answers(h, c, prepared) && Outcome(t, prepared, result, t')
  }

  /** One call of create, submit or decide; a call that is refused changes nothing. */
  ghost predicate Operation(h: Hashes, t: Table, t': Table) {
    || t' == t
    || Creates(h, t, t')
    || (exists id :: SubmitWrite(t, id, t'))
    || (exists id, accept, actor, note :: DecideWrite(t, id, accept, actor, note, t'))
  }

  lemma NothingPrepared(t: Table, prepared: Result)
    requires prepared.Failure?
    ensures Outcome(t, prepared, prepared, t)
  {
  }

  lemma SettledByNewest(t: Table, prepared: Result, n: nat, result: Result)
    requires prepared.Success? && Newest(t, prepared.row.key, n)
    requires OutcomeAt(t, prepared.row, n, result, t)
    ensures Outcome(t, prepared, result, t)
  {
  }

  lemma DraftIsCreated(h: Hashes, c: Call, draft: Proposal)
    requires Answers(h, c, Success(draft))
    ensures draft == Drafted(draft) && forall n: nat :: Created(h, draft.(version := n))
  {
    PreparedIs(h, c.request, c.packet, draft);
    hide Answers;
    forall n: nat ensures Created(h, draft.(version := n)) {
      assert Drafted(draft.(version := n)) == draft;
    }
  }

  // The table between the two writes of a create.
  function Midway(t: Table, key: string, n: nat): Table
    requires n > 0 ==> Id(key, n) in t
  {
    if n > 0 then SetState(t, Id(key, n), Superseded) else t
  }

  lemma AmendIsTwoWrites(h: Hashes, t: Table, draft: Proposal, n: nat)
    requires Newest(t, draft.key, n) && draft == Drafted(draft) && Created(h, draft.(version := n + 1))
    requires n > 0 ==> t[Id(draft.key, n)].state != Accepted
    ensures var mid, row := Midway(t, draft.key, n), draft.(version := n + 1);
            Write(h, t, mid) && Write(h, mid, mid[Id(row.key, row.version) := row])
  {
    hide Created;
    var id := Id(draft.key, n);
    var mid, row := Midway(t, draft.key, n), draft.(version := n + 1);
    if n > 0 && t[id].state == Superseded {
      assert mid == t;
    } else if n > 0 {
      assert SupersedeWrite(t, id, mid);
    }
    assert Newest(mid, draft.key, n);
    assert InsertWrite(h, mid, row, mid[Id(row.key, row.version) := row]);
  }

  /** A create is at most two single writes. */
  lemma CreateIsWrites(h: Hashes, t: Table, t': Table)
    requires Creates(h, t, t')
    ensures exists mid :: Write(h, t, mid) && Write(h, mid, t')
  {
    var c: Call, prepared, result :| Answers(h, c, prepared) && Outcome(t, prepared, result, t');
    assert Write(h, t, t);
    if t' == t {
    } else {
      var draft := prepared.row;
      DraftIsCreated(h, c, draft);
      hide Created, Answers, Write, Newest, OutcomeAt;
      var n :| Newest(t, draft.key, n) && OutcomeAt(t, draft, n, result, t');
      OutcomeAmends(t, draft, n, result, t');
      AmendIsTwoWrites(h, t, draft, n);
    }
  }

  lemma OutcomeAmends(t: Table, draft: Proposal, n: nat, result: Result, t': Table)
    requires (n > 0 ==> Id(draft.key, n) in t) && OutcomeAt(t, draft, n, result, t') && t' != t
    ensures n > 0 ==> t[Id(draft.key, n)].state != Accepted
    ensures t' == Midway(t, draft.key, n)[Id(draft.key, n + 1) := draft.(version := n + 1)]
  {
  }

  lemma OperationIsWrites(h: Hashes, t: Table, t': Table)
    requires Operation(h, t, t')
    ensures exists mid :: Write(h, t, mid) && Write(h, mid, t')
  {
    hide Created, Creates;
    assert Write(h, t, t);
    if Creates(h, t, t') {
      CreateIsWrites(h, t, t');
    } else {
      assert Write(h, t, t');
    }
  }

  ghost predicate History(h: Hashes, tables: seq<Table>) {
    && tables != [] && tables[0] == map[]
    && forall k :: 0 <= k < |tables| - 1 ==> Operation(h, tables[k], tables[k + 1])
  }

  lemma RunExtends(h: Hashes, run: seq<Table>, t: Table)
    requires Run(h, run) && Write(h, run[|run| - 1], t)
    ensures Run(h, run + [t])
  {
    hide Write;
    var longer := run + [t];
    forall k | 0 <= k < |longer| - 1 ensures Write(h, longer[k], longer[k + 1]) {
      if k < |run| - 1 { assert longer[k + 1] == run[k + 1]; }
    }
  }

  /** Every history of whole operations is a run of single writes that passes through its tables in
      order, so everything proved of runs holds of histories. */
  lemma {:induction false} HistoryIsRun(h: Hashes, tables: seq<Table>) returns (run: seq<Table>, at: seq<nat>)
    requires History(h, tables)
    ensures Run(h, run) && |at| == |tables| && at[|at| - 1] == |run| - 1
    ensures forall k :: 0 <= k < |at| ==> at[k] < |run| && run[at[k]] == tables[k]
    ensures forall k, m :: 0 <= k <= m < |at| ==> at[k] <= at[m]
  {
    hide Operation, Write;
    if |tables| == 1 {
      run, at := [map[]], [0];
    } else {
      var n := |tables| - 1;
      assert Operation(h, tables[n - 1], tables[n - 1 + 1]);
      var run', at' := HistoryIsRun(h, tables[..n]);
      OperationIsWrites(h, tables[n - 1], tables[n]);
      var mid :| Write(h, tables[n - 1], mid) && Write(h, mid, tables[n]);
      RunExtends(h, run', mid);
      RunExtends(h, run' + [mid], tables[n]);
      run, at := run' + [mid] + [tables[n]], at' + [|run'| + 1];
    }
  }

  /** In every history of create, submit and decide: versions contiguous, content constant, accepted rows frozen. */
  lemma HistoryKeepsRows(h: Hashes, tables: seq<Table>, k: nat, m: nat, id: Id)
    requires History(h, tables) && k <= m < |tables| && id in tables[k]
    ensures Inv(h, tables[m]) && id in tables[m] && SameContent(tables[k][id], tables[m][id])
    ensures tables[k][id].state == Accepted ==> tables[m][id] == tables[k][id] && Following(id) !in tables[m]
    ensures tables[m][id].packet.feedback >= 10 && RestsOnRatings(h, tables[m][id].packet)
  {
    hide History, Run, Inv, RestsOnRatings;
    var run, at := HistoryIsRun(h, tables);
    RunKeepsInv(h, run, at[m]);
    RunKeepsRows(h, run, at[k], at[m], id);
    StoredProposals(h, run, at[m], id);
  }

  // ----- the operations on the table

  class ProposalStore {
    const h: Hashes
    var table: Table

    constructor (h: Hashes)
      ensures this.h == h && table == map[] && Inv(h, table)
    {
      this.h := h;
      table := map[];
    }

    /** `ORDER BY proposal_version DESC LIMIT 1`. */
    method NewestVersion(key: string) returns (n: nat)
      ensures Newest(table, key, n)
    {
      n := 0;
      var left := table.Keys;
      while left != {}
        invariant left <= table.Keys
        invariant n > 0 ==> Id(key, n) in table
        invariant forall id :: id in table && id.key == key && id.version > n ==> id in left
        decreases left
      {
        var id: Id :| id in left;
        if id.key == key && id.version > n { n := id.version; }
        left := left - {id};
      }
    }

    method FindPacket(r: Request, packets: seq<G.Packet>) returns (packet: Option<G.Packet>)
      ensures IsPacket(h, r, packets, packet)
    {
      for i := 0 to |packets|
        invariant forall k :: 0 <= k < i ==> h.packetId(r.target, packets[k]) != r.packetId
      {
        if h.packetId(r.target, packets[i]) == r.packetId { return Some(packets[i]); }
      }
      return None;
    }

    /** The two writes of a create: supersede the newest version, insert the next. */
    method Amend(draft: Proposal, n: nat, ghost c: Call) returns (result: Result)
      requires Inv(h, table) && Answers(h, c, Success(draft)) && Newest(table, draft.key, n)
      requires n > 0 ==> table[Id(draft.key, n)].digest != draft.digest && table[Id(draft.key, n)].state != Accepted
      modifies this`table
      ensures Outcome(old(table), Success(draft), result, table)
      ensures Operation(h, old(table), table) && Inv(h, table)
      ensures exists mid :: Write(h, old(table), mid) && Write(h, mid, table)
    {
      hide Outcome, Created, Write, Inv, Operation, Answers;
      if n > 0 && table[Id(draft.key, n)].state != Superseded {
        table := SetState(table, Id(draft.key, n), Superseded);
      }
      assert table == Midway(old(table), draft.key, n);
      var row := draft.(version := n + 1);
      table := table[Id(row.key, row.version) := row];
      result := Success(row);
      Amended(h, c, old(table), draft, n, table);
    }

    /** Creates a draft from the review packets of the target's tasks. */
    method Create(tasks: seq<G.Task>, r: Request) returns (result: Result, ghost c: Call, ghost prepared: Result)
      requires Inv(h, table)
      modifies this`table
      ensures c.tasks == tasks && c.request == r && Answers(h, c, prepared)
      ensures Outcome(old(table), prepared, result, table)
      ensures Operation(h, old(table), table) && Inv(h, table)
      ensures exists mid :: Write(h, old(table), mid) && Write(h, mid, table)
    {
      hide Outcome, Created, Write, Inv, Operation, Prepared, IsPacket;
      var packets := G.ReviewPackets(h.rnd, DefaultQuery(tasks));
      var found := FindPacket(r, packets);
      c := Call(tasks, r, packets, found);
      result := Prepare(h, r, found);
      prepared := result;
      assert Answers(h, c, prepared);
      hide Answers;
      NothingWritten(h, table);
      if result.Failure? {
        NothingPrepared(table, prepared);
        return;
      }
      var draft := result.row;
      var n := NewestVersion(draft.key);
      if n > 0 && table[Id(draft.key, n)].digest == draft.digest {
        result := Success(table[Id(draft.key, n)]);
        SettledByNewest(table, prepared, n, result);
      } else if n > 0 && table[Id(draft.key, n)].state == Accepted {
        result := Failure(AcceptedIsFinal);
        SettledByNewest(table, prepared, n, result);
      } else {
        result := Amend(draft, n, c);
      }
    }

    method Submit(id: Id) returns (result: Result)
      requires Inv(h, table)
      modifies this`table
      ensures Inv(h, table) && Operation(h, old(table), table)
      ensures result.Failure? ==> table == old(table)
      ensures result == Failure(NotFound) <==> id !in old(table)
      ensures result == Failure(WrongState) <==> id in old(table) && old(table)[id].state !in {Draft, UnderReview}
      ensures result.Success? ==> id in table && table[id] == result.row && result.row.state == UnderReview
      ensures result.Success? && table != old(table) ==> SubmitWrite(old(table), id, table)
    {
      hide Created;
      if id !in table { return Failure(NotFound); }
      if table[id].state == UnderReview { return Success(table[id]); }
      if table[id].state != Draft { return Failure(WrongState); }
      table := SetState(table, id, UnderReview);
      assert SubmitWrite(old(table), id, table);
      WriteKeepsInv(h, old(table), table);
      result := Success(table[id]);
    }

    method Decide(id: Id, decision: string, note: string, actor: string) returns (result: Result)
      requires Inv(h, table)
      modifies this`table
      ensures Inv(h, table) && Operation(h, old(table), table)
      ensures result.Failure? ==> table == old(table)
      ensures result.Success? <==> (decision == "accept" || decision == "reject") && id in old(table) &&
                                   old(table)[id].state == UnderReview && note != ""
      ensures result.Success? ==> DecideWrite(old(table), id, decision == "accept", Cut(actor, 200), Cut(note, 2000), table) &&
                                  result.row == table[id]
      ensures result.Success? ==>
                && result.row.state == (if decision == "accept" then Accepted else Rejected)
                && result.row.decisionNote <= note && |result.row.decisionNote| == (if |note| <= 2000 then |note| else 2000)
                && result.row.decisionBy <= actor && |result.row.decisionBy| == (if |actor| <= 200 then |actor| else 200)
                && SameContent(old(table)[id], result.row) && table == old(table)[id := result.row]
    {
      hide Created;
      if decision != "accept" && decision != "reject" { return Failure(BadDecision); }
      if id !in table { return Failure(NotFound); }
      if table[id].state != UnderReview { return Failure(WrongState); }
      if note == "" { return Failure(TextRequired); }
      var state := if decision == "accept" then Accepted else Rejected;
      table := table[id := table[id].(state := state, decisionBy := Cut(actor, 200), decisionNote := Cut(note, 2000))];
      assert DecideWrite(old(table), id, decision == "accept", Cut(actor, 200), Cut(note, 2000), table);
      WriteKeepsInv(h, old(table), table);
      result := Success(table[id]);
    }
  }

  lemma NothingWritten(h: Hashes, t: Table)
    ensures Write(h, t, t) && Operation(h, t, t)
  {
  }

  lemma CreateIsOperation(h: Hashes, c: Call, prepared: Result, result: Result, t: Table, t': Table)
    requires Answers(h, c, prepared) && Outcome(t, prepared, result, t')
    ensures Operation(h, t, t')
  {
    hide Answers, Outcome;
    assert Creates(h, t, t');
  }

  lemma Amended(h: Hashes, c: Call, t: Table, draft: Proposal, n: nat, t': Table)
    requires Inv(h, t) && Answers(h, c, Success(draft)) && Newest(t, draft.key, n)
    requires n > 0 ==> t[Id(draft.key, n)].digest != draft.digest && t[Id(draft.key, n)].state != Accepted
    requires t' == Midway(t, draft.key, n)[Id(draft.key, n + 1) := draft.(version := n + 1)]
    ensures Outcome(t, Success(draft), Success(draft.(version := n + 1)), t') && Operation(h, t, t') && Inv(h, t')
    ensures exists mid :: Write(h, t, mid) && Write(h, mid, t')
  {
    assert n > 0 ==> Id(draft.key, n) in t;
    hide Answers, Created, Write, Inv, Outcome, Operation, Newest, SetState;
    AmendedOutcome(t, draft, n, t');
    DraftIsCreated(h, c, draft);
    CreateIsOperation(h, c, Success(draft), Success(draft.(version := n + 1)), t, t');
    var mid := Midway(t, draft.key, n);
    AmendIsTwoWrites(h, t, draft, n);
    WriteKeepsInv(h, t, mid);
    WriteKeepsInv(h, mid, t');
  }

  lemma AmendedOutcome(t: Table, draft: Proposal, n: nat, t': Table)
    requires Newest(t, draft.key, n)
    requires n > 0 ==> t[Id(draft.key, n)].digest != draft.digest && t[Id(draft.key, n)].state != Accepted
    requires t' == Midway(t, draft.key, n)[Id(draft.key, n + 1) := draft.(version := n + 1)]
    ensures Outcome(t, Success(draft), Success(draft.(version := n + 1)), t')
  {
    assert OutcomeAt(t, draft, n, Success(draft.(version := n + 1)), t');
  }
}
