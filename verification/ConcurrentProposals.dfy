/** Proposals under any number of callers, each of whom writes on the ground of what it read earlier.

    The statements of one operation are separate transactions, and an UPDATE names its row by the
    identifier alone: nothing re-checks what was read before. */
module ConcurrentProposals {
  import opened Options
  import opened PolicyProposals
  import opened PolicyValuesAndDiffs
  import G = ChangeGuidance

  /** What a caller has read its ground for and is about to write: the version that a create
      supersedes, with the row it inserts next; that row; the draft to submit; the decision. */
  datatype Pending =
    | Superseding(id: Id, row: Proposal)
    | Inserting(row: Proposal)
    | Submitting(id: Id)
    | Deciding(id: Id, accept: bool, actor: string, note: string)

  datatype System = System(table: Table, pending: map<nat, Pending>)

  const EMPTY := System(map[], map[])

  function IdOf(row: Proposal): Id { Id(row.key, row.version) }

  ghost predicate IsDraft(h: Hashes, row: Proposal) {
    row.version > 0 && row == Drafted(row).(version := row.version) && Created(h, row)
  }

  // ----- reading and writing

  /** The reads of an operation lead to this first write. */
  ghost predicate Plans(h: Hashes, t: Table, p: Pending) {
    match p
    case Superseding(id, row) =>
      && IsDraft(h, row) && row.version > 1 && id == Preceding(IdOf(row)) && Newest(t, row.key, row.version - 1)
      && t[id].digest != row.digest && t[id].state != Accepted && t[id].state != Superseded
    case Inserting(row) =>
      && IsDraft(h, row) && Newest(t, row.key, row.version - 1)
      && (row.version > 1 ==> t[Preceding(IdOf(row))].digest != row.digest && t[Preceding(IdOf(row))].state == Superseded)
    case Submitting(id) => id in t && t[id].state == Draft
    case Deciding(id, _, _, _) => id in t && t[id].state == UnderReview
  }

  function Decided(row: Proposal, accept: bool, actor: string, note: string): Proposal {
    row.(state := if accept then Accepted else Rejected, decisionBy := actor, decisionNote := note)
  }

  /** An UPDATE of a row that is not there does nothing; an INSERT of a version that is there fails. */
  function Written(t: Table, p: Pending): Table {
    match p
    case Superseding(id, _) => if id in t then SetState(t, id, Superseded) else t
    case Inserting(row) => if IdOf(row) in t then t else t[IdOf(row) := row]
    case Submitting(id) => if id in t then SetState(t, id, UnderReview) else t
    case Deciding(id, accept, actor, note) => if id in t then t[id := Decided(t[id], accept, actor, note)] else t
  }

  ghost predicate Reads(h: Hashes, s: System, c: nat, p: Pending, s': System) {
    c !in s.pending && Plans(h, s.table, p) && s' == s.(pending := s.pending[c := p])
  }

  function AfterWrite(s: System, c: nat): System
    requires c in s.pending
  {
    var p := s.pending[c];
    System(Written(s.table, p), if p.Superseding? then s.pending[c := Inserting(p.row)] else s.pending - {c})
  }

  predicate Writes(s: System, c: nat, s': System) {
    c in s.pending && s' == AfterWrite(s, c)
  }

  // The caller ends before its write.
  predicate Ends(s: System, c: nat, s': System) {
    c in s.pending && s' == s.(pending := s.pending - {c})
  }

  ghost predicate Next(h: Hashes, s: System, s': System) {
    || (exists c, p :: Reads(h, s, c, p, s'))
    || (exists c :: Writes(s, c, s'))
    || (exists c :: Ends(s, c, s'))
  }

  ghost predicate Interleaving(h: Hashes, run: seq<System>) {
    && run != [] && run[0] == EMPTY
    && forall k :: 0 <= k < |run| - 1 ==> Next(h, run[k], run[k + 1])
  }

  // ----- what holds in every interleaving

  ghost predicate PendingSound(h: Hashes, t: Table, p: Pending) {
    match p
    case Superseding(id, row) => IsDraft(h, row) && row.version > 1 && id == Preceding(IdOf(row)) && id in t
    case Inserting(row) => IsDraft(h, row) && (row.version > 1 ==> Preceding(IdOf(row)) in t)
    case Submitting(id) => id in t
    case Deciding(id, _, _, _) => id in t
  }

  ghost predicate RowSound(h: Hashes, t: Table, id: Id)
    requires id in t
  {
    id.version >= 1 && IdOf(t[id]) == id && Created(h, t[id])
  }

  ghost predicate Sound(h: Hashes, s: System) {
    && (forall id :: id in s.table ==> RowSound(h, s.table, id))
    && (forall c :: c in s.pending ==> PendingSound(h, s.table, s.pending[c]))
  }

  /** No row goes, and none changes but in its state and decision. */
  predicate Keeps(t: Table, t': Table) {
    forall id :: id in t ==> id in t' && SameContent(t[id], t'[id])
  }

  lemma PlansAreSound(h: Hashes, t: Table, p: Pending)
    requires Plans(h, t, p)
    ensures PendingSound(h, t, p)
  {
    hide Created, Drafted;
  }

  lemma WrittenKeeps(h: Hashes, t: Table, p: Pending)
    ensures Keeps(t, Written(t, p))
  {
  }

  lemma WrittenSound(h: Hashes, t: Table, p: Pending, id: Id)
    requires PendingSound(h, t, p) && id in Written(t, p) && (id in t ==> RowSound(h, t, id))
    ensures RowSound(h, Written(t, p), id)
  {
    hide Created;
    WrittenKeeps(h, t, p);
    if id in t { SameOrigin(h, t[id], Written(t, p)[id]); }
  }

  lemma StaysSound(h: Hashes, t: Table, t': Table, p: Pending)
    requires PendingSound(h, t, p) && t.Keys <= t'.Keys
    ensures PendingSound(h, t', p)
  {
    hide Created, Drafted;
  }

  lemma {:induction false} NextKeepsSound(h: Hashes, s: System, s': System)
    requires Sound(h, s) && Next(h, s, s')
    ensures Sound(h, s') && Keeps(s.table, s'.table)
  {
    hide PendingSound, RowSound, Plans, Written, SameContent;
    if c, p :| Reads(h, s, c, p, s') {
      PlansAreSound(h, s.table, p);
      SameKeeps(s.table);
    } else if c :| Ends(s, c, s') {
      SameKeeps(s.table);
    } else {
      var c :| Writes(s, c, s');
      WriteKeepsSound(h, s, c);
    }
  }

  lemma SameKeeps(t: Table)
    ensures Keeps(t, t)
  {
  }

  lemma {:induction false} WriteKeepsSound(h: Hashes, s: System, c: nat)
    requires Sound(h, s) && c in s.pending
    ensures Sound(h, AfterWrite(s, c)) && Keeps(s.table, AfterWrite(s, c).table)
  {
    hide Created, RowSound, Written, SameContent, IsDraft;
    var p, s' := s.pending[c], AfterWrite(s, c);
    WrittenKeeps(h, s.table, p);
    forall id | id in s'.table ensures RowSound(h, s'.table, id) { WrittenSound(h, s.table, p, id); }
    forall d | d in s'.pending ensures PendingSound(h, s'.table, s'.pending[d]) {
      if d in s.pending { StaysSound(h, s.table, s'.table, s.pending[d]); }
    }
  }

  lemma {:induction false} InterleavingIsSound(h: Hashes, run: seq<System>, k: nat)
    requires Interleaving(h, run) && k < |run|
    ensures Sound(h, run[k])
  {
    hide Next, Sound;
    if k == 0 {
      EmptyIsSound(h);
    } else {
      InterleavingIsSound(h, run, k - 1);
      NextKeepsSound(h, run[k - 1], run[k - 1 + 1]);
    }
  }

  lemma EmptyIsSound(h: Hashes)
    ensures Sound(h, EMPTY)
  {
  }

  /** Whatever the callers do to one another: no row goes, content is constant, and every row rests on a
      ready packet with ten explicit ratings. */
  lemma {:induction false} InterleavingKeepsRows(h: Hashes, run: seq<System>, k: nat, m: nat, id: Id)
    requires Interleaving(h, run) && k <= m < |run| && id in run[k].table
    ensures id in run[m].table && SameContent(run[k].table[id], run[m].table[id])
    ensures var row := run[m].table[id];
            IdOf(row) == id && row.packet.ready && row.packet.feedback >= 10 && RestsOnRatings(h, row.packet)
    decreases m
  {
    hide Next, RestsOnRatings;
    InterleavingIsSound(h, run, m);
    if k < m {
      InterleavingKeepsRows(h, run, k, m - 1, id);
      InterleavingIsSound(h, run, m - 1);
      NextKeepsSound(h, run[m - 1], run[m - 1 + 1]);
    }
    assert RowSound(h, run[m].table, id);
    CreatedIsSound(h, run[m].table[id]);
    hide Created;
  }

  // ----- which writes do harm

  /** An update of a row that was read earlier keeps the invariants exactly when its row becomes
      superseded or is still the newest of its key; it keeps all accepted rows as well exactly when,
      besides, it leaves its own row alone if that is accepted. */
  lemma StaleUpdate(h: Hashes, t: Table, id: Id, row: Proposal)
    requires Inv(h, t) && id in t && SameContent(t[id], row)
    ensures Inv(h, t[id := row]) <==> row.state == Superseded || Following(id) !in t
    ensures Inv(h, t[id := row]) && AcceptedStay(t, t[id := row]) <==>
            (row.state == Superseded || Following(id) !in t) && (t[id].state == Accepted ==> row == t[id])
  {
    hide Created;
    var t' := t[id := row];
    if row.state == Superseded || Following(id) !in t {
      UpdateKeepsInv(h, t, id, row);
    } else {
      assert Following(id) in t' && Preceding(Following(id)) == id;
      assert Inv(h, t') ==> Chained(t', Following(id));
    }
  }

  /** An insert of a version that is not there keeps the invariants exactly when it is the first of its
      key, or the one before it is there and superseded. */
  lemma StaleInsert(h: Hashes, t: Table, row: Proposal)
    requires Inv(h, t) && IsDraft(h, row) && IdOf(row) !in t
    ensures Inv(h, t[IdOf(row) := row]) <==>
            row.version == 1 || (Preceding(IdOf(row)) in t && t[Preceding(IdOf(row))].state == Superseded)
  {
    hide Created, Drafted;
    var id, t' := IdOf(row), t[IdOf(row) := row];
    if row.version == 1 || (Preceding(id) in t && t[Preceding(id)].state == Superseded) {
      forall i | i in t' ensures Chained(t', i) && Id(t'[i].key, t'[i].version) == i && Created(h, t'[i]) {
        if i != id {
          assert Chained(t, i);
          assert i.version > 1 ==> Preceding(i) != id;
        }
      }
    } else {
      assert id in t';
      assert Inv(h, t') ==> Chained(t', id);
    }
  }

  predicate AcceptedStay(t: Table, t': Table) {
    forall id :: id in t && t[id].state == Accepted ==> id in t' && t'[id] == t[id]
  }

  /** The write leaves every version but the newest superseded. */
  predicate KeepsChain(t: Table, p: Pending) {
    match p
    case Superseding(_, _) => true
    case Inserting(row) =>
      IdOf(row) in t || row.version <= 1 || (Preceding(IdOf(row)) in t && t[Preceding(IdOf(row))].state == Superseded)
    case Submitting(id) => Following(id) !in t
    case Deciding(id, _, _, _) => Following(id) !in t
  }

  /** The row it updates is not accepted, unless by this very decision. */
  predicate KeepsAccepted(t: Table, p: Pending) {
    match p
    case Superseding(id, _) => id in t ==> t[id].state != Accepted
    case Inserting(_) => true
    case Submitting(id) => id in t ==> t[id].state != Accepted
    case Deciding(id, accept, actor, note) => id in t && t[id].state == Accepted ==> t[id] == Decided(t[id], accept, actor, note)
  }

  lemma {:induction false} WhatDoesHarm(h: Hashes, t: Table, p: Pending)
    requires Inv(h, t) && PendingSound(h, t, p)
    ensures Inv(h, Written(t, p)) && AcceptedStay(t, Written(t, p)) <==> KeepsChain(t, p) && KeepsAccepted(t, p)
  {
    hide Inv, Created, IsDraft, Drafted;
    match p
    case Inserting(row) => if IdOf(row) !in t { StaleInsert(h, t, row); }
    case Superseding(id, _) => StaleUpdate(h, t, id, t[id].(state := Superseded));
    case Submitting(id) => StaleUpdate(h, t, id, t[id].(state := UnderReview));
    case Deciding(id, accept, actor, note) => StaleUpdate(h, t, id, Decided(t[id], accept, actor, note));
  }

  predicate Harmless(s: System, s': System) {
    forall c :: c in s.pending && Writes(s, c, s') ==> KeepsChain(s.table, s.pending[c]) && KeepsAccepted(s.table, s.pending[c])
  }

  lemma {:induction false} HarmlessStep(h: Hashes, s: System, s': System)
    requires Sound(h, s) && Inv(h, s.table) && Next(h, s, s')
    ensures Inv(h, s'.table) && AcceptedStay(s.table, s'.table) <==> Harmless(s, s')
  {
    hide Inv, Plans, PendingSound, RowSound, KeepsChain, KeepsAccepted, Written;
    forall c | c in s.pending && Writes(s, c, s')
      ensures Inv(h, s'.table) && AcceptedStay(s.table, s'.table) <==>
              KeepsChain(s.table, s.pending[c]) && KeepsAccepted(s.table, s.pending[c])
    {
      WhatDoesHarm(h, s.table, s.pending[c]);
    }
  }

  ghost predicate Orderly(h: Hashes, run: seq<System>) {
    && (forall k :: 0 <= k < |run| ==> Inv(h, run[k].table))
    && (forall k :: 0 <= k < |run| - 1 ==> AcceptedStay(run[k].table, run[k + 1].table))
  }

  /** In an interleaving the invariants hold throughout and no accepted version ever changes, if and only
      if every write meets its condition on the table it finds. */
  lemma {:induction false} WhenInterleavingsAreOrderly(h: Hashes, run: seq<System>)
    requires Interleaving(h, run)
    ensures Orderly(h, run) <==> forall k :: 0 <= k < |run| - 1 ==> Harmless(run[k], run[k + 1])
  {
    hide Next, Inv, Harmless, Sound, AcceptedStay;
    if Orderly(h, run) {
      forall k | 0 <= k < |run| - 1 ensures Harmless(run[k], run[k + 1]) {
        InterleavingIsSound(h, run, k);
        HarmlessStep(h, run[k], run[k + 1]);
      }
    }
    if forall k :: 0 <= k < |run| - 1 ==> Harmless(run[k], run[k + 1]) {
      forall k | 0 <= k < |run| ensures Inv(h, run[k].table) { HarmlessSoFar(h, run, k); }
      forall k | 0 <= k < |run| - 1 ensures AcceptedStay(run[k].table, run[k + 1].table) {
        InterleavingIsSound(h, run, k);
        HarmlessStep(h, run[k], run[k + 1]);
      }
    }
  }

  lemma {:induction false} HarmlessSoFar(h: Hashes, run: seq<System>, k: nat)
    requires Interleaving(h, run) && k < |run|
    requires forall j :: 0 <= j < |run| - 1 ==> Harmless(run[j], run[j + 1])
    ensures Inv(h, run[k].table)
  {
    hide Next, Inv, Harmless, Sound, AcceptedStay;
    if k == 0 {
      EmptyInv(h);
    } else {
      HarmlessSoFar(h, run, k - 1);
      InterleavingIsSound(h, run, k - 1);
      HarmlessStep(h, run[k - 1], run[k - 1 + 1]);
    }
  }

  /** The write finds the state that its reads found. */
  ghost predicate Unchanged(t: Table, p: Pending) {
    match p
    case Superseding(id, _) => id in t && t[id].state != Accepted && t[id].state != Superseded
    case Inserting(row) =>
      row.version > 1 ==> Preceding(IdOf(row)) in t && t[Preceding(IdOf(row))].state == Superseded
    case Submitting(id) => id in t && t[id].state == Draft
    case Deciding(id, _, _, _) => id in t && t[id].state == UnderReview
  }

  /** So a write that re-checks in its own statement the state it read does no harm. */
  lemma RecheckedWritesAreHarmless(h: Hashes, t: Table, p: Pending)
    requires Inv(h, t) && Unchanged(t, p)
    ensures KeepsChain(t, p) && KeepsAccepted(t, p)
  {
    hide Inv;
    match p
    case Submitting(id) => ActiveIsNewest(h, t, id);
    case Deciding(id, _, _, _) => ActiveIsNewest(h, t, id);
    case _ =>
  }

  // ----- five histories

  /** Rounding keeps 0 and 1, and different contents have different digests. */
  ghost predicate Ordinary(h: Hashes) {
    h.rnd(0.0) == 0.0 && h.rnd(1.0) == 1.0 && forall x, y :: h.digest(x) == h.digest(y) ==> x == y
  }

  /** Two drafts of one key, with the reports they rest on. */
  lemma TwoDrafts(h: Hashes) returns (a: Proposal, b: Proposal)
    requires Ordinary(h)
    ensures a.key == b.key && a.version == 1 && b.version == 2 && a.digest != b.digest
    ensures IsDraft(h, a) && IsDraft(h, b)
  {
    var tasks, packets := G.ReadyReport(h.rnd);
    var p := packets[0];
    var field := "minimum_feedback_per_signal";
    var r := Request(h.packetId("t", p), "t", CALIBRATION_SURFACE, map[field := Numeric(10.0)], "first", "undo", ["check"], "analyst");
    hide G.IsReport, Created;
    var draftA := DraftFor(h, Call(tasks, r, packets, Some(p)));
    var draftB := DraftFor(h, Call(tasks, r.(rationale := "second"), packets, Some(p)));
    a, b := draftA.(version := 1), draftB.(version := 2);
    assert a.content.rationale == "first" != "second" == b.content.rationale;
    DigestsDiffer(h, a.content, b.content);
    hide Ordinary;
  }

  lemma DigestsDiffer(h: Hashes, x: Content, y: Content)
    requires Ordinary(h) && x != y
    ensures h.digest(x) != h.digest(y)
  {
  }

  lemma SingleDiff(field: string, x: Value, y: Value)
    requires x != y
    ensures IsDiff([DiffRow(field, Some(x), Some(y))], map[field := x], map[field := y])
  {
    var before: Fields, after: Fields := map[field := x], map[field := y];
    assert [DiffRow(field, Some(x), Some(y))][0].field == field;
    assert forall k :: Get(before, k) != Get(after, k) ==> k == field;
  }

  lemma DraftFor(h: Hashes, c: Call) returns (draft: Proposal)
    requires G.IsReport(h.rnd, DefaultQuery(c.tasks), c.packets) && IsPacket(h, c.request, c.packets, c.packet)
    requires c.packet.Some? && c.packet.value.ready && c.request.surface == CALIBRATION_SURFACE
    requires c.request.after == map["minimum_feedback_per_signal" := Numeric(10.0)]
    requires c.request.rationale != "" && c.request.rollback != "" && c.request.tests != []
    ensures draft == Drafted(draft) && draft.key == h.key(c.request.packetId, c.request.surface)
    ensures draft.content.rationale == Cut(c.request.rationale, 4000) && draft.digest == h.digest(draft.content)
    ensures forall n: nat :: Created(h, draft.(version := n))
  {
    var r := c.request;
    var field := "minimum_feedback_per_signal";
    var before, after := PolicyValues(CurrentSnapshot(CALIBRATION_SURFACE)), map[field := Number(10.0)];
    SurfaceFields(CALIBRATION_SURFACE);
    assert before == map[field := Number(5.0)];
    assert ValidateAfter(h.rnd, r.surface, r.after) == Some(after);
    var diff := [DiffRow(field, Some(Number(5.0)), Some(Number(10.0)))];
    SingleDiff(field, Number(5.0), Number(10.0));
    hide IsDiff, ValidateAfter;
    var content := ContentOf(h, r);
    draft := Proposal(h.key(r.packetId, r.surface), 0, content, c.packet.value, r.target, diff, h.digest(content),
                      Cut(r.actor, 200), Draft, "", "");
    assert Prepared(h, r, c.packet, Success(draft));
    DraftIsCreated(h, c, draft);
  }

  function Last(run: seq<System>): System
    requires run != []
  {
    run[|run| - 1]
  }

  lemma Goes(h: Hashes, run: seq<System>, s: System)
    requires Interleaving(h, run) && Next(h, Last(run), s)
    ensures Interleaving(h, run + [s])
  {
    hide Next;
    var longer := run + [s];
    forall k | 0 <= k < |longer| - 1 ensures Next(h, longer[k], longer[k + 1]) {
      if k < |run| - 1 { assert longer[k + 1] == run[k + 1]; }
    }
  }

  lemma ReadNext(h: Hashes, run: seq<System>, c: nat, p: Pending) returns (longer: seq<System>)
    requires Interleaving(h, run) && c !in Last(run).pending && Plans(h, Last(run).table, p)
    ensures Interleaving(h, longer) && Last(longer) == Last(run).(pending := Last(run).pending[c := p])
  {
    var s := Last(run).(pending := Last(run).pending[c := p]);
    assert Reads(h, Last(run), c, p, s);
    Goes(h, run, s);
    longer := run + [s];
  }

  lemma WriteNext(h: Hashes, run: seq<System>, c: nat) returns (longer: seq<System>)
    requires Interleaving(h, run) && c in Last(run).pending
    ensures Interleaving(h, longer) && longer == run + [AfterWrite(Last(run), c)]
  {
    var s := AfterWrite(Last(run), c);
    assert Writes(Last(run), c, s);
    Goes(h, run, s);
    longer := run + [s];
  }

  lemma FirstDraft(h: Hashes, a: Proposal) returns (run: seq<System>)
    requires IsDraft(h, a) && a.version == 1
    ensures Interleaving(h, run) && Last(run) == System(map[IdOf(a) := a], map[])
  {
    hide Next, Created, Drafted;
    run := [EMPTY];
    run := ReadNext(h, run, 1, Inserting(a));
    run := WriteNext(h, run, 1);
  }

  lemma FirstUnderReview(h: Hashes, a: Proposal) returns (run: seq<System>)
    requires IsDraft(h, a) && a.version == 1
    ensures Interleaving(h, run) && Last(run) == System(map[IdOf(a) := a.(state := UnderReview)], map[])
  {
    hide Interleaving, IsDraft;
    assert a.state == Draft by { DraftState(h, a); }
    run := FirstDraft(h, a);
    run := ReadNext(h, run, 1, Submitting(IdOf(a)));
    run := WriteNext(h, run, 1);
    assert Last(run).pending == map[];
  }

  lemma DraftState(h: Hashes, a: Proposal)
    requires IsDraft(h, a)
    ensures a.state == Draft
  {
  }

  // Caller 1 supersedes the version, the first of its two writes, while caller 0 holds its plan.
  lemma SupersededBy1(h: Hashes, run: seq<System>, row: Proposal, b: Proposal, p: Pending) returns (longer: seq<System>)
    requires Interleaving(h, run) && Last(run) == System(map[IdOf(row) := row], map[0 := p])
    requires IsDraft(h, b) && row.version == 1 && b.version == 2 && b.key == row.key && b.digest != row.digest
    requires row.state != Accepted && row.state != Superseded
    ensures Interleaving(h, longer)
    ensures Last(longer) == System(map[IdOf(row) := row.(state := Superseded)], map[0 := p, 1 := Inserting(b)])
  {
    hide Interleaving, IsDraft;
    var id := IdOf(row);
    assert Preceding(IdOf(b)) == id;
    longer := ReadNext(h, run, 1, Superseding(id, b));
    longer := WriteNext(h, longer, 1);
    assert Last(longer).pending == map[0 := p, 1 := Inserting(b)];
  }

  // And inserts the next one.
  lemma InsertedBy1(h: Hashes, run: seq<System>, row: Proposal, b: Proposal, pending: map<nat, Pending>) returns (longer: seq<System>)
    requires Interleaving(h, run) && 1 !in pending && IdOf(b) != IdOf(row)
    requires Last(run) == System(map[IdOf(row) := row], pending[1 := Inserting(b)])
    ensures Interleaving(h, longer) && Last(longer) == System(map[IdOf(row) := row, IdOf(b) := b], pending)
  {
    hide Interleaving;
    longer := WriteNext(h, run, 1);
    assert Last(longer).pending == pending;
  }

  lemma AmendedBy1(h: Hashes, run: seq<System>, row: Proposal, b: Proposal, p: Pending) returns (longer: seq<System>)
    requires Interleaving(h, run) && Last(run) == System(map[IdOf(row) := row], map[0 := p])
    requires IsDraft(h, b) && row.version == 1 && b.version == 2 && b.key == row.key && b.digest != row.digest
    requires row.state != Accepted && row.state != Superseded
    ensures Interleaving(h, longer)
    ensures Last(longer) == System(map[IdOf(row) := row.(state := Superseded), IdOf(b) := b], map[0 := p])
  {
    hide Interleaving, IsDraft;
    longer := SupersededBy1(h, run, row, b, p);
    assert map[0 := p, 1 := Inserting(b)] == map[0 := p][1 := Inserting(b)];
    longer := InsertedBy1(h, longer, row.(state := Superseded), b, map[0 := p]);
  }

  // Caller 0 submits the only version.
  lemma SubmittedBy0(h: Hashes, run: seq<System>, row: Proposal, pending: map<nat, Pending>) returns (longer: seq<System>)
    requires Interleaving(h, run) && 0 !in pending
    requires Last(run) == System(map[IdOf(row) := row], pending[0 := Submitting(IdOf(row))])
    ensures Interleaving(h, longer) && longer == run + [System(map[IdOf(row) := row.(state := UnderReview)], pending)]
  {
    hide Interleaving;
    longer := WriteNext(h, run, 0);
    assert Last(run).pending - {0} == pending;
    assert AfterWrite(Last(run), 0).table == map[IdOf(row) := row.(state := UnderReview)];
  }

  /** The version is followed by another and yet not superseded. */
  predicate Unchained(t: Table, id: Id) {
    id in t && Following(id) in t && t[id].state != Superseded
  }

  lemma UnchainedBreaks(h: Hashes, t: Table, id: Id)
    requires Unchained(t, id)
    ensures !Inv(h, t)
  {
    hide Created;
    assert Preceding(Following(id)) == id;
    assert Inv(h, t) ==> Chained(t, Following(id));
  }

  /** A submit that read its draft before another caller amended it. */
  lemma StaleSubmitUnchains(h: Hashes) returns (run: seq<System>, id: Id)
    requires Ordinary(h)
    ensures Interleaving(h, run) && Unchained(Last(run).table, id) && Last(run).table[id].state == UnderReview
  {
    var a, b := TwoDrafts(h);
    DraftState(h, a);
    hide Interleaving, IsDraft;
    id := IdOf(a);
    run := FirstDraft(h, a);
    run := ReadNext(h, run, 0, Submitting(id));
    run := AmendedBy1(h, run, a, b, Submitting(id));
    run := WriteNext(h, run, 0);
  }

  /** A decision that read a version under review before another caller amended it: an accepted version
      is followed by a draft. */
  lemma StaleAcceptUnchains(h: Hashes) returns (run: seq<System>, id: Id)
    requires Ordinary(h)
    ensures Interleaving(h, run) && Unchained(Last(run).table, id) && Last(run).table[id].state == Accepted
  {
    var a, b := TwoDrafts(h);
    hide Interleaving, IsDraft;
    id := IdOf(a);
    run := FirstUnderReview(h, a);
    var p := Deciding(id, true, "x", "y");
    run := ReadNext(h, run, 0, p);
    run := AmendedBy1(h, run, a.(state := UnderReview), b, p);
    run := WriteNext(h, run, 0);
  }

  /** A create whose version is submitted, by a caller that read it earlier, between its two writes. */
  lemma StaleInsertUnchains(h: Hashes) returns (run: seq<System>, id: Id)
    requires Ordinary(h)
    ensures Interleaving(h, run) && Unchained(Last(run).table, id) && Last(run).table[id].state == UnderReview
  {
    var a, b := TwoDrafts(h);
    DraftState(h, a);
    hide Interleaving, IsDraft;
    id := IdOf(a);
    assert Preceding(IdOf(b)) == id;
    run := FirstDraft(h, a);
    run := ReadNext(h, run, 0, Submitting(id));
    hide Plans, Next, AfterWrite;
    run := SupersededBy1(h, run, a, b, Submitting(id));
    run := SubmitThenInsert(h, run, a, b);
  }

  lemma SubmitThenInsert(h: Hashes, run: seq<System>, a: Proposal, b: Proposal) returns (longer: seq<System>)
    requires Interleaving(h, run) && IdOf(b) != IdOf(a)
    requires Last(run) == System(map[IdOf(a) := a.(state := Superseded)], map[0 := Submitting(IdOf(a)), 1 := Inserting(b)])
    ensures Interleaving(h, longer) && Last(longer) == System(map[IdOf(a) := a.(state := UnderReview), IdOf(b) := b], map[])
  {
    assert run != [];
    hide Interleaving, Next, AfterWrite;
    assert Last(run).pending == map[1 := Inserting(b)][0 := Submitting(IdOf(a))];
    longer := SubmittedBy0(h, run, a.(state := Superseded), map[1 := Inserting(b)]);
    assert Last(longer).pending == map[][1 := Inserting(b)];
    longer := InsertedBy1(h, longer, a.(state := UnderReview), b, map[]);
  }

  /** The last step takes an accepted version to another state. */
  predicate Thaws(run: seq<System>, id: Id, state: State) {
    && |run| >= 2 && id in run[|run| - 2].table && id in run[|run| - 1].table
    && run[|run| - 2].table[id].state == Accepted && run[|run| - 1].table[id].state == state != Accepted
  }

  /** A submit that read its draft before others submitted and accepted it: the accepted version is
      under review again. */
  lemma StaleSubmitThawsAccepted(h: Hashes) returns (run: seq<System>, id: Id)
    requires Ordinary(h)
    ensures Interleaving(h, run) && Thaws(run, id, UnderReview)
  {
    var a, b := TwoDrafts(h);
    DraftState(h, a);
    hide Interleaving, IsDraft, AfterWrite, Thaws;
    id := IdOf(a);
    run := FirstDraft(h, a);
    run := ReadNext(h, run, 0, Submitting(id));
    run := AlsoSubmitted(h, run, a);
    hide Plans;
    run := AcceptedBy1(h, run, a.(state := UnderReview), Submitting(id));
    run := ThawedBySubmit(h, run, Decided(a.(state := UnderReview), true, "x", "y"));
  }

  /** A create that read a version under review before it was accepted: the accepted version is superseded. */
  lemma StaleAmendThawsAccepted(h: Hashes) returns (run: seq<System>, id: Id)
    requires Ordinary(h)
    ensures Interleaving(h, run) && Thaws(run, id, Superseded)
  {
    var a, b := TwoDrafts(h);
    hide Interleaving, IsDraft, Plans, Next, AfterWrite, Thaws;
    id := IdOf(a);
    run := FirstUnderReview(h, a);
    run := PlannedBy0(h, run, a.(state := UnderReview), b);
    run := AcceptedBy1(h, run, a.(state := UnderReview), Superseding(id, b));
    run := ThawedByAmend(h, run, Decided(a.(state := UnderReview), true, "x", "y"), b);
  }

  lemma ThawedBySubmit(h: Hashes, run: seq<System>, row: Proposal) returns (longer: seq<System>)
    requires Interleaving(h, run) && row.state == Accepted
    requires Last(run) == System(map[IdOf(row) := row], map[0 := Submitting(IdOf(row))])
    ensures Interleaving(h, longer) && Thaws(longer, IdOf(row), UnderReview)
  {
    assert run != [];
    hide Interleaving;
    longer := WriteNext(h, run, 0);
    assert longer[|longer| - 2] == Last(run);
  }

  lemma ThawedByAmend(h: Hashes, run: seq<System>, row: Proposal, b: Proposal) returns (longer: seq<System>)
    requires Interleaving(h, run) && row.state == Accepted
    requires Last(run) == System(map[IdOf(row) := row], map[0 := Superseding(IdOf(row), b)])
    ensures Interleaving(h, longer) && Thaws(longer, IdOf(row), Superseded)
  {
    assert run != [];
    hide Interleaving;
    longer := WriteNext(h, run, 0);
    assert longer[|longer| - 2] == Last(run);
  }

  // Caller 0 reads the version that its create is to supersede.
  lemma PlannedBy0(h: Hashes, run: seq<System>, row: Proposal, b: Proposal) returns (longer: seq<System>)
    requires Interleaving(h, run) && Last(run) == System(map[IdOf(row) := row], map[])
    requires IsDraft(h, b) && row.version == 1 && b.version == 2 && b.key == row.key && b.digest != row.digest
    requires row.state != Accepted && row.state != Superseded
    ensures Interleaving(h, longer) && Last(longer) == System(map[IdOf(row) := row], map[0 := Superseding(IdOf(row), b)])
  {
    hide Interleaving, IsDraft;
    assert Preceding(IdOf(b)) == IdOf(row);
    longer := ReadNext(h, run, 0, Superseding(IdOf(row), b));
  }

  lemma AlsoSubmitted(h: Hashes, run: seq<System>, row: Proposal) returns (longer: seq<System>)
    requires Interleaving(h, run) && row.state == Draft
    requires Last(run) == System(map[IdOf(row) := row], map[0 := Submitting(IdOf(row))])
    ensures Interleaving(h, longer)
    ensures Last(longer) == System(map[IdOf(row) := row.(state := UnderReview)], map[0 := Submitting(IdOf(row))])
  {
    hide Interleaving;
    longer := ReadNext(h, run, 1, Submitting(IdOf(row)));
    longer := WriteNext(h, longer, 1);
    assert Last(longer).pending == map[0 := Submitting(IdOf(row))];
  }

  lemma AcceptedBy1(h: Hashes, run: seq<System>, row: Proposal, p: Pending) returns (longer: seq<System>)
    requires Interleaving(h, run) && row.state == UnderReview && Last(run) == System(map[IdOf(row) := row], map[0 := p])
    ensures Interleaving(h, longer)
    ensures Last(longer) == System(map[IdOf(row) := Decided(row, true, "x", "y")], map[0 := p])
  {
    hide Interleaving;
    longer := ReadNext(h, run, 1, Deciding(IdOf(row), true, "x", "y"));
    longer := WriteNext(h, longer, 1);
    assert Last(longer).pending == map[0 := p];
  }
}
