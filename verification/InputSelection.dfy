/** Which inputs an analysis runs on: a live capture, a merge of target snapshots, or a stored revision. */
module InputSelection {
  import opened ArtifactPins
  import opened Options
  import opened Ordering
  import opened SnapshotForm
  import opened SnapshotStore
  import opened SortedSets

  /** In the order of the row ids. */
  datatype RunTarget = RunTarget(run: string, target: string, startedAt: int)

  /** What the collection leaves behind: the tables with their columns, the script files, the runs. */
  datatype Live = Live(tables: map<string, seq<Row>>, columns: map<string, set<string>>,
                       files: map<string, string>, runTargets: seq<RunTarget>)

  datatype Request = Request(run: string, target: Option<string>, replay: bool, refresh: bool, revision: Option<int>)

  datatype Fault = BadRevision | Nested | BadSnapshot | NoSuchRevision | NotPreserved | ArtifactMissing | NoSnapshot

  datatype Source = Revision | Head | Capture | Merge

  datatype Selection = Refused(fault: Fault) | Chosen(stored: Stored, source: Source)

  function ScopeOf(q: Request): Scope {
    Scope(q.run, if q.target == None || q.target == Some("") then "*" else q.target.value)
  }

  /** The target whose rows are captured; none means all rows. */
  function Only(q: Request): Option<string> { if q.target == Some("") then None else q.target }

  predicate Later(rows: seq<RunTarget>, i: int, j: int)
    requires 0 <= i < |rows| && 0 <= j < |rows|
  {
    rows[j].startedAt > rows[i].startedAt || (rows[j].startedAt == rows[i].startedAt && j > i)
  }

  predicate HasLaterRun(rows: seq<RunTarget>, k: Scope) {
    exists i, j :: 0 <= i < |rows| && 0 <= j < |rows| && rows[i].run == k.run && (k.target == "*" || rows[i].target == k.target) &&
      rows[j].target == rows[i].target && rows[j].run != rows[i].run && Later(rows, i, j)
  }

  // ----- the parts

  function Captured(live: Live, only: Option<string>, t: string): Row -> bool {
    (r: Row) => Kept(t, r) &&
      (only == None || t !in live.columns || "target" !in live.columns[t] || ("target" in r && r["target"] == only.value))
  }

  function CapturedRows(live: Live, only: Option<string>): Snapshot {
    map t | t in INPUT_TABLES && t in live.columns && t in live.tables :: Filter(Captured(live, only, t), live.tables[t])
  }

  function Frozen(env: Env, files: map<string, string>, r: Row): Option<Row> {
    var path := env.strip(Text(r, "blob_path"));
    if path == "" then Some(r)
    else if path !in files then None
    else Some(r["blob_path" := "cas:" + env.content(files[path])])
  }

  /** The rows with their scripts replaced by references, and the objects stored on the way. */
  function FrozenRows(env: Env, files: map<string, string>, rows: seq<Row>): (Option<seq<Row>>, set<string>) {
    if rows == [] then (Some([]), {})
    else
      var (before, objects) := FrozenRows(env, files, rows[..|rows| - 1]);
      var last := rows[|rows| - 1];
      var row := Frozen(env, files, last);
      if before == None || row == None then (None, objects)
      else (Some(before.value + [row.value]),
            if env.strip(Text(last, "blob_path")) == "" then objects
            else objects + {env.content(files[env.strip(Text(last, "blob_path"))])})
  }

  /** Storing a snapshot: nothing when the head has its payload, else pin it and append a revision. */
  function StoreOf(env: Env, s: Store, k: Scope, snapshot: Snapshot): (Store, Option<Stored>) {
    var payload := Payload(env, snapshot);
    if k in s.heads && s.heads[k].payload == payload then (s, Some(s.heads[k]))
    else
      match PinFor(env, s, k, snapshot)
      case None => (s, None)
      case Some(refs) =>
        var stored := NewVersion(s, PinnedFor(env, k, snapshot));
        (s.(refs := refs, versions := s.versions + [VersionRow(k, stored)], heads := s.heads[k := stored]), Some(stored))
  }

  function CaptureOf(env: Env, live: Live, s: Store, q: Request): (Store, Selection) {
    if HasLaterRun(live.runTargets, ScopeOf(q)) then (s, Refused(NotPreserved))
    else
      var rows := CapturedRows(live, Only(q));
      var (frozen, objects) := FrozenRows(env, live.files, JsRows(rows));
      var s' := s.(objects := s.objects + objects);
      if frozen == None then (s', Refused(ArtifactMissing))
      else
        var (t, stored) := StoreOf(env, s', ScopeOf(q), if "js_files" in rows then rows["js_files" := frozen.value] else rows);
        (t, if stored == None then Refused(ArtifactMissing) else Chosen(stored.value, Capture))
  }

  function Decode(env: Env, stored: Stored): Option<Snapshot> {
    if stored.schema < SCHEMA_VERSION || env.digest(stored.payload) != stored.hash then None
    else
      match env.parse(stored.payload)
      case None => None
      case Some(s) => if "entity_tags" in s then Some(s) else None
  }

  datatype MergeResult = NoMerge | MergeFails | Merged(snapshot: Snapshot)

  function PartTargets(heads: map<Scope, Stored>, run: string): set<string> {
    set k | k in heads && k.run == run && k.target != "*" :: k.target
  }

  function Expected(rows: seq<RunTarget>, run: string): set<string> {
    set i | 0 <= i < |rows| && rows[i].run == run :: rows[i].target
  }

  function Decoded(env: Env, heads: map<Scope, Stored>, run: string, names: seq<string>): (parts: Option<seq<Snapshot>>)
    requires forall i :: 0 <= i < |names| ==> Scope(run, names[i]) in heads
  {
    if names == [] then Some([])
    else
      var init, last := Decoded(env, heads, run, names[..|names| - 1]), Decode(env, heads[Scope(run, names[|names| - 1])]);
      if init == None || last == None then None else Some(init.value + [last.value])
  }

  /** The snapshots of the named targets merged, when they cover every target of the run. */
  function MergeOf(env: Env, live: Live, heads: map<Scope, Stored>, run: string, names: seq<string>): MergeResult
    requires forall i :: 0 <= i < |names| ==> Scope(run, names[i]) in heads
  {
    if names == [] || !(forall e :: e in Expected(live.runTargets, run) ==> e in names) then NoMerge
    else
      match Decoded(env, heads, run, names)
      case None => MergeFails
      case Some(parts) => if KnownTables(parts) then Merged(Union(parts)) else MergeFails
  }

  // ----- the selection

  /** The targets with a snapshot of their own, `ORDER BY scope`. */
  ghost function NamesOf(heads: map<Scope, Stored>, run: string): (names: seq<string>)
    ensures forall i :: 0 <= i < |names| ==> Scope(run, names[i]) in heads
  {
    NamesHaveHeads(heads, run, InOrder(PartTargets(heads, run)));
    InOrder(PartTargets(heads, run))
  }

  lemma NamesHaveHeads(heads: map<Scope, Stored>, run: string, names: seq<string>)
    requires Lists(PartTargets(heads, run), names)
    ensures forall i :: 0 <= i < |names| ==> Scope(run, names[i]) in heads
  {
    forall i | 0 <= i < |names| ensures Scope(run, names[i]) in heads {
      assert names[i] in names;
      var k :| k in heads && k.run == run && k.target != "*" && k.target == names[i];
      assert k == Scope(run, names[i]);
    }
  }

  /** Kept as it is when the head serves, captured otherwise; a replay never captures. */
  function HeadOrCapture(env: Env, live: Live, s: Store, q: Request): (Store, Selection) {
    var k := ScopeOf(q);
    if k in s.heads then (s, Chosen(s.heads[k], Head))
    else if q.replay then (s, Refused(NoSnapshot))
    else CaptureOf(env, live, s, q)
  }

  ghost function SelectFor(env: Env, live: Live, s: Store, q: Request): (Store, Selection)
  {
    var k := ScopeOf(q);
    if q.revision.Some? then
      (match Select(s.versions, k, q.revision.value)
       case None => (s, Refused(NoSuchRevision))
       case Some(stored) => (s, Chosen(stored, Revision)))
    else if k in s.heads && Decode(env, s.heads[k]) == None then (s, Refused(BadSnapshot))
    else if q.refresh && !q.replay && !HasLaterRun(live.runTargets, k) then CaptureOf(env, live, s, q)
    else if q.target == None && (k !in s.heads || (q.refresh && !q.replay)) then
      (match MergeOf(env, live, s.heads, q.run, NamesOf(s.heads, q.run))
       case NoMerge => HeadOrCapture(env, live, s, q)
       case MergeFails => (s, Refused(BadSnapshot))
       case Merged(snapshot) =>
         var (t, stored) := StoreOf(env, s, k, snapshot);
         (t, if stored == None then Refused(ArtifactMissing) else Chosen(stored.value, Merge)))
    else HeadOrCapture(env, live, s, q)
  }

  predicate ValidRevision(q: Request) {
    q.revision.Some? ==> q.replay && q.revision.value >= 1
  }

  /** The store after the request and what it chose; a choice that cannot be read is refused. */
  ghost function Selected(env: Env, live: Live, s: Store, q: Request, nested: bool): (Store, Selection)
  {
    if !ValidRevision(q) then (s, Refused(BadRevision))
    else if nested then (s, Refused(Nested))
    else
      var (t, chosen) := SelectFor(env, live, s, q);
      (t, if chosen.Chosen? && Decode(env, chosen.stored) == None then Refused(BadSnapshot) else chosen)
  }

  // ----- storing is comparing, pinning and committing

  lemma {:induction false} StoreIsThreeSteps(env: Env, s: Store, k: Scope, snapshot: Snapshot, c: nat)
    requires c !in s.pending
    ensures var t := Apply(env, s, Check(c, k, snapshot));
            if c !in t.pending then StoreOf(env, s, k, snapshot).0 == s
            else
              var u := Apply(env, t, PinArtifacts(c));
              if c in u.pending then u.pending[c].Pinned? && StoreOf(env, s, k, snapshot).0 == Apply(env, u, Commit(c))
              else u == s && StoreOf(env, s, k, snapshot).0 == s
  {
    hide MaxRevision, Payload, Pin, OwnerPrefix;
    var t := Apply(env, s, Check(c, k, snapshot));
    if c in t.pending {
      assert t == s.(pending := s.pending[c := News(k, snapshot)]);
      assert t.pending - {c} == s.pending;
      assert PinFor(env, t, k, snapshot) == PinFor(env, s, k, snapshot);
      var u := Apply(env, t, PinArtifacts(c));
      if c in u.pending {
        assert u.pending - {c} == s.pending;
      }
    }
  }

  lemma StoreKeepsPending(env: Env, s: Store, k: Scope, snapshot: Snapshot)
    ensures StoreOf(env, s, k, snapshot).0.pending == s.pending
  {
    hide MaxRevision, Payload, PinFor;
  }

  lemma SoundStep(env: Env, names: iset<Scope>, s: Store, step: Step)
    requires Sound(env) && Inv(env, names, s) && NeighboursDiffer(s.versions) && PendingIsNews(env, s)
    requires Enabled(s, step) && Exclusive(s, step) && (step.Check? ==> step.scope in names)
    ensures var t := Apply(env, s, step);
            Inv(env, names, t) && NeighboursDiffer(t.versions) && PendingIsNews(env, t) && s.versions <= t.versions
  {
    StepKeepsInv(env, names, s, step);
    ExclusiveStep(env, s, step);
    hide Sound, NeighboursDiffer, PendingIsNews, Apply;
  }

  lemma {:induction false} StoreKeepsInv(env: Env, names: iset<Scope>, s: Store, k: Scope, snapshot: Snapshot)
    requires Sound(env) && Inv(env, names, s) && k in names && s.pending == map[] && NeighboursDiffer(s.versions)
    ensures var t := StoreOf(env, s, k, snapshot).0;
            Inv(env, names, t) && s.versions <= t.versions && t.pending == map[] && NeighboursDiffer(t.versions)
  {
    StoreIsThreeSteps(env, s, k, snapshot, 0);
    StoreKeepsPending(env, s, k, snapshot);
    assert PendingIsNews(env, s);
    var check, pin := Check(0, k, snapshot), PinArtifacts(0);
    hide Sound, NeighboursDiffer, Inv, StoreOf;
    var t := Apply(env, s, check);
    SoundStep(env, names, s, check);
    if 0 in t.pending {
      assert t.pending[0].News?;
      var u := Apply(env, t, pin);
      SoundStep(env, names, t, pin);
      if 0 in u.pending { SoundStep(env, names, u, Commit(0)); }
    }
  }

  lemma PutsKeepInv(env: Env, names: iset<Scope>, s: Store, objects: set<string>)
    requires Inv(env, names, s)
    ensures Inv(env, names, s.(objects := s.objects + objects))
  {
    hide Numbered, SealedAndPinned, Apart;
  }

  // ----- portable snapshots

  /** Installing finds the row's script: there is none, it is pinned, or an early branch stored it. */
  predicate PortableRow(env: Env, r: Row) {
    var path := env.strip(Text(r, "blob_path"));
    || path == ""
    || (IsCas(r) && path == Text(r, "blob_path") && DigestOf(env, r) != "")
    || (!("cas:" <= path) && env.early(path).Some?)
  }

  ghost predicate PortableSnapshot(env: Env, s: Snapshot) {
    s.Keys <= INPUT_TABLES && forall r :: r in JsRows(s) ==> PortableRow(env, r)
  }

  ghost predicate Portable(env: Env, versions: seq<VersionRow>) {
    forall i :: 0 <= i < |versions| && env.parse(versions[i].stored.payload).Some? ==>
      PortableSnapshot(env, env.parse(versions[i].stored.payload).value)
  }

  lemma {:induction false} CanonicalIsPortable(env: Env, s: Snapshot)
    requires PortableSnapshot(env, s)
    ensures PortableSnapshot(env, Canonical(env, s))
  {
    hide PortableRow, KeyLeq;
    var c := Canonical(env, s);
    if "js_files" in s {
      SortPermutes(RowKey(env), s["js_files"]);
      forall r | r in JsRows(c) ensures PortableRow(env, r) { assert r in multiset(s["js_files"]); }
    }
  }

  lemma {:induction false} StoreKeepsPortable(env: Env, s: Store, k: Scope, snapshot: Snapshot)
    requires Sound(env) && Portable(env, s.versions) && PortableSnapshot(env, snapshot)
    ensures Portable(env, StoreOf(env, s, k, snapshot).0.versions)
  {
    CanonicalIsPortable(env, snapshot);
    assert env.parse(Payload(env, snapshot)) == Some(Canonical(env, snapshot));
    hide PortableSnapshot, Canonical, MaxRevision, PinFor, Sound;
  }

  lemma FrozenIsPortable(env: Env, files: map<string, string>, r: Row)
    requires Sound(env) && Frozen(env, files, r).Some?
    ensures PortableRow(env, Frozen(env, files, r).value)
  {
    var path := env.strip(Text(r, "blob_path"));
    if path != "" {
      var x := env.content(files[path]);
      assert ("cas:" + x)[4..] == x;
    }
  }

  lemma CaptureIsPortable(env: Env, live: Live, only: Option<string>)
    requires Sound(env)
    ensures var rows := CapturedRows(live, only);
            var frozen := FrozenRows(env, live.files, JsRows(rows)).0;
            frozen.Some? ==> PortableSnapshot(env, if "js_files" in rows then rows["js_files" := frozen.value] else rows)
  {
    var rows := CapturedRows(live, only);
    var frozen := FrozenRows(env, live.files, JsRows(rows)).0;
    FrozenIs(env, live.files, JsRows(rows));
    hide PortableRow, Frozen, FrozenRows, Sound, Filter;
    if frozen.Some? {
      forall i | 0 <= i < |frozen.value| ensures PortableRow(env, frozen.value[i]) {
        FrozenIsPortable(env, live.files, JsRows(rows)[i]);
      }
    }
  }

  lemma {:induction false} SelectFinds(versions: seq<VersionRow>, k: Scope, revision: int)
    requires Select(versions, k, revision).Some?
    ensures exists i :: 0 <= i < |versions| && versions[i].stored == Select(versions, k, revision).value
  {
    var n := |versions| - 1;
    if versions[n].scope == k && versions[n].stored.revision == revision {
      assert versions[n].stored == Select(versions, k, revision).value;
    } else {
      SelectFinds(versions[..n], k, revision);
      var i :| 0 <= i < n && versions[..n][i].stored == Select(versions[..n], k, revision).value;
      assert versions[i] == versions[..n][i];
    }
  }

  lemma HeadIsPortable(env: Env, names: iset<Scope>, s: Store, k: Scope)
    requires Inv(env, names, s) && Portable(env, s.versions) && k in s.heads && Decode(env, s.heads[k]).Some?
    ensures PortableSnapshot(env, Decode(env, s.heads[k]).value)
  {
    RevisionsAreGapless(s, k, s.heads[k].revision);
    SelectFinds(s.versions, k, s.heads[k].revision);
    hide Inv, Select, PortableSnapshot;
  }

  lemma {:induction false} UnionIsPortable(env: Env, parts: seq<Snapshot>)
    requires forall i :: 0 <= i < |parts| ==> PortableSnapshot(env, parts[i])
    ensures PortableSnapshot(env, Union(parts))
  {
    hide PortableRow, Union, Kept;
    MergeIsUnion(parts);
    forall t | t in Union(parts) ensures t in INPUT_TABLES {
      var i :| 0 <= i < |parts| && t in parts[i];
    }
    forall r | r in JsRows(Union(parts)) ensures PortableRow(env, r) {
      assert InSomePart(parts, "js_files", r);
      var i :| 0 <= i < |parts| && "js_files" in parts[i] && r in parts[i]["js_files"];
      assert r in JsRows(parts[i]);
    }
  }

  lemma {:induction false} MergeIsPortable(env: Env, names: iset<Scope>, live: Live, s: Store, run: string)
    requires Inv(env, names, s) && Portable(env, s.versions)
    requires MergeOf(env, live, s.heads, run, NamesOf(s.heads, run)).Merged?
    ensures PortableSnapshot(env, MergeOf(env, live, s.heads, run, NamesOf(s.heads, run)).snapshot)
  {
    var targets := NamesOf(s.heads, run);
    DecodedAre(env, s.heads, run, targets);
    hide Inv, Portable, PortableSnapshot, Decode, Union, NamesOf;
    var parts := Decoded(env, s.heads, run, targets).value;
    forall i | 0 <= i < |parts| ensures PortableSnapshot(env, parts[i]) {
      HeadIsPortable(env, names, s, Scope(run, targets[i]));
    }
    UnionIsPortable(env, parts);
  }

  // ----- whole histories

  /** Between requests nothing is pending. */
  ghost predicate Quiet(env: Env, names: iset<Scope>, s: Store) {
    Inv(env, names, s) && s.pending == map[] && NeighboursDiffer(s.versions) && Portable(env, s.versions)
  }

  /** Sound again, with the stored versions it had. */
  ghost predicate Follows(env: Env, names: iset<Scope>, s: Store, t: Store) {
    Quiet(env, names, t) && s.versions <= t.versions
  }

  lemma {:induction false} StoreKeepsQuiet(env: Env, names: iset<Scope>, s: Store, k: Scope, snapshot: Snapshot)
    requires Sound(env) && Quiet(env, names, s) && k in names && PortableSnapshot(env, snapshot)
    ensures Follows(env, names, s, StoreOf(env, s, k, snapshot).0)
  {
    StoreKeepsInv(env, names, s, k, snapshot);
    StoreKeepsPortable(env, s, k, snapshot);
    hide Inv, Sound, NeighboursDiffer, Portable, StoreOf;
  }

  lemma {:induction false} CaptureKeepsQuiet(env: Env, names: iset<Scope>, live: Live, s: Store, q: Request)
    requires Sound(env) && Quiet(env, names, s) && ScopeOf(q) in names
    ensures Follows(env, names, s, CaptureOf(env, live, s, q).0)
  {
    hide Inv, Sound, StoreOf, CapturedRows, FrozenRows, NeighboursDiffer, Portable, PortableSnapshot;
    var rows := CapturedRows(live, Only(q));
    var (frozen, objects) := FrozenRows(env, live.files, JsRows(rows));
    PutsKeepInv(env, names, s, objects);
    CaptureIsPortable(env, live, Only(q));
    if frozen != None {
      StoreKeepsQuiet(env, names, s.(objects := s.objects + objects), ScopeOf(q),
                      if "js_files" in rows then rows["js_files" := frozen.value] else rows);
    }
  }

  lemma {:induction false} MergeKeepsQuiet(env: Env, names: iset<Scope>, live: Live, s: Store, q: Request)
    requires Sound(env) && Quiet(env, names, s) && ScopeOf(q) in names
    requires MergeOf(env, live, s.heads, q.run, NamesOf(s.heads, q.run)).Merged?
    ensures Follows(env, names, s, StoreOf(env, s, ScopeOf(q), MergeOf(env, live, s.heads, q.run, NamesOf(s.heads, q.run)).snapshot).0)
  {
    hide Sound, StoreOf, Inv, Portable, PortableSnapshot, NeighboursDiffer, NamesOf, MergeOf;
    MergeIsPortable(env, names, live, s, q.run);
    StoreKeepsQuiet(env, names, s, ScopeOf(q), MergeOf(env, live, s.heads, q.run, NamesOf(s.heads, q.run)).snapshot);
  }

  /** Whatever is requested, the store stays sound and portable and no stored revision is touched. */
  lemma {:induction false} SelectionKeepsInv(env: Env, names: iset<Scope>, live: Live, s: Store, q: Request, nested: bool)
    requires Sound(env) && Quiet(env, names, s) && ScopeOf(q) in names
    ensures Follows(env, names, s, Selected(env, live, s, q, nested).0)
  {
    assert Follows(env, names, s, s);
    hide Quiet, Follows, Sound, StoreOf, CaptureOf, Decode, Select, HasLaterRun, NamesOf, MergeOf;
    CaptureKeepsQuiet(env, names, live, s, q);
    var merge := MergeOf(env, live, s.heads, q.run, NamesOf(s.heads, q.run));
    if merge.Merged? { MergeKeepsQuiet(env, names, live, s, q); }
  }

  datatype Event = Opened(live: Live, request: Request) | Elsewhere(step: Step)

  predicate Allowed(e: Event) {
    e.Elsewhere? ==> e.step.Put? || e.step.ReferElsewhere? || e.step.Collect?
  }

  ghost predicate OpenedUnder(names: iset<Scope>, e: Event) { e.Opened? ==> ScopeOf(e.request) in names }

  ghost function Happens(env: Env, s: Store, e: Event): Store
    requires Allowed(e)
  {
    match e
    case Opened(live, q) => Selected(env, live, s, q, false).0
    case Elsewhere(step) => Apply(env, s, step)
  }

  ghost function History(env: Env, s: Store, events: seq<Event>): Store
    requires forall i :: 0 <= i < |events| ==> Allowed(events[i])
  {
    if events == [] then s
    else Happens(env, History(env, s, events[..|events| - 1]), events[|events| - 1])
  }

  lemma ElsewhereKeepsQuiet(env: Env, names: iset<Scope>, s: Store, step: Step)
    requires Quiet(env, names, s) && (step.Put? || step.ReferElsewhere? || step.Collect?)
    ensures Follows(env, names, s, Apply(env, s, step))
  {
    ObjectsKeepInv(env, names, s, step);
    hide Inv, NeighboursDiffer, Referenced, Portable;
  }

  lemma {:induction false} EventKeepsQuiet(env: Env, names: iset<Scope>, s: Store, e: Event)
    requires Sound(env) && Quiet(env, names, s) && Allowed(e) && OpenedUnder(names, e)
    ensures Follows(env, names, s, Happens(env, s, e))
  {
    hide Quiet, Follows, Sound, Selected, Apply;
    match e
    case Opened(live, q) => SelectionKeepsInv(env, names, live, s, q, false);
    case Elsewhere(step) => ElsewhereKeepsQuiet(env, names, s, step);
  }

  /** In every history of requests (captures, refreshes, merges, replays, refusals) under names that do
      not nest, and of changes to the object store, revisions stay gapless, hashed, pinned, portable and
      different from their neighbours, and no stored revision changes. */
  lemma {:induction false} HistoryIsSound(env: Env, names: iset<Scope>, s: Store, events: seq<Event>)
    requires Sound(env) && Quiet(env, names, s)
    requires forall i :: 0 <= i < |events| ==> Allowed(events[i]) && OpenedUnder(names, events[i])
    ensures Follows(env, names, s, History(env, s, events))
  {
    hide Quiet, Sound, Happens;
    if events != [] {
      HistoryIsSound(env, names, s, events[..|events| - 1]);
      EventKeepsQuiet(env, names, History(env, s, events[..|events| - 1]), events[|events| - 1]);
    }
  }

  // ----- what is selected

  lemma CaptureSource(env: Env, live: Live, s: Store, q: Request)
    ensures var (t, r) := CaptureOf(env, live, s, q);
            (r.Chosen? ==> r.source == Capture && !HasLaterRun(live.runTargets, ScopeOf(q))) &&
            (HasLaterRun(live.runTargets, ScopeOf(q)) ==> r == Refused(NotPreserved) && t == s)
  {
  }

  /** A live capture happens only while no later run has collected the target, and never in a replay. */
  lemma CaptureIsLive(env: Env, live: Live, s: Store, q: Request, nested: bool)
    ensures var (t, r) := Selected(env, live, s, q, nested);
            && (r.Chosen? && r.source == Capture ==> !HasLaterRun(live.runTargets, ScopeOf(q)) && !q.replay)
            && (HasLaterRun(live.runTargets, ScopeOf(q)) && t != s ==> r == Refused(BadSnapshot) || (r.Chosen? && r.source == Merge))
  {
    hide NamesOf, MergeOf, Decode, Select, HasLaterRun, StoreOf, CaptureOf;
    CaptureSource(env, live, s, q);
    FailedStoreChangesNothing(env, s, ScopeOf(q));
  }

  lemma FailedStoreChangesNothing(env: Env, s: Store, k: Scope)
    ensures forall snapshot :: StoreOf(env, s, k, snapshot).1 == None ==> StoreOf(env, s, k, snapshot).0 == s
  {
    hide PinFor, Payload, MaxRevision;
  }

  /** An explicit revision, or a replay of a scope that has a head, writes nothing; it returns that very row. */
  lemma ReplayReadsOnly(env: Env, live: Live, s: Store, q: Request, nested: bool)
    requires q.replay && (q.revision.Some? || ScopeOf(q) in s.heads)
    ensures var (t, r) := Selected(env, live, s, q, nested);
            && t == s
            && (r.Chosen? && q.revision.Some? ==> Select(s.versions, ScopeOf(q), q.revision.value) == Some(r.stored))
            && (r.Chosen? && q.revision == None ==> r.stored == s.heads[ScopeOf(q)])
            && (r.Chosen? ==> Decode(env, r.stored).Some?)
  {
    hide NamesOf, MergeOf, Decode, Select, HasLaterRun, StoreOf, CaptureOf;
  }

  /** Replaying a chosen revision later, after any steps of any clients, chooses the same row. */
  lemma {:induction false} ReplayRepeats(env: Env, live: Live, s: Store, q: Request, steps: seq<Step>, live': Live)
    requires Numbered(s.versions, s.heads) && Runs(env, s, steps) && q.replay && q.revision.Some?
    requires Selected(env, live, s, q, false).1.Chosen?
    ensures Selected(env, live', After(env, s, steps), q, false).1 == Selected(env, live, s, q, false).1
  {
    ReplayReadsOnly(env, live, s, q, false);
    ReplayIsStable(env, s, steps, ScopeOf(q), q.revision.value);
    hide Numbered, Runs, After, NamesOf, Select, Decode;
  }

  /** Capturing again rows that only come in another order adds no revision. */
  lemma {:induction false} UnchangedStoreAddsNothing(env: Env, s: Store, k: Scope, a: Snapshot, b: Snapshot)
    requires Sound(env) && SameRows(a, b) && StoreOf(env, s, k, a).1.Some?
    ensures var (t, stored) := StoreOf(env, s, k, a); StoreOf(env, t, k, b) == (t, stored)
  {
    SameRowsSamePayload(env, a, b);
    hide Sound, SameRows, Canonical, PinFor, MaxRevision;
  }

  // Pointwise reading of `FrozenRows` where every script is found.
  lemma {:induction false} FrozenIs(env: Env, files: map<string, string>, rows: seq<Row>)
    ensures var frozen := FrozenRows(env, files, rows).0;
            && (frozen.Some? <==> forall i :: 0 <= i < |rows| ==> Frozen(env, files, rows[i]).Some?)
            && (frozen.Some? ==> |frozen.value| == |rows| && forall i :: 0 <= i < |rows| ==> Some(frozen.value[i]) == Frozen(env, files, rows[i]))
  {
    hide Frozen;
    if rows != [] {
      var init := rows[..|rows| - 1];
      FrozenIs(env, files, init);
      assert forall i :: 0 <= i < |init| ==> rows[i] == init[i];
    }
  }

  predicate Puts(env: Env, files: map<string, string>, r: Row, digest: string) {
    var path := env.strip(Text(r, "blob_path"));
    path != "" && path in files && env.content(files[path]) == digest
  }

  ghost predicate SomePuts(env: Env, files: map<string, string>, rows: seq<Row>, digest: string) {
    exists i :: 0 <= i < |rows| && Puts(env, files, rows[i], digest)
  }

  lemma SomePutsStep(env: Env, files: map<string, string>, rows: seq<Row>, d: string)
    requires rows != []
    ensures SomePuts(env, files, rows, d) <==>
            SomePuts(env, files, rows[..|rows| - 1], d) || Puts(env, files, rows[|rows| - 1], d)
  {
    hide Puts;
    assert forall i :: 0 <= i < |rows| - 1 ==> rows[i] == rows[..|rows| - 1][i];
  }

  lemma {:induction false} FrozenObjects(env: Env, files: map<string, string>, rows: seq<Row>)
    requires FrozenRows(env, files, rows).0.Some?
    ensures forall d :: d in FrozenRows(env, files, rows).1 <==> SomePuts(env, files, rows, d)
  {
    if rows != [] {
      var init, last := rows[..|rows| - 1], rows[|rows| - 1];
      FrozenObjects(env, files, init);
      assert forall d :: d in FrozenRows(env, files, rows).1 <==> d in FrozenRows(env, files, init).1 || Puts(env, files, last, d);
      hide FrozenRows, Puts, SomePuts;
      forall d ensures SomePuts(env, files, rows, d) <==> SomePuts(env, files, init, d) || Puts(env, files, last, d) {
        SomePutsStep(env, files, rows, d);
      }
    }
  }

  lemma Without(rows: seq<Row>, j: nat)
    requires j < |rows|
    ensures multiset(rows) == multiset(rows[..j] + rows[j + 1..]) + multiset{rows[j]}
    ensures multiset(rows[..j] + rows[j + 1..]) == multiset(rows) - multiset{rows[j]}
  {
    assert rows == rows[..j] + [rows[j]] + rows[j + 1..];
  }

  lemma FrozenWithout(env: Env, files: map<string, string>, rows: seq<Row>, j: nat)
    requires j < |rows| && FrozenRows(env, files, rows).0.Some?
    ensures FrozenRows(env, files, rows[..j] + rows[j + 1..]).0.Some? && Frozen(env, files, rows[j]).Some?
    ensures multiset(FrozenRows(env, files, rows).0.value) ==
            multiset(FrozenRows(env, files, rows[..j] + rows[j + 1..]).0.value) + multiset{Frozen(env, files, rows[j]).value}
  {
    hide FrozenRows, Frozen;
    var less := rows[..j] + rows[j + 1..];
    FrozenIs(env, files, rows);
    FrozenIs(env, files, less);
    assert forall i :: 0 <= i < |less| ==> less[i] == if i < j then rows[i] else rows[i + 1];
    var frozen, rest := FrozenRows(env, files, rows).0.value, FrozenRows(env, files, less).0.value;
    assert forall i :: 0 <= i < |rest| ==> rest[i] == if i < j then frozen[i] else frozen[i + 1];
    assert rest == frozen[..j] + frozen[j + 1..];
    Without(frozen, j);
  }

  lemma {:induction false} FrozenPermutes(env: Env, files: map<string, string>, a: seq<Row>, b: seq<Row>)
    requires multiset(a) == multiset(b) && FrozenRows(env, files, a).0.Some? && FrozenRows(env, files, b).0.Some?
    ensures multiset(FrozenRows(env, files, a).0.value) == multiset(FrozenRows(env, files, b).0.value)
  {
    assert |a| == |multiset(a)| == |multiset(b)| == |b|;
    if a == [] {
    } else {
      hide FrozenRows, Frozen;
      var n := |a| - 1;
      assert a[n] in multiset(b);
      var j :| 0 <= j < |b| && b[j] == a[n];
      var a', b' := a[..n] + a[n + 1..], b[..j] + b[j + 1..];
      assert multiset(a') == multiset(b') by {
        Without(a, n);
        Without(b, j);
      }
      FrozenWithout(env, files, a, n);
      FrozenWithout(env, files, b, j);
      FrozenPermutes(env, files, a', b');
    }
  }

  lemma SameFrozen(env: Env, files: map<string, string>, a: seq<Row>, b: seq<Row>)
    requires multiset(a) == multiset(b) && FrozenRows(env, files, a).0.Some?
    ensures FrozenRows(env, files, b).0.Some? && FrozenRows(env, files, a).1 == FrozenRows(env, files, b).1
    ensures multiset(FrozenRows(env, files, a).0.value) == multiset(FrozenRows(env, files, b).0.value)
  {
    hide FrozenRows, Frozen, Puts, SomePuts;
    FrozenIs(env, files, a);
    FrozenIs(env, files, b);
    SubMultisetSize(a, b);
    SubMultisetSize(b, a);
    forall i | 0 <= i < |b| ensures Frozen(env, files, b[i]).Some? { assert b[i] in a; }
    FrozenObjects(env, files, a);
    FrozenObjects(env, files, b);
    forall d ensures SomePuts(env, files, a, d) <==> SomePuts(env, files, b, d) {
      if SomePuts(env, files, a, d) { PutsIn(env, files, a, b, d); }
      if SomePuts(env, files, b, d) { PutsIn(env, files, b, a, d); }
    }
    FrozenPermutes(env, files, a, b);
  }

  lemma PutsIn(env: Env, files: map<string, string>, a: seq<Row>, b: seq<Row>, d: string)
    requires (forall r :: r in a ==> r in b) && SomePuts(env, files, a, d)
    ensures SomePuts(env, files, b, d)
  {
    hide Puts;
    var i :| 0 <= i < |a| && Puts(env, files, a[i], d);
    assert a[i] in b;
    var j :| 0 <= j < |b| && b[j] == a[i];
  }

  lemma {:induction false} SameCapturedRows(live: Live, live': Live, only: Option<string>)
    requires live'.columns == live.columns && SameRows(live.tables, live'.tables)
    ensures SameRows(CapturedRows(live, only), CapturedRows(live', only))
  {
    hide Filter, Captured;
    forall t | t in live.tables
      ensures multiset(Filter(Captured(live, only, t), live.tables[t])) == multiset(Filter(Captured(live', only, t), live'.tables[t]))
    {
      CapturedAlike(live, live', only, t);
      FilterMultiset(Captured(live, only, t), live.tables[t], live'.tables[t]);
    }
  }

  lemma CapturedAlike(live: Live, live': Live, only: Option<string>, t: string)
    requires live'.columns == live.columns && t in live'.tables
    ensures Filter(Captured(live', only, t), live'.tables[t]) == Filter(Captured(live, only, t), live'.tables[t])
  {
    SameFilter(Captured(live', only, t), Captured(live, only, t), live'.tables[t]);
  }

  /** Capturing the same rows again, in whatever order the tables return them, adds no revision and
      changes nothing else in the store. */
  lemma {:induction false} RecaptureAddsNothing(env: Env, live: Live, live': Live, s: Store, q: Request)
    requires Sound(env) && CaptureOf(env, live, s, q).1.Chosen?
    requires live' == live.(tables := live'.tables) && SameRows(live.tables, live'.tables)
    ensures var (t, r) := CaptureOf(env, live, s, q); CaptureOf(env, live', t, q) == (t, r)
  {
    hide Sound, HasLaterRun, CapturedRows, FrozenRows, SameRows, StoreOf;
    SameCapturedRows(live, live', Only(q));
    var rows, rows' := CapturedRows(live, Only(q)), CapturedRows(live', Only(q));
    assert CaptureOf(env, live, s, q).1.Chosen? ==> !HasLaterRun(live.runTargets, ScopeOf(q));
    CaptureAgain(env, live.files, s, ScopeOf(q), rows, rows');
  }

  function FrozenSnapshot(env: Env, files: map<string, string>, rows: Snapshot): Snapshot
    requires FrozenRows(env, files, JsRows(rows)).0.Some?
  {
    if "js_files" in rows then rows["js_files" := FrozenRows(env, files, JsRows(rows)).0.value] else rows
  }

  lemma {:induction false} CaptureAgain(env: Env, files: map<string, string>, s: Store, k: Scope, rows: Snapshot, rows': Snapshot)
    requires Sound(env) && SameRows(rows, rows') && FrozenRows(env, files, JsRows(rows)).0.Some?
    requires var s' := s.(objects := s.objects + FrozenRows(env, files, JsRows(rows)).1);
             StoreOf(env, s', k, FrozenSnapshot(env, files, rows)).1.Some?
    ensures FrozenRows(env, files, JsRows(rows')).0.Some?
    ensures var s' := s.(objects := s.objects + FrozenRows(env, files, JsRows(rows)).1);
            var (t, stored) := StoreOf(env, s', k, FrozenSnapshot(env, files, rows));
            && t.(objects := t.objects + FrozenRows(env, files, JsRows(rows')).1) == t
            && StoreOf(env, t, k, FrozenSnapshot(env, files, rows')) == (t, stored)
  {
    hide FrozenRows, Sound;
    SameFrozen(env, files, JsRows(rows), JsRows(rows'));
    var s' := s.(objects := s.objects + FrozenRows(env, files, JsRows(rows)).1);
    StoreKeepsObjects(env, s', k, FrozenSnapshot(env, files, rows));
    hide StoreOf;
    assert SameRows(FrozenSnapshot(env, files, rows), FrozenSnapshot(env, files, rows'));
    UnchangedStoreAddsNothing(env, s', k, FrozenSnapshot(env, files, rows), FrozenSnapshot(env, files, rows'));
    var t := StoreOf(env, s', k, FrozenSnapshot(env, files, rows)).0;
    assert t.objects + FrozenRows(env, files, JsRows(rows')).1 == t.objects;
  }

  lemma StoreKeepsObjects(env: Env, s: Store, k: Scope, snapshot: Snapshot)
    ensures StoreOf(env, s, k, snapshot).0.objects == s.objects
  {
    hide PinFor, Payload, MaxRevision;
  }

  /** And a store that adds none was given the rows of the head. */
  lemma ChangedStoreAddsRevision(env: Env, s: Store, k: Scope, a: Snapshot, b: Snapshot)
    requires Sound(env) && StoreOf(env, s, k, a).1.Some?
    requires var t := StoreOf(env, s, k, a).0; StoreOf(env, t, k, b).1.Some? && StoreOf(env, t, k, b).0.versions == t.versions
    ensures SameRows(a, b)
  {
    SamePayloadBySameHead(env, s, k, a, b);
    SamePayloadSameRows(env, a, b);
  }

  lemma SamePayloadBySameHead(env: Env, s: Store, k: Scope, a: Snapshot, b: Snapshot)
    requires StoreOf(env, s, k, a).1.Some?
    requires var t := StoreOf(env, s, k, a).0; StoreOf(env, t, k, b).1.Some? && StoreOf(env, t, k, b).0.versions == t.versions
    ensures Payload(env, a) == Payload(env, b)
  {
    hide Payload, PinFor, MaxRevision;
    var t := StoreOf(env, s, k, a).0;
    var next := NewVersion(t, PinnedFor(env, k, b));
    assert |t.versions + [VersionRow(k, next)]| == |t.versions| + 1;
  }

  lemma {:induction false} DecodedAre(env: Env, heads: map<Scope, Stored>, run: string, names: seq<string>)
    requires forall i :: 0 <= i < |names| ==> Scope(run, names[i]) in heads
    ensures var parts := Decoded(env, heads, run, names);
            parts.Some? ==>
              && |parts.value| == |names|
              && (forall i :: 0 <= i < |names| ==> Decode(env, heads[Scope(run, names[i])]) == Some(parts.value[i]))
  {
    hide Decode;
    if names != [] { DecodedAre(env, heads, run, names[..|names| - 1]); }
  }

  /** A merge is chosen only with every expected target at hand, and holds the union of what their heads decode to. */
  lemma MergeIsComplete(env: Env, live: Live, heads: map<Scope, Stored>, run: string)
    ensures var names := NamesOf(heads, run);
            var r := MergeOf(env, live, heads, run, names);
            r.Merged? ==>
              && (forall e :: e in Expected(live.runTargets, run) ==> Scope(run, e) in heads && Decode(env, heads[Scope(run, e)]).Some?)
              && exists parts ::
                   && |parts| == |names| && r.snapshot == Union(parts)
                   && forall i :: 0 <= i < |names| ==> Decode(env, heads[Scope(run, names[i])]) == Some(parts[i])
  {
    var names := NamesOf(heads, run);
    DecodedAre(env, heads, run, names);
    hide Decode, Union, NamesOf, KnownTables;
    var r := MergeOf(env, live, heads, run, names);
    if r.Merged? {
      var parts := Decoded(env, heads, run, names).value;
      forall e | e in Expected(live.runTargets, run)
        ensures Scope(run, e) in heads && Decode(env, heads[Scope(run, e)]).Some?
      {
        var i :| 0 <= i < |names| && names[i] == e;
        assert Decode(env, heads[Scope(run, names[i])]) == Some(parts[i]);
      }
      assert r.snapshot == Union(parts);
    }
  }

  // ----- installing

  function Resolved(env: Env, objects: set<string>, text: string): Option<string> {
    var t := env.strip(text);
    if t == "" then Some("")
    else if "cas:" <= t then
      if env.norm(t[4..]) in objects then Some(env.path(env.norm(t[4..]))) else None
    else env.early(t)
  }

  /** A row as it is installed: within the table's columns, its script found in the object store. */
  function Installed(env: Env, objects: set<string>, columns: set<string>, t: string, r: Row): Option<Row> {
    if !(r.Keys <= columns) then None
    else if t == "js_files" && Text(r, "blob_path") != "" then
      match Resolved(env, objects, r["blob_path"])
      case None => None
      case Some(path) => Some(r["blob_path" := path])
    else Some(r)
  }

  /** Rows without columns are left out. */
  function InstalledRows(env: Env, objects: set<string>, columns: set<string>, t: string, rows: seq<Row>): Option<seq<Row>> {
    if rows == [] then Some([])
    else
      var init, last := InstalledRows(env, objects, columns, t, rows[..|rows| - 1]), Installed(env, objects, columns, t, rows[|rows| - 1]);
      if init == None || last == None then None
      else if last.value == map[] then init
      else Some(init.value + [last.value])
  }

  predicate Installable(env: Env, objects: set<string>, columns: map<string, set<string>>, snapshot: Snapshot) {
    forall t :: t in snapshot ==>
      t in INPUT_TABLES && t in columns && InstalledRows(env, objects, columns[t], t, snapshot[t]).Some?
  }

  lemma {:induction false} RowsInstall(env: Env, objects: set<string>, columns: set<string>, t: string, rows: seq<Row>)
    requires forall i :: 0 <= i < |rows| ==> Installed(env, objects, columns, t, rows[i]).Some?
    ensures InstalledRows(env, objects, columns, t, rows).Some?
  {
    hide Installed;
    if rows != [] { RowsInstall(env, objects, columns, t, rows[..|rows| - 1]); }
  }

  lemma PinnedRowInstalls(env: Env, objects: set<string>, columns: set<string>, t: string, r: Row)
    requires r.Keys <= columns && (t == "js_files" ==> PortableRow(env, r) && (DigestOf(env, r) != "" ==> DigestOf(env, r) in objects))
    ensures Installed(env, objects, columns, t, r).Some?
  {
  }

  /** A stored revision whose tables and columns still exist can always be installed: its artifacts are
      pinned, so none of them has left the object store. */
  lemma StoredRevisionsInstall(env: Env, names: iset<Scope>, s: Store, i: nat, columns: map<string, set<string>>)
    requires Quiet(env, names, s) && i < |s.versions|
    requires var snapshot := env.parse(s.versions[i].stored.payload).value;
             forall t :: t in snapshot ==> t in columns && forall r :: r in snapshot[t] ==> r.Keys <= columns[t]
    ensures Installable(env, s.objects, columns, env.parse(s.versions[i].stored.payload).value)
  {
    hide Numbered, NeighboursDiffer, OwnerPrefix, OwnerKey, InstalledRows, PortableRow, DigestOf;
    var v := s.versions[i];
    var snapshot := env.parse(v.stored.payload).value;
    assert SealedAndPinned(env, s.refs, v.scope, v.stored.payload, v.stored.hash);
    assert PortableSnapshot(env, snapshot);
    var prefix := OwnerPrefix(v.scope, v.stored.hash);
    forall t | t in snapshot ensures InstalledRows(env, s.objects, columns[t], t, snapshot[t]).Some? {
      forall j | 0 <= j < |snapshot[t]| ensures Installed(env, s.objects, columns[t], t, snapshot[t][j]).Some? {
        var row := snapshot[t][j];
        assert row in snapshot[t];
        if t == "js_files" && DigestOf(env, row) != "" {
          assert JsRows(snapshot)[j] == row;
          var key := OwnerKey(prefix, j, Text(row, "url"));
          assert key in s.refs && s.refs[key] == DigestOf(env, row);
        }
        PinnedRowInstalls(env, s.objects, columns[t], t, row);
      }
      RowsInstall(env, s.objects, columns[t], t, snapshot[t]);
    }
  }
}
