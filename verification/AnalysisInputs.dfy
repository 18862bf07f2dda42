/** The database behind one process's analysis input contexts. */
module AnalysisInputs {
  import opened ArtifactPins
  import opened InputSelection
  import opened Options
  import opened Ordering
  import opened SnapshotForm
  import opened SnapshotStore
  import opened SortedSets

  /** Heads whose revision has no version row yet get one, as they are. */
  ghost predicate Archived(before: seq<VersionRow>, heads: map<Scope, Stored>, after: seq<VersionRow>) {
    && before <= after
    && (forall k :: Revs(after, k) ==
          if k in heads && Select(before, k, heads[k].revision) == None then Revs(before, k) + [heads[k]] else Revs(before, k))
    && ((forall k :: k in heads ==> Select(before, k, heads[k].revision).Some?) ==> after == before)
  }

  class AnalysisDatabase {
    const env: Env
    var versions: seq<VersionRow>
    var heads: map<Scope, Stored>
    var refs: map<string, string>
    var others: set<string>
    var objects: set<string>
    var live: Live
    var temp: map<string, seq<Row>>

    ghost function S(): Store
      reads this
    {
      Store(versions, heads, refs, others, objects, map[])
    }

    constructor (env: Env, live: Live)
      ensures this.env == env && this.live == live && temp == map[]
      ensures S() == Store([], map[], map[], {}, {}, map[])
    {
      this.env, this.live, temp := env, live, map[];
      versions, heads, refs, others, objects := [], map[], map[], {}, {};
    }

    method ArchiveHeads()
      modifies this`versions
      ensures Archived(old(versions), heads, versions)
    {
      hide Revs, Select;
      var left := heads.Keys;
      ghost var before := versions;
      while left != {}
        invariant left <= heads.Keys && before <= versions
        invariant forall k :: (Revs(versions, k) ==
          if k in heads && k !in left && Select(before, k, heads[k].revision) == None then Revs(before, k) + [heads[k]] else Revs(before, k))
        invariant forall k :: k in left ==> Select(versions, k, heads[k].revision) == Select(before, k, heads[k].revision)
        invariant (forall k :: k in heads ==> Select(before, k, heads[k].revision).Some?) ==> versions == before
        decreases left
      {
        var k :| k in left;
        left := left - {k};
        if Select(versions, k, heads[k].revision) == None {
          var row := VersionRow(k, heads[k]);
          forall j ensures Revs(versions + [row], j) == if j == k then Revs(versions, j) + [heads[k]] else Revs(versions, j) {
            RevsSnoc(versions, row, j);
          }
          forall j | j in left ensures Select(versions + [row], j, heads[j].revision) == Select(versions, j, heads[j].revision) {
            SelectSnoc(versions, row, j, heads[j].revision);
          }
          versions := versions + [row];
        }
      }
    }

    method AllStored(desired: map<string, string>) returns (ok: bool)
      ensures ok <==> forall key :: key in desired ==> desired[key] in objects
    {
      var unchecked := desired.Keys;
      while unchecked != {}
        invariant unchecked <= desired.Keys
        invariant forall key :: key in desired && key !in unchecked ==> desired[key] in objects
        decreases unchecked
      {
        var key :| key in unchecked;
        if desired[key] !in objects { return false; }
        unchecked := unchecked - {key};
      }
      ok := true;
    }

    method UpsertReferences(desired: map<string, string>, existing: map<string, string>)
      requires forall key :: key in existing && key in desired ==> key in refs && refs[key] == existing[key]
      modifies this`refs
      ensures refs == old(refs) + desired
    {
      var left := desired.Keys;
      ghost var before := refs;
      while left != {}
        invariant left <= desired.Keys
        invariant refs.Keys == before.Keys + (desired.Keys - left)
        invariant forall key :: key in refs ==> refs[key] == if key in desired && key !in left then desired[key] else before[key]
        decreases left
      {
        var key :| key in left;
        left := left - {key};
        if !(key in existing && existing[key] == desired[key]) {
          refs := refs[key := desired[key]];
        }
      }
    }

    /** Makes the references under the prefix exactly the desired ones, or changes nothing. */
    method SyncReferences(desired: map<string, string>, prefix: string) returns (ok: bool)
      modifies this`refs
      ensures ok <==> forall key :: key in desired ==> prefix <= key && desired[key] in objects
      ensures refs == if ok then Sync(old(refs), prefix, desired) else old(refs)
    {
      if exists key :: key in desired && !(prefix <= key) { return false; }
      var existing := map key | key in refs && prefix <= key :: refs[key];
      ok := AllStored(desired);
      if ok {
        SyncIs(refs, existing, prefix, desired);
        refs := refs - (existing.Keys - desired.Keys);
        UpsertReferences(desired, existing);
      }
    }

    method PinJsArtifacts(k: Scope, hash: string, rows: seq<Row>) returns (ok: bool)
      modifies this`refs
      ensures ok <==> Pin(env, old(refs), objects, OwnerPrefix(k, hash), rows).Some?
      ensures ok ==> Pin(env, old(refs), objects, OwnerPrefix(k, hash), rows) == Some(refs)
      ensures !ok ==> refs == old(refs)
    {
      var prefix := OwnerPrefix(k, hash);
      var references: map<string, string> := map[];
      var any := false;
      hide OwnerKey, DigestOf, OwnerPrefix;
      for i := 0 to |rows|
        invariant refs == old(refs) && references == Desired(env, prefix, rows[..i])
        invariant any <==> AnyCas(rows[..i])
      {
        assert rows[..i + 1][..i] == rows[..i];
        CasStep(rows, i);
        if IsCas(rows[i]) { any := true; }
        if DigestOf(env, rows[i]) != "" {
          references := references[OwnerKey(prefix, i, Text(rows[i], "url")) := DigestOf(env, rows[i])];
        }
      }
      assert rows[..|rows|] == rows;
      if !any { return true; }
      DesiredUnderPrefix(env, prefix, rows);
      ok := SyncReferences(references, prefix);
    }

    method StoreSnapshot(k: Scope, snapshot: Snapshot) returns (stored: Option<Stored>)
      modifies this`versions, this`heads, this`refs
      ensures (S(), stored) == StoreOf(env, old(S()), k, snapshot)
    {
      hide OwnerPrefix, MaxRevision, Pin, Canonical, JsRows;
      var sorted := Canonical(env, snapshot);
      var payload := env.render(sorted);
      var hash := env.digest(payload);
      if k in heads && heads[k].payload == payload { return Some(heads[k]); }
      var pinned := PinJsArtifacts(k, hash, JsRows(sorted));
      if !pinned { return None; }
      var next := Stored(MaxRevision(versions, k) + 1, payload, hash, SCHEMA_VERSION);
      versions := versions + [VersionRow(k, next)];
      heads := heads[k := next];
      stored := Some(next);
    }

    method CaptureTables(only: Option<string>, tables: set<string>) returns (snapshot: Snapshot)
      ensures snapshot == map t | t in tables && t in live.columns && t in live.tables :: Filter(Captured(live, only, t), live.tables[t])
    {
      hide Filter, Captured;
      snapshot := map[];
      var left := tables;
      while left != {}
        invariant left <= tables
        invariant forall t :: t in snapshot <==> t in tables && t !in left && t in live.columns && t in live.tables
        invariant forall t :: t in snapshot ==> snapshot[t] == Filter(Captured(live, only, t), live.tables[t])
        decreases left
      {
        var t :| t in left;
        left := left - {t};
        if t in live.columns && t in live.tables {
          snapshot := snapshot[t := Filter(Captured(live, only, t), live.tables[t])];
        }
      }
    }

    method CaptureRows(q: Request) returns (rows: Option<Snapshot>)
      ensures rows == if HasLaterRun(live.runTargets, ScopeOf(q)) then None else Some(CapturedRows(live, Only(q)))
      ensures rows == None <==> exists i, j ::
                && 0 <= i < |live.runTargets| && 0 <= j < |live.runTargets|
                && live.runTargets[i].run == q.run && live.runTargets[j].run != q.run
                && live.runTargets[j].target == live.runTargets[i].target
                && (q.target in {None, Some(""), Some("*")} || live.runTargets[i].target == q.target.value)
                && (live.runTargets[j].startedAt > live.runTargets[i].startedAt ||
                    (live.runTargets[j].startedAt == live.runTargets[i].startedAt && j > i))
    {
      LaterRuns(live.runTargets, q);
      hide Filter, HasLaterRun, Captured;
      if HasLaterRun(live.runTargets, ScopeOf(q)) { return None; }
      var snapshot := CaptureTables(Only(q), INPUT_TABLES);
      assert snapshot == CapturedRows(live, Only(q));
      rows := Some(snapshot);
    }

    /** Stores every script of the rows and puts a portable reference in its place. */
    method FreezeJsArtifacts(rows: seq<Row>) returns (frozen: Option<seq<Row>>)
      modifies this`objects
      ensures (frozen, objects) == (FrozenRows(env, live.files, rows).0, old(objects) + FrozenRows(env, live.files, rows).1)
    {
      var done: seq<Row> := [];
      for i := 0 to |rows|
        invariant FrozenRows(env, live.files, rows[..i]).0 == Some(done)
        invariant objects == old(objects) + FrozenRows(env, live.files, rows[..i]).1
      {
        assert rows[..i + 1][..i] == rows[..i];
        var path := env.strip(Text(rows[i], "blob_path"));
        if path == "" {
          done := done + [rows[i]];
        } else if path !in live.files {
          FrozenFails(env, live.files, rows, i);
          return None;
        } else {
          var digest := env.content(live.files[path]);
          objects := objects + {digest};
          done := done + [rows[i]["blob_path" := "cas:" + digest]];
        }
      }
      assert rows[..|rows|] == rows;
      frozen := Some(done);
    }

    method Capture(q: Request) returns (r: Selection)
      modifies this`versions, this`heads, this`refs, this`objects
      ensures (S(), r) == CaptureOf(env, live, old(S()), q)
    {
      hide HasLaterRun, CapturedRows, FrozenRows, StoreOf;
      var rows := CaptureRows(q);
      if rows == None { return Refused(NotPreserved); }
      var frozen := FreezeJsArtifacts(JsRows(rows.value));
      if frozen == None { return Refused(ArtifactMissing); }
      var stored := StoreSnapshot(ScopeOf(q), if "js_files" in rows.value then rows.value["js_files" := frozen.value] else rows.value);
      r := if stored == None then Refused(ArtifactMissing) else Chosen(stored.value, InputSelection.Source.Capture);
    }

    method DecodeParts(run: string, names: seq<string>) returns (parts: Option<seq<Snapshot>>)
      requires forall i :: 0 <= i < |names| ==> Scope(run, names[i]) in heads
      ensures parts == Decoded(env, heads, run, names)
    {
      hide Decode;
      var done: seq<Snapshot> := [];
      for i := 0 to |names|
        invariant Decoded(env, heads, run, names[..i]) == Some(done)
      {
        assert names[..i + 1][..i] == names[..i];
        var part := Decode(env, heads[Scope(run, names[i])]);
        if part == None {
          DecodedFails(env, heads, run, names, i);
          return None;
        }
        done := done + [part.value];
      }
      assert names[..|names|] == names;
      parts := Some(done);
    }

    method MergeTargetSnapshots(run: string) returns (r: MergeResult)
      requires Sound(env)
      ensures r == MergeOf(env, live, heads, run, NamesOf(heads, run))
    {
      hide StringLeq, Decode, Decoded, Union, KnownTables, Sound;
      var names := SortedSet(PartTargets(heads, run));
      OrderIsUnique(PartTargets(heads, run), names);
      assert names == NamesOf(heads, run);
      hide NamesOf, PartTargets, Ascending;
      if names == [] { return NoMerge; }
      var expected := Expected(live.runTargets, run);
      if !(forall e :: e in expected ==> e in names) { return NoMerge; }
      var parts := DecodeParts(run, names);
      if parts == None { return MergeFails; }
      var merged := MergeParts(env, parts.value);
      r := if merged == None then MergeFails else Merged(merged.value);
    }

    /** The stored inputs a request selects, capturing or merging them first where it must. */
    method SelectInputs(q: Request) returns (r: Selection)
      requires Sound(env)
      modifies this`versions, this`heads, this`refs, this`objects
      ensures (S(), r) == Selected(env, live, old(S()), q, exists t :: t in temp && t in INPUT_TABLES)
    {
      hide Sound, HasLaterRun, Decode, Select, StoreOf, CaptureOf, MergeOf, NamesOf;
      var k := ScopeOf(q);
      if q.revision.Some? && !(q.replay && q.revision.value >= 1) { return Refused(BadRevision); }
      if exists t :: t in temp && t in INPUT_TABLES { return Refused(Nested); }
      if q.revision == None && k in heads && Decode(env, heads[k]) == None { return Refused(BadSnapshot); }
      if q.revision.Some? {
        var found := Select(versions, k, q.revision.value);
        if found == None { return Refused(NoSuchRevision); }
        r := Chosen(found.value, Revision);
      } else if q.refresh && !q.replay && !HasLaterRun(live.runTargets, k) {
        r := Capture(q);
      } else {
        var merge := NoMerge;
        if q.target == None && (k !in heads || (q.refresh && !q.replay)) { merge := MergeTargetSnapshots(q.run); }
        if merge.MergeFails? { return Refused(BadSnapshot); }
        if merge.Merged? {
          var stored := StoreSnapshot(k, merge.snapshot);
          r := if stored == None then Refused(ArtifactMissing) else Chosen(stored.value, Source.Merge);
        } else if k in heads {
          r := Chosen(heads[k], Head);
        } else if q.replay {
          r := Refused(NoSnapshot);
        } else {
          r := Capture(q);
        }
      }
      if r.Chosen? && Decode(env, r.stored) == None { r := Refused(BadSnapshot); }
    }

    // ----- the overlay of temporary tables

    method InstallRows(t: string, rows: seq<Row>) returns (installed: Option<seq<Row>>)
      requires t in live.columns
      ensures installed == InstalledRows(env, objects, live.columns[t], t, rows)
    {
      hide Installed;
      var done: seq<Row> := [];
      for i := 0 to |rows|
        invariant InstalledRows(env, objects, live.columns[t], t, rows[..i]) == Some(done)
      {
        assert rows[..i + 1][..i] == rows[..i];
        var row := Installed(env, objects, live.columns[t], t, rows[i]);
        if row == None {
          InstallFails(env, objects, live.columns[t], t, rows, i);
          return None;
        }
        if row.value != map[] { done := done + [row.value]; }
      }
      assert rows[..|rows|] == rows;
      installed := Some(done);
    }

    /** Installs every table of the snapshot beside the main ones, or none: a failure drops what was created. */
    method InstallOverlay(snapshot: Snapshot) returns (ok: bool)
      requires forall t :: t in temp ==> t !in INPUT_TABLES
      modifies this`temp
      ensures ok <==> Installable(env, objects, live.columns, snapshot)
      ensures !ok ==> temp == old(temp)
      ensures ok ==> temp.Keys == old(temp).Keys + snapshot.Keys
      ensures ok ==> forall t :: t in temp ==>
                if t in snapshot then Some(temp[t]) == InstalledRows(env, objects, live.columns[t], t, snapshot[t])
                else temp[t] == old(temp)[t]
    {
      hide InstalledRows;
      var left := snapshot.Keys;
      ghost var before := temp;
      while left != {}
        invariant left <= snapshot.Keys && temp.Keys == before.Keys + (snapshot.Keys - left)
        invariant forall t :: t in snapshot.Keys - left ==>
          && t in INPUT_TABLES && t in live.columns
          && Some(temp[t]) == InstalledRows(env, objects, live.columns[t], t, snapshot[t])
        invariant forall t :: t in before ==> temp[t] == before[t]
        decreases left
      {
        var t :| t in left;
        var rows := None;
        if t in INPUT_TABLES && t in live.columns { rows := InstallRows(t, snapshot[t]); }
        if rows == None {
          DropOverlay(snapshot.Keys - left);
          assert temp == before;
          return false;
        }
        temp := temp[t := rows.value];
        left := left - {t};
      }
      ok := true;
    }

    method DropOverlay(installed: set<string>)
      modifies this`temp
      ensures temp == old(temp) - installed
    {
      temp := temp - installed;
    }

    /** Opening a context: select the inputs and install them, or refuse and leave no temporary table. */
    method OpenInputs(q: Request) returns (ok: bool, r: Selection, tables: set<string>)
      requires Sound(env)
      modifies this`versions, this`heads, this`refs, this`objects, this`temp
      ensures !ValidRevision(q) ==> r == Refused(BadRevision) && S() == old(S())
      ensures ValidRevision(q) ==> exists archived ::
                && Archived(old(versions), old(heads), archived)
                && (S(), r) == Selected(env, live, old(S()).(versions := archived), q, exists t :: t in old(temp) && t in INPUT_TABLES)
      ensures ok <==> r.Chosen? && Decode(env, r.stored).Some? && Installable(env, objects, live.columns, Decode(env, r.stored).value)
      ensures ok ==> && r.Chosen? && Decode(env, r.stored).Some? && tables == Decode(env, r.stored).value.Keys
                     && tables <= INPUT_TABLES && temp.Keys == old(temp).Keys + tables
                     && (forall t :: t in old(temp) ==> t !in INPUT_TABLES && temp[t] == old(temp)[t])
                     && (forall t :: t in tables ==>
                           t in live.columns &&
                           Some(temp[t]) == InstalledRows(env, objects, live.columns[t], t, Decode(env, r.stored).value[t]))
      ensures !ok ==> temp == old(temp) && tables == {}
    {
      hide Sound, HasLaterRun, Decode, Select, SelectFor, InstalledRows, NamesOf, Archived;
      tables := {};
      if !ValidRevision(q) { return false, Refused(BadRevision), tables; }
      ArchiveHeads();
      assert Archived(old(versions), old(heads), versions);
      label selecting: {}
      r := SelectInputs(q);
      SelectedReads(env, live, old@selecting(S()), q, exists t :: t in temp && t in INPUT_TABLES);
      if r.Refused? { return false, r, {}; }
      var snapshot := Decode(env, r.stored).value;
      ok := InstallOverlay(snapshot);
      if ok { tables := snapshot.Keys; }
    }
  }

  lemma LaterRuns(rows: seq<RunTarget>, q: Request)
    ensures HasLaterRun(rows, ScopeOf(q)) <==> exists i, j ::
              && 0 <= i < |rows| && 0 <= j < |rows| && rows[i].run == q.run && rows[j].run != q.run && rows[j].target == rows[i].target
              && (q.target in {None, Some(""), Some("*")} || rows[i].target == q.target.value)
              && (rows[j].startedAt > rows[i].startedAt || (rows[j].startedAt == rows[i].startedAt && j > i))
  {
    if i, j :| && 0 <= i < |rows| && 0 <= j < |rows| && rows[i].run == q.run && rows[j].run != q.run && rows[j].target == rows[i].target
               && (q.target in {None, Some(""), Some("*")} || rows[i].target == q.target.value)
               && (rows[j].startedAt > rows[i].startedAt || (rows[j].startedAt == rows[i].startedAt && j > i)) {
      assert Later(rows, i, j);
    }
  }

  lemma SyncIs(refs: map<string, string>, existing: map<string, string>, prefix: string, desired: map<string, string>)
    requires existing == map key | key in refs && prefix <= key :: refs[key]
    requires forall key :: key in desired ==> prefix <= key
    ensures (refs - (existing.Keys - desired.Keys)) + desired == Sync(refs, prefix, desired)
  {
  }

  lemma SelectedReads(env: Env, live: Live, s: Store, q: Request, nested: bool)
    ensures var r := Selected(env, live, s, q, nested).1; r.Chosen? ==> !nested && Decode(env, r.stored).Some?
  {
    hide SelectFor, Decode, NamesOf;
  }

  lemma SelectSnoc(versions: seq<VersionRow>, row: VersionRow, k: Scope, revision: int)
    requires row.scope != k
    ensures Select(versions + [row], k, revision) == Select(versions, k, revision)
  {
    assert (versions + [row])[..|versions|] == versions;
  }

  lemma CasStep(rows: seq<Row>, i: nat)
    requires i < |rows|
    ensures AnyCas(rows[..i + 1]) <==> AnyCas(rows[..i]) || IsCas(rows[i])
  {
    hide IsCas;
    var was, now := rows[..i], rows[..i + 1];
    assert forall j :: 0 <= j < i ==> now[j] == was[j];
    assert now[i] == rows[i];
  }

  lemma {:induction false} FrozenFails(env: Env, files: map<string, string>, rows: seq<Row>, i: nat)
    requires i < |rows| && Frozen(env, files, rows[i]) == None && FrozenRows(env, files, rows[..i]).0.Some?
    ensures FrozenRows(env, files, rows) == (None, FrozenRows(env, files, rows[..i]).1)
  {
    if i == |rows| - 1 {
    } else {
      var init := rows[..|rows| - 1];
      assert init[..i] == rows[..i];
      FrozenFails(env, files, init, i);
    }
  }

  lemma {:induction false} DecodedFails(env: Env, heads: map<Scope, Stored>, run: string, names: seq<string>, i: nat)
    requires forall j :: 0 <= j < |names| ==> Scope(run, names[j]) in heads
    requires i < |names| && Decode(env, heads[Scope(run, names[i])]) == None
    ensures Decoded(env, heads, run, names) == None
  {
    hide Decode;
    if i < |names| - 1 { DecodedFails(env, heads, run, names[..|names| - 1], i); }
  }

  lemma {:induction false} InstallFails(env: Env, objects: set<string>, columns: set<string>, t: string, rows: seq<Row>, i: nat)
    requires i < |rows| && Installed(env, objects, columns, t, rows[i]) == None
    ensures InstalledRows(env, objects, columns, t, rows) == None
  {
    hide Installed;
    if i < |rows| - 1 { InstallFails(env, objects, columns, t, rows[..|rows| - 1], i); }
  }

  /** A database older than the version table: its heads are at revision 1 and have no version rows. */
  lemma ArchiveAdoptsOldHeads(before: seq<VersionRow>, heads: map<Scope, Stored>, after: seq<VersionRow>)
    requires Archived(before, heads, after)
    requires forall k :: k in heads ==> heads[k].revision == 1
    requires before == []
    ensures Numbered(after, heads)
  {
    forall k ensures NumberedFor(Revs(after, k), if k in heads then Some(heads[k]) else None) {
      assert Revs(after, k) == if k in heads then Revs(before, k) + [heads[k]] else Revs(before, k);
    }
  }

  /** Once every head is archived, archiving again changes nothing. */
  lemma ArchiveIsIdempotent(s: Store, after: seq<VersionRow>)
    requires Numbered(s.versions, s.heads) && Archived(s.versions, s.heads, after)
    ensures after == s.versions
  {
    forall k | k in s.heads ensures Select(s.versions, k, s.heads[k].revision).Some? {
      RevisionsAreGapless(s, k, s.heads[k].revision);
    }
  }
}
