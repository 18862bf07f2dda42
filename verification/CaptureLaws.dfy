/** What a request for inputs comes to, told by start times, positions, row contents and stored texts. */
module CaptureLaws {
  import opened ArtifactPins
  import opened InputSelection
  import opened Options
  import opened Ordering
  import opened SnapshotForm
  import opened SnapshotStore

  /** The request names no single target; "*" stands for all of them. */
  predicate AllTargets(q: Request) { q.target == None || q.target == Some("") || q.target == Some("*") }

  // ----- later runs

  /** A row of the run's target that belongs to another run and started after it, or at the same time and
      was added after it: the run is not captured any more. Without a head and without a merge the request
      is refused, and nothing is stored. */
  lemma LaterRunIsNotCaptured(env: Env, live: Live, s: Store, q: Request, nested: bool, i: nat, j: nat)
    requires i < |live.runTargets| && j < |live.runTargets|
    requires var own, other := live.runTargets[i], live.runTargets[j];
             && own.run == q.run && (AllTargets(q) || own.target == q.target.value)
             && other.run != q.run && other.target == own.target
             && (other.startedAt > own.startedAt || (other.startedAt == own.startedAt && j > i))
    ensures var (t, r) := Selected(env, live, s, q, nested);
            && (r.Chosen? ==> r.source != Capture)
            && (q.revision == None && !nested && ScopeOf(q) !in s.heads && !q.replay &&
                (q.target.Some? || MergeOf(env, live, s.heads, q.run, NamesOf(s.heads, q.run)).NoMerge?) ==>
                  (t, r) == (s, Refused(NotPreserved)))
  {
    assert HasLaterRun(live.runTargets, ScopeOf(q)) by { assert Later(live.runTargets, i, j); }
    CaptureIsLive(env, live, s, q, nested);
    hide NamesOf, MergeOf, Decode, Select, HasLaterRun, StoreOf;
  }

  /** When the rows of the run are the last of their targets, no request is refused for that reason, and a
      refresh that is no replay captures. */
  lemma LastRunIsCaptured(env: Env, live: Live, s: Store, q: Request, nested: bool)
    requires var rows := live.runTargets;
             forall i, j :: 0 <= i < |rows| && 0 <= j < |rows| && rows[i].run == q.run && (AllTargets(q) || rows[i].target == q.target.value) &&
                            rows[j].run != q.run && rows[j].target == rows[i].target ==>
               rows[j].startedAt < rows[i].startedAt || (rows[j].startedAt == rows[i].startedAt && j < i)
    ensures var (t, r) := Selected(env, live, s, q, nested);
            && r != Refused(NotPreserved)
            && (q.refresh && !q.replay && r.Chosen? ==> r.source == Capture)
            && (q.refresh && !q.replay && q.revision == None && !nested && (ScopeOf(q) in s.heads ==> Decode(env, s.heads[ScopeOf(q)]).Some?) ==>
                  r.Chosen? || r == Refused(ArtifactMissing) || r == Refused(BadSnapshot))
  {
    assert !HasLaterRun(live.runTargets, ScopeOf(q));
    hide NamesOf, MergeOf, Decode, Select, HasLaterRun, StoreOf, FrozenRows, CapturedRows;
  }

  // ----- refusals, and where the answer comes from

  lemma {:induction false} NotSelected(versions: seq<VersionRow>, k: Scope, revision: int, i: nat)
    requires i < |versions| && versions[i].scope == k && versions[i].stored.revision == revision
    ensures Select(versions, k, revision).Some?
  {
    if i < |versions| - 1 { NotSelected(versions[..|versions| - 1], k, revision, i); }
  }

  lemma {:induction false} SelectedIs(versions: seq<VersionRow>, k: Scope, revision: int)
    requires Select(versions, k, revision).Some?
    ensures exists i :: 0 <= i < |versions| && versions[i] == VersionRow(k, Select(versions, k, revision).value) &&
                        versions[i].stored.revision == revision
  {
    var n := |versions| - 1;
    if versions[n].scope == k && versions[n].stored.revision == revision {
      assert versions[n] == VersionRow(k, versions[n].stored);
    } else {
      SelectedIs(versions[..n], k, revision);
      var i :| 0 <= i < n && versions[..n][i] == VersionRow(k, Select(versions[..n], k, revision).value) && versions[..n][i].stored.revision == revision;
      assert versions[i] == versions[..n][i];
    }
  }

  /** A chosen text is of schema 2 or later, has the digest stored with it, and can be read. */
  lemma WhatIsChosenIsIntact(env: Env, live: Live, s: Store, q: Request, nested: bool)
    ensures var r := Selected(env, live, s, q, nested).1;
            r.Chosen? ==>
              && !nested && r.stored.schema >= 2 && env.digest(r.stored.payload) == r.stored.hash
              && env.parse(r.stored.payload).Some? && "entity_tags" in env.parse(r.stored.payload).value
  {
    hide SelectFor;
  }

  /** A revision is that number's row of the scope, a head the scope's; and what was asked decides which
      source may serve. */
  lemma WhatIsChosen(env: Env, live: Live, s: Store, q: Request, nested: bool)
    ensures var (t, r) := Selected(env, live, s, q, nested);
            var k := Scope(q.run, if AllTargets(q) then "*" else q.target.value);
            r.Chosen? ==>
              && (r.source == Revision <==> q.revision.Some?)
              && (q.revision.Some? ==> q.replay && t == s && r.stored.revision == q.revision.value >= 1 && VersionRow(k, r.stored) in s.versions)
              && (r.source == Head ==> t == s && k in s.heads && r.stored == s.heads[k])
              && (r.source == Merge ==> q.target == None && (k in s.heads ==> q.refresh && !q.replay))
              && (r.source == Capture ==> !q.replay && (k in s.heads ==> q.refresh))
              && (k in s.heads && !(q.refresh && !q.replay) && q.revision == None ==> r.source == Head)
  {
    hide NamesOf, MergeOf, Select, HasLaterRun, StoreOf, CaptureOf, Decode;
    CaptureSource(env, live, s, q);
    if q.revision.Some? && Select(s.versions, ScopeOf(q), q.revision.value).Some? {
      SelectedIs(s.versions, ScopeOf(q), q.revision.value);
    }
  }

  /** The refusals that come before anything is read, and that of a revision or a replay without a row. */
  lemma WhyRefused(env: Env, live: Live, s: Store, q: Request, nested: bool)
    ensures var r := Selected(env, live, s, q, nested).1;
            var k := Scope(q.run, if AllTargets(q) then "*" else q.target.value);
            var bad := q.revision.Some? && (!q.replay || q.revision.value < 1);
            && (r == Refused(BadRevision) <==> bad)
            && (r == Refused(InputSelection.Nested) <==> !bad && nested)
            && (r == Refused(NoSuchRevision) <==>
                  && !bad && !nested && q.revision.Some?
                  && forall v :: v in s.versions && v.scope == k ==> v.stored.revision != q.revision.value)
            && (r == Refused(NoSnapshot) <==>
                  && !bad && !nested && q.revision == None && q.replay && k !in s.heads
                  && (q.target == None ==> MergeOf(env, live, s.heads, q.run, NamesOf(s.heads, q.run)).NoMerge?))
  {
    CaptureFaults(env, live, s, q);
    var k := ScopeOf(q);
    if q.revision.Some? {
      if Select(s.versions, k, q.revision.value).Some? {
        SelectedIs(s.versions, k, q.revision.value);
      } else {
        forall v | v in s.versions && v.scope == k ensures v.stored.revision != q.revision.value {
          var i :| 0 <= i < |s.versions| && s.versions[i] == v;
          if v.stored.revision == q.revision.value { NotSelected(s.versions, k, q.revision.value, i); }
        }
      }
    }
    hide NamesOf, MergeOf, Decode, Select, HasLaterRun, StoreOf, CaptureOf;
  }

  lemma CaptureFaults(env: Env, live: Live, s: Store, q: Request)
    ensures var r := CaptureOf(env, live, s, q).1; r.Refused? ==> r.fault == NotPreserved || r.fault == ArtifactMissing
  {
    hide HasLaterRun, StoreOf, FrozenRows, CapturedRows;
  }

  // ----- what a capture holds

  /** Of the tags only those of alerts, assets and endpoints. */
  predicate Relevant(t: string, r: Row) {
    t == "entity_tags" ==>
      "entity_type" in r && (r["entity_type"] == "alert" || r["entity_type"] == "asset" || r["entity_type"] == "endpoint")
  }

  /** The rows a capture takes from a table: those of the named target, where the table has targets. */
  predicate Wanted(live: Live, q: Request, t: string, r: Row)
    requires t in live.columns
  {
    && Relevant(t, r)
    && (q.target == None || q.target == Some("") || "target" !in live.columns[t] || ("target" in r && r["target"] == q.target.value))
  }

  lemma CapturedIsWanted(live: Live, q: Request, t: string, r: Row)
    requires t in INPUT_TABLES && t in live.columns && t in live.tables
    ensures t in CapturedRows(live, Only(q))
    ensures multiset(CapturedRows(live, Only(q))[t])[r] == if Wanted(live, q, t, r) then multiset(live.tables[t])[r] else 0
  {
    FilterCount(Captured(live, Only(q), t), live.tables[t], r);
    hide Filter;
  }

  lemma StoredText(env: Env, s: Store, k: Scope, snapshot: Snapshot)
    requires Sound(env) && StoreOf(env, s, k, snapshot).1.Some?
    ensures env.parse(StoreOf(env, s, k, snapshot).1.value.payload) == Some(Canonical(env, snapshot))
  {
    assert env.parse(env.render(Canonical(env, snapshot))) == Some(Canonical(env, snapshot));
    hide Canonical, PinFor, MaxRevision;
  }

  lemma CaptureStores(env: Env, live: Live, s: Store, q: Request)
    requires Sound(env) && CaptureOf(env, live, s, q).1.Chosen?
    ensures var rows := CapturedRows(live, Only(q));
            && FrozenRows(env, live.files, JsRows(rows)).0.Some?
            && env.parse(CaptureOf(env, live, s, q).1.stored.payload) == Some(Canonical(env, FrozenSnapshot(env, live.files, rows)))
  {
    hide Sound, HasLaterRun, CapturedRows, FrozenRows, StoreOf, Canonical;
    var rows := CapturedRows(live, Only(q));
    var (frozen, objects) := FrozenRows(env, live.files, JsRows(rows));
    StoredText(env, s.(objects := s.objects + objects), ScopeOf(q), FrozenSnapshot(env, live.files, rows));
  }

  lemma CaptureSelected(env: Env, live: Live, s: Store, q: Request, nested: bool)
    requires Selected(env, live, s, q, nested).1.Chosen? && Selected(env, live, s, q, nested).1.source == Capture
    ensures Selected(env, live, s, q, nested) == CaptureOf(env, live, s, q)
  {
    hide NamesOf, MergeOf, Decode, Select, HasLaterRun, StoreOf, CaptureOf;
  }

  lemma ScriptRows(env: Env, live: Live, q: Request)
    requires FrozenRows(env, live.files, JsRows(CapturedRows(live, Only(q)))).0.Some?
    ensures var rows := CapturedRows(live, Only(q));
            "js_files" in rows ==>
              && |FrozenSnapshot(env, live.files, rows)["js_files"]| == |rows["js_files"]|
              && forall i :: 0 <= i < |rows["js_files"]| ==>
                   FrozenSnapshot(env, live.files, rows)["js_files"][i] == FrozenScript(env, live, rows["js_files"][i])
  {
    hide CapturedRows;
    var rows := CapturedRows(live, Only(q));
    FrozenIs(env, live.files, JsRows(rows));
    hide FrozenRows;
  }

  /** The row with the digest of the file its path names in the place of the path. */
  function FrozenScript(env: Env, live: Live, r: Row): Row {
    var path := if "blob_path" in r then env.strip(r["blob_path"]) else env.strip("");
    if path in live.files && path != "" then r["blob_path" := "cas:" + env.content(live.files[path])] else r
  }

  lemma {:induction false} TableHeld(env: Env, live: Live, q: Request, t: string, r: Row)
    requires FrozenRows(env, live.files, JsRows(CapturedRows(live, Only(q)))).0.Some?
    requires t in INPUT_TABLES && t in live.columns && t in live.tables && t != "js_files"
    ensures var held := Canonical(env, FrozenSnapshot(env, live.files, CapturedRows(live, Only(q))));
            t in held && multiset(held[t])[r] == if Wanted(live, q, t, r) then multiset(live.tables[t])[r] else 0
  {
    hide FrozenRows, CapturedRows, Wanted;
    CapturedIsWanted(live, q, t, r);
    SortPermutes(RowKey(env), CapturedRows(live, Only(q))[t]);
  }

  lemma {:induction false} ScriptHeld(env: Env, live: Live, q: Request, r: Row)
    requires FrozenRows(env, live.files, JsRows(CapturedRows(live, Only(q)))).0.Some?
    requires "js_files" in live.columns && "js_files" in live.tables
    requires r in live.tables["js_files"] && Wanted(live, q, "js_files", r)
    ensures var held := Canonical(env, FrozenSnapshot(env, live.files, CapturedRows(live, Only(q))));
            "js_files" in held && FrozenScript(env, live, r) in held["js_files"]
  {
    assert "js_files" in INPUT_TABLES;
    hide FrozenRows, CapturedRows, Wanted, FrozenScript;
    CapturedIsWanted(live, q, "js_files", r);
    ScriptRows(env, live, q);
    var rows := CapturedRows(live, Only(q));
    var frozen := FrozenSnapshot(env, live.files, rows)["js_files"];
    assert r in multiset(rows["js_files"]);
    var i :| 0 <= i < |rows["js_files"]| && rows["js_files"][i] == r;
    assert frozen[i] in multiset(frozen);
    SortPermutes(RowKey(env), frozen);
    assert frozen[i] in multiset(SortBy(RowKey(env), frozen));
  }

  lemma TablesHeld(env: Env, live: Live, q: Request)
    requires FrozenRows(env, live.files, JsRows(CapturedRows(live, Only(q)))).0.Some?
    ensures forall t :: t in Canonical(env, FrozenSnapshot(env, live.files, CapturedRows(live, Only(q)))) <==>
                        t in INPUT_TABLES && t in live.columns && t in live.tables
  {
    hide FrozenRows;
  }

  /** What is stored by a capture: of every input table that exists exactly the wanted rows, as often as they
      occur; script rows with the digests of their files. */
  lemma {:induction false} WhatACaptureHolds(env: Env, live: Live, s: Store, q: Request, nested: bool, t: string, r: Row)
    requires Sound(env)
    requires Selected(env, live, s, q, nested).1.Chosen? && Selected(env, live, s, q, nested).1.source == Capture
    ensures var held := env.parse(Selected(env, live, s, q, nested).1.stored.payload);
            && held.Some?
            && (t in held.value <==> t in INPUT_TABLES && t in live.columns && t in live.tables)
            && (t in held.value && t != "js_files" ==>
                  multiset(held.value[t])[r] == if Wanted(live, q, t, r) then multiset(live.tables[t])[r] else 0)
            && ("js_files" in held.value && r in live.tables["js_files"] && Wanted(live, q, "js_files", r) ==>
                  FrozenScript(env, live, r) in held.value["js_files"])
  {
    CaptureSelected(env, live, s, q, nested);
    hide Selected, CaptureOf, FrozenRows, Sound, FrozenScript, CapturedRows, Canonical, FrozenSnapshot, Wanted;
    CaptureStores(env, live, s, q);
    TablesHeld(env, live, q);
    if t in INPUT_TABLES && t in live.columns && t in live.tables && t != "js_files" { TableHeld(env, live, q, t, r); }
    if "js_files" in live.columns && "js_files" in live.tables && r in live.tables["js_files"] && Wanted(live, q, "js_files", r) {
      ScriptHeld(env, live, q, r);
    }
  }

  // ----- what a merge holds

  ghost predicate PartHolds(env: Env, heads: map<Scope, Stored>, run: string, k: Scope, t: string, r: Row) {
    && k in heads && k.run == run && k.target != "*" && Decode(env, heads[k]).Some?
    && t in Decode(env, heads[k]).value && r in Decode(env, heads[k]).value[t]
  }

  ghost predicate HeldBySome(env: Env, heads: map<Scope, Stored>, run: string, t: string, r: Row) {
    exists k :: PartHolds(env, heads, run, k, t, r)
  }

  lemma NamesAreParts(heads: map<Scope, Stored>, run: string)
    ensures forall n :: n in NamesOf(heads, run) <==> Scope(run, n) in heads && n != "*"
  {
    forall n ensures n in PartTargets(heads, run) <==> Scope(run, n) in heads && n != "*" {
      if n in PartTargets(heads, run) {
        var k :| k in heads && k.run == run && k.target != "*" && k.target == n;
        assert k == Scope(run, n);
      }
      if Scope(run, n) in heads && n != "*" { assert Scope(run, n).target == n; }
    }
    hide PartTargets;
  }

  lemma ExpectedAre(live: Live, run: string)
    ensures forall e :: e in Expected(live.runTargets, run) <==>
                        exists i :: 0 <= i < |live.runTargets| && live.runTargets[i].run == run && live.runTargets[i].target == e
  {
  }

  lemma Covered(live: Live, heads: map<Scope, Stored>, run: string)
    ensures (forall e :: e in Expected(live.runTargets, run) ==> e in NamesOf(heads, run)) <==>
            !exists i :: 0 <= i < |live.runTargets| && live.runTargets[i].run == run &&
                         (live.runTargets[i].target == "*" || Scope(run, live.runTargets[i].target) !in heads)
  {
    NamesAreParts(heads, run);
    ExpectedAre(live, run);
    hide Expected, NamesOf;
    if i :| 0 <= i < |live.runTargets| && live.runTargets[i].run == run &&
            (live.runTargets[i].target == "*" || Scope(run, live.runTargets[i].target) !in heads) {
      assert live.runTargets[i].target in Expected(live.runTargets, run);
    }
  }

  lemma {:induction false} UnreadablePart(env: Env, heads: map<Scope, Stored>, run: string, names: seq<string>)
    requires forall n :: n in names ==> Scope(run, n) in heads && n != "*"
    requires Decoded(env, heads, run, names) == None
    ensures exists k :: k in heads && k.run == run && k.target != "*" && Decode(env, heads[k]) == None
  {
    hide Decode;
    var init, last := names[..|names| - 1], names[|names| - 1];
    assert last in names;
    assert Scope(run, last).run == run && Scope(run, last).target == last;
    if Decode(env, heads[Scope(run, last)]) != None { UnreadablePart(env, heads, run, init); }
  }

  lemma PartsOf(env: Env, heads: map<Scope, Stored>, run: string, names: seq<string>, parts: seq<Snapshot>)
    requires forall n :: n in names <==> Scope(run, n) in heads && n != "*"
    requires |parts| == |names| && forall i :: 0 <= i < |names| ==> Decode(env, heads[Scope(run, names[i])]) == Some(parts[i])
    ensures forall k :: k in heads && k.run == run && k.target != "*" ==> Decode(env, heads[k]).Some?
    ensures KnownTables(parts) <==> forall k :: k in heads && k.run == run && k.target != "*" ==> Decode(env, heads[k]).value.Keys <= INPUT_TABLES
    ensures forall t, r :: InSomePart(parts, t, r) <==> HeldBySome(env, heads, run, t, r)
  {
    hide Decode;
    forall k | k in heads && k.run == run && k.target != "*"
      ensures exists i :: 0 <= i < |parts| && k == Scope(run, names[i]) && Decode(env, heads[k]) == Some(parts[i])
    {
      assert k == Scope(run, k.target);
      var i :| 0 <= i < |names| && names[i] == k.target;
    }
    forall i | 0 <= i < |parts|
      ensures Scope(run, names[i]) in heads && names[i] != "*" && Decode(env, heads[Scope(run, names[i])]) == Some(parts[i])
    {
      assert names[i] in names;
    }
    if forall k :: k in heads && k.run == run && k.target != "*" ==> Decode(env, heads[k]).value.Keys <= INPUT_TABLES {
      forall i | 0 <= i < |parts| ensures parts[i].Keys <= INPUT_TABLES {
        assert Scope(run, names[i]).run == run && Scope(run, names[i]).target == names[i];
      }
    }
    forall t, r ensures InSomePart(parts, t, r) <==> HeldBySome(env, heads, run, t, r) {
      if InSomePart(parts, t, r) {
        var i :| 0 <= i < |parts| && t in parts[i] && r in parts[i][t];
        assert PartHolds(env, heads, run, Scope(run, names[i]), t, r);
      }
      if k :| PartHolds(env, heads, run, k, t, r) {
        var i :| 0 <= i < |parts| && k == Scope(run, names[i]) && Decode(env, heads[k]) == Some(parts[i]);
      }
    }
  }

  lemma UnionHolds(env: Env, heads: map<Scope, Stored>, run: string, parts: seq<Snapshot>)
    requires forall t, r :: InSomePart(parts, t, r) <==> HeldBySome(env, heads, run, t, r)
    ensures forall t, r :: t in Union(parts) && r in Union(parts)[t] <==>
              Relevant(t, r) && HeldBySome(env, heads, run, t, r)
  {
    MergeIsUnion(parts);
    hide Union, HeldBySome;
    forall t, r ensures InSomePart(parts, t, r) ==> t in Union(parts) {
      if InSomePart(parts, t, r) {
        var i :| 0 <= i < |parts| && t in parts[i] && r in parts[i][t];
        assert TableSomewhere(parts, t);
      }
    }
    hide InSomePart;
    forall t: string, r: Row ensures Kept(t, r) <==> Relevant(t, r) { }
    hide Kept, Relevant;
    forall t, r ensures t in Union(parts) && r in Union(parts)[t] <==> Relevant(t, r) && HeldBySome(env, heads, run, t, r) {
      if t in Union(parts) { assert r in Union(parts)[t] <==> Kept(t, r) && InSomePart(parts, t, r); }
    }
  }

  /** A run's target snapshots are merged, when there are any, if and only if every target of the run has one
      and all of them can be read and hold known tables only; the merge then holds a row of a table exactly
      when some snapshot does and it is no tag of another kind. */
  lemma WhatAMergeHolds(env: Env, live: Live, heads: map<Scope, Stored>, run: string)
    ensures var m := MergeOf(env, live, heads, run, NamesOf(heads, run));
            && (m.NoMerge? <==>
                  || (forall k :: k in heads && k.run == run ==> k.target == "*")
                  || (exists i :: 0 <= i < |live.runTargets| && live.runTargets[i].run == run &&
                        (live.runTargets[i].target == "*" || Scope(run, live.runTargets[i].target) !in heads)))
            && (m.Merged? ==>
                  && (forall k :: k in heads && k.run == run && k.target != "*" ==>
                        Decode(env, heads[k]).Some? && Decode(env, heads[k]).value.Keys <= INPUT_TABLES)
                  && (forall t, r :: t in m.snapshot && r in m.snapshot[t] <==>
                        Relevant(t, r) && HeldBySome(env, heads, run, t, r)))
            && (m.MergeFails? ==>
                  exists k :: k in heads && k.run == run && k.target != "*" &&
                    (Decode(env, heads[k]) == None || !(Decode(env, heads[k]).value.Keys <= INPUT_TABLES)))
  {
    hide Expected, Decode, Decoded, Union, KnownTables, PartHolds, HeldBySome, Relevant, NamesOf;
    Covered(live, heads, run);
    var names := NamesOf(heads, run);
    NamesAreParts(heads, run);
    NoParts(heads, run, names);
    var m := MergeOf(env, live, heads, run, names);
    if !m.NoMerge? {
      DecodedAre(env, heads, run, names);
      if Decoded(env, heads, run, names) == None {
        UnreadablePart(env, heads, run, names);
      } else {
        PartsOf(env, heads, run, names, Decoded(env, heads, run, names).value);
        UnionHolds(env, heads, run, Decoded(env, heads, run, names).value);
      }
    }
  }

  lemma NoParts(heads: map<Scope, Stored>, run: string, names: seq<string>)
    requires forall n :: n in names <==> Scope(run, n) in heads && n != "*"
    ensures names == [] <==> forall k :: k in heads && k.run == run ==> k.target == "*"
  {
    if names != [] {
      assert names[0] in names;
      assert Scope(run, names[0]).target != "*";
    } else {
      forall k | k in heads && k.run == run ensures k.target == "*" { assert k == Scope(run, k.target); }
    }
  }

  // ----- what is installed

  /** A script row is installed with the path of a stored object, and without a path when it has none; every
      other row as it was stored. */
  predicate InstalledFrom(env: Env, objects: set<string>, t: string, r: Row, installed: Row) {
    && installed.Keys == r.Keys
    && (forall column :: column in r && !(t == "js_files" && column == "blob_path") ==> installed[column] == r[column])
    && (t == "js_files" && "blob_path" in r ==> InstalledPath(env, objects, r["blob_path"], installed["blob_path"]))
  }

  predicate InstalledPath(env: Env, objects: set<string>, stored: string, installed: string) {
    if stored == "" || env.strip(stored) == "" then installed == ""
    else if "cas:" <= env.strip(stored) then
      var digest := env.norm(env.strip(stored)[4..]); digest in objects && installed == env.path(digest)
    else env.early(env.strip(stored)) == Some(installed)
  }

  lemma OneInstalled(env: Env, objects: set<string>, columns: set<string>, t: string, r: Row)
    ensures var row := Installed(env, objects, columns, t, r);
            row.Some? ==> r.Keys <= columns && InstalledFrom(env, objects, t, r, row.value)
  {
  }

  /** The installed rows are, in order, those of the rows that have columns; `from` says which. */
  predicate InstalledInOrder(env: Env, objects: set<string>, t: string, rows: seq<Row>, installed: seq<Row>, from: seq<nat>) {
    && |from| == |installed|
    && (forall i :: 0 <= i < |from| ==> from[i] < |rows| && rows[from[i]] != map[])
    && (forall i, j :: 0 <= i < j < |from| ==> from[i] < from[j])
    && (forall j :: 0 <= j < |rows| && rows[j] != map[] ==> j in from)
    && (forall i :: 0 <= i < |from| ==> InstalledFrom(env, objects, t, rows[from[i]], installed[i]))
  }

  lemma OneMoreRow(env: Env, objects: set<string>, t: string, rows: seq<Row>, row: Row, installed: seq<Row>, last: Row, from: seq<nat>)
    requires InstalledInOrder(env, objects, t, rows, installed, from)
    ensures row == map[] ==> InstalledInOrder(env, objects, t, rows + [row], installed, from)
    ensures row != map[] && InstalledFrom(env, objects, t, row, last) ==>
              InstalledInOrder(env, objects, t, rows + [row], installed + [last], from + [|rows|])
  {
    hide InstalledFrom;
  }

  /** A table is installed row by row, and only when all columns still exist. */
  lemma {:induction false} WhatIsInstalled(env: Env, objects: set<string>, columns: set<string>, t: string, rows: seq<Row>) returns (from: seq<nat>)
    requires InstalledRows(env, objects, columns, t, rows).Some?
    ensures InstalledInOrder(env, objects, t, rows, InstalledRows(env, objects, columns, t, rows).value, from)
    ensures forall j :: 0 <= j < |rows| ==> rows[j].Keys <= columns
  {
    hide Installed, InstalledFrom;
    from := [];
    if rows != [] {
      var n := |rows| - 1;
      from := WhatIsInstalled(env, objects, columns, t, rows[..n]);
      hide InstalledInOrder;
      var last := Installed(env, objects, columns, t, rows[n]).value;
      OneInstalled(env, objects, columns, t, rows[n]);
      SameColumns(env, objects, t, rows[n], last);
      OneMoreRow(env, objects, t, rows[..n], rows[n], InstalledRows(env, objects, columns, t, rows[..n]).value, last, from);
      assert rows[..n] + [rows[n]] == rows;
      if rows[n] != map[] { from := from + [n]; }
    }
  }

  lemma SameColumns(env: Env, objects: set<string>, t: string, r: Row, installed: Row)
    requires InstalledFrom(env, objects, t, r, installed)
    ensures installed == map[] <==> r == map[]
  {
    assert r == map[] <==> r.Keys == {};
    assert installed == map[] <==> installed.Keys == {};
  }
}
