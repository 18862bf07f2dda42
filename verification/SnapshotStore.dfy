/** Revisions of analysis inputs: an append-only version table, a head per scope, and pinned artifacts.

    Storing a snapshot takes three steps: the head is compared, a first transaction pins the artifacts,
    a second inserts the version and moves the head. Between them any other client may compare, pin,
    commit, fail or collect unreferenced objects, so the runs below interleave these steps of any
    number of clients. */
module SnapshotStore {
  import opened ArtifactPins
  import opened Options
  import opened SnapshotForm

  datatype Stored = Stored(revision: int, payload: string, hash: string, schema: int)

  datatype VersionRow = VersionRow(scope: Scope, stored: Stored)

  /** What a client has found to be news, and what it has pinned and not yet committed. */
  datatype Pending = News(scope: Scope, snapshot: Snapshot) | Pinned(scope: Scope, payload: string, hash: string)

  /** `refs` are the references of this owner kind, `others` the objects other kinds refer to. */
  datatype Store = Store(versions: seq<VersionRow>, heads: map<Scope, Stored>, refs: map<string, string>,
                         others: set<string>, objects: set<string>, pending: map<nat, Pending>)

  datatype Step =
    | Check(client: nat, scope: Scope, snapshot: Snapshot)
    | PinArtifacts(client: nat)
    | Commit(client: nat)
    | Abort(client: nat)
    | Put(digest: string)
    | ReferElsewhere(digests: set<string>)
    | Collect(digest: string)

  function Revs(versions: seq<VersionRow>, k: Scope): seq<Stored> {
    if versions == [] then []
    else
      var init, last := versions[..|versions| - 1], versions[|versions| - 1];
      if last.scope == k then Revs(init, k) + [last.stored] else Revs(init, k)
  }

  /** `COALESCE(MAX(revision),0)`. */
  function MaxRevision(versions: seq<VersionRow>, k: Scope): int {
    if versions == [] then 0
    else
      var init, last := MaxRevision(versions[..|versions| - 1], k), versions[|versions| - 1];
      if last.scope == k && last.stored.revision > init then last.stored.revision else init
  }

  function Select(versions: seq<VersionRow>, k: Scope, revision: int): Option<Stored> {
    if versions == [] then None
    else
      var last := versions[|versions| - 1];
      if last.scope == k && last.stored.revision == revision then Some(last.stored)
      else Select(versions[..|versions| - 1], k, revision)
  }

  function Payload(env: Env, s: Snapshot): string { env.render(Canonical(env, s)) }

  function PinFor(env: Env, s: Store, k: Scope, snapshot: Snapshot): Option<map<string, string>> {
    Pin(env, s.refs, s.objects, OwnerPrefix(k, env.digest(Payload(env, snapshot))), JsRows(Canonical(env, snapshot)))
  }

  function NewVersion(s: Store, p: Pending): Stored
    requires p.Pinned?
  {
    Stored(MaxRevision(s.versions, p.scope) + 1, p.payload, p.hash, SCHEMA_VERSION)
  }

  function PinnedFor(env: Env, k: Scope, snapshot: Snapshot): Pending {
    Pinned(k, Payload(env, snapshot), env.digest(Payload(env, snapshot)))
  }

  predicate Referenced(s: Store, digest: string) {
    digest in s.others || exists key :: key in s.refs && s.refs[key] == digest
  }

  predicate Enabled(s: Store, step: Step) {
    match step
    case Check(c, _, _) => c !in s.pending
    case PinArtifacts(c) => c in s.pending && s.pending[c].News?
    case Commit(c) => c in s.pending && s.pending[c].Pinned?
    case Abort(c) => c in s.pending
    case _ => true
  }

  function Apply(env: Env, s: Store, step: Step): Store
    requires Enabled(s, step)
  {
    match step
    case Check(c, k, snapshot) =>
      if k in s.heads && s.heads[k].payload == Payload(env, snapshot) then s
      else s.(pending := s.pending[c := News(k, snapshot)])
    case PinArtifacts(c) =>
      var k, snapshot := s.pending[c].scope, s.pending[c].snapshot;
      (match PinFor(env, s, k, snapshot)
       case None => s.(pending := s.pending - {c})
       case Some(refs) => s.(refs := refs, pending := s.pending[c := PinnedFor(env, k, snapshot)]))
    case Commit(c) =>
      var p := s.pending[c];
      var stored := NewVersion(s, p);
      s.(versions := s.versions + [VersionRow(p.scope, stored)], heads := s.heads[p.scope := stored], pending := s.pending - {c})
    case Abort(c) => s.(pending := s.pending - {c})
    case Put(digest) => s.(objects := s.objects + {digest})
    case ReferElsewhere(digests) => s.(others := digests * s.objects)
    case Collect(digest) => if Referenced(s, digest) then s else s.(objects := s.objects - {digest})
  }

  // ----- the invariant

  ghost predicate Numbered(versions: seq<VersionRow>, heads: map<Scope, Stored>) {
    forall k :: NumberedFor(Revs(versions, k), if k in heads then Some(heads[k]) else None)
  }

  ghost predicate NumberedFor(revs: seq<Stored>, head: Option<Stored>) {
    && (forall i :: 0 <= i < |revs| ==> revs[i].revision == i + 1)
    && head == if revs == [] then None else Some(revs[|revs| - 1])
  }

  ghost predicate SealedAndPinned(env: Env, refs: map<string, string>, k: Scope, payload: string, hash: string) {
    && hash == env.digest(payload) && env.parse(payload).Some?
    && PinnedRows(env, refs, OwnerPrefix(k, hash), JsRows(env.parse(payload).value))
  }

  ghost predicate VersionsPinned(env: Env, s: Store) {
    forall i :: 0 <= i < |s.versions| ==>
      var v := s.versions[i];
      SealedAndPinned(env, s.refs, v.scope, v.stored.payload, v.stored.hash) && v.stored.schema == SCHEMA_VERSION
  }

  ghost predicate PendingPinned(env: Env, s: Store) {
    forall c :: c in s.pending && s.pending[c].Pinned? ==> SealedAndPinned(env, s.refs, s.pending[c].scope, s.pending[c].payload, s.pending[c].hash)
  }

  ghost predicate RefsExist(s: Store) { forall key :: key in s.refs ==> s.refs[key] in s.objects }

  ghost predicate ScopesIn(names: iset<Scope>, s: Store) {
    && (forall i :: 0 <= i < |s.versions| ==> s.versions[i].scope in names)
    && (forall c :: c in s.pending ==> s.pending[c].scope in names)
  }

  /** For stores whose scopes are among names that do not nest. */
  ghost predicate Inv(env: Env, names: iset<Scope>, s: Store) {
    && Apart(names) && ScopesIn(names, s)
    && Numbered(s.versions, s.heads) && VersionsPinned(env, s) && PendingPinned(env, s) && RefsExist(s)
  }

  lemma RevsSnoc(versions: seq<VersionRow>, row: VersionRow, k: Scope)
    ensures Revs(versions + [row], k) == if row.scope == k then Revs(versions, k) + [row.stored] else Revs(versions, k)
  {
    assert (versions + [row])[..|versions|] == versions;
  }

  lemma {:induction false} MaxRevisionIs(versions: seq<VersionRow>, k: Scope)
    requires forall i :: 0 <= i < |Revs(versions, k)| ==> Revs(versions, k)[i].revision == i + 1
    ensures MaxRevision(versions, k) == |Revs(versions, k)|
  {
    if versions != [] {
      var init, last := versions[..|versions| - 1], versions[|versions| - 1];
      var was, now := Revs(init, k), Revs(versions, k);
      assert forall i :: 0 <= i < |was| ==> was[i] == now[i];
      MaxRevisionIs(init, k);
      if last.scope == k { assert now[|was|] == last.stored; }
    }
  }

  lemma CommitNumbers(env: Env, s: Store, c: nat)
    requires Numbered(s.versions, s.heads) && c in s.pending && s.pending[c].Pinned?
    ensures var t := Apply(env, s, Commit(c)); Numbered(t.versions, t.heads)
  {
    hide Revs, MaxRevision;
    var p := s.pending[c];
    var t := Apply(env, s, Commit(c));
    var stored := NewVersion(s, p);
    assert NumberedFor(Revs(s.versions, p.scope), if p.scope in s.heads then Some(s.heads[p.scope]) else None);
    MaxRevisionIs(s.versions, p.scope);
    forall k ensures NumberedFor(Revs(t.versions, k), if k in t.heads then Some(t.heads[k]) else None) {
      RevsSnoc(s.versions, VersionRow(p.scope, stored), k);
      assert NumberedFor(Revs(s.versions, k), if k in s.heads then Some(s.heads[k]) else None);
    }
  }

  /** Pinning a new payload leaves the pins of any sealed payload in place. */
  lemma SealSurvivesPin(env: Env, s: Store, k: Scope, snapshot: Snapshot, k': Scope, payload': string, hash': string)
    requires Sound(env) && !Nested(k, k') && !Nested(k', k) && RefsExist(s) && PinFor(env, s, k, snapshot).Some?
    requires SealedAndPinned(env, s.refs, k', payload', hash')
    ensures SealedAndPinned(env, PinFor(env, s, k, snapshot).value, k', payload', hash')
  {
    var hash := env.digest(Payload(env, snapshot));
    if OwnerPrefix(k, hash) == OwnerPrefix(k', hash') {
      SharedKey(k, hash, k', hash', OwnerPrefix(k, hash));
    }
    hide Pin, PinnedRows, OwnerPrefix, Canonical, OneLine, JsRows, Nested;
    var canon := Canonical(env, snapshot);
    if OwnerPrefix(k, hash) == OwnerPrefix(k', hash') {
      assert payload' == env.render(canon) && env.parse(payload') == Some(canon);
      PinPins(env, s.refs, s.objects, OwnerPrefix(k, hash), JsRows(canon));
    } else {
      PinSeparates(env, s.refs, s.objects, k, hash, JsRows(canon), k', hash', JsRows(env.parse(payload').value));
    }
  }

  lemma PinSeals(env: Env, s: Store, k: Scope, snapshot: Snapshot)
    requires Sound(env) && RefsExist(s) && PinFor(env, s, k, snapshot).Some?
    ensures var refs, payload := PinFor(env, s, k, snapshot).value, Payload(env, snapshot);
            SealedAndPinned(env, refs, k, payload, env.digest(payload)) && RefsExist(s.(refs := refs))
  {
    hide Pin, PinnedRows, OwnerPrefix, Canonical, JsRows;
    var canon := Canonical(env, snapshot);
    assert env.parse(Payload(env, snapshot)) == Some(canon);
    PinPins(env, s.refs, s.objects, OwnerPrefix(k, env.digest(Payload(env, snapshot))), JsRows(canon));
  }

  lemma {:induction false} PinKeepsInv(env: Env, names: iset<Scope>, s: Store, c: nat)
    requires Sound(env) && Inv(env, names, s) && Enabled(s, PinArtifacts(c))
    ensures Inv(env, names, Apply(env, s, PinArtifacts(c)))
  {
    hide Pin, PinnedRows, OwnerPrefix, Canonical, JsRows, SealedAndPinned, Sound, Numbered, Nested;
    var k, snapshot := s.pending[c].scope, s.pending[c].snapshot;
    var t := Apply(env, s, PinArtifacts(c));
    if PinFor(env, s, k, snapshot).Some? {
      PinSeals(env, s, k, snapshot);
      forall i | 0 <= i < |s.versions|
        ensures var v := s.versions[i]; SealedAndPinned(env, t.refs, v.scope, v.stored.payload, v.stored.hash)
      {
        SealSurvivesPin(env, s, k, snapshot, s.versions[i].scope, s.versions[i].stored.payload, s.versions[i].stored.hash);
      }
      forall d | d in s.pending && s.pending[d].Pinned?
        ensures SealedAndPinned(env, t.refs, s.pending[d].scope, s.pending[d].payload, s.pending[d].hash)
      {
        SealSurvivesPin(env, s, k, snapshot, s.pending[d].scope, s.pending[d].payload, s.pending[d].hash);
      }
    }
  }

  lemma CommitKeepsInv(env: Env, names: iset<Scope>, s: Store, c: nat)
    requires Inv(env, names, s) && Enabled(s, Commit(c))
    ensures Inv(env, names, Apply(env, s, Commit(c))) && s.versions <= Apply(env, s, Commit(c)).versions
  {
    CommitNumbers(env, s, c);
    hide Numbered, SealedAndPinned, MaxRevision;
    var t := Apply(env, s, Commit(c));
    forall i | 0 <= i < |t.versions|
      ensures var v := t.versions[i];
              SealedAndPinned(env, t.refs, v.scope, v.stored.payload, v.stored.hash) && v.stored.schema == SCHEMA_VERSION
    {
      if i < |s.versions| { assert t.versions[i] == s.versions[i]; }
    }
  }

  lemma PendingKeepsInv(env: Env, names: iset<Scope>, s: Store, step: Step)
    requires Inv(env, names, s) && Enabled(s, step) && (step.Check? || step.Abort?)
    requires step.Check? ==> step.scope in names
    ensures Inv(env, names, Apply(env, s, step))
  {
    hide Numbered, SealedAndPinned, Payload, Apart;
  }

  // The object store changes, and no object with an owner goes.
  lemma ObjectsKeepInv(env: Env, names: iset<Scope>, s: Store, step: Step)
    requires Inv(env, names, s) && (step.Put? || step.ReferElsewhere? || step.Collect?)
    ensures Inv(env, names, Apply(env, s, step)) && Apply(env, s, step).versions == s.versions
  {
    hide Numbered, SealedAndPinned;
    var t := Apply(env, s, step);
    assert t == s.(others := t.others, objects := t.objects);
    forall key | key in s.refs ensures s.refs[key] in t.objects {
      if step.Collect? { assert s.refs[key] == step.digest ==> Referenced(s, step.digest); }
    }
  }

  lemma {:induction false} StepKeepsInv(env: Env, names: iset<Scope>, s: Store, step: Step)
    requires Sound(env) && Inv(env, names, s) && Enabled(s, step) && (step.Check? ==> step.scope in names)
    ensures Inv(env, names, Apply(env, s, step)) && s.versions <= Apply(env, s, step).versions
  {
    hide Inv, Sound, PinFor, Payload, Referenced;
    match step
    case PinArtifacts(c) => PinKeepsInv(env, names, s, c);
    case Commit(c) => CommitKeepsInv(env, names, s, c);
    case Check(_, _, _) => PendingKeepsInv(env, names, s, step);
    case Abort(_) => PendingKeepsInv(env, names, s, step);
    case _ => ObjectsKeepInv(env, names, s, step);
  }

  // ----- runs

  ghost predicate Runs(env: Env, s: Store, steps: seq<Step>)
    decreases |steps|
  {
    steps == [] || (Enabled(s, steps[0]) && Runs(env, Apply(env, s, steps[0]), steps[1..]))
  }

  ghost function After(env: Env, s: Store, steps: seq<Step>): Store
    requires Runs(env, s, steps)
    decreases |steps|
  {
    if steps == [] then s else After(env, Apply(env, s, steps[0]), steps[1..])
  }

  ghost predicate StoresUnder(names: iset<Scope>, steps: seq<Step>) {
    forall i :: 0 <= i < |steps| && steps[i].Check? ==> steps[i].scope in names
  }

  /** In every interleaving of stores under names that do not nest, the invariant holds, and no stored
      version ever changes or disappears. */
  lemma {:induction false} RunKeepsInv(env: Env, names: iset<Scope>, s: Store, steps: seq<Step>)
    requires Sound(env) && Inv(env, names, s) && Runs(env, s, steps) && StoresUnder(names, steps)
    ensures Inv(env, names, After(env, s, steps)) && s.versions <= After(env, s, steps).versions
    decreases |steps|
  {
    if steps != [] {
      StepKeepsInv(env, names, s, steps[0]);
      RunKeepsInv(env, names, Apply(env, s, steps[0]), steps[1..]);
      hide Inv, Sound, Apply;
    }
  }

  lemma StepKeepsVersions(env: Env, s: Store, step: Step)
    requires Numbered(s.versions, s.heads) && Enabled(s, step)
    ensures var t := Apply(env, s, step); Numbered(t.versions, t.heads) && s.versions <= t.versions
  {
    if step.Commit? { CommitNumbers(env, s, step.client); }
    hide Numbered, MaxRevision, Payload, PinFor, Referenced;
  }

  /** Whatever the names, stored versions stay as they are, numbered without gaps. */
  lemma {:induction false} RunKeepsVersions(env: Env, s: Store, steps: seq<Step>)
    requires Numbered(s.versions, s.heads) && Runs(env, s, steps)
    ensures var t := After(env, s, steps); Numbered(t.versions, t.heads) && s.versions <= t.versions
    decreases |steps|
  {
    hide Numbered, Apply, Enabled;
    if steps != [] {
      StepKeepsVersions(env, s, steps[0]);
      RunKeepsVersions(env, Apply(env, s, steps[0]), steps[1..]);
    }
  }

  lemma EmptyStoreIsSound(env: Env, names: iset<Scope>, objects: set<string>)
    requires Apart(names)
    ensures Inv(env, names, Store([], map[], map[], {}, objects, map[]))
  {
  }

  lemma {:induction false} SelectIs(versions: seq<VersionRow>, k: Scope, revision: int)
    requires forall i :: 0 <= i < |Revs(versions, k)| ==> Revs(versions, k)[i].revision == i + 1
    ensures Select(versions, k, revision) ==
            if 1 <= revision <= |Revs(versions, k)| then Some(Revs(versions, k)[revision - 1]) else None
  {
    if versions != [] {
      var init, last := versions[..|versions| - 1], versions[|versions| - 1];
      var was, now := Revs(init, k), Revs(versions, k);
      assert forall i :: 0 <= i < |was| ==> was[i] == now[i];
      SelectIs(init, k, revision);
      if last.scope == k { assert now[|was|] == last.stored; }
    }
  }

  lemma {:induction false} RevsGrow(a: seq<VersionRow>, b: seq<VersionRow>, k: Scope)
    requires a <= b
    ensures Revs(a, k) <= Revs(b, k)
  {
    if |a| == |b| {
      assert a == b;
    } else {
      RevsGrow(a, b[..|b| - 1], k);
    }
  }

  /** Each scope has the revisions 1 to n, no more, and the head is revision n. */
  lemma RevisionsAreGapless(s: Store, k: Scope, revision: int)
    requires Numbered(s.versions, s.heads)
    ensures var n := if k in s.heads then s.heads[k].revision else 0;
            && (Select(s.versions, k, revision).Some? <==> 1 <= revision <= n)
            && (k in s.heads ==> Select(s.versions, k, n) == Some(s.heads[k]))
  {
    hide Revs, Select, SealedAndPinned;
    assert NumberedFor(Revs(s.versions, k), if k in s.heads then Some(s.heads[k]) else None);
    SelectIs(s.versions, k, revision);
    if k in s.heads { SelectIs(s.versions, k, s.heads[k].revision); }
  }

  /** Replaying a revision yields the same row however many steps follow. */
  lemma ReplayIsStable(env: Env, s: Store, steps: seq<Step>, k: Scope, revision: int)
    requires Numbered(s.versions, s.heads) && Runs(env, s, steps)
    requires Select(s.versions, k, revision).Some?
    ensures Select(After(env, s, steps).versions, k, revision) == Select(s.versions, k, revision)
  {
    RunKeepsVersions(env, s, steps);
    var t := After(env, s, steps);
    hide Revs, Select, Runs, After;
    assert NumberedFor(Revs(s.versions, k), if k in s.heads then Some(s.heads[k]) else None);
    assert NumberedFor(Revs(t.versions, k), if k in t.heads then Some(t.heads[k]) else None);
    RevsGrow(s.versions, t.versions, k);
    SelectIs(s.versions, k, revision);
    SelectIs(t.versions, k, revision);
  }

  /** Every artifact a stored or pinned payload names is in the object store, in every reachable state. */
  lemma ArtifactsStayPinned(env: Env, names: iset<Scope>, s: Store, steps: seq<Step>, k: Scope, payload: string, row: Row)
    requires Sound(env) && Inv(env, names, s) && Runs(env, s, steps) && StoresUnder(names, steps)
    requires var t := After(env, s, steps);
             || (exists i :: 0 <= i < |t.versions| && t.versions[i].scope == k && t.versions[i].stored.payload == payload)
             || (exists c :: c in t.pending && t.pending[c].Pinned? && t.pending[c].scope == k && t.pending[c].payload == payload)
    requires env.parse(payload).Some? && row in JsRows(env.parse(payload).value) && DigestOf(env, row) != ""
    ensures var t := After(env, s, steps); Referenced(t, DigestOf(env, row)) && DigestOf(env, row) in t.objects
  {
    RunKeepsInv(env, names, s, steps);
    var t := After(env, s, steps);
    hide Numbered, Runs, After, JsRows, DigestOf, OwnerPrefix, OwnerKey;
    var rows := JsRows(env.parse(payload).value);
    assert SealedAndPinned(env, t.refs, k, payload, env.digest(payload));
    var i :| 0 <= i < |rows| && rows[i] == row;
    var key := OwnerKey(OwnerPrefix(k, env.digest(payload)), i, Text(row, "url"));
    assert key in t.refs && t.refs[key] == DigestOf(env, row);
  }

  // ----- one payload against another

  ghost predicate Goes(env: Env, s: Store, step: Step, t: Store) { Enabled(s, step) && Apply(env, s, step) == t }

  lemma {:induction false} RunThrough(env: Env, states: seq<Store>, steps: seq<Step>)
    requires |states| == |steps| + 1 && forall i :: 0 <= i < |steps| ==> Goes(env, states[i], steps[i], states[i + 1])
    ensures Runs(env, states[0], steps) && After(env, states[0], steps) == states[|steps|]
    decreases |steps|
  {
    if steps != [] {
      assert Goes(env, states[0], steps[0], states[0 + 1]);
      forall i | 0 <= i < |steps| - 1 ensures Goes(env, states[1..][i], steps[1..][i], states[1..][i + 1]) {
        assert Goes(env, states[i + 1], steps[i + 1], states[i + 1 + 1]);
      }
      RunThrough(env, states[1..], steps[1..]);
      hide Apply, Enabled;
    }
  }

  function Script(env: Env, x: string): Snapshot {
    map["entity_tags" := [], "js_files" := [map["blob_path" := "cas:" + env.content(x)]]]
  }

  lemma ScriptRow(env: Env, x: string)
    ensures var c := Canonical(env, Script(env, x));
            "js_files" in c && c["js_files"] == [map["blob_path" := "cas:" + env.content(x)]]
  {
    OneRow(env, Script(env, x), "js_files", map["blob_path" := "cas:" + env.content(x)]);
  }

  lemma ScriptPins(env: Env, s: Store, k: Scope, x: string)
    requires Sound(env) && env.content(x) in s.objects
    ensures var prefix := OwnerPrefix(k, env.digest(Payload(env, Script(env, x))));
            PinFor(env, s, k, Script(env, x)) == Some(Sync(s.refs, prefix, map[OwnerKey(prefix, 0, "") := env.content(x)]))
  {
    var prefix := OwnerPrefix(k, env.digest(Payload(env, Script(env, x))));
    ScriptRow(env, x);
    hide Canonical, Script, Payload, OwnerPrefix;
    var row: Row := map["blob_path" := "cas:" + env.content(x)];
    var rows := JsRows(Canonical(env, Script(env, x)));
    assert IsCas(rows[0]) && Text(row, "blob_path")[4..] == env.content(x) && DigestOf(env, row) == env.content(x);
    assert Desired(env, prefix, rows[..0]) == map[];
    assert Desired(env, prefix, rows) == map[OwnerKey(prefix, 0, "") := env.content(x)];
  }

  lemma PayloadsDiffer(env: Env, x: string, x': string)
    requires Sound(env) && env.content(x) != env.content(x')
    ensures Payload(env, Script(env, x)) != Payload(env, Script(env, x'))
  {
    ScriptRow(env, x);
    ScriptRow(env, x');
    hide Canonical, Script;
    var a, b := Canonical(env, Script(env, x)), Canonical(env, Script(env, x'));
    assert a["js_files"][0]["blob_path"][4..] == env.content(x) && b["js_files"][0]["blob_path"][4..] == env.content(x');
    assert env.parse(env.render(a)) == Some(a) && env.parse(env.render(b)) == Some(b);
  }

  lemma GoesToNews(env: Env, s: Store, c: nat, k: Scope, snapshot: Snapshot)
    requires c !in s.pending && (k in s.heads ==> s.heads[k].payload != Payload(env, snapshot))
    ensures Goes(env, s, Check(c, k, snapshot), s.(pending := s.pending[c := News(k, snapshot)]))
  {
  }

  lemma GoesToPinned(env: Env, s: Store, c: nat, k: Scope, snapshot: Snapshot, refs: map<string, string>)
    requires c in s.pending && s.pending[c] == News(k, snapshot) && PinFor(env, s, k, snapshot) == Some(refs)
    ensures Goes(env, s, PinArtifacts(c), s.(refs := refs, pending := s.pending[c := PinnedFor(env, k, snapshot)]))
  {
  }

  lemma GoesToFirst(env: Env, s: Store, c: nat, p: Pending)
    requires s.versions == [] && s.heads == map[] && s.pending == map[c := p] && p.Pinned?
    ensures var stored := Stored(1, p.payload, p.hash, SCHEMA_VERSION);
            Goes(env, s, Commit(c), s.(pending := map[], versions := [VersionRow(p.scope, stored)], heads := map[p.scope := stored]))
  {
  }

  /** The payload of `first` is stored under `k'`, then that of `second` is pinned under `k`, and the
      collector meets the first script. */
  function Collision(k: Scope, second: Snapshot, k': Scope, first: Snapshot, digest: string): seq<Step> {
    [Check(0, k', first), PinArtifacts(0), Commit(0), Check(1, k, second), PinArtifacts(1), Collect(digest)]
  }

  /** The script of the stored revision is then lost if and only if the later payload's prefix begins
      the owner key of its reference. */
  lemma WhenPinsCollide(env: Env, k: Scope, x: string, k': Scope, x': string)
    requires Sound(env) && env.content(x) != env.content(x')
    ensures var first, second := Script(env, x'), Script(env, x);
            var prefix, prefix' := OwnerPrefix(k, env.digest(Payload(env, second))), OwnerPrefix(k', env.digest(Payload(env, first)));
            var s := Store([], map[], map[], {}, {env.content(x), env.content(x')}, map[]);
            var steps := Collision(k, second, k', first, env.content(x'));
            && Runs(env, s, steps)
            && (var t := After(env, s, steps);
                && |t.versions| == 1 && t.versions[0].scope == k' && t.versions[0].stored.payload == Payload(env, first)
                && (env.content(x') !in t.objects <==> prefix <= OwnerKey(prefix', 0, "")))
  {
    hide Payload, Script, Sync, PinFor, OwnerKey, OwnerPrefix, Collision, Runs, After, Sound;
    var first, second := Script(env, x'), Script(env, x);
    var d, d' := env.content(x), env.content(x');
    var prefix, prefix' := OwnerPrefix(k, env.digest(Payload(env, second))), OwnerPrefix(k', env.digest(Payload(env, first)));
    var key, key' := OwnerKey(prefix, 0, ""), OwnerKey(prefix', 0, "");
    var s := Store([], map[], map[], {}, {d, d'}, map[]);
    ScriptPins(env, s, k', x');
    SyncNothing(prefix', map[key' := d']);
    ScriptPins(env, s.(refs := map[key' := d']), k, x);
    KeyUnderPrefix(prefix, 0, "");
    PayloadsDiffer(env, x, x');
    AloneOrBoth(prefix, key, d, key', d');
    CollisionRun(env, k, second, k', first, d, d', map[key' := d'], Sync(map[key' := d'], prefix, map[key := d]));
  }

  lemma SyncNothing(prefix: string, desired: map<string, string>)
    ensures Sync(map[], prefix, desired) == desired
  {
  }

  lemma CollisionRun(env: Env, k: Scope, second: Snapshot, k': Scope, first: Snapshot, d: string, d': string,
                     refs': map<string, string>, refs: map<string, string>)
    requires Payload(env, second) != Payload(env, first)
    requires PinFor(env, Store([], map[], map[], {}, {d, d'}, map[]), k', first) == Some(refs')
    requires PinFor(env, Store([], map[], refs', {}, {d, d'}, map[]), k, second) == Some(refs)
    ensures var s := Store([], map[], map[], {}, {d, d'}, map[]);
            var steps := Collision(k, second, k', first, d');
            && Runs(env, s, steps)
            && (var t := After(env, s, steps);
                && |t.versions| == 1 && t.versions[0].scope == k' && t.versions[0].stored.payload == Payload(env, first)
                && (d' in t.objects <==> d' in refs.Values))
  {
    var objects := {d, d'};
    FirstStored(env, k', first, objects, refs');
    ThenPinned(env, k, second, k', first, objects, refs', refs);
    var s5 := Store(FirstVersion(env, k', first), FirstHead(env, k', first), refs, {}, objects, map[1 := PinnedFor(env, k, second)]);
    CollectsIfUnreferred(env, s5, d');
    hide PinFor, Payload, Apply, Enabled, Runs, After, Goes, PinnedFor, FirstHead;
    SixSteps(env, Store([], map[], map[], {}, objects, map[]), Store([], map[], map[], {}, objects, map[0 := News(k', first)]),
             Store([], map[], refs', {}, objects, map[0 := PinnedFor(env, k', first)]),
             Store(FirstVersion(env, k', first), FirstHead(env, k', first), refs', {}, objects, map[]),
             Store(FirstVersion(env, k', first), FirstHead(env, k', first), refs', {}, objects, map[1 := News(k, second)]),
             s5, Apply(env, s5, Collect(d')), Collision(k, second, k', first, d'));
  }

  function FirstOf(env: Env, snapshot: Snapshot): Stored {
    Stored(1, Payload(env, snapshot), env.digest(Payload(env, snapshot)), SCHEMA_VERSION)
  }

  function FirstVersion(env: Env, k: Scope, snapshot: Snapshot): seq<VersionRow> { [VersionRow(k, FirstOf(env, snapshot))] }

  function FirstHead(env: Env, k: Scope, snapshot: Snapshot): map<Scope, Stored> { map[k := FirstOf(env, snapshot)] }

  lemma FirstStored(env: Env, k: Scope, snapshot: Snapshot, objects: set<string>, refs: map<string, string>)
    requires PinFor(env, Store([], map[], map[], {}, objects, map[]), k, snapshot) == Some(refs)
    ensures Goes(env, Store([], map[], map[], {}, objects, map[]), Check(0, k, snapshot),
                 Store([], map[], map[], {}, objects, map[0 := News(k, snapshot)]))
    ensures Goes(env, Store([], map[], map[], {}, objects, map[0 := News(k, snapshot)]), PinArtifacts(0),
                 Store([], map[], refs, {}, objects, map[0 := PinnedFor(env, k, snapshot)]))
    ensures Goes(env, Store([], map[], refs, {}, objects, map[0 := PinnedFor(env, k, snapshot)]), Commit(0),
                 Store(FirstVersion(env, k, snapshot), FirstHead(env, k, snapshot), refs, {}, objects, map[]))
  {
    var s := Store([], map[], map[], {}, objects, map[]);
    var s1 := s.(pending := map[0 := News(k, snapshot)]);
    assert PinFor(env, s1, k, snapshot) == PinFor(env, s, k, snapshot);
    hide PinFor, Payload, Goes;
    GoesToNews(env, s, 0, k, snapshot);
    GoesToPinned(env, s1, 0, k, snapshot, refs);
    var s2 := s1.(refs := refs, pending := map[0 := PinnedFor(env, k, snapshot)]);
    assert s1.pending[0 := PinnedFor(env, k, snapshot)] == s2.pending;
    GoesToFirst(env, s2, 0, PinnedFor(env, k, snapshot));
  }

  lemma ThenPinned(env: Env, k: Scope, snapshot: Snapshot, k': Scope, first: Snapshot, objects: set<string>,
                   refs': map<string, string>, refs: map<string, string>)
    requires Payload(env, snapshot) != Payload(env, first)
    requires PinFor(env, Store([], map[], refs', {}, objects, map[]), k, snapshot) == Some(refs)
    ensures var s := Store(FirstVersion(env, k', first), FirstHead(env, k', first), refs', {}, objects, map[]);
            && Goes(env, s, Check(1, k, snapshot), s.(pending := map[1 := News(k, snapshot)]))
            && Goes(env, s.(pending := map[1 := News(k, snapshot)]), PinArtifacts(1),
                    s.(refs := refs, pending := map[1 := PinnedFor(env, k, snapshot)]))
  {
    var s := Store(FirstVersion(env, k', first), FirstHead(env, k', first), refs', {}, objects, map[]);
    var s1 := s.(pending := map[1 := News(k, snapshot)]);
    assert PinFor(env, s1, k, snapshot) == PinFor(env, Store([], map[], refs', {}, objects, map[]), k, snapshot);
    hide PinFor, Payload, Goes;
    GoesToNews(env, s, 1, k, snapshot);
    GoesToPinned(env, s1, 1, k, snapshot, refs);
    assert s1.pending[1 := PinnedFor(env, k, snapshot)] == map[1 := PinnedFor(env, k, snapshot)];
  }

  lemma SixSteps(env: Env, s0: Store, s1: Store, s2: Store, s3: Store, s4: Store, s5: Store, s6: Store, steps: seq<Step>)
    requires |steps| == 6 && Goes(env, s0, steps[0], s1) && Goes(env, s1, steps[1], s2) && Goes(env, s2, steps[2], s3)
    requires Goes(env, s3, steps[3], s4) && Goes(env, s4, steps[4], s5) && Goes(env, s5, steps[5], s6)
    ensures Runs(env, s0, steps) && After(env, s0, steps) == s6
  {
    hide Goes, Runs, After;
    RunThrough(env, [s0, s1, s2, s3, s4, s5, s6], steps);
  }

  lemma CollectsIfUnreferred(env: Env, s: Store, digest: string)
    requires s.others == {}
    ensures var t := Apply(env, s, Collect(digest));
            && Goes(env, s, Collect(digest), t) && t.versions == s.versions
            && (digest in s.objects ==> (digest in t.objects <==> digest in s.refs.Values))
  {
    hide PinFor, Payload;
    if Referenced(s, digest) {
      var key :| key in s.refs && s.refs[key] == digest;
    }
    if digest in s.refs.Values {
      var key :| key in s.refs && s.refs[key] == digest;
      assert Referenced(s, digest);
    }
  }

  lemma AloneOrBoth(prefix: string, key: string, d: string, key': string, d': string)
    requires prefix <= key && d != d'
    ensures d' in Sync(map[key' := d'], prefix, map[key := d]).Values <==> !(prefix <= key')
  {
    var refs := Sync(map[key' := d'], prefix, map[key := d]);
    if prefix <= key' {
      assert refs == map[key := d];
    } else {
      assert refs[key'] == d';
    }
  }

  /** So a target whose name is another target's, a line break and the digest of one of its payloads
      can lose a stored script to it. */
  lemma NestedNamesLoseArtifact(env: Env, k: Scope, x: string, x': string)
    requires Sound(env) && env.content(x) != env.content(x')
    ensures var first, second := Script(env, x'), Script(env, x);
            var k' := Scope(k.run, k.target + "\n" + env.digest(Payload(env, second)));
            var s := Store([], map[], map[], {}, {env.content(x), env.content(x')}, map[]);
            var steps := Collision(k, second, k', first, env.content(x'));
            && Runs(env, s, steps)
            && (var t := After(env, s, steps);
                |t.versions| == 1 && t.versions[0].stored.payload == Payload(env, first) && env.content(x') !in t.objects)
  {
    hide Payload, Script, OwnerKey, OwnerPrefix, Collision, Runs, After, Sound;
    var hash := env.digest(Payload(env, Script(env, x)));
    WhenPinsCollide(env, k, x, Scope(k.run, k.target + "\n" + hash), x');
    LineBreaksNest(k, hash, env.digest(Payload(env, Script(env, x'))), 0, "");
  }

  // ----- neighbouring revisions

  ghost predicate NeighboursDiffer(versions: seq<VersionRow>) {
    forall k :: Alternates(Revs(versions, k))
  }

  ghost predicate Alternates(revs: seq<Stored>) {
    forall i :: 0 < i < |revs| ==> revs[i - 1].payload != revs[i].payload
  }

  /** A commit keeps neighbouring revisions apart exactly when the head is not what it commits. */
  lemma CommitKeepsNeighbours(env: Env, s: Store, c: nat)
    requires Numbered(s.versions, s.heads) && NeighboursDiffer(s.versions) && c in s.pending && s.pending[c].Pinned?
    ensures var p := s.pending[c];
            NeighboursDiffer(Apply(env, s, Commit(c)).versions) <==> p.scope !in s.heads || s.heads[p.scope].payload != p.payload
  {
    hide Revs, MaxRevision, SealedAndPinned;
    var p := s.pending[c];
    var t := Apply(env, s, Commit(c));
    var row := VersionRow(p.scope, NewVersion(s, p));
    var was := Revs(s.versions, p.scope);
    RevsSnoc(s.versions, row, p.scope);
    assert NumberedFor(was, if p.scope in s.heads then Some(s.heads[p.scope]) else None);
    assert Alternates(was);
    assert Alternates(was + [row.stored]) <==> was == [] || was[|was| - 1].payload != p.payload by {
      var now := was + [row.stored];
      assert forall i :: 0 <= i < |was| ==> now[i] == was[i];
      assert now[|was|] == row.stored;
    }
    forall k ensures k != p.scope ==> Alternates(Revs(t.versions, k)) {
      RevsSnoc(s.versions, row, k);
      assert Alternates(Revs(s.versions, k));
    }
  }

  /** One client at a time per scope, as within one process: the others wait for its commit. */
  predicate Exclusive(s: Store, step: Step) {
    step.Check? ==> forall c :: c in s.pending ==> s.pending[c].scope != step.scope
  }

  function NewPayload(env: Env, p: Pending): string {
    match p
    case News(_, snapshot) => Payload(env, snapshot)
    case Pinned(_, payload, _) => payload
  }

  ghost predicate PendingIsNews(env: Env, s: Store) {
    && (forall c :: c in s.pending ==>
          s.pending[c].scope !in s.heads || s.heads[s.pending[c].scope].payload != NewPayload(env, s.pending[c]))
    && (forall c, d :: c in s.pending && d in s.pending && c != d ==> s.pending[c].scope != s.pending[d].scope)
  }

  ghost predicate ExclusiveRun(env: Env, s: Store, steps: seq<Step>)
    requires Runs(env, s, steps)
    decreases |steps|
  {
    steps == [] || (Exclusive(s, steps[0]) && ExclusiveRun(env, Apply(env, s, steps[0]), steps[1..]))
  }

  lemma ExclusiveStore(env: Env, s: Store, step: Step)
    requires (step.Check? || step.PinArtifacts?) && Enabled(s, step) && Exclusive(s, step) && PendingIsNews(env, s)
    ensures PendingIsNews(env, Apply(env, s, step)) && Apply(env, s, step).versions == s.versions
  {
    hide PinFor, Payload;
    var t := Apply(env, s, step);
    if t != s {
      var c := step.client;
      assert t.heads == s.heads;
      assert t.pending == s.pending - {c} || t.pending == s.pending[c := t.pending[c]];
      if c in t.pending {
        var scope := t.pending[c].scope;
        assert scope !in s.heads || s.heads[scope].payload != NewPayload(env, t.pending[c]);
      }
    }
  }

  lemma ExclusiveCommit(env: Env, s: Store, c: nat)
    requires Enabled(s, Commit(c)) && PendingIsNews(env, s)
    ensures PendingIsNews(env, Apply(env, s, Commit(c)))
  {
    hide MaxRevision, Payload;
    var t := Apply(env, s, Commit(c));
    assert forall d :: d in t.pending ==> d in s.pending && d != c && t.pending[d] == s.pending[d];
  }

  lemma {:induction false} ExclusiveStep(env: Env, s: Store, step: Step)
    requires Numbered(s.versions, s.heads) && Enabled(s, step) && Exclusive(s, step)
    requires NeighboursDiffer(s.versions) && PendingIsNews(env, s)
    ensures NeighboursDiffer(Apply(env, s, step).versions) && PendingIsNews(env, Apply(env, s, step))
  {
    hide Revs, MaxRevision, SealedAndPinned;
    match step
    case Check(_, _, _) => ExclusiveStore(env, s, step);
    case PinArtifacts(_) => ExclusiveStore(env, s, step);
    case Commit(c) =>
      ExclusiveCommit(env, s, c);
      CommitKeepsNeighbours(env, s, c);
    case _ => hide Numbered, NeighboursDiffer, Payload;
  }

  /** When no two clients store one scope at once, neighbouring revisions always differ. */
  lemma {:induction false} NeighboursAlwaysDiffer(env: Env, s: Store, steps: seq<Step>)
    requires Numbered(s.versions, s.heads) && NeighboursDiffer(s.versions) && PendingIsNews(env, s)
    requires Runs(env, s, steps) && ExclusiveRun(env, s, steps)
    ensures NeighboursDiffer(After(env, s, steps).versions)
    decreases |steps|
  {
    if steps != [] {
      StepKeepsVersions(env, s, steps[0]);
      ExclusiveStep(env, s, steps[0]);
      NeighboursAlwaysDiffer(env, Apply(env, s, steps[0]), steps[1..]);
      hide Numbered, NeighboursDiffer, PendingIsNews;
    }
  }

  /** Two clients that compare the head before either commits store the same payload twice. */
  lemma RaceStoresTwice(env: Env, k: Scope, snapshot: Snapshot)
    requires !AnyCas(JsRows(Canonical(env, snapshot)))
    ensures var s := Store([], map[], map[], {}, {}, map[]);
            var steps := [Check(0, k, snapshot), Check(1, k, snapshot), PinArtifacts(0), PinArtifacts(1), Commit(0), Commit(1)];
            Runs(env, s, steps) && !NeighboursDiffer(After(env, s, steps).versions)
  {
    hide Canonical, Revs, MaxRevision;
    var s := Store([], map[], map[], {}, {}, map[]);
    var news, pinned := News(k, snapshot), PinnedFor(env, k, snapshot);
    var s1 := s.(pending := map[0 := news]);
    var s2 := s.(pending := map[0 := news, 1 := news]);
    var s3 := s.(pending := map[0 := pinned, 1 := news]);
    var s4 := s.(pending := map[0 := pinned, 1 := pinned]);
    var s5 := Apply(env, s4, Commit(0));
    assert s5.pending == map[1 := pinned];
    var s6 := Apply(env, s5, Commit(1));
    TwoVersions(k, s6.versions[0], s6.versions[1], s6.versions);
    assert Goes(env, s, Check(0, k, snapshot), s1) && Goes(env, s1, Check(1, k, snapshot), s2);
    assert Goes(env, s2, PinArtifacts(0), s3) && Goes(env, s3, PinArtifacts(1), s4);
    assert Goes(env, s4, Commit(0), s5) && Goes(env, s5, Commit(1), s6);
    hide Goes, Runs, After;
    SixSteps(env, s, s1, s2, s3, s4, s5, s6,
      [Check(0, k, snapshot), Check(1, k, snapshot), PinArtifacts(0), PinArtifacts(1), Commit(0), Commit(1)]);
  }

  lemma TwoVersions(k: Scope, a: VersionRow, b: VersionRow, versions: seq<VersionRow>)
    requires versions == [a, b] && a.scope == b.scope == k && a.stored.payload == b.stored.payload
    ensures !NeighboursDiffer(versions)
  {
    RevsSnoc([], a, k);
    RevsSnoc([a], b, k);
    assert [] + [a] == [a] && [a] + [b] == versions;
    var revs := Revs(versions, k);
    assert revs == [a.stored, b.stored];
    assert revs[1 - 1].payload == revs[1].payload;
    assert !Alternates(revs);
  }
}
