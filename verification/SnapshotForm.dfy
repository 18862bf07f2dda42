/** Snapshots of the collection tables: their canonical form, their stored text, and merging them. */
module SnapshotForm {
  import opened FirstSeen
  import opened Options
  import opened Ordering

  /** A row maps its columns to the texts of its values. */
  type Row = map<string, string>

  type Snapshot = map<string, seq<Row>>

  /** The functions of the environment: compact JSON with sorted keys, of a row and of a snapshot,
      and its reading; SHA-256 of a text and of a file's content; `strip().lower()` and `strip()`; where an
      object lies; and the path of an artifact that an early branch stored by file name. */
  datatype Env = Env(json: Row -> string, render: Snapshot -> string, parse: string -> Option<Snapshot>,
                     digest: string -> string, content: string -> string,
                     norm: string -> string, strip: string -> string,
                     path: string -> string, early: string -> Option<string>)

  const INPUT_TABLES: set<string> := {
    "assets", "dns_records", "urls", "fingerprints", "ports", "findings", "endpoint_intelligence",
    "endpoint_validations", "js_files", "js_indicators", "technology_observations", "entity_tags",
    "alerts", "change_incidents", "incident_events", "run_targets"
  }

  const TAG_TYPES: set<string> := {"alert", "asset", "endpoint"}

  const SCHEMA_VERSION := 2

  /** What is needed of JSON and of the digest: a text determines its value, reading undoes writing,
      different payloads have different digests, on one line each, and a content digest has no blanks
      at its ends and no capitals. */
  ghost predicate Sound(env: Env) {
    && (forall a, b :: env.json(a) == env.json(b) ==> a == b)
    && (forall s :: env.parse(env.render(s)) == Some(s))
    && (forall p, q :: env.digest(p) == env.digest(q) ==> p == q)
    && (forall p :: OneLine(env.digest(p)))
    && (forall x :: env.norm(env.content(x)) == env.content(x) != "" && env.strip("cas:" + env.content(x)) == "cas:" + env.content(x))
  }

  predicate OneLine(s: string) { '\n' !in s }

  // ----- canonical form

  function RowKey(env: Env): Row -> Key {
    (r: Row) => [Str(env.json(r))]
  }

  function Canonical(env: Env, s: Snapshot): Snapshot {
    map t | t in s :: SortBy(RowKey(env), s[t])
  }

  lemma OneRow(env: Env, s: Snapshot, t: string, row: Row)
    requires t in s && s[t] == [row]
    ensures t in Canonical(env, s) && Canonical(env, s)[t] == [row]
  {
    assert s[t][1..] == [] && SortBy(RowKey(env), []) == [];
    assert SortBy(RowKey(env), [row]) == Insert(RowKey(env), row, []);
  }

  ghost predicate SameRows(a: Snapshot, b: Snapshot) {
    a.Keys == b.Keys && forall t :: t in a ==> multiset(a[t]) == multiset(b[t])
  }

  lemma SortedHead(env: Env, a: seq<Row>, b: seq<Row>)
    requires Sound(env) && Sorted(RowKey(env), a) && Sorted(RowKey(env), b)
    requires multiset(a) == multiset(b) && a != []
    ensures b != [] && a[0] == b[0]
  {
    hide KeyLeq;
    assert a[0] in multiset(b);
    assert b[0] in multiset(a);
    var i :| 0 <= i < |b| && b[i] == a[0];
    var j :| 0 <= j < |a| && a[j] == b[0];
    var x, y := RowKey(env)(a[0]), RowKey(env)(b[0]);
    if i > 0 && j > 0 {
      KeyAntisymmetric(x, y);
      assert x[0] == y[0];
    }
  }

  lemma {:induction false} SortedPermutationsAgree(env: Env, a: seq<Row>, b: seq<Row>)
    requires Sound(env) && Sorted(RowKey(env), a) && Sorted(RowKey(env), b) && multiset(a) == multiset(b)
    ensures a == b
  {
    hide KeyLeq, Sound;
    assert |a| == |multiset(a)| == |multiset(b)| == |b|;
    if a != [] {
      SortedHead(env, a, b);
      assert a == [a[0]] + a[1..] && b == [a[0]] + b[1..];
      SameRest(a[0], a[1..], b[1..]);
      SortedPermutationsAgree(env, a[1..], b[1..]);
    }
  }

  lemma SortedRowsUnique(env: Env, a: seq<Row>, b: seq<Row>)
    requires Sound(env) && multiset(a) == multiset(b)
    ensures SortBy(RowKey(env), a) == SortBy(RowKey(env), b)
  {
    SortSorts(RowKey(env), a);
    SortSorts(RowKey(env), b);
    SortPermutes(RowKey(env), a);
    SortPermutes(RowKey(env), b);
    SortedPermutationsAgree(env, SortBy(RowKey(env), a), SortBy(RowKey(env), b));
  }

  /** The same rows, however the database returns them, have one canonical form and so one payload. */
  lemma SameRowsSamePayload(env: Env, a: Snapshot, b: Snapshot)
    requires Sound(env) && SameRows(a, b)
    ensures Canonical(env, a) == Canonical(env, b)
    ensures env.render(Canonical(env, a)) == env.render(Canonical(env, b))
  {
    forall t | t in a ensures SortBy(RowKey(env), a[t]) == SortBy(RowKey(env), b[t]) {
      SortedRowsUnique(env, a[t], b[t]);
    }
    assert Canonical(env, a) == Canonical(env, b);
  }

  /** And different rows have different payloads. */
  lemma SamePayloadSameRows(env: Env, a: Snapshot, b: Snapshot)
    requires Sound(env) && env.render(Canonical(env, a)) == env.render(Canonical(env, b))
    ensures SameRows(a, b)
  {
    var ca, cb := Canonical(env, a), Canonical(env, b);
    assert env.parse(env.render(ca)) == Some(ca) && env.parse(env.render(cb)) == Some(cb);
    assert ca == cb;
    assert a.Keys == ca.Keys == cb.Keys == b.Keys;
    forall t | t in a ensures multiset(a[t]) == multiset(b[t]) {
      assert ca[t] == cb[t];
      SortPermutes(RowKey(env), a[t]);
      SortPermutes(RowKey(env), b[t]);
    }
  }

  // ----- merging the snapshots of several targets

  /** Entity tags count only for the entities the analysis reads. */
  predicate Kept(t: string, r: Row) {
    t == "entity_tags" ==> "entity_type" in r && r["entity_type"] in TAG_TYPES
  }

  function KeptIn(t: string): Row -> bool { (r: Row) => Kept(t, r) }

  function RowsOf(parts: seq<Snapshot>, t: string): seq<Row> {
    if parts == [] then []
    else
      var init, last := parts[..|parts| - 1], parts[|parts| - 1];
      if t in last then RowsOf(init, t) + Filter(KeptIn(t), last[t]) else RowsOf(init, t)
  }

  function TablesOf(parts: seq<Snapshot>): set<string> {
    if parts == [] then {} else TablesOf(parts[..|parts| - 1]) + parts[|parts| - 1].Keys
  }

  function Union(parts: seq<Snapshot>): Snapshot {
    map t | t in TablesOf(parts) :: Dedup(RowsOf(parts, t))
  }

  predicate KnownTables(parts: seq<Snapshot>) {
    forall i :: 0 <= i < |parts| ==> parts[i].Keys <= INPUT_TABLES
  }

  // Adding the rows of one table of one part to what is merged already.
  method MergeRows(env: Env, t: string, bucket: seq<Row>, rows: seq<Row>, ghost all: seq<Row>) returns (merged: seq<Row>)
    requires Sound(env) && bucket == Dedup(all)
    ensures merged == Dedup(all + Filter(KeptIn(t), rows))
  {
    hide Dedup, Filter;
    merged := bucket;
    FilterNone(KeptIn(t), rows[..0]);
    DedupMembers(all);
    var seen := set r | r in bucket :: env.json(r);
    assert all + [] == all;
    for i := 0 to |rows|
      invariant merged == Dedup(all + Filter(KeptIn(t), rows[..i]))
      invariant forall r :: env.json(r) in seen <==> r in merged
    {
      var row := rows[i];
      ghost var so := all + Filter(KeptIn(t), rows[..i]);
      assert rows[..i + 1] == rows[..i] + [row];
      FilterSnoc(KeptIn(t), rows[..i], row);
      if Kept(t, row) {
        assert all + (Filter(KeptIn(t), rows[..i]) + [row]) == so + [row];
        DedupSnoc(so, row);
        if env.json(row) !in seen {
          merged := merged + [row];
          seen := seen + {env.json(row)};
        }
      }
    }
    assert rows[..|rows|] == rows;
  }

  method MergePart(env: Env, part: Snapshot, before: Snapshot, ghost parts: seq<Snapshot>) returns (buckets: Snapshot)
    requires Sound(env) && before == Union(parts)
    ensures buckets.Keys == before.Keys + part.Keys
    ensures forall t :: t in buckets && t !in part ==> buckets[t] == before[t]
    ensures forall t :: t in part ==> buckets[t] == Dedup(RowsOf(parts, t) + Filter(KeptIn(t), part[t]))
  {
    hide Dedup, RowsOf, Filter, TablesOf;
    buckets := before;
    var left := part.Keys;
    while left != {}
      invariant left <= part.Keys && buckets.Keys == before.Keys + (part.Keys - left)
      invariant forall t :: t in before && (t in left || t !in part) ==> buckets[t] == before[t]
      invariant forall t :: t in part && t !in left ==> buckets[t] == Dedup(RowsOf(parts, t) + Filter(KeptIn(t), part[t]))
      decreases left
    {
      var t :| t in left;
      if t !in before { NoRows(parts, t); }
      var rows := MergeRows(env, t, if t in buckets then buckets[t] else [], part[t], RowsOf(parts, t));
      left := left - {t};
      buckets := buckets[t := rows];
    }
  }

  /** The parts' tables one after the other, each row once under its JSON text. Fails on an unknown table. */
  method MergeParts(env: Env, parts: seq<Snapshot>) returns (merged: Option<Snapshot>)
    requires Sound(env)
    ensures merged == if KnownTables(parts) then Some(Union(parts)) else None
  {
    var buckets: Snapshot := map[];
    for i := 0 to |parts|
      invariant KnownTables(parts[..i]) && buckets == Union(parts[..i])
    {
      hide Dedup, RowsOf, Filter, TablesOf, Union;
      if !(parts[i].Keys <= INPUT_TABLES) { return None; }
      buckets := MergePart(env, parts[i], buckets, parts[..i]);
      UnionStep(parts, i, buckets);
    }
    assert parts[..|parts|] == parts;
    merged := Some(buckets);
  }

  lemma {:induction false} NoRows(parts: seq<Snapshot>, t: string)
    requires t !in TablesOf(parts)
    ensures RowsOf(parts, t) == [] && Dedup(RowsOf(parts, t)) == []
  {
    if parts != [] { NoRows(parts[..|parts| - 1], t); }
  }

  lemma RowsOfStep(parts: seq<Snapshot>, i: nat, t: string)
    requires i < |parts|
    ensures RowsOf(parts[..i + 1], t) ==
            if t in parts[i] then RowsOf(parts[..i], t) + Filter(KeptIn(t), parts[i][t]) else RowsOf(parts[..i], t)
  {
    assert parts[..i + 1][..i] == parts[..i];
  }

  lemma TablesOfStep(parts: seq<Snapshot>, i: nat)
    requires i < |parts|
    ensures TablesOf(parts[..i + 1]) == TablesOf(parts[..i]) + parts[i].Keys
  {
    assert parts[..i + 1][..i] == parts[..i];
  }

  lemma UnionStep(parts: seq<Snapshot>, i: nat, buckets: Snapshot)
    requires i < |parts| && buckets.Keys == Union(parts[..i]).Keys + parts[i].Keys
    requires forall t :: t in buckets && t !in parts[i] ==> buckets[t] == Union(parts[..i])[t]
    requires forall t :: t in parts[i] ==> buckets[t] == Dedup(RowsOf(parts[..i], t) + Filter(KeptIn(t), parts[i][t]))
    ensures buckets == Union(parts[..i + 1])
  {
    hide Dedup, Filter, RowsOf, Kept, KeptIn, TablesOf;
    TablesOfStep(parts, i);
    forall t | t in buckets ensures buckets[t] == Dedup(RowsOf(parts[..i + 1], t)) { RowsOfStep(parts, i, t); }
  }

  ghost predicate InSomePart(parts: seq<Snapshot>, t: string, r: Row) {
    exists i :: 0 <= i < |parts| && t in parts[i] && r in parts[i][t]
  }

  ghost predicate TableSomewhere(parts: seq<Snapshot>, t: string) {
    exists i :: 0 <= i < |parts| && t in parts[i]
  }

  lemma {:induction false} RowsOfMembers(parts: seq<Snapshot>, t: string)
    ensures forall r :: r in RowsOf(parts, t) <==> Kept(t, r) && InSomePart(parts, t, r)
  {
    hide Filter, Kept;
    if parts != [] {
      var init, last := parts[..|parts| - 1], parts[|parts| - 1];
      RowsOfMembers(init, t);
      if t in last { FilterMembers(KeptIn(t), last[t]); }
      forall r ensures InSomePart(parts, t, r) <==> InSomePart(init, t, r) || (t in last && r in last[t]) {
        if InSomePart(init, t, r) {
          var i :| 0 <= i < |init| && t in init[i] && r in init[i][t];
          assert parts[i] == init[i];
        }
        if InSomePart(parts, t, r) {
          var i :| 0 <= i < |parts| && t in parts[i] && r in parts[i][t];
          assert i < |init| ==> init[i] == parts[i];
        }
      }
    }
  }

  lemma {:induction false} TablesOfMembers(parts: seq<Snapshot>)
    ensures forall t :: t in TablesOf(parts) <==> TableSomewhere(parts, t)
  {
    if parts != [] {
      var init, last := parts[..|parts| - 1], parts[|parts| - 1];
      TablesOfMembers(init);
      assert forall i :: 0 <= i < |init| ==> parts[i] == init[i];
      assert parts[|init|] == last;
    }
  }

  /** The merge holds exactly the parts' tables, and in each every kept row of every part, once. */
  lemma MergeIsUnion(parts: seq<Snapshot>)
    ensures forall t :: t in Union(parts) <==> TableSomewhere(parts, t)
    ensures forall t, r :: t in Union(parts) ==> (r in Union(parts)[t] <==> Kept(t, r) && InSomePart(parts, t, r))
    ensures forall t, i, j :: t in Union(parts) && 0 <= i < j < |Union(parts)[t]| ==> Union(parts)[t][i] != Union(parts)[t][j]
  {
    hide Dedup, RowsOf, TablesOf, Kept;
    TablesOfMembers(parts);
    forall t ensures t in Union(parts) ==>
      && (forall r :: r in Union(parts)[t] <==> Kept(t, r) && InSomePart(parts, t, r))
      && (forall i, j :: 0 <= i < j < |Union(parts)[t]| ==> Union(parts)[t][i] != Union(parts)[t][j])
    {
      RowsOfMembers(parts, t);
      DedupMembers(RowsOf(parts, t));
    }
  }

  lemma DistinctSameRows(a: seq<Row>, b: seq<Row>)
    requires forall i, j :: 0 <= i < j < |a| ==> a[i] != a[j]
    requires forall i, j :: 0 <= i < j < |b| ==> b[i] != b[j]
    requires forall r :: r in a <==> r in b
    ensures multiset(a) == multiset(b)
  {
    forall r ensures multiset(a)[r] == multiset(b)[r] {
      CountInDistinct(a, r);
      CountInDistinct(b, r);
    }
  }

  /** The stored merge depends only on which snapshots are merged, not on their order or repetition. */
  lemma MergeIgnoresOrder(env: Env, parts: seq<Snapshot>, others: seq<Snapshot>)
    requires Sound(env) && forall p :: p in parts <==> p in others
    ensures Canonical(env, Union(parts)) == Canonical(env, Union(others))
  {
    hide Kept, Canonical;
    MergeIsUnion(parts);
    MergeIsUnion(others);
    var a, b := Union(parts), Union(others);
    hide Union;
    PartsCover(parts, others);
    PartsCover(others, parts);
    assert a.Keys == b.Keys;
    forall t | t in a ensures multiset(a[t]) == multiset(b[t]) { DistinctSameRows(a[t], b[t]); }
    SameRowsSamePayload(env, a, b);
  }

  lemma PartsCover(parts: seq<Snapshot>, others: seq<Snapshot>)
    requires forall p :: p in parts ==> p in others
    ensures forall t :: TableSomewhere(parts, t) ==> TableSomewhere(others, t)
    ensures forall t, r :: InSomePart(parts, t, r) ==> InSomePart(others, t, r)
  {
    forall i | 0 <= i < |parts| ensures exists j :: 0 <= j < |others| && others[j] == parts[i] {
      assert parts[i] in others;
    }
  }
}
