/** The bounded, source-balanced choice of raw surfaces. */
module BalancedSelection {
  import opened Ordering

  /** `confidence` is the parsed integer; `payload` is everything else in the row. */
  datatype Surface = Surface(confidence: int, target: string, endpoint: string, sourceRef: string, payload: string)

  // ----- sources

  const SOURCE_COUNT := 7

  predicate StartsWith(s: string, prefix: string) { prefix <= s }

  /** The position of the row's source in the fixed source order; rows of no known
      source come last, under "other". */
  function SourceOf(ref: string): (s: nat)
    ensures s < SOURCE_COUNT
  {
    if StartsWith(ref, "raw-finding:") then 0
    else if StartsWith(ref, "raw-endpoint:") then 1
    else if StartsWith(ref, "raw-validation:") then 2
    else if StartsWith(ref, "raw-fingerprint:") then 3
    else if StartsWith(ref, "raw-cname:") then 4
    else if StartsWith(ref, "semantic-js:") then 5
    else 6
  }

  function Source(row: Surface): (s: nat)
    ensures s < SOURCE_COUNT
  {
    SourceOf(row.sourceRef)
  }

  /** The key of a source's own order. */
  function BucketKey(row: Surface): Key {
    [Num(-row.confidence), Str(row.target), Str(row.endpoint), Str(row.sourceRef)]
  }

  /** The key of the overflow order. */
  function OverflowKey(row: Surface): Key {
    [Num(-row.confidence), Num(Source(row)), Str(row.target), Str(row.endpoint)]
  }

  function IsFrom(s: nat): Surface -> bool { (row: Surface) => Source(row) == s }

  function Rows(surfaces: seq<Surface>, s: nat): seq<Surface> { Filter(IsFrom(s), surfaces) }

  /** One source's rows in that source's order. */
  function Bucket(surfaces: seq<Surface>, s: nat): seq<Surface> { SortBy(BucketKey, Rows(surfaces, s)) }

  // ----- the specification: quotas in source order, then the best of the rest

  function Active(surfaces: seq<Surface>, s: nat): nat {
    if s == 0 then 0 else Active(surfaces, s - 1) + if Rows(surfaces, s - 1) == [] then 0 else 1
  }

  function Quota(surfaces: seq<Surface>, limit: nat): nat {
    var k := Active(surfaces, SOURCE_COUNT);
    var share := limit / (if k == 0 then 1 else k);
    if share == 0 then 1 else share
  }

  function Min(a: int, b: int): int { if a <= b then a else b }

  function Take(surfaces: seq<Surface>, limit: nat, s: nat): (n: nat)
    ensures n <= |Bucket(surfaces, s)|
    decreases s, 1
  {
    Min(Min(Quota(surfaces, limit), |Bucket(surfaces, s)|), limit - Taken(surfaces, limit, s))
  }

  /** Rows selected by quota before source `s`. */
  function Taken(surfaces: seq<Surface>, limit: nat, s: nat): (n: nat)
    ensures n <= limit
    decreases s, 0
  {
    if s == 0 then 0 else Taken(surfaces, limit, s - 1) + Take(surfaces, limit, s - 1)
  }

  function ByQuota(surfaces: seq<Surface>, limit: nat, s: nat): (r: seq<Surface>)
    ensures |r| == Taken(surfaces, limit, s)
  {
    if s == 0 then []
    else ByQuota(surfaces, limit, s - 1) + Bucket(surfaces, s - 1)[..Take(surfaces, limit, s - 1)]
  }

  function Overflow(surfaces: seq<Surface>, limit: nat, s: nat): seq<Surface> {
    if s == 0 then []
    else Overflow(surfaces, limit, s - 1) + Bucket(surfaces, s - 1)[Take(surfaces, limit, s - 1)..]
  }

  function TopUp(surfaces: seq<Surface>, limit: nat): seq<Surface> {
    SortBy(OverflowKey, Overflow(surfaces, limit, SOURCE_COUNT))
  }

  function Room(surfaces: seq<Surface>, limit: nat): (n: nat)
    ensures n <= |TopUp(surfaces, limit)|
  {
    Min(limit - Taken(surfaces, limit, SOURCE_COUNT), |TopUp(surfaces, limit)|)
  }

  function Selection(surfaces: seq<Surface>, limit: nat): seq<Surface> {
    ByQuota(surfaces, limit, SOURCE_COUNT) + TopUp(surfaces, limit)[..Room(surfaces, limit)]
  }

  // ----- the allocator

  method FillBuckets(surfaces: seq<Surface>) returns (buckets: map<nat, seq<Surface>>)
    ensures forall s :: s in buckets <==> Rows(surfaces, s) != []
    ensures forall s :: s in buckets ==> buckets[s] == Rows(surfaces, s)
  {
    hide SourceOf, Rows;
    buckets := map[];
    NoRows();
    for i := 0 to |surfaces|
      invariant forall s :: s in buckets <==> Rows(surfaces[..i], s) != []
      invariant forall s :: s in buckets ==> buckets[s] == Rows(surfaces[..i], s)
    {
      var source := Source(surfaces[i]);
      RowsNext(surfaces, i);
      buckets := buckets[source := (if source in buckets then buckets[source] else []) + [surfaces[i]]];
    }
    assert surfaces[..|surfaces|] == surfaces;
  }

  lemma NoRows()
    ensures forall s :: Rows([], s) == []
  {
  }

  // The counts name exactly the sources with a selected row.
  ghost predicate Counted(counts: map<nat, nat>, selected: seq<Surface>) {
    forall s :: (s in counts <==> Rows(selected, s) != []) && (s in counts ==> counts[s] == |Rows(selected, s)|)
  }

  /** The quota pass. The sources run in the fixed order, skipping those without rows. */
  method Allocate(surfaces: seq<Surface>, buckets: map<nat, seq<Surface>>, limit: nat)
    returns (selected: seq<Surface>, counts: map<nat, nat>, overflow: seq<Surface>)
    requires forall s :: s in buckets <==> Rows(surfaces, s) != []
    requires forall s :: s in buckets ==> buckets[s] == Rows(surfaces, s)
    ensures selected == ByQuota(surfaces, limit, SOURCE_COUNT)
    ensures overflow == Overflow(surfaces, limit, SOURCE_COUNT)
    ensures Counted(counts, selected)
  {
    hide SourceOf, Rows, Quota, Counted, Bucket, Taken, BucketKey, SortBy, ByQuota, Overflow;
    QuotaNone(surfaces, limit);
    var quota := ShareOf(surfaces, buckets, limit);
    selected, counts, overflow := [], map[], [];
    for s := 0 to SOURCE_COUNT
      invariant selected == ByQuota(surfaces, limit, s)
      invariant overflow == Overflow(surfaces, limit, s)
      invariant forall c: nat :: c in counts <==> c < s && Take(surfaces, limit, c) > 0
      invariant forall c :: c in counts ==> counts[c] == Take(surfaces, limit, c)
    {
      var rows := if s in buckets then SortBy(BucketKey, buckets[s]) else [];
      assert rows == Bucket(surfaces, s) by { BucketOfRows(surfaces, s, rows); }
      var take := Min(Min(quota, |rows|), limit - |selected|);
      QuotaNext(surfaces, limit, s);
      if take > 0 {
        selected := selected + rows[..take];
        counts := counts[s := take];
      }
      overflow := overflow + rows[take..];
    }
    QuotaCounted(surfaces, limit, counts);
  }

  lemma QuotaNone(surfaces: seq<Surface>, limit: nat)
    ensures ByQuota(surfaces, limit, 0) == [] && Overflow(surfaces, limit, 0) == []
  {
  }

  lemma QuotaNext(surfaces: seq<Surface>, limit: nat, s: nat)
    ensures var bucket, take := Bucket(surfaces, s), Take(surfaces, limit, s);
            && take == Min(Min(Quota(surfaces, limit), |bucket|), limit - |ByQuota(surfaces, limit, s)|)
            && ByQuota(surfaces, limit, s + 1) == ByQuota(surfaces, limit, s) + bucket[..take]
            && Overflow(surfaces, limit, s + 1) == Overflow(surfaces, limit, s) + bucket[take..]
            && (take == 0 ==> ByQuota(surfaces, limit, s + 1) == ByQuota(surfaces, limit, s))
  {
    hide Bucket, Quota;
  }

  lemma BucketOfRows(surfaces: seq<Surface>, s: nat, rows: seq<Surface>)
    requires rows == if Rows(surfaces, s) != [] then SortBy(BucketKey, Rows(surfaces, s)) else []
    ensures rows == Bucket(surfaces, s)
  {
  }

  lemma {:induction false} QuotaCounted(surfaces: seq<Surface>, limit: nat, counts: map<nat, nat>)
    requires forall c: nat :: c in counts <==> c < SOURCE_COUNT && Take(surfaces, limit, c) > 0
    requires forall c :: c in counts ==> counts[c] == Take(surfaces, limit, c)
    ensures Counted(counts, ByQuota(surfaces, limit, SOURCE_COUNT))
  {
    hide SourceOf, Rows, Take, ByQuota;
    QuotaCounts(surfaces, limit);
  }

  method SourceOrder(surfaces: seq<Surface>, buckets: map<nat, seq<Surface>>) returns (order: seq<nat>)
    requires forall s :: s in buckets <==> Rows(surfaces, s) != []
    ensures order == ActiveSources(surfaces, SOURCE_COUNT)
  {
    hide Rows;
    order := [];
    for s := 0 to SOURCE_COUNT
      invariant order == ActiveSources(surfaces, s)
    {
      if s in buckets { order := order + [s]; }
    }
  }

  method ShareOf(surfaces: seq<Surface>, buckets: map<nat, seq<Surface>>, limit: nat) returns (quota: nat)
    requires forall s :: s in buckets <==> Rows(surfaces, s) != []
    ensures quota == Quota(surfaces, limit)
  {
    hide Rows, ActiveSources, Active;
    var order := SourceOrder(surfaces, buckets);
    var share := limit / (if |order| == 0 then 1 else |order|);
    quota := if share == 0 then 1 else share;
  }

  /** The top-up pass: the sorted overflow from the front, while there is room. */
  method FillUp(limit: nat, byQuota: seq<Surface>, overflow: seq<Surface>, quotaCounts: map<nat, nat>)
    returns (selected: seq<Surface>, counts: map<nat, nat>)
    requires |byQuota| <= limit && Counted(quotaCounts, byQuota)
    ensures var rest := SortBy(OverflowKey, overflow);
            selected == byQuota + rest[..Min(|rest|, limit - |byQuota|)]
    ensures Counted(counts, selected)
  {
    hide SourceOf, Rows;
    var rest := SortBy(OverflowKey, overflow);
    selected, counts := byQuota, quotaCounts;
    for i := 0 to |rest|
      invariant selected == byQuota + rest[..Min(i, limit - |byQuota|)]
      invariant Counted(counts, selected)
    {
      if |selected| >= limit {
        break;
      }
      var source := Source(rest[i]);
      RowsAppend(selected, rest[i]);
      selected := selected + [rest[i]];
      counts := counts[source := (if source in counts then counts[source] else 0) + 1];
    }
  }

  lemma NothingCounted()
    ensures Counted(map[], [])
  {
  }

  method Select(surfaces: seq<Surface>, limit: int) returns (selected: seq<Surface>, counts: map<nat, nat>)
    ensures var bounded := if limit < 0 then 0 else limit;
            selected == if bounded == 0 then [] else Selection(surfaces, bounded)
    ensures Counted(counts, selected)
  {
    hide SourceOf, Rows, Counted, ByQuota, Overflow, Taken;
    var bounded := if limit < 0 then 0 else limit;
    if bounded == 0 || surfaces == [] {
      if bounded > 0 { SelectionOfNothing(bounded); }
      NothingCounted();
      return [], map[];
    }
    var buckets := FillBuckets(surfaces);
    var byQuota, quotaCounts, overflow := Allocate(surfaces, buckets, bounded);
    SortPermutes(OverflowKey, overflow);
    if |byQuota| < bounded && overflow != [] {
      selected, counts := FillUp(bounded, byQuota, overflow, quotaCounts);
    } else {
      selected, counts := byQuota, quotaCounts;
    }
  }

  function ActiveSources(surfaces: seq<Surface>, s: nat): (r: seq<nat>)
    ensures |r| == Active(surfaces, s)
  {
    if s == 0 then [] else ActiveSources(surfaces, s - 1) + if Rows(surfaces, s - 1) == [] then [] else [s - 1]
  }

  lemma RowsAppend(rows: seq<Surface>, row: Surface)
    ensures forall s :: Rows(rows + [row], s) == Rows(rows, s) + if Source(row) == s then [row] else []
  {
    forall s ensures Rows(rows + [row], s) == Rows(rows, s) + if Source(row) == s then [row] else [] {
      FilterAppend(IsFrom(s), rows, [row]);
    }
  }

  lemma RowsNext(surfaces: seq<Surface>, i: nat)
    requires i < |surfaces|
    ensures forall s :: Rows(surfaces[..i + 1], s) ==
                        Rows(surfaces[..i], s) + if Source(surfaces[i]) == s then [surfaces[i]] else []
  {
    assert surfaces[..i + 1] == surfaces[..i] + [surfaces[i]];
    RowsAppend(surfaces[..i], surfaces[i]);
  }

  lemma SelectionOfNothing(limit: nat)
    ensures Selection([], limit) == []
  {
    assert forall s :: Bucket([], s) == [];
    NothingByQuota(limit, SOURCE_COUNT);
  }

  lemma {:induction false} NothingByQuota(limit: nat, s: nat)
    ensures ByQuota([], limit, s) == [] && Overflow([], limit, s) == []
  {
    if s > 0 { NothingByQuota(limit, s - 1); }
  }

  // ----- what each source contributes

  lemma BucketMembers(surfaces: seq<Surface>, s: nat)
    ensures forall row :: row in Bucket(surfaces, s) ==> Source(row) == s
    ensures |Bucket(surfaces, s)| == |Rows(surfaces, s)|
  {
    SortPermutes(BucketKey, Rows(surfaces, s));
    FilterMembers(IsFrom(s), surfaces);
    forall row | row in Bucket(surfaces, s) ensures Source(row) == s {
      assert row in multiset(Bucket(surfaces, s));
      assert row in Rows(surfaces, s);
    }
  }

  lemma RowsGain(rows: seq<Surface>, part: seq<Surface>, s: nat, t: nat)
    requires forall row :: row in part ==> Source(row) == s
    ensures Rows(rows + part, t) == Rows(rows, t) + if s == t then part else []
  {
    FilterAppend(IsFrom(t), rows, part);
    if s == t { FilterAll(IsFrom(t), part); } else { FilterNone(IsFrom(t), part); }
  }

  lemma {:induction false} QuotaRows(surfaces: seq<Surface>, limit: nat, s: nat, t: nat)
    ensures Rows(ByQuota(surfaces, limit, s), t) == if t < s then Bucket(surfaces, t)[..Take(surfaces, limit, t)] else []
    ensures Rows(Overflow(surfaces, limit, s), t) == if t < s then Bucket(surfaces, t)[Take(surfaces, limit, t)..] else []
  {
    hide Take, Bucket, SourceOf, Taken, Quota, Rows;
    if s == 0 {
      NoRows();
    } else {
      QuotaRows(surfaces, limit, s - 1, t);
      var bucket, take := Bucket(surfaces, s - 1), Take(surfaces, limit, s - 1);
      BucketMembers(surfaces, s - 1);
      RowsGain(ByQuota(surfaces, limit, s - 1), bucket[..take], s - 1, t);
      RowsGain(Overflow(surfaces, limit, s - 1), bucket[take..], s - 1, t);
    }
  }

  lemma {:induction false} QuotaCounts(surfaces: seq<Surface>, limit: nat)
    ensures forall c: nat :: |Rows(ByQuota(surfaces, limit, SOURCE_COUNT), c)| ==
                             if c < SOURCE_COUNT then Take(surfaces, limit, c) else 0
  {
    forall c: nat
      ensures |Rows(ByQuota(surfaces, limit, SOURCE_COUNT), c)| == if c < SOURCE_COUNT then Take(surfaces, limit, c) else 0
    {
      QuotaRows(surfaces, limit, SOURCE_COUNT, c);
    }
  }

  lemma FourParts(a: Part, b: Part, c: Part, d: Part, a': Part, b': Part, c': Part, d': Part)
    ensures KeyLeq([a, b, c, d], [a', b', c', d']) <==>
            if a != a' then PartLeq(a, a') else if b != b' then PartLeq(b, b')
            else if c != c' then PartLeq(c, c') else d == d' || PartLeq(d, d')
  {
    assert [a, b, c, d][1..] == [b, c, d] && [a', b', c', d'][1..] == [b', c', d'];
    assert [b, c, d][1..] == [c, d] && [b', c', d'][1..] == [c', d'];
    assert [c, d][1..] == [d] && [c', d'][1..] == [d'];
    assert [d][1..] == [] && [d'][1..] == [];
    assert KeyLeq([d], [d']) <==> d == d' || PartLeq(d, d');
    assert KeyLeq([c, d], [c', d']) <==> if c != c' then PartLeq(c, c') else KeyLeq([d], [d']);
    assert KeyLeq([b, c, d], [b', c', d']) <==> if b != b' then PartLeq(b, b') else KeyLeq([c, d], [c', d']);
  }

  /** Within one source the two sort keys order rows alike. */
  lemma KeysAgree(a: Surface, b: Surface)
    requires Source(a) == Source(b) && KeyLeq(BucketKey(a), BucketKey(b))
    ensures KeyLeq(OverflowKey(a), OverflowKey(b))
  {
    FourParts(Num(-a.confidence), Str(a.target), Str(a.endpoint), Str(a.sourceRef),
              Num(-b.confidence), Str(b.target), Str(b.endpoint), Str(b.sourceRef));
    FourParts(Num(-a.confidence), Num(Source(a)), Str(a.target), Str(a.endpoint),
              Num(-b.confidence), Num(Source(b)), Str(b.target), Str(b.endpoint));
  }

  /** The overflow order keeps each source's own order. */
  lemma TopUpRows(surfaces: seq<Surface>, limit: nat, s: nat)
    requires s < SOURCE_COUNT
    ensures Rows(TopUp(surfaces, limit), s) == Bucket(surfaces, s)[Take(surfaces, limit, s)..]
  {
    hide Take, SourceOf, BucketKey, Taken, Quota, Overflow;
    var rest := Bucket(surfaces, s)[Take(surfaces, limit, s)..];
    SortFilter(OverflowKey, IsFrom(s), Overflow(surfaces, limit, SOURCE_COUNT));
    QuotaRows(surfaces, limit, SOURCE_COUNT, s);
    SortSorts(BucketKey, Rows(surfaces, s));
    BucketMembers(surfaces, s);
    forall i, j | 0 <= i < j < |rest| ensures KeyLeq(OverflowKey(rest[i]), OverflowKey(rest[j])) {
      assert rest[i] in Bucket(surfaces, s) && rest[j] in Bucket(surfaces, s);
      KeysAgree(rest[i], rest[j]);
    }
    SortOfSorted(OverflowKey, rest);
  }

  lemma RowsSplit(rows: seq<Surface>, part: seq<Surface>, s: nat)
    ensures Rows(rows + part, s) == Rows(rows, s) + Rows(part, s)
  {
    FilterAppend(IsFrom(s), rows, part);
  }

  lemma PrefixOfParts(a: seq<Surface>, b: seq<Surface>, c: seq<Surface>, whole: seq<Surface>)
    requires whole == a + (b + c)
    ensures a + b <= whole
  {
  }

  /** What the selection takes from a source is a prefix of that source's order. */
  lemma {:induction false} SelectsPrefixes(surfaces: seq<Surface>, limit: nat, s: nat)
    requires s < SOURCE_COUNT
    ensures Rows(Selection(surfaces, limit), s) <= Bucket(surfaces, s)
    ensures |Rows(Selection(surfaces, limit), s)| >= Take(surfaces, limit, s)
  {
    hide Take, Bucket, SourceOf, Taken, Quota, ByQuota, TopUp, Rows, Room;
    var rest, room := TopUp(surfaces, limit), Room(surfaces, limit);
    var bucket, take := Bucket(surfaces, s), Take(surfaces, limit, s);
    RowsSplit(ByQuota(surfaces, limit, SOURCE_COUNT), rest[..room], s);
    RowsSplit(rest[..room], rest[room..], s);
    assert rest == rest[..room] + rest[room..];
    QuotaRows(surfaces, limit, SOURCE_COUNT, s);
    TopUpRows(surfaces, limit, s);
    assert bucket == bucket[..take] + bucket[take..];
    PrefixOfParts(bucket[..take], Rows(rest[..room], s), Rows(rest[room..], s), bucket);
  }

  // ----- how much is taken

  lemma {:induction false} QuotaMeasures(surfaces: seq<Surface>, limit: nat, s: nat)
    ensures Taken(surfaces, limit, s) + |Overflow(surfaces, limit, s)| == RowsBefore(surfaces, s)
  {
    hide Bucket, Quota, Take;
    if s > 0 { QuotaMeasures(surfaces, limit, s - 1); }
  }

  function RowsBefore(surfaces: seq<Surface>, s: nat): nat {
    if s == 0 then 0 else RowsBefore(surfaces, s - 1) + |Bucket(surfaces, s - 1)|
  }

  lemma {:induction false} RowsBeforeStep(init: seq<Surface>, last: Surface, s: nat)
    ensures RowsBefore(init + [last], s) == RowsBefore(init, s) + if Source(last) < s then 1 else 0
  {
    if s > 0 {
      RowsBeforeStep(init, last, s - 1);
      RowsAppend(init, last);
      BucketMembers(init, s - 1);
      BucketMembers(init + [last], s - 1);
    }
  }

  /** Every row is in exactly one bucket. */
  lemma {:induction false} AllRowsCounted(surfaces: seq<Surface>)
    ensures RowsBefore(surfaces, SOURCE_COUNT) == |surfaces|
  {
    if surfaces == [] {
      EmptyRowsBefore(SOURCE_COUNT);
    } else {
      var init, last := surfaces[..|surfaces| - 1], surfaces[|surfaces| - 1];
      assert surfaces == init + [last];
      AllRowsCounted(init);
      RowsBeforeStep(init, last, SOURCE_COUNT);
    }
  }

  lemma {:induction false} EmptyRowsBefore(s: nat)
    ensures RowsBefore([], s) == 0
  {
    if s > 0 { EmptyRowsBefore(s - 1); }
  }

  /** Exactly min(limit, n) rows are selected. */
  lemma SelectsExactly(surfaces: seq<Surface>, limit: nat)
    ensures |Selection(surfaces, limit)| == Min(limit, |surfaces|)
  {
    hide Taken, Overflow, RowsBefore, Quota;
    QuotaMeasures(surfaces, limit, SOURCE_COUNT);
    AllRowsCounted(surfaces);
    SortPermutes(OverflowKey, Overflow(surfaces, limit, SOURCE_COUNT));
  }

  lemma {:induction false} QuotaPermutes(surfaces: seq<Surface>, limit: nat, s: nat)
    ensures multiset(ByQuota(surfaces, limit, s)) + multiset(Overflow(surfaces, limit, s)) ==
            multiset(BucketsBefore(surfaces, s))
  {
    hide Take, Bucket, Taken, Quota;
    if s > 0 {
      QuotaPermutes(surfaces, limit, s - 1);
      SplitPermutes(ByQuota(surfaces, limit, s - 1), Overflow(surfaces, limit, s - 1),
                    BucketsBefore(surfaces, s - 1), Bucket(surfaces, s - 1), Take(surfaces, limit, s - 1));
    }
  }

  lemma SplitPermutes(a: seq<Surface>, b: seq<Surface>, whole: seq<Surface>, bucket: seq<Surface>, take: nat)
    requires multiset(a) + multiset(b) == multiset(whole) && take <= |bucket|
    ensures multiset(a + bucket[..take]) + multiset(b + bucket[take..]) == multiset(whole + bucket)
  {
    assert bucket == bucket[..take] + bucket[take..];
  }

  function BucketsBefore(surfaces: seq<Surface>, s: nat): seq<Surface> {
    if s == 0 then [] else BucketsBefore(surfaces, s - 1) + Bucket(surfaces, s - 1)
  }

  lemma BucketGains(init: seq<Surface>, last: Surface, s: nat)
    ensures multiset(Bucket(init + [last], s)) ==
            multiset(Bucket(init, s)) + if Source(last) == s then multiset{last} else multiset{}
  {
    hide SourceOf, BucketKey;
    RowsAppend(init, last);
    SortPermutes(BucketKey, Rows(init, s));
    SortPermutes(BucketKey, Rows(init + [last], s));
  }

  lemma {:induction false} BucketsBeforeStep(init: seq<Surface>, last: Surface, s: nat)
    ensures multiset(BucketsBefore(init + [last], s)) ==
            multiset(BucketsBefore(init, s)) + if Source(last) < s then multiset{last} else multiset{}
  {
    hide SourceOf, Bucket;
    if s > 0 {
      BucketsBeforeStep(init, last, s - 1);
      BucketGains(init, last, s - 1);
    }
  }

  lemma {:induction false} BucketsPermute(surfaces: seq<Surface>)
    ensures multiset(BucketsBefore(surfaces, SOURCE_COUNT)) == multiset(surfaces)
  {
    if surfaces == [] {
      EmptyBuckets(SOURCE_COUNT);
    } else {
      var init, last := surfaces[..|surfaces| - 1], surfaces[|surfaces| - 1];
      assert surfaces == init + [last];
      BucketsPermute(init);
      BucketsBeforeStep(init, last, SOURCE_COUNT);
    }
  }

  lemma {:induction false} EmptyBuckets(s: nat)
    ensures BucketsBefore([], s) == []
  {
    if s > 0 { EmptyBuckets(s - 1); }
  }

  /** The selection is part of the input, each input row used at most once; what is
      left out is exactly the rest of the overflow, and none of it beats a chosen
      overflow row on confidence. */
  lemma {:induction false} SelectsBestOverflow(surfaces: seq<Surface>, limit: nat)
    ensures var skipped := TopUp(surfaces, limit)[Room(surfaces, limit)..];
            var chosen := TopUp(surfaces, limit)[..Room(surfaces, limit)];
            && multiset(Selection(surfaces, limit)) + multiset(skipped) == multiset(surfaces)
            && forall i, j :: 0 <= i < |chosen| && 0 <= j < |skipped| ==> chosen[i].confidence >= skipped[j].confidence
  {
    SelectionPartitions(surfaces, limit);
    var rest, room := TopUp(surfaces, limit), Room(surfaces, limit);
    SortSorts(OverflowKey, Overflow(surfaces, limit, SOURCE_COUNT));
    hide TopUp, Room, Selection;
    ConfidenceFalls(rest, room);
  }

  lemma {:induction false} SelectionPartitions(surfaces: seq<Surface>, limit: nat)
    ensures multiset(Selection(surfaces, limit)) + multiset(TopUp(surfaces, limit)[Room(surfaces, limit)..]) ==
            multiset(surfaces)
  {
    hide Overflow, ByQuota, Taken, BucketsBefore;
    var rest, room := TopUp(surfaces, limit), Room(surfaces, limit);
    SortPermutes(OverflowKey, Overflow(surfaces, limit, SOURCE_COUNT));
    QuotaPermutes(surfaces, limit, SOURCE_COUNT);
    BucketsPermute(surfaces);
    assert rest == rest[..room] + rest[room..];
  }

  lemma ConfidenceFalls(rest: seq<Surface>, room: nat)
    requires Sorted(OverflowKey, rest) && room <= |rest|
    ensures forall i, j :: 0 <= i < room && 0 <= j < |rest| - room ==>
              rest[..room][i].confidence >= rest[room..][j].confidence
  {
    var chosen, skipped := rest[..room], rest[room..];
    forall i, j | 0 <= i < |chosen| && 0 <= j < |skipped|
      ensures chosen[i].confidence >= skipped[j].confidence
    {
      assert KeyLeq(OverflowKey(rest[i]), OverflowKey(rest[room + j]));
    }
  }

  // ----- fairness

  lemma {:induction false} TakenBounded(surfaces: seq<Surface>, limit: nat, s: nat)
    ensures Taken(surfaces, limit, s) <= Active(surfaces, s) * Quota(surfaces, limit)
  {
    hide Take, Quota, Rows;
    if s > 0 {
      TakenBounded(surfaces, limit, s - 1);
      TakeBounded(surfaces, limit, s - 1);
      OneMore(Active(surfaces, s - 1), Quota(surfaces, limit));
    }
  }

  lemma OneMore(a: int, q: int)
    ensures (a + 1) * q == a * q + q
  {
  }

  lemma TakeBounded(surfaces: seq<Surface>, limit: nat, s: nat)
    ensures Take(surfaces, limit, s) <= if Rows(surfaces, s) == [] then 0 else Quota(surfaces, limit)
  {
    BucketMembers(surfaces, s);
  }

  lemma {:induction false} ActiveGrows(surfaces: seq<Surface>, s: nat, t: nat)
    requires s <= t
    ensures Active(surfaces, s) <= Active(surfaces, t)
    decreases t
  {
    if s < t { ActiveGrows(surfaces, s, t - 1); }
  }

  /** When the limit is at least the number of sources, each source gets at least its
      equal share of the limit, or all of its rows if it has fewer. */
  lemma EverySourceServed(surfaces: seq<Surface>, limit: nat, s: nat)
    requires s < SOURCE_COUNT && Active(surfaces, SOURCE_COUNT) <= limit
    requires Rows(surfaces, s) != []
    ensures Active(surfaces, SOURCE_COUNT) > 0
    ensures |Rows(Selection(surfaces, limit), s)| >=
            Min(limit / Active(surfaces, SOURCE_COUNT), |Rows(surfaces, s)|)
  {
    var k, q := Active(surfaces, SOURCE_COUNT), Quota(surfaces, limit);
    ActiveGrows(surfaces, s + 1, SOURCE_COUNT);
    TakenBounded(surfaces, limit, s);
    assert Active(surfaces, s) + 1 <= k;
    ShareFits(limit, k, Active(surfaces, s));
    BucketMembers(surfaces, s);
    SelectsPrefixes(surfaces, limit, s);
  }

  lemma QuotientBounds(limit: nat, k: nat)
    requires k > 0
    ensures limit / k * k <= limit < limit / k * k + k && limit / k >= 0
  {
  }

  lemma ProductOrder(a: int, b: int, q: int)
    requires a <= b && q >= 0
    ensures a * q <= b * q
  {
  }

  lemma {:induction false} ShareFits(limit: nat, k: nat, a: nat)
    requires 0 < k <= limit && a + 1 <= k
    ensures limit / k >= 1 && a * (limit / k) + limit / k <= limit
  {
    var q := limit / k;
    QuotientBounds(limit, k);
    if q < 1 { assert q <= 0; ProductOrder(q, 0, k); }
    ProductOrder(a + 1, k, q);
    OneMore(a, q);
  }

  // ----- the order of the input does not matter

  lemma {:induction false} MapAppend<T, U>(f: T -> U, a: seq<T>, b: seq<T>)
    ensures Map(f, a + b) == Map(f, a) + Map(f, b)
  {
  }

  function KeySource(k: Key): nat {
    if |k| == 4 && k[3].Str? then SourceOf(k[3].s) else 0
  }

  function KeyFrom(s: nat): Key -> bool { (k: Key) => KeySource(k) == s }

  lemma {:induction false} MapRows(rows: seq<Surface>, s: nat)
    ensures Map(BucketKey, Rows(rows, s)) == Filter(KeyFrom(s), Map(BucketKey, rows))
  {
    if rows != [] {
      MapRows(rows[1..], s);
      assert Map(BucketKey, rows)[1..] == Map(BucketKey, rows[1..]);
      MapAppend(BucketKey, if Source(rows[0]) == s then [rows[0]] else [], Rows(rows[1..], s));
    }
  }

  /** Two inputs whose rows have the same keys. */
  ghost predicate SameKeys(a: seq<Surface>, b: seq<Surface>) {
    multiset(Map(BucketKey, a)) == multiset(Map(BucketKey, b))
  }

  lemma SameBuckets(a: seq<Surface>, b: seq<Surface>, s: nat)
    requires SameKeys(a, b)
    ensures Map(BucketKey, Bucket(a, s)) == Map(BucketKey, Bucket(b, s))
    ensures |Bucket(a, s)| == |Bucket(b, s)| && (Rows(a, s) == [] <==> Rows(b, s) == [])
  {
    MapRows(a, s);
    MapRows(b, s);
    FilterMultiset(KeyFrom(s), Map(BucketKey, a), Map(BucketKey, b));
    SortKeysCanonical(BucketKey, Rows(a, s), BucketKey, Rows(b, s));
    BucketMembers(a, s);
    BucketMembers(b, s);
  }

  lemma {:induction false} SameActive(a: seq<Surface>, b: seq<Surface>, s: nat)
    requires SameKeys(a, b)
    ensures Active(a, s) == Active(b, s)
  {
    if s > 0 {
      SameActive(a, b, s - 1);
      SameBuckets(a, b, s - 1);
    }
  }

  lemma SameQuota(a: seq<Surface>, b: seq<Surface>, limit: nat)
    requires SameKeys(a, b)
    ensures Quota(a, limit) == Quota(b, limit)
  {
    SameActive(a, b, SOURCE_COUNT);
  }

  lemma {:induction false} SameTaken(a: seq<Surface>, b: seq<Surface>, limit: nat, s: nat)
    requires SameKeys(a, b)
    ensures Taken(a, limit, s) == Taken(b, limit, s) && Take(a, limit, s) == Take(b, limit, s)
  {
    hide BucketKey, Bucket, Quota, Map;
    SameQuota(a, b, limit);
    SameBuckets(a, b, s);
    if s > 0 { SameTaken(a, b, limit, s - 1); }
  }

  lemma {:induction false} SameQuotas(a: seq<Surface>, b: seq<Surface>, limit: nat, s: nat)
    requires SameKeys(a, b)
    ensures Map(BucketKey, ByQuota(a, limit, s)) == Map(BucketKey, ByQuota(b, limit, s))
    ensures Map(BucketKey, Overflow(a, limit, s)) == Map(BucketKey, Overflow(b, limit, s))
  {
    hide BucketKey, Bucket, Map, Take, Taken, SameKeys;
    if s > 0 {
      SameQuotas(a, b, limit, s - 1);
      SameBuckets(a, b, s - 1);
      SameTaken(a, b, limit, s - 1);
      var x, y, take := Bucket(a, s - 1), Bucket(b, s - 1), Take(a, limit, s - 1);
      SameHeads(ByQuota(a, limit, s - 1), ByQuota(b, limit, s - 1), x, y, take);
      SameTails(Overflow(a, limit, s - 1), Overflow(b, limit, s - 1), x, y, take);
    }
  }

  lemma {:induction false} SameHeads(p: seq<Surface>, q: seq<Surface>, x: seq<Surface>, y: seq<Surface>, k: nat)
    requires Map(BucketKey, p) == Map(BucketKey, q) && Map(BucketKey, x) == Map(BucketKey, y) && k <= |x|
    ensures k <= |y| && Map(BucketKey, p + x[..k]) == Map(BucketKey, q + y[..k])
  {
    MapSlice(x, y, 0, k);
    assert x[0..k] == x[..k] && y[0..k] == y[..k];
    MapAppend(BucketKey, p, x[..k]);
    MapAppend(BucketKey, q, y[..k]);
  }

  lemma SameTails(p: seq<Surface>, q: seq<Surface>, x: seq<Surface>, y: seq<Surface>, k: nat)
    requires Map(BucketKey, p) == Map(BucketKey, q) && Map(BucketKey, x) == Map(BucketKey, y) && k <= |x|
    ensures k <= |y| && Map(BucketKey, p + x[k..]) == Map(BucketKey, q + y[k..])
  {
    assert |x| == |Map(BucketKey, x)| == |Map(BucketKey, y)| == |y|;
    MapSlice(x, y, k, |x|);
    assert x[k..|x|] == x[k..] && y[k..|y|] == y[k..];
    MapAppend(BucketKey, p, x[k..]);
    MapAppend(BucketKey, q, y[k..]);
  }

  lemma MapSlice(x: seq<Surface>, y: seq<Surface>, lo: nat, hi: nat)
    requires Map(BucketKey, x) == Map(BucketKey, y) && lo <= hi <= |x|
    ensures hi <= |y| && Map(BucketKey, x[lo..hi]) == Map(BucketKey, y[lo..hi])
  {
    assert |x| == |Map(BucketKey, x)| == |Map(BucketKey, y)| == |y|;
    forall i | lo <= i < hi ensures BucketKey(x[i]) == BucketKey(y[i]) {
      assert Map(BucketKey, x)[i] == Map(BucketKey, y)[i];
    }
  }

  /** Rows that agree on their bucket keys sort alike under the overflow key. */
  lemma {:induction false} SameTopUp(x: seq<Surface>, y: seq<Surface>)
    requires Map(BucketKey, x) == Map(BucketKey, y)
    ensures Map(BucketKey, SortBy(OverflowKey, x)) == Map(BucketKey, SortBy(OverflowKey, y))
  {
    assert |x| == |Map(BucketKey, x)| == |Map(BucketKey, y)| == |y|;
    if x != [] {
      assert Map(BucketKey, x)[0] == Map(BucketKey, y)[0];
      MapSlice(x, y, 1, |x|);
      assert x[1..|x|] == x[1..] && y[1..|y|] == y[1..];
      SameTopUp(x[1..], y[1..]);
      SameInsert(x[0], y[0], SortBy(OverflowKey, x[1..]), SortBy(OverflowKey, y[1..]));
    }
  }

  lemma {:induction false} SameInsert(r: Surface, q: Surface, x: seq<Surface>, y: seq<Surface>)
    requires BucketKey(r) == BucketKey(q) && Map(BucketKey, x) == Map(BucketKey, y)
    ensures Map(BucketKey, Insert(OverflowKey, r, x)) == Map(BucketKey, Insert(OverflowKey, q, y))
  {
    assert |x| == |Map(BucketKey, x)| == |Map(BucketKey, y)| == |y|;
    SameOverflowKey(r, q);
    if x != [] {
      assert Map(BucketKey, x)[0] == Map(BucketKey, y)[0];
      SameOverflowKey(x[0], y[0]);
      if !KeyLeq(OverflowKey(r), OverflowKey(x[0])) {
        MapSlice(x, y, 1, |x|);
        assert x[1..|x|] == x[1..] && y[1..|y|] == y[1..];
        SameInsert(r, q, x[1..], y[1..]);
        MapAppend(BucketKey, [x[0]], Insert(OverflowKey, r, x[1..]));
        MapAppend(BucketKey, [y[0]], Insert(OverflowKey, q, y[1..]));
      } else {
        MapAppend(BucketKey, [r], x);
        MapAppend(BucketKey, [q], y);
      }
    }
  }

  lemma SameOverflowKey(r: Surface, q: Surface)
    requires BucketKey(r) == BucketKey(q)
    ensures OverflowKey(r) == OverflowKey(q)
  {
    assert BucketKey(r)[0] == BucketKey(q)[0] && BucketKey(r)[1] == BucketKey(q)[1];
    assert BucketKey(r)[2] == BucketKey(q)[2] && BucketKey(r)[3] == BucketKey(q)[3];
  }

  /** The sequence of selected keys does not depend on the order of the input. */
  lemma {:induction false} SelectionIgnoresOrder(a: seq<Surface>, b: seq<Surface>, limit: nat)
    requires SameKeys(a, b)
    ensures Map(BucketKey, Selection(a, limit)) == Map(BucketKey, Selection(b, limit))
  {
    SameTaken(a, b, limit, SOURCE_COUNT);
    SameQuotas(a, b, limit, SOURCE_COUNT);
    SameTopUp(Overflow(a, limit, SOURCE_COUNT), Overflow(b, limit, SOURCE_COUNT));
    var x, y := TopUp(a, limit), TopUp(b, limit);
    assert |x| == |Map(BucketKey, x)| == |Map(BucketKey, y)| == |y|;
    var room := Room(a, limit);
    MapSlice(x, y, 0, room);
    assert x[0..room] == x[..room] && y[0..room] == y[..room];
    MapAppend(BucketKey, ByQuota(a, limit, SOURCE_COUNT), x[..room]);
    MapAppend(BucketKey, ByQuota(b, limit, SOURCE_COUNT), y[..room]);
  }
}
