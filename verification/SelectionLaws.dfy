/** What the balanced selection takes, told by prefixes, ranks and numbers of rows. */
module SelectionLaws {
  import opened BalancedSelection
  import opened Ordering

  /** The position of a row's source: findings, endpoints, validations, fingerprints, names, scripts, others. */
  lemma WhichSource(ref: string)
    ensures SourceOf(ref) == 0 <==> "raw-finding:" <= ref
    ensures SourceOf(ref) == 1 <==> "raw-endpoint:" <= ref
    ensures SourceOf(ref) == 2 <==> "raw-validation:" <= ref
    ensures SourceOf(ref) == 3 <==> "raw-fingerprint:" <= ref
    ensures SourceOf(ref) == 4 <==> "raw-cname:" <= ref
    ensures SourceOf(ref) == 5 <==> "semantic-js:" <= ref
    ensures SourceOf(ref) < 7
  {
    if "raw-finding:" <= ref { assert ref[4] == 'f' && ref[5] == 'i'; }
    if "raw-endpoint:" <= ref { assert ref[4] == 'e'; }
    if "raw-validation:" <= ref { assert ref[4] == 'v'; }
    if "raw-fingerprint:" <= ref { assert ref[4] == 'f' && ref[5] == 'i' && ref[6] == 'n' && ref[7] == 'g'; }
    if "raw-finding:" <= ref { assert ref[7] == 'd'; }
    if "raw-cname:" <= ref { assert ref[4] == 'c'; }
    if "semantic-js:" <= ref { assert ref[0] == 's'; }
  }

  function From(s: nat): Surface -> bool { (row: Surface) => SourceOf(row.sourceRef) == s }

  predicate StringLess(a: string, b: string) { a != b && StringLeq(a, b) }

  /** The order inside a source: higher confidence first, then target, endpoint and reference. */
  predicate Precedes(a: Surface, b: Surface) {
    || a.confidence > b.confidence
    || (a.confidence == b.confidence &&
        (|| StringLess(a.target, b.target)
         || (a.target == b.target &&
             (|| StringLess(a.endpoint, b.endpoint)
              || (a.endpoint == b.endpoint && StringLeq(a.sourceRef, b.sourceRef))))))
  }

  /** The order of what is left over: higher confidence first, then the source's position, target and endpoint. */
  predicate PrecedesInTopUp(a: Surface, b: Surface) {
    || a.confidence > b.confidence
    || (a.confidence == b.confidence &&
        (|| SourceOf(a.sourceRef) < SourceOf(b.sourceRef)
         || (SourceOf(a.sourceRef) == SourceOf(b.sourceRef) &&
             (|| StringLess(a.target, b.target)
              || (a.target == b.target && StringLeq(a.endpoint, b.endpoint))))))
  }

  lemma BucketOrder(a: Surface, b: Surface)
    requires KeyLeq(BucketKey(a), BucketKey(b))
    ensures Precedes(a, b)
  {
    hide KeyLeq;
    FourParts(Num(-a.confidence), Str(a.target), Str(a.endpoint), Str(a.sourceRef),
              Num(-b.confidence), Str(b.target), Str(b.endpoint), Str(b.sourceRef));
    StringTotal(a.sourceRef, b.sourceRef);
  }

  lemma TopUpOrder(a: Surface, b: Surface)
    requires KeyLeq(OverflowKey(a), OverflowKey(b))
    ensures PrecedesInTopUp(a, b)
  {
    hide KeyLeq, SourceOf;
    FourParts(Num(-a.confidence), Num(Source(a)), Str(a.target), Str(a.endpoint),
              Num(-b.confidence), Num(Source(b)), Str(b.target), Str(b.endpoint));
    StringTotal(a.endpoint, b.endpoint);
  }

  lemma RowsAre(surfaces: seq<Surface>, s: nat)
    ensures Rows(surfaces, s) == Filter(From(s), surfaces)
  {
    forall row: Surface ensures IsFrom(s)(row) <==> From(s)(row) { }
    SameFilter(IsFrom(s), From(s), surfaces);
    hide SourceOf, Filter;
  }

  /** The selected rows of a source are in the source's order, and no row of it that is left out comes before one. */
  lemma {:induction false} BestOfEachSource(surfaces: seq<Surface>, limit: nat, s: nat) returns (left: seq<Surface>)
    requires s < 7
    ensures var own := Filter(From(s), Selection(surfaces, limit));
            && multiset(own) + multiset(left) == multiset(Filter(From(s), surfaces))
            && (forall i, j :: 0 <= i < j < |own| ==> Precedes(own[i], own[j]))
            && (forall i, j :: 0 <= i < |own| && 0 <= j < |left| ==> Precedes(own[i], left[j]))
  {
    hide SourceOf, Take, ByQuota, TopUp, Room, Filter, Precedes, BucketKey, Selection;
    RowsAre(surfaces, s);
    RowsAre(Selection(surfaces, limit), s);
    SelectsPrefixes(surfaces, limit, s);
    SortPermutes(BucketKey, Rows(surfaces, s));
    SortSorts(BucketKey, Rows(surfaces, s));
    var own, bucket := Rows(Selection(surfaces, limit), s), Bucket(surfaces, s);
    left := bucket[|own|..];
    assert bucket == own + left;
    forall i, j | 0 <= i < j < |bucket| ensures Precedes(bucket[i], bucket[j]) { BucketOrder(bucket[i], bucket[j]); }
    assert forall i :: 0 <= i < |own| ==> own[i] == bucket[i];
    assert forall j :: 0 <= j < |left| ==> left[j] == bucket[|own| + j];
  }

  // ----- shares

  function Sources(surfaces: seq<Surface>): set<nat> { set row | row in surfaces :: SourceOf(row.sourceRef) }

  function SourcesBefore(surfaces: seq<Surface>, s: nat): set<nat> { set c | c in Sources(surfaces) && c < s }

  lemma HasRows(surfaces: seq<Surface>, s: nat)
    ensures s in Sources(surfaces) <==> Rows(surfaces, s) != []
  {
    FilterMembers(IsFrom(s), surfaces);
    hide SourceOf, Filter;
    if s in Sources(surfaces) {
      var row :| row in surfaces && SourceOf(row.sourceRef) == s;
      assert IsFrom(s)(row);
    }
    if Rows(surfaces, s) != [] { assert Rows(surfaces, s)[0] in Rows(surfaces, s); }
  }

  lemma {:induction false} ActiveAre(surfaces: seq<Surface>, s: nat)
    ensures Active(surfaces, s) == |SourcesBefore(surfaces, s)|
  {
    hide Sources, Rows;
    if s == 0 {
      assert SourcesBefore(surfaces, 0) == {};
    } else {
      ActiveAre(surfaces, s - 1);
      HasRows(surfaces, s - 1);
      assert SourcesBefore(surfaces, s) == SourcesBefore(surfaces, s - 1) + if s - 1 in Sources(surfaces) then {s - 1} else {};
    }
  }

  lemma AllActive(surfaces: seq<Surface>)
    ensures Active(surfaces, SOURCE_COUNT) == |Sources(surfaces)|
    ensures surfaces != [] ==> |Sources(surfaces)| > 0
  {
    ActiveAre(surfaces, SOURCE_COUNT);
    assert SourcesBefore(surfaces, SOURCE_COUNT) == Sources(surfaces);
    if surfaces != [] { assert SourceOf(surfaces[0].sourceRef) in Sources(surfaces); }
  }

  /** The equal share of the limit among the sources, and one row when the limit is smaller than their number. */
  function Share(surfaces: seq<Surface>, limit: nat): nat
    requires surfaces != []
  {
    AllActive(surfaces);
    if limit < |Sources(surfaces)| then 1 else limit / |Sources(surfaces)|
  }

  lemma ShareIsQuota(surfaces: seq<Surface>, limit: nat)
    requires surfaces != []
    ensures Quota(surfaces, limit) == Share(surfaces, limit)
  {
    AllActive(surfaces);
    var k := |Sources(surfaces)|;
    QuotientBounds(limit, k);
    hide Sources, Active;
    if limit < k {
      if limit / k >= 1 { ProductOrder(1, limit / k, k); }
    } else if limit / k < 1 {
      ProductOrder(limit / k, 0, k);
    }
  }

  /** Every source gets its share or all its rows, when there are as many places as sources; otherwise the first
      sources in order get one row each. */
  lemma WhatEachSourceGets(surfaces: seq<Surface>, limit: nat, s: nat)
    requires surfaces != [] && s in Sources(surfaces)
    ensures var own, all := Number(From(s), Selection(surfaces, limit)), Number(From(s), surfaces);
            && (limit >= |Sources(surfaces)| ==> own >= Share(surfaces, limit) || own == all)
            && (limit < |Sources(surfaces)| && |SourcesBefore(surfaces, s)| < limit ==> own >= 1)
  {
    hide SourceOf, Filter, Selection, Taken, Take, Quota, Bucket;
    AllActive(surfaces);
    HasRows(surfaces, s);
    RowsAre(surfaces, s);
    RowsAre(Selection(surfaces, limit), s);
    var own, all := Rows(Selection(surfaces, limit), s), Rows(surfaces, s);
    assert |own| == Number(From(s), Selection(surfaces, limit)) && |all| == Number(From(s), surfaces);
    SelectsPrefixes(surfaces, limit, s);
    BucketMembers(surfaces, s);
    if limit >= |Sources(surfaces)| {
      EverySourceServed(surfaces, limit, s);
    } else if |SourcesBefore(surfaces, s)| < limit {
      ShareIsQuota(surfaces, limit);
      ActiveAre(surfaces, s);
      TakenBounded(surfaces, limit, s);
      TimesOne(Active(surfaces, s), Quota(surfaces, limit));
      OneTaken(surfaces, limit, s);
    }
  }

  lemma TimesOne(a: nat, q: nat)
    requires q == 1
    ensures a * q == a
  {
  }

  lemma OneTaken(surfaces: seq<Surface>, limit: nat, s: nat)
    requires Quota(surfaces, limit) == 1 && Rows(surfaces, s) != [] && Taken(surfaces, limit, s) < limit
    ensures Take(surfaces, limit, s) >= 1
  {
    BucketMembers(surfaces, s);
    hide Bucket, Taken, Quota, Rows;
  }

  /** What a source gets beyond its share ranks before everything that is left out, whatever its source. */
  lemma {:induction false} SurplusIsBest(surfaces: seq<Surface>, limit: nat, s: nat, i: nat, b: Surface)
    requires surfaces != [] && s < 7
    requires Share(surfaces, limit) <= i < |Filter(From(s), Selection(surfaces, limit))|
    requires multiset(Selection(surfaces, limit))[b] < multiset(surfaces)[b]
    ensures PrecedesInTopUp(Filter(From(s), Selection(surfaces, limit))[i], b)
  {
    hide SourceOf, Filter, Taken, Quota, Bucket, ByQuota, Room, Share, Take, TopUp;
    RowsAre(Selection(surfaces, limit), s);
    ShareIsQuota(surfaces, limit);
    TakeBounded(surfaces, limit, s);
    var rest, room := TopUp(surfaces, limit), Room(surfaces, limit);
    QuotaRows(surfaces, limit, SOURCE_COUNT, s);
    RowsSplit(ByQuota(surfaces, limit, SOURCE_COUNT), rest[..room], s);
    var own := Rows(Selection(surfaces, limit), s);
    var x := own[i];
    var k := i - Take(surfaces, limit, s);
    assert x == Rows(rest[..room], s)[k] && x in Rows(rest[..room], s);
    FilterMembers(IsFrom(s), rest[..room]);
    assert x in rest[..room];
    SelectionPartitions(surfaces, limit);
    hide Selection, Rows;
    assert b in multiset(rest[room..]);
    SortedRest(surfaces, limit, x, b);
  }

  lemma SortedRest(surfaces: seq<Surface>, limit: nat, x: Surface, b: Surface)
    requires x in TopUp(surfaces, limit)[..Room(surfaces, limit)] && b in TopUp(surfaces, limit)[Room(surfaces, limit)..]
    ensures PrecedesInTopUp(x, b)
  {
    SortSorts(OverflowKey, Overflow(surfaces, limit, SOURCE_COUNT));
    var rest, room := TopUp(surfaces, limit), Room(surfaces, limit);
    hide TopUp, Room, PrecedesInTopUp;
    var i :| 0 <= i < room && rest[i] == x;
    var j :| 0 <= j < |rest| - room && rest[room..][j] == b;
    assert KeyLeq(OverflowKey(rest[i]), OverflowKey(rest[room + j]));
    TopUpOrder(x, b);
  }
}
