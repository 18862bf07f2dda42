/** Sets of strings in ascending order. */
module SortedSets {
  import opened FirstSeen
  import opened Ordering

  /** `sorted(set(ids))`. */
  function SortedUnique(ids: seq<string>): seq<string> { SortBy(StringKey, Dedup(ids)) }

  function StringKey(s: string): Key { [Str(s)] }

  lemma SortedUniqueIs(ids: seq<string>)
    ensures Ascending(SortedUnique(ids)) && forall x :: x in SortedUnique(ids) <==> x in ids
  {
    var d := Dedup(ids);
    DedupMembers(ids);
    SortSorts(StringKey, d);
    SortPermutes(StringKey, d);
    hide Dedup, SortBy, KeyLeq;
    PermutedDistinct(d, SortedUnique(ids));
  }

  lemma PermutedDistinct(d: seq<string>, r: seq<string>)
    requires forall i, j :: 0 <= i < j < |d| ==> d[i] != d[j]
    requires multiset(r) == multiset(d) && Sorted(StringKey, r)
    ensures Ascending(r) && forall x :: x in r <==> x in d
  {
    hide StringLeq, KeyLeq;
    forall x ensures x in r <==> x in d { assert x in multiset(r) <==> x in multiset(d); }
    forall i, j | 0 <= i < j < |r| ensures StringLeq(r[i], r[j]) && r[i] != r[j] {
      StringKeyLeq(r[i], r[j]);
      CountInDistinct(d, r[i]);
      TwiceCounts(r, i, j);
    }
  }

  lemma StringKeyLeq(s: string, t: string)
    requires KeyLeq(StringKey(s), StringKey(t))
    ensures StringLeq(s, t)
  {
    StringTotal(s, s);
  }

  lemma SameEmptiness(a: seq<string>, b: seq<string>)
    requires forall x :: x in a <==> x in b
    ensures a == [] <==> b == []
  {
    assert |a| > 0 ==> a[0] in a;
    assert |b| > 0 ==> b[0] in b;
  }

  lemma SameHead(a: seq<string>, b: seq<string>)
    requires Ascending(a) && Ascending(b) && a != [] && b != [] && forall x :: x in a <==> x in b
    ensures a[0] == b[0]
  {
    assert a[0] in b && b[0] in a;
    var i :| 0 <= i < |b| && b[i] == a[0];
    var j :| 0 <= j < |a| && a[j] == b[0];
    if i > 0 && j > 0 { StringAntisymmetric(a[0], b[0]); }
  }

  lemma {:induction false} AscendingUnique(a: seq<string>, b: seq<string>)
    requires Ascending(a) && Ascending(b) && forall x :: x in a <==> x in b
    ensures a == b
  {
    hide StringLeq;
    SameEmptiness(a, b);
    if a != [] {
      SameHead(a, b);
      assert a == [a[0]] + a[1..] && b == [b[0]] + b[1..];
      forall x ensures x in a[1..] <==> x in b[1..] {
        assert x in a <==> x == a[0] || x in a[1..];
        assert x in b <==> x == b[0] || x in b[1..];
        assert a[0] !in a[1..] && b[0] !in b[1..];
      }
      AscendingUnique(a[1..], b[1..]);
    }
  }

  lemma SortedUniqueOf(a: seq<string>, b: seq<string>)
    requires forall x :: x in a <==> x in b
    ensures SortedUnique(a) == SortedUnique(b)
  {
    SortedUniqueIs(a);
    SortedUniqueIs(b);
    AscendingUnique(SortedUnique(a), SortedUnique(b));
  }

  lemma {:induction false} Listing(items: set<string>) returns (s: seq<string>)
    ensures forall x :: x in s <==> x in items
    decreases items
  {
    if items == {} {
      s := [];
    } else {
      var x :| x in items;
      var rest := Listing(items - {x});
      s := [x] + rest;
    }
  }

  ghost predicate Lists(items: set<string>, s: seq<string>) {
    Ascending(s) && forall x :: x in s <==> x in items
  }

  /** The members of the set in ascending order: there is exactly one such sequence. */
  ghost function InOrder(items: set<string>): (s: seq<string>)
    ensures Lists(items, s)
  {
    OrderExists(items);
    var s :| Lists(items, s);
    s
  }

  lemma OrderExists(items: set<string>)
    ensures exists s :: Lists(items, s)
  {
    var s := Listing(items);
    SortedUniqueIs(s);
    assert Lists(items, SortedUnique(s));
  }

  lemma OrderIsUnique(items: set<string>, s: seq<string>)
    requires Lists(items, s)
    ensures s == InOrder(items)
  {
    AscendingUnique(s, InOrder(items));
  }
}
