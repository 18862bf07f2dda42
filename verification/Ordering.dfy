/** Python's comparison of strings and tuples, and its stable `sorted(rows, key=...)`.

    Every sort of the application orders rows by a tuple of integers and
    strings, so one total order on such tuples serves them all. */
module Ordering {

  datatype Part = Num(n: int) | Str(s: string)

  type Key = seq<Part>

  /** Code point by code point; a proper prefix comes first. */
  predicate StringLeq(a: string, b: string) {
    a == [] || (b != [] && (a[0] < b[0] || (a[0] == b[0] && StringLeq(a[1..], b[1..]))))
  }

  lemma {:induction false} StringTotal(a: string, b: string)
    ensures StringLeq(a, b) || StringLeq(b, a)
  {
    if a != [] && b != [] { StringTotal(a[1..], b[1..]); }
  }

  lemma {:induction false} StringTransitive(a: string, b: string, c: string)
    requires StringLeq(a, b) && StringLeq(b, c)
    ensures StringLeq(a, c)
  {
    if a != [] && a[0] == b[0] && b[0] == c[0] { StringTransitive(a[1..], b[1..], c[1..]); }
  }

  lemma {:induction false} StringAntisymmetric(a: string, b: string)
    requires StringLeq(a, b) && StringLeq(b, a)
    ensures a == b
  {
    if a != [] {
      StringAntisymmetric(a[1..], b[1..]);
      assert a == [a[0]] + a[1..] && b == [b[0]] + b[1..];
    }
  }

  predicate PartLeq(a: Part, b: Part) {
    match (a, b)
    case (Num(m), Num(n)) => m <= n
    case (Str(s), Str(t)) => StringLeq(s, t)
    case (Num(_), Str(_)) => true
    case (Str(_), Num(_)) => false
  }

  lemma PartTotal(a: Part, b: Part)
    ensures PartLeq(a, b) || PartLeq(b, a)
    ensures PartLeq(a, b) && PartLeq(b, a) ==> a == b
  {
    if a.Str? && b.Str? {
      StringTotal(a.s, b.s);
      if PartLeq(a, b) && PartLeq(b, a) { StringAntisymmetric(a.s, b.s); }
    }
  }

  lemma PartTransitive(a: Part, b: Part, c: Part)
    requires PartLeq(a, b) && PartLeq(b, c)
    ensures PartLeq(a, c)
  {
    if a.Str? { StringTransitive(a.s, b.s, c.s); }
  }

  /** Tuples compare by their first differing part. */
  predicate KeyLeq(a: Key, b: Key) {
    a == [] || (b != [] && (if a[0] == b[0] then KeyLeq(a[1..], b[1..]) else PartLeq(a[0], b[0])))
  }

  lemma {:induction false} KeyTotal(a: Key, b: Key)
    ensures KeyLeq(a, b) || KeyLeq(b, a)
  {
    if a != [] && b != [] {
      if a[0] == b[0] { KeyTotal(a[1..], b[1..]); } else { PartTotal(a[0], b[0]); }
    }
  }

  lemma {:induction false} KeyTransitive(a: Key, b: Key, c: Key)
    requires KeyLeq(a, b) && KeyLeq(b, c)
    ensures KeyLeq(a, c)
  {
    if a != [] {
      if a[0] == b[0] && b[0] == c[0] {
        KeyTransitive(a[1..], b[1..], c[1..]);
      } else if a[0] != b[0] && b[0] != c[0] {
        PartTransitive(a[0], b[0], c[0]);
        PartTotal(a[0], b[0]);
      }
    }
  }

  lemma {:induction false} KeyAntisymmetric(a: Key, b: Key)
    requires KeyLeq(a, b) && KeyLeq(b, a)
    ensures a == b
  {
    if a != [] {
      PartTotal(a[0], b[0]);
      KeyAntisymmetric(a[1..], b[1..]);
      assert a == [a[0]] + a[1..] && b == [b[0]] + b[1..];
    }
  }

  ghost predicate Sorted<T>(key: T -> Key, s: seq<T>) {
    forall i, j :: 0 <= i < j < |s| ==> KeyLeq(key(s[i]), key(s[j]))
  }

  function Insert<T>(key: T -> Key, x: T, s: seq<T>): seq<T> {
    if s == [] || KeyLeq(key(x), key(s[0])) then [x] + s else [s[0]] + Insert(key, x, s[1..])
  }

  /** `sorted(s, key=key)`: an earlier row stays before a later one of equal key. */
  function SortBy<T>(key: T -> Key, s: seq<T>): seq<T> {
    if s == [] then [] else Insert(key, s[0], SortBy(key, s[1..]))
  }

  function Filter<T>(keep: T -> bool, s: seq<T>): seq<T> {
    if s == [] then [] else (if keep(s[0]) then [s[0]] else []) + Filter(keep, s[1..])
  }

  /** How many there are. */
  function Number<T>(keep: T -> bool, s: seq<T>): nat { |Filter(keep, s)| }

  function Map<T, U>(f: T -> U, s: seq<T>): (r: seq<U>)
    ensures |r| == |s|
    ensures forall i :: 0 <= i < |s| ==> r[i] == f(s[i])
  {
    if s == [] then [] else [f(s[0])] + Map(f, s[1..])
  }

  /** Texts are ordered by the first character in which they differ, and a text before its continuations. */
  lemma {:induction false} WhatStringOrderIs(a: string, b: string)
    ensures StringLeq(a, b) <==> a <= b || exists n :: FirstDifference(a, b, n) && a[n] < b[n]
  {
    if a != [] && b != [] {
      var x, y := a[1..], b[1..];
      if a[0] != b[0] {
        assert FirstDifference(a, b, 0);
      } else {
        WhatStringOrderIs(x, y);
        assert a == [a[0]] + x && b == [b[0]] + y;
        assert a <= b <==> x <= y;
        if n :| FirstDifference(x, y, n) && x[n] < y[n] { assert FirstDifference(a, b, n + 1); }
        if n :| FirstDifference(a, b, n) && a[n] < b[n] { assert FirstDifference(x, y, n - 1) && x[n - 1] < y[n - 1]; }
      }
    }
  }

  predicate FirstDifference(a: string, b: string, n: int) {
    0 <= n < |a| && n < |b| && a[n] != b[n] && forall i :: 0 <= i < n ==> a[i] == b[i]
  }

  // ----- sorting permutes

  lemma {:induction false} InsertPermutes<T>(key: T -> Key, x: T, s: seq<T>)
    ensures multiset(Insert(key, x, s)) == multiset{x} + multiset(s)
    ensures |Insert(key, x, s)| == |s| + 1
  {
    if s != [] && !KeyLeq(key(x), key(s[0])) {
      InsertPermutes(key, x, s[1..]);
      assert s == [s[0]] + s[1..];
    }
  }

  lemma {:induction false} SortPermutes<T>(key: T -> Key, s: seq<T>)
    ensures multiset(SortBy(key, s)) == multiset(s)
    ensures |SortBy(key, s)| == |s|
  {
    if s != [] {
      SortPermutes(key, s[1..]);
      InsertPermutes(key, s[0], SortBy(key, s[1..]));
      assert s == [s[0]] + s[1..];
    }
  }

  // ----- sorting sorts

  lemma {:induction false} InsertSorts<T>(key: T -> Key, x: T, s: seq<T>)
    requires Sorted(key, s)
    ensures Sorted(key, Insert(key, x, s))
  {
    if s == [] {
    } else if KeyLeq(key(x), key(s[0])) {
      forall j | 0 <= j < |s| ensures KeyLeq(key(x), key(s[j])) {
        if j > 0 { KeyTransitive(key(x), key(s[0]), key(s[j])); }
      }
    } else {
      KeyTotal(key(x), key(s[0]));
      InsertSorts(key, x, s[1..]);
      var rest := Insert(key, x, s[1..]);
      InsertPermutes(key, x, s[1..]);
      forall j | 0 <= j < |rest| ensures KeyLeq(key(s[0]), key(rest[j])) {
        assert rest[j] in multiset(rest);
        assert rest[j] == x || rest[j] in s[1..];
      }
    }
  }

  lemma {:induction false} SortSorts<T>(key: T -> Key, s: seq<T>)
    ensures Sorted(key, SortBy(key, s))
  {
    if s != [] {
      SortSorts(key, s[1..]);
      InsertSorts(key, s[0], SortBy(key, s[1..]));
    }
  }

  // ----- sorting is stable: it commutes with taking any part of the rows

  lemma FilterCons<T>(keep: T -> bool, x: T, s: seq<T>)
    ensures Filter(keep, [x] + s) == if keep(x) then [x] + Filter(keep, s) else Filter(keep, s)
  {
    assert ([x] + s)[1..] == s;
  }

  lemma ConsAssociates<T>(x: T, a: seq<T>, b: seq<T>)
    ensures ([x] + a) + b == [x] + (a + b)
  {
  }

  lemma {:induction false} FilterAppend<T>(keep: T -> bool, a: seq<T>, b: seq<T>)
    ensures Filter(keep, a + b) == Filter(keep, a) + Filter(keep, b)
  {
    if a == [] {
      assert a + b == b;
    } else {
      var x, rest := a[0], a[1..];
      FilterAppend(keep, rest, b);
      FilterCons(keep, x, rest + b);
      FilterCons(keep, x, rest);
      hide Filter;
      ConsAssociates(x, rest, b);
      ConsAssociates(x, Filter(keep, rest), Filter(keep, b));
      assert a == [x] + rest;
    }
  }

  lemma FilterSnoc<T>(keep: T -> bool, s: seq<T>, x: T)
    ensures Filter(keep, s + [x]) == if keep(x) then Filter(keep, s) + [x] else Filter(keep, s)
  {
    FilterAppend(keep, s, [x]);
  }

  lemma {:induction false} SameFilter<T>(p: T -> bool, q: T -> bool, s: seq<T>)
    requires forall r :: p(r) <==> q(r)
    ensures Filter(p, s) == Filter(q, s)
  {
    if s != [] { SameFilter(p, q, s[1..]); }
  }

  lemma {:induction false} FilterTwice<T>(a: T -> bool, b: T -> bool, both: T -> bool, s: seq<T>)
    requires forall x :: both(x) <==> a(x) && b(x)
    ensures Filter(b, Filter(a, s)) == Filter(both, s)
  {
    if s != [] {
      var x, rest := s[0], s[1..];
      assert s == [x] + rest;
      FilterTwice(a, b, both, rest);
      FilterCons(a, x, rest);
      FilterCons(both, x, rest);
      FilterCons(b, x, Filter(a, rest));
      hide Filter;
    }
  }

  lemma NumberLast<T>(keep: T -> bool, s: seq<T>)
    requires s != []
    ensures Number(keep, s) == Number(keep, s[..|s| - 1]) + if keep(s[|s| - 1]) then 1 else 0
  {
    FilterSnoc(keep, s[..|s| - 1], s[|s| - 1]);
    assert s[..|s| - 1] + [s[|s| - 1]] == s;
    hide Filter;
  }

  lemma {:induction false} NumberSplits<T>(keep: T -> bool, a: T -> bool, b: T -> bool, s: seq<T>)
    requires forall x :: keep(x) <==> a(x) || b(x)
    requires forall x :: !(a(x) && b(x))
    ensures Number(keep, s) == Number(a, s) + Number(b, s)
  {
    if s != [] { NumberSplits(keep, a, b, s[1..]); }
  }

  lemma {:induction false} FilterAll<T>(keep: T -> bool, s: seq<T>)
    requires forall x :: x in s ==> keep(x)
    ensures Filter(keep, s) == s
  {
    if s != [] { FilterAll(keep, s[1..]); }
  }

  lemma {:induction false} FilterNone<T>(keep: T -> bool, s: seq<T>)
    requires forall x :: x in s ==> !keep(x)
    ensures Filter(keep, s) == []
  {
    if s != [] { FilterNone(keep, s[1..]); }
  }

  lemma {:induction false} FilterMembers<T>(keep: T -> bool, s: seq<T>)
    ensures forall x :: x in Filter(keep, s) ==> x in s && keep(x)
    ensures forall x :: x in s && keep(x) ==> x in Filter(keep, s)
    ensures multiset(Filter(keep, s)) <= multiset(s)
    ensures |Filter(keep, s)| <= |s|
  {
    if s != [] {
      FilterMembers(keep, s[1..]);
      assert s == [s[0]] + s[1..];
    }
  }

  lemma {:induction false} FilterCount<T>(keep: T -> bool, s: seq<T>, v: T)
    ensures multiset(Filter(keep, s))[v] == if keep(v) then multiset(s)[v] else 0
  {
    if s != [] {
      FilterCount(keep, s[1..], v);
      assert s == [s[0]] + s[1..];
    }
  }

  lemma FilterMultiset<T(!new)>(keep: T -> bool, a: seq<T>, b: seq<T>)
    requires multiset(a) == multiset(b)
    ensures multiset(Filter(keep, a)) == multiset(Filter(keep, b))
  {
    hide Filter;
    var m, n := multiset(Filter(keep, a)), multiset(Filter(keep, b));
    forall x ensures m[x] == n[x] {
      FilterCount(keep, a, x);
      FilterCount(keep, b, x);
    }
  }

  lemma SubMultisetSize<T>(a: seq<T>, b: seq<T>)
    requires multiset(a) <= multiset(b)
    ensures |a| <= |b|
    ensures forall x :: x in a ==> x in b
  {
    assert multiset(b) == multiset(a) + (multiset(b) - multiset(a));
    assert |multiset(b)| == |multiset(a)| + |multiset(b) - multiset(a)|;
    forall x | x in a ensures x in b { assert x in multiset(a) && x in multiset(b); }
  }

  lemma InsertFirst<T>(key: T -> Key, x: T, s: seq<T>)
    requires s != [] ==> KeyLeq(key(x), key(s[0]))
    ensures Insert(key, x, s) == [x] + s
  {
  }

  lemma InsertLater<T>(key: T -> Key, x: T, y: T, s: seq<T>)
    requires !KeyLeq(key(x), key(y))
    ensures Insert(key, x, [y] + s) == [y] + Insert(key, x, s)
  {
    assert ([y] + s)[1..] == s;
  }

  lemma FilterStaysAbove<T>(key: T -> Key, keep: T -> bool, x: T, s: seq<T>)
    requires Sorted(key, s) && s != [] && KeyLeq(key(x), key(s[0]))
    ensures var f := Filter(keep, s); f != [] ==> KeyLeq(key(x), key(f[0]))
  {
    var f := Filter(keep, s);
    FilterMembers(keep, s);
    if f != [] {
      assert f[0] in f;
      var i :| 0 <= i < |s| && s[i] == f[0];
      if i > 0 { KeyTransitive(key(x), key(s[0]), key(s[i])); }
    }
  }

  lemma {:induction false} InsertFilter<T>(key: T -> Key, keep: T -> bool, x: T, s: seq<T>)
    requires Sorted(key, s)
    ensures Filter(keep, Insert(key, x, s)) ==
            if keep(x) then Insert(key, x, Filter(keep, s)) else Filter(keep, s)
  {
    if s == [] {
    } else if KeyLeq(key(x), key(s[0])) {
      InsertFirst(key, x, s);
      FilterCons(keep, x, s);
      FilterStaysAbove(key, keep, x, s);
      InsertFirst(key, x, Filter(keep, s));
    } else {
      var y, rest := s[0], s[1..];
      InsertFilter(key, keep, x, rest);
      InsertFilterStep(key, keep, x, y, rest);
      assert s == [y] + rest;
    }
  }

  lemma InsertFilterStep<T>(key: T -> Key, keep: T -> bool, x: T, y: T, rest: seq<T>)
    requires !KeyLeq(key(x), key(y))
    requires Filter(keep, Insert(key, x, rest)) ==
             if keep(x) then Insert(key, x, Filter(keep, rest)) else Filter(keep, rest)
    ensures Filter(keep, Insert(key, x, [y] + rest)) ==
            if keep(x) then Insert(key, x, Filter(keep, [y] + rest)) else Filter(keep, [y] + rest)
  {
    InsertLater(key, x, y, rest);
    FilterCons(keep, y, Insert(key, x, rest));
    FilterCons(keep, y, rest);
    InsertLater(key, x, y, Filter(keep, rest));
  }

  /** Stability: sorting and then keeping some rows is keeping them and then sorting. */
  lemma {:induction false} SortFilter<T>(key: T -> Key, keep: T -> bool, s: seq<T>)
    ensures Filter(keep, SortBy(key, s)) == SortBy(key, Filter(keep, s))
  {
    if s != [] {
      var x, rest := s[0], s[1..];
      assert s == [x] + rest;
      SortFilter(key, keep, rest);
      SortSorts(key, rest);
      InsertFilter(key, keep, x, SortBy(key, rest));
      FilterCons(keep, x, rest);
      if keep(x) { SortCons(key, x, Filter(keep, rest)); }
    }
  }

  lemma SortCons<T>(key: T -> Key, x: T, s: seq<T>)
    ensures SortBy(key, [x] + s) == Insert(key, x, SortBy(key, s))
  {
    assert ([x] + s)[1..] == s;
  }

  lemma {:induction false} SortOfSorted<T>(key: T -> Key, s: seq<T>)
    requires Sorted(key, s)
    ensures SortBy(key, s) == s
  {
    if |s| > 0 { SortOfSorted(key, s[1..]); }
  }

  // ----- the sorted key sequence is determined by the multiset of keys

  lemma {:induction false} MapInsert<T>(key: T -> Key, x: T, s: seq<T>)
    ensures Map(key, Insert(key, x, s)) == Insert((k: Key) => k, key(x), Map(key, s))
  {
    if s != [] && !KeyLeq(key(x), key(s[0])) {
      MapInsert(key, x, s[1..]);
      assert Map(key, s)[1..] == Map(key, s[1..]);
      assert ([s[0]] + Insert(key, x, s[1..]))[1..] == Insert(key, x, s[1..]);
    }
  }

  lemma {:induction false} MapSort<T>(key: T -> Key, s: seq<T>)
    ensures Map(key, SortBy(key, s)) == SortBy((k: Key) => k, Map(key, s))
  {
    if s != [] {
      MapSort(key, s[1..]);
      MapInsert(key, s[0], SortBy(key, s[1..]));
      assert Map(key, s)[1..] == Map(key, s[1..]);
    }
  }

  lemma SortedHeads(a: seq<Key>, b: seq<Key>)
    requires Sorted((k: Key) => k, a) && Sorted((k: Key) => k, b)
    requires multiset(a) == multiset(b) && a != []
    ensures b != [] && a[0] == b[0]
  {
    assert a[0] in multiset(b);
    assert b[0] in multiset(a);
    var i :| 0 <= i < |b| && b[i] == a[0];
    var j :| 0 <= j < |a| && a[j] == b[0];
    KeyTotal(a[0], a[0]);
    KeyAntisymmetric(a[0], b[0]);
  }

  lemma SameRest<T>(x: T, a: seq<T>, b: seq<T>)
    requires multiset([x] + a) == multiset([x] + b)
    ensures multiset(a) == multiset(b)
  {
    assert multiset([x] + a) == multiset{x} + multiset(a);
    assert multiset([x] + b) == multiset{x} + multiset(b);
    assert multiset(a) == multiset([x] + a) - multiset{x};
  }

  lemma {:induction false} SortedKeysUnique(a: seq<Key>, b: seq<Key>)
    requires Sorted((k: Key) => k, a) && Sorted((k: Key) => k, b)
    requires multiset(a) == multiset(b)
    ensures a == b
  {
    hide KeyLeq;
    assert |a| == |multiset(a)| == |multiset(b)| == |b|;
    if a != [] {
      SortedHeads(a, b);
      assert a == [a[0]] + a[1..] && b == [a[0]] + b[1..];
      SameRest(a[0], a[1..], b[1..]);
      SortedKeysUnique(a[1..], b[1..]);
    }
  }

  /** Rows with the same keys, in whatever order they come, sort to the same keys. */
  lemma {:induction false} SortKeysCanonical<T, U>(key: T -> Key, s: seq<T>, key': U -> Key, t: seq<U>)
    requires multiset(Map(key, s)) == multiset(Map(key', t))
    ensures Map(key, SortBy(key, s)) == Map(key', SortBy(key', t))
  {
    var id := (k: Key) => k;
    MapSort(key, s);
    MapSort(key', t);
    SortSorts(id, Map(key, s));
    SortSorts(id, Map(key', t));
    SortPermutes(id, Map(key, s));
    SortPermutes(id, Map(key', t));
    SortedKeysUnique(SortBy(id, Map(key, s)), SortBy(id, Map(key', t)));
  }

  // ----- sorted(set of strings)

  ghost predicate Ascending(s: seq<string>) {
    forall i, j :: 0 <= i < j < |s| ==> StringLeq(s[i], s[j]) && s[i] != s[j]
  }

  method SortedSet(items: set<string>) returns (r: seq<string>)
    ensures Ascending(r)
    ensures forall x :: x in r <==> x in items
    ensures |r| == |items|
  {
    var left := items;
    r := [];
    while left != {}
      invariant left <= items && |r| + |left| == |items|
      invariant Ascending(r)
      invariant forall x :: x in r <==> x in items - left
      invariant forall x, y :: x in r && y in left ==> StringLeq(x, y)
      decreases left
    {
      var least := LeastOf(left);
      forall i | 0 <= i < |r| ensures StringLeq(r[i], least) && r[i] != least {
        assert r[i] in r;
      }
      r := r + [least];
      left := left - {least};
    }
  }

  method LeastOf(items: set<string>) returns (least: string)
    requires items != {}
    ensures least in items && forall x :: x in items ==> StringLeq(least, x)
  {
    least :| least in items;
    var left := items - {least};
    StringTotal(least, least);
    while left != {}
      invariant left <= items && least in items
      invariant forall x :: x in items - left ==> StringLeq(least, x)
      decreases left
    {
      var x :| x in left;
      StringTotal(x, least);
      StringTotal(x, x);
      if !StringLeq(least, x) {
        forall y | y in items - left ensures StringLeq(x, y) { StringTransitive(x, least, y); }
        least := x;
      }
      left := left - {x};
    }
  }
}
