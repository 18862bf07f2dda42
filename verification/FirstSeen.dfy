/** A sequence without its repetitions, in the order of first appearance: `list(dict.fromkeys(s))`. */
module FirstSeen {

  function Dedup<T(==)>(s: seq<T>): seq<T> {
    if s == [] then []
    else
      var init, last := Dedup(s[..|s| - 1]), s[|s| - 1];
      if last in init then init else init + [last]
  }

  lemma {:induction false} DedupMembers<T>(s: seq<T>)
    ensures forall x :: x in Dedup(s) <==> x in s
    ensures forall i, j :: 0 <= i < j < |Dedup(s)| ==> Dedup(s)[i] != Dedup(s)[j]
  {
    if s != [] {
      var init, last := s[..|s| - 1], s[|s| - 1];
      DedupMembers(init);
      assert s == init + [last];
    }
  }

  /** In a sequence without repetition every member is counted once. */
  lemma {:induction false} CountInDistinct<T>(s: seq<T>, x: T)
    requires forall i, j :: 0 <= i < j < |s| ==> s[i] != s[j]
    ensures multiset(s)[x] == if x in s then 1 else 0
  {
    if s != [] {
      CountInDistinct(s[1..], x);
      assert s == [s[0]] + s[1..];
      assert s[0] !in s[1..];
    }
  }

  lemma TwiceCounts<T>(s: seq<T>, i: int, j: int)
    requires 0 <= i < j < |s|
    ensures s[i] == s[j] ==> multiset(s)[s[i]] >= 2
  {
    assert s == s[..i] + [s[i]] + s[i + 1..j] + [s[j]] + s[j + 1..];
  }

  lemma DedupSnoc<T>(s: seq<T>, x: T)
    ensures Dedup(s + [x]) == if x in Dedup(s) then Dedup(s) else Dedup(s) + [x]
  {
    assert (s + [x])[..|s|] == s;
  }

  /** Merging into what was already merged is merging everything at once. */
  lemma {:induction false} DedupAbsorbs<T>(a: seq<T>, b: seq<T>)
    ensures Dedup(Dedup(a) + b) == Dedup(a + b)
  {
    if b == [] {
      assert a + b == a && Dedup(a) + b == Dedup(a);
      DedupOfDistinct(a);
    } else {
      var init, last := b[..|b| - 1], b[|b| - 1];
      DedupAbsorbs(a, init);
      assert (a + b)[..|a + b| - 1] == a + init;
      assert (Dedup(a) + b)[..|Dedup(a) + b| - 1] == Dedup(a) + init;
    }
  }

  lemma DedupOfDistinct<T>(s: seq<T>)
    ensures Dedup(Dedup(s)) == Dedup(s)
  {
    DedupMembers(s);
    DistinctStays(Dedup(s));
  }

  lemma {:induction false} DistinctStays<T>(s: seq<T>)
    requires forall i, j :: 0 <= i < j < |s| ==> s[i] != s[j]
    ensures Dedup(s) == s
  {
    if s != [] {
      var init, last := s[..|s| - 1], s[|s| - 1];
      DistinctStays(init);
      assert last !in init;
    }
  }
}
