/** Evidence facts and their independent score contributions. */
module EvidenceGrouping {
  import opened FirstSeen
  import opened Ordering

  /** A missing text field is the empty string; `correlated` is filled by the grouping. */
  datatype Item = Item(sourceGroup: string, source: string, kind: string, weight: int, trust: int, text: string, correlated: nat)

  datatype Metadata = Metadata(independentGroups: nat, retainedFacts: nat, groups: map<string, nat>, suppressed: int)

  function Fallback(x: Item): string {
    if x.source != "" then x.source else if x.kind != "" then x.kind else "rule"
  }

  /** `norm` is `strip().lower()`. */
  function SourceGroup(norm: string -> string, x: Item): string {
    norm(if x.sourceGroup != "" then x.sourceGroup else Fallback(x))
  }

  function GroupNames(norm: string -> string, items: seq<Item>): (names: seq<string>)
    ensures |names| == |items| && forall i :: 0 <= i < |items| ==> names[i] == SourceGroup(norm, items[i])
  {
    if items == [] then [] else GroupNames(norm, items[..|items| - 1]) + [SourceGroup(norm, items[|items| - 1])]
  }

  lemma SnocSlice<T>(s: seq<T>, i: nat)
    requires i < |s|
    ensures s[..i + 1] == s[..i] + [s[i]]
  {
  }

  function Abs(n: int): nat { if n < 0 then 0 - n else n }

  // ----- one representative per source

  predicate Outranks(x: Item, y: Item) {
    Abs(x.weight) > Abs(y.weight) || (Abs(x.weight) == Abs(y.weight) && x.trust > y.trust)
  }

  /** Item `i` is the first of the highest-ranked items of its group. */
  ghost predicate IsRepresentative(norm: string -> string, items: seq<Item>, g: string, i: nat) {
    && i < |items| && SourceGroup(norm, items[i]) == g
    && (forall j :: 0 <= j < |items| && SourceGroup(norm, items[j]) == g ==> !Outranks(items[j], items[i]))
    && (forall j :: 0 <= j < i && SourceGroup(norm, items[j]) == g ==> Outranks(items[i], items[j]))
  }

  lemma RepresentativeIsUnique(norm: string -> string, items: seq<Item>, g: string, i: nat, j: nat)
    requires IsRepresentative(norm, items, g, i) && IsRepresentative(norm, items, g, j)
    ensures i == j
  {
  }

  // The dictionary of representatives after the items `seen`; `at` says where each was found.
  ghost predicate BestOf(norm: string -> string, seen: seq<Item>, order: seq<string>, best: map<string, Item>, at: map<string, nat>) {
    && order == Dedup(GroupNames(norm, seen))
    && (forall g :: g in best <==> g in order)
    && (forall g :: g in best ==> g in at && IsRepresentative(norm, seen, g, at[g]) && best[g] == seen[at[g]])
  }

  lemma RepresentativeInRange(norm: string -> string, seen: seq<Item>, g: string, i: nat)
    requires IsRepresentative(norm, seen, g, i)
    ensures i < |seen|
  {
  }

  lemma BestAtStart(norm: string -> string)
    ensures BestOf(norm, [], [], map[], map[])
  {
  }

  lemma NextItem(norm: string -> string, seen: seq<Item>, x: Item, g: string, at: nat)
    requires IsRepresentative(norm, seen, g, at)
    ensures SourceGroup(norm, x) != g || !Outranks(x, seen[at]) ==> IsRepresentative(norm, seen + [x], g, at)
    ensures SourceGroup(norm, x) == g && Outranks(x, seen[at]) ==> IsRepresentative(norm, seen + [x], g, |seen|)
  {
  }

  lemma FirstItem(norm: string -> string, seen: seq<Item>, x: Item)
    requires forall j :: 0 <= j < |seen| ==> SourceGroup(norm, seen[j]) != SourceGroup(norm, x)
    ensures IsRepresentative(norm, seen + [x], SourceGroup(norm, x), |seen|)
  {
    hide SourceGroup;
    assert (seen + [x])[|seen|] == x;
  }

  lemma {:induction false} NotNamed(norm: string -> string, seen: seq<Item>, g: string)
    requires g !in Dedup(GroupNames(norm, seen))
    ensures forall j :: 0 <= j < |seen| ==> SourceGroup(norm, seen[j]) != g
  {
    DedupMembers(GroupNames(norm, seen));
    hide Dedup, GroupNames, SourceGroup;
    forall j | 0 <= j < |seen| ensures SourceGroup(norm, seen[j]) != g {
      assert GroupNames(norm, seen)[j] in GroupNames(norm, seen);
    }
  }

  lemma NamesStep(norm: string -> string, seen: seq<Item>, x: Item)
    ensures GroupNames(norm, seen + [x]) == GroupNames(norm, seen) + [SourceGroup(norm, x)]
    ensures var was, g := Dedup(GroupNames(norm, seen)), SourceGroup(norm, x);
            Dedup(GroupNames(norm, seen + [x])) == if g in was then was else was + [g]
  {
    assert (seen + [x])[..|seen|] == seen;
    var names := GroupNames(norm, seen + [x]);
    assert names[..|seen|] == GroupNames(norm, seen);
  }

  lemma {:induction false} BestStep(norm: string -> string, seen: seq<Item>, x: Item, order: seq<string>, best: map<string, Item>, at: map<string, nat>)
    requires BestOf(norm, seen, order, best, at)
    ensures var g, now := SourceGroup(norm, x), seen + [x];
            if g !in best then BestOf(norm, now, order + [g], best[g := x], at[g := |seen|])
            else if Outranks(x, best[g]) then BestOf(norm, now, order, best[g := x], at[g := |seen|])
            else BestOf(norm, now, order, best, at)
  {
    hide Dedup, GroupNames, Outranks, IsRepresentative, SourceGroup;
    NamesStep(norm, seen, x);
    var g := SourceGroup(norm, x);
    if g !in best {
      NotNamed(norm, seen, g);
      FirstItem(norm, seen, x);
    }
    forall h | h in best
      ensures h != g || !Outranks(x, best[h]) ==> IsRepresentative(norm, seen + [x], h, at[h])
      ensures h == g && Outranks(x, best[h]) ==> IsRepresentative(norm, seen + [x], h, |seen|)
      ensures at[h] < |seen|
    {
      NextItem(norm, seen, x, h, at[h]);
      RepresentativeInRange(norm, seen, h, at[h]);
    }
  }

  lemma BestAtEnd(norm: string -> string, items: seq<Item>, order: seq<string>, best: map<string, Item>, at: map<string, nat>)
    requires BestOf(norm, items, order, best, at)
    ensures order == Dedup(GroupNames(norm, items))
    ensures forall k :: 0 <= k < |order| ==>
              order[k] in best && exists i: nat :: IsRepresentative(norm, items, order[k], i) && best[order[k]] == items[i]
  {
    hide Dedup, GroupNames, Outranks, SourceGroup;
    forall k | 0 <= k < |order|
      ensures order[k] in best && exists i: nat :: IsRepresentative(norm, items, order[k], i) && best[order[k]] == items[i]
    {
      var g := order[k];
      assert g in order;
      assert IsRepresentative(norm, items, g, at[g]) && best[g] == items[at[g]];
    }
  }

  /** One item per distinct group, in the order in which the groups first appear. */
  method IndependentRepresentatives(norm: string -> string, items: seq<Item>) returns (reps: seq<Item>)
    ensures var groups := Dedup(GroupNames(norm, items));
            && |reps| == |groups|
            && forall k :: 0 <= k < |groups| ==>
                 exists i: nat :: IsRepresentative(norm, items, groups[k], i) && reps[k] == items[i]
  {
    hide Dedup, GroupNames, Outranks, SourceGroup, BestOf, IsRepresentative;
    var order: seq<string> := [];
    var best: map<string, Item> := map[];
    ghost var at: map<string, nat> := map[];
    BestAtStart(norm);
    assert items[..0] == [];
    for i := 0 to |items|
      invariant BestOf(norm, items[..i], order, best, at)
    {
      var g := SourceGroup(norm, items[i]);
      SnocSlice(items, i);
      BestStep(norm, items[..i], items[i], order, best, at);
      if g !in best {
        order := order + [g];
        best, at := best[g := items[i]], at[g := i];
      } else if Outranks(items[i], best[g]) {
        best, at := best[g := items[i]], at[g := i];
      }
    }
    assert items[..|items|] == items;
    BestAtEnd(norm, items, order, best, at);
    reps := seq(|order|, k requires 0 <= k < |order| && order[k] in best => best[order[k]]);
  }

  // ----- every fact, marked with its group

  function ByWeight(x: Item): Key { [Num(0 - Abs(x.weight))] }

  function InGroup(g: string): Item -> bool { (x: Item) => x.sourceGroup == g }

  // The items of one group, under its name.
  function Members(norm: string -> string, items: seq<Item>, g: string): seq<Item> {
    if items == [] then []
    else
      var init, last := items[..|items| - 1], items[|items| - 1];
      Members(norm, init, g) + if SourceGroup(norm, last) == g then [last.(sourceGroup := g)] else []
  }

  function Counted(values: seq<Item>, n: nat): (r: seq<Item>)
    ensures |r| == |values| && forall i :: 0 <= i < |r| ==> r[i] == values[i].(correlated := n)
  {
    if values == [] then [] else Counted(values[..|values| - 1], n) + [values[|values| - 1].(correlated := n)]
  }

  function Flat(norm: string -> string, items: seq<Item>, groups: seq<string>): seq<Item> {
    if groups == [] then []
    else
      var values := Members(norm, items, groups[|groups| - 1]);
      Flat(norm, items, groups[..|groups| - 1]) + Counted(values, |values|)
  }

  function Retained(norm: string -> string, items: seq<Item>): seq<Item> {
    SortBy(ByWeight, Flat(norm, items, Dedup(GroupNames(norm, items))))
  }

  /** Each fact in its place, under its group's name and with the size of its group. */
  function Annotated(norm: string -> string, whole: seq<Item>, items: seq<Item>): (r: seq<Item>)
    ensures |r| == |items|
    ensures forall i :: 0 <= i < |r| ==>
      var g := SourceGroup(norm, items[i]);
      r[i] == items[i].(sourceGroup := g, correlated := |Members(norm, whole, g)|)
  {
    if items == [] then []
    else
      var init, last := items[..|items| - 1], items[|items| - 1];
      var g := SourceGroup(norm, last);
      Annotated(norm, whole, init) + [last.(sourceGroup := g, correlated := |Members(norm, whole, g)|)]
  }

  // The rows of `s`, one group after the other.
  function Parts(s: seq<Item>, groups: seq<string>): seq<Item> {
    if groups == [] then []
    else Parts(s, groups[..|groups| - 1]) + Filter(InGroup(groups[|groups| - 1]), s)
  }

  lemma {:induction false} GroupIsPart(norm: string -> string, whole: seq<Item>, items: seq<Item>, g: string)
    ensures Counted(Members(norm, items, g), |Members(norm, whole, g)|) == Filter(InGroup(g), Annotated(norm, whole, items))
  {
    if items != [] {
      var init, last := items[..|items| - 1], items[|items| - 1];
      GroupIsPart(norm, whole, init, g);
      FilterAppend(InGroup(g), Annotated(norm, whole, init), [Annotated(norm, whole, items)[|init|]]);
    }
  }

  lemma {:induction false} FlatIsParts(norm: string -> string, items: seq<Item>, groups: seq<string>)
    ensures Flat(norm, items, groups) == Parts(Annotated(norm, items, items), groups)
  {
    if groups != [] {
      FlatIsParts(norm, items, groups[..|groups| - 1]);
      GroupIsPart(norm, items, items, groups[|groups| - 1]);
    }
  }

  lemma {:induction false} PartsCount(s: seq<Item>, groups: seq<string>, v: Item)
    requires forall i, j :: 0 <= i < j < |groups| ==> groups[i] != groups[j]
    ensures multiset(Parts(s, groups))[v] == if v.sourceGroup in groups then multiset(s)[v] else 0
  {
    if groups != [] {
      var init, last := groups[..|groups| - 1], groups[|groups| - 1];
      PartsCount(s, init, v);
      FilterCount(InGroup(last), s, v);
      assert groups == init + [last];
    }
  }

  lemma {:induction false} PartsPartition(s: seq<Item>, groups: seq<string>)
    requires forall i, j :: 0 <= i < j < |groups| ==> groups[i] != groups[j]
    requires forall i :: 0 <= i < |s| ==> s[i].sourceGroup in groups
    ensures multiset(Parts(s, groups)) == multiset(s)
  {
    forall v ensures multiset(Parts(s, groups))[v] == multiset(s)[v] {
      PartsCount(s, groups, v);
      assert v in multiset(s) ==> v in s;
    }
  }

  lemma PartOfPart(s: seq<Item>, g: string, h: string)
    ensures Filter(InGroup(g), Filter(InGroup(h), s)) == if g == h then Filter(InGroup(h), s) else []
  {
    FilterMembers(InGroup(h), s);
    hide Filter;
    if g == h { FilterAll(InGroup(g), Filter(InGroup(h), s)); } else { FilterNone(InGroup(g), Filter(InGroup(h), s)); }
  }

  lemma {:induction false} PartOfParts(s: seq<Item>, groups: seq<string>, g: string)
    requires forall i, j :: 0 <= i < j < |groups| ==> groups[i] != groups[j]
    ensures Filter(InGroup(g), Parts(s, groups)) == if g in groups then Filter(InGroup(g), s) else []
  {
    hide Filter, InGroup;
    if groups == [] {
      FilterNone(InGroup(g), []);
    } else {
      var init, last := groups[..|groups| - 1], groups[|groups| - 1];
      PartOfParts(s, init, g);
      FilterAppend(InGroup(g), Parts(s, init), Filter(InGroup(last), s));
      PartOfPart(s, g, last);
      assert g in groups <==> g in init || g == last;
      assert last !in init;
      assert [] + Filter(InGroup(last), s) == Filter(InGroup(last), s);
      assert Filter(InGroup(g), s) + [] == Filter(InGroup(g), s);
    }
  }

  /** Grouping drops no fact, invents none, and marks each with its own group; heavier facts come
      first, and inside a group facts of one weight keep their order. */
  lemma EvidenceIsKept(norm: string -> string, items: seq<Item>)
    ensures var retained, facts := Retained(norm, items), Annotated(norm, items, items);
            && multiset(retained) == multiset(facts)
            && Sorted(ByWeight, retained)
            && forall g :: g in GroupNames(norm, items) ==>
                 Filter(InGroup(g), retained) == SortBy(ByWeight, Filter(InGroup(g), facts))
  {
    var names := GroupNames(norm, items);
    var groups, facts := Dedup(names), Annotated(norm, items, items);
    var all := Parts(facts, groups);
    FlatIsParts(norm, items, groups);
    DedupMembers(names);
    PartsPartition(facts, groups);
    SortPermutes(ByWeight, all);
    SortSorts(ByWeight, all);
    forall g | g in names ensures Filter(InGroup(g), Retained(norm, items)) == SortBy(ByWeight, Filter(InGroup(g), facts)) {
      SortFilter(ByWeight, InGroup(g), all);
      PartOfParts(facts, groups, g);
    }
  }

  /** Every group has a member, and the group sizes add up to the number of facts. */
  lemma {:induction false} SizesAddUp(norm: string -> string, items: seq<Item>)
    ensures var groups := Dedup(GroupNames(norm, items));
            && (forall g :: g in groups ==> Members(norm, items, g) != [])
            && |Flat(norm, items, groups)| == |items|
            && |groups| <= |items|
  {
    hide Dedup, GroupNames, Members, Flat, Parts, Filter, Annotated, Counted;
    var names := GroupNames(norm, items);
    var groups, facts := Dedup(names), Annotated(norm, items, items);
    DedupMembers(names);
    FlatIsParts(norm, items, groups);
    forall i | 0 <= i < |facts| ensures facts[i].sourceGroup in groups { assert names[i] in names; }
    PartsPartition(facts, groups);
    assert |items| == |multiset(facts)| == |multiset(Parts(facts, groups))|;
    forall g | g in groups ensures Members(norm, items, g) != [] {
      var i :| 0 <= i < |names| && names[i] == g;
      GroupIsPart(norm, items, items, g);
      FilterMembers(InGroup(g), facts);
      assert facts[i] in Filter(InGroup(g), facts);
    }
    DedupShrinks(names);
  }

  lemma {:induction false} DedupShrinks(s: seq<string>)
    ensures |Dedup(s)| <= |s|
  {
    if s != [] { DedupShrinks(s[..|s| - 1]); }
  }

  ghost predicate GroupedBy(norm: string -> string, seen: seq<Item>, order: seq<string>, grouped: map<string, seq<Item>>) {
    && order == Dedup(GroupNames(norm, seen))
    && (forall g :: g in grouped <==> g in order)
    && (forall g :: g in grouped ==> grouped[g] == Members(norm, seen, g))
  }

  lemma GroupedStep(norm: string -> string, seen: seq<Item>, x: Item, order: seq<string>, grouped: map<string, seq<Item>>)
    requires GroupedBy(norm, seen, order, grouped)
    ensures var g := SourceGroup(norm, x);
            var item := x.(sourceGroup := g);
            if g in grouped then GroupedBy(norm, seen + [x], order, grouped[g := grouped[g] + [item]])
            else GroupedBy(norm, seen + [x], order + [g], grouped[g := [item]])
  {
    hide Dedup, GroupNames, Members, SourceGroup;
    var g := SourceGroup(norm, x);
    NamesStep(norm, seen, x);
    MembersStep(norm, seen, x, g);
    forall h | h in grouped && h != g ensures Members(norm, seen + [x], h) == grouped[h] {
      MembersStep(norm, seen, x, h);
    }
    if g !in grouped { NoMembers(norm, seen, g); }
  }

  lemma MembersStep(norm: string -> string, seen: seq<Item>, x: Item, g: string)
    ensures Members(norm, seen + [x], g) ==
            if SourceGroup(norm, x) == g then Members(norm, seen, g) + [x.(sourceGroup := g)] else Members(norm, seen, g)
  {
    assert (seen + [x])[..|seen|] == seen;
  }

  lemma NoMembers(norm: string -> string, seen: seq<Item>, g: string)
    requires g !in Dedup(GroupNames(norm, seen))
    ensures Members(norm, seen, g) == []
  {
    NotNamed(norm, seen, g);
    NoneInGroup(norm, seen, g);
  }

  lemma {:induction false} NoneInGroup(norm: string -> string, seen: seq<Item>, g: string)
    requires forall j :: 0 <= j < |seen| ==> SourceGroup(norm, seen[j]) != g
    ensures Members(norm, seen, g) == []
  {
    if seen != [] { NoneInGroup(norm, seen[..|seen| - 1], g); }
  }

  method GroupItems(norm: string -> string, items: seq<Item>) returns (order: seq<string>, grouped: map<string, seq<Item>>)
    ensures GroupedBy(norm, items, order, grouped)
  {
    order, grouped := [], map[];
    assert GroupedBy(norm, items[..0], order, grouped);
    hide Dedup, GroupNames, Members, SourceGroup, GroupedBy;
    for i := 0 to |items|
      invariant GroupedBy(norm, items[..i], order, grouped)
    {
      var item := items[i];
      var g := SourceGroup(norm, item);
      SnocSlice(items, i);
      GroupedStep(norm, items[..i], item, order, grouped);
      if g !in grouped {
        order := order + [g];
        grouped := grouped[g := []];
      }
      assert grouped[g := []][g := [item.(sourceGroup := g)]] == grouped[g := [item.(sourceGroup := g)]];
      grouped := grouped[g := grouped[g] + [item.(sourceGroup := g)]];
    }
    assert items[..|items|] == items;
  }

  method CountGroup(values: seq<Item>) returns (counted: seq<Item>)
    ensures counted == Counted(values, |values|)
  {
    counted := [];
    for i := 0 to |values|
      invariant counted == Counted(values[..i], |values|)
    {
      assert values[..i + 1][..i] == values[..i];
      counted := counted + [values[i].(correlated := |values|)];
    }
    assert values[..|values|] == values;
  }

  /** All facts, the groups one after the other, and what is reported about them. */
  method IndependentEvidence(norm: string -> string, items: seq<Item>) returns (retained: seq<Item>, meta: Metadata)
    ensures retained == Retained(norm, items)
    ensures var groups := Dedup(GroupNames(norm, items));
            && meta.independentGroups == |groups| && meta.retainedFacts == |items|
            && meta.suppressed == |items| - |groups|
            && meta.groups == map g | g in groups :: |Members(norm, items, g)|
  {
    hide Dedup, GroupNames, Members, SortBy, Counted;
    var order, grouped := GroupItems(norm, items);
    var all := [];
    for k := 0 to |order|
      invariant all == Flat(norm, items, order[..k])
    {
      assert order[..k + 1][..k] == order[..k];
      assert order[k] in grouped;
      var counted := CountGroup(grouped[order[k]]);
      all := all + counted;
    }
    assert order[..|order|] == order;
    SizesAddUp(norm, items);
    retained := SortBy(ByWeight, all);
    SortPermutes(ByWeight, all);
    meta := Metadata(|order|, |retained|, map g | g in order :: |grouped[g]|, |retained| - |order|);
  }

  /** A retained fact that is grouped again stays in its group, unless its group name is blank and
      its source or type is not: the blank name is then read as missing. */
  lemma RegroupingKeepsGroup(norm: string -> string, x: Item, n: nat)
    requires forall s :: norm(norm(s)) == norm(s)
    ensures var again := x.(sourceGroup := SourceGroup(norm, x), correlated := n);
            SourceGroup(norm, again) == SourceGroup(norm, x) <==>
            x.sourceGroup == "" || norm(x.sourceGroup) != "" || norm(Fallback(x)) == ""
  {
    var g := SourceGroup(norm, x);
    assert norm(g) == g;
  }

  /** A fact of the source "scanner" whose group name is a blank: grouped under the blank name at
      first, and under its source when it is grouped again. */
  lemma BlankGroupMoves(norm: string -> string, n: nat)
    requires norm(" ") == "" && norm("scanner") == "scanner"
    ensures var x := Item(" ", "scanner", "alert", 1, 1, "", 0);
            var again := x.(sourceGroup := SourceGroup(norm, x), correlated := n);
            SourceGroup(norm, x) == "" && SourceGroup(norm, again) == "scanner"
  {
    assert Fallback(Item("", "scanner", "alert", 1, 1, "", n)) == "scanner";
  }

  // ----- groups and ranks, by the fields of the facts

  /** The group is the first that is not empty of group name, source and type, and "rule" without one, in its norm. */
  lemma WhichGroup(norm: string -> string, x: Item)
    ensures x.sourceGroup != "" ==> SourceGroup(norm, x) == norm(x.sourceGroup)
    ensures x.sourceGroup == "" && x.source != "" ==> SourceGroup(norm, x) == norm(x.source)
    ensures x.sourceGroup == "" && x.source == "" && x.kind != "" ==> SourceGroup(norm, x) == norm(x.kind)
    ensures x.sourceGroup == "" && x.source == "" && x.kind == "" ==> SourceGroup(norm, x) == norm("rule")
  {
  }

  /** The weight without its sign. */
  function Size(x: Item): int { if x.weight >= 0 then x.weight else -x.weight }

  /** A representative outweighs its group: no fact of it is heavier, none as heavy is trusted more, and of equals
      it is the first. */
  lemma WhoRepresents(norm: string -> string, items: seq<Item>, g: string, i: nat, j: nat)
    requires IsRepresentative(norm, items, g, i) && j < |items| && SourceGroup(norm, items[j]) == g
    ensures var x, y := items[i], items[j];
            Size(y) < Size(x) || (Size(y) == Size(x) && (y.trust < x.trust || (y.trust == x.trust && i <= j)))
  {
  }

  function OfGroup(norm: string -> string, g: string): Item -> bool { (x: Item) => SourceGroup(norm, x) == g }

  lemma {:induction false} MembersAre(norm: string -> string, items: seq<Item>, g: string)
    ensures |Members(norm, items, g)| == Number(OfGroup(norm, g), items)
  {
    if items != [] {
      MembersAre(norm, items[..|items| - 1], g);
      NumberLast(OfGroup(norm, g), items);
      hide Number;
    }
  }

  /** Every fact is retained under its group's name and with the number of facts of its group, heavier facts first. */
  lemma {:induction false} WhatIsRetained(norm: string -> string, items: seq<Item>, i: nat)
    requires i < |items|
    ensures var g := SourceGroup(norm, items[i]);
            items[i].(sourceGroup := g, correlated := Number(OfGroup(norm, g), items)) in Retained(norm, items)
    ensures |Retained(norm, items)| == |items|
    ensures forall a, b :: 0 <= a < b < |items| ==> Size(Retained(norm, items)[a]) >= Size(Retained(norm, items)[b])
  {
    hide Dedup, GroupNames, SourceGroup, Flat, Number;
    var g := SourceGroup(norm, items[i]);
    var facts := Annotated(norm, items, items);
    EvidenceIsKept(norm, items);
    MembersAre(norm, items, g);
    SizesAddUp(norm, items);
    SortPermutes(ByWeight, Flat(norm, items, Dedup(GroupNames(norm, items))));
    SortSorts(ByWeight, Flat(norm, items, Dedup(GroupNames(norm, items))));
    assert facts[i] in multiset(facts);
    assert facts[i] in multiset(Retained(norm, items));
    var all := Retained(norm, items);
    forall a, b | 0 <= a < b < |items| ensures Size(all[a]) >= Size(all[b]) {
      assert KeyLeq(ByWeight(all[a]), ByWeight(all[b]));
    }
  }
}
