/** Owner references that keep the JavaScript artifacts of stored snapshots from being collected. */
module ArtifactPins {
  import opened Decimals
  import opened Options
  import opened SnapshotForm

  datatype Scope = Scope(run: string, target: string)

  predicate Plain(k: Scope) { OneLine(k.run) && OneLine(k.target) }

  // ----- owner keys

  /** What all owner keys of a scope begin with. */
  function Head(k: Scope): string { k.run + "\n" + k.target + "\n" }

  /** A strictly longer head that begins with the other one. */
  predicate Nested(k: Scope, k': Scope) { Head(k) <= Head(k') && Head(k) != Head(k') }

  ghost predicate Apart(names: iset<Scope>) {
    forall k, k' :: k in names && k' in names ==> !Nested(k, k')
  }

  lemma {:induction false} DigitsOneLine(n: nat)
    ensures OneLine(Digits(n))
  {
    if n >= 10 { DigitsOneLine(n / 10); }
  }

  function OwnerPrefix(k: Scope, hash: string): string {
    Head(k) + (hash + "\n")
  }

  function OwnerKey(prefix: string, index: nat, url: string): string {
    prefix + (Digits(index) + "\n" + url)
  }

  function FirstBreak(s: string): nat {
    if s == [] || s[0] == '\n' then 0 else 1 + FirstBreak(s[1..])
  }

  lemma {:induction false} LineEnds(a: string, s: string)
    requires OneLine(a) && a + "\n" <= s
    ensures FirstBreak(s) == |a|
  {
    assert s[|a|] == (a + "\n")[|a|] == '\n';
    if a != [] {
      assert s[0] == (a + "\n")[0] == a[0];
      assert a == [a[0]] + a[1..];
      assert s[1..][..|a|] == (a + "\n")[1..] == a[1..] + "\n";
      LineEnds(a[1..], s[1..]);
    }
  }

  /** A line ends at its first line break, so two lines that begin one text are one line. */
  lemma FirstLine(a: string, b: string, s: string)
    requires OneLine(a) && OneLine(b) && a + "\n" <= s && b + "\n" <= s
    ensures a == b
  {
    LineEnds(a, s);
    LineEnds(b, s);
    assert a == (a + "\n")[..|a|] == s[..|a|];
    assert b == (b + "\n")[..|b|] == s[..|b|];
  }

  lemma DropPrefix(p: string, q: string, s: string)
    requires p + q <= s
    ensures p <= s && q <= s[|p|..]
  {
    assert s[..|p|] == (p + q)[..|p|] == p;
    assert s[|p|..][..|q|] == s[..|p| + |q|][|p|..] == (p + q)[|p|..] == q;
  }

  lemma EqualHeads(k: Scope, k': Scope)
    requires Plain(k) && Plain(k') && Head(k) <= Head(k')
    ensures k == k'
  {
    var a, b := k.run + "\n", k.target + "\n";
    var a', b' := k'.run + "\n", k'.target + "\n";
    assert Head(k) == a + b && Head(k') == a' + b';
    DropPrefix(a, b, Head(k'));
    DropPrefix(a', b', Head(k'));
    FirstLine(k.run, k'.run, Head(k'));
    FirstLine(k.target, k'.target, Head(k')[|a|..]);
  }

  /** Names on one line each never nest. */
  lemma PlainNamesAreApart()
    ensures Apart(iset k | Plain(k))
  {
    forall k, k' | Plain(k) && Plain(k') ensures !Nested(k, k') {
      if Nested(k, k') { EqualHeads(k, k'); }
    }
  }

  predicate Share(k: Scope, hash: string, k': Scope, hash': string, key: string) {
    OneLine(hash) && OneLine(hash') && OwnerPrefix(k, hash) <= key && OwnerPrefix(k', hash') <= key
  }

  lemma SharedKey(k: Scope, hash: string, k': Scope, hash': string, key: string)
    requires Share(k, hash, k', hash', key)
    ensures Head(k) <= Head(k') || Head(k') <= Head(k)
    ensures Head(k) == Head(k') ==> hash == hash'
  {
    DropPrefix(Head(k), hash + "\n", key);
    DropPrefix(Head(k'), hash' + "\n", key);
    if |Head(k)| <= |Head(k')| {
      assert Head(k) == key[..|Head(k)|] == key[..|Head(k')|][..|Head(k)|];
    } else {
      assert Head(k') == key[..|Head(k')|] == key[..|Head(k)|][..|Head(k')|];
    }
    if Head(k) == Head(k') { FirstLine(hash, hash', key[|Head(k)|..]); }
  }

  lemma {:induction false} BeforeBreak(s: string)
    requires '\n' in s
    ensures FirstBreak(s) < |s| && OneLine(s[..FirstBreak(s)]) && s[..FirstBreak(s)] + "\n" <= s
  {
    if s[0] != '\n' {
      BeforeBreak(s[1..]);
      var n := FirstBreak(s[1..]);
      assert s[..n + 1] == [s[0]] + s[1..][..n];
      assert s[..n + 2] == s[..n + 1] + "\n" by { assert s[1..][..n + 1] == s[1..][..n] + "\n"; }
    }
  }

  lemma SamePrefix(head: string, line: string, rest: string)
    requires line <= rest
    ensures head + line <= head + rest
  {
  }

  lemma FirstLineUnderHead(k: Scope, rest: string)
    requires '\n' in rest
    ensures FirstBreak(rest) < |rest| && OneLine(rest[..FirstBreak(rest)])
    ensures OwnerPrefix(k, rest[..FirstBreak(rest)]) <= Head(k) + rest
  {
    BeforeBreak(rest);
    SamePrefix(Head(k), rest[..FirstBreak(rest)] + "\n", rest);
    hide Head, FirstBreak, OneLine;
  }

  lemma HeadEnds(k: Scope)
    ensures Head(k) != [] && Head(k)[|Head(k)| - 1] == '\n'
  {
  }

  lemma NestedShare(k: Scope, k': Scope)
    requires Nested(k, k')
    ensures exists hash, hash', key :: Share(k, hash, k', hash', key) && OwnerPrefix(k, hash) != OwnerPrefix(k', hash')
  {
    var rest := Head(k')[|Head(k)|..];
    HeadEnds(k');
    hide Head, FirstBreak;
    assert rest[|rest| - 1] == '\n';
    FirstLineUnderHead(k, rest);
    var hash := rest[..FirstBreak(rest)];
    assert Head(k') == Head(k) + rest;
    assert Share(k, hash, k', "", OwnerPrefix(k', ""));
  }

  /** Some owner key lies under the prefixes of two different payloads if and only if the heads of
      their scopes nest. */
  lemma PrefixesOverlap(k: Scope, k': Scope)
    ensures (exists hash, hash', key :: Share(k, hash, k', hash', key) && OwnerPrefix(k, hash) != OwnerPrefix(k', hash')) <==>
            Nested(k, k') || Nested(k', k)
  {
    if hash, hash', key :| Share(k, hash, k', hash', key) && OwnerPrefix(k, hash) != OwnerPrefix(k', hash') {
      SharedKey(k, hash, k', hash', key);
    }
    if Nested(k, k') { NestedShare(k, k'); }
    if Nested(k', k) {
      NestedShare(k', k);
      var hash', hash, key :| Share(k', hash', k, hash, key) && OwnerPrefix(k', hash') != OwnerPrefix(k, hash);
      assert Share(k, hash, k', hash', key);
    }
  }

  lemma KeyUnderPrefix(prefix: string, i: nat, url: string)
    ensures prefix <= OwnerKey(prefix, i, url)
  {
  }

  /** A name that goes on with a line break and a digest: all its keys lie under that payload's prefix. */
  lemma LineBreaksNest(k: Scope, hash: string, hash': string, i: nat, url: string)
    ensures var k' := Scope(k.run, k.target + "\n" + hash);
            Nested(k, k') && OwnerPrefix(k, hash) <= OwnerKey(OwnerPrefix(k', hash'), i, url)
  {
    var k' := Scope(k.run, k.target + "\n" + hash);
    assert Head(k') == Head(k) + (hash + "\n") == OwnerPrefix(k, hash);
    assert OwnerPrefix(k', hash') == Head(k') + (hash' + "\n");
    hide Head;
  }

  lemma KeysDiffer(prefix: string, i: nat, u: string, j: nat, v: string)
    requires OwnerKey(prefix, i, u) == OwnerKey(prefix, j, v)
    ensures i == j
  {
    var s, t := Digits(i) + "\n" + u, Digits(j) + "\n" + v;
    assert (prefix + s)[|prefix|..] == s && (prefix + t)[|prefix|..] == t;
    assert Digits(i) + "\n" <= s && Digits(j) + "\n" <= t;
    DigitsOneLine(i);
    DigitsOneLine(j);
    FirstLine(Digits(i), Digits(j), s);
    DigitsDistinct(i, j);
  }

  // ----- the references of one snapshot

  function JsRows(s: Snapshot): seq<Row> { if "js_files" in s then s["js_files"] else [] }

  function Text(r: Row, column: string): string { if column in r then r[column] else "" }

  predicate IsCas(r: Row) { "cas:" <= Text(r, "blob_path") }

  /** The artifact a row names, if any. */
  function DigestOf(env: Env, r: Row): string {
    if IsCas(r) then env.norm(Text(r, "blob_path")[4..]) else ""
  }

  function Desired(env: Env, prefix: string, rows: seq<Row>): map<string, string> {
    if rows == [] then map[]
    else
      var init, last := Desired(env, prefix, rows[..|rows| - 1]), rows[|rows| - 1];
      if DigestOf(env, last) == "" then init
      else init[OwnerKey(prefix, |rows| - 1, Text(last, "url")) := DigestOf(env, last)]
  }

  /** Replaces exactly the references under the prefix. */
  function Sync(refs: map<string, string>, prefix: string, desired: map<string, string>): map<string, string> {
    (map k | k in refs && !(prefix <= k) :: refs[k]) + desired
  }

  ghost predicate PinnedRows(env: Env, refs: map<string, string>, prefix: string, rows: seq<Row>) {
    forall i :: 0 <= i < |rows| && DigestOf(env, rows[i]) != "" ==>
      && OwnerKey(prefix, i, Text(rows[i], "url")) in refs
      && refs[OwnerKey(prefix, i, Text(rows[i], "url"))] == DigestOf(env, rows[i])
  }

  lemma {:induction false} DesiredUnderPrefix(env: Env, prefix: string, rows: seq<Row>)
    ensures forall k :: k in Desired(env, prefix, rows) ==> prefix <= k
  {
    if rows != [] { DesiredUnderPrefix(env, prefix, rows[..|rows| - 1]); }
  }

  lemma EarlierKeysDiffer(prefix: string, rows: seq<Row>, n: nat, url: string)
    requires n <= |rows|
    ensures forall i :: 0 <= i < n ==> OwnerKey(prefix, i, Text(rows[i], "url")) != OwnerKey(prefix, n, url)
  {
    hide OwnerKey;
    forall i | 0 <= i < n ensures OwnerKey(prefix, i, Text(rows[i], "url")) != OwnerKey(prefix, n, url) {
      if OwnerKey(prefix, i, Text(rows[i], "url")) == OwnerKey(prefix, n, url) {
        KeysDiffer(prefix, i, Text(rows[i], "url"), n, url);
      }
    }
  }

  lemma {:induction false} PinnedMore(env: Env, d: map<string, string>, prefix: string, rows: seq<Row>, n: nat)
    requires n < |rows| && PinnedRows(env, d, prefix, rows[..n])
    ensures var digest := DigestOf(env, rows[n]);
            PinnedRows(env, if digest == "" then d else d[OwnerKey(prefix, n, Text(rows[n], "url")) := digest], prefix, rows[..n + 1])
  {
    hide OwnerKey, DigestOf, Text;
    EarlierKeysDiffer(prefix, rows, n, Text(rows[n], "url"));
    assert forall i :: 0 <= i < n ==> rows[..n][i] == rows[i] == rows[..n + 1][i];
    assert rows[..n + 1][n] == rows[n];
  }

  lemma {:induction false} DesiredPins(env: Env, prefix: string, rows: seq<Row>)
    ensures PinnedRows(env, Desired(env, prefix, rows), prefix, rows)
  {
    if rows != [] {
      var n := |rows| - 1;
      DesiredPins(env, prefix, rows[..n]);
      PinnedMore(env, Desired(env, prefix, rows[..n]), prefix, rows, n);
      assert rows[..n + 1] == rows;
      hide OwnerKey, DigestOf, Text, PinnedRows;
    }
  }

  predicate AnyCas(rows: seq<Row>) { exists i :: 0 <= i < |rows| && IsCas(rows[i]) }

  /** Pinning a snapshot: nothing to do without artifacts, and failing when one is not in the store. */
  function Pin(env: Env, refs: map<string, string>, objects: set<string>, prefix: string, rows: seq<Row>): Option<map<string, string>> {
    if !AnyCas(rows) then Some(refs)
    else
      var desired := Desired(env, prefix, rows);
      if forall k :: k in desired ==> desired[k] in objects then Some(Sync(refs, prefix, desired)) else None
  }

  /** Pinning one payload leaves the references of every other payload alone, unless their heads nest. */
  lemma PinSeparates(env: Env, refs: map<string, string>, objects: set<string>, k: Scope, hash: string, rows: seq<Row>,
                     k': Scope, hash': string, rows': seq<Row>)
    requires !Nested(k, k') && !Nested(k', k) && OneLine(hash) && OneLine(hash')
    requires OwnerPrefix(k, hash) != OwnerPrefix(k', hash')
    requires Pin(env, refs, objects, OwnerPrefix(k, hash), rows).Some?
    requires PinnedRows(env, refs, OwnerPrefix(k', hash'), rows')
    ensures PinnedRows(env, Pin(env, refs, objects, OwnerPrefix(k, hash), rows).value, OwnerPrefix(k', hash'), rows')
  {
    PrefixesOverlap(k, k');
    hide OwnerPrefix, OwnerKey, Desired, DigestOf, AnyCas, OneLine, Nested;
    var prefix, prefix' := OwnerPrefix(k, hash), OwnerPrefix(k', hash');
    var pinned := Pin(env, refs, objects, prefix, rows).value;
    DesiredUnderPrefix(env, prefix, rows);
    forall i | 0 <= i < |rows'| && DigestOf(env, rows'[i]) != ""
      ensures var key := OwnerKey(prefix', i, Text(rows'[i], "url")); key in pinned && pinned[key] == DigestOf(env, rows'[i])
    {
      var key := OwnerKey(prefix', i, Text(rows'[i], "url"));
      KeyUnderPrefix(prefix', i, Text(rows'[i], "url"));
      assert !Share(k, hash, k', hash', key);
    }
  }

  lemma PinPins(env: Env, refs: map<string, string>, objects: set<string>, prefix: string, rows: seq<Row>)
    requires Pin(env, refs, objects, prefix, rows).Some?
    requires forall key :: key in refs ==> refs[key] in objects
    ensures PinnedRows(env, Pin(env, refs, objects, prefix, rows).value, prefix, rows)
    ensures var pinned := Pin(env, refs, objects, prefix, rows).value;
            forall key :: key in pinned ==> pinned[key] in objects
  {
    assert !AnyCas(rows) ==> forall i :: 0 <= i < |rows| ==> DigestOf(env, rows[i]) == "";
    hide OwnerKey, Desired, DigestOf;
    DesiredPins(env, prefix, rows);
  }
}
