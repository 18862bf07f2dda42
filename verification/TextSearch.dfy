/** The chunked file search of the dashboard. */
module TextSearch {
  import opened Utf8

  /** Python's `needle in text`. */
  predicate Contains(text: string, needle: string) {
    exists i :: 0 <= i <= |text| && OccursAt(text, needle, i)
  }

  predicate OccursAt(text: string, needle: string, i: nat) {
    i + |needle| <= |text| && text[i..i + |needle|] == needle
  }

  /** `casefold` maps each character on its own, possibly to several. */
  type CaseMap = char -> string

  function Fold(cf: CaseMap, text: string): string {
    if text == "" then "" else cf(text[0]) + Fold(cf, text[1..])
  }

  /** Folding twice is folding once: every character that folding produces folds to itself. */
  ghost predicate Idempotent(cf: CaseMap) {
    forall c, d :: d in cf(c) ==> cf(d) == [d]
  }

  lemma FoldCons(cf: CaseMap, c: char, text: string)
    ensures Fold(cf, [c] + text) == cf(c) + Fold(cf, text)
  {
    assert ([c] + text)[1..] == text;
  }

  lemma Associates(a: string, b: string, c: string)
    ensures (a + b) + c == a + (b + c)
  {
  }

  lemma {:induction false} FoldAppend(cf: CaseMap, a: string, b: string)
    ensures Fold(cf, a + b) == Fold(cf, a) + Fold(cf, b)
  {
    if a == "" {
      assert a + b == b;
    } else {
      FoldAppend(cf, a[1..], b);
      FoldCons(cf, a[0], a[1..] + b);
      FoldCons(cf, a[0], a[1..]);
      hide Fold;
      Associates([a[0]], a[1..], b);
      Associates(cf(a[0]), Fold(cf, a[1..]), Fold(cf, b));
      assert a == [a[0]] + a[1..];
    }
  }

  lemma {:induction false} FoldedChars(cf: CaseMap, text: string)
    requires Idempotent(cf)
    ensures forall d :: d in Fold(cf, text) ==> cf(d) == [d]
  {
    if text != "" { FoldedChars(cf, text[1..]); }
  }

  lemma {:induction false} FoldFixed(cf: CaseMap, text: string)
    requires forall d :: d in text ==> cf(d) == [d]
    ensures Fold(cf, text) == text
  {
    if text != "" {
      assert text[0] in text;
      FoldFixed(cf, text[1..]);
    }
  }

  /** The last `k` characters, or all of them. */
  function Tail(text: string, k: nat): string {
    if |text| <= k then text else text[|text| - k..]
  }

  /** Carrying |needle| - 1 characters is enough: a match that was not in the old
      text must reach into the new part. */
  lemma Window(before: string, added: string, needle: string)
    requires needle != "" && !Contains(before, needle)
    ensures Contains(before + added, needle) <==> Contains(Tail(before, |needle| - 1) + added, needle)
  {
    var tail := Tail(before, |needle| - 1);
    var whole, window := before + added, tail + added;
    var cut := |before| - |tail|;
    assert window == whole[cut..];
    if Contains(whole, needle) {
      var i :| 0 <= i <= |whole| && OccursAt(whole, needle, i);
      if i + |needle| <= |before| {
        assert OccursAt(before, needle, i);
      } else {
        assert OccursAt(window, needle, i - cut);
      }
    }
    if Contains(window, needle) {
      var i :| 0 <= i <= |window| && OccursAt(window, needle, i);
      SliceOfSuffix(whole, cut, i, |needle|);
      assert OccursAt(whole, needle, i + cut);
    }
  }

  lemma SliceOfSuffix(text: string, cut: nat, i: nat, n: nat)
    requires cut + i + n <= |text|
    ensures text[cut..][i..i + n] == text[i + cut..i + cut + n]
  {
  }

  lemma TailOfTail(before: string, added: string, k: nat)
    ensures Tail(Tail(before, k) + added, k) == Tail(before + added, k)
  {
  }

  // ----- files as chunks

  type Chunk = c: seq<byte> | c != [] witness [0]

  function Flatten(chunks: seq<Chunk>): seq<byte> {
    if chunks == [] then [] else Flatten(chunks[..|chunks| - 1]) + chunks[|chunks| - 1]
  }

  /** How many chunks come before the first one with a zero byte. */
  function CleanChunks(chunks: seq<Chunk>): (n: nat)
    ensures n <= |chunks|
    ensures forall i :: 0 <= i < n ==> 0 !in chunks[i]
    ensures n < |chunks| ==> 0 in chunks[n]
  {
    if chunks == [] || 0 in chunks[0] then 0 else 1 + CleanChunks(chunks[1..])
  }

  /** The whole-text search that the chunked one stands for. Without a zero byte it
      searches the decoded file; with one, only what was decoded before its chunk. */
  predicate Found(cf: CaseMap, chunks: seq<Chunk>, query: string) {
    var n := CleanChunks(chunks);
    var needle := Fold(cf, query);
    if n == |chunks| then Contains(Fold(cf, Decode(Flatten(chunks))), needle)
    else n > 0 && Contains(Fold(cf, Feed([], Flatten(chunks[..n])).1), needle)
  }

  /** After some clean chunks: what the decoder holds, what it has produced, what is carried. */
  ghost predicate Carried(cf: CaseMap, chunks: seq<Chunk>, i: nat, needle: string,
                          pending: seq<byte>, seen: string, tail: string)
  {
    && i <= |chunks|
    && IsPending(pending) && Feed([], Flatten(chunks[..i])) == (pending, seen)
    && (i > 0 ==> needle != "" && !Contains(Fold(cf, seen), needle))
    && tail == Tail(Fold(cf, seen), if needle == "" then 0 else |needle| - 1)
  }

  method ContainsText(cf: CaseMap, chunks: seq<Chunk>, query: string) returns (found: bool)
    requires Idempotent(cf)
    ensures found == Found(cf, chunks, query)
  {
    var needle := Fold(cf, query);
    var tail: string := "";
    var pending: seq<byte> := [];
    ghost var seen: string := "";
    var i := 0;
    while i < |chunks|
      invariant 0 <= i <= CleanChunks(chunks)
      invariant Carried(cf, chunks, i, needle, pending, seen, tail)
    {
      var chunk := chunks[i];
      if 0 in chunk {
        NothingFound(cf, chunks, i, query, pending, seen, tail);
        return false;
      }
      var (next, decoded) := Feed(pending, chunk);
      var text := tail + Fold(cf, decoded);
      ChunkSearched(cf, chunks, i, needle, pending, seen, tail);
      if Contains(text, needle) {
        FoundEarly(cf, chunks, i + 1, query);
        return true;
      }
      tail := if |needle| > 1 then Tail(text, |needle| - 1) else "";
      pending, seen := next, seen + decoded;
      i := i + 1;
    }
    FlushSearched(cf, chunks, needle, pending, seen, tail);
    found := Contains(Fold(cf, tail + Flush(pending)), needle);
  }

  lemma NothingFound(cf: CaseMap, chunks: seq<Chunk>, i: nat, query: string,
                     pending: seq<byte>, seen: string, tail: string)
    requires i < |chunks| && i <= CleanChunks(chunks) && 0 in chunks[i]
    requires Carried(cf, chunks, i, Fold(cf, query), pending, seen, tail)
    ensures !Found(cf, chunks, query)
  {
  }

  /** Searching the carried tail and the new text searches everything seen so far. */
  lemma ChunkSearched(cf: CaseMap, chunks: seq<Chunk>, i: nat, needle: string,
                      pending: seq<byte>, seen: string, tail: string)
    requires i < |chunks| && Carried(cf, chunks, i, needle, pending, seen, tail)
    ensures var (next, decoded) := Feed(pending, chunks[i]);
            var text := tail + Fold(cf, decoded);
            && Feed([], Flatten(chunks[..i + 1])) == (next, seen + decoded)
            && (Contains(text, needle) <==> Contains(Fold(cf, seen + decoded), needle))
            && (!Contains(text, needle) ==>
                  Carried(cf, chunks, i + 1, needle, next, seen + decoded,
                          if |needle| > 1 then Tail(text, |needle| - 1) else ""))
  {
    var (next, decoded) := Feed(pending, chunks[i]);
    var before, added := Fold(cf, seen), Fold(cf, decoded);
    assert chunks[..i + 1][..i] == chunks[..i];
    FeedAppend([], Flatten(chunks[..i]), chunks[i]);
    FoldAppend(cf, seen, decoded);
    if needle == "" {
      assert OccursAt(tail + added, needle, 0) && OccursAt(before + added, needle, 0);
    } else {
      if i == 0 { assert seen == "" && !Contains("", needle); }
      Window(before, added, needle);
      TailOfTail(before, added, |needle| - 1);
    }
  }

  lemma {:induction false} FlushSearched(cf: CaseMap, chunks: seq<Chunk>, needle: string,
                      pending: seq<byte>, seen: string, tail: string)
    requires Idempotent(cf) && Carried(cf, chunks, |chunks|, needle, pending, seen, tail)
    ensures Contains(Fold(cf, tail + Flush(pending)), needle) <==>
            Contains(Fold(cf, Decode(Flatten(chunks))), needle)
  {
    assert chunks[..|chunks|] == chunks;
    var before, added := Fold(cf, seen), Fold(cf, Flush(pending));
    FoldAppend(cf, tail, Flush(pending));
    FoldedChars(cf, seen);
    FoldFixed(cf, tail);
    FoldAppend(cf, seen, Flush(pending));
    if needle == "" {
      assert OccursAt(tail + added, needle, 0) && OccursAt(before + added, needle, 0);
    } else {
      if chunks == [] { assert seen == "" && !Contains("", needle); }
      Window(before, added, needle);
    }
  }

  lemma {:induction false} FlattenAppend(a: seq<Chunk>, b: seq<Chunk>)
    ensures Flatten(a + b) == Flatten(a) + Flatten(b)
  {
    if b == [] {
      assert a + b == a;
    } else {
      FlattenAppend(a, b[..|b| - 1]);
      assert (a + b)[..|a + b| - 1] == a + b[..|b| - 1];
    }
  }

  lemma ContainsGrows(text: string, more: string, needle: string)
    requires Contains(text, needle)
    ensures Contains(text + more, needle)
  {
    var i :| 0 <= i <= |text| && OccursAt(text, needle, i);
    assert OccursAt(text + more, needle, i);
  }

  /** A match in the first clean chunks stays a match of the whole search. */
  lemma FoundEarly(cf: CaseMap, chunks: seq<Chunk>, k: nat, query: string)
    requires 0 < k <= CleanChunks(chunks)
    requires Contains(Fold(cf, Feed([], Flatten(chunks[..k])).1), Fold(cf, query))
    ensures Found(cf, chunks, query)
  {
    var n := CleanChunks(chunks);
    assert chunks[..n] == chunks[..k] + chunks[k..n];
    FlattenAppend(chunks[..k], chunks[k..n]);
    var (q, out) := Feed([], Flatten(chunks[..k]));
    FeedAppend([], Flatten(chunks[..k]), Flatten(chunks[k..n]));
    var (r, rest) := Feed(q, Flatten(chunks[k..n]));
    FoldAppend(cf, out, rest);
    ContainsGrows(Fold(cf, out), Fold(cf, rest), Fold(cf, query));
    if n == |chunks| {
      assert chunks[..n] == chunks;
      FoldAppend(cf, out + rest, Flush(r));
      ContainsGrows(Fold(cf, out + rest), Fold(cf, Flush(r)), Fold(cf, query));
    }
  }

  // ----- what the search means

  lemma FlattenCons(a: Chunk, rest: seq<Chunk>)
    ensures Flatten([a] + rest) == a + Flatten(rest)
  {
    var one: seq<Chunk> := [a];
    assert one[..0] == [];
    assert [] + a == a;
    FlattenAppend(one, rest);
  }

  lemma {:induction false} CleanFlatten(chunks: seq<Chunk>)
    ensures CleanChunks(chunks) == |chunks| <==> 0 !in Flatten(chunks)
  {
    if chunks != [] {
      hide Flatten;
      CleanFlatten(chunks[1..]);
      FlattenCons(chunks[0], chunks[1..]);
      assert chunks == [chunks[0]] + chunks[1..];
    } else {
      assert Flatten(chunks) == [];
    }
  }

  /** However a file without zero bytes is cut, the search gives the same answer. */
  lemma CutsDoNotMatter(cf: CaseMap, a: seq<Chunk>, b: seq<Chunk>, query: string)
    requires Flatten(a) == Flatten(b) && 0 !in Flatten(a)
    ensures Found(cf, a, query) == Found(cf, b, query)
  {
    CleanFlatten(a);
    CleanFlatten(b);
  }

  /** On a UTF-8 file the search finds a query exactly when the folded query occurs in the folded text. */
  lemma SearchOfEncodedText(cf: CaseMap, text: string, chunks: seq<Chunk>, query: string)
    requires Flatten(chunks) == Encode(text) && '\0' !in text
    ensures Found(cf, chunks, query) <==> Contains(Fold(cf, text), Fold(cf, query))
  {
    ZeroBytes(text);
    CleanFlatten(chunks);
    RoundTrip(text);
  }

  // ----- files with a zero byte

  /** Where the first zero byte is, or the length when there is none. */
  function FirstZero(bytes: seq<byte>): (z: nat)
    ensures z <= |bytes| && (z < |bytes| <==> 0 in bytes) && (z < |bytes| ==> bytes[z] == 0)
  {
    if bytes == [] || bytes[0] == 0 then 0 else 1 + FirstZero(bytes[1..])
  }

  lemma {:induction false} SplitAtZero(bytes: seq<byte>)
    ensures var z := FirstZero(bytes); 0 !in bytes[..z] && (z < |bytes| ==> 0 in bytes[z..])
  {
    if bytes != [] && bytes[0] != 0 {
      SplitAtZero(bytes[1..]);
      var z := FirstZero(bytes);
      assert bytes[..z] == [bytes[0]] + bytes[1..][..z - 1];
      assert bytes[z..] == bytes[1..][z - 1..];
    } else if bytes != [] {
      assert bytes[0..][0] == 0;
    }
  }

  lemma {:induction false} FirstZeroAppend(a: seq<byte>, b: seq<byte>)
    ensures FirstZero(a + b) == if 0 in a then FirstZero(a) else |a| + FirstZero(b)
  {
    if a == [] {
      assert a + b == b;
    } else {
      FirstZeroAppend(a[1..], b);
      assert (a + b)[1..] == a[1..] + b;
      assert a == [a[0]] + a[1..];
    }
  }

  /** The query occurs in what is decoded from the bytes. */
  predicate Occurs(cf: CaseMap, bytes: seq<byte>, query: string) {
    Contains(Fold(cf, Feed([], bytes).1), Fold(cf, query))
  }

  lemma OccursLater(cf: CaseMap, bytes: seq<byte>, more: seq<byte>, query: string)
    requires Occurs(cf, bytes, query)
    ensures Occurs(cf, bytes + more, query)
  {
    var (q, out) := Feed([], bytes);
    FeedAppend([], bytes, more);
    FoldAppend(cf, out, Feed(q, more).1);
    ContainsGrows(Fold(cf, out), Fold(cf, Feed(q, more).1), Fold(cf, query));
  }

  lemma {:induction false} FlattenPart(chunks: seq<Chunk>, n: nat)
    requires n <= |chunks|
    ensures Flatten(chunks[..n]) <= Flatten(chunks) && (n > 0 ==> Flatten(chunks[..n]) != [])
    ensures (forall i :: 0 <= i < n ==> 0 !in chunks[i]) ==> 0 !in Flatten(chunks[..n])
    decreases n
  {
    assert chunks == chunks[..n] + chunks[n..];
    FlattenAppend(chunks[..n], chunks[n..]);
    if n > 0 {
      FlattenPart(chunks[..n], n - 1);
      assert chunks[..n][..n - 1] == chunks[..n - 1];
      assert chunks[..n][n - 1] == chunks[n - 1];
    } else {
      assert chunks[..0] == [];
    }
  }

  lemma CleanBeforeZero(chunks: seq<Chunk>)
    requires 0 in Flatten(chunks)
    ensures var bytes, clean := Flatten(chunks), Flatten(chunks[..CleanChunks(chunks)]);
            && CleanChunks(chunks) < |chunks| && |clean| <= FirstZero(bytes) && clean == bytes[..|clean|]
            && (CleanChunks(chunks) > 0 ==> clean != [])
  {
    var bytes, n := Flatten(chunks), CleanChunks(chunks);
    CleanFlatten(chunks);
    FlattenPart(chunks, n);
    hide Flatten, FirstZero, CleanChunks;
    var clean := Flatten(chunks[..n]);
    FirstZeroAppend(clean, bytes[|clean|..]);
    assert bytes == clean + bytes[|clean|..];
  }

  /** With a zero byte the search has to end before it: what is found was decoded from the bytes before. */
  lemma FoundBeforeZero(cf: CaseMap, chunks: seq<Chunk>, query: string)
    requires 0 in Flatten(chunks) && Found(cf, chunks, query)
    ensures var z := FirstZero(Flatten(chunks)); z > 0 && Occurs(cf, Flatten(chunks)[..z], query)
  {
    CleanBeforeZero(chunks);
    var bytes := Flatten(chunks);
    var clean, z := Flatten(chunks[..CleanChunks(chunks)]), FirstZero(bytes);
    assert Occurs(cf, clean, query);
    hide Flatten, FirstZero, Occurs;
    OccursLater(cf, clean, bytes[|clean|..z], query);
    assert bytes[..z] == clean + bytes[|clean|..z];
  }

  lemma FoundInFirst(cf: CaseMap, a: Chunk, b: Chunk, query: string)
    requires 0 !in a && 0 in b && Occurs(cf, a, query)
    ensures Flatten([a, b]) == a + b && Found(cf, [a, b], query)
  {
    var cut: seq<Chunk> := [a, b];
    FlattenTwo(a, b);
    assert cut[..1] == [a] && cut[1..] == [b];
    assert CleanChunks(cut[1..]) == 0;
    assert CleanChunks(cut) == 1;
    hide Flatten, Feed, Fold, Contains;
  }

  lemma FlattenTwo(a: Chunk, b: Chunk)
    ensures Flatten([a]) == a && Flatten([a, b]) == a + b
  {
    var one, two: seq<Chunk> := [a], [a, b];
    assert one[..0] == [] && two[..1] == one;
    assert [] + a == a;
  }

  lemma WholeFileHidden(cf: CaseMap, bytes: seq<byte>, query: string)
    requires 0 in bytes
    ensures Flatten([bytes]) == bytes && !Found(cf, [bytes], query)
  {
    var one: seq<Chunk> := [bytes];
    assert one[..0] == [];
    assert [] + bytes == bytes;
  }

  /** Two ways of cutting a file disagree about a query if and only if the file has a zero byte and the
      query occurs before it. */
  lemma WhenCutsMatter(cf: CaseMap, bytes: seq<byte>, query: string)
    ensures (exists a, b :: Flatten(a) == bytes && Flatten(b) == bytes && Found(cf, a, query) != Found(cf, b, query)) <==>
            0 in bytes && FirstZero(bytes) > 0 && Occurs(cf, bytes[..FirstZero(bytes)], query)
  {
    hide Found, Occurs, Flatten, FirstZero;
    if a, b :| Flatten(a) == bytes && Flatten(b) == bytes && Found(cf, a, query) != Found(cf, b, query) {
      if 0 !in bytes {
        CutsDoNotMatter(cf, a, b, query);
      } else if Found(cf, a, query) {
        FoundBeforeZero(cf, a, query);
      } else {
        FoundBeforeZero(cf, b, query);
      }
    }
    if 0 in bytes && FirstZero(bytes) > 0 && Occurs(cf, bytes[..FirstZero(bytes)], query) {
      var z := FirstZero(bytes);
      var a: Chunk, b: Chunk := bytes[..z], bytes[z..];
      SplitAtZero(bytes);
      FoundInFirst(cf, a, b, query);
      WholeFileHidden(cf, bytes, query);
      assert a + b == bytes;
      assert Flatten([a, b]) == bytes && Flatten([bytes]) == bytes && Found(cf, [a, b], query) != Found(cf, [bytes], query);
    }
  }

  // ----- the chunks that reading makes

  const CHUNK := 65536

  /** `stream.read(65536)` until the end of the file. */
  function ReadChunks(bytes: seq<byte>): seq<Chunk> {
    if bytes == [] then []
    else if |bytes| <= CHUNK then [bytes]
    else [bytes[..CHUNK]] + ReadChunks(bytes[CHUNK..])
  }

  lemma {:induction false} ReadsAll(bytes: seq<byte>)
    ensures Flatten(ReadChunks(bytes)) == bytes
  {
    if |bytes| > CHUNK {
      ReadsAll(bytes[CHUNK..]);
      FlattenCons(bytes[..CHUNK], ReadChunks(bytes[CHUNK..]));
      assert bytes[..CHUNK] + bytes[CHUNK..] == bytes;
    } else if bytes != [] {
      FlattenTwo(bytes, bytes);
    }
  }

  // The length of the full chunks before position z.
  function Whole(z: nat): (n: nat)
    ensures n <= z
  {
    z - z % CHUNK
  }

  lemma WholeChunks(z: nat)
    ensures z < CHUNK ==> Whole(z) == 0
    ensures Whole(CHUNK + z) == CHUNK + Whole(z)
    ensures Whole(CHUNK) == CHUNK
  {
  }

  // The bytes of the chunks before the first one with a zero byte.
  function CleanLength(bytes: seq<byte>): (n: nat)
    ensures n <= |bytes|
  {
    Whole(FirstZero(bytes))
  }

  lemma DropChunk(bytes: seq<byte>)
    requires |bytes| > CHUNK && 0 in bytes
    ensures FirstZero(bytes) < CHUNK <==> 0 in bytes[..CHUNK]
    ensures FirstZero(bytes) >= CHUNK ==> 0 in bytes[CHUNK..] && CleanLength(bytes) == CHUNK + CleanLength(bytes[CHUNK..])
  {
    hide FirstZero, Whole;
    var first, rest := bytes[..CHUNK], bytes[CHUNK..];
    FirstZeroAppend(first, rest);
    assert bytes == first + rest;
    FirstZeroBounded(first);
    WholeChunks(FirstZero(rest));
    assert 0 in bytes <==> 0 in first || 0 in rest;
  }

  lemma FirstZeroBounded(bytes: seq<byte>)
    ensures 0 in bytes ==> FirstZero(bytes) < |bytes|
  {
  }

  lemma {:induction false} CleanReads(bytes: seq<byte>)
    requires 0 in bytes
    ensures var chunks := ReadChunks(bytes);
            && CleanChunks(chunks) < |chunks|
            && Flatten(chunks[..CleanChunks(chunks)]) == bytes[..CleanLength(bytes)]
            && (CleanChunks(chunks) == 0 <==> CleanLength(bytes) == 0)
  {
    hide Whole, FirstZero;
    var chunks := ReadChunks(bytes);
    if |bytes| <= CHUNK {
      assert chunks[0] == bytes && chunks[..0] == [];
      WholeChunks(FirstZero(bytes));
    } else {
      DropChunk(bytes);
      assert chunks[0] == bytes[..CHUNK];
      WholeChunks(FirstZero(bytes));
      if FirstZero(bytes) < CHUNK {
        assert chunks[..0] == [];
      } else {
        CleanReads(bytes[CHUNK..]);
        CleanReadsFurther(bytes);
      }
    }
  }

  lemma CleanCons(first: Chunk, rest: seq<Chunk>)
    requires 0 !in first
    ensures CleanChunks([first] + rest) == 1 + CleanChunks(rest)
    ensures ([first] + rest)[..1 + CleanChunks(rest)] == [first] + rest[..CleanChunks(rest)]
  {
    assert ([first] + rest)[1..] == rest;
  }

  lemma TakeFurther(bytes: seq<byte>, n: nat, m: nat)
    requires n + m <= |bytes|
    ensures bytes[..n] + bytes[n..][..m] == bytes[..n + m]
  {
  }

  lemma CleanReadsFurther(bytes: seq<byte>)
    requires |bytes| > CHUNK && 0 !in bytes[..CHUNK] && CleanLength(bytes) == CHUNK + CleanLength(bytes[CHUNK..])
    requires var rest := ReadChunks(bytes[CHUNK..]);
             CleanChunks(rest) < |rest| && Flatten(rest[..CleanChunks(rest)]) == bytes[CHUNK..][..CleanLength(bytes[CHUNK..])]
    ensures var chunks := ReadChunks(bytes);
            0 < CleanChunks(chunks) < |chunks| && Flatten(chunks[..CleanChunks(chunks)]) == bytes[..CleanLength(bytes)]
  {
    hide CleanLength, FirstZero, Flatten, CleanChunks;
    var first: Chunk := bytes[..CHUNK];
    var rest := ReadChunks(bytes[CHUNK..]);
    assert ReadChunks(bytes) == [first] + rest;
    hide ReadChunks;
    CleanCons(first, rest);
    FlattenCons(first, rest[..CleanChunks(rest)]);
    TakeFurther(bytes, CHUNK, CleanLength(bytes[CHUNK..]));
  }

  /** What the search of a file with a zero byte finds: exactly what occurs in the full chunks before the
      one that carries it. */
  lemma FoundInFile(cf: CaseMap, bytes: seq<byte>, query: string)
    requires 0 in bytes
    ensures Found(cf, ReadChunks(bytes), query) <==>
            CleanLength(bytes) > 0 && Occurs(cf, bytes[..CleanLength(bytes)], query)
  {
    CleanReads(bytes);
  }

  lemma {:induction false} EncodeAscii(n: nat)
    ensures Encode(seq(n, i => 'a')) == seq(n, i => 97)
  {
    if n > 0 {
      EncodeAscii(n - 1);
      var text := seq(n, i => 'a');
      assert text[1..] == seq(n - 1, i => 'a');
      assert seq(n, i => 97) == [97] + seq(n - 1, i => 97);
    }
  }

  /** A two-byte file with the query before its zero byte hides it; after 65536 such bytes it is found. */
  lemma ZeroHidesMatch(cf: CaseMap)
    requires cf('a') == "a"
    ensures Occurs(cf, [97], "a") && !Found(cf, ReadChunks([97, 0]), "a")
    ensures Found(cf, ReadChunks(seq(CHUNK, i => 97) + [0]), "a")
  {
    var text: string, clean: seq<byte> := seq(CHUNK, i => 'a'), seq(CHUNK, i => 97);
    EncodeAscii(CHUNK);
    FeedEncoded(text);
    FoldCons(cf, 'a', text[1..]);
    assert text == ['a'] + text[1..];
    FoldCons(cf, 'a', "");
    assert Fold(cf, "a") == "a";
    assert OccursAt(Fold(cf, text), "a", 0);
    assert Occurs(cf, clean, "a");
    ZeroAfter(clean);
    WholeChunks(1);
    FoundInFile(cf, clean + [0], "a");
    FeedOne([], 97);
    assert OccursAt("a", "a", 0);
    ZeroAfter([97]);
    assert [97] + [0] == [97, 0];
    FoundInFile(cf, [97, 0], "a");
  }

  lemma ZeroAfter(clean: seq<byte>)
    requires 0 !in clean
    ensures 0 in clean + [0] && (clean + [0])[..|clean|] == clean && CleanLength(clean + [0]) == Whole(|clean|)
  {
    FirstZeroAppend(clean, [0]);
    assert FirstZero([0]) == 0;
    hide FirstZero, Whole;
    assert 0 in [0];
  }

  // ----- the search, character by character

  lemma {:induction false} SimpleFold(cf: CaseMap, text: string)
    requires forall c :: |cf(c)| == 1
    ensures |Fold(cf, text)| == |text| && forall i :: 0 <= i < |text| ==> Fold(cf, text)[i] == cf(text[i])[0]
  {
    if text != "" { SimpleFold(cf, text[1..]); }
  }

  /** The query stands at this place, up to the folding of its characters. */
  predicate StandsAt(cf: CaseMap, text: string, query: string, i: nat) {
    i + |query| <= |text| && forall j :: 0 <= j < |query| ==> cf(text[i + j]) == cf(query[j])
  }

  lemma StandsOccurs(cf: CaseMap, text: string, query: string, i: nat)
    requires forall c :: |cf(c)| == 1
    ensures StandsAt(cf, text, query, i) <==> OccursAt(Fold(cf, text), Fold(cf, query), i)
  {
    SimpleFold(cf, text);
    SimpleFold(cf, query);
    hide Fold;
    var whole, needle := Fold(cf, text), Fold(cf, query);
    if i + |query| <= |text| {
      assert forall j :: 0 <= j < |query| ==> whole[i..i + |needle|][j] == cf(text[i + j])[0] && needle[j] == cf(query[j])[0];
      assert forall j :: 0 <= j < |query| ==> cf(text[i + j]) == [cf(text[i + j])[0]] && cf(query[j]) == [cf(query[j])[0]];
      if OccursAt(whole, needle, i) {
        forall j | 0 <= j < |query| ensures cf(text[i + j]) == cf(query[j]) { assert whole[i..i + |needle|][j] == needle[j]; }
      }
    }
  }

  /** Where every character folds to one, a query is found in a UTF-8 file exactly when it stands there. */
  lemma WhatIsFound(cf: CaseMap, text: string, chunks: seq<Chunk>, query: string)
    requires Flatten(chunks) == Encode(text) && '\0' !in text && forall c :: |cf(c)| == 1
    ensures Found(cf, chunks, query) <==> exists i :: StandsAt(cf, text, query, i)
  {
    SearchOfEncodedText(cf, text, chunks, query);
    SimpleFold(cf, text);
    hide Fold, Found, Flatten, StandsAt, OccursAt;
    if Contains(Fold(cf, text), Fold(cf, query)) {
      var i :| 0 <= i <= |Fold(cf, text)| && OccursAt(Fold(cf, text), Fold(cf, query), i);
      StandsOccurs(cf, text, query, i);
    }
    if i: nat :| StandsAt(cf, text, query, i) {
      StandsOccurs(cf, text, query, i);
      Fits(cf, text, query, i);
    }
  }

  lemma Fits(cf: CaseMap, text: string, query: string, i: nat)
    requires StandsAt(cf, text, query, i)
    ensures i <= |text|
  {
  }

  /** Whatever characters fold to, what stands in the text is found. */
  lemma WhatStandsIsFound(cf: CaseMap, before: string, query: string, after: string, chunks: seq<Chunk>)
    requires Flatten(chunks) == Encode(before + query + after) && '\0' !in before + query + after
    ensures Found(cf, chunks, query)
  {
    SearchOfEncodedText(cf, before + query + after, chunks, query);
    FoldAppend(cf, before + query, after);
    FoldAppend(cf, before, query);
    hide Fold, Found, Flatten;
    assert OccursAt(Fold(cf, before) + Fold(cf, query) + Fold(cf, after), Fold(cf, query), |Fold(cf, before)|);
  }

  /** The clean length is that of the full chunks of 65536 bytes before the one that holds the first zero byte. */
  lemma WhatIsClean(bytes: seq<byte>)
    requires 0 in bytes
    ensures CleanLength(bytes) % 65536 == 0 && CleanLength(bytes) <= |bytes| && 0 !in bytes[..CleanLength(bytes)]
    ensures exists z :: CleanLength(bytes) <= z < CleanLength(bytes) + 65536 && z < |bytes| && bytes[z] == 0
  {
    SplitAtZero(bytes);
    WholeChunks(FirstZero(bytes));
    assert bytes[FirstZero(bytes)] == 0;
  }
}
