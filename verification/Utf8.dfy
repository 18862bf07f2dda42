/** UTF-8 as in section 3 of RFC 3629, and the incremental decoder with
    errors='replace' that the text search feeds chunk by chunk. */
module Utf8 {

  type byte = b: int | 0 <= b < 256

  const REPLACEMENT: char := '\U{FFFD}'

  // ----- encoding

  function EncodeChar(c: char): (bytes: seq<byte>)
    ensures 1 <= |bytes| <= 4
  {
    var n := c as int;
    if n < 0x80 then [n]
    else if n < 0x800 then [0xC0 + n / 64, 0x80 + n % 64]
    else if n < 0x10000 then [0xE0 + n / 4096, 0x80 + n / 64 % 64, 0x80 + n % 64]
    else [0xF0 + n / 262144, 0x80 + n / 4096 % 64, 0x80 + n / 64 % 64, 0x80 + n % 64]
  }

  function Encode(text: string): seq<byte> {
    if text == "" then [] else EncodeChar(text[0]) + Encode(text[1..])
  }

  // ----- incremental decoding, one byte at a time

  /** The length of the sequence that a lead byte starts. */
  function Length(lead: byte): nat {
    if lead < 0xE0 then 2 else if lead < 0xF0 then 3 else 4
  }

  /** Overlong forms, surrogates and values past 10FFFF are cut off at the second byte. */
  predicate Continues(pending: seq<byte>, b: byte)
    requires pending != []
  {
    if |pending| > 1 then 0x80 <= b <= 0xBF
    else if pending[0] == 0xE0 then 0xA0 <= b <= 0xBF
    else if pending[0] == 0xED then 0x80 <= b <= 0x9F
    else if pending[0] == 0xF0 then 0x90 <= b <= 0xBF
    else if pending[0] == 0xF4 then 0x80 <= b <= 0x8F
    else 0x80 <= b <= 0xBF
  }

  /** What the decoder may hold between bytes: the start of one character. */
  predicate IsPending(p: seq<byte>) {
    p != [] ==> 0xC2 <= p[0] <= 0xF4 && |p| < Length(p[0]) &&
                forall i {:trigger p[i]} :: 1 <= i < |p| ==> Continues(p[..i], p[i])
  }

  function Payload(b: byte): int { b % 64 }

  function CodePoint(s: seq<byte>): int
    requires 2 <= |s| <= 4
  {
    if |s| == 2 then (s[0] - 0xC0) * 64 + Payload(s[1])
    else if |s| == 3 then (s[0] - 0xE0) * 4096 + Payload(s[1]) * 64 + Payload(s[2])
    else (s[0] - 0xF0) * 262144 + Payload(s[1]) * 4096 + Payload(s[2]) * 64 + Payload(s[3])
  }

  lemma CodePointIsScalar(p: seq<byte>, b: byte)
    requires p != [] && IsPending(p) && Continues(p, b) && |p| + 1 == Length(p[0])
    ensures var n := CodePoint(p + [b]); 0 <= n < 0xD800 || 0xE000 <= n < 0x110000
  {
    var s := p + [b];
    if |p| > 1 { assert Continues(p[..1], p[1]); }
    assert forall i :: 1 <= i < |s| ==> 0x80 <= s[i] <= 0xBF;
  }

  function DecodeByte(p: seq<byte>, b: byte): (r: (seq<byte>, string))
    requires IsPending(p)
    ensures IsPending(r.0)
    decreases |p|
  {
    if p == [] then
      if b < 0x80 then ([], [b as char])
      else if 0xC2 <= b <= 0xF4 then ([b], [])
      else ([], [REPLACEMENT])
    else if Continues(p, b) then
      if |p| + 1 == Length(p[0]) then
        CodePointIsScalar(p, b);
        ([], [CodePoint(p + [b]) as char])
      else
        var q := p + [b];
        assert forall i {:trigger q[i]} :: 1 <= i < |q| ==> q[..i] == if i < |p| then p[..i] else p;
        (q, [])
    else
      var (q, out) := DecodeByte([], b);
      (q, [REPLACEMENT] + out)
  }

  /** `decoder.decode(bytes)`: the bytes still held, and the text produced. */
  function Feed(p: seq<byte>, bytes: seq<byte>): (r: (seq<byte>, string))
    requires IsPending(p)
    ensures IsPending(r.0)
    decreases |bytes|
  {
    if bytes == [] then (p, "")
    else
      var (q, out) := DecodeByte(p, bytes[0]);
      var (r, rest) := Feed(q, bytes[1..]);
      (r, out + rest)
  }

  /** `decoder.decode(b'', final=True)`. */
  function Flush(p: seq<byte>): string {
    if p == [] then "" else [REPLACEMENT]
  }

  /** Decoding a whole file at once. */
  function Decode(bytes: seq<byte>): string {
    var (p, out) := Feed([], bytes);
    out + Flush(p)
  }

  /** Feeding two pieces one after the other is feeding them together. */
  lemma {:induction false} FeedAppend(p: seq<byte>, a: seq<byte>, b: seq<byte>)
    requires IsPending(p)
    ensures var (q, out) := Feed(p, a);
            var (r, rest) := Feed(q, b);
            Feed(p, a + b) == (r, out + rest)
    decreases |a|
  {
    hide DecodeByte, IsPending, Continues;
    if a == [] {
      assert a + b == b;
      assert "" + Feed(p, b).1 == Feed(p, b).1;
    } else {
      var (q, out) := DecodeByte(p, a[0]);
      FeedAppend(q, a[1..], b);
      assert (a + b)[1..] == a[1..] + b;
      var (q', out') := Feed(q, a[1..]);
      assert out + (out' + Feed(q', b).1) == (out + out') + Feed(q', b).1;
    }
  }

  lemma FeedOne(p: seq<byte>, b: byte)
    requires IsPending(p)
    ensures Feed(p, [b]) == DecodeByte(p, b)
  {
    var (q, out) := DecodeByte(p, b);
    assert [b][1..] == [];
    assert out + "" == out;
  }

  // ----- the round trip

  lemma {:induction false} EncodedLead(c: char)
    requires c as int >= 0x80
    ensures var s := EncodeChar(c);
            0xC2 <= s[0] <= 0xF4 && |s| == Length(s[0]) && CodePoint(s) == c as int
    ensures var s := EncodeChar(c); forall i :: 1 <= i < |s| ==> 0x80 <= s[i] <= 0xBF
    ensures var s := EncodeChar(c); Continues([s[0]], s[1])
  {
    var n := c as int;
    if n >= 0x10000 {
      FourBytes(n, EncodeChar(c));
    } else if n >= 0x800 {
      Digits(n);
    }
  }

  lemma {:induction false} FourBytes(n: nat, s: seq<byte>)
    requires 0x10000 <= n < 0x110000
    requires |s| == 4 && s[0] == 0xF0 + n / 262144 && s[1] == 0x80 + n / 4096 % 64
    requires s[2] == 0x80 + n / 64 % 64 && s[3] == 0x80 + n % 64
    ensures 0xF0 <= s[0] <= 0xF4 && CodePoint(s) == n && Continues([s[0]], s[1])
  {
    Digits(n);
    assert Payload(s[1]) == n / 4096 % 64 && Payload(s[2]) == n / 64 % 64 && Payload(s[3]) == n % 64;
  }

  // The base-64 digits of a code point.
  lemma Digits(n: nat)
    ensures n == n / 64 * 64 + n % 64
    ensures n / 64 == n / 4096 * 64 + n / 64 % 64
    ensures n / 4096 == n / 262144 * 64 + n / 4096 % 64
  {
  }

  lemma DecodeEncodedChar(c: char)
    ensures Feed([], EncodeChar(c)) == ([], [c])
  {
    var s := EncodeChar(c);
    if c as int < 0x80 {
      FeedOne([], s[0]);
    } else {
      EncodedLead(c);
      FeedPrefix(s, 1);
      var init, last := s[..|s| - 1], s[|s| - 1];
      if |s| > 2 { FeedPrefix(s, |s| - 1); }
      assert s == init + [last];
      FeedAppend([], init, [last]);
      FeedOne(init, last);
      assert "" + [c] == [c];
    }
  }

  /** A proper prefix of an encoded character is held back without output. */
  lemma {:induction false} FeedPrefix(s: seq<byte>, k: nat)
    requires 2 <= |s| <= 4 && 1 <= k < |s| && 0xC2 <= s[0] <= 0xF4 && |s| == Length(s[0])
    requires forall i :: 1 <= i < |s| ==> 0x80 <= s[i] <= 0xBF
    requires Continues([s[0]], s[1])
    ensures IsPending(s[..k]) && Feed([], s[..k]) == (s[..k], "")
    decreases k
  {
    if k == 1 {
      assert s[..1] == [s[0]];
      FeedOne([], s[0]);
    } else {
      FeedPrefix(s, k - 1);
      assert s[..k] == s[..k - 1] + [s[k - 1]];
      FeedAppend([], s[..k - 1], [s[k - 1]]);
      assert k == 2 ==> s[..k - 1] == [s[0]];
      FeedOne(s[..k - 1], s[k - 1]);
    }
  }

  lemma {:induction false} FeedEncoded(text: string)
    ensures Feed([], Encode(text)) == ([], text)
  {
    if text != "" {
      DecodeEncodedChar(text[0]);
      FeedEncoded(text[1..]);
      FeedAppend([], EncodeChar(text[0]), Encode(text[1..]));
      assert [text[0]] + text[1..] == text;
    }
  }

  /** Decoding undoes encoding, for every text. */
  lemma RoundTrip(text: string)
    ensures Decode(Encode(text)) == text
  {
    FeedEncoded(text);
    assert text + "" == text;
  }

  /** A zero byte encodes the zero character and nothing else. */
  lemma {:induction false} ZeroBytes(text: string)
    ensures 0 in Encode(text) <==> '\0' in text
  {
    if text != "" {
      ZeroBytes(text[1..]);
      assert text == [text[0]] + text[1..];
      assert 0 in EncodeChar(text[0]) <==> text[0] == '\0';
    }
  }
}
