/** UTF-8 (section 3 of RFC 3629): the bytes the platform hashes and measures. */
module Utf8 {
  type Byte = b: int | 0 <= b < 256
  type Bytes = seq<Byte>

  /** A continuation byte. */
  function Trail(six: nat): Byte
    requires six < 64
  {
    0x80 + six
  }

  function EncodeChar(c: char): (b: Bytes)
    ensures 1 <= |b| <= 4
  {
    var n := c as nat;
    if n < 0x80 then [n]
    else if n < 0x800 then [0xC0 + n / 64, Trail(n % 64)]
    else if n < 0x10000 then [0xE0 + n / 4096, Trail(n / 64 % 64), Trail(n % 64)]
    else [0xF0 + n / 262144, Trail(n / 4096 % 64), Trail(n / 64 % 64), Trail(n % 64)]
  }

  function Encode(s: string): (b: Bytes)
    ensures s == "" <==> b == []
    ensures |b| >= |s|
  {
    if s == "" then [] else EncodeChar(s[0]) + Encode(s[1..])
  }

  /** The length a leading byte announces. */
  function Width(b: Byte): nat {
    if b < 0x80 then 1 else if b < 0xE0 then 2 else if b < 0xF0 then 3 else 4
  }

  lemma WidthOfChar(c: char)
    ensures Width(EncodeChar(c)[0]) == |EncodeChar(c)|
  {
  }

  /** The scalar value a whole sequence denotes. */
  function Scalar(b: Bytes): int
    requires 1 <= |b| <= 4
  {
    var lead := b[0] as int;
    if |b| == 1 then lead
    else if |b| == 2 then (lead - 0xC0) * 64 + Six(b[1])
    else if |b| == 3 then (lead - 0xE0) * 4096 + Six(b[1]) * 64 + Six(b[2])
    else (lead - 0xF0) * 262144 + Six(b[1]) * 4096 + Six(b[2]) * 64 + Six(b[3])
  }

  function Six(b: Byte): int {
    b as int - 0x80
  }

  lemma ScalarOfChar(c: char)
    ensures Scalar(EncodeChar(c)) == c as int
  {
    var n := c as nat;
    assert n / 64 == n / 4096 * 64 + n / 64 % 64;
    assert n / 4096 == n / 262144 * 64 + n / 4096 % 64;
  }

  /** Encoded text splits back in only one way. */
  lemma CharSplits(c: char, d: char, b: Bytes, e: Bytes)
    requires EncodeChar(c) + b == EncodeChar(d) + e
    ensures c == d && b == e
  {
    var x, y := EncodeChar(c), EncodeChar(d);
    assert (x + b)[0] == x[0] && (y + e)[0] == y[0];
    WidthOfChar(c);
    WidthOfChar(d);
    assert (x + b)[..|x|] == x && (y + e)[..|y|] == y;
    assert (x + b)[|x|..] == b && (y + e)[|y|..] == e;
    ScalarOfChar(c);
    ScalarOfChar(d);
  }

  lemma {:induction false} EncodeInjective(s: string, t: string)
    requires Encode(s) == Encode(t)
    ensures s == t
    decreases |s|
  {
    if s != "" && t != "" {
      CharSplits(s[0], t[0], Encode(s[1..]), Encode(t[1..]));
      EncodeInjective(s[1..], t[1..]);
      assert s == [s[0]] + s[1..] && t == [t[0]] + t[1..];
    }
  }

  predicate Ascii(s: string) {
    forall i :: 0 <= i < |s| ==> s[i] as nat < 0x80
  }

  /** ASCII text is its own bytes. */
  lemma {:induction false} EncodeAscii(s: string)
    requires Ascii(s)
    ensures |Encode(s)| == |s| && forall i :: 0 <= i < |s| ==> Encode(s)[i] == s[i] as int
    decreases |s|
  {
    if s != "" {
      EncodeAscii(s[1..]);
      assert forall i :: 1 <= i < |s| ==> Encode(s)[i] == Encode(s[1..])[i - 1];
    }
  }
}
