/**
 * How a JavaScript string is measured and turned into bytes: `.length`
 * counts UTF-16 code units, `Buffer.from(s)` encodes UTF-8.
 */
module Encoding {

  /** UTF-16 code units of one character: two for a character outside the Basic Multilingual Plane. */
  function Utf16Units(c: char): nat {
    if (c as int) < 0x10000 then 1 else 2
  }

  /** `s.length`. */
  function Utf16Length(s: string): nat {
    if s == [] then 0 else Utf16Units(s[0]) + Utf16Length(s[1..])
  }

  /** The UTF-8 bytes of one character. */
  function EncodeChar(c: char): (e: seq<int>)
    ensures 1 <= |e| <= 4
    ensures forall i :: 0 <= i < |e| ==> 0 <= e[i] < 256
  {
    var n := c as int;
    if n < 0x80 then [n]
    else if n < 0x800 then [0xC0 + n / 64, 0x80 + n % 64]
    else if n < 0x10000 then [0xE0 + n / 4096, 0x80 + (n / 64) % 64, 0x80 + n % 64]
    else [0xF0 + n / 262144, 0x80 + (n / 4096) % 64, 0x80 + (n / 64) % 64, 0x80 + n % 64]
  }

  /** The length of a UTF-8 sequence, read off its first byte. */
  function LengthFromLead(b: int): nat {
    if b < 0x80 then 1 else if b < 0xE0 then 2 else if b < 0xF0 then 3 else 4
  }

  /** The character a UTF-8 sequence of one character stands for. */
  function DecodeChar(e: seq<int>): int
    requires 1 <= |e| <= 4
  {
    if |e| == 1 then e[0]
    else if |e| == 2 then (e[0] - 0xC0) * 64 + (e[1] - 0x80)
    else if |e| == 3 then (e[0] - 0xE0) * 4096 + (e[1] - 0x80) * 64 + (e[2] - 0x80)
    else (e[0] - 0xF0) * 262144 + (e[1] - 0x80) * 4096 + (e[2] - 0x80) * 64 + (e[3] - 0x80)
  }

  lemma EncodeCharDecodes(c: char)
    ensures |EncodeChar(c)| == LengthFromLead(EncodeChar(c)[0])
    ensures DecodeChar(EncodeChar(c)) == c as int
  {
    var n := c as int;
    if 0x800 <= n {
      SixBitGroups(n);
    }
  }

  /** Splitting off six bits at a time: the digits of `n` in base 64. */
  lemma SixBitGroups(n: nat)
    ensures n == (n / 64) * 64 + n % 64
    ensures n / 64 == (n / 4096) * 64 + (n / 64) % 64
    ensures n / 4096 == (n / 262144) * 64 + (n / 4096) % 64
  {
    var q, r := n / 64, n % 64;
    var q2, r2 := q / 64, q % 64;
    assert n == 4096 * q2 + 64 * r2 + r;
    assert n / 4096 == q2;
    var q3, r3 := q2 / 64, q2 % 64;
    assert n == 262144 * q3 + 4096 * r3 + 64 * r2 + r;
    assert n / 262144 == q3;
  }

  /** `Buffer.from(s)`. */
  function Utf8(s: string): (b: seq<int>)
    ensures s == [] <==> b == []
  {
    if s == [] then [] else EncodeChar(s[0]) + Utf8(s[1..])
  }

  /** UTF-8 loses nothing: equal bytes mean equal strings. */
  lemma {:induction false} Utf8Injective(a: string, b: string)
    requires Utf8(a) == Utf8(b)
    ensures a == b
    decreases |a|
  {
    if a != [] {
      var ea, eb := EncodeChar(a[0]), EncodeChar(b[0]);
      EncodeCharDecodes(a[0]);
      EncodeCharDecodes(b[0]);
      assert Utf8(a) == ea + Utf8(a[1..]) && Utf8(b) == eb + Utf8(b[1..]);
      assert ea[0] == Utf8(a)[0] == eb[0];
      assert ea == Utf8(a)[..|ea|] == eb;
      assert Utf8(a[1..]) == Utf8(a)[|ea|..] == Utf8(b[1..]);
      Utf8Injective(a[1..], b[1..]);
      assert a == [a[0]] + a[1..] && b == [b[0]] + b[1..];
    }
  }
}
