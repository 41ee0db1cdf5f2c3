/**
 * The string helpers both halves of the system lean on: `String(n)` for a
 * non-negative integer, `padStart`, `Array.prototype.join` and
 * `String.prototype.split` on a single-character separator.
 */
module Text {

  predicate IsDigit(c: char) {
    '0' <= c <= '9'
  }

  predicate AllDigits(s: string) {
    forall i :: 0 <= i < |s| ==> IsDigit(s[i])
  }

  function DigitChar(d: nat): (c: char)
    requires d < 10
    ensures IsDigit(c) && DigitValue(c) == d
  {
    "0123456789"[d]
  }

  function DigitValue(c: char): nat
    requires IsDigit(c)
  {
    (c as int) - ('0' as int)
  }

  /** `String(n)`: decimal digits with no leading zero. */
  function NatToString(n: nat): (s: string)
    ensures 1 <= |s|
    ensures AllDigits(s)
    ensures n < 10 <==> |s| == 1
    ensures 1 < |s| ==> s[0] != '0'
    decreases n
  {
    if n < 10 then [DigitChar(n)] else NatToString(n / 10) + [DigitChar(n % 10)]
  }

  /** The value of a string of decimal digits (leading zeros allowed). */
  function ParseDigits(s: string): nat
    requires AllDigits(s)
  {
    if s == [] then 0 else ParseDigits(s[..|s| - 1]) * 10 + DigitValue(s[|s| - 1])
  }

  /** `s.padStart(width, fill)`: fills on the left up to `width` characters. */
  function PadStart(s: string, width: nat, fill: char): (r: string)
    ensures |r| == if |s| < width then width else |s|
    ensures r[|r| - |s|..] == s
    ensures forall i :: 0 <= i < |r| - |s| ==> r[i] == fill
  {
    if |s| < width then seq(width - |s|, _ => fill) + s else s
  }

  lemma {:induction false} ParseNatToString(n: nat)
    ensures ParseDigits(NatToString(n)) == n
    decreases n
  {
    if 10 <= n {
      var s := NatToString(n);
      assert s[..|s| - 1] == NatToString(n / 10);
      ParseNatToString(n / 10);
    }
  }

  lemma {:induction false} ParseSkipsLeadingZeros(z: string, s: string)
    requires forall i :: 0 <= i < |z| ==> z[i] == '0'
    requires AllDigits(s)
    ensures AllDigits(z + s)
    ensures ParseDigits(z + s) == ParseDigits(s)
    decreases |s|
  {
    if s == [] {
      assert z + s == z;
      ZerosParseToZero(z);
    } else {
      assert (z + s)[..|z + s| - 1] == z + s[..|s| - 1];
      ParseSkipsLeadingZeros(z, s[..|s| - 1]);
    }
  }

  lemma {:induction false} ZerosParseToZero(z: string)
    requires forall i :: 0 <= i < |z| ==> z[i] == '0'
    ensures ParseDigits(z) == 0
    decreases |z|
  {
    if z != [] {
      ZerosParseToZero(z[..|z| - 1]);
    }
  }

  lemma {:induction false} NatToStringShort(n: nat)
    ensures n < 1000 ==> |NatToString(n)| <= 3
    ensures 1000 <= n ==> 4 <= |NatToString(n)|
    decreases n
  {
    if 10 <= n {
      NatToStringShort(n / 10);
    }
  }

  /** `String(n).padStart(width, '0')` keeps the number: parsing it back gives `n`. */
  lemma PaddedNatRoundTrip(n: nat, width: nat)
    ensures AllDigits(PadStart(NatToString(n), width, '0'))
    ensures ParseDigits(PadStart(NatToString(n), width, '0')) == n
  {
    var s := NatToString(n);
    var r := PadStart(s, width, '0');
    var z := r[..|r| - |s|];
    assert r == z + s;
    ParseSkipsLeadingZeros(z, s);
    ParseNatToString(n);
  }

  /** `parts.join(sep)`. */
  function Join(parts: seq<string>, sep: char): string
  {
    if parts == [] then ""
    else if |parts| == 1 then parts[0]
    else parts[0] + [sep] + Join(parts[1..], sep)
  }

  /** `s.split(sep)` for a one-character separator: never empty, `""` splits to `[""]`. */
  function Split(s: string, sep: char): (r: seq<string>)
    ensures 1 <= |r|
    ensures forall i, j :: 0 <= i < |r| && 0 <= j < |r[i]| ==> r[i][j] != sep
    decreases |s|
  {
    if s == [] then [""]
    else
      var rest := Split(s[1..], sep);
      if s[0] == sep then [""] + rest else [[s[0]] + rest[0]] + rest[1..]
  }

  /** Splitting undoes joining when no part holds the separator. */
  lemma {:induction false} SplitJoin(parts: seq<string>, sep: char)
    requires 1 <= |parts|
    requires forall i, j :: 0 <= i < |parts| && 0 <= j < |parts[i]| ==> parts[i][j] != sep
    ensures Split(Join(parts, sep), sep) == parts
    decreases |parts|, |parts[0]|
  {
    var p := parts[0];
    if p == [] {
      if |parts| > 1 {
        var rest := Join(parts[1..], sep);
        assert Join(parts, sep) == [sep] + rest;
        SplitJoin(parts[1..], sep);
        SplitAtSeparator(rest, sep);
        assert parts == [p] + parts[1..];
      }
    } else {
      var tail := [p[1..]] + parts[1..];
      assert forall i, j :: 0 <= i < |tail| && 0 <= j < |tail[i]| ==> tail[i][j] != sep by {
        forall i, j | 0 <= i < |tail| && 0 <= j < |tail[i]| ensures tail[i][j] != sep {
          if i == 0 { assert tail[0][j] == p[j + 1]; } else { assert tail[i] == parts[i]; }
        }
      }
      SplitJoin(tail, sep);
      JoinFirstChar(parts, sep);
      SplitAtChar(p[0], Join(tail, sep), sep);
      assert [p[0]] + p[1..] == p;
      assert parts == [p] + tail[1..];
    }
  }

  /** Peeling the first character off the first part. */
  lemma JoinFirstChar(parts: seq<string>, sep: char)
    requires 1 <= |parts| && parts[0] != []
    ensures Join(parts, sep) == [parts[0][0]] + Join([parts[0][1..]] + parts[1..], sep)
  {
    var tail := [parts[0][1..]] + parts[1..];
    assert tail[1..] == parts[1..];
  }

  lemma SplitAtSeparator(s: string, sep: char)
    ensures Split([sep] + s, sep) == [""] + Split(s, sep)
  {
    assert ([sep] + s)[1..] == s;
  }

  lemma SplitAtChar(c: char, s: string, sep: char)
    requires c != sep
    ensures Split([c] + s, sep) == [[c] + Split(s, sep)[0]] + Split(s, sep)[1..]
  {
    assert ([c] + s)[1..] == s;
  }

  /** The key of a dot in every path map: `String(dotNum).padStart(3, '0')`. */
  function DotKey(dotNum: nat): (k: string)
    ensures dotNum < 1000 ==> |k| == 3
  {
    NatToStringShort(dotNum);
    PadStart(NatToString(dotNum), 3, '0')
  }

  /** Different dots never share a key, so an append touches one dot only. */
  lemma DotKeyInjective(a: nat, b: nat)
    ensures DotKey(a) == DotKey(b) ==> a == b
  {
    PaddedNatRoundTrip(a, 3);
    PaddedNatRoundTrip(b, 3);
  }
}
