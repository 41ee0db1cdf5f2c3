/**
 * Upload codes on the client: a code is digits joined by '_' ("0_4_2"), and
 * each digit can also be typed as an Ionicons symbol from the `digits` table.
 */
module Codes {
  import opened Wrappers
  import opened Text

  /** The `digits` table: the icon name and code point that stand for each digit. */
  const DIGITS: seq<(string, int)> := [
    ("md-heart", 0xf308),
    ("ios-moon", 0xf468),
    ("md-flower", 0xf2f3),
    ("ios-star", 0xf4b3),
    ("ios-sunny", 0xf4b7),
    ("md-play", 0xf357),
    ("md-cloud", 0xf2c9),
    ("ios-square", 0xf21a),
    ("md-water", 0xf3a7),
    ("ios-happy", 0xf192)
  ]

  /** `String.fromCodePoint(digits[d][1])`. */
  function IconChar(d: nat): (c: char)
    requires d < 10
    ensures 0xf000 <= c as int < 0xf500
  {
    var cp := DIGITS[d].1;
    assert 0xf000 <= cp < 0xf500;
    cp as char
  }

  /** No two digits share a symbol, so reading a symbol back is unambiguous. */
  lemma IconsDistinct(i: nat, j: nat)
    requires i < 10 && j < 10 && i != j
    ensures IconChar(i) != IconChar(j)
  {
  }

  /** The digit whose symbol is `ch`, scanning the table from digit `from` on. */
  function DigitOfIcon(ch: char, from: nat := 0): (r: Option<nat>)
    requires from <= 10
    ensures r.Some? ==> from <= r.value < 10 && IconChar(r.value) == ch
    ensures r.None? ==> forall d :: from <= d < 10 ==> IconChar(d) != ch
    decreases 10 - from
  {
    if from == 10 then None
    else if IconChar(from) == ch then Some(from)
    else DigitOfIcon(ch, from + 1)
  }

  /** What `digitForChar` answers: the digit as a string, or '' for a character that is no symbol. */
  function DigitText(ch: char): string {
    match DigitOfIcon(ch)
    case Some(d) => [DigitChar(d)]
    case None => ""
  }

  /** `digitForChar`: the loop over the table's entries. */
  method DigitForChar(ch: char) returns (s: string)
    ensures s == DigitText(ch)
  {
    var d := 0;
    while d < 10
      invariant 0 <= d <= 10
      invariant forall e :: 0 <= e < d ==> IconChar(e) != ch
    {
      if ch == IconChar(d) {
        assert DigitOfIcon(ch) == Some(d) by {
          if DigitOfIcon(ch).Some? && DigitOfIcon(ch).value != d {
            IconsDistinct(d, DigitOfIcon(ch).value);
          }
        }
        return [DigitChar(d)];
      }
      d := d + 1;
    }
    return "";
  }

  function MapDigitText(s: string): (r: seq<string>)
    ensures |r| == |s|
    ensures forall i :: 0 <= i < |s| ==> r[i] == DigitText(s[i])
  {
    if s == [] then [] else [DigitText(s[0])] + MapDigitText(s[1..])
  }

  /** What `iconsToCode` answers: '' for an empty input, else one digit per character joined by '_'. */
  function IconsCode(iconString: string): string {
    if iconString == [] then "" else Join(MapDigitText(iconString), '_')
  }

  /** `iconsToCode`: pushes one entry per character, then joins. */
  method IconsToCode(iconString: string) returns (code: string)
    ensures code == IconsCode(iconString)
  {
    if iconString == [] {
      return "";
    }
    var parts: seq<string> := [];
    for i := 0 to |iconString|
      invariant parts == MapDigitText(iconString[..i])
    {
      var digit := DigitForChar(iconString[i]);
      parts := parts + [digit];
    }
    assert iconString[..|iconString|] == iconString;
    code := Join(parts, '_');
  }

  /** The tail `(_[0-9])*$` of the code pattern. */
  predicate MoreGroups(s: string)
    decreases |s|
  {
    s == [] || (2 <= |s| && s[0] == '_' && IsDigit(s[1]) && MoreGroups(s[2..]))
  }

  /** `checkCodeFormat`: the pattern `^[0-9](_[0-9])*$`. */
  predicate CheckCodeFormat(code: string) {
    1 <= |code| && IsDigit(code[0]) && MoreGroups(code[1..])
  }

  /** The code pattern read position by position: digits at even, '_' at odd positions, odd length. */
  predicate DigitsAndSeparators(s: string) {
    && |s| % 2 == 1
    && forall i :: 0 <= i < |s| ==> (if i % 2 == 0 then IsDigit(s[i]) else s[i] == '_')
  }

  lemma {:induction false} MoreGroupsPositional(s: string)
    ensures MoreGroups(s) <==>
      |s| % 2 == 0 && forall i :: 0 <= i < |s| ==> (if i % 2 == 0 then s[i] == '_' else IsDigit(s[i]))
    decreases |s|
  {
    if 2 <= |s| {
      MoreGroupsPositional(s[2..]);
      var t := s[2..];
      assert forall i :: 2 <= i < |s| ==> s[i] == t[i - 2];
    }
  }

  lemma CheckCodeFormatPositional(code: string)
    ensures CheckCodeFormat(code) <==> DigitsAndSeparators(code)
  {
    if 1 <= |code| {
      MoreGroupsPositional(code[1..]);
      var t := code[1..];
      assert forall i :: 1 <= i < |code| ==> code[i] == t[i - 1];
    }
  }

  /** The code whose digits are `ds`. */
  function CodeOf(ds: seq<nat>): (code: string)
    requires forall i :: 0 <= i < |ds| ==> ds[i] < 10
  {
    if ds == [] then "" else if |ds| == 1 then [DigitChar(ds[0])] else [DigitChar(ds[0]), '_'] + CodeOf(ds[1..])
  }

  /** The symbols for the digits `ds`. */
  function IconsOf(ds: seq<nat>): (icons: string)
    requires forall i :: 0 <= i < |ds| ==> ds[i] < 10
    ensures |icons| == |ds|
    ensures forall i :: 0 <= i < |ds| ==> icons[i] == IconChar(ds[i])
  {
    if ds == [] then "" else [IconChar(ds[0])] + IconsOf(ds[1..])
  }

  /** The digits of a well-formed code. */
  function DigitsOf(code: string): (ds: seq<nat>)
    requires CheckCodeFormat(code)
    ensures |ds| >= 1
    ensures forall i :: 0 <= i < |ds| ==> ds[i] < 10
    ensures CodeOf(ds) == code
    decreases |code|
  {
    if |code| == 1 then [DigitValue(code[0])]
    else
      assert CheckCodeFormat(code[2..]);
      [DigitValue(code[0])] + DigitsOf(code[2..])
  }

  /**
   * Line 578 of the client: `code.split('_')`, `parseInt` of each piece and the
   * symbol of that digit, concatenated. A piece that is not a single digit
   * makes `digits[...]` undefined and the expression throw (`None`).
   */
  function CodeToIcons(code: string): Option<string> {
    PiecesToIcons(Split(code, '_'))
  }

  function PiecesToIcons(pieces: seq<string>): Option<string> {
    if pieces == [] then Some("")
    else if |pieces[0]| == 1 && IsDigit(pieces[0][0]) then
      match PiecesToIcons(pieces[1..])
      case Some(rest) => Some([IconChar(DigitValue(pieces[0][0]))] + rest)
      case None => None
    else None
  }

  function DigitPieces(ds: seq<nat>): (pieces: seq<string>)
    requires forall i :: 0 <= i < |ds| ==> ds[i] < 10
    ensures |pieces| == |ds|
    ensures forall i :: 0 <= i < |ds| ==> pieces[i] == [DigitChar(ds[i])]
  {
    if ds == [] then [] else [[DigitChar(ds[0])]] + DigitPieces(ds[1..])
  }

  lemma {:induction false} CodeOfIsJoin(ds: seq<nat>)
    requires forall i :: 0 <= i < |ds| ==> ds[i] < 10
    ensures CodeOf(ds) == Join(DigitPieces(ds), '_')
    decreases |ds|
  {
    if |ds| > 1 {
      CodeOfIsJoin(ds[1..]);
      assert DigitPieces(ds)[1..] == DigitPieces(ds[1..]);
    }
  }

  lemma {:induction false} PiecesOfDigits(ds: seq<nat>)
    requires forall i :: 0 <= i < |ds| ==> ds[i] < 10
    ensures PiecesToIcons(DigitPieces(ds)) == Some(IconsOf(ds))
    decreases |ds|
  {
    if ds != [] {
      PiecesOfDigits(ds[1..]);
      assert DigitPieces(ds)[1..] == DigitPieces(ds[1..]);
    }
  }

  /** A symbol string reads back as the code of its digits. */
  lemma {:induction false} IconsCodeOfIcons(ds: seq<nat>)
    requires forall i :: 0 <= i < |ds| ==> ds[i] < 10
    ensures MapDigitText(IconsOf(ds)) == DigitPieces(ds)
  {
    var icons := IconsOf(ds);
    forall i | 0 <= i < |ds| ensures DigitText(icons[i]) == [DigitChar(ds[i])] {
      var r := DigitOfIcon(icons[i]);
      if r.None? || r.value != ds[i] {
        IconsDistinct(r.value, ds[i]);
      }
    }
  }

  /** No digit piece holds the separator '_'. */
  lemma DigitPiecesNoSeparator(ds: seq<nat>)
    requires forall i :: 0 <= i < |ds| ==> ds[i] < 10
    ensures var pieces := DigitPieces(ds);
      forall i, j :: 0 <= i < |pieces| && 0 <= j < |pieces[i]| ==> pieces[i][j] != '_'
  {
    var pieces := DigitPieces(ds);
    forall i, j | 0 <= i < |pieces| && 0 <= j < |pieces[i]| ensures pieces[i][j] != '_' {
      assert pieces[i] == [DigitChar(ds[i])];
    }
  }

  /** `code.split('_')` of the code of `ds` gives its one-digit pieces. */
  lemma SplitCodeOf(ds: seq<nat>)
    requires 1 <= |ds| && forall i :: 0 <= i < |ds| ==> ds[i] < 10
    ensures Split(CodeOf(ds), '_') == DigitPieces(ds)
  {
    CodeOfIsJoin(ds);
    DigitPiecesNoSeparator(ds);
    SplitJoin(DigitPieces(ds), '_');
  }

  /** Line 578 on the code of `ds` gives the symbols of `ds`. */
  lemma CodeToIconsOfCode(ds: seq<nat>)
    requires 1 <= |ds| && forall i :: 0 <= i < |ds| ==> ds[i] < 10
    ensures CodeToIcons(CodeOf(ds)) == Some(IconsOf(ds))
  {
    SplitCodeOf(ds);
    PiecesOfDigits(ds);
  }

  /** `iconsToCode` on the symbols of `ds` gives the code of `ds`. */
  lemma IconsCodeOfDigits(ds: seq<nat>)
    requires 1 <= |ds| && forall i :: 0 <= i < |ds| ==> ds[i] < 10
    ensures IconsCode(IconsOf(ds)) == CodeOf(ds)
  {
    IconsCodeOfIcons(ds);
    CodeOfIsJoin(ds);
  }

  /** Writing a well-formed code in symbols (line 578) and converting back with `iconsToCode` returns the code. */
  lemma CodeIconsRoundTrip(code: string)
    requires CheckCodeFormat(code)
    ensures CodeToIcons(code).Some?
    ensures IconsCode(CodeToIcons(code).value) == code
  {
    var ds := DigitsOf(code);
    CodeToIconsOfCode(ds);
    IconsCodeOfDigits(ds);
  }

  /** And the other way: a non-empty string of symbols gives a well-formed code that line 578 turns back into it. */
  lemma IconsCodeRoundTrip(ds: seq<nat>)
    requires 1 <= |ds| && forall i :: 0 <= i < |ds| ==> ds[i] < 10
    ensures CheckCodeFormat(IconsCode(IconsOf(ds)))
    ensures CodeToIcons(IconsCode(IconsOf(ds))) == Some(IconsOf(ds))
  {
    IconsCodeOfDigits(ds);
    CodeOfWellFormed(ds);
    CodeToIconsOfCode(ds);
  }

  lemma {:induction false} CodeOfWellFormed(ds: seq<nat>)
    requires 1 <= |ds| && forall i :: 0 <= i < |ds| ==> ds[i] < 10
    ensures CheckCodeFormat(CodeOf(ds))
    decreases |ds|
  {
    if |ds| > 1 {
      CodeOfWellFormed(ds[1..]);
      var c := CodeOf(ds);
      assert c[1..][2..] == CodeOf(ds[1..])[1..];
    }
  }
}
