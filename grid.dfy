/**
 * `getGridCell` of the client's sample data: the grid key of a point, after
 * the latitude shift and the longitude wrap, and the cell stored under it.
 */
module Grid {
  import opened Wrappers
  import opened Text

  function SignChar(v: int): char {
    if v < 0 then '-' else '+'
  }

  function Abs(v: int): nat {
    if v < 0 then -v else v
  }

  function Pad3(n: nat): string {
    PadStart(NatToString(n), 3, '0')
  }

  /** `'lat' + sign + |lat| to 3 digits + '_lng' + sign + |lng| to 3 digits`. */
  function GridKey(la: int, ln: int): string {
    "lat" + [SignChar(la)] + Pad3(Abs(la)) + "_lng" + [SignChar(ln)] + Pad3(Abs(ln))
  }

  function SignedValue(sign: char, digits: string): Option<int> {
    if (sign == '+' || sign == '-') && AllDigits(digits) then
      var v: int := ParseDigits(digits);
      Some(if sign == '-' then -v else v)
    else None
  }

  /** Reads a grid key back into its two whole degrees. */
  function ParseGridKey(key: string): Option<(int, int)> {
    if |key| == 15 && key[..3] == "lat" && key[7..11] == "_lng" then
      match (SignedValue(key[3], key[4..7]), SignedValue(key[11], key[12..15]))
      case (Some(la), Some(ln)) => Some((la, ln))
      case _ => None
    else None
  }

  lemma Pad3Digits(n: nat)
    requires n < 1000
    ensures |Pad3(n)| == 3
    ensures AllDigits(Pad3(n))
    ensures ParseDigits(Pad3(n)) == n
  {
    NatToStringShort(n);
    PaddedNatRoundTrip(n, 3);
  }

  lemma SignedPad3(v: int)
    requires -1000 < v < 1000
    ensures SignedValue(SignChar(v), Pad3(Abs(v))) == Some(v)
  {
    var d := Pad3(Abs(v));
    Pad3Digits(Abs(v));
    var p: int := ParseDigits(d);
    assert p == Abs(v);
    if v < 0 {
      assert SignChar(v) == '-';
      assert SignedValue('-', d) == Some(-p);
    } else {
      assert SignChar(v) == '+';
      assert SignedValue('+', d) == Some(p);
    }
  }

  /** A key read back part by part: the two signed values between the fixed separators. */
  lemma ParseParts(sa: char, pa: string, sb: char, pb: string)
    requires |pa| == 3 && |pb| == 3
    requires SignedValue(sa, pa).Some? && SignedValue(sb, pb).Some?
    ensures ParseGridKey("lat" + [sa] + pa + "_lng" + [sb] + pb)
         == Some((SignedValue(sa, pa).value, SignedValue(sb, pb).value))
  {
    var k := "lat" + [sa] + pa + "_lng" + [sb] + pb;
    assert |k| == 15;
    assert k[..3] == "lat" && k[7..11] == "_lng";
    assert k[3] == sa && k[4..7] == pa;
    assert k[11] == sb && k[12..15] == pb;
  }

  /** A key names exactly one cell: it is 15 characters long and parses back to its degrees. */
  lemma GridKeyRoundTrip(la: int, ln: int)
    requires -1000 < la < 1000 && -1000 < ln < 1000
    ensures |GridKey(la, ln)| == 15
    ensures ParseGridKey(GridKey(la, ln)) == Some((la, ln))
  {
    Pad3Digits(Abs(la));
    Pad3Digits(Abs(ln));
    SignedPad3(la);
    SignedPad3(ln);
    ParseParts(SignChar(la), Pad3(Abs(la)), SignChar(ln), Pad3(Abs(ln)));
  }

  /** `x` is a whole number of turns. */
  predicate WholeTurns(x: real) {
    (x / 360.0).Floor as real == x / 360.0
  }

  /** Whole turns added to a longitude below the range: the first value at or above -180. */
  function TurnsUp(lng: real): (w: real)
    requires lng < -180.0
    ensures -180.0 <= w < 180.0 && WholeTurns(w - lng)
  {
    var x := (lng + 180.0) / 360.0;
    var f := x.Floor;
    assert f as real <= x < f as real + 1.0;
    assert 360.0 * x == lng + 180.0;
    var w := lng - 360.0 * f as real;
    assert w + 180.0 == 360.0 * (x - f as real);
    var turns := (w - lng) / 360.0;
    assert turns == (-f) as real;
    assert turns.Floor == -f;
    w
  }

  /** Whole turns taken from a longitude above the range: the first value at or below 180. */
  function TurnsDown(lng: real): (w: real)
    requires lng > 180.0
    ensures -180.0 < w <= 180.0 && WholeTurns(w - lng)
  {
    var x := (180.0 - lng) / 360.0;
    var f := x.Floor;
    assert 360.0 * x == 180.0 - lng;
    assert (360.0 * f as real) / 360.0 == f as real;
    lng + 360.0 * f as real
  }

  /**
   * Where the two loops of `getGridCell` take a longitude, in closed form:
   * from below they stop in [-180, 180), from above in (-180, 180].
   */
  function Wrap(lng: real): (w: real)
    ensures -180.0 <= w <= 180.0
    ensures WholeTurns(w - lng)
    ensures -180.0 <= lng <= 180.0 ==> w == lng
    ensures lng < -180.0 ==> w < 180.0
    ensures lng > 180.0 ==> -180.0 < w
  {
    if lng < -180.0 then TurnsUp(lng)
    else if lng > 180.0 then TurnsDown(lng)
    else
      assert (lng - lng) / 360.0 == 0.0;
      lng
  }

  /**
   * The range, whole turns and the two tie-breaks single out one value: any
   * longitude with these properties is `Wrap(lng)`.
   */
  lemma WrapUnique(lng: real, w: real)
    requires -180.0 <= w <= 180.0
    requires WholeTurns(w - lng)
    requires -180.0 <= lng <= 180.0 ==> w == lng
    requires lng < -180.0 ==> w < 180.0
    requires lng > 180.0 ==> -180.0 < w
    ensures w == Wrap(lng)
  {
    var v := Wrap(lng);
    var a := ((w - lng) / 360.0).Floor;
    var b := ((v - lng) / 360.0).Floor;
    assert w == lng + 360.0 * a as real;
    assert v == lng + 360.0 * b as real;
    assert -1 <= a - b <= 1;
  }

  /** The two `while` loops that bring a longitude into [-180, 180] by whole turns. */
  method WrapLongitude(lng: real) returns (w: real)
    ensures w == Wrap(lng)
  {
    w := lng;
    ghost var turns: int := 0;
    while w < -180.0
      invariant w == lng + 360.0 * turns as real
      invariant 0 <= turns && (turns > 0 ==> w < 180.0)
      decreases (-180.0 - w).Floor
    {
      w := w + 360.0;
      turns := turns + 1;
    }
    while w > 180.0
      invariant w == lng + 360.0 * turns as real
      invariant -180.0 <= w
      invariant turns <= 0 || w < 180.0
      invariant turns < 0 ==> lng > 180.0 && -180.0 < w
      decreases (w - 180.0).Floor
    {
      w := w - 360.0;
      turns := turns - 1;
    }
    assert (w - lng) / 360.0 == turns as real;
    WrapUnique(lng, w);
  }

  /**
   * `getGridCell`: `None` for the grid key when the shifted latitude is off
   * the globe (the source then answers `[]`), otherwise the key and the cell
   * stored under it (`None` for `undefined`).
   */
  method GetGridCell(sampleData: map<string, seq<real>>, lat: real, lng: real)
    returns (key: Option<string>, cell: Option<seq<real>>)
    ensures key.None? <==> lat + 1.0 < -90.0 || lat + 1.0 > 90.0
    ensures key.None? ==> cell == Some([])
    ensures key.Some? ==> CellKey(key.value, lat + 1.0, lng)
    ensures key.Some? ==> cell == if key.value in sampleData then Some(sampleData[key.value]) else None
  {
    // the sample data's rows are keyed one degree north of the point
    var la := lat + 1.0;
    if la < -90.0 || la > 90.0 {
      return None, Some([]);
    }
    var w := WrapLongitude(lng);
    var k := GridKey(la.Floor, w.Floor);
    KeyOfCell(la, lng);
    key := Some(k);
    cell := if k in sampleData then Some(sampleData[k]) else None;
  }

  /**
   * `key` is the grid key of the cell holding (`la`, `lng`), written for the
   * floored latitude and the floored wrapped longitude (so a zero degree is
   * "+000"): 15 characters that read back as those two values, the longitude
   * being the floored longitude itself when no wrap was needed and in any
   * case differing from it by whole turns.
   */
  predicate CellKey(key: string, la: real, lng: real) {
    var ln := Wrap(lng).Floor;
    && -90 <= la.Floor <= 90 && -180 <= ln <= 180
    && (ln - lng.Floor) % 360 == 0
    && (-180.0 <= lng <= 180.0 ==> ln == lng.Floor)
    && key == GridKey(la.Floor, ln)
    && |key| == 15
    && ParseGridKey(key) == Some((la.Floor, ln))
  }

  lemma KeyOfCell(la: real, lng: real)
    requires -90.0 <= la <= 90.0
    ensures CellKey(GridKey(la.Floor, Wrap(lng).Floor), la, lng)
  {
    var w := Wrap(lng);
    FloorShift(lng, w);
    GridKeyRoundTrip(la.Floor, w.Floor);
  }

  /** Whole turns move the floor by whole turns. */
  lemma FloorShift(lng: real, w: real)
    requires WholeTurns(w - lng)
    ensures (w.Floor - lng.Floor) % 360 == 0
  {
    var k := ((w - lng) / 360.0).Floor;
    assert w == lng + 360.0 * k as real;
    assert w.Floor == lng.Floor + 360 * k;
  }
}
