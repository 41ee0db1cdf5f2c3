/**
 * `updatePaths` and `updatePathsFallback`: append one point per upload to the
 * dot's flat coordinate array in `paths/paths`, keeping only the newest
 * `PATH_MAX_POINTS` points.
 */
module Paths {
  import opened Wrappers
  import opened Text
  import opened Store

  const PATH_MAX_POINTS: nat := 200
  const FALLBACK_LOCATION_DIST: real := 0.1

  /** `s.slice(-n)` when `s` is longer than `n`, `s` otherwise. */
  function KeepLast(s: seq<real>, n: nat): (r: seq<real>)
    ensures |r| == if |s| < n then |s| else n
    ensures r == s[|s| - |r|..]
  {
    if |s| > n then s[|s| - n..] else s
  }

  /** Capping after every append keeps exactly the newest entries of the whole history. */
  lemma KeepLastAbsorbs(s: seq<real>, t: seq<real>, n: nat)
    ensures KeepLast(KeepLast(s, n) + t, n) == KeepLast(s + t, n)
  {
    var k := KeepLast(s, n);
    var a := KeepLast(k + t, n);
    var b := KeepLast(s + t, n);
    assert |a| == |b|;
    forall i | 0 <= i < |a| ensures a[i] == b[i] {
      assert a[i] == (k + t)[|k + t| - |a| + i];
      assert b[i] == (s + t)[|s + t| - |b| + i];
    }
  }

  /** The stored array of a dot, `[]` when the dot has none yet. */
  function PathOf(doc: PathsDoc, key: string): seq<real> {
    if key in doc.paths then doc.paths[key] else []
  }

  /** The point record `updatePaths` is called with. */
  datatype PathUpdate = PathUpdate(dotNum: nat, lat: real, lng: real, ts: int, id: string)

  method UpdatePaths(doc: PathsDoc, data: PathUpdate) returns (doc': PathsDoc)
    ensures doc'.paths.Keys == doc.paths.Keys + {DotKey(data.dotNum)}
    ensures forall k :: k in doc.paths && k != DotKey(data.dotNum) ==> doc'.paths[k] == doc.paths[k]
    ensures doc'.paths[DotKey(data.dotNum)] == KeepLast(PathOf(doc, DotKey(data.dotNum)) + [data.lat, data.lng], PATH_MAX_POINTS * 2)
    ensures doc'.lastUpdatedPath == DotKey(data.dotNum) && doc'.lastUpdatedId == data.id
  {
    var dotIdx := DotKey(data.dotNum);
    var path := PathOf(doc, dotIdx);
    path := path + [data.lat, data.lng];
    path := CapPath(path);
    doc' := PathsDoc(doc.paths[dotIdx := path], dotIdx, data.id);
    OneKeyChanged(doc.paths, dotIdx, path);
  }

  /** The cap after the push: the last `PATH_MAX_POINTS * 2` entries when the array is longer. */
  method CapPath(path: seq<real>) returns (capped: seq<real>)
    ensures capped == KeepLast(path, PATH_MAX_POINTS * 2)
  {
    capped := path;
    if |capped| > PATH_MAX_POINTS * 2 {
      capped := capped[|capped| - PATH_MAX_POINTS * 2..];
    }
  }

  /** Writing one key of a map adds that key and leaves every other entry alone. */
  lemma OneKeyChanged(m: map<string, seq<real>>, key: string, v: seq<real>)
    ensures m[key := v].Keys == m.Keys + {key}
    ensures forall k :: k in m && k != key ==> m[key := v][k] == m[k]
  {
  }

  /**
   * The array a dot gets from one append: the new point at the end, at most
   * 400 entries, still a whole number of points, and whatever was dropped
   * came from the front.
   */
  lemma AppendedPath(prev: seq<real>, lat: real, lng: real)
    requires |prev| % 2 == 0 && |prev| <= PATH_MAX_POINTS * 2
    ensures var p := KeepLast(prev + [lat, lng], PATH_MAX_POINTS * 2);
      && |p| % 2 == 0
      && 2 <= |p| <= PATH_MAX_POINTS * 2
      && p[|p| - 2..] == [lat, lng]
      && (|prev| < PATH_MAX_POINTS * 2 ==> p == prev + [lat, lng])
      && (|prev| == PATH_MAX_POINTS * 2 ==> p == prev[2..] + [lat, lng])
  {
  }

  /** `Math.random() * (max - min)`: a draw scaled to the width of the band. */
  function Scaled(r: real, w: real): real {
    r * w
  }

  /** `rnd(min, max)` with the draw of `Math.random()` passed in as `r`. */
  function Rnd(min: real, max: real, r: real): real {
    min + Scaled(r, max - min)
  }

  /** A draw in [0, 1) lands in [min, max). */
  lemma RndInBand(min: real, max: real, r: real)
    requires 0.0 <= r < 1.0 && min < max
    ensures min <= Rnd(min, max, r) < max
  {
    ScaledInBand(r, max - min);
  }

  /** A draw in [0, 1) scaled by a positive width stays in [0, width). */
  lemma ScaledInBand(r: real, w: real)
    requires 0.0 <= r < 1.0 && 0.0 < w
    ensures 0.0 <= Scaled(r, w) < w
  {
    assert 0.0 <= r * w;
    assert 0.0 < (1.0 - r) * w;
    assert w - r * w == (1.0 - r) * w;
  }

  /** The range fix of the fallback: latitude shifted by 180, longitude by 360, at most once. */
  function FixLatitude(lat: real): (r: real)
    ensures -270.0 <= lat <= 270.0 ==> -90.0 <= r <= 90.0
    ensures -90.0 <= lat <= 90.0 ==> r == lat
  {
    if lat < -90.0 then lat + 180.0 else if lat > 90.0 then lat - 180.0 else lat
  }

  function FixLongitude(lng: real): (r: real)
    ensures -540.0 <= lng <= 540.0 ==> -180.0 <= r <= 180.0
    ensures -180.0 <= lng <= 180.0 ==> r == lng
  {
    if lng < -180.0 then lng + 360.0 else if lng > 180.0 then lng - 360.0 else lng
  }

  predicate InRange(lat: real, lng: real) {
    -90.0 <= lat <= 90.0 && -180.0 <= lng <= 180.0
  }

  /** A point moved `FALLBACK_LOCATION_DIST` from a point on the globe and range-fixed stays on the globe. */
  lemma NearPointInRange(lat: real, lng: real, sinDir: real, cosDir: real)
    requires InRange(lat, lng)
    requires -1.0 <= sinDir <= 1.0 && -1.0 <= cosDir <= 1.0
    ensures InRange(FixLatitude(lat + sinDir * FALLBACK_LOCATION_DIST), FixLongitude(lng + cosDir * FALLBACK_LOCATION_DIST))
  {
    assert -0.1 <= sinDir * 0.1 <= 0.1;
    assert -0.1 <= cosDir * 0.1 <= 0.1;
  }

  /**
   * The random inputs of the fallback: `sinDir`/`cosDir` are `Math.sin(dir)`
   * and `Math.cos(dir)` of the random direction, `rLat`/`rLng` the two draws of
   * `Math.random()` inside `rnd`.
   */
  datatype FallbackDraws = FallbackDraws(sinDir: real, cosDir: real, rLat: real, rLng: real)

  predicate DrawsInRange(draws: FallbackDraws) {
    && -1.0 <= draws.sinDir <= 1.0 && -1.0 <= draws.cosDir <= 1.0
    && 0.0 <= draws.rLat < 1.0 && 0.0 <= draws.rLng < 1.0
  }

  /**
   * The location `updatePathsFallback` builds, field by field, from the dot's
   * stored array: near the last point when the array holds more than two
   * entries, anywhere in the band otherwise.
   */
  predicate FallbackLocation(path: seq<real>, draws: FallbackDraws, now: int, loc: Location) {
    && (|path| > 2 ==>
          && loc.accuracy == -1.0
          && loc.latitude == FixLatitude(path[|path| - 2] + draws.sinDir * FALLBACK_LOCATION_DIST)
          && loc.longitude == FixLongitude(path[|path| - 1] + draws.cosDir * FALLBACK_LOCATION_DIST)
          && (DrawsInRange(draws) && InRange(path[|path| - 2], path[|path| - 1]) ==> InRange(loc.latitude, loc.longitude)))
    && (|path| <= 2 ==>
          && loc.accuracy == -2.0
          && loc.latitude == Rnd(21.0, 71.0, draws.rLat)
          && loc.longitude == Rnd(-9.0, 143.0, draws.rLng)
          && (DrawsInRange(draws) ==> 21.0 <= loc.latitude < 71.0 && -9.0 <= loc.longitude < 143.0))
    && loc.timestamp == now
  }

  method SynthesizeLocation(path: seq<real>, draws: FallbackDraws, now: int) returns (loc: Location)
    ensures FallbackLocation(path, draws, now, loc)
  {
    var latitude, longitude, accuracy;
    if |path| > 2 {
      // near the last known point, in a random direction
      latitude := path[|path| - 2] + draws.sinDir * FALLBACK_LOCATION_DIST;
      longitude := path[|path| - 1] + draws.cosDir * FALLBACK_LOCATION_DIST;
      accuracy := -1.0;
      if latitude < -90.0 {
        latitude := latitude + 180.0;
      } else if latitude > 90.0 {
        latitude := latitude - 180.0;
      }
      if longitude < -180.0 {
        longitude := longitude + 360.0;
      } else if longitude > 180.0 {
        longitude := longitude - 360.0;
      }
      if DrawsInRange(draws) && InRange(path[|path| - 2], path[|path| - 1]) {
        NearPointInRange(path[|path| - 2], path[|path| - 1], draws.sinDir, draws.cosDir);
      }
    } else {
      // anywhere in the band (roughly Eurasia)
      latitude := Rnd(21.0, 71.0, draws.rLat);
      longitude := Rnd(-9.0, 143.0, draws.rLng);
      if DrawsInRange(draws) {
        RndInBand(21.0, 71.0, draws.rLat);
        RndInBand(-9.0, 143.0, draws.rLng);
      }
      accuracy := -2.0;
    }
    loc := Location(latitude, longitude, accuracy, now);
  }

  /**
   * `updatePathsFallback`: synthesise a location for an upload that has none,
   * store it on the upload document, then append it to the dot's path.
   */
  method UpdatePathsFallback(doc: PathsDoc, uploads: Uploads, dotNum: nat, uploadId: string, draws: FallbackDraws, now: int)
    returns (loc: Location, uploads': Uploads, doc': PathsDoc)
    requires uploadId in uploads
    ensures FallbackLocation(PathOf(doc, DotKey(dotNum)), draws, now, loc)
    ensures uploads' == uploads[uploadId := uploads[uploadId].(location := Some(loc))]
    ensures doc'.paths.Keys == doc.paths.Keys + {DotKey(dotNum)}
    ensures forall k :: k in doc.paths && k != DotKey(dotNum) ==> doc'.paths[k] == doc.paths[k]
    ensures doc'.paths[DotKey(dotNum)] == KeepLast(PathOf(doc, DotKey(dotNum)) + [loc.latitude, loc.longitude], PATH_MAX_POINTS * 2)
    ensures doc'.lastUpdatedPath == DotKey(dotNum) && doc'.lastUpdatedId == uploadId
  {
    var dotIdx := DotKey(dotNum);
    loc := SynthesizeLocation(PathOf(doc, dotIdx), draws, now);
    // the synthesised location is stored on the upload first
    uploads' := uploads[uploadId := uploads[uploadId].(location := Some(loc))];
    doc' := UpdatePaths(doc, PathUpdate(dotNum, loc.latitude, loc.longitude, now, uploadId));
  }
}
