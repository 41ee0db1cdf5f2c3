/**
 * The client's sample-data writer `addSamplePath` and `resetPaths`, over the
 * `paths/paths` layout the viewer reads: `integrated` (oldest point first),
 * `last` (newest point first, as `lat, lng, ts` triples) and `updated`.
 */
module SamplePaths {
  import opened Wrappers
  import opened Text

  const KEEP_LAST: nat := 10  // how many points `last` keeps
  const DEFAULT_DISTANCE_MIN: real := 50.0
  const DEFAULT_DISTANCE_MAX: real := 250.0

  /** A JavaScript object used as a dictionary from dot key to coordinate array. */
  class Dict {
    var entries: map<string, seq<real>>

    constructor ()
      ensures entries == map[]
    {
      entries := map[];
    }

    function Get(key: string): seq<real>
      reads this
    {
      if key in entries then entries[key] else []
    }

    /** `integrated.push(...locs)` on the entry of `key` (created when missing). */
    method Append(key: string, locs: seq<real>)
      modifies this
      ensures entries == old(entries)[key := old(Get(key)) + locs]
    {
      var path := Get(key);
      path := path + locs;
      entries := entries[key := path];
    }

    /** The `unshift` loop on the entry of `key`, then `slice(0, KEEP_LAST * 3)`. */
    method PushNewest(key: string, locs: seq<real>)
      requires |locs| % 2 == 0
      modifies this
      ensures entries == old(entries)[key := Window(locs, old(Get(key)))]
    {
      var last := Get(key);
      last := UnshiftPoints(last, locs);
      last := Take(last, KEEP_LAST * 3);
      entries := entries[key := last];
    }
  }

  /** The paths data object. Its two dictionaries are objects of their own, shared by shallow copies. */
  class PathsData {
    var integrated: Dict
    var last: Dict
    var updated: string

    /** `resetPaths`: `{ integrated: {}, last: {}, updated: '' }`. */
    constructor Reset()
      ensures fresh(integrated) && fresh(last) && integrated != last
      ensures integrated.entries == map[] && last.entries == map[] && updated == ""
    {
      integrated := new Dict();
      last := new Dict();
      updated := "";
    }

    /** `Object.assign({}, data)`: a new object whose fields point to the same dictionaries. */
    constructor ShallowCopy(data: PathsData)
      ensures integrated == data.integrated && last == data.last && updated == data.updated
    {
      integrated := data.integrated;
      last := data.last;
      updated := data.updated;
    }
  }

  /** The options of `addSamplePath`; `None` is `undefined`. */
  datatype SampleOptions = SampleOptions(
    dotNum: nat,
    startLatitude: Option<real>,
    startLongitude: Option<real>,
    distanceMin: Option<real>,
    distanceMax: Option<real>,
    steps: Option<int>)

  datatype Settings = Settings(dotNum: nat, steps: nat, distanceMin: real, distanceMax: real)

  /** A distance option: its default when undefined or not positive. */
  function DistanceOr(d: Option<real>, default: real): real {
    if d.None? || d.value <= 0.0 then default else d.value
  }

  /**
   * The parameter checks: non-positive `steps` ends the call (`None`),
   * undefined `steps` becomes 1, distances fall back to their defaults and
   * are put in order.
   */
  function Sanitize(o: SampleOptions): (r: Option<Settings>)
    ensures r.None? <==> o.steps.Some? && o.steps.value <= 0
    ensures r.Some? ==>
      && r.value.dotNum == o.dotNum
      && r.value.steps == o.steps.GetOr(1) && 1 <= r.value.steps
      && 0.0 < r.value.distanceMin <= r.value.distanceMax
      && multiset{r.value.distanceMin, r.value.distanceMax} ==
         multiset{DistanceOr(o.distanceMin, DEFAULT_DISTANCE_MIN), DistanceOr(o.distanceMax, DEFAULT_DISTANCE_MAX)}
  {
    if o.steps.Some? && o.steps.value <= 0 then None
    else
      var steps := if o.steps.None? then 1 else o.steps.value;
      var dmin := DistanceOr(o.distanceMin, DEFAULT_DISTANCE_MIN);
      var dmax := DistanceOr(o.distanceMax, DEFAULT_DISTANCE_MAX);
      if dmin > dmax then Some(Settings(o.dotNum, steps, dmax, dmin))
      else Some(Settings(o.dotNum, steps, dmin, dmax))
  }

  /**
   * The stream of coordinates the call adds. `sampled` holds what the calls
   * to `sampleLocation` returned, in order; a forced start location comes first.
   */
  function Stream(o: SampleOptions, sampled: seq<real>): seq<real> {
    if o.startLatitude.Some? && o.startLongitude.Some? then
      [o.startLatitude.value, o.startLongitude.value] + sampled
    else sampled
  }

  /** The `last` entries for a stream of points: one `lat, lng, 0` triple per point, the newest first. */
  function NewestFirst(locs: seq<real>): (r: seq<real>)
    requires |locs| % 2 == 0
    ensures |r| == |locs| / 2 * 3
    decreases |locs|
  {
    if locs == [] then []
    else [locs[|locs| - 2], locs[|locs| - 1], 0.0] + NewestFirst(locs[..|locs| - 2])
  }

  /** The `j`-th triple of `NewestFirst` is the `j`-th newest point. */
  lemma {:induction false} NewestFirstAt(locs: seq<real>, j: nat)
    requires |locs| % 2 == 0 && j < |locs| / 2
    ensures NewestFirst(locs)[3 * j..3 * j + 3] == [locs[|locs| - 2 - 2 * j], locs[|locs| - 1 - 2 * j], 0.0]
    decreases |locs|
  {
    if j > 0 {
      var n := |locs|;
      var rest := locs[..n - 2];
      var head := [locs[n - 2], locs[n - 1], 0.0];
      NewestFirstAt(rest, j - 1);
      assert NewestFirst(locs) == head + NewestFirst(rest);
      SliceAfterPrefix(head, NewestFirst(rest), 3 * j, 3 * j + 3);
      assert rest[n - 2 - 2 * j] == locs[n - 2 - 2 * j] && rest[n - 1 - 2 * j] == locs[n - 1 - 2 * j];
    }
  }

  lemma SliceAfterPrefix(a: seq<real>, b: seq<real>, i: nat, k: nat)
    requires |a| <= i <= k <= |a| + |b|
    ensures (a + b)[i..k] == b[i - |a|..k - |a|]
  {
  }

  function Take(s: seq<real>, n: nat): (r: seq<real>)
    ensures |r| == if |s| < n then |s| else n
    ensures r == s[..|r|]
  {
    if |s| <= n then s else s[..n]
  }

  /** `last` after adding `locs`: the new triples in front, cut to `KEEP_LAST` triples. */
  function Window(locs: seq<real>, prev: seq<real>): seq<real>
    requires |locs| % 2 == 0
  {
    Take(NewestFirst(locs) + prev, KEEP_LAST * 3)
  }

  /** The window stays bounded and made of triples, and begins with the newest point. */
  lemma WindowShape(locs: seq<real>, prev: seq<real>)
    requires |locs| % 2 == 0 && 2 <= |locs|
    requires |prev| % 3 == 0
    ensures |Window(locs, prev)| <= KEEP_LAST * 3
    ensures |Window(locs, prev)| % 3 == 0
    ensures Window(locs, prev)[..3] == [locs[|locs| - 2], locs[|locs| - 1], 0.0]
  {
    NewestFirstAt(locs, 0);
  }

  /** The loop of `unshift` calls: each point goes to the front of `last`. */
  method UnshiftPoints(last: seq<real>, locs: seq<real>) returns (r: seq<real>)
    requires |locs| % 2 == 0
    ensures r == NewestFirst(locs) + last
  {
    r := last;
    var i := 0;
    while i < |locs|
      invariant 0 <= i <= |locs| && i % 2 == 0
      invariant r == NewestFirst(locs[..i]) + last
    {
      assert locs[..i + 2][..i] == locs[..i];
      r := [locs[i], locs[i + 1], 0.0] + r;
      i := i + 2;
    }
    assert locs[..i] == locs;
  }

  /**
   * `addSamplePath`. The result is a shallow copy of `data`, so the caller's
   * two dictionaries are updated in place, while `updated` is set on the copy only.
   */
  method AddSamplePath(data: PathsData, opts: SampleOptions, sampled: seq<real>) returns (result: PathsData)
    requires data.integrated != data.last
    requires PointPerStep(opts, sampled)
    modifies data.integrated, data.last
    ensures fresh(result)
    ensures result.integrated == data.integrated && result.last == data.last
    ensures data.updated == old(data.updated)
    ensures Sanitize(opts).None? ==>
      && result.updated == data.updated
      && data.integrated.entries == old(data.integrated.entries)
      && data.last.entries == old(data.last.entries)
    ensures Sanitize(opts).Some? ==>
      var key := DotKey(opts.dotNum);
      var locs := Stream(opts, sampled);
      && result.integrated.entries == old(data.integrated.entries)[key := old(data.integrated.Get(key)) + locs]
      && result.last.entries == old(data.last.entries)[key := Window(locs, old(data.last.Get(key)))]
      && result.updated == key
  {
    result := new PathsData.ShallowCopy(data);
    var settings := Sanitize(opts);
    if settings.None? {
      return;
    }
    StreamEven(opts, sampled);
    AddPoints(result, DotKey(opts.dotNum), Stream(opts, sampled));
  }

  /** The call is given one `lat, lng` point per step: the start, then `steps - 1` sampled ones. */
  predicate PointPerStep(opts: SampleOptions, sampled: seq<real>) {
    Sanitize(opts).Some? ==> |Stream(opts, sampled)| == 2 * Sanitize(opts).value.steps
  }

  lemma StreamEven(opts: SampleOptions, sampled: seq<real>)
    requires PointPerStep(opts, sampled) && Sanitize(opts).Some?
    ensures |Stream(opts, sampled)| % 2 == 0
  {
    var n := Sanitize(opts).value.steps;
    assert |Stream(opts, sampled)| == 2 * n;
  }

  /**
   * The three writes at the end of `addSamplePath`: the points are appended
   * to the dot's `integrated` entry, put newest first into its `last` window,
   * and the dot is recorded as the one `updated`.
   */
  method AddPoints(data: PathsData, key: string, locs: seq<real>)
    requires data.integrated != data.last
    requires |locs| % 2 == 0
    modifies data, data.integrated, data.last
    ensures data.integrated == old(data.integrated) && data.last == old(data.last)
    ensures data.integrated.entries == old(data.integrated.entries)[key := old(data.integrated.Get(key)) + locs]
    ensures data.last.entries == old(data.last.entries)[key := Window(locs, old(data.last.Get(key)))]
    ensures data.updated == key
  {
    data.integrated.Append(key, locs);
    data.last.PushNewest(key, locs);
    data.updated := key;
  }
}
