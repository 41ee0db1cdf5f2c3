/**
 * The `updateCount` trigger: every create, update or delete of an upload
 * document yields an increment of -1, 0 or +1 to `stats/stats.uploadCount`.
 */
module Counter {
  import opened Wrappers
  import opened Store

  function Indicator(b: bool): int {
    if b then 1 else 0
  }

  /**
   * The increment for one change. A change always has a document on at least
   * one side; a missing `after` is a delete, a missing `before` a create.
   */
  function CountDelta(before: Option<UploadDoc>, after: Option<UploadDoc>): (d: int)
    requires before.Some? || after.Some?
    ensures d == Indicator(IsDone(after)) - Indicator(IsDone(before))
    ensures d == 1 <==> !IsDone(before) && IsDone(after)
    ensures d == -1 <==> IsDone(before) && !IsDone(after)
  {
    if after.None? then
      (if before.value.photoUpload == DONE then -1 else 0)
    else if before.None? then
      (if after.value.photoUpload == DONE then 1 else 0)
    else if before.value.photoUpload != DONE && after.value.photoUpload == DONE then 1
    else if before.value.photoUpload == DONE && after.value.photoUpload != DONE then -1
    else 0
  }

  /** What the trigger does to the counter document. */
  datatype CountEffect =
    | Skipped              // zero increment: returns before touching `stats/stats`
    | Incremented(s: Stats)
    | Failed               // the update was rejected (no counter document); logged and swallowed

  function UpdateCount(before: Option<UploadDoc>, after: Option<UploadDoc>, stats: Option<Stats>): (e: CountEffect)
    requires before.Some? || after.Some?
    ensures e.Skipped? <==> CountDelta(before, after) == 0
    ensures e.Failed? <==> CountDelta(before, after) != 0 && stats.None?
    ensures e.Incremented? ==> stats.Some? && e.s.uploadCount == stats.value.uploadCount + CountDelta(before, after)
  {
    var increment := CountDelta(before, after);
    if increment == 0 then Skipped
    else if stats.None? then Failed
    else Incremented(Stats(stats.value.uploadCount + increment))
  }

  /** The counter document after the trigger ran. */
  function StatsAfter(stats: Option<Stats>, e: CountEffect): Option<Stats> {
    if e.Incremented? then Some(e.s) else stats
  }

  /** One write to the collection moves the DONE set by exactly the trigger's increment. */
  lemma WriteMovesDoneCount(m: Uploads, id: string, d: Option<UploadDoc>)
    requires id in m || d.Some?
    ensures |DoneIds(Write(m, id, d))| == |DoneIds(m)| + CountDelta(Lookup(m, id), d)
  {
    var m' := Write(m, id, d);
    WriteKeepsOtherDone(m, id, d);
    DoneMembership(m, id);
    DoneMembership(m', id);
    assert Lookup(m', id) == d;
    SplitOff(DoneIds(m), id, IsDone(Lookup(m, id)));
    SplitOff(DoneIds(m'), id, IsDone(d));
  }

  /** A write to `id` leaves the DONE status of every other upload as it was. */
  lemma WriteKeepsOtherDone(m: Uploads, id: string, d: Option<UploadDoc>)
    ensures DoneIds(Write(m, id, d)) - {id} == DoneIds(m) - {id}
  {
    var m' := Write(m, id, d);
    forall k | k in DoneIds(m') - {id} ensures k in DoneIds(m) - {id} {
      assert k in m && m[k] == m'[k];
    }
    forall k | k in DoneIds(m) - {id} ensures k in DoneIds(m') - {id} {
      assert k in m' && m'[k] == m[k];
    }
  }

  lemma DoneMembership(m: Uploads, id: string)
    ensures id in DoneIds(m) <==> IsDone(Lookup(m, id))
  {
  }

  /** A set is its part without `x`, plus `x` exactly when `x` belongs to it. */
  lemma SplitOff(s: set<string>, x: string, inside: bool)
    requires inside <==> x in s
    ensures |s| == |s - {x}| + Indicator(inside)
  {
    if inside {
      assert s == (s - {x}) + {x};
    } else {
      assert s == s - {x};
    }
  }

  /** One write to the upload collection; deleting an absent document fires no trigger. */
  datatype UploadWrite = UploadWrite(id: string, doc: Option<UploadDoc>)

  predicate Fires(m: Uploads, w: UploadWrite) {
    w.id in m || w.doc.Some?
  }

  /** The collection and the counter after a history of writes, each seen once by the trigger. */
  function Replay(m: Uploads, stats: Stats, ws: seq<UploadWrite>): (Uploads, Stats)
    decreases |ws|
  {
    if ws == [] then (m, stats)
    else
      var w := ws[0];
      if !Fires(m, w) then Replay(m, stats, ws[1..])
      else
        var e := UpdateCount(Lookup(m, w.id), w.doc, Some(stats));
        Replay(Write(m, w.id, w.doc), StatsAfter(Some(stats), e).value, ws[1..])
  }

  /** The counter equals the number of DONE uploads, whatever the history, if it did at the start. */
  lemma {:induction false} CounterTracksDoneUploads(m: Uploads, stats: Stats, ws: seq<UploadWrite>)
    requires stats.uploadCount == |DoneIds(m)|
    ensures Replay(m, stats, ws).1.uploadCount == |DoneIds(Replay(m, stats, ws).0)|
    decreases |ws|
  {
    if ws != [] {
      var w := ws[0];
      if !Fires(m, w) {
        CounterTracksDoneUploads(m, stats, ws[1..]);
      } else {
        var e := UpdateCount(Lookup(m, w.id), w.doc, Some(stats));
        WriteMovesDoneCount(m, w.id, w.doc);
        CounterTracksDoneUploads(Write(m, w.id, w.doc), StatsAfter(Some(stats), e).value, ws[1..]);
      }
    }
  }
}
