/**
 * `checkUpload`: when a photo lands in storage under `<uploadId>/<file>`, the
 * pending upload document is resolved to a dot, its location (real or
 * synthesised) is appended to the dot's path, and the document is marked DONE.
 */
module UploadCheck {
  import opened Wrappers
  import opened Store
  import opened Text
  import opened Paths
  import Counter

  /** The scan of Node's POSIX `path.dirname` from index `i` down to 1; -1 when no separator ends a segment. */
  function DirnameScan(p: string, i: int, matchedSlash: bool): (end: int)
    requires i < |p|
    ensures end == -1 || (1 <= end <= i && p[end] == '/')
    decreases i
  {
    if i < 1 then -1
    else if p[i] == '/' then (if !matchedSlash then i else DirnameScan(p, i - 1, true))
    else DirnameScan(p, i - 1, false)
  }

  /** Node's POSIX `path.dirname`. */
  function Dirname(p: string): string {
    if |p| == 0 then "."
    else
      var end := DirnameScan(p, |p| - 1, true);
      if end == -1 then (if p[0] == '/' then "/" else ".")
      else if p[0] == '/' && end == 1 then "//"
      else p[..end]
  }

  lemma {:induction false} ScanStopsAtSeparator(p: string, i: int, k: int, matchedSlash: bool)
    requires 1 <= k < i < |p| && p[k] == '/'
    requires forall j :: k < j <= i ==> p[j] != '/'
    ensures DirnameScan(p, i, matchedSlash) == k
    decreases i
  {
    if i - 1 > k {
      ScanStopsAtSeparator(p, i - 1, k, false);
    }
  }

  /** The upload id is recovered from the object path `<id>/<file>`. */
  lemma UploadIdOfObjectPath(id: string, file: string)
    requires id != [] && id != "/"
    requires file != [] && forall j :: 0 <= j < |file| ==> file[j] != '/'
    ensures Dirname(id + "/" + file) == id
  {
    var p := id + "/" + file;
    ScanStopsAtSeparator(p, |p| - 1, |id|, true);
    assert p[..|id|] == id;
  }

  datatype CheckError =
    | NotFound       // no upload document with that id (the read of its data throws)
    | NotPending     // the document is not PENDING: a duplicate or late notification
    | CodeNotFound   // the code has no entry in `codes`

  /** `resolveUploadCode`: the dot number stored for a code. */
  function ResolveUploadCode(codes: map<string, nat>, code: string): (r: Result<nat, CheckError>)
    ensures r.Success? <==> code in codes
    ensures r.Success? ==> r.value == codes[code]
    ensures r.Failure? ==> r.error == CodeNotFound
  {
    if code in codes then Success(codes[code]) else Failure(CodeNotFound)
  }

  /** The storage object whose finalisation triggers the check. */
  datatype FinalizedObject = FinalizedObject(name: string, mediaLink: string, id: string)

  /** The part of the store the check reads and writes. */
  datatype Backend = Backend(uploads: Uploads, codes: map<string, nat>, paths: PathsDoc)

  /**
   * The store after a successful check of upload `id`: the document is DONE
   * with the photo and the dot attached, and its location is kept or
   * synthesised; exactly one dot's path changes, ending with that location;
   * and the counter trigger sees one more DONE upload.
   */
  predicate Completed(obj: FinalizedObject, db: Backend, draws: FallbackDraws, now: int, b: Backend)
    requires Dirname(obj.name) in db.uploads && db.uploads[Dirname(obj.name)].code in db.codes
  {
    var id := Dirname(obj.name);
    var before := db.uploads[id];
    var dotNum := db.codes[before.code];
    var key := DotKey(dotNum);
    && b.codes == db.codes
    // the upload document
    && b.uploads.Keys == db.uploads.Keys
    && (forall k :: k in db.uploads && k != id ==> b.uploads[k] == db.uploads[k])
    && var after := b.uploads[id];
    && after == before.(photoUpload := DONE, location := after.location, photoURL := Some(obj.mediaLink),
                        photoId := Some(obj.id), photoName := Some(obj.name), dotNum := Some(dotNum))
    && after.location.Some?
    && LocationSet(before, PathOf(db.paths, key), draws, now, after.location.value)
    // the paths document
    && PathMoved(db.paths, b.paths, key, id, after.location.value)
    // the counter's target
    && |DoneIds(b.uploads)| == |DoneIds(db.uploads)| + 1
  }

  method CheckUpload(obj: FinalizedObject, db: Backend, draws: FallbackDraws, now: int)
    returns (r: Result<Backend, CheckError>)
    ensures var id := Dirname(obj.name);
      && (id !in db.uploads ==> r == Failure(NotFound))
      && (id in db.uploads && db.uploads[id].photoUpload != PENDING ==> r == Failure(NotPending))
      && (id in db.uploads && db.uploads[id].photoUpload == PENDING && db.uploads[id].code !in db.codes ==>
            r == Failure(CodeNotFound))
      && (r.Success? <==>
            id in db.uploads && db.uploads[id].photoUpload == PENDING && db.uploads[id].code in db.codes)
    ensures r.Success? ==> Completed(obj, db, draws, now, r.value)
  {
    var id := Dirname(obj.name);
    if id !in db.uploads {
      return Failure(NotFound);
    }
    var snap := db.uploads[id];
    if snap.photoUpload != PENDING {
      return Failure(NotPending);
    }
    var resolved := ResolveUploadCode(db.codes, snap.code);
    if resolved.Failure? {
      return Failure(resolved.error);
    }
    var b := Complete(obj, db, resolved.value, draws, now);
    return Success(b);
  }

  /** The writes of a check that passed: the path update (real or fallback location), then the DONE update. */
  method Complete(obj: FinalizedObject, db: Backend, dotNum: nat, draws: FallbackDraws, now: int) returns (b: Backend)
    requires Dirname(obj.name) in db.uploads
    requires db.uploads[Dirname(obj.name)].photoUpload == PENDING
    requires db.uploads[Dirname(obj.name)].code in db.codes && db.codes[db.uploads[Dirname(obj.name)].code] == dotNum
    ensures Completed(obj, db, draws, now, b)
  {
    var id := Dirname(obj.name);
    var snap := db.uploads[id];
    var loc, uploads, paths := Locate(db, id, dotNum, draws, now);
    var done := snap.(photoUpload := DONE, location := Some(loc), photoURL := Some(obj.mediaLink), photoId := Some(obj.id),
                      photoName := Some(obj.name), dotNum := Some(dotNum));
    OverwriteTwice(db.uploads, id, snap.(location := Some(loc)), done);
    uploads := uploads[id := done];
    MarkDoneCount(db.uploads, id, done);
    b := Backend(uploads, db.codes, paths);
  }

  lemma OverwriteTwice(m: Uploads, id: string, first: UploadDoc, second: UploadDoc)
    ensures m[id := first][id := second] == m[id := second]
  {
  }

  /**
   * The upload keeps its own location, or gets the fallback one synthesised
   * from the dot's stored `path` and the draws, stamped `now`.
   */
  predicate LocationSet(before: UploadDoc, path: seq<real>, draws: FallbackDraws, now: int, loc: Location) {
    && (before.location.Some? ==> loc == before.location.value)
    && (before.location.None? ==> FallbackLocation(path, draws, now, loc))
  }

  /** The point `loc` was pushed onto the path under `key` (capped) and the document records the write. */
  predicate PathMoved(p: PathsDoc, p': PathsDoc, key: string, id: string, loc: Location) {
    && p'.paths.Keys == p.paths.Keys + {key}
    && (forall k :: k in p.paths && k != key ==> p'.paths[k] == p.paths[k])
    && p'.paths[key] == KeepLast(PathOf(p, key) + [loc.latitude, loc.longitude], PATH_MAX_POINTS * 2)
    && p'.lastUpdatedPath == key && p'.lastUpdatedId == id
  }

  /** The path update of a passed check: with the upload's location, or with a fallback one also written to the upload. */
  method Locate(db: Backend, id: string, dotNum: nat, draws: FallbackDraws, now: int)
    returns (loc: Location, uploads: Uploads, paths: PathsDoc)
    requires id in db.uploads
    ensures uploads == db.uploads[id := db.uploads[id].(location := Some(loc))]
    ensures LocationSet(db.uploads[id], PathOf(db.paths, DotKey(dotNum)), draws, now, loc)
    ensures PathMoved(db.paths, paths, DotKey(dotNum), id, loc)
  {
    var snap := db.uploads[id];
    if snap.location.Some? {
      loc := snap.location.value;
      paths := UpdatePaths(db.paths, PathUpdate(dotNum, loc.latitude, loc.longitude, snap.timestamp, id));
      uploads := db.uploads;
      assert snap.(location := Some(loc)) == snap;
    } else {
      loc, uploads, paths := UpdatePathsFallback(db.paths, db.uploads, dotNum, id, draws, now);
    }
  }

  /** Marking a PENDING upload DONE adds one to the DONE count. */
  lemma MarkDoneCount(m: Uploads, id: string, done: UploadDoc)
    requires id in m && m[id].photoUpload == PENDING && done.photoUpload == DONE
    ensures |DoneIds(m[id := done])| == |DoneIds(m)| + 1
  {
    assert m[id := done] == Write(m, id, Some(done));
    assert PENDING != DONE;
    Counter.WriteMovesDoneCount(m, id, Some(done));
  }
}
