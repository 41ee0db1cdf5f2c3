/**
 * The documents the backend reads and writes. Firestore is replaced by plain
 * values: the `uploads` collection is a map from document id to document, the
 * single `paths/paths` document and the `stats/stats` counter are records.
 */
module Store {
  import opened Wrappers

  const PENDING: string := "PENDING"
  const DONE: string := "DONE"

  /** A location as the client reports it, or as the fallback synthesises it. */
  datatype Location = Location(latitude: real, longitude: real, accuracy: real, timestamp: int)

  /** A document of the `uploads` collection. `photoUpload` is the raw status string. */
  datatype UploadDoc = UploadDoc(
    photoUpload: string,
    code: string,
    location: Option<Location>,
    timestamp: int,
    photoURL: Option<string>,
    photoId: Option<string>,
    photoName: Option<string>,
    dotNum: Option<nat>)

  type Uploads = map<string, UploadDoc>

  /** `paths/paths` as the backend writes it: one flat `[lat, lng, lat, lng, ...]` array per dot key. */
  datatype PathsDoc = PathsDoc(paths: map<string, seq<real>>, lastUpdatedPath: string, lastUpdatedId: string)

  /** `stats/stats`; a missing `uploadCount` field is taken as 0. */
  datatype Stats = Stats(uploadCount: int)

  predicate IsDone(d: Option<UploadDoc>) {
    d.Some? && d.value.photoUpload == DONE
  }

  /** The ids of the uploads whose status is DONE: what the counter should equal. */
  function DoneIds(m: Uploads): set<string> {
    set id | id in m && m[id].photoUpload == DONE
  }

  function Lookup(m: Uploads, id: string): Option<UploadDoc> {
    if id in m then Some(m[id]) else None
  }

  /** A create, update (`Some`) or delete (`None`) of one upload document. */
  function Write(m: Uploads, id: string, d: Option<UploadDoc>): Uploads {
    if d.Some? then m[id := d.value] else m - {id}
  }
}
