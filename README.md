# lbu-firebase: the aggregation, validation and string rules, modelled in Dafny

The system tracks "dots": participants who redeem a secret upload code for a
dot number and upload photos from where they are. Two pieces of code hold its
logic:

- The Firebase backend (`functions/index.js`). It verifies each finished
  photo upload. It appends the upload's location (or a synthesised one) to the
  dot's path in `paths/paths`, keeps a global counter of DONE uploads in
  `stats/stats`, and deletes pending uploads that were abandoned.
- The browser library (`public/lbu.js`). It converts codes typed as icon
  symbols into digit codes, validates an upload before it starts, computes
  sample-data grid keys, writes sample paths, and resets the data.

Firestore, Storage and the functions runtime are replaced by values:

- the `uploads` collection is a `map<string, UploadDoc>`;
- `paths/paths` is a `PathsDoc` record;
- `stats/stats` is an `Option<Stats>`;
- the `codes` collection is a `map<string, nat>`.

Each handler takes these values and returns the new ones. `Math.random()`,
`Math.sin`/`Math.cos` of the random direction, and `Date.now()` are
parameters. Coordinates are `real`s. The client's in-memory paths object is
changed in place by `addSamplePath` through a shallow copy, so it is a class
(`PathsData`) whose two dictionaries are separate `Dict` objects. The
caller's dictionaries therefore change, but its `updated` field does not,
just as in the source.

Modules, one per file:

- `Wrappers`: Option and Result.
- `Text`: `String(n)`, `padStart`, `join`, `split`, and the dot key.
- `Encoding`: UTF-16 length and UTF-8 bytes.
- `Store`: document shapes.
- `Counter`: `updateCount`.
- `Paths`: `updatePaths` and `updatePathsFallback`.
- `UploadCheck`: `checkUpload`.
- `Cleanup`: `cleanup`.
- `Codes`: the icon/digit codes.
- `UploadValidation`: the checks at the top of `upload`.
- `Grid`: `getGridCell`.
- `SamplePaths`: `addSamplePath` and `resetPaths`.
- `Purge`: `deleteCollection` and `deleteQueryBatch`.

The model follows the code on these points:

- Paths are bounded by a hard cap of the last `PATH_MAX_POINTS` = 200 points
  (400 numbers). No polyline simplification is done. The simplification
  constants are commented out.
- The backend writes one flat `[lat, lng, ...]` array per dot under `paths`,
  plus `last_updated_path` and `last_updated_id`. The newest-first `last`
  window with `integrated`/`updated` is only written by the client's
  sample-data writer. The two use different layouts of the same document, and
  both are modelled as written.
- The counter uses an atomic `FieldValue.increment`, not a read-modify-write
  transaction. A missing counter document makes the update fail, and that
  failure is logged and swallowed, not treated as fatal.
- The fallback's "has a previous point" test is `path.length > 2`. A dot with
  exactly one stored point (two numbers) therefore still gets a completely
  random location.
- The fallback's latitude fix adds or subtracts 180 and is kept literally.

## Model

| member | source | states |
|---|---|---|
| Counter.CountDelta | functions/index.js:223-247 | the increment is [after is DONE] − [before is DONE]: +1 exactly for not-DONE (or absent) → DONE, −1 exactly for DONE → not-DONE (or deleted), so always in {−1, 0, 1} |
| Counter.UpdateCount | functions/index.js:249-262 | a zero increment skips the write; a non-zero one adds the increment to `uploadCount`, or fails harmlessly when there is no counter document |
| Counter.WriteMovesDoneCount | functions/index.js:225-247 | any create, update or delete of one upload changes the number of DONE uploads by exactly the trigger's increment |
| Counter.CounterTracksDoneUploads | functions/index.js:220-263 | over any history of writes, each seen once by the trigger, a counter that starts equal to the number of DONE uploads stays equal to it |
| Text.DotKey | functions/index.js:36 | the dot key of a dot number below 1000 has exactly 3 characters |
| Text.DotKeyInjective | functions/index.js:36 | two different dot numbers never share a key, so a write to one dot's key leaves all other dots alone |
| Paths.KeepLast | functions/index.js:39-41 | keeping the last `n` entries gives a suffix of the array of length min(len, n) |
| Paths.KeepLastAbsorbs | functions/index.js:37-41 | capping after every append equals capping the whole appended history once: entries are only ever dropped from the front |
| Paths.UpdatePaths | functions/index.js:31-48 | only the dot's key changes: its array becomes the old one plus `lat, lng`, cut to the last 400 entries; `last_updated_path` is the key and `last_updated_id` the upload id |
| Paths.AppendedPath | functions/index.js:37-41 | an appended array stays even-length and at most 400 long, ends with the new `lat, lng`, and drops exactly the oldest point when full |
| Paths.CapPath | functions/index.js:39-41 | the cap after the push leaves exactly the last 400 entries of the array (all of it when shorter) |
| Paths.Rnd | functions/index.js:53-55 | `rnd(min, max)` is `min + r·(max − min)` for the draw `r` of `Math.random()`, passed in |
| Paths.RndInBand | functions/index.js:53-55 | `rnd(min, max)` with a draw in [0, 1) lies in [min, max) |
| Paths.ScaledInBand | functions/index.js:54 | `Math.random() * (max - min)` with a draw in [0, 1) and a positive width lies in [0, width) |
| Paths.FixLatitude | functions/index.js:77-78 | the ±180 latitude fix brings anything within 180 of the range into [−90, 90] and leaves in-range values alone |
| Paths.FixLongitude | functions/index.js:79-80 | the ±360 longitude fix brings anything within 360 of the range into [−180, 180] and leaves in-range values alone |
| Paths.NearPointInRange | functions/index.js:70-80 | a point moved by at most 0.1 degree from a point on the globe and range-fixed is still on the globe |
| Paths.SynthesizeLocation | functions/index.js:68-86 | with more than 2 stored entries the location is the last point moved by (sin, cos)·0.1, range-fixed, accuracy −1, and on the globe whenever the previous point is; otherwise it is drawn from lat [21, 71) × lng [−9, 143) with accuracy −2 |
| Paths.UpdatePathsFallback | functions/index.js:62-101 | the synthesised location is written onto the upload document and then appended to the dot's path exactly as `updatePaths` does |
| UploadCheck.Dirname | functions/index.js:115 | Node's POSIX `path.dirname`: "." for an empty or slash-free path, "/" or "//" for root prefixes, otherwise the text before the last separator (trailing slashes skipped) |
| UploadCheck.UploadIdOfObjectPath | functions/index.js:114-115 | `path.dirname` of `<id>/<file>` is the upload id |
| UploadCheck.ResolveUploadCode | functions/index.js:19-23 | a code resolves to its stored dot number, and an unknown code is an error |
| UploadCheck.CheckUpload | functions/index.js:109-153 | missing document → NotFound; not PENDING → NotPending; unknown code → CodeNotFound, all with nothing written; a success holds exactly when the document is PENDING with a known code, and then the writes are those of `Complete` |
| UploadCheck.Complete | functions/index.js:127-146 | codes are untouched; only the upload's own document changes, to DONE with photo URL/id/name and dot number and a location (its own, or the fallback one that `updatePathsFallback` synthesises from the dot's stored path and the draws: accuracy −1 near the last point, or −2 drawn from the band, stamped `now`); exactly that location is appended to the dot's path, capped, with `last_updated_path`/`last_updated_id` set; the DONE count grows by one |
| UploadCheck.Locate | functions/index.js:127-138 | with a stored location the path gets that point and the upload is unchanged; without one the location synthesised from the dot's stored path and the draws (as in `SynthesizeLocation`) is written onto the upload and pushed onto the path |
| UploadCheck.MarkDoneCount | functions/index.js:140-146 | marking a PENDING upload DONE adds exactly one to the number of DONE uploads |
| Cleanup.KeyCheckAsWritten | functions/index.js:171-178 | the check as written authorises exactly when the request key and the configured key, each defaulting to '', are equal; it throws exactly when their UTF-16 lengths agree but their UTF-8 byte lengths differ; otherwise it answers Forbidden |
| Cleanup.AsWrittenCrashesOnMultiByteKey | functions/index.js:178 | as written, keys of equal `.length` but different UTF-8 byte length make `timingSafeEqual` throw instead of answering 403 |
| Cleanup.AsWrittenAuthorizesUnconfiguredKey | functions/index.js:171-178 | as written, with no `cron.key` configured a request without `key` passes the check |
| Cleanup.KeyCheck | functions/index.js:171-184 | the corrected check never throws and authorises exactly when a non-empty configured key equals the request key |
| Cleanup.KeyCheckAgreesWithAsWritten | functions/index.js:178 | wherever the code as written neither throws nor meets an empty key, it gives the same verdict as the corrected check |
| Encoding.Utf8Injective | functions/index.js:178 | `Buffer.from` loses nothing: equal UTF-8 bytes mean equal keys |
| Cleanup.Expired | functions/index.js:190-191 | the query's filter: PENDING and `timestamp` strictly before `now − 3600000` |
| Cleanup.ExpiredIds | functions/index.js:188-193 | the ids the query returns: exactly the documents that pass the filter |
| Cleanup.DeleteExpired | functions/index.js:188-203 | every expired upload is deleted, each exactly once; nothing else is deleted and every kept upload is unchanged |
| Cleanup.RunCleanupAsWritten | functions/index.js:170-212 | the handler as written: a throwing key check gives 500 and a rejected key 403, both with nothing deleted; an authorised key (including both keys absent) gives 200 after exactly the expired uploads are deleted |
| Cleanup.RunCleanup | functions/index.js:170-212 | the handler with the corrected key check: a rejected key gives 403 and changes nothing, and it never throws; otherwise exactly the PENDING uploads with `timestamp < now − 3600000` are deleted, each once, every other upload is kept unchanged, and the answer is 200 |
| Cleanup.CleanupKeepsDoneUploads | functions/index.js:186-203 | the cleanup never deletes a DONE upload, so the counter's target is unchanged |
| Codes.IconsDistinct | public/lbu.js:26-37 | the ten symbols of the `digits` table are pairwise distinct |
| Codes.DigitOfIcon | public/lbu.js:199-205 | the digit found for a character is one whose symbol it is, and none is found only when no digit's symbol matches |
| Codes.DigitForChar | public/lbu.js:199-205 | the scan of the table answers the matching digit as a one-character string, or '' |
| Codes.IconsToCode | public/lbu.js:208-215 | '' for an empty input, otherwise one digit (or '') per character joined by '_' |
| Codes.CheckCodeFormat | public/lbu.js:218-221 | `^[0-9](_[0-9])*$`: one digit, then any number of '_' + digit groups |
| Codes.CheckCodeFormatPositional | public/lbu.js:218-221 | `^[0-9](_[0-9])*$` accepts exactly the odd-length strings with digits at even and '_' at odd positions |
| Codes.CodeToIcons | public/lbu.js:578 | `code.split('_')`, each piece read as a digit and replaced by its symbol; a piece that is not one digit makes the expression throw |
| Codes.SplitCodeOf | public/lbu.js:578 | `code.split('_')` on the code of a digit sequence gives exactly its one-digit pieces |
| Codes.CodeToIconsOfCode | public/lbu.js:578 | the code of any non-empty digit sequence turns into exactly the symbols of those digits |
| Codes.CodeIconsRoundTrip | public/lbu.js:578 | a well-formed code written in symbols and converted back with `iconsToCode` is the original code |
| Codes.IconsCodeRoundTrip | public/lbu.js:208-215 | a non-empty string of symbols converts to a well-formed code that turns back into the same symbols |
| UploadValidation.ValidateUpload | public/lbu.js:279-320 | the first failing check in the order GeolocationUnsupported, MissingFile, InvalidFileParameter, InvalidFileType (png/jpeg/webp), InvalidFileSize (> 0.99·10 MiB), MissingCode, InvalidCodeFormat is the error; icon conversion is tried once; a success carries a well-formed code |
| UploadValidation.SymbolCodeAccepted | public/lbu.js:315-320 | a code typed entirely in symbols fails the format check as typed and passes it after the one conversion |
| Grid.GridKey | public/lbu.js:407-408 | `'lat' + sign + |lat| padded to 3 + '_lng' + sign + |lng| padded to 3` |
| Grid.GridKeyRoundTrip | public/lbu.js:407-408 | a grid key is 15 characters and parses back to its two signed whole degrees |
| Grid.Wrap | public/lbu.js:403-404 | the wrapped longitude lies in [−180, 180], differs from the input by whole turns, equals it when it is in range, and is below 180 when coming up from below −180 and above −180 when coming down from above 180 |
| Grid.WrapUnique | public/lbu.js:403-404 | those properties fix the wrapped value: any value that has them is `Wrap(lng)` |
| Grid.WrapLongitude | public/lbu.js:403-404 | the two loops compute exactly `Wrap(lng)` |
| Grid.KeyOfCell | public/lbu.js:398-408 | for a shifted latitude in range, the key of the cell is `GridKey` of floor(lat + 1) and floor(Wrap(lng)) (a zero degree written "+000"); it holds floor(lat + 1) and floor(Wrap(lng)), each in range, the longitude a whole number of turns from floor(lng) and equal to it when in range, and parses back to those two values |
| Grid.GetGridCell | public/lbu.js:397-412 | a shifted latitude outside [−90, 90] gives `[]`; otherwise the key is exactly `GridKey(floor(lat + 1), floor(Wrap(lng)))`, so a zero degree is "+000", 180.5 gives `_lng-180` and −180.5 gives `_lng+179`, and the cell is what the sample data stores under that key |
| SamplePaths.Sanitize | public/lbu.js:635-643 | `steps ≤ 0` ends the call; undefined steps is 1; undefined or non-positive distances take their defaults; the two distances are put in order |
| SamplePaths.NewestFirstAt | public/lbu.js:686-689 | the j-th triple of the new `last` entries is the j-th newest point with timestamp 0 |
| SamplePaths.WindowShape | public/lbu.js:686-691 | the `last` window holds at most 30 entries, whole triples, and starts with the newest point |
| SamplePaths.UnshiftPoints | public/lbu.js:686-689 | the unshift loop puts the new points in front of `last`, newest first |
| SamplePaths.Dict.Append | public/lbu.js:681-683 | `integrated[dotkey]` gains the new coordinates at its end |
| SamplePaths.Dict.PushNewest | public/lbu.js:686-691 | `last[dotkey]` becomes the new triples in front of the old entries, cut to 30 |
| SamplePaths.AddPoints | public/lbu.js:680-694 | only the dot key's entries change: `integrated` gains the points at its end, `last` gets them newest first in front of its old entries, cut to 30; `updated` is the key |
| SamplePaths.AddSamplePath | public/lbu.js:621-697 | the result is a fresh shallow copy whose dictionaries are the caller's; with `steps ≤ 0` nothing changes, otherwise only the padded dot key's entries change (appended / newest-first window) and the copy's `updated` is that key |
| SamplePaths.PathsData.Reset | public/lbu.js:772-778 | `resetPaths` gives `{ integrated: {}, last: {}, updated: '' }` |
| SamplePaths.PathsData.ShallowCopy | public/lbu.js:632 | the copy shares both dictionaries with the original |
| SamplePaths.Dict.constructor | public/lbu.js:774 | a new dictionary is empty |
| Purge.DeleteQueryBatch | public/lbu.js:815-831 | one pass deletes the first `min(batchSize, left)` documents by name and leaves the rest in order |
| Purge.DeleteCollection | public/lbu.js:805-844 | batches of at most `batchSize` documents are deleted in name order, all full but the last, until a fetch is empty; the collection then is empty (for `batchSize > 0`) |

## Left out

- Firestore, Storage and runtime wiring (`onFinalize`, `onWrite`, `onRequest`, document references, `get`/`update`/`set`) are replaced by values passed in and returned. Failed store operations other than the ones named above are not modelled.
- Concurrency: the promise pool of width 3 in `cleanup`, the atomicity of `FieldValue.increment`, races between two appends to the same dot, and the `setTimeout` re-scheduling of `deleteQueryBatch` are modelled as sequential steps.
- `Math.random`, `Math.sin`/`Math.cos` and `new Date()` are inputs (`FallbackDraws`, `now`). Floating-point rounding is not modelled; coordinates are exact reals.
- `crypto.timingSafeEqual` is modelled only as its length check and byte equality; its constant timing is not modelled.
- Sample-data geometry and search (`dist`, `sampleLocation`, `getGridCellNeighborhood`, `checkSampleData`) are left out. The points `sampleLocation` would return are an input of `AddSamplePath`.
- DOM and browser APIs (`setupCodeEntry`, `setupPopCounter`, `setupUploadCounter`, `setupImageSelect`, `onData`, `getLocation`, `geolocationSupported`, `samplePic`, `getFileMetadata`) are left out. The result of `geolocationSupported()` is an input of `ValidateUpload`.
- Network fetches (`loadSampleData`, `uploadCode`), `sampleUpload`, `samplePathData`, `samplePathDataMultiple`, the storage listing of `resetUploads`, and the part of `upload` after validation (location request, document creation, file upload) are left out.
- Polyline simplification is not implemented in the source and is not modelled.
- CheckUpload: the upload id is `path.dirname` of the object name, modelled on Node's POSIX algorithm. A `code` that is not a valid document id (for example one containing '/') is treated like an unknown code.
- UpdatePaths: `ts` is accepted and unused, as in the source. The paths document is assumed to exist with a `paths` field.
- Counter.UpdateCount: a `stats/stats` document without an `uploadCount` field is read as 0 (which is what `FieldValue.increment` does).
- CodeToIcons: `parseInt` is modelled only on one-digit pieces. A piece such as "1a", which `parseInt` reads as 1, is treated as an error.
- ValidateUpload: the `file` option is reduced to falsy, non-`File`, or a `File` with type and size. `code` is a string; loose equality with non-string codes is not modelled.
- AddSamplePath: `steps` is an integer; fractional `steps` and NaN distances or start coordinates are not modelled. The requirement `PointPerStep` (when the call goes ahead, the start point and `sampled` hold exactly `steps` `lat, lng` points) stands for the loop of `steps - 1` calls to `sampleLocation`, each returning one point.
- RunCleanupAsWritten: the 500 for a throwing key check stands for the functions runtime's answer to a handler that throws synchronously; the handler itself sends nothing.
- WrapLongitude: termination relies on exact arithmetic. With doubles, a longitude of magnitude 2^62 or more, or ±Infinity, is left unchanged by `lng -= 360` and the source loops forever; the model has no such input.
- JavaScript strings are modelled as sequences of Unicode scalar values; lone surrogates are not modelled.

## Findings

| source | as written | input that shows it | evidently intended | confidence | as-written member | corrected member |
|---|---|---|---|---|---|---|
| functions/index.js:178 | key lengths compared in UTF-16 code units, then `timingSafeEqual` on UTF-8 buffers, which throws when their byte lengths differ | configured key "é", request key "a": both `.length` 1, buffers of 2 and 1 bytes, so the handler throws (a 500) instead of answering 403 | any mismatching key is answered with 403 | not executed; high (Node documents the RangeError on unequal buffer lengths) | Cleanup.AsWrittenCrashesOnMultiByteKey | Cleanup.KeyCheck |
| functions/index.js:171-178 | missing request key and missing `cron.key` both default to '' and compare equal | no `cron.key` configured and a request without `key`: the cleanup runs | an unconfigured key authorises nobody | not executed; medium (the header comment says the key must be configured) | Cleanup.AsWrittenAuthorizesUnconfiguredKey | Cleanup.KeyCheck |
