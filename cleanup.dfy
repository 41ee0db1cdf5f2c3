/**
 * The `cleanup` HTTPS endpoint: after a key check, every PENDING upload older
 * than `UPLOAD_TIMEOUT` is deleted, each exactly once.
 */
module Cleanup {
  import opened Wrappers
  import opened Encoding
  import opened Store

  const UPLOAD_TIMEOUT: int := 3600 * 1000  // milliseconds

  datatype KeyOutcome = Authorized | Forbidden | Crashed

  /** `crypto.timingSafeEqual`: throws (`None`) when the buffers differ in length. */
  function TimingSafeEqual(a: seq<int>, b: seq<int>): Option<bool> {
    if |a| != |b| then None else Some(a == b)
  }

  /**
   * The key check as written: `req.query.key || ''` against
   * `functions.config().cron.key || ''`, lengths in UTF-16 code units, then
   * `timingSafeEqual` on the UTF-8 bytes, which throws when those lengths differ.
   */
  function KeyCheckAsWritten(queryKey: Option<string>, configKey: Option<string>): (r: KeyOutcome)
    ensures r == Authorized <==> queryKey.GetOr("") == configKey.GetOr("")
    ensures r == Crashed <==>
      Utf16Length(queryKey.GetOr("")) == Utf16Length(configKey.GetOr("")) &&
      |Utf8(queryKey.GetOr(""))| != |Utf8(configKey.GetOr(""))|
  {
    var reqKey := queryKey.GetOr("");
    var key := configKey.GetOr("");
    if Utf16Length(key) != Utf16Length(reqKey) then Forbidden
    else match TimingSafeEqual(Utf8(reqKey), Utf8(key))
      case None => Crashed
      case Some(eq) =>
        if eq then
          Utf8Injective(reqKey, key);
          Authorized
        else Forbidden
  }

  /** "é" and "a" both have length 1 but encode to 2 and 1 bytes: the comparison throws. */
  lemma AsWrittenCrashesOnMultiByteKey()
    ensures KeyCheckAsWritten(Some("a"), Some("\U{E9}")) == Crashed
  {
    assert Utf8("\U{E9}") == [0xC3, 0xA9];
  }

  /** With no `cron.key` configured, a request without a key is let through. */
  lemma AsWrittenAuthorizesUnconfiguredKey()
    ensures KeyCheckAsWritten(None, None) == Authorized
  {
  }

  /**
   * The key check as intended: an unconfigured (empty) key authorises nobody,
   * and the byte lengths are compared before `timingSafeEqual`.
   */
  function KeyCheck(queryKey: Option<string>, configKey: Option<string>): (r: KeyOutcome)
    ensures r != Crashed
    ensures r == Authorized <==> configKey.Some? && configKey.value != "" && queryKey == configKey
  {
    var reqKey := queryKey.GetOr("");
    var key := configKey.GetOr("");
    if key == "" || |Utf8(key)| != |Utf8(reqKey)| then Forbidden
    else
      var eq := TimingSafeEqual(Utf8(reqKey), Utf8(key));
      if eq == Some(true) then
        Utf8Injective(reqKey, key);
        Authorized
      else Forbidden
  }

  /** Wherever the code as written neither crashes nor meets an empty key, it agrees with the intended check. */
  lemma KeyCheckAgreesWithAsWritten(queryKey: Option<string>, configKey: Option<string>)
    requires configKey.GetOr("") != ""
    requires KeyCheckAsWritten(queryKey, configKey) != Crashed
    ensures KeyCheckAsWritten(queryKey, configKey) == KeyCheck(queryKey, configKey)
  {
    var reqKey, key := queryKey.GetOr(""), configKey.GetOr("");
    if KeyCheckAsWritten(queryKey, configKey) == Authorized {
      Utf8Injective(reqKey, key);
    }
  }

  /** The query of the endpoint: PENDING and created before `now - UPLOAD_TIMEOUT`. */
  predicate Expired(d: UploadDoc, now: int) {
    d.photoUpload == PENDING && d.timestamp < now - UPLOAD_TIMEOUT
  }

  function ExpiredIds(m: Uploads, now: int): set<string> {
    set id | id in m && Expired(m[id], now)
  }

  /**
   * The query and the pool: every matching document is deleted, one at a
   * time (the pool's order is not modelled), and every other one is kept.
   */
  method DeleteExpired(uploads: Uploads, now: int) returns (uploads': Uploads, deleted: seq<string>)
    ensures uploads'.Keys == uploads.Keys - ExpiredIds(uploads, now)
    ensures forall id :: id in uploads' ==> uploads'[id] == uploads[id]
    ensures forall i :: 0 <= i < |deleted| ==> deleted[i] in ExpiredIds(uploads, now)
    ensures forall id :: id in ExpiredIds(uploads, now) ==> id in deleted
    ensures forall i, j :: 0 <= i < j < |deleted| ==> deleted[i] != deleted[j]
  {
    var docs := ExpiredIds(uploads, now);
    uploads' := uploads;
    deleted := [];
    while docs != {}
      invariant docs <= ExpiredIds(uploads, now)
      invariant uploads'.Keys == uploads.Keys - (ExpiredIds(uploads, now) - docs)
      invariant forall id :: id in uploads' ==> uploads'[id] == uploads[id]
      invariant forall i :: 0 <= i < |deleted| ==> deleted[i] in ExpiredIds(uploads, now) - docs
      invariant forall id :: id in ExpiredIds(uploads, now) - docs ==> id in deleted
      invariant forall i, j :: 0 <= i < j < |deleted| ==> deleted[i] != deleted[j]
      decreases docs
    {
      var id :| id in docs;
      docs := docs - {id};
      uploads' := uploads' - {id};
      deleted := deleted + [id];
    }
  }

  /**
   * `cleanup` as written: 403 and no query when the key check answers no;
   * a key check that throws ends the handler with 500 before the query;
   * otherwise the expired uploads are deleted and the answer is 200.
   */
  method RunCleanupAsWritten(queryKey: Option<string>, configKey: Option<string>, uploads: Uploads, now: int)
    returns (status: nat, uploads': Uploads, deleted: seq<string>)
    ensures status == 500 <==> KeyCheckAsWritten(queryKey, configKey) == Crashed
    ensures status == 403 <==> KeyCheckAsWritten(queryKey, configKey) == Forbidden
    ensures status == 200 <==> KeyCheckAsWritten(queryKey, configKey) == Authorized
    ensures status != 200 ==> uploads' == uploads && deleted == []
    ensures status == 200 ==>
      && uploads'.Keys == uploads.Keys - ExpiredIds(uploads, now)
      && (forall id :: id in uploads' ==> uploads'[id] == uploads[id])
      && (forall i :: 0 <= i < |deleted| ==> deleted[i] in ExpiredIds(uploads, now))
      && (forall id :: id in ExpiredIds(uploads, now) ==> id in deleted)
      && (forall i, j :: 0 <= i < j < |deleted| ==> deleted[i] != deleted[j])
  {
    match KeyCheckAsWritten(queryKey, configKey)
    case Crashed => return 500, uploads, [];
    case Forbidden => return 403, uploads, [];
    case Authorized =>
      uploads', deleted := DeleteExpired(uploads, now);
      status := 200;
  }

  /**
   * `cleanup` with the corrected key check: 403 and no query when the key
   * does not match; otherwise the expired uploads are deleted, each exactly
   * once, and the answer is 200.
   */
  method RunCleanup(queryKey: Option<string>, configKey: Option<string>, uploads: Uploads, now: int)
    returns (status: nat, uploads': Uploads, deleted: seq<string>)
    ensures status == 403 <==> KeyCheck(queryKey, configKey) != Authorized
    ensures status == 403 || status == 200
    ensures status == 403 ==> uploads' == uploads && deleted == []
    ensures status == 200 ==>
      && uploads'.Keys == uploads.Keys - ExpiredIds(uploads, now)
      && (forall id :: id in uploads' ==> uploads'[id] == uploads[id])
      && (forall i :: 0 <= i < |deleted| ==> deleted[i] in ExpiredIds(uploads, now))
      && (forall id :: id in ExpiredIds(uploads, now) ==> id in deleted)
      && (forall i, j :: 0 <= i < j < |deleted| ==> deleted[i] != deleted[j])
  {
    if KeyCheck(queryKey, configKey) != Authorized {
      return 403, uploads, [];
    }
    uploads', deleted := DeleteExpired(uploads, now);
    status := 200;
  }

  /** The cleanup deletes only PENDING documents, so the DONE count (and the counter) is untouched. */
  lemma CleanupKeepsDoneUploads(uploads: Uploads, uploads': Uploads, now: int)
    requires uploads'.Keys == uploads.Keys - ExpiredIds(uploads, now)
    requires forall id :: id in uploads' ==> uploads'[id] == uploads[id]
    ensures DoneIds(uploads') == DoneIds(uploads)
  {
    assert PENDING != DONE;
    forall id | id in DoneIds(uploads) ensures id in DoneIds(uploads') {
      assert id !in ExpiredIds(uploads, now);
    }
  }
}
