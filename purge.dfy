/**
 * `deleteCollection` / `deleteQueryBatch` (used by `resetUploads`): fetch up
 * to `batchSize` documents ordered by name, delete them as one batch, and go
 * again until a fetch comes back empty.
 */
module Purge {

  function Min(a: nat, b: nat): nat {
    if a < b then a else b
  }

  function Flatten(batches: seq<seq<string>>): seq<string> {
    if batches == [] then [] else Flatten(batches[..|batches| - 1]) + batches[|batches| - 1]
  }

  /**
   * `byName` is the collection's document names in `__name__` order. Returns
   * what is left and the batches deleted, in order.
   */
  method DeleteCollection(byName: seq<string>, batchSize: nat)
    returns (remaining: seq<string>, batches: seq<seq<string>>)
    ensures batchSize > 0 ==> remaining == []
    ensures batchSize == 0 ==> remaining == byName && batches == []
    ensures Flatten(batches) + remaining == byName
    ensures forall i :: 0 <= i < |batches| ==> 0 < |batches[i]| <= batchSize
    ensures forall i :: 0 <= i < |batches| - 1 ==> |batches[i]| == batchSize
  {
    remaining := byName;
    batches := [];
    var finished := false;
    while !finished
      invariant Flatten(batches) + remaining == byName
      invariant forall i :: 0 <= i < |batches| ==> 0 < |batches[i]| <= batchSize
      invariant forall i :: 0 <= i < |batches| - 1 ==> |batches[i]| == batchSize
      invariant batches != [] && |batches[|batches| - 1]| < batchSize ==> remaining == []
      invariant finished ==> remaining == [] || batchSize == 0
      invariant batchSize == 0 ==> batches == []
      decreases |remaining|, !finished
    {
      var deleted, rest := DeleteQueryBatch(remaining, batchSize);
      if |deleted| == 0 {
        finished := true;  // an empty fetch ends the recursion
      } else {
        FlattenSnoc(batches, deleted);
        batches := batches + [deleted];
        remaining := rest;
      }
    }
  }

  /** One pass: the first `batchSize` documents by name are fetched and deleted as one batch. */
  method DeleteQueryBatch(remaining: seq<string>, batchSize: nat) returns (deleted: seq<string>, rest: seq<string>)
    ensures deleted + rest == remaining
    ensures |deleted| == Min(batchSize, |remaining|)
  {
    deleted := remaining[..Min(batchSize, |remaining|)];  // query.get(), then batch.delete of each
    rest := remaining[|deleted|..];
  }

  lemma FlattenSnoc(batches: seq<seq<string>>, b: seq<string>)
    ensures Flatten(batches + [b]) == Flatten(batches) + b
  {
    assert (batches + [b])[..|batches|] == batches;
  }
}
