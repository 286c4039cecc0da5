/**
 * The result of one inference run: the parsed output document's samples,
 * log-weights and normalisation constant, and the two ways of reading
 * samples back out. Numbers are opaque here; of the weights only their
 * number matters, since the linear weights are their elementwise
 * exponential and so have the same length.
 */
module Inference {
  import opened Wrappers

  /** A parsed value of the output document. */
  datatype Json =
    | JNull
    | JBool(b: bool)
    | JNumber(literal: string)
    | JString(s: string)
    | JArray(items: seq<Json>)
    | JObject(fields: map<string, Json>)

  /** The top-level mapping of an output document. */
  type Document = map<string, Json>

  /** Python's IndexError, with the index that was out of range. */
  datatype IndexError = IndexError(index: nat)

  /**
   * The linear weights are the elementwise exponential of `weights`, so
   * there are exactly `|weights|` of them; their values are not modelled.
   */
  datatype InferenceResult = InferenceResult(
    samples: seq<Json>,
    weights: seq<Json>,
    normConst: Option<Json>)

  /** A log-weight that `np.exp` accepts. */
  predicate IsNumeric(w: Json) {
    w.JNumber? || w.JBool?
  }

  /** `samples`, where present, holds a sequence; `weights`, where present, a sequence of numbers. */
  predicate WellShaped(doc: Document) {
    ("samples" in doc ==> doc["samples"].JArray?) &&
    ("weights" in doc ==> doc["weights"].JArray? && forall w :: w in doc["weights"].items ==> IsNumeric(w))
  }

  /** `result.get(key, [])` for a key that holds a sequence. */
  function ItemsOr(doc: Document, key: string): seq<Json>
    requires key in doc ==> doc[key].JArray?
  {
    if key in doc then doc[key].items else []
  }

  /**
   * Reads the recognised keys; a missing `samples` or `weights` is an empty
   * sequence and a missing `normConst` is absent.
   */
  function FromDocument(doc: Document): (r: InferenceResult)
    requires WellShaped(doc)
    ensures "samples" !in doc ==> r.samples == []
    ensures "samples" in doc ==> r.samples == doc["samples"].items
    ensures "weights" !in doc ==> r.weights == []
    ensures "weights" in doc ==> r.weights == doc["weights"].items
    ensures r.normConst.Some? <==> "normConst" in doc
    ensures r.normConst.Some? ==> r.normConst.value == doc["normConst"]
  {
    var weights := ItemsOr(doc, "weights");
    InferenceResult(
      ItemsOr(doc, "samples"),
      weights,
      if "normConst" in doc then Some(doc["normConst"]) else None)
  }

  /** Keys other than `samples`, `weights` and `normConst` do not affect the result. */
  lemma IgnoresOtherKeys(doc: Document, extra: Document)
    requires WellShaped(doc)
    requires forall k :: k in extra ==> k != "samples" && k != "weights" && k != "normConst"
    ensures WellShaped(doc + extra) && FromDocument(doc + extra) == FromDocument(doc)
  {
  }

  /** `[samples[i] for i in idx]`: stops with an IndexError at the first index past the end. */
  function Select(samples: seq<Json>, idx: seq<nat>): (r: Result<seq<Json>, IndexError>)
    ensures r.Success? <==> forall k :: 0 <= k < |idx| ==> idx[k] < |samples|
    ensures r.Success? ==> |r.value| == |idx| && forall k :: 0 <= k < |idx| ==> r.value[k] == samples[idx[k]]
    ensures r.Failure? ==>
      exists k :: 0 <= k < |idx| && idx[k] == r.error.index && idx[k] >= |samples| &&
        forall j :: 0 <= j < k ==> idx[j] < |samples|
    decreases |idx|
  {
    if idx == [] then Success([])
    else if idx[0] >= |samples| then Failure(IndexError(idx[0]))
    else
      match Select(samples, idx[1..])
      case Success(rest) => Success([samples[idx[0]]] + rest)
      case Failure(e) => Failure(e)
  }

  /**
   * Resampling with indices already drawn from `0..len(nweights)`: one value
   * per index, in draw order, each one of the stored samples.
   */
  function Subsample(r: InferenceResult, idx: seq<nat>): (res: Result<seq<Json>, IndexError>)
    requires forall k :: 0 <= k < |idx| ==> idx[k] < |r.weights|
    ensures |r.samples| >= |r.weights| ==> res.Success?
    ensures res.Success? ==> |res.value| == |idx| && forall x :: x in res.value ==> x in r.samples
    ensures res.Success? ==> forall k :: 0 <= k < |idx| ==> idx[k] < |r.samples| && res.value[k] == r.samples[idx[k]]
  {
    Select(r.samples, idx)
  }

  /**
   * All samples in their original order, one per linear weight; an
   * IndexError at the first missing sample when there are fewer samples
   * than weights.
   */
  function GetSample(r: InferenceResult): (res: Result<seq<Json>, IndexError>)
    ensures res.Success? <==> |r.weights| <= |r.samples|
    ensures res.Success? ==> res.value == r.samples[..|r.weights|]
    ensures res.Failure? ==> res.error.index == |r.samples|
  {
    var idx: seq<nat> := seq(|r.weights|, k => k);
    var res := Select(r.samples, idx);
    assert |r.weights| > |r.samples| ==> idx[|r.samples|] >= |r.samples|;
    assert res.Failure? ==> |r.weights| > |r.samples| && idx[|r.samples|] == |r.samples|;
    res
  }

  /** When the document holds one weight per sample, `getsample` returns exactly the samples. */
  lemma GetSampleOfDocument(doc: Document)
    requires WellShaped(doc)
    requires |ItemsOr(doc, "samples")| == |ItemsOr(doc, "weights")|
    ensures GetSample(FromDocument(doc)) == Success(ItemsOr(doc, "samples"))
  {
    var r := FromDocument(doc);
    assert r.samples[..|r.weights|] == r.samples;
  }
}
