/** The three situations of the request spec for `/results`, as concrete facts about the model. */
module KeywordsScenarios {
  import opened Wrappers
  import QueryBuilder
  import ResponseTransformer
  import RubyDate
  import opened KeywordsController

  /** The parameters of the successful request. */
  const WilsonParams := QueryBuilder.Params(
    Some("Wilson"), Some("2019-08-20T00:00:00"), Some("2019-08-30T23:59:59"), Some("5d"))

  /** The engine's inner buckets of the spec's one outer bucket. */
  const RawMedia := [
    ResponseTransformer.RawTerm(Some("Online"), Some(1774)),
    ResponseTransformer.RawTerm(Some("TV"), Some(518)),
    ResponseTransformer.RawTerm(Some("Radio"), Some(375)),
    ResponseTransformer.RawTerm(Some("Print"), Some(311))]

  /** The stubbed engine response of the spec. */
  const WilsonResponse := SearchResponse(Some(ResponseTransformer.RawAggregations(Some(
    ResponseTransformer.RawHistogram(Some([
      ResponseTransformer.RawBucket(
        Some("2019-08-22T00:00:00.000Z"), Some(1566432000000), Some(5615),
        Some(ResponseTransformer.RawTerms(Some(0), Some(0), Some(RawMedia))))]))))))

  /** The answer the model gives for that request. */
  const WilsonAnswer := ResponseTransformer.Aggregations([
    ResponseTransformer.Bucket(Some(5615), Some(1566432000000), "2019-08-22", [
      ResponseTransformer.Term(Some(1774), Some("Online")),
      ResponseTransformer.Term(Some(518), Some("TV")),
      ResponseTransformer.Term(Some(375), Some("Radio")),
      ResponseTransformer.Term(Some(311), Some("Print"))])])

  /** The inner buckets keep their media and counts, in order. */
  lemma WilsonMedia()
    ensures ResponseTransformer.TransformTerms(RawMedia) == WilsonAnswer.firstAgg[0].secondAgg
  {
    var r := ResponseTransformer.TransformTerms(RawMedia);
    assert |r| == 4;
    assert r[0] == WilsonAnswer.firstAgg[0].secondAgg[0];
    assert r[1] == WilsonAnswer.firstAgg[0].secondAgg[1];
    assert r[2] == WilsonAnswer.firstAgg[0].secondAgg[2];
    assert r[3] == WilsonAnswer.firstAgg[0].secondAgg[3];
  }

  /** The one outer bucket keeps its counts and key and gets its calendar date. */
  lemma WilsonBucket()
    ensures ResponseTransformer.TransformBucket(WilsonResponse.aggregations.value.firstAgg.value.buckets.value[0])
         == Success(WilsonAnswer.firstAgg[0])
  {
    RubyDate.ReduceSpecLabel();
    WilsonMedia();
  }

  /** The stubbed engine response reshapes into the expected answer. */
  lemma WilsonTransform()
    ensures ResponseTransformer.Transform(WilsonResponse.aggregations) == Success(WilsonAnswer)
  {
    var bs := WilsonResponse.aggregations.value.firstAgg.value.buckets.value;
    WilsonBucket();
    ResponseTransformer.SingleBucket(bs[0]);
    assert bs == [bs[0]];
  }

  /**
   * Valid parameters and the stubbed response: 200, one bucket with
   * `doc_count` 5615 and `key` 1566432000000, labelled with its calendar
   * date, and the four media with their counts in the engine's order.
   */
  lemma ValidRequestScenario(search: SearchRequest -> SearchOutcome)
    requires forall req :: search(req) == Returned(WilsonResponse)
    ensures Results(WilsonParams, search) == Response(StatusOk, AggregationsPayload(WilsonAnswer))
  {
    assert !IsSpace("Wilson"[0]);
    WilsonTransform();
  }

  /** The body sent for those parameters carries the keyword, both bounds and the 5-day interval. */
  lemma ValidRequestBody()
    ensures var body := SearchRequestFor(WilsonParams).body;
      && body.query.must == [QueryBuilder.QueryString(Some("Wilson"))]
      && body.query.filter == [QueryBuilder.Range("timestamp", Some("2019-08-20T00:00:00"), Some("2019-08-30T23:59:59"))]
      && body.aggs["first_agg"].dateHistogram == QueryBuilder.DateHistogram("timestamp", "5d", 1)
  {
  }

  /** No `query` parameter: 400 with "Keyword is required". */
  lemma MissingQueryScenario(search: SearchRequest -> SearchOutcome)
    ensures Results(QueryBuilder.Params(None, None, None, None), search)
         == Response(StatusBadRequest, ErrorPayload("Keyword is required"))
  {
  }

  /** An empty or white-space keyword is as blank as a missing one. */
  lemma WhitespaceQueryScenario(search: SearchRequest -> SearchOutcome)
    ensures Results(QueryBuilder.Params(Some(""), None, None, None), search).status == StatusBadRequest
    ensures Results(QueryBuilder.Params(Some(" \t\n"), None, None, None), search).status == StatusBadRequest
    ensures Results(QueryBuilder.Params(Some(" x "), None, None, None), search).status != StatusBadRequest
  {
    assert !IsSpace(" x "[1]);
  }

  /** The search client raises "Something went wrong": 500 with that message. */
  lemma SearchRaisesScenario(search: SearchRequest -> SearchOutcome)
    requires forall req :: search(req) == Raised("Something went wrong")
    ensures Results(
              QueryBuilder.Params(Some("Wilson"), Some("2023-01-01T00:00:00"), Some("2023-01-02T00:00:00"), Some("1d")),
              search)
         == Response(StatusInternalServerError, ErrorPayload("Something went wrong"))
  {
    assert !IsSpace("Wilson"[0]);
  }
}
