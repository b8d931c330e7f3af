/**
 * `KeywordsController#results`, the `/results` endpoint: reject a blank
 * keyword with 400, otherwise search the `news` index with the built body
 * and answer 200 with the reshaped aggregations; any error raised on the
 * way is answered with 500 and the error's message.
 *
 * The search client is a parameter: a function from the request the
 * controller sends to what the client does, return a response document
 * or raise with a message.
 */
module KeywordsController {
  import opened Wrappers
  import QueryBuilder
  import ResponseTransformer

  const Index := "news"
  const KeywordRequired := "Keyword is required"

  const StatusOk := 200
  const StatusBadRequest := 400
  const StatusInternalServerError := 500

  /** What the controller hands to the search client: `index:` and `body:`. */
  datatype SearchRequest = SearchRequest(index: string, body: QueryBuilder.Body)

  /** The client's response document; only its `aggregations` is read. */
  datatype SearchResponse = SearchResponse(aggregations: Option<ResponseTransformer.RawAggregations>)

  /** The search call either returns a document or raises with a message. */
  datatype SearchOutcome = Returned(response: SearchResponse) | Raised(message: string)

  /** The JSON the endpoint renders. */
  datatype Payload =
    | AggregationsPayload(aggregations: ResponseTransformer.Aggregations)   // { "aggregations": ... }
    | ErrorPayload(error: string)                                           // { "error": ... }

  datatype Response = Response(status: int, payload: Payload)

  /** `[[:space:]]`: the characters with the Unicode White_Space property. */
  predicate IsSpace(c: char) {
    || '\t' <= c <= '\r'
    || c == ' '
    || c == '\U{0085}'
    || c == '\U{00A0}'
    || c == '\U{1680}'
    || '\U{2000}' <= c <= '\U{200A}'
    || c == '\U{2028}' || c == '\U{2029}'
    || c == '\U{202F}'
    || c == '\U{205F}'
    || c == '\U{3000}'
  }

  /** ActiveSupport's `blank?` on a parameter: nil, or a string of white space only. */
  predicate IsBlank(q: Option<string>) {
    q.None? || forall i :: 0 <= i < |q.value| ==> IsSpace(q.value[i])
  }

  /** A keyword is blank exactly when both of its parts are: blank keywords are closed under concatenation. */
  lemma {:induction false} BlankConcat(a: string, b: string)
    ensures IsBlank(Some(a + b)) <==> IsBlank(Some(a)) && IsBlank(Some(b))
  {
    assert forall i :: 0 <= i < |a| ==> (a + b)[i] == a[i];
    assert forall i :: 0 <= i < |b| ==> (a + b)[|a| + i] == b[i];
  }

  /** The request the controller sends for the parameters. */
  function SearchRequestFor(params: QueryBuilder.Params): (req: SearchRequest)
    ensures req.index == Index
    ensures QueryBuilder.IsWellFormed(req.body)
    ensures QueryBuilder.SettingsOf(req.body) == QueryBuilder.Effective(params)
  {
    SearchRequest(Index, QueryBuilder.ElasticQuery(params))
  }

  /** The `rescue` clause: any raised error becomes 500 with its message. */
  function ServerError(message: string): Response
  {
    Response(StatusInternalServerError, ErrorPayload(message))
  }

  /**
   * `results`: 400 for a blank keyword, without searching; otherwise the
   * search outcome for the built request decides: a raised error or a
   * transform error gives 500 with the message, a transformed answer 200.
   */
  function Results(params: QueryBuilder.Params, search: SearchRequest -> SearchOutcome): (r: Response)
    ensures r.status == StatusOk || r.status == StatusBadRequest || r.status == StatusInternalServerError
    ensures r.status == StatusBadRequest <==> IsBlank(params.query)
    ensures r.status == StatusBadRequest ==> r.payload == ErrorPayload(KeywordRequired)
    ensures r.status == StatusOk <==> r.payload.AggregationsPayload?
  {
    if IsBlank(params.query) then
      Response(StatusBadRequest, ErrorPayload(KeywordRequired))
    else
      match search(SearchRequestFor(params))
      case Raised(message) => ServerError(message)
      case Returned(response) =>
        match ResponseTransformer.Transform(response.aggregations)
        case Failure(e) => ServerError(ResponseTransformer.Message(e))
        case Success(aggs) => Response(StatusOk, AggregationsPayload(aggs))
  }

  // ---------------------------------------------------------------- lemmas

  /** A blank keyword is answered 400 whatever the search client would do: it is never called. */
  lemma BlankQueryNeverSearches(params: QueryBuilder.Params, s1: SearchRequest -> SearchOutcome, s2: SearchRequest -> SearchOutcome)
    requires IsBlank(params.query)
    ensures Results(params, s1) == Results(params, s2) == Response(StatusBadRequest, ErrorPayload(KeywordRequired))
  {
  }

  /**
   * Otherwise the answer depends on the client only through its outcome
   * for the one request built from the parameters.
   */
  lemma SearchesOnlyBuiltRequest(params: QueryBuilder.Params, s1: SearchRequest -> SearchOutcome, s2: SearchRequest -> SearchOutcome)
    requires !IsBlank(params.query)
    requires s1(SearchRequestFor(params)) == s2(SearchRequestFor(params))
    ensures Results(params, s1) == Results(params, s2)
  {
  }

  /** A search that raises gives 500 with exactly its message. */
  lemma SearchErrorIsServerError(params: QueryBuilder.Params, search: SearchRequest -> SearchOutcome)
    requires !IsBlank(params.query)
    requires search(SearchRequestFor(params)).Raised?
    ensures Results(params, search) == ServerError(search(SearchRequestFor(params)).message)
  {
  }

  /** A malformed response document gives 500 with the message of the Ruby error it raises. */
  lemma TransformErrorIsServerError(params: QueryBuilder.Params, search: SearchRequest -> SearchOutcome)
    requires !IsBlank(params.query)
    requires search(SearchRequestFor(params)).Returned?
    requires ResponseTransformer.Transform(search(SearchRequestFor(params)).response.aggregations).Failure?
    ensures Results(params, search) ==
      ServerError(ResponseTransformer.Message(
        ResponseTransformer.Transform(search(SearchRequestFor(params)).response.aggregations).error))
  {
  }

  /** 200 exactly when the keyword is present, the search returns and the transform succeeds; the payload is the transform. */
  lemma SuccessIsTransformedResponse(params: QueryBuilder.Params, search: SearchRequest -> SearchOutcome)
    ensures Results(params, search).status == StatusOk <==>
      && !IsBlank(params.query)
      && search(SearchRequestFor(params)).Returned?
      && ResponseTransformer.Transform(search(SearchRequestFor(params)).response.aggregations).Success?
    ensures Results(params, search).status == StatusOk ==>
      Results(params, search).payload.aggregations ==
        ResponseTransformer.Transform(search(SearchRequestFor(params)).response.aggregations).value
  {
  }
}
