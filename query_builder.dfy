/**
 * `elastic_query`: the Elasticsearch request body the controller sends for
 * the request parameters. The body is a value: a bool query with one
 * `query_string` must-clause and one `range` filter on `timestamp`, a
 * `date_histogram` aggregation named `first_agg` with a `terms` aggregation
 * named `second_agg` nested in it, and `size: 0`.
 */
module QueryBuilder {
  import opened Wrappers

  /** The request parameters the controller reads; each may be absent (nil). */
  datatype Params = Params(
    query: Option<string>,
    after: Option<string>,
    before: Option<string>,
    interval: Option<string>)

  const TimestampField := "timestamp"
  const MediumField := "medium"
  const DefaultInterval := "1d"
  const HistogramName := "first_agg"
  const TermsName := "second_agg"

  /** `{ query_string: { query: ... } }`; a nil query is sent as null. */
  datatype QueryString = QueryString(query: Option<string>)

  /** `{ range: { <field>: { gte: ..., lte: ... } } }`; an absent bound is sent as null. */
  datatype Range = Range(field: string, gte: Option<string>, lte: Option<string>)

  /** `{ bool: { must: [...], filter: [...] } }` */
  datatype BoolQuery = BoolQuery(must: seq<QueryString>, filter: seq<Range>)

  /** `{ field:, fixed_interval:, min_doc_count: }` */
  datatype DateHistogram = DateHistogram(field: string, fixedInterval: string, minDocCount: int)

  /** `{ terms: { field:, size: } }`; `size: None` leaves the engine's default in force. */
  datatype Terms = Terms(field: string, size: Option<nat>)

  /** `first_agg`'s definition, with its sub-aggregations by name. */
  datatype HistogramAgg = HistogramAgg(dateHistogram: DateHistogram, aggs: map<string, Terms>)

  /** The whole request body: `{ query:, aggs:, size: }`. */
  datatype Body = Body(query: BoolQuery, aggs: map<string, HistogramAgg>, size: int)

  /** What a body asks of the engine once the fixed parts are set aside. */
  datatype Settings = Settings(
    query: Option<string>,
    after: Option<string>,
    before: Option<string>,
    interval: string)

  /** The settings the parameters stand for: an absent interval means one day. */
  function Effective(p: Params): Settings {
    Settings(p.query, p.after, p.before, p.interval.GetOr(DefaultInterval))
  }

  /**
   * The fixed frame every body the controller sends has: one must-clause,
   * one range filter on `timestamp`, one histogram aggregation `first_agg`
   * on `timestamp` with `min_doc_count` 1 holding one `terms` aggregation
   * `second_agg` on `medium` without a size override, and no hits (`size` 0).
   */
  predicate IsWellFormed(b: Body) {
    && |b.query.must| == 1
    && |b.query.filter| == 1
    && b.query.filter[0].field == TimestampField
    && b.aggs.Keys == {HistogramName}
    && b.aggs[HistogramName].dateHistogram.field == TimestampField
    && b.aggs[HistogramName].dateHistogram.minDocCount == 1
    && b.aggs[HistogramName].aggs == map[TermsName := Terms(MediumField, None)]
    && b.size == 0
  }

  /** The settings a well-formed body carries, read back out of it. */
  function SettingsOf(b: Body): Settings
    requires IsWellFormed(b)
  {
    Settings(
      b.query.must[0].query,
      b.query.filter[0].gte,
      b.query.filter[0].lte,
      b.aggs[HistogramName].dateHistogram.fixedInterval)
  }

  /**
   * The body for the parameters: always of the fixed frame, carrying the
   * query verbatim, `after`/`before` as the inclusive bounds (null when
   * absent), and the interval, `"1d"` when absent.
   */
  function ElasticQuery(p: Params): (b: Body)
    ensures IsWellFormed(b)
    ensures SettingsOf(b) == Effective(p)
  {
    Body(
      BoolQuery(
        [QueryString(p.query)],
        [Range(TimestampField, p.after, p.before)]),
      map[HistogramName := HistogramAgg(
        DateHistogram(TimestampField, p.interval.GetOr(DefaultInterval), 1),
        map[TermsName := Terms(MediumField, None)])],
      0)
  }

  /** Every well-formed body is the one built from the settings it carries. */
  lemma ElasticQueryOfSettings(b: Body)
    requires IsWellFormed(b)
    ensures ElasticQuery(Params(SettingsOf(b).query, SettingsOf(b).after, SettingsOf(b).before, Some(SettingsOf(b).interval))) == b
  {
    var s := SettingsOf(b);
    var built := ElasticQuery(Params(s.query, s.after, s.before, Some(s.interval)));
    assert built.query.must == b.query.must;
    assert built.query.filter == b.query.filter;
    assert built.aggs[HistogramName] == b.aggs[HistogramName];
    assert built.aggs == b.aggs;
  }

  /** Two parameter sets give the same body exactly when they mean the same settings. */
  lemma ElasticQueryInjective(p1: Params, p2: Params)
    ensures ElasticQuery(p1) == ElasticQuery(p2) <==> Effective(p1) == Effective(p2)
  {
  }

  /** The must-clause is the raw `query` parameter, unescaped. */
  lemma QueryPassedVerbatim(p: Params)
    ensures ElasticQuery(p).query.must == [QueryString(p.query)]
  {
  }

  /** Each range bound is null exactly when its parameter is absent, and is that parameter otherwise. */
  lemma RangeBoundsFromParams(p: Params)
    ensures ElasticQuery(p).query.filter[0].gte.None? <==> p.after.None?
    ensures ElasticQuery(p).query.filter[0].lte.None? <==> p.before.None?
    ensures p.after.Some? ==> ElasticQuery(p).query.filter[0].gte == p.after
    ensures p.before.Some? ==> ElasticQuery(p).query.filter[0].lte == p.before
  {
  }

  /** The interval defaults to one day only when absent; a present value, even empty, is kept. */
  lemma IntervalDefaultsToOneDay(p: Params)
    ensures p.interval.None? ==> ElasticQuery(p).aggs[HistogramName].dateHistogram.fixedInterval == "1d"
    ensures p.interval.Some? ==> ElasticQuery(p).aggs[HistogramName].dateHistogram.fixedInterval == p.interval.value
  {
  }
}
