# Keyword results endpoint — a Dafny model

This project models the `/results` endpoint of the keyword dashboard backend
(`KeywordsController#results`). For a keyword, an optional date range and a
bucketing interval, the endpoint builds an Elasticsearch request body. It then
searches the `news` index and reshapes the nested aggregation answer. The
answer is a date histogram (`first_agg`) with a terms breakdown by medium
(`second_agg`) inside each bucket.

The controller is pure apart from rendering and the search call. The search
call becomes a function parameter, and the model is therefore a set of
datatypes, functions and lemmas, one module per component:

- `Wrappers`: `Option` (Ruby's `nil`) and `Result` (a value or a raised error).
- `RubyDate`: `Date.parse(label).to_s` on ISO-8601 labels. It keeps the
  written calendar date and ignores the time of day and the zone. Dates are
  checked against Ruby's default calendar: Julian before 15 October 1582,
  Gregorian from then on, and the ten days between them are invalid.
- `QueryBuilder`: `elastic_query` and the shape of the body it builds.
- `ResponseTransformer`: `transform_response`, with every field of the raw
  payload optional. A missing field raises the same Ruby error the code would.
- `KeywordsController`: `results`. The search client is a function parameter
  from the request sent to its outcome: return a document, or raise with a
  message.
- `KeywordsScenarios`: the request spec's three situations as concrete lemmas.

Where the doc comments of `keywords_controller.rb` (lines 6 and 126) and the
code differ, the model follows the code. Points worth knowing about the code:

- A bucket with no `doc_count` or `key` is not an error. The code copies the
  `nil` into the answer (`keywords_controller.rb:146-147`, `152-153`), and so
  does the model.
- The label is reduced to its calendar date (`keywords_controller.rb:148`).
  The doc comment at `keywords_controller.rb:126` shows the full timestamp
  passed through.
- The doc comment says all parameters are required
  (`keywords_controller.rb:6`). The code requires only a non-blank `query`.
  It sends absent bounds as null and defaults a missing interval to `"1d"`.
- The keyword check is ActiveSupport's `blank?` (`keywords_controller.rb:44`):
  nil, the empty string and a string of white space only are all rejected.
- `Date.parse` refuses a label of more than 128 bytes with an
  `ArgumentError` before it looks at the text, so such a bucket gives 500.
  The limit counts bytes, not characters. Labels from the parsed JSON are
  UTF-8, so a character takes one to four bytes; for ASCII labels, such as
  the engine's own, bytes and characters agree.

## Model

| member | source | states |
|---|---|---|
| `KeywordsController.Results` | backend/app/controllers/keywords_controller.rb:43-58 | the status is 200, 400 or 500; it is 400 exactly when `query` is blank, and then the payload is `"Keyword is required"`; it is 200 exactly when the payload holds aggregations |
| `KeywordsController.BlankQueryNeverSearches` | backend/app/controllers/keywords_controller.rb:44-47 | with a blank keyword the answer is the fixed 400 whatever the search client would do, so the client is never consulted |
| `KeywordsController.SearchesOnlyBuiltRequest` | backend/app/controllers/keywords_controller.rb:50-53 | otherwise the answer depends on the client only through its outcome for the one request: index `news`, body `elastic_query` |
| `KeywordsController.IsBlank` | backend/app/controllers/keywords_controller.rb:44 | ActiveSupport's `blank?` on the `query` parameter: true for nil and for a string made only of Unicode white space, the empty string included |
| `KeywordsController.BlankConcat` | backend/app/controllers/keywords_controller.rb:44 | a keyword is blank exactly when each of two parts it splits into is blank |
| `KeywordsController.SearchRequestFor` | backend/app/controllers/keywords_controller.rb:50-53 | the request sent targets index `news` and carries a well-formed body whose settings are the effective parameters |
| `KeywordsController.SearchErrorIsServerError` | backend/app/controllers/keywords_controller.rb:56-57 | a search that raises gives 500 with exactly the raised message |
| `KeywordsController.TransformErrorIsServerError` | backend/app/controllers/keywords_controller.rb:55-57 | a response the transform cannot read gives 500 with the message of the Ruby error it raises |
| `KeywordsController.SuccessIsTransformedResponse` | backend/app/controllers/keywords_controller.rb:55 | 200 exactly when the keyword is present, the search returns and the transform succeeds; the payload is then the transformed aggregations |
| `QueryBuilder.ElasticQuery` | backend/app/controllers/keywords_controller.rb:61-89 | the body always has the fixed frame (one must-clause, one range filter on `timestamp`, histogram on `timestamp` with `min_doc_count` 1, `terms` on `medium` with no size, `size` 0) and carries exactly the effective settings |
| `QueryBuilder.ElasticQueryOfSettings` | backend/app/controllers/keywords_controller.rb:61-89 | every body of that frame is the one built from the settings read back out of it, so frame plus settings describe the body completely |
| `QueryBuilder.ElasticQueryInjective` | backend/app/controllers/keywords_controller.rb:66-77 | two parameter sets give the same body exactly when they agree on query, bounds and interval after defaulting |
| `QueryBuilder.QueryPassedVerbatim` | backend/app/controllers/keywords_controller.rb:65-67 | the single must-clause is a `query_string` holding the raw `query` parameter, unescaped |
| `QueryBuilder.RangeBoundsFromParams` | backend/app/controllers/keywords_controller.rb:68-70 | `gte` is `after` and `lte` is `before`; each bound is null exactly when its parameter is absent |
| `QueryBuilder.IntervalDefaultsToOneDay` | backend/app/controllers/keywords_controller.rb:77 | `fixed_interval` is `"1d"` when `interval` is absent and the given string, even an empty one, otherwise |
| `ResponseTransformer.TransformTerms` | backend/app/controllers/keywords_controller.rb:150-155 | the inner list keeps its length and order, and each entry carries the engine's `doc_count` and `key` unchanged |
| `ResponseTransformer.TransformBucket` | backend/app/controllers/keywords_controller.rb:145-157 | a bucket succeeds exactly when its label is a date `Date.parse` accepts and its `second_agg` list is present; then `doc_count` and `key` are copied, the label becomes its `YYYY-MM-DD` prefix and the inner list is mapped |
| `ResponseTransformer.TransformBuckets` | backend/app/controllers/keywords_controller.rb:144-158 | the outer map succeeds exactly when every bucket does, and then yields one bucket per input bucket, in order, each the transform of its input |
| `ResponseTransformer.TransformBucketsRaisesFirstError` | backend/app/controllers/keywords_controller.rb:144-158 | when a bucket raises, the outer map raises the error of the first bucket that does |
| `ResponseTransformer.Transform` | backend/app/controllers/keywords_controller.rb:141-161 | the transform succeeds exactly when `aggregations`, `first_agg` and its bucket list are present and every bucket transforms; it then holds the mapped buckets, and otherwise, once the lists are present, it raises the outer map's error |
| `ResponseTransformer.TransformRaisesFirstBucketError` | backend/app/controllers/keywords_controller.rb:141-158 | when a bucket raises, the whole transform raises the error of the first bucket that does |
| `ResponseTransformer.TransformTermsAppend` | backend/app/controllers/keywords_controller.rb:150-155 | the inner map distributes over concatenation: entries are never moved, merged or dropped |
| `ResponseTransformer.TransformBucketsAppend` | backend/app/controllers/keywords_controller.rb:144-158 | when both parts transform, the transform of a concatenation is the concatenation of the two results, in order |
| `ResponseTransformer.TransformBucketsAppendRaises` | backend/app/controllers/keywords_controller.rb:144-158 | the outer map fails fast: if the first part raises, the whole raises that error; if only the second part raises, the whole raises its error |
| `ResponseTransformer.TransformPreservesBuckets` | backend/app/controllers/keywords_controller.rb:144-155 | in a successful transform, answer bucket i has input bucket i's `doc_count`, `key`, calendar date and inner entries, in order |
| `ResponseTransformer.AuxiliaryCountsDropped` | backend/app/controllers/keywords_controller.rb:149-156 | `doc_count_error_upper_bound` and `sum_other_doc_count` have no effect on the answer |
| `ResponseTransformer.MissingFieldsRaise` | backend/app/controllers/keywords_controller.rb:144-150 | a missing `aggregations` or `first_agg` raises `NoMethodError` for `[]`, a missing bucket list raises it for `map`, a missing label raises `TypeError`, a refused label raises the error `Date.parse` raises for it, a missing `second_agg` raises `NoMethodError` for `[]` and a missing inner list raises it for `map` |
| `ResponseTransformer.Message` | backend/app/controllers/keywords_controller.rb:56-57 | the `e.message` text the 500 payload carries for each error the transform raises: the `NoMethodError` text naming the selector, the `TypeError` for a nil label, `Date.parse`'s length `ArgumentError` with the byte count, and `"invalid date"`; `TooLongMessage` pins the length text down |
| `ResponseTransformer.Decimal` | backend/app/controllers/keywords_controller.rb:148 | the byte count in the length error's message is written in canonical decimal: digits only, no leading zero, reading back as the count |
| `ResponseTransformer.TooLongMessage` | backend/app/controllers/keywords_controller.rb:148 | a 141-byte label is reported as `"string length (141) exceeds the limit 128"`, the text of Ruby's `ArgumentError` |
| `RubyDate.Parse` | backend/app/controllers/keywords_controller.rb:148 | a parsed date exists in Ruby's calendar and has a four-digit year; the length error, carrying the byte count, is raised exactly for labels of more than 128 UTF-8 bytes, and any other label that fails raises `Date::Error` |
| `RubyDate.Reduce` | backend/app/controllers/keywords_controller.rb:148 | `Date.parse(label).to_s`: on success the label's first ten characters; on failure the error `Date.parse` raises (`ReduceIsDatePrefix` states exactly when each happens) |
| `RubyDate.ToS` | backend/app/controllers/keywords_controller.rb:148 | `Date#to_s` gives ten characters with `-` at positions 4 and 7 |
| `RubyDate.DaysInMonth` | backend/app/controllers/keywords_controller.rb:148 | a month has 28 to 31 days, and 29 exactly for February of a leap year |
| `RubyDate.ToSOfParse` | backend/app/controllers/keywords_controller.rb:148 | printing a parsed date gives back exactly the date part `YYYY-MM-DD` of the label |
| `RubyDate.ParseOfToS` | backend/app/controllers/keywords_controller.rb:148 | parsing a printed valid date, followed by any time-of-day suffix, gives the date back whenever the whole label is at most 128 bytes |
| `RubyDate.ReduceIsDatePrefix` | backend/app/controllers/keywords_controller.rb:148 | `Date.parse(label).to_s` succeeds exactly for ISO-shaped labels of at most 128 bytes naming an existing date, and is then the label's first ten characters; it raises the length error, with the byte count, exactly for labels over 128 bytes, and `Date::Error` for every other label it refuses |
| `RubyDate.ReduceIdempotent` | backend/app/controllers/keywords_controller.rb:148 | a reduced label reduces to itself |
| `RubyDate.ReduceSpecLabel` | backend/app/controllers/keywords_controller.rb:148 | `"2019-08-22T00:00:00.000Z"` becomes `"2019-08-22"` |
| `RubyDate.ReduceIgnoresZone` | backend/app/controllers/keywords_controller.rb:148 | a zone offset does not shift the date |
| `RubyDate.ReduceLeapDayKept` | backend/app/controllers/keywords_controller.rb:148 | 29 February 2020 and, under the Julian rule, 29 February 1500 are kept |
| `RubyDate.ReduceLeapDayRejected` | backend/app/controllers/keywords_controller.rb:148 | 29 February 2019, in a full engine label, raises `Date::Error` |
| `RubyDate.ReduceCenturyLeapDayRejected` | backend/app/controllers/keywords_controller.rb:148 | 29 February 1900 raises `Date::Error`: the Gregorian rule skips 1900 |
| `RubyDate.ReduceRejects` | backend/app/controllers/keywords_controller.rb:148 | a day of the 1582 reform gap, month 13, day 32 and the empty string raise `Date::Error` |
| `RubyDate.ReduceRejectsLongLabel` | backend/app/controllers/keywords_controller.rb:148 | a well-formed ISO label naming an existing date still raises the length error when it is 141 ASCII characters, and so 141 bytes, long |
| `RubyDate.ReduceRejectsMultibyteLabel` | backend/app/controllers/keywords_controller.rb:148 | 65 copies of `é`, 65 characters but 130 bytes, raise the length error reporting 130 |
| `RubyDate.ByteLengthAppend` | backend/app/controllers/keywords_controller.rb:148 | the byte count of a concatenation is the sum of the parts' byte counts |
| `RubyDate.AsciiByteLength` | backend/app/controllers/keywords_controller.rb:148 | an ASCII label has exactly one byte per character, so the limit then counts characters |
| `KeywordsScenarios.WilsonMedia` | backend/spec/requests/keywords_spec.rb:17-22 | the four inner buckets Online 1774, TV 518, Radio 375, Print 311 come out unchanged and in order |
| `KeywordsScenarios.WilsonBucket` | backend/spec/requests/keywords_spec.rb:10-24 | the stubbed bucket keeps `doc_count` 5615 and `key` 1566432000000 and gets the label `"2019-08-22"` |
| `KeywordsScenarios.WilsonTransform` | backend/spec/requests/keywords_spec.rb:5-29 | the stubbed response transforms into the expected one-bucket answer |
| `KeywordsScenarios.ValidRequestScenario` | backend/spec/requests/keywords_spec.rb:37-56 | query "Wilson" with the stubbed response is answered 200 with that answer |
| `KeywordsScenarios.ValidRequestBody` | backend/spec/requests/keywords_spec.rb:38-43 | the body sent carries "Wilson", both bounds and the 5-day interval |
| `KeywordsScenarios.MissingQueryScenario` | backend/spec/requests/keywords_spec.rb:59-67 | no parameters at all give 400 with "Keyword is required" |
| `KeywordsScenarios.WhitespaceQueryScenario` | backend/app/controllers/keywords_controller.rb:44 | an empty or white-space keyword gives 400, a keyword with a letter does not |
| `KeywordsScenarios.SearchRaisesScenario` | backend/spec/requests/keywords_spec.rb:69-85 | a client raising "Something went wrong" gives 500 with that message |

## Left out

- The search client's configuration and its process-wide instance
  (`backend/config/initializers/elasticsearch.rb`). This is configuration
  loading and library setup.
- The frontend HTTP client (`frontend/src/plugins/axios.ts`). It holds only
  client configuration.
- What Elasticsearch does with the body: histogram bucketing, empty-bucket
  suppression, the order of terms and their default number. The client is
  an arbitrary function from request to outcome.
- Rails rendering, routing, parameter parsing and JSON serialisation. A
  response is a status and a payload value. Parameters are optional strings;
  array or hash parameters are not modelled.
- `RubyDate.Parse`: `Date.parse` also accepts many non-ISO formats
  (`"Aug 22 2019"`, `"20190822"`, …) and years that are not four digits.
  The model accepts only `YYYY-MM-DD`, optionally followed by
  `THH:MM:SS`, a fraction and a `Z` or `±hh:mm` zone. Any other label is
  treated as raising `Date::Error`. The 128-byte limit is the default
  of current versions of Ruby's date library; older versions had none.
- Payload values of unexpected JSON types, such as a string `doc_count`, a
  `nil` bucket entry, or a bucket list that is not an array. Each field has
  the type the engine sends or is absent.
- `ResponseTransformer.Message`: the text of a `NoMethodError` depends on
  the Ruby version. The model uses the form of Ruby before 3.3
  (``undefined method `[]' for nil:NilClass``).
- Errors that are not a `StandardError` escape the `rescue`. None of the
  modelled failures are of that kind.
