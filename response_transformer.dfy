/**
 * `transform_response`: the engine's nested aggregation result reshaped
 * into the API's answer. Outer (histogram) buckets keep their order and
 * their `doc_count` and `key`; their `key_as_string` becomes the calendar
 * date of the engine's label; inner (terms) buckets keep their order and
 * only their `key` and `doc_count`.
 *
 * The raw payload is read field by field as Ruby reads a parsed JSON hash:
 * every field may be missing (nil). A missing `doc_count` or `key` is copied
 * as nil; a missing hash or bucket list raises `NoMethodError`, a missing
 * label raises `TypeError` in `Date.parse`, and a label that is not a date
 * raises `Date::Error`.
 */
module ResponseTransformer {
  import opened Wrappers
  import RubyDate

  // ------------------------------------------------------------ raw payload

  /** An engine terms bucket: `{ "key" => ..., "doc_count" => ... }`. */
  datatype RawTerm = RawTerm(key: Option<string>, docCount: Option<int>)

  /** The engine's `second_agg`, with its auxiliary counts. */
  datatype RawTerms = RawTerms(
    docCountErrorUpperBound: Option<int>,
    sumOtherDocCount: Option<int>,
    buckets: Option<seq<RawTerm>>)

  /** An engine histogram bucket. */
  datatype RawBucket = RawBucket(
    keyAsString: Option<string>,
    key: Option<int>,
    docCount: Option<int>,
    secondAgg: Option<RawTerms>)

  /** The engine's `first_agg`. */
  datatype RawHistogram = RawHistogram(buckets: Option<seq<RawBucket>>)

  /** The engine's `aggregations` object. */
  datatype RawAggregations = RawAggregations(firstAgg: Option<RawHistogram>)

  // ------------------------------------------------------------- API answer

  /** `{ "doc_count": ..., "key": ... }` */
  datatype Term = Term(docCount: Option<int>, key: Option<string>)

  /** `{ "doc_count":, "key":, "key_as_string":, "second_agg": { "buckets": [...] } }` */
  datatype Bucket = Bucket(docCount: Option<int>, key: Option<int>, keyAsString: string, secondAgg: seq<Term>)

  /** `{ "first_agg": { "buckets": [...] } }` */
  datatype Aggregations = Aggregations(firstAgg: seq<Bucket>)

  // ----------------------------------------------------------------- errors

  /** The Ruby errors a malformed payload raises inside the transform. */
  datatype Error =
    | NoMethodOnNil(selector: string)   // `nil[...]` or `nil.map`
    | NilNotAString                   // `Date.parse(nil)`
    | DateRaised(cause: RubyDate.DateError)   // `Date.parse` on a label it refuses

  /** `Integer#to_s`: the decimal digits of `n`, most significant first. */
  function Decimal(n: nat): (s: string)
    ensures |s| > 0 && forall i :: 0 <= i < |s| ==> RubyDate.IsDigit(s[i])
    ensures |s| > 1 ==> s[0] != '0'
    ensures DigitsValue(s) == n
  {
    if n < 10 then [RubyDate.DigitChar(n)]
    else
      var s := Decimal(n / 10) + [RubyDate.DigitChar(n % 10)];
      assert s[..|s| - 1] == Decimal(n / 10);
      s
  }

  /** The number a string of decimal digits denotes, most significant first. */
  function DigitsValue(s: string): nat
    requires forall i :: 0 <= i < |s| ==> RubyDate.IsDigit(s[i])
  {
    if s == [] then 0 else DigitsValue(s[..|s| - 1]) * 10 + RubyDate.DigitValue(s[|s| - 1])
  }

  /** The error's `message`, which the controller returns to the caller. */
  function Message(e: Error): string
  {
    match e
    case NoMethodOnNil(selector) => "undefined method `" + selector + "' for nil:NilClass"
    case NilNotAString => "no implicit conversion of nil into String"
    case DateRaised(TooLong(n)) =>
      "string length (" + Decimal(n) + ") exceeds the limit " + Decimal(RubyDate.LengthLimit)
    case DateRaised(NotADate) => "invalid date"
  }

  // ------------------------------------------------------------ transform

  /** The inner map: each terms bucket keeps only its `doc_count` and `key`. */
  function TransformTerms(ts: seq<RawTerm>): (r: seq<Term>)
    ensures |r| == |ts|
    ensures forall i :: 0 <= i < |ts| ==> r[i].docCount == ts[i].docCount && r[i].key == ts[i].key
  {
    if ts == [] then []
    else [Term(ts[0].docCount, ts[0].key)] + TransformTerms(ts[1..])
  }

  /**
   * One histogram bucket, in the order Ruby evaluates the hash literal:
   * `doc_count` and `key` are copied, then the label is parsed, then the
   * inner buckets are mapped.
   */
  function TransformBucket(b: RawBucket): (r: Result<Bucket, Error>)
    ensures r.Success? <==>
      && b.keyAsString.Some? && RubyDate.Reduce(b.keyAsString.value).Success?
      && b.secondAgg.Some? && b.secondAgg.value.buckets.Some?
    ensures r.Success? ==>
      && r.value.docCount == b.docCount
      && r.value.key == b.key
      && r.value.keyAsString == b.keyAsString.value[..10]
      && r.value.secondAgg == TransformTerms(b.secondAgg.value.buckets.value)
  {
    match b.keyAsString
    case None => Failure(NilNotAString)
    case Some(iso) =>
      RubyDate.ReduceIsDatePrefix(iso);
      match RubyDate.Reduce(iso)
      case Failure(cause) => Failure(DateRaised(cause))
      case Success(date) =>
        match b.secondAgg
        case None => Failure(NoMethodOnNil("[]"))
        case Some(terms) =>
          match terms.buckets
          case None => Failure(NoMethodOnNil("map"))
          case Some(ts) => Success(Bucket(b.docCount, b.key, date, TransformTerms(ts)))
  }

  /**
   * The outer map. It succeeds exactly when every bucket does, and then
   * gives one answer bucket per engine bucket, in the same order; otherwise
   * it raises the error of the first bucket that fails (see
   * TransformBucketsRaisesFirstError).
   */
  function TransformBuckets(bs: seq<RawBucket>): (r: Result<seq<Bucket>, Error>)
    ensures r.Success? <==> forall i :: 0 <= i < |bs| ==> TransformBucket(bs[i]).Success?
    ensures r.Success? ==>
      && |r.value| == |bs|
      && forall i :: 0 <= i < |bs| ==> Success(r.value[i]) == TransformBucket(bs[i])
  {
    if bs == [] then Success([])
    else
      match TransformBucket(bs[0])
      case Failure(e) => Failure(e)
      case Success(first) =>
        match TransformBuckets(bs[1..])
        case Failure(e) => Failure(e)
        case Success(rest) => Success([first] + rest)
  }

  /** `transform_response(aggregations)`. */
  function Transform(aggs: Option<RawAggregations>): (r: Result<Aggregations, Error>)
    ensures r.Success? <==>
      && aggs.Some? && aggs.value.firstAgg.Some? && aggs.value.firstAgg.value.buckets.Some?
      && TransformBuckets(aggs.value.firstAgg.value.buckets.value).Success?
    ensures aggs.Some? && aggs.value.firstAgg.Some? && aggs.value.firstAgg.value.buckets.Some? ==>
      match TransformBuckets(aggs.value.firstAgg.value.buckets.value)
      case Success(out) => r == Success(Aggregations(out))
      case Failure(e) => r == Failure(e)
  {
    match aggs
    case None => Failure(NoMethodOnNil("[]"))
    case Some(a) =>
      match a.firstAgg
      case None => Failure(NoMethodOnNil("[]"))
      case Some(h) =>
        match h.buckets
        case None => Failure(NoMethodOnNil("map"))
        case Some(bs) =>
          match TransformBuckets(bs)
          case Failure(e) => Failure(e)
          case Success(out) => Success(Aggregations(out))
  }

  // ---------------------------------------------------------------- lemmas

  /** The inner map distributes over concatenation: entries are neither moved nor merged. */
  lemma {:induction false} TransformTermsAppend(a: seq<RawTerm>, b: seq<RawTerm>)
    ensures TransformTerms(a + b) == TransformTerms(a) + TransformTerms(b)
  {
    if a != [] {
      assert (a + b)[1..] == a[1..] + b;
      TransformTermsAppend(a[1..], b);
    }
  }

  lemma ConsAssociates<T>(first: T, x: seq<T>, y: seq<T>)
    ensures [first] + (x + y) == ([first] + x) + y
  {
  }

  /** One step of the outer map: the head bucket first, then the rest. */
  lemma TransformBucketsCons(b: RawBucket, rest: seq<RawBucket>)
    ensures TransformBuckets([b] + rest) ==
      match TransformBucket(b)
      case Failure(e) => Failure(e)
      case Success(first) =>
        match TransformBuckets(rest)
        case Failure(e) => Failure(e)
        case Success(out) => Success([first] + out)
  {
    assert ([b] + rest)[0] == b && ([b] + rest)[1..] == rest;
  }

  /** The step of the outer map when the head bucket and the rest both transform. */
  lemma TransformBucketsConsSuccess(b: RawBucket, rest: seq<RawBucket>, first: Bucket, out: seq<Bucket>)
    requires TransformBucket(b) == Success(first) && TransformBuckets(rest) == Success(out)
    ensures TransformBuckets([b] + rest) == Success([first] + out)
  {
    TransformBucketsCons(b, rest);
  }

  /** The step of the outer map when the head bucket transforms but the rest raises. */
  lemma TransformBucketsRestRaises(b: RawBucket, rest: seq<RawBucket>, e: Error)
    requires TransformBucket(b).Success? && TransformBuckets(rest) == Failure(e)
    ensures TransformBuckets([b] + rest) == Failure(e)
  {
    TransformBucketsCons(b, rest);
  }

  /** A one-bucket list transforms into the one-bucket answer. */
  lemma SingleBucket(b: RawBucket)
    requires TransformBucket(b).Success?
    ensures TransformBuckets([b]) == Success([TransformBucket(b).value])
  {
    var first := TransformBucket(b).value;
    assert [b] != [] && [b][0] == b && [b][1..] == [];
    assert TransformBuckets([]) == Success([]);
    assert [first] + [] == [first];
  }

  /** The outer map distributes over concatenation: the results of the two parts are concatenated in order. */
  lemma {:induction false} TransformBucketsAppend(a: seq<RawBucket>, b: seq<RawBucket>)
    requires TransformBuckets(a).Success? && TransformBuckets(b).Success?
    ensures TransformBuckets(a + b) == Success(TransformBuckets(a).value + TransformBuckets(b).value)
  {
    if a == [] {
      assert a + b == b;
      assert TransformBuckets(a) == Success([]);
      assert [] + TransformBuckets(b).value == TransformBuckets(b).value;
    } else {
      TransformBucketsAppend(a[1..], b);
      TransformBucketsAppendStep(a, b);
    }
  }

  /** The inductive step of TransformBucketsAppend: put the head bucket back in front. */
  lemma TransformBucketsAppendStep(a: seq<RawBucket>, b: seq<RawBucket>)
    requires a != [] && TransformBuckets(a).Success? && TransformBuckets(b).Success?
    requires TransformBuckets(a[1..] + b) == Success(TransformBuckets(a[1..]).value + TransformBuckets(b).value)
    ensures TransformBuckets(a + b) == Success(TransformBuckets(a).value + TransformBuckets(b).value)
  {
    var tail := a[1..];
    var first := TransformBucket(a[0]).value;
    var x, y := TransformBuckets(tail).value, TransformBuckets(b).value;
    assert TransformBuckets(a) == Success([first] + x) by {
      assert a == [a[0]] + tail;
      TransformBucketsConsSuccess(a[0], tail, first, x);
    }
    assert TransformBuckets(a + b) == Success([first] + (x + y)) by {
      assert a + b == [a[0]] + (tail + b) by { assert a == [a[0]] + tail; ConsAssociates(a[0], tail, b); }
      TransformBucketsConsSuccess(a[0], tail + b, first, x + y);
    }
    ConsAssociates(first, x, y);
  }

  /**
   * The outer map fails fast over a concatenation: when the first part
   * raises, the whole raises its error; when only the second part raises,
   * the whole raises that error.
   */
  lemma {:induction false} TransformBucketsAppendRaises(a: seq<RawBucket>, b: seq<RawBucket>)
    ensures TransformBuckets(a).Failure? ==> TransformBuckets(a + b) == TransformBuckets(a)
    ensures TransformBuckets(a).Success? && TransformBuckets(b).Failure? ==>
      TransformBuckets(a + b) == TransformBuckets(b)
  {
    if a == [] {
      assert a + b == b;
      assert TransformBuckets(a) == Success([]);
    } else {
      var tail := a[1..];
      assert a == [a[0]] + tail;
      assert a + b == [a[0]] + (tail + b);
      TransformBucketsCons(a[0], tail);
      TransformBucketsCons(a[0], tail + b);
      TransformBucketsAppendRaises(tail, b);
    }
  }

  /**
   * A successful transform has one bucket per engine bucket, in order, with
   * `doc_count` and `key` copied, the label cut to its calendar date, and
   * the inner buckets copied entry by entry in order.
   */
  lemma TransformPreservesBuckets(bs: seq<RawBucket>, i: nat, j: nat)
    requires Transform(Some(RawAggregations(Some(RawHistogram(Some(bs)))))).Success?
    requires i < |bs|
    ensures var out := Transform(Some(RawAggregations(Some(RawHistogram(Some(bs)))))).value.firstAgg;
      && |out| == |bs|
      && out[i].docCount == bs[i].docCount
      && out[i].key == bs[i].key
      && bs[i].keyAsString.Some? && out[i].keyAsString == bs[i].keyAsString.value[..10]
      && bs[i].secondAgg.Some? && bs[i].secondAgg.value.buckets.Some?
      && |out[i].secondAgg| == |bs[i].secondAgg.value.buckets.value|
      && (j < |out[i].secondAgg| ==>
            out[i].secondAgg[j] == Term(bs[i].secondAgg.value.buckets.value[j].docCount,
                                        bs[i].secondAgg.value.buckets.value[j].key))
  {
    assert TransformBucket(bs[i]).Success?;
  }

  /** When some bucket raises, the outer map raises the error of the first such bucket. */
  lemma {:induction false} TransformBucketsRaisesFirstError(bs: seq<RawBucket>, k: nat)
    requires k < |bs| && TransformBucket(bs[k]).Failure?
    requires forall j :: 0 <= j < k ==> TransformBucket(bs[j]).Success?
    ensures TransformBuckets(bs) == Failure(TransformBucket(bs[k]).error)
  {
    var rest := bs[1..];
    assert bs == [bs[0]] + rest;
    if k == 0 {
      TransformBucketsCons(bs[0], rest);
    } else {
      assert rest[k - 1] == bs[k];
      forall j | 0 <= j < k - 1
        ensures TransformBucket(rest[j]).Success?
      {
        assert rest[j] == bs[j + 1];
      }
      TransformBucketsRaisesFirstError(rest, k - 1);
      TransformBucketsRestRaises(bs[0], rest, TransformBucket(bs[k]).error);
    }
  }

  /** The engine's auxiliary terms counts never reach the answer. */
  lemma AuxiliaryCountsDropped(b: RawBucket, errorBound: Option<int>, otherCount: Option<int>)
    requires b.secondAgg.Some?
    ensures TransformBucket(b.(secondAgg := Some(b.secondAgg.value.(
              docCountErrorUpperBound := errorBound, sumOtherDocCount := otherCount))))
         == TransformBucket(b)
  {
  }

  /** Each missing hash, list or label raises the Ruby error of the step that reads it. */
  lemma MissingFieldsRaise(b: RawBucket)
    ensures Transform(None) == Failure(NoMethodOnNil("[]"))
    ensures Transform(Some(RawAggregations(None))) == Failure(NoMethodOnNil("[]"))
    ensures Transform(Some(RawAggregations(Some(RawHistogram(None))))) == Failure(NoMethodOnNil("map"))
    ensures b.keyAsString.None? ==> TransformBucket(b) == Failure(NilNotAString)
    ensures b.keyAsString.Some? && RubyDate.Reduce(b.keyAsString.value).Failure? ==>
      TransformBucket(b) == Failure(DateRaised(RubyDate.Reduce(b.keyAsString.value).error))
    ensures b.keyAsString.Some? && RubyDate.Reduce(b.keyAsString.value).Success? && b.secondAgg.None? ==>
      TransformBucket(b) == Failure(NoMethodOnNil("[]"))
    ensures (b.keyAsString.Some? && RubyDate.Reduce(b.keyAsString.value).Success? &&
             b.secondAgg.Some? && b.secondAgg.value.buckets.None?) ==>
      TransformBucket(b) == Failure(NoMethodOnNil("map"))
  {
  }

  /** When a bucket raises, the whole transform raises the error of the first bucket that does. */
  lemma TransformRaisesFirstBucketError(bs: seq<RawBucket>, k: nat)
    requires k < |bs| && TransformBucket(bs[k]).Failure?
    requires forall j :: 0 <= j < k ==> TransformBucket(bs[j]).Success?
    ensures Transform(Some(RawAggregations(Some(RawHistogram(Some(bs)))))) == Failure(TransformBucket(bs[k]).error)
  {
    TransformBucketsRaisesFirstError(bs, k);
  }

  /** A three-digit number prints as its hundreds, tens and units digits. */
  lemma DecimalThreeDigits(n: nat)
    requires 100 <= n < 1000
    ensures Decimal(n) == [RubyDate.DigitChar(n / 100), RubyDate.DigitChar(n / 10 % 10), RubyDate.DigitChar(n % 10)]
  {
    assert Decimal(n / 10) == [RubyDate.DigitChar(n / 100), RubyDate.DigitChar(n / 10 % 10)];
  }

  /** The two numbers in the message of a 141-character label print as Ruby prints them. */
  lemma DecimalsOfTooLongMessage()
    ensures Decimal(141) == "141" && Decimal(RubyDate.LengthLimit) == "128"
  {
    DecimalThreeDigits(141);
    DecimalThreeDigits(128);
    assert RubyDate.DigitChar(1) == '1' && RubyDate.DigitChar(4) == '4';
    assert RubyDate.DigitChar(2) == '2' && RubyDate.DigitChar(8) == '8';
  }

  /** A label over the length limit is reported with the `ArgumentError` text of `Date.parse`. */
  lemma TooLongMessage()
    ensures Message(DateRaised(RubyDate.TooLong(141))) == "string length (141) exceeds the limit 128"
  {
    DecimalsOfTooLongMessage();
  }
}
