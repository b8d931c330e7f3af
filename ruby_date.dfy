/**
 * `Date.parse(label).to_s`, as the response transformer applies it to the
 * engine's bucket labels, restricted to ISO-8601 labels of the shape
 * `YYYY-MM-DD` optionally followed by `THH:MM:SS`, an optional fraction of
 * a second and an optional zone (`Z` or `+hh:mm` / `-hh:mm`).
 *
 * Ruby's `Date` keeps only the calendar date: the time of day and the zone
 * are read but ignored (no shifting to UTC), and the date must exist in
 * Ruby's default calendar, which is Julian before the Gregorian reform of
 * 15 October 1582 (`Date::ITALY`) and Gregorian from then on.
 */
module RubyDate {
  import opened Wrappers

  /** A civil date as Ruby's `Date` holds it. */
  datatype Date = Date(year: int, month: int, day: int)

  /** The first year counted in the Gregorian calendar by `Date::ITALY`. */
  const ReformYear := 1582

  predicate IsLeapYear(y: int) {
    if y < ReformYear then y % 4 == 0
    else (y % 4 == 0 && y % 100 != 0) || y % 400 == 0
  }

  function DaysInMonth(y: int, m: int): (n: int)
    requires 1 <= m <= 12
    ensures 28 <= n <= 31
    ensures n == 29 <==> m == 2 && IsLeapYear(y)
  {
    if m == 2 then (if IsLeapYear(y) then 29 else 28)
    else if m == 4 || m == 6 || m == 9 || m == 11 then 30
    else 31
  }

  /** The ten days dropped by the reform: 5 to 14 October 1582 never existed. */
  predicate InReformGap(d: Date) {
    d.year == ReformYear && d.month == 10 && 5 <= d.day <= 14
  }

  /** `Date.valid_date?` under the default calendar reform. */
  predicate IsValid(d: Date) {
    1 <= d.month <= 12 && 1 <= d.day <= DaysInMonth(d.year, d.month) && !InReformGap(d)
  }

  /** Years that `to_s` writes with exactly four digits. */
  predicate HasFourDigitYear(d: Date) {
    0 <= d.year <= 9999
  }

  // ---------------------------------------------------------------- digits

  predicate IsDigit(c: char) {
    '0' <= c <= '9'
  }

  function DigitValue(c: char): (v: int)
    requires IsDigit(c)
    ensures 0 <= v <= 9
  {
    c as int - '0' as int
  }

  function DigitChar(v: int): (c: char)
    requires 0 <= v <= 9
    ensures IsDigit(c) && DigitValue(c) == v
  {
    ('0' as int + v) as char
  }

  /** Two decimal digits, zero-padded. */
  function Pad2(v: int): (s: string)
    requires 0 <= v <= 99
  {
    [DigitChar(v / 10), DigitChar(v % 10)]
  }

  /** Four decimal digits, zero-padded. */
  function Pad4(v: int): (s: string)
    requires 0 <= v <= 9999
  {
    Pad2(v / 100) + Pad2(v % 100)
  }

  /** The value of the two digits at `s[i]`, `s[i + 1]`. */
  function Value2(s: string, i: nat): (v: int)
    requires i + 2 <= |s| && IsDigit(s[i]) && IsDigit(s[i + 1])
    ensures 0 <= v <= 99
  {
    10 * DigitValue(s[i]) + DigitValue(s[i + 1])
  }

  /** The value of the four digits from `s[i]` on. */
  function Value4(s: string, i: nat): (v: int)
    requires i + 4 <= |s| && IsDigit(s[i]) && IsDigit(s[i + 1]) && IsDigit(s[i + 2]) && IsDigit(s[i + 3])
    ensures 0 <= v <= 9999
  {
    100 * Value2(s, i) + Value2(s, i + 2)
  }

  lemma Pad2Value(v: int)
    requires 0 <= v <= 99
    ensures |Pad2(v)| == 2 && IsDigit(Pad2(v)[0]) && IsDigit(Pad2(v)[1])
    ensures Value2(Pad2(v), 0) == v
  {
  }

  lemma ValuePad2(s: string, i: nat)
    requires i + 2 <= |s| && IsDigit(s[i]) && IsDigit(s[i + 1])
    ensures Pad2(Value2(s, i)) == s[i..i + 2]
  {
    var a, b := DigitValue(s[i]), DigitValue(s[i + 1]);
    assert (10 * a + b) / 10 == a && (10 * a + b) % 10 == b;
    assert DigitChar(a) == s[i] && DigitChar(b) == s[i + 1];
  }

  // ------------------------------------------------------------- to_s

  /** `Date#to_s`: the ISO-8601 calendar date `YYYY-MM-DD`. */
  function ToS(d: Date): (s: string)
    requires IsValid(d) && HasFourDigitYear(d)
    ensures |s| == 10 && s[4] == '-' && s[7] == '-'
  {
    Pad4(d.year) + "-" + Pad2(d.month) + "-" + Pad2(d.day)
  }

  // ------------------------------------------------------------- parsing

  /** `YYYY-MM-DD` at the start of `s`. */
  predicate HasDateShape(s: string) {
    && |s| >= 10
    && IsDigit(s[0]) && IsDigit(s[1]) && IsDigit(s[2]) && IsDigit(s[3])
    && s[4] == '-' && IsDigit(s[5]) && IsDigit(s[6])
    && s[7] == '-' && IsDigit(s[8]) && IsDigit(s[9])
  }

  /** The year, month and day written at the start of `s`, valid or not. */
  function DateFields(s: string): Date
    requires HasDateShape(s)
  {
    Date(Value4(s, 0), Value2(s, 5), Value2(s, 8))
  }

  /** Empty, `Z`, or an offset `+hh:mm` / `-hh:mm`. */
  predicate IsZone(t: string) {
    || t == []
    || t == "Z"
    || (&& |t| == 6 && (t[0] == '+' || t[0] == '-')
        && IsDigit(t[1]) && IsDigit(t[2]) && t[3] == ':' && IsDigit(t[4]) && IsDigit(t[5]))
  }

  /** Any number of digits, then a zone. */
  predicate IsDigitsThenZone(t: string)
    decreases |t|
  {
    IsZone(t) || (|t| > 0 && IsDigit(t[0]) && IsDigitsThenZone(t[1..]))
  }

  /** An optional fraction of a second (`.` and at least one digit), then a zone. */
  predicate IsFractionThenZone(t: string) {
    IsZone(t) || (|t| >= 2 && t[0] == '.' && IsDigit(t[1]) && IsDigitsThenZone(t[2..]))
  }

  /**
   * What may follow the calendar date: nothing, or `T`, a time of day
   * `HH:MM:SS` and the rest. The time-of-day digits are not range-checked:
   * `Date.parse` reads them but a `Date` never uses them.
   */
  predicate IsTimeSuffix(t: string) {
    || t == []
    || (&& |t| >= 9 && t[0] == 'T'
        && IsDigit(t[1]) && IsDigit(t[2]) && t[3] == ':'
        && IsDigit(t[4]) && IsDigit(t[5]) && t[6] == ':'
        && IsDigit(t[7]) && IsDigit(t[8])
        && IsFractionThenZone(t[9..]))
  }

  /** An ISO-8601 date or date-time label as the model reads them. */
  predicate IsIsoLabel(s: string) {
    HasDateShape(s) && IsTimeSuffix(s[10..])
  }

  /** Why `Date.parse` raises. */
  datatype DateError =
    | TooLong(length: nat)   // `ArgumentError`: longer than the length limit
    | NotADate               // `Date::Error`: not a date, or a date that does not exist

  /** `Date.parse` refuses, before parsing, any string of more bytes than this (its `limit:` default). */
  const LengthLimit := 128

  /** The number of bytes UTF-8 spends on one character. */
  function CharBytes(c: char): (n: nat)
    ensures 1 <= n <= 4
    ensures n == 1 <==> c as int < 0x80
  {
    if c as int < 0x80 then 1
    else if c as int < 0x800 then 2
    else if c as int < 0x1_0000 then 3
    else 4
  }

  /** `String#bytesize` of a UTF-8 string: the length the limit is measured in. */
  function ByteLength(s: string): (n: nat)
    ensures |s| <= n <= 4 * |s|
  {
    BytesFrom(s, 0)
  }

  /** The bytes of `s[i..]`, counted from position `i` on. */
  function BytesFrom(s: string, i: nat): (n: nat)
    requires i <= |s|
    ensures |s| - i <= n <= 4 * (|s| - i)
    decreases |s| - i
  {
    if i == |s| then 0 else CharBytes(s[i]) + BytesFrom(s, i + 1)
  }

  /**
   * `Date.parse` on an ISO-8601 label: the calendar date the label starts
   * with. It raises `ArgumentError`, reporting the byte count, for a string
   * of more bytes than the length limit, and
   * `Date::Error` when the label is not of the ISO shape or names a date
   * that does not exist.
   */
  function Parse(s: string): (r: Result<Date, DateError>)
    ensures r.Success? ==> IsValid(r.value) && HasFourDigitYear(r.value)
    ensures r == Failure(TooLong(ByteLength(s))) <==> ByteLength(s) > LengthLimit
    ensures r.Failure? && ByteLength(s) <= LengthLimit ==> r.error == NotADate
  {
    if ByteLength(s) > LengthLimit then Failure(TooLong(ByteLength(s)))
    else if IsIsoLabel(s) && IsValid(DateFields(s)) then Success(DateFields(s))
    else Failure(NotADate)
  }

  /** `Date.parse(label).to_s`, or the error `Date.parse` raises. */
  function Reduce(iso: string): (r: Result<string, DateError>)
    ensures r.Success? ==> |iso| >= 10 && r.value == iso[..10]
    ensures r.Failure? ==> Parse(iso).Failure? && r.error == Parse(iso).error
  {
    match Parse(iso)
    case Success(d) => ToSOfParse(iso); Success(ToS(d))
    case Failure(e) => Failure(e)
  }

  // ------------------------------------------------------------- lemmas

  /** Printing a parsed date gives back exactly the date part of the label. */
  lemma ToSOfParse(s: string)
    requires Parse(s).Success?
    ensures ToS(Parse(s).value) == s[..10]
  {
    var d := Parse(s).value;
    ValuePad2(s, 0);
    ValuePad2(s, 2);
    ValuePad2(s, 5);
    ValuePad2(s, 8);
    var y := d.year;
    assert y / 100 == Value2(s, 0) && y % 100 == Value2(s, 2);
    assert Pad4(y) == s[0..4];
    assert ToS(d) == s[0..4] + [s[4]] + s[5..7] + [s[7]] + s[8..10];
  }

  /** A printed date, followed by anything, reads back as that date's fields. */
  lemma FieldsOfToS(d: Date, suffix: string)
    requires IsValid(d) && HasFourDigitYear(d)
    ensures HasDateShape(ToS(d) + suffix) && DateFields(ToS(d) + suffix) == d
    ensures (ToS(d) + suffix)[10..] == suffix
  {
    var s := ToS(d) + suffix;
    Pad2Value(d.year / 100);
    Pad2Value(d.year % 100);
    Pad2Value(d.month);
    Pad2Value(d.day);
    assert s[10..] == suffix;
    assert s[0..2] == Pad2(d.year / 100) && s[2..4] == Pad2(d.year % 100);
    assert Value2(s, 0) == Value2(Pad2(d.year / 100), 0);
    assert Value2(s, 2) == Value2(Pad2(d.year % 100), 0);
    assert Value2(s, 5) == Value2(Pad2(d.month), 0);
    assert Value2(s, 8) == Value2(Pad2(d.day), 0);
  }

  /**
   * Parsing a printed valid date, followed by any time-of-day suffix that
   * keeps the label within the length limit, gives the date back.
   */
  lemma ParseOfToS(d: Date, suffix: string)
    requires IsValid(d) && HasFourDigitYear(d) && IsTimeSuffix(suffix)
    requires ByteLength(ToS(d) + suffix) <= LengthLimit
    ensures Parse(ToS(d) + suffix) == Success(d)
  {
    FieldsOfToS(d, suffix);
  }

  /**
   * The reduction keeps exactly the `YYYY-MM-DD` prefix of the label, and
   * succeeds exactly when the label is within the length limit, ISO-shaped
   * and names an existing date.
   */
  lemma ReduceIsDatePrefix(iso: string)
    ensures Reduce(iso).Success? <==>
      ByteLength(iso) <= LengthLimit && IsIsoLabel(iso) && IsValid(DateFields(iso))
    ensures Reduce(iso).Success? ==> Reduce(iso).value == iso[..10]
    ensures Reduce(iso) == Failure(TooLong(ByteLength(iso))) <==> ByteLength(iso) > LengthLimit
    ensures Reduce(iso).Failure? && ByteLength(iso) <= LengthLimit ==> Reduce(iso).error == NotADate
  {
    if Parse(iso).Success? {
      ToSOfParse(iso);
    }
  }

  /** A reduced label is itself a label that reduces to itself. */
  lemma ReduceIdempotent(iso: string)
    requires Reduce(iso).Success?
    ensures Reduce(Reduce(iso).value) == Reduce(iso)
  {
    var d := Parse(iso).value;
    ParseOfToS(d, []);
    assert ToS(d) + [] == ToS(d);
  }

  /** A label short enough to be within the byte limit reduces to its date part when it is one. */
  lemma ShortLabelReduces(s: string)
    requires 4 * |s| <= LengthLimit && IsIsoLabel(s) && IsValid(DateFields(s))
    ensures Reduce(s) == Success(s[..10])
  {
    ReduceIsDatePrefix(s);
  }

  /** The bucket label of the request spec (`keywords_spec.rb`) reduces to its calendar date. */
  lemma ReduceSpecLabel()
    ensures Reduce("2019-08-22T00:00:00.000Z") == Success("2019-08-22")
  {
    assert Reduce("2019-08-22T00:00:00.000Z") == Success("2019-08-22T00:00:00.000Z"[..10]) by {
      SpecLabelShape();
      ShortLabelReduces("2019-08-22T00:00:00.000Z");
    }
    assert "2019-08-22T00:00:00.000Z"[..10] == "2019-08-22";
  }

  /** The bucket label of the request spec (`keywords_spec.rb`) is an ISO label naming 22 August 2019. */
  lemma SpecLabelShape()
    ensures IsIsoLabel("2019-08-22T00:00:00.000Z")
    ensures DateFields("2019-08-22T00:00:00.000Z") == Date(2019, 8, 22)
  {
    var s := "2019-08-22T00:00:00.000Z";
    assert s[10..] == "T00:00:00.000Z";
    MillisecondUtcSuffix();
  }

  /** 22 August 2019 prints as `2019-08-22`. */
  lemma SpecDate()
    ensures IsValid(Date(2019, 8, 22)) && ToS(Date(2019, 8, 22)) == "2019-08-22"
  {
    assert Pad4(2019) == "2019" by { assert Pad2(20) == "20" && Pad2(19) == "19"; }
    assert Pad2(8) == "08" && Pad2(22) == "22";
  }

  /** The suffix Elasticsearch writes after the date of a day bucket is a time of day. */
  lemma MillisecondUtcSuffix()
    ensures IsTimeSuffix("T00:00:00.000Z")
  {
    assert "T00:00:00.000Z"[9..] == ".000Z";
    assert IsDigitsThenZone("Z");
    assert IsDigitsThenZone("0Z");
    assert IsDigitsThenZone("00Z");
    assert IsFractionThenZone(".000Z") by { assert ".000Z"[2..] == "00Z"; }
  }

  /** A zone offset does not shift the date: only the written date counts. */
  lemma ReduceIgnoresZone()
    ensures Reduce("2019-08-22T23:30:00-05:00") == Success("2019-08-22")
  {
    assert Reduce("2019-08-22T23:30:00-05:00") == Success("2019-08-22T23:30:00-05:00"[..10]) by {
      ZoneLabelShape();
      ShortLabelReduces("2019-08-22T23:30:00-05:00");
    }
    assert "2019-08-22T23:30:00-05:00"[..10] == "2019-08-22";
  }

  /** A label with a negative offset is an ISO label naming 22 August 2019. */
  lemma ZoneLabelShape()
    ensures IsIsoLabel("2019-08-22T23:30:00-05:00")
    ensures DateFields("2019-08-22T23:30:00-05:00") == Date(2019, 8, 22)
  {
    var s := "2019-08-22T23:30:00-05:00";
    assert s[10..][9..] == "-05:00";
    assert IsZone("-05:00");
    assert IsTimeSuffix(s[10..]);
  }

  /** `n` copies of the character `c`. */
  function Repeat(c: char, n: nat): (s: string)
    ensures |s| == n && forall i :: 0 <= i < n ==> s[i] == c
  {
    if n == 0 then [] else [c] + Repeat(c, n - 1)
  }

  /** A time of day with a fraction of `n + 1` zero digits, in UTC. */
  lemma LongFractionSuffix(n: nat)
    ensures IsTimeSuffix("T00:00:00." + Repeat('0', n + 1) + "Z")
  {
    var zeros := Repeat('0', n + 1);
    var t := "T00:00:00." + zeros + "Z";
    assert t[9..] == "." + zeros + "Z";
    assert ("." + zeros + "Z")[2..] == zeros[1..] + "Z";
    DigitsThenZone(zeros[1..], "Z");
  }

  /**
   * A well-formed label over the length limit raises `ArgumentError`
   * even though it names an existing date: here a fraction of 120 digits
   * makes the label 141 characters, and so 141 bytes, long.
   */
  lemma ReduceRejectsLongLabel()
    ensures var long := "2019-08-22" + "T00:00:00." + Repeat('0', 120) + "Z";
      && |long| == 141 && ByteLength(long) == 141 && IsIsoLabel(long) && IsValid(DateFields(long))
      && Reduce(long) == Failure(TooLong(141))
  {
    var suffix := "T00:00:00." + Repeat('0', 120) + "Z";
    LongFractionSuffix(119);
    SpecDate();
    FieldsOfToS(Date(2019, 8, 22), suffix);
    assert "2019-08-22" + "T00:00:00." + Repeat('0', 120) + "Z" == "2019-08-22" + suffix;
    LongLabelBytes();
  }

  /** The long label is all ASCII, so its byte count is its length. */
  lemma LongLabelBytes()
    ensures ByteLength("2019-08-22" + "T00:00:00." + Repeat('0', 120) + "Z") == 141
  {
    var head, zeros := "2019-08-22" + "T00:00:00.", Repeat('0', 120);
    assert IsAscii(head);
    assert IsAscii(zeros + "Z") by { assert forall i :: 0 <= i < 120 ==> (zeros + "Z")[i] == zeros[i]; }
    AsciiAppend(head, zeros + "Z");
    assert head + (zeros + "Z") == "2019-08-22" + "T00:00:00." + Repeat('0', 120) + "Z";
    AsciiByteLength(head + (zeros + "Z"));
  }

  /** Every character of `s` is ASCII. */
  predicate IsAscii(s: string)
  {
    forall i :: 0 <= i < |s| ==> s[i] as int < 0x80
  }

  lemma AsciiAppend(a: string, b: string)
    requires IsAscii(a) && IsAscii(b)
    ensures IsAscii(a + b)
  {
    assert forall i :: |a| <= i < |a + b| ==> (a + b)[i] == b[i - |a|];
  }

  /** Counting from position `i` of `s` is counting from position `i - 1` of its tail. */
  lemma {:induction false} BytesFromTail(s: string, i: nat)
    requires 1 <= i <= |s|
    ensures BytesFrom(s, i) == BytesFrom(s[1..], i - 1)
    decreases |s| - i
  {
    if i < |s| {
      assert s[1..][i - 1] == s[i];
      BytesFromTail(s, i + 1);
    }
  }

  /** The bytes of a non-empty string: its first character's, then the rest's. */
  lemma ByteLengthCons(s: string)
    requires s != []
    ensures ByteLength(s) == CharBytes(s[0]) + ByteLength(s[1..])
  {
    BytesFromTail(s, 1);
  }

  /** The byte count of a concatenation is the sum of the parts' byte counts. */
  lemma {:induction false} ByteLengthAppend(a: string, b: string)
    ensures ByteLength(a + b) == ByteLength(a) + ByteLength(b)
    decreases |a|
  {
    if a == [] {
      assert a + b == b;
    } else {
      assert (a + b)[0] == a[0] && (a + b)[1..] == a[1..] + b;
      ByteLengthCons(a + b);
      ByteLengthCons(a);
      ByteLengthAppend(a[1..], b);
    }
  }

  /** An ASCII string has one byte per character. */
  lemma {:induction false} AsciiByteLength(s: string)
    requires IsAscii(s)
    ensures ByteLength(s) == |s|
    decreases |s|
  {
    if s != [] {
      ByteLengthCons(s);
      AsciiByteLength(s[1..]);
    }
  }

  /** `n` copies of one character take `n` times its bytes. */
  lemma {:induction false} ByteLengthRepeat(c: char, n: nat)
    ensures ByteLength(Repeat(c, n)) == n * CharBytes(c)
  {
    if n > 0 {
      assert Repeat(c, n)[1..] == Repeat(c, n - 1);
      ByteLengthCons(Repeat(c, n));
      ByteLengthRepeat(c, n - 1);
    }
  }

  /**
   * The limit counts bytes, not characters: 65 copies of `é` are 65
   * characters but 130 bytes, so `Date.parse` raises the length error and
   * reports 130.
   */
  lemma ReduceRejectsMultibyteLabel()
    ensures |Repeat('\U{E9}', 65)| == 65 <= LengthLimit
    ensures Reduce(Repeat('\U{E9}', 65)) == Failure(TooLong(130))
  {
    ByteLengthRepeat('\U{E9}', 65);
  }

  /** A run of digits followed by a zone is a fraction's tail. */
  lemma {:induction false} DigitsThenZone(digits: string, zone: string)
    requires forall i :: 0 <= i < |digits| ==> IsDigit(digits[i])
    requires IsZone(zone)
    ensures IsDigitsThenZone(digits + zone)
    decreases |digits|
  {
    if digits == [] {
      assert digits + zone == zone;
    } else {
      assert (digits + zone)[1..] == digits[1..] + zone;
      DigitsThenZone(digits[1..], zone);
    }
  }

  /** 29 February exists in 2020 (Gregorian) and in 1500 (Julian, before the reform). */
  lemma ReduceLeapDayKept()
    ensures Reduce("2020-02-29") == Success("2020-02-29")
    ensures Reduce("1500-02-29") == Success("1500-02-29")
  {
    LeapDayKept("2020-02-29");
    LeapDayKept("1500-02-29");
  }

  lemma LeapDayKept(s: string)
    requires s == "2020-02-29" || s == "1500-02-29"
    ensures Reduce(s) == Success(s)
  {
    assert s[10..] == [] && s[..10] == s;
    assert DateFields(s) == Date(if s[0] == '2' then 2020 else 1500, 2, 29);
    ShortLabelReduces(s);
  }

  /** 29 February does not exist in 2019, a common year. */
  lemma ReduceLeapDayRejected()
    ensures Reduce("2019-02-29T00:00:00.000Z") == Failure(NotADate)
  {
    var s := "2019-02-29T00:00:00.000Z";
    assert HasDateShape(s);
    assert DateFields(s) == Date(2019, 2, 29);
    NotADateLabel(s, Date(2019, 2, 29));
  }

  /** 29 February does not exist in 1900: the Gregorian rule skips centuries not divisible by 400. */
  lemma ReduceCenturyLeapDayRejected()
    ensures Reduce("1900-02-29") == Failure(NotADate)
  {
    NotADateLabel("1900-02-29", Date(1900, 2, 29));
  }

  lemma NotADateLabel(s: string, d: Date)
    requires 4 * |s| <= LengthLimit && HasDateShape(s) && DateFields(s) == d && !IsValid(d)
    ensures Reduce(s) == Failure(NotADate)
  {
  }

  /** Days of the reform gap, month 13, day 32 and the empty string raise `Date::Error`. */
  lemma ReduceRejects()
    ensures Reduce("1582-10-10") == Failure(NotADate)
    ensures Reduce("2019-13-01") == Failure(NotADate)
    ensures Reduce("2019-08-32") == Failure(NotADate)
    ensures Reduce("") == Failure(NotADate)
  {
    NotADateLabel("1582-10-10", Date(1582, 10, 10));
    NotADateLabel("2019-13-01", Date(2019, 13, 1));
    NotADateLabel("2019-08-32", Date(2019, 8, 32));
  }
}
