/**
 * The GAR (General Aviation Report) as the workflow API returns it from GET /WF/GARs/{uuid}/summary,
 * the structured validation errors the wizard keeps in the session, and the ISO-8601 date-time
 * strings the API exchanges, read the way moment reads them.
 */
module GarModel {
  import opened Common

  /** A latitude/longitude pair; a coordinate the API sends as null is None. */
  datatype Point = Point(latitude: Option<string>, longitude: Option<string>)

  /** One leg end of the flight: leg 0 is the departure, leg 1 the arrival. */
  datatype Location = Location(
    legNum: Option<int>,
    datetime: Option<string>,
    icao: Option<string>,
    iata: Option<string>,
    point: Option<Point>)

  datatype ResponsiblePerson = ResponsiblePerson(
    rtype: Option<string>, name: Option<string>, contactNumber: Option<string>)

  datatype Attributes = Attributes(
    hazardous: Option<bool>, responsiblePerson: Option<ResponsiblePerson>)

  /** A person on the GAR; `details` maps API detail names (given_name, dob, ...) to their values. */
  datatype Person = Person(
    personUuid: Option<string>, ptype: Option<string>, details: Option<map<string, Scalar>>)

  datatype People = People(
    captain: Option<Person>, crew: Option<seq<Person>>, passengers: Option<seq<Person>>)

  datatype GarFile = GarFile(
    fileUuid: Option<string>, fileName: Option<string>, fileStatus: Option<string>)

  datatype Submission = Submission(status: Option<string>, reason: Option<string>)

  /** The GAR summary; the aircraft is a record of registration, type, base and taxesPaid. */
  datatype GarSummary = GarSummary(
    garUuid: Option<string>,
    aircraft: Option<map<string, Scalar>>,
    location: Option<seq<Option<Location>>>,
    people: Option<People>,
    attributes: Option<Attributes>,
    files: Option<seq<GarFile>>,
    submission: Option<Submission>)

  /** A pre-submission error; `id` tells apart people and files sharing a field name. */
  datatype ValidationError = ValidationError(
    field: string, heading: string, message: string, id: Option<seq<Option<string>>>)

  /** What the session's garErrors holds: the validation list or a submission/cancellation reason. */
  datatype GarErrors = Validation(validation: seq<ValidationError>) | Reason(reason: string)

  /** The element at index i of a JavaScript array, undefined past its end. */
  function At<T>(s: seq<Option<T>>, i: nat): (r: Option<T>)
    ensures i < |s| ==> r == s[i]
    ensures i >= |s| ==> r.None?
  {
    if i < |s| then s[i] else None
  }

  predicate IsDigit(c: char) { '0' <= c <= '9' }

  function DigitValue(c: char): nat
    requires IsDigit(c)
  {
    c as int - '0' as int
  }

  /** The number written by a run of decimal digits. */
  function DigitsValue(s: string): nat
    requires forall k :: 0 <= k < |s| ==> IsDigit(s[k])
  {
    if s == [] then 0 else DigitsValue(s[..|s| - 1]) * 10 + DigitValue(s[|s| - 1])
  }

  predicate AllDigits(s: string)
  {
    forall k :: 0 <= k < |s| ==> IsDigit(s[k])
  }

  function Pow10(w: nat): (r: nat)
    ensures r >= 1
  {
    if w == 0 then 1 else 10 * Pow10(w - 1)
  }

  /** The last w decimal digits of n, with leading zeros. */
  function FixedDigits(n: nat, w: nat): (r: string)
    ensures |r| == w
  {
    if w == 0 then [] else FixedDigits(n / 10, w - 1) + [DigitChar(n % 10)]
  }

  /** A run of w digits reads as a number below 10^w. */
  lemma {:induction false} DigitsValueBound(t: string)
    requires AllDigits(t)
    ensures DigitsValue(t) < Pow10(|t|)
  {
    if t != [] {
      var init := t[..|t| - 1];
      assert AllDigits(init);
      DigitsValueBound(init);
      assert DigitsValue(t) == DigitsValue(init) * 10 + DigitValue(t[|t| - 1]);
    }
  }

  /** Reading a run of digits and writing the number back with as many digits gives the run. */
  lemma {:induction false} FixedDigitsOfValue(t: string)
    requires AllDigits(t)
    ensures FixedDigits(DigitsValue(t), |t|) == t
  {
    if t != [] {
      var init := t[..|t| - 1];
      assert AllDigits(init);
      FixedDigitsOfValue(init);
      var v := DigitsValue(t);
      var d := DigitValue(t[|t| - 1]);
      assert v == DigitsValue(init) * 10 + d;
      assert v / 10 == DigitsValue(init) && v % 10 == d;
      assert DigitChar(d) == t[|t| - 1];
      assert t == init + [t[|t| - 1]];
    }
  }

  lemma {:induction false} FixedDigitsOfZero(w: nat)
    ensures FixedDigits(0, w) == seq(w, _ => '0')
  {
    if w > 0 {
      FixedDigitsOfZero(w - 1);
    }
  }

  /** Padding a text one character longer to one more place keeps the padding in front. */
  lemma PadStartAppend(s: string, c: char, w: nat)
    requires |s| < w
    ensures PadStart(s + [c], w, '0') == PadStart(s, w - 1, '0') + [c]
  {
    assert seq(w - |s + [c]|, _ => '0') == seq(w - 1 - |s|, _ => '0');
  }

  /** Below 10^w, moment's zero-padded w-digit token is the number's last w digits. */
  lemma {:induction false} PaddedIsFixed(n: nat, w: nat)
    requires 1 <= w && n < Pow10(w)
    ensures Digits(n, w) == FixedDigits(n, w)
  {
    if n < 10 {
      FixedDigitsOfZero(w - 1);
      assert NatToString(n) == [DigitChar(n)];
      assert FixedDigits(n, w) == FixedDigits(0, w - 1) + [DigitChar(n)];
    } else {
      assert w >= 2;
      var m := n / 10;
      var c := DigitChar(n % 10);
      PaddedIsFixed(m, w - 1);
      var s := NatToString(m);
      assert NatToString(n) == s + [c];
      assert |s| <= |Digits(m, w - 1)| == w - 1;
      PadStartAppend(s, c, w);
      assert FixedDigits(n, w) == FixedDigits(m, w - 1) + [c];
    }
  }

  /** A run of digits read and printed back with as many digits is the run itself. */
  lemma DigitsRoundTrip(t: string)
    requires 1 <= |t| && AllDigits(t)
    ensures Digits(DigitsValue(t), |t|) == t
  {
    DigitsValueBound(t);
    PaddedIsFixed(DigitsValue(t), |t|);
    FixedDigitsOfValue(t);
  }

  /**
   * moment's reading of an ISO-8601 string 'YYYY-MM-DDTHH:MM:SS' with an optional trailing 'Z';
   * None stands for moment's invalid date, which a string of that form with a field out of
   * range (month 13, 31 June, 29 February of a common year, hour 24, second 60) also gives.
   */
  function ParseIso(s: string): (r: Option<DateTime>)
    ensures r.Some? ==> |s| >= 19 && s[4] == '-' && s[10] == 'T'
    ensures r.Some? ==> r.value.Valid()
  {
    if (|s| == 19 || (|s| == 20 && s[19] == 'Z'))
      && AllDigits(s[0..4]) && s[4] == '-' && AllDigits(s[5..7]) && s[7] == '-' && AllDigits(s[8..10])
      && s[10] == 'T' && AllDigits(s[11..13]) && s[13] == ':' && AllDigits(s[14..16]) && s[16] == ':'
      && AllDigits(s[17..19])
    then
      var t := DateTime(DigitsValue(s[0..4]), DigitsValue(s[5..7]), DigitsValue(s[8..10]),
                        DigitsValue(s[11..13]), DigitsValue(s[14..16]), DigitsValue(s[17..19]));
      if t.Valid() then Some(t) else None
    else None
  }

  /** Two digits read as their value. */
  lemma TwoDigitsValue(a: char, b: char)
    requires IsDigit(a) && IsDigit(b)
    ensures DigitsValue([a, b]) == DigitValue(a) * 10 + DigitValue(b)
  {
    assert [a, b][..1] == [a];
    assert [a][..0] == [];
    assert DigitsValue([a]) == DigitValue(a);
  }

  /** Four digits read as their value. */
  lemma FourDigitsValue(a: char, b: char, c: char, d: char)
    requires IsDigit(a) && IsDigit(b) && IsDigit(c) && IsDigit(d)
    ensures DigitsValue([a, b, c, d]) == DigitValue(a) * 1000 + DigitValue(b) * 100 + DigitValue(c) * 10 + DigitValue(d)
  {
    assert [a, b, c, d][..3] == [a, b, c];
    assert [a, b, c][..2] == [a, b];
    TwoDigitsValue(a, b);
  }

  /** A date-time of the right form is read exactly when its fields are in range. */
  lemma ReadsInRange(s: string, year: nat, month: nat, day: nat, hour: nat, minute: nat, second: nat)
    requires |s| == 19 && s[4] == '-' && s[7] == '-' && s[10] == 'T' && s[13] == ':' && s[16] == ':'
    requires forall k :: 0 <= k < 19 && k != 4 && k != 7 && k != 10 && k != 13 && k != 16 ==> IsDigit(s[k])
    requires year == DigitValue(s[0]) * 1000 + DigitValue(s[1]) * 100 + DigitValue(s[2]) * 10 + DigitValue(s[3])
    requires month == DigitValue(s[5]) * 10 + DigitValue(s[6]) && day == DigitValue(s[8]) * 10 + DigitValue(s[9])
    requires hour == DigitValue(s[11]) * 10 + DigitValue(s[12]) && minute == DigitValue(s[14]) * 10 + DigitValue(s[15])
    requires second == DigitValue(s[17]) * 10 + DigitValue(s[18])
    ensures ParseIso(s).Some? <==> DateTime(year, month, day, hour, minute, second).Valid()
  {
    assert s[0..4] == [s[0], s[1], s[2], s[3]];
    assert s[5..7] == [s[5], s[6]] && s[8..10] == [s[8], s[9]];
    assert s[11..13] == [s[11], s[12]] && s[14..16] == [s[14], s[15]] && s[17..19] == [s[17], s[18]];
    FourDigitsValue(s[0], s[1], s[2], s[3]);
    TwoDigitsValue(s[5], s[6]);
    TwoDigitsValue(s[8], s[9]);
    TwoDigitsValue(s[11], s[12]);
    TwoDigitsValue(s[14], s[15]);
    TwoDigitsValue(s[17], s[18]);
  }

  /** Month 13 is out of range: moment reads an invalid date. */
  lemma MonthThirteenIsInvalid()
    ensures ParseIso("2020-13-01T10:00:00").None?
  {
    ReadsInRange("2020-13-01T10:00:00", 2020, 13, 1, 10, 0, 0);
  }

  /** 31 June is out of range: moment reads an invalid date. */
  lemma JuneThirtyFirstIsInvalid()
    ensures ParseIso("2020-06-31T10:00:00").None?
  {
    ReadsInRange("2020-06-31T10:00:00", 2020, 6, 31, 10, 0, 0);
  }

  /** 29 February is read in the leap year 2020. */
  lemma LeapDayRead()
    ensures ParseIso("2020-02-29T10:00:00").Some?
  {
    assert IsLeapYear(2020);
    ReadsInRange("2020-02-29T10:00:00", 2020, 2, 29, 10, 0, 0);
  }

  /** 29 February of 1900, which is not a leap year, is out of range: moment reads an invalid date. */
  lemma CommonYearLeapDayIsInvalid()
    ensures ParseIso("1900-02-29T10:00:00").None?
  {
    assert !IsLeapYear(1900);
    ReadsInRange("1900-02-29T10:00:00", 1900, 2, 29, 10, 0, 0);
  }

  /** The day, month and year moment reads from a date-time print back, zero-padded, as the digits they were read from. */
  lemma ParseIsoDateRoundTrip(s: string)
    requires ParseIso(s).Some?
    ensures var t := ParseIso(s).value;
      Digits(t.year, 4) == s[0..4] && Digits(t.month, 2) == s[5..7] && Digits(t.day, 2) == s[8..10]
  {
    var t := ParseIso(s).value;
    assert t.year == DigitsValue(s[0..4]) && t.month == DigitsValue(s[5..7]) && t.day == DigitsValue(s[8..10]);
    DigitsRoundTrip(s[0..4]);
    DigitsRoundTrip(s[5..7]);
    DigitsRoundTrip(s[8..10]);
  }

  /** The hour, minute and second moment reads from a date-time print back as the digits they were read from. */
  lemma ParseIsoTimeRoundTrip(s: string)
    requires ParseIso(s).Some?
    ensures var t := ParseIso(s).value;
      Digits(t.hour, 2) == s[11..13] && Digits(t.minute, 2) == s[14..16] && Digits(t.second, 2) == s[17..19]
  {
    var t := ParseIso(s).value;
    assert t.hour == DigitsValue(s[11..13]) && t.minute == DigitsValue(s[14..16]) && t.second == DigitsValue(s[17..19]);
    DigitsRoundTrip(s[11..13]);
    DigitsRoundTrip(s[14..16]);
    DigitsRoundTrip(s[17..19]);
  }

  /**
   * moment(s).format('DD<sep>MM<sep>YYYY'); moment prints 'Invalid date' for an unreadable string.
   * A readable date-time shows its own day, month and year digits, in that order.
   */
  function FormatDate(s: string, sep: string): (r: string)
    ensures ParseIso(s).None? ==> r == "Invalid date"
    ensures ParseIso(s).Some? ==> r == s[8..10] + sep + s[5..7] + sep + s[0..4]
  {
    var t := ParseIso(s);
    if t.None? then "Invalid date"
    else
      ParseIsoDateRoundTrip(s);
      Digits(t.value.day, 2) + sep + Digits(t.value.month, 2) + sep + Digits(t.value.year, 4)
  }

  /** moment(s).format('HH<sep>mm'): a readable date-time shows its own hour and minute digits. */
  function FormatTime(s: string, sep: string): (r: string)
    ensures ParseIso(s).None? ==> r == "Invalid date"
    ensures ParseIso(s).Some? ==> r == s[11..13] + sep + s[14..16]
  {
    var t := ParseIso(s);
    if t.None? then "Invalid date"
    else
      ParseIsoTimeRoundTrip(s);
      Digits(t.value.hour, 2) + sep + Digits(t.value.minute, 2)
  }

  /** moment's reading of a calendar date 'YYYY-MM-DD' (midnight), or else of a full date-time. */
  function ParseDay(s: string): (r: Option<DateTime>)
    ensures r.Some? ==> |s| >= 10 && s[4] == '-'
    ensures r.Some? ==> r.value.Valid()
  {
    if |s| == 10 && AllDigits(s[0..4]) && s[4] == '-' && AllDigits(s[5..7]) && s[7] == '-' && AllDigits(s[8..10])
    then
      var t := DateTime(DigitsValue(s[0..4]), DigitsValue(s[5..7]), DigitsValue(s[8..10]), 0, 0, 0);
      if t.Valid() then Some(t) else None
    else ParseIso(s)
  }

  /**
   * A calendar date reads as midnight, and the day, month and year moment reads print back as
   * the digits they were read from.
   */
  lemma ParseDayRoundTrip(s: string)
    requires ParseDay(s).Some?
    ensures var t := ParseDay(s).value;
      Digits(t.year, 4) == s[0..4] && Digits(t.month, 2) == s[5..7] && Digits(t.day, 2) == s[8..10]
    ensures |s| == 10 ==> var t := ParseDay(s).value; t.hour == 0 && t.minute == 0 && t.second == 0
  {
    var t := ParseDay(s).value;
    if |s| == 10 && AllDigits(s[0..4]) && s[4] == '-' && AllDigits(s[5..7]) && s[7] == '-' && AllDigits(s[8..10]) {
      assert t == DateTime(DigitsValue(s[0..4]), DigitsValue(s[5..7]), DigitsValue(s[8..10]), 0, 0, 0);
      DigitsRoundTrip(s[0..4]);
      DigitsRoundTrip(s[5..7]);
      DigitsRoundTrip(s[8..10]);
    } else {
      assert ParseDay(s) == ParseIso(s);
      assert |s| != 10;
      ParseIsoDateRoundTrip(s);
    }
  }

  /**
   * moment(s).format('DD MM YYYY') for a date of birth or a document expiry date: a readable date
   * shows its own day, month and year digits, in that order.
   */
  function FormatDay(s: string): (r: string)
    ensures r != ""
    ensures ParseDay(s).None? ==> r == "Invalid date"
    ensures ParseDay(s).Some? ==> r == s[8..10] + " " + s[5..7] + " " + s[0..4]
  {
    var t := ParseDay(s);
    if t.None? then "Invalid date"
    else
      ParseDayRoundTrip(s);
      Digits(t.value.day, 2) + " " + Digits(t.value.month, 2) + " " + Digits(t.value.year, 4)
  }
}
