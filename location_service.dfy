/**
 * The location service: the encoder that turns the departure or arrival page's form values into
 * the body posted to the workflow API, and the decoder that picks one leg out of the GAR's
 * locations and turns it back into form values. An unset date is posted as 1900-01-01 and an
 * unset time as 00:00:59; the decoder reads those sentinels back as empty.
 */
module LocationService {
  import opened Common
  import opened GarModel

  /** The two leg pages; leg_num 0 is the departure and leg_num 1 the arrival. */
  datatype Leg = Departure | Arrival

  function LegNumber(leg: Leg): (n: int)
    ensures n == 0 <==> leg == Departure
    ensures n == 1 <==> leg == Arrival
  {
    match leg
    case Departure => 0
    case Arrival => 1
  }

  /** The fields of a departure or arrival page; the field `f` of the page for leg `l` is egar-<l>-<FieldName(f)>. */
  datatype LegField =
    | Date | Time | DateDay | DateMonth | DateYear | Icao | Iata | IcaoAutocomplete | IataAutocomplete
    | Latitude | Longitude | NoIcao | Choice

  function FieldName(f: LegField): string
  {
    match f
    case Date => "date"
    case Time => "time"
    case DateDay => "date-day"
    case DateMonth => "date-month"
    case DateYear => "date-year"
    case Icao => "icao"
    case Iata => "iata"
    case IcaoAutocomplete => "icao-autocomplete"
    case IataAutocomplete => "iata-autocomplete"
    case Latitude => "latitude"
    case Longitude => "longitude"
    case NoIcao => "no-icao"
    case Choice => "location"
  }

  /** A key of a leg page's posted body or form values: one of the page's own fields, or any other key. */
  datatype FormKey = Own(field: LegField) | Foreign(key: string)

  /**
   * The form values of one leg page, egar-<leg>-<name> for each name below; a nil field is an
   * unset (or undefined) value.
   */
  datatype LocationForm = LocationForm(
    date: Option<string>,
    time: Option<string>,
    icao: Option<string>,
    iata: Option<string>,
    latitude: Option<string>,
    longitude: Option<string>,
    noIcao: Option<string>,
    choice: Option<string>)   // egar-<leg>-location: 'iata' or 'lat-long'

  const EmptyForm := LocationForm(None, None, None, None, None, None, None, None)

  /**
   * The raw request body fields the encoder reads: the two autocomplete inputs (a key that is
   * present with an empty value is Some("")) and the coordinates as typed.
   */
  datatype RawLocation = RawLocation(
    icaoAutocomplete: Option<string>,
    iataAutocomplete: Option<string>,
    latitude: Option<string>,
    longitude: Option<string>)

  /** The body posted for a leg. */
  datatype LocationBody = LocationBody(
    datetime: Option<string>,
    icao: Slot<string>,
    iata: Slot<string>,
    point: Slot<Point>)

  const SentinelDate := "1900-01-01"
  const SentinelTime := "00:00:59"

  /** `x && x.length > 0 ? x : null` */
  function NonEmptyOrNull(x: Option<string>): (r: Slot<string>)
    ensures r != Absent
    ensures r.Val? <==> Truthy(x)
    ensures r.Val? ==> r.v == x.value
  {
    if Truthy(x) then Val(x.value) else Null
  }

  /**
   * The datetime posted for a date and a time: each missing part is replaced by its sentinel,
   * and when both are missing no datetime is sent at all.
   */
  function EncodeDatetime(date: Option<string>, time: Option<string>): (r: Option<string>)
    ensures r.None? <==> OrElse(date, SentinelDate) == SentinelDate && OrElse(time, SentinelTime) == SentinelTime
    ensures r.Some? ==> r.value == OrElse(date, SentinelDate) + "T" + OrElse(time, SentinelTime) + "Z"
  {
    var datetime := OrElse(date, SentinelDate) + "T" + OrElse(time, SentinelTime) + "Z";
    if datetime == SentinelDate + "T" + SentinelTime + "Z" then
      SentinelParts(OrElse(date, SentinelDate), OrElse(time, SentinelTime));
      None
    else Some(datetime)
  }

  /** The sentinel datetime has one 'T', so only the two sentinels make it up. */
  lemma SentinelParts(d: string, t: string)
    requires d + "T" + t + "Z" == SentinelDate + "T" + SentinelTime + "Z"
    ensures d == SentinelDate && t == SentinelTime
  {
    var s := d + "T" + t + "Z";
    assert s[|d|] == 'T';
    assert forall k :: 0 <= k < |s| && k != 10 ==> s[k] != 'T';
    assert s[..10] == d;
    assert s[11..19] == t;
  }

  /**
   * The date and time form values for an API datetime: the text before and after the 'T' once
   * the 'Z' is dropped, with each sentinel read as empty. A datetime without a 'T' has no time.
   */
  function DecodeDatetime(datetime: string): (r: (Option<string>, Option<string>))
    ensures r.0.Some?
    ensures r.0.value != SentinelDate
    ensures r.1.Some? ==> r.1.value != SentinelTime
  {
    var parts := Split(ReplaceFirst(datetime, "Z", ""), "T");
    (Some(if parts[0] == SentinelDate then "" else parts[0]),
     if |parts| > 1 then Some(if parts[1] == SentinelTime then "" else parts[1]) else None)
  }

  /** A string that contains neither of the separators 'T' and 'Z' of an ISO datetime. */
  predicate Unmarked(s: string)
  {
    'T' !in s && 'Z' !in s
  }

  /** A character that does not occur in a string is not found by indexOf. */
  lemma IndexOfAbsent(s: string, c: char)
    requires c !in s
    ensures IndexOf(s, [c]) == -1
  {
    forall j ensures !OccursAt(s, [c], j) {
      if 0 <= j && j + 1 <= |s| {
        assert s[j..j + 1] == [s[j]];
      }
    }
  }

  /** indexOf a character finds it right after a prefix that lacks it. */
  lemma IndexOfAfter(a: string, c: char, b: string)
    requires c !in a
    ensures IndexOf(a + [c] + b, [c]) == |a|
  {
    var s := a + [c] + b;
    assert s[|a|..|a| + 1] == [c];
    assert OccursAt(s, [c], |a|);
    var i := IndexOf(s, [c]);
    assert s[i..i + 1] == [c];
    assert s[i] == c;
  }

  /** Splitting on a character that occurs exactly once gives the two sides. */
  lemma SplitOnce(a: string, c: char, b: string)
    requires c !in a && c !in b
    ensures Split(a + [c] + b, [c]) == [a, b]
  {
    var s := a + [c] + b;
    IndexOfAfter(a, c, b);
    IndexOfAbsent(b, c);
    assert s[..|a|] == a;
    assert s[|a| + 1..] == b;
  }

  /**
   * Round trip of the date and time: encoding unmarked parts and decoding the result gives each
   * part back, a missing part and a part equal to its sentinel reading back as empty.
   */
  lemma DatetimeRoundTrip(date: Option<string>, time: Option<string>)
    requires date.Some? ==> Unmarked(date.value)
    requires time.Some? ==> Unmarked(time.value)
    requires EncodeDatetime(date, time).Some?
    ensures DecodeDatetime(EncodeDatetime(date, time).value)
      == (Some(if Truthy(date) && date.value != SentinelDate then date.value else ""),
          Some(if Truthy(time) && time.value != SentinelTime then time.value else ""))
  {
    var d := OrElse(date, SentinelDate);
    var t := OrElse(time, SentinelTime);
    assert Unmarked(d) && Unmarked(t);
    var inner := d + "T" + t;
    assert EncodeDatetime(date, time).value == inner + "Z";
    IndexOfAfter(inner, 'Z', "");
    assert inner + "Z" == inner + ['Z'] + "";
    assert ReplaceFirst(inner + "Z", "Z", "") == inner;
    SplitOnce(d, 'T', t);
    assert inner == d + ['T'] + t;
  }

  /**
   * The body getLocationBody builds. The datetime is always sent. ICAO takes precedence over
   * IATA, which takes precedence over a point: the chosen place is sent (the autocomplete value
   * when its key was posted, an empty code as null) and the other two as null. With no place
   * the body holds only the datetime.
   */
  function BodyOf(form: LocationForm, raw: RawLocation): (b: LocationBody)
    ensures b.datetime == EncodeDatetime(form.date, form.time)
    ensures (b.icao.Absent? && b.iata.Absent? && b.point.Absent?) <==>
      !Truthy(form.icao) && !Truthy(form.iata) && !Truthy(form.latitude) && !Truthy(form.longitude)
    ensures (b.icao.Absent? || b.iata.Absent? || b.point.Absent?) ==> b.icao.Absent? && b.iata.Absent? && b.point.Absent?
    ensures Truthy(form.icao) ==>
      b.icao == NonEmptyOrNull(if raw.icaoAutocomplete.Some? then raw.icaoAutocomplete else form.icao)
      && b.iata == Null && b.point == Null
    ensures b.iata.Val? ==> !Truthy(form.icao) && b.icao == Null && b.point == Null
    ensures b.point.Val? ==>
      !Truthy(form.icao) && !Truthy(form.iata) && b.icao == Null && b.iata == Null
      && b.point.v == Point(OrNull(raw.latitude), OrNull(raw.longitude))
  {
    var datetime := EncodeDatetime(form.date, form.time);
    if Truthy(form.icao) then
      LocationBody(datetime, NonEmptyOrNull(if raw.icaoAutocomplete.Some? then raw.icaoAutocomplete else form.icao),
                   Null, Null)
    else if Truthy(form.iata) then
      LocationBody(datetime, Null,
                   NonEmptyOrNull(if raw.iataAutocomplete.Some? then raw.iataAutocomplete else form.iata), Null)
    else if Truthy(form.latitude) || Truthy(form.longitude) then
      LocationBody(datetime, Null, Null, Val(Point(OrNull(raw.latitude), OrNull(raw.longitude))))
    else
      LocationBody(datetime, Absent, Absent, Absent)
  }

  /** getLocationBody: builds the body key by key, as BodyOf describes. */
  method GetLocationBody(form: LocationForm, raw: RawLocation) returns (body: LocationBody)
    ensures body == BodyOf(form, raw)
  {
    var date := OrElse(form.date, SentinelDate);
    var time := OrElse(form.time, SentinelTime);
    var datetime := date + "T" + time + "Z";
    body := LocationBody(None, Absent, Absent, Absent);
    body := body.(datetime := if datetime == "1900-01-01T00:00:59Z" then None else Some(datetime));
    if Truthy(form.icao) {
      var icao := if raw.icaoAutocomplete.Some? then raw.icaoAutocomplete else form.icao;
      body := body.(icao := NonEmptyOrNull(icao));
      body := body.(point := Null);
      body := body.(iata := Null);
    } else if Truthy(form.iata) {
      var iata := if raw.iataAutocomplete.Some? then raw.iataAutocomplete else form.iata;
      body := body.(iata := NonEmptyOrNull(iata));
      body := body.(point := Null);
      body := body.(icao := Null);
    } else if Truthy(form.latitude) || Truthy(form.longitude) {
      body := body.(point := Val(Point(OrNull(raw.latitude), OrNull(raw.longitude))));
      body := body.(icao := Null);
      body := body.(iata := Null);
    }
  }

  /** The first location whose leg number is `legNum`; nil entries stand for null responses. */
  function FindLeg(responses: seq<Option<Location>>, legNum: int): (r: Option<Location>)
    ensures r.Some? ==> r.value.legNum == Some(legNum)
    ensures r.Some? ==>
      exists k :: (0 <= k < |responses| && responses[k] == r
        && forall j :: 0 <= j < k ==> !(responses[j].Some? && responses[j].value.legNum == Some(legNum)))
    ensures r.None? <==>
      forall k :: 0 <= k < |responses| ==> !(responses[k].Some? && responses[k].value.legNum == Some(legNum))
  {
    if |responses| == 0 then None
    else if responses[0].Some? && responses[0].value.legNum == Some(legNum) then
      assert responses[0] == responses[0];
      responses[0]
    else
      var r := FindLeg(responses[1..], legNum);
      assert forall k :: 1 <= k < |responses| ==> responses[k] == responses[1..][k - 1];
      if r.Some? then
        var k :| 0 <= k < |responses[1..]| && responses[1..][k] == r
          && forall j :: 0 <= j < k ==> !(responses[1..][j].Some? && responses[1..][j].value.legNum == Some(legNum));
        assert responses[k + 1] == r;
        r
      else r
  }

  /** The form values the decoder derives from a leg's details (no details: no values). */
  function FormValuesOf(details: Option<Location>): (f: LocationForm)
    ensures details.None? ==> f == EmptyForm
    ensures details.Some? ==> f.icao == details.value.icao
    ensures f.choice == Some("iata") <==> details.Some? && Truthy(details.value.iata)
    ensures f.choice == Some("iata") ==> f.iata == details.value.iata && f.noIcao == Some("no-icao")
    ensures f.choice == Some("lat-long") <==>
      details.Some? && !Truthy(details.value.iata) && details.value.point.Some?
      && (Truthy(details.value.point.value.latitude) || Truthy(details.value.point.value.longitude))
    ensures f.choice.None? ==> f.noIcao.None?
    ensures f.date.Some? <==> details.Some? && Truthy(details.value.datetime)
    ensures f.date.Some? ==> f.date.value != SentinelDate && (f.date, f.time) == DecodeDatetime(details.value.datetime.value)
  {
    if details.None? then EmptyForm
    else
      var d := details.value;
      var datetime := if Truthy(d.datetime) then DecodeDatetime(d.datetime.value) else (None, None);
      var pointSet := d.point.Some? && (Truthy(d.point.value.latitude) || Truthy(d.point.value.longitude));
      LocationForm(
        date := datetime.0,
        time := datetime.1,
        icao := d.icao,
        iata := if Truthy(d.iata) then d.iata else None,
        latitude := if d.point.Some? then d.point.value.latitude else None,
        longitude := if d.point.Some? then d.point.value.longitude else None,
        noIcao := if Truthy(d.iata) || pointSet then Some("no-icao") else None,
        choice := if Truthy(d.iata) then Some("iata") else if pointSet then Some("lat-long") else None)
  }

  /**
   * getLocationDetails: picks the departure (leg 0) or arrival (leg 1) from the GAR's locations
   * and fills in the form values one after another.
   */
  method GetLocationDetails(leg: Leg, responses: seq<Option<Location>>) returns (formValues: LocationForm)
    ensures formValues == FormValuesOf(FindLeg(responses, LegNumber(leg)))
  {
    var details := FindLeg(responses, LegNumber(leg));
    formValues := EmptyForm;
    if details.Some? {
      var d := details.value;
      if Truthy(d.datetime) {
        var parts := Split(ReplaceFirst(d.datetime.value, "Z", ""), "T");
        formValues := formValues.(date := Some(if parts[0] == SentinelDate then "" else parts[0]));
        formValues := formValues.(time := if |parts| > 1 then Some(if parts[1] == SentinelTime then "" else parts[1]) else None);
      }
      formValues := formValues.(icao := d.icao);
      if d.point.Some? {
        formValues := formValues.(latitude := d.point.value.latitude, longitude := d.point.value.longitude);
        if Truthy(formValues.latitude) || Truthy(formValues.longitude) {
          formValues := formValues.(noIcao := Some("no-icao"), choice := Some("lat-long"));
        }
      }
      if Truthy(d.iata) {
        formValues := formValues.(noIcao := Some("no-icao"), choice := Some("iata"), iata := d.iata);
      }
    }
  }

  /** postLocationDetails's endpoint: the arrival endpoint for the arrival, the departure endpoint otherwise. */
  function LegUrl(baseUrl: string, garUuid: string, leg: Leg): string
  {
    baseUrl + "/WF/GARs/" + garUuid + (if leg == Arrival then "/locations/arr/" else "/locations/dept/")
  }

  /** The leg the workflow API keeps for a posted body (a key left out or null is kept as nil). */
  function Stored(body: LocationBody, leg: Leg): Location
  {
    Location(Some(LegNumber(leg)), body.datetime,
             if body.icao.Val? then Some(body.icao.v) else None,
             if body.iata.Val? then Some(body.iata.v) else None,
             if body.point.Val? then Some(body.point.v) else None)
  }

  /**
   * Round trip through the API: posting a leg page and reading that leg back gives the user's
   * date and time (sentinels and missing parts as empty) and the place they chose, marked with
   * the radio choice the page shows for it.
   */
  lemma {:induction false} LocationRoundTrip(form: LocationForm, raw: RawLocation, leg: Leg, others: seq<Option<Location>>)
    requires form.date.Some? ==> Unmarked(form.date.value)
    requires form.time.Some? ==> Unmarked(form.time.value)
    requires raw.icaoAutocomplete.None? && raw.iataAutocomplete.None?
    ensures var back := FormValuesOf(FindLeg([Some(Stored(BodyOf(form, raw), leg))] + others, LegNumber(leg)));
      && (EncodeDatetime(form.date, form.time).Some? ==>
            back.date == Some(if Truthy(form.date) && form.date.value != SentinelDate then form.date.value else "")
            && back.time == Some(if Truthy(form.time) && form.time.value != SentinelTime then form.time.value else ""))
      && (EncodeDatetime(form.date, form.time).None? ==> back.date.None? && back.time.None?)
      && (Truthy(form.icao) ==> back.icao == form.icao && back.choice.None?)
      && (!Truthy(form.icao) && Truthy(form.iata) ==>
            back.icao.None? && back.iata == form.iata && back.choice == Some("iata"))
      && (!Truthy(form.icao) && !Truthy(form.iata) && (Truthy(form.latitude) || Truthy(form.longitude))
          && (Truthy(raw.latitude) || Truthy(raw.longitude)) ==>
            back.icao.None? && back.latitude == OrNull(raw.latitude) && back.longitude == OrNull(raw.longitude)
            && back.choice == Some("lat-long"))
  {
    var body := BodyOf(form, raw);
    var stored := Stored(body, leg);
    var responses := [Some(stored)] + others;
    assert responses[0] == Some(stored);
    assert FindLeg(responses, LegNumber(leg)) == Some(stored);
    if EncodeDatetime(form.date, form.time).Some? {
      DatetimeRoundTrip(form.date, form.time);
    }
  }
}
