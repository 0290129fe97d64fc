/**
 * The behaviour of the departure and arrival pages. The page key comes from the URL; configure
 * trims the typed date parts; process copies the autocomplete inputs into the code fields and
 * caches the posted form in the session; validate flags a past date and time, more than one
 * kind of place, and the ZZZZ code without another place; getValues restores the cached form
 * after a failed validation or reads the leg from the API; saveValues posts the leg.
 */
module LocationBehaviour {
  import opened Common
  import opened GarModel
  import opened Session
  import opened LocationService

  function LegName(leg: Leg): (s: string)
    ensures s == "departure" <==> leg == Departure
  {
    match leg
    case Departure => "departure"
    case Arrival => "arrival"
  }

  /**
   * getPageKey: the departure page when 'departure' occurs in the URL after its first
   * character, the arrival page otherwise.
   */
  function PageKey(url: string): (leg: Leg)
    ensures leg == Departure <==> IndexOf(url, "departure") > 0
  {
    if IndexOf(url, "departure") > 0 then Departure else Arrival
  }

  /** For a path (it starts with '/'), the page is the departure page iff the path names it. */
  lemma PathPageKey(rest: string)
    ensures PageKey("/" + rest) == Departure <==> Includes(rest, "departure")
  {
    var url := "/" + rest;
    forall j | 0 <= j ensures OccursAt(url, "departure", j + 1) <==> OccursAt(rest, "departure", j) {
      if 0 <= j && j + 1 + 9 <= |url| {
        assert url[j + 1..j + 1 + 9] == rest[j..j + 9];
      }
    }
    assert !OccursAt(url, "departure", 0) by {
      if 9 <= |url| {
        assert url[0..9][0] == '/';
      }
    }
    if Includes(rest, "departure") {
      var j := IndexOf(rest, "departure");
      assert OccursAt(url, "departure", j + 1);
    } else {
      forall j ensures !OccursAt(url, "departure", j) {
        if j >= 1 {
          assert !OccursAt(rest, "departure", j - 1);
        }
      }
    }
  }

  /** A URL that begins with 'departure' is read as the arrival page: the index must be > 0. */
  lemma LeadingDepartureIsArrival(rest: string)
    ensures PageKey("departure" + rest) == Arrival
  {
    assert OccursAt("departure" + rest, "departure", 0);
  }

  /** The text of a page's own field's key, egar-<leg>-<name>. */
  function KeyText(leg: Leg, f: LegField): string
  {
    "egar-" + LegName(leg) + "-" + FieldName(f)
  }

  /** The session key of the form cached for a page. */
  function CacheKey(leg: Leg): string
  {
    LegName(leg) + "-form"
  }

  /** A field of a page's form object, nil when it is unset. */
  function Value(m: map<FormKey, string>, f: LegField): (r: Option<string>)
    ensures r.Some? <==> Own(f) in m
    ensures r.Some? ==> r.value == m[Own(f)]
  {
    Lookup(m, Own(f))
  }

  /** The leg page's form values read as the record the location service works on. */
  function FormOf(values: map<FormKey, string>): LocationForm
  {
    LocationForm(Value(values, Date), Value(values, Time), Value(values, Icao), Value(values, Iata),
                 Value(values, Latitude), Value(values, Longitude), Value(values, NoIcao), Value(values, Choice))
  }

  /** The raw request body fields the location service reads. */
  function RawOf(body: map<FormKey, string>): RawLocation
  {
    RawLocation(Value(body, IcaoAutocomplete), Value(body, IataAutocomplete), Value(body, Latitude), Value(body, Longitude))
  }

  /** The text JavaScript gives a string that may be undefined inside a template literal. */
  function JsText(s: Option<string>): string
  {
    if s.Some? then s.value else "undefined"
  }

  /** moment(x).isBefore(moment.utc()) for a parsed moment: an invalid date is never before. */
  predicate Before(t: Option<DateTime>, now: int)
  {
    t.Some? && t.value.Epoch() < now
  }

  /**
   * The date check of validate: the date and time together are in the past, or the date alone
   * is and no time was given. moment(undefined) is the current instant, which is not before now.
   */
  predicate DatePassed(date: Option<string>, time: Option<string>, now: int)
  {
    Before(ParseIso(JsText(date) + "T" + JsText(time) + "Z"), now)
      || (date.Some? && Before(ParseDay(date.value), now) && !Truthy(time))
  }

  /** `lat || long` */
  function PointValue(latitude: Option<string>, longitude: Option<string>): (p: Option<string>)
    ensures Truthy(p) <==> Truthy(latitude) || Truthy(longitude)
  {
    if Truthy(latitude) then latitude else longitude
  }

  /** More than one kind of place was given, and the ICAO code is not the ZZZZ placeholder. */
  predicate Conflicting(icao: Option<string>, iata: Option<string>, point: Option<string>)
  {
    ((Truthy(icao) && Truthy(iata)) || (Truthy(icao) && Truthy(point)) || (Truthy(iata) && Truthy(point)))
      && icao != Some("ZZZZ")
  }

  /** The ZZZZ placeholder without an IATA code or a point. */
  predicate BarePlaceholder(icao: Option<string>, iata: Option<string>, point: Option<string>)
  {
    icao == Some("ZZZZ") && !Truthy(iata) && !Truthy(point)
  }

  /** The placeholder never counts as a conflict, so its error never meets a location error. */
  lemma PlaceholderExcludesConflict(icao: Option<string>, iata: Option<string>, point: Option<string>)
    ensures !(Conflicting(icao, iata, point) && BarePlaceholder(icao, iata, point))
  {
  }

  /** The values getValues passes on: the cached form from the session, or the leg read from the API. */
  datatype PageValues = FromSession(cached: Option<SessionValue>) | FromApi(form: LocationForm)

  /** Storing the three date parts sets exactly those three fields. */
  lemma SetDateParts(b: map<FormKey, string>, day: string, month: string, year: string)
    ensures var t := b[Own(DateDay) := day][Own(DateMonth) := month][Own(DateYear) := year];
      && Value(t, DateDay) == Some(day) && Value(t, DateMonth) == Some(month) && Value(t, DateYear) == Some(year)
      && forall k :: k != Own(DateDay) && k != Own(DateMonth) && k != Own(DateYear) ==>
           (k in t <==> k in b) && (k in t ==> t[k] == b[k])
  {
  }

  /** One request to a leg page: its URL, the posted body and the form values. */
  class LocationRequest {
    const url: string
    const hasForm: bool
    var body: map<FormKey, string>
    var values: map<FormKey, string>

    constructor (url: string, hasForm: bool, body: map<FormKey, string>, values: map<FormKey, string>)
      ensures this.url == url && this.hasForm == hasForm && this.body == body && this.values == values
    {
      this.url := url;
      this.hasForm := hasForm;
      this.body := body;
      this.values := values;
    }

    /**
     * configure: trims the day, month and year typed for the date (a missing part becomes '');
     * every other posted field is left as it was.
     */
    method Configure()
      modifies this`body
      ensures !hasForm ==> body == old(body)
      ensures hasForm ==>
        && Value(body, DateDay) == Some(Trim(OrElse(Value(old(body), DateDay), "")))
        && Value(body, DateMonth) == Some(Trim(OrElse(Value(old(body), DateMonth), "")))
        && Value(body, DateYear) == Some(Trim(OrElse(Value(old(body), DateYear), "")))
      ensures hasForm ==>
        forall k :: k != Own(DateDay) && k != Own(DateMonth) && k != Own(DateYear) ==>
          (k in body <==> k in old(body)) && (k in body ==> body[k] == old(body)[k])
    {
      if hasForm {
        var day := Trim(OrElse(Value(body, DateDay), ""));
        var month := Trim(OrElse(Value(body, DateMonth), ""));
        var year := Trim(OrElse(Value(body, DateYear), ""));
        SetDateParts(body, day, month, year);
        body := body[Own(DateDay) := day][Own(DateMonth) := month][Own(DateYear) := year];
      }
    }

    /**
     * process: an autocomplete input that was posted replaces the code field of the same kind,
     * in the body and in the form values; the body is then cached in the session under
     * <leg>-form. Nothing else changes.
     */
    method Process(session: SessionModel) returns (reply: Reply)
      modifies this`body, this`values, session
      ensures reply == Next
      ensures !hasForm ==> body == old(body) && values == old(values) && session.attributes == old(session.attributes)
      ensures hasForm ==> session.attributes == old(session.attributes)[CacheKey(PageKey(url)) := LegForm(body)]
      ensures hasForm ==>
        forall k :: k != Own(Icao) && k != Own(Iata) ==>
          (k in body <==> k in old(body)) && (k in body ==> body[k] == old(body)[k])
          && (k in values <==> k in old(values)) && (k in values ==> values[k] == old(values)[k])
      ensures hasForm ==>
        Value(body, Icao) == (if Own(IcaoAutocomplete) in old(body) then Some(old(body)[Own(IcaoAutocomplete)])
                              else Value(old(body), Icao))
        && Value(values, Icao) == (if Own(IcaoAutocomplete) in old(body) then Some(old(body)[Own(IcaoAutocomplete)])
                                   else Value(old(values), Icao))
      ensures hasForm ==>
        Value(body, Iata) == (if Own(IataAutocomplete) in old(body) then Some(old(body)[Own(IataAutocomplete)])
                              else Value(old(body), Iata))
        && Value(values, Iata) == (if Own(IataAutocomplete) in old(body) then Some(old(body)[Own(IataAutocomplete)])
                                   else Value(old(values), Iata))
    {
      if hasForm {
        if Own(IcaoAutocomplete) in body {
          values := values[Own(Icao) := body[Own(IcaoAutocomplete)]];
          body := body[Own(Icao) := body[Own(IcaoAutocomplete)]];
        }
        if Own(IataAutocomplete) in body {
          values := values[Own(Iata) := body[Own(IataAutocomplete)]];
          body := body[Own(Iata) := body[Own(IataAutocomplete)]];
        }
        session.Set(CacheKey(PageKey(url)), LegForm(body));
      }
      reply := Next;
    }

    /**
     * validate: the errors by field, nil when there are none. A past date and time flags both
     * date and time; more than one kind of place flags each kind given; the ZZZZ placeholder
     * alone flags the ICAO code. No other field is flagged.
     */
    method Validate(now: int) returns (errors: Option<map<LegField, string>>)
      ensures errors.None? <==>
        !DatePassed(Value(values, Date), Value(values, Time), now)
        && !Conflicting(Value(values, Icao), Value(values, Iata), PointValue(Value(values, Latitude), Value(values, Longitude)))
        && !BarePlaceholder(Value(values, Icao), Value(values, Iata), PointValue(Value(values, Latitude), Value(values, Longitude)))
      ensures errors.Some? ==>
        var passed := DatePassed(Value(values, Date), Value(values, Time), now);
        && (Date in errors.value <==> passed)
        && (Time in errors.value <==> passed)
        && (passed ==> errors.value[Date] == "validateDate" && errors.value[Time] == "validateTime")
      ensures errors.Some? ==>
        var icao := Value(values, Icao);
        var iata := Value(values, Iata);
        var point := PointValue(Value(values, Latitude), Value(values, Longitude));
        var conflict := Conflicting(icao, iata, point);
        var placeholder := BarePlaceholder(icao, iata, point);
        && (Icao in errors.value <==> (conflict && Truthy(icao)) || placeholder)
        && (Icao in errors.value ==> errors.value[Icao] == (if placeholder then "validateIcao" else "validateLocation"))
        && (Iata in errors.value <==> conflict && Truthy(iata))
        && (Iata in errors.value ==> errors.value[Iata] == "validateLocation")
        && (Latitude in errors.value <==> conflict && Truthy(point))
        && (Longitude in errors.value <==> conflict && Truthy(point))
      ensures errors.Some? ==> errors.value.Keys <= {Date, Time, Icao, Iata, Latitude, Longitude}
    {
      var icao := Value(values, Icao);
      var iata := Value(values, Iata);
      var point := PointValue(Value(values, Latitude), Value(values, Longitude));
      var errs: map<LegField, string> := map[];
      if DatePassed(Value(values, Date), Value(values, Time), now) {
        errs := errs[Date := "validateDate"];
        errs := errs[Time := "validateTime"];
      }
      if Conflicting(icao, iata, point) {
        if Truthy(icao) {
          errs := errs[Icao := "validateLocation"];
        }
        if Truthy(iata) {
          errs := errs[Iata := "validateLocation"];
        }
        if Truthy(point) {
          errs := errs[Latitude := "validateLocation"];
          errs := errs[Longitude := "validateLocation"];
        }
      }
      if BarePlaceholder(icao, iata, point) {
        errs := errs[Icao := "validateIcao"];
      }
      assert Date in errs || Icao in errs || Iata in errs || Latitude in errs || errs == map[];
      errors := if errs == map[] then None else Some(errs);
    }

    /**
     * getValues: after a failed validation, the form cached by process, which is removed from
     * the session; otherwise the leg read from the API (`legs`, nil when the read fails), after
     * which errorValues is cleared. A failed read passes an error and empty values on.
     */
    method GetValues(session: SessionModel, formErrors: map<string, string>, legs: Option<seq<Option<Location>>>)
      returns (failed: bool, result: PageValues)
      modifies session
      ensures |formErrors| > 0 ==>
        !failed && result == FromSession(old(session.Get(CacheKey(PageKey(url)))))
        && session.attributes == old(session.attributes) - {CacheKey(PageKey(url))}
      ensures |formErrors| == 0 && legs.Some? ==>
        !failed && result == FromApi(FormValuesOf(FindLeg(legs.value, LegNumber(PageKey(url)))))
        && session.attributes == old(session.attributes) - {"errorValues"}
      ensures |formErrors| == 0 && legs.None? ==>
        failed && result == FromApi(EmptyForm) && session.attributes == old(session.attributes)
    {
      var leg := PageKey(url);
      if |formErrors| > 0 {
        var cached := session.Get(CacheKey(leg));
        session.Unset(CacheKey(leg));
        return false, FromSession(cached);
      }
      if legs.None? {
        return true, FromApi(EmptyForm);
      }
      var form := GetLocationDetails(leg, legs.value);
      session.Unset("errorValues");
      failed, result := false, FromApi(form);
    }

    /**
     * saveValues: posts the body built from the form values and the raw body to the page's
     * leg endpoint; `accepted` is whether the post succeeded, and a failure passes its error on.
     */
    method SaveValues(session: SessionModel, baseUrl: string, accepted: bool)
      returns (uri: string, posted: LocationBody, reply: Reply)
      ensures posted == BodyOf(FormOf(values), RawOf(body))
      ensures uri == LegUrl(baseUrl, JsText(session.GetText("garUuid")), PageKey(url))
      ensures reply == (if accepted then Next else Fail)
    {
      var leg := PageKey(url);
      posted := GetLocationBody(FormOf(values), RawOf(body));
      uri := LegUrl(baseUrl, JsText(session.GetText("garUuid")), leg);
      reply := if accepted then Next else Fail;
    }
  }
}
