/**
 * The submit page: the pre-submission validation of a GAR summary, section by section, into an
 * ordered list of errors, and the decision that submits the GAR and waits for the outcome.
 *
 * A date-time the API holds for a leg uses the year 1900 for "no date entered" and the seconds
 * :59 for "no time entered" (users cannot enter seconds).
 */
module SubmitBehaviour {
  import opened Common
  import opened GarModel
  import opened Session
  import opened SubmitService
  import opened GarService

  const AircraftFields: seq<string> := ["registration", "type", "base", "taxesPaid"]

  const PersonFields: seq<string> := ["given_name", "family_name", "dob", "place", "nationality",
    "document_type", "document_no", "document_expiryDate", "document_issuingCountry"]

  /** The section exists and holds a non-nil value for the field. */
  predicate Present(section: Option<map<string, Scalar>>, field: string)
  {
    section.Some? && field in section.value
  }

  /** Drops the null entries of an error list, keeping the order of the rest. */
  function Compact(s: seq<Option<ValidationError>>): (r: seq<ValidationError>)
    ensures |r| <= |s|
    ensures r == [] <==> forall k :: 0 <= k < |s| ==> s[k].None?
  {
    if s == [] then []
    else
      var rest := Compact(s[1..]);
      assert forall k :: 1 <= k < |s| ==> s[k] == s[1..][k - 1];
      if s[0].Some? then [s[0].value] + rest else rest
  }

  lemma {:induction false} CompactConcat(a: seq<Option<ValidationError>>, b: seq<Option<ValidationError>>)
    ensures Compact(a + b) == Compact(a) + Compact(b)
  {
    if a == [] {
      assert a + b == b;
    } else {
      var ab := a + b;
      assert ab[0] == a[0];
      assert ab[1..] == a[1..] + b;
      CompactConcat(a[1..], b);
      var head: seq<ValidationError> := if a[0].Some? then [a[0].value] else [];
      assert Compact(ab) == head + Compact(ab[1..]);
      assert Compact(a) == head + Compact(a[1..]);
    }
  }

  /**
   * validateRequiredField: no error exactly when the section holds the field; otherwise an error
   * for `<section>-<field>` tagged with the id, worded per field when an id tells the sections apart.
   */
  function RequiredFieldError(field: string, section: Option<map<string, Scalar>>, sectionName: string,
                              tr: string -> string, id: Option<string>): (r: Option<ValidationError>)
    ensures r.None? <==> Present(section, field)
    ensures r.Some? ==> r.value.field == sectionName + "-" + field && r.value.id == Some([id])
    ensures r.Some? ==> r.value.heading == tr("errors." + sectionName + "-error")
    ensures r.Some? ==> r.value.message == tr(if Truthy(id) then "errors." + field else "errors." + sectionName + "-" + field)
  {
    if Present(section, field) then None
    else
      var message := if Truthy(id) then tr("errors." + field) else tr("errors." + sectionName + "-" + field);
      Some(ValidationError(sectionName + "-" + field, tr("errors." + sectionName + "-error"), message, Some([id])))
  }

  /** validateAircraft: one entry per required aircraft field, in order, null where it is filled in. */
  function ValidateAircraft(aircraft: Option<map<string, Scalar>>, tr: string -> string): (r: seq<Option<ValidationError>>)
    ensures |r| == |AircraftFields| == 4
    ensures forall k :: 0 <= k < |r| ==> (r[k].None? <==> Present(aircraft, AircraftFields[k]))
    ensures forall k :: 0 <= k < |r| && r[k].Some? ==> r[k].value.field == "aircraft-" + AircraftFields[k]
  {
    seq(|AircraftFields|, k requires 0 <= k < |AircraftFields| =>
      RequiredFieldError(AircraftFields[k], aircraft, "aircraft", tr, None))
  }

  /** `location && location.datetime` */
  function DatetimeOf(location: Option<Location>): Option<string>
  {
    if location.Some? then location.value.datetime else None
  }

  /** validateDate: a date-time is given and its year is not the 1900 "no date" marker. */
  predicate ValidDate(datetime: Option<string>)
  {
    Truthy(datetime) && !(ParseIso(datetime.value).Some? && ParseIso(datetime.value).value.year == 1900)
  }

  /** validateTime: a date-time is given and its seconds are not the :59 "no time" marker. */
  predicate ValidTime(datetime: Option<string>)
  {
    Truthy(datetime) && !(ParseIso(datetime.value).Some? && ParseIso(datetime.value).value.second == 59)
  }

  /**
   * A date-time moment cannot read has no year or seconds (NaN), so it passes both checks, even
   * with the 1900 and :59 marker digits.
   */
  lemma UnreadableDateTimePasses()
    ensures ValidDate(Some("1900-13-01T00:00:59")) && ValidTime(Some("1900-13-01T00:00:59"))
  {
    ReadsInRange("1900-13-01T00:00:59", 1900, 13, 1, 0, 0, 59);
  }

  /** moment(datetime).isSameOrBefore(): the date-time is not in the future. */
  predicate NotInFuture(datetime: string, now: int)
  {
    ParseIso(datetime).Some? && ParseIso(datetime).value.Epoch() <= now
  }

  /** The leg has an ICAO code, an IATA code, or both coordinates of a point. */
  predicate HasPlace(location: Option<Location>)
  {
    location.Some? &&
      (Truthy(location.value.icao) || Truthy(location.value.iata)
       || (location.value.point.Some? && Truthy(location.value.point.value.latitude)
           && Truthy(location.value.point.value.longitude)))
  }

  /** A leg that passes validateLocation: a place, a date in the future and a time. */
  predicate LegComplete(location: Option<Location>, now: int)
  {
    HasPlace(location) && ValidDate(DatetimeOf(location)) && ValidTime(DatetimeOf(location))
      && !NotInFuture(DatetimeOf(location).value, now)
  }

  function LegError(ltype: string, what: string, tr: string -> string): ValidationError
  {
    ValidationError(ltype + "-" + what, tr("errors." + ltype + "-error"), tr("errors." + ltype + "-" + what), None)
  }

  /**
   * validateLocation: the place entry (null when there is a place), then a date error or, only
   * when the date is valid, a future-date error for a date-time not after now, then a time error.
   */
  function ValidateLocation(location: Option<Location>, ltype: string, tr: string -> string, now: int)
    : (r: seq<Option<ValidationError>>)
    ensures 1 <= |r| <= 3
    ensures r[0].None? <==> HasPlace(location)
    ensures r[0].Some? ==> r[0].value == LegError(ltype, "location", tr)
    ensures forall k :: 1 <= k < |r| ==> r[k].Some?
    ensures Compact(r) == [] <==> LegComplete(location, now)
    ensures r[1..] == (if !ValidDate(DatetimeOf(location)) then [Some(LegError(ltype, "date", tr))]
                       else if NotInFuture(DatetimeOf(location).value, now) then [Some(LegError(ltype, "future-date", tr))]
                       else [])
                      + (if !ValidTime(DatetimeOf(location)) then [Some(LegError(ltype, "time", tr))] else [])
  {
    var datetime := DatetimeOf(location);
    var place := if HasPlace(location) then None else Some(LegError(ltype, "location", tr));
    var date :=
      if !ValidDate(datetime) then [Some(LegError(ltype, "date", tr))]
      else if NotInFuture(datetime.value, now) then [Some(LegError(ltype, "future-date", tr))]
      else [];
    var time := if !ValidTime(datetime) then [Some(LegError(ltype, "time", tr))] else [];
    var r := [place] + (date + time);
    assert r[1..] == date + time;
    r
  }

  /** `${latitude}, ${longitude}` prints a null coordinate as "null". */
  function CoordText(c: Option<string>): string
  {
    if c.Some? then c.value else "null"
  }

  /** The place string validateLocations compares: ICAO, else IATA, else "lat, long" of a point. */
  function RenderedPlace(location: Option<Location>): (r: Option<string>)
    ensures location.Some? && Truthy(location.value.icao) ==> r == location.value.icao
    ensures r.None? ==> !HasPlace(location)
  {
    if location.None? then None
    else if Truthy(location.value.icao) then location.value.icao
    else if Truthy(location.value.iata) then location.value.iata
    else if location.value.point.Some? then
      Some(CoordText(location.value.point.value.latitude) + ", " + CoordText(location.value.point.value.longitude))
    else None
  }

  /** moment(departure).isSameOrAfter(arrival), for two readable date-times. */
  predicate DepartsNoEarlier(departure: Option<string>, arrival: Option<string>)
  {
    departure.Some? && arrival.Some? && ParseIso(departure.value).Some? && ParseIso(arrival.value).Some?
      && ParseIso(departure.value).value.Epoch() >= ParseIso(arrival.value).value.Epoch()
  }

  /** Both legs render to the same, non-nil place. */
  predicate SamePlace(departure: Option<Location>, arrival: Option<Location>)
  {
    RenderedPlace(departure).Some? && RenderedPlace(departure) == RenderedPlace(arrival)
  }

  /** The errors of the two legs, nulls dropped. */
  function LegErrors(locations: seq<Option<Location>>, tr: string -> string, now: int): seq<ValidationError>
  {
    Compact(ValidateLocation(At(locations, 0), "departure", tr, now) + ValidateLocation(At(locations, 1), "arrival", tr, now))
  }

  function CrossError(what: string, tr: string -> string): ValidationError
  {
    ValidationError("departure-arrival-" + what, tr("errors.arrival-error"), tr("errors.departure-arrival-" + what), None)
  }

  /**
   * validateLocations: the errors of both legs; then, only when both legs are valid, an error if
   * the departure is not before the arrival; then an error if both legs are at the same place.
   */
  function ValidateLocations(locations: seq<Option<Location>>, tr: string -> string, now: int): (r: seq<ValidationError>)
    ensures LegErrors(locations, tr, now) <= r
    ensures r == [] <==>
      LegComplete(At(locations, 0), now) && LegComplete(At(locations, 1), now)
      && !DepartsNoEarlier(DatetimeOf(At(locations, 0)), DatetimeOf(At(locations, 1)))
      && !SamePlace(At(locations, 0), At(locations, 1))
    ensures r[|LegErrors(locations, tr, now)|..] ==
      (if LegErrors(locations, tr, now) == [] && DepartsNoEarlier(DatetimeOf(At(locations, 0)), DatetimeOf(At(locations, 1)))
       then [CrossError("date-error", tr)] else [])
      + (if SamePlace(At(locations, 0), At(locations, 1)) then [CrossError("location-error", tr)] else [])
  {
    var departure := At(locations, 0);
    var arrival := At(locations, 1);
    var dep := ValidateLocation(departure, "departure", tr, now);
    var arr := ValidateLocation(arrival, "arrival", tr, now);
    var legs := Compact(dep + arr);
    CompactConcat(dep, arr);
    var dateOrder := legs == [] && DepartsNoEarlier(DatetimeOf(departure), DatetimeOf(arrival));
    var clash := SamePlace(departure, arrival);
    var date := if dateOrder then [CrossError("date-error", tr)] else [];
    var place := if clash then [CrossError("location-error", tr)] else [];
    var r := legs + (date + place);
    assert r[|legs|..] == date + place;
    r
  }

  /** validateGoods: one error when the hazardous-goods answer is missing. */
  function ValidateGoods(attributes: Option<Attributes>, tr: string -> string): (r: seq<ValidationError>)
    ensures r == [] <==> attributes.Some? && attributes.value.hazardous.Some?
    ensures r != [] ==> r == [ValidationError("hazardous-goods", tr("errors.hazardous-error"), tr("errors.hazardous-goods"), None)]
  {
    if attributes.None? || attributes.value.hazardous.None? then
      [ValidationError("hazardous-goods", tr("errors.hazardous-error"), tr("errors.hazardous-goods"), None)]
    else []
  }

  /** lodash isEmpty of a string that may be nil. */
  predicate IsEmpty(s: Option<string>)
  {
    s.None? || s.value == ""
  }

  /** A responsible person is given and, when of type OTHER, has a name and a contact number. */
  predicate ResponsiblePersonComplete(attributes: Option<Attributes>)
  {
    attributes.Some? && attributes.value.responsiblePerson.Some?
      && (attributes.value.responsiblePerson.value.rtype == Some("OTHER") ==>
            !IsEmpty(attributes.value.responsiblePerson.value.name)
            && !IsEmpty(attributes.value.responsiblePerson.value.contactNumber))
  }

  function CaptainError(field: string, message: string, tr: string -> string): ValidationError
  {
    ValidationError(field, tr("errors.captain-error"), tr(message), None)
  }

  /**
   * validateResponsiblePerson: an error when no responsible person is given; for type OTHER, an
   * error for a missing name and one for a missing contact number.
   */
  function ValidateResponsiblePerson(attributes: Option<Attributes>, tr: string -> string): (r: seq<ValidationError>)
    ensures r == [] <==> ResponsiblePersonComplete(attributes)
    ensures |r| <= 2
    ensures (attributes.None? || attributes.value.responsiblePerson.None?) ==>
      r == [CaptainError("captain-responsible-person", "errors.responsible-person-type", tr)]
    ensures forall k :: 0 <= k < |r| ==> r[k].heading == tr("errors.captain-error")
  {
    if attributes.None? || attributes.value.responsiblePerson.None? then
      [CaptainError("captain-responsible-person", "errors.responsible-person-type", tr)]
    else
      var rp := attributes.value.responsiblePerson.value;
      if rp.rtype == Some("OTHER") then
        (if IsEmpty(rp.name) then [CaptainError("captain-responsible-person-name", "errors.responsible-person-name", tr)] else [])
        + (if IsEmpty(rp.contactNumber) then [CaptainError("captain-responsible-person-number", "errors.responsible-person-number", tr)] else [])
      else []
  }

  /** The nine required-field checks of one person, tagged with the person's uuid. */
  function PersonChecks(p: Person, sectionName: string, tr: string -> string): (r: seq<Option<ValidationError>>)
    ensures |r| == |PersonFields| == 9
    ensures forall j :: 0 <= j < |r| ==> r[j] == RequiredFieldError(PersonFields[j], p.details, sectionName, tr, p.personUuid)
  {
    seq(|PersonFields|, j requires 0 <= j < |PersonFields| =>
      RequiredFieldError(PersonFields[j], p.details, sectionName, tr, p.personUuid))
  }

  /** Every required personal detail is filled in. */
  predicate PersonComplete(p: Person)
  {
    forall j :: 0 <= j < |PersonFields| ==> Present(p.details, PersonFields[j])
  }

  lemma PersonChecksEmpty(p: Person, sectionName: string, tr: string -> string)
    ensures Compact(PersonChecks(p, sectionName, tr)) == [] <==> PersonComplete(p)
  {
  }

  /** `gar.people && gar.people.captain` */
  function CaptainOf(gar: GarSummary): Option<Person>
  {
    if gar.people.Some? then gar.people.value.captain else None
  }

  /**
   * validateCaptain: a single no-captain error when there is no captain; otherwise the nine
   * required-field checks on the captain, tagged with the captain's uuid, then the
   * responsible-person checks.
   */
  function ValidateCaptain(gar: GarSummary, tr: string -> string): (r: seq<Option<ValidationError>>)
    ensures CaptainOf(gar).None? ==>
      r == [Some(ValidationError("no-captain", tr("errors.captain-error"), tr("errors.no-captain-error"), None))]
    ensures CaptainOf(gar).Some? ==>
      r == PersonChecks(CaptainOf(gar).value, "captain", tr) + Wrap(ValidateResponsiblePerson(gar.attributes, tr))
    ensures Compact(r) == [] <==>
      CaptainOf(gar).Some? && PersonComplete(CaptainOf(gar).value) && ResponsiblePersonComplete(gar.attributes)
  {
    var captain := CaptainOf(gar);
    if captain.None? then
      [Some(ValidationError("no-captain", tr("errors.captain-error"), tr("errors.no-captain-error"), None))]
    else
      var checks := PersonChecks(captain.value, "captain", tr);
      var responsible := Wrap(ValidateResponsiblePerson(gar.attributes, tr));
      CompactConcat(checks, responsible);
      PersonChecksEmpty(captain.value, "captain", tr);
      checks + responsible
  }

  /** The errors of a list as a list of non-null entries. */
  function Wrap(errs: seq<ValidationError>): (r: seq<Option<ValidationError>>)
    ensures |r| == |errs| && forall k :: 0 <= k < |r| ==> r[k] == Some(errs[k])
    ensures Compact(r) == errs
  {
    if errs == [] then []
    else
      var r := [Some(errs[0])] + Wrap(errs[1..]);
      assert r[1..] == Wrap(errs[1..]);
      r
  }

  /** The crew or the passengers of the GAR, empty when there are none. */
  function PeopleOfType(gar: GarSummary, ptype: string): seq<Person>
  {
    if gar.people.None? then []
    else if ptype == "crew" then (if gar.people.value.crew.Some? then gar.people.value.crew.value else [])
    else if ptype == "passengers" then (if gar.people.value.passengers.Some? then gar.people.value.passengers.value else [])
    else []
  }

  /** The required-field checks of a list of people, person after person. */
  function PeopleErrors(people: seq<Person>, sectionName: string, tr: string -> string): seq<Option<ValidationError>>
  {
    if people == [] then []
    else PeopleErrors(people[..|people| - 1], sectionName, tr) + PersonChecks(people[|people| - 1], sectionName, tr)
  }

  /** The k-th run of nine in a list of n runs with one more run of nine after it. */
  lemma NinthChunk<T>(prev: seq<T>, last: seq<T>, n: nat, k: nat)
    requires |prev| == 9 * n && |last| == 9 && k <= n
    ensures (prev + last)[9 * k..9 * k + 9] == if k < n then prev[9 * k..9 * k + 9] else last
  {
  }

  /** Person k's checks sit at positions 9k to 9k+8, so each error names its person by uuid. */
  lemma {:induction false} PeopleErrorsLayout(people: seq<Person>, sectionName: string, tr: string -> string)
    ensures |PeopleErrors(people, sectionName, tr)| == 9 * |people|
    ensures forall k :: 0 <= k < |people| ==>
      PeopleErrors(people, sectionName, tr)[9 * k..9 * k + 9] == PersonChecks(people[k], sectionName, tr)
  {
    if people != [] {
      var n := |people| - 1;
      var init := people[..n];
      PeopleErrorsLayout(init, sectionName, tr);
      var prev := PeopleErrors(init, sectionName, tr);
      var last := PersonChecks(people[n], sectionName, tr);
      assert PeopleErrors(people, sectionName, tr) == prev + last;
      forall k | 0 <= k < |people|
        ensures (prev + last)[9 * k..9 * k + 9] == PersonChecks(people[k], sectionName, tr)
      {
        NinthChunk(prev, last, n, k);
        if k < n {
          assert init[k] == people[k];
        }
      }
    }
  }

  /** A list of people passes when every person has every required detail. */
  lemma {:induction false} PeopleErrorsEmpty(people: seq<Person>, sectionName: string, tr: string -> string)
    ensures Compact(PeopleErrors(people, sectionName, tr)) == [] <==> forall k :: 0 <= k < |people| ==> PersonComplete(people[k])
  {
    if people != [] {
      var init := people[..|people| - 1];
      var last := people[|people| - 1];
      PeopleErrorsEmpty(init, sectionName, tr);
      var prev := PeopleErrors(init, sectionName, tr);
      var checks := PersonChecks(last, sectionName, tr);
      assert PeopleErrors(people, sectionName, tr) == prev + checks;
      CompactConcat(prev, checks);
      PersonChecksEmpty(last, sectionName, tr);
      assert |Compact(prev) + Compact(checks)| == |Compact(prev)| + |Compact(checks)|;
      assert forall k :: 0 <= k < |init| ==> init[k] == people[k];
    }
  }

  /**
   * validateCrewOrPassengers: for each crew member or passenger in turn, the nine required-field
   * checks tagged with that person's uuid.
   */
  method ValidateCrewOrPassengers(gar: GarSummary, ptype: string, tr: string -> string)
    returns (errs: seq<Option<ValidationError>>)
    requires ptype == "crew" || ptype == "passengers"
    ensures errs == PeopleErrors(PeopleOfType(gar, ptype), ptype, tr)
    ensures |errs| == 9 * |PeopleOfType(gar, ptype)|
  {
    var people := PeopleOfType(gar, ptype);
    errs := [];
    var i := 0;
    while i < |people|
      invariant 0 <= i <= |people|
      invariant errs == PeopleErrors(people[..i], ptype, tr)
    {
      assert people[..i + 1][..i] == people[..i];
      errs := errs + PersonChecks(people[i], ptype, tr);
      i := i + 1;
    }
    assert people[..i] == people;
    PeopleErrorsLayout(people, ptype, tr);
  }

  /** The message key the status switch of validateFiles assigns; VIRUS_SCANNED assigns none. */
  function FileMessageKey(status: Option<string>): (r: Option<string>)
    ensures r.None? <==> status == Some("VIRUS_SCANNED")
  {
    if status == Some("UPLOADING") || status == Some("AWAITING_VIRUS_SCAN") then Some("errors.file-pending")
    else if status == Some("QUARANTINED") then Some("errors.file-virus")
    else if status == Some("VIRUS_SCANNED") then None
    else Some("errors.file-error")
  }

  /** _.findIndex by message: the first error with that message, or -1. */
  function FindMessage(errs: seq<ValidationError>, message: string): (i: int)
    ensures -1 <= i < |errs|
    ensures i == -1 <==> forall k :: 0 <= k < |errs| ==> errs[k].message != message
    ensures i >= 0 ==> errs[i].message == message
    ensures i >= 0 ==> forall k :: 0 <= k < i ==> errs[k].message != message
  {
    if errs == [] then -1
    else if errs[|errs| - 1].message == message && FindMessage(errs[..|errs| - 1], message) == -1 then |errs| - 1
    else FindMessage(errs[..|errs| - 1], message)
  }

  function IdsOf(e: ValidationError): seq<Option<string>>
  {
    if e.id.Some? then e.id.value else []
  }

  /** Records a bad file: a new files error for a new message, else the uuid joins that error. */
  function AddFile(errs: seq<ValidationError>, key: string, uuid: Option<string>, tr: string -> string): seq<ValidationError>
  {
    var i := FindMessage(errs, tr(key));
    if i == -1 then errs + [ValidationError("files", tr("errors.upload-error"), tr(key), Some([uuid]))]
    else errs[i := errs[i].(id := Some(IdsOf(errs[i]) + [uuid]))]
  }

  /**
   * The state of validateFiles after a list of files: the errors so far and the message key in
   * force. With `reset`, each file starts without a key; without it, a VIRUS_SCANNED file keeps
   * the previous file's key, as the code is written.
   */
  function FilesState(files: seq<GarFile>, tr: string -> string, reset: bool): (seq<ValidationError>, Option<string>)
  {
    if files == [] then ([], None)
    else
      var (errs, carried) := FilesState(files[..|files| - 1], tr, reset);
      var file := files[|files| - 1];
      var own := FileMessageKey(file.fileStatus);
      var key := if reset || own.Some? then own else carried;
      (if key.Some? then AddFile(errs, key.value, file.fileUuid, tr) else errs, key)
  }

  /** validateFiles as written: the message key is never reset between files. */
  function FileErrorsAsWritten(files: seq<GarFile>, tr: string -> string): seq<ValidationError>
  {
    FilesState(files, tr, false).0
  }

  /** validateFiles as intended: only files that are not VIRUS_SCANNED are reported. */
  function FileErrors(files: seq<GarFile>, tr: string -> string): seq<ValidationError>
  {
    FilesState(files, tr, true).0
  }

  /** As written, a clean file after a quarantined one is reported under the virus error. */
  lemma FileErrorsAsWrittenCounterexample(tr: string -> string)
    ensures FileErrorsAsWritten([GarFile(Some("f1"), None, Some("QUARANTINED")),
                                 GarFile(Some("f2"), None, Some("VIRUS_SCANNED"))], tr)
      == [ValidationError("files", tr("errors.upload-error"), tr("errors.file-virus"), Some([Some("f1"), Some("f2")]))]
    ensures FileErrors([GarFile(Some("f1"), None, Some("QUARANTINED")),
                        GarFile(Some("f2"), None, Some("VIRUS_SCANNED"))], tr)
      == [ValidationError("files", tr("errors.upload-error"), tr("errors.file-virus"), Some([Some("f1")]))]
  {
    var f1 := GarFile(Some("f1"), None, Some("QUARANTINED"));
    var f2 := GarFile(Some("f2"), None, Some("VIRUS_SCANNED"));
    var virus := ValidationError("files", tr("errors.upload-error"), tr("errors.file-virus"), Some([Some("f1")]));
    assert [f1, f2][..1] == [f1];
    assert [f1][..0] == [];
    assert FindMessage([], tr("errors.file-virus")) == -1;
    assert FileMessageKey(f1.fileStatus) == Some("errors.file-virus");
    assert FileMessageKey(f2.fileStatus) == None;
    assert FilesState([], tr, false) == ([], None);
    assert FilesState([], tr, true) == ([], None);
    assert AddFile([], "errors.file-virus", Some("f1"), tr) == [virus];
    assert FilesState([f1], tr, false) == ([virus], Some("errors.file-virus"));
    assert FilesState([f1], tr, true) == ([virus], Some("errors.file-virus"));
    assert FindMessage([virus], tr("errors.file-virus")) == 0 by {
      assert [virus][..0] == [];
    }
    assert FilesState([f1, f2], tr, true) == ([virus], None);
    var joined := virus.(id := Some([Some("f1"), Some("f2")]));
    assert IdsOf(virus) + [Some("f2")] == [Some("f1"), Some("f2")];
    assert [virus][0 := joined] == [joined];
    assert AddFile([virus], "errors.file-virus", Some("f2"), tr) == [joined];
    assert FilesState([f1, f2], tr, false) == ([joined], Some("errors.file-virus"));
  }

  /** Every files error has the upload heading, at least one id, and no two share a message. */
  predicate WellFormedFileErrors(errs: seq<ValidationError>, tr: string -> string)
  {
    (forall k :: 0 <= k < |errs| ==>
       errs[k].field == "files" && errs[k].heading == tr("errors.upload-error") && |IdsOf(errs[k])| >= 1)
    && (forall k, j :: 0 <= k < j < |errs| ==> errs[k].message != errs[j].message)
  }

  /** All ids of a list of errors, as a multiset. */
  function AllIds(errs: seq<ValidationError>): multiset<Option<string>>
  {
    if errs == [] then multiset{} else AllIds(errs[..|errs| - 1]) + multiset(IdsOf(errs[|errs| - 1]))
  }

  /**
   * With or without the reset, the file errors are empty exactly when every file is
   * VIRUS_SCANNED, and while they are empty no message key is carried to the next file.
   */
  lemma {:induction false} FilesStateEmpty(files: seq<GarFile>, tr: string -> string, reset: bool)
    ensures FilesState(files, tr, reset).0 == [] <==>
      forall k :: 0 <= k < |files| ==> files[k].fileStatus == Some("VIRUS_SCANNED")
    ensures FilesState(files, tr, reset).0 == [] ==> FilesState(files, tr, reset).1.None?
  {
    if files != [] {
      var init := files[..|files| - 1];
      FilesStateEmpty(init, tr, reset);
      var (errs, carried) := FilesState(init, tr, reset);
      var file := files[|files| - 1];
      var own := FileMessageKey(file.fileStatus);
      var key := if reset || own.Some? then own else carried;
      if key.Some? {
        var i := FindMessage(errs, tr(key.value));
        assert |AddFile(errs, key.value, file.fileUuid, tr)| == if i == -1 then |errs| + 1 else |errs|;
        if i != -1 {
          assert errs != [];
        }
      }
      if forall k :: 0 <= k < |files| ==> files[k].fileStatus == Some("VIRUS_SCANNED") {
        assert forall k :: 0 <= k < |init| ==> init[k] == files[k];
      } else {
        var k :| 0 <= k < |files| && files[k].fileStatus != Some("VIRUS_SCANNED");
        if k < |init| {
          assert init[k] == files[k];
        }
      }
    }
  }

  /** The pre-submission file check passes exactly when every file is VIRUS_SCANNED, as written and as intended. */
  lemma FileErrorsEmpty(files: seq<GarFile>, tr: string -> string)
    ensures FileErrorsAsWritten(files, tr) == [] <==>
      forall k :: 0 <= k < |files| ==> files[k].fileStatus == Some("VIRUS_SCANNED")
    ensures FileErrors(files, tr) == [] <==>
      forall k :: 0 <= k < |files| ==> files[k].fileStatus == Some("VIRUS_SCANNED")
  {
    FilesStateEmpty(files, tr, false);
    FilesStateEmpty(files, tr, true);
  }

  /** The uuids of the files that are not VIRUS_SCANNED, as a multiset. */
  function BadFileIds(files: seq<GarFile>): multiset<Option<string>>
  {
    if files == [] then multiset{}
    else
      var last := files[|files| - 1];
      BadFileIds(files[..|files| - 1]) + (if FileMessageKey(last.fileStatus).Some? then multiset{last.fileUuid} else multiset{})
  }

  lemma {:induction false} AllIdsAppend(errs: seq<ValidationError>, e: ValidationError)
    ensures AllIds(errs + [e]) == AllIds(errs) + multiset(IdsOf(e))
  {
    assert (errs + [e])[..|errs|] == errs;
  }

  lemma {:induction false} AllIdsUpdate(errs: seq<ValidationError>, i: nat, e: ValidationError)
    requires i < |errs|
    ensures AllIds(errs[i := e]) + multiset(IdsOf(errs[i])) == AllIds(errs) + multiset(IdsOf(e))
    decreases |errs|
  {
    var last := |errs| - 1;
    var updated := errs[i := e];
    assert AllIds(updated) == AllIds(updated[..last]) + multiset(IdsOf(updated[last]));
    assert AllIds(errs) == AllIds(errs[..last]) + multiset(IdsOf(errs[last]));
    if i == last {
      assert updated[..last] == errs[..last];
    } else {
      AllIdsUpdate(errs[..last], i, e);
      assert errs[..last][i] == errs[i];
      assert updated[..last] == errs[..last][i := e];
      assert updated[last] == errs[last];
      AddBoth(AllIds(updated[..last]), AllIds(errs[..last]), multiset(IdsOf(errs[i])), multiset(IdsOf(e)),
              multiset(IdsOf(errs[last])));
    }
  }

  /** Adding the same multiset to both sides of an equation keeps it. */
  lemma AddBoth<T>(u: multiset<T>, a: multiset<T>, x: multiset<T>, y: multiset<T>, l: multiset<T>)
    requires u + x == a + y
    ensures (u + l) + x == (a + l) + y
  {
    assert forall z :: ((u + l) + x)[z] == (u + x)[z] + l[z] == (a + y)[z] + l[z] == ((a + l) + y)[z];
  }

  /** A new message opens a new error holding the file's uuid. */
  lemma AddFileNew(errs: seq<ValidationError>, key: string, uuid: Option<string>, tr: string -> string)
    requires WellFormedFileErrors(errs, tr)
    requires FindMessage(errs, tr(key)) == -1
    ensures WellFormedFileErrors(AddFile(errs, key, uuid, tr), tr)
    ensures AllIds(AddFile(errs, key, uuid, tr)) == AllIds(errs) + multiset{uuid}
  {
    var e := ValidationError("files", tr("errors.upload-error"), tr(key), Some([uuid]));
    AllIdsAppend(errs, e);
    var r := AddFile(errs, key, uuid, tr);
    assert r == errs + [e];
  }

  /** Replacing an error by one with the same message and more ids keeps the list well formed. */
  lemma ReplaceKeepsWellFormed(errs: seq<ValidationError>, i: nat, e: ValidationError, tr: string -> string)
    requires WellFormedFileErrors(errs, tr) && i < |errs|
    requires e.field == "files" && e.heading == tr("errors.upload-error") && |IdsOf(e)| >= 1
    requires e.message == errs[i].message
    ensures WellFormedFileErrors(errs[i := e], tr)
  {
    var r := errs[i := e];
    assert forall k :: 0 <= k < |r| ==> r[k].message == errs[k].message;
  }

  /** A known message gains the file's uuid in its existing error. */
  lemma AddFileJoin(errs: seq<ValidationError>, key: string, uuid: Option<string>, tr: string -> string)
    requires WellFormedFileErrors(errs, tr)
    requires FindMessage(errs, tr(key)) != -1
    ensures WellFormedFileErrors(AddFile(errs, key, uuid, tr), tr)
    ensures AllIds(AddFile(errs, key, uuid, tr)) == AllIds(errs) + multiset{uuid}
  {
    var i := FindMessage(errs, tr(key));
    var e := errs[i].(id := Some(IdsOf(errs[i]) + [uuid]));
    assert AddFile(errs, key, uuid, tr) == errs[i := e];
    assert IdsOf(e) == IdsOf(errs[i]) + [uuid];
    ReplaceKeepsWellFormed(errs, i, e, tr);
    AllIdsUpdate(errs, i, e);
    assert multiset(IdsOf(e)) == multiset(IdsOf(errs[i])) + multiset{uuid};
    CancelCommon(AllIds(errs[i := e]), AllIds(errs), multiset(IdsOf(errs[i])), multiset(IdsOf(e)), uuid);
  }

  lemma CancelCommon<T>(after: multiset<T>, before: multiset<T>, x: multiset<T>, y: multiset<T>, u: T)
    requires after + x == before + y && y == x + multiset{u}
    ensures after == before + multiset{u}
  {
    forall z
      ensures after[z] == (before + multiset{u})[z]
    {
      assert (after + x)[z] == (before + y)[z];
    }
  }

  /** Adding a bad file keeps the errors well formed and adds exactly its uuid to the ids. */
  lemma AddFileKeeps(errs: seq<ValidationError>, key: string, uuid: Option<string>, tr: string -> string)
    requires WellFormedFileErrors(errs, tr)
    ensures WellFormedFileErrors(AddFile(errs, key, uuid, tr), tr)
    ensures AllIds(AddFile(errs, key, uuid, tr)) == AllIds(errs) + multiset{uuid}
    ensures |AddFile(errs, key, uuid, tr)| >= 1
  {
    if FindMessage(errs, tr(key)) == -1 {
      AddFileNew(errs, key, uuid, tr);
    } else {
      AddFileJoin(errs, key, uuid, tr);
    }
  }

  /**
   * The intended validateFiles keeps one error per distinct message, and the ids it reports are
   * exactly the uuids of the files that are not VIRUS_SCANNED.
   */
  lemma {:induction false} FileErrorsSound(files: seq<GarFile>, tr: string -> string)
    ensures WellFormedFileErrors(FileErrors(files, tr), tr)
    ensures AllIds(FileErrors(files, tr)) == BadFileIds(files)
    ensures FileErrors(files, tr) == [] <==> forall k :: 0 <= k < |files| ==> files[k].fileStatus == Some("VIRUS_SCANNED")
  {
    if files != [] {
      var init := files[..|files| - 1];
      var file := files[|files| - 1];
      FileErrorsSound(init, tr);
      assert forall k :: 0 <= k < |init| ==> init[k] == files[k];
      var key := FileMessageKey(file.fileStatus);
      if key.Some? {
        AddFileKeeps(FileErrors(init, tr), key.value, file.fileUuid, tr);
      }
    }
  }

  /**
   * validateFiles (with the message key reset for every file): one files error per distinct
   * message, listing the uuids of the files it concerns.
   */
  method ValidateFiles(files: Option<seq<GarFile>>, tr: string -> string) returns (errs: seq<ValidationError>)
    ensures files.None? ==> errs == []
    ensures files.Some? ==> errs == FileErrors(files.value, tr)
  {
    errs := [];
    if files.Some? {
      var all := files.value;
      var i := 0;
      while i < |all|
        invariant 0 <= i <= |all|
        invariant errs == FileErrors(all[..i], tr)
      {
        assert all[..i + 1][..i] == all[..i];
        var errorMessage := FileMessageKey(all[i].fileStatus);
        if errorMessage.Some? {
          var found := FindMessage(errs, tr(errorMessage.value));
          if found == -1 {
            errs := errs + [ValidationError("files", tr("errors.upload-error"), tr(errorMessage.value), Some([all[i].fileUuid]))];
          } else {
            errs := errs[found := errs[found].(id := Some(IdsOf(errs[found]) + [all[i].fileUuid]))];
          }
        }
        i := i + 1;
      }
      assert all[..i] == all;
    }
  }

  function FilesOf(gar: GarSummary): seq<GarFile>
  {
    if gar.files.Some? then gar.files.value else []
  }

  /**
   * The whole pre-submission check of a fetched GAR summary, in section order: aircraft,
   * locations, goods, captain, crew, passengers, files. None where the code throws: no summary
   * could be fetched, or it has no location list.
   */
  function GarValidation(gar: Option<GarSummary>, tr: string -> string, now: int): (r: Option<seq<ValidationError>>)
    ensures r.None? <==> gar.None? || gar.value.location.None?
  {
    if gar.None? || gar.value.location.None? then None
    else
      var g := gar.value;
      Some(Compact(ValidateAircraft(g.aircraft, tr))
        + ValidateLocations(g.location.value, tr, now)
        + ValidateGoods(g.attributes, tr)
        + Compact(ValidateCaptain(g, tr))
        + Compact(PeopleErrors(PeopleOfType(g, "crew"), "crew", tr))
        + Compact(PeopleErrors(PeopleOfType(g, "passengers"), "passengers", tr))
        + FileErrors(FilesOf(g), tr))
  }

  /** A GAR ready to submit, section by section. */
  predicate GarComplete(g: GarSummary, now: int)
    requires g.location.Some?
  {
    var locations := g.location.value;
    (forall k :: 0 <= k < |AircraftFields| ==> Present(g.aircraft, AircraftFields[k]))
    && LegComplete(At(locations, 0), now) && LegComplete(At(locations, 1), now)
    && !DepartsNoEarlier(DatetimeOf(At(locations, 0)), DatetimeOf(At(locations, 1)))
    && !SamePlace(At(locations, 0), At(locations, 1))
    && g.attributes.Some? && g.attributes.value.hazardous.Some?
    && CaptainOf(g).Some? && PersonComplete(CaptainOf(g).value) && ResponsiblePersonComplete(g.attributes)
    && (forall k :: 0 <= k < |PeopleOfType(g, "crew")| ==> PersonComplete(PeopleOfType(g, "crew")[k]))
    && (forall k :: 0 <= k < |PeopleOfType(g, "passengers")| ==> PersonComplete(PeopleOfType(g, "passengers")[k]))
    && (forall k :: 0 <= k < |FilesOf(g)| ==> FilesOf(g)[k].fileStatus == Some("VIRUS_SCANNED"))
  }

  /** The validation passes exactly when the GAR is complete in every section. */
  lemma ValidationPassesIffComplete(g: GarSummary, tr: string -> string, now: int)
    requires g.location.Some?
    ensures GarValidation(Some(g), tr, now) == Some([]) <==> GarComplete(g, now)
  {
    var aircraft := Compact(ValidateAircraft(g.aircraft, tr));
    var locations := ValidateLocations(g.location.value, tr, now);
    var goods := ValidateGoods(g.attributes, tr);
    var captain := Compact(ValidateCaptain(g, tr));
    var crew := Compact(PeopleErrors(PeopleOfType(g, "crew"), "crew", tr));
    var passengers := Compact(PeopleErrors(PeopleOfType(g, "passengers"), "passengers", tr));
    var files := FileErrors(FilesOf(g), tr);
    assert GarValidation(Some(g), tr, now) == Some(aircraft + locations + goods + captain + crew + passengers + files);
    AllEmpty(aircraft, locations, goods, captain, crew, passengers, files);
    AircraftEmpty(g.aircraft, tr);
    PeopleErrorsEmpty(PeopleOfType(g, "crew"), "crew", tr);
    PeopleErrorsEmpty(PeopleOfType(g, "passengers"), "passengers", tr);
    FileErrorsSound(FilesOf(g), tr);
  }

  /** The aircraft section passes exactly when every required aircraft field is filled in. */
  lemma AircraftEmpty(aircraft: Option<map<string, Scalar>>, tr: string -> string)
    ensures Compact(ValidateAircraft(aircraft, tr)) == [] <==>
      forall k :: 0 <= k < |AircraftFields| ==> Present(aircraft, AircraftFields[k])
  {
  }

  /** Seven lists joined are empty exactly when each one is. */
  lemma AllEmpty<T>(a: seq<T>, b: seq<T>, c: seq<T>, d: seq<T>, e: seq<T>, f: seq<T>, g: seq<T>)
    ensures a + b + c + d + e + f + g == [] <==> a == [] && b == [] && c == [] && d == [] && e == [] && f == [] && g == []
  {
    assert |a + b + c + d + e + f + g| == |a| + |b| + |c| + |d| + |e| + |f| + |g|;
  }

  /**
   * The validate hook: when the GAR is being submitted, a GAR with errors stores them as the
   * session's garErrors and redirects to the summary; a clean GAR, or any other button, goes on.
   */
  method Validate(session: SessionModel, submitGar: bool, gar: Option<GarSummary>, tr: string -> string, now: int)
    returns (reply: Reply)
    modifies session
    ensures !submitGar ==> reply == Next && session.attributes == old(session.attributes)
    ensures submitGar && GarValidation(gar, tr, now).None? ==>
      reply == Fail && session.attributes == old(session.attributes)
    ensures submitGar && GarValidation(gar, tr, now) == Some([]) ==>
      reply == Next && session.attributes == old(session.attributes)
    ensures submitGar && GarValidation(gar, tr, now).Some? && GarValidation(gar, tr, now).value != [] ==>
      reply == Redirect(302, "/egar/summary")
      && session.attributes == old(session.attributes)["garErrors" := Errors(Validation(GarValidation(gar, tr, now).value))]
  {
    if !submitGar {
      return Next;
    }
    if gar.None? || gar.value.location.None? {
      return Fail;
    }
    var g := gar.value;
    var crew := ValidateCrewOrPassengers(g, "crew", tr);
    var passengers := ValidateCrewOrPassengers(g, "passengers", tr);
    var files := ValidateFiles(g.files, tr);
    var errors := Compact(ValidateAircraft(g.aircraft, tr))
      + ValidateLocations(g.location.value, tr, now)
      + ValidateGoods(g.attributes, tr)
      + Compact(ValidateCaptain(g, tr))
      + Compact(crew)
      + Compact(passengers)
      + files;
    assert Some(errors) == GarValidation(gar, tr, now);
    if |errors| > 0 {
      session.Set("garErrors", Errors(Validation(errors)));
      reply := Redirect(302, "/egar/summary");
    } else {
      reply := Next;
    }
  }

  /** `(req.query.r || 0) + 1`: the number of this status-check attempt. */
  function Attempt(r: Option<nat>): (n: nat)
    ensures n >= 1
    ensures r.Some? ==> n == r.value + 1
  {
    (if r.Some? then r.value else 0) + 1
  }

  /**
   * The plan as the code is written: a DRAFT or FAILED GAR is submitted, any other state is
   * polled again. The TIMEOUT answer built for the last attempt is overwritten by a new poll
   * before it is returned, so the attempt count plays no part.
   */
  function ChoosePlanAsWritten(state: string): (p: PollPlan)
    ensures p == ActThenPoll <==> state == Draft || state == FailedState
    ensures p != GiveUp
  {
    if state == Draft || state == FailedState then ActThenPoll else PollAgain
  }

  /** The plan as intended: on the configured last attempt, give up with a TIMEOUT instead of polling. */
  function ChoosePlan(state: string, attempt: int, maxPolls: int): (p: PollPlan)
    ensures p == ActThenPoll <==> state == Draft || state == FailedState
    ensures p == GiveUp <==> state != Draft && state != FailedState && attempt == maxPolls
  {
    if state == Draft || state == FailedState then ActThenPoll
    else if attempt == maxPolls then GiveUp
    else PollAgain
  }

  /** How the submission settles: with a submission record, or with the poll timing out. */
  datatype Settled = Settled(submission: Submission) | PollTimedOut

  /**
   * The submission the plan ends with: a rejected submit reads as FAILED, a poll gives its
   * terminal submission or times out, and giving up reads as TIMEOUT with the timeout message.
   */
  function SettleSubmission(plan: PollPlan, submitAccepted: bool, poll: PollOutcome, tr: string -> string): (s: Settled)
    requires !poll.Pending?
    ensures plan == ActThenPoll && !submitAccepted ==> s == Settled(Submission(Some("FAILED"), None))
    ensures plan == GiveUp ==> s == Settled(Submission(Some("TIMEOUT"), Some(tr("errors.submission-timeout"))))
    ensures s == PollTimedOut <==> poll.Rejected? && (plan == PollAgain || (plan == ActThenPoll && submitAccepted))
  {
    match plan
    case ActThenPoll =>
      if !submitAccepted then Settled(Submission(Some("FAILED"), None))
      else if poll.Resolved? then Settled(poll.submission) else PollTimedOut
    case PollAgain => if poll.Resolved? then Settled(poll.submission) else PollTimedOut
    case GiveUp => Settled(Submission(Some("TIMEOUT"), Some(tr("errors.submission-timeout"))))
  }

  /**
   * The end of saveValues for a settled submission: SUBMITTED goes on to the confirmation;
   * anything else stores its reason (or the generic failure message) and returns to the summary
   * with e=3; a timed-out poll re-posts to the submit page with the attempt count.
   */
  function SubmitReply(settled: Settled, attempt: nat, tr: string -> string): (r: (Reply, Option<GarErrors>))
    ensures r.0 == Next <==> settled.Settled? && settled.submission.status == Some(Submitted)
    ensures r.1.Some? <==> settled.Settled? && settled.submission.status != Some(Submitted)
    ensures r.1.Some? ==>
      r.0 == Redirect(302, "/egar/summary?e=3")
      && r.1.value == Reason(if Truthy(settled.submission.reason) then settled.submission.reason.value
                             else tr("errors.submission-failed"))
    ensures settled.PollTimedOut? ==> r.0 == Redirect(307, "/egar/submit?r=" + NatToString(attempt))
  {
    match settled
    case PollTimedOut => (Redirect(307, "/egar/submit?r=" + NatToString(attempt)), None)
    case Settled(submission) =>
      if submission.status == Some(Submitted) then (Next, None)
      else
        var reason := if Truthy(submission.reason) then submission.reason.value else tr("errors.submission-failed");
        (Redirect(302, "/egar/summary?e=3"), Some(Reason(reason)))
  }

  /**
   * As written, a GAR that is neither DRAFT nor FAILED whose polls keep timing out is sent back
   * to the submit page on every attempt, the configured last one included: the retries never end.
   */
  lemma AsWrittenRetriesForever(state: string, r: Option<nat>, tr: string -> string)
    requires state != Draft && state != FailedState
    ensures SubmitReply(SettleSubmission(ChoosePlanAsWritten(state), true, Rejected, tr), Attempt(r), tr).0
      == Redirect(307, "/egar/submit?r=" + NatToString(Attempt(r)))
  {
  }

  /**
   * As intended, the attempt that reaches the configured maximum stops: the user is returned to
   * the summary with the submission-timeout reason, whatever the poll would have done.
   */
  lemma IntendedRetriesStop(state: string, r: Option<nat>, maxPolls: nat, poll: PollOutcome, tr: string -> string)
    requires state != Draft && state != FailedState && Attempt(r) == maxPolls
    requires !poll.Pending?
    requires tr("errors.submission-timeout") != ""
    ensures SubmitReply(SettleSubmission(ChoosePlan(state, Attempt(r), maxPolls), true, poll, tr), Attempt(r), tr)
      == (Redirect(302, "/egar/summary?e=3"), Some(Reason(tr("errors.submission-timeout"))))
  {
    assert "TIMEOUT" != Submitted by {
      assert |"TIMEOUT"| != |Submitted|;
    }
  }

  /**
   * saveValues: with submit-gar, read the GAR's state, submit or poll according to the plan and
   * act on how the submission settles; with save-as-draft, go to the GAR list; otherwise send
   * nothing. `status` is the state read, `submitAccepted` whether the submit POST succeeded and
   * `poll` how the poll it started settled.
   */
  method SaveValues(session: SessionModel, submitGar: bool, saveAsDraft: bool, r: Option<nat>,
                    status: Fetched, submitAccepted: bool, poll: PollOutcome, maxPolls: int, tr: string -> string)
    returns (reply: Reply)
    requires !poll.Pending?
    modifies session
    ensures submitGar ==>
      var plan := ChoosePlan(GetGarStatus(SubmissionOf(status), tr).status, Attempt(r), maxPolls);
      var outcome := SubmitReply(SettleSubmission(plan, submitAccepted, poll, tr), Attempt(r), tr);
      reply == outcome.0
      && session.attributes == (if outcome.1.Some? then old(session.attributes)["garErrors" := Errors(outcome.1.value)]
                                else old(session.attributes))
    ensures !submitGar && saveAsDraft ==> reply == Redirect(302, "/egar/manage-gars") && session.attributes == old(session.attributes)
    ensures !submitGar && !saveAsDraft ==> reply == NoReply && session.attributes == old(session.attributes)
  {
    if submitGar {
      var attempt := Attempt(r);
      var state := GetGarStatus(SubmissionOf(status), tr).status;
      var settled := SettleSubmission(ChoosePlan(state, attempt, maxPolls), submitAccepted, poll, tr);
      var outcome := SubmitReply(settled, attempt, tr);
      if outcome.1.Some? {
        session.Set("garErrors", Errors(outcome.1.value));
      }
      reply := outcome.0;
    } else if saveAsDraft {
      reply := Redirect(302, "/egar/manage-gars");
    } else {
      reply := NoReply;
    }
  }
}
