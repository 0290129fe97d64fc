/**
 * The GAR summary page's view model: the summary object createSummary builds from a GAR summary
 * (aircraft, legs, people, hazardous goods, files, the page mode and the state), with the stored
 * validation errors merged into it, and the locals the page renders with.
 */
module SummaryView {
  import opened Common
  import opened GarModel
  import opened GarService
  import opened SubmitBehaviour
  import Aggregator

  const PendingFileStates: seq<string> := ["UPLOADING", "AWAITING_VIRUS_SCAN"]

  /** A string-valued detail of a record, undefined when missing or not a string. */
  function StrOf(record: map<string, Scalar>, key: string): (r: Option<string>)
    ensures r.Some? <==> key in record && record[key].Str?
    ensures r.Some? ==> r.value == record[key].s
  {
    if key in record && record[key].Str? then Some(record[key].s) else None
  }

  /** `${x}` of a nilable coordinate, as getPointString prints it: nil prints as ''. */
  function OrEmpty(c: Option<string>): string
  {
    if c.Some? then c.value else ""
  }

  /** getPointString: "lat, long", or '' when both sides print empty. */
  function PointString(p: Point): (r: string)
    ensures r == "" <==> OrEmpty(p.latitude) == "" && OrEmpty(p.longitude) == ""
    ensures r != "" ==> r == OrEmpty(p.latitude) + ", " + OrEmpty(p.longitude)
  {
    var location := OrEmpty(p.latitude) + ", " + OrEmpty(p.longitude);
    if location == ", " then "" else location
  }

  /** The place of a leg on the summary: its ICAO code, else its IATA code, else its point. */
  function Place(l: Location): (r: string)
    ensures l.icao.Some? ==> r == l.icao.value
    ensures l.icao.None? && l.iata.Some? ==> r == l.iata.value
    ensures l.icao.None? && l.iata.None? && l.point.Some? ==> r == PointString(l.point.value)
    ensures l.icao.None? && l.iata.None? && l.point.None? ==> r == ""
  {
    if l.icao.Some? then l.icao.value
    else if l.iata.Some? then l.iata.value
    else if l.point.Some? then PointString(l.point.value)
    else ""
  }

  /**
   * For a leg given by its point alone, the summary prints the place exactly as the
   * pre-submission check renders it whenever both coordinates are given and not both empty (the
   * two differ for a null coordinate, which the summary prints as '' and the check as "null").
   */
  lemma PlaceAgreesWithCheck(l: Location)
    requires l.icao.None? && l.iata.None?
    requires l.point.Some? && l.point.value.latitude.Some? && l.point.value.longitude.Some?
    requires l.point.value.latitude.value != "" || l.point.value.longitude.value != ""
    ensures RenderedPlace(Some(l)) == Some(Place(l))
  {
  }

  /** The date shown for a leg: '' for no date-time or the 1900 "no date" marker. */
  function ShownDate(datetime: Option<string>): (r: string)
    ensures datetime.None? ==> r == ""
    ensures datetime.Some? && ParseIso(datetime.value).Some? ==>
      (r == "" <==> ParseIso(datetime.value).value.year == 1900)
    ensures datetime.Some? && ParseIso(datetime.value).None? ==> r == "Invalid date"
  {
    if datetime.None? then ""
    else
      var t := ParseIso(datetime.value);
      if t.Some? && t.value.year == 1900 then "" else FormatDate(datetime.value, " ")
  }

  /** The time shown for a leg: '' for no date-time or the :59 "no time" marker. */
  function ShownTime(datetime: Option<string>): (r: string)
    ensures datetime.None? ==> r == ""
    ensures datetime.Some? && ParseIso(datetime.value).Some? ==>
      (r == "" <==> ParseIso(datetime.value).value.second == 59)
    ensures datetime.Some? && ParseIso(datetime.value).None? ==> r == "Invalid date"
  {
    if datetime.None? then ""
    else
      var t := ParseIso(datetime.value);
      if t.Some? && t.value.second == 59 then "" else FormatTime(datetime.value, " ")
  }

  /**
   * The pre-submission date check and the summary agree: a given date-time passes validateDate
   * exactly when the summary shows a date for it, and validateTime exactly when it shows a time.
   */
  lemma CheckedExactlyWhenShown(datetime: Option<string>)
    requires Truthy(datetime)
    ensures ValidDate(datetime) <==> ShownDate(datetime) != ""
    ensures ValidTime(datetime) <==> ShownTime(datetime) != ""
  {
  }

  /** A leg on the summary; the error properties are undefined until stored errors are merged in. */
  datatype LegView = LegView(
    date: Option<string>, time: Option<string>, location: Option<string>,
    dateError: Option<string>, timeError: Option<string>, locationError: Option<string>)

  /** A leg as the summary shows it: date, time and place. */
  function ShowLeg(l: Location): (v: LegView)
    ensures v.date == Some(ShownDate(l.datetime)) && v.time == Some(ShownTime(l.datetime))
    ensures v.location == Some(Place(l))
    ensures v.dateError.None? && v.timeError.None? && v.locationError.None?
  {
    LegView(Some(ShownDate(l.datetime)), Some(ShownTime(l.datetime)), Some(Place(l)), None, None, None)
  }

  /** getDeparture: the first location, when the list has one and it is not null. */
  function DepartureView(locations: Option<seq<Option<Location>>>): (r: Option<LegView>)
    ensures r.Some? <==> locations.Some? && |locations.value| > 0 && locations.value[0].Some?
    ensures r.Some? ==> r.value == ShowLeg(locations.value[0].value)
  {
    if locations.Some? && |locations.value| > 0 && locations.value[0].Some? then Some(ShowLeg(locations.value[0].value))
    else None
  }

  /**
   * getArrivals: the last location, when it is at index 1 or later and not null; without a
   * location list the code throws (None).
   */
  function ArrivalView(locations: Option<seq<Option<Location>>>): (r: Option<Option<LegView>>)
    ensures r.None? <==> locations.None?
    ensures r.Some? ==> (r.value.Some? <==> |locations.value| >= 2 && locations.value[|locations.value| - 1].Some?)
    ensures r.Some? && r.value.Some? ==> r.value.value == ShowLeg(locations.value[|locations.value| - 1].value)
  {
    if locations.None? then None
    else
      var ls := locations.value;
      if |ls| - 1 >= 1 && ls[|ls| - 1].Some? then Some(Some(ShowLeg(ls[|ls| - 1].value))) else Some(None)
  }

  /** The aircraft on the summary; `errors` holds the four error messages once merged in. */
  datatype AircraftView = AircraftView(
    registration: Option<string>, aircraftType: Option<string>, base: Option<string>, taxesPaid: Option<string>,
    errors: seq<string>)

  /** getAircraftDetails: registration, type and base, and taxesPaid as Yes/No when it is given. */
  function ShowAircraft(aircraft: map<string, Scalar>): (v: AircraftView)
    ensures v.taxesPaid.Some? <==> "taxesPaid" in aircraft
    ensures v.taxesPaid.Some? ==> (v.taxesPaid.value == "Yes" <==> ScalarTruthy(aircraft["taxesPaid"]))
    ensures v.taxesPaid.Some? ==> (v.taxesPaid.value == "No" <==> !ScalarTruthy(aircraft["taxesPaid"]))
    ensures v.registration == StrOf(aircraft, "registration") && v.aircraftType == StrOf(aircraft, "type")
    ensures v.base == StrOf(aircraft, "base") && v.errors == []
  {
    AircraftView(StrOf(aircraft, "registration"), StrOf(aircraft, "type"), StrOf(aircraft, "base"),
      if "taxesPaid" in aircraft then Some(if ScalarTruthy(aircraft["taxesPaid"]) then "Yes" else "No") else None,
      [])
  }

  /** Hazardous goods on the summary. */
  datatype HazardousView = HazardousView(goods: Option<string>, goodsError: Option<string>)

  /** getHazardousGoods: Yes/No when the attributes say whether hazardous goods are carried. */
  function ShowHazardous(attributes: Option<Attributes>): (r: Option<HazardousView>)
    ensures r.Some? <==> attributes.Some? && attributes.value.hazardous.Some?
    ensures r.Some? ==> r.value.goods == Some(if attributes.value.hazardous.value then "Yes" else "No")
    ensures r.Some? ==> r.value.goodsError.None?
  {
    if attributes.Some? && attributes.value.hazardous.Some? then
      Some(HazardousView(Some(if attributes.value.hazardous.value then "Yes" else "No"), None))
    else None
  }

  /**
   * The responsible_person object of a GAR's attributes as the summary holds it; captainResponsible
   * is the property createPerson adds when it relabels the object.
   */
  datatype ResponsibleView = ResponsibleView(
    rtype: Option<string>, captainResponsible: Option<bool>, name: Option<string>, contactNumber: Option<string>)

  /** The attributes object of a GAR, which getAttributes stores in the summary as it is. */
  datatype AttributesView = AttributesView(hazardous: Option<bool>, responsiblePerson: Option<ResponsibleView>)

  /** The attributes object as the API returns it: no responsible person carries captainResponsible yet. */
  function AttributesObject(a: Attributes): (r: AttributesView)
    ensures r.hazardous == a.hazardous
    ensures r.responsiblePerson.Some? <==> a.responsiblePerson.Some?
    ensures r.responsiblePerson.Some? ==>
      var rp := a.responsiblePerson.value;
      r.responsiblePerson.value == ResponsibleView(rp.rtype, None, rp.name, rp.contactNumber)
  {
    var rp := a.responsiblePerson;
    AttributesView(a.hazardous, if rp.Some? then Some(ResponsibleView(rp.value.rtype, None, rp.value.name, rp.value.contactNumber)) else None)
  }

  /**
   * createPerson's in-place relabelling of the responsible person: CAPTAIN becomes Captain with
   * captainResponsible true, OTHER becomes Other with captainResponsible false, any other type is
   * left alone. A relabelled object is never relabelled again.
   */
  function Relabel(v: ResponsibleView): (r: ResponsibleView)
    ensures r.name == v.name && r.contactNumber == v.contactNumber
    ensures v.rtype == Some("CAPTAIN") ==> r.rtype == Some("Captain") && r.captainResponsible == Some(true)
    ensures v.rtype == Some("OTHER") ==> r.rtype == Some("Other") && r.captainResponsible == Some(false)
    ensures v.rtype != Some("CAPTAIN") && v.rtype != Some("OTHER") ==> r == v
    ensures r.rtype != Some("CAPTAIN") && r.rtype != Some("OTHER")
  {
    if v.rtype == Some("CAPTAIN") then v.(rtype := Some("Captain"), captainResponsible := Some(true))
    else if v.rtype == Some("OTHER") then v.(rtype := Some("Other"), captainResponsible := Some(false))
    else v
  }

  /** The attributes object after createPerson relabelled its responsible person, when it has one. */
  function RelabelShared(a: Option<AttributesView>): (r: Option<AttributesView>)
    ensures r.Some? <==> a.Some?
    ensures r.Some? ==> r.value.hazardous == a.value.hazardous
    ensures r.Some? ==> (r.value.responsiblePerson.Some? <==> a.value.responsiblePerson.Some?)
    ensures r.Some? && r.value.responsiblePerson.Some? ==>
      r.value.responsiblePerson.value == Relabel(a.value.responsiblePerson.value)
  {
    if a.Some? && a.value.responsiblePerson.Some? then
      Some(a.value.(responsiblePerson := Some(Relabel(a.value.responsiblePerson.value))))
    else a
  }

  /** Relabelling the shared object a second time changes nothing. */
  lemma RelabelSharedTwice(a: Option<AttributesView>)
    ensures RelabelShared(RelabelShared(a)) == RelabelShared(a)
  {
    if a.Some? && a.value.responsiblePerson.Some? {
      var v := a.value.responsiblePerson.value;
      assert Relabel(Relabel(v)) == Relabel(v);
    }
  }

  /** The personal details the summary shows for a person. */
  datatype ShownDetails = ShownDetails(
    forename: Option<string>, surname: Option<string>, gender: string, address: Option<string>, dob: string,
    place: Option<string>, nationality: string, documentType: Option<string>, documentNo: Option<string>,
    documentExpiry: string, documentIssueCountry: string)

  /**
   * A person on the summary: the shown details (undefined for a captain the summary only holds
   * errors for), the list bookkeeping, and the error messages once merged in.
   */
  datatype PersonView = PersonView(
    details: Option<ShownDetails>, id: Option<string>, number: Option<nat>, isLast: Option<bool>,
    responsible: Option<ResponsibleView>, errors: seq<string>)

  /** A date detail in 'DD MM YYYY': '' when it is not given. */
  function ShownDay(d: Option<string>): (r: string)
    ensures r == "" <==> !Truthy(d)
  {
    if Truthy(d) then FormatDay(d.value) else ""
  }

  /** A country detail shown by name: '' when it is not given. */
  function ShownCountry(code: Option<string>, countryName: string -> string): string
  {
    if Truthy(code) then countryName(code.value) else ""
  }

  /** The details of a person record as the summary shows them. */
  function ShowDetails(d: map<string, Scalar>, countryName: string -> string): ShownDetails
  {
    var documentType := StrOf(d, "document_type");
    ShownDetails(
      StrOf(d, "given_name"), StrOf(d, "family_name"), UpperFirst(ToLower(OrEmpty(StrOf(d, "gender")))),
      StrOf(d, "address"), ShownDay(StrOf(d, "dob")), StrOf(d, "place"),
      ShownCountry(StrOf(d, "nationality"), countryName),
      if documentType == Some("idcard") then Some("Identity card") else documentType,
      StrOf(d, "document_no"), ShownDay(StrOf(d, "document_expiryDate")),
      ShownCountry(StrOf(d, "document_issuingCountry"), countryName))
  }

  /**
   * What the summary shows of a person: the names as given; the gender as given up to case, with
   * a capital first letter; a readable date of birth or expiry date as its own day, month and year
   * digits, and blank exactly when not given; a country by its name, blank when not given; and an
   * identity card under its display name.
   */
  lemma ShowDetailsSpec(d: map<string, Scalar>, countryName: string -> string)
    ensures var v := ShowDetails(d, countryName);
      && v.forename == StrOf(d, "given_name") && v.surname == StrOf(d, "family_name")
      && ToLower(v.gender) == ToLower(OrEmpty(StrOf(d, "gender")))
      && (v.gender != "" ==> !('a' <= v.gender[0] <= 'z'))
      && (v.dob == "" <==> !Truthy(StrOf(d, "dob")))
      && (Truthy(StrOf(d, "dob")) && ParseDay(d["dob"].s).Some? ==>
            v.dob == d["dob"].s[8..10] + " " + d["dob"].s[5..7] + " " + d["dob"].s[0..4])
      && (v.documentExpiry == "" <==> !Truthy(StrOf(d, "document_expiryDate")))
      && (StrOf(d, "document_type") == Some("idcard") ==> v.documentType == Some("Identity card"))
      && (StrOf(d, "document_type") != Some("idcard") ==> v.documentType == StrOf(d, "document_type"))
      && (Truthy(StrOf(d, "nationality")) ==> v.nationality == countryName(d["nationality"].s))
      && (!Truthy(StrOf(d, "nationality")) ==> v.nationality == "")
      && (!Truthy(StrOf(d, "document_issuingCountry")) ==> v.documentIssueCountry == "")
  {
    var g := ToLower(OrEmpty(StrOf(d, "gender")));
    var v := ShowDetails(d, countryName);
    assert v.gender == UpperFirst(g);
    if g != "" {
      assert ToLower(UpperFirst(g))[0] == LowerChar(UpperChar(g[0])) == g[0];
      assert ToLower(UpperFirst(g)) == g;
    }
  }

  /**
   * createPerson: the person's shown details, the list bookkeeping and, for the captain, the
   * responsible person of the attributes object it is given, relabelled; None where the code
   * throws, for a person record without details. The relabelling happens in place on that object
   * (RelabelShared), so the person's responsible person and the object's are one and the same.
   */
  function CreatePerson(p: Person, attributes: Option<AttributesView>, isLast: Option<bool>, number: Option<nat>,
                        countryName: string -> string): (r: Option<PersonView>)
    ensures r.None? <==> p.details.None?
    ensures r.Some? ==> r.value.details == Some(ShowDetails(p.details.value, countryName)) && r.value.errors == []
    ensures r.Some? ==> r.value.id == p.personUuid && r.value.number == number && r.value.isLast == isLast
    ensures r.Some? && attributes.Some? && attributes.value.responsiblePerson.Some? ==>
      r.value.responsible == Some(Relabel(attributes.value.responsiblePerson.value))
      && r.value.responsible == RelabelShared(attributes).value.responsiblePerson
    ensures r.Some? && (attributes.None? || attributes.value.responsiblePerson.None?) ==> r.value.responsible.None?
  {
    if p.details.None? then None
    else
      var responsible :=
        if attributes.Some? && attributes.value.responsiblePerson.Some? then Some(Relabel(attributes.value.responsiblePerson.value))
        else None;
      Some(PersonView(Some(ShowDetails(p.details.value, countryName)), p.personUuid, number, isLast, responsible, []))
  }

  /** The entries of a list when every one is defined; None (a throw) as soon as one is not. */
  function Collect<T>(xs: seq<Option<T>>): Option<seq<T>>
  {
    if xs == [] then Some([])
    else
      var init := Collect(xs[..|xs| - 1]);
      if init.None? || xs[|xs| - 1].None? then None else Some(init.value + [xs[|xs| - 1].value])
  }

  /** Collecting fails exactly when an entry is undefined, and otherwise keeps every entry in order. */
  lemma {:induction false} CollectSpec<T>(xs: seq<Option<T>>)
    ensures Collect(xs).None? <==> exists i :: 0 <= i < |xs| && xs[i].None?
    ensures Collect(xs).Some? ==> |Collect(xs).value| == |xs|
    ensures Collect(xs).Some? ==> forall i :: 0 <= i < |xs| ==> Some(Collect(xs).value[i]) == xs[i]
  {
    if xs != [] {
      var init := xs[..|xs| - 1];
      CollectSpec(init);
      assert forall i :: 0 <= i < |init| ==> init[i] == xs[i];
    }
  }

  lemma CollectStep<T>(xs: seq<Option<T>>, i: nat, listed: seq<T>)
    requires i < |xs| && Collect(xs[..i]) == Some(listed)
    ensures Collect(xs[..i + 1]) == if xs[i].Some? then Some(listed + [xs[i].value]) else None
  {
    assert xs[..i + 1][..i] == xs[..i];
  }

  lemma CollectNoneStays<T>(xs: seq<Option<T>>, n: nat)
    requires n <= |xs| && Collect(xs[..n]).None?
    ensures Collect(xs).None?
  {
    CollectSpec(xs[..n]);
    CollectSpec(xs);
    var i :| 0 <= i < n && xs[..n][i].None?;
    assert xs[i].None?;
  }

  /** Each person of a crew or passenger list created in turn: numbered by position, marked last when final. */
  function PersonSlots(people: seq<Person>, countryName: string -> string): (r: seq<Option<PersonView>>)
    ensures |r| == |people|
  {
    seq(|people|, i requires 0 <= i < |people| =>
      CreatePerson(people[i], None, Some(i == |people| - 1), Some(i), countryName))
  }

  /** getCrew and getPassengers, as a value: the created people, None where a person has no details. */
  function PeopleViews(people: seq<Person>, countryName: string -> string): Option<seq<PersonView>>
  {
    Collect(PersonSlots(people, countryName))
  }

  /**
   * The listing throws exactly when some person has no details; otherwise the person numbered i
   * is the i-th, and exactly the final one is marked last.
   */
  lemma OnlyFinalPersonIsLast(people: seq<Person>, countryName: string -> string, i: nat)
    requires i < |people|
    ensures PeopleViews(people, countryName).None? <==> exists j :: 0 <= j < |people| && people[j].details.None?
    ensures PeopleViews(people, countryName).Some? ==> |PeopleViews(people, countryName).value| == |people|
    ensures PeopleViews(people, countryName).Some? ==> PeopleViews(people, countryName).value[i].number == Some(i)
    ensures PeopleViews(people, countryName).Some? ==>
      (PeopleViews(people, countryName).value[i].isLast == Some(true) <==> i == |people| - 1)
    ensures PeopleViews(people, countryName).Some? ==> PeopleViews(people, countryName).value[i].id == people[i].personUuid
  {
    var slots := PersonSlots(people, countryName);
    CollectSpec(slots);
    forall j | 0 <= j < |people| ensures slots[j].None? <==> people[j].details.None? {
    }
    var r := PeopleViews(people, countryName);
    if r.Some? {
      assert Some(r.value[i]) == slots[i];
    }
  }

  /** A file on the summary. */
  datatype FileView = FileView(
    filename: Option<string>, filestatus: string, fileId: Option<string>, isLast: bool,
    fileNameError: Option<string>, fileStatusError: Option<string>)

  /** `file-states.${file_status}`: an undefined status prints as "undefined". */
  function StatusKey(status: Option<string>): string
  {
    "file-states." + (if status.Some? then status.value else "undefined")
  }

  function CreateFile(f: GarFile, isLast: bool, tr: string -> string): FileView
  {
    FileView(f.fileName, tr(StatusKey(f.fileStatus)), f.fileUuid, isLast, None, None)
  }

  /**
   * getFiles' listing: one entry per file, in order, with the file's name and id, its status
   * translated under 'file-states.', no error yet, and only the final file marked last.
   */
  function FileViews(fs: seq<GarFile>, tr: string -> string): (r: seq<FileView>)
    ensures |r| == |fs|
    ensures forall i :: 0 <= i < |fs| ==> r[i].filename == fs[i].fileName && r[i].fileId == fs[i].fileUuid
    ensures forall i :: 0 <= i < |fs| ==> r[i].filestatus == tr(StatusKey(fs[i].fileStatus))
    ensures forall i :: 0 <= i < |fs| ==> (r[i].isLast <==> i == |fs| - 1)
    ensures forall i :: 0 <= i < |fs| ==> r[i].fileNameError.None? && r[i].fileStatusError.None?
  {
    seq(|fs|, i requires 0 <= i < |fs| => CreateFile(fs[i], i == |fs| - 1, tr))
  }

  /** A file still being uploaded or scanned. */
  predicate IsPending(f: GarFile)
  {
    f.fileStatus.Some? && f.fileStatus.value in PendingFileStates
  }

  /** The summary page's mode: its headings, whether parts can be changed, and its buttons. */
  datatype ModeView = ModeView(
    heading: string, subheading: string, showChange: bool, mode: string,
    showCancelButton: bool, showReturnButton: bool, showContinueButton: bool)

  const SubmitSubheading := "Please check and review your GAR details before you proceed to submit."

  /** getSummaryMode: cancel, view and edit have their own settings; any other mode is 'summary'. */
  function SummaryMode(summaryMode: Option<string>): (r: ModeView)
    ensures summaryMode == Some("cancel") ==> r.showCancelButton && r.showReturnButton && !r.showContinueButton
    ensures summaryMode == Some("view") ==> !r.showCancelButton && r.showReturnButton && !r.showContinueButton
    ensures summaryMode == Some("edit") ==> !r.showCancelButton && !r.showReturnButton && r.showContinueButton
    ensures summaryMode in {Some("cancel"), Some("view"), Some("edit")} ==> r.mode == summaryMode.value
    ensures summaryMode !in {Some("cancel"), Some("view"), Some("edit")} ==>
      r == ModeView("GAR summary", SubmitSubheading, true, "summary", false, false, true)
  {
    match summaryMode
    case Some("cancel") =>
      ModeView("Cancel my GAR", "Please check and review your GAR details before you proceed to cancel.", false,
               "cancel", true, true, false)
    case Some("view") => ModeView("View my GAR", "", false, "view", false, true, false)
    case Some("edit") => ModeView("Edit my GAR", SubmitSubheading, true, "edit", false, false, true)
    case _ => ModeView("GAR summary", SubmitSubheading, true, "summary", false, false, true)
  }

  /**
   * In every mode the details can be changed exactly when the page continues to submission,
   * the cancel button comes with a return button, and the page offers continue or return but
   * never both.
   */
  lemma SummaryModeConsistent(summaryMode: Option<string>)
    ensures SummaryMode(summaryMode).showChange <==> SummaryMode(summaryMode).showContinueButton
    ensures SummaryMode(summaryMode).showCancelButton ==> SummaryMode(summaryMode).showReturnButton
    ensures SummaryMode(summaryMode).showContinueButton <==> !SummaryMode(summaryMode).showReturnButton
  {
  }

  /** Where a button of the summary page stands: cancel first, then return, then continue. */
  function ButtonRank(id: string): int
  {
    if id == "cancel-gar" then 0 else if id == "return" then 1 else 2
  }

  /** A button named by its id and worded by translating 'buttons.<id>'. */
  function PageButton(id: string, tr: string -> string): Aggregator.Button
  {
    Aggregator.Button(id, id, tr("buttons." + id))
  }

  /**
   * The buttons the summary page's locals list: exactly the mode's buttons, each once, in the order
   * cancel, return, continue, each named by its id and worded by translating 'buttons.<id>'.
   */
  function ModeButtons(m: ModeView, tr: string -> string): (r: seq<Aggregator.Button>)
    ensures |r| == (if m.showCancelButton then 1 else 0) + (if m.showReturnButton then 1 else 0)
                   + (if m.showContinueButton then 1 else 0)
    ensures forall k :: 0 <= k < |r| ==>
      r[k].id in {"cancel-gar", "return", "continue"} && r[k].name == r[k].id && r[k].value == tr("buttons." + r[k].id)
    ensures (exists k :: 0 <= k < |r| && r[k].id == "cancel-gar") <==> m.showCancelButton
    ensures (exists k :: 0 <= k < |r| && r[k].id == "return") <==> m.showReturnButton
    ensures (exists k :: 0 <= k < |r| && r[k].id == "continue") <==> m.showContinueButton
    ensures forall k, l :: 0 <= k < l < |r| ==> ButtonRank(r[k].id) < ButtonRank(r[l].id)
  {
    var cancel := if m.showCancelButton then [PageButton("cancel-gar", tr)] else [];
    var back := if m.showReturnButton then [PageButton("return", tr)] else [];
    var next := if m.showContinueButton then [PageButton("continue", tr)] else [];
    var r := cancel + back + next;
    assert m.showCancelButton ==> r[0].id == "cancel-gar";
    assert m.showReturnButton ==> r[|cancel|].id == "return";
    assert m.showContinueButton ==> r[|r| - 1].id == "continue";
    r
  }

  /**
   * locals: the base locals with the page title (the mode's heading, 'GAR summary' without a
   * summary) and the mode's buttons (none without a summary).
   */
  function SummaryLocals(base: Aggregator.LocalsMap, summary: Option<ModeView>, tr: string -> string)
    : (r: Aggregator.LocalsMap)
    ensures forall k :: k != "title" && k != "buttons" ==> (k in r <==> k in base) && (k in base ==> r[k] == base[k])
    ensures "title" in r && r["title"] == Aggregator.LText(
      if summary.Some? && summary.value.heading != "" then summary.value.heading else "GAR summary")
    ensures "buttons" in r
    ensures r["buttons"] == Aggregator.LButtons(if summary.Some? then ModeButtons(summary.value, tr) else [])
  {
    var title := if summary.Some? && summary.value.heading != "" then summary.value.heading else "GAR summary";
    assert "title"[0] != "buttons"[0];
    base["title" := Aggregator.LText(title)]["buttons" := Aggregator.LButtons(
      if summary.Some? then ModeButtons(summary.value, tr) else [])]
  }

  /** In every mode the page shows a button that leaves it: continue or return. */
  lemma SummaryPageHasWayOut(base: Aggregator.LocalsMap, summaryMode: Option<string>, tr: string -> string)
    ensures var buttons := SummaryLocals(base, Some(SummaryMode(summaryMode)), tr)["buttons"].buttons;
      exists k :: 0 <= k < |buttons| && buttons[k].id in {"continue", "return"}
  {
    var m := SummaryMode(summaryMode);
    var buttons := ModeButtons(m, tr);
    assert SummaryLocals(base, Some(m), tr)["buttons"].buttons == buttons;
    if m.showContinueButton {
      assert buttons[|buttons| - 1].id == "continue";
    } else {
      var k := if m.showCancelButton then 1 else 0;
      assert buttons[k].id == "return";
    }
  }

  // ---- findError and the merge of the stored validation errors ----

  /** An error for the field that, when an id is given, lists that id. */
  predicate Matches(e: ValidationError, field: string, id: Option<string>)
  {
    e.field == field && (Truthy(id) ==> e.id.Some? && Some(id.value) in e.id.value)
  }

  /** The index of the first matching error. */
  function FirstMatch(validation: seq<ValidationError>, field: string, id: Option<string>): (i: Option<nat>)
    ensures i.Some? ==> i.value < |validation| && Matches(validation[i.value], field, id)
    ensures i.Some? ==> forall j :: 0 <= j < i.value ==> !Matches(validation[j], field, id)
    ensures i.None? ==> forall j :: 0 <= j < |validation| ==> !Matches(validation[j], field, id)
  {
    if validation == [] then None
    else
      var p := FirstMatch(validation[..|validation| - 1], field, id);
      if p.Some? then p
      else if Matches(validation[|validation| - 1], field, id) then Some(|validation| - 1)
      else None
  }

  /** findError: the message of the first matching error, '' when there is none. */
  function FindError(validation: seq<ValidationError>, field: string, id: Option<string>): (r: string)
    ensures FirstMatch(validation, field, id).None? ==> r == ""
    ensures FirstMatch(validation, field, id).Some? ==> r == validation[FirstMatch(validation, field, id).value].message
  {
    var i := FirstMatch(validation, field, id);
    if i.None? then "" else validation[i.value].message
  }

  /**
   * The validation fields a crew member's or passenger's nine error messages (forename, surname,
   * dob, place, nationality, document type, number, expiry and issuing country) are looked up under.
   */
  function LookupFields(section: string): (r: seq<string>)
    ensures |r| == 9 && forall j :: 0 <= j < 9 ==> r[j] == section + "-" + PersonFields[j]
  {
    seq(9, j requires 0 <= j < 9 => section + "-" + PersonFields[j])
  }

  /**
   * The passengers' lookup fields as written: the issuing-country error is looked up under
   * 'passenger-' where validation files it under 'passengers-'.
   */
  function PassengerLookupAsWritten(): (r: seq<string>)
    ensures |r| == 9 && r[8] == "passenger-document_issuingCountry"
    ensures r[..8] == LookupFields("passengers")[..8]
  {
    LookupFields("passengers")[..8] + ["passenger-document_issuingCountry"]
  }

  /** The captain's lookup fields: the nine personal ones and the responsible person's three. */
  const CaptainLookups: seq<string> := LookupFields("captain") + ["captain-responsible-person-type",
    "captain-responsible-person-name", "captain-responsible-person-number"]

  /** The error messages merged into a person: the message found for each lookup field and id. */
  function PersonErrors(validation: seq<ValidationError>, lookups: seq<string>, id: Option<string>): (r: seq<string>)
    ensures |r| == |lookups|
    ensures forall j :: 0 <= j < |lookups| ==> r[j] == FindError(validation, lookups[j], id)
  {
    seq(|lookups|, j requires 0 <= j < |lookups| => FindError(validation, lookups[j], id))
  }

  /** Each error of a crew or passenger listing is filed under `<section>-<detail>` and worded per detail. */
  predicate FiledUnder(e: ValidationError, section: string, tr: string -> string)
  {
    |e.field| > |section| && e.field[..|section| + 1] == section + "-" && e.id.Some? && |e.id.value| == 1
    && e.message == tr(if Truthy(e.id.value[0]) then "errors." + e.field[|section| + 1..] else "errors." + e.field)
  }

  lemma FiledUnderOne(p: Person, section: string, tr: string -> string, j: nat)
    requires j < 9 && RequiredFieldError(PersonFields[j], p.details, section, tr, p.personUuid).Some?
    ensures FiledUnder(RequiredFieldError(PersonFields[j], p.details, section, tr, p.personUuid).value, section, tr)
  {
    var e := RequiredFieldError(PersonFields[j], p.details, section, tr, p.personUuid).value;
    assert e.id.value[0] == p.personUuid;
    assert "errors." + section + "-" + PersonFields[j] == "errors." + e.field;
    assert e.field == section + "-" + PersonFields[j];
    assert e.field[|section| + 1..] == PersonFields[j];
    assert e.field[..|section| + 1] == section + "-";
  }

  lemma {:induction false} PeopleErrorsFiled(people: seq<Person>, section: string, tr: string -> string)
    ensures forall i :: 0 <= i < |PeopleErrors(people, section, tr)| && PeopleErrors(people, section, tr)[i].Some? ==>
      FiledUnder(PeopleErrors(people, section, tr)[i].value, section, tr)
  {
    if people != [] {
      var init := people[..|people| - 1];
      var last := people[|people| - 1];
      var checks := PersonChecks(last, section, tr);
      PeopleErrorsFiled(init, section, tr);
      forall j | 0 <= j < |checks| && checks[j].Some?
        ensures FiledUnder(checks[j].value, section, tr)
      {
        FiledUnderOne(last, section, tr, j);
      }
      assert PeopleErrors(people, section, tr) == PeopleErrors(init, section, tr) + checks;
    }
  }

  /** Every entry of a compacted list was a non-null entry of the original. */
  lemma {:induction false} CompactFrom(s: seq<Option<ValidationError>>)
    ensures forall e :: e in Compact(s) ==> Some(e) in s
  {
    if s != [] {
      CompactFrom(s[1..]);
      assert forall e :: Some(e) in s[1..] ==> Some(e) in s;
    }
  }

  /** Every non-null entry of the original survives compaction. */
  lemma {:induction false} CompactKeeps(s: seq<Option<ValidationError>>, i: nat)
    requires i < |s| && s[i].Some?
    ensures s[i].value in Compact(s)
  {
    if i > 0 {
      assert s[i] == s[1..][i - 1];
      CompactKeeps(s[1..], i - 1);
    }
  }

  /**
   * As written, the captain's missing responsible-person error is never shown beside the captain:
   * validation files it under 'captain-responsible-person', and the summary looks it up under
   * 'captain-responsible-person-type'.
   */
  lemma ResponsibleTypeErrorHidden(attributes: Option<Attributes>, tr: string -> string, id: Option<string>)
    ensures (attributes.None? || attributes.value.responsiblePerson.None?) ==>
      ValidateResponsiblePerson(attributes, tr) != []
    ensures PersonErrors(ValidateResponsiblePerson(attributes, tr), CaptainLookups, id)[9] == ""
  {
    var errs := ValidateResponsiblePerson(attributes, tr);
    var field := CaptainLookups[9];
    assert field == "captain-responsible-person-type";
    forall j | 0 <= j < |errs| ensures !Matches(errs[j], field, id) {
      var f := errs[j].field;
      assert f == "captain-responsible-person" || f == "captain-responsible-person-name"
          || f == "captain-responsible-person-number";
      assert |f| != |field| || f[27] != field[27];
    }
  }

  /**
   * As written, a passenger's issuing-country error is never shown: no error of the passengers'
   * validation is filed under the field it is looked up under.
   */
  lemma PassengerIssueErrorAsWrittenHidden(passengers: seq<Person>, tr: string -> string, id: Option<string>)
    ensures PersonErrors(Compact(PeopleErrors(passengers, "passengers", tr)), PassengerLookupAsWritten(), id)[8] == ""
  {
    var errs := Compact(PeopleErrors(passengers, "passengers", tr));
    var field := PassengerLookupAsWritten()[8];
    forall j | 0 <= j < |errs| ensures !Matches(errs[j], field, id) {
      CompactedFiled(passengers, "passengers", tr, errs[j]);
      NotUnderSingular(errs[j], tr, id);
    }
  }

  /** An error filed under 'passengers-' never has the field 'passenger-document_issuingCountry'. */
  lemma NotUnderSingular(e: ValidationError, tr: string -> string, id: Option<string>)
    requires FiledUnder(e, "passengers", tr)
    ensures !Matches(e, "passenger-document_issuingCountry", id)
  {
    assert e.field[9] == "passengers-"[9];
  }

  /** Person k's check of detail j sits at position 9k+j of the people's checks. */
  lemma CheckAt(people: seq<Person>, section: string, tr: string -> string, k: nat, j: nat)
    requires k < |people| && j < 9
    ensures 9 * k + j < |PeopleErrors(people, section, tr)|
    ensures PeopleErrors(people, section, tr)[9 * k + j]
      == RequiredFieldError(PersonFields[j], people[k].details, section, tr, people[k].personUuid)
  {
    PeopleErrorsLayout(people, section, tr);
    var s := PeopleErrors(people, section, tr);
    assert s[9 * k + j] == s[9 * k..9 * k + 9][j];
  }

  /** Every error left after compaction is filed under its section. */
  lemma CompactedFiled(people: seq<Person>, section: string, tr: string -> string, e: ValidationError)
    requires e in Compact(PeopleErrors(people, section, tr))
    ensures FiledUnder(e, section, tr)
  {
    var s := PeopleErrors(people, section, tr);
    CompactFrom(s);
    PeopleErrorsFiled(people, section, tr);
    var m :| 0 <= m < |s| && s[m] == Some(e);
  }

  /** An error filed under a section that matches a detail and a uuid carries that detail's own message. */
  lemma FiledMatchMessage(e: ValidationError, section: string, detail: string, id: Option<string>, tr: string -> string)
    requires FiledUnder(e, section, tr) && Matches(e, section + "-" + detail, id) && Truthy(id)
    ensures e.message == tr("errors." + detail)
  {
    assert e.id.value[0] == id by {
      assert Some(id.value) in e.id.value;
    }
    assert e.field[|section| + 1..] == detail;
  }

  /**
   * With the intended lookups, a crew member or passenger with a uuid who lacks detail j sees
   * that detail's message among their errors.
   */
  lemma MissingDetailShown(people: seq<Person>, section: string, tr: string -> string, k: nat, j: nat)
    requires k < |people| && j < 9 && Truthy(people[k].personUuid)
    requires !Present(people[k].details, PersonFields[j])
    ensures PersonErrors(Compact(PeopleErrors(people, section, tr)), LookupFields(section), people[k].personUuid)[j]
      == tr("errors." + PersonFields[j])
  {
    var s := PeopleErrors(people, section, tr);
    var errs := Compact(s);
    var id := people[k].personUuid;
    var field := LookupFields(section)[j];
    CheckAt(people, section, tr, k, j);
    CompactKeeps(s, 9 * k + j);
    var missing := s[9 * k + j].value;
    assert Matches(missing, field, id);
    var n :| 0 <= n < |errs| && errs[n] == missing;
    var i := FirstMatch(errs, field, id);
    assert i.Some?;
    var e := errs[i.value];
    CompactedFiled(people, section, tr, e);
    FiledMatchMessage(e, section, PersonFields[j], id, tr);
  }

  /** The corrected passenger lookup: a passenger with a uuid who lacks the issuing country sees its message. */
  lemma PassengerIssueErrorShown(passengers: seq<Person>, tr: string -> string, k: nat)
    requires k < |passengers| && Truthy(passengers[k].personUuid)
    requires !Present(passengers[k].details, "document_issuingCountry")
    ensures PersonErrors(Compact(PeopleErrors(passengers, "passengers", tr)), LookupFields("passengers"),
                         passengers[k].personUuid)[8]
      == tr("errors." + PersonFields[8])
  {
    MissingDetailShown(passengers, "passengers", tr, k, 8);
  }

  /** The concrete case: one passenger "p1" without an issuing country. */
  lemma PassengerIssueErrorCounterexample(tr: string -> string)
    requires tr("errors." + PersonFields[8]) != ""
    ensures var ps := [Person(Some("p1"), Some("PASSENGER"), Some(map[]))];
      var errs := Compact(PeopleErrors(ps, "passengers", tr));
      PersonErrors(errs, PassengerLookupAsWritten(), Some("p1"))[8] == ""
      && PersonErrors(errs, LookupFields("passengers"), Some("p1"))[8] != ""
  {
    var ps := [Person(Some("p1"), Some("PASSENGER"), Some(map[]))];
    PassengerIssueErrorAsWrittenHidden(ps, tr, Some("p1"));
    PassengerIssueErrorShown(ps, tr, 0);
  }

  /** `_.find(errors, e => e.field === field)` finds something. */
  predicate Reported(validation: seq<ValidationError>, field: string)
  {
    exists e :: e in validation && e.field == field
  }

  /** The validation fields getSummaryErrors reads for one leg. */
  datatype LegFields = LegFields(futureDate: string, date: string, time: string, location: string)

  const DepartureFields := LegFields("departure-future-date", "departure-date", "departure-time", "departure-location")
  const ArrivalFields := LegFields("arrival-future-date", "arrival-date", "arrival-time", "arrival-location")

  /** A future-date or ordering error concerns the leg. */
  predicate Dated(validation: seq<ValidationError>, names: LegFields)
  {
    Reported(validation, names.futureDate) || Reported(validation, "departure-arrival-date-error")
  }

  /** The error messages getSummaryErrors merges into a leg. */
  datatype LegErrs = LegErrs(dateError: Option<string>, timeError: Option<string>, locationError: Option<string>)

  /**
   * The errors merged into a leg: the leg's own date and time when a future-date or ordering
   * error concerns it, else the date or time error's message; the leg's place when the two legs
   * are at the same place, else the place error's message. None where the code throws: reading
   * the date or time of a leg the summary does not have.
   */
  function LegErrorProps(leg: Option<LegView>, names: LegFields, validation: seq<ValidationError>): (r: Option<LegErrs>)
    ensures r.None? <==> leg.None? && Dated(validation, names)
    ensures r.Some? && !Dated(validation, names) ==>
      r.value.dateError == Some(FindError(validation, names.date, None))
      && r.value.timeError == Some(FindError(validation, names.time, None))
    ensures r.Some? && Dated(validation, names) ==>
      r.value.dateError == leg.value.date && r.value.timeError == leg.value.time
    ensures r.Some? && !Reported(validation, "departure-arrival-location-error") ==>
      r.value.locationError == Some(FindError(validation, names.location, None))
    ensures r.Some? && Reported(validation, "departure-arrival-location-error") ==>
      r.value.locationError == (if leg.Some? then leg.value.location else None)
  {
    var dated := Dated(validation, names);
    var placed := Reported(validation, "departure-arrival-location-error");
    if dated && leg.None? then None
    else
      Some(LegErrs(
        if dated then leg.value.date else Some(FindError(validation, names.date, None)),
        if dated then leg.value.time else Some(FindError(validation, names.time, None)),
        if placed then (if leg.Some? then leg.value.location else None)
        else Some(FindError(validation, names.location, None))))
  }

  /**
   * `_.merge(leg, errors)`: the defined error messages overwrite the leg's, the shown values
   * stay; a missing leg becomes an object of the errors alone.
   */
  function MergeLeg(leg: Option<LegView>, e: LegErrs): (r: LegView)
    ensures e.dateError.Some? ==> r.dateError == e.dateError
    ensures e.timeError.Some? ==> r.timeError == e.timeError
    ensures e.locationError.Some? ==> r.locationError == e.locationError
    ensures leg.Some? ==> r.date == leg.value.date && r.time == leg.value.time && r.location == leg.value.location
    ensures leg.None? ==> r.date.None? && r.time.None? && r.location.None?
  {
    var l := if leg.Some? then leg.value else LegView(None, None, None, None, None, None);
    l.(dateError := if e.dateError.Some? then e.dateError else l.dateError,
       timeError := if e.timeError.Some? then e.timeError else l.timeError,
       locationError := if e.locationError.Some? then e.locationError else l.locationError)
  }

  /** A leg with its errors merged in; None where the code throws. */
  function MergedLeg(leg: Option<LegView>, names: LegFields, validation: seq<ValidationError>): Option<LegView>
  {
    var e := LegErrorProps(leg, names, validation);
    if e.None? then None else Some(MergeLeg(leg, e.value))
  }

  /** A person with error messages merged in; a missing captain becomes an object of errors alone. */
  function WithErrors(p: Option<PersonView>, errors: seq<string>): (r: PersonView)
    ensures r.errors == errors
    ensures p.Some? ==> r == p.value.(errors := errors)
    ensures p.None? ==> r.details.None? && r.id.None?
  {
    if p.Some? then p.value.(errors := errors) else PersonView(None, None, None, None, None, errors)
  }

  /** A listing with each person's errors, looked up under the section's fields and the person's id. */
  function ListingWithErrors(people: seq<PersonView>, validation: seq<ValidationError>, lookups: seq<string>)
    : (r: seq<PersonView>)
    ensures |r| == |people|
    ensures forall i :: 0 <= i < |people| ==>
      r[i] == people[i].(errors := PersonErrors(validation, lookups, people[i].id))
  {
    seq(|people|, i requires 0 <= i < |people| => people[i].(errors := PersonErrors(validation, lookups, people[i].id)))
  }

  /**
   * The passenger listing merged through the lookup fields as written (summary.js:520-522) is the
   * corrected listing with the issuing-country message blank, whenever no error is filed under
   * the singular field 'passenger-document_issuingCountry'.
   */
  lemma PassengerListingAsWritten(people: seq<PersonView>, validation: seq<ValidationError>)
    requires forall e :: e in validation ==> e.field != "passenger-document_issuingCountry"
    ensures var written := ListingWithErrors(people, validation, PassengerLookupAsWritten());
            var corrected := ListingWithErrors(people, validation, LookupFields("passengers"));
            && |written| == |corrected|
            && forall i :: 0 <= i < |people| ==> written[i] == corrected[i].(errors := corrected[i].errors[8 := ""])
  {
    var written := PassengerLookupAsWritten();
    var corrected := LookupFields("passengers");
    forall i | 0 <= i < |people|
      ensures PersonErrors(validation, written, people[i].id) == PersonErrors(validation, corrected, people[i].id)[8 := ""]
    {
      var id := people[i].id;
      var a := PersonErrors(validation, written, id);
      var b := PersonErrors(validation, corrected, id);
      forall j | 0 <= j < 8
        ensures a[j] == b[j]
      {
        assert written[j] == written[..8][j] == corrected[..8][j] == corrected[j];
      }
    }
  }

  /** The validation fields of the aircraft's error messages: registration, type, base and taxes paid. */
  const AircraftLookups: seq<string> := ["aircraft-registration", "aircraft-type", "aircraft-base", "aircraft-taxesPaid"]

  /** A file with its name and status flagged when an error lists its id. */
  function FileWithErrors(f: FileView, validation: seq<ValidationError>): (r: FileView)
    ensures FindError(validation, "files", f.fileId) != "" ==> r.fileNameError == f.filename && r.fileStatusError == Some(f.filestatus)
    ensures FindError(validation, "files", f.fileId) == "" ==> r.fileNameError.None? && r.fileStatusError.None?
    ensures r.filename == f.filename && r.fileId == f.fileId && r.filestatus == f.filestatus
  {
    var flagged := FindError(validation, "files", f.fileId) != "";
    f.(fileNameError := if flagged then f.filename else None, fileStatusError := if flagged then Some(f.filestatus) else None)
  }

  /** The file listing with each file's errors. */
  function FilesWithErrors(files: seq<FileView>, validation: seq<ValidationError>): (r: seq<FileView>)
    ensures |r| == |files| && forall i :: 0 <= i < |files| ==> r[i] == FileWithErrors(files[i], validation)
  {
    seq(|files|, i requires 0 <= i < |files| => FileWithErrors(files[i], validation))
  }

  /** A crew or passenger list the summary can show: every person on it has details. */
  predicate Listable(people: Option<seq<Person>>)
  {
    people.Some? ==> forall i :: 0 <= i < |people.value| ==> people.value[i].details.Some?
  }

  /** getCrew and getPassengers list a list that is there and not empty. */
  predicate Shown(people: Option<seq<Person>>)
  {
    people.Some? && |people.value| > 0
  }

  /** getPeople reads the details of every person the GAR lists and throws without them. */
  predicate PeopleReadable(people: People)
  {
    (people.captain.Some? ==> people.captain.value.details.Some?) && Listable(people.crew) && Listable(people.passengers)
  }

  /** getPeople calls createPerson with the attributes exactly when the GAR lists a captain. */
  predicate HasCaptain(gar: GarSummary)
  {
    gar.people.Some? && gar.people.value.captain.Some?
  }

  /**
   * The summary's attributes once the getters have run: the GAR's attributes object, with its
   * responsible person relabelled when a captain was created from it.
   */
  function SummaryAttributes(gar: GarSummary): (r: Option<AttributesView>)
    ensures r.Some? <==> gar.attributes.Some?
    ensures r.Some? && !HasCaptain(gar) ==> r == Some(AttributesObject(gar.attributes.value))
    ensures r.Some? && HasCaptain(gar) && r.value.responsiblePerson.Some? ==>
      r.value.responsiblePerson.value.rtype != Some("CAPTAIN") && r.value.responsiblePerson.value.rtype != Some("OTHER")
  {
    var stored := if gar.attributes.Some? then Some(AttributesObject(gar.attributes.value)) else None;
    if HasCaptain(gar) then RelabelShared(stored) else stored
  }

  /** getValues shows the stored errors unless the page is in 'view' mode. */
  function ShowErrors(summaryMode: Option<string>): (r: bool)
    ensures r <==> summaryMode != Some("view")
  {
    summaryMode != Some("view")
  }

  /** The summary merges the stored errors when it shows them and they are a validation list. */
  predicate MergesValidation(showErrors: bool, summaryErrors: Option<GarErrors>)
  {
    showErrors && summaryErrors.Some? && summaryErrors.value.Validation?
  }

  /** The summary object createSummary builds. */
  class SummaryPage {
    var garUuid: Option<string>
    var aircraftExists: bool
    var aircraft: Option<AircraftView>
    var attributesExists: bool
    var attributes: Option<AttributesView>
    var departureExists: bool
    var departure: Option<LegView>
    var arrivalExists: bool
    var arrival: Option<LegView>
    var captainExists: bool
    var crewExist: bool
    var passengersExist: bool
    var captain: Option<PersonView>
    var crew: Option<seq<PersonView>>
    var passengers: Option<seq<PersonView>>
    var hazardousExists: bool
    var hazardous: Option<HazardousView>
    var filesExist: bool
    var files: Option<seq<FileView>>
    var hasPendingFiles: Option<bool>
    var summary: ModeView
    var validationError: Option<seq<ValidationError>>
    var error: Option<GarErrors>
    var state: string
    var noCaptain: Option<string>

    /** `let summary = {}`: no getter has defined anything yet. */
    predicate Empty()
      reads this
    {
      aircraft.None? && attributes.None? && departure.None? && arrival.None?
      && captain.None? && crew.None? && passengers.None? && hazardous.None? && files.None?
      && hasPendingFiles.None? && validationError.None? && error.None? && noCaptain.None?
    }

    constructor (garUuid: Option<string>)
      ensures Empty() && this.garUuid == garUuid
    {
      this.garUuid := garUuid;
      aircraftExists := false;
      aircraft := None;
      attributesExists := false;
      attributes := None;
      departureExists := false;
      departure := None;
      arrivalExists := false;
      arrival := None;
      captainExists := false;
      crewExist := false;
      passengersExist := false;
      captain := None;
      crew := None;
      passengers := None;
      hazardousExists := false;
      hazardous := None;
      filesExist := false;
      files := None;
      hasPendingFiles := None;
      summary := SummaryMode(None);
      validationError := None;
      error := None;
      state := "";
      noCaptain := None;
    }

    /** getAircraftDetails: the aircraft is shown iff the GAR has one. */
    method GetAircraftDetails(gar: GarSummary)
      modifies `aircraftExists, `aircraft
      ensures aircraftExists == gar.aircraft.Some?
      ensures aircraft == if gar.aircraft.Some? then Some(ShowAircraft(gar.aircraft.value)) else old(aircraft)
    {
      aircraftExists := false;
      if gar.aircraft.Some? {
        aircraftExists := true;
        aircraft := Some(ShowAircraft(gar.aircraft.value));
      }
    }

    /** getAttributes: the GAR's attributes object itself, when the GAR has one. */
    method GetAttributes(gar: GarSummary)
      modifies `attributesExists, `attributes
      ensures attributesExists == gar.attributes.Some?
      ensures attributes == if gar.attributes.Some? then Some(AttributesObject(gar.attributes.value)) else old(attributes)
    {
      attributesExists := false;
      if gar.attributes.Some? {
        attributesExists := true;
        attributes := Some(AttributesObject(gar.attributes.value));
      }
    }

    /** getDeparture: the first location is shown iff the GAR has one. */
    method GetDeparture(gar: GarSummary)
      modifies `departureExists, `departure
      ensures departureExists == DepartureView(gar.location).Some?
      ensures departure == if departureExists then DepartureView(gar.location) else old(departure)
    {
      departureExists := false;
      var view := DepartureView(gar.location);
      if view.Some? {
        departureExists := true;
        departure := view;
      }
    }

    /** getArrivals: the last location is shown iff it is not the first; false where the code throws. */
    method GetArrivals(gar: GarSummary) returns (ok: bool)
      modifies `arrivalExists, `arrival
      ensures ok <==> gar.location.Some?
      ensures ok ==> arrivalExists == ArrivalView(gar.location).value.Some?
      ensures ok ==> arrival == if arrivalExists then ArrivalView(gar.location).value else old(arrival)
    {
      arrivalExists := false;
      var view := ArrivalView(gar.location);
      if view.None? {
        return false;
      }
      if view.value.Some? {
        arrivalExists := true;
        arrival := view.value;
      }
      ok := true;
    }

    /**
     * getCaptain: the captain with the responsible person; false where the code throws. The
     * attributes object createPerson is handed is the GAR's, which getAttributes stored in the
     * summary, so its relabelling shows in the summary's attributes too, and that before the
     * throw for a captain without details.
     */
    method GetCaptain(people: People, countryName: string -> string) returns (ok: bool)
      modifies `captainExists, `captain, `attributes
      ensures ok <==> people.captain.Some? ==> people.captain.value.details.Some?
      ensures people.captain.Some? ==> attributes == RelabelShared(old(attributes))
      ensures ok && people.captain.Some? ==>
        captainExists && captain == CreatePerson(people.captain.value, old(attributes), None, None, countryName)
      ensures ok && people.captain.Some? && attributes.Some? ==> captain.value.responsible == attributes.value.responsiblePerson
      ensures people.captain.None? ==>
        captainExists == old(captainExists) && captain == old(captain) && attributes == old(attributes)
    {
      ok := true;
      if people.captain.Some? {
        captainExists := true;
        captain := CreatePerson(people.captain.value, attributes, None, None, countryName);
        attributes := RelabelShared(attributes);
        ok := captain.Some?;
      }
    }

    /** getCrew: a non-empty crew list is listed person by person; false where the code throws. */
    method GetCrew(people: People, countryName: string -> string) returns (ok: bool)
      modifies `crewExist, `crew
      ensures ok <==> Listable(people.crew)
      ensures crewExist == (Shown(people.crew) || old(crewExist))
      ensures ok && Shown(people.crew) ==> crew == PeopleViews(people.crew.value, countryName)
      ensures !Shown(people.crew) ==> crew == old(crew)
    {
      ok := true;
      if Shown(people.crew) {
        crewExist := true;
        crew := ListPeople(people.crew.value, countryName);
        OnlyFinalPersonIsLast(people.crew.value, countryName, 0);
        ok := crew.Some?;
      }
    }

    /** getPassengers: a non-empty passenger list is listed person by person; false where the code throws. */
    method GetPassengers(people: People, countryName: string -> string) returns (ok: bool)
      modifies `passengersExist, `passengers
      ensures ok <==> Listable(people.passengers)
      ensures passengersExist == (Shown(people.passengers) || old(passengersExist))
      ensures ok && Shown(people.passengers) ==> passengers == PeopleViews(people.passengers.value, countryName)
      ensures !Shown(people.passengers) ==> passengers == old(passengers)
    {
      ok := true;
      if Shown(people.passengers) {
        passengersExist := true;
        passengers := ListPeople(people.passengers.value, countryName);
        OnlyFinalPersonIsLast(people.passengers.value, countryName, 0);
        ok := passengers.Some?;
      }
    }

    /** getPeople: captain, crew and passengers, each shown iff the GAR lists them. */
    method GetPeople(gar: GarSummary, countryName: string -> string) returns (ok: bool)
      modifies `captainExists, `crewExist, `passengersExist, `captain, `crew, `passengers, `attributes
      ensures ok <==> gar.people.None? || PeopleReadable(gar.people.value)
      ensures gar.people.None? ==> !captainExists && !crewExist && !passengersExist
      ensures gar.people.None? ==> captain == old(captain) && crew == old(crew) && passengers == old(passengers)
      ensures ok && gar.people.Some? ==> captainExists == gar.people.value.captain.Some?
      ensures attributes == if HasCaptain(gar) then RelabelShared(old(attributes)) else old(attributes)
      ensures ok && HasCaptain(gar) ==>
        captain == CreatePerson(gar.people.value.captain.value, old(attributes), None, None, countryName)
      ensures ok && HasCaptain(gar) && attributes.Some? ==>
        captain.Some? && captain.value.responsible == attributes.value.responsiblePerson
      ensures ok && gar.people.Some? ==> crewExist == Shown(gar.people.value.crew)
      ensures ok && crewExist ==> crew == PeopleViews(gar.people.value.crew.value, countryName)
      ensures ok && gar.people.Some? ==> passengersExist == Shown(gar.people.value.passengers)
      ensures ok && passengersExist ==> passengers == PeopleViews(gar.people.value.passengers.value, countryName)
    {
      captainExists := false;
      crewExist := false;
      passengersExist := false;
      if gar.people.None? {
        return true;
      }
      var people := gar.people.value;
      ok := GetCaptain(people, countryName);
      if !ok {
        return false;
      }
      ok := GetCrew(people, countryName);
      if !ok {
        return false;
      }
      ok := GetPassengers(people, countryName);
    }

    /** getHazardousGoods: shown iff the attributes say whether hazardous goods are carried. */
    method GetHazardousGoods(gar: GarSummary)
      modifies `hazardousExists, `hazardous
      ensures hazardousExists == ShowHazardous(gar.attributes).Some?
      ensures hazardous == if hazardousExists then ShowHazardous(gar.attributes) else old(hazardous)
    {
      hazardousExists := false;
      var view := ShowHazardous(gar.attributes);
      if view.Some? {
        hazardousExists := true;
        hazardous := view;
      }
    }

    /**
     * getFiles: without a file list nothing is set; otherwise each file in order, only the final
     * one marked last, files shown iff there is at least one, and pending files flagged iff some
     * file is still uploading or awaiting its virus scan.
     */
    method GetFiles(gar: GarSummary, tr: string -> string)
      modifies `filesExist, `files, `hasPendingFiles
      ensures gar.files.None? ==> files == old(files) && hasPendingFiles == old(hasPendingFiles) && !filesExist
      ensures gar.files.Some? ==> files == Some(FileViews(gar.files.value, tr))
      ensures gar.files.Some? ==> filesExist == (|gar.files.value| > 0)
      ensures gar.files.Some? ==>
        hasPendingFiles == Some(exists i :: 0 <= i < |gar.files.value| && IsPending(gar.files.value[i]))
    {
      var exist := false;
      if gar.files.Some? {
        var fs := gar.files.value;
        var listed: seq<FileView> := [];
        var pending := false;
        var i := 0;
        while i < |fs|
          invariant 0 <= i <= |fs|
          invariant |listed| == i
          invariant forall j :: 0 <= j < i ==> listed[j] == CreateFile(fs[j], j == |fs| - 1, tr)
          invariant pending <==> exists j :: 0 <= j < i && IsPending(fs[j])
          invariant exist == (i > 0)
        {
          exist := true;
          var isLast := i == |fs| - 1;
          if fs[i].fileStatus.Some? && fs[i].fileStatus.value in PendingFileStates {
            pending := true;
          }
          listed := listed + [CreateFile(fs[i], isLast, tr)];
          i := i + 1;
        }
        assert listed == FileViews(fs, tr);
        files := Some(listed);
        hasPendingFiles := Some(pending);
      }
      filesExist := exist;
    }

    /** getCrew / getPassengers: the listing built person by person; None where a person has no details. */
    static method ListPeople(people: seq<Person>, countryName: string -> string) returns (r: Option<seq<PersonView>>)
      ensures r == PeopleViews(people, countryName)
    {
      ghost var slots := PersonSlots(people, countryName);
      var listed: seq<PersonView> := [];
      var i := 0;
      while i < |people|
        invariant 0 <= i <= |people|
        invariant Collect(slots[..i]) == Some(listed)
      {
        var person := CreatePerson(people[i], None, Some(i == |people| - 1), Some(i), countryName);
        assert person == slots[i];
        CollectStep(slots, i, listed);
        if person.None? {
          CollectNoneStays(slots, i + 1);
          return None;
        }
        listed := listed + [person.value];
        i := i + 1;
      }
      assert slots[..|people|] == slots;
      r := Some(listed);
    }

    /** The departure and arrival errors of getSummaryErrors; false where the code throws. */
    method MergeLegErrors(validation: seq<ValidationError>) returns (ok: bool)
      modifies `departure, `arrival, `departureExists, `arrivalExists
      ensures ok <==> MergedLeg(old(departure), DepartureFields, validation).Some?
                      && MergedLeg(old(arrival), ArrivalFields, validation).Some?
      ensures ok ==> departure == MergedLeg(old(departure), DepartureFields, validation)
      ensures ok ==> arrival == MergedLeg(old(arrival), ArrivalFields, validation)
      ensures ok ==> departureExists && arrivalExists
    {
      var mergedDeparture := MergedLeg(departure, DepartureFields, validation);
      var mergedArrival := MergedLeg(arrival, ArrivalFields, validation);
      if mergedDeparture.None? || mergedArrival.None? {
        return false;
      }
      departure := mergedDeparture;
      arrival := mergedArrival;
      departureExists := true;
      arrivalExists := true;
      ok := true;
    }

    /**
     * The aircraft, hazardous goods and file errors merged into the earlier values: the
     * aircraft's and the goods' messages set (an object of messages alone where there was none),
     * every file flagged that an error lists, and a missing file list left missing.
     */
    predicate ItemsMerged(validation: seq<ValidationError>, aircraft0: Option<AircraftView>,
                          hazardous0: Option<HazardousView>, files0: Option<seq<FileView>>)
      reads `aircraft, `hazardous, `files
    {
      && aircraft.Some? && aircraft.value.errors == PersonErrors(validation, AircraftLookups, None)
      && (aircraft0.Some? ==> aircraft == Some(aircraft0.value.(errors := aircraft.value.errors)))
      && hazardous.Some? && hazardous.value.goodsError == Some(FindError(validation, "hazardous-goods", None))
      && (hazardous0.Some? ==> hazardous.value.goods == hazardous0.value.goods)
      && files == if files0.Some? then Some(FilesWithErrors(files0.value, validation)) else None
    }

    /** The aircraft, hazardous goods and file errors of getSummaryErrors. */
    method MergeItemErrors(validation: seq<ValidationError>)
      modifies `aircraft, `hazardous, `files, `aircraftExists, `hazardousExists
      ensures ItemsMerged(validation, old(aircraft), old(hazardous), old(files))
      ensures aircraftExists && hazardousExists
    {
      var aircraftErrors := PersonErrors(validation, AircraftLookups, None);
      aircraft := Some(if aircraft.Some? then aircraft.value.(errors := aircraftErrors)
                       else AircraftView(None, None, None, None, aircraftErrors));
      var goodsError := Some(FindError(validation, "hazardous-goods", None));
      hazardous := Some(if hazardous.Some? then hazardous.value.(goodsError := goodsError) else HazardousView(None, goodsError));
      if files.Some? {
        files := Some(FilesWithErrors(files.value, validation));
      }
      aircraftExists := true;
      hazardousExists := true;
    }

    /**
     * The captain, crew and passenger errors merged into the earlier values: the no-captain
     * message, the captain's messages (an object of messages alone where there was no captain),
     * and every listed person's messages looked up by their id; a missing list stays missing.
     */
    predicate PeopleMerged(validation: seq<ValidationError>, captain0: Option<PersonView>,
                           crew0: Option<seq<PersonView>>, passengers0: Option<seq<PersonView>>)
      reads `noCaptain, `captain, `crew, `passengers
    {
      && noCaptain == Some(FindError(validation, "no-captain", None))
      && captain == Some(WithErrors(captain0, PersonErrors(validation, CaptainLookups, None)))
      && crew == (if crew0.Some? then Some(ListingWithErrors(crew0.value, validation, LookupFields("crew"))) else None)
      && passengers == if passengers0.Some?
                       then Some(ListingWithErrors(passengers0.value, validation, LookupFields("passengers")))
                       else None
    }

    /** The captain, crew and passenger errors of getSummaryErrors. */
    method MergePeopleErrors(validation: seq<ValidationError>)
      modifies `noCaptain, `captain, `crew, `passengers
      ensures PeopleMerged(validation, old(captain), old(crew), old(passengers))
    {
      noCaptain := Some(FindError(validation, "no-captain", None));
      captain := Some(WithErrors(captain, PersonErrors(validation, CaptainLookups, None)));
      if crew.Some? {
        crew := Some(ListingWithErrors(crew.value, validation, LookupFields("crew")));
      }
      if passengers.Some? {
        passengers := Some(ListingWithErrors(passengers.value, validation, LookupFields("passengers")));
      }
    }

    /** The aircraft, hazardous goods, file and people errors of getSummaryErrors. */
    method MergeSections(validation: seq<ValidationError>)
      modifies `aircraft, `hazardous, `files, `aircraftExists, `hazardousExists, `noCaptain, `captain, `crew, `passengers
      ensures ItemsMerged(validation, old(aircraft), old(hazardous), old(files))
      ensures PeopleMerged(validation, old(captain), old(crew), old(passengers))
      ensures aircraftExists && hazardousExists
    {
      MergeItemErrors(validation);
      MergePeopleErrors(validation);
    }

    /**
     * getSummaryErrors for a validation list: merges the error messages into every part of the
     * summary and marks the aircraft, legs and hazardous goods as shown. Returns false where the
     * code throws (the date of a leg the summary lacks is read).
     */
    method MergeValidation(validation: seq<ValidationError>) returns (ok: bool)
      modifies `validationError, `departure, `arrival, `aircraft, `hazardous, `files, `noCaptain, `captain, `crew, `passengers,
              `aircraftExists, `departureExists, `arrivalExists, `hazardousExists
      ensures ok <==> MergedLeg(old(departure), DepartureFields, validation).Some?
                      && MergedLeg(old(arrival), ArrivalFields, validation).Some?
      ensures ok ==> validationError == Some(validation)
      ensures ok ==> departure == MergedLeg(old(departure), DepartureFields, validation)
      ensures ok ==> arrival == MergedLeg(old(arrival), ArrivalFields, validation)
      ensures ok ==> ItemsMerged(validation, old(aircraft), old(hazardous), old(files))
      ensures ok ==> PeopleMerged(validation, old(captain), old(crew), old(passengers))
      ensures ok ==> aircraftExists && departureExists && arrivalExists && hazardousExists
    {
      validationError := Some(validation);
      assert departure == old(departure) && arrival == old(arrival);
      assert aircraft == old(aircraft) && hazardous == old(hazardous) && files == old(files);
      assert captain == old(captain) && crew == old(crew) && passengers == old(passengers);
      ok := MergeLegErrors(validation);
      if !ok {
        return;
      }
      MergeSections(validation);
    }

    /**
     * getSummaryErrors: a validation list is merged in, a reason is kept as the page's error, and
     * without stored errors nothing changes. Returns false where the code throws.
     */
    method GetSummaryErrors(summaryErrors: Option<GarErrors>) returns (ok: bool)
      modifies `error, `validationError, `departure, `arrival, `aircraft, `hazardous, `files, `noCaptain, `captain, `crew, `passengers,
              `aircraftExists, `departureExists, `arrivalExists, `hazardousExists
      ensures summaryErrors.None? || summaryErrors.value.Reason? ==> ok
      ensures summaryErrors.None? ==> error == old(error) && validationError == old(validationError)
      ensures summaryErrors.None? || summaryErrors.value.Reason? ==>
        aircraftExists == old(aircraftExists) && departureExists == old(departureExists)
      ensures summaryErrors.None? || summaryErrors.value.Reason? ==> departure == old(departure) && arrival == old(arrival)
      ensures ok && summaryErrors.Some? && summaryErrors.value.Validation? ==> aircraftExists && departureExists
      ensures summaryErrors.Some? && summaryErrors.value.Reason? ==> ok && error == summaryErrors
      ensures summaryErrors.Some? && summaryErrors.value.Reason? ==> validationError == old(validationError)
      ensures summaryErrors.Some? && summaryErrors.value.Validation? ==> error == old(error)
      ensures ok && summaryErrors.Some? && summaryErrors.value.Validation? ==>
        validationError == Some(summaryErrors.value.validation)
      ensures summaryErrors.Some? && summaryErrors.value.Validation? ==>
        (ok <==> MergedLeg(old(departure), DepartureFields, summaryErrors.value.validation).Some?
                 && MergedLeg(old(arrival), ArrivalFields, summaryErrors.value.validation).Some?)
      ensures ok && summaryErrors.Some? && summaryErrors.value.Validation? ==>
        && departure == MergedLeg(old(departure), DepartureFields, summaryErrors.value.validation)
        && arrival == MergedLeg(old(arrival), ArrivalFields, summaryErrors.value.validation)
        && ItemsMerged(summaryErrors.value.validation, old(aircraft), old(hazardous), old(files))
        && PeopleMerged(summaryErrors.value.validation, old(captain), old(crew), old(passengers))
        && arrivalExists && hazardousExists
      ensures summaryErrors.None? || summaryErrors.value.Reason? ==>
        && aircraft == old(aircraft) && hazardous == old(hazardous) && files == old(files)
        && noCaptain == old(noCaptain) && captain == old(captain) && crew == old(crew) && passengers == old(passengers)
        && arrivalExists == old(arrivalExists) && hazardousExists == old(hazardousExists)
    {
      ok := true;
      if summaryErrors.Some? {
        if summaryErrors.value.Validation? {
          ok := MergeValidation(summaryErrors.value.validation);
        } else {
          error := summaryErrors;
        }
      }
    }

    /** getSummaryMode: the headings and buttons of the page mode. */
    method GetSummaryMode(summaryMode: Option<string>)
      modifies `summary
      ensures summary == SummaryMode(summaryMode)
    {
      summary := SummaryMode(summaryMode);
    }

    /** getLocations: the departure, then the arrival. Returns false where the code throws. */
    method GetLocations(gar: GarSummary) returns (ok: bool)
      modifies `departureExists, `departure, `arrivalExists, `arrival
      ensures ok <==> gar.location.Some?
      ensures departureExists == DepartureView(gar.location).Some?
      ensures departure == if departureExists then DepartureView(gar.location) else old(departure)
      ensures ok ==> arrivalExists == ArrivalView(gar.location).value.Some?
      ensures ok ==> arrival == if arrivalExists then ArrivalView(gar.location).value else old(arrival)
    {
      GetDeparture(gar);
      ok := GetArrivals(gar);
    }

    /** The getters of the flight, in createSummary's order: aircraft, attributes, locations. */
    method GetFlight(gar: GarSummary) returns (ok: bool)
      modifies `aircraftExists, `aircraft, `attributesExists, `attributes, `departureExists, `departure,
               `arrivalExists, `arrival
      ensures ok <==> gar.location.Some?
      ensures aircraftExists == gar.aircraft.Some?
      ensures attributesExists == gar.attributes.Some?
      ensures attributes == if gar.attributes.Some? then Some(AttributesObject(gar.attributes.value)) else old(attributes)
      ensures departureExists == DepartureView(gar.location).Some?
      ensures departure == if departureExists then DepartureView(gar.location) else old(departure)
      ensures ok ==> arrivalExists == ArrivalView(gar.location).value.Some?
      ensures ok ==> arrival == if arrivalExists then ArrivalView(gar.location).value else old(arrival)
    {
      GetAircraftDetails(gar);
      GetAttributes(gar);
      ok := GetLocations(gar);
    }

    /** The getters of what the flight carries, in createSummary's order: people, hazardous goods, files. */
    method GetManifest(gar: GarSummary, tr: string -> string, countryName: string -> string) returns (ok: bool)
      modifies `captainExists, `crewExist, `passengersExist, `captain, `crew, `passengers, `attributes,
               `hazardousExists, `hazardous, `filesExist, `files, `hasPendingFiles
      ensures ok <==> gar.people.None? || PeopleReadable(gar.people.value)
      ensures attributes == if HasCaptain(gar) then RelabelShared(old(attributes)) else old(attributes)
      ensures ok && HasCaptain(gar) && attributes.Some? ==>
        captain.Some? && captain.value.responsible == attributes.value.responsiblePerson
      ensures ok ==> hazardousExists == ShowHazardous(gar.attributes).Some?
      ensures ok ==> hazardous == if hazardousExists then ShowHazardous(gar.attributes) else old(hazardous)
    {
      ok := GetPeople(gar, countryName);
      if !ok {
        return;
      }
      GetHazardousGoods(gar);
      GetFiles(gar, tr);
    }

    /**
     * The getters createSummary runs on the GAR, in order: aircraft, attributes, locations,
     * people, hazardous goods and files. Returns false where one of them throws.
     */
    method GetDetails(gar: GarSummary, tr: string -> string, countryName: string -> string) returns (ok: bool)
      requires Empty()
      modifies `aircraftExists, `aircraft, `attributesExists, `attributes, `departureExists, `departure,
               `arrivalExists, `arrival, `captainExists, `crewExist, `passengersExist, `captain, `crew, `passengers,
               `hazardousExists, `hazardous, `filesExist, `files, `hasPendingFiles
      ensures ok <==> gar.location.Some? && (gar.people.None? || PeopleReadable(gar.people.value))
      ensures aircraftExists == gar.aircraft.Some? && attributesExists == gar.attributes.Some?
      ensures ok ==> attributes == SummaryAttributes(gar)
      ensures ok && HasCaptain(gar) && attributes.Some? ==>
        captain.Some? && captain.value.responsible == attributes.value.responsiblePerson
      ensures ok ==> departure == DepartureView(gar.location) && departureExists == departure.Some?
      ensures ok ==> arrival == ArrivalView(gar.location).value && arrivalExists == arrival.Some?
      ensures ok ==> hazardous == ShowHazardous(gar.attributes) && hazardousExists == hazardous.Some?
    {
      ok := GetFlight(gar);
      if !ok {
        return;
      }
      ok := GetManifest(gar, tr, countryName);
    }

    /** The end of createSummary: the page mode, the stored errors when shown, and the GAR's status. */
    method Conclude(summaryMode: Option<string>, summaryErrors: Option<GarErrors>, showErrors: bool,
                    submission: Option<Submission>, tr: string -> string) returns (ok: bool)
      modifies `summary, `state, `error, `validationError, `departure, `arrival, `aircraft, `hazardous, `files,
               `noCaptain, `captain, `crew, `passengers, `aircraftExists, `departureExists, `arrivalExists, `hazardousExists
      ensures summary == SummaryMode(summaryMode)
      ensures ok ==> state == GetGarStatus(submission, tr).displayValue
      ensures !MergesValidation(showErrors, summaryErrors) ==> ok
      ensures !(showErrors && summaryErrors.Some?) ==> validationError == old(validationError) && error == old(error)
      ensures !MergesValidation(showErrors, summaryErrors) ==>
        aircraftExists == old(aircraftExists) && departureExists == old(departureExists)
        && departure == old(departure) && arrival == old(arrival)
      ensures showErrors && summaryErrors.Some? && summaryErrors.value.Reason? ==>
        error == summaryErrors && validationError == old(validationError)
      ensures ok && MergesValidation(showErrors, summaryErrors) ==>
        validationError == Some(summaryErrors.value.validation) && error == old(error)
        && aircraftExists && departureExists
    {
      GetSummaryMode(summaryMode);
      ok := true;
      if showErrors {
        ok := GetSummaryErrors(summaryErrors);
        if !ok {
          return;
        }
      }
      state := GetGarStatus(submission, tr).displayValue;
    }

    /**
     * createSummary: a new summary filled from the GAR and the page mode, with the stored errors
     * merged in when they are shown. ok is false where the code throws: a GAR without a location
     * list, a person without details, or an error about the date of a leg the GAR lacks.
     */
    static method CreateSummary(gar: GarSummary, summaryMode: Option<string>, summaryErrors: Option<GarErrors>,
                                showErrors: bool, tr: string -> string, countryName: string -> string)
      returns (page: SummaryPage, ok: bool)
      ensures fresh(page)
      ensures ok ==> gar.location.Some? && (gar.people.None? || PeopleReadable(gar.people.value))
      ensures (gar.location.Some? && (gar.people.None? || PeopleReadable(gar.people.value))
               && !MergesValidation(showErrors, summaryErrors)) ==> ok
      ensures ok ==> page.garUuid == gar.garUuid && page.summary == SummaryMode(summaryMode)
      ensures ok ==> page.attributesExists == gar.attributes.Some? && page.attributes == SummaryAttributes(gar)
      ensures ok ==> page.state == GetGarStatus(gar.submission, tr).displayValue
      ensures ok ==> page.aircraftExists == (gar.aircraft.Some? || MergesValidation(showErrors, summaryErrors))
      ensures ok && !MergesValidation(showErrors, summaryErrors) ==> page.departure == DepartureView(gar.location)
      ensures ok && !MergesValidation(showErrors, summaryErrors) ==> page.arrival == ArrivalView(gar.location).value
      ensures ok && !(showErrors && summaryErrors.Some?) ==> page.validationError.None? && page.error.None?
      ensures ok && showErrors && summaryErrors.Some? && summaryErrors.value.Reason? ==>
        page.error == summaryErrors && page.validationError.None?
      ensures ok && MergesValidation(showErrors, summaryErrors) ==>
        page.validationError == Some(summaryErrors.value.validation) && page.error.None?
    {
      page := new SummaryPage(gar.garUuid);
      ok := page.GetDetails(gar, tr, countryName);
      if !ok {
        return;
      }
      ok := page.Conclude(summaryMode, summaryErrors, showErrors, gar.submission, tr);
    }
  }
}
