/**
 * The person service: people of a GAR as the workflow API returns them, tidied for display
 * (formatPerson), read into the person form (getPerson), listed captain first (getPeopleDetails),
 * and the bodies posted for a new person (postPerson) and for an update (updatePerson).
 */
module PersonService {
  import opened Common

  /** A detail of a person: the API's detail name, and the form field egar-person-<name>. */
  datatype Detail =
    | GivenName         // given_name, given-name
    | FamilyName        // family_name, family-name
    | Gender            // gender, gender
    | Address           // address, uk-address
    | Dob               // dob, dob
    | BirthPlace        // place, birth-place
    | Nationality       // nationality, nationality-country
    | DocumentType      // document_type, travel-document-type
    | DocumentNumber    // document_no, travel-document-number
    | DocumentExpiry    // document_expiryDate, travel-document-expiry
    | DocumentCountry   // document_issuingCountry, travel-document-country

  /** A field of the person form: egar-person-type, or one of the details. */
  datatype PersonField = PersonType | Of(detail: Detail)

  const AllDetails: set<Detail> := {GivenName, FamilyName, Gender, Address, Dob, BirthPlace, Nationality,
                                    DocumentType, DocumentNumber, DocumentExpiry, DocumentCountry}

  lemma EveryDetail(d: Detail)
    ensures d in AllDetails
  {
  }

  /**
   * A person as the API returns it: its type, its details (a detail that is left out or null is
   * missing from the map) and the two display dates formatPerson adds to the details.
   */
  datatype ApiPerson = ApiPerson(
    ptype: string,
    details: map<Detail, string>,
    dobPrettyPrint: Option<string>,
    documentExpiryDatePrettyPrint: Option<string>)

  /** The i-th piece of a split date, the text 'undefined' past the last. */
  function Piece(pieces: seq<string>, i: nat): string
  {
    if i < |pieces| then pieces[i] else "undefined"
  }

  /** An API date YYYY-MM-DD shown as 'DD MM YYYY': the pieces between '-' in reverse order. */
  function PrettyDate(date: string): string
  {
    var pieces := Split(date, "-");
    Piece(pieces, 2) + " " + Piece(pieces, 1) + " " + Piece(pieces, 0)
  }

  /** A date made of year, month and day reads back day first. */
  lemma PrettyDateReversed(year: string, month: string, day: string)
    requires !Includes(year, "-") && !Includes(month, "-") && !Includes(day, "-")
    ensures PrettyDate(year + "-" + month + "-" + day) == day + " " + month + " " + year
  {
    JoinThree(year, month, day, "-");
    SplitJoin([year, month, day], "-");
  }

  /**
   * formatPerson on a person value: the type in lower case and, for each of the expiry date and
   * the date of birth that is set, its display form beside it; the details are kept.
   */
  function Formatted(p: ApiPerson): (r: ApiPerson)
    ensures r.ptype == ToLower(p.ptype) && r.details == p.details
    ensures Truthy(Lookup(p.details, DocumentExpiry)) ==>
      r.documentExpiryDatePrettyPrint == Some(PrettyDate(p.details[DocumentExpiry]))
    ensures !Truthy(Lookup(p.details, DocumentExpiry)) ==> r.documentExpiryDatePrettyPrint == p.documentExpiryDatePrettyPrint
    ensures Truthy(Lookup(p.details, Dob)) ==> r.dobPrettyPrint == Some(PrettyDate(p.details[Dob]))
    ensures !Truthy(Lookup(p.details, Dob)) ==> r.dobPrettyPrint == p.dobPrettyPrint
  {
    var expiry := Lookup(p.details, DocumentExpiry);
    var dob := Lookup(p.details, Dob);
    ApiPerson(ToLower(p.ptype), p.details,
              if Truthy(dob) then Some(PrettyDate(dob.value)) else p.dobPrettyPrint,
              if Truthy(expiry) then Some(PrettyDate(expiry.value)) else p.documentExpiryDatePrettyPrint)
  }

  /** Formatting a person a second time changes nothing more. */
  lemma FormattedTwice(p: ApiPerson)
    ensures Formatted(Formatted(p)) == Formatted(p)
  {
    ToLowerTwice(p.ptype);
  }

  /** A person object the API returned, which formatPerson tidies in place. */
  class PersonRecord {
    var ptype: string
    var details: map<Detail, string>
    var dobPrettyPrint: Option<string>
    var documentExpiryDatePrettyPrint: Option<string>

    constructor (p: ApiPerson)
      ensures Value() == p
    {
      ptype := p.ptype;
      details := p.details;
      dobPrettyPrint := p.dobPrettyPrint;
      documentExpiryDatePrettyPrint := p.documentExpiryDatePrettyPrint;
    }

    function Value(): ApiPerson
      reads this
    {
      ApiPerson(ptype, details, dobPrettyPrint, documentExpiryDatePrettyPrint)
    }

    /** formatPerson: lower-cases the type and adds the display dates, field by field. */
    method FormatPerson()
      modifies this
      ensures Value() == Formatted(old(Value()))
    {
      ptype := ToLower(ptype);
      if DocumentExpiry in details && details[DocumentExpiry] != "" {
        documentExpiryDatePrettyPrint := Some(PrettyDate(details[DocumentExpiry]));
      }
      if Dob in details && details[Dob] != "" {
        dobPrettyPrint := Some(PrettyDate(details[Dob]));
      }
    }
  }

  /**
   * The value getPerson puts in a form field before falsy values are dropped: the type, the
   * gender through lodash's lowerCase (an unset gender gives ''), every other detail as it is.
   */
  function FormEntry(p: ApiPerson, f: PersonField): Option<string>
  {
    match f
    case PersonType => Some(p.ptype)
    case Of(Gender) => Some(ToLower(if Gender in p.details then p.details[Gender] else ""))
    case Of(d) => Lookup(p.details, d)
  }

  const AllFields: set<PersonField> :=
    {PersonType, Of(GivenName), Of(FamilyName), Of(Gender), Of(Address), Of(Dob), Of(BirthPlace),
     Of(Nationality), Of(DocumentType), Of(DocumentNumber), Of(DocumentExpiry), Of(DocumentCountry)}

  lemma EveryField(f: PersonField)
    ensures f in AllFields
  {
    match f
    case PersonType =>
    case Of(d) =>
      match d
      case GivenName =>
      case FamilyName =>
      case Gender =>
      case Address =>
      case Dob =>
      case BirthPlace =>
      case Nationality =>
      case DocumentType =>
      case DocumentNumber =>
      case DocumentExpiry =>
      case DocumentCountry =>
  }

  /** A detail's form entry is set and not empty exactly when the detail is. */
  lemma DetailEntryTruthy(p: ApiPerson, d: Detail)
    ensures Truthy(FormEntry(p, Of(d))) <==> d in p.details && p.details[d] != ""
  {
    if d == Gender {
      var g := if Gender in p.details then p.details[Gender] else "";
      assert |ToLower(g)| == |g|;
    }
  }

  /** What the map of the truthy form entries holds, field by field. */
  lemma FormValuesFacts(p: ApiPerson, r: map<PersonField, string>)
    requires r == map f | f in AllFields && Truthy(FormEntry(p, f)) :: FormEntry(p, f).value
    ensures PersonType in r <==> p.ptype != ""
    ensures PersonType in r ==> r[PersonType] == p.ptype
    ensures forall d :: Of(d) in r <==> d in p.details && p.details[d] != ""
    ensures forall d :: Of(d) in r && d != Gender ==> r[Of(d)] == p.details[d]
    ensures Of(Gender) in r ==> r[Of(Gender)] == ToLower(p.details[Gender])
  {
    forall d
      ensures Of(d) in r <==> d in p.details && p.details[d] != ""
    {
      EveryField(Of(d));
      DetailEntryTruthy(p, d);
    }
    EveryField(PersonType);
  }

  /**
   * The form values of a (formatted) person: every field whose value is set and not empty, the
   * gender in lower case, nothing else.
   */
  function FormValuesOf(p: ApiPerson): (r: map<PersonField, string>)
    ensures PersonType in r <==> p.ptype != ""
    ensures PersonType in r ==> r[PersonType] == p.ptype
    ensures forall d :: Of(d) in r <==> d in p.details && p.details[d] != ""
    ensures forall d :: Of(d) in r && d != Gender ==> r[Of(d)] == p.details[d]
    ensures Of(Gender) in r ==> r[Of(Gender)] == ToLower(p.details[Gender])
  {
    var r := map f | f in AllFields && Truthy(FormEntry(p, f)) :: FormEntry(p, f).value;
    FormValuesFacts(p, r);
    r
  }

  /**
   * getPerson: formats the person the API returned (in place) and reads it into the form
   * values.
   */
  method GetPerson(person: PersonRecord) returns (formValues: map<PersonField, string>)
    modifies person
    ensures person.Value() == Formatted(old(person.Value()))
    ensures formValues == FormValuesOf(person.Value())
  {
    person.FormatPerson();
    formValues := FormValuesOf(person.Value());
  }

  /** The body posted for a person; a type that is undefined is left out. */
  datatype PersonBody = PersonBody(ptype: Option<string>, details: map<Detail, string>)

  /** postPerson's body: only the type from the form, with no details. */
  function NewPersonBody(form: map<PersonField, string>): (b: PersonBody)
    ensures b.ptype == Lookup(form, PersonType)
    ensures b.details == map[]
  {
    PersonBody(Lookup(form, PersonType), map[])
  }

  /**
   * updatePerson's body for the merged form values: the type as it is, and each detail that is
   * set and not empty.
   */
  function UpdateBody(merged: map<PersonField, string>): (b: PersonBody)
    ensures b.ptype == Lookup(merged, PersonType)
    ensures forall d :: d in b.details <==> Of(d) in merged && merged[Of(d)] != ""
    ensures forall d :: d in b.details ==> b.details[d] == merged[Of(d)]
  {
    var details := map d | d in AllDetails && Of(d) in merged && merged[Of(d)] != "" :: merged[Of(d)];
    assert forall d :: d in details <==> Of(d) in merged && merged[Of(d)] != "" by {
      forall d {
        EveryDetail(d);
      }
    }
    PersonBody(Lookup(merged, PersonType), details)
  }

  /**
   * updatePerson: merges the form into the stored person in place (the form's values win) and
   * builds the body from the merged values.
   */
  method UpdatePerson(person: FormObject<PersonField>, form: map<PersonField, string>) returns (body: PersonBody)
    modifies person
    ensures person.values == old(person.values) + form
    ensures body == UpdateBody(old(person.values) + form)
  {
    person.MergeWith(form);
    assert person.values == old(person.values) + form;
    body := UpdateBody(person.values);
  }

  /** The person the workflow API keeps for a posted body with a type. */
  function Stored(body: PersonBody): ApiPerson
    requires body.ptype.Some?
  {
    ApiPerson(body.ptype.value, body.details, None, None)
  }

  /**
   * Round trip: after an update, reading the person back into the form gives exactly the merged
   * values that are not empty, provided the type and gender were already in lower case.
   */
  lemma UpdateThenGet(merged: map<PersonField, string>)
    requires PersonType in merged && merged[PersonType] == ToLower(merged[PersonType])
    requires Of(Gender) in merged ==> merged[Of(Gender)] == ToLower(merged[Of(Gender)])
    ensures FormValuesOf(Formatted(Stored(UpdateBody(merged)))) == PickTruthy(merged)
  {
    var back := FormValuesOf(Formatted(Stored(UpdateBody(merged))));
    var want := PickTruthy(merged);
    forall f
      ensures f in back <==> f in want
      ensures f in back ==> back[f] == want[f]
    {
      if f.Of? && f.detail == Gender && f in back {
        assert back[f] == ToLower(merged[f]);
      }
    }
  }

  /** A newly posted person reads back with its type alone. */
  lemma NewPersonGet(form: map<PersonField, string>)
    requires PersonType in form
    ensures forall f :: f in FormValuesOf(Formatted(Stored(NewPersonBody(form)))) ==> f == PersonType
  {
  }

  /** The ids the person lookup returns: a captain id, and lists of crew and passenger ids. */
  datatype PeopleIds = PeopleIds(captain: Option<string>, crew: Option<seq<string>>, passengers: Option<seq<string>>)

  function OrEmpty(s: Option<seq<string>>): seq<string>
  {
    if s.Some? then s.value else []
  }

  /**
   * The people fetched, in order: the captain when there is one, then the crew, then the
   * passengers, each list in its own order.
   */
  function RequestedIds(ids: PeopleIds): (r: seq<string>)
    ensures var c := if Truthy(ids.captain) then 1 else 0;
      && |r| == c + |OrEmpty(ids.crew)| + |OrEmpty(ids.passengers)|
      && (c == 1 ==> r[0] == ids.captain.value)
      && (forall i :: 0 <= i < |OrEmpty(ids.crew)| ==> r[c + i] == OrEmpty(ids.crew)[i])
      && (forall i :: 0 <= i < |OrEmpty(ids.passengers)| ==>
            r[c + |OrEmpty(ids.crew)| + i] == OrEmpty(ids.passengers)[i])
  {
    (if Truthy(ids.captain) then [ids.captain.value] else []) + OrEmpty(ids.crew) + OrEmpty(ids.passengers)
  }

  /** What getPeopleDetails resolves with. */
  datatype PeopleDetails = PeopleDetails(hasPeople: bool, people: seq<ApiPerson>)

  /**
   * Promise.all over one request per id: every person in order when each request succeeds,
   * otherwise the rejection of a failed request (here the first one in request order).
   */
  function FetchAll(ids: seq<string>, fetch: string -> Outcome<ApiPerson>): (r: Outcome<seq<ApiPerson>>)
    ensures r.Done? <==> forall i :: 0 <= i < |ids| ==> fetch(ids[i]).Done?
    ensures r.Done? ==> |r.value| == |ids| && forall i :: 0 <= i < |ids| ==> r.value[i] == fetch(ids[i]).value
    ensures r.Thrown? ==> exists i :: 0 <= i < |ids| && fetch(ids[i]) == Thrown(r.message)
  {
    if ids == [] then Done([])
    else
      match fetch(ids[0])
      case Thrown(m) => Thrown(m)
      case Done(p) =>
        var rest := FetchAll(ids[1..], fetch);
        if rest.Thrown? then
          assert fetch(ids[1..][0]) == Thrown(rest.message) || exists i :: 0 <= i < |ids[1..]| && fetch(ids[1..][i]) == Thrown(rest.message);
          Thrown(rest.message)
        else Done([p] + rest.value)
  }

  /**
   * getPeopleDetails: the people lookup (`lookup`, the API call for the GAR's people), then
   * every requested person fetched with `fetch`, formatted, in the order requested; hasPeople
   * tells whether there is anyone at all. A failed lookup or a failed person request rejects
   * the whole promise.
   */
  function GetPeopleDetails(lookup: Outcome<PeopleIds>, fetch: string -> Outcome<ApiPerson>): (r: Outcome<PeopleDetails>)
    ensures lookup.Thrown? ==> r == Thrown(lookup.message)
    ensures lookup.Done? ==>
      (r.Done? <==> forall i :: 0 <= i < |RequestedIds(lookup.value)| ==> fetch(RequestedIds(lookup.value)[i]).Done?)
    ensures lookup.Done? && r.Thrown? ==>
      exists i :: 0 <= i < |RequestedIds(lookup.value)| && fetch(RequestedIds(lookup.value)[i]) == Thrown(r.message)
    ensures r.Done? ==> var requested := RequestedIds(lookup.value);
      && |r.value.people| == |requested|
      && (r.value.hasPeople <==> |r.value.people| > 0)
      && forall i :: 0 <= i < |requested| ==> r.value.people[i] == Formatted(fetch(requested[i]).value)
  {
    if lookup.Thrown? then Thrown(lookup.message)
    else
      var requested := RequestedIds(lookup.value);
      var fetched := FetchAll(requested, fetch);
      if fetched.Thrown? then Thrown(fetched.message)
      else
        var people := seq(|requested|, i requires 0 <= i < |requested| => Formatted(fetched.value[i]));
        Done(PeopleDetails(|people| > 0, people))
  }

  /** With a captain and every request answered, the captain comes first. */
  lemma CaptainFirst(ids: PeopleIds, fetch: string -> Outcome<ApiPerson>)
    requires Truthy(ids.captain)
    requires forall id :: fetch(id).Done?
    ensures var r := GetPeopleDetails(Done(ids), fetch);
      r.Done? && r.value.hasPeople && r.value.people[0] == Formatted(fetch(ids.captain.value).value)
  {
  }

  /** The people endpoint of a GAR, and the endpoint of one person in it. */
  function PersonsUrl(baseUrl: string, garUuid: string): string
  {
    baseUrl + "/WF/GARs/" + garUuid + "/persons/"
  }

  function PersonUrl(baseUrl: string, garUuid: string, personId: string): (u: string)
    ensures u == PersonsUrl(baseUrl, garUuid) + personId + "/"
  {
    baseUrl + "/WF/GARs/" + garUuid + "/persons/" + personId + "/"
  }
}
