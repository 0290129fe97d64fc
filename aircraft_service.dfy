/**
 * The aircraft service: the aircraft of a GAR read into the aircraft form
 * (getAircraftDetails), and the body posted from the form (postAircraftDetails). Neither lets
 * an API error escape.
 */
module AircraftService {
  import opened Common

  /** The aircraft the API returns; taxesPaid may be left out, null or a boolean. */
  datatype ApiAircraft = ApiAircraft(
    registration: Option<string>,
    aircraftType: Option<string>,
    base: Option<string>,
    taxesPaid: Slot<bool>)

  /**
   * What the aircraft request settles with: a response body (its `status` and `aircraft`
   * fields), or a rejection with its reason.
   */
  datatype AircraftReply = Received(status: Option<int>, aircraft: Option<ApiAircraft>) | Rejected(reason: string)

  /**
   * The aircraft form values (egar-aircraft-registration, -type, -base, -taxes-paid); a nil
   * value is one that is unset.
   */
  datatype AircraftForm = AircraftForm(
    registration: Option<string>,
    aircraftType: Option<string>,
    base: Option<string>,
    taxesPaid: Option<string>)

  const EmptyForm := AircraftForm(None, None, None, None)

  /** The reason a property read on undefined is rejected with. */
  const TypeError := "TypeError"

  /**
   * What getAircraftDetails resolves with: nothing (undefined), the form values, or the reason
   * of a failure, which the catch hands back as the value.
   */
  datatype DetailsResult = Nothing | Values(form: AircraftForm) | CaughtError(reason: string)

  /**
   * The result of getAircraftDetails for a reply: undefined for a 400; the error itself when the
   * request fails, when the body holds no aircraft, or when taxesPaid is left out (toString on
   * undefined throws); otherwise registration, type and base as they are, and taxesPaid as text
   * unless it is null.
   */
  function DetailsOf(reply: AircraftReply): (r: DetailsResult)
    ensures r.Nothing? <==> reply.Received? && reply.status == Some(400)
    ensures reply.Rejected? ==> r == CaughtError(reply.reason)
    ensures (reply.Received? && reply.status != Some(400)
             && (reply.aircraft.None? || reply.aircraft.value.taxesPaid.Absent?)) ==> r == CaughtError(TypeError)
    ensures r.Values? ==>
      reply.Received? && reply.aircraft.Some?
      && r.form.registration == reply.aircraft.value.registration
      && r.form.aircraftType == reply.aircraft.value.aircraftType
      && r.form.base == reply.aircraft.value.base
      && (reply.aircraft.value.taxesPaid.Null? ==> r.form.taxesPaid.None?)
      && (reply.aircraft.value.taxesPaid.Val? ==> r.form.taxesPaid == Some(BoolString(reply.aircraft.value.taxesPaid.v)))
  {
    match reply
    case Rejected(reason) => CaughtError(reason)
    case Received(status, aircraft) =>
      if status == Some(400) then Nothing
      else if aircraft.None? || aircraft.value.taxesPaid.Absent? then CaughtError(TypeError)
      else
        var a := aircraft.value;
        Values(AircraftForm(a.registration, a.aircraftType, a.base,
                            if a.taxesPaid.Val? then Some(BoolString(a.taxesPaid.v)) else None))
  }

  /** getAircraftDetails: fills the form values one after another, as DetailsOf describes. */
  method GetAircraftDetails(reply: AircraftReply) returns (r: DetailsResult)
    ensures r == DetailsOf(reply)
  {
    if reply.Rejected? {
      return CaughtError(reply.reason);
    }
    if reply.status == Some(400) {
      return Nothing;
    }
    if reply.aircraft.None? {
      return CaughtError(TypeError);
    }
    var aircraft := reply.aircraft.value;
    var details := EmptyForm;
    details := details.(registration := aircraft.registration);
    details := details.(aircraftType := aircraft.aircraftType);
    details := details.(base := aircraft.base);
    if aircraft.taxesPaid.Absent? {
      return CaughtError(TypeError);
    } else if aircraft.taxesPaid.Val? {
      details := details.(taxesPaid := Some(BoolString(aircraft.taxesPaid.v)));
    }
    r := Values(details);
  }

  /** The body posted for the aircraft; a nil field is left out. */
  datatype AircraftBody = AircraftBody(
    registration: Option<string>,
    aircraftType: Option<string>,
    base: Option<string>,
    taxesPaid: Option<string>)

  /** postAircraftDetails's body: every form field that is set and not empty, and nothing else. */
  function BodyOf(form: AircraftForm): (b: AircraftBody)
    ensures b.registration == OrNull(form.registration)
    ensures b.aircraftType == OrNull(form.aircraftType)
    ensures b.base == OrNull(form.base)
    ensures b.taxesPaid == OrNull(form.taxesPaid)
  {
    AircraftBody(OrNull(form.registration), OrNull(form.aircraftType), OrNull(form.base), OrNull(form.taxesPaid))
  }

  /**
   * postAircraftDetails: adds each truthy form field to the body; resolves with the aircraft the
   * API returns, or with nothing when the request fails.
   */
  method PostAircraftDetails(form: AircraftForm, reply: AircraftReply) returns (body: AircraftBody, result: Option<ApiAircraft>)
    ensures body == BodyOf(form)
    ensures reply.Rejected? ==> result.None?
    ensures reply.Received? ==> result == reply.aircraft
  {
    body := AircraftBody(None, None, None, None);
    if Truthy(form.registration) {
      body := body.(registration := form.registration);
    }
    if Truthy(form.aircraftType) {
      body := body.(aircraftType := form.aircraftType);
    }
    if Truthy(form.base) {
      body := body.(base := form.base);
    }
    if Truthy(form.taxesPaid) {
      body := body.(taxesPaid := form.taxesPaid);
    }
    result := if reply.Received? then reply.aircraft else None;
  }

  /**
   * The aircraft the workflow API keeps for a posted body: the texts as sent, and taxesPaid
   * read as a boolean from 'true' or 'false' (null otherwise).
   */
  function Stored(body: AircraftBody): ApiAircraft
  {
    ApiAircraft(body.registration, body.aircraftType, body.base,
                if body.taxesPaid == Some("true") then Val(true)
                else if body.taxesPaid == Some("false") then Val(false)
                else Null)
  }

  /**
   * Round trip: posting the aircraft form and reading it back gives the form's non-empty fields,
   * and an empty field back as unset, when taxes-paid holds 'true', 'false' or nothing.
   */
  lemma PostThenGet(form: AircraftForm, status: Option<int>)
    requires status != Some(400)
    requires form.taxesPaid.None? || form.taxesPaid.value in {"", "true", "false"}
    ensures DetailsOf(Received(status, Some(Stored(BodyOf(form))))) ==
      Values(AircraftForm(OrNull(form.registration), OrNull(form.aircraftType), OrNull(form.base),
                          OrNull(form.taxesPaid)))
  {
  }
}
