/**
 * The per-browser session store (req.sessionModel): string keys mapped to values that every
 * wizard step reads, sets and unsets in place.
 */
module Session {
  import opened Common
  import opened GarModel
  import LocationService

  /** The kinds of value the wizard keeps in the session. */
  datatype SessionValue =
    | Text(text: string)                       // garUuid, personId, summaryMode, lastPage, ...
    | Flag(flag: bool)                         // summary, supportingFiles, ...
    | Form(fields: map<string, string>)        // a cached form, errorValues
    | LegForm(posted: map<LocationService.FormKey, string>) // a cached departure or arrival form
    | FieldErrors(errors: map<string, string>) // field key to error type, as the form wizard stores them
    | Errors(garErrors: GarErrors)             // garErrors

  /** How a request hook ends: next(), next(err), a redirect, or no response at all. */
  datatype Reply = Next | Fail | Redirect(code: int, url: string) | NoReply

  /** JavaScript truthiness of a stored value: objects are always truthy. */
  predicate ValueTruthy(v: SessionValue)
  {
    match v
    case Text(t) => t != ""
    case Flag(b) => b
    case _ => true
  }

  class SessionModel {
    var attributes: map<string, SessionValue>

    constructor (initial: map<string, SessionValue>)
      ensures attributes == initial
    {
      attributes := initial;
    }

    /** sessionModel.get: the stored value, nil when the key is unset. */
    function Get(key: string): (r: Option<SessionValue>)
      reads this
      ensures r.Some? <==> key in attributes
      ensures r.Some? ==> r.value == attributes[key]
    {
      Lookup(attributes, key)
    }

    /** `if (sessionModel.get(key))` */
    predicate IsSet(key: string)
      reads this
    {
      key in attributes && ValueTruthy(attributes[key])
    }

    /** The stored text under a key, nil when the key holds no text. */
    function GetText(key: string): (r: Option<string>)
      reads this
      ensures r.Some? <==> key in attributes && attributes[key].Text?
      ensures r.Some? ==> r.value == attributes[key].text
    {
      if key in attributes && attributes[key].Text? then Some(attributes[key].text) else None
    }

    method Set(key: string, v: SessionValue)
      modifies this
      ensures attributes == old(attributes)[key := v]
    {
      attributes := attributes[key := v];
    }

    method Unset(key: string)
      modifies this
      ensures attributes == old(attributes) - {key}
    {
      attributes := attributes - {key};
    }
  }
}
