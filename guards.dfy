/**
 * The guards the wizard steps run before their controller: each either lets the request through
 * (next), redirects it, or, once the response headers are sent, may do neither. None of them
 * changes the session.
 */
module Guards {
  import opened Common
  import opened Session
  import ManageGars
  import People

  /** `if (sessionModel.get(key))`: the key is set to a truthy value. */
  predicate IsSetIn(attributes: map<string, SessionValue>, key: string)
  {
    key in attributes && ValueTruthy(attributes[key])
  }

  /** GarGuard: without a GAR selected, and before any header is sent, back to the manage-GARs page. */
  function GarGuard(attributes: map<string, SessionValue>, headersSent: bool): (r: Reply)
    ensures r == Redirect(302, "/egar/manage-gars") <==> !IsSetIn(attributes, "garUuid") && !headersSent
    ensures r != Redirect(302, "/egar/manage-gars") ==> r == Next
  {
    if !IsSetIn(attributes, "garUuid") && !headersSent then Redirect(302, "/egar/manage-gars") else Next
  }

  /**
   * PersonGuard: without a person selected, back to the people page. Unlike the other guards it
   * does not look at whether headers were sent.
   */
  function PersonGuard(attributes: map<string, SessionValue>): (r: Reply)
    ensures r == Redirect(302, "/egar/people") <==> !IsSetIn(attributes, "personId")
    ensures r != Redirect(302, "/egar/people") ==> r == Next
  {
    if !IsSetIn(attributes, "personId") then Redirect(302, "/egar/people") else Next
  }

  /** FileGuard: without an uploaded file, and before any header is sent, back to the upload page. */
  function FileGuard(attributes: map<string, SessionValue>, headersSent: bool): (r: Reply)
    ensures r == Redirect(302, "/egar/upload-files") <==> !IsSetIn(attributes, "uploadFile") && !headersSent
    ensures r != Redirect(302, "/egar/upload-files") ==> r == Next
  {
    if !IsSetIn(attributes, "uploadFile") && !headersSent then Redirect(302, "/egar/upload-files") else Next
  }

  /** The property name a stored value becomes when it is used as a key (JavaScript's String()). */
  function KeyOf(v: SessionValue): string
  {
    match v
    case Text(t) => t
    case Flag(b) => BoolString(b)
    case _ => "[object Object]"
  }

  /**
   * The complete page may be shown: a GAR is selected, the referer names the submit page, and the
   * session holds nothing truthy under the GAR's id.
   */
  predicate CompleteAllowed(attributes: map<string, SessionValue>, referer: Option<string>)
  {
    && IsSetIn(attributes, "garUuid")
    && Truthy(referer) && Includes(referer.value, "submit")
    && !IsSetIn(attributes, KeyOf(attributes["garUuid"]))
  }

  /**
   * CompleteGuard: lets the request through when the complete page may be shown and no header is
   * sent; otherwise redirects to the manage-GARs page, unless headers are sent, when it does
   * neither.
   */
  function CompleteGuard(attributes: map<string, SessionValue>, referer: Option<string>, headersSent: bool): (r: Reply)
    ensures r == Next <==> CompleteAllowed(attributes, referer) && !headersSent
    ensures r == Redirect(302, "/egar/manage-gars") <==> !CompleteAllowed(attributes, referer) && !headersSent
    ensures r == NoReply <==> headersSent
  {
    if CompleteAllowed(attributes, referer) && !headersSent then Next
    else if !headersSent then Redirect(302, "/egar/manage-gars")
    else NoReply
  }

  /** Once the manage-GARs page has been shown, every GAR-guarded step sends the user back to it. */
  lemma ShownPageGuards(attributes: map<string, SessionValue>)
    ensures GarGuard(ManageGars.Forgotten(attributes), false) == Redirect(302, "/egar/manage-gars")
  {
    assert "garUuid" !in ManageGars.Forgotten(attributes);
  }

  /**
   * Choosing a GAR on the manage-GARs page ('<action>-<uuid>', uuid not empty) lets every
   * GAR-guarded step through.
   */
  lemma SelectedGarPasses(attributes: map<string, SessionValue>, a: nat, uuid: string, headersSent: bool)
    requires a < |ManageGars.Actions| && uuid != ""
    ensures GarGuard(ManageGars.Selected(attributes, [ManageGars.Actions[a] + "-" + uuid], |ManageGars.Actions|), headersSent) == Next
  {
    ManageGars.SelectsTheNamedGar(attributes, a, uuid);
  }

  /**
   * Editing a person from the people page ('edit:<type>:<id>', id not empty and free of ':')
   * stores the id, so the person steps it leads to let the request through.
   */
  lemma EditedPersonPasses(attributes: map<string, SessionValue>, personType: string, id: string,
                           route: string, next: string, summary: bool)
    requires !Includes(personType, ":") && !Includes(id, ":") && id != ""
    ensures var step := People.PlanOf(true, false, ["edit:" + personType + ":" + id], route, next, summary);
      && step.EditPerson? && step.personId == Some(id)
      && PersonGuard(attributes["personId" := Text(id)]) == Next
  {
    People.EditButtonRoundTrip(personType, id, route, next, summary);
  }

  /** Adding a person forgets the person id, so the person steps send the user back to the people page. */
  lemma AddedPersonGuarded(attributes: map<string, SessionValue>, translate: string -> string, route: string,
                           next: string, summary: bool)
    ensures People.PlanOf(true, false, [People.Buttons(translate)[0].name], route, next, summary) == People.AddPerson
    ensures PersonGuard(attributes - {"personId", "person", "attributes"}) == Redirect(302, "/egar/people")
  {
    People.AddNewButtonAdds(translate, [], route, next, summary);
    assert [] + [People.Buttons(translate)[0].name] == [People.Buttons(translate)[0].name];
  }

  /**
   * Arriving from the submit page with a GAR selected (whose id names nothing in the session), the
   * complete page is shown.
   */
  lemma FromSubmitCompletes(attributes: map<string, SessionValue>, origin: string, uuid: string)
    requires "garUuid" in attributes && attributes["garUuid"] == Text(uuid) && uuid != ""
    requires !IsSetIn(attributes, uuid)
    ensures CompleteGuard(attributes, Some(origin + "/egar/submit"), false) == Next
  {
    var referer := origin + "/egar/submit";
    assert OccursAt(referer, "submit", |origin| + 6) by {
      assert referer[|origin| + 6..|origin| + 12] == "submit";
    }
  }
}
