/**
 * The request hooks of the summary page that act rather than render: the back link chosen in
 * configure, getValues (which builds the summary object), and process, which changes a
 * section, cancels a submitted GAR or returns to the GAR list.
 */
module SummaryActions {
  import opened Common
  import opened GarModel
  import opened Session
  import opened SubmitService
  import opened GarService
  import opened SubmitBehaviour
  import opened SummaryView

  /**
   * configure: with a summary mode the back link is the GAR list; otherwise, unless the user
   * came through the upload pages, it is the supporting-files question; otherwise the default.
   */
  function BackLink(session: SessionModel): (r: Option<string>)
    reads session
    ensures r == Some("manage-gars") <==> session.IsSet("summaryMode")
    ensures r == Some("supporting-files") <==> !session.IsSet("summaryMode") && !session.IsSet("supportingFiles")
    ensures r.None? <==> !session.IsSet("summaryMode") && session.IsSet("supportingFiles")
  {
    if session.IsSet("summaryMode") then Some("manage-gars")
    else if !session.IsSet("supportingFiles") then Some("supporting-files")
    else None
  }

  /** The errors stored under garErrors, nil when there are none. */
  function StoredErrors(session: SessionModel): (r: Option<GarErrors>)
    reads session
    ensures r.Some? <==> "garErrors" in session.attributes && session.attributes["garErrors"].Errors?
    ensures r.Some? ==> r.value == session.attributes["garErrors"].garErrors
  {
    if "garErrors" in session.attributes && session.attributes["garErrors"].Errors? then
      Some(session.attributes["garErrors"].garErrors)
    else None
  }

  /**
   * getValues: forget the summary flag, fetch the GAR's details and build the summary object
   * for the stored summary mode, with the stored errors unless the mode is 'view'. `details` is
   * the fetched summary, nil when the fetch fails; a failed fetch or a summary that cannot be
   * built ends in next(err).
   */
  method GetValues(session: SessionModel, details: Option<GarSummary>, tr: string -> string,
                   countryName: string -> string)
    returns (reply: Reply, page: Option<SummaryPage>)
    modifies session
    ensures session.attributes == old(session.attributes) - {"summary"}
    ensures reply == Next <==> page.Some?
    ensures reply == Next || reply == Fail
    ensures details.None? ==> reply == Fail
    ensures page.Some? ==>
      fresh(page.value) && details.Some?
      && page.value.garUuid == details.value.garUuid
      && page.value.summary == SummaryMode(old(session.GetText("summaryMode")))
      && page.value.state == GetGarStatus(details.value.submission, tr).displayValue
    ensures page.Some? && old(session.GetText("summaryMode")) == Some("view") ==>
      page.value.error.None? && page.value.validationError.None?
    ensures page.Some? && old(session.GetText("summaryMode")) != Some("view") && old(StoredErrors(session)).Some?
            && old(StoredErrors(session)).value.Reason? ==>
      page.value.error == old(StoredErrors(session))
    ensures details.Some? && details.value.location.Some?
            && (details.value.people.None? || PeopleReadable(details.value.people.value))
            && !MergesValidation(ShowErrors(old(session.GetText("summaryMode"))), old(StoredErrors(session)))
            ==> reply == Next
  {
    var summaryMode := session.GetText("summaryMode");
    var summaryErrors := StoredErrors(session);
    session.Unset("summary");
    if details.None? {
      return Fail, None;
    }
    var built, ok := SummaryPage.CreateSummary(details.value, summaryMode, summaryErrors,
                                               ShowErrors(summaryMode), tr, countryName);
    if ok {
      reply, page := Next, Some(built);
    } else {
      reply, page := Fail, None;
    }
  }

  /**
   * The plan of cancelGar as the code is written: a SUBMITTED GAR is cancelled and then polled,
   * any other state is polled again. The TIMEOUT answer built for the last attempt is replaced
   * by a new poll before it is returned, so the attempt count plays no part.
   */
  function ChooseCancelPlanAsWritten(state: string): (p: PollPlan)
    ensures p == ActThenPoll <==> state == Submitted
    ensures p != GiveUp
  {
    if state == Submitted then ActThenPoll else PollAgain
  }

  /** The plan as intended: on the configured last attempt, give up with a TIMEOUT answer. */
  function ChooseCancelPlan(state: string, attempt: int, maxPolls: int): (p: PollPlan)
    ensures p == ActThenPoll <==> state == Submitted
    ensures p == GiveUp <==> state != Submitted && attempt == maxPolls
  {
    if state == Submitted then ActThenPoll
    else if attempt == maxPolls then GiveUp
    else PollAgain
  }

  /** The error a rejected request carries: its HTTP status code, when it has one. */
  datatype RequestError = RequestError(statusCode: Option<int>)

  /**
   * How the DELETE that cancels a GAR ends: accepted, or rejected with an error value (nil when
   * the rejection carries none).
   */
  datatype CancelRequest = CancelAccepted | CancelRejected(error: Option<RequestError>)

  /**
   * What reaches the second stage of cancelGar: an answer with a status and a status code, no
   * value at all (reading its status then throws), or the poll's timeout.
   */
  datatype CancelAnswer = Answer(status: Option<string>, statusCode: Option<int>) | Missing | TimedOut

  /**
   * The answer a plan ends with: a rejected cancel request passes its error on as the answer, a
   * poll gives its terminal submission or times out, and giving up answers TIMEOUT.
   */
  function SettleCancel(plan: PollPlan, request: CancelRequest, poll: PollOutcome): (a: CancelAnswer)
    requires !poll.Pending?
    ensures a.TimedOut? <==> poll.Rejected? && (plan == PollAgain || (plan == ActThenPoll && request.CancelAccepted?))
    ensures a.Missing? <==> plan == ActThenPoll && request == CancelRejected(None)
    ensures plan == GiveUp ==> a == Answer(Some("TIMEOUT"), None)
    ensures a.Answer? && a.statusCode.Some? ==>
      plan == ActThenPoll && request == CancelRejected(Some(RequestError(a.statusCode)))
    ensures a.Answer? && plan != GiveUp && !(plan == ActThenPoll && request.CancelRejected?) ==>
      poll == Resolved(Submission(a.status, poll.submission.reason))
  {
    match plan
    case ActThenPoll =>
      if request.CancelRejected? then
        (if request.error.Some? then Answer(None, request.error.value.statusCode) else Missing)
      else if poll.Resolved? then Answer(poll.submission.status, None)
      else TimedOut
    case PollAgain => if poll.Resolved? then Answer(poll.submission.status, None) else TimedOut
    case GiveUp => Answer(Some("TIMEOUT"), None)
  }

  /**
   * The end of cancelGar: CANCELLED returns to the GAR list; any other answer stores the
   * cancellation error (403) or the generic failure and shows the summary with e=1; a timed-out
   * poll re-posts to the summary with the attempt count; a missing answer fails with e=2.
   */
  function CancelReply(answer: CancelAnswer, attempt: nat, tr: string -> string): (r: (Reply, Option<GarErrors>))
    ensures r.0 == Redirect(302, "/egar/manage-gars") <==> answer.Answer? && answer.status == Some(Cancelled)
    ensures r.1.None? <==> (answer.Answer? && answer.status == Some(Cancelled)) || answer.TimedOut?
    ensures answer.TimedOut? ==> r.0 == Redirect(307, "/egar/summary?r=" + NatToString(attempt))
    ensures answer.Answer? && answer.status != Some(Cancelled) ==>
      r == (Redirect(302, "/egar/summary?e=1"),
            Some(Reason(if answer.statusCode == Some(403) then tr("errors.cancellation-error")
                        else tr("errors.cancellation-failed"))))
    ensures answer.Missing? ==> r == (Redirect(302, "/egar/summary?e=2"), Some(Reason(tr("errors.cancellation-failed"))))
  {
    match answer
    case TimedOut => (Redirect(307, "/egar/summary?r=" + NatToString(attempt)), None)
    case Missing => (Redirect(302, "/egar/summary?e=2"), Some(Reason(tr("errors.cancellation-failed"))))
    case Answer(status, statusCode) =>
      if status == Some(Cancelled) then (Redirect(302, "/egar/manage-gars"), None)
      else
        var reason := if statusCode == Some(403) then tr("errors.cancellation-error") else tr("errors.cancellation-failed");
        (Redirect(302, "/egar/summary?e=1"), Some(Reason(reason)))
  }

  /** The outcome of cancelGar for the state read, the cancel request and the poll it started. */
  function CancelOutcome(status: Fetched, r: Option<nat>, request: CancelRequest, poll: PollOutcome,
                         maxPolls: int, tr: string -> string): (Reply, Option<GarErrors>)
    requires !poll.Pending?
  {
    var plan := ChooseCancelPlan(GetGarStatus(SubmissionOf(status), tr).status, Attempt(r), maxPolls);
    CancelReply(SettleCancel(plan, request, poll), Attempt(r), tr)
  }

  /**
   * A GAR is reported cancelled only when a poll saw it CANCELLED: never on giving up, and never
   * from the answer of a rejected cancel request.
   */
  lemma CancelledOnlyWhenPolled(plan: PollPlan, request: CancelRequest, poll: PollOutcome, attempt: nat,
                                tr: string -> string)
    requires !poll.Pending?
    requires CancelReply(SettleCancel(plan, request, poll), attempt, tr).0 == Redirect(302, "/egar/manage-gars")
    ensures poll.Resolved? && poll.submission.status == Some(Cancelled)
    ensures plan == PollAgain || (plan == ActThenPoll && request.CancelAccepted?)
  {
    var a := SettleCancel(plan, request, poll);
    assert a.Answer? && a.status == Some(Cancelled);
    assert a.status != Some("TIMEOUT") by {
      assert Cancelled[0] != "TIMEOUT"[0];
    }
  }

  /**
   * As written, a GAR that is not SUBMITTED whose polls keep timing out is sent back to the
   * summary on every attempt, the configured last one included: the retries never end.
   */
  lemma CancelAsWrittenRetriesForever(state: string, r: Option<nat>, request: CancelRequest, tr: string -> string)
    requires state != Submitted
    ensures CancelReply(SettleCancel(ChooseCancelPlanAsWritten(state), request, Rejected), Attempt(r), tr).0
      == Redirect(307, "/egar/summary?r=" + NatToString(Attempt(r)))
  {
  }

  /**
   * As intended, the attempt that reaches the configured maximum stops: the summary is shown
   * with the cancellation-failed reason, whatever the poll would have done.
   */
  lemma CancelIntendedRetriesStop(state: string, r: Option<nat>, maxPolls: nat, request: CancelRequest,
                                  poll: PollOutcome, tr: string -> string)
    requires state != Submitted && Attempt(r) == maxPolls
    requires !poll.Pending?
    ensures CancelReply(SettleCancel(ChooseCancelPlan(state, Attempt(r), maxPolls), request, poll), Attempt(r), tr)
      == (Redirect(302, "/egar/summary?e=1"), Some(Reason(tr("errors.cancellation-failed"))))
  {
    assert Some("TIMEOUT") != Some(Cancelled) by {
      assert Cancelled[0] != "TIMEOUT"[0];
    }
  }

  /**
   * cancelGar: read the GAR's state, cancel or poll according to the plan, and store the
   * reason of a failed cancellation under garErrors. `status` is the state read, `request`
   * how the cancel request ended and `poll` how the poll it started settled.
   */
  method CancelGar(session: SessionModel, r: Option<nat>, status: Fetched, request: CancelRequest,
                   poll: PollOutcome, maxPolls: int, tr: string -> string)
    returns (reply: Reply)
    requires !poll.Pending?
    modifies session
    ensures var outcome := CancelOutcome(status, r, request, poll, maxPolls, tr);
      reply == outcome.0
      && session.attributes == (if outcome.1.Some? then old(session.attributes)["garErrors" := Errors(outcome.1.value)]
                                else old(session.attributes))
  {
    var outcome := CancelOutcome(status, r, request, poll, maxPolls, tr);
    if outcome.1.Some? {
      session.Set("garErrors", Errors(outcome.1.value));
    }
    reply := outcome.0;
  }

  /**
   * process: a truthy change_location sets the summary flag and opens that section's page;
   * cancel-gar cancels the GAR; return goes back to the GAR list; anything else continues.
   */
  method Process(session: SessionModel, body: map<string, string>, r: Option<nat>, status: Fetched,
                 request: CancelRequest, poll: PollOutcome, maxPolls: int, tr: string -> string)
    returns (reply: Reply)
    requires !poll.Pending?
    modifies session
    ensures Truthy(Lookup(body, "change_location")) ==>
      reply == Redirect(302, "/egar/" + body["change_location"])
      && session.attributes == old(session.attributes)["summary" := Flag(true)]
    ensures !Truthy(Lookup(body, "change_location")) && Truthy(Lookup(body, "cancel-gar")) ==>
      var outcome := CancelOutcome(status, r, request, poll, maxPolls, tr);
      reply == outcome.0
      && session.attributes == (if outcome.1.Some? then old(session.attributes)["garErrors" := Errors(outcome.1.value)]
                                else old(session.attributes))
    ensures !Truthy(Lookup(body, "change_location")) && !Truthy(Lookup(body, "cancel-gar")) ==>
      session.attributes == old(session.attributes)
      && reply == (if Truthy(Lookup(body, "return")) then Redirect(302, "manage-gars") else Next)
  {
    if Truthy(Lookup(body, "change_location")) {
      session.Set("summary", Flag(true));
      reply := Redirect(302, "/egar/" + body["change_location"]);
    } else if Truthy(Lookup(body, "cancel-gar")) {
      reply := CancelGar(session, r, status, request, poll, maxPolls, tr);
    } else if Truthy(Lookup(body, "return")) {
      reply := Redirect(302, "manage-gars");
    } else {
      reply := Next;
    }
  }
}
