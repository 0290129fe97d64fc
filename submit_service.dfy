/**
 * The submission service: the submission endpoint URL, the mapping of a failed status read to
 * null or undefined, and the poll that waits for a submission (or cancellation) to reach a final
 * state. The timers are modelled as a sequence of interval ticks, one status read per tick, all
 * before the timeout fires.
 */
module SubmitService {
  import opened Common
  import opened GarModel

  /** The body of GET /WF/GARs/{uuid}/Submission/. */
  datatype SubmissionResult = SubmissionResult(submission: Option<Submission>)

  /** What a call to the workflow API produced: a body, or an error carrying an HTTP status code. */
  datatype ApiResponse<T> = Ok(body: T) | Failed(statusCode: Option<int>)

  /** getSubmissionResult's value: the body, null (NullResult, a 400) or undefined (any other failure). */
  datatype Fetched = Body(result: SubmissionResult) | NullResult | Undefined

  /** The submission endpoint of a GAR. */
  function SubmitUrl(baseUrl: string, garUuid: string): (r: string)
    ensures StartsWith(r, baseUrl + "/WF/GARs/")
    ensures r[|baseUrl + "/WF/GARs/"|..] == garUuid + "/Submission/"
  {
    baseUrl + "/WF/GARs/" + garUuid + "/Submission/"
  }

  /** Different GARs have different submission endpoints. */
  lemma SubmitUrlInjective(baseUrl: string, u1: string, u2: string)
    requires SubmitUrl(baseUrl, u1) == SubmitUrl(baseUrl, u2)
    ensures u1 == u2
  {
    var n := |baseUrl + "/WF/GARs/"|;
    assert u1 + "/Submission/" == SubmitUrl(baseUrl, u1)[n..];
    assert u2 + "/Submission/" == SubmitUrl(baseUrl, u2)[n..];
    assert |u1| == |u2|;
    assert u1 == (u1 + "/Submission/")[..|u1|];
    assert u2 == (u2 + "/Submission/")[..|u2|];
  }

  /** getSubmissionResult never fails: a 400 reads as null and every other failure as undefined. */
  function GetSubmissionResult(response: ApiResponse<SubmissionResult>): (r: Fetched)
    ensures response.Ok? <==> r.Body?
    ensures response.Ok? ==> r.result == response.body
    ensures r.NullResult? <==> response == Failed(Some(400))
  {
    match response
    case Ok(body) => Body(body)
    case Failed(code) => if code == Some(400) then NullResult else Undefined
  }

  /** `submissionResult && submissionResult.submission` */
  function SubmissionOf(f: Fetched): (r: Option<Submission>)
    ensures r.Some? <==> f.Body? && f.result.submission.Some?
    ensures r.Some? ==> r.value == f.result.submission.value
  {
    if f.Body? then f.result.submission else None
  }

  const FinalStates: seq<string> := ["SUBMITTED", "FAILED", "CANCELLED"]

  /** A status read that ends the poll: a submission whose status is one of the final states. */
  predicate IsTerminal(f: Fetched)
  {
    SubmissionOf(f).Some? && SubmissionOf(f).value.status.Some?
      && SubmissionOf(f).value.status.value in FinalStates
  }

  /** The final states are exactly SUBMITTED, FAILED and CANCELLED. */
  lemma TerminalStates(f: Fetched)
    requires SubmissionOf(f).Some? && SubmissionOf(f).value.status.Some?
    ensures IsTerminal(f) <==> SubmissionOf(f).value.status.value in {"SUBMITTED", "FAILED", "CANCELLED"}
  {
  }

  /** How a poll settles: still pending, resolved with a submission, or rejected by the timeout. */
  datatype PollOutcome = Pending | Resolved(submission: Submission) | Rejected

  /**
   * What a submit or cancel request does after reading the GAR's state: send the submit or
   * cancel request and then poll, poll again, or give up with a TIMEOUT answer.
   */
  datatype PollPlan = ActThenPoll | PollAgain | GiveUp

  /** The index of the first terminal read at or after `from`, if any. */
  function FirstTerminalFrom(polled: seq<Fetched>, from: nat): (r: Option<nat>)
    requires from <= |polled|
    ensures r.Some? ==> from <= r.value < |polled| && IsTerminal(polled[r.value])
    ensures r.Some? ==> forall k :: from <= k < r.value ==> !IsTerminal(polled[k])
    ensures r.None? ==> forall k :: from <= k < |polled| ==> !IsTerminal(polled[k])
    decreases |polled| - from
  {
    if from == |polled| then None
    else if IsTerminal(polled[from]) then Some(from)
    else FirstTerminalFrom(polled, from + 1)
  }

  /**
   * The poll's outcome for the reads made on successive ticks before the timeout: the first
   * terminal submission seen, or a rejection when none of them is terminal.
   */
  function PollResult(polled: seq<Fetched>): (r: PollOutcome)
    ensures !r.Pending?
    ensures r.Rejected? <==> forall k :: 0 <= k < |polled| ==> !IsTerminal(polled[k])
    ensures r.Resolved? ==>
      exists k :: 0 <= k < |polled| && IsTerminal(polled[k]) && SubmissionOf(polled[k]) == Some(r.submission)
        && forall j :: 0 <= j < k ==> !IsTerminal(polled[j])
  {
    var i := FirstTerminalFrom(polled, 0);
    if i.Some? then Resolved(SubmissionOf(polled[i.value]).value) else Rejected
  }

  /** Reads after the first terminal one never change the outcome. */
  lemma {:induction false} PollIgnoresLaterReads(polled: seq<Fetched>, later: seq<Fetched>)
    requires !PollResult(polled).Rejected?
    ensures PollResult(polled + later) == PollResult(polled)
  {
    FirstTerminalPrefix(polled, later, 0);
  }

  lemma {:induction false} FirstTerminalPrefix(polled: seq<Fetched>, later: seq<Fetched>, from: nat)
    requires from <= |polled|
    requires FirstTerminalFrom(polled, from).Some?
    ensures FirstTerminalFrom(polled + later, from) == FirstTerminalFrom(polled, from)
    decreases |polled| - from
  {
    assert (polled + later)[from] == polled[from];
    if !IsTerminal(polled[from]) {
      FirstTerminalPrefix(polled, later, from + 1);
    }
  }

  /**
   * One poll for a submission or cancellation: an interval timer issuing a status read per tick
   * and a timeout timer that rejects the poll if no read was terminal.
   */
  class Poller {
    var intervalActive: bool
    var timeoutActive: bool
    var outcome: PollOutcome
    var readsMade: nat

    /** Starting the poll arms both timers. */
    constructor ()
      ensures intervalActive && timeoutActive && outcome == Pending && readsMade == 0
    {
      intervalActive := true;
      timeoutActive := true;
      outcome := Pending;
      readsMade := 0;
    }

    /**
     * Runs the poll over the reads returned on successive ticks until a terminal read or the
     * timeout. Both timers end up stopped, and the poll settles exactly once.
     */
    method Run(polled: seq<Fetched>)
      requires intervalActive && timeoutActive && outcome == Pending && readsMade == 0
      modifies this
      ensures outcome == PollResult(polled)
      ensures !intervalActive && !timeoutActive
      ensures outcome.Resolved? ==> readsMade == FirstTerminalFrom(polled, 0).value + 1
      ensures outcome.Rejected? ==> readsMade == |polled|
    {
      var k := 0;
      while k < |polled| && outcome == Pending
        invariant 0 <= k <= |polled|
        invariant readsMade == k
        invariant outcome == Pending ==>
          intervalActive && timeoutActive && forall j :: 0 <= j < k ==> !IsTerminal(polled[j])
        invariant outcome != Pending ==>
          k >= 1 && !intervalActive && !timeoutActive && FirstTerminalFrom(polled, 0) == Some(k - 1)
          && outcome == Resolved(SubmissionOf(polled[k - 1]).value)
      {
        readsMade := readsMade + 1;
        if IsTerminal(polled[k]) {
          assert FirstTerminalFrom(polled, 0) == Some(k) by {
            FirstTerminalIsFirst(polled, 0, k);
          }
          intervalActive := false;
          timeoutActive := false;
          outcome := Resolved(SubmissionOf(polled[k]).value);
        }
        k := k + 1;
      }
      if outcome == Pending {
        // the timeout fires: it stops the interval and rejects
        intervalActive := false;
        timeoutActive := false;
        outcome := Rejected;
      }
    }
  }

  /** A terminal read preceded only by non-terminal polled is the first terminal read. */
  lemma {:induction false} FirstTerminalIsFirst(polled: seq<Fetched>, from: nat, k: nat)
    requires from <= k < |polled| && IsTerminal(polled[k])
    requires forall j :: from <= j < k ==> !IsTerminal(polled[j])
    ensures FirstTerminalFrom(polled, from) == Some(k)
    decreases k - from
  {
    if from < k {
      FirstTerminalIsFirst(polled, from + 1, k);
    }
  }
}
