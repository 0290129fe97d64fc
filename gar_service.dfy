/**
 * The GAR service: the five GAR states, the status defaulting of a GAR or submission result, and
 * the annotation of every GAR on the "manage GARs" list with its departure, displayed state and
 * whether it may be edited or cancelled.
 */
module GarService {
  import opened Common
  import opened GarModel

  const Draft := "DRAFT"
  const PendingState := "PENDING"
  const Submitted := "SUBMITTED"
  const FailedState := "FAILED"
  const Cancelled := "CANCELLED"

  const GarStates: seq<string> := [Draft, PendingState, Submitted, FailedState, Cancelled]

  datatype GarStatus = GarStatus(status: string, displayValue: string)

  /**
   * getGarStatus: the submission's status, DRAFT when the object has no submission status (or an
   * empty one), and its translated display value.
   */
  function GetGarStatus(submission: Option<Submission>, tr: string -> string): (r: GarStatus)
    ensures submission.Some? && Truthy(submission.value.status) ==> r.status == submission.value.status.value
    ensures !(submission.Some? && Truthy(submission.value.status)) ==> r.status == Draft
    ensures r.status != ""
    ensures r.displayValue == tr("gar-states." + r.status)
  {
    var status := if submission.Some? && Truthy(submission.value.status) then submission.value.status.value else Draft;
    GarStatus(status, tr("gar-states." + status))
  }

  /** A GAR can be edited unless it has been submitted or cancelled. */
  predicate CanEdit(status: string)
  {
    status != Submitted && status != Cancelled
  }

  /**
   * The configured cancellation window: `hours` before or after the departure or the arrival
   * date-time of the GAR.
   */
  datatype CancelPolicy = CancelPolicy(hours: int, fromDeparture: bool, before: bool)

  /**
   * moment().isSameOrBefore(cancellationTime): the current time is no later than the reference
   * date-time shifted by the window; an unreadable reference date-time never allows it.
   */
  function CanCancelAt(reference: Option<string>, policy: CancelPolicy, now: int): (r: bool)
    ensures r ==> reference.Some? && ParseIso(reference.value).Some?
    ensures reference.Some? && ParseIso(reference.value).Some? ==>
      (r <==> now <= ParseIso(reference.value).value.Epoch()
                       + (if policy.before then -policy.hours * 3600 else policy.hours * 3600))
  {
    if reference.None? then false
    else match ParseIso(reference.value)
      case None => false
      case Some(t) =>
        var deadline := if policy.before then t.Epoch() - policy.hours * 3600 else t.Epoch() + policy.hours * 3600;
        now <= deadline
  }

  /** The departure shown on the list: the first location, with its date and time formatted. */
  datatype Departure = Departure(location: Option<Location>, date: Option<string>, time: Option<string>)

  /** A GAR on the list with the fields getGars adds to it (nil until they are set). */
  datatype ListedGar = ListedGar(
    gar: GarSummary, departure: Option<Departure>, state: Option<string>,
    canEdit: Option<bool>, canCancel: Option<bool>)

  /** The location a submitted GAR's cancellation window is measured from, nil when it is missing. */
  function ReferenceLocation(locations: seq<Option<Location>>, policy: CancelPolicy): Option<Location>
  {
    At(locations, if policy.fromDeparture then 0 else 1)
  }

  /**
   * The departure getGars shows for a GAR: the first location, with its date-time formatted as
   * 'DD/MM/YYYY' and 'HH:mm' when it has one; a GAR with an empty location list keeps what it had.
   */
  function ListedDeparture(locations: seq<Option<Location>>, shown: Option<Departure>): (r: Option<Departure>)
    ensures |locations| == 0 ==> r == shown
    ensures |locations| > 0 ==> r.Some? && r.value.location == locations[0]
    ensures |locations| > 0 && locations[0].Some? && locations[0].value.datetime.Some? ==>
      && r.value.date == Some(FormatDate(locations[0].value.datetime.value, "/"))
      && r.value.time == Some(FormatTime(locations[0].value.datetime.value, ":"))
    ensures |locations| > 0 && !(locations[0].Some? && locations[0].value.datetime.Some?) ==>
      r.value.date.None? && r.value.time.None?
  {
    if |locations| > 0 then
      var first := locations[0];
      if first.Some? && first.value.datetime.Some? then
        Some(Departure(first, Some(FormatDate(first.value.datetime.value, "/")),
                       Some(FormatTime(first.value.datetime.value, ":"))))
      else Some(Departure(first, None, None))
    else shown
  }

  /**
   * The annotation getGars makes to one GAR, or None where the code throws: a GAR without a
   * location list, or a submitted GAR without the location its cancellation window refers to.
   */
  function Annotate(g: ListedGar, tr: string -> string, policy: CancelPolicy, now: int): (r: Option<ListedGar>)
    ensures r.None? <==>
      || g.gar.location.None?
      || (GetGarStatus(g.gar.submission, tr).status == Submitted
          && ReferenceLocation(g.gar.location.value, policy).None?)
    ensures r.Some? ==> r.value.gar == g.gar
    ensures r.Some? ==> r.value.state == Some(GetGarStatus(g.gar.submission, tr).displayValue)
    ensures r.Some? ==> r.value.canEdit == Some(CanEdit(GetGarStatus(g.gar.submission, tr).status))
    ensures r.Some? ==> (r.value.canCancel != g.canCancel ==> GetGarStatus(g.gar.submission, tr).status == Submitted)
    ensures r.Some? && GetGarStatus(g.gar.submission, tr).status == Submitted ==>
      r.value.canCancel == Some(CanCancelAt(ReferenceLocation(g.gar.location.value, policy).value.datetime, policy, now))
    ensures r.Some? ==> r.value.departure == ListedDeparture(g.gar.location.value, g.departure)
  {
    if g.gar.location.None? then None
    else
      var locations := g.gar.location.value;
      var departure := ListedDeparture(locations, g.departure);
      var status := GetGarStatus(g.gar.submission, tr);
      var listed := g.(departure := departure, state := Some(status.displayValue), canEdit := Some(CanEdit(status.status)));
      if status.status == Submitted then
        var reference := ReferenceLocation(locations, policy);
        if reference.None? then None
        else Some(listed.(canCancel := Some(CanCancelAt(reference.value.datetime, policy, now))))
      else Some(listed)
  }

  /** A GAR on the list that carries a cancel decision can no longer be edited. */
  lemma CancellableNotEditable(g: ListedGar, tr: string -> string, policy: CancelPolicy, now: int)
    requires g.canCancel.None?
    requires Annotate(g, tr, policy, now).Some? && Annotate(g, tr, policy, now).value.canCancel.Some?
    ensures Annotate(g, tr, policy, now).value.canEdit == Some(false)
  {
  }

  /** One entry of the list after getGars has handled it, or None where it throws. */
  function AnnotateEntry(entry: Option<ListedGar>, tr: string -> string, policy: CancelPolicy, now: int): Option<ListedGar>
  {
    if entry.None? then None else Annotate(entry.value, tr, policy, now)
  }

  /**
   * Replaces each entry of an array in turn by what step makes of it, stopping at the first entry
   * step gives None for and leaving that entry and the ones after it as they were.
   */
  method UpdateUntilNone<T>(a: array<Option<T>>, step: Option<T> -> Option<T>) returns (ok: bool, done: nat)
    modifies a
    ensures done <= a.Length
    ensures ok <==> done == a.Length
    ensures forall k :: 0 <= k < done ==> step(old(a[k])).Some? && a[k] == step(old(a[k]))
    ensures !ok ==> step(old(a[done])).None?
    ensures forall k :: done <= k < a.Length ==> a[k] == old(a[k])
  {
    done := 0;
    ok := true;
    while done < a.Length
      invariant done <= a.Length
      invariant forall k :: 0 <= k < done ==> step(old(a[k])).Some? && a[k] == step(old(a[k]))
      invariant forall k :: done <= k < a.Length ==> a[k] == old(a[k])
    {
      var next := step(a[done]);
      if next.None? {
        ok := false;
        return;
      }
      a[done] := next;
      done := done + 1;
    }
  }

  /**
   * getGars' pass over the fetched GARs, annotating each in place; a null entry (a GAR without a
   * uuid) or a GAR that Annotate cannot handle stops the pass with an error, leaving the entries
   * from there on as they were.
   */
  method AnnotateGars(gars: array<Option<ListedGar>>, tr: string -> string, policy: CancelPolicy, now: int)
    returns (ok: bool, annotated: nat)
    modifies gars
    ensures annotated <= gars.Length
    ensures ok <==> annotated == gars.Length
    ensures forall k :: 0 <= k < annotated ==>
      AnnotateEntry(old(gars[k]), tr, policy, now).Some? && gars[k] == AnnotateEntry(old(gars[k]), tr, policy, now)
    ensures !ok ==> AnnotateEntry(old(gars[annotated]), tr, policy, now).None?
    ensures forall k :: annotated <= k < gars.Length ==> gars[k] == old(gars[k])
  {
    ok, annotated := UpdateUntilNone(gars, entry => AnnotateEntry(entry, tr, policy, now));
  }
}
