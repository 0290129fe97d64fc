/**
 * The manage-GARs page: a button '<action>-<uuid>' for edit, view or cancel selects that GAR
 * for the summary; showing the page forgets the GAR selected before.
 */
module ManageGars {
  import opened Common
  import opened Session

  /** The actions a GAR row offers, in the order they are looked for. */
  const Actions: seq<string> := ["edit", "view", "cancel"]

  /** The first key of the posted body that starts with '<action>-', nil when none does. */
  function ActionKey(keys: seq<string>, action: string): (r: Option<string>)
    ensures r.None? <==> forall k :: 0 <= k < |keys| ==> !StartsWith(keys[k], action + "-")
    ensures r.Some? ==> r.value in keys && StartsWith(r.value, action + "-")
    ensures |keys| > 0 && StartsWith(keys[0], action + "-") ==> r == Some(keys[0])
  {
    if |keys| == 0 then None
    else if StartsWith(keys[0], action + "-") then Some(keys[0])
    else ActionKey(keys[1..], action)
  }

  /** The GAR id a matched key names: the key without its '<action>-' prefix. */
  function GarOf(key: string, action: string): string
  {
    ReplaceFirst(key, action + "-", "")
  }

  /**
   * The session after the first n actions have been looked for: each action with a matching key
   * sets garUuid to the id it names and summaryMode to the action, a later action overwriting an
   * earlier one.
   */
  function Selected(attributes: map<string, SessionValue>, keys: seq<string>, n: nat): (r: map<string, SessionValue>)
    requires n <= |Actions|
    ensures forall k :: k != "garUuid" && k != "summaryMode" ==> (k in r <==> k in attributes)
    ensures forall k :: k != "garUuid" && k != "summaryMode" && k in r ==> r[k] == attributes[k]
  {
    if n == 0 then attributes
    else
      var before := Selected(attributes, keys, n - 1);
      match ActionKey(keys, Actions[n - 1])
      case None => before
      case Some(key) => before["garUuid" := Text(GarOf(key, Actions[n - 1]))]["summaryMode" := Text(Actions[n - 1])]
  }

  /** The number of actions among the first n that have a matching key: one redirect each. */
  function Matches(keys: seq<string>, n: nat): (c: nat)
    requires n <= |Actions|
    ensures c <= n
  {
    if n == 0 then 0 else Matches(keys, n - 1) + (if ActionKey(keys, Actions[n - 1]).Some? then 1 else 0)
  }

  /**
   * process: a GET is passed on; a Search submit does nothing and sends no reply; any other POST
   * looks for each action's key in turn, selecting the GAR and redirecting to the summary for
   * every action that has one (no reply when none has).
   */
  method Process(session: SessionModel, isPost: bool, submit: Option<string>, keys: seq<string>)
    returns (replies: seq<Reply>)
    modifies session
    ensures !isPost ==> replies == [Next] && session.attributes == old(session.attributes)
    ensures isPost && submit == Some("Search") ==> replies == [] && session.attributes == old(session.attributes)
    ensures isPost && submit != Some("Search") ==>
      && session.attributes == Selected(old(session.attributes), keys, |Actions|)
      && |replies| == Matches(keys, |Actions|)
      && forall k :: 0 <= k < |replies| ==> replies[k] == Redirect(302, "/egar/summary")
  {
    if !isPost {
      return [Next];
    }
    replies := [];
    if submit == Some("Search") {
      return;
    }
    ghost var start := session.attributes;
    for i := 0 to |Actions|
      invariant session.attributes == Selected(start, keys, i)
      invariant |replies| == Matches(keys, i)
      invariant forall k :: 0 <= k < |replies| ==> replies[k] == Redirect(302, "/egar/summary")
    {
      var action := Actions[i];
      var summaryAction := ActionKey(keys, action);
      if summaryAction.Some? {
        SelectAction(session, GarOf(summaryAction.value, action), action);
        replies := replies + [Redirect(302, "/egar/summary")];
      }
    }
  }

  /** Stores the selected GAR and the summary mode. */
  method SelectAction(session: SessionModel, garUuid: string, action: string)
    modifies session
    ensures session.attributes == old(session.attributes)["garUuid" := Text(garUuid)]["summaryMode" := Text(action)]
  {
    session.Set("garUuid", Text(garUuid));
    session.Set("summaryMode", Text(action));
  }

  /** The session once the page is shown: no GAR, summary flag or summary mode is kept. */
  function Forgotten(attributes: map<string, SessionValue>): (r: map<string, SessionValue>)
    ensures "garUuid" !in r && "summary" !in r && "summaryMode" !in r
    ensures forall k :: k !in {"garUuid", "summary", "summaryMode"} ==> (k in r <==> k in attributes)
    ensures forall k :: k in r ==> r[k] == attributes[k]
  {
    attributes - {"garUuid", "summary", "summaryMode"}
  }

  /** getValues: unsets the GAR, the summary flag and the summary mode (the GAR list is read elsewhere). */
  method GetValues(session: SessionModel)
    modifies session
    ensures session.attributes == Forgotten(old(session.attributes))
  {
    session.Unset("garUuid");
    session.Unset("summary");
    session.Unset("summaryMode");
  }

  /** The first characters of 'edit-', 'view-' and 'cancel-' differ, so a key matches one action at most. */
  lemma OneActionPerKey(key: string, a: nat, b: nat)
    requires a < |Actions| && b < |Actions| && a != b
    requires StartsWith(key, Actions[a] + "-")
    ensures !StartsWith(key, Actions[b] + "-")
  {
    assert key[0] == (Actions[a] + "-")[0];
    assert (Actions[b] + "-")[0] != (Actions[a] + "-")[0];
  }

  /**
   * Round trip: a page whose only action key is '<action>-<uuid>' selects that GAR in that mode,
   * with one redirect, and changes nothing else.
   */
  lemma {:induction false} SelectsTheNamedGar(attributes: map<string, SessionValue>, a: nat, uuid: string)
    requires a < |Actions|
    ensures var key := Actions[a] + "-" + uuid;
      && Selected(attributes, [key], |Actions|) == attributes["garUuid" := Text(uuid)]["summaryMode" := Text(Actions[a])]
      && Matches([key], |Actions|) == 1
  {
    var key := Actions[a] + "-" + uuid;
    assert StartsWith(key, Actions[a] + "-") by {
      assert key[..|Actions[a]| + 1] == Actions[a] + "-";
    }
    ReplacePrefix(Actions[a] + "-", uuid);
    assert GarOf(key, Actions[a]) == uuid;
    forall b | 0 <= b < |Actions| && b != a ensures ActionKey([key], Actions[b]).None? {
      OneActionPerKey(key, a, b);
    }
    assert ActionKey([key], Actions[a]) == Some(key);
    SelectedOnly(attributes, [key], a, uuid, |Actions|);
  }

  /** Folding the actions when only action a matches, and names the GAR uuid. */
  lemma {:induction false} SelectedOnly(attributes: map<string, SessionValue>, keys: seq<string>, a: nat, uuid: string, n: nat)
    requires a < |Actions| && n <= |Actions|
    requires forall b :: 0 <= b < |Actions| && b != a ==> ActionKey(keys, Actions[b]).None?
    requires ActionKey(keys, Actions[a]).Some? && GarOf(ActionKey(keys, Actions[a]).value, Actions[a]) == uuid
    ensures n <= a ==> Selected(attributes, keys, n) == attributes && Matches(keys, n) == 0
    ensures n > a ==> Selected(attributes, keys, n) == attributes["garUuid" := Text(uuid)]["summaryMode" := Text(Actions[a])]
    ensures n > a ==> Matches(keys, n) == 1
  {
    if n > 0 {
      SelectedOnly(attributes, keys, a, uuid, n - 1);
    }
  }

  /**
   * After the page has been shown, a POST that is not a search leaves a GAR selected exactly when
   * some key names an action.
   */
  lemma {:induction false} SelectedAfterShown(attributes: map<string, SessionValue>, keys: seq<string>, n: nat)
    requires n <= |Actions|
    ensures "garUuid" in Selected(Forgotten(attributes), keys, n) <==> Matches(keys, n) > 0
    ensures "summaryMode" in Selected(Forgotten(attributes), keys, n) <==> Matches(keys, n) > 0
  {
    if n > 0 {
      SelectedAfterShown(attributes, keys, n - 1);
    }
  }
}
