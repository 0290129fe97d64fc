/**
 * The people page of the wizard: its buttons add a person, delete one or edit one, and the
 * continue button moves on (to the summary when the user came from there).
 */
module People {
  import opened Common
  import opened Session

  /** A key of the posted body that names a button: it starts with 'delete:', 'edit:' or 'add-new:'. */
  predicate IsButton(key: string)
  {
    StartsWith(key, "delete:") || StartsWith(key, "edit:") || StartsWith(key, "add-new:")
  }

  /** The first key of the posted body that names a button, nil when none does. */
  function ButtonKey(keys: seq<string>): (r: Option<string>)
    ensures r.None? <==> forall k :: 0 <= k < |keys| ==> !IsButton(keys[k])
    ensures r.Some? ==> IsButton(r.value)
    ensures r.Some? ==> exists i :: (0 <= i < |keys| && keys[i] == r.value
                                     && forall k :: 0 <= k < i ==> !IsButton(keys[k]))
  {
    if |keys| == 0 then None
    else if IsButton(keys[0]) then Some(keys[0])
    else
      var r := ButtonKey(keys[1..]);
      if r.Some? then
        var i :| 0 <= i < |keys[1..]| && keys[1..][i] == r.value && forall k :: 0 <= k < i ==> !IsButton(keys[1..][k]);
        assert keys[i + 1] == r.value && forall k :: 0 <= k < i + 1 ==> !IsButton(keys[k]);
        r
      else r
  }

  /** The i-th piece of a split, nil (undefined) past the end. */
  function PieceAt(pieces: seq<string>, i: nat): (r: Option<string>)
    ensures r.Some? <==> i < |pieces|
    ensures r.Some? ==> r.value == pieces[i]
  {
    if i < |pieces| then Some(pieces[i]) else None
  }

  /** The step an edit goes to, chosen by the person's type in lower case; the people page itself otherwise. */
  function NextPath(personType: string, route: string): (r: string)
    ensures ToLower(personType) == "captain" ==> r == "/captain-general"
    ensures ToLower(personType) == "crew" ==> r == "/crew-general"
    ensures ToLower(personType) == "passenger" ==> r == "/passenger-general"
    ensures ToLower(personType) !in {"captain", "crew", "passenger"} ==> r == route
  {
    match ToLower(personType)
    case "captain" => "/captain-general"
    case "crew" => "/crew-general"
    case "passenger" => "/passenger-general"
    case _ => route
  }

  /** What processing the people form does. */
  datatype Step =
    | Crash                                                  // no button key: split on undefined throws
    | AddPerson                                              // forget the stored person, go to the person type step
    | DeletePerson(personId: Option<string>)                 // delete the person, come back to this page
    | EditPerson(next: string, personId: Option<string>)     // remember the person, go to its general step
    | Proceed(next: string)                                  // carry on to the configured next step

  /**
   * The step a request takes: a POST without `continue` acts on the first button key, split at
   * ':' into the task, the person's type and the person's id; anything else carries on, to
   * '/summary' when the summary flag is set.
   */
  function PlanOf(isPost: bool, continuePressed: bool, keys: seq<string>, route: string, next: string, summary: bool): Step
  {
    if isPost && !continuePressed then
      match ButtonKey(keys)
      case None => Crash
      case Some(key) =>
        var pieces := Split(key, ":");
        if pieces[0] == "add-new" then AddPerson
        else if pieces[0] == "delete" then DeletePerson(PieceAt(pieces, 2))
        else if pieces[0] == "edit" then
          var personType := PieceAt(pieces, 1);
          if personType.None? then Crash else EditPerson(NextPath(personType.value, route), PieceAt(pieces, 2))
        else Proceed(route)
    else Proceed(if summary then "/summary" else next)
  }

  /** Splitting '<head>:<rest>' at ':' gives the head first, when the head holds no ':'. */
  lemma SplitAfterHead(head: string, rest: string)
    requires !Includes(head, ":")
    ensures Split(head + ":" + rest, ":") == [head] + Split(rest, ":")
  {
    var s := head + ":" + rest;
    assert OccursAt(s, ":", |head|) by {
      assert s[|head|..|head| + 1] == ":";
    }
    forall j | 0 <= j < |head| ensures !OccursAt(s, ":", j) {
      assert !OccursAt(head, ":", j);
      assert s[j..j + 1] == head[j..j + 1];
    }
    assert IndexOf(s, ":") == |head|;
    assert s[..|head|] == head;
    assert s[|head| + 1..] == rest;
  }

  /** The task a button key names is the text before its first ':', one of the three tasks. */
  lemma ButtonTask(key: string)
    requires IsButton(key)
    ensures var pieces := Split(key, ":");
      |pieces| >= 2 && pieces[0] in {"delete", "edit", "add-new"}
  {
    var task := if StartsWith(key, "delete:") then "delete" else if StartsWith(key, "edit:") then "edit" else "add-new";
    NoChar(task, ':');
    assert key[..|task| + 1] == task + ":";
    assert key == task + ":" + key[|task| + 1..];
    SplitAfterHead(task, key[|task| + 1..]);
  }

  /**
   * A POST without `continue` crashes exactly when no key names a button: a button key always
   * names one of the three tasks, and an edit key always carries a person type.
   */
  lemma CrashOnlyWithoutButton(keys: seq<string>, route: string, next: string, summary: bool)
    ensures PlanOf(true, false, keys, route, next, summary) == Crash <==>
      forall k :: 0 <= k < |keys| ==> !IsButton(keys[k])
    ensures !PlanOf(true, false, keys, route, next, summary).Proceed?
  {
    var b := ButtonKey(keys);
    if b.Some? {
      ButtonTask(b.value);
    }
  }

  /** The buttons the people page renders: one add-new button, with its translated label. */
  datatype Button = Button(id: string, name: string, value: string)

  function Buttons(translate: string -> string): (r: seq<Button>)
    ensures |r| == 1 && r[0].value == translate("buttons.add-new")
  {
    [Button("add-new::", "add-new:", translate("buttons.add-new"))]
  }

  /** Pressing the page's own add-new button adds a person, whatever the other keys of the body. */
  lemma AddNewButtonAdds(translate: string -> string, others: seq<string>, route: string, next: string, summary: bool)
    requires forall k :: 0 <= k < |others| ==> !IsButton(others[k])
    ensures PlanOf(true, false, others + [Buttons(translate)[0].name], route, next, summary) == AddPerson
  {
    var keys := others + [Buttons(translate)[0].name];
    assert keys[|others|] == "add-new:";
    AddNewIsButton();
    ButtonFound(keys, |others|);
  }

  /** The add-new button's name is a button key whose task is add-new. */
  lemma AddNewIsButton()
    ensures IsButton("add-new:")
    ensures Split("add-new:", ":")[0] == "add-new"
  {
    assert OccursAt("add-new:", "add-new:", 0);
    NoChar("add-new", ':');
    assert "add-new:" == "add-new" + ":" + "";
    SplitAfterHead("add-new", "");
  }

  /** A key '<task>:<type>:<id>' splits at ':' into its three parts, when none of them holds a ':'. */
  lemma ParseButton(task: string, personType: string, id: string)
    requires !Includes(task, ":") && !Includes(personType, ":") && !Includes(id, ":")
    ensures Split(task + ":" + personType + ":" + id, ":") == [task, personType, id]
  {
    assert task + ":" + personType + ":" + id == task + ":" + (personType + ":" + id);
    SplitAfterHead(task, personType + ":" + id);
    SplitAfterHead(personType, id);
    assert Split(id, ":") == [id];
  }

  /**
   * Round trip of an edit button: the key 'edit:<type>:<id>' (type and id free of ':') edits
   * that person, going to the general step of its type.
   */
  lemma EditButtonRoundTrip(personType: string, id: string, route: string, next: string, summary: bool)
    requires !Includes(personType, ":") && !Includes(id, ":")
    ensures PlanOf(true, false, ["edit:" + personType + ":" + id], route, next, summary) ==
      EditPerson(NextPath(personType, route), Some(id))
  {
    var key := "edit:" + personType + ":" + id;
    assert IsButton(key) by {
      assert key[..5] == "edit:";
    }
    NoChar("edit", ':');
    assert key == "edit" + ":" + personType + ":" + id;
    ParseButton("edit", personType, id);
  }

  /**
   * Round trip of a delete button: the key 'delete:<type>:<id>' (type and id free of ':')
   * deletes that person.
   */
  lemma DeleteButtonRoundTrip(personType: string, id: string, route: string, next: string, summary: bool)
    requires !Includes(personType, ":") && !Includes(id, ":")
    ensures PlanOf(true, false, ["delete:" + personType + ":" + id], route, next, summary) == DeletePerson(Some(id))
  {
    var key := "delete:" + personType + ":" + id;
    assert IsButton(key) by {
      assert key[..7] == "delete:";
    }
    NoChar("delete", ':');
    assert key == "delete" + ":" + personType + ":" + id;
    ParseButton("delete", personType, id);
  }

  /** configure: the back link goes to the summary when the summary flag is set. */
  function ConfiguredBackLink(summary: bool, backLink: Option<string>): (r: Option<string>)
    ensures summary ==> r == Some("summary")
    ensures !summary ==> r == backLink
  {
    if summary then Some("summary") else backLink
  }

  /**
   * Coming from the summary, the page's back link and its continue button both lead back to the
   * summary.
   */
  lemma SummaryBothWays(keys: seq<string>, route: string, next: string, backLink: Option<string>)
    ensures ConfiguredBackLink(true, backLink) == Some("summary")
    ensures PlanOf(true, true, keys, route, next, true) == Proceed("/summary")
    ensures PlanOf(false, false, keys, route, next, true) == Proceed("/summary")
  {
  }

  /** The delete request the page sends: the GAR and the person. */
  datatype Deletion = Deletion(garUuid: Option<string>, personId: Option<string>)

  /** Unsets the stored person, its id and its attributes. */
  method ForgetPerson(session: SessionModel)
    modifies session
    ensures session.attributes == old(session.attributes) - {"personId", "person", "attributes"}
  {
    session.Unset("personId");
    session.Unset("person");
    session.Unset("attributes");
  }

  /**
   * process: finds the first button key, splits it and acts on its task; the delete request is
   * sent with the stored GAR id, and the page moves on only when it succeeds (a failed deletion
   * leaves the request without a reply). A crash ends the request with an error.
   */
  method Process(session: SessionModel, isPost: bool, continuePressed: bool, keys: seq<string>, route: string,
                 next: string, deleted: bool) returns (newNext: string, reply: Reply, deletion: Option<Deletion>)
    modifies session
    ensures var step := PlanOf(isPost, continuePressed, keys, route, next, old(session.IsSet("summary")));
      && (step == Crash ==>
            (newNext == next && reply == Fail && deletion.None? && session.attributes == old(session.attributes)))
      && (step == AddPerson ==>
            (newNext == "/person-type" && reply == Next && deletion.None?
             && session.attributes == old(session.attributes) - {"personId", "person", "attributes"}))
      && (step.DeletePerson? ==>
            (newNext == route && (reply == if deleted then Next else NoReply)
             && deletion == Some(Deletion(old(session.GetText("garUuid")), step.personId))
             && session.attributes == old(session.attributes)))
      && (step.EditPerson? ==>
            (newNext == step.next && reply == Next && deletion.None?
             && session.attributes == (if step.personId.Some? then old(session.attributes)["personId" := Text(step.personId.value)]
                                       else old(session.attributes) - {"personId"})))
      && (step.Proceed? ==>
            (newNext == step.next && reply == Next && deletion.None? && session.attributes == old(session.attributes)))
  {
    deletion := None;
    if !(isPost && !continuePressed) {
      newNext := if session.IsSet("summary") then "/summary" else next;
      reply := Next;
      return;
    }
    var i := 0;
    while i < |keys| && !IsButton(keys[i])
      invariant 0 <= i <= |keys|
      invariant forall k :: 0 <= k < i ==> !IsButton(keys[k])
    {
      i := i + 1;
    }
    if i == |keys| {
      newNext, reply := next, Fail;
      return;
    }
    ButtonFound(keys, i);
    var pieces := Split(keys[i], ":");
    var task := pieces[0];
    newNext := route;
    reply := Next;
    if task == "add-new" {
      newNext := "/person-type";
      ForgetPerson(session);
    } else if task == "delete" {
      deletion := Some(Deletion(session.GetText("garUuid"), PieceAt(pieces, 2)));
      reply := if deleted then Next else NoReply;
    } else if task == "edit" {
      var personType := PieceAt(pieces, 1);
      if personType.None? {
        newNext, reply := next, Fail;
        return;
      }
      newNext := NextPath(personType.value, route);
      var personId := PieceAt(pieces, 2);
      if personId.Some? {
        session.Set("personId", Text(personId.value));
      } else {
        session.Unset("personId");
      }
    }
  }

  /** The first button key found by scanning is the one ButtonKey names. */
  lemma ButtonFound(keys: seq<string>, i: nat)
    requires i < |keys| && IsButton(keys[i])
    requires forall k :: 0 <= k < i ==> !IsButton(keys[k])
    ensures ButtonKey(keys) == Some(keys[i])
  {
    var b := ButtonKey(keys);
    var j :| 0 <= j < |keys| && keys[j] == b.value && forall k :: 0 <= k < j ==> !IsButton(keys[k]);
    assert j == i;
  }
}
