/**
 * The controller every wizard step extends: before a request is processed it points the back
 * link at the summary when the user came from there (fixBackLink), and drops session errors
 * left over from other pages (clearResidualErrors).
 */
module BaseController {
  import opened Common
  import opened Session

  /** The page named after 'egar/' in a referrer: the text between its first and second 'egar/'. */
  function PageAfterEgar(referrer: string): string
    requires Includes(referrer, "egar/")
  {
    var pieces := Split(referrer, "egar/");
    assert |pieces| >= 2;
    pieces[1]
  }

  /** A referrer that holds '/egar/' also holds 'egar/'. */
  lemma EgarInside(referrer: string)
    requires Includes(referrer, "/egar/")
    ensures Includes(referrer, "egar/")
  {
    var i := IndexOf(referrer, "/egar/");
    assert referrer[i + 1..i + 6] == referrer[i..i + 6][1..];
    assert OccursAt(referrer, "egar/", i + 1);
  }

  /**
   * The session after fixBackLink has read the referrer: no referrer forgets the last page; a
   * referrer inside the wizard that is not the page itself records the page it names; any other
   * referrer changes nothing.
   */
  function AfterReferrer(attributes: map<string, SessionValue>, referrer: string, url: string): (r: map<string, SessionValue>)
    ensures referrer == "" ==> r == attributes - {"lastPage"}
    ensures referrer != "" && !(Includes(referrer, "/egar/") && !Includes(referrer, url)) ==> r == attributes
    ensures referrer != "" && Includes(referrer, "/egar/") && !Includes(referrer, url) ==>
      Includes(referrer, "egar/") && r == attributes["lastPage" := Text(PageAfterEgar(referrer))]
  {
    if referrer == "" then attributes - {"lastPage"}
    else if Includes(referrer, "/egar/") && !Includes(referrer, url) then
      EgarInside(referrer);
      attributes["lastPage" := Text(PageAfterEgar(referrer))]
    else attributes
  }

  /**
   * The back link after fixBackLink: 'summary' when the last page is set, names the summary and
   * the current page is not manage-gars; the back link as it was otherwise.
   */
  function BackLinkOf(lastPage: Option<string>, url: string, backLink: Option<string>): (r: Option<string>)
    ensures r == Some("summary") <==>
      (Truthy(lastPage) && !Includes(url, "manage-gars") && Includes(lastPage.value, "summary")) || backLink == Some("summary")
    ensures r != backLink ==> Truthy(lastPage) && !Includes(url, "manage-gars")
  {
    if Truthy(lastPage) && !Includes(url, "manage-gars") then
      if Includes(lastPage.value, "summary") then Some("summary") else backLink
    else backLink
  }

  /** The session keeps text (or nothing) under lastPage. */
  predicate LastPageIsText(attributes: map<string, SessionValue>)
  {
    "lastPage" in attributes ==> attributes["lastPage"].Text?
  }

  /** The last page the session holds, nil when it holds none. */
  function LastPage(attributes: map<string, SessionValue>): (r: Option<string>)
    ensures r.Some? <==> "lastPage" in attributes && attributes["lastPage"].Text?
    ensures r.Some? ==> r.value == attributes["lastPage"].text
  {
    if "lastPage" in attributes && attributes["lastPage"].Text? then Some(attributes["lastPage"].text) else None
  }

  /**
   * fixBackLink: without a session nothing happens; otherwise the last page is updated from the
   * referrer (nil counts as '') and the back link is chosen from it.
   */
  method FixBackLink(session: SessionModel?, referrer: Option<string>, url: string, backLink: Option<string>)
    returns (newBackLink: Option<string>)
    requires session != null ==> LastPageIsText(session.attributes)
    modifies session
    ensures session == null ==> newBackLink == backLink
    ensures session != null ==>
      && session.attributes == AfterReferrer(old(session.attributes), OrElse(referrer, ""), url)
      && LastPageIsText(session.attributes)
      && newBackLink == BackLinkOf(LastPage(session.attributes), url, backLink)
  {
    var ref := if Truthy(referrer) then referrer.value else "";
    if session == null {
      return backLink;
    }
    if ref == "" {
      session.Unset("lastPage");
    } else if Includes(ref, "/egar/") && !Includes(ref, url) {
      EgarInside(ref);
      session.Set("lastPage", Text(PageAfterEgar(ref)));
    }
    var lastPage := session.GetText("lastPage");
    newBackLink := backLink;
    if Truthy(lastPage) && !Includes(url, "manage-gars") {
      newBackLink := if Includes(lastPage.value, "summary") then Some("summary") else backLink;
    }
  }

  /** The first 'egar/' in a prefix, 'egar/' and a rest is the one after the prefix, when the prefix holds none. */
  lemma {:induction false} EgarAfterPrefix(prefix: string, page: string)
    requires !Includes(prefix, "egar/")
    ensures IndexOf(prefix + "egar/" + page, "egar/") == |prefix|
  {
    var s := prefix + "egar/" + page;
    assert OccursAt(s, "egar/", |prefix|) by {
      assert s[|prefix|..|prefix| + 5] == "egar/";
    }
    forall j | 0 <= j < |prefix| ensures !OccursAt(s, "egar/", j) {
      if j + 5 <= |prefix| {
        assert !OccursAt(prefix, "egar/", j);
        assert s[j..j + 5] == prefix[j..j + 5];
      } else {
        assert s[|prefix|] == 'e';
        assert "egar/"[|prefix| - j] != 'e';
      }
    }
  }

  /**
   * Coming from a wizard page: a referrer '<origin>/egar/<page>' that is not the current URL
   * records <page> as the last page, and when that page is the summary (and the current page
   * is not manage-gars) the back link goes to the summary.
   */
  lemma FromWizardPage(attributes: map<string, SessionValue>, origin: string, page: string, url: string, backLink: Option<string>)
    requires !Includes(origin + "/", "egar/") && !Includes(page, "egar/")
    requires !Includes(origin + "/egar/" + page, url)
    ensures var after := AfterReferrer(attributes, origin + "/egar/" + page, url);
      && after == attributes["lastPage" := Text(page)]
      && (Includes(page, "summary") && !Includes(url, "manage-gars") ==> BackLinkOf(Some(page), url, backLink) == Some("summary"))
  {
    var prefix := origin + "/";
    var referrer := origin + "/egar/" + page;
    assert referrer == prefix + "egar/" + page;
    SplitAfterPrefix(prefix, page);
    assert OccursAt(referrer, "/egar/", |origin|) by {
      assert referrer[|origin|..|origin| + 6] == "/egar/";
    }
    assert PageAfterEgar(referrer) == page;
  }

  /** Splitting '<prefix>egar/<page>' at 'egar/' gives the prefix and the page, when neither holds 'egar/'. */
  lemma SplitAfterPrefix(prefix: string, page: string)
    requires !Includes(prefix, "egar/") && !Includes(page, "egar/")
    ensures Split(prefix + "egar/" + page, "egar/") == [prefix, page]
  {
    var s := prefix + "egar/" + page;
    EgarAfterPrefix(prefix, page);
    assert s[..|prefix|] == prefix;
    assert s[|prefix| + 5..] == page;
  }

  /** The errors left for the current page: the entries for fields of its form. */
  function Prune(errors: map<string, string>, fieldNames: set<string>): (r: map<string, string>)
    ensures forall k :: k in r <==> k in errors && k in fieldNames
    ensures forall k :: k in r ==> r[k] == errors[k]
  {
    map k | k in errors && k in fieldNames :: errors[k]
  }

  /** The session keeps field errors (or nothing) under errors. */
  predicate ErrorsAreFieldErrors(attributes: map<string, SessionValue>)
  {
    "errors" in attributes ==> attributes["errors"].FieldErrors?
  }

  /**
   * The session after clearResidualErrors: the stored errors keep only the fields of the current
   * form (none when the form declares no fields), and errorValues is emptied exactly when no
   * error is left; nothing else changes.
   */
  function Cleared(attributes: map<string, SessionValue>, formFields: Option<set<string>>): (r: map<string, SessionValue>)
    requires ErrorsAreFieldErrors(attributes)
    ensures ErrorsAreFieldErrors(r)
    ensures "errors" in r <==> "errors" in attributes
    ensures "errors" in r ==>
      r["errors"].errors == Prune(attributes["errors"].errors, if formFields.Some? then formFields.value else {})
    ensures "errors" !in r || r["errors"].errors == map[] ==> "errorValues" in r && r["errorValues"] == Form(map[])
    ensures "errorValues" in r && r["errorValues"] != Form(map[]) ==> "errors" in r && r["errors"].errors != map[]
    ensures forall k :: k != "errors" && k != "errorValues" ==> (k in r <==> k in attributes)
    ensures forall k :: k != "errors" && k != "errorValues" && k in r ==> r[k] == attributes[k]
  {
    var names := if formFields.Some? then formFields.value else {};
    if "errors" !in attributes || attributes["errors"].errors == map[] then attributes["errorValues" := Form(map[])]
    else
      var pruned := Prune(attributes["errors"].errors, names);
      var kept := attributes["errors" := FieldErrors(pruned)];
      if pruned == map[] then kept["errorValues" := Form(map[])] else kept
  }

  /** Clearing residual errors a second time changes nothing more. */
  lemma ClearedTwice(attributes: map<string, SessionValue>, formFields: Option<set<string>>)
    requires ErrorsAreFieldErrors(attributes)
    ensures Cleared(Cleared(attributes, formFields), formFields) == Cleared(attributes, formFields)
  {
    var once := Cleared(attributes, formFields);
    var names := if formFields.Some? then formFields.value else {};
    if "errors" in once && once["errors"].errors != map[] {
      assert Prune(once["errors"].errors, names) == once["errors"].errors;
      assert once["errors" := FieldErrors(once["errors"].errors)] == once;
    }
  }

  /**
   * clearResidualErrors: deletes, one key at a time, the stored errors that are not fields of
   * the current form, then empties errorValues when no error is left.
   */
  method ClearResidualErrors(session: SessionModel, formFields: Option<set<string>>)
    requires ErrorsAreFieldErrors(session.attributes)
    modifies session
    ensures session.attributes == Cleared(old(session.attributes), formFields)
  {
    var errors: map<string, string> := if "errors" in session.attributes then session.attributes["errors"].errors else map[];
    if errors != map[] {
      var names := if formFields.Some? then formFields.value else {};
      ghost var original := errors;
      var keys := errors.Keys;
      while keys != {}
        invariant keys <= original.Keys
        invariant errors == map k | k in original && (k in keys || k in names) :: original[k]
        decreases keys
      {
        var k :| k in keys;
        if k !in names {
          errors := errors - {k};
        }
        keys := keys - {k};
      }
      assert errors == Prune(original, names);
      session.Set("errors", FieldErrors(errors));
    }
    if errors == map[] {
      session.Set("errorValues", Form(map[]));
    }
  }

  /**
   * configure: fixes the back link, clears residual errors and passes on. Without a session the
   * back link is left alone and clearing the errors throws, writing errorValues into a session
   * that is not there.
   */
  method Configure(session: SessionModel?, referrer: Option<string>, url: string, backLink: Option<string>,
                   formFields: Option<set<string>>) returns (newBackLink: Option<string>, reply: Reply)
    requires session != null ==> LastPageIsText(session.attributes) && ErrorsAreFieldErrors(session.attributes)
    modifies session
    ensures session == null ==> newBackLink == backLink && reply == Fail
    ensures session != null ==>
      session.attributes == Cleared(AfterReferrer(old(session.attributes), OrElse(referrer, ""), url), formFields)
    ensures session != null ==>
      newBackLink == BackLinkOf(LastPage(AfterReferrer(old(session.attributes), OrElse(referrer, ""), url)), url, backLink)
    ensures session != null ==> reply == Next
  {
    newBackLink := FixBackLink(session, referrer, url, backLink);
    if session == null {
      return newBackLink, Fail;
    }
    assert ErrorsAreFieldErrors(session.attributes);
    ClearResidualErrors(session, formFields);
    reply := Next;
  }
}
