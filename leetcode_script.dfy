/**
 * The page script of the TypeScript build: slug extraction, the check
 * request, mounting the draggable button or dispatching the
 * no-solution event, and the duplicate guard of `init`.
 *
 * The reply to the check request is an input; the callback is applied as
 * soon as the request is sent.
 */
module LeetCodeScript {
  import opened Wrappers
  import opened JsString
  import opened Protocol
  import opened ButtonWidget
  import Background

  /** Name of the event dispatched when no solution exists. */
  const NoSolutionEvent: string := "NO_NEETCODE_SOLUTION"

  /** A `CustomEvent` dispatched on the document, with its name and its `detail`. */
  datatype CustomEvent = CustomEvent(name: string, detail: string)

  /** `extractSlugFromURL`: piece 2 of the path split on "/", unless it is missing or empty. */
  function ExtractSlugFromPath(pathname: string): (slug: Option<string>)
    ensures slug.Some? ==> slug.value != "" && '/' !in slug.value
  {
    var segments := Split(pathname, '/');
    if |segments| > 2 && segments[2] != "" then Some(segments[2]) else None
  }

  /** A path `a/b/slug` followed by nothing or by "/..." yields the slug. */
  lemma ExtractSlugOfProblemPath(a: string, b: string, slug: string, tail: string)
    requires '/' !in a && '/' !in b && '/' !in slug && slug != ""
    requires tail == [] || tail[0] == '/'
    ensures ExtractSlugFromPath(a + "/" + b + "/" + slug + tail) == Some(slug)
  {
    ThirdPiece(a, b, slug, tail, '/');
  }

  /** Every extracted slug sits between the second and third "/" of the path. */
  lemma ExtractedSlugContext(pathname: string) returns (a: string, b: string, tail: string)
    requires ExtractSlugFromPath(pathname).Some?
    ensures '/' !in a && '/' !in b && (tail == [] || tail[0] == '/')
    ensures pathname == a + "/" + b + "/" + ExtractSlugFromPath(pathname).value + tail
  {
    a, b, tail := ThirdPieceContext(pathname, '/');
  }

  /** The path the unit tests use yields "two-sum". */
  lemma TwoSumSlug()
    ensures ExtractSlugFromPath("/problems/two-sum/") == Some("two-sum")
  {
    ExtractSlugOfProblemPath("", "problems", "two-sum", "/");
    assert "/problems/two-sum/" == "" + "/" + "problems" + "/" + "two-sum" + "/";
  }

  /** A path that stops after "/problems/" has an empty piece 2, and so no slug. */
  lemma EmptySlugIsNull()
    ensures ExtractSlugFromPath("/problems/") == None
  {
    SplitAtSeparator("problems", "", '/');
    assert "problems/" == "problems" + "/" + "";
    SplitAtSeparator("", "problems/", '/');
    assert "/problems/" == "" + "/" + "problems/";
  }

  /** A path with only two pieces has no piece 2, and so no slug. */
  lemma MissingSlugIsNull()
    ensures ExtractSlugFromPath("/problems") == None
  {
    SplitWithoutSeparator("problems", '/');
    SplitAtSeparator("", "problems", '/');
    assert "/problems" == "" + "/" + "problems";
  }

  /** An extracted slug passes the slug check of both background listeners. */
  lemma ExtractedSlugAccepted(pathname: string, v: Background.Variant)
    requires ExtractSlugFromPath(pathname).Some?
    ensures Background.SlugAccepted(v, Str(ExtractSlugFromPath(pathname).value))
  {
  }

  /** A problem page as far as the script touches it. */
  class LeetCodePage {
    /** `window.location.pathname`. */
    const pathname: string
    /** The elements the script has appended to `document.body`. */
    var body: seq<NeetCodeButton>
    /** The events dispatched on `document`, oldest first. */
    var events: seq<CustomEvent>
    /** The messages sent with `chrome.runtime.sendMessage`, oldest first. */
    var sent: seq<Message>

    constructor (pathname: string)
      ensures this.pathname == pathname
      ensures body == [] && events == [] && sent == []
    {
      this.pathname := pathname;
      body, events, sent := [], [], [];
    }

    /** `document.querySelector("#neetcode-button")` finds an element. */
    predicate HasButton()
      reads this
      ensures HasButton() ==> |body| > 0
    {
      exists i :: 0 <= i < |body| && body[i].id == ButtonId
    }

    /** Every element the script appends is a solution button. */
    ghost predicate Valid()
      reads this
    {
      forall i :: 0 <= i < |body| ==> body[i].id == ButtonId
    }

    /** Under the invariant, the guard finds a button exactly when one was appended. */
    lemma HasButtonIffNonEmpty()
      requires Valid()
      ensures HasButton() <==> |body| > 0
    {
      if |body| > 0 {
        assert body[0].id == ButtonId;
      }
    }

    /** `dispatchNoSolutionEvent(slug)`. */
    method DispatchNoSolutionEvent(slug: string)
      modifies this
      ensures events == old(events) + [CustomEvent(NoSolutionEvent, slug)]
      ensures body == old(body) && sent == old(sent)
    {
      events := events + [CustomEvent(NoSolutionEvent, slug)];
    }

    /**
     * `appendButtonIfSolutionExists(slug)`, with the reply handed to the
     * callback given (`None` for an undefined response).
     */
    method AppendButtonIfSolutionExists(slug: string, response: Option<Reply>)
      requires Valid()
      modifies this
      ensures Valid()
      ensures sent == old(sent) + [CheckRequest(Str(slug))]
      // exactly one of: a button appended, an event dispatched
      ensures |body| + |events| == |old(body)| + |old(events)| + 1
      ensures response.Some? && response.value.found ==>
                && |body| == |old(body)| + 1 && body[..|old(body)|] == old(body)
                && fresh(body[|old(body)|]) && body[|old(body)|].slug == slug
                && body[|old(body)|].State() == Initial
                && events == old(events)
      ensures !(response.Some? && response.value.found) ==>
                body == old(body) && events == old(events) + [CustomEvent(NoSolutionEvent, slug)]
    {
      sent := sent + [CheckRequest(Str(slug))];
      if response.Some? && response.value.found {
        var button := new NeetCodeButton(slug);
        body := body + [button];
      } else {
        DispatchNoSolutionEvent(slug);
      }
    }

    /** `init`, with the reply to its check request given. */
    method Init(response: Option<Reply>)
      requires Valid()
      modifies this
      ensures Valid()
      // a button already present, or no slug in the path: nothing happens
      ensures old(HasButton()) || ExtractSlugFromPath(pathname).None? ==>
                body == old(body) && events == old(events) && sent == old(sent)
      // otherwise one check request for the slug, then one button or one event
      ensures !old(HasButton()) && ExtractSlugFromPath(pathname).Some? ==>
                var slug := ExtractSlugFromPath(pathname).value;
                && sent == old(sent) + [CheckRequest(Str(slug))]
                && (response.Some? && response.value.found ==>
                      && |body| == |old(body)| + 1 && body[..|old(body)|] == old(body)
                      && fresh(body[|old(body)|]) && body[|old(body)|].slug == slug
                      && body[|old(body)|].State() == Initial
                      && events == old(events))
                && (!(response.Some? && response.value.found) ==>
                      body == old(body) && events == old(events) + [CustomEvent(NoSolutionEvent, slug)])
      // the guard keeps the page at one button at most
      ensures |old(body)| <= 1 ==> |body| <= 1
    {
      HasButtonIffNonEmpty();
      if !HasButton() {
        var slug := ExtractSlugFromPath(pathname);
        if slug.None? {
          return;
        }
        AppendButtonIfSolutionExists(slug.value, response);
      }
    }
  }

  /**
   * A problem page loaded with the background worker answering: exactly
   * one button when the probe is ok, otherwise exactly one no-solution
   * event carrying the slug; a click on the button opens the solution.
   */
  method LoadProblemPage(v: Background.Variant, slug: string, outcome: Background.ProbeOutcome)
    returns (page: LeetCodePage, click: Option<ClickEffect>)
    requires slug != "" && '/' !in slug
    ensures page.sent == [CheckRequest(Str(slug))]
    ensures outcome == Background.Completed(true) ==>
              |page.body| == 1 && page.body[0].slug == slug && page.events == []
    ensures outcome != Background.Completed(true) ==>
              page.body == [] && page.events == [CustomEvent(NoSolutionEvent, slug)]
    ensures click.Some? <==> outcome == Background.Completed(true)
    ensures click.Some? ==> click.value == Open(WindowOpen(SolutionUrl(slug), NewTab))
  {
    var path := "/problems/" + slug + "/";
    ExtractSlugOfProblemPath("", "problems", slug, "/");
    assert path == "" + "/" + "problems" + "/" + slug + "/";
    page := new LeetCodePage(path);
    var h := Background.HandleMessage(v, CheckRequest(Str(slug)), outcome);
    page.Init(h.reply);
    if |page.body| == 1 {
      var button := page.body[0];
      var effect := button.Click(button.cursor);
      click := Some(effect);
    } else {
      click := None;
    }
  }
}
