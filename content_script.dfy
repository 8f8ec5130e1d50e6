/**
 * The plain content script: a fixed button whose click always opens the
 * solution, appended when the reply says a solution exists, behind the
 * same duplicate guard. Unlike the TypeScript page script it does not
 * check the slug before sending the request: piece 2 of the path may be
 * missing (`undefined`) or empty.
 */
module ContentScript {
  import opened Wrappers
  import opened JsString
  import opened Protocol
  import Background

  /** Text of the button. */
  const RocketLabel: string := "\U{1F680} View NeetCode Solution"

  /** `pathname.split("/")[2]`: a string, or `undefined` when the path has fewer pieces. */
  function PathSegment2(pathname: string): (slug: SlugValue)
    ensures slug.Undefined? || slug.Str?
    ensures slug.Str? ==> '/' !in slug.s
  {
    var segments := Split(pathname, '/');
    if |segments| > 2 then Str(segments[2]) else Undefined
  }

  /** The path the unit tests use yields "two-sum". */
  lemma TwoSumSegment()
    ensures PathSegment2("/problems/two-sum/") == Str("two-sum")
  {
    ThirdPiece("", "problems", "two-sum", "/", '/');
    assert "/problems/two-sum/" == "" + "/" + "problems" + "/" + "two-sum" + "/";
  }

  /** A path that stops after "/problems/" sends the empty string. */
  lemma EmptySegment()
    ensures PathSegment2("/problems/") == Str("")
  {
    ThirdPiece("", "problems", "", "", '/');
    assert "/problems/" == "" + "/" + "problems" + "/" + "" + "";
  }

  /** A path with only two pieces sends `undefined`. */
  lemma MissingSegment()
    ensures PathSegment2("/problems") == Undefined
  {
    SplitWithoutSeparator("problems", '/');
    SplitAtSeparator("", "problems", '/');
    assert "/problems" == "" + "/" + "problems";
  }

  /**
   * Either background listener rejects what this script sends for a path
   * without a usable piece 2, so such a page never gets a button.
   */
  lemma UnusableSegmentRejected(v: Background.Variant, pathname: string, outcome: Background.ProbeOutcome)
    requires !Truthy(PathSegment2(pathname))
    ensures Background.HandleMessage(v, CheckRequest(PathSegment2(pathname)), outcome).reply
            == Some(Reply(false, Some(InvalidSlugError)))
  {
  }

  /** The button made by `createButton(slug)`. */
  class PlainButton {
    const id: string
    const text: string
    /** The slug captured by the click listener, possibly `undefined`. */
    const slug: SlugValue

    /** `createButton(slug)`. */
    constructor (slug: SlugValue)
      ensures id == ButtonId && text == RocketLabel && this.slug == slug
    {
      id, text, this.slug := ButtonId, RocketLabel, slug;
    }

    /** The `click` listener: no drag suppression, always one `window.open`. */
    method Click() returns (call: WindowOpen)
      ensures call.target == NewTab
      ensures slug.Str? ==> call.url == SolutionUrl(slug.s)
      ensures slug.Undefined? ==> call.url == SolutionUrl("undefined")
    {
      call := WindowOpen(SolutionUrl(Render(slug)), NewTab);
    }
  }

  /** A page as far as the content script touches it. */
  class ContentPage {
    /** `window.location.pathname`. */
    const pathname: string
    /** The elements the script has appended to `document.body`. */
    var body: seq<PlainButton>
    /** The messages sent with `chrome.runtime.sendMessage`, oldest first. */
    var sent: seq<Message>

    constructor (pathname: string)
      ensures this.pathname == pathname && body == [] && sent == []
    {
      this.pathname := pathname;
      body, sent := [], [];
    }

    /** `document.querySelector("#neetcode-button")` finds an element. */
    predicate HasButton()
      reads this
      ensures HasButton() ==> |body| > 0
    {
      exists i :: 0 <= i < |body| && body[i].id == ButtonId
    }

    /** Every element the script appends is a solution button. */
    ghost predicate Valid()
      reads this
    {
      forall i :: 0 <= i < |body| ==> body[i].id == ButtonId
    }

    /** Under the invariant, the guard finds a button exactly when one was appended. */
    lemma HasButtonIffNonEmpty()
      requires Valid()
      ensures HasButton() <==> |body| > 0
    {
      if |body| > 0 {
        assert body[0].id == ButtonId;
      }
    }

    /**
     * `appendButtonIfSolutionExists(slug)`, with the reply handed to the
     * callback given (`None` for an undefined response).
     */
    method AppendButtonIfSolutionExists(slug: SlugValue, response: Option<Reply>)
      requires Valid()
      modifies this
      ensures Valid()
      ensures sent == old(sent) + [CheckRequest(slug)]
      ensures response.Some? && response.value.found ==>
                && |body| == |old(body)| + 1 && body[..|old(body)|] == old(body)
                && fresh(body[|old(body)|]) && body[|old(body)|].slug == slug
                && body[|old(body)|].text == RocketLabel
      ensures !(response.Some? && response.value.found) ==> body == old(body)
    {
      sent := sent + [CheckRequest(slug)];
      if response.Some? && response.value.found {
        var button := new PlainButton(slug);
        body := body + [button];
      }
    }

    /** `init`, with the reply to its check request given. */
    method Init(response: Option<Reply>)
      requires Valid()
      modifies this
      ensures Valid()
      ensures old(HasButton()) ==> body == old(body) && sent == old(sent)
      // no slug check: a request goes out even for `undefined` or ""
      ensures !old(HasButton()) ==>
                && sent == old(sent) + [CheckRequest(PathSegment2(pathname))]
                && (response.Some? && response.value.found ==>
                      && |body| == |old(body)| + 1 && body[..|old(body)|] == old(body)
                      && fresh(body[|old(body)|]) && body[|old(body)|].slug == PathSegment2(pathname)
                      && body[|old(body)|].text == RocketLabel)
                && (!(response.Some? && response.value.found) ==> body == old(body))
      // the guard keeps the page at one button at most
      ensures |old(body)| <= 1 ==> |body| <= 1
    {
      HasButtonIffNonEmpty();
      if !HasButton() {
        var slug := PathSegment2(pathname);
        AppendButtonIfSolutionExists(slug, response);
      }
    }
  }

  /**
   * A page loaded with the background worker answering: a button appears
   * exactly when piece 2 of the path is a non-empty string and the probe is
   * ok, and its click opens that slug's solution.
   */
  method LoadPage(v: Background.Variant, pathname: string, outcome: Background.ProbeOutcome)
    returns (page: ContentPage, click: Option<WindowOpen>)
    ensures page.sent == [CheckRequest(PathSegment2(pathname))]
    ensures |page.body| <= 1
    ensures |page.body| == 1 <==> Truthy(PathSegment2(pathname)) && outcome == Background.Completed(true)
    ensures |page.body| == 1 ==> page.body[0].text == RocketLabel
    ensures click.Some? <==> |page.body| == 1
    ensures click.Some? ==> click.value == WindowOpen(SolutionUrl(PathSegment2(pathname).s), NewTab)
  {
    page := new ContentPage(pathname);
    var h := Background.HandleMessage(v, CheckRequest(PathSegment2(pathname)), outcome);
    page.Init(h.reply);
    if |page.body| == 1 {
      var call := page.body[0].Click();
      click := Some(call);
    } else {
      click := None;
    }
  }

  /** The solution page of "two-sum". */
  lemma TwoSumUrl()
    ensures SolutionUrl("two-sum") == "https://neetcode.io/solutions/two-sum"
  {
  }

  /** The end-to-end scenario: the two-sum page with a solution shows the rocket button, which opens its solution. */
  method TwoSumPage(v: Background.Variant) returns (text: string, click: WindowOpen)
    ensures text == RocketLabel
    ensures click == WindowOpen("https://neetcode.io/solutions/two-sum", "_blank")
  {
    TwoSumSegment();
    var page, call := LoadPage(v, "/problems/two-sum/", Background.Completed(true));
    assert Truthy(Str("two-sum"));
    assert |page.body| == 1;
    text := page.body[0].text;
    assert call == Some(WindowOpen(SolutionUrl("two-sum"), NewTab));
    TwoSumUrl();
    click := call.value;
  }
}
