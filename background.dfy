/**
 * The background worker: the CHECK_NEETCODE message handler and the
 * navigation notifier. Both listener sources (the TypeScript one and its
 * JavaScript twin) are modelled; they differ only in the slug check and in
 * what the message listener returns for a foreign message.
 *
 * The asynchronous outcomes are inputs: the HEAD probe's outcome and the
 * result of the active-tab query. Replies, probes and tab notices are
 * appended to outboxes in the order the source issues them.
 */
module Background {
  import opened Wrappers
  import opened JsString
  import opened Protocol

  /** Prefix of every problem page. */
  const ProblemPrefix: string := "https://leetcode.com/problems/"

  /** Which listener source is modelled. */
  datatype Variant = TypeScript | JavaScript

  /** What the message listener returns to the runtime. `true` keeps the reply channel open. */
  datatype ListenerReturn = ReturnedTrue | ReturnedFalse | ReturnedUndefined

  /** How the HEAD probe ends: a response with its `ok` flag, or a rejected fetch with its message. */
  datatype ProbeOutcome = Completed(ok: bool) | TransportFailure(message: string)

  /** Everything one message causes: the URL probed (if any), the reply sent (if any), the return value. */
  datatype Handling = Handling(probe: Option<string>, reply: Option<Reply>, returned: ListenerReturn)

  /**
   * The slug check. The TypeScript listener rejects a falsy slug; the
   * JavaScript one also rejects a slug that is not a string.
   */
  predicate SlugAccepted(v: Variant, slug: SlugValue)
    // neither listener accepts a falsy slug
    ensures SlugAccepted(v, slug) ==> Truthy(slug) && !slug.Undefined?
    // the JavaScript listener accepts exactly the non-empty strings
    ensures v.JavaScript? ==> (SlugAccepted(v, slug) <==> slug.Str? && slug.s != "")
  {
    match v
    case TypeScript => Truthy(slug)
    case JavaScript => Truthy(slug) && slug.Str?
  }

  /** The reply mapped from the probe's outcome. */
  function ProbeReply(outcome: ProbeOutcome): (r: Reply)
    ensures r.found <==> outcome == Completed(true)
    ensures r.error.None? <==> outcome.Completed?
    ensures outcome.TransportFailure? ==> r.error == Some(outcome.message)
  {
    match outcome
    case Completed(ok) => Reply(ok, None)
    case TransportFailure(m) => Reply(false, Some(m))
  }

  /** The message listener as a decision: what it probes, what it replies, what it returns. */
  function HandleMessage(v: Variant, msg: Message, outcome: ProbeOutcome): (h: Handling)
    // exactly one reply for each check request, none for any other message
    ensures h.reply.Some? <==> msg.kind == CheckType
    // the reply channel is kept open exactly for check requests
    ensures h.returned == ReturnedTrue <==> msg.kind == CheckType
    ensures msg.kind != CheckType ==>
              h.probe.None? && h.returned == (if v.TypeScript? then ReturnedFalse else ReturnedUndefined)
    // a probe is issued exactly for a check request with an accepted slug, at the slug's solution URL
    ensures h.probe.Some? <==> msg.kind == CheckType && SlugAccepted(v, msg.slug)
    ensures h.probe.Some? ==> h.probe.value == SolutionUrl(Render(msg.slug))
    // a rejected slug gets the validation error and no probe
    ensures msg.kind == CheckType && !SlugAccepted(v, msg.slug) ==>
              h.reply == Some(Reply(false, Some(InvalidSlugError)))
    // a positive answer only comes from a probe whose response was ok
    ensures h.reply.Some? && h.reply.value.found ==> h.probe.Some? && outcome == Completed(true)
    // after a probe the reply carries the probe's verdict
    ensures h.probe.Some? ==> h.reply == Some(ProbeReply(outcome))
  {
    if msg.kind != CheckType then
      Handling(None, None, if v.TypeScript? then ReturnedFalse else ReturnedUndefined)
    else if !SlugAccepted(v, msg.slug) then
      Handling(None, Some(Reply(false, Some(InvalidSlugError))), ReturnedTrue)
    else
      Handling(Some(SolutionUrl(Render(msg.slug))), Some(ProbeReply(outcome)), ReturnedTrue)
  }

  /** `isLeetCodeProblemPage`: a pure prefix test. */
  function IsLeetCodeProblemPage(url: string): (b: bool)
    ensures b <==> exists rest :: url == ProblemPrefix + rest
  {
    var b := StartsWith(url, ProblemPrefix);
    assert b ==> url == ProblemPrefix + url[|ProblemPrefix|..];
    b
  }

  /** The active-tab check: the query found a tab and the first one is the updated tab. */
  predicate IsFirstActiveTab(tabId: int, activeTabs: seq<Option<int>>)
    // only a tab the query returned can qualify, and an empty result qualifies none
    ensures IsFirstActiveTab(tabId, activeTabs) ==> Some(tabId) in activeTabs
    ensures activeTabs == [] ==> !IsFirstActiveTab(tabId, activeTabs)
  {
    |activeTabs| > 0 && activeTabs[0] == Some(tabId)
  }

  /** One query result designates at most one tab, so one update of another tab never notifies as active. */
  lemma FirstActiveTabUnique(tabId: int, other: int, activeTabs: seq<Option<int>>)
    requires IsFirstActiveTab(tabId, activeTabs) && IsFirstActiveTab(other, activeTabs)
    ensures other == tabId
  {
  }

  /** The notice `handleLeetCodePageNavigation` sends: one for a problem page, none otherwise. */
  function NavigationNotice(tabId: int, url: string): (out: seq<TabMessage>)
    ensures |out| == (if IsLeetCodeProblemPage(url) then 1 else 0)
    ensures forall i :: 0 <= i < |out| ==> out[i] == TabMessage(tabId, UrlChangedType, url)
  {
    if IsLeetCodeProblemPage(url) then [TabMessage(tabId, UrlChangedType, url)] else []
  }

  /** The notice `handleActiveTabUrlChange` sends: one when the tab is the first active tab, whatever the URL. */
  function ActiveTabNotice(tabId: int, url: string, activeTabs: seq<Option<int>>): (out: seq<TabMessage>)
    ensures |out| == (if IsFirstActiveTab(tabId, activeTabs) then 1 else 0)
    ensures forall i :: 0 <= i < |out| ==> out[i] == TabMessage(tabId, UrlChangedType, url)
  {
    if IsFirstActiveTab(tabId, activeTabs) then [TabMessage(tabId, UrlChangedType, url)] else []
  }

  /**
   * All notices one tab update causes. `changedUrl` is `changeInfo.url`:
   * absent, or present but empty, means nothing is sent.
   */
  function UpdateNotices(tabId: int, changedUrl: Option<string>, activeTabs: seq<Option<int>>): (out: seq<TabMessage>)
    ensures |out| <= 2
    ensures changedUrl.None? || changedUrl.value == "" ==> out == []
    ensures changedUrl.Some? && changedUrl.value != "" ==>
              |out| == (if IsLeetCodeProblemPage(changedUrl.value) then 1 else 0)
                      + (if IsFirstActiveTab(tabId, activeTabs) then 1 else 0)
    ensures forall i :: 0 <= i < |out| ==>
              changedUrl.Some? && out[i] == TabMessage(tabId, UrlChangedType, changedUrl.value)
  {
    if changedUrl.Some? && changedUrl.value != "" then
      NavigationNotice(tabId, changedUrl.value) + ActiveTabNotice(tabId, changedUrl.value, activeTabs)
    else
      []
  }

  /** The two listener sources agree on every message whose slug is a string. */
  lemma VariantsAgreeOnStringSlugs(msg: Message, outcome: ProbeOutcome)
    requires msg.slug.Str?
    ensures HandleMessage(TypeScript, msg, outcome).probe == HandleMessage(JavaScript, msg, outcome).probe
    ensures HandleMessage(TypeScript, msg, outcome).reply == HandleMessage(JavaScript, msg, outcome).reply
  {
  }

  /** They differ only on a truthy non-string slug, which only the TypeScript listener probes. */
  lemma VariantsDifferOnTruthyNonStrings(slug: SlugValue)
    ensures SlugAccepted(JavaScript, slug) ==> SlugAccepted(TypeScript, slug)
    ensures SlugAccepted(TypeScript, slug) && !SlugAccepted(JavaScript, slug) <==> slug.Other? && slug.truthy
  {
  }

  /** The service worker: its listeners and what they have sent. */
  class BackgroundWorker {
    /** Replies passed to `sendResponse`, oldest first. */
    var replies: seq<Reply>
    /** URLs of the HEAD requests issued, oldest first. */
    var probes: seq<string>
    /** Notices passed to `chrome.tabs.sendMessage`, oldest first. */
    var tabMessages: seq<TabMessage>

    constructor ()
      ensures replies == [] && probes == [] && tabMessages == []
    {
      replies, probes, tabMessages := [], [], [];
    }

    /** `sendResponse(reply)`. */
    method SendResponse(reply: Reply)
      modifies this
      ensures replies == old(replies) + [reply]
      ensures probes == old(probes) && tabMessages == old(tabMessages)
    {
      replies := replies + [reply];
    }

    /**
     * The `runtime.onMessage` listener of variant `v`, with the probe's
     * eventual outcome given.
     */
    method OnMessage(v: Variant, msg: Message, outcome: ProbeOutcome) returns (returned: ListenerReturn)
      modifies this
      ensures returned == HandleMessage(v, msg, outcome).returned
      ensures probes == old(probes) + HandleMessage(v, msg, outcome).probe.ToSeq()
      ensures replies == old(replies) + HandleMessage(v, msg, outcome).reply.ToSeq()
      ensures |replies| == |old(replies)| + (if msg.kind == CheckType then 1 else 0)
      ensures tabMessages == old(tabMessages)
    {
      if msg.kind != CheckType {
        if v.TypeScript? {
          return ReturnedFalse;
        }
        return ReturnedUndefined;
      }
      if !SlugAccepted(v, msg.slug) {
        SendResponse(Reply(false, Some(InvalidSlugError)));
        return ReturnedTrue;
      }
      var url := SolutionUrl(Render(msg.slug));
      probes := probes + [url];
      match outcome {
        case Completed(ok) =>
          SendResponse(Reply(ok, None));
        case TransportFailure(message) =>
          SendResponse(Reply(false, Some(message)));
      }
      returned := ReturnedTrue;
    }

    /** `handleLeetCodePageNavigation(tabId, url)`. */
    method HandleLeetCodePageNavigation(tabId: int, url: string)
      modifies this
      ensures tabMessages == old(tabMessages) + NavigationNotice(tabId, url)
      ensures replies == old(replies) && probes == old(probes)
    {
      if IsLeetCodeProblemPage(url) {
        tabMessages := tabMessages + [TabMessage(tabId, UrlChangedType, url)];
      }
    }

    /** `handleActiveTabUrlChange(tabId, url)`, with the active-tab query's result given. */
    method HandleActiveTabUrlChange(tabId: int, url: string, activeTabs: seq<Option<int>>)
      modifies this
      ensures tabMessages == old(tabMessages) + ActiveTabNotice(tabId, url, activeTabs)
      ensures replies == old(replies) && probes == old(probes)
    {
      if |activeTabs| > 0 && activeTabs[0] == Some(tabId) {
        tabMessages := tabMessages + [TabMessage(tabId, UrlChangedType, url)];
      }
    }

    /** The `tabs.onUpdated` listener. */
    method OnUpdated(tabId: int, changedUrl: Option<string>, activeTabs: seq<Option<int>>)
      modifies this
      ensures tabMessages == old(tabMessages) + UpdateNotices(tabId, changedUrl, activeTabs)
      ensures |tabMessages| <= |old(tabMessages)| + 2
      ensures replies == old(replies) && probes == old(probes)
    {
      if changedUrl.Some? && changedUrl.value != "" {
        HandleLeetCodePageNavigation(tabId, changedUrl.value);
        HandleActiveTabUrlChange(tabId, changedUrl.value, activeTabs);
      }
    }
  }
}
