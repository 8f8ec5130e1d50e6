# NeetLeet extension core in Dafny

A model of the browser extension that adds a "View NeetCode Solution"
button to LeetCode problem pages, with the properties its code promises
proved about the model. The model covers five parts:

- the background worker's `CHECK_NEETCODE` handler: the type filter, the
  slug check, the probe URL and the mapping from the probe's outcome to the
  reply, in both listener sources (`src/background.ts` and
  `src/background.js`);
- the navigation notifier (`tabs.onUpdated`, `isLeetCodeProblemPage`,
  the two independent `URL_CHANGED` triggers);
- slug extraction: JavaScript's `split("/")` modelled exactly, and piece 2 of
  the path;
- the two page scripts (`src/scripts/leetcode.ts` and `src/content.js`): the
  `#neetcode-button` presence guard, the check request, mounting one button
  or dispatching one `NO_NEETCODE_SOLUTION` event;
- the draggable button widget (`src/components/NeetCodeButton/index.ts`):
  `startDrag`, `onDrag`, `endDrag` over `isDragging`, the offsets and the
  `cursor`/`top`/`left`/`right` styles, and the click handler.

Modules: three shared ones, `Wrappers` (Option), `JsString` (`startsWith`,
`split` and its inverse `join`) and `Protocol` (message and reply types,
constants, the solution URL); then `Background`, which covers both
`src/background.ts` and `src/background.js`; and `ButtonWidget`,
`LeetCodeScript` and `ContentScript`, one per remaining source file. The
two page scripts each declare their own presence guard, as the two source
files do.

The outside world is passed in. The HEAD probe's outcome (`Completed(ok)`
or `TransportFailure(message)`), the reply a page script's callback gets,
the active-tab query's result, pointer coordinates and the button's
bounding rectangle are all parameters. What the code sends out
(`sendResponse` replies, probed URLs, `chrome.tabs.sendMessage` notices,
runtime messages, appended elements, dispatched events, `window.open`
calls) is appended to sequence fields or returned.

Where the source's comments and messages promise more than its code
does, the model follows the code:

- The comment on `handleButtonClick` (src/components/NeetCodeButton/index.ts:134)
  says the solution opens "if not dragged". But the drag test reads the
  cursor, and `endDrag` runs on `mouseup` and restores the `grab` cursor
  before `click` is handled. So a press and release, with or without a
  move, followed by a click on the button, opens the solution.
  `ButtonWidget.PressReleaseThenClickOpens` and
  `ButtonWidget.RunEndingInMouseUp` show this.
- The error at src/background.ts:20 says "Expected a non-empty string.".
  The TypeScript listener tests only truthiness, so a truthy non-string
  slug is probed with its string rendering. The JavaScript listener also
  checks `typeof`. `Background.VariantsDifferOnTruthyNonStrings` shows
  that this is the only difference.
- The comments at src/background.ts:48 and :66 say the background "sends a
  message to the content script". Neither page script registers a
  listener for `URL_CHANGED`, so nothing in the model reacts to these
  notices.
- One tab update can send two notices to the same tab: one for the prefix
  match and one for the active tab (`Background.UpdateNotices`).

## Model

| member | source | states |
|---|---|---|
| `JsString.StartsWith` | src/background.ts:105 | `startsWith` holds iff the prefix is no longer than the string and equals its leading characters |
| `JsString.Split` | src/scripts/leetcode.ts:11 | `split` on one separator never returns an empty list, and no piece contains the separator |
| `JsString.SplitJoin` | src/scripts/leetcode.ts:11 | joining the pieces of a split with the separator gives back the original string |
| `JsString.JoinSplit` | src/scripts/leetcode.ts:11 | splitting a join of separator-free pieces gives back the pieces, so split is a bijection onto non-empty separator-free piece lists |
| `JsString.ThirdPiece` | src/content.js:75 | piece 2 of `a/b/s` followed by nothing or by "/..." is exactly `s`, when `a`, `b` and `s` contain no "/" |
| `JsString.ThirdPieceContext` | src/content.js:75 | conversely, a string with three or more pieces is `a/b/` + piece 2 + a tail that is empty or starts with "/" |
| `Protocol.Truthy` | src/background.ts:19 | JavaScript truthiness of a slug: a string is truthy exactly when it is non-empty, and `undefined` never is |
| `Protocol.Render` | src/background.ts:24 | what a template literal makes of the slug: a string renders as itself, `undefined` as "undefined" |
| `Protocol.CheckRequest` | src/scripts/leetcode.ts:22 | the request `{ type: "CHECK_NEETCODE", slug }` carries the check type and the slug it was given |
| `Protocol.SolutionUrl` | src/background.ts:24 | the solution URL is the fixed base followed by the slug, and the slug can be read back from it |
| `Protocol.SolutionUrlInjective` | src/components/NeetCodeButton/index.ts:142 | different slugs give different solution URLs |
| `Background.ProbeReply` | src/background.ts:27-35 | the reply says a solution exists iff the probe completed with `ok`; it has an `error` iff the fetch failed in transport, and then that error is the failure's message |
| `Background.SlugAccepted` | src/background.js:20 | neither listener accepts a falsy slug; the JS listener accepts exactly the non-empty strings, while the TS one tests truthiness only (src/background.ts:19) |
| `Background.HandleMessage` | src/background.ts:8-44 | a check request gets exactly one reply and the listener returns true; any other message gets none and returns false (or undefined in the JS variant); a probe is issued iff the slug is accepted, at base + slug; a rejected slug gets `{exists:false, error:"Invalid problem slug provided. Expected a non-empty string."}`; `exists` is true only after an ok probe |
| `Background.BackgroundWorker.SendResponse` | src/background.ts:29 | one `sendResponse` call appends exactly that reply and changes no other outbox |
| `Background.BackgroundWorker.OnMessage` | src/background.js:10-44 | the listener appends exactly the probe and the reply `HandleMessage` decides, one reply per check request, and returns what it decides; tab notices are unchanged |
| `Background.VariantsAgreeOnStringSlugs` | src/background.js:20-22 | for a string slug both listener sources probe the same URL and send the same reply |
| `Background.VariantsDifferOnTruthyNonStrings` | src/background.js:20 | whatever the JS listener accepts the TS listener accepts, and they disagree exactly on truthy non-string slugs |
| `Background.IsLeetCodeProblemPage` | src/background.ts:104-106 | a URL is a problem page iff it is `https://leetcode.com/problems/` followed by anything |
| `Background.NavigationNotice` | src/background.ts:70-79 | one `URL_CHANGED` notice to the tab, carrying the URL, iff the URL is a problem page; none otherwise |
| `Background.IsFirstActiveTab` | src/background.ts:89 | only a tab the active-tab query returned can qualify, and an empty result qualifies none |
| `Background.FirstActiveTabUnique` | src/background.js:90 | one query result qualifies at most one tab id |
| `Background.ActiveTabNotice` | src/background.ts:86-97 | one `URL_CHANGED` notice iff the query found a tab and the first one's id is the updated tab's, whatever the URL |
| `Background.UpdateNotices` | src/background.ts:53-63 | at most two notices; none when `changeInfo.url` is absent or empty; otherwise one per trigger that fires; every notice goes to the updated tab with the new URL |
| `Background.BackgroundWorker.HandleLeetCodePageNavigation` | src/background.js:71-80 | appends exactly `NavigationNotice` and leaves replies and probes alone |
| `Background.BackgroundWorker.HandleActiveTabUrlChange` | src/background.js:87-98 | appends exactly `ActiveTabNotice` for the query result and leaves replies and probes alone |
| `Background.BackgroundWorker.OnUpdated` | src/background.js:54-64 | appends exactly `UpdateNotices`, so at most two notices per tab update |
| `ButtonWidget.InitialTracksDrag` | src/components/NeetCodeButton/index.ts:104-106 | a new button is not dragging and shows the `grab` cursor |
| `ButtonWidget.DragStarted` | src/components/NeetCodeButton/index.ts:108-113 | after `startDrag` the button is dragging with cursor `grabbing`, the offset plus the rectangle's origin is the pointer, and the position is unchanged |
| `ButtonWidget.Dragged` | src/components/NeetCodeButton/index.ts:115-121 | `onDrag` while idle changes nothing; while dragging it sets top and left to the pointer minus the offset and right to auto, and keeps the drag flag, cursor and offset |
| `ButtonWidget.DragEnded` | src/components/NeetCodeButton/index.ts:123-126 | after `endDrag` the button is idle with cursor `grab`, at the same position |
| `ButtonWidget.HandleButtonClick` | src/components/NeetCodeButton/index.ts:139-147 | a click opens base + slug in `_blank` iff the target's cursor is not `grabbing`; otherwise it only prevents the default |
| `ButtonWidget.Step` | src/components/NeetCodeButton/index.ts:128-130 | one event through its listener: a mousedown starts a drag, a mouseup ends it, a move keeps the flag; only a move while dragging repositions the button |
| `ButtonWidget.Run` | src/components/NeetCodeButton/index.ts:128-130 | a sequence of events through the listeners; any number of moves while idle leaves the state exactly as it was |
| `ButtonWidget.RunKeepsCursorTracksDrag` | src/components/NeetCodeButton/index.ts:128-130 | any sequence of mousedown, mousemove and mouseup events keeps the cursor at `grabbing` while dragging and `grab` otherwise |
| `ButtonWidget.RunEndingInMouseUp` | src/components/NeetCodeButton/index.ts:130 | after any event sequence that ends in mouseup the button is idle and a click on it opens the solution |
| `ButtonWidget.MoveToPressPointKeepsOrigin` | src/components/NeetCodeButton/index.ts:111-119 | moving the pointer back to where the drag started puts the button at its rectangle's origin, anchored left |
| `ButtonWidget.DragEndedIdempotent` | src/components/NeetCodeButton/index.ts:123-126 | ending a drag twice is the same as ending it once |
| `ButtonWidget.ClickOnButtonOpensIffIdle` | src/components/NeetCodeButton/index.ts:140-146 | a click whose target is the button itself opens the solution iff no drag is in progress |
| `ButtonWidget.PressReleaseThenClickOpens` | src/components/NeetCodeButton/index.ts:128-146 | mousedown then mouseup without a move, then a click on the button, opens the solution |
| `ButtonWidget.NeetCodeButton.constructor` | src/components/NeetCodeButton/index.ts:7-46 | a new button has the reserved id, the label text, the slug, and the initial state: idle, zero offsets, `grab`, top 10px, right 10px |
| `ButtonWidget.NeetCodeButton.StartDrag` | src/components/NeetCodeButton/index.ts:108-113 | the fields become `DragStarted` of the old fields |
| `ButtonWidget.NeetCodeButton.OnDrag` | src/components/NeetCodeButton/index.ts:115-121 | the fields become `Dragged` of the old fields |
| `ButtonWidget.NeetCodeButton.EndDrag` | src/components/NeetCodeButton/index.ts:123-126 | the fields become `DragEnded` of the old fields |
| `ButtonWidget.NeetCodeButton.Click` | src/components/NeetCodeButton/index.ts:43 | the click listener opens this button's solution URL in `_blank` iff the target's cursor is not `grabbing` |
| `LeetCodeScript.ExtractSlugFromPath` | src/scripts/leetcode.ts:10-13 | an extracted slug is non-empty and contains no "/" |
| `LeetCodeScript.ExtractSlugOfProblemPath` | src/scripts/leetcode.ts:10-13 | a path `a/b/slug` followed by nothing or "/..." yields that slug |
| `LeetCodeScript.ExtractedSlugContext` | src/scripts/leetcode.ts:10-13 | conversely, an extracted slug is the text between the second and third "/" of the path |
| `LeetCodeScript.TwoSumSlug` | tests/unit/content.test.js:83-86 | `/problems/two-sum/` yields `two-sum` |
| `LeetCodeScript.EmptySlugIsNull` | src/scripts/leetcode.ts:12 | `/problems/` has an empty piece 2 and yields null |
| `LeetCodeScript.MissingSlugIsNull` | src/scripts/leetcode.ts:12 | `/problems` has no piece 2 and yields null |
| `LeetCodeScript.ExtractedSlugAccepted` | src/scripts/leetcode.ts:49-54 | every slug the script sends passes both background listeners' slug check |
| `LeetCodeScript.LeetCodePage.HasButton` | src/scripts/leetcode.ts:48 | `querySelector("#neetcode-button")` finds an element only if the script has appended one |
| `LeetCodeScript.LeetCodePage.HasButtonIffNonEmpty` | src/scripts/leetcode.ts:48 | when every appended element is a solution button, the guard finds one iff one was appended |
| `LeetCodeScript.LeetCodePage.DispatchNoSolutionEvent` | src/scripts/leetcode.ts:39-42 | exactly one `NO_NEETCODE_SOLUTION` event whose detail is the slug; nothing else changes |
| `LeetCodeScript.LeetCodePage.AppendButtonIfSolutionExists` | src/scripts/leetcode.ts:20-32 | one check request for the slug; then exactly one of: a fresh button for the same slug in its initial state appended (reply present with `exists`), or one no-solution event carrying the slug |
| `LeetCodeScript.LeetCodePage.Init` | src/scripts/leetcode.ts:47-56 | with a button present, or no slug in the path, nothing is sent or changed; otherwise one request for the extracted slug and one button or one event; the page never gets a second button |
| `LeetCodeScript.LoadProblemPage` | src/scripts/leetcode.ts:44-67 | loading `/problems/<slug>/` against either background listener sends one request; an ok probe gives exactly one button whose click opens the slug's solution, any other outcome gives no button and one event carrying the slug |
| `ContentScript.PathSegment2` | src/content.js:75 | piece 2 of the path is a string without "/", or undefined |
| `ContentScript.TwoSumSegment` | tests/unit/content.test.js:83-86 | `/problems/two-sum/` gives `two-sum` |
| `ContentScript.EmptySegment` | src/content.js:75 | `/problems/` gives the empty string, which is still sent |
| `ContentScript.MissingSegment` | src/content.js:75 | `/problems` gives undefined, which is still sent |
| `ContentScript.UnusableSegmentRejected` | src/content.js:72-77 | the unchecked undefined or empty slug is rejected by either background listener with the validation error |
| `ContentScript.PlainButton.constructor` | src/content.js:6-9 | the button has id `neetcode-button`, the label `🚀 View NeetCode Solution` and the slug |
| `ContentScript.PlainButton.Click` | src/content.js:43-46 | every click opens base + slug in `_blank`, with no drag check; an undefined slug renders as "undefined" |
| `ContentScript.ContentPage.HasButton` | src/content.js:73 | `querySelector("#neetcode-button")` finds an element only if the script has appended one |
| `ContentScript.ContentPage.HasButtonIffNonEmpty` | src/content.js:73 | when every appended element is a solution button, the guard finds one iff one was appended |
| `ContentScript.ContentPage.AppendButtonIfSolutionExists` | src/content.js:55-66 | one check request for the slug; one fresh button with the rocket label and that slug appended iff the reply is present with `exists`; otherwise the body is unchanged |
| `ContentScript.ContentPage.Init` | src/content.js:72-78 | with a button present nothing happens; otherwise a request goes out for piece 2 unchecked and at most one button is appended; the page never gets a second button |
| `ContentScript.LoadPage` | src/content.js:55-81 | against either background listener, a page gets a button iff piece 2 of its path is a non-empty string and the probe is ok, and that button opens the slug's solution |
| `ContentScript.TwoSumUrl` | tests/unit/content.test.js:88-92 | the solution URL of `two-sum` is `https://neetcode.io/solutions/two-sum` |
| `ContentScript.TwoSumPage` | tests/e2e/e2e.test.js:15-39 | the two-sum page with an ok probe shows the rocket-labelled button, and its click opens `https://neetcode.io/solutions/two-sum` in `_blank` |

## Left out

- Asynchrony and concurrency: the `fetch` promise, the `sendMessage` callback and the `tabs.query` callback are applied at once with their outcome as a parameter. Overlapping in-flight check requests and their ordering are not modelled.
- The browser APIs (`chrome.runtime`, `chrome.tabs`, `fetch`, `window.open`, `document`) are not modelled beyond the values the code passes to them and receives from them.
- Console logging, the `console.warn` of `src/content.js` and the logging listener for `NO_NEETCODE_SOLUTION` are left out. They are diagnostics only.
- The `try`/`catch` blocks around the listeners are modelled only for the slug-validation throw. A message is assumed to be an object: a null or undefined message would throw at `message.type` (src/background.ts:12, src/background.js:13) and be answered by the catch with `exists:false` and the runtime's error message, a reply to a message that is not a check request.
- Hover effects, CSS text, the logo image and `chrome.runtime.getURL` are left out. They have no functional contract.
- Coordinates are whole pixels rather than floating-point numbers. A `${n}px` style value is `Px(n)`.
- `getBoundingClientRect` is a parameter, and so is the click target's cursor. Which element the browser reports as the target, and the order in which browsers fire `mouseup` and `click`, are not modelled.
- A non-string message slug is given only by its truthiness and by its template-literal rendering.
- Only the elements the scripts append are modelled as the page body. `window.location.pathname` is fixed per page because no code in the core changes it.
- Re-initialisation of a page script on `URL_CHANGED`: no page script in the source handles that message.
- A context-menu action opening the solution directly is not part of this model; it does not appear in the modelled sources.
- Build tooling (`watch.js`) and the test scaffolding are left out. The unit and end-to-end tests serve only as the source of the example lemmas.
