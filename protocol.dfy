/**
 * Vocabulary shared by the background worker and the page scripts: the
 * message types, the reply to a check request, the solution URL convention
 * and the reserved element id.
 */
module Protocol {
  import opened Wrappers

  /** Base of every solution URL; the problem slug is appended as is. */
  const SolutionBase: string := "https://neetcode.io/solutions/"
  /** Type tag of the check request a page script sends to the background worker. */
  const CheckType: string := "CHECK_NEETCODE"
  /** Type tag of the navigation notice the background worker sends to a tab. */
  const UrlChangedType: string := "URL_CHANGED"
  /** Message of the error thrown for a rejected slug. */
  const InvalidSlugError: string := "Invalid problem slug provided. Expected a non-empty string."
  /** The reserved id of the injected button; its presence is the duplicate guard. */
  const ButtonId: string := "neetcode-button"
  /** Window name passed to `window.open`: a new browsing context. */
  const NewTab: string := "_blank"

  /**
   * The JavaScript value found in a message's `slug` field: absent
   * (`undefined`), a string, or any other value, given by its truthiness
   * and by the text a template literal renders it as.
   */
  datatype SlugValue =
    | Undefined
    | Str(s: string)
    | Other(truthy: bool, text: string)

  /** JavaScript truthiness of a slug value: `undefined` and `""` are falsy. */
  predicate Truthy(v: SlugValue)
    // a string is truthy exactly when it is non-empty; `undefined` never is
    ensures v.Str? ==> (Truthy(v) <==> |v.s| > 0)
    ensures v.Undefined? ==> !Truthy(v)
  {
    match v
    case Undefined => false
    case Str(s) => s != ""
    case Other(truthy, _) => truthy
  }

  /** What `${v}` renders the value as inside a template literal. */
  function Render(v: SlugValue): (text: string)
    // a string renders as itself, `undefined` as the word "undefined"
    ensures v.Str? ==> text == v.s
    ensures v.Undefined? ==> text == "undefined"
  {
    match v
    case Undefined => "undefined"
    case Str(s) => s
    case Other(_, text) => text
  }

  /** A runtime message `{ type, slug }` as the background listener receives it. */
  datatype Message = Message(kind: string, slug: SlugValue)

  /** The check request a page script sends for a slug. */
  function CheckRequest(slug: SlugValue): (m: Message)
    ensures m.kind == CheckType && m.slug == slug
  {
    Message(CheckType, slug)
  }

  /**
   * The reply `{ exists, error? }` to a check request; `found` is the
   * `exists` field (a reserved word in Dafny).
   */
  datatype Reply = Reply(found: bool, error: Option<string>)

  /** A `{ type: "URL_CHANGED", url }` notice addressed to a tab. */
  datatype TabMessage = TabMessage(tabId: int, kind: string, url: string)

  /** A call `window.open(url, target)`. */
  datatype WindowOpen = WindowOpen(url: string, target: string)

  /** The solution page of a problem: the fixed base followed by the slug. */
  function SolutionUrl(slug: string): (url: string)
    ensures |url| == |SolutionBase| + |slug|
    ensures url[..|SolutionBase|] == SolutionBase && url[|SolutionBase|..] == slug
  {
    SolutionBase + slug
  }

  /** Distinct slugs lead to distinct solution pages. */
  lemma SolutionUrlInjective(a: string, b: string)
    ensures SolutionUrl(a) == SolutionUrl(b) ==> a == b
  {
    if SolutionUrl(a) == SolutionUrl(b) {
      assert a == SolutionUrl(a)[|SolutionBase|..];
    }
  }
}
