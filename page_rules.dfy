/** Page-level rules of webroot/js/contrail-layout.js: the session-expiry
    redirect, the headers added to every request, the header/back-to-top
    scroll rule, `getScript` and the `$.browser` flags. */
module PageRules {
  import opened Wrappers
  import opened Strings
  import opened JsonValue

  // ---------------------------------------------------------------------
  // Session-expiry redirect (ajaxComplete hook)
  // ---------------------------------------------------------------------

  /** Where the page goes when a response arrives: nowhere without an
      `X-Redirect-Url` header; to the header's URL with the current
      fragment appended when the header has no fragment of its own; to the
      header's URL verbatim otherwise. */
  function RedirectTarget(redirectHeader: Option<string>, urlHash: string): (target: Option<string>)
    ensures redirectHeader.None? <==> target.None?
    ensures redirectHeader.Some? && '#' !in redirectHeader.value ==> target == Some(redirectHeader.value + urlHash)
    ensures redirectHeader.Some? && '#' in redirectHeader.value ==> target == redirectHeader
  {
    match redirectHeader
    case None => None
    case Some(h) => if IndexOfChar(h, '#') == -1 then Some(h + urlHash) else Some(h)
  }

  /** `window.location.hash`: empty, or `#` followed by the fragment. */
  predicate IsLocationHash(urlHash: string) {
    urlHash == "" || urlHash[0] == '#'
  }

  /** After a redirect the user lands on the fragment they were on: the
      target's fragment, from its first `#`, is the current one when the
      header had none. */
  lemma RedirectCarriesFragment(h: string, urlHash: string)
    requires '#' !in h && IsLocationHash(urlHash) && urlHash != ""
    ensures RedirectTarget(Some(h), urlHash).Some?
    ensures IndexOfChar(RedirectTarget(Some(h), urlHash).value, '#') == |h|
    ensures RedirectTarget(Some(h), urlHash).value[|h|..] == urlHash
  {
    var t := h + urlHash;
    assert t[..|h|] == h && t[|h|] == '#';
    assert '#' !in t[..|h|];
  }

  /** A redirect target sent back as the header redirects to itself: the
      fragment is carried at most once. */
  lemma RedirectTargetStable(h: string, urlHash: string)
    requires IsLocationHash(urlHash)
    ensures RedirectTarget(RedirectTarget(Some(h), urlHash), urlHash) == RedirectTarget(Some(h), urlHash)
  {
    if '#' !in h && urlHash != "" {
      assert (h + urlHash)[|h|] == '#';
    }
    if urlHash == "" {
      assert h + urlHash == h;
    }
  }

  // ---------------------------------------------------------------------
  // Request headers ($.ajaxSetup beforeSend)
  // ---------------------------------------------------------------------

  /** `globalObj['webServerInfo']`, reduced to the field the hook reads. */
  datatype ServerInfo = ServerInfo(loggedInOrchestrationMode: Option<string>)

  /** The `setRequestHeader` calls `beforeSend` makes, in order: the
      orchestration mode when the server info and its mode are both known,
      then `X-Requested-With`, always, last. */
  function RequestHeaders(webServerInfo: Option<ServerInfo>): (headers: seq<(string, string)>)
    ensures 1 <= |headers| <= 2
    ensures headers[|headers| - 1] == ("X-Requested-With", "XMLHttpRequest")
    ensures |headers| == 2 <==> webServerInfo.Some? && webServerInfo.value.loggedInOrchestrationMode.Some?
    ensures |headers| == 2 ==>
      headers[0] == ("x-orchestrationmode", webServerInfo.value.loggedInOrchestrationMode.value)
  {
    var mode := if webServerInfo.Some? then webServerInfo.value.loggedInOrchestrationMode else None;
    (if mode.Some? then [("x-orchestrationmode", mode.value)] else [])
      + [("X-Requested-With", "XMLHttpRequest")]
  }

  // ---------------------------------------------------------------------
  // Scroll rule (window scroll handler)
  // ---------------------------------------------------------------------

  /** The page header is shown near the top of the page, or after a quick
      scroll up of more than 40 pixels from the remembered offset. */
  predicate ShowHeader(previousScroll: int, currentScroll: int) {
    currentScroll < 50 || previousScroll - currentScroll > 40
  }

  /** The header is shown exactly below one threshold: 50, or 40 above the
      remembered offset when that is higher. */
  lemma ShowHeaderThreshold(previousScroll: int, currentScroll: int)
    ensures ShowHeader(previousScroll, currentScroll) <==>
      currentScroll < (if previousScroll - 40 > 50 then previousScroll - 40 else 50)
  {
  }

  /** Scrolling further up never hides a header that would be shown. */
  lemma ShowHeaderMonotone(previousScroll: int, currentScroll: int, higher: int)
    requires ShowHeader(previousScroll, currentScroll) && higher <= currentScroll
    ensures ShowHeader(previousScroll, higher)
  {
  }

  /** What the handler shows: the page header, the `scrolled` class on the
      sidebar and the breadcrumbs, and the back-to-top button. */
  datatype ScrollView = ScrollView(headerShown: bool, sidebarScrolled: bool, breadcrumbsScrolled: bool, backToTopShown: bool)

  /** The two views the handler switches between. */
  function ViewFor(headerShown: bool): (v: ScrollView)
    ensures v.headerShown == headerShown
    ensures v.sidebarScrolled == v.breadcrumbsScrolled == v.backToTopShown == !headerShown
  {
    if headerShown then ScrollView(true, false, false, false) else ScrollView(false, true, true, true)
  }

  /** The globals `previous_scroll` and `scrollHeight`, and the view they drive. */
  class ScrollTracker {
    var previousScroll: int
    var scrollHeight: int
    var view: ScrollView

    /** The values set when the script loads (lines 9-10). */
    constructor (scrollTop: int, documentHeight: int, windowHeight: int, initialView: ScrollView)
      ensures previousScroll == scrollTop && scrollHeight == documentHeight - windowHeight
      ensures view == initialView
    {
      previousScroll := scrollTop;
      scrollHeight := documentHeight - windowHeight;
      view := initialView;
    }

    /** One scroll event at offset `currentScroll`. The offset is remembered
        only while it is above the bottom of the page. */
    method OnScroll(documentHeight: int, windowHeight: int, currentScroll: int)
      modifies this
      ensures scrollHeight == documentHeight - windowHeight
      ensures view == ViewFor(ShowHeader(old(previousScroll), currentScroll))
      ensures previousScroll == if currentScroll < scrollHeight then currentScroll else old(previousScroll)
    {
      scrollHeight := documentHeight - windowHeight;
      if currentScroll < 50 || previousScroll - currentScroll > 40 {
        view := ViewFor(true);
      } else {
        view := ViewFor(false);
      }
      if currentScroll < scrollHeight {
        previousScroll := currentScroll;
      }
    }
  }

  /** A page scrolled down in steps, from below the top area, keeps the
      header hidden the whole way. */
  method ScrollDownHidesHeader(tracker: ScrollTracker, documentHeight: int, windowHeight: int, offsets: seq<int>)
    requires forall i :: 0 <= i < |offsets| ==> offsets[i] >= 50
    requires forall i :: 0 < i < |offsets| ==> offsets[i - 1] <= offsets[i]
    requires |offsets| > 0 ==> tracker.previousScroll - offsets[0] <= 40
    modifies tracker
    ensures |offsets| > 0 ==> !tracker.view.headerShown
  {
    var i := 0;
    while i < |offsets|
      invariant 0 <= i <= |offsets|
      invariant i > 0 ==> !tracker.view.headerShown
      invariant i < |offsets| ==> tracker.previousScroll - offsets[i] <= 40
    {
      tracker.OnScroll(documentHeight, windowHeight, offsets[i]);
      i := i + 1;
    }
  }

  // ---------------------------------------------------------------------
  // getScript
  // ---------------------------------------------------------------------

  /** The URL a script is fetched from: cache-busted by the build stamp. */
  function ScriptPath(url: string, builtAt: string): (path: string)
    ensures |path| == |url| + 10 + |builtAt|
    ensures path[..|url|] == url && path[|url|..] == "?built_at=" + builtAt
  {
    url + "?built_at=" + builtAt
  }

  /** Under one build stamp, different scripts are fetched from different URLs. */
  lemma ScriptPathInjective(url1: string, url2: string, builtAt: string)
    requires ScriptPath(url1, builtAt) == ScriptPath(url2, builtAt)
    ensures url1 == url2
  {
    var p := ScriptPath(url1, builtAt);
    assert |url1| == |url2|;
    assert url1 == p[..|url1|] == url2;
  }

  /** The `$.ajax` request `getScript` issues. */
  datatype ScriptRequest = ScriptRequest(requestType: string, url: string, dataType: string, cache: bool)

  /** `globalObj['loadedScripts']` and the requests issued. */
  class ScriptLoader {
    var loadedScripts: seq<string>
    var requests: seq<ScriptRequest>

    constructor (initiallyLoaded: seq<string>)
      ensures loadedScripts == initiallyLoaded && requests == []
    {
      loadedScripts := initiallyLoaded;
      requests := [];
    }

    /** `getScript(url, callback)`: records `url` as loaded, whether or not
        it was already, and issues a cached GET of the stamped path. */
    method GetScript(url: string, builtAt: string) returns (request: ScriptRequest)
      modifies this
      ensures request == ScriptRequest("GET", ScriptPath(url, builtAt), "script", true)
      ensures loadedScripts == old(loadedScripts) + [url]
      ensures requests == old(requests) + [request]
    {
      var scriptPath := url + "?built_at=" + builtAt;
      loadedScripts := loadedScripts + [url];
      request := ScriptRequest("GET", scriptPath, "script", true);
      requests := requests + [request];
    }
  }

  // ---------------------------------------------------------------------
  // Browser detection
  // ---------------------------------------------------------------------

  /** A JavaScript truthiness test on the flag values this code stores. */
  predicate Truthy(v: Json) {
    match v
    case JNull => false
    case JBool(b) => b
    case JNum(n) => n != 0
    case JStr(s) => s != ""
    case _ => true
  }

  /** The browser object built from an already matched `(browser, version)`
      pair: a flag for the browser and its version when a browser was
      matched; Chrome also counts as WebKit, and WebKit without Chrome
      counts as Safari. */
  function BrowserFlags(browser: string, version: string): (flags: map<string, Json>)
    ensures browser == "" ==> flags == map[]
    ensures browser != "" ==> "version" in flags && flags["version"] == JStr(version)
    ensures browser != "" && browser != "version" ==> browser in flags && flags[browser] == JBool(true)
    ensures flags.Keys <= {browser, "version", "webkit", "safari"}
    ensures ("webkit" in flags && flags["webkit"] == JBool(true)) <==> browser == "chrome" || browser == "webkit"
    ensures "safari" in flags <==> browser == "webkit" || browser == "safari"
    ensures browser == "chrome" ==> "safari" !in flags
  {
    var matched: map<string, Json> := if browser != "" then map[browser := JBool(true)]["version" := JStr(version)] else map[];
    if "chrome" in matched && Truthy(matched["chrome"]) then matched["webkit" := JBool(true)]
    else if "webkit" in matched && Truthy(matched["webkit"]) then matched["safari" := JBool(true)]
    else matched
  }

  /** `addBrowserDetection`: `$.browser` is filled in only when it is unset. */
  function AddBrowserDetection(existing: Option<map<string, Json>>, browser: string, version: string): (r: Option<map<string, Json>>)
    ensures r.Some?
    ensures existing.Some? ==> r == existing
    ensures existing.None? ==> r == Some(BrowserFlags(browser, version))
  {
    if existing.Some? then existing else Some(BrowserFlags(browser, version))
  }

  /** Running the detection again, with any user agent, changes nothing. */
  lemma AddBrowserDetectionIdempotent(existing: Option<map<string, Json>>, b1: string, v1: string, b2: string, v2: string)
    ensures AddBrowserDetection(AddBrowserDetection(existing, b1, v1), b2, v2) == AddBrowserDetection(existing, b1, v1)
  {
  }
}
