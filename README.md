# Contrail web UI layout glue and donut chart adapter, in Dafny

This project models the page-level logic of the Contrail web UI
(`webroot/js/contrail-layout.js`) and its donut chart adapter
(`webroot/js/models/DonutChartModel.js`), and proves properties of the model.
The external page loader `layoutHandler`, the DOM and the nvd3 chart library
are treated as collaborators whose calls are recorded, not executed.

The model covers these parts:

- **Navigation coordinator** (`navigation.dfy`, class `Navigation.Navigator`).
  - It holds `lastHash`, the implicit `currHash`, the URL state, the one-shot `globalObj.hashUpdated` flag and `globalObj.menuClicked`.
  - It keeps a log of every `layoutHandler.onHashChange(prev, next[, deferred])` call.
  - It models the `hashchange` handler, `loadFeature` and `searchSiteMap`, plus the helpers `getMenuButtonName` and `check2ReloadMenu`.
  - Navigation states are JSON values whose objects keep their key order, because `loadFeature` compares states by `JSON.stringify` text.
- **Abort-on-navigate pool** `$.allajax` (`request_pool.dfy`, class `RequestPool.Pool`).
  - Requests are registered unless their `abortOnNavigate` option is loosely equal to `false` or `"false"`. That uses JavaScript's loose equality, built in `js_coerce.dfy`.
  - A completion removes the first occurrence of the request.
  - `abort()` walks over a snapshot of the pool.
- **`Object.identical`** (`identical.dfy`, module `StructuralEquality`).
  - The value is canonicalised recursively: keys are sorted as strings and each member becomes `{key, value}` (`json.dfy` models `JSON.stringify`).
  - Arrays go through `Object.keys` too, so their indices sort as strings ("10" before "2").
- **Page rules**.
  - `page_rules.dfy`: the session-expiry redirect, the headers `beforeSend` adds, the scroll rule for the page header and back-to-top button, `getScript`, and the `$.browser` flags.
  - `widgets.dfy`: `openWidget`/`collapseWidget`, the sidebar toggle and its cookie, and `toggleWidgetsVisibility`.
  - `info_window.dfy`: `showInfoWindow`'s body, footer and detail toggle.
- **Donut chart** (`donut_chart.dfy`): the legend-state getter and setter, the partial margin setter, the one-time `defaultState` snapshot, the right/top legend layout, the mouseover tooltip series, and the factory's configuration.

`strings.dfy` holds the JavaScript string operations used throughout: `trim` with ECMAScript's white-space set, `split(..)[0]`, `indexOf`, code-unit string order and decimal number text. `wrappers.dfy` holds `Option`.

Four behaviours of the code are worth stating on their own:

- **`(a, a)` is delegated.** The hashchange handler has no equality check, so a change from `a` to `a` reaches the loader (`Navigation.HashChangeToSameState`).
- **The flag is not tied to a target.** The `hashUpdated` flag that `loadFeature` raises swallows the next hashchange event, whatever state that event carries (`Navigation.FlagSwallowsNextChange`).
- **A missing `margin` throws.** The factory passes `chartOptions.margin` to the margin setter. That setter reads `_.top`, so it throws a TypeError when the margin is undefined, and `DonutChart.NewDonutChartModel` returns `None` for it.
- **`Object.identical` conflates arrays and objects.** An empty object is identical to an empty array, and `{"0": x}` to `[x]` (`StructuralEquality.ArraysAndObjectsConflated`).

Inputs replace the environment:

- The URL state, the redirect header and the container size are parameters.
- The matched user-agent pair, the build stamp `built_at`, nvd3's default legend width and the legend's rendered height are parameters.
- The pie, legend and state objects nvd3 creates are parameters.

## Model

| member | source | states |
|---|---|---|
| Navigation.Navigator.constructor | webroot/js/contrail-layout.js:116 | at page load `lastHash` is the URL state, no call has been made and `currHash` is unset |
| Navigation.Navigator.SetUrlHash | webroot/js/contrail-layout.js:118-119 | a user or history change of the fragment changes only the URL state the next event reads |
| Navigation.Navigator.OnHashChange | webroot/js/contrail-layout.js:118-132 | with the flag at 1: the flag becomes 0, `lastHash` becomes the current state and no loader call is made; otherwise exactly one call `(old lastHash, current state)` is made, even for equal states, and `lastHash` moves on; `currHash` is the current state either way |
| Navigation.Navigator.LoadFeature | webroot/js/contrail-layout.js:523-536 | sets `menuClicked`; raises the flag exactly when the JSON texts of the URL state and `hashParams` differ and leaves it unchanged otherwise; puts `hashParams` in the URL; makes exactly one call `(lastHash, hashParams, new deferred)` and returns that deferred; leaves `lastHash` alone |
| Navigation.Navigator.SearchSiteMap | webroot/js/contrail-layout.js:212-225 | always returns false; when some entry's search strings contain the trimmed input, the first such entry in iteration order yields one call `(URL state, {p: hash, q: queryParams})` and that state becomes `lastHash` and `currHash`; with no match nothing changes |
| Navigation.FirstMatch | webroot/js/contrail-layout.js:214-215 | the first site-map entry whose search strings contain the text, or none when no entry does |
| Navigation.SiteState | webroot/js/contrail-layout.js:218 | the state a site-map hit navigates to is an object with keys `p` then `q` |
| Navigation.LoadFeatureThenHashChange | webroot/js/contrail-layout.js:118-132 | a `loadFeature` that changes the URL, followed by the hashchange it causes, reaches the loader exactly once; afterwards the flag is 0 and `lastHash` is the loaded state |
| Navigation.HashChangeToSameState | webroot/js/contrail-layout.js:128-131 | a hashchange to the state the loader last saw is still delegated as `(a, a)` |
| Navigation.FlagSwallowsNextChange | webroot/js/contrail-layout.js:123-127 | the raised flag swallows the next event even when the URL has moved on to another state, which the loader then never sees |
| Navigation.LoadFeatureTwice | webroot/js/contrail-layout.js:524-535 | two consecutive `loadFeature` calls hand the loader two distinct deferreds, one per call |
| Navigation.ReorderedStateSerializesDifferently | webroot/js/contrail-layout.js:527 | the same two members in the other order have different JSON text, so `loadFeature` raises the flag for a mere reordering |
| Navigation.ReorderedStateIdentical | webroot/js/contrail-layout.js:167-185 | those two reordered states are nevertheless `Object.identical` |
| Navigation.SerializedFirstKey | webroot/js/contrail-layout.js:527 | the JSON text of a non-empty object starts with `{"` and the first key's first character |
| Navigation.MenuButtonName | webroot/js/contrail-layout.js:463-475 | "configure", "query" and "setting" come exactly from "config", "query" and "setting"; every other hash, "mon" included, gives "monitor" |
| Navigation.ReloadMenu | webroot/js/contrail-layout.js:477-484 | a missing or empty previous page hash always reloads the menu |
| Navigation.ReloadMenuKeepsSameSection | webroot/js/contrail-layout.js:479-481 | for a menu name without `_` and a non-empty previous hash, the menu is kept exactly when the hash is the menu name or starts with the name and `_` |
| Navigation.FirstFieldWhole | webroot/js/contrail-layout.js:480 | a hash without `_` is its own first `_`-separated field |
| Navigation.FirstFieldOfPrefix | webroot/js/contrail-layout.js:480 | a hash that starts with a field free of `_` and then `_` has that field first |
| RequestPool.Pool.constructor | webroot/js/contrail-layout.js:143 | the pool starts empty |
| RequestPool.Pool.Send | webroot/js/contrail-layout.js:145-149 | the request is appended exactly when its `abortOnNavigate` option is not loosely equal to `false` or `"false"`; otherwise the pool is unchanged |
| RequestPool.Pool.Complete | webroot/js/contrail-layout.js:150-155 | the pool becomes the old pool with the first occurrence of the request removed |
| RequestPool.Pool.Abort | webroot/js/contrail-layout.js:156-162 | every pooled request is aborted once, in pool order, and the pool itself is not changed |
| RequestPool.IndexOf | webroot/js/contrail-layout.js:151 | -1 exactly when the request is absent, else the position of its first occurrence |
| RequestPool.RemoveFirst | webroot/js/contrail-layout.js:151-154 | an absent request leaves the pool unchanged; a present one shortens it by one and removes exactly one occurrence from its multiset |
| RequestPool.RemoveFirstKeepsOrder | webroot/js/contrail-layout.js:151-154 | the requests before the removed one keep their places and those after it move up by one |
| RequestPool.CompleteAll | webroot/js/contrail-layout.js:150-155 | the pool after the completion hook has run for each of a list of requests in turn, each removing its first occurrence |
| RequestPool.CompleteAllRemoves | webroot/js/contrail-layout.js:150-155 | completions in any order remove exactly the completed requests, one occurrence each |
| RequestPool.CompletingEveryAbortedEmptiesPool | webroot/js/contrail-layout.js:150-162 | once every aborted request has reported completion, in any order, the pool is empty |
| RequestPool.AbortAndDrain | webroot/js/contrail-layout.js:150-162 | `abort()` followed by each aborted request's completion, in the order aborted, reports the old pool as aborted and leaves the pool empty |
| RequestPool.MultisetDifferenceTwice | webroot/js/contrail-layout.js:150-155 | removing two batches of completed requests one after the other is removing both at once |
| JsCoerce.LooselyEqualsFalse | webroot/js/contrail-layout.js:146 | `v == false`: undefined and null never; a boolean exactly when false; a number exactly when 0; a string, an array or an object exactly when its string form converts to the number 0, which for a decimal text means its value is at most 2^-1075 and so rounds to zero |
| JsCoerce.LooselyEqualsFalseText | webroot/js/contrail-layout.js:146 | `v == "false"`: undefined, null, booleans and numbers never; a string, an array or an object exactly when its string form is `false` |
| JsCoerce.AbortsOnNavigate | webroot/js/contrail-layout.js:146 | the option is neither loosely equal to `false` nor loosely equal to `"false"` |
| JsCoerce.KeptInPool | webroot/js/contrail-layout.js:146 | an absent option, `true`, `null` and `"true"` keep a request in the pool |
| JsCoerce.FalseOptsOut | webroot/js/contrail-layout.js:146 | `false` and `"false"` opt a request out |
| JsCoerce.LooseZerosOptOut | webroot/js/contrail-layout.js:146 | `0`, `""`, `"0"` and `[]` opt out too, since they are loosely equal to `false` |
| JsCoerce.DigitExponentUnderflow | webroot/js/contrail-layout.js:146 | a text of one non-zero digit, `e` and an exponent converts to zero when the exponent is -400 or below and to a positive number when it is -300 or above, since 9 * 10^-400 <= 2^-1075 < 10^-300 |
| JsCoerce.UnderflowingTextOptsOut | webroot/js/contrail-layout.js:146 | such an `abortOnNavigate` text with an exponent of -400 or below (`"1e-400"`) loosely equals `false` and keeps the request out of the pool; with an exponent of -300 or above (`"1e-300"`) the request is pooled |
| JsCoerce.BooleanOption | webroot/js/contrail-layout.js:146 | a boolean option keeps the request exactly when it is true |
| JsCoerce.ExponentStart | webroot/js/contrail-layout.js:146 | the exponent marker in the text `Number()` parses is the first `e`/`E`, or none |
| StructuralEquality.Canon | webroot/js/contrail-layout.js:168-182 | an object or array becomes an array with one entry per key; numbers, strings, booleans and null are unchanged |
| StructuralEquality.CanonObjectEntry | webroot/js/contrail-layout.js:176-181 | entry `n` of an object's canonical form is the `{key, value}` record of the `n`-th key in string order |
| StructuralEquality.CanonArrayEntry | webroot/js/contrail-layout.js:176-181 | entry `n` of an array's canonical form is the record of the `n`-th index in string order |
| StructuralEquality.Identical | webroot/js/contrail-layout.js:167-185 | the JSON texts of the two canonical forms are equal |
| StructuralEquality.SameUpToKeyOrder | webroot/js/contrail-layout.js:167-185 | the two values are the same except that objects, each with distinct keys, may list the same members in different orders, at any depth |
| StructuralEquality.KeyOrderIrrelevant | webroot/js/contrail-layout.js:167-185 | two objects with the same members in different orders compare identical |
| StructuralEquality.IdenticalReflexive | webroot/js/contrail-layout.js:167-185 | every value is identical to itself |
| StructuralEquality.IdenticalSymmetric | webroot/js/contrail-layout.js:167-185 | the comparison does not depend on argument order |
| StructuralEquality.ArraysAndObjectsConflated | webroot/js/contrail-layout.js:172-176 | `{}` is identical to `[]` and `{"0": x}` to `[x]`, because arrays also go through `Object.keys` |
| StructuralEquality.SameUpToKeyOrderCanon | webroot/js/contrail-layout.js:168-182 | values equal up to key order at every depth have the same canonical form |
| StructuralEquality.SameUpToKeyOrderIdentical | webroot/js/contrail-layout.js:167-185 | values equal up to key order at every depth compare identical |
| StructuralEquality.SameUpToKeyOrderReflexive | webroot/js/contrail-layout.js:168-182 | a value with distinct keys everywhere is equal to itself up to key order |
| StructuralEquality.ArrayCanonPointwise | webroot/js/contrail-layout.js:176-180 | arrays whose elements have equal canonical forms have equal canonical forms |
| StructuralEquality.ObjectCanonPointwise | webroot/js/contrail-layout.js:176-180 | objects with the same key set whose values under each key have equal canonical forms have equal canonical forms |
| StructuralEquality.SortBy | webroot/js/contrail-layout.js:176 | `sort()` of the keys gives them in ascending string order, a permutation of the input |
| StructuralEquality.Insert | webroot/js/contrail-layout.js:176 | inserting into a sorted list keeps it sorted and adds exactly that element |
| StructuralEquality.SortedUnique | webroot/js/contrail-layout.js:176 | two sorted permutations of the same distinct keys are equal, so the sorted key list does not depend on insertion order |
| StructuralEquality.SortedHeadsEqual | webroot/js/contrail-layout.js:176 | two sorted permutations of distinct keys start with the same key |
| StructuralEquality.MultisetTails | webroot/js/contrail-layout.js:176 | permutations with equal first elements have permuted tails |
| StructuralEquality.FirstOfSortedIsLeast | webroot/js/contrail-layout.js:176 | the first key of a sorted list is at most every other key |
| StructuralEquality.DistinctCounts | webroot/js/contrail-layout.js:176 | keys of an object occur once in its key multiset |
| StructuralEquality.DistinctSameMembers | webroot/js/contrail-layout.js:176 | two key lists without repeats and with the same members are permutations of each other |
| StructuralEquality.Range | webroot/js/contrail-layout.js:176 | `Object.keys` of an array lists the indices 0 to n-1 in order |
| Strings.StrLessIrreflexive | webroot/js/contrail-layout.js:176 | no string sorts before itself |
| Strings.StrLessAsymmetric | webroot/js/contrail-layout.js:176 | two strings never sort before each other |
| Strings.StrLessTransitive | webroot/js/contrail-layout.js:176 | the string order used by `sort()` is transitive |
| Strings.StrLessTotal | webroot/js/contrail-layout.js:176 | any two different strings are ordered one way or the other |
| Strings.StrLeqTransitive | webroot/js/contrail-layout.js:176 | the non-strict string order is transitive |
| Strings.StrLeqAntisymmetric | webroot/js/contrail-layout.js:176 | strings ordered both ways are equal |
| Strings.NatToString | webroot/js/contrail-layout.js:176 | an index's key text is a non-empty run of digits with no leading zero |
| Strings.Trim | webroot/js/contrail-layout.js:215 | `trim()` leaves no white space at either end |
| Strings.TrimStart | webroot/js/contrail-layout.js:215 | the leading white space removed, and only that |
| Strings.TrimEnd | webroot/js/contrail-layout.js:215 | the trailing white space removed, and only that |
| Strings.TrimOfTrimmed | webroot/js/contrail-layout.js:215 | text without white space at its ends is its own trim |
| Strings.TrimIdempotent | webroot/js/contrail-layout.js:215 | trimming twice is trimming once |
| Strings.FirstField | webroot/js/contrail-layout.js:480 | `split(sep)[0]` is the prefix up to, not including, the first separator |
| Strings.IndexOfChar | webroot/js/contrail-layout.js:89 | -1 exactly when the character is absent, else its first position |
| Strings.JoinStartsWithFirst | webroot/js/contrail-layout.js:184 | the joined text of the members starts with the first member's text |
| JsonValue.KeysOf | webroot/js/contrail-layout.js:176 | the keys of an object in member order |
| JsonValue.KeyIndex | webroot/js/contrail-layout.js:179 | `object[key]` reads the first member with that key |
| JsonValue.KeyIndexOfMember | webroot/js/contrail-layout.js:179 | with distinct keys, `object[key]` is the value stored with the key |
| JsonValue.Serialize | webroot/js/contrail-layout.js:184 | `JSON.stringify` never produces empty text |
| JsonValue.SerializeFirstChar | webroot/js/contrail-layout.js:184 | objects, arrays and strings are told apart by the first character of their JSON text |
| JsonValue.Quote | webroot/js/contrail-layout.js:184 | a string's JSON text is enclosed in double quotes |
| JsonValue.EscapeChar | webroot/js/contrail-layout.js:184 | no character escapes to text beginning with a double quote |
| PageRules.RedirectTarget | webroot/js/contrail-layout.js:84-94 | no header, no navigation; a header without `#` navigates to the header followed by the current fragment; one with `#` navigates verbatim |
| PageRules.RedirectCarriesFragment | webroot/js/contrail-layout.js:88-90 | when the header has no fragment, the target's first `#` starts exactly the current fragment |
| PageRules.RedirectTargetStable | webroot/js/contrail-layout.js:89-92 | a target sent back as the header redirects to itself, so the fragment is carried at most once |
| PageRules.RequestHeaders | webroot/js/contrail-layout.js:105-109 | `X-Requested-With: XMLHttpRequest` is always set, last; `x-orchestrationmode` is set first exactly when the server info and its mode are both present, with that mode |
| PageRules.ShowHeader | webroot/js/contrail-layout.js:60 | the header shows when the offset is below 50 or more than 40 above the remembered one |
| PageRules.ShowHeaderThreshold | webroot/js/contrail-layout.js:60 | the header shows exactly below the offset max(50, remembered offset - 40) |
| PageRules.ShowHeaderMonotone | webroot/js/contrail-layout.js:60 | scrolling higher never hides a header that would be shown |
| PageRules.ViewFor | webroot/js/contrail-layout.js:60-71 | the sidebar and breadcrumbs are marked scrolled and the back-to-top button shown exactly when the page header is hidden |
| PageRules.ScrollTracker.constructor | webroot/js/contrail-layout.js:9-10 | at load the remembered offset is the current one and the scroll height is document minus window height |
| PageRules.ScrollTracker.OnScroll | webroot/js/contrail-layout.js:56-75 | recomputes the scroll height, switches to the view the header rule gives for the remembered offset, and remembers the new offset only when it is above the bottom |
| PageRules.ScrollDownHidesHeader | webroot/js/contrail-layout.js:56-75 | a page scrolled down step by step below the top area keeps the header hidden throughout |
| PageRules.ScriptPath | webroot/js/contrail-layout.js:436 | the fetched path is the script URL followed by `?built_at=` and the build stamp |
| PageRules.ScriptPathInjective | webroot/js/contrail-layout.js:436 | under one build stamp, different scripts have different paths |
| PageRules.ScriptLoader.constructor | webroot/js/contrail-layout.js:437 | the loaded-script list starts as given and no request is issued |
| PageRules.ScriptLoader.GetScript | webroot/js/contrail-layout.js:435-445 | appends the URL to `loadedScripts`, even when already there, and issues one cached GET of the stamped path for a script |
| PageRules.BrowserFlags | webroot/js/contrail-layout.js:409-421 | no browser, no flags; otherwise the browser's flag and its version; Chrome and WebKit set `webkit`; only WebKit (or a browser named Safari) sets `safari`; Chrome never does |
| PageRules.AddBrowserDetection | webroot/js/contrail-layout.js:385-426 | an existing `$.browser` is kept; a missing one is filled in from the matched pair |
| PageRules.AddBrowserDetectionIdempotent | webroot/js/contrail-layout.js:386 | running the detection again, with any user agent, changes nothing |
| Widgets.OpenWidget | webroot/js/contrail-layout.js:243-258 | the widget ends expanded; a collapsed one has its icon turned up, and an open one is unchanged; no other icon class changes; the final re-check cannot fire |
| Widgets.CollapseWidget | webroot/js/contrail-layout.js:260-275 | the widget ends collapsed; an open one has its icon turned down, and a collapsed one is unchanged; no other icon class changes |
| Widgets.OpenCollapsePreserveAgreement | webroot/js/contrail-layout.js:243-275 | both keep the icon direction in agreement with the collapsed state |
| Widgets.OpenCollapseIdempotent | webroot/js/contrail-layout.js:243-275 | opening twice is opening once, and collapsing twice is collapsing once |
| Widgets.OpenCollapseRoundTrip | webroot/js/contrail-layout.js:243-275 | with the icon in agreement, collapse undoes open and open undoes collapse exactly |
| Widgets.IconUpDownDistinct | webroot/js/contrail-layout.js:249-250 | the up and down icon classes differ |
| Widgets.ToggleSidebar | webroot/js/contrail-layout.js:189-201 | flips the minimised state and both chevrons, and stores "close" when the sidebar is now minimised and "open" otherwise |
| Widgets.ToggleSidebarConsistent | webroot/js/contrail-layout.js:191-200 | after a toggle the cookie records the sidebar state, and one chevron is shown when one was before |
| Widgets.ToggleSidebarTwice | webroot/js/contrail-layout.js:191-200 | two toggles restore a consistent sidebar exactly |
| Widgets.VisibilityAfter | webroot/js/contrail-layout.js:299-306 | an id is hidden afterwards exactly when it is in the hide list, or it was hidden and is not in the show list |
| Widgets.VisibilityIdempotent | webroot/js/contrail-layout.js:299-306 | the same call twice has the effect of one |
| Widgets.VisibilityOverridesNamed | webroot/js/contrail-layout.js:299-306 | the previous state matters only for ids neither list names |
| Widgets.Page.constructor | webroot/js/contrail-layout.js:301 | the page starts with the given hidden ids |
| Widgets.Page.ToggleWidgetsVisibility | webroot/js/contrail-layout.js:299-306 | the two loops leave exactly the hidden set that rule describes |
| Widgets.Elements | webroot/js/contrail-layout.js:300-305 | the ids a list names |
| InfoWindow.BuildContentAndFooter | webroot/js/contrail-layout.js:551-577 | the body is the message block plus the detail block when there is a detail; the footer has the "Show More" toggle first exactly when there is a detail, then Yes (calling the named function) and No when a confirmation function is named, else Close; every button after the first is `btn-primary` with an action, and the last always closes the dialog |
| InfoWindow.ShowInfoWindow | webroot/js/contrail-layout.js:539-599 | the dialog `infoWindow` with the given title and that body; its footer has the "Show More" toggle first exactly when there is a detail, then Yes (calling the named function) and No when a confirmation function is named, else Close, every later button `btn-primary` with an action and the last one closing the dialog; it has a detail toggle, starting at "Show More" with the detail hidden, exactly when there is a detail; z-index 1052 over a 1051 backdrop |
| InfoWindow.ToggleDetail | webroot/js/contrail-layout.js:587-595 | a toggle whose trimmed caption is "Show More" reveals the detail; any other caption hides it; afterwards the caption always offers the opposite action |
| InfoWindow.ToggleDetailReveals | webroot/js/contrail-layout.js:588-590 | the first click on the opened dialog's toggle reveals the detail and offers "Show Less" |
| InfoWindow.ToggleDetailHides | webroot/js/contrail-layout.js:591-593 | a click on "Show Less" hides the detail and offers "Show More" |
| InfoWindow.ToggleDetailTwice | webroot/js/contrail-layout.js:585-595 | two clicks bring the toggle back to its opening state |
| DonutChart.Read | webroot/js/models/DonutChartModel.js:247-248 | the label and value accessors read those fields; the pie's default `x`/`y` accessors find nothing in a datum |
| DonutChart.StateGetter | webroot/js/models/DonutChartModel.js:52-58 | one flag per series, true exactly for a series not disabled |
| DonutChart.WithActive | webroot/js/models/DonutChartModel.js:60-67 | each series is disabled unless its `active` flag is present and true, so series beyond `active` become disabled; labels and values are unchanged |
| DonutChart.ApplyState | webroot/js/models/DonutChartModel.js:60-68 | a state without `active` changes no series; otherwise the series become exactly that result |
| DonutChart.SetterAfterGetter | webroot/js/models/DonutChartModel.js:52-66 | setting the state the getter reads leaves each `disabled` flag a boolean of the same truth value and changes nothing else |
| DonutChart.GetterAfterSetter | webroot/js/models/DonutChartModel.js:52-66 | reading back a set state gives its flags for the series it covers and false beyond; it gives the same flags when the lengths match |
| DonutChart.MergeMargin | webroot/js/models/DonutChartModel.js:233-238 | each supplied side replaces the old one, and each undefined side keeps it |
| DonutChart.MergeMarginIdempotent | webroot/js/models/DonutChartModel.js:233-238 | the same margin update twice is the update once |
| DonutChart.MergeMarginCompose | webroot/js/models/DonutChartModel.js:233-238 | two updates in a row are one update in which the later fields win |
| DonutChart.MergeMarginExtremes | webroot/js/models/DonutChartModel.js:233-238 | an all-undefined update changes nothing; an all-supplied one replaces the margin |
| DonutChart.DonutChart.SetMargin | webroot/js/models/DonutChartModel.js:233-238 | the chart's margin becomes the merged margin; every other field of the chart keeps its value |
| DonutChart.CopyMember | webroot/js/models/DonutChartModel.js:103-106 | the snapshot's copy of a state member, sliced for an array; members are values, so the copy is the member itself |
| DonutChart.SnapshotState | webroot/js/models/DonutChartModel.js:100-107 | the key-by-key loop yields a snapshot equal to the whole state |
| DonutChart.DisabledFlags | webroot/js/models/DonutChartModel.js:97 | one flag per series, true exactly for a disabled one |
| DonutChart.DisabledFlagsNegateActive | webroot/js/models/DonutChartModel.js:97 | the disabled flags are the negations of the getter's active flags |
| DonutChart.LegendLayout | webroot/js/models/DonutChartModel.js:86-162 | a top legend takes the top margin and the pie the height below it; a right legend is min(default width, quarter of the available width) wide, the pie takes the rest and the legend sits 10 pixels past it; otherwise nothing is resized |
| DonutChart.LegendLayoutStable | webroot/js/models/DonutChartModel.js:135-138 | rendering again with the margin a render left, in the same container, gives the same placement |
| DonutChart.RightLegendLeavesPie | webroot/js/models/DonutChartModel.js:145-151 | with a right-hand legend the pie keeps at least three quarters of a non-negative available width |
| DonutChart.NoShowLegendNoLegend | webroot/js/models/DonutChartModel.js:252 | a chart built without `showLegend` draws no legend, because the setter stores undefined over the default |
| DonutChart.DonutChart.constructor | webroot/js/models/DonutChartModel.js:22-37 | a new chart has a zero margin, a right-hand legend, no default state, no no-data text, a 250 ms duration, and a tooltip that is enabled, as nvd3 starts it, and hidden |
| DonutChart.DonutChart.Render | webroot/js/models/DonutChartModel.js:74-169 | records the disabled flags in the state; snapshots the state as `defaultState` only while there is none; applies the legend layout to the margin it started from and keeps its top margin; sets the pie's width and height to the space the layout leaves it; changes no other field |
| DonutChart.RenderTwice | webroot/js/models/DonutChartModel.js:99-108 | the default state keeps the first render's flags after later renders |
| DonutChart.MouseoverSeries | webroot/js/models/DonutChartModel.js:176-180 | the tooltip series is the chart's x and y accessors applied to the hovered datum, with its colour |
| DonutChart.DonutChart.OnElementMouseover | webroot/js/models/DonutChartModel.js:175-182 | the event gets that series and becomes the tooltip's data; the tooltip's `hidden` option becomes false, so it is drawn exactly when its `enabled` option is true; no other field of the chart changes |
| DonutChart.DonutChart.OnElementMouseout | webroot/js/models/DonutChartModel.js:184-186 | the tooltip is hidden and so not drawn; no other field of the chart changes, and the last tooltip data stays |
| DonutChart.ConfigurePie | webroot/js/models/DonutChartModel.js:245-258 | the pie is a donut with `x = label` and `y = value`, and height, ratio, labels and value format passed through |
| DonutChart.FactoryTooltipSeries | webroot/js/models/DonutChartModel.js:175-181 | on a factory chart, a hovered slice's tooltip shows its label as key and its value as value |
| DonutChart.DefaultAccessorsReadNothing | webroot/js/models/DonutChartModel.js:177-178 | with the pie's default accessors the tooltip series would be empty, which is why the factory sets both |
| DonutChart.NewDonutChartModel | webroot/js/models/DonutChartModel.js:245-262 | throws (none) exactly when `chartOptions.margin` is undefined; otherwise it configures the pie as above, merges the margin into the zero margin, passes through legend visibility and position, no-data text, tooltip enablement, legend alignment and padding; it has no default state, tooltip data or placement yet, a 250 ms duration and a hidden tooltip |
| DonutChart.TooltipDrawn | webroot/js/models/DonutChartModel.js:257 | nvd3 draws a tooltip only when its `enabled` option is `true` and it is not hidden |
| DonutChart.FactoryHoverDrawsTooltip | webroot/js/models/DonutChartModel.js:257 | hovering a slice of a factory chart draws the tooltip exactly when `showTooltips` was true; without the option, undefined has been stored over the default and nothing is drawn |

## Left out

- The two `logMessage` calls of the hashchange handler (lines 128-129) are left out. They only write to the log.
- Widgets.OpenWidget and Widgets.CollapseWidget take the icon's base name as a parameter. The code captures it with the greedy pattern `icon\-(.*)\-(up|down)` over the icon's whole class attribute. It throws a TypeError when no class matches. Neither the capture nor that error is modelled.
- Navigation.SearchSiteMap takes each entry's `searchStrings` to be a list and looks for the trimmed input as a whole element. If an entry held a single string, `indexOf` at line 215 would be a substring search, and that case is not modelled.
- Object members are listed in JavaScript's enumeration order, the order `JSON.stringify` writes them. That order puts array-index keys first, in ascending order, then the other keys in insertion order. The model does not reorder keys as they are inserted; a `JObj` is assumed to be in that order already.
- DOM selection, click wiring (`.live`, `.on`) and the class toggles of the widget-header click handlers (lines 19-54) are not modelled; only the abstract state that `openWidget`, `collapseWidget`, the sidebar toggle and `toggleWidgetsVisibility` change is.
- `toggleWidget` (lines 277-297) and `initWidget` (lines 321-382) are left out. They finish in animation callbacks (`slideUp`, `hide`) and in a `setTimeout` with a random delay.
- The `.open > .submenu` class removal of the sidebar toggle (line 196) is left out: it depends on the menu's DOM tree.
- `layoutHandler` is external; its calls are recorded, and the deferreds it is given are never claimed to resolve.
- The URL round trip through `setURLHashObj` and `$.bbq.getState()` is taken to be exact.
- The user-agent regexes of `$.uaMatch` (lines 392-406) are left out; the browser flags start from an already matched pair.
- `syntaxHighlight` (lines 487-520), `loadCSS` (lines 447-461), `onWindowResize`, `generalInit`, `enableSearchAhead` and the cookie and modal plumbing are left out. They are regex rendering or DOM work, and `loadCSS` reads an undefined `link`.
- Removing an already open info dialog (lines 542-549) is left out: it depends on what the DOM already shows.
- The `sortArrays === true` branch of `Object.identical` (lines 169-170) is left out; it relies on JavaScript's in-place default sort.
- JSON numbers are integers in the model and chart values are reals. `JSON.stringify` writes integers of 10^21 and above in exponent form, and integers beyond 2^53 lose precision as JavaScript numbers; both serialise differently in the source. Members whose value is `undefined`, which `JSON.stringify` omits, are not modelled.
- Strings are compared by Dafny characters. That matches JavaScript's UTF-16 code-unit order only for characters of the Basic Multilingual Plane.
- A request's identity is a number. `$.extend(true, [], xhrPool)` deep-copies the request objects, but the abort closures still act on the originals, so the model records the identities in snapshot order.
- The race the code allows between the snapshot and a request completing is not modelled, because events run one at a time.
- The series are values, not shared objects, so aliasing between the data array and nvd3's copies is not captured.
- The `margin` setter is modelled for undefined fields only. A field set to `null` would be stored as `null`.
- The other chart options that only forward to nvd3 are left out: `color`, `duration`, `tooltips` and `tooltipContent` (lines 206-232).
- nvd3 rendering is left out: the pie, the legend's row layout, transitions and `renderWatch`, and `nv.utils.state`'s own update logic. The legend's rendered height and default width are parameters.
- The container size is an input. It stands for the width and height nvd3's `sanitizeWidth` and `sanitizeHeight` produce when the chart sets no size of its own: the container's CSS size read with `parseInt`, or 960 and 400 when that reading gives 0 or NaN. That reading and its fallback are not modelled. The available size is that size less the margins.
- The tooltip's value formatter delegating to the pie's format (lines 39-44) is left out; it is a nvd3 setting with no logic here.
