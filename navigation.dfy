/** The navigation coordinator of webroot/js/contrail-layout.js: the
    `hashchange` handler, `loadFeature` and `searchSiteMap`, which hand
    navigation states to the external page loader `layoutHandler`, and the
    menu helpers that loader uses. */
module Navigation {
  import opened Wrappers
  import opened Strings
  import opened JsonValue
  import opened StructuralEquality

  /** One recorded call `layoutHandler.onHashChange(prev, next[, deferred])`;
      `deferred` names the deferred object passed as third argument, if any. */
  datatype HashChangeCall = HashChangeCall(prev: Json, next: Json, deferred: Option<nat>)

  /** A site-map entry: the search phrases that lead to a page and that
      page's query parameters. */
  datatype SiteMapEntry = SiteMapEntry(searchStrings: seq<string>, queryParams: Json)

  /** The navigation state a site-map entry leads to: `{p: hash, q: queryParams}`. */
  function SiteState(hash: string, entry: SiteMapEntry): (st: Json)
    ensures st.JObj? && KeysOf(st.members) == ["p", "q"]
  {
    JObj([("p", JStr(hash)), ("q", entry.queryParams)])
  }

  /** The position of the first site-map entry, in iteration order, whose
      search strings contain `needle`. */
  function FirstMatch(siteMap: seq<(string, SiteMapEntry)>, needle: string): (r: Option<nat>)
    ensures r.Some? ==> r.value < |siteMap| && needle in siteMap[r.value].1.searchStrings
    ensures r.Some? ==> forall j :: 0 <= j < r.value ==> needle !in siteMap[j].1.searchStrings
    ensures r.None? ==> forall j :: 0 <= j < |siteMap| ==> needle !in siteMap[j].1.searchStrings
  {
    if siteMap == [] then None
    else if needle in siteMap[0].1.searchStrings then Some(0)
    else match FirstMatch(siteMap[1..], needle)
      case None => None
      case Some(i) => Some(i + 1)
  }

  /** The page variables and the `globalObj` flags the coordinator keeps. */
  class Navigator {
    /** `lastHash`: the state the page loader was last told about. */
    var lastHash: Json
    /** The implicit global `currHash`, unset until the first event. */
    var currHash: Option<Json>
    /** The state encoded in the URL fragment, as `$.bbq.getState()` and
        `layoutHandler.getURLHashObj()` decode it. */
    var urlHash: Json
    /** `globalObj.hashUpdated`: 1 means "the next hashchange was caused by code". */
    var hashUpdated: int
    /** `globalObj.menuClicked`. */
    var menuClicked: bool
    /** Every `onHashChange` call made so far, oldest first. */
    var calls: seq<HashChangeCall>
    /** How many deferred objects `loadFeature` has created. */
    var deferreds: nat

    /** The state at page load: `lastHash = $.bbq.getState()` (line 116). */
    constructor (initialUrlHash: Json, initialHashUpdated: int, initialMenuClicked: bool)
      ensures lastHash == initialUrlHash && urlHash == initialUrlHash && currHash == None
      ensures hashUpdated == initialHashUpdated && menuClicked == initialMenuClicked
      ensures calls == [] && deferreds == 0
    {
      lastHash := initialUrlHash;
      currHash := None;
      urlHash := initialUrlHash;
      hashUpdated := initialHashUpdated;
      menuClicked := initialMenuClicked;
      calls := [];
      deferreds := 0;
    }

    /** The user (or the browser's history) changes the URL fragment. */
    method SetUrlHash(st: Json)
      modifies this
      ensures urlHash == st
      ensures lastHash == old(lastHash) && currHash == old(currHash) && hashUpdated == old(hashUpdated)
      ensures menuClicked == old(menuClicked) && calls == old(calls) && deferreds == old(deferreds)
    {
      urlHash := st;
    }

    /** The `hashchange` handler. When the flag says code changed the hash,
        the flag is consumed, `lastHash` catches up and the loader is not
        called; otherwise the loader gets `(lastHash, current state)` —
        even when the two are equal — and `lastHash` moves on. */
    method OnHashChange()
      modifies this
      ensures currHash == Some(urlHash) && lastHash == urlHash && urlHash == old(urlHash)
      ensures old(hashUpdated) == 1 ==> hashUpdated == 0 && calls == old(calls)
      ensures old(hashUpdated) != 1 ==>
        hashUpdated == old(hashUpdated) && calls == old(calls) + [HashChangeCall(old(lastHash), urlHash, None)]
      ensures menuClicked == old(menuClicked) && deferreds == old(deferreds)
    {
      currHash := Some(urlHash);
      if hashUpdated == 1 {
        hashUpdated := 0;
        lastHash := currHash.value;
        return;
      }
      calls := calls + [HashChangeCall(lastHash, currHash.value, None)];
      lastHash := currHash.value;
    }

    /** `loadFeature(hashParams)`: marks a menu click, raises the flag when
        the JSON text of the URL state differs from that of `hashParams`
        (key order counts), puts `hashParams` in the URL, and calls the
        loader with `(lastHash, hashParams)` and a new deferred, which it
        returns. `lastHash` is left for the hashchange handler to update. */
    method LoadFeature(hashParams: Json) returns (deferred: nat)
      modifies this
      ensures deferred == old(deferreds) && deferreds == old(deferreds) + 1
      ensures menuClicked
      ensures hashUpdated == if Serialize(old(urlHash)) != Serialize(hashParams) then 1 else old(hashUpdated)
      ensures urlHash == hashParams
      ensures calls == old(calls) + [HashChangeCall(old(lastHash), hashParams, Some(deferred))]
      ensures lastHash == old(lastHash) && currHash == old(currHash)
    {
      deferred := deferreds;
      deferreds := deferreds + 1;
      menuClicked := true;
      if Serialize(urlHash) != Serialize(hashParams) {
        hashUpdated := 1;
      }
      urlHash := hashParams;
      calls := calls + [HashChangeCall(lastHash, hashParams, Some(deferred))];
    }

    /** `searchSiteMap()` on the search box text `input`: the first entry
        whose search strings contain the trimmed text sends the loader from
        the URL state to that entry's state, which becomes `lastHash`; with
        no match nothing happens. It returns `false` either way. */
    method SearchSiteMap(siteMap: seq<(string, SiteMapEntry)>, input: string) returns (result: bool)
      modifies this
      ensures !result
      ensures urlHash == old(urlHash) && hashUpdated == old(hashUpdated)
      ensures menuClicked == old(menuClicked) && deferreds == old(deferreds)
      ensures FirstMatch(siteMap, Trim(input)).None? ==>
        calls == old(calls) && lastHash == old(lastHash) && currHash == old(currHash)
      ensures FirstMatch(siteMap, Trim(input)).Some? ==>
        var (hash, entry) := siteMap[FirstMatch(siteMap, Trim(input)).value];
        && calls == old(calls) + [HashChangeCall(urlHash, SiteState(hash, entry), None)]
        && lastHash == SiteState(hash, entry) && currHash == Some(SiteState(hash, entry))
    {
      var needle := Trim(input);
      var k := 0;
      while k < |siteMap|
        invariant 0 <= k <= |siteMap|
        invariant forall j :: 0 <= j < k ==> needle !in siteMap[j].1.searchStrings
        invariant calls == old(calls) && lastHash == old(lastHash) && currHash == old(currHash)
        invariant urlHash == old(urlHash) && hashUpdated == old(hashUpdated)
        invariant menuClicked == old(menuClicked) && deferreds == old(deferreds)
      {
        var (hash, entry) := siteMap[k];
        if needle in entry.searchStrings {
          lastHash := urlHash;
          var next := SiteState(hash, entry);
          currHash := Some(next);
          calls := calls + [HashChangeCall(lastHash, next, None)];
          lastHash := next;
          assert FirstMatch(siteMap, needle) == Some(k);
          return false;
        }
        k := k + 1;
      }
      return false;
    }
  }

  /** Programmatic navigation reaches the loader once: `loadFeature` to a
      state whose JSON text differs from the URL's, followed by the
      hashchange event the URL change fires, makes exactly the one call of
      `loadFeature`; the event only consumes the flag and moves `lastHash`. */
  method LoadFeatureThenHashChange(nav: Navigator, hashParams: Json) returns (deferred: nat)
    requires Serialize(nav.urlHash) != Serialize(hashParams)
    modifies nav
    ensures nav.calls == old(nav.calls) + [HashChangeCall(old(nav.lastHash), hashParams, Some(deferred))]
    ensures nav.lastHash == hashParams && nav.hashUpdated == 0 && nav.menuClicked
  {
    deferred := nav.LoadFeature(hashParams);
    nav.OnHashChange();
  }

  /** The handler has no equality check: a hashchange to the state the
      loader was last told about is still delegated, as `(a, a)`. */
  method HashChangeToSameState(nav: Navigator)
    requires nav.hashUpdated != 1 && nav.lastHash == nav.urlHash
    modifies nav
    ensures nav.calls == old(nav.calls) + [HashChangeCall(old(nav.urlHash), old(nav.urlHash), None)]
  {
    nav.OnHashChange();
  }

  /** The flag is not tied to the state `loadFeature` set: when the URL has
      moved on to another state `other` by the time the event is handled,
      that event is swallowed too, and the loader never hears of `other`. */
  method FlagSwallowsNextChange(nav: Navigator, hashParams: Json, other: Json) returns (deferred: nat)
    requires Serialize(nav.urlHash) != Serialize(hashParams)
    modifies nav
    ensures nav.calls == old(nav.calls) + [HashChangeCall(old(nav.lastHash), hashParams, Some(deferred))]
    ensures nav.lastHash == other && nav.hashUpdated == 0
  {
    deferred := nav.LoadFeature(hashParams);
    nav.SetUrlHash(other);
    nav.OnHashChange();
  }

  /** Two `loadFeature` calls in a row hand the loader two distinct deferred
      objects, one per call. */
  method LoadFeatureTwice(nav: Navigator, hashParams: Json) returns (first: nat, second: nat)
    modifies nav
    ensures first != second
    ensures nav.calls == old(nav.calls) + [HashChangeCall(old(nav.lastHash), hashParams, Some(first)),
                                           HashChangeCall(old(nav.lastHash), hashParams, Some(second))]
  {
    first := nav.LoadFeature(hashParams);
    second := nav.LoadFeature(hashParams);
  }

  /** The JSON text of an object begins with `{"` and the first key's
      first character. */
  lemma SerializedFirstKey(ms: seq<(string, Json)>)
    requires ms != [] && ms[0].0 != ""
    ensures |Serialize(JObj(ms))| > 2 && Serialize(JObj(ms))[2] == EscapeChar(ms[0].0[0])[0]
  {
    var parts := seq(|ms|, i requires 0 <= i < |ms| => Quote(ms[i].0) + ":" + Serialize(ms[i].1));
    JoinStartsWithFirst(parts, ",");
    var k := ms[0].0;
    assert EscapeBody(k) == EscapeChar(k[0]) + EscapeBody(k[1..]);
    assert Quote(k)[1] == EscapeChar(k[0])[0];
    assert Serialize(JObj(ms)) == "{" + Join(parts, ",") + "}";
  }

  /** The flag of `loadFeature` compares JSON text, not `Object.identical`:
      the same state with its keys in another order raises the flag ... */
  lemma ReorderedStateSerializesDifferently(v: Json, w: Json)
    ensures Serialize(JObj([("p", v), ("q", w)])) != Serialize(JObj([("q", w), ("p", v)]))
  {
    var a, b := [("p", v), ("q", w)], [("q", w), ("p", v)];
    SerializedFirstKey(a);
    SerializedFirstKey(b);
    assert EscapeChar('p') == "p" && EscapeChar('q') == "q";
    assert a[0].0[0] == 'p' && b[0].0[0] == 'q';
  }

  /** ... though the two states compare identical. */
  lemma ReorderedStateIdentical(v: Json, w: Json)
    requires WellFormed(v) && WellFormed(w)
    ensures Identical(JObj([("p", v), ("q", w)]), JObj([("q", w), ("p", v)]))
  {
    var a, b := [("p", v), ("q", w)], [("q", w), ("p", v)];
    assert "p" != "q" by { assert "p"[0] != "q"[0]; }
    assert WellFormed(JObj(a)) && WellFormed(JObj(b));
    assert multiset(a) == multiset(b) by {
      assert a == [a[0]] + [a[1]] && b == [a[1]] + [a[0]];
    }
    KeyOrderIrrelevant(a, b);
  }

  /** `getMenuButtonName(buttonHash)`: the menu button of a top-level hash;
      anything unknown maps to the monitor button. */
  function MenuButtonName(buttonHash: string): (name: string)
    ensures name == "configure" <==> buttonHash == "config"
    ensures name == "query" <==> buttonHash == "query"
    ensures name == "setting" <==> buttonHash == "setting"
    ensures name == "monitor" <==> buttonHash !in {"config", "query", "setting"}
  {
    if buttonHash == "mon" then "monitor"
    else if buttonHash == "config" then "configure"
    else if buttonHash == "query" then "query"
    else if buttonHash == "setting" then "setting"
    else "monitor"
  }

  /** `check2ReloadMenu(lastPageHash, currentMenu)`: the menu must be reloaded
      unless the previous page's hash, up to its first `_`, names the
      current menu. A missing or empty previous hash always reloads. */
  function ReloadMenu(lastPageHash: Option<string>, currentMenu: string): (reload: bool)
    ensures lastPageHash == None || lastPageHash == Some("") ==> reload
  {
    match lastPageHash
    case None => true
    case Some(h) => if h == "" then true else FirstField(h, '_') != currentMenu
  }

  /** A string without `sep` is its own first field. */
  lemma {:induction false} FirstFieldWhole(s: string, sep: char)
    requires sep !in s
    ensures FirstField(s, sep) == s
  {
    if s != [] {
      assert sep !in s[1..];
      FirstFieldWhole(s[1..], sep);
    }
  }

  /** A string that starts with `p` and then `sep`, `p` free of `sep`, has `p`
      as its first field. */
  lemma {:induction false} FirstFieldOfPrefix(p: string, s: string, sep: char)
    requires sep !in p && p + [sep] <= s
    ensures FirstField(s, sep) == p
  {
    if p != [] {
      assert s[0] == p[0];
      assert p[1..] + [sep] <= s[1..] by {
        assert (p + [sep])[1..] == p[1..] + [sep];
      }
      assert sep !in p[1..];
      FirstFieldOfPrefix(p[1..], s[1..], sep);
    } else {
      assert s[0] == sep;
    }
  }

  /** For a menu name without `_`, the menu is kept exactly when the previous
      page hash is that name or begins with that name and `_`. */
  lemma ReloadMenuKeepsSameSection(h: string, menu: string)
    requires h != "" && '_' !in menu
    ensures !ReloadMenu(Some(h), menu) <==> h == menu || menu + "_" <= h
  {
    var r := FirstField(h, '_');
    if r == menu && |r| < |h| {
      assert h[..|menu| + 1] == menu + "_";
    }
    if h == menu {
      FirstFieldWhole(h, '_');
    }
    if menu + "_" <= h {
      FirstFieldOfPrefix(menu, h, '_');
    }
  }
}
