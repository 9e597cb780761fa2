/** Widget-box, sidebar and visibility state of webroot/js/contrail-layout.js,
    each as the abstract state of the elements the functions touch. */
module Widgets {
  import opened Wrappers

  // ---------------------------------------------------------------------
  // openWidget / collapseWidget
  // ---------------------------------------------------------------------

  /** The icon classes of a widget whose icon is `icon-<base>-up/down`; the
      base name is what the class pattern `icon-(.*)-(up|down)` captures. */
  function IconUp(base: string): string { "icon-" + base + "-up" }
  function IconDown(base: string): string { "icon-" + base + "-down" }

  lemma IconUpDownDistinct(base: string)
    ensures IconUp(base) != IconDown(base)
  {
    assert |IconUp(base)| != |IconDown(base)|;
  }

  /** A widget box: whether it carries `collapsed`, and the classes of its
      toolbar icon. */
  datatype WidgetBox = WidgetBox(collapsed: bool, iconClasses: set<string>)

  /** The icon points up on an open widget and down on a collapsed one. */
  predicate IconAgrees(w: WidgetBox, base: string) {
    if w.collapsed then IconDown(base) in w.iconClasses && IconUp(base) !in w.iconClasses
    else IconUp(base) in w.iconClasses && IconDown(base) !in w.iconClasses
  }

  /** `openWidget(id)`: a collapsed widget is expanded and its icon turned
      up; an open one is left alone. The final re-check of `collapsed` can
      never fire, since the widget is open by then. No other icon class
      changes. */
  function OpenWidget(w: WidgetBox, base: string): (r: WidgetBox)
    ensures !r.collapsed
    ensures !w.collapsed ==> r == w
    ensures w.collapsed ==> IconAgrees(r, base)
    ensures forall c :: c != IconUp(base) && c != IconDown(base) ==> (c in r.iconClasses <==> c in w.iconClasses)
  {
    IconUpDownDistinct(base);
    var afterOpen := if w.collapsed then WidgetBox(false, w.iconClasses + {IconUp(base)} - {IconDown(base)}) else w;
    if afterOpen.collapsed then afterOpen.(iconClasses := afterOpen.iconClasses + {IconDown(base)} - {IconUp(base)})
    else afterOpen
  }

  /** `collapseWidget(id)`: an open widget is collapsed and its icon turned
      down; a collapsed one is left alone. No other icon class changes. */
  function CollapseWidget(w: WidgetBox, base: string): (r: WidgetBox)
    ensures r.collapsed
    ensures w.collapsed ==> r == w
    ensures !w.collapsed ==> IconAgrees(r, base)
    ensures forall c :: c != IconUp(base) && c != IconDown(base) ==> (c in r.iconClasses <==> c in w.iconClasses)
  {
    IconUpDownDistinct(base);
    if !w.collapsed then WidgetBox(true, w.iconClasses + {IconDown(base)} - {IconUp(base)}) else w
  }

  /** Both keep the icon in agreement with the widget. */
  lemma OpenCollapsePreserveAgreement(w: WidgetBox, base: string)
    requires IconAgrees(w, base)
    ensures IconAgrees(OpenWidget(w, base), base)
    ensures IconAgrees(CollapseWidget(w, base), base)
  {
  }

  /** Opening twice is opening once; collapsing twice is collapsing once. */
  lemma OpenCollapseIdempotent(w: WidgetBox, base: string)
    ensures OpenWidget(OpenWidget(w, base), base) == OpenWidget(w, base)
    ensures CollapseWidget(CollapseWidget(w, base), base) == CollapseWidget(w, base)
  {
  }

  /** With the icon in agreement, collapsing undoes opening and opening
      undoes collapsing. */
  lemma {:induction false} OpenCollapseRoundTrip(w: WidgetBox, base: string)
    requires IconAgrees(w, base)
    ensures w.collapsed ==> CollapseWidget(OpenWidget(w, base), base) == w
    ensures !w.collapsed ==> OpenWidget(CollapseWidget(w, base), base) == w
  {
    IconUpDownDistinct(base);
    var up, down := IconUp(base), IconDown(base);
    if w.collapsed {
      var r := CollapseWidget(OpenWidget(w, base), base);
      assert r.iconClasses == w.iconClasses + {up} - {down} + {down} - {up};
      assert r.iconClasses == w.iconClasses;
    } else {
      var r := OpenWidget(CollapseWidget(w, base), base);
      assert r.iconClasses == w.iconClasses + {down} - {up} + {up} - {down};
      assert r.iconClasses == w.iconClasses;
    }
  }

  // ---------------------------------------------------------------------
  // onClickSidebarCollapse
  // ---------------------------------------------------------------------

  /** The sidebar's `menu-min` class, its collapse icon's chevron classes,
      and the `sidebar` cookie. */
  datatype Sidebar = Sidebar(minimized: bool, chevronLeft: bool, chevronRight: bool, cookie: Option<string>)

  /** The cookie value that records a sidebar state. */
  function SidebarCookie(minimized: bool): string {
    if minimized then "close" else "open"
  }

  /** One icon chevron is shown and the cookie records the sidebar state. */
  predicate SidebarConsistent(s: Sidebar) {
    s.chevronLeft != s.chevronRight && s.cookie == Some(SidebarCookie(s.minimized))
  }

  /** `onClickSidebarCollapse()`: flips the sidebar and both chevrons, then
      stores "close" when it is now minimised and "open" otherwise. */
  function ToggleSidebar(s: Sidebar): (r: Sidebar)
    ensures r.minimized == !s.minimized
    ensures r.chevronLeft == !s.chevronLeft && r.chevronRight == !s.chevronRight
    ensures r.cookie == Some(if r.minimized then "close" else "open")
  {
    var minimized := !s.minimized;
    Sidebar(minimized, !s.chevronLeft, !s.chevronRight, Some(SidebarCookie(minimized)))
  }

  /** A toggle keeps the sidebar consistent, and makes it consistent when
      only its chevrons were. */
  lemma ToggleSidebarConsistent(s: Sidebar)
    requires s.chevronLeft != s.chevronRight
    ensures SidebarConsistent(ToggleSidebar(s))
  {
  }

  /** Two toggles restore a consistent sidebar exactly. */
  lemma ToggleSidebarTwice(s: Sidebar)
    requires SidebarConsistent(s)
    ensures ToggleSidebar(ToggleSidebar(s)) == s
  {
  }

  // ---------------------------------------------------------------------
  // toggleWidgetsVisibility
  // ---------------------------------------------------------------------

  function Elements(ids: seq<string>): (r: set<string>)
    ensures forall x :: x in r <==> x in ids
  {
    set x | x in ids
  }

  /** The ids carrying `hide` after the shown ids lose it and the hidden
      ids gain it. */
  function VisibilityAfter(hidden: set<string>, showIds: seq<string>, hideIds: seq<string>): (r: set<string>)
    ensures forall id :: id in r <==> id in hideIds || (id in hidden && id !in showIds)
  {
    (hidden - Elements(showIds)) + Elements(hideIds)
  }

  /** The same call twice has the effect of the call once. */
  lemma VisibilityIdempotent(hidden: set<string>, showIds: seq<string>, hideIds: seq<string>)
    ensures VisibilityAfter(VisibilityAfter(hidden, showIds, hideIds), showIds, hideIds)
         == VisibilityAfter(hidden, showIds, hideIds)
  {
  }

  /** A call's result depends on the previous state only for ids it does
      not name. */
  lemma VisibilityOverridesNamed(h1: set<string>, h2: set<string>, showIds: seq<string>, hideIds: seq<string>)
    requires forall id :: id !in showIds && id !in hideIds ==> (id in h1 <==> id in h2)
    ensures VisibilityAfter(h1, showIds, hideIds) == VisibilityAfter(h2, showIds, hideIds)
  {
  }

  /** The elements of the page, by id, that carry the `hide` class. */
  class Page {
    var hidden: set<string>

    constructor (initiallyHidden: set<string>)
      ensures hidden == initiallyHidden
    {
      hidden := initiallyHidden;
    }

    /** `toggleWidgetsVisibility(showWidgetIds, hideWidgetIds)`: first shows
        each id of the first list, then hides each id of the second. */
    method ToggleWidgetsVisibility(showIds: seq<string>, hideIds: seq<string>)
      modifies this
      ensures hidden == VisibilityAfter(old(hidden), showIds, hideIds)
    {
      var i := 0;
      while i < |showIds|
        invariant 0 <= i <= |showIds|
        invariant hidden == old(hidden) - Elements(showIds[..i])
      {
        assert showIds[..i + 1] == showIds[..i] + [showIds[i]];
        hidden := hidden - {showIds[i]};
        i := i + 1;
      }
      assert showIds[..i] == showIds;
      var j := 0;
      while j < |hideIds|
        invariant 0 <= j <= |hideIds|
        invariant hidden == (old(hidden) - Elements(showIds)) + Elements(hideIds[..j])
      {
        assert hideIds[..j + 1] == hideIds[..j] + [hideIds[j]];
        hidden := hidden + {hideIds[j]};
        j := j + 1;
      }
      assert hideIds[..j] == hideIds;
    }
  }
}
