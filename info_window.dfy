/** The information dialog of webroot/js/contrail-layout.js
    (`showInfoWindow`): its body, its footer buttons and the
    "Show More"/"Show Less" detail toggle. */
module InfoWindow {
  import opened Wrappers
  import opened Strings

  /** A footer button's click action: close the dialog, or call the global
      function of that name (`window[yesFunction]`). */
  datatype OnClick = CloseDialog | CallGlobal(name: string)

  datatype FooterButton = FooterButton(title: string, onclick: Option<OnClick>, className: string)

  /** `detail != "" && detail != undefined`; `None` is `null` or `undefined`. */
  predicate HasDetail(detail: Option<string>) {
    detail.Some? && detail.value != ""
  }

  /** `yesFunction != "" && yesFunction != null`. */
  predicate HasYes(yesFunction: Option<string>) {
    yesFunction.Some? && yesFunction.value != ""
  }

  function ShortMessage(msg: string): string {
    "<div id=\"short-msg\"><p>" + msg + "</p></div>"
  }

  function DetailBlock(detail: string): string {
    "<div id=\"detail\" class=\"\"><p><br>" + detail + "</p></div>"
  }

  const ShowMoreButton := FooterButton("Show More", None, "detailNote")
  const NoButton := FooterButton("No", Some(CloseDialog), "btn-primary")
  const CloseButton := FooterButton("Close", Some(CloseDialog), "btn-primary")

  /** The dialog body and footer, built by appending. The footer starts
      with the detail toggle when there is a detail; it ends with Yes/No
      when a confirmation function is named and with Close otherwise, so
      the last button always closes the dialog. */
  method BuildContentAndFooter(msg: string, detail: Option<string>, yesFunction: Option<string>)
    returns (content: string, footer: seq<FooterButton>)
    ensures content == ShortMessage(msg) + (if HasDetail(detail) then DetailBlock(detail.value) else "")
    ensures |footer| == (if HasDetail(detail) then 1 else 0) + (if HasYes(yesFunction) then 2 else 1)
    ensures HasDetail(detail) <==> footer[0] == ShowMoreButton
    ensures footer[|footer| - 1].onclick == Some(CloseDialog)
    ensures HasYes(yesFunction) ==>
      footer[|footer| - 2] == FooterButton("Yes", Some(CallGlobal(yesFunction.value)), "btn-primary")
      && footer[|footer| - 1] == NoButton
    ensures !HasYes(yesFunction) ==> footer[|footer| - 1] == CloseButton
    ensures forall i :: 0 < i < |footer| ==> footer[i].className == "btn-primary" && footer[i].onclick.Some?
  {
    content := ShortMessage(msg);
    footer := [];
    if detail.Some? && detail.value != "" {
      content := content + DetailBlock(detail.value);
      footer := footer + [ShowMoreButton];
    }
    if yesFunction.Some? && yesFunction.value != "" {
      footer := footer + [FooterButton("Yes", Some(CallGlobal(yesFunction.value)), "btn-primary")];
      footer := footer + [NoButton];
    } else {
      footer := footer + [CloseButton];
    }
  }

  /** The toggle's caption and whether the detail block is hidden. */
  datatype DetailNote = DetailNote(caption: string, detailHidden: bool)

  /** The state right after the dialog opens with a detail. */
  const InitialNote := DetailNote("Show More", true)

  /** The caption offers exactly what a click would do. */
  predicate NoteAgrees(n: DetailNote) {
    n.detailHidden <==> n.caption == "Show More"
  }

  /** A click on the detail toggle: a (trimmed) "Show More" caption reveals the
      detail and offers "Show Less"; any other caption hides it again. */
  function ToggleDetail(n: DetailNote): (r: DetailNote)
    ensures NoteAgrees(r)
    ensures r.detailHidden <==> Trim(n.caption) != "Show More"
  {
    if Trim(n.caption) == "Show More" then DetailNote("Show Less", false) else DetailNote("Show More", true)
  }

  /** The first click reveals the detail. */
  lemma ToggleDetailReveals()
    ensures ToggleDetail(InitialNote) == DetailNote("Show Less", false)
  {
    TrimOfTrimmed("Show More");
  }

  /** A click on "Show Less" hides the detail again. */
  lemma ToggleDetailHides(hidden: bool)
    ensures ToggleDetail(DetailNote("Show Less", hidden)) == InitialNote
  {
    var less, more := "Show Less", "Show More";
    TrimOfTrimmed(less);
    assert less[5] != more[5];
  }

  /** Two clicks from the opening state come back to it. */
  lemma ToggleDetailTwice()
    ensures ToggleDetail(ToggleDetail(InitialNote)) == InitialNote
  {
    ToggleDetailReveals();
    ToggleDetailHides(false);
  }

  /** What `showInfoWindow` puts on screen. */
  datatype Dialog = Dialog(
    id: string, title: string, body: string, footer: seq<FooterButton>,
    note: Option<DetailNote>, zIndex: int, backdropZIndex: int)

  /** `showInfoWindow(msg, title, detail, yesFunction)`: the dialog
      `infoWindow` with that body and footer, the detail hidden behind its
      toggle when there is one, and raised above the page's other dialogs. */
  method ShowInfoWindow(msg: string, title: string, detail: Option<string>, yesFunction: Option<string>)
    returns (dialog: Dialog)
    ensures dialog.id == "infoWindow" && dialog.title == title
    ensures dialog.body == ShortMessage(msg) + (if HasDetail(detail) then DetailBlock(detail.value) else "")
    ensures 1 <= |dialog.footer| <= 3
    ensures dialog.note.Some? <==> HasDetail(detail)
    ensures dialog.note.Some? ==> dialog.note.value == InitialNote && dialog.footer[0] == ShowMoreButton
    ensures dialog.footer[|dialog.footer| - 1].onclick == Some(CloseDialog)
    ensures |dialog.footer| == (if HasDetail(detail) then 1 else 0) + (if HasYes(yesFunction) then 2 else 1)
    ensures HasDetail(detail) <==> dialog.footer[0] == ShowMoreButton
    ensures HasYes(yesFunction) ==>
      dialog.footer[|dialog.footer| - 2] == FooterButton("Yes", Some(CallGlobal(yesFunction.value)), "btn-primary")
      && dialog.footer[|dialog.footer| - 1] == NoButton
    ensures !HasYes(yesFunction) ==> dialog.footer[|dialog.footer| - 1] == CloseButton
    ensures forall i :: 0 < i < |dialog.footer| ==> dialog.footer[i].className == "btn-primary" && dialog.footer[i].onclick.Some?
    ensures dialog.zIndex == 1052 && dialog.backdropZIndex == 1051 && dialog.backdropZIndex < dialog.zIndex
  {
    var content, footer := BuildContentAndFooter(msg, detail, yesFunction);
    var note := if HasDetail(detail) then Some(InitialNote) else None;
    dialog := Dialog("infoWindow", title, content, footer, note, 1052, 1051);
  }
}
