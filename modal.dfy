/** The project modal: a card's "more" button opens it filled with the card's
    data, the close controls and the Escape key close it. Opening also locks the
    page's scrolling through the body's `overflow` style. */
module Modal {
  import opened Dom

  /** The `data-*` attributes of the button that opened the modal. */
  datatype ProjectData = ProjectData(
    title: Option<string>, description: Option<string>, tech: Option<string>,
    demo: Option<string>, source: Option<string>)

  /** The modal's `open` class and `aria-hidden` attribute, the body's overflow
      style, and the text and links inside the modal. */
  datatype ModalView = ModalView(
    open: bool, ariaHidden: Option<string>, bodyOverflow: string,
    title: string, description: string, tech: string,
    demoHref: Option<string>, sourceHref: Option<string>)

  /** `openModal(data)`. */
  function Opened(v: ModalView, d: ProjectData): (r: ModalView)
    ensures r.open && r.ariaHidden == Some("false") && r.bodyOverflow == "hidden"
    ensures r.title == Or(d.title, "") && r.description == Or(d.description, "")
    ensures r.tech == "Tech: " + Or(d.tech, "")
    ensures r.demoHref == if Truthy(d.demo) then d.demo else v.demoHref
    ensures r.sourceHref == if Truthy(d.source) then d.source else v.sourceHref
  {
    ModalView(
      true, Some("false"), "hidden",
      Or(d.title, ""), Or(d.description, ""), "Tech: " + Or(d.tech, ""),
      if Truthy(d.demo) then d.demo else v.demoHref,
      if Truthy(d.source) then d.source else v.sourceHref)
  }

  /** `closeModal()`: only the open flag, `aria-hidden` and the body's overflow change. */
  function Closed(v: ModalView): (r: ModalView)
    ensures !r.open && r.ariaHidden == Some("true") && r.bodyOverflow == ""
    ensures r.title == v.title && r.description == v.description && r.tech == v.tech
    ensures r.demoHref == v.demoHref && r.sourceHref == v.sourceHref
  {
    v.(open := false, ariaHidden := Some("true"), bodyOverflow := "")
  }

  /** The document's keydown handler: Escape closes the modal, but only while it is open. */
  function KeyDown(v: ModalView, key: string): (r: ModalView)
    ensures key == "Escape" && v.open ==> r == Closed(v)
    ensures key != "Escape" || !v.open ==> r == v
  {
    if key == "Escape" && v.open then Closed(v) else v
  }

  /** The open flag, `aria-hidden` and the body's overflow agree: either open,
      shown and scroll-locked, or closed, hidden and scrollable. */
  predicate Consistent(v: ModalView)
  {
    if v.open then v.ariaHidden == Some("false") && v.bodyOverflow == "hidden"
    else v.ariaHidden == Some("true") && v.bodyOverflow == ""
  }

  /** Opening, closing and the keydown handler all leave the modal consistent,
      from any prior state for the first two. */
  lemma ConsistentPreserved(v: ModalView, d: ProjectData, key: string)
    ensures Consistent(Opened(v, d)) && Consistent(Closed(v))
    ensures Consistent(v) ==> Consistent(KeyDown(v, key))
  {
  }

  /** On a consistent modal, Escape has the same effect as the close controls. */
  lemma EscapeIsClose(v: ModalView)
    requires Consistent(v)
    ensures KeyDown(v, "Escape") == Closed(v)
  {
  }

  /** Closing is idempotent, and closing after opening keeps what opening wrote. */
  lemma CloseAfterOpen(v: ModalView, d: ProjectData)
    ensures Closed(Closed(v)) == Closed(v)
    ensures Closed(Opened(v, d)).title == Or(d.title, "")
    ensures Closed(Opened(v, d)).tech == "Tech: " + Or(d.tech, "")
  {
  }

  /** A modal whose demo and source links were set by one card and not
      overwritten by a card without them still points at the first card's links. */
  lemma LinksSurviveEmptyData(v: ModalView, d1: ProjectData, d2: ProjectData)
    requires Truthy(d1.demo) && !Truthy(d2.demo)
    ensures Opened(Closed(Opened(v, d1)), d2).demoHref == d1.demo
  {
  }

  /** The modal and its parts on the page; `present` is false when the page has
      no modal, and then every operation does nothing. */
  class ProjectModal {
    const present: bool
    var open: bool
    var ariaHidden: Option<string>
    var bodyOverflow: string
    var title: string
    var description: string
    var tech: string
    var demoHref: Option<string>
    var sourceHref: Option<string>

    function View(): ModalView
      reads this
    {
      ModalView(open, ariaHidden, bodyOverflow, title, description, tech, demoHref, sourceHref)
    }

    constructor (isPresent: bool, initial: ModalView)
      ensures present == isPresent && View() == initial
    {
      present := isPresent;
      open, ariaHidden, bodyOverflow := initial.open, initial.ariaHidden, initial.bodyOverflow;
      title, description, tech := initial.title, initial.description, initial.tech;
      demoHref, sourceHref := initial.demoHref, initial.sourceHref;
    }

    method Open(d: ProjectData)
      modifies this
      ensures View() == if present then Opened(old(View()), d) else old(View())
    {
      if !present {
        return;
      }
      title := Or(d.title, "");
      description := Or(d.description, "");
      tech := "Tech: " + Or(d.tech, "");
      if Truthy(d.demo) {
        demoHref := d.demo;
      }
      if Truthy(d.source) {
        sourceHref := d.source;
      }
      open := true;
      ariaHidden := Some("false");
      bodyOverflow := "hidden";
    }

    method Close()
      modifies this
      ensures View() == if present then Closed(old(View())) else old(View())
    {
      if !present {
        return;
      }
      open := false;
      ariaHidden := Some("true");
      bodyOverflow := "";
    }

    /** The keydown listener, installed only when the modal is present. */
    method KeyPressed(key: string)
      modifies this
      ensures View() == if present then KeyDown(old(View()), key) else old(View())
    {
      if present && key == "Escape" && open {
        Close();
      }
    }
  }
}
