/** The mobile navigation: a toggle button flips the nav's `open` class and
    mirrors it into its own `aria-expanded`; a click on any nav link closes the nav. */
module Nav {
  import opened Dom

  datatype NavView = NavView(open: bool, ariaExpanded: string)

  /** `aria-expanded` tells the truth about the open flag. */
  predicate Synced(v: NavView)
  {
    v.ariaExpanded == BoolString(v.open)
  }

  /** The toggle button's click: the open flag flips and is mirrored, whatever
      `aria-expanded` said before. */
  function Toggled(v: NavView): (r: NavView)
    ensures r.open == !v.open
    ensures Synced(r)
    ensures r.ariaExpanded == "true" <==> !v.open
  {
    var open := !v.open;
    NavView(open, BoolString(open))
  }

  /** A nav link's click: the nav ends closed with `aria-expanded` `"false"`. */
  function LinkClicked(v: NavView): (r: NavView)
    ensures !r.open && r.ariaExpanded == "false"
    ensures Synced(r)
  {
    NavView(false, "false")
  }

  /** Two toggles restore the open flag, and leave the view synced. */
  lemma ToggleTwice(v: NavView)
    ensures Toggled(Toggled(v)).open == v.open
    ensures Synced(v) ==> Toggled(Toggled(v)) == v
  {
  }

  /** The nav element's `open` class and the toggle's `aria-expanded` attribute. */
  class SiteNav {
    var open: bool
    var ariaExpanded: string

    function View(): NavView
      reads this
    {
      NavView(open, ariaExpanded)
    }

    constructor (initial: NavView)
      ensures View() == initial
    {
      open, ariaExpanded := initial.open, initial.ariaExpanded;
    }

    method Toggle()
      modifies this
      ensures View() == Toggled(old(View()))
      ensures Synced(View())
    {
      open := !open;
      ariaExpanded := BoolString(open);
    }

    method ClickLink()
      modifies this
      ensures View() == LinkClicked(old(View()))
      ensures !open && ariaExpanded == "false"
    {
      open := false;
      ariaExpanded := "false";
    }
  }
}
