/** Which handlers the page script installs at load, given which elements the
    page has. The script runs top to bottom once; the handlers from the modal
    onwards are installed only if the script gets past the modal's lookups. */
module Setup {

  /** The behaviours the script installs, in source order. */
  datatype Feature =
    | NavToggle | ThemeToggle | SmoothScroll | ScrollSpy | FooterYear | ProjectFilter
    | ModalButtons | ModalClose | RevealDelays | BackToTopScroll | BackToTopClick
    | CopyEmail | ContactSubmit

  const AllFeatures: set<Feature> := {
    NavToggle, ThemeToggle, SmoothScroll, ScrollSpy, FooterYear, ProjectFilter,
    ModalButtons, ModalClose, RevealDelays, BackToTopScroll, BackToTopClick,
    CopyEmail, ContactSubmit }

  /** The elements whose presence the script tests. */
  datatype Page = Page(
    navToggle: bool, siteNav: bool, themeToggle: bool, year: bool, modal: bool,
    toTop: bool, copyButton: bool, contactForm: bool)

  /** The page has what the feature's own guard asks for. Features that work on
      a list of elements (possibly empty) or on the window need nothing. */
  predicate Wanted(page: Page, f: Feature)
  {
    match f
    case NavToggle => page.navToggle && page.siteNav
    case ThemeToggle => page.themeToggle
    case FooterYear => page.year
    case ModalClose => page.modal
    case BackToTopClick => page.toTop
    case CopyEmail => page.copyButton
    case ContactSubmit => page.contactForm
    case _ => true
  }

  /** Installed before the modal's child lookups. */
  predicate BeforeModalLookups(f: Feature)
  {
    f in {NavToggle, ThemeToggle, SmoothScroll, ScrollSpy, FooterYear, ProjectFilter}
  }

  /** The script as written: without a modal, `qs('#modalTitle', modal)` calls
      `querySelector` on `null` (the parameter default replaces only
      `undefined`), the script throws, and nothing after it is installed. */
  function InstalledAsWritten(page: Page): (r: set<Feature>)
    ensures forall f :: f in r <==> Wanted(page, f) && (BeforeModalLookups(f) || page.modal)
  {
    set f | f in AllFeatures && Wanted(page, f) && (BeforeModalLookups(f) || page.modal)
  }

  /** The evidently intended script, the one the `if (!modal) return` guards of
      `openModal` and `closeModal` presuppose: every feature whose guard the page
      satisfies is installed, whether or not the page has a modal. */
  function Installed(page: Page): (r: set<Feature>)
    ensures forall f :: f in r <==> Wanted(page, f)
  {
    set f | f in AllFeatures && Wanted(page, f)
  }

  /** A page with a contact form but no modal: as written, the form's submit
      handler is never installed (nor the reveal delays or the scroll handler). */
  lemma MissingModalStopsScript()
    ensures var page := Page(true, true, true, true, false, true, true, true);
            ContactSubmit !in InstalledAsWritten(page) && ContactSubmit in Installed(page)
            && RevealDelays !in InstalledAsWritten(page) && BackToTopScroll !in InstalledAsWritten(page)
  {
  }

  /** The two agree exactly on the pages that have a modal. */
  lemma AsWrittenAgreesWithModal(page: Page)
    ensures InstalledAsWritten(page) == Installed(page) <==> page.modal
  {
    if !page.modal {
      assert SmoothScroll in Installed(page);
      assert RevealDelays in Installed(page) && RevealDelays !in InstalledAsWritten(page);
    }
  }
}
