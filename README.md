# Portfolio page script — verified model

This project models the decision and state logic of the portfolio site's page
script, `assets/js/main.js`, with the browser's DOM replaced by plain state:

- **Project filter** (`Filter`): each card's `data-tags` string is split on
  commas (`Text.Split`, JavaScript's `split` with a one-character separator) and
  the card's `style.display` becomes `""` or `"none"`; clicking a chip makes it
  the only active chip and filters by its `data-filter` key, or `"all"` when
  that is absent or empty. `ProjectGrid` holds the cards' display values and the
  chips' `active` flags in arrays that its methods update in loops.
- **Contact form** (`Contact`): the name, email and message are trimmed
  (`Text.Trim`, over ECMAScript's white-space and line-terminator characters);
  the email must contain a match of the unanchored pattern `.+@.+\..+`, stated
  as an explicit X@Y.Z substring condition (`EmailPattern`) with a decision
  procedure proved equal to it (`EmailOk`). The submit handler either shows the
  "Please complete all fields…" status and keeps the fields, or shows the thanks
  status and resets the form.
- **Mobile nav** (`Nav`), **theme toggle** (`Theme`) and **project modal**
  (`Modal`): each is a pure step function per event, with lemmas about it, and a
  class whose methods update the fields in place and are proved to agree with
  the step function.
- **Scroll details** (`Scroll`): the reveal delay `min(40·i, 200)` ms written
  by the load-time loop, and the back-to-top threshold `y > 500`.
- **Setup** (`Setup`): which handlers the script installs at load, given which
  elements the page has, as written and as evidently intended (see Findings).

`Dom` holds the shared notions: an attribute or form value that may be absent
(`Option`), JavaScript truthiness of such a value, `a || fallback`, and
`String(bool)`.

Local storage is a value plus a `storageWorks` flag: when storage is
unavailable every read and write fails and the failure is swallowed, as the
`try`/`catch` blocks do. The script applies whatever non-empty string is stored
under `theme` (assets/js/main.js:24-25), not only `light` or `dark`.

The form's status line and the back-to-top button may be missing from a page;
their `hasStatus`/`present` flags model the script's `if (formStatus)` and
`if (toTop)` guards, and with the flag false the handler leaves that element
alone. A page without the modal is different: the script throws while looking up
the modal's parts (assets/js/main.js:90) and installs nothing from that point on;
`Setup.InstalledAsWritten` models that, and the classes for the modal, the
reveal delays, the back-to-top button and the contact form model a page that has
the modal, so that every handler is installed as `Setup.Installed` says.

## Model

| member | source | states |
|---|---|---|
| Dom.Or | assets/js/main.js:74 | JavaScript's logical or of a string-or-null with a fallback: the value when present and non-empty, otherwise the fallback |
| Dom.BoolString | assets/js/main.js:11 | `String(b)` is `"true"` exactly when `b` and `"false"` exactly when not |
| Text.Split | assets/js/main.js:74 | `split(',')` always yields at least one piece (`""` splits to `[""]`) |
| Text.PiecesNoLonger | assets/js/main.js:74 | no piece of a split is longer than the string split |
| Text.SplitSepFree | assets/js/main.js:74 | no piece of a split contains the separator |
| Text.JoinSplit | assets/js/main.js:74 | joining the pieces with the separator gives back the original string |
| Text.SplitJoin | assets/js/main.js:74 | any cut of a string into separator-free pieces that join back to it is exactly its split (uniqueness) |
| Text.TrimStart | assets/js/main.js:180-182 | the cut at the front lands on the first character that is not white space (or the end), and everything skipped is white space |
| Text.TrimEnd | assets/js/main.js:180-182 | the cut at the back lands just after the last character that is not white space (or on the front cut), and everything dropped is white space |
| Text.Trim | assets/js/main.js:180-182 | the trimmed string is no longer than the input and neither starts nor ends with white space |
| Text.TrimSlice | assets/js/main.js:180-182 | the trimmed string is a slice of the input with only white space cut away on both sides |
| Text.TrimEmptyIff | assets/js/main.js:184 | a trimmed field is empty exactly when the field has no non-white-space character |
| Text.TrimIdempotent | assets/js/main.js:180-182 | trimming twice is trimming once |
| Filter.CardDisplay | assets/js/main.js:75-76 | a card's display is `""` exactly when it is shown and `"none"` exactly when it is not |
| Filter.ChipKey | assets/js/main.js:83 | the key is the chip's `data-filter` when truthy and `"all"` when it is absent or empty; never `""` |
| Filter.Shows | assets/js/main.js:74-75 | under `"all"` every card is shown, and a card shown under any other key has that key as a piece of its tags, so the key is no longer than the tags |
| Filter.ShowsIffListed | assets/js/main.js:74-75 | a card whose tags are the comma-joined list `pieces` is shown iff the key is `"all"` or one of the pieces, untrimmed |
| Filter.CommaKeyShowsNothing | assets/js/main.js:74-75 | a key other than `"all"` that holds a comma shows no card |
| Filter.MissingTagsShows | assets/js/main.js:74-75 | a card without `data-tags` is shown only under `"all"` and the empty key |
| Filter.ProjectGrid.constructor | assets/js/main.js:70-71 | the grid holds the cards' tags and the chips' filters, every card displayed and no chip active |
| Filter.ProjectGrid.ApplyFilter | assets/js/main.js:72-78 | afterwards each card's display is determined by its own tags and the key alone (so reapplying a key changes nothing) |
| Filter.ProjectGrid.ClickChip | assets/js/main.js:79-85 | afterwards exactly the clicked chip is active and every card is displayed per the clicked chip's key |
| Nav.Toggled | assets/js/main.js:9-12 | the open flag flips and `aria-expanded` becomes `"true"` exactly when the nav is now open |
| Nav.LinkClicked | assets/js/main.js:14-17 | a nav link click leaves the nav closed with `aria-expanded` `"false"` |
| Nav.ToggleTwice | assets/js/main.js:9-12 | two toggles restore the open flag, and a synced view entirely |
| Nav.SiteNav.Toggle | assets/js/main.js:9-12 | the nav's fields change as `Toggled` says and `aria-expanded` mirrors the new flag |
| Nav.SiteNav.ClickLink | assets/js/main.js:14-17 | the nav's fields change as `LinkClicked` says |
| Theme.NextTheme | assets/js/main.js:30-31 | the next theme is `"dark"` exactly when the current one is `"light"` and `"light"` otherwise, an absent attribute included |
| Theme.Icon | assets/js/main.js:34 | the label is the moon exactly when the theme is `"light"` and the sun otherwise |
| Theme.ToggleTwice | assets/js/main.js:29-35 | two toggles return to the start exactly when it was `"light"` or `"dark"`; otherwise they end on `"dark"` |
| Theme.Restored | assets/js/main.js:23-26 | at load a stored theme is applied exactly when storage works and the entry is non-empty |
| Theme.Toggled | assets/js/main.js:29-35 | the attribute becomes the next theme, working storage holds the same value (failing storage keeps its old one), and the icon is the moon iff the new theme is `"light"` |
| Theme.StoredTracksTheme | assets/js/main.js:29-35 | after one or more toggles with working storage, the stored value equals the theme and would be restored at the next load |
| Theme.ThemeToggle.constructor | assets/js/main.js:21-26 | at load the attribute is the restored stored theme when there is one, else what the markup set |
| Theme.ThemeToggle.Toggle | assets/js/main.js:29-35 | the fields change as `Toggled` says |
| Modal.Opened | assets/js/main.js:95-105 | title and description become the data or `""`, tech becomes `"Tech: "` plus the tech or `""`, demo and source links are overwritten only by non-empty values, and the modal is open, shown and scroll-locked |
| Modal.Closed | assets/js/main.js:106-111 | the modal is closed, `aria-hidden` is `"true"`, the body overflow is `""`, and the contents are unchanged |
| Modal.KeyDown | assets/js/main.js:126 | Escape closes the modal only when it is open; any other key or a closed modal leaves it unchanged |
| Modal.ConsistentPreserved | assets/js/main.js:95-111 | opening and closing always produce a consistent open flag, `aria-hidden` and overflow, and the key handler keeps it consistent |
| Modal.EscapeIsClose | assets/js/main.js:126 | on a consistent modal Escape has the same effect as the close controls |
| Modal.CloseAfterOpen | assets/js/main.js:106-111 | closing is idempotent and keeps the contents written by opening |
| Modal.LinksSurviveEmptyData | assets/js/main.js:100-101 | a card without a demo link leaves the previous card's link in place |
| Modal.ProjectModal.Open | assets/js/main.js:95-105 | the modal's fields change as `Opened` says, or not at all when the page has no modal |
| Modal.ProjectModal.Close | assets/js/main.js:106-111 | the modal's fields change as `Closed` says, or not at all when the page has no modal |
| Modal.ProjectModal.KeyPressed | assets/js/main.js:124-127 | the modal's fields change as `KeyDown` says |
| Contact.ShortMatchIff | assets/js/main.js:183 | the pattern occurs exactly when it occurs with one-character X and Z |
| Contact.EmailOk | assets/js/main.js:183 | the email test is true exactly when the string contains X@Y.Z with X, Y and Z non-empty and free of line terminators |
| Contact.Verdict | assets/js/main.js:183-184 | on trimmed fields: accepted only with a non-empty name and message and an email of at least five characters (X@Y.Z) |
| Contact.Accepts | assets/js/main.js:180-184 | a submission with an absent name, email or message field is never accepted |
| Contact.AcceptsIff | assets/js/main.js:180-184 | a submission is accepted iff name and message have a non-white-space character and the trimmed email contains the pattern; absent fields read as `""` |
| Contact.AcceptsTrimmed | assets/js/main.js:180-182 | trimming the fields beforehand does not change the verdict |
| Contact.ContactForm.Edit | assets/js/main.js:179 | the values the form data will report become the typed ones; the status line is untouched |
| Contact.ContactForm.Submit | assets/js/main.js:177-190 | on rejection the status becomes the completion request and the fields are kept; on acceptance the status becomes the thanks message and the fields are reset; a missing status line is left alone |
| Scroll.RevealDelay | assets/js/main.js:140 | the delay is the smaller of `40·i` and 200 |
| Scroll.RevealDelayShape | assets/js/main.js:140 | the delay never decreases with the index and reaches 200 exactly from index 5 on |
| Scroll.ScrollOffset | assets/js/main.js:148 | the offset is `scrollY`, or `scrollTop` when `scrollY` is zero |
| Scroll.ToTopVisible | assets/js/main.js:149 | the threshold is strict: at an offset of 500 or less the button is hidden |
| Scroll.ToTopMonotone | assets/js/main.js:149 | once the button is shown, scrolling further down never hides it |
| Scroll.RevealList.Prepare | assets/js/main.js:139-143 | element `i` gets delay `RevealDelay(i)` and an empty `data-reveal` attribute |
| Scroll.BackToTop.OnScroll | assets/js/main.js:147-150 | `visible` is set to whether the current offset exceeds 500, or left alone when the page has no button |
| Setup.InstalledAsWritten | assets/js/main.js:89-90 | as written, the handlers from the modal's lookups on are installed only on pages that have the modal |
| Setup.Installed | assets/js/main.js:95-111 | as intended, every handler whose own guard the page satisfies is installed |
| Setup.MissingModalStopsScript | assets/js/main.js:89-90 | on a page with a contact form and no modal, the script as written never installs the submit handler, the reveal delays or the scroll handler |
| Setup.AsWrittenAgreesWithModal | assets/js/main.js:89-90 | the script as written and as intended install the same handlers exactly on pages that have the modal |

## Left out

- Scroll spy and the reveal observer's callbacks (assets/js/main.js:52-63, 131-138): when an element intersects the viewport is decided by the browser.
- Smooth scrolling of in-page links, `history.pushState` and the back-to-top click's `window.scrollTo` (assets/js/main.js:39-50, 152): navigation side effects of the browser.
- The copy-email button (assets/js/main.js:155-171): asynchronous clipboard access, a timer and the selection API.
- The footer year (assets/js/main.js:66-67): it reads the wall clock.
- Local storage itself: it is a stored value plus a flag saying whether storage works; quota errors on a single write are not distinguished from storage being unavailable.
- The JavaScript regular-expression engine: the email test is the explicit X@Y.Z condition. Strings are sequences of Unicode characters rather than UTF-16 code units; the pattern's verdict is the same either way because `@`, `.` and the line terminators are single code units.
- `FormData.get` returning a `File`: fields are strings or absent.
- Scroll offsets that are `NaN`: offsets are real numbers.
- A modal present without its title, description, tech or link elements (the script would throw): the modal's parts are assumed present whenever the modal is.
- Filter.ProjectGrid.constructor: cards start with an empty inline display; whatever inline style the markup gave them is not modelled.
- Event registration (`addEventListener`, the `if (navToggle && siteNav)` and `if (themeToggle)` guards): each class stands for a page on which its elements exist, and each method is one event.
- Modal.ProjectModal: `present == false` models the `if (!modal) return` guards of `openModal` and `closeModal` (assets/js/main.js:96, 107), which the script as written never reaches, because it throws at line 90 on a page without the modal; the contact form, back-to-top and reveal classes likewise assume a page that has the modal (see Findings and `Setup`).

## Findings

| source | as written | input that shows it | evidently intended | confidence | as-written member | corrected member |
|---|---|---|---|---|---|---|
| assets/js/main.js:89-90 | `qs('#modalTitle', modal)` runs even when `#projectModal` is missing; `modal` is `null`, the default `el = document` replaces only `undefined`, so `null.querySelector` throws and nothing after line 89 is installed | a page with `#contactForm` and no `#projectModal`: its submit handler, the reveal delays and the back-to-top scroll handler are never installed | the `if (!modal) return` guards at lines 96 and 107 show the modal was meant to be optional; every later handler should still be installed | not executed; read from the source | Setup.InstalledAsWritten, Setup.MissingModalStopsScript | Setup.Installed |
