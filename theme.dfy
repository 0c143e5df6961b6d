/** The colour theme: the document's `data-theme` attribute, restored at load
    from the `theme` entry of local storage and flipped by the theme toggle,
    which also stores the new theme and swaps its own icon. Storage that is
    unavailable makes every read and write fail silently. */
module Theme {
  import opened Dom

  const Moon: string := "\U{1F319}"
  const Sun: string := "\U{2600}\U{FE0F}"

  /** The theme after a toggle: `"dark"` when the current theme is `"light"`,
      `"light"` for anything else, an absent attribute included. */
  function NextTheme(current: Option<string>): (r: string)
    ensures r == "dark" <==> current == Some("light")
    ensures r == "light" <==> current != Some("light")
  {
    if current == Some("light") then "dark" else "light"
  }

  /** The toggle's label for a theme: the moon while the theme is light, the sun otherwise. */
  function Icon(theme: string): (r: string)
    ensures r == Moon <==> theme == "light"
    ensures r == Sun <==> theme != "light"
  {
    if theme == "light" then Moon else Sun
  }

  /** Two toggles return to the starting theme exactly when it was `"light"`
      or `"dark"`; from anything else they end on `"dark"`. */
  lemma ToggleTwice(current: Option<string>)
    ensures Some(NextTheme(Some(NextTheme(current)))) == current <==> current == Some("light") || current == Some("dark")
    ensures current != Some("light") ==> NextTheme(Some(NextTheme(current))) == "dark"
  {
  }

  /** The theme value restored at load: a stored entry that is present and not
      empty; nothing when storage is unavailable. */
  function Restored(storageWorks: bool, stored: Option<string>): (r: Option<string>)
    ensures r.Some? <==> storageWorks && Truthy(stored)
    ensures r.Some? ==> r == stored
  {
    if storageWorks && Truthy(stored) then stored else None
  }

  datatype ThemeView = ThemeView(dataTheme: Option<string>, stored: Option<string>, icon: string)

  /** The toggle's click: the attribute becomes the next theme, storage (when it
      works) holds the same value, and the icon follows the new theme. */
  function Toggled(storageWorks: bool, v: ThemeView): (r: ThemeView)
    ensures r.dataTheme == Some(NextTheme(v.dataTheme))
    ensures r.stored == if storageWorks then r.dataTheme else v.stored
    ensures r.icon == Moon <==> r.dataTheme == Some("light")
  {
    var next := NextTheme(v.dataTheme);
    ThemeView(Some(next), if storageWorks then Some(next) else v.stored, Icon(next))
  }

  /** Once a working store has seen a toggle, storage and the attribute agree and
      keep agreeing under further toggles: the next page load restores the theme
      in use. */
  lemma StoredTracksTheme(v: ThemeView, n: nat)
    requires n >= 1
    ensures ToggledN(true, v, n).stored == ToggledN(true, v, n).dataTheme
    ensures Restored(true, ToggledN(true, v, n).stored) == ToggledN(true, v, n).dataTheme
  {
  }

  function ToggledN(storageWorks: bool, v: ThemeView, n: nat): ThemeView
  {
    if n == 0 then v else Toggled(storageWorks, ToggledN(storageWorks, v, n - 1))
  }

  /** The document's theme attribute, the stored preference and the toggle's label. */
  class ThemeToggle {
    const storageWorks: bool
    var dataTheme: Option<string>
    var stored: Option<string>
    var icon: string

    function View(): ThemeView
      reads this
    {
      ThemeView(dataTheme, stored, icon)
    }

    /** Page load: a truthy stored theme is applied; otherwise the attribute
        keeps what the markup gave it. */
    constructor (works: bool, markupTheme: Option<string>, storedTheme: Option<string>, markupIcon: string)
      ensures storageWorks == works
      ensures dataTheme == if Restored(works, storedTheme).Some? then Restored(works, storedTheme) else markupTheme
      ensures stored == storedTheme && icon == markupIcon
    {
      storageWorks := works;
      stored := storedTheme;
      icon := markupIcon;
      var saved := Restored(works, storedTheme);
      dataTheme := if saved.Some? then saved else markupTheme;
    }

    method Toggle()
      modifies this
      ensures View() == Toggled(storageWorks, old(View()))
    {
      var next := NextTheme(dataTheme);
      dataTheme := Some(next);
      if storageWorks {
        stored := Some(next);
      }
      icon := Icon(next);
    }
  }
}
