/** Project filtering: chips carry a `data-filter` key, cards carry a
    comma-separated `data-tags` list; clicking a chip makes it the only active
    chip and hides every card whose tags do not include the key. */
module Filter {
  import opened Dom
  import opened Text

  /** Whether a card with the given `data-tags` attribute is shown under `key`:
      the key is `"all"`, or it is one of the untrimmed pieces of the attribute
      (an absent attribute reads as `""`) split on commas. */
  predicate Shows(tags: Option<string>, key: string)
    ensures key == "all" ==> Shows(tags, key)
    ensures Shows(tags, key) && key != "all" ==> |key| <= |Or(tags, "")|
  {
    PiecesNoLonger(Or(tags, ""), ',');
    key == "all" || key in Split(Or(tags, ""), ',')
  }

  /** The `style.display` value a card gets under `key`. */
  function CardDisplay(tags: Option<string>, key: string): (r: string)
    ensures r == "" <==> Shows(tags, key)
    ensures r == "none" <==> !Shows(tags, key)
  {
    if Shows(tags, key) then "" else "none"
  }

  /** The key a chip applies: its `data-filter`, or `"all"` when that is absent or empty. */
  function ChipKey(filter: Option<string>): (r: string)
    ensures r != ""
    ensures Truthy(filter) ==> r == filter.value
    ensures r == "all" <==> filter == Some("all") || !Truthy(filter)
  {
    Or(filter, "all")
  }

  /** A card whose tags are written as the comma-separated list `pieces` is shown
      exactly when the key is `"all"` or one of those pieces. */
  lemma ShowsIffListed(pieces: seq<string>, key: string)
    requires |pieces| >= 1 && SepFree(pieces, ',')
    ensures Shows(Some(Join(pieces, ',')), key) <==> key == "all" || key in pieces
  {
    SplitJoin(pieces, ',');
    if Join(pieces, ',') == "" {
      assert pieces == [""] by { SplitNoSep("", ','); }
    }
  }

  /** A key holding a comma never matches a piece, so only `"all"` shows such a card. */
  lemma CommaKeyShowsNothing(tags: Option<string>, key: string)
    requires ',' in key && key != "all"
    ensures !Shows(tags, key)
  {
    SplitSepFree(Or(tags, ""), ',');
  }

  /** A card without `data-tags` splits to `[""]`: it is shown only under
      `"all"` and under the empty key. */
  lemma MissingTagsShows(key: string)
    ensures Shows(None, key) <==> key == "all" || key == ""
  {
    assert Split("", ',') == [""];
  }

  /** The cards and the chips of the projects section. The tags and filters are
      read from the page and never change; the handlers update each card's
      display and each chip's `active` class in place. */
  class ProjectGrid {
    const cardTags: seq<Option<string>>
    const display: array<string>
    const chipFilters: seq<Option<string>>
    const chipActive: array<bool>

    ghost predicate Valid()
      reads this
    {
      display.Length == |cardTags| && chipActive.Length == |chipFilters|
    }

    constructor (tags: seq<Option<string>>, filters: seq<Option<string>>)
      ensures Valid() && fresh(display) && fresh(chipActive)
      ensures cardTags == tags && chipFilters == filters
      ensures forall i :: 0 <= i < display.Length ==> display[i] == ""
      ensures forall j :: 0 <= j < chipActive.Length ==> !chipActive[j]
    {
      cardTags, chipFilters := tags, filters;
      display := new string[|tags|](_ => "");
      chipActive := new bool[|filters|](_ => false);
    }

    /** `applyFilter(key)`: every card's display is set from its own tags and the
        key alone, so applying the same key twice gives the same page. */
    method ApplyFilter(key: string)
      requires Valid()
      modifies display
      ensures forall i :: 0 <= i < display.Length ==> display[i] == CardDisplay(cardTags[i], key)
    {
      var i := 0;
      while i < display.Length
        invariant 0 <= i <= display.Length
        invariant forall k :: 0 <= k < i ==> display[k] == CardDisplay(cardTags[k], key)
      {
        display[i] := CardDisplay(cardTags[i], key);
        i := i + 1;
      }
    }

    /** The click handler of chip `c`: clear `active` on every chip, set it on
        `c`, then filter the cards by `c`'s key. */
    method ClickChip(c: nat)
      requires Valid() && c < chipActive.Length
      modifies display, chipActive
      ensures forall j :: 0 <= j < chipActive.Length ==> chipActive[j] == (j == c)
      ensures forall i :: 0 <= i < display.Length ==>
                display[i] == CardDisplay(cardTags[i], ChipKey(chipFilters[c]))
    {
      var j := 0;
      while j < chipActive.Length
        invariant 0 <= j <= chipActive.Length
        invariant forall k :: 0 <= k < j ==> !chipActive[k]
      {
        chipActive[j] := false;
        j := j + 1;
      }
      chipActive[c] := true;
      var key := ChipKey(chipFilters[c]);
      ApplyFilter(key);
    }
  }
}
