/** The catalog page: which genre rows (containers) and which titles
    (items) are displayed, which sidebar menu entry is highlighted, and the
    genre that is selected.

    The decision rules are pure functions; the class `Page` holds the
    display flags of the page's elements as fields and updates them one
    element at a time, as the handlers' `forEach` loops do. */
module Catalog {
  import opened Wrappers
  import opened Text

  const ALL: string := "all"

  /** A genre row is displayed when every genre is selected or when the
      row's own genre is. */
  predicate GenreVisible(selected: string, containerGenre: string) {
    selected == ALL || containerGenre == selected
  }

  /** The display flags of all genre rows after selecting `selected`. */
  function GenreFilter(genres: seq<string>, selected: string): seq<bool> {
    seq(|genres|, i requires 0 <= i < |genres| => GenreVisible(selected, genres[i]))
  }

  /** Selecting "all" displays every row; selecting another genre displays
      exactly the rows of that genre. */
  lemma GenreFilterShows(genres: seq<string>, selected: string)
    ensures selected == ALL ==> forall i :: 0 <= i < |genres| ==> GenreFilter(genres, selected)[i]
    ensures selected != ALL ==>
      forall i :: 0 <= i < |genres| ==> (GenreFilter(genres, selected)[i] <==> genres[i] == selected)
  {
  }

  /** A title on the page and the index of the genre row that holds it. */
  datatype Item = Item(title: string, desc: string, container: nat)

  /** The search box's text, lower-cased. */
  function SearchQuery(input: string): (q: string)
    ensures |q| == |input|
    ensures forall i :: 0 <= i < |q| ==> !('A' <= q[i] <= 'Z')
  {
    LowerIdempotent(input);
    Lower(input)
  }

  /** An item stays displayed when the query occurs in its lower-cased title
      or description, or when the query is empty. */
  predicate ItemMatches(query: string, it: Item) {
    Contains(Lower(it.title), query) || Contains(Lower(it.desc), query) || query == []
  }

  /** An item matches iff the query occurs at some position of its
      lower-cased title or description; the empty query occurs everywhere,
      so the explicit empty-query test adds nothing. */
  lemma ItemMatchesIff(query: string, it: Item)
    ensures ItemMatches(query, it) <==>
      (exists i :: 0 <= i <= |it.title| && query <= Lower(it.title)[i..]) ||
      (exists i :: 0 <= i <= |it.desc| && query <= Lower(it.desc)[i..])
    ensures ItemMatches(query, it) <==> Contains(Lower(it.title), query) || Contains(Lower(it.desc), query)
  {
    ContainsIff(Lower(it.title), query);
    ContainsIff(Lower(it.desc), query);
    ContainsEmpty(Lower(it.title));
  }

  /** Typing in upper or lower case finds the same items. */
  lemma SearchIgnoresCase(input: string, it: Item)
    ensures ItemMatches(SearchQuery(input), it) == ItemMatches(SearchQuery(Lower(input)), it)
  {
    LowerIdempotent(input);
  }

  /** The item display flags after a search for `query`. */
  function ItemsAfterSearch(items: seq<Item>, query: string): seq<bool> {
    seq(|items|, j requires 0 <= j < |items| => ItemMatches(query, items[j]))
  }

  /** Some displayed item among the first `n` lies in row `c`. */
  predicate AnyShownIn(items: seq<Item>, shown: seq<bool>, c: nat, n: nat)
    requires n <= |items| && n <= |shown|
    decreases n
  {
    n > 0 && (AnyShownIn(items, shown, c, n - 1) || (items[n - 1].container == c && shown[n - 1]))
  }

  lemma {:induction false} AnyShownInIff(items: seq<Item>, shown: seq<bool>, c: nat, n: nat)
    requires n <= |items| && n <= |shown|
    ensures AnyShownIn(items, shown, c, n) <==>
      exists j :: 0 <= j < n && items[j].container == c && shown[j]
    decreases n
  {
    if n > 0 {
      AnyShownInIff(items, shown, c, n - 1);
    }
  }

  /** The row display flags after a search: an empty query leaves them as
      they were; any other query displays exactly the rows holding a
      matching item, whatever genre is selected. */
  function ContainersAfterSearch(genres: seq<string>, items: seq<Item>, shown: seq<bool>, query: string): (r: seq<bool>)
    requires |shown| == |genres|
    ensures |r| == |genres|
  {
    if query == [] then shown
    else seq(|genres|, c requires 0 <= c < |genres| => AnyShownIn(items, ItemsAfterSearch(items, query), c, |items|))
  }

  lemma SearchShowsMatchingContainers(genres: seq<string>, items: seq<Item>, shown: seq<bool>, query: string, c: nat)
    requires |shown| == |genres| && c < |genres|
    ensures query == [] ==> ContainersAfterSearch(genres, items, shown, query)[c] == shown[c]
    ensures query != [] ==> (ContainersAfterSearch(genres, items, shown, query)[c] <==>
      exists j :: 0 <= j < |items| && items[j].container == c && ItemMatches(query, items[j]))
  {
    AnyShownInIff(items, ItemsAfterSearch(items, query), c, |items|);
  }

  /** Clearing the search box after a search brings every item back but not
      the rows the search hid: a row with no match for "a" stays hidden
      although "all" is still the selected genre. */
  lemma ClearingSearchLeavesContainersHidden()
    ensures var genres, items := ["action", "horror"], [Item("A", "", 0), Item("B", "", 1)];
      var start := GenreFilter(genres, ALL);
      var searched := ContainersAfterSearch(genres, items, start, SearchQuery("a"));
      var cleared := ContainersAfterSearch(genres, items, searched, SearchQuery(""));
      ItemsAfterSearch(items, SearchQuery("")) == [true, true] &&
      start == [true, true] && cleared == [true, false]
  {
    var genres, items := ["action", "horror"], [Item("A", "", 0), Item("B", "", 1)];
    var q := SearchQuery("a");
    assert q == "a";
    assert Lower("A") == "a" && Lower("B") == "b" && Lower("") == "";
    assert ItemMatches(q, items[0]);
    assert !Contains("", q);
    assert "a"[0] != "b"[0] && "b"[1..] == "";
    assert !Contains("b", q);
    assert !ItemMatches(q, items[1]);
    SearchShowsMatchingContainers(genres, items, GenreFilter(genres, ALL), q, 0);
    SearchShowsMatchingContainers(genres, items, GenreFilter(genres, ALL), q, 1);
    assert SearchQuery("") == "";
  }

  /** The Alt+1 ... Alt+6 genre shortcuts. */
  function ShortcutGenre(key: string): Option<string> {
    if key == "1" then Some(ALL)
    else if key == "2" then Some("action")
    else if key == "3" then Some("horror")
    else if key == "4" then Some("comedy")
    else if key == "5" then Some("fantasy")
    else if key == "6" then Some("romance")
    else None
  }

  /** The page-title name of a genre; unknown genres read as all. */
  function GenreTitle(genre: string): string {
    if genre == ALL then "All Anime"
    else if genre == "action" then "Action Anime"
    else if genre == "horror" then "Horror Anime"
    else if genre == "comedy" then "Comedy Anime"
    else if genre == "fantasy" then "Fantasy Anime"
    else if genre == "romance" then "Romance Anime"
    else "All Anime"
  }

  /** The shortcut table and the title table name the same six genres: two
      different keys select two different genres, and every genre other
      than "all" that a key selects has a title of its own. */
  lemma ShortcutsMatchTitles(k1: string, k2: string)
    requires ShortcutGenre(k1).Some? && ShortcutGenre(k2).Some?
    ensures k1 != k2 ==> ShortcutGenre(k1) != ShortcutGenre(k2)
    ensures ShortcutGenre(k1).value != ALL ==> GenreTitle(ShortcutGenre(k1).value) != GenreTitle(ALL)
  {
  }

  /** The menu flags after `updateActiveMenuItem(genre)`: every entry whose
      genre is `genre` is highlighted. */
  function ActiveByGenre(menu: seq<string>, genre: string): seq<bool> {
    seq(|menu|, i requires 0 <= i < |menu| => menu[i] == genre)
  }

  /** The menu flags after clicking entry `k`: that entry alone. */
  function ActiveAt(n: nat, k: nat): seq<bool> {
    seq(n, i => i == k)
  }

  predicate Distinct(menu: seq<string>) {
    forall i, j :: 0 <= i < j < |menu| ==> menu[i] != menu[j]
  }

  /** With one menu entry per genre, the shortcut for an entry's genre
      highlights the same entry as a click on it; with a repeated genre it
      highlights more than one. */
  lemma MenuClickAgreesWithShortcut(menu: seq<string>, k: nat)
    requires k < |menu|
    ensures Distinct(menu) ==> ActiveByGenre(menu, menu[k]) == ActiveAt(|menu|, k)
    ensures !Distinct(menu) ==> exists k' :: 0 <= k' < |menu| && ActiveByGenre(menu, menu[k']) != ActiveAt(|menu|, k')
  {
    if !Distinct(menu) {
      var i, j :| 0 <= i < j < |menu| && menu[i] == menu[j];
      assert ActiveByGenre(menu, menu[i])[j] != ActiveAt(|menu|, i)[j];
    }
  }

  /** The display state of the page's elements. */
  class Page {
    /** The genre of each genre row, in page order. */
    const genres: seq<string>
    const items: seq<Item>
    /** The genre of each sidebar menu entry. */
    const menu: seq<string>
    var containerShown: seq<bool>
    var itemShown: seq<bool>
    var menuActive: seq<bool>
    var currentGenre: string

    ghost predicate Valid()
      reads this
    {
      |containerShown| == |genres| && |itemShown| == |items| && |menuActive| == |menu| &&
      forall j :: 0 <= j < |items| ==> items[j].container < |genres|
    }

    /** Page load: every element displayed, then every genre selected. */
    constructor (genres: seq<string>, items: seq<Item>, menu: seq<string>, menuActive: seq<bool>)
      requires |menuActive| == |menu|
      requires forall j :: 0 <= j < |items| ==> items[j].container < |genres|
      ensures Valid()
      ensures this.genres == genres && this.items == items && this.menu == menu
      ensures this.menuActive == menuActive && currentGenre == ALL
      ensures containerShown == GenreFilter(genres, ALL)
      ensures forall j :: 0 <= j < |items| ==> itemShown[j]
    {
      this.genres, this.items, this.menu := genres, items, menu;
      containerShown := seq(|genres|, _ => true);
      itemShown := seq(|items|, _ => true);
      this.menuActive := menuActive;
      currentGenre := ALL;
      new;
      FilterByGenre(ALL);
    }

    method FilterByGenre(genre: string)
      requires Valid()
      modifies this
      ensures Valid()
      ensures containerShown == GenreFilter(genres, genre)
      ensures itemShown == old(itemShown) && menuActive == old(menuActive) && currentGenre == old(currentGenre)
    {
      for i := 0 to |genres|
        invariant |containerShown| == |genres|
        invariant forall k :: 0 <= k < i ==> containerShown[k] == GenreVisible(genre, genres[k])
        invariant itemShown == old(itemShown) && menuActive == old(menuActive) && currentGenre == old(currentGenre)
      {
        containerShown := containerShown[i := GenreVisible(genre, genres[i])];
      }
    }

    /** Shows the matching items and hides the others; for a non-empty
        query, then shows exactly the rows that hold a matching item. */
    method FilterAnime(query: string)
      requires Valid()
      modifies this
      ensures Valid()
      ensures itemShown == ItemsAfterSearch(items, query)
      ensures containerShown == ContainersAfterSearch(genres, items, old(containerShown), query)
      ensures menuActive == old(menuActive) && currentGenre == old(currentGenre)
    {
      ghost var target := ItemsAfterSearch(items, query);
      for j := 0 to |items|
        invariant |itemShown| == |items| && |containerShown| == |genres|
        invariant forall k :: 0 <= k < j ==> itemShown[k] == target[k]
        invariant forall c :: 0 <= c < |genres| ==>
          containerShown[c] == (old(containerShown)[c] || (query != [] && AnyShownIn(items, target, c, j)))
        invariant menuActive == old(menuActive) && currentGenre == old(currentGenre)
      {
        if ItemMatches(query, items[j]) {
          itemShown := itemShown[j := true];
          if query != [] {
            containerShown := containerShown[items[j].container := true];
          }
        } else {
          itemShown := itemShown[j := false];
        }
      }
      assert itemShown == target;
      if query != [] {
        for c := 0 to |genres|
          invariant |containerShown| == |genres|
          invariant forall d :: 0 <= d < c ==> containerShown[d] == AnyShownIn(items, target, d, |items|)
          invariant forall d :: c <= d < |genres| ==>
            containerShown[d] == (old(containerShown)[d] || AnyShownIn(items, target, d, |items|))
          invariant itemShown == target
          invariant menuActive == old(menuActive) && currentGenre == old(currentGenre)
        {
          if !AnyShownIn(items, itemShown, c, |items|) {
            containerShown := containerShown[c := false];
          }
        }
      }
    }

    /** The search box's input handler as written: the rows are left alone
        when the box is emptied. */
    method SearchInputAsWritten(input: string)
      requires Valid()
      modifies this
      ensures Valid()
      ensures itemShown == ItemsAfterSearch(items, SearchQuery(input))
      ensures containerShown == ContainersAfterSearch(genres, items, old(containerShown), SearchQuery(input))
      ensures menuActive == old(menuActive) && currentGenre == old(currentGenre)
    {
      FilterAnime(SearchQuery(input));
    }

    /** The search box's input handler, with the genre filter restored when
        the box is emptied, as closing the search box does. */
    method SearchInput(input: string)
      requires Valid()
      modifies this
      ensures Valid()
      ensures itemShown == ItemsAfterSearch(items, SearchQuery(input))
      ensures input != [] ==> containerShown == ContainersAfterSearch(genres, items, old(containerShown), SearchQuery(input))
      ensures input == [] ==> containerShown == GenreFilter(genres, currentGenre)
      ensures menuActive == old(menuActive) && currentGenre == old(currentGenre)
    {
      var query := SearchQuery(input);
      FilterAnime(query);
      if query == [] {
        FilterByGenre(currentGenre);
      }
    }

    method UpdateActiveMenuItem(genre: string)
      requires Valid()
      modifies this
      ensures Valid()
      ensures menuActive == ActiveByGenre(menu, genre) && currentGenre == genre
      ensures containerShown == old(containerShown) && itemShown == old(itemShown)
    {
      for i := 0 to |menu|
        invariant |menuActive| == |menu|
        invariant forall k :: 0 <= k < i ==> menuActive[k] == (menu[k] == genre)
        invariant containerShown == old(containerShown) && itemShown == old(itemShown)
      {
        menuActive := menuActive[i := menu[i] == genre];
      }
      currentGenre := genre;
    }

    /** A click on menu entry `k`: it alone is highlighted, its genre is
        selected and the rows are filtered by it. */
    method ClickMenuItem(k: nat)
      requires Valid() && k < |menu|
      modifies this
      ensures Valid()
      ensures menuActive == ActiveAt(|menu|, k) && currentGenre == menu[k]
      ensures containerShown == GenreFilter(genres, menu[k]) && itemShown == old(itemShown)
    {
      for i := 0 to |menu|
        invariant |menuActive| == |menu|
        invariant forall m :: 0 <= m < i ==> !menuActive[m]
        invariant containerShown == old(containerShown) && itemShown == old(itemShown)
      {
        menuActive := menuActive[i := false];
      }
      menuActive := menuActive[k := true];
      currentGenre := menu[k];
      FilterByGenre(menu[k]);
    }

    /** A key press. Alt with a digit from 1 to 6 selects that genre, as if
        its menu entry had been chosen; the result says whether the key was
        taken. */
    method KeyDown(altKey: bool, key: string) returns (handled: bool)
      requires Valid()
      modifies this
      ensures Valid()
      ensures handled <==> altKey && ShortcutGenre(key).Some?
      ensures handled ==> var g := ShortcutGenre(key).value;
        containerShown == GenreFilter(genres, g) && menuActive == ActiveByGenre(menu, g) &&
        currentGenre == g && itemShown == old(itemShown)
      ensures !handled ==>
        containerShown == old(containerShown) && itemShown == old(itemShown) &&
        menuActive == old(menuActive) && currentGenre == old(currentGenre)
    {
      handled := false;
      if altKey {
        match ShortcutGenre(key)
        case Some(g) =>
          FilterByGenre(g);
          UpdateActiveMenuItem(g);
          handled := true;
        case None =>
      }
    }
  }
}
