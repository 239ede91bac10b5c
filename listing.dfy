/**
 * The listing side of the page: the URL `renderCards` fetches, the tab strip
 * and autocomplete data `renderCategories` builds from the fetched
 * categories, and the filter a click on a tab asks for.
 */
module Listing {
  import opened Optional

  const ServerUrl := "http://localhost:3001"
  const ListUrlBase := ServerUrl + "/website/list"
  const CategoriesUrl := ServerUrl + "/website/categories"
  const FilterQuery := "?category="

  /** The text of the unfiltered tab, and the category sent when none is typed. */
  const AllCategory := "Todas"

  /**
   * A category as the server returns it: its `_id` and its `name`. A missing
   * `_id` reads as "", which `renderTab` treats as no id; `name` is taken to
   * be present, since a missing one would be shown as the text "undefined".
   */
  datatype Category = Category(id: string, name: string)

  /** A tab link: its text and its `href` attribute. */
  datatype Tab = Tab(text: string, href: string)

  // ---------------------------------------------------------------------------
  // renderCards: the list URL
  // ---------------------------------------------------------------------------

  /** The URL `renderCards(category)` fetches; "" stands for a missing category. */
  function ListUrl(category: string): (url: string)
    ensures ListUrlBase <= url
    ensures url == ListUrlBase <==> category == ""
  {
    if category != "" then ListUrlBase + FilterQuery + category else ListUrlBase
  }

  /** The category a list URL filters by, "" for the unfiltered list. */
  function FilterOf(url: string): string {
    var prefix := ListUrlBase + FilterQuery;
    if prefix <= url then url[|prefix|..] else ""
  }

  /** The list URL carries its category and nothing else, so distinct categories give distinct URLs. */
  lemma ListUrlRoundTrip(category: string)
    ensures FilterOf(ListUrl(category)) == category
  {
  }

  // ---------------------------------------------------------------------------
  // renderTab and the tab click handler
  // ---------------------------------------------------------------------------

  /** The `href` `renderTab` gives a link: "#" and the id, or "#" alone when there is no id. */
  function TabHref(id: string): (href: string)
    ensures |href| >= 1 && href[0] == '#'
  {
    if id != "" then "#" + id else "#"
  }

  /** `getAttribute("href").substring(1)`: the href without its first character ("" stays ""). */
  function HrefFilter(href: string): (category: string)
    ensures href != "" ==> href == [href[0]] + category
    ensures href == "" ==> category == ""
  {
    if href == "" then "" else href[1..]
  }

  /** Reading the filter back from a tab's href gives the id it was built from. */
  lemma HrefFilterOfTabHref(id: string)
    ensures HrefFilter(TabHref(id)) == id
  {
  }

  /** The list URL a click on a link with this `href` fetches: a filter when one is left after the "#". */
  function TabClickUrl(href: string): (url: string)
    ensures FilterOf(url) == HrefFilter(href)
  {
    ListUrlRoundTrip(HrefFilter(href));
    ListUrl(HrefFilter(href))
  }

  /** The tab `renderTab(category.name, category._id)` adds. */
  function TabOf(c: Category): Tab {
    Tab(c.name, TabHref(c.id))
  }

  /** The tab `renderTab("Todas")` adds first. */
  function AllTab(): Tab {
    Tab(AllCategory, TabHref(""))
  }

  /** Clicking a category's tab lists that category's `_id`, not its name; clicking "Todas" lists everything. */
  lemma TabClickFiltersById(c: Category)
    ensures TabClickUrl(TabOf(c).href) == ListUrl(c.id)
    ensures TabClickUrl(AllTab().href) == ListUrlBase
  {
  }

  // ---------------------------------------------------------------------------
  // getCategories and renderCategories
  // ---------------------------------------------------------------------------

  /** `data.categories || []`: a missing field reads as no categories. */
  function CategoriesOrEmpty(field: Option<seq<Category>>): (categories: seq<Category>)
    ensures field.None? ==> categories == []
    ensures field.Some? ==> categories == field.value
  {
    if field.Some? then field.value else []
  }

  /**
   * `renderCategories` once `getCategories` has resolved with the response's
   * `categories` field: the autocomplete keys and the tab strip.
   *
   * The source skips a category already in `retrievedCategories`, compared
   * with `indexOf`, that is, by reference. Every element of a parsed JSON
   * array is a distinct object, so a category's identity is modelled by its
   * position, and the skip never happens: there is one tab per element, in
   * order, duplicates by value included.
   */
  method RenderCategories(field: Option<seq<Category>>) returns (suggestions: set<string>, tabs: seq<Tab>)
    ensures suggestions == set c | c in CategoriesOrEmpty(field) :: c.name
    ensures |tabs| == |CategoriesOrEmpty(field)| + 1 && tabs[0] == AllTab()
    ensures forall k :: 0 <= k < |CategoriesOrEmpty(field)| ==> tabs[k + 1] == TabOf(CategoriesOrEmpty(field)[k])
    ensures field.None? ==> tabs == [AllTab()] && suggestions == {}
  {
    var categories := CategoriesOrEmpty(field);
    suggestions := {};
    for i := 0 to |categories|
      invariant suggestions == set c | c in categories[..i] :: c.name
    {
      assert categories[..i + 1] == categories[..i] + [categories[i]];
      suggestions := suggestions + {categories[i].name};
    }
    assert categories[..|categories|] == categories;

    var retrieved: seq<nat> := [];
    tabs := [AllTab()];
    for i := 0 to |categories|
      invariant forall r :: r in retrieved ==> r < i
      invariant |tabs| == i + 1 && tabs[0] == AllTab()
      invariant forall k :: 0 <= k < i ==> tabs[k + 1] == TabOf(categories[k])
    {
      if i in retrieved {
        assert false;
      }
      retrieved := retrieved + [i];
      tabs := tabs + [TabOf(categories[i])];
    }
  }
}
