/** The home page's list state (pages/HomePage.tsx): the category filter, the page of latest
    poems and the most-liked showcase. */
module HomePage {
  import opened Types
  import opened Listing

  class HomePage {
    var poems: seq<Poem>
    var categories: seq<string>
    var selectedCategory: string
    var currentPage: int
    var isLoading: bool

    /** The page is at least 1, and beyond page 1 only when that page exists; no control is shown
        while loading, so the page stays 1 until the data arrives. */
    ghost predicate Valid()
      reads this
    {
      && currentPage >= 1
      && (currentPage == 1 || currentPage <= TotalPages(|FilteredPoems(poems, selectedCategory)|))
      && (isLoading ==> currentPage == 1)
    }

    constructor ()
      ensures Valid()
      ensures poems == [] && categories == [] && selectedCategory == ALL && currentPage == 1 && isLoading
    {
      poems := [];
      categories := [];
      selectedCategory := ALL;
      currentPage := 1;
      isLoading := true;
    }

    /** The mount effect's result: the fetched poems and categories (each empty when its query failed). */
    method Loaded(poemsData: seq<Poem>, catsData: seq<string>)
      requires Valid() && isLoading
      modifies this
      ensures Valid()
      ensures poems == poemsData && categories == catsData && !isLoading
      ensures selectedCategory == old(selectedCategory) && currentPage == 1
    {
      poems := poemsData;
      categories := catsData;
      isLoading := false;
    }

    function Filtered(): seq<Poem>
      reads this
    {
      FilteredPoems(poems, selectedCategory)
    }

    function Pages(): nat
      reads this
    {
      TotalPages(|Filtered()|)
    }

    /** `currentLatestPoems`. */
    function CurrentLatestPoems(): seq<Poem>
      reads this
    {
      Page(Filtered(), currentPage)
    }

    /** `mostLikedPoems`: taken from every poem, whatever the filter. */
    function MostLikedPoems(): seq<Poem>
      reads this
    {
      MostLiked(poems)
    }

    predicate ShowsPagination()
      reads this
    {
      Pages() > 1
    }

    predicate ShowsMostLiked()
      reads this
    {
      |MostLikedPoems()| > 0 && selectedCategory == ALL
    }

    /** handlePageChange: moves to `newPage` only when it is between 1 and the page count.
        Its buttons are rendered only once loading is over. */
    method HandlePageChange(newPage: int)
      requires Valid() && !isLoading
      modifies this
      ensures Valid()
      ensures currentPage == if 1 <= newPage <= old(Pages()) then newPage else old(currentPage)
      ensures poems == old(poems) && categories == old(categories)
      ensures selectedCategory == old(selectedCategory) && isLoading == old(isLoading)
    {
      if newPage >= 1 && newPage <= Pages() {
        currentPage := newPage;
      }
    }

    /** A filter button, 'Tümü' included: selects the category and goes back to page 1. */
    method SelectCategory(category: string)
      requires Valid()
      modifies this
      ensures Valid()
      ensures selectedCategory == category && currentPage == 1
      ensures poems == old(poems) && categories == old(categories) && isLoading == old(isLoading)
    {
      selectedCategory := category;
      currentPage := 1;
    }
  }

  /** In any reachable state the shown page holds between one and four poems whenever the filter
      matches anything, and the most-liked showcase appears only with 'Tümü' selected and some poem. */
  lemma ShownPageIsFilled(page: HomePage)
    requires page.Valid()
    ensures |page.CurrentLatestPoems()| <= ITEMS_PER_PAGE
    ensures page.Filtered() != [] ==> page.CurrentLatestPoems() != []
    ensures page.ShowsMostLiked() ==> page.selectedCategory == ALL && page.poems != []
    ensures page.ShowsPagination() ==> |page.Filtered()| > ITEMS_PER_PAGE
  {
  }
}
