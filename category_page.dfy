/** The category page's list state (pages/CategoryPage.tsx): the poems of the route's category,
    four per page. */
module CategoryPage {
  import opened Types
  import opened Listing

  class CategoryPage {
    /** The fetched poems of the category. */
    var poems: seq<Poem>
    var currentPage: int
    var isLoading: bool

    ghost predicate Valid()
      reads this
    {
      currentPage >= 1 && (currentPage == 1 || currentPage <= TotalPages(|poems|))
    }

    constructor ()
      ensures Valid() && poems == [] && currentPage == 1 && isLoading
    {
      poems := [];
      currentPage := 1;
      isLoading := true;
    }

    /** The fetch effect for the route's `categoryName` (None when the route has none), with
        `allPoems` the reply of getPoems: keeps the poems of that category and resets the page. */
    method Fetch(categoryName: Option<string>, allPoems: seq<Poem>)
      requires Valid()
      modifies this
      ensures Valid() && !isLoading
      ensures categoryName.Some? && categoryName.value != "" ==>
                poems == InCategory(allPoems, categoryName.value) && currentPage == 1
      ensures categoryName.None? || categoryName.value == "" ==>
                poems == old(poems) && currentPage == old(currentPage)
    {
      isLoading := true;
      if categoryName.Some? && categoryName.value != "" {
        poems := InCategory(allPoems, categoryName.value);
        currentPage := 1;
      }
      isLoading := false;
    }

    function Pages(): nat
      reads this
    {
      TotalPages(|poems|)
    }

    /** `currentPoems`. */
    function CurrentPoems(): seq<Poem>
      reads this
    {
      Page(poems, currentPage)
    }

    /** handlePageChange: moves to `newPage` only when it is between 1 and the page count. */
    method HandlePageChange(newPage: int)
      requires Valid()
      modifies this
      ensures Valid()
      ensures currentPage == if 1 <= newPage <= old(Pages()) then newPage else old(currentPage)
      ensures poems == old(poems) && isLoading == old(isLoading)
    {
      if newPage >= 1 && newPage <= Pages() {
        currentPage := newPage;
      }
    }
  }

  /** After fetching a category, every listed poem belongs to it, and the pages, shown in turn,
      hold exactly those poems in fetched order, at most four at a time. */
  lemma FetchedCategoryIsPaged(allPoems: seq<Poem>, category: string, p: int)
    ensures var poems := InCategory(allPoems, category);
            && (forall q :: q in poems ==> q.category == category)
            && PagesUpTo(poems, TotalPages(|poems|)) == poems
            && |Page(poems, p)| <= ITEMS_PER_PAGE
  {
    PagesPartition(InCategory(allPoems, category));
  }
}
