/**
  The admin vocabulary page (app/admin-secure-dashboard-xyz123/words/page.tsx): the page
  count, the "showing start to end" numbers, the row range fetched, the row numbers, and
  the search and page handlers.
*/
module WordsPage {
  import opened Common

  const ItemsPerPage: nat := 10

  /** The count query: an error counts as 0, and so does a missing count. */
  datatype CountResult = CountOk(count: Option<nat>) | CountError

  function TotalCount(r: CountResult): nat
  {
    if r.CountError? then 0 else if r.count.Some? then r.count.value else 0
  }

  function TotalPages(totalCount: nat): (r: nat)
    ensures r * ItemsPerPage >= totalCount
    ensures r > 0 ==> (r - 1) * ItemsPerPage < totalCount
  {
    CeilDiv(totalCount, ItemsPerPage)
  }

  /** The first row number of a page is the first fetched row, counted from 1. */
  function StartItem(currentPage: int): (r: int)
    ensures r == FetchRange(currentPage).first + 1
    ensures currentPage >= 1 ==> r >= 1
  {
    (currentPage - 1) * ItemsPerPage + 1
  }

  /** The last row number of a page is never past the total nor past the last fetched
      row, counted from 1. */
  function EndItem(currentPage: int, totalCount: nat): (r: int)
    ensures r <= totalCount
    ensures r <= FetchRange(currentPage).last + 1
  {
    Min(currentPage * ItemsPerPage, totalCount)
  }

  /** The inclusive range of rows fetched for a page. */
  datatype RowRange = RowRange(first: int, last: int)

  function FetchRange(currentPage: int): (r: RowRange)
    ensures r.last - r.first + 1 == ItemsPerPage
  {
    RowRange((currentPage - 1) * ItemsPerPage, currentPage * ItemsPerPage - 1)
  }

  /** The number in the first column of the `index`-th row of the table. */
  function RowNumber(currentPage: int, index: nat): int
  {
    StartItem(currentPage) + index
  }

  /** On an existing page, "start to end" lies inside 1..totalCount, spans at most one
      page, and the last page ends exactly at the total. The row number of a fetched row is
      its 1-based position in the whole result, and the numbers of the rows the page can
      hold run from `startItem` to `endItem`. */
  lemma PageNumbersAgree(currentPage: int, totalCount: nat, index: nat)
    requires 1 <= currentPage <= TotalPages(totalCount)
    ensures 1 <= StartItem(currentPage) <= EndItem(currentPage, totalCount) <= totalCount
    ensures EndItem(currentPage, totalCount) - StartItem(currentPage) + 1 <= ItemsPerPage
    ensures currentPage == TotalPages(totalCount) ==> EndItem(currentPage, totalCount) == totalCount
    ensures currentPage < TotalPages(totalCount) ==>
              EndItem(currentPage, totalCount) - StartItem(currentPage) + 1 == ItemsPerPage
    ensures RowNumber(currentPage, index) == FetchRange(currentPage).first + index + 1
    ensures FetchRange(currentPage).first + index <= FetchRange(currentPage).last ==>
              StartItem(currentPage) <= RowNumber(currentPage, index) <= StartItem(currentPage) + ItemsPerPage - 1
  {
    var t := TotalPages(totalCount);
    assert currentPage < t ==> currentPage * ItemsPerPage <= (t - 1) * ItemsPerPage;
  }

  /** The pager is drawn only when there is more than one page, that is, more than ten
      words. */
  predicate PaginationShown(totalCount: nat)
  {
    TotalPages(totalCount) > 1
  }

  lemma PaginationShownIff(totalCount: nat)
    ensures PaginationShown(totalCount) <==> totalCount > ItemsPerPage
  {
  }

  class WordsPageState {
    var searchQuery: string
    var currentPage: int

    constructor()
      ensures searchQuery == "" && currentPage == 1
    {
      searchQuery := "";
      currentPage := 1;
    }

    /** `handleSearch`: a new query always starts again from the first page. */
    method HandleSearch(value: string)
      modifies this
      ensures searchQuery == value && currentPage == 1
    {
      searchQuery := value;
      currentPage := 1;
    }

    /** The pager's `onPageChange`. */
    method SetCurrentPage(page: int)
      modifies this`currentPage
      ensures currentPage == page
    {
      currentPage := page;
    }
  }
}
