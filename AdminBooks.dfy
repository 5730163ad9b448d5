/**
  The admin book list (components/admin/books/admin-books-client.tsx): the four filters, the
  ten-per-page slice, the page numbers, the footer range, delete, the active/inactive
  switch and the language list of the filter menu.
*/
module AdminBooks {
  import opened Common

  datatype AdminBook = AdminBook(
    id: string,
    title: string,
    author: string,
    language: string,
    level: string,
    totalPages: int,
    readers: int,
    isActive: bool)

  const ItemsPerPage: nat := 10

  /** The test of the `filter` callback: search in title or author, and the language,
      level and status selects, each of which "all" switches off. */
  predicate Shown(searchQuery: string, language: string, level: string, status: string, b: AdminBook)
  {
    && (IncludesIgnoreCase(b.title, searchQuery) || IncludesIgnoreCase(b.author, searchQuery))
    && (language == "all" || b.language == language)
    && (level == "all" || b.level == level)
    && (status == "all" || (if status == "active" then b.isActive else !b.isActive))
  }

  function FilteredBooks(books: seq<AdminBook>, searchQuery: string, language: string, level: string, status: string)
    : (r: seq<AdminBook>)
    ensures |r| <= |books|
    ensures forall b :: b in r <==> b in books && Shown(searchQuery, language, level, status, b)
  {
    FilterMembers(books, b => Shown(searchQuery, language, level, status, b));
    Filter(books, b => Shown(searchQuery, language, level, status, b))
  }

  /** "active" lists only active books and "inactive" only inactive ones; with an empty
      search and every select on "all", the whole list is shown in its order. */
  lemma FilteredBooksStatus(books: seq<AdminBook>, searchQuery: string, language: string, level: string)
    ensures forall b :: b in FilteredBooks(books, searchQuery, language, level, "active") ==> b.isActive
    ensures forall b :: b in FilteredBooks(books, searchQuery, language, level, "inactive") ==> !b.isActive
    ensures FilteredBooks(books, "", "all", "all", "all") == books
  {
    forall b | b in books ensures Shown("", "all", "all", "all", b) {
      IncludesEmpty(LowerStr(b.title));
    }
    FilterAll(books, b => Shown("", "all", "all", "all", b));
  }

  /** `currentItems`: the slice from `currentPage * 10 - 10` to `currentPage * 10`. A
      page from the first on shows at most ten books, the filtered books from position
      `(p - 1) * 10` on. */
  function CurrentItems(filtered: seq<AdminBook>, currentPage: int): (r: seq<AdminBook>)
    ensures currentPage >= 1 ==> |r| <= ItemsPerPage
    ensures currentPage >= 1 ==> forall k :: 0 <= k < |r| ==>
      (currentPage - 1) * ItemsPerPage + k < |filtered| && r[k] == filtered[(currentPage - 1) * ItemsPerPage + k]
  {
    var indexOfLastItem := currentPage * ItemsPerPage;
    var indexOfFirstItem := indexOfLastItem - ItemsPerPage;
    assert indexOfFirstItem == (currentPage - 1) * ItemsPerPage;
    if currentPage >= 1 then
      PageSlice(filtered, currentPage, ItemsPerPage);
      JsSlice(filtered, indexOfFirstItem, indexOfLastItem)
    else
      JsSlice(filtered, indexOfFirstItem, indexOfLastItem)
  }

  /** A page that starts inside the list is full, or holds the rest of the list. */
  lemma CurrentItemsWindow(filtered: seq<AdminBook>, currentPage: int)
    requires currentPage >= 1
    ensures (currentPage - 1) * ItemsPerPage < |filtered| ==>
      |CurrentItems(filtered, currentPage)| == Min(ItemsPerPage, |filtered| - (currentPage - 1) * ItemsPerPage)
  {
    assert currentPage * ItemsPerPage - ItemsPerPage == (currentPage - 1) * ItemsPerPage;
    PageSlice(filtered, currentPage, ItemsPerPage);
  }

  /** Enough pages of ten for every filtered book, and no page left empty. */
  function TotalPages(filteredCount: nat): (n: nat)
    ensures n * ItemsPerPage >= filteredCount
    ensures n > 0 ==> (n - 1) * ItemsPerPage < filteredCount
  {
    CeilDiv(filteredCount, ItemsPerPage)
  }

  /** The page number buttons: 1 up to `totalPages`, pushed one by one. */
  method PageNumbers(totalPages: int) returns (pageNumbers: seq<int>)
    ensures |pageNumbers| == Max(totalPages, 0)
    ensures forall k :: 0 <= k < |pageNumbers| ==> pageNumbers[k] == k + 1
  {
    pageNumbers := [];
    var i := 1;
    while i <= totalPages
      invariant 1 <= i <= Max(totalPages, 0) + 1
      invariant |pageNumbers| == i - 1
      invariant forall k :: 0 <= k < |pageNumbers| ==> pageNumbers[k] == k + 1
    {
      pageNumbers := pageNumbers + [i];
      i := i + 1;
    }
  }

  /** The footer "showing first to last of count". */
  datatype Footer = Footer(first: int, last: int, count: nat)

  function FooterFor(currentPage: int, filteredCount: nat): Footer
  {
    var indexOfLastItem := currentPage * ItemsPerPage;
    Footer(indexOfLastItem - ItemsPerPage + 1, Min(indexOfLastItem, filteredCount), filteredCount)
  }

  /** On an existing page the footer names exactly the books of that page: it counts as
      many books as `CurrentItems` holds and never goes past the last one. */
  lemma FooterMatchesPage(filtered: seq<AdminBook>, currentPage: int)
    requires 1 <= currentPage <= TotalPages(|filtered|)
    ensures var f := FooterFor(currentPage, |filtered|);
      && 1 <= f.first <= f.last <= |filtered|
      && f.last - f.first + 1 == |CurrentItems(filtered, currentPage)|
  {
    CurrentItemsWindow(filtered, currentPage);
    assert (currentPage - 1) * ItemsPerPage < |filtered|;
  }

  function BookId(b: AdminBook): string { b.id }

  /** `books.map(...)`: the books with that id get `isActive := status`. */
  function WithStatus(books: seq<AdminBook>, id: string, status: bool): (r: seq<AdminBook>)
    ensures |r| == |books|
    ensures forall k :: 0 <= k < |books| ==>
              r[k] == if books[k].id == id then books[k].(isActive := status) else books[k]
  {
    seq(|books|, k requires 0 <= k < |books| =>
      if books[k].id == id then books[k].(isActive := status) else books[k])
  }

  /** Switching a book's status and switching it back restores the list. */
  lemma ToggleTwice(books: seq<AdminBook>, id: string, currentStatus: bool)
    requires forall k :: 0 <= k < |books| && books[k].id == id ==> books[k].isActive == currentStatus
    ensures WithStatus(WithStatus(books, id, !currentStatus), id, currentStatus) == books
  {
  }

  /** `Array.from(new Set(books.map(b => b.language)))`. */
  function UniqueLanguages(books: seq<AdminBook>): (r: seq<string>)
    ensures forall k :: 0 <= k < |books| ==> books[k].language in r
    ensures forall x :: x in r ==> exists k :: 0 <= k < |books| && books[k].language == x
    ensures forall i, j :: 0 <= i < j < |r| ==> r[i] != r[j]
  {
    var languages := seq(|books|, k requires 0 <= k < |books| => books[k].language);
    assert forall k :: 0 <= k < |books| ==> languages[k] == books[k].language;
    Distinct(languages)
  }

  class AdminBooksView {
    var books: seq<AdminBook>
    var currentPage: int
    var isDeleting: bool
    var bookToDelete: Option<AdminBook>

    constructor(initialBooks: seq<AdminBook>)
      ensures books == initialBooks && currentPage == 1 && !isDeleting && bookToDelete.None?
    {
      books := initialBooks;
      currentPage := 1;
      isDeleting := false;
      bookToDelete := None;
    }

    /** `paginate`. */
    method Paginate(pageNumber: int)
      modifies this`currentPage
      ensures currentPage == pageNumber
    {
      currentPage := pageNumber;
    }

    /** `handleDeleteBook`, with the outcome of the database delete as `deleted`. Without
        a book picked nothing happens; otherwise a successful delete drops that id and
        the dialog closes either way. */
    method HandleDeleteBook(deleted: bool)
      modifies this`books, this`isDeleting, this`bookToDelete
      ensures old(bookToDelete).None? ==> books == old(books) && bookToDelete.None? && isDeleting == old(isDeleting)
      ensures old(bookToDelete).Some? ==>
                && books == (if deleted then RemoveKey(old(books), BookId, old(bookToDelete).value.id) else old(books))
                && bookToDelete.None? && !isDeleting
    {
      if bookToDelete.None? {
        return;
      }
      isDeleting := true;
      if deleted {
        books := RemoveKey(books, BookId, bookToDelete.value.id);
      }
      isDeleting := false;
      bookToDelete := None;
    }

    /** `toggleBookStatus`, with the outcome of the database update as `updated`. */
    method ToggleBookStatus(id: string, currentStatus: bool, updated: bool)
      modifies this`books
      ensures books == if updated then WithStatus(old(books), id, !currentStatus) else old(books)
    {
      if updated {
        books := WithStatus(books, id, !currentStatus);
      }
    }
  }
}
