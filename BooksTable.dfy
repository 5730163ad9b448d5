/**
  The admin books table with level and premium filters
  (components/admin/books/books-table.tsx): the filter and the delete handler.
*/
module BooksTable {
  import opened Common

  datatype TableBook = TableBook(
    id: string,
    title: string,
    author: string,
    language: string,
    level: string,
    totalPages: int,
    isPremium: bool,
    createdAt: string)

  predicate MatchesSearch(searchTerm: string, b: TableBook)
  {
    IncludesIgnoreCase(b.title, searchTerm) || IncludesIgnoreCase(b.author, searchTerm)
  }

  /** A missing or empty level filter lets every book through (both are falsy). */
  predicate MatchesLevel(filterLevel: Option<string>, b: TableBook)
  {
    if filterLevel.Some? && filterLevel.value != "" then b.level == filterLevel.value else true
  }

  predicate MatchesPremium(filterPremium: Option<bool>, b: TableBook)
  {
    if filterPremium.Some? then b.isPremium == filterPremium.value else true
  }

  predicate Shown(searchTerm: string, filterLevel: Option<string>, filterPremium: Option<bool>, b: TableBook)
  {
    MatchesSearch(searchTerm, b) && MatchesLevel(filterLevel, b) && MatchesPremium(filterPremium, b)
  }

  /** `filteredBooks`: the books that pass all three tests, in list order. */
  function FilteredBooks(books: seq<TableBook>, searchTerm: string, filterLevel: Option<string>, filterPremium: Option<bool>)
    : (r: seq<TableBook>)
    ensures |r| <= |books|
    ensures forall b :: b in r <==> b in books && Shown(searchTerm, filterLevel, filterPremium, b)
  {
    FilterMembers(books, b => Shown(searchTerm, filterLevel, filterPremium, b));
    Filter(books, b => Shown(searchTerm, filterLevel, filterPremium, b))
  }

  /** Without a search term and with both filters unset every book is shown; a set level
      or premium filter keeps only books with that level or premium flag. */
  lemma FilteredBooksFilters(books: seq<TableBook>, searchTerm: string, filterLevel: Option<string>, filterPremium: Option<bool>)
    ensures FilteredBooks(books, "", None, None) == books
    ensures filterLevel.Some? && filterLevel.value != "" ==>
              forall b :: b in FilteredBooks(books, searchTerm, filterLevel, filterPremium) ==> b.level == filterLevel.value
    ensures filterPremium.Some? ==>
              forall b :: b in FilteredBooks(books, searchTerm, filterLevel, filterPremium) ==> b.isPremium == filterPremium.value
  {
    forall b | b in books ensures Shown("", None, None, b) {
      IncludesEmpty(LowerStr(b.title));
    }
    FilterAll(books, b => Shown("", None, None, b));
  }

  function BookId(b: TableBook): string { b.id }

  class BooksTableView {
    var books: seq<TableBook>
    var isDeleteDialogOpen: bool
    var bookToDelete: Option<TableBook>
    var isLoading: bool

    constructor(initialBooks: seq<TableBook>)
      ensures books == initialBooks && !isDeleteDialogOpen && bookToDelete.None? && !isLoading
    {
      books := initialBooks;
      isDeleteDialogOpen := false;
      bookToDelete := None;
      isLoading := false;
    }

    /** `handleDeleteBook`, with the outcome of the database delete as `deleted`. Without
        a picked book nothing happens. A successful delete removes that id and closes the
        dialog; a failed one leaves the list and the dialog as they were. */
    method HandleDeleteBook(deleted: bool)
      modifies this`books, this`isDeleteDialogOpen, this`bookToDelete, this`isLoading
      ensures old(bookToDelete).None? ==>
                books == old(books) && bookToDelete.None? &&
                isDeleteDialogOpen == old(isDeleteDialogOpen) && isLoading == old(isLoading)
      ensures old(bookToDelete).Some? && deleted ==>
                books == RemoveKey(old(books), BookId, old(bookToDelete).value.id) &&
                !isDeleteDialogOpen && bookToDelete.None? && !isLoading
      ensures old(bookToDelete).Some? && !deleted ==>
                books == old(books) && isDeleteDialogOpen == old(isDeleteDialogOpen) &&
                bookToDelete == old(bookToDelete) && !isLoading
    {
      if bookToDelete.None? {
        return;
      }
      isLoading := true;
      if deleted {
        books := RemoveKey(books, BookId, bookToDelete.value.id);
        isDeleteDialogOpen := false;
        bookToDelete := None;
      }
      isLoading := false;
    }
  }
}
