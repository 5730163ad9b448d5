/**
  The searchable admin books table (components/admin/books/BooksTableClient.tsx): the search
  filter and the delete handler.
*/
module BooksTableClient {
  import opened Common

  datatype ClientBook = ClientBook(
    id: string,
    title: string,
    author: string,
    language: string,
    level: string,
    totalPages: int,
    isPremium: bool)

  predicate MatchesSearch(searchQuery: string, b: ClientBook)
  {
    IncludesIgnoreCase(b.title, searchQuery) || IncludesIgnoreCase(b.author, searchQuery)
  }

  /** `filteredBooks`: a book is listed exactly when its title or author contains the
      query, ignoring case. */
  function FilteredBooks(books: seq<ClientBook>, searchQuery: string): (r: seq<ClientBook>)
    ensures |r| <= |books|
    ensures forall b :: b in r <==> b in books && MatchesSearch(searchQuery, b)
  {
    FilterMembers(books, b => MatchesSearch(searchQuery, b));
    Filter(books, b => MatchesSearch(searchQuery, b))
  }

  /** An empty query lists every book, in order. */
  lemma EmptyQueryListsAll(books: seq<ClientBook>)
    ensures FilteredBooks(books, "") == books
  {
    forall b | b in books ensures MatchesSearch("", b) {
      IncludesEmpty(LowerStr(b.title));
    }
    FilterAll(books, b => MatchesSearch("", b));
  }

  /** The query is compared without regard to case: upper-casing letters of the query
      does not change what is listed. */
  lemma QueryCaseIgnored(books: seq<ClientBook>, q1: string, q2: string)
    requires LowerStr(q1) == LowerStr(q2)
    ensures FilteredBooks(books, q1) == FilteredBooks(books, q2)
  {
    FilterSame(books, b => MatchesSearch(q1, b), b => MatchesSearch(q2, b));
  }

  function BookId(b: ClientBook): string { b.id }

  class BooksTableClientView {
    var books: seq<ClientBook>
    var isDeleteDialogOpen: bool
    var bookToDelete: Option<string>
    var isLoading: bool

    constructor(initialBooks: seq<ClientBook>)
      ensures books == initialBooks && !isDeleteDialogOpen && bookToDelete.None? && !isLoading
    {
      books := initialBooks;
      isDeleteDialogOpen := false;
      bookToDelete := None;
      isLoading := false;
    }

    /** `deleteBook`, with the outcome of the database delete as `deleted`: only a
        successful delete changes the list, and either way the dialog closes and the
        pending id is cleared. */
    method DeleteBook(id: string, deleted: bool)
      modifies this`books, this`isDeleteDialogOpen, this`bookToDelete, this`isLoading
      ensures books == if deleted then RemoveKey(old(books), BookId, id) else old(books)
      ensures !isLoading && !isDeleteDialogOpen && bookToDelete.None?
    {
      isLoading := true;
      if deleted {
        books := RemoveKey(books, BookId, id);
      }
      isLoading := false;
      isDeleteDialogOpen := false;
      bookToDelete := None;
    }
  }
}
