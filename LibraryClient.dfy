/**
  The public library page (components/library/library-client.tsx): filtering, sorting and
  paging the catalogue, the active-filter badges, the page buttons, and the handlers that
  change the page or clear the filters.
*/
module LibraryClient {
  import opened Common

  /** A catalogue entry; `createdAt` is the creation time as a timestamp. */
  datatype Book = Book(
    id: string,
    title: string,
    author: string,
    language: string,
    level: string,
    totalPages: int,
    isPremium: bool,
    categoryId: Option<string>,
    createdAt: int)

  datatype Category = Category(id: string, name: string, slug: string)

  datatype UserProgress = UserProgress(bookId: string, currentPage: int)

  /** The filter state of the page: the search box, the four selects, the sort order and
      the two toggles. */
  datatype Criteria = Criteria(
    searchQuery: string,
    category: string,
    level: string,
    language: string,
    bookType: string,
    sortBy: string,
    onlyReading: bool,
    onlyBookmarked: bool)

  const BooksPerPage: nat := 20

  /** The state `clearAllFilters` puts back. */
  const Cleared := Criteria("", "all", "all", "all", "all", "newest", false, false)

  // ---------------------------------------------------------------------------
  // the criteria, one by one

  predicate MatchesSearch(q: string, b: Book)
  {
    q == "" || IncludesIgnoreCase(b.title, q) || IncludesIgnoreCase(b.author, q)
  }

  predicate MatchesCategory(category: string, b: Book)
  {
    category == "all" || b.categoryId == Some(category)
  }

  predicate MatchesLevel(level: string, b: Book)
  {
    level == "all" || b.level == level
  }

  predicate MatchesLanguage(language: string, b: Book)
  {
    language == "all" || b.language == language
  }

  /** "free" keeps the books that are not premium; any other value but "all" keeps the
      premium ones. */
  predicate MatchesType(bookType: string, b: Book)
  {
    bookType == "all" || (if bookType == "free" then !b.isPremium else b.isPremium)
  }

  function ReadingIds(progress: seq<UserProgress>): (ids: seq<string>)
    ensures |ids| == |progress|
    ensures forall k :: 0 <= k < |progress| ==> ids[k] == progress[k].bookId
  {
    seq(|progress|, k requires 0 <= k < |progress| => progress[k].bookId)
  }

  predicate MatchesReading(onlyReading: bool, progress: seq<UserProgress>, b: Book)
  {
    !onlyReading || b.id in ReadingIds(progress)
  }

  predicate MatchesBookmarked(onlyBookmarked: bool, bookmarks: seq<string>, b: Book)
  {
    !onlyBookmarked || b.id in bookmarks
  }

  /** A book is listed exactly when it passes every criterion. */
  predicate Matches(c: Criteria, progress: seq<UserProgress>, bookmarks: seq<string>, b: Book)
  {
    && MatchesSearch(c.searchQuery, b)
    && MatchesCategory(c.category, b)
    && MatchesLevel(c.level, b)
    && MatchesLanguage(c.language, b)
    && MatchesType(c.bookType, b)
    && MatchesReading(c.onlyReading, progress, b)
    && MatchesBookmarked(c.onlyBookmarked, bookmarks, b)
  }

  // ---------------------------------------------------------------------------
  // the sort orders; a book may precede another when the comparator is not positive

  predicate Newest(a: Book, b: Book) { a.createdAt >= b.createdAt }
  predicate Oldest(a: Book, b: Book) { a.createdAt <= b.createdAt }
  predicate ByTitle(a: Book, b: Book) { LexLe(a.title, b.title) }
  predicate ByAuthor(a: Book, b: Book) { LexLe(a.author, b.author) }

  /** The comparator of the `switch`; an unknown value sorts like "newest". */
  function Order(sortBy: string): (Book, Book) -> bool
  {
    if sortBy == "oldest" then Oldest
    else if sortBy == "title" then ByTitle
    else if sortBy == "author" then ByAuthor
    else Newest
  }

  lemma OrderIsPreorder(sortBy: string)
    ensures TotalPreorder(Order(sortBy))
  {
    forall a: Book, b: Book ensures LexLe(a.title, b.title) || LexLe(b.title, a.title) {
      LexLeTotal(a.title, b.title);
    }
    forall a: Book, b: Book ensures LexLe(a.author, b.author) || LexLe(b.author, a.author) {
      LexLeTotal(a.author, b.author);
    }
    forall a: Book, b: Book, c: Book | ByTitle(a, b) && ByTitle(b, c) ensures ByTitle(a, c) {
      LexLeTransitive(a.title, b.title, c.title);
    }
    forall a: Book, b: Book, c: Book | ByAuthor(a, b) && ByAuthor(b, c) ensures ByAuthor(a, c) {
      LexLeTransitive(a.author, b.author, c.author);
    }
  }

  /** The whole filtered and sorted catalogue, before paging: the catalogue's books
      that pass every criterion, and no others. */
  function Listed(books: seq<Book>, c: Criteria, progress: seq<UserProgress>, bookmarks: seq<string>): (r: seq<Book>)
    ensures forall b :: b in r <==> b in books && Matches(c, progress, bookmarks, b)
    ensures |r| <= |books|
  {
    var f := Filter(books, b => Matches(c, progress, bookmarks, b));
    FilterMembers(books, b => Matches(c, progress, bookmarks, b));
    var r := SortBy(f, Order(c.sortBy));
    assert forall b :: b in r <==> b in multiset(r);
    assert forall b :: b in f <==> b in multiset(f);
    r
  }

  /** The listed books are the passing books, each as often as in the catalogue, and the
      list is sorted by the chosen order with equal books kept in catalogue order. */
  lemma ListedProperties(books: seq<Book>, c: Criteria, progress: seq<UserProgress>, bookmarks: seq<string>)
    ensures var r := Listed(books, c, progress, bookmarks);
      && multiset(r) == multiset(Filter(books, b => Matches(c, progress, bookmarks, b)))
      && SortedBy(r, Order(c.sortBy))
      && (forall y :: TieClass(r, Order(c.sortBy), y) ==
                      TieClass(Filter(books, b => Matches(c, progress, bookmarks, b)), Order(c.sortBy), y))
  {
    var f := Filter(books, b => Matches(c, progress, bookmarks, b));
    var r := Listed(books, c, progress, bookmarks);
    FilterMembers(books, b => Matches(c, progress, bookmarks, b));
    OrderIsPreorder(c.sortBy);
    SortBySorted(f, Order(c.sortBy));
    forall y ensures TieClass(r, Order(c.sortBy), y) == TieClass(f, Order(c.sortBy), y) {
      SortByStable(f, Order(c.sortBy), y);
    }
  }

  /** "newest" puts later books first and "oldest" earlier books first. */
  lemma ListedByDate(books: seq<Book>, c: Criteria, progress: seq<UserProgress>, bookmarks: seq<string>)
    ensures var r := Listed(books, c, progress, bookmarks);
      && (c.sortBy == "oldest" ==> forall i, j :: 0 <= i < j < |r| ==> r[i].createdAt <= r[j].createdAt)
      && (c.sortBy !in {"oldest", "title", "author"} ==>
            forall i, j :: 0 <= i < j < |r| ==> r[i].createdAt >= r[j].createdAt)
  {
    ListedProperties(books, c, progress, bookmarks);
  }

  /** With every criterion off, the whole catalogue is listed, newest first. */
  lemma ClearedListsAll(books: seq<Book>, progress: seq<UserProgress>, bookmarks: seq<string>)
    ensures Listed(books, Cleared, progress, bookmarks) == SortBy(books, Newest)
  {
    var p := (b: Book) => Matches(Cleared, progress, bookmarks, b);
    ClearedMatchesAll(progress, bookmarks);
    FilterAll(books, p);
    assert Order(Cleared.sortBy) == Newest;
  }

  lemma ClearedMatchesAll(progress: seq<UserProgress>, bookmarks: seq<string>)
    ensures forall b :: Matches(Cleared, progress, bookmarks, b)
  {
  }

  /** Criterion `k` of the filter effect, in the order the effect applies them. */
  predicate Criterion(k: nat, c: Criteria, progress: seq<UserProgress>, bookmarks: seq<string>, b: Book)
  {
    match k
    case 0 => MatchesSearch(c.searchQuery, b)
    case 1 => MatchesCategory(c.category, b)
    case 2 => MatchesLevel(c.level, b)
    case 3 => MatchesLanguage(c.language, b)
    case 4 => MatchesType(c.bookType, b)
    case 5 => MatchesReading(c.onlyReading, progress, b)
    case 6 => MatchesBookmarked(c.onlyBookmarked, bookmarks, b)
    case _ => true
  }

  /** Passing the first `k` criteria. */
  predicate UpTo(k: nat, c: Criteria, progress: seq<UserProgress>, bookmarks: seq<string>, b: Book)
  {
    k == 0 || (UpTo(k - 1, c, progress, bookmarks, b) && Criterion(k - 1, c, progress, bookmarks, b))
  }

  function Stage(k: nat, c: Criteria, progress: seq<UserProgress>, bookmarks: seq<string>): Book -> bool
  {
    b => UpTo(k, c, progress, bookmarks, b)
  }

  /** The test of criterion `k` as the callback handed to `filter`. */
  function Test(k: nat, c: Criteria, progress: seq<UserProgress>, bookmarks: seq<string>): Book -> bool
  {
    b => Criterion(k, c, progress, bookmarks, b)
  }

  /** Whether the filter effect applies criterion `k`: a non-empty search, a choice
      other than "all", a switched-on toggle. */
  predicate Active(k: nat, c: Criteria)
  {
    match k
    case 0 => c.searchQuery != ""
    case 1 => c.category != "all"
    case 2 => c.level != "all"
    case 3 => c.language != "all"
    case 4 => c.bookType != "all"
    case 5 => c.onlyReading
    case 6 => c.onlyBookmarked
    case _ => false
  }

  /** A criterion the effect skips lets every book through. */
  lemma InactivePasses(k: nat, c: Criteria, progress: seq<UserProgress>, bookmarks: seq<string>)
    requires !Active(k, c)
    ensures forall b :: Criterion(k, c, progress, bookmarks, b)
  {
  }

  /** One narrowing step of the filter effect: when the criterion is active, keep the
      books that pass its test; otherwise leave the list alone. */
  method NarrowBy(books: seq<Book>, filtered: seq<Book>, k: nat, c: Criteria,
                  progress: seq<UserProgress>, bookmarks: seq<string>, active: bool)
    returns (r: seq<Book>)
    requires filtered == Filter(books, Stage(k, c, progress, bookmarks))
    requires active == Active(k, c)
    ensures r == Filter(books, Stage(k + 1, c, progress, bookmarks))
  {
    if active {
      FilterFilter(books, Stage(k, c, progress, bookmarks), Test(k, c, progress, bookmarks), Stage(k + 1, c, progress, bookmarks));
      r := Filter(filtered, Test(k, c, progress, bookmarks));
    } else {
      InactivePasses(k, c, progress, bookmarks);
      FilterSame(books, Stage(k, c, progress, bookmarks), Stage(k + 1, c, progress, bookmarks));
      r := filtered;
    }
  }

  lemma AllStages(books: seq<Book>, c: Criteria, progress: seq<UserProgress>, bookmarks: seq<string>)
    ensures Filter(books, Stage(7, c, progress, bookmarks)) == Filter(books, b => Matches(c, progress, bookmarks, b))
  {
    forall b ensures UpTo(7, c, progress, bookmarks, b) == Matches(c, progress, bookmarks, b) {
      assert UpTo(1, c, progress, bookmarks, b) == Criterion(0, c, progress, bookmarks, b);
      assert UpTo(3, c, progress, bookmarks, b) ==
             (UpTo(1, c, progress, bookmarks, b) && Criterion(1, c, progress, bookmarks, b) && Criterion(2, c, progress, bookmarks, b));
      assert UpTo(5, c, progress, bookmarks, b) ==
             (UpTo(3, c, progress, bookmarks, b) && Criterion(3, c, progress, bookmarks, b) && Criterion(4, c, progress, bookmarks, b));
      assert UpTo(7, c, progress, bookmarks, b) ==
             (UpTo(5, c, progress, bookmarks, b) && Criterion(5, c, progress, bookmarks, b) && Criterion(6, c, progress, bookmarks, b));
    }
    FilterSame(books, Stage(7, c, progress, bookmarks), b => Matches(c, progress, bookmarks, b));
  }

  /** The narrowing steps of the filter effect, one criterion after the other; a criterion
      left at "all" or off is skipped. Together they keep exactly the matching books. */
  method Narrow(books: seq<Book>, c: Criteria, progress: seq<UserProgress>, bookmarks: seq<string>)
    returns (filtered: seq<Book>)
    ensures filtered == Filter(books, b => Matches(c, progress, bookmarks, b))
  {
    filtered := books;
    FilterAll(books, Stage(0, c, progress, bookmarks));
    filtered := NarrowBy(books, filtered, 0, c, progress, bookmarks, c.searchQuery != "");
    filtered := NarrowBySelects(books, filtered, c, progress, bookmarks);
    filtered := NarrowByToggles(books, filtered, c, progress, bookmarks);
    AllStages(books, c, progress, bookmarks);
  }

  /** The steps of the four select boxes: category, level, language and type. */
  method NarrowBySelects(books: seq<Book>, filtered: seq<Book>, c: Criteria,
                         progress: seq<UserProgress>, bookmarks: seq<string>)
    returns (r: seq<Book>)
    requires filtered == Filter(books, Stage(1, c, progress, bookmarks))
    ensures r == Filter(books, Stage(5, c, progress, bookmarks))
  {
    r := NarrowBy(books, filtered, 1, c, progress, bookmarks, c.category != "all");
    r := NarrowBy(books, r, 2, c, progress, bookmarks, c.level != "all");
    r := NarrowBy(books, r, 3, c, progress, bookmarks, c.language != "all");
    r := NarrowBy(books, r, 4, c, progress, bookmarks, c.bookType != "all");
  }

  /** The steps of the two switches: books being read and bookmarked books. */
  method NarrowByToggles(books: seq<Book>, filtered: seq<Book>, c: Criteria,
                         progress: seq<UserProgress>, bookmarks: seq<string>)
    returns (r: seq<Book>)
    requires filtered == Filter(books, Stage(5, c, progress, bookmarks))
    ensures r == Filter(books, Stage(7, c, progress, bookmarks))
  {
    r := NarrowBy(books, filtered, 5, c, progress, bookmarks, c.onlyReading);
    r := NarrowBy(books, r, 6, c, progress, bookmarks, c.onlyBookmarked);
  }

  // ---------------------------------------------------------------------------
  // badges

  function LevelLabel(level: string): string
  {
    if level == "beginner" then "مبتدی"
    else if level == "intermediate" then "متوسط"
    else "پیشرفته"
  }

  function LanguageLabel(language: string): string
  {
    if language == "en" then "انگلیسی"
    else if language == "fr" then "فرانسوی"
    else if language == "de" then "آلمانی"
    else if language == "es" then "اسپانیایی"
    else language
  }

  /** `categories.find`: the first category with that id. */
  function FindCategory(categories: seq<Category>, id: string): (r: Option<Category>)
    ensures r.None? <==> forall k :: 0 <= k < |categories| ==> categories[k].id != id
    ensures r.Some? ==> r.value in categories && r.value.id == id
    ensures r.Some? ==> exists k :: 0 <= k < |categories| && categories[k] == r.value &&
                                    forall j :: 0 <= j < k ==> categories[j].id != id
  {
    if categories == [] then None
    else if categories[0].id == id then Some(categories[0])
    else
      var r := FindCategory(categories[1..], id);
      if r.Some? then
        var k :| 0 <= k < |categories[1..]| && categories[1..][k] == r.value &&
                 forall j :: 0 <= j < k ==> categories[1..][j].id != id;
        assert categories[k + 1] == r.value;
        r
      else r
  }

  /** The badge of the select boxes' choices: the category's name when the id names a
      category, then the level, language and type labels of those not at "all". */
  function SelectedBadges(c: Criteria, categories: seq<Category>): seq<string>
  {
    (if c.category != "all" && FindCategory(categories, c.category).Some?
     then [FindCategory(categories, c.category).value.name] else [])
    + (if c.level != "all" then [LevelLabel(c.level)] else [])
    + (if c.language != "all" then [LanguageLabel(c.language)] else [])
    + (if c.bookType != "all" then [if c.bookType == "free" then "رایگان" else "ویژه"] else [])
  }

  /** The badges of the two switches that are on, reading before bookmarked. */
  function SwitchBadges(c: Criteria): seq<string>
  {
    (if c.onlyReading then ["در حال مطالعه"] else [])
    + (if c.onlyBookmarked then ["نشانک‌گذاری شده"] else [])
  }

  /** The badges of the active filters, in the order category, level, language, type,
      reading, bookmarked. */
  function Badges(c: Criteria, categories: seq<Category>): seq<string>
  {
    SelectedBadges(c, categories) + SwitchBadges(c)
  }

  /** At most one badge per filter; none exactly when no filter is active (a category id
      that names no category shows none); the category comes first and the bookmarked
      switch last; each chosen level and language shows its label. */
  lemma BadgesProperties(c: Criteria, categories: seq<Category>)
    ensures var r := Badges(c, categories);
      && |r| <= 6
      && (r == [] <==>
            && (c.category == "all" || FindCategory(categories, c.category).None?)
            && c.level == "all" && c.language == "all" && c.bookType == "all"
            && !c.onlyReading && !c.onlyBookmarked)
      && (c.category != "all" && FindCategory(categories, c.category).Some? ==>
            r[0] == FindCategory(categories, c.category).value.name)
      && (c.onlyBookmarked ==> r[|r| - 1] == "نشانک‌گذاری شده")
      && (c.level != "all" ==> LevelLabel(c.level) in r)
      && (c.language != "all" ==> LanguageLabel(c.language) in r)
  {
    var sel, sw := SelectedBadges(c, categories), SwitchBadges(c);
    assert c.level != "all" ==> LevelLabel(c.level) in sel;
    assert c.language != "all" ==> LanguageLabel(c.language) in sel;
  }

  /** The badge pushes of the filter effect. */
  method ActiveFilters(c: Criteria, categories: seq<Category>) returns (filters: seq<string>)
    ensures filters == Badges(c, categories)
  {
    filters := SelectBadges(c, categories);
    var toggles := ToggleBadges(c);
    filters := filters + toggles;
  }

  /** The pushes of the four select boxes. */
  method SelectBadges(c: Criteria, categories: seq<Category>) returns (filters: seq<string>)
    ensures filters == SelectedBadges(c, categories)
  {
    filters := [];
    if c.category != "all" {
      var category := FindCategory(categories, c.category);
      if category.Some? {
        filters := filters + [category.value.name];
      }
    }
    if c.level != "all" {
      filters := filters + [LevelLabel(c.level)];
    }
    if c.language != "all" {
      filters := filters + [LanguageLabel(c.language)];
    }
    if c.bookType != "all" {
      filters := filters + [if c.bookType == "free" then "رایگان" else "ویژه"];
    }
  }

  /** The pushes of the two switches. */
  method ToggleBadges(c: Criteria) returns (filters: seq<string>)
    ensures filters == SwitchBadges(c)
  {
    filters := [];
    if c.onlyReading {
      filters := filters + ["در حال مطالعه"];
    }
    if c.onlyBookmarked {
      filters := filters + ["نشانک‌گذاری شده"];
    }
  }

  // ---------------------------------------------------------------------------
  // lookups and page buttons

  /** `getBookProgress`: the page of the first progress record of the book, 0 without one. */
  function BookProgress(progress: seq<UserProgress>, bookId: string): (r: int)
    ensures (forall k :: 0 <= k < |progress| ==> progress[k].bookId != bookId) ==> r == 0
    ensures forall k :: 0 <= k < |progress| && progress[k].bookId == bookId &&
                        (forall j :: 0 <= j < k ==> progress[j].bookId != bookId) ==>
                        r == progress[k].currentPage
  {
    if progress == [] then 0
    else if progress[0].bookId == bookId then progress[0].currentPage
    else
      var r := BookProgress(progress[1..], bookId);
      assert forall k :: 1 <= k < |progress| ==> progress[k] == progress[1..][k - 1];
      r
  }

  predicate IsBookmarked(bookmarks: seq<string>, bookId: string)
  {
    bookId in bookmarks
  }

  datatype PageButton = Button | Ellipsis | Hidden

  /** What the pager renders for `page`: a button for the first, the last and the pages
      next to the current one; "..." two pages away when the current page is far enough
      from the ends. */
  function ButtonFor(page: int, currentPage: int, totalPages: int): (r: PageButton)
    ensures r == Button <==> page == 1 || page == totalPages || (currentPage - 1 <= page <= currentPage + 1)
    ensures r == Ellipsis <==>
              r != Button &&
              ((page == currentPage - 2 && currentPage > 3) || (page == currentPage + 2 && currentPage < totalPages - 2))
  {
    if page == 1 || page == totalPages || (page >= currentPage - 1 && page <= currentPage + 1) then Button
    else if (page == currentPage - 2 && currentPage > 3) || (page == currentPage + 2 && currentPage < totalPages - 2) then Ellipsis
    else Hidden
  }

  /** An ellipsis never takes the place of the first or last page, and it always sits
      between a button next to the current page and the rest of the pager. */
  lemma EllipsisBetweenButtons(page: int, currentPage: int, totalPages: int)
    requires 1 <= currentPage <= totalPages
    requires ButtonFor(page, currentPage, totalPages) == Ellipsis
    ensures 1 < page < totalPages
    ensures page < currentPage ==> ButtonFor(page + 1, currentPage, totalPages) == Button
    ensures page > currentPage ==> ButtonFor(page - 1, currentPage, totalPages) == Button
    ensures ButtonFor(page - 1, currentPage, totalPages) != Ellipsis
    ensures ButtonFor(page + 1, currentPage, totalPages) != Ellipsis
  {
  }

  /** The list part of the filter effect on the page `currentPage`: the page count and
      the books shown. */
  method FilterEffect(books: seq<Book>, c: Criteria, progress: seq<UserProgress>, bookmarks: seq<string>,
                      currentPage: int)
    returns (totalPages: nat, page: seq<Book>)
    ensures totalPages == CeilDiv(|Listed(books, c, progress, bookmarks)|, BooksPerPage)
    ensures page == JsSlice(Listed(books, c, progress, bookmarks),
                            (currentPage - 1) * BooksPerPage, currentPage * BooksPerPage)
    ensures |page| <= BooksPerPage
    ensures forall b :: b in page ==> b in books && Matches(c, progress, bookmarks, b)
  {
    var filtered := Narrow(books, c, progress, bookmarks);
    filtered := SortBy(filtered, Order(c.sortBy));

    totalPages := CeilDiv(|filtered|, BooksPerPage);
    var startIndex := (currentPage - 1) * BooksPerPage;
    var endIndex := startIndex + BooksPerPage;
    page := JsSlice(filtered, startIndex, endIndex);
    ListedProperties(books, c, progress, bookmarks);
    JsSliceWindow(filtered, startIndex, BooksPerPage);
    JsSliceMembers(filtered, startIndex, endIndex);
    forall b | b in page ensures b in books && Matches(c, progress, bookmarks, b) {
      assert b in filtered;
    }
  }

  // ---------------------------------------------------------------------------
  // the component state

  class LibraryView {
    var books: seq<Book>
    var categories: seq<Category>
    var userProgress: seq<UserProgress>
    var userBookmarks: seq<string>
    var criteria: Criteria
    var currentPage: int
    var totalPages: int
    var filteredBooks: seq<Book>
    var activeFilters: seq<string>

    constructor(initialBooks: seq<Book>, categories: seq<Category>, userProgress: seq<UserProgress>)
      ensures books == initialBooks && filteredBooks == initialBooks
      ensures this.categories == categories && this.userProgress == userProgress
      ensures userBookmarks == [] && criteria == Cleared && activeFilters == []
      ensures currentPage == 1 && totalPages == 1
    {
      books := initialBooks;
      filteredBooks := initialBooks;
      this.categories := categories;
      this.userProgress := userProgress;
      userBookmarks := [];
      criteria := Cleared;
      activeFilters := [];
      currentPage := 1;
      totalPages := 1;
    }

    /** The filter effect: narrow the catalogue criterion by criterion, sort it, count the
        pages, cut out the current page and rebuild the badges. */
    method RunFilterEffect()
      modifies this`totalPages, this`filteredBooks, this`activeFilters
      ensures totalPages == CeilDiv(|Listed(books, criteria, userProgress, userBookmarks)|, BooksPerPage)
      ensures filteredBooks == JsSlice(Listed(books, criteria, userProgress, userBookmarks),
                                       (currentPage - 1) * BooksPerPage, currentPage * BooksPerPage)
      ensures |filteredBooks| <= BooksPerPage
      ensures forall b :: b in filteredBooks ==> b in books && Matches(criteria, userProgress, userBookmarks, b)
      ensures activeFilters == Badges(criteria, categories)
    {
      var bs, c, progress, bookmarks, p, cats := books, criteria, userProgress, userBookmarks, currentPage, categories;
      var tp, page := FilterEffect(bs, c, progress, bookmarks, p);
      var badges := ActiveFilters(c, cats);
      totalPages, filteredBooks, activeFilters := tp, page, badges;
      assert books == bs && criteria == c && userProgress == progress && userBookmarks == bookmarks;
      assert currentPage == p && categories == cats;
    }

    /** `clearAllFilters`: every criterion back to its default and the first page. */
    method ClearAllFilters()
      modifies this`criteria, this`currentPage
      ensures criteria == Cleared && currentPage == 1
    {
      criteria := Cleared;
      currentPage := 1;
    }

    /** `changePage`: the page changes only to a page that exists. */
    method ChangePage(page: int)
      modifies this`currentPage
      ensures currentPage == if 1 <= page <= totalPages then page else old(currentPage)
    {
      if page >= 1 && page <= totalPages {
        currentPage := page;
      }
    }
  }
}
