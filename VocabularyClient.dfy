/**
  The vocabulary page (components/vocabulary/vocabulary-client.tsx): the filter effect
  (tab, search, status and level), the four sort orders, the twenty-per-page slice, the
  count of words due for review, and the handlers that read the URL, clear the filters,
  change the page and add a word.
*/
module VocabularyClient {
  import opened Common

  /** A date string as `new Date(s)` reads it: absent (null, undefined or empty), not a
      date at all, or a point in time in milliseconds. */
  datatype Stamp = NoDate | BadDate | At(ms: int)

  /** `getValidDate`: missing and invalid dates count as 0. */
  function ValidDate(d: Stamp): (r: int)
    ensures d.At? ==> r == d.ms
    ensures !d.At? ==> r == 0
  {
    match d
    case At(ms) => ms
    case _ => 0
  }

  /** A word of the user's list; `status` is "new", "learning" or "known" and `level`
      is "beginner", "intermediate" or "advanced". */
  datatype Word = Word(
    id: string,
    word: string,
    meaning: string,
    level: string,
    status: string,
    nextReviewAt: Stamp,
    userId: string,
    createdAt: Stamp)

  /** What the suggestion list hands to `handleAddWord`. */
  datatype BaseWord = BaseWord(id: string, word: string, meaning: string, level: string)

  /** What `addWord` is given: a word without id, owner or creation time. */
  datatype NewWord = NewWord(word: string, meaning: string, level: string, status: string, nextReviewAt: Stamp)

  const WordsPerPage: nat := 20

  /** The filter and sort selections of the page. */
  datatype Criteria = Criteria(
    activeTab: string,
    searchQuery: string,
    selectedStatus: string,
    selectedLevel: string,
    sortBy: string)

  /** A review date that is present, valid and not after `now`. */
  predicate Due(w: Word, now: int)
  {
    w.nextReviewAt.At? && w.nextReviewAt.ms <= now
  }

  /** The tab filter: "review" keeps due words, "learning" and "known" keep that status,
      any other tab keeps everything. */
  predicate TabKeeps(tab: string, now: int, w: Word)
  {
    if tab == "review" then Due(w, now)
    else if tab == "learning" then w.status == "learning"
    else if tab == "known" then w.status == "known"
    else true
  }

  /** An empty search keeps everything; otherwise the word or the meaning must contain
      the query, ignoring case. */
  predicate SearchKeeps(q: string, w: Word)
  {
    q == "" || IncludesIgnoreCase(w.word, q) || IncludesIgnoreCase(w.meaning, q)
  }

  predicate StatusKeeps(s: string, w: Word) { s == "all" || w.status == s }

  predicate LevelKeeps(l: string, w: Word) { l == "all" || w.level == l }

  predicate Shown(c: Criteria, now: int, w: Word)
  {
    && TabKeeps(c.activeTab, now, w)
    && SearchKeeps(c.searchQuery, w)
    && StatusKeeps(c.selectedStatus, w)
    && LevelKeeps(c.selectedLevel, w)
  }

  /** The words that pass every filter, in list order. */
  function Filtered(words: seq<Word>, c: Criteria, now: int): (r: seq<Word>)
    ensures |r| <= |words|
  {
    Filter(words, w => Shown(c, now, w))
  }

  // ---------------------------------------------------------------------------
  // the sort orders; a word may precede another when the comparator is not positive

  predicate NewestFirst(a: Word, b: Word) { ValidDate(a.createdAt) >= ValidDate(b.createdAt) }
  predicate OldestFirst(a: Word, b: Word) { ValidDate(a.createdAt) <= ValidDate(b.createdAt) }
  predicate Alphabetical(a: Word, b: Word) { LexLe(a.word, b.word) }
  predicate ReviewDateFirst(a: Word, b: Word) { ValidDate(a.nextReviewAt) <= ValidDate(b.nextReviewAt) }

  /** The comparator of the `switch`; an unknown value sorts like "newest". */
  function Order(sortBy: string): (Word, Word) -> bool
  {
    if sortBy == "oldest" then OldestFirst
    else if sortBy == "alphabetical" then Alphabetical
    else if sortBy == "review_date" then ReviewDateFirst
    else NewestFirst
  }

  lemma OrderIsPreorder(sortBy: string)
    ensures TotalPreorder(Order(sortBy))
  {
    forall a: Word, b: Word ensures LexLe(a.word, b.word) || LexLe(b.word, a.word) {
      LexLeTotal(a.word, b.word);
    }
    forall a: Word, b: Word, c: Word | Alphabetical(a, b) && Alphabetical(b, c)
      ensures Alphabetical(a, c)
    {
      LexLeTransitive(a.word, b.word, c.word);
    }
  }

  /** The filtered and sorted list, before paging: the words that pass every filter,
      and no others. */
  function Listed(words: seq<Word>, c: Criteria, now: int): (r: seq<Word>)
    ensures forall w :: w in r <==> w in words && Shown(c, now, w)
    ensures |r| <= |words|
  {
    var f := Filtered(words, c, now);
    FilterMembers(words, w => Shown(c, now, w));
    var r := SortBy(f, Order(c.sortBy));
    assert forall w :: w in r <==> w in multiset(r);
    assert forall w :: w in f <==> w in multiset(f);
    r
  }

  /** Every word that passes is listed as often as it occurs in the list, and the listed
      words are in the chosen order. */
  lemma ListedProperties(words: seq<Word>, c: Criteria, now: int)
    ensures var r := Listed(words, c, now);
      && multiset(r) == multiset(Filtered(words, c, now))
      && SortedBy(r, Order(c.sortBy))
  {
    var f := Filtered(words, c, now);
    var r := Listed(words, c, now);
    FilterMembers(words, w => Shown(c, now, w));
    OrderIsPreorder(c.sortBy);
    SortBySorted(f, Order(c.sortBy));
  }

  /** What the tabs and the sorts mean for the listed words: the review tab lists only
      due words, so never one whose date is missing or invalid; "review_date" puts the
      earlier review dates first, with missing and invalid dates counted as 0, and
      "newest" puts the later creation dates first. */
  lemma ListedOrder(words: seq<Word>, c: Criteria, now: int)
    ensures var r := Listed(words, c, now);
      && (c.activeTab == "review" ==> forall w :: w in r ==> w.nextReviewAt.At? && w.nextReviewAt.ms <= now)
      && (c.activeTab == "learning" ==> forall w :: w in r ==> w.status == "learning")
      && (c.activeTab == "known" ==> forall w :: w in r ==> w.status == "known")
      && (c.sortBy == "review_date" ==>
            forall i, j :: 0 <= i < j < |r| ==> ValidDate(r[i].nextReviewAt) <= ValidDate(r[j].nextReviewAt))
      && (c.sortBy == "newest" ==>
            forall i, j :: 0 <= i < j < |r| ==> ValidDate(r[i].createdAt) >= ValidDate(r[j].createdAt))
      && (c.sortBy == "oldest" ==>
            forall i, j :: 0 <= i < j < |r| ==> ValidDate(r[i].createdAt) <= ValidDate(r[j].createdAt))
  {
    ListedProperties(words, c, now);
  }

  /** The words of page `p`: `slice((p - 1) * 20, (p - 1) * 20 + 20)`. A page from the
      first on shows at most twenty words, the listed words from position `(p - 1) * 20`
      on. */
  function PageOf(listed: seq<Word>, p: int): (r: seq<Word>)
    ensures p >= 1 ==> |r| <= WordsPerPage
    ensures p >= 1 ==> forall k :: 0 <= k < |r| ==>
      (p - 1) * WordsPerPage + k < |listed| && r[k] == listed[(p - 1) * WordsPerPage + k]
  {
    var startIndex := (p - 1) * WordsPerPage;
    assert startIndex + WordsPerPage == p * WordsPerPage;
    if p >= 1 then
      PageSlice(listed, p, WordsPerPage);
      JsSlice(listed, startIndex, startIndex + WordsPerPage)
    else
      JsSlice(listed, startIndex, startIndex + WordsPerPage)
  }

  /** Enough pages of twenty for every word, and no page left empty. */
  function TotalPages(count: nat): (n: nat)
    ensures n * WordsPerPage >= count
    ensures n > 0 ==> (n - 1) * WordsPerPage < count
  {
    CeilDiv(count, WordsPerPage)
  }

  /** Every page the pager accepts shows at least one word. */
  lemma PageWindow(listed: seq<Word>, p: int)
    requires p >= 1
    ensures p <= TotalPages(|listed|) ==> |PageOf(listed, p)| >= 1
  {
    assert (p - 1) * WordsPerPage + WordsPerPage == p * WordsPerPage;
    PageSlice(listed, p, WordsPerPage);
    if p <= TotalPages(|listed|) {
      assert (p - 1) * WordsPerPage <= (TotalPages(|listed|) - 1) * WordsPerPage;
    }
  }

  /** The number of due words, over the whole list whatever the filters. */
  function ReviewCount(words: seq<Word>, now: int): (n: nat)
    ensures n <= |words|
  {
    Count(words, w => Due(w, now))
  }

  /** The review tab never lists more words than the review count announces, and with
      no other filter it lists exactly that many. */
  lemma ReviewTabMatchesCount(words: seq<Word>, c: Criteria, now: int)
    requires c.activeTab == "review"
    ensures |Filtered(words, c, now)| <= ReviewCount(words, now)
    ensures c.searchQuery == "" && c.selectedStatus == "all" && c.selectedLevel == "all" ==>
              |Filtered(words, c, now)| == ReviewCount(words, now)
  {
    CountMonotone(words, w => Shown(c, now, w), w => Due(w, now));
    if c.searchQuery == "" && c.selectedStatus == "all" && c.selectedLevel == "all" {
      CountMonotone(words, w => Due(w, now), w => Shown(c, now, w));
    }
  }

  /** With every filter cleared, only the tab still filters. */
  lemma ClearedLeavesTab(words: seq<Word>, tab: string, now: int)
    ensures Filtered(words, Criteria(tab, "", "all", "all", "newest"), now) == Filter(words, w => TabKeeps(tab, now, w))
  {
    FilterSame(words, w => Shown(Criteria(tab, "", "all", "all", "newest"), now, w), w => TabKeeps(tab, now, w));
  }

  /** `searchParams.get(name) || fallback`: an absent or empty parameter gives the
      fallback. */
  function ParamOr(param: Option<string>, fallback: string): (r: string)
    ensures param.Some? && param.value != "" ==> r == param.value
    ensures param.None? || param.value == "" ==> r == fallback
  {
    if param.Some? && param.value != "" then param.value else fallback
  }

  /** The page's state. */
  class VocabularyView {
    var words: seq<Word>
    var filteredWords: seq<Word>
    var searchQuery: string
    var selectedStatus: string
    var selectedLevel: string
    var sortBy: string
    var isLoading: bool
    var activeTab: string
    var currentPage: int
    var totalPages: nat
    var reviewCount: nat

    constructor(initialWords: seq<Word>)
      ensures words == initialWords && filteredWords == initialWords
      ensures searchQuery == "" && selectedStatus == "all" && selectedLevel == "all" && sortBy == "newest"
      ensures !isLoading && activeTab == "all" && currentPage == 1 && totalPages == 1 && reviewCount == 0
    {
      words := initialWords;
      filteredWords := initialWords;
      searchQuery := "";
      selectedStatus := "all";
      selectedLevel := "all";
      sortBy := "newest";
      isLoading := false;
      activeTab := "all";
      currentPage := 1;
      totalPages := 1;
      reviewCount := 0;
    }

    function Selection(): Criteria
      reads this`activeTab, this`searchQuery, this`selectedStatus, this`selectedLevel, this`sortBy
    {
      Criteria(activeTab, searchQuery, selectedStatus, selectedLevel, sortBy)
    }

    /** The effect that reads the URL: every absent or empty parameter falls back to its
        default; `page` arrives already parsed. */
    method ReadSearchParams(status: Option<string>, level: Option<string>, sort: Option<string>,
                            page: int, query: Option<string>, tab: Option<string>)
      modifies this`selectedStatus, this`selectedLevel, this`sortBy, this`currentPage,
               this`searchQuery, this`activeTab
      ensures selectedStatus == ParamOr(status, "all") && selectedLevel == ParamOr(level, "all")
      ensures sortBy == ParamOr(sort, "newest") && currentPage == page
      ensures searchQuery == ParamOr(query, "") && activeTab == ParamOr(tab, "all")
    {
      selectedStatus := ParamOr(status, "all");
      selectedLevel := ParamOr(level, "all");
      sortBy := ParamOr(sort, "newest");
      currentPage := page;
      searchQuery := ParamOr(query, "");
      activeTab := ParamOr(tab, "all");
    }

    /** The filter effect: the filters run one after the other, then the sort, the page
        count and the page slice, on the words, criteria and page the view holds; the
        review count is taken over all words. */
    method ApplyFilters(now: int)
      modifies this`filteredWords, this`totalPages, this`reviewCount, this`isLoading
      ensures Shows(old(words), old(Selection()), old(currentPage), now, filteredWords, totalPages, reviewCount)
      ensures !isLoading
    {
      var page, pages, due := FilterEffect(words, Selection(), currentPage, now);
      isLoading := true;
      filteredWords, totalPages, reviewCount := page, pages, due;
      isLoading := false;
    }

    /** `clearAllFilters`: search, status, level, sort and page go back to their
        defaults; the tab stays. */
    method ClearAllFilters()
      modifies this`searchQuery, this`selectedStatus, this`selectedLevel, this`sortBy, this`currentPage
      ensures Selection() == Criteria(old(activeTab), "", "all", "all", "newest")
      ensures currentPage == 1
    {
      searchQuery := "";
      selectedStatus := "all";
      selectedLevel := "all";
      sortBy := "newest";
      currentPage := 1;
    }

    /** `changePage`: only a page between 1 and the page count is taken. */
    method ChangePage(page: int)
      modifies this`currentPage
      ensures 1 <= page <= totalPages ==> currentPage == page
      ensures !(1 <= page <= totalPages) ==> currentPage == old(currentPage)
    {
      if page >= 1 && page <= totalPages {
        currentPage := page;
      }
    }

    /** `handleAddWord`: with a signed-in user, the word is put first, owned by them,
        in "learning", due now and created now. */
    method HandleAddWord(newWord: BaseWord, user: Option<string>, now: int)
      modifies this`words
      ensures user.None? ==> words == old(words)
      ensures user.Some? ==> words == [AddedWord(newWord, user.value, now)] + old(words)
    {
      if user.None? {
        return;
      }
      var vocabularyWord := Word(newWord.id, newWord.word, newWord.meaning, newWord.level,
                                 "learning", At(now), user.value, At(now));
      words := [vocabularyWord] + words;
    }

    /** `addWord`: with a signed-in user, the word is put first with a fresh id, owned by
        them and created now; its status and review date are the given ones. */
    method AddWord(newWord: NewWord, user: Option<string>, freshId: string, now: int)
      modifies this`words
      ensures user.None? ==> words == old(words)
      ensures user.Some? ==> words == [Word(freshId, newWord.word, newWord.meaning, newWord.level,
                                            newWord.status, newWord.nextReviewAt, user.value, At(now))] + old(words)
    {
      if user.None? {
        return;
      }
      var newWordWithId := Word(freshId, newWord.word, newWord.meaning, newWord.level,
                                newWord.status, newWord.nextReviewAt, user.value, At(now));
      words := [newWordWithId] + words;
    }
  }

  /** The word `handleAddWord` puts first. */
  function AddedWord(newWord: BaseWord, userId: string, now: int): Word
  {
    Word(newWord.id, newWord.word, newWord.meaning, newWord.level, "learning", At(now), userId, At(now))
  }

  /** A word added through `handleAddWord` is due at once, so it raises the review count
      by one and shows on the "learning" tab. */
  lemma AddedWordIsDue(words: seq<Word>, newWord: BaseWord, userId: string, now: int)
    ensures ReviewCount([AddedWord(newWord, userId, now)] + words, now) == ReviewCount(words, now) + 1
    ensures AddedWord(newWord, userId, now) in Filtered([AddedWord(newWord, userId, now)] + words,
                                                        Criteria("learning", "", "all", "all", "newest"), now)
  {
    var w := AddedWord(newWord, userId, now);
    assert ([w] + words)[1..] == words;
    IncludesEmpty(LowerStr(w.word));
    FilterMembers([w] + words, x => Shown(Criteria("learning", "", "all", "all", "newest"), now, x));
  }

  // ---------------------------------------------------------------------------
  // the four steps of the filter effect, each skipped when its selection is off

  method FilterByTab(words: seq<Word>, tab: string, now: int) returns (filtered: seq<Word>)
    ensures filtered == Filter(words, w => TabKeeps(tab, now, w))
  {
    filtered := words;
    if tab == "review" {
      filtered := Filter(filtered, (w: Word) => Due(w, now));
      FilterSame(words, (w: Word) => Due(w, now), (w: Word) => TabKeeps(tab, now, w));
    } else if tab == "learning" {
      filtered := Filter(filtered, (w: Word) => w.status == "learning");
      FilterSame(words, (w: Word) => w.status == "learning", (w: Word) => TabKeeps(tab, now, w));
    } else if tab == "known" {
      filtered := Filter(filtered, (w: Word) => w.status == "known");
      FilterSame(words, (w: Word) => w.status == "known", (w: Word) => TabKeeps(tab, now, w));
    } else {
      FilterAll(words, (w: Word) => TabKeeps(tab, now, w));
    }
  }

  method FilterBySearch(words: seq<Word>, query: string) returns (filtered: seq<Word>)
    ensures filtered == Filter(words, w => SearchKeeps(query, w))
  {
    filtered := words;
    if query != "" {
      filtered := Filter(filtered, (w: Word) => IncludesIgnoreCase(w.word, query) || IncludesIgnoreCase(w.meaning, query));
      FilterSame(words, (w: Word) => IncludesIgnoreCase(w.word, query) || IncludesIgnoreCase(w.meaning, query),
                 (w: Word) => SearchKeeps(query, w));
    } else {
      FilterAll(words, (w: Word) => SearchKeeps(query, w));
    }
  }

  method FilterByStatus(words: seq<Word>, status: string) returns (filtered: seq<Word>)
    ensures filtered == Filter(words, w => StatusKeeps(status, w))
  {
    filtered := words;
    if status != "all" {
      filtered := Filter(filtered, (w: Word) => w.status == status);
      FilterSame(words, (w: Word) => w.status == status, (w: Word) => StatusKeeps(status, w));
    } else {
      FilterAll(words, (w: Word) => StatusKeeps(status, w));
    }
  }

  method FilterByLevel(words: seq<Word>, level: string) returns (filtered: seq<Word>)
    ensures filtered == Filter(words, w => LevelKeeps(level, w))
  {
    filtered := words;
    if level != "all" {
      filtered := Filter(filtered, (w: Word) => w.level == level);
      FilterSame(words, (w: Word) => w.level == level, (w: Word) => LevelKeeps(level, w));
    } else {
      FilterAll(words, (w: Word) => LevelKeeps(level, w));
    }
  }

  /** What one run of the filter effect shows: the page of the filtered and sorted
      list, the page count, and the number of due words among all words. */
  predicate Shows(words: seq<Word>, c: Criteria, currentPage: int, now: int,
                  paginatedWords: seq<Word>, totalPages: nat, reviewCount: nat)
  {
    && paginatedWords == PageOf(Listed(words, c, now), currentPage)
    && totalPages == TotalPages(|Filtered(words, c, now)|)
    && reviewCount == ReviewCount(words, now)
  }

  method FilterEffect(words: seq<Word>, c: Criteria, currentPage: int, now: int)
    returns (paginatedWords: seq<Word>, totalPages: nat, reviewCount: nat)
    ensures Shows(words, c, currentPage, now, paginatedWords, totalPages, reviewCount)
  {
    var filtered := FilterAndSort(words, c, now);
    totalPages := CeilDiv(|filtered|, WordsPerPage);
    var startIndex := (currentPage - 1) * WordsPerPage;
    var endIndex := startIndex + WordsPerPage;
    paginatedWords := JsSlice(filtered, startIndex, endIndex);
    var reviewableWords := Filter(words, (w: Word) => Due(w, now));
    reviewCount := |reviewableWords|;
  }

  /** The filter steps in turn, then the sort of the `switch`. */
  method FilterAndSort(words: seq<Word>, c: Criteria, now: int) returns (filtered: seq<Word>)
    ensures filtered == Listed(words, c, now)
  {
    filtered := FilterByTab(words, c.activeTab, now);
    filtered := FilterBySearch(filtered, c.searchQuery);
    filtered := FilterByStatus(filtered, c.selectedStatus);
    filtered := FilterByLevel(filtered, c.selectedLevel);
    StagesCompose(words, c, now);
    filtered := SortBy(filtered, Order(c.sortBy));
  }

  /** The four filters applied in turn keep what their conjunction keeps. */
  lemma StagesCompose(words: seq<Word>, c: Criteria, now: int)
    ensures Filter(Filter(Filter(Filter(words, w => TabKeeps(c.activeTab, now, w)),
                                 w => SearchKeeps(c.searchQuery, w)),
                          w => StatusKeeps(c.selectedStatus, w)),
                   w => LevelKeeps(c.selectedLevel, w))
            == Filtered(words, c, now)
  {
    var ts := (w: Word) => TabKeeps(c.activeTab, now, w) && SearchKeeps(c.searchQuery, w);
    var tss := (w: Word) => ts(w) && StatusKeeps(c.selectedStatus, w);
    FilterFilter(words, w => TabKeeps(c.activeTab, now, w), w => SearchKeeps(c.searchQuery, w), ts);
    FilterFilter(words, ts, w => StatusKeeps(c.selectedStatus, w), tss);
    FilterFilter(words, tss, w => LevelKeeps(c.selectedLevel, w), w => Shown(c, now, w));
  }
}
