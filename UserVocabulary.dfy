/**
  The word list on the profile page (components/profile/user-vocabulary.tsx): loading the
  user's words, the search, difficulty tab and level filters, the three sort orders, the
  sort toggle and deleting a word.
*/
module UserVocabulary {
  import opened Common

  /** A saved word; `createdAt` is the creation time in milliseconds. */
  datatype VocabularyWord = VocabularyWord(
    id: string,
    word: string,
    persianMeaning: string,
    difficultyLevel: string,
    bookTitle: Option<string>,
    createdAt: int,
    reviewCount: int)

  /** A row of the query; `bookTitle` is the joined book's title, absent when there is
      no joined book or it has no title. */
  datatype VocabularyRow = VocabularyRow(
    id: string,
    word: string,
    persianMeaning: string,
    difficultyLevel: string,
    joinedTitle: Option<string>,
    createdAt: int,
    reviewCount: int)

  /** The `map` of the fetch: `bookTitle: item.books?.title || null`. */
  function Formatted(row: VocabularyRow): (w: VocabularyWord)
    ensures w.id == row.id && w.word == row.word && w.persianMeaning == row.persianMeaning
    ensures w.difficultyLevel == row.difficultyLevel && w.createdAt == row.createdAt
    ensures w.reviewCount == row.reviewCount
    ensures w.bookTitle.Some? <==> row.joinedTitle.Some? && row.joinedTitle.value != ""
    ensures w.bookTitle.Some? ==> w.bookTitle == row.joinedTitle
  {
    VocabularyWord(row.id, row.word, row.persianMeaning, row.difficultyLevel,
                   if row.joinedTitle.Some? && row.joinedTitle.value != "" then row.joinedTitle else None,
                   row.createdAt, row.reviewCount)
  }

  function FormattedAll(rows: seq<VocabularyRow>): (r: seq<VocabularyWord>)
    ensures |r| == |rows|
    ensures forall k :: 0 <= k < |rows| ==> r[k] == Formatted(rows[k])
  {
    seq(|rows|, k requires 0 <= k < |rows| => Formatted(rows[k]))
  }

  datatype SortOrder = Newest | Oldest | Alphabetical

  /** The sort button: newest becomes oldest, anything else becomes newest. */
  function Toggled(s: SortOrder): (r: SortOrder)
    ensures r != s
    ensures r == Oldest <==> s == Newest
  {
    if s == Newest then Oldest else Newest
  }

  /** Two presses from "newest" or "oldest" come back; from "alphabetical" the first
      press already leaves it for good. */
  lemma ToggleTwice(s: SortOrder)
    ensures s != Alphabetical ==> Toggled(Toggled(s)) == s
    ensures Toggled(s) != Alphabetical
  {
  }

  /** The search: the lower-cased word contains the lower-cased term, or the Persian
      meaning contains the term as typed; an empty term keeps everything. */
  predicate SearchKeeps(term: string, w: VocabularyWord)
  {
    term == "" || Includes(LowerStr(w.word), LowerStr(term)) || Includes(w.persianMeaning, term)
  }

  /** The tabs "beginner", "intermediate" and "advanced" keep that difficulty; any other
      tab keeps everything. */
  predicate TabKeeps(tab: string, w: VocabularyWord)
  {
    (tab == "beginner" || tab == "intermediate" || tab == "advanced") ==> w.difficultyLevel == tab
  }

  /** A set, non-empty level keeps only that difficulty. */
  predicate LevelKeeps(filterLevel: Option<string>, w: VocabularyWord)
  {
    filterLevel.Some? && filterLevel.value != "" ==> w.difficultyLevel == filterLevel.value
  }

  predicate Shown(term: string, tab: string, filterLevel: Option<string>, w: VocabularyWord)
  {
    SearchKeeps(term, w) && TabKeeps(tab, w) && LevelKeeps(filterLevel, w)
  }

  predicate NewestFirst(a: VocabularyWord, b: VocabularyWord) { a.createdAt >= b.createdAt }
  predicate OldestFirst(a: VocabularyWord, b: VocabularyWord) { a.createdAt <= b.createdAt }
  predicate ByWord(a: VocabularyWord, b: VocabularyWord) { LexLe(a.word, b.word) }

  function Order(s: SortOrder): (VocabularyWord, VocabularyWord) -> bool
  {
    match s
    case Newest => NewestFirst
    case Oldest => OldestFirst
    case Alphabetical => ByWord
  }

  lemma OrderIsPreorder(s: SortOrder)
    ensures TotalPreorder(Order(s))
  {
    forall a: VocabularyWord, b: VocabularyWord ensures LexLe(a.word, b.word) || LexLe(b.word, a.word) {
      LexLeTotal(a.word, b.word);
    }
    forall a: VocabularyWord, b: VocabularyWord, c: VocabularyWord | ByWord(a, b) && ByWord(b, c)
      ensures ByWord(a, c)
    {
      LexLeTransitive(a.word, b.word, c.word);
    }
  }

  /** What the list shows: the words passing all three filters, sorted. */
  function Result(words: seq<VocabularyWord>, term: string, tab: string, filterLevel: Option<string>, sortBy: SortOrder)
    : seq<VocabularyWord>
  {
    SortBy(Filter(words, w => Shown(term, tab, filterLevel, w)), Order(sortBy))
  }

  /** Every shown word passes the filters and every word that passes is shown, as often
      as it occurs; the list is in the chosen order. */
  lemma ResultProperties(words: seq<VocabularyWord>, term: string, tab: string, filterLevel: Option<string>, sortBy: SortOrder)
    ensures var r := Result(words, term, tab, filterLevel, sortBy);
      && (forall w :: w in r <==> w in words && Shown(term, tab, filterLevel, w))
      && multiset(r) == multiset(Filter(words, w => Shown(term, tab, filterLevel, w)))
      && SortedBy(r, Order(sortBy))
  {
    var f := Filter(words, w => Shown(term, tab, filterLevel, w));
    var r := Result(words, term, tab, filterLevel, sortBy);
    FilterMembers(words, w => Shown(term, tab, filterLevel, w));
    OrderIsPreorder(sortBy);
    SortBySorted(f, Order(sortBy));
    forall w ensures w in r <==> w in f {
      assert w in r <==> w in multiset(r);
      assert w in f <==> w in multiset(f);
    }
  }

  /** A difficulty tab shows only its difficulty; a level that disagrees with the tab
      leaves the list empty; with no search, the "all" tab and no level every word is
      shown. */
  lemma TabsAndLevels(words: seq<VocabularyWord>, term: string, tab: string, level: string, sortBy: SortOrder)
    ensures tab == "beginner" || tab == "intermediate" || tab == "advanced" ==>
              forall w :: w in Result(words, term, tab, None, sortBy) ==> w.difficultyLevel == tab
    ensures (tab == "beginner" || tab == "intermediate" || tab == "advanced") && level != "" && level != tab ==>
              Result(words, term, tab, Some(level), sortBy) == []
    ensures multiset(Result(words, "", "all", None, sortBy)) == multiset(words)
  {
    TabOnly(words, term, tab, sortBy);
    TabAndLevelClash(words, term, tab, level, sortBy);
    EverythingShown(words, sortBy);
  }

  lemma TabOnly(words: seq<VocabularyWord>, term: string, tab: string, sortBy: SortOrder)
    ensures tab == "beginner" || tab == "intermediate" || tab == "advanced" ==>
              forall w :: w in Result(words, term, tab, None, sortBy) ==> w.difficultyLevel == tab
  {
    ResultProperties(words, term, tab, None, sortBy);
  }

  lemma TabAndLevelClash(words: seq<VocabularyWord>, term: string, tab: string, level: string, sortBy: SortOrder)
    ensures (tab == "beginner" || tab == "intermediate" || tab == "advanced") && level != "" && level != tab ==>
              Result(words, term, tab, Some(level), sortBy) == []
  {
    ResultProperties(words, term, tab, Some(level), sortBy);
    var r := Result(words, term, tab, Some(level), sortBy);
    assert r != [] ==> r[0] in r;
  }

  lemma EverythingShown(words: seq<VocabularyWord>, sortBy: SortOrder)
    ensures multiset(Result(words, "", "all", None, sortBy)) == multiset(words)
  {
    ResultProperties(words, "", "all", None, sortBy);
    FilterAll(words, w => Shown("", "all", None, w));
  }

  // ---------------------------------------------------------------------------
  // the filter effect, step by step

  method FilterBySearch(words: seq<VocabularyWord>, term: string) returns (result: seq<VocabularyWord>)
    ensures result == Filter(words, w => SearchKeeps(term, w))
  {
    result := words;
    if term != "" {
      result := Filter(result, (w: VocabularyWord) =>
        Includes(LowerStr(w.word), LowerStr(term)) || Includes(w.persianMeaning, term));
      FilterSame(words, (w: VocabularyWord) => Includes(LowerStr(w.word), LowerStr(term)) || Includes(w.persianMeaning, term),
                 (w: VocabularyWord) => SearchKeeps(term, w));
    } else {
      FilterAll(words, (w: VocabularyWord) => SearchKeeps(term, w));
    }
  }

  method FilterByTab(words: seq<VocabularyWord>, tab: string) returns (result: seq<VocabularyWord>)
    ensures result == Filter(words, w => TabKeeps(tab, w))
  {
    result := words;
    if tab == "beginner" {
      result := Filter(result, (w: VocabularyWord) => w.difficultyLevel == "beginner");
      FilterSame(words, (w: VocabularyWord) => w.difficultyLevel == "beginner", (w: VocabularyWord) => TabKeeps(tab, w));
    } else if tab == "intermediate" {
      result := Filter(result, (w: VocabularyWord) => w.difficultyLevel == "intermediate");
      FilterSame(words, (w: VocabularyWord) => w.difficultyLevel == "intermediate", (w: VocabularyWord) => TabKeeps(tab, w));
    } else if tab == "advanced" {
      result := Filter(result, (w: VocabularyWord) => w.difficultyLevel == "advanced");
      FilterSame(words, (w: VocabularyWord) => w.difficultyLevel == "advanced", (w: VocabularyWord) => TabKeeps(tab, w));
    } else {
      FilterAll(words, (w: VocabularyWord) => TabKeeps(tab, w));
    }
  }

  method FilterByLevel(words: seq<VocabularyWord>, filterLevel: Option<string>) returns (result: seq<VocabularyWord>)
    ensures result == Filter(words, w => LevelKeeps(filterLevel, w))
  {
    result := words;
    if filterLevel.Some? && filterLevel.value != "" {
      var level := filterLevel.value;
      result := Filter(result, (w: VocabularyWord) => w.difficultyLevel == level);
      FilterSame(words, (w: VocabularyWord) => w.difficultyLevel == level, (w: VocabularyWord) => LevelKeeps(filterLevel, w));
    } else {
      FilterAll(words, (w: VocabularyWord) => LevelKeeps(filterLevel, w));
    }
  }

  /** The three filters in turn keep what their conjunction keeps. */
  lemma StagesCompose(words: seq<VocabularyWord>, term: string, tab: string, filterLevel: Option<string>)
    ensures Filter(Filter(Filter(words, w => SearchKeeps(term, w)), w => TabKeeps(tab, w)), w => LevelKeeps(filterLevel, w))
            == Filter(words, w => Shown(term, tab, filterLevel, w))
  {
    var st := (w: VocabularyWord) => SearchKeeps(term, w) && TabKeeps(tab, w);
    FilterFilter(words, w => SearchKeeps(term, w), w => TabKeeps(tab, w), st);
    FilterFilter(words, st, w => LevelKeeps(filterLevel, w), w => Shown(term, tab, filterLevel, w));
  }

  /** The filter effect: search, tab and level in turn, then the sort. */
  method FilterAndSort(words: seq<VocabularyWord>, term: string, tab: string, filterLevel: Option<string>, sortBy: SortOrder)
    returns (result: seq<VocabularyWord>)
    ensures result == Result(words, term, tab, filterLevel, sortBy)
  {
    result := FilterBySearch(words, term);
    result := FilterByTab(result, tab);
    result := FilterByLevel(result, filterLevel);
    StagesCompose(words, term, tab, filterLevel);
    result := SortBy(result, Order(sortBy));
  }

  function WordId(w: VocabularyWord): string { w.id }

  /** The component's state. */
  class UserVocabularyView {
    var words: seq<VocabularyWord>
    var filteredWords: seq<VocabularyWord>
    var isLoading: bool
    var searchTerm: string
    var activeTab: string
    var sortBy: SortOrder
    var filterLevel: Option<string>

    constructor()
      ensures words == [] && filteredWords == [] && isLoading
      ensures searchTerm == "" && activeTab == "all" && sortBy == Newest && filterLevel.None?
    {
      words := [];
      filteredWords := [];
      isLoading := true;
      searchTerm := "";
      activeTab := "all";
      sortBy := Newest;
      filterLevel := None;
    }

    /** The end of `fetchVocabulary`: fetched rows (already newest first from the
        query) replace both lists; a failed query leaves them as they were. */
    method FinishFetch(outcome: Option<seq<VocabularyRow>>)
      modifies this`words, this`filteredWords, this`isLoading
      ensures outcome.Some? ==> words == FormattedAll(outcome.value) && filteredWords == words
      ensures outcome.None? ==> words == old(words) && filteredWords == old(filteredWords)
      ensures !isLoading
    {
      if outcome.Some? {
        var formattedWords := FormattedAll(outcome.value);
        words := formattedWords;
        filteredWords := formattedWords;
      }
      isLoading := false;
    }

    /** The filter and sort effect. */
    method ApplyFilters()
      modifies this`filteredWords
      ensures filteredWords == Result(words, searchTerm, activeTab, filterLevel, sortBy)
    {
      var result := FilterAndSort(words, searchTerm, activeTab, filterLevel, sortBy);
      filteredWords := result;
    }

    /** `handleDeleteWord`, with the outcome of the database delete as `deleted`: on
        success the words with that id go, the others stay in order. */
    method HandleDeleteWord(id: string, deleted: bool)
      modifies this`words
      ensures words == if deleted then RemoveKey(old(words), WordId, id) else old(words)
    {
      if deleted {
        words := RemoveKey(words, WordId, id);
      }
    }

    /** The sort button. */
    method ToggleSort()
      modifies this`sortBy
      ensures sortBy == Toggled(old(sortBy))
    {
      sortBy := if sortBy == Newest then Oldest else Newest;
    }
  }

  /** A delete removes exactly the words with that id: nothing else goes, and deleting
      again changes nothing. */
  lemma DeleteRemovesOnlyId(words: seq<VocabularyWord>, id: string)
    ensures forall w :: w in RemoveKey(words, WordId, id) <==> w in words && w.id != id
    ensures RemoveKey(RemoveKey(words, WordId, id), WordId, id) == RemoveKey(words, WordId, id)
  {
    RemoveKeyProperties(words, WordId, id);
  }
}
