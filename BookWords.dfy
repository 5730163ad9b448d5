/**
  The per-book word list of the admin panel (components/admin/books/book-words-manager.tsx):
  the search and level filter, the add, edit and delete handlers, and the level labels
  and colours.
*/
module BookWords {
  import opened Common

  datatype BookWord = BookWord(
    id: string,
    bookId: string,
    word: string,
    meaning: string,
    level: string,
    createdAt: string,
    updatedAt: string)

  function WordId(w: BookWord): string { w.id }

  predicate Shown(searchQuery: string, selectedLevel: string, w: BookWord)
  {
    && (IncludesIgnoreCase(w.word, searchQuery) || IncludesIgnoreCase(w.meaning, searchQuery))
    && (selectedLevel == "all" || w.level == selectedLevel)
  }

  /** `filteredWords`: a word is listed exactly when the word or its meaning contains the
      query, ignoring case, and its level is the selected one (or "all" is selected). */
  function FilteredWords(words: seq<BookWord>, searchQuery: string, selectedLevel: string): (r: seq<BookWord>)
    ensures |r| <= |words|
    ensures forall w :: w in r <==> w in words && Shown(searchQuery, selectedLevel, w)
  {
    FilterMembers(words, w => Shown(searchQuery, selectedLevel, w));
    Filter(words, w => Shown(searchQuery, selectedLevel, w))
  }

  /** With no query and "all" levels every word is listed in order. */
  lemma NoFilterListsAll(words: seq<BookWord>)
    ensures FilteredWords(words, "", "all") == words
  {
    forall w | w in words ensures Shown("", "all", w) {
      IncludesEmpty(LowerStr(w.word));
    }
    FilterAll(words, w => Shown("", "all", w));
  }

  /** The badge colour of a level. */
  datatype LevelColor = Green | Blue | Purple | Gray

  predicate KnownLevel(level: string) { level in {"beginner", "intermediate", "advanced"} }

  /** A known level gets its own colour; any other value is gray. */
  function GetLevelColor(level: string): (r: LevelColor)
    ensures r == Gray <==> !KnownLevel(level)
  {
    if level == "beginner" then Green
    else if level == "intermediate" then Blue
    else if level == "advanced" then Purple
    else Gray
  }

  /** A known level gets a Persian label; any other value is shown as itself. */
  function GetLevelText(level: string): (r: string)
    ensures r != level <==> KnownLevel(level)
  {
    if level == "beginner" then "مبتدی"
    else if level == "intermediate" then "متوسط"
    else if level == "advanced" then "پیشرفته"
    else level
  }

  /** Different known levels get different colours and different labels. */
  lemma LevelBadges()
    ensures forall l1, l2 :: KnownLevel(l1) && KnownLevel(l2) && l1 != l2
              ==> GetLevelColor(l1) != GetLevelColor(l2) && GetLevelText(l1) != GetLevelText(l2)
  {
  }

  class WordsManager {
    var words: seq<BookWord>
    var currentWord: Option<BookWord>
    var isAddDialogOpen: bool
    var isEditDialogOpen: bool
    var isDeleteDialogOpen: bool
    var isSubmitting: bool

    constructor(initialWords: seq<BookWord>)
      ensures words == initialWords && currentWord.None?
      ensures !isAddDialogOpen && !isEditDialogOpen && !isDeleteDialogOpen && !isSubmitting
    {
      words := initialWords;
      currentWord := None;
      isAddDialogOpen := false;
      isEditDialogOpen := false;
      isDeleteDialogOpen := false;
      isSubmitting := false;
    }

    /** `handleAddWord`, with the row the insert returned (`None` when it failed): the
        row is appended at the end and the dialog closes. */
    method HandleAddWord(inserted: Option<BookWord>)
      modifies this`words, this`isAddDialogOpen, this`isSubmitting
      ensures words == if inserted.Some? then old(words) + [inserted.value] else old(words)
      ensures isAddDialogOpen == (old(isAddDialogOpen) && inserted.None?)
      ensures !isSubmitting
    {
      isSubmitting := true;
      if inserted.Some? {
        words := words + [inserted.value];
        isAddDialogOpen := false;
      }
      isSubmitting := false;
    }

    /** `handleEditWord`, with the row the update returned: without a selected word
        nothing happens; otherwise the rows with the selected id are replaced by it. */
    method HandleEditWord(updated: Option<BookWord>)
      modifies this`words, this`currentWord, this`isEditDialogOpen, this`isSubmitting
      ensures old(currentWord).None? ==> unchanged(this)
      ensures old(currentWord).Some? && updated.Some? ==>
                && words == ReplaceKey(old(words), WordId, old(currentWord).value.id, updated.value)
                && currentWord.None? && !isEditDialogOpen && !isSubmitting
      ensures old(currentWord).Some? && updated.None? ==>
                && words == old(words) && currentWord == old(currentWord)
                && isEditDialogOpen == old(isEditDialogOpen) && !isSubmitting
    {
      if currentWord.None? {
        return;
      }
      isSubmitting := true;
      if updated.Some? {
        words := ReplaceKey(words, WordId, currentWord.value.id, updated.value);
        isEditDialogOpen := false;
        currentWord := None;
      }
      isSubmitting := false;
    }

    /** `handleDeleteWord`, with the outcome of the delete: without a selected word
        nothing happens; otherwise a successful delete removes its id. */
    method HandleDeleteWord(deleted: bool)
      modifies this`words, this`currentWord, this`isDeleteDialogOpen, this`isSubmitting
      ensures old(currentWord).None? ==> unchanged(this)
      ensures old(currentWord).Some? && deleted ==>
                && words == RemoveKey(old(words), WordId, old(currentWord).value.id)
                && currentWord.None? && !isDeleteDialogOpen && !isSubmitting
      ensures old(currentWord).Some? && !deleted ==>
                && words == old(words) && currentWord == old(currentWord)
                && isDeleteDialogOpen == old(isDeleteDialogOpen) && !isSubmitting
    {
      if currentWord.None? {
        return;
      }
      isSubmitting := true;
      if deleted {
        words := RemoveKey(words, WordId, currentWord.value.id);
        isDeleteDialogOpen := false;
        currentWord := None;
      }
      isSubmitting := false;
    }
  }
}
