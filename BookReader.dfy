/**
  The book reader (components/books/book-reader.tsx): page navigation with the preview
  limit, bookmarks, the glossary lookup on a clicked word, the list of words saved for
  review, and the reading-time display.
*/
module BookReader {
  import opened Common

  datatype Level = Beginner | Intermediate | Advanced

  /** A glossary word of the book. */
  datatype Word = Word(id: string, word: string, meaning: string, level: Level)

  datatype ReviewStatus = Learning | Reviewing | Mastered

  /** A word the reader saved for review. */
  datatype SavedWord = SavedWord(id: string, word: string, status: ReviewStatus, nextReviewAt: int)

  function SavedWordOf(w: SavedWord): string { w.word }

  /** `bookmarks.filter(b => b !== page)`. */
  function WithoutPage(bookmarks: seq<int>, page: int): (r: seq<int>)
    ensures forall x :: x in r <==> x in bookmarks && x != page
  {
    FilterMembers(bookmarks, b => b != page);
    Filter(bookmarks, b => b != page)
  }

  /** The list a bookmark toggle makes: the page's bookmarks removed if it has one,
      otherwise the page appended. */
  function Toggled(bookmarks: seq<int>, page: int): (r: seq<int>)
    ensures page in r <==> page !in bookmarks
    ensures forall x :: x != page ==> (x in r <==> x in bookmarks)
  {
    if page in bookmarks then WithoutPage(bookmarks, page) else bookmarks + [page]
  }

  /** Toggling the same page twice gives back the same set of bookmarked pages. */
  lemma ToggleTwice(bookmarks: seq<int>, page: int)
    ensures forall x :: x in Toggled(Toggled(bookmarks, page), page) <==> x in bookmarks
  {
  }

  /** `word.toLowerCase() === other.toLowerCase()`. */
  predicate SameWordIgnoringCase(a: string, b: string)
  {
    LowerStr(a) == LowerStr(b)
  }

  /** The display reads back as the same number of seconds: the last two digits are the
      seconds, the two before the colon the minutes, and what comes before the second
      colon, present exactly from one hour on, the hours. */
  predicate ReadsBackAsTime(r: string, seconds: nat)
  {
    && |r| >= 5 && r[|r| - 3] == ':'
    && (seconds < 3600 <==> |r| == 5)
    && (|r| > 5 ==> r[|r| - 6] == ':')
    && ParseNat(r[|r| - 2..]) < 60 && ParseNat(r[|r| - 5..|r| - 3]) < 60
    && (if |r| > 5 then ParseNat(r[..|r| - 6]) else 0) * 3600
       + ParseNat(r[|r| - 5..|r| - 3]) * 60 + ParseNat(r[|r| - 2..]) == seconds
  }

  /** `formatTime`: `h:mm:ss`, without the hours below one hour. */
  function FormatTime(seconds: nat): (r: string)
    ensures ReadsBackAsTime(r, seconds)
  {
    var hours := seconds / 3600;
    var minutes := (seconds % 3600) / 60;
    var secs := seconds % 60;
    var r := (if hours > 0 then NatStr(hours) + ":" else "") + Pad2(minutes) + ":" + Pad2(secs);
    TimeReadsBack(seconds, r);
    r
  }

  lemma TimeReadsBack(seconds: nat, r: string)
    requires r == (if seconds / 3600 > 0 then NatStr(seconds / 3600) + ":" else "")
                  + Pad2((seconds % 3600) / 60) + ":" + Pad2(seconds % 60)
    ensures ReadsBackAsTime(r, seconds)
  {
    var hours := seconds / 3600;
    var minutes := (seconds % 3600) / 60;
    var secs := seconds % 60;
    var prefix := if hours > 0 then NatStr(hours) + ":" else "";
    assert r == prefix + Pad2(minutes) + ":" + Pad2(secs);
    TimeLayout(prefix, Pad2(minutes), Pad2(secs));
    SecondsSplit(seconds);
    if hours > 0 {
      NatStrRoundTrip(hours);
      assert r[..|r| - 6] == r[..|r| - 5][..|r| - 6] == NatStr(hours);
    }
    var h := if |r| > 5 then ParseNat(r[..|r| - 6]) else 0;
    assert h == hours;
    assert ParseNat(r[|r| - 5..|r| - 3]) == minutes && ParseNat(r[|r| - 2..]) == secs;
  }

  /** Where the parts of a display `prefix + mm + ":" + ss` sit. */
  lemma TimeLayout(prefix: string, mm: string, ss: string)
    requires |mm| == 2 && |ss| == 2
    ensures var r := prefix + mm + ":" + ss;
      && |r| == |prefix| + 5 && r[|r| - 3] == ':'
      && r[|r| - 2..] == ss && r[|r| - 5..|r| - 3] == mm
      && r[..|r| - 5] == prefix
  {
    var r := prefix + mm + ":" + ss;
    assert r == (prefix + mm) + ([':'] + ss);
  }

  lemma SecondsSplit(seconds: nat)
    ensures (seconds / 3600) * 3600 + ((seconds % 3600) / 60) * 60 + seconds % 60 == seconds
    ensures seconds / 3600 > 0 <==> seconds >= 3600
  {
  }

  class Reader {
    const isPreview: bool
    const maxPreviewPages: int
    const totalPages: int
    var page: int
    var showPreviewMessage: bool
    var bookmarks: seq<int>
    var selectedWord: Option<Word>
    var userSavedWords: seq<SavedWord>
    var isWordSaved: bool

    constructor(currentPage: int, preview: bool, maxPreview: int, total: int,
                savedBookmarks: Option<seq<int>>, savedWords: seq<SavedWord>)
      ensures page == currentPage && isPreview == preview && maxPreviewPages == maxPreview
      ensures totalPages == total
      ensures showPreviewMessage == (preview && currentPage == maxPreview)
      ensures bookmarks == (if savedBookmarks.Some? then savedBookmarks.value else [])
      ensures selectedWord.None? && userSavedWords == savedWords && !isWordSaved
    {
      isPreview := preview;
      maxPreviewPages := maxPreview;
      totalPages := total;
      page := currentPage;
      showPreviewMessage := preview && currentPage == maxPreview;
      bookmarks := if savedBookmarks.Some? then savedBookmarks.value else [];
      selectedWord := None;
      userSavedWords := savedWords;
      isWordSaved := false;
    }

    /** The bookmark icon of the current page is filled when the page is bookmarked. */
    predicate IsCurrentPageBookmarked()
      reads this
    {
      page in bookmarks
    }

    /** `goToPreviousPage`: back one page unless on the first. */
    method GoToPreviousPage()
      modifies this`page, this`showPreviewMessage
      ensures old(page) > 1 ==> page == old(page) - 1 && showPreviewMessage == (isPreview && page == maxPreviewPages)
      ensures old(page) <= 1 ==> page == old(page) && showPreviewMessage == old(showPreviewMessage)
    {
      if page > 1 {
        page := page - 1;
        showPreviewMessage := isPreview && page == maxPreviewPages;
      }
    }

    /** `goToNextPage`: on, up to the last page; a preview stops at its last page and
        shows the preview message instead. */
    method GoToNextPage()
      modifies this`page, this`showPreviewMessage
      ensures old(page) >= totalPages ==> page == old(page) && showPreviewMessage == old(showPreviewMessage)
      ensures old(page) < totalPages && isPreview && old(page) >= maxPreviewPages ==>
                page == old(page) && showPreviewMessage
      ensures old(page) < totalPages && !(isPreview && old(page) >= maxPreviewPages) ==>
                page == old(page) + 1 && showPreviewMessage == (isPreview && page == maxPreviewPages)
      ensures old(page) <= totalPages ==> page <= totalPages
      ensures isPreview && old(page) <= maxPreviewPages ==> page <= maxPreviewPages
    {
      if page < totalPages {
        if isPreview && page >= maxPreviewPages {
          showPreviewMessage := true;
        } else {
          page := page + 1;
          showPreviewMessage := isPreview && page == maxPreviewPages;
        }
      }
    }

    /** `toggleBookmark` as it is written: the list is toggled, but the list handed to
        the save is the one from before the toggle, because `saveBookmarks` reads the
        state of the render in which the button was pressed. */
    method ToggleBookmarkAsWritten() returns (persisted: seq<int>)
      modifies this`bookmarks
      ensures bookmarks == Toggled(old(bookmarks), page)
      ensures persisted == old(bookmarks)
    {
      persisted := bookmarks;
      if page in bookmarks {
        bookmarks := WithoutPage(bookmarks, page);
      } else {
        bookmarks := bookmarks + [page];
      }
    }

    /** `toggleBookmark` with the toggled list saved. */
    method ToggleBookmark() returns (persisted: seq<int>)
      modifies this`bookmarks
      ensures bookmarks == Toggled(old(bookmarks), page)
      ensures persisted == bookmarks
      ensures IsCurrentPageBookmarked() <==> !old(page in bookmarks)
    {
      if page in bookmarks {
        bookmarks := WithoutPage(bookmarks, page);
      } else {
        bookmarks := bookmarks + [page];
      }
      persisted := bookmarks;
    }

    /** `handleWordClick`: the first glossary word equal to the clicked one ignoring case
        is selected; with none, the selection stays. */
    method HandleWordClick(word: string, words: seq<Word>)
      modifies this`selectedWord, this`isWordSaved
      ensures match Find(words, (w: Word) => SameWordIgnoringCase(w.word, word))
              case None => selectedWord == old(selectedWord)
              case Some(w) => selectedWord == Some(w)
      ensures isWordSaved == (selectedWord.Some? && exists s :: s in userSavedWords && s.word == selectedWord.value.word)
    {
      var wordData := Find(words, (w: Word) => SameWordIgnoringCase(w.word, word));
      if wordData.Some? {
        selectedWord := wordData;
      }
      SyncWordSaved();
    }

    /** The effect that marks the selected word as saved when it is in the saved list. */
    method SyncWordSaved()
      modifies this`isWordSaved
      ensures isWordSaved == (selectedWord.Some? && exists s :: s in userSavedWords && s.word == selectedWord.value.word)
    {
      if selectedWord.Some? {
        isWordSaved := exists s :: s in userSavedWords && s.word == selectedWord.value.word;
      } else {
        isWordSaved := false;
      }
    }

    /** `addWordToReview`: without a session, or when the insert fails, nothing changes;
        otherwise an entry for the word is replaced in place, keeping the count, or the
        new entry is appended when there is none. */
    method AddWordToReview(word: string, hasSession: bool, inserted: bool, newId: string, nextReviewAt: int)
      modifies this`userSavedWords, this`isWordSaved
      ensures !(hasSession && inserted) ==> userSavedWords == old(userSavedWords) && isWordSaved == old(isWordSaved)
      ensures hasSession && inserted ==>
                var entry := SavedWord(newId, word, Learning, nextReviewAt);
                && isWordSaved
                && (if exists s :: s in old(userSavedWords) && s.word == word
                    then userSavedWords == ReplaceKey(old(userSavedWords), SavedWordOf, word, entry)
                    else userSavedWords == old(userSavedWords) + [entry])
      ensures hasSession && inserted ==> |userSavedWords| == |old(userSavedWords)| + (if exists s :: s in old(userSavedWords) && s.word == word then 0 else 1)
      ensures hasSession && inserted ==> SavedWord(newId, word, Learning, nextReviewAt) in userSavedWords
    {
      if !hasSession || !inserted {
        return;
      }
      var entry := SavedWord(newId, word, Learning, nextReviewAt);
      if exists s :: s in userSavedWords && s.word == word {
        var s :| s in userSavedWords && s.word == word;
        var i :| 0 <= i < |userSavedWords| && userSavedWords[i] == s;
        userSavedWords := ReplaceKey(userSavedWords, SavedWordOf, word, entry);
        assert userSavedWords[i] == entry;
      } else {
        userSavedWords := userSavedWords + [entry];
      }
      isWordSaved := true;
    }

    /** `removeWordFromReview`: without a session, or when the delete fails, nothing
        changes; otherwise every entry for the word goes. */
    method RemoveWordFromReview(word: string, hasSession: bool, deleted: bool)
      modifies this`userSavedWords, this`isWordSaved
      ensures !(hasSession && deleted) ==> userSavedWords == old(userSavedWords) && isWordSaved == old(isWordSaved)
      ensures hasSession && deleted ==>
                userSavedWords == RemoveKey(old(userSavedWords), SavedWordOf, word) && !isWordSaved
      ensures hasSession && deleted ==> forall s :: s in userSavedWords ==> s.word != word
    {
      if !hasSession || !deleted {
        return;
      }
      userSavedWords := RemoveKey(userSavedWords, SavedWordOf, word);
      isWordSaved := false;
    }
  }

  /** The save in the written toggle misses the change it was meant to store: every
      toggle changes the list, so the list from before the toggle, which is what the
      written toggle saves, is never the list the screen shows. With no bookmarks,
      bookmarking page 3 shows [3] and stores []. */
  lemma StaleBookmarkSave(bookmarks: seq<int>, page: int)
    ensures Toggled(bookmarks, page) != bookmarks
    ensures Toggled([], 3) == [3]
  {
    assert page in Toggled(bookmarks, page) <==> page !in bookmarks;
  }
}
