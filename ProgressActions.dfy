/**
  The reading-progress server actions (lib/actions/progress-actions.ts) on an in-memory
  copy of the tables they touch: `reading_progress` (one row per user and book),
  `reading_sessions` and `reading_history`. The signed-in user and the clock are inputs.
*/
module ProgressActions {
  import opened Common

  /** A `reading_progress` row; `readingTime` is in minutes. */
  datatype Progress = Progress(currentPage: int, lastReadAt: int, readingTime: int, bookmarks: seq<int>)

  datatype Key = Key(userId: string, bookId: string)

  /** A `reading_sessions` row. */
  datatype Session = Session(userId: string, bookId: string, pagesRead: int, readingTime: int, sessionDate: int)

  /** A `reading_history` row. */
  datatype HistoryEntry = HistoryEntry(userId: string, bookId: string, page: int, readAt: int)

  /** What `getReadingProgress` hands back. */
  datatype ProgressView = ProgressView(currentPage: int, lastReadAt: Option<int>, bookmarks: seq<int>)

  const NoProgress: ProgressView := ProgressView(1, None, [])

  /** A session is logged only for more than thirty seconds of reading. */
  const MinSessionSeconds: nat := 30

  /** Adding a bookmark that is already there changes nothing. */
  function WithBookmark(bookmarks: seq<int>, page: int): (r: seq<int>)
    ensures page in r
    ensures forall x :: x in r <==> x in bookmarks || x == page
    ensures page in bookmarks ==> r == bookmarks
    ensures page !in bookmarks ==> r == bookmarks + [page]
  {
    if page !in bookmarks then bookmarks + [page] else bookmarks
  }

  /** Removing a bookmark drops every copy of that page and keeps the others in order. */
  function WithoutBookmark(bookmarks: seq<int>, page: int): (r: seq<int>)
    ensures page !in r
    ensures forall x :: x in r <==> x in bookmarks && x != page
    ensures |r| == |bookmarks| - Count(bookmarks, b => b == page)
  {
    FilterMembers(bookmarks, b => b != page);
    CountComplement(bookmarks, b => b != page, b => b == page);
    Filter(bookmarks, b => b != page)
  }

  /** Adding is idempotent, removing is idempotent, and removing after adding leaves no
      bookmark on the page. */
  lemma BookmarkEdits(bookmarks: seq<int>, page: int)
    ensures WithBookmark(WithBookmark(bookmarks, page), page) == WithBookmark(bookmarks, page)
    ensures WithoutBookmark(WithoutBookmark(bookmarks, page), page) == WithoutBookmark(bookmarks, page)
    ensures forall x :: x in WithoutBookmark(WithBookmark(bookmarks, page), page) <==> x in bookmarks && x != page
  {
    var once := WithoutBookmark(bookmarks, page);
    FilterAll(once, b => b != page);
  }

  class Tables {
    var progress: map<Key, Progress>
    var sessions: seq<Session>
    var history: seq<HistoryEntry>

    constructor()
      ensures progress == map[] && sessions == [] && history == []
    {
      progress := map[];
      sessions := [];
      history := [];
    }

    /** `saveReadingProgress`: fails without a user and writes nothing. Otherwise the
        user's row for the book gets the page and the reading time in whole minutes added
        (a new row starts with those minutes and no bookmarks); a session of more than
        thirty seconds is logged with the pages advanced since the stored page (0 when
        there was none); and the page goes into the history. */
    method SaveReadingProgress(user: Option<string>, bookId: string, currentPage: int, readingTime: nat, now: int)
      returns (success: bool)
      modifies this
      ensures success <==> user.Some?
      ensures user.None? ==> progress == old(progress) && sessions == old(sessions) && history == old(history)
      ensures user.Some? ==>
                var key := Key(user.value, bookId);
                var minutes := readingTime / 60;
                && progress == old(progress)[key :=
                     if key in old(progress)
                     then old(progress)[key].(currentPage := currentPage, lastReadAt := now,
                                              readingTime := old(progress)[key].readingTime + minutes)
                     else Progress(currentPage, now, minutes, [])]
                && sessions == old(sessions) +
                     (if readingTime > MinSessionSeconds
                      then [Session(user.value, bookId,
                                    currentPage - (if key in old(progress) then old(progress)[key].currentPage else 0),
                                    minutes, now)]
                      else [])
                && history == old(history) + [HistoryEntry(user.value, bookId, currentPage, now)]
      ensures success ==> GetReadingProgress(user, bookId).currentPage == currentPage
      ensures forall k :: k in old(progress) && (user.None? || k != Key(user.value, bookId)) ==>
                k in progress && progress[k] == old(progress)[k]
    {
      if user.None? {
        return false;
      }
      var key := Key(user.value, bookId);
      var minutes := readingTime / 60;
      var existing: Option<Progress> := if key in progress then Some(progress[key]) else None;
      if existing.Some? {
        progress := progress[key := existing.value.(currentPage := currentPage, lastReadAt := now,
                                                   readingTime := existing.value.readingTime + minutes)];
      } else {
        progress := progress[key := Progress(currentPage, now, minutes, [])];
      }
      if readingTime > MinSessionSeconds {
        var previousPage := if existing.Some? then existing.value.currentPage else 0;
        sessions := sessions + [Session(user.value, bookId, currentPage - previousPage, minutes, now)];
      }
      history := history + [HistoryEntry(user.value, bookId, currentPage, now)];
      success := true;
    }

    /** `getReadingProgress`: the stored page, time and bookmarks, or page 1 with no
        bookmarks when there is no user or no row. */
    function GetReadingProgress(user: Option<string>, bookId: string): (r: ProgressView)
      reads this
      ensures user.None? || Key(user.value, bookId) !in progress ==> r == NoProgress
      ensures user.Some? && Key(user.value, bookId) in progress ==>
                var p := progress[Key(user.value, bookId)];
                r == ProgressView(p.currentPage, Some(p.lastReadAt), p.bookmarks)
    {
      if user.None? then NoProgress
      else if Key(user.value, bookId) !in progress then NoProgress
      else
        var p := progress[Key(user.value, bookId)];
        ProgressView(p.currentPage, Some(p.lastReadAt), p.bookmarks)
    }

    /** `saveBookmark`: fails without a user. With no row one is created on that page
        with no reading time and, when adding, that one bookmark; otherwise the page is
        added (once) to or removed (every copy) from the row's bookmarks. */
    method SaveBookmark(user: Option<string>, bookId: string, page: int, add: bool, now: int)
      returns (success: bool)
      modifies this`progress
      ensures success <==> user.Some?
      ensures user.None? ==> progress == old(progress)
      ensures user.Some? ==>
                var key := Key(user.value, bookId);
                progress == old(progress)[key :=
                  if key !in old(progress) then Progress(page, now, 0, if add then [page] else [])
                  else old(progress)[key].(bookmarks :=
                         if add then WithBookmark(old(progress)[key].bookmarks, page)
                         else WithoutBookmark(old(progress)[key].bookmarks, page))]
      ensures success ==> (page in GetReadingProgress(user, bookId).bookmarks <==> add)
    {
      if user.None? {
        return false;
      }
      var key := Key(user.value, bookId);
      if key !in progress {
        progress := progress[key := Progress(page, now, 0, if add then [page] else [])];
      } else {
        var bookmarks := progress[key].bookmarks;
        if add {
          if page !in bookmarks {
            bookmarks := bookmarks + [page];
          }
        } else {
          bookmarks := WithoutBookmark(bookmarks, page);
        }
        progress := progress[key := progress[key].(bookmarks := bookmarks)];
      }
      success := true;
    }
  }
}
