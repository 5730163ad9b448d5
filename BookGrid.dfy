/**
  The paged book grid (components/library/book-grid.tsx): the row range asked of the
  database, the page count, what a finished or failed fetch does to the grid, the retry
  back-off, and the pager under the grid.
*/
module BookGrid {
  import opened Common

  const BooksPerPage: nat := 12

  /** The message shown when a fetch fails. */
  const FetchErrorMessage: string := "خطا در دریافت اطلاعات کتاب‌ها. لطفاً دوباره تلاش کنید."

  /** A book of the grid; `rating` is its average review rating. */
  datatype GridBook = GridBook(id: string, title: string, rating: real)

  /** The inclusive row range `range((p - 1) * 12, p * 12 - 1)`. */
  datatype RowRange = RowRange(first: int, last: int)

  function QueryRange(page: int): (r: RowRange)
    ensures r.last - r.first + 1 == BooksPerPage
  {
    RowRange((page - 1) * BooksPerPage, page * BooksPerPage - 1)
  }

  /** Consecutive pages ask for adjacent row ranges, and every row belongs to exactly one
      page, so the pages tile the table. */
  lemma QueryRangesTile(page: int, row: nat)
    ensures QueryRange(page).last + 1 == QueryRange(page + 1).first
    ensures QueryRange(row / BooksPerPage + 1).first <= row <= QueryRange(row / BooksPerPage + 1).last
    ensures QueryRange(page).first <= row <= QueryRange(page).last ==> page == row / BooksPerPage + 1
  {
    var p := row / BooksPerPage + 1;
    assert (p - 1) * BooksPerPage <= row < p * BooksPerPage;
    assert page < p ==> page * BooksPerPage <= (p - 1) * BooksPerPage;
    assert page > p ==> p * BooksPerPage <= (page - 1) * BooksPerPage;
  }

  /** `Math.ceil(totalBooks / 12)`. */
  function TotalPages(totalBooks: nat): (r: nat)
    ensures r * BooksPerPage >= totalBooks
    ensures r > 0 ==> (r - 1) * BooksPerPage < totalBooks
  {
    CeilDiv(totalBooks, BooksPerPage)
  }

  /** Every row of the table falls on one of the pages the pager offers. */
  lemma RowsOnOfferedPages(totalBooks: nat, row: nat)
    requires row < totalBooks
    ensures 1 <= row / BooksPerPage + 1 <= TotalPages(totalBooks)
  {
    var p := row / BooksPerPage + 1;
    var t := TotalPages(totalBooks);
    assert p > t ==> t * BooksPerPage <= (p - 1) * BooksPerPage;
  }

  /** The back-off before retry number `retryCount + 1`: `min(1000 * 2^k, 5000)` ms. */
  function RetryDelay(retryCount: nat): (r: nat)
    ensures r <= 5000
    ensures r == 5000 || r == 1000 * Pow2(retryCount)
  {
    Min(1000 * Pow2(retryCount), 5000)
  }

  /** The delays of the retries a run of failures schedules, starting at `retryCount`:
      one per failure while fewer than three retries have happened. */
  function RetryDelays(retryCount: nat): seq<nat>
    decreases 3 - retryCount
  {
    if retryCount >= 3 then [] else [RetryDelay(retryCount)] + RetryDelays(retryCount + 1)
  }

  /** Counting from 0, the three retries a failing fetch may schedule wait 1, 2 and 4 s;
      the 5 s cap is never reached. */
  lemma RetrySchedule()
    ensures RetryDelays(0) == [1000, 2000, 4000]
  {
    assert Pow2(2) == 4;
    assert RetryDelays(3) == [];
  }

  // ---------------------------------------------------------------------------
  // the retry cascade against a database that fails every request

  /** The counts seen by the fetches, among those started, whose failure schedules a
      retry timer: those below three. Each timer keeps the count its fetch saw. */
  function Scheduled(started: seq<nat>): (r: seq<nat>)
    ensures forall k :: 0 <= k < |r| ==> r[k] < 3
    ensures forall c :: c in r <==> c in started && c < 3
    ensures (forall k :: 0 <= k < |started| ==> started[k] < 3) ==> r == started
  {
    if started == [] then []
    else (if started[0] < 3 then [started[0]] else []) + Scheduled(started[1..])
  }

  /** The retry state between renders: the stored count, the pending timers (each with
      the count of the fetch that set it) and the number of fetches made so far. */
  datatype Retries = Retries(retryCount: nat, timers: seq<nat>, fetches: nat)

  /** The mount: the effect resets the count (already 0) and fetches once. */
  function Mount(): (r: Retries)
    ensures r == Retries(0, [0], 1)
  {
    Retries(0, Scheduled([0]), 1)
  }

  /** The next timer firing as written: it bumps the count and calls the `fetchBooks` it
      closed over, which still sees its old count. The bump gives `fetchBooks` a new
      identity, so the effect resets the count to 0 and fetches with the bumped count;
      the reset gives it yet another identity, and the effect fetches again with 0. With
      no timer pending nothing happens. */
  function FireAsWritten(s: Retries): Retries
  {
    if s.timers == [] then s
    else
      var stale := s.timers[0];
      Retries(0, s.timers[1..] + Scheduled([stale, s.retryCount + 1, 0]), s.fetches + 3)
  }

  /** The state after `n` timer firings as written. */
  function RunAsWritten(n: nat): Retries
  {
    if n == 0 then Mount() else FireAsWritten(RunAsWritten(n - 1))
  }

  /** Every pending timer was set by a fetch that saw fewer than three retries. */
  predicate TimersBelowLimit(timers: seq<nat>)
  {
    forall k :: 0 <= k < |timers| ==> timers[k] < 3
  }

  /** After `n` firings as written the count is back at 0, `1 + 3n` fetches have been
      made and `1 + 2n` retries are still pending. */
  lemma {:induction false} RunAsWrittenCounts(n: nat)
    ensures var r := RunAsWritten(n);
      && r.retryCount == 0 && |r.timers| == 1 + 2 * n && r.fetches == 1 + 3 * n
      && TimersBelowLimit(r.timers)
  {
    if n > 0 {
      RunAsWrittenCounts(n - 1);
      FireAsWrittenStep(RunAsWritten(n - 1));
    }
  }

  /** One firing at rest: the fired timer is replaced by the three of the fetches it
      causes, all of which fail while below the limit. */
  lemma FireAsWrittenStep(s: Retries)
    requires s.retryCount == 0 && s.timers != [] && TimersBelowLimit(s.timers)
    ensures FireAsWritten(s) == Retries(0, s.timers[1..] + [s.timers[0], 1, 0], s.fetches + 3)
    ensures TimersBelowLimit(FireAsWritten(s).timers)
  {
    var started := [s.timers[0], 1, 0];
    assert Scheduled(started) == started;
    var t := s.timers[1..] + started;
    assert forall k :: 0 <= k < |t| ==> t[k] < 3 by {
      forall k | 0 <= k < |t| ensures t[k] < 3 {
        if k < |s.timers| - 1 {
          assert t[k] == s.timers[k + 1];
        }
      }
    }
  }

  /** The discrepancy: however many retries have fired, another one is pending, so the
      three-retry limit never takes effect and the requests multiply. */
  lemma RetriesNeverStop(n: nat)
    ensures RunAsWritten(n).timers != []
    ensures RunAsWritten(n).fetches > n
    ensures n >= 3 ==> RunAsWritten(n).fetches > RunIntended(n).fetches
  {
    RunAsWrittenCounts(n);
    if n >= 3 {
      IntendedStops(n);
    }
  }

  /** The next timer firing as intended: the count goes up by one and the fetch sees it,
      scheduling another retry only while fewer than three have run. */
  function FireIntended(s: Retries): Retries
  {
    if s.timers == [] then s
    else
      var count := s.retryCount + 1;
      Retries(count, s.timers[1..] + Scheduled([count]), s.fetches + 1)
  }

  /** The state after `n` firings as intended. */
  function RunIntended(n: nat): Retries
  {
    if n == 0 then Mount() else FireIntended(RunIntended(n - 1))
  }

  /** Up to the third firing as intended, `n` retries are counted, `n + 1` fetches made,
      and one timer is pending until the third retry and none after it. */
  lemma {:induction false} RunIntendedCounts(n: nat)
    requires n <= 3
    ensures RunIntended(n) == Retries(n, if n < 3 then [n] else [], n + 1)
  {
    if n > 0 {
      RunIntendedCounts(n - 1);
      FireIntendedStep(n - 1);
    }
  }

  /** One firing as intended below the limit: one more retry counted and one more fetch. */
  lemma FireIntendedStep(count: nat)
    requires count < 3
    ensures FireIntended(Retries(count, [count], count + 1))
         == Retries(count + 1, if count + 1 < 3 then [count + 1] else [], count + 2)
  {
    assert [count][1..] == [];
    if count + 1 < 3 {
      assert Scheduled([count + 1]) == [count + 1];
    } else {
      assert Scheduled([count + 1]) == [];
    }
  }

  /** After the third retry nothing more happens. */
  lemma {:induction false} IntendedStops(n: nat)
    requires n >= 3
    ensures RunIntended(n) == Retries(3, [], 4)
  {
    if n == 3 {
      RunIntendedCounts(3);
    } else {
      IntendedStops(n - 1);
      assert RunIntended(n) == FireIntended(RunIntended(n - 1));
    }
  }

  /** As intended, the timers the retries wait on hold the counts 0, 1 and 2, that is the
      delays 1, 2 and 4 s, and no fourth retry follows. */
  lemma IntendedSchedule()
    ensures RunIntended(3).timers == []
    ensures [RetryDelay(RunIntended(0).timers[0]), RetryDelay(RunIntended(1).timers[0]),
             RetryDelay(RunIntended(2).timers[0])] == RetryDelays(0)
  {
    RunIntendedCounts(0);
    RunIntendedCounts(1);
    RunIntendedCounts(2);
    RunIntendedCounts(3);
    RetrySchedule();
  }

  /** The rating sort: higher average first. */
  predicate HigherRated(a: GridBook, b: GridBook) { a.rating >= b.rating }

  lemma HigherRatedIsPreorder()
    ensures TotalPreorder(HigherRated)
  {
  }

  /** What a query returns: the page of rows and the exact count, or an error. */
  datatype FetchOutcome = Fetched(rows: seq<GridBook>, count: Option<nat>) | FetchFailed

  /** A page button is drawn for the first and last page and the pages next to the
      current one. */
  predicate ButtonShown(pageNumber: int, currentPage: int, totalPages: int)
  {
    pageNumber == 1 || pageNumber == totalPages || (currentPage - 1 <= pageNumber <= currentPage + 1)
  }

  /** Between the first and the last page, the drawn buttons form one unbroken run around
      the current page. */
  lemma ButtonsContiguous(a: int, b: int, n: int, currentPage: int, totalPages: int)
    requires 1 < a <= n <= b < totalPages
    requires ButtonShown(a, currentPage, totalPages) && ButtonShown(b, currentPage, totalPages)
    ensures ButtonShown(n, currentPage, totalPages)
    ensures b - a <= 2
  {
  }

  /** The previous arrow asks for `max(1, p - 1)` and the next arrow for
      `min(totalPages, p + 1)`; from a page inside the pager both stay inside it. */
  function PreviousTarget(currentPage: int): (r: int)
    ensures r >= 1
    ensures currentPage > 1 ==> r == currentPage - 1
  {
    Max(1, currentPage - 1)
  }

  function NextTarget(currentPage: int, totalPages: int): (r: int)
    ensures r <= totalPages
    ensures currentPage < totalPages ==> r == currentPage + 1
  {
    Min(totalPages, currentPage + 1)
  }

  lemma ArrowTargetsInRange(currentPage: int, totalPages: int)
    requires 1 <= currentPage <= totalPages
    ensures 1 <= PreviousTarget(currentPage) <= currentPage
    ensures currentPage <= NextTarget(currentPage, totalPages) <= totalPages
    ensures PreviousTarget(currentPage) == currentPage <==> currentPage == 1
    ensures NextTarget(currentPage, totalPages) == currentPage <==> currentPage == totalPages
  {
  }

  /** The grid's state. */
  class Grid {
    var books: seq<GridBook>
    var totalBooks: nat
    var currentPage: int
    var error: Option<string>
    var retryCount: nat
    var isLoading: bool

    constructor()
      ensures books == [] && totalBooks == 0 && currentPage == 1
      ensures error.None? && retryCount == 0 && isLoading
    {
      books := [];
      totalBooks := 0;
      currentPage := 1;
      error := None;
      retryCount := 0;
      isLoading := true;
    }

    /** The pager is drawn only when there is more than one page. */
    predicate PagerShown()
      reads this
    {
      TotalPages(totalBooks) > 1
    }

    /** The end of `fetchBooks`: a result replaces the books and the total (sorted by
        rating when asked) and clears the error; a failure empties the grid, sets the
        error and, while fewer than three retries have run, asks for a retry after the
        back-off delay. */
    method FinishFetch(sort: string, outcome: FetchOutcome) returns (retryAfter: Option<nat>)
      modifies this`books, this`totalBooks, this`error, this`isLoading
      ensures !isLoading
      ensures outcome.Fetched? ==>
                && books == (if sort == "rating" then SortBy(outcome.rows, HigherRated) else outcome.rows)
                && totalBooks == (if outcome.count.Some? then outcome.count.value else 0)
                && error.None? && retryAfter.None?
      ensures outcome.FetchFailed? ==>
                && books == [] && totalBooks == 0 && error == Some(FetchErrorMessage)
                && retryAfter == (if retryCount < 3 then Some(RetryDelay(retryCount)) else None)
      ensures outcome.Fetched? ==> multiset(books) == multiset(outcome.rows)
      ensures outcome.Fetched? && sort == "rating" ==> SortedBy(books, HigherRated)
    {
      if outcome.Fetched? {
        var booksWithRating := outcome.rows;
        if sort == "rating" {
          HigherRatedIsPreorder();
          SortBySorted(booksWithRating, HigherRated);
          booksWithRating := SortBy(booksWithRating, HigherRated);
        }
        books := booksWithRating;
        totalBooks := if outcome.count.Some? then outcome.count.value else 0;
        error := None;
        retryAfter := None;
      } else {
        error := Some(FetchErrorMessage);
        books := [];
        totalBooks := 0;
        retryAfter := if retryCount < 3 then Some(RetryDelay(retryCount)) else None;
      }
      isLoading := false;
    }

    /** The retry timer firing: one more retry is counted before fetching again. */
    method RetryFired()
      modifies this`retryCount
      ensures retryCount == old(retryCount) + 1
    {
      retryCount := retryCount + 1;
    }

    /** A new query (filters, sort or page changed) starts with no retries counted. */
    method QueryChanged()
      modifies this`retryCount, this`isLoading
      ensures retryCount == 0 && isLoading
    {
      retryCount := 0;
      isLoading := true;
    }

    /** `handlePageChange`: the page is set to whatever the pager asked for. */
    method HandlePageChange(page: int)
      modifies this`currentPage
      ensures currentPage == page
    {
      currentPage := page;
    }
  }
}
