/**
  The reading dashboard (components/dashboard/reading-progress.tsx): the shaping of the
  fetched sessions, the look-back of each time frame, the summary figures, the reading
  time text and the list of recent sessions.
*/
module ReadingProgress {
  import opened Common

  const UnknownBookTitle: string := "کتاب ناشناخته"
  const HoursWord: string := " ساعت و "
  const MinutesWord: string := " دقیقه"

  /** A session as the dashboard holds it. */
  datatype Session = Session(
    id: string,
    bookId: string,
    bookTitle: string,
    pagesRead: int,
    readingTime: int,
    sessionDate: string,
    slug: string)

  datatype BookRef = BookRef(title: string, slug: string)

  /** A row of the query; `books` is the joined list, absent when the join is null. */
  datatype SessionRow = SessionRow(
    id: string,
    bookId: string,
    pagesRead: int,
    readingTime: int,
    sessionDate: string,
    books: Option<seq<BookRef>>)

  /** The `map` of the fetch: the first joined book's title or "unknown book", and its
      slug or the empty string. */
  function Formatted(row: SessionRow): (s: Session)
    ensures s.id == row.id && s.bookId == row.bookId && s.pagesRead == row.pagesRead
    ensures s.readingTime == row.readingTime && s.sessionDate == row.sessionDate
    ensures (row.books.None? || row.books.value == []) ==> s.bookTitle == UnknownBookTitle && s.slug == ""
    ensures row.books.Some? && row.books.value != [] && row.books.value[0].title != "" ==>
              s.bookTitle == row.books.value[0].title
    ensures row.books.Some? && row.books.value != [] && row.books.value[0].slug != "" ==>
              s.slug == row.books.value[0].slug
    ensures s.bookTitle != ""
  {
    var first := if row.books.Some? && row.books.value != [] then Some(row.books.value[0]) else None;
    Session(row.id, row.bookId,
            if first.Some? && first.value.title != "" then first.value.title else UnknownBookTitle,
            row.pagesRead, row.readingTime, row.sessionDate,
            if first.Some? && first.value.slug != "" then first.value.slug else "")
  }

  /** What the dashboard holds after a fetch: the shaped rows, or the previous sessions
      when the query failed. */
  function AfterFetch(previous: seq<Session>, outcome: Option<seq<SessionRow>>): (r: seq<Session>)
    ensures outcome.None? ==> r == previous
    ensures outcome.Some? ==> |r| == |outcome.value|
    ensures outcome.Some? ==> forall k :: 0 <= k < |r| ==> r[k] == Formatted(outcome.value[k])
  {
    if outcome.None? then previous
    else seq(|outcome.value|, k requires 0 <= k < |outcome.value| => Formatted(outcome.value[k]))
  }

  /** The three time frames and how far back each one reaches from now. */
  datatype Timeframe = Week | Month | Year

  datatype Lookback = Days(days: nat) | Months(months: nat) | Years(years: nat)

  function LookbackOf(t: Timeframe): (r: Lookback)
    ensures t == Week <==> r == Days(7)
    ensures t == Month <==> r == Months(1)
    ensures t == Year <==> r == Years(1)
  {
    match t
    case Week => Days(7)
    case Month => Months(1)
    case Year => Years(1)
  }

  // ---------------------------------------------------------------------------
  // the summary figures

  function PagesOf(sessions: seq<Session>): (r: seq<int>)
    ensures |r| == |sessions|
    ensures forall k :: 0 <= k < |r| ==> r[k] == sessions[k].pagesRead
  {
    seq(|sessions|, k requires 0 <= k < |sessions| => sessions[k].pagesRead)
  }

  function TimesOf(sessions: seq<Session>): (r: seq<int>)
    ensures |r| == |sessions|
    ensures forall k :: 0 <= k < |r| ==> r[k] == sessions[k].readingTime
  {
    seq(|sessions|, k requires 0 <= k < |sessions| => sessions[k].readingTime)
  }

  /** `new Set(sessions.map(s => s.book_id))`. */
  function BookIds(sessions: seq<Session>): (r: set<string>)
    ensures forall id :: id in r <==> exists k :: 0 <= k < |sessions| && sessions[k].bookId == id
  {
    if sessions == [] then {}
    else
      assert forall k :: 1 <= k < |sessions| ==> sessions[k] == sessions[1..][k - 1];
      {sessions[0].bookId} + BookIds(sessions[1..])
  }

  datatype Stats = Stats(totalPagesRead: int, totalReadingTime: int, uniqueBooks: nat)

  /** `calculateStats`. */
  function CalculateStats(sessions: seq<Session>): (s: Stats)
    ensures s.uniqueBooks == |BookIds(sessions)|
  {
    Stats(Sum(PagesOf(sessions)), Sum(TimesOf(sessions)), |BookIds(sessions)|)
  }

  /** There are never more distinct books than sessions, and at least one when there is
      a session. */
  lemma {:induction false} UniqueBooksBound(sessions: seq<Session>)
    ensures |BookIds(sessions)| <= |sessions|
    ensures sessions != [] ==> |BookIds(sessions)| >= 1
  {
    if sessions != [] {
      UniqueBooksBound(sessions[1..]);
      assert sessions[0].bookId in BookIds(sessions);
    }
  }

  /** The figures of two runs of sessions put together: pages and time add up, and the
      distinct books are at most those of both runs. */
  lemma StatsOfConcatenation(a: seq<Session>, b: seq<Session>)
    ensures CalculateStats(a + b).totalPagesRead == CalculateStats(a).totalPagesRead + CalculateStats(b).totalPagesRead
    ensures CalculateStats(a + b).totalReadingTime == CalculateStats(a).totalReadingTime + CalculateStats(b).totalReadingTime
    ensures CalculateStats(a + b).uniqueBooks <= CalculateStats(a).uniqueBooks + CalculateStats(b).uniqueBooks
  {
    assert PagesOf(a + b) == PagesOf(a) + PagesOf(b);
    assert TimesOf(a + b) == TimesOf(a) + TimesOf(b);
    SumAppend(PagesOf(a), PagesOf(b));
    SumAppend(TimesOf(a), TimesOf(b));
    BookIdsAppend(a, b);
  }

  /** The books of two runs put together are the books of either. */
  lemma BookIdsAppend(a: seq<Session>, b: seq<Session>)
    ensures BookIds(a + b) == BookIds(a) + BookIds(b)
  {
    forall id ensures id in BookIds(a + b) <==> id in BookIds(a) + BookIds(b) {
      if id in BookIds(a + b) {
        var k :| 0 <= k < |a + b| && (a + b)[k].bookId == id;
        if k >= |a| {
          assert b[k - |a|].bookId == id;
        }
      }
      if id in BookIds(b) {
        var k :| 0 <= k < |b| && b[k].bookId == id;
        assert (a + b)[|a| + k].bookId == id;
      }
      if id in BookIds(a) {
        var k :| 0 <= k < |a| && a[k].bookId == id;
        assert (a + b)[k].bookId == id;
      }
    }
  }

  /** With no negative page counts or times, the totals are not negative either. */
  lemma TotalsNonNegative(sessions: seq<Session>)
    requires forall k :: 0 <= k < |sessions| ==> sessions[k].pagesRead >= 0 && sessions[k].readingTime >= 0
    ensures CalculateStats(sessions).totalPagesRead >= 0
    ensures CalculateStats(sessions).totalReadingTime >= 0
  {
    SumNonNegative(PagesOf(sessions));
    SumNonNegative(TimesOf(sessions));
  }

  // ---------------------------------------------------------------------------
  // the reading time text

  /** `minutes % 60` as JavaScript computes it: the sign follows the dividend. */
  function JsRem60(minutes: int): (r: int)
    ensures -60 < r < 60
    ensures minutes >= 0 ==> r == minutes % 60
  {
    if minutes >= 0 then minutes % 60 else -((-minutes) % 60)
  }

  /** `n.toString()` for any integer. */
  function IntStr(n: int): (r: string)
    ensures |r| >= 1
  {
    if n < 0 then "-" + NatStr(-n) else NatStr(n)
  }

  /** `formatReadingTime`: hours are `Math.floor(minutes / 60)` and are left out unless
      positive. Every text ends with the minutes and the word for them. */
  function FormatReadingTime(minutes: int): (r: string)
    ensures |r| > |MinutesWord| && r[|r| - |MinutesWord|..] == MinutesWord
  {
    var hours := minutes / 60;
    var mins := JsRem60(minutes);
    var lead := if hours > 0 then IntStr(hours) + HoursWord + IntStr(mins) else IntStr(mins);
    assert (lead + MinutesWord)[|lead|..] == MinutesWord;
    lead + MinutesWord
  }

  /** For a non-negative time the text names whole hours and the minutes left over,
      which read back as the original number of minutes; under an hour it names only the
      minutes. */
  lemma FormatReadingTimeReadsBack(minutes: nat)
    ensures minutes < 60 ==> FormatReadingTime(minutes) == NatStr(minutes) + MinutesWord
    ensures minutes >= 60 ==> exists h: nat, m: nat ::
              && FormatReadingTime(minutes) == NatStr(h) + HoursWord + NatStr(m) + MinutesWord
              && h >= 1 && m < 60
              && ParseNat(NatStr(h)) * 60 + ParseNat(NatStr(m)) == minutes
  {
    if minutes >= 60 {
      var h: nat, m: nat := minutes / 60, minutes % 60;
      NatStrRoundTrip(h);
      NatStrRoundTrip(m);
      HoursText(minutes);
      assert ParseNat(NatStr(h)) * 60 + ParseNat(NatStr(m)) == minutes by {
        assert ParseNat(NatStr(h)) == h && ParseNat(NatStr(m)) == m;
        assert h * 60 + m == minutes;
      }
      assert FormatReadingTime(minutes) == NatStr(h) + HoursWord + NatStr(m) + MinutesWord;
    } else {
      MinutesText(minutes);
    }
  }

  /** Under an hour: the minutes alone. */
  lemma MinutesText(minutes: nat)
    requires minutes < 60
    ensures FormatReadingTime(minutes) == NatStr(minutes) + MinutesWord
  {
    assert minutes / 60 == 0 && minutes % 60 == minutes;
    assert JsRem60(minutes) == minutes;
    assert IntStr(minutes) == NatStr(minutes);
  }

  /** An hour or more: whole hours, then the minutes left over. */
  lemma HoursText(minutes: nat)
    requires minutes >= 60
    ensures FormatReadingTime(minutes) == NatStr(minutes / 60) + HoursWord + NatStr(minutes % 60) + MinutesWord
  {
    assert minutes / 60 > 0;
    assert JsRem60(minutes) == minutes % 60;
  }

  /** The recent list: `sessions.slice(0, 5)`. */
  function Recent(sessions: seq<Session>): (r: seq<Session>)
    ensures |r| == Min(5, |sessions|)
    ensures r == sessions[..|r|]
  {
    JsSlice(sessions, 0, 5)
  }
}
