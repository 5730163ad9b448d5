# A verified model of a Next.js reading app and its channel-overlap script

The system is a language-learning reading app built with Next.js and Supabase. It has:

- a public library of graded books;
- a book reader (plain, preview and page-flip) with bookmarks and a clickable glossary;
- reading-progress tracking and a dashboard;
- a personal vocabulary with spaced-repetition review, flashcards and a daily quiz;
- an admin area for books, book words, API keys and activity figures;
- a subscription page;
- the sign-up, profile and add-word forms.

The repository also ships `ss.py`. This script asks a video platform's data API about two channels and counts the subscribers the two channels share. It then pairs every collected subscriber of both channels, shared or not, by position with the view counts of both channels' videos, sums the counts per identifier and ranks the five largest totals.

This project models the logic of those files in Dafny, with one module per source file (`Common` holds the pieces of the JavaScript runtime the code relies on; `Schema` holds the form rules shared by the three forms).

- A component or hook that keeps state becomes a `class`. Its state variables are fields, and each event handler is a method that changes those fields and states the whole new state in its `ensures`.
- Derived values (filters, sorts, page slices, labels) and server actions become functions on values, with lemmas.
- What the database, the authentication service, the clock, randomness or another service answers is a parameter of the operation that receives it. What a handler sends out (a row to insert, a page to open, an error to show) is part of its result.

JavaScript's behaviour is written out wherever it matters:

- `%` keeps the sign of its dividend;
- `slice` clamps its bounds;
- `Array.prototype.sort` is a stable sort under the given comparator;
- `Math.ceil` of a quotient is a ceiling division.

## Model

| member | source | states |
|---|---|---|
| ChannelOverlap.StopIndex | ss.py:38-46 | the paging loop stops at the first response without `nextPageToken`; every response before it has one |
| ChannelOverlap.TokensSent | ss.py:43-44 | each request after the first carries the token of the response before it |
| ChannelOverlap.CollectPages | ss.py:36-46 | the shared paging loop collects every item of every response up to the stop, in page order, and sends each response's token with the next request |
| ChannelOverlap.FetchSubscriberIds | ss.py:27-48 | the subscriber ids are the items of all pages up to the first without a token, in order; no result when the responses run out first |
| ChannelOverlap.FetchVideoViewCounts | ss.py:51-86 | video ids are collected by the same paging loop, then sent in one statistics request whose id list is their comma join; the view counts are the statistics response in its order |
| ChannelOverlap.JoinCommaRoundTrip | ss.py:76 | the comma-joined id list names exactly the collected ids, in order, when no id contains a comma |
| ChannelOverlap.FetchData | ss.py:20-24 | the channel profile is the first item of the metadata response; an empty item list is an error |
| ChannelOverlap.CommonCountSymmetric | ss.py:97 | the number of common subscribers does not depend on which channel is first |
| ChannelOverlap.CommonCountIgnoresDuplicates | ss.py:97 | duplicates in either subscriber list do not change the count (it is a set intersection) |
| ChannelOverlap.CommonCountBounded | ss.py:97 | the common count never exceeds either list's length |
| ChannelOverlap.CommonCountExample | ss.py:97 | {s1,s2,s3} and {s2,s3,s4} share two subscribers |
| ChannelOverlap.AccumulateViews | ss.py:102-107 | `zip` pairs the lists up to the shorter one; each key ends up holding the sum of the counts paired with it, keys in first-insertion order |
| ChannelOverlap.AccumulateOne | ss.py:104-107 | one pair adds its count to its video's total, inserting the video at the end of the key order when it is new; the loop invariant (per-key sums, distinct keys in first-occurrence order, total equal to the sum of the counts so far) is kept |
| ChannelOverlap.TopFive | ss.py:108 | min(5, n) entries, the most viewed first, drawn from the input, ties kept in dict order, total never above the total of all entries, and every entry left out has no more views than any entry kept |
| ChannelOverlap.RankVideos | ss.py:102-108 | the loop's dict, ranked and cut to five, is `Ranking` of the two lists (the ranking of the per-key sums of the zipped pairs), and its view counts sum to at most the counts of all the pairs |
| ChannelOverlap.PairTotals | ss.py:102-107 | the dict of the pairs has exactly the keys of the pairs |
| ChannelOverlap.RankPairsProperties | ss.py:102-108 | the ranking of the pairs holds min(5, number of distinct keys) entries, most viewed first; each is a key of the pairs with the sum of its paired counts; a key left out has no more views than any entry kept |
| ChannelOverlap.RankedOfItems | ss.py:102-108 | any top-five cut of the dict's items carries those same four properties |
| ChannelOverlap.ItemsAt | ss.py:108 | `items()` lists one entry per key, in key order, with its total |
| ChannelOverlap.CalculateOverlap | ss.py:89-128 | it reports exactly when both channels are found, all four paging loops end and the first channel's subscriber and view counts are non-zero, and otherwise names the first failure (channel not found, paging not finished, division by zero); a report satisfies `Reports`: both profiles, the common-subscriber count of the two collected subscriber lists, the viewed videos as `Ranking` of the two subscriber lists zipped with the view counts of both channels' searches, at most five of them, and their view sum as the percentage numerator |
| ChannelOverlap.Summarise | ss.py:96-112 | once everything is fetched, a report exactly when the first channel's counts are non-zero, holding the common count, the `Ranking` of the paired lists and its view total; otherwise division by zero |
| Pagination.KeptPages | components/library/pagination.tsx:20-29 | the kept pages are, in increasing order, exactly the first, the last and those within two of the current page |
| Pagination.WithDots | components/library/pagination.tsx:31-41 | no kept pages give no items, and any kept page gives some (their shape is stated by WithDotsShape) |
| Pagination.WithDotsShape | components/library/pagination.tsx:31-41 | the forEach pass keeps every kept page in order and puts at most one item between two of them |
| Pagination.WithDotsNumbers | components/library/pagination.tsx:31-41 | every number the pass emits is a kept page or the single page that fills a gap of two |
| Pagination.WithDotsCovers | components/library/pagination.tsx:31-41 | every kept page appears in the pager |
| Pagination.PagerFromKept | components/library/pagination.tsx:19-44 | built from the kept pages, the pager is well formed and covers the first, last and nearby pages |
| Pagination.FillGaps | components/library/pagination.tsx:31-41 | the forEach loop over the kept pages builds exactly the pass that `WithDots` defines, whose shape the three lemmas above state |
| Pagination.GetPageNumbers | components/library/pagination.tsx:19-44 | no items without pages; increasing numbers, a gap of exactly two filled by the page between, a larger gap marked by one "..."; first, last and every page within two of the current one present |
| Pagination.Previous | components/library/pagination.tsx:53-57 | `onPageChange` is called with the page before exactly when the current page is above 1 |
| Pagination.Next | components/library/pagination.tsx:59-63 | `onPageChange` is called with the page after exactly when the current page is below the last |
| Pagination.PreviousNextInRange | components/library/pagination.tsx:53-63 | from a page inside the pager both handlers stay inside it and undo each other |
| LibraryClient.ReadingIds | components/library/library-client.tsx:176 | the reading ids are the book ids of the progress records, in order |
| LibraryClient.OrderIsPreorder | components/library/library-client.tsx:186-201 | each sort comparator is a total preorder, so the stable sort is determined |
| LibraryClient.Listed | components/library/library-client.tsx:140-201 | a book is listed exactly when it is in the catalogue and passes every active criterion, and the listing never adds books |
| LibraryClient.ListedProperties | components/library/library-client.tsx:140-201 | each passing book is listed as often as in the catalogue, and the list is sorted by the chosen order with ties in catalogue order |
| LibraryClient.ListedByDate | components/library/library-client.tsx:187-192 | "newest" lists later books first and "oldest" earlier books first |
| LibraryClient.ClearedListsAll | components/library/library-client.tsx:299-309 | with every criterion cleared the whole catalogue is listed, newest first |
| LibraryClient.ClearedMatchesAll | components/library/library-client.tsx:299-309 | the cleared criteria let every book through |
| LibraryClient.NarrowBy | components/library/library-client.tsx:146-183 | one narrowing step keeps the books passing its criterion when it is active and leaves the list alone otherwise |
| LibraryClient.AllStages | components/library/library-client.tsx:146-183 | the seven successive filters keep exactly the books matching all criteria |
| LibraryClient.InactivePasses | components/library/library-client.tsx:146-183 | a criterion whose guard is off (empty search, "all", switch off) lets every book through, so skipping its filter changes nothing |
| LibraryClient.NarrowBySelects | components/library/library-client.tsx:155-173 | the category, level, language and type steps keep exactly the books passing the search and those four criteria |
| LibraryClient.NarrowByToggles | components/library/library-client.tsx:175-183 | the reading and bookmarked steps keep exactly the books passing all seven criteria |
| LibraryClient.Narrow | components/library/library-client.tsx:143-183 | the successive `filter` reassignments keep exactly the matching books |
| LibraryClient.FindCategory | components/library/library-client.tsx:216 | `find` gives the first category with the id, or nothing when none has it |
| LibraryClient.BadgesProperties | components/library/library-client.tsx:214-243 | at most six badges; none exactly when no filter is active (a category id naming no category shows none); the category name first, the bookmarked badge last, each chosen level's and language's label present |
| LibraryClient.ActiveFilters | components/library/library-client.tsx:214-243 | the pushes build exactly the badge list whose properties `BadgesProperties` states |
| LibraryClient.SelectBadges | components/library/library-client.tsx:214-237 | the four select-box pushes give the category name when the id names a category, then the level, language and type labels of the choices not at "all" |
| LibraryClient.ToggleBadges | components/library/library-client.tsx:238-243 | the two switch pushes give the reading badge, then the bookmarked badge, each only when its switch is on |
| LibraryClient.BookProgress | components/library/library-client.tsx:319-322 | the page of the first progress record of the book, 0 without one |
| LibraryClient.ButtonFor | components/library/library-client.tsx:585-609 | a button for the first, the last and the pages next to the current one; "..." two pages away when the current page is far enough from the ends |
| LibraryClient.EllipsisBetweenButtons | components/library/library-client.tsx:585-609 | an ellipsis never replaces the first or last page, never sits next to another ellipsis and always borders a button |
| LibraryClient.LibraryView.constructor | components/library/library-client.tsx:74-90 | the initial state: the given books listed, every criterion off, page 1 of 1 |
| LibraryClient.FilterEffect | components/library/library-client.tsx:140-211 | on any page, the page count is the ceiling of the matches over the page size and the books shown are at most one page of the sorted matches, each a catalogue book that passes every criterion |
| LibraryClient.LibraryView.RunFilterEffect | components/library/library-client.tsx:140-250 | the component's page count and shown books are those of its catalogue and criteria (at most one page, each a catalogue book passing every criterion), and the badges are rebuilt from its criteria and categories |
| LibraryClient.LibraryView.ClearAllFilters | components/library/library-client.tsx:299-309 | every criterion back to its default and the first page |
| LibraryClient.LibraryView.ChangePage | components/library/library-client.tsx:312-316 | the page changes only to a page between 1 and the page count |
| BookGrid.QueryRange | components/library/book-grid.tsx:114 | a page asks for an inclusive row range of exactly twelve rows |
| BookGrid.QueryRangesTile | components/library/book-grid.tsx:114 | consecutive pages ask for adjacent ranges and every row belongs to exactly one page |
| BookGrid.TotalPages | components/library/book-grid.tsx:167 | the page count is the least number of twelve-row pages that hold all books |
| BookGrid.RowsOnOfferedPages | components/library/book-grid.tsx:114-167 | every row of the table falls on a page the pager offers |
| BookGrid.RetryDelay | components/library/book-grid.tsx:146 | the back-off is `1000 * 2^k` ms capped at 5000 |
| BookGrid.RetrySchedule | components/library/book-grid.tsx:141-147 | counting from 0, the three retries a failing fetch may schedule wait 1, 2 and 4 s; the cap is never reached |
| BookGrid.Scheduled | components/library/book-grid.tsx:141-147 | a failing fetch sets a retry timer exactly when the count it saw is below three, and the timer keeps that count |
| BookGrid.Mount | components/library/book-grid.tsx:153-156 | the mount fetches once with the count at 0, and that failing fetch leaves one retry pending |
| BookGrid.FireAsWrittenStep | components/library/book-grid.tsx:141-156 | a timer firing at rest is replaced by three pending retries: the stale fetch, the fetch of the bumped count and the fetch after the reset to 0 |
| BookGrid.RunAsWrittenCounts | components/library/book-grid.tsx:141-156 | after n timer firings as written the count is back at 0, 1 + 3n fetches have been made and 1 + 2n retries are pending |
| BookGrid.RetriesNeverStop | components/library/book-grid.tsx:141-156 | as written a retry is always pending and the fetches outgrow those of the intended schedule, so the three-retry limit never takes effect |
| BookGrid.FireIntendedStep | components/library/book-grid.tsx:141-147 | as intended, a firing below the limit counts one more retry, makes one more fetch and sets a timer only while the count stays below three |
| BookGrid.RunIntendedCounts | components/library/book-grid.tsx:141-147 | as intended, after n <= 3 firings n retries are counted and n + 1 fetches made, with one timer pending until the third retry |
| BookGrid.IntendedStops | components/library/book-grid.tsx:141-147 | as intended, nothing changes after the third retry |
| BookGrid.IntendedSchedule | components/library/book-grid.tsx:141-147 | as intended, the retries wait 1, 2 and 4 s and no fourth follows |
| BookGrid.HigherRatedIsPreorder | components/library/book-grid.tsx:128-130 | the rating comparator is a total preorder |
| BookGrid.ButtonsContiguous | components/library/book-grid.tsx:324-350 | between the first and last page the drawn buttons form one run of at most three around the current page |
| BookGrid.PreviousTarget | components/library/book-grid.tsx:317 | the previous arrow asks for `max(1, p - 1)` |
| BookGrid.NextTarget | components/library/book-grid.tsx:356 | the next arrow asks for `min(totalPages, p + 1)` |
| BookGrid.ArrowTargetsInRange | components/library/book-grid.tsx:317-356 | from a page inside the pager both arrows stay inside it and stand still exactly at the ends |
| BookGrid.Grid.constructor | components/library/book-grid.tsx:50-55 | the initial state: no books, page 1, no error, no retries, loading |
| BookGrid.Grid.FinishFetch | components/library/book-grid.tsx:116-150 | a result replaces books and total (a permutation of the rows, sorted by rating when asked) and clears the error; a failure empties the grid, sets the error and schedules a retry while fewer than three have run; loading ends |
| BookGrid.Grid.RetryFired | components/library/book-grid.tsx:143-145 | the retry timer counts one more retry (the intended behaviour; see Findings) |
| BookGrid.Grid.QueryChanged | components/library/book-grid.tsx:153-156 | a new query starts with no retries counted |
| BookGrid.Grid.HandlePageChange | components/library/book-grid.tsx:162-165 | the page becomes whatever the pager asked for |
| AdminBooks.FilteredBooks | components/admin/books/admin-books-client.tsx:70-80 | a book is listed exactly when it matches the search and the language, level and status selections |
| AdminBooks.FilteredBooksStatus | components/admin/books/admin-books-client.tsx:76 | "active" lists only active books, "inactive" only inactive ones, and with no search and every select on "all" the whole list shows in order |
| AdminBooks.CurrentItems | components/admin/books/admin-books-client.tsx:81-83 | a page shows at most ten books: the filtered books from position `(p - 1) * 10` on |
| AdminBooks.CurrentItemsWindow | components/admin/books/admin-books-client.tsx:81-83 | a page that starts inside the list is full or holds the rest of the list |
| AdminBooks.TotalPages | components/admin/books/admin-books-client.tsx:84 | the page count is the least number of ten-book pages that hold every filtered book |
| AdminBooks.PageNumbers | components/admin/books/admin-books-client.tsx:130-133 | the page buttons are 1 up to the page count |
| AdminBooks.FooterMatchesPage | components/admin/books/admin-books-client.tsx:321-325 | on an existing page the "from … to … of …" footer counts exactly the books the page shows |
| AdminBooks.WithStatus | components/admin/books/admin-books-client.tsx:118 | the books with that id get the new status; every other book and the order are unchanged |
| AdminBooks.ToggleTwice | components/admin/books/admin-books-client.tsx:112-124 | switching a status and switching it back restores the list |
| AdminBooks.UniqueLanguages | components/admin/books/admin-books-client.tsx:127 | every book's language appears once, and nothing else appears |
| AdminBooks.AdminBooksView.constructor | components/admin/books/admin-books-client.tsx:59-67 | the initial state: the given books, page 1, no deletion pending |
| AdminBooks.AdminBooksView.Paginate | components/admin/books/admin-books-client.tsx:88 | the page becomes the requested one |
| AdminBooks.AdminBooksView.HandleDeleteBook | components/admin/books/admin-books-client.tsx:91-109 | without a picked book nothing happens; otherwise a successful delete drops that id, and the dialog closes and deleting ends either way |
| AdminBooks.AdminBooksView.ToggleBookStatus | components/admin/books/admin-books-client.tsx:112-124 | a successful update flips the book's status in the list; a failure leaves the list alone |
| BooksTable.FilteredBooks | components/admin/books/books-table.tsx:64-73 | a book is listed exactly when it matches the search and the optional level and premium filters |
| BooksTable.FilteredBooksFilters | components/admin/books/books-table.tsx:69-70 | with no search and both filters unset every book shows in order; a set level or premium filter keeps only books with that value |
| BooksTable.BooksTableView.constructor | components/admin/books/books-table.tsx:52-58 | the initial state: the given books, no dialog, nothing picked |
| BooksTable.BooksTableView.HandleDeleteBook | components/admin/books/books-table.tsx:76-108 | without a picked book nothing happens; a successful delete removes that id and closes the dialog; a failed one keeps list and dialog |
| BooksTableClient.FilteredBooks | components/admin/books/BooksTableClient.tsx:63-67 | a book is listed exactly when its title or author contains the query, ignoring case |
| BooksTableClient.EmptyQueryListsAll | components/admin/books/BooksTableClient.tsx:63-67 | an empty query lists every book in order |
| BooksTableClient.QueryCaseIgnored | components/admin/books/BooksTableClient.tsx:63-67 | queries equal up to letter case list the same books |
| BooksTableClient.BooksTableClientView.constructor | components/admin/books/BooksTableClient.tsx:54-58 | the initial state: the given books, no dialog, nothing pending |
| BooksTableClient.BooksTableClientView.DeleteBook | components/admin/books/BooksTableClient.tsx:70-89 | only a successful delete removes the id; either way loading ends, the dialog closes and the pending id is cleared |
| BookWords.FilteredWords | components/admin/books/book-words-manager.tsx:75-82 | a word is listed exactly when it or its meaning contains the query, ignoring case, and its level is the selected one or "all" is selected |
| BookWords.NoFilterListsAll | components/admin/books/book-words-manager.tsx:75-82 | no query and "all" levels list every word in order |
| BookWords.GetLevelColor | components/admin/books/book-words-manager.tsx:179-190 | gray exactly for a value that is not one of the three known levels |
| BookWords.GetLevelText | components/admin/books/book-words-manager.tsx:193-204 | a value is shown as something other than itself exactly when it is one of the three known levels |
| BookWords.LevelBadges | components/admin/books/book-words-manager.tsx:179-204 | different known levels get different colours and different labels |
| BookWords.WordsManager.constructor | components/admin/books/book-words-manager.tsx:65-72 | the initial state: the given words, no dialog, nothing selected |
| BookWords.WordsManager.HandleAddWord | components/admin/books/book-words-manager.tsx:85-117 | the inserted row is appended and the dialog closes; a failure changes nothing; submitting ends |
| BookWords.WordsManager.HandleEditWord | components/admin/books/book-words-manager.tsx:120-155 | without a selected word nothing happens; a successful update replaces the rows with that id and closes the dialog |
| BookWords.WordsManager.HandleDeleteWord | components/admin/books/book-words-manager.tsx:158-177 | without a selected word nothing happens; a successful delete removes its id |
| WordsPage.TotalPages | app/admin-secure-dashboard-xyz123/words/page.tsx:84 | the page count is the least number of ten-row pages that hold every word |
| WordsPage.StartItem | app/admin-secure-dashboard-xyz123/words/page.tsx:85 | "start" is the first fetched row counted from 1, and at least 1 on a real page |
| WordsPage.EndItem | app/admin-secure-dashboard-xyz123/words/page.tsx:86 | "end" is never past the total nor past the last fetched row counted from 1 |
| WordsPage.FetchRange | app/admin-secure-dashboard-xyz123/words/page.tsx:59 | a page fetches an inclusive range of exactly ten rows |
| WordsPage.PageNumbersAgree | app/admin-secure-dashboard-xyz123/words/page.tsx:59 | on an existing page "start to end" lies within 1..total, spans at most one page, ends at the total on the last page, and each row's number is its 1-based position in the whole result (also app/admin-secure-dashboard-xyz123/words/page.tsx:84-86, 172) |
| WordsPage.PaginationShownIff | app/admin-secure-dashboard-xyz123/words/page.tsx:84 | the pager shows exactly when there are more than ten words (also app/admin-secure-dashboard-xyz123/words/page.tsx:216) |
| WordsPage.WordsPageState.constructor | app/admin-secure-dashboard-xyz123/words/page.tsx:26-27 | the initial state: no query, page 1 |
| WordsPage.WordsPageState.HandleSearch | app/admin-secure-dashboard-xyz123/words/page.tsx:110-113 | a new query always restarts from the first page |
| WordsPage.WordsPageState.SetCurrentPage | app/admin-secure-dashboard-xyz123/words/page.tsx:220 | the pager's page becomes the current page |
| AddBookForm.GlueEmpty | components/admin/books/add-book-form.tsx:228 | a page text is empty exactly when all its paragraphs are |
| AddBookForm.Pages | components/admin/books/add-book-form.tsx:218-237 | one page text per group of paragraphs |
| AddBookForm.SplitContentIntoPages | components/admin/books/add-book-form.tsx:218-237 | the loop returns the page texts of the reference packing `Pages` |
| AddBookForm.PackFromPartition | components/admin/books/add-book-form.tsx:223-234 | every paragraph is on exactly one page, in input order; only trailing paragraphs without text can be dropped |
| AddBookForm.PagesPartition | components/admin/books/add-book-form.tsx:218-237 | the pages partition the paragraphs in order, each page being its paragraphs joined by blank lines |
| AddBookForm.BreaksPush | components/admin/books/add-book-form.tsx:224-226 | a paragraph that does not fit closes the current page and starts the next |
| AddBookForm.BreaksJoin | components/admin/books/add-book-form.tsx:227-228 | a paragraph that fits joins the current page |
| AddBookForm.PackFromBreaks | components/admin/books/add-book-form.tsx:223-230 | every page break is where the next paragraph would not have fitted |
| AddBookForm.PackFromKeeps | components/admin/books/add-book-form.tsx:223-234 | pushed pages stay, and after the first paragraph no page is without one |
| AddBookForm.PagesBreaks | components/admin/books/add-book-form.tsx:218-237 | the packing breaks a page exactly where the next paragraph would overflow it |
| AddBookForm.FirstPageEmpty | components/admin/books/add-book-form.tsx:224-225 | the first page is the empty text exactly when the first paragraph alone is over the limit |
| AddBookForm.PageLength | components/admin/books/add-book-form.tsx:224-228 | a page of two or more paragraphs is at most two characters over the limit, because the separator is not counted |
| AddBookForm.PagesLength | components/admin/books/add-book-form.tsx:218-237 | every page of two or more paragraphs is within the limit plus two |
| AddBookForm.NoTextNoPages | components/admin/books/add-book-form.tsx:232-234 | content made only of empty paragraphs gives no pages |
| AddBookForm.StoreContentPages | components/admin/books/add-book-form.tsx:177-192 | the pages are stored as pages 1..n in order and the book's `totalPages` becomes n |
| AddBookForm.WordDefinitions.constructor | components/admin/books/add-book-form.tsx:46-52 | the initial state: no definitions, empty fields, level "intermediate" |
| AddBookForm.WordDefinitions.HandleTextSelection | components/admin/books/add-book-form.tsx:82-87 | a selection with text picks its trimmed text; an empty one changes nothing |
| AddBookForm.WordDefinitions.AddWordDefinition | components/admin/books/add-book-form.tsx:90-114 | refused without a word or a meaning; otherwise exactly one entry is appended and the fields reset, the level to "intermediate" |
| AddBookForm.WordDefinitions.RemoveWordDefinition | components/admin/books/add-book-form.tsx:117-119 | every entry for that word goes, the rest stay in order |
| AddBookForm.AddThenRemove | components/admin/books/add-book-form.tsx:90-119 | adding a definition then removing its word leaves every other entry as it was |
| RichTextEditor.ColourOf | components/admin/books/rich-text-editor.tsx:170-171 | beginner is green, intermediate blue, anything else purple |
| RichTextEditor.Marks | components/admin/books/rich-text-editor.tsx:157-175 | one highlight per word whose position lies inside the text, each starting inside it |
| RichTextEditor.HighlightDifficultWords | components/admin/books/rich-text-editor.tsx:149-181 | the loop sets exactly the highlights of the reference `Marks`, in list order |
| RichTextEditor.MarksOfWords | components/admin/books/rich-text-editor.tsx:157-175 | a highlight is set exactly for each word in the text, at its position, as long as the word, in its level's colour |
| RichTextEditor.EditorPanel.constructor | components/admin/books/rich-text-editor.tsx:68-83 | the initial state: no words, no selection, level "intermediate" |
| RichTextEditor.EditorPanel.HandleWordClick | components/admin/books/rich-text-editor.tsx:249-271 | a selection with text is trimmed and selected, and the card shows the first listed word equal to it, or nothing |
| RichTextEditor.EditorPanel.AddDifficultWord | components/admin/books/rich-text-editor.tsx:274-346 | nothing without a selection; otherwise the word is appended at the first position where it occurs, highlighted in its level's colour, and the form reset |
| RichTextEditor.EditorPanel.RemoveDifficultWord | components/admin/books/rich-text-editor.tsx:349-352 | every entry for that word is dropped, the rest stay in order |
| RichTextEditor.AddedWordHighlighted | components/admin/books/rich-text-editor.tsx:281-301 | a word added for a selection found in the text is stored at that occurrence, so redrawing the list highlights it there (also components/admin/books/rich-text-editor.tsx:157-175) |
| BookReader.WithoutPage | components/books/book-reader.tsx:314 | the page's bookmarks are removed and every other one kept |
| BookReader.Toggled | components/books/book-reader.tsx:312-320 | after a toggle the page is bookmarked exactly when it was not before; other pages are untouched |
| BookReader.ToggleTwice | components/books/book-reader.tsx:311-323 | toggling the same page twice gives back the same set of bookmarked pages |
| BookReader.FormatTime | components/books/book-reader.tsx:397-403 | the display reads back as the same number of seconds: two-digit seconds and minutes, and the hours with a colon exactly from one hour on |
| BookReader.Reader.constructor | components/books/book-reader.tsx:94-104 | the initial state: the given page, the saved bookmarks (or none), the preview message exactly on the last preview page, no word selected |
| BookReader.Reader.GoToPreviousPage | components/books/book-reader.tsx:193-198 | back one page unless on the first; the preview message shows exactly on the last preview page |
| BookReader.Reader.GoToNextPage | components/books/book-reader.tsx:201-210 | on one page up to the last; a preview stops at its last page and shows the message instead; the page never passes either bound |
| BookReader.Reader.ToggleBookmarkAsWritten | components/books/book-reader.tsx:169-190 | as written: the list is toggled but the save receives the list from before the toggle (also components/books/book-reader.tsx:311-323) |
| BookReader.Reader.ToggleBookmark | components/books/book-reader.tsx:311-323 | corrected: the toggled list is saved, and the page is bookmarked afterwards exactly when it was not before |
| BookReader.Reader.HandleWordClick | components/books/book-reader.tsx:213-218 | the first glossary word equal to the clicked one ignoring case is selected, otherwise the selection stays; the saved flag follows the saved list (also components/books/book-reader.tsx:118-125) |
| BookReader.Reader.SyncWordSaved | components/books/book-reader.tsx:118-125 | the selected word is marked saved exactly when the saved list holds it |
| BookReader.Reader.AddWordToReview | components/books/book-reader.tsx:232-277 | without a session or on a failed insert nothing changes; otherwise an entry for the word is replaced in place, or the new entry appended, and the word is saved |
| BookReader.Reader.RemoveWordFromReview | components/books/book-reader.tsx:280-308 | without a session or on a failed delete nothing changes; otherwise every entry for the word goes |
| BookReader.StaleBookmarkSave | components/books/book-reader.tsx:169-190 | every toggle changes the list, so the written save, which stores the list from before the toggle, never stores the list the screen shows; with no bookmarks, page 3 shows [3] while [] is saved (also components/books/book-reader.tsx:311-323) |
| BookPreview.PreviewPageCount | components/books/book-preview.tsx:47 | a missing or zero preview page count means twenty pages; any other is kept |
| BookPreview.PageTextLines | components/books/book-preview.tsx:156-159 | a page shows at most five lines: the content's lines from line `(p - 1) * 5` on, in order, five or all that remain |
| BookPreview.FirstPageOfShortContent | components/books/book-preview.tsx:156-159 | content of at most five lines is shown whole on the first page |
| BookPreview.Preview.constructor | components/books/book-preview.tsx:25-31 | the initial state: page 1, no pages yet, light mode |
| BookPreview.Preview.BookLoaded | components/books/book-preview.tsx:47 | the fetched book sets the page count to its preview count, twenty by default |
| BookPreview.Preview.HandlePrevPage | components/books/book-preview.tsx:59-63 | back one page unless on the first; never below 1 |
| BookPreview.Preview.HandleNextPage | components/books/book-preview.tsx:65-69 | on one page unless on the last; never past it |
| BookPreview.Preview.ToggleDarkMode | components/books/book-preview.tsx:71-73 | dark mode flips |
| BookPreview.ToggleDarkModeTwice | components/books/book-preview.tsx:71-73 | flipping twice restores the mode and leaves the pages alone |
| ProgressBar.TotalDots | components/reader/advanced-progress-bar.tsx:22 | at most twenty dots and no more than the pages; at least one when there is a page |
| ProgressBar.PageGap | components/reader/advanced-progress-bar.tsx:25 | the gap is the least one with which the dots reach the last page |
| ProgressBar.Dots | components/reader/advanced-progress-bar.tsx:28 | one dot per dot count, at the multiples of the gap |
| ProgressBar.ActualPage | components/reader/advanced-progress-bar.tsx:43 | a dot inside the book stands for its own page, and none stands for a page past the end |
| ProgressBar.DotsShape | components/reader/advanced-progress-bar.tsx:28-44 | the dots strictly increase, each stands (after the clamp) for a page of the book, the last for the last page |
| ProgressBar.DotLookOf | components/reader/advanced-progress-bar.tsx:46-60 | a dot is a bookmark icon exactly when a bookmark is within half a gap; otherwise it is highlighted exactly when the current page is |
| ProgressBar.CurrentPageHasDot | components/reader/advanced-progress-bar.tsx:28-56 | some dot stands for a page at or after the current page and less than one dot gap past it |
| ProgressBar.DotsPileUp | components/reader/advanced-progress-bar.tsx:22-44 | as written: with 21 pages the gap is 2, and the 11th to 20th dots all stand for page 21 |
| ProgressBar.SpreadDots | components/reader/advanced-progress-bar.tsx:22-44 | corrected dots: dot `i` stands for `ceil((i + 1) * pages / dots)`, one per dot |
| ProgressBar.SpreadDotsShape | components/reader/advanced-progress-bar.tsx:22-44 | the corrected dots all stand for pages of the book, strictly increasing, no two for the same page, the last for the last page |
| ProgressBar.JumpTarget | components/reader/advanced-progress-bar.tsx:82 | in a book with pages, a jump lands inside the book |
| ProgressBar.JumpTargets | components/reader/advanced-progress-bar.tsx:75-88 | the targets of the ten jump buttons never decrease, and the last jumps to the last page |
| InteractiveBook.InitialIndex | components/reader/page-flip/interactive-book.tsx:41 | for a book with pages the start index is inside the book, and it is the given page minus one when that page exists |
| InteractiveBook.Book.constructor | components/reader/page-flip/interactive-book.tsx:41-50 | the initial state: the clamped start index, no flip running, direction forward, the given settings |
| InteractiveBook.Book.PrevPageIndex | components/reader/page-flip/interactive-book.tsx:66 | the page behind is inside the book and equals the current one exactly on the first page |
| InteractiveBook.Book.NextPageIndex | components/reader/page-flip/interactive-book.tsx:67 | the page under is inside the book and equals the current one exactly on the last page |
| InteractiveBook.Book.HandlePageFlip | components/reader/page-flip/interactive-book.tsx:97-138 | ignored during a flip; otherwise a flip starts toward the next or previous page when there is one and is over at once when there is none |
| InteractiveBook.Book.HandleDragStart | components/reader/page-flip/interactive-book.tsx:141-145 | a drag starts exactly when dragging is enabled and no flip is running |
| InteractiveBook.Book.HandleDragEnd | components/reader/page-flip/interactive-book.tsx:166-211 | with dragging enabled the page turns when the drag went past the threshold or faster than 500 to the left and this is not the last page; otherwise it falls back |
| InteractiveBook.Book.AnimationEnded | components/reader/page-flip/interactive-book.tsx:113-118 | when the animation ends the page it was heading for becomes current and the flip is over (also components/reader/page-flip/interactive-book.tsx:131-134, 186-193, 204-209) |
| InteractiveBook.Book.UpdateSettings | components/reader/page-flip/interactive-book.tsx:214-216 | only the given settings change |
| InteractiveBook.FlipForward | components/reader/page-flip/interactive-book.tsx:97-118 | a forward flip run to its end moves exactly one page on, or stays on the last page |
| BookReaderWithFlip.AfterClose | components/reader/page-flip/book-reader-with-flip.tsx:144 | the position just after the first `>` |
| BookReaderWithFlip.StripTags | components/reader/page-flip/book-reader-with-flip.tsx:144 | text without `<` is left alone |
| BookReaderWithFlip.StripTagsProperties | components/reader/page-flip/book-reader-with-flip.tsx:144 | removing `<…>` keeps part of the text in order and leaves no complete tag |
| BookReaderWithFlip.WordPrefix | components/reader/page-flip/book-reader-with-flip.tsx:147 | the longest prefix without white space |
| BookReaderWithFlip.SpacePrefix | components/reader/page-flip/book-reader-with-flip.tsx:147 | the longest prefix of white space |
| BookReaderWithFlip.Tokens | components/reader/page-flip/book-reader-with-flip.tsx:147 | splitting on white-space runs while keeping them gives at least one token |
| BookReaderWithFlip.TokensStep | components/reader/page-flip/book-reader-with-flip.tsx:147 | one step of the split is a word, then a non-empty white-space run, then the tokens of the rest |
| BookReaderWithFlip.TokensShape | components/reader/page-flip/book-reader-with-flip.tsx:147 | every token is a word without white space or a non-empty white-space run |
| BookReaderWithFlip.TokensConcat | components/reader/page-flip/book-reader-with-flip.tsx:147-158 | the tokens laid end to end give back the text |
| BookReaderWithFlip.TrimWord | components/reader/page-flip/book-reader-with-flip.tsx:155 | trimming a word without white space changes nothing, so `data-word` is the word itself |
| BookReaderWithFlip.UnwrapWrap | components/reader/page-flip/book-reader-with-flip.tsx:150-156 | each token is recovered from its wrapping; a word becomes one span carrying the word |
| BookReaderWithFlip.ProcessPageContentRoundTrip | components/reader/page-flip/book-reader-with-flip.tsx:142-159 | the wrapped tokens, unwrapped and joined, give back the text without its tags; white space is kept and each word is one span |
| BookReaderWithFlip.FormattedPages | components/reader/page-flip/book-reader-with-flip.tsx:56-60 | one formatted page per stored page, in order, with id `page-N`, number N and the processed text |
| BookReaderWithFlip.PageIdsDistinct | components/reader/page-flip/book-reader-with-flip.tsx:57 | pages with different numbers get different ids |
| BookReaderWithFlip.FlipReader.constructor | components/reader/page-flip/book-reader-with-flip.tsx:49-50 | the initial state: the given page, not bookmarked |
| BookReaderWithFlip.FlipReader.HandlePageChange | components/reader/page-flip/book-reader-with-flip.tsx:63-87 | the page always changes; the progress row is written only for a signed-in user |
| BookReaderWithFlip.FlipReader.ToggleBookmark | components/reader/page-flip/book-reader-with-flip.tsx:90-139 | without a signed-in user nothing changes; otherwise the page's bookmark is deleted or inserted and the flag flips |
| PageFlipSettings.Merge | lib/hooks/use-page-flip-settings.ts:56 | a given field overwrites, the others are kept |
| PageFlipSettings.MergeProperties | lib/hooks/use-page-flip-settings.ts:56-78 | an empty update changes nothing, repeating an update changes nothing more, and a whole record replaces the settings |
| PageFlipSettings.SettingsStore.constructor | lib/hooks/use-page-flip-settings.ts:20-21 | the initial state: the defaults, loading |
| PageFlipSettings.SettingsStore.LoadSettings | lib/hooks/use-page-flip-settings.ts:24-51 | stored settings of a signed-in user replace the current ones; otherwise they stay; loading ends |
| PageFlipSettings.SettingsStore.UpdateSettings | lib/hooks/use-page-flip-settings.ts:53-74 | without a user nothing happens; otherwise the merged settings are upserted and kept only when the save succeeds |
| PageFlipSettings.SettingsStore.ResetSettings | lib/hooks/use-page-flip-settings.ts:76-78 | an update with the whole default record |
| ProgressActions.WithBookmark | lib/actions/progress-actions.ts:215-219 | the page is among the bookmarks afterwards, every earlier bookmark stays, and an existing bookmark leaves the list unchanged while a new one is appended |
| ProgressActions.WithoutBookmark | lib/actions/progress-actions.ts:222 | the page is no longer bookmarked, every other bookmark stays, and exactly the copies of that page are dropped |
| ProgressActions.BookmarkEdits | lib/actions/progress-actions.ts:215-222 | adding twice is adding once, removing twice is removing once, and removing after adding leaves exactly the other bookmarks |
| ProgressActions.Tables.constructor | lib/actions/progress-actions.ts:29-76 | the progress, session and history tables start empty |
| ProgressActions.Tables.SaveReadingProgress | lib/actions/progress-actions.ts:13-89 | without a user it fails and writes nothing; otherwise the user's row for the book records the page, adds the reading time in whole minutes (a new row starts with no bookmarks), logs a session of more than 30 seconds with the pages advanced since the stored page, appends the page to the history, touches no other row, and the page read back is the page saved |
| ProgressActions.Tables.GetReadingProgress | lib/actions/progress-actions.ts:145-170 | page 1 with no bookmarks when there is no user or no row, otherwise the stored page, time and bookmarks |
| ProgressActions.Tables.SaveBookmark | lib/actions/progress-actions.ts:179-236 | without a user it fails and writes nothing; a missing row is created on that page with zero reading time and, when adding, that one bookmark; an existing row gets the page added once or every copy removed; afterwards the page is bookmarked exactly when it was added |
| ReviewClient.Review.constructor | components/review/review-client.tsx:53-63 | the session starts on the first word with the meaning hidden, nothing reviewed, both tallies at zero, and completed exactly when there is nothing to review |
| ReviewClient.Review.ProgressPercent | components/review/review-client.tsx:65-69 | the progress bar is the reviewed share of the words in percent, and 0 when there are none |
| ReviewClient.Review.HandleResponse | components/review/review-client.tsx:91-188 | past the list nothing happens; otherwise the update names the shown word and follows the schedule (new to learning in 1 day, learning to known in 7 days after 3 reviews or else 3 days, known stays known for 14 days, a miss demotes known to learning for 1 day); the tallies move before the update whatever its outcome; only a successful update (with a user when the status changed) records the word and moves on or completes the session; loading ends |
| ReviewClient.Review.Previous | components/review/review-client.tsx:442-447 | steps back one word and hides the meaning, and does nothing on the first word |
| ReviewClient.Review.Next | components/review/review-client.tsx:456-461 | steps forward one word and hides the meaning, and does nothing on the last word |
| ReviewClient.TalliesGrowByOne | components/review/review-client.tsx:102-128 | every miss, and every hit on a new, learning or known word, grows exactly one of the known and learning tallies by one |
| AppReviewClient.Decide | app/components/review/review-client.tsx:46-60 | a hit moves new to learning in 24 h, learning to known in 72 h and keeps known for 168 h; a miss is due in 4 h and demotes only known to learning |
| AppReviewClient.DecideMonotone | app/components/review/review-client.tsx:46-60 | a hit raises the status one step (capped at known), a miss never raises it, and a hit is always due later than a miss |
| AppReviewClient.Review.constructor | app/components/review/review-client.tsx:19-21 | the session starts on the first word with the meaning hidden and no submission in flight |
| AppReviewClient.Review.HandleResponse | app/components/review/review-client.tsx:36-83 | ignored while a submission is in flight; otherwise it writes the shown word's decided status and due time, moves to the next word and hides the meaning only when the update succeeds, and ends the submission |
| AdvancedFlashcards.LevelFilter | components/vocabulary/advanced-flashcard-system.tsx:56-60 | a word survives exactly when the reader's level admits it: beginners keep beginner words, intermediate readers drop advanced words, any other level keeps all |
| AdvancedFlashcards.ModeFilter | components/vocabulary/advanced-flashcard-system.tsx:63-69 | a word survives exactly when the mode admits it: due by today, advanced, never reviewed, or any word in "all" mode |
| AdvancedFlashcards.IntervalDays | components/vocabulary/advanced-flashcard-system.tsx:129-132 | the next interval after a right answer is between 2 and 60 days |
| AdvancedFlashcards.IntervalGrowth | components/vocabulary/advanced-flashcard-system.tsx:132 | the interval never shrinks as the review count grows, doubles with each review up to the 60-day cap, and stays at 60 days from the fifth review on |
| AdvancedFlashcards.Promoted | components/vocabulary/advanced-flashcard-system.tsx:137 | a right answer never leaves a word in learning, and the word is reviewing exactly when it was learning |
| AdvancedFlashcards.ProgressPercent | components/vocabulary/advanced-flashcard-system.tsx:80-84 | the progress is the position's share of the list in percent, rounded half up, and at most 100 |
| AdvancedFlashcards.Session.constructor | components/vocabulary/advanced-flashcard-system.tsx:37-47 | the initial state: no session list, first card face down, no session running, zero tallies and the "due" mode |
| AdvancedFlashcards.Session.ApplyFilters | components/vocabulary/advanced-flashcard-system.tsx:51-77 | with words the session list becomes a reordering of exactly the words both filters admit and the index returns to 0; without words nothing changes |
| AdvancedFlashcards.Session.StartStudySession | components/vocabulary/advanced-flashcard-system.tsx:87-97 | a session starts on the first card face down with zero tallies |
| AdvancedFlashcards.Session.EndStudySession | components/vocabulary/advanced-flashcard-system.tsx:100-123 | without a user nothing happens; otherwise the session row is sent with the given tallies and mode, and the session ends whether or not the insert succeeds |
| AdvancedFlashcards.Session.GoToNextCard | components/vocabulary/advanced-flashcard-system.tsx:195-202 | the next card face down, or the end of the session after the last card |
| AdvancedFlashcards.Session.GoToPrevCard | components/vocabulary/advanced-flashcard-system.tsx:204-209 | the previous card face down, and nothing on the first card |
| AdvancedFlashcards.Session.AnswerWrite | components/vocabulary/advanced-flashcard-system.tsx:126-176 | an update exactly when there is a card at the index, naming it and counting one more review; a right answer promotes the word with the doubled interval, a wrong one sends it back to learning for tomorrow |
| AdvancedFlashcards.Session.AnswerAsWritten | components/vocabulary/advanced-flashcard-system.tsx:126-199 | after a successful update the tallies grow by one and the next card is shown, but a session ending on this answer records the tallies from before it; a failed update changes nothing |
| AdvancedFlashcards.Session.Answer | components/vocabulary/advanced-flashcard-system.tsx:126-199 | as the handlers, with a finished session recording the tallies that include its last answer |
| AdvancedFlashcards.OneCardSession | components/vocabulary/advanced-flashcard-system.tsx:100-160 | a one-card session answered right is recorded as zero words reviewed while the screen counts one right answer (also components/vocabulary/advanced-flashcard-system.tsx:195-202) |
| FlashcardSystem.Ids | components/vocabulary/flashcard-system.tsx:22-38 | exactly the ids of the deck's words |
| FlashcardSystem.Deck.constructor | components/vocabulary/flashcard-system.tsx:20-22 | the deck opens on its first card, face up, with no word studied |
| FlashcardSystem.Deck.HandleFlip | components/vocabulary/flashcard-system.tsx:27-29 | the card turns over |
| FlashcardSystem.Deck.HandleNext | components/vocabulary/flashcard-system.tsx:31-39 | on the last card it changes nothing and calls `onComplete` exactly when the parent passed one; otherwise the shown word joins the studied set and the next card is shown face up; the studied set never shrinks and holds only the deck's words |
| FlashcardSystem.Deck.HandlePrevious | components/vocabulary/flashcard-system.tsx:41-46 | the previous card face up, and nothing on the first card |
| FlashcardSystem.FlipTwice | components/vocabulary/flashcard-system.tsx:27-29 | flipping twice shows the same face again |
| DailyQuiz.Take | hooks/use-daily-quiz.ts:61-66 | the first min(n, length) elements, in order |
| DailyQuiz.TakeSubMultiset | hooks/use-daily-quiz.ts:61 | a prefix holds no element more often than the whole list, so the five asked words repeat none beyond the list's own repeats |
| DailyQuiz.OtherWords | hooks/use-daily-quiz.ts:64 | exactly the words with another id |
| DailyQuiz.WrongMeanings | hooks/use-daily-quiz.ts:63-67 | min(3, number of other words) wrong options |
| DailyQuiz.WrongMeaningsFromOthers | hooks/use-daily-quiz.ts:63-67 | each wrong option is the meaning of a word with another id |
| DailyQuiz.QuestionFor | hooks/use-daily-quiz.ts:62-75 | the question names the word, its meaning is the right answer, and its options are a reordering of the wrong options plus the right answer |
| DailyQuiz.QuestionOptions | hooks/use-daily-quiz.ts:62-75 | the right answer is among the options, every other option is the meaning of another word, and there are one to four options, exactly four when ids are unique and there are at least four words |
| DailyQuiz.OthersCount | hooks/use-daily-quiz.ts:64 | with unique ids, every word but the asked one passes the id filter |
| DailyQuiz.BuildQuestions | hooks/use-daily-quiz.ts:61-75 | min(5, number of words) questions, the k-th about the k-th of the shuffled words |
| DailyQuiz.QuestionsFromWords | hooks/use-daily-quiz.ts:61-75 | at most five questions, each about a word of the list with that word's meaning as the right answer and among the options |
| DailyQuiz.NextStreak | hooks/use-daily-quiz.ts:131-136 | the streak grows by one exactly on a score of at least 3 and restarts at 0 exactly below it |
| DailyQuiz.Quiz.constructor | hooks/use-daily-quiz.ts:30-39 | the hook's initial state: no questions, not started, loading, available, streak 0, no error |
| DailyQuiz.Quiz.GenerateQuiz | hooks/use-daily-quiz.ts:43-85 | a failed read sets the error and makes the quiz unavailable; fewer than five words make it unavailable; otherwise exactly five questions are built and the quiz is available |
| DailyQuiz.Quiz.CheckQuizStatus | hooks/use-daily-quiz.ts:87-126 | a quiz taken today makes the quiz unavailable with that day's streak; otherwise the stored streak (0 when there is no row) is taken and a quiz generated; any failed read sets the error; loading ends |
| DailyQuiz.Quiz.CompleteQuiz | hooks/use-daily-quiz.ts:128-162 | the quiz is completed and the history row carries the score, the question count and the next streak, which is kept only when both writes succeed, otherwise the error is set |
| DailyQuiz.Quiz.HandleOptionSelect | hooks/use-daily-quiz.ts:164-169 | a second choice is ignored; the first is recorded and the score grows exactly when it is the right answer; the pending timer holds the score from before it |
| DailyQuiz.Quiz.AnswerTimerAsWritten | hooks/use-daily-quiz.ts:171-178 | the next question with no choice made, or after the last question the quiz completed with the score the timer captured |
| DailyQuiz.Quiz.AnswerTimer | hooks/use-daily-quiz.ts:171-178 | as the timer, with the quiz completed on the current score so the last answer counts toward the streak |
| DailyQuiz.Quiz.HandleRestart | hooks/use-daily-quiz.ts:181-185 | the quiz is neither started, completed nor available |
| DailyQuiz.Quiz.StartQuiz | hooks/use-daily-quiz.ts:187-193 | the quiz starts on the first question with score 0, no choice and not completed |
| DailyQuiz.AnswerAsWritten | hooks/use-daily-quiz.ts:164-178 | choosing an option and letting its timer fire: the score grows exactly on the right answer; the next question follows with no choice, or after the last the quiz is completed and recorded with the score from before this answer |
| DailyQuiz.LastAnswerLost | hooks/use-daily-quiz.ts:164-178 | on any five questions and any starting streak, answering wrong, wrong, right, right, right through the option handler and its timer shows a score of 3 but records 2 and resets the streak to 0 |
| VocabularyManager.StatusName | components/vocabulary/vocabulary-manager.tsx:206-215 | a status's tab value is never the "all" tab |
| VocabularyManager.StatusNameInjective | components/vocabulary/vocabulary-manager.tsx:206-215 | two statuses share a tab exactly when they are the same status |
| VocabularyManager.IntervalDays | components/vocabulary/vocabulary-manager.tsx:108 | 7 days exactly for mastered, 3 exactly for reviewing, 1 exactly for learning |
| VocabularyManager.IntervalOrder | components/vocabulary/vocabulary-manager.tsx:108 | the more settled the status, the longer until the next review |
| VocabularyManager.WithStatus | components/vocabulary/vocabulary-manager.tsx:116-130 | same length; the words with that id get the new status and the matching next review day; every other word is unchanged |
| VocabularyManager.TabWords | components/vocabulary/vocabulary-manager.tsx:154-157 | the "all" tab lists every word; any other tab lists exactly the words whose status is that tab |
| VocabularyManager.TabCountIsTabLength | components/vocabulary/vocabulary-manager.tsx:207-215 | the count on a status tab is the length of the list that tab shows |
| VocabularyManager.TabCountsSum | components/vocabulary/vocabulary-manager.tsx:206-215 | the three status counts add up to the count on the "all" tab |
| VocabularyManager.Transitions | components/vocabulary/vocabulary-manager.tsx:296-325 | a card offers exactly the two statuses other than its own |
| VocabularyManager.FlashcardWords | components/vocabulary/vocabulary-manager.tsx:338 | exactly the learning and reviewing words go to the flashcard panel |
| VocabularyManager.FlashcardsShownCount | components/vocabulary/vocabulary-manager.tsx:335 | the flashcard panel shows exactly when the learning and reviewing tabs count at least five words together |
| VocabularyManager.FlashcardCount | components/vocabulary/vocabulary-manager.tsx:335-338 | the panel gets as many words as the learning and reviewing tabs count |
| VocabularyManager.Manager.constructor | components/vocabulary/vocabulary-manager.tsx:33-36 | no words, loading, on the "all" tab |
| VocabularyManager.Manager.Shown | components/vocabulary/vocabulary-manager.tsx:154-157 | the list under the active tab: every word on "all", otherwise the words of that status |
| VocabularyManager.Manager.FetchWords | components/vocabulary/vocabulary-manager.tsx:48-85 | fetched rows replace the list, a failed read leaves it, and loading ends |
| VocabularyManager.Manager.UpdateWordStatus | components/vocabulary/vocabulary-manager.tsx:101-151 | after a successful update the list is the status-changed list, otherwise it is unchanged |
| VocabularyManager.Manager.SetActiveTab | components/vocabulary/vocabulary-manager.tsx:204 | the chosen tab becomes active |
| VocabularyManager.StatusChangeMovesTab | components/vocabulary/vocabulary-manager.tsx:116-157 | with unique ids, the changed word shows on its new status's tab and every other word stays as it was |
| VocabularyClient.ValidDate | components/vocabulary/vocabulary-client.tsx:94-98 | a valid date gives its time in milliseconds; a missing or invalid one gives 0 |
| VocabularyClient.Filtered | components/vocabulary/vocabulary-client.tsx:58-91 | the filters never add words; what they keep is stated by ListedProperties |
| VocabularyClient.OrderIsPreorder | components/vocabulary/vocabulary-client.tsx:100-115 | each of the sort's comparators is a total preorder, so the sort is well defined |
| VocabularyClient.Listed | components/vocabulary/vocabulary-client.tsx:58-115 | a word is listed exactly when it is in the list and passes the tab, search, status and level filters, and the listing never adds words |
| VocabularyClient.ListedProperties | components/vocabulary/vocabulary-client.tsx:58-115 | each passing word is listed as often as it occurs, and the list is sorted by the chosen order |
| VocabularyClient.ListedOrder | components/vocabulary/vocabulary-client.tsx:62-115 | the review tab lists only words with a valid review date not after now; the learning and known tabs only their status; "review_date" and "oldest" sort ascending and "newest" descending, missing and invalid dates counting as 0 |
| VocabularyClient.PageOf | components/vocabulary/vocabulary-client.tsx:120-123 | a page holds at most 20 words, taken in order from position (page - 1) * 20 |
| VocabularyClient.TotalPages | components/vocabulary/vocabulary-client.tsx:117 | the page count is the least number of twenty-word pages that hold every filtered word |
| VocabularyClient.PageWindow | components/vocabulary/vocabulary-client.tsx:117-123 | every page up to the page count holds at least one word |
| VocabularyClient.ReviewCount | components/vocabulary/vocabulary-client.tsx:128-133 | the review count never exceeds the number of words |
| VocabularyClient.ReviewTabMatchesCount | components/vocabulary/vocabulary-client.tsx:62-67 | the review tab never lists more words than the review count, and exactly that many with no other filter (also components/vocabulary/vocabulary-client.tsx:128-133) |
| VocabularyClient.ClearedLeavesTab | components/vocabulary/vocabulary-client.tsx:154-160 | with search, status and level cleared only the tab filters |
| VocabularyClient.ParamOr | components/vocabulary/vocabulary-client.tsx:39-44 | a present non-empty parameter is taken as it is; an absent or empty one gives the default |
| VocabularyClient.VocabularyView.constructor | components/vocabulary/vocabulary-client.tsx:23-35 | the initial state: the given words on both lists, no search, "all" status, level and tab, newest first, page 1 of 1, review count 0 |
| VocabularyClient.VocabularyView.ReadSearchParams | components/vocabulary/vocabulary-client.tsx:38-53 | each filter takes its URL parameter or its default |
| VocabularyClient.VocabularyView.ApplyFilters | components/vocabulary/vocabulary-client.tsx:55-136 | the shown words are the current page of the filtered and sorted list, the page count is the filtered count over 20 rounded up, the review count is over all words, and loading ends |
| VocabularyClient.VocabularyView.ClearAllFilters | components/vocabulary/vocabulary-client.tsx:154-160 | search, status, level and sort go back to their defaults and the page to 1, while the tab stays |
| VocabularyClient.VocabularyView.ChangePage | components/vocabulary/vocabulary-client.tsx:163-167 | a page between 1 and the page count is taken; any other leaves the page |
| VocabularyClient.VocabularyView.HandleAddWord | components/vocabulary/vocabulary-client.tsx:188-205 | with a user the word is put first, owned by them, in learning, due and created now; without one nothing changes |
| VocabularyClient.VocabularyView.AddWord | components/vocabulary/vocabulary-client.tsx:170-186 | with a user the word is put first with a fresh id, owned by them and created now; without one nothing changes |
| VocabularyClient.AddedWordIsDue | components/vocabulary/vocabulary-client.tsx:188-205 | a word added by `handleAddWord` raises the review count by one and shows on the learning tab (also components/vocabulary/vocabulary-client.tsx:128-133) |
| VocabularyClient.FilterByTab | components/vocabulary/vocabulary-client.tsx:62-72 | the loop keeps exactly the words the tab admits, in order |
| VocabularyClient.FilterBySearch | components/vocabulary/vocabulary-client.tsx:75-81 | the loop keeps exactly the words whose word or meaning contains the query, ignoring case, in order |
| VocabularyClient.FilterByStatus | components/vocabulary/vocabulary-client.tsx:84-86 | the loop keeps exactly the words of the chosen status, in order |
| VocabularyClient.FilterByLevel | components/vocabulary/vocabulary-client.tsx:89-91 | the loop keeps exactly the words of the chosen level, in order |
| VocabularyClient.FilterEffect | components/vocabulary/vocabulary-client.tsx:55-136 | one run computes the page of the listed words, the page count and the review count |
| VocabularyClient.FilterAndSort | components/vocabulary/vocabulary-client.tsx:58-115 | the filter steps and the sort produce the listed words |
| VocabularyClient.StagesCompose | components/vocabulary/vocabulary-client.tsx:58-91 | the four filters applied one after the other keep what their conjunction keeps |
| UserVocabulary.Formatted | components/profile/user-vocabulary.tsx:86-89 | every field of the row is kept, and the book title is present exactly when the joined title is present and non-empty |
| UserVocabulary.FormattedAll | components/profile/user-vocabulary.tsx:86-89 | one formatted word per row, in order |
| UserVocabulary.Toggled | components/profile/user-vocabulary.tsx:192 | the sort always changes, to oldest exactly from newest |
| UserVocabulary.ToggleTwice | components/profile/user-vocabulary.tsx:192 | two presses from newest or oldest come back, and no press leads to alphabetical |
| UserVocabulary.OrderIsPreorder | components/profile/user-vocabulary.tsx:131-137 | each comparator of the sort is a total preorder |
| UserVocabulary.ResultProperties | components/profile/user-vocabulary.tsx:105-140 | a word is shown exactly when it is in the list and passes the search, tab and level filters, as often as it occurs, and the result is in the chosen order |
| UserVocabulary.TabsAndLevels | components/profile/user-vocabulary.tsx:117-128 | a difficulty tab shows only that difficulty, a level that disagrees with the tab shows nothing, and with no search, the "all" tab and no level every word is shown |
| UserVocabulary.FilterBySearch | components/profile/user-vocabulary.tsx:109-114 | the loop keeps exactly the words whose word contains the term ignoring case or whose meaning contains it as typed |
| UserVocabulary.FilterByTab | components/profile/user-vocabulary.tsx:117-123 | the loop keeps exactly the words the tab admits, in order |
| UserVocabulary.FilterByLevel | components/profile/user-vocabulary.tsx:126-128 | the loop keeps exactly the words of the chosen level, in order |
| UserVocabulary.StagesCompose | components/profile/user-vocabulary.tsx:105-128 | the three filters in turn keep what their conjunction keeps |
| UserVocabulary.FilterAndSort | components/profile/user-vocabulary.tsx:105-140 | the filter steps and the sort produce the shown words |
| UserVocabulary.UserVocabularyView.constructor | components/profile/user-vocabulary.tsx:51-57 | no words, loading, no search, the "all" tab, newest first, no level |
| UserVocabulary.UserVocabularyView.FinishFetch | components/profile/user-vocabulary.tsx:86-98 | fetched rows, formatted, replace both lists; a failed read leaves them; loading ends |
| UserVocabulary.UserVocabularyView.ApplyFilters | components/profile/user-vocabulary.tsx:105-140 | the shown list is the filtered and sorted words |
| UserVocabulary.UserVocabularyView.HandleDeleteWord | components/profile/user-vocabulary.tsx:143-156 | after a successful delete the words with that id are gone and the rest stay in order; otherwise nothing changes |
| UserVocabulary.UserVocabularyView.ToggleSort | components/profile/user-vocabulary.tsx:192 | the sort becomes the toggled sort |
| UserVocabulary.DeleteRemovesOnlyId | components/profile/user-vocabulary.tsx:149 | exactly the words with that id go, and deleting again changes nothing |
| AdminAnalytics.TrackedRow | lib/utils/admin-analytics.ts:11-28 | the logged row carries the action's fields unchanged, stamped with the current time |
| AdminAnalytics.Tally | lib/utils/admin-analytics.ts:52-94 | the counting `reduce` has exactly the keys that occur, each with the number of times it occurs, and the counts add up to the number of entries |
| AdminAnalytics.GetAdminActivityStats | lib/utils/admin-analytics.ts:30-62 | a failed query gives zero actions, no counts and no recent entries; otherwise the total is the number of rows, the counts per action are exact and add up to the total, and the recent entries are the first ten rows |
| AdminAnalytics.GetSystemStats | lib/utils/admin-analytics.ts:64-102 | missing admin counts give 0; the activity per day has exactly the days that occur, each counted exactly, adding up to the total activities, which is the number of rows (0 when the query gave none) |
| AdminAnalytics.TrackedActionCounted | lib/utils/admin-analytics.ts:11-55 | a tracked action adds one to its own kind's count and leaves every other kind's count as it was |
| AdminActivity.CountOrZero | components/admin-activity.tsx:103-104 | a missing count gives 0 and a present one is taken as it is |
| AdminActivity.GetActivityStats | components/admin-activity.tsx:35-67 | the same figures as AdminAnalytics.GetAdminActivityStats: exact per-action counts adding up to the total and the first ten rows as recent activity; a failed query gives zeros |
| AdminActivity.GetSystemFigures | components/admin-activity.tsx:73-108 | the same figures as AdminAnalytics.GetSystemStats, with `count \|\| 0` for the admin counts |
| TextAnalyzer.StatsOf | components/ai/text-analyzer.tsx:72-84 | the total is the number of keywords and the known count never exceeds it |
| TextAnalyzer.LevelCountsFit | components/ai/text-analyzer.tsx:72-74 | the three level counts together never exceed the number of keywords |
| TextAnalyzer.StatsBounds | components/ai/text-analyzer.tsx:72-84 | the known count and the sum of the level counts are each at most the total |
| TextAnalyzer.LevelCountsCover | components/ai/text-analyzer.tsx:72-75 | when every keyword has one of the three levels, the level counts add up to the total |
| TextAnalyzer.AllKnown | components/ai/text-analyzer.tsx:76 | when every keyword is in the user's list, all of them count as known |
| TextAnalyzer.CountKeywords | components/ai/text-analyzer.tsx:72-84 | the counts taken of an analysis are exactly the figures `StatsOf` defines, whose bounds the lemmas above state |
| TextAnalyzer.Analyzer.constructor | components/ai/text-analyzer.tsx:24-34 | no keywords, not analysing, loading, no user words, all counts zero |
| TextAnalyzer.Analyzer.FetchUserWords | components/ai/text-analyzer.tsx:39-55 | a signed-in successful read replaces the list (with nothing when it has no data); otherwise the list stays; loading ends either way |
| TextAnalyzer.Analyzer.HandleAnalyzeText | components/ai/text-analyzer.tsx:60-91 | blank text is refused and nothing changes; a successful analysis shows its keywords and their counts; a failed one reports the error and keeps the old figures; analysing ends |
| TextAnalyzer.Analyzer.SaveWord | components/ai/text-analyzer.tsx:108-141 | without a user, or for a word already listed, nothing is inserted; otherwise the row asks for the word in learning, due a day later, and only a successful insert appends it to the list |
| TextAnalyzer.SavedOnce | components/ai/text-analyzer.tsx:117-136 | after a save the word is listed, so a second save stops at the duplicate check, and every word listed before stays listed |
| ReadingProgress.Formatted | components/dashboard/reading-progress.tsx:82-92 | the session's own fields are kept; with no joined book the title is "unknown book" and the slug empty; a non-empty first title and a non-empty first slug are kept; the title is never empty |
| ReadingProgress.AfterFetch | components/dashboard/reading-progress.tsx:82-99 | a failed read keeps the previous sessions; a successful one gives one shaped session per row, in order |
| ReadingProgress.LookbackOf | components/dashboard/reading-progress.tsx:57-64 | the query window is a week, a month or a year back, exactly for the matching timeframe |
| ReadingProgress.PagesOf | components/dashboard/reading-progress.tsx:125 | the page counts of the sessions, in order |
| ReadingProgress.TimesOf | components/dashboard/reading-progress.tsx:126 | the reading times of the sessions, in order |
| ReadingProgress.BookIds | components/dashboard/reading-progress.tsx:127 | exactly the book ids that occur among the sessions |
| ReadingProgress.CalculateStats | components/dashboard/reading-progress.tsx:124-134 | the distinct-book figure is the number of distinct book ids |
| ReadingProgress.UniqueBooksBound | components/dashboard/reading-progress.tsx:127 | there are never more distinct books than sessions, and at least one when there is a session |
| ReadingProgress.StatsOfConcatenation | components/dashboard/reading-progress.tsx:124-134 | for two runs of sessions put together, pages and times add up and the distinct books are at most those of both runs |
| ReadingProgress.TotalsNonNegative | components/dashboard/reading-progress.tsx:125-126 | with no negative page counts or times the totals are not negative |
| ReadingProgress.JsRem60 | components/dashboard/reading-progress.tsx:109 | JavaScript's remainder by 60 lies strictly between -60 and 60 and agrees with the mathematical one for non-negative minutes |
| ReadingProgress.FormatReadingTime | components/dashboard/reading-progress.tsx:107-111 | every reading-time text ends with the minutes and the word for them |
| ReadingProgress.FormatReadingTimeReadsBack | components/dashboard/reading-progress.tsx:107-111 | under an hour the text names only the minutes; from an hour on it names at least one hour and fewer than 60 minutes, which read back as the original minutes |
| ReadingProgress.Recent | components/dashboard/reading-progress.tsx:231 | the recent list is the first min(5, n) sessions |
| ApiKeys.AgoOf | app/admin-secure-dashboard-xyz123/api-keys/page.tsx:162-175 | days exactly from one day on, hours exactly from one hour to a day, minutes exactly from one minute to an hour, "just now" below a minute (a future time included) |
| ApiKeys.AgoRanges | app/admin-secure-dashboard-xyz123/api-keys/page.tsx:162-175 | the number of each unit is the count of whole units elapsed: at least one day, 1 to 23 hours, 1 to 59 minutes |
| ApiKeys.AgoText | app/admin-secure-dashboard-xyz123/api-keys/page.tsx:167-175 | the text is the number followed by the unit's words, and the number reads back from it; it never reads "never" |
| ApiKeys.UnitText | app/admin-secure-dashboard-xyz123/api-keys/page.tsx:167-173 | a count and its suffix, from which the count reads back |
| ApiKeys.FormatRelativeTime | app/admin-secure-dashboard-xyz123/api-keys/page.tsx:157-176 | "never" exactly for a missing date, "just now" for an invalid one, otherwise the text of the elapsed time |
| ApiKeys.ApiKeysPage.constructor | app/admin-secure-dashboard-xyz123/api-keys/page.tsx:30-33 | not generating, no Gemini key typed, no keys, loading |
| ApiKeys.ApiKeysPage.FetchApiKeys | app/admin-secure-dashboard-xyz123/api-keys/page.tsx:36-57 | the rows replace the list, a failed read keeps it, and loading ends |
| ApiKeys.ApiKeysPage.HandleGenerateKey | app/admin-secure-dashboard-xyz123/api-keys/page.tsx:62-97 | it asks for a custom key named "API Key"; a returned key goes in front of the list, a failure keeps it; generating ends |
| ApiKeys.ApiKeysPage.HandleSaveGeminiKey | app/admin-secure-dashboard-xyz123/api-keys/page.tsx:99-123 | the upserted row carries the typed key under the fixed Gemini name and type, and nothing else changes |
| ApiKeys.ApiKeysPage.HandleDeleteKey | app/admin-secure-dashboard-xyz123/api-keys/page.tsx:125-147 | after a successful delete the keys with that id are gone and the rest stay in order; otherwise nothing changes |
| ApiKeys.GenerateThenDelete | app/admin-secure-dashboard-xyz123/api-keys/page.tsx:81-134 | a delete removes exactly the keys with that id, and deleting a just-generated key with a new id gives back the list from before |
| Subscription.FilteredPlans | components/subscription/subscription-client.tsx:50 | exactly the plans of the selected interval |
| Subscription.TabsPartitionPlans | components/subscription/subscription-client.tsx:50 | every plan is shown under exactly one of the monthly and yearly tabs (also components/subscription/subscription-client.tsx:226-238) |
| Subscription.IsSubscribed | components/subscription/subscription-client.tsx:51 | only a present subscription can count as subscribed (its status must be active; the cancel flag plays no part) |
| Subscription.CurrentPlan | components/subscription/subscription-client.tsx:51-52 | no current plan unless the subscription is active; when there is one it is a listed plan with the subscription's plan id, and there is one whenever such a plan is listed |
| Subscription.PlanButtonLabel | components/subscription/subscription-client.tsx:289-293 | the button reads one of the three labels, "choose" exactly when not subscribed, and "current plan" only on the plan the active subscription names |
| Subscription.PlanButtonLabels | components/subscription/subscription-client.tsx:289-293 | "current plan" exactly on the subscribed plan, "switch" exactly on a subscriber's other plans, "choose" exactly when not subscribed |
| Subscription.CancelControlOf | components/subscription/subscription-client.tsx:209-217 | the cancel button is offered exactly when the subscription is not already set to cancel, and enabled exactly when no request is running |
| Subscription.TermOf | components/subscription/subscription-client.tsx:82-86 | a monthly plan runs for one month and a yearly one for one year |
| Subscription.SubscriptionView.constructor | components/subscription/subscription-client.tsx:46-48 | the monthly tab, not loading, no plan selected |
| Subscription.SubscriptionView.SelectInterval | components/subscription/subscription-client.tsx:227 | the chosen interval becomes selected |
| Subscription.SubscriptionView.HandleSelectPlan | components/subscription/subscription-client.tsx:59-61 | the chosen plan becomes selected |
| Subscription.SubscriptionView.HandleSubscribe | components/subscription/subscription-client.tsx:63-132 | without a selected plan nothing is written; without a user or an unknown plan nothing is written and the error is shown; otherwise an active period of the plan's term starting now is written, over the existing subscription or as a new one for the user, and the outcome is shown; loading ends |
| Subscription.SubscriptionView.HandleCancelSubscription | components/subscription/subscription-client.tsx:134-160 | without a subscription nothing happens; otherwise only the cancel flag and the update time are written, the outcome is shown, and loading ends |
| Subscription.CancelKeepsPeriod | components/subscription/subscription-client.tsx:140-148 | a cancellation changes only the cancel flag and the update time, so the subscription stays active and then shows the disabled notice |
| Carousel.JsRem | components/home/book-showcase.tsx:77-83 | JavaScript's `%` by a positive number lies strictly between -n and n and agrees with the mathematical remainder for non-negative operands |
| Carousel.Next | components/home/book-showcase.tsx:77-79 | "next" keeps a valid index valid |
| Carousel.Prev | components/home/book-showcase.tsx:81-83 | "previous" keeps a valid index valid |
| Carousel.NextPrev | components/home/book-showcase.tsx:77-83 | on a valid index, next moves one ahead and wraps from the last to the first, previous moves one back and wraps from the first to the last, and each undoes the other |
| Carousel.NextTimesTurns | components/home/book-showcase.tsx:77-79 | k presses of next land on a valid index k places further round, up to whole turns |
| Carousel.NextTimesRotates | components/home/book-showcase.tsx:77-79 | k presses of next from index i land on (i + k) mod n |
| Carousel.FullTurn | components/home/book-showcase.tsx:77-79 | n presses of next come back to the start |
| BookShowcase.CategoryText | components/home/book-showcase.tsx:120 | the badge is never empty: the category names joined by ", ", or "general" when there are none or they join to nothing |
| BookShowcase.CategoryTextExamples | components/home/book-showcase.tsx:120 | one named category is shown as it is, and two with ", " between |
| BookShowcase.CoverSrc | components/home/book-showcase.tsx:144 | the cover is never empty: the book's own image when it has one, otherwise the placeholder |
| BookShowcase.PreviewHref | components/home/book-showcase.tsx:138 | the preview link is the book's link with `?preview=true` |
| BookShowcase.Showcase.constructor | components/home/book-showcase.tsx:40-42 | the first slide, no books, loading |
| BookShowcase.Showcase.FetchFeaturedBooks | components/home/book-showcase.tsx:44-74 | the rows (none when the query gives no data) replace the list, a failure keeps it, and loading ends |
| BookShowcase.Showcase.ViewOf | components/home/book-showcase.tsx:85-100 | a skeleton exactly while loading, nothing exactly when loaded without books, otherwise the book at the active index |
| BookShowcase.Showcase.NextBook | components/home/book-showcase.tsx:77-79 | the next book, wrapping from the last to the first |
| BookShowcase.Showcase.PrevBook | components/home/book-showcase.tsx:81-83 | the previous book, wrapping from the first to the last |
| BookShowcase.NextThenPrevShowsSameBook | components/home/book-showcase.tsx:77-83 | previous after next shows the same book again |
| BookShowcase.LevelBadge | components/home/book-showcase.tsx:182-193 | a level is translated exactly when it is one of the three known levels, as in lib/utils.ts |
| Testimonials.AvatarSrc | components/home/testimonial-section.tsx:112 | the avatar is never empty: the testimonial's own picture when it has one, otherwise the default |
| Testimonials.Section.constructor | components/home/testimonial-section.tsx:23-25 | no testimonials, the first card, loading |
| Testimonials.Section.FetchTestimonials | components/home/testimonial-section.tsx:28-47 | the rows (none when the query gives no data) replace the list, a failure keeps it, and loading ends |
| Testimonials.Section.ViewOf | components/home/testimonial-section.tsx:58-82 | a skeleton exactly while loading, nothing exactly when loaded without testimonials, otherwise the active card |
| Testimonials.Section.NextTestimonial | components/home/testimonial-section.tsx:50-52 | the next card, wrapping from the last to the first |
| Testimonials.Section.PrevTestimonial | components/home/testimonial-section.tsx:54-56 | the previous card, wrapping from the first to the last |
| Testimonials.NextThenPrevShowsSameCard | components/home/testimonial-section.tsx:50-56 | previous after next shows the same card again |
| Utils.Initials | lib/utils.ts:33-34 | one character per non-empty part, its first character, in order |
| Utils.GetInitials | lib/utils.ts:30-36 | one upper-cased first character for each non-empty part between single spaces, in order |
| Utils.InitialsOfWords | lib/utils.ts:30-36 | a name of words joined by single spaces has exactly one initial per word, the upper-cased first letter of each |
| Utils.Truncate | lib/utils.ts:38-40 | a string within the limit is kept; a longer one is cut to the limit and gets "...", three characters longer than the limit; a negative limit leaves only "..." |
| Utils.TruncateText | lib/utils.ts:114-117 | a text within the limit is kept; a longer one is cut to the limit and gets "..." |
| Utils.TruncationsAgree | lib/utils.ts:38-40 | the two truncations agree on every limit that is not negative (also lib/utils.ts:114-117) |
| Utils.TruncationsDifferBelowZero | lib/utils.ts:38-40 | on a negative limit that still leaves part of the text, `truncate` gives "..." while `truncateText` keeps the head, since `slice` counts a negative end from the back and `substring` takes it as 0 (also lib/utils.ts:114-117) |
| Utils.ReplaceSpaceRuns | lib/utils.ts:66-107 | the result holds only characters of the input or the replacement, and no white space other than the replacement |
| Utils.ReplaceSpaceRunsNone | lib/utils.ts:66-107 | a string without white space is left as it is |
| Utils.TrimDashStart | lib/utils.ts:110 | the result is a suffix of the input that does not start with a dash, and the whole input when it did not |
| Utils.TrimDashEnd | lib/utils.ts:111 | the result is a prefix of the input that does not end with a dash, and the whole input when it did not |
| Utils.CollapseDashes | lib/utils.ts:67-109 | the result holds only characters of the input and starts with the same character |
| Utils.CollapseDashesShape | lib/utils.ts:67-109 | no two dashes in a row survive, and a string without them is left as it is |
| Utils.Slugify | lib/utils.ts:103-112 | a slug is made of lower-case ASCII letters, digits, `_` and dashes, has no two dashes in a row, and neither starts nor ends with a dash |
| Utils.SlugifyIdempotent | lib/utils.ts:103-112 | a slug is its own slug |
| Utils.GenerateSlug | lib/utils.ts:62-69 | a generated slug has no white space and no two dashes in a row, and holds only the characters the first step keeps |
| Utils.GenerateSlugKeepsEdgeDash | lib/utils.ts:62-112 | unlike `slugify`, `generateSlug` keeps the dash a leading blank becomes |
| Utils.SplitSpaces | lib/utils.ts:121 | at least one piece, and no piece holds white space |
| Utils.SplitSpacesJoin | lib/utils.ts:121 | splitting words joined by single spaces gives back the words |
| Utils.CalculateReadingTime | lib/utils.ts:119-123 | every text takes at least one minute |
| Utils.ReadingTimeOfWords | lib/utils.ts:119-123 | a text of n words separated by single spaces takes n / 200 minutes, rounded up |
| Utils.Sizes | lib/utils.ts:88-94 | the group sizes `GroupBy`'s contract counts with: one size per group (a helper of that contract) |
| Utils.GroupStep | lib/utils.ts:90-91 | pushing one more element onto the group of its key keeps every group equal to the elements with that key, in order |
| Utils.GroupBy | lib/utils.ts:88-94 | a group exists exactly for each key that occurs, holds exactly the elements with that key in their original order, and the groups together hold every element once |
| Utils.LevelText | lib/utils.ts:138-149 | a level gets a name other than its own text exactly when it is one of the three |
| Utils.DifficultyColor | lib/utils.ts:125-136 | gray exactly for a value that is not one of the three levels |
| Utils.LevelLabels | lib/utils.ts:125-149 | the three levels get different names and different colours |
| ErrorHandling.NewAppError | lib/utils/error-handling.ts:3-13 | an `AppError` keeps its message, and takes status 500 and code INTERNAL_SERVER_ERROR when none is given |
| ErrorHandling.NewDatabaseError | lib/utils/error-handling.ts:15-20 | a `DatabaseError` keeps the database error's message, is named DatabaseError and carries the table's status and code for its kind (500, DATABASE_ERROR) |
| ErrorHandling.NewAuthenticationError | lib/utils/error-handling.ts:22-27 | an `AuthenticationError` keeps the given message or "Not authenticated", is named AuthenticationError and carries its kind's status and code (401, UNAUTHENTICATED) |
| ErrorHandling.NewAuthorizationError | lib/utils/error-handling.ts:29-34 | an `AuthorizationError` keeps the given message or "Not authorized", is named AuthorizationError and carries its kind's status and code (403, UNAUTHORIZED) |
| ErrorHandling.NewValidationError | lib/utils/error-handling.ts:36-41 | a `ValidationError` keeps its message, is named ValidationError and carries its kind's status and code (400, VALIDATION_ERROR) |
| ErrorHandling.CodesDistinct | lib/utils/error-handling.ts:3-41 | a bare `AppError` gets its table defaults, and different kinds have different codes |
| ErrorHandling.HandleError | lib/utils/error-handling.ts:43-57 | an `AppError` is returned as it is, a database error becomes a `DatabaseError` with its message, another `Error` an `AppError` with its message, and anything else an `AppError` with the fixed message |
| ErrorHandling.HandleErrorIdempotent | lib/utils/error-handling.ts:43-57 | normalising twice is normalising once, and the message of a database error or another `Error` survives it |
| ErrorHandling.IsAppError | lib/utils/error-handling.ts:59-61 | a value that passes `isAppError` comes back from `handleError` unchanged, and any other value comes back as a new plain `AppError` or `DatabaseError` |
| ErrorHandling.IsDatabaseError | lib/utils/error-handling.ts:63-65 | a value that passes `isDatabaseError` passes `isAppError` and comes back from `handleError` as a `DatabaseError` |
| ErrorHandling.IsAuthenticationError | lib/utils/error-handling.ts:67-69 | a value that passes `isAuthenticationError` passes `isAppError` and comes back from `handleError` as an `AuthenticationError` |
| ErrorHandling.IsAuthorizationError | lib/utils/error-handling.ts:71-73 | a value that passes `isAuthorizationError` passes `isAppError` and comes back from `handleError` as an `AuthorizationError` |
| ErrorHandling.IsValidationError | lib/utils/error-handling.ts:75-77 | a value that passes `isValidationError` passes `isAppError` and comes back from `handleError` as a `ValidationError` |
| ErrorHandling.ClassTests | lib/utils/error-handling.ts:59-77 | every subclass instance passes `isAppError`, the subclass tests exclude each other, a bare `AppError` is no `DatabaseError`, whatever `handleError` returns passes `isAppError`, and it is a `DatabaseError` exactly when the input was one or was a database error |
| Schema.Check | components/auth/register-form.tsx:30-38 | a rule gives no issue exactly when it holds, and otherwise exactly one issue with its field and message |
| Schema.IsEmail | components/auth/register-form.tsx:32 | an address is never empty and always holds an `@` |
| Schema.EmailShape | components/auth/register-form.tsx:32 | an address is exactly two parts, the local part and the domain, joined by the `@` |
| Schema.EmailExample | components/auth/register-form.tsx:32 | a plain address passes the e-mail rule |
| RegisterForm.FieldIssues | components/auth/register-form.tsx:29-38 | at most one issue per field, and none exactly when both names are given, the e-mail is an address, both passwords have six characters, the level is one of the three and the terms are accepted |
| RegisterForm.Validate | components/auth/register-form.tsx:29-42 | the field issues always come first, whatever the outcome of the password agreement |
| RegisterForm.ValidateIff | components/auth/register-form.tsx:29-42 | the form passes exactly when both names are given, the e-mail is an address, both passwords have six characters, the level is one of the three, the terms are accepted and the passwords agree |
| RegisterForm.NameIssuesIff | components/auth/register-form.tsx:30-31 | each name issue is reported exactly when that name is empty |
| RegisterForm.CredentialIssuesIff | components/auth/register-form.tsx:32-33 | the e-mail issue is reported exactly for a non-address, the password issue exactly for fewer than six characters |
| RegisterForm.ConfirmationIssuesIff | components/auth/register-form.tsx:34-42 | at the confirmation the length issue is reported exactly for fewer than six characters, and the mismatch exactly when the passwords differ and the level is valid |
| RegisterForm.ChoiceIssuesIff | components/auth/register-form.tsx:35-38 | the level issue is reported exactly for a level outside the three, the terms issue exactly when they are not accepted |
| RegisterForm.MismatchReportedAtConfirmation | components/auth/register-form.tsx:39-42 | with a valid level and long enough passwords, different passwords fail with the mismatch at the confirmation as the last issue |
| RegisterForm.Defaults | components/auth/register-form.tsx:56-64 | the untouched form: empty texts, "beginner", terms not accepted |
| RegisterForm.DefaultsInvalid | components/auth/register-form.tsx:29-64 | the untouched form fails on exactly the five text fields and the terms, in that order |
| RegisterForm.ErrorText | components/auth/register-form.tsx:89-110 | a non-empty error message is shown as it is, otherwise the fallback |
| RegisterForm.OnSubmit | components/auth/register-form.tsx:66-93 | without the terms only the terms error is shown; otherwise it signs up with the form's e-mail and password, and on success tracks the level and opens the redirect (by default the verify-email page), on failure shows the error text |
| RegisterForm.HandleSubmit | components/auth/register-form.tsx:149 | the handler runs exactly on values the schema passes |
| RegisterForm.SignUpNeedsTerms | components/auth/register-form.tsx:36-76 | no sign-up happens without accepted terms; every sign-up uses an address and a password of at least six characters; a passing form always signs up |
| RegisterForm.GoogleRegister | components/auth/register-form.tsx:95-114 | no e-mail sign-up; on success it tracks the "google" label and opens the same page as a sign-up; on failure it shows the error text |
| ProfileForm.Validate | components/profile/profile-form.tsx:33-38 | at most one issue per field |
| ProfileForm.ValidateIff | components/profile/profile-form.tsx:33-38 | the form passes exactly when both names are given, the e-mail is an address and the level is one of the three, and each issue is reported exactly when its rule fails |
| ProfileForm.Defaults | components/profile/profile-form.tsx:53-61 | the saved profile when there is one; otherwise empty names, the user's e-mail (or nothing) and "beginner" |
| ProfileForm.NewProfileNeedsNames | components/profile/profile-form.tsx:33-61 | a new profile's form fails on both names whatever the e-mail, and never on its level |
| ProfileForm.UpsertRow | components/profile/profile-form.tsx:68-77 | the row carries the user's id and the time of the call |
| ProfileForm.ValuesOf | components/profile/profile-form.tsx:70-76 | the values a row holds keep its level and e-mail |
| ProfileForm.UpsertRowOneToOne | components/profile/profile-form.tsx:68-77 | the row gives back the form it was made from, so different forms never upsert the same row |
| ProfileForm.OnSubmit | components/profile/profile-form.tsx:63-91 | the row is always sent; the page is refreshed exactly on success and an error shown exactly on failure, the database's message when it has one, never an empty one; loading ends |
| AddWordForm.Validate | components/vocabulary/add-word-form.tsx:30-36 | at most one issue per field |
| AddWordForm.ValidateIff | components/vocabulary/add-word-form.tsx:30-36 | the form passes exactly when the four texts are given and the difficulty is one of the three, and each issue is reported exactly when its rule fails |
| AddWordForm.Defaults | components/vocabulary/add-word-form.tsx:51-57 | empty texts and "medium" |
| AddWordForm.DefaultsInvalid | components/vocabulary/add-word-form.tsx:30-57 | the untouched form fails on exactly the four texts, not on its difficulty |
| AddWordForm.InsertRow | components/vocabulary/add-word-form.tsx:64-72 | the row carries the user's id and the time of the call |
| AddWordForm.ValuesOf | components/vocabulary/add-word-form.tsx:66-70 | the values a row holds keep its word and difficulty |
| AddWordForm.InsertRowCarriesValues | components/vocabulary/add-word-form.tsx:64-72 | the row gives back the form it was made from, so different forms never insert the same row |
| AddWordForm.OnSubmit | components/vocabulary/add-word-form.tsx:60-85 | the row is always sent; on success the form is reset to its defaults, success is shown and `onSuccess` is called exactly when the parent passed one; on failure the form keeps its values and a non-empty error is shown, the database's message when it has one; loading ends |
| AddWordForm.ResetOnlyOnSuccess | components/vocabulary/add-word-form.tsx:74-81 | a valid form keeps its values exactly when the insert failed, and then submitting again sends the same row |

## Left out

- Network and database access: every Supabase query, insert, update, delete and RPC (`update_word_stats_on_status_change`, `update_review_streak`, `updateUserStats`), the authentication calls and `revalidatePath` are not modelled as calls. Their answers (rows, counts, errors) are parameters and the rows written are results. Row limits such as `.limit(3)` and `.limit(20)` belong to the query, so the rows given are taken as already limited.
- The HTTP requests of `ss.py` are abstract steps. JSON decoding and `int(...)` parsing happen before the model sees the data.
- `present_data` in `ss.py` reads globals that the script never defines. Its printing is left out; the figures it prints are modelled from their inputs.
- The script's hard-coded API key is a constant outside the model.
- `ss.py` pairs subscriber identifiers with view counts through `zip`. This is modelled as written, position by position.
- Floating point is not modelled.
  - Percentages in `ss.py` are kept as the numerator and denominator they divide.
  - The reading-progress percentage is a rational number; `Math.round` of percentages is not modelled.
  - `toFixed` on ratings, `formatBytes`, and the `Intl` formatting of `formatDate`, `formatNumber` and `formatPrice` are not modelled.
- Dates and times are whole days or hours counted from an input (`today`, `now`). Calendar arithmetic (`setMonth`, `setFullYear` for subscription terms) is a term length. `toISOString().split('T')[0]` is a day number. An invalid date is its own case of the date datatype.
- Timers, animations, debouncing and `delay` are not modelled.
  - This covers the 1.5 s pause after a quiz answer and the flip animation; `InteractiveBook.AnimationEnded` stands for the animation's end.
  - The payment step of the subscription page is a fixed delay followed by `window.location.reload`; neither is modelled.
- Randomness: each shuffle by `sort(() => Math.random() - 0.5)` is a sort whose comparator is a parameter. `crypto.randomUUID` is a parameter (`freshId`).
- `localeCompare` is modelled as ordinal (code-point) comparison of strings. Locale collation is not modelled.
- JavaScript's `toLowerCase` and `toUpperCase` are broader than the model's: lower- and upper-casing are ASCII only. The same ASCII-only reading applies to the case-insensitive e-mail pattern of `Schema.IsEmail`, which follows zod 3's `email()` pattern. `Common.IsSpace` holds the full set of characters that `\s` and `trim` match.
- The regular-expression split of the book text into paragraphs in the add-book form is not modelled. The paragraphs are the input of `AddBookForm.SplitContentIntoPages`.
- The in-place `sort` calls on arrays are modelled on values; the model does not capture aliasing of the sorted array.
- Toasts, `console` output, speech synthesis and clipboard copying (`handleCopyKey`) are not modelled. Error messages are plain strings.
- The router side of the vocabulary page's URL sync effect (`router.push`) is not modelled. Reading the parameters is modelled; the page parameter arrives already parsed as a number.
- The router and analytics side effects of the three forms are their results, as described above.
- The class-name helpers `cn` and `clsx`, `isValidUrl`, `debounce` and `delay` of lib/utils.ts are not modelled, since they are styling and timing utilities.
- The `analyzeText` service and `getReviewCount` are outside the model; their results are parameters.
- The vocabulary manager declares `filteredWords` twice at the top level of the same function: as a state variable (components/vocabulary/vocabulary-manager.tsx:34) and as a constant (:154). That is a redeclaration error in TypeScript, not shadowing. The model keeps the render's constant and leaves the state variable out.
- Words per page on the vocabulary page is the fixed 20 of the source.
- VocabularyClient.Filtered: its own contract states only that filtering never adds words. Which words it keeps is stated by `VocabularyClient.Listed`.
- Utils.GetInitials: the initial is upper-cased by the ASCII-only `Utils.Upper`, whereas `toUpperCase()` also maps letters such as é or ß, so a name starting with such a letter keeps it as it is here.
- Utils.InitialsOfWords: it relies on the same ASCII-only upper-casing as `Utils.GetInitials`.
- ReviewClient.TalliesGrowByOne: for a right answer it covers only words whose status is new, learning or known, the three statuses the screen assigns.
- Utils.Truncate, Utils.TruncateText, RegisterForm.FieldIssues, AddBookForm.Pages, RichTextEditor.Marks: a string is a sequence of code points here, while JavaScript's `length`, `slice` and `substring` count UTF-16 code units. A character outside the Basic Multilingual Plane (an emoji, say) counts once here and twice in the source, so cut points, the six-character password minimum, the 500-character page packing and the highlight offsets can differ for such text.
- Utils.GroupBy, AdminAnalytics.Tally: the source accumulates into a plain object, where a key such as `__proto__` or `constructor` meets `Object.prototype`. The model's maps start empty, so those keys are grouped and counted like any other.
- BooksTable.BooksTableView.HandleDeleteBook: after a successful delete the source calls `window.location.reload()`, which refetches the whole page. The reload is not modelled; the model ends in the state the handler leaves before it.
- BookGrid.RetrySchedule: it states the delays of the intended three-retry schedule. As written, the count falls back to 0 after every retry and the retries never stop (see Findings), so this schedule is not what a persistently failing fetch goes through.
- BookGrid.Grid.RetryFired: the grid's methods keep the retry count as intended. The effect that resets the count whenever `fetchBooks` changes, and the stale `fetchBooks` a timer calls, are modelled only by `BookGrid.RunAsWritten` (see Findings).

## Findings

| source | as written | input that shows it | evidently intended | confidence | as-written member | corrected member |
|---|---|---|---|---|---|---|
| components/books/book-reader.tsx:169-190 | `toggleBookmark` updates the bookmark list and then saves `bookmarks` from the same render, which is the list before the toggle (also components/books/book-reader.tsx:311-323) | no bookmarks, toggle page 3: the screen shows [3] but [] is saved | save the list the toggle produced | not executed | BookReader.Reader.ToggleBookmarkAsWritten, BookReader.StaleBookmarkSave | BookReader.Reader.ToggleBookmark |
| components/reader/advanced-progress-bar.tsx:22-44 | past 20 pages the dot gap is `ceil(total / 20)`, and dot positions beyond the last page are clamped to it | 21 pages: the gap is 2 and dots 11 to 20 all stand for page 21 | twenty distinct dots spread over the book | not executed | ProgressBar.DotsPileUp | ProgressBar.SpreadDots, ProgressBar.SpreadDotsShape |
| components/vocabulary/advanced-flashcard-system.tsx:100-160 | after the last card, `endStudySession` runs in the same handler as the stats update and records the stats from before that answer (also components/vocabulary/advanced-flashcard-system.tsx:195-202) | a one-card session answered right records SessionRow(0, 0, 0, ...) while the screen shows Stats(1, 0, 1) | record the stats including the last answer | not executed | AdvancedFlashcards.Session.AnswerAsWritten, AdvancedFlashcards.OneCardSession | AdvancedFlashcards.Session.Answer |
| hooks/use-daily-quiz.ts:164-178 | the timer that ends the quiz calls `completeQuiz` with the score of the render that started it, without the last answer | five questions answered wrong, wrong, right, right, right: the screen shows 3, but HistoryRow(2, 5, 0) is recorded and the streak drops to 0 | record the final score | not executed | DailyQuiz.AnswerAsWritten, DailyQuiz.LastAnswerLost | DailyQuiz.Quiz.AnswerTimer |
| components/library/book-grid.tsx:141-156 | each retry timer bumps `retryCount`, which is a dependency of `fetchBooks`, so the effect resets the count to 0 and fetches again twice while the timer calls its stale `fetchBooks` | a database that fails every request: after n timer firings 1 + 3n fetches have run and 1 + 2n retries are pending, without end | at most three retries, after 1, 2 and 4 s | not executed | BookGrid.RunAsWrittenCounts, BookGrid.RetriesNeverStop | BookGrid.IntendedSchedule |
