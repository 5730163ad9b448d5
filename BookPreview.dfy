/**
  The book preview (components/books/book-preview.tsx): the number of preview pages, the
  previous/next buttons, the dark-mode switch, and the five lines of text shown per page.
*/
module BookPreview {
  import opened Common

  const LinesPerPage: nat := 5
  const DefaultPreviewPages: nat := 20

  /** `previewPages || 20`: a missing or zero page count means twenty pages. */
  function PreviewPageCount(previewPages: Option<int>): (r: int)
    ensures previewPages.None? || previewPages.value == 0 ==> r == DefaultPreviewPages
    ensures previewPages.Some? && previewPages.value != 0 ==> r == previewPages.value
  {
    if previewPages.None? || previewPages.value == 0 then DefaultPreviewPages else previewPages.value
  }

  /** The text of page `p`: lines `(p - 1) * 5` up to `p * 5` of the content. */
  function PageText(content: string, currentPage: int): string
  {
    Join(JsSlice(Split(content, '\n'), (currentPage - 1) * LinesPerPage, currentPage * LinesPerPage), '\n')
  }

  /** A page shows at most five lines, and they are the content's lines from line
      `(p - 1) * 5` on, in order; a page inside the content shows a full five lines, or
      all that remain. */
  lemma PageTextLines(content: string, currentPage: int)
    requires currentPage >= 1
    ensures var lines := Split(content, '\n');
            var shown := JsSlice(lines, (currentPage - 1) * LinesPerPage, currentPage * LinesPerPage);
            && |shown| <= LinesPerPage
            && (forall k :: 0 <= k < |shown| ==> shown[k] == lines[(currentPage - 1) * LinesPerPage + k])
            && ((currentPage - 1) * LinesPerPage < |lines| ==>
                  |shown| == Min(LinesPerPage, |lines| - (currentPage - 1) * LinesPerPage)
                  && Split(PageText(content, currentPage), '\n') == shown)
  {
    var lines := Split(content, '\n');
    PageSlice(lines, currentPage, LinesPerPage);
    if (currentPage - 1) * LinesPerPage < |lines| {
      PageTextSplits(content, currentPage);
    }
  }

  /** The page's text splits back into the lines it was joined from. */
  lemma PageTextSplits(content: string, currentPage: int)
    requires currentPage >= 1 && (currentPage - 1) * LinesPerPage < |Split(content, '\n')|
    ensures var lines := Split(content, '\n');
            Split(PageText(content, currentPage), '\n')
              == JsSlice(lines, (currentPage - 1) * LinesPerPage, currentPage * LinesPerPage)
  {
    var lines := Split(content, '\n');
    var shown := JsSlice(lines, (currentPage - 1) * LinesPerPage, currentPage * LinesPerPage);
    PageSlice(lines, currentPage, LinesPerPage);
    assert forall k :: 0 <= k < |shown| ==> '\n' !in shown[k];
    SplitJoinRoundTrip(shown, '\n');
  }

  /** Content of at most five lines is shown whole on the first page. */
  lemma FirstPageOfShortContent(content: string)
    requires |Split(content, '\n')| <= LinesPerPage
    ensures PageText(content, 1) == content
  {
    var lines := Split(content, '\n');
    assert JsSlice(lines, 0, LinesPerPage) == lines;
    JoinSplitRoundTrip(content, '\n');
  }

  class Preview {
    var currentPage: int
    var totalPages: int
    var isDarkMode: bool

    constructor()
      ensures currentPage == 1 && totalPages == 0 && !isDarkMode
    {
      currentPage := 1;
      totalPages := 0;
      isDarkMode := false;
    }

    /** The fetched book sets the page count. */
    method BookLoaded(previewPages: Option<int>)
      modifies this`totalPages
      ensures totalPages == PreviewPageCount(previewPages)
    {
      totalPages := if previewPages.None? || previewPages.value == 0 then DefaultPreviewPages else previewPages.value;
    }

    /** `handlePrevPage`: back one page unless on the first. */
    method HandlePrevPage()
      modifies this`currentPage
      ensures currentPage == if old(currentPage) > 1 then old(currentPage) - 1 else old(currentPage)
      ensures old(currentPage) >= 1 ==> currentPage >= 1
    {
      if currentPage > 1 {
        currentPage := currentPage - 1;
      }
    }

    /** `handleNextPage`: on one page unless on the last. */
    method HandleNextPage()
      modifies this`currentPage
      ensures currentPage == if old(currentPage) < totalPages then old(currentPage) + 1 else old(currentPage)
      ensures old(currentPage) <= totalPages ==> currentPage <= totalPages
    {
      if currentPage < totalPages {
        currentPage := currentPage + 1;
      }
    }

    /** `toggleDarkMode`. */
    method ToggleDarkMode()
      modifies this`isDarkMode
      ensures isDarkMode == !old(isDarkMode)
    {
      isDarkMode := !isDarkMode;
    }
  }

  /** Switching dark mode twice restores it. */
  method ToggleDarkModeTwice(p: Preview)
    modifies p
    ensures p.isDarkMode == old(p.isDarkMode)
    ensures p.currentPage == old(p.currentPage) && p.totalPages == old(p.totalPages)
  {
    p.ToggleDarkMode();
    p.ToggleDarkMode();
  }
}
