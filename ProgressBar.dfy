/**
  The reader's progress bar (components/reader/advanced-progress-bar.tsx): the dots along
  the bar, which of them carry a bookmark or mark the current page, and the ten quick-jump
  buttons.
*/
module ProgressBar {
  import opened Common

  const MaxDots: nat := 20

  /** `Math.min(totalPages, 20)`. */
  function TotalDots(totalPages: nat): (r: nat)
    ensures r <= MaxDots && r <= totalPages
    ensures totalPages >= 1 ==> r >= 1
  {
    Min(totalPages, MaxDots)
  }

  /** `Math.ceil(totalPages / totalDots)`: the pages between two dots, the smallest gap
      with which the dots reach the last page. */
  function PageGap(totalPages: nat): (r: nat)
    requires totalPages >= 1
    ensures r >= 1
    ensures TotalDots(totalPages) * r >= totalPages
    ensures (r - 1) * TotalDots(totalPages) < totalPages
  {
    CeilDiv(totalPages, TotalDots(totalPages))
  }

  /** The dots `(i + 1) * pageGap`; with no pages there are none. */
  function Dots(totalPages: nat): (r: seq<int>)
    ensures |r| == TotalDots(totalPages)
  {
    if totalPages == 0 then []
    else seq(TotalDots(totalPages), i requires 0 <= i < TotalDots(totalPages) => (i + 1) * PageGap(totalPages))
  }

  /** `Math.min(page, totalPages)`: the page a dot stands for. A dot inside the book
      stands for its own page, and none stands for a page past the end. */
  function ActualPage(dot: int, totalPages: nat): (r: int)
    ensures r <= totalPages
    ensures dot <= totalPages ==> r == dot
  {
    Min(dot, totalPages)
  }

  /** The dots are the multiples of the gap, strictly increasing; each stands for a page
      of the book, and the last one for the last page. */
  lemma DotsShape(totalPages: nat)
    requires totalPages >= 1
    ensures var dots := Dots(totalPages);
            && |dots| >= 1
            && (forall i :: 0 <= i < |dots| ==> dots[i] == (i + 1) * PageGap(totalPages))
            && (forall i, j :: 0 <= i < j < |dots| ==> dots[i] < dots[j])
            && (forall i :: 0 <= i < |dots| ==> 1 <= ActualPage(dots[i], totalPages) <= totalPages)
            && ActualPage(dots[|dots| - 1], totalPages) == totalPages
  {
    var dots := Dots(totalPages);
    var gap := PageGap(totalPages);
    forall i, j | 0 <= i < j < |dots|
      ensures dots[i] < dots[j]
    {
      MulLess(i + 1, j + 1, gap);
    }
    forall i | 0 <= i < |dots|
      ensures 1 <= dots[i]
    {
      MulAtMost(1, i + 1, gap);
    }
    assert dots[|dots| - 1] == TotalDots(totalPages) * gap;
  }

  /** `Math.abs(a - b) <= pageGap / 2`, with the halving done exactly. */
  predicate Near(a: int, b: int, pageGap: nat)
  {
    2 * Abs(a - b) <= pageGap
  }

  /** How a dot is drawn. */
  datatype DotLook = BookmarkIcon | CurrentDot | PlainDot

  function DotLookOf(actualPage: int, currentPage: int, bookmarks: seq<int>, pageGap: nat): (r: DotLook)
    ensures r == BookmarkIcon <==> exists b :: b in bookmarks && Near(b, actualPage, pageGap)
    ensures r == CurrentDot <==>
              (forall b :: b in bookmarks ==> !Near(b, actualPage, pageGap)) && Near(currentPage, actualPage, pageGap)
  {
    if exists b :: b in bookmarks && Near(b, actualPage, pageGap) then BookmarkIcon
    else if Near(currentPage, actualPage, pageGap) then CurrentDot
    else PlainDot
  }

  /** The current page is always near at least one dot: the dot for the first multiple of
      the gap at or after it. */
  lemma CurrentPageHasDot(totalPages: nat, currentPage: int)
    requires 1 <= currentPage <= totalPages
    ensures exists i :: 0 <= i < TotalDots(totalPages) &&
              0 <= ActualPage(Dots(totalPages)[i], totalPages) - currentPage < PageGap(totalPages)
  {
    var gap := PageGap(totalPages);
    var i := DotIndex(totalPages, currentPage, gap);
    assert Dots(totalPages)[i] == (i + 1) * gap;
  }

  /** The index of the first dot at or after the current page. */
  lemma DotIndex(totalPages: nat, currentPage: int, gap: nat) returns (i: nat)
    requires 1 <= currentPage <= totalPages && gap == PageGap(totalPages)
    ensures i < TotalDots(totalPages)
    ensures 0 <= (i + 1) * gap - currentPage < gap
  {
    var n := TotalDots(totalPages);
    i := (currentPage - 1) / gap;
    DivBounds(currentPage - 1, gap);
    if n <= i {
      MulAtMost(n, i, gap);
    }
  }

  lemma DivBounds(a: nat, g: nat)
    requires g >= 1
    ensures (a / g) * g <= a < (a / g + 1) * g
  {
  }

  /** Past twenty pages the multiples of the rounded-up gap overshoot the book, and the
      clamp piles the overshooting dots onto the last page: with 21 pages the gap is 2, the
      11th dot (22) and the 20th (40) both stand for page 21, and so do the eight between. */
  lemma DotsPileUp()
    ensures PageGap(21) == 2
    ensures ActualPage(Dots(21)[10], 21) == 21 && ActualPage(Dots(21)[19], 21) == 21
    ensures forall i :: 10 <= i < 20 ==> ActualPage(Dots(21)[i], 21) == 21
  {
    assert TotalDots(21) == 20;
    assert PageGap(21) == 2;
  }

  /** Evenly spread dots: dot `i` stands for `ceil((i + 1) * totalPages / totalDots)`. */
  function SpreadDots(totalPages: nat): (r: seq<int>)
    ensures |r| == TotalDots(totalPages)
  {
    if totalPages == 0 then []
    else
      var n := TotalDots(totalPages);
      seq(n, i requires 0 <= i < n => CeilDiv((i + 1) * totalPages, n))
  }

  /** The spread dots all stand for pages of the book, no two for the same page, in
      increasing order, and the last for the last page. */
  lemma SpreadDotsShape(totalPages: nat)
    requires totalPages >= 1
    ensures var dots := SpreadDots(totalPages);
            && |dots| >= 1
            && (forall i :: 0 <= i < |dots| ==> 1 <= dots[i] <= totalPages)
            && (forall i, j :: 0 <= i < j < |dots| ==> dots[i] < dots[j])
            && dots[|dots| - 1] == totalPages
  {
    var n := TotalDots(totalPages);
    var dots := SpreadDots(totalPages);
    forall i | 0 <= i < n
      ensures 1 <= dots[i] <= totalPages
    {
      SpreadDotInBook(totalPages, n, i);
    }
    forall i | 0 <= i < n - 1
      ensures dots[i] < dots[i + 1]
    {
      SpreadDotStep(totalPages, n, i);
    }
    forall i, j | 0 <= i < j < n
      ensures dots[i] < dots[j]
    {
      SpreadIncreasing(dots, i, j);
    }
    SpreadDotInBook(totalPages, n, n - 1);
  }

  lemma SpreadDotInBook(totalPages: nat, n: nat, i: nat)
    requires 1 <= n <= totalPages && i < n
    ensures 1 <= CeilDiv((i + 1) * totalPages, n) <= totalPages
    ensures i == n - 1 ==> CeilDiv((i + 1) * totalPages, n) == totalPages
  {
    MulAtMost(1, i + 1, totalPages);
    MulAtMost(i + 1, n, totalPages);
    assert n * totalPages == totalPages * n;
    CeilDivLeast((i + 1) * totalPages, n, totalPages);
  }

  lemma SpreadDotStep(totalPages: nat, n: nat, i: nat)
    requires 1 <= n <= totalPages
    ensures CeilDiv((i + 1) * totalPages, n) < CeilDiv((i + 2) * totalPages, n)
  {
    CeilDivStep((i + 1) * totalPages, totalPages, n);
    assert (i + 2) * totalPages == (i + 1) * totalPages + totalPages;
  }

  lemma {:induction false} SpreadIncreasing(dots: seq<int>, i: int, j: int)
    requires forall k :: 0 <= k < |dots| - 1 ==> dots[k] < dots[k + 1]
    requires 0 <= i < j < |dots|
    ensures dots[i] < dots[j]
    decreases j - i
  {
    if j > i + 1 {
      SpreadIncreasing(dots, i, j - 1);
    }
  }

  /** Any multiple count that covers `a` is at least `ceil(a / d)`. */
  lemma CeilDivLeast(a: nat, d: nat, r: nat)
    requires d >= 1 && r * d >= a
    ensures CeilDiv(a, d) <= r
  {
    var c := CeilDiv(a, d);
    if c > r {
      MulAtMost(r, c - 1, d);
    }
  }

  /** Adding at least `d` to the numerator adds at least one to `ceil(a / d)`. */
  lemma CeilDivStep(a: nat, b: nat, d: nat)
    requires d >= 1 && b >= d
    ensures CeilDiv(a + b, d) >= CeilDiv(a, d) + 1
  {
    var r := CeilDiv(a + b, d);
    assert r >= 1;
    assert (r - 1) * d == r * d - d;
    CeilDivLeast(a, d, r - 1);
  }

  /** The quick-jump button `i` (0 to 9): `ceil(totalPages * (i + 1) / 10)` clamped into
      `1..totalPages`. Every jump lands inside the book. */
  function JumpTarget(totalPages: nat, i: nat): (r: int)
    ensures totalPages >= 1 ==> 1 <= r <= totalPages
  {
    Max(1, Min(totalPages, CeilDiv(totalPages * (i + 1), 10)))
  }

  /** The jumps never go backwards from one button to the next, and the last button
      jumps to the last page. */
  lemma JumpTargets(totalPages: nat, i: nat, j: nat)
    requires totalPages >= 1
    requires i <= j < 10
    ensures JumpTarget(totalPages, i) <= JumpTarget(totalPages, j)
    ensures JumpTarget(totalPages, 9) == totalPages
  {
    MulAtMost(i + 1, j + 1, totalPages);
    CeilDivMonotone((i + 1) * totalPages, (j + 1) * totalPages, 10);
    assert (i + 1) * totalPages == totalPages * (i + 1);
    assert (j + 1) * totalPages == totalPages * (j + 1);
    assert CeilDiv(totalPages * 10, 10) == totalPages;
    MulAtMost(1, i + 1, totalPages);
    CeilDivMonotone(totalPages, totalPages * 10, 10);
  }

  lemma CeilDivMonotone(a: nat, b: nat, d: nat)
    requires d >= 1 && a <= b
    ensures CeilDiv(a, d) <= CeilDiv(b, d)
  {
    // a larger quotient for `a` would put (ra - 1) * d, which is below a, at or above b
    var ra, rb := CeilDiv(a, d), CeilDiv(b, d);
    if ra > rb {
      MulAtMost(rb, ra - 1, d);
    }
  }

  lemma MulLess(i: int, j: int, g: int)
    requires i < j && g >= 1
    ensures i * g < j * g
  {
  }

  lemma MulAtMost(i: int, j: int, g: int)
    requires i <= j && g >= 0
    ensures i * g <= j * g
  {
  }
}
