/**
  The library pager (components/library/pagination.tsx): the list of page buttons with
  ellipses, and the previous/next handlers.
*/
module Pagination {
  import opened Common

  /** One entry of the pager: a page number or the "..." marker. */
  datatype PageItem = Num(n: int) | Dots

  /** Which pages the first loop keeps: the first, the last, and those within
      `delta = 2` of the current page. */
  predicate Kept(i: int, currentPage: int, totalPages: int)
  {
    i == 1 || i == totalPages || (currentPage - 2 <= i && i <= currentPage + 2)
  }

  /** The shape every pager list has: numbers increase, two neighbouring numbers are
      consecutive, and "..." stands only between two numbers more than two apart. */
  ghost predicate WellFormed(items: seq<PageItem>)
  {
    && (forall j, k :: 0 <= j < k < |items| && items[j].Num? && items[k].Num? ==> items[j].n < items[k].n)
    && (forall j :: 0 <= j < |items| - 1 && items[j].Num? && items[j + 1].Num? ==> items[j + 1].n == items[j].n + 1)
    && (forall j :: 0 <= j < |items| && items[j].Dots? ==>
          && 0 < j < |items| - 1
          && items[j - 1].Num? && items[j + 1].Num?
          && items[j + 1].n - items[j - 1].n > 2)
  }

  /** The first loop of `getPageNumbers`: the kept pages in increasing order. */
  method KeptPages(currentPage: int, totalPages: int) returns (range: seq<int>)
    ensures forall j, k :: 0 <= j < k < |range| ==> range[j] < range[k]
    ensures forall i :: i in range <==> 1 <= i <= totalPages && Kept(i, currentPage, totalPages)
  {
    range := [];
    var i := 1;
    while i <= totalPages
      invariant 1 <= i <= Max(totalPages, 0) + 1
      invariant forall j, k :: 0 <= j < k < |range| ==> range[j] < range[k]
      invariant forall j :: 0 <= j < |range| ==> range[j] < i
      invariant forall x :: x in range <==> 1 <= x < i && Kept(x, currentPage, totalPages)
    {
      if i == 1 || i == totalPages || (i >= currentPage - 2 && i <= currentPage + 2) {
        range := range + [i];
      }
      i := i + 1;
    }
  }

  /** The second loop of `getPageNumbers` as a function of the kept pages: after each
      page, a gap of exactly two gets the page in between and a larger gap gets "...".
      Nothing comes from no pages, and something from any. */
  function WithDots(range: seq<int>): (r: seq<PageItem>)
    ensures r == [] <==> range == []
  {
    if |range| <= 1 then seq(|range|, k requires 0 <= k < |range| => Num(range[k]))
    else
      var l := range[|range| - 2];
      var i := range[|range| - 1];
      WithDots(range[..|range| - 1]) + Between(l, i) + [Num(i)]
  }

  /** What goes between two kept pages `l < i`: the page in between for a gap of two,
      "..." for a larger one. */
  function Between(l: int, i: int): seq<PageItem>
  {
    if i - l == 2 then [Num(l + 1)] else if i - l != 1 then [Dots] else []
  }

  /** `WithDots` of one more kept page. */
  lemma WithDotsStep(range: seq<int>, idx: nat)
    requires idx < |range|
    ensures WithDots(range[..idx + 1]) ==
            WithDots(range[..idx]) + (if idx == 0 then [] else Between(range[idx - 1], range[idx])) + [Num(range[idx])]
  {
    assert range[..idx + 1][..idx] == range[..idx];
  }

  predicate Increasing(range: seq<int>)
  {
    forall j, k :: 0 <= j < k < |range| ==> range[j] < range[k]
  }

  lemma {:induction false} WithDotsShape(range: seq<int>)
    requires Increasing(range)
    ensures var items := WithDots(range);
            && WellFormed(items)
            && (|range| > 0 ==> items[|items| - 1] == Num(range[|range| - 1]))
            && (forall j :: 0 <= j < |items| && items[j].Num? ==> items[j].n <= range[|range| - 1])
  {
    if |range| > 1 {
      var prev := range[..|range| - 1];
      WithDotsShape(prev);
      AppendStep(WithDots(prev), range[|range| - 2], range[|range| - 1]);
    }
  }

  /** Appending the next kept page `i` after a well-formed list that ends at `l < i`. */
  lemma AppendStep(a: seq<PageItem>, l: int, i: int)
    requires WellFormed(a) && |a| > 0 && a[|a| - 1] == Num(l)
    requires forall j :: 0 <= j < |a| && a[j].Num? ==> a[j].n <= l
    requires l < i
    ensures var b := a + Between(l, i) + [Num(i)];
            && WellFormed(b) && b[|b| - 1] == Num(i)
            && (forall j :: 0 <= j < |b| && b[j].Num? ==> b[j].n <= i)
  {
    AppendOrder(a, l, i);
    AppendNeighbours(a, l, i);
  }

  /** The numbers of the longer list still increase and end at `i`. */
  lemma AppendOrder(a: seq<PageItem>, l: int, i: int)
    requires WellFormed(a) && |a| > 0 && a[|a| - 1] == Num(l)
    requires forall j :: 0 <= j < |a| && a[j].Num? ==> a[j].n <= l
    requires l < i
    ensures var b := a + Between(l, i) + [Num(i)];
            && b[|b| - 1] == Num(i)
            && (forall j :: 0 <= j < |b| && b[j].Num? ==> b[j].n <= i)
            && (forall j, k :: 0 <= j < k < |b| && b[j].Num? && b[k].Num? ==> b[j].n < b[k].n)
  {
    var m := Between(l, i);
    var b := a + m + [Num(i)];
    assert forall j :: 0 <= j < |a| ==> b[j] == a[j];
    assert |m| == 1 ==> b[|a|] == m[0];
    forall j, k | 0 <= j < k < |b| && b[j].Num? && b[k].Num? ensures b[j].n < b[k].n {
    }
  }

  /** Neighbouring numbers of the longer list are consecutive, and its "..." sits
      between numbers more than two apart. */
  lemma AppendNeighbours(a: seq<PageItem>, l: int, i: int)
    requires WellFormed(a) && |a| > 0 && a[|a| - 1] == Num(l)
    requires l < i
    ensures var b := a + Between(l, i) + [Num(i)];
            && (forall j :: 0 <= j < |b| - 1 && b[j].Num? && b[j + 1].Num? ==> b[j + 1].n == b[j].n + 1)
            && (forall j :: 0 <= j < |b| && b[j].Dots? ==>
                  && 0 < j < |b| - 1
                  && b[j - 1].Num? && b[j + 1].Num?
                  && b[j + 1].n - b[j - 1].n > 2)
  {
    var m := Between(l, i);
    var b := a + m + [Num(i)];
    assert forall j :: 0 <= j < |a| ==> b[j] == a[j];
    assert |m| == 1 ==> b[|a|] == m[0];
    forall j | 0 <= j < |b| - 1 && b[j].Num? && b[j + 1].Num? ensures b[j + 1].n == b[j].n + 1 {
    }
    forall j | 0 <= j < |b| && b[j].Dots?
      ensures 0 < j < |b| - 1 && b[j - 1].Num? && b[j + 1].Num? && b[j + 1].n - b[j - 1].n > 2
    {
      if j < |a| {
        assert j < |a| - 1;
      }
    }
  }

  lemma {:induction false} WithDotsNumbers(range: seq<int>)
    ensures forall j :: 0 <= j < |WithDots(range)| && WithDots(range)[j].Num? ==>
              WithDots(range)[j].n in range ||
              (WithDots(range)[j].n - 1 in range && WithDots(range)[j].n + 1 in range)
  {
    if |range| > 1 {
      var prev := range[..|range| - 1];
      WithDotsNumbers(prev);
      assert forall x :: x in prev ==> x in range;
    }
  }

  lemma {:induction false} WithDotsCovers(range: seq<int>)
    ensures forall x :: x in range ==> Num(x) in WithDots(range)
  {
    if |range| == 1 {
      assert WithDots(range) == [Num(range[0])];
    } else if |range| > 1 {
      var prev := range[..|range| - 1];
      WithDotsCovers(prev);
      assert range == prev + [range[|range| - 1]];
      var items := WithDots(range);
      assert items[|items| - 1] == Num(range[|range| - 1]);
      forall x | x in prev
        ensures Num(x) in items
      {
        var j :| 0 <= j < |WithDots(prev)| && WithDots(prev)[j] == Num(x);
        assert items[j] == Num(x);
      }
    }
  }

  /** Every number on the pager is a page of the book, and a kept page or the page a
      filled gap holds; every kept page is on the pager. */
  ghost predicate ShowsKept(items: seq<PageItem>, currentPage: int, totalPages: int)
  {
    && (forall j :: 0 <= j < |items| && items[j].Num? ==>
          1 <= items[j].n <= totalPages &&
          (Kept(items[j].n, currentPage, totalPages) ||
           (Kept(items[j].n - 1, currentPage, totalPages) && Kept(items[j].n + 1, currentPage, totalPages))))
    && (forall p :: 1 <= p <= totalPages && Kept(p, currentPage, totalPages) ==> Num(p) in items)
  }

  /** What the kept pages make of the pager list. */
  lemma PagerFromKept(currentPage: int, totalPages: int, range: seq<int>)
    requires Increasing(range)
    requires forall i :: i in range <==> 1 <= i <= totalPages && Kept(i, currentPage, totalPages)
    ensures var items := WithDots(range);
      && (totalPages <= 0 ==> items == [])
      && WellFormed(items)
      && ShowsKept(items, currentPage, totalPages)
  {
    WithDotsShape(range);
    KeptNumbers(currentPage, totalPages, range);
    KeptCovered(currentPage, totalPages, range);
  }

  /** Each number on the pager is a kept page or the page a filled gap holds. */
  lemma KeptNumbers(currentPage: int, totalPages: int, range: seq<int>)
    requires forall i :: i in range <==> 1 <= i <= totalPages && Kept(i, currentPage, totalPages)
    ensures var items := WithDots(range);
      forall j :: 0 <= j < |items| && items[j].Num? ==>
        1 <= items[j].n <= totalPages &&
        (Kept(items[j].n, currentPage, totalPages) ||
         (Kept(items[j].n - 1, currentPage, totalPages) && Kept(items[j].n + 1, currentPage, totalPages)))
  {
    WithDotsNumbers(range);
  }

  /** Every kept page is on the pager. */
  lemma KeptCovered(currentPage: int, totalPages: int, range: seq<int>)
    requires forall i :: i in range <==> 1 <= i <= totalPages && Kept(i, currentPage, totalPages)
    ensures forall p :: 1 <= p <= totalPages && Kept(p, currentPage, totalPages) ==> Num(p) in WithDots(range)
  {
    WithDotsCovers(range);
  }

  /** `getPageNumbers`: the kept pages, with a gap of exactly two filled by the page in
      between and any larger gap marked by "...". */
  method GetPageNumbers(currentPage: int, totalPages: int) returns (items: seq<PageItem>)
    ensures totalPages <= 0 ==> items == []
    ensures WellFormed(items)
    ensures ShowsKept(items, currentPage, totalPages)
    ensures totalPages >= 1 ==> Num(1) in items && Num(totalPages) in items
  {
    var range := KeptPages(currentPage, totalPages);
    items := FillGaps(range);
    PagerFromKept(currentPage, totalPages, range);
    assert Kept(1, currentPage, totalPages) && Kept(totalPages, currentPage, totalPages);
  }

  /** The loop of `getPageNumbers` over the kept pages: each page is appended after
      what its gap to the page before calls for. */
  method FillGaps(range: seq<int>) returns (items: seq<PageItem>)
    ensures items == WithDots(range)
  {
    items := [];
    var l: Option<int> := None;
    for idx := 0 to |range|
      invariant items == WithDots(range[..idx])
      invariant idx == 0 <==> l.None?
      invariant idx > 0 ==> l == Some(range[idx - 1])
    {
      var i := range[idx];
      WithDotsStep(range, idx);
      ghost var before := items;
      if l.Some? {
        if i - l.value == 2 {
          items := items + [Num(l.value + 1)];
        } else if i - l.value != 1 {
          items := items + [Dots];
        }
        assert items == before + Between(l.value, i);
      }
      items := items + [Num(i)];
      l := Some(i);
    }
    assert range[..|range|] == range;
  }

  /** `handlePrevious`: the page handed to `onPageChange`, if it is called at all. */
  function Previous(currentPage: int): (r: Option<int>)
    ensures r.Some? <==> currentPage > 1
    ensures r.Some? ==> r.value == currentPage - 1 && r.value >= 1
  {
    if currentPage > 1 then Some(currentPage - 1) else None
  }

  /** `handleNext`: the page handed to `onPageChange`, if it is called at all. */
  function Next(currentPage: int, totalPages: int): (r: Option<int>)
    ensures r.Some? <==> currentPage < totalPages
    ensures r.Some? ==> r.value == currentPage + 1 && r.value <= totalPages
  {
    if currentPage < totalPages then Some(currentPage + 1) else None
  }

  /** From a page inside the pager, both handlers stay inside it, and they undo each
      other. */
  lemma PreviousNextInRange(currentPage: int, totalPages: int)
    requires 1 <= currentPage <= totalPages
    ensures Previous(currentPage).Some? ==> 1 <= Previous(currentPage).value <= totalPages
    ensures Next(currentPage, totalPages).Some? ==> 1 <= Next(currentPage, totalPages).value <= totalPages
    ensures Previous(currentPage).Some? ==> Next(Previous(currentPage).value, totalPages) == Some(currentPage)
    ensures Next(currentPage, totalPages).Some? ==> Previous(Next(currentPage, totalPages).value) == Some(currentPage)
  {
  }
}
