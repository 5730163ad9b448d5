/**
  The page-flip book (components/reader/page-flip/interactive-book.tsx): the page index,
  flips by button and by drag, and the per-book flip settings. A flip runs in two steps:
  the handler starts the animation and says what it will do when it ends, and
  `AnimationEnded` is that end.
*/
module InteractiveBook {
  import opened Common
  import opened PageFlipSettings

  datatype Direction = Forward | Backward

  /** The velocity below which a drag always turns the page. */
  const FlingVelocity: real := -500.0

  /** `Math.min(Math.max(initialPage - 1, 0), pages.length - 1)`. */
  function InitialIndex(initialPage: int, pageCount: nat): (r: int)
    ensures pageCount >= 1 ==> 0 <= r < pageCount
    ensures pageCount >= 1 && 1 <= initialPage <= pageCount ==> r == initialPage - 1
  {
    Min(Max(initialPage - 1, 0), pageCount - 1)
  }

  /** `shouldTurnPage`: dragged further than the threshold, or flung to the left. */
  predicate ShouldTurnPage(dragDistance: real, threshold: real, velocity: real)
  {
    dragDistance > threshold || velocity < FlingVelocity
  }

  class Book {
    const pageCount: nat
    var currentPageIndex: int
    var isFlipping: bool
    var flipDirection: Direction
    var settings: Settings

    /** The current page is an index into `pages`; with no pages it is -1. */
    ghost predicate Valid()
      reads this
    {
      if pageCount >= 1 then 0 <= currentPageIndex < pageCount else currentPageIndex == -1
    }

    constructor(count: nat, initialPage: int, initialSettings: Settings)
      ensures pageCount == count && currentPageIndex == InitialIndex(initialPage, count)
      ensures !isFlipping && flipDirection == Forward && settings == initialSettings
      ensures Valid()
    {
      pageCount := count;
      currentPageIndex := Min(Max(initialPage - 1, 0), count - 1);
      isFlipping := false;
      flipDirection := Forward;
      settings := initialSettings;
    }

    /** The pages drawn under and behind the current one. */
    function PrevPageIndex(): (r: int)
      reads this
      requires Valid() && pageCount >= 1
      ensures 0 <= r < pageCount && r <= currentPageIndex
      ensures r == currentPageIndex <==> currentPageIndex == 0
    {
      Max(currentPageIndex - 1, 0)
    }

    function NextPageIndex(): (r: int)
      reads this
      requires Valid() && pageCount >= 1
      ensures 0 <= r < pageCount && r >= currentPageIndex
      ensures r == currentPageIndex <==> currentPageIndex == pageCount - 1
    {
      Min(currentPageIndex + 1, pageCount - 1)
    }

    /** `handlePageFlip`: ignored during a flip; otherwise a flip is started that ends on
        the next or previous page when there is one, and is over at once when there is
        none. */
    method HandlePageFlip(direction: Direction) returns (target: Option<int>)
      requires Valid()
      modifies this`isFlipping, this`flipDirection
      ensures Valid()
      ensures old(isFlipping) ==> target.None? && isFlipping && flipDirection == old(flipDirection)
      ensures !old(isFlipping) ==> flipDirection == direction
      ensures !old(isFlipping) && direction == Forward && currentPageIndex < pageCount - 1 ==>
                target == Some(currentPageIndex + 1) && isFlipping
      ensures !old(isFlipping) && direction == Backward && currentPageIndex > 0 ==>
                target == Some(currentPageIndex - 1) && isFlipping
      ensures (!old(isFlipping) && !(direction == Forward && currentPageIndex < pageCount - 1)
                && !(direction == Backward && currentPageIndex > 0)) ==> target.None? && !isFlipping
      ensures target.Some? ==> 0 <= target.value < pageCount
    {
      if isFlipping {
        return None;
      }
      flipDirection := direction;
      isFlipping := true;
      if direction == Forward && currentPageIndex < pageCount - 1 {
        target := Some(currentPageIndex + 1);
      } else if direction == Backward && currentPageIndex > 0 {
        target := Some(currentPageIndex - 1);
      } else {
        isFlipping := false;
        target := None;
      }
    }

    /** `handleDragStart`: refused when flipping by drag is off or a flip is running. */
    method HandleDragStart() returns (started: bool)
      modifies this`isFlipping
      ensures started <==> old(settings.interactiveFlipEnabled) && !old(isFlipping)
      ensures isFlipping == (old(isFlipping) || started)
    {
      if !settings.interactiveFlipEnabled || isFlipping {
        return false;
      }
      isFlipping := true;
      return true;
    }

    /** `handleDragEnd` with the page width and the drag's distance and velocity: the
        page turns when the drag is far or fast enough and this is not the last page;
        otherwise the drag falls back. */
    method HandleDragEnd(pageWidth: real, dragDistance: real, velocity: real) returns (target: Option<int>)
      requires Valid()
      ensures !settings.interactiveFlipEnabled ==> target.None?
      ensures settings.interactiveFlipEnabled ==>
                (target.Some? <==> ShouldTurnPage(dragDistance, pageWidth * settings.pageFlipThreshold, velocity)
                                   && currentPageIndex < pageCount - 1)
      ensures target.Some? ==> target.value == currentPageIndex + 1 && target.value < pageCount
    {
      if !settings.interactiveFlipEnabled {
        return None;
      }
      var threshold := pageWidth * settings.pageFlipThreshold;
      var shouldTurnPage := dragDistance > threshold || velocity < FlingVelocity;
      if shouldTurnPage && currentPageIndex < pageCount - 1 {
        target := Some(currentPageIndex + 1);
      } else {
        target := None;
      }
    }

    /** The end of a flip or drag animation: the page it was heading for, if any,
        becomes current, and the flip is over. */
    method AnimationEnded(target: Option<int>)
      requires Valid()
      requires target.Some? ==> 0 <= target.value < pageCount
      modifies this`currentPageIndex, this`isFlipping
      ensures Valid() && !isFlipping
      ensures currentPageIndex == if target.Some? then target.value else old(currentPageIndex)
    {
      if target.Some? {
        currentPageIndex := target.value;
      }
      isFlipping := false;
    }

    /** `updateSettings`: only the fields given change. */
    method UpdateSettings(newSettings: Partial)
      modifies this`settings
      ensures settings == Merge(old(settings), newSettings)
    {
      settings := Merge(settings, newSettings);
    }
  }

  /** A forward flip from a page that has a next one, run to the end of its animation,
      moves exactly one page on; from the last page it leaves the index alone. */
  method FlipForward(b: Book)
    requires b.Valid() && !b.isFlipping
    modifies b
    ensures b.Valid() && !b.isFlipping
    ensures b.currentPageIndex == if old(b.currentPageIndex) < b.pageCount - 1 then old(b.currentPageIndex) + 1 else old(b.currentPageIndex)
  {
    var target := b.HandlePageFlip(Forward);
    b.AnimationEnded(target);
  }
}
