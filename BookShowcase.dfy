/**
  The featured-book carousel of the home page (components/home/book-showcase.tsx): the
  books loaded once on mount, the active index moved by "next" and "previous", and what
  the component shows. The query (active books by rating, at most three) is outside the
  model: its rows are a parameter.
*/
module BookShowcase {
  import opened Common
  import Carousel
  import Utils

  const GeneralCategory: string := "عمومی"
  const PlaceholderCover: string := "/images/book-placeholder.svg"

  datatype Book = Book(
    id: string,
    slug: string,
    title: string,
    author: string,
    coverImage: Option<string>,
    level: string,
    categories: Option<seq<string>>,
    isPremium: bool)

  /** `parts.join(sep)`. */
  function JoinWith(parts: seq<string>, sep: string): string
  {
    if |parts| == 0 then ""
    else if |parts| == 1 then parts[0]
    else parts[0] + sep + JoinWith(parts[1..], sep)
  }

  /** The category badge: the category names joined by ", ", or "general" when there is
      no category or the names join to nothing. */
  function CategoryText(categories: Option<seq<string>>): (r: string)
    ensures r != ""
    ensures categories.None? || categories.value == [] ==> r == GeneralCategory
    ensures categories.Some? && JoinWith(categories.value, ", ") != "" ==> r == JoinWith(categories.value, ", ")
  {
    var joined := if categories.Some? then JoinWith(categories.value, ", ") else "";
    if joined != "" then joined else GeneralCategory
  }

  /** A single named category is shown as it is; two are shown with ", " between. */
  lemma CategoryTextExamples(a: string, b: string)
    requires a != ""
    ensures CategoryText(Some([a])) == a
    ensures CategoryText(Some([a, b])) == a + ", " + b
  {
    assert [a, b][1..] == [b];
    assert JoinWith([a, b], ", ") == a + ", " + b;
    assert (a + ", " + b)[0] == a[0];
  }

  /** The cover image, or the placeholder when there is none or it is empty. */
  function CoverSrc(b: Book): (r: string)
    ensures r != ""
    ensures b.coverImage.Some? && b.coverImage.value != "" ==> r == b.coverImage.value
  {
    if b.coverImage.Some? && b.coverImage.value != "" then b.coverImage.value else PlaceholderCover
  }

  /** The links of a slide: the book page and its free preview. */
  function BookHref(b: Book): string { "/books/" + b.slug }

  function PreviewHref(b: Book): (r: string)
    ensures r == BookHref(b) + "?preview=true"
  {
    "/books/" + b.slug + "?preview=true"
  }

  /** The outcome of loading the books: the rows (possibly none) or a failure. */
  datatype BooksFetch = Fetched(data: Option<seq<Book>>) | FetchFailed

  /** What the component renders. */
  datatype View = Loading | Nothing | Slide(book: Book)

  class Showcase {
    var activeIndex: int
    var books: seq<Book>
    var isLoading: bool

    /** The active index is always a valid position once there is a book, and loading
        happens before anything can move it. */
    predicate Valid()
      reads this
    {
      && 0 <= activeIndex
      && (books != [] ==> activeIndex < |books|)
      && (isLoading ==> activeIndex == 0)
    }

    constructor()
      ensures Valid()
      ensures activeIndex == 0 && books == [] && isLoading
    {
      activeIndex := 0;
      books := [];
      isLoading := true;
    }

    /** `fetchFeaturedBooks`, run once on mount: the rows, or none when the query gives
        no data; a failure keeps the (empty) list. Loading ends either way. */
    method FetchFeaturedBooks(outcome: BooksFetch)
      requires Valid() && isLoading
      modifies this`books, this`isLoading
      ensures Valid()
      ensures books == (if outcome.FetchFailed? then old(books) else if outcome.data.Some? then outcome.data.value else [])
      ensures !isLoading && activeIndex == 0
    {
      if outcome.Fetched? {
        books := if outcome.data.Some? then outcome.data.value else [];
      }
      isLoading := false;
    }

    /** What is shown: a skeleton while loading, nothing without books, otherwise the
        book at the active index. */
    function ViewOf(): (v: View)
      reads this
      requires Valid()
      ensures v.Loading? <==> isLoading
      ensures v.Nothing? <==> !isLoading && books == []
      ensures v.Slide? ==> v.book == books[activeIndex]
    {
      if isLoading then Loading
      else if books == [] then Nothing
      else Slide(books[activeIndex])
    }

    /** `nextBook`. The button exists only when a book is shown. */
    method NextBook()
      requires Valid() && ViewOf().Slide?
      modifies this`activeIndex
      ensures Valid()
      ensures activeIndex == Carousel.Next(old(activeIndex), |books|)
      ensures activeIndex == if old(activeIndex) == |books| - 1 then 0 else old(activeIndex) + 1
    {
      Carousel.NextPrev(activeIndex, |books|);
      activeIndex := Carousel.Next(activeIndex, |books|);
    }

    /** `prevBook`. */
    method PrevBook()
      requires Valid() && ViewOf().Slide?
      modifies this`activeIndex
      ensures Valid()
      ensures activeIndex == Carousel.Prev(old(activeIndex), |books|)
      ensures activeIndex == if old(activeIndex) == 0 then |books| - 1 else old(activeIndex) - 1
    {
      Carousel.NextPrev(activeIndex, |books|);
      activeIndex := Carousel.Prev(activeIndex, |books|);
    }
  }

  /** "Previous" after "next" shows the same book again. */
  method NextThenPrevShowsSameBook(s: Showcase)
    requires s.Valid() && s.ViewOf().Slide?
    modifies s
    ensures s.Valid() && s.ViewOf() == old(s.ViewOf())
  {
    s.NextBook();
    s.PrevBook();
  }

  /** The level badge of a slide uses this file's own copy of `getLevelText`, which is
      the same map as lib/utils.ts: a level is translated exactly when it is one of the
      three. */
  function LevelBadge(b: Book): (r: string)
    ensures r != b.level <==> Utils.IsLevel(b.level)
  {
    Utils.LevelText(b.level)
  }
}
