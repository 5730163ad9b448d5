/**
  The testimonial carousel of the home page (components/home/testimonial-section.tsx):
  the testimonials loaded once on mount, the active index moved by "next" and
  "previous", and what the component shows. The query (active testimonials, newest
  first, at most three) is outside the model: its rows are a parameter.
*/
module Testimonials {
  import opened Common
  import Carousel

  const DefaultAvatar: string := "/images/default-avatar.svg"

  datatype Testimonial = Testimonial(id: string, name: string, role: string, content: string,
                                     avatarUrl: Option<string>)

  /** The avatar, or the default picture when there is none or it is empty. */
  function AvatarSrc(t: Testimonial): (r: string)
    ensures r != ""
    ensures t.avatarUrl.Some? && t.avatarUrl.value != "" ==> r == t.avatarUrl.value
  {
    if t.avatarUrl.Some? && t.avatarUrl.value != "" then t.avatarUrl.value else DefaultAvatar
  }

  /** The outcome of loading the testimonials: the rows (possibly none) or a failure. */
  datatype TestimonialsFetch = Fetched(data: Option<seq<Testimonial>>) | FetchFailed

  /** What the component renders. */
  datatype View = Loading | Nothing | Card(testimonial: Testimonial)

  class Section {
    var testimonials: seq<Testimonial>
    var activeIndex: int
    var isLoading: bool

    predicate Valid()
      reads this
    {
      && 0 <= activeIndex
      && (testimonials != [] ==> activeIndex < |testimonials|)
      && (isLoading ==> activeIndex == 0)
    }

    constructor()
      ensures Valid()
      ensures testimonials == [] && activeIndex == 0 && isLoading
    {
      testimonials := [];
      activeIndex := 0;
      isLoading := true;
    }

    /** `fetchTestimonials`, run once on mount. */
    method FetchTestimonials(outcome: TestimonialsFetch)
      requires Valid() && isLoading
      modifies this`testimonials, this`isLoading
      ensures Valid()
      ensures testimonials == (if outcome.FetchFailed? then old(testimonials)
                               else if outcome.data.Some? then outcome.data.value else [])
      ensures !isLoading && activeIndex == 0
    {
      if outcome.Fetched? {
        testimonials := if outcome.data.Some? then outcome.data.value else [];
      }
      isLoading := false;
    }

    /** A skeleton while loading, nothing without testimonials, otherwise the card of the
        active one. */
    function ViewOf(): (v: View)
      reads this
      requires Valid()
      ensures v.Loading? <==> isLoading
      ensures v.Nothing? <==> !isLoading && testimonials == []
      ensures v.Card? ==> v.testimonial == testimonials[activeIndex]
    {
      if isLoading then Loading
      else if testimonials == [] then Nothing
      else Card(testimonials[activeIndex])
    }

    /** `nextTestimonial`. The buttons exist only when a card is shown. */
    method NextTestimonial()
      requires Valid() && ViewOf().Card?
      modifies this`activeIndex
      ensures Valid()
      ensures activeIndex == Carousel.Next(old(activeIndex), |testimonials|)
      ensures activeIndex == if old(activeIndex) == |testimonials| - 1 then 0 else old(activeIndex) + 1
    {
      Carousel.NextPrev(activeIndex, |testimonials|);
      activeIndex := Carousel.Next(activeIndex, |testimonials|);
    }

    /** `prevTestimonial`. */
    method PrevTestimonial()
      requires Valid() && ViewOf().Card?
      modifies this`activeIndex
      ensures Valid()
      ensures activeIndex == Carousel.Prev(old(activeIndex), |testimonials|)
      ensures activeIndex == if old(activeIndex) == 0 then |testimonials| - 1 else old(activeIndex) - 1
    {
      Carousel.NextPrev(activeIndex, |testimonials|);
      activeIndex := Carousel.Prev(activeIndex, |testimonials|);
    }
  }

  /** "Previous" after "next" shows the same card again. */
  method NextThenPrevShowsSameCard(s: Section)
    requires s.Valid() && s.ViewOf().Card?
    modifies s
    ensures s.Valid() && s.ViewOf() == old(s.ViewOf())
  {
    s.NextTestimonial();
    s.PrevTestimonial();
  }
}
