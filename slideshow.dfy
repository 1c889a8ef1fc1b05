/**
 * The page's navigation state and its handlers: the global cursor, the slide
 * elements, the indicator dots and the body's `on-cover` class, updated in
 * place by the redraw and by the two navigation commands.
 */
module Slideshow {
  import opened Display
  import Navigation

  class Presentation {
    /** The global cursor: index of the slide on screen. */
    var currentSlide: int
    /** The slide elements of the page, in document order. */
    const slides: array<SlideView>
    /** One indicator dot per slide, holding its class names. */
    const dots: array<string>
    /** Whether the body carries the `on-cover` class. */
    var onCover: bool
    /** Number of deferred canvas resizes scheduled by redraws so far. */
    var resizeRequests: nat

    /** The slide shown when the redraw asks for the canvas of the field animation. */
    static const FieldSlide := 3

    /** The cursor names a slide, or stays at 0 when there are none; every dot belongs to a slide. */
    ghost predicate Valid()
      reads this
    {
      dots.Length == slides.Length &&
      0 <= currentSlide &&
      (slides.Length == 0 || currentSlide < slides.Length)
    }

    /** What the page shows agrees with the cursor: the state a redraw leaves behind. */
    ghost predicate Displayed()
      reads this, slides, dots
    {
      slides[..] == RenderSlides(slides.Length, currentSlide) &&
      dots[..] == RenderDots(dots.Length, currentSlide) &&
      onCover == (currentSlide == 0)
    }

    /**
     * The start of the script: the cursor is 0 and one dot is created per
     * slide, the first highlighted. The slides keep whatever the markup gave
     * them until the first redraw.
     */
    constructor (pageSlides: array<SlideView>, bodyOnCover: bool)
      ensures Valid()
      ensures slides == pageSlides && fresh(dots)
      ensures currentSlide == 0 && onCover == bodyOnCover && resizeRequests == 0
      ensures dots[..] == InitialDots(pageSlides.Length)
    {
      var created := new string[pageSlides.Length];
      for i := 0 to pageSlides.Length
        invariant forall k :: 0 <= k < i ==> created[k] == InitialDot(k)
      {
        created[i] := InitialDot(i);
      }
      currentSlide := 0;
      slides := pageSlides;
      dots := created;
      onCover := bodyOnCover;
      resizeRequests := 0;
    }

    /**
     * Redraw from the cursor: set or clear `on-cover`, restyle every slide and
     * every dot, and schedule a canvas resize when the field slide is shown.
     */
    method UpdateDisplay()
      requires Valid()
      modifies this`onCover, this`resizeRequests, slides, dots
      ensures Valid() && Displayed()
      ensures resizeRequests == old(resizeRequests) + (if currentSlide == FieldSlide then 1 else 0)
    {
      onCover := currentSlide == 0;
      var i := 0;
      while i < slides.Length
        modifies slides
        invariant 0 <= i <= slides.Length
        invariant forall k :: 0 <= k < i ==> slides[k] == SlideAt(k, currentSlide)
      {
        slides[i] := SlideAt(i, currentSlide);
        i := i + 1;
      }
      var j := 0;
      while j < dots.Length
        modifies dots
        invariant 0 <= j <= dots.Length
        invariant forall k :: 0 <= k < j ==> dots[k] == DotAt(k, currentSlide)
        invariant slides[..] == RenderSlides(slides.Length, currentSlide)
      {
        dots[j] := DotAt(j, currentSlide);
        j := j + 1;
      }
      if currentSlide == FieldSlide {
        resizeRequests := resizeRequests + 1;
      }
    }

    /** Move by `dir` slides when that lands on a slide and redraw; otherwise change nothing at all. */
    method ChangeSlide(dir: int)
      requires Valid()
      modifies this`currentSlide, this`onCover, this`resizeRequests, slides, dots
      ensures Valid()
      ensures currentSlide == Navigation.Advance(slides.Length, old(currentSlide), dir)
      ensures Navigation.InRange(slides.Length, old(currentSlide) + dir) ==>
                Displayed() &&
                resizeRequests == old(resizeRequests) + (if currentSlide == FieldSlide then 1 else 0)
      ensures !Navigation.InRange(slides.Length, old(currentSlide) + dir) ==>
                unchanged(this, slides, dots)
    {
      var next := currentSlide + dir;
      if next >= 0 && next < slides.Length {
        currentSlide := next;
        UpdateDisplay();
      }
    }

    /** Jump to slide `index` when it exists and redraw; otherwise change nothing at all. */
    method ChangeSlideTo(index: int)
      requires Valid()
      modifies this`currentSlide, this`onCover, this`resizeRequests, slides, dots
      ensures Valid()
      ensures currentSlide == Navigation.JumpTo(slides.Length, old(currentSlide), index)
      ensures Navigation.InRange(slides.Length, index) ==>
                Displayed() &&
                resizeRequests == old(resizeRequests) + (if index == FieldSlide then 1 else 0)
      ensures !Navigation.InRange(slides.Length, index) ==> unchanged(this, slides, dots)
    {
      if index >= 0 && index < slides.Length {
        currentSlide := index;
        UpdateDisplay();
      }
    }

    /** The click handler of dot `i`: it always names an existing slide, so the jump is always taken. */
    method ClickDot(i: nat)
      requires Valid() && i < dots.Length
      modifies this`currentSlide, this`onCover, this`resizeRequests, slides, dots
      ensures Valid() && Displayed() && currentSlide == i
      ensures resizeRequests == old(resizeRequests) + (if i == FieldSlide then 1 else 0)
    {
      ChangeSlideTo(i);
    }

    /** The keydown listener: right arrow is `ChangeSlide(1)`, left arrow `ChangeSlide(-1)`, any other key nothing. */
    method KeyDown(key: string)
      requires Valid()
      modifies this`currentSlide, this`onCover, this`resizeRequests, slides, dots
      ensures Valid()
      ensures currentSlide == Navigation.OnKey(slides.Length, old(currentSlide), key)
      ensures currentSlide != old(currentSlide) ==>
                Displayed() &&
                resizeRequests == old(resizeRequests) + (if currentSlide == FieldSlide then 1 else 0)
      ensures currentSlide == old(currentSlide) ==> unchanged(this, slides, dots)
      ensures key != Navigation.NextKey && key != Navigation.PreviousKey ==> unchanged(this, slides, dots)
    {
      if key == Navigation.NextKey {
        ChangeSlide(1);
      }
      if key == Navigation.PreviousKey {
        ChangeSlide(-1);
      }
    }

    /** The load handler's navigation part: the first redraw, which brings the slides in line with the cursor. */
    method Load()
      requires Valid()
      modifies this`onCover, this`resizeRequests, slides, dots
      ensures Valid() && Displayed()
      ensures resizeRequests == old(resizeRequests) + (if currentSlide == FieldSlide then 1 else 0)
    {
      UpdateDisplay();
    }
  }

  /** On a shown page with at least one slide, exactly one slide is active and exactly one dot is highlighted, both at the cursor. */
  lemma DisplayedShowsOneSlide(p: Presentation)
    requires p.Valid() && p.Displayed() && p.slides.Length > 0
    ensures ActiveSlides(p.slides[..]) == {p.currentSlide}
    ensures HighlightedDots(p.dots[..]) == {p.currentSlide}
    ensures FirstActive(p.slides[..]).Some? && FirstActive(p.slides[..]).value == p.currentSlide
  {
    ExactlyOneActive(p.slides.Length, p.currentSlide);
    ExactlyOneDot(p.dots.Length, p.currentSlide);
    RenderRecoversCursor(p.slides.Length, p.currentSlide);
  }
}
