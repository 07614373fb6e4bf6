/**
 * The GalleryManager class of main.js (main.js:3-181) with its fields updated
 * in place. Each method is proved to perform exactly the transition of the
 * same name in GallerySpec, so the properties proved there (the invariant,
 * blocking during a transition, the handoff, autoplay) hold of the object.
 */
module Gallery {
  import opened Cycling
  import GallerySpec

  class GalleryManager {
    /** The class markers of the page's slides, one record per slide. */
    const slides: array<GallerySpec.SlideClasses>
    /** Whether the page has the `slideshowView` and `gridView` elements. */
    const hasSlideshowView: bool
    const hasGridView: bool

    var currentSlide: int
    var isTransitioning: bool
    /** The pending transition callback, if any (the two `setTimeout`s). */
    var phase: GallerySpec.Phase
    var isAutoPlaying: bool
    /** Whether the interval whose handle is `slideInterval` is live. */
    var intervalArmed: bool
    var slideInterval: nat
    /** Whether the slideshow view and the grid view carry `active`. */
    var slideshowShown: bool
    var gridShown: bool
    var touchStartX: real
    var touchEndX: real

    /** The abstract value of the object and its slides. */
    ghost function State(): GallerySpec.GalleryState
      reads this, slides
    {
      GallerySpec.GalleryState(slides[..], currentSlide, isTransitioning, phase, isAutoPlaying,
                          intervalArmed, slideInterval, hasSlideshowView, hasGridView,
                          slideshowShown, gridShown, touchStartX, touchEndX)
    }

    ghost predicate Valid()
      reads this, slides
    {
      GallerySpec.Inv(State())
    }

    /** `new GalleryManager()` on a page with `slideCount` slides, the first
        of them marked active (main.js:4-21). */
    constructor (slideCount: nat, hasSlideshowView: bool, hasGridView: bool,
                 slideshowShown: bool, gridShown: bool)
      requires slideCount >= 1
      ensures Valid() && fresh(slides)
      ensures State() == GallerySpec.Initial(slideCount, hasSlideshowView, hasGridView,
                                             slideshowShown, gridShown)
    {
      slides := new GallerySpec.SlideClasses[slideCount](i => GallerySpec.SlideClasses(i == 0, false));
      this.hasSlideshowView := hasSlideshowView;
      this.hasGridView := hasGridView;
      currentSlide := 0;
      isTransitioning := false;
      phase := GallerySpec.Idle;
      isAutoPlaying := true;
      intervalArmed := false;
      slideInterval := 0;
      this.slideshowShown := slideshowShown;
      this.gridShown := gridShown;
      touchStartX := 0.0;
      touchEndX := 0.0;
      new;
      StartAutoPlay();
    }

    /** `startAutoPlay` (main.js:82-90). */
    method StartAutoPlay()
      requires Valid()
      modifies this
      ensures Valid()
      ensures State() == GallerySpec.StartAutoPlay(old(State()))
    {
      intervalArmed := true;
      slideInterval := slideInterval + 1;
    }

    /** `restartAutoPlay` (main.js:92-96). */
    method RestartAutoPlay()
      requires Valid()
      modifies this
      ensures Valid()
      ensures State() == GallerySpec.RestartAutoPlay(old(State()))
    {
      if isAutoPlaying {
        StartAutoPlay();
      }
    }

    /** `pauseAutoPlay` (main.js:98-100). */
    method PauseAutoPlay()
      requires Valid()
      modifies this
      ensures Valid()
      ensures State() == GallerySpec.PauseAutoPlay(old(State()))
    {
      isAutoPlaying := false;
    }

    /** `resumeAutoPlay` (main.js:102-105). */
    method ResumeAutoPlay()
      requires Valid()
      modifies this
      ensures Valid()
      ensures State() == GallerySpec.ResumeAutoPlay(old(State()))
    {
      isAutoPlaying := true;
      StartAutoPlay();
    }

    /** `changeSlide(direction)` (main.js:56-80), up to the scheduling of the
        enter callback. */
    method ChangeSlide(direction: int)
      requires Valid()
      requires direction == 1 || direction == -1
      modifies this, slides
      ensures Valid()
      ensures State() == GallerySpec.ChangeSlide(old(State()), direction)
    {
      if isTransitioning {
        return;
      }
      ghost var before := State();
      isTransitioning := true;
      var previousSlide := currentSlide;
      currentSlide := JsRem(currentSlide + direction + slides.Length, slides.Length);
      slides[previousSlide] := slides[previousSlide].(active := false);
      if direction > 0 {
        slides[previousSlide] := slides[previousSlide].(prev := true);
      }
      phase := GallerySpec.AwaitEnter(previousSlide);
      assert State() == GallerySpec.Depart(before, direction);
      RestartAutoPlay();
    }

    /** The first `setTimeout` callback of a transition (main.js:69-70). */
    method EnterPhase()
      requires Valid() && phase.AwaitEnter?
      modifies slides, this
      ensures Valid()
      ensures State() == GallerySpec.EnterPhase(old(State()))
    {
      slides[currentSlide] := slides[currentSlide].(active := true);
      phase := GallerySpec.AwaitCleanup(phase.previous);
    }

    /** The nested `setTimeout` callback of a transition (main.js:73-76). */
    method CleanupPhase()
      requires Valid() && phase.AwaitCleanup?
      modifies slides, this
      ensures Valid()
      ensures State() == GallerySpec.CleanupPhase(old(State()))
    {
      var previousSlide := phase.previous;
      slides[previousSlide] := slides[previousSlide].(prev := false);
      isTransitioning := false;
      phase := GallerySpec.Idle;
    }

    /** A tick of the live interval (main.js:85-89). */
    method AutoPlayTick()
      requires Valid() && intervalArmed
      modifies this, slides
      ensures Valid()
      ensures State() == GallerySpec.AutoPlayTick(old(State()))
    {
      if isAutoPlaying {
        ChangeSlide(1);
      }
    }

    /** `handleTouchStart` (main.js:108-110). */
    method HandleTouchStart(clientX: real)
      requires Valid()
      modifies this
      ensures Valid()
      ensures State() == GallerySpec.HandleTouchStart(old(State()), clientX)
    {
      touchStartX := clientX;
    }

    /** `handleTouchEnd` (main.js:118-130). */
    method HandleTouchEnd(clientX: real)
      requires Valid()
      modifies this, slides
      ensures Valid()
      ensures State() == GallerySpec.HandleTouchEnd(old(State()), clientX)
    {
      touchEndX := clientX;
      var diff := touchStartX - touchEndX;
      var magnitude := if diff < 0.0 then -diff else diff;
      if magnitude > GallerySpec.SwipeThreshold {
        if diff > 0.0 {
          ChangeSlide(1);
        } else {
          ChangeSlide(-1);
        }
      }
    }

    /** `handleKeyPress` (main.js:133-146). */
    method HandleKeyPress(key: string)
      requires Valid()
      modifies this, slides
      ensures Valid()
      ensures State() == GallerySpec.HandleKeyPress(old(State()), key)
    {
      if !hasSlideshowView || !slideshowShown {
        return;
      }
      if key == "ArrowLeft" {
        ChangeSlide(-1);
      } else if key == "ArrowRight" {
        ChangeSlide(1);
      }
    }

    /** `showSlideshow` (main.js:149-163). */
    method ShowSlideshow()
      requires Valid()
      modifies this
      ensures Valid()
      ensures State() == GallerySpec.ShowSlideshow(old(State()))
    {
      if hasSlideshowView && hasGridView {
        slideshowShown := true;
        gridShown := false;
        StartAutoPlay();
      }
    }

    /** `showGrid` (main.js:165-180). */
    method ShowGrid()
      requires Valid()
      modifies this
      ensures Valid()
      ensures State() == GallerySpec.ShowGrid(old(State()))
    {
      if hasSlideshowView && hasGridView {
        slideshowShown := false;
        gridShown := true;
        intervalArmed := false;
      }
    }
  }
}
